/** The two dispatch ladders of `DispatchHelper`: a template recursion over a
    closed list of candidates that calls the operator's `DoRunWithValue<V>` or
    `DoRunWithType<T>` for the first candidate that matches the runtime value.
    The candidate list is a sequence, the operator's family of specialized
    methods a function from the template argument to what that method does. */
module Dispatch {
  import opened Numbers
  import opened Errors
  import opened Blobs

  /** The template argument of the catch-all `DoRunWithValue` specialization. */
  const FALLBACK_VALUE: int := -1

  const UNSUPPORTED_TYPE: string := "Unsupported type of tensor: "

  // ---------------------------------------------------------------------------
  // Integer ladder: DispatchHelper<FixedValues<FirstVal, Values...>>
  // ---------------------------------------------------------------------------

  /** The rung of the integer ladder that fires. */
  datatype ValueChoice = Candidate(index: nat) | Fallback

  /** One rung per candidate: the first candidate equal to `value` wins, and an
      exhausted list falls back. `value` is compared at full width (see
      `CallWithValueAsWritten` for the header's narrowing). */
  function SelectValue(candidates: seq<int32>, value: int): (c: ValueChoice)
    ensures c.Candidate? ==> c.index < |candidates| && candidates[c.index] == value
    ensures c.Candidate? ==> forall j :: 0 <= j < c.index ==> candidates[j] != value
    ensures c.Fallback? <==> (forall j :: 0 <= j < |candidates| ==> candidates[j] != value)
    decreases |candidates|
  {
    if |candidates| == 0 then Fallback
    else if candidates[0] == value then Candidate(0)
    else match SelectValue(candidates[1..], value)
      case Candidate(i) => Candidate(i + 1)
      case Fallback => Fallback
  }

  /** The template argument of the specialization a choice invokes. */
  function ValueArgument(candidates: seq<int32>, c: ValueChoice): int
    requires c.Candidate? ==> c.index < |candidates|
  {
    match c
    case Candidate(i) => candidates[i]
    case Fallback => FALLBACK_VALUE
  }

  /** `DispatchHelper<FixedValues<...>>::call(op, value)`: the outcome of the one
      `DoRunWithValue` specialization the ladder reaches. It never fails by
      itself: a value outside the list runs the `-1` specialization. */
  function CallWithValue(candidates: seq<int32>, value: int, doRunWithValue: int -> Outcome<bool>): (r: Outcome<bool>)
    ensures (exists j :: 0 <= j < |candidates| && candidates[j] == value) ==> r == doRunWithValue(value)
    ensures (forall j :: 0 <= j < |candidates| ==> candidates[j] != value) ==> r == doRunWithValue(FALLBACK_VALUE)
  {
    doRunWithValue(ValueArgument(candidates, SelectValue(candidates, value)))
  }

  /** The ladder as the header declares it: each rung takes `int value`, so a
      64-bit `TIndex` argument is narrowed to 32 bits before the first
      comparison, while only the empty-list rung takes a `TIndex`. */
  function CallWithValueAsWritten(candidates: seq<int32>, size: int64, doRunWithValue: int -> Outcome<bool>): (r: Outcome<bool>)
    ensures Narrow(size) in candidates ==> r == doRunWithValue(Narrow(size))
    ensures Narrow(size) !in candidates ==> r == doRunWithValue(FALLBACK_VALUE)
  {
    if |candidates| == 0 then doRunWithValue(FALLBACK_VALUE)
    else CallWithValue(candidates, Narrow(size), doRunWithValue)
  }

  /** A size of 2^32 + 1 reaches `DoRunWithValue<1>()` through `FixedValues<1, 4>`
      although it equals neither candidate; compared at full width it reaches
      the `-1` fallback. */
  lemma NarrowingMisroutesLargeSize(doRunWithValue: int -> Outcome<bool>)
    ensures SelectValue([1, 4], Narrow(0x1_0000_0001)) == Candidate(0)
    ensures CallWithValueAsWritten([1, 4], 0x1_0000_0001, doRunWithValue) == doRunWithValue(1)
    ensures CallWithValue([1, 4], 0x1_0000_0001, doRunWithValue) == doRunWithValue(FALLBACK_VALUE)
  {
    assert Narrow(0x1_0000_0001) == 1;
  }

  /** The narrowing is harmless for sizes that fit in an `int`: there the
      declared ladder and the full-width one reach the same specialization. */
  lemma NarrowingHarmlessWithinInt(candidates: seq<int32>, size: int64, doRunWithValue: int -> Outcome<bool>)
    requires -0x8000_0000 <= size < 0x8000_0000
    ensures CallWithValueAsWritten(candidates, size, doRunWithValue) == CallWithValue(candidates, size, doRunWithValue)
  {
  }

  /** At full width the ladder only ever runs the specialization for the value
      itself or the fallback, for every 64-bit size. */
  lemma FullWidthRoutesToValueOrFallback(candidates: seq<int32>, size: int64)
    ensures var arg := ValueArgument(candidates, SelectValue(candidates, size));
      arg == size || (arg == FALLBACK_VALUE && size !in candidates)
  {
  }

  /** The candidates are distinct values, so their order decides only how many
      comparisons run, never which specialization is reached. */
  lemma ValueOrderIrrelevant(a: seq<int32>, b: seq<int32>, value: int)
    requires forall x :: x in a <==> x in b
    ensures ValueArgument(a, SelectValue(a, value)) == ValueArgument(b, SelectValue(b, value))
  {
    if j :| 0 <= j < |a| && a[j] == value {
      assert a[j] in b;
    } else {
      forall k | 0 <= k < |b|
        ensures b[k] != value
      {
        assert b[k] in a;
      }
    }
  }

  // ---------------------------------------------------------------------------
  // Type ladder: DispatchHelper<TensorTypes<FirstType, Types...>>
  // ---------------------------------------------------------------------------

  /** The rung of the type ladder that fires. */
  datatype TypeChoice = Matched(index: nat) | Exhausted

  /** The first candidate type that `meta.Match<T>()` accepts; no fallback. */
  function SelectType(candidates: seq<TypeMeta>, meta: TypeMeta): (c: TypeChoice)
    ensures c.Matched? ==> c.index < |candidates| && candidates[c.index] == meta
    ensures c.Matched? ==> forall j :: 0 <= j < c.index ==> candidates[j] != meta
    ensures c.Exhausted? <==> meta !in candidates
    decreases |candidates|
  {
    if |candidates| == 0 then Exhausted
    else if candidates[0] == meta then Matched(0)
    else match SelectType(candidates[1..], meta)
      case Matched(i) => Matched(i + 1)
      case Exhausted => Exhausted
  }

  /** `DispatchHelper<TensorTypes<...>>::call(op, meta)`: the outcome of the one
      `DoRunWithType` specialization for the runtime type, or, when the list
      holds no such type, an enforce failure naming it. */
  function CallWithType(candidates: seq<TypeMeta>, meta: TypeMeta, doRunWithType: TypeMeta -> Outcome<bool>): (r: Outcome<bool>)
    ensures meta in candidates ==> r == doRunWithType(meta)
    ensures meta !in candidates ==> r.Threw? && r.error.EnforceNotMet?
    ensures meta !in candidates ==> r.error.Message() == UNSUPPORTED_TYPE + meta.name
  {
    match SelectType(candidates, meta)
    case Matched(i) => doRunWithType(candidates[i])
    case Exhausted => Threw(Throw(UNSUPPORTED_TYPE + meta.name))
  }

  /** The overload taking a tensor dispatches on the tensor's element type. */
  function CallWithTensor(candidates: seq<TypeMeta>, tensor: Tensor, doRunWithType: TypeMeta -> Outcome<bool>): (r: Outcome<bool>)
    ensures tensor.meta in candidates ==> r == doRunWithType(tensor.meta)
    ensures tensor.meta !in candidates ==> r.Threw? && r.error.EnforceNotMet?
    ensures tensor.meta !in candidates ==> r.error.Message() == UNSUPPORTED_TYPE + tensor.meta.name
  {
    CallWithType(candidates, tensor.meta, doRunWithType)
  }

  /** An empty type list accepts nothing: every call is the unsupported-type
      failure, whatever the specializations would have done. */
  lemma EmptyTypeListAlwaysFails(meta: TypeMeta, f: TypeMeta -> Outcome<bool>, g: TypeMeta -> Outcome<bool>)
    ensures CallWithType([], meta, f) == CallWithType([], meta, g)
    ensures CallWithType([], meta, f) == Threw(Throw(UNSUPPORTED_TYPE + meta.name))
  {
  }

  /** Reordering the candidate types changes nothing a caller can observe. */
  lemma TypeOrderIrrelevant(a: seq<TypeMeta>, b: seq<TypeMeta>, meta: TypeMeta, f: TypeMeta -> Outcome<bool>)
    requires forall x :: x in a <==> x in b
    ensures CallWithType(a, meta, f) == CallWithType(b, meta, f)
  {
  }

  // ---------------------------------------------------------------------------
  // The header comment's own examples
  // ---------------------------------------------------------------------------

  const FLOAT: TypeMeta := TypeMeta("float")
  const INT32: TypeMeta := TypeMeta("int")
  const INT64: TypeMeta := TypeMeta("long")

  /** `FixedValues<1, 4>`: 4 reaches `DoRunWithValue<4>`, 7 reaches `<-1>`. */
  lemma FixedValuesExample(f: int -> Outcome<bool>)
    ensures CallWithValue([1, 4], 4, f) == f(4)
    ensures CallWithValue([1, 4], 7, f) == f(-1)
  {
  }

  /** `TensorTypes<int32_t, int64_t>`: an `int64_t` tensor reaches its own
      specialization, a `float` tensor is refused by name. */
  lemma TensorTypesExample(f: TypeMeta -> Outcome<bool>)
    ensures CallWithType([INT32, INT64], INT64, f) == f(INT64)
    ensures CallWithType([INT32, INT64], FLOAT, f).error.Message() == "Unsupported type of tensor: float"
  {
  }
}

/** Input and output access of `OperatorBase` and the tensor-typed accessors of
    `Operator<Context>`. An operator holds non-owning pointers to workspace
    blobs, resolved from its definition's input and output names; the model
    keeps the names and looks the blobs up in the workspace, so an output that
    shares its name with an input is the same blob, as in the system. */
module Operators {
  import opened Numbers
  import opened Errors
  import opened Blobs

  /** An operator definition, as far as the core reads it: the input and output
      blob names, and `debugString`, which stands for `ProtoDebugString(def)`,
      the text form used in diagnostics. */
  datatype OperatorDef = OperatorDef(inputs: seq<string>, outputs: seq<string>, debugString: string)

  /** Blobs by name; the operator does not own them. */
  type Workspace = map<string, Blob>

  /** What construction establishes: every declared input and output name
      names a blob of the workspace. */
  predicate Resolved(def: OperatorDef, ws: Workspace)
  {
    && (forall i :: 0 <= i < |def.inputs| ==> def.inputs[i] in ws)
    && (forall i :: 0 <= i < |def.outputs| ==> def.outputs[i] in ws)
  }

  /** Whether `vector::at(idx)` accepts an `int` index: a negative index turns
      into a huge unsigned one and is rejected like any index past the end. */
  predicate InBounds(idx: int32, count: nat)
  {
    0 <= idx < count
  }

  const OFFENDING_BLOB: string := ".\nOffending Blob name: "
  const END_OF_NAME: string := ".\n"

  /** The line a failed `DCHECK_LT(idx, inputs_.size())` logs before aborting. */
  function CheckFailedLog(idx: int32, count: nat): string
  {
    "Check failed: idx < inputs_.size() (" + Decimal(idx) + " vs. " + Decimal(count) + ")"
  }

  /** `InputSize()`: the number of resolved inputs, which is exactly the range
      of indices the accessors accept. */
  function InputSize(def: OperatorDef): (n: nat)
    ensures forall idx: int32 :: InBounds(idx, n) <==> 0 <= idx < |def.inputs|
  {
    |def.inputs|
  }

  /** `OutputSize()`, likewise for outputs. */
  function OutputSize(def: OperatorDef): (n: nat)
    ensures forall idx: int32 :: InBounds(idx, n) <==> 0 <= idx < |def.outputs|
  {
    |def.outputs|
  }

  /** `InputBlob(idx)`: the idx-th input blob itself. */
  function InputBlob(def: OperatorDef, ws: Workspace, idx: int32): (r: Outcome<Blob>)
    requires Resolved(def, ws)
    ensures r.Returned? <==> InBounds(idx, |def.inputs|)
    ensures r.Returned? ==> r.value == ws[def.inputs[idx]]
    ensures !r.Returned? ==> r == Threw(OutOfRange)
  {
    if InBounds(idx, |def.inputs|) then Returned(ws[def.inputs[idx]]) else Threw(OutOfRange)
  }

  /** `OutputBlob(idx)`: the idx-th output blob itself. */
  function OutputBlob(def: OperatorDef, ws: Workspace, idx: int32): (r: Outcome<Blob>)
    requires Resolved(def, ws)
    ensures r.Returned? <==> InBounds(idx, |def.outputs|)
    ensures r.Returned? ==> r.value == ws[def.outputs[idx]]
    ensures !r.Returned? ==> r == Threw(OutOfRange)
  {
    if InBounds(idx, |def.outputs|) then Returned(ws[def.outputs[idx]]) else Threw(OutOfRange)
  }

  /** `InputIsType<T>(idx)`: a type test that never raises an enforce failure. */
  function InputIsType(def: OperatorDef, ws: Workspace, idx: int32, t: BlobType): (r: Outcome<bool>)
    requires Resolved(def, ws)
    ensures r.Returned? <==> InBounds(idx, |def.inputs|)
    ensures r.Returned? ==> (r.value <==> ws[def.inputs[idx]].IsType(t))
    ensures !r.Returned? ==> r == Threw(OutOfRange)
  {
    if InBounds(idx, |def.inputs|) then Returned(ws[def.inputs[idx]].IsType(t)) else Threw(OutOfRange)
  }

  /** `OutputIsType<T>(idx)`. */
  function OutputIsType(def: OperatorDef, ws: Workspace, idx: int32, t: BlobType): (r: Outcome<bool>)
    requires Resolved(def, ws)
    ensures r.Returned? <==> InBounds(idx, |def.outputs|)
    ensures r.Returned? ==> (r.value <==> ws[def.outputs[idx]].IsType(t))
    ensures !r.Returned? ==> r == Threw(OutOfRange)
  {
    if InBounds(idx, |def.outputs|) then Returned(ws[def.outputs[idx]].IsType(t)) else Threw(OutOfRange)
  }

  /** `Input<T>(idx)`. With `checks` (a debug build) an index out of range fails
      the `DCHECK` and ends the process; without it `at` throws. A blob of the
      wrong type raises the blob's own enforce failure, re-thrown with the
      declared input name appended. */
  function Input(def: OperatorDef, ws: Workspace, idx: int32, t: BlobType, checks: bool): (r: Outcome<Value>)
    requires Resolved(def, ws)
    ensures r.Returned? ==> InBounds(idx, |def.inputs|) && ws[def.inputs[idx]].IsType(t)
    ensures r.Returned? ==> r.value == ws[def.inputs[idx]].value && r.value.Type() == t
    ensures r.Fatal? <==> checks && !InBounds(idx, |def.inputs|)
    ensures !checks && !InBounds(idx, |def.inputs|) ==> r == Threw(OutOfRange)
    ensures InBounds(idx, |def.inputs|) && !ws[def.inputs[idx]].IsType(t) ==>
      && r.Threw? && r.error.EnforceNotMet?
      && r.error.Message()
         == ws[def.inputs[idx]].Get(t).error.Message() + OFFENDING_BLOB + def.inputs[idx] + END_OF_NAME
  {
    if !InBounds(idx, |def.inputs|) then
      if checks then Fatal(CheckFailedLog(idx, |def.inputs|)) else Threw(OutOfRange)
    else
      match ws[def.inputs[idx]].Get(t)
      case Returned(v) => Returned(v)
      case Threw(e) => Threw(e.Append(OFFENDING_BLOB).Append(def.inputs[idx]).Append(END_OF_NAME))
      case Fatal(log) => Fatal(log)
  }

  /** A workspace after an output was written, and the value now in the blob. */
  datatype Written = Written(ws: Workspace, value: Value)

  /** `Output<T>(idx)`: `GetMutable<T>()` on the idx-th output blob. The blob
      afterwards holds a `t`; no other blob changes. There is no `DCHECK`, and
      no enforce failure is possible. */
  function Output(def: OperatorDef, ws: Workspace, idx: int32, t: BlobType): (r: Outcome<Written>)
    requires Resolved(def, ws)
    ensures r.Returned? <==> InBounds(idx, |def.outputs|)
    ensures !r.Returned? ==> r == Threw(OutOfRange)
    ensures r.Returned? ==>
      && r.value.ws.Keys == ws.Keys
      && r.value.ws[def.outputs[idx]] == Holding(r.value.value)
      && r.value.value.Type() == t
      && (forall n :: n in ws && n != def.outputs[idx] ==> r.value.ws[n] == ws[n])
    ensures r.Returned? && ws[def.outputs[idx]].IsType(t) ==> r.value.ws == ws
    ensures r.Returned? && !ws[def.outputs[idx]].IsType(t) ==> r.value.value == Fresh(t)
  {
    if !InBounds(idx, |def.outputs|) then Threw(OutOfRange)
    else
      var name := def.outputs[idx];
      var b := ws[name].GetMutable(t);
      Returned(Written(ws[name := b], b.value))
  }

  /** `Operator<Context>::Input(idx)`: the input as a `Tensor<Context>`. */
  function TensorInput(def: OperatorDef, ws: Workspace, context: Context, idx: int32, checks: bool): (r: Outcome<Tensor>)
    requires Resolved(def, ws)
    ensures r.Returned? <==> Input(def, ws, idx, TensorOf(context), checks).Returned?
    ensures r.Returned? ==> r.value.context == context && ws[def.inputs[idx]] == Holding(TensorValue(r.value))
    ensures r.Threw? <==> Input(def, ws, idx, TensorOf(context), checks).Threw?
    ensures r.Threw? ==> r.error == Input(def, ws, idx, TensorOf(context), checks).error
    ensures r.Fatal? <==> Input(def, ws, idx, TensorOf(context), checks).Fatal?
    ensures r.Fatal? ==> r.log == Input(def, ws, idx, TensorOf(context), checks).log
  {
    match Input(def, ws, idx, TensorOf(context), checks)
    case Returned(v) => Returned(v.tensor)
    case Threw(e) => Threw(e)
    case Fatal(log) => Fatal(log)
  }

  /** `Operator<Context>::Output(idx)`: the output as a `Tensor<Context>`,
      created empty when the blob held anything else. */
  function TensorOutput(def: OperatorDef, ws: Workspace, context: Context, idx: int32): (r: Outcome<(Workspace, Tensor)>)
    requires Resolved(def, ws)
    ensures r.Returned? <==> InBounds(idx, |def.outputs|)
    ensures r.Returned? ==> r.value.1.context == context
    ensures r.Returned? ==> r.value.0.Keys == ws.Keys && r.value.0[def.outputs[idx]] == Holding(TensorValue(r.value.1))
    ensures r.Returned? ==> forall n :: n in ws && n != def.outputs[idx] ==> r.value.0[n] == ws[n]
    ensures r.Returned? && ws[def.outputs[idx]].IsType(TensorOf(context)) ==>
      r.value.0 == ws && ws[def.outputs[idx]] == Holding(TensorValue(r.value.1))
    ensures r.Returned? && !ws[def.outputs[idx]].IsType(TensorOf(context)) ==> r.value.1 == Tensor(context, Uninitialized, 0)
    ensures !r.Returned? ==> r == Threw(OutOfRange)
  {
    match Output(def, ws, idx, TensorOf(context))
    case Returned(w) => Returned((w.ws, w.value.tensor))
    case Threw(e) => Threw(e)
    case Fatal(log) => Fatal(log)
  }

  // ---------------------------------------------------------------------------
  // How the accessors relate
  // ---------------------------------------------------------------------------

  /** `Input<T>` succeeds exactly when `InputIsType<T>` answers yes. */
  lemma InputAgreesWithInputIsType(def: OperatorDef, ws: Workspace, idx: int32, t: BlobType, checks: bool)
    requires Resolved(def, ws)
    ensures Input(def, ws, idx, t, checks).Returned? <==> InputIsType(def, ws, idx, t) == Returned(true)
  {
  }

  /** The counts are the bounds of every accessor: the blob accessors succeed
      exactly below `InputSize()` / `OutputSize()`; the type tests ask the blob
      those accessors return; a successful `Input<T>` returns what `InputBlob`
      holds; and the blob `OutputBlob` returns after `Output<T>` holds a `T`. */
  lemma AccessorsAgree(def: OperatorDef, ws: Workspace, idx: int32, t: BlobType, checks: bool)
    requires Resolved(def, ws)
    ensures InputBlob(def, ws, idx).Returned? <==> 0 <= idx < InputSize(def)
    ensures OutputBlob(def, ws, idx).Returned? <==> 0 <= idx < OutputSize(def)
    ensures 0 <= idx < InputSize(def) ==> InputIsType(def, ws, idx, t) == Returned(InputBlob(def, ws, idx).value.IsType(t))
    ensures 0 <= idx < OutputSize(def) ==> OutputIsType(def, ws, idx, t) == Returned(OutputBlob(def, ws, idx).value.IsType(t))
    ensures Input(def, ws, idx, t, checks).Returned? ==>
      InputBlob(def, ws, idx) == Returned(Holding(Input(def, ws, idx, t, checks).value))
    ensures 0 <= idx < OutputSize(def) ==>
      var w := Output(def, ws, idx, t).value;
      Resolved(def, w.ws) && OutputBlob(def, w.ws, idx).value.IsType(t)
  {
  }

  /** The type-confusion error keeps the blob's own message in front and ends
      with the declared input name followed by ".\n". */
  lemma InputErrorEndsWithBlobName(def: OperatorDef, ws: Workspace, idx: int32, t: BlobType, checks: bool)
    requires Resolved(def, ws)
    requires InBounds(idx, |def.inputs|) && !ws[def.inputs[idx]].IsType(t)
    ensures var msg := Input(def, ws, idx, t, checks).error.Message();
      var name := def.inputs[idx];
      var blobMsg := WrongTypeMessage(ws[name].TypeName(), t.Name());
      && |msg| >= |blobMsg| + |name| + |END_OF_NAME|
      && msg[..|blobMsg|] == blobMsg
      && msg[|msg| - |name| - |END_OF_NAME|..|msg| - |END_OF_NAME|] == name
      && msg[|msg| - |END_OF_NAME|..] == END_OF_NAME
  {
    var name := def.inputs[idx];
    var blobMsg := WrongTypeMessage(ws[name].TypeName(), t.Name());
    var msg := Input(def, ws, idx, t, checks).error.Message();
    assert msg == blobMsg + OFFENDING_BLOB + name + END_OF_NAME;
    assert msg == blobMsg + (OFFENDING_BLOB + name + END_OF_NAME);
    assert msg == (blobMsg + OFFENDING_BLOB) + name + END_OF_NAME;
  }

  /** After `Output<T>(idx)` the output has type `T`, the operator stays
      resolved, and asking again changes nothing. */
  lemma OutputEstablishesType(def: OperatorDef, ws: Workspace, idx: int32, t: BlobType)
    requires Resolved(def, ws)
    requires InBounds(idx, |def.outputs|)
    ensures var w := Output(def, ws, idx, t).value;
      && Resolved(def, w.ws)
      && OutputIsType(def, w.ws, idx, t) == Returned(true)
      && Output(def, w.ws, idx, t) == Returned(w)
  {
  }

  /** An in-place operator whose output shares its name with an input sees the
      written value through that input. */
  lemma InPlaceOutputVisibleAsInput(def: OperatorDef, ws: Workspace, i: int32, j: int32, t: BlobType, checks: bool)
    requires Resolved(def, ws)
    requires InBounds(i, |def.inputs|) && InBounds(j, |def.outputs|)
    requires def.inputs[i] == def.outputs[j]
    ensures var w := Output(def, ws, j, t).value;
      Resolved(def, w.ws) && Input(def, w.ws, i, t, checks) == Returned(w.value)
  {
  }
}

/** Type-erased storage as the operator header sees it: a blob holds at most
    one value, queried by type and read or replaced through typed accessors.
    The accessors follow `Blob::IsType`, `Blob::Get` and `Blob::GetMutable`;
    blob.h itself is not part of this model, so their diagnostic text is the
    model's rendering of it. */
module Blobs {
  import opened Errors

  /** A runtime type descriptor (`TypeMeta`): types are told apart by their
      printable name. */
  datatype TypeMeta = TypeMeta(name: string)

  /** The descriptor of "no type yet": an empty blob, or a tensor whose
      element type was never fixed. */
  const Uninitialized: TypeMeta := TypeMeta("nullptr (uninitialized)")

  /** A device execution context class, e.g. `CPUContext`. */
  datatype Context = Context(name: string)

  /** `Tensor<Context>`: a device-resident array with an element type and an
      element count; the storage itself is left out. */
  datatype Tensor = Tensor(context: Context, meta: TypeMeta, size: nat)

  /** The C++ type a blob can be asked for: `Tensor<Context>` for some context,
      or any other class, named by its descriptor. */
  datatype BlobType =
    | TensorOf(context: Context)
    | ObjectOf(meta: TypeMeta)
  {
    function Name(): string
    {
      match this
      case TensorOf(c) => "caffe2::Tensor<caffe2::" + c.name + ">"
      case ObjectOf(m) => m.name
    }
  }

  /** A value stored in a blob. */
  datatype Value =
    | TensorValue(tensor: Tensor)
    | Object(meta: TypeMeta)
  {
    function Type(): BlobType
    {
      match this
      case TensorValue(t) => TensorOf(t.context)
      case Object(m) => ObjectOf(m)
    }
  }

  /** A default-constructed value of a type, as `new T()` builds it: a tensor
      starts empty and with no element type. */
  function Fresh(t: BlobType): (v: Value)
    ensures v.Type() == t
    ensures v.TensorValue? ==> v.tensor.size == 0 && v.tensor.meta == Uninitialized
  {
    match t
    case TensorOf(c) => TensorValue(Tensor(c, Uninitialized, 0))
    case ObjectOf(m) => Object(m)
  }

  datatype Blob =
    | Empty
    | Holding(value: Value)
  {
    /** `IsType<T>()`: the blob holds a value of exactly type `t`. */
    predicate IsType(t: BlobType)
    {
      Holding? && value.Type() == t
    }

    /** The name of the held type; an empty blob reports the uninitialized
        descriptor. */
    function TypeName(): string
    {
      match this
      case Empty => Uninitialized.name
      case Holding(v) => v.Type().Name()
    }

    /** `Get<T>()`: the held value when it has type `t`, otherwise an enforce
        failure naming both the held and the requested type. */
    function Get(t: BlobType): (r: Outcome<Value>)
      ensures r.Returned? <==> IsType(t)
      ensures r.Returned? ==> r.value == value && r.value.Type() == t
      ensures !r.Returned? ==> r.Threw? && r.error.EnforceNotMet?
      ensures !r.Returned? ==> r.error.Message() == WrongTypeMessage(TypeName(), t.Name())
    {
      if IsType(t) then Returned(value)
      else Threw(Throw(WrongTypeMessage(TypeName(), t.Name())))
    }

    /** `GetMutable<T>()`: the blob afterwards holds a value of type `t`; an
        existing value of that type is kept, anything else is replaced by a
        fresh one. */
    function GetMutable(t: BlobType): (b: Blob)
      ensures b.IsType(t)
      ensures IsType(t) ==> b == this
      ensures !IsType(t) ==> b.value == Fresh(t)
    {
      if IsType(t) then this else Holding(Fresh(t))
    }
  }

  function WrongTypeMessage(held: string, expected: string): string
  {
    "wrong type for the Blob instance. Blob contains " + held + " while caller expects " + expected
  }
}

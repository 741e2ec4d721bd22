/** The execution entry points. `OperatorBase::Run` is a virtual whose default
    is "not implemented" and `OperatorBase::RunAsync` defaults to `Run`;
    `Operator<Context>` fixes both (`final`) around the subclass's
    `RunOnDevice`. The device context is an oracle: what `RunOnDevice` does
    and whether `FinishDeviceComputation` confirms completion are parameters,
    and `SwitchToDevice` has no effect the model can observe. */
module Execution {
  import opened Errors
  import opened Blobs
  import opened Operators
  import opened Dispatch

  /** The text of `CAFFE_NOT_IMPLEMENTED`; the logging header that defines it
      is not part of this model. */
  const NOT_IMPLEMENTED: string := "Not Implemented."

  const ERROR_FROM_OPERATOR: string := "Error from operator: \n"
  const DEVICE_ERROR: string := "Computation on device returned error in operator\n"

  /** What the `catch (EnforceNotMet&)` handlers of `Run` and `RunAsync` do to an
      exception leaving `RunOnDevice`: an enforce failure gets the operator's
      definition appended and is re-thrown; anything else passes untouched. */
  function Augment(e: Exception, def: OperatorDef): (a: Exception)
    ensures a.EnforceNotMet? <==> e.EnforceNotMet?
    ensures e.EnforceNotMet? ==> a.Message() == e.Message() + ERROR_FROM_OPERATOR + def.debugString
    ensures e.EnforceNotMet? ==> |a.messages| > |e.messages| && a.messages[..|e.messages|] == e.messages
    ensures !e.EnforceNotMet? ==> a == e
  {
    e.Append(ERROR_FROM_OPERATOR + def.debugString)
  }

  /** `Operator<Context>::Run`: run the kernel, then wait for the device. A
      device that cannot confirm completion ends the process whatever the kernel
      reported; a kernel that throws never reaches the wait. */
  function DeviceRun(def: OperatorDef, onDevice: Outcome<bool>, finished: bool): (r: Outcome<bool>)
    ensures r.Returned? <==> onDevice.Returned? && finished
    ensures r.Returned? ==> (r.value <==> onDevice.value && finished)
    ensures onDevice.Returned? && !finished ==> r == Fatal(DEVICE_ERROR + def.debugString)
    ensures onDevice.Threw? ==> r == Threw(Augment(onDevice.error, def))
    ensures onDevice.Fatal? ==> r == onDevice
  {
    match onDevice
    case Threw(e) => Threw(Augment(e, def))
    case Fatal(log) => Fatal(log)
    case Returned(started) =>
      if !finished then Fatal(DEVICE_ERROR + def.debugString)
      else Returned(started && finished)
  }

  /** `Operator<Context>::RunAsync`: run the kernel and hand back what it
      returned; completion is never consulted. */
  function DeviceRunAsync(def: OperatorDef, onDevice: Outcome<bool>): (r: Outcome<bool>)
    ensures onDevice.Returned? ==> r == onDevice
    ensures onDevice.Threw? ==> r == Threw(Augment(onDevice.error, def))
    ensures onDevice.Fatal? ==> r == onDevice
  {
    match onDevice
    case Threw(e) => Threw(Augment(e, def))
    case Fatal(log) => Fatal(log)
    case Returned(started) => Returned(started)
  }

  /** Whether a subclass overrides a virtual, and if so what its body does. */
  datatype Override = Inherited | Overridden(outcome: Outcome<bool>)

  /** The two ways to implement an operator: derive from `OperatorBase` and
      override `Run` and/or `RunAsync`, or derive from `Operator<Context>` and
      implement `RunOnDevice`, whose `Run` and `RunAsync` are final. */
  datatype OperatorImpl =
    | BaseSubclass(run: Override, runAsync: Override)
    | DeviceSubclass(onDevice: Outcome<bool>, finished: bool)

  /** The virtual `Run()`. */
  function Run(impl: OperatorImpl, def: OperatorDef): (r: Outcome<bool>)
    ensures impl.BaseSubclass? && impl.run.Inherited? ==> r == Threw(Throw(NOT_IMPLEMENTED))
    ensures impl.BaseSubclass? && impl.run.Overridden? ==> r == impl.run.outcome
    ensures impl.DeviceSubclass? ==> r == DeviceRun(def, impl.onDevice, impl.finished)
  {
    match impl
    case BaseSubclass(Inherited, _) => Threw(Throw(NOT_IMPLEMENTED))
    case BaseSubclass(Overridden(o), _) => o
    case DeviceSubclass(o, finished) => DeviceRun(def, o, finished)
  }

  /** The virtual `RunAsync()`. */
  function RunAsync(impl: OperatorImpl, def: OperatorDef): (r: Outcome<bool>)
    ensures impl.BaseSubclass? && impl.runAsync.Inherited? ==> r == Run(impl, def)
    ensures impl.BaseSubclass? && impl.runAsync.Overridden? ==> r == impl.runAsync.outcome
    ensures impl.DeviceSubclass? ==> r == DeviceRunAsync(def, impl.onDevice)
  {
    match impl
    case BaseSubclass(_, Overridden(o)) => o
    case BaseSubclass(_, Inherited) => Run(impl, def)
    case DeviceSubclass(o, _) => DeviceRunAsync(def, o)
  }

  // ---------------------------------------------------------------------------
  // The execution contract
  // ---------------------------------------------------------------------------

  /** `Run` reports success only when the kernel reported it and the device
      confirmed completion. */
  lemma RunSucceedsOnlyWhenStartedAndFinished(def: OperatorDef, onDevice: Outcome<bool>, finished: bool)
    ensures DeviceRun(def, onDevice, finished) == Returned(true) <==> onDevice == Returned(true) && finished
  {
  }

  /** A kernel that reports non-completion makes `Run` return false rather than
      raise, as long as the device confirms; and the two failure modes stay
      apart: the kernel's `false` is a value, the device's `false` is the end. */
  lemma KernelFalseIsNotAnError(def: OperatorDef, started: bool)
    ensures DeviceRun(def, Returned(false), true) == Returned(false)
    ensures DeviceRun(def, Returned(started), false).Fatal?
    ensures DeviceRun(def, Returned(started), false).log == DEVICE_ERROR + def.debugString
  {
  }

  /** `RunAsync` does not depend on the device's answer at all, and agrees with
      `Run` whenever the device confirms completion. */
  lemma RunAsyncIgnoresCompletion(def: OperatorDef, onDevice: Outcome<bool>, f1: bool, f2: bool)
    ensures RunAsync(DeviceSubclass(onDevice, f1), def) == RunAsync(DeviceSubclass(onDevice, f2), def)
    ensures RunAsync(DeviceSubclass(onDevice, f1), def) == Run(DeviceSubclass(onDevice, true), def)
  {
  }

  /** On an unconfirmed device, `RunAsync` returns what the kernel said where
      `Run` ends the process. */
  lemma RunAsyncDoesNotWait(def: OperatorDef, started: bool)
    ensures RunAsync(DeviceSubclass(Returned(started), false), def) == Returned(started)
    ensures Run(DeviceSubclass(Returned(started), false), def).Fatal?
  {
  }

  /** An operator that overrides neither virtual: both entry points raise the
      not-implemented failure. */
  lemma DefaultEntryPointsNotImplemented(def: OperatorDef)
    ensures Run(BaseSubclass(Inherited, Inherited), def) == Threw(Throw(NOT_IMPLEMENTED))
    ensures RunAsync(BaseSubclass(Inherited, Inherited), def) == Threw(Throw(NOT_IMPLEMENTED))
  {
  }

  /** Only enforce failures are augmented: an out-of-range index or a foreign
      exception leaves `Run` and `RunAsync` exactly as the kernel raised it. */
  lemma OtherExceptionsPassThrough(def: OperatorDef, e: Exception, finished: bool)
    requires !e.EnforceNotMet?
    ensures Run(DeviceSubclass(Threw(e), finished), def) == Threw(e)
    ensures RunAsync(DeviceSubclass(Threw(e), finished), def) == Threw(e)
  {
  }

  // ---------------------------------------------------------------------------
  // A kernel built from the pieces: `TensorTypes<...>::call(this, Input(0))`
  // ---------------------------------------------------------------------------

  /** The `RunOnDevice` the header's comment describes: read input 0 as a tensor
      of the operator's context and dispatch on its element type. An operator
      without inputs fails the index check before any dispatch. */
  function DispatchOnFirstInput(def: OperatorDef, ws: Workspace, context: Context, candidates: seq<TypeMeta>,
                                doRunWithType: TypeMeta -> Outcome<bool>, checks: bool): (r: Outcome<bool>)
    requires Resolved(def, ws)
    ensures |def.inputs| > 0 && ws[def.inputs[0]].IsType(TensorOf(context)) ==>
      r == CallWithTensor(candidates, ws[def.inputs[0]].value.tensor, doRunWithType)
    ensures |def.inputs| > 0 && !ws[def.inputs[0]].IsType(TensorOf(context)) ==>
      r.Threw? && r.error.EnforceNotMet?
    ensures |def.inputs| == 0 && checks ==> r.Fatal?
    ensures |def.inputs| == 0 && !checks ==> r == Threw(OutOfRange)
  {
    match TensorInput(def, ws, context, 0, checks)
    case Returned(t) => CallWithTensor(candidates, t, doRunWithType)
    case Threw(e) => Threw(e)
    case Fatal(log) => Fatal(log)
  }

  /** A tensor of an unlisted element type: `Run` raises the unsupported-type
      failure naming the type, followed by the operator's definition, and never
      reaches the device wait. */
  lemma UnsupportedTypeReachesCaller(def: OperatorDef, ws: Workspace, context: Context,
                                      candidates: seq<TypeMeta>, f: TypeMeta -> Outcome<bool>,
                                      checks: bool, finished: bool, tensor: Tensor)
    requires Resolved(def, ws)
    requires |def.inputs| > 0 && ws[def.inputs[0]] == Holding(TensorValue(tensor))
    requires tensor.context == context && tensor.meta !in candidates
    ensures var r := Run(DeviceSubclass(DispatchOnFirstInput(def, ws, context, candidates, f, checks), finished), def);
      && r.Threw? && r.error.EnforceNotMet?
      && r.error.Message() == UNSUPPORTED_TYPE + tensor.meta.name + ERROR_FROM_OPERATOR + def.debugString
  {
    var k := DispatchOnFirstInput(def, ws, context, candidates, f, checks);
    assert k == CallWithTensor(candidates, tensor, f);
    assert k.error.Message() == UNSUPPORTED_TYPE + tensor.meta.name;
  }

  /** An input blob of the wrong type: `Run` raises one failure that names the
      offending blob and then the operator's definition. */
  lemma TypeConfusionReachesCaller(def: OperatorDef, ws: Workspace, context: Context,
                                    candidates: seq<TypeMeta>, f: TypeMeta -> Outcome<bool>,
                                    checks: bool, finished: bool)
    requires Resolved(def, ws)
    requires |def.inputs| > 0 && !ws[def.inputs[0]].IsType(TensorOf(context))
    ensures var r := Run(DeviceSubclass(DispatchOnFirstInput(def, ws, context, candidates, f, checks), finished), def);
      && r.Threw? && r.error.EnforceNotMet?
      && r.error.Message()
         == WrongTypeMessage(ws[def.inputs[0]].TypeName(), TensorOf(context).Name())
            + OFFENDING_BLOB + def.inputs[0] + END_OF_NAME + ERROR_FROM_OPERATOR + def.debugString
  {
    var k := DispatchOnFirstInput(def, ws, context, candidates, f, checks);
    var i := Input(def, ws, 0, TensorOf(context), checks);
    assert k == Threw(i.error);
  }
}

# caffe2 operator core, modelled in Dafny

This project models the decision logic of caffe2's operator header
(`caffe2/core/operator.h`). Every piece is a pure function over immutable
datatypes:

- **Dispatch ladders** (`Dispatch`). `DispatchHelper<FixedValues<...>>` tries integer
  candidates in order and falls back to the `-1` specialization.
  `DispatchHelper<TensorTypes<...>>` tries element types in order and fails with
  "Unsupported type of tensor: <name>" when none matches. The candidate list is a
  sequence. The operator's family of `DoRunWithValue<V>` / `DoRunWithType<T>`
  methods is a function from the template argument to that method's outcome.
- **Typed input/output access** (`Operators`, `Blobs`). These are `Input<T>`,
  `Output<T>`, `InputBlob`, `OutputBlob`, `InputIsType`, `OutputIsType`,
  `InputSize`, `OutputSize`, and the tensor-typed accessors of
  `Operator<Context>`. A blob is a tagged value. The operator reaches its blobs
  through the input and output names of its definition, looked up in a
  workspace map. An in-place operator, whose output has an input's name, therefore
  writes the same blob it reads.
- **Execution contract** (`Execution`). These are `OperatorBase::Run` /
  `RunAsync` and the final `Operator<Context>::Run` / `RunAsync`. Two
  parameters stand in for the device: the outcome of `RunOnDevice` and the
  answer of `FinishDeviceComputation`. An outcome is a returned value, a thrown
  exception, or `Fatal` for `LOG(FATAL)`.
- **Registration** (`Registry`). `DeviceTypeRegisterer` inserts into the map
  from `int32_t` device kind to operator registry. A repeated kind exits the
  process with status 1. The model also covers the static-initialization
  sequence of registerers and the engine-qualified key `name_ENGINE_engine`.

Supporting modules: `Numbers` (32/64-bit integers, two's-complement narrowing,
and the decimal rendering used in diagnostics) and `Errors` (exceptions and
outcomes).

Header behaviour the model keeps:

- A repeated device kind ends the process with `std::exit(1)`, not an abort.
- `Input<T>` checks its index only with a `DCHECK`, which fires in debug builds
  (the `checks` parameter). Otherwise `vector::at` throws `std::out_of_range`.
- `Run` and `RunAsync` augment and re-throw only `EnforceNotMet`. Any other
  exception leaves them unchanged, and so does `Input<T>`'s out-of-range failure.

## Model

| member | source | states |
|---|---|---|
| Dispatch.SelectValue | caffe2/core/operator.h:265-283 | The rung chosen is the first candidate equal to the value. There is no earlier equal candidate. The fallback is chosen exactly when no candidate equals the value. |
| Dispatch.CallWithValue | caffe2/core/operator.h:265-283 | Integer dispatch never fails by itself. It runs `DoRunWithValue<value>` when the value is a candidate and `DoRunWithValue<-1>` otherwise. |
| Dispatch.CallWithValueAsWritten | caffe2/core/operator.h:265-283 | As declared, for every list, the empty one included, the ladder runs `DoRunWithValue` of the size narrowed to `int` when that narrowed value is a candidate, and `DoRunWithValue<-1>` otherwise. |
| Dispatch.NarrowingHarmlessWithinInt | caffe2/core/operator.h:268-281 | For sizes that fit in an `int`, the declared ladder and the full-width ladder reach the same specialization. |
| Dispatch.NarrowingMisroutesLargeSize | caffe2/core/operator.h:268-281 | With `FixedValues<1, 4>` and size 2^32+1, the declared ladder runs `DoRunWithValue<1>`. A full-width comparison runs the `-1` fallback. |
| Dispatch.FullWidthRoutesToValueOrFallback | caffe2/core/operator.h:265-283 | Compared at full width, the specialization reached is the size itself. Otherwise it is the fallback, and then the size is not a candidate. |
| Dispatch.ValueOrderIrrelevant | caffe2/core/operator.h:227-236 | Two candidate lists with the same values reach the same specialization, whatever their order. |
| Dispatch.SelectType | caffe2/core/operator.h:285-311 | The rung chosen is the first candidate type matching the runtime type. The list is exhausted exactly when no candidate matches. |
| Dispatch.CallWithType | caffe2/core/operator.h:285-311 | A listed type runs exactly its own `DoRunWithType`. An unlisted type raises an enforce failure whose message is "Unsupported type of tensor: " plus the type's name. |
| Dispatch.CallWithTensor | caffe2/core/operator.h:295-298 | The tensor overload dispatches on the tensor's element type, with the same success and failure cases. |
| Dispatch.EmptyTypeListAlwaysFails | caffe2/core/operator.h:301-311 | An empty type list has no fallback. Whatever the specializations would do, the result is the unsupported-type failure naming the runtime type. |
| Dispatch.TypeOrderIrrelevant | caffe2/core/operator.h:285-299 | Reordering the candidate types does not change the outcome. |
| Dispatch.FixedValuesExample | caffe2/core/operator.h:228-236 | With `FixedValues<1, 4>`, 4 reaches `DoRunWithValue<4>` and 7 reaches `DoRunWithValue<-1>`. |
| Dispatch.TensorTypesExample | caffe2/core/operator.h:243-244 | With `TensorTypes<int32_t, int64_t>`, an `int64_t` tensor reaches its own specialization. A `float` tensor is refused with a message naming "float". |
| Operators.InputSize | caffe2/core/operator.h:86 | An `int` index is below the input count exactly when it picks a declared input. Negative indices never do. |
| Operators.OutputSize | caffe2/core/operator.h:87 | An `int` index is below the output count exactly when it picks a declared output. |
| Operators.AccessorsAgree | caffe2/core/operator.h:50-87 | `InputBlob` and `OutputBlob` succeed exactly for indices below `InputSize()` and `OutputSize()`. The type tests ask the blob those accessors return. A successful `Input<T>` returns the value `InputBlob` holds. After `Output<T>`, the blob `OutputBlob` returns holds a `T`. |
| Operators.InputBlob | caffe2/core/operator.h:68-70 | An index in range returns the blob named by the declared input. Any other index, negative ones included, throws out_of_range. |
| Operators.OutputBlob | caffe2/core/operator.h:72-74 | An index in range returns the blob named by the declared output. Any other index throws out_of_range. |
| Operators.InputIsType | caffe2/core/operator.h:76-79 | Answers whether the input blob holds exactly the asked type. It never raises an enforce failure; out-of-range indices throw out_of_range. |
| Operators.OutputIsType | caffe2/core/operator.h:81-84 | The same as `InputIsType`, for outputs. |
| Operators.Input | caffe2/core/operator.h:50-61 | Returns the held value only when the index is in range and the type matches. A bad index is fatal exactly when debug checks are on, and otherwise throws out_of_range. A wrong type raises the blob's own enforce failure with ".\nOffending Blob name: ", the declared input name and ".\n" appended. |
| Operators.Output | caffe2/core/operator.h:63-66 | Afterwards the output blob holds a value of the asked type. A value already of that type is kept; otherwise a fresh one replaces it. No other blob changes. A bad index throws out_of_range. |
| Operators.TensorInput | caffe2/core/operator.h:155-156 | `Operator<Context>::Input` succeeds exactly when `Input<Tensor<Context>>` does, and returns a tensor of that context. Otherwise it raises the same exception, or the same fatal log, as `Input<Tensor<Context>>`. |
| Operators.TensorOutput | caffe2/core/operator.h:157-159 | `Operator<Context>::Output` leaves a tensor of the operator's context in the output blob. No other blob changes. An existing tensor of that context is kept unchanged. Anything else is replaced by an empty, uninitialized tensor. |
| Operators.InputAgreesWithInputIsType | caffe2/core/operator.h:50-79 | `Input<T>` succeeds exactly when `InputIsType<T>` answers true. |
| Operators.InputErrorEndsWithBlobName | caffe2/core/operator.h:55-59 | A type-confusion message starts with the blob's own message. It ends with the declared input name followed by exactly ".\n". |
| Operators.OutputEstablishesType | caffe2/core/operator.h:63-66 | After `Output<T>`, `OutputIsType<T>` is true and the operator stays resolved. Asking again leaves the workspace as it is. |
| Operators.InPlaceOutputVisibleAsInput | caffe2/core/operator.h:63-66 | When an output shares a name with an input, the value written through the output is what `Input<T>` then returns. |
| Execution.Augment | caffe2/core/operator.h:177-180 | An enforce failure keeps its message and gains "Error from operator: \n" plus the definition text. Other exceptions are unchanged. |
| Execution.DeviceRun | caffe2/core/operator.h:164-181 | `Run` returns a value exactly when the kernel returned and the device confirmed. That value is started && finished. An unconfirmed device is fatal whatever the kernel returned. A throwing kernel re-throws the augmented error. |
| Execution.DeviceRunAsync | caffe2/core/operator.h:183-191 | `RunAsync` returns the kernel's own result and has no completion input. Errors are augmented as in `Run`. |
| Execution.Run | caffe2/core/operator.h:91-93 | The default `Run` raises not-implemented. An override's outcome is the result. A device-typed operator runs `DeviceRun`. |
| Execution.RunAsync | caffe2/core/operator.h:94 | Without an override, `RunAsync` is `Run`. A device-typed operator runs `DeviceRunAsync`. |
| Execution.RunSucceedsOnlyWhenStartedAndFinished | caffe2/core/operator.h:164-176 | `Run` returns true exactly when the kernel returned true and the device confirmed completion. |
| Execution.KernelFalseIsNotAnError | caffe2/core/operator.h:167-176 | If the kernel returns false and the device confirms, `Run` returns false and does not raise. An unconfirmed device is fatal for either kernel result, and the log holds the definition. |
| Execution.RunAsyncIgnoresCompletion | caffe2/core/operator.h:183-191 | `RunAsync` does not depend on the device's answer. It equals `Run` on a device that confirms. |
| Execution.RunAsyncDoesNotWait | caffe2/core/operator.h:164-191 | On an unconfirmed device, `RunAsync` returns the kernel's result, while `Run` is fatal. |
| Execution.DefaultEntryPointsNotImplemented | caffe2/core/operator.h:91-94 | An operator overriding neither virtual raises not-implemented from both entry points. |
| Execution.OtherExceptionsPassThrough | caffe2/core/operator.h:177-190 | Exceptions other than enforce failures leave `Run` and `RunAsync` unchanged. |
| Execution.DispatchOnFirstInput | caffe2/core/operator.h:243-244 | A kernel that dispatches on input 0 follows its element type when the blob is a tensor of the context. A blob of another type raises an enforce failure. An operator with no inputs fails `Input(0)`'s index check: fatal in a debug build, out_of_range otherwise. |
| Execution.UnsupportedTypeReachesCaller | caffe2/core/operator.h:301-306 | For an unlisted element type, `Run` raises "Unsupported type of tensor: <name>" followed by the definition. It never reaches the device wait. |
| Execution.TypeConfusionReachesCaller | caffe2/core/operator.h:50-61 | For an input blob of the wrong type, `Run` raises one failure. Its message is the blob's message, the offending blob name, then the definition. |
| Registry.Register | caffe2/core/operator.h:324-335 | A present key is refused. Otherwise the map gains exactly that key with that value, and every old entry is kept. |
| Registry.RegisterDeviceType | caffe2/core/operator.h:324-335 | A device kind already registered exits with status 1 and the duplicate diagnostic. Otherwise the registry gains exactly that kind, and old entries are kept. |
| Registry.RegisterAll | caffe2/core/operator.h:337-341 | Models the registrations static initialization runs, in order, stopping at the first duplicate. Its contract keeps earlier entries and names a registered key on failure. `RegisterAllSucceedsIffNoClash`, `RegisterAllContents` and `RegisterAllNamesClash` state the rest. |
| Registry.RegisterAllNamesClash | caffe2/core/operator.h:326-330 | A failed run names the key of the first registration, in initialization order, that found its key already taken, by the starting contents or an earlier registration. |
| Registry.RegisterDeviceTypes | caffe2/core/operator.h:337-341 | Start-up continues exactly when no device kind repeats. The registry then maps each registered kind to its registry, and earlier entries keep their values. Otherwise start-up exits with status 1, and the diagnostic names the first registerer whose kind was already registered. |
| Registry.RegisterAllSucceedsIffNoClash | caffe2/core/operator.h:324-335 | A run of registrations succeeds exactly when no key is registered twice. |
| Registry.RegisterAllContents | caffe2/core/operator.h:324-335 | A successful run yields the starting contents plus every entry, with nothing overwritten. |
| Registry.RegistrationOrderIrrelevant | caffe2/core/operator.h:313-341 | Any reordering of the registrations gives the same success and the same registry contents. |
| Registry.DuplicateDeviceMessage | caffe2/core/operator.h:327-329 | The diagnostic is "Device type ", then the kind's decimal rendering, then the fixed text starting "registered twice.", with no space before "registered". |
| Registry.DuplicateDeviceMessageNamesType | caffe2/core/operator.h:327-329 | The duplicate diagnostic names the device kind unambiguously. |
| Registry.RepeatedCpuRegistrationExits | caffe2/core/operator.h:326-330 | Registering kind 0, then 1, then 0 again exits start-up. |
| Registry.EngineKey | caffe2/core/operator.h:362-363 | The key is the operator name, then exactly "_ENGINE_", then the engine, with nothing else. |
| Registry.SplitEngineKeyInvertsEngineKey | caffe2/core/operator.h:362-363 | For a name without underscores, the key splits back into exactly that name and engine. |
| Registry.EngineKeyAmbiguous | caffe2/core/operator.h:362-363 | Names that contain the separator can produce the same key. |
| Registry.RegisterWithEngine | caffe2/core/operator.h:362-379 | The engine macros register the creator in the named device registry, under the key `name_ENGINE_engine` for every name. For names without underscores, that key splits back into the name and engine. |
| Registry.RegisterCudnn | caffe2/core/operator.h:382-383 | `REGISTER_CUDNN_OPERATOR` registers in the CUDA registry under `name_ENGINE_CUDNN`. For names without underscores, the key splits back into the name and `CUDNN`. |
| Numbers.Narrow | caffe2/core/operator.h:268 | The `int64_t -> int` conversion agrees with the value modulo 2^32. It is the identity on values that fit. |
| Numbers.ParseDecimalInvertsDecimal | caffe2/core/operator.h:327 | The decimal rendering of the device kind reads back as the same number. |

## Findings

| source | as written | input that shows it | evidently intended | confidence | as-written member | corrected member |
|---|---|---|---|---|---|---|
| caffe2/core/operator.h:265-283 | Every non-empty rung takes `int value`, so a 64-bit `TIndex` size is narrowed to 32 bits at the first comparison. Only the empty-list rung takes a `TIndex`. | `FixedValues<1, 4>` with size 2^32+1 runs `DoRunWithValue<1>` | Compare sizes at full width, so an unmatched size reaches the `-1` fallback | medium (depends on callers passing `TIndex`); not executed | Dispatch.NarrowingMisroutesLargeSize | Dispatch.FullWidthRoutesToValueOrFallback |

The rest of the model uses the full-width ladder `Dispatch.CallWithValue`.
`Dispatch.CallWithValueAsWritten` keeps the declared behaviour.

## Left out

- `ArgumentHelper` forwarding (`HasArgument`, `GetSingleArgument`, `HasSingleArgumentOfType`, `GetRepeatedArgument`, `arg_helper()`): these only forward to the attribute accessor, which is not part of this model.
- Constructors of `OperatorBase` and `Operator<Context>`: resolving blobs in the workspace happens in operator.cc, which is not part of this model. `Operators.Resolved` states what construction establishes. The constructor's `SwitchToDevice` call has no effect the model can observe.
- `Inputs()`, `Outputs()` and `def()`: these return the stored vectors and definition. The model keeps the definition's name lists and the workspace instead.
- `CreateOperator` and its engine-first lookup: only the declaration is in the header. The model covers only how engine keys are formed.
- Shape inference (`InferBlobShapesAndTypesFromWorkspace`, `InferBlobShapesAndTypesFromMap`): only declarations are in the header.
- `UnsupportedOperatorFeature` and `OPERATOR_NEEDS_FEATURE`: these carry a message out of a constructor, and constructors are not modelled.
- Boilerplate macros (`USE_*`, `INPUT_TAGS`, `OUTPUT_TAGS`, `OP_SINGLE_ARG`, `USE_DISPATCH_HELPER`): they generate declarations and hold no logic.
- Registration of an operator name that is already present: this is decided in registry.h, which is not part of this model. `Registry.Register` shows the duplicate-refusing insertion that the device-type registry performs.
- Device context (`SwitchToDevice`, `FinishDeviceComputation`) and concurrency: the kernel's outcome and the device's completion answer are parameters.
- Tensor storage, shapes and element data: a tensor carries only its context, element type and element count.
- Message texts owned by other headers: the blob type-mismatch text (blob.h), the `CAFFE_NOT_IMPLEMENTED` text, the "[enforce fail at ...]" prefix and the `DCHECK` log line (logging headers). Each is the model's own rendering. `EnforceNotMet::msg()` is rendered as the concatenation of its fragments.
- `LOG(FATAL)` and `std::exit`: these are the terminal values `Fatal` and `Exited`, not process control.
- `InputSize`/`OutputSize` narrowing a `size_t` count to `int`: operator counts are small, so the wrap-around is not modelled.
- `TypeMeta` identity: types are told apart by name, which stands in for the type id.

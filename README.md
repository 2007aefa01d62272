# form-mate, modelled in Dafny

form-mate is a React form component. The model covers its core:

- `serialize`, the field serializer (`src/index.js`). It turns the form's entry list into a plain record of name to value, unless the form declares the multipart encoding. Keys ending in `[]` lose that marker, repeated keys become lists, and a lone empty value is dropped.
- The submission lifecycle of `Form` (`src/index.js`). Loading goes on, then the handler runs. On success the form is reset if `autoReset` is set; on failure the error is stored and reported. Loading then goes off. Change events forward the serialized form.
- The two observers, `FormError` and `FormLoading`. They read `{ loading, error, handled }` from the context. `FormError` also claims the error by setting `handled`.
- The legacy component of the root `index.js`. It disables its fieldset around an opaque serializer and the handler, and reports every failure to `onError`; when `onError` is undefined, the default logs the failure.

How the model is built:

- The serializer is a method with the source's loop. It is proved against a fold specification, `Normalize`, and the lemmas characterise that fold: what each name holds and where it comes from.
- The two components are classes with the fields their source updates. Each method also appends what it does to an event trace, so the order of the steps and the callbacks that were called can be stated. Each class's `Valid()` ties its state fields to the last write of them in the trace.
- The handler's outcome is an input (`Resolved` or `Rejected`), as is what the legacy serializer did (`SerializerRun`).
- Module `Scenarios` replays the runs of `src/test.js` on the model.

Behaviour of the code worth knowing:

- A later successful submission does not clear `error`; only the catch block writes it.
- `handled` is never reset by `Form`. Once an observer has rendered, no later failure is logged.
- Before any failure, a `FormError` callback receives `""` and the initial `false` (`NoError`).
- A lone `tag[]` field collapses to a scalar like any other single value.

## Model

| member | source | states |
|---|---|---|
| Serializer.ToLower | src/index.js:6 | lower-casing keeps the length and maps each character by itself; only `A`–`Z` change |
| Serializer.IsMultipart | src/index.js:6-7 | the raw path needs an encoding of exactly the length of "multipart/form-data" (its spellings are given by `MultipartSpellings`) |
| Serializer.MultipartSpellings | src/index.js:6-9 | the raw path is taken exactly for "multipart/form-data" in any mix of cases, and never for a missing encoding |
| Serializer.StripArrayMarker | src/index.js:13 | a key ending in `[]` is its name followed by `[]`; any other key is its own name |
| Serializer.StripOneMarker | src/index.js:13 | only one trailing `[]` is removed, so `a[][]` is stored under `a[]` |
| Serializer.GetAllMembers | src/index.js:14 | `getAll(key)` holds a value exactly when an entry pairs the key with it |
| Serializer.GetAllAppend | src/index.js:14 | `getAll` distributes over concatenation of entry lists, so it keeps entry order |
| Serializer.GetAllAbsent | src/index.js:14 | a key no entry has gets no values |
| Serializer.GetAllUnique | src/index.js:14 | a key held by one entry gets exactly that entry's value |
| Serializer.Collapse | src/index.js:17-19 | one value becomes a scalar holding it; any other number of values stays the list of them |
| Serializer.Put | src/index.js:14-23 | one loop turn: the name holds the turn's value, or is absent when that value is ""; every other name is left as it was |
| Serializer.ApplyTurnsNoEmpty | src/index.js:21-23 | after any number of turns, no name holds "" |
| Serializer.Normalize | src/index.js:10-25 | the record the loop builds, by folding `Put` over one turn per entry; no name in it holds "" |
| Serializer.Serialization | src/index.js:5-26 | the raw entries iff the encoding is multipart, otherwise the normalised record |
| Serializer.Serialize | src/index.js:5-26 | returns the raw entries on the multipart path, otherwise the normalised record (`Serialization`), so the result depends on the entries and encoding only |
| Serializer.NormalizeEntries | src/index.js:10-25 | the loop over the keys, with its assign, collapse and delete, computes the fold `Normalize` |
| Serializer.ApplyTurnsAt | src/index.js:12-24 | what the record holds under a name is decided by the last loop turn that writes that name: its value, or absence when that value is "" |
| Serializer.NormalizeAt | src/index.js:12-24 | a name is present exactly when some key strips to it and the collapsed values of the last such key are not ""; it then holds those values |
| Serializer.NormalizeOnlyEntryNames | src/index.js:12-14 | every name in the record comes from an entry key with the marker removed |
| Serializer.NormalizeEntry | src/index.js:14-23 | with distinct names, one value gives a scalar, one "" gives absence, and two or more give the list of all values in entry order, kept even if some are "" |
| Serializer.PlainTurns | src/index.js:12-19 | distinct keys without markers give one scalar turn per entry |
| Serializer.PlainFields | src/index.js:12-24 | distinct keys without markers and with non-empty values come out exactly as they went in, and nothing else is in the record |
| Serializer.EmptyEntries | src/index.js:11 | no entries give the empty record, or the empty raw list on the multipart path |
| Serializer.SingleTextInput | src/test.js:25-36 | one input `hello=world` gives `{ hello: "world" }` |
| Serializer.SignupTurns | src/test.js:38-57 | the text, checkbox and radio entries give four scalar turns |
| Serializer.CheckboxesAndRadios | src/test.js:38-57 | those entries give exactly the four scalar pairs |
| Serializer.RepeatedArrayKey | src/index.js:13-19 | two `tag[]` entries give `tag` the list of both values |
| Serializer.SingleArrayKeyAndEmptyValue | src/index.js:17-23 | a lone `tag[]` collapses to a scalar and a lone "" is dropped |
| Serializer.MarkedAndPlainKeyCollide | src/index.js:13-18 | `x[]` then `x` share the name `x`, and the key visited last wins |
| Lifecycle.LoadingAfter | src/index.js:54 | `loading` starts false and changes only by a write |
| Lifecycle.ErrorAfter | src/index.js:55 | `error` starts false and changes only by `setError` |
| Lifecycle.LoadingAfterNoWrites | src/index.js:54 | steps that do not write `loading` leave it as it was |
| Lifecycle.ErrorAfterNoWrites | src/index.js:55 | steps that do not store an error leave `error` as it was |
| Lifecycle.ErrorNeverCleared | src/index.js:74 | once an error is stored, no later step clears it |
| Lifecycle.SubmitTrace | src/index.js:61-83 | a submission switches loading on first and off last, and writes it nowhere else |
| Lifecycle.SubmitCallsHandlerThenResets | src/index.js:69-72 | the handler gets the serialized form iff `onSubmit` is given; the form is reset iff `autoReset` is set and the handler succeeded, and only after it ran; `onChange` is not called |
| Lifecycle.SubmitRoutesFailure | src/index.js:73-78 | a failure, including calling a missing `onSubmit`, is stored; it goes to `onError` iff that is given, and is logged iff there is no `onError` and no observer set `handled` |
| Lifecycle.LoadingDuringSubmit | src/index.js:67-82 | `loading` is true after every step of a submission but the last, and false after it, whatever the outcome |
| Lifecycle.StateAfterEnd | src/index.js:71-82 | settling leaves `loading` false, and `error` holding the failure or, on success, what it held before |
| Lifecycle.ErrorAfterSubmit | src/index.js:73-74 | after a submission `error` is the thrown value, or unchanged on success |
| Lifecycle.HandledRef.constructor | src/index.js:53 | the ref starts with the given value (`false` for the form) |
| Lifecycle.Message | src/index.js:33 | "" before any failure, otherwise the message of the thrown error |
| Lifecycle.ErrorView | src/index.js:33-36 | no children give the message, or nothing when it is ""; a callback gets the message and the error state, "" and `false` before any error; plain children show exactly while there is an error |
| Lifecycle.FormError | src/index.js:30-37 | always sets `handled`, and renders as `ErrorView` of the context's error |
| Lifecycle.FormLoading | src/index.js:39-43 | a callback gets `loading`; plain children show exactly while `loading` is true; absent children render nothing |
| Lifecycle.Form.constructor | src/index.js:53-55 | a fresh form has `handled`, `loading` and `error` all false and has done nothing |
| Lifecycle.Form.Disabled | src/index.js:93 | the fieldset is disabled exactly while `loading` is true |
| Lifecycle.Form.BeginSubmit | src/index.js:61-69 | loading goes on, the fieldset is disabled (`disabled` equals `loading`), and the handler is called with the serialization of the form |
| Lifecycle.Form.EndSubmit | src/index.js:71-82 | after the handler settles: reset or catch block, then loading off and the fieldset enabled; `error` is the failure or unchanged |
| Lifecycle.Form.HandleSubmit | src/index.js:61-83 | a whole submission performs `SubmitTrace` and leaves loading off and `error` as `ErrorAfterSubmit` says |
| Lifecycle.Form.HandleChange | src/index.js:85-86 | forwards the serialization to `onChange` iff it is given, and changes no state |
| Lifecycle.Mount | src/index.js:57-59 | construction throws "onSubmit() callback is required" iff neither `onSubmit` nor `onChange` is given |
| Legacy.DisabledAfter | index.js:22 | the fieldset starts enabled and changes only by a write |
| Legacy.DisabledAfterNoWrites | index.js:22 | steps that do not touch `disabled` leave it as it was |
| Legacy.Report | index.js:30-31 | the catch block calls the given `onError`, or, when `onError` is undefined, the default `logError` of index.js:8 |
| Legacy.SubmitTrace | index.js:16-35 | a submission disables the fieldset first and re-enables it last, touching it nowhere else |
| Legacy.DisabledDuringSubmit | index.js:22-34 | the fieldset is disabled after every step of a submission but the last, and enabled after it, in every outcome |
| Legacy.HandlerGetsRecordThenResets | index.js:25-29 | the handler runs iff the serializer returned, and gets its record, or `{}` for a falsy result; the form is reset iff `autoReset` is set and the handler succeeded, and only after it ran |
| Legacy.FailureReported | index.js:25-31 | every exception of the try block, including the serializer's, goes to `onError` when given and is logged when `onError` is undefined; a serializer failure skips the handler |
| Legacy.ReportedExactlyOnce | index.js:16-35 | a submission reports exactly one failure when the try block threw, and none otherwise |
| Legacy.Fieldset.constructor | index.js:39 | the fieldset starts enabled |
| Legacy.Form.constructor | index.js:13-14 | a fresh legacy form has an enabled fieldset and has done nothing |
| Legacy.Form.HandleSubmit | index.js:16-35 | performs `SubmitTrace` and leaves the fieldset enabled |
| Legacy.Mount | index.js:14 | construction throws "onSubmit() callback is required" iff `onSubmit` is missing; `onChange` does not count |
| Scenarios.SubmitsEmptyForm | src/test.js:13-23 | a form without fields hands the handler `{}` |
| Scenarios.SubmitsTheFields | src/test.js:25-36 | the handler gets `{ hello: "world" }`, and loading goes on and off around it |
| Scenarios.ErrorWithoutChildren | src/test.js:94-107 | `<FormError />` renders nothing, then "my mistake"; because it rendered, the failure is not logged |
| Scenarios.UnobservedErrorIsLogged | src/index.js:73-78 | without an observer or `onError`, the failure is stored and logged |
| Scenarios.ErrorWithPlainChildren | src/test.js:109-122 | plain `FormError` children show only after the failure |
| Scenarios.ErrorWithCallback | src/test.js:124-137 | a `FormError` callback gets "" first, then "my mistake" |
| Scenarios.LoadingWithPlainChildren | src/test.js:59-74 | plain `FormLoading` children show only while the handler is pending |
| Scenarios.LoadingWithCallback | src/test.js:76-92 | a `FormLoading` callback gets false, true while pending, then false |

## Left out

- ToLower: models `toLowerCase` on ASCII letters only. Other characters are left unchanged. This is exact for the comparison with "multipart/form-data": the only characters outside ASCII that lower-case into that string are U+0130 and U+212A. U+0130 lower-cases to two characters, and U+212A to `k`, which the string does not contain.
- Rendering: React, JSX, the context provider and the fieldset's styling are not modelled. Observers are functions of the context value, and `disabled` is `Form.Disabled()`, equal to `loading`.
- How the browser turns inputs into `FormData` entries is not modelled: the checkbox "on" default, unchecked boxes and radios, `File` values. The entry list and the declared encoding are inputs.
- `e.persist()`, `e.preventDefault()` and the effect of `e.target.reset()` are not modelled. The reset is an event in the trace.
- Asynchrony is not modelled. A submission is split at its one await (`BeginSubmit`/`EndSubmit`), and the handler's outcome is an input. Overlapping submissions are not modelled.
- Unmounting during a pending submission is not modelled. The model's state writes always take effect.
- Lifecycle.Message: a thrown value without a string `message` is not modelled, for example `Promise.reject("bad")`. There `message` is `undefined`, and a `FormError` callback would get `(undefined, "bad")`. Every failure here is an `ErrorValue` with a string message.
- Legacy.Report: a missing `onError` stands for an undefined prop, which the default `logError` replaces. An explicit `onError={null}` is not modelled: there `onError(error)` throws a TypeError out of the catch block.
- A handler that throws a falsy value is not modelled. Every failure carries an `ErrorValue`, so `error` is always truthy after a failure.
- `onError`, `onChange` or a `FormError` callback that throws are not modelled. The model assumes these callbacks return.
- The missing-`onSubmit` TypeError is modelled with a fixed message, `"onSubmit is not a function"`. The exact text depends on the JavaScript engine.
- Normalize, NormalizeEntries: the record is a Dafny `map`, so the property order of the object `serialize` builds is not modelled. In JavaScript that order is insertion order, with integer-like names first, and a name deleted and assigned again moves to the end. A handler that posts `JSON.stringify(data)` can observe it.
- Properties inherited by JavaScript objects are not modelled. Names such as `__proto__` are plain map keys here.
- The `form_to_object` library used by the legacy component is not part of this model. Its run is an input.
- The legacy component passes any `onChange` prop straight to `<form>`. That is rendering and is not modelled.
- Console output is not modelled. Logging is a `LogError` event.

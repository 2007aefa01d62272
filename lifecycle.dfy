/**
 * The `Form` component of `src/index.js` and its two observers,
 * `FormError` and `FormLoading`.
 *
 * The component's state (`loading`, `error`) lives in fields; everything
 * it does is also appended to an event trace, so the order of the steps of
 * a submission (state writes and calls to the user's callbacks) can be
 * stated. `Valid()` ties each state field to the last write of it in the trace.
 */
module Lifecycle {
  import opened Common
  import opened Serializer

  /** Which props the form was given: `onSubmit`, `onError`, `onChange` present, and `autoReset`. */
  datatype Config = Config(hasSubmit: bool, hasOnError: bool, hasChange: bool, autoReset: bool)

  /** The `error` state: `false` until a submission fails, then the thrown error. */
  datatype ErrorState = NoError | Failed(err: ErrorValue)

  /** What the component does, in the order it does it. */
  datatype Event =
    | SetLoading(on: bool)          // setLoading(on)
    | CallSubmit(data: Payload)     // onSubmit(serialize(e.target))
    | ResetForm                     // e.target.reset()
    | SetError(err: ErrorValue)     // setError(error)
    | CallOnError(err: ErrorValue)  // onError(error)
    | LogError(err: ErrorValue)     // console.error(error)
    | CallOnChange(data: Payload)   // onChange(serialize(e.currentTarget))

  const REQUIRED_MESSAGE: string := "onSubmit() callback is required"

  /** What calling a missing `onSubmit` throws (a TypeError; the text is the V8 engine's). */
  const NOT_A_FUNCTION: ErrorValue := ErrorValue("onSubmit is not a function")

  // ---------------------------------------------------------------------
  // State as a function of the trace

  /** `loading` after the trace: the last value written, `false` before any write. */
  function LoadingAfter(trace: seq<Event>): (on: bool)
    ensures (forall i :: 0 <= i < |trace| ==> !trace[i].SetLoading?) ==> !on
  {
    if trace == [] then false
    else if trace[|trace| - 1].SetLoading? then trace[|trace| - 1].on
    else LoadingAfter(trace[..|trace| - 1])
  }

  /** `error` after the trace: the last error stored, `false` before any. */
  function ErrorAfter(trace: seq<Event>): (e: ErrorState)
    ensures (forall i :: 0 <= i < |trace| ==> !trace[i].SetError?) ==> e == NoError
  {
    if trace == [] then NoError
    else if trace[|trace| - 1].SetError? then Failed(trace[|trace| - 1].err)
    else ErrorAfter(trace[..|trace| - 1])
  }

  /** Events that write no `loading` leave it as it was. */
  lemma {:induction false} LoadingAfterNoWrites(a: seq<Event>, b: seq<Event>)
    requires forall i :: 0 <= i < |b| ==> !b[i].SetLoading?
    ensures LoadingAfter(a + b) == LoadingAfter(a)
  {
    if b != [] {
      assert (a + b)[..|a + b| - 1] == a + b[..|b| - 1];
      LoadingAfterNoWrites(a, b[..|b| - 1]);
    } else {
      assert a + b == a;
    }
  }

  /** Events that store no error leave `error` as it was. */
  lemma {:induction false} ErrorAfterNoWrites(a: seq<Event>, b: seq<Event>)
    requires forall i :: 0 <= i < |b| ==> !b[i].SetError?
    ensures ErrorAfter(a + b) == ErrorAfter(a)
  {
    if b != [] {
      assert (a + b)[..|a + b| - 1] == a + b[..|b| - 1];
      ErrorAfterNoWrites(a, b[..|b| - 1]);
    } else {
      assert a + b == a;
    }
  }

  /** Once an error is stored, nothing the component does clears it again. */
  lemma {:induction false} ErrorNeverCleared(a: seq<Event>, b: seq<Event>)
    requires ErrorAfter(a).Failed?
    ensures ErrorAfter(a + b).Failed?
  {
    if b == [] {
      assert a + b == a;
    } else {
      assert (a + b)[..|a + b| - 1] == a + b[..|b| - 1];
      ErrorNeverCleared(a, b[..|b| - 1]);
    }
  }

  // ---------------------------------------------------------------------
  // One submission

  /** How the `await onSubmit(...)` settles: a missing `onSubmit` throws before any handler runs. */
  function Attempted(cfg: Config, outcome: Outcome): Outcome {
    if cfg.hasSubmit then outcome else Rejected(NOT_A_FUNCTION)
  }

  /** Up to the await: `setLoading(true)`, then the call to `onSubmit` with the serialized form. */
  function BeginTrace(cfg: Config, data: Payload): seq<Event> {
    [SetLoading(true)] + (if cfg.hasSubmit then [CallSubmit(data)] else [])
  }

  /** After the await: the reset on success, or the catch block. */
  function SettleTrace(cfg: Config, handled: bool, outcome: Outcome): seq<Event> {
    match Attempted(cfg, outcome)
    case Resolved => if cfg.autoReset then [ResetForm] else []
    case Rejected(e) =>
      [SetError(e)] + (if cfg.hasOnError then [CallOnError(e)] else if !handled then [LogError(e)] else [])
  }

  /** The rest of `handleSubmit` after the await: settling, then the finally block. */
  function EndTrace(cfg: Config, handled: bool, outcome: Outcome): seq<Event> {
    SettleTrace(cfg, handled, outcome) + [SetLoading(false)]
  }

  /**
   * The whole of `handleSubmit`, with `handled` the value of the ref when
   * the catch block reads it.
   */
  function SubmitTrace(cfg: Config, handled: bool, data: Payload, outcome: Outcome): (t: seq<Event>)
    // loading is switched on first and off last, and written nowhere else
    ensures |t| >= 2 && t[0] == SetLoading(true) && t[|t| - 1] == SetLoading(false)
    ensures forall i :: 0 < i < |t| - 1 ==> !t[i].SetLoading?
  {
    BeginTrace(cfg, data) + EndTrace(cfg, handled, outcome)
  }

  /** The handler gets the serialized form, if there is one; the form is reset only after it succeeded. */
  lemma SubmitCallsHandlerThenResets(cfg: Config, handled: bool, data: Payload, outcome: Outcome)
    ensures var t := SubmitTrace(cfg, handled, data, outcome);
      && (forall d :: CallSubmit(d) in t <==> cfg.hasSubmit && d == data)
      && (ResetForm in t <==> cfg.hasSubmit && cfg.autoReset && outcome.Resolved?)
      && (forall i, j :: 0 <= i < |t| && 0 <= j < |t| && t[i] == ResetForm && t[j].CallSubmit? ==> j < i)
      && (forall d :: CallOnChange(d) !in t)
  {
    var t := SubmitTrace(cfg, handled, data, outcome);
    var begin := BeginTrace(cfg, data);
    var end := EndTrace(cfg, handled, outcome);
    assert t == begin + end;
    assert forall x :: x in t <==> x in begin || x in end;
    assert forall i :: 0 <= i < |begin| ==> begin[i] != ResetForm;
    assert forall i :: 0 <= i < |end| ==> !end[i].CallSubmit?;
  }

  /** A failure is stored, then goes to `onError`, else is logged unless an observer claimed it. */
  lemma SubmitRoutesFailure(cfg: Config, handled: bool, data: Payload, outcome: Outcome)
    ensures var t := SubmitTrace(cfg, handled, data, outcome);
      && (forall e :: SetError(e) in t <==> Attempted(cfg, outcome) == Rejected(e))
      && (forall e :: CallOnError(e) in t <==> cfg.hasOnError && Attempted(cfg, outcome) == Rejected(e))
      && (forall e :: LogError(e) in t <==> !cfg.hasOnError && !handled && Attempted(cfg, outcome) == Rejected(e))
  {
    var t := SubmitTrace(cfg, handled, data, outcome);
    var begin := BeginTrace(cfg, data);
    var end := EndTrace(cfg, handled, outcome);
    assert t == begin + end;
    assert forall x :: x in t <==> x in begin || x in end;
  }

  /** `loading` is true from the first step of a submission until its last, and false after it. */
  lemma LoadingDuringSubmit(prior: seq<Event>, cfg: Config, handled: bool, data: Payload, outcome: Outcome)
    ensures var t := SubmitTrace(cfg, handled, data, outcome);
      && (forall k :: 1 <= k < |t| ==> LoadingAfter(prior + t[..k]))
      && !LoadingAfter(prior + t)
  {
    var t := SubmitTrace(cfg, handled, data, outcome);
    forall k | 1 <= k < |t|
      ensures LoadingAfter(prior + t[..k])
    {
      assert prior + t[..k] == (prior + [SetLoading(true)]) + t[1..k];
      assert LoadingAfter(prior + [SetLoading(true)]);
      LoadingAfterNoWrites(prior + [SetLoading(true)], t[1..k]);
    }
    assert LoadingAfter(prior + t) == false by {
      assert (prior + t)[..|prior + t| - 1] == prior + t[..|t| - 1];
    }
  }

  /** Settling a submission leaves `loading` false and `error` holding the failure, if any. */
  lemma StateAfterEnd(prior: seq<Event>, cfg: Config, handled: bool, outcome: Outcome)
    ensures !LoadingAfter(prior + EndTrace(cfg, handled, outcome))
    ensures ErrorAfter(prior + EndTrace(cfg, handled, outcome)) ==
      match Attempted(cfg, outcome)
      case Resolved => ErrorAfter(prior)
      case Rejected(e) => Failed(e)
  {
    var settled := SettleTrace(cfg, handled, outcome);
    var t := prior + EndTrace(cfg, handled, outcome);
    assert t[..|t| - 1] == prior + settled;
    ErrorAfterNoWrites(prior + settled, [SetLoading(false)]);
    assert t == (prior + settled) + [SetLoading(false)];
    match Attempted(cfg, outcome)
    case Resolved =>
      ErrorAfterNoWrites(prior, settled);
    case Rejected(e) =>
      var stored := prior + [SetError(e)];
      assert stored[..|stored| - 1] == prior;
      assert prior + settled == stored + settled[1..];
      ErrorAfterNoWrites(stored, settled[1..]);
  }

  /** After a submission `error` holds the failure, or what it held before on success. */
  lemma ErrorAfterSubmit(prior: seq<Event>, cfg: Config, handled: bool, data: Payload, outcome: Outcome)
    ensures ErrorAfter(prior + SubmitTrace(cfg, handled, data, outcome)) ==
      match Attempted(cfg, outcome)
      case Resolved => ErrorAfter(prior)
      case Rejected(e) => Failed(e)
  {
    var begin := BeginTrace(cfg, data);
    assert prior + SubmitTrace(cfg, handled, data, outcome) == (prior + begin) + EndTrace(cfg, handled, outcome);
    ErrorAfterNoWrites(prior, begin);
    StateAfterEnd(prior + begin, cfg, handled, outcome);
  }

  // ---------------------------------------------------------------------
  // Observers

  /** The ref from `useRef(false)`: set by `FormError`, read by the catch block. */
  class HandledRef {
    var current: bool

    constructor (initial: bool)
      ensures current == initial
    {
      current := initial;
    }
  }

  /** The value `FormContext.Provider` hands to the observers. */
  datatype Context = Context(loading: bool, error: ErrorState, handled: HandledRef)

  /** What an observer's `children` prop is: absent (falsy), a render function, or plain content. */
  datatype Children = Absent | RenderFunction | Plain

  /** What an observer renders. */
  datatype View =
    | Nothing                                            // null, or falsy children
    | Text(text: string)                                 // the error message
    | Shown                                              // the plain children
    | ErrorRendered(message: string, error: ErrorState)  // children(message, error)
    | LoadingRendered(loading: bool)                     // children(loading)

  /** `error ? error.message : ""` */
  function Message(error: ErrorState): (m: string)
    ensures error == NoError ==> m == ""
    ensures error.Failed? ==> m == error.err.message
  {
    if error.Failed? then error.err.message else ""
  }

  /** What `FormError` renders for an error state and its children. */
  function ErrorView(error: ErrorState, children: Children): (v: View)
    // no children: the message, or nothing when it is empty (also before any error)
    ensures children == Absent ==> (v == Nothing <==> Message(error) == "") && (v != Nothing ==> v == Text(Message(error)))
    // a render function always runs, with "" and the initial `false` before any error
    ensures children == RenderFunction ==> v == ErrorRendered(Message(error), error)
    ensures children == RenderFunction && error == NoError ==> v == ErrorRendered("", NoError)
    // plain children show exactly while there is an error
    ensures children == Plain ==> (v == Shown <==> error.Failed?) && (v == Nothing <==> error == NoError)
  {
    var message := Message(error);
    match children
    case Absent => if message == "" then Nothing else Text(message)
    case RenderFunction => ErrorRendered(message, error)
    case Plain => if error.Failed? then Shown else Nothing
  }

  /** `FormError`: renders from the context and claims the error by setting `handled`. */
  method FormError(ctx: Context, children: Children) returns (v: View)
    modifies ctx.handled
    ensures ctx.handled.current
    ensures v == ErrorView(ctx.error, children)
  {
    ctx.handled.current := true;
    var message := Message(ctx.error);
    if children == Absent {
      return if message == "" then Nothing else Text(message);
    }
    if children == RenderFunction {
      return ErrorRendered(message, ctx.error);
    }
    return if ctx.error.Failed? then Shown else Nothing;
  }

  /** `FormLoading`: a render function gets `loading`; other children show only while loading. */
  function FormLoading(ctx: Context, children: Children): (v: View)
    ensures children == RenderFunction ==> v == LoadingRendered(ctx.loading)
    ensures children == Plain ==> (v == Shown <==> ctx.loading) && (v == Nothing <==> !ctx.loading)
    // absent children render nothing, loading or not
    ensures children == Absent ==> v == Nothing
    ensures children != RenderFunction ==> v != LoadingRendered(ctx.loading)
  {
    if children == RenderFunction then LoadingRendered(ctx.loading)
    // with absent children `loading ? children : null` is a falsy value either way
    else if ctx.loading && children == Plain then Shown else Nothing
  }

  // ---------------------------------------------------------------------
  // The component

  class Form {
    const cfg: Config
    const handled: HandledRef
    var loading: bool
    var error: ErrorState
    var trace: seq<Event>

    ghost predicate Valid()
      reads this
    {
      loading == LoadingAfter(trace) && error == ErrorAfter(trace)
    }

    /** The fieldset's `disabled` attribute. */
    function Disabled(): (d: bool)
      reads this
      ensures d <==> loading
    {
      loading
    }

    /** What the provider passes down: `{ loading, error, handled }`. */
    function Ctx(): Context
      reads this
    {
      Context(loading, error, handled)
    }

    /** The first render, once props have been checked: `useRef(false)`, `useState(false)` twice. */
    constructor (cfg: Config)
      requires cfg.hasSubmit || cfg.hasChange
      ensures Valid() && this.cfg == cfg && fresh(handled)
      ensures !handled.current && !loading && error == NoError && trace == []
    {
      this.cfg := cfg;
      handled := new HandledRef(false);
      loading := false;
      error := NoError;
      trace := [];
    }

    /** `handleSubmit` up to its await: loading on, the handler called with the serialized form. */
    method BeginSubmit(entries: seq<Entry>, enctype: Option<string>)
      requires Valid()
      modifies this
      ensures Valid() && loading && Disabled() && error == old(error)
      ensures trace == old(trace) + BeginTrace(cfg, Serialization(entries, enctype))
    {
      trace := trace + [SetLoading(true)];
      loading := true;
      var data := Serialize(entries, enctype);
      if cfg.hasSubmit {
        assert (trace + [CallSubmit(data)])[..|trace|] == trace;
        trace := trace + [CallSubmit(data)];
      }
    }

    /** `handleSubmit` after its await: the reset, or the catch block; then `setLoading(false)`. */
    method EndSubmit(outcome: Outcome)
      requires Valid()
      modifies this
      ensures Valid() && !loading && !Disabled()
      ensures error == match Attempted(cfg, outcome) case Resolved => old(error) case Rejected(e) => Failed(e)
      ensures trace == old(trace) + EndTrace(cfg, handled.current, outcome)
    {
      ghost var t0 := trace;
      var attempt := Attempted(cfg, outcome);
      if attempt.Resolved? {
        if cfg.autoReset {
          trace := trace + [ResetForm];
        }
      } else {
        var e := attempt.err;
        trace := trace + [SetError(e)];
        error := Failed(e);
        if cfg.hasOnError {
          trace := trace + [CallOnError(e)];
        } else if !handled.current {
          trace := trace + [LogError(e)];
        }
      }
      trace := trace + [SetLoading(false)];
      loading := false;
      assert trace == t0 + EndTrace(cfg, handled.current, outcome);
      StateAfterEnd(t0, cfg, handled.current, outcome);
    }

    /** `handleSubmit(e)`: one whole submission whose handler settles with `outcome`. */
    method HandleSubmit(entries: seq<Entry>, enctype: Option<string>, outcome: Outcome)
      requires Valid()
      modifies this
      ensures Valid() && !loading && !Disabled()
      ensures error == match Attempted(cfg, outcome) case Resolved => old(error) case Rejected(e) => Failed(e)
      ensures trace == old(trace) + SubmitTrace(cfg, handled.current, Serialization(entries, enctype), outcome)
    {
      BeginSubmit(entries, enctype);
      EndSubmit(outcome);
    }

    /** `handleChange(e)`: forwards the serialized form to `onChange`; state is untouched. */
    method HandleChange(entries: seq<Entry>, enctype: Option<string>)
      requires Valid()
      modifies this
      ensures Valid() && loading == old(loading) && error == old(error)
      ensures trace == old(trace) + if cfg.hasChange then [CallOnChange(Serialization(entries, enctype))] else []
    {
      if cfg.hasChange {
        var data := Serialize(entries, enctype);
        LoadingAfterNoWrites(trace, [CallOnChange(data)]);
        ErrorAfterNoWrites(trace, [CallOnChange(data)]);
        trace := trace + [CallOnChange(data)];
      }
    }
  }

  /** Mounting `<Form>`: throws unless `onSubmit` or `onChange` is given. */
  method Mount(cfg: Config) returns (r: Result<Form>)
    ensures r.Err? <==> !cfg.hasSubmit && !cfg.hasChange
    ensures r.Err? ==> r.message == REQUIRED_MESSAGE
    ensures r.Ok? ==> fresh(r.value) && r.value.Valid() && r.value.cfg == cfg && r.value.trace == []
  {
    if !cfg.hasSubmit && !cfg.hasChange {
      return Err(REQUIRED_MESSAGE);
    }
    var form := new Form(cfg);
    return Ok(form);
  }
}

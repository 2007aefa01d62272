/**
 * The legacy `Form` of the root `index.js`: the same disable, call,
 * re-enable shape as the current component, but the state is the
 * fieldset's own `disabled` attribute, the serializer is the
 * `form_to_object` library (an opaque step here) and every failure goes to
 * `onError`, which logs when the prop is undefined.
 */
module Legacy {
  import opened Common
  import opened Serializer

  /** Which props the form was given: `onSubmit` and `onError` present, and `autoReset`. */
  datatype LegacyConfig = LegacyConfig(hasSubmit: bool, hasOnError: bool, autoReset: bool)

  /**
   * What the `form_to_object` call did: it threw, or it returned an object
   * or a falsy value (`None`). Its own logic is not part of this model, and
   * neither is the shape of its objects: `Record` stands for whatever object
   * it returns, which is passed on untouched and compared only for identity.
   */
  datatype SerializerRun = Threw(err: ErrorValue) | Returned(data: Option<Record>)

  /** What the legacy component does, in the order it does it. */
  datatype LegacyEvent =
    | Disable(on: bool)          // ref.current.disabled = on
    | CallSubmit(data: Record)   // onSubmit(data || {})
    | ResetForm                  // e.target.reset()
    | CallOnError(err: ErrorValue) // onError(error), a user-supplied handler
    | LogError(err: ErrorValue)  // the default onError: console.error(error)

  const REQUIRED_MESSAGE: string := "onSubmit() callback is required"

  /** The fieldset's `disabled` after the trace: the last value written, `false` before any write. */
  function DisabledAfter(trace: seq<LegacyEvent>): (on: bool)
    ensures (forall i :: 0 <= i < |trace| ==> !trace[i].Disable?) ==> !on
  {
    if trace == [] then false
    else if trace[|trace| - 1].Disable? then trace[|trace| - 1].on
    else DisabledAfter(trace[..|trace| - 1])
  }

  /** Events that do not touch `disabled` leave it as it was. */
  lemma {:induction false} DisabledAfterNoWrites(a: seq<LegacyEvent>, b: seq<LegacyEvent>)
    requires forall i :: 0 <= i < |b| ==> !b[i].Disable?
    ensures DisabledAfter(a + b) == DisabledAfter(a)
  {
    if b != [] {
      assert (a + b)[..|a + b| - 1] == a + b[..|b| - 1];
      DisabledAfterNoWrites(a, b[..|b| - 1]);
    } else {
      assert a + b == a;
    }
  }

  /** A step of the catch block: the error handed to `onError`, user-supplied or default. */
  predicate IsReport(ev: LegacyEvent) {
    ev.CallOnError? || ev.LogError?
  }

  /** The value thrown inside the try block, if any: by the serializer, or by the awaited handler. */
  function Thrown(run: SerializerRun, outcome: Outcome): Option<ErrorValue> {
    match run
    case Threw(e) => Some(e)
    case Returned(_) => if outcome.Rejected? then Some(outcome.err) else None
  }

  /** The catch block: `onError(error)`, where an undefined `onError` is `logError`. */
  function Report(cfg: LegacyConfig, e: ErrorValue): (ev: LegacyEvent)
    ensures IsReport(ev)
    ensures ev == CallOnError(e) <==> cfg.hasOnError
    ensures ev == LogError(e) <==> !cfg.hasOnError
  {
    if cfg.hasOnError then CallOnError(e) else LogError(e)
  }

  /** Everything `handleSubmit` does between disabling and re-enabling the fieldset. */
  function AttemptTrace(cfg: LegacyConfig, run: SerializerRun, outcome: Outcome): seq<LegacyEvent> {
    match run
    case Threw(e) => [Report(cfg, e)]
    case Returned(d) =>
      [CallSubmit(d.GetOr(map[]))] +
      match outcome
      case Resolved => if cfg.autoReset then [ResetForm] else []
      case Rejected(e) => [Report(cfg, e)]
  }

  /** The whole of the legacy `handleSubmit`. */
  function SubmitTrace(cfg: LegacyConfig, run: SerializerRun, outcome: Outcome): (t: seq<LegacyEvent>)
    // disabled first and re-enabled last, and touched nowhere else
    ensures |t| >= 2 && t[0] == Disable(true) && t[|t| - 1] == Disable(false)
    ensures forall i :: 0 < i < |t| - 1 ==> !t[i].Disable?
  {
    [Disable(true)] + AttemptTrace(cfg, run, outcome) + [Disable(false)]
  }

  /** The fieldset is disabled from the first step of a submission until its last, and enabled after it. */
  lemma DisabledDuringSubmit(prior: seq<LegacyEvent>, cfg: LegacyConfig, run: SerializerRun, outcome: Outcome)
    ensures var t := SubmitTrace(cfg, run, outcome);
      && (forall k :: 1 <= k < |t| ==> DisabledAfter(prior + t[..k]))
      && !DisabledAfter(prior + t)
  {
    var t := SubmitTrace(cfg, run, outcome);
    forall k | 1 <= k < |t|
      ensures DisabledAfter(prior + t[..k])
    {
      assert prior + t[..k] == (prior + [Disable(true)]) + t[1..k];
      assert DisabledAfter(prior + [Disable(true)]);
      DisabledAfterNoWrites(prior + [Disable(true)], t[1..k]);
    }
    assert (prior + t)[..|prior + t| - 1] == prior + t[..|t| - 1];
  }

  /**
   * The handler runs only when the serializer returned, and gets its record,
   * or `{}` for a falsy result; the form is reset only after the handler succeeded.
   */
  lemma HandlerGetsRecordThenResets(cfg: LegacyConfig, run: SerializerRun, outcome: Outcome)
    ensures var t := SubmitTrace(cfg, run, outcome);
      && (forall d :: CallSubmit(d) in t <==> run.Returned? && d == run.data.GetOr(map[]))
      && (run == Returned(None) ==> CallSubmit(map[]) in t)
      && (ResetForm in t <==> cfg.autoReset && run.Returned? && outcome.Resolved?)
      && (forall i, j :: 0 <= i < |t| && 0 <= j < |t| && t[i] == ResetForm && t[j].CallSubmit? ==> j < i)
  {
    var t := SubmitTrace(cfg, run, outcome);
    var middle := AttemptTrace(cfg, run, outcome);
    assert t == [Disable(true)] + middle + [Disable(false)];
    assert forall x :: x in t <==> x == Disable(true) || x in middle || x == Disable(false);
    if run.Returned? {
      assert middle[0] == CallSubmit(run.data.GetOr(map[]));
      assert forall i :: 1 <= i < |middle| ==> !middle[i].CallSubmit?;
    }
  }

  /**
   * Every exception of the try block, including one from the serializer, is
   * reported to `onError` when given, otherwise logged.
   */
  lemma FailureReported(cfg: LegacyConfig, run: SerializerRun, outcome: Outcome)
    ensures var t := SubmitTrace(cfg, run, outcome);
      && (forall e :: CallOnError(e) in t <==> cfg.hasOnError && Thrown(run, outcome) == Some(e))
      && (forall e :: LogError(e) in t <==> !cfg.hasOnError && Thrown(run, outcome) == Some(e))
      && (run.Threw? ==> forall d :: CallSubmit(d) !in t)
  {
    var t := SubmitTrace(cfg, run, outcome);
    var middle := AttemptTrace(cfg, run, outcome);
    assert t == [Disable(true)] + middle + [Disable(false)];
    assert forall x :: x in t <==> x == Disable(true) || x in middle || x == Disable(false);
  }

  /** The report is a single step of the trace, present exactly when something was thrown. */
  lemma ReportedExactlyOnce(cfg: LegacyConfig, run: SerializerRun, outcome: Outcome)
    ensures var t := SubmitTrace(cfg, run, outcome);
      && (Thrown(run, outcome).Some? ==>
            exists i :: 0 <= i < |t| && IsReport(t[i]) && forall j :: 0 <= j < |t| && j != i ==> !IsReport(t[j]))
      && (Thrown(run, outcome).None? ==> forall i :: 0 <= i < |t| ==> !IsReport(t[i]))
  {
    var t := SubmitTrace(cfg, run, outcome);
    match run
    case Threw(e) =>
      assert t == [Disable(true), Report(cfg, e), Disable(false)];
      assert IsReport(t[1]);
      assert forall j :: 0 <= j < |t| && j != 1 ==> !IsReport(t[j]);
    case Returned(d) =>
      var call := CallSubmit(d.GetOr(map[]));
      match outcome
      case Resolved =>
        if cfg.autoReset {
          assert t == [Disable(true), call, ResetForm, Disable(false)];
        } else {
          assert t == [Disable(true), call, Disable(false)];
        }
      case Rejected(e) =>
        assert t == [Disable(true), call, Report(cfg, e), Disable(false)];
        assert IsReport(t[2]);
        assert forall j :: 0 <= j < |t| && j != 2 ==> !IsReport(t[j]);
  }

  /** The `<fieldset>` element the component holds a ref to. */
  class Fieldset {
    var disabled: bool

    constructor ()
      ensures !disabled
    {
      disabled := false;
    }
  }

  class Form {
    const cfg: LegacyConfig
    const fieldset: Fieldset
    var trace: seq<LegacyEvent>

    ghost predicate Valid()
      reads this, fieldset
    {
      fieldset.disabled == DisabledAfter(trace)
    }

    /** The first render, once `onSubmit` has been checked. */
    constructor (cfg: LegacyConfig)
      requires cfg.hasSubmit
      ensures Valid() && this.cfg == cfg && fresh(fieldset)
      ensures !fieldset.disabled && trace == []
    {
      this.cfg := cfg;
      fieldset := new Fieldset();
      trace := [];
    }

    /** `handleSubmit(e)`: one submission, with what the serializer did and how the handler settled. */
    method HandleSubmit(run: SerializerRun, outcome: Outcome)
      requires Valid()
      modifies this, fieldset
      ensures Valid() && !fieldset.disabled
      ensures trace == old(trace) + SubmitTrace(cfg, run, outcome)
    {
      ghost var t0 := trace;
      fieldset.disabled := true;
      trace := trace + [Disable(true)];
      if run.Threw? {
        trace := trace + [Report(cfg, run.err)];
      } else {
        var data := run.data.GetOr(map[]);
        trace := trace + [CallSubmit(data)];
        if outcome.Resolved? {
          if cfg.autoReset {
            trace := trace + [ResetForm];
          }
        } else {
          trace := trace + [Report(cfg, outcome.err)];
        }
      }
      fieldset.disabled := false;
      trace := trace + [Disable(false)];
      assert trace == t0 + SubmitTrace(cfg, run, outcome);
      DisabledDuringSubmit(t0, cfg, run, outcome);
    }
  }

  /** Mounting the legacy `<Form>`: throws unless `onSubmit` is given; `onChange` does not count. */
  method Mount(cfg: LegacyConfig) returns (r: Result<Form>)
    ensures r.Err? <==> !cfg.hasSubmit
    ensures r.Err? ==> r.message == REQUIRED_MESSAGE
    ensures r.Ok? ==> fresh(r.value) && r.value.Valid() && r.value.cfg == cfg && r.value.trace == []
  {
    if !cfg.hasSubmit {
      return Err(REQUIRED_MESSAGE);
    }
    var form := new Form(cfg);
    return Ok(form);
  }
}

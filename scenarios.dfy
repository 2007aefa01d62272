/**
 * Whole-component runs: a form is mounted, observers render, the user
 * submits, the observers render again. Each run fixes the handler's outcome
 * and states what the observers show before and after.
 */
module Scenarios {
  import opened Common
  import opened Serializer
  import opened Lifecycle

  /** A form with only `onSubmit`. */
  const SUBMIT_ONLY: Config := Config(hasSubmit := true, hasOnError := false, hasChange := false, autoReset := false)

  /** The single text input `hello` with the value `world`. */
  const HELLO: seq<Entry> := [("hello", "world")]

  const MISTAKE: ErrorValue := ErrorValue("my mistake")

  /** A form without fields hands the handler an empty object. */
  method SubmitsEmptyForm() returns (trace: seq<Event>)
    ensures trace == [SetLoading(true), CallSubmit(Fields(map[])), SetLoading(false)]
  {
    var form := new Form(SUBMIT_ONLY);
    form.HandleSubmit([], None, Resolved);
    EmptyEntries(None);
    MultipartSpellings("");
    trace := form.trace;
  }

  /** The handler receives `{ hello: "world" }`, and nothing else happens on success. */
  method SubmitsTheFields() returns (trace: seq<Event>)
    ensures trace == [SetLoading(true), CallSubmit(Fields(map["hello" := Scalar("world")])), SetLoading(false)]
  {
    var form := new Form(SUBMIT_ONLY);
    form.HandleSubmit(HELLO, None, Resolved);
    SingleTextInput();
    trace := form.trace;
  }

  /**
   * `<FormError />` renders nothing, then the message of the thrown error.
   * It rendered before the failure, so the error counts as handled and is not logged.
   */
  method ErrorWithoutChildren() returns (before: View, after: View, trace: seq<Event>)
    ensures before == Nothing && after == Text("my mistake")
    ensures trace == [SetLoading(true), CallSubmit(Fields(map["hello" := Scalar("world")])),
                      SetError(MISTAKE), SetLoading(false)]
  {
    var form := new Form(SUBMIT_ONLY);
    before := FormError(form.Ctx(), Absent);
    form.HandleSubmit(HELLO, None, Rejected(MISTAKE));
    after := FormError(form.Ctx(), Absent);
    SingleTextInput();
    trace := form.trace;
  }

  /** Without any `FormError` the failure is logged. */
  method UnobservedErrorIsLogged() returns (trace: seq<Event>)
    ensures trace == [SetLoading(true), CallSubmit(Fields(map["hello" := Scalar("world")])),
                      SetError(MISTAKE), LogError(MISTAKE), SetLoading(false)]
  {
    var form := new Form(SUBMIT_ONLY);
    form.HandleSubmit(HELLO, None, Rejected(MISTAKE));
    SingleTextInput();
    trace := form.trace;
  }

  /** `<FormError>There was an error...</FormError>` shows its children only after the failure. */
  method ErrorWithPlainChildren() returns (before: View, after: View)
    ensures before == Nothing && after == Shown
  {
    var form := new Form(SUBMIT_ONLY);
    before := FormError(form.Ctx(), Plain);
    form.HandleSubmit(HELLO, None, Rejected(MISTAKE));
    after := FormError(form.Ctx(), Plain);
  }

  /** `<FormError>{(message) => message}</FormError>` gets "" and `false` first, then the error. */
  method ErrorWithCallback() returns (before: View, after: View)
    ensures before == ErrorRendered("", NoError)
    ensures after == ErrorRendered("my mistake", Failed(MISTAKE))
  {
    var form := new Form(SUBMIT_ONLY);
    before := FormError(form.Ctx(), RenderFunction);
    form.HandleSubmit(HELLO, None, Rejected(MISTAKE));
    after := FormError(form.Ctx(), RenderFunction);
  }

  /** `<FormLoading>Loading...</FormLoading>` shows only while the handler is pending. */
  method LoadingWithPlainChildren() returns (before: View, during: View, after: View)
    ensures before == Nothing && during == Shown && after == Nothing
  {
    var form := new Form(SUBMIT_ONLY);
    before := FormLoading(form.Ctx(), Plain);
    form.BeginSubmit(HELLO, None);
    during := FormLoading(form.Ctx(), Plain);
    form.EndSubmit(Resolved);
    after := FormLoading(form.Ctx(), Plain);
  }

  /** A `FormLoading` callback gets `false`, `true` while pending, then `false` again. */
  method LoadingWithCallback() returns (before: View, during: View, after: View)
    ensures before == LoadingRendered(false) && during == LoadingRendered(true) && after == LoadingRendered(false)
  {
    var form := new Form(SUBMIT_ONLY);
    before := FormLoading(form.Ctx(), RenderFunction);
    form.BeginSubmit(HELLO, None);
    during := FormLoading(form.Ctx(), RenderFunction);
    form.EndSubmit(Resolved);
    after := FormLoading(form.Ctx(), RenderFunction);
  }
}

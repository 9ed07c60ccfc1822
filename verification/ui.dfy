/** What the pages and modals do besides changing their own state. A
    handler is one atomic transition; the outcome of every network call it
    awaits is a parameter (`Reply`), and what it does is a trace of
    effects. */
module Ui {
  /** The settled value of an awaited API call. */
  datatype Reply<+T> = Ok(value: T) | Failed(message: string)

  /** A page handler's visible effects: a call of an API function (the
      page's own datatype of calls), or an `alert`. */
  datatype Effect<+C> = Send(call: C) | Alert(message: string)

  /** How a page handler's promise settles: normally, or by rethrowing the
      error of the call that failed (to the modal that awaited it). */
  datatype Outcome = Completed | Rethrown(message: string)

  datatype Flow<+C> = Flow(effects: seq<Effect<C>>, outcome: Outcome)

  /** The error a handler rethrows when it reads a property of `null` or
      `undefined` (the host's message text is not modelled). */
  const HostTypeError: string := "TypeError"

  /** The position of the first failed reply, or the number of replies
      when none failed. */
  function FirstFailure<T>(rs: seq<Reply<T>>): (k: nat)
    ensures k <= |rs|
    ensures forall i :: 0 <= i < k ==> rs[i].Ok?
    ensures k < |rs| ==> rs[k].Failed?
  {
    if rs == [] then 0
    else if rs[0].Failed? then 0
    else 1 + FirstFailure(rs[1..])
  }

  /** No reply failed exactly when the first failure is past the end. */
  lemma FirstFailureIsEndIffAllOk<T>(rs: seq<Reply<T>>)
    ensures FirstFailure(rs) == |rs| <==> forall i :: 0 <= i < |rs| ==> rs[i].Ok?
  {
  }

  /** A modal's calls into its parent: `onSubmit(...)`, `onClose()`, or an
      `alert`. */
  datatype ModalEffect<+A> = Submitted(payload: A) | Closed | Alerted(message: string)

  /** What a modal does once the awaited `onSubmit` settles: close on
      success, alert and stay open on failure. */
  function Settle<A>(handlerSucceeded: bool, failMessage: string): (e: ModalEffect<A>)
    ensures e == Closed <==> handlerSucceeded
    ensures !handlerSucceeded ==> e == Alerted(failMessage)
  {
    if handlerSucceeded then Closed else Alerted(failMessage)
  }
}

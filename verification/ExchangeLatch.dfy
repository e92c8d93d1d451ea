/** The two-half latch of an exchange: the upload and the response each report
    completion, in any order and any number of times; the upstream resource is
    finished when both have. */
module ExchangeLatch {
  import opened Bytes

  datatype Reason =
    | RequestCancellation | SendFailure | InvalidUpgrade | ResponseBodyError | ResponseBodyDrop | NonReusableResponse
    | UpgradeFailure | WebSocketClosed | WebSocketError | WebSocketCancellation

  datatype Completion = Completion(reusable: bool, reason: Reason)

  datatype Call = RequestDone(clean: bool) | ResponseDone(completion: Completion)

  /** `finish_exchange_resource` being called, and with what. */
  datatype Finish = Finish(reusable: bool, reason: Reason)

  datatype Latch = Latch(request: Option<bool>, response: Option<Completion>, resource: bool)

  const NEW := Latch(None, None, true)

  function OrInsert<T>(slot: Option<T>, value: T): Option<T> { if slot.Some? then slot else Some(value) }

  function Step(l: Latch, c: Call): (Latch, Option<Finish>) {
    var l' := if c.RequestDone? then l.(request := OrInsert(l.request, c.clean))
              else l.(response := OrInsert(l.response, c.completion));
    if l'.request.Some? && l'.response.Some? && l'.resource
    then (l'.(resource := false), Some(Finish(l'.request.value && l'.response.value.reusable, l'.response.value.reason)))
    else (l', None)
  }

  class ExchangeLatch<R> {
    var request: Option<bool>
    var response: Option<Completion>
    var resource: Option<R>

    function View(): Latch
      reads this
    {
      Latch(request, response, resource.Some?)
    }

    constructor (resource: R)
      ensures View() == NEW && this.resource == Some(resource)
    {
      request, response, this.resource := None, None, Some(resource);
    }

    /** Records one half and hands out the resource when that completes both. */
    method Report(c: Call) returns (taken: Option<R>, finish: Option<Finish>)
      modifies this
      ensures (View(), finish) == Step(old(View()), c)
      ensures taken == if finish.Some? then old(resource) else None
    {
      match c {
        case RequestDone(clean) => request := OrInsert(request, clean);
        case ResponseDone(completion) => response := OrInsert(response, completion);
      }
      taken, finish := None, None;
      if request.Some? && response.Some? && resource.Some? {
        taken, resource := resource, None;
        finish := Some(Finish(request.value && response.value.reusable, response.value.reason));
      }
    }
  }

  /** Every finish a run of calls causes, in order. */
  function Finishes(l: Latch, calls: seq<Call>): seq<Finish>
    decreases |calls|
  {
    if calls == [] then [] else
    var (l', f) := Step(l, calls[0]);
    (if f.Some? then [f.value] else []) + Finishes(l', calls[1..])
  }

  function FirstRequest(calls: seq<Call>): Option<bool> {
    if calls == [] then None else if calls[0].RequestDone? then Some(calls[0].clean) else FirstRequest(calls[1..])
  }

  function FirstResponse(calls: seq<Call>): Option<Completion> {
    if calls == [] then None else if calls[0].ResponseDone? then Some(calls[0].completion) else FirstResponse(calls[1..])
  }

  lemma {:induction false} FinishesFrom(l: Latch, calls: seq<Call>)
    requires l.resource ==> l.request.None? || l.response.None?
    ensures Finishes(l, calls) ==
            var request := if l.request.Some? then l.request else FirstRequest(calls);
            var response := if l.response.Some? then l.response else FirstResponse(calls);
            if l.resource && request.Some? && response.Some?
            then [Finish(request.value && response.value.reusable, response.value.reason)] else []
    decreases |calls|
  {
    if calls != [] { FinishesFrom(Step(l, calls[0]).0, calls[1..]); }
  }

  /** Main result: for every order and repetition of calls the resource is
      finished at most once, exactly when both halves have reported, reusable
      if and only if the first report of each half said so. */
  lemma FinishedOnceByBothHalves(calls: seq<Call>)
    ensures Finishes(NEW, calls) ==
            if FirstRequest(calls).Some? && FirstResponse(calls).Some?
            then [Finish(FirstRequest(calls).value && FirstResponse(calls).value.reusable, FirstResponse(calls).value.reason)]
            else []
  {
    FinishesFrom(NEW, calls);
  }
}

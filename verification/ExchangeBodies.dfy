/** The two objects that report to the exchange latch: the upload, which
    reports when the HTTP library drops it, and the holder of the response
    half, which is a guard, then the response body or a WebSocket bridge. */
module ExchangeBodies {
  import opened Bytes
  import opened E = ExchangeLatch

  /** What polling the wrapped body gave; `last` is its own end-of-stream flag. */
  datatype Polled = NotReady | Frame(last: bool) | Trailers | EndOfStream | Fault

  predicate Ends(p: Polled) { p.Trailers? || p.EndOfStream? || (p.Frame? && p.last) }

  // ----- the upload -----

  datatype Upload = Upload(complete: bool, cancelled: bool)

  /** `armed` while the upload still holds the latch. */
  datatype Request = Request(inner: bool, terminal: Option<bool>, armed: bool, upload: Upload)

  function Observe(b: Request, clean: bool): Request {
    if b.terminal.Some? then b else
    b.(inner := false, terminal := Some(clean),
       upload := if clean then b.upload.(complete := true) else if b.upload.complete then b.upload else b.upload.(cancelled := true))
  }

  /** A new upload, which may be at its end already. */
  function Started(ended: bool): Request {
    var b := Request(true, None, true, Upload(false, false));
    if ended then Observe(b, true) else b
  }

  function PollRequest(b: Request, p: Polled): Request {
    if b.upload.cancelled then Observe(b, false)
    else if !b.inner then b
    else if Ends(p) then Observe(b, true)
    else if p.Fault? then Observe(b, false) else b
  }

  function DropRequest(b: Request): (Request, Option<Call>) {
    var b' := Observe(b, false);
    if b'.armed then (b'.(armed := false), Some(RequestDone(b'.terminal.value))) else (b', None)
  }

  class TrackedRequestBody {
    var inner: bool
    var terminal: Option<bool>
    var exchange: bool
    var complete: bool
    var cancelled: bool

    function View(): Request
      reads this
    {
      Request(inner, terminal, exchange, Upload(complete, cancelled))
    }

    constructor (ended: bool)
      ensures View() == Started(ended)
    {
      inner, terminal, exchange, complete, cancelled := true, None, true, false, false;
      new;
      if ended { ObserveTerminal(true); }
    }

    method ObserveTerminal(clean: bool)
      modifies this
      ensures View() == Observe(old(View()), clean)
    {
      if terminal.Some? { return; }
      terminal := Some(clean);
      if clean { complete := true; } else if !complete { cancelled := true; }
      inner := false;
    }

    method PollFrame(p: Polled)
      modifies this
      ensures View() == PollRequest(old(View()), p)
    {
      if cancelled {
        ObserveTerminal(false);
        return;
      }
      if !inner { return; }
      match p {
        case Trailers => ObserveTerminal(true);
        case Frame(last) => if last { ObserveTerminal(true); }
        case EndOfStream => ObserveTerminal(true);
        case Fault => ObserveTerminal(false);
        case NotReady =>
      }
    }

    /** The report, if it has not been made. */
    method FinishOnDrop() returns (report: Option<Call>)
      modifies this
      ensures (View(), report) == DropRequest(old(View()))
    {
      if terminal.None? { ObserveTerminal(false); }
      if !exchange { return None; }
      exchange := false;
      report := Some(RequestDone(terminal.value));
    }
  }

  // ----- the response body -----

  datatype Response = Response(inner: bool, reusable: bool, armed: bool)

  function Report(b: Response, c: Completion): (Response, Option<Call>) {
    if b.armed then (Response(false, b.reusable, false), Some(ResponseDone(c))) else (b, None)
  }

  function Complete(b: Response): (Response, Option<Call>) { Report(b, Completion(b.reusable, NonReusableResponse)) }

  function PollResponse(b: Response, p: Polled): (Response, Option<Call>) {
    if !b.inner then (b, None)
    else if Ends(p) then Complete(b)
    else if p.Fault? then Report(b, Completion(false, ResponseBodyError)) else (b, None)
  }

  function DropResponse(b: Response): (Response, Option<Call>) { Report(b, Completion(false, ResponseBodyDrop)) }

  class ExchangeResponseBody {
    var inner: bool
    const reusable: bool
    var exchange: bool

    function View(): Response
      reads this
    {
      Response(inner, reusable, exchange)
    }

    /** Whoever makes a body that is at its end reports it done at once. */
    constructor (reusable: bool)
      ensures View() == Response(true, reusable, true)
    {
      inner, this.reusable, exchange := true, reusable, true;
    }

    method Done(completion: Completion) returns (report: Option<Call>)
      modifies this
      ensures (View(), report) == Report(old(View()), completion)
    {
      if !exchange { return None; }
      exchange, inner := false, false;
      report := Some(ResponseDone(completion));
    }

    method PollFrame(p: Polled) returns (report: Option<Call>)
      modifies this
      ensures (View(), report) == PollResponse(old(View()), p)
    {
      report := None;
      if !inner { return; }
      match p {
        case Trailers => report := Done(Completion(reusable, NonReusableResponse));
        case Frame(last) => if last { report := Done(Completion(reusable, NonReusableResponse)); }
        case EndOfStream => report := Done(Completion(reusable, NonReusableResponse));
        case Fault => report := Done(Completion(false, ResponseBodyError));
        case NotReady =>
      }
    }

    method Dispose() returns (report: Option<Call>)
      modifies this
      ensures (View(), report) == DropResponse(old(View()))
    {
      report := Done(Completion(false, ResponseBodyDrop));
    }
  }

  // ----- one exchange -----

  /** Who answers for the response half. `ended` records that the response
      was read to its end; a bridge whose runtime is gone is forgotten. */
  datatype Half =
    | Guard
    | Reading(body: Response, ended: bool, dropped: bool)
    | Bridging
    | Forgotten
    | Gone

  /** `cancels` are cancellations that have looked at the upload and not yet
      stored their flag; `reports` is what the latch was told, in order. */
  datatype Exchange = Exchange(request: Request, dropped: bool, cancels: nat, half: Half, reports: seq<Call>)

  function Told(x: Exchange, report: Option<Call>): Exchange {
    if report.Some? then x.(reports := x.reports + [report.value]) else x
  }

  datatype Event =
    | PollUpload(polled: Polled)
    | CancelLooks
    | CancelStores
    | UploadDropped
    | GuardReports(reason: Reason)
    | Responds(reusable: bool, empty: bool)
    | Upgrades
    | BridgeReports(reason: Reason)
    | BridgeForgotten
    | PollBody(polled: Polled)
    | BodyDropped

  function Opened(ended: bool): Exchange {
    Exchange(Started(ended), false, 0, Guard, [])
  }

  function NextUpload(x: Exchange, e: Event): Exchange {
    match e
    case PollUpload(p) => if x.dropped then x else x.(request := PollRequest(x.request, p))
    case CancelLooks => if x.request.upload.complete then x else x.(cancels := x.cancels + 1)
    case CancelStores =>
      if x.cancels == 0 then x
      else x.(cancels := x.cancels - 1, request := x.request.(upload := x.request.upload.(cancelled := true)))
    case UploadDropped =>
      if x.dropped then x else
      var (b, report) := DropRequest(x.request);
      Told(x.(request := b, dropped := true), report)
    case _ => x
  }

  /** The response half after an event, and what it reports. */
  function HalfAfter(half: Half, e: Event): (Half, Option<Call>) {
    match (e, half)
    case (GuardReports(reason), Guard) => (Gone, Some(ResponseDone(Completion(false, reason))))
    case (Responds(reusable, empty), Guard) =>
      var b := Response(true, reusable, true);
      if empty then var (b', report) := Complete(b); (Reading(b', true, false), report) else (Reading(b, false, false), None)
    case (Upgrades, Guard) => (Bridging, None)
    case (BridgeReports(reason), Bridging) => (Gone, Some(ResponseDone(Completion(false, reason))))
    case (BridgeForgotten, Bridging) => (Forgotten, None)
    case (PollBody(p), Reading(b, ended, false)) =>
      var (b', report) := PollResponse(b, p);
      (Reading(b', ended || (b.inner && Ends(p)), false), report)
    case (BodyDropped, Reading(b, ended, false)) =>
      var (b', report) := DropResponse(b);
      (Reading(b', ended, true), report)
    case _ => (half, None)
  }

  function NextHalf(x: Exchange, e: Event): Exchange {
    var (half, report) := HalfAfter(x.half, e);
    Told(x.(half := half), report)
  }

  function Next(x: Exchange, e: Event): Exchange {
    if e.PollUpload? || e.CancelLooks? || e.CancelStores? || e.UploadDropped? then NextUpload(x, e) else NextHalf(x, e)
  }

  function Exec(x: Exchange, events: seq<Event>): Exchange
    decreases |events|
  {
    if events == [] then x else Exec(Next(x, events[0]), events[1..])
  }

  // ----- what every run keeps -----

  function Requests(calls: seq<Call>): nat {
    if calls == [] then 0 else Requests(calls[..|calls| - 1]) + if calls[|calls| - 1].RequestDone? then 1 else 0
  }

  /** What the latch has been told of the response half. */
  ghost predicate ResponseOk(half: Half, told: Option<Completion>) {
    match half
    case Guard => told.None?
    case Bridging => told.None?
    case Forgotten => told.None?
    case Gone => told.Some? && !told.value.reusable
    case Reading(b, ended, dropped) =>
      && (dropped ==> !b.armed) && (b.armed ==> b.inner && !ended && told.None?) && (!b.armed ==> !b.inner && told.Some?)
      && (ended ==> told == Some(Completion(b.reusable, NonReusableResponse)))
      && (told.Some? && told.value.reusable ==> ended)
  }

  ghost predicate Inv(x: Exchange) {
    && x.request.armed == !x.dropped && (x.dropped ==> x.request.terminal.Some?)
    && (x.request.inner <==> x.request.terminal.None?) && (x.request.upload.complete <==> x.request.terminal == Some(true))
    && FirstRequest(x.reports) == (if x.dropped then x.request.terminal else None)
    && Requests(x.reports) == (if x.dropped then 1 else 0)
    && |x.reports| - Requests(x.reports) == (if FirstResponse(x.reports).Some? then 1 else 0)
    && ResponseOk(x.half, FirstResponse(x.reports))
  }

  lemma {:induction false} FirstSnoc(calls: seq<Call>, c: Call)
    ensures FirstRequest(calls + [c]) ==
      if FirstRequest(calls).Some? then FirstRequest(calls) else if c.RequestDone? then Some(c.clean) else None
    ensures FirstResponse(calls + [c]) ==
      if FirstResponse(calls).Some? then FirstResponse(calls) else if c.ResponseDone? then Some(c.completion) else None
    ensures Requests(calls + [c]) == Requests(calls) + if c.RequestDone? then 1 else 0
  {
    assert (calls + [c])[..|calls|] == calls;
    if calls != [] {
      FirstSnoc(calls[1..], c);
      assert (calls + [c])[1..] == calls[1..] + [c];
    }
  }

  lemma UploadKeeps(x: Exchange, e: Event)
    requires Inv(x)
    ensures Inv(NextUpload(x, e))
  {
    hide ResponseOk, FirstRequest, FirstResponse, Requests;
    if e.UploadDropped? { FirstSnoc(x.reports, RequestDone(Observe(x.request, false).terminal.value)); }
  }

  lemma HalfOk(half: Half, told: Option<Completion>, e: Event)
    requires ResponseOk(half, told)
    ensures var (half', report) := HalfAfter(half, e);
            if report.None? then ResponseOk(half', told)
            else report.value.ResponseDone? && told.None? && ResponseOk(half', Some(report.value.completion))
  {
  }

  lemma HalfKeeps(x: Exchange, e: Event)
    requires Inv(x)
    ensures Inv(NextHalf(x, e))
  {
    hide ResponseOk, HalfAfter;
    HalfOk(x.half, FirstResponse(x.reports), e);
    var report := HalfAfter(x.half, e).1;
    if report.Some? { FirstSnoc(x.reports, report.value); }
  }

  lemma NextKeeps(x: Exchange, e: Event)
    requires Inv(x)
    ensures Inv(Next(x, e))
  {
    hide Inv, NextUpload, NextHalf;
    UploadKeeps(x, e);
    HalfKeeps(x, e);
  }

  lemma {:induction false} ExecKeeps(x: Exchange, events: seq<Event>)
    requires Inv(x)
    ensures Inv(Exec(x, events))
    decreases |events|
  {
    if events != [] {
      NextKeeps(x, events[0]);
      ExecKeeps(Next(x, events[0]), events[1..]);
    }
  }

  /** Main result: each half reports at most once. The resource is finished
      at most once and only after the upload was dropped; once the upload is
      dropped and the response half is answered for, it has been finished. */
  lemma FinishedExactlyOnce(ended: bool, events: seq<Event>)
    ensures var x := Exec(Opened(ended), events); var finishes := Finishes(NEW, x.reports);
            && Requests(x.reports) <= 1 && |x.reports| - Requests(x.reports) <= 1
            && |finishes| <= 1 && (finishes != [] ==> x.dropped)
            && (x.dropped && (x.half.Gone? || (x.half.Reading? && (x.half.dropped || x.half.ended))) ==> |finishes| == 1)
  {
    ExecKeeps(Opened(ended), events);
    FinishedOnceByBothHalves(Exec(Opened(ended), events).reports);
  }

  lemma ReuseByState(ended: bool, events: seq<Event>)
    ensures var x := Exec(Opened(ended), events);
            (exists f :: f in Finishes(NEW, x.reports) && f.reusable) <==>
            x.dropped && x.request.terminal == Some(true) && x.half.Reading? && x.half.ended && x.half.body.reusable
  {
    var x := Exec(Opened(ended), events);
    ExecKeeps(Opened(ended), events);
    FinishedOnceByBothHalves(x.reports);
    if x.dropped && FirstResponse(x.reports).Some? {
      var f := Finish(x.request.terminal.value && FirstResponse(x.reports).value.reusable, FirstResponse(x.reports).value.reason);
      assert Finishes(NEW, x.reports) == [f];
    }
  }

  // ----- reuse, told by the events alone -----

  /** A cancellation was stored: it looked at the upload first. */
  ghost predicate Cancelled(events: seq<Event>) {
    exists a, b :: 0 <= a < b < |events| && events[a] == CancelLooks && events[b] == CancelStores
  }

  /** Event `i` polls the upload and gets its end, before it was dropped, with
      no error and no stored cancellation earlier. */
  ghost predicate UploadEndsAt(events: seq<Event>, i: nat)
    requires i < |events|
  {
    && events[i].PollUpload? && events[i].polled in {Trailers, EndOfStream, Frame(true)}
    && UploadDropped !in events[..i] && PollUpload(Fault) !in events[..i] && !Cancelled(events[..i])
  }

  /** The upload was at its end from the start or was read to its end. */
  ghost predicate UploadEnds(ended: bool, events: seq<Event>) {
    ended || exists i :: 0 <= i < |events| && UploadEndsAt(events, i)
  }

  predicate Decides(e: Event) { e.GuardReports? || e.Responds? || e.Upgrades? }

  /** Event `i` polls the response that event `r` brought and gets its end,
      with no error and no drop between. */
  ghost predicate ResponseEndsAt(events: seq<Event>, r: nat, i: nat)
    requires r < i < |events|
  {
    && events[i].PollBody? && events[i].polled in {Trailers, EndOfStream, Frame(true)}
    && PollBody(Fault) !in events[r + 1..i] && BodyDropped !in events[r + 1..i]
  }

  /** Event `r` brought the response, and nothing before it took its place. */
  ghost predicate RespondsAt(events: seq<Event>, r: nat)
    requires r < |events|
  {
    events[r].Responds? && forall k :: 0 <= k < r ==> !Decides(events[k])
  }

  /** The response allows reuse and has no body or was read to its end. */
  ghost predicate ResponseEnds(events: seq<Event>) {
    exists r :: 0 <= r < |events| && RespondsAt(events, r) && events[r].reusable
      && (events[r].empty || exists i :: r < i < |events| && ResponseEndsAt(events, r, i))
  }

  lemma {:induction false} ExecSnoc(x: Exchange, events: seq<Event>, e: Event)
    ensures Exec(x, events + [e]) == Next(Exec(x, events), e)
    decreases |events|
  {
    hide Next;
    if events == [] {
      assert [e][1..] == [] && Exec(x, [e]) == Exec(Next(x, e), []);
      assert [] + [e] == [e];
    } else {
      assert (events + [e])[1..] == events[1..] + [e];
      ExecSnoc(Next(x, events[0]), events[1..], e);
    }
  }

  /** What the upload's fields say of the events so far. */
  ghost predicate UploadTold(ended: bool, events: seq<Event>, x: Exchange) {
    && (x.dropped <==> UploadDropped in events)
    && (x.request.inner <==> x.request.terminal.None?) && (x.request.upload.complete <==> x.request.terminal == Some(true))
    && (x.request.terminal.Some? && x.request.terminal.value <==> UploadEnds(ended, events))
    && (x.request.terminal.None? ==>
          && UploadDropped !in events && PollUpload(Fault) !in events
          && (x.request.upload.cancelled <==> Cancelled(events))
          && (!x.request.upload.cancelled ==> (x.cancels > 0 <==> CancelLooks in events)))
    && (x.request.terminal.Some? && !x.request.terminal.value ==> x.request.upload.cancelled)
    && (x.request.terminal.Some? && !x.request.terminal.value ==> UploadDropped in events || PollUpload(Fault) in events || Cancelled(events))
  }

  lemma CancelledSnoc(events: seq<Event>, e: Event)
    ensures Cancelled(events + [e]) <==> Cancelled(events) || (e == CancelStores && CancelLooks in events)
  {
    var all := events + [e];
    if Cancelled(events) {
      var a, b :| 0 <= a < b < |events| && events[a] == CancelLooks && events[b] == CancelStores;
      assert all[a] == CancelLooks && all[b] == CancelStores;
    }
    if e == CancelStores && CancelLooks in events {
      var a :| 0 <= a < |events| && events[a] == CancelLooks;
      assert all[a] == CancelLooks && all[|events|] == CancelStores;
    }
  }

  lemma UploadEndsSnoc(ended: bool, events: seq<Event>, e: Event)
    ensures UploadEnds(ended, events + [e]) <==>
      || UploadEnds(ended, events)
      || (e.PollUpload? && e.polled in {Trailers, EndOfStream, Frame(true)}
          && UploadDropped !in events && PollUpload(Fault) !in events && !Cancelled(events))
  {
    hide Cancelled;
    var all := events + [e];
    assert all[..|events|] == events && all[|events|] == e;
    forall i | 0 <= i < |events| ensures UploadEndsAt(all, i) <==> UploadEndsAt(events, i) { assert all[..i] == events[..i]; }
    assert UploadEndsAt(all, |events|) <==>
      (e.PollUpload? && e.polled in {Trailers, EndOfStream, Frame(true)}
       && UploadDropped !in events && PollUpload(Fault) !in events && !Cancelled(events));
  }

  lemma UploadToldStep(ended: bool, events: seq<Event>, x: Exchange, e: Event)
    requires UploadTold(ended, events, x)
    ensures UploadTold(ended, events + [e], Next(x, e))
  {
    hide Cancelled, UploadEnds, HalfAfter;
    CancelledSnoc(events, e);
    UploadEndsSnoc(ended, events, e);
    assert forall k :: k in events + [e] <==> k in events || k == e;
    if e.PollUpload? {
      LastPoll(e.polled);
      assert e.polled.Fault? ==> e == PollUpload(Fault);
    }
  }

  lemma LastPoll(p: Polled)
    ensures Ends(p) <==> p in {Trailers, EndOfStream, Frame(true)}
  {
  }

  lemma {:induction false} UploadIsTold(ended: bool, events: seq<Event>)
    ensures UploadTold(ended, events, Exec(Opened(ended), events))
    decreases |events|
  {
    if events == [] {
      assert !Cancelled([]);
    } else {
      hide UploadTold;
      var before, e := events[..|events| - 1], events[|events| - 1];
      assert events == before + [e];
      UploadIsTold(ended, before);
      UploadToldStep(ended, before, Exec(Opened(ended), before), e);
      ExecSnoc(Opened(ended), before, e);
    }
  }

  /** What others can see of an upload: it is complete exactly if it came to its
      own end; once it ended otherwise or was dropped before it is cancelled; and
      a cancellation that looks only after its end is ignored. */
  lemma UploadStateIsTold(ended: bool, events: seq<Event>)
    ensures var x := Exec(Opened(ended), events);
            && (x.request.upload.complete <==> UploadEnds(ended, events))
            && ((UploadDropped in events || PollUpload(Fault) in events) && !UploadEnds(ended, events) ==> x.request.upload.cancelled)
            && (UploadEnds(ended, events) ==> Next(x, CancelLooks) == x)
  {
    hide UploadEnds, HalfAfter;
    UploadIsTold(ended, events);
    var x := Exec(Opened(ended), events);
    assert x.request.terminal == Some(true) <==> x.request.terminal.Some? && x.request.terminal.value;
  }

  /** The response that event `r` brought, as it stands at the end. */
  ghost predicate BodyTold(events: seq<Event>, r: nat, half: Half)
    requires r < |events| && events[r].Responds?
  {
    && half.Reading? && half.body.reusable == events[r].reusable
    && (half.ended <==> events[r].empty || exists i :: r < i < |events| && ResponseEndsAt(events, r, i))
    && (half.body.inner <==> !half.ended && PollBody(Fault) !in events[r + 1..] && BodyDropped !in events[r + 1..])
    && (half.body.armed <==> half.body.inner) && (half.dropped <==> BodyDropped in events[r + 1..])
  }

  ghost predicate HalfTold(events: seq<Event>, half: Half) {
    && (half.Guard? <==> forall k :: 0 <= k < |events| ==> !Decides(events[k]))
    && (half.Reading? <==> exists r :: 0 <= r < |events| && RespondsAt(events, r))
    && (forall r :: 0 <= r < |events| && RespondsAt(events, r) ==> BodyTold(events, r, half))
  }

  lemma RespondsSnoc(events: seq<Event>, e: Event, r: nat)
    requires r <= |events|
    ensures RespondsAt(events + [e], r) <==>
      if r < |events| then RespondsAt(events, r) else e.Responds? && forall k :: 0 <= k < |events| ==> !Decides(events[k])
  {
    var all := events + [e];
    assert forall k :: 0 <= k < |events| ==> all[k] == events[k];
  }

  lemma ResponseEndsSnoc(events: seq<Event>, e: Event, r: nat)
    requires r < |events|
    ensures var all := events + [e];
            (exists i :: r < i < |all| && ResponseEndsAt(all, r, i)) <==>
              || (exists i :: r < i < |events| && ResponseEndsAt(events, r, i))
              || (e.PollBody? && e.polled in {Trailers, EndOfStream, Frame(true)}
                  && PollBody(Fault) !in events[r + 1..] && BodyDropped !in events[r + 1..])
  {
    var all := events + [e];
    forall i | r < i < |events| ensures ResponseEndsAt(all, r, i) <==> ResponseEndsAt(events, r, i) { assert all[r + 1..i] == events[r + 1..i]; }
    assert all[r + 1..|events|] == events[r + 1..] && all[|events|] == e;
    assert ResponseEndsAt(all, r, |events|) <==>
      (e.PollBody? && e.polled in {Trailers, EndOfStream, Frame(true)}
       && PollBody(Fault) !in events[r + 1..] && BodyDropped !in events[r + 1..]);
  }

  lemma BodyToldStep(events: seq<Event>, r: nat, half: Half, e: Event)
    requires r < |events| && events[r].Responds? && BodyTold(events, r, half)
    ensures BodyTold(events + [e], r, HalfAfter(half, e).0)
  {
    var all := events + [e];
    if e.PollBody? { LastPoll(e.polled); }
    ResponseEndsSnoc(events, e, r);
    var since := events[r + 1..];
    assert all[r + 1..] == since + [e] && all[r] == events[r];
    assert forall k :: k in since + [e] <==> k in since || k == e;
  }

  lemma HalfToldStep(events: seq<Event>, half: Half, e: Event)
    requires HalfTold(events, half)
    ensures HalfTold(events + [e], HalfAfter(half, e).0)
  {
    hide BodyTold, RespondsAt;
    var all, half' := events + [e], HalfAfter(half, e).0;
    assert forall k :: 0 <= k < |events| ==> all[k] == events[k];
    forall r | 0 <= r <= |events| ensures RespondsAt(all, r) <==> if r < |events| then RespondsAt(events, r) else e.Responds? && half.Guard? {
      RespondsSnoc(events, e, r);
    }
    forall r | 0 <= r < |all| && RespondsAt(all, r) ensures all[r].Responds? && BodyTold(all, r, half') {
      RespondsMeans(all, r);
      if r < |events| {
        BodyToldStep(events, r, half, e);
      } else {
        BodyToldNew(events, e);
      }
    }
    assert half'.Guard? <==> forall k :: 0 <= k < |all| ==> !Decides(all[k]) by { assert all[|events|] == e; }
    assert half'.Reading? <==> half.Reading? || (half.Guard? && e.Responds?);
    assert half.Guard? && e.Responds? ==> RespondsAt(all, |events|);
  }

  lemma RespondsMeans(events: seq<Event>, r: nat)
    requires r < |events| && RespondsAt(events, r)
    ensures events[r].Responds?
  {
  }

  lemma BodyToldNew(events: seq<Event>, e: Event)
    requires e.Responds?
    ensures BodyTold(events + [e], |events|, HalfAfter(Guard, e).0)
  {
    var all := events + [e];
    assert all[|events| + 1..] == [];
  }

  lemma {:induction false} HalfIsTold(ended: bool, events: seq<Event>)
    ensures HalfTold(events, Exec(Opened(ended), events).half)
    decreases |events|
  {
    if events != [] {
      hide HalfTold;
      var before, e := events[..|events| - 1], events[|events| - 1];
      assert events == before + [e];
      HalfIsTold(ended, before);
      HalfToldStep(before, Exec(Opened(ended), before).half, e);
      ExecSnoc(Opened(ended), before, e);
      HalfOfNext(Exec(Opened(ended), before), e);
    }
  }

  lemma HalfOfNext(x: Exchange, e: Event)
    ensures Next(x, e).half == HalfAfter(x.half, e).0
  {
  }

  /** Main result, told by the events alone: the connection is reused exactly
      if the upload was dropped and had come to its own end before, without an
      error or a stored cancellation on the way, and the response allowed reuse
      and came to its own end likewise. */
  lemma ReuseIsEarned(ended: bool, events: seq<Event>)
    ensures (exists f :: f in Finishes(NEW, Exec(Opened(ended), events).reports) && f.reusable) <==>
            UploadDropped in events && UploadEnds(ended, events) && ResponseEnds(events)
  {
    ReuseByState(ended, events);
    UploadIsTold(ended, events);
    HalfIsTold(ended, events);
    ResponseTold(events, Exec(Opened(ended), events).half);
  }

  lemma ResponseTold(events: seq<Event>, half: Half)
    requires HalfTold(events, half)
    ensures ResponseEnds(events) <==> half.Reading? && half.ended && half.body.reusable
  {
    if half.Reading? {
      var r :| 0 <= r < |events| && RespondsAt(events, r);
      assert BodyTold(events, r, half);
    }
    forall r | 0 <= r < |events| && RespondsAt(events, r) ensures BodyTold(events, r, half) {
    }
  }

  // ----- the whole report, told by the events -----

  /** What a response body reports, given what happens to it. */
  function BodyAnswer(reusable: bool, events: seq<Event>): Option<Completion> {
    if events == [] then None else
    match events[0]
    case PollBody(Trailers) => Some(Completion(reusable, NonReusableResponse))
    case PollBody(EndOfStream) => Some(Completion(reusable, NonReusableResponse))
    case PollBody(Frame(true)) => Some(Completion(reusable, NonReusableResponse))
    case PollBody(Fault) => Some(Completion(false, ResponseBodyError))
    case BodyDropped => Some(Completion(false, ResponseBodyDrop))
    case _ => BodyAnswer(reusable, events[1..])
  }

  /** What a bridge reports. */
  function BridgeAnswer(events: seq<Event>): Option<Completion> {
    if events == [] then None else
    match events[0]
    case BridgeReports(reason) => Some(Completion(false, reason))
    case BridgeForgotten => None
    case _ => BridgeAnswer(events[1..])
  }

  /** What the response half reports. */
  function Answer(events: seq<Event>): Option<Completion> {
    if events == [] then None else
    match events[0]
    case GuardReports(reason) => Some(Completion(false, reason))
    case Responds(reusable, empty) => if empty then Some(Completion(reusable, NonReusableResponse)) else BodyAnswer(reusable, events[1..])
    case Upgrades => BridgeAnswer(events[1..])
    case _ => Answer(events[1..])
  }

  function AnswerFrom(half: Half, events: seq<Event>): Option<Completion> {
    match half
    case Guard => Answer(events)
    case Reading(b, _, _) => if b.armed then BodyAnswer(b.reusable, events) else None
    case Bridging => BridgeAnswer(events)
    case _ => None
  }

  lemma AnswerStep(half: Half, told: Option<Completion>, events: seq<Event>)
    requires ResponseOk(half, told) && events != []
    ensures var (half', report) := HalfAfter(half, events[0]);
            told.None? ==>
              AnswerFrom(half, events) ==
              if report.Some? && report.value.ResponseDone? then Some(report.value.completion) else AnswerFrom(half', events[1..])
  {
  }

  lemma {:induction false} AnswerIsTold(x: Exchange, events: seq<Event>)
    requires Inv(x)
    ensures FirstResponse(Exec(x, events).reports) == if FirstResponse(x.reports).Some? then FirstResponse(x.reports) else AnswerFrom(x.half, events)
    decreases |events|
  {
    if events == [] {
    } else {
      hide Answer, BodyAnswer, BridgeAnswer, AnswerFrom, HalfAfter, ResponseOk, NextUpload, FirstResponse, FirstRequest, Requests;
      var e := events[0];
      var x' := Next(x, e);
      NextKeeps(x, e);
      AnswerIsTold(x', events[1..]);
      AnswerStep(x.half, FirstResponse(x.reports), events);
      HalfOfNext(x, e);
      ReportStep(x, e);
    }
  }

  lemma ReportStep(x: Exchange, e: Event)
    requires Inv(x)
    ensures var report := HalfAfter(x.half, e).1;
            FirstResponse(Next(x, e).reports) ==
              if FirstResponse(x.reports).Some? then FirstResponse(x.reports)
              else if report.Some? && report.value.ResponseDone? then Some(report.value.completion) else None
  {
    hide FirstResponse, FirstRequest, Requests, ResponseOk;
    if e.PollUpload? || e.CancelLooks? || e.CancelStores? || e.UploadDropped? {
      FirstSnoc(x.reports, RequestDone(Observe(x.request, false).terminal.value));
    } else {
      var report := HalfAfter(x.half, e).1;
      if report.Some? { FirstSnoc(x.reports, report.value); }
    }
  }

  /** Main result: the exact finish of every exchange, told by the events alone.
      There is one exactly if the upload was dropped and the response half has
      answered; it is reusable exactly if the upload came to its own end and the
      answer allows it; and its reason is that of the answer. */
  lemma FinishIsTold(ended: bool, events: seq<Event>)
    ensures Finishes(NEW, Exec(Opened(ended), events).reports) ==
      if UploadDropped in events && Answer(events).Some?
      then [Finish(UploadEnds(ended, events) && Answer(events).value.reusable, Answer(events).value.reason)] else []
  {
    var x := Exec(Opened(ended), events);
    ExecKeeps(Opened(ended), events);
    AnswerIsTold(Opened(ended), events);
    UploadIsTold(ended, events);
    FinishedOnceByBothHalves(x.reports);
    assert x.request.terminal.Some? ==> (x.request.terminal.value <==> UploadEnds(ended, events));
  }
}

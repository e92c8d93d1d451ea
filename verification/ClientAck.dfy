/** The incremental reader of the client's own bytes: it waits for the
    preface to be complete and for the first SETTINGS acknowledgement. */
module ClientAck {
  import opened Bytes
  import opened H2Frames

  datatype Ack = Ack(prefaceLen: nat, header: seq<byte>, remaining: nat, seen: bool)
  {
    predicate Valid() {
      prefaceLen <= |PREFACE| && (seen || |header| < HEADER_LEN)
    }
  }

  const FRESH := Ack(0, [], 0, false)

  /** After header bytes were copied in; None is a contract violation. */
  function AfterHeader(a: Ack): (r: Option<Ack>)
    requires |a.header| <= HEADER_LEN && a.prefaceLen <= |PREFACE|
    ensures r.Some? ==> r.value.Valid()
  {
    if |a.header| < HEADER_LEN then Some(a) else
    var h := DecodeHeader(a.header);
    if h.kind == SETTINGS && h.ack then
      if h.length == 0 && h.stream == 0 then Some(a.(seen := true)) else None
    else Some(a.(remaining := h.length, header := []))
  }

  function Step(a: Ack, b: byte): (r: Option<Ack>)
    requires a.Valid()
    ensures r.Some? ==> r.value.Valid()
  {
    if a.seen then Some(a)
    else if a.prefaceLen < |PREFACE| then
      if b == PREFACE[a.prefaceLen] then Some(a.(prefaceLen := a.prefaceLen + 1)) else None
    else if a.remaining != 0 then Some(a.(remaining := a.remaining - 1))
    else AfterHeader(a.(header := a.header + [b]))
  }

  /** The reader one byte at a time; None from the first violation on. */
  function Run(a: Ack, bytes: seq<byte>): (r: Option<Ack>)
    requires a.Valid()
    ensures r.Some? ==> r.value.Valid()
    decreases |bytes|
  {
    if bytes == [] then Some(a) else
    var n := Step(a, bytes[0]);
    if n.None? then None else Run(n.value, bytes[1..])
  }

  function Then(a: Option<Ack>, bytes: seq<byte>): Option<Ack>
    requires a.Some? ==> a.value.Valid()
  {
    if a.None? then None else Run(a.value, bytes)
  }

  /** Fragment boundaries do not matter. */
  lemma {:induction false} RunSplit(a: Ack, x: seq<byte>, y: seq<byte>)
    requires a.Valid()
    ensures Run(a, x + y) == Then(Run(a, x), y)
    decreases |x|
  {
    hide Step;
    if x == [] {
      assert x + y == y;
    } else {
      assert (x + y)[1..] == x[1..] + y;
      var n := Step(a, x[0]);
      if n.Some? { RunSplit(n.value, x[1..], y); }
    }
  }

  lemma RunPrefix(a: Ack, bytes: seq<byte>, n: nat)
    requires a.Valid() && n <= |bytes|
    ensures Run(a, bytes) == Then(Run(a, bytes[..n]), bytes[n..])
  {
    hide Run;
    RunSplit(a, bytes[..n], bytes[n..]);
    assert bytes == bytes[..n] + bytes[n..];
  }

  lemma {:induction false} PrefaceChunk(a: Ack, x: seq<byte>)
    requires a.Valid() && !a.seen && |x| <= |PREFACE| - a.prefaceLen
    ensures Run(a, x) == if x == PREFACE[a.prefaceLen..a.prefaceLen + |x|] then Some(a.(prefaceLen := a.prefaceLen + |x|)) else None
    decreases |x|
  {
    if x != [] {
      var here := PREFACE[a.prefaceLen..a.prefaceLen + |x|];
      assert here[0] == PREFACE[a.prefaceLen];
      assert x == [x[0]] + x[1..] && here == [here[0]] + here[1..];
      var n := Step(a, x[0]);
      if n.Some? { PrefaceChunk(n.value, x[1..]); }
    }
  }

  lemma {:induction false} SkipChunk(a: Ack, x: seq<byte>)
    requires a.Valid() && !a.seen && a.prefaceLen == |PREFACE| && |x| <= a.remaining
    ensures Run(a, x) == Some(a.(remaining := a.remaining - |x|))
    decreases |x|
  {
    if x != [] { SkipChunk(Step(a, x[0]).value, x[1..]); }
  }

  lemma {:induction false} HeaderChunk(a: Ack, x: seq<byte>)
    requires a.Valid() && !a.seen && a.prefaceLen == |PREFACE| && a.remaining == 0
    requires 0 < |x| <= HEADER_LEN - |a.header|
    ensures Run(a, x) == AfterHeader(a.(header := a.header + x))
    decreases |x|
  {
    hide DecodeHeader;
    if |x| > 1 {
      HeaderChunk(Step(a, x[0]).value, x[1..]);
      assert a.header + [x[0]] + x[1..] == a.header + x;
    } else {
      assert x == [x[0]] && x[1..] == [];
    }
  }

  lemma RunNothing(a: Ack)
    requires a.Valid()
    ensures Run(a, []) == Some(a)
  {
  }

  lemma {:induction false} SeenStays(a: Ack, x: seq<byte>)
    requires a.Valid() && a.seen
    ensures Run(a, x) == Some(a)
    decreases |x|
  {
    if x != [] { SeenStays(a, x[1..]); }
  }

  class ClientAckParser {
    var prefaceLen: nat
    const header: array<byte>
    var headerLen: nat
    var payloadRemaining: nat
    var ackSeen: bool

    ghost predicate Valid()
      reads this, header
    {
      header.Length == HEADER_LEN && headerLen <= HEADER_LEN && View().Valid()
    }

    ghost function View(): Ack
      reads this, header
      requires headerLen <= header.Length
    {
      Ack(prefaceLen, header[..headerLen], payloadRemaining, ackSeen)
    }

    constructor ()
      ensures Valid() && fresh(header) && View() == FRESH
    {
      header := new byte[HEADER_LEN](_ => 0);
      prefaceLen, headerLen, payloadRemaining, ackSeen := 0, 0, 0, false;
    }

    /** Reads one fragment. After a violation the fields are not meaningful:
        the proof has failed and the parser is never fed again. */
    method Feed(bytes: seq<byte>) returns (ok: bool)
      requires Valid()
      modifies this, header
      ensures ok == Run(old(View()), bytes).Some?
      ensures ok ==> Valid() && View() == Run(old(View()), bytes).value
      ensures !ok ==> !ackSeen
    {
      hide Run, Step;
      ghost var goal := Run(View(), bytes);
      if ackSeen {
        SeenStays(View(), bytes);
        return true;
      }
      var rest := bytes;
      while rest != []
        invariant Valid() && !ackSeen
        invariant goal == Run(View(), rest)
        decreases |rest|
      {
        ghost var a := View();
        if prefaceLen < |PREFACE| {
          var copied := Min(|PREFACE| - prefaceLen, |rest|);
          PrefaceChunk(a, rest[..copied]);
          RunPrefix(a, rest, copied);
          if rest[..copied] != PREFACE[prefaceLen..prefaceLen + copied] { return false; }
          prefaceLen, rest := prefaceLen + copied, rest[copied..];
        } else if payloadRemaining != 0 {
          var skipped := Min(payloadRemaining, |rest|);
          SkipChunk(a, rest[..skipped]);
          RunPrefix(a, rest, skipped);
          payloadRemaining, rest := payloadRemaining - skipped, rest[skipped..];
        } else {
          rest, ok := TakeHeader(rest);
          if !ok { return false; }
          if ackSeen {
            SeenStays(View(), rest);
            return true;
          }
        }
      }
      RunNothing(View());
      ok := true;
    }

    method TakeHeader(rest: seq<byte>) returns (rest': seq<byte>, ok: bool)
      requires Valid() && !ackSeen && prefaceLen == |PREFACE| && payloadRemaining == 0 && rest != []
      modifies this, header
      ensures ok ==> Valid() && |rest'| < |rest| && Run(old(View()), rest) == Run(View(), rest')
      ensures !ok ==> Run(old(View()), rest).None? && !ackSeen
    {
      hide Run, Step;
      ghost var a := View();
      var copied := Min(HEADER_LEN - headerLen, |rest|);
      HeaderChunk(a, rest[..copied]);
      RunPrefix(a, rest, copied);
      forall i | 0 <= i < copied {
        header[headerLen + i] := rest[i];
      }
      headerLen, rest', ok := headerLen + copied, rest[copied..], true;
      assert header[..headerLen] == a.header + rest[..copied];
      assert View() == a.(header := a.header + rest[..copied]);
      if headerLen < HEADER_LEN { return; }
      var length := U24(header[0], header[1], header[2]);
      var stream := Low31(U32(header[5], header[6], header[7], header[8]));
      if header[3] == SETTINGS && header[4] % 2 == 1 {
        if length != 0 || stream != 0 { return rest', false; }
        ackSeen := true;
        return;
      }
      payloadRemaining, headerLen := length, 0;
    }
  }

  // ----- against the whole-stream reading -----

  ghost predicate Agrees(r: Option<Ack>, v: AckVerdict) {
    match v
    case AckViolation => r.None?
    case AckWaiting => r.Some? && !r.value.seen
    case Acknowledged => r.Some? && r.value.seen
  }

  lemma {:induction false} FramesAgree(a: Ack, frames: seq<byte>)
    requires a.Valid() && a == Ack(|PREFACE|, [], 0, false)
    ensures Agrees(Run(a, frames), FirstAck(frames))
    decreases |frames|
  {
    hide DecodeHeader;
    if frames == [] {
    } else if |frames| < HEADER_LEN {
      HeaderChunk(a, frames);
    } else {
      var top, rest := frames[..HEADER_LEN], frames[HEADER_LEN..];
      RunPrefix(a, frames, HEADER_LEN);
      HeaderChunk(a, top);
      HeaderOf(frames);
      assert [] + top == top;
      var h := DecodeHeader(frames);
      var n := Run(a, top);
      if h.kind == SETTINGS && h.ack {
        if n.Some? { SeenStays(n.value, rest); }
      } else {
        var skipped := Min(h.length, |rest|);
        RunPrefix(n.value, rest, skipped);
        SkipChunk(n.value, rest[..skipped]);
        if skipped == h.length {
          assert rest[skipped..] == frames[HEADER_LEN + h.length..];
          FramesAgree(a, rest[skipped..]);
        } else {
          assert rest[skipped..] == [];
        }
      }
    }
  }

  /** Main result: on every stream the reader refuses, waits or has seen the
      acknowledgement exactly as the whole stream says. */
  lemma RunJudges(stream: seq<byte>)
    ensures Agrees(Run(FRESH, stream), JudgeClient(stream))
  {
    var n := Min(|PREFACE|, |stream|);
    PrefaceChunk(FRESH, stream[..n]);
    RunPrefix(FRESH, stream, n);
    if stream[..n] == PREFACE[..n] && |stream| >= |PREFACE| {
      FramesAgree(FRESH.(prefaceLen := n), stream[n..]);
    } else if stream[..n] == PREFACE[..n] {
      assert stream[n..] == [];
    }
  }
}

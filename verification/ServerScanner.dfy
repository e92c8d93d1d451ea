/** The incremental reader of the server's byte stream. The class works on
    arbitrary fragments with fixed buffers; `Run` is the same reader one byte
    at a time, and `RunJudges` ties it to the whole-stream reading `Judge`. */
module ServerScanner {
  import opened Bytes
  import opened H2Frames

  datatype Kind = Skip | InitialSettings | LaterSettings

  /** The scanner's fields, with each buffer cut to the bytes it holds. */
  datatype Scan = Scan(
    header: seq<byte>,
    remaining: nat,
    payload: Kind,
    pair: seq<byte>,
    frameEc: Option<bool>,
    building: Initial,
    settings: Option<Initial>)
  {
    predicate Valid() {
      && |header| < HEADER_LEN
      && |pair| <= PAIR_LEN
      && (settings.Some? ==> payload != InitialSettings)
      && (|pair| == PAIR_LEN && remaining > 0 ==> payload == InitialSettings && IllegalPair(pair))
    }
  }

  predicate IllegalPair(pair: seq<byte>)
    requires |pair| == PAIR_LEN
  {
    !LegalInitially(DecodeSetting(pair))
  }

  const DEFAULT_INITIAL := Initial(false, None)

  const FRESH := Scan([], 0, Skip, [], None, DEFAULT_INITIAL, None)

  /** A feed in progress: the scanner, what was observed, whether it failed. */
  datatype Reading = Reading(scan: Scan, initial: Option<Initial>, revoke: bool, failed: bool)

  function Start(s: Scan): Reading { Reading(s, None, false, false) }

  function Begin(s: Scan): (Scan, bool)
    requires |s.header| == HEADER_LEN
  {
    var h := DecodeHeader(s.header);
    var t := s.(header := [], remaining := h.length, pair := [], frameEc := None);
    if s.settings.None? then
      if OpensConnection(h) then (t.(building := DEFAULT_INITIAL, payload := InitialSettings), true)
      else (t, false)
    else (t.(payload := if IsLaterSettings(h) then LaterSettings else Skip), true)
  }

  function Consume(s: Scan): (Scan, bool)
    requires |s.pair| == PAIR_LEN
  {
    var st := DecodeSetting(s.pair);
    match s.payload
    case InitialSettings =>
      if IllegalPair(s.pair) then (s, false)
      else if st.id == MAX_CONCURRENT_STREAMS then (s.(building := s.building.(maxStreams := Some(st.value))), true)
      else if st.id == ENABLE_CONNECT_PROTOCOL then (s.(building := s.building.(extendedConnect := st.value == 1)), true)
      else (s, true)
    case LaterSettings =>
      if st.id == ENABLE_CONNECT_PROTOCOL && st.value <= 1 then (s.(frameEc := Some(st.value == 1)), true) else (s, true)
    case Skip => (s, true)
  }

  function Finish(f: Reading): Reading {
    var s := f.scan;
    var t := s.(payload := Skip, pair := [], frameEc := None);
    match s.payload
    case InitialSettings => f.(scan := t.(settings := Some(s.building)), initial := Some(s.building))
    case LaterSettings => f.(scan := t, revoke := f.revoke || s.frameEc == Some(false))
    case Skip => f.(scan := t)
  }

  function FinishIfDone(f: Reading): Reading {
    if f.scan.remaining == 0 then Finish(f) else f
  }

  /** After header bytes were copied in. */
  function AfterHeader(f: Reading): (r: Reading)
    requires |f.scan.header| <= HEADER_LEN
    ensures f.scan.(header := []).Valid() ==> r.scan.Valid()
    ensures f.scan.settings.Some? && f.scan.payload != InitialSettings && !f.failed ==>
              !r.failed && r.scan.settings == f.scan.settings && r.initial == f.initial
  {
    if |f.scan.header| < HEADER_LEN then f else
    var (s, ok) := Begin(f.scan);
    if ok then FinishIfDone(f.(scan := s)) else f.(scan := s, failed := true)
  }

  /** After pair bytes were copied in. */
  function AfterPair(f: Reading): (r: Reading)
    requires |f.scan.pair| <= PAIR_LEN
    ensures f.scan.(pair := []).Valid() && f.scan.payload != Skip ==> r.scan.Valid()
    ensures f.scan.settings.Some? && f.scan.payload != InitialSettings && !f.failed ==>
              !r.failed && r.scan.settings == f.scan.settings && r.initial == f.initial
  {
    if |f.scan.pair| < PAIR_LEN then FinishIfDone(f) else
    var (s, ok) := Consume(f.scan);
    if ok then FinishIfDone(f.(scan := s.(pair := []))) else f.(scan := s, failed := true)
  }

  function Step(f: Reading, b: byte): (r: Reading)
    requires f.scan.Valid() && !f.failed
    ensures r.scan.Valid()
    ensures f.scan.settings.Some? ==> !r.failed && r.scan.settings == f.scan.settings && r.initial == f.initial
  {
    var s := f.scan;
    if s.remaining == 0 then AfterHeader(f.(scan := s.(header := s.header + [b])))
    else if s.payload == Skip then FinishIfDone(f.(scan := s.(remaining := s.remaining - 1)))
    else if |s.pair| == PAIR_LEN then AfterPair(f)
    else AfterPair(f.(scan := s.(pair := s.pair + [b], remaining := s.remaining - 1)))
  }

  /** The reader one byte at a time, stopping at the first error. Once the
      initial SETTINGS frame has been accepted no byte can make it fail. */
  function Run(f: Reading, bytes: seq<byte>): (r: Reading)
    requires f.scan.Valid()
    ensures r.scan.Valid()
    ensures f.scan.settings.Some? && !f.failed ==> !r.failed && r.scan.settings == f.scan.settings && r.initial == f.initial
    decreases |bytes|
  {
    if bytes == [] || f.failed then f else Run(Step(f, bytes[0]), bytes[1..])
  }

  lemma {:induction false} RunSplit(f: Reading, a: seq<byte>, b: seq<byte>)
    requires f.scan.Valid()
    ensures Run(f, a + b) == Run(Run(f, a), b)
    decreases |a|
  {
    hide Step;
    if a == [] {
      assert a + b == b;
    } else if !f.failed {
      RunSplit(Step(f, a[0]), a[1..], b);
      assert (a + b)[1..] == a[1..] + b;
    }
  }

  lemma RunStops(f: Reading, bytes: seq<byte>)
    requires f.scan.Valid() && (f.failed || bytes == [])
    ensures Run(f, bytes) == f
  {
  }

  lemma {:induction false} RunPrefix(f: Reading, bytes: seq<byte>, n: nat)
    requires f.scan.Valid() && n <= |bytes|
    ensures Run(f, bytes) == Run(Run(f, bytes[..n]), bytes[n..])
  {
    RunSplit(f, bytes[..n], bytes[n..]);
    assert bytes == bytes[..n] + bytes[n..];
  }

  lemma {:induction false} HeaderChunk(f: Reading, a: seq<byte>)
    requires f.scan.Valid() && !f.failed && f.scan.remaining == 0
    requires 0 < |a| <= HEADER_LEN - |f.scan.header|
    ensures Run(f, a) == AfterHeader(f.(scan := f.scan.(header := f.scan.header + a)))
    decreases |a|
  {
    hide Begin, FinishIfDone, IllegalPair, AfterPair;
    if |a| > 1 {
      HeaderChunk(Step(f, a[0]), a[1..]);
      assert f.scan.header + [a[0]] + a[1..] == f.scan.header + a;
    } else {
      assert a == [a[0]];
      assert Run(f, a) == Run(Step(f, a[0]), []);
    }
  }

  lemma {:induction false} SkipChunk(f: Reading, a: seq<byte>)
    requires f.scan.Valid() && !f.failed && f.scan.payload == Skip
    requires 0 < |a| <= f.scan.remaining
    ensures Run(f, a) == FinishIfDone(f.(scan := f.scan.(remaining := f.scan.remaining - |a|)))
    decreases |a|
  {
    hide AfterHeader, AfterPair, IllegalPair;
    if |a| > 1 {
      SkipChunk(Step(f, a[0]), a[1..]);
    } else {
      assert Run(f, a) == Run(Step(f, a[0]), []);
    }
  }

  lemma {:induction false} PairChunk(f: Reading, a: seq<byte>)
    requires f.scan.Valid() && !f.failed && f.scan.payload != Skip
    requires 0 < |a| <= Min(PAIR_LEN - |f.scan.pair|, f.scan.remaining)
    ensures Run(f, a) == AfterPair(f.(scan := f.scan.(pair := f.scan.pair + a, remaining := f.scan.remaining - |a|)))
    decreases |a|
  {
    hide IllegalPair, Consume, Begin, Finish;
    if |a| > 1 {
      PairChunk(Step(f, a[0]), a[1..]);
      assert f.scan.pair + [a[0]] + a[1..] == f.scan.pair + a;
    } else {
      assert a == [a[0]];
      assert Run(f, a) == Run(Step(f, a[0]), []);
    }
  }

  /** A pair the reader has already refused is refused again. */
  lemma PairStuck(f: Reading, a: seq<byte>)
    requires f.scan.Valid() && !f.failed && a != [] && f.scan.remaining > 0 && |f.scan.pair| == PAIR_LEN
    ensures Run(f, a) == AfterPair(f) && AfterPair(f).failed
  {
    hide LegalInitially, DecodeSetting;
  }

  class ServerFrameScanner {
    const header: array<byte>
    var headerLen: nat
    var payloadRemaining: nat
    var payload: Kind
    const pair: array<byte>
    var pairLen: nat
    var frameExtendedConnect: Option<bool>
    var buildingInitial: Initial
    var settings: Option<Initial>

    ghost predicate Valid()
      reads this, header, pair
    {
      && header.Length == HEADER_LEN && pair.Length == PAIR_LEN && header != pair
      && headerLen < HEADER_LEN && pairLen <= PAIR_LEN
      && View().Valid()
    }

    ghost function View(): Scan
      reads this, header, pair
      requires headerLen <= header.Length && pairLen <= pair.Length
    {
      Scan(header[..headerLen], payloadRemaining, payload, pair[..pairLen], frameExtendedConnect, buildingInitial, settings)
    }

    constructor ()
      ensures Valid() && fresh(header) && fresh(pair) && View() == FRESH
    {
      header := new byte[HEADER_LEN](_ => 0);
      pair := new byte[PAIR_LEN](_ => 0);
      headerLen, payloadRemaining, payload, pairLen := 0, 0, Skip, 0;
      frameExtendedConnect, buildingInitial, settings := None, DEFAULT_INITIAL, None;
    }

    /** Reads one fragment. The result and the new state are those of the
        byte-at-a-time reader, whatever the fragment boundaries were. */
    method Feed(bytes: seq<byte>) returns (r: Result<(Option<Initial>, bool)>)
      requires Valid()
      modifies this, header, pair
      ensures Valid()
      ensures var f := Run(Start(old(View())), bytes);
              View() == f.scan && r == if f.failed then Err else Ok((f.initial, f.revoke))
    {
      var rest, initial, revoke, ok := bytes, None, false, true;
      ghost var goal := Run(Start(View()), bytes);
      while rest != [] && ok
        invariant Valid()
        invariant goal == Run(Reading(View(), initial, revoke, !ok), rest)
        decreases |rest|, ok
      {
        if payloadRemaining == 0 {
          rest, initial, revoke, ok := TakeHeader(rest, initial, revoke);
        } else if payload == Skip {
          rest, initial, revoke := TakeSkipped(rest, initial, revoke);
        } else {
          rest, initial, revoke, ok := TakePair(rest, initial, revoke);
        }
      }
      r := if ok then Ok((initial, revoke)) else Err;
    }

    method TakeHeader(rest: seq<byte>, initial: Option<Initial>, revoke: bool)
      returns (rest': seq<byte>, initial': Option<Initial>, revoke': bool, ok: bool)
      requires Valid() && payloadRemaining == 0 && rest != []
      modifies this, header
      ensures Valid() && |rest'| < |rest|
      ensures Run(Reading(old(View()), initial, revoke, false), rest) == Run(Reading(View(), initial', revoke', !ok), rest')
    {
      initial', revoke', ok := initial, revoke, true;
      rest' := FillHeader(rest, Reading(View(), initial, revoke, false));
      ghost var f := Reading(View(), initial, revoke, false);
      if headerLen == HEADER_LEN {
        ok := BeginFrame();
        if ok && payloadRemaining == 0 {
          initial', revoke' := FinishFrame(initial, revoke);
        }
      }
      assert AfterHeader(f) == Reading(View(), initial', revoke', !ok);
    }

    method TakeSkipped(rest: seq<byte>, initial: Option<Initial>, revoke: bool)
      returns (rest': seq<byte>, initial': Option<Initial>, revoke': bool)
      requires Valid() && payloadRemaining > 0 && payload == Skip && rest != []
      modifies this
      ensures Valid() && |rest'| < |rest|
      ensures Run(Reading(old(View()), initial, revoke, false), rest) == Run(Reading(View(), initial', revoke', false), rest')
    {
      initial', revoke' := initial, revoke;
      ghost var f := Reading(View(), initial, revoke, false);
      var skipped := Min(payloadRemaining, |rest|);
      SkipChunk(f, rest[..skipped]);
      RunPrefix(f, rest, skipped);
      payloadRemaining, rest' := payloadRemaining - skipped, rest[skipped..];
      if payloadRemaining == 0 {
        initial', revoke' := FinishFrame(initial, revoke);
      }
    }

    method TakePair(rest: seq<byte>, initial: Option<Initial>, revoke: bool)
      returns (rest': seq<byte>, initial': Option<Initial>, revoke': bool, ok: bool)
      requires Valid() && payloadRemaining > 0 && payload != Skip && rest != []
      modifies this, pair
      ensures Valid() && (|rest'| < |rest| || (rest' == rest && !ok))
      ensures Run(Reading(old(View()), initial, revoke, false), rest) == Run(Reading(View(), initial', revoke', !ok), rest')
    {
      initial', revoke', ok := initial, revoke, true;
      rest' := FillPair(rest, Reading(View(), initial, revoke, false));
      ghost var f := Reading(View(), initial, revoke, false);
      if pairLen == PAIR_LEN {
        ok := ConsumePair();
        if ok { pairLen := 0; }
      }
      if ok && payloadRemaining == 0 {
        initial', revoke' := FinishFrame(initial, revoke);
      }
      assert AfterPair(f) == Reading(View(), initial', revoke', !ok);
    }

    /** Copies what still fits into the header buffer. */
    method FillHeader(rest: seq<byte>, ghost f: Reading) returns (rest': seq<byte>)
      requires Valid() && payloadRemaining == 0 && rest != [] && f.scan == View() && !f.failed
      modifies this`headerLen, header
      ensures headerLen <= HEADER_LEN && |rest'| < |rest| && (headerLen < HEADER_LEN ==> rest' == [])
      ensures View() == old(View()).(header := header[..headerLen])
      ensures Run(f, rest) == Run(AfterHeader(f.(scan := View())), rest')
    {
      hide Run, Step;
      var copied := Min(HEADER_LEN - headerLen, |rest|);
      HeaderChunk(f, rest[..copied]);
      RunPrefix(f, rest, copied);
      ghost var was := header[..headerLen];
      CopyInto(header, headerLen, rest[..copied]);
      headerLen := headerLen + copied;
      assert header[..headerLen] == was + rest[..copied];
      rest' := rest[copied..];
    }

    /** Copies what still fits into the pair buffer and the frame. */
    method FillPair(rest: seq<byte>, ghost f: Reading) returns (rest': seq<byte>)
      requires Valid() && payloadRemaining > 0 && payload != Skip && rest != [] && f.scan == View() && !f.failed
      modifies this`pairLen, this`payloadRemaining, pair
      ensures pairLen <= PAIR_LEN && (|rest'| < |rest| || (rest' == rest && View() == old(View()) && pairLen == PAIR_LEN))
      ensures View() == old(View()).(pair := pair[..pairLen], remaining := payloadRemaining)
      ensures Run(f, rest) == Run(AfterPair(f.(scan := View())), rest')
    {
      hide IllegalPair, Consume, Begin, Finish, Run, Step;
      if pairLen == PAIR_LEN {
        PairStuck(f, rest);
        RunStops(AfterPair(f), rest);
        return rest;
      }
      var copied := Min(Min(PAIR_LEN - pairLen, payloadRemaining), |rest|);
      PairChunk(f, rest[..copied]);
      RunPrefix(f, rest, copied);
      ghost var was := pair[..pairLen];
      CopyInto(pair, pairLen, rest[..copied]);
      pairLen := pairLen + copied;
      assert pair[..pairLen] == was + rest[..copied];
      payloadRemaining := payloadRemaining - copied;
      rest' := rest[copied..];
    }

    method BeginFrame() returns (ok: bool)
      requires header.Length == HEADER_LEN && pair.Length == PAIR_LEN && headerLen == HEADER_LEN && pairLen <= PAIR_LEN
      modifies this
      ensures headerLen == pairLen == 0 && (View(), ok) == Begin(old(View()))
    {
      var length := U24(header[0], header[1], header[2]);
      var stream := Low31(U32(header[5], header[6], header[7], header[8]));
      var settingsFrame := header[3] == SETTINGS && header[4] % 2 == 0 && stream == 0;
      headerLen, payloadRemaining, pairLen, frameExtendedConnect := 0, length, 0, None;
      if settings.None? {
        if !settingsFrame || length > INITIAL_SETTINGS_MAX || length % PAIR_LEN != 0 {
          return false;
        }
        buildingInitial, payload := DEFAULT_INITIAL, InitialSettings;
      } else if settingsFrame && length % PAIR_LEN == 0 {
        payload := LaterSettings;
      } else {
        payload := Skip;
      }
      ok := true;
    }

    method ConsumePair() returns (ok: bool)
      requires pair.Length == PAIR_LEN && headerLen <= header.Length && pairLen == PAIR_LEN
      modifies this`buildingInitial, this`frameExtendedConnect
      ensures (View(), ok) == Consume(old(View()))
    {
      var id := U16(pair[0], pair[1]);
      var value := U32(pair[2], pair[3], pair[4], pair[5]);
      match payload {
        case InitialSettings =>
          if id == 0x2 || (id == 0x4 && value > 0x7fff_ffff) || (id == 0x5 && !(16384 <= value <= 16777215)) || (id == 0x8 && value > 1) {
            return false;
          }
          if id == 0x3 {
            buildingInitial := buildingInitial.(maxStreams := Some(value));
          } else if id == 0x8 {
            buildingInitial := buildingInitial.(extendedConnect := value == 1);
          }
        case LaterSettings =>
          if id == 0x8 && value <= 1 { frameExtendedConnect := Some(value == 1); }
        case Skip =>
      }
      ok := true;
    }

    method FinishFrame(initial: Option<Initial>, revoke: bool) returns (initial': Option<Initial>, revoke': bool)
      requires headerLen <= header.Length && pairLen <= pair.Length
      modifies this`payload, this`pairLen, this`frameExtendedConnect, this`settings
      ensures pairLen == 0
      ensures Reading(View(), initial', revoke', false) == Finish(Reading(old(View()), initial, revoke, false))
    {
      initial', revoke' := initial, revoke;
      match payload {
        case InitialSettings => settings, initial' := Some(buildingInitial), Some(buildingInitial);
        case LaterSettings => if frameExtendedConnect == Some(false) { revoke' := true; }
        case Skip =>
      }
      payload, pairLen, frameExtendedConnect := Skip, 0, None;
    }
  }

  // ----- the byte-at-a-time reader against the whole-stream reading -----

  lemma {:induction false} LastValueCons(s: Setting, rest: seq<Setting>, id: nat, max: nat)
    ensures LastValue([s] + rest, id, max) ==
            if LastValue(rest, id, max).Some? then LastValue(rest, id, max)
            else if s.id == id && s.value <= max then Some(s.value) else None
    decreases |rest|
  {
    var all := [s] + rest;
    if rest == [] {
      assert all[..|all| - 1] == [];
    } else {
      assert all[..|all| - 1] == [s] + rest[..|rest| - 1];
      LastValueCons(s, rest[..|rest| - 1], id, max);
    }
  }

  predicate AtBoundary(s: Scan) {
    s.header == [] && s.remaining == 0 && s.payload == Skip && s.pair == [] && s.frameEc == None
  }

  /** What a run of settings leaves in the accumulators. */
  function EcOver(settings: seq<Setting>, ec: Option<bool>): Option<bool> {
    match LastValue(settings, ENABLE_CONNECT_PROTOCOL, 1) case None => ec case Some(v) => Some(v == 1)
  }

  function InitialOver(settings: seq<Setting>, b: Initial): Initial {
    Initial(match LastValue(settings, ENABLE_CONNECT_PROTOCOL, 1) case None => b.extendedConnect case Some(v) => v == 1,
            match LastValue(settings, MAX_CONCURRENT_STREAMS, 0xffff_ffff) case None => b.maxStreams case Some(v) => Some(v))
  }

  ghost predicate AllLegal(settings: seq<Setting>) {
    forall s :: s in settings ==> LegalInitially(s)
  }

  predicate InPairs(g: Reading) {
    && g.scan.Valid() && !g.failed && g.scan.payload != Skip && g.scan.pair == [] && g.scan.header == []
    && g.scan.remaining > 0 && g.scan.remaining % PAIR_LEN == 0
  }

  /** The reading after a completed settings frame with these settings. */
  function Completed(g: Reading, settings: seq<Setting>): Reading {
    var s := g.scan.(remaining := 0, payload := Skip, frameEc := None);
    if g.scan.payload == InitialSettings then
      var b := InitialOver(settings, g.scan.building);
      g.(scan := s.(building := b, settings := Some(b)), initial := Some(b))
    else g.(scan := s, revoke := g.revoke || EcOver(settings, g.scan.frameEc) == Some(false))
  }

  lemma OnePair(g: Reading, p: seq<byte>)
    requires InPairs(g) && |p| == PAIR_LEN
    ensures var r := Run(g, p); var st := DecodeSetting(p);
            && (r.failed <==> g.scan.payload == InitialSettings && !LegalInitially(st))
            && (!r.failed ==>
                if g.scan.remaining == PAIR_LEN then r == Completed(g, [st])
                else r == g.(scan := g.scan.(remaining := g.scan.remaining - PAIR_LEN,
                               building := if g.scan.payload == InitialSettings then InitialOver([st], g.scan.building) else g.scan.building,
                               frameEc := if g.scan.payload == LaterSettings then EcOver([st], g.scan.frameEc) else g.scan.frameEc)))
  {
    PairChunk(g, p);
    assert [] + p == p;
    var st := DecodeSetting(p);
    assert [st] == [st] + [];
    LastValueCons(st, [], ENABLE_CONNECT_PROTOCOL, 1);
    LastValueCons(st, [], MAX_CONCURRENT_STREAMS, 0xffff_ffff);
  }

  lemma OverCons(st: Setting, sts: seq<Setting>, ec: Option<bool>, b: Initial)
    ensures EcOver([st] + sts, ec) == EcOver(sts, EcOver([st], ec))
    ensures InitialOver([st] + sts, b) == InitialOver(sts, InitialOver([st], b))
    ensures AllLegal([st] + sts) <==> LegalInitially(st) && AllLegal(sts)
  {
    hide LegalInitially, LastValue;
    assert [st] + [] == [st];
    LastValueCons(st, sts, ENABLE_CONNECT_PROTOCOL, 1);
    LastValueCons(st, sts, MAX_CONCURRENT_STREAMS, 0xffff_ffff);
    LastValueCons(st, [], ENABLE_CONNECT_PROTOCOL, 1);
    LastValueCons(st, [], MAX_CONCURRENT_STREAMS, 0xffff_ffff);
    NoLast();
    assert st in [st] + sts && forall s :: s in sts ==> s in [st] + sts;
  }

  lemma NoLast()
    ensures LastValue([], ENABLE_CONNECT_PROTOCOL, 1) == None && LastValue([], MAX_CONCURRENT_STREAMS, 0xffff_ffff) == None
  {
  }

  lemma SettingsCons(body: seq<byte>)
    requires |body| >= PAIR_LEN
    ensures Settings(body) == [DecodeSetting(body[..PAIR_LEN])] + Settings(body[PAIR_LEN..])
  {
    assert DecodeSetting(body[..PAIR_LEN]) == DecodeSetting(body);
  }

  lemma {:induction false} SettingsBody(g: Reading, body: seq<byte>)
    requires InPairs(g) && |body| <= g.scan.remaining
    ensures var r := Run(g, body);
            && (r.failed <==> g.scan.payload == InitialSettings && !AllLegal(Settings(body)))
            && (!r.failed && |body| < g.scan.remaining ==>
                  r.scan.settings == g.scan.settings && r.initial == g.initial && r.revoke == g.revoke)
            && (!r.failed && |body| == g.scan.remaining ==> r == Completed(g, Settings(body)))
    decreases |body|
  {
    if body == [] {
    } else if |body| < PAIR_LEN {
      PairChunk(g, body);
    } else {
      SettingsBodyMore(g, body);
    }
  }

  lemma {:induction false} SettingsBodyMore(g: Reading, body: seq<byte>)
    requires InPairs(g) && PAIR_LEN <= |body| <= g.scan.remaining
    ensures var r := Run(g, body);
            && (r.failed <==> g.scan.payload == InitialSettings && !AllLegal(Settings(body)))
            && (!r.failed && |body| < g.scan.remaining ==>
                  r.scan.settings == g.scan.settings && r.initial == g.initial && r.revoke == g.revoke)
            && (!r.failed && |body| == g.scan.remaining ==> r == Completed(g, Settings(body)))
    decreases |body|, 0
  {
    hide LegalInitially, LastValue, DecodeSetting, EcOver, InitialOver, AllLegal, Settings;
    var p, rest := body[..PAIR_LEN], body[PAIR_LEN..];
    var st := DecodeSetting(p);
    OnePair(g, p);
    RunPrefix(g, body, PAIR_LEN);
    SettingsCons(body);
    OverCons(st, Settings(rest), g.scan.frameEc, g.scan.building);
    var g' := Run(g, p);
    if g'.failed {
    } else if g.scan.remaining > PAIR_LEN {
      SettingsBody(g', rest);
    } else {
      assert rest == [];
      NoSettings(st);
    }
  }

  lemma NoSettings(st: Setting)
    ensures Settings([]) == [] && [st] + [] == [st] && AllLegal([])
  {
  }

  lemma AnyWithdrawsCons(stream: seq<byte>)
    requires |stream| >= HEADER_LEN
    ensures var h := DecodeHeader(stream); var end := HEADER_LEN + h.length;
            AnyWithdraws(stream) ==
            (|stream| >= end && (Withdraws(Frame(h, stream[HEADER_LEN..end])) || AnyWithdraws(stream[end..])))
  {
    var h := DecodeHeader(stream);
    var end := HEADER_LEN + h.length;
    if |stream| >= end {
      var f, fs := Frame(h, stream[HEADER_LEN..end]), Frames(stream[end..]);
      assert Frames(stream) == [f] + fs;
      assert f in Frames(stream) && forall g :: g in fs ==> g in Frames(stream);
      assert forall g :: g in Frames(stream) ==> g == f || g in fs;
    }
  }

  /** One frame after the initial SETTINGS, complete or cut short. */
  lemma LaterFrame(f: Reading, stream: seq<byte>)
    requires f.scan.Valid() && !f.failed && AtBoundary(f.scan) && f.scan.settings.Some?
    requires |stream| >= HEADER_LEN
    ensures var h := DecodeHeader(stream); var end := Min(HEADER_LEN + h.length, |stream|);
            var r := Run(f, stream[..end]);
            && (|stream| < HEADER_LEN + h.length ==> r.revoke == f.revoke)
            && (|stream| >= HEADER_LEN + h.length ==>
                  AtBoundary(r.scan) && r.revoke == (f.revoke || Withdraws(Frame(h, stream[HEADER_LEN..end]))))
  {
    hide DecodeHeader, LegalInitially, IllegalPair, LastValue, OpensConnection;
    var h := DecodeHeader(stream);
    var end := Min(HEADER_LEN + h.length, |stream|);
    var top, body := stream[..HEADER_LEN], stream[HEADER_LEN..end];
    assert stream[..end][..HEADER_LEN] == top && stream[..end][HEADER_LEN..] == body;
    RunPrefix(f, stream[..end], HEADER_LEN);
    HeaderChunk(f, top);
    HeaderOf(stream);
    assert [] + top == top;
    LaterPayload(Run(f, top), Frame(h, body), |stream| >= HEADER_LEN + h.length);
  }

  /** The payload of such a frame, `whole` or cut short. */
  lemma LaterPayload(g: Reading, fr: Frame, whole: bool)
    requires g.scan.Valid() && !g.failed && g.scan.settings.Some?
    requires g.scan.header == [] && g.scan.pair == [] && g.scan.frameEc == None && g.scan.remaining == fr.header.length
    requires fr.header.length > 0 ==> g.scan.payload == if IsLaterSettings(fr.header) then LaterSettings else Skip
    requires fr.header.length == 0 ==> g.scan.payload == Skip
    requires if whole then |fr.payload| == fr.header.length else |fr.payload| < fr.header.length
    ensures var r := Run(g, fr.payload);
            if whole then AtBoundary(r.scan) && r.revoke == (g.revoke || Withdraws(fr)) else r.revoke == g.revoke
  {
    if fr.payload == [] {
      assert Run(g, []) == g;
      NoLast();
    } else if IsLaterSettings(fr.header) {
      LaterSettingsPayload(g, fr, whole);
    } else {
      hide Run, Step;
      SkipChunk(g, fr.payload);
    }
  }

  lemma LaterSettingsPayload(g: Reading, fr: Frame, whole: bool)
    requires g.scan.Valid() && !g.failed && g.scan.settings.Some? && IsLaterSettings(fr.header) && fr.header.length > 0
    requires g.scan.header == [] && g.scan.pair == [] && g.scan.frameEc == None && g.scan.remaining == fr.header.length
    requires g.scan.payload == LaterSettings
    requires if whole then |fr.payload| == fr.header.length else |fr.payload| < fr.header.length
    ensures var r := Run(g, fr.payload);
            if whole then AtBoundary(r.scan) && r.revoke == (g.revoke || Withdraws(fr)) else r.revoke == g.revoke
  {
    hide LegalInitially, IllegalPair, LastValue, Run, Step;
    SettingsBody(g, fr.payload);
  }

  lemma {:induction false} LaterStream(f: Reading, stream: seq<byte>)
    requires f.scan.Valid() && !f.failed && AtBoundary(f.scan) && f.scan.settings.Some?
    ensures Run(f, stream).revoke == (f.revoke || AnyWithdraws(stream))
    decreases |stream|
  {
    if stream == [] {
    } else if |stream| < HEADER_LEN {
      HeaderChunk(f, stream);
    } else {
      var h := DecodeHeader(stream);
      var end := Min(HEADER_LEN + h.length, |stream|);
      LaterFrame(f, stream);
      AnyWithdrawsCons(stream);
      RunPrefix(f, stream, end);
      if |stream| >= HEADER_LEN + h.length {
        LaterStream(Run(f, stream[..end]), stream[end..]);
      }
    }
  }

  /** Main result: on every stream the scanner fails exactly when the stream
      violates the opening rules, and otherwise has observed exactly the
      initial settings and the withdrawals the stream contains. */
  lemma RunJudges(stream: seq<byte>)
    ensures var r := Run(Start(FRESH), stream);
            match Judge(stream)
            case Violation => r.failed
            case Open(initial, withdrawn) =>
              !r.failed && r.initial == initial && r.scan.settings == initial && r.revoke == withdrawn
  {
    var f := Start(FRESH);
    if 0 < |stream| < HEADER_LEN {
      HeaderChunk(f, stream);
    } else if |stream| >= HEADER_LEN {
      var h := DecodeHeader(stream);
      var end := Min(HEADER_LEN + h.length, |stream|);
      var top, body := stream[..HEADER_LEN], stream[HEADER_LEN..end];
      RunPrefix(f, stream, HEADER_LEN);
      HeaderChunk(f, top);
      assert [] + top == top && DecodeHeader(top) == h;
      if OpensConnection(h) {
        OpeningBody(Run(f, top), stream, h);
      }
    }
  }

  /** The reader once the header of the opening frame is in. */
  lemma Opened(top: seq<byte>, h: Header)
    requires |top| == HEADER_LEN && DecodeHeader(top) == h && OpensConnection(h)
    ensures AfterHeader(Start(FRESH.(header := top))) ==
      if h.length == 0 then Reading(FRESH.(settings := Some(DEFAULT_INITIAL)), Some(DEFAULT_INITIAL), false, false)
      else Start(FRESH.(remaining := h.length, payload := InitialSettings))
  {
    hide DecodeHeader, OpensConnection;
  }

  lemma OpeningBody(g: Reading, stream: seq<byte>, h: Header)
    requires |stream| >= HEADER_LEN && h == DecodeHeader(stream) && OpensConnection(h)
    requires g == AfterHeader(Start(FRESH.(header := stream[..HEADER_LEN]))) && g.scan.Valid()
    ensures var r := Run(g, stream[HEADER_LEN..]);
            match Judge(stream)
            case Violation => r.failed
            case Open(initial, withdrawn) =>
              !r.failed && r.initial == initial && r.scan.settings == initial && r.revoke == withdrawn
  {
    hide DecodeHeader, LegalInitially, IllegalPair, LastValue, Settings, Run, Step, AfterHeader;
    HeaderOf(stream);
    Opened(stream[..HEADER_LEN], h);
    RunStops(g, []);
    var end := Min(HEADER_LEN + h.length, |stream|);
    var body := stream[HEADER_LEN..end];
    RunPrefix(g, stream[HEADER_LEN..], |body|);
    assert stream[HEADER_LEN..][..|body|] == body && stream[HEADER_LEN..][|body|..] == stream[end..];
    NoLast();
    NoSettings(Setting(0, 0));
    if h.length > 0 {
      SettingsBody(g, body);
    }
    var r := Run(g, body);
    if !r.failed && |stream| >= HEADER_LEN + h.length {
      LaterStream(r, stream[end..]);
    } else {
      RunStops(r, stream[end..]);
    }
  }

  /** Feeding fragments one after the other, stopping at the first error and
      merging the observations. */
  function FeedAll(f: Reading, chunks: seq<seq<byte>>): (r: Reading)
    requires f.scan.Valid()
    ensures r.scan.Valid()
    decreases |chunks|
  {
    if chunks == [] || f.failed then f else
    var c := Run(Start(f.scan), chunks[0]);
    FeedAll(Merge(f, c), chunks[1..])
  }

  /** A feed's own observation, merged with what was known before. */
  function Merge(f: Reading, c: Reading): Reading {
    Reading(c.scan, if c.initial.Some? then c.initial else f.initial, f.revoke || c.revoke, c.failed)
  }

  lemma FinishMerges(f: Reading)
    requires !f.failed
    ensures FinishIfDone(f) == Merge(f, FinishIfDone(Start(f.scan)))
  {
  }

  lemma HeaderMerges(f: Reading)
    requires !f.failed && |f.scan.header| <= HEADER_LEN
    ensures AfterHeader(f) == Merge(f, AfterHeader(Start(f.scan)))
  {
    hide Begin, FinishIfDone;
    if |f.scan.header| == HEADER_LEN { FinishMerges(f.(scan := Begin(f.scan).0)); }
  }

  lemma PairMerges(f: Reading)
    requires !f.failed && |f.scan.pair| <= PAIR_LEN
    ensures AfterPair(f) == Merge(f, AfterPair(Start(f.scan)))
  {
    hide Consume, FinishIfDone;
    if |f.scan.pair| == PAIR_LEN { FinishMerges(f.(scan := Consume(f.scan).0.(pair := []))); } else { FinishMerges(f); }
  }

  lemma StepMerges(f: Reading, b: byte)
    requires f.scan.Valid() && !f.failed
    ensures Step(f, b) == Merge(f, Step(Start(f.scan), b))
  {
    hide AfterHeader, AfterPair, FinishIfDone;
    var s := f.scan;
    if s.remaining == 0 { HeaderMerges(f.(scan := s.(header := s.header + [b]))); }
    else if s.payload == Skip { FinishMerges(f.(scan := s.(remaining := s.remaining - 1))); }
    else if |s.pair| == PAIR_LEN { PairMerges(f); }
    else { PairMerges(f.(scan := s.(pair := s.pair + [b], remaining := s.remaining - 1))); }
  }

  lemma {:induction false} RunMerges(f: Reading, bytes: seq<byte>)
    requires f.scan.Valid() && !f.failed
    ensures Run(f, bytes) == Merge(f, Run(Start(f.scan), bytes))
    decreases |bytes|
  {
    hide Step;
    if bytes != [] {
      var b, rest := bytes[0], bytes[1..];
      StepMerges(f, b);
      var f', c := Step(f, b), Step(Start(f.scan), b);
      if !c.failed {
        RunMerges(f', rest);
        RunMerges(c, rest);
      }
    }
  }

  /** Fragment boundaries never matter: state, error and merged observation
      are those of one feed of the concatenation. */
  lemma {:induction false} ChunksDoNotMatter(f: Reading, chunks: seq<seq<byte>>)
    requires f.scan.Valid()
    ensures FeedAll(f, chunks) == Run(f, Flatten(chunks))
    decreases |chunks|
  {
    if chunks != [] && !f.failed {
      RunMerges(f, chunks[0]);
      RunSplit(f, chunks[0], Flatten(chunks[1..]));
      ChunksDoNotMatter(Run(f, chunks[0]), chunks[1..]);
    }
  }
}

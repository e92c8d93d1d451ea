/** HTTP/2 framing as a reader of a whole stream sees it: the layout of
    section 4.1 of RFC 9113, SETTINGS of section 6.5, the client preface of
    section 3.4 and SETTINGS_ENABLE_CONNECT_PROTOCOL of section 3 of RFC 8441.
    Nothing here mentions fragments or parser state. */
module H2Frames {
  import opened Bytes

  const HEADER_LEN := 9
  const PAIR_LEN := 6
  const SETTINGS := 0x4
  const INITIAL_SETTINGS_MAX := 16384
  const ENABLE_CONNECT_PROTOCOL := 0x8
  const MAX_CONCURRENT_STREAMS := 0x3

  /** "PRI * HTTP/2.0\r\n\r\nSM\r\n\r\n" */
  const PREFACE: seq<byte> :=
    [0x50, 0x52, 0x49, 0x20, 0x2a, 0x20, 0x48, 0x54, 0x54, 0x50, 0x2f, 0x32,
     0x2e, 0x30, 0x0d, 0x0a, 0x0d, 0x0a, 0x53, 0x4d, 0x0d, 0x0a, 0x0d, 0x0a]

  datatype Header = Header(length: nat, kind: nat, ack: bool, stream: nat)

  datatype Frame = Frame(header: Header, payload: seq<byte>)

  datatype Setting = Setting(id: nat, value: nat)

  datatype Initial = Initial(extendedConnect: bool, maxStreams: Option<nat>)

  function DecodeHeader(h: seq<byte>): Header
    requires |h| >= HEADER_LEN
  {
    Header(U24(h[0], h[1], h[2]), h[3], h[4] % 2 == 1, Low31(U32(h[5], h[6], h[7], h[8])))
  }

  lemma HeaderOf(stream: seq<byte>)
    requires |stream| >= HEADER_LEN
    ensures DecodeHeader(stream[..HEADER_LEN]) == DecodeHeader(stream)
  {
  }

  /** The complete frames of a stream; an unfinished last frame is dropped. */
  function Frames(stream: seq<byte>): seq<Frame>
  {
    if |stream| < HEADER_LEN then [] else
    var h := DecodeHeader(stream);
    if |stream| < HEADER_LEN + h.length then [] else
    [Frame(h, stream[HEADER_LEN..HEADER_LEN + h.length])] + Frames(stream[HEADER_LEN + h.length..])
  }

  function DecodeSetting(p: seq<byte>): Setting
    requires |p| >= PAIR_LEN
  {
    Setting(U16(p[0], p[1]), U32(p[2], p[3], p[4], p[5]))
  }

  /** The settings a SETTINGS payload lists, in order. */
  function Settings(payload: seq<byte>): seq<Setting>
  {
    if |payload| < PAIR_LEN then [] else [DecodeSetting(payload)] + Settings(payload[PAIR_LEN..])
  }

  /** The value the last occurrence of `id` no larger than `max` carries. */
  function LastValue(settings: seq<Setting>, id: nat, max: nat): (r: Option<nat>)
    ensures r.Some? ==> r.value <= max
  {
    if settings == [] then None else
    var last := settings[|settings| - 1];
    if last.id == id && last.value <= max then Some(last.value)
    else LastValue(settings[..|settings| - 1], id, max)
  }

  predicate OpensConnection(h: Header) {
    h.kind == SETTINGS && !h.ack && h.stream == 0 && h.length <= INITIAL_SETTINGS_MAX && h.length % PAIR_LEN == 0
  }

  predicate LegalInitially(s: Setting) {
    && s.id != 0x2
    && (s.id == 0x4 ==> s.value <= 0x7fff_ffff)
    && (s.id == 0x5 ==> 16384 <= s.value <= 16777215)
    && (s.id == ENABLE_CONNECT_PROTOCOL ==> s.value <= 1)
  }

  function InitialFrom(settings: seq<Setting>): Initial {
    Initial(LastValue(settings, ENABLE_CONNECT_PROTOCOL, 1) == Some(1),
            LastValue(settings, MAX_CONCURRENT_STREAMS, 0xffff_ffff))
  }

  predicate IsLaterSettings(h: Header) {
    h.kind == SETTINGS && !h.ack && h.stream == 0 && h.length % PAIR_LEN == 0
  }

  /** A later SETTINGS frame withdraws extended CONNECT when the last valid
      value it gives is zero. */
  predicate Withdraws(f: Frame) {
    IsLaterSettings(f.header) && LastValue(Settings(f.payload), ENABLE_CONNECT_PROTOCOL, 1) == Some(0)
  }

  ghost predicate AnyWithdraws(stream: seq<byte>) {
    exists f :: f in Frames(stream) && Withdraws(f)
  }

  datatype Verdict = Violation | Open(initial: Option<Initial>, withdrawn: bool)

  /** What a server's byte stream, taken as a whole, says so far. */
  ghost function Judge(stream: seq<byte>): Verdict
  {
    if |stream| < HEADER_LEN then Open(None, false) else
    var h := DecodeHeader(stream);
    if !OpensConnection(h) then Violation else
    var body := stream[HEADER_LEN..Min(HEADER_LEN + h.length, |stream|)];
    if exists s :: s in Settings(body) && !LegalInitially(s) then Violation else
    if |stream| < HEADER_LEN + h.length then Open(None, false) else
    Open(Some(InitialFrom(Settings(body))), AnyWithdraws(stream[HEADER_LEN + h.length..]))
  }

  datatype AckVerdict = AckViolation | AckWaiting | Acknowledged

  /** What a client's byte stream says: the preface, then frames up to the
      first SETTINGS acknowledgement. */
  function JudgeClient(stream: seq<byte>): AckVerdict
  {
    var n := Min(|PREFACE|, |stream|);
    if stream[..n] != PREFACE[..n] then AckViolation
    else if |stream| < |PREFACE| then AckWaiting
    else FirstAck(stream[|PREFACE|..])
  }

  function FirstAck(frames: seq<byte>): AckVerdict
  {
    if |frames| < HEADER_LEN then AckWaiting else
    var h := DecodeHeader(frames);
    if h.kind == SETTINGS && h.ack then
      if h.length == 0 && h.stream == 0 then Acknowledged else AckViolation
    else if |frames| < HEADER_LEN + h.length then AckWaiting
    else FirstAck(frames[HEADER_LEN + h.length..])
  }
}

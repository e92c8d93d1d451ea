/** HTTP/2 frames written out, and what the whole-stream readings say about
    them. The encoder is what a peer does (sections 3.4, 4.1 and 6.5 of
    RFC 9113); the readings are proved to be its inverse. */
module H2Encoding {
  import opened Bytes
  import opened H2Frames

  // ----- frames as bytes -----

  predicate Encodable(h: Header) { h.length < 0x100_0000 && h.kind < 0x100 && h.stream < 0x8000_0000 }

  /** A frame header. The acknowledgement is the lowest flag; the other flags
      and the reserved bit may be anything. */
  function EncodeHeader(h: Header, flags: byte, reserved: bool): (r: seq<byte>)
    requires Encodable(h) && (flags % 2 == 1 <==> h.ack)
    ensures |r| == HEADER_LEN
  {
    var top := h.stream / 0x100_0000;
    [h.length / 0x1_0000, h.length / 0x100 % 0x100, h.length % 0x100, h.kind, flags,
     if reserved then top + 0x80 else top, h.stream / 0x1_0000 % 0x100, h.stream / 0x100 % 0x100, h.stream % 0x100]
  }

  lemma Parts24(n: nat)
    requires n < 0x100_0000
    ensures U24(n / 0x1_0000, n / 0x100 % 0x100, n % 0x100) == n
  {
  }

  lemma Parts32(n: nat)
    requires n < 0x1_0000_0000
    ensures U32(n / 0x100_0000, n / 0x1_0000 % 0x100, n / 0x100 % 0x100, n % 0x100) == n
  {
    var m := n / 0x100;
    assert n / 0x1_0000 == m / 0x100 && n / 0x100_0000 == m / 0x1_0000;
    Parts24(m);
  }

  lemma Reserved(n: nat, reserved: bool)
    requires n < 0x8000_0000
    ensures var top := n / 0x100_0000;
            Low31(U32(if reserved then top + 0x80 else top, n / 0x1_0000 % 0x100, n / 0x100 % 0x100, n % 0x100)) == n
  {
    Parts32(n);
  }

  /** Decoding a header gives back what was encoded, whatever follows. */
  lemma HeaderDecodes(h: Header, flags: byte, reserved: bool, rest: seq<byte>)
    requires Encodable(h) && (flags % 2 == 1 <==> h.ack)
    ensures DecodeHeader(EncodeHeader(h, flags, reserved) + rest) == h
  {
    hide U24, U32, Low31;
    Parts24(h.length);
    Reserved(h.stream, reserved);
  }

  lemma Whole24(a: byte, b: byte, c: byte)
    ensures var n := U24(a, b, c); n < 0x100_0000 && n / 0x1_0000 == a && n / 0x100 % 0x100 == b && n % 0x100 == c
  {
    assert U24(a, b, c) / 0x100 == 0x100 * a + b;
  }

  lemma Whole32(a: byte, b: byte, c: byte, d: byte)
    ensures var n := U32(a, b, c, d);
            n / 0x100_0000 == a && n / 0x1_0000 % 0x100 == b && n / 0x100 % 0x100 == c && n % 0x100 == d
  {
    var n := U32(a, b, c, d);
    assert n / 0x100 == 0x1_0000 * a + 0x100 * b + c && n / 0x1_0000 == 0x100 * a + b;
  }

  lemma WholeStream(a: byte, b: byte, c: byte, d: byte)
    ensures var n := Low31(U32(a, b, c, d));
            && n < 0x8000_0000 && n / 0x100_0000 == (if a >= 0x80 then a - 0x80 else a)
            && n / 0x1_0000 % 0x100 == b && n / 0x100 % 0x100 == c && n % 0x100 == d
  {
    var top := if a >= 0x80 then a - 0x80 else a;
    assert Low31(U32(a, b, c, d)) == U32(top, b, c, d);
    Whole32(top, b, c, d);
  }

  /** And there is no other header: encoding gives back what was decoded. */
  lemma HeaderEncodes(bytes: seq<byte>)
    requires |bytes| == HEADER_LEN
    ensures Encodable(DecodeHeader(bytes)) && EncodeHeader(DecodeHeader(bytes), bytes[4], bytes[5] >= 0x80) == bytes
  {
    hide U24, U32, Low31;
    Whole24(bytes[0], bytes[1], bytes[2]);
    WholeStream(bytes[5], bytes[6], bytes[7], bytes[8]);
  }

  predicate EncodableSetting(s: Setting) { s.id < 0x1_0000 && s.value < 0x1_0000_0000 }

  function EncodeSetting(s: Setting): (r: seq<byte>)
    requires EncodableSetting(s)
    ensures |r| == PAIR_LEN
  {
    [s.id / 0x100, s.id % 0x100, s.value / 0x100_0000, s.value / 0x1_0000 % 0x100, s.value / 0x100 % 0x100, s.value % 0x100]
  }

  lemma SettingDecodes(s: Setting, rest: seq<byte>)
    requires EncodableSetting(s)
    ensures DecodeSetting(EncodeSetting(s) + rest) == s
  {
    hide U32;
    Parts32(s.value);
  }

  function EncodeSettings(settings: seq<Setting>): (r: seq<byte>)
    requires forall s :: s in settings ==> EncodableSetting(s)
    ensures |r| == PAIR_LEN * |settings|
  {
    if settings == [] then [] else EncodeSetting(settings[0]) + EncodeSettings(settings[1..])
  }

  /** The settings read from a payload are those written into it. */
  lemma {:induction false} SettingsDecode(settings: seq<Setting>)
    requires forall s :: s in settings ==> EncodableSetting(s)
    ensures Settings(EncodeSettings(settings)) == settings
  {
    if settings != [] {
      SettingDecodes(settings[0], EncodeSettings(settings[1..]));
      SettingsDecode(settings[1..]);
      var p := EncodeSettings(settings);
      assert p[PAIR_LEN..] == EncodeSettings(settings[1..]);
    }
  }

  predicate EncodableFrame(f: Frame) { Encodable(f.header) && f.header.length == |f.payload| }

  function EncodeFrame(f: Frame): (r: seq<byte>)
    requires EncodableFrame(f)
    ensures |r| == HEADER_LEN + |f.payload|
  {
    EncodeHeader(f.header, if f.header.ack then 1 else 0, false) + f.payload
  }

  function EncodeFrames(frames: seq<Frame>): seq<byte>
    requires forall f :: f in frames ==> EncodableFrame(f)
  {
    if frames == [] then [] else EncodeFrame(frames[0]) + EncodeFrames(frames[1..])
  }

  lemma FrameDecodes(f: Frame, rest: seq<byte>)
    requires EncodableFrame(f)
    ensures var s := EncodeFrame(f) + rest;
            DecodeHeader(s) == f.header && s[HEADER_LEN..HEADER_LEN + |f.payload|] == f.payload && s[HEADER_LEN + |f.payload|..] == rest
  {
    hide DecodeHeader, EncodeHeader;
    var flags := if f.header.ack then 1 else 0;
    var s := EncodeFrame(f) + rest;
    HeaderDecodes(f.header, flags, false, f.payload + rest);
    assert s == EncodeHeader(f.header, flags, false) + (f.payload + rest);
  }

  /** The complete frames read from a stream are those written into it. */
  lemma {:induction false} FramesDecode(frames: seq<Frame>)
    requires forall f :: f in frames ==> EncodableFrame(f)
    ensures Frames(EncodeFrames(frames)) == frames
  {
    hide DecodeHeader, EncodeFrame;
    if frames != [] {
      FrameDecodes(frames[0], EncodeFrames(frames[1..]));
      FramesDecode(frames[1..]);
    }
  }

  // ----- the server's side -----

  /** The last setting of that id with an admissible value is `value`. */
  predicate LastIs(settings: seq<Setting>, id: nat, max: nat, value: nat) {
    exists k :: 0 <= k < |settings| && settings[k] == Setting(id, value)
      && forall l :: k < l < |settings| ==> !(settings[l].id == id && settings[l].value <= max)
  }

  lemma LastIsSnoc(settings: seq<Setting>, last: Setting, id: nat, max: nat, value: nat)
    requires value <= max
    ensures LastIs(settings + [last], id, max, value) <==>
      last == Setting(id, value) || (!(last.id == id && last.value <= max) && LastIs(settings, id, max, value))
  {
    var all := settings + [last];
    if LastIs(all, id, max, value) {
      var k :| 0 <= k < |all| && all[k] == Setting(id, value) && forall l :: k < l < |all| ==> !(all[l].id == id && all[l].value <= max);
      if k < |settings| { assert settings[k] == all[k] && all[|settings|] == last && forall l :: k < l < |settings| ==> settings[l] == all[l]; }
    }
    if last == Setting(id, value) { assert all[|settings|] == last; }
    if LastIs(settings, id, max, value) && !(last.id == id && last.value <= max) {
      var k :| 0 <= k < |settings| && settings[k] == Setting(id, value) && forall l :: k < l < |settings| ==> !(settings[l].id == id && settings[l].value <= max);
      assert all[k] == settings[k] && forall l :: k < l < |settings| ==> all[l] == settings[l];
    }
  }

  lemma {:induction false} LastValueIs(settings: seq<Setting>, id: nat, max: nat, value: nat)
    requires value <= max
    ensures LastValue(settings, id, max) == Some(value) <==> LastIs(settings, id, max, value)
    decreases |settings|
  {
    if settings != [] {
      hide LastIs;
      var n := |settings| - 1;
      LastValueIs(settings[..n], id, max, value);
      LastIsSnoc(settings[..n], settings[n], id, max, value);
      assert settings == settings[..n] + [settings[n]];
    }
  }

  /** A value that a server may not open with: push enabled or disabled by a
      server at all, a window of 2^31 or more, a frame size outside 2^14 to
      2^24 - 1, an extended CONNECT switch other than 0 and 1. */
  predicate Forbidden(s: Setting) {
    || s.id == 2
    || (s.id == 4 && s.value >= 0x8000_0000)
    || (s.id == 5 && !(0x4000 <= s.value < 0x100_0000))
    || (s.id == 8 && s.value > 1)
  }

  function SettingsFrame(settings: seq<Setting>): Frame
    requires forall s :: s in settings ==> EncodableSetting(s)
  {
    Frame(Header(PAIR_LEN * |settings|, 4, false, 0), EncodeSettings(settings))
  }

  /** A frame after the opening one that takes extended CONNECT back. */
  predicate TakesBack(f: Frame) {
    f.header.kind == 4 && !f.header.ack && f.header.stream == 0 && |f.payload| % 6 == 0 && LastIs(Settings(f.payload), 8, 1, 0)
  }

  /** Main result: what a server that sends its settings and then any frames is
      taken to say, in terms of the settings and frames alone. */
  lemma OpeningIsJudged(settings: seq<Setting>, later: seq<Frame>)
    requires forall s :: s in settings ==> EncodableSetting(s)
    requires 6 * |settings| <= 16384 && forall f :: f in later ==> EncodableFrame(f)
    ensures var j := Judge(EncodeFrame(SettingsFrame(settings)) + EncodeFrames(later));
            && (j.Violation? <==> exists s :: s in settings && Forbidden(s))
            && (j.Open? ==>
                  && j.initial.Some?
                  && (j.initial.value.extendedConnect <==> LastIs(settings, 8, 1, 1))
                  && (forall v :: 0 <= v < 0x1_0000_0000 ==> (j.initial.value.maxStreams == Some(v) <==> LastIs(settings, 3, 0xffff_ffff, v)))
                  && (j.withdrawn <==> exists f :: f in later && TakesBack(f)))
  {
    hide DecodeHeader, EncodeFrame, EncodeFrames, Frames, Settings, LastIs, LastValue;
    var f := SettingsFrame(settings);
    var stream := EncodeFrame(f) + EncodeFrames(later);
    FrameDecodes(f, EncodeFrames(later));
    SettingsDecode(settings);
    assert stream[HEADER_LEN..Min(HEADER_LEN + f.header.length, |stream|)] == f.payload;
    assert forall s :: s in settings ==> (Forbidden(s) <==> !LegalInitially(s));
    assert Judge(stream).Violation? <==> exists s :: s in settings && Forbidden(s);
    if Judge(stream).Open? {
      LastValueIs(settings, 8, 1, 1);
      forall v | 0 <= v < 0x1_0000_0000 ensures LastValue(settings, 3, 0xffff_ffff) == Some(v) <==> LastIs(settings, 3, 0xffff_ffff, v) {
        LastValueIs(settings, 3, 0xffff_ffff, v);
      }
      TakenBack(later);
    }
  }

  lemma TakenBack(later: seq<Frame>)
    requires forall f :: f in later ==> EncodableFrame(f)
    ensures AnyWithdraws(EncodeFrames(later)) <==> exists f :: f in later && TakesBack(f)
  {
    hide EncodeFrames, Frames, Settings, LastIs, LastValue;
    FramesDecode(later);
    forall f | f in later ensures Withdraws(f) <==> TakesBack(f) {
      LastValueIs(Settings(f.payload), 8, 1, 0);
    }
  }

  /** Any other first frame is refused. */
  lemma OtherOpeningsViolate(h: Header, flags: byte, reserved: bool, rest: seq<byte>)
    requires Encodable(h) && (flags % 2 == 1 <==> h.ack)
    requires h.kind != 4 || h.ack || h.stream != 0 || h.length > 16384 || h.length % 6 != 0
    ensures Judge(EncodeHeader(h, flags, reserved) + rest).Violation?
  {
    HeaderDecodes(h, flags, reserved, rest);
  }

  // ----- the client's side -----

  const PREFACE_TEXT := "PRI * HTTP/2.0\r\n\r\nSM\r\n\r\n"

  lemma PrefaceIsText()
    ensures |PREFACE| == |PREFACE_TEXT| && forall i :: 0 <= i < |PREFACE| ==> PREFACE[i] == PREFACE_TEXT[i] as int
  {
  }

  predicate IsAck(f: Frame) { f.header.kind == 4 && f.header.ack }

  /** Main result: what a client that writes the preface, frames of its own and
      then an acknowledgement is taken to say. */
  lemma {:induction false} ClientIsJudged(frames: seq<Frame>, ack: Frame, rest: seq<byte>)
    requires EncodableFrame(ack) && IsAck(ack) && forall f :: f in frames ==> EncodableFrame(f) && !IsAck(f)
    ensures JudgeClient(PREFACE + EncodeFrames(frames)) == AckWaiting
    ensures JudgeClient(PREFACE + (EncodeFrames(frames) + (EncodeFrame(ack) + rest))) ==
      if |ack.payload| == 0 && ack.header.stream == 0 then Acknowledged else AckViolation
  {
    AckIsFound(frames, ack, rest);
    AfterPreface(EncodeFrames(frames));
    AfterPreface(EncodeFrames(frames) + (EncodeFrame(ack) + rest));
  }

  lemma AfterPreface(bytes: seq<byte>)
    ensures JudgeClient(PREFACE + bytes) == FirstAck(bytes)
  {
    var s := PREFACE + bytes;
    assert s[..|PREFACE|] == PREFACE && s[|PREFACE|..] == bytes && PREFACE[..|PREFACE|] == PREFACE;
  }

  lemma {:induction false} AckIsFound(frames: seq<Frame>, ack: Frame, rest: seq<byte>)
    requires EncodableFrame(ack) && IsAck(ack) && forall f :: f in frames ==> EncodableFrame(f) && !IsAck(f)
    ensures FirstAck(EncodeFrames(frames)) == AckWaiting
    ensures FirstAck(EncodeFrames(frames) + (EncodeFrame(ack) + rest)) ==
      if |ack.payload| == 0 && ack.header.stream == 0 then Acknowledged else AckViolation
  {
    hide DecodeHeader, EncodeFrame;
    var tail := EncodeFrame(ack) + rest;
    if frames == [] {
      FrameDecodes(ack, rest);
      assert EncodeFrames(frames) + tail == tail;
    } else {
      var more := EncodeFrames(frames[1..]);
      AckIsFound(frames[1..], ack, rest);
      FrameDecodes(frames[0], more);
      FrameDecodes(frames[0], more + tail);
      assert EncodeFrames(frames) + tail == EncodeFrame(frames[0]) + (more + tail);
    }
  }
}

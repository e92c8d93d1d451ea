/** What the gate does reach: connections that are proved and dispatched to,
    and where each way of ending one leads. */
module GateRuns {
  import opened Bytes
  import opened H2Frames
  import opened H2Encoding
  import opened H2Proof
  import opened DispatchGate
  import S = ServerScanner
  import A = ClientAck
  import G = GenerationControl

  // ----- proving a connection -----

  /** The server's opening bytes are read in one piece and acted on. */
  lemma ReadOpening(opening: seq<byte>, s: Sys)
    requires Judge(opening).Open? && Judge(opening).initial.Some?
    requires s == Next(Next(Next(Next(INITIAL, Read(opening)), ReaderStep), ReaderStep), ReaderStep)
    ensures var j := Judge(opening);
            && s.io == Idle && s.seen.None? && !s.proved && s.acted == opening && s.sent == []
            && s.gate.Valid() && s.gate.status == Pending && s.gate.ack == Some(A.FRESH) && !s.gate.dropped
            && s.gate.scan.settings == j.initial
            && s.gate.control.life == LifeFor(j.initial, j.withdrawn)
            && s.gate.control.selectable == !(j.initial.value.extendedConnect && j.withdrawn)
  {
    hide S.Run, A.Run, Judge;
    S.RunJudges(opening);
  }

  /** Then the client's preface and acknowledgement are written. */
  lemma WriteAck(s: Sys, written: seq<byte>)
    requires s.io == Idle && s.gate.Valid() && s.gate.status == Pending && s.gate.ack == Some(A.FRESH) && s.gate.scan.settings.Some?
    requires JudgeClient(written) == Acknowledged
    ensures var s' := Next(s, Write(written));
            s'.gate.status == Ready(s.gate.scan.settings.value) && s'.gate.control == s.gate.control
            && s'.gate.dropped == s.gate.dropped && s'.io == Idle && s'.acted == s.acted && s'.seen == s.seen && s'.proved == s.proved
  {
    hide S.Run, A.Run, JudgeClient;
    A.RunJudges(written);
  }

  /** Main result: every server that opens legally and every client that writes
      its preface and an empty acknowledgement can be proved, and the proved
      connection takes exactly what the server offered. The one exception is a
      server that withdraws what it enabled before the proof is done. */
  lemma LegalOpeningIsProved(opening: seq<byte>, written: seq<byte>, first: seq<Event>, second: seq<Event>)
    requires Judge(opening).Open? && Judge(opening).initial.Some? && JudgeClient(written) == Acknowledged
    requires first == [Read(opening), ReaderStep, ReaderStep, ReaderStep]
    requires second == [Write(written), ProofRead, ProofChecked(true)]
    ensures var s := Exec(INITIAL, first + second); var j := Judge(opening);
            && s.proved == !(j.initial.value.extendedConnect && j.withdrawn)
            && Enqueues(s, G.Ordinary) == s.proved
            && Enqueues(s, G.ExtendedConnect) == (j.initial.value.extendedConnect && !j.withdrawn)
  {
    hide S.Run, A.Run, Judge, JudgeClient, Next;
    ExecSplit(INITIAL, first, second);
    Four(INITIAL, first);
    var s := Exec(INITIAL, first);
    ReadOpening(opening, s);
    Three(s, second);
    WriteAck(s, written);
    Checked(Next(s, Write(written)));
  }

  lemma Three(s: Sys, events: seq<Event>)
    requires s.gate.Valid() && |events| == 3
    ensures Exec(s, events) == Next(Next(Next(s, events[0]), events[1]), events[2])
  {
    hide Next;
    var s1 := Next(s, events[0]);
    assert Exec(s, events) == Exec(s1, events[1..]) && events[1..][1..] == events[2..];
    assert Exec(s1, events[1..]) == Exec(Next(s1, events[1]), events[2..]);
  }

  lemma Checked(s: Sys)
    requires s.gate.Valid() && s.gate.status.Ready? && !s.proved && !s.gate.dropped
    ensures var s' := Next(Next(s, ProofRead), ProofChecked(true));
            s'.proved == Proves(s.gate, s.gate.status.settings) && s'.gate == s.gate
  {
  }

  /** So it is for every legal list of settings a server may send and every
      list of frames a client may put before its acknowledgement: ordinary
      requests are taken, and extended CONNECT if and only if the last of the
      server's switches for it is on. */
  lemma OfferIsTaken(settings: seq<Setting>, frames: seq<Frame>, first: seq<Event>, second: seq<Event>)
    requires 6 * |settings| <= 16384 && forall s :: s in settings ==> EncodableSetting(s) && !Forbidden(s)
    requires forall f :: f in frames ==> EncodableFrame(f) && !IsAck(f)
    requires first == [Read(EncodeFrame(SettingsFrame(settings))), ReaderStep, ReaderStep, ReaderStep]
    requires second == [Write(PREFACE + (EncodeFrames(frames) + EncodeFrame(ACK))), ProofRead, ProofChecked(true)]
    ensures var s := Exec(INITIAL, first + second);
            Enqueues(s, G.Ordinary) && (Enqueues(s, G.ExtendedConnect) <==> LastIs(settings, 8, 1, 1))
  {
    hide Judge, JudgeClient, Exec, EncodeFrame, EncodeFrames, LastIs, Enqueues;
    OpeningIsJudged(settings, []);
    assert EncodeFrames([]) == [] by { Empty(); }
    assert EncodeFrame(SettingsFrame(settings)) + [] == EncodeFrame(SettingsFrame(settings));
    ClientIsJudged(frames, ACK, []);
    assert EncodeFrame(ACK) + [] == EncodeFrame(ACK);
    LegalOpeningIsProved(EncodeFrame(SettingsFrame(settings)), PREFACE + (EncodeFrames(frames) + EncodeFrame(ACK)), first, second);
  }

  lemma Empty()
    ensures EncodeFrames([]) == []
  {
  }

  /** An empty SETTINGS frame with the acknowledgement flag, on stream 0. */
  const ACK := Frame(Header(0, 4, true, 0), [])

  lemma AgreedStep(s: Sys, e: Event)
    requires s.gate.Valid()
    ensures Next(s, e).proved ==> s.proved || (e == ProofChecked(true) && s.seen.Some?)
    ensures Next(s, e).seen.Some? ==> s.seen.Some? || e == ProofRead
    ensures e.ProofChecked? ==> Next(s, e).seen.None?
  {
    hide S.Run, A.Run;
  }

  lemma {:induction false} AgreedRun(s: Sys, events: seq<Event>)
    requires s.gate.Valid() && !s.proved && s.seen.None?
    ensures Exec(s, events).proved ==> exists i, j :: 0 <= i < j < |events| && events[i] == ProofRead && events[j] == ProofChecked(true)
    decreases |events|
  {
    hide Next;
    if events != [] {
      var s', rest := Next(s, events[0]), events[1..];
      AgreedStep(s, events[0]);
      if s'.seen.None? {
        AgreedRun(s', rest);
        if Exec(s, events).proved {
          var i, j :| 0 <= i < j < |rest| && rest[i] == ProofRead && rest[j] == ProofChecked(true);
          assert events[i + 1] == ProofRead && events[j + 1] == ProofChecked(true);
        }
      } else {
        AgreedAfter(s', rest);
        if Exec(s, events).proved {
          var j :| 0 <= j < |rest| && rest[j] == ProofChecked(true);
          assert events[0] == ProofRead && events[j + 1] == ProofChecked(true);
        }
      }
    }
  }

  lemma {:induction false} AgreedAfter(s: Sys, events: seq<Event>)
    requires s.gate.Valid() && !s.proved
    ensures Exec(s, events).proved ==> exists j :: 0 <= j < |events| && events[j] == ProofChecked(true)
    decreases |events|
  {
    hide Next;
    if events != [] {
      var s', rest := Next(s, events[0]), events[1..];
      AgreedStep(s, events[0]);
      if s'.proved {
        assert events[0] == ProofChecked(true);
      } else {
        AgreedAfter(s', rest);
        if Exec(s, events).proved {
          var j :| 0 <= j < |rest| && rest[j] == ProofChecked(true);
          assert events[j + 1] == ProofChecked(true);
        }
      }
    }
  }

  /** In every run a connection is proved only by a check in which the HTTP
      library agrees, after Ready was read; and one reading is good for one
      check only. */
  lemma ProofIsAgreed(events: seq<Event>, first: bool, again: bool)
    ensures Exec(INITIAL, events).proved ==> exists i, j :: 0 <= i < j < |events| && events[i] == ProofRead && events[j] == ProofChecked(true)
    ensures var s := Exec(INITIAL, events); Next(Next(s, ProofChecked(first)), ProofChecked(again)) == Next(s, ProofChecked(first))
  {
    AgreedRun(INITIAL, events);
    CheckedOnce(Exec(INITIAL, events), first, again);
  }

  lemma CheckedOnce(s: Sys, first: bool, again: bool)
    requires s.gate.Valid()
    ensures Next(Next(s, ProofChecked(first)), ProofChecked(again)) == Next(s, ProofChecked(first))
  {
  }

  // ----- how a connection ends -----

  /** A connection can be selected exactly while it is live, and one that was
      revoked has asked to be retired. */
  predicate Tidy(c: G.Control) {
    && (c.selectable <==> c.life == G.LiveDisabled || c.life == G.LiveEnabled)
    && (c.life == G.Revoked ==> c.retirement)
    && (c.retirement ==> c.life in {G.Revoked, G.Retiring, G.Closed})
  }

  lemma TidyAdvance(s: Sys)
    requires Tidy(s.gate.control)
    ensures var l, c := s.gate.control.life, Advance(s).gate.control;
            Tidy(c) && (c.life == G.Closed <==> l == G.Closed) && (c.life == G.Retiring <==> l == G.Retiring)
  {
  }

  lemma TidyStep(s: Sys, e: Event)
    requires s.gate.Valid() && Tidy(s.gate.control)
    ensures Tidy(Next(s, e).gate.control)
    ensures var l, l' := s.gate.control.life, Next(s, e).gate.control.life;
            && (l' == G.Closed <==> l == G.Closed || e == Close)
            && (l' == G.Retiring <==> l != G.Closed && e != Close && (l == G.Retiring || e == Retire))
  {
    hide S.Run, A.Run, Advance;
    if e.ReaderStep? { TidyAdvance(s); }
  }

  lemma {:induction false} TidyRun(s: Sys, events: seq<Event>)
    requires s.gate.Valid() && Tidy(s.gate.control)
    ensures Tidy(Exec(s, events).gate.control)
    ensures var l, l' := s.gate.control.life, Exec(s, events).gate.control.life;
            && (l' == G.Closed <==> l == G.Closed || Close in events)
            && (l' == G.Retiring <==> l != G.Closed && Close !in events && (l == G.Retiring || Retire in events))
    decreases |events|
  {
    hide Next, Tidy;
    if events != [] {
      TidyStep(s, events[0]);
      TidyRun(Next(s, events[0]), events[1..]);
      assert forall e :: e in events <==> e == events[0] || e in events[1..];
    }
  }

  /** In every run a connection is closed exactly if it was told to close,
      retiring exactly if it was told to retire and not to close, selectable
      exactly while it is live, and asks for its retirement when it is revoked. */
  lemma EndsAreExact(events: seq<Event>)
    ensures var c := Exec(INITIAL, events).gate.control;
            && (c.life == G.Closed <==> Close in events)
            && (c.life == G.Retiring <==> Retire in events && Close !in events)
            && (c.selectable <==> c.life == G.LiveDisabled || c.life == G.LiveEnabled)
            && (c.life == G.Revoked ==> c.retirement)
            && (c.retirement ==> c.life in {G.Revoked, G.Retiring, G.Closed})
  {
    TidyRun(INITIAL, events);
  }

  /** Nothing is left that could be proved. */
  predicate Lost(s: Sys) { !s.proved && (s.gate.dropped || (s.gate.status == Failed && s.seen.None?)) }

  lemma LostStep(s: Sys, e: Event)
    requires s.gate.Valid() && Lost(s)
    ensures Lost(Next(s, e))
  {
    hide S.Run, A.Run;
  }

  lemma {:induction false} LostRun(s: Sys, events: seq<Event>)
    requires s.gate.Valid() && Lost(s)
    ensures Lost(Exec(s, events))
    decreases |events|
  {
    hide Next, Lost;
    if events != [] {
      LostStep(s, events[0]);
      LostRun(Next(s, events[0]), events[1..]);
    }
  }

  /** A connection whose transport dropped before it was proved, or that failed
      before the creator read Ready, is never proved and never dispatched to; a
      proof that was pending has failed for good. */
  lemma LostIsNeverProved(x: seq<Event>, e: Event, y: seq<Event>, kind: G.DispatchKind)
    requires var s := Exec(INITIAL, x);
             s.io == Idle && !s.proved && (e == TransportDropped || (e == IoError && s.seen.None?))
    ensures var s := Exec(INITIAL, x + [e] + y);
            !s.proved && !Enqueues(s, kind) && (e == IoError || Exec(INITIAL, x).gate.status == Pending ==> s.gate.status == Failed)
  {
    hide S.Run, A.Run;
    ExecSplit(INITIAL, x + [e], y);
    ExecSplit(INITIAL, x, [e]);
    var s := Exec(INITIAL, x + [e]);
    assert s == Next(Exec(INITIAL, x), e) by { assert Exec(Exec(INITIAL, x), [e]) == Exec(Next(Exec(INITIAL, x), e), []); }
    LostRun(s, y);
    LifeMovesForward(s, y);
  }
}

/** Splitting of WebSocket header values on a delimiter that quoted strings may
    contain (quoted-string: section 5.6.4 of RFC 9110; extension lists: section
    9.1 of RFC 6455). */
module WebSocketHeader {
  import opened Bytes
  import opened Text

  const QUOTE: byte := 0x22
  const BACKSLASH: byte := 0x5c
  const TAB: byte := 0x09
  const COMMA: byte := 0x2c
  const SEMICOLON: byte := 0x3b

  /** Where a scan stands with respect to quoted strings. */
  datatype Mode = Plain | Quoted | Escaped

  predicate QuotedText(b: byte) {
    b == TAB || 0x20 <= b <= 0x21 || 0x23 <= b <= 0x5b || 0x5d <= b <= 0x7e
  }

  /** The mode after a byte; None for a byte a quoted string must not hold. */
  function Step(mode: Mode, b: byte): Option<Mode> {
    match mode
    case Plain => Some(if b == QUOTE then Quoted else Plain)
    case Escaped => if b == TAB || 0x20 <= b <= 0x7e then Some(Quoted) else None
    case Quoted =>
      if b == BACKSLASH then Some(Escaped) else if b == QUOTE then Some(Plain)
      else if QuotedText(b) then Some(Quoted) else None
  }

  /** From `mode`, every quoted string of the text is well formed and closed. */
  predicate Balanced(mode: Mode, s: seq<byte>)
    decreases |s|
  {
    if s == [] then mode.Plain? else
    match Step(mode, s[0]) case None => false case Some(next) => Balanced(next, s[1..])
  }

  /** Balanced, and the delimiter occurs only inside quotes. */
  predicate Piece(mode: Mode, s: seq<byte>, d: byte)
    decreases |s|
  {
    if s == [] then mode.Plain? else
    && !(mode.Plain? && s[0] == d)
    && match Step(mode, s[0]) case None => false case Some(next) => Piece(next, s[1..], d)
  }

  function Extend(head: seq<byte>, pieces: seq<seq<byte>>): seq<seq<byte>>
    requires pieces != []
  {
    [head + pieces[0]] + pieces[1..]
  }

  /** The pieces of a text scanned from `mode`. */
  function Pieces(mode: Mode, s: seq<byte>, d: byte): (r: Option<seq<seq<byte>>>)
    ensures r.Some? ==> r.value != []
    decreases |s|
  {
    if s == [] then (if mode.Plain? then Some([[]]) else None)
    else if mode.Plain? && s[0] != QUOTE && s[0] == d then
      match Pieces(Plain, s[1..], d) case None => None case Some(ps) => Some([[]] + ps)
    else match Step(mode, s[0])
      case None => None
      case Some(next) => match Pieces(next, s[1..], d) case None => None case Some(ps) => Some(Extend([s[0]], ps))
  }

  function Combine(done: seq<seq<byte>>, head: seq<byte>, r: Option<seq<seq<byte>>>): Option<seq<seq<byte>>>
    requires r.Some? ==> r.value != []
  {
    match r case None => None case Some(ps) => Some(done + Extend(head, ps))
  }

  function ModeOf(quoted: bool, escaped: bool): Mode {
    if escaped then Escaped else if quoted then Quoted else Plain
  }

  lemma ExtendTwice(a: seq<byte>, b: seq<byte>, ps: seq<seq<byte>>)
    requires ps != []
    ensures Extend(a, Extend(b, ps)) == Extend(a + b, ps) && Extend([], ps) == ps && Extend(a, [[]] + ps) == [a] + ps
  {
    assert a + (b + ps[0]) == a + b + ps[0] && [] + ps[0] == ps[0] && a + [] == a;
    assert Extend(b, ps)[1..] == ps[1..] && ([[]] + ps)[1..] == ps;
  }

  lemma CombineNothing(r: Option<seq<seq<byte>>>)
    requires r.Some? ==> r.value != []
    ensures Combine([], [], r) == r
  {
    if r.Some? {
      ExtendTwice([], [], r.value);
      assert [] + r.value == r.value;
    }
  }

  /** One turn of the loop: the byte at `index` joins the open piece or ends it. */
  lemma Advance(value: seq<byte>, start: nat, index: nat, mode: Mode, done: seq<seq<byte>>, d: byte)
    requires start <= index < |value|
    ensures var b, rest := value[index], value[index + 1..];
            Combine(done, value[start..index], Pieces(mode, value[index..], d)) ==
            if mode.Plain? && b != QUOTE && b == d then Combine(done + [value[start..index]], [], Pieces(Plain, rest, d))
            else match Step(mode, b)
              case None => None
              case Some(next) => Combine(done, value[start..index + 1], Pieces(next, rest, d))
  {
    var b, head, s := value[index], value[start..index], value[index..];
    assert s[0] == b && s[1..] == value[index + 1..] && value[start..index + 1] == head + [b];
    if mode.Plain? && b != QUOTE && b == d {
      var r := Pieces(Plain, s[1..], d);
      if r.Some? {
        ExtendTwice(head, [], r.value);
        assert done + ([head] + r.value) == done + [head] + r.value;
      }
    } else if Step(mode, b).Some? {
      var r := Pieces(Step(mode, b).value, s[1..], d);
      if r.Some? { ExtendTwice(head, [b], r.value); }
    }
  }

  lemma LastPiece(done: seq<seq<byte>>, head: seq<byte>)
    ensures Combine(done, head, Some([[]])) == Some(done + [head])
  {
    assert head + [] == head;
    assert [head] + [[]][1..] == [head];
  }

  /** `split_websocket_header`. */
  method Split(value: seq<byte>, d: byte) returns (r: Option<seq<seq<byte>>>)
    ensures r == Pieces(Plain, value, d)
  {
    var pieces: seq<seq<byte>> := [];
    var start: nat, index: nat := 0, 0;
    var quoted, escaped := false, false;
    assert value[0..] == value;
    CombineNothing(Pieces(Plain, value, d));
    while index < |value|
      invariant start <= index <= |value| && (escaped ==> quoted)
      invariant Pieces(Plain, value, d) ==
        Combine(pieces, value[start..index], Pieces(ModeOf(quoted, escaped), value[index..], d))
    {
      var b := value[index];
      Advance(value, start, index, ModeOf(quoted, escaped), pieces, d);
      if quoted {
        if escaped {
          if b != TAB && !(0x20 <= b <= 0x7e) { return None; }
          escaped := false;
        } else if b == BACKSLASH {
          escaped := true;
        } else if b == QUOTE {
          quoted := false;
        } else if !QuotedText(b) {
          return None;
        }
      } else if b == QUOTE {
        quoted := true;
      } else if b == d {
        pieces := pieces + [value[start..index]];
        start := index + 1;
        assert value[start..index + 1] == [];
      }
      index := index + 1;
    }
    if quoted || escaped { return None; }
    assert value[start..index] == value[start..] && value[index..] == [];
    LastPiece(pieces, value[start..]);
    r := Some(pieces + [value[start..]]);
  }

  // ----- what a split is -----

  /** Splitting succeeds exactly on balanced text, whatever the delimiter. */
  lemma {:induction false} SplitAccepts(mode: Mode, s: seq<byte>, d: byte)
    ensures Pieces(mode, s, d).Some? <==> Balanced(mode, s)
    decreases |s|
  {
    if s != [] {
      var next := Step(mode, s[0]);
      if next.Some? { SplitAccepts(next.value, s[1..], d); }
    }
  }

  lemma {:induction false} PieceIsBalanced(mode: Mode, s: seq<byte>, d: byte)
    requires Piece(mode, s, d)
    ensures Balanced(mode, s)
    decreases |s|
  {
    if s != [] { PieceIsBalanced(Step(mode, s[0]).value, s[1..], d); }
  }

  /** The pieces of a split: no unquoted delimiter, and joined they are the text. */
  lemma {:induction false} SplitJoins(mode: Mode, s: seq<byte>, d: byte)
    requires d != QUOTE && Pieces(mode, s, d).Some?
    ensures var ps := Pieces(mode, s, d).value;
            && Join(ps, d) == s && Piece(mode, ps[0], d)
            && forall i :: 1 <= i < |ps| ==> Piece(Plain, ps[i], d)
    decreases |s|
  {
    if s != [] {
      var ps := Pieces(mode, s, d).value;
      assert s == [s[0]] + s[1..];
      if mode.Plain? && s[0] == d {
        SplitJoins(Plain, s[1..], d);
        var rest := Pieces(Plain, s[1..], d).value;
        assert ps[1..] == rest;
      } else {
        var next := Step(mode, s[0]).value;
        SplitJoins(next, s[1..], d);
        var rest := Pieces(next, s[1..], d).value;
        assert ps[0] == [s[0]] + rest[0] && ps[0][1..] == rest[0] && ps[1..] == rest[1..];
      }
    }
  }

  /** No other pieces will do. */
  lemma {:induction false} JoinSplits(mode: Mode, ps: seq<seq<byte>>, d: byte)
    requires d != QUOTE && ps != [] && Piece(mode, ps[0], d)
    requires forall i :: 1 <= i < |ps| ==> Piece(Plain, ps[i], d)
    ensures Pieces(mode, Join(ps, d), d) == Some(ps)
    decreases |ps|, |ps[0]|
  {
    var s := Join(ps, d);
    if ps[0] == [] {
      if |ps| == 1 {
        assert ps == [[]];
      } else {
        JoinSplits(Plain, ps[1..], d);
        assert s[1..] == Join(ps[1..], d);
        assert ps == [[]] + ps[1..];
      }
    } else {
      var next := Step(mode, ps[0][0]).value;
      var qs := ps[0 := ps[0][1..]];
      JoinSplits(next, qs, d);
      assert qs[1..] == ps[1..];
      assert |ps| > 1 ==> Join(qs, d) == ps[0][1..] + [d] + Join(ps[1..], d);
      assert s[0] == ps[0][0] && s[1..] == Join(qs, d);
      assert [s[0]] + qs[0] == ps[0] && [ps[0]] + ps[1..] == ps;
    }
  }

  /** A split is the one way to write a value as delimited pieces. */
  lemma SplitIsTheDecomposition(s: seq<byte>, ps: seq<seq<byte>>, d: byte)
    requires d != QUOTE
    ensures Pieces(Plain, s, d) == Some(ps) <==>
      ps != [] && Join(ps, d) == s && forall i :: 0 <= i < |ps| ==> Piece(Plain, ps[i], d)
  {
    if Pieces(Plain, s, d) == Some(ps) { SplitJoins(Plain, s, d); }
    if ps != [] && Join(ps, d) == s && forall i :: 0 <= i < |ps| ==> Piece(Plain, ps[i], d) { JoinSplits(Plain, ps, d); }
  }

  /** Each extension of an accepted list splits into its parameters. */
  lemma ExtensionsSplit(s: seq<byte>, ps: seq<seq<byte>>, i: nat)
    requires Pieces(Plain, s, COMMA) == Some(ps) && i < |ps|
    ensures Pieces(Plain, ps[i], SEMICOLON).Some?
  {
    SplitIsTheDecomposition(s, ps, COMMA);
    PieceIsBalanced(Plain, ps[i], COMMA);
    SplitAccepts(Plain, ps[i], SEMICOLON);
  }

  // ----- quoted parameter values -----

  /** The text between the quotes. */
  predicate Inside(escaped: bool, s: seq<byte>)
    decreases |s|
  {
    if s == [] then !escaped
    else if escaped then (s[0] == TAB || 0x20 <= s[0] <= 0x7e) && Inside(false, s[1..])
    else if s[0] == BACKSLASH then Inside(true, s[1..])
    else s[0] != QUOTE && QuotedText(s[0]) && Inside(false, s[1..])
  }

  predicate IsQuoted(v: seq<byte>) {
    |v| >= 2 && v[0] == QUOTE && v[|v| - 1] == QUOTE && Inside(false, v[1..|v| - 1])
  }

  /** `valid_websocket_quoted_string`. */
  method ValidQuoted(v: seq<byte>) returns (ok: bool)
    ensures ok == IsQuoted(v)
  {
    if |v| < 2 || v[0] != QUOTE || v[|v| - 1] != QUOTE { return false; }
    var inner := v[1..|v| - 1];
    var escaped := false;
    var i: nat := 0;
    assert inner[0..] == inner;
    while i < |inner|
      invariant i <= |inner| && Inside(false, inner) == Inside(escaped, inner[i..])
    {
      var b := inner[i];
      assert inner[i..][1..] == inner[i + 1..];
      if escaped {
        if b != TAB && !(0x20 <= b <= 0x7e) { return false; }
        escaped := false;
      } else if b == BACKSLASH {
        escaped := true;
      } else if b == QUOTE || !QuotedText(b) {
        return false;
      }
      i := i + 1;
    }
    ok := !escaped;
  }

  /** The scan leaves the quotes at the last byte and not before. */
  predicate ClosesAtEnd(mode: Mode, s: seq<byte>)
    decreases |s|
  {
    if s == [] then mode.Plain? else
    !mode.Plain? && match Step(mode, s[0]) case None => false case Some(next) => ClosesAtEnd(next, s[1..])
  }

  lemma {:induction false} InsideCloses(escaped: bool, s: seq<byte>)
    ensures Inside(escaped, s) <==> ClosesAtEnd(ModeOf(true, escaped), s + [QUOTE])
    decreases |s|
  {
    var t := s + [QUOTE];
    if s == [] {
      assert t[1..] == [];
    } else {
      assert t[1..] == s[1..] + [QUOTE] && t[0] == s[0];
      if escaped { InsideCloses(false, s[1..]); }
      else if s[0] == BACKSLASH { InsideCloses(true, s[1..]); }
      else if s[0] != QUOTE { InsideCloses(false, s[1..]); }
    }
  }

  lemma {:induction false} ClosesIsPiece(mode: Mode, s: seq<byte>, d: byte)
    requires ClosesAtEnd(mode, s)
    ensures Piece(mode, s, d)
    decreases |s|
  {
    if s != [] { ClosesIsPiece(Step(mode, s[0]).value, s[1..], d); }
  }

  /** The validator of parameter values and the splitter agree on what a quoted
      string is: one that the splitter opens at the first byte and closes at the
      last, and so never cuts. */
  lemma QuotedIsOnePiece(v: seq<byte>, d: byte)
    requires d != QUOTE
    ensures IsQuoted(v) <==> |v| >= 2 && v[0] == QUOTE && v[|v| - 1] == QUOTE && ClosesAtEnd(Quoted, v[1..])
    ensures IsQuoted(v) ==> Pieces(Plain, v, d) == Some([v])
  {
    if |v| >= 2 && v[|v| - 1] == QUOTE {
      InsideCloses(false, v[1..|v| - 1]);
      assert v[1..] == v[1..|v| - 1] + [QUOTE];
    }
    if IsQuoted(v) {
      ClosesIsPiece(Quoted, v[1..], d);
      JoinSplits(Plain, [v], d);
    }
  }

  // ----- quoting -----

  /** A tab or a visible character or blank of ASCII. */
  predicate Printable(b: byte) { b == 9 || 32 <= b <= 126 }

  /** The text with a backslash before every byte that `escape` picks. */
  function Escape(t: seq<byte>, escape: byte -> bool): seq<byte> {
    if t == [] then [] else (if escape(t[0]) then [0x5c, t[0]] else [t[0]]) + Escape(t[1..], escape)
  }

  function Quote(t: seq<byte>, escape: byte -> bool): seq<byte> { [0x22] + Escape(t, escape) + [0x22] }

  lemma {:induction false} EscapedInside(t: seq<byte>, escape: byte -> bool)
    requires escape(0x22) && escape(0x5c)
    ensures Inside(false, Escape(t, escape)) <==> forall i :: 0 <= i < |t| ==> Printable(t[i])
  {
    if t != [] {
      EscapedInside(t[1..], escape);
      var s, rest := Escape(t, escape), Escape(t[1..], escape);
      assert (forall i :: 0 <= i < |t| ==> Printable(t[i])) <==> Printable(t[0]) && forall i :: 0 <= i < |t[1..]| ==> Printable(t[1..][i]);
      if escape(t[0]) {
        assert s[0] == 0x5c && s[1..][0] == t[0] && s[1..][1..] == rest;
      } else {
        assert s[0] == t[0] && s[1..] == rest;
      }
    }
  }

  /** Main result: any text can be quoted by escaping its quotes and
      backslashes, and whatever else one likes, and is then one valid quoted
      string, exactly if it is printable. */
  lemma QuotingIsExact(t: seq<byte>, escape: byte -> bool)
    requires escape(0x22) && escape(0x5c)
    ensures IsQuoted(Quote(t, escape)) <==> forall i :: 0 <= i < |t| ==> Printable(t[i])
  {
    var v := Quote(t, escape);
    assert v[1..|v| - 1] == Escape(t, escape);
    EscapedInside(t, escape);
  }
}

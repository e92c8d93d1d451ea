/** The canonical archive: members in byte order of their paths, each a header,
    its bytes and zero padding, then two zero blocks. */
module Archive {
  import opened Bytes
  import opened Text
  import opened ArchivePaths
  import opened UstarHeader

  const CAP := 536_870_912
  const MAX_MEMBERS := CAP / 512

  datatype Member = Member(path: Path, bytes: seq<byte>)

  function Pad(n: nat): (p: nat)
    ensures (n + p) % BLOCK == 0
  {
    (BLOCK - n % BLOCK) % BLOCK
  }

  /** A member the format can hold; a path is always UTF-8 text. */
  ghost predicate Holds(m: Member) {
    Utf8(m.path) && Valid(m.path) && |m.bytes| < Pow8(11)
  }

  /** What an archive may hold: members with strictly increasing paths. */
  ghost predicate Canonical(ms: seq<Member>) {
    && (forall m :: m in ms ==> Holds(m))
    && forall i, j :: 0 <= i < j < |ms| ==> Less(ms[i].path, ms[j].path)
  }

  // ----- the layout -----

  ghost function Encoded(m: Member): (e: seq<byte>)
    requires Holds(m)
    ensures |e| == BLOCK + |m.bytes| + Pad(|m.bytes|)
  {
    Header(m.path, |m.bytes|).value + m.bytes + Zeros(Pad(|m.bytes|))
  }

  ghost function Layout(ms: seq<Member>): (b: seq<byte>)
    requires forall m :: m in ms ==> Holds(m)
    decreases |ms|
  {
    if ms == [] then Zeros(2 * BLOCK) else Encoded(ms[0]) + Layout(ms[1..])
  }

  /** The pieces of a member in front of anything. */
  lemma EncodedPieces(m: Member, tail: seq<byte>)
    requires Holds(m)
    ensures var b, n := Encoded(m) + tail, |m.bytes|;
            && b[..BLOCK] == Header(m.path, n).value && b[BLOCK..BLOCK + n] == m.bytes
            && AllZero(b[BLOCK + n..BLOCK + n + Pad(n)]) && b[BLOCK + n + Pad(n)..] == tail
  {
    hide Header, Valid, Utf8;
  }

  // ----- parsing -----

  /** Members of the blocks `rest`, the last path before them being `last`. */
  function ParseFrom(rest: seq<byte>, last: Option<Path>): Option<seq<Member>>
    decreases |rest|
  {
    if |rest| < BLOCK then None else
    if AllZero(rest[..BLOCK]) then
      if |rest| == 2 * BLOCK && AllZero(rest[BLOCK..]) then Some([]) else None
    else match ReadHeader(rest[..BLOCK])
      case None => None
      case Some(e) =>
        var next := BLOCK + e.size + Pad(e.size);
        if (last.Some? && !Less(last.value, e.path)) || next > |rest| || !AllZero(rest[BLOCK + e.size..next]) then None
        else match ParseFrom(rest[next..], Some(e.path))
          case None => None
          case Some(ms) => Some([Member(e.path, rest[BLOCK..BLOCK + e.size])] + ms)
  }

  function Parsed(bytes: seq<byte>): Option<seq<Member>> {
    if |bytes| > CAP || |bytes| < 2 * BLOCK || |bytes| % BLOCK != 0 then None else ParseFrom(bytes, None)
  }

  ghost predicate CanonicalAfter(ms: seq<Member>, last: Option<Path>)
    decreases |ms|
  {
    ms == [] || (Holds(ms[0]) && (last.Some? ==> Less(last.value, ms[0].path)) && CanonicalAfter(ms[1..], Some(ms[0].path)))
  }

  lemma {:induction false} CanonicalChain(ms: seq<Member>, last: Option<Path>)
    ensures CanonicalAfter(ms, last) <==> Canonical(ms) && (last.Some? && ms != [] ==> Less(last.value, ms[0].path))
    decreases |ms|
  {
    if ms != [] {
      CanonicalChain(ms[1..], Some(ms[0].path));
      assert ms == [ms[0]] + ms[1..];
      if CanonicalAfter(ms, last) {
        forall j | 1 <= j < |ms| ensures Less(ms[0].path, ms[j].path) {
          if j > 1 { LessTransitive(ms[0].path, ms[1].path, ms[j].path); }
        }
      }
    }
  }

  /** The parser undoes the layout. */
  lemma {:induction false} ParseLayout(ms: seq<Member>, last: Option<Path>)
    requires CanonicalAfter(ms, last) && forall m :: m in ms ==> Holds(m)
    ensures ParseFrom(Layout(ms), last) == Some(ms)
    decreases |ms|
  {
    hide Holds, Header, ReadHeader, Less;
    if ms == [] {
      assert Layout(ms)[..BLOCK] + Layout(ms)[BLOCK..] == Layout(ms);
    } else {
      hide AllZero, Encoded;
      ParseLayout(ms[1..], Some(ms[0].path));
      HeaderOf(ms[0]);
      EncodedPieces(ms[0], Layout(ms[1..]));
      assert ms == [ms[0]] + ms[1..];
    }
  }

  lemma HeaderOf(m: Member)
    requires Holds(m)
    ensures var h := Header(m.path, |m.bytes|).value;
            ReadHeader(h) == Some(Entry(m.path, |m.bytes|)) && !AllZero(h)
  {
    assert Pow8(11) == 8589934592;
    HeaderRoundTrip(Header(m.path, |m.bytes|).value, Entry(m.path, |m.bytes|));
  }

  lemma ReadIsEncoded(rest: seq<byte>, e: Entry)
    requires |rest| >= BLOCK + e.size + Pad(e.size) && ReadHeader(rest[..BLOCK]) == Some(e)
    requires AllZero(rest[BLOCK + e.size..BLOCK + e.size + Pad(e.size)])
    ensures var m := Member(e.path, rest[BLOCK..BLOCK + e.size]);
            Holds(m) && Encoded(m) + rest[BLOCK + e.size + Pad(e.size)..] == rest
  {
    hide Header, Valid, Utf8;
    var next := BLOCK + e.size + Pad(e.size);
    assert rest[BLOCK + e.size..next] == Zeros(Pad(e.size));
    assert rest == rest[..BLOCK] + rest[BLOCK..BLOCK + e.size] + rest[BLOCK + e.size..next] + rest[next..];
  }

  /** The parser accepts nothing but layouts. */
  lemma {:induction false} ParseIsLayout(rest: seq<byte>, last: Option<Path>)
    requires ParseFrom(rest, last).Some?
    ensures var ms := ParseFrom(rest, last).value;
            CanonicalAfter(ms, last) && (forall m :: m in ms ==> Holds(m)) && Layout(ms) == rest
    decreases |rest|
  {
    hide Holds, Header, ReadHeader, Less, Encoded;
    if AllZero(rest[..BLOCK]) {
      assert rest == rest[..BLOCK] + rest[BLOCK..] == Zeros(2 * BLOCK);
    } else {
      hide AllZero;
      var e := ReadHeader(rest[..BLOCK]).value;
      var next := BLOCK + e.size + Pad(e.size);
      ParseIsLayout(rest[next..], Some(e.path));
      ReadIsEncoded(rest, e);
      var ms := ParseFrom(rest, last).value;
      assert ms[1..] == ParseFrom(rest[next..], Some(e.path)).value;
    }
  }

  /** The parser accepts exactly the archives of canonical member lists. */
  lemma ParseExact(bytes: seq<byte>, ms: seq<Member>)
    ensures Parsed(bytes) == Some(ms) <==> Canonical(ms) && Layout(ms) == bytes && |bytes| <= 512 * 1024 * 1024
  {
    CanonicalChain(ms, None);
    if Parsed(bytes) == Some(ms) { ParseIsLayout(bytes, None); }
    if Canonical(ms) && Layout(ms) == bytes {
      ParseLayout(ms, None);
      LayoutLength(ms);
    }
  }

  // ----- writing -----

  function Insert(m: Member, ms: seq<Member>): (r: seq<Member>)
    ensures multiset(r) == multiset(ms) + multiset{m}
    decreases |ms|
  {
    if ms == [] || !Less(ms[0].path, m.path) then [m] + ms
    else
      assert ms == [ms[0]] + ms[1..];
      [ms[0]] + Insert(m, ms[1..])
  }

  /** The members sorted by path, equal paths in their given order. */
  function Sorted(ms: seq<Member>): (r: seq<Member>)
    ensures multiset(r) == multiset(ms)
    decreases |ms|
  {
    if ms == [] then [] else
    assert ms == [ms[0]] + ms[1..];
    Insert(ms[0], Sorted(ms[1..]))
  }

  ghost predicate Ordered(ms: seq<Member>) {
    forall i, j :: 0 <= i < j < |ms| ==> !Less(ms[j].path, ms[i].path)
  }

  ghost predicate Distinct(ms: seq<Member>) {
    forall i, j :: 0 <= i < j < |ms| ==> ms[i].path != ms[j].path
  }

  ghost function Paths(ms: seq<Member>): set<Path> { set m | m in ms :: m.path }

  function Cost(m: Member): nat { BLOCK + (|m.bytes| + 511) / 512 * 512 }

  /** Bytes an archive of these members takes. */
  function Projected(ms: seq<Member>): (n: nat)
    ensures n % BLOCK == 0 && n >= 2 * BLOCK
    decreases |ms|
  {
    if ms == [] then 2 * BLOCK else Cost(ms[0]) + Projected(ms[1..])
  }

  lemma {:induction false} ProjectedBounds(ms: seq<Member>)
    ensures forall m :: m in ms ==> |m.bytes| < Projected(ms)
    decreases |ms|
  {
    if ms != [] {
      ProjectedBounds(ms[1..]);
      assert ms == [ms[0]] + ms[1..];
    }
  }

  predicate AllValid(ms: seq<Member>) { forall i :: 0 <= i < |ms| ==> Valid(ms[i].path) }

  /** What the writer accepts. */
  ghost predicate Writable(ms: seq<Member>) {
    Distinct(ms) && AllValid(ms) && Projected(ms) <= CAP
  }

  /** What the writer returns; paths are always UTF-8 text. */
  ghost function Written(ms: seq<Member>): Option<seq<byte>>
    requires forall m :: m in ms ==> Utf8(m.path)
  {
    if Writable(ms) then
      SortedIsCanonical(ms);
      Some(Layout(Sorted(ms)))
    else None
  }

  lemma {:induction false} InsertCosts(m: Member, ms: seq<Member>)
    ensures Projected(Insert(m, ms)) == Projected(ms) + Cost(m)
    decreases |ms|
  {
    hide Cost, Less;
    if ms == [] || !Less(ms[0].path, m.path) {
      assert ([m] + ms)[1..] == ms;
    } else {
      InsertCosts(m, ms[1..]);
      assert Insert(m, ms)[1..] == Insert(m, ms[1..]);
    }
  }

  lemma {:induction false} InsertSorts(m: Member, ms: seq<Member>)
    requires Ordered(ms)
    ensures Ordered(Insert(m, ms))
    decreases |ms|
  {
    hide Less;
    if ms != [] {
      LessTotal(ms[0].path, m.path);
      if Less(ms[0].path, m.path) {
        InsertSorts(m, ms[1..]);
        forall x | x in Insert(m, ms[1..]) ensures !Less(x.path, ms[0].path) {
          assert x in multiset(ms[1..]) + multiset{m};
        }
      } else {
        forall j | 0 <= j < |ms| ensures !Less(ms[j].path, m.path) { NotBelow(ms, m, j); }
      }
    }
  }

  /** Nothing in an ordered list is below what its head is not below. */
  lemma NotBelow(ms: seq<Member>, m: Member, j: nat)
    requires Ordered(ms) && j < |ms| && !Less(ms[0].path, m.path)
    ensures !Less(ms[j].path, m.path)
  {
    hide Less;
    LessTotal(ms[0].path, ms[j].path);
    if Less(ms[j].path, m.path) && j > 0 && ms[0].path != ms[j].path {
      LessTransitive(ms[0].path, ms[j].path, m.path);
    }
  }

  lemma PathsCons(ms: seq<Member>)
    requires ms != []
    ensures Paths(ms) == Paths(ms[1..]) + {ms[0].path}
  {
    assert ms == [ms[0]] + ms[1..];
  }

  lemma DistinctCons(ms: seq<Member>)
    requires ms != []
    ensures Distinct(ms) <==> Distinct(ms[1..]) && ms[0].path !in Paths(ms[1..])
  {
    var rest := ms[1..];
    assert forall j :: 1 <= j < |ms| ==> ms[j] == rest[j - 1] && rest[j - 1] in rest;
    assert forall j :: 0 <= j < |rest| ==> rest[j] == ms[j + 1];
  }

  lemma {:induction false} DistinctCount(ms: seq<Member>)
    ensures |Paths(ms)| <= |ms| && (Distinct(ms) <==> |Paths(ms)| == |ms|)
    decreases |ms|
  {
    if ms != [] {
      hide Paths, Distinct;
      DistinctCount(ms[1..]);
      PathsCons(ms);
      DistinctCons(ms);
    }
  }

  lemma {:induction false} SortedOrders(ms: seq<Member>)
    ensures Ordered(Sorted(ms)) && Projected(Sorted(ms)) == Projected(ms)
    decreases |ms|
  {
    if ms != [] {
      hide Ordered, Cost;
      SortedOrders(ms[1..]);
      InsertSorts(ms[0], Sorted(ms[1..]));
      InsertCosts(ms[0], Sorted(ms[1..]));
    }
  }

  /** Sorting loses nothing the writer looks at. */
  lemma SortedKeeps(ms: seq<Member>)
    ensures Ordered(Sorted(ms)) && Projected(Sorted(ms)) == Projected(ms)
    ensures Distinct(Sorted(ms)) <==> Distinct(ms)
    ensures forall m :: m in Sorted(ms) <==> m in ms
  {
    SortedOrders(ms);
    hide Sorted, Ordered, Distinct, Projected;
    var r := Sorted(ms);
    forall m ensures m in r <==> m in ms { assert m in multiset(r) <==> m in multiset(ms); }
    DistinctCount(ms);
    DistinctCount(r);
    assert Paths(ms) == Paths(r);
    assert |multiset(ms)| == |ms| && |multiset(r)| == |r|;
  }

  /** Sorted with distinct paths means strictly increasing. */
  lemma SortedIsCanonical(ms: seq<Member>)
    requires (forall m :: m in ms ==> Utf8(m.path)) && Writable(ms)
    ensures Canonical(Sorted(ms))
  {
    hide Sorted, Projected, Valid, Utf8;
    SortedKeeps(ms);
    ProjectedBounds(ms);
    var r := Sorted(ms);
    assert Pow8(11) == 8589934592;
    forall i, j | 0 <= i < j < |r| ensures Less(r[i].path, r[j].path) { LessTotal(r[i].path, r[j].path); }
  }

  lemma CostIsLength(m: Member)
    requires Holds(m)
    ensures |Encoded(m)| == Cost(m)
  {
    hide Holds, Header;
    var n := |m.bytes|;
    assert n == n / 512 * 512 + n % 512;
    if n % 512 == 0 { assert (n + 511) / 512 == n / 512; } else { assert (n + 511) / 512 == n / 512 + 1; }
  }

  lemma {:induction false} LayoutLength(ms: seq<Member>)
    requires forall m :: m in ms ==> Holds(m)
    ensures |Layout(ms)| == Projected(ms)
    decreases |ms|
  {
    hide Holds, Encoded, Cost;
    if ms != [] {
      LayoutLength(ms[1..]);
      assert |Encoded(ms[0])| == Cost(ms[0]) by { CostIsLength(ms[0]); }
    }
  }

  lemma {:induction false} SortedAlready(ms: seq<Member>)
    requires Canonical(ms)
    ensures Sorted(ms) == ms && Distinct(ms)
    decreases |ms|
  {
    hide Holds;
    forall i, j | 0 <= i < j < |ms| ensures ms[i].path != ms[j].path { LessTotal(ms[i].path, ms[j].path); }
    if ms != [] {
      SortedAlready(ms[1..]);
      if |ms| > 1 { LessTotal(ms[0].path, ms[1].path); }
    }
  }

  // ----- the two are inverse -----

  /** Writing and then parsing returns the members in byte order. */
  lemma WriteThenParse(ms: seq<Member>)
    requires (forall m :: m in ms ==> Utf8(m.path)) && Written(ms).Some?
    ensures Parsed(Written(ms).value) == Some(Sorted(ms))
    ensures multiset(Sorted(ms)) == multiset(ms) && Canonical(Sorted(ms))
  {
    hide Sorted, Projected, Layout, Holds, Distinct;
    SortedKeeps(ms);
    SortedIsCanonical(ms);
    LayoutLength(Sorted(ms));
    ParseExact(Written(ms).value, Sorted(ms));
  }

  /** Parsing and then writing returns the same bytes. */
  lemma ParseThenWrite(bytes: seq<byte>)
    requires Parsed(bytes).Some?
    ensures (forall m :: m in Parsed(bytes).value ==> Utf8(m.path)) && Written(Parsed(bytes).value) == Some(bytes)
  {
    hide Parsed, Sorted, Projected, Layout, Distinct;
    var ms := Parsed(bytes).value;
    ParseExact(bytes, ms);
    SortedAlready(ms);
    LayoutLength(ms);
  }

  // ----- the loops -----

  lemma PrefixStep(ms: seq<Member>, i: nat)
    requires i < |ms|
    ensures Paths(ms[..i + 1]) == Paths(ms[..i]) + {ms[i].path}
    ensures Distinct(ms[..i + 1]) <==> Distinct(ms[..i]) && ms[i].path !in Paths(ms[..i])
    ensures Distinct(ms) ==> Distinct(ms[..i + 1])
    ensures AllValid(ms[..i + 1]) <==> AllValid(ms[..i]) && Valid(ms[i].path)
    ensures AllValid(ms) ==> AllValid(ms[..i + 1])
    ensures Projected(ms[i..]) == Cost(ms[i]) + Projected(ms[i + 1..])
  {
    hide Cost, Valid;
    assert ms[..i + 1] == ms[..i] + [ms[i]];
    assert ms[i..][1..] == ms[i + 1..];
  }

  lemma PrefixEnds(ms: seq<Member>)
    ensures Paths(ms[..0]) == {} && Distinct(ms[..0]) && AllValid(ms[..0]) && ms[..|ms|] == ms && ms[0..] == ms
    ensures Projected(ms[|ms|..]) == 2 * BLOCK
  {
  }

  /** The writer's first loop: paths, duplicates and the projected length. */
  method Project(ms: seq<Member>) returns (r: Option<nat>)
    ensures r == if Distinct(ms) && AllValid(ms) then Some(Projected(ms)) else None
  {
    var unique: set<Path> := {};
    var projected: nat := 2 * BLOCK;
    var i: nat := 0;
    hide Valid, AllValid, Paths, Projected, Distinct;
    PrefixEnds(ms);
    while i < |ms|
      invariant i <= |ms| && unique == Paths(ms[..i]) && Distinct(ms[..i]) && AllValid(ms[..i])
      invariant projected + Projected(ms[i..]) == 2 * BLOCK + Projected(ms)
    {
      PrefixStep(ms, i);
      if !Valid(ms[i].path) { return None; }
      if ms[i].path in unique { return None; }
      unique := unique + {ms[i].path};
      projected := projected + Cost(ms[i]);
      i := i + 1;
    }
    r := Some(projected);
  }

  /** The writer. */
  method CanonicalArchive(members: seq<Member>) returns (r: Option<seq<byte>>)
    requires forall m :: m in members ==> Utf8(m.path)
    ensures r == Written(members)
  {
    hide Sorted, Projected, Valid, Utf8, Distinct, Header;
    var ordered := Sorted(members);
    SortedKeeps(members);
    var projected := Project(ordered);
    if projected.None? || projected.value > CAP { return None; }
    SortedIsCanonical(members);
    LayoutLength(ordered);
    var output: seq<byte> := [];
    var i: nat := 0;
    while i < |ordered|
      invariant i <= |ordered| && output + Layout(ordered[i..]) == Layout(ordered)
    {
      var m := ordered[i];
      assert Holds(m);
      var header := CanonicalHeader(m.path, |m.bytes|);
      ghost var rest := Layout(ordered[i + 1..]);
      assert ordered[i..][1..] == ordered[i + 1..];
      assert output + Layout(ordered[i..]) == output + header.value + m.bytes + Zeros(Pad(|m.bytes|)) + rest;
      output := output + header.value + m.bytes + Zeros(Pad(|m.bytes|));
      i := i + 1;
    }
    output := output + Zeros(2 * BLOCK);
    assert |output| == projected.value;
    r := Some(output);
  }

  function Prepend(ms: seq<Member>, r: Option<seq<Member>>): Option<seq<Member>> {
    match r case None => None case Some(rest) => Some(ms + rest)
  }

  lemma PrependTwice(a: seq<Member>, b: seq<Member>, r: Option<seq<Member>>)
    ensures Prepend(a, Prepend(b, r)) == Prepend(a + b, r) && Prepend([], r) == r
  {
    if r.Some? { assert a + (b + r.value) == a + b + r.value && [] + r.value == r.value; }
  }

  /** One turn of the parser at an offset of the whole input. */
  lemma ParseAt(bytes: seq<byte>, at: nat, last: Option<Path>)
    requires at <= |bytes|
    ensures ParseFrom(bytes[at..], last) ==
      if at + BLOCK > |bytes| then None
      else if AllZero(bytes[at..at + BLOCK]) then
        if at + 2 * BLOCK == |bytes| && AllZero(bytes[at + BLOCK..at + 2 * BLOCK]) then Some([]) else None
      else match ReadHeader(bytes[at..at + BLOCK])
        case None => None
        case Some(e) =>
          var start := at + BLOCK;
          var end := start + e.size;
          var next := end + Pad(e.size);
          if (last.Some? && !Less(last.value, e.path)) || next > |bytes| || !AllZero(bytes[end..next]) then None
          else Prepend([Member(e.path, bytes[start..end])], ParseFrom(bytes[next..], Some(e.path)))
  {
    hide ReadHeader, Less, AllZero, Pad;
    var rest := bytes[at..];
    if at + BLOCK <= |bytes| {
      assert rest[..BLOCK] == bytes[at..at + BLOCK];
      if AllZero(rest[..BLOCK]) {
        if at + 2 * BLOCK == |bytes| { assert rest[BLOCK..] == bytes[at + BLOCK..at + 2 * BLOCK]; }
      } else if ReadHeader(rest[..BLOCK]).Some? {
        var size := ReadHeader(rest[..BLOCK]).value.size;
        if BLOCK + size + Pad(size) <= |rest| { Slices(bytes, at, BLOCK, BLOCK + size, BLOCK + size + Pad(size)); }
      }
    }
  }

  lemma Slices(bytes: seq<byte>, at: nat, start: nat, end: nat, next: nat)
    requires start <= end <= next && at + next <= |bytes|
    ensures var rest := bytes[at..];
            && rest[start..end] == bytes[at + start..at + end] && rest[end..next] == bytes[at + end..at + next]
            && rest[next..] == bytes[at + next..]
  {
  }

  ghost predicate Before(paths: set<Path>, last: Option<Path>) {
    forall p :: p in paths ==> last.Some? && (p == last.value || Less(p, last.value))
  }

  /** A path after the last one is none of the earlier ones. */
  lemma NewPath(paths: set<Path>, last: Option<Path>, path: Path)
    requires Before(paths, last) && (last.Some? ==> Less(last.value, path))
    ensures path !in paths && Before(paths + {path}, Some(path))
  {
    forall p | p in paths ensures Less(p, path) && p != path {
      if p != last.value { LessTransitive(p, last.value, path); }
      LessTotal(p, path);
    }
  }

  /** The parser. Its set of paths and its member count never refuse anything:
      the order and the length already do. */
  method ParseArchive(bytes: seq<byte>) returns (r: Option<seq<Member>>)
    ensures r == Parsed(bytes)
  {
    hide ReadHeader, Less, ParseFrom, AllZero;
    if |bytes| > CAP || |bytes| < 2 * BLOCK || |bytes| % BLOCK != 0 { return None; }
    var offset: nat := 0;
    var members: seq<Member> := [];
    var last: Option<Path> := None;
    var paths: set<Path> := {};
    assert bytes[0..] == bytes;
    PrependTwice([], [], Parsed(bytes));
    while true
      invariant offset <= |bytes| && |members| * BLOCK <= offset && Before(paths, last)
      invariant Parsed(bytes) == Prepend(members, ParseFrom(bytes[offset..], last))
      decreases |bytes| - offset
    {
      ParseAt(bytes, offset, last);
      if offset + BLOCK > |bytes| { return None; }
      var header := bytes[offset..offset + BLOCK];
      if AllZero(header) {
        if offset + 2 * BLOCK > |bytes| { return None; }
        if !AllZero(bytes[offset + BLOCK..offset + 2 * BLOCK]) || offset + 2 * BLOCK != |bytes| { return None; }
        assert members + [] == members;
        return Some(members);
      }
      var e := ReadHeader(header);
      if e.None? { return None; }
      var Entry(path, size) := e.value;
      if last.Some? && !Less(last.value, path) { return None; }
      NewPath(paths, last, path);
      paths := paths + {path};
      var start := offset + BLOCK;
      var end := start + size;
      if end > |bytes| { return None; }
      var next := end + Pad(size);
      if next > |bytes| { return None; }
      if !AllZero(bytes[end..next]) { return None; }
      var m := Member(path, bytes[start..end]);
      PrependTwice(members, [m], ParseFrom(bytes[next..], Some(path)));
      members := members + [m];
      assert |members| <= MAX_MEMBERS;
      last, offset := Some(path), next;
    }
  }
}

/** The idle pool: at most eight slots, each an idle HTTP/1 connection, a
    published HTTP/2 generation, or such a generation on its way out. A
    generation is named by its transport, of which it has exactly one. */
module OwnerPool {
  import opened Bytes
  import G = GenerationControl

  const CAPACITY := 8

  datatype Entry = H1(transport: nat) | H2(transport: nat) | RetiringH2(transport: nat)

  /** First index from `from` on whose entry is `e`, or the length. */
  function IndexFrom(entries: seq<Entry>, e: Entry, from: nat): (i: nat)
    requires from <= |entries|
    ensures from <= i <= |entries| && (i < |entries| ==> entries[i] == e)
    ensures forall k :: from <= k < i ==> entries[k] != e
    decreases |entries| - from
  {
    if from == |entries| || entries[from] == e then from else IndexFrom(entries, e, from + 1)
  }

  function Retired(entries: seq<Entry>, t: nat): seq<Entry> {
    var i := IndexFrom(entries, H2(t), 0);
    if i < |entries| then entries[i := RetiringH2(t)] else entries
  }

  function Without(entries: seq<Entry>, e: Entry): (r: seq<Entry>)
    ensures |r| <= |entries| && e !in r
    ensures forall x :: x != e ==> (x in r <==> x in entries)
  {
    if entries == [] then [] else
    if entries[0] == e then Without(entries[1..], e) else [entries[0]] + Without(entries[1..], e)
  }

  function FirstH1(entries: seq<Entry>, from: nat): (i: nat)
    requires from <= |entries|
    ensures from <= i <= |entries| && (i < |entries| ==> entries[i].H1?)
    ensures forall k :: from <= k < i ==> !entries[k].H1?
    decreases |entries| - from
  {
    if from == |entries| || entries[from].H1? then from else FirstH1(entries, from + 1)
  }

  class Pool {
    var entries: seq<Entry>

    constructor ()
      ensures entries == []
    {
      entries := [];
    }

    /** Parks an entry if there is room, in one locked step. */
    method Push(e: Entry) returns (parked: bool)
      modifies this
      ensures parked == (|old(entries)| < CAPACITY)
      ensures entries == if parked then old(entries) + [e] else old(entries)
    {
      parked := |entries| < CAPACITY;
      if parked { entries := entries + [e]; }
    }

    method TakeIdle() returns (t: Option<nat>)
      modifies this
      ensures var i := FirstH1(old(entries), 0);
              if i < |old(entries)|
              then t == Some(old(entries)[i].transport) && entries == old(entries)[..i] + old(entries)[i + 1..]
              else t == None && entries == old(entries)
    {
      var i := 0;
      while i < |entries| && !entries[i].H1?
        invariant i <= |entries| && FirstH1(entries, 0) == FirstH1(entries, i)
      {
        i := i + 1;
      }
      if i == |entries| { return None; }
      t := Some(entries[i].transport);
      entries := entries[..i] + entries[i + 1..];
    }

    method RetireGeneration(t: nat)
      modifies this
      ensures entries == Retired(old(entries), t)
    {
      var i := 0;
      while i < |entries| && entries[i] != H2(t)
        invariant i <= |entries| && IndexFrom(entries, H2(t), 0) == IndexFrom(entries, H2(t), i)
      {
        i := i + 1;
      }
      if i < |entries| { entries := entries[i := RetiringH2(t)]; }
    }

    method RemoveRetiring(t: nat)
      modifies this
      ensures entries == Without(old(entries), RetiringH2(t))
    {
      var kept: seq<Entry>, i := [], 0;
      while i < |entries|
        invariant i <= |entries| && kept + Without(entries[i..], RetiringH2(t)) == Without(entries, RetiringH2(t))
      {
        assert entries[i..] == [entries[i]] + entries[i + 1..];
        if entries[i] != RetiringH2(t) { kept := kept + [entries[i]]; }
        i := i + 1;
      }
      entries := kept;
    }
  }

  /** An HTTP/2 connection that requests can be dispatched to; `master` is the
      sender kept for reservations. */
  class Generation {
    const control: G.GenerationControl
    var master: bool
    var published: bool

    constructor (control: G.GenerationControl)
      ensures this.control == control && master && !published
    {
      this.control, master, published := control, true, false;
    }

    method Retire()
      modifies this`master, control
      ensures control.View() == G.Retire(old(control.View())) && !master
    {
      control.MarkRetiring();
      master := false;
    }

    /** Offers the connection to other requests, if it may be selected and
        there is room. */
    method PublishSlot(pool: Pool) returns (done: bool)
      modifies this`published, pool
      ensures done == (control.selectable && |old(pool.entries)| < CAPACITY)
      ensures published == (old(published) || done)
      ensures pool.entries == if done then old(pool.entries) + [H2(control.id)] else old(pool.entries)
    {
      if !control.selectable { return false; }
      done := pool.Push(H2(control.id));
      if done { published := true; }
    }

    /** Retires the connection and, if it is published, its slot. */
    method RetireWithSlot(pool: Pool)
      modifies this`master, control, pool
      ensures control.View() == G.Retire(old(control.View())) && !master
      ensures pool.entries == if published then Retired(old(pool.entries), control.id) else old(pool.entries)
    {
      Retire();
      if published { pool.RetireGeneration(control.id); }
    }
  }

  // ----- no two slots for one transport -----

  predicate Distinct(entries: seq<Entry>) {
    forall i, j :: 0 <= i < j < |entries| ==> entries[i].transport != entries[j].transport
  }

  /** Retiring a generation changes its own slot, for certain, and no other. */
  lemma RetiredIsScoped(entries: seq<Entry>, t: nat)
    requires Distinct(entries)
    ensures Distinct(Retired(entries, t)) && |Retired(entries, t)| == |entries| && H2(t) !in Retired(entries, t)
    ensures forall e: Entry :: e.transport != t ==> (e in Retired(entries, t) <==> e in entries)
    ensures RetiringH2(t) in Retired(entries, t) <==> H2(t) in entries || RetiringH2(t) in entries
    ensures H1(t) in Retired(entries, t) <==> H1(t) in entries
  {
    var i := IndexFrom(entries, H2(t), 0);
    var r := Retired(entries, t);
    assert forall k :: 0 <= k < |entries| && k != i ==> r[k] == entries[k];
    if i < |entries| {
      assert r[i] == RetiringH2(t) && entries[i] == H2(t);
      assert forall e: Entry :: e.transport != t ==> (e in r <==> e in entries) by {
        forall e: Entry | e.transport != t && e in entries ensures e in r {
          var k :| 0 <= k < |entries| && entries[k] == e;
          assert r[k] == e;
        }
      }
    }
  }

  lemma {:induction false} WithoutDistinct(entries: seq<Entry>, e: Entry)
    requires Distinct(entries)
    ensures Distinct(Without(entries, e))
  {
    if entries != [] {
      var rest := entries[1..];
      assert Distinct(rest);
      WithoutDistinct(rest, e);
      var r := Without(rest, e);
      forall x | x in r ensures x.transport != entries[0].transport {
        assert x in rest;
        var k :| 0 <= k < |rest| && rest[k] == x;
        assert entries[k + 1] == x;
      }
    }
  }

  lemma RemovedDistinct(entries: seq<Entry>, i: nat)
    requires Distinct(entries) && i < |entries|
    ensures var r := entries[..i] + entries[i + 1..];
            Distinct(r) && |r| + 1 == |entries| && entries[i] !in r && forall e :: e != entries[i] ==> (e in r <==> e in entries)
  {
    var r := entries[..i] + entries[i + 1..];
    assert forall k :: 0 <= k < |r| ==> r[k] == if k < i then entries[k] else entries[k + 1];
    forall e | e != entries[i] && e in entries ensures e in r {
      var k :| 0 <= k < |entries| && entries[k] == e;
      assert k < i ==> r[k] == e;
      assert k > i ==> r[k - 1] == e;
    }
  }
}

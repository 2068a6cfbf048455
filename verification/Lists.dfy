/** The list of nucleus/vm/list.h: a doubly linked chain of live objects and a singly
    linked chain of removed ones, which are used again before anything is allocated. */
module Lists {

  /** What the source keeps in front of every object. */
  class Header {
    var prev: Header?
    var next: Header?

    constructor ()
    {
      prev, next := null, null;
    }
  }

  ghost function Nth(s: seq<Header>, k: int): Header? {
    if 0 <= k < |s| then s[k] else null
  }

  ghost predicate Distinct(s: seq<Header>) {
    forall j, k :: 0 <= j < k < |s| ==> s[j] != s[k]
  }

  ghost predicate NextAt(s: seq<Header>, k: nat)
    requires k < |s|
    reads s[k]
  {
    s[k].next == Nth(s, k + 1)
  }

  ghost predicate PrevAt(s: seq<Header>, k: nat)
    requires k < |s|
    reads s[k]
  {
    s[k].prev == Nth(s, k - 1)
  }

  /** `next` leads through `s` and ends. */
  ghost predicate Forward(s: seq<Header>)
    reads s
  {
    forall k :: 0 <= k < |s| ==> NextAt(s, k)
  }

  /** `prev` leads back through `s` and ends: the mirror of Forward. */
  ghost predicate Backward(s: seq<Header>)
    reads s
  {
    forall k :: 0 <= k < |s| ==> PrevAt(s, k)
  }

  ghost predicate Unlinked(s: seq<Header>)
    reads s
  {
    forall k :: 0 <= k < |s| ==> s[k].prev == null
  }

  ghost predicate RingAt(s: seq<Header>, k: nat)
    requires k < |s|
    reads s[k]
  {
    s[k].next == if k + 1 < |s| then s[k + 1] else s[0]
  }

  /** `next` leads around `s` for ever. */
  ghost predicate Ring(s: seq<Header>)
    reads s
  {
    s != [] && forall k :: 0 <= k < |s| ==> RingAt(s, k)
  }

  /** A chain that starts in a ring never ends. */
  lemma {:induction false} RingEndless(ring: seq<Header>, s: seq<Header>)
    requires Ring(ring) && s != [] && s[0] in ring
    ensures !Forward(s)
  {
    if Forward(s) { RingHolds(ring, s, |s| - 1); }
  }

  lemma {:induction false} RingHolds(ring: seq<Header>, s: seq<Header>, k: nat)
    requires Ring(ring) && s != [] && s[0] in ring && Forward(s) && k < |s|
    ensures s[k] in ring && NextAt(s, k) && s[k].next != null
    decreases k
  {
    if k > 0 {
      RingHolds(ring, s, k - 1);
      var j :| 0 <= j < |ring| && ring[j] == s[k - 1];
      assert NextAt(s, k - 1) && RingAt(ring, j);
    }
    var j :| 0 <= j < |ring| && ring[j] == s[k];
    assert RingAt(ring, j);
  }

  function Cut(s: seq<Header>, k: nat): (r: seq<Header>)
    requires k < |s|
    ensures |r| == |s| - 1
  {
    s[..k] + s[k + 1..]
  }

  /** Live and removed objects are disjoint, and together they are all the objects that
      were ever allocated. */
  ghost predicate Accounts(live: seq<Header>, freed: seq<Header>, nodes: set<Header>) {
    && Distinct(live) && Distinct(freed)
    && (forall k :: 0 <= k < |freed| ==> freed[k] !in live)
    && (forall h :: h in nodes ==> h in live || h in freed)
    && (forall k :: 0 <= k < |live| ==> live[k] in nodes)
    && (forall k :: 0 <= k < |freed| ==> freed[k] in nodes)
    && |live| + |freed| == |nodes|
  }

  lemma {:induction false} AccountApart(live: seq<Header>, freed: seq<Header>, nodes: set<Header>)
    requires Accounts(live, freed, nodes)
    ensures Distinct(live) && Distinct(freed) && forall k :: 0 <= k < |freed| ==> freed[k] !in live
  {
  }

  lemma {:induction false} AccountReuse(live: seq<Header>, freed: seq<Header>, nodes: set<Header>)
    requires Accounts(live, freed, nodes) && freed != []
    ensures Accounts(live + [freed[0]], freed[1..], nodes)
    ensures freed[0] !in live && freed[0] !in freed[1..]
  {
    var h := freed[0];
    forall x | x in nodes ensures x in live + [h] || x in freed[1..] {
      if x !in live && x != h {
        var k :| 0 <= k < |freed| && freed[k] == x;
        assert freed[1..][k - 1] == x;
      }
    }
  }

  lemma {:induction false} AccountFresh(live: seq<Header>, freed: seq<Header>, nodes: set<Header>, h: Header)
    requires Accounts(live, freed, nodes) && h !in nodes
    ensures Accounts(live + [h], freed, nodes + {h}) && h !in live && h !in freed
  {
  }

  lemma {:induction false} AccountRemove(live: seq<Header>, freed: seq<Header>, nodes: set<Header>, k: nat)
    requires Accounts(live, freed, nodes) && k < |live|
    ensures Accounts(Cut(live, k), [live[k]] + freed, nodes)
    ensures live[k] !in Cut(live, k) && live[k] !in freed
  {
    var h, s, f := live[k], Cut(live, k), [live[k]] + freed;
    assert forall i :: 0 <= i < |s| ==> s[i] == live[if i < k then i else i + 1];
    forall x | x in nodes ensures x in s || x in f {
      if x in live && x != h {
        var i :| 0 <= i < |live| && live[i] == x;
        assert s[if i < k then i else i - 1] == x;
      } else if x in freed {
        var i :| 0 <= i < |freed| && freed[i] == x;
        assert f[i + 1] == x;
      } else {
        assert f[0] == h;
      }
    }
  }

  class List {
    var first: Header?
    var head: Header?
    var free: Header?
    ghost var live: seq<Header>
    ghost var freed: seq<Header>
    ghost var nodes: set<Header>

    ghost predicate LiveValid()
      reads this, live
    {
      Forward(live) && Backward(live) && first == Nth(live, 0) && head == Nth(live, |live| - 1)
    }

    ghost predicate FreeValid()
      reads this, freed
    {
      Forward(freed) && Unlinked(freed) && free == Nth(freed, 0)
    }

    ghost predicate Valid()
      reads this, live, freed
    {
      Accounts(live, freed, nodes) && LiveValid() && FreeValid()
    }

    constructor ()
      ensures Valid() && live == freed == [] && nodes == {}
    {
      first, head, free := null, null, null;
      live, freed, nodes := [], [], {};
    }

    /** A removed object is used again, the last removed first; only without one is a new
        object allocated, which may fail. */
    method Append(available: bool) returns (header: Header?)
      requires Valid()
      modifies this, live, freed
      ensures Valid()
      ensures header == null ==> !available && old(freed) == freed == [] && live == old(live) && nodes == old(nodes)
      ensures header != null ==> live == old(live) + [header]
      ensures old(freed) != [] ==> header == old(freed)[0] && freed == old(freed)[1..] && nodes == old(nodes)
      ensures old(freed) == [] && header != null ==>
                available && fresh(header) && freed == [] && nodes == old(nodes) + {header}
    {
      hide Forward, Backward, Unlinked, Accounts;
      AccountApart(live, freed, nodes);
      if free != null {
        AccountReuse(live, freed, nodes);
        header := Reuse();
      } else {
        if !available { return null; }
        header := new Header();
        AccountFresh(live, freed, nodes, header);
        nodes := nodes + {header};
      }
      Push(header);
    }

    /** Takes the first removed object. */
    method Reuse() returns (header: Header)
      requires FreeValid() && free != null
      modifies this`free, this`freed
      ensures FreeValid() && old(freed) != [] && header == old(freed)[0] && freed == old(freed)[1..]
    {
      hide Forward;
      header := free;
      TailForward(freed);
      free := header.next;
      freed := freed[1..];
    }

    method Push(header: Header)
      requires LiveValid() && FreeValid() && header !in live && header !in freed
      requires forall k :: 0 <= k < |freed| ==> freed[k] !in live
      requires Distinct(live)
      modifies this`first, this`head, this`live, live, header
      ensures LiveValid() && FreeValid() && live == old(live) + [header]
    {
      ghost var s := live;
      if head != null {
        head.next := header;
        header.prev := head;
      } else {
        header.prev := null;
        first := header;
      }
      header.next := null;
      head := header;
      live := s + [header];
      forall k | 0 <= k < |live| ensures NextAt(live, k) && PrevAt(live, k) {
        if k < |s| { assert old(NextAt(s, k)) && old(PrevAt(s, k)); }
      }
      forall k | 0 <= k < |freed| ensures NextAt(freed, k) { assert old(NextAt(freed, k)); }
    }

    /** Removes the object at position `k` of the live objects followed by the removed
        ones. The list stays valid if and only if the object was live: removing it twice
        ties the removed chain into a ring, though the live objects are not disturbed. */
    method Remove(header: Header, ghost k: nat)
      requires Valid() && k < |live + freed| && (live + freed)[k] == header
      modifies this, live, freed
      ensures nodes == old(nodes) && LiveValid()
      ensures Valid() <==> k < |old(live)|
      ensures k < |old(live)| ==> live == old(live)[..k] + old(live)[k + 1..] && freed == [header] + old(freed)
      ensures k >= |old(live)| ==>
                live == old(live) && free == header && Ring([header] + old(freed)[..k - |old(live)|])
    {
      hide Accounts, Forward, Backward, Unlinked;
      ghost var s, f, n := live, freed, |live|;
      AccountApart(live, freed, nodes);
      if k < n { AccountRemove(s, f, nodes, k); }
      Unlink(header, k);
      Release(header);
      if k >= n && Valid() { RingEndless([header] + f[..k - n], freed); }
    }

    /** The first half of a removal: bridges the object, if it has neighbours. */
    method Unlink(header: Header, ghost k: nat)
      requires LiveValid() && FreeValid() && Distinct(live) && forall i :: 0 <= i < |freed| ==> freed[i] !in live
      requires k < |live + freed| && (live + freed)[k] == header
      modifies this`first, this`head, this`live, live, freed
      ensures LiveValid() && FreeValid()
      ensures live == if k < |old(live)| then Cut(old(live), k) else old(live)
    {
      ghost var s, n := live, |live|;
      if k < n { Around(s, k); } else { Around(freed, k - n); }
      if header.prev != null { header.prev.next := header.next; }
      if header.next != null { header.next.prev := header.prev; }
      if head == header { head := header.prev; }
      if first == header { first := header.next; }
      if k < n {
        live := Cut(s, k);
        forall i | 0 <= i < |live| ensures NextAt(live, i) && PrevAt(live, i) {
          var j := if i < k then i else i + 1;
          assert old(NextAt(s, j)) && old(PrevAt(s, j));
          CutAt(s, k, live, i);
        }
      } else {
        forall i | 0 <= i < |s| ensures NextAt(s, i) && PrevAt(s, i) { assert old(NextAt(s, i)) && old(PrevAt(s, i)); }
      }
      forall i | 0 <= i < |freed| ensures NextAt(freed, i) { assert old(NextAt(freed, i)); }
    }

    /** The second half: puts the object in front of the removed ones. */
    method Release(header: Header)
      requires FreeValid() && header !in live && Distinct(freed)
      modifies this`free, this`freed, header
      ensures free == header
      ensures header !in old(freed) ==> FreeValid() && freed == [header] + old(freed)
      ensures forall k :: 0 <= k < |old(freed)| && old(freed)[k] == header ==> Ring([header] + old(freed)[..k])
    {
      ghost var f := freed;
      header.next := free;
      header.prev := null;
      free := header;
      freed := [header] + f;
      if header !in f {
        forall i | 0 <= i < |freed| ensures NextAt(freed, i) {
          if i > 0 { assert old(NextAt(f, i - 1)); }
        }
      }
      forall k | 0 <= k < |f| && f[k] == header ensures Ring([header] + f[..k]) {
        var ring := [header] + f[..k];
        forall i | 0 <= i < |ring| ensures RingAt(ring, i) {
          if i > 0 { assert old(NextAt(f, i - 1)); }
        }
      }
    }

    method First() returns (r: Header?)
      requires Valid()
      ensures r == if live == [] then null else live[0]
    {
      r := first;
    }

    /** Following `next` from the first object enumerates the live ones in order. */
    method Next(header: Header, ghost k: nat) returns (r: Header?)
      requires Valid() && k < |live| && live[k] == header
      ensures r == if k + 1 < |live| then live[k + 1] else null
    {
      assert NextAt(live, k);
      r := header.next;
    }
  }

  /** The links of each object are its neighbours, and the list knows both ends and the
      first removed object. */
  lemma {:induction false} LinksOf(l: List, k: nat)
    requires l.Valid() && k < |l.live|
    ensures l.live[k].prev == (if k == 0 then null else l.live[k - 1])
    ensures l.live[k].next == (if k + 1 == |l.live| then null else l.live[k + 1])
    ensures l.first == l.live[0] && l.head == l.live[|l.live| - 1]
    ensures l.free == if l.freed == [] then null else l.freed[0]
  {
    Around(l.live, k);
  }

  /** The neighbours in a list that has lost one of its objects. */
  lemma {:induction false} CutAt(s: seq<Header>, k: nat, t: seq<Header>, i: nat)
    requires k < |s| && i < |t| && t == Cut(s, k)
    ensures t[i] == s[if i < k then i else i + 1]
    ensures Nth(t, i + 1) == Nth(s, if i + 1 < k then i + 1 else i + 2)
    ensures Nth(t, i - 1) == Nth(s, if i - 1 < k then i - 1 else i)
  {
  }

  /** The neighbours of an object. */
  lemma {:induction false} Around(s: seq<Header>, k: nat)
    requires Forward(s) && k < |s|
    ensures s[k].next == Nth(s, k + 1)
    ensures Backward(s) ==> s[k].prev == Nth(s, k - 1)
  {
    assert NextAt(s, k);
    if Backward(s) { assert PrevAt(s, k); }
  }

  lemma {:induction false} TailForward(s: seq<Header>)
    requires Forward(s) && s != []
    ensures Forward(s[1..]) && s[0].next == Nth(s[1..], 0)
  {
    assert NextAt(s, 0);
    forall k | 0 <= k < |s[1..]| ensures NextAt(s[1..], k) { assert NextAt(s, k + 1); }
  }
}

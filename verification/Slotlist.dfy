/** The slotlists of nucleus/vm/slotmap.h: any number of doubly linked lists of slots
    in one shared array of links, each known to its owner by its first slot. */
module Slotlist {
  const SLOT_NULL := 0

  datatype Entry = Entry(prev: nat, next: nat)

  ghost predicate NoRepeat(s: seq<nat>) {
    forall j, k :: 0 <= j < k < |s| ==> s[j] != s[k]
  }

  ghost function First(s: seq<nat>): nat { if s == [] then SLOT_NULL else s[0] }

  /** The links of the slot at position `k` of the list `s`. */
  ghost function EntryAt(s: seq<nat>, k: nat): Entry
    requires k < |s|
  {
    Entry(if k == 0 then SLOT_NULL else s[k - 1], if k == |s| - 1 then SLOT_NULL else s[k + 1])
  }

  ghost predicate LinkedAt(items: seq<Entry>, s: seq<nat>, k: nat) {
    k < |s| && 1 <= s[k] <= |items| && items[s[k] - 1] == EntryAt(s, k)
  }

  /** One list, read from its links in both directions. */
  ghost predicate IsList(items: seq<Entry>, s: seq<nat>) {
    NoRepeat(s) && forall k :: 0 <= k < |s| ==> LinkedAt(items, s, k)
  }

  ghost predicate Apart(s: seq<nat>, t: seq<nat>) {
    forall j, k :: 0 <= j < |s| && 0 <= k < |t| ==> s[j] != t[k]
  }

  /** The shared array holds a family of lists with no slot in common. */
  ghost predicate Family(items: seq<Entry>, lists: seq<seq<nat>>) {
    && (forall i :: 0 <= i < |lists| ==> IsList(items, lists[i]))
    && (forall i, j :: 0 <= i < j < |lists| ==> Apart(lists[i], lists[j]))
  }

  ghost predicate Unlisted(lists: seq<seq<nat>>, slot: nat) {
    forall i :: 0 <= i < |lists| ==> slot !in lists[i]
  }

  lemma {:induction false} InRange(items: seq<Entry>, s: seq<nat>, k: nat)
    requires IsList(items, s) && k < |s|
    ensures 1 <= s[k] <= |items| && items[s[k] - 1] == EntryAt(s, k)
  {
    assert LinkedAt(items, s, k);
  }

  /** The array after `slot` was put in front of the list `s`. */
  ghost function Pushed(items: seq<Entry>, s: seq<nat>, slot: nat): seq<Entry>
    requires 1 <= slot <= |items| && (s != [] ==> 1 <= s[0] <= |items|)
  {
    var a := if s == [] then items else items[s[0] - 1 := items[s[0] - 1].(prev := slot)];
    a[slot - 1 := Entry(SLOT_NULL, First(s))]
  }

  lemma {:induction false} PushList(items: seq<Entry>, s: seq<nat>, slot: nat)
    requires IsList(items, s) && 1 <= slot <= |items| && slot !in s
    ensures s != [] ==> 1 <= s[0] <= |items|
    ensures IsList(Pushed(items, s, slot), [slot] + s)
  {
    if s != [] { InRange(items, s, 0); }
    var more, t := Pushed(items, s, slot), [slot] + s;
    forall k | 0 <= k < |t| ensures LinkedAt(more, t, k) {
      if k > 0 { InRange(items, s, k - 1); }
    }
  }

  lemma {:induction false} PushOther(items: seq<Entry>, s: seq<nat>, slot: nat, t: seq<nat>)
    requires IsList(items, s) && 1 <= slot <= |items| && IsList(items, t) && slot !in t && Apart(s, t)
    ensures s != [] ==> 1 <= s[0] <= |items|
    ensures IsList(Pushed(items, s, slot), t)
  {
    if s != [] { InRange(items, s, 0); }
    forall k | 0 <= k < |t| ensures LinkedAt(Pushed(items, s, slot), t, k) { InRange(items, t, k); }
  }

  function Cut(s: seq<nat>, k: nat): seq<nat>
    requires k < |s|
  {
    s[..k] + s[k + 1..]
  }

  /** The array after the slot at position `k` has been bridged; its own links stay. */
  ghost function Bridged(items: seq<Entry>, s: seq<nat>, k: nat): (more: seq<Entry>)
    requires k < |s|
    ensures |more| == |items|
  {
    seq(|items|, i requires 0 <= i < |items| =>
      if k > 0 && i + 1 == s[k - 1] then items[i].(next := EntryAt(s, k).next)
      else if k + 1 < |s| && i + 1 == s[k + 1] then items[i].(prev := EntryAt(s, k).prev)
      else items[i])
  }

  lemma {:induction false} BridgeList(items: seq<Entry>, s: seq<nat>, k: nat)
    requires IsList(items, s) && k < |s|
    ensures IsList(Bridged(items, s, k), Cut(s, k)) && s[k] !in Cut(s, k)
  {
    var more, t := Bridged(items, s, k), Cut(s, k);
    forall j | 0 <= j < |t| ensures LinkedAt(more, t, j) {
      var i := if j < k then j else j + 1;
      InRange(items, s, i);
      assert t[j] == s[i];
    }
  }

  lemma {:induction false} BridgeOther(items: seq<Entry>, s: seq<nat>, k: nat, t: seq<nat>)
    requires IsList(items, s) && k < |s| && IsList(items, t) && Apart(s, t)
    ensures IsList(Bridged(items, s, k), t)
  {
    forall j | 0 <= j < |t| ensures LinkedAt(Bridged(items, s, k), t, j) { InRange(items, t, j); }
  }

  lemma {:induction false} ApartSymmetric(s: seq<nat>, t: seq<nat>)
    ensures Apart(s, t) <==> Apart(t, s)
  {
  }

  lemma {:induction false} PushFamily(items: seq<Entry>, lists: seq<seq<nat>>, i: nat, slot: nat)
    requires Family(items, lists) && i < |lists| && 1 <= slot <= |items| && Unlisted(lists, slot)
    ensures lists[i] != [] ==> 1 <= lists[i][0] <= |items|
    ensures Family(Pushed(items, lists[i], slot), lists[i := [slot] + lists[i]])
  {
    hide IsList, Pushed;
    var s := lists[i];
    PushList(items, s, slot);
    var more, after := Pushed(items, s, slot), lists[i := [slot] + s];
    forall j | 0 <= j < |lists| ensures IsList(more, after[j]) {
      if j != i {
        ApartSymmetric(lists[i], lists[j]);
        PushOther(items, s, slot, lists[j]);
      }
    }
    forall j, k | 0 <= j < k < |lists| ensures Apart(after[j], after[k]) {
      assert Apart(lists[j], lists[k]) && slot !in lists[j] && slot !in lists[k];
    }
  }

  lemma {:induction false} BridgeFamily(items: seq<Entry>, lists: seq<seq<nat>>, i: nat, k: nat)
    requires Family(items, lists) && i < |lists| && k < |lists[i]|
    ensures Family(Bridged(items, lists[i], k), lists[i := Cut(lists[i], k)])
    ensures Unlisted(lists[i := Cut(lists[i], k)], lists[i][k])
  {
    hide IsList, Bridged;
    var s := lists[i];
    BridgeList(items, s, k);
    var more, after := Bridged(items, s, k), lists[i := Cut(s, k)];
    forall j | 0 <= j < |lists| ensures IsList(more, after[j]) && s[k] !in after[j] {
      if j != i {
        assert IsList(items, lists[j]);
        ApartSymmetric(s, lists[j]);
        assert Apart(s, lists[j]);
        BridgeOther(items, s, k, lists[j]);
      }
    }
    forall j, l | 0 <= j < l < |lists| ensures Apart(after[j], after[l]) {
      assert Apart(lists[j], lists[l]);
    }
  }

  // ----- the shared array

  class Slotlist {
    const items: array<Entry>
    ghost var lists: seq<seq<nat>>

    ghost predicate Valid()
      reads this, items
    {
      Family(items[..], lists)
    }

    /** `count` empty lists. */
    constructor (capacity: nat, ghost count: nat)
      ensures Valid() && fresh(items) && items.Length == capacity
      ensures lists == seq(count, _ => [])
    {
      items := new Entry[capacity](_ => Entry(SLOT_NULL, SLOT_NULL));
      lists := seq(count, _ => []);
      new;
      var i := 0;
      while i < items.Length
        modifies items
      {
        items[i] := items[i].(prev := SLOT_NULL);
        items[i] := items[i].(next := SLOT_NULL);
        i := i + 1;
      }
    }

    /** Puts a slot of no list in front of list `i`, which its owner knows by `first`. */
    method AddFirst(first: nat, slot: nat, ghost i: nat) returns (newFirst: nat)
      requires Valid() && i < |lists| && first == First(lists[i])
      requires slot <= items.Length && Unlisted(lists, slot)
      modifies this, items
      ensures Valid() && |lists| == old(|lists|)
      ensures newFirst == if lists[i] == [] then 0 else lists[i][0]
      ensures lists == if slot == 0 then old(lists) else old(lists)[i := [slot] + old(lists[i])]
    {
      hide Family;
      if slot == SLOT_NULL { return first; }
      ghost var before := items[..];
      PushFamily(before, lists, i, slot);
      if first != SLOT_NULL {
        items[first - 1] := items[first - 1].(prev := slot);
        items[slot - 1] := items[slot - 1].(next := first);
      } else {
        items[slot - 1] := items[slot - 1].(next := SLOT_NULL);
      }
      items[slot - 1] := items[slot - 1].(prev := SLOT_NULL);
      assert items[..] == Pushed(before, lists[i], slot);
      lists := lists[i := [slot] + lists[i]];
      newFirst := slot;
    }

    /** Takes the slot at position `k` out of list `i`. Its own links stay behind. */
    method Remove(first: nat, slot: nat, ghost i: nat, ghost k: nat) returns (newFirst: nat)
      requires Valid() && i < |lists| && first == First(lists[i])
      requires slot != SLOT_NULL ==> k < |lists[i]| && lists[i][k] == slot
      modifies this, items
      ensures Valid() && |lists| == old(|lists|)
      ensures newFirst == if lists[i] == [] then 0 else lists[i][0]
      ensures slot == 0 ==> lists == old(lists)
      ensures slot != 0 ==>
                && lists == old(lists)[i := old(lists[i])[..k] + old(lists[i])[k + 1..]]
                && forall j :: 0 <= j < |lists| ==> slot !in lists[j]
      ensures slot != 0 ==> slot <= items.Length && items[slot - 1] == old(items[slot - 1])
    {
      hide Family;
      newFirst := first;
      if slot == SLOT_NULL { return; }
      ghost var before, s := items[..], lists[i];
      Member(before, lists, i, k);
      if k > 0 { Member(before, lists, i, k - 1); }
      if k + 1 < |s| { Member(before, lists, i, k + 1); }
      BridgeFamily(before, lists, i, k);
      var item := items[slot - 1];
      if item.prev != SLOT_NULL { items[item.prev - 1] := items[item.prev - 1].(next := item.next); }
      item := items[slot - 1];
      if item.next != SLOT_NULL { items[item.next - 1] := items[item.next - 1].(prev := item.prev); }
      assert items[..] == Bridged(before, s, k);
      if first == slot { newFirst := items[slot - 1].next; }
      lists := lists[i := Cut(s, k)];
    }

    /** Following `next` from the first slot enumerates the list. */
    function Next(slot: nat, ghost i: nat, ghost k: nat): (r: nat)
      requires Valid() && i < |lists|
      requires slot != SLOT_NULL ==> k < |lists[i]| && lists[i][k] == slot
      reads this, items
      ensures r == if slot != 0 && k + 1 < |lists[i]| then lists[i][k + 1] else 0
    {
      if slot == SLOT_NULL then SLOT_NULL
      else
        Member(items[..], lists, i, k);
        items[slot - 1].next
    }
  }

  /** The links of each slot are its neighbours in its list. */
  lemma {:induction false} LinksOf(l: Slotlist, i: nat, k: nat)
    requires l.Valid() && i < |l.lists| && k < |l.lists[i]|
    ensures var s := l.lists[i];
            && 1 <= s[k] <= l.items.Length
            && l.items[s[k] - 1].prev == (if k == 0 then 0 else s[k - 1])
            && l.items[s[k] - 1].next == (if k + 1 == |s| then 0 else s[k + 1])
  {
    Member(l.items[..], l.lists, i, k);
  }

  lemma {:induction false} Member(items: seq<Entry>, lists: seq<seq<nat>>, i: nat, k: nat)
    requires Family(items, lists) && i < |lists| && k < |lists[i]|
    ensures 1 <= lists[i][k] <= |items| && items[lists[i][k] - 1] == EntryAt(lists[i], k)
    ensures NoRepeat(lists[i])
  {
    InRange(items, lists[i], k);
  }
}

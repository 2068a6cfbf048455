/** The slotmap of nucleus/vm/slotmap.h: objects of a fixed size in one block of bytes,
    the first two bytes of every free object holding the next free slot. */
module Slotmap {
  import opened Options

  const SLOT_NULL := 0
  const SLOT_MAX := 65534

  type Byte = b: nat | b < 256

  // ----- the free chain, whatever holds the links

  function Link(c: seq<nat>, k: nat, end: nat): nat {
    if k < |c| then c[k] else end
  }

  ghost predicate LinkAt(next: seq<nat>, c: seq<nat>, k: nat)
    requires k < |c| && 1 <= c[k] <= |next|
  {
    next[c[k] - 1] == Link(c, k + 1, |next| + 1)
  }

  /** From `free` on, the links visit the slots `c`, none twice, and stop at the end mark. */
  ghost predicate IsChain(next: seq<nat>, free: nat, c: seq<nat>) {
    && (forall k :: 0 <= k < |c| ==> 1 <= c[k] <= |next|)
    && (forall j, k :: 0 <= j < k < |c| ==> c[j] != c[k])
    && free == Link(c, 0, |next| + 1)
    && (forall k :: 0 <= k < |c| ==> LinkAt(next, c, k))
  }

  ghost predicate Chained(next: seq<nat>, free: nat) {
    exists c :: IsChain(next, free, c)
  }

  /** Links and head determine the chain. */
  lemma {:induction false} ChainUnique(next: seq<nat>, free: nat, c: seq<nat>, d: seq<nat>)
    requires IsChain(next, free, c) && IsChain(next, free, d)
    ensures c == d
  {
    ChainPrefix(next, free, c, d, |c|);
    ChainPrefix(next, free, d, c, |d|);
  }

  lemma {:induction false} ChainPrefix(next: seq<nat>, free: nat, c: seq<nat>, d: seq<nat>, n: nat)
    requires IsChain(next, free, c) && IsChain(next, free, d) && n <= |c|
    ensures n <= |d| && c[..n] == d[..n]
    decreases n
  {
    if n > 0 {
      ChainPrefix(next, free, c, d, n - 1);
      if n > 1 {
        assert c[n - 2] == c[..n - 1][n - 2] == d[..n - 1][n - 2] == d[n - 2];
        assert LinkAt(next, c, n - 2) && LinkAt(next, d, n - 2);
      }
      assert Link(c, n - 1, |next| + 1) == Link(d, n - 1, |next| + 1);
      assert c[..n] == c[..n - 1] + [c[n - 1]] && d[..n] == d[..n - 1] + [d[n - 1]];
    }
  }

  lemma {:induction false} TakeFirst(next: seq<nat>, free: nat, c: seq<nat>)
    requires IsChain(next, free, c) && free <= |next|
    ensures c != [] && 1 <= free == c[0] && IsChain(next, next[free - 1], c[1..])
    ensures forall k :: 0 < k < |c| ==> c[k] != c[0]
  {
    assert LinkAt(next, c, 0);
    forall k | 0 <= k < |c[1..]| ensures LinkAt(next, c[1..], k) { assert LinkAt(next, c, k + 1); }
  }

  /** Giving a slot back keeps the links a chain if and only if the slot was not in it:
      giving it back twice ties the chain into a loop. */
  lemma {:induction false} GiveBackIff(next: seq<nat>, free: nat, c: seq<nat>, slot: nat)
    requires IsChain(next, free, c) && 1 <= slot <= |next|
    ensures Chained(next[slot - 1 := free], slot) <==> slot !in c
    ensures slot !in c ==> IsChain(next[slot - 1 := free], slot, [slot] + c)
  {
    var more := next[slot - 1 := free];
    if slot !in c {
      var d := [slot] + c;
      forall k | 0 <= k < |d| ensures LinkAt(more, d, k) { if k > 0 { assert LinkAt(next, c, k - 1); } }
      assert IsChain(more, slot, d);
    } else if Chained(more, slot) {
      var d :| IsChain(more, slot, d);
      var k :| 0 <= k < |c| && c[k] == slot;
      Loop(next, free, c, slot, d, k, k);
    }
  }

  lemma {:induction false} Loop(next: seq<nat>, free: nat, c: seq<nat>, slot: nat, d: seq<nat>, k: nat, j: nat)
    requires IsChain(next, free, c) && 1 <= slot <= |next| && IsChain(next[slot - 1 := free], slot, d)
    requires k < |c| && c[k] == slot && j <= k
    ensures j + 1 < |d| && d[j + 1] == c[j]
    decreases j
  {
    if j > 0 {
      Loop(next, free, c, slot, d, k, j - 1);
      assert LinkAt(next, c, j - 1) && LinkAt(next[slot - 1 := free], d, j);
    } else {
      assert LinkAt(next[slot - 1 := free], d, 0);
    }
  }

  /** Links of other slots may change. */
  lemma {:induction false} ChainElsewhere(next: seq<nat>, more: seq<nat>, free: nat, c: seq<nat>, slot: nat)
    requires IsChain(next, free, c) && |more| == |next| && 1 <= slot <= |next| && slot !in c
    requires forall i :: 0 <= i < |next| && i != slot - 1 ==> more[i] == next[i]
    ensures IsChain(more, free, c)
  {
    forall k | 0 <= k < |c| ensures LinkAt(more, c, k) { assert LinkAt(next, c, k); }
  }

  // ----- slots as links and objects in a block of bytes

  ghost function Word(bytes: seq<Byte>, o: nat): nat
    requires o + 1 < |bytes|
  {
    bytes[o] as nat + 256 * bytes[o + 1] as nat
  }

  /** Where the object number `i` begins. */
  function Base(size: nat, i: nat): nat { size * i }

  lemma {:induction false} BaseIs(size: nat, i: nat)
    ensures Base(size, i) == size * i
  {
  }

  lemma {:induction false} Fits(size: nat, i: nat, n: nat)
    requires i < n
    ensures Base(size, i) + size <= Base(size, n)
  {
    var d := n - (i + 1);
    assert size * n == size * i + size + size * d;
  }

  ghost predicate Inside(size: nat, i: nat, p: nat) {
    Base(size, i) <= p < Base(size, i) + size
  }

  lemma {:induction false} Apart(size: nat, i: nat, j: nat, p: nat)
    requires i != j && Inside(size, i, p)
    ensures !Inside(size, j, p)
  {
    hide Base;
    if i < j { Fits(size, i, j); } else { Fits(size, j, i); }
  }

  ghost function Links(bytes: seq<Byte>, size: nat, n: nat): (next: seq<nat>)
    requires size >= 2 && |bytes| == Base(size, n)
    ensures |next| == n
  {
    seq(n, i requires 0 <= i < n => (Fits(size, i, n); Word(bytes, Base(size, i))))
  }

  ghost function ObjectAt(bytes: seq<Byte>, size: nat, n: nat, i: nat): (o: seq<Byte>)
    requires |bytes| == Base(size, n) && i < n
    ensures |o| == size
  {
    Fits(size, i, n);
    bytes[Base(size, i)..Base(size, i) + size]
  }

  /** Only bytes of the object `i` differ. */
  ghost predicate SameOutside(b: seq<Byte>, b1: seq<Byte>, size: nat, i: nat) {
    |b1| == |b| && forall p :: 0 <= p < |b| && !Inside(size, i, p) ==> b1[p] == b[p]
  }

  /** Then no other link and no other object changes. */
  lemma {:induction false} OthersSame(b: seq<Byte>, b1: seq<Byte>, size: nat, n: nat, i: nat)
    requires size >= 2 && |b| == Base(size, n) && i < n && SameOutside(b, b1, size, i)
    ensures forall j :: 0 <= j < n && j != i ==> Links(b1, size, n)[j] == Links(b, size, n)[j]
    ensures forall j :: 0 <= j < n && j != i ==> ObjectAt(b1, size, n, j) == ObjectAt(b, size, n, j)
  {
    hide Base;
    forall j | 0 <= j < n && j != i
      ensures Links(b1, size, n)[j] == Links(b, size, n)[j] && ObjectAt(b1, size, n, j) == ObjectAt(b, size, n, j)
    {
      Fits(size, j, n);
      forall p: nat | Inside(size, j, p) ensures b1[p] == b[p] { Apart(size, j, i, p); }
      assert Inside(size, j, Base(size, j)) && Inside(size, j, Base(size, j) + 1);
    }
  }

  function Low(v: nat): Byte { v % 256 }

  function High(v: nat): Byte
    requires v < 0x1_0000
  {
    v / 256
  }

  ghost function Stored(b: seq<Byte>, o: nat, v: nat): seq<Byte>
    requires o + 1 < |b| && v < 0x1_0000
  {
    b[o := Low(v)][o + 1 := High(v)]
  }

  lemma {:induction false} StoreLink(b: seq<Byte>, size: nat, n: nat, i: nat, v: nat)
    requires size >= 2 && |b| == Base(size, n) && i < n && v < 0x1_0000
    ensures Base(size, i) + 1 < |b|
    ensures var b1 := Stored(b, Base(size, i), v);
            && Links(b1, size, n) == Links(b, size, n)[i := v]
            && SameOutside(b, b1, size, i) && ObjectAt(b1, size, n, i)[2..] == ObjectAt(b, size, n, i)[2..]
  {
    hide Base;
    Fits(size, i, n);
    var b1 := Stored(b, Base(size, i), v);
    OthersSame(b, b1, size, n, i);
    assert Links(b1, size, n) == Links(b, size, n)[i := v];
  }

  lemma {:induction false} LoadLink(b: seq<Byte>, size: nat, n: nat, i: nat)
    requires size >= 2 && |b| == Base(size, n) && i < n
    ensures Base(size, i) + 1 < |b| && Links(b, size, n)[i] == Word(b, Base(size, i))
  {
    hide Base;
    Fits(size, i, n);
  }

  function Reversed(s: seq<nat>): (r: seq<nat>)
    ensures |r| == |s| && forall k :: 0 <= k < |s| ==> r[k] == s[|s| - 1 - k]
  {
    seq(|s|, k requires 0 <= k < |s| => s[|s| - 1 - k])
  }

  ghost predicate Distinct(s: seq<nat>) {
    forall j, k :: 0 <= j < k < |s| ==> s[j] != s[k]
  }

  ghost function Among(s: seq<nat>): set<nat> { set x | x in s }

  lemma {:induction false} Snoc(s: seq<nat>, i: nat)
    requires i < |s|
    ensures Reversed(s[..i + 1]) == [s[i]] + Reversed(s[..i])
    ensures Among(s[..i + 1]) == Among(s[..i]) + {s[i]} && s[i] in Among(s)
    ensures Distinct(s) ==> s[i] !in Among(s[..i])
  {
    assert s[..i + 1] == s[..i] + [s[i]];
  }

  lemma {:induction false} SameMembers(s: seq<nat>)
    ensures Among(Reversed(s)) == Among(s)
  {
    forall x | x in s ensures x in Reversed(s) {
      var k :| 0 <= k < |s| && s[k] == x;
      assert Reversed(s)[|s| - 1 - k] == x;
    }
  }

  /** The slots in the order in which a new slotmap hands them out. */
  function Counting(n: nat): (c: seq<nat>)
    ensures |c| == n && forall k :: 0 <= k < n ==> c[k] == k + 1
  {
    seq(n, k => k + 1)
  }

  // ----- the slotmap object

  class Slotmap {
    const capacity: nat
    const size: nat
    const data: array<Byte>
    var free: nat
    ghost var chain: seq<nat>
    ghost var live: set<nat>

    /** The free chain holds exactly the slots that are not live. */
    ghost predicate Valid()
      reads this, data
    {
      && 2 <= size && 0 < capacity <= SLOT_MAX && data.Length == Base(size, capacity)
      && IsChain(Links(data[..], size, capacity), free, chain)
      && FreeAre(capacity, chain, live)
    }

    ghost function Object(slot: nat): seq<Byte>
      requires Valid() && 1 <= slot <= capacity
      reads this, data
    {
      ObjectAt(data[..], size, capacity, slot - 1)
    }

    constructor (objSize: nat, count: nat)
      requires 2 <= objSize && 0 < count <= SLOT_MAX
      ensures Valid() && fresh(data) && capacity == count && size == objSize
      ensures data.Length == objSize * count && free == 1
      ensures live == {} && |chain| == count && forall k :: 0 <= k < count ==> chain[k] == k + 1
    {
      hide Base;
      capacity, size, free := count, objSize, 1;
      data := new Byte[Base(objSize, count)](_ => 0);
      chain := Counting(count);
      live := {};
      new;
      var i := 0;
      while i < capacity
        modifies data
        invariant i <= capacity
        invariant forall j :: 0 <= j < i ==> Links(data[..], size, capacity)[j] == j + 2
      {
        StoreLink(data[..], size, capacity, i, i + 2);
        ghost var before := data[..];
        data[Base(size, i)] := Low(i + 2);
        data[Base(size, i) + 1] := High(i + 2);
        assert data[..] == Stored(before, Base(size, i), i + 2);
        i := i + 1;
      }
      StartChain(Links(data[..], size, capacity));
      BaseIs(size, capacity);
    }

    /** Where the object of a slot lies. */
    function Get(slot: nat): (r: Option<nat>)
      requires Valid() && slot <= capacity
      reads this, data
      ensures slot == 0 <==> r == None
      ensures slot != 0 ==>
                && r.value == size * (slot - 1) && r.value + size <= data.Length
                && data[r.value..r.value + size] == Object(slot)
    {
      if slot == SLOT_NULL then None
      else
        Fits(size, slot - 1, capacity);
        assert data[..][Base(size, slot - 1)..Base(size, slot - 1) + size]
               == data[Base(size, slot - 1)..Base(size, slot - 1) + size];
        Some(Base(size, slot - 1))
    }

    /** Takes the head of the free chain; no byte changes. */
    method Add() returns (slot: nat)
      requires Valid() && free <= capacity
      modifies this
      ensures Valid() && slot == old(free) == old(chain)[0] && 1 <= slot <= capacity
      ensures slot !in old(live) && live == old(live) + {slot} && chain == old(chain)[1..]
    {
      hide Base, IsChain, Links;
      slot := free;
      TakeFirst(Links(data[..], size, capacity), free, chain);
      LoadLink(data[..], size, capacity, slot - 1);
      TakeLive(capacity, chain, live);
      free := data[Base(size, slot - 1)] as nat + 256 * data[Base(size, slot - 1) + 1] as nat;
      chain := chain[1..];
      live := live + {slot};
    }

    /** Puts the slot at the head of the free chain; only its first two bytes change. */
    method Remove(slot: nat)
      requires Valid() && (slot == 0 || slot in live)
      modifies this, data
      ensures Valid() && live == old(live) - {slot}
      ensures chain == (if slot == 0 then [] else [slot]) + old(chain)
      ensures free == if slot == 0 then old(free) else slot
      ensures forall s :: s in live ==> Object(s) == old(Object(s))
      ensures slot in old(live) ==> Object(slot)[2..] == old(Object(slot))[2..]
    {
      hide Base, IsChain, Links, ObjectAt;
      if slot == SLOT_NULL {
        assert [] + chain == chain;
        assert live - {slot} == live;
        return;
      }
      ghost var before := data[..];
      GiveBackIff(Links(before, size, capacity), free, chain, slot);
      FreeBound(Links(before, size, capacity), free, chain);
      StoreLink(before, size, capacity, slot - 1, free);
      GiveLive(capacity, chain, live, slot);
      data[Base(size, slot - 1)] := Low(free);
      data[Base(size, slot - 1) + 1] := High(free);
      assert data[..] == Stored(before, Base(size, slot - 1), free);
      OthersSame(before, data[..], size, capacity, slot - 1);
      free := slot;
      chain := [slot] + chain;
      live := live - {slot};
    }

    /** A client writing through the pointer it got for a live slot: no other object and
        no link changes. */
    method Write(slot: nat, k: nat, b: Byte)
      requires Valid() && slot in live && k < size
      modifies data
      ensures Valid()
      ensures Object(slot) == old(Object(slot))[k := b]
      ensures forall s :: s in live && s != slot ==> Object(s) == old(Object(s))
    {
      hide Base, IsChain, Links;
      ghost var before := data[..];
      Fits(size, slot - 1, capacity);
      data[Base(size, slot - 1) + k] := b;
      assert data[..] == before[Base(size, slot - 1) + k := b];
      OthersSame(before, data[..], size, capacity, slot - 1);
      ChainElsewhere(Links(before, size, capacity), Links(data[..], size, capacity), free, chain, slot);
    }

    /** Puts back slots one after the other. */
    method RemoveAll(slots: seq<nat>)
      requires Valid() && Distinct(slots) && Among(slots) <= live
      modifies this, data
      ensures Valid() && live == old(live) - Among(slots) && chain == Reversed(slots) + old(chain)
      ensures forall s :: s in live ==> Object(s) == old(Object(s))
    {
      hide Base, IsChain, Links, ObjectAt;
      assert chain == Reversed(slots[..0]) + chain;
      for i := 0 to |slots|
        invariant Valid() && live == old(live) - Among(slots[..i]) && chain == Reversed(slots[..i]) + old(chain)
        invariant forall s :: s in live ==> Object(s) == old(Object(s))
      {
        Snoc(slots, i);
        Remove(slots[i]);
        assert chain == Reversed(slots[..i + 1]) + old(chain);
      }
      assert slots[..|slots|] == slots;
    }

    /** Takes as many slots as asked for; no byte changes. */
    method AddAll(n: nat) returns (slots: seq<nat>)
      requires Valid() && n <= |chain|
      modifies this
      ensures Valid() && slots == old(chain)[..n] && chain == old(chain)[n..] && live == old(live) + Among(slots)
    {
      slots := [];
      for i := 0 to n
        invariant Valid() && slots == old(chain)[..i] && chain == old(chain)[i..] && live == old(live) + Among(slots)
      {
        var slot := Add();
        slots := slots + [slot];
      }
    }

    /** Slots that are put back come back in the reverse order, and then the same slots
        are free and live as before. */
    method Recycle(slots: seq<nat>) returns (back: seq<nat>)
      requires Valid() && Distinct(slots) && Among(slots) <= live
      modifies this, data
      ensures Valid() && back == Reversed(slots) && chain == old(chain) && live == old(live)
      ensures forall s :: s in live && s !in slots ==> Object(s) == old(Object(s))
    {
      RemoveAll(slots);
      assert chain[..|slots|] == Reversed(slots) && chain[|slots|..] == old(chain);
      back := AddAll(|slots|);
      SameMembers(slots);
    }
  }

  ghost predicate FreeAre(n: nat, c: seq<nat>, live: set<nat>) {
    && (forall s :: s in live ==> 1 <= s <= n && s !in c)
    && (forall s :: 1 <= s <= n && s !in live ==> s in c)
  }

  /** The first two bytes of a free object are the next free slot, or one more than the last
      slot if there is none. */
  lemma {:induction false} FreeLinks(m: Slotmap, k: nat)
    requires m.Valid() && k < |m.chain|
    ensures 1 <= m.chain[k] <= m.capacity
    ensures var p := m.size * (m.chain[k] - 1);
            && p + 1 < m.data.Length
            && m.data[p] as nat + 256 * m.data[p + 1] as nat
               == if k + 1 < |m.chain| then m.chain[k + 1] else m.capacity + 1
    ensures m.free == if m.chain == [] then m.capacity + 1 else m.chain[0]
  {
    hide Links;
    var next := Links(m.data[..], m.size, m.capacity);
    assert LinkAt(next, m.chain, k);
    LoadLink(m.data[..], m.size, m.capacity, m.chain[k] - 1);
    BaseIs(m.size, m.chain[k] - 1);
  }

  /** Free and live slots together are all slots: the chain runs dry exactly when every
      slot is live. */
  lemma {:induction false} FreeCount(next: seq<nat>, free: nat, c: seq<nat>, live: set<nat>)
    requires IsChain(next, free, c) && FreeAre(|next|, c, live)
    ensures |c| + |live| == |next|
    ensures free <= |next| <==> |live| < |next|
  {
    AllSlots(|next|);
    Elements(c);
    assert Members(c) + live == Slots(|next|);
    assert Members(c) !! live;
  }

  function Slots(n: nat): set<nat> { if n == 0 then {} else Slots(n - 1) + {n} }

  function Members(c: seq<nat>): set<nat> { if c == [] then {} else Members(c[..|c| - 1]) + {c[|c| - 1]} }

  lemma {:induction false} AllSlots(n: nat)
    ensures |Slots(n)| == n && forall s: nat :: s in Slots(n) <==> 1 <= s <= n
    decreases n
  {
    if n > 0 { AllSlots(n - 1); }
  }

  lemma {:induction false} Elements(c: seq<nat>)
    ensures forall s :: s in Members(c) <==> s in c
    ensures (forall j, k :: 0 <= j < k < |c| ==> c[j] != c[k]) ==> |Members(c)| == |c|
    decreases c
  {
    if c != [] {
      Elements(c[..|c| - 1]);
      assert c == c[..|c| - 1] + [c[|c| - 1]];
    }
  }

  lemma {:induction false} TakeLive(n: nat, c: seq<nat>, live: set<nat>)
    requires FreeAre(n, c, live) && c != [] && 1 <= c[0] <= n && forall k :: 0 < k < |c| ==> c[k] != c[0]
    ensures c[0] !in live && FreeAre(n, c[1..], live + {c[0]})
  {
    forall s | 1 <= s <= n && s !in live + {c[0]} ensures s in c[1..] {
      var k :| 0 <= k < |c| && c[k] == s;
      assert c[1..][k - 1] == s;
    }
  }

  lemma {:induction false} GiveLive(n: nat, c: seq<nat>, live: set<nat>, slot: nat)
    requires FreeAre(n, c, live) && slot in live
    ensures FreeAre(n, [slot] + c, live - {slot})
  {
    forall s | 1 <= s <= n && s !in live - {slot} ensures s in [slot] + c {
      if s == slot { assert ([slot] + c)[0] == s; }
    }
  }

  lemma {:induction false} FreeBound(next: seq<nat>, free: nat, c: seq<nat>)
    requires IsChain(next, free, c)
    ensures 1 <= free <= |next| + 1
  {
  }

  lemma {:induction false} StartChain(next: seq<nat>)
    requires next != [] && forall j :: 0 <= j < |next| ==> next[j] == j + 2
    ensures IsChain(next, 1, Counting(|next|)) && FreeAre(|next|, Counting(|next|), {})
  {
    var c := Counting(|next|);
    forall s | 1 <= s <= |next| ensures s in c { assert c[s - 1] == s; }
  }
}

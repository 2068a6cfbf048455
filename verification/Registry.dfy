/** The archetype registry of nucleus/vm/table.h: two arrays that only grow, the fields
    of every archetype one after the other. */
module Registry {
  import opened Options
  import opened Tokens
  import opened Strings

  const U16 := 0x1_0000
  const CHUNK_SIZE := 4096
  const CHUNK_NONE := 0xffff

  datatype Field = Field(name: seq<Byte>, prim: Primitive, archetype: nat)

  datatype Entry = Entry(
    name: seq<Byte>, capacity: nat, entrySize: nat, firstChunk: nat, firstField: nat, fieldCount: nat, next: nat)

  /** An archetype as it was registered. */
  datatype Archetype = Archetype(name: seq<Byte>, fields: seq<Field>)

  function FieldTypeSize(p: Primitive): (n: nat)
    ensures 0 < n <= 16
  {
    match p
    case VEC3 => 12
    case QUAT => 16
    case ENTITY => 8
    case _ => 4
  }

  function Stored(f: Field): Field { f.(name := Clip(f.name)) }

  function AllStored(fs: seq<Field>): (r: seq<Field>)
    ensures |r| == |fs|
  {
    seq(|fs|, k requires 0 <= k < |fs| => Stored(fs[k]))
  }

  lemma {:induction false} StoredSnoc(fs: seq<Field>, i: nat)
    requires i < |fs|
    ensures |AllStored(fs)| == |fs| && AllStored(fs)[..i + 1] == AllStored(fs)[..i] + [Stored(fs[i])]
  {
  }

  // ----- finding by hash

  /** The id of the newest archetype whose name has this hash, or 0. */
  function FindIn(reg: seq<Archetype>, uid: nat): nat {
    if reg == [] then 0
    else if Fnv(reg[|reg| - 1].name) == uid then |reg|
    else FindIn(reg[..|reg| - 1], uid)
  }

  /** The position of the first field whose name has this hash. */
  function FindAt(fs: seq<Field>, uid: nat): Option<nat>
    decreases |fs|
  {
    if fs == [] then None
    else if Fnv(fs[0].name) == uid then Some(0)
    else match FindAt(fs[1..], uid) case None => None case Some(k) => Some(k + 1)
  }

  lemma {:induction false} FindAtFirst(fs: seq<Field>, uid: nat)
    ensures match FindAt(fs, uid)
            case None => forall j :: 0 <= j < |fs| ==> Fnv(fs[j].name) != uid
            case Some(k) => k < |fs| && Fnv(fs[k].name) == uid && forall j :: 0 <= j < k ==> Fnv(fs[j].name) != uid
    decreases |fs|
  {
    hide Fnv;
    if fs != [] {
      FindAtFirst(fs[1..], uid);
      assert forall j :: 0 < j < |fs| ==> fs[j] == fs[1..][j - 1];
    }
  }

  /** What the field lookup answers: a position among all fields, or 0. */
  function FieldResult(begin: nat, fs: seq<Field>, uid: nat): nat {
    match FindAt(fs, uid) case None => 0 case Some(k) => begin + k
  }

  /** The answer 0 always means that there is no such field, if and only if the archetype
      does not own field 0. */
  lemma {:induction false} ZeroMeansNone(begin: nat, fs: seq<Field>)
    ensures (forall uid: nat :: FieldResult(begin, fs, uid) == 0 ==> FindAt(fs, uid) == None) <==> begin > 0 || fs == []
  {
    hide Fnv;
    if begin == 0 && fs != [] {
      assert FindAt(fs, Fnv(fs[0].name)) == Some(0);
      assert FieldResult(begin, fs, Fnv(fs[0].name)) == 0;
    }
  }

  lemma {:induction false} FindInNewest(reg: seq<Archetype>, uid: nat)
    ensures var r := FindIn(reg, uid);
            && r <= |reg| && (r > 0 ==> Fnv(reg[r - 1].name) == uid)
            && forall j :: r <= j < |reg| ==> Fnv(reg[j].name) != uid
    decreases reg
  {
    hide Fnv;
    if reg != [] { FindInNewest(reg[..|reg| - 1], uid); }
  }

  /** An archetype is found by its own name if and only if no later name hashes alike. */
  lemma {:induction false} FoundIff(reg: seq<Archetype>, i: nat)
    requires i < |reg|
    ensures FindIn(reg, Fnv(reg[i].name)) == i + 1
       <==> forall j :: i < j < |reg| ==> Fnv(reg[j].name) != Fnv(reg[i].name)
  {
    hide Fnv;
    FindInNewest(reg, Fnv(reg[i].name));
  }

  /** In particular it is not shadowed by names that differ from it in exactly one byte. */
  lemma {:induction false} NotShadowed(reg: seq<Archetype>, i: nat)
    requires i < |reg|
    requires forall j :: i < j < |reg| ==>
               (exists k :: DifferOnce(reg[i].name, reg[j].name, k)) || Fnv(reg[j].name) != Fnv(reg[i].name)
    ensures FindIn(reg, Fnv(reg[i].name)) == i + 1
  {
    hide Fnv;
    forall j | i < j < |reg| ensures Fnv(reg[j].name) != Fnv(reg[i].name) {
      if exists k :: DifferOnce(reg[i].name, reg[j].name, k) {
        var k :| DifferOnce(reg[i].name, reg[j].name, k);
        OneByteShows(reg[i].name, reg[j].name, k);
      }
    }
    FoundIff(reg, i);
  }

  /** The compiler looks for the hash of the full name, but the registry keeps thirty bytes
      of it: a new archetype is found by the name it was registered under if and only if
      that makes no difference to the hash. */
  lemma {:induction false} RegisteredIff(reg: seq<Archetype>, name: seq<Byte>, fs: seq<Field>)
    ensures FindIn(reg + [Archetype(Clip(name), fs)], Fnv(name)) == |reg| + 1 <==> Fnv(Clip(name)) == Fnv(name)
    ensures |name| <= IDENT_MAX ==> FindIn(reg + [Archetype(Clip(name), fs)], Fnv(name)) == |reg| + 1
  {
    hide Fnv;
    var more := reg + [Archetype(Clip(name), fs)];
    FindInNewest(reg, Fnv(name));
    assert more[..|reg|] == reg;
  }

  /** Of two names that differ in one byte beyond the thirtieth, at least one is lost: it is
      not found by the name it was registered under. */
  lemma {:induction false} LongNameLost(reg: seq<Archetype>, s: seq<Byte>, t: seq<Byte>, k: nat, fs: seq<Field>)
    requires DifferOnce(s, t, k) && k >= IDENT_MAX
    ensures FindIn(reg + [Archetype(Clip(s), fs)], Fnv(s)) != |reg| + 1
            || FindIn(reg + [Archetype(Clip(t), fs)], Fnv(t)) != |reg| + 1
  {
    hide Fnv;
    RegisteredIff(reg, s, fs);
    RegisteredIff(reg, t, fs);
    assert Clip(s) == Clip(t);
    OneByteShows(s, t, k);
  }

  // ----- the arrays

  /** Where the fields of archetype `i` end. */
  ghost function EndOf(es: seq<Entry>, i: nat, fieldCount: nat): nat
    requires i < |es|
  {
    if i + 1 < |es| then es[i + 1].firstField else fieldCount
  }

  ghost predicate EntryValid(es: seq<Entry>, i: nat, fieldCount: nat)
    requires i < |es|
  {
    && es[i].next == i
    && es[i].firstField + es[i].fieldCount == EndOf(es, i, fieldCount) <= fieldCount
    && es[i].firstChunk == 0xffff
  }

  /** Slices of fields follow each other and tile the fields; each entry's `next` is the
      archetype before it. */
  ghost predicate Tiled(es: seq<Entry>, fieldCount: nat) {
    && (if es == [] then fieldCount == 0 else es[0].firstField == 0)
    && forall i :: 0 <= i < |es| ==> EntryValid(es, i, fieldCount)
  }

  ghost function ArchetypeAt(es: seq<Entry>, fs: seq<Field>, i: nat): Archetype
    requires Tiled(es, |fs|) && i < |es|
  {
    assert EntryValid(es, i, |fs|);
    Archetype(es[i].name, fs[es[i].firstField..es[i].firstField + es[i].fieldCount])
  }

  ghost function Registered(es: seq<Entry>, fs: seq<Field>): (reg: seq<Archetype>)
    requires Tiled(es, |fs|)
    ensures |reg| == |es|
  {
    seq(|es|, i requires 0 <= i < |es| => ArchetypeAt(es, fs, i))
  }

  /** A new archetype at the end leaves all others as they were. */
  lemma {:induction false} Registering(es: seq<Entry>, fs: seq<Field>, e: Entry, more: seq<Field>)
    requires Tiled(es, |fs|)
    requires e.next == |es| && e.firstField == |fs| && e.fieldCount == |more|
    requires e.firstChunk == CHUNK_NONE
    ensures Tiled(es + [e], |fs + more|)
    ensures Registered(es + [e], fs + more) == Registered(es, fs) + [Archetype(e.name, more)]
  {
    var es1, fs1 := es + [e], fs + more;
    forall i | 0 <= i < |es1| ensures EntryValid(es1, i, |fs1|) {
      if i < |es| { assert EntryValid(es, i, |fs|); }
    }
    forall i | 0 <= i < |es1|
      ensures ArchetypeAt(es1, fs1, i) == (if i < |es| then ArchetypeAt(es, fs, i) else Archetype(e.name, more))
    {
      if i < |es| { assert EntryValid(es, i, |fs|); }
    }
    assert Registered(es1, fs1) == Registered(es, fs) + [Archetype(e.name, more)];
  }

  /** An entry of a table is as long as its fields are together, in 16 bits, and a chunk of
      4096 bytes has as many entries as fit, each with four bytes for its entity and two for
      its index. */
  ghost predicate EntrySized(e: Entry, a: Archetype) {
    && e.entrySize == EntrySizeOf(a.fields) % 0x1_0000
    && e.capacity * (e.entrySize + 6) <= 4096 < (e.capacity + 1) * (e.entrySize + 6)
  }

  ghost predicate Sized(es: seq<Entry>, reg: seq<Archetype>)
    requires |es| == |reg|
  {
    forall i :: 0 <= i < |es| ==> EntrySized(es[i], reg[i])
  }

  lemma {:induction false} SizedSnoc(es: seq<Entry>, reg: seq<Archetype>, e: Entry, a: Archetype)
    requires |es| == |reg| && Sized(es, reg) && EntrySized(e, a)
    ensures Sized(es + [e], reg + [a])
  {
    hide EntrySized;
  }

  /** The bytes of each field, by its type. */
  lemma {:induction false} EntrySizes(fs: seq<Field>, f: Field)
    ensures EntrySizeOf([]) == 0
    ensures EntrySizeOf(fs + [f])
         == EntrySizeOf(fs)
           + (if f.prim == VEC3 then 12 else if f.prim == QUAT then 16 else if f.prim == ENTITY then 8 else 4)
  {
    assert (fs + [f])[..|fs|] == fs;
  }

  /** A field is stored with its type and its archetype, under the first thirty bytes of
      its name. */
  lemma {:induction false} StoredAt(fs: seq<Field>, k: nat)
    requires k < |fs|
    ensures var f, g := fs[k], AllStored(fs)[k];
            && g.prim == f.prim && g.archetype == f.archetype
            && g.name == if |f.name| <= 30 then f.name else f.name[..30]
  {
  }

  lemma {:induction false} StoredSize(fs: seq<Field>)
    ensures EntrySizeOf(AllStored(fs)) == EntrySizeOf(fs)
    decreases fs
  {
    if fs != [] {
      StoredSize(fs[..|fs| - 1]);
      assert AllStored(fs)[..|fs| - 1] == AllStored(fs[..|fs| - 1]);
    }
  }

  /** No field belongs to two archetypes, and every field belongs to one. */
  lemma {:induction false} SlicesDisjoint(es: seq<Entry>, n: nat, i: nat, j: nat)
    requires Tiled(es, n) && i < j < |es|
    ensures es[i].firstField + es[i].fieldCount <= es[j].firstField
    decreases j - i
  {
    assert EntryValid(es, i, n);
    if i + 1 < j {
      SlicesDisjoint(es, n, i + 1, j);
    }
  }

  lemma {:induction false} FieldOwned(es: seq<Entry>, n: nat, f: nat, i: nat)
    requires Tiled(es, n) && f < n && i <= |es| && (i == |es| || f < es[i].firstField)
    ensures exists j :: 0 <= j < i && es[j].firstField <= f < es[j].firstField + es[j].fieldCount
    decreases i
  {
    if i > 0 {
      assert EntryValid(es, i - 1, n);
      if f < es[i - 1].firstField { FieldOwned(es, n, f, i - 1); }
    }
  }

  function EntrySizeOf(fs: seq<Field>): nat {
    if fs == [] then 0 else EntrySizeOf(fs[..|fs| - 1]) + FieldTypeSize(fs[|fs| - 1].prim)
  }

  // ----- the registry object

  class TableManager {
    const archetypes: array<Entry>
    const fields: array<Field>
    const chunks: array<nat>
    var archetypeCount: nat
    var fieldCount: nat
    var firstArchetype: nat
    var freeChunk: nat

    ghost predicate Valid()
      reads this, archetypes, fields
    {
      && archetypes.Length < U16 && fields.Length < U16
      && archetypeCount <= archetypes.Length && fieldCount <= fields.Length
      && firstArchetype == archetypeCount
      && Tiled(archetypes[..archetypeCount], fieldCount)
      && Sized(archetypes[..archetypeCount], Registered(archetypes[..archetypeCount], fields[..fieldCount]))
    }

    ghost function Contents(): (reg: seq<Archetype>)
      requires Valid()
      reads this, archetypes, fields
      ensures |reg| == archetypeCount
    {
      Registered(archetypes[..archetypeCount], fields[..fieldCount])
    }

    /** No archetype is registered, and every chunk is free, in ascending order. */
    constructor (archetypeCapacity: nat, fieldCapacity: nat, chunkCapacity: nat)
      requires 0 < archetypeCapacity < U16 && 0 < fieldCapacity < U16 && 0 < chunkCapacity < U16
      ensures Valid() && fresh(archetypes) && fresh(fields) && fresh(chunks) && Contents() == []
      ensures archetypes.Length == archetypeCapacity && fields.Length == fieldCapacity
      ensures chunks.Length == chunkCapacity && freeChunk == 0
      ensures forall i :: 0 <= i < chunkCapacity ==> chunks[i] == if i + 1 < chunkCapacity then i + 1 else 0xffff
    {
      archetypes := new Entry[archetypeCapacity](_ => Entry([], 0, 0, 0, 0, 0, 0));
      fields := new Field[fieldCapacity](_ => Field([], UNKNOWN, 0));
      chunks := new nat[chunkCapacity](_ => 0);
      archetypeCount, fieldCount, firstArchetype, freeChunk := 0, 0, 0, 0;
      new;
      for i := 0 to chunkCapacity
        modifies chunks
        invariant forall j :: 0 <= j < i ==> chunks[j] == j + 1
      {
        chunks[i] := i + 1;
      }
      chunks[chunkCapacity - 1] := CHUNK_NONE;
    }

    method EntrySize(fs: seq<Field>) returns (size: nat)
      ensures size == EntrySizeOf(fs) % U16
    {
      size := 0;
      var i := 0;
      while i < |fs|
        invariant i <= |fs| && size == EntrySizeOf(fs[..i])
      {
        assert fs[..i + 1][..i] == fs[..i];
        size := size + FieldTypeSize(fs[i].prim);
        i := i + 1;
      }
      assert fs[..i] == fs;
      size := size % U16;
    }

    /** Registers an archetype, unless one of the arrays is too short for it. Nothing
        that was registered before changes. */
    method Create(name: seq<Byte>, fs: seq<Field>) returns (ok: bool, archetype: nat)
      requires Valid()
      modifies this, archetypes, fields
      ensures Valid()
      ensures ok <==> old(archetypeCount) < archetypes.Length && old(fieldCount) + |fs| <= fields.Length
      ensures ok ==>
                archetype == |old(Contents())| + 1
                && Contents() == old(Contents()) + [Archetype(Clip(name), AllStored(fs))]
                && var e := archetypes[archetype - 1];
                   && e.entrySize == EntrySizeOf(fs) % 0x1_0000
                   && e.capacity * (e.entrySize + 6) <= 4096 < (e.capacity + 1) * (e.entrySize + 6)
      ensures !ok ==> archetype == 0 && Contents() == old(Contents())
    {
      hide Clip, Tiled, Registered, AllStored, EntrySizeOf, Sized, EntrySized;
      if archetypeCount + 1 > archetypes.Length || fieldCount + |fs| > fields.Length { return false, 0; }
      ghost var es, all := archetypes[..archetypeCount], fields[..fieldCount];
      var firstField := fieldCount;
      var i := 0;
      while i < |fs|
        modifies this`fieldCount, fields
        invariant i <= |fs| && fieldCount == firstField + i
        invariant fields[..fieldCount] == all + AllStored(fs)[..i]
      {
        assert AllStored(fs)[..i + 1] == AllStored(fs)[..i] + [Stored(fs[i])] by { StoredSnoc(fs, i); }
        fields[fieldCount] := Stored(fs[i]);
        fieldCount := fieldCount + 1;
        i := i + 1;
      }
      assert AllStored(fs)[..i] == AllStored(fs);
      var index := archetypeCount;
      var size := EntrySize(fs);
      var e := Entry(Clip(name), CHUNK_SIZE / (size + 6), size, CHUNK_NONE, firstField, |fs|, firstArchetype);
      NewSized(e, Clip(name), fs);
      Registering(es, all, e, AllStored(fs));
      SizedSnoc(es, Registered(es, all), e, Archetype(Clip(name), AllStored(fs)));
      archetypes[index] := e;
      archetype := index + 1;
      firstArchetype := archetype;
      archetypeCount := archetypeCount + 1;
      assert archetypes[..archetypeCount] == es + [e];
      ok := true;
    }

    /** Follows the `next` links from the newest archetype. */
    method Find(uid: nat) returns (archetype: nat)
      requires Valid()
      ensures archetype == FindIn(Contents(), uid)
    {
      hide Tiled, Fnv, Sized;
      ghost var reg := Contents();
      var current: nat := firstArchetype;
      assert reg[..current] == reg;
      while current != 0
        invariant current <= archetypeCount && FindIn(reg, uid) == FindIn(reg[..current], uid)
        decreases current
      {
        var index := current - 1;
        ThisEntry(archetypes[..archetypeCount], fields[..fieldCount], index);
        assert reg[..current][..index] == reg[..index];
        var hash := Hash(archetypes[index].name);
        if hash == uid { return current; }
        current := archetypes[index].next;
      }
      return 0;
    }

    /** The first field of the archetype with that hash, as an index into all fields;
        0 both for none and for field 0. */
    method FindField(archetype: nat, uid: nat) returns (field: nat)
      requires Valid() && 1 <= archetype <= archetypeCount
      ensures match FindAt(Contents()[archetype - 1].fields, uid)
              case None => field == 0
              case Some(k) => field == archetypes[archetype - 1].firstField + k
      ensures field == FieldResult(archetypes[archetype - 1].firstField, Contents()[archetype - 1].fields, uid)
    {
      hide Tiled, Fnv, Sized;
      var index := archetype - 1;
      ThisEntry(archetypes[..archetypeCount], fields[..fieldCount], index);
      var begin := archetypes[index].firstField;
      var end := begin + archetypes[index].fieldCount;
      ghost var own := Contents()[index].fields;
      var i := begin;
      assert own[0..] == own;
      while i < end
        invariant begin <= i <= end
        invariant match FindAt(own[i - begin..], uid)
                  case None => FindAt(own, uid) == None
                  case Some(k) => FindAt(own, uid) == Some(i - begin + k)
      {
        assert own[i - begin..][1..] == own[i + 1 - begin..];
        var hash := Hash(fields[i].name);
        if hash == uid { return i; }
        i := i + 1;
      }
      return 0;
    }
  }

  lemma {:induction false} NewSized(e: Entry, name: seq<Byte>, fs: seq<Field>)
    requires e.entrySize == EntrySizeOf(fs) % U16 && e.capacity == CHUNK_SIZE / (e.entrySize + 6)
    ensures EntrySized(e, Archetype(name, AllStored(fs)))
    ensures e.capacity * (e.entrySize + 6) <= 4096 < (e.capacity + 1) * (e.entrySize + 6)
  {
    hide EntrySizeOf, AllStored;
    StoredSize(fs);
    var d := e.entrySize + 6;
    assert CHUNK_SIZE == CHUNK_SIZE / d * d + CHUNK_SIZE % d;
  }

  lemma {:induction false} ThisEntry(es: seq<Entry>, fs: seq<Field>, i: nat)
    requires Tiled(es, |fs|) && i < |es|
    ensures es[i].next == i && es[i].firstField + es[i].fieldCount <= |fs|
    ensures Registered(es, fs)[i] == Archetype(es[i].name, fs[es[i].firstField..es[i].firstField + es[i].fieldCount])
  {
    assert EntryValid(es, i, |fs|);
  }

  /** Where an archetype lies: its name in the entry before its number, its fields from the
      entry's first on, and the links from the newest entry to the oldest. */
  lemma {:induction false} EntryOf(m: TableManager, i: nat)
    requires m.Valid() && i < m.archetypeCount
    ensures var e, a := m.archetypes[i], m.Contents()[i];
            && e.name == a.name && e.fieldCount == |a.fields| && e.firstField + e.fieldCount <= m.fieldCount
            && (forall k :: 0 <= k < |a.fields| ==> m.fields[e.firstField + k] == a.fields[k])
            && m.firstArchetype == m.archetypeCount && e.next == i
  {
    hide Tiled, Sized;
    ThisEntry(m.archetypes[..m.archetypeCount], m.fields[..m.fieldCount], i);
  }

  /** `nu__table_manager_init`; `available` is how many of its four allocations succeed. */
  method Init(archetypeCapacity: nat, fieldCapacity: nat, chunkCapacity: nat, available: nat)
    returns (manager: TableManager?)
    requires 0 < archetypeCapacity < U16 && 0 < fieldCapacity < U16 && 0 < chunkCapacity < U16
    ensures manager == null <==> available < 4
    ensures manager != null ==> fresh(manager) && manager.Valid() && manager.Contents() == []
  {
    if available < 4 { return null; }
    manager := new TableManager(archetypeCapacity, fieldCapacity, chunkCapacity);
  }
}

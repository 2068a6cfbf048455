/** The archetype resolver of nucleus/lang/analyzer/archetype.h: every node that names an
    archetype gets the newest registered one whose name has that hash. */
module Archetypes {
  import opened Options
  import opened Tokens
  import opened Syntax
  import opened Layout
  import opened Arena
  import opened Scopes
  import opened Resolving
  import opened Registry
  import Strings

  // ----- which archetypes a tree names, and what they are in a registry

  function OfType(ty: Option<VarType>): Option<string> {
    match ty
    case Some(Arch(n)) => Some(n)
    case _ => None
  }

  /** The archetype that a node names. */
  function Named(v: Val): Option<string> {
    match v
    case VarDeclNode(_, ty) => OfType(ty)
    case ArgDeclNode(_, ty) => OfType(Some(ty))
    case FunDeclNode(_, ret, _) => OfType(ret)
    case InsertNode(n) => Some(n)
    case SingletonNode(n) => Some(n)
    case _ => None
  }

  /** A name of the source text, as the bytes it consists of. */
  function Bytes(name: string): (s: seq<Strings.Byte>)
    ensures |s| == |name|
  {
    seq(|name|, i requires 0 <= i < |name| => name[i] as nat % 256)
  }

  /** The archetype of that name, or 0. */
  function ArchetypeOf(reg: seq<Archetype>, name: string): nat {
    FindIn(reg, Strings.Fnv(Bytes(name)))
  }

  function PickOne(t: Tree, reg: seq<Archetype>): map<nat, nat> {
    match Named(t.val)
    case None => map[]
    case Some(n) => map[t.id := ArchetypeOf(reg, n)]
  }

  /** What every node that names an archetype gets. */
  function Picks(t: Tree, reg: seq<Archetype>): map<nat, nat>
    decreases t, 0
  {
    PickOne(t, reg) + AllPicks(t.kids, reg)
  }

  function AllPicks(ts: seq<Tree>, reg: seq<Archetype>): map<nat, nat>
    decreases ts, 0
  {
    if ts == [] then map[] else AllPicks(ts[..|ts| - 1], reg) + Picks(ts[|ts| - 1], reg)
  }

  predicate NodeKnown(v: Val, reg: seq<Archetype>) {
    Named(v).Some? ==> ArchetypeOf(reg, Named(v).value) != 0
  }

  predicate Known(t: Tree, reg: seq<Archetype>)
    decreases t, 0
  {
    NodeKnown(t.val, reg) && AllKnown(t.kids, reg)
  }

  predicate AllKnown(ts: seq<Tree>, reg: seq<Archetype>)
    decreases ts, 0
  {
    ts != [] ==> AllKnown(ts[..|ts| - 1], reg) && Known(ts[|ts| - 1], reg)
  }

  // ----- the same node by node

  lemma {:induction false} AllKnownIs(ts: seq<Tree>, reg: seq<Archetype>)
    ensures AllKnown(ts, reg) <==> forall k :: 0 <= k < |ts| ==> Known(ts[k], reg)
    decreases ts
  {
    hide Known;
    if ts != [] {
      var most := ts[..|ts| - 1];
      AllKnownIs(most, reg);
      assert forall k :: 0 <= k < |most| ==> ts[k] == most[k];
    }
  }

  lemma {:induction false} KnownAt(t: Tree, p: Path, reg: seq<Archetype>)
    requires Known(t, reg) && IsPath(t, p)
    ensures NodeKnown(NodeAt(t, p).val, reg)
    decreases p
  {
    hide NodeKnown;
    if p != [] {
      AllKnownIs(t.kids, reg);
      KnownAt(t.kids[p[0]], p[1..], reg);
    }
  }

  lemma {:induction false} UnknownAt(t: Tree, reg: seq<Archetype>) returns (p: Path)
    requires !Known(t, reg)
    ensures IsPath(t, p) && !NodeKnown(NodeAt(t, p).val, reg)
    decreases t
  {
    hide NodeKnown;
    AllKnownIs(t.kids, reg);
    p := [];
    if NodeKnown(t.val, reg) {
      var k :| 0 <= k < |t.kids| && !Known(t.kids[k], reg);
      var q := UnknownAt(t.kids[k], reg);
      p := [k] + q;
      PathCons(t, k, q, []);
    }
  }

  /** A tree is accepted if and only if every archetype that a node names is registered. */
  lemma {:induction false} KnownIff(t: Tree, reg: seq<Archetype>)
    ensures Known(t, reg) <==> forall p | IsPath(t, p) :: NodeKnown(NodeAt(t, p).val, reg)
  {
    hide NodeKnown, Known;
    if Known(t, reg) {
      forall p | IsPath(t, p) ensures NodeKnown(NodeAt(t, p).val, reg) { KnownAt(t, p, reg); }
    } else {
      var p := UnknownAt(t, reg);
    }
  }

  lemma {:induction false} PicksWithin(t: Tree, reg: seq<Archetype>)
    ensures forall i :: i in Picks(t, reg) ==> i in Ids(t)
    decreases t, 0
  {
    hide AllIds, AllPicks;
    AllPicksWithin(t.kids, reg);
  }

  lemma {:induction false} AllPicksWithin(ts: seq<Tree>, reg: seq<Archetype>)
    ensures forall i :: i in AllPicks(ts, reg) ==> i in AllIds(ts)
    decreases ts, 1
  {
    hide Ids, Picks;
    if ts != [] {
      AllPicksWithin(ts[..|ts| - 1], reg);
      PicksWithin(ts[|ts| - 1], reg);
    }
  }

  lemma {:induction false} KidPicks(ts: seq<Tree>, k: nat, i: nat, reg: seq<Archetype>)
    requires k < |ts| && NoRepeatsAll(ts) && i in Picks(ts[k], reg)
    ensures i in AllPicks(ts, reg) && AllPicks(ts, reg)[i] == Picks(ts[k], reg)[i]
    decreases ts
  {
    hide Ids, Picks, NoRepeatsAll, NoRepeats;
    var most, t := ts[..|ts| - 1], ts[|ts| - 1];
    assert ts == most + [t];
    SplitNoRepeats(most, t);
    if k < |most| {
      KidPicks(most, k, i, reg);
      PicksWithin(t, reg);
      AllPicksWithin(most, reg);
    }
  }

  /** Every node that names an archetype gets the one of that name. */
  lemma {:induction false} PicksRight(t: Tree, p: Path, reg: seq<Archetype>)
    requires NoRepeats(t) && IsPath(t, p) && Named(NodeAt(t, p).val).Some?
    ensures var x := NodeAt(t, p);
            x.id in Picks(t, reg) && Picks(t, reg)[x.id] == ArchetypeOf(reg, Named(x.val).value)
    decreases p
  {
    hide AllPicks, AllIds, ArchetypeOf;
    KidsNoRepeats(t);
    RootNotBelow(t);
    AllPicksWithin(t.kids, reg);
    if p != [] {
      var k := p[0];
      KidNoRepeats(t.kids, k);
      PicksRight(t.kids[k], p[1..], reg);
      KidPicks(t.kids, k, NodeAt(t, p).id, reg);
    }
  }

  lemma {:induction false} KidNoRepeats(ts: seq<Tree>, k: nat)
    requires k < |ts| && NoRepeatsAll(ts)
    ensures NoRepeats(ts[k])
    decreases ts
  {
    hide Ids, NoRepeatsAll, NoRepeats;
    var most, t := ts[..|ts| - 1], ts[|ts| - 1];
    assert ts == most + [t];
    SplitNoRepeats(most, t);
    if k < |most| { KidNoRepeats(most, k); }
  }

  // ----- the resolver object

  lemma {:induction false} NamedBlank(v: Val, w: Val)
    requires Blank(v) == Blank(w)
    ensures Named(v) == Named(w)
  {
  }

  /** The archetypes the nodes get are kept beside the arena. */
  class ArchetypeResolver {
    const ast: Ast
    const tables: TableManager
    var found: map<nat, nat>

    constructor (ast: Ast, tables: TableManager)
      ensures this.ast == ast && this.tables == tables && found == map[]
    {
      this.ast, this.tables := ast, tables;
      found := map[];
    }

    /** The archetype a node names, if it names one. */
    method ResolveNode(id: nat, ghost t: Tree) returns (error: Error)
      requires ast.Valid() && tables.Valid() && Like(t, ast.cells) && id == t.id
      modifies this`found
      ensures error == NONE <==> NodeKnown(t.val, tables.Contents())
      ensures error != NONE ==> error == ARCHETYPE_NOT_FOUND
      ensures error == NONE ==> found == old(found) + PickOne(t, tables.Contents())
    {
      hide Strings.Fnv, FindIn, TableManager.Valid, TableManager.Contents, Forest, Rooted, NextOf;
      NodeVal(ast, id);
      NamedBlank(ast.nodes[id].val, t.val);
      match Named(ast.nodes[id].val)
      case None => error := NONE;
      case Some(name) =>
        var uid := Strings.Hash(Bytes(name));
        var archetype := tables.Find(uid);
        if archetype == 0 { return ARCHETYPE_NOT_FOUND; }
        found := found[id := archetype];
        error := NONE;
    }

    /** The node at `id`, which holds the tree `t`, and everything below it. */
    method ResolveArchetype(id: nat, ghost t: Tree) returns (error: Error)
      requires ast.Valid() && tables.Valid() && Like(t, ast.cells) && id == t.id
      modifies this`found
      ensures error == NONE <==> Known(t, tables.Contents())
      ensures error != NONE ==> error == ARCHETYPE_NOT_FOUND
      ensures error == NONE ==> found == old(found) + Picks(t, tables.Contents())
      decreases t, 1
    {
      hide TableManager.Valid, TableManager.Contents, AllPicks, AllKnown, PickOne, NodeKnown, Like, Forest, Rooted;
      error := ResolveNode(id, t);
      if error != NONE { return; }
      MapsJoin(old(found), PickOne(t, tables.Contents()), AllPicks(t.kids, tables.Contents()));
      error := ResolveChilds(id, t);
    }

    method ResolveChilds(parent: nat, ghost t: Tree) returns (error: Error)
      requires ast.Valid() && tables.Valid() && Like(t, ast.cells) && parent == t.id
      modifies this`found
      ensures error == NONE <==> AllKnown(t.kids, tables.Contents())
      ensures error != NONE ==> error == ARCHETYPE_NOT_FOUND
      ensures error == NONE ==> found == old(found) + AllPicks(t.kids, tables.Contents())
      decreases t, 0
    {
      hide TableManager.Valid, TableManager.Contents, Picks, Known, AllPicks, AllKnown, Like, Forest, Rooted, NextOf,
        Linked;
      ghost var reg, k := tables.Contents(), 0;
      NoPicks(found, reg);
      LikeFirst(t, ast.cells);
      var child := NULL_ID;
      child := ast.IterChilds(parent, child);
      while child != NULL_ID
        invariant k <= |t.kids| && child == (if k < |t.kids| then t.kids[k].id else NULL_ID)
        invariant AllKnown(t.kids[..k], reg) && found == old(found) + AllPicks(t.kids[..k], reg)
        decreases |t.kids| - k
      {
        LikeKid(t, k, ast.cells);
        PicksStep(t.kids, k, reg);
        MapsJoin(old(found), AllPicks(t.kids[..k], reg), Picks(t.kids[k], reg));
        error := ResolveArchetype(child, t.kids[k]);
        if error != NONE { return; }
        k := k + 1;
        child := ast.IterChilds(parent, child);
      }
      if k < |t.kids| { LikeKid(t, k, ast.cells); }
      assert t.kids[..k] == t.kids;
      error := NONE;
    }
  }

  lemma {:induction false} NoPicks(found: map<nat, nat>, reg: seq<Archetype>)
    ensures AllKnown([], reg) && found + AllPicks([], reg) == found
  {
  }

  lemma {:induction false} MapsJoin(a: map<nat, nat>, b: map<nat, nat>, c: map<nat, nat>)
    ensures (a + b) + c == a + (b + c)
  {
  }

  lemma {:induction false} PicksStep(ts: seq<Tree>, k: nat, reg: seq<Archetype>)
    requires k < |ts|
    ensures AllPicks(ts[..k + 1], reg) == AllPicks(ts[..k], reg) + Picks(ts[k], reg)
    ensures AllKnown(ts[..k + 1], reg) <==> AllKnown(ts[..k], reg) && Known(ts[k], reg)
    ensures AllKnown(ts, reg) ==> Known(ts[k], reg)
  {
    hide Picks, Known;
    assert ts[..k + 1][..k] == ts[..k];
    AllKnownIs(ts, reg);
  }

  /** `nulang__resolve_archetypes`. */
  method ResolveArchetypes(ast: Ast, tables: TableManager, ghost t: Tree)
    returns (error: Error, found: map<nat, nat>)
    requires ast.Valid() && tables.Valid() && Like(t, ast.cells) && t.id == ast.root
    ensures error == NONE <==> Known(t, tables.Contents())
    ensures error != NONE ==> error == ARCHETYPE_NOT_FOUND
    ensures error == NONE ==> found == Picks(t, tables.Contents())
  {
    hide TableManager.Valid, TableManager.Contents, Picks, Known, Like, Forest, Rooted;
    var resolver := new ArchetypeResolver(ast, tables);
    error := resolver.ResolveArchetype(ast.root, t);
    found := resolver.found;
  }
}

/** The front end as a whole, nucleus/lang/compiler.h: what one compilation makes of a
    source text, a reused arena and the archetypes registered so far. */
module Compiling {
  import opened Options
  import opened Tokens
  import opened Syntax
  import opened Reading
  import opened Layout
  import opened Arena
  import opened Scopes
  import opened Limits
  import opened Resolving
  import opened Registry
  import opened Archetypes
  import Strings
  import Scanning
  import Lexing
  import Parsing

  datatype Compiled =
    | Program(block: seq<Stmt>, refs: map<nat, nat>, archetypes: map<nat, nat>)
    | Refused(error: Error)

  /** Compilation without state: read the items of the text, lay the program out, look
      its names up, and then its archetypes. */
  ghost function Compile(source: string, capacity: nat, reg: seq<Archetype>): Compiled
    requires 0 < capacity
  {
    match ReadModule(Scanning.Items(source, 0), capacity - 1)
    case Fail(e) => Refused(e)
    case Ok(b, _, _) => Analyze(b, reg)
  }

  ghost function Analyze(b: seq<Stmt>, reg: seq<Archetype>): Compiled {
    match ResolveModule(LayModule(b), STACK)
    case Stuck(e) => Refused(e)
    case Done(refs, _) =>
      if Known(LayModule(b), reg) then Program(b, refs, Picks(LayModule(b), reg)) else Refused(ARCHETYPE_NOT_FOUND)
  }

  // ----- the arena is one tree, with no node left over

  lemma {:induction false} RangeSize(lo: nat, hi: nat)
    requires lo <= hi
    ensures |Range(lo, hi)| == hi - lo
    ensures forall i: nat :: Range(lo, hi)[i] == if lo <= i < hi then 1 else 0
    decreases hi - lo
  {
    if lo < hi { RangeSize(lo, hi - 1); }
  }

  lemma {:induction false} ModuleNoRepeats(b: seq<Stmt>)
    ensures NoRepeats(LayModule(b))
    ensures forall i: nat :: i in Ids(LayModule(b)) <==> i < 1 + BlockNodes(b)
  {
    hide Ids, Range, LayModule, BlockNodes;
    ModuleIds(b);
    RangeSize(0, 1 + BlockNodes(b));
  }

  /** A program in an arena no larger than the stack never overflows it. */
  lemma {:induction false} ModuleFits(b: seq<Stmt>, n: nat)
    requires 1 + BlockNodes(b) <= n
    ensures ResolveModule(LayModule(b), Some(n)) == ResolveModule(LayModule(b), None)
  {
    hide Ids, Range, LayModule, BlockNodes, ResolveModule;
    ModuleIds(b);
    RangeSize(0, 1 + BlockNodes(b));
    FewNodesFit(LayModule(b), n);
  }

  /** The nodes of a tree share its root and lie no higher than it. */
  lemma {:induction false} TreeRoot(t: Tree, g: seq<Cell>, i: nat)
    requires Forest(g) && Shape(t, g) && i in Ids(t)
    ensures i < |g| && g[i].root == g[t.id].root && g[i].depth >= g[t.id].depth
    decreases t
  {
    hide AllIds, Forest;
    if i != t.id {
      var k := KidWith(t.kids, i);
      TreeRoot(t.kids[k], g, i);
      ForestRooted(g, t.id);
      ForestRooted(g, t.kids[k].id);
    }
  }

  lemma {:induction false} KidWith(ts: seq<Tree>, i: nat) returns (k: nat)
    requires i in AllIds(ts)
    ensures k < |ts| && i in Ids(ts[k])
    decreases ts
  {
    hide Ids;
    var most := ts[..|ts| - 1];
    if i in AllIds(most) { k := KidWith(most, i); } else { k := |ts| - 1; }
  }

  /** After a successful parse of a cleared arena every allocated node hangs, in
      however many steps, from node 0, which alone has no parent. */
  lemma {:induction false} WholeArena(b: seq<Stmt>, g: seq<Cell>, i: nat)
    requires Forest(g) && Shape(LayModule(b), g) && |g| == 1 + BlockNodes(b) && i < |g|
    ensures g[i].root == 0 && (g[i].parent == NULL_ID <==> i == 0)
    ensures Ids(LayModule(b))[i] == 1
  {
    hide Ids, BlockNodes, Forest, LayBlock, Shape, Range;
    var t := LayModule(b);
    ModuleNoRepeats(b);
    ModuleIds(b);
    RangeSize(0, |g|);
    TreeRoot(t, g, i);
    TreeRoot(t, g, 0);
    ForestRooted(g, 0);
    ForestRooted(g, i);
    if g[0].parent != NULL_ID {
      TreeRoot(t, g, g[0].parent);
      assert false;
    }
  }

  lemma {:induction false} ShapeAt(t: Tree, p: Path, g: seq<Cell>)
    requires Shape(t, g) && IsPath(t, p)
    ensures Shape(NodeAt(t, p), g)
    decreases p
  {
    if p != [] { ShapeAt(t.kids[p[0]], p[1..], g); }
  }

  /** A tree lies in the arena's array node by node: each node at its id, with its payload
      and the ids of its first and last child. */
  lemma {:induction false} NodeOf(ast: Ast, t: Tree, p: Path)
    requires ast.Valid() && Shape(t, ast.cells) && IsPath(t, p)
    ensures var x := NodeAt(t, p);
            && x.id < ast.count <= ast.nodes.Length
            && ast.nodes[x.id].val == x.val
            && ast.nodes[x.id].first == (if x.kids == [] then 0xffff_ffff else x.kids[0].id)
            && ast.nodes[x.id].last == (if x.kids == [] then 0xffff_ffff else x.kids[|x.kids| - 1].id)
  {
    hide NodeAt, Forest, Rooted, NextOf;
    ShapeAt(t, p, ast.cells);
    RootLinks(ast, NodeAt(t, p));
  }

  lemma {:induction false} RootLinks(ast: Ast, x: Tree)
    requires ast.Valid() && Shape(x, ast.cells)
    ensures x.id < ast.count <= ast.nodes.Length
    ensures ast.nodes[x.id].val == x.val
    ensures ast.nodes[x.id].first == if x.kids == [] then 0xffff_ffff else x.kids[0].id
    ensures ast.nodes[x.id].last == if x.kids == [] then 0xffff_ffff else x.kids[|x.kids| - 1].id
  {
    hide Forest, NextOf;
  }

  /** And its children each with its own id and that of the next. */
  lemma {:induction false} ChildOf(ast: Ast, t: Tree, p: Path, k: nat)
    requires ast.Valid() && Shape(t, ast.cells) && IsPath(t, p) && k < |NodeAt(t, p).kids|
    ensures var x := NodeAt(t, p);
            && x.kids[k].id < ast.count <= ast.nodes.Length
            && ast.nodes[x.kids[k].id].parent == x.id
            && ast.nodes[x.kids[k].id].next == if k + 1 < |x.kids| then x.kids[k + 1].id else 0xffff_ffff
  {
    hide NodeAt, Forest, Rooted, NextOf;
    ShapeAt(t, p, ast.cells);
    KidNode(ast, NodeAt(t, p), k);
  }

  lemma {:induction false} KidNode(ast: Ast, x: Tree, k: nat)
    requires ast.Valid() && Shape(x, ast.cells) && k < |x.kids|
    ensures x.kids[k].id < ast.count && ast.nodes[x.kids[k].id].parent == x.id
    ensures ast.nodes[x.kids[k].id].next == if k + 1 < |x.kids| then x.kids[k + 1].id else 0xffff_ffff
  {
    hide Forest, Rooted, NextOf, Like, Linked;
    ShapeLike(x, ast.cells);
    LikeKid(x, k, ast.cells);
    KidLinks(ast, x.kids[k].id);
  }

  lemma {:induction false} KidLinks(ast: Ast, i: nat)
    requires ast.Valid() && i < ast.count && ast.cells[i].parent != NULL_ID
    ensures ast.nodes[i].parent == ast.cells[i].parent < ast.count
    ensures var ks := ast.cells[ast.cells[i].parent].kids;
            ast.nodes[i].next == if ast.cells[i].index + 1 < |ks| then ks[ast.cells[i].index + 1] else NULL_ID
  {
    hide Forest;
  }

  // ----- the compiler

  class Compiler {
    const ast: Ast
    const tables: TableManager
    var archetypes: map<nat, nat>

    constructor (ast: Ast, tables: TableManager)
      ensures this.ast == ast && this.tables == tables && archetypes == map[]
    {
      this.ast, this.tables := ast, tables;
      archetypes := map[];
    }

    /** Whatever was compiled before, the result is that of the text alone. */
    method CompileText(source: string) returns (error: Error)
      requires ast.Valid() && tables.Valid() && '\0' !in source
      modifies this`archetypes, ast, ast.nodes
      ensures ast.Valid() && tables.Valid() && tables.Contents() == old(tables.Contents())
      ensures match Compile(source, ast.nodes.Length, tables.Contents())
              case Refused(e) => error == e != NONE
              case Program(b, refs, found) =>
                && error == NONE && archetypes == found
                && ast.count == 1 + BlockNodes(b) && Shape(Fill(LayModule(b), refs), ast.cells)
    {
      hide ReadModule, Analyze, LayModule, Shape, Scanning.Items, BlockNodes, TableManager.Valid, TableManager.Contents,
        Forest;
      ghost var r := ReadModule(Scanning.Items(source, 0), ast.nodes.Length - 1);
      error := Parse(source);
      if error != NONE { return; }
      error := Check(r.value);
    }

    /** The text as a tree in the cleared arena. */
    method Parse(source: string) returns (error: Error)
      requires ast.Valid() && '\0' !in source
      modifies ast, ast.nodes
      ensures ast.Valid()
      ensures match ReadModule(Scanning.Items(source, 0), ast.nodes.Length - 1)
              case Fail(e) => error == e != NONE
              case Ok(b, _, _) => error == NONE && ast.count == 1 + BlockNodes(b) && Shape(LayModule(b), ast.cells)
    {
      hide Lexing.Outs, Lexing.Lexer.Coming, Lexing.Lexer.Stream, Lexing.Lexer.Valid, ReadModule, Shape, Scanning.Items,
        LayModule, Forest, BlockNodes;
      ast.Clear();
      var lexer := new Lexing.Lexer(source);
      var parser := new Parsing.Parser(lexer, ast);
      assert parser.Items() == lexer.Stream();
      error := parser.ParseModule();
    }

    /** `nulang__analyze`: symbols, then archetypes. */
    method Check(ghost b: seq<Stmt>) returns (error: Error)
      requires ast.Valid() && tables.Valid() && Shape(LayModule(b), ast.cells)
      modifies this`archetypes, ast, ast.nodes
      ensures ast.Valid() && tables.Valid() && tables.Contents() == old(tables.Contents())
      ensures ast.count == old(ast.count)
      ensures match Analyze(b, tables.Contents())
              case Refused(e) => error == e != NONE
              case Program(c, refs, found) =>
                c == b && error == NONE && archetypes == found && Shape(Fill(LayModule(b), refs), ast.cells)
    {
      hide ResolveModule, Shape, Fill, LayBlock, Forest, Known, Picks, Like, SameButRefs, TableManager.Valid,
        TableManager.Contents;
      ghost var t, g := LayModule(b), ast.cells;
      ShapeLike(t, g);
      error := ResolveSymbols(ast, t);
      SameCount(g, ast.cells);
      if error != NONE { return; }
      LikeSame(t, g, ast.cells);
      error, archetypes := ResolveArchetypes(ast, tables, t);
    }
  }

  lemma {:induction false} SameCount(g: seq<Cell>, h: seq<Cell>)
    requires SameButRefs(g, h)
    ensures |g| == |h|
  {
  }

  /** In a compiled program every reference holds the id of a function of the module,
      or of a variable or argument of its name that comes before it and all of whose
      scopes hold the reference too. */
  lemma {:induction false} CompiledScopes(source: string, capacity: nat, reg: seq<Archetype>, p: Path)
    requires 0 < capacity && Compile(source, capacity, reg).Program?
    requires var t := LayModule(Compile(source, capacity, reg).block);
             IsPath(t, p) && NodeAt(t, p).val.SymRefNode?
    ensures var c := Compile(source, capacity, reg);
            var t := LayModule(c.block);
            var x := NodeAt(t, p);
            && x.id in c.refs
            && (|| (exists k ::
                      && 0 <= k < |t.kids| && t.kids[k].val.FunDeclNode?
                      && t.kids[k].val.name == x.val.name && t.kids[k].id == c.refs[x.id])
                || (exists q | IsPath(t, q) ::
                      && (NodeAt(t, q).val.VarDeclNode? || NodeAt(t, q).val.ArgDeclNode?)
                      && NodeAt(t, q).val.name == x.val.name && NodeAt(t, q).id == c.refs[x.id]
                      && Before(q, p)
                      && forall n |
                           && 0 <= n < |q|
                           && (Along(t, q, n).val.CompoundNode? || Along(t, q, n).val.FunDeclNode?) :: q[..n] <= p))
  {
    hide ReadModule, ResolveModule, LayModule, NodeAt, Along, Before, Known, Picks;
    ModuleNoRepeats(Compile(source, capacity, reg).block);
    ScopeSafety(LayModule(Compile(source, capacity, reg).block), p, STACK);
  }

  /** In a compiled program every variable, argument and function with the type of an
      archetype, every insertion and every singleton holds the newest registered one whose
      stored name has the hash of that name. */
  lemma {:induction false} CompiledArchetypes(source: string, capacity: nat, reg: seq<Archetype>, p: Path, n: string)
    requires 0 < capacity && Compile(source, capacity, reg).Program?
    requires var t := LayModule(Compile(source, capacity, reg).block);
             && IsPath(t, p)
             && var v := NodeAt(t, p).val;
                || (v.VarDeclNode? && v.varType == Some(Arch(n)))
                || (v.ArgDeclNode? && v.argType == Arch(n))
                || (v.FunDeclNode? && v.ret == Some(Arch(n)))
                || v == InsertNode(n) || v == SingletonNode(n)
    ensures var c := Compile(source, capacity, reg);
            var x := NodeAt(LayModule(c.block), p);
            && x.id in c.archetypes
            && var a, uid := c.archetypes[x.id], Strings.Fnv(Bytes(n));
               && 0 < a <= |reg| && Strings.Fnv(reg[a - 1].name) == uid
               && forall j :: a <= j < |reg| ==> Strings.Fnv(reg[j].name) != uid
  {
    hide ReadModule, ResolveModule, LayModule, NodeAt, Known, Picks, Strings.Fnv;
    var c := Compile(source, capacity, reg);
    var t := LayModule(c.block);
    var x := NodeAt(t, p);
    assert Named(x.val) == Some(n);
    ModuleNoRepeats(c.block);
    KnownIff(t, reg);
    assert NodeKnown(x.val, reg);
    PicksRight(t, p, reg);
    FindInNewest(reg, Strings.Fnv(Bytes(n)));
  }
}

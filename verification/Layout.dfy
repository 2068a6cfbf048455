/** Where the nodes of a parsed program lie in the arena: trees whose nodes carry
    their ids, and the layout the parser's order of allocation gives them. */
module Layout {
  import opened Options
  import opened Tokens
  import opened Operators
  import opened Syntax

  const NULL_ID := 0xffff_ffff

  datatype BuiltinVal = Constructor(prim: Primitive) | Function(f: BuiltinFunction)

  /** The payload of an arena node, by node type. */
  datatype Val =
    | ModuleNode
    | FunDeclNode(name: string, ret: Option<VarType>, exported: bool)
    | CompoundNode
    | ArgDeclNode(name: string, argType: VarType)
    | LiteralNode(lit: Literal)
    | SymRefNode(name: string, node: nat)
    | MemberNode(field: string)
    | BuiltinNode(builtin: BuiltinVal)
    | ReturnNode
    | IfNode
    | WhileNode
    | VarDeclNode(name: string, varType: Option<VarType>)
    | CallNode
    | AssignNode
    | BinopNode(op: Binop)
    | UnopNode(unop: Unop)
    | InsertNode(name: string)
    | SingletonNode(name: string)

  datatype Tree = Tree(id: nat, val: Val, kids: seq<Tree>)

  function LayPlace(p: Place, lo: nat): Tree {
    match p
    case Sym(n) => Tree(lo, SymRefNode(n, NULL_ID), [])
    case Member(q, n) => Tree(lo + PlaceNodes(q), MemberNode(n), [LayPlace(q, lo)])
    case Ctor(t) => Tree(lo, BuiltinNode(Constructor(t)), [])
    case Builtin(f) => Tree(lo, BuiltinNode(Function(f)), [])
  }

  function LayExpr(e: Expr, lo: nat): Tree
    decreases e, 1
  {
    match e
    case Lit(l) => Tree(lo, LiteralNode(l), [])
    case Ref(p) => LayPlace(p, lo)
    case Call(p, args) => LayCall(p, args, lo)
    case Insert(n, _) => Tree(lo, InsertNode(n), [])
    case Singleton(n, _) => Tree(lo, SingletonNode(n), [])
    case Un(op, x) => Tree(lo + ExprNodes(x), UnopNode(op), [LayExpr(x, lo)])
    case Bin(op, l, r) =>
      Tree(lo + ExprNodes(l) + ExprNodes(r), BinopNode(op), [LayExpr(l, lo), LayExpr(r, lo + ExprNodes(l))])
    case Paren(x) => LayExpr(x, lo)
  }

  function LayCall(p: Place, args: seq<Expr>, lo: nat): Tree
    decreases args, 1
  {
    Tree(lo + PlaceNodes(p), CallNode, [LayPlace(p, lo)] + LayArgs(args, lo + PlaceNodes(p) + 1))
  }

  function LayArgs(args: seq<Expr>, lo: nat): seq<Tree>
    decreases args, 0
  {
    if args == [] then []
    else
      var most := args[..|args| - 1];
      LayArgs(most, lo) + [LayExpr(args[|args| - 1], lo + ArgNodes(most))]
  }

  function LayStmt(st: Stmt, lo: nat): Tree
    decreases st, 1
  {
    match st
    case Let(n, ty, e) => Tree(lo + ExprNodes(e), VarDeclNode(n, ty), [LayExpr(e, lo)])
    case Assign(p, e) =>
      Tree(lo + PlaceNodes(p) + ExprNodes(e), AssignNode, [LayPlace(p, lo), LayExpr(e, lo + PlaceNodes(p))])
    case Do(p, args) => LayCall(p, args, lo)
    case Return(e) => Tree(lo + ExprNodes(e), ReturnNode, [LayExpr(e, lo)])
    case If(bs, els) => Tree(lo, IfNode, LayBranches(bs, lo + 1) + LayElse(els, lo + 1 + BranchNodes(bs)))
    case While(c, b) =>
      Tree(lo + ExprNodes(c), WhileNode, [LayExpr(c, lo), LayBody(b, lo + ExprNodes(c) + 1)])
    case Fun(n, ps, ret, b) =>
      Tree(lo, FunDeclNode(n, ret, false), LayParams(ps, lo + 1) + [LayBody(b, lo + 1 + |ps|)])
  }

  function LayParams(ps: seq<Param>, lo: nat): seq<Tree> {
    if ps == [] then []
    else
      var most := ps[..|ps| - 1];
      var p := ps[|ps| - 1];
      LayParams(most, lo) + [Tree(lo + |most|, ArgDeclNode(p.name, p.ty), [])]
  }

  function LayBranches(bs: seq<Branch>, lo: nat): seq<Tree>
    decreases bs, 0
  {
    if bs == [] then []
    else
      var most, b := bs[..|bs| - 1], bs[|bs| - 1];
      var m := lo + BranchNodes(most);
      LayBranches(most, lo) + [LayExpr(b.cond, m), LayBody(b.body, m + ExprNodes(b.cond))]
  }

  function LayElse(els: Otherwise, lo: nat): seq<Tree>
    decreases els, 0
  {
    match els
    case NoElse => []
    case Else(b) => [LayBody(b, lo)]
  }

  function LayBody(b: seq<Stmt>, lo: nat): Tree
    decreases b, 1
  {
    Tree(lo, CompoundNode, LayBlock(b, lo + 1))
  }

  function LayBlock(b: seq<Stmt>, lo: nat): seq<Tree>
    decreases b, 0
  {
    if b == [] then []
    else
      var most := b[..|b| - 1];
      LayBlock(most, lo) + [LayStmt(b[|b| - 1], lo + BlockNodes(most))]
  }

  /** The whole arena after a parse: the module at node 0. */
  function LayModule(b: seq<Stmt>): Tree {
    Tree(0, ModuleNode, LayBlock(b, 1))
  }

  // ----- node counts of lists grown at their end

  lemma {:induction false} ArgNodesSnoc(args: seq<Expr>, e: Expr)
    ensures ArgNodes(args + [e]) == ArgNodes(args) + ExprNodes(e)
    decreases args
  {
    hide ExprNodes;
    if args == [] {
      assert ([] + [e])[1..] == [];
    } else {
      assert (args + [e])[1..] == args[1..] + [e];
      ArgNodesSnoc(args[1..], e);
    }
  }

  lemma {:induction false} BlockNodesSnoc(b: seq<Stmt>, st: Stmt)
    ensures BlockNodes(b + [st]) == BlockNodes(b) + StmtNodes(st)
    decreases b
  {
    hide StmtNodes;
    if b == [] {
      assert ([] + [st])[1..] == [];
    } else {
      assert (b + [st])[1..] == b[1..] + [st];
      BlockNodesSnoc(b[1..], st);
    }
  }

  lemma {:induction false} BranchNodesSnoc(bs: seq<Branch>, x: Branch)
    ensures BranchNodes(bs + [x]) == BranchNodes(bs) + ExprNodes(x.cond) + 1 + BlockNodes(x.body)
    decreases bs
  {
    hide ExprNodes, BlockNodes;
    if bs == [] {
      assert ([] + [x])[1..] == [];
    } else {
      assert (bs + [x])[1..] == bs[1..] + [x];
      BranchNodesSnoc(bs[1..], x);
    }
  }

  // ----- every id of a range, once

  /** The ids of a tree, with their multiplicity. */
  function Ids(t: Tree): multiset<nat>
    decreases t, 0
  {
    multiset{t.id} + AllIds(t.kids)
  }

  function AllIds(ts: seq<Tree>): multiset<nat>
    decreases ts, 0
  {
    if ts == [] then multiset{} else AllIds(ts[..|ts| - 1]) + Ids(ts[|ts| - 1])
  }

  function Range(lo: nat, hi: nat): multiset<nat>
    decreases hi - lo
  {
    if lo >= hi then multiset{} else Range(lo, hi - 1) + multiset{hi - 1}
  }

  lemma {:induction false} RangeJoin(a: nat, b: nat, c: nat)
    requires a <= b <= c
    ensures Range(a, b) + Range(b, c) == Range(a, c)
    decreases c - b
  {
    if b < c { RangeJoin(a, b, c - 1); }
  }

  lemma {:induction false} RangeOne(a: nat)
    ensures Range(a, a + 1) == multiset{a}
  {
    assert Range(a, a) == multiset{};
  }

  lemma {:induction false} AllIdsSnoc(ts: seq<Tree>, t: Tree)
    ensures AllIds(ts + [t]) == AllIds(ts) + Ids(t)
  {
    assert (ts + [t])[..|ts|] == ts;
  }

  lemma {:induction false} AllIdsOne(t: Tree)
    ensures AllIds([t]) == Ids(t)
  {
    AllIdsSnoc([], t);
    assert [] + [t] == [t];
  }

  lemma {:induction false} AllIdsTwo(t: Tree, u: Tree)
    ensures AllIds([t, u]) == Ids(t) + Ids(u)
  {
    AllIdsOne(t);
    AllIdsSnoc([t], u);
    assert [t] + [u] == [t, u];
  }

  lemma {:induction false} AllIdsJoin(ts: seq<Tree>, us: seq<Tree>)
    ensures AllIds(ts + us) == AllIds(ts) + AllIds(us)
    decreases us
  {
    hide Ids;
    if us == [] {
      assert ts + us == ts;
    } else {
      var most, u := us[..|us| - 1], us[|us| - 1];
      AllIdsJoin(ts, most);
      assert ts + us == (ts + most) + [u] by { LastOff(ts, us); }
      AllIdsSnoc(ts + most, u);
    }
  }

  lemma {:induction false} LastOff<T>(s: seq<T>, t: seq<T>)
    requires t != []
    ensures s + t == (s + t[..|t| - 1]) + [t[|t| - 1]]
  {
  }

  lemma {:induction false} LeafIds(t: Tree)
    requires t.kids == []
    ensures Ids(t) == Range(t.id, t.id + 1)
  {
    NoIds();
    RangeOne(t.id);
  }

  lemma {:induction false} NoIds()
    ensures AllIds([]) == multiset{}
  {
  }

  /** A node placed after its children. */
  lemma {:induction false} AfterIds(t: Tree, lo: nat)
    requires lo <= t.id && AllIds(t.kids) == Range(lo, t.id)
    ensures Ids(t) == Range(lo, t.id + 1)
  {
    hide Range;
    RangeOne(t.id);
    RangeJoin(lo, t.id, t.id + 1);
  }

  /** A node placed before its children. */
  lemma {:induction false} BeforeIds(t: Tree, hi: nat)
    requires t.id < hi && AllIds(t.kids) == Range(t.id + 1, hi)
    ensures Ids(t) == Range(t.id, hi)
  {
    hide Range;
    RangeOne(t.id);
    RangeJoin(t.id, t.id + 1, hi);
  }

  /** A node placed between its first child and the others. */
  lemma {:induction false} BetweenIds(t: Tree, first: Tree, others: seq<Tree>, lo: nat, hi: nat)
    requires t.kids == [first] + others && lo <= t.id < hi
    requires Ids(first) == Range(lo, t.id) && AllIds(others) == Range(t.id + 1, hi)
    ensures Ids(t) == Range(lo, hi)
  {
    hide Range, AllIds;
    assert Ids(t) == multiset{t.id} + AllIds(t.kids);
    AllIdsOne(first);
    AllIdsJoin([first], others);
    RangeOne(t.id);
    RangeJoin(lo, t.id, t.id + 1);
    RangeJoin(lo, t.id + 1, hi);
  }

  lemma {:induction false} PairIds(a: Tree, b: Tree, lo: nat, m: nat, hi: nat)
    requires lo <= m <= hi && Ids(a) == Range(lo, m) && Ids(b) == Range(m, hi)
    ensures AllIds([a, b]) == Range(lo, hi)
  {
    hide Range, Ids;
    AllIdsTwo(a, b);
    RangeJoin(lo, m, hi);
  }

  lemma {:induction false} SnocIds(ts: seq<Tree>, t: Tree, lo: nat, m: nat, hi: nat)
    requires lo <= m <= hi && AllIds(ts) == Range(lo, m) && Ids(t) == Range(m, hi)
    ensures AllIds(ts + [t]) == Range(lo, hi)
  {
    hide Range, Ids;
    AllIdsSnoc(ts, t);
    RangeJoin(lo, m, hi);
  }

  lemma {:induction false} JoinIds(ts: seq<Tree>, us: seq<Tree>, lo: nat, m: nat, hi: nat)
    requires lo <= m <= hi && AllIds(ts) == Range(lo, m) && AllIds(us) == Range(m, hi)
    ensures AllIds(ts + us) == Range(lo, hi)
  {
    hide Range, Ids;
    AllIdsJoin(ts, us);
    RangeJoin(lo, m, hi);
  }

  lemma {:induction false} PlaceIds(p: Place, lo: nat)
    ensures Ids(LayPlace(p, lo)) == Range(lo, lo + PlaceNodes(p))
    decreases p
  {
    hide Ids, AllIds, Range;
    match p
    case Member(q, n) =>
      PlaceIds(q, lo);
      AllIdsOne(LayPlace(q, lo));
      AfterIds(LayPlace(p, lo), lo);
    case _ => LeafIds(LayPlace(p, lo));
  }

  lemma {:induction false} ExprIds(e: Expr, lo: nat)
    ensures Ids(LayExpr(e, lo)) == Range(lo, lo + ExprNodes(e))
    decreases e, 1
  {
    hide Ids, AllIds, Range, LayPlace, LayCall, PlaceNodes, ArgNodes;
    match e
    case Ref(p) => PlaceIds(p, lo);
    case Call(p, args) => CallIds(p, args, lo);
    case Un(op, x) =>
      ExprIds(x, lo);
      AllIdsOne(LayExpr(x, lo));
      AfterIds(LayExpr(e, lo), lo);
    case Bin(op, l, r) =>
      var m := lo + ExprNodes(l);
      ExprIds(l, lo);
      ExprIds(r, m);
      PairIds(LayExpr(l, lo), LayExpr(r, m), lo, m, m + ExprNodes(r));
      AfterIds(LayExpr(e, lo), lo);
    case Paren(x) => ExprIds(x, lo);
    case _ => LeafIds(LayExpr(e, lo));
  }

  lemma {:induction false} CallIds(p: Place, args: seq<Expr>, lo: nat)
    ensures Ids(LayCall(p, args, lo)) == Range(lo, lo + PlaceNodes(p) + 1 + ArgNodes(args))
    decreases args, 1
  {
    hide Ids, AllIds, LayPlace, LayArgs, PlaceNodes, ArgNodes, Range;
    var k := lo + PlaceNodes(p);
    PlaceIds(p, lo);
    ArgIds(args, k + 1);
    BetweenIds(LayCall(p, args, lo), LayPlace(p, lo), LayArgs(args, k + 1), lo, k + 1 + ArgNodes(args));
  }

  lemma {:induction false} ArgIds(args: seq<Expr>, lo: nat)
    ensures AllIds(LayArgs(args, lo)) == Range(lo, lo + ArgNodes(args))
    decreases args, 0
  {
    hide Ids, AllIds, Range, LayExpr, ExprNodes;
    if args == [] {
      EmptyRange(lo);
    } else {
      var most, e := args[..|args| - 1], args[|args| - 1];
      var m := lo + ArgNodes(most);
      ArgIds(most, lo);
      ExprIds(e, m);
      SnocIds(LayArgs(most, lo), LayExpr(e, m), lo, m, m + ExprNodes(e));
      ArgNodesSnoc(most, e);
      assert args == most + [e];
    }
  }

  lemma {:induction false} EmptyRange(lo: nat)
    ensures Range(lo, lo) == multiset{} == AllIds([])
  {
  }

  /** A statement's nodes are exactly the ids from `lo` on, each once. */
  lemma {:induction false} StmtIds(st: Stmt, lo: nat)
    ensures Ids(LayStmt(st, lo)) == Range(lo, lo + StmtNodes(st))
    decreases st, 2
  {
    hide Ids, AllIds, Range, LayPlace, LayExpr, LayCall, LayBranches, LayElse, LayBody, LayParams, ExprNodes,
      PlaceNodes, ArgNodes, BranchNodes, ElseNodes, BlockNodes;
    var t := LayStmt(st, lo);
    match st
    case Let(_, _, e) =>
      ExprIds(e, lo);
      AllIdsOne(LayExpr(e, lo));
      AfterIds(t, lo);
    case Assign(p, e) =>
      var m := lo + PlaceNodes(p);
      PlaceIds(p, lo);
      ExprIds(e, m);
      PairIds(LayPlace(p, lo), LayExpr(e, m), lo, m, m + ExprNodes(e));
      AfterIds(t, lo);
    case Do(p, args) => CallIds(p, args, lo);
    case Return(e) =>
      ExprIds(e, lo);
      AllIdsOne(LayExpr(e, lo));
      AfterIds(t, lo);
    case If(bs, els) =>
      var m := lo + 1 + BranchNodes(bs);
      BranchIds(bs, lo + 1);
      ElseIds(els, m);
      JoinIds(LayBranches(bs, lo + 1), LayElse(els, m), lo + 1, m, m + ElseNodes(els));
      BeforeIds(t, m + ElseNodes(els));
    case While(c, b) =>
      var k := lo + ExprNodes(c);
      ExprIds(c, lo);
      BodyIds(b, k + 1);
      AllIdsOne(LayBody(b, k + 1));
      BetweenIds(t, LayExpr(c, lo), [LayBody(b, k + 1)], lo, k + 2 + BlockNodes(b));
    case Fun(n, ps, ret, b) =>
      var m := lo + 1 + |ps|;
      ParamIds(ps, lo + 1);
      BodyIds(b, m);
      SnocIds(LayParams(ps, lo + 1), LayBody(b, m), lo + 1, m, m + 1 + BlockNodes(b));
      BeforeIds(t, m + 1 + BlockNodes(b));
  }

  lemma {:induction false} ParamIds(ps: seq<Param>, lo: nat)
    ensures AllIds(LayParams(ps, lo)) == Range(lo, lo + |ps|)
    decreases ps
  {
    hide Ids, AllIds, Range;
    if ps == [] {
      EmptyRange(lo);
    } else {
      var most, p := ps[..|ps| - 1], ps[|ps| - 1];
      var leaf := Tree(lo + |most|, ArgDeclNode(p.name, p.ty), []);
      ParamIds(most, lo);
      LeafIds(leaf);
      SnocIds(LayParams(most, lo), leaf, lo, lo + |most|, lo + |ps|);
    }
  }

  lemma {:induction false} BranchIds(bs: seq<Branch>, lo: nat)
    ensures AllIds(LayBranches(bs, lo)) == Range(lo, lo + BranchNodes(bs))
    decreases bs, 3
  {
    hide Ids, AllIds, Range, LayExpr, LayBody, ExprNodes, BlockNodes;
    if bs == [] {
      EmptyRange(lo);
    } else {
      var most, b := bs[..|bs| - 1], bs[|bs| - 1];
      var m := lo + BranchNodes(most);
      var k := m + ExprNodes(b.cond);
      BranchIds(most, lo);
      ExprIds(b.cond, m);
      BodyIds(b.body, k);
      PairIds(LayExpr(b.cond, m), LayBody(b.body, k), m, k, k + 1 + BlockNodes(b.body));
      JoinIds(LayBranches(most, lo), [LayExpr(b.cond, m), LayBody(b.body, k)], lo, m, k + 1 + BlockNodes(b.body));
      BranchNodesSnoc(most, b);
      assert bs == most + [b];
    }
  }

  lemma {:induction false} ElseIds(els: Otherwise, lo: nat)
    ensures AllIds(LayElse(els, lo)) == Range(lo, lo + ElseNodes(els))
    decreases els, 3
  {
    hide Ids, AllIds, Range, LayBody, BlockNodes;
    match els
    case NoElse => EmptyRange(lo);
    case Else(b) =>
      BodyIds(b, lo);
      AllIdsOne(LayBody(b, lo));
  }

  lemma {:induction false} BodyIds(b: seq<Stmt>, lo: nat)
    ensures Ids(LayBody(b, lo)) == Range(lo, lo + 1 + BlockNodes(b))
    decreases b, 2
  {
    hide Ids, AllIds, LayBlock, BlockNodes, Range;
    BlockIds(b, lo + 1);
    BeforeIds(LayBody(b, lo), lo + 1 + BlockNodes(b));
  }

  lemma {:induction false} BlockIds(b: seq<Stmt>, lo: nat)
    ensures AllIds(LayBlock(b, lo)) == Range(lo, lo + BlockNodes(b))
    decreases b, 1
  {
    hide Ids, AllIds, Range, LayStmt, StmtNodes;
    if b == [] {
      EmptyRange(lo);
    } else {
      var most, st := b[..|b| - 1], b[|b| - 1];
      var m := lo + BlockNodes(most);
      BlockIds(most, lo);
      StmtIds(st, m);
      SnocIds(LayBlock(most, lo), LayStmt(st, m), lo, m, m + StmtNodes(st));
      BlockNodesSnoc(most, st);
      assert b == most + [st];
    }
  }

  /** A parsed module uses every node of the arena up to its count exactly once. */
  lemma {:induction false} ModuleIds(b: seq<Stmt>)
    ensures Ids(LayModule(b)) == Range(0, 1 + BlockNodes(b))
  {
    hide Ids, AllIds, LayBlock, BlockNodes, Range;
    BlockIds(b, 1);
    BeforeIds(LayModule(b), 1 + BlockNodes(b));
  }
}

/** The archetypes that a program names, collected over its own syntax: they alone decide
    whether it is refused for want of an archetype. */
module Naming {
  import opened Options
  import opened Tokens
  import opened Syntax
  import opened Layout
  import opened Scopes
  import opened Limits
  import opened Registry
  import opened Archetypes
  import opened Compiling
  import Strings

  // ----- the names

  function TypeNames(ty: Option<VarType>): set<string> {
    match ty
    case Some(Arch(n)) => {n}
    case _ => {}
  }

  function ExprNames(e: Expr): set<string> {
    match e
    case Call(_, args) => ArgNames(args)
    case Insert(n, _) => {n}
    case Singleton(n, _) => {n}
    case Un(_, x) => ExprNames(x)
    case Bin(_, l, r) => ExprNames(l) + ExprNames(r)
    case Paren(x) => ExprNames(x)
    case _ => {}
  }

  function ArgNames(args: seq<Expr>): set<string> {
    if args == [] then {} else ArgNames(args[..|args| - 1]) + ExprNames(args[|args| - 1])
  }

  function StmtNames(st: Stmt): set<string> {
    match st
    case Let(_, ty, e) => TypeNames(ty) + ExprNames(e)
    case Assign(_, e) => ExprNames(e)
    case Do(_, args) => ArgNames(args)
    case Return(e) => ExprNames(e)
    case If(bs, els) => BranchNames(bs) + ElseNames(els)
    case While(c, b) => ExprNames(c) + BlockNames(b)
    case Fun(_, ps, ret, b) => ParamNames(ps) + TypeNames(ret) + BlockNames(b)
  }

  function ParamNames(ps: seq<Param>): set<string> {
    if ps == [] then {} else ParamNames(ps[..|ps| - 1]) + TypeNames(Some(ps[|ps| - 1].ty))
  }

  function BranchNames(bs: seq<Branch>): set<string> {
    if bs == [] then {}
    else BranchNames(bs[..|bs| - 1]) + ExprNames(bs[|bs| - 1].cond) + BlockNames(bs[|bs| - 1].body)
  }

  function ElseNames(els: Otherwise): set<string> {
    match els
    case NoElse => {}
    case Else(b) => BlockNames(b)
  }

  function BlockNames(b: seq<Stmt>): set<string> {
    if b == [] then {} else BlockNames(b[..|b| - 1]) + StmtNames(b[|b| - 1])
  }

  // ----- the nodes that name them

  /** Some registered archetype has the hash of each of the names. */
  ghost predicate Found(names: set<string>, reg: seq<Archetype>) {
    forall n | n in names :: ArchetypeOf(reg, n) != 0
  }

  lemma {:induction false} FoundJoin(a: set<string>, b: set<string>, reg: seq<Archetype>)
    ensures Found(a + b, reg) <==> Found(a, reg) && Found(b, reg)
  {
    hide ArchetypeOf;
    if Found(a + b, reg) {
      forall n | n in a ensures ArchetypeOf(reg, n) != 0 { assert n in a + b; }
      forall n | n in b ensures ArchetypeOf(reg, n) != 0 { assert n in a + b; }
    }
  }

  lemma {:induction false} OneFound(n: string, reg: seq<Archetype>)
    ensures Found({n}, reg) <==> ArchetypeOf(reg, n) != 0
    ensures Found({}, reg)
  {
    hide ArchetypeOf;
    assert n in {n};
  }

  lemma {:induction false} TypeFound(v: Val, ty: Option<VarType>, reg: seq<Archetype>)
    requires || (v.VarDeclNode? && v.varType == ty)
             || (v.ArgDeclNode? && Some(v.argType) == ty)
             || (v.FunDeclNode? && v.ret == ty)
    ensures NodeKnown(v, reg) <==> Found(TypeNames(ty), reg)
  {
    hide ArchetypeOf, Found;
    match ty
    case Some(Arch(n)) => OneFound(n, reg);
    case _ => OneFound("", reg);
  }

  lemma {:induction false} AllKnownSnoc(ts: seq<Tree>, t: Tree, reg: seq<Archetype>)
    ensures AllKnown([], reg)
    ensures AllKnown(ts + [t], reg) <==> AllKnown(ts, reg) && Known(t, reg)
    ensures AllKnown([t], reg) <==> Known(t, reg)
  {
    hide Known;
    assert (ts + [t])[..|ts|] == ts;
    assert [t][..0] == [];
  }

  lemma {:induction false} AllKnownTwo(ts: seq<Tree>, t: Tree, u: Tree, reg: seq<Archetype>)
    ensures AllKnown(ts + [t, u], reg) <==> AllKnown(ts, reg) && Known(t, reg) && Known(u, reg)
    ensures AllKnown([t, u], reg) <==> Known(t, reg) && Known(u, reg)
  {
    hide Known, AllKnown;
    AllKnownSnoc(ts, t, reg);
    AllKnownSnoc(ts + [t], u, reg);
    AllKnownSnoc([t], u, reg);
    assert (ts + [t]) + [u] == ts + [t, u] && [t] + [u] == [t, u];
  }

  lemma {:induction false} AllKnownCons(t: Tree, ts: seq<Tree>, reg: seq<Archetype>)
    ensures AllKnown([t] + ts, reg) <==> Known(t, reg) && AllKnown(ts, reg)
    decreases ts
  {
    hide Known;
    if ts == [] {
      assert [t] + [] == [t];
      AllKnownSnoc([], t, reg);
    } else {
      AllKnownCons(t, ts[..|ts| - 1], reg);
      assert ([t] + ts)[..|ts|] == [t] + ts[..|ts| - 1];
    }
  }

  lemma {:induction false} PlaceKnown(p: Place, lo: nat, reg: seq<Archetype>)
    ensures Known(LayPlace(p, lo), reg)
    decreases p
  {
    hide AllKnown;
    match p
    case Member(q, _) =>
      PlaceKnown(q, lo, reg);
      AllKnownSnoc([], LayPlace(q, lo), reg);
    case _ => AllKnownSnoc([], LayPlace(p, lo), reg);
  }

  lemma {:induction false} ExprKnown(e: Expr, lo: nat, reg: seq<Archetype>)
    ensures Known(LayExpr(e, lo), reg) <==> Found(ExprNames(e), reg)
    decreases e, 1
  {
    hide AllKnown, ArchetypeOf, Found, LayPlace, LayArgs, ArgNames;
    OneFound("", reg);
    AllKnownSnoc([], LayExpr(e, lo), reg);
    match e
    case Ref(p) => PlaceKnown(p, lo, reg);
    case Call(p, args) => CallKnown(p, args, lo, reg);
    case Insert(n, _) => OneFound(n, reg);
    case Singleton(n, _) => OneFound(n, reg);
    case Un(_, x) =>
      ExprKnown(x, lo, reg);
      AllKnownSnoc([], LayExpr(x, lo), reg);
    case Bin(_, l, r) =>
      ExprKnown(l, lo, reg);
      ExprKnown(r, lo + ExprNodes(l), reg);
      FoundJoin(ExprNames(l), ExprNames(r), reg);
      AllKnownTwo([], LayExpr(l, lo), LayExpr(r, lo + ExprNodes(l)), reg);
    case Paren(x) => ExprKnown(x, lo, reg);
    case _ =>
  }

  lemma {:induction false} CallKnown(p: Place, args: seq<Expr>, lo: nat, reg: seq<Archetype>)
    ensures Known(LayCall(p, args, lo), reg) <==> Found(ArgNames(args), reg)
    decreases args, 2
  {
    hide AllKnown, ArchetypeOf, Found, LayPlace, LayArgs, ArgNames;
    PlaceKnown(p, lo, reg);
    ArgsKnown(args, lo + PlaceNodes(p) + 1, reg);
    AllKnownCons(LayPlace(p, lo), LayArgs(args, lo + PlaceNodes(p) + 1), reg);
  }

  lemma {:induction false} ArgsKnown(args: seq<Expr>, lo: nat, reg: seq<Archetype>)
    ensures AllKnown(LayArgs(args, lo), reg) <==> Found(ArgNames(args), reg)
    decreases args, 0
  {
    hide AllKnown, Known, ArchetypeOf, Found, LayExpr, ExprNames;
    OneFound("", reg);
    AllKnownSnoc([], LayExpr(Lit(Nil), lo), reg);
    if args != [] {
      var most, e := args[..|args| - 1], args[|args| - 1];
      ArgsKnown(most, lo, reg);
      ExprKnown(e, lo + ArgNodes(most), reg);
      AllKnownSnoc(LayArgs(most, lo), LayExpr(e, lo + ArgNodes(most)), reg);
      FoundJoin(ArgNames(most), ExprNames(e), reg);
    }
  }

  lemma {:induction false} StmtKnown(st: Stmt, lo: nat, reg: seq<Archetype>)
    ensures Known(LayStmt(st, lo), reg) <==> Found(StmtNames(st), reg)
    decreases st, 1
  {
    hide AllKnown, ArchetypeOf, Found, LayPlace, LayExpr, LayArgs, LayBlock, LayBranches, LayElse, LayParams, ArgNames,
      ExprNames, BlockNames, BranchNames, ElseNames, ParamNames, TypeNames;
    match st
    case Let(n, ty, e) =>
      ExprKnown(e, lo, reg);
      TypeFound(VarDeclNode(n, ty), ty, reg);
      FoundJoin(TypeNames(ty), ExprNames(e), reg);
      AllKnownSnoc([], LayExpr(e, lo), reg);
    case Assign(p, e) =>
      PlaceKnown(p, lo, reg);
      ExprKnown(e, lo + PlaceNodes(p), reg);
      AllKnownTwo([], LayPlace(p, lo), LayExpr(e, lo + PlaceNodes(p)), reg);
    case Do(p, args) => CallKnown(p, args, lo, reg);
    case Return(e) =>
      ExprKnown(e, lo, reg);
      AllKnownSnoc([], LayExpr(e, lo), reg);
    case If(bs, els) => IfKnown(bs, els, lo, reg);
    case While(c, b) =>
      ExprKnown(c, lo, reg);
      BodyKnown(b, lo + ExprNodes(c) + 1, reg);
      FoundJoin(ExprNames(c), BlockNames(b), reg);
      AllKnownTwo([], LayExpr(c, lo), LayBody(b, lo + ExprNodes(c) + 1), reg);
    case Fun(n, ps, ret, b) =>
      ParamsKnown(ps, lo + 1, reg);
      BodyKnown(b, lo + 1 + |ps|, reg);
      TypeFound(FunDeclNode(n, ret, false), ret, reg);
      FoundJoin(ParamNames(ps), TypeNames(ret), reg);
      FoundJoin(ParamNames(ps) + TypeNames(ret), BlockNames(b), reg);
      AllKnownSnoc(LayParams(ps, lo + 1), LayBody(b, lo + 1 + |ps|), reg);
  }

  lemma {:induction false} ParamsKnown(ps: seq<Param>, lo: nat, reg: seq<Archetype>)
    ensures AllKnown(LayParams(ps, lo), reg) <==> Found(ParamNames(ps), reg)
    decreases ps
  {
    hide AllKnown, ArchetypeOf, Found, TypeNames;
    OneFound("", reg);
    AllKnownSnoc([], Tree(lo, CompoundNode, []), reg);
    if ps != [] {
      var most, p := ps[..|ps| - 1], ps[|ps| - 1];
      var t := Tree(lo + |most|, ArgDeclNode(p.name, p.ty), []);
      ParamsKnown(most, lo, reg);
      TypeFound(t.val, Some(p.ty), reg);
      AllKnownSnoc(LayParams(most, lo), t, reg);
      FoundJoin(ParamNames(most), TypeNames(Some(p.ty)), reg);
    }
  }

  lemma {:induction false} BodyKnown(b: seq<Stmt>, lo: nat, reg: seq<Archetype>)
    ensures Known(LayBody(b, lo), reg) <==> Found(BlockNames(b), reg)
    decreases b, 2
  {
    hide AllKnown, ArchetypeOf, Found, LayBlock, BlockNames;
    BlockKnown(b, lo + 1, reg);
  }

  lemma {:induction false} BlockKnown(b: seq<Stmt>, lo: nat, reg: seq<Archetype>)
    ensures AllKnown(LayBlock(b, lo), reg) <==> Found(BlockNames(b), reg)
    decreases b, 0
  {
    hide AllKnown, Known, ArchetypeOf, Found, LayStmt, StmtNames, BlockNodes;
    OneFound("", reg);
    AllKnownSnoc([], LayModule([]), reg);
    if b != [] {
      var most, st := b[..|b| - 1], b[|b| - 1];
      BlockKnown(most, lo, reg);
      StmtKnown(st, lo + BlockNodes(most), reg);
      AllKnownSnoc(LayBlock(most, lo), LayStmt(st, lo + BlockNodes(most)), reg);
      FoundJoin(BlockNames(most), StmtNames(st), reg);
    }
  }

  lemma {:induction false} IfKnown(bs: seq<Branch>, els: Otherwise, lo: nat, reg: seq<Archetype>)
    ensures Known(LayStmt(If(bs, els), lo), reg) <==> Found(BranchNames(bs), reg) && Found(ElseNames(els), reg)
    ensures Found(StmtNames(If(bs, els)), reg) <==> Found(BranchNames(bs), reg) && Found(ElseNames(els), reg)
    decreases If(bs, els), 0
  {
    hide AllKnown, ArchetypeOf, Found, LayBody, LayBranches, BranchNames, BlockNames;
    var ts, after := LayBranches(bs, lo + 1), lo + 1 + BranchNodes(bs);
    BranchesKnown(bs, lo + 1, reg);
    FoundJoin(BranchNames(bs), ElseNames(els), reg);
    match els
    case NoElse =>
      OneFound("", reg);
      assert ts + [] == ts;
    case Else(b) =>
      BodyKnown(b, after, reg);
      AllKnownSnoc(ts, LayBody(b, after), reg);
  }

  lemma {:induction false} BranchesKnown(bs: seq<Branch>, lo: nat, reg: seq<Archetype>)
    ensures AllKnown(LayBranches(bs, lo), reg) <==> Found(BranchNames(bs), reg)
    decreases bs, 0
  {
    hide AllKnown, Known, ArchetypeOf, Found, LayExpr, LayBody, ExprNames, BlockNames, ExprNodes, BranchNodes;
    OneFound("", reg);
    AllKnownSnoc([], LayModule([]), reg);
    if bs != [] {
      var most, x := bs[..|bs| - 1], bs[|bs| - 1];
      var m := lo + BranchNodes(most);
      BranchesKnown(most, lo, reg);
      ExprKnown(x.cond, m, reg);
      BodyKnown(x.body, m + ExprNodes(x.cond), reg);
      AllKnownTwo(LayBranches(most, lo), LayExpr(x.cond, m), LayBody(x.body, m + ExprNodes(x.cond)), reg);
      FoundJoin(BranchNames(most), ExprNames(x.cond), reg);
      FoundJoin(BranchNames(most) + ExprNames(x.cond), BlockNames(x.body), reg);
    }
  }

  // ----- when a program is refused, and what its nodes get

  lemma {:induction false} NoneFound(reg: seq<Archetype>, n: string)
    ensures ArchetypeOf(reg, n) == 0
       <==> forall j :: 0 <= j < |reg| ==> Strings.Fnv(reg[j].name) != Strings.Fnv(Bytes(n))
  {
    hide Strings.Fnv;
    FindInNewest(reg, Strings.Fnv(Bytes(n)));
  }

  /** A program whose names resolve is refused for want of an archetype if and only if no
      registered one has the hash of one of the names that its types, its insertions and its
      singletons give. Otherwise it compiles. */
  lemma {:induction false} ArchetypesIff(b: seq<Stmt>, reg: seq<Archetype>)
    requires ResolveModule(LayModule(b), STACK).Done?
    ensures Analyze(b, reg) == Refused(ARCHETYPE_NOT_FOUND)
       <==> exists n | n in BlockNames(b) ::
              forall j :: 0 <= j < |reg| ==> Strings.Fnv(reg[j].name) != Strings.Fnv(Bytes(n))
    ensures Analyze(b, reg).Program? || Analyze(b, reg) == Refused(ARCHETYPE_NOT_FOUND)
  {
    hide ResolveModule, LayBlock, AllKnown, Picks, BlockNames, Strings.Fnv, ArchetypeOf;
    BlockKnown(b, 1, reg);
    forall n
      ensures ArchetypeOf(reg, n) == 0
         <==> forall j :: 0 <= j < |reg| ==> Strings.Fnv(reg[j].name) != Strings.Fnv(Bytes(n))
    {
      NoneFound(reg, n);
    }
  }

  lemma {:induction false} NamedIs(v: Val, n: string)
    ensures Named(v) == Some(n)
       <==> || (v.VarDeclNode? && v.varType == Some(Arch(n)))
            || (v.ArgDeclNode? && v.argType == Arch(n))
            || (v.FunDeclNode? && v.ret == Some(Arch(n)))
            || v == InsertNode(n) || v == SingletonNode(n)
  {
  }

  /** The nodes that get an archetype are the variables, arguments and functions with the
      type of one, the insertions and the singletons; each gets the one of its name. */
  lemma {:induction false} PicksByType(t: Tree, p: Path, n: string, reg: seq<Archetype>)
    requires NoRepeats(t) && IsPath(t, p)
    ensures var x := NodeAt(t, p);
            (|| (x.val.VarDeclNode? && x.val.varType == Some(Arch(n)))
             || (x.val.ArgDeclNode? && x.val.argType == Arch(n))
             || (x.val.FunDeclNode? && x.val.ret == Some(Arch(n)))
             || x.val == InsertNode(n) || x.val == SingletonNode(n))
            ==> x.id in Picks(t, reg) && Picks(t, reg)[x.id] == FindIn(reg, Strings.Fnv(Bytes(n)))
    ensures var x := NodeAt(t, p);
            x.id in Picks(t, reg) ==>
              || (x.val.VarDeclNode? && x.val.varType.Some? && x.val.varType.value.Arch?)
              || (x.val.ArgDeclNode? && x.val.argType.Arch?)
              || (x.val.FunDeclNode? && x.val.ret.Some? && x.val.ret.value.Arch?)
              || x.val.InsertNode? || x.val.SingletonNode?
  {
    hide NodeAt, Picks, Strings.Fnv, Bytes, NoRepeats;
    var x := NodeAt(t, p);
    NamedIs(x.val, n);
    if Named(x.val).Some? {
      PicksRight(t, p, reg);
    } else {
      NotPicked(t, p, reg);
    }
  }

  lemma {:induction false} NotPicked(t: Tree, p: Path, reg: seq<Archetype>)
    requires NoRepeats(t) && IsPath(t, p) && Named(NodeAt(t, p).val).None?
    ensures NodeAt(t, p).id !in Picks(t, reg)
    decreases p
  {
    hide AllPicks, AllIds, ArchetypeOf, Named;
    KidsNoRepeats(t);
    RootNotBelow(t);
    AllPicksWithin(t.kids, reg);
    if p != [] {
      var k, i := p[0], NodeAt(t, p).id;
      KidNoRepeats(t.kids, k);
      NotPicked(t.kids[k], p[1..], reg);
      NodeInIds(t.kids[k], p[1..]);
      KidInIds(t.kids, k, i);
      ElsewhereNotPicked(t.kids, k, i, reg);
    }
  }

  lemma {:induction false} ElsewhereNotPicked(ts: seq<Tree>, k: nat, i: nat, reg: seq<Archetype>)
    requires k < |ts| && NoRepeatsAll(ts) && i in Ids(ts[k]) && i !in Picks(ts[k], reg)
    ensures i !in AllPicks(ts, reg)
    decreases ts
  {
    hide Ids, Picks, NoRepeatsAll, NoRepeats;
    var most, t := ts[..|ts| - 1], ts[|ts| - 1];
    assert ts == most + [t];
    SplitNoRepeats(most, t);
    PicksWithin(t, reg);
    AllPicksWithin(most, reg);
    if k < |most| {
      ElsewhereNotPicked(most, k, i, reg);
      KidInIds(most, k, i);
    }
  }

  /** The type of a result is looked up too. */
  lemma {:induction false} UnknownResult()
    ensures Analyze([Fun("f", [], Some(Arch("foo")), [])], []) == Refused(ARCHETYPE_NOT_FOUND)
  {
    hide Known, AllKnown, Picks, ResolveModule, Strings.Fnv, LayStmt;
    var b := [Fun("f", [], Some(Arch("foo")), [])];
    FunctionAlone(Some(Arch("foo")));
    assert b[..0] == [];
    assert "foo" in BlockNames(b);
    ArchetypesIff(b, []);
  }

  lemma {:induction false} LayAlone(ret: Option<VarType>)
    ensures LayModule([Fun("f", [], ret, [])])
         == Tree(0, ModuleNode, [Tree(1, FunDeclNode("f", ret, false), [Tree(2, CompoundNode, [])])])
  {
    EmptyBody(2);
    assert [Fun("f", [], ret, [])][..0] == [];
    assert LayBlock([], 1) == [] && LayParams([], 2) == [] && BlockNodes([]) == 0;
    var body := Tree(2, CompoundNode, []);
    assert [] + [body] == [body];
    var f := LayStmt(Fun("f", [], ret, []), 1);
    assert f == Tree(1, FunDeclNode("f", ret, false), [body]);
    assert [] + [f] == [f];
  }

  lemma {:induction false} FunctionAlone(ret: Option<VarType>)
    ensures ResolveModule(LayModule([Fun("f", [], ret, [])]), STACK).Done?
  {
    hide LayModule, BlockNodes, Distinct;
    var body := Tree(2, CompoundNode, []);
    var f := Tree(1, FunDeclNode("f", ret, false), [body]);
    var b, t := [Fun("f", [], ret, [])], Tree(0, ModuleNode, [f]);
    LayAlone(ret);
    assert BlockNodes(b) < 1024 by { FewNodes(ret); }
    ModuleFits(b, 1024);
    AloneListed(f);
    var env := FunctionBindings([f]);
    DeclareIff([f], None);
    Childless(body, env);
    OneKid(body, env);
    assert Resolve(f, env, None) == Done(map[], env);
    OneKid(f, env);
  }

  lemma {:induction false} FewNodes(ret: Option<VarType>)
    ensures BlockNodes([Fun("f", [], ret, [])]) == 2
  {
    assert [Fun("f", [], ret, [])][1..] == [];
  }

  lemma {:induction false} AloneListed(f: Tree)
    requires f.val.FunDeclNode?
    ensures |FunctionBindings([f])| == 1 && Distinct(FunctionBindings([f]))
  {
    assert [f][..0] == [];
  }
}

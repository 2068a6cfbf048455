/** What the fixed size of the resolver's stack means (nucleus/lang/analyzer/symbol.h):
    which modules resolve, and which of them need more places than it has. */
module Limits {
  import opened Options
  import opened Tokens
  import opened Syntax
  import opened Layout
  import opened Scopes

  const STACK_SIZE := 1024
  const STACK: Option<nat> := Some(STACK_SIZE)

  ghost predicate Distinct(env: seq<Binding>) {
    forall i, j :: 0 <= i < j < |env| ==> env[i].name != env[j].name
  }

  // ----- a limited stack answers like an unlimited one, or overflows

  lemma {:induction false} FullOrSame(t: Tree, env: seq<Binding>, n: nat)
    ensures Resolve(t, env, None) != Stuck(UNDEFINED)
    ensures Resolve(t, env, Some(n)) == Resolve(t, env, None) || Resolve(t, env, Some(n)) == Stuck(UNDEFINED)
    decreases t, 1
  {
    hide ResolveAll;
    var entered := Enter(t.val, t.id, env, None);
    if entered.Done? { AllFullOrSame(t.kids, entered.env, n); }
  }

  lemma {:induction false} AllFullOrSame(ts: seq<Tree>, env: seq<Binding>, n: nat)
    ensures ResolveAll(ts, env, None) != Stuck(UNDEFINED)
    ensures ResolveAll(ts, env, Some(n)) == ResolveAll(ts, env, None)
            || ResolveAll(ts, env, Some(n)) == Stuck(UNDEFINED)
    decreases ts, 2
  {
    hide Resolve;
    if ts != [] {
      AllFullOrSame(ts[..|ts| - 1], env, n);
      var all := ResolveAll(ts[..|ts| - 1], env, None);
      if all.Done? { FullOrSame(ts[|ts| - 1], all.env, n); }
    }
  }

  // ----- which modules resolve

  /** The functions of a module, in order. */
  function FunctionBindings(ts: seq<Tree>): seq<Binding> {
    if ts == [] then []
    else
      var t := ts[|ts| - 1];
      FunctionBindings(ts[..|ts| - 1]) + if t.val.FunDeclNode? then [Binding(t.val.name, t.id)] else []
  }

  lemma {:induction false} DistinctSnoc(env: seq<Binding>, b: Binding)
    ensures Distinct(env + [b]) <==> Distinct(env) && Lookup(env, b.name).None?
  {
    LookupIn(env, b.name);
    var more := env + [b];
    assert more[|env|] == b && forall i :: 0 <= i < |env| ==> more[i] == env[i];
  }

  /** The functions are declared if and only if their names are pairwise distinct and
      the stack has a place for each. */
  lemma {:induction false} DeclareIff(ts: seq<Tree>, limit: Option<nat>)
    ensures var r, fs := DeclareFunctions(ts, limit), FunctionBindings(ts);
            && (r.Done? <==> Distinct(fs) && (limit.Some? ==> |fs| <= limit.value))
            && (r.Done? ==> r.env == fs)
            && (r.Stuck? && limit.None? ==> r != Stuck(UNDEFINED))
            && (r.Stuck? && Distinct(fs) ==> r == Stuck(UNDEFINED))
    decreases ts
  {
    hide Lookup, Distinct;
    if ts == [] {
      assert Distinct([]) by { NoneDistinct([]); }
    } else {
      var most, t := ts[..|ts| - 1], ts[|ts| - 1];
      DeclareIff(most, limit);
      assert FunctionBindings(most) + [] == FunctionBindings(most);
      if t.val.FunDeclNode? { DistinctSnoc(FunctionBindings(most), Binding(t.val.name, t.id)); }
    }
  }

  lemma {:induction false} NoneDistinct(env: seq<Binding>)
    requires env == []
    ensures Distinct(env)
  {
  }

  /** A module resolves if and only if its functions have different names and fit on the
      stack, and then every declaration is new and has room where it stands and every
      reference sees a declaration. */
  lemma {:induction false} ModuleIff(t: Tree, limit: Option<nat>)
    requires NoRepeats(t)
    ensures var fs := FunctionBindings(t.kids);
            (ResolveModule(t, limit).Done? <==>
               Distinct(fs) && (limit.Some? ==> |fs| <= limit.value) && AllFine(t, fs, limit))
    ensures var fs, r := FunctionBindings(t.kids), ResolveModule(t, limit);
            r.Done? ==> r.env == fs + Exports(t) && RefsRight(t, fs, r.refs)
  {
    hide Distinct, AllFine, RefsRight, NoRepeats, Resolve, Exports;
    DeclareIff(t.kids, limit);
    ResolveSees(t, FunctionBindings(t.kids), limit);
  }

  // ----- when the stack overflows

  /** Every declaration of the tree finds room on a stack of `n` places. */
  ghost predicate AllFit(t: Tree, before: seq<Binding>, n: nat) {
    forall p | IsPath(t, p) && Declares(NodeAt(t, p).val).Some? :: |InSight(t, p, before)| < n
  }

  lemma {:induction false} FineFits(t: Tree, before: seq<Binding>, n: nat)
    ensures AllFine(t, before, Some(n)) <==> AllFine(t, before, None) && AllFit(t, before, n)
  {
    if AllFine(t, before, Some(n)) {
      forall p | IsPath(t, p) ensures NodeFine(NodeAt(t, p), InSight(t, p, before), None) {
        assert NodeFine(NodeAt(t, p), InSight(t, p, before), Some(n));
      }
      forall p | IsPath(t, p) && Declares(NodeAt(t, p).val).Some? ensures |InSight(t, p, before)| < n {
        assert NodeFine(NodeAt(t, p), InSight(t, p, before), Some(n));
      }
    }
    if AllFine(t, before, None) && AllFit(t, before, n) {
      forall p | IsPath(t, p) ensures NodeFine(NodeAt(t, p), InSight(t, p, before), Some(n)) {
        assert NodeFine(NodeAt(t, p), InSight(t, p, before), None);
      }
    }
  }

  /** A module that resolves in an unlimited environment overflows a stack of `n` places
      if and only if it has more functions than that, or some declaration stands where
      so many names are in sight. Otherwise it resolves just the same. */
  lemma {:induction false} OverflowIff(t: Tree, n: nat)
    requires NoRepeats(t) && ResolveModule(t, None).Done?
    ensures var fs := FunctionBindings(t.kids);
            if |fs| <= n && AllFit(t, fs, n) then ResolveModule(t, Some(n)) == ResolveModule(t, None)
            else ResolveModule(t, Some(n)) == Stuck(UNDEFINED)
  {
    hide Distinct, AllFine, AllFit, NoRepeats, Resolve;
    var fs := FunctionBindings(t.kids);
    DeclareIff(t.kids, None);
    DeclareIff(t.kids, Some(n));
    ModuleIff(t, None);
    ModuleIff(t, Some(n));
    FineFits(t, fs, n);
    FullOrSame(t, fs, n);
  }

  // ----- how far the stack grows

  /** What every step of resolution keeps: the stack only grows at its top, and its names
      stay pairwise distinct. */
  lemma {:induction false} ResolveKeeps(t: Tree, env: seq<Binding>, limit: Option<nat>)
    requires Resolve(t, env, limit).Done?
    ensures env <= Resolve(t, env, limit).env
    ensures Distinct(env) ==> Distinct(Resolve(t, env, limit).env)
    decreases t, 1
  {
    hide Distinct, ResolveAll, Lookup, Full;
    EnterKeeps(t, env, limit);
    ResolveAllKeeps(t.kids, Enter(t.val, t.id, env, limit).env, limit);
  }

  lemma {:induction false} EnterKeeps(t: Tree, env: seq<Binding>, limit: Option<nat>)
    requires Enter(t.val, t.id, env, limit).Done?
    ensures Enter(t.val, t.id, env, limit).env == env + Own(t)
    ensures Distinct(env) ==> Distinct(Enter(t.val, t.id, env, limit).env)
  {
    hide Distinct, Full;
    EnterOwn(t, env, limit);
    if Declares(t.val).Some? {
      DistinctSnoc(env, Binding(Declares(t.val).value, t.id));
    } else {
      assert env + [] == env;
    }
  }

  lemma {:induction false} ResolveAllKeeps(ts: seq<Tree>, env: seq<Binding>, limit: Option<nat>)
    requires ResolveAll(ts, env, limit).Done?
    ensures env <= ResolveAll(ts, env, limit).env
    ensures Distinct(env) ==> Distinct(ResolveAll(ts, env, limit).env)
    decreases ts, 2
  {
    hide Distinct, Resolve;
    if ts != [] {
      ResolveAllKeeps(ts[..|ts| - 1], env, limit);
      ResolveKeeps(ts[|ts| - 1], ResolveAll(ts[..|ts| - 1], env, limit).env, limit);
    }
  }

  /** All declarations of a tree, whether or not they are ever in sight together. */
  function Decls(t: Tree): nat
    decreases t, 0
  {
    |Own(t)| + AllDecls(t.kids)
  }

  function AllDecls(ts: seq<Tree>): nat
    decreases ts, 0
  {
    if ts == [] then 0 else AllDecls(ts[..|ts| - 1]) + Decls(ts[|ts| - 1])
  }

  /** Room for all declarations at once is enough. */
  lemma {:induction false} RoomEnough(t: Tree, env: seq<Binding>, n: nat)
    requires |env| + Decls(t) <= n
    ensures Resolve(t, env, Some(n)) == Resolve(t, env, None)
    ensures Resolve(t, env, None).Done? ==> |Resolve(t, env, None).env| <= |env| + Decls(t)
    decreases t, 1
  {
    hide ResolveAll, AllDecls, Lookup;
    var entered := Enter(t.val, t.id, env, None);
    if entered.Done? {
      EnterOwn(t, env, None);
      AllRoomEnough(t.kids, entered.env, n);
    }
  }

  lemma {:induction false} AllRoomEnough(ts: seq<Tree>, env: seq<Binding>, n: nat)
    requires |env| + AllDecls(ts) <= n
    ensures ResolveAll(ts, env, Some(n)) == ResolveAll(ts, env, None)
    ensures ResolveAll(ts, env, None).Done? ==> |ResolveAll(ts, env, None).env| <= |env| + AllDecls(ts)
    decreases ts, 2
  {
    hide Resolve, Decls;
    if ts != [] {
      var most := ts[..|ts| - 1];
      AllRoomEnough(most, env, n);
      var all := ResolveAll(most, env, None);
      if all.Done? { RoomEnough(ts[|ts| - 1], all.env, n); }
    }
  }

  /** A module with no more nodes than the stack has places never overflows it. */
  lemma {:induction false} FewNodesFit(t: Tree, n: nat)
    requires |Ids(t)| <= n
    ensures ResolveModule(t, Some(n)) == ResolveModule(t, None)
  {
    hide AllDecls, AllIds, Resolve, Distinct;
    KidsFit(t.kids);
    DeclareIff(t.kids, None);
    DeclareIff(t.kids, Some(n));
    DeclareSame(t.kids, n);
    if DeclareFunctions(t.kids, None).Done? { RoomEnough(t, FunctionBindings(t.kids), n); }
  }

  lemma {:induction false} DeclareSame(ts: seq<Tree>, n: nat)
    requires |FunctionBindings(ts)| <= n
    ensures DeclareFunctions(ts, Some(n)) == DeclareFunctions(ts, None)
    decreases ts
  {
    if ts != [] {
      DeclareSame(ts[..|ts| - 1], n);
      DeclareIff(ts[..|ts| - 1], None);
    }
  }

  lemma {:induction false} DeclsFit(t: Tree)
    ensures Decls(t) <= |Ids(t)| && (t.val.FunDeclNode? ==> Decls(t) + 1 <= |Ids(t)|)
    decreases t, 0
  {
    hide AllDecls, AllIds;
    assert |Ids(t)| == 1 + |AllIds(t.kids)|;
    KidsFit(t.kids);
  }

  lemma {:induction false} KidsFit(ts: seq<Tree>)
    ensures |FunctionBindings(ts)| + AllDecls(ts) <= |AllIds(ts)|
    decreases ts
  {
    hide Decls, Ids;
    if ts != [] {
      KidsFit(ts[..|ts| - 1]);
      DeclsFit(ts[|ts| - 1]);
    }
  }

  // ----- there are no shadowed functions

  /** A reference with the name of a function of the module refers to that function. */
  lemma {:induction false} FunctionWins(t: Tree, p: Path, k: nat, limit: Option<nat>)
    requires NoRepeats(t) && ResolveModule(t, limit).Done? && IsPath(t, p) && NodeAt(t, p).val.SymRefNode?
    requires k < |t.kids| && t.kids[k].val.FunDeclNode? && t.kids[k].val.name == NodeAt(t, p).val.name
    ensures var x, refs := NodeAt(t, p), ResolveModule(t, limit).refs;
            x.id in refs && refs[x.id] == t.kids[k].id
  {
    hide Resolve, Sees, AllFine, Distinct, NodeAt, Lookup, InSight;
    var fs, refs, x := FunctionBindings(t.kids), ResolveModule(t, limit).refs, NodeAt(t, p);
    ModuleIff(t, limit);
    var d := Binding(x.val.name, refs[x.id]);
    LookupIn(InSight(t, p, fs), x.val.name);
    SightIff(t, p, fs, d);
    FunctionListed(t.kids, k);
    var f := Binding(t.kids[k].val.name, t.kids[k].id);
    if d in fs {
      SameBinding(fs, d, f);
    } else {
      var q :| IsPath(t, q) && d in Own(NodeAt(t, q)) && Sees(t, q, p);
      FineAt(t, q, fs, limit);
      SightIff(t, q, fs, f);
      LookupIn(InSight(t, q, fs), d.name);
      assert false;
    }
  }

  lemma {:induction false} FineAt(t: Tree, p: Path, before: seq<Binding>, limit: Option<nat>)
    requires AllFine(t, before, limit) && IsPath(t, p)
    ensures NodeFine(NodeAt(t, p), InSight(t, p, before), limit)
  {
  }

  lemma {:induction false} SameBinding(env: seq<Binding>, b: Binding, c: Binding)
    requires Distinct(env) && b in env && c in env && b.name == c.name
    ensures b == c
  {
    var i :| 0 <= i < |env| && env[i] == b;
    var j :| 0 <= j < |env| && env[j] == c;
  }

  lemma {:induction false} FunctionListed(ts: seq<Tree>, k: nat)
    requires k < |ts| && ts[k].val.FunDeclNode?
    ensures Binding(ts[k].val.name, ts[k].id) in FunctionBindings(ts)
    decreases ts
  {
    if k < |ts| - 1 { FunctionListed(ts[..|ts| - 1], k); }
  }

  // ----- modules that do overflow

  /** A program of `n` empty functions, named `f`, `ff`, `fff` and so on. */
  function Many(n: nat): (b: seq<Stmt>)
    ensures |b| == n
  {
    if n == 0 then [] else Many(n - 1) + [Fun(Long(n), [], None, [])]
  }

  function Long(n: nat): (s: string)
    ensures |s| == n
  {
    if n == 0 then [] else Long(n - 1) + ['f']
  }

  lemma {:induction false} ManyFunctions(n: nat, lo: nat)
    ensures var fs := FunctionBindings(LayBlock(Many(n), lo));
            |fs| == n && forall i :: 0 <= i < n ==> fs[i].name == Long(i + 1)
    decreases n
  {
    hide Long, LayStmt, LayBlock, BlockNodes, Many;
    if n == 0 {
      assert FunctionBindings(LayBlock(Many(0), lo)) == [] by { NoFunctions(lo); }
    } else {
      ManyFunctions(n - 1, lo);
      LastFunction(n, lo);
    }
  }

  lemma {:induction false} NoFunctions(lo: nat)
    ensures FunctionBindings(LayBlock(Many(0), lo)) == []
  {
  }

  lemma {:induction false} ManyLay(n: nat, lo: nat)
    requires n > 0
    ensures var m := lo + BlockNodes(Many(n - 1));
            LayBlock(Many(n), lo) == LayBlock(Many(n - 1), lo) + [LayStmt(Fun(Long(n), [], None, []), m)]
  {
    hide Long, LayStmt, BlockNodes;
    assert Many(n)[..n - 1] == Many(n - 1);
  }

  lemma {:induction false} FunctionSnoc(ts: seq<Tree>, t: Tree)
    requires t.val.FunDeclNode?
    ensures FunctionBindings(ts + [t]) == FunctionBindings(ts) + [Binding(t.val.name, t.id)]
  {
    assert (ts + [t])[..|ts|] == ts;
  }

  lemma {:induction false} LastFunction(n: nat, lo: nat)
    requires n > 0
    ensures var t := LayStmt(Fun(Long(n), [], None, []), lo + BlockNodes(Many(n - 1)));
            FunctionBindings(LayBlock(Many(n), lo))
              == FunctionBindings(LayBlock(Many(n - 1), lo)) + [Binding(Long(n), t.id)]
  {
    hide Long, BlockNodes, LayBlock, LayBody, LayParams, Many, FunctionBindings;
    ManyLay(n, lo);
    FunctionSnoc(LayBlock(Many(n - 1), lo), LayStmt(Fun(Long(n), [], None, []), lo + BlockNodes(Many(n - 1))));
  }

  lemma {:induction false} Childless(t: Tree, env: seq<Binding>)
    requires t.kids == [] && t.val.CompoundNode?
    ensures Resolve(t, env, None) == Done(map[], env)
  {
  }

  lemma {:induction false} EmptyFunction(n: string, lo: nat, env: seq<Binding>)
    ensures Resolve(LayStmt(Fun(n, [], None, []), lo), env, None) == Done(map[], env)
  {
    hide Lookup, LayBody;
    var body := LayBody([], lo + 1);
    assert body.kids == [] && body.val.CompoundNode? by { EmptyBody(lo + 1); }
    Childless(body, env);
    assert LayStmt(Fun(n, [], None, []), lo).kids == [body];
    OneKid(body, env);
  }

  lemma {:induction false} EmptyBody(lo: nat)
    ensures LayBody([], lo) == Tree(lo, CompoundNode, [])
  {
  }

  lemma {:induction false} OneKid(t: Tree, env: seq<Binding>)
    requires Resolve(t, env, None) == Done(map[], env)
    ensures ResolveAll([t], env, None) == Done(map[], env)
  {
    hide Resolve;
    assert [t][..0] == [];
  }

  lemma {:induction false} ManyResolve(n: nat, lo: nat, env: seq<Binding>)
    ensures ResolveAll(LayBlock(Many(n), lo), env, None) == Done(map[], env)
    decreases n
  {
    hide Long, LayStmt, Resolve, BlockNodes;
    if n > 0 {
      hide LayBlock, Many;
      ManyResolve(n - 1, lo, env);
      ManyLay(n, lo);
      var most, m := LayBlock(Many(n - 1), lo), lo + BlockNodes(Many(n - 1));
      var t := LayStmt(Fun(Long(n), [], None, []), m);
      assert (most + [t])[..|most|] == most;
      EmptyFunction(Long(n), m, env);
    }
  }

  /** However large the stack, a module with one function more, all named differently,
      resolves without a limit and overflows the stack. */
  lemma {:induction false} ManyOverflow(n: nat)
    ensures ResolveModule(LayModule(Many(n + 1)), None).Done?
    ensures ResolveModule(LayModule(Many(n + 1)), Some(n)) == Stuck(UNDEFINED)
  {
    hide Long, LayBlock, Many;
    ManyFunctions(n + 1, 1);
    var ts := LayBlock(Many(n + 1), 1);
    var fs := FunctionBindings(ts);
    forall i, j | 0 <= i < j < |fs| ensures fs[i].name != fs[j].name {
      assert |Long(i + 1)| < |Long(j + 1)|;
    }
    DeclareIff(ts, None);
    DeclareIff(ts, Some(n));
    ManyResolve(n + 1, 1, fs);
  }
}

/** The rules of the names, in the node types themselves and without an environment: which
    modules resolve, what each reference refers to, and what a node leaves declared. */
module Visibility {
  import opened Options
  import opened Tokens
  import opened Syntax
  import opened Layout
  import opened Scopes
  import opened Limits
  import opened Stopping

  // ----- what is declared after a node

  /** After a block or a function everything is as it was before it. After any other node
      its own declaration stands, if it is a variable or an argument, and whatever its
      children leave. */
  lemma {:induction false} ResolveLeaves(t: Tree, env: seq<Binding>, limit: Option<nat>)
    requires Resolve(t, env, limit).Done?
    ensures t.val.CompoundNode? || t.val.FunDeclNode? ==> Resolve(t, env, limit).env == env
    ensures !t.val.CompoundNode? && !t.val.FunDeclNode? ==>
              var own := if t.val.VarDeclNode? || t.val.ArgDeclNode? then [Binding(t.val.name, t.id)] else [];
              var kids := ResolveAll(t.kids, env + own, limit);
              kids.Done? && Resolve(t, env, limit).env == kids.env
  {
    hide ResolveAll, Lookup;
    assert env + [] == env;
  }

  /** Each child finds what the ones before it left. */
  lemma {:induction false} KidsLeave(ts: seq<Tree>, t: Tree, env: seq<Binding>, limit: Option<nat>)
    requires ResolveAll(ts + [t], env, limit).Done?
    ensures ResolveAll([], env, limit).env == env
    ensures var before := ResolveAll(ts, env, limit);
            && before.Done? && Resolve(t, before.env, limit).Done?
            && ResolveAll(ts + [t], env, limit).env == Resolve(t, before.env, limit).env
  {
    hide Resolve;
    assert (ts + [t])[..|ts|] == ts;
  }

  /** What was not declared before a tree is declared after it if and only if it is a
      variable or argument of the tree that no block or function of the tree holds. */
  lemma {:induction false} LeavesIff(t: Tree, env: seq<Binding>, limit: Option<nat>, b: Binding)
    requires Resolve(t, env, limit).Done?
    ensures b in Resolve(t, env, limit).env
       <==> || b in env
            || exists q | IsPath(t, q) ::
                 && (NodeAt(t, q).val.VarDeclNode? || NodeAt(t, q).val.ArgDeclNode?)
                 && b == Binding(NodeAt(t, q).val.name, NodeAt(t, q).id)
                 && forall n | 0 <= n < |q| :: !Along(t, q, n).val.CompoundNode? && !Along(t, q, n).val.FunDeclNode?
  {
    hide Resolve, AllFine, Exports, Escapes, Own, NodeAt, Along;
    DoneFine(t, env, limit);
    ExportsAre(t, b);
    forall q | IsPath(t, q)
      ensures b in Own(NodeAt(t, q)) && Escapes(t, q)
         <==> && (NodeAt(t, q).val.VarDeclNode? || NodeAt(t, q).val.ArgDeclNode?)
              && b == Binding(NodeAt(t, q).val.name, NodeAt(t, q).id)
              && forall n | 0 <= n < |q| :: !Along(t, q, n).val.CompoundNode? && !Along(t, q, n).val.FunDeclNode?
    {
      OwnIs(NodeAt(t, q), b);
      EscapesIs(t, q);
    }
  }

  lemma {:induction false} EscapesIs(t: Tree, q: Path)
    requires IsPath(t, q)
    ensures Escapes(t, q)
       <==> forall n | 0 <= n < |q| :: !Along(t, q, n).val.CompoundNode? && !Along(t, q, n).val.FunDeclNode?
  {
    hide Along;
  }

  // ----- the order of the nodes

  /** A node comes before those below it and before those to the right of its way down,
      and before no others. */
  lemma {:induction false} BeforeIff(q: Path, p: Path)
    ensures Before(q, p)
       <==> || (q <= p && q != p)
            || LeftOf(q, p)
    decreases p
  {
    hide LeftOf;
    if p != [] && q != [] {
      LeftIff(q, p);
      StepDown(q[0], q[1..], p);
      assert q == [q[0]] + q[1..] && p == [p[0]] + p[1..];
      if q[0] == p[0] { BeforeIff(q[1..], p[1..]); }
    } else {
      NotLeft(q, p);
    }
  }

  /** The ways down part, and that of `q` goes further left. */
  ghost predicate LeftOf(q: Path, p: Path) {
    exists n :: 0 <= n < |q| && n < |p| && q[..n] == p[..n] && q[n] < p[n]
  }

  lemma {:induction false} NotLeft(q: Path, p: Path)
    requires p == [] || q == []
    ensures !LeftOf(q, p)
  {
  }

  lemma {:induction false} LeftIff(q: Path, p: Path)
    requires p != [] && q != []
    ensures LeftOf(q, p) <==> q[0] < p[0] || (q[0] == p[0] && LeftOf(q[1..], p[1..]))
  {
    if LeftOf(q, p) {
      var n :| 0 <= n < |q| && n < |p| && q[..n] == p[..n] && q[n] < p[n];
      if n > 0 {
        assert q[..n][0] == p[..n][0];
        assert q[1..][..n - 1] == q[..n][1..] && p[1..][..n - 1] == p[..n][1..];
      }
    }
    if q[0] < p[0] { assert q[..0] == p[..0]; }
    if q[0] == p[0] && LeftOf(q[1..], p[1..]) {
      var n :| 0 <= n < |q[1..]| && n < |p[1..]| && q[1..][..n] == p[1..][..n] && q[1..][n] < p[1..][n];
      assert q[..n + 1] == [q[0]] + q[1..][..n] && p[..n + 1] == [p[0]] + p[1..][..n];
    }
  }

  // ----- which modules resolve, and what their references are

  /** What a name may refer to at `p`: a function of the module. */
  ghost predicate FunctionNamed(t: Tree, name: string, id: nat) {
    exists k ::
      0 <= k < |t.kids| && t.kids[k].val.FunDeclNode? && t.kids[k].val.name == name && t.kids[k].id == id
  }

  /** Or a variable or argument before it, with every block and function around that one
      around `p` too. */
  ghost predicate Shown(t: Tree, q: Path, p: Path, name: string, id: nat)
    requires IsPath(t, q)
  {
    && (NodeAt(t, q).val.VarDeclNode? || NodeAt(t, q).val.ArgDeclNode?)
    && NodeAt(t, q).val.name == name && NodeAt(t, q).id == id
    && Before(q, p)
    && forall n | 0 <= n < |q| && (Along(t, q, n).val.CompoundNode? || Along(t, q, n).val.FunDeclNode?) :: q[..n] <= p
  }

  ghost predicate DeclaredFor(t: Tree, p: Path, name: string, id: nat) {
    exists q | IsPath(t, q) :: Shown(t, q, p, name, id)
  }

  lemma {:induction false} FunctionsIff(ts: seq<Tree>, b: Binding)
    ensures b in FunctionBindings(ts)
       <==> exists k ::
              0 <= k < |ts| && ts[k].val.FunDeclNode? && ts[k].val.name == b.name && ts[k].id == b.id
    decreases ts
  {
    if ts != [] {
      var most := ts[..|ts| - 1];
      FunctionsIff(most, b);
      if b in FunctionBindings(most) {
        var k :| 0 <= k < |most| && most[k].val.FunDeclNode? && most[k].val.name == b.name && most[k].id == b.id;
        assert ts[k] == most[k];
      }
      if exists k :: 0 <= k < |ts| && ts[k].val.FunDeclNode? && ts[k].val.name == b.name && ts[k].id == b.id {
        var k :| 0 <= k < |ts| && ts[k].val.FunDeclNode? && ts[k].val.name == b.name && ts[k].id == b.id;
        if k < |most| { assert most[k] == ts[k]; }
      }
    }
  }

  /** What is in sight of a node of a module. */
  lemma {:induction false} VisibleIff(t: Tree, p: Path, name: string, id: nat)
    requires IsPath(t, p)
    ensures Binding(name, id) in InSight(t, p, FunctionBindings(t.kids))
       <==> FunctionNamed(t, name, id) || DeclaredFor(t, p, name, id)
  {
    hide InSight, Sees, Own, FunctionBindings, NodeAt;
    var b := Binding(name, id);
    SightIff(t, p, FunctionBindings(t.kids), b);
    FunctionsIff(t.kids, b);
    forall q | IsPath(t, q) ensures b in Own(NodeAt(t, q)) && Sees(t, q, p) <==> Shown(t, q, p, name, id) {
      OwnIs(NodeAt(t, q), b);
      SeesIs(t, q, p);
    }
  }

  /** A name is looked up to a binding if and only if one of that name is there. */
  lemma {:induction false} LookupIff(env: seq<Binding>, name: string)
    ensures Lookup(env, name).Some? <==> exists id :: Binding(name, id) in env
  {
    LookupIn(env, name);
    if exists id :: Binding(name, id) in env {
      var id :| Binding(name, id) in env;
      var i :| 0 <= i < |env| && env[i] == Binding(name, id);
    }
  }

  lemma {:induction false} DistinctFunctions(ts: seq<Tree>)
    ensures Distinct(FunctionBindings(ts))
       <==> forall j, k | 0 <= j < k < |ts| && ts[j].val.FunDeclNode? && ts[k].val.FunDeclNode? ::
              ts[j].val.name != ts[k].val.name
    decreases ts
  {
    hide Distinct, Lookup;
    if ts == [] {
      NoneDistinct([]);
    } else {
      var most, t := ts[..|ts| - 1], ts[|ts| - 1];
      var fs := FunctionBindings(most);
      DistinctFunctions(most);
      assert forall k :: 0 <= k < |most| ==> most[k] == ts[k];
      if t.val.FunDeclNode? {
        var b := Binding(t.val.name, t.id);
        DistinctSnoc(fs, b);
        LookupIff(fs, t.val.name);
        forall id ensures Binding(t.val.name, id) in fs
           <==> exists k ::
                  0 <= k < |most| && most[k].val.FunDeclNode? && most[k].val.name == t.val.name && most[k].id == id
        {
          FunctionsIff(most, Binding(t.val.name, id));
        }
        forall k | 0 <= k < |most| && most[k].val.FunDeclNode? && most[k].val.name == t.val.name
          ensures Binding(t.val.name, most[k].id) in fs
        {
        }
      } else {
        assert fs + [] == fs;
      }
    }
  }

  /** A module resolves if and only if its functions have different names, no variable or
      argument has a name that means something where it stands, and every reference has
      one that does. */
  lemma {:induction false} ResolvesIff(t: Tree)
    ensures ResolveModule(t, None).Done?
       <==> && (forall j, k | 0 <= j < k < |t.kids| && t.kids[j].val.FunDeclNode? && t.kids[k].val.FunDeclNode? ::
                  t.kids[j].val.name != t.kids[k].val.name)
            && (forall p | IsPath(t, p) && (NodeAt(t, p).val.VarDeclNode? || NodeAt(t, p).val.ArgDeclNode?) ::
                  forall id :: !FunctionNamed(t, NodeAt(t, p).val.name, id)
                               && !DeclaredFor(t, p, NodeAt(t, p).val.name, id))
            && (forall p | IsPath(t, p) && NodeAt(t, p).val.SymRefNode? ::
                  exists id :: FunctionNamed(t, NodeAt(t, p).val.name, id)
                               || DeclaredFor(t, p, NodeAt(t, p).val.name, id))
  {
    hide InSight, NodeAt, DeclaredFor, FunctionNamed, Distinct, Resolve, Lookup;
    var fs := FunctionBindings(t.kids);
    DeclareIff(t.kids, None);
    DistinctFunctions(t.kids);
    FineIff(t, fs);
    forall p, name, id | IsPath(t, p)
      ensures Binding(name, id) in InSight(t, p, fs) <==> FunctionNamed(t, name, id) || DeclaredFor(t, p, name, id)
    {
      VisibleIff(t, p, name, id);
    }
    forall p, name | IsPath(t, p)
      ensures Lookup(InSight(t, p, fs), name).Some?
         <==> exists id :: FunctionNamed(t, name, id) || DeclaredFor(t, p, name, id)
    {
      LookupIff(InSight(t, p, fs), name);
    }
  }

  lemma {:induction false} FineIff(t: Tree, env: seq<Binding>)
    ensures Resolve(t, env, None).Done?
       <==> && (forall p | IsPath(t, p) && (NodeAt(t, p).val.VarDeclNode? || NodeAt(t, p).val.ArgDeclNode?) ::
                  Lookup(InSight(t, p, env), NodeAt(t, p).val.name).None?)
            && (forall p | IsPath(t, p) && NodeAt(t, p).val.SymRefNode? ::
                  Lookup(InSight(t, p, env), NodeAt(t, p).val.name).Some?)
  {
    hide InSight, NodeAt, Lookup, Resolve;
    if Resolve(t, env, None).Done? {
      DoneFine(t, env, None);
      forall p | IsPath(t, p) ensures NodeFine(NodeAt(t, p), InSight(t, p, env), None) { FineAt(t, p, env, None); }
    } else {
      var p := StuckAt(t, env, None);
      assert !NodeFine(NodeAt(t, p), InSight(t, p, env), None) by { StuckNotFine(t, p, env); }
    }
  }

  lemma {:induction false} StuckNotFine(t: Tree, p: Path, env: seq<Binding>)
    requires Resolve(t, env, None).Stuck? && FirstError(t, p, env, None, Resolve(t, env, None).error)
    ensures !NodeFine(NodeAt(t, p), InSight(t, p, env), None)
  {
    hide InSight, NodeAt, Lookup, Resolve, Enter;
    EnterError(NodeAt(t, p), InSight(t, p, env), None);
  }

  // ----- which error a module gets

  /** The name means something at `p`. */
  ghost predicate Meant(t: Tree, p: Path, name: string) {
    exists id :: FunctionNamed(t, name, id) || DeclaredFor(t, p, name, id)
  }

  /** Nothing is wrong with the node at `p`. */
  ghost predicate Right(t: Tree, p: Path)
    requires IsPath(t, p)
  {
    && (NodeAt(t, p).val.VarDeclNode? || NodeAt(t, p).val.ArgDeclNode? ==> !Meant(t, p, NodeAt(t, p).val.name))
    && (NodeAt(t, p).val.SymRefNode? ==> Meant(t, p, NodeAt(t, p).val.name))
  }

  lemma {:induction false} MeantIs(t: Tree, p: Path, name: string)
    requires IsPath(t, p)
    ensures Meant(t, p, name) <==> Lookup(InSight(t, p, FunctionBindings(t.kids)), name).Some?
  {
    hide InSight, NodeAt, DeclaredFor, FunctionNamed, Lookup;
    var sight := InSight(t, p, FunctionBindings(t.kids));
    LookupIff(sight, name);
    forall id ensures Binding(name, id) in sight <==> FunctionNamed(t, name, id) || DeclaredFor(t, p, name, id) {
      VisibleIff(t, p, name, id);
    }
  }

  lemma {:induction false} RightIs(t: Tree, p: Path)
    requires IsPath(t, p)
    ensures Right(t, p) <==> NodeFine(NodeAt(t, p), InSight(t, p, FunctionBindings(t.kids)), None)
  {
    hide InSight, NodeAt, Meant, Lookup;
    if NodeAt(t, p).val.VarDeclNode? || NodeAt(t, p).val.ArgDeclNode? || NodeAt(t, p).val.SymRefNode? {
      MeantIs(t, p, NodeAt(t, p).val.name);
    }
  }

  /** The first node in preorder with which something is wrong. */
  ghost predicate FirstWrong(t: Tree, p: Path) {
    IsPath(t, p) && !Right(t, p) && forall r | IsPath(t, r) && Before(r, p) :: Right(t, r)
  }

  /** It is a reference. */
  ghost predicate WrongReference(t: Tree, p: Path) {
    FirstWrong(t, p) && NodeAt(t, p).val.SymRefNode?
  }

  /** It is a variable or an argument. */
  ghost predicate WrongDeclaration(t: Tree, p: Path) {
    FirstWrong(t, p) && (NodeAt(t, p).val.VarDeclNode? || NodeAt(t, p).val.ArgDeclNode?)
  }

  lemma {:induction false} FirstWrongIs(t: Tree, p: Path, e: Error)
    ensures FirstError(t, p, FunctionBindings(t.kids), None, e)
       <==> || (WrongReference(t, p) && e == UNRESOLVED_SYMBOL)
            || (WrongDeclaration(t, p) && e == SYMBOL_ALREADY_DEFINED)
  {
    hide InSight, NodeAt, Right, Before, Lookup;
    var fs := FunctionBindings(t.kids);
    forall r | IsPath(t, r) ensures Right(t, r) <==> NodeFine(NodeAt(t, r), InSight(t, r, fs), None) {
      RightIs(t, r);
    }
  }

  /** Two functions of the list have the same name. */
  ghost predicate FunctionTwice(ts: seq<Tree>) {
    exists j, k ::
      0 <= j < k < |ts| && ts[j].val.FunDeclNode? && ts[k].val.FunDeclNode? && ts[j].val.name == ts[k].val.name
  }

  /** A module is refused as unresolved if and only if its functions have different names
      and the first node with which something is wrong is a reference, and as defined
      twice if and only if two functions share a name or that node is a declaration. */
  lemma {:induction false} RefusedIff(t: Tree)
    ensures ResolveModule(t, None) == Stuck(UNRESOLVED_SYMBOL)
       <==> !FunctionTwice(t.kids) && exists p :: WrongReference(t, p)
    ensures ResolveModule(t, None) == Stuck(SYMBOL_ALREADY_DEFINED)
       <==> FunctionTwice(t.kids) || exists p :: WrongDeclaration(t, p)
    ensures var r := ResolveModule(t, None); r.Stuck? ==> r.error in {UNRESOLVED_SYMBOL, SYMBOL_ALREADY_DEFINED}
  {
    hide NodeAt, Distinct, Resolve, WrongReference, WrongDeclaration, FirstError, FunctionError;
    var fs := FunctionBindings(t.kids);
    DeclareIff(t.kids, None);
    DistinctFunctions(t.kids);
    forall p ensures FirstError(t, p, fs, None, UNRESOLVED_SYMBOL) <==> WrongReference(t, p) {
      FirstWrongIs(t, p, UNRESOLVED_SYMBOL);
    }
    forall p ensures FirstError(t, p, fs, None, SYMBOL_ALREADY_DEFINED) <==> WrongDeclaration(t, p) {
      FirstWrongIs(t, p, SYMBOL_ALREADY_DEFINED);
    }
    forall p, e | FirstError(t, p, fs, None, e) ensures e in {UNRESOLVED_SYMBOL, SYMBOL_ALREADY_DEFINED} {
      FirstWrongIs(t, p, e);
    }
    FunctionRefusals(t);
    ModuleStuckIff(t, None, UNRESOLVED_SYMBOL);
    ModuleStuckIff(t, None, SYMBOL_ALREADY_DEFINED);
    if ResolveModule(t, None).Stuck? { ModuleStuckIff(t, None, ResolveModule(t, None).error); }
  }

  lemma {:induction false} FunctionRefusals(t: Tree)
    ensures var fs := FunctionBindings(t.kids);
            && (forall k, e :: FunctionError(fs, k, None, e) ==> e == SYMBOL_ALREADY_DEFINED && !Distinct(fs))
            && (!Distinct(fs) ==> exists k :: FunctionError(fs, k, None, SYMBOL_ALREADY_DEFINED))
  {
    hide Distinct, DeclareFunctions, FunctionBindings;
    var fs := FunctionBindings(t.kids);
    DeclareIff(t.kids, None);
    forall k, e | FunctionError(fs, k, None, e) ensures e == SYMBOL_ALREADY_DEFINED && !Distinct(fs) {
      FunctionErrorStops(fs, k, None, e);
    }
    if !Distinct(fs) { var k := DeclareStuckAt(t.kids, None); }
  }

  // ----- what a reference refers to

  lemma {:induction false} KidDone(ts: seq<Tree>, k: nat, env: seq<Binding>, limit: Option<nat>)
    requires k < |ts| && ResolveAll(ts, env, limit).Done?
    ensures var before := ResolveAll(ts[..k], env, limit); before.Done? && Resolve(ts[k], before.env, limit).Done?
    decreases ts
  {
    hide Resolve;
    if k < |ts| - 1 {
      KidDone(ts[..|ts| - 1], k, env, limit);
      assert ts[..|ts| - 1][..k] == ts[..k];
    }
  }

  /** No two declarations of one name are in sight. */
  lemma {:induction false} SightDistinct(t: Tree, p: Path, env: seq<Binding>, limit: Option<nat>)
    requires IsPath(t, p) && Resolve(t, env, limit).Done? && Distinct(env)
    ensures Distinct(InSight(t, p, env))
    decreases p
  {
    hide Distinct, ResolveAll, AllExports, Own, Enter, KidsFine;
    if p != [] {
      var entered := Enter(t.val, t.id, env, limit);
      EnterKeeps(t, env, limit);
      KidDone(t.kids, p[0], entered.env, limit);
      AllDoneFine(t.kids[..p[0]], entered.env, limit);
      ResolveAllKeeps(t.kids[..p[0]], entered.env, limit);
      SightDistinct(t.kids[p[0]], p[1..], entered.env + AllExports(t.kids[..p[0]]), limit);
    }
  }

  /** A reference of a module that resolves refers to the one declaration of its name
      that it may refer to. */
  lemma {:induction false} RefersIff(t: Tree, p: Path, limit: Option<nat>, d: nat)
    requires NoRepeats(t) && ResolveModule(t, limit).Done? && IsPath(t, p) && NodeAt(t, p).val.SymRefNode?
    ensures var x, refs := NodeAt(t, p), ResolveModule(t, limit).refs;
            && x.id in refs
            && (refs[x.id] == d <==> FunctionNamed(t, x.val.name, d) || DeclaredFor(t, p, x.val.name, d))
  {
    hide InSight, NodeAt, DeclaredFor, FunctionNamed, Distinct, Resolve, AllFine, Lookup, Exports;
    var x, fs := NodeAt(t, p), FunctionBindings(t.kids);
    var sight := InSight(t, p, fs);
    DeclareIff(t.kids, limit);
    ModuleIff(t, limit);
    SightDistinct(t, p, fs, limit);
    VisibleIff(t, p, x.val.name, d);
    LookupIn(sight, x.val.name);
    var found := Binding(x.val.name, ResolveModule(t, limit).refs[x.id]);
    if Binding(x.val.name, d) in sight { SameBinding(sight, found, Binding(x.val.name, d)); }
  }

  lemma {:induction false} OneChild(t: Tree, env: seq<Binding>)
    ensures ResolveAll([], env, None) == Done(map[], env)
    ensures Resolve(t, env, None).Done? ==>
              ResolveAll([t], env, None).Done? && ResolveAll([t], env, None).env == Resolve(t, env, None).env
  {
    hide Resolve;
    assert [t][..0] == [];
  }

  lemma {:induction false} TwoChilds(t: Tree, u: Tree, env: seq<Binding>)
    requires Resolve(t, env, None).Done? && Resolve(u, Resolve(t, env, None).env, None).Done?
    ensures var r := ResolveAll([t, u], env, None);
            r.Done? && r.env == Resolve(u, Resolve(t, env, None).env, None).env
  {
    hide Resolve;
    OneChild(t, env);
    assert [t, u][..1] == [t];
  }

  /** An argument is no longer declared after its function: its name may be used again. */
  lemma {:induction false} ArgumentGone()
    ensures ResolveModule(Tree(0, ModuleNode, [
              Tree(1, FunDeclNode("f", None, false), [
                Tree(2, ArgDeclNode("a", Prim(INT)), []),
                Tree(3, CompoundNode, [])]),
              Tree(5, VarDeclNode("a", None), [
                Tree(4, LiteralNode(Int(1)), [])])]), None).Done?
  {
    hide ResolveAll, Lookup, DeclareFunctions;
    var arg, body := Tree(2, ArgDeclNode("a", Prim(INT)), []), Tree(3, CompoundNode, []);
    var one := Tree(4, LiteralNode(Int(1)), []);
    var f, a := Tree(1, FunDeclNode("f", None, false), [arg, body]), Tree(5, VarDeclNode("a", None), [one]);
    var env, env1 := [Binding("f", 1)], [Binding("f", 1), Binding("a", 2)];
    var env2 := [Binding("f", 1), Binding("a", 5)];
    assert DeclareFunctions([f, a], None) == Done(map[], env) by { FunctionsOf(f, a); }
    assert Lookup(env, "a").None? by { LookupIn(env, "a"); }
    assert env + [Binding("a", 2)] == env1;
    Bare(arg, env);
    Bare(body, env1);
    TwoChilds(arg, body, env);
    assert env + [Binding("a", 5)] == env2;
    Bare(one, env2);
    OneChild(one, env2);
    TwoChilds(f, a, env);
  }

  /** A node without children that is no reference. */
  lemma {:induction false} Bare(t: Tree, env: seq<Binding>)
    requires t.kids == [] && !t.val.SymRefNode?
    requires t.val.ArgDeclNode? ==> Lookup(env, t.val.name).None?
    requires !t.val.VarDeclNode?
    ensures Resolve(t, env, None) == Done(map[], if t.val.ArgDeclNode? then env + [Binding(t.val.name, t.id)] else env)
  {
    hide Lookup;
  }

  lemma {:induction false} FunctionsOf(f: Tree, a: Tree)
    requires f.val.FunDeclNode? && !a.val.FunDeclNode?
    ensures DeclareFunctions([f, a], None) == Done(map[], [Binding(f.val.name, f.id)])
  {
    assert DeclareFunctions([f], None) == Done(map[], [Binding(f.val.name, f.id)]) by {
      assert [f][..0] == [] && DeclareFunctions([], None) == Done(map[], []);
      assert [] + [Binding(f.val.name, f.id)] == [Binding(f.val.name, f.id)];
    }
    assert [f, a][..1] == [f] && [f, a][1] == a;
  }
}

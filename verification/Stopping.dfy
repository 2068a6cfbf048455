/** Where symbol resolution stops (nucleus/lang/analyzer/symbol.h): the first node with
    which something is wrong, be it a symbol error or a name pushed on a full stack. */
module Stopping {
  import opened Options
  import opened Tokens
  import opened Layout
  import opened Scopes
  import opened Limits

  // ----- where resolution stops

  /** What goes wrong at a node that sees these bindings. */
  function NodeError(t: Tree, sight: seq<Binding>, limit: Option<nat>): Option<Error> {
    match Declares(t.val)
    case Some(n) =>
      if Lookup(sight, n).Some? then Some(SYMBOL_ALREADY_DEFINED)
      else if Full(sight, limit) then Some(UNDEFINED)
      else None
    case None =>
      if t.val.SymRefNode? && Lookup(sight, t.val.name).None? then Some(UNRESOLVED_SYMBOL) else None
  }

  /** Every node before `p` is fine with what it sees. */
  ghost predicate FineBefore(t: Tree, p: Path, env: seq<Binding>, limit: Option<nat>) {
    forall q | IsPath(t, q) && Before(q, p) :: NodeFine(NodeAt(t, q), InSight(t, q, env), limit)
  }

  /** The node at `p` is the first in preorder with which something is wrong. */
  ghost predicate FirstError(t: Tree, p: Path, env: seq<Binding>, limit: Option<nat>, e: Error) {
    && IsPath(t, p) && NodeError(NodeAt(t, p), InSight(t, p, env), limit) == Some(e)
    && FineBefore(t, p, env, limit)
  }

  lemma {:induction false} EnterError(t: Tree, env: seq<Binding>, limit: Option<nat>)
    ensures NodeFine(t, env, limit) <==> NodeError(t, env, limit).None?
    ensures var r := Enter(t.val, t.id, env, limit);
            match NodeError(t, env, limit)
            case Some(e) => r == Stuck(e)
            case None => r.Done? && r.env == env + Own(t)
  {
    hide Lookup, Full;
    assert env + [] == env;
  }

  /** A tree that resolves is fine everywhere and leaves its exports. */
  lemma {:induction false} DoneFine(t: Tree, env: seq<Binding>, limit: Option<nat>)
    requires Resolve(t, env, limit).Done?
    ensures AllFine(t, env, limit) && Resolve(t, env, limit).env == env + Exports(t)
    decreases t, 1
  {
    hide AllFine, KidsFine, NodeFine, NodeError, Enter, ResolveAll, AllExports, Own;
    EnterError(t, env, limit);
    var entered := Enter(t.val, t.id, env, limit);
    AllDoneFine(t.kids, entered.env, limit);
    FineSplits(t, env, limit);
    assert (env + Own(t)) + AllExports(t.kids) == env + (Own(t) + AllExports(t.kids));
    assert env + [] == env;
  }

  lemma {:induction false} AllDoneFine(ts: seq<Tree>, env: seq<Binding>, limit: Option<nat>)
    requires ResolveAll(ts, env, limit).Done?
    ensures KidsFine(ts, |ts|, env, limit) && ResolveAll(ts, env, limit).env == env + AllExports(ts)
    decreases ts, 2
  {
    hide AllFine, KidsFine, Resolve, Exports;
    if ts == [] {
      NoKids(env, map[], limit);
      assert env + [] == env;
    } else {
      var most, t := ts[..|ts| - 1], ts[|ts| - 1];
      assert ts == most + [t];
      AllDoneFine(most, env, limit);
      DoneFine(t, env + AllExports(most), limit);
      KidsFineSnoc(most, t, env, limit);
      assert (env + AllExports(most)) + Exports(t) == env + (AllExports(most) + Exports(t));
    }
  }

  lemma {:induction false} StuckAt(t: Tree, env: seq<Binding>, limit: Option<nat>) returns (p: Path)
    requires Resolve(t, env, limit).Stuck?
    ensures FirstError(t, p, env, limit, Resolve(t, env, limit).error)
    decreases t, 1
  {
    hide NodeFine, NodeError, Enter, ResolveAll, FirstError, KidsFine, Own;
    EnterError(t, env, limit);
    if NodeError(t, env, limit).Some? {
      p := [];
      ErrorHere(t, env, limit, Resolve(t, env, limit).error);
    } else {
      var k, q := KidStuckAt(t.kids, env + Own(t), limit);
      p := [k] + q;
      ErrorBelow(t, k, q, env, limit, Resolve(t, env, limit).error);
    }
  }

  lemma {:induction false} ErrorHere(t: Tree, env: seq<Binding>, limit: Option<nat>, e: Error)
    requires NodeError(t, env, limit) == Some(e)
    ensures FirstError(t, [], env, limit, e)
  {
    hide NodeError, NodeFine;
  }

  lemma {:induction false} ErrorBelow(t: Tree, k: nat, q: Path, env: seq<Binding>, limit: Option<nat>, e: Error)
    requires NodeFine(t, env, limit) && k < |t.kids| && KidsFine(t.kids, k, env + Own(t), limit)
    requires FirstError(t.kids[k], q, env + Own(t) + AllExports(t.kids[..k]), limit, e)
    ensures FirstError(t, [k] + q, env, limit, e)
  {
    hide NodeError, NodeFine, AllExports, Own;
    PathCons(t, k, q, env);
    var p := [k] + q;
    assert p[1..] == q;
    forall r | IsPath(t, r) && Before(r, p) ensures NodeFine(NodeAt(t, r), InSight(t, r, env), limit) {
      if r != [] {
        if r[0] < k { assert AllFine(t.kids[r[0]], env + Own(t) + AllExports(t.kids[..r[0]]), limit); }
      }
    }
  }

  lemma {:induction false} KidStuckAt(ts: seq<Tree>, env: seq<Binding>, limit: Option<nat>) returns (k: nat, q: Path)
    requires ResolveAll(ts, env, limit).Stuck?
    ensures k < |ts| && KidsFine(ts, k, env, limit)
    ensures FirstError(ts[k], q, env + AllExports(ts[..k]), limit, ResolveAll(ts, env, limit).error)
    decreases ts, 2
  {
    hide AllFine, KidsFine, Resolve, Exports, FirstError;
    var most, t := ts[..|ts| - 1], ts[|ts| - 1];
    if ResolveAll(most, env, limit).Stuck? {
      k, q := KidStuckAt(most, env, limit);
      assert most[..k] == ts[..k];
      KidsFineFewer(most, ts, k, env, limit);
    } else {
      AllDoneFine(most, env, limit);
      k := |most|;
      q := StuckAt(t, env + AllExports(most), limit);
      KidsFineFewer(most, ts, k, env, limit);
    }
  }

  lemma {:induction false} KidsFineFewer(most: seq<Tree>, ts: seq<Tree>, k: nat, env: seq<Binding>, limit: Option<nat>)
    requires k <= |most| <= |ts| && most == ts[..|most|] && KidsFine(most, k, env, limit)
    ensures KidsFine(ts, k, env, limit)
  {
    hide AllFine;
    assert forall j :: 0 <= j < k ==> ts[j] == most[j] && ts[..j] == most[..j];
  }

  lemma {:induction false} PathsOrdered(p: Path, q: Path)
    ensures p == q || Before(p, q) || Before(q, p)
    decreases p
  {
    if p != [] && q != [] && p[0] == q[0] {
      PathsOrdered(p[1..], q[1..]);
      assert p == [p[0]] + p[1..] && q == [q[0]] + q[1..];
    }
  }

  lemma {:induction false} FineNoError(t: Tree, p: Path, env: seq<Binding>, limit: Option<nat>)
    requires AllFine(t, env, limit)
    ensures forall e :: !FirstError(t, p, env, limit, e)
  {
    hide NodeFine, NodeError;
    if IsPath(t, p) { EnterError(NodeAt(t, p), InSight(t, p, env), limit); }
  }

  /** A tree is refused with an error if and only if that is what is wrong with the first
      node with which something is wrong. */
  lemma {:induction false} StuckIff(t: Tree, env: seq<Binding>, limit: Option<nat>, e: Error)
    ensures Resolve(t, env, limit) == Stuck(e) <==> exists p :: FirstError(t, p, env, limit, e)
  {
    hide Resolve, NodeFine, NodeError;
    if Resolve(t, env, limit) == Stuck(e) {
      var p := StuckAt(t, env, limit);
    }
    if exists p :: FirstError(t, p, env, limit, e) {
      var p :| FirstError(t, p, env, limit, e);
      EnterError(NodeAt(t, p), InSight(t, p, env), limit);
      if Resolve(t, env, limit).Done? {
        DoneFine(t, env, limit);
        FineNoError(t, p, env, limit);
      } else {
        var q := StuckAt(t, env, limit);
        EnterError(NodeAt(t, q), InSight(t, q, env), limit);
        PathsOrdered(p, q);
      }
    }
  }

  // ----- the functions of a module

  /** The function number `k` is the first that cannot be declared. */
  ghost predicate FunctionError(fs: seq<Binding>, k: nat, limit: Option<nat>, e: Error) {
    && k < |fs| && Distinct(fs[..k]) && (limit.Some? ==> k <= limit.value)
    && if Lookup(fs[..k], fs[k].name).Some? then e == SYMBOL_ALREADY_DEFINED
       else e == UNDEFINED && limit == Some(k)
  }

  lemma {:induction false} DeclareStuckAt(ts: seq<Tree>, limit: Option<nat>) returns (k: nat)
    requires DeclareFunctions(ts, limit).Stuck?
    ensures FunctionError(FunctionBindings(ts), k, limit, DeclareFunctions(ts, limit).error)
    decreases ts
  {
    hide Lookup, Distinct;
    var most, t := ts[..|ts| - 1], ts[|ts| - 1];
    var fs, gs := FunctionBindings(most), FunctionBindings(ts);
    DeclareIff(most, limit);
    if DeclareFunctions(most, limit).Stuck? {
      k := DeclareStuckAt(most, limit);
      assert gs[..k] == fs[..k] && gs[k] == fs[k];
    } else {
      k := |fs|;
      assert gs[..k] == fs && gs[k] == Binding(t.val.name, t.id);
    }
  }

  lemma {:induction false} FunctionErrorStops(fs: seq<Binding>, k: nat, limit: Option<nat>, e: Error)
    requires FunctionError(fs, k, limit, e)
    ensures !Distinct(fs) || (limit.Some? && |fs| > limit.value)
    ensures forall j, d :: FunctionError(fs, j, limit, d) ==> j == k && d == e
  {
    hide Lookup;
    RepeatsAt(fs, k);
    forall j, d | FunctionError(fs, j, limit, d) ensures j == k && d == e {
      RepeatsAt(fs, j);
    }
  }

  lemma {:induction false} RepeatsAt(fs: seq<Binding>, k: nat)
    requires k < |fs|
    ensures Lookup(fs[..k], fs[k].name).Some? ==> !Distinct(fs) && forall n :: k < n <= |fs| ==> !Distinct(fs[..n])
  {
    LookupIn(fs[..k], fs[k].name);
    if Lookup(fs[..k], fs[k].name).Some? {
      var j :| 0 <= j < k && fs[..k][j].name == fs[k].name;
      assert fs[j].name == fs[k].name;
      forall n | k < n <= |fs| ensures !Distinct(fs[..n]) {
        assert fs[..n][j].name == fs[..n][k].name;
      }
    }
  }

  /** The functions are refused with an error if and only if that is what is wrong with
      the first one that cannot be declared. */
  lemma {:induction false} DeclareStuckIff(ts: seq<Tree>, limit: Option<nat>, e: Error)
    ensures DeclareFunctions(ts, limit) == Stuck(e) <==> exists k :: FunctionError(FunctionBindings(ts), k, limit, e)
  {
    hide FunctionError, Distinct;
    var fs := FunctionBindings(ts);
    DeclareIff(ts, limit);
    if DeclareFunctions(ts, limit).Stuck? {
      var j := DeclareStuckAt(ts, limit);
      FunctionErrorStops(fs, j, limit, DeclareFunctions(ts, limit).error);
    }
    if exists k :: FunctionError(fs, k, limit, e) {
      var k :| FunctionError(fs, k, limit, e);
      FunctionErrorStops(fs, k, limit, e);
    }
  }

  // ----- modules

  /** A module is refused with an error if and only if that is what is wrong with the
      first function that cannot be declared, or, when all can, with the first node. */
  lemma {:induction false} ModuleStuckIff(t: Tree, limit: Option<nat>, e: Error)
    ensures var fs := FunctionBindings(t.kids);
            (ResolveModule(t, limit) == Stuck(e) <==>
               || (exists k :: FunctionError(fs, k, limit, e))
               || (Distinct(fs) && (limit.Some? ==> |fs| <= limit.value) && exists p :: FirstError(t, p, fs, limit, e)))
  {
    hide Distinct, FirstError, FunctionError, Resolve;
    var fs := FunctionBindings(t.kids);
    DeclareIff(t.kids, limit);
    DeclareStuckIff(t.kids, limit, e);
    StuckIff(t, fs, limit, e);
    if exists k :: FunctionError(fs, k, limit, e) {
      var k :| FunctionError(fs, k, limit, e);
      FunctionErrorStops(fs, k, limit, e);
    }
  }

  /** The names of the module run over a stack of `n` places: it has more functions, all
      different up to the first without a place, or else the first node with which
      something is wrong declares a new name where the stack is full. */
  ghost predicate Overflows(t: Tree, n: nat) {
    var fs := FunctionBindings(t.kids);
    if |fs| > n then Distinct(fs[..n + 1])
    else Distinct(fs) && exists p :: FirstError(t, p, fs, Some(n), UNDEFINED)
  }

  /** The stack overflows if and only if this is so, whatever else is wrong with the
      module. */
  lemma {:induction false} ModuleOverflowIff(t: Tree, n: nat)
    ensures ResolveModule(t, Some(n)) == Stuck(UNDEFINED) <==> Overflows(t, n)
  {
    hide FirstError, ResolveModule, Distinct;
    var fs := FunctionBindings(t.kids);
    ModuleStuckIff(t, Some(n), UNDEFINED);
    FunctionOverflow(fs, n);
    if exists k :: FunctionError(fs, k, Some(n), UNDEFINED) {
      var k :| FunctionError(fs, k, Some(n), UNDEFINED);
      assert k == n;
    }
  }

  lemma {:induction false} FunctionOverflow(fs: seq<Binding>, n: nat)
    ensures FunctionError(fs, n, Some(n), UNDEFINED) <==> |fs| > n && Distinct(fs[..n + 1])
  {
    hide Lookup, Distinct;
    if n < |fs| {
      DistinctSnoc(fs[..n], fs[n]);
      assert fs[..n + 1] == fs[..n] + [fs[n]];
    }
  }
}

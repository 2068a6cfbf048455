/** What the symbol resolver of nucleus/lang/analyzer/symbol.h computes: names are
    looked up in an environment that grows with declarations and is cut back where
    a compound or a function ends; and what that means for any two nodes of a tree. */
module Scopes {
  import opened Options
  import opened Tokens
  import opened Layout

  datatype Binding = Binding(name: string, id: nat)

  datatype Outcome = Done(refs: map<nat, nat>, env: seq<Binding>) | Stuck(error: Error)

  /** The innermost binding of a name. */
  function Lookup(env: seq<Binding>, name: string): Option<nat> {
    if env == [] then None
    else if env[|env| - 1].name == name then Some(env[|env| - 1].id)
    else Lookup(env[..|env| - 1], name)
  }

  /** The name a node declares for what follows it. */
  function Declares(v: Val): Option<string> {
    match v
    case VarDeclNode(n, _) => Some(n)
    case ArgDeclNode(n, _) => Some(n)
    case _ => None
  }

  predicate IsScope(v: Val) {
    v.CompoundNode? || v.FunDeclNode?
  }

  /** The source's stack has a fixed size and no bounds check: a new name on a full
      stack is written past its end. Without a limit the environment is unbounded. */
  predicate Full(env: seq<Binding>, limit: Option<nat>) {
    limit.Some? && |env| >= limit.value
  }

  function Define(env: seq<Binding>, name: string, id: nat, limit: Option<nat>): Outcome {
    if Lookup(env, name).Some? then Stuck(SYMBOL_ALREADY_DEFINED)
    else if Full(env, limit) then Stuck(UNDEFINED)
    else Done(map[], env + [Binding(name, id)])
  }

  /** What a node does before its children are visited. */
  function Enter(v: Val, id: nat, env: seq<Binding>, limit: Option<nat>): Outcome {
    match v
    case VarDeclNode(n, _) => Define(env, n, id, limit)
    case ArgDeclNode(n, _) => Define(env, n, id, limit)
    case SymRefNode(n, _) =>
      (match Lookup(env, n)
       case None => Stuck(UNRESOLVED_SYMBOL)
       case Some(d) => Done(map[id := d], env))
    case _ => Done(map[], env)
  }

  /** The environment semantics of a tree. */
  function Resolve(t: Tree, env: seq<Binding>, limit: Option<nat>): Outcome
    decreases t, 0
  {
    match Enter(t.val, t.id, env, limit)
    case Stuck(e) => Stuck(e)
    case Done(r, env1) =>
      match ResolveAll(t.kids, env1, limit)
      case Stuck(e) => Stuck(e)
      case Done(s, env2) => Done(r + s, if IsScope(t.val) then env else env2)
  }

  function ResolveAll(ts: seq<Tree>, env: seq<Binding>, limit: Option<nat>): Outcome
    decreases ts, 0
  {
    if ts == [] then Done(map[], env)
    else
      match ResolveAll(ts[..|ts| - 1], env, limit)
      case Stuck(e) => Stuck(e)
      case Done(r, env1) =>
        match Resolve(ts[|ts| - 1], env1, limit)
        case Stuck(e) => Stuck(e)
        case Done(s, env2) => Done(r + s, env2)
  }

  /** The functions among the module's children are declared first. */
  function DeclareFunctions(ts: seq<Tree>, limit: Option<nat>): Outcome {
    if ts == [] then Done(map[], [])
    else
      match DeclareFunctions(ts[..|ts| - 1], limit)
      case Stuck(e) => Stuck(e)
      case Done(_, env) =>
        var t := ts[|ts| - 1];
        if t.val.FunDeclNode? then Define(env, t.val.name, t.id, limit) else Done(map[], env)
  }

  function ResolveModule(t: Tree, limit: Option<nat>): Outcome {
    match DeclareFunctions(t.kids, limit)
    case Stuck(e) => Stuck(e)
    case Done(_, env) => Resolve(t, env, limit)
  }

  // ----- the same without an environment: which declarations a node sees

  type Path = seq<nat>

  predicate IsPath(t: Tree, p: Path)
    decreases p
  {
    p == [] || (p[0] < |t.kids| && IsPath(t.kids[p[0]], p[1..]))
  }

  /** The node that a path leads to. */
  function NodeAt(t: Tree, p: Path): Tree
    requires IsPath(t, p)
    decreases p
  {
    if p == [] then t else NodeAt(t.kids[p[0]], p[1..])
  }

  function Own(t: Tree): seq<Binding> {
    match Declares(t.val)
    case None => []
    case Some(n) => [Binding(n, t.id)]
  }

  /** The declarations of a tree that outlive it. */
  function Exports(t: Tree): seq<Binding>
    decreases t, 0
  {
    if IsScope(t.val) then [] else Own(t) + AllExports(t.kids)
  }

  function AllExports(ts: seq<Tree>): seq<Binding>
    decreases ts, 0
  {
    if ts == [] then [] else AllExports(ts[..|ts| - 1]) + Exports(ts[|ts| - 1])
  }

  /** The declarations in sight of the node at `p`, when `before` are in sight of `t`. */
  function InSight(t: Tree, p: Path, before: seq<Binding>): seq<Binding>
    requires IsPath(t, p)
    decreases p
  {
    if p == [] then before
    else InSight(t.kids[p[0]], p[1..], before + Own(t) + AllExports(t.kids[..p[0]]))
  }

  /** A declaration is new where it stands and has room; a reference has something to
      refer to. */
  predicate NodeFine(t: Tree, sight: seq<Binding>, limit: Option<nat>) {
    && (Declares(t.val).Some? ==> Lookup(sight, Declares(t.val).value).None? && !Full(sight, limit))
    && (t.val.SymRefNode? ==> Lookup(sight, t.val.name).Some?)
  }

  ghost predicate AllFine(t: Tree, before: seq<Binding>, limit: Option<nat>) {
    forall p | IsPath(t, p) :: NodeFine(NodeAt(t, p), InSight(t, p, before), limit)
  }

  /** Every reference is recorded with the declaration it sees. */
  ghost predicate RefsRight(t: Tree, before: seq<Binding>, refs: map<nat, nat>) {
    forall p | IsPath(t, p) && NodeAt(t, p).val.SymRefNode? ::
      var x := NodeAt(t, p);
      x.id in refs && Lookup(InSight(t, p, before), x.val.name) == Some(refs[x.id])
  }

  ghost predicate NoRepeats(t: Tree) {
    forall i: nat :: Ids(t)[i] <= 1
  }

  ghost predicate NoRepeatsAll(ts: seq<Tree>) {
    forall i: nat :: AllIds(ts)[i] <= 1
  }

  lemma {:induction false} PathCons(t: Tree, k: nat, q: Path, before: seq<Binding>)
    requires k < |t.kids| && IsPath(t.kids[k], q)
    ensures IsPath(t, [k] + q) && NodeAt(t, [k] + q) == NodeAt(t.kids[k], q)
    ensures InSight(t, [k] + q, before) == InSight(t.kids[k], q, before + Own(t) + AllExports(t.kids[..k]))
  {
    assert ([k] + q)[1..] == q;
  }

  /** A whole list of children, each seeing what the ones before it export. */
  ghost predicate KidsFine(ts: seq<Tree>, n: nat, env: seq<Binding>, limit: Option<nat>)
    requires n <= |ts|
  {
    forall k :: 0 <= k < n ==> AllFine(ts[k], env + AllExports(ts[..k]), limit)
  }

  ghost predicate KidsRight(ts: seq<Tree>, n: nat, env: seq<Binding>, refs: map<nat, nat>)
    requires n <= |ts|
  {
    forall k :: 0 <= k < n ==> RefsRight(ts[k], env + AllExports(ts[..k]), refs)
  }

  /** Paths either stop at once or go through a child. */
  lemma {:induction false} FineSplits(t: Tree, before: seq<Binding>, limit: Option<nat>)
    ensures AllFine(t, before, limit)
            <==> NodeFine(t, before, limit) && KidsFine(t.kids, |t.kids|, before + Own(t), limit)
  {
    if AllFine(t, before, limit) {
      assert IsPath(t, []) && NodeAt(t, []) == t && InSight(t, [], before) == before;
      forall k | 0 <= k < |t.kids| ensures AllFine(t.kids[k], before + Own(t) + AllExports(t.kids[..k]), limit) {
        forall q | IsPath(t.kids[k], q)
          ensures NodeFine(NodeAt(t.kids[k], q),
                    InSight(t.kids[k], q, before + Own(t) + AllExports(t.kids[..k])), limit)
        {
          PathCons(t, k, q, before);
        }
      }
    }
    if NodeFine(t, before, limit) && KidsFine(t.kids, |t.kids|, before + Own(t), limit) {
      forall p | IsPath(t, p) ensures NodeFine(NodeAt(t, p), InSight(t, p, before), limit) {
        if p != [] { assert AllFine(t.kids[p[0]], before + Own(t) + AllExports(t.kids[..p[0]]), limit); }
      }
    }
  }

  lemma {:induction false} RightJoins(t: Tree, before: seq<Binding>, refs: map<nat, nat>)
    requires KidsRight(t.kids, |t.kids|, before + Own(t), refs)
    requires t.val.SymRefNode? ==> t.id in refs && Lookup(before, t.val.name) == Some(refs[t.id])
    ensures RefsRight(t, before, refs)
  {
    forall p | IsPath(t, p) && NodeAt(t, p).val.SymRefNode?
      ensures NodeAt(t, p).id in refs
      ensures Lookup(InSight(t, p, before), NodeAt(t, p).val.name) == Some(refs[NodeAt(t, p).id])
    {
      if p != [] { assert RefsRight(t.kids[p[0]], before + Own(t) + AllExports(t.kids[..p[0]]), refs); }
    }
  }

  lemma {:induction false} NodeInIds(t: Tree, p: Path)
    requires IsPath(t, p)
    ensures NodeAt(t, p).id in Ids(t)
    decreases p
  {
    hide AllIds;
    if p != [] {
      NodeInIds(t.kids[p[0]], p[1..]);
      KidInIds(t.kids, p[0], NodeAt(t, p).id);
    }
  }

  lemma {:induction false} KidInIds(ts: seq<Tree>, k: nat, i: nat)
    requires k < |ts| && i in Ids(ts[k])
    ensures i in AllIds(ts)
    decreases ts
  {
    hide Ids;
    if k < |ts| - 1 { KidInIds(ts[..|ts| - 1], k, i); }
  }

  /** Adding references of other nodes does not disturb a tree's own. */
  lemma {:induction false} RightWider(t: Tree, before: seq<Binding>, refs: map<nat, nat>, more: map<nat, nat>)
    requires RefsRight(t, before, refs)
    requires forall i :: i in more && i in Ids(t) ==> i in refs && more[i] == refs[i]
    requires forall i :: i in refs ==> i in more
    ensures RefsRight(t, before, more)
  {
    forall p | IsPath(t, p) && NodeAt(t, p).val.SymRefNode?
      ensures NodeAt(t, p).id in more
      ensures Lookup(InSight(t, p, before), NodeAt(t, p).val.name) == Some(more[NodeAt(t, p).id])
    {
      NodeInIds(t, p);
    }
  }

  /** The environment semantics succeeds exactly when every node is fine with what
      it sees; it then exports what outlives the tree and records for every
      reference the declaration it sees. */
  lemma {:induction false} ResolveSees(t: Tree, env: seq<Binding>, limit: Option<nat>)
    requires NoRepeats(t)
    ensures Resolve(t, env, limit).Done? <==> AllFine(t, env, limit)
    ensures var r := Resolve(t, env, limit);
            r.Done? ==>
              r.env == env + Exports(t) && RefsRight(t, env, r.refs) && forall i :: i in r.refs ==> i in Ids(t)
    decreases t, 1
  {
    hide AllFine, RefsRight, AllIds, AllExports;
    FineSplits(t, env, limit);
    var entered := Enter(t.val, t.id, env, limit);
    if entered.Done? {
      assert entered.env == env + Own(t) by { EnterOwn(t, env, limit); }
      KidsNoRepeats(t);
      ResolveAllSees(t.kids, entered.env, limit);
      var all := ResolveAll(t.kids, entered.env, limit);
      if all.Done? {
        var refs := entered.refs + all.refs;
        RootNotBelow(t);
        forall k | 0 <= k < |t.kids| ensures RefsRight(t.kids[k], entered.env + AllExports(t.kids[..k]), refs) {
          assert RefsRight(t.kids[k], entered.env + AllExports(t.kids[..k]), all.refs);
          forall i | i in refs && i in Ids(t.kids[k]) ensures i in all.refs && refs[i] == all.refs[i] {
            KidInIds(t.kids, k, i);
          }
          RightWider(t.kids[k], entered.env + AllExports(t.kids[..k]), all.refs, refs);
        }
        RightJoins(t, env, refs);
        assert (env + Own(t)) + AllExports(t.kids) == env + (Own(t) + AllExports(t.kids));
        assert env + [] == env;
      }
    }
  }

  lemma {:induction false} EnterOwn(t: Tree, env: seq<Binding>, limit: Option<nat>)
    requires Enter(t.val, t.id, env, limit).Done?
    ensures Enter(t.val, t.id, env, limit).env == env + Own(t)
    ensures NodeFine(t, env, limit)
  {
    assert env + [] == env;
  }

  lemma {:induction false} KidsNoRepeats(t: Tree)
    requires NoRepeats(t)
    ensures NoRepeatsAll(t.kids)
  {
    hide AllIds;
    forall i: nat ensures AllIds(t.kids)[i] <= 1 {
      assert Ids(t)[i] >= AllIds(t.kids)[i];
    }
  }

  lemma {:induction false} RootNotBelow(t: Tree)
    requires NoRepeats(t)
    ensures t.id !in AllIds(t.kids)
  {
    hide AllIds;
    assert Ids(t)[t.id] == 1 + AllIds(t.kids)[t.id];
  }

  lemma {:induction false} NoKids(env: seq<Binding>, refs: map<nat, nat>, limit: Option<nat>)
    ensures KidsFine([], 0, env, limit) && KidsRight([], 0, env, refs)
  {
  }

  lemma {:induction false} ResolveAllSees(ts: seq<Tree>, env: seq<Binding>, limit: Option<nat>)
    requires NoRepeatsAll(ts)
    ensures ResolveAll(ts, env, limit).Done? <==> KidsFine(ts, |ts|, env, limit)
    ensures var r := ResolveAll(ts, env, limit);
            r.Done? ==>
              r.env == env + AllExports(ts) && KidsRight(ts, |ts|, env, r.refs)
              && forall i :: i in r.refs ==> i in AllIds(ts)
    decreases ts, 2
  {
    hide AllFine, RefsRight, Ids, Exports, Resolve, Full, KidsFine, KidsRight, NoRepeats;
    if ts == [] {
      assert env + [] == env;
      NoKids(env, map[], limit);
    } else {
      var most, t := ts[..|ts| - 1], ts[|ts| - 1];
      assert ts == most + [t];
      SplitNoRepeats(most, t);
      ResolveAllSees(most, env, limit);
      KidsFineSnoc(most, t, env, limit);
      var all := ResolveAll(most, env, limit);
      if all.Done? {
        ResolveSees(t, all.env, limit);
        var last := Resolve(t, all.env, limit);
        if last.Done? {
          RightSnoc(most, t, env, all.refs, last.refs);
          assert (env + AllExports(most)) + Exports(t) == env + (AllExports(most) + Exports(t));
          AllIdsSnoc(most, t);
        }
      }
    }
  }

  lemma {:induction false} RightSnoc(most: seq<Tree>, t: Tree, env: seq<Binding>, refs: map<nat, nat>,
      more: map<nat, nat>)
    requires KidsRight(most, |most|, env, refs) && RefsRight(t, env + AllExports(most), more)
    requires forall j :: j in more ==> j in Ids(t)
    requires forall j :: j in refs ==> j in AllIds(most)
    requires forall j :: j in AllIds(most) ==> j !in Ids(t)
    ensures KidsRight(most + [t], |most| + 1, env, refs + more)
  {
    hide RefsRight, Ids, AllIds, AllExports;
    var ts := most + [t];
    forall k | 0 <= k < |ts| ensures RefsRight(ts[k], env + AllExports(ts[..k]), refs + more) {
      if k < |most| {
        assert ts[k] == most[k] && ts[..k] == most[..k];
        assert RefsRight(most[k], env + AllExports(most[..k]), refs);
        forall i | i in refs + more && i in Ids(most[k]) ensures i in refs && (refs + more)[i] == refs[i] {
          KidHasRef(most, k, i, refs, more, t);
        }
        RightWider(most[k], env + AllExports(most[..k]), refs, refs + more);
      } else {
        assert ts[..k] == most && ts[k] == t;
        RightWider(t, env + AllExports(most), more, refs + more);
      }
    }
  }

  lemma {:induction false} KidHasRef(most: seq<Tree>, k: nat, i: nat, refs: map<nat, nat>, more: map<nat, nat>, t: Tree)
    requires k < |most| && i in Ids(most[k]) && i in refs + more
    requires forall j :: j in more ==> j in Ids(t)
    requires forall j :: j in AllIds(most) ==> j !in Ids(t)
    ensures i in refs && (refs + more)[i] == refs[i]
  {
    hide Ids;
    KidInIds(most, k, i);
  }

  lemma {:induction false} SplitNoRepeats(most: seq<Tree>, t: Tree)
    requires NoRepeatsAll(most + [t])
    ensures NoRepeatsAll(most) && NoRepeats(t)
    ensures forall j :: j in AllIds(most) ==> j !in Ids(t)
  {
    hide AllIds, Ids;
    AllIdsSnoc(most, t);
    forall i: nat ensures AllIds(most)[i] + Ids(t)[i] <= 1 {
      assert AllIds(most + [t])[i] == AllIds(most)[i] + Ids(t)[i];
    }
  }

  lemma {:induction false} KidsFineSnoc(most: seq<Tree>, t: Tree, env: seq<Binding>, limit: Option<nat>)
    ensures var ts := most + [t];
            (KidsFine(ts, |ts|, env, limit)
             <==> KidsFine(most, |most|, env, limit) && AllFine(t, env + AllExports(most), limit))
  {
    hide AllFine;
    var ts := most + [t];
    assert forall k :: 0 <= k < |most| ==> ts[k] == most[k] && ts[..k] == most[..k];
    assert ts[..|most|] == most && ts[|most|] == t;
  }

  // ----- sight by position: earlier in the text, and inside every scope around it

  /** `q` comes before `p` in preorder. */
  predicate Before(q: Path, p: Path)
    decreases p
  {
    p != [] && (q == [] || q[0] < p[0] || (q[0] == p[0] && Before(q[1..], p[1..])))
  }

  lemma {:induction false} PrefixPath(t: Tree, q: Path, n: nat)
    requires IsPath(t, q) && n <= |q|
    ensures IsPath(t, q[..n])
    decreases n
  {
    if n > 0 {
      assert q[..n][1..] == q[1..][..n - 1];
      PrefixPath(t.kids[q[0]], q[1..], n - 1);
    }
  }

  /** The node `n` steps down the path `q`. */
  function Along(t: Tree, q: Path, n: nat): Tree
    requires IsPath(t, q) && n <= |q|
  {
    PrefixPath(t, q, n);
    NodeAt(t, q[..n])
  }

  /** Every scope around the node at `q` also holds the node at `p`, which comes later. */
  ghost predicate Sees(t: Tree, q: Path, p: Path)
    requires IsPath(t, q)
  {
    Before(q, p) && forall n :: 0 <= n < |q| && IsScope(Along(t, q, n).val) ==> q[..n] <= p
  }

  ghost predicate Escapes(t: Tree, q: Path)
    requires IsPath(t, q)
  {
    forall n :: 0 <= n < |q| ==> !IsScope(Along(t, q, n).val)
  }

  lemma {:induction false} AlongCons(t: Tree, k: nat, q: Path, n: nat)
    requires k < |t.kids| && IsPath(t.kids[k], q) && n <= |q|
    ensures IsPath(t, [k] + q) && Along(t, [k] + q, n + 1) == Along(t.kids[k], q, n)
    ensures Along(t, [k] + q, 0) == t
    ensures ([k] + q)[..n + 1] == [k] + q[..n]
  {
    assert ([k] + q)[1..] == q;
    assert ([k] + q)[..n + 1] == [k] + q[..n];
    assert ([k] + q)[..n + 1][1..] == q[..n];
    PrefixPath(t, [k] + q, n + 1);
  }

  lemma {:induction false} EscapesCons(t: Tree, k: nat, q: Path)
    requires k < |t.kids| && IsPath(t.kids[k], q)
    ensures IsPath(t, [k] + q)
    ensures Escapes(t, [k] + q) <==> !IsScope(t.val) && Escapes(t.kids[k], q)
  {
    AlongCons(t, k, q, 0);
    var r := [k] + q;
    if Escapes(t, r) {
      assert !IsScope(Along(t, r, 0).val);
      forall n | 0 <= n < |q| ensures !IsScope(Along(t.kids[k], q, n).val) {
        AlongCons(t, k, q, n);
        assert !IsScope(Along(t, r, n + 1).val);
      }
    }
    if !IsScope(t.val) && Escapes(t.kids[k], q) {
      forall n | 0 <= n < |r| ensures !IsScope(Along(t, r, n).val) {
        if n > 0 { AlongCons(t, k, q, n - 1); }
      }
    }
  }

  lemma {:induction false} SeesCons(t: Tree, k: nat, q: Path, p: Path)
    requires k < |t.kids| && IsPath(t.kids[k], q) && p != []
    ensures IsPath(t, [k] + q)
    ensures k == p[0] ==> (Sees(t, [k] + q, p) <==> Sees(t.kids[k], q, p[1..]))
    ensures k < p[0] ==> (Sees(t, [k] + q, p) <==> Escapes(t.kids[k], q))
    ensures k > p[0] ==> !Sees(t, [k] + q, p)
  {
    AlongCons(t, k, q, 0);
    var r := [k] + q;
    assert r[1..] == q;
    forall n | 0 <= n < |q| ensures Along(t, r, n + 1) == Along(t.kids[k], q, n) && r[..n + 1] == [k] + q[..n]
                                    && (r[..n + 1] <= p <==> k == p[0] && q[..n] <= p[1..])
    {
      AlongCons(t, k, q, n);
      StepDown(k, q[..n], p);
    }
    if k == p[0] && Sees(t.kids[k], q, p[1..]) {
      forall n | 0 <= n < |r| && IsScope(Along(t, r, n).val) ensures r[..n] <= p {
        if n > 0 { assert Along(t, r, (n - 1) + 1) == Along(t.kids[k], q, n - 1); }
      }
    }
    if k == p[0] && Sees(t, r, p) {
      forall n | 0 <= n < |q| && IsScope(Along(t.kids[k], q, n).val) ensures q[..n] <= p[1..] {
        assert IsScope(Along(t, r, n + 1).val);
      }
    }
    if k < p[0] && Escapes(t.kids[k], q) {
      forall n | 0 < n < |r| ensures !IsScope(Along(t, r, n).val) {
        assert Along(t, r, (n - 1) + 1) == Along(t.kids[k], q, n - 1);
      }
    }
    if k < p[0] && Sees(t, r, p) {
      forall n | 0 <= n < |q| ensures !IsScope(Along(t.kids[k], q, n).val) {
        assert !IsScope(Along(t, r, n + 1).val);
      }
    }
  }

  lemma {:induction false} StepDown(k: nat, q: Path, p: Path)
    requires p != []
    ensures [k] + q <= p <==> k == p[0] && q <= p[1..]
  {
    if [k] + q <= p {
      assert p[0] == ([k] + q)[0];
      assert p[1..][..|q|] == p[..|q| + 1][1..] == ([k] + q)[1..] == q;
    }
    if k == p[0] && q <= p[1..] { assert p[..|q| + 1] == [p[0]] + p[1..][..|q|]; }
  }

  /** What a tree exports are the declarations with no scope around them in it. */
  lemma {:induction false} ExportsAre(t: Tree, b: Binding)
    ensures b in Exports(t) <==> exists q | IsPath(t, q) :: b in Own(NodeAt(t, q)) && Escapes(t, q)
    decreases t, 0
  {
    hide AllExports, Escapes;
    AllExportsAre(t.kids, b);
    EscapesRoot(t);
    if b in Exports(t) {
      if b in Own(t) {
        assert NodeAt(t, []) == t;
      } else {
        var k :| 0 <= k < |t.kids| && b in Exports(t.kids[k]);
        ExportsAre(t.kids[k], b);
        var q :| IsPath(t.kids[k], q) && b in Own(NodeAt(t.kids[k], q)) && Escapes(t.kids[k], q);
        EscapesCons(t, k, q);
        PathCons(t, k, q, []);
      }
    }
    if exists q | IsPath(t, q) :: b in Own(NodeAt(t, q)) && Escapes(t, q) {
      var q :| IsPath(t, q) && b in Own(NodeAt(t, q)) && Escapes(t, q);
      if q != [] {
        var k, q1 := q[0], q[1..];
        assert q == [k] + q1;
        EscapesCons(t, k, q1);
        assert b in Own(NodeAt(t.kids[k], q1));
        ExportsAre(t.kids[k], b);
      }
    }
  }

  lemma {:induction false} EscapesRoot(t: Tree)
    ensures IsPath(t, []) && Escapes(t, [])
  {
  }

  lemma {:induction false} AllExportsAre(ts: seq<Tree>, b: Binding)
    ensures b in AllExports(ts) <==> exists k :: 0 <= k < |ts| && b in Exports(ts[k])
    decreases ts
  {
    hide Exports;
    if ts != [] {
      var most, last := ts[..|ts| - 1], ts[|ts| - 1];
      AllExportsAre(most, b);
      assert b in AllExports(ts) <==> b in AllExports(most) || b in Exports(last);
      if b in AllExports(most) {
        var k :| 0 <= k < |most| && b in Exports(most[k]);
        assert ts[k] == most[k];
      } else if exists k :: 0 <= k < |ts| && b in Exports(ts[k]) {
        var k :| 0 <= k < |ts| && b in Exports(ts[k]);
        if k < |most| { assert most[k] == ts[k]; }
      }
    }
  }

  lemma {:induction false} SightIff(t: Tree, p: Path, before: seq<Binding>, b: Binding)
    requires IsPath(t, p)
    ensures b in InSight(t, p, before)
       <==> b in before || exists q | IsPath(t, q) :: b in Own(NodeAt(t, q)) && Sees(t, q, p)
    decreases p
  {
    hide Sees, Exports, AllExports, Escapes;
    if p == [] {
      SeesNothing(t);
    } else {
      var k, left := p[0], t.kids[..p[0]];
      var wider := before + Own(t) + AllExports(left);
      SightIff(t.kids[k], p[1..], wider, b);
      AllExportsAre(left, b);
      SeesRoot(t, p);
      if b in InSight(t, p, before) && b !in before {
        SightGoesUp(t, p, before, b);
      }
      if exists q | IsPath(t, q) :: b in Own(NodeAt(t, q)) && Sees(t, q, p) {
        var q :| IsPath(t, q) && b in Own(NodeAt(t, q)) && Sees(t, q, p);
        SightComesDown(t, p, q, before, b);
      }
    }
  }

  lemma {:induction false} OwnIs(t: Tree, b: Binding)
    ensures b in Own(t) <==> (t.val.VarDeclNode? || t.val.ArgDeclNode?) && b == Binding(t.val.name, t.id)
  {
  }

  lemma {:induction false} SeesIs(t: Tree, q: Path, p: Path)
    requires IsPath(t, q)
    ensures Sees(t, q, p)
       <==> && Before(q, p)
            && forall n | 0 <= n < |q| && (Along(t, q, n).val.CompoundNode? || Along(t, q, n).val.FunDeclNode?) ::
                 q[..n] <= p
  {
    hide Along, Before;
  }

  /** A declaration is in sight of a node if and only if it was in sight of the tree, or
      it is a variable or argument that comes earlier and every block and function around
      it holds both. */
  lemma {:induction false} InSightIff(t: Tree, p: Path, before: seq<Binding>, b: Binding)
    requires IsPath(t, p)
    ensures b in InSight(t, p, before)
       <==> || b in before
            || exists q | IsPath(t, q) ::
                 && (NodeAt(t, q).val.VarDeclNode? || NodeAt(t, q).val.ArgDeclNode?)
                 && b == Binding(NodeAt(t, q).val.name, NodeAt(t, q).id)
                 && Before(q, p)
                 && forall n | 0 <= n < |q| && (Along(t, q, n).val.CompoundNode? || Along(t, q, n).val.FunDeclNode?) ::
                      q[..n] <= p
  {
    hide Sees, Own, InSight, NodeAt, Along, Before;
    SightIff(t, p, before, b);
    forall q | IsPath(t, q)
      ensures b in Own(NodeAt(t, q)) && Sees(t, q, p)
         <==> && (NodeAt(t, q).val.VarDeclNode? || NodeAt(t, q).val.ArgDeclNode?)
              && b == Binding(NodeAt(t, q).val.name, NodeAt(t, q).id)
              && Before(q, p)
              && forall n | 0 <= n < |q| && (Along(t, q, n).val.CompoundNode? || Along(t, q, n).val.FunDeclNode?) ::
                   q[..n] <= p
    {
      OwnIs(NodeAt(t, q), b);
      SeesIs(t, q, p);
    }
  }

  lemma {:induction false} SeesNothing(t: Tree)
    ensures forall q | IsPath(t, q) :: !Sees(t, q, [])
  {
  }

  lemma {:induction false} SeesRoot(t: Tree, p: Path)
    requires p != []
    ensures IsPath(t, []) && Sees(t, [], p)
  {
  }

  lemma {:induction false} SightGoesUp(t: Tree, p: Path, before: seq<Binding>, b: Binding)
    requires IsPath(t, p) && p != [] && b !in before
    requires var wider := before + Own(t) + AllExports(t.kids[..p[0]]);
             b in wider || exists q | IsPath(t.kids[p[0]], q) ::
                             b in Own(NodeAt(t.kids[p[0]], q)) && Sees(t.kids[p[0]], q, p[1..])
    ensures exists q | IsPath(t, q) :: b in Own(NodeAt(t, q)) && Sees(t, q, p)
  {
    hide Sees, Exports, AllExports, Escapes;
    var k, left := p[0], t.kids[..p[0]];
    if b in Own(t) {
      SeesRoot(t, p);
      assert NodeAt(t, []) == t;
    } else if b in AllExports(left) {
      AllExportsAre(left, b);
      var j :| 0 <= j < |left| && b in Exports(left[j]);
      assert left[j] == t.kids[j];
      ExportsAre(t.kids[j], b);
      var q :| IsPath(t.kids[j], q) && b in Own(NodeAt(t.kids[j], q)) && Escapes(t.kids[j], q);
      SeesCons(t, j, q, p);
      PathCons(t, j, q, []);
    } else {
      var q :| IsPath(t.kids[k], q) && b in Own(NodeAt(t.kids[k], q)) && Sees(t.kids[k], q, p[1..]);
      SeesCons(t, k, q, p);
      PathCons(t, k, q, []);
    }
  }

  lemma {:induction false} SightComesDown(t: Tree, p: Path, q: Path, before: seq<Binding>, b: Binding)
    requires IsPath(t, p) && p != [] && IsPath(t, q) && b in Own(NodeAt(t, q)) && Sees(t, q, p)
    ensures var wider := before + Own(t) + AllExports(t.kids[..p[0]]);
            b in wider || exists r | IsPath(t.kids[p[0]], r) ::
                            b in Own(NodeAt(t.kids[p[0]], r)) && Sees(t.kids[p[0]], r, p[1..])
  {
    hide Sees, Exports, AllExports, Escapes;
    if q != [] {
      var j, r := q[0], q[1..];
      assert q == [j] + r;
      SeesCons(t, j, r, p);
      assert b in Own(NodeAt(t.kids[j], r));
      if j < p[0] {
        var left := t.kids[..p[0]];
        assert left[j] == t.kids[j];
        ExportsAre(t.kids[j], b);
        AllExportsAre(left, b);
      }
    }
  }

  lemma {:induction false} LookupIn(env: seq<Binding>, name: string)
    ensures var r := Lookup(env, name); r.Some? ==> Binding(name, r.value) in env
    ensures Lookup(env, name).None? ==> forall i :: 0 <= i < |env| ==> env[i].name != name
    decreases env
  {
    if env != [] {
      LookupIn(env[..|env| - 1], name);
    }
  }

  lemma {:induction false} FunctionsAre(ts: seq<Tree>, b: Binding, limit: Option<nat>)
    requires DeclareFunctions(ts, limit).Done? && b in DeclareFunctions(ts, limit).env
    ensures exists k :: 0 <= k < |ts| && ts[k].val.FunDeclNode? && b == Binding(ts[k].val.name, ts[k].id)
    decreases ts
  {
    if ts != [] {
      var most, t := ts[..|ts| - 1], ts[|ts| - 1];
      if b in DeclareFunctions(most, limit).env {
        FunctionsAre(most, b, limit);
        var k :| 0 <= k < |most| && most[k].val.FunDeclNode? && b == Binding(most[k].val.name, most[k].id);
        assert ts[k] == most[k];
      }
    }
  }

  /** Scope safety: in a module that resolves, every reference points to a function
      of the module, or to a variable or argument of the same name that comes before
      it, and every block and function around which holds the reference too. */
  lemma {:induction false} ScopeSafety(t: Tree, p: Path, limit: Option<nat>)
    requires NoRepeats(t) && ResolveModule(t, limit).Done? && IsPath(t, p) && NodeAt(t, p).val.SymRefNode?
    ensures var x, refs := NodeAt(t, p), ResolveModule(t, limit).refs;
            && x.id in refs
            && (|| (exists k ::
                      && 0 <= k < |t.kids| && t.kids[k].val.FunDeclNode?
                      && t.kids[k].val.name == x.val.name && t.kids[k].id == refs[x.id])
                || (exists q | IsPath(t, q) ::
                      && (NodeAt(t, q).val.VarDeclNode? || NodeAt(t, q).val.ArgDeclNode?)
                      && NodeAt(t, q).val.name == x.val.name && NodeAt(t, q).id == refs[x.id]
                      && Before(q, p)
                      && forall n |
                           && 0 <= n < |q|
                           && (Along(t, q, n).val.CompoundNode? || Along(t, q, n).val.FunDeclNode?) :: q[..n] <= p))
  {
    hide Resolve, Sees, AllFine, NodeAt, Along, Before, InSight, Own, Lookup;
    var env := DeclareFunctions(t.kids, limit).env;
    ResolveSees(t, env, limit);
    var x, refs := NodeAt(t, p), ResolveModule(t, limit).refs;
    var b := Binding(x.val.name, refs[x.id]);
    LookupIn(InSight(t, p, env), x.val.name);
    InSightIff(t, p, env, b);
    if b in env { FunctionsAre(t.kids, b, limit); }
  }
}

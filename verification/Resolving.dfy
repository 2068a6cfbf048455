/** The symbol resolver of nucleus/lang/analyzer/symbol.h: a stack of names in two
    arrays, cut back in place, walking the linked arena. It refines Scopes.Resolve. */
module Resolving {
  import opened Options
  import opened Tokens
  import opened Layout
  import opened Arena
  import opened Scopes
  import opened Limits

  // ----- an arena whose references are being filled in

  function Blank(v: Val): Val {
    match v
    case SymRefNode(n, _) => SymRefNode(n, NULL_ID)
    case _ => v
  }

  /** The arena holds the tree, whatever its references point to by now. */
  ghost predicate Like(t: Tree, g: seq<Cell>) {
    && t.id < |g|
    && Blank(g[t.id].val) == Blank(t.val)
    && |g[t.id].kids| == |t.kids|
    && forall k :: 0 <= k < |t.kids| ==> g[t.id].kids[k] == t.kids[k].id && Like(t.kids[k], g)
  }

  function Refer(v: Val, id: nat, refs: map<nat, nat>): Val {
    match v
    case SymRefNode(n, _) => if id in refs then SymRefNode(n, refs[id]) else v
    case _ => v
  }

  /** The arena with these references filled in, and nothing else changed. */
  ghost function SetRefs(g: seq<Cell>, refs: map<nat, nat>): seq<Cell> {
    seq(|g|, i requires 0 <= i < |g| => g[i].(val := Refer(g[i].val, i, refs)))
  }

  /** Only references may differ. */
  ghost predicate SameButRefs(g: seq<Cell>, h: seq<Cell>) {
    |g| == |h| && forall i :: 0 <= i < |g| ==> Blank(h[i].val) == Blank(g[i].val) && h[i] == g[i].(val := h[i].val)
  }

  /** The tree with these references filled in. */
  function Fill(t: Tree, refs: map<nat, nat>): Tree {
    Tree(t.id, Refer(t.val, t.id, refs), seq(|t.kids|, k requires 0 <= k < |t.kids| => Fill(t.kids[k], refs)))
  }

  lemma {:induction false} ShapeLike(t: Tree, g: seq<Cell>)
    requires Shape(t, g)
    ensures Like(t, g)
    decreases t
  {
    forall k | 0 <= k < |t.kids| ensures Like(t.kids[k], g) { ShapeLike(t.kids[k], g); }
  }

  /** The cells of a node and of its child at `k`. */
  lemma {:induction false} LikeKid(t: Tree, k: nat, g: seq<Cell>)
    requires Forest(g) && Like(t, g) && k < |t.kids|
    ensures t.id < |g| && |g[t.id].kids| == |t.kids| && g[t.id].kids[k] == t.kids[k].id
    ensures t.kids[k].id < |g| && g[t.kids[k].id].parent == t.id && g[t.kids[k].id].index == k && Like(t.kids[k], g)
    ensures Blank(g[t.kids[k].id].val) == Blank(t.kids[k].val)
    ensures k + 1 < |t.kids| ==> g[t.id].kids[k + 1] == t.kids[k + 1].id
    ensures |g| < NULL_ID
  {
    ForestRooted(g, t.id);
  }

  lemma {:induction false} LikeFirst(t: Tree, g: seq<Cell>)
    requires Forest(g) && Like(t, g)
    ensures t.id < |g| && |g[t.id].kids| == |t.kids| && (t.kids != [] ==> g[t.id].kids[0] == t.kids[0].id)
  {
  }

  lemma {:induction false} NodeVal(ast: Ast, i: nat)
    requires ast.Valid() && i < ast.count
    ensures ast.nodes[i].val == ast.cells[i].val
  {
  }

  lemma {:induction false} LikeSame(t: Tree, g: seq<Cell>, h: seq<Cell>)
    requires Like(t, g) && SameButRefs(g, h)
    ensures Like(t, h)
    decreases t
  {
    forall k | 0 <= k < |t.kids| ensures Like(t.kids[k], h) { LikeSame(t.kids[k], g, h); }
  }

  lemma {:induction false} SameTrans(f: seq<Cell>, g: seq<Cell>, h: seq<Cell>)
    requires SameButRefs(f, g) && SameButRefs(g, h)
    ensures SameButRefs(f, h)
  {
  }

  lemma {:induction false} SetRefsSame(g: seq<Cell>, refs: map<nat, nat>)
    ensures SameButRefs(g, SetRefs(g, refs))
  {
  }

  lemma {:induction false} SetNoRefs(g: seq<Cell>)
    ensures SetRefs(g, map[]) == g
  {
  }

  lemma {:induction false} SetRefsTwice(g: seq<Cell>, r: map<nat, nat>, s: map<nat, nat>)
    ensures SetRefs(SetRefs(g, r), s) == SetRefs(g, r + s)
  {
  }

  lemma {:induction false} SetOneRef(g: seq<Cell>, i: nat, n: string, m: nat, d: nat)
    requires i < |g| && g[i].val == SymRefNode(n, m)
    ensures SetVal(g, i, SymRefNode(n, d)) == SetRefs(g, map[i := d])
  {
  }

  /** After resolution the arena is the tree with its references filled in. */
  lemma {:induction false} FillShape(t: Tree, g: seq<Cell>, refs: map<nat, nat>)
    requires Shape(t, g)
    ensures Shape(Fill(t, refs), SetRefs(g, refs))
    decreases t
  {
    forall k | 0 <= k < |t.kids| ensures Shape(Fill(t.kids[k], refs), SetRefs(g, refs)) {
      FillShape(t.kids[k], g, refs);
    }
  }

  /** Filling in references changes the targets of those references, and nothing else. */
  lemma {:induction false} FillAt(t: Tree, p: Path, refs: map<nat, nat>)
    requires IsPath(t, p)
    ensures IsPath(Fill(t, refs), p)
    ensures var x, y := NodeAt(t, p), NodeAt(Fill(t, refs), p);
            && y.id == x.id && |y.kids| == |x.kids|
            && y.val == if x.val.SymRefNode? && x.id in refs then SymRefNode(x.val.name, refs[x.id]) else x.val
    decreases p
  {
    if p != [] { FillAt(t.kids[p[0]], p[1..], refs); }
  }

  // ----- the resolver object

  class SymbolResolver {
    const ast: Ast
    const names: array<string>
    const ids: array<nat>
    var size: nat

    ghost predicate Valid()
      reads this, names, ids
    {
      names.Length == STACK_SIZE == ids.Length && size <= STACK_SIZE && Distinct(Stack())
    }

    /** The names in scope, innermost last. */
    ghost function Stack(): (s: seq<Binding>)
      requires size <= names.Length && size <= ids.Length
      reads this, names, ids
      ensures |s| == size
    {
      seq(size, i
        requires 0 <= i < size reads this, names, ids requires size <= names.Length && size <= ids.Length =>
          Binding(names[i], ids[i]))
    }

    constructor (ast: Ast)
      ensures Valid() && size == 0 && this.ast == ast && fresh(names) && fresh(ids)
      ensures names.Length == 1024 == ids.Length
    {
      this.ast := ast;
      names := new string[STACK_SIZE](_ => "");
      ids := new nat[STACK_SIZE](_ => 0);
      size := 0;
    }

    /** The innermost binding of the name. */
    method FindSymbol(name: string) returns (error: Error, id: nat)
      requires Valid()
      ensures error == NONE ==> Lookup(Stack(), name) == Some(id)
      ensures error != NONE ==> error == UNRESOLVED_SYMBOL && Lookup(Stack(), name) == None
    {
      var n := size;
      ghost var s := Stack();
      assert s[..n] == s;
      while n > 0
        invariant n <= size
        invariant Lookup(s, name) == Lookup(s[..n], name)
      {
        n := n - 1;
        assert s[..n + 1][..n] == s[..n];
        if names[n] == name { return NONE, ids[n]; }
      }
      return UNRESOLVED_SYMBOL, 0;
    }

    /** Pushes a new name. On a full stack the source writes past its end, for which
        UNDEFINED stands. */
    method DefineSymbol(name: string, id: nat) returns (error: Error)
      requires Valid()
      modifies this`size, names, ids
      ensures Valid()
      ensures error == NONE ==> Define(old(Stack()), name, id, STACK) == Done(map[], Stack())
      ensures error != NONE ==> Define(old(Stack()), name, id, STACK) == Stuck(error) && Stack() == old(Stack())
    {
      ghost var s := Stack();
      var found, _ := FindSymbol(name);
      if found != UNRESOLVED_SYMBOL { return SYMBOL_ALREADY_DEFINED; }
      if size == STACK_SIZE { return UNDEFINED; }
      DistinctSnoc(s, Binding(name, id));
      names[size] := name;
      ids[size] := id;
      size := size + 1;
      assert Stack() == s + [Binding(name, id)];
      return NONE;
    }

    /** What happens at a node before its children. */
    method Enter(id: nat, ghost t: Tree) returns (error: Error)
      requires Valid() && ast.Valid() && Like(t, ast.cells) && id == t.id
      modifies this`size, names, ids, ast, ast.nodes
      ensures Valid() && ast.Valid() && SameButRefs(old(ast.cells), ast.cells)
      ensures var r := Scopes.Enter(t.val, t.id, old(Stack()), STACK);
              if error == NONE then r.Done? && r.env == Stack() && ast.cells == SetRefs(old(ast.cells), r.refs)
              else r == Stuck(error)
    {
      hide Forest, Lookup, Distinct, Define, Rooted, NextOf, Linked, SetRefs, SameButRefs;
      ghost var g := ast.cells;
      NodeVal(ast, id);
      SetNoRefs(g);
      SetRefsSame(g, map[]);
      match ast.nodes[id].val
      case VarDeclNode(name, _) => error := DefineSymbol(name, id);
      case ArgDeclNode(name, _) => error := DefineSymbol(name, id);
      case SymRefNode(_, _) => error := ResolveReference(id);
      case _ => error := NONE;
    }

    /** Points a reference at the declaration it sees. */
    method ResolveReference(id: nat) returns (error: Error)
      requires Valid() && ast.Valid() && id < ast.count && ast.cells[id].val.SymRefNode?
      modifies ast, ast.nodes
      ensures ast.Valid() && SameButRefs(old(ast.cells), ast.cells)
      ensures var d := Lookup(Stack(), old(ast.cells)[id].val.name);
              if error == NONE then d.Some? && ast.cells == SetRefs(old(ast.cells), map[id := d.value])
              else error == UNRESOLVED_SYMBOL && d.None?
    {
      hide Forest, Lookup, Distinct, SetRefs, SetVal, SameButRefs, Rooted, NextOf;
      ghost var g := ast.cells;
      SetRefsSame(g, map[]);
      SetNoRefs(g);
      var name := ast.nodes[id].val.name;
      var found, ref := FindSymbol(name);
      if found != NONE { return found; }
      SetOneRef(g, id, name, ast.nodes[id].val.node, ref);
      SetRefsSame(g, map[id := ref]);
      ast.SetValue(id, ast.nodes[id].val.(node := ref));
      error := NONE;
    }

    /** Visits the node at `id`, which holds the tree `t`, and everything below it. */
    method ResolveScoped(id: nat, ghost t: Tree) returns (error: Error)
      requires Valid() && ast.Valid() && Like(t, ast.cells) && id == t.id
      modifies this`size, names, ids, ast, ast.nodes
      ensures Valid() && ast.Valid() && SameButRefs(old(ast.cells), ast.cells)
      ensures var r := Resolve(t, old(Stack()), STACK);
              if error == NONE then r.Done? && r.env == Stack() && ast.cells == SetRefs(old(ast.cells), r.refs)
              else r == Stuck(error)
      decreases t, 1
    {
      hide Forest, Lookup, Distinct, Scopes.Enter, ResolveAll, SetRefs, Rooted, NextOf;
      var before := size;
      ghost var g, env := ast.cells, Stack();
      error := Enter(id, t);
      if error != NONE { return; }
      ghost var g1, env1 := ast.cells, Stack();
      EnterKeeps(t, env, STACK);
      LikeSame(t, g, g1);
      error := ResolveChilds(id, t);
      SameTrans(g, g1, ast.cells);
      if error != NONE { return; }
      SetRefsTwice(g, Scopes.Enter(t.val, t.id, env, STACK).refs, ResolveAll(t.kids, env1, STACK).refs);
      ResolveAllKeeps(t.kids, env1, STACK);
      match ast.nodes[id].val {
        case CompoundNode => CutBack(before, env);
        case FunDeclNode(_, _, _) => CutBack(before, env);
        case _ =>
      }
    }

    /** Forgets the names above a former size. */
    method CutBack(before: nat, ghost env: seq<Binding>)
      requires Valid() && env <= Stack() && |env| == before
      modifies this`size
      ensures Valid() && Stack() == env
    {
      ghost var s := Stack();
      size := before;
      assert Stack() == s[..before];
    }

    method ResolveChilds(parent: nat, ghost t: Tree) returns (error: Error)
      requires Valid() && ast.Valid() && Like(t, ast.cells) && parent == t.id
      modifies this`size, names, ids, ast, ast.nodes
      ensures Valid() && ast.Valid() && SameButRefs(old(ast.cells), ast.cells)
      ensures var r := ResolveAll(t.kids, old(Stack()), STACK);
              if error == NONE then r.Done? && r.env == Stack() && ast.cells == SetRefs(old(ast.cells), r.refs)
              else r == Stuck(error)
      decreases t, 0
    {
      hide Forest, Lookup, Distinct, Resolve, SetRefs, SameButRefs, Rooted, NextOf, Like, Linked;
      ghost var g, env := ast.cells, Stack();
      ghost var k, refs: map<nat, nat> := 0, map[];
      SetNoRefs(g);
      SetRefsSame(g, map[]);
      LikeFirst(t, g);
      var child := NULL_ID;
      child := ast.IterChilds(parent, child);
      while child != NULL_ID
        invariant Valid() && ast.Valid() && SameButRefs(g, ast.cells) && Like(t, ast.cells)
        invariant k <= |t.kids| && child == (if k < |t.kids| then t.kids[k].id else NULL_ID)
        invariant ResolveAll(t.kids[..k], env, STACK) == Done(refs, Stack())
        invariant ast.cells == SetRefs(g, refs)
        decreases |t.kids| - k
      {
        hide ResolveAll;
        ghost var h, env1 := ast.cells, Stack();
        LikeKid(t, k, h);
        ResolveAllKeeps(t.kids[..k], env, STACK);
        ResolveAllStep(t.kids, k, env, STACK);
        error := ResolveScoped(child, t.kids[k]);
        SameTrans(g, h, ast.cells);
        if error != NONE {
          return;
        }
        ghost var more := Resolve(t.kids[k], env1, STACK).refs;
        SetRefsTwice(g, refs, more);
        refs := refs + more;
        LikeSame(t, g, ast.cells);
        LikeKid(t, k, ast.cells);
        k := k + 1;
        child := ast.IterChilds(parent, child);
      }
      if k < |t.kids| { LikeKid(t, k, ast.cells); }
      assert t.kids[..k] == t.kids;
      error := NONE;
    }

    /** First the names of the functions, then everything else in its scope. */
    method Run(ghost t: Tree) returns (error: Error)
      requires Valid() && ast.Valid() && Shape(t, ast.cells) && t.id == ast.root
      modifies this`size, names, ids, ast, ast.nodes
      ensures Valid() && ast.Valid() && SameButRefs(old(ast.cells), ast.cells)
      ensures var r := ResolveModule(t, STACK);
              if error == NONE then
                r.Done? && r.env == Stack() && ast.cells == SetRefs(old(ast.cells), r.refs)
                && Shape(Fill(t, r.refs), ast.cells)
              else r == Stuck(error)
    {
      hide Forest, Lookup, Distinct, Resolve, Shape;
      ghost var g := ast.cells;
      ShapeLike(t, g);
      SetRefsSame(g, map[]);
      error := DeclareAll(t);
      if error != NONE { return; }
      error := ResolveScoped(ast.root, t);
      if error == NONE { FillShape(t, g, ResolveModule(t, STACK).refs); }
    }

    method DeclareAll(ghost t: Tree) returns (error: Error)
      requires Valid() && ast.Valid() && Like(t, ast.cells) && t.id == ast.root
      modifies this`size, names, ids
      ensures Valid()
      ensures var r := DeclareFunctions(t.kids, STACK);
              if error == NONE then r == Done(map[], Stack()) else r == Stuck(error)
    {
      hide Forest, Lookup, Distinct, Rooted, NextOf, Define, Like, Linked;
      size := 0;
      assert Valid() by { NoneDistinct(Stack()); }
      ghost var k := 0;
      LikeFirst(t, ast.cells);
      var child := NULL_ID;
      child := ast.IterChilds(ast.root, child);
      assert Stack() == [];
      while child != NULL_ID
        invariant Valid()
        invariant k <= |t.kids| && child == (if k < |t.kids| then t.kids[k].id else NULL_ID)
        invariant DeclareFunctions(t.kids[..k], STACK) == Done(map[], Stack())
        decreases |t.kids| - k
      {
        hide DeclareFunctions;
        LikeKid(t, k, ast.cells);
        NodeVal(ast, child);
        DeclareStep(t.kids, k, STACK);
        if ast.nodes[child].val.FunDeclNode? {
          error := DefineSymbol(ast.nodes[child].val.name, child);
          if error != NONE { return; }
        }
        k := k + 1;
        child := ast.IterChilds(ast.root, child);
      }
      if k < |t.kids| { LikeKid(t, k, ast.cells); }
      assert t.kids[..k] == t.kids;
      error := NONE;
    }
  }

  lemma {:induction false} DeclareStep(ts: seq<Tree>, k: nat, limit: Option<nat>)
    requires k < |ts| && DeclareFunctions(ts[..k], limit).Done?
    ensures var env := DeclareFunctions(ts[..k], limit).env;
            var r := if ts[k].val.FunDeclNode? then Define(env, ts[k].val.name, ts[k].id, limit) else Done(map[], env);
            DeclareFunctions(ts[..k + 1], limit) == r && (r.Stuck? ==> DeclareFunctions(ts, limit) == r)
    decreases ts
  {
    hide Define;
    assert ts[..k + 1][..k] == ts[..k];
    if k < |ts| - 1 {
      var most := ts[..|ts| - 1];
      assert most[..k] == ts[..k] && most[..k + 1] == ts[..k + 1];
      DeclareStep(most, k, limit);
    } else {
      assert ts[..k + 1] == ts;
    }
  }

  lemma {:induction false} ResolveAllStep(ts: seq<Tree>, k: nat, env: seq<Binding>, limit: Option<nat>)
    requires k < |ts|
    ensures var r := ResolveAll(ts[..k], env, limit);
            match r
            case Stuck(e) => ResolveAll(ts, env, limit) == r
            case Done(refs, mid) =>
              match Resolve(ts[k], mid, limit)
              case Stuck(e) => ResolveAll(ts[..k + 1], env, limit) == ResolveAll(ts, env, limit) == Stuck(e)
              case Done(more, last) => ResolveAll(ts[..k + 1], env, limit) == Done(refs + more, last)
    decreases ts
  {
    hide Resolve;
    var most := ts[..|ts| - 1];
    if k < |ts| - 1 {
      assert most[..k] == ts[..k] && most[..k + 1] == ts[..k + 1];
      ResolveAllStep(most, k, env, limit);
    } else {
      assert ts[..k + 1] == ts;
    }
  }

  /** Resolves the symbols of a module in place. */
  method ResolveSymbols(ast: Ast, ghost t: Tree) returns (error: Error)
    requires ast.Valid() && Shape(t, ast.cells) && t.id == ast.root
    modifies ast, ast.nodes
    ensures ast.Valid() && SameButRefs(old(ast.cells), ast.cells)
    ensures var r := ResolveModule(t, STACK);
            if error == NONE then
              r.Done? && ast.cells == SetRefs(old(ast.cells), r.refs) && Shape(Fill(t, r.refs), ast.cells)
            else r == Stuck(error)
  {
    hide ResolveModule, Shape, Forest;
    var resolver := new SymbolResolver(ast);
    error := resolver.Run(t);
  }
}

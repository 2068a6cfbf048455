/** The node arena of nucleus/lang/ast.h: an array of nodes linked by ids. The ghost
    cells say what the links mean: an ordered forest. */
module Arena {
  import opened Tokens
  import opened Syntax
  import opened Layout

  datatype Node = Node(val: Val, parent: nat, first: nat, last: nat, next: nat)

  /** The meaning of a node: its ordered children, its place among its parent's
      children, the root of its tree and its distance from it. */
  datatype Cell = Cell(val: Val, parent: nat, index: nat, kids: seq<nat>, root: nat, depth: nat)

  /** Cells of a forest: parents and children agree, and following parents leads in
      `depth` steps to a root, so there is no cycle. */
  ghost predicate Forest(g: seq<Cell>) {
    |g| < NULL_ID && forall i :: 0 <= i < |g| ==> Rooted(g, i)
  }

  ghost predicate Rooted(g: seq<Cell>, i: nat)
    requires i < |g|
  {
    && g[i].root < |g|
    && (g[i].parent == NULL_ID ==> g[i].root == i && g[i].depth == 0)
    && (g[i].parent != NULL_ID ==>
          && g[i].parent < |g| && g[i].index < |g[g[i].parent].kids|
          && g[g[i].parent].kids[g[i].index] == i
          && g[i].root == g[g[i].parent].root && g[i].depth == g[g[i].parent].depth + 1)
    && (forall k :: 0 <= k < |g[i].kids| ==>
          g[i].kids[k] < |g| && g[g[i].kids[k]].parent == i && g[g[i].kids[k]].index == k)
  }

  ghost function FirstOf(c: Cell): nat { if c.kids == [] then NULL_ID else c.kids[0] }
  ghost function LastOf(c: Cell): nat { if c.kids == [] then NULL_ID else c.kids[|c.kids| - 1] }

  ghost function NextOf(g: seq<Cell>, i: nat): nat
    requires i < |g| && Rooted(g, i)
  {
    if g[i].parent == NULL_ID then NULL_ID
    else
      var ks := g[g[i].parent].kids;
      if g[i].index + 1 < |ks| then ks[g[i].index + 1] else NULL_ID
  }

  /** The stored links of node `i` say what its cell says. */
  ghost predicate Linked(n: Node, g: seq<Cell>, i: nat)
    requires i < |g| && Rooted(g, i)
  {
    n == Node(g[i].val, g[i].parent, FirstOf(g[i]), LastOf(g[i]), NextOf(g, i))
  }

  // ----- the three changes

  ghost function Alloc(g: seq<Cell>, v: Val): (h: seq<Cell>)
    ensures |h| == |g| + 1
  {
    g + [Cell(v, NULL_ID, 0, [], |g|, 0)]
  }

  ghost function SetVal(g: seq<Cell>, i: nat, v: Val): seq<Cell>
    requires i < |g|
  {
    g[i := g[i].(val := v)]
  }

  ghost function AttachCell(g: seq<Cell>, p: nat, c: nat, i: nat): Cell
    requires p < |g| && c < |g| && i < |g|
  {
    var x := if g[i].root == c then g[i].(root := g[p].root, depth := g[i].depth + g[p].depth + 1) else g[i];
    if i == c then x.(parent := p, index := |g[p].kids|)
    else if i == p then x.(kids := x.kids + [c])
    else x
  }

  /** The tree at `c` becomes the last child of `p`. */
  ghost function Attach(g: seq<Cell>, p: nat, c: nat): (h: seq<Cell>)
    requires p < |g| && c < |g|
    ensures |h| == |g| && forall i :: 0 <= i < |g| ==> h[i].val == g[i].val
  {
    seq(|g|, i requires 0 <= i < |g| => AttachCell(g, p, c, i))
  }

  ghost predicate CanAttach(g: seq<Cell>, p: nat, c: nat) {
    p < |g| && c < |g| && g[c].parent == NULL_ID && g[p].root != c
  }

  lemma {:induction false} AllocForest(g: seq<Cell>, v: Val)
    requires Forest(g) && |g| + 1 < NULL_ID
    ensures Forest(Alloc(g, v))
  {
    var h := Alloc(g, v);
    forall i | 0 <= i < |h| ensures Rooted(h, i) {
      if i < |g| { assert Rooted(g, i); }
    }
  }

  lemma {:induction false} SetValForest(g: seq<Cell>, i: nat, v: Val)
    requires Forest(g) && i < |g|
    ensures Forest(SetVal(g, i, v))
  {
    var h := SetVal(g, i, v);
    forall j | 0 <= j < |h| ensures Rooted(h, j) {
      assert Rooted(g, j);
    }
  }

  /** Attaching a whole tree under a node of another tree keeps the forest. */
  lemma {:induction false} AttachForest(g: seq<Cell>, p: nat, c: nat)
    requires Forest(g) && CanAttach(g, p, c)
    ensures Forest(Attach(g, p, c))
  {
    var h := Attach(g, p, c);
    assert Rooted(g, p) && Rooted(g, c);
    forall i | 0 <= i < |h| ensures Rooted(h, i) {
      AttachRooted(g, p, c, i);
    }
  }

  lemma {:induction false} AttachRooted(g: seq<Cell>, p: nat, c: nat, i: nat)
    requires Forest(g) && CanAttach(g, p, c) && i < |g|
    ensures Rooted(Attach(g, p, c), i)
  {
    hide Forest, Attach;
    AttachParent(g, p, c, i);
    AttachKids(g, p, c, i);
  }

  lemma {:induction false} AttachParent(g: seq<Cell>, p: nat, c: nat, i: nat)
    requires Forest(g) && CanAttach(g, p, c) && i < |g|
    ensures var h := Attach(g, p, c);
            && h[i].root < |h|
            && (h[i].parent == NULL_ID ==> h[i].root == i && h[i].depth == 0)
            && (h[i].parent != NULL_ID ==>
                  && h[i].parent < |h| && h[i].index < |h[h[i].parent].kids|
                  && h[h[i].parent].kids[h[i].index] == i
                  && h[i].root == h[h[i].parent].root && h[i].depth == h[h[i].parent].depth + 1)
  {
    hide Forest, Attach;
    ForestRooted(g, p);
    ForestRooted(g, c);
    ForestRooted(g, i);
    AttachAt(g, p, c, i);
    if i == c {
      AttachAt(g, p, c, p);
    } else if g[i].parent != NULL_ID {
      ForestRooted(g, g[i].parent);
      AttachAt(g, p, c, g[i].parent);
    }
  }

  lemma {:induction false} AttachKids(g: seq<Cell>, p: nat, c: nat, i: nat)
    requires Forest(g) && CanAttach(g, p, c) && i < |g|
    ensures var h := Attach(g, p, c);
            forall k :: 0 <= k < |h[i].kids| ==>
              h[i].kids[k] < |h| && h[h[i].kids[k]].parent == i && h[h[i].kids[k]].index == k
  {
    hide Forest;
    var h := Attach(g, p, c);
    ForestRooted(g, i);
    forall k | 0 <= k < |h[i].kids|
      ensures h[i].kids[k] < |h| && h[h[i].kids[k]].parent == i && h[h[i].kids[k]].index == k
    {
      if k < |g[i].kids| { ForestRooted(g, g[i].kids[k]); }
    }
  }

  // ----- trees in a forest

  ghost predicate Shape(t: Tree, g: seq<Cell>) {
    && t.id < |g|
    && g[t.id].val == t.val
    && |g[t.id].kids| == |t.kids|
    && forall k :: 0 <= k < |t.kids| ==> g[t.id].kids[k] == t.kids[k].id && Shape(t.kids[k], g)
  }

  /** All ids of the tree lie in a range. */
  ghost predicate Within(t: Tree, lo: nat, hi: nat) {
    lo <= t.id < hi && forall k :: 0 <= k < |t.kids| ==> Within(t.kids[k], lo, hi)
  }

  ghost predicate AllWithin(ts: seq<Tree>, lo: nat, hi: nat) {
    forall k :: 0 <= k < |ts| ==> Within(ts[k], lo, hi)
  }

  ghost predicate Outside(t: Tree, p: nat) {
    t.id != p && forall k :: 0 <= k < |t.kids| ==> Outside(t.kids[k], p)
  }

  ghost predicate AllOutside(ts: seq<Tree>, p: nat) {
    forall k :: 0 <= k < |ts| ==> Outside(ts[k], p)
  }

  lemma {:induction false} WithinOutside(t: Tree, lo: nat, hi: nat, p: nat)
    requires Within(t, lo, hi) && (p < lo || hi <= p)
    ensures Outside(t, p)
    decreases t
  {
    forall k | 0 <= k < |t.kids| ensures Outside(t.kids[k], p) { WithinOutside(t.kids[k], lo, hi, p); }
  }

  lemma {:induction false} WithinWider(t: Tree, lo: nat, hi: nat, lo1: nat, hi1: nat)
    requires Within(t, lo, hi) && lo1 <= lo && hi <= hi1
    ensures Within(t, lo1, hi1)
    decreases t
  {
    forall k | 0 <= k < |t.kids| ensures Within(t.kids[k], lo1, hi1) { WithinWider(t.kids[k], lo, hi, lo1, hi1); }
  }

  lemma {:induction false} RangeMember(lo: nat, hi: nat, i: nat)
    ensures i in Range(lo, hi) <==> lo <= i < hi
    decreases hi - lo
  {
    if lo < hi { RangeMember(lo, hi - 1, i); }
  }

  lemma {:induction false} MemberIds(ts: seq<Tree>, k: nat, i: nat)
    requires k < |ts| && i in Ids(ts[k])
    ensures i in AllIds(ts)
    decreases ts
  {
    hide Ids;
    if k < |ts| - 1 { MemberIds(ts[..|ts| - 1], k, i); }
  }

  lemma {:induction false} IdsWithin(t: Tree, lo: nat, hi: nat)
    requires forall i :: i in Ids(t) ==> lo <= i < hi
    ensures Within(t, lo, hi)
    decreases t
  {
    hide AllIds;
    assert t.id in Ids(t);
    forall k | 0 <= k < |t.kids| ensures Within(t.kids[k], lo, hi) {
      forall i | i in Ids(t.kids[k]) ensures lo <= i < hi {
        MemberIds(t.kids, k, i);
        assert i in Ids(t);
      }
      IdsWithin(t.kids[k], lo, hi);
    }
  }

  lemma {:induction false} RangeWithin(t: Tree, lo: nat, hi: nat)
    requires Ids(t) == Range(lo, hi)
    ensures Within(t, lo, hi)
  {
    hide Ids, Range;
    forall i | i in Ids(t) ensures lo <= i < hi { RangeMember(lo, hi, i); }
    IdsWithin(t, lo, hi);
  }

  lemma {:induction false} PlaceWithin(p: Place, lo: nat)
    ensures Within(LayPlace(p, lo), lo, lo + PlaceNodes(p))
  {
    hide Ids, Range, LayPlace, PlaceNodes, Within;
    PlaceIds(p, lo);
    RangeWithin(LayPlace(p, lo), lo, lo + PlaceNodes(p));
  }

  lemma {:induction false} ExprWithin(e: Expr, lo: nat)
    ensures Within(LayExpr(e, lo), lo, lo + ExprNodes(e))
  {
    hide Ids, Range, LayExpr, ExprNodes, Within;
    ExprIds(e, lo);
    RangeWithin(LayExpr(e, lo), lo, lo + ExprNodes(e));
  }

  lemma {:induction false} StmtWithin(st: Stmt, lo: nat)
    ensures Within(LayStmt(st, lo), lo, lo + StmtNodes(st))
  {
    hide Ids, Range, LayStmt, StmtNodes, Within;
    StmtIds(st, lo);
    RangeWithin(LayStmt(st, lo), lo, lo + StmtNodes(st));
  }

  // ----- how the changes move a tree

  /** The cells below `lo` are as they were. */
  ghost predicate Extends(g: seq<Cell>, h: seq<Cell>, lo: nat) {
    lo <= |g| <= |h| && forall i :: 0 <= i < lo ==> h[i] == g[i]
  }

  /** The trees of the nodes below `lo` have their roots below `lo`. */
  ghost predicate Sealed(g: seq<Cell>, lo: nat) {
    lo <= |g| && forall i :: 0 <= i < lo ==> g[i].root < lo
  }

  lemma {:induction false} ForestSealed(g: seq<Cell>)
    requires Forest(g)
    ensures Sealed(g, |g|)
  {
    forall i | 0 <= i < |g| ensures g[i].root < |g| { assert Rooted(g, i); }
  }

  lemma {:induction false} ShapeExtends(t: Tree, g: seq<Cell>, h: seq<Cell>, lo: nat, hi: nat)
    requires Shape(t, g) && Within(t, lo, hi) && Extends(g, h, hi)
    ensures Shape(t, h)
    decreases t
  {
    forall k | 0 <= k < |t.kids| ensures Shape(t.kids[k], h) { ShapeExtends(t.kids[k], g, h, lo, hi); }
  }

  lemma {:induction false} ShapeAlloc(t: Tree, g: seq<Cell>, v: Val)
    requires Shape(t, g)
    ensures Shape(t, Alloc(g, v))
    decreases t
  {
    forall k | 0 <= k < |t.kids| ensures Shape(t.kids[k], Alloc(g, v)) { ShapeAlloc(t.kids[k], g, v); }
  }

  lemma {:induction false} ShapeSetVal(t: Tree, g: seq<Cell>, i: nat, v: Val)
    requires Shape(t, g) && i < |g| && Outside(t, i)
    ensures Shape(t, SetVal(g, i, v))
    decreases t
  {
    forall k | 0 <= k < |t.kids| ensures Shape(t.kids[k], SetVal(g, i, v)) { ShapeSetVal(t.kids[k], g, i, v); }
  }

  lemma {:induction false} ShapeAttach(t: Tree, g: seq<Cell>, p: nat, c: nat)
    requires Shape(t, g) && p < |g| && c < |g| && Outside(t, p)
    ensures Shape(t, Attach(g, p, c))
    decreases t
  {
    forall k | 0 <= k < |t.kids| ensures Shape(t.kids[k], Attach(g, p, c)) { ShapeAttach(t.kids[k], g, p, c); }
  }

  /** A tree grows by a last child. */
  lemma {:induction false} ShapeGrow(t: Tree, c: Tree, g: seq<Cell>)
    requires Shape(t, g) && Shape(c, g) && AllOutside(t.kids, t.id) && Outside(c, t.id)
    ensures Shape(Tree(t.id, t.val, t.kids + [c]), Attach(g, t.id, c.id))
  {
    var h := Attach(g, t.id, c.id);
    var u := Tree(t.id, t.val, t.kids + [c]);
    forall k | 0 <= k < |u.kids| ensures h[u.id].kids[k] == u.kids[k].id && Shape(u.kids[k], h) {
      ShapeAttach(u.kids[k], g, t.id, c.id);
    }
  }

  /** The last child of a tree grows by a last child. */
  lemma {:induction false} ShapeGrowLast(t: Tree, b: Tree, c: Tree, g: seq<Cell>)
    requires Shape(Tree(t.id, t.val, t.kids + [b]), g) && Shape(c, g)
    requires b.id < |g| && t.id != b.id && AllOutside(t.kids, b.id) && AllOutside(b.kids, b.id) && Outside(c, b.id)
    ensures Shape(Tree(t.id, t.val, t.kids + [Tree(b.id, b.val, b.kids + [c])]), Attach(g, b.id, c.id))
  {
    var h := Attach(g, b.id, c.id);
    var whole := Tree(t.id, t.val, t.kids + [b]);
    var b1 := Tree(b.id, b.val, b.kids + [c]);
    var u := Tree(t.id, t.val, t.kids + [b1]);
    assert whole.kids[|t.kids|] == b;
    ShapeGrow(b, c, g);
    forall k | 0 <= k < |u.kids| ensures h[u.id].kids[k] == u.kids[k].id && Shape(u.kids[k], h) {
      if k < |t.kids| {
        assert whole.kids[k] == t.kids[k];
        ShapeAttach(t.kids[k], g, b.id, c.id);
      }
    }
  }

  lemma {:induction false} AttachExtends(g: seq<Cell>, p: nat, c: nat, lo: nat)
    requires Sealed(g, lo) && lo <= p < |g| && lo <= c < |g|
    ensures Extends(g, Attach(g, p, c), lo)
  {
  }

  /** The node that `nulang__append_child` leaves at `i`. */
  ghost function LinkedAfter(n: Node, g: seq<Cell>, p: nat, c: nat, i: nat): Node
    requires p < |g|
  {
    var a := if LastOf(g[p]) == i then n.(next := c) else n;
    var b := if i != p then a else if g[p].kids == [] then a.(first := c, last := c) else a.(last := c);
    if i == c then b.(parent := p) else b
  }

  lemma {:induction false} AttachLinked(n: Node, g: seq<Cell>, p: nat, c: nat, i: nat)
    requires Forest(g) && CanAttach(g, p, c) && i < |g| && Rooted(g, i) && Linked(n, g, i)
    ensures Rooted(Attach(g, p, c), i)
    ensures Linked(LinkedAfter(n, g, p, c, i), Attach(g, p, c), i)
  {
    hide NextOf, Rooted, Forest, Attach;
    AttachRooted(g, p, c, i);
    AttachNext(g, p, c, i);
    AttachAt(g, p, c, i);
    LastChild(g, p);
  }

  lemma {:induction false} AttachAt(g: seq<Cell>, p: nat, c: nat, i: nat)
    requires Forest(g) && CanAttach(g, p, c) && i < |g|
    ensures p != c
    ensures var x := Attach(g, p, c)[i];
            && x.val == g[i].val
            && x.parent == (if i == c then p else g[i].parent)
            && x.index == (if i == c then |g[p].kids| else g[i].index)
            && x.kids == (if i == p then g[p].kids + [c] else g[i].kids)
            && x.root == (if g[i].root == c then g[p].root else g[i].root)
            && x.depth == g[i].depth + (if g[i].root == c then g[p].depth + 1 else 0)
  {
    hide Forest;
    ForestRooted(g, p);
  }

  lemma {:induction false} AttachNext(g: seq<Cell>, p: nat, c: nat, i: nat)
    requires Forest(g) && CanAttach(g, p, c) && i < |g| && Rooted(g, i) && Rooted(Attach(g, p, c), i)
    ensures NextOf(Attach(g, p, c), i) == (if LastOf(g[p]) == i then c else NextOf(g, i))
  {
    hide Forest, Attach;
    AttachAt(g, p, c, i);
    ForestRooted(g, p);
    if g[p].kids != [] { ForestRooted(g, LastOf(g[p])); }
    if i == c {
      AttachAt(g, p, c, p);
    } else if g[i].parent != NULL_ID {
      AttachAt(g, p, c, g[i].parent);
    }
  }

  lemma {:induction false} ForestRooted(g: seq<Cell>, i: nat)
    requires Forest(g) && i < |g|
    ensures Rooted(g, i) && |g| < NULL_ID
  {
  }

  lemma {:induction false} LastChild(g: seq<Cell>, p: nat)
    requires Forest(g) && p < |g|
    ensures g[p].kids != [] ==> LastOf(g[p]) < |g| && LastOf(g[p]) != p
  {
    assert Rooted(g, p);
    if g[p].kids != [] { assert Rooted(g, LastOf(g[p])); }
  }

  // ----- the arena object

  class Ast {
    const nodes: array<Node>
    const root: nat := 0
    var count: nat
    ghost var cells: seq<Cell>

    ghost predicate Valid()
      reads this, nodes
    {
      && nodes.Length < NULL_ID
      && 1 <= count == |cells| <= nodes.Length
      && Forest(cells)
      && (forall i :: 0 <= i < count ==> Rooted(cells, i) && Linked(nodes[i], cells, i))
      && cells[0].val == nodes[0].val == ModuleNode
    }

    function Room(): nat
      requires Valid()
      reads this, nodes
    {
      nodes.Length - count
    }

    function FirstChild(parent: nat): (r: nat)
      requires Valid() && parent < count
      reads this, nodes
      ensures r == if cells[parent].kids == [] then 0xffff_ffff else cells[parent].kids[0]
    {
      nodes[parent].first
    }

    function Sibling(node: nat): (r: nat)
      requires Valid() && node < count
      reads this, nodes
      ensures r == NextOf(cells, node)
    {
      nodes[node].next
    }

    /** From no child to the first one, from each child to the next, and then to none. */
    function IterChilds(parent: nat, child: nat): (r: nat)
      requires Valid() && parent < count
      requires child != NULL_ID ==> child < count && cells[child].parent == parent
      reads this, nodes
      ensures var k := if child == NULL_ID then 0 else cells[child].index + 1;
              r == if k < |cells[parent].kids| then cells[parent].kids[k] else NULL_ID
    {
      if child == NULL_ID then FirstChild(parent) else Sibling(child)
    }

    constructor (capacity: nat)
      requires 0 < capacity < NULL_ID
      ensures Valid() && fresh(nodes) && nodes.Length == capacity
      ensures cells == [Cell(ModuleNode, NULL_ID, 0, [], 0, 0)]
    {
      nodes := new Node[capacity](_ => Node(ModuleNode, NULL_ID, NULL_ID, NULL_ID, NULL_ID));
      count := 1;
      cells := [Cell(ModuleNode, NULL_ID, 0, [], 0, 0)];
    }

    /** Only the root stays. */
    method Clear()
      requires Valid()
      modifies this, nodes
      ensures Valid()
      ensures cells == [Cell(ModuleNode, NULL_ID, 0, [], 0, 0)]
    {
      count := 1;
      nodes[0] := Node(nodes[0].val, NULL_ID, NULL_ID, NULL_ID, NULL_ID);
      cells := [Cell(ModuleNode, NULL_ID, 0, [], 0, 0)];
    }

    /** The payload of a new node is whatever lay there. */
    method AddNode() returns (error: Error, id: nat)
      requires Valid()
      modifies this, nodes
      ensures Valid()
      ensures error == NONE <==> old(Room()) > 0
      ensures error == NONE ==> id == old(count) && exists v :: cells == Alloc(old(cells), v)
      ensures error != NONE ==> error == OUT_OF_NODE && cells == old(cells)
    {
      if count >= nodes.Length { return OUT_OF_NODE, 0; }
      id := count;
      var v := nodes[id].val;
      AllocForest(cells, v);
      count := count + 1;
      nodes[id] := Node(v, NULL_ID, NULL_ID, NULL_ID, NULL_ID);
      ghost var before := cells;
      cells := Alloc(cells, v);
      forall i | 0 <= i < count ensures Rooted(cells, i) && Linked(nodes[i], cells, i) {
        if i < id { assert Rooted(before, i) && Linked(nodes[i], before, i); }
      }
      return NONE, id;
    }

    method SetValue(id: nat, v: Val)
      requires Valid() && 0 < id < count
      modifies this, nodes
      ensures Valid() && cells == SetVal(old(cells), id, v)
    {
      SetValForest(cells, id, v);
      nodes[id] := nodes[id].(val := v);
      ghost var before := cells;
      cells := SetVal(cells, id, v);
      forall i | 0 <= i < count ensures Rooted(cells, i) && Linked(nodes[i], cells, i) {
        assert Rooted(before, i);
        if i != id { assert Linked(old(nodes[i]), before, i); }
      }
    }

    method AppendChild(parent: nat, child: nat)
      requires Valid() && 0 < child && CanAttach(cells, parent, child)
      modifies this, nodes
      ensures Valid() && cells == Attach(old(cells), parent, child)
    {
      hide Attach, Rooted, NextOf;
      AttachForest(cells, parent, child);
      LastChild(cells, parent);
      var last := nodes[parent].last;
      if last != NULL_ID {
        nodes[last] := nodes[last].(next := child);
        nodes[parent] := nodes[parent].(last := child);
      } else {
        nodes[parent] := nodes[parent].(first := child);
        nodes[parent] := nodes[parent].(last := child);
      }
      nodes[child] := nodes[child].(parent := parent);
      ghost var before := cells;
      cells := Attach(cells, parent, child);
      forall i | 0 <= i < count ensures Rooted(cells, i) && Linked(nodes[i], cells, i) {
        AttachLinked(old(nodes[i]), before, parent, child, i);
      }
    }
  }

  /** `nulang__ast_init`; whether the nodes can be allocated is a parameter. */
  method Init(capacity: nat, available: bool) returns (error: Error, ast: Ast?)
    requires 0 < capacity < NULL_ID
    ensures error == if available then NONE else OUT_OF_MEMORY
    ensures ast == null <==> error != NONE
    ensures ast != null ==>
              && fresh(ast) && fresh(ast.nodes) && ast.Valid() && ast.nodes.Length == capacity
              && ast.cells == [Cell(ModuleNode, NULL_ID, 0, [], 0, 0)]
  {
    if !available { return OUT_OF_MEMORY, null; }
    ast := new Ast(capacity);
    error := NONE;
  }
}

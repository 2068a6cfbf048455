/** What the parser's allocations and links do to the trees it is building. */
module Growing {
  import opened Syntax
  import opened Layout
  import opened Arena

  /** `t` is a whole tree of the forest, not the module. */
  ghost predicate Tops(t: Tree, g: seq<Cell>) {
    Shape(t, g) && g[t.id].parent == NULL_ID && t.id > 0
  }

  lemma {:induction false} TopsExtends(t: Tree, g: seq<Cell>, h: seq<Cell>, lo: nat, hi: nat)
    requires Tops(t, g) && Within(t, lo, hi) && Extends(g, h, hi)
    ensures Tops(t, h)
  {
    ShapeExtends(t, g, h, lo, hi);
  }

  lemma {:induction false} TopsAlloc(t: Tree, g: seq<Cell>, v: Val)
    requires Tops(t, g)
    ensures Tops(t, Alloc(g, v))
  {
    ShapeAlloc(t, g, v);
  }

  lemma {:induction false} NewTops(g: seq<Cell>, v: Val)
    requires 0 < |g| < NULL_ID
    ensures Tops(Tree(|g|, v, []), Alloc(g, v))
    ensures forall lo: nat :: lo <= |g| ==> Extends(g, Alloc(g, v), lo)
  {
  }

  lemma {:induction false} SealedExtends(g: seq<Cell>, h: seq<Cell>, lo: nat)
    requires Sealed(g, lo) && Extends(g, h, lo)
    ensures Sealed(h, lo)
  {
  }

  lemma {:induction false} SealedSelf(g: seq<Cell>, lo: nat)
    requires Sealed(g, lo)
    ensures Extends(g, g, lo)
  {
  }

  lemma {:induction false} ExtendsTrans(g: seq<Cell>, h: seq<Cell>, k: seq<Cell>, lo: nat)
    requires Extends(g, h, lo) && Extends(h, k, lo)
    ensures Extends(g, k, lo)
  {
  }

  lemma {:induction false} ExtendsLower(g: seq<Cell>, h: seq<Cell>, hi: nat, lo: nat)
    requires Extends(g, h, hi) && lo <= hi
    ensures Extends(g, h, lo)
  {
  }

  /** A whole tree takes another as its last child. */
  lemma {:induction false} Adopt(t: Tree, c: Tree, g: seq<Cell>, lo: nat)
    requires Forest(g) && Tops(t, g) && Tops(c, g) && t.id != c.id
    requires AllOutside(t.kids, t.id) && Outside(c, t.id)
    requires Sealed(g, lo) && lo <= t.id && lo <= c.id
    ensures CanAttach(g, t.id, c.id)
    ensures Tops(Tree(t.id, t.val, t.kids + [c]), Attach(g, t.id, c.id))
    ensures Extends(g, Attach(g, t.id, c.id), lo)
    ensures Attach(g, t.id, c.id)[c.id].root == t.id
  {
    hide Shape;
    TopsInside(t, g);
    TopsInside(c, g);
    ForestRooted(g, t.id);
    ForestRooted(g, c.id);
    ShapeGrow(t, c, g);
    AttachExtends(g, t.id, c.id, lo);
  }

  lemma {:induction false} TopsInside(t: Tree, g: seq<Cell>)
    requires Tops(t, g)
    ensures 0 < t.id < |g|
  {
  }

  lemma {:induction false} TopsAttach(t: Tree, g: seq<Cell>, p: nat, c: nat)
    requires Tops(t, g) && p < |g| && c < |g| && Outside(t, p) && t.id != c
    ensures Tops(t, Attach(g, p, c))
  {
    ShapeAttach(t, g, p, c);
  }

  /** A new node with one child. */
  lemma {:induction false} NodeOver(v: Val, c: Tree, g: seq<Cell>, lo: nat)
    requires Forest(g) && |g| + 1 < NULL_ID && Tops(c, g) && Within(c, lo, |g|) && Sealed(g, lo)
    ensures CanAttach(Alloc(g, v), |g|, c.id) && c.id > 0
    ensures var h := Attach(Alloc(g, v), |g|, c.id);
            Tops(Tree(|g|, v, [c]), h) && Extends(g, h, lo)
  {
    hide Shape, Attach;
    var g1 := Alloc(g, v);
    AllocForest(g, v);
    TopsInside(c, g);
    NewTops(g, v);
    TopsAlloc(c, g, v);
    WithinOutside(c, lo, |g|, |g|);
    assert Extends(g, g1, lo);
    SealedExtends(g, g1, lo);
    Adopt(Tree(|g|, v, []), c, g1, lo);
    assert [] + [c] == [c];
    ExtendsTrans(g, g1, Attach(g1, |g|, c.id), lo);
  }

  /** A new node with two children. */
  lemma {:induction false} NodeOverTwo(v: Val, c: Tree, d: Tree, g: seq<Cell>, lo: nat, m: nat)
    requires Forest(g) && |g| + 1 < NULL_ID && lo <= m && Sealed(g, lo)
    requires Tops(c, g) && Within(c, lo, m) && Tops(d, g) && Within(d, m, |g|)
    ensures c.id > 0 && d.id > 0 && CanAttach(Alloc(g, v), |g|, c.id)
    ensures var g1 := Attach(Alloc(g, v), |g|, c.id);
            CanAttach(g1, |g|, d.id) && Tops(Tree(|g|, v, [c, d]), Attach(g1, |g|, d.id))
            && Extends(g, Attach(g1, |g|, d.id), lo)
  {
    hide Shape, Attach, Alloc;
    AllocForest(g, v);
    WithinWider(c, lo, m, lo, |g|);
    NodeOver(v, c, g, lo);
    var a := Alloc(g, v);
    var g1 := Attach(a, |g|, c.id);
    AttachForest(a, |g|, c.id);
    TopsAlloc(d, g, v);
    WithinOutside(d, m, |g|, |g|);
    WithinOutside(c, lo, m, |g|);
    TopsAttach(d, a, |g|, c.id);
    SealedExtends(g, g1, lo);
    Adopt(Tree(|g|, v, [c]), d, g1, lo);
    assert [c] + [d] == [c, d];
    ExtendsTrans(g, g1, Attach(g1, |g|, d.id), lo);
  }

  lemma {:induction false} ListWithin(ts: seq<Tree>, lo: nat, hi: nat)
    requires AllIds(ts) == Range(lo, hi)
    ensures AllWithin(ts, lo, hi)
  {
    hide Ids, AllIds, Range, Within;
    forall k | 0 <= k < |ts| ensures Within(ts[k], lo, hi) {
      forall i | i in Ids(ts[k]) ensures lo <= i < hi {
        MemberIds(ts, k, i);
        RangeMember(lo, hi, i);
      }
      IdsWithin(ts[k], lo, hi);
    }
  }

  lemma {:induction false} AllWithinOutside(ts: seq<Tree>, lo: nat, hi: nat, p: nat)
    requires AllWithin(ts, lo, hi) && (p < lo || hi <= p)
    ensures AllOutside(ts, p)
  {
    forall k | 0 <= k < |ts| ensures Outside(ts[k], p) { WithinOutside(ts[k], lo, hi, p); }
  }

  lemma {:induction false} AllWithinWider(ts: seq<Tree>, lo: nat, hi: nat, lo1: nat, hi1: nat)
    requires AllWithin(ts, lo, hi) && lo1 <= lo && hi <= hi1
    ensures AllWithin(ts, lo1, hi1)
  {
    forall k | 0 <= k < |ts| ensures Within(ts[k], lo1, hi1) { WithinWider(ts[k], lo, hi, lo1, hi1); }
  }

  lemma {:induction false} BlockWithin(b: seq<Stmt>, lo: nat)
    ensures AllWithin(LayBlock(b, lo), lo, lo + BlockNodes(b))
  {
    hide AllIds, Range, LayBlock, BlockNodes;
    BlockIds(b, lo);
    ListWithin(LayBlock(b, lo), lo, lo + BlockNodes(b));
  }

  lemma {:induction false} ArgsWithin(args: seq<Expr>, lo: nat)
    ensures AllWithin(LayArgs(args, lo), lo, lo + ArgNodes(args))
  {
    hide AllIds, Range, LayArgs, ArgNodes;
    ArgIds(args, lo);
    ListWithin(LayArgs(args, lo), lo, lo + ArgNodes(args));
  }

  /** The tree of a construct whose body is its last child. */
  function WithBody(t: Tree, b: nat, stmts: seq<Tree>): Tree {
    Tree(t.id, t.val, t.kids + [Tree(b, CompoundNode, stmts)])
  }

  /** A statement goes under the body of a construct that is still being read. */
  lemma {:induction false} GrowBody(t: Tree, b: nat, stmts: seq<Tree>, c: Tree, g: seq<Cell>, lo: nat)
    requires Forest(g) && Tops(WithBody(t, b, stmts), g) && Tops(c, g)
    requires b < |g| && g[b].root == t.id && t.id != b && t.id != c.id
    requires AllOutside(t.kids, b) && AllOutside(stmts, b) && Outside(c, b)
    requires Sealed(g, lo) && lo <= b && lo <= c.id
    ensures CanAttach(g, b, c.id)
    ensures var h := Attach(g, b, c.id);
            Tops(WithBody(t, b, stmts + [c]), h) && h[b].root == t.id && Extends(g, h, lo)
  {
    hide Shape;
    TopsInside(c, g);
    TopsInside(WithBody(t, b, stmts), g);
    ShapeGrowLast(t, Tree(b, CompoundNode, stmts), c, g);
    AttachExtends(g, b, c.id, lo);
  }

  /** An empty body goes under a construct. */
  lemma {:induction false} StartBody(t: Tree, g: seq<Cell>, lo: nat)
    requires Forest(g) && |g| + 1 < NULL_ID && Tops(t, g) && AllOutside(t.kids, t.id) && Sealed(g, lo) && lo <= t.id
    ensures CanAttach(Alloc(g, CompoundNode), t.id, |g|)
    ensures var h := Attach(Alloc(g, CompoundNode), t.id, |g|);
            Tops(WithBody(t, |g|, []), h) && h[|g|].root == t.id && Extends(g, h, lo)
  {
    hide Shape, Attach;
    var g1 := Alloc(g, CompoundNode);
    AllocForest(g, CompoundNode);
    TopsInside(t, g);
    NewTops(g, CompoundNode);
    TopsAlloc(t, g, CompoundNode);
    SealedExtends(g, g1, lo);
    Adopt(t, Tree(|g|, CompoundNode, []), g1, lo);
    ExtendsTrans(g, g1, Attach(g1, t.id, |g|), lo);
  }

  /** The payload of a construct changes after its children are there. */
  lemma {:induction false} TopsSetVal(t: Tree, v: Val, g: seq<Cell>, lo: nat)
    requires Tops(t, g) && AllOutside(t.kids, t.id) && lo <= t.id
    ensures t.id < |g|
    ensures Tops(Tree(t.id, v, t.kids), SetVal(g, t.id, v)) && Extends(g, SetVal(g, t.id, v), lo)
  {
    forall k | 0 <= k < |t.kids| ensures Shape(t.kids[k], SetVal(g, t.id, v)) { ShapeSetVal(t.kids[k], g, t.id, v); }
  }
}

/** What the arena keeps of a tree: it forgets the parentheses, and which `insert(x` and
    `singleton(x` lacked theirs. */
module Stripping {
  import opened Syntax
  import opened Layout

  function Strip(e: Expr): Expr {
    match e
    case Call(p, args) => Call(p, StripArgs(args))
    case Insert(n, _) => Insert(n, true)
    case Singleton(n, _) => Singleton(n, true)
    case Un(op, x) => Un(op, Strip(x))
    case Bin(op, l, r) => Bin(op, Strip(l), Strip(r))
    case Paren(x) => Strip(x)
    case _ => e
  }

  function StripArgs(args: seq<Expr>): seq<Expr> {
    if args == [] then [] else [Strip(args[0])] + StripArgs(args[1..])
  }

  function StripStmt(st: Stmt): Stmt {
    match st
    case Let(n, ty, e) => Let(n, ty, Strip(e))
    case Assign(p, e) => Assign(p, Strip(e))
    case Do(p, args) => Do(p, StripArgs(args))
    case Return(e) => Return(Strip(e))
    case If(bs, els) => If(StripBranches(bs), StripElse(els))
    case While(c, b) => While(Strip(c), StripBlock(b))
    case Fun(n, ps, ret, b) => Fun(n, ps, ret, StripBlock(b))
  }

  function StripBranches(bs: seq<Branch>): seq<Branch> {
    if bs == [] then []
    else [Branch(Strip(bs[0].cond), StripBlock(bs[0].body))] + StripBranches(bs[1..])
  }

  function StripElse(els: Otherwise): Otherwise {
    match els
    case NoElse => NoElse
    case Else(b) => Else(StripBlock(b))
  }

  function StripBlock(b: seq<Stmt>): seq<Stmt> {
    if b == [] then [] else [StripStmt(b[0])] + StripBlock(b[1..])
  }

  // ----- it leaves the same nodes in the arena

  lemma {:induction false} StripArgsAt(args: seq<Expr>)
    ensures |StripArgs(args)| == |args|
    ensures forall k :: 0 <= k < |args| ==> StripArgs(args)[k] == Strip(args[k])
    decreases args
  {
    hide Strip;
    if args != [] {
      StripArgsAt(args[1..]);
      forall k | 0 <= k < |args| ensures StripArgs(args)[k] == Strip(args[k]) {
        if k > 0 { assert args[1..][k - 1] == args[k]; }
      }
    }
  }

  lemma {:induction false} StripArgsMost(args: seq<Expr>)
    requires args != []
    ensures StripArgs(args) == StripArgs(args[..|args| - 1]) + [Strip(args[|args| - 1])]
  {
    hide Strip, StripArgs;
    StripArgsAt(args);
    StripArgsAt(args[..|args| - 1]);
  }

  lemma {:induction false} StripBlockAt(b: seq<Stmt>)
    ensures |StripBlock(b)| == |b|
    ensures forall k :: 0 <= k < |b| ==> StripBlock(b)[k] == StripStmt(b[k])
    decreases b
  {
    hide StripStmt;
    if b != [] {
      StripBlockAt(b[1..]);
      forall k | 0 <= k < |b| ensures StripBlock(b)[k] == StripStmt(b[k]) {
        if k > 0 { assert b[1..][k - 1] == b[k]; }
      }
    }
  }

  lemma {:induction false} StripBlockMost(b: seq<Stmt>)
    requires b != []
    ensures StripBlock(b) == StripBlock(b[..|b| - 1]) + [StripStmt(b[|b| - 1])]
  {
    hide StripStmt, StripBlock;
    StripBlockAt(b);
    StripBlockAt(b[..|b| - 1]);
  }

  function StripBranch(x: Branch): Branch { Branch(Strip(x.cond), StripBlock(x.body)) }

  lemma {:induction false} StripBranchesAt(bs: seq<Branch>)
    ensures |StripBranches(bs)| == |bs|
    ensures forall k :: 0 <= k < |bs| ==> StripBranches(bs)[k] == StripBranch(bs[k])
    decreases bs
  {
    hide Strip, StripBlock;
    if bs != [] {
      StripBranchesAt(bs[1..]);
      forall k | 0 <= k < |bs| ensures StripBranches(bs)[k] == StripBranch(bs[k]) {
        if k > 0 { assert bs[1..][k - 1] == bs[k]; }
      }
    }
  }

  lemma {:induction false} StripBranchesMost(bs: seq<Branch>)
    requires bs != []
    ensures StripBranches(bs) == StripBranches(bs[..|bs| - 1]) + [StripBranch(bs[|bs| - 1])]
  {
    hide StripBranch, StripBranches;
    StripBranchesAt(bs);
    StripBranchesAt(bs[..|bs| - 1]);
  }

  lemma {:induction false} LayStrip(e: Expr, lo: nat)
    ensures LayExpr(Strip(e), lo) == LayExpr(e, lo) && ExprNodes(Strip(e)) == ExprNodes(e)
    decreases e
  {
    hide LayPlace, PlaceNodes, LayCall, LayArgs, ArgNodes, StripArgs;
    match e
    case Call(p, args) => LayStripCall(p, args, lo);
    case Un(_, x) => LayStrip(x, lo);
    case Bin(_, l, r) =>
      LayStrip(l, lo);
      LayStrip(r, lo + ExprNodes(l));
    case Paren(x) => LayStrip(x, lo);
    case _ =>
  }

  lemma {:induction false} LayStripCall(p: Place, args: seq<Expr>, lo: nat)
    ensures LayCall(p, StripArgs(args), lo) == LayCall(p, args, lo) && ArgNodes(StripArgs(args)) == ArgNodes(args)
    decreases args, 1
  {
    hide LayPlace, PlaceNodes, LayArgs, ArgNodes, StripArgs;
    LayStripArgs(args, lo + PlaceNodes(p) + 1);
  }

  lemma {:induction false} LayStripArgs(args: seq<Expr>, lo: nat)
    ensures LayArgs(StripArgs(args), lo) == LayArgs(args, lo) && ArgNodes(StripArgs(args)) == ArgNodes(args)
    decreases args, 0
  {
    hide LayExpr, ExprNodes, Strip, ArgNodes;
    if args != [] {
      var most, e := args[..|args| - 1], args[|args| - 1];
      assert args == most + [e];
      StripArgsMost(args);
      LayStripArgs(most, lo);
      LayStrip(e, lo + ArgNodes(most));
      ArgNodesSnoc(most, e);
      ArgNodesSnoc(StripArgs(most), Strip(e));
      assert StripArgs(args)[..|most|] == StripArgs(most) by { StripArgsAt(most); }
    }
  }

  lemma {:induction false} LayStripStmt(st: Stmt, lo: nat)
    ensures LayStmt(StripStmt(st), lo) == LayStmt(st, lo) && StmtNodes(StripStmt(st)) == StmtNodes(st)
    decreases st
  {
    hide LayExpr, LayPlace, LayCall, LayBlock, LayBranches, LayParams, ExprNodes, PlaceNodes, ArgNodes, BlockNodes,
      BranchNodes, Strip, StripArgs, StripBlock, StripBranches, LayElse, ElseNodes, StripElse;
    match st
    case Let(_, _, e) => LayStrip(e, lo);
    case Assign(p, e) => LayStrip(e, lo + PlaceNodes(p));
    case Do(p, args) => LayStripCall(p, args, lo);
    case Return(e) => LayStrip(e, lo);
    case If(bs, els) =>
      LayStripBranches(bs, lo + 1);
      LayStripElse(els, lo + 1 + BranchNodes(bs));
    case While(c, b) =>
      LayStrip(c, lo);
      LayStripBlock(b, lo + ExprNodes(c) + 2);
    case Fun(_, ps, _, b) => LayStripBlock(b, lo + 1 + |ps| + 1);
  }

  lemma {:induction false} LayStripElse(els: Otherwise, lo: nat)
    ensures LayElse(StripElse(els), lo) == LayElse(els, lo) && ElseNodes(StripElse(els)) == ElseNodes(els)
    decreases els
  {
    hide LayBlock, BlockNodes, StripBlock;
    match els
    case NoElse =>
    case Else(b) => LayStripBlock(b, lo + 1);
  }

  lemma {:induction false} LayStripBranches(bs: seq<Branch>, lo: nat)
    ensures LayBranches(StripBranches(bs), lo) == LayBranches(bs, lo)
            && BranchNodes(StripBranches(bs)) == BranchNodes(bs)
    decreases bs
  {
    hide LayExpr, LayBlock, ExprNodes, Strip, StripBlock, StripBranches, BranchNodes, BlockNodes;
    if bs == [] {
      assert StripBranches(bs) == [] by { StripBranchesAt(bs); }
    } else {
      var most, x := bs[..|bs| - 1], bs[|bs| - 1];
      assert bs == most + [x];
      StripBranchesMost(bs);
      StripBranchesAt(most);
      LayStripBranches(most, lo);
      var m := lo + BranchNodes(most);
      LayStrip(x.cond, m);
      LayStripBlock(x.body, m + ExprNodes(x.cond) + 1);
      BranchNodesSnoc(most, x);
      BranchNodesSnoc(StripBranches(most), StripBranch(x));
      assert StripBranches(bs)[..|most|] == StripBranches(most);
    }
  }

  lemma {:induction false} LayStripBlock(b: seq<Stmt>, lo: nat)
    ensures LayBlock(StripBlock(b), lo) == LayBlock(b, lo) && BlockNodes(StripBlock(b)) == BlockNodes(b)
    decreases b
  {
    hide LayStmt, StmtNodes, StripStmt, BlockNodes, StripBlock;
    if b == [] {
      assert StripBlock(b) == [] by { StripBlockAt(b); }
    } else {
      var most, st := b[..|b| - 1], b[|b| - 1];
      assert b == most + [st];
      StripBlockMost(b);
      StripBlockAt(most);
      LayStripBlock(most, lo);
      LayStripStmt(st, lo + BlockNodes(most));
      BlockNodesSnoc(most, st);
      BlockNodesSnoc(StripBlock(most), StripStmt(st));
      assert StripBlock(b)[..|most|] == StripBlock(most);
    }
  }

  /** The arena layout of a parsed program is that of the program without its
      parentheses. */
  lemma {:induction false} LayoutStrips(b: seq<Stmt>)
    ensures LayModule(StripBlock(b)) == LayModule(b)
  {
    hide LayBlock, StripBlock, BlockNodes;
    LayStripBlock(b, 1);
  }
}

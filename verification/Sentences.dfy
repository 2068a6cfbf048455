/** Reading the arena back: the tokens that a tree of nodes stands for, node type by node
    type. They are the tokens of the program, without its grouping parentheses. */
module Sentences {
  import opened Options
  import opened Tokens
  import opened Operators
  import opened Syntax
  import opened Layout
  import opened Stripping

  // ----- from nodes to tokens

  function Word(n: string): Item { Tok(IDENTIFIER(n)) }

  function TypeWords(ty: VarType): seq<Item> {
    match ty
    case Prim(p) => [Tok(COLON), Tok(PRIMITIVE(p))]
    case Arch(n) => [Tok(COLON), Word(n)]
  }

  function OptTypeWords(ty: Option<VarType>): seq<Item> {
    match ty
    case None => []
    case Some(t) => TypeWords(t)
  }

  function Signed(op: Unop): Item {
    match op
    case Not => Tok(NOT)
    case Neg => Tok(SUB)
  }

  function Part(parts: seq<seq<Item>>, k: nat): seq<Item> {
    if k < |parts| then parts[k] else []
  }

  function Concat(parts: seq<seq<Item>>): seq<Item> {
    if parts == [] then [] else parts[0] + Concat(parts[1..])
  }

  function Commas(parts: seq<seq<Item>>): seq<Item> {
    if parts == [] then []
    else if |parts| == 1 then parts[0]
    else parts[0] + ([Tok(COMMA)] + Commas(parts[1..]))
  }

  /** Conditions and bodies by turns, and a last body. */
  function Branches(parts: seq<seq<Item>>): seq<Item> {
    if parts == [] then []
    else if |parts| == 1 then [Tok(ELSE)] + parts[0]
    else parts[0] + ([Tok(THEN)] + (parts[1] + (if |parts| > 3 then [Tok(ELIF)] else []) + Branches(parts[2..])))
  }

  /** What a node with this payload says, given what its children say. */
  function Say(v: Val, parts: seq<seq<Item>>): seq<Item> {
    match v
    case ModuleNode => Concat(parts)
    case CompoundNode => Concat(parts)
    case LiteralNode(l) => [Tok(LITERAL(l))]
    case SymRefNode(n, _) => [Word(n)]
    case MemberNode(n) => Part(parts, 0) + [Tok(DOT), Word(n)]
    case BuiltinNode(Constructor(p)) => [Tok(PRIMITIVE(p))]
    case BuiltinNode(Function(Norm)) => [Tok(PRIMITIVE(VEC2)), Tok(DOT), Word("norm")]
    case BuiltinNode(Function(Dist)) => [Tok(PRIMITIVE(VEC2)), Tok(DOT), Word("dist")]
    case InsertNode(n) => [Tok(INSERT), Tok(LPAREN), Word(n), Tok(RPAREN)]
    case SingletonNode(n) => [Tok(SINGLETON), Tok(LPAREN), Word(n), Tok(RPAREN)]
    case CallNode => Part(parts, 0) + ([Tok(LPAREN)] + (Commas(if parts == [] then [] else parts[1..]) + [Tok(RPAREN)]))
    case UnopNode(op) => [Signed(op)] + Part(parts, 0)
    case BinopNode(op) => Part(parts, 0) + ([Tok(TokenOfBinop(op))] + Part(parts, 1))
    case VarDeclNode(n, ty) => [Tok(LET), Word(n)] + (OptTypeWords(ty) + ([Tok(ASSIGN)] + Part(parts, 0)))
    case AssignNode => Part(parts, 0) + ([Tok(ASSIGN)] + Part(parts, 1))
    case ReturnNode => [Tok(RETURN)] + Part(parts, 0)
    case IfNode => [Tok(IF)] + (Branches(parts) + [Tok(END)])
    case WhileNode => [Tok(WHILE)] + (Part(parts, 0) + ([Tok(DO)] + (Part(parts, 1) + [Tok(END)])))
    case ArgDeclNode(n, ty) => [Word(n)] + TypeWords(ty)
    case FunDeclNode(n, ret, exported) =>
      (if exported then [Tok(EXPORT)] else []) + [Tok(FUNCTION), Word(n), Tok(LPAREN)]
      + ((Commas(if parts == [] then [] else parts[..|parts| - 1]) + [Tok(RPAREN)])
         + (OptTypeWords(ret) + ((if parts == [] then [] else parts[|parts| - 1]) + [Tok(END)])))
  }

  function Sentence(t: Tree): seq<Item>
    decreases t
  {
    Say(t.val, seq(|t.kids|, k requires 0 <= k < |t.kids| => Sentence(t.kids[k])))
  }

  /** What the trees of a list say, one by one. */
  function Parts(ts: seq<Tree>): (parts: seq<seq<Item>>)
    ensures |parts| == |ts|
  {
    seq(|ts|, k requires 0 <= k < |ts| => Sentence(ts[k]))
  }

  lemma {:induction false} SentenceIs(t: Tree)
    ensures Sentence(t) == Say(t.val, Parts(t.kids))
  {
    hide Say;
    assert Parts(t.kids) == seq(|t.kids|, k requires 0 <= k < |t.kids| => Sentence(t.kids[k]));
  }

  lemma {:induction false} PartsSnoc(ts: seq<Tree>, t: Tree)
    ensures Parts(ts + [t]) == Parts(ts) + [Sentence(t)]
  {
    hide Sentence;
  }

  lemma {:induction false} PartsOf(ts: seq<Tree>)
    ensures ts == [] ==> Parts(ts) == []
    ensures |ts| == 1 ==> Parts(ts) == [Sentence(ts[0])]
    ensures |ts| == 2 ==> Parts(ts) == [Sentence(ts[0]), Sentence(ts[1])]
  {
    hide Sentence;
  }

  // ----- expressions

  lemma {:induction false} PlaceSays(p: Place, lo: nat)
    ensures Sentence(LayPlace(p, lo)) == PlaceTokens(p)
  {
    hide Sentence;
    SentenceIs(LayPlace(p, lo));
    PartsOf(LayPlace(p, lo).kids);
    match p
    case Member(q, _) => PlaceSays(q, lo);
    case Builtin(f) => BuiltinSays(f);
    case _ =>
  }

  lemma {:induction false} BuiltinSays(f: BuiltinFunction)
    ensures Say(BuiltinNode(Function(f)), []) == PlaceTokens(Builtin(f))
  {
  }

  lemma {:induction false} ExprSays(e: Expr, lo: nat)
    ensures Sentence(LayExpr(e, lo)) == ExprTokens(Strip(e))
    decreases e, 1
  {
    hide Sentence, LayPlace, LayCall, PlaceTokens, ArgTokens, TokenOfBinop;
    SentenceIs(LayExpr(e, lo));
    PartsOf(LayExpr(e, lo).kids);
    match e
    case Ref(p) => PlaceSays(p, lo);
    case Call(p, args) => CallSays(p, args, lo);
    case Un(op, x) => ExprSays(x, lo);
    case Bin(op, l, r) =>
      ExprSays(l, lo);
      ExprSays(r, lo + ExprNodes(l));
    case Paren(x) => ExprSays(x, lo);
    case _ =>
  }

  lemma {:induction false} CallSays(p: Place, args: seq<Expr>, lo: nat)
    ensures Sentence(LayCall(p, args, lo)) == PlaceTokens(p) + [Tok(LPAREN)] + ArgTokens(StripArgs(args))
    decreases args, 2
  {
    hide Sentence, LayPlace, LayArgs, PlaceTokens, ArgTokens, Commas, StripArgs, ArgParts;
    var t, more := LayCall(p, args, lo), lo + PlaceNodes(p) + 1;
    SentenceIs(t);
    PlaceSays(p, lo);
    ArgsSay(args, more);
    CommasAre(args);
    PartsCons(LayPlace(p, lo), LayArgs(args, more));
    assert (PlaceTokens(p) + [Tok(LPAREN)]) + ArgTokens(StripArgs(args))
        == PlaceTokens(p) + ([Tok(LPAREN)] + ArgTokens(StripArgs(args)));
  }

  lemma {:induction false} PartsCons(t: Tree, ts: seq<Tree>)
    ensures Parts([t] + ts)[0] == Sentence(t) && Parts([t] + ts)[1..] == Parts(ts)
  {
    hide Sentence;
  }

  function ArgParts(args: seq<Expr>): (parts: seq<seq<Item>>)
    ensures |parts| == |args|
  {
    seq(|args|, k requires 0 <= k < |args| => ExprTokens(Strip(args[k])))
  }

  lemma {:induction false} ArgsSay(args: seq<Expr>, lo: nat)
    ensures Parts(LayArgs(args, lo)) == ArgParts(args)
    decreases args, 0
  {
    hide Sentence, LayExpr, ExprTokens, Strip, ArgNodes;
    if args == [] {
      PartsOf([]);
    } else {
      var most, e := args[..|args| - 1], args[|args| - 1];
      ArgsSay(most, lo);
      ExprSays(e, lo + ArgNodes(most));
      PartsSnoc(LayArgs(most, lo), LayExpr(e, lo + ArgNodes(most)));
      assert ArgParts(args) == ArgParts(most) + [ExprTokens(Strip(e))];
    }
  }

  lemma {:induction false} CommasAre(args: seq<Expr>)
    ensures Commas(ArgParts(args)) + [Tok(RPAREN)] == ArgTokens(StripArgs(args))
    decreases args
  {
    hide ExprTokens, Strip, MoreArgTokens;
    if args != [] {
      var more := args[1..];
      assert ArgParts(args)[0] == ExprTokens(Strip(args[0])) && ArgParts(args)[1..] == ArgParts(more);
      assert StripArgs(args)[0] == Strip(args[0]) && StripArgs(args)[1..] == StripArgs(more);
      MoreCommas(more);
      if more != [] {
        assert (ExprTokens(Strip(args[0])) + ([Tok(COMMA)] + Commas(ArgParts(more)))) + [Tok(RPAREN)]
            == ExprTokens(Strip(args[0])) + ([Tok(COMMA)] + (Commas(ArgParts(more)) + [Tok(RPAREN)]));
      }
    }
  }

  lemma {:induction false} MoreCommas(args: seq<Expr>)
    ensures MoreArgTokens(StripArgs(args))
         == if args == [] then [Tok(RPAREN)] else [Tok(COMMA)] + (Commas(ArgParts(args)) + [Tok(RPAREN)])
    decreases args
  {
    hide ExprTokens, Strip;
    if args != [] {
      var x, more := ExprTokens(Strip(args[0])), args[1..];
      assert ArgParts(args)[0] == x && ArgParts(args)[1..] == ArgParts(more);
      assert StripArgs(args)[0] == Strip(args[0]) && StripArgs(args)[1..] == StripArgs(more);
      MoreCommas(more);
      if more != [] {
        assert (x + ([Tok(COMMA)] + Commas(ArgParts(more)))) + [Tok(RPAREN)]
            == x + ([Tok(COMMA)] + (Commas(ArgParts(more)) + [Tok(RPAREN)]));
      }
    }
  }

  // ----- statements

  lemma {:induction false} TypeSays(ty: VarType)
    ensures TypeWords(ty) == TypeTokens(ty)
  {
  }

  lemma {:induction false} OptTypeSays(ty: Option<VarType>)
    ensures OptTypeWords(ty) == OptTypeTokens(ty)
  {
    match ty
    case None =>
    case Some(t) => TypeSays(t);
  }

  lemma {:induction false} StmtSays(st: Stmt, lo: nat)
    requires CanonStmt(st)
    ensures Sentence(LayStmt(st, lo)) == StmtTokens(StripStmt(st))
    decreases st, 1
  {
    hide Sentence, LayPlace, LayExpr, LayCall, LayBody, LayBranches, LayParams, PlaceTokens, ExprTokens, ArgTokens,
      BlockTokens, OptTypeTokens, OptTypeWords, Strip, StripArgs, StripBlock, Canon, CanonArgs, CanonBlock,
      CanonBranches, CanonElse;
    SentenceIs(LayStmt(st, lo));
    PartsOf(LayStmt(st, lo).kids);
    match st
    case Let(_, ty, e) =>
      ExprSays(e, lo);
      OptTypeSays(ty);
    case Assign(p, e) =>
      PlaceSays(p, lo);
      ExprSays(e, lo + PlaceNodes(p));
    case Do(p, args) => CallSays(p, args, lo);
    case Return(e) => ExprSays(e, lo);
    case If(bs, els) => IfSays(bs, els, lo);
    case While(c, b) =>
      ExprSays(c, lo);
      BodySays(b, lo + ExprNodes(c) + 1);
    case Fun(n, ps, ret, b) => FunSays(n, ps, ret, b, lo);
  }

  lemma {:induction false} FunSays(n: string, ps: seq<Param>, ret: Option<VarType>, b: seq<Stmt>, lo: nat)
    requires CanonBlock(b)
    ensures Sentence(LayStmt(Fun(n, ps, ret, b), lo)) == StmtTokens(StripStmt(Fun(n, ps, ret, b)))
    decreases Fun(n, ps, ret, b), 0
  {
    hide Sentence, LayBody, LayParams, BlockTokens, ParamTokens, OptTypeTokens, OptTypeWords, StripBlock, CanonBlock,
      Commas, ParamParts;
    var args, body := LayParams(ps, lo + 1), LayBody(b, lo + 1 + |ps|);
    SentenceIs(LayStmt(Fun(n, ps, ret, b), lo));
    PartsSnoc(args, body);
    ParamsSay(ps, lo + 1);
    ParamCommas(ps);
    OptTypeSays(ret);
    BodySays(b, lo + 1 + |ps|);
    var parts := Parts(args + [body]);
    assert parts[..|parts| - 1] == Parts(args);
  }

  function ParamParts(ps: seq<Param>): (parts: seq<seq<Item>>)
    ensures |parts| == |ps|
  {
    seq(|ps|, k requires 0 <= k < |ps| => [Word(ps[k].name)] + TypeWords(ps[k].ty))
  }

  lemma {:induction false} ParamsSay(ps: seq<Param>, lo: nat)
    ensures Parts(LayParams(ps, lo)) == ParamParts(ps)
    decreases ps
  {
    hide Sentence, TypeWords;
    if ps == [] {
      PartsOf([]);
    } else {
      var most, p := ps[..|ps| - 1], ps[|ps| - 1];
      var t := Tree(lo + |most|, ArgDeclNode(p.name, p.ty), []);
      ParamsSay(most, lo);
      SentenceIs(t);
      PartsSnoc(LayParams(most, lo), t);
      assert ParamParts(ps) == ParamParts(most) + [[Word(p.name)] + TypeWords(p.ty)];
    }
  }

  lemma {:induction false} ParamCommas(ps: seq<Param>)
    ensures Commas(ParamParts(ps)) + [Tok(RPAREN)] == if ps == [] then [Tok(RPAREN)] else ParamTokens(ps)
    decreases ps
  {
    hide TypeTokens, TypeWords;
    if ps != [] {
      var x, more := [Word(ps[0].name)] + TypeWords(ps[0].ty), ps[1..];
      TypeSays(ps[0].ty);
      ParamCommas(more);
      assert ParamParts(ps)[0] == x && ParamParts(ps)[1..] == ParamParts(more);
      if more == [] {
        ParamJoin(Word(ps[0].name), TypeWords(ps[0].ty), [Tok(RPAREN)]);
      } else {
        ParamJoin(Word(ps[0].name), TypeWords(ps[0].ty), [Tok(COMMA)] + (Commas(ParamParts(more)) + [Tok(RPAREN)]));
        assert (x + ([Tok(COMMA)] + Commas(ParamParts(more)))) + [Tok(RPAREN)]
            == x + ([Tok(COMMA)] + (Commas(ParamParts(more)) + [Tok(RPAREN)]));
      }
    }
  }

  lemma {:induction false} ParamJoin(n: Item, ty: seq<Item>, rest: seq<Item>)
    ensures ([n] + ty) + rest == [n] + (ty + rest)
  {
  }

  lemma {:induction false} BodySays(b: seq<Stmt>, lo: nat)
    requires CanonBlock(b)
    ensures Sentence(LayBody(b, lo)) == BlockTokens(StripBlock(b))
    decreases b, 2
  {
    hide Sentence, LayBlock, BlockTokens, StripBlock, CanonBlock, Concat, BlockParts;
    SentenceIs(LayBody(b, lo));
    BlockSays(b, lo + 1);
    BlockConcat(b);
  }

  function BlockParts(b: seq<Stmt>): (parts: seq<seq<Item>>)
    ensures |parts| == |b|
  {
    seq(|b|, k requires 0 <= k < |b| => StmtTokens(StripStmt(b[k])))
  }

  lemma {:induction false} CanonMost(b: seq<Stmt>)
    requires CanonBlock(b) && b != []
    ensures CanonBlock(b[..|b| - 1]) && CanonStmt(b[|b| - 1])
    decreases b
  {
    hide CanonStmt;
    if |b| > 1 {
      CanonMost(b[1..]);
      assert b[..|b| - 1][1..] == b[1..][..|b| - 2];
    }
  }

  lemma {:induction false} BlockSays(b: seq<Stmt>, lo: nat)
    requires CanonBlock(b)
    ensures Parts(LayBlock(b, lo)) == BlockParts(b)
    decreases b, 0
  {
    hide Sentence, LayStmt, StmtTokens, StripStmt, BlockNodes, CanonBlock, CanonStmt;
    if b == [] {
      PartsOf([]);
    } else {
      var most, st := b[..|b| - 1], b[|b| - 1];
      CanonMost(b);
      BlockSays(most, lo);
      StmtSays(st, lo + BlockNodes(most));
      PartsSnoc(LayBlock(most, lo), LayStmt(st, lo + BlockNodes(most)));
      assert BlockParts(b) == BlockParts(most) + [StmtTokens(StripStmt(st))];
    }
  }

  lemma {:induction false} BlockConcat(b: seq<Stmt>)
    ensures Concat(BlockParts(b)) == BlockTokens(StripBlock(b))
    decreases b
  {
    hide StmtTokens, StripStmt;
    if b != [] {
      assert BlockParts(b)[0] == StmtTokens(StripStmt(b[0])) && BlockParts(b)[1..] == BlockParts(b[1..]);
      assert StripBlock(b)[0] == StripStmt(b[0]) && StripBlock(b)[1..] == StripBlock(b[1..]);
      BlockConcat(b[1..]);
    }
  }

  function BranchParts(bs: seq<Branch>): seq<seq<Item>> {
    if bs == [] then []
    else [ExprTokens(Strip(bs[0].cond)), BlockTokens(StripBlock(bs[0].body))] + BranchParts(bs[1..])
  }

  function ElseParts(els: Otherwise): seq<seq<Item>> {
    match els
    case NoElse => []
    case Else(b) => [BlockTokens(StripBlock(b))]
  }

  lemma {:induction false} BranchPartsSnoc(bs: seq<Branch>, x: Branch)
    ensures BranchParts(bs + [x]) == BranchParts(bs) + [ExprTokens(Strip(x.cond)), BlockTokens(StripBlock(x.body))]
    decreases bs
  {
    hide ExprTokens, Strip, BlockTokens, StripBlock;
    if bs == [] {
      assert ([] + [x])[1..] == [];
    } else {
      assert (bs + [x])[1..] == bs[1..] + [x];
      BranchPartsSnoc(bs[1..], x);
    }
  }

  lemma {:induction false} CanonMostBranches(bs: seq<Branch>)
    requires CanonBranches(bs) && bs != []
    ensures CanonBranches(bs[..|bs| - 1]) && CanonBlock(bs[|bs| - 1].body)
    decreases bs
  {
    hide Canon, CanonBlock;
    if |bs| > 1 {
      CanonMostBranches(bs[1..]);
      assert bs[..|bs| - 1][1..] == bs[1..][..|bs| - 2];
    }
  }

  lemma {:induction false} BranchesSay(bs: seq<Branch>, lo: nat)
    requires CanonBranches(bs)
    ensures Parts(LayBranches(bs, lo)) == BranchParts(bs)
    decreases bs, 0
  {
    hide Sentence, LayExpr, LayBody, ExprTokens, Strip, BlockTokens, StripBlock, ExprNodes, BranchNodes, CanonBranches,
      CanonBlock, BranchParts;
    if bs == [] {
      PartsOf([]);
      assert BranchParts([]) == [] by { NoBranchParts(); }
    } else {
      var most, x := bs[..|bs| - 1], bs[|bs| - 1];
      var m := lo + BranchNodes(most);
      CanonMostBranches(bs);
      BranchesSay(most, lo);
      ExprSays(x.cond, m);
      BodySays(x.body, m + ExprNodes(x.cond));
      PartsTwo(LayBranches(most, lo), LayExpr(x.cond, m), LayBody(x.body, m + ExprNodes(x.cond)));
      BranchPartsSnoc(most, x);
      assert bs == most + [x];
    }
  }

  lemma {:induction false} NoBranchParts()
    ensures BranchParts([]) == []
  {
  }

  lemma {:induction false} PartsTwo(ts: seq<Tree>, c: Tree, d: Tree)
    ensures Parts(ts + [c, d]) == Parts(ts) + [Sentence(c), Sentence(d)]
  {
    hide Sentence;
  }

  lemma {:induction false} IfSays(bs: seq<Branch>, els: Otherwise, lo: nat)
    requires CanonStmt(If(bs, els))
    ensures Sentence(LayStmt(If(bs, els), lo)) == StmtTokens(StripStmt(If(bs, els)))
    decreases If(bs, els), 0
  {
    hide Sentence, LayBody, LayBranches, BranchTokens, ElseTokens, CanonBranches, CanonBlock, Branches, BranchParts,
      BlockTokens, StripBlock, StripBranches, BranchNodes;
    var t, after := LayStmt(If(bs, els), lo), lo + 1 + BranchNodes(bs);
    SentenceIs(t);
    BranchesSay(bs, lo + 1);
    BranchesAre(bs, els);
    assert t == Tree(lo, IfNode, LayBranches(bs, lo + 1) + LayElse(els, after));
    match els
    case NoElse =>
      assert BranchParts(bs) + [] == BranchParts(bs) && LayBranches(bs, lo + 1) + [] == LayBranches(bs, lo + 1);
    case Else(b) =>
      BodySays(b, after);
      PartsSnoc(LayBranches(bs, lo + 1), LayBody(b, after));
  }

  lemma {:induction false} BranchesAre(bs: seq<Branch>, els: Otherwise)
    requires bs != []
    ensures StripBranches(bs) != []
    ensures Branches(BranchParts(bs) + ElseParts(els)) + [Tok(END)]
         == BranchTokens(StripBranches(bs)) + ElseTokens(StripElse(els))
    decreases bs
  {
    hide ExprTokens, BlockTokens, Strip, StripBlock, ElseTokens, Branches, BranchTokens, BranchParts, StripBranches;
    var c, b, more := ExprTokens(Strip(bs[0].cond)), BlockTokens(StripBlock(bs[0].body)), bs[1..];
    var parts := BranchParts(bs) + ElseParts(els);
    FirstBranch(bs, els);
    BranchesIs(parts);
    BranchTokensAre(bs);
    if more == [] {
      LastBranch(els);
      ThenJoin(c, b, [], Branches(parts[2..]), [Tok(END)]);
      ThenJoin2(c, b, [], ElseTokens(StripElse(els)));
      Empty(ElseTokens(StripElse(els)));
    } else {
      BranchesAre(more, els);
      ThenJoin(c, b, [Tok(ELIF)], Branches(parts[2..]), [Tok(END)]);
      ThenJoin2(c, b, [Tok(ELIF)] + BranchTokens(StripBranches(more)), ElseTokens(StripElse(els)));
      ParamJoin(Tok(ELIF), BranchTokens(StripBranches(more)), ElseTokens(StripElse(els)));
    }
  }

  lemma {:induction false} Empty(s: seq<Item>)
    ensures [] + s == s
  {
  }

  lemma {:induction false} FirstBranch(bs: seq<Branch>, els: Otherwise)
    requires bs != []
    ensures var parts := BranchParts(bs) + ElseParts(els);
            && |parts| >= 2
            && parts[0] == ExprTokens(Strip(bs[0].cond)) && parts[1] == BlockTokens(StripBlock(bs[0].body))
            && parts[2..] == BranchParts(bs[1..]) + ElseParts(els) && (|parts| > 3 <==> bs[1..] != [])
    ensures StripBranches(bs) != []
  {
    hide ExprTokens, BlockTokens, Strip, StripBlock;
    BranchPartsLong(bs[1..]);
  }

  lemma {:induction false} BranchesIs(parts: seq<seq<Item>>)
    requires |parts| >= 2
    ensures Branches(parts)
         == parts[0] + ([Tok(THEN)] + (parts[1] + (if |parts| > 3 then [Tok(ELIF)] else []) + Branches(parts[2..])))
  {
  }

  lemma {:induction false} BranchTokensAre(bs: seq<Branch>)
    requires bs != []
    ensures StripBranches(bs) != [] && (bs[1..] != [] ==> StripBranches(bs[1..]) != [])
    ensures var c, b := ExprTokens(Strip(bs[0].cond)), BlockTokens(StripBlock(bs[0].body));
            BranchTokens(StripBranches(bs))
            == c + ([Tok(THEN)]
                    + (b + (if bs[1..] == [] then [] else [Tok(ELIF)] + BranchTokens(StripBranches(bs[1..])))))
  {
    hide ExprTokens, BlockTokens, Strip, StripBlock, BranchTokens;
    var d := StripBranches(bs);
    assert d[0] == Branch(Strip(bs[0].cond), StripBlock(bs[0].body)) && d[1..] == StripBranches(bs[1..]);
    BranchTokensStep(d);
  }

  lemma {:induction false} BranchTokensStep(d: seq<Branch>)
    requires d != []
    ensures BranchTokens(d) == ExprTokens(d[0].cond) + ([Tok(THEN)] + (BlockTokens(d[0].body)
              + (if d[1..] == [] then [] else [Tok(ELIF)] + BranchTokens(d[1..]))))
  {
    hide ExprTokens, BlockTokens;
  }

  lemma {:induction false} BranchPartsLong(bs: seq<Branch>)
    ensures |BranchParts(bs)| == 2 * |bs|
    decreases bs
  {
    if bs != [] { BranchPartsLong(bs[1..]); }
  }

  lemma {:induction false} LastBranch(els: Otherwise)
    ensures Branches(BranchParts([]) + ElseParts(els)) + [Tok(END)] == ElseTokens(StripElse(els))
  {
    hide BlockTokens, StripBlock;
    assert [] + ElseParts(els) == ElseParts(els);
    match els
    case NoElse =>
    case Else(b) =>
      assert ([Tok(ELSE)] + BlockTokens(StripBlock(b))) + [Tok(END)]
          == [Tok(ELSE)] + (BlockTokens(StripBlock(b)) + [Tok(END)]);
  }

  lemma {:induction false} ThenJoin(c: seq<Item>, b: seq<Item>, link: seq<Item>, more: seq<Item>, rest: seq<Item>)
    ensures (c + ([Tok(THEN)] + (b + link + more))) + rest == c + ([Tok(THEN)] + (b + (link + (more + rest))))
  {
  }

  lemma {:induction false} ThenJoin2(c: seq<Item>, b: seq<Item>, more: seq<Item>, rest: seq<Item>)
    ensures (c + ([Tok(THEN)] + (b + more))) + rest == c + ([Tok(THEN)] + (b + (more + rest)))
  {
  }

  /** The tree that the parser leaves says the program, without its grouping
      parentheses. */
  lemma {:induction false} ModuleSays(b: seq<Stmt>)
    requires CanonBlock(b)
    ensures Sentence(LayModule(b)) == BlockTokens(StripBlock(b))
  {
    hide Sentence, LayBlock, BlockTokens, StripBlock, CanonBlock, Concat, BlockParts;
    SentenceIs(LayModule(b));
    BlockSays(b, 1);
    BlockConcat(b);
  }
}

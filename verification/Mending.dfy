/** Putting back the parentheses that the parser does not miss: a stream and its mended
    form are read alike. So is a stream in a smaller arena, until that one is full. */
module Mending {
  import opened Tokens
  import opened Operators
  import opened Syntax
  import opened Reading
  import opened Canonical
  import opened Sound
  import opened Closing
  import opened Layout
  import opened Stripping

  /** `insert ( name` or `singleton ( name`: what follows is dropped unseen. */
  predicate Opened(s: seq<Item>) {
    |s| >= 3 && Opens(s[0]) && s[1] == Tok(LPAREN) && s[2].Tok? && s[2].t.IDENTIFIER?
  }

  /** Every dropped item becomes the `)` that should have stood there. */
  function Mend(s: seq<Item>): seq<Item>
    decreases |s|
  {
    if s == [] then []
    else if Opened(s) then [s[0], s[1], s[2], Tok(RPAREN)] + Mend(Tail(s[3..]))
    else [s[0]] + Mend(s[1..])
  }

  lemma {:induction false} MendHead(s: seq<Item>)
    ensures Head(Mend(s)) == Head(s)
    ensures Mend(s) == [] <==> s == []
  {
  }

  lemma {:induction false} MendTail(s: seq<Item>)
    requires s == [] || !Opens(s[0])
    ensures Head(Mend(s)) == Head(s) && Tail(Mend(s)) == Mend(Tail(s))
    ensures s != [] ==> Mend(s) != [] && Mend(s)[1..] == Mend(s[1..]) && Tail(s) == s[1..]
  {
  }

  /** The reading `q` in an arena with `b` free nodes mirrors the reading `r` with `a`:
      it succeeds with as many nodes, or runs out of them; and it fails alike if the
      arenas are alike. */
  ghost predicate Mirrors<T, U>(r: Outcome<T>, a: nat, q: Outcome<U>, b: nat) {
    match r
    case Ok(_, rest, a1) =>
      a1 <= a &&
      if a - a1 <= b then q.Ok? && q.rest == Mend(rest) && q.room == b - (a - a1) else q == Fail(OUT_OF_NODE)
    case Fail(e) => a == b ==> q == Fail(e)
  }

  ghost predicate SameValue<T>(r: Outcome<T>, q: Outcome<T>) {
    r.Ok? && q.Ok? ==> q.value == r.value
  }

  // ----- and what is read is the same but for a `)`

  predicate SameExpr(r: Outcome<Expr>, q: Outcome<Expr>) {
    r.Ok? && q.Ok? ==> Strip(q.value) == Strip(r.value)
  }

  predicate SameArgs(r: Outcome<seq<Expr>>, q: Outcome<seq<Expr>>) {
    r.Ok? && q.Ok? ==> StripArgs(q.value) == StripArgs(r.value)
  }

  predicate SameStmt(r: Outcome<Stmt>, q: Outcome<Stmt>) {
    r.Ok? && q.Ok? ==> StripStmt(q.value) == StripStmt(r.value)
  }

  predicate SameBlock(r: Outcome<seq<Stmt>>, q: Outcome<seq<Stmt>>) {
    r.Ok? && q.Ok? ==> StripBlock(q.value) == StripBlock(r.value)
  }

  predicate SameBranch(r: Outcome<Branch>, q: Outcome<Branch>) {
    r.Ok? && q.Ok? ==> StripBranch(q.value) == StripBranch(r.value)
  }

  lemma {:induction false} ArgsSnoc(d: seq<Expr>, e: seq<Expr>, x: Expr, y: Expr)
    requires StripArgs(d) == StripArgs(e) && Strip(x) == Strip(y)
    ensures StripArgs(d + [x]) == StripArgs(e + [y])
  {
    hide Strip, StripArgs;
    StripArgsMost(d + [x]);
    StripArgsMost(e + [y]);
    assert (d + [x])[..|d|] == d && (e + [y])[..|e|] == e;
  }

  lemma {:induction false} BlockSnoc(d: seq<Stmt>, e: seq<Stmt>, x: Stmt, y: Stmt)
    requires StripBlock(d) == StripBlock(e) && StripStmt(x) == StripStmt(y)
    ensures StripBlock(d + [x]) == StripBlock(e + [y])
  {
    hide StripStmt, StripBlock;
    StripBlockMost(d + [x]);
    StripBlockMost(e + [y]);
    assert (d + [x])[..|d|] == d && (e + [y])[..|e|] == e;
  }

  lemma {:induction false} BranchesSnoc(d: seq<Branch>, e: seq<Branch>, x: Branch, y: Branch)
    requires StripBranches(d) == StripBranches(e) && StripBranch(x) == StripBranch(y)
    ensures StripBranches(d + [x]) == StripBranches(e + [y])
  {
    hide StripBranch, StripBranches;
    StripBranchesMost(d + [x]);
    StripBranchesMost(e + [y]);
    assert (d + [x])[..|d|] == d && (e + [y])[..|e|] == e;
  }

  /** A reading that takes no nodes. */
  ghost predicate Exactly<T>(r: Outcome<T>, a: nat, q: Outcome<T>, b: nat) {
    match r
    case Ok(v, rest, a1) => a1 == a && q == Ok(v, Mend(rest), b)
    case Fail(e) => q == Fail(e)
  }

  /** The nodes a reading leaves, if it succeeds. */
  function Left<T>(q: Outcome<T>): nat {
    if q.Ok? then q.room else 0
  }

  function Less(b: nat): nat {
    if b > 0 then b - 1 else 0
  }

  // ----- names and types

  lemma {:induction false} ExpectMirrors(s: seq<Item>, x: Token, a: nat, b: nat)
    requires b <= a && x != INSERT && x != SINGLETON
    ensures Exactly(Expect(s, x, a), a, Expect(Mend(s), x, b), b)
  {
    hide Mend;
    MendHead(s);
    if Head(s) == Tok(x) { MendTail(s); }
  }

  lemma {:induction false} NameMirrors(s: seq<Item>, a: nat, b: nat)
    requires b <= a
    ensures Exactly(ExpectName(s, a), a, ExpectName(Mend(s), b), b)
  {
    hide Mend;
    MendHead(s);
    if Head(s).Tok? && Head(s).t.IDENTIFIER? { MendTail(s); }
  }

  lemma {:induction false} TypeMirrors(s: seq<Item>, a: nat, b: nat)
    requires b <= a
    ensures Exactly(ReadType(s, a), a, ReadType(Mend(s), b), b)
  {
    hide Mend;
    MendHead(s);
    if Head(s) == Tok(COLON) {
      MendTail(s);
      var s1 := Tail(s);
      MendHead(s1);
      if Head(s1).Tok? && (Head(s1).t.PRIMITIVE? || Head(s1).t.IDENTIFIER?) { MendTail(s1); }
    }
  }

  lemma {:induction false} TryTypeMirrors(s: seq<Item>, a: nat, b: nat)
    requires b <= a
    ensures Exactly(TryReadType(s, a), a, TryReadType(Mend(s), b), b)
  {
    hide Mend, ReadType;
    MendHead(s);
    TypeMirrors(s, a, b);
  }

  // ----- expressions

  lemma {:induction false} LinkMirrors(s: seq<Item>, p: Place, a: nat, b: nat)
    requires b <= a && Head(s) == Tok(DOT)
    ensures Head(Mend(s)) == Tok(DOT)
    ensures Mirrors(ReadLink(s, p, a), a, ReadLink(Mend(s), p, b), b)
    ensures SameValue(ReadLink(s, p, a), ReadLink(Mend(s), p, b))
  {
    hide Mend, FindBuiltin;
    MendTail(s);
    NameMirrors(Tail(s), a, b);
  }

  lemma {:induction false} ChainMirrors(s: seq<Item>, p: Place, a: nat, b: nat)
    requires b <= a
    ensures Mirrors(ReadChain(s, p, a), a, ReadChain(Mend(s), p, b), b)
    ensures SameValue(ReadChain(s, p, a), ReadChain(Mend(s), p, b))
    decreases |s|
  {
    hide Mend, ReadLink;
    MendHead(s);
    if Head(s) == Tok(DOT) {
      LinkMirrors(s, p, a, b);
      var r, q := ReadLink(s, p, a), ReadLink(Mend(s), p, b);
      if r.Ok? { ChainMirrors(r.rest, r.value, r.room, Left(q)); }
    }
  }

  lemma {:induction false} PlaceMirrors(s: seq<Item>, a: nat, b: nat)
    requires b <= a
    ensures Mirrors(ReadPlace(s, a), a, ReadPlace(Mend(s), b), b)
    ensures SameValue(ReadPlace(s, a), ReadPlace(Mend(s), b))
  {
    hide Mend, ReadChain, ExpectName;
    NameMirrors(s, a, b);
    var n := ExpectName(s, a);
    if n.Ok? && a > 0 { ChainMirrors(n.rest, Sym(n.value), a - 1, Less(b)); }
  }

  lemma {:induction false} ExprMirrors(s: seq<Item>, min: nat, a: nat, b: nat)
    requires b <= a
    ensures Mirrors(ReadExpr(s, min, a), a, ReadExpr(Mend(s), min, b), b)
    ensures SameExpr(ReadExpr(s, min, a), ReadExpr(Mend(s), min, b))
    decreases |s|, 4
  {
    hide Mend, Strip, ReadPrimary, Climb;
    PrimaryMirrors(s, a, b);
    var r, q := ReadPrimary(s, a), ReadPrimary(Mend(s), b);
    if r.Ok? { ClimbMirrors(r.rest, min, r.value, if q.Ok? then q.value else r.value, r.room, Left(q)); }
  }

  lemma {:induction false} ClimbMirrors(s: seq<Item>, min: nat, l: Expr, m: Expr, a: nat, b: nat)
    requires b <= a && Strip(l) == Strip(m)
    ensures Mirrors(Climb(s, min, l, a), a, Climb(Mend(s), min, m, b), b)
    ensures SameExpr(Climb(s, min, l, a), Climb(Mend(s), min, m, b))
    decreases |s|, 0
  {
    hide Mend, Climb, Strip, ReadExpr, IsBinop, Precedence, NextMin, BinopFromToken;
    MendHead(s);
    ClimbIs(s, min, l, a);
    ClimbIs(Mend(s), min, m, b);
    if Head(s).Tok? && IsBinop(Head(s).t) && Precedence(Head(s).t) >= min {
      var t := Head(s).t;
      NotOpening(t);
      MendTail(s);
      var s1 := Tail(s);
      ExprMirrors(s1, NextMin(t), a, b);
      var r, q := ReadExpr(s1, NextMin(t), a), ReadExpr(Mend(s1), NextMin(t), b);
      if r.Ok? && r.room > 0 {
        var op := BinopFromToken(t);
        var x := if q.Ok? then q.value else r.value;
        StripBin(op, l, r.value, m, x);
        ClimbMirrors(r.rest, min, Bin(op, l, r.value), Bin(op, m, x), r.room - 1, Less(Left(q)));
      }
    }
  }


  lemma {:induction false} StripBin(op: Binop, l: Expr, r: Expr, m: Expr, x: Expr)
    requires Strip(l) == Strip(m) && Strip(r) == Strip(x)
    ensures Strip(Bin(op, l, r)) == Strip(Bin(op, m, x))
  {
  }

  lemma {:induction false} NotOpening(t: Token)
    requires IsBinop(t) || IsUnop(t)
    ensures !Opens(Tok(t)) && t != EOF
  {
  }

  lemma {:induction false} PrimaryMirrors(s: seq<Item>, a: nat, b: nat)
    requires b <= a
    ensures Mirrors(ReadPrimary(s, a), a, ReadPrimary(Mend(s), b), b)
    ensures SameExpr(ReadPrimary(s, a), ReadPrimary(Mend(s), b))
    decreases |s|, 3
  {
    hide Mend, ReadExpr, ReadAtom, IsUnop, IsBinop, UnopFromToken;
    MendHead(s);
    if Head(s).Tok? {
      var t := Head(s).t;
      if t == LPAREN {
        MendTail(s);
        ExprMirrors(s[1..], 1, a, b);
        var r, q := ReadExpr(s[1..], 1, a), ReadExpr(Mend(s)[1..], 1, b);
        if r.Ok? { ExpectMirrors(r.rest, RPAREN, r.room, Left(q)); }
      } else if IsUnop(t) {
        NotOpening(t);
        MendTail(s);
        PrimaryMirrors(s[1..], a, b);
      } else if !IsBinop(t) {
        AtomMirrors(s, a, b);
      }
    }
  }

  lemma {:induction false} AtomMirrors(s: seq<Item>, a: nat, b: nat)
    requires b <= a
    ensures Mirrors(ReadAtom(s, a), a, ReadAtom(Mend(s), b), b)
    ensures SameExpr(ReadAtom(s, a), ReadAtom(Mend(s), b))
    decreases |s|, 2
  {
    hide Mend, ReadAtom, ReadPlace, ReadChain, TryCall, ReadArchetype;
    MendHead(s);
    AtomIs(s, a);
    AtomIs(Mend(s), b);
    match Head(s)
    case Tok(IDENTIFIER(_)) =>
      PlaceMirrors(s, a, b);
      var r, q := ReadPlace(s, a), ReadPlace(Mend(s), b);
      if r.Ok? { CallMirrors(r.rest, r.value, r.room, Left(q)); }
    case Tok(PRIMITIVE(prim)) =>
      MendTail(s);
      if a > 0 {
        ChainMirrors(s[1..], Ctor(prim), a - 1, Less(b));
        var r, q := ReadChain(s[1..], Ctor(prim), a - 1), ReadChain(Mend(s)[1..], Ctor(prim), Less(b));
        if r.Ok? { CallMirrors(r.rest, r.value, r.room, Left(q)); }
      }
    case Tok(LITERAL(_)) => MendTail(s);
    case Tok(INSERT) => ArchetypeMirrors(s, a, b);
    case Tok(SINGLETON) => ArchetypeMirrors(s, a, b);
    case _ =>
  }

  /** The one place where the streams differ: what is dropped in one is `)` in the other. */
  lemma {:induction false} ArchetypeMirrors(s: seq<Item>, a: nat, b: nat)
    requires b <= a && s != [] && Opens(s[0])
    ensures Mend(s) != []
    ensures var r, q := ReadArchetype(s[1..], a), ReadArchetype(Mend(s)[1..], b);
            match r
            case Fail(e) => q == Fail(e)
            case Ok(n, rest, a1) =>
              a1 == a - 1 &&
              if b > 0 then q.Ok? && q.value == n && Tail(q.rest) == Mend(Tail(rest)) && q.room == b - 1
              else q == Fail(OUT_OF_NODE)
  {
    if Opened(s) {
      OpenedReads(s, Tok(RPAREN), Mend(Tail(s[3..])), a, b);
    } else {
      UnopenedMirrors(s, a, b);
    }
  }

  lemma {:induction false} OpenedReads(s: seq<Item>, i: Item, rest: seq<Item>, a: nat, b: nat)
    requires Opened(s)
    ensures ReadArchetype(s[1..], a) == if a > 0 then Ok(s[2].t.name, s[3..], a - 1) else Fail(OUT_OF_NODE)
    ensures var m := [s[0], s[1], s[2], i] + rest;
            ReadArchetype(m[1..], b) == if b > 0 then Ok(s[2].t.name, [i] + rest, b - 1) else Fail(OUT_OF_NODE)
    ensures Tail([i] + rest) == rest
  {
    var m := [s[0], s[1], s[2], i] + rest;
    assert s[1..][1..] == s[2..] && s[2..][1..] == s[3..];
    assert m[1..] == [s[1], s[2], i] + rest && m[1..][1..] == [s[2], i] + rest && m[1..][1..][1..] == [i] + rest;
  }

  lemma {:induction false} UnopenedMirrors(s: seq<Item>, a: nat, b: nat)
    requires s != [] && Opens(s[0]) && !Opened(s)
    ensures Mend(s) != [] && ReadArchetype(s[1..], a).Fail?
            && ReadArchetype(Mend(s)[1..], b) == ReadArchetype(s[1..], a)
  {
    assert Mend(s) == [s[0]] + Mend(s[1..]);
    var s1 := s[1..];
    MendHead(s1);
    if Head(s1) == Tok(LPAREN) {
      MendTail(s1);
      MendHead(Tail(s1));
      assert |s1| > 1 ==> Head(Tail(s1)) == s[2];
    }
  }

  lemma {:induction false} CallMirrors(s: seq<Item>, p: Place, a: nat, b: nat)
    requires b <= a
    ensures Mirrors(TryCall(s, p, a), a, TryCall(Mend(s), p, b), b)
    ensures SameExpr(TryCall(s, p, a), TryCall(Mend(s), p, b))
    decreases |s|, 1
  {
    hide Mend, ReadArgs;
    MendHead(s);
    if Head(s) == Tok(LPAREN) {
      MendTail(s);
      ArgsMirror(s[1..], a, b);
    }
  }

  lemma {:induction false} ArgsMirror(s: seq<Item>, a: nat, b: nat)
    requires b <= a
    ensures Mirrors(ReadArgs(s, a), a, ReadArgs(Mend(s), b), b)
    ensures SameArgs(ReadArgs(s, a), ReadArgs(Mend(s), b))
    decreases |s|, 5
  {
    hide Mend, ReadExpr, ReadMoreArgs;
    MendHead(s);
    if a > 0 && Head(s).Tok? {
      if Head(s).t == RPAREN {
        MoreArgsMirror(s, [], [], a - 1, Less(b));
      } else {
        ExprMirrors(s, 0, a - 1, Less(b));
        var r, q := ReadExpr(s, 0, a - 1), ReadExpr(Mend(s), 0, Less(b));
        if r.Ok? {
          var x := if q.Ok? then q.value else r.value;
          ArgsSnoc([], [], r.value, x);
          assert [] + [r.value] == [r.value] && [] + [x] == [x];
          MoreArgsMirror(r.rest, [r.value], [x], r.room, Left(q));
        }
      }
    }
  }

  lemma {:induction false} MoreArgsMirror(s: seq<Item>, d: seq<Expr>, e: seq<Expr>, a: nat, b: nat)
    requires b <= a && StripArgs(d) == StripArgs(e)
    ensures Mirrors(ReadMoreArgs(s, d, a), a, ReadMoreArgs(Mend(s), e, b), b)
    ensures SameArgs(ReadMoreArgs(s, d, a), ReadMoreArgs(Mend(s), e, b))
    decreases |s|, 0
  {
    hide Mend, ReadMoreArgs, ReadExpr, Strip, StripArgs;
    MoreArgsAre(s, d, a);
    MoreArgsAre(Mend(s), e, b);
    MendHead(s);
    if Head(s) == Tok(COMMA) || Head(s) == Tok(RPAREN) { MendTail(s); }
    if Head(s) == Tok(COMMA) {
      ExprMirrors(s[1..], 0, a, b);
      var r, q := ReadExpr(s[1..], 0, a), ReadExpr(Mend(s)[1..], 0, b);
      if r.Ok? {
        var x := if q.Ok? then q.value else r.value;
        ArgsSnoc(d, e, r.value, x);
        MoreArgsMirror(r.rest, d + [r.value], e + [x], r.room, Left(q));
      }
    }
  }

  // ----- statements

  lemma {:induction false} ParamMirrors(s: seq<Item>, a: nat, b: nat)
    requires b <= a
    ensures Mirrors(ReadParam(s, a), a, ReadParam(Mend(s), b), b)
    ensures SameValue(ReadParam(s, a), ReadParam(Mend(s), b))
  {
    hide Mend, ReadType, ExpectName;
    NameMirrors(s, a, b);
    var n := ExpectName(s, a);
    if n.Ok? { TypeMirrors(n.rest, a, b); }
  }

  lemma {:induction false} MoreParamsMirror(s: seq<Item>, done: seq<Param>, a: nat, b: nat)
    requires b <= a
    ensures Mirrors(ReadMoreParams(s, done, a), a, ReadMoreParams(Mend(s), done, b), b)
    ensures SameValue(ReadMoreParams(s, done, a), ReadMoreParams(Mend(s), done, b))
    decreases |s|
  {
    hide Mend, ReadParam;
    ParamMirrors(s, a, b);
    var r, q := ReadParam(s, a), ReadParam(Mend(s), b);
    if r.Ok? {
      MendHead(r.rest);
      if Head(r.rest) == Tok(COMMA) || Head(r.rest) == Tok(RPAREN) { MendTail(r.rest); }
      if Head(r.rest) == Tok(COMMA) {
        MoreParamsMirror(r.rest[1..], done + [r.value], r.room, Left(q));
      }
    }
  }

  lemma {:induction false} ParamsMirror(s: seq<Item>, a: nat, b: nat)
    requires b <= a
    ensures Mirrors(ReadParams(s, a), a, ReadParams(Mend(s), b), b)
    ensures SameValue(ReadParams(s, a), ReadParams(Mend(s), b))
  {
    hide Mend, ReadMoreParams;
    MendHead(s);
    if Head(s) == Tok(RPAREN) { MendTail(s); }
    MoreParamsMirror(s, [], a, b);
  }

  lemma {:induction false} StmtMirrors(s: seq<Item>, a: nat, b: nat)
    requires b <= a
    ensures Mirrors(ReadStmt(s, a), a, ReadStmt(Mend(s), b), b)
    ensures SameStmt(ReadStmt(s, a), ReadStmt(Mend(s), b))
    decreases |s|, 2
  {
    hide Mend, ReadExpr, ReadBranches, ReadLet, ReadSimple, ReadWhile, ReadFun;
    MendHead(s);
    if s != [] && !Opens(s[0]) { MendTail(s); }
    match Head(s)
    case Tok(LET) => LetMirrors(s[1..], a, b);
    case Tok(FUNCTION) => FunMirrors(s[1..], a, b);
    case Tok(RETURN) => ExprMirrors(s[1..], 0, a, b);
    case Tok(IF) => if a > 0 { BranchesMirror(s[1..], [], [], a - 1, Less(b)); }
    case Tok(WHILE) => WhileMirrors(s[1..], a, b);
    case Tok(IDENTIFIER(_)) => SimpleMirrors(s, a, b);
    case _ =>
  }

  lemma {:induction false} LetHeadMirrors(s: seq<Item>, a: nat, b: nat)
    requires b <= a
    ensures Exactly(ReadLetHead(s, a), a, ReadLetHead(Mend(s), b), b)
  {
    hide Mend, TryReadType, ExpectName, Expect;
    NameMirrors(s, a, b);
    var n := ExpectName(s, a);
    if n.Ok? {
      TryTypeMirrors(n.rest, a, b);
      var ty := TryReadType(n.rest, a);
      if ty.Ok? { ExpectMirrors(ty.rest, ASSIGN, a, b); }
    }
  }

  lemma {:induction false} LetMirrors(s: seq<Item>, a: nat, b: nat)
    requires b <= a
    ensures Mirrors(ReadLet(s, a), a, ReadLet(Mend(s), b), b)
    ensures SameStmt(ReadLet(s, a), ReadLet(Mend(s), b))
  {
    hide Mend, ReadExpr, ReadLetHead;
    LetHeadMirrors(s, a, b);
    var h := ReadLetHead(s, a);
    if h.Ok? { ExprMirrors(h.rest, 0, a, b); }
  }

  lemma {:induction false} SimpleMirrors(s: seq<Item>, a: nat, b: nat)
    requires b <= a
    ensures Mirrors(ReadSimple(s, a), a, ReadSimple(Mend(s), b), b)
    ensures SameStmt(ReadSimple(s, a), ReadSimple(Mend(s), b))
  {
    hide Mend, ReadExpr, ReadPlace, ReadArgs;
    PlaceMirrors(s, a, b);
    var r, q := ReadPlace(s, a), ReadPlace(Mend(s), b);
    if r.Ok? {
      MendHead(r.rest);
      if Head(r.rest) == Tok(ASSIGN) || Head(r.rest) == Tok(LPAREN) {
        MendTail(r.rest);
        ExprMirrors(r.rest[1..], 0, r.room, Left(q));
        ArgsMirror(r.rest[1..], r.room, Left(q));
      }
    }
  }

  lemma {:induction false} BodyMirrors(s: seq<Item>, k: Stop, a: nat, b: nat)
    requires b <= a
    ensures Mirrors(ReadBody(s, k, a), a, ReadBody(Mend(s), k, b), b)
    ensures SameBlock(ReadBody(s, k, a), ReadBody(Mend(s), k, b))
    decreases |s|, 4
  {
    hide Mend, ReadBlock;
    if a > 0 { BlockMirrors(s, k, [], [], a - 1, Less(b)); }
  }

  lemma {:induction false} BlockMirrors(s: seq<Item>, k: Stop, d: seq<Stmt>, e: seq<Stmt>, a: nat, b: nat)
    requires b <= a && StripBlock(d) == StripBlock(e)
    ensures Mirrors(ReadBlock(s, k, d, a), a, ReadBlock(Mend(s), k, e, b), b)
    ensures SameBlock(ReadBlock(s, k, d, a), ReadBlock(Mend(s), k, e, b))
    decreases |s|, 3
  {
    hide Mend, ReadBlock, ReadStmt, StripStmt, StripBlock, StopsAt;
    BlockIs(s, k, d, a);
    BlockIs(Mend(s), k, e, b);
    MendHead(s);
    if Head(s).Tok? && !StopsAt(k, Head(s).t) {
      StmtMirrors(s, a, b);
      var r, q := ReadStmt(s, a), ReadStmt(Mend(s), b);
      if r.Ok? {
        var x := if q.Ok? then q.value else r.value;
        BlockSnoc(d, e, r.value, x);
        BlockMirrors(r.rest, k, d + [r.value], e + [x], r.room, Left(q));
      }
    }
  }

  lemma {:induction false} GuardMirrors(s: seq<Item>, a: nat, b: nat)
    requires b <= a
    ensures Mirrors(ReadGuard(s, a), a, ReadGuard(Mend(s), b), b)
    ensures SameExpr(ReadGuard(s, a), ReadGuard(Mend(s), b))
  {
    hide Mend, ReadExpr;
    ExprMirrors(s, 0, a, b);
    var c, d := ReadExpr(s, 0, a), ReadExpr(Mend(s), 0, b);
    if c.Ok? { ExpectMirrors(c.rest, THEN, c.room, Left(d)); }
  }

  lemma {:induction false} BranchMirrors(s: seq<Item>, a: nat, b: nat)
    requires b <= a
    ensures Mirrors(ReadBranch(s, a), a, ReadBranch(Mend(s), b), b)
    ensures SameBranch(ReadBranch(s, a), ReadBranch(Mend(s), b))
    decreases |s|, 5
  {
    hide Mend, ReadBranch, ReadGuard, ReadBody;
    BranchIs(s, a);
    BranchIs(Mend(s), b);
    GuardMirrors(s, a, b);
    var c, d := ReadGuard(s, a), ReadGuard(Mend(s), b);
    if c.Ok? {
      GuardShorter(s, a);
      BodyMirrors(c.rest, AtBranch, c.room, Left(d));
    }
  }

  lemma {:induction false} GuardShorter(s: seq<Item>, a: nat)
    ensures var r := ReadGuard(s, a); r.Ok? ==> |r.rest| < |s|
  {
    hide ReadExpr;
  }

  lemma {:induction false} BranchesMirror(s: seq<Item>, d: seq<Branch>, e: seq<Branch>, a: nat, b: nat)
    requires b <= a && StripBranches(d) == StripBranches(e)
    ensures Mirrors(ReadBranches(s, d, a), a, ReadBranches(Mend(s), e, b), b)
    ensures SameStmt(ReadBranches(s, d, a), ReadBranches(Mend(s), e, b))
    decreases |s|, 7
  {
    hide Mend, ReadBranch, ReadElse;
    BranchMirrors(s, a, b);
    var r, q := ReadBranch(s, a), ReadBranch(Mend(s), b);
    if r.Ok? {
      MendHead(r.rest);
      var x := if q.Ok? then q.value else r.value;
      BranchesSnoc(d, e, r.value, x);
      if Head(r.rest) == Tok(ELIF) {
        MendTail(r.rest);
        BranchesMirror(r.rest[1..], d + [r.value], e + [x], r.room, Left(q));
      } else {
        ElseMirrors(r.rest, d + [r.value], e + [x], r.room, Left(q));
      }
    }
  }

  predicate SameOtherwise(r: Outcome<Otherwise>, q: Outcome<Otherwise>) {
    r.Ok? && q.Ok? ==> StripElse(q.value) == StripElse(r.value)
  }

  lemma {:induction false} OtherwiseMirrors(s: seq<Item>, a: nat, b: nat)
    requires b <= a
    ensures Mirrors(ReadOtherwise(s, a), a, ReadOtherwise(Mend(s), b), b)
    ensures SameOtherwise(ReadOtherwise(s, a), ReadOtherwise(Mend(s), b))
    decreases |s|, 5
  {
    hide Mend, ReadBody;
    MendHead(s);
    if Head(s) == Tok(ELSE) {
      MendTail(s);
      BodyMirrors(s[1..], AtBranch, a, b);
    }
  }

  lemma {:induction false} ElseMirrors(s: seq<Item>, d: seq<Branch>, e: seq<Branch>, a: nat, b: nat)
    requires b <= a && StripBranches(d) == StripBranches(e)
    ensures Mirrors(ReadElse(s, d, a), a, ReadElse(Mend(s), e, b), b)
    ensures SameStmt(ReadElse(s, d, a), ReadElse(Mend(s), e, b))
    decreases |s|, 6
  {
    hide Mend, ReadElse, ReadOtherwise, StripBranches, StripElse;
    ElseIs(s, d, a);
    ElseIs(Mend(s), e, b);
    OtherwiseMirrors(s, a, b);
    var r, q := ReadOtherwise(s, a), ReadOtherwise(Mend(s), b);
    if r.Ok? { ExpectMirrors(r.rest, END, r.room, Left(q)); }
  }

  /** The body of a loop or function with its `end`, which the reader drops. */
  lemma {:induction false} EndedMirrors(s: seq<Item>, a: nat, b: nat)
    requires b <= a
    ensures Mirrors(ReadBody(s, AtEnd, a), a, ReadBody(Mend(s), AtEnd, b), b)
    ensures SameBlock(ReadBody(s, AtEnd, a), ReadBody(Mend(s), AtEnd, b))
    ensures ReadBody(s, AtEnd, a).Ok? ==>
              Tail(Mend(ReadBody(s, AtEnd, a).rest)) == Mend(Tail(ReadBody(s, AtEnd, a).rest))
    decreases |s|, 5
  {
    hide Mend, ReadBody;
    BodyMirrors(s, AtEnd, a, b);
    var r := ReadBody(s, AtEnd, a);
    if r.Ok? { MendTail(r.rest); }
  }

  lemma {:induction false} WhileMirrors(s: seq<Item>, a: nat, b: nat)
    requires b <= a
    ensures Mirrors(ReadWhile(s, a), a, ReadWhile(Mend(s), b), b)
    ensures SameStmt(ReadWhile(s, a), ReadWhile(Mend(s), b))
    decreases |s|, 7
  {
    hide Mend, ReadExpr, ReadWhileRest;
    ExprMirrors(s, 0, a, b);
    var r, q := ReadExpr(s, 0, a), ReadExpr(Mend(s), 0, b);
    if r.Ok? && r.room > 0 {
      WhileRestMirrors(r.rest, r.value, if q.Ok? then q.value else r.value, r.room - 1, Less(Left(q)));
    }
  }

  lemma {:induction false} WhileRestMirrors(s: seq<Item>, c: Expr, d: Expr, a: nat, b: nat)
    requires b <= a && Strip(c) == Strip(d)
    ensures Mirrors(ReadWhileRest(s, c, a), a, ReadWhileRest(Mend(s), d, b), b)
    ensures SameStmt(ReadWhileRest(s, c, a), ReadWhileRest(Mend(s), d, b))
    decreases |s|, 6
  {
    hide Mend, ReadBody, ReadWhileRest, Strip, StripBlock;
    WhileRestIs(s, c, a);
    WhileRestIs(Mend(s), d, b);
    MendHead(s);
    if Head(s) == Tok(DO) {
      MendTail(s);
      EndedMirrors(Tail(s), a, b);
    }
  }

  lemma {:induction false} FunMirrors(s: seq<Item>, a: nat, b: nat)
    requires b <= a
    ensures Mirrors(ReadFun(s, a), a, ReadFun(Mend(s), b), b)
    ensures SameStmt(ReadFun(s, a), ReadFun(Mend(s), b))
    decreases |s|, 8
  {
    hide Mend, ReadFunSignature;
    NameMirrors(s, a, b);
    var n := ExpectName(s, a);
    if n.Ok? && a > 0 { FunSignatureMirrors(n.rest, n.value, a - 1, Less(b)); }
  }

  lemma {:induction false} FunSignatureMirrors(s: seq<Item>, n: string, a: nat, b: nat)
    requires b <= a
    ensures Mirrors(ReadFunSignature(s, n, a), a, ReadFunSignature(Mend(s), n, b), b)
    ensures SameStmt(ReadFunSignature(s, n, a), ReadFunSignature(Mend(s), n, b))
    decreases |s|, 7
  {
    hide Mend, ReadParams, ReadFunRest;
    ExpectMirrors(s, LPAREN, a, b);
    var x := Expect(s, LPAREN, a);
    if x.Ok? {
      ParamsMirror(x.rest, a, b);
      var r, q := ReadParams(x.rest, a), ReadParams(Mend(x.rest), b);
      if r.Ok? { FunRestMirrors(r.rest, n, r.value, r.room, Left(q)); }
    }
  }

  lemma {:induction false} FunRestMirrors(s: seq<Item>, n: string, ps: seq<Param>, a: nat, b: nat)
    requires b <= a
    ensures Mirrors(ReadFunRest(s, n, ps, a), a, ReadFunRest(Mend(s), n, ps, b), b)
    ensures SameStmt(ReadFunRest(s, n, ps, a), ReadFunRest(Mend(s), n, ps, b))
    decreases |s|, 6
  {
    hide Mend, ReadBody, TryReadType;
    TryTypeMirrors(s, a, b);
    var ty := TryReadType(s, a);
    if ty.Ok? { EndedMirrors(ty.rest, a, b); }
  }

  lemma {:induction false} ModuleMirrors(s: seq<Item>, a: nat, b: nat)
    requires b <= a
    ensures Mirrors(ReadModule(s, a), a, ReadModule(Mend(s), b), b)
    ensures SameBlock(ReadModule(s, a), ReadModule(Mend(s), b))
  {
    hide Mend, ReadBlock, ReadModule, StripBlock;
    ModuleIs(s, a);
    ModuleIs(Mend(s), b);
    MendHead(s);
    BlockMirrors(s, AtEof, [], [], a, b);
    var r := ReadBlock(s, AtEof, [], a);
    if r.Ok? { MendTail(r.rest); }
  }

  /** Missing a `)` makes no difference to the arena. */
  lemma {:induction false} MendedArena(s: seq<Item>, room: nat)
    requires ReadModule(s, room).Ok?
    ensures var r, q := ReadModule(s, room), ReadModule(Mend(s), room);
            q.Ok? && q.room == r.room && LayModule(q.value) == LayModule(r.value)
  {
    hide Mend, ReadModule, LayModule, StripBlock;
    ModuleMirrors(s, room, room);
    LayoutStrips(ReadModule(s, room).value);
    LayoutStrips(ReadModule(Mend(s), room).value);
  }

  // ----- what is accepted, whether or not a `)` is missing

  lemma {:induction false} MendCloses(s: seq<Item>)
    ensures WellClosed(Mend(s)) && (Mend(s) == s <==> WellClosed(s))
    decreases |s|
  {
    if s == [] {
    } else if Opened(s) {
      MendCloses(Tail(s[3..]));
      OpenedCloses(s, Mend(Tail(s[3..])));
    } else {
      MendCloses(s[1..]);
      assert ([s[0]] + Mend(s[1..]))[1..] == Mend(s[1..]) && s == [s[0]] + s[1..];
      UnopenedHead(s);
    }
  }

  lemma {:induction false} OpenedCloses(s: seq<Item>, rest: seq<Item>)
    requires Opened(s) && WellClosed(rest)
    requires rest == Tail(s[3..]) <==> WellClosed(Tail(s[3..]))
    ensures var m := [s[0], s[1], s[2], Tok(RPAREN)] + rest; WellClosed(m) && (m == s <==> WellClosed(s))
  {
    var m := [s[0], s[1], s[2], Tok(RPAREN)] + rest;
    var after := [Tok(RPAREN)] + rest;
    assert after[1..] == rest;
    assert m[1..] == [s[1], s[2]] + after;
    Cons2(s[1], s[2], after);
    if m == s { assert s[3..] == after; }
    if WellClosed(s) {
      assert s[1..][1..] == s[2..] && s[2..][1..] == s[3..];
      assert WellClosed(s[1..]) && WellClosed(s[2..]) && WellClosed(s[3..]);
      assert s == [s[0], s[1], s[2], s[3]] + s[3..][1..];
    }
  }

  lemma {:induction false} UnopenedHead(s: seq<Item>)
    requires s != [] && !Opened(s)
    ensures HeadClosed(Mend(s)) && HeadClosed(s)
  {
    if Opens(s[0]) && |s| > 1 && s[1] == Tok(LPAREN) {
      MendTail(s[1..]);
      MendHead(s[2..]);
      assert s[1..][1..] == s[2..];
      assert Mend(s) == [s[0]] + Mend(s[1..]);
    } else {
      MendHead(s[1..]);
    }
  }

  lemma {:induction false} MendProper(s: seq<Item>)
    requires Proper(s)
    ensures Proper(Mend(s))
    decreases |s|
  {
    if s == [] {
    } else if Opened(s) {
      MendProper(Tail(s[3..]));
    } else {
      MendProper(s[1..]);
    }
  }

  /** The parser accepts a stream if and only if its mended form spells a program that the
      arena has room for. */
  lemma {:induction false} AcceptedIff(s: seq<Item>, room: nat)
    requires Proper(s)
    ensures ReadModule(s, room).Ok?
       <==> exists b :: CanonBlock(b) && ClosedBlock(b) && Mend(s) == BlockTokens(b) && BlockNodes(b) <= room
  {
    hide Mend, WellClosed, ReadModule, ReadBlock, CanonBlock, ClosedBlock, BlockTokens, BlockNodes, Proper;
    ModuleMirrors(s, room, room);
    MendCloses(s);
    MendProper(s);
    var q := ReadModule(Mend(s), room);
    if q.Ok? { MendedSpells(Mend(s), room); }
    if exists b :: CanonBlock(b) && ClosedBlock(b) && Mend(s) == BlockTokens(b) && BlockNodes(b) <= room {
      var b :| CanonBlock(b) && ClosedBlock(b) && Mend(s) == BlockTokens(b) && BlockNodes(b) <= room;
      ModuleReads(b, room);
    }
  }

  /** An accepted well-closed stream spells what it is read as. */
  lemma {:induction false} MendedSpells(s: seq<Item>, room: nat)
    requires WellClosed(s) && Proper(s) && ReadModule(s, room).Ok?
    ensures var b := ReadModule(s, room).value;
            CanonBlock(b) && ClosedBlock(b) && s == BlockTokens(b) && BlockNodes(b) <= room
  {
    hide WellClosed, ReadBlock, CanonBlock, ClosedBlock, BlockTokens, BlockNodes, Proper;
    assert ClosedBlock([]) by { NothingClosed(); }
    BlockKeeps(s, AtEof, [], room);
    ModuleSound(s, room);
    var b := ReadModule(s, room).value;
    assert BlockTokens(b) + [] == BlockTokens(b);
  }

  lemma {:induction false} NothingOpen()
    ensures WellClosed([])
  {
  }

  /** A program is refused for want of nodes if and only if the arena has fewer than the
      program takes. */
  lemma {:induction false} TooSmallIff(b: seq<Stmt>, room: nat)
    requires CanonBlock(b) && ClosedBlock(b)
    ensures ReadModule(BlockTokens(b), room) == Fail(OUT_OF_NODE) <==> BlockNodes(b) > room
  {
    hide Mend, WellClosed, ReadModule, ReadBlock, CanonBlock, ClosedBlock, BlockTokens, BlockNodes, Proper;
    var s := BlockTokens(b);
    if BlockNodes(b) <= room {
      ModuleReads(b, room);
    } else {
      assert WellClosed([]) by { NothingOpen(); }
      BlockSpells(b, []);
      assert s + [] == s;
      MendCloses(s);
      ModuleReads(b, BlockNodes(b));
      ModuleMirrors(s, BlockNodes(b), room);
    }
  }
}

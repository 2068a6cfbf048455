/** The parser of nucleus/lang/parser.h over the lexer object and the node arena.
    Every method reads what `Reading` says and leaves its tree in the arena. */
module Parsing {
  import opened Options
  import opened Tokens
  import opened Operators
  import opened Syntax
  import opened Reading
  import opened Layout
  import opened Arena
  import opened Growing
  import Lexing

  class Parser {
    const lexer: Lexing.Lexer
    const ast: Ast

    constructor (lexer: Lexing.Lexer, ast: Ast)
      ensures this.lexer == lexer && this.ast == ast
    {
      this.lexer := lexer;
      this.ast := ast;
    }

    ghost function Frame(): set<object> {
      {lexer, lexer.peeks, ast, ast.nodes}
    }

    ghost predicate Valid()
      reads Frame()
    {
      lexer.Valid() && ast.Valid() && lexer.peeks as object != ast.nodes
    }

    ghost function Items(): (s: seq<Item>)
      requires Valid()
      reads Frame()
      ensures Proper(s)
    {
      lexer.Stream()
    }

    // ----- tokens

    method Peek() returns (error: Error, tok: Token)
      requires Valid()
      modifies lexer, lexer.peeks
      ensures Valid()
      ensures match Head(old(Items()))
              case Bad(e) => error == e != NONE
              case Tok(t) => error == NONE && tok == t && Items() == old(Items())
    {
      var token;
      error, token := lexer.Peek(0);
      tok := token.tok;
    }

    method Consume() returns (error: Error, tok: Token)
      requires Valid()
      modifies lexer, lexer.peeks
      ensures Valid() && Items() == Tail(old(Items()))
      ensures match Head(old(Items()))
              case Bad(e) => error == e != NONE
              case Tok(t) => error == NONE && tok == t
    {
      var token;
      error, token := lexer.Next();
      tok := token.tok;
    }

    /** A token without a payload. */
    method ExpectToken(t: Token) returns (error: Error)
      requires Valid()
      modifies lexer, lexer.peeks
      ensures Valid()
      ensures Head(old(Items())) == Tok(t) ==> error == NONE
      ensures error == NONE ==> Head(old(Items())) == Tok(t)
      ensures Items() == Tail(old(Items()))
      ensures match Expect(old(Items()), t, 0) case Fail(e) => error == e case Ok(_, s, _) => error == NONE
    {
      var tok;
      error, tok := Consume();
      if error == NONE && tok != t { error := UNEXPECTED_TOKEN; }
    }

    method ExpectIdentifier() returns (error: Error, name: string)
      requires Valid()
      modifies lexer, lexer.peeks
      ensures Valid() && Items() == Tail(old(Items()))
      ensures match ExpectName(old(Items()), 0)
              case Fail(e) => error == e != NONE
              case Ok(n, s, _) => error == NONE && name == n
    {
      var tok;
      name := "";
      error, tok := Consume();
      if error != NONE { return; }
      if tok.IDENTIFIER? { name := tok.name; } else { error := UNEXPECTED_TOKEN; }
    }

    /** The keyword, `(` and a name. */
    method ExpectOpenName() returns (error: Error, name: string)
      requires Valid() && Head(Items()).Tok?
      modifies lexer, lexer.peeks
      ensures Valid()
      ensures match ReadArchetype(Tail(old(Items())), 1)
              case Fail(e) => error == e != NONE
              case Ok(n, s, _) => error == NONE && name == n && Items() == s
    {
      hide Lexing.Lexer.Stream, Lexing.Lexer.Valid, Ast.Valid, Proper;
      var tok;
      name := "";
      error, tok := Consume();
      error := ExpectToken(LPAREN);
      if error != NONE { return; }
      error, name := ExpectIdentifier();
    }

    method Accept(t: Token) returns (error: Error, found: bool)
      requires Valid()
      modifies lexer, lexer.peeks
      ensures Valid()
      ensures match Head(old(Items()))
              case Bad(e) => error == e != NONE
              case Tok(x) => error == NONE && found == (x == t)
                             && Items() == (if found then Tail(old(Items())) else old(Items()))
    {
      var tok;
      found := false;
      error, tok := Peek();
      if error != NONE { return; }
      if tok == t {
        found := true;
        error, tok := Consume();
      }
    }

    method ParseVarType() returns (error: Error, ty: VarType)
      requires Valid()
      modifies lexer, lexer.peeks
      ensures Valid()
      ensures match ReadType(old(Items()), 0)
              case Fail(e) => error == e != NONE
              case Ok(v, s, _) => error == NONE && ty == v && Items() == s
    {
      hide Lexing.Lexer.Stream, Lexing.Lexer.Valid, Ast.Valid, Proper;
      ty := Prim(UNKNOWN);
      error := ExpectToken(COLON);
      if error != NONE { return; }
      error, ty := ParseTypeName();
    }

    /** The type after the colon. */
    method ParseTypeName() returns (error: Error, ty: VarType)
      requires Valid()
      modifies lexer, lexer.peeks
      ensures Valid()
      ensures match Head(old(Items()))
              case Bad(e) => error == e != NONE
              case Tok(PRIMITIVE(p)) => error == NONE && ty == Prim(p) && Items() == Tail(old(Items()))
              case Tok(IDENTIFIER(n)) => error == NONE && ty == Arch(n) && Items() == Tail(old(Items()))
              case Tok(_) => error == INVALID_VARTYPE
    {
      hide Lexing.Lexer.Stream, Lexing.Lexer.Valid, Ast.Valid, Proper;
      var tok;
      ty := Prim(UNKNOWN);
      error, tok := Peek();
      if error != NONE { return; }
      match tok {
        case PRIMITIVE(p) =>
          error, tok := Consume();
          ty := Prim(p);
        case IDENTIFIER(n) =>
          error, tok := Consume();
          ty := Arch(n);
        case _ =>
          error, tok := Consume();
          error := INVALID_VARTYPE;
      }
    }

    method TryParseVarType() returns (error: Error, ty: Option<VarType>)
      requires Valid()
      modifies lexer, lexer.peeks
      ensures Valid()
      ensures match TryReadType(old(Items()), 0)
              case Fail(e) => error == e != NONE
              case Ok(v, s, _) => error == NONE && ty == v && Items() == s
    {
      hide Lexing.Lexer.Stream, Lexing.Lexer.Valid, Ast.Valid, Proper, ReadType;
      var tok;
      ty := None;
      error, tok := Peek();
      if error != NONE { return; }
      if tok == COLON {
        var t;
        error, t := ParseVarType();
        if error == NONE { ty := Some(t); }
      }
    }

    // ----- nodes

    /** Allocates a node and writes its payload. */
    method NewNode(v: Val) returns (error: Error, id: nat)
      requires Valid()
      modifies ast, ast.nodes
      ensures Valid() && lexer.Stream() == old(lexer.Stream())
      ensures error == NONE <==> old(ast.Room()) > 0
      ensures error == NONE ==> id == old(ast.count) && ast.cells == Alloc(old(ast.cells), v)
      ensures error != NONE ==> error == OUT_OF_NODE && ast.cells == old(ast.cells)
    {
      error, id := ast.AddNode();
      if error != NONE { return; }
      ghost var w :| ast.cells == Alloc(old(ast.cells), w);
      ast.SetValue(id, v);
      assert SetVal(Alloc(old(ast.cells), w), id, v) == Alloc(old(ast.cells), v);
    }

    /** The tree a method promises: it takes the next `n` nodes. */
    ghost predicate Made(t: Tree, node: nat, n: nat, lo: nat)
      reads ast
    {
      node == t.id && Tops(t, ast.cells) && ast.count == lo + n
    }

    /** A place was read: its tree starts at `lo`. */
    ghost predicate MadePlace(r: Outcome<Place>, error: Error, node: nat, lo: nat)
      requires Valid()
      reads Frame()
    {
      match r
      case Fail(e) => error == e != NONE
      case Ok(p, s, room) =>
        error == NONE && Items() == s && ast.Room() == room
        && Made(LayPlace(p, lo), node, PlaceNodes(p), lo)
    }

    ghost predicate MadeExpr(r: Outcome<Expr>, error: Error, node: nat, lo: nat)
      requires Valid()
      reads Frame()
    {
      match r
      case Fail(e) => error == e != NONE
      case Ok(x, s, room) =>
        error == NONE && Items() == s && ast.Room() == room
        && Made(LayExpr(x, lo), node, ExprNodes(x), lo)
    }

    ghost predicate MadeStmt(r: Outcome<Stmt>, error: Error, node: nat, lo: nat)
      requires Valid()
      reads Frame()
    {
      match r
      case Fail(e) => error == e != NONE
      case Ok(x, s, room) =>
        error == NONE && Items() == s && ast.Room() == room
        && Made(LayStmt(x, lo), node, StmtNodes(x), lo)
    }

    /** What the arena's validity says about its size and room. */
    lemma {:induction false} AstFacts()
      requires Valid()
      ensures 1 <= ast.count == |ast.cells| <= ast.nodes.Length < NULL_ID && Forest(ast.cells)
      ensures ast.Room() == ast.nodes.Length - ast.count
      ensures Sealed(ast.cells, ast.count)
      ensures forall i :: 0 <= i < ast.count ==> ast.nodes[i].val == ast.cells[i].val
    {
      ForestSealed(ast.cells);
    }

    /** A new node without children. */
    method NewLeaf(v: Val) returns (error: Error, node: nat)
      requires Valid()
      modifies ast, ast.nodes
      ensures Valid() && Extends(old(ast.cells), ast.cells, old(ast.count)) && lexer.Stream() == old(lexer.Stream())
      ensures error == NONE <==> old(ast.Room()) > 0
      ensures error == NONE ==> ast.Room() == old(ast.Room()) - 1
                                && Made(Tree(old(ast.count), v, []), node, 1, old(ast.count))
      ensures error != NONE ==> error == OUT_OF_NODE
    {
      hide Lexing.Lexer.Stream, Lexing.Lexer.Valid, Ast.Valid, Proper, Shape, Forest, Alloc;
      ghost var g := ast.cells;
      AstFacts();
      error, node := NewNode(v);
      if error != NONE { return; }
      NewTops(g, v);
      AstFacts();
    }

    /** A new node over the tree at `child`. */
    method NewOver(v: Val, child: nat, ghost c: Tree, ghost lo: nat) returns (error: Error, node: nat)
      requires Valid() && Tops(c, ast.cells) && c.id == child
      requires Within(c, lo, ast.count) && Sealed(ast.cells, lo)
      modifies ast, ast.nodes
      ensures Valid() && Extends(old(ast.cells), ast.cells, lo) && lexer.Stream() == old(lexer.Stream())
      ensures error == NONE <==> old(ast.Room()) > 0
      ensures error == NONE ==> Made(Tree(old(ast.count), v, [c]), node, 1, old(ast.count))
      ensures error != NONE ==> error == OUT_OF_NODE
    {
      hide Lexing.Lexer.Stream, Lexing.Lexer.Valid, Ast.Valid, Proper, Shape, Forest, Attach, Alloc, Within;
      ghost var g := ast.cells;
      AstFacts();
      error, node := NewNode(v);
      if error != NONE { return; }
      NodeOver(v, c, g, lo);
      ast.AppendChild(node, child);
      AstFacts();
    }

    /** A new node over two trees, the second one after the first. */
    method NewOverTwo(v: Val, first: nat, second: nat, ghost c: Tree, ghost d: Tree, ghost lo: nat, ghost m: nat)
      returns (error: Error, node: nat)
      requires Valid() && Tops(c, ast.cells) && c.id == first && Tops(d, ast.cells) && d.id == second
      requires lo <= m && Within(c, lo, m) && Within(d, m, ast.count) && Sealed(ast.cells, lo)
      modifies ast, ast.nodes
      ensures Valid() && Extends(old(ast.cells), ast.cells, lo) && lexer.Stream() == old(lexer.Stream())
      ensures error == NONE <==> old(ast.Room()) > 0
      ensures error == NONE ==> Made(Tree(old(ast.count), v, [c, d]), node, 1, old(ast.count))
      ensures error != NONE ==> error == OUT_OF_NODE
    {
      hide Lexing.Lexer.Stream, Lexing.Lexer.Valid, Ast.Valid, Proper, Shape, Forest, Attach, Alloc, Within;
      ghost var g := ast.cells;
      AstFacts();
      error, node := NewNode(v);
      if error != NONE { return; }
      NodeOverTwo(v, c, d, g, lo, m);
      ast.AppendChild(node, first);
      ast.AppendChild(node, second);
      AstFacts();
    }

    // ----- places

    /** A constructor node becomes the builtin function of that name, in place. */
    method PromoteBuiltin(child: nat, prim: Primitive, name: string, ghost lo: nat) returns (error: Error)
      requires Valid() && Made(LayPlace(Ctor(prim), lo), child, 1, lo)
      modifies ast, ast.nodes
      ensures Valid() && lexer.Stream() == old(lexer.Stream())
      ensures match FindBuiltin(prim, name)
              case None => error == UNKNOWN_SYMBOL_TYPE && ast.cells == old(ast.cells)
              case Some(f) =>
                error == NONE && Extends(old(ast.cells), ast.cells, lo) && ast.Room() == old(ast.Room())
                && Made(LayPlace(Builtin(f), lo), child, 1, lo)
    {
      hide Lexing.Lexer.Stream, Lexing.Lexer.Valid, Ast.Valid, Proper, Shape, Forest, LayPlace;
      AstFacts();
      match FindBuiltin(prim, name) {
        case None => return UNKNOWN_SYMBOL_TYPE;
        case Some(f) =>
          Promote(Ctor(prim), f, ast.cells, lo);
          TopsInside(LayPlace(Ctor(prim), lo), ast.cells);
          ast.SetValue(child, BuiltinNode(Function(f)));
          AstFacts();
          return NONE;
      }
    }

    /** The node for `.name` on the place whose tree is the last thing allocated. */
    method AddLink(child: nat, name: string, ghost p: Place, ghost lo: nat) returns (error: Error, node: nat)
      requires Valid() && 0 < lo && Sealed(ast.cells, lo)
      requires Made(LayPlace(p, lo), child, PlaceNodes(p), lo)
      modifies ast, ast.nodes
      ensures Valid() && Extends(old(ast.cells), ast.cells, lo)
      ensures MadePlace(LinkTo(p, name, old(Items()), old(ast.Room())), error, node, lo)
    {
      hide Lexing.Lexer.Stream, Lexing.Lexer.Valid, Ast.Valid, Proper, Shape, Forest, Attach, Alloc, Within, LayPlace,
        PlaceNodes, FindBuiltin;
      ghost var t := LayPlace(p, lo);
      node := child;
      PlaceWithin(p, lo);
      PlaceTop(p, lo);
      AstFacts();
      TopsInside(t, ast.cells);
      TopsVal(t, ast.cells);
      if ast.nodes[child].val.BuiltinNode? {
        match ast.nodes[child].val.builtin {
          case Constructor(prim) =>
            error := PromoteBuiltin(child, prim, name, lo);
            if error == NONE { PlaceTop(Builtin(FindBuiltin(prim, name).value), lo); }
          case Function(_) => error := UNKNOWN_SYMBOL_TYPE;
        }
      } else {
        error, node := NewOver(MemberNode(name), child, t, lo);
        MemberTop(p, name, lo);
        AstFacts();
      }
    }

    method ParseLink(child: nat, ghost p: Place, ghost lo: nat) returns (error: Error, node: nat)
      requires Valid() && 0 < lo && Sealed(ast.cells, lo)
      requires Made(LayPlace(p, lo), child, PlaceNodes(p), lo) && Head(Items()) == Tok(DOT)
      modifies Frame()
      ensures Valid() && Extends(old(ast.cells), ast.cells, lo)
      ensures MadePlace(ReadLink(old(Items()), p, old(ast.Room())), error, node, lo)
    {
      hide Lexing.Lexer.Stream, Lexing.Lexer.Valid, Ast.Valid, Proper, Shape, Forest, LayPlace, PlaceNodes, LinkTo;
      var name;
      node := child;
      error := ExpectToken(DOT);
      error, name := ExpectIdentifier();
      if error != NONE { return; }
      error, node := AddLink(child, name, p, lo);
    }

    method ParseMemberChain(child: nat, ghost p: Place, ghost lo: nat) returns (error: Error, parent: nat)
      requires Valid() && 0 < lo && Sealed(ast.cells, lo)
      requires Made(LayPlace(p, lo), child, PlaceNodes(p), lo) && Head(Items()) == Tok(DOT)
      modifies Frame()
      ensures Valid() && Extends(old(ast.cells), ast.cells, lo)
      ensures MadePlace(ReadChain(old(Items()), p, old(ast.Room())), error, parent, lo)
      decreases |Items()|, 0
    {
      hide Lexing.Lexer.Stream, Lexing.Lexer.Valid, Ast.Valid, Proper, Shape, Forest, LayPlace, PlaceNodes, ReadLink;
      ghost var g, link := ast.cells, ReadLink(Items(), p, ast.Room());
      error, parent := ParseLink(child, p, lo);
      if error != NONE { return; }
      ghost var h := ast.cells;
      SealedExtends(g, h, lo);
      error, parent := TryParseMemberChain(parent, link.value, lo);
      ExtendsTrans(g, h, ast.cells, lo);
    }

    method TryParseMemberChain(child: nat, ghost p: Place, ghost lo: nat) returns (error: Error, parent: nat)
      requires Valid() && 0 < lo && Sealed(ast.cells, lo)
      requires Made(LayPlace(p, lo), child, PlaceNodes(p), lo)
      modifies Frame()
      ensures Valid() && Extends(old(ast.cells), ast.cells, lo)
      ensures MadePlace(ReadChain(old(Items()), p, old(ast.Room())), error, parent, lo)
      decreases |Items()|, 1
    {
      hide Lexing.Lexer.Stream, Lexing.Lexer.Valid, Ast.Valid, Proper, Shape, Forest, LayPlace, PlaceNodes, ReadLink;
      var tok;
      parent := child;
      error, tok := Peek();
      if error != NONE { return; }
      if tok == DOT {
        error, parent := ParseMemberChain(child, p, lo);
      }
    }

    method ParseSymbol() returns (error: Error, node: nat)
      requires Valid()
      modifies Frame()
      ensures Valid() && Extends(old(ast.cells), ast.cells, old(ast.count))
      ensures Items() == Tail(old(Items()))
      ensures match ExpectName(old(Items()), 0)
              case Fail(e) => error == e != NONE
              case Ok(n, _, _) =>
                if old(ast.Room()) == 0 then error == OUT_OF_NODE
                else error == NONE && ast.Room() == old(ast.Room()) - 1
                     && Made(LayPlace(Sym(n), old(ast.count)), node, 1, old(ast.count))
    {
      hide Lexing.Lexer.Stream, Lexing.Lexer.Valid, Ast.Valid, Proper, Tops;
      var name;
      node := 0;
      AstFacts();
      error, name := ExpectIdentifier();
      if error != NONE { return; }
      error, node := NewLeaf(SymRefNode(name, NULL_ID));
    }

    method ParsePlace() returns (error: Error, node: nat)
      requires Valid()
      modifies Frame()
      ensures Valid() && Extends(old(ast.cells), ast.cells, old(ast.count))
      ensures MadePlace(ReadPlace(old(Items()), old(ast.Room())), error, node, old(ast.count))
    {
      hide Lexing.Lexer.Stream, Lexing.Lexer.Valid, Ast.Valid, Proper, Shape, Forest, LayPlace, ReadChain;
      ghost var g, s := ast.cells, Items();
      AstFacts();
      error, node := ParseSymbol();
      if error != NONE { return; }
      ghost var h := ast.cells;
      SealedExtends(g, h, |g|);
      error, node := TryParseMemberChain(node, Sym(ExpectName(s, 0).value), |g|);
      ExtendsTrans(g, h, ast.cells, |g|);
    }

    // ----- expressions

    /** Arguments were read onto the call at `node`. */
    ghost predicate MadeCall(r: Outcome<seq<Expr>>, error: Error, node: nat, p: Place, lo: nat)
      requires Valid()
      reads Frame()
    {
      match r
      case Fail(e) => error == e != NONE
      case Ok(args, s, room) =>
        error == NONE && Items() == s && ast.Room() == room
        && Made(LayCall(p, args, lo), node, PlaceNodes(p) + 1 + ArgNodes(args), lo)
    }

    /** Hangs the argument just read on the call. */
    method AppendArg(node: nat, arg: nat, ghost p: Place, ghost args: seq<Expr>, ghost a: Expr, ghost lo: nat)
      requires Valid() && 0 < lo && Sealed(ast.cells, lo)
      requires node == lo + PlaceNodes(p) && Tops(LayCall(p, args, lo), ast.cells)
      requires Made(LayExpr(a, node + 1 + ArgNodes(args)), arg, ExprNodes(a), node + 1 + ArgNodes(args))
      modifies ast, ast.nodes
      ensures Valid() && Extends(old(ast.cells), ast.cells, lo)
      ensures lexer.Stream() == old(lexer.Stream()) && ast.Room() == old(ast.Room())
      ensures Made(LayCall(p, args + [a], lo), node, PlaceNodes(p) + 1 + ArgNodes(args + [a]), lo)
    {
      hide Lexing.Lexer.Stream, Lexing.Lexer.Valid, Ast.Valid, Proper, Shape, Forest, Attach, Within, LayExpr, LayPlace,
        LayArgs, PlaceNodes, ArgNodes, ExprNodes, Tops;
      ghost var t, c := LayCall(p, args, lo), LayExpr(a, node + 1 + ArgNodes(args));
      AstFacts();
      CallOutside(p, args, lo);
      ExprWithin(a, node + 1 + ArgNodes(args));
      WithinOutside(c, node + 1 + ArgNodes(args), ast.count, node);
      TopsInside(c, ast.cells);
      ArgAbove(a, node + 1 + ArgNodes(args));
      Adopt(t, c, ast.cells, lo);
      CallSnoc(p, args, a, lo);
      ast.AppendChild(node, arg);
      AstFacts();
    }

    /** The call of the place whose tree is the last thing allocated. */
    method ParseCall(ident: nat, ghost p: Place, ghost lo: nat) returns (error: Error, call: nat)
      requires Valid() && 0 < lo && Sealed(ast.cells, lo)
      requires Made(LayPlace(p, lo), ident, PlaceNodes(p), lo) && Head(Items()) == Tok(LPAREN)
      modifies Frame()
      ensures Valid() && Extends(old(ast.cells), ast.cells, lo)
      ensures MadeCall(ReadArgs(Tail(old(Items())), old(ast.Room())), error, call, p, lo)
      decreases |Items()|, 0
    {
      hide Lexing.Lexer.Stream, Lexing.Lexer.Valid, Ast.Valid, Proper, Within, LayPlace, LayCall, ReadExpr,
        ReadMoreArgs, PlaceNodes, Tops;
      ghost var g := ast.cells;
      AstFacts();
      PlaceWithin(p, lo);
      error, call := NewOver(CallNode, ident, LayPlace(p, lo), lo);
      if error != NONE { return; }
      CallStart(p, lo);
      AstFacts();
      error := ExpectToken(LPAREN);
      SealedExtends(g, ast.cells, lo);
      ghost var h := ast.cells;
      error := ParseArgs(call, p, lo);
      ExtendsTrans(g, h, ast.cells, lo);
    }

    /** The arguments of a call that has none yet. */
    method ParseArgs(call: nat, ghost p: Place, ghost lo: nat) returns (error: Error)
      requires Valid() && 0 < lo && Sealed(ast.cells, lo)
      requires Made(LayCall(p, [], lo), call, PlaceNodes(p) + 1 + ArgNodes([]), lo)
      modifies Frame()
      ensures Valid() && Extends(old(ast.cells), ast.cells, lo)
      ensures MadeCall(ReadArgs(old(Items()), old(ast.Room()) + 1), error, call, p, lo)
      decreases |Items()|, 7
    {
      hide Lexing.Lexer.Stream, Lexing.Lexer.Valid, Ast.Valid, Proper, LayCall, ReadExpr, ReadMoreArgs, PlaceNodes,
        ArgNodes, Tops;
      ghost var g := ast.cells;
      var tok;
      error, tok := Peek();
      if error != NONE { return; }
      ghost var args: seq<Expr> := [];
      if tok != RPAREN {
        error, args := ParseArg(call, p, args, lo);
        if error != NONE { return; }
        assert [] + [args[0]] == [args[0]];
      }
      ghost var h := ast.cells;
      SealedExtends(g, h, lo);
      error, args := ParseMoreArgs(call, p, args, lo);
      ExtendsTrans(g, h, ast.cells, lo);
    }

    /** One argument, hung on the call. */
    method ParseArg(node: nat, ghost p: Place, ghost args: seq<Expr>, ghost lo: nat)
      returns (error: Error, ghost more: seq<Expr>)
      requires Valid() && 0 < lo && Sealed(ast.cells, lo)
      requires Made(LayCall(p, args, lo), node, PlaceNodes(p) + 1 + ArgNodes(args), lo)
      modifies Frame()
      ensures Valid() && Extends(old(ast.cells), ast.cells, lo)
      ensures match ReadExpr(old(Items()), 0, old(ast.Room()))
              case Fail(e) => error == e != NONE
              case Ok(a, s, room) =>
                error == NONE && Items() == s && ast.Room() == room && more == args + [a]
                && Made(LayCall(p, more, lo), node, PlaceNodes(p) + 1 + ArgNodes(more), lo)
      decreases |Items()|, 5
    {
      hide Lexing.Lexer.Stream, Lexing.Lexer.Valid, Ast.Valid, Proper, Shape, Forest, Within, LayExpr, LayPlace,
        LayArgs, ReadExpr, PlaceNodes, ArgNodes, ExprNodes;
      ghost var g, r := ast.cells, ReadExpr(Items(), 0, ast.Room());
      var expr;
      AstFacts();
      more := args;
      CallWithin(p, args, lo);
      error, expr := ParseExpr(0);
      if error != NONE { ExtendsLower(g, ast.cells, |g|, lo); return; }
      TopsExtends(LayCall(p, args, lo), g, ast.cells, lo, |g|);
      ghost var h := ast.cells;
      ExtendsLower(g, h, |g|, lo);
      SealedExtends(g, h, lo);
      AppendArg(node, expr, p, args, r.value, lo);
      more := args + [r.value];
      ExtendsTrans(g, h, ast.cells, lo);
    }

    /** The argument loop, up to and with its `)`. */
    method ParseMoreArgs(node: nat, ghost p: Place, ghost done: seq<Expr>, ghost lo: nat)
      returns (error: Error, ghost args: seq<Expr>)
      requires Valid() && 0 < lo && Sealed(ast.cells, lo)
      requires Made(LayCall(p, done, lo), node, PlaceNodes(p) + 1 + ArgNodes(done), lo)
      modifies Frame()
      ensures Valid() && Extends(old(ast.cells), ast.cells, lo)
      ensures MadeCall(ReadMoreArgs(old(Items()), done, old(ast.Room())), error, node, p, lo)
      decreases |Items()|, 6
    {
      hide Lexing.Lexer.Stream, Lexing.Lexer.Valid, Ast.Valid, Proper, Made, ReadMoreArgs, Sealed, Extends, Shape,
        Forest, LayCall, ReadExpr, PlaceNodes, ArgNodes;
      ghost var g, r := ast.cells, ReadMoreArgs(Items(), done, ast.Room());
      var found;
      SealedSelf(g, lo);
      args := done;
      while true
        invariant Valid() && Extends(g, ast.cells, lo) && Sealed(ast.cells, lo)
        invariant Made(LayCall(p, args, lo), node, PlaceNodes(p) + 1 + ArgNodes(args), lo)
        invariant ReadMoreArgs(Items(), args, ast.Room()) == r
        invariant |Items()| <= |old(Items())|
        decreases |Items()|
      {
        ghost var h := ast.cells;
        MoreArgsAre(Items(), args, ast.Room());
        error, found := Accept(COMMA);
        if error != NONE { return; }
        if !found { break; }
        error, args := ParseArg(node, p, args, lo);
        ExtendsTrans(g, h, ast.cells, lo);
        SealedExtends(h, ast.cells, lo);
        if error != NONE { return; }
      }
      error := ExpectToken(RPAREN);
    }

    method TryParseCall(ident: nat, ghost p: Place, ghost lo: nat) returns (error: Error, node: nat)
      requires Valid() && 0 < lo && Sealed(ast.cells, lo)
      requires Made(LayPlace(p, lo), ident, PlaceNodes(p), lo)
      modifies Frame()
      ensures Valid() && Extends(old(ast.cells), ast.cells, lo)
      ensures MadeExpr(TryCall(old(Items()), p, old(ast.Room())), error, node, lo)
      decreases |Items()|, 1
    {
      hide Lexing.Lexer.Stream, Lexing.Lexer.Valid, Ast.Valid, Proper, Shape, Forest, LayCall, LayPlace, ReadArgs,
        PlaceNodes, ArgNodes;
      var tok;
      node := ident;
      error, tok := Peek();
      if error != NONE { return; }
      if tok == LPAREN {
        error, node := ParseCall(ident, p, lo);
      }
    }

    /** The item after the name is consumed and not looked at. */
    method ParseInsertOrSingleton(isInsert: bool) returns (error: Error, node: nat)
      requires Valid() && Head(Items()) == Tok(if isInsert then INSERT else SINGLETON)
      modifies Frame()
      ensures Valid() && Extends(old(ast.cells), ast.cells, old(ast.count))
      ensures match ReadArchetype(Tail(old(Items())), old(ast.Room()))
              case Fail(e) => error == e != NONE
              case Ok(n, s, room) =>
                error == NONE && Items() == Tail(s) && ast.Room() == room
                && var v := if isInsert then InsertNode(n) else SingletonNode(n);
                   Made(Tree(old(ast.count), v, []), node, 1, old(ast.count))
    {
      hide Lexing.Lexer.Stream, Lexing.Lexer.Valid, Ast.Valid, Proper, Sealed, Extends, Made, ReadArchetype;
      var name;
      node := 0;
      AstFacts();
      SealedSelf(ast.cells, ast.count);
      ArchetypeRoom(Tail(Items()), ast.Room());
      error, name := ExpectOpenName();
      if error != NONE { return; }
      var v := if isInsert then InsertNode(name) else SingletonNode(name);
      error, node := NewLeaf(v);
      if error != NONE { return; }
      var ignored := ExpectToken(RPAREN);
    }

    method ParseAtom() returns (error: Error, node: nat)
      requires Valid()
      modifies Frame()
      ensures Valid() && Extends(old(ast.cells), ast.cells, old(ast.count))
      ensures MadeExpr(ReadAtom(old(Items()), old(ast.Room())), error, node, old(ast.count))
      decreases |Items()|, 2
    {
      hide Lexing.Lexer.Stream, Lexing.Lexer.Valid, Ast.Valid, Proper, Extends, Sealed, Tops, LayPlace, TryCall,
        ReadPlace, ReadChain, ReadArchetype, ReadAtom, PlaceNodes;
      ghost var g, s, room := ast.cells, Items(), ast.Room();
      ghost var p: Place;
      AtomIs(s, room);
      var tok;
      node := 0;
      AstFacts();
      SealedSelf(g, |g|);
      error, tok := Peek();
      if error != NONE { return; }
      match tok {
        case IDENTIFIER(_) =>
          error, node := ParsePlace();
          if error != NONE { return; }
          p := ReadPlace(s, room).value;
        case INSERT =>
          error, node := ParseInsertOrSingleton(true);
          return;
        case SINGLETON =>
          error, node := ParseInsertOrSingleton(false);
          return;
        case PRIMITIVE(prim) =>
          error, node := ParsePrimitive(prim);
          if error != NONE { return; }
          p := ReadChain(s[1..], Ctor(prim), room - 1).value;
        case LITERAL(l) =>
          error, node := ParseLiteral(l);
          return;
        case _ =>
          return INVALID_ATOM_EXPRESSION, 0;
      }
      ghost var h := ast.cells;
      SealedExtends(g, h, |g|);
      error, node := TryParseCall(node, p, |g|);
      ExtendsTrans(g, h, ast.cells, |g|);
    }

    /** A primitive and its chain. */
    method ParsePrimitive(prim: Primitive) returns (error: Error, node: nat)
      requires Valid() && Head(Items()) == Tok(PRIMITIVE(prim))
      modifies Frame()
      ensures Valid() && Extends(old(ast.cells), ast.cells, old(ast.count))
      ensures var r := if old(ast.Room()) == 0 then Fail(OUT_OF_NODE)
                       else ReadChain(Tail(old(Items())), Ctor(prim), old(ast.Room()) - 1);
              MadePlace(r, error, node, old(ast.count))
    {
      hide Lexing.Lexer.Stream, Lexing.Lexer.Valid, Ast.Valid, Proper, Tops, ReadChain;
      ghost var g := ast.cells;
      var tok;
      AstFacts();
      error, tok := Consume();
      error, node := NewLeaf(BuiltinNode(Constructor(prim)));
      if error != NONE { return; }
      ghost var h := ast.cells;
      SealedExtends(g, h, |g|);
      error, node := TryParseMemberChain(node, Ctor(prim), |g|);
      ExtendsTrans(g, h, ast.cells, |g|);
    }

    method ParseLiteral(l: Literal) returns (error: Error, node: nat)
      requires Valid() && Head(Items()) == Tok(LITERAL(l))
      modifies Frame()
      ensures Valid() && Extends(old(ast.cells), ast.cells, old(ast.count))
      ensures Items() == Tail(old(Items()))
      ensures error == NONE <==> old(ast.Room()) > 0
      ensures error == NONE ==> ast.Room() == old(ast.Room()) - 1
                                && Made(LayExpr(Lit(l), old(ast.count)), node, 1, old(ast.count))
      ensures error != NONE ==> error == OUT_OF_NODE
    {
      hide Lexing.Lexer.Stream, Lexing.Lexer.Valid, Ast.Valid, Proper, Tops;
      var tok;
      error, tok := Consume();
      error, node := NewLeaf(LiteralNode(l));
    }

    method ParsePrimary() returns (error: Error, node: nat)
      requires Valid()
      modifies Frame()
      ensures Valid() && Extends(old(ast.cells), ast.cells, old(ast.count))
      ensures MadeExpr(ReadPrimary(old(Items()), old(ast.Room())), error, node, old(ast.count))
      decreases |Items()|, 3
    {
      hide Lexing.Lexer.Stream, Lexing.Lexer.Valid, Ast.Valid, Proper, Shape, Forest, ReadPrimary, ReadAtom, IsUnop,
        IsBinop, Made;
      PrimaryIs(Items(), ast.Room());
      var tok;
      node := 0;
      AstFacts();
      error, tok := Peek();
      if error != NONE { return; }
      if tok == LPAREN {
        error, node := ParseParens();
      } else if IsUnop(tok) {
        error, node := ParseUnary(tok);
      } else if IsBinop(tok) {
        return UNEXPECTED_BINOP, 0;
      } else {
        error, node := ParseAtom();
      }
    }

    method ParseParens() returns (error: Error, node: nat)
      requires Valid() && Head(Items()) == Tok(LPAREN)
      modifies Frame()
      ensures Valid() && Extends(old(ast.cells), ast.cells, old(ast.count))
      ensures MadeExpr(ReadParens(Tail(old(Items())), old(ast.Room())), error, node, old(ast.count))
      decreases |Items()|, 0
    {
      hide Lexing.Lexer.Stream, Lexing.Lexer.Valid, Ast.Valid, Proper, Shape, Forest, ReadExpr, LayExpr, ExprNodes,
        Tops;
      ghost var r, lo := ReadExpr(Tail(Items()), 1, ast.Room()), ast.count;
      var tok;
      AstFacts();
      error, tok := Consume();
      error, node := ParseExpr(1);
      if error != NONE { return; }
      ParensLay(r.value, lo);
      error := ExpectToken(RPAREN);
    }

    method ParseUnary(tok: Token) returns (error: Error, node: nat)
      requires Valid() && IsUnop(tok) && Head(Items()) == Tok(tok)
      modifies Frame()
      ensures Valid() && Extends(old(ast.cells), ast.cells, old(ast.count))
      ensures MadeExpr(ReadUnary(tok, Tail(old(Items())), old(ast.Room())), error, node, old(ast.count))
      decreases |Items()|, 0
    {
      hide Lexing.Lexer.Stream, Lexing.Lexer.Valid, Ast.Valid, Proper, Shape, Forest, Within, ReadPrimary, Tops,
        UnopFromToken;
      ghost var g, r := ast.cells, ReadPrimary(Tail(Items()), ast.Room());
      var t, expr;
      node := 0;
      AstFacts();
      error, t := Consume();
      error, expr := ParsePrimary();
      if error != NONE { return; }
      ghost var h := ast.cells;
      ExprWithin(r.value, |g|);
      SealedExtends(g, h, |g|);
      AstFacts();
      error, node := NewOver(UnopNode(UnopFromToken(tok)), expr, LayExpr(r.value, |g|), |g|);
      ExtendsTrans(g, h, ast.cells, |g|);
      AstFacts();
    }

    method ParseExpr(min: nat) returns (error: Error, node: nat)
      requires Valid()
      modifies Frame()
      ensures Valid() && Extends(old(ast.cells), ast.cells, old(ast.count))
      ensures MadeExpr(ReadExpr(old(Items()), min, old(ast.Room())), error, node, old(ast.count))
      decreases |Items()|, 4
    {
      hide Lexing.Lexer.Stream, Lexing.Lexer.Valid, Ast.Valid, Proper, Shape, Forest, ReadPrimary, ReadExpr, Climb,
        LayExpr, ExprNodes, IsBinop, Precedence, NextMin, BinopFromToken, Tops;
      ghost var g, r, first := ast.cells, ReadExpr(Items(), min, ast.Room()), ReadPrimary(Items(), ast.Room());
      ReadExprIs(Items(), min, ast.Room());
      var lhs, tok;
      node := 0;
      AstFacts();
      error, lhs := ParsePrimary();
      if error != NONE { return; }
      ghost var x := first.value;
      while true
        invariant Valid() && Extends(g, ast.cells, |g|)
        invariant Made(LayExpr(x, |g|), lhs, ExprNodes(x), |g|)
        invariant Climb(Items(), min, x, ast.Room()) == r
        invariant |Items()| < |old(Items())|
        decreases |Items()|
      {
        ClimbIs(Items(), min, x, ast.Room());
        error, tok := Peek();
        if error != NONE { return; }
        if !IsBinop(tok) || Precedence(tok) < min { break; }
        ghost var h := ast.cells;
        SealedExtends(g, h, |g|);
        error, x, lhs := ParseOperation(tok, min, lhs, x, |g|);
        ExtendsTrans(g, h, ast.cells, |g|);
        if error != NONE { return; }
      }
      node := lhs;
    }

    /** One round of the climber: the operator, its right operand and their node. */
    method ParseOperation(tok: Token, min: nat, lhs: nat, ghost x: Expr, ghost lo: nat)
      returns (error: Error, ghost y: Expr, node: nat)
      requires Valid() && IsBinop(tok) && Head(Items()) == Tok(tok) && Precedence(tok) >= min
      requires 0 < lo && Sealed(ast.cells, lo) && Made(LayExpr(x, lo), lhs, ExprNodes(x), lo)
      modifies Frame()
      ensures Valid() && Extends(old(ast.cells), ast.cells, lo)
      ensures match ReadExpr(Tail(old(Items())), NextMin(tok), old(ast.Room()))
              case Fail(e) => error == e != NONE
              case Ok(rhs, s, room) =>
                if room == 0 then error == OUT_OF_NODE
                else error == NONE && y == Bin(BinopFromToken(tok), x, rhs) && Items() == s && ast.Room() == room - 1
                     && Made(LayExpr(y, lo), node, ExprNodes(y), lo)
      decreases |Items()|, 0
    {
      hide Lexing.Lexer.Stream, Lexing.Lexer.Valid, Ast.Valid, Proper, Within, ReadExpr, LayExpr, ExprNodes, NextMin,
        BinopFromToken, Tops, Precedence;
      ghost var g, s, room := ast.cells, Items(), ast.Room();
      var t, rhs;
      y, node := x, 0;
      AstFacts();
      ExprWithin(x, lo);
      error, t := Consume();
      var nextMin := if IsLeftAssociative(tok) then Precedence(tok) + 1 else Precedence(tok);
      NextMinIs(tok);
      error, rhs := ParseExpr(nextMin);
      ghost var h := ast.cells;
      ExtendsLower(g, h, |g|, lo);
      if error != NONE { return; }
      ghost var z := ReadExpr(s[1..], NextMin(tok), room).value;
      ExprWithin(z, |g|);
      TopsExtends(LayExpr(x, lo), g, h, lo, |g|);
      SealedExtends(g, h, lo);
      AstFacts();
      error, node := NewOverTwo(BinopNode(BinopFromToken(tok)), lhs, rhs, LayExpr(x, lo), LayExpr(z, |g|), lo, |g|);
      y := Bin(BinopFromToken(tok), x, z);
      BinLay(BinopFromToken(tok), x, z, lo);
      ExtendsTrans(g, h, ast.cells, lo);
      AstFacts();
    }

    // ----- statements

    /** An expression and a node over it. */
    method ParseExprUnder(v: Val) returns (error: Error, node: nat)
      requires Valid()
      modifies Frame()
      ensures Valid() && Extends(old(ast.cells), ast.cells, old(ast.count))
      ensures match ReadExpr(old(Items()), 0, old(ast.Room()))
              case Fail(e) => error == e != NONE
              case Ok(x, s, room) =>
                if room == 0 then error == OUT_OF_NODE
                else
                  var lo := old(ast.count);
                  error == NONE && Items() == s && ast.Room() == room - 1
                  && Made(Tree(lo + ExprNodes(x), v, [LayExpr(x, lo)]), node, ExprNodes(x) + 1, lo)
      decreases |Items()|, 5
    {
      hide Lexing.Lexer.Stream, Lexing.Lexer.Valid, Ast.Valid, Proper, Within, ReadExpr, LayExpr, ExprNodes, Tops;
      ghost var g, r := ast.cells, ReadExpr(Items(), 0, ast.Room());
      var expr;
      node := 0;
      AstFacts();
      error, expr := ParseExpr(0);
      if error != NONE { return; }
      ghost var h := ast.cells;
      ExprWithin(r.value, |g|);
      SealedExtends(g, h, |g|);
      AstFacts();
      error, node := NewOver(v, expr, LayExpr(r.value, |g|), |g|);
      ExtendsTrans(g, h, ast.cells, |g|);
      AstFacts();
    }

    /** `let`, the name, its type and the `=`. */
    method ParseLetHead() returns (error: Error, name: string, ty: Option<VarType>)
      requires Valid() && Head(Items()) == Tok(LET)
      modifies lexer, lexer.peeks
      ensures Valid() && (error == NONE ==> |Items()| < |old(Items())|)
      ensures match ReadLetHead(Tail(old(Items())), 0)
              case Fail(e) => error == e != NONE
              case Ok(h, s, _) => error == NONE && name == h.0 && ty == h.1 && Items() == s
    {
      hide Lexing.Lexer.Stream, Lexing.Lexer.Valid, Ast.Valid, Proper, TryReadType;
      ty := None;
      LetHeadRoom(Tail(Items()), ast.Room());
      error := ExpectToken(LET);
      error, name := ExpectIdentifier();
      if error != NONE { return; }
      TryTypeRoom(Items(), 0);
      error, ty := TryParseVarType();
      if error != NONE { return; }
      error := ExpectToken(ASSIGN);
    }

    method ParseVarDecl() returns (error: Error, node: nat)
      requires Valid() && Head(Items()) == Tok(LET)
      modifies Frame()
      ensures Valid() && Extends(old(ast.cells), ast.cells, old(ast.count))
      ensures MadeStmt(ReadLet(Tail(old(Items())), old(ast.Room())), error, node, old(ast.count))
      decreases |Items()|, 0
    {
      hide Lexing.Lexer.Stream, Lexing.Lexer.Valid, Ast.Valid, Proper, ReadExpr, ReadLetHead, LayExpr, ExprNodes, Tops;
      LetHeadRoom(Tail(Items()), ast.Room());
      var name, ty;
      node := 0;
      AstFacts();
      error, name, ty := ParseLetHead();
      if error != NONE { return; }
      error, node := ParseExprUnder(VarDeclNode(name, ty));
    }

    method ParseReturnStmt() returns (error: Error, node: nat)
      requires Valid() && Head(Items()) == Tok(RETURN)
      modifies Frame()
      ensures Valid() && Extends(old(ast.cells), ast.cells, old(ast.count))
      ensures match ReadExpr(Tail(old(Items())), 0, old(ast.Room()))
              case Fail(e) => error == e != NONE
              case Ok(x, s, room) =>
                if room == 0 then error == OUT_OF_NODE
                else error == NONE && Items() == s && ast.Room() == room - 1
                     && Made(LayStmt(Return(x), old(ast.count)), node, StmtNodes(Return(x)), old(ast.count))
      decreases |Items()|, 0
    {
      hide Lexing.Lexer.Stream, Lexing.Lexer.Valid, Ast.Valid, Proper, ReadExpr, LayExpr, ExprNodes, Tops;
      error := ExpectToken(RETURN);
      error, node := ParseExprUnder(ReturnNode);
    }

    method ParseAssignStmt(ident: nat, ghost p: Place, ghost lo: nat) returns (error: Error, node: nat)
      requires Valid() && 0 < lo && Sealed(ast.cells, lo) && Head(Items()) == Tok(ASSIGN)
      requires Made(LayPlace(p, lo), ident, PlaceNodes(p), lo)
      modifies Frame()
      ensures Valid() && Extends(old(ast.cells), ast.cells, lo)
      ensures match ReadExpr(Tail(old(Items())), 0, old(ast.Room()))
              case Fail(e) => error == e != NONE
              case Ok(x, s, room) =>
                if room == 0 then error == OUT_OF_NODE
                else error == NONE && Items() == s && ast.Room() == room - 1
                     && Made(LayStmt(Assign(p, x), lo), node, StmtNodes(Assign(p, x)), lo)
      decreases |Items()|, 0
    {
      hide Lexing.Lexer.Stream, Lexing.Lexer.Valid, Ast.Valid, Proper, Within, ReadExpr, LayExpr, LayPlace, ExprNodes,
        PlaceNodes, Tops;
      ghost var g, r := ast.cells, ReadExpr(Tail(Items()), 0, ast.Room());
      var expr;
      node := 0;
      AstFacts();
      PlaceWithin(p, lo);
      error := ExpectToken(ASSIGN);
      error, expr := ParseExpr(0);
      ghost var h := ast.cells;
      ExtendsLower(g, h, |g|, lo);
      if error != NONE { return; }
      ExprWithin(r.value, |g|);
      TopsExtends(LayPlace(p, lo), g, h, lo, |g|);
      SealedExtends(g, h, lo);
      AstFacts();
      error, node := NewOverTwo(AssignNode, ident, expr, LayPlace(p, lo), LayExpr(r.value, |g|), lo, |g|);
      ExtendsTrans(g, h, ast.cells, lo);
      AstFacts();
    }

    /** An assignment or a call. */
    method ParseSimpleStmt() returns (error: Error, node: nat)
      requires Valid() && Head(Items()).Tok? && Head(Items()).t.IDENTIFIER?
      modifies Frame()
      ensures Valid() && Extends(old(ast.cells), ast.cells, old(ast.count))
      ensures MadeStmt(ReadSimple(old(Items()), old(ast.Room())), error, node, old(ast.count))
      decreases |Items()|, 1
    {
      hide Lexing.Lexer.Stream, Lexing.Lexer.Valid, Ast.Valid, Proper, Made, ReadSimple, Sealed, Extends, ReadExpr,
        ReadPlace, ReadArgs, LayPlace, PlaceNodes, Tops, LayCall;
      ghost var g, r := ast.cells, ReadPlace(Items(), ast.Room());
      SimpleIs(Items(), ast.Room());
      var tok, ident;
      node := 0;
      AstFacts();
      SealedSelf(g, |g|);
      error, ident := ParsePlace();
      if error != NONE { return; }
      ghost var h := ast.cells;
      SealedExtends(g, h, |g|);
      error, tok := Peek();
      if error != NONE { return; }
      if tok == ASSIGN {
        error, node := ParseAssignStmt(ident, r.value, |g|);
      } else if tok == LPAREN {
        error, node := ParseCall(ident, r.value, |g|);
      } else {
        return IDENTIFIER_AS_STATEMENT, 0;
      }
      ExtendsTrans(g, h, ast.cells, |g|);
    }

    /** A construct that can take a body as its last child. */
    ghost predicate Open(t: Tree, lo: nat)
      reads ast
    {
      && Tops(t, ast.cells) && lo <= t.id < ast.count && 0 < lo
      && AllOutside(t.kids, t.id) && AllWithin(t.kids, lo, ast.count)
      && Sealed(ast.cells, lo)
    }

    /** The compound node of a body. */
    method AddCompound(owner: nat, ghost t: Tree, ghost lo: nat) returns (error: Error, body: nat)
      requires Valid() && Open(t, lo) && owner == t.id
      modifies ast, ast.nodes
      ensures Valid() && Extends(old(ast.cells), ast.cells, lo) && lexer.Stream() == old(lexer.Stream())
      ensures error == NONE <==> old(ast.Room()) > 0
      ensures error == NONE ==>
                && body == old(ast.count) && ast.count == body + 1
                && body < |ast.cells| && Tops(WithBody(t, body, []), ast.cells) && ast.cells[body].root == owner
      ensures error != NONE ==> error == OUT_OF_NODE
    {
      hide Lexing.Lexer.Stream, Lexing.Lexer.Valid, Ast.Valid, Shape, Forest, Attach, Alloc;
      ghost var g := ast.cells;
      AstFacts();
      error, body := NewNode(CompoundNode);
      if error != NONE { return; }
      StartBody(t, g, lo);
      ast.AppendChild(owner, body);
      AstFacts();
    }

    /** A body: its compound node, and statements up to the stop token. */
    method ParseBody(owner: nat, k: Stop, ghost t: Tree, ghost lo: nat) returns (error: Error)
      requires Valid() && Open(t, lo) && owner == t.id
      modifies Frame()
      ensures Valid() && Extends(old(ast.cells), ast.cells, lo)
      ensures match ReadBody(old(Items()), k, old(ast.Room()))
              case Fail(e) => error == e != NONE
              case Ok(b, s, room) =>
                error == NONE && Items() == s && ast.Room() == room
                && ast.count == old(ast.count) + 1 + BlockNodes(b)
                && Tops(WithBody(t, old(ast.count), LayBlock(b, old(ast.count) + 1)), ast.cells)
      decreases |Items()|, 4
    {
      hide Lexing.Lexer.Stream, Lexing.Lexer.Valid, Ast.Valid, Proper, Sealed, Extends, AllWithin, LayBlock, BlockNodes,
        ReadBlock, ReadStmt, Tops, AllOutside;
      ghost var g, r, n := ast.cells, ReadBody(Items(), k, ast.Room()), ast.count;
      var tok, body;
      ghost var done: seq<Stmt> := [];
      error, body := AddCompound(owner, t, lo);
      if error != NONE { return; }
      SealedExtends(g, ast.cells, lo);
      NoStmts(n + 1);
      while true
        invariant Valid() && Extends(g, ast.cells, lo) && Sealed(ast.cells, lo)
        invariant body == n && owner == t.id < n && 0 < lo <= owner && AllWithin(t.kids, lo, n)
        invariant BlockMade(t, n, done)
        invariant ReadBlock(Items(), k, done, ast.Room()) == r
        invariant |Items()| <= |old(Items())|
        decreases |Items()|
      {
        ghost var h := ast.cells;
        BlockIs(Items(), k, done, ast.Room());
        error, tok := Peek();
        if error != NONE { return; }
        if StopsAt(k, tok) { return; }
        error, done := ParseBodyStmt(body, t, done, lo);
        ExtendsTrans(g, h, ast.cells, lo);
        SealedExtends(h, ast.cells, lo);
        if error != NONE { return; }
      }
    }

    /** A body up to its `end`, and that `end`. */
    method ParseEndedBody(owner: nat, ghost t: Tree, ghost lo: nat) returns (error: Error)
      requires Valid() && Open(t, lo) && owner == t.id
      modifies Frame()
      ensures Valid() && Extends(old(ast.cells), ast.cells, lo)
      ensures match ReadBody(old(Items()), AtEnd, old(ast.Room()))
              case Fail(e) => error == e != NONE
              case Ok(b, s, room) =>
                error == NONE && Items() == Tail(s) && ast.Room() == room
                && ast.count == old(ast.count) + 1 + BlockNodes(b)
                && Tops(WithBody(t, old(ast.count), LayBlock(b, old(ast.count) + 1)), ast.cells)
      decreases |Items()|, 5
    {
      hide Lexing.Lexer.Stream, Lexing.Lexer.Valid, Ast.Valid, Proper, ReadBody, ReadBlock, LayBlock, BlockNodes,
        WithBody, Tops, Open, Sealed, Extends;
      error := ParseBody(owner, AtEnd, t, lo);
      if error != NONE { return; }
      error := ExpectToken(END);
    }

    /** The statements read so far hang under the body at `n`. */
    ghost predicate BlockMade(t: Tree, n: nat, done: seq<Stmt>)
      reads ast
    {
      && Tops(WithBody(t, n, LayBlock(done, n + 1)), ast.cells)
      && ast.count == n + 1 + BlockNodes(done) && n < |ast.cells| && ast.cells[n].root == t.id
    }

    /** One statement of a body. */
    method ParseBodyStmt(body: nat, ghost t: Tree, ghost done: seq<Stmt>, ghost lo: nat)
      returns (error: Error, ghost more: seq<Stmt>)
      requires Valid() && 0 < lo <= t.id < body && AllWithin(t.kids, lo, body)
      requires Sealed(ast.cells, lo) && BlockMade(t, body, done)
      modifies Frame()
      ensures Valid() && Extends(old(ast.cells), ast.cells, lo)
      ensures match ReadStmt(old(Items()), old(ast.Room()))
              case Fail(e) => error == e != NONE
              case Ok(st, s, room) =>
                error == NONE && Items() == s && ast.Room() == room && more == done + [st]
                && BlockMade(t, body, more)
      decreases |Items()|, 3
    {
      hide Lexing.Lexer.Stream, Lexing.Lexer.Valid, Ast.Valid, Proper, ReadStmt, Tops, Attach, Shape, Forest, LayStmt,
        LayBlock, BlockNodes, StmtNodes, Within;
      ghost var g, r := ast.cells, ReadStmt(Items(), ast.Room());
      var stmt;
      more := done;
      AstFacts();
      ghost var w := WithBody(t, body, LayBlock(done, body + 1));
      error, stmt := ParseStmt();
      ghost var h := ast.cells;
      ExtendsLower(g, h, |g|, lo);
      if error != NONE { return; }
      ghost var c := LayStmt(r.value, |g|);
      BodyWithin(t, body, done, lo);
      TopsExtends(w, g, h, lo, |g|);
      StmtWithin(r.value, |g|);
      StmtAbove(r.value, |g|);
      WithinOutside(c, |g|, |g| + StmtNodes(r.value), body);
      BlockWithin(done, body + 1);
      AllWithinOutside(LayBlock(done, body + 1), body + 1, |g|, body);
      AllWithinOutside(t.kids, lo, body, body);
      SealedExtends(g, h, lo);
      AstFacts();
      GrowBody(t, body, LayBlock(done, body + 1), c, h, lo);
      TopsInside(c, h);
      ast.AppendChild(body, stmt);
      more := done + [r.value];
      BlockSnoc(done, r.value, body + 1);
      ExtendsTrans(g, h, ast.cells, lo);
      AstFacts();
    }

    method ParseStmt() returns (error: Error, node: nat)
      requires Valid()
      modifies Frame()
      ensures Valid() && Extends(old(ast.cells), ast.cells, old(ast.count))
      ensures MadeStmt(ReadStmt(old(Items()), old(ast.Room())), error, node, old(ast.count))
      decreases |Items()|, 2
    {
      hide Lexing.Lexer.Stream, Lexing.Lexer.Valid, Ast.Valid, Proper, ReadExpr, ReadLet, ReadFun, ReadBranches,
        ReadWhile, ReadSimple, Tops, LayStmt, StmtNodes;
      var tok;
      node := 0;
      AstFacts();
      error, tok := Peek();
      if error != NONE { return; }
      match tok {
        case LET => error, node := ParseVarDecl();
        case EXPORT => error := UNDEFINED;
        case FUNCTION => error, node := ParseFunDecl();
        case RETURN => error, node := ParseReturnStmt();
        case IF => error, node := ParseIfStmt();
        case FOR => error := UNDEFINED;
        case WHILE => error, node := ParseWhileStmt();
        case BREAK => error := UNDEFINED;
        case CONTINUE => error := UNDEFINED;
        case IDENTIFIER(_) => error, node := ParseSimpleStmt();
        case _ => error := NON_STATEMENT_TOKEN;
      }
    }

    method ParseWhileStmt() returns (error: Error, node: nat)
      requires Valid() && Head(Items()) == Tok(WHILE)
      modifies Frame()
      ensures Valid() && Extends(old(ast.cells), ast.cells, old(ast.count))
      ensures MadeStmt(ReadWhile(Tail(old(Items())), old(ast.Room())), error, node, old(ast.count))
      decreases |Items()|, 0
    {
      hide Lexing.Lexer.Stream, Lexing.Lexer.Valid, Ast.Valid, Proper, ReadExpr, ReadWhileRest, LayExpr, ExprNodes,
        LayStmt, StmtNodes, Within, Tops;
      ghost var g, r := ast.cells, ReadExpr(Tail(Items()), 0, ast.Room());
      AstFacts();
      error := ExpectToken(WHILE);
      error, node := ParseExprUnder(WhileNode);
      if error != NONE { return; }
      ghost var h := ast.cells;
      SealedExtends(g, h, |g|);
      error := ParseWhileRest(node, r.value, |g|);
      ExtendsTrans(g, h, ast.cells, |g|);
    }

    /** `do`, the body and the `end`. */
    method ParseWhileRest(node: nat, ghost c: Expr, ghost lo: nat) returns (error: Error)
      requires Valid() && 0 < lo && Sealed(ast.cells, lo)
      requires Made(Tree(lo + ExprNodes(c), WhileNode, [LayExpr(c, lo)]), node, ExprNodes(c) + 1, lo)
      modifies Frame()
      ensures Valid() && Extends(old(ast.cells), ast.cells, lo)
      ensures MadeStmt(ReadWhileRest(old(Items()), c, old(ast.Room())), error, node, lo)
      decreases |Items()|, 6
    {
      hide Lexing.Lexer.Stream, Lexing.Lexer.Valid, Ast.Valid, Proper, ReadBody, ReadBlock, LayExpr, LayBlock,
        ExprNodes, BlockNodes, LayStmt, StmtNodes, Within, Outside, AllWithin, AllOutside, Tops, Shape, Forest, Attach,
        Alloc, Sealed, Extends, Open, ReadWhileRest;
      ghost var x := LayExpr(c, lo);
      SealedSelf(ast.cells, lo);
      WhileOpen(c, lo);
      WhileRestIs(Items(), c, ast.Room());
      error := ExpectToken(DO);
      if error != NONE { return; }
      ghost var b := ReadBody(Items(), AtEnd, ast.Room());
      error := ParseEndedBody(node, Tree(node, WhileNode, [x]), lo);
      if error == NONE { WhileLay(c, b.value, lo); }
    }

    method ParseIfStmt() returns (error: Error, node: nat)
      requires Valid() && Head(Items()) == Tok(IF)
      modifies Frame()
      ensures Valid() && Extends(old(ast.cells), ast.cells, old(ast.count))
      ensures var r := if old(ast.Room()) == 0 then Fail(OUT_OF_NODE)
                       else ReadBranches(Tail(old(Items())), [], old(ast.Room()) - 1);
              MadeStmt(r, error, node, old(ast.count))
      decreases |Items()|, 1
    {
      hide Lexing.Lexer.Stream, Lexing.Lexer.Valid, Ast.Valid, Proper, ReadBranches, LayBranches, LayStmt, StmtNodes,
        Tops;
      ghost var g := ast.cells;
      AstFacts();
      error := ExpectToken(IF);
      error, node := NewLeaf(IfNode);
      if error != NONE { return; }
      ghost var h := ast.cells;
      SealedExtends(g, h, |g|);
      NoBranches(|g| + 1);
      error := ParseBranches(node, |g|);
      ExtendsTrans(g, h, ast.cells, |g|);
    }

    /** The branches of an `if`, its `else` and its `end`. */
    method ParseBranches(node: nat, ghost lo: nat) returns (error: Error)
      requires Valid() && 0 < lo == node && Sealed(ast.cells, lo) && IfMade([], lo)
      modifies Frame()
      ensures Valid() && Extends(old(ast.cells), ast.cells, lo)
      ensures MadeStmt(ReadBranches(old(Items()), [], old(ast.Room())), error, node, lo)
      decreases |Items()|, 8
    {
      hide Lexing.Lexer.Stream, Lexing.Lexer.Valid, Ast.Valid, Proper, Sealed, Extends, ReadBranches, ReadBranch,
        ReadElse, LayBranches, BranchNodes, LayStmt, StmtNodes, Tops;
      ghost var g, r := ast.cells, ReadBranches(Items(), [], ast.Room());
      ghost var bs: seq<Branch> := [];
      var found := true;
      SealedSelf(g, lo);
      while found
        invariant Valid() && Extends(g, ast.cells, lo) && Sealed(ast.cells, lo) && IfMade(bs, lo)
        invariant r == (if found then ReadBranches(Items(), bs, ast.Room()) else ReadElse(Items(), bs, ast.Room()))
        invariant |Items()| <= |old(Items())|
        decreases found, |Items()|
      {
        ghost var h := ast.cells;
        BranchesAre(Items(), bs, ast.Room());
        error, bs := ParseBranch(node, bs, lo);
        ExtendsTrans(g, h, ast.cells, lo);
        SealedExtends(h, ast.cells, lo);
        if error != NONE { return; }
        error, found := Accept(ELIF);
        if error != NONE { return; }
      }
      ghost var h := ast.cells;
      error := ParseElse(node, bs, lo);
      ExtendsTrans(g, h, ast.cells, lo);
    }

    lemma {:induction false} IfOpen(bs: seq<Branch>, lo: nat)
      requires Valid() && 0 < lo && Sealed(ast.cells, lo) && IfMade(bs, lo)
      ensures Open(Tree(lo, IfNode, LayBranches(bs, lo + 1)), lo)
    {
      hide LayBranches, BranchNodes, Within, Outside, Tops;
      var t := Tree(lo, IfNode, LayBranches(bs, lo + 1));
      BranchesWithin(bs, lo + 1);
      AllWithinOutside(t.kids, lo + 1, ast.count, lo);
      AllWithinWider(t.kids, lo + 1, ast.count, lo, ast.count);
    }

    lemma {:induction false} FunOpen(v: Val, ps: seq<Param>, lo: nat)
      requires Valid() && 0 < lo && Sealed(ast.cells, lo) && FunMade(v, ps, lo)
      ensures Open(Tree(lo, v, LayParams(ps, lo + 1)), lo)
    {
      hide LayParams, Within, Outside, Tops;
      var t := Tree(lo, v, LayParams(ps, lo + 1));
      ParamsWithin(ps, lo + 1);
      AllWithinOutside(t.kids, lo + 1, ast.count, lo);
      AllWithinWider(t.kids, lo + 1, ast.count, lo, ast.count);
    }

    lemma {:induction false} WhileOpen(c: Expr, lo: nat)
      requires Valid() && 0 < lo && Sealed(ast.cells, lo)
      requires Made(Tree(lo + ExprNodes(c), WhileNode, [LayExpr(c, lo)]), lo + ExprNodes(c), ExprNodes(c) + 1, lo)
      ensures Open(Tree(lo + ExprNodes(c), WhileNode, [LayExpr(c, lo)]), lo)
    {
      hide LayExpr, ExprNodes, Within, Outside, Tops;
      var x, k := LayExpr(c, lo), lo + ExprNodes(c);
      ExprWithin(c, lo);
      WithinOutside(x, lo, k, k);
      WithinWider(x, lo, k, lo, k + 1);
    }

    /** The branches read so far hang under the `if` at `lo`. */
    ghost predicate IfMade(bs: seq<Branch>, lo: nat)
      reads ast
    {
      Tops(Tree(lo, IfNode, LayBranches(bs, lo + 1)), ast.cells) && ast.count == lo + 1 + BranchNodes(bs)
    }

    /** A condition, `then` and a body, under the `if`. */
    method ParseBranch(node: nat, ghost bs: seq<Branch>, ghost lo: nat) returns (error: Error, ghost more: seq<Branch>)
      requires Valid() && 0 < lo == node && Sealed(ast.cells, lo) && IfMade(bs, lo)
      modifies Frame()
      ensures Valid() && Extends(old(ast.cells), ast.cells, lo)
      ensures match ReadBranch(old(Items()), old(ast.Room()))
              case Fail(e) => error == e != NONE
              case Ok(x, s, room) =>
                error == NONE && Items() == s && ast.Room() == room && more == bs + [x] && IfMade(more, lo)
      decreases |Items()|, 7
    {
      hide Lexing.Lexer.Stream, Lexing.Lexer.Valid, Ast.Valid, Proper, ReadBranch, ReadGuard, ReadBody, ReadBlock,
        LayExpr, LayBlock, LayBranches, ExprNodes, BlockNodes, BranchNodes, Tops, Open, Sealed, Extends, StopsAt;
      ghost var g, r := ast.cells, ReadGuard(Items(), ast.Room());
      ghost var t := Tree(lo, IfNode, LayBranches(bs, lo + 1));
      more := bs;
      IfOpen(bs, lo);
      BranchIs(Items(), ast.Room());
      error := ParseGuard(node, t, lo);
      if error != NONE { return; }
      ghost var h := ast.cells;
      ghost var u := Tree(lo, IfNode, t.kids + [LayExpr(r.value, old(ast.count))]);
      ghost var b := ReadBody(Items(), AtBranch, ast.Room());
      error := ParseBody(node, AtBranch, u, lo);
      ExtendsTrans(g, h, ast.cells, lo);
      if error != NONE { return; }
      more := bs + [Branch(r.value, b.value)];
      BranchesSnoc(bs, Branch(r.value, b.value), lo + 1);
    }

    /** A condition and its `then`. */
    method ParseGuard(node: nat, ghost t: Tree, ghost lo: nat) returns (error: Error)
      requires Valid() && Open(t, lo) && node == t.id
      modifies Frame()
      ensures Valid() && Extends(old(ast.cells), ast.cells, lo)
      ensures match ReadGuard(old(Items()), old(ast.Room()))
              case Fail(e) => error == e != NONE
              case Ok(c, s, room) =>
                error == NONE && Items() == s && ast.Room() == room && |Items()| < |old(Items())|
                && ast.count == old(ast.count) + ExprNodes(c)
                && Open(Tree(t.id, t.val, t.kids + [LayExpr(c, old(ast.count))]), lo)
      decreases |Items()|, 6
    {
      hide Lexing.Lexer.Stream, Lexing.Lexer.Valid, Ast.Valid, Proper, ReadExpr, LayExpr, ExprNodes, Open, Sealed,
        Extends;
      error := ParseCondition(node, t, lo);
      if error != NONE { return; }
      error := ExpectToken(THEN);
    }

    /** An expression under a construct. */
    method ParseCondition(node: nat, ghost t: Tree, ghost lo: nat) returns (error: Error)
      requires Valid() && Open(t, lo) && node == t.id
      modifies Frame()
      ensures Valid() && Extends(old(ast.cells), ast.cells, lo)
      ensures match ReadExpr(old(Items()), 0, old(ast.Room()))
              case Fail(e) => error == e != NONE
              case Ok(c, s, room) =>
                error == NONE && Items() == s && ast.Room() == room
                && ast.count == old(ast.count) + ExprNodes(c)
                && Open(Tree(t.id, t.val, t.kids + [LayExpr(c, old(ast.count))]), lo)
      decreases |Items()|, 5
    {
      hide Lexing.Lexer.Stream, Lexing.Lexer.Valid, Ast.Valid, Proper, ReadExpr, LayExpr, ExprNodes, Within, Outside,
        Tops, Attach, Forest;
      ghost var g, r := ast.cells, ReadExpr(Items(), 0, ast.Room());
      var condition;
      AstFacts();
      error, condition := ParseExpr(0);
      ghost var h := ast.cells;
      ExtendsLower(g, h, |g|, lo);
      if error != NONE { return; }
      ghost var c := LayExpr(r.value, |g|);
      OpenWithin(t, lo, |g|);
      TopsExtends(t, g, h, lo, |g|);
      ExprWithin(r.value, |g|);
      ArgAbove(r.value, |g|);
      WithinOutside(c, |g|, |g| + ExprNodes(r.value), t.id);
      SealedExtends(g, h, lo);
      AstFacts();
      TopsInside(c, h);
      Adopt(t, c, h, lo);
      ast.AppendChild(node, condition);
      ExtendsTrans(g, h, ast.cells, lo);
      SealedExtends(h, ast.cells, lo);
      AstFacts();
      AllWithinWider(t.kids, lo, |g|, lo, ast.count);
      WithinWider(c, |g|, ast.count, lo, ast.count);
    }

    /** The `else` body if there is one, and the `end`. */
    method ParseElse(node: nat, ghost bs: seq<Branch>, ghost lo: nat) returns (error: Error)
      requires Valid() && 0 < lo == node && Sealed(ast.cells, lo) && IfMade(bs, lo)
      modifies Frame()
      ensures Valid() && Extends(old(ast.cells), ast.cells, lo)
      ensures MadeStmt(ReadElse(old(Items()), bs, old(ast.Room())), error, node, lo)
      decreases |Items()|, 6
    {
      hide Lexing.Lexer.Stream, Lexing.Lexer.Valid, Ast.Valid, Proper, ReadElse, ReadOtherwise, LayStmt, StmtNodes,
        IfMade, Made, Sealed, Extends;
      ElseIs(Items(), bs, ast.Room());
      error := ParseOtherwise(node, bs, lo);
      if error != NONE { return; }
      error := ExpectToken(END);
    }

    method ParseOtherwise(node: nat, ghost bs: seq<Branch>, ghost lo: nat) returns (error: Error)
      requires Valid() && 0 < lo == node && Sealed(ast.cells, lo) && IfMade(bs, lo)
      modifies Frame()
      ensures Valid() && Extends(old(ast.cells), ast.cells, lo)
      ensures match ReadOtherwise(old(Items()), old(ast.Room()))
              case Fail(e) => error == e != NONE
              case Ok(els, s, room) =>
                var x := If(bs, els);
                error == NONE && Items() == s && ast.Room() == room && Made(LayStmt(x, lo), node, StmtNodes(x), lo)
      decreases |Items()|, 5
    {
      hide Lexing.Lexer.Stream, Lexing.Lexer.Valid, Ast.Valid, Proper, ReadBody, LayStmt, StmtNodes, IfMade, Made,
        Sealed, Extends;
      SealedSelf(ast.cells, lo);
      NoElseMade(bs, lo);
      var found;
      error, found := Accept(ELSE);
      if error == NONE && found { error := ParseElseBody(node, bs, lo); }
    }

    lemma {:induction false} NoElseMade(bs: seq<Branch>, lo: nat)
      requires IfMade(bs, lo)
      ensures Made(LayStmt(If(bs, NoElse), lo), lo, StmtNodes(If(bs, NoElse)), lo)
    {
      hide LayBranches, BranchNodes, Tops;
      IfLay(bs, NoElse, lo);
    }

    method ParseElseBody(node: nat, ghost bs: seq<Branch>, ghost lo: nat) returns (error: Error)
      requires Valid() && 0 < lo == node && Sealed(ast.cells, lo) && IfMade(bs, lo)
      modifies Frame()
      ensures Valid() && Extends(old(ast.cells), ast.cells, lo)
      ensures match ReadBody(old(Items()), AtBranch, old(ast.Room()))
              case Fail(e) => error == e != NONE
              case Ok(b, s, room) =>
                var x := If(bs, Else(b));
                error == NONE && Items() == s && ast.Room() == room && Made(LayStmt(x, lo), node, StmtNodes(x), lo)
      decreases |Items()|, 5
    {
      hide Lexing.Lexer.Stream, Lexing.Lexer.Valid, Ast.Valid, Proper, ReadBody, ReadBlock, LayBlock, LayBranches,
        BlockNodes, BranchNodes, LayStmt, StmtNodes, Tops, Open, Sealed, Extends;
      IfOpen(bs, lo);
      ghost var b := ReadBody(Items(), AtBranch, ast.Room());
      error := ParseBody(node, AtBranch, Tree(lo, IfNode, LayBranches(bs, lo + 1)), lo);
      if error == NONE { IfLay(bs, Else(b.value), lo); }
    }

    /** The parameters read so far hang under the function at `lo`. */
    ghost predicate FunMade(v: Val, ps: seq<Param>, lo: nat)
      reads ast
    {
      Tops(Tree(lo, v, LayParams(ps, lo + 1)), ast.cells) && ast.count == lo + 1 + |ps|
    }

    method ParseFunDecl() returns (error: Error, node: nat)
      requires Valid() && Head(Items()) == Tok(FUNCTION)
      modifies Frame()
      ensures Valid() && Extends(old(ast.cells), ast.cells, old(ast.count))
      ensures MadeStmt(ReadFun(Tail(old(Items())), old(ast.Room())), error, node, old(ast.count))
      decreases |Items()|, 1
    {
      hide Lexing.Lexer.Stream, Lexing.Lexer.Valid, Ast.Valid, Proper, Sealed, Extends, ReadFunSignature, LayParams,
        LayStmt, StmtNodes, Tops;
      ghost var g := ast.cells;
      var name;
      node := 0;
      AstFacts();
      SealedSelf(g, |g|);
      error := ExpectToken(FUNCTION);
      error, name := ExpectIdentifier();
      if error != NONE { return; }
      error, node := NewLeaf(FunDeclNode(name, None, false));
      if error != NONE { return; }
      ghost var h := ast.cells;
      NoParams(|g| + 1);
      SealedExtends(g, h, |g|);
      error := ParseFunSignature(node, name, |g|);
      ExtendsTrans(g, h, ast.cells, |g|);
    }

    /** The parameters, and the rest of the function. */
    method ParseFunSignature(node: nat, name: string, ghost lo: nat) returns (error: Error)
      requires Valid() && 0 < lo == node && Sealed(ast.cells, lo) && FunMade(FunDeclNode(name, None, false), [], lo)
      modifies Frame()
      ensures Valid() && Extends(old(ast.cells), ast.cells, lo)
      ensures MadeStmt(ReadFunSignature(old(Items()), name, old(ast.Room())), error, node, lo)
      decreases |Items()|, 6
    {
      hide Lexing.Lexer.Stream, Lexing.Lexer.Valid, Ast.Valid, Proper, ReadParams, ReadFunRest, LayStmt, StmtNodes,
        Tops;
      ghost var g := ast.cells;
      error := ExpectToken(LPAREN);
      if error != NONE { return; }
      ghost var ps := ReadParams(Items(), ast.Room());
      error := ParseParams(node, FunDeclNode(name, None, false), lo);
      if error != NONE { return; }
      ghost var h := ast.cells;
      SealedExtends(g, h, lo);
      error := ParseFunRest(node, name, ps.value, lo);
      ExtendsTrans(g, h, ast.cells, lo);
    }

    /** The return type, the body and the `end`. */
    method ParseFunRest(node: nat, name: string, ghost ps: seq<Param>, ghost lo: nat) returns (error: Error)
      requires Valid() && 0 < lo == node && Sealed(ast.cells, lo) && FunMade(FunDeclNode(name, None, false), ps, lo)
      modifies Frame()
      ensures Valid() && Extends(old(ast.cells), ast.cells, lo)
      ensures MadeStmt(ReadFunRest(old(Items()), name, ps, old(ast.Room())), error, node, lo)
      decreases |Items()|, 6
    {
      hide Lexing.Lexer.Stream, Lexing.Lexer.Valid, Ast.Valid, Proper, ReadBody, ReadBlock, TryReadType, LayBlock,
        LayParams, BlockNodes, LayStmt, StmtNodes, AllWithin, AllOutside, Tops, Shape, Forest, Attach, Alloc;
      ghost var g := ast.cells;
      var ty;
      TryTypeRoom(Items(), ast.Room());
      error, ty := TryParseVarType();
      if error != NONE { return; }
      SetReturnType(node, name, ty, ps, lo);
      ghost var h, t := ast.cells, Tree(lo, FunDeclNode(name, ty, false), LayParams(ps, lo + 1));
      SealedExtends(g, h, lo);
      FunOpen(FunDeclNode(name, ty, false), ps, lo);
      ghost var b := ReadBody(Items(), AtEnd, ast.Room());
      error := ParseEndedBody(node, t, lo);
      ExtendsTrans(g, h, ast.cells, lo);
      if error == NONE { FunLay(name, ps, ty, b.value, lo); }
    }

    method SetReturnType(node: nat, name: string, ty: Option<VarType>, ghost ps: seq<Param>, ghost lo: nat)
      requires Valid() && 0 < lo == node && FunMade(FunDeclNode(name, None, false), ps, lo)
      modifies ast, ast.nodes
      ensures Valid() && Extends(old(ast.cells), ast.cells, lo)
      ensures lexer.Stream() == old(lexer.Stream()) && ast.Room() == old(ast.Room())
      ensures FunMade(FunDeclNode(name, ty, false), ps, lo)
    {
      hide Lexing.Lexer.Stream, Lexing.Lexer.Valid, Ast.Valid, Proper, LayParams, Within, Outside, Tops;
      ghost var t := Tree(lo, FunDeclNode(name, None, false), LayParams(ps, lo + 1));
      AstFacts();
      ParamsWithin(ps, lo + 1);
      AllWithinOutside(t.kids, lo + 1, lo + 1 + |ps|, lo);
      if ty.Some? {
        TopsSetVal(t, FunDeclNode(name, ty, false), ast.cells, lo);
        ast.SetValue(node, FunDeclNode(name, ty, false));
        AstFacts();
      }
    }

    /** The parameter list up to and with its `)`. */
    method ParseParams(node: nat, ghost v: Val, ghost lo: nat) returns (error: Error)
      requires Valid() && 0 < lo == node && Sealed(ast.cells, lo) && FunMade(v, [], lo)
      modifies Frame()
      ensures Valid() && Extends(old(ast.cells), ast.cells, lo)
      ensures match ReadParams(old(Items()), old(ast.Room()))
              case Fail(e) => error == e != NONE
              case Ok(ps, s, room) =>
                error == NONE && Items() == s && ast.Room() == room && FunMade(v, ps, lo)
    {
      hide Lexing.Lexer.Stream, Lexing.Lexer.Valid, Ast.Valid, Proper, ReadParam, ReadMoreParams, FunMade, Sealed,
        Extends;
      ghost var g, r := ast.cells, ReadParams(Items(), ast.Room());
      SealedSelf(g, lo);
      var tok;
      error, tok := Peek();
      if error != NONE { return; }
      if tok != RPAREN {
        ghost var ps: seq<Param> := [];
        var found := true;
        while found
          invariant Valid() && Extends(g, ast.cells, lo) && Sealed(ast.cells, lo) && FunMade(v, ps, lo)
          invariant found ==> ReadMoreParams(Items(), ps, ast.Room()) == r
          invariant !found ==> Head(Items()).Tok? && r == (if Head(Items()).t == RPAREN
                                 then Ok(ps, Tail(Items()), ast.Room()) else Fail(UNEXPECTED_TOKEN))
          decreases found, |Items()|
        {
          ghost var h := ast.cells;
          error, found, ps := ParseParamComma(node, v, ps, lo);
          ExtendsTrans(g, h, ast.cells, lo);
          SealedExtends(h, ast.cells, lo);
          if error != NONE { return; }
        }
      }
      error := ExpectToken(RPAREN);
    }

    /** One parameter, and the comma after it if there is one. */
    method ParseParamComma(node: nat, ghost v: Val, ghost ps: seq<Param>, ghost lo: nat)
      returns (error: Error, found: bool, ghost more: seq<Param>)
      requires Valid() && 0 < lo == node && Sealed(ast.cells, lo) && FunMade(v, ps, lo)
      modifies Frame()
      ensures Valid() && Extends(old(ast.cells), ast.cells, lo)
      ensures var r := ReadMoreParams(old(Items()), ps, old(ast.Room()));
              if error != NONE then r == Fail(error)
              else
                && FunMade(v, more, lo)
                && (found ==> |Items()| < |old(Items())| && r == ReadMoreParams(Items(), more, ast.Room()))
                && (!found ==> Head(Items()).Tok? && r == (if Head(Items()).t == RPAREN
                       then Ok(more, Tail(Items()), ast.Room()) else Fail(UNEXPECTED_TOKEN)))
    {
      hide Lexing.Lexer.Stream, Lexing.Lexer.Valid, Ast.Valid, Proper, ReadParam, ReadMoreParams, FunMade, Sealed,
        Extends;
      MoreParamsAre(Items(), ps, ast.Room());
      found := false;
      error, more := ParseParam(node, v, ps, lo);
      if error != NONE { return; }
      error, found := Accept(COMMA);
    }

    method ParseParam(node: nat, ghost v: Val, ghost ps: seq<Param>, ghost lo: nat)
      returns (error: Error, ghost more: seq<Param>)
      requires Valid() && 0 < lo == node && Sealed(ast.cells, lo) && FunMade(v, ps, lo)
      modifies Frame()
      ensures Valid() && Extends(old(ast.cells), ast.cells, lo)
      ensures match ReadParam(old(Items()), old(ast.Room()))
              case Fail(e) => error == e != NONE
              case Ok(p, s, room) =>
                error == NONE && Items() == s && ast.Room() == room && more == ps + [p] && FunMade(v, more, lo)
    {
      hide Lexing.Lexer.Stream, Lexing.Lexer.Valid, Ast.Valid, Proper, ReadType, Tops, FunMade, Sealed, Extends, Shape,
        Forest;
      var name, ty;
      more := ps;
      SealedSelf(ast.cells, lo);
      error, name := ExpectIdentifier();
      if error != NONE { return; }
      TypeRoom(Items(), ast.Room());
      error, ty := ParseVarType();
      if error != NONE { return; }
      error := AddParam(node, Param(name, ty), v, ps, lo);
      more := ps + [Param(name, ty)];
    }

    method AddParam(node: nat, p: Param, ghost v: Val, ghost ps: seq<Param>, ghost lo: nat) returns (error: Error)
      requires Valid() && 0 < lo == node && Sealed(ast.cells, lo) && FunMade(v, ps, lo)
      modifies ast, ast.nodes
      ensures Valid() && Extends(old(ast.cells), ast.cells, lo) && lexer.Stream() == old(lexer.Stream())
      ensures error == NONE <==> old(ast.Room()) > 0
      ensures error == NONE ==> ast.Room() == old(ast.Room()) - 1 && FunMade(v, ps + [p], lo)
      ensures error != NONE ==> error == OUT_OF_NODE
    {
      hide Lexing.Lexer.Stream, Lexing.Lexer.Valid, Ast.Valid, Proper, LayParams, Within, Tops, Attach, Forest;
      ghost var g, t := ast.cells, Tree(lo, v, LayParams(ps, lo + 1));
      var arg;
      AstFacts();
      error, arg := NewLeaf(ArgDeclNode(p.name, p.ty));
      ghost var h := ast.cells;
      if error != NONE { return; }
      ParamsWithin(ps, lo + 1);
      AllWithinWider(t.kids, lo + 1, |g|, lo, |g|);
      OpenWithin(t, lo, |g|);
      AllWithinOutside(t.kids, lo + 1, |g|, lo);
      TopsExtends(t, g, h, lo, |g|);
      SealedExtends(g, h, lo);
      AstFacts();
      Adopt(t, Tree(arg, ArgDeclNode(p.name, p.ty), []), h, lo);
      ast.AppendChild(node, arg);
      ParamsSnoc(ps, p, lo + 1);
      ExtendsTrans(g, h, ast.cells, lo);
      AstFacts();
    }

    /** `nulang__parse` on a cleared arena. */
    method ParseModule() returns (error: Error)
      requires Valid() && ast.cells == [Cell(ModuleNode, NULL_ID, 0, [], 0, 0)]
      modifies Frame()
      ensures Valid()
      ensures match ReadModule(old(Items()), old(ast.Room()))
              case Fail(e) => error == e != NONE
              case Ok(b, s, room) =>
                error == NONE && Items() == s && ast.Room() == room
                && ast.count == 1 + BlockNodes(b) && Shape(LayModule(b), ast.cells)
    {
      hide Lexing.Lexer.Stream, Lexing.Lexer.Valid, Ast.Valid, Proper, Forest, ReadBlock, LayModule, BlockNodes, Shape;
      AstFacts();
      var tok;
      error, tok := Peek();
      if error != NONE { return; }
      if tok == IMPORT || tok == FROM { return UNDEFINED; }
      error := ParseModuleStmts();
      if error != NONE { return; }
      error := ExpectToken(EOF);
    }

    /** The statements of the module. */
    method ParseModuleStmts() returns (error: Error)
      requires Valid() && ast.cells == [Cell(ModuleNode, NULL_ID, 0, [], 0, 0)]
      modifies Frame()
      ensures Valid()
      ensures match ReadBlock(old(Items()), AtEof, [], old(ast.Room()))
              case Fail(e) => error == e != NONE
              case Ok(b, s, room) =>
                error == NONE && Items() == s && ast.Room() == room
                && ast.count == 1 + BlockNodes(b) && Shape(LayModule(b), ast.cells)
    {
      hide Lexing.Lexer.Stream, Lexing.Lexer.Valid, Ast.Valid, Proper, Forest, ReadBlock, ReadStmt, LayModule,
        BlockNodes, Shape;
      AstFacts();
      EmptyModule(ast.cells);
      ghost var r := ReadBlock(Items(), AtEof, [], ast.Room());
      ghost var done: seq<Stmt> := [];
      var tok;
      while true
        invariant Valid() && Shape(LayModule(done), ast.cells) && ast.count == 1 + BlockNodes(done)
        invariant |ast.cells| > 0 && ast.cells[0].parent == NULL_ID
        invariant ReadBlock(Items(), AtEof, done, ast.Room()) == r
        decreases |Items()|
      {
        BlockIs(Items(), AtEof, done, ast.Room());
        error, tok := Peek();
        if error != NONE { return; }
        if tok == EOF { return; }
        error, done := ParseModuleStmt(done);
        if error != NONE { return; }
        AstFacts();
      }
    }

    /** One statement of the module. */
    method ParseModuleStmt(ghost done: seq<Stmt>) returns (error: Error, ghost more: seq<Stmt>)
      requires Valid() && Shape(LayModule(done), ast.cells) && ast.count == 1 + BlockNodes(done)
      requires ast.cells[0].parent == NULL_ID
      modifies Frame()
      ensures Valid() && ast.cells[0].parent == NULL_ID
      ensures match ReadStmt(old(Items()), old(ast.Room()))
              case Fail(e) => error == e != NONE
              case Ok(st, s, room) =>
                error == NONE && Items() == s && ast.Room() == room && more == done + [st]
                && ast.count == 1 + BlockNodes(more) && Shape(LayModule(more), ast.cells)
    {
      hide Lexing.Lexer.Stream, Lexing.Lexer.Valid, Ast.Valid, Proper, ReadStmt, Attach, LayStmt, LayBlock, BlockNodes,
        StmtNodes, Within, Outside, Shape;
      ghost var g, r := ast.cells, ReadStmt(Items(), ast.Room());
      var stmt;
      more := done;
      AstFacts();
      error, stmt := ParseStmt();
      ghost var h := ast.cells;
      if error != NONE { return; }
      ghost var c := LayStmt(r.value, |g|);
      StmtWithin(r.value, |g|);
      StmtAbove(r.value, |g|);
      WithinOutside(c, |g|, |g| + StmtNodes(r.value), 0);
      ModuleWithin(done);
      ShapeExtends(LayModule(done), g, h, 0, |g|);
      AstFacts();
      ModuleCanAttach(h, c);
      ShapeGrow(LayModule(done), c, h);
      ast.AppendChild(ast.root, stmt);
      more := done + [r.value];
      BlockSnoc(done, r.value, 1);
      AstFacts();
      AttachRootStays(h, c.id);
    }
  }

  lemma {:induction false} PlaceTop(p: Place, lo: nat)
    ensures LayPlace(p, lo).val == (match p
              case Sym(n) => SymRefNode(n, NULL_ID)
              case Member(_, n) => MemberNode(n)
              case Ctor(t) => BuiltinNode(Constructor(t))
              case Builtin(f) => BuiltinNode(Function(f)))
    ensures !p.Member? ==> PlaceNodes(p) == 1
  {
  }

  lemma {:induction false} MemberTop(p: Place, n: string, lo: nat)
    ensures LayPlace(Member(p, n), lo) == Tree(lo + PlaceNodes(p), MemberNode(n), [LayPlace(p, lo)])
    ensures PlaceNodes(Member(p, n)) == PlaceNodes(p) + 1
  {
  }

  lemma {:induction false} TopsVal(t: Tree, g: seq<Cell>)
    requires Tops(t, g)
    ensures t.id < |g| && g[t.id].val == t.val
  {
  }

  /** A constructor node becomes a builtin function in place. */
  lemma {:induction false} Promote(p: Place, f: BuiltinFunction, g: seq<Cell>, lo: nat)
    requires p.Ctor? && Tops(LayPlace(p, lo), g)
    ensures lo < |g|
    ensures var h := SetVal(g, lo, BuiltinNode(Function(f)));
            Tops(LayPlace(Builtin(f), lo), h) && Extends(g, h, lo)
    ensures LayPlace(p, lo).id == LayPlace(Builtin(f), lo).id == lo && PlaceNodes(p) == PlaceNodes(Builtin(f)) == 1
  {
  }

  /** The room only decides whether the node after the name can be had. */
  lemma {:induction false} ArchetypeRoom(s: seq<Item>, room: nat)
    ensures ReadArchetype(s, room)
         == (match ReadArchetype(s, 1)
             case Fail(e) => Fail(e)
             case Ok(n, s1, _) => if room == 0 then Fail(OUT_OF_NODE) else Ok(n, s1, room - 1))
  {
  }

  lemma {:induction false} ParensLay(x: Expr, lo: nat)
    ensures LayExpr(Paren(x), lo) == LayExpr(x, lo) && ExprNodes(Paren(x)) == ExprNodes(x)
  {
  }

  lemma {:induction false} NextMinIs(t: Token)
    ensures NextMin(t) == (if IsLeftAssociative(t) then Precedence(t) + 1 else Precedence(t))
  {
  }

  lemma {:induction false} BinLay(op: Binop, x: Expr, z: Expr, lo: nat)
    ensures LayExpr(Bin(op, x, z), lo)
         == Tree(lo + ExprNodes(x) + ExprNodes(z), BinopNode(op), [LayExpr(x, lo), LayExpr(z, lo + ExprNodes(x))])
    ensures ExprNodes(Bin(op, x, z)) == ExprNodes(x) + ExprNodes(z) + 1
  {
  }

  lemma {:induction false} CallStart(p: Place, lo: nat)
    ensures LayCall(p, [], lo) == Tree(lo + PlaceNodes(p), CallNode, [LayPlace(p, lo)])
    ensures ArgNodes([]) == 0
  {
    assert [LayPlace(p, lo)] + [] == [LayPlace(p, lo)];
  }

  lemma {:induction false} CallSnoc(p: Place, args: seq<Expr>, a: Expr, lo: nat)
    ensures ArgNodes(args + [a]) == ArgNodes(args) + ExprNodes(a)
    ensures var t := LayCall(p, args, lo);
            LayCall(p, args + [a], lo) ==
            Tree(t.id, t.val, t.kids + [LayExpr(a, lo + PlaceNodes(p) + 1 + ArgNodes(args))])
  {
    hide LayExpr, LayPlace, PlaceNodes, ArgNodes;
    ArgNodesSnoc(args, a);
    assert (args + [a])[..|args|] == args;
    assert [LayPlace(p, lo)]
           + (LayArgs(args, lo + PlaceNodes(p) + 1) + [LayExpr(a, lo + PlaceNodes(p) + 1 + ArgNodes(args))])
        == LayCall(p, args, lo).kids + [LayExpr(a, lo + PlaceNodes(p) + 1 + ArgNodes(args))];
  }

  lemma {:induction false} CallOutside(p: Place, args: seq<Expr>, lo: nat)
    ensures AllOutside(LayCall(p, args, lo).kids, lo + PlaceNodes(p))
  {
    hide LayPlace, LayArgs, PlaceNodes, ArgNodes, Within;
    var k := lo + PlaceNodes(p);
    PlaceWithin(p, lo);
    WithinOutside(LayPlace(p, lo), lo, k, k);
    ArgsWithin(args, k + 1);
    AllWithinOutside(LayArgs(args, k + 1), k + 1, k + 1 + ArgNodes(args), k);
  }

  lemma {:induction false} CallWithin(p: Place, args: seq<Expr>, lo: nat)
    ensures Within(LayCall(p, args, lo), lo, lo + PlaceNodes(p) + 1 + ArgNodes(args))
  {
    hide LayCall, PlaceNodes, ArgNodes, Within, Ids, Range;
    CallIds(p, args, lo);
    RangeWithin(LayCall(p, args, lo), lo, lo + PlaceNodes(p) + 1 + ArgNodes(args));
  }

  lemma {:induction false} ArgAbove(e: Expr, lo: nat)
    ensures LayExpr(e, lo).id >= lo
  {
    ExprWithin(e, lo);
  }

  lemma {:induction false} LetHeadRoom(s: seq<Item>, room: nat)
    ensures ReadLetHead(s, room) == (match ReadLetHead(s, 0)
              case Fail(e) => Fail(e)
              case Ok(h, s1, _) => Ok(h, s1, room))
  {
    hide TryReadType;
    var n := ExpectName(s, room);
    if n.Ok? { TryTypeRoom(n.rest, room); }
  }

  lemma {:induction false} TryTypeRoom(s: seq<Item>, room: nat)
    ensures TryReadType(s, room) == (match TryReadType(s, 0)
              case Fail(e) => Fail(e)
              case Ok(ty, s1, _) => Ok(ty, s1, room))
  {
  }

  lemma {:induction false} NoStmts(lo: nat)
    ensures LayBlock([], lo) == [] && BlockNodes([]) == 0
  {
  }

  lemma {:induction false} NoBranches(lo: nat)
    ensures LayBranches([], lo) == [] && BranchNodes([]) == 0
  {
  }

  lemma {:induction false} BodyWithin(t: Tree, n: nat, done: seq<Stmt>, lo: nat)
    requires lo <= t.id < n && AllWithin(t.kids, lo, n)
    ensures Within(WithBody(t, n, LayBlock(done, n + 1)), lo, n + 1 + BlockNodes(done))
  {
    hide LayBlock, BlockNodes;
    var hi := n + 1 + BlockNodes(done);
    BlockWithin(done, n + 1);
    AllWithinWider(t.kids, lo, n, lo, hi);
    AllWithinWider(LayBlock(done, n + 1), n + 1, hi, lo, hi);
    var b := Tree(n, CompoundNode, LayBlock(done, n + 1));
    assert Within(b, lo, hi);
    var w := WithBody(t, n, LayBlock(done, n + 1));
    forall k | 0 <= k < |w.kids| ensures Within(w.kids[k], lo, hi) {
      if k < |t.kids| { assert w.kids[k] == t.kids[k]; } else { assert w.kids[k] == b; }
    }
  }

  lemma {:induction false} StmtAbove(st: Stmt, lo: nat)
    ensures LayStmt(st, lo).id >= lo && StmtNodes(st) > 0
  {
    StmtWithin(st, lo);
  }

  lemma {:induction false} BlockSnoc(done: seq<Stmt>, st: Stmt, lo: nat)
    ensures LayBlock(done + [st], lo) == LayBlock(done, lo) + [LayStmt(st, lo + BlockNodes(done))]
    ensures BlockNodes(done + [st]) == BlockNodes(done) + StmtNodes(st)
  {
    hide LayStmt, StmtNodes;
    BlockNodesSnoc(done, st);
    assert (done + [st])[..|done|] == done;
  }

  lemma {:induction false} BranchesSnoc(bs: seq<Branch>, x: Branch, lo: nat)
    ensures var m := lo + BranchNodes(bs);
            LayBranches(bs + [x], lo)
            == LayBranches(bs, lo) + [LayExpr(x.cond, m)]
               + [Tree(m + ExprNodes(x.cond), CompoundNode, LayBlock(x.body, m + ExprNodes(x.cond) + 1))]
    ensures BranchNodes(bs + [x]) == BranchNodes(bs) + ExprNodes(x.cond) + 1 + BlockNodes(x.body)
  {
    hide LayExpr, LayBlock, ExprNodes, BlockNodes;
    BranchNodesSnoc(bs, x);
    assert (bs + [x])[..|bs|] == bs;
  }

  lemma {:induction false} BranchesWithin(bs: seq<Branch>, lo: nat)
    ensures AllWithin(LayBranches(bs, lo), lo, lo + BranchNodes(bs))
  {
    hide AllIds, Range, LayBranches, BranchNodes;
    BranchIds(bs, lo);
    ListWithin(LayBranches(bs, lo), lo, lo + BranchNodes(bs));
  }

  lemma {:induction false} OpenWithin(t: Tree, lo: nat, hi: nat)
    requires lo <= t.id < hi && AllWithin(t.kids, lo, hi)
    ensures Within(t, lo, hi)
  {
  }

  lemma {:induction false} WhileLay(c: Expr, b: seq<Stmt>, lo: nat)
    ensures var k := lo + ExprNodes(c);
            LayStmt(While(c, b), lo) == WithBody(Tree(k, WhileNode, [LayExpr(c, lo)]), k + 1, LayBlock(b, k + 2))
    ensures StmtNodes(While(c, b)) == ExprNodes(c) + 2 + BlockNodes(b)
  {
    hide LayExpr, LayBlock, ExprNodes, BlockNodes;
  }

  lemma {:induction false} IfLay(bs: seq<Branch>, els: Otherwise, lo: nat)
    ensures var t := Tree(lo, IfNode, LayBranches(bs, lo + 1));
            LayStmt(If(bs, els), lo) ==
            (match els
             case NoElse => t
             case Else(b) => WithBody(t, lo + 1 + BranchNodes(bs), LayBlock(b, lo + 2 + BranchNodes(bs))))
    ensures StmtNodes(If(bs, els))
         == 1 + BranchNodes(bs) + (match els case NoElse => 0 case Else(b) => 1 + BlockNodes(b))
  {
    hide LayBranches, LayBlock, BranchNodes, BlockNodes;
    match els
    case NoElse => assert LayBranches(bs, lo + 1) + [] == LayBranches(bs, lo + 1);
    case Else(b) =>
      var m := lo + 1 + BranchNodes(bs);
      assert LayElse(els, m) == [Tree(m, CompoundNode, LayBlock(b, m + 1))];
  }

  lemma {:induction false} FunLay(n: string, ps: seq<Param>, ret: Option<VarType>, b: seq<Stmt>, lo: nat)
    ensures LayStmt(Fun(n, ps, ret, b), lo)
         == WithBody(Tree(lo, FunDeclNode(n, ret, false), LayParams(ps, lo + 1)), lo + 1 + |ps|,
                     LayBlock(b, lo + 2 + |ps|))
    ensures StmtNodes(Fun(n, ps, ret, b)) == 2 + |ps| + BlockNodes(b)
  {
    hide LayParams, LayBlock, BlockNodes;
  }

  lemma {:induction false} NoParams(lo: nat)
    ensures LayParams([], lo) == []
  {
  }

  lemma {:induction false} ParamsSnoc(ps: seq<Param>, p: Param, lo: nat)
    ensures LayParams(ps + [p], lo) == LayParams(ps, lo) + [Tree(lo + |ps|, ArgDeclNode(p.name, p.ty), [])]
  {
    assert (ps + [p])[..|ps|] == ps;
  }

  lemma {:induction false} ParamsWithin(ps: seq<Param>, lo: nat)
    ensures AllWithin(LayParams(ps, lo), lo, lo + |ps|)
  {
    hide AllIds, Range, LayParams;
    ParamIds(ps, lo);
    ListWithin(LayParams(ps, lo), lo, lo + |ps|);
  }

  lemma {:induction false} TypeRoom(s: seq<Item>, room: nat)
    ensures ReadType(s, room) == (match ReadType(s, 0)
              case Fail(e) => Fail(e)
              case Ok(ty, s1, _) => Ok(ty, s1, room))
  {
  }

  lemma {:induction false} EmptyModule(g: seq<Cell>)
    requires g == [Cell(ModuleNode, NULL_ID, 0, [], 0, 0)]
    ensures Shape(LayModule([]), g) && BlockNodes([]) == 0
  {
  }

  lemma {:induction false} ModuleWithin(b: seq<Stmt>)
    ensures Within(LayModule(b), 0, 1 + BlockNodes(b))
    ensures AllOutside(LayModule(b).kids, 0)
  {
    hide LayBlock, BlockNodes;
    BlockWithin(b, 1);
    AllWithinWider(LayBlock(b, 1), 1, 1 + BlockNodes(b), 0, 1 + BlockNodes(b));
    AllWithinOutside(LayBlock(b, 1), 1, 1 + BlockNodes(b), 0);
  }

  lemma {:induction false} ModuleCanAttach(g: seq<Cell>, c: Tree)
    requires Forest(g) && Tops(c, g) && g[0].parent == NULL_ID
    ensures CanAttach(g, 0, c.id)
  {
    ForestRooted(g, 0);
  }

  lemma {:induction false} AttachRootStays(g: seq<Cell>, c: nat)
    requires 0 < c < |g| && g[0].parent == NULL_ID
    ensures Attach(g, 0, c)[0].parent == NULL_ID
  {
  }
}

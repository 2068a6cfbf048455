/** The lexer object of nucleus/lang/lexer.h: a source pointer, a one-character peek
    and a queue of at most five peeked tokens. */
module Lexing {
  import opened Tokens
  import opened Scanning
  import FixedPoint

  const NULL := -1
  const MAX_PEEKS := 5
  const EOF_LEXEME := Lexeme(EOF, Loc(0, 0, 0), Loc(0, 0, 0))

  /** What one call delivers: a token with its place, or an error. */
  datatype Out = Good(lexeme: Lexeme) | Wrong(error: Error)

  function ItemOf(o: Out): Item {
    match o
    case Good(l) => Tok(l.tok)
    case Wrong(e) => Bad(e)
  }

  /** The same stream as the parser sees it. */
  function Plain(s: seq<Out>): (r: seq<Item>)
    ensures |r| == |s| && forall k :: 0 <= k < |s| ==> r[k] == ItemOf(s[k])
  {
    seq(|s|, k requires 0 <= k < |s| => ItemOf(s[k]))
  }

  /** What comes at distance `k`: the end for ever past the end. */
  function At(s: seq<Out>, k: nat): Out {
    if k < |s| then s[k] else Good(EOF_LEXEME)
  }

  function Rest(s: seq<Out>): seq<Out> {
    if s == [] then [] else s[1..]
  }

  ghost predicate Ordinary(s: seq<Out>) {
    forall k :: 0 <= k < |s| ==> ItemOf(s[k]) != Tok(EOF) && s[k] != Wrong(NONE)
  }

  /** Everything the text still holds from position `i` on. */
  ghost function Outs(src: string, i: nat): (s: seq<Out>)
    requires i <= |src|
    ensures Ordinary(s)
    decreases |src| - i
  {
    match ScanToken(src, i)
    case End => []
    case Got(l, next) => [Good(l)] + Outs(src, next)
    case Err(e, next) => [Wrong(e)] + Outs(src, next)
  }

  lemma {:induction false} OutsItems(src: string, i: nat)
    requires i <= |src|
    ensures Plain(Outs(src, i)) == Items(src, i)
    decreases |src| - i
  {
    hide ScanToken;
    var x := ScanToken(src, i);
    if !x.End? { OutsItems(src, x.next); }
  }

  /** What the queued tokens deliver: queued EOFs are the end. */
  ghost function Queued(q: seq<Lexeme>): seq<Out> {
    if q == [] || q[0].tok == EOF then [] else [Good(q[0])] + Queued(q[1..])
  }

  lemma {:induction false} QueuedSnoc(q: seq<Lexeme>, l: Lexeme)
    ensures l.tok == EOF ==> Queued(q + [l]) == Queued(q)
    ensures l.tok != EOF && (forall j :: 0 <= j < |q| ==> q[j].tok != EOF) ==>
              Queued(q + [l]) == Queued(q) + [Good(l)]
    decreases q
  {
    if q != [] {
      assert (q + [l])[1..] == q[1..] + [l];
      QueuedSnoc(q[1..], l);
    }
  }

  lemma {:induction false} QueuedAt(q: seq<Lexeme>, k: nat)
    requires k < |q|
    requires forall i, j :: 0 <= i < j < |q| && q[i].tok == EOF ==> q[j].tok == EOF
    ensures q[k].tok != EOF ==> k < |Queued(q)| && Queued(q)[k] == Good(q[k])
    ensures q[k].tok == EOF ==> |Queued(q)| <= k
    decreases q
  {
    if k > 0 && q[0].tok != EOF { QueuedAt(q[1..], k - 1); }
  }

  lemma {:induction false} QueuedOrdinary(q: seq<Lexeme>)
    ensures Ordinary(Queued(q))
    decreases q
  {
    if q != [] && q[0].tok != EOF { QueuedOrdinary(q[1..]); }
  }

  /** The first item and the rest of a stream, as the parser sees them. */
  lemma {:induction false} PlainParts(s: seq<Out>)
    ensures Head(Plain(s)) == ItemOf(At(s, 0)) && Tail(Plain(s)) == Plain(Rest(s))
    ensures Ordinary(s) ==> Proper(Plain(s))
  {
    assert Tail(Plain(s)) == Plain(Rest(s));
  }

  class Lexer {
    const source: string
    var ptr: int
    var nextLoc: Loc
    var peekChar: char
    var peekLoc: Loc
    var hasPeek: bool
    const peeks: array<Lexeme>
    var peekCount: nat

    ghost predicate CharValid()
      reads this
    {
      && '\0' !in source
      && (ptr == NULL ==> !hasPeek)
      && (ptr != NULL ==> 0 <= ptr <= |source| && nextLoc == LocAt(source, ptr))
      && (hasPeek ==> 0 < ptr && peekChar == View(source[ptr - 1]) && peekLoc == LocAt(source, ptr - 1))
    }

    /** The index of the next character to deliver. */
    ghost function Pos(): (p: nat)
      requires CharValid()
      reads this
      ensures p <= |source|
    {
      if ptr == NULL then |source| else if hasPeek then ptr - 1 else ptr
    }

    ghost predicate Valid()
      reads this, peeks
    {
      && CharValid()
      && peeks.Length == MAX_PEEKS && peekCount <= MAX_PEEKS
      && (forall j :: 0 <= j < peekCount && peeks[j].tok == EOF ==> peeks[j] == EOF_LEXEME && Pos() == |source|)
      && (forall i, j :: 0 <= i < j < peekCount && peeks[i].tok == EOF ==> peeks[j].tok == EOF)
    }

    /** Everything still to come: the queue, then the rest of the text. */
    ghost function Coming(): (s: seq<Out>)
      requires Valid()
      reads this, peeks
      ensures Ordinary(s)
    {
      QueuedOrdinary(peeks[..peekCount]);
      Queued(peeks[..peekCount]) + Outs(source, Pos())
    }

    /** The same for the parser, which looks at no places. */
    ghost function Stream(): (s: seq<Item>)
      requires Valid()
      reads this, peeks
      ensures Proper(s)
    {
      Plain(Coming())
    }

    constructor (text: string)
      requires '\0' !in text
      ensures Valid() && fresh(peeks) && source == text
      ensures Coming() == Outs(text, 0) && Stream() == Items(text, 0)
      ensures peeks.Length == 5 && peekCount == 0
    {
      source := text;
      ptr, nextLoc := 0, Loc(1, 1, 0);
      peekChar, peekLoc, hasPeek := '\0', Loc(0, 0, 0), false;
      peeks := new Lexeme[MAX_PEEKS](_ => EOF_LEXEME);
      peekCount := 0;
      new;
      assert peeks[..0] == [];
      assert Queued([]) + Outs(source, 0) == Outs(source, 0);
      OutsItems(source, 0);
    }

    // ----- characters

    method SourceNext() returns (ok: bool, c: char, loc: Loc)
      requires CharValid() && !hasPeek
      modifies this`ptr, this`nextLoc
      ensures ok <==> old(Pos()) < |source|
      ensures ok ==> ptr == old(ptr) + 1 && nextLoc == LocAt(source, ptr)
                     && c == View(source[old(ptr)]) && loc == LocAt(source, old(ptr))
      ensures !ok ==> ptr == NULL
    {
      c, loc := '\0', nextLoc;
      if ptr == NULL { return false, c, loc; }
      c := if ptr < |source| then source[ptr] else '\0';
      ptr := ptr + 1;
      if c == '\0' {
        ptr := NULL;
        return false, c, loc;
      }
      nextLoc := Advance(nextLoc, c);
      return true, View(c), loc;
    }

    method NextChar() returns (ok: bool, c: char, loc: Loc)
      requires CharValid()
      modifies this`ptr, this`nextLoc, this`hasPeek
      ensures CharValid() && !hasPeek
      ensures ok <==> old(Pos()) < |source|
      ensures ok ==> Pos() == old(Pos()) + 1 && c == View(source[old(Pos())]) && loc == LocAt(source, old(Pos()))
      ensures ok ==> ptr == old(Pos()) + 1
      ensures !ok ==> Pos() == |source|
    {
      if hasPeek {
        hasPeek := false;
        return true, peekChar, peekLoc;
      }
      ok, c, loc := SourceNext();
    }

    method PeekChar() returns (ok: bool, c: char, loc: Loc)
      requires CharValid()
      modifies this`ptr, this`nextLoc, this`hasPeek, this`peekChar, this`peekLoc
      ensures CharValid() && Pos() == old(Pos())
      ensures ok <==> Pos() < |source|
      ensures ok == hasPeek
      ensures ok ==> c == View(source[Pos()]) && loc == LocAt(source, Pos())
    {
      if hasPeek { return true, peekChar, peekLoc; }
      ok, c, loc := SourceNext();
      hasPeek := ok;
      if ok { peekChar, peekLoc := c, loc; }
    }

    method ConsumeChar()
      requires CharValid()
      modifies this`ptr, this`nextLoc, this`hasPeek
      ensures CharValid()
      ensures Pos() == if old(Pos()) < |source| then old(Pos()) + 1 else |source|
    {
      var _, _, _ := NextChar();
    }

    method ConsumeComment()
      requires CharValid()
      modifies this`ptr, this`nextLoc, this`hasPeek, this`peekChar, this`peekLoc
      ensures CharValid() && Pos() == CommentEnd(source, old(Pos()))
    {
      var ok, c, start := PeekChar();
      var loc := start;
      ghost var first := Pos();
      while ok && loc.line == start.line
        invariant CharValid() && first <= Pos() && ok == hasPeek && (ok <==> Pos() < |source|)
        invariant ok ==> loc == LocAt(source, Pos()) && start == LocAt(source, first)
        invariant ok && loc.line == start.line ==> CommentEnd(source, Pos()) == CommentEnd(source, first)
        invariant !(ok && loc.line == start.line) ==> Pos() == CommentEnd(source, first)
        decreases |source| - Pos()
      {
        NewlineMoves(source, Pos());
        ConsumeChar();
        ok, c, loc := PeekChar();
      }
    }

    method ConsumeSpaces()
      requires CharValid()
      modifies this`ptr, this`nextLoc, this`hasPeek, this`peekChar, this`peekLoc
      ensures CharValid() && Pos() == SpaceEnd(source, old(Pos()))
    {
      var ok, c, loc := PeekChar();
      while ok && c == ' '
        invariant CharValid() && ok == hasPeek && (ok <==> Pos() < |source|)
        invariant ok ==> c == View(source[Pos()])
        invariant SpaceEnd(source, Pos()) == SpaceEnd(source, old(Pos()))
        decreases |source| - Pos()
      {
        ConsumeChar();
        ok, c, loc := PeekChar();
      }
    }

    // ----- tokens with a text

    /** What one call delivers, as the position and the values after it. */
    ghost predicate Delivers(r: Scan, error: Error, l: Lexeme)
      requires CharValid()
      reads this
    {
      match r
      case End => error == NONE && l == EOF_LEXEME && Pos() == |source|
      case Got(x, next) => error == NONE && l == x && Pos() == next
      case Err(e, next) => error == e && Pos() == next
    }

    method ConsumeString() returns (error: Error, token: Lexeme)
      requires CharValid() && hasPeek && peekChar == '\''
      modifies this`ptr, this`nextLoc, this`hasPeek, this`peekChar, this`peekLoc
      ensures CharValid() && Delivers(ScanToken(source, old(Pos())), error, token)
    {
      hide ScanToken, LocAt, Classify, QuoteEnd;
      ScanString(source, Pos());
      var _, _, start := NextChar();
      var s := ptr;
      var closed, n, stop := ConsumeQuoted();
      if !closed { return UNTERMINATED_STRING, EOF_LEXEME; }
      return NONE, Lexeme(LITERAL(Str(source[s..s + n])), start, stop);
    }

    /** The characters of a string, and the quote that ends it. */
    method ConsumeQuoted() returns (closed: bool, n: nat, stop: Loc)
      requires CharValid()
      modifies this`ptr, this`nextLoc, this`hasPeek, this`peekChar, this`peekLoc
      ensures CharValid()
      ensures var e := QuoteEnd(source, old(Pos()));
              && n == e - old(Pos()) && closed == (e < |source|) && Pos() == (if closed then e + 1 else e)
              && (closed ==> stop == LocAt(source, e))
    {
      hide LocAt;
      ghost var s := Pos();
      n := 0;
      var ok, c, loc := PeekChar();
      while ok
        invariant CharValid() && ok == hasPeek && (ok <==> Pos() < |source|)
        invariant Pos() == s + n
        invariant ok ==> c == View(source[Pos()]) && loc == LocAt(source, Pos())
        invariant QuoteEnd(source, Pos()) == QuoteEnd(source, s)
        decreases |source| - Pos()
      {
        ConsumeChar();
        if c == '\'' { return true, n, loc; }
        n := n + 1;
        ok, c, loc := PeekChar();
      }
      return false, n, loc;
    }

    method ConsumeNumber() returns (error: Error, token: Lexeme)
      requires CharValid() && hasPeek && IsDigit(peekChar)
      modifies this`ptr, this`nextLoc, this`hasPeek, this`peekChar, this`peekLoc
      ensures CharValid() && Delivers(ScanNumber(source, old(Pos())), error, token)
    {
      hide LocAt, NumberEnd, ScanNumber, FixedPoint.Decimal, FixedPoint.Wrap, FixedPoint.IsNumeral, FixedPoint.Pow10,
        FixedPoint.AllDigits, FixedPoint.Whole, FixedPoint.Fraction, FixedPoint.Dot, FixedPoint.FixedValue,
        FixedPoint.Unsigned;
      var s := ptr - 1;
      var legal, hasDot, n, start, stop := ConsumeDigits();
      token := EOF_LEXEME;
      NumberIs(source, s, NumberEnd(source, s, false));
      if !legal { return ILLEGAL_CHARACTER, token; }
      var text := source[s..s + n];
      if hasDot {
        var v := FixedPoint.Fparse(text);
        if v.Invalid? { return PARSE_FIXED_POINT, token; }
        return NONE, Lexeme(LITERAL(Fix(v.value)), start, stop);
      } else {
        var v := FixedPoint.Iparse(text);
        if v.Invalid? { return ILLEGAL_CHARACTER, token; }
        Unsigned(FixedPoint.Decimal(text));
        return NONE, Lexeme(LITERAL(Int(v.value % TWO32)), start, stop);
      }
    }

    /** The digits and the dot of a number, up to where it stops or turns illegal. */
    method ConsumeDigits() returns (legal: bool, hasDot: bool, n: nat, start: Loc, stop: Loc)
      requires CharValid() && hasPeek && IsDigit(peekChar)
      modifies this`ptr, this`nextLoc, this`hasPeek, this`peekChar, this`peekLoc
      ensures CharValid() && NumberEnd(source, old(Pos()), false) == Number(Pos(), hasDot, legal)
      ensures legal ==>
                && n > 0 && Pos() == old(Pos()) + n
                && start == LocAt(source, old(Pos())) && stop == LocAt(source, Pos() - 1)
    {
      hide LocAt;
      ghost var i := Pos();
      n, hasDot := 0, false;
      var ok, c, loc := PeekChar();
      start, stop := loc, loc;
      while ok
        invariant CharValid() && ok == hasPeek && (ok <==> Pos() < |source|)
        invariant Pos() == i + n && start == LocAt(source, i)
        invariant n > 0 ==> stop == LocAt(source, Pos() - 1)
        invariant n == 0 ==> ok && IsDigit(c)
        invariant ok ==> c == View(source[Pos()]) && loc == LocAt(source, Pos())
        invariant NumberEnd(source, Pos(), hasDot) == NumberEnd(source, i, false)
        decreases |source| - Pos(), ok
      {
        if IsDigit(c) || c == '.' {
          stop := loc;
          if c == '.' {
            if hasDot { return false, hasDot, n, start, stop; }
            hasDot := true;
          }
          n := n + 1;
          ConsumeChar();
        } else if IsIdent(c) {
          return false, hasDot, n, start, stop;
        } else {
          break;
        }
        ok, c, loc := PeekChar();
      }
      legal := true;
    }

    method ConsumeIdentifier() returns (error: Error, token: Lexeme)
      requires CharValid() && hasPeek && IsIdent(peekChar) && !IsDigit(peekChar)
      modifies this`ptr, this`nextLoc, this`hasPeek, this`peekChar, this`peekLoc
      ensures CharValid() && Delivers(ScanToken(source, old(Pos())), error, token)
    {
      hide ScanToken, LocAt, Classify;
      ghost var i := Pos();
      ScanWord(source, i);
      var s, n := ptr - 1, 0;
      var ok, c, loc := PeekChar();
      var start, stop := loc, loc;
      while ok && IsIdent(c)
        invariant CharValid() && ok == hasPeek && (ok <==> Pos() < |source|)
        invariant s == i && Pos() == s + n && start == LocAt(source, i)
        invariant n > 0 ==> stop == LocAt(source, Pos() - 1)
        invariant n == 0 ==> ok && IsIdent(c)
        invariant ok ==> c == View(source[Pos()]) && loc == LocAt(source, Pos())
        invariant IdentEnd(source, Pos()) == IdentEnd(source, i)
        decreases |source| - Pos()
      {
        stop := loc;
        n := n + 1;
        ConsumeChar();
        ok, c, loc := PeekChar();
      }
      return NONE, Lexeme(Classify(source[s..s + n], s + n == |source|), start, stop);
    }

    /** An operator that may be followed by `=`. */
    method ConsumeOperator(c: char, loc: Loc) returns (error: Error, token: Lexeme)
      requires CharValid() && Pos() < |source| && c == source[Pos()] && IsOperator(c) && loc == LocAt(source, Pos())
      modifies this`ptr, this`nextLoc, this`hasPeek, this`peekChar, this`peekLoc
      ensures CharValid() && Delivers(ScanToken(source, old(Pos())), error, token)
    {
      hide ScanToken, LocAt, WithEqual, Alone;
      ScanOperator(source, Pos());
      ConsumeChar();
      var more, next, _ := PeekChar();
      if more && next == '=' {
        ConsumeChar();
        return NONE, Lexeme(WithEqual(c), loc, Loc(loc.line, (loc.column + 1) % TWO16, 0));
      }
      if c == '!' { return ILLEGAL_CHARACTER, EOF_LEXEME; }
      return NONE, Lexeme(Alone(c), loc, loc);
    }

    /** A minus sign, or a whole comment. */
    method ConsumeMinus() returns (comment: bool)
      requires CharValid() && Pos() < |source| && source[Pos()] == '-'
      modifies this`ptr, this`nextLoc, this`hasPeek, this`peekChar, this`peekLoc
      ensures CharValid() && Pos() > old(Pos())
      ensures comment ==> ScanToken(source, Pos()) == ScanToken(source, old(Pos()))
      ensures !comment ==>
                ScanToken(source, old(Pos())) == Single(source, SUB, old(Pos()), old(Pos()) + 1)
                && Pos() == old(Pos()) + 1
    {
      hide ScanToken, LocAt, CommentEnd;
      ScanMinus(source, Pos());
      ConsumeChar();
      var more, next, _ := PeekChar();
      comment := more && next == '-';
      if comment {
        ConsumeChar();
        ConsumeComment();
      }
    }

    method ParseToken() returns (error: Error, token: Lexeme)
      requires CharValid()
      modifies this`ptr, this`nextLoc, this`hasPeek, this`peekChar, this`peekLoc
      ensures CharValid() && Delivers(ScanToken(source, old(Pos())), error, token)
    {
      hide ScanToken, ScanNumber, LocAt, Classify, IsPunctuation, PunctuationToken, SpaceEnd, CommentEnd, WithEqual,
        Alone, Items, Outs, Queued, QuoteEnd, IdentEnd, NumberEnd, IsIdent;
      ScanEnd(source);
      ghost var r := ScanToken(source, Pos());
      var ok, c, loc := PeekChar();
      while ok
        invariant CharValid() && ok == hasPeek && (ok <==> Pos() < |source|)
        invariant ok ==> c == View(source[Pos()]) && loc == LocAt(source, Pos())
        invariant ScanToken(source, Pos()) == r
        decreases |source| - Pos()
      {
        ghost var i := Pos();
        if IsPunctuation(c) {
          ScanPunctuation(source, i);
          ConsumeChar();
          return NONE, Lexeme(PunctuationToken(c), loc, loc);
        } else if c == '-' {
          var comment := ConsumeMinus();
          if !comment { return NONE, Lexeme(SUB, loc, loc); }
        } else if IsOperator(c) {
          error, token := ConsumeOperator(c, loc);
          return;
        } else if c == ' ' {
          ScanSpace(source, i);
          SpaceMoves(source, i);
          ConsumeSpaces();
        } else if c == '\'' {
          error, token := ConsumeString();
          return;
        } else if IsDigit(c) {
          ScanDigit(source, i);
          error, token := ConsumeNumber();
          return;
        } else if IsIdent(c) {
          error, token := ConsumeIdentifier();
          return;
        } else {
          ScanSkip(source, i);
          ConsumeChar();
        }
        ok, c, loc := PeekChar();
      }
      return NONE, EOF_LEXEME;
    }

    // ----- the token queue

    /** The oldest token of the queue; the others move up. */
    method Dequeue() returns (token: Lexeme)
      requires Valid() && peekCount > 0
      modifies this`peekCount, peeks
      ensures CharValid() && Pos() == old(Pos()) && peekCount == old(peekCount) - 1
      ensures forall j :: 0 <= j < peekCount ==> peeks[j] == old(peeks[..peekCount])[j + 1]
      ensures token == old(peeks[0]) && peeks[..peekCount] == old(peeks[..peekCount])[1..]
    {
      hide LocAt, View, Ordinary;
      token := peeks[0];
      ghost var q := peeks[..peekCount];
      var i := 1;
      while i < peekCount
        invariant 1 <= i <= peekCount && peekCount == |q| <= peeks.Length
        invariant forall j :: 0 <= j < i - 1 ==> peeks[j] == q[j + 1]
        invariant forall j :: i - 1 <= j < peekCount ==> peeks[j] == q[j]
      {
        peeks[i - 1] := peeks[i];
        i := i + 1;
      }
      peekCount := peekCount - 1;
      assert peeks[..peekCount] == q[1..];
    }

    /** The next token, from the queue or from the text. */
    method Next() returns (error: Error, token: Lexeme)
      requires Valid()
      modifies this, peeks
      ensures Valid() && Coming() == Rest(old(Coming()))
      ensures match At(old(Coming()), 0) case Good(l) => error == NONE && token == l case Wrong(e) => error == e != NONE
      ensures Stream() == Tail(old(Stream()))
      ensures match Head(old(Stream())) case Tok(t) => error == NONE && token.tok == t case Bad(e) => error == e
    {
      hide ScanToken, Outs, Queued, LocAt, Plain, Ordinary, Proper;
      PlainParts(Coming());
      if peekCount > 0 {
        ghost var q := peeks[..peekCount];
        token := Dequeue();
        Dequeued(q, source, Pos());
        error := NONE;
      } else {
        assert peeks[..peekCount] == [];
        Direct(source, Pos());
        error, token := ParseToken();
      }
    }

    /** One more token for the queue. */
    method Fill() returns (error: Error, token: Lexeme)
      requires Valid() && peekCount < MAX_PEEKS
      modifies this, peeks
      ensures Valid()
      ensures error == NONE ==> Coming() == old(Coming()) && peekCount == old(peekCount) + 1
      ensures error != NONE ==>
                var n, s := old(peekCount), old(Coming());
                n < |s| && s[n] == Wrong(error) && Coming() == s[..n] + s[n + 1..]
    {
      hide ScanToken, Outs, Queued, LocAt, Plain, Ordinary, Proper;
      ghost var q, p := peeks[..peekCount], Pos();
      error, token := ParseToken();
      Enqueued(q, source, p, error, token, Pos());
      if error != NONE {
        assert peeks[..peekCount] == q;
        return;
      }
      peeks[peekCount] := token;
      peekCount := peekCount + 1;
      assert peeks[..peekCount] == q + [token];
    }

    /** Peeking only fills the queue. An error met on the way is delivered, and its
        item is gone, as the source drops it. */
    method Peek(lookahead: nat) returns (error: Error, token: Lexeme)
      requires Valid() && lookahead < 5
      modifies this, peeks
      ensures Valid()
      ensures error == NONE ==>
                && Coming() == old(Coming()) && At(old(Coming()), lookahead) == Good(token)
                && Stream() == old(Stream())
      ensures error != NONE ==>
                exists j :: 0 <= j <= lookahead && j < |old(Coming())| && old(Coming())[j] == Wrong(error)
                            && Coming() == old(Coming())[..j] + old(Coming())[j + 1..]
      ensures lookahead == 0 ==>
                match Head(old(Stream()))
                case Tok(t) => error == NONE && token.tok == t
                case Bad(e) => error == e != NONE
    {
      hide ScanToken, Outs, Queued, LocAt, Plain, Ordinary, Proper;
      ghost var s := Coming();
      PlainParts(s);
      while peekCount <= lookahead
        invariant Valid() && Coming() == s
        decreases lookahead - peekCount
      {
        error, token := Fill();
        if error != NONE { return; }
      }
      PeekedAt(peeks[..peekCount], lookahead, source, Pos());
      return NONE, peeks[lookahead];
    }
  }

  /** What a number is, once its end is known. */
  lemma {:induction false} NumberIs(src: string, i: nat, n: Number)
    requires i < |src| && IsDigit(src[i]) && NumberEnd(src, i, false) == n
    ensures i < n.end
    ensures !n.legal ==> ScanNumber(src, i) == Err(ILLEGAL_CHARACTER, n.end)
    ensures n.legal ==>
              var text, l, m := src[i..n.end], LocAt(src, i), LocAt(src, n.end - 1);
              if n.dot then
                && FixedPoint.IsNumeral(text) && FixedPoint.IsNumeral(FixedPoint.Unsigned(text))
                && FixedPoint.Unsigned(text) == text
                && ScanNumber(src, i)
                   == if |FixedPoint.Fraction(text)| > 6 then Err(PARSE_FIXED_POINT, n.end)
                      else Got(Lexeme(LITERAL(Fix(FixedPoint.FixedValue(text))), l, m), n.end)
              else
                && FixedPoint.AllDigits(text) && (forall k :: 0 <= k < |text| ==> FixedPoint.IsDigit(text[k]))
                && ScanNumber(src, i)
                   == Got(Lexeme(LITERAL(Int(FixedPoint.Decimal(text) % TWO32)), l, m), n.end)
  {
    hide LocAt, FixedPoint.Decimal, FixedPoint.Wrap, FixedPoint.Pow10, FixedPoint.Whole, FixedPoint.Fraction,
      FixedPoint.IsNumeral, FixedPoint.Unsigned;
    NumberShape(src, i, i, false);
    if n.legal && n.dot { FixedPoint.NoSign(src[i..n.end]); }
  }

  /** What one more token does to the stream of queue and text. */
  lemma {:induction false} Enqueued(q: seq<Lexeme>, src: string, p: nat, error: Error, token: Lexeme, p1: nat)
    requires p <= |src| && p1 <= |src|
    requires forall j :: 0 <= j < |q| && q[j].tok == EOF ==> p == |src|
    requires match ScanToken(src, p)
             case End => error == NONE && token == EOF_LEXEME && p1 == |src|
             case Got(x, next) => error == NONE && token == x && p1 == next
             case Err(e, next) => error == e && p1 == next
    ensures error == NONE ==> Queued(q + [token]) + Outs(src, p1) == Queued(q) + Outs(src, p)
    ensures error == NONE && token.tok == EOF ==> token == EOF_LEXEME && p1 == |src|
    ensures error == NONE && token.tok != EOF ==> forall j :: 0 <= j < |q| ==> q[j].tok != EOF
    ensures error != NONE ==>
              var s := Queued(q) + Outs(src, p);
              |q| < |s| && s[|q|] == Wrong(error) && Queued(q) + Outs(src, p1) == s[..|q|] + s[|q| + 1..]
  {
    hide ScanToken, Outs, Queued;
    OutsStep(src, p);
    ScanEnd(src);
    QueuedSnoc(q, token);
    if error != NONE {
      QueuedPlain(q);
      var s := Queued(q) + Outs(src, p);
      assert s[..|q|] == Queued(q) && s[|q| + 1..] == Outs(src, p1);
    }
  }

  lemma {:induction false} PeekedAt(q: seq<Lexeme>, k: nat, src: string, p: nat)
    requires k < |q| && p <= |src|
    requires forall j :: 0 <= j < |q| && q[j].tok == EOF ==> q[j] == EOF_LEXEME && p == |src|
    requires forall i, j :: 0 <= i < j < |q| && q[i].tok == EOF ==> q[j].tok == EOF
    ensures At(Queued(q) + Outs(src, p), k) == Good(q[k])
  {
    hide Outs, Queued;
    QueuedAt(q, k);
    if q[k].tok == EOF { ScanEnd(src); }
  }

  /** Taking the first token of a queue takes the first item of the stream. */
  lemma {:induction false} Dequeued(q: seq<Lexeme>, src: string, p: nat)
    requires q != [] && p <= |src|
    requires forall j :: 0 <= j < |q| && q[j].tok == EOF ==> q[j] == EOF_LEXEME && p == |src|
    requires forall i, j :: 0 <= i < j < |q| && q[i].tok == EOF ==> q[j].tok == EOF
    ensures var s := Queued(q) + Outs(src, p);
            At(s, 0) == Good(q[0]) && Rest(s) == Queued(q[1..]) + Outs(src, p)
  {
    hide Outs;
    if q[0].tok == EOF {
      ScanEnd(src);
      assert Queued(q[1..]) == [];
    } else {
      assert ([Good(q[0])] + Queued(q[1..]) + Outs(src, p))[1..] == Queued(q[1..]) + Outs(src, p);
    }
  }

  lemma {:induction false} Direct(src: string, p: nat)
    requires p <= |src|
    ensures var s := Queued([]) + Outs(src, p);
            match ScanToken(src, p)
            case End => At(s, 0) == Good(EOF_LEXEME) && Rest(s) == Queued([]) + Outs(src, |src|)
            case Got(l, next) => At(s, 0) == Good(l) && Rest(s) == Queued([]) + Outs(src, next)
            case Err(e, next) => At(s, 0) == Wrong(e) && Rest(s) == Queued([]) + Outs(src, next)
  {
    hide ScanToken, Outs;
    OutsStep(src, p);
    ScanEnd(src);
  }

  lemma {:induction false} ScanEnd(src: string)
    ensures ScanToken(src, |src|) == End && Items(src, |src|) == [] && Outs(src, |src|) == []
  {
  }

  lemma {:induction false} SpaceMoves(src: string, i: nat)
    requires i < |src| && View(src[i]) == ' '
    ensures i < SpaceEnd(src, i)
  {
  }

  lemma {:induction false} OutsStep(src: string, i: nat)
    requires i <= |src|
    ensures match ScanToken(src, i)
            case End => Outs(src, i) == []
            case Got(l, next) => Outs(src, i) == [Good(l)] + Outs(src, next) && l.tok != EOF
            case Err(e, next) => Outs(src, i) == [Wrong(e)] + Outs(src, next) && e != NONE
  {
    hide ScanToken;
  }

  lemma {:induction false} ItemsStep(src: string, i: nat)
    requires i <= |src|
    ensures match ScanToken(src, i)
            case End => Items(src, i) == []
            case Got(l, next) => Items(src, i) == [Tok(l.tok)] + Items(src, next) && l.tok != EOF
            case Err(e, next) => Items(src, i) == [Bad(e)] + Items(src, next) && e != NONE
  {
    hide ScanToken;
  }

  /** A queue without EOF is a queue of ordinary items. */
  lemma {:induction false} QueuedPlain(q: seq<Lexeme>)
    requires forall j :: 0 <= j < |q| ==> q[j].tok != EOF
    ensures |Queued(q)| == |q|
    decreases q
  {
    if q != [] { QueuedPlain(q[1..]); }
  }

  lemma {:induction false} Unsigned(x: nat)
    ensures FixedPoint.Wrap(x) % TWO32 == x % TWO32
  {
  }
}

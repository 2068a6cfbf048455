/** Lexer correctness over any source text: what each token says about the text it
    came from, and where it stands. */
module Spans {
  import opened Tokens
  import opened Scanning
  import FixedPoint
  import Lexing
  import Texts

  /** From `a` to `e` there are letters, digits and underscores, first no digit, and then
      none of them. */
  ghost predicate WordEnds(src: string, a: nat, e: nat)
    requires a < e <= |src|
  {
    && !('0' <= src[a] <= '9')
    && (forall j :: a <= j < e ==> 'a' <= src[j] <= 'z' || '0' <= src[j] <= '9' || src[j] == '_')
    && (e < |src| ==> !('a' <= src[e] <= 'z') && !('0' <= src[e] <= '9') && src[e] != '_')
  }

  /** The text ends with `and`, or with the start of it. */
  ghost predicate AndEnds(src: string, a: nat, e: nat)
    requires a < e <= |src|
  {
    WordEnds(src, a, e) && e == |src| && src[a..e] in {"a", "an", "and"}
  }

  ghost predicate NumberEnds(src: string, e: nat)
    requires e <= |src|
  {
    e < |src| ==> !('a' <= src[e] <= 'z') && !('0' <= src[e] <= '9') && src[e] != '_' && src[e] != '.'
  }

  /** The token is what the text from `a` to `e` spells; words and numbers go as far
      as they can. */
  ghost predicate Spans(src: string, t: Token, a: nat, e: nat)
    requires a < e <= |src|
  {
    var text := src[a..e];
    match t
    case IDENTIFIER(n) => n == text && WordEnds(src, a, e) && text !in KEYWORDS
    case AND => AndEnds(src, a, e)
    case LITERAL(Int(n)) => FixedPoint.AllDigits(text) && n == FixedPoint.Decimal(text) % TWO32 && NumberEnds(src, e)
    case LITERAL(Fix(f)) =>
      && '.' in text && FixedPoint.IsNumeral(text) && |FixedPoint.Fraction(text)| <= 6 && NumberEnds(src, e)
      && FixedPoint.AllDigits(FixedPoint.Whole(text) + FixedPoint.Fraction(text))
      && t == FixLiteral(text)
    case LITERAL(Str(s)) => e - a == |s| + 2 && text == "'" + s + "'" && '\'' !in s
    case _ =>
      if Texts.Symbol(t) != "" then View(text[0]) == Texts.Symbol(t)[0] && text[1..] == Texts.Symbol(t)[1..]
      else WordEnds(src, a, e) && text in KEYWORDS && KEYWORDS[text] == t
  }

  /** The scan from `i` found a token at its reported start. */
  ghost predicate Found(src: string, i: nat, x: Scan)
    requires i <= |src| && x.Got?
  {
    var a := x.lexeme.start.index;
    i <= a < x.next <= |src| && x.lexeme.start == LocAt(src, a) && Spans(src, x.lexeme.tok, a, x.next)
  }

  lemma {:induction false} IndexAt(src: string, i: nat)
    requires i <= |src| < TWO32
    ensures LocAt(src, i).index == i
  {
    LocCounts(src, i);
  }

  /** One call of the lexer: the token is the text at its start, up to where the lexer
      stopped. */
  lemma {:induction false} ScanFound(src: string, i: nat)
    requires i <= |src| < TWO32
    ensures var x := ScanToken(src, i); x.Got? ==> Found(src, i, x)
    decreases |src| - i
  {
    hide ScanToken, LocAt, Spans, Texts.Symbol, SpaceEnd, CommentEnd, PunctuationToken, WithEqual, Alone, Classify,
      ScanNumber, QuoteEnd, IdentEnd;
    if i == |src| {
      Lexing.ScanEnd(src);
    } else {
      IndexAt(src, i);
      var c := src[i];
      if View(c) == ' ' {
        ScanSpace(src, i);
        Lexing.SpaceMoves(src, i);
        ScanFound(src, SpaceEnd(src, i));
      } else if IsPunctuation(c) {
        ScanPunctuation(src, i);
        PunctuationSpans(src, i);
      } else if c == '-' {
        ScanMinus(src, i);
        if i + 1 < |src| && src[i + 1] == '-' { ScanFound(src, CommentEnd(src, i + 2)); } else { MinusSpans(src, i); }
      } else if IsOperator(c) {
        ScanOperator(src, i);
        OperatorSpans(src, i);
      } else if c == '\'' {
        ScanString(src, i);
        StringSpans(src, i);
      } else if IsDigit(c) {
        ScanDigit(src, i);
        NumberSpans(src, i);
      } else if IsIdent(c) {
        ScanWord(src, i);
        WordSpans(src, i);
      } else {
        ScanSkip(src, i);
        ScanFound(src, i + 1);
      }
    }
  }

  lemma {:induction false} PunctuationSpans(src: string, i: nat)
    requires i < |src| && IsPunctuation(src[i])
    ensures Spans(src, PunctuationToken(src[i]), i, i + 1)
  {
    hide WordEnds, AndEnds, NumberEnds;
    assert src[i..i + 1] == [src[i]];
  }

  lemma {:induction false} MinusSpans(src: string, i: nat)
    requires i < |src| && src[i] == '-'
    ensures Spans(src, SUB, i, i + 1)
  {
    hide WordEnds, AndEnds, NumberEnds;
    assert src[i..i + 1] == "-";
  }

  lemma {:induction false} OperatorSpans(src: string, i: nat)
    requires i < |src| && IsOperator(src[i])
    ensures i + 1 < |src| && src[i + 1] == '=' ==> Spans(src, WithEqual(src[i]), i, i + 2)
    ensures src[i] != '!' ==> Spans(src, Alone(src[i]), i, i + 1)
  {
    hide IsOperator, WithEqual, Alone, Spans;
    if i + 1 < |src| && src[i + 1] == '=' { DoubleSpans(src, i); }
    if src[i] != '!' { AloneSpans(src, i); }
  }

  lemma {:induction false} DoubleSpans(src: string, i: nat)
    requires i + 1 < |src| && IsOperator(src[i]) && src[i + 1] == '='
    ensures Spans(src, WithEqual(src[i]), i, i + 2)
  {
    hide WordEnds, AndEnds, NumberEnds;
    assert src[i..i + 2] == [src[i], src[i + 1]];
  }

  lemma {:induction false} AloneSpans(src: string, i: nat)
    requires i < |src| && IsOperator(src[i]) && src[i] != '!'
    ensures Spans(src, Alone(src[i]), i, i + 1)
  {
    hide WordEnds, AndEnds, NumberEnds;
    assert src[i..i + 1] == [src[i]];
  }

  lemma {:induction false} StringSpans(src: string, i: nat)
    requires i < |src| && src[i] == '\''
    ensures var e := QuoteEnd(src, i + 1); e < |src| ==> Spans(src, LITERAL(Str(src[i + 1..e])), i, e + 1)
  {
    hide WordEnds, AndEnds, NumberEnds;
    var e := QuoteEnd(src, i + 1);
    if e < |src| { assert src[i..e + 1] == "'" + src[i + 1..e] + "'"; }
  }

  lemma {:induction false} WordSpans(src: string, i: nat)
    requires i < |src| && IsIdent(src[i]) && !IsDigit(src[i]) && i < IdentEnd(src, i)
    ensures var e := IdentEnd(src, i); Spans(src, Classify(src[i..e], e == |src|), i, e)
  {
    hide Texts.Symbol, MatchesAnd;
    var e := IdentEnd(src, i);
    assert WordEnds(src, i, e);
    Texts.AndIs(src[i..e], e == |src|);
    if !MatchesAnd(src[i..e], e == |src|) && src[i..e] in KEYWORDS { KeywordTokens(src[i..e]); }
  }

  lemma {:induction false} KeywordTokens(w: string)
    requires w in KEYWORDS
    ensures var t := KEYWORDS[w];
            Texts.Symbol(t) == "" && !t.IDENTIFIER? && t != AND && (t.LITERAL? ==> t.lit.Bool? || t.lit.Nil?)
  {
    hide Texts.Symbol;
    KeywordIs(w);
    WordNoSymbol(KEYWORDS[w]);
  }

  /** The tokens that keywords give. */
  predicate IsKeyword(t: Token) {
    match t
    case LITERAL(l) => l.Bool? || l.Nil?
    case PRIMITIVE(_) => true
    case _ => Texts.Word(t) != ""
  }

  lemma {:induction false} KeywordIs(w: string)
    requires w in KEYWORDS
    ensures IsKeyword(KEYWORDS[w])
  {
  }

  lemma {:induction false} WordNoSymbol(t: Token)
    requires IsKeyword(t)
    ensures Texts.Symbol(t) == "" && !t.IDENTIFIER? && t != AND
  {
    hide Texts.Word;
    Texts.WordOrSymbol(t);
    if t.IDENTIFIER? || t == AND { PlainNoWord(t); }
  }

  lemma {:induction false} PlainNoWord(t: Token)
    requires t.IDENTIFIER? || t == AND
    ensures Texts.Word(t) == ""
  {
  }

  lemma {:induction false} NumberSpans(src: string, i: nat)
    requires i < |src| && IsDigit(src[i])
    ensures var x := ScanNumber(src, i);
            x.Got? ==> x.lexeme.start == LocAt(src, i) && Spans(src, x.lexeme.tok, i, x.next)
  {
    hide LocAt, NumberEnd;
    NumberShape(src, i, i, false);
    var n := NumberEnd(src, i, false);
    NumberDot(src, i);
    if n.legal && n.dot {
      var j :| i <= j < n.end && src[j] == '.';
      assert src[i..n.end][j - i] == '.';
    }
  }

  lemma {:induction false} NumberDot(src: string, i: nat)
    requires i <= |src|
    ensures var n := NumberEnd(src, i, false); n.dot ==> exists j :: i <= j < n.end && src[j] == '.'
    decreases |src| - i
  {
    if i < |src| && src[i] == '.' {
      assert NumberEnd(src, i, false).end >= i + 1;
    } else if i < |src| && IsDigit(src[i]) {
      NumberDot(src, i + 1);
    }
  }

  lemma {:induction false} LexemesFrom(src: string, i: nat, k: nat)
    requires i <= |src| && k < |Lexemes(src, i)| && !Lexemes(src, i)[k].End?
    ensures exists p ::
              i <= p <= |src| && Lexemes(src, i)[k] == ScanToken(src, p) && Lexemes(src, i)[k..] == Lexemes(src, p)
    decreases k
  {
    hide ScanToken;
    if k > 0 {
      var next := ScanToken(src, i).next;
      assert Lexemes(src, i) == [ScanToken(src, i)] + Lexemes(src, next);
      LexemesFrom(src, next, k - 1);
      var p :| next <= p <= |src| && Lexemes(src, next)[k - 1] == ScanToken(src, p)
        && Lexemes(src, next)[k - 1..] == Lexemes(src, p);
      assert Lexemes(src, i)[k] == ScanToken(src, p);
    }
  }

  /** Every token of a text is the text at its reported start. */
  lemma {:induction false} TokensSpan(src: string, k: nat)
    requires |src| < TWO32 && k < |Lexemes(src, 0)| && Lexemes(src, 0)[k].Got?
    ensures Found(src, 0, Lexemes(src, 0)[k])
  {
    hide ScanToken, Lexemes, Spans, LocAt;
    LexemesFrom(src, 0, k);
    var p :| 0 <= p <= |src| && Lexemes(src, 0)[k] == ScanToken(src, p) && Lexemes(src, 0)[k..] == Lexemes(src, p);
    ScanFound(src, p);
  }

  /** Tokens do not overlap and their starts strictly increase. */
  lemma {:induction false} TokensOrdered(src: string, j: nat, k: nat)
    requires |src| < TWO32 && j < k < |Lexemes(src, 0)| && Lexemes(src, 0)[j].Got? && Lexemes(src, 0)[k].Got?
    ensures var x, y := Lexemes(src, 0)[j], Lexemes(src, 0)[k];
            x.lexeme.start.index < x.next <= y.lexeme.start.index
  {
    hide ScanToken, Lexemes, Spans, LocAt;
    var all := Lexemes(src, 0);
    TokensSpan(src, j);
    LexemesFrom(src, 0, j);
    var p :| 0 <= p <= |src| && all[j] == ScanToken(src, p) && all[j..] == Lexemes(src, p);
    var next := all[j].next;
    LexemesTail(src, p);
    assert all[k] == all[j..][1..][k - j - 1];
    LexemesFrom(src, next, k - j - 1);
    var q :| next <= q <= |src| && Lexemes(src, next)[k - j - 1] == ScanToken(src, q)
             && Lexemes(src, next)[k - j - 1..] == Lexemes(src, q);
    ScanFound(src, q);
  }

  lemma {:induction false} LexemesTail(src: string, p: nat)
    requires p <= |src| && ScanToken(src, p).Got?
    ensures var x := ScanToken(src, p);
            x.next <= |src| && Lexemes(src, p) == [x] + Lexemes(src, x.next)
            && Lexemes(src, p)[1..] == Lexemes(src, x.next)
  {
    hide ScanToken;
  }

  /** What the lexer object delivers, with its places, is what scanning the text finds. */
  lemma {:induction false} DeliversScans(src: string, i: nat)
    requires i <= |src|
    ensures |Lexing.Outs(src, i)| == |Lexemes(src, i)|
    ensures forall k :: 0 <= k < |Lexemes(src, i)| ==>
              match Lexemes(src, i)[k]
              case Got(l, _) => Lexing.Outs(src, i)[k] == Lexing.Good(l)
              case Err(e, _) => Lexing.Outs(src, i)[k] == Lexing.Wrong(e)
              case End => false
    decreases |src| - i
  {
    hide ScanToken;
    var x := ScanToken(src, i);
    if !x.End? { DeliversScans(src, x.next); }
  }
}

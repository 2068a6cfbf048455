/** What lies between tokens: every character of a text belongs to a token, to something
    the lexer refuses, or to a gap of blanks, comments and characters that start nothing. */
module Gaps {
  import opened Tokens
  import opened Scanning
  import opened Spans
  import FixedPoint
  import Lexing

  predicate StartsNothing(c: char) {
    && c !in {'+', '-', '*', '/', '(', ')', '[', ']', ',', '.', ':', '=', '<', '>', '!', '\'', ' ', '\n'}
    && !('a' <= c <= 'z') && !('0' <= c <= '9') && c != '_'
  }

  /** Two minuses and the rest of their line, with its newline if there is one. */
  ghost predicate IsComment(src: string, i: nat, e: nat) {
    && i + 2 <= e <= |src| && src[i] == '-' && src[i + 1] == '-'
    && (forall j :: i + 2 <= j < e - 1 ==> src[j] != '\n')
    && (e == |src| || (i + 2 < e && src[e - 1] == '\n'))
  }

  /** From `i` to `p` there are only blanks, comments and characters that start no token. */
  ghost predicate Gap(src: string, i: nat, p: nat)
    decreases p - i
  {
    || i == p
    || (i < p <= |src| && (src[i] == ' ' || src[i] == '\n' || StartsNothing(src[i])) && Gap(src, i + 1, p))
    || (exists e :: i < e <= p && IsComment(src, i, e) && Gap(src, e, p))
  }

  /** What the lexer refuses from `p` to `next`. */
  ghost predicate Refuses(src: string, e: Error, p: nat, next: nat)
    requires p < next <= |src|
  {
    match e
    case UNTERMINATED_STRING => src[p] == '\'' && next == |src| && forall j :: p < j < next ==> src[j] != '\''
    case PARSE_FIXED_POINT => FixedPoint.IsNumeral(src[p..next]) && |FixedPoint.Fraction(src[p..next])| > 6
    case ILLEGAL_CHARACTER =>
      || (src[p] == '!' && next == p + 1)
      || ('0' <= src[p] <= '9' && next < |src|
          && ('a' <= src[next] <= 'z' || '0' <= src[next] <= '9' || src[next] == '_' || src[next] == '.')
          && forall j :: p <= j < next ==> '0' <= src[j] <= '9' || src[j] == '.')
    case _ => false
  }

  /** The scan `x` finds what begins at `p`. */
  ghost predicate Begins(src: string, p: nat, x: Scan) {
    match x
    case End => p == |src|
    case Got(l, next) => p < next <= |src| && l.start == LocAt(src, p) && Spans.Spans(src, l.tok, p, next)
    case Err(e, next) => p < next <= |src| && Refuses(src, e, p, next)
  }

  lemma {:induction false} GapBlank(src: string, i: nat, p: nat)
    requires i < p <= |src| && (src[i] == ' ' || src[i] == '\n' || StartsNothing(src[i])) && Gap(src, i + 1, p)
    ensures Gap(src, i, p)
  {
  }

  lemma {:induction false} GapSpaces(src: string, i: nat, p: nat)
    requires i <= |src| && SpaceEnd(src, i) <= p <= |src| && Gap(src, SpaceEnd(src, i), p)
    ensures Gap(src, i, p)
    decreases |src| - i
  {
    hide Gap;
    if i < |src| && View(src[i]) == ' ' {
      GapSpaces(src, i + 1, p);
      GapBlank(src, i, p);
    }
  }

  lemma {:induction false} CommentEnds(src: string, i: nat)
    requires i <= |src|
    ensures var e := CommentEnd(src, i);
            && (forall j :: i <= j < e - 1 ==> src[j] != '\n')
            && (e == |src| || (i < e && src[e - 1] == '\n'))
    decreases |src| - i
  {
    if i < |src| && src[i] != '\n' { CommentEnds(src, i + 1); }
  }

  lemma {:induction false} GapComment(src: string, i: nat, p: nat)
    requires i + 1 < |src| && src[i] == '-' && src[i + 1] == '-'
    requires CommentEnd(src, i + 2) <= p <= |src| && Gap(src, CommentEnd(src, i + 2), p)
    ensures Gap(src, i, p)
  {
    CommentEnds(src, i + 2);
    assert IsComment(src, i, CommentEnd(src, i + 2));
  }

  /** One call of the lexer crosses a gap and finds what begins after it. */
  lemma {:induction false} ScanCrosses(src: string, i: nat) returns (p: nat)
    requires i <= |src|
    ensures i <= p <= |src| && Gap(src, i, p) && Begins(src, p, ScanToken(src, i))
    decreases |src| - i
  {
    hide ScanToken, LocAt, Spans.Spans, SpaceEnd, CommentEnd, Gap, Refuses;
    p := i;
    GapNone(src, i);
    if i == |src| {
      Lexing.ScanEnd(src);
    } else if View(src[i]) == ' ' {
      ScanSpace(src, i);
      Lexing.SpaceMoves(src, i);
      p := ScanCrosses(src, SpaceEnd(src, i));
      GapSpaces(src, i, p);
    } else if src[i] == '-' && i + 1 < |src| && src[i + 1] == '-' {
      ScanMinus(src, i);
      p := ScanCrosses(src, CommentEnd(src, i + 2));
      GapComment(src, i, p);
    } else if StartsNothing(src[i]) {
      ScanSkip(src, i);
      p := ScanCrosses(src, i + 1);
      GapBlank(src, i, p);
    } else {
      ScanBegins(src, i);
    }
  }

  lemma {:induction false} GapNone(src: string, i: nat)
    ensures Gap(src, i, i)
  {
  }

  lemma {:induction false} ScanBegins(src: string, i: nat)
    requires i < |src| && View(src[i]) != ' ' && !StartsNothing(src[i])
    requires src[i] == '-' ==> i + 1 == |src| || src[i + 1] != '-'
    ensures Begins(src, i, ScanToken(src, i))
  {
    hide ScanToken, ScanNumber, LocAt, Spans.Spans, Refuses, WithEqual, Alone, PunctuationToken, Classify;
    var c := src[i];
    if IsPunctuation(c) {
      ScanPunctuation(src, i);
      PunctuationSpans(src, i);
    } else if c == '-' {
      ScanMinus(src, i);
      MinusSpans(src, i);
    } else if IsOperator(c) {
      OperatorBegins(src, i);
    } else if c == '\'' {
      QuoteBegins(src, i);
    } else if IsDigit(c) {
      ScanDigit(src, i);
      NumberSpans(src, i);
      NumberRefused(src, i);
    } else {
      ScanWord(src, i);
      WordSpans(src, i);
    }
  }

  lemma {:induction false} OperatorBegins(src: string, i: nat)
    requires i < |src| && IsOperator(src[i])
    ensures Begins(src, i, ScanToken(src, i))
  {
    hide ScanToken, LocAt, Spans.Spans, Refuses, IsOperator, WithEqual, Alone;
    ScanOperator(src, i);
    OperatorSpans(src, i);
    BangRefused(src, i);
  }

  lemma {:induction false} QuoteBegins(src: string, i: nat)
    requires i < |src| && src[i] == '\''
    ensures Begins(src, i, ScanToken(src, i))
  {
    hide ScanToken, LocAt, Spans.Spans, Refuses;
    ScanString(src, i);
    StringSpans(src, i);
    StringRefused(src, i);
  }

  lemma {:induction false} BangRefused(src: string, i: nat)
    requires i < |src|
    ensures src[i] == '!' ==> Refuses(src, ILLEGAL_CHARACTER, i, i + 1)
  {
  }

  lemma {:induction false} StringRefused(src: string, i: nat)
    requires i < |src| && src[i] == '\''
    ensures QuoteEnd(src, i + 1) == |src| ==> Refuses(src, UNTERMINATED_STRING, i, |src|)
  {
  }

  lemma {:induction false} NumberRefused(src: string, i: nat)
    requires i < |src| && IsDigit(src[i])
    ensures var x := ScanNumber(src, i); x.Err? ==> Refuses(src, x.error, i, x.next)
  {
    hide LocAt, NumberEnd;
    NumberShape(src, i, i, false);
    NumberStops(src, i, false);
  }

  lemma {:induction false} NumberStops(src: string, i: nat, dot: bool)
    requires i <= |src|
    ensures var n := NumberEnd(src, i, dot);
            !n.legal ==> n.end < |src| && (IsIdent(src[n.end]) || src[n.end] == '.')
    decreases |src| - i
  {
    if i < |src| && src[i] == '.' && !dot {
      NumberStops(src, i + 1, true);
    } else if i < |src| && IsDigit(src[i]) {
      NumberStops(src, i + 1, dot);
    }
  }

  /** The scans are all of the text from `i` on: what they find, and gaps. */
  ghost predicate Covered(src: string, i: nat, xs: seq<Scan>)
    requires i <= |src|
    decreases xs
  {
    if xs == [] then Gap(src, i, |src|)
    else
      && !xs[0].End? && xs[0].next <= |src|
      && (exists p :: i <= p <= |src| && Gap(src, i, p) && Begins(src, p, xs[0]))
      && Covered(src, xs[0].next, xs[1..])
  }

  /** Nothing else of a text is lost. */
  lemma {:induction false} TextCovered(src: string, i: nat)
    requires i <= |src|
    ensures Covered(src, i, Lexemes(src, i))
    decreases |src| - i
  {
    hide ScanToken, Gap;
    var p := ScanCrosses(src, i);
    var x := ScanToken(src, i);
    if !x.End? {
      TextCovered(src, x.next);
      assert Lexemes(src, i)[1..] == Lexemes(src, x.next);
    }
  }
}

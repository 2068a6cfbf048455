/** The tokens of a source text, as nucleus/lang/lexer.h delimits them: a pure
    reading of the text by position, without the lexer's peeks and pointers. */
module Scanning {
  import opened Tokens
  import FixedPoint

  /** A location: line and column wrap at 16 bits, the index at 32. */
  datatype Loc = Loc(line: nat, column: nat, index: nat)

  datatype Lexeme = Lexeme(tok: Token, start: Loc, stop: Loc)

  /** One step of the lexer: a token or an error, with the position it leaves, or
      the end of the text. */
  datatype Scan = Got(lexeme: Lexeme, next: nat) | Err(error: Error, next: nat) | End

  const TWO16 := 0x1_0000
  const TWO32 := 0x1_0000_0000

  function Advance(l: Loc, c: char): Loc {
    if c == '\n' then Loc((l.line + 1) % TWO16, 1, (l.index + 1) % TWO32)
    else Loc(l.line, (l.column + 1) % TWO16, (l.index + 1) % TWO32)
  }

  /** The location the lexer reports for the character at `i`. */
  function LocAt(src: string, i: nat): Loc
    requires i <= |src|
  {
    if i == 0 then Loc(1, 1, 0) else Advance(LocAt(src, i - 1), src[i - 1])
  }

  function Newlines(s: string): nat {
    if s == [] then 0 else Newlines(s[..|s| - 1]) + (if s[|s| - 1] == '\n' then 1 else 0)
  }

  /** How far the last newline, or the start, lies back. */
  function SinceNewline(s: string): nat {
    if s == [] || s[|s| - 1] == '\n' then 0 else 1 + SinceNewline(s[..|s| - 1])
  }

  /** Reported locations are those found by counting newlines, modulo the field widths. */
  lemma {:induction false} LocCounts(src: string, i: nat)
    requires i <= |src|
    ensures LocAt(src, i)
         == Loc((1 + Newlines(src[..i])) % 0x1_0000, (1 + SinceNewline(src[..i])) % 0x1_0000, i % 0x1_0000_0000)
    decreases i
  {
    if i > 0 {
      LocCounts(src, i - 1);
      assert src[..i][..i - 1] == src[..i - 1];
      ModSucc(1 + Newlines(src[..i - 1]), TWO16);
      ModSucc(1 + SinceNewline(src[..i - 1]), TWO16);
      ModSucc(i - 1, TWO32);
    }
  }

  lemma {:induction false} ModSucc(x: nat, m: nat)
    requires m == TWO16 || m == TWO32
    ensures (x % m + 1) % m == (x + 1) % m
  {
  }

  /** A comment is over when the line number changes: a newline always changes it. */
  lemma {:induction false} NewlineMoves(src: string, i: nat)
    requires i < |src|
    ensures LocAt(src, i + 1).line != LocAt(src, i).line <==> src[i] == '\n'
  {
    LocCounts(src, i);
  }

  function IsDigit(c: char): bool { '0' <= c <= '9' }
  function IsIdent(c: char): bool { IsDigit(c) || 'a' <= c <= 'z' || c == '_' }

  /** The lexer sees newlines as spaces. */
  function View(c: char): char { if c == '\n' then ' ' else c }

  function SpaceEnd(src: string, i: nat): (e: nat)
    requires i <= |src|
    ensures i <= e <= |src|
    decreases |src| - i
  {
    if i < |src| && View(src[i]) == ' ' then SpaceEnd(src, i + 1) else i
  }

  function IdentEnd(src: string, i: nat): (e: nat)
    requires i <= |src|
    ensures i <= e <= |src|
    ensures forall j :: i <= j < e ==> IsIdent(src[j])
    ensures e < |src| ==> !IsIdent(src[e])
    decreases |src| - i
  {
    if i < |src| && IsIdent(src[i]) then IdentEnd(src, i + 1) else i
  }

  /** The closing quote at or after `i`, or the end of the text. */
  function QuoteEnd(src: string, i: nat): (e: nat)
    requires i <= |src|
    ensures i <= e <= |src|
    ensures forall j :: i <= j < e ==> src[j] != '\''
    ensures e < |src| ==> src[e] == '\''
    decreases |src| - i
  {
    if i < |src| && src[i] != '\'' then QuoteEnd(src, i + 1) else i
  }

  /** Past the newline that ends a comment, or the end of the text. */
  function CommentEnd(src: string, i: nat): (e: nat)
    requires i <= |src|
    ensures i <= e <= |src|
    decreases |src| - i
  {
    if i == |src| then i else if src[i] == '\n' then i + 1 else CommentEnd(src, i + 1)
  }

  /** Where a number stops; a second dot, a letter or an underscore makes it illegal. */
  datatype Number = Number(end: nat, dot: bool, legal: bool)

  function NumberEnd(src: string, i: nat, dot: bool): (n: Number)
    requires i <= |src|
    ensures i <= n.end <= |src|
    ensures forall j :: i <= j < n.end ==> IsDigit(src[j]) || src[j] == '.'
    ensures n.legal && n.end < |src| ==> !IsIdent(src[n.end]) && src[n.end] != '.'
    decreases |src| - i
  {
    if i == |src| then Number(i, dot, true)
    else if src[i] == '.' then
      if dot then Number(i, dot, false) else NumberEnd(src, i + 1, true)
    else if IsDigit(src[i]) then NumberEnd(src, i + 1, dot)
    else Number(i, dot, !IsIdent(src[i]))
  }

  const PUNCTUATION: map<char, Token> := map[
    '+' := ADD, '*' := MUL, '/' := DIV, '(' := LPAREN, ')' := RPAREN, ']' := LBRACKET,
    '[' := RBRACKET, ',' := COMMA, '.' := DOT, ':' := COLON]

  predicate IsPunctuation(c: char) { c in PUNCTUATION }

  function PunctuationToken(c: char): (t: Token)
    requires IsPunctuation(c)
    ensures t != EOF
  {
    PUNCTUATION[c]
  }

  predicate IsOperator(c: char) { c == '=' || c == '<' || c == '>' || c == '!' }

  /** Operators that may be followed by `=`: alone, and with it. */
  function Alone(c: char): Token {
    if c == '=' then ASSIGN else if c == '<' then LESS else GREATER
  }

  function WithEqual(c: char): Token {
    if c == '=' then EQUAL else if c == '<' then LEQUAL else if c == '>' then GEQUAL else NEQUAL
  }

  /** Keywords before `and` in the source's chain of comparisons, then the others. */
  const KEYWORDS: map<string, Token> := map[
    "import" := IMPORT, "from" := FROM, "export" := EXPORT, "or" := OR, "not" := NOT, "let" := LET,
    "if" := IF, "then" := THEN, "else" := ELSE, "elif" := ELIF, "end" := END, "do" := DO, "for" := FOR,
    "in" := IN, "while" := WHILE, "function" := FUNCTION, "break" := BREAK, "continue" := CONTINUE,
    "return" := RETURN, "insert" := INSERT, "delete" := DELETE, "singleton" := SINGLETON,
    "iter" := ITER, "next" := NEXT,
    "true" := LITERAL(Bool(true)), "false" := LITERAL(Bool(false)), "nil" := LITERAL(Nil),
    "int" := PRIMITIVE(INT), "fix" := PRIMITIVE(FIX), "str" := PRIMITIVE(INT),
    "vec2" := PRIMITIVE(VEC2), "vec3" := PRIMITIVE(VEC3), "vec4" := PRIMITIVE(VEC4),
    "ivec2" := PRIMITIVE(IVEC2), "ivec3" := PRIMITIVE(IVEC3), "ivec4" := PRIMITIVE(IVEC4)]

  /** The `and` comparison has its arguments swapped: it takes the rest of the text
      from the word on, so it holds of any prefix of "and" that ends the text. */
  predicate MatchesAnd(word: string, atEnd: bool) {
    atEnd && |word| <= 3 && word == "and"[..|word|]
  }

  function Classify(word: string, atEnd: bool): Token {
    if MatchesAnd(word, atEnd) then AND
    else if word in KEYWORDS then KEYWORDS[word]
    else IDENTIFIER(word)
  }

  ghost function IntLiteral(s: string): Token
    requires FixedPoint.AllDigits(s)
  {
    LITERAL(Int(FixedPoint.Decimal(s) % TWO32))
  }

  ghost function FixLiteral(s: string): Token
    requires FixedPoint.IsNumeral(s) && FixedPoint.AllDigits(FixedPoint.Whole(s) + FixedPoint.Fraction(s))
  {
    LITERAL(Fix(FixedPoint.Wrap(FixedPoint.Decimal(FixedPoint.Whole(s) + FixedPoint.Fraction(s)) * FixedPoint.TWO16
                                / FixedPoint.Pow10(|FixedPoint.Fraction(s)|))))
  }

  function Single(src: string, t: Token, i: nat, next: nat): Scan
    requires i <= |src|
  {
    Got(Lexeme(t, LocAt(src, i), LocAt(src, i)), next)
  }

  /** Two-character tokens report a stop with the next column and no index. */
  function Double(src: string, t: Token, i: nat): Scan
    requires i <= |src|
  {
    var l := LocAt(src, i);
    Got(Lexeme(t, l, Loc(l.line, (l.column + 1) % TWO16, 0)), i + 2)
  }

  ghost function ScanNumber(src: string, i: nat): (r: Scan)
    requires i < |src| && IsDigit(src[i])
    ensures r.Got? || (r.Err? && (r.error == ILLEGAL_CHARACTER || r.error == PARSE_FIXED_POINT))
    ensures i < r.next <= |src|
  {
    var n := NumberEnd(src, i, false);
    if !n.legal then Err(ILLEGAL_CHARACTER, n.end)
    else
      NumberShape(src, i, i, false);
      var text := src[i..n.end];
      var stop := LocAt(src, n.end - 1);
      if !n.dot then Got(Lexeme(IntLiteral(text), LocAt(src, i), stop), n.end)
      else if |FixedPoint.Fraction(text)| > 6 then Err(PARSE_FIXED_POINT, n.end)
      else Got(Lexeme(FixLiteral(text), LocAt(src, i), stop), n.end)
  }

  /** What a legal number spans has digits only, or one dot. */
  lemma {:induction false} NumberShape(src: string, start: nat, i: nat, dot: bool)
    requires start <= i <= |src|
    requires if dot then exists p :: start <= p < i && src[p] == '.' && OnlyDot(src, start, i, p)
             else DigitsIn(src, start, i)
    ensures var n := NumberEnd(src, i, dot);
            n.legal ==>
              var text := src[start..n.end];
              && (n.dot ==>
                    FixedPoint.IsNumeral(text)
                    && FixedPoint.AllDigits(FixedPoint.Whole(text) + FixedPoint.Fraction(text)))
              && (!n.dot ==> FixedPoint.AllDigits(text))
    decreases |src| - i
  {
    hide FixedPoint.IsNumeral, FixedPoint.Whole, FixedPoint.Fraction, FixedPoint.AllDigits;
    var n := NumberEnd(src, i, dot);
    if n.legal {
      if i < |src| && src[i] == '.' {
        assert OnlyDot(src, start, i + 1, i);
        NumberShape(src, start, i + 1, true);
      } else if i < |src| && IsDigit(src[i]) {
        if dot {
          var p :| start <= p < i && src[p] == '.' && OnlyDot(src, start, i, p);
          assert OnlyDot(src, start, i + 1, p);
        }
        NumberShape(src, start, i + 1, dot);
      } else if dot {
        var p :| start <= p < i && src[p] == '.' && OnlyDot(src, start, i, p);
        DotShape(src, start, i, p);
      } else {
        DigitsShape(src, start, i);
      }
    }
  }

  lemma {:induction false} DigitsShape(src: string, a: nat, b: nat)
    requires a <= b <= |src| && DigitsIn(src, a, b)
    ensures FixedPoint.AllDigits(src[a..b])
  {
  }

  ghost predicate DigitsIn(src: string, a: nat, b: nat)
    requires a <= b <= |src|
  {
    forall j :: a <= j < b ==> IsDigit(src[j])
  }

  ghost predicate OnlyDot(src: string, a: nat, b: nat, p: nat)
    requires a <= b <= |src|
  {
    forall j :: a <= j < b && j != p ==> IsDigit(src[j])
  }

  lemma {:induction false} DotShape(src: string, a: nat, b: nat, p: nat)
    requires a <= p < b <= |src| && src[p] == '.' && OnlyDot(src, a, b, p)
    ensures var text := src[a..b];
            && FixedPoint.Dot(text) == p - a
            && FixedPoint.IsNumeral(text) && FixedPoint.AllDigits(FixedPoint.Whole(text) + FixedPoint.Fraction(text))
            && FixedPoint.Whole(text) == src[a..p] && FixedPoint.Fraction(text) == src[p + 1..b]
  {
    var text := src[a..b];
    assert text[p - a] == '.';
    assert FixedPoint.Dot(text) == p - a;
    Halves(src, a, b, p);
    assert FixedPoint.AllDigits(src[a..p]) && FixedPoint.AllDigits(src[p + 1..b]);
  }

  lemma {:induction false} Halves(src: string, a: nat, b: nat, p: nat)
    requires a <= p < b <= |src|
    ensures src[a..b][..p - a] == src[a..p] && src[a..b][p - a + 1..] == src[p + 1..b]
  {
  }

  ghost function ScanQuoted(src: string, i: nat): (r: Scan)
    requires i < |src|
    ensures !r.End? && i < r.next <= |src|
    ensures r.Got? ==> r.lexeme.tok.LITERAL?
    ensures r.Err? ==> r.error == UNTERMINATED_STRING
  {
    var e := QuoteEnd(src, i + 1);
    if e == |src| then Err(UNTERMINATED_STRING, e)
    else Got(Lexeme(LITERAL(Str(src[i + 1..e])), LocAt(src, i), LocAt(src, e)), e + 1)
  }

  /** One call of `nulang__lexer_parse_token` with the next character at `i`. */
  ghost function ScanToken(src: string, i: nat): (r: Scan)
    requires i <= |src|
    ensures !r.End? ==> i < r.next <= |src|
    ensures r.Got? ==> r.lexeme.tok != EOF
    ensures r.Err? ==>
              r.error == ILLEGAL_CHARACTER || r.error == PARSE_FIXED_POINT || r.error == UNTERMINATED_STRING
    decreases |src| - i
  {
    if i == |src| then End
    else
      var c := View(src[i]);
      if IsPunctuation(c) then Single(src, PunctuationToken(c), i, i + 1)
      else if c == '-' then
        if i + 1 < |src| && src[i + 1] == '-' then ScanToken(src, CommentEnd(src, i + 2))
        else Single(src, SUB, i, i + 1)
      else if IsOperator(c) then
        if i + 1 < |src| && src[i + 1] == '=' then Double(src, WithEqual(c), i)
        else if c == '!' then Err(ILLEGAL_CHARACTER, i + 1)
        else Single(src, Alone(c), i, i + 1)
      else if c == ' ' then ScanToken(src, SpaceEnd(src, i + 1))
      else if c == '\'' then ScanQuoted(src, i)
      else if IsDigit(c) then ScanNumber(src, i)
      else if IsIdent(c) then
        var e := IdentEnd(src, i);
        Got(Lexeme(Classify(src[i..e], e == |src|), LocAt(src, i), LocAt(src, e - 1)), e)
      else ScanToken(src, i + 1)
  }

  // ----- one equation for each kind of token

  lemma {:induction false} ScanPunctuation(src: string, i: nat)
    requires i < |src| && IsPunctuation(View(src[i]))
    ensures ScanToken(src, i) == Single(src, PunctuationToken(View(src[i])), i, i + 1)
  {
    hide IsPunctuation, PunctuationToken, Classify, LocAt;
  }

  lemma {:induction false} ScanMinus(src: string, i: nat)
    requires i < |src| && src[i] == '-'
    ensures ScanToken(src, i)
         == (if i + 1 < |src| && src[i + 1] == '-' then ScanToken(src, CommentEnd(src, i + 2))
             else Single(src, SUB, i, i + 1))
  {
    hide PunctuationToken, Classify, LocAt;
  }

  lemma {:induction false} ScanOperator(src: string, i: nat)
    requires i < |src| && IsOperator(src[i])
    ensures ScanToken(src, i)
         == (if i + 1 < |src| && src[i + 1] == '=' then Double(src, WithEqual(src[i]), i)
             else if src[i] == '!' then Err(ILLEGAL_CHARACTER, i + 1)
             else Single(src, Alone(src[i]), i, i + 1))
  {
    hide PunctuationToken, Classify, LocAt;
  }

  lemma {:induction false} ScanSpace(src: string, i: nat)
    requires i < |src| && View(src[i]) == ' '
    ensures ScanToken(src, i) == ScanToken(src, SpaceEnd(src, i))
  {
    hide PunctuationToken, Classify, LocAt;
  }

  lemma {:induction false} ScanString(src: string, i: nat)
    requires i < |src| && src[i] == '\''
    ensures var e := QuoteEnd(src, i + 1);
            ScanToken(src, i) ==
            (if e == |src| then Err(UNTERMINATED_STRING, e)
             else Got(Lexeme(LITERAL(Str(src[i + 1..e])), LocAt(src, i), LocAt(src, e)), e + 1))
  {
    hide PunctuationToken, Classify, LocAt;
  }

  lemma {:induction false} ScanDigit(src: string, i: nat)
    requires i < |src| && IsDigit(src[i])
    ensures ScanToken(src, i) == ScanNumber(src, i)
  {
    hide PunctuationToken, Classify, LocAt, ScanNumber;
  }

  lemma {:induction false} ScanWord(src: string, i: nat)
    requires i < |src| && IsIdent(src[i]) && !IsDigit(src[i])
    ensures var e := IdentEnd(src, i);
            i < e && ScanToken(src, i)
                  == Got(Lexeme(Classify(src[i..e], e == |src|), LocAt(src, i), LocAt(src, e - 1)), e)
  {
    hide PunctuationToken, Classify, LocAt, ScanNumber;
  }

  /** Characters that start no token are skipped. */
  lemma {:induction false} ScanSkip(src: string, i: nat)
    requires i < |src| && !IsPunctuation(View(src[i])) && src[i] != '-' && !IsOperator(src[i])
    requires View(src[i]) != ' ' && src[i] != '\'' && !IsIdent(src[i])
    ensures ScanToken(src, i) == ScanToken(src, i + 1)
  {
    hide IsPunctuation, PunctuationToken, Classify, LocAt, ScanNumber;
  }

  /** Everything the lexer delivers from position `i` on. */
  ghost function Lexemes(src: string, i: nat): (r: seq<Scan>)
    requires i <= |src|
    decreases |src| - i
  {
    var x := ScanToken(src, i);
    if x.End? then [] else [x] + Lexemes(src, x.next)
  }

  /** The same as a stream of items for the parser. */
  ghost function Items(src: string, i: nat): (s: seq<Item>)
    requires i <= |src|
    ensures Proper(s)
    decreases |src| - i
  {
    var x := ScanToken(src, i);
    match x
    case End => []
    case Got(l, next) => [Tok(l.tok)] + Items(src, next)
    case Err(e, next) => [Bad(e)] + Items(src, next)
  }
}

/** Spelling tokens as text and lexing them back. */
module Texts {
  import opened Tokens
  import opened Scanning
  import FixedPoint
  import Lexing

  // ----- numbers as text

  function Digit(d: nat): (c: char)
    requires d < 10
    ensures FixedPoint.IsDigit(c) && FixedPoint.DigitValue(c) == d
  {
    '0' + d as char
  }

  function Numeral(n: nat): (s: string)
    ensures FixedPoint.AllDigits(s) && s != []
  {
    if n < 10 then [Digit(n)] else Numeral(n / 10) + [Digit(n % 10)]
  }

  /** The last `k` digits. */
  function Padded(n: nat, k: nat): (s: string)
    ensures FixedPoint.AllDigits(s) && |s| == k
  {
    if k == 0 then [] else Padded(n / 10, k - 1) + [Digit(n % 10)]
  }

  lemma {:induction false} NumeralDecimal(n: nat)
    ensures FixedPoint.Decimal(Numeral(n)) == n
    decreases n
  {
    if n < 10 {
      FixedPoint.DecimalSnoc([], Digit(n));
      assert [] + [Digit(n)] == [Digit(n)];
    } else {
      NumeralDecimal(n / 10);
      FixedPoint.DecimalSnoc(Numeral(n / 10), Digit(n % 10));
    }
  }

  lemma {:induction false} PaddedDecimal(n: nat, k: nat)
    requires n < FixedPoint.Pow10(k)
    ensures FixedPoint.Decimal(Padded(n, k)) == n
    decreases k
  {
    if k > 0 {
      PaddedDecimal(n / 10, k - 1);
      FixedPoint.DecimalSnoc(Padded(n / 10, k - 1), Digit(n % 10));
    }
  }

  const MILLION := 1_000_000

  /** The least number of millionths that is not below `f` 65536ths. */
  function Millionths(f: nat): nat {
    (f * MILLION + 0xFFFF) / 0x1_0000
  }

  /** Six fraction digits are enough to write every fixed-point value. */
  function Decimals(f: nat): string {
    Numeral(Millionths(f) / MILLION) + "." + Padded(Millionths(f) % MILLION, 6)
  }

  lemma {:induction false} MillionthsBack(f: nat)
    ensures Millionths(f) * 0x1_0000 / MILLION == f
  {
    var m := Millionths(f);
    assert f * MILLION <= m * 0x1_0000 <= f * MILLION + 0xFFFF;
  }

  // ----- tokens as text

  predicate Reserved(w: string) { w in KEYWORDS }

  /** The keyword that gives the token; `]` and `[` are spelled as the source swaps them. */
  function Word(t: Token): string {
    match t
    case IMPORT => "import" case FROM => "from" case EXPORT => "export" case OR => "or" case NOT => "not"
    case LET => "let" case IF => "if" case THEN => "then" case ELSE => "else" case ELIF => "elif"
    case END => "end" case DO => "do" case FOR => "for" case IN => "in" case WHILE => "while"
    case FUNCTION => "function" case BREAK => "break" case CONTINUE => "continue" case RETURN => "return"
    case INSERT => "insert" case DELETE => "delete" case SINGLETON => "singleton" case ITER => "iter"
    case NEXT => "next"
    case LITERAL(Bool(b)) => if b then "true" else "false"
    case LITERAL(Nil) => "nil"
    case PRIMITIVE(INT) => "int" case PRIMITIVE(FIX) => "fix"
    case PRIMITIVE(VEC2) => "vec2" case PRIMITIVE(VEC3) => "vec3" case PRIMITIVE(VEC4) => "vec4"
    case PRIMITIVE(IVEC2) => "ivec2" case PRIMITIVE(IVEC3) => "ivec3" case PRIMITIVE(IVEC4) => "ivec4"
    case _ => ""
  }

  function Symbol(t: Token): string {
    match t
    case ADD => "+" case SUB => "-" case MUL => "*" case DIV => "/" case LPAREN => "(" case RPAREN => ")"
    case LBRACKET => "]" case RBRACKET => "[" case COMMA => "," case DOT => "." case COLON => ":"
    case ASSIGN => "=" case LESS => "<" case GREATER => ">"
    case EQUAL => "==" case LEQUAL => "<=" case GEQUAL => ">=" case NEQUAL => "!="
    case _ => ""
  }

  function Spell(t: Token): string {
    match t
    case IDENTIFIER(n) => n
    case AND => "and"
    case LITERAL(Int(i)) => Numeral(i)
    case LITERAL(Fix(f)) => if f >= 0 then Decimals(f) else ""
    case LITERAL(Str(s)) => "'" + s + "'"
    case _ => Word(t) + Symbol(t)
  }

  predicate IsName(n: string) {
    && n != [] && !('0' <= n[0] <= '9')
    && forall i :: 0 <= i < |n| ==> 'a' <= n[i] <= 'z' || '0' <= n[i] <= '9' || n[i] == '_'
  }

  /** Tokens with a spelling: names that are no keyword, integers and fixed-point values
      the C arithmetic holds, strings without a quote. */
  predicate Spellable(t: Token) {
    match t
    case IDENTIFIER(n) => IsName(n) && !Reserved(n)
    case AND => true
    case LITERAL(Int(i)) => i < 0x8000_0000
    case LITERAL(Fix(f)) => 0 <= f < 0x8000_0000
    case LITERAL(Str(s)) => '\'' !in s
    case _ => Word(t) + Symbol(t) != ""
  }

  /** Spellings joined by single spaces. */
  function Text(ts: seq<Token>): string {
    if ts == [] then [] else if |ts| == 1 then Spell(ts[0]) else Spell(ts[0]) + " " + Text(ts[1..])
  }

  predicate AllSpellable(ts: seq<Token>) {
    forall k :: 0 <= k < |ts| ==> Spellable(ts[k])
  }

  /** The token that comes back: because of the swapped `and` comparison, `and` is a
      name unless it ends the text, and a name that starts "and" is AND if it does. */
  function Again(t: Token, last: bool): Token {
    match t
    case AND => if last then AND else IDENTIFIER("and")
    case IDENTIFIER(n) => if MatchesAnd(n, last) then AND else t
    case _ => t
  }

  function Delivered(ts: seq<Token>): seq<Item> {
    if ts == [] then [] else [Tok(Again(ts[0], |ts| == 1))] + Delivered(ts[1..])
  }

  function Plain(ts: seq<Token>): seq<Item> {
    seq(|ts|, k requires 0 <= k < |ts| => Tok(ts[k]))
  }

  /** `w` stands at `i`, alone: the text ends after it or goes on with a space. */
  ghost predicate Stands(src: string, i: nat, w: string) {
    && i + |w| <= |src| && src[i..i + |w|] == w
    && (i + |w| < |src| ==> src[i + |w|] == ' ')
  }

  ghost predicate Scans(src: string, i: nat, t: Token, next: nat)
    requires i <= |src|
  {
    var r := ScanToken(src, i);
    r.Got? && r.lexeme.tok == t && r.next == next
  }

  lemma {:induction false} StandsAt(src: string, i: nat, w: string, k: nat)
    requires Stands(src, i, w) && k < |w|
    ensures i + k < |src| && src[i + k] == w[k]
  {
    assert src[i..i + |w|][k] == src[i + k];
  }

  lemma {:induction false} IdentEndIs(src: string, i: nat, e: nat)
    requires i <= e <= |src| && (forall j :: i <= j < e ==> IsIdent(src[j])) && (e < |src| ==> !IsIdent(src[e]))
    ensures IdentEnd(src, i) == e
    decreases e - i
  {
    if i < e { IdentEndIs(src, i + 1, e); }
  }

  lemma {:induction false} NameScans(src: string, i: nat, w: string)
    requires IsName(w) && Stands(src, i, w)
    ensures Scans(src, i, Classify(w, i + |w| == |src|), i + |w|)
  {
    hide ScanToken, Classify;
    forall j | i <= j < i + |w| ensures IsIdent(src[j]) { StandsAt(src, i, w, j - i); }
    StandsAt(src, i, w, 0);
    IdentEndIs(src, i, i + |w|);
    ScanWord(src, i);
  }

  lemma {:induction false} StandsHere(src: string, i: nat, w: string)
    requires Stands(src, i, w)
    ensures i + |w| <= |src| && src[i..i + |w|] == w && (i + |w| < |src| ==> src[i + |w|] == ' ')
  {
  }

  lemma {:induction false} NumberEndIs(src: string, i: nat, e: nat, dot: bool)
    requires i <= e <= |src| && (forall j :: i <= j < e ==> IsDigit(src[j])) && (e < |src| ==> src[e] == ' ')
    ensures NumberEnd(src, i, dot) == Number(e, dot, true)
    decreases e - i
  {
    if i < e { NumberEndIs(src, i + 1, e, dot); }
  }

  lemma {:induction false} NumberEndDot(src: string, i: nat, p: nat, e: nat)
    requires i <= p < e <= |src| && src[p] == '.' && (e < |src| ==> src[e] == ' ')
    requires forall j :: i <= j < e && j != p ==> IsDigit(src[j])
    ensures NumberEnd(src, i, false) == Number(e, true, true)
    decreases p - i
  {
    if i < p { NumberEndDot(src, i + 1, p, e); } else { NumberEndIs(src, p + 1, e, true); }
  }

  lemma {:induction false} IntScans(src: string, i: nat, n: nat)
    requires n < 0x8000_0000 && Stands(src, i, Numeral(n))
    ensures Scans(src, i, LITERAL(Int(n)), i + |Numeral(n)|)
  {
    hide ScanToken, NumberEnd, Numeral, FixedPoint.Decimal, LocAt, FixedPoint.Wrap, FixedPoint.Whole,
      FixedPoint.Fraction, FixedPoint.IsNumeral, FixedPoint.Dot, Stands;
    var w := Numeral(n);
    StandsHere(src, i, w);
    forall j | i <= j < i + |w| ensures IsDigit(src[j]) { StandsAt(src, i, w, j - i); }
    NumberEndIs(src, i, i + |w|, false);
    NumeralDecimal(n);
    ScanDigit(src, i);
  }

  /** Digits, a dot and digits, standing alone. */
  lemma {:induction false} DottedScans(src: string, i: nat, a: string, b: string)
    requires FixedPoint.AllDigits(a) && FixedPoint.AllDigits(b) && a != "" && Stands(src, i, a + "." + b)
    ensures var e := i + |a| + 1 + |b|;
            && e <= |src| && IsDigit(src[i]) && NumberEnd(src, i, false) == Number(e, true, true)
            && src[i + |a|] == '.' && OnlyDot(src, i, e, i + |a|)
            && src[i..i + |a|] == a && src[i + |a| + 1..e] == b
  {
    hide NumberEnd;
    var w := a + "." + b;
    var p, e := i + |a|, i + |w|;
    forall j | i <= j < e ensures if j == p then src[j] == '.' else IsDigit(src[j]) { StandsAt(src, i, w, j - i); }
    NumberEndDot(src, i, p, e);
    assert src[i..e] == w;
    assert src[i..p] == w[..|a|] && src[p + 1..e] == w[|a| + 1..];
  }

  lemma {:induction false} FixScans(src: string, i: nat, f: nat)
    requires f < 0x8000_0000 && Stands(src, i, Decimals(f))
    ensures Scans(src, i, LITERAL(Fix(f)), i + |Decimals(f)|)
  {
    hide ScanToken, NumberEnd, Numeral, Padded, Millionths, FixedPoint.Decimal, FixedPoint.Pow10, FixedPoint.Wrap,
      FixedPoint.Dot, FixedPoint.Whole, FixedPoint.Fraction, FixedPoint.IsNumeral, LocAt, OnlyDot, Stands;
    var a, b := Numeral(Millionths(f) / MILLION), Padded(Millionths(f) % MILLION, 6);
    DottedScans(src, i, a, b);
    DotShape(src, i, i + |a| + 1 + |b|, i + |a|);
    ScanDigit(src, i);
    FixValue(f, a, b);
  }

  lemma {:induction false} FixValue(f: nat, a: string, b: string)
    requires f < 0x8000_0000 && a == Numeral(Millionths(f) / MILLION) && b == Padded(Millionths(f) % MILLION, 6)
    ensures FixedPoint.AllDigits(a + b)
    ensures FixedPoint.Wrap(FixedPoint.Decimal(a + b) * FixedPoint.TWO16 / FixedPoint.Pow10(|b|)) == f
  {
    hide Numeral, Padded, Millionths, FixedPoint.Decimal, FixedPoint.Pow10;
    var m := Millionths(f);
    TenToSix();
    NumeralDecimal(m / MILLION);
    PaddedDecimal(m % MILLION, 6);
    FixedPoint.DecimalConcat(a, b);
    MillionthsBack(f);
    assert FixedPoint.Decimal(a + b) == m;
  }

  lemma {:induction false} TenToSix()
    ensures FixedPoint.Pow10(6) == MILLION
  {
    assert FixedPoint.Pow10(3) == 1000;
  }

  lemma {:induction false} QuoteEndIs(src: string, i: nat, e: nat)
    requires i <= e < |src| && (forall j :: i <= j < e ==> src[j] != '\'') && src[e] == '\''
    ensures QuoteEnd(src, i) == e
    decreases e - i
  {
    if i < e { QuoteEndIs(src, i + 1, e); }
  }

  lemma {:induction false} StringScans(src: string, i: nat, s: string)
    requires '\'' !in s && Stands(src, i, "'" + s + "'")
    ensures Scans(src, i, LITERAL(Str(s)), i + |s| + 2)
  {
    hide ScanToken, QuoteEnd, LocAt;
    var w := "'" + s + "'";
    var e := i + 1 + |s|;
    StandsAt(src, i, w, 0);
    StandsAt(src, i, w, |s| + 1);
    forall k | 0 <= k < |s| ensures src[i + 1..e][k] == s[k] { StandsAt(src, i, w, k + 1); }
    assert src[i + 1..e] == s;
    forall j | i + 1 <= j < e ensures src[j] != '\'' { assert src[j] == s[j - (i + 1)]; }
    QuoteEndIs(src, i + 1, e);
    ScanString(src, i);
  }

  lemma {:induction false} WordIs(t: Token)
    requires Word(t) != ""
    ensures IsName(Word(t)) && Word(t) in KEYWORDS && KEYWORDS[Word(t)] == t
    ensures forall last :: !MatchesAnd(Word(t), last)
  {
    hide Word;
    WordName(t);
    WordKeyword(t);
    WordNotAnd(t);
  }

  lemma {:induction false} WordName(t: Token)
    ensures Word(t) != "" ==> IsName(Word(t))
  {
    hide Word, IsName;
    if t.LITERAL? || t.PRIMITIVE? { ValueName(t); } else { TokenName(t); }
  }

  lemma {:induction false} ValueName(t: Token)
    requires t.LITERAL? || t.PRIMITIVE?
    ensures Word(t) != "" ==> IsName(Word(t))
  {
  }

  lemma {:induction false} TokenName(t: Token)
    requires !t.LITERAL? && !t.PRIMITIVE?
    ensures Word(t) != "" ==> IsName(Word(t))
  {
    hide Word, IsName;
    Lowercase(t);
    if Word(t) != "" { AllLetters(Word(t)); }
  }

  lemma {:induction false} Lowercase(t: Token)
    requires !t.LITERAL? && !t.PRIMITIVE?
    ensures forall i :: 0 <= i < |Word(t)| ==> 'a' <= Word(t)[i] <= 'z'
  {
  }

  lemma {:induction false} AllLetters(w: string)
    requires w != "" && forall i :: 0 <= i < |w| ==> 'a' <= w[i] <= 'z'
    ensures IsName(w)
  {
  }

  predicate Spoken(t: Token) { Word(t) != "" ==> Word(t) in KEYWORDS && KEYWORDS[Word(t)] == t }

  lemma {:induction false} WordKeyword(t: Token)
    ensures Spoken(t)
  {
    hide Spoken;
    match t
    case LITERAL(_) => ValueWords(t);
    case PRIMITIVE(_) => ValueWords(t);
    case IF => BranchWords(t); case THEN => BranchWords(t); case ELSE => BranchWords(t); case ELIF => BranchWords(t);
    case END => BlockWords(t); case DO => BlockWords(t); case FOR => BlockWords(t); case IN => BlockWords(t);
    case WHILE => LeaveWords(t); case BREAK => LeaveWords(t); case CONTINUE => LeaveWords(t);
    case RETURN => LeaveWords(t);
    case INSERT => TableWords(t); case DELETE => TableWords(t); case SINGLETON => TableWords(t);
    case ITER => TableWords(t);
    case NEXT => ModuleWords(t); case IMPORT => ModuleWords(t); case FROM => ModuleWords(t);
    case EXPORT => ModuleWords(t);
    case _ => OtherWords(t);
  }

  lemma {:induction false} ValueWords(t: Token)
    requires t.LITERAL? || t.PRIMITIVE?
    ensures Spoken(t)
  {
  }

  lemma {:induction false} BranchWords(t: Token)
    requires t.IF? || t.THEN? || t.ELSE? || t.ELIF?
    ensures Spoken(t)
  {
  }

  lemma {:induction false} BlockWords(t: Token)
    requires t.END? || t.DO? || t.FOR? || t.IN?
    ensures Spoken(t)
  {
  }

  lemma {:induction false} LeaveWords(t: Token)
    requires t.WHILE? || t.BREAK? || t.CONTINUE? || t.RETURN?
    ensures Spoken(t)
  {
  }

  lemma {:induction false} TableWords(t: Token)
    requires t.INSERT? || t.DELETE? || t.SINGLETON? || t.ITER?
    ensures Spoken(t)
  {
  }

  lemma {:induction false} ModuleWords(t: Token)
    requires t.NEXT? || t.IMPORT? || t.FROM? || t.EXPORT?
    ensures Spoken(t)
  {
  }

  lemma {:induction false} OtherWords(t: Token)
    requires !t.LITERAL? && !t.PRIMITIVE?
    requires !t.IF? && !t.THEN? && !t.ELSE? && !t.ELIF? && !t.END? && !t.DO? && !t.FOR? && !t.IN?
    requires !t.WHILE? && !t.BREAK? && !t.CONTINUE? && !t.RETURN?
    requires !t.INSERT? && !t.DELETE? && !t.SINGLETON? && !t.ITER? && !t.NEXT? && !t.IMPORT? && !t.FROM? && !t.EXPORT?
    ensures Spoken(t)
  {
  }

  lemma {:induction false} AndStarts(w: string, last: bool)
    requires MatchesAnd(w, last) && w != ""
    ensures w[0] == 'a'
  {
    assert w[0] == "and"[..|w|][0];
  }

  lemma {:induction false} AndIs(w: string, last: bool)
    requires w != ""
    ensures MatchesAnd(w, last) <==> last && w in {"a", "an", "and"}
  {
    if MatchesAnd(w, last) {
      if |w| == 1 { assert w == "a"; } else if |w| == 2 { assert w == "an"; } else { assert w == "and"; }
    }
  }

  lemma {:induction false} WordNotAnd(t: Token)
    ensures forall last :: Word(t) != "" ==> !MatchesAnd(Word(t), last)
  {
    hide Word;
    WordHead(t);
    forall last | Word(t) != "" ensures !MatchesAnd(Word(t), last) {
      if MatchesAnd(Word(t), last) { AndStarts(Word(t), last); }
    }
  }

  lemma {:induction false} WordHead(t: Token)
    ensures Word(t) != "" ==> Word(t)[0] != 'a'
  {
  }

  lemma {:induction false} WordScans(src: string, i: nat, t: Token)
    requires Word(t) != "" && Stands(src, i, Word(t))
    ensures Scans(src, i, t, i + |Word(t)|)
  {
    hide Word;
    WordIs(t);
    NameScans(src, i, Word(t));
  }

  lemma {:induction false} SymbolScans(src: string, i: nat, t: Token)
    requires Symbol(t) != "" && Stands(src, i, Symbol(t))
    ensures Scans(src, i, t, i + |Symbol(t)|)
  {
    hide ScanToken, Symbol, Scans;
    SymbolIs(t);
    var w := Symbol(t);
    StandsAt(src, i, w, 0);
    if IsPunctuation(w[0]) {
      PunctuationScans(src, i, t);
    } else {
      OperatorScans(src, i, t);
    }
  }

  lemma {:induction false} PunctuationScans(src: string, i: nat, t: Token)
    requires |Symbol(t)| == 1 && i < |src| && src[i] == Symbol(t)[0] && IsPunctuation(src[i])
    requires PunctuationToken(src[i]) == t
    ensures Scans(src, i, t, i + |Symbol(t)|)
  {
    hide ScanToken, Symbol, PunctuationToken;
    ScanPunctuation(src, i);
  }

  lemma {:induction false} OperatorScans(src: string, i: nat, t: Token)
    requires var w := Symbol(t); w != "" && Stands(src, i, w) && OperatorSymbol(w, t)
    ensures Scans(src, i, t, i + |Symbol(t)|)
  {
    hide ScanToken, Symbol, WithEqual, Alone;
    var w := Symbol(t);
    StandsAt(src, i, w, 0);
    if w[0] == '-' {
      ScanMinus(src, i);
    } else {
      if |w| == 2 { StandsAt(src, i, w, 1); }
      ScanOperator(src, i);
    }
  }

  /** `w` is `-`, or an operator character, alone or with `=`. */
  predicate OperatorSymbol(w: string, t: Token) {
    || (w == "-" && t == SUB)
    || (|w| == 1 && IsOperator(w[0]) && w[0] != '!' && w[0] != '-' && Alone(w[0]) == t)
    || (|w| == 2 && IsOperator(w[0]) && w[0] != '-' && w[1] == '=' && WithEqual(w[0]) == t)
  }

  lemma {:induction false} SymbolIs(t: Token)
    requires Symbol(t) != ""
    ensures var w := Symbol(t);
            && w[0] != '\n' && View(w[0]) == w[0]
            && (IsPunctuation(w[0]) ==> |w| == 1 && PunctuationToken(w[0]) == t)
            && (!IsPunctuation(w[0]) ==> OperatorSymbol(w, t))
  {
  }

  lemma {:induction false} FixedScans(src: string, i: nat, t: Token)
    requires Word(t) + Symbol(t) != "" && Stands(src, i, Word(t) + Symbol(t))
    ensures View((Word(t) + Symbol(t))[0]) != ' '
    ensures Scans(src, i, t, i + |Word(t) + Symbol(t)|)
  {
    hide Scans, Stands, Word, Symbol, KEYWORDS, MatchesAnd;
    WordOrSymbol(t);
    assert Word(t) + Symbol(t) == if Word(t) != "" then Word(t) else Symbol(t);
    if Word(t) != "" {
      WordIs(t);
      WordScans(src, i, t);
    } else {
      SymbolScans(src, i, t);
    }
  }

  lemma {:induction false} Classified(n: string, last: bool)
    ensures !Reserved(n) ==> Classify(n, last) == Again(IDENTIFIER(n), last)
  {
    hide MatchesAnd;
  }

  lemma {:induction false} AndClassified(last: bool)
    ensures Classify("and", last) == Again(AND, last)
  {
    hide MatchesAnd;
    AndEnds(last);
    AndFree();
  }

  lemma {:induction false} AndFree()
    ensures "and" !in KEYWORDS
  {
  }

  lemma {:induction false} AndEnds(last: bool)
    ensures MatchesAnd("and", last) == last
  {
    assert "and"[..3] == "and";
  }

  /** Any spellable token, standing alone, is lexed as itself up to the `and` confusion. */
  lemma {:induction false} SpellScans(src: string, i: nat, t: Token)
    requires Spellable(t) && Stands(src, i, Spell(t))
    ensures Spell(t) != "" && View(Spell(t)[0]) != ' '
    ensures Scans(src, i, Again(t, i + |Spell(t)| == |src|), i + |Spell(t)|)
  {
    hide Scans, Stands, Word, Symbol, Spell, Spellable, Again, Classify, MatchesAnd;
    SpellIs(t);
    AgainIs(t, i + |Spell(t)| == |src|);
    if t.IDENTIFIER? {
      Classified(t.name, i + |t.name| == |src|);
      NameScans(src, i, t.name);
    } else if t == AND {
      AndClassified(i + 3 == |src|);
      NameScans(src, i, "and");
    } else if t.LITERAL? {
      LiteralScans(src, i, t);
    } else {
      FixedScans(src, i, t);
    }
  }

  lemma {:induction false} SpellIs(t: Token)
    ensures t.IDENTIFIER? ==> Spell(t) == t.name && (Spellable(t) ==> IsName(t.name) && !Reserved(t.name))
    ensures t == AND ==> Spell(t) == "and"
    ensures !t.IDENTIFIER? && t != AND && !t.LITERAL? ==>
              Spell(t) == Word(t) + Symbol(t) && (Spellable(t) ==> Spell(t) != "")
  {
    hide Word, Symbol, Reserved, IsName;
  }

  lemma {:induction false} AgainIs(t: Token, last: bool)
    ensures !t.IDENTIFIER? && t != AND ==> Again(t, last) == t
  {
  }

  lemma {:induction false} LiteralScans(src: string, i: nat, t: Token)
    requires t.LITERAL? && Spellable(t) && Stands(src, i, Spell(t))
    ensures Spell(t) != "" && View(Spell(t)[0]) != ' '
    ensures Scans(src, i, t, i + |Spell(t)|)
  {
    hide Scans, Stands, Word, Symbol, Numeral, Decimals, Millionths;
    match t.lit
    case Int(n) => IntScans(src, i, n);
    case Fix(f) =>
      FixScans(src, i, f);
      DecimalsHead(f);
    case Str(s) => StringScans(src, i, s);
    case _ => FixedScans(src, i, t);
  }

  lemma {:induction false} DecimalsHead(f: nat)
    ensures Decimals(f) != "" && Decimals(f)[0] == Numeral(Millionths(f) / MILLION)[0]
  {
  }

  lemma {:induction false} WordOrSymbol(t: Token)
    ensures Word(t) == "" || Symbol(t) == ""
    ensures Symbol(t) != "" ==> View(Symbol(t)[0]) != ' '
    ensures Word(t) + Symbol(t) == if Word(t) == "" then Symbol(t) else Word(t)
  {
  }

  lemma {:induction false} TextStands(src: string, i: nat, ts: seq<Token>)
    requires ts != [] && i <= |src| && src[i..] == Text(ts)
    ensures Stands(src, i, Spell(ts[0])) && (i + |Spell(ts[0])| == |src| <==> |ts| == 1)
    ensures |ts| > 1 ==>
              src[i + |Spell(ts[0])|] == ' ' && src[i + |Spell(ts[0])| + 1..] == Text(ts[1..])
  {
    hide Spell;
    var w := Spell(ts[0]);
    if |ts| > 1 {
      assert Text(ts) == w + " " + Text(ts[1..]);
      WordAhead(src, i, w, Text(ts[1..]));
    } else {
      assert Text(ts) == w;
      assert src[i..] == w;
      assert src[i..i + |w|] == w;
    }
  }

  lemma {:induction false} WordAhead(src: string, i: nat, w: string, rest: string)
    requires i <= |src| && src[i..] == w + " " + rest
    ensures i + |w| < |src| && src[i..i + |w|] == w && src[i + |w|] == ' ' && src[i + |w| + 1..] == rest
  {
    assert |src[i..]| == |w| + 1 + |rest|;
    assert src[i..][|w|] == ' ';
    Slices(src, i, |w|);
  }

  lemma {:induction false} Slices(src: string, i: nat, n: nat)
    requires i + n < |src|
    ensures src[i..][..n] == src[i..i + n] && src[i..][n + 1..] == src[i + n + 1..]
  {
  }

  lemma {:induction false} TextStarts(ts: seq<Token>)
    requires ts != [] && Spell(ts[0]) != ""
    ensures Text(ts) != "" && Text(ts)[0] == Spell(ts[0])[0]
  {
    hide Spell;
  }

  /** One space before a token changes nothing. */
  lemma {:induction false} OverSpace(src: string, i: nat)
    requires i + 1 < |src| && src[i] == ' ' && View(src[i + 1]) != ' '
    ensures Items(src, i) == Items(src, i + 1)
  {
    hide ScanToken, Items;
    assert SpaceEnd(src, i + 1) == i + 1;
    assert SpaceEnd(src, i) == SpaceEnd(src, i + 1);
    ScanSpace(src, i);
    Lexing.ItemsStep(src, i);
    Lexing.ItemsStep(src, i + 1);
  }

  /** The lexer delivers every spelled sequence, up to the `and` confusion. */
  lemma {:induction false} TextItems(src: string, i: nat, ts: seq<Token>)
    requires AllSpellable(ts) && i <= |src| && src[i..] == Text(ts)
    ensures Items(src, i) == Delivered(ts)
    decreases ts
  {
    hide ScanToken, Items, Spell, Again, Spellable, Text, Stands;
    if ts == [] {
      assert Text(ts) == [] by { NoText(); }
      Lexing.ScanEnd(src);
    } else {
      assert Spellable(ts[0]);
      TextStands(src, i, ts);
      SpellScans(src, i, ts[0]);
      Lexing.ItemsStep(src, i);
      var j := i + |Spell(ts[0])|;
      if |ts| == 1 {
        Lexing.ScanEnd(src);
        assert ts[1..] == [];
      } else {
        var rest := ts[1..];
        TextItems(src, j + 1, rest);
        RestStands(src, j, rest);
        OverSpace(src, j);
      }
    }
  }

  lemma {:induction false} NoText()
    ensures Text([]) == []
  {
  }

  lemma {:induction false} RestStands(src: string, j: nat, rest: seq<Token>)
    requires rest != [] && Spellable(rest[0]) && j + 1 <= |src| && src[j + 1..] == Text(rest)
    ensures j + 1 < |src| && View(src[j + 1]) != ' '
  {
    hide ScanToken, Items, Spell, Again, Spellable, Text, Stands;
    TextStands(src, j + 1, rest);
    SpellScans(src, j + 1, rest[0]);
    TextStarts(rest);
    assert src[j + 1] == src[j + 1..][0];
  }

  /** `and` is read as a keyword at the end of the text, and only there; so are the
      names that start it. */
  predicate AndsFit(ts: seq<Token>) {
    forall k :: 0 <= k < |ts| ==>
      if k == |ts| - 1 then ts[k] !in {IDENTIFIER("a"), IDENTIFIER("an"), IDENTIFIER("and")} else ts[k] != AND
  }

  lemma {:induction false} LetterSpellable(n: string)
    requires n == "x" || n == "y"
    ensures Spellable(IDENTIFIER(n))
  {
  }

  lemma {:induction false} TextOfThree(a: Token, b: Token, c: Token)
    ensures Text([a, b, c]) == Spell(a) + " " + (Spell(b) + " " + Spell(c))
  {
    hide Spell;
    assert [a, b, c][1..] == [b, c] && [b, c][1..] == [c];
    assert Text([b, c]) == Spell(b) + " " + Spell(c);
  }

  /** `x and y` does not come back: there `and` is lexed as a name. */
  lemma {:induction false} AndLost()
    ensures var ts := [IDENTIFIER("x"), AND, IDENTIFIER("y")];
            AllSpellable(ts) && Text(ts) == "x and y" && Items(Text(ts), 0) != Plain(ts)
  {
    hide Items, Text, Spellable;
    var ts := [IDENTIFIER("x"), AND, IDENTIFIER("y")];
    LetterSpellable("x");
    LetterSpellable("y");
    assert Spellable(AND) by { AndSpellable(); }
    TextOfThree(ts[0], ts[1], ts[2]);
    TextRoundTrip(ts);
    assert ts[1] == AND;
  }

  lemma {:induction false} AndSpellable()
    ensures Spellable(AND)
  {
  }

  /** Text-level round trip: lexing the spelling of a sequence of tokens gives the
      sequence back, and then the end, exactly when its `and`s fit. */
  lemma {:induction false} TextRoundTrip(ts: seq<Token>)
    requires AllSpellable(ts)
    ensures Items(Text(ts), 0) == Plain(ts) <==> AndsFit(ts)
  {
    hide Items, Text, Spellable, Delivered, Again;
    assert Text(ts)[0..] == Text(ts);
    TextItems(Text(ts), 0, ts);
    DeliveredIs(ts);
    var d := Delivered(ts);
    forall k | 0 <= k < |ts|
      ensures d[k] == Tok(ts[k]) <==>
              if k == |ts| - 1 then ts[k] !in {IDENTIFIER("a"), IDENTIFIER("an"), IDENTIFIER("and")} else ts[k] != AND
    {
      assert Spellable(ts[k]);
      AgainSame(ts[k], k == |ts| - 1);
    }
    if AndsFit(ts) { assert d == Plain(ts); }
    if d == Plain(ts) {
      forall k | 0 <= k < |ts| ensures d[k] == Tok(ts[k]) { assert Plain(ts)[k] == Tok(ts[k]); }
    }
  }

  lemma {:induction false} DeliveredIs(ts: seq<Token>)
    ensures |Delivered(ts)| == |ts|
    ensures forall k :: 0 <= k < |ts| ==> Delivered(ts)[k] == Tok(Again(ts[k], k == |ts| - 1))
    decreases ts
  {
    hide Again;
    if ts != [] {
      DeliveredIs(ts[1..]);
      forall k | 0 <= k < |ts| ensures Delivered(ts)[k] == Tok(Again(ts[k], k == |ts| - 1)) {
        if k > 0 { assert ts[1..][k - 1] == ts[k]; }
      }
    }
  }

  lemma {:induction false} AgainSame(t: Token, last: bool)
    requires Spellable(t)
    ensures Again(t, last) == t
       <==> if last then t !in {IDENTIFIER("a"), IDENTIFIER("an"), IDENTIFIER("and")} else t != AND
  {
    if t.IDENTIFIER? && t.name != [] { AndPrefix(t.name, last); }
  }

  lemma {:induction false} AndPrefix(w: string, last: bool)
    requires w != []
    ensures MatchesAnd(w, last) <==> last && w in {"a", "an", "and"}
  {
    assert "and"[..1] == "a" && "and"[..2] == "an" && "and"[..3] == "and";
  }
}

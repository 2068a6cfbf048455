/** The tokens of nucleus/lang/token.h and lexer.h by the characters that spell them,
    written out: names, keywords, signs, numbers and strings, with where each starts and
    stops, and what the lexer refuses. */
module Characters {
  import opened Tokens
  import opened Scanning
  import FixedPoint
  import Lexing
  import Texts

  // ----- words

  /** From `i` on there is `w`, which starts with a letter or an underscore, and then no
      letter, digit or underscore. */
  ghost predicate Standing(src: string, i: nat, w: string) {
    && w != "" && i + |w| <= |src| && src[i..i + |w|] == w
    && (forall k :: 0 <= k < |w| ==> 'a' <= w[k] <= 'z' || '0' <= w[k] <= '9' || w[k] == '_')
    && !('0' <= w[0] <= '9')
    && (i + |w| < |src| ==>
          var c := src[i + |w|]; !('a' <= c <= 'z') && !('0' <= c <= '9') && c != '_')
  }

  /** One scan from `i` takes all of `w` as this token. */
  ghost predicate Gives(src: string, i: nat, w: string, t: Token) {
    && w != "" && i + |w| <= |src|
    && ScanToken(src, i) == Got(Lexeme(t, LocAt(src, i), LocAt(src, i + |w| - 1)), i + |w|)
  }

  lemma {:induction false} StandingScans(src: string, i: nat, w: string)
    requires Standing(src, i, w)
    ensures Gives(src, i, w, Classify(w, i + |w| == |src|))
  {
    hide ScanToken, Classify, LocAt;
    var e := i + |w|;
    forall j | i <= j < e ensures IsIdent(src[j]) { assert src[j] == src[i..e][j - i]; }
    assert src[i] == src[i..e][0];
    Texts.IdentEndIs(src, i, e);
    ScanWord(src, i);
  }

  lemma {:induction false} NoKeyword(w: string)
    requires w !in {"import", "from", "export", "or", "not", "let", "if", "then", "else", "elif", "end", "do",
                  "for", "in", "while", "function", "break", "continue", "return", "insert", "delete",
                  "singleton", "iter", "next", "true", "false", "nil", "int", "fix", "str", "vec2", "vec3",
                  "vec4", "ivec2", "ivec3", "ivec4"}
    ensures w !in KEYWORDS
  {
  }

  /** A word of letters, digits and underscores that starts with no digit, and is none of
      the words of the language, is one name, unless it starts `and` and ends the text. */
  lemma {:induction false} NameScans(src: string, i: nat, w: string)
    requires w != "" && i + |w| <= |src| && src[i..i + |w|] == w
    requires forall k :: 0 <= k < |w| ==> 'a' <= w[k] <= 'z' || '0' <= w[k] <= '9' || w[k] == '_'
    requires !('0' <= w[0] <= '9')
    requires w !in {"import", "from", "export", "or", "not", "let", "if", "then", "else", "elif", "end", "do",
                  "for", "in", "while", "function", "break", "continue", "return", "insert", "delete",
                  "singleton", "iter", "next", "true", "false", "nil", "int", "fix", "str", "vec2", "vec3",
                  "vec4", "ivec2", "ivec3", "ivec4"}
    requires if i + |w| < |src| then
               var c := src[i + |w|]; !('a' <= c <= 'z') && !('0' <= c <= '9') && c != '_'
             else w !in {"a", "an", "and"}
    ensures ScanToken(src, i)
         == Got(Lexeme(IDENTIFIER(w), LocAt(src, i), LocAt(src, i + |w| - 1)), i + |w|)
    ensures Items(src, i) == [Tok(IDENTIFIER(w))] + Items(src, i + |w|)
  {
    hide ScanToken, LocAt, MatchesAnd;
    StandingScans(src, i, w);
    NoKeyword(w);
    Texts.AndIs(w, i + |w| == |src|);
  }

  /** What the lexer takes for the keyword `and`. */
  lemma {:induction false} AndScans(src: string, i: nat, w: string)
    requires Standing(src, i, w) && w in {"a", "an", "and"} && i + |w| == |src|
    ensures Gives(src, i, w, AND)
  {
    hide ScanToken, LocAt, MatchesAnd, Standing;
    assert w != "" by { StandingWord(src, i, w); }
    Texts.AndIs(w, true);
    StandingScans(src, i, w);
  }

  lemma {:induction false} StandingWord(src: string, i: nat, w: string)
    requires Standing(src, i, w)
    ensures w != "" && i + |w| <= |src|
  {
  }

  lemma {:induction false} Keywords1()
    ensures "import" in KEYWORDS && KEYWORDS["import"] == IMPORT
    ensures "from" in KEYWORDS && KEYWORDS["from"] == FROM
    ensures "export" in KEYWORDS && KEYWORDS["export"] == EXPORT
    ensures "or" in KEYWORDS && KEYWORDS["or"] == OR
  {
  }

  lemma {:induction false} Keywords2()
    ensures "not" in KEYWORDS && KEYWORDS["not"] == NOT
    ensures "let" in KEYWORDS && KEYWORDS["let"] == LET
    ensures "if" in KEYWORDS && KEYWORDS["if"] == IF
    ensures "then" in KEYWORDS && KEYWORDS["then"] == THEN
  {
  }

  lemma {:induction false} Keywords3()
    ensures "else" in KEYWORDS && KEYWORDS["else"] == ELSE
    ensures "elif" in KEYWORDS && KEYWORDS["elif"] == ELIF
    ensures "end" in KEYWORDS && KEYWORDS["end"] == END
    ensures "do" in KEYWORDS && KEYWORDS["do"] == DO
  {
  }

  lemma {:induction false} Keywords4()
    ensures "for" in KEYWORDS && KEYWORDS["for"] == FOR
    ensures "in" in KEYWORDS && KEYWORDS["in"] == IN
    ensures "while" in KEYWORDS && KEYWORDS["while"] == WHILE
    ensures "function" in KEYWORDS && KEYWORDS["function"] == FUNCTION
  {
  }

  lemma {:induction false} Keywords5()
    ensures "break" in KEYWORDS && KEYWORDS["break"] == BREAK
    ensures "continue" in KEYWORDS && KEYWORDS["continue"] == CONTINUE
    ensures "return" in KEYWORDS && KEYWORDS["return"] == RETURN
    ensures "insert" in KEYWORDS && KEYWORDS["insert"] == INSERT
  {
  }

  lemma {:induction false} Keywords6()
    ensures "delete" in KEYWORDS && KEYWORDS["delete"] == DELETE
    ensures "singleton" in KEYWORDS && KEYWORDS["singleton"] == SINGLETON
    ensures "iter" in KEYWORDS && KEYWORDS["iter"] == ITER
    ensures "next" in KEYWORDS && KEYWORDS["next"] == NEXT
  {
  }

  lemma {:induction false} Keywords7()
    ensures "true" in KEYWORDS && KEYWORDS["true"] == LITERAL(Bool(true))
    ensures "false" in KEYWORDS && KEYWORDS["false"] == LITERAL(Bool(false))
    ensures "nil" in KEYWORDS && KEYWORDS["nil"] == LITERAL(Nil)
    ensures "int" in KEYWORDS && KEYWORDS["int"] == PRIMITIVE(INT)
  {
  }

  lemma {:induction false} Keywords8()
    ensures "fix" in KEYWORDS && KEYWORDS["fix"] == PRIMITIVE(FIX)
    ensures "str" in KEYWORDS && KEYWORDS["str"] == PRIMITIVE(INT)
    ensures "vec2" in KEYWORDS && KEYWORDS["vec2"] == PRIMITIVE(VEC2)
    ensures "vec3" in KEYWORDS && KEYWORDS["vec3"] == PRIMITIVE(VEC3)
  {
  }

  lemma {:induction false} Keywords9()
    ensures "vec4" in KEYWORDS && KEYWORDS["vec4"] == PRIMITIVE(VEC4)
    ensures "ivec2" in KEYWORDS && KEYWORDS["ivec2"] == PRIMITIVE(IVEC2)
    ensures "ivec3" in KEYWORDS && KEYWORDS["ivec3"] == PRIMITIVE(IVEC3)
    ensures "ivec4" in KEYWORDS && KEYWORDS["ivec4"] == PRIMITIVE(IVEC4)
  {
  }

  lemma {:induction false} KeywordScans(src: string, i: nat, w: string, t: Token)
    requires Standing(src, i, w) && w in KEYWORDS && KEYWORDS[w] == t && w !in {"a", "an", "and"}
    ensures Gives(src, i, w, t)
  {
    hide ScanToken, LocAt, MatchesAnd, Standing, Gives;
    assert w != "" by { StandingWord(src, i, w); }
    Texts.AndIs(w, i + |w| == |src|);
    StandingScans(src, i, w);
  }

  /** The keywords of a program's head, of conditions and of declarations. */
  lemma {:induction false} HeadWordsScan(src: string, i: nat, w: string)
    requires Standing(src, i, w)
    ensures w == "import" ==> Gives(src, i, w, IMPORT)
    ensures w == "from" ==> Gives(src, i, w, FROM)
    ensures w == "export" ==> Gives(src, i, w, EXPORT)
    ensures w == "or" ==> Gives(src, i, w, OR)
    ensures w == "not" ==> Gives(src, i, w, NOT)
    ensures w == "let" ==> Gives(src, i, w, LET)
    ensures w == "if" ==> Gives(src, i, w, IF)
    ensures w == "then" ==> Gives(src, i, w, THEN)
    ensures w == "else" ==> Gives(src, i, w, ELSE)
    ensures w == "elif" ==> Gives(src, i, w, ELIF)
    ensures w == "end" ==> Gives(src, i, w, END)
    ensures w == "do" ==> Gives(src, i, w, DO)
  {
    hide Standing, Gives, KEYWORDS;
    Keywords1();
    Keywords2();
    Keywords3();
    if w in {"import", "from", "export", "or", "not", "let", "if", "then", "else", "elif", "end", "do"} {
      KeywordScans(src, i, w, KEYWORDS[w]);
    }
  }

  /** The keywords of loops, functions and tables. */
  lemma {:induction false} BodyWordsScan(src: string, i: nat, w: string)
    requires Standing(src, i, w)
    ensures w == "for" ==> Gives(src, i, w, FOR)
    ensures w == "in" ==> Gives(src, i, w, IN)
    ensures w == "while" ==> Gives(src, i, w, WHILE)
    ensures w == "function" ==> Gives(src, i, w, FUNCTION)
    ensures w == "break" ==> Gives(src, i, w, BREAK)
    ensures w == "continue" ==> Gives(src, i, w, CONTINUE)
    ensures w == "return" ==> Gives(src, i, w, RETURN)
    ensures w == "insert" ==> Gives(src, i, w, INSERT)
    ensures w == "delete" ==> Gives(src, i, w, DELETE)
    ensures w == "singleton" ==> Gives(src, i, w, SINGLETON)
    ensures w == "iter" ==> Gives(src, i, w, ITER)
    ensures w == "next" ==> Gives(src, i, w, NEXT)
  {
    hide Standing, Gives, KEYWORDS;
    Keywords4();
    Keywords5();
    Keywords6();
    if w in {"for", "in", "while", "function", "break", "continue", "return", "insert", "delete", "singleton", "iter",
             "next"} {
      KeywordScans(src, i, w, KEYWORDS[w]);
    }
  }

  /** The words for literals and types; `str` is an integer. */
  lemma {:induction false} ValueWordsScan(src: string, i: nat, w: string)
    requires Standing(src, i, w)
    ensures w == "true" ==> Gives(src, i, w, LITERAL(Bool(true)))
    ensures w == "false" ==> Gives(src, i, w, LITERAL(Bool(false)))
    ensures w == "nil" ==> Gives(src, i, w, LITERAL(Nil))
    ensures w == "int" ==> Gives(src, i, w, PRIMITIVE(INT))
    ensures w == "fix" ==> Gives(src, i, w, PRIMITIVE(FIX))
    ensures w == "str" ==> Gives(src, i, w, PRIMITIVE(INT))
    ensures w == "vec2" ==> Gives(src, i, w, PRIMITIVE(VEC2))
    ensures w == "vec3" ==> Gives(src, i, w, PRIMITIVE(VEC3))
    ensures w == "vec4" ==> Gives(src, i, w, PRIMITIVE(VEC4))
    ensures w == "ivec2" ==> Gives(src, i, w, PRIMITIVE(IVEC2))
    ensures w == "ivec3" ==> Gives(src, i, w, PRIMITIVE(IVEC3))
    ensures w == "ivec4" ==> Gives(src, i, w, PRIMITIVE(IVEC4))
  {
    hide Standing, Gives, KEYWORDS;
    Keywords7();
    Keywords8();
    Keywords9();
    if w in {"true", "false", "nil", "int", "fix", "str", "vec2", "vec3", "vec4", "ivec2", "ivec3", "ivec4"} {
      KeywordScans(src, i, w, KEYWORDS[w]);
    }
  }

  // ----- signs

  /** The signs of one character; `]` and `[` give each other's token. */
  lemma {:induction false} SignsScan(src: string, i: nat)
    requires i < |src|
    ensures src[i] == '+' ==> Gives(src, i, "+", ADD)
    ensures src[i] == '*' ==> Gives(src, i, "*", MUL)
    ensures src[i] == '/' ==> Gives(src, i, "/", DIV)
    ensures src[i] == '(' ==> Gives(src, i, "(", LPAREN)
    ensures src[i] == ')' ==> Gives(src, i, ")", RPAREN)
    ensures src[i] == ']' ==> Gives(src, i, "]", LBRACKET)
    ensures src[i] == '[' ==> Gives(src, i, "[", RBRACKET)
    ensures src[i] == ',' ==> Gives(src, i, ",", COMMA)
    ensures src[i] == '.' ==> Gives(src, i, ".", DOT)
    ensures src[i] == ':' ==> Gives(src, i, ":", COLON)
    ensures src[i] == '-' && (i + 1 == |src| || src[i + 1] != '-') ==> Gives(src, i, "-", SUB)
  {
    hide ScanToken, LocAt;
    if IsPunctuation(src[i]) { ScanPunctuation(src, i); }
    if src[i] == '-' { ScanMinus(src, i); }
  }

  /** The signs that may have a `=` behind them. With it they are one token, whose stop has
      the next column but no index; `!` is nothing without it. */
  lemma {:induction false} ComparisonsScan(src: string, i: nat)
    requires i < |src|
    ensures var l := LocAt(src, i);
            var stop := Loc(l.line, (l.column + 1) % 0x1_0000, 0);
            i + 1 < |src| && src[i + 1] == '=' ==>
              && (src[i] == '=' ==> ScanToken(src, i) == Got(Lexeme(EQUAL, l, stop), i + 2))
              && (src[i] == '!' ==> ScanToken(src, i) == Got(Lexeme(NEQUAL, l, stop), i + 2))
              && (src[i] == '<' ==> ScanToken(src, i) == Got(Lexeme(LEQUAL, l, stop), i + 2))
              && (src[i] == '>' ==> ScanToken(src, i) == Got(Lexeme(GEQUAL, l, stop), i + 2))
    ensures i + 1 == |src| || src[i + 1] != '=' ==>
              && (src[i] == '=' ==> Gives(src, i, "=", ASSIGN))
              && (src[i] == '<' ==> Gives(src, i, "<", LESS))
              && (src[i] == '>' ==> Gives(src, i, ">", GREATER))
              && (src[i] == '!' ==> ScanToken(src, i) == Err(ILLEGAL_CHARACTER, i + 1))
  {
    hide ScanToken, LocAt;
    if IsOperator(src[i]) { ScanOperator(src, i); }
  }

  // ----- numbers and strings

  lemma {:induction false} DigitsEnd(src: string, i: nat, e: nat, dot: bool)
    requires i <= e <= |src| && forall j :: i <= j < e ==> '0' <= src[j] <= '9'
    ensures NumberEnd(src, i, dot) == NumberEnd(src, e, dot)
    decreases e - i
  {
    if i < e { DigitsEnd(src, i + 1, e, dot); }
  }

  lemma {:induction false} DottedEnd(src: string, i: nat, p: nat, e: nat)
    requires i <= p < e <= |src| && src[p] == '.'
    requires forall j :: i <= j < e && j != p ==> '0' <= src[j] <= '9'
    ensures NumberEnd(src, i, false) == NumberEnd(src, e, true)
  {
    DigitsEnd(src, i, p, false);
    DigitsEnd(src, p + 1, e, true);
  }

  /** Digits that no letter, underscore or dot follows are an integer, up to the last one;
      those that a letter or an underscore follows are refused. */
  lemma {:induction false} IntegersScan(src: string, i: nat, e: nat)
    requires i < e <= |src| && forall j :: i <= j < e ==> '0' <= src[j] <= '9'
    requires e < |src| ==> !('0' <= src[e] <= '9') && src[e] != '.'
    ensures FixedPoint.AllDigits(src[i..e])
    ensures ScanToken(src, i)
         == if e < |src| && ('a' <= src[e] <= 'z' || src[e] == '_') then Err(ILLEGAL_CHARACTER, e)
            else Got(Lexeme(LITERAL(Int(FixedPoint.Decimal(src[i..e]) % 0x1_0000_0000)),
                            LocAt(src, i), LocAt(src, e - 1)), e)
  {
    hide ScanToken, LocAt, FixedPoint.Decimal;
    DigitsEnd(src, i, e, false);
    DigitsShape(src, i, e);
    ScanDigit(src, i);
  }

  /** Digits with one dot among or after them are a fixed-point number if no letter,
      underscore or second dot follows, and at most six digits stand behind the dot. */
  lemma {:induction false} FractionsScan(src: string, i: nat, p: nat, e: nat)
    requires i < p < e <= |src| && src[p] == '.' && forall j :: i <= j < e && j != p ==> '0' <= src[j] <= '9'
    requires e < |src| ==> !('0' <= src[e] <= '9')
    ensures FixedPoint.AllDigits(src[i..p] + src[p + 1..e])
    ensures ScanToken(src, i)
         == if e < |src| && ('a' <= src[e] <= 'z' || src[e] == '_' || src[e] == '.') then Err(ILLEGAL_CHARACTER, e)
            else if e - p > 7 then Err(PARSE_FIXED_POINT, e)
            else Got(Lexeme(LITERAL(Fix(FixedPoint.Wrap(FixedPoint.Decimal(src[i..p] + src[p + 1..e]) * 0x1_0000
                                                        / FixedPoint.Pow10(e - p - 1)))),
                            LocAt(src, i), LocAt(src, e - 1)), e)
  {
    hide ScanToken, LocAt, FixedPoint.Decimal, FixedPoint.Pow10, FixedPoint.Wrap, FixedPoint.Whole, FixedPoint.Fraction,
      FixedPoint.IsNumeral, FixedPoint.Dot;
    DottedEnd(src, i, p, e);
    DotShape(src, i, e, p);
    ScanDigit(src, i);
  }

  /** A string goes to the next quote, or is refused if there is none. */
  lemma {:induction false} StringsScan(src: string, i: nat, e: nat)
    requires i < e <= |src| && src[i] == '\''
    requires (forall j :: i < j < e ==> src[j] != '\'') && (e < |src| ==> src[e] == '\'')
    ensures ScanToken(src, i)
         == if e == |src| then Err(UNTERMINATED_STRING, e)
            else Got(Lexeme(LITERAL(Str(src[i + 1..e])), LocAt(src, i), LocAt(src, e)), e + 1)
  {
    hide ScanToken, LocAt;
    if e < |src| { Texts.QuoteEndIs(src, i + 1, e); }
    ScanString(src, i);
  }

  // ----- what is passed over

  /** Blanks, newlines and characters that start no token. */
  lemma {:induction false} SkipsOne(src: string, i: nat)
    requires i < |src|
    requires || src[i] == ' ' || src[i] == '\n'
             || (&& src[i] !in {'+', '-', '*', '/', '(', ')', '[', ']', ',', '.', ':', '=', '<', '>', '!', '\''}
                 && !('a' <= src[i] <= 'z') && !('0' <= src[i] <= '9') && src[i] != '_')
    ensures ScanToken(src, i) == ScanToken(src, i + 1)
  {
    hide ScanToken;
    if src[i] == ' ' || src[i] == '\n' {
      ScanSpace(src, i);
      if i + 1 < |src| && View(src[i + 1]) == ' ' { ScanSpace(src, i + 1); }
    } else {
      ScanSkip(src, i);
    }
  }

  lemma {:induction false} CommentEndIs(src: string, i: nat, e: nat)
    requires i <= e <= |src| && (forall j :: i <= j < e ==> src[j] != '\n') && (e < |src| ==> src[e] == '\n')
    ensures CommentEnd(src, i) == if e < |src| then e + 1 else e
    decreases e - i
  {
    if i < e { CommentEndIs(src, i + 1, e); }
  }

  /** Two minuses and what follows them on their line. */
  lemma {:induction false} SkipsComment(src: string, i: nat, e: nat)
    requires i + 2 <= e <= |src| && src[i] == '-' && src[i + 1] == '-'
    requires (forall j :: i + 2 <= j < e ==> src[j] != '\n') && (e < |src| ==> src[e] == '\n')
    ensures ScanToken(src, i) == if e < |src| then ScanToken(src, e + 1) else End
  {
    hide ScanToken;
    CommentEndIs(src, i + 2, e);
    ScanMinus(src, i);
    Lexing.ScanEnd(src);
  }

  /** For instance. */
  lemma {:induction false} UnderscoreIsLetter()
    ensures Items("a_b", 0) == [Tok(IDENTIFIER("a_b"))]
  {
    hide ScanToken;
    assert "a_b"[0..3] == "a_b";
    NameScans("a_b", 0, "a_b");
    Lexing.ScanEnd("a_b");
  }
}

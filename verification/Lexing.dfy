/** The lexer (src/lexing/Lexer.cpp:134-286) over a character stream (src/lexing/StringViewStream.cpp). */
module Lexing {
  import opened Names
  import opened Parsing

  predicate IsAlpha(c: char) {
    'a' <= c <= 'z' || 'A' <= c <= 'Z'
  }

  predicate IsDigit(c: char) {
    '0' <= c <= '9'
  }

  predicate IsIdentContinue(c: char) {
    IsAlpha(c) || IsDigit(c) || c == '_'
  }

  predicate StartsWith(s: string, text: string) {
    |text| <= |s| && s[..|text|] == text
  }

  const PRINTLN := "System.out.println"

  function KeywordKind(lexeme: string): TokenKind {
    if lexeme == "public" || lexeme == "static" || lexeme == "void" || lexeme == "main" || lexeme == "String" || lexeme == "boolean" ||
       lexeme == "if" || lexeme == "else" || lexeme == "while" || lexeme == "return" || lexeme == "class" then OtherToken(lexeme)
    else if lexeme == "int" then KwInt
    else if lexeme == "length" then KwLength
    else if lexeme == "true" then KwTrue
    else if lexeme == "false" then KwFalse
    else if lexeme == "this" then KwThis
    else if lexeme == "new" then KwNew
    else Identifier
  }

  /** The kind of a one-character token. */
  function MarkKind(c: char): Option<TokenKind> {
    if c == '+' then Some(Plus)
    else if c == '-' then Some(Minus)
    else if c == '*' then Some(Star)
    else if c == '/' then Some(Slash)
    else if c == '(' then Some(LParen)
    else if c == ')' then Some(RParen)
    else if c == '[' then Some(LSquare)
    else if c == ']' then Some(RSquare)
    else if c == '<' then Some(Lt)
    else if c == '>' then Some(Gt)
    else if c == '!' then Some(Bang)
    else if c == '.' then Some(Dot)
    else if c == ',' then Some(Comma)
    else if c == '{' || c == '}' || c == ';' || c == '=' then Some(OtherToken([c]))
    else None
  }

  /** How many characters are left on the line. */
  function LineRest(s: string): (n: nat)
    ensures n <= |s|
  {
    if s == "" || s[0] == '\n' then 0 else 1 + LineRest(s[1..])
  }

  function Skipped(s: string): string {
    s[Trivia(s)..]
  }

  lemma SkippedBlank(s: string)
    requires s != "" && IsBlank(s[0])
    ensures Skipped(s) == Skipped(s[1..])
  {
    hide StartsComment;
    assert s[1..][Trivia(s[1..])..] == s[1 + Trivia(s[1..])..];
  }

  lemma SkippedComment(s: string)
    requires StartsComment(s)
    ensures Skipped(s) == Skipped(s[2 + LineRest(s[2..])..])
  {
    var n := 2 + LineRest(s[2..]);
    assert Trivia(s) == n + Trivia(s[n..]);
    hide LineRest, Trivia;
    assert s[n..][Trivia(s[n..])..] == s[n + Trivia(s[n..])..];
  }

  /** Trivia goes on behind a blank or a comment, or stops. */
  lemma SkippedFrom(s: string)
    ensures s != "" && IsBlank(s[0]) ==> Skipped(s) == Skipped(s[1..])
    ensures StartsComment(s) ==> Skipped(s) == Skipped(s[2 + LineRest(s[2..])..])
    ensures s == "" || !(IsBlank(s[0]) || StartsComment(s)) ==> Skipped(s) == s
  {
    hide LineRest, Skipped;
    if s != "" && IsBlank(s[0]) {
      SkippedBlank(s);
    } else if StartsComment(s) {
      SkippedComment(s);
    } else {
      SkippedNone(s);
    }
  }

  lemma SkippedNone(s: string)
    requires s == "" || !(IsBlank(s[0]) || StartsComment(s))
    ensures Skipped(s) == s
  {
    assert s[0..] == s;
  }

  predicate StartsComment(s: string) {
    |s| >= 2 && s[0] == '/' && s[1] == '/'
  }

  predicate IsBlank(c: char) {
    c == ' ' || c == '\t' || c == '\n'
  }

  /** How many characters of white space and comments s starts with. */
  function Trivia(s: string): (n: nat)
    ensures n <= |s|
    decreases |s|
  {
    if s == "" then 0
    else if IsBlank(s[0]) then 1 + Trivia(s[1..])
    else if StartsComment(s) then
      var n := 2 + LineRest(s[2..]);
      n + Trivia(s[n..])
    else 0
  }

  // ----- what is skipped, by rules -----

  /** A comment: two slashes and what is left of the line; the end of the line does not belong to it. */
  predicate Comment(s: string, k: nat) {
    && 2 <= k <= |s| && s[0] == '/' && s[1] == '/'
    && (forall i :: 2 <= i < k ==> s[i] != '\n') && (k < |s| ==> s[k] == '\n')
  }

  /** The first n characters are spaces, tabs, newlines and comments. */
  ghost predicate BlanksAndComments(s: string, n: nat)
    decreases n
  {
    && n <= |s|
    && (|| n == 0
        || (s[0] in {' ', '\t', '\n'} && BlanksAndComments(s[1..], n - 1))
        || exists k :: 2 <= k <= n && Comment(s, k) && BlanksAndComments(s[k..], n - k))
  }

  /** s starts with none of them. */
  predicate Solid(s: string) {
    s != "" ==> s[0] !in {' ', '\t', '\n'} && !(|s| >= 2 && s[0] == '/' && s[1] == '/')
  }

  lemma {:induction false} LineIs(s: string)
    ensures (forall i :: 0 <= i < LineRest(s) ==> s[i] != '\n') && (LineRest(s) < |s| ==> s[LineRest(s)] == '\n')
  {
    if s != "" && s[0] != '\n' { LineIs(s[1..]); }
  }

  lemma CommentIs(s: string)
    requires StartsComment(s)
    ensures Comment(s, 2 + LineRest(s[2..])) && forall k :: Comment(s, k) ==> k == 2 + LineRest(s[2..])
  {
    var n := 2 + LineRest(s[2..]);
    LineIs(s[2..]);
    hide LineRest;
    forall i | 2 <= i < n
      ensures s[i] != '\n'
    {
      assert s[2..][i - 2] == s[i];
    }
    if n < |s| { assert s[2..][n - 2] == s[n]; }
  }

  lemma {:induction false} TriviaSkips(s: string)
    ensures BlanksAndComments(s, Trivia(s)) && Solid(s[Trivia(s)..])
    decreases |s|
  {
    if s != "" && IsBlank(s[0]) {
      TriviaSkips(s[1..]);
      assert s[1..][Trivia(s[1..])..] == s[Trivia(s)..];
    } else if StartsComment(s) {
      CommentIs(s);
      var k := 2 + LineRest(s[2..]);
      TriviaSkips(s[k..]);
      hide LineRest;
      assert Trivia(s) == k + Trivia(s[k..]);
      assert s[k..][Trivia(s[k..])..] == s[Trivia(s)..];
      assert BlanksAndComments(s, Trivia(s));
    } else {
      assert s[0..] == s;
    }
  }

  lemma {:induction false} OnlyTrivia(s: string, n: nat)
    requires BlanksAndComments(s, n) && Solid(s[n..])
    ensures n == Trivia(s)
    decreases |s|
  {
    if n == 0 {
      assert s[0..] == s;
    } else if IsBlank(s[0]) {
      assert s[1..][n - 1..] == s[n..];
      assert !StartsComment(s);
      OnlyTrivia(s[1..], n - 1);
    } else {
      var k :| 2 <= k <= n && Comment(s, k) && BlanksAndComments(s[k..], n - k);
      CommentIs(s);
      assert s[k..][n - k..] == s[n..];
      OnlyTrivia(s[k..], n - k);
    }
  }

  /** What is skipped are exactly the blanks and comments that s starts with, up to something solid or the end. */
  lemma TriviaExactly(s: string, n: nat)
    requires n <= |s|
    ensures n == Trivia(s) <==> BlanksAndComments(s, n) && Solid(s[n..])
  {
    hide Trivia, BlanksAndComments, Solid;
    TriviaSkips(s);
    if BlanksAndComments(s, n) && Solid(s[n..]) { OnlyTrivia(s, n); }
  }

  lemma SkippedExactly(s: string)
    ensures |Skipped(s)| <= |s| && Skipped(s) == s[|s| - |Skipped(s)|..]
    ensures BlanksAndComments(s, |s| - |Skipped(s)|) && Solid(Skipped(s))
  {
    hide Trivia, BlanksAndComments, Solid;
    TriviaSkips(s);
  }

  function Digits(s: string): (n: nat)
    ensures n <= |s|
  {
    if s == "" || !IsDigit(s[0]) then 0 else 1 + Digits(s[1..])
  }

  function IdentRun(s: string): (n: nat)
    ensures n <= |s|
  {
    if s == "" || !IsIdentContinue(s[0]) then 0 else 1 + IdentRun(s[1..])
  }

  /** The length of the token s starts with. */
  function LexemeLength(s: string): (n: nat)
    requires s != ""
    ensures 0 < n <= |s|
  {
    if StartsWith(s, PRINTLN) then |PRINTLN|
    else if StartsWith(s, "&&") || StartsWith(s, "||") || StartsWith(s, "==") then 2
    else if MarkKind(s[0]).Some? then 1
    else if IsDigit(s[0]) then if s[0] == '0' then 1 else Digits(s)
    else if IsAlpha(s[0]) then IdentRun(s)
    else 1
  }

  function KindAt(s: string): TokenKind
    requires s != ""
  {
    if StartsWith(s, PRINTLN) then OtherToken("println")
    else if StartsWith(s, "&&") then AndAnd
    else if StartsWith(s, "||") then OrOr
    else if StartsWith(s, "==") then EqEq
    else if MarkKind(s[0]).Some? then MarkKind(s[0]).value
    else if IsDigit(s[0]) then IntLiteral
    else if IsAlpha(s[0]) then KeywordKind(s[..IdentRun(s)])
    else Invalid
  }

  // ----- tokens, by rules -----

  /** Texts that are tokens wherever they stand, whatever follows. */
  const FIXED: map<string, TokenKind> := map[
    "System.out.println" := OtherToken("println"), "&&" := AndAnd, "||" := OrOr, "==" := EqEq,
    "+" := Plus, "-" := Minus, "*" := Star, "/" := Slash, "(" := LParen, ")" := RParen, "[" := LSquare, "]" := RSquare,
    "{" := OtherToken("{"), "}" := OtherToken("}"), ";" := OtherToken(";"), "=" := OtherToken("="),
    "<" := Lt, ">" := Gt, "!" := Bang, "." := Dot, "," := Comma]

  const KEYWORDS: map<string, TokenKind> := map[
    "public" := OtherToken("public"), "static" := OtherToken("static"), "void" := OtherToken("void"), "main" := OtherToken("main"),
    "String" := OtherToken("String"), "boolean" := OtherToken("boolean"), "if" := OtherToken("if"), "else" := OtherToken("else"),
    "while" := OtherToken("while"), "return" := OtherToken("return"), "class" := OtherToken("class"), "int" := KwInt,
    "length" := KwLength, "true" := KwTrue, "false" := KwFalse, "this" := KwThis, "new" := KwNew]

  predicate FixedAt(s: string, n: nat) {
    n <= |s| && s[..n] in FIXED
  }

  predicate WordCharacter(c: char) {
    'a' <= c <= 'z' || 'A' <= c <= 'Z' || '0' <= c <= '9' || c == '_'
  }

  /** The first n characters are all the word characters that s starts with. */
  predicate WholeWord(s: string, n: nat) {
    n <= |s| && (forall i :: 0 <= i < n ==> WordCharacter(s[i])) && (n < |s| ==> !WordCharacter(s[n]))
  }

  /** 0 alone, or all the digits from another one on. */
  predicate WholeNumber(s: string, n: nat) {
    && 1 <= n <= |s|
    && if s[0] == '0' then n == 1
       else (forall i :: 0 <= i < n ==> '0' <= s[i] <= '9') && (n < |s| ==> !('0' <= s[n] <= '9'))
  }

  /** The token of that length and kind stands at the start of s: the longest fixed text; or else a number, a keyword or an
      identifier, as long as it goes; or a character that starts none of these. */
  ghost predicate TokenAt(s: string, n: nat, kind: TokenKind) {
    && 1 <= n <= |s|
    && if exists m: nat :: FixedAt(s, m) then FixedAt(s, n) && (forall m: nat :: FixedAt(s, m) ==> m <= n) && kind == FIXED[s[..n]]
       else if '0' <= s[0] <= '9' then WholeNumber(s, n) && kind == IntLiteral
       else if 'a' <= s[0] <= 'z' || 'A' <= s[0] <= 'Z' then WholeWord(s, n) && kind == if s[..n] in KEYWORDS then KEYWORDS[s[..n]] else Identifier
       else n == 1 && kind == Invalid
  }

  lemma {:induction false} DigitsAre(s: string)
    ensures (forall i :: 0 <= i < Digits(s) ==> '0' <= s[i] <= '9') && (Digits(s) < |s| ==> !('0' <= s[Digits(s)] <= '9'))
  {
    if s != "" && IsDigit(s[0]) { DigitsAre(s[1..]); }
  }

  lemma {:induction false} WordIs(s: string)
    ensures WholeWord(s, IdentRun(s))
  {
    if s != "" && IsIdentContinue(s[0]) { WordIs(s[1..]); }
  }

  lemma KeywordIs(w: string)
    ensures KeywordKind(w) == if w in KEYWORDS then KEYWORDS[w] else Identifier
  {
    if w == "public" || w == "static" || w == "void" || w == "main" || w == "String" || w == "boolean" {
    } else if w == "if" || w == "else" || w == "while" || w == "return" || w == "class" {
    } else {
      assert w in KEYWORDS <==> w in {"int", "length", "true", "false", "this", "new"};
    }
  }

  lemma OneCharacter(s: string)
    requires s != ""
    ensures s[..1] in FIXED <==> MarkKind(s[0]).Some?
    ensures s[..1] in FIXED ==> MarkKind(s[0]) == Some(FIXED[s[..1]])
  {
    assert s[..1] == [s[0]];
    assert |"System.out.println"| == 18 && |"&&"| == 2;
  }

  lemma FixedLengths(s: string, n: nat)
    ensures FixedAt(s, n) ==> (n == 1 && MarkKind(s[0]).Some?) || (n == 2 && s[..2] in {"&&", "||", "=="}) || (n == 18 && StartsWith(s, PRINTLN))
  {
    if FixedAt(s, n) {
      var w := s[..n];
      assert |w| == n;
      if n == 1 { OneCharacter(s); }
    }
  }

  lemma TwoFixed(s: string)
    ensures StartsWith(s, "&&") || StartsWith(s, "||") || StartsWith(s, "==") <==> |s| >= 2 && s[..2] in {"&&", "||", "=="}
  {
  }

  /** Fixed texts: the lexer finds one if there is one, and the longest. */
  lemma FixedFound(s: string, m: nat)
    requires s != "" && FixedAt(s, m)
    ensures FixedAt(s, LexemeLength(s)) && m <= LexemeLength(s) && KindAt(s) == FIXED[s[..LexemeLength(s)]]
  {
    FixedLengths(s, m);
    TwoFixed(s);
    if StartsWith(s, PRINTLN) {
      assert s[..18] == PRINTLN;
    } else if |s| >= 2 && s[..2] in {"&&", "||", "=="} {
      assert LexemeLength(s) == 2;
    } else {
      OneCharacter(s);
    }
  }

  lemma NoneFixed(s: string)
    requires s != "" && forall m: nat :: !FixedAt(s, m)
    ensures !StartsWith(s, PRINTLN) && !StartsWith(s, "&&") && !StartsWith(s, "||") && !StartsWith(s, "==") && MarkKind(s[0]).None?
  {
    assert !FixedAt(s, 1);
    OneCharacter(s);
    assert |s| >= 18 ==> !FixedAt(s, 18);
    TwoFixed(s);
    assert |s| >= 2 ==> !FixedAt(s, 2);
  }

  lemma TokenFollowsRules(s: string)
    requires s != ""
    ensures TokenAt(s, LexemeLength(s), KindAt(s))
  {
    hide FixedAt;
    if m: nat :| FixedAt(s, m) {
      FixedFound(s, m);
      forall k: nat | FixedAt(s, k)
        ensures k <= LexemeLength(s)
      {
        FixedFound(s, k);
      }
    } else {
      NoneFixed(s);
      DigitsAre(s);
      WordIs(s);
      KeywordIs(s[..IdentRun(s)]);
      hide KeywordKind;
    }
  }

  lemma WordOnce(s: string, m: nat, n: nat)
    ensures WholeWord(s, m) && WholeWord(s, n) ==> m == n
    ensures WholeNumber(s, m) && WholeNumber(s, n) ==> m == n
  {
    if m < n { assert WholeWord(s, n) ==> WordCharacter(s[m]); }
    if n < m { assert WholeWord(s, m) ==> WordCharacter(s[n]); }
  }

  /** The first token of s is the one that the rules give, and the rules give no other. */
  lemma TokenExactly(s: string, n: nat, kind: TokenKind)
    requires s != ""
    ensures TokenAt(s, n, kind) <==> n == LexemeLength(s) && kind == KindAt(s)
  {
    hide LexemeLength, KindAt, FixedAt, WholeWord, WholeNumber;
    TokenFollowsRules(s);
    WordOnce(s, n, LexemeLength(s));
    if TokenAt(s, n, kind) && exists m: nat :: FixedAt(s, m) {
      assert n <= LexemeLength(s) && LexemeLength(s) <= n;
    }
  }

  /** A token with the trivia in front of it. */
  datatype Piece = Piece(trivia: string, token: Token)

  /** All the tokens of s, ending with Eof. */
  function Lex(s: string): seq<Piece>
    decreases |s|
  {
    var n := Trivia(s);
    if n == |s| then [Piece(s, Token(Eof, ""))]
    else
      var t := s[n..];
      var k := LexemeLength(t);
      [Piece(s[..n], Token(KindAt(t), t[..k]))] + Lex(t[k..])
  }

  // ----- tiling -----

  function Concat(ps: seq<Piece>): string {
    if ps == [] then "" else ps[0].trivia + ps[0].token.lexeme + Concat(ps[1..])
  }

  /** Trivia and tokens are the source, in order and without gaps; every token but the last is at least one
      character long. */
  lemma {:induction false} LexTiles(s: string)
    ensures Concat(Lex(s)) == s
    ensures Lex(s) != [] && Lex(s)[|Lex(s)| - 1].token.kind == Eof
    ensures forall i :: 0 <= i < |Lex(s)| - 1 ==> Lex(s)[i].token.lexeme != ""
    decreases |s|
  {
    hide LexemeLength, KindAt, Trivia;
    var n := Trivia(s);
    if n == |s| {
      assert Lex(s)[1..] == [];
    } else {
      var t := s[n..];
      var k := LexemeLength(t);
      LexTiles(t[k..]);
      assert Lex(s)[1..] == Lex(t[k..]);
      assert s == s[..n] + t && t == t[..k] + t[k..];
    }
  }

  // ----- re-lexing -----

  function Tokens(ps: seq<Piece>): seq<Token> {
    seq(|ps|, i requires 0 <= i < |ps| => ps[i].token)
  }

  /** The lexemes, each followed by one space. */
  function Joined(ts: seq<Token>): string {
    if ts == [] || ts[0].kind.Eof? then "" else ts[0].lexeme + " " + Joined(ts[1..])
  }

  lemma {:induction false} DigitsStop(s: string, rest: string)
    ensures Digits(s[..Digits(s)] + " " + rest) == Digits(s)
  {
    var n := Digits(s);
    var u := s[..n] + " " + rest;
    if n > 0 {
      DigitsStop(s[1..], rest);
      assert u[1..] == s[1..][..n - 1] + " " + rest;
    }
  }

  lemma {:induction false} IdentStop(s: string, rest: string)
    ensures IdentRun(s[..IdentRun(s)] + " " + rest) == IdentRun(s)
    ensures forall i :: 0 <= i < IdentRun(s) ==> IsIdentContinue(s[i])
  {
    var n := IdentRun(s);
    var u := s[..n] + " " + rest;
    if n > 0 {
      IdentStop(s[1..], rest);
      assert u[1..] == s[1..][..n - 1] + " " + rest;
    }
  }

  /** A word without a dot, followed by a space, does not start with the print statement's name. */
  lemma NotPrintln(w: string, rest: string)
    requires w != "" && forall i :: 0 <= i < |w| ==> w[i] != '.'
    ensures !StartsWith(w + " " + rest, PRINTLN)
  {
    var u := w + " " + rest;
    var k := if |w| > 6 then 6 else |w|;
    assert PRINTLN[6] == '.' && u[k] != PRINTLN[k];
    if |u| >= |PRINTLN| { assert u[..|PRINTLN|][k] == u[k]; }
  }

  lemma TwoCharacters(s: string, text: string)
    requires |text| == 2
    ensures StartsWith(s, text) <==> |s| >= 2 && s[0] == text[0] && s[1] == text[1]
  {
    if |s| >= 2 { assert s[..2] == [s[0], s[1]] && text == [text[0], text[1]]; }
  }

  /** A token followed by a space is read back as that token, and the rest is left. */
  lemma LexemeAgain(t: string, rest: string)
    requires t != "" && Trivia(t) == 0
    ensures var w := t[..LexemeLength(t)];
            var u := w + " " + rest;
            Trivia(u) == 0 && LexemeLength(u) == |w| && KindAt(u) == KindAt(t)
  {
    var w := t[..LexemeLength(t)];
    var u := w + " " + rest;
    assert u[0] == t[0];
    if StartsWith(t, PRINTLN) {
      assert u[..|PRINTLN|] == PRINTLN;
    } else {
      TwoCharacters(t, "&&");
      TwoCharacters(t, "||");
      TwoCharacters(t, "==");
      TwoCharacters(u, "&&");
      TwoCharacters(u, "||");
      TwoCharacters(u, "==");
      if StartsWith(t, "&&") || StartsWith(t, "||") || StartsWith(t, "==") {
        assert u[1] == t[1];
        assert !StartsWith(u, PRINTLN) by { assert PRINTLN[0] == 'S'; }
      } else {
        WordAgain(t, w, rest);
      }
    }
  }

  lemma WordAgain(t: string, w: string, rest: string)
    requires t != "" && Trivia(t) == 0 && w == t[..LexemeLength(t)] && !StartsWith(t, PRINTLN)
    requires !StartsWith(t, "&&") && !StartsWith(t, "||") && !StartsWith(t, "==")
    ensures var u := w + " " + rest;
            Trivia(u) == 0 && LexemeLength(u) == |w| && KindAt(u) == KindAt(t)
  {
    var u := w + " " + rest;
    TwoCharacters(u, "&&");
    TwoCharacters(u, "||");
    TwoCharacters(u, "==");
    if MarkKind(t[0]).Some? {
      assert u[1] == ' ';
      assert !StartsWith(u, PRINTLN) by { assert PRINTLN[0] == 'S'; }
    } else if IsDigit(t[0]) {
      DigitsStop(t, rest);
      assert !StartsWith(u, PRINTLN) by { assert PRINTLN[0] == 'S'; }
    } else if IsAlpha(t[0]) {
      IdentStop(t, rest);
      NotPrintln(w, rest);
      assert u[..IdentRun(t)] == w;
    } else {
      assert u[1] == ' ';
      assert !StartsWith(u, PRINTLN) by { assert PRINTLN[0] == 'S'; }
    }
  }

  lemma SpaceChangesNothing(r: string)
    ensures Tokens(Lex(" " + r)) == Tokens(Lex(r))
  {
    hide LexemeLength, KindAt;
    var s := " " + r;
    assert s[1..] == r;
    assert Trivia(s) == 1 + Trivia(r);
    var n := Trivia(r);
    if n < |r| {
      assert s[n + 1..] == r[n..];
      assert Lex(s)[1..] == Lex(r)[1..];
    }
  }

  lemma NoTriviaAt(s: string)
    ensures Trivia(Skipped(s)) == 0
    decreases |s|
  {
    hide Skipped, LineRest;
    SkippedFrom(s);
    if s != "" && IsBlank(s[0]) {
      NoTriviaAt(s[1..]);
    } else if StartsComment(s) {
      NoTriviaAt(s[2 + LineRest(s[2..])..]);
    }
  }

  /** Lexing the lexemes joined by single spaces gives the same tokens again. */
  lemma {:induction false} LexAgain(s: string)
    ensures Tokens(Lex(Joined(Tokens(Lex(s))))) == Tokens(Lex(s))
    decreases |s|
  {
    hide LexemeLength, KindAt, Trivia, Joined;
    var n := Trivia(s);
    if n == |s| {
      NothingJoined(s);
    } else {
      var t := s[n..];
      var k := LexemeLength(t);
      LexAgain(t[k..]);
      NoTriviaAt(s);
      var rest := Joined(Tokens(Lex(t[k..])));
      LexemeAgain(t, rest);
      JoinedStep(t, s[..n], Lex(t[k..]));
      RelexStep(t[..k], KindAt(t), rest);
      assert Tokens(Lex(s)) == [Token(KindAt(t), t[..k])] + Tokens(Lex(t[k..]));
    }
  }

  lemma NothingJoined(s: string)
    requires Lex(s) == [Piece(s, Token(Eof, ""))]
    ensures Tokens(Lex(Joined(Tokens(Lex(s))))) == Tokens(Lex(s))
  {
    assert Tokens(Lex(s))[0] == Token(Eof, "");
    assert Joined(Tokens(Lex(s))) == "";
    assert Lex("") == [Piece("", Token(Eof, ""))];
  }

  lemma KindNotEof(t: string)
    requires t != ""
    ensures KindAt(t) != Eof
  {
  }

  lemma JoinedStep(t: string, trivia: string, ps: seq<Piece>)
    requires t != ""
    ensures Joined(Tokens([Piece(trivia, Token(KindAt(t), t[..LexemeLength(t)]))] + ps)) == t[..LexemeLength(t)] + " " + Joined(Tokens(ps))
  {
    hide LexemeLength, KindAt;
    KindNotEof(t);
    var all := [Piece(trivia, Token(KindAt(t), t[..LexemeLength(t)]))] + ps;
    assert Tokens(all)[1..] == Tokens(ps);
  }

  lemma RelexStep(w: string, kind: TokenKind, rest: string)
    requires w != ""
    requires var u := w + " " + rest; Trivia(u) == 0 && LexemeLength(u) == |w| && KindAt(u) == kind
    ensures Tokens(Lex(w + " " + rest)) == [Token(kind, w)] + Tokens(Lex(rest))
  {
    hide LexemeLength, KindAt, Trivia;
    var u := w + " " + rest;
    assert u[0..] == u && u[..|w|] == w && u[|w|..] == " " + rest;
    SpaceChangesNothing(rest);
    assert Lex(u) == [Piece(u[..0], Token(kind, w))] + Lex(" " + rest);
  }

  /** An identifier starts with a letter, so it is never a generated name, and it is neither `this` nor `main`. */
  lemma IdentifierIsSource(s: string, i: nat)
    requires i < |Lex(s)| && Lex(s)[i].token.kind == Identifier
    ensures !Generated(Lex(s)[i].token.lexeme) && Lex(s)[i].token.lexeme != "this" && Lex(s)[i].token.lexeme != "main"
    ensures '.' !in Lex(s)[i].token.lexeme
    decreases |s|
  {
    hide LexemeLength, KindAt, Trivia;
    var n := Trivia(s);
    if n < |s| {
      var t := s[n..];
      if i > 0 { IdentifierIsSource(t[LexemeLength(t)..], i - 1); } else { IdentifierStarts(t); }
    }
  }

  lemma IdentifierStarts(t: string)
    requires t != "" && KindAt(t) == Identifier
    ensures !Generated(t[..LexemeLength(t)]) && t[..LexemeLength(t)] != "this" && t[..LexemeLength(t)] != "main"
    ensures '.' !in t[..LexemeLength(t)]
  {
    TokenExactly(t, LexemeLength(t), Identifier);
    assert t[..LexemeLength(t)][0] == t[0];
  }

  /** From s the token t has been taken by the rules, and rest is left: blanks and comments first, then the token, or Eof
      at the end. */
  ghost predicate TokenTaken(s: string, t: Token, rest: string) {
    exists n: nat {:trigger BlanksAndComments(s, n)} ::
      && n <= |s| && BlanksAndComments(s, n) && Solid(s[n..])
      && if n == |s| then t == Token(Eof, "") && rest == ""
         else TokenAt(s[n..], |t.lexeme|, t.kind) && t.lexeme + rest == s[n..]
  }

  lemma StartsFits(s: string)
    ensures (StartsWith(s, PRINTLN) ==> |s| >= |PRINTLN|) && (StartsWith(s, "&&") || StartsWith(s, "||") || StartsWith(s, "==") ==> |s| >= 2)
  {
  }

  // ----- the stream and the lexer in place -----

  class StringViewStream {
    const input: string
    var index: nat
    var line: nat
    var column: nat

    constructor (input: string)
      ensures this.input == input && index == 0 && line == 1 && column == 1
    {
      this.input, index, line, column := input, 0, 1, 1;
    }

    function Ahead(): string
      reads this
    {
      if index <= |input| then input[index..] else ""
    }

    predicate AtEnd()
      reads this
    {
      index >= |input|
    }

    function PeekAt(k: nat): char
      reads this
    {
      if index + k < |input| then input[index + k] else '\0'
    }

    /** Takes a character, and counts lines and columns. */
    method Get() returns (c: char)
      requires !AtEnd()
      modifies this
      ensures index == old(index) + 1 && c == old(Ahead())[0] && Ahead() == old(Ahead())[1..]
      ensures if c == '\n' then line == old(line) + 1 && column == 1 else line == old(line) && column == old(column) + 1
    {
      c := input[index];
      index := index + 1;
      if c == '\n' {
        line, column := line + 1, 1;
      } else {
        column := column + 1;
      }
    }
  }

  class Lexer {
    const chars: StringViewStream
    var lookahead: seq<Token>

    constructor (source: string)
      ensures fresh(chars) && chars.Ahead() == source && lookahead == []
    {
      chars := new StringViewStream(source);
      lookahead := [];
    }

    method Take(n: nat)
      requires n <= |chars.Ahead()|
      modifies chars
      ensures chars.Ahead() == old(chars.Ahead())[n..]
    {
      for i := 0 to n
        invariant chars.Ahead() == old(chars.Ahead())[i..] && |old(chars.Ahead())| >= n
      {
        var c := chars.Get();
      }
    }

    method SkipLine()
      modifies chars
      ensures chars.Ahead() == old(chars.Ahead())[LineRest(old(chars.Ahead()))..]
    {
      ghost var s := chars.Ahead();
      ghost var taken := 0;
      while !chars.AtEnd() && chars.PeekAt(0) != '\n'
        invariant taken <= |s| && chars.Ahead() == s[taken..]
        invariant LineRest(s) == taken + LineRest(s[taken..])
        decreases |chars.Ahead()|
      {
        assert s[taken..][1..] == s[taken + 1..];
        var c := chars.Get();
        taken := taken + 1;
      }
      assert LineRest(s[taken..]) == 0;
    }

    /** Takes the blanks and comments ahead, and nothing else. */
    method SkipTrivia()
      modifies chars
      ensures chars.Ahead() == Skipped(old(chars.Ahead()))
      ensures BlanksAndComments(old(chars.Ahead()), |old(chars.Ahead())| - |chars.Ahead()|) && Solid(chars.Ahead())
      ensures chars.Ahead() == old(chars.Ahead())[|old(chars.Ahead())| - |chars.Ahead()|..]
    {
      hide Skipped, LineRest, BlanksAndComments, Solid, Trivia;
      SkippedExactly(chars.Ahead());
      while !chars.AtEnd()
        invariant Skipped(chars.Ahead()) == Skipped(old(chars.Ahead()))
        decreases |chars.Ahead()|
      {
        SkippedFrom(chars.Ahead());
        var c := chars.PeekAt(0);
        if IsBlank(c) {
          c := chars.Get();
        } else if c == '/' && chars.PeekAt(1) == '/' {
          SkipComment();
        } else {
          break;
        }
      }
      SkippedFrom(chars.Ahead());
    }

    method SkipComment()
      requires StartsComment(chars.Ahead())
      modifies chars
      ensures chars.Ahead() == old(chars.Ahead())[2 + LineRest(old(chars.Ahead())[2..])..]
    {
      ghost var s := chars.Ahead();
      Take(2);
      SkipLine();
      assert s[2..][LineRest(s[2..])..] == s[2 + LineRest(s[2..])..];
    }

    /** Whether the text is ahead, character by character. */
    method LooksAt(text: string) returns (yes: bool)
      requires forall i :: 0 <= i < |text| ==> text[i] != '\0'
      ensures yes == StartsWith(chars.Ahead(), text)
    {
      for i := 0 to |text|
        invariant i <= |chars.Ahead()| && chars.Ahead()[..i] == text[..i]
      {
        if chars.PeekAt(i) != text[i] {
          if |chars.Ahead()| >= |text| { assert chars.Ahead()[..|text|][i] != text[i]; }
          return false;
        }
      }
      yes := true;
    }

    method TakeDigits() returns (lexeme: string)
      modifies chars
      ensures var s := old(chars.Ahead()); lexeme == s[..Digits(s)] && chars.Ahead() == s[Digits(s)..]
    {
      ghost var s := chars.Ahead();
      lexeme := "";
      while !chars.AtEnd() && IsDigit(chars.PeekAt(0))
        invariant |lexeme| <= |s| && lexeme == s[..|lexeme|] && chars.Ahead() == s[|lexeme|..]
        invariant Digits(s) == |lexeme| + Digits(s[|lexeme|..])
        decreases |chars.Ahead()|
      {
        assert s[|lexeme|..][1..] == s[|lexeme| + 1..];
        var c := chars.Get();
        lexeme := lexeme + [c];
      }
      assert Digits(s[|lexeme|..]) == 0;
    }

    method TakeWord() returns (lexeme: string)
      modifies chars
      ensures var s := old(chars.Ahead()); lexeme == s[..IdentRun(s)] && chars.Ahead() == s[IdentRun(s)..]
    {
      ghost var s := chars.Ahead();
      lexeme := "";
      while !chars.AtEnd() && IsIdentContinue(chars.PeekAt(0))
        invariant |lexeme| <= |s| && lexeme == s[..|lexeme|] && chars.Ahead() == s[|lexeme|..]
        invariant IdentRun(s) == |lexeme| + IdentRun(s[|lexeme|..])
        decreases |chars.Ahead()|
      {
        assert s[|lexeme|..][1..] == s[|lexeme| + 1..];
        var c := chars.Get();
        lexeme := lexeme + [c];
      }
      assert IdentRun(s[|lexeme|..]) == 0;
    }

    /** A token of a known length. */
    method TakeText(kind: TokenKind, n: nat) returns (t: Token)
      requires n <= |chars.Ahead()|
      modifies chars
      ensures t == Token(kind, old(chars.Ahead())[..n]) && chars.Ahead() == old(chars.Ahead())[n..]
    {
      t := Token(kind, chars.Ahead()[..n]);
      Take(n);
    }

    /** The token that follows the trivia. */
    method LexSolid() returns (t: Token)
      requires !chars.AtEnd()
      modifies chars
      ensures var s := old(chars.Ahead());
              && t == Token(KindAt(s), s[..LexemeLength(s)]) && TokenAt(s, |t.lexeme|, t.kind) && chars.Ahead() == s[|t.lexeme|..]
    {
      hide TokenAt, StartsWith;
      ghost var s := chars.Ahead();
      TokenFollowsRules(s);
      StartsFits(s);
      var println := LooksAt(PRINTLN);
      var both := LooksAt("&&");
      var either := LooksAt("||");
      var same := LooksAt("==");
      var c := chars.PeekAt(0);
      if println {
        t := TakeText(OtherToken("println"), |PRINTLN|);
      } else if both {
        t := TakeText(AndAnd, 2);
      } else if either {
        t := TakeText(OrOr, 2);
      } else if same {
        t := TakeText(EqEq, 2);
      } else if MarkKind(c).Some? {
        t := TakeText(MarkKind(c).value, 1);
      } else if IsDigit(c) {
        if c == '0' {
          t := TakeText(IntLiteral, 1);
        } else {
          var lexeme := TakeDigits();
          t := Token(IntLiteral, lexeme);
        }
      } else if IsAlpha(c) {
        var lexeme := TakeWord();
        t := Token(KeywordKind(lexeme), lexeme);
      } else {
        t := TakeText(Invalid, 1);
      }
    }

    /** lex_one_: the next token of the source; at the end, Eof again and again. */
    method LexOne() returns (t: Token)
      modifies chars
      ensures t == Lex(old(chars.Ahead()))[0].token
      ensures chars.Ahead() == Behind(old(chars.Ahead()))
      ensures TokenTaken(old(chars.Ahead()), t, chars.Ahead())
    {
      hide LexemeLength, KindAt, Trivia, LineRest, BlanksAndComments, Solid, TokenAt, Lex, Behind, Skipped;
      ghost var s := chars.Ahead();
      LexFirst(s);
      SkippedExactly(s);
      SkipTrivia();
      ghost var n := |s| - |chars.Ahead()|;
      assert BlanksAndComments(s, n) && s[n..] == chars.Ahead();
      if chars.AtEnd() { return Token(Eof, ""); }
      t := LexSolid();
      assert t.lexeme + chars.Ahead() == s[n..];
    }

    /** Tokens that have been looked at come first. */
    method Next() returns (t: Token)
      modifies this, chars
      ensures old(lookahead) != [] ==> t == old(lookahead)[0] && lookahead == old(lookahead)[1..] && chars.Ahead() == old(chars.Ahead())
      ensures old(lookahead) == [] ==> t == Lex(old(chars.Ahead()))[0].token && lookahead == [] && chars.Ahead() == Behind(old(chars.Ahead()))
    {
      if lookahead != [] {
        t := lookahead[0];
        lookahead := lookahead[1..];
        return;
      }
      t := LexOne();
    }

    /** Fills the lookahead so far that the n-th token can be seen. */
    method Peek(n: nat) returns (t: Token)
      modifies this, chars
      ensures n < |lookahead| && t == lookahead[n] && old(lookahead) <= lookahead
      ensures lookahead == old(lookahead) + Firsts(old(chars.Ahead()), |lookahead| - |old(lookahead)|)
      ensures chars.Ahead() == After(old(chars.Ahead()), |lookahead| - |old(lookahead)|)
    {
      hide Lex, Behind;
      ghost var s, before := chars.Ahead(), lookahead;
      ghost var k := 0;
      assert before + [] == before;
      while |lookahead| <= n
        invariant |lookahead| == |before| + k
        invariant lookahead == before + Firsts(s, k) && chars.Ahead() == After(s, k)
        decreases n - |lookahead|
      {
        FirstsMore(s, k);
        var t := LexOne();
        lookahead := lookahead + [t];
        k := k + 1;
      }
      t := lookahead[n];
    }
  }

  /** What is left of s when its first token has been taken. */
  function Behind(s: string): string {
    var n := Trivia(s);
    if n == |s| then "" else s[n..][LexemeLength(s[n..])..]
  }

  /** The first token, and what is behind it, are those of what is left when blanks and comments are skipped. */
  lemma LexFirst(s: string)
    ensures var t := Skipped(s);
            && (t == "" ==> Lex(s)[0].token == Token(Eof, "") && Behind(s) == "")
            && (t != "" ==> Lex(s)[0].token == Token(KindAt(t), t[..LexemeLength(t)]) && Behind(s) == t[LexemeLength(t)..])
  {
    hide Trivia, LexemeLength, KindAt;
  }

  function After(s: string, k: nat): string
    decreases k
  {
    if k == 0 then s else After(Behind(s), k - 1)
  }

  /** The first k tokens of s, with Eof repeated at the end. */
  function Firsts(s: string, k: nat): seq<Token>
    decreases k
  {
    if k == 0 then [] else [Lex(s)[0].token] + Firsts(Behind(s), k - 1)
  }

  lemma {:induction false} FirstsMore(s: string, k: nat)
    ensures Firsts(s, k + 1) == Firsts(s, k) + [Lex(After(s, k))[0].token]
    ensures After(s, k + 1) == Behind(After(s, k))
    decreases k
  {
    hide Lex, Behind;
    if k > 0 { FirstsMore(Behind(s), k - 1); } else { assert After(Behind(s), 0) == Behind(s); }
  }
}

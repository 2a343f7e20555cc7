/** From an expression to its source text and back, through the lexer and the parser. */
module SourceText {
  import opened Lexing
  import opened Parsing

  /** Tokens that the lexer reads back from their own lexeme and a space. */
  ghost predicate Readable(t: Token) {
    t.lexeme != "" && !t.kind.Eof? && forall rest: string {:trigger t.lexeme + " " + rest} ::
      var u := t.lexeme + " " + rest;
      Trivia(u) == 0 && LexemeLength(u) == |t.lexeme| && KindAt(u) == t.kind
  }

  ghost predicate AllReadable(ts: seq<Token>) {
    forall t :: t in ts ==> Readable(t)
  }

  /** The text of a list of readable tokens lexes to exactly those tokens. */
  lemma {:induction false} LexOfText(ts: seq<Token>)
    requires AllReadable(ts)
    ensures Tokens(Lex(Joined(ts))) == ts + [Token(Eof, "")]
  {
    hide LexemeLength, KindAt, Trivia;
    if ts == [] {
      NothingLeft();
    } else {
      LexOfText(ts[1..]);
      var t, rest := ts[0], Joined(ts[1..]);
      assert Readable(t);
      assert t.lexeme + " " + rest == Joined(ts);
      RelexStep(t.lexeme, t.kind, rest);
      assert ts == [t] + ts[1..];
    }
  }

  lemma NothingLeft()
    ensures Tokens(Lex(Joined([]))) == [Token(Eof, "")]
  {
    assert Lex("") == [Piece("", Token(Eof, ""))];
  }

  predicate IsWord(x: string) {
    x != "" && IsAlpha(x[0]) && (forall i :: 0 <= i < |x| ==> IsIdentContinue(x[i])) && KeywordKind(x) == Identifier
  }

  predicate IsNumber(x: string) {
    x != "" && (forall i :: 0 <= i < |x| ==> IsDigit(x[i])) && (x[0] == '0' ==> |x| == 1)
  }

  /** The names and numbers of e can be written down. */
  predicate Writable(e: Tree) {
    match e
    case Integer(lexeme) => IsNumber(lexeme)
    case Name(x) => IsWord(x)
    case Infix(_, l, r) => Writable(l) && Writable(r)
    case Not(r) => Writable(r)
    case NewObject(c) => IsWord(c)
    case NewArray(n) => Writable(n)
    case Index(a, i) => Writable(a) && Writable(i)
    case Length(a) => Writable(a)
    case Call(r, m, args) => Writable(r) && IsWord(m) && forall a | a in args :: Writable(a)
    case _ => true
  }

  lemma {:induction false} WordRuns(x: string, rest: string)
    requires forall i :: 0 <= i < |x| ==> IsIdentContinue(x[i])
    ensures IdentRun(x + " " + rest) == |x|
  {
    if x != "" {
      WordRuns(x[1..], rest);
      assert (x + " " + rest)[1..] == x[1..] + " " + rest;
    }
  }

  lemma {:induction false} DigitsRun(x: string, rest: string)
    requires forall i :: 0 <= i < |x| ==> IsDigit(x[i])
    ensures Digits(x + " " + rest) == |x|
  {
    if x != "" {
      DigitsRun(x[1..], rest);
      assert (x + " " + rest)[1..] == x[1..] + " " + rest;
    }
  }

  lemma NoOperator(u: string)
    requires u != "" && u[0] != '&' && u[0] != '|' && u[0] != '='
    ensures !StartsWith(u, "&&") && !StartsWith(u, "||") && !StartsWith(u, "==")
  {
    TwoCharacters(u, "&&");
    TwoCharacters(u, "||");
    TwoCharacters(u, "==");
  }

  lemma NoPrint(u: string)
    requires u != "" && u[0] != 'S'
    ensures !StartsWith(u, PRINTLN)
  {
    assert PRINTLN[0] == 'S';
  }

  /** Words and keywords. */
  lemma WordReadable(x: string)
    requires x != "" && IsAlpha(x[0]) && forall i :: 0 <= i < |x| ==> IsIdentContinue(x[i])
    ensures !KeywordKind(x).Eof? ==> Readable(Token(KeywordKind(x), x))
  {
    hide KeywordKind;
    forall rest: string
      ensures var u := x + " " + rest; Trivia(u) == 0 && LexemeLength(u) == |x| && KindAt(u) == KeywordKind(x)
    {
      var u := x + " " + rest;
      assert u[0] == x[0];
      NoOperator(u);
      NotPrintln(x, rest);
      WordRuns(x, rest);
      assert u[..|x|] == x;
    }
  }

  lemma NumberReadable(x: string)
    requires IsNumber(x)
    ensures Readable(Token(IntLiteral, x))
  {
    forall rest: string
      ensures var u := x + " " + rest; Trivia(u) == 0 && LexemeLength(u) == |x| && KindAt(u) == IntLiteral
    {
      var u := x + " " + rest;
      assert u[0] == x[0];
      NoOperator(u);
      NoPrint(u);
      DigitsRun(x, rest);
    }
  }

  predicate IsWordKind(kind: TokenKind) {
    kind.KwTrue? || kind.KwFalse? || kind.KwThis? || kind.KwNew? || kind.KwInt? || kind.KwLength?
  }

  lemma KeywordReadable(kind: TokenKind)
    requires IsWordKind(kind)
    ensures Readable(Mark(kind))
  {
    hide Readable;
    WordReadable(Spelling(kind));
  }

  /** Marks of one character. */
  lemma CharReadable(kind: TokenKind, c: char)
    requires MarkKind(c) == Some(kind) && c != '=' && c != '/'
    ensures Readable(Token(kind, [c]))
  {
    forall rest: string
      ensures var u := [c] + " " + rest; Trivia(u) == 0 && LexemeLength(u) == 1 && KindAt(u) == kind
    {
      var u := [c] + " " + rest;
      assert u[0] == c;
      NoOperator(u);
      NoPrint(u);
    }
  }

  /** A slash before a space starts no comment. */
  lemma SlashReadable()
    ensures Readable(Mark(Slash))
  {
    forall rest: string
      ensures var u := "/" + " " + rest; Trivia(u) == 0 && LexemeLength(u) == 1 && KindAt(u) == Slash
    {
      var u := "/" + " " + rest;
      assert u[0] == '/' && u[1] == ' ';
      NoOperator(u);
      NoPrint(u);
    }
  }

  lemma PairReadable(kind: TokenKind)
    requires kind.AndAnd? || kind.OrOr? || kind.EqEq?
    ensures Readable(Mark(kind))
  {
    var w := Spelling(kind);
    forall rest: string
      ensures var u := w + " " + rest; Trivia(u) == 0 && LexemeLength(u) == 2 && KindAt(u) == kind
    {
      var u := w + " " + rest;
      assert u[0] == w[0] && u[1] == w[1];
      NoPrint(u);
      TwoCharacters(u, "&&");
      TwoCharacters(u, "||");
      TwoCharacters(u, "==");
    }
  }

  /** The marks that the printer writes. */
  predicate Printed(kind: TokenKind) {
    !(kind.Eof? || kind.Invalid? || kind.Identifier? || kind.IntLiteral? || kind.OtherToken?)
  }

  lemma MarkReadable(kind: TokenKind)
    requires Printed(kind)
    ensures Readable(Mark(kind))
  {
    hide Readable;
    if IsWordKind(kind) {
      KeywordReadable(kind);
    } else if kind.AndAnd? || kind.OrOr? || kind.EqEq? {
      PairReadable(kind);
    } else if kind.Slash? {
      SlashReadable();
    } else {
      assert Spelling(kind) == [Spelling(kind)[0]];
      CharReadable(kind, Spelling(kind)[0]);
    }
  }

  lemma WordToken(x: string)
    requires IsWord(x)
    ensures Readable(Token(Identifier, x))
  {
    hide Readable, KeywordKind;
    WordReadable(x);
  }

  lemma BothReadable(a: seq<Token>, b: seq<Token>)
    requires AllReadable(a) && AllReadable(b)
    ensures AllReadable(a + b)
  {
  }

  lemma OneReadable(kind: TokenKind)
    requires Printed(kind)
    ensures AllReadable([Mark(kind)])
  {
    hide Readable;
    MarkReadable(kind);
  }

  lemma {:induction false} PrintReadable(e: Tree, min: nat, next: nat)
    requires Writable(e)
    ensures AllReadable(Print(e, min, next))
    decreases e, 1
  {
    hide AllReadable, PrintBare, Writable;
    if NeedsParens(e, min, next) {
      BareReadable(e, 0, 0);
      OneReadable(LParen);
      OneReadable(RParen);
      BothReadable([Mark(LParen)], PrintBare(e, 0, 0));
      BothReadable([Mark(LParen)] + PrintBare(e, 0, 0), [Mark(RParen)]);
    } else {
      BareReadable(e, min, next);
    }
  }

  lemma {:induction false} BareReadable(e: Tree, min: nat, next: nat)
    requires Writable(e)
    ensures AllReadable(PrintBare(e, min, next))
    decreases e, 0
  {
    hide AllReadable, Print, Mark, IsWord, IsNumber, PrintList;
    match e
    case Infix(op, l, r) =>
      PrintReadable(l, min, LeftPower(op));
      PrintReadable(r, RightPower(op), next);
      OperatorPrinted(op);
      OneReadable(KindOf(op));
      BothReadable(Print(l, min, LeftPower(op)), [Mark(KindOf(op))]);
      BothReadable(Print(l, min, LeftPower(op)) + [Mark(KindOf(op))], Print(r, RightPower(op), next));
    case Not(r) =>
      PrintReadable(r, BP_PREFIX_NOT, next);
      OneReadable(Bang);
      BothReadable([Mark(Bang)], Print(r, BP_PREFIX_NOT, next));
    case NewArray(n) =>
      PrintReadable(n, 0, 0);
      MarksReadable([KwNew, KwInt, LSquare]);
      Enclosed([Mark(KwNew), Mark(KwInt), Mark(LSquare)], Print(n, 0, 0), RSquare);
    case Index(a, i) =>
      PrintReadable(a, min, BP_POSTFIX);
      PrintReadable(i, 0, 0);
      OneReadable(LSquare);
      BothReadable(Print(a, min, BP_POSTFIX), [Mark(LSquare)]);
      Enclosed(Print(a, min, BP_POSTFIX) + [Mark(LSquare)], Print(i, 0, 0), RSquare);
    case Length(a) =>
      PrintReadable(a, min, BP_DOT);
      MarksReadable([Dot, KwLength]);
      BothReadable(Print(a, min, BP_DOT), [Mark(Dot), Mark(KwLength)]);
    case Call(r, m, args) =>
      PrintReadable(r, min, BP_DOT);
      ListReadable(e, 0);
      assert args[0..] == args;
      CallOpens(m);
      BothReadable(Print(r, min, BP_DOT), [Mark(Dot), Token(Identifier, m), Mark(LParen)]);
      Enclosed(Print(r, min, BP_DOT) + [Mark(Dot), Token(Identifier, m), Mark(LParen)], PrintList(args), RParen);
    case _ => AtomReadable(e, min, next);
  }

  lemma AtomReadable(e: Tree, min: nat, next: nat)
    requires Writable(e) && (Atom(e) || e.NewObject?)
    ensures AllReadable(PrintBare(e, min, next))
  {
    hide Readable, Print, Spelling, IsWord, IsNumber, PrintList;
    match e
    case Integer(x) => NumberReadable(x);
    case Name(x) => WordToken(x);
    case True => MarkReadable(KwTrue);
    case False => MarkReadable(KwFalse);
    case This => MarkReadable(KwThis);
    case NewObject(c) =>
      WordToken(c);
      MarkReadable(KwNew);
      MarkReadable(LParen);
      MarkReadable(RParen);
  }

  lemma MarksReadable(kinds: seq<TokenKind>)
    requires forall kind :: kind in kinds ==> Printed(kind)
    ensures |kinds| == 2 ==> AllReadable([Mark(kinds[0]), Mark(kinds[1])])
    ensures |kinds| == 3 ==> AllReadable([Mark(kinds[0]), Mark(kinds[1]), Mark(kinds[2])])
  {
    hide Readable, Mark;
    forall kind | kind in kinds
      ensures Readable(Mark(kind))
    {
      MarkReadable(kind);
    }
  }

  lemma CallOpens(m: string)
    requires IsWord(m)
    ensures AllReadable([Mark(Dot), Token(Identifier, m), Mark(LParen)])
  {
    hide Readable, IsWord;
    WordToken(m);
    MarkReadable(Dot);
    MarkReadable(LParen);
  }

  lemma Enclosed(a: seq<Token>, b: seq<Token>, last: TokenKind)
    requires AllReadable(a) && AllReadable(b) && Printed(last)
    ensures AllReadable(a + b + [Mark(last)])
  {
    hide AllReadable, Printed;
    OneReadable(last);
    BothReadable(a, b);
    BothReadable(a + b, [Mark(last)]);
  }

  lemma OperatorPrinted(op: Operator)
    ensures Printed(KindOf(op))
  {
  }

  lemma {:induction false} ListReadable(call: Tree, k: nat)
    requires call.Call? && k <= |call.args| && forall a | a in call.args :: Writable(a)
    ensures AllReadable(PrintList(call.args[k..]))
    decreases call, 0, |call.args| - k
  {
    hide Readable, Print, Writable, Spelling;
    var es := call.args[k..];
    if es != [] {
      assert es[0] == call.args[k] && es[1..] == call.args[k + 1..];
      PrintReadable(call.args[k], 0, 0);
      ListReadable(call, k + 1);
      OneReadable(Comma);
    }
  }

  /** The source text of an expression, with parentheses only where binding powers require them. */
  function TextOf(e: Tree): string {
    Joined(Print(e, 0, 0))
  }

  /** Lexing and parsing the text of an expression gives back exactly that expression. */
  lemma TextRoundTrip(e: Tree)
    requires Writable(e)
    ensures ParseExpr(Tokens(Lex(TextOf(e))), 0) == Ok(e, [Token(Eof, "")])
  {
    hide ParseExpr, Print, Lex, AllReadable, Writable;
    PrintReadable(e, 0, 0);
    LexOfText(Print(e, 0, 0));
    ParseOfPrint(e, [Token(Eof, "")]);
  }
}

/** The expression parser (src/parsing/Parser.cpp:44-52, 211-235, 964-982, 1039-1306): precedence climbing over
    a token list, the end of the list standing for end of file. */
module Parsing {

  datatype TokenKind =
    | Eof | Invalid | Identifier | IntLiteral | KwTrue | KwFalse | KwThis | KwNew | KwInt | KwLength
    | LParen | RParen | LSquare | RSquare | Comma | Dot
    | Plus | Minus | Star | Slash | Lt | Gt | EqEq | AndAnd | OrOr | Bang
    | OtherToken(name: string)

  datatype Token = Token(kind: TokenKind, lexeme: string)

  datatype Operator = Add | Subtract | Multiply | Divide | Less | Greater | Equal | And | Or

  /** Parse trees; a call without arguments has none. */
  datatype Tree =
    | Integer(lexeme: string)
    | Name(x: string)
    | True | False | This
    | Infix(op: Operator, lhs: Tree, rhs: Tree)
    | Not(e: Tree)
    | NewObject(className: string)
    | NewArray(length: Tree)
    | Index(arr: Tree, index: Tree)
    | Length(arr: Tree)
    | Call(receiver: Tree, methodName: string, args: seq<Tree>)

  datatype ParseError = ExpectedToken(kind: TokenKind) | ExpectedExpression

  datatype Parsed<+T> = Ok(value: T, rest: seq<Token>) | Err(error: ParseError) {
    predicate IsFailure() { Err? }
    function PropagateFailure<U>(): Parsed<U> requires Err? { Err(error) }
    function Extract(): (T, seq<Token>) requires Ok? { (value, rest) }
  }

  const BP_OR := 1
  const BP_AND := 2
  const BP_COMP := 3
  const BP_ADD := 4
  const BP_MUL := 5
  const BP_PREFIX_MINUS := 6
  const BP_POSTFIX := 7
  const BP_DOT := 8
  const BP_PREFIX_NOT := 4

  function LeftPower(op: Operator): nat {
    match op
    case Or => BP_OR
    case And => BP_AND
    case Less => BP_COMP
    case Greater => BP_COMP
    case Equal => BP_COMP
    case Add => BP_ADD
    case Subtract => BP_ADD
    case Multiply => BP_MUL
    case Divide => BP_MUL
  }

  /** `&&` and `||` take an operator of their own strength on the right, the others do not. */
  function RightPower(op: Operator): nat {
    if op.And? || op.Or? then LeftPower(op) else LeftPower(op) + 1
  }

  datatype Option<+T> = None | Some(value: T)

  function OperatorOf(kind: TokenKind): Option<Operator> {
    match kind
    case Plus => Some(Add)
    case Minus => Some(Subtract)
    case Star => Some(Multiply)
    case Slash => Some(Divide)
    case Lt => Some(Less)
    case Gt => Some(Greater)
    case EqEq => Some(Equal)
    case AndAnd => Some(And)
    case OrOr => Some(Or)
    case _ => None
  }

  function KindOf(op: Operator): TokenKind {
    match op
    case Add => Plus
    case Subtract => Minus
    case Multiply => Star
    case Divide => Slash
    case Less => Lt
    case Greater => Gt
    case Equal => EqEq
    case And => AndAnd
    case Or => OrOr
  }

  /** The left binding power of a token, 0 when it cannot continue an expression. */
  function Power(kind: TokenKind): nat {
    if OperatorOf(kind).Some? then LeftPower(OperatorOf(kind).value)
    else if kind.LSquare? then BP_POSTFIX
    else if kind.Dot? then BP_DOT
    else 0
  }

  function Peek(ts: seq<Token>): Token {
    if ts == [] then Token(Eof, "") else ts[0]
  }

  function Rest(ts: seq<Token>): seq<Token> {
    if ts == [] then [] else ts[1..]
  }

  function Expect(kind: TokenKind, ts: seq<Token>): Parsed<Token> {
    if Peek(ts).kind == kind then Ok(Peek(ts), Rest(ts)) else Err(ExpectedToken(kind))
  }

  /** The operand an expression starts with, prefix operators and parentheses included. */
  function ParsePrimary(ts: seq<Token>): (r: Parsed<Tree>)
    ensures r.Ok? ==> |r.rest| < |ts|
    decreases |ts|, 1
  {
    if ts == [] then Err(ExpectedExpression)
    else
      var rest := ts[1..];
      match ts[0].kind
      case IntLiteral => Ok(Integer(ts[0].lexeme), rest)
      case Identifier => Ok(Name(ts[0].lexeme), rest)
      case KwTrue => Ok(True, rest)
      case KwFalse => Ok(False, rest)
      case KwThis => Ok(This, rest)
      case LParen =>
        var (e, r1) :- ParseExpr(rest, 0);
        var (_, r2) :- Expect(RParen, r1);
        Ok(e, r2)
      case Bang =>
        var (e, r1) :- ParseExpr(rest, BP_PREFIX_NOT);
        Ok(Not(e), r1)
      case Minus =>
        var (e, r1) :- ParseExpr(rest, BP_PREFIX_MINUS);
        Ok(Infix(Subtract, Integer("0"), e), r1)
      case KwNew => ParseNew(rest)
      case _ => Err(ExpectedExpression)
  }

  /** What follows `new int`. */
  function ParseArray(ts: seq<Token>): (r: Parsed<Tree>)
    ensures r.Ok? ==> |r.rest| <= |ts|
    decreases |ts|, 3
  {
    var (_, r1) :- Expect(LSquare, ts);
    var (length, r2) :- ParseExpr(r1, 0);
    var (_, r3) :- Expect(RSquare, r2);
    Ok(NewArray(length), r3)
  }

  /** What follows the opening parenthesis of a call. */
  function ParseCall(lhs: Tree, name: string, ts: seq<Token>): (r: Parsed<Tree>)
    ensures r.Ok? ==> |r.rest| <= |ts|
    decreases |ts|, 4
  {
    if Peek(ts).kind == RParen then Ok(Call(lhs, name, []), Rest(ts))
    else
      var (args, r1) :- ParseList(ts);
      var (_, r2) :- Expect(RParen, r1);
      Ok(Call(lhs, name, args), r2)
  }

  /** What follows `new`. */
  function ParseNew(ts: seq<Token>): (r: Parsed<Tree>)
    ensures r.Ok? ==> |r.rest| <= |ts|
    decreases |ts|, 1
  {
    if Peek(ts).kind == KwInt then ParseArray(Rest(ts))
    else
      var (id, r1) :- Expect(Identifier, ts);
      var (_, r2) :- Expect(LParen, r1);
      var (_, r3) :- Expect(RParen, r2);
      Ok(NewObject(id.lexeme), r3)
  }

  /** Continues lhs as long as the next operator binds at least as strongly as min. */
  function ParseLoop(lhs: Tree, ts: seq<Token>, min: nat): (r: Parsed<Tree>)
    ensures r.Ok? ==> |r.rest| <= |ts|
    decreases |ts|, 1
  {
    var kind := Peek(ts).kind;
    if Power(kind) == 0 || Power(kind) < min then Ok(lhs, ts)
    else
      var (e, rest) :- ParseInfix(lhs, ts);
      ParseLoop(e, rest, min)
  }

  /** One operator and what belongs to it. */
  function ParseInfix(lhs: Tree, ts: seq<Token>): (r: Parsed<Tree>)
    requires ts != [] && Power(ts[0].kind) > 0
    ensures r.Ok? ==> |r.rest| < |ts|
    decreases |ts|, 0
  {
    var kind, rest := ts[0].kind, ts[1..];
    if kind.LSquare? then
      var (index, r1) :- ParseExpr(rest, 0);
      var (_, r2) :- Expect(RSquare, r1);
      Ok(Index(lhs, index), r2)
    else if kind.Dot? then ParseMember(lhs, rest)
    else
      var op := OperatorOf(kind).value;
      var (rhs, r1) :- ParseExpr(rest, RightPower(op));
      Ok(Infix(op, lhs, rhs), r1)
  }

  /** What follows a dot: `length`, or a method's name and arguments. */
  function ParseMember(lhs: Tree, ts: seq<Token>): (r: Parsed<Tree>)
    ensures r.Ok? ==> |r.rest| <= |ts|
    decreases |ts|, 0
  {
    if Peek(ts).kind == KwLength then Ok(Length(lhs), Rest(ts))
    else
      var (id, r1) :- Expect(Identifier, ts);
      var (_, r2) :- Expect(LParen, r1);
      ParseCall(lhs, id.lexeme, r2)
  }

  /** One or more expressions separated by commas. */
  function ParseList(ts: seq<Token>): (r: Parsed<seq<Tree>>)
    ensures r.Ok? ==> |r.rest| < |ts|
    decreases |ts|, 3
  {
    var (e, rest) :- ParseExpr(ts, 0);
    if Peek(rest).kind == Comma then
      var (es, r) :- ParseList(Rest(rest));
      Ok([e] + es, r)
    else Ok([e], rest)
  }

  function ParseExpr(ts: seq<Token>, min: nat): (r: Parsed<Tree>)
    ensures r.Ok? ==> |r.rest| < |ts|
    decreases |ts|, 2
  {
    var (lhs, rest) :- ParsePrimary(ts);
    ParseLoop(lhs, rest, min)
  }

  // ----- a printer that parenthesises only where binding powers require it -----

  /** How a token that is always written alike is written. */
  function Spelling(kind: TokenKind): string {
    match kind
    case KwTrue => "true"
    case KwFalse => "false"
    case KwThis => "this"
    case KwNew => "new"
    case KwInt => "int"
    case KwLength => "length"
    case LParen => "("
    case RParen => ")"
    case LSquare => "["
    case RSquare => "]"
    case Comma => ","
    case Dot => "."
    case Plus => "+"
    case Minus => "-"
    case Star => "*"
    case Slash => "/"
    case Lt => "<"
    case Gt => ">"
    case EqEq => "=="
    case AndAnd => "&&"
    case OrOr => "||"
    case Bang => "!"
    case Eof => ""
    case Invalid => ""
    case Identifier => ""
    case IntLiteral => ""
    case OtherToken(name) => name
  }

  function Mark(kind: TokenKind): Token {
    Token(kind, Spelling(kind))
  }

  /** Whether e must be parenthesised when it is parsed with minimum power min and an operator of left power up
      to next follows: its operator is too weak for the place, or its right operand would go on into what
      follows. */
  predicate NeedsParens(e: Tree, min: nat, next: nat) {
    match e
    case Infix(op, _, _) => LeftPower(op) < min || next >= RightPower(op)
    case Not(_) => next >= BP_PREFIX_NOT
    case Index(_, _) => BP_POSTFIX < min
    case Length(_) => BP_DOT < min
    case Call(_, _, _) => BP_DOT < min
    case _ => false
  }

  function Print(e: Tree, min: nat, next: nat): (ts: seq<Token>)
    ensures ts != [] && ts[0].kind != RParen
    decreases e, 1
  {
    if NeedsParens(e, min, next) then [Mark(LParen)] + PrintBare(e, 0, 0) + [Mark(RParen)] else PrintBare(e, min, next)
  }

  function PrintBare(e: Tree, min: nat, next: nat): (ts: seq<Token>)
    ensures ts != [] && ts[0].kind != RParen
    decreases e, 0
  {
    match e
    case Integer(lexeme) => [Token(IntLiteral, lexeme)]
    case Name(x) => [Token(Identifier, x)]
    case True => [Mark(KwTrue)]
    case False => [Mark(KwFalse)]
    case This => [Mark(KwThis)]
    case Infix(op, l, r) => Print(l, min, LeftPower(op)) + [Mark(KindOf(op))] + Print(r, RightPower(op), next)
    case Not(r) => [Mark(Bang)] + Print(r, BP_PREFIX_NOT, next)
    case NewObject(c) => [Mark(KwNew), Token(Identifier, c), Mark(LParen), Mark(RParen)]
    case NewArray(length) => [Mark(KwNew), Mark(KwInt), Mark(LSquare)] + Print(length, 0, 0) + [Mark(RSquare)]
    case Index(a, i) => Print(a, min, BP_POSTFIX) + [Mark(LSquare)] + Print(i, 0, 0) + [Mark(RSquare)]
    case Length(a) => Print(a, min, BP_DOT) + [Mark(Dot), Mark(KwLength)]
    case Call(r, m, args) =>
      Print(r, min, BP_DOT) + [Mark(Dot), Token(Identifier, m), Mark(LParen)] + PrintList(args) + [Mark(RParen)]
  }

  function PrintList(es: seq<Tree>): (ts: seq<Token>)
    ensures es != [] ==> ts != [] && ts[0].kind != RParen
    decreases es
  {
    if es == [] then []
    else if |es| == 1 then Print(es[0], 0, 0)
    else Print(es[0], 0, 0) + [Mark(Comma)] + PrintList(es[1..])
  }

  // ----- round trip -----

  /** What follows binds at most as strongly as next. */
  predicate FollowedBy(rest: seq<Token>, next: nat) {
    Power(Peek(rest).kind) <= next
  }

  lemma LoopStops(e: Tree, rest: seq<Token>, min: nat)
    requires Power(Peek(rest).kind) == 0 || Power(Peek(rest).kind) < min
    ensures ParseLoop(e, rest, min) == Ok(e, rest)
  {
  }

  /** Parsing a printed expression and whatever follows is continuing with that expression. */
  lemma {:induction false} PrintedParses(e: Tree, min: nat, next: nat, rest: seq<Token>)
    requires FollowedBy(rest, next)
    ensures ParseExpr(Print(e, min, next) + rest, min) == ParseLoop(e, rest, min)
    decreases e, 1
  {
    hide PrintBare, ParseLoop, ParsePrimary, Spelling;
    if NeedsParens(e, min, next) {
      var after := [Mark(RParen)] + rest;
      assert Print(e, min, next) + rest == [Mark(LParen)] + (PrintBare(e, 0, 0) + after);
      NoParens(e);
      BareParses(e, 0, 0, after);
      LoopStops(e, after, 0);
      ParenParses(PrintBare(e, 0, 0) + after, e, rest);
    } else {
      BareParses(e, min, next, rest);
    }
  }

  lemma NoParens(e: Tree)
    ensures !NeedsParens(e, 0, 0)
  {
  }

  lemma ParenParses(ts: seq<Token>, e: Tree, rest: seq<Token>)
    requires ParseExpr(ts, 0) == Ok(e, [Mark(RParen)] + rest)
    ensures ParsePrimary([Mark(LParen)] + ts) == Ok(e, rest)
  {
    hide ParseExpr;
    assert ([Mark(LParen)] + ts)[1..] == ts && ([Mark(RParen)] + rest)[1..] == rest;
  }

  lemma {:induction false} BareParses(e: Tree, min: nat, next: nat, rest: seq<Token>)
    requires FollowedBy(rest, next) && !NeedsParens(e, min, next)
    ensures ParseExpr(PrintBare(e, min, next) + rest, min) == ParseLoop(e, rest, min)
    decreases e, 0
  {
    hide ParseExpr, ParseLoop, Print, ParsePrimary, Spelling;
    match e
    case Infix(op, l, r) => InfixParses(e, op, l, r, min, next, rest);
    case Not(r) =>
      var ts := Print(r, BP_PREFIX_NOT, next) + rest;
      assert PrintBare(e, min, next) + rest == [Mark(Bang)] + ts;
      PrintedParses(r, BP_PREFIX_NOT, next, rest);
      LoopStops(r, rest, BP_PREFIX_NOT);
      NotParses(ts, r, rest, min);
    case NewArray(length) =>
      var ts := Print(length, 0, 0) + ([Mark(RSquare)] + rest);
      assert PrintBare(e, min, next) + rest == [Mark(KwNew), Mark(KwInt), Mark(LSquare)] + ts;
      PrintedParses(length, 0, 0, [Mark(RSquare)] + rest);
      LoopStops(length, [Mark(RSquare)] + rest, 0);
      NewArrayParses(ts, length, rest, min);
    case Index(a, i) =>
      var inner := Print(i, 0, 0) + ([Mark(RSquare)] + rest);
      var after := [Mark(LSquare)] + inner;
      assert PrintBare(e, min, next) + rest == Print(a, min, BP_POSTFIX) + after;
      PrintedParses(a, min, BP_POSTFIX, after);
      PrintedParses(i, 0, 0, [Mark(RSquare)] + rest);
      LoopStops(i, [Mark(RSquare)] + rest, 0);
      IndexParses(inner, a, i, rest, min);
    case Length(a) =>
      var after := [Mark(Dot), Mark(KwLength)] + rest;
      assert PrintBare(e, min, next) + rest == Print(a, min, BP_DOT) + after;
      PrintedParses(a, min, BP_DOT, after);
      LengthParses(a, rest, min);
    case Call(r, m, args) => CallParses(e, r, m, args, min, next, rest);
    case _ => AtomParses(e, min, next, rest);
  }

  lemma AtomParses(e: Tree, min: nat, next: nat, rest: seq<Token>)
    requires e.Integer? || e.Name? || e.True? || e.False? || e.This? || e.NewObject?
    ensures ParseExpr(PrintBare(e, min, next) + rest, min) == ParseLoop(e, rest, min)
  {
    hide ParseLoop, Spelling;
    if e.NewObject? { NewObjectParses(e, min, next, rest); } else { assert (PrintBare(e, min, next) + rest)[1..] == rest; }
  }

  lemma NewObjectParses(e: Tree, min: nat, next: nat, rest: seq<Token>)
    requires e.NewObject?
    ensures ParseExpr(PrintBare(e, min, next) + rest, min) == ParseLoop(e, rest, min)
  {
    hide ParseLoop, ParseExpr, Spelling;
    var ts := [Token(Identifier, e.className), Mark(LParen), Mark(RParen)] + rest;
    assert ts[1..] == [Mark(LParen), Mark(RParen)] + rest;
    assert ts[1..][1..] == [Mark(RParen)] + rest;
    assert ts[1..][1..][1..] == rest;
    assert ParseNew(ts) == Ok(e, rest);
    NewParses(ts, e, rest, min);
    assert PrintBare(e, min, next) + rest == [Mark(KwNew)] + ts;
  }

  lemma NotParses(ts: seq<Token>, r: Tree, rest: seq<Token>, min: nat)
    requires ParseExpr(ts, BP_PREFIX_NOT) == Ok(r, rest)
    ensures ParseExpr([Mark(Bang)] + ts, min) == ParseLoop(Not(r), rest, min)
  {
    hide ParseLoop;
    assert ([Mark(Bang)] + ts)[1..] == ts;
  }

  lemma NewParses(ts: seq<Token>, e: Tree, rest: seq<Token>, min: nat)
    requires ParseNew(ts) == Ok(e, rest)
    ensures ParseExpr([Mark(KwNew)] + ts, min) == ParseLoop(e, rest, min)
  {
    hide ParseLoop, ParseNew;
    assert ([Mark(KwNew)] + ts)[1..] == ts;
  }

  lemma MemberParses(lhs: Tree, ts: seq<Token>, e: Tree, rest: seq<Token>, min: nat)
    requires ParseMember(lhs, ts) == Ok(e, rest) && min <= BP_DOT
    ensures ParseLoop(lhs, [Mark(Dot)] + ts, min) == ParseLoop(e, rest, min)
  {
    hide ParseMember;
    assert ([Mark(Dot)] + ts)[1..] == ts;
  }

  lemma NewArrayParses(ts: seq<Token>, length: Tree, rest: seq<Token>, min: nat)
    requires ParseExpr(ts, 0) == Ok(length, [Mark(RSquare)] + rest)
    ensures ParseExpr([Mark(KwNew), Mark(KwInt), Mark(LSquare)] + ts, min) == ParseLoop(NewArray(length), rest, min)
  {
    hide ParseLoop, ParseExpr, Spelling;
    var all := [Mark(KwInt), Mark(LSquare)] + ts;
    assert all[1..] == [Mark(LSquare)] + ts;
    assert all[1..][1..] == ts;
    assert ([Mark(RSquare)] + rest)[1..] == rest;
    NewParses(all, NewArray(length), rest, min);
    assert [Mark(KwNew), Mark(KwInt), Mark(LSquare)] + ts == [Mark(KwNew)] + all;
  }

  lemma IndexParses(inner: seq<Token>, a: Tree, i: Tree, rest: seq<Token>, min: nat)
    requires ParseExpr(inner, 0) == Ok(i, [Mark(RSquare)] + rest) && min <= BP_POSTFIX
    ensures ParseLoop(a, [Mark(LSquare)] + inner, min) == ParseLoop(Index(a, i), rest, min)
  {
    hide ParseExpr;
    assert ([Mark(LSquare)] + inner)[1..] == inner && ([Mark(RSquare)] + rest)[1..] == rest;
  }

  lemma LengthParses(a: Tree, rest: seq<Token>, min: nat)
    requires min <= BP_DOT
    ensures ParseLoop(a, [Mark(Dot), Mark(KwLength)] + rest, min) == ParseLoop(Length(a), rest, min)
  {
    hide ParseLoop;
    var ts := [Mark(KwLength)] + rest;
    assert ts[1..] == rest;
    MemberParses(a, ts, Length(a), rest, min);
    assert [Mark(Dot), Mark(KwLength)] + rest == [Mark(Dot)] + ts;
  }

  lemma InfixParses(e: Tree, op: Operator, l: Tree, r: Tree, min: nat, next: nat, rest: seq<Token>)
    requires e == Infix(op, l, r) && FollowedBy(rest, next) && !NeedsParens(e, min, next)
    ensures ParseExpr(PrintBare(e, min, next) + rest, min) == ParseLoop(e, rest, min)
    decreases e, 0, 0
  {
    hide ParseExpr, ParseLoop, Print, Spelling;
    var right := Print(r, RightPower(op), next) + rest;
    var after := [Mark(KindOf(op))] + right;
    assert PrintBare(e, min, next) + rest == Print(l, min, LeftPower(op)) + after;
    PrintedParses(l, min, LeftPower(op), after);
    PrintedParses(r, RightPower(op), next, rest);
    LoopStops(r, rest, RightPower(op));
    OperatorParses(op, l, right, r, rest, min);
  }

  lemma OperatorParses(op: Operator, l: Tree, right: seq<Token>, r: Tree, rest: seq<Token>, min: nat)
    requires ParseExpr(right, RightPower(op)) == Ok(r, rest) && LeftPower(op) >= min
    ensures ParseLoop(l, [Mark(KindOf(op))] + right, min) == ParseLoop(Infix(op, l, r), rest, min)
  {
    hide ParseExpr;
    assert ([Mark(KindOf(op))] + right)[1..] == right;
    assert OperatorOf(KindOf(op)) == Some(op);
  }

  lemma {:induction false} ListParses(call: Tree, k: nat, rest: seq<Token>)
    requires call.Call? && k < |call.args| && Peek(rest).kind == RParen
    ensures ParseList(PrintList(call.args[k..]) + rest) == Ok(call.args[k..], rest)
    decreases call, 0, |call.args| - k
  {
    hide ParseExpr, ParseLoop, Print, Spelling;
    var es := call.args[k..];
    assert es[0] == call.args[k];
    if |es| == 1 {
      PrintedParses(call.args[k], 0, 0, rest);
      LoopStops(es[0], rest, 0);
      assert es == [es[0]];
    } else {
      assert es[1..] == call.args[k + 1..];
      var after := [Mark(Comma)] + (PrintList(es[1..]) + rest);
      assert PrintList(es) + rest == Print(es[0], 0, 0) + after;
      PrintedParses(call.args[k], 0, 0, after);
      LoopStops(es[0], after, 0);
      assert after[1..] == PrintList(es[1..]) + rest;
      ListParses(call, k + 1, rest);
      assert es == [es[0]] + es[1..];
    }
  }

  lemma CallParses(e: Tree, r: Tree, m: string, args: seq<Tree>, min: nat, next: nat, rest: seq<Token>)
    requires e == Call(r, m, args) && FollowedBy(rest, next) && !NeedsParens(e, min, next)
    ensures ParseExpr(PrintBare(e, min, next) + rest, min) == ParseLoop(e, rest, min)
    decreases e, 0, |args| + 1
  {
    hide ParseExpr, ParseLoop, Print, PrintList, ParseList, Spelling;
    var inner := PrintList(args) + ([Mark(RParen)] + rest);
    var after := [Mark(Dot), Token(Identifier, m), Mark(LParen)] + inner;
    assert PrintBare(e, min, next) + rest == Print(r, min, BP_DOT) + after;
    PrintedParses(r, min, BP_DOT, after);
    assert args[0..] == args;
    if args != [] { ListParses(e, 0, [Mark(RParen)] + rest); }
    ArgumentsParse(r, m, args, inner, rest, min);
  }

  lemma NoArguments()
    ensures PrintList([]) == []
  {
  }

  lemma ArgumentsParse(r: Tree, m: string, args: seq<Tree>, inner: seq<Token>, rest: seq<Token>, min: nat)
    requires min <= BP_DOT && inner == PrintList(args) + ([Mark(RParen)] + rest)
    requires args != [] ==> ParseList(inner) == Ok(args, [Mark(RParen)] + rest)
    ensures ParseLoop(r, [Mark(Dot), Token(Identifier, m), Mark(LParen)] + inner, min) == ParseLoop(Call(r, m, args), rest, min)
  {
    hide ParseExpr, ParseLoop, ParseList, PrintList, ParseMember, Spelling;
    var ts := [Token(Identifier, m), Mark(LParen)] + inner;
    InnerMember(r, m, args, inner, rest);
    MemberParses(r, ts, Call(r, m, args), rest, min);
    assert [Mark(Dot), Token(Identifier, m), Mark(LParen)] + inner == [Mark(Dot)] + ts;
  }

  lemma InnerMember(r: Tree, m: string, args: seq<Tree>, inner: seq<Token>, rest: seq<Token>)
    requires inner == PrintList(args) + ([Mark(RParen)] + rest)
    requires args != [] ==> ParseList(inner) == Ok(args, [Mark(RParen)] + rest)
    ensures ParseMember(r, [Token(Identifier, m), Mark(LParen)] + inner) == Ok(Call(r, m, args), rest)
  {
    hide ParseExpr, ParseLoop, ParseList, PrintList, Spelling;
    var ts := [Token(Identifier, m), Mark(LParen)] + inner;
    assert ts[1..] == [Mark(LParen)] + inner;
    assert ts[1..][1..] == inner;
    assert ([Mark(RParen)] + rest)[1..] == rest;
    if args == [] {
      NoArguments();
      assert inner == [Mark(RParen)] + rest;
    } else {
      assert inner[0] == PrintList(args)[0];
    }
  }

  /** Round trip: parsing what was printed gives back exactly the tree, and leaves whatever follows untouched
      as long as that cannot continue an expression. */
  lemma ParseOfPrint(e: Tree, rest: seq<Token>)
    requires Power(Peek(rest).kind) == 0
    ensures ParseExpr(Print(e, 0, 0) + rest, 0) == Ok(e, rest)
  {
    hide ParseExpr, Print, ParseLoop;
    PrintedParses(e, 0, 0, rest);
    LoopStops(e, rest, 0);
  }

  // ----- no parentheses but the ones required -----

  function OperatorOfPower(p: nat): Operator {
    match p
    case 1 => Or
    case 2 => And
    case 3 => Less
    case 4 => Add
    case _ => Multiply
  }

  /** Something that goes on from an expression, binding at least as strongly as p: an operator and 0, or an index. */
  function Follower(p: nat): seq<Token> {
    if p < BP_PREFIX_MINUS then [Mark(KindOf(OperatorOfPower(p))), Token(IntLiteral, "0")]
    else [Mark(LSquare), Token(IntLiteral, "0"), Mark(RSquare)]
  }

  function FollowerPower(p: nat): nat {
    if p < BP_PREFIX_MINUS then p else BP_POSTFIX
  }

  /** What becomes of the expression in front of it. */
  function Extended(e: Tree, p: nat): Tree {
    if p < BP_PREFIX_MINUS then Infix(OperatorOfPower(p), e, Integer("0")) else Index(e, Integer("0"))
  }

  lemma FollowerParses(e: Tree, p: nat, min: nat)
    requires 1 <= p <= BP_PREFIX_MINUS
    ensures Power(Peek(Follower(p)).kind) == FollowerPower(p)
    ensures ParseLoop(e, Follower(p), min) == if FollowerPower(p) < min then Ok(e, Follower(p)) else Ok(Extended(e, p), [])
  {
    hide ParseExpr, ParseLoop, Spelling;
    var zero := Integer("0");
    if FollowerPower(p) < min {
      LoopStops(e, Follower(p), min);
    } else if p < BP_PREFIX_MINUS {
      var op, tail := OperatorOfPower(p), [AtomToken(zero)];
      assert LeftPower(op) == p && tail + [] == tail && Follower(p) == [Mark(KindOf(op))] + tail;
      AtomParse(zero, [], RightPower(op));
      EndStops(zero, RightPower(op));
      OperatorParses(op, e, tail, zero, [], min);
      EndStops(Extended(e, p), min);
    } else {
      var close := [Mark(RSquare)];
      var inner := [AtomToken(zero)] + close;
      assert close + [] == close && Follower(p) == [Mark(LSquare)] + inner;
      AtomParse(zero, close, 0);
      LoopStops(zero, close, 0);
      IndexParses(inner, e, zero, [], min);
      EndStops(Extended(e, p), min);
    }
  }

  /** The loop stops in front of an operator that is too weak. */
  lemma WeakStops(e: Tree, a: Tree, after: seq<Token>, min: nat)
    requires after != [] && Power(after[0].kind) < min
    ensures ParseLoop(a, after, min) != ParseLoop(e, [], min)
  {
    LoopStops(a, after, min);
    EndStops(e, min);
  }

  /** A right operand goes on into what follows. */
  lemma OpenEnds(op: Operator, l: Tree, r: Tree, min: nat, next: nat) returns (rest: seq<Token>)
    requires min <= LeftPower(op) && RightPower(op) <= next && next != BP_PREFIX_MINUS
    ensures FollowedBy(rest, next)
    ensures ParseExpr(PrintBare(Infix(op, l, r), min, next) + rest, min) != ParseLoop(Infix(op, l, r), rest, min)
  {
    hide ParseExpr, ParseLoop, Print, Spelling, Follower, Extended;
    var e, p := Infix(op, l, r), RightPower(op);
    rest := Follower(p);
    FollowerParses(r, p, p);
    FollowerParses(e, p, min);
    var right := Print(r, p, next) + rest;
    var after := [Mark(KindOf(op))] + right;
    assert PrintBare(e, min, next) + rest == Print(l, min, LeftPower(op)) + after;
    KindsMatch(op);
    PrintedParses(l, min, LeftPower(op), after);
    PrintedParses(r, p, next, rest);
    OperatorParses(op, l, right, Extended(r, p), [], min);
    EndStops(Infix(op, l, Extended(r, p)), min);
    OtherTree(op, l, r, p);
  }

  lemma OtherTree(op: Operator, l: Tree, r: Tree, p: nat)
    ensures Infix(op, l, Extended(r, p)) != Extended(Infix(op, l, r), p)
    ensures Infix(op, l, Extended(r, p)) != Infix(op, l, r)
    ensures Follower(p) != []
  {
    var x := Extended(r, p);
    assert if p < BP_PREFIX_MINUS then x.Infix? && x.lhs == r && x.lhs < x else x.Index? && x.arr == r && x.arr < x;
  }

  lemma NotOpenEnds(r: Tree, min: nat, next: nat) returns (rest: seq<Token>)
    requires BP_PREFIX_NOT <= next
    ensures FollowedBy(rest, next) && ParseExpr(PrintBare(Not(r), min, next) + rest, min) != ParseLoop(Not(r), rest, min)
  {
    hide ParseExpr, ParseLoop, Print, Spelling;
    rest := Follower(BP_PREFIX_NOT);
    FollowerParses(r, BP_PREFIX_NOT, BP_PREFIX_NOT);
    FollowerParses(Not(r), BP_PREFIX_NOT, min);
    var ts := Print(r, BP_PREFIX_NOT, next) + rest;
    assert PrintBare(Not(r), min, next) + rest == [Mark(Bang)] + ts;
    PrintedParses(r, BP_PREFIX_NOT, next, rest);
    NotParses(ts, Extended(r, BP_PREFIX_NOT), [], min);
    EndStops(Not(Extended(r, BP_PREFIX_NOT)), min);
  }

  lemma {:induction false} WeakEnds(e: Tree, min: nat, next: nat)
    requires (e.Infix? && LeftPower(e.op) < min) || (e.Index? && BP_POSTFIX < min) || ((e.Length? || e.Call?) && BP_DOT < min)
    ensures ParseExpr(PrintBare(e, min, next) + [], min) != ParseLoop(e, [], min)
  {
    hide ParseExpr, ParseLoop, Print, PrintList, Spelling, LeftPower, RightPower;
    var bare := PrintBare(e, min, next);
    assert bare + [] == bare;
    if e.Infix? {
      var after := [Mark(KindOf(e.op))] + Print(e.rhs, RightPower(e.op), next);
      assert bare == Print(e.lhs, min, LeftPower(e.op)) + after;
      KindsMatch(e.op);
      PrintedParses(e.lhs, min, LeftPower(e.op), after);
      WeakStops(e, e.lhs, after, min);
    } else if e.Index? {
      var after := [Mark(LSquare)] + Print(e.index, 0, 0) + [Mark(RSquare)];
      assert bare == Print(e.arr, min, BP_POSTFIX) + after;
      PrintedParses(e.arr, min, BP_POSTFIX, after);
      WeakStops(e, e.arr, after, min);
    } else if e.Length? {
      var after := [Mark(Dot), Mark(KwLength)];
      assert bare == Print(e.arr, min, BP_DOT) + after;
      PrintedParses(e.arr, min, BP_DOT, after);
      WeakStops(e, e.arr, after, min);
    } else {
      var after := [Mark(Dot), Token(Identifier, e.methodName), Mark(LParen)] + PrintList(e.args) + [Mark(RParen)];
      assert bare == Print(e.receiver, min, BP_DOT) + after;
      PrintedParses(e.receiver, min, BP_DOT, after);
      WeakStops(e, e.receiver, after, min);
    }
  }

  /** Parentheses are printed exactly where they are required: where the text without them would, before something that
      binds at most as strongly as next, not be parsed as that expression. No token has the power of a prefix minus,
      and the printer never asks for it. */
  lemma ParensExactly(e: Tree, min: nat, next: nat)
    requires next != BP_PREFIX_MINUS
    ensures NeedsParens(e, min, next) <==>
            exists rest :: FollowedBy(rest, next) && ParseExpr(PrintBare(e, min, next) + rest, min) != ParseLoop(e, rest, min)
  {
    hide ParseExpr, ParseLoop, PrintBare, FollowedBy;
    if NeedsParens(e, min, next) {
      var rest: seq<Token> := [];
      if e.Infix? && min <= LeftPower(e.op) {
        rest := OpenEnds(e.op, e.lhs, e.rhs, min, next);
      } else if e.Not? {
        rest := NotOpenEnds(e.e, min, next);
      } else {
        WeakEnds(e, min, next);
        NothingFollows(next);
      }
      assert FollowedBy(rest, next) && ParseExpr(PrintBare(e, min, next) + rest, min) != ParseLoop(e, rest, min);
    } else {
      forall rest | FollowedBy(rest, next)
        ensures ParseExpr(PrintBare(e, min, next) + rest, min) == ParseLoop(e, rest, min)
      {
        BareParses(e, min, next, rest);
      }
    }
  }

  lemma NothingFollows(next: nat)
    ensures FollowedBy([], next)
  {
  }

  // ----- what the binding powers mean -----

  predicate Atom(e: Tree) {
    e.Integer? || e.Name? || e.True? || e.False? || e.This?
  }

  function AtomToken(e: Tree): Token
    requires Atom(e)
  {
    match e
    case Integer(lexeme) => Token(IntLiteral, lexeme)
    case Name(x) => Token(Identifier, x)
    case True => Mark(KwTrue)
    case False => Mark(KwFalse)
    case This => Mark(KwThis)
  }

  lemma AtomParse(e: Tree, rest: seq<Token>, min: nat)
    requires Atom(e)
    ensures ParseExpr([AtomToken(e)] + rest, min) == ParseLoop(e, rest, min)
  {
    hide ParseLoop;
    assert ([AtomToken(e)] + rest)[1..] == rest;
  }

  /** `a op1 b op2 c` for any two operators: the second takes b exactly when its left power reaches the right
      power of the first. So `&&` and `||` group to the right, equal operators otherwise to the left. */
  lemma OperatorsGroup(a: Tree, op1: Operator, b: Tree, op2: Operator, c: Tree)
    requires Atom(a) && Atom(b) && Atom(c)
    ensures ParseExpr([AtomToken(a), Mark(KindOf(op1)), AtomToken(b), Mark(KindOf(op2)), AtomToken(c)], 0) ==
            Ok(if LeftPower(op2) >= RightPower(op1) then Infix(op1, a, Infix(op2, b, c)) else Infix(op2, Infix(op1, a, b), c), [])
  {
    hide ParseExpr, ParseLoop, RightPower, LeftPower, OperatorOf, Spelling;
    var tc := [AtomToken(c)];
    var t2 := [Mark(KindOf(op2))] + tc;
    var tb := [AtomToken(b)] + t2;
    var t1 := [Mark(KindOf(op1))] + tb;
    assert [AtomToken(a), Mark(KindOf(op1)), AtomToken(b), Mark(KindOf(op2)), AtomToken(c)] == [AtomToken(a)] + t1;
    assert tc + [] == tc;
    AtomParse(a, t1, 0);
    AtomParse(b, t2, RightPower(op1));
    AtomParse(c, [], RightPower(op2));
    EndStops(c, RightPower(op2));
    KindsMatch(op1);
    KindsMatch(op2);
    if LeftPower(op2) >= RightPower(op1) {
      OperatorParses(op2, b, tc, c, [], RightPower(op1));
      EndStops(Infix(op2, b, c), RightPower(op1));
      OperatorParses(op1, a, tb, Infix(op2, b, c), [], 0);
      EndStops(Infix(op1, a, Infix(op2, b, c)), 0);
    } else {
      LoopStops(b, t2, RightPower(op1));
      OperatorParses(op1, a, tb, b, t2, 0);
      OperatorParses(op2, Infix(op1, a, b), tc, c, [], 0);
      EndStops(Infix(op2, Infix(op1, a, b), c), 0);
    }
  }

  /** Which of two operators takes the operand between them, by name: the second one if it is `*` or `/` and the first is
      neither; if it is `+` or `-` and the first compares or is logical; if it compares and the first is logical; if it is
      `&&` and the first is logical; or if both are `||`. */
  predicate SecondTakes(first: Operator, second: Operator) {
    match second
    case Multiply => !first.Multiply? && !first.Divide?
    case Divide => !first.Multiply? && !first.Divide?
    case Add => first.Less? || first.Greater? || first.Equal? || first.And? || first.Or?
    case Subtract => first.Less? || first.Greater? || first.Equal? || first.And? || first.Or?
    case Less => first.And? || first.Or?
    case Greater => first.And? || first.Or?
    case Equal => first.And? || first.Or?
    case And => first.And? || first.Or?
    case Or => first.Or?
  }

  /** `a op1 b op2 c`, in terms of the operators alone. */
  lemma NamedOperatorsGroup(a: Tree, op1: Operator, b: Tree, op2: Operator, c: Tree)
    requires Atom(a) && Atom(b) && Atom(c)
    ensures ParseExpr([AtomToken(a), Mark(KindOf(op1)), AtomToken(b), Mark(KindOf(op2)), AtomToken(c)], 0) ==
            Ok(if SecondTakes(op1, op2) then Infix(op1, a, Infix(op2, b, c)) else Infix(op2, Infix(op1, a, b), c), [])
  {
    hide ParseExpr;
    OperatorsGroup(a, op1, b, op2, c);
  }

  /** The tokens of the operators. */
  lemma OperatorTokens()
    ensures KindOf(Add) == Plus && KindOf(Subtract) == Minus && KindOf(Multiply) == Star && KindOf(Divide) == Slash && KindOf(Less) == Lt
    ensures KindOf(Greater) == Gt && KindOf(Equal) == EqEq && KindOf(And) == AndAnd && KindOf(Or) == OrOr
  {
  }

  /** Which operators `!` leaves its operand to: the arithmetic ones. */
  predicate Arithmetic(op: Operator) {
    op.Add? || op.Subtract? || op.Multiply? || op.Divide?
  }

  lemma NamedNotGroups(a: Tree, op: Operator, b: Tree)
    requires Atom(a) && Atom(b)
    ensures ParseExpr([Mark(Bang), AtomToken(a), Mark(KindOf(op)), AtomToken(b)], 0) ==
            Ok(if Arithmetic(op) then Not(Infix(op, a, b)) else Infix(op, Not(a), b), [])
  {
    hide ParseExpr;
    NotGroups(a, op, b);
  }

  /** A prefix minus takes its operand from every operator. */
  lemma NamedMinusGroups(a: Tree, op: Operator, b: Tree)
    requires Atom(a) && Atom(b)
    ensures ParseExpr([Mark(Minus), AtomToken(a), Mark(KindOf(op)), AtomToken(b)], 0) == Ok(Infix(op, Infix(Subtract, Integer("0"), a), b), [])
  {
    hide ParseExpr, ParseLoop, RightPower, OperatorOf, Spelling;
    var tb := [AtomToken(b)];
    var t1 := [Mark(KindOf(op))] + tb;
    var ta := [AtomToken(a)] + t1;
    assert [Mark(Minus), AtomToken(a), Mark(KindOf(op)), AtomToken(b)] == [Mark(Minus)] + ta && tb + [] == tb;
    AtomParse(a, t1, BP_PREFIX_MINUS);
    AtomParse(b, [], RightPower(op));
    EndStops(b, RightPower(op));
    KindsMatch(op);
    LoopStops(a, t1, BP_PREFIX_MINUS);
    MinusParses(ta, a, t1, 0);
    OperatorParses(op, Infix(Subtract, Integer("0"), a), tb, b, [], 0);
    EndStops(Infix(op, Infix(Subtract, Integer("0"), a), b), 0);
  }

  /** What can stand behind an operand: an index, or the length. */
  datatype Postfix = Indexed(index: Tree) | Measured

  function PostfixTokens(q: Postfix): seq<Token>
    requires q.Indexed? ==> Atom(q.index)
  {
    match q
    case Indexed(i) => [Mark(LSquare), AtomToken(i), Mark(RSquare)]
    case Measured => [Mark(Dot), Mark(KwLength)]
  }

  function WithPostfix(e: Tree, q: Postfix): Tree {
    match q
    case Indexed(i) => Index(e, i)
    case Measured => Length(e)
  }

  lemma PostfixParses(a: Tree, q: Postfix, min: nat)
    requires min <= BP_PREFIX_MINUS && (q.Indexed? ==> Atom(q.index))
    ensures ParseLoop(a, PostfixTokens(q), min) == Ok(WithPostfix(a, q), [])
  {
    hide ParseExpr, ParseLoop, Spelling;
    if q.Indexed? {
      var close := [Mark(RSquare)];
      var inner := [AtomToken(q.index)] + close;
      assert close + [] == close && PostfixTokens(q) == [Mark(LSquare)] + inner;
      AtomParse(q.index, close, 0);
      LoopStops(q.index, close, 0);
      IndexParses(inner, a, q.index, [], min);
    } else {
      assert PostfixTokens(q) + [] == PostfixTokens(q);
      LengthParses(a, [], min);
    }
    EndStops(WithPostfix(a, q), min);
  }

  /** An index or `.length` belongs to the operand in front of it, whatever operator or prefix stands before that. */
  lemma PostfixGroups(a: Tree, op: Operator, b: Tree, q: Postfix)
    requires Atom(a) && Atom(b) && (q.Indexed? ==> Atom(q.index))
    ensures ParseExpr([AtomToken(a), Mark(KindOf(op)), AtomToken(b)] + PostfixTokens(q), 0) == Ok(Infix(op, a, WithPostfix(b, q)), [])
    ensures ParseExpr([Mark(Bang), AtomToken(b)] + PostfixTokens(q), 0) == Ok(Not(WithPostfix(b, q)), [])
    ensures ParseExpr([Mark(Minus), AtomToken(b)] + PostfixTokens(q), 0) == Ok(Infix(Subtract, Integer("0"), WithPostfix(b, q)), [])
  {
    hide ParseExpr, ParseLoop, RightPower, OperatorOf, Spelling, PostfixTokens;
    var tq, e := PostfixTokens(q), WithPostfix(b, q);
    var tb := [AtomToken(b)] + tq;
    var t1 := [Mark(KindOf(op))] + tb;
    assert [AtomToken(a), Mark(KindOf(op)), AtomToken(b)] + tq == [AtomToken(a)] + t1;
    assert [Mark(Bang), AtomToken(b)] + tq == [Mark(Bang)] + tb && [Mark(Minus), AtomToken(b)] + tq == [Mark(Minus)] + tb;
    PowersBelow(op);
    AtomParse(a, t1, 0);
    AtomParse(b, tq, RightPower(op));
    PostfixParses(b, q, RightPower(op));
    OperatorParses(op, a, tb, e, [], 0);
    EndStops(Infix(op, a, e), 0);
    AtomParse(b, tq, BP_PREFIX_NOT);
    PostfixParses(b, q, BP_PREFIX_NOT);
    NotParses(tb, e, [], 0);
    EndStops(Not(e), 0);
    AtomParse(b, tq, BP_PREFIX_MINUS);
    PostfixParses(b, q, BP_PREFIX_MINUS);
    MinusParses(tb, e, [], 0);
    EndStops(Infix(Subtract, Integer("0"), e), 0);
  }

  lemma PowersBelow(op: Operator)
    ensures RightPower(op) <= BP_PREFIX_MINUS
  {
  }

  lemma KindsMatch(op: Operator)
    ensures Power(KindOf(op)) == LeftPower(op)
  {
  }

  lemma EndStops(e: Tree, min: nat)
    ensures ParseLoop(e, [], min) == Ok(e, [])
  {
  }

  /** `!` takes whatever binds as strongly as `+`: `!a + b` is `!(a + b)`, while `!a < b` is `(!a) < b`. */
  lemma NotGroups(a: Tree, op: Operator, b: Tree)
    requires Atom(a) && Atom(b)
    ensures ParseExpr([Mark(Bang), AtomToken(a), Mark(KindOf(op)), AtomToken(b)], 0) ==
            Ok(if LeftPower(op) >= BP_ADD then Not(Infix(op, a, b)) else Infix(op, Not(a), b), [])
  {
    hide ParseExpr, ParseLoop, RightPower, LeftPower, OperatorOf, Spelling;
    var tb := [AtomToken(b)];
    var t1 := [Mark(KindOf(op))] + tb;
    var ta := [AtomToken(a)] + t1;
    assert [Mark(Bang), AtomToken(a), Mark(KindOf(op)), AtomToken(b)] == [Mark(Bang)] + ta;
    assert tb + [] == tb;
    AtomParse(a, t1, BP_PREFIX_NOT);
    AtomParse(b, [], RightPower(op));
    EndStops(b, RightPower(op));
    KindsMatch(op);
    if LeftPower(op) >= BP_ADD {
      OperatorParses(op, a, tb, b, [], BP_PREFIX_NOT);
      EndStops(Infix(op, a, b), BP_PREFIX_NOT);
      NotParses(ta, Infix(op, a, b), [], 0);
      EndStops(Not(Infix(op, a, b)), 0);
    } else {
      LoopStops(a, t1, BP_PREFIX_NOT);
      NotParses(ta, a, t1, 0);
      OperatorParses(op, Not(a), tb, b, [], 0);
      EndStops(Infix(op, Not(a), b), 0);
    }
  }

  /** A prefix minus is the tree `0 - e`, and binds more strongly than every binary operator. */
  lemma MinusIsSubtraction(e: Tree, next: nat, rest: seq<Token>, min: nat)
    requires FollowedBy(rest, next) && next < BP_PREFIX_MINUS
    ensures ParseExpr([Mark(Minus)] + Print(e, BP_PREFIX_MINUS, next) + rest, min) ==
            ParseLoop(Infix(Subtract, Integer("0"), e), rest, min)
  {
    hide ParseExpr, ParseLoop, Print, Spelling;
    var ts := Print(e, BP_PREFIX_MINUS, next) + rest;
    assert [Mark(Minus)] + Print(e, BP_PREFIX_MINUS, next) + rest == [Mark(Minus)] + ts;
    PrintedParses(e, BP_PREFIX_MINUS, next, rest);
    LoopStops(e, rest, BP_PREFIX_MINUS);
    MinusParses(ts, e, rest, min);
  }

  lemma MinusParses(ts: seq<Token>, e: Tree, rest: seq<Token>, min: nat)
    requires ParseExpr(ts, BP_PREFIX_MINUS) == Ok(e, rest)
    ensures ParseExpr([Mark(Minus)] + ts, min) == ParseLoop(Infix(Subtract, Integer("0"), e), rest, min)
  {
    hide ParseLoop;
    assert ([Mark(Minus)] + ts)[1..] == ts;
  }

  // ----- the parser in place -----

  datatype Outcome<+T> = Value(value: T) | Failed(error: ParseError) {
    predicate IsFailure() { Failed? }
    function PropagateFailure<U>(): Outcome<U> requires Failed? { Failed(error) }
    function Extract(): T requires Value? { value }
  }

  /** What the lexer still gives, without the invalid tokens. */
  function Valid(ts: seq<Token>): seq<Token> {
    if ts == [] then []
    else if ts[0].kind.Invalid? then Valid(ts[1..])
    else [ts[0]] + Valid(ts[1..])
  }

  class Parser {
    var lexer: seq<Token>
    var buffer: seq<Token>
    var errorCount: nat
    var reported: bool

    constructor (lexer: seq<Token>)
      ensures Remaining() == Valid(lexer) && !reported && errorCount == 0
    {
      this.lexer, buffer, errorCount, reported := lexer, [], 0, false;
    }

    function Remaining(): seq<Token>
      reads this
    {
      buffer + Valid(lexer)
    }

    /** Fills the buffer from the lexer if it is empty, skipping invalid tokens. */
    method PeekToken() returns (t: Token)
      modifies `lexer, `buffer
      ensures Remaining() == old(Remaining()) && t == Peek(Remaining())
      ensures Remaining() != [] ==> buffer != []
    {
      while buffer == [] && lexer != []
        invariant Remaining() == old(Remaining())
        decreases |lexer|
      {
        var next := lexer[0];
        lexer := lexer[1..];
        if next.kind.Invalid? { continue; }
        buffer := [next];
        assert [next] + Valid(lexer) == old(Remaining());
        break;
      }
      t := if buffer != [] then buffer[0] else Token(Eof, "");
    }

    method Consume() returns (t: Token)
      modifies `lexer, `buffer
      ensures t == Peek(old(Remaining())) && Remaining() == Rest(old(Remaining()))
    {
      t := PeekToken();
      if buffer != [] {
        assert (buffer + Valid(lexer))[1..] == buffer[1..] + Valid(lexer);
        buffer := buffer[1..];
      }
    }

    method Match(kind: TokenKind) returns (matched: bool)
      modifies `lexer, `buffer
      ensures matched == (Peek(old(Remaining())).kind == kind)
      ensures Remaining() == if matched then Rest(old(Remaining())) else old(Remaining())
    {
      var t := PeekToken();
      matched := t.kind == kind;
      if matched { t := Consume(); }
    }

    /** Only the first error of a parse is counted. */
    method ReportError()
      modifies `errorCount, `reported
      ensures reported && errorCount == old(errorCount) + if old(reported) then 0 else 1
    {
      if reported { return; }
      reported, errorCount := true, errorCount + 1;
    }

    /** The error counter moves exactly when a parse fails for the first time. */
    twostate predicate Counted(failed: bool)
      reads this
    {
      if failed then reported && errorCount == old(errorCount) + if old(reported) then 0 else 1
      else reported == old(reported) && errorCount == old(errorCount)
    }

    method ExpectToken(kind: TokenKind) returns (r: Outcome<Token>)
      modifies this
      ensures Counted(r.Failed?)
      ensures match Expect(kind, old(Remaining()))
              case Ok(t, rest) => r == Value(t) && Remaining() == rest
              case Err(e) => r == Failed(e)
    {
      var t := PeekToken();
      if t.kind == kind {
        t := Consume();
        return Value(t);
      }
      ReportError();
      r := Failed(ExpectedToken(kind));
    }

    method ParsePrefix() returns (r: Outcome<Tree>)
      modifies this
      ensures Counted(r.Failed?)
      ensures match ParsePrimary(old(Remaining()))
              case Ok(e, rest) => r == Value(e) && Remaining() == rest
              case Err(e) => r == Failed(e)
      decreases |Remaining()|, 1
    {
      hide ParseExpr, ParseNew, Remaining;
      var token := Consume();
      match token.kind {
        case IntLiteral => r := Value(Integer(token.lexeme));
        case Identifier => r := Value(Name(token.lexeme));
        case KwTrue => r := Value(True);
        case KwFalse => r := Value(False);
        case KwThis => r := Value(This);
        case LParen =>
          var inner :- ParseExpression(0);
          var closing :- ExpectToken(RParen);
          r := Value(inner);
        case Bang =>
          var rhs :- ParseExpression(BP_PREFIX_NOT);
          r := Value(Not(rhs));
        case Minus =>
          var rhs :- ParseExpression(BP_PREFIX_MINUS);
          r := Value(Infix(Subtract, Integer("0"), rhs));
        case KwNew =>
          r := ParseAllocation();
        case _ =>
          ReportError();
          r := Failed(ExpectedExpression);
      }
    }

    method ParseAllocation() returns (r: Outcome<Tree>)
      modifies this
      ensures Counted(r.Failed?)
      ensures match ParseNew(old(Remaining()))
              case Ok(e, rest) => r == Value(e) && Remaining() == rest
              case Err(e) => r == Failed(e)
      decreases |Remaining()|, 1
    {
      hide ParseExpr, Remaining;
      var isArray := Match(KwInt);
      if isArray {
        r := ParseArrayLength();
        return;
      }
      var id :- ExpectToken(Identifier);
      var open :- ExpectToken(LParen);
      var close :- ExpectToken(RParen);
      r := Value(NewObject(id.lexeme));
    }

    method ParseArrayLength() returns (r: Outcome<Tree>)
      modifies this
      ensures Counted(r.Failed?)
      ensures match ParseArray(old(Remaining()))
              case Ok(e, rest) => r == Value(e) && Remaining() == rest
              case Err(e) => r == Failed(e)
      decreases |Remaining()|, 3
    {
      hide ParseExpr, Remaining;
      var open :- ExpectToken(LSquare);
      var length :- ParseExpression(0);
      var close :- ExpectToken(RSquare);
      r := Value(NewArray(length));
    }

    method ParseArguments(lhs: Tree, name: string) returns (r: Outcome<Tree>)
      modifies this
      ensures Counted(r.Failed?)
      ensures match ParseCall(lhs, name, old(Remaining()))
              case Ok(e, rest) => r == Value(e) && Remaining() == rest
              case Err(e) => r == Failed(e)
      decreases |Remaining()|, 4
    {
      hide ParseList, Remaining;
      var isEmpty := Match(RParen);
      if isEmpty { return Value(Call(lhs, name, [])); }
      var args :- ParseExpressionList();
      var close :- ExpectToken(RParen);
      r := Value(Call(lhs, name, args));
    }

    method ParseSelection(lhs: Tree) returns (r: Outcome<Tree>)
      modifies this
      ensures Counted(r.Failed?)
      ensures match ParseMember(lhs, old(Remaining()))
              case Ok(e, rest) => r == Value(e) && Remaining() == rest
              case Err(e) => r == Failed(e)
      decreases |Remaining()|, 0
    {
      hide ParseList, Remaining;
      var isLength := Match(KwLength);
      if isLength { return Value(Length(lhs)); }
      var id :- ExpectToken(Identifier);
      var open :- ExpectToken(LParen);
      r := ParseArguments(lhs, id.lexeme);
    }

    method ParseOperator(lhs: Tree) returns (r: Outcome<Tree>)
      requires Remaining() != [] && Power(Remaining()[0].kind) > 0
      modifies this
      ensures Counted(r.Failed?)
      ensures match ParseInfix(lhs, old(Remaining()))
              case Ok(e, rest) => r == Value(e) && Remaining() == rest
              case Err(e) => r == Failed(e)
      decreases |Remaining()|, 0
    {
      hide ParseExpr, ParseMember, Remaining;
      var op := Consume();
      if op.kind == LSquare {
        var index :- ParseExpression(0);
        var close :- ExpectToken(RSquare);
        return Value(Index(lhs, index));
      }
      if op.kind == Dot {
        r := ParseSelection(lhs);
        return;
      }
      var rhs :- ParseExpression(RightPower(OperatorOf(op.kind).value));
      r := Value(Infix(OperatorOf(op.kind).value, lhs, rhs));
    }

    method ParseExpressionList() returns (r: Outcome<seq<Tree>>)
      modifies this
      ensures Counted(r.Failed?)
      ensures match ParseList(old(Remaining()))
              case Ok(es, rest) => r == Value(es) && Remaining() == rest
              case Err(e) => r == Failed(e)
      decreases |Remaining()|, 3
    {
      hide ParseExpr;
      var first :- ParseExpression(0);
      var es := [first];
      var more := Match(Comma);
      ghost var before := Remaining();
      while more
        invariant reported == old(reported) && errorCount == old(errorCount)
        invariant |Remaining()| < |old(Remaining())|
        invariant ParseList(old(Remaining())) == if more then PrependAll(es, ParseList(Remaining())) else Ok(es, Remaining())
        decreases |Remaining()|, more
      {
        ghost var now := Remaining();
        var next :- ParseExpression(0);
        es := es + [next];
        ListStep(es, next, now);
        more := Match(Comma);
      }
      r := Value(es);
    }

    /** parse_expression: an operand, then every operator that binds at least as strongly as min. */
    method ParseExpression(min: nat) returns (r: Outcome<Tree>)
      modifies this
      ensures Counted(r.Failed?)
      ensures match ParseExpr(old(Remaining()), min)
              case Ok(e, rest) => r == Value(e) && Remaining() == rest
              case Err(e) => r == Failed(e)
      decreases |Remaining()|, 2
    {
      hide ParsePrimary, ParseInfix;
      var lhs :- ParsePrefix();
      var op := PeekToken();
      while Power(op.kind) > 0 && Power(op.kind) >= min
        invariant reported == old(reported) && errorCount == old(errorCount)
        invariant |Remaining()| < |old(Remaining())| && op == Peek(Remaining())
        invariant ParseExpr(old(Remaining()), min) == ParseLoop(lhs, Remaining(), min)
        decreases |Remaining()|
      {
        lhs :- ParseOperator(lhs);
        op := PeekToken();
      }
      r := Value(lhs);
    }
  }

  function PrependAll(es: seq<Tree>, r: Parsed<seq<Tree>>): Parsed<seq<Tree>> {
    match r
    case Ok(more, rest) => Ok(es + more, rest)
    case Err(e) => Err(e)
  }

  lemma ListStep(es: seq<Tree>, next: Tree, ts: seq<Token>)
    requires ParseExpr(ts, 0).Ok? && ParseExpr(ts, 0).value == next && es != [] && es[|es| - 1] == next
    ensures var rest := ParseExpr(ts, 0).rest;
            PrependAll(es[..|es| - 1], ParseList(ts)) == if Peek(rest).kind == Comma then PrependAll(es, ParseList(Rest(rest))) else Ok(es, rest)
  {
    hide ParseExpr;
    var rest := ParseExpr(ts, 0).rest;
    var front := es[..|es| - 1];
    assert es == front + [next];
    if Peek(rest).kind == Comma {
      var r := ParseList(Rest(rest));
      if r.Ok? { assert front + ([next] + r.value) == es + r.value; }
    }
  }
}

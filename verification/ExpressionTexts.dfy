/** The texts of an expression, by rules that do not mention how they are parsed; and that the expression parser accepts
    exactly these texts (src/parsing/Parser.cpp:964-982, 1039-1306). */
module ExpressionTexts {
  import opened Parsing

  // ----- the rules -----

  /** ts is an expression that stands for e where an operator must bind at least as strongly as min to belong to it, and
      where something follows that binds as strongly as next. Parentheses may stand around any part. */
  ghost predicate Text(e: Tree, min: nat, next: nat, ts: seq<Token>)
    decreases |ts|, 1
  {
    BareText(e, min, next, ts)
    || (|ts| >= 2 && ts[0].kind == LParen && ts[|ts| - 1].kind == RParen && Text(e, 0, 0, ts[1..|ts| - 1]))
  }

  ghost predicate BareText(e: Tree, min: nat, next: nat, ts: seq<Token>)
    decreases |ts|, 0
  {
    match e
    case Integer(lexeme) => ts == [Token(IntLiteral, lexeme)]
    case Name(x) => ts == [Token(Identifier, x)]
    case True => |ts| == 1 && ts[0].kind == KwTrue
    case False => |ts| == 1 && ts[0].kind == KwFalse
    case This => |ts| == 1 && ts[0].kind == KwThis
    case Infix(op, l, r) => (exists n :: 0 <= n < |ts| && InfixAt(op, l, r, min, next, ts, n)) || (op.Subtract? && l == Integer("0") && MinusText(r, next, ts))
    case Not(r) => |ts| >= 1 && ts[0].kind == Bang && next < BP_PREFIX_NOT && Text(r, BP_PREFIX_NOT, next, ts[1..])
    case NewObject(c) => |ts| == 4 && ts[0].kind == KwNew && ts[1] == Token(Identifier, c) && ts[2].kind == LParen && ts[3].kind == RParen
    case NewArray(length) =>
      && |ts| >= 4 && ts[0].kind == KwNew && ts[1].kind == KwInt && ts[2].kind == LSquare && ts[|ts| - 1].kind == RSquare
      && Text(length, 0, 0, ts[3..|ts| - 1])
    case Index(a, i) => exists n :: 0 <= n < |ts| && IndexAt(a, i, min, ts, n)
    case Length(a) =>
      |ts| >= 2 && ts[|ts| - 2].kind == Dot && ts[|ts| - 1].kind == KwLength && min <= BP_DOT && Text(a, min, BP_DOT, ts[..|ts| - 2])
    case Call(r, m, args) => exists n :: 0 <= n < |ts| && CallAt(r, m, args, min, ts, n)
  }

  /** Operator and operands: the operator belongs here, and what follows does not belong to the right operand. */
  ghost predicate InfixAt(op: Operator, l: Tree, r: Tree, min: nat, next: nat, ts: seq<Token>, n: nat)
    requires n < |ts|
    decreases |ts|, 0, 0
  {
    && ts[n].kind == KindOf(op) && min <= LeftPower(op) && next < RightPower(op)
    && Text(l, min, LeftPower(op), ts[..n]) && Text(r, RightPower(op), next, ts[n + 1..])
  }

  ghost predicate MinusText(r: Tree, next: nat, ts: seq<Token>)
    decreases |ts|, 0, 0
  {
    |ts| >= 1 && ts[0].kind == Minus && next < BP_PREFIX_MINUS && Text(r, BP_PREFIX_MINUS, next, ts[1..])
  }

  ghost predicate IndexAt(a: Tree, i: Tree, min: nat, ts: seq<Token>, n: nat)
    requires n < |ts|
    decreases |ts|, 0, 0
  {
    && n + 1 < |ts| && ts[n].kind == LSquare && ts[|ts| - 1].kind == RSquare && min <= BP_POSTFIX
    && Text(a, min, BP_POSTFIX, ts[..n]) && Text(i, 0, 0, ts[n + 1..|ts| - 1])
  }

  ghost predicate CallAt(r: Tree, m: string, args: seq<Tree>, min: nat, ts: seq<Token>, n: nat)
    requires n < |ts|
    decreases |ts|, 0, 0
  {
    && n + 3 < |ts| && ts[n].kind == Dot && ts[n + 1] == Token(Identifier, m) && ts[n + 2].kind == LParen && ts[|ts| - 1].kind == RParen
    && min <= BP_DOT && Text(r, min, BP_DOT, ts[..n]) && ListText(args, ts[n + 3..|ts| - 1])
  }

  /** Expressions separated by commas. */
  ghost predicate ListText(es: seq<Tree>, ts: seq<Token>)
    decreases |ts|, 2
  {
    if es == [] then ts == []
    else if |es| == 1 then Text(es[0], 0, 0, ts)
    else exists n :: 0 <= n < |ts| && CommaAt(es, ts, n)
  }

  ghost predicate CommaAt(es: seq<Tree>, ts: seq<Token>, n: nat)
    requires n < |ts| && es != []
    decreases |ts|, 1
  {
    ts[n].kind == Comma && Text(es[0], 0, 0, ts[..n]) && ListText(es[1..], ts[n + 1..])
  }

  // ----- a text of an expression is parsed as that expression -----

  lemma ParenStep(open: Token, ts: seq<Token>, e: Tree, close: Token, rest: seq<Token>, min: nat)
    requires open.kind == LParen && close.kind == RParen && ParseExpr(ts, 0) == Ok(e, [close] + rest)
    ensures ParseExpr([open] + ts, min) == ParseLoop(e, rest, min)
  {
    hide ParseLoop;
    assert ([open] + ts)[1..] == ts && ([close] + rest)[1..] == rest;
    assert ParsePrimary([open] + ts) == Ok(e, rest) by { PrimaryParen(open, ts, e, close, rest); }
  }

  lemma PrimaryParen(open: Token, ts: seq<Token>, e: Tree, close: Token, rest: seq<Token>)
    requires open.kind == LParen && close.kind == RParen && ParseExpr(ts, 0) == Ok(e, [close] + rest)
    ensures ParsePrimary([open] + ts) == Ok(e, rest)
  {
    hide ParseExpr;
    assert ([open] + ts)[1..] == ts && ([close] + rest)[1..] == rest;
  }

  lemma PrefixStep(t: Token, ts: seq<Token>, r: Tree, rest: seq<Token>, min: nat)
    requires t.kind == Bang ==> ParseExpr(ts, BP_PREFIX_NOT) == Ok(r, rest)
    requires t.kind == Minus ==> ParseExpr(ts, BP_PREFIX_MINUS) == Ok(r, rest)
    ensures t.kind == Bang ==> ParseExpr([t] + ts, min) == ParseLoop(Not(r), rest, min)
    ensures t.kind == Minus ==> ParseExpr([t] + ts, min) == ParseLoop(Infix(Subtract, Integer("0"), r), rest, min)
  {
    hide ParseLoop;
    assert ([t] + ts)[1..] == ts;
  }

  lemma OperatorStep(t: Token, op: Operator, l: Tree, right: seq<Token>, r: Tree, rest: seq<Token>, min: nat)
    requires t.kind == KindOf(op) && ParseExpr(right, RightPower(op)) == Ok(r, rest) && LeftPower(op) >= min
    ensures ParseLoop(l, [t] + right, min) == ParseLoop(Infix(op, l, r), rest, min)
  {
    hide ParseExpr;
    assert ([t] + right)[1..] == right;
    assert OperatorOf(KindOf(op)) == Some(op);
  }

  lemma IndexStep(open: Token, inner: seq<Token>, a: Tree, i: Tree, close: Token, rest: seq<Token>, min: nat)
    requires open.kind == LSquare && close.kind == RSquare && ParseExpr(inner, 0) == Ok(i, [close] + rest) && min <= BP_POSTFIX
    ensures ParseLoop(a, [open] + inner, min) == ParseLoop(Index(a, i), rest, min)
  {
    hide ParseExpr;
    assert ([open] + inner)[1..] == inner && ([close] + rest)[1..] == rest;
  }

  lemma MemberStep(dot: Token, lhs: Tree, ts: seq<Token>, e: Tree, rest: seq<Token>, min: nat)
    requires dot.kind == Dot && ParseMember(lhs, ts) == Ok(e, rest) && min <= BP_DOT
    ensures ParseLoop(lhs, [dot] + ts, min) == ParseLoop(e, rest, min)
  {
    hide ParseMember;
    assert ([dot] + ts)[1..] == ts;
  }

  lemma CallStep(r: Tree, id: Token, open: Token, args: seq<Tree>, inner: seq<Token>, close: Token, rest: seq<Token>)
    requires id.kind == Identifier && open.kind == LParen && close.kind == RParen
    requires if args == [] then inner == [close] + rest
             else inner != [] && inner[0].kind != RParen && ParseList(inner) == Ok(args, [close] + rest)
    ensures ParseMember(r, [id, open] + inner) == Ok(Call(r, id.lexeme, args), rest)
  {
    hide ParseExpr, ParseLoop, ParseList;
    var ts := [id, open] + inner;
    assert ts[1..] == [open] + inner;
    assert ts[1..][1..] == inner;
    assert ([close] + rest)[1..] == rest;
  }

  lemma ArrayStep(t: Token, u: Token, open: Token, inner: seq<Token>, length: Tree, close: Token, rest: seq<Token>, min: nat)
    requires t.kind == KwNew && u.kind == KwInt && open.kind == LSquare && close.kind == RSquare && ParseExpr(inner, 0) == Ok(length, [close] + rest)
    ensures ParseExpr([t, u, open] + inner, min) == ParseLoop(NewArray(length), rest, min)
  {
    hide ParseLoop, ParseExpr;
    var ts := [t, u, open] + inner;
    assert ts[1..] == [u, open] + inner;
    assert ts[1..][1..] == [open] + inner;
    assert ts[1..][1..][1..] == inner;
    assert ([close] + rest)[1..] == rest;
    assert ParseNew(ts[1..]) == Ok(NewArray(length), rest);
    PrimaryFirst(ts, NewArray(length), rest, min);
  }

  lemma PrimaryFirst(ts: seq<Token>, e: Tree, rest: seq<Token>, min: nat)
    requires ts != [] && ts[0].kind == KwNew && ParseNew(ts[1..]) == Ok(e, rest)
    ensures ParseExpr(ts, min) == ParseLoop(e, rest, min)
  {
    hide ParseLoop, ParseNew;
  }

  lemma LeafStep(e: Tree, ts: seq<Token>, min: nat, next: nat, rest: seq<Token>)
    requires BareText(e, min, next, ts) && (Atom(e) || e.NewObject?)
    ensures ParseExpr(ts + rest, min) == ParseLoop(e, rest, min)
  {
    hide ParseLoop, Text;
    if e.NewObject? { ObjectStep(e, ts, min, next, rest); } else { assert (ts + rest)[1..] == rest; }
  }

  lemma ObjectStep(e: Tree, ts: seq<Token>, min: nat, next: nat, rest: seq<Token>)
    requires BareText(e, min, next, ts) && e.NewObject?
    ensures ParseExpr(ts + rest, min) == ParseLoop(e, rest, min)
  {
    hide ParseLoop, Text, ParseExpr, ParsePrimary;
    var all := ts + rest;
    assert all[1..] == ts[1..] + rest && all[1..][1..] == ts[2..] + rest && all[1..][1..][1..] == ts[3..] + rest;
    assert all[1..][1..][1..][1..] == rest;
    assert ParseNew(all[1..]) == Ok(e, rest);
    PrimaryFirst(all, e, rest, min);
  }

  /** No text starts with a closing parenthesis. */
  lemma {:induction false} TextStarts(e: Tree, min: nat, next: nat, ts: seq<Token>)
    requires Text(e, min, next, ts)
    ensures ts != [] && ts[0].kind != RParen
    decreases |ts|, 1
  {
    hide BareText;
    if BareText(e, min, next, ts) { BareTextStarts(e, min, next, ts); }
  }

  lemma {:induction false} BareTextStarts(e: Tree, min: nat, next: nat, ts: seq<Token>)
    requires BareText(e, min, next, ts)
    ensures ts != [] && ts[0].kind != RParen
    decreases |ts|, 0
  {
    hide Text, InfixAt, IndexAt, CallAt;
    match e
    case Infix(op, l, r) =>
      if n :| 0 <= n < |ts| && InfixAt(op, l, r, min, next, ts, n) {
        LeftOfInfix(op, l, r, min, next, ts, n);
        TextStarts(l, min, LeftPower(op), ts[..n]);
      }
    case Index(a, i) =>
      var n :| 0 <= n < |ts| && IndexAt(a, i, min, ts, n);
      LeftOfIndex(a, i, min, ts, n);
      TextStarts(a, min, BP_POSTFIX, ts[..n]);
    case Length(a) => TextStarts(a, min, BP_DOT, ts[..|ts| - 2]);
    case Call(r, m, args) =>
      var n :| 0 <= n < |ts| && CallAt(r, m, args, min, ts, n);
      LeftOfCall(r, m, args, min, ts, n);
      TextStarts(r, min, BP_DOT, ts[..n]);
    case _ =>
  }

  lemma LeftOfInfix(op: Operator, l: Tree, r: Tree, min: nat, next: nat, ts: seq<Token>, n: nat)
    requires n < |ts| && InfixAt(op, l, r, min, next, ts, n)
    ensures Text(l, min, LeftPower(op), ts[..n])
  {
    hide Text;
  }

  lemma LeftOfIndex(a: Tree, i: Tree, min: nat, ts: seq<Token>, n: nat)
    requires n < |ts| && IndexAt(a, i, min, ts, n)
    ensures Text(a, min, BP_POSTFIX, ts[..n])
  {
    hide Text;
  }

  lemma LeftOfCall(r: Tree, m: string, args: seq<Tree>, min: nat, ts: seq<Token>, n: nat)
    requires n < |ts| && CallAt(r, m, args, min, ts, n)
    ensures Text(r, min, BP_DOT, ts[..n])
  {
    hide Text;
  }

  lemma {:induction false} ListStarts(es: seq<Tree>, ts: seq<Token>)
    requires ListText(es, ts) && es != []
    ensures ts != [] && ts[0].kind != RParen
  {
    hide Text;
    if |es| == 1 {
      TextStarts(es[0], 0, 0, ts);
    } else {
      var n :| 0 <= n < |ts| && CommaAt(es, ts, n);
      TextStarts(es[0], 0, 0, ts[..n]);
    }
  }

  lemma {:induction false} TextParses(e: Tree, min: nat, next: nat, ts: seq<Token>, rest: seq<Token>)
    requires Text(e, min, next, ts) && FollowedBy(rest, next)
    ensures ParseExpr(ts + rest, min) == ParseLoop(e, rest, min)
    decreases |ts|, 1
  {
    hide ParseExpr, ParseLoop;
    if BareText(e, min, next, ts) {
      BareTextParses(e, min, next, ts, rest);
    } else {
      hide BareText, Text;
      var inner, close := ts[1..|ts| - 1], ts[|ts| - 1];
      assert Text(e, 0, 0, inner) by { InParens(e, min, next, ts); }
      var after := [close] + rest;
      assert ts + rest == [ts[0]] + (inner + after);
      TextParses(e, 0, 0, inner, after);
      LoopStops(e, after, 0);
      ParenStep(ts[0], inner + after, e, close, rest, min);
    }
  }

  lemma InParens(e: Tree, min: nat, next: nat, ts: seq<Token>)
    requires Text(e, min, next, ts) && !BareText(e, min, next, ts)
    ensures |ts| >= 2 && ts[0].kind == LParen && ts[|ts| - 1].kind == RParen && Text(e, 0, 0, ts[1..|ts| - 1])
  {
    hide BareText;
  }

  lemma {:induction false} BareTextParses(e: Tree, min: nat, next: nat, ts: seq<Token>, rest: seq<Token>)
    requires BareText(e, min, next, ts) && FollowedBy(rest, next)
    ensures ParseExpr(ts + rest, min) == ParseLoop(e, rest, min)
    decreases |ts|, 0, 1
  {
    hide ParseExpr, ParseLoop, Text, InfixAt, IndexAt, CallAt, MinusText;
    match e
    case Infix(op, l, r) =>
      if n :| 0 <= n < |ts| && InfixAt(op, l, r, min, next, ts, n) { InfixTextParses(e, min, next, ts, n, rest); } else { MinusTextParses(r, min, next, ts, rest); }
    case Not(r) => NotTextParses(r, min, next, ts, rest);
    case NewArray(length) => ArrayTextParses(length, min, ts, rest);
    case Index(a, i) =>
      var n :| 0 <= n < |ts| && IndexAt(a, i, min, ts, n);
      IndexTextParses(a, i, min, ts, n, rest);
    case Length(a) => LengthTextParses(a, min, ts, rest);
    case Call(r, m, args) =>
      var n :| 0 <= n < |ts| && CallAt(r, m, args, min, ts, n);
      CallTextParses(r, m, args, min, ts, n, rest);
    case _ => LeafStep(e, ts, min, next, rest);
  }

  lemma NotTextParses(r: Tree, min: nat, next: nat, ts: seq<Token>, rest: seq<Token>)
    requires |ts| >= 1 && ts[0].kind == Bang && next < BP_PREFIX_NOT && Text(r, BP_PREFIX_NOT, next, ts[1..]) && FollowedBy(rest, next)
    ensures ParseExpr(ts + rest, min) == ParseLoop(Not(r), rest, min)
    decreases |ts|, 0, 0
  {
    hide ParseExpr, ParseLoop, Text;
    var inner := ts[1..];
    assert ts + rest == [ts[0]] + (inner + rest);
    TextParses(r, BP_PREFIX_NOT, next, inner, rest);
    LoopStops(r, rest, BP_PREFIX_NOT);
    PrefixStep(ts[0], inner + rest, r, rest, min);
  }

  lemma ArrayTextParses(length: Tree, min: nat, ts: seq<Token>, rest: seq<Token>)
    requires |ts| >= 4 && ts[0].kind == KwNew && ts[1].kind == KwInt && ts[2].kind == LSquare && ts[|ts| - 1].kind == RSquare
    requires Text(length, 0, 0, ts[3..|ts| - 1])
    ensures ParseExpr(ts + rest, min) == ParseLoop(NewArray(length), rest, min)
    decreases |ts|, 0, 0
  {
    hide ParseExpr, ParseLoop, Text;
    var inner, close := ts[3..|ts| - 1], ts[|ts| - 1];
    var after := [close] + rest;
    assert ts + rest == [ts[0], ts[1], ts[2]] + (inner + after);
    TextParses(length, 0, 0, inner, after);
    LoopStops(length, after, 0);
    ArrayStep(ts[0], ts[1], ts[2], inner + after, length, close, rest, min);
  }

  lemma LengthTextParses(a: Tree, min: nat, ts: seq<Token>, rest: seq<Token>)
    requires |ts| >= 2 && ts[|ts| - 2].kind == Dot && ts[|ts| - 1].kind == KwLength && min <= BP_DOT && Text(a, min, BP_DOT, ts[..|ts| - 2])
    ensures ParseExpr(ts + rest, min) == ParseLoop(Length(a), rest, min)
    decreases |ts|, 0, 0
  {
    hide ParseExpr, ParseLoop, Text;
    var front, dot, name := ts[..|ts| - 2], ts[|ts| - 2], ts[|ts| - 1];
    var after := [dot] + ([name] + rest);
    assert ts + rest == front + after;
    TextParses(a, min, BP_DOT, front, after);
    assert ([name] + rest)[1..] == rest;
    MemberStep(dot, a, [name] + rest, Length(a), rest, min);
  }

  lemma InfixTextParses(e: Tree, min: nat, next: nat, ts: seq<Token>, n: nat, rest: seq<Token>)
    requires e.Infix? && n < |ts| && InfixAt(e.op, e.lhs, e.rhs, min, next, ts, n) && FollowedBy(rest, next)
    ensures ParseExpr(ts + rest, min) == ParseLoop(e, rest, min)
    decreases |ts|, 0, 0
  {
    hide ParseExpr, ParseLoop, Text;
    var op, left, right := e.op, ts[..n], ts[n + 1..];
    var after := [ts[n]] + (right + rest);
    assert ts + rest == left + after;
    KindsMatch(op);
    TextParses(e.lhs, min, LeftPower(op), left, after);
    TextParses(e.rhs, RightPower(op), next, right, rest);
    LoopStops(e.rhs, rest, RightPower(op));
    OperatorStep(ts[n], op, e.lhs, right + rest, e.rhs, rest, min);
  }

  lemma MinusTextParses(r: Tree, min: nat, next: nat, ts: seq<Token>, rest: seq<Token>)
    requires MinusText(r, next, ts) && FollowedBy(rest, next)
    ensures ParseExpr(ts + rest, min) == ParseLoop(Infix(Subtract, Integer("0"), r), rest, min)
    decreases |ts|, 0, 0
  {
    hide ParseExpr, ParseLoop, Text;
    var inner := ts[1..];
    assert ts + rest == [ts[0]] + (inner + rest);
    TextParses(r, BP_PREFIX_MINUS, next, inner, rest);
    LoopStops(r, rest, BP_PREFIX_MINUS);
    PrefixStep(ts[0], inner + rest, r, rest, min);
  }

  lemma IndexTextParses(a: Tree, i: Tree, min: nat, ts: seq<Token>, n: nat, rest: seq<Token>)
    requires n < |ts| && IndexAt(a, i, min, ts, n)
    ensures ParseExpr(ts + rest, min) == ParseLoop(Index(a, i), rest, min)
    decreases |ts|, 0, 0
  {
    hide ParseExpr, ParseLoop, Text;
    var left, inner, close := ts[..n], ts[n + 1..|ts| - 1], ts[|ts| - 1];
    var behind := [close] + rest;
    var after := [ts[n]] + (inner + behind);
    assert ts + rest == left + after;
    TextParses(a, min, BP_POSTFIX, left, after);
    TextParses(i, 0, 0, inner, behind);
    LoopStops(i, behind, 0);
    IndexStep(ts[n], inner + behind, a, i, close, rest, min);
  }

  lemma CallTextParses(r: Tree, m: string, args: seq<Tree>, min: nat, ts: seq<Token>, n: nat, rest: seq<Token>)
    requires n < |ts| && CallAt(r, m, args, min, ts, n)
    ensures ParseExpr(ts + rest, min) == ParseLoop(Call(r, m, args), rest, min)
    decreases |ts|, 0, 0
  {
    hide ParseExpr, ParseLoop, Text, ListText;
    var left, inner, close := ts[..n], ts[n + 3..|ts| - 1], ts[|ts| - 1];
    var behind := [close] + rest;
    var member := [ts[n + 1], ts[n + 2]] + (inner + behind);
    assert ts + rest == left + ([ts[n]] + member);
    TextParses(r, min, BP_DOT, left, [ts[n]] + member);
    if args == [] {
      assert inner == [] by { NoListText(inner); }
      assert inner + behind == behind;
    } else {
      ListStarts(args, inner);
      ListTextParses(args, inner, behind);
      assert (inner + behind)[0] == inner[0];
    }
    CallStep(r, ts[n + 1], ts[n + 2], args, inner + behind, close, rest);
    MemberStep(ts[n], r, member, Call(r, m, args), rest, min);
  }

  lemma NoListText(ts: seq<Token>)
    requires ListText([], ts)
    ensures ts == []
  {
  }

  lemma {:induction false} ListTextParses(es: seq<Tree>, ts: seq<Token>, rest: seq<Token>)
    requires es != [] && ListText(es, ts) && Peek(rest).kind == RParen
    ensures ParseList(ts + rest) == Ok(es, rest)
    decreases |ts|, 2
  {
    hide ParseExpr, ParseLoop, Text;
    if |es| == 1 {
      TextParses(es[0], 0, 0, ts, rest);
      LoopStops(es[0], rest, 0);
      assert es == [es[0]];
    } else {
      var n :| 0 <= n < |ts| && CommaAt(es, ts, n);
      var front, back := ts[..n], ts[n + 1..];
      var after := [ts[n]] + (back + rest);
      assert ts + rest == front + after;
      TextParses(es[0], 0, 0, front, after);
      LoopStops(es[0], after, 0);
      assert after[1..] == back + rest;
      ListTextParses(es[1..], back, rest);
      assert es == [es[0]] + es[1..];
    }
  }

  // ----- what is parsed is a text of the result -----

  /** The tokens taken. */
  function Taken(ts: seq<Token>, rest: seq<Token>): seq<Token> {
    if |rest| <= |ts| then ts[..|ts| - |rest|] else []
  }

  /** rest is what is left of ts, and what has been taken is a text of e, given what follows. */
  ghost predicate Reads(ts: seq<Token>, e: Tree, rest: seq<Token>, min: nat) {
    |rest| <= |ts| && ts == Taken(ts, rest) + rest && Text(e, min, Power(Peek(rest).kind), Taken(ts, rest))
  }

  lemma TakenMore(ts: seq<Token>, mid: seq<Token>, rest: seq<Token>)
    requires |rest| <= |mid| <= |ts| && ts == Taken(ts, mid) + mid && mid == Taken(mid, rest) + rest
    ensures Taken(ts, rest) == Taken(ts, mid) + Taken(mid, rest) && ts == Taken(ts, rest) + rest
  {
  }

  lemma {:induction false} ExprReads(ts: seq<Token>, min: nat)
    ensures var r := ParseExpr(ts, min);
            r.Ok? ==> Reads(ts, r.value, r.rest, min) && (Power(Peek(r.rest).kind) == 0 || Power(Peek(r.rest).kind) < min)
    decreases |ts|, 2
  {
    hide ParseLoop, ParsePrimary, Reads;
    var p := ParsePrimary(ts);
    if p.Ok? {
      PrimaryReads(ts, min);
      LoopReads(ts, p.value, p.rest, min);
    }
  }

  lemma {:induction false} LoopReads(all: seq<Token>, lhs: Tree, ts: seq<Token>, min: nat)
    requires Reads(all, lhs, ts, min)
    ensures var r := ParseLoop(lhs, ts, min);
            r.Ok? ==> Reads(all, r.value, r.rest, min) && (Power(Peek(r.rest).kind) == 0 || Power(Peek(r.rest).kind) < min)
    decreases |ts|, 1
  {
    hide ParseInfix, Reads;
    var kind := Peek(ts).kind;
    if Power(kind) != 0 && Power(kind) >= min {
      var p := ParseInfix(lhs, ts);
      if p.Ok? {
        InfixReads(all, lhs, ts, min);
        LoopReads(all, p.value, p.rest, min);
      }
    }
  }

  lemma {:induction false} PrimaryReads(ts: seq<Token>, min: nat)
    ensures var r := ParsePrimary(ts);
            r.Ok? ==> Reads(ts, r.value, r.rest, min)
    decreases |ts|, 1
  {
    hide ParseExpr, Text, Reads, ParseNew;
    if ts != [] {
      match ts[0].kind
      case LParen => ParenReads(ts, min);
      case Bang =>
        ExprReads(ts[1..], BP_PREFIX_NOT);
        if ParseExpr(ts[1..], BP_PREFIX_NOT).Ok? { PrefixReads(ts, ParseExpr(ts[1..], BP_PREFIX_NOT).value, ParseExpr(ts[1..], BP_PREFIX_NOT).rest, min); }
      case Minus =>
        ExprReads(ts[1..], BP_PREFIX_MINUS);
        if ParseExpr(ts[1..], BP_PREFIX_MINUS).Ok? { PrefixReads(ts, ParseExpr(ts[1..], BP_PREFIX_MINUS).value, ParseExpr(ts[1..], BP_PREFIX_MINUS).rest, min); }
      case KwNew => NewReads(ts, min);
      case _ => LeafReads(ts, min);
    }
  }

  lemma LeafReads(ts: seq<Token>, min: nat)
    requires ts != [] && ts[0].kind !in {LParen, Bang, Minus, KwNew}
    ensures ParsePrimary(ts).Ok? ==> Reads(ts, ParsePrimary(ts).value, ParsePrimary(ts).rest, min)
  {
    hide Text, Reads, Taken, Power;
    var t, rest := ts[0], ts[1..];
    assert ts == [t] + rest;
    if t.kind == IntLiteral { ReadsAs(ts, [t], rest, Integer(t.lexeme), min); }
    else if t.kind == Identifier { ReadsAs(ts, [t], rest, Name(t.lexeme), min); }
    else if t.kind == KwTrue { ReadsAs(ts, [t], rest, True, min); }
    else if t.kind == KwFalse { ReadsAs(ts, [t], rest, False, min); }
    else if t.kind == KwThis { ReadsAs(ts, [t], rest, This, min); }
  }

  lemma ParenReads(ts: seq<Token>, min: nat)
    requires ts != [] && ts[0].kind == LParen
    ensures ParsePrimary(ts).Ok? ==> Reads(ts, ParsePrimary(ts).value, ParsePrimary(ts).rest, min)
    decreases |ts|, 0
  {
    hide ParseExpr, BareText;
    ExprReads(ts[1..], 0);
    var p := ParseExpr(ts[1..], 0);
    if p.Ok? && Peek(p.rest).kind == RParen {
      var rest, inner := p.rest[1..], Taken(ts[1..], p.rest);
      assert p.rest == [p.rest[0]] + rest;
      assert ts == [ts[0]] + ts[1..];
      var all := [ts[0]] + inner + [p.rest[0]];
      assert ts == all + rest && Taken(ts, rest) == all;
      assert all[1..|all| - 1] == inner;
    }
  }

  lemma PrefixReads(ts: seq<Token>, r: Tree, rest: seq<Token>, min: nat)
    requires ts != [] && (ts[0].kind == Bang || ts[0].kind == Minus)
    requires var power := if ts[0].kind == Bang then BP_PREFIX_NOT else BP_PREFIX_MINUS;
             Reads(ts[1..], r, rest, power) && (Power(Peek(rest).kind) == 0 || Power(Peek(rest).kind) < power)
    ensures Reads(ts, if ts[0].kind == Bang then Not(r) else Infix(Subtract, Integer("0"), r), rest, min)
  {
    hide Power, Text, BareText;
    var inner := Taken(ts[1..], rest);
    var text := [ts[0]] + inner;
    assert ts == [ts[0]] + ts[1..];
    assert ts == text + rest && text[1..] == inner;
    PrefixIsBare(r, min, Power(Peek(rest).kind), text);
    ReadsAs(ts, text, rest, if ts[0].kind == Bang then Not(r) else Infix(Subtract, Integer("0"), r), min);
  }

  lemma PrefixIsBare(r: Tree, min: nat, next: nat, ts: seq<Token>)
    requires ts != [] && (ts[0].kind == Bang || ts[0].kind == Minus)
    requires var power := if ts[0].kind == Bang then BP_PREFIX_NOT else BP_PREFIX_MINUS;
             next < power && Text(r, power, next, ts[1..])
    ensures BareText(if ts[0].kind == Bang then Not(r) else Infix(Subtract, Integer("0"), r), min, next, ts)
  {
    hide Text, InfixAt;
    if ts[0].kind == Minus { assert MinusText(r, next, ts); }
  }

  lemma BareIsText(e: Tree, min: nat, next: nat, ts: seq<Token>)
    requires BareText(e, min, next, ts)
    ensures Text(e, min, next, ts)
  {
    hide BareText;
  }

  lemma ReadsAs(ts: seq<Token>, text: seq<Token>, rest: seq<Token>, e: Tree, min: nat)
    requires ts == text + rest && BareText(e, min, Power(Peek(rest).kind), text)
    ensures Reads(ts, e, rest, min)
  {
    hide BareText, Power;
    assert Taken(ts, rest) == text;
    BareIsText(e, min, Power(Peek(rest).kind), text);
  }

  lemma NewReads(ts: seq<Token>, min: nat)
    requires ts != [] && ts[0].kind == KwNew
    ensures ParsePrimary(ts).Ok? ==> Reads(ts, ParsePrimary(ts).value, ParsePrimary(ts).rest, min)
    decreases |ts|, 0
  {
    hide ParseExpr, Text, Reads;
    if Peek(ts[1..]).kind == KwInt { ArrayReads(ts, min); } else { ObjectReads(ts, min); }
  }

  lemma ObjectReads(ts: seq<Token>, min: nat)
    requires ts != [] && ts[0].kind == KwNew && Peek(ts[1..]).kind != KwInt
    ensures ParsePrimary(ts).Ok? ==> Reads(ts, ParsePrimary(ts).value, ParsePrimary(ts).rest, min)
  {
    hide ParseExpr, Text, Reads, Power;
    if ParsePrimary(ts).Ok? {
      var us := ts[1..];
      assert ParsePrimary(ts) == ParseNew(us);
      assert Peek(us).kind == Identifier && Peek(us[1..]).kind == LParen && Peek(us[1..][1..]).kind == RParen;
      assert |ts| >= 4 && us[0] == ts[1] && us[1..][0] == ts[2] && us[1..][1..][0] == ts[3];
      assert us[1..][1..][1..] == ts[4..];
      assert ParsePrimary(ts) == Ok(NewObject(ts[1].lexeme), ts[4..]);
      assert ts[1] == Token(Identifier, ts[1].lexeme);
      ReadsAs(ts, ts[..4], ts[4..], NewObject(ts[1].lexeme), min);
    }
  }

  lemma ArrayReads(ts: seq<Token>, min: nat)
    requires ts != [] && ts[0].kind == KwNew && Peek(ts[1..]).kind == KwInt
    ensures ParsePrimary(ts).Ok? ==> Reads(ts, ParsePrimary(ts).value, ParsePrimary(ts).rest, min)
    decreases |ts|, 0, 0
  {
    hide ParseExpr, Text, Reads, Power;
    var us := ts[1..];
    assert ParsePrimary(ts) == ParseNew(us);
    assert ParseNew(us) == ParseArray(us[1..]);
    assert us[1..] == ts[2..];
    if Peek(ts[2..]).kind == LSquare {
      assert ts[2..][1..] == ts[3..];
      ExprReads(ts[3..], 0);
      var p := ParseExpr(ts[3..], 0);
      if p.Ok? && Peek(p.rest).kind == RSquare { ArrayText(ts, p.value, p.rest, min); }
    }
  }

  lemma ArrayText(ts: seq<Token>, length: Tree, behind: seq<Token>, min: nat)
    requires |ts| >= 3 && ts[0].kind == KwNew && ts[1].kind == KwInt && ts[2].kind == LSquare
    requires Reads(ts[3..], length, behind, 0) && behind != [] && behind[0].kind == RSquare
    ensures Reads(ts, NewArray(length), behind[1..], min)
  {
    hide Text;
    var middle, rest := Taken(ts[3..], behind), behind[1..];
    var text := [ts[0], ts[1], ts[2]] + middle + [behind[0]];
    assert behind == [behind[0]] + rest;
    assert ts == [ts[0], ts[1], ts[2]] + ts[3..];
    assert ts == text + rest;
    assert text[3..|text| - 1] == middle;
    ReadsAs(ts, text, rest, NewArray(length), min);
  }

  lemma InfixReads(all: seq<Token>, lhs: Tree, ts: seq<Token>, min: nat)
    requires Reads(all, lhs, ts, min) && ts != [] && Power(ts[0].kind) > 0 && Power(ts[0].kind) >= min
    ensures ParseInfix(lhs, ts).Ok? ==> Reads(all, ParseInfix(lhs, ts).value, ParseInfix(lhs, ts).rest, min)
    decreases |ts|, 0
  {
    hide ParseExpr, Text, Reads, ParseMember;
    if ts[0].kind.LSquare? {
      IndexReads(all, lhs, ts, min);
    } else if ts[0].kind.Dot? {
      MemberReads(all, lhs, ts, min);
    } else {
      OperatorReads(all, lhs, ts, min);
    }
  }

  lemma OperatorReads(all: seq<Token>, lhs: Tree, ts: seq<Token>, min: nat)
    requires Reads(all, lhs, ts, min) && ts != [] && OperatorOf(ts[0].kind).Some? && Power(ts[0].kind) >= min
    ensures ParseInfix(lhs, ts).Ok? ==> Reads(all, ParseInfix(lhs, ts).value, ParseInfix(lhs, ts).rest, min)
    decreases |ts|, 0, 0
  {
    hide ParseExpr, Text, Reads, RightPower;
    var op := OperatorOf(ts[0].kind).value;
    ExprReads(ts[1..], RightPower(op));
    var p := ParseExpr(ts[1..], RightPower(op));
    if p.Ok? {
      OperatorText(all, lhs, ts, op, p.value, p.rest, min);
      assert ParseInfix(lhs, ts) == Ok(Infix(op, lhs, p.value), p.rest);
    }
  }

  lemma OperatorText(all: seq<Token>, lhs: Tree, ts: seq<Token>, op: Operator, rhs: Tree, rest: seq<Token>, min: nat)
    requires Reads(all, lhs, ts, min) && ts != [] && OperatorOf(ts[0].kind) == Some(op) && LeftPower(op) >= min
    requires Reads(ts[1..], rhs, rest, RightPower(op)) && (Power(Peek(rest).kind) == 0 || Power(Peek(rest).kind) < RightPower(op))
    ensures Reads(all, Infix(op, lhs, rhs), rest, min)
  {
    hide Text, LeftPower, RightPower;
    var left, middle := Taken(all, ts), Taken(ts[1..], rest);
    var text := left + [ts[0]] + middle;
    assert ts == [ts[0]] + ts[1..];
    assert all == text + rest;
    assert text[..|left|] == left && text[|left| + 1..] == middle && text[|left|] == ts[0];
    KindOfOperator(ts[0].kind);
    PowersPositive(op);
    hide OperatorOf, KindOf;
    hide BareText;
    assert InfixAt(op, lhs, rhs, min, Power(Peek(rest).kind), text, |left|);
    InfixIsBare(op, lhs, rhs, min, Power(Peek(rest).kind), text, |left|);
    ReadsAs(all, text, rest, Infix(op, lhs, rhs), min);
  }

  lemma InfixIsBare(op: Operator, l: Tree, r: Tree, min: nat, next: nat, ts: seq<Token>, n: nat)
    requires n < |ts| && InfixAt(op, l, r, min, next, ts, n)
    ensures BareText(Infix(op, l, r), min, next, ts)
  {
    hide InfixAt, MinusText;
  }

  lemma KindOfOperator(kind: TokenKind)
    requires OperatorOf(kind).Some?
    ensures KindOf(OperatorOf(kind).value) == kind && Power(kind) == LeftPower(OperatorOf(kind).value)
  {
  }

  lemma PowersPositive(op: Operator)
    ensures RightPower(op) > 0
  {
  }

  lemma IndexReads(all: seq<Token>, lhs: Tree, ts: seq<Token>, min: nat)
    requires Reads(all, lhs, ts, min) && ts != [] && ts[0].kind.LSquare? && Power(ts[0].kind) >= min
    ensures ParseInfix(lhs, ts).Ok? ==> Reads(all, ParseInfix(lhs, ts).value, ParseInfix(lhs, ts).rest, min)
    decreases |ts|, 0, 0
  {
    hide ParseExpr, Text, Reads;
    ExprReads(ts[1..], 0);
    var p := ParseExpr(ts[1..], 0);
    if p.Ok? && Peek(p.rest).kind == RSquare { IndexText(all, lhs, ts, p.value, p.rest, min); }
  }

  lemma IndexText(all: seq<Token>, lhs: Tree, ts: seq<Token>, i: Tree, behind: seq<Token>, min: nat)
    requires Reads(all, lhs, ts, min) && ts != [] && ts[0].kind.LSquare? && min <= BP_POSTFIX
    requires Reads(ts[1..], i, behind, 0) && behind != [] && behind[0].kind == RSquare
    ensures Reads(all, Index(lhs, i), behind[1..], min)
  {
    hide Text, BareText;
    var left, middle, rest := Taken(all, ts), Taken(ts[1..], behind), behind[1..];
    IndexPieces(lhs, i, min, left, ts[0], middle, behind[0]);
    var text := left + [ts[0]] + middle + [behind[0]];
    Rejoined(all, left, ts, middle, behind);
    hide Taken, Power, Peek;
    IndexIsBare(lhs, i, min, Power(Peek(rest).kind), text, |left|);
    ReadsAs(all, text, rest, Index(lhs, i), min);
  }

  lemma Rejoined(all: seq<Token>, left: seq<Token>, ts: seq<Token>, middle: seq<Token>, behind: seq<Token>)
    requires all == left + ts && ts != [] && ts[1..] == middle + behind && behind != []
    ensures all == left + [ts[0]] + middle + [behind[0]] + behind[1..]
  {
    assert ts == [ts[0]] + ts[1..] && behind == [behind[0]] + behind[1..];
  }

  lemma IndexPieces(a: Tree, i: Tree, min: nat, left: seq<Token>, open: Token, middle: seq<Token>, close: Token)
    requires Text(a, min, BP_POSTFIX, left) && open.kind == LSquare && Text(i, 0, 0, middle) && close.kind == RSquare && min <= BP_POSTFIX
    ensures IndexAt(a, i, min, left + [open] + middle + [close], |left|)
  {
    hide Text;
    var text := left + [open] + middle + [close];
    assert text[..|left|] == left && text[|left| + 1..|text| - 1] == middle;
  }

  lemma IndexIsBare(a: Tree, i: Tree, min: nat, next: nat, ts: seq<Token>, n: nat)
    requires n < |ts| && IndexAt(a, i, min, ts, n)
    ensures BareText(Index(a, i), min, next, ts)
  {
    hide IndexAt;
  }

  lemma MemberReads(all: seq<Token>, lhs: Tree, ts: seq<Token>, min: nat)
    requires Reads(all, lhs, ts, min) && ts != [] && ts[0].kind.Dot? && Power(ts[0].kind) >= min
    ensures ParseInfix(lhs, ts).Ok? ==> Reads(all, ParseInfix(lhs, ts).value, ParseInfix(lhs, ts).rest, min)
    decreases |ts|, 0, 0
  {
    hide ParseExpr, Text, ParseList, Reads, ParseCall;
    var us := ts[1..];
    if Peek(us).kind == KwLength {
      LengthText(all, lhs, ts, min);
    } else if Peek(us).kind == Identifier && Peek(us[1..]).kind == LParen {
      assert us[1..] == ts[2..] && us[1..][1..] == ts[3..];
      ArgumentsRead(all, lhs, ts, min);
    }
  }

  lemma LengthText(all: seq<Token>, lhs: Tree, ts: seq<Token>, min: nat)
    requires Reads(all, lhs, ts, min) && |ts| >= 2 && ts[0].kind.Dot? && ts[1].kind == KwLength && min <= BP_DOT
    ensures Reads(all, Length(lhs), ts[1..][1..], min)
  {
    hide Text;
    var left, rest := Taken(all, ts), ts[1..][1..];
    var text := left + [ts[0], ts[1]];
    assert ts == [ts[0], ts[1]] + rest;
    assert all == text + rest;
    assert text[..|text| - 2] == left;
    ReadsAs(all, text, rest, Length(lhs), min);
  }

  lemma ArgumentsRead(all: seq<Token>, lhs: Tree, ts: seq<Token>, min: nat)
    requires Reads(all, lhs, ts, min) && |ts| >= 3 && ts[0].kind.Dot? && Power(ts[0].kind) >= min
    requires ts[1].kind == Identifier && ts[2].kind == LParen
    ensures var r := ParseCall(lhs, ts[1].lexeme, ts[3..]); r.Ok? ==> Reads(all, r.value, r.rest, min)
    decreases |ts|, 0, 0, 0
  {
    hide ParseExpr, Text, ParseList, ListText, Reads, Power;
    var inner := ts[3..];
    if Peek(inner).kind == RParen {
      assert inner == [] + inner;
      EmptyList();
      CallText(all, lhs, ts, [], [], inner, min) by { PowerOfDot(); }
    } else {
      ListReads(inner);
      var p := ParseList(inner);
      if p.Ok? && Peek(p.rest).kind == RParen {
        PowerOfDot();
        CallText(all, lhs, ts, p.value, Taken(inner, p.rest), p.rest, min);
      }
    }
  }

  lemma PowerOfDot()
    ensures Power(Dot) == BP_DOT
  {
  }

  lemma EmptyList()
    ensures ListText([], [])
  {
  }

  lemma CallText(all: seq<Token>, lhs: Tree, ts: seq<Token>, args: seq<Tree>, middle: seq<Token>, behind: seq<Token>, min: nat)
    requires Reads(all, lhs, ts, min) && |ts| >= 3 && ts[0].kind.Dot? && min <= BP_DOT
    requires ts[1].kind == Identifier && ts[2].kind == LParen
    requires ts[3..] == middle + behind && ListText(args, middle) && behind != [] && behind[0].kind == RParen
    ensures Reads(all, Call(lhs, ts[1].lexeme, args), behind[1..], min)
  {
    hide Text, ListText;
    var left, rest := Taken(all, ts), behind[1..];
    var text := left + [ts[0], ts[1], ts[2]] + middle + [behind[0]];
    assert behind == [behind[0]] + rest;
    assert ts == [ts[0], ts[1], ts[2]] + ts[3..];
    assert all == text + rest;
    var n := |left|;
    assert text[..n] == left && text[n + 3..|text| - 1] == middle;
    assert text[n] == ts[0] && text[n + 1] == ts[1] && text[n + 2] == ts[2];
    hide BareText;
    assert CallAt(lhs, ts[1].lexeme, args, min, text, n);
    CallIsBare(lhs, ts[1].lexeme, args, min, Power(Peek(rest).kind), text, n);
    ReadsAs(all, text, rest, Call(lhs, ts[1].lexeme, args), min);
  }

  lemma CallIsBare(r: Tree, m: string, args: seq<Tree>, min: nat, next: nat, ts: seq<Token>, n: nat)
    requires n < |ts| && CallAt(r, m, args, min, ts, n)
    ensures BareText(Call(r, m, args), min, next, ts)
  {
    hide CallAt;
  }

  lemma {:induction false} ListReads(ts: seq<Token>)
    ensures var r := ParseList(ts);
            r.Ok? ==> r.value != [] && |r.rest| <= |ts| && ts == Taken(ts, r.rest) + r.rest
                      && (Peek(r.rest).kind == RParen ==> ListText(r.value, Taken(ts, r.rest)))
    decreases |ts|, 3
  {
    hide ParseExpr, Text, ListText, Power;
    ExprReads(ts, 0);
    var p := ParseExpr(ts, 0);
    if p.Ok? {
      if Peek(p.rest).kind == Comma {
        ListReads(p.rest[1..]);
        var q := ParseList(p.rest[1..]);
        if q.Ok? {
          assert ParseList(ts) == Ok([p.value] + q.value, q.rest);
          hide ParseList;
          MoreText(ts, p.value, p.rest, q.value, q.rest);
        }
      } else {
        assert ParseList(ts) == Ok([p.value], p.rest);
        hide ParseList;
        if Peek(p.rest).kind == RParen { LastText(p.value, Taken(ts, p.rest)); }
      }
    }
  }

  lemma LastText(e: Tree, ts: seq<Token>)
    requires Text(e, 0, 0, ts)
    ensures ListText([e], ts)
  {
    hide Text;
  }

  lemma MoreText(ts: seq<Token>, e: Tree, mid: seq<Token>, es: seq<Tree>, rest: seq<Token>)
    requires Reads(ts, e, mid, 0) && mid != [] && mid[0].kind == Comma && es != []
    requires |rest| < |mid| && mid[1..] == Taken(mid[1..], rest) + rest
    ensures |rest| <= |ts| && ts == Taken(ts, rest) + rest
    ensures ListText(es, Taken(mid[1..], rest)) ==> ListText([e] + es, Taken(ts, rest))
  {
    hide Text, ListText;
    var first, more := Taken(ts, mid), Taken(mid[1..], rest);
    var text := first + [mid[0]] + more;
    assert mid == [mid[0]] + mid[1..];
    assert ts == text + rest;
    assert Taken(ts, rest) == text;
    if ListText(es, more) {
      assert text[..|first|] == first && text[|first| + 1..] == more && text[|first|] == mid[0];
      assert ([e] + es)[1..] == es;
      assert CommaAt([e] + es, text, |first|);
      CommaIsList([e] + es, text, |first|);
    }
  }

  lemma CommaIsList(es: seq<Tree>, ts: seq<Token>, n: nat)
    requires |es| >= 2 && n < |ts| && CommaAt(es, ts, n)
    ensures ListText(es, ts)
  {
    hide Text, CommaAt;
  }

  /** The parser, exactly: it takes e and leaves rest if and only if what it has taken is a text of e and rest cannot
      continue an expression. */
  lemma ParserExactly(ts: seq<Token>, e: Tree, rest: seq<Token>)
    ensures ParseExpr(ts, 0) == Ok(e, rest) <==>
            |rest| <= |ts| && ts == Taken(ts, rest) + rest && Text(e, 0, 0, Taken(ts, rest)) && Power(Peek(rest).kind) == 0
  {
    hide ParseExpr, ParseLoop, Text, Taken;
    ExprReads(ts, 0);
    if |rest| <= |ts| && ts == Taken(ts, rest) + rest && Text(e, 0, 0, Taken(ts, rest)) && Power(Peek(rest).kind) == 0 {
      TextParses(e, 0, 0, Taken(ts, rest), rest);
      LoopStops(e, rest, 0);
    }
  }
}

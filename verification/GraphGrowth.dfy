/** What every step of IR generation keeps: blocks only grow, a block that is no longer current is not
    written again, and names are fresh. */
module GraphGrowth {
  import opened Ast
  import opened Tac
  import opened Names
  import opened FlowGraph
  import opened IrGeneration

  ghost predicate Fresh(g: Graph) {
    forall i: nat {:trigger BlockName(i)} :: g.nextBlock <= i ==> BlockName(i) !in g.blocks
  }

  ghost predicate Ready(g: Graph) {
    g.current in g.blocks && Fresh(g)
  }

  ghost predicate NewIn(l: string, lo: nat, hi: nat) {
    exists i: nat {:trigger BlockName(i)} :: lo <= i < hi && l == BlockName(i)
  }

  /** From g to h only the blocks named in w changed, and those only grew. */
  ghost predicate Touches(g: Graph, h: Graph, w: set<string>) {
    && g.nextTemp <= h.nextTemp && g.nextBlock <= h.nextBlock && g.roots == h.roots && g.locals <= h.locals
    && Fresh(h)
    && (forall l {:trigger l in g.blocks} {:trigger h.blocks[l]} :: l in g.blocks ==>
          l in h.blocks && g.blocks[l].instrs <= h.blocks[l].instrs && (l !in w ==> h.blocks[l] == g.blocks[l]))
    && (forall l {:trigger l in h.blocks} :: l in h.blocks && l !in g.blocks ==> NewIn(l, g.nextBlock, h.nextBlock))
    && (forall i: nat {:trigger TempName(i)} :: g.nextTemp <= i < h.nextTemp ==> TempName(i) in h.locals)
    && (forall x {:trigger x in h.locals} :: x in h.locals && x !in g.locals ==> Generated(x))
  }

  /** The step writes the current block and new ones only, and leaves a block current that nothing else
      refers to yet. */
  ghost predicate Grows(g: Graph, h: Graph) {
    Touches(g, h, {g.current}) && h.current in h.blocks && (h.current == g.current || h.current !in g.blocks)
  }

  lemma TouchesTrans(g: Graph, h: Graph, k: Graph, w: set<string>, v: set<string>)
    requires Touches(g, h, w) && Touches(h, k, v)
    ensures Touches(g, k, w + v)
  {
    forall l | l in k.blocks && l !in g.blocks
      ensures NewIn(l, g.nextBlock, k.nextBlock)
    {
      if l in h.blocks { assert NewIn(l, g.nextBlock, h.nextBlock); } else { assert NewIn(l, h.nextBlock, k.nextBlock); }
    }
    forall i: nat | g.nextTemp <= i < k.nextTemp
      ensures TempName(i) in k.locals
    {
      if i < h.nextTemp { assert TempName(i) in h.locals; }
    }
  }

  lemma TouchesLess(g: Graph, h: Graph, w: set<string>, v: set<string>)
    requires Touches(g, h, w)
    requires forall l :: l in w && l in g.blocks ==> l in v
    ensures Touches(g, h, v)
  {
  }

  lemma TouchesRefl(g: Graph)
    requires Fresh(g)
    ensures Touches(g, g, {})
  {
  }

  lemma GrowsRefl(g: Graph)
    requires Ready(g)
    ensures Grows(g, g)
  {
    TouchesRefl(g);
  }

  lemma GrowsTrans(g: Graph, h: Graph, k: Graph)
    requires Grows(g, h) && Grows(h, k)
    ensures Grows(g, k)
  {
    TouchesTrans(g, h, k, {g.current}, {h.current});
    TouchesLess(g, k, {g.current} + {h.current}, {g.current});
  }

  lemma NewTempTouches(g: Graph)
    requires Fresh(g)
    ensures Touches(g, NewTemp(g).0, {})
  {
    TempIsGenerated(g.nextTemp);
  }

  lemma NewTempGrows(g: Graph)
    requires Ready(g)
    ensures Grows(g, NewTemp(g).0)
  {
    NewTempTouches(g);
  }

  lemma NewBlockTouches(g: Graph)
    requires Fresh(g)
    ensures var (h, l) := NewBlock(g);
            Touches(g, h, {}) && l !in g.blocks && h.blocks == g.blocks[l := EMPTY_BLOCK] && h.current == g.current
  {
    var (h, l) := NewBlock(g);
    forall i: nat | h.nextBlock <= i
      ensures BlockName(i) !in h.blocks
    {
      if BlockName(i) == l { BlockNameInjective(i, g.nextBlock); }
    }
    assert NewIn(l, g.nextBlock, h.nextBlock);
  }

  lemma AddInstrTouches(g: Graph, t: Instr)
    requires Ready(g)
    ensures Touches(g, AddInstr(g, t), {g.current}) && Grows(g, AddInstr(g, t))
  {
  }

  lemma SetExitsTouches(g: Graph, l: string, t: string, f: string)
    requires Fresh(g) && l in g.blocks
    ensures Touches(g, SetExits(g, l, t, f), {l}) && Touches(g, SetTrueExit(g, l, t), {l})
  {
  }

  lemma MoveTouches(g: Graph, h: Graph, w: set<string>, l: string)
    requires Touches(g, h, w)
    ensures Touches(g, MoveTo(h, l), w)
  {
  }

  lemma AddBranchTouches(g: Graph, a: Operand, yes: string, no: string)
    requires Ready(g)
    ensures var h := AddBranch(g, a, yes, no);
            Touches(g, h, {g.current}) && Ready(h) && h.current == g.current
            && h.blocks == g.blocks[g.current := Here(g).(instrs := Here(g).instrs + [CondJump(no, a), Jump(yes)])]
  {
    var g1 := AddInstr(g, CondJump(no, a));
    AddInstrTouches(g, CondJump(no, a));
    AddInstrTouches(g1, Jump(yes));
    TouchesTrans(g, g1, AddBranch(g, a, yes, no), {g.current}, {g.current});
    assert Here(g).instrs + [CondJump(no, a)] + [Jump(yes)] == Here(g).instrs + [CondJump(no, a), Jump(yes)];
    assert {g.current} + {g.current} == {g.current};
  }

  lemma AddJumpTouches(g: Graph, l: string)
    requires Ready(g)
    ensures var h := AddJump(g, l);
            Touches(g, h, {g.current}) && Ready(h) && h.current == g.current
            && h.blocks == g.blocks[g.current := Here(g).(instrs := Here(g).instrs + [Jump(l)], trueExit := To(l))]
  {
    var g1 := AddInstr(g, Jump(l));
    AddInstrTouches(g, Jump(l));
    SetExitsTouches(g1, g.current, l, l);
    TouchesTrans(g, g1, AddJump(g, l), {g.current}, {g.current});
    assert {g.current} + {g.current} == {g.current};
  }

  predicate ArmsIn(arms: Arms, g: Graph) {
    && arms.rhs in g.blocks && arms.yes in g.blocks && arms.no in g.blocks && arms.join in g.blocks
    && Distinct4(arms.rhs, arms.yes, arms.no, arms.join)
  }

  predicate Distinct4(a: string, b: string, c: string, d: string) {
    a != b && a != c && a != d && b != c && b != d && c != d
  }

  lemma NewArmsTouches(g: Graph)
    requires Ready(g)
    ensures var (h, arms) := NewArms(g);
            && Touches(g, h, {}) && Ready(h) && ArmsIn(arms, h) && h.current == g.current
            && arms.rhs !in g.blocks && arms.yes !in g.blocks && arms.no !in g.blocks && arms.join !in g.blocks
            && h.blocks == g.blocks[arms.rhs := EMPTY_BLOCK][arms.yes := EMPTY_BLOCK]
                                   [arms.no := EMPTY_BLOCK][arms.join := EMPTY_BLOCK]
            && arms.result == TempName(g.nextTemp) && h.nextTemp == g.nextTemp + 1
  {
    var g1 := NewTemp(g).0;
    var g2, g3, g4 := NewBlock(g1).0, NewBlock(NewBlock(g1).0).0, NewBlock(NewBlock(NewBlock(g1).0).0).0;
    var g5 := NewBlock(g4).0;
    NewTempTouches(g);
    NewBlockTouches(g1);
    NewBlockTouches(g2);
    NewBlockTouches(g3);
    NewBlockTouches(g4);
    TouchesTrans(g, g1, g2, {}, {});
    TouchesTrans(g, g2, g3, {} + {}, {});
    TouchesTrans(g, g3, g4, {} + {} + {}, {});
    TouchesTrans(g, g4, g5, {} + {} + {} + {}, {});
    TouchesLess(g, g5, {} + {} + {} + {} + {}, {});
  }

  /** The arms are still empty, and the rest of the graph is as Touches says. */
  ghost predicate Opened(g: Graph, h: Graph, arms: Arms) {
    && Touches(g, h, {g.current}) && Ready(h) && ArmsIn(arms, h) && h.current == arms.rhs
    && arms.rhs !in g.blocks && arms.yes !in g.blocks && arms.no !in g.blocks && arms.join !in g.blocks
    && h.blocks[arms.rhs] == h.blocks[arms.yes] == h.blocks[arms.no] == h.blocks[arms.join] == EMPTY_BLOCK
    && arms.result == TempName(g.nextTemp) && h.nextTemp == g.nextTemp + 1
    && h.blocks.Keys == g.blocks.Keys + {arms.rhs, arms.yes, arms.no, arms.join}
  }

  /** The block that holds the branch after the left operand. */
  function LeftBranch(b: BBlock, isAnd: bool, a: Operand, arms: Arms): BBlock {
    if isAnd then BBlock(b.instrs + [CondJump(arms.no, a), Jump(arms.rhs)], To(arms.rhs), To(arms.no))
    else BBlock(b.instrs + [CondJump(arms.rhs, a), Jump(arms.yes)], To(arms.yes), To(arms.rhs))
  }

  lemma OpenTouches(g: Graph, isAnd: bool, a: Operand)
    requires Ready(g)
    ensures var (h, arms) := OpenShortCircuit(g, isAnd, a);
            Opened(g, h, arms) && h.blocks[g.current] == LeftBranch(Here(g), isAnd, a, arms)
  {
    var (g1, arms) := NewArms(g);
    NewArmsTouches(g);
    var (onTrue, onFalse) := if isAnd then (arms.rhs, arms.no) else (arms.yes, arms.rhs);
    OpenFrom(g, g1, arms, a, onTrue, onFalse);
  }

  lemma OpenFrom(g: Graph, g1: Graph, arms: Arms, a: Operand, onTrue: string, onFalse: string)
    requires Ready(g) && Touches(g, g1, {}) && Ready(g1) && ArmsIn(arms, g1) && g1.current == g.current
    requires arms.rhs !in g.blocks && arms.yes !in g.blocks && arms.no !in g.blocks && arms.join !in g.blocks
    requires g1.blocks[arms.rhs] == g1.blocks[arms.yes] == g1.blocks[arms.no] == g1.blocks[arms.join] == EMPTY_BLOCK
    requires arms.result == TempName(g.nextTemp) && g1.nextTemp == g.nextTemp + 1
    requires g1.blocks.Keys == g.blocks.Keys + {arms.rhs, arms.yes, arms.no, arms.join}
    ensures var h := MoveTo(SetExits(AddBranch(g1, a, onTrue, onFalse), g1.current, onTrue, onFalse), arms.rhs);
            && Opened(g, h, arms)
            && h.blocks[g.current] == BBlock(Here(g).instrs + [CondJump(onFalse, a), Jump(onTrue)], To(onTrue), To(onFalse))
  {
    var g2 := AddBranch(g1, a, onTrue, onFalse);
    AddBranchTouches(g1, a, onTrue, onFalse);
    SetExitsTouches(g2, g.current, onTrue, onFalse);
    var h := SetExits(g2, g.current, onTrue, onFalse);
    TouchesTrans(g, g1, g2, {}, {g.current});
    TouchesTrans(g, g2, h, {} + {g.current}, {g.current});
    TouchesLess(g, h, {} + {g.current} + {g.current}, {g.current});
    MoveTouches(g, h, {g.current}, arms.rhs);
  }

  lemma GiveResultTouches(g: Graph, value: int, arm: string, arms: Arms)
    requires Fresh(g) && arm in g.blocks
    ensures var h := GiveResult(g, value, arm, arms);
            && Touches(g, h, {arm}) && Fresh(h)
            && h.blocks == g.blocks[arm := BBlock(g.blocks[arm].instrs + [Copy(Imm(value), arms.result), Jump(arms.join)],
                                                  To(arms.join), g.blocks[arm].falseExit)]
  {
    var g1 := MoveTo(g, arm);
    TouchesRefl(g);
    MoveTouches(g, g, {}, arm);
    var g2 := AddInstr(g1, Copy(Imm(value), arms.result));
    AddInstrTouches(g1, Copy(Imm(value), arms.result));
    AddJumpTouches(g2, arms.join);
    TouchesTrans(g, g1, g2, {}, {arm});
    TouchesTrans(g, g2, AddJump(g2, arms.join), {} + {arm}, {arm});
    TouchesLess(g, AddJump(g2, arms.join), {} + {arm} + {arm}, {arm});
    assert g.blocks[arm].instrs + [Copy(Imm(value), arms.result)] + [Jump(arms.join)]
        == g.blocks[arm].instrs + [Copy(Imm(value), arms.result), Jump(arms.join)];
  }

  /** The two blocks that give an `&&` or `||` its value. */
  function ResultBlock(value: int, arms: Arms): BBlock {
    BBlock([Copy(Imm(value), arms.result), Jump(arms.join)], To(arms.join), None)
  }

  function CloseCurrent(h: Graph, b: Operand, arms: Arms): BBlock {
    var instrs := Here(h).instrs + [CondJump(arms.no, b), Jump(arms.yes)];
    if h.current == arms.rhs then BBlock(instrs, To(arms.yes), To(arms.no))
    else Here(h).(instrs := instrs)
  }

  lemma CloseRightTouches(h: Graph, b: Operand, arms: Arms)
    requires Ready(h) && ArmsIn(arms, h) && h.current !in {arms.yes, arms.no, arms.join}
    ensures var k := CloseRight(h, b, arms);
            && Touches(h, k, {h.current, arms.rhs}) && Fresh(k)
            && k.blocks == h.blocks[arms.rhs := BlockAt(h, arms.rhs).(trueExit := To(arms.yes), falseExit := To(arms.no))]
                                   [h.current := CloseCurrent(h, b, arms)]
            && k.nextTemp == h.nextTemp
  {
    var k0 := AddBranch(h, b, arms.yes, arms.no);
    AddBranchTouches(h, b, arms.yes, arms.no);
    SetExitsTouches(k0, arms.rhs, arms.yes, arms.no);
    TouchesTrans(h, k0, CloseRight(h, b, arms), {h.current}, {arms.rhs});
    TouchesLess(h, CloseRight(h, b, arms), {h.current} + {arms.rhs}, {h.current, arms.rhs});
  }

  /** h is the graph after the right operand, which started in the empty block arms.rhs of g. */
  lemma CloseTouches(g: Graph, h: Graph, b: Operand, arms: Arms)
    requires ArmsIn(arms, g) && g.current == arms.rhs && Grows(g, h)
    requires g.blocks[arms.yes] == g.blocks[arms.no] == g.blocks[arms.join] == EMPTY_BLOCK
    ensures var k := CloseShortCircuit(h, b, arms);
            && Touches(g, k, {arms.rhs, arms.yes, arms.no}) && Ready(k) && k.current == arms.join
            && Touches(h, k, {h.current, arms.rhs, arms.yes, arms.no})
            && k.blocks == CloseRight(h, b, arms).blocks[arms.yes := ResultBlock(1, arms)][arms.no := ResultBlock(0, arms)]
            && k.blocks[arms.join] == EMPTY_BLOCK
            && k.blocks[h.current] == CloseCurrent(h, b, arms) && k.blocks.Keys == h.blocks.Keys
            && (h.current != arms.rhs ==> k.blocks[arms.rhs] == h.blocks[arms.rhs].(trueExit := To(arms.yes), falseExit := To(arms.no)))
            && k.nextTemp == h.nextTemp
  {
    var k1 := CloseRight(h, b, arms);
    CloseRightTouches(h, b, arms);
    var k2 := GiveResult(k1, 1, arms.yes, arms);
    GiveResultTouches(k1, 1, arms.yes, arms);
    var k3 := GiveResult(k2, 0, arms.no, arms);
    GiveResultTouches(k2, 0, arms.no, arms);
    assert EMPTY_BLOCK.instrs + [Copy(Imm(1), arms.result), Jump(arms.join)] == ResultBlock(1, arms).instrs;
    assert EMPTY_BLOCK.instrs + [Copy(Imm(0), arms.result), Jump(arms.join)] == ResultBlock(0, arms).instrs;
    CloseChain(g, h, k1, k2, k3, arms);
  }

  lemma CloseChain(g: Graph, h: Graph, k1: Graph, k2: Graph, k3: Graph, arms: Arms)
    requires ArmsIn(arms, g) && g.current == arms.rhs && Grows(g, h)
    requires Touches(h, k1, {h.current, arms.rhs}) && Touches(k1, k2, {arms.yes}) && Touches(k2, k3, {arms.no})
    ensures Touches(g, MoveTo(k3, arms.join), {arms.rhs, arms.yes, arms.no})
    ensures Touches(h, MoveTo(k3, arms.join), {h.current, arms.rhs, arms.yes, arms.no})
  {
    var w := {h.current, arms.rhs, arms.yes, arms.no};
    TouchesTrans(h, k1, k2, {h.current, arms.rhs}, {arms.yes});
    TouchesTrans(h, k2, k3, {h.current, arms.rhs} + {arms.yes}, {arms.no});
    TouchesLess(h, k3, {h.current, arms.rhs} + {arms.yes} + {arms.no}, w);
    MoveTouches(h, k3, w, arms.join);
    var k := MoveTo(k3, arms.join);
    TouchesTrans(g, h, k, {g.current}, w);
    TouchesLess(g, k, {g.current} + w, {arms.rhs, arms.yes, arms.no});
  }

  lemma ShortCircuitGrows(g: Graph, isAnd: bool, a: Operand, h: Graph, b: Operand)
    requires Ready(g)
    requires Grows(OpenShortCircuit(g, isAnd, a).0, h)
    ensures Grows(g, CloseShortCircuit(h, b, OpenShortCircuit(g, isAnd, a).1))
  {
    hide OpenShortCircuit, CloseShortCircuit, LeftBranch, Fresh;
    var (g1, arms) := OpenShortCircuit(g, isAnd, a);
    OpenTouches(g, isAnd, a);
    CloseTouches(g1, h, b, arms);
    var k := CloseShortCircuit(h, b, arms);
    TouchesTrans(g, g1, k, {g.current}, {arms.rhs, arms.yes, arms.no});
    TouchesLess(g, k, {g.current} + {arms.rhs, arms.yes, arms.no}, {g.current});
  }

  lemma TempInstrGrows(g: Graph, h: Graph, t: Instr)
    requires Grows(g, h) && Ready(h)
    ensures Grows(g, AddInstr(NewTemp(h).0, t)) && Ready(AddInstr(NewTemp(h).0, t))
  {
    NewTempGrows(h);
    AddInstrTouches(NewTemp(h).0, t);
    GrowsTrans(g, h, NewTemp(h).0);
    GrowsTrans(g, NewTemp(h).0, AddInstr(NewTemp(h).0, t));
  }

  lemma {:induction false} ExprGrows(e: Expr, g: Graph)
    requires Ready(g)
    ensures Grows(g, GenExpr(e, g).0) && Ready(GenExpr(e, g).0)
    decreases e
  {
    hide Touches, AddInstr, OpenShortCircuit, CloseShortCircuit;
    match e
    case IntLit(_) => GrowsRefl(g);
    case BoolLit(_) => GrowsRefl(g);
    case Ident(_) => GrowsRefl(g);
    case This => GrowsRefl(g);
    case Binary(op, l, r) =>
      PairGrows(e, l, r, g);
      var (g1, a) := GenExpr(l, g);
      var (g2, b) := GenExpr(r, g1);
      TempInstrGrows(g, g2, Bin(op, NewTemp(g2).1, a, b));
    case Not(r) =>
      ExprGrows(r, g);
      var (g1, a) := GenExpr(r, g);
      TempInstrGrows(g, g1, NotTac(NewTemp(g1).1, a));
    case And(l, r) => ShortCircuitExprGrows(e, l, r, true, g);
    case Or(l, r) => ShortCircuitExprGrows(e, l, r, false, g);
    case NewObject(c) =>
      GrowsRefl(g);
      TempInstrGrows(g, g, New(NewTemp(g).1, c));
    case NewArray(n) => TempFirstGrows(e, n, g);
    case ArrayAccess(l, r) =>
      PairGrows(e, l, r, g);
      var (g1, a) := GenExpr(l, g);
      var (g2, b) := GenExpr(r, g1);
      TempInstrGrows(g, g2, Access(NewTemp(g2).1, a, b));
    case ArrayLength(a) => TempFirstGrows(e, a, g);
    case Call(r, c, m, args) =>
      ExprGrows(r, g);
      var (g1, a) := GenExpr(r, g);
      ArgsGrow(args, g1);
      var g2 := GenArgs(args, g1);
      GrowsTrans(g, g1, g2);
      TempInstrGrows(g, g2, Invoke(NewTemp(g2).1, a, RootName(c, m), |args|));
  }

  lemma PairGrows(e: Expr, l: Expr, r: Expr, g: Graph)
    requires Ready(g) && l < e && r < e
    ensures var g1 := GenExpr(l, g).0;
            var g2 := GenExpr(r, g1).0;
            Grows(g, g1) && Ready(g1) && Grows(g1, g2) && Grows(g, g2) && Ready(g2)
    decreases e, 0
  {
    ExprGrows(l, g);
    var g1 := GenExpr(l, g).0;
    ExprGrows(r, g1);
    GrowsTrans(g, g1, GenExpr(r, g1).0);
  }

  lemma TempFirstGrows(e: Expr, n: Expr, g: Graph)
    requires Ready(g) && (e == NewArray(n) || e == ArrayLength(n))
    ensures Grows(g, GenExpr(e, g).0) && Ready(GenExpr(e, g).0)
    decreases e, 0
  {
    var (g1, t) := NewTemp(g);
    NewTempGrows(g);
    ExprGrows(n, g1);
    var (g2, a) := GenExpr(n, g1);
    GrowsTrans(g, g1, g2);
    var i := if e.NewArray? then NewArr(t, a) else Length(t, a);
    AddInstrTouches(g2, i);
    GrowsTrans(g, g2, AddInstr(g2, i));
  }

  lemma ShortCircuitExprGrows(e: Expr, l: Expr, r: Expr, isAnd: bool, g: Graph)
    requires Ready(g) && e == (if isAnd then And(l, r) else Or(l, r))
    ensures Grows(g, GenExpr(e, g).0) && Ready(GenExpr(e, g).0)
    decreases e, 0
  {
    ExprGrows(l, g);
    var (g1, a) := GenExpr(l, g);
    OpenTouches(g1, isAnd, a);
    var (g2, arms) := OpenShortCircuit(g1, isAnd, a);
    ExprGrows(r, g2);
    var (g3, b) := GenExpr(r, g2);
    ShortCircuitGrows(g1, isAnd, a, g3, b);
    GrowsTrans(g, g1, CloseShortCircuit(g3, b, arms));
  }

  lemma {:induction false} ArgsGrow(args: seq<Expr>, g: Graph)
    requires Ready(g)
    ensures Grows(g, GenArgs(args, g)) && Ready(GenArgs(args, g))
    decreases args
  {
    if args == [] {
      TouchesRefl(g);
    } else {
      ExprGrows(args[0], g);
      var (g1, a) := GenExpr(args[0], g);
      var g2 := AddInstr(g1, Param(a));
      AddInstrTouches(g1, Param(a));
      ArgsGrow(args[1..], g2);
      GrowsTrans(g, g1, g2);
      GrowsTrans(g, g2, GenArgs(args, g));
    }
  }

  // ----- statements -----

  lemma CloseConditionTouches(g: Graph, a: Operand, yes: string, no: string)
    requires Ready(g)
    ensures var h := CloseCondition(g, a, yes, no);
            && Touches(g, h, {g.current}) && Ready(h) && h.current == g.current && h.nextTemp == g.nextTemp
            && h.blocks == g.blocks[g.current := BBlock(Here(g).instrs + [CondJump(no, a), Jump(yes)], To(yes), To(no))]
  {
    AddBranchTouches(g, a, yes, no);
    SetExitsTouches(AddBranch(g, a, yes, no), g.current, yes, no);
    TouchesTrans(g, AddBranch(g, a, yes, no), CloseCondition(g, a, yes, no), {g.current}, {g.current});
    TouchesLess(g, CloseCondition(g, a, yes, no), {g.current} + {g.current}, {g.current});
  }

  /** From g to h only the current block and new ones changed, and l is a new block that is still b. */
  ghost predicate Awaits(g: Graph, h: Graph, l: string, b: BBlock) {
    Touches(g, h, {g.current}) && l !in g.blocks && l in h.blocks && h.blocks[l] == b
  }

  lemma NewBlockAwaits(g: Graph)
    requires Ready(g)
    ensures var (h, l) := NewBlock(g);
            Awaits(g, h, l, EMPTY_BLOCK) && Ready(h) && h.current == g.current && l != g.current && Grows(g, h)
  {
    NewBlockTouches(g);
    TouchesLess(g, NewBlock(g).0, {}, {g.current});
  }

  /** A waiting block stays as it is while others are generated. */
  lemma AwaitsStep(g: Graph, h: Graph, l: string, b: BBlock, k: Graph, w: set<string>)
    requires Awaits(g, h, l, b) && Touches(h, k, w)
    requires l !in w && forall x :: x in w && x in g.blocks ==> x == g.current
    ensures Awaits(g, k, l, b)
  {
    TouchesTrans(g, h, k, {g.current}, w);
    TouchesLess(g, k, {g.current} + w, {g.current});
  }

  /** Generation continues in a waiting block. */
  lemma MoveGrows(g: Graph, h: Graph, l: string, b: BBlock)
    requires Awaits(g, h, l, b)
    ensures Grows(g, MoveTo(h, l)) && Ready(MoveTo(h, l)) && Here(MoveTo(h, l)) == b
    ensures Touches(h, MoveTo(h, l), {})
  {
    MoveTouches(g, h, {g.current}, l);
    TouchesRefl(h);
    MoveTouches(h, h, {}, l);
  }

  lemma CurrentIsOurs(g: Graph, h: Graph, k: Graph)
    requires Touches(g, h, {g.current}) && Grows(h, k) && (h.current in g.blocks ==> h.current == g.current)
    ensures k.current in g.blocks ==> k.current == g.current
  {
  }

  lemma {:induction false} StmtGrows(s: Stmt, g: Graph)
    requires Ready(g)
    ensures Grows(g, GenStmt(s, g)) && Ready(GenStmt(s, g))
    decreases s
  {
    match s
    case Assign(x, e) =>
      ExprGrows(e, g);
      AddInstrTouches(GenExpr(e, g).0, Copy(GenExpr(e, g).1, x));
      GrowsTrans(g, GenExpr(e, g).0, GenStmt(s, g));
    case ArrayAssign(x, index, e) =>
      ExprGrows(index, g);
      var (g1, i) := GenExpr(index, g);
      ExprGrows(e, g1);
      var (g2, a) := GenExpr(e, g1);
      AddInstrTouches(g2, ArrayCopy(x, i, a));
      GrowsTrans(g, g1, g2);
      GrowsTrans(g, g2, GenStmt(s, g));
    case Print(e) =>
      ExprGrows(e, g);
      AddInstrTouches(GenExpr(e, g).0, PrintTac(GenExpr(e, g).1));
      GrowsTrans(g, GenExpr(e, g).0, GenStmt(s, g));
    case If(c, thn) => IfGrows(c, thn, g);
    case IfElse(c, thn, els) => IfElseGrows(c, thn, els, g);
    case While(c, body) => WhileGrows(c, body, g);
    case Block(ss) => StmtsGrow(ss, g);
  }

  lemma IfGrows(c: Expr, thn: Stmt, g: Graph)
    requires Ready(g)
    ensures Grows(g, GenStmt(If(c, thn), g)) && Ready(GenStmt(If(c, thn), g))
    decreases If(c, thn), 0
  {
    var v := IfGraphsOf(c, thn, g);
    IfTest(c, thn, g);
    StmtGrows(thn, MoveTo(v.branched, v.yes));
    IfFinish(c, thn, g);
    IfLast(c, thn, g);
  }

  lemma IfElseGrows(c: Expr, thn: Stmt, els: Stmt, g: Graph)
    requires Ready(g)
    ensures Grows(g, GenStmt(IfElse(c, thn, els), g)) && Ready(GenStmt(IfElse(c, thn, els), g))
    decreases IfElse(c, thn, els), 0
  {
    var v := IfElseGraphsOf(c, thn, els, g);
    IfElseTest(c, thn, els, g);
    StmtGrows(thn, MoveTo(v.branched, v.yes));
    IfElseThen(c, thn, els, g);
    StmtGrows(els, MoveTo(AddJump(v.thenDone, v.join), v.no));
    IfElseFinish(c, thn, els, g);
    IfElseLast(c, thn, els, g);
  }

  lemma WhileGrows(c: Expr, body: Stmt, g: Graph)
    requires Ready(g)
    ensures Grows(g, GenStmt(While(c, body), g)) && Ready(GenStmt(While(c, body), g))
    decreases While(c, body), 0
  {
    var v := WhileGraphsOf(c, body, g);
    WhileTest(c, body, g);
    StmtGrows(body, MoveTo(v.branched, v.loop.body));
    WhileFinish(c, body, g, v);
    WhileLast(c, body, g);
  }

  lemma IfLast(c: Expr, thn: Stmt, g: Graph)
    ensures IfGraphsOf(c, thn, g).last == GenStmt(If(c, thn), g)
  {
    hide GenExpr, NewBlock, AddJump, AddBranch, SetExits, SetTrueExit, GenStmts, AddInstr;
  }

  lemma IfElseLast(c: Expr, thn: Stmt, els: Stmt, g: Graph)
    ensures IfElseGraphsOf(c, thn, els, g).last == GenStmt(IfElse(c, thn, els), g)
  {
    hide GenExpr, NewBlock, AddJump, AddBranch, SetExits, SetTrueExit, GenStmts, AddInstr;
  }

  lemma WhileLast(c: Expr, body: Stmt, g: Graph)
    ensures WhileGraphsOf(c, body, g).last == GenStmt(While(c, body), g)
  {
    hide GenExpr, NewBlock, AddJump, AddBranch, SetExits, SetTrueExit, GenStmts, AddInstr;
  }

  lemma {:induction false} StmtsGrow(ss: seq<Stmt>, g: Graph)
    requires Ready(g)
    ensures Grows(g, GenStmts(ss, g)) && Ready(GenStmts(ss, g))
    decreases ss
  {
    if ss == [] {
      TouchesRefl(g);
    } else {
      StmtGrows(ss[0], g);
      StmtsGrow(ss[1..], GenStmt(ss[0], g));
      GrowsTrans(g, GenStmt(ss[0], g), GenStmts(ss, g));
    }
  }

  /** The graphs met while an if is generated. */
  datatype IfGraphs = IfGraphs(yes: string, join: string, start: Graph, tested: Graph, cond: Operand, branched: Graph,
                               thenDone: Graph, last: Graph)

  function IfGraphsOf(c: Expr, thn: Stmt, g: Graph): IfGraphs {
    var (g1, yes) := NewBlock(g);
    var (g2, join) := NewBlock(g1);
    var (g3, a) := GenExpr(c, g2);
    var g4 := CloseCondition(g3, a, yes, join);
    var g5 := GenStmt(thn, MoveTo(g4, yes));
    IfGraphs(yes, join, g2, g3, a, g4, g5, MoveTo(AddJump(g5, join), join))
  }

  /** The condition has been generated and tested; the arms wait. */
  ghost predicate IfTested(g: Graph, v: IfGraphs) {
    && Starts(g, v.start) && Ready(v.tested) && Grows(v.start, v.tested)
    && Tested(v.tested, v.cond, v.branched, v.yes, v.join)
    && Awaits(g, v.branched, v.yes, EMPTY_BLOCK) && Awaits(g, v.branched, v.join, EMPTY_BLOCK)
    && v.yes != v.join && v.tested.current !in {v.yes, v.join}
    && Ready(MoveTo(v.branched, v.yes))
  }

  ghost predicate IfFinished(g: Graph, v: IfGraphs) {
    && Jumped(v.thenDone, v.last, v.join)
    && Grows(g, v.last) && Ready(v.last) && Here(v.last) == EMPTY_BLOCK && v.last.current == v.join
  }

  lemma IfTest(c: Expr, thn: Stmt, g: Graph)
    requires Ready(g)
    ensures IfTested(g, IfGraphsOf(c, thn, g))
  {
    var v := IfGraphsOf(c, thn, g);
    TwoBlocks(g);
    ExprGrows(c, v.start);
    TestStage(g, v.start, v.yes, v.join, v.tested, v.cond);
    MoveGrows(g, v.branched, v.yes, EMPTY_BLOCK);
  }

  lemma TwoBlocks(g: Graph)
    requires Ready(g)
    ensures var (g1, yes) := NewBlock(g);
            var (g2, no) := NewBlock(g1);
            Starts(g, g2) && Awaits(g, g2, yes, EMPTY_BLOCK) && Awaits(g, g2, no, EMPTY_BLOCK) && yes != no
  {
    var (g1, yes) := NewBlock(g);
    var (g2, no) := NewBlock(g1);
    NewBlockAwaits(g);
    NewBlockAwaits(g1);
    AwaitsStep(g, g1, yes, EMPTY_BLOCK, g2, {g1.current});
    GrowsTrans(g, g1, g2);
  }

  lemma IfFinish(c: Expr, thn: Stmt, g: Graph)
    requires var v := IfGraphsOf(c, thn, g);
             Ready(g) && IfTested(g, v) && Grows(MoveTo(v.branched, v.yes), v.thenDone) && Ready(v.thenDone)
    ensures IfFinished(g, IfGraphsOf(c, thn, g))
  {
    var v := IfGraphsOf(c, thn, g);
    ArmStage(g, v.branched, v.yes, v.join, v.thenDone, v.join);
    FinishStage(g, v.thenDone, v.join);
  }

  lemma FinishStage(g: Graph, k: Graph, l: string)
    requires Awaits(g, AddJump(k, l), l, EMPTY_BLOCK) && Jumped(k, AddJump(k, l), l)
    ensures var h := MoveTo(AddJump(k, l), l);
            Jumped(k, h, l) && Grows(g, h) && Ready(h) && Here(h) == EMPTY_BLOCK
  {
    MoveGrows(g, AddJump(k, l), l, EMPTY_BLOCK);
    MoveTouches(k, AddJump(k, l), {k.current}, l);
  }

  lemma IfStages(c: Expr, thn: Stmt, g: Graph) returns (v: IfGraphs)
    requires Ready(g)
    ensures v == IfGraphsOf(c, thn, g)
    ensures IfTested(g, v) && IfFinished(g, v)
    ensures Grows(MoveTo(v.branched, v.yes), v.thenDone) && Ready(v.thenDone)
  {
    v := IfGraphsOf(c, thn, g);
    IfTest(c, thn, g);
    StmtGrows(thn, MoveTo(v.branched, v.yes));
    IfFinish(c, thn, g);
  }

  /** h has new blocks only, and the same current block as g. */
  ghost predicate Starts(g: Graph, h: Graph) {
    Ready(h) && h.current == g.current && g.current in g.blocks && h.blocks[g.current] == g.blocks[g.current]
    && h.nextTemp == g.nextTemp && Grows(g, h)
  }

  /** The branch on a condition has been put into the current block of g, with its exits. */
  ghost predicate Tested(g: Graph, cond: Operand, h: Graph, yes: string, no: string) {
    && Touches(g, h, {g.current}) && h.current == g.current && Fresh(h) && g.current in h.blocks && h.nextTemp == g.nextTemp
    && h.blocks[g.current] == BBlock(Here(g).instrs + [CondJump(no, cond), Jump(yes)], To(yes), To(no))
  }

  /** The current block of g has been closed with a jump to l. */
  ghost predicate Jumped(g: Graph, h: Graph, l: string) {
    && Touches(g, h, {g.current}) && h.nextTemp == g.nextTemp && g.current != l && g.current in h.blocks
    && h.blocks[g.current] == Here(g).(instrs := Here(g).instrs + [Jump(l)], trueExit := To(l))
  }

  lemma TestStage(g: Graph, h: Graph, yes: string, no: string, k: Graph, cond: Operand)
    requires Awaits(g, h, yes, EMPTY_BLOCK) && Awaits(g, h, no, EMPTY_BLOCK)
    requires h.current == g.current && g.current in g.blocks && Grows(h, k) && Ready(k)
    ensures var b := CloseCondition(k, cond, yes, no);
            && Tested(k, cond, b, yes, no) && Awaits(g, b, yes, EMPTY_BLOCK) && Awaits(g, b, no, EMPTY_BLOCK)
            && k.current !in {yes, no} && (k.current in g.blocks ==> k.current == g.current)
  {
    AwaitsStep(g, h, yes, EMPTY_BLOCK, k, {g.current});
    AwaitsStep(g, h, no, EMPTY_BLOCK, k, {g.current});
    CurrentIsOurs(g, h, k);
    CloseConditionTouches(k, cond, yes, no);
    var b := CloseCondition(k, cond, yes, no);
    AwaitsStep(g, k, yes, EMPTY_BLOCK, b, {k.current});
    AwaitsStep(g, k, no, EMPTY_BLOCK, b, {k.current});
  }

  /** An arm is generated from the waiting block yes and ends with a jump to l, while other waits. */
  lemma ArmStage(g: Graph, h: Graph, yes: string, other: string, k: Graph, l: string)
    requires Awaits(g, h, yes, EMPTY_BLOCK) && Awaits(g, h, other, EMPTY_BLOCK) && yes != other && l in h.blocks && l != yes
    requires Grows(MoveTo(h, yes), k) && Ready(k)
    ensures Jumped(k, AddJump(k, l), l) && Ready(AddJump(k, l)) && k.current != other
    ensures Awaits(g, AddJump(k, l), other, EMPTY_BLOCK) && k.current !in g.blocks
  {
    var m := MoveTo(h, yes);
    MoveGrows(g, h, yes, EMPTY_BLOCK);
    AwaitsStep(g, h, other, EMPTY_BLOCK, m, {});
    AwaitsStep(g, m, other, EMPTY_BLOCK, k, {yes});
    AddJumpTouches(k, l);
    AwaitsStep(g, k, other, EMPTY_BLOCK, AddJump(k, l), {k.current});
  }

  datatype IfElseGraphs = IfElseGraphs(yes: string, no: string, join: string, start: Graph, tested: Graph, cond: Operand,
                                       branched: Graph, thenDone: Graph, elseDone: Graph, last: Graph)

  function IfElseGraphsOf(c: Expr, thn: Stmt, els: Stmt, g: Graph): IfElseGraphs {
    var (g1, yes) := NewBlock(g);
    var (g2, no) := NewBlock(g1);
    var (g3, join) := NewBlock(g2);
    var (g4, a) := GenExpr(c, g3);
    var g5 := CloseCondition(g4, a, yes, no);
    var g6 := GenStmt(thn, MoveTo(g5, yes));
    var g7 := GenStmt(els, MoveTo(AddJump(g6, join), no));
    IfElseGraphs(yes, no, join, g3, g4, a, g5, g6, g7, MoveTo(AddJump(g7, join), join))
  }

  ghost predicate IfElseTested(g: Graph, v: IfElseGraphs) {
    && Starts(g, v.start) && Ready(v.tested) && Grows(v.start, v.tested)
    && Tested(v.tested, v.cond, v.branched, v.yes, v.no)
    && Awaits(g, v.branched, v.yes, EMPTY_BLOCK) && Awaits(g, v.branched, v.no, EMPTY_BLOCK)
    && Awaits(g, v.branched, v.join, EMPTY_BLOCK)
    && v.yes != v.no && v.yes != v.join && v.no != v.join && v.tested.current !in {v.yes, v.no, v.join}
    && Ready(MoveTo(v.branched, v.yes))
  }

  /** The first arm is done and the second starts in its empty block. */
  ghost predicate IfElseTurn(g: Graph, v: IfElseGraphs) {
    var j := AddJump(v.thenDone, v.join);
    && Jumped(v.thenDone, j, v.join) && v.thenDone.current != v.no
    && Awaits(g, j, v.no, EMPTY_BLOCK) && Awaits(g, j, v.join, EMPTY_BLOCK) && Ready(MoveTo(j, v.no))
  }

  ghost predicate IfElseFinished(g: Graph, v: IfElseGraphs) {
    && Jumped(v.elseDone, v.last, v.join)
    && Grows(g, v.last) && Ready(v.last) && Here(v.last) == EMPTY_BLOCK && v.last.current == v.join
  }

  lemma ThreeBlocks(g: Graph)
    requires Ready(g)
    ensures var (g1, yes) := NewBlock(g);
            var (g2, no) := NewBlock(g1);
            var (g3, join) := NewBlock(g2);
            && Starts(g, g3) && Awaits(g, g3, yes, EMPTY_BLOCK) && Awaits(g, g3, no, EMPTY_BLOCK)
            && Awaits(g, g3, join, EMPTY_BLOCK) && yes != no && yes != join && no != join
  {
    var (g1, yes) := NewBlock(g);
    var (g2, no) := NewBlock(g1);
    var (g3, join) := NewBlock(g2);
    TwoBlocks(g);
    NewBlockAwaits(g2);
    AwaitsStep(g, g2, yes, EMPTY_BLOCK, g3, {g2.current});
    AwaitsStep(g, g2, no, EMPTY_BLOCK, g3, {g2.current});
    GrowsTrans(g, g2, g3);
  }

  lemma IfElseTest(c: Expr, thn: Stmt, els: Stmt, g: Graph)
    requires Ready(g)
    ensures IfElseTested(g, IfElseGraphsOf(c, thn, els, g))
  {
    var v := IfElseGraphsOf(c, thn, els, g);
    ThreeBlocks(g);
    ExprGrows(c, v.start);
    TestStage(g, v.start, v.yes, v.no, v.tested, v.cond);
    TestStageWaits(g, v.start, v.join, v.tested, v.branched);
    MoveGrows(g, v.branched, v.yes, EMPTY_BLOCK);
  }

  lemma TestStageWaits(g: Graph, h: Graph, l: string, k: Graph, b: Graph)
    requires Awaits(g, h, l, EMPTY_BLOCK) && h.current == g.current && g.current in g.blocks && Grows(h, k)
    requires Touches(k, b, {k.current})
    ensures Awaits(g, b, l, EMPTY_BLOCK) && k.current != l
  {
    AwaitsStep(g, h, l, EMPTY_BLOCK, k, {g.current});
    CurrentIsOurs(g, h, k);
    AwaitsStep(g, k, l, EMPTY_BLOCK, b, {k.current});
  }

  lemma IfElseThen(c: Expr, thn: Stmt, els: Stmt, g: Graph)
    requires var v := IfElseGraphsOf(c, thn, els, g);
             Ready(g) && IfElseTested(g, v) && Grows(MoveTo(v.branched, v.yes), v.thenDone) && Ready(v.thenDone)
    ensures IfElseTurn(g, IfElseGraphsOf(c, thn, els, g))
  {
    var v := IfElseGraphsOf(c, thn, els, g);
    ArmStage(g, v.branched, v.yes, v.no, v.thenDone, v.join);
    ArmStage(g, v.branched, v.yes, v.join, v.thenDone, v.join);
    MoveGrows(g, AddJump(v.thenDone, v.join), v.no, EMPTY_BLOCK);
  }

  lemma IfElseFinish(c: Expr, thn: Stmt, els: Stmt, g: Graph)
    requires var v := IfElseGraphsOf(c, thn, els, g);
             Ready(g) && IfElseTested(g, v) && IfElseTurn(g, v)
             && Grows(MoveTo(AddJump(v.thenDone, v.join), v.no), v.elseDone) && Ready(v.elseDone)
    ensures IfElseFinished(g, IfElseGraphsOf(c, thn, els, g))
  {
    var v := IfElseGraphsOf(c, thn, els, g);
    ArmStage(g, AddJump(v.thenDone, v.join), v.no, v.join, v.elseDone, v.join);
    FinishStage(g, v.elseDone, v.join);
  }

  lemma IfElseStages(c: Expr, thn: Stmt, els: Stmt, g: Graph) returns (v: IfElseGraphs)
    requires Ready(g)
    ensures v == IfElseGraphsOf(c, thn, els, g)
    ensures IfElseTested(g, v) && IfElseTurn(g, v) && IfElseFinished(g, v)
    ensures Grows(MoveTo(v.branched, v.yes), v.thenDone) && Ready(v.thenDone)
    ensures Grows(MoveTo(AddJump(v.thenDone, v.join), v.no), v.elseDone) && Ready(v.elseDone)
  {
    v := IfElseGraphsOf(c, thn, els, g);
    IfElseTest(c, thn, els, g);
    StmtGrows(thn, MoveTo(v.branched, v.yes));
    IfElseThen(c, thn, els, g);
    StmtGrows(els, MoveTo(AddJump(v.thenDone, v.join), v.no));
    IfElseFinish(c, thn, els, g);
  }

  datatype WhileGraphs = WhileGraphs(loop: Loop, start: Graph, tested: Graph, cond: Operand, branched: Graph,
                                     bodyDone: Graph, last: Graph)

  function WhileGraphsOf(c: Expr, body: Stmt, g: Graph): WhileGraphs {
    var (g1, loop) := OpenLoop(g);
    var (g2, a) := GenExpr(c, g1);
    var g3 := AddBranch(g2, a, loop.body, loop.join);
    var g4 := GenStmt(body, MoveTo(g3, loop.body));
    WhileGraphs(loop, g1, g2, a, g3, g4, MoveTo(SetExits(AddJump(g4, loop.header), g2.current, loop.body, loop.join), loop.join))
  }

  function BodyBlock(loop: Loop): BBlock {
    BBlock([], To(loop.header), None)
  }

  lemma OpenLoopStage(g: Graph)
    requires Ready(g)
    ensures var (h, loop) := OpenLoop(g);
            && Awaits(g, h, loop.header, EMPTY_BLOCK) && Awaits(g, h, loop.body, BodyBlock(loop)) && Awaits(g, h, loop.join, EMPTY_BLOCK)
            && loop.header != loop.body && loop.header != loop.join && loop.body != loop.join
            && Ready(h) && h.current == loop.header && h.nextTemp == g.nextTemp
            && h.blocks[g.current] == Here(g).(instrs := Here(g).instrs + [Jump(loop.header)], trueExit := To(loop.header))
  {
    var (h, loop) := OpenLoop(g);
    var g1 := NewBlock(g).0;
    NewBlockAwaits(g);
    var g2 := NewBlock(g1).0;
    NewBlockAwaits(g1);
    AwaitsStep(g, g1, loop.header, EMPTY_BLOCK, g2, {g1.current});
    GrowsTrans(g, g1, g2);
    var g3 := SetTrueExit(g2, loop.body, loop.header);
    SetExitsTouches(g2, loop.body, loop.header, loop.header);
    AwaitsStep(g, g2, loop.header, EMPTY_BLOCK, g3, {loop.body});
    assert Awaits(g, g3, loop.body, BodyBlock(loop));
    var g4 := NewBlock(g3).0;
    NewBlockAwaits(g3);
    AwaitsStep(g, g3, loop.header, EMPTY_BLOCK, g4, {g3.current});
    AwaitsStep(g, g3, loop.body, BodyBlock(loop), g4, {g3.current});
    AddJumpTouches(g4, loop.header);
    var g5 := AddJump(g4, loop.header);
    AwaitsStep(g, g4, loop.header, EMPTY_BLOCK, g5, {g4.current});
    AwaitsStep(g, g4, loop.body, BodyBlock(loop), g5, {g4.current});
    AwaitsStep(g, g4, loop.join, EMPTY_BLOCK, g5, {g4.current});
    MoveGrows(g, g5, loop.header, EMPTY_BLOCK);
  }

  ghost predicate LoopBlocks(g: Graph, h: Graph, loop: Loop) {
    && Awaits(g, h, loop.header, EMPTY_BLOCK) && Awaits(g, h, loop.body, BodyBlock(loop)) && Awaits(g, h, loop.join, EMPTY_BLOCK)
    && loop.header != loop.body && loop.header != loop.join && loop.body != loop.join
  }

  /** The current block of g jumps to the header, and the condition starts there. */
  ghost predicate LoopEntered(g: Graph, v: WhileGraphs) {
    && LoopBlocks(g, v.start, v.loop)
    && Ready(v.start) && v.start.current == v.loop.header && v.start.nextTemp == g.nextTemp
    && g.current in v.start.blocks
    && v.start.blocks[g.current] == Here(g).(instrs := Here(g).instrs + [Jump(v.loop.header)], trueExit := To(v.loop.header))
  }

  ghost predicate LoopTested(g: Graph, v: WhileGraphs) {
    && Grows(v.start, v.tested) && Ready(v.tested)
    && v.tested.current !in g.blocks && v.tested.current !in {v.loop.body, v.loop.join}
    && Touches(v.tested, v.branched, {v.tested.current}) && v.branched.nextTemp == v.tested.nextTemp
    && v.tested.current in v.branched.blocks && v.branched.blocks[v.tested.current] ==
       Here(v.tested).(instrs := Here(v.tested).instrs + [CondJump(v.loop.join, v.cond), Jump(v.loop.body)])
    && Awaits(g, v.branched, v.loop.body, BodyBlock(v.loop)) && Awaits(g, v.branched, v.loop.join, EMPTY_BLOCK)
    && Ready(MoveTo(v.branched, v.loop.body)) && v.loop.header in v.branched.blocks
  }

  ghost predicate LoopFinished(g: Graph, v: WhileGraphs) {
    && Touches(v.bodyDone, v.last, {v.bodyDone.current, v.tested.current}) && v.last.nextTemp == v.bodyDone.nextTemp
    && v.tested.current in v.last.blocks && v.last.blocks[v.tested.current] ==
       BlockAt(v.branched, v.tested.current).(trueExit := To(v.loop.body), falseExit := To(v.loop.join))
    && v.bodyDone.current in v.last.blocks && v.last.blocks[v.bodyDone.current] ==
       Here(v.bodyDone).(instrs := Here(v.bodyDone).instrs + [Jump(v.loop.header)], trueExit := To(v.loop.header))
    && v.bodyDone.current !in {v.tested.current, v.loop.join, g.current}
    && Grows(g, v.last) && Ready(v.last) && Here(v.last) == EMPTY_BLOCK && v.last.current == v.loop.join
  }

  lemma WhileTest(c: Expr, body: Stmt, g: Graph)
    requires Ready(g)
    ensures LoopEntered(g, WhileGraphsOf(c, body, g)) && LoopTested(g, WhileGraphsOf(c, body, g))
  {
    var v := WhileGraphsOf(c, body, g);
    OpenLoopStage(g);
    ExprGrows(c, v.start);
    WhileTestFrom(c, body, g, v);
  }

  lemma WhileTestFrom(c: Expr, body: Stmt, g: Graph, v: WhileGraphs)
    requires v == WhileGraphsOf(c, body, g) && LoopEntered(g, v) && Grows(v.start, v.tested) && Ready(v.tested) && Ready(g)
    ensures LoopTested(g, v)
  {
    hide GenStmt, GenExpr, OpenLoop, Fresh, NewIn;
    AwaitsStep(g, v.start, v.loop.body, BodyBlock(v.loop), v.tested, {v.start.current});
    AwaitsStep(g, v.start, v.loop.join, EMPTY_BLOCK, v.tested, {v.start.current});
    AddBranchTouches(v.tested, v.cond, v.loop.body, v.loop.join);
    AwaitsStep(g, v.tested, v.loop.body, BodyBlock(v.loop), v.branched, {v.tested.current});
    AwaitsStep(g, v.tested, v.loop.join, EMPTY_BLOCK, v.branched, {v.tested.current});
    MoveGrows(g, v.branched, v.loop.body, BodyBlock(v.loop));
  }

  lemma WhileFinish(c: Expr, body: Stmt, g: Graph, v: WhileGraphs)
    requires Ready(g) && v == WhileGraphsOf(c, body, g) && LoopTested(g, v) && v.loop.body != v.loop.join
    requires Grows(MoveTo(v.branched, v.loop.body), v.bodyDone) && Ready(v.bodyDone)
    ensures LoopFinished(g, v)
  {
    hide GenStmt, GenExpr, OpenLoop, Fresh, NewIn;
    var m := MoveTo(v.branched, v.loop.body);
    MoveGrows(g, v.branched, v.loop.body, BodyBlock(v.loop));
    AwaitsStep(g, v.branched, v.loop.join, EMPTY_BLOCK, m, {});
    AwaitsStep(g, m, v.loop.join, EMPTY_BLOCK, v.bodyDone, {v.loop.body});
    var j := AddJump(v.bodyDone, v.loop.header);
    AddJumpTouches(v.bodyDone, v.loop.header);
    AwaitsStep(g, v.bodyDone, v.loop.join, EMPTY_BLOCK, j, {v.bodyDone.current});
    assert v.tested.current in j.blocks && j.blocks[v.tested.current] == v.branched.blocks[v.tested.current];
    WhileExits(g, v, j);
  }

  lemma WhileExits(g: Graph, v: WhileGraphs, j: Graph)
    requires Touches(v.bodyDone, j, {v.bodyDone.current}) && Awaits(g, j, v.loop.join, EMPTY_BLOCK)
    requires v.tested.current in j.blocks && v.tested.current !in g.blocks && v.tested.current != v.loop.join
    ensures var k := SetExits(j, v.tested.current, v.loop.body, v.loop.join);
            var h := MoveTo(k, v.loop.join);
            && Touches(v.bodyDone, h, {v.bodyDone.current, v.tested.current})
            && Grows(g, h) && Ready(h) && Here(h) == EMPTY_BLOCK
  {
    SetExitsTouches(j, v.tested.current, v.loop.body, v.loop.join);
    var k := SetExits(j, v.tested.current, v.loop.body, v.loop.join);
    AwaitsStep(g, j, v.loop.join, EMPTY_BLOCK, k, {v.tested.current});
    MoveGrows(g, k, v.loop.join, EMPTY_BLOCK);
    TouchesTrans(v.bodyDone, j, k, {v.bodyDone.current}, {v.tested.current});
    TouchesLess(v.bodyDone, k, {v.bodyDone.current} + {v.tested.current}, {v.bodyDone.current, v.tested.current});
    MoveTouches(v.bodyDone, k, {v.bodyDone.current, v.tested.current}, v.loop.join);
  }

  lemma WhileStages(c: Expr, body: Stmt, g: Graph) returns (v: WhileGraphs)
    requires Ready(g)
    ensures v == WhileGraphsOf(c, body, g)
    ensures LoopEntered(g, v) && LoopTested(g, v) && LoopFinished(g, v)
    ensures Grows(MoveTo(v.branched, v.loop.body), v.bodyDone) && Ready(v.bodyDone)
  {
    v := WhileGraphsOf(c, body, g);
    WhileTest(c, body, g);
    StmtGrows(body, MoveTo(v.branched, v.loop.body));
    WhileFinish(c, body, g, v);
  }
}

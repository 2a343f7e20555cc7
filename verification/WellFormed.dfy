/** The shape of blocks, and the agreement of a block's exits, which decide what is visited and emitted, with its
    labels, which decide where a run goes. Generation always keeps the shape; it establishes agreement exactly when no
    `&&` or `||` stands in the right operand of another. */
module WellFormed {
  import opened Ast
  import opened Tac
  import opened Names
  import opened FlowGraph
  import opened IrGeneration
  import opened GraphGrowth
  import Source

  function Exits(b: BBlock): set<string> {
    (if b.trueExit.To? then {b.trueExit.name} else {}) + (if b.falseExit.To? then {b.falseExit.name} else {})
  }

  predicate EndsInBranch(ts: seq<Instr>) {
    |ts| >= 2 && ts[|ts| - 2].CondJump? && ts[|ts| - 1].Jump?
  }

  predicate EndsInJump(ts: seq<Instr>) {
    |ts| >= 1 && ts[|ts| - 1].Jump?
  }

  predicate EndsInReturn(ts: seq<Instr>) {
    |ts| >= 1 && ts[|ts| - 1].Return?
  }

  /** Straight code, then: a branch with both exits, a jump with the true exit only, or a return or nothing
      with no exit. */
  predicate Agrees(b: BBlock) {
    var ts, n := b.instrs, |b.instrs|;
    if EndsInBranch(ts) then
      AllStraight(ts[..n - 2]) && b.trueExit == To(ts[n - 1].target) && b.falseExit == To(ts[n - 2].target)
    else if EndsInJump(ts) then
      AllStraight(ts[..n - 1]) && b.trueExit == To(ts[n - 1].target) && b.falseExit == None
    else if EndsInReturn(ts) then AllStraight(ts[..n - 1]) && b.trueExit == None && b.falseExit == None
    else AllStraight(ts) && b.trueExit == None && b.falseExit == None
  }

  /** Straight code, then a branch or a jump. */
  predicate Finished(b: BBlock) {
    EndsInJump(b.instrs) && AllStraight(b.instrs[..|b.instrs| - if EndsInBranch(b.instrs) then 2 else 1])
  }

  /** A finished block, or one without exits whose code is straight, up to a final return perhaps. */
  predicate Shaped(b: BBlock) {
    var ts := b.instrs;
    Finished(b) || (Exits(b) == {} && (AllStraight(ts) || (EndsInReturn(ts) && AllStraight(ts[..|ts| - 1]))))
  }

  lemma AgreesShaped(b: BBlock)
    requires Agrees(b)
    ensures Shaped(b)
  {
  }

  /** A block still being filled; the true exit may have been set in advance, as for the body of a while. */
  predicate OpenBlock(b: BBlock) {
    AllStraight(b.instrs) && b.falseExit == None
  }

  ghost predicate NewSince(g: Graph, l: string) {
    l !in g.blocks || l == g.current
  }

  /** Every block closed between g and h agrees. */
  ghost predicate NewAgree(g: Graph, h: Graph) {
    forall l {:trigger h.blocks[l]} :: l in h.blocks && l != h.current && NewSince(g, l) ==> Agrees(h.blocks[l])
  }

  /** Every block closed between g and h, but for those in x, has the shape of a block. */
  ghost predicate NewShaped(g: Graph, h: Graph, x: set<string>) {
    forall l {:trigger h.blocks[l]} :: l in h.blocks && l != h.current && l !in x && NewSince(g, l) ==> Shaped(h.blocks[l])
  }

  /** The current block of h can be filled further; if it is not the one of g, it has no exits yet. The blocks closed
      on the way are well-shaped. */
  ghost predicate StaysOpen(g: Graph, h: Graph) {
    && h.current in h.blocks && OpenBlock(Here(h))
    && (if h.current == g.current then Here(h).trueExit == Here(g).trueExit else Here(h).trueExit == None)
    && NewShaped(g, h, {})
  }

  /** If generation went on in another block, the block it left is finished. */
  ghost predicate LeavesFinished(g: Graph, h: Graph) {
    h.current != g.current ==> g.current in h.blocks && Finished(h.blocks[g.current])
  }

  lemma LeavesTrans(g: Graph, h: Graph, k: Graph)
    requires LeavesFinished(g, h) && LeavesFinished(h, k) && Grows(g, h) && Grows(h, k) && g.current in g.blocks
    ensures LeavesFinished(g, k)
  {
    hide Finished;
  }

  lemma NewShapedTrans(g: Graph, h: Graph, k: Graph, x: set<string>)
    requires Grows(g, h) && Grows(h, k) && h.current !in x && NewShaped(g, h, x) && NewShaped(h, k, {})
    ensures NewShaped(g, k, x)
  {
    hide Shaped;
    forall l | l in k.blocks && l != k.current && l !in x && NewSince(g, l)
      ensures Shaped(k.blocks[l])
    {
      if !NewSince(h, l) { assert k.blocks[l] == h.blocks[l]; }
    }
  }

  lemma NewSinceTrans(g: Graph, h: Graph, l: string)
    requires Grows(g, h) && NewSince(h, l)
    ensures NewSince(g, l)
  {
  }

  lemma StaysOpenTrans(g: Graph, h: Graph, k: Graph)
    requires StaysOpen(g, h) && StaysOpen(h, k) && Grows(g, h) && Grows(h, k)
    ensures StaysOpen(g, k)
  {
    hide NewShaped;
    NewShapedTrans(g, h, k, {});
  }

  /** The blocks closed since g are those closed on the way to h and those closed from there on. */
  lemma NewAgreeTrans(g: Graph, h: Graph, k: Graph)
    requires Grows(g, h) && Grows(h, k)
    ensures NewAgree(g, k) <==> NewAgree(g, h) && NewAgree(h, k)
  {
    forall l | NewAgree(g, h) && NewAgree(h, k) && l in k.blocks && l != k.current && NewSince(g, l)
      ensures Agrees(k.blocks[l])
    {
      if !NewSince(h, l) { assert k.blocks[l] == h.blocks[l]; }
    }
    forall l | NewAgree(g, k) && l in h.blocks && l != h.current && NewSince(g, l)
      ensures Agrees(h.blocks[l])
    {
      assert k.blocks[l] == h.blocks[l];
    }
    forall l | NewAgree(g, k) && l in k.blocks && l != k.current && NewSince(h, l)
      ensures Agrees(k.blocks[l])
    {
      NewSinceTrans(g, h, l);
    }
  }

  /** A step that fills the current block only. */
  lemma SameBlock(g: Graph, h: Graph)
    requires Ready(g) && h.current == g.current && h.blocks.Keys == g.blocks.Keys
    ensures NewAgree(g, h)
  {
  }

  lemma StraightStep(g: Graph, t: Instr)
    requires Ready(g) && OpenBlock(Here(g)) && Straight(t)
    ensures NewAgree(g, AddInstr(g, t)) && StaysOpen(g, AddInstr(g, t))
  {
    SameBlock(g, AddInstr(g, t));
  }

  /** Taking a temporary and adding an instruction. */
  lemma TempStep(g: Graph, h: Graph, t: Instr)
    requires Ready(g) && Grows(g, h) && Ready(h) && StaysOpen(g, h) && Straight(t)
    ensures var k := AddInstr(NewTemp(h).0, t);
            && StaysOpen(g, k) && (NewAgree(g, k) <==> NewAgree(g, h)) && k.current == h.current
            && (LeavesFinished(g, h) ==> LeavesFinished(g, k))
  {
    var k0 := NewTemp(h).0;
    NewTempGrows(h);
    TempInstrGrows(h, h, t) by { GrowsRefl(h); }
    StraightStep(k0, t);
    SameBlock(h, AddInstr(k0, t));
    StaysOpenTrans(g, h, AddInstr(k0, t));
    NewAgreeTrans(g, h, AddInstr(k0, t));
  }

  lemma ReflSteps(g: Graph)
    requires Ready(g) && OpenBlock(Here(g))
    ensures NewAgree(g, g) && StaysOpen(g, g) && Grows(g, g) && LeavesFinished(g, g)
  {
    GrowsRefl(g);
  }

  /** What generating an expression does to agreement; it opens a block iff it contains `&&` or `||`. */
  ghost predicate ExprWf(e: Expr, g: Graph, h: Graph) {
    && StaysOpen(g, h) && LeavesFinished(g, h)
    && (h.current == g.current <==> PlainOperand(e))
    && (NewAgree(g, h) <==> NoShortCircuitInRightOperand(e))
  }

  ghost predicate ArgsWf(args: seq<Expr>, g: Graph, h: Graph) {
    && StaysOpen(g, h) && LeavesFinished(g, h)
    && (h.current == g.current <==> forall a :: a in args ==> PlainOperand(a))
    && (NewAgree(g, h) <==> forall a :: a in args ==> NoShortCircuitInRightOperand(a))
  }

  lemma PlainIsFine(e: Expr)
    requires PlainOperand(e)
    ensures NoShortCircuitInRightOperand(e)
  {
  }

  lemma CurrentNeverReturns(g: Graph, h: Graph, k: Graph)
    requires g.current in g.blocks && Grows(g, h) && Grows(h, k)
    ensures k.current == g.current <==> h.current == g.current && k.current == h.current
  {
  }

  lemma {:induction false} ExprAgrees(e: Expr, g: Graph)
    requires Ready(g) && OpenBlock(Here(g))
    ensures ExprWf(e, g, GenExpr(e, g).0)
    decreases e
  {
    hide StaysOpen, NewAgree, Touches, OpenBlock, AddInstr;
    match e
    case Binary(op, l, r) =>
      PairAgrees(e, l, r, g);
      var (g1, a) := GenExpr(l, g);
      var (g2, b) := GenExpr(r, g1);
      TempStep(g, g2, Bin(op, NewTemp(g2).1, a, b));
    case ArrayAccess(l, r) =>
      PairAgrees(e, l, r, g);
      var (g1, a) := GenExpr(l, g);
      var (g2, b) := GenExpr(r, g1);
      TempStep(g, g2, Access(NewTemp(g2).1, a, b));
    case Not(r) =>
      ExprGrows(r, g);
      ExprAgrees(r, g);
      var (g1, a) := GenExpr(r, g);
      TempStep(g, g1, NotTac(NewTemp(g1).1, a));
    case NewObject(c) =>
      ReflSteps(g);
      TempStep(g, g, New(NewTemp(g).1, c));
    case NewArray(n) => TempFirstAgrees(e, n, g);
    case ArrayLength(a) => TempFirstAgrees(e, a, g);
    case And(l, r) => ShortCircuitAgrees(e, l, r, true, g);
    case Or(l, r) => ShortCircuitAgrees(e, l, r, false, g);
    case Call(r, c, m, args) =>
      ExprGrows(r, g);
      ExprAgrees(r, g);
      var (g1, a) := GenExpr(r, g);
      OpenStays(g, g1);
      ArgsGrow(args, g1);
      ArgsAgree(args, g1);
      var g2 := GenArgs(args, g1);
      GrowsTrans(g, g1, g2);
      StaysOpenTrans(g, g1, g2);
      LeavesTrans(g, g1, g2);
      NewAgreeTrans(g, g1, g2);
      CurrentNeverReturns(g, g1, g2);
      TempStep(g, g2, Invoke(NewTemp(g2).1, a, RootName(c, m), |args|));
    case _ => ReflSteps(g);
  }

  lemma OpenStays(g: Graph, h: Graph)
    requires StaysOpen(g, h)
    ensures OpenBlock(Here(h)) && NewShaped(g, h, {})
  {
  }

  lemma PairAgrees(e: Expr, l: Expr, r: Expr, g: Graph)
    requires Ready(g) && OpenBlock(Here(g)) && l < e && r < e
    ensures var g1 := GenExpr(l, g).0;
            var g2 := GenExpr(r, g1).0;
            && Grows(g, g2) && Ready(g2) && StaysOpen(g, g2) && LeavesFinished(g, g2)
            && (g2.current == g.current <==> PlainOperand(l) && PlainOperand(r))
            && (NewAgree(g, g2) <==> NoShortCircuitInRightOperand(l) && NoShortCircuitInRightOperand(r))
    decreases e, 0
  {
    hide StaysOpen, NewAgree, Touches, OpenBlock, GenExpr, PlainOperand, NoShortCircuitInRightOperand;
    var g1 := GenExpr(l, g).0;
    var g2 := GenExpr(r, g1).0;
    ExprGrows(l, g);
    ExprAgrees(l, g);
    OpenStays(g, g1);
    ExprGrows(r, g1);
    ExprAgrees(r, g1);
    GrowsTrans(g, g1, g2);
    StaysOpenTrans(g, g1, g2);
    LeavesTrans(g, g1, g2);
    NewAgreeTrans(g, g1, g2);
    CurrentNeverReturns(g, g1, g2);
  }

  lemma TempFirstAgrees(e: Expr, n: Expr, g: Graph)
    requires Ready(g) && OpenBlock(Here(g)) && (e == NewArray(n) || e == ArrayLength(n))
    ensures ExprWf(e, g, GenExpr(e, g).0)
    decreases e, 0
  {
    hide Touches, AddInstr, StaysOpen, NewAgree, LeavesFinished, OpenBlock;
    var (g1, t) := NewTemp(g);
    NewTempGrows(g);
    NewTempStays(g);
    ExprGrows(n, g1);
    ExprAgrees(n, g1);
    OpenStays(g1, GenExpr(n, g1).0);
    var (g2, a) := GenExpr(n, g1);
    var i := if e.NewArray? then NewArr(t, a) else Length(t, a);
    StraightStep(g2, i);
    AddInstrTouches(g2, i);
    AddInstrSame(g2, i);
    var h := AddInstr(g2, i);
    SameBlock(g2, h);
    GrowsTrans(g, g1, g2);
    StaysOpenTrans(g, g1, g2);
    StaysOpenTrans(g, g2, h);
    LeavesTrans(g, g1, g2);
    SameLeaves(g, g2, h);
    NewAgreeTrans(g, g1, g2);
    NewAgreeTrans(g, g2, h);
  }

  lemma NewTempStays(g: Graph)
    requires Ready(g) && OpenBlock(Here(g))
    ensures var h := NewTemp(g).0;
            StaysOpen(g, h) && NewAgree(g, h) && LeavesFinished(g, h) && h.current == g.current && OpenBlock(Here(h))
  {
    SameBlock(g, NewTemp(g).0);
  }

  lemma {:induction false} ArgsAgree(args: seq<Expr>, g: Graph)
    requires Ready(g) && OpenBlock(Here(g))
    ensures ArgsWf(args, g, GenArgs(args, g))
    decreases args
  {
    hide StaysOpen, NewAgree, Touches, OpenBlock, AddInstr, GenExpr, PlainOperand, NoShortCircuitInRightOperand;
    if args == [] {
      ReflSteps(g);
    } else {
      ExprGrows(args[0], g);
      ExprAgrees(args[0], g);
      var (g1, a) := GenExpr(args[0], g);
      OpenStays(g, g1);
      var g2 := AddInstr(g1, Param(a));
      StraightStep(g1, Param(a));
      AddInstrTouches(g1, Param(a));
      OpenStays(g1, g2);
      var h := GenArgs(args[1..], g2);
      ArgsGrow(args[1..], g2);
      ArgsAgree(args[1..], g2);
      GrowsTrans(g, g1, g2);
      GrowsTrans(g, g2, h);
      StaysOpenTrans(g, g1, g2);
      StaysOpenTrans(g, g2, h);
      NewAgreeTrans(g, g1, g2);
      NewAgreeTrans(g, g2, h);
      CurrentNeverReturns(g, g2, h);
      AddInstrSame(g1, Param(a));
      SameLeaves(g, g1, g2);
      LeavesTrans(g, g2, h);
      assert args == [args[0]] + args[1..];
    }
  }

  lemma AddInstrSame(g: Graph, t: Instr)
    requires g.current in g.blocks
    ensures AddInstr(g, t).current == g.current && AddInstr(g, t).blocks.Keys == g.blocks.Keys
  {
  }

  lemma SameLeaves(g: Graph, h: Graph, k: Graph)
    requires LeavesFinished(g, h) && Grows(h, k) && k.current == h.current && g.current in g.blocks && Grows(g, h)
    ensures LeavesFinished(g, k)
  {
    hide Finished;
  }

  lemma ShortGenerated(l: Expr, r: Expr, isAnd: bool, g: Graph)
    ensures var (g1, a) := GenExpr(l, g);
            var (g2, arms) := OpenShortCircuit(g1, isAnd, a);
            var (g3, b) := GenExpr(r, g2);
            GenExpr(if isAnd then And(l, r) else Or(l, r), g) == (CloseShortCircuit(g3, b, arms), Name(arms.result))
  {
    hide OpenShortCircuit, CloseShortCircuit, NewTemp, AddInstr, GenArgs;
  }

  lemma ShortCircuitAgrees(e: Expr, l: Expr, r: Expr, isAnd: bool, g: Graph)
    requires Ready(g) && OpenBlock(Here(g)) && e == (if isAnd then And(l, r) else Or(l, r))
    ensures ExprWf(e, g, GenExpr(e, g).0)
    decreases e, 0
  {
    hide StaysOpen, LeavesFinished, NewAgree, Touches, OpenBlock, AddInstr, OpenShortCircuit, CloseShortCircuit, LeftBranch, Fresh, GenExpr;
    ShortGenerated(l, r, isAnd, g);
    ExprGrows(l, g);
    ExprAgrees(l, g);
    var (g1, a) := GenExpr(l, g);
    OpenStays(g, g1);
    OpenTouches(g1, isAnd, a);
    var (g2, arms) := OpenShortCircuit(g1, isAnd, a);
    ExprGrows(r, g2);
    EmptyOpen(g2);
    ExprAgrees(r, g2);
    var (g3, b) := GenExpr(r, g2);
    ShortCircuitGrows(g1, isAnd, a, g3, b);
    CloseTouches(g2, g3, b, arms);
    var h := CloseShortCircuit(g3, b, arms);
    ShortBlocks(g1, isAnd, a, g2, arms, g3, b, h, r);
    GrowsTrans(g, g1, h);
    LeavesTrans(g, g1, h);
    StaysOpenTrans(g, g1, h);
    NewAgreeTrans(g, g1, h);
    CurrentNeverReturns(g, g1, h);
    if PlainOperand(r) { PlainIsFine(r); }
  }

  lemma EmptyOpen(g: Graph)
    requires Here(g) == EMPTY_BLOCK
    ensures OpenBlock(Here(g))
  {
  }

  /** The heart of the matter: if the right operand opened a block, the block that holds its branch has no
      exits; otherwise all blocks of the operator agree. */
  lemma ShortBlocks(g: Graph, isAnd: bool, a: Operand, g2: Graph, arms: Arms, g3: Graph, b: Operand, h: Graph, r: Expr)
    requires Ready(g) && OpenBlock(Here(g)) && Opened(g, g2, arms) && g2.blocks[g.current] == LeftBranch(Here(g), isAnd, a, arms)
    requires Grows(g2, g3) && Ready(g3) && ExprWf(r, g2, g3) && Grows(g, h) && h.current == arms.join
    requires Touches(g2, h, {arms.rhs, arms.yes, arms.no}) && Touches(g3, h, {g3.current, arms.rhs, arms.yes, arms.no})
    requires h.blocks == CloseRight(g3, b, arms).blocks[arms.yes := ResultBlock(1, arms)][arms.no := ResultBlock(0, arms)]
    requires h.blocks.Keys == g3.blocks.Keys
    requires arms.join in h.blocks && h.blocks[arms.join] == EMPTY_BLOCK && g3.current in h.blocks && h.blocks[g3.current] == CloseCurrent(g3, b, arms)
    ensures StaysOpen(g, h) && LeavesFinished(g, h) && h.current != g.current && (NewAgree(g, h) <==> PlainOperand(r))
  {
    hide Touches, PlainOperand, NoShortCircuitInRightOperand, CloseRight, LeftBranch, NewShaped, Finished;
    assert arms.yes in h.blocks && arms.no in h.blocks && arms.rhs in h.blocks by { ArmsStay(g2, h, arms); }
    ArmBlocks(g3, b, arms, h);
    ShortShaped(g, isAnd, a, g2, arms, g3, b, h);
    if PlainOperand(r) {
      PlainIsFine(r);
      PlainShortBlocks(g, isAnd, a, g2, arms, g3, b, h);
    } else {
      BadBranch(g, g2, arms, g3, b, h);
    }
  }

  lemma ArmBlocks(g3: Graph, b: Operand, arms: Arms, h: Graph)
    requires h.blocks == CloseRight(g3, b, arms).blocks[arms.yes := ResultBlock(1, arms)][arms.no := ResultBlock(0, arms)]
    requires arms.yes != arms.no && arms.rhs !in {arms.yes, arms.no}
    ensures h.blocks[arms.yes] == ResultBlock(1, arms) && h.blocks[arms.no] == ResultBlock(0, arms)
    ensures arms.rhs in h.blocks && h.blocks[arms.rhs] == CloseRight(g3, b, arms).blocks[arms.rhs]
  {
  }

  /** Where a block closed by a short circuit comes from. */
  lemma ShortCases(g: Graph, g2: Graph, arms: Arms, g3: Graph, h: Graph, l: string)
    requires Ready(g) && Opened(g, g2, arms) && h.current == arms.join && h.blocks.Keys == g3.blocks.Keys
    requires Touches(g2, h, {arms.rhs, arms.yes, arms.no}) && Touches(g3, h, {g3.current, arms.rhs, arms.yes, arms.no})
    requires l in h.blocks && l != h.current && NewSince(g, l)
    ensures || (l == g.current && l in g2.blocks && h.blocks[l] == g2.blocks[l])
            || l in {arms.rhs, arms.yes, arms.no}
            || (l !in g2.blocks && l in g3.blocks && (l == g3.current || h.blocks[l] == g3.blocks[l]))
  {
    hide Fresh, NewIn;
  }

  lemma ShortShaped(g: Graph, isAnd: bool, a: Operand, g2: Graph, arms: Arms, g3: Graph, b: Operand, h: Graph)
    requires Ready(g) && OpenBlock(Here(g)) && Opened(g, g2, arms) && g2.blocks[g.current] == LeftBranch(Here(g), isAnd, a, arms)
    requires Grows(g2, g3) && Ready(g3) && StaysOpen(g2, g3) && LeavesFinished(g2, g3) && h.current == arms.join
    requires Touches(g2, h, {arms.rhs, arms.yes, arms.no}) && Touches(g3, h, {g3.current, arms.rhs, arms.yes, arms.no})
    requires h.blocks.Keys == g3.blocks.Keys && arms.yes in h.blocks && arms.no in h.blocks && arms.rhs in h.blocks
    requires h.blocks[arms.yes] == ResultBlock(1, arms) && h.blocks[arms.no] == ResultBlock(0, arms)
    requires h.blocks[arms.rhs] == CloseRight(g3, b, arms).blocks[arms.rhs]
    requires g3.current in h.blocks && h.blocks[g3.current] == CloseCurrent(g3, b, arms)
    ensures NewShaped(g, h, {}) && LeavesFinished(g, h)
  {
    hide Finished, OpenBlock, LeftBranch, CloseCurrent, ResultBlock, CloseRight, Opened, Touches, Shaped;
    LeftKept(g, g2, arms, h);
    LeftFinished(Here(g), isAnd, a, arms);
    ArmsFinished(g2, g3, b, arms);
    forall l | l in h.blocks && l != h.current && NewSince(g, l)
      ensures Shaped(h.blocks[l])
    {
      ShortCases(g, g2, arms, g3, h, l);
      if l == g.current || l in {arms.rhs, arms.yes, arms.no, g3.current} { FinishedShaped(h.blocks[l]); }
    }
  }

  lemma LeftKept(g: Graph, g2: Graph, arms: Arms, h: Graph)
    requires Ready(g) && Opened(g, g2, arms) && Touches(g2, h, {arms.rhs, arms.yes, arms.no})
    ensures g.current in g2.blocks && g.current in h.blocks && h.blocks[g.current] == g2.blocks[g.current]
    ensures g2.current == arms.rhs && arms.rhs in g2.blocks
  {
  }

  lemma FinishedShaped(b: BBlock)
    requires Finished(b)
    ensures Shaped(b)
  {
  }

  lemma LeftFinished(b: BBlock, isAnd: bool, a: Operand, arms: Arms)
    requires OpenBlock(b)
    ensures Finished(LeftBranch(b, isAnd, a, arms))
  {
    LeftAgrees(b, isAnd, a, arms);
  }

  /** The block where the right operand starts is finished, by the branch on its value or one inside the operand. */
  lemma ArmsFinished(g2: Graph, g3: Graph, b: Operand, arms: Arms)
    requires g2.current == arms.rhs && Ready(g3) && StaysOpen(g2, g3) && LeavesFinished(g2, g3) && Grows(g2, g3) && arms.rhs in g2.blocks
    requires g3.current in g3.blocks
    ensures Finished(ResultBlock(1, arms)) && Finished(ResultBlock(0, arms)) && Finished(CloseCurrent(g3, b, arms))
    ensures arms.rhs in CloseRight(g3, b, arms).blocks && Finished(CloseRight(g3, b, arms).blocks[arms.rhs])
  {
    ResultFinished(1, arms);
    ResultFinished(0, arms);
    BranchFinished(Here(g3), arms.no, arms.yes, b);
    RightBlock(g3, b, arms);
    hide Finished, CloseRight, ResultBlock, Touches, NewShaped;
    if g3.current != arms.rhs { FinishedExits(g3.blocks[arms.rhs], To(arms.yes), To(arms.no)); }
  }

  lemma ResultFinished(value: int, arms: Arms)
    ensures Finished(ResultBlock(value, arms))
  {
    ResultAgrees(value, arms);
  }

  lemma FinishedExits(b: BBlock, t: Exit, f: Exit)
    requires Finished(b)
    ensures Finished(b.(trueExit := t, falseExit := f))
  {
  }

  lemma RightBlock(g: Graph, b: Operand, arms: Arms)
    requires g.current in g.blocks && arms.rhs in g.blocks
    ensures arms.rhs in CloseRight(g, b, arms).blocks
    ensures CloseRight(g, b, arms).blocks[arms.rhs] ==
            (if g.current == arms.rhs then Here(g).(instrs := Here(g).instrs + [CondJump(arms.no, b), Jump(arms.yes)]) else g.blocks[arms.rhs])
            .(trueExit := To(arms.yes), falseExit := To(arms.no))
  {
    assert Here(g).instrs + [CondJump(arms.no, b)] + [Jump(arms.yes)] == Here(g).instrs + [CondJump(arms.no, b), Jump(arms.yes)];
  }

  lemma BranchFinished(b: BBlock, no: string, yes: string, a: Operand)
    requires OpenBlock(b)
    ensures forall t, f :: Finished(BBlock(b.instrs + [CondJump(no, a), Jump(yes)], t, f))
  {
    BranchAgrees(b, no, yes, a);
  }

  lemma ArmsStay(g2: Graph, h: Graph, arms: Arms)
    requires ArmsIn(arms, g2) && Touches(g2, h, {arms.rhs, arms.yes, arms.no})
    ensures arms.yes in h.blocks && arms.no in h.blocks && arms.rhs in h.blocks
  {
  }

  lemma BadBranch(g: Graph, g2: Graph, arms: Arms, g3: Graph, b: Operand, h: Graph)
    requires Ready(g) && Opened(g, g2, arms) && Grows(g2, g3) && StaysOpen(g2, g3) && g3.current != g2.current
    requires h.current == arms.join && g3.current in h.blocks && h.blocks[g3.current] == CloseCurrent(g3, b, arms)
    ensures !NewAgree(g, h)
  {
    var bad := h.blocks[g3.current];
    assert g3.current !in g2.blocks && g3.current !in g.blocks && g3.current != h.current;
    assert bad.instrs == Here(g3).instrs + [CondJump(arms.no, b), Jump(arms.yes)];
    assert EndsInBranch(bad.instrs) && bad.trueExit == None;
    assert !Agrees(bad);
  }

  lemma PlainShortBlocks(g: Graph, isAnd: bool, a: Operand, g2: Graph, arms: Arms, g3: Graph, b: Operand, h: Graph)
    requires Ready(g) && OpenBlock(Here(g)) && Opened(g, g2, arms) && g2.blocks[g.current] == LeftBranch(Here(g), isAnd, a, arms)
    requires StaysOpen(g2, g3) && g3.current == g2.current && h.current == arms.join && NewAgree(g2, g3)
    requires Touches(g2, h, {arms.rhs, arms.yes, arms.no}) && Touches(g3, h, {g3.current, arms.rhs, arms.yes, arms.no})
    requires h.blocks.Keys == g3.blocks.Keys && arms.yes in h.blocks && arms.no in h.blocks && arms.rhs in h.blocks
    requires h.blocks[arms.yes] == ResultBlock(1, arms) && h.blocks[arms.no] == ResultBlock(0, arms)
    requires h.blocks[arms.rhs] == CloseCurrent(g3, b, arms)
    ensures NewAgree(g, h)
  {
    hide Agrees, OpenBlock, LeftBranch, CloseCurrent, ResultBlock, Opened, Touches, NewShaped;
    assert OpenBlock(Here(g3));
    LeftKept(g, g2, arms, h);
    LeftAgrees(Here(g), isAnd, a, arms);
    RightAgrees(g3, b, arms);
    ResultAgrees(1, arms);
    ResultAgrees(0, arms);
    forall l | l in h.blocks && l != h.current && NewSince(g, l)
      ensures Agrees(h.blocks[l])
    {
      ShortCases(g, g2, arms, g3, h, l);
    }
  }

  lemma LeftAgrees(b: BBlock, isAnd: bool, a: Operand, arms: Arms)
    requires OpenBlock(b)
    ensures Agrees(LeftBranch(b, isAnd, a, arms))
  {
    BranchAgrees(b, if isAnd then arms.no else arms.rhs, if isAnd then arms.rhs else arms.yes, a);
  }

  lemma RightAgrees(g: Graph, b: Operand, arms: Arms)
    requires OpenBlock(Here(g)) && g.current == arms.rhs
    ensures Agrees(CloseCurrent(g, b, arms))
  {
    BranchAgrees(Here(g), arms.no, arms.yes, b);
  }

  lemma BranchAgrees(b: BBlock, no: string, yes: string, a: Operand)
    requires OpenBlock(b)
    ensures Agrees(BBlock(b.instrs + [CondJump(no, a), Jump(yes)], To(yes), To(no)))
  {
    var ts := b.instrs + [CondJump(no, a), Jump(yes)];
    assert ts[..|ts| - 2] == b.instrs;
  }

  lemma ResultAgrees(value: int, arms: Arms)
    ensures Agrees(ResultBlock(value, arms))
  {
  }

  lemma JumpAgrees(b: BBlock, l: string)
    requires OpenBlock(b)
    ensures Agrees(b.(instrs := b.instrs + [Jump(l)], trueExit := To(l)))
  {
    var ts := b.instrs + [Jump(l)];
    assert ts[..|ts| - 1] == b.instrs;
    assert |ts| >= 2 ==> ts[|ts| - 2] == b.instrs[|b.instrs| - 1];
  }

  // ----- statements -----

  /** As NewAgree, leaving out blocks that are not finished yet. */
  ghost predicate NewAgreeBut(g: Graph, h: Graph, x: set<string>) {
    forall l {:trigger h.blocks[l]} :: l in h.blocks && l != h.current && l !in x && NewSince(g, l) ==> Agrees(h.blocks[l])
  }

  lemma ButNothing(g: Graph, h: Graph)
    ensures NewAgreeBut(g, h, {}) <==> NewAgree(g, h)
  {
  }

  lemma NewAgreeButTrans(g: Graph, h: Graph, k: Graph, x: set<string>)
    requires Grows(g, h) && Grows(h, k) && h.current !in x && forall l :: l in x ==> l in h.blocks
    ensures NewAgreeBut(g, k, x) <==> NewAgreeBut(g, h, x) && NewAgree(h, k)
  {
    forall l | NewAgreeBut(g, h, x) && NewAgree(h, k) && l in k.blocks && l != k.current && l !in x && NewSince(g, l)
      ensures Agrees(k.blocks[l])
    {
      if !NewSince(h, l) { assert k.blocks[l] == h.blocks[l]; }
    }
    forall l | NewAgreeBut(g, k, x) && l in h.blocks && l != h.current && l !in x && NewSince(g, l)
      ensures Agrees(h.blocks[l])
    {
      assert k.blocks[l] == h.blocks[l];
    }
    forall l | NewAgreeBut(g, k, x) && l in k.blocks && l != k.current && NewSince(h, l)
      ensures Agrees(k.blocks[l])
    {
      NewSinceTrans(g, h, l);
    }
  }

  /** The blocks in w, among them the current one of h, are finished or set aside, and generation goes on in
      another block. */
  ghost predicate Closes(h: Graph, k: Graph, w: set<string>, x: set<string>, y: set<string>) {
    && k.blocks.Keys == h.blocks.Keys && h.current in w && k.current in h.blocks && k.current !in w
    && (forall l {:trigger k.blocks[l]} :: l in h.blocks && l !in w ==> k.blocks[l] == h.blocks[l])
    && (forall l {:trigger l in w} :: l in w ==> l in k.blocks && (Agrees(k.blocks[l]) || l in y) && (l == h.current || l in x))
    && (forall l {:trigger l in x} :: l in x ==> l in w || l == k.current)
    && (forall l {:trigger l in y} :: l in y ==> l in w)
    && (k.current in x || Agrees(h.blocks[k.current]))
  }

  lemma CloseStep(g: Graph, h: Graph, k: Graph, w: set<string>, x: set<string>, y: set<string>)
    requires Closes(h, k, w, x, y)
    ensures NewAgreeBut(g, k, y) <==> NewAgreeBut(g, h, x)
    ensures NewShaped(g, h, x) ==> NewShaped(g, k, y)
  {
    hide Agrees, Shaped;
    forall l | NewShaped(g, h, x) && l in k.blocks && l != k.current && l !in y && NewSince(g, l)
      ensures Shaped(k.blocks[l])
    {
      if l in w { AgreesShaped(k.blocks[l]); } else { assert k.blocks[l] == h.blocks[l]; }
    }
    forall l | NewAgreeBut(g, h, x) && l in k.blocks && l != k.current && l !in y && NewSince(g, l)
      ensures Agrees(k.blocks[l])
    {
      if l !in w { assert k.blocks[l] == h.blocks[l]; }
    }
    forall l | NewAgreeBut(g, k, y) && l in h.blocks && l != h.current && l !in x && NewSince(g, l)
      ensures Agrees(h.blocks[l])
    {
      if l != k.current { assert l !in w; assert k.blocks[l] == h.blocks[l]; }
    }
  }

  ghost predicate StmtWf(s: Stmt, g: Graph, h: Graph) {
    StaysOpen(g, h) && (NewAgree(g, h) <==> NoShortCircuitInRightOperandStmt(s))
  }

  lemma {:induction false} StmtAgrees(s: Stmt, g: Graph)
    requires Ready(g) && OpenBlock(Here(g))
    ensures StmtWf(s, g, GenStmt(s, g))
    decreases s
  {
    hide StaysOpen, NewAgree, Touches, OpenBlock, AddInstr, GenExpr, NoShortCircuitInRightOperand;
    match s
    case Assign(x, e) => EffectAgrees(s, e, g, Copy(GenExpr(e, g).1, x));
    case Print(e) => EffectAgrees(s, e, g, PrintTac(GenExpr(e, g).1));
    case ArrayAssign(x, index, e) =>
      var (g1, i) := GenExpr(index, g);
      var (g2, a) := GenExpr(e, g1);
      PairAgrees(ArrayAccess(index, e), index, e, g);
      OpenStays(g, g2);
      StraightAfter(g, g2, ArrayCopy(x, i, a));
    case If(c, thn) => IfAgrees(c, thn, g);
    case IfElse(c, thn, els) => IfElseAgrees(c, thn, els, g);
    case While(c, body) => WhileAgrees(c, body, g);
    case Block(ss) => StmtsAgree(ss, g);
  }

  lemma StraightAfter(g: Graph, h: Graph, t: Instr)
    requires Grows(g, h) && Ready(h) && StaysOpen(g, h) && OpenBlock(Here(h)) && Straight(t)
    ensures StaysOpen(g, AddInstr(h, t)) && (NewAgree(g, AddInstr(h, t)) <==> NewAgree(g, h))
  {
    hide Touches;
    StraightStep(h, t);
    AddInstrTouches(h, t);
    StaysOpenTrans(g, h, AddInstr(h, t));
    NewAgreeTrans(g, h, AddInstr(h, t));
  }

  lemma EffectAgrees(s: Stmt, e: Expr, g: Graph, t: Instr)
    requires Ready(g) && OpenBlock(Here(g)) && Straight(t) && GenStmt(s, g) == AddInstr(GenExpr(e, g).0, t)
    requires NoShortCircuitInRightOperandStmt(s) <==> NoShortCircuitInRightOperand(e)
    ensures StmtWf(s, g, GenStmt(s, g))
  {
    ExprGrows(e, g);
    ExprAgrees(e, g);
    StraightAfter(g, GenExpr(e, g).0, t);
  }

  lemma {:induction false} StmtsAgree(ss: seq<Stmt>, g: Graph)
    requires Ready(g) && OpenBlock(Here(g))
    ensures StaysOpen(g, GenStmts(ss, g))
    ensures NewAgree(g, GenStmts(ss, g)) <==> forall s :: s in ss ==> NoShortCircuitInRightOperandStmt(s)
    decreases ss
  {
    hide StaysOpen, NewAgree, Touches, OpenBlock, GenStmt, NoShortCircuitInRightOperandStmt;
    if ss == [] {
      ReflSteps(g);
    } else {
      var g1 := GenStmt(ss[0], g);
      StmtGrows(ss[0], g);
      StmtAgrees(ss[0], g);
      OpenStays(g, g1);
      StmtsGrow(ss[1..], g1);
      StmtsAgree(ss[1..], g1);
      StaysOpenTrans(g, g1, GenStmts(ss, g));
      NewAgreeTrans(g, g1, GenStmts(ss, g));
      assert ss[0] in ss && GenStmts(ss, g) == GenStmts(ss[1..], g1);
      assert forall s :: s in ss <==> s == ss[0] || s in ss[1..];
    }
  }

  lemma EmptyAgrees()
    ensures Agrees(EMPTY_BLOCK)
  {
  }

  /** New waiting blocks are empty, hence fine. */
  lemma StartAgrees(g: Graph, h: Graph, x: set<string>)
    requires Starts(g, h) && OpenBlock(Here(g))
    requires forall l :: l in h.blocks && l !in g.blocks ==> h.blocks[l] == EMPTY_BLOCK
    ensures NewAgree(g, h) && StaysOpen(g, h) && OpenBlock(Here(h)) && NewShaped(g, h, {})
  {
    EmptyAgrees();
  }

  lemma TwoBlocksEmpty(g: Graph)
    requires Ready(g)
    ensures var g2 := NewBlock(NewBlock(g).0).0;
            forall l :: l in g2.blocks && l !in g.blocks ==> g2.blocks[l] == EMPTY_BLOCK
  {
    NewBlockTouches(g);
    NewBlockTouches(NewBlock(g).0);
  }

  /** The branch closes the current block and the arm starts in an empty one. */
  lemma BranchCloses(h: Graph, cond: Operand, k: Graph, yes: string, no: string, to: string)
    requires Ready(h) && OpenBlock(Here(h)) && Tested(h, cond, k, yes, no) && k.blocks.Keys == h.blocks.Keys
    requires to in h.blocks && to != h.current && h.blocks[to] == EMPTY_BLOCK
    ensures Closes(h, MoveTo(k, to), {h.current}, {}, {})
  {
    BranchAgrees(Here(h), no, yes, cond);
    EmptyAgrees();
  }

  lemma JumpCloses(h: Graph, l: string, to: string)
    requires Ready(h) && OpenBlock(Here(h)) && to in h.blocks && to != h.current && h.blocks[to] == EMPTY_BLOCK
    ensures Closes(h, MoveTo(AddJump(h, l), to), {h.current}, {}, {})
  {
    AddJumpTouches(h, l);
    JumpAgrees(Here(h), l);
    EmptyAgrees();
  }

  lemma IfAgrees(c: Expr, thn: Stmt, g: Graph)
    requires Ready(g) && OpenBlock(Here(g))
    ensures StmtWf(If(c, thn), g, GenStmt(If(c, thn), g))
    decreases If(c, thn), 1
  {
    hide StaysOpen, NewAgree, NewAgreeBut, NewShaped, Touches, OpenBlock, GenExpr, Closes, Fresh, NoShortCircuitInRightOperand;
    var v := IfStages(c, thn, g);
    IfLast(c, thn, g);
    var arm := MoveTo(v.branched, v.yes);
    TwoBlocksEmpty(g);
    StartAgrees(g, v.start, {});
    ExprAgrees(c, v.start);
    NewAgreeTrans(g, v.start, v.tested);
    OpenStays(v.start, v.tested);
    ConditionShaped(g, v.start, v.tested, {});
    WaitedInTested(g, v.tested, v.branched, v.cond, v.yes, v.join, v.yes);
    BranchCloses(v.tested, v.cond, v.branched, v.yes, v.join, v.yes);
    CloseStep(g, v.tested, arm, {v.tested.current}, {}, {});
    ArmAgrees(If(c, thn), thn, g, v.branched, v.yes, v.thenDone);
    WaitedInDone(g, v.branched, v.yes, v.join, v.thenDone);
    JumpCloses(v.thenDone, v.join, v.join);
    CloseStep(g, v.thenDone, v.last, {v.thenDone.current}, {}, {});
    ButNothing(g, v.tested);
    ButNothing(g, arm);
    ButNothing(g, v.thenDone);
    ButNothing(g, v.last);
    EmptyStays(g, v.last, v.join);
  }

  lemma ConditionShaped(g: Graph, h: Graph, k: Graph, x: set<string>)
    requires Grows(g, h) && Grows(h, k) && h.current !in x && NewShaped(g, h, x) && StaysOpen(h, k)
    ensures NewShaped(g, k, x)
  {
    hide Shaped;
    NewShapedTrans(g, h, k, x);
  }

  lemma EmptyStays(g: Graph, h: Graph, l: string)
    requires h.current == l && l in h.blocks && l !in g.blocks && g.current in g.blocks && Here(h) == EMPTY_BLOCK
    requires NewShaped(g, h, {})
    ensures StaysOpen(g, h)
  {
    hide NewShaped;
  }

  /** A block that waits when the branch has been added was waiting before. */
  lemma WaitedInTested(g: Graph, h: Graph, k: Graph, cond: Operand, yes: string, no: string, l: string)
    requires Ready(h) && k == CloseCondition(h, cond, yes, no)
    requires Awaits(g, k, l, EMPTY_BLOCK) && h.current != l
    ensures l in h.blocks && h.blocks[l] == EMPTY_BLOCK && k.blocks.Keys == h.blocks.Keys
  {
    CloseConditionTouches(h, cond, yes, no);
  }

  lemma WaitedInDone(g: Graph, h: Graph, yes: string, l: string, k: Graph)
    requires Awaits(g, h, l, EMPTY_BLOCK) && l != yes && yes in h.blocks && Grows(MoveTo(h, yes), k)
    ensures l in k.blocks && k.blocks[l] == EMPTY_BLOCK && k.current != l
  {
    assert l in MoveTo(h, yes).blocks;
  }

  /** An arm generated from an empty waiting block. */
  lemma ArmAgrees(whole: Stmt, s: Stmt, g: Graph, h: Graph, l: string, k: Graph)
    requires s < whole && Ready(g) && Awaits(g, h, l, EMPTY_BLOCK) && k == GenStmt(s, MoveTo(h, l))
    ensures OpenBlock(Here(k)) && (NewAgree(g, k) <==> NewAgree(g, MoveTo(h, l)) && NoShortCircuitInRightOperandStmt(s))
    ensures NewShaped(g, MoveTo(h, l), {}) ==> NewShaped(g, k, {})
    decreases whole, 0
  {
    hide StaysOpen, NewAgree, NewShaped, Touches, Fresh, GenStmt, NoShortCircuitInRightOperandStmt;
    MoveGrows(g, h, l, EMPTY_BLOCK);
    StmtGrows(s, MoveTo(h, l));
    StmtAgrees(s, MoveTo(h, l));
    OpenStays(MoveTo(h, l), k);
    if NewShaped(g, MoveTo(h, l), {}) { NewShapedTrans(g, MoveTo(h, l), k, {}); }
    NewAgreeTrans(g, MoveTo(h, l), k);
  }

  lemma ThreeBlocksEmpty(g: Graph)
    requires Ready(g)
    ensures var g3 := NewBlock(NewBlock(NewBlock(g).0).0).0;
            forall l :: l in g3.blocks && l !in g.blocks ==> g3.blocks[l] == EMPTY_BLOCK
  {
    var g1, g2 := NewBlock(g).0, NewBlock(NewBlock(g).0).0;
    NewBlockTouches(g);
    NewBlockTouches(g1);
    NewBlockTouches(g2);
  }

  lemma IfElseAgrees(c: Expr, thn: Stmt, els: Stmt, g: Graph)
    requires Ready(g) && OpenBlock(Here(g))
    ensures StmtWf(IfElse(c, thn, els), g, GenStmt(IfElse(c, thn, els), g))
    decreases IfElse(c, thn, els), 1
  {
    hide StaysOpen, NewAgree, NewAgreeBut, NewShaped, Touches, OpenBlock, GenExpr, GenStmt, Closes, Fresh, NoShortCircuitInRightOperand,
      NoShortCircuitInRightOperandStmt, AddJump;
    var v := IfElseStages(c, thn, els, g);
    IfElseLast(c, thn, els, g);
    NoScIfElse(c, thn, els);
    var arm, j := MoveTo(v.branched, v.yes), AddJump(v.thenDone, v.join);
    var other := MoveTo(j, v.no);
    ThreeBlocksEmpty(g);
    StartAgrees(g, v.start, {});
    ExprAgrees(c, v.start);
    NewAgreeTrans(g, v.start, v.tested);
    OpenStays(v.start, v.tested);
    ConditionShaped(g, v.start, v.tested, {});
    WaitedInTested(g, v.tested, v.branched, v.cond, v.yes, v.no, v.yes);
    BranchCloses(v.tested, v.cond, v.branched, v.yes, v.no, v.yes);
    CloseStep(g, v.tested, arm, {v.tested.current}, {}, {});
    ArmAgrees(IfElse(c, thn, els), thn, g, v.branched, v.yes, v.thenDone);
    WaitedInDone(g, v.branched, v.yes, v.no, v.thenDone);
    JumpCloses(v.thenDone, v.join, v.no);
    CloseStep(g, v.thenDone, other, {v.thenDone.current}, {}, {});
    ArmAgrees(IfElse(c, thn, els), els, g, j, v.no, v.elseDone);
    WaitedInDone(g, j, v.no, v.join, v.elseDone);
    JumpCloses(v.elseDone, v.join, v.join);
    CloseStep(g, v.elseDone, v.last, {v.elseDone.current}, {}, {});
    ButNothing(g, v.tested);
    ButNothing(g, arm);
    ButNothing(g, v.thenDone);
    ButNothing(g, other);
    ButNothing(g, v.elseDone);
    ButNothing(g, v.last);
    EmptyStays(g, v.last, v.join);
  }

  lemma NoScIfElse(c: Expr, thn: Stmt, els: Stmt)
    ensures NoShortCircuitInRightOperandStmt(IfElse(c, thn, els)) <==>
            NoShortCircuitInRightOperand(c) && NoShortCircuitInRightOperandStmt(thn) && NoShortCircuitInRightOperandStmt(els)
  {
  }

  lemma WhileAgrees(c: Expr, body: Stmt, g: Graph)
    requires Ready(g) && OpenBlock(Here(g))
    ensures StmtWf(While(c, body), g, GenStmt(While(c, body), g))
    decreases While(c, body), 1
  {
    hide StaysOpen, NewAgree, NewAgreeBut, NewShaped, Touches, OpenBlock, GenExpr, GenStmt, Closes, Fresh, NoShortCircuitInRightOperand, AddJump, OpenLoop;
    var v := WhileStages(c, body, g);
    WhileLast(c, body, g);
    var arm := MoveTo(v.branched, v.loop.body);
    WhileEntry(g, v);
    ExprAgrees(c, v.start);
    OpenStays(v.start, v.tested);
    NewAgreeButTrans(g, v.start, v.tested, {v.loop.body});
    ConditionShaped(g, v.start, v.tested, {v.loop.body});
    LoopBranchCloses(g, v);
    CloseStep(g, v.tested, arm, {v.tested.current}, {v.loop.body}, {v.tested.current});
    LoopArmAgrees(While(c, body), body, g, v);
    LoopCloses(g, v);
    CloseStep(g, v.bodyDone, v.last, {v.bodyDone.current, v.tested.current}, {v.tested.current}, {});
    ButNothing(g, v.last);
    EmptyStays(g, v.last, v.loop.join);
    NoScWhile(c, body);
  }

  lemma NoScWhile(c: Expr, body: Stmt)
    ensures NoShortCircuitInRightOperandStmt(While(c, body)) <==>
            NoShortCircuitInRightOperand(c) && NoShortCircuitInRightOperandStmt(body)
  {
  }

  lemma WhileEntry(g: Graph, v: WhileGraphs)
    requires Ready(g) && OpenBlock(Here(g)) && LoopEntered(g, v) && v.start == OpenLoop(g).0 && v.loop == OpenLoop(g).1
    ensures NewAgreeBut(g, v.start, {v.loop.body}) && OpenBlock(Here(v.start)) && Grows(g, v.start)
    ensures NewShaped(g, v.start, {v.loop.body})
  {
    JumpAgrees(Here(g), v.loop.header);
    EmptyAgrees();
    LoopNewBlocks(g);
    ButShaped(g, v.start, {v.loop.body});
  }

  lemma ButShaped(g: Graph, h: Graph, x: set<string>)
    ensures NewAgreeBut(g, h, x) ==> NewShaped(g, h, x)
  {
    hide Agrees, Shaped;
    forall l | NewAgreeBut(g, h, x) && l in h.blocks && l != h.current && l !in x && NewSince(g, l)
      ensures Shaped(h.blocks[l])
    {
      AgreesShaped(h.blocks[l]);
    }
  }

  lemma LoopNewBlocks(g: Graph)
    requires Ready(g)
    ensures var (h, loop) := OpenLoop(g);
            forall l :: l in h.blocks && l !in g.blocks ==> l in {loop.header, loop.body, loop.join}
  {
    var (g1, header) := NewBlock(g);
    var (g2, body) := NewBlock(g1);
    var g3 := SetTrueExit(g2, body, header);
    var (g4, join) := NewBlock(g3);
  }

  lemma LoopBranchCloses(g: Graph, v: WhileGraphs)
    requires LoopTested(g, v) && Awaits(g, v.branched, v.loop.body, BodyBlock(v.loop)) && v.branched == AddBranch(v.tested, v.cond, v.loop.body, v.loop.join)
    ensures Closes(v.tested, MoveTo(v.branched, v.loop.body), {v.tested.current}, {v.loop.body}, {v.tested.current})
  {
    AddBranchTouches(v.tested, v.cond, v.loop.body, v.loop.join);
  }

  lemma LoopArmAgrees(whole: Stmt, s: Stmt, g: Graph, v: WhileGraphs)
    requires s < whole && Ready(g) && LoopTested(g, v) && LoopFinished(g, v) && v.bodyDone == GenStmt(s, MoveTo(v.branched, v.loop.body))
    ensures OpenBlock(Here(v.bodyDone))
    ensures NewAgreeBut(g, v.bodyDone, {v.tested.current}) <==>
            NewAgreeBut(g, MoveTo(v.branched, v.loop.body), {v.tested.current}) && NoShortCircuitInRightOperandStmt(s)
    ensures NewShaped(g, MoveTo(v.branched, v.loop.body), {v.tested.current}) ==> NewShaped(g, v.bodyDone, {v.tested.current})
    decreases whole, 0
  {
    hide StaysOpen, NewAgree, NewAgreeBut, NewShaped, Touches, Fresh, GenStmt, NoShortCircuitInRightOperandStmt;
    var arm := MoveTo(v.branched, v.loop.body);
    MoveGrows(g, v.branched, v.loop.body, BodyBlock(v.loop));
    StmtGrows(s, arm);
    StmtAgrees(s, arm);
    OpenStays(arm, v.bodyDone);
    if NewShaped(g, arm, {v.tested.current}) { NewShapedTrans(g, arm, v.bodyDone, {v.tested.current}); }
    NewAgreeButTrans(g, arm, v.bodyDone, {v.tested.current});
  }

  lemma LoopCloses(g: Graph, v: WhileGraphs)
    requires LoopTested(g, v) && LoopFinished(g, v) && OpenBlock(Here(v.bodyDone)) && OpenBlock(Here(v.tested))
    requires Grows(MoveTo(v.branched, v.loop.body), v.bodyDone) && Ready(v.bodyDone) && v.loop.body != v.loop.join
    requires v.last == MoveTo(SetExits(AddJump(v.bodyDone, v.loop.header), v.tested.current, v.loop.body, v.loop.join), v.loop.join)
    ensures Closes(v.bodyDone, v.last, {v.bodyDone.current, v.tested.current}, {v.tested.current}, {})
  {
    hide Touches, Fresh, AddJump, Agrees, OpenBlock, Awaits, Grows;
    AddJumpTouches(v.bodyDone, v.loop.header);
    JumpAgrees(Here(v.bodyDone), v.loop.header);
    BranchAgrees(Here(v.tested), v.loop.join, v.loop.body, v.cond);
    EmptyAgrees();
    WaitedInLoop(g, v);
  }

  lemma WaitedInLoop(g: Graph, v: WhileGraphs)
    requires LoopTested(g, v) && Grows(MoveTo(v.branched, v.loop.body), v.bodyDone) && v.loop.body != v.loop.join
    ensures v.loop.join in v.bodyDone.blocks && v.bodyDone.blocks[v.loop.join] == EMPTY_BLOCK && v.tested.current in v.bodyDone.blocks
  {
    assert v.loop.join in MoveTo(v.branched, v.loop.body).blocks;
  }
}

/** A short-circuit operator inside the right operand of another one leaves a dangling label: the code jumps to a block
    that no exit leads to. Proved along the generation of expressions and statements. */
module DanglingLabels {
  import opened Ast
  import opened Tac
  import opened Names
  import opened FlowGraph
  import opened IrGeneration
  import opened GraphGrowth
  import opened WellFormed
  import opened ProgramGeneration
  import opened ExitTargets
  import opened Reachability
  import Source

  /** The blocks of a finished program, and a set of them that its labels do not lead out of. */
  datatype Final = Final(blocks: Blocks, region: set<string>)

  ghost predicate LabelClosed(f: Final) {
    forall l {:trigger l in f.region} :: l in f.region ==> l in f.blocks && LabelsOf(f.blocks[l].instrs) <= f.region
  }

  /** The finished program has all the code of g. */
  ghost predicate Within(g: Graph, f: Final) {
    forall l {:trigger g.blocks[l]} :: l in g.blocks ==> l in f.blocks && g.blocks[l].instrs <= f.blocks[l].instrs
  }

  lemma WithinLess(g: Graph, h: Graph, w: set<string>, f: Final)
    requires Touches(g, h, w) && Within(h, f)
    ensures Within(g, f)
  {
    forall l | l in g.blocks
      ensures l in f.blocks && g.blocks[l].instrs <= f.blocks[l].instrs
    {
      assert l in h.blocks && h.blocks[l].instrs <= f.blocks[l].instrs;
    }
  }

  /** Labels of a reached block are reached. */
  lemma Leads(f: Final, g: Graph, l: string, x: string)
    requires LabelClosed(f) && Within(g, f) && l in g.blocks && l in f.region && x in LabelsOf(g.blocks[l].instrs)
    ensures x in f.region
  {
    var t :| t in g.blocks[l].instrs && x in Labels(t);
    assert t in f.blocks[l].instrs;
  }

  lemma TargetMore(base: set<string>, g: Graph, l: string, x: string)
    requires Target(base, g, l) && l != x
    ensures Target(base + {x}, g, l)
  {
  }

  // ----- the first branch of an operand -----

  /** x is new in h, and no block outside skip has an exit to it. */
  ghost predicate Avoids(skip: set<string>, base: set<string>, g: Graph, h: Graph, x: string) {
    x in h.blocks && x !in g.blocks && Contained(skip, base + {x}, h)
  }

  ghost predicate Branches(h: Graph, from: string, x: string) {
    from in h.blocks && x in LabelsOf(h.blocks[from].instrs)
  }

  /** The block from branches to x, and no other block outside skip has an exit to it. */
  ghost predicate Lonely(skip: set<string>, base: set<string>, from: string, g: Graph, h: Graph, x: string) {
    Avoids(skip + {from}, base, g, h, x) && Branches(h, from, x)
  }

  lemma BranchesLater(h: Graph, k: Graph, w: set<string>, from: string, x: string)
    requires Branches(h, from, x) && Touches(h, k, w)
    ensures Branches(k, from, x)
  {
    var t :| t in h.blocks[from].instrs && x in Labels(t);
    assert t in k.blocks[from].instrs;
  }

  lemma AvoidsFrom(skip: set<string>, base: set<string>, g: Graph, h: Graph, k: Graph, w: set<string>, x: string)
    requires Avoids(skip, base, h, k, x) && Touches(g, h, w)
    ensures Avoids(skip, base, g, k, x)
  {
    hide Contained;
  }

  /** When the left operand is plain, the branch behind it is the first. */
  lemma OpenLonely(skip: set<string>, base: set<string>, g: Graph, isAnd: bool, a: Operand)
    requires Contained(skip, base, g) && Ready(g)
    ensures var (h, arms) := OpenShortCircuit(g, isAnd, a);
            Lonely(skip, base, g.current, g, h, arms.rhs) && (forall y :: y in {arms.yes, arms.no, arms.join} ==> y !in g.blocks)
  {
    hide OpenShortCircuit;
    OpenTouches(g, isAnd, a);
    var (h, arms) := OpenShortCircuit(g, isAnd, a);
    NewArmsNotRoots(g, h, arms);
    OpenedContained(skip, base, g, h, arms);
    var ts := h.blocks[g.current].instrs;
    assert ts == LeftBranch(Here(g), isAnd, a, arms).instrs;
    var t := if isAnd then Jump(arms.rhs) else CondJump(arms.rhs, a);
    assert t == ts[if isAnd then |ts| - 1 else |ts| - 2];
    assert t in ts && arms.rhs in Labels(t);
  }

  lemma NewArmsNotRoots(g: Graph, h: Graph, arms: Arms)
    requires Opened(g, h, arms)
    ensures forall l :: l in {arms.rhs, arms.yes, arms.no, arms.join} ==> l !in g.blocks && l in h.blocks
  {
  }

  lemma OpenedContained(skip: set<string>, base: set<string>, g: Graph, h: Graph, arms: Arms)
    requires Contained(skip, base, g) && Opened(g, h, arms)
    ensures Contained(skip + {g.current}, base + {arms.rhs}, h)
  {
    forall l, y | l in h.blocks && l !in skip + {g.current} && y in Exits(h.blocks[l])
      ensures Target(base + {arms.rhs}, h, y)
    {
      if l in g.blocks { assert Target(base, g, y); }
    }
    forall l | l in h.blocks && l !in skip + {g.current}
      ensures AllClean(h.blocks[l].instrs) && TrueFirst(h.blocks[l])
    {
      if l in g.blocks { assert AllClean(g.blocks[l].instrs) && TrueFirst(g.blocks[l]); }
    }
  }

  // ----- what follows keeps avoiding x -----

  lemma AvoidsExpr(skip: set<string>, base: set<string>, g: Graph, h: Graph, x: string, p: Program, e: Expr)
    requires Avoids(skip, base, g, h, x) && Ready(h) && Source.GoodExpr(p, e)
    ensures Avoids(skip, base, g, GenExpr(e, h).0, x) && Touches(h, GenExpr(e, h).0, {h.current})
  {
    hide Contained, Touches, Fresh;
    ExprGrows(e, h);
    ExprInside(skip, base + {x}, p, e, h);
    StillThere(h, GenExpr(e, h).0, x);
  }

  lemma StillThere(g: Graph, h: Graph, x: string)
    requires Grows(g, h) && x in g.blocks
    ensures x in h.blocks
  {
  }

  lemma AvoidsTemp(skip: set<string>, base: set<string>, g: Graph, h: Graph, x: string, t: Instr)
    requires Avoids(skip, base, g, h, x) && Ready(h) && Clean(t)
    ensures Avoids(skip, base, g, AddInstr(NewTemp(h).0, t), x) && Touches(h, AddInstr(NewTemp(h).0, t), {h.current})
  {
    hide Contained, Touches, Fresh;
    GrowsRefl(h);
    TempInstrGrows(h, h, t);
    TempInside(skip, base + {x}, h, t);
  }

  lemma AvoidsAdd(skip: set<string>, base: set<string>, g: Graph, h: Graph, x: string, t: Instr)
    requires Avoids(skip, base, g, h, x) && Ready(h) && Clean(t)
    ensures Avoids(skip, base, g, AddInstr(h, t), x) && Touches(h, AddInstr(h, t), {h.current})
  {
    hide Contained, Touches, Fresh;
    AddInstrTouches(h, t);
    InsideAdd(skip, base + {x}, h, t);
  }

  lemma AvoidsArgs(skip: set<string>, base: set<string>, g: Graph, h: Graph, x: string, p: Program, args: seq<Expr>)
    requires Avoids(skip, base, g, h, x) && Ready(h) && forall a :: a in args ==> Source.GoodExpr(p, a)
    ensures Avoids(skip, base, g, GenArgs(args, h), x) && Touches(h, GenArgs(args, h), {h.current})
  {
    hide Contained, Touches, Fresh;
    ArgsGrow(args, h);
    ArgsInside(skip, base + {x}, p, args, h);
    StillThere(h, GenArgs(args, h), x);
  }

  lemma AvoidsRest(skip: set<string>, base: set<string>, p: Program, l: Expr, r: Expr, isAnd: bool, g: Graph, x: string) returns (w: set<string>)
    requires Source.GoodExpr(p, r) && Ready(g) && OperandInInt(GenExpr(l, g).1)
    requires Avoids(skip, base, g, GenExpr(l, g).0, x)
    ensures var h := GenExpr(if isAnd then And(l, r) else Or(l, r), g).0;
            Avoids(skip, base, g, h, x) && Touches(GenExpr(l, g).0, h, w)
  {
    hide Contained, Touches, GenExpr, Source.GoodExpr, Fresh;
    RestOfShort(skip, base + {x}, p, l, r, isAnd, g);
    w := ShortTouches(l, r, isAnd, g);
    TouchedStays(GenExpr(l, g).0, GenExpr(if isAnd then And(l, r) else Or(l, r), g).0, w, x);
  }

  lemma TouchedStays(g: Graph, h: Graph, w: set<string>, x: string)
    requires Touches(g, h, w) && x in g.blocks
    ensures x in h.blocks
  {
  }

  /** The rest of a short circuit behind its left operand keeps out of base. */
  lemma RestOfShort(skip: set<string>, base: set<string>, p: Program, l: Expr, r: Expr, isAnd: bool, g: Graph)
    requires Source.GoodExpr(p, r) && Ready(g) && OperandInInt(GenExpr(l, g).1) && Contained(skip, base, GenExpr(l, g).0)
    ensures var h := GenExpr(if isAnd then And(l, r) else Or(l, r), g).0;
            Contained(skip, base, h)
  {
    hide Contained, Fresh, Touches, OpenShortCircuit, CloseShortCircuit, GenExpr, Source.GoodExpr, LeftBranch;
    ShortGenerated(l, r, isAnd, g);
    ExprGrows(l, g);
    var (g1, a) := GenExpr(l, g);
    OpenTouches(g1, isAnd, a);
    InsideOpen(skip, base, g1, isAnd, a);
    var (g2, arms) := OpenShortCircuit(g1, isAnd, a);
    ExprGrows(r, g2);
    ExprInside(skip, base, p, r, g2);
    var (g3, b) := GenExpr(r, g2);
    ArmsApart(g1, g2, g3, arms);
    ArmTargetsStay(base, g2, g3, arms);
    InsideClose(skip, base, g3, b, arms);
  }

  lemma ShortTouches(l: Expr, r: Expr, isAnd: bool, g: Graph) returns (w: set<string>)
    requires Ready(g)
    ensures Touches(GenExpr(l, g).0, GenExpr(if isAnd then And(l, r) else Or(l, r), g).0, w)
  {
    hide Fresh, Touches, OpenShortCircuit, CloseShortCircuit, GenExpr, LeftBranch, CloseRight;
    ShortGenerated(l, r, isAnd, g);
    ExprGrows(l, g);
    var (g1, a) := GenExpr(l, g);
    OpenTouches(g1, isAnd, a);
    var (g2, arms) := OpenShortCircuit(g1, isAnd, a);
    ExprGrows(r, g2);
    var (g3, b) := GenExpr(r, g2);
    CloseTouches(g2, g3, b, arms);
    w := {g1.current} + {arms.rhs, arms.yes, arms.no};
    TouchesTrans(g1, g2, CloseShortCircuit(g3, b, arms), {g1.current}, {arms.rhs, arms.yes, arms.no});
  }

  lemma LonelyExpr(skip: set<string>, base: set<string>, from: string, g: Graph, h: Graph, x: string, p: Program, e: Expr)
    requires Lonely(skip, base, from, g, h, x) && Ready(h) && Source.GoodExpr(p, e)
    ensures Lonely(skip, base, from, g, GenExpr(e, h).0, x)
  {
    hide Avoids, Branches, Touches, Fresh;
    AvoidsExpr(skip + {from}, base, g, h, x, p, e);
    BranchesLater(h, GenExpr(e, h).0, {h.current}, from, x);
  }

  lemma LonelyTemp(skip: set<string>, base: set<string>, from: string, g: Graph, h: Graph, x: string, t: Instr)
    requires Lonely(skip, base, from, g, h, x) && Ready(h) && Clean(t)
    ensures Lonely(skip, base, from, g, AddInstr(NewTemp(h).0, t), x)
  {
    hide Avoids, Branches, Touches, Fresh;
    AvoidsTemp(skip + {from}, base, g, h, x, t);
    BranchesLater(h, AddInstr(NewTemp(h).0, t), {h.current}, from, x);
  }

  lemma LonelyAdd(skip: set<string>, base: set<string>, from: string, g: Graph, h: Graph, x: string, t: Instr)
    requires Lonely(skip, base, from, g, h, x) && Ready(h) && Clean(t)
    ensures Lonely(skip, base, from, g, AddInstr(h, t), x)
  {
    hide Avoids, Branches, Touches, Fresh;
    AvoidsAdd(skip + {from}, base, g, h, x, t);
    BranchesLater(h, AddInstr(h, t), {h.current}, from, x);
  }

  lemma LonelyArgs(skip: set<string>, base: set<string>, from: string, g: Graph, h: Graph, x: string, p: Program, args: seq<Expr>)
    requires Lonely(skip, base, from, g, h, x) && Ready(h) && forall a :: a in args ==> Source.GoodExpr(p, a)
    ensures Lonely(skip, base, from, g, GenArgs(args, h), x)
  {
    hide Avoids, Branches, Touches, Fresh;
    AvoidsArgs(skip + {from}, base, g, h, x, p, args);
    BranchesLater(h, GenArgs(args, h), {h.current}, from, x);
  }

  lemma LonelyFrom(skip: set<string>, base: set<string>, from: string, g: Graph, h: Graph, k: Graph, w: set<string>, x: string)
    requires Lonely(skip, base, from, h, k, x) && Touches(g, h, w)
    ensures Lonely(skip, base, from, g, k, x)
  {
    hide Avoids, Branches, Touches;
    AvoidsFrom(skip + {from}, base, g, h, k, w, x);
  }

  /** The first branch in the code of an operand that has one stands in the block where the operand starts, and
      leads to a block that nothing else leads to. */
  lemma {:induction false} FirstBranch(skip: set<string>, base: set<string>, p: Program, e: Expr, g: Graph) returns (x: string)
    requires Source.GoodExpr(p, e) && Ready(g) && OpenBlock(Here(g)) && Contained(skip, base, g) && !PlainOperand(e)
    ensures Lonely(skip, base, g.current, g, GenExpr(e, g).0, x)
    decreases e
  {
    hide Contained, Touches, Lonely, OpenShortCircuit, CloseShortCircuit, AddInstr, OpenBlock, Fresh;
    match e
    case Binary(op, l, r) =>
      x := PairFirst(skip, base, p, e, l, r, g);
      PairGrows(e, l, r, g);
      PairInside(skip, base, p, e, l, r, g);
      var (g1, a) := GenExpr(l, g);
      var (g2, b) := GenExpr(r, g1);
      TempNotThis(g2.nextTemp);
      LonelyTemp(skip, base, g.current, g, g2, x, Bin(op, NewTemp(g2).1, a, b));
    case ArrayAccess(l, r) =>
      x := PairFirst(skip, base, p, e, l, r, g);
      PairGrows(e, l, r, g);
      PairInside(skip, base, p, e, l, r, g);
      var (g1, a) := GenExpr(l, g);
      var (g2, b) := GenExpr(r, g1);
      TempNotThis(g2.nextTemp);
      LonelyTemp(skip, base, g.current, g, g2, x, Access(NewTemp(g2).1, a, b));
    case Not(r) =>
      x := FirstBranch(skip, base, p, r, g);
      ExprGrows(r, g);
      ExprInside(skip, base, p, r, g);
      var (g1, a) := GenExpr(r, g);
      TempNotThis(g1.nextTemp);
      LonelyTemp(skip, base, g.current, g, g1, x, NotTac(NewTemp(g1).1, a));
    case NewArray(n) => x := TempFirstFirst(skip, base, p, e, n, g);
    case ArrayLength(n) => x := TempFirstFirst(skip, base, p, e, n, g);
    case And(l, r) => x := ShortFirst(skip, base, p, e, l, r, true, g);
    case Or(l, r) => x := ShortFirst(skip, base, p, e, l, r, false, g);
    case Call(r, c, m, args) => x := CallFirst(skip, base, p, e, g);
  }

  lemma PairFirst(skip: set<string>, base: set<string>, p: Program, e: Expr, l: Expr, r: Expr, g: Graph) returns (x: string)
    requires Source.GoodExpr(p, l) && Source.GoodExpr(p, r) && l < e && r < e && !(PlainOperand(l) && PlainOperand(r))
    requires Ready(g) && OpenBlock(Here(g)) && Contained(skip, base, g)
    ensures Lonely(skip, base, g.current, g, GenExpr(r, GenExpr(l, g).0).0, x)
    decreases e, 0
  {
    hide Contained, Touches, Lonely, OpenBlock, Fresh, GenExpr, Source.GoodExpr, PlainOperand;
    var (g1, a) := GenExpr(l, g);
    ExprGrows(l, g);
    if !PlainOperand(l) {
      x := FirstBranch(skip, base, p, l, g);
      LonelyExpr(skip, base, g.current, g, g1, x, p, r);
    } else {
      PlainStays(l, g);
      ExprInside(skip, base, p, l, g);
      x := FirstBranch(skip, base, p, r, g1);
      LonelyFrom(skip, base, g.current, g, g1, GenExpr(r, g1).0, {g.current}, x);
    }
  }

  /** A plain operand opens no block. */
  lemma PlainStays(e: Expr, g: Graph)
    requires Ready(g) && OpenBlock(Here(g)) && PlainOperand(e)
    ensures GenExpr(e, g).0.current == g.current && OpenBlock(Here(GenExpr(e, g).0))
  {
    hide PlainOperand, GenExpr, NoShortCircuitInRightOperand, NewAgree;
    ExprAgrees(e, g);
    OpenStays(g, GenExpr(e, g).0);
  }

  lemma TempFirstFirst(skip: set<string>, base: set<string>, p: Program, e: Expr, n: Expr, g: Graph) returns (x: string)
    requires Source.GoodExpr(p, n) && !PlainOperand(n) && (e == NewArray(n) || e == ArrayLength(n))
    requires Ready(g) && OpenBlock(Here(g)) && Contained(skip, base, g)
    ensures Lonely(skip, base, g.current, g, GenExpr(e, g).0, x)
    decreases e, 0
  {
    hide Contained, Touches, Lonely, AddInstr, Source.GoodExpr, PlainOperand, OpenBlock;
    var (g1, t) := NewTemp(g);
    NewTempGrows(g);
    InsideMove(skip, base, g, g.current);
    assert Here(g1) == Here(g);
    x := FirstBranch(skip, base, p, n, g1);
    ExprGrows(n, g1);
    ExprInside(skip, base, p, n, g1);
    var (g2, a) := GenExpr(n, g1);
    TempNotThis(g.nextTemp);
    LonelyAdd(skip, base, g.current, g1, g2, x, if e.NewArray? then NewArr(t, a) else Length(t, a));
    NewTempTouches(g);
    LonelyFrom(skip, base, g.current, g, g1, GenExpr(e, g).0, {}, x);
  }

  lemma ShortFirst(skip: set<string>, base: set<string>, p: Program, e: Expr, l: Expr, r: Expr, isAnd: bool, g: Graph) returns (x: string)
    requires Source.GoodExpr(p, l) && Source.GoodExpr(p, r) && e == (if isAnd then And(l, r) else Or(l, r))
    requires Ready(g) && OpenBlock(Here(g)) && Contained(skip, base, g)
    ensures Lonely(skip, base, g.current, g, GenExpr(e, g).0, x)
    decreases e, 0
  {
    hide Contained, Touches, Lonely, OpenBlock, Fresh, GenExpr, Source.GoodExpr, PlainOperand;
    var (g1, a) := GenExpr(l, g);
    ExprGrows(l, g);
    ExprInside(skip, base, p, l, g);
    if !PlainOperand(l) {
      x := FirstBranch(skip, base, p, l, g);
      LonelyRest(skip, base, p, l, r, isAnd, g, x);
    } else {
      PlainStays(l, g);
      x := OpenedFirst(skip, base, p, l, r, isAnd, g);
      LonelyFrom(skip, base, g.current, g, g1, GenExpr(e, g).0, {g.current}, x);
    }
  }

  lemma LonelyRest(skip: set<string>, base: set<string>, p: Program, l: Expr, r: Expr, isAnd: bool, g: Graph, x: string)
    requires Source.GoodExpr(p, r) && Ready(g) && OperandInInt(GenExpr(l, g).1)
    requires Lonely(skip, base, g.current, g, GenExpr(l, g).0, x)
    ensures Lonely(skip, base, g.current, g, GenExpr(if isAnd then And(l, r) else Or(l, r), g).0, x)
  {
    hide Avoids, Touches, Branches, GenExpr, Source.GoodExpr, Fresh;
    var w := AvoidsRest(skip + {g.current}, base, p, l, r, isAnd, g, x);
    BranchesLater(GenExpr(l, g).0, GenExpr(if isAnd then And(l, r) else Or(l, r), g).0, w, g.current, x);
  }

  /** A short circuit whose left operand is plain: its own first branch. */
  lemma OpenedFirst(skip: set<string>, base: set<string>, p: Program, l: Expr, r: Expr, isAnd: bool, g: Graph) returns (x: string)
    requires Source.GoodExpr(p, r) && OperandInInt(GenExpr(l, g).1) && Ready(GenExpr(l, g).0) && Contained(skip, base, GenExpr(l, g).0)
    ensures var g1 := GenExpr(l, g).0;
            Lonely(skip, base, g1.current, g1, GenExpr(if isAnd then And(l, r) else Or(l, r), g).0, x)
  {
    hide Contained, Touches, Lonely, Fresh, GenExpr, Source.GoodExpr, OpenShortCircuit, CloseShortCircuit, LeftBranch, LabelsOf, CloseRight;
    var (g1, a) := GenExpr(l, g);
    ShortGenerated(l, r, isAnd, g);
    OpenTouches(g1, isAnd, a);
    OpenLonely(skip, base, g1, isAnd, a);
    InsideOpen(skip, base, g1, isAnd, a);
    var (g2, arms) := OpenShortCircuit(g1, isAnd, a);
    x := arms.rhs;
    LonelyExpr(skip, base, g1.current, g1, g2, x, p, r);
    ExprGrows(r, g2);
    var (g3, b) := GenExpr(r, g2);
    ExprInside(skip, base, p, r, g2);
    ArmsApart(g1, g2, g3, arms);
    OutTargetsMore(base, g2, g3, arms);
    LonelyContained(skip, base, g1.current, g1, g3, x);
    InsideClose(skip + {g1.current}, base + {x}, g3, b, arms);
    CloseTouches(g2, g3, b, arms);
    LonelyClosed(skip, base, g1.current, g1, g3, CloseShortCircuit(g3, b, arms), {g3.current, arms.rhs, arms.yes, arms.no}, x);
  }

  lemma LonelyClosed(skip: set<string>, base: set<string>, from: string, g: Graph, h: Graph, k: Graph, w: set<string>, x: string)
    requires Lonely(skip, base, from, g, h, x) && Touches(h, k, w) && Contained(skip + {from}, base + {x}, k)
    ensures Lonely(skip, base, from, g, k, x)
  {
    hide Contained, Branches;
    BranchesLater(h, k, w, from, x);
  }

  lemma LonelyContained(skip: set<string>, base: set<string>, from: string, g: Graph, h: Graph, x: string)
    requires Lonely(skip, base, from, g, h, x)
    ensures Contained(skip + {from}, base + {x}, h)
  {
  }

  lemma OutTargetsMore(base: set<string>, g: Graph, h: Graph, arms: Arms)
    requires ArmTargets(base, g, arms) && Grows(g, h) && ArmsIn(arms, h)
    ensures OutTargets(base + {arms.rhs}, h, arms)
  {
    hide Touches;
    ArmTargetsStay(base, g, h, arms);
  }

  lemma CallFirst(skip: set<string>, base: set<string>, p: Program, e: Expr, g: Graph) returns (x: string)
    requires e.Call? && Source.GoodExpr(p, e) && !PlainOperand(e)
    requires Ready(g) && OpenBlock(Here(g)) && Contained(skip, base, g)
    ensures Lonely(skip, base, g.current, g, GenExpr(e, g).0, x)
    decreases e, 0
  {
    hide Contained, Touches, Lonely, OpenBlock, Fresh, AddInstr;
    var (g1, a) := GenExpr(e.receiver, g);
    ExprGrows(e.receiver, g);
    ExprInside(skip, base, p, e.receiver, g);
    ArgsGrow(e.args, g1);
    var g2 := GenArgs(e.args, g1);
    if !PlainOperand(e.receiver) {
      x := FirstBranch(skip, base, p, e.receiver, g);
      LonelyArgs(skip, base, g.current, g, g1, x, p, e.args);
    } else {
      PlainStays(e.receiver, g);
      x := ArgsFirst(skip, base, p, e.args, g1);
      LonelyFrom(skip, base, g.current, g, g1, g2, {g.current}, x);
    }
    TempNotThis(g2.nextTemp);
    LonelyTemp(skip, base, g.current, g, g2, x, Invoke(NewTemp(g2).1, a, RootName(e.className, e.methodName), |e.args|));
  }

  lemma {:induction false} ArgsFirst(skip: set<string>, base: set<string>, p: Program, args: seq<Expr>, g: Graph) returns (x: string)
    requires (forall a :: a in args ==> Source.GoodExpr(p, a)) && exists a :: a in args && !PlainOperand(a)
    requires Ready(g) && OpenBlock(Here(g)) && Contained(skip, base, g)
    ensures Lonely(skip, base, g.current, g, GenArgs(args, g), x)
    decreases args
  {
    hide Contained, Touches, Lonely, Fresh, GenExpr, Source.GoodExpr, PlainOperand;
    var (g1, a) := GenExpr(args[0], g);
    ExprGrows(args[0], g);
    ExprInside(skip, base, p, args[0], g);
    AddInstrTouches(g1, Param(a));
    InsideAdd(skip, base, g1, Param(a));
    var g2 := AddInstr(g1, Param(a));
    if !PlainOperand(args[0]) {
      x := FirstBranch(skip, base, p, args[0], g);
      LonelyAdd(skip, base, g.current, g, g1, x, Param(a));
      LonelyArgs(skip, base, g.current, g, g2, x, p, args[1..]);
    } else {
      PlainStays(args[0], g);
      assert OpenBlock(Here(g2));
      x := ArgsFirst(skip, base, p, args[1..], g2);
      GrowsTrans(g, g1, g2);
      LonelyFrom(skip, base, g.current, g, g2, GenArgs(args[1..], g2), {g.current}, x);
    }
  }

  // ----- every violation leaves a dangling label -----

  /** Generation stands at a block that the program's labels lead to. */
  ghost predicate Tracked(f: Final, g: Graph) {
    Ready(g) && OpenBlock(Here(g)) && g.current in f.region
  }

  /** Labels lead to x, which is new, but no exit does. */
  ghost predicate Hit(f: Final, skip: set<string>, base: set<string>, g: Graph, h: Graph, x: string) {
    x in f.region && Avoids(skip, base, g, h, x)
  }

  lemma TempTracked(f: Final, g: Graph, t: Instr)
    requires Tracked(f, g) && Straight(t)
    ensures Tracked(f, AddInstr(NewTemp(g).0, t)) && Tracked(f, AddInstr(g, t)) && Tracked(f, NewTemp(g).0)
  {
    GrowsRefl(g);
    NewTempGrows(g);
    TempInstrGrows(g, g, t);
    AddInstrTouches(g, t);
  }

  lemma {:induction false} ExprHits(f: Final, skip: set<string>, base: set<string>, p: Program, e: Expr, g: Graph) returns (x: string)
    requires Source.GoodExpr(p, e) && LabelClosed(f) && Tracked(f, g) && Contained(skip, base, g) && Within(GenExpr(e, g).0, f)
    ensures Tracked(f, GenExpr(e, g).0)
    ensures !NoShortCircuitInRightOperand(e) ==> Hit(f, skip, base, g, GenExpr(e, g).0, x)
    decreases e
  {
    hide Contained, Touches, Tracked, Hit, Within, LabelClosed, OpenShortCircuit, CloseShortCircuit, AddInstr, Fresh;
    x := "";
    match e
    case Binary(op, l, r) =>
      var (g1, a) := GenExpr(l, g);
      var (g2, b) := GenExpr(r, g1);
      x := PairHits(f, skip, base, p, e, l, r, g, Bin(op, NewTemp(g2).1, a, b));
    case ArrayAccess(l, r) =>
      var (g1, a) := GenExpr(l, g);
      var (g2, b) := GenExpr(r, g1);
      x := PairHits(f, skip, base, p, e, l, r, g, Access(NewTemp(g2).1, a, b));
    case Not(r) => x := NotHits(f, skip, base, p, r, g);
    case NewObject(c) => TempTracked(f, g, New(NewTemp(g).1, c));
    case NewArray(n) => x := TempFirstHits(f, skip, base, p, e, n, g);
    case ArrayLength(n) => x := TempFirstHits(f, skip, base, p, e, n, g);
    case And(l, r) => x := ShortHits(f, skip, base, p, e, l, r, true, g);
    case Or(l, r) => x := ShortHits(f, skip, base, p, e, l, r, false, g);
    case Call(r, c, m, args) => x := CallHits(f, skip, base, p, e, g);
    case IntLit(_) =>
    case BoolLit(_) =>
    case Ident(_) =>
    case This =>
  }

  lemma TrackedReady(f: Final, g: Graph)
    requires Tracked(f, g)
    ensures Ready(g) && OpenBlock(Here(g))
  {
  }

  lemma BothHits(f: Final, skip: set<string>, base: set<string>, p: Program, e: Expr, l: Expr, r: Expr, g: Graph) returns (x: string)
    requires Source.GoodExpr(p, l) && Source.GoodExpr(p, r) && l < e && r < e
    requires LabelClosed(f) && Tracked(f, g) && Contained(skip, base, g) && Within(GenExpr(r, GenExpr(l, g).0).0, f)
    ensures var g2 := GenExpr(r, GenExpr(l, g).0).0;
            Tracked(f, g2) && (!NoShortCircuitInRightOperand(l) || !NoShortCircuitInRightOperand(r) ==> Hit(f, skip, base, g, g2, x))
    decreases e, 0
  {
    hide Contained, Touches, Tracked, Avoids, Within, LabelClosed, Fresh, GenExpr, Source.GoodExpr, OpenBlock, NoShortCircuitInRightOperand;
    var g1, g2 := GenExpr(l, g).0, GenExpr(r, GenExpr(l, g).0).0;
    TrackedReady(f, g);
    ExprGrows(l, g);
    ExprGrows(r, g1);
    ExprInside(skip, base, p, l, g);
    WithinLess(g1, g2, {g1.current}, f);
    var x1 := ExprHits(f, skip, base, p, l, g);
    x := ExprHits(f, skip, base, p, r, g1);
    if !NoShortCircuitInRightOperand(l) {
      x := x1;
      AvoidsExpr(skip, base, g, g1, x, p, r);
    } else if !NoShortCircuitInRightOperand(r) {
      AvoidsFrom(skip, base, g, g1, g2, {g.current}, x);
    }
  }

  /** Two operands and the instruction that combines them. */
  lemma PairHits(f: Final, skip: set<string>, base: set<string>, p: Program, e: Expr, l: Expr, r: Expr, g: Graph, t: Instr) returns (x: string)
    requires Source.GoodExpr(p, l) && Source.GoodExpr(p, r) && l < e && r < e
    requires var g2 := GenExpr(r, GenExpr(l, g).0).0;
             && (t.Bin? || t.Access?) && t.result == NewTemp(g2).1 && t.lhs == GenExpr(l, g).1 && t.rhs == GenExpr(r, GenExpr(l, g).0).1
             && Within(AddInstr(NewTemp(g2).0, t), f)
    requires LabelClosed(f) && Tracked(f, g) && Contained(skip, base, g)
    ensures var h := AddInstr(NewTemp(GenExpr(r, GenExpr(l, g).0).0).0, t);
            Tracked(f, h) && (!NoShortCircuitInRightOperand(l) || !NoShortCircuitInRightOperand(r) ==> Hit(f, skip, base, g, h, x))
    decreases e, 1
  {
    hide Contained, Touches, Tracked, Avoids, Within, LabelClosed, Fresh, AddInstr, GenExpr, Source.GoodExpr, OpenBlock, NoShortCircuitInRightOperand;
    var g2 := GenExpr(r, GenExpr(l, g).0).0;
    TrackedReady(f, g);
    PairGrows(e, l, r, g);
    PairInside(skip, base, p, e, l, r, g);
    TempNotThis(g2.nextTemp);
    GrowsRefl(g2);
    TempInstrGrows(g2, g2, t);
    WithinLess(g2, AddInstr(NewTemp(g2).0, t), {g2.current}, f);
    x := BothHits(f, skip, base, p, e, l, r, g);
    TempTracked(f, g2, t);
    if !NoShortCircuitInRightOperand(l) || !NoShortCircuitInRightOperand(r) { AvoidsTemp(skip, base, g, g2, x, t); }
  }

  lemma NotHits(f: Final, skip: set<string>, base: set<string>, p: Program, r: Expr, g: Graph) returns (x: string)
    requires Source.GoodExpr(p, r) && LabelClosed(f) && Tracked(f, g) && Contained(skip, base, g) && Within(GenExpr(Not(r), g).0, f)
    ensures Tracked(f, GenExpr(Not(r), g).0)
    ensures !NoShortCircuitInRightOperand(r) ==> Hit(f, skip, base, g, GenExpr(Not(r), g).0, x)
    decreases Not(r), 0
  {
    hide Contained, Touches, Tracked, Avoids, Within, LabelClosed, Fresh, AddInstr, OpenBlock;
    TrackedReady(f, g);
    ExprGrows(r, g);
    ExprInside(skip, base, p, r, g);
    var (g1, a) := GenExpr(r, g);
    var t := NotTac(NewTemp(g1).1, a);
    TempNotThis(g1.nextTemp);
    GrowsRefl(g1);
    TempInstrGrows(g1, g1, t);
    WithinLess(g1, AddInstr(NewTemp(g1).0, t), {g1.current}, f);
    x := ExprHits(f, skip, base, p, r, g);
    TempTracked(f, g1, t);
    if !NoShortCircuitInRightOperand(r) { AvoidsTemp(skip, base, g, g1, x, t); }
  }

  lemma TempFirstHits(f: Final, skip: set<string>, base: set<string>, p: Program, e: Expr, n: Expr, g: Graph) returns (x: string)
    requires Source.GoodExpr(p, n) && (e == NewArray(n) || e == ArrayLength(n))
    requires LabelClosed(f) && Tracked(f, g) && Contained(skip, base, g) && Within(GenExpr(e, g).0, f)
    ensures Tracked(f, GenExpr(e, g).0)
    ensures !NoShortCircuitInRightOperand(n) ==> Hit(f, skip, base, g, GenExpr(e, g).0, x)
    decreases e, 0
  {
    hide Contained, Touches, Tracked, Avoids, Within, LabelClosed, Fresh, AddInstr, OpenBlock;
    TrackedReady(f, g);
    var (g1, t) := NewTemp(g);
    NewTempGrows(g);
    NewTempTouches(g);
    InsideMove(skip, base, g, g.current);
    TempTracked(f, g, New(t, ""));
    ExprGrows(n, g1);
    ExprInside(skip, base, p, n, g1);
    var (g2, a) := GenExpr(n, g1);
    var i := if e.NewArray? then NewArr(t, a) else Length(t, a);
    TempNotThis(g.nextTemp);
    AddInstrTouches(g2, i);
    WithinLess(g2, AddInstr(g2, i), {g2.current}, f);
    x := ExprHits(f, skip, base, p, n, g1);
    TempTracked(f, g2, i);
    if !NoShortCircuitInRightOperand(n) {
      AvoidsAdd(skip, base, g1, g2, x, i);
      AvoidsFrom(skip, base, g, g1, AddInstr(g2, i), {}, x);
    }
  }

  lemma CallHits(f: Final, skip: set<string>, base: set<string>, p: Program, e: Expr, g: Graph) returns (x: string)
    requires e.Call? && Source.GoodExpr(p, e) && LabelClosed(f) && Tracked(f, g) && Contained(skip, base, g) && Within(GenExpr(e, g).0, f)
    ensures Tracked(f, GenExpr(e, g).0)
    ensures !NoShortCircuitInRightOperand(e) ==> Hit(f, skip, base, g, GenExpr(e, g).0, x)
    decreases e, 0
  {
    hide Contained, Touches, Tracked, Avoids, Within, LabelClosed, Fresh, AddInstr, OpenBlock;
    TrackedReady(f, g);
    var (g1, a) := GenExpr(e.receiver, g);
    ExprGrows(e.receiver, g);
    ExprInside(skip, base, p, e.receiver, g);
    ArgsGrow(e.args, g1);
    var g2 := GenArgs(e.args, g1);
    var t := Invoke(NewTemp(g2).1, a, RootName(e.className, e.methodName), |e.args|);
    TempNotThis(g2.nextTemp);
    GrowsRefl(g2);
    TempInstrGrows(g2, g2, t);
    WithinLess(g2, AddInstr(NewTemp(g2).0, t), {g2.current}, f);
    WithinLess(g1, g2, {g1.current}, f);
    var x1 := ExprHits(f, skip, base, p, e.receiver, g);
    var x2 := ArgsHits(f, skip, base, p, e.args, g1);
    TempTracked(f, g2, t);
    x := x2;
    if !NoShortCircuitInRightOperand(e.receiver) {
      x := x1;
      AvoidsArgs(skip, base, g, g1, x, p, e.args);
    } else if !NoShortCircuitInRightOperand(e) {
      AvoidsFrom(skip, base, g, g1, g2, {g.current}, x);
    }
    if !NoShortCircuitInRightOperand(e) { AvoidsTemp(skip, base, g, g2, x, t); }
  }

  lemma {:induction false} ArgsHits(f: Final, skip: set<string>, base: set<string>, p: Program, args: seq<Expr>, g: Graph) returns (x: string)
    requires (forall a :: a in args ==> Source.GoodExpr(p, a)) && LabelClosed(f) && Tracked(f, g) && Contained(skip, base, g) && Within(GenArgs(args, g), f)
    ensures Tracked(f, GenArgs(args, g))
    ensures (exists a :: a in args && !NoShortCircuitInRightOperand(a)) ==> Hit(f, skip, base, g, GenArgs(args, g), x)
    decreases args
  {
    hide Contained, Touches, Tracked, Avoids, Within, LabelClosed, Fresh, AddInstr, OpenBlock, GenExpr, NoShortCircuitInRightOperand;
    x := "";
    if args != [] {
      TrackedReady(f, g);
      var (g1, a) := GenExpr(args[0], g);
      ExprGrows(args[0], g);
      ExprInside(skip, base, p, args[0], g);
      AddInstrTouches(g1, Param(a));
      InsideAdd(skip, base, g1, Param(a));
      var g2 := AddInstr(g1, Param(a));
      ParamReady(g1, a);
      ArgsGrow(args[1..], g2);
      var h := GenArgs(args[1..], g2);
      WithinLess(g2, h, {g2.current}, f);
      WithinLess(g1, g2, {g1.current}, f);
      var x1 := ExprHits(f, skip, base, p, args[0], g);
      TempTracked(f, g1, Param(a));
      x := ArgsHits(f, skip, base, p, args[1..], g2);
      if !NoShortCircuitInRightOperand(args[0]) {
        x := x1;
        AvoidsAdd(skip, base, g, g1, x, Param(a));
        AvoidsArgs(skip, base, g, g2, x, p, args[1..]);
      } else if exists a :: a in args && !NoShortCircuitInRightOperand(a) {
        GrowsTrans(g, g1, g2);
        AvoidsFrom(skip, base, g, g2, h, {g.current}, x);
      }
    }
  }

  lemma ParamReady(g: Graph, a: Operand)
    requires Ready(g)
    ensures Ready(AddInstr(g, Param(a)))
  {
    AddInstrTouches(g, Param(a));
  }

  // ----- short circuits -----

  /** The exits of the block where the right operand started are overwritten at the end, so y is left without any. */
  lemma CloseOverwrites(skip: set<string>, base: set<string>, g: Graph, h: Graph, b: Operand, arms: Arms, y: string)
    requires ArmsIn(arms, g) && g.current == arms.rhs && Grows(g, h) && Ready(h) && h.current != arms.rhs && OperandInInt(b) && arms.result != "this"
    requires g.blocks[arms.yes] == g.blocks[arms.no] == g.blocks[arms.join] == EMPTY_BLOCK
    requires ArmTargets(base, g, arms) && Lonely(skip, base, arms.rhs, g, h, y) && Contained(skip, base, CloseShortCircuit(h, b, arms))
    ensures Avoids(skip, base, g, CloseShortCircuit(h, b, arms), y)
  {
    hide Contained, Touches, CloseShortCircuit, CloseRight, LabelsOf;
    var k := CloseShortCircuit(h, b, arms);
    CloseTouches(g, h, b, arms);
    ArmsLeft(g, h, arms);
    OutTargetsStay(base, g, h, arms, y);
    InsideClose(skip + {arms.rhs}, base + {y}, h, b, arms);
    TouchedStays(h, k, {h.current, arms.rhs, arms.yes, arms.no}, y);
    TouchedOut(base + {y}, h, k, {h.current, arms.rhs, arms.yes, arms.no}, arms);
    Overwritten(skip, base, k, h.blocks[arms.rhs], arms, y);
  }

  lemma ArmsLeft(g: Graph, h: Graph, arms: Arms)
    requires ArmsIn(arms, g) && g.current == arms.rhs && Grows(g, h) && h.current != arms.rhs
    ensures ArmsIn(arms, h) && h.current !in {arms.yes, arms.no, arms.join}
  {
  }

  lemma OutTargetsStay(base: set<string>, g: Graph, h: Graph, arms: Arms, y: string)
    requires ArmTargets(base, g, arms) && Grows(g, h) && y !in g.blocks
    ensures OutTargets(base + {y}, h, arms)
  {
    hide Touches;
    ArmTargetsStay(base, g, h, arms);
  }

  lemma TouchedOut(base: set<string>, g: Graph, h: Graph, w: set<string>, arms: Arms)
    requires OutTargets(base, g, arms) && Touches(g, h, w)
    ensures OutTargets(base, h, arms)
  {
  }

  lemma Overwritten(skip: set<string>, base: set<string>, k: Graph, b: BBlock, arms: Arms, y: string)
    requires Contained(skip, base, k) && Contained(skip + {arms.rhs}, base + {y}, k) && OutTargets(base + {y}, k, arms)
    requires arms.rhs in k.blocks && k.blocks[arms.rhs] == b.(trueExit := To(arms.yes), falseExit := To(arms.no))
    ensures Contained(skip, base + {y}, k)
  {
    forall l, z | l in k.blocks && l !in skip && z in Exits(k.blocks[l])
      ensures Target(base + {y}, k, z)
    {
      if l != arms.rhs { assert l !in skip + {arms.rhs}; }
    }
  }

  lemma ShortHits(f: Final, skip: set<string>, base: set<string>, p: Program, e: Expr, l: Expr, r: Expr, isAnd: bool, g: Graph) returns (x: string)
    requires Source.GoodExpr(p, l) && Source.GoodExpr(p, r) && e == (if isAnd then And(l, r) else Or(l, r))
    requires LabelClosed(f) && Tracked(f, g) && Contained(skip, base, g) && Within(GenExpr(e, g).0, f)
    ensures Tracked(f, GenExpr(e, g).0)
    ensures !NoShortCircuitInRightOperand(l) || !PlainOperand(r) ==> Hit(f, skip, base, g, GenExpr(e, g).0, x)
    decreases e, 0
  {
    hide Contained, Touches, Tracked, Avoids, Within, LabelClosed, Fresh, OpenBlock, GenExpr, Source.GoodExpr, NoShortCircuitInRightOperand, PlainOperand, Branches,
      OpenShortCircuit, CloseShortCircuit, LeftBranch, CloseRight, ArmTargets, ResultBlock;
    TrackedReady(f, g);
    ShortGenerated(l, r, isAnd, g);
    ExprGrows(l, g);
    ExprInside(skip, base, p, l, g);
    var (g1, a) := GenExpr(l, g);
    var h := GenExpr(e, g).0;
    var w := ShortTouches(l, r, isAnd, g);
    WithinLess(g1, h, w, f);
    var x1 := ExprHits(f, skip, base, p, l, g);
    OpenTouches(g1, isAnd, a);
    InsideOpen(skip, base, g1, isAnd, a);
    OpenLonely(skip, base, g1, isAnd, a);
    var (g2, arms) := OpenShortCircuit(g1, isAnd, a);
    ExprGrows(r, g2);
    var (g3, b) := GenExpr(r, g2);
    CloseTouches(g2, g3, b, arms);
    WithinLess(g2, h, {arms.rhs, arms.yes, arms.no}, f);
    WithinLess(g3, h, {g3.current, arms.rhs, arms.yes, arms.no}, f);
    OpenTracked(f, g1, g2, arms);
    var x2 := ExprHits(f, skip, base, p, r, g2);
    ExprInside(skip, base, p, r, g2);
    CloseTracked(f, g3, h, b, arms);
    x := x1;
    if !NoShortCircuitInRightOperand(l) {
      var v := AvoidsRest(skip, base, p, l, r, isAnd, g, x1);
    } else if !PlainOperand(r) {
      TrackedReady(f, g2);
      x := FirstBranch(skip, base, p, r, g2);
      NotPlainMoves(r, g2);
      RestOfShort(skip, base, p, l, r, isAnd, g);
      CloseOverwrites(skip, base, g2, g3, b, arms, x);
      BranchReached(f, g2, g3, arms.rhs, x);
      AvoidsFrom(skip, base, g1, g2, h, {g1.current}, x);
      AvoidsFrom(skip, base, g, g1, h, {g.current}, x);
    }
  }

  lemma OpenTracked(f: Final, g: Graph, h: Graph, arms: Arms)
    requires LabelClosed(f) && Tracked(f, g) && Opened(g, h, arms) && Within(h, f) && Branches(h, g.current, arms.rhs)
    ensures Tracked(f, h)
  {
    hide Touches, LabelClosed, Within, LabelsOf;
    Leads(f, h, g.current, arms.rhs);
  }

  lemma BranchReached(f: Final, g: Graph, h: Graph, from: string, x: string)
    requires LabelClosed(f) && Tracked(f, g) && g.current == from && Within(h, f) && Branches(h, from, x)
    ensures x in f.region
  {
    hide LabelClosed, Within, LabelsOf, OpenBlock;
    Leads(f, h, from, x);
  }

  lemma NotPlainMoves(e: Expr, g: Graph)
    requires Ready(g) && OpenBlock(Here(g)) && !PlainOperand(e)
    ensures GenExpr(e, g).0.current != g.current
  {
    hide PlainOperand, GenExpr, NoShortCircuitInRightOperand, NewAgree, StaysOpen;
    ExprAgrees(e, g);
  }

  /** Behind a short circuit: from the branch to an arm, and from there to the joining block. */
  lemma CloseTracked(f: Final, g: Graph, k: Graph, b: Operand, arms: Arms)
    requires LabelClosed(f) && Tracked(f, g) && Within(k, f) && Ready(k) && k.current == arms.join && k.blocks[arms.join] == EMPTY_BLOCK
    requires g.current in k.blocks && k.blocks[g.current] == CloseCurrent(g, b, arms)
    requires arms.yes in k.blocks && k.blocks[arms.yes] == ResultBlock(1, arms)
    ensures Tracked(f, k)
  {
    hide LabelClosed, Within, Fresh;
    var ts := k.blocks[g.current].instrs;
    assert ts[|ts| - 1] == Jump(arms.yes) && arms.yes in Labels(ts[|ts| - 1]);
    Leads(f, k, g.current, arms.yes);
    var us := k.blocks[arms.yes].instrs;
    assert us[1] == Jump(arms.join) && arms.join in Labels(us[1]);
    Leads(f, k, arms.yes, arms.join);
  }

  // ----- statements -----

  lemma {:induction false} StmtHits(f: Final, skip: set<string>, base: set<string>, p: Program, s: Stmt, g: Graph) returns (x: string)
    requires Source.GoodStmt(p, s) && LabelClosed(f) && Tracked(f, g) && Contained(skip, base, g) && Within(GenStmt(s, g), f)
    ensures Tracked(f, GenStmt(s, g))
    ensures !NoShortCircuitInRightOperandStmt(s) ==> Hit(f, skip, base, g, GenStmt(s, g), x)
    decreases s
  {
    hide Contained, Touches, Tracked, Hit, Within, LabelClosed, AddInstr, GenExpr, Fresh, NoShortCircuitInRightOperand, Source.GoodExpr;
    match s
    case Assign(y, e) => x := EffectHits(f, skip, base, p, e, g, Copy(GenExpr(e, g).1, y));
    case Print(e) => x := EffectHits(f, skip, base, p, e, g, PrintTac(GenExpr(e, g).1));
    case ArrayAssign(y, index, e) => x := ArrayAssignHits(f, skip, base, p, y, index, e, g);
    case If(c, thn) => x := IfHits(f, skip, base, p, c, thn, g);
    case IfElse(c, thn, els) => x := IfElseHits(f, skip, base, p, c, thn, els, g);
    case While(c, body) => x := WhileHits(f, skip, base, p, c, body, g);
    case Block(ss) => x := StmtsHits(f, skip, base, p, ss, g);
  }

  lemma {:induction false} StmtsHits(f: Final, skip: set<string>, base: set<string>, p: Program, ss: seq<Stmt>, g: Graph) returns (x: string)
    requires (forall s :: s in ss ==> Source.GoodStmt(p, s)) && LabelClosed(f) && Tracked(f, g) && Contained(skip, base, g) && Within(GenStmts(ss, g), f)
    ensures Tracked(f, GenStmts(ss, g))
    ensures (exists s :: s in ss && !NoShortCircuitInRightOperandStmt(s)) ==> Hit(f, skip, base, g, GenStmts(ss, g), x)
    decreases ss
  {
    hide Contained, Touches, Tracked, Avoids, Within, LabelClosed, GenStmt, Fresh, NoShortCircuitInRightOperandStmt, Source.GoodStmt;
    x := "";
    if ss != [] {
      TrackedReady(f, g);
      var g1 := GenStmt(ss[0], g);
      StmtGrows(ss[0], g);
      StmtInside(skip, base, p, ss[0], g);
      StmtsGrow(ss[1..], g1);
      var h := GenStmts(ss[1..], g1);
      WithinLess(g1, h, {g1.current}, f);
      var x1 := StmtHits(f, skip, base, p, ss[0], g);
      x := StmtsHits(f, skip, base, p, ss[1..], g1);
      if !NoShortCircuitInRightOperandStmt(ss[0]) {
        x := x1;
        AvoidsStmts(skip, base, g, g1, x, p, ss[1..]);
      } else if exists s :: s in ss && !NoShortCircuitInRightOperandStmt(s) {
        AvoidsFrom(skip, base, g, g1, h, {g.current}, x);
      }
    }
  }

  lemma AvoidsStmts(skip: set<string>, base: set<string>, g: Graph, h: Graph, x: string, p: Program, ss: seq<Stmt>)
    requires Avoids(skip, base, g, h, x) && Ready(h) && forall s :: s in ss ==> Source.GoodStmt(p, s)
    ensures Avoids(skip, base, g, GenStmts(ss, h), x)
  {
    hide Contained, Touches, Fresh;
    StmtsGrow(ss, h);
    StmtsInside(skip, base + {x}, p, ss, h);
    StillThere(h, GenStmts(ss, h), x);
  }

  lemma EffectHits(f: Final, skip: set<string>, base: set<string>, p: Program, e: Expr, g: Graph, t: Instr) returns (x: string)
    requires Source.GoodExpr(p, e) && LabelClosed(f) && Tracked(f, g) && Contained(skip, base, g) && Within(AddInstr(GenExpr(e, g).0, t), f)
    requires Straight(t) && (OperandInInt(GenExpr(e, g).1) ==> Clean(t))
    ensures Tracked(f, AddInstr(GenExpr(e, g).0, t))
    ensures !NoShortCircuitInRightOperand(e) ==> Hit(f, skip, base, g, AddInstr(GenExpr(e, g).0, t), x)
  {
    hide Contained, Touches, Tracked, Avoids, Within, LabelClosed, AddInstr, GenExpr, Fresh, Clean;
    TrackedReady(f, g);
    ExprGrows(e, g);
    ExprInside(skip, base, p, e, g);
    var g1 := GenExpr(e, g).0;
    AddInstrTouches(g1, t);
    WithinLess(g1, AddInstr(g1, t), {g1.current}, f);
    x := ExprHits(f, skip, base, p, e, g);
    TempTracked(f, g1, t);
    if !NoShortCircuitInRightOperand(e) { AvoidsAdd(skip, base, g, g1, x, t); }
  }

  lemma ArrayAssignHits(f: Final, skip: set<string>, base: set<string>, p: Program, y: string, index: Expr, e: Expr, g: Graph) returns (x: string)
    requires Source.GoodExpr(p, index) && Source.GoodExpr(p, e) && LabelClosed(f) && Tracked(f, g) && Contained(skip, base, g)
    requires Within(GenStmt(ArrayAssign(y, index, e), g), f)
    ensures Tracked(f, GenStmt(ArrayAssign(y, index, e), g))
    ensures !NoShortCircuitInRightOperand(index) || !NoShortCircuitInRightOperand(e) ==> Hit(f, skip, base, g, GenStmt(ArrayAssign(y, index, e), g), x)
  {
    hide Contained, Touches, Tracked, Avoids, Within, LabelClosed, AddInstr, GenExpr, Fresh, Source.GoodExpr;
    TrackedReady(f, g);
    var pair := ArrayAccess(index, e);
    PairGrows(pair, index, e, g);
    PairInside(skip, base, p, pair, index, e, g);
    var (g1, i) := GenExpr(index, g);
    var (g2, a) := GenExpr(e, g1);
    var t := ArrayCopy(y, i, a);
    AddInstrTouches(g2, t);
    WithinLess(g2, AddInstr(g2, t), {g2.current}, f);
    x := BothHits(f, skip, base, p, pair, index, e, g);
    TempTracked(f, g2, t);
    if !NoShortCircuitInRightOperand(index) || !NoShortCircuitInRightOperand(e) { AvoidsAdd(skip, base, g, g2, x, t); }
  }

  /** A condition from h and its branch. */
  lemma TestHits(f: Final, skip: set<string>, base: set<string>, p: Program, c: Expr, h: Graph, yes: string, no: string) returns (x: string)
    requires Source.GoodExpr(p, c) && LabelClosed(f) && Tracked(f, h) && Contained(skip, base, h) && Target(base, h, yes) && Target(base, h, no)
    requires var (k, a) := GenExpr(c, h);
             Tested(k, a, CloseCondition(k, a, yes, no), yes, no) && Within(CloseCondition(k, a, yes, no), f)
    ensures var (k, a) := GenExpr(c, h);
            && yes in f.region && no in f.region
            && (!NoShortCircuitInRightOperand(c) ==> Hit(f, skip, base, h, CloseCondition(k, a, yes, no), x))
  {
    hide Contained, Touches, Within, LabelClosed, GenExpr, Fresh, Source.GoodExpr, CloseCondition, OpenBlock, Target;
    TrackedReady(f, h);
    var (k, a) := GenExpr(c, h);
    var b := CloseCondition(k, a, yes, no);
    ExprGrows(c, h);
    ExprInside(skip, base, p, c, h);
    WithinLess(k, b, {k.current}, f);
    x := ExprHits(f, skip, base, p, c, h);
    BranchLeads(f, b, k.current, a, yes, no);
    if !NoShortCircuitInRightOperand(c) {
      TargetsStay(base, h, k, yes, x);
      TargetsStay(base, h, k, no, x);
      InsideCondition(skip, base + {x}, k, a, yes, no);
      TouchedStays(k, b, {k.current}, x);
    }
  }

  lemma TargetsStay(base: set<string>, g: Graph, h: Graph, l: string, x: string)
    requires Target(base, g, l) && Grows(g, h) && x !in g.blocks
    ensures Target(base + {x}, h, l)
  {
  }

  /** Both labels of a final branch are reached. */
  lemma BranchLeads(f: Final, g: Graph, from: string, a: Operand, yes: string, no: string)
    requires LabelClosed(f) && Within(g, f) && from in g.blocks && from in f.region
    requires exists ts :: g.blocks[from].instrs == ts + [CondJump(no, a), Jump(yes)]
    ensures yes in f.region && no in f.region
  {
    hide LabelClosed, Within;
    var ts := g.blocks[from].instrs;
    assert ts[|ts| - 2] == CondJump(no, a) && ts[|ts| - 1] == Jump(yes);
    assert no in Labels(ts[|ts| - 2]) && yes in Labels(ts[|ts| - 1]);
    Leads(f, g, from, yes);
    Leads(f, g, from, no);
  }

  /** An arm from a waiting block, and its jump. */
  lemma ArmHits(f: Final, skip: set<string>, base: set<string>, p: Program, whole: Stmt, s: Stmt, h: Graph, from: string, l: string) returns (x: string)
    requires s < whole && Source.GoodStmt(p, s) && LabelClosed(f) && Contained(skip, base, h) && Target(base, h, l)
    requires Tracked(f, MoveTo(h, from)) && Within(AddJump(GenStmt(s, MoveTo(h, from)), l), f)
    ensures var k := GenStmt(s, MoveTo(h, from));
            l in f.region && (!NoShortCircuitInRightOperandStmt(s) ==> Hit(f, skip, base, h, AddJump(k, l), x))
    decreases whole, 0
  {
    hide Contained, Touches, Within, LabelClosed, GenStmt, Fresh, Source.GoodStmt, AddJump, OpenBlock, Target, NoShortCircuitInRightOperandStmt;
    var m := MoveTo(h, from);
    TrackedReady(f, m);
    InsideMove(skip, base, h, from);
    StmtGrows(s, m);
    var k := GenStmt(s, m);
    AddJumpTouches(k, l);
    WithinLess(k, AddJump(k, l), {k.current}, f);
    x := StmtHits(f, skip, base, p, s, m);
    JumpLeads(f, k, l);
    if !NoShortCircuitInRightOperandStmt(s) {
      TargetMoved(base, h, from, l);
      TargetsStay(base, m, k, l, x);
      InsideJump(skip, base + {x}, k, l);
      TouchedStays(k, AddJump(k, l), {k.current}, x);
    }
  }

  lemma TargetMoved(base: set<string>, h: Graph, from: string, l: string)
    requires Target(base, h, l)
    ensures Target(base, MoveTo(h, from), l)
  {
  }

  lemma JumpLeads(f: Final, k: Graph, l: string)
    requires LabelClosed(f) && Tracked(f, k) && Within(AddJump(k, l), f)
    ensures l in f.region
  {
    hide LabelClosed, Within, Touches;
    AddJumpTouches(k, l);
    var j := AddJump(k, l);
    var ts := j.blocks[k.current].instrs;
    assert ts[|ts| - 1] == Jump(l) && l in Labels(ts[|ts| - 1]);
    Leads(f, j, k.current, l);
  }

  /** An arm that follows keeps avoiding x. */
  lemma AvoidsArm(skip: set<string>, base: set<string>, g: Graph, h: Graph, x: string, p: Program, whole: Stmt, s: Stmt, from: string, l: string, o: string)
    requires Avoids(skip, base, g, h, x) && Source.GoodStmt(p, s) && s < whole && Ready(MoveTo(h, from))
    requires Target(base, h, l) && Target(base, h, o) && x != l && x != o
    ensures var k := GenStmt(s, MoveTo(h, from));
            Avoids(skip, base, g, AddJump(k, l), x) && Target(base + {x}, AddJump(k, l), o)
  {
    hide Contained, Touches, GenStmt, Fresh, Source.GoodStmt, AddJump, Target;
    TargetMore(base, h, l, x);
    TargetMore(base, h, o, x);
    InsideArm(skip, base + {x}, p, whole, s, h, from, l, o);
    StmtGrows(s, MoveTo(h, from));
    var k := GenStmt(s, MoveTo(h, from));
    StillThere(MoveTo(h, from), k, x);
    AddJumpTouches(k, l);
    TouchedStays(k, AddJump(k, l), {k.current}, x);
  }

  /** Nothing but the current block has changed. */
  lemma MovedTracked(f: Final, g: Graph, l: string)
    requires Fresh(g) && l in g.blocks && OpenBlock(g.blocks[l]) && l in f.region
    ensures Tracked(f, MoveTo(g, l))
  {
  }

  lemma MovedAvoids(skip: set<string>, base: set<string>, g: Graph, h: Graph, l: string, x: string)
    requires Avoids(skip, base, g, h, x)
    ensures Avoids(skip, base, g, MoveTo(h, l), x)
  {
    hide Contained;
    InsideMove(skip, base + {x}, h, l);
  }

  lemma MovedWithin(f: Final, g: Graph, l: string)
    ensures Within(MoveTo(g, l), f) <==> Within(g, f)
  {
  }

  lemma EmptyOpened()
    ensures OpenBlock(EMPTY_BLOCK)
  {
  }

  /** A control statement starts with new waiting blocks. */
  lemma StartTracked(f: Final, g: Graph, h: Graph)
    requires Tracked(f, g) && Starts(g, h)
    ensures Tracked(f, h)
  {
  }

  lemma AwaitsIn(g: Graph, h: Graph, l: string, b: BBlock)
    requires Awaits(g, h, l, b)
    ensures l in h.blocks && h.blocks[l] == b && Touches(g, h, {g.current})
  {
  }

  /** A block that was there before x is not x. */
  lemma Apart(skip: set<string>, base: set<string>, g: Graph, h: Graph, x: string, l: string)
    requires Avoids(skip, base, g, h, x) && l in g.blocks
    ensures x != l
  {
  }

  lemma TargetIn(base: set<string>, g: Graph, l: string)
    requires Target(base, g, l)
    ensures l in g.blocks
  {
  }

  lemma IfHits(f: Final, skip: set<string>, base: set<string>, p: Program, c: Expr, thn: Stmt, g: Graph) returns (x: string)
    requires Source.GoodExpr(p, c) && Source.GoodStmt(p, thn)
    requires LabelClosed(f) && Tracked(f, g) && Contained(skip, base, g) && Within(GenStmt(If(c, thn), g), f)
    ensures Tracked(f, GenStmt(If(c, thn), g))
    ensures !NoShortCircuitInRightOperandStmt(If(c, thn)) ==> Hit(f, skip, base, g, GenStmt(If(c, thn), g), x)
    decreases If(c, thn), 1
  {
    hide Contained, Touches, Fresh, Awaits, Within, LabelClosed, Tracked, Avoids, Starts, Tested, Jumped, Source.GoodStmt, Source.GoodExpr, GenExpr, GenStmt, Target,
      AddJump, CloseCondition, OpenBlock, NoShortCircuitInRightOperand;
    TrackedReady(f, g);
    var v := IfStages(c, thn, g);
    IfLast(c, thn, g);
    var j := AddJump(v.thenDone, v.join);
    MovedWithin(f, j, v.join);
    AwaitsIn(g, v.branched, v.yes, EMPTY_BLOCK);
    AwaitsIn(g, v.branched, v.join, EMPTY_BLOCK);
    EmptyOpened();
    WithinJump(f, v.thenDone, v.join);
    WithinLess(MoveTo(v.branched, v.yes), v.thenDone, {v.yes}, f);
    MovedWithin(f, v.branched, v.yes);
    InsideTwo(skip, base, g);
    StartTracked(f, g, v.start);
    InsideTest(skip, base, p, g, c, v.start, v.yes, v.join, v.join);
    var x1 := TestHits(f, skip, base, p, c, v.start, v.yes, v.join);
    MovedTracked(f, v.branched, v.yes);
    var x2 := ArmHits(f, skip, base, p, If(c, thn), thn, v.branched, v.yes, v.join);
    LastTracked(f, v.last);
    x := if !NoShortCircuitInRightOperand(c) then x1 else x2;
    if !NoShortCircuitInRightOperand(c) {
      TargetIn(base, v.start, v.join);
      Apart(skip, base, v.start, v.branched, x, v.join);
      StartsTouch(g, v.start);
      AvoidsFrom(skip, base, g, v.start, v.branched, {g.current}, x);
      AvoidsArm(skip, base, g, v.branched, x, p, If(c, thn), thn, v.yes, v.join, v.join);
      MovedAvoids(skip, base, g, j, v.join, x);
    } else if !NoShortCircuitInRightOperandStmt(thn) {
      AvoidsFrom(skip, base, g, v.branched, j, {g.current}, x);
      MovedAvoids(skip, base, g, j, v.join, x);
    }
  }

  lemma WithinJump(f: Final, g: Graph, l: string)
    requires Ready(g) && Within(AddJump(g, l), f)
    ensures Within(g, f)
  {
    hide Touches, Within;
    AddJumpTouches(g, l);
    WithinLess(g, AddJump(g, l), {g.current}, f);
  }

  lemma StartsTouch(g: Graph, h: Graph)
    requires Starts(g, h)
    ensures Touches(g, h, {g.current}) && Ready(h)
  {
    hide Touches;
  }

  /** A control statement ends in an empty block. */
  lemma LastTracked(f: Final, h: Graph)
    requires Ready(h) && Here(h) == EMPTY_BLOCK && h.current in f.region
    ensures Tracked(f, h)
  {
  }

  lemma IfElseHits(f: Final, skip: set<string>, base: set<string>, p: Program, c: Expr, thn: Stmt, els: Stmt, g: Graph) returns (x: string)
    requires Source.GoodExpr(p, c) && Source.GoodStmt(p, thn) && Source.GoodStmt(p, els)
    requires LabelClosed(f) && Tracked(f, g) && Contained(skip, base, g) && Within(GenStmt(IfElse(c, thn, els), g), f)
    ensures Tracked(f, GenStmt(IfElse(c, thn, els), g))
    ensures !NoShortCircuitInRightOperandStmt(IfElse(c, thn, els)) ==> Hit(f, skip, base, g, GenStmt(IfElse(c, thn, els), g), x)
    decreases IfElse(c, thn, els), 1
  {
    hide Contained, Touches, Fresh, Awaits, Within, LabelClosed, Tracked, Avoids, Starts, Tested, Jumped, Source.GoodStmt, Source.GoodExpr, GenExpr, GenStmt, Target,
      AddJump, CloseCondition, OpenBlock, NoShortCircuitInRightOperand;
    TrackedReady(f, g);
    var whole := IfElse(c, thn, els);
    var v := IfElseStages(c, thn, els, g);
    IfElseLast(c, thn, els, g);
    var i, j := AddJump(v.thenDone, v.join), AddJump(v.elseDone, v.join);
    MovedWithin(f, j, v.join);
    AwaitsIn(g, v.branched, v.yes, EMPTY_BLOCK);
    AwaitsIn(g, i, v.no, EMPTY_BLOCK);
    EmptyOpened();
    WithinJump(f, v.elseDone, v.join);
    WithinLess(MoveTo(i, v.no), v.elseDone, {v.no}, f);
    MovedWithin(f, i, v.no);
    WithinJump(f, v.thenDone, v.join);
    WithinLess(MoveTo(v.branched, v.yes), v.thenDone, {v.yes}, f);
    MovedWithin(f, v.branched, v.yes);
    InsideThree(skip, base, g);
    StartTracked(f, g, v.start);
    InsideTest(skip, base, p, g, c, v.start, v.yes, v.no, v.join);
    var x1 := TestHits(f, skip, base, p, c, v.start, v.yes, v.no);
    MovedTracked(f, v.branched, v.yes);
    InsideArm(skip, base, p, whole, thn, v.branched, v.yes, v.join, v.join);
    var x2 := ArmHits(f, skip, base, p, whole, thn, v.branched, v.yes, v.join);
    MovedTracked(f, i, v.no);
    var x3 := ArmHits(f, skip, base, p, whole, els, i, v.no, v.join);
    LastTracked(f, v.last);
    TargetIn(base, v.start, v.join);
    TargetIn(base, v.branched, v.join);
    x := if !NoShortCircuitInRightOperand(c) then x1 else if !NoShortCircuitInRightOperandStmt(thn) then x2 else x3;
    if !NoShortCircuitInRightOperand(c) {
      Apart(skip, base, v.start, v.branched, x, v.join);
      StartsTouch(g, v.start);
      AvoidsFrom(skip, base, g, v.start, v.branched, {g.current}, x);
      AvoidsArm(skip, base, g, v.branched, x, p, whole, thn, v.yes, v.join, v.join);
      AvoidsArm(skip, base, g, i, x, p, whole, els, v.no, v.join, v.join);
      MovedAvoids(skip, base, g, j, v.join, x);
    } else if !NoShortCircuitInRightOperandStmt(thn) {
      Apart(skip, base, v.branched, i, x, v.join);
      AvoidsFrom(skip, base, g, v.branched, i, {g.current}, x);
      AvoidsArm(skip, base, g, i, x, p, whole, els, v.no, v.join, v.join);
      MovedAvoids(skip, base, g, j, v.join, x);
    } else if !NoShortCircuitInRightOperandStmt(els) {
      AvoidsFrom(skip, base, g, i, j, {g.current}, x);
      MovedAvoids(skip, base, g, j, v.join, x);
    }
  }

  /** The condition of a loop starts at a header that the block before jumps to. */
  lemma LoopTracked(f: Final, g: Graph, v: WhileGraphs)
    requires LabelClosed(f) && Tracked(f, g) && LoopEntered(g, v) && Within(v.start, f)
    ensures Tracked(f, v.start) && v.loop.header in f.region
  {
    hide LabelClosed, Within, Touches;
    var ts := v.start.blocks[g.current].instrs;
    assert ts[|ts| - 1] == Jump(v.loop.header) && v.loop.header in Labels(ts[|ts| - 1]);
    Leads(f, v.start, g.current, v.loop.header);
  }

  lemma LoopArms(f: Final, g: Graph, v: WhileGraphs)
    requires LabelClosed(f) && Tracked(f, v.tested) && LoopTested(g, v) && Within(v.branched, f)
    ensures v.loop.body in f.region && v.loop.join in f.region && Tracked(f, MoveTo(v.branched, v.loop.body))
  {
    hide LabelClosed, Within, Touches;
    BranchLeads(f, v.branched, v.tested.current, v.cond, v.loop.body, v.loop.join);
  }

  /** The exits of the condition's block are set last. */
  lemma LoopCloses(skip: set<string>, base: set<string>, g: Graph, j: Graph, cond: string, loop: Loop, x: string)
    requires Avoids(skip, base, g, j, x) && cond in j.blocks && Target(base, j, loop.body) && Target(base, j, loop.join) && x != loop.body && x != loop.join
    ensures Avoids(skip, base, g, MoveTo(SetExits(j, cond, loop.body, loop.join), loop.join), x)
  {
    hide Contained, Target;
    TargetMore(base, j, loop.body, x);
    TargetMore(base, j, loop.join, x);
    InsideSet(skip, base + {x}, j, cond, loop.body, loop.join);
    InsideMove(skip, base + {x}, SetExits(j, cond, loop.body, loop.join), loop.join);
  }

  lemma LoopWithin(f: Final, g: Graph, v: WhileGraphs)
    requires LoopFinished(g, v) && LoopTested(g, v) && Grows(MoveTo(v.branched, v.loop.body), v.bodyDone) && Ready(v.bodyDone) && Within(v.last, f)
    requires v.last == MoveTo(SetExits(AddJump(v.bodyDone, v.loop.header), v.tested.current, v.loop.body, v.loop.join), v.loop.join)
    ensures Within(AddJump(v.bodyDone, v.loop.header), f) && Within(v.branched, f) && Within(v.tested, f) && Within(v.start, f)
    ensures v.tested.current in AddJump(v.bodyDone, v.loop.header).blocks
  {
    hide Within, Fresh, Touches;
    var j := AddJump(v.bodyDone, v.loop.header);
    AddJumpTouches(v.bodyDone, v.loop.header);
    TouchedStays(MoveTo(v.branched, v.loop.body), v.bodyDone, {v.loop.body}, v.tested.current);
    TouchedStays(v.bodyDone, j, {v.bodyDone.current}, v.tested.current);
    SetExitsTouches(j, v.tested.current, v.loop.body, v.loop.join);
    MovedWithin(f, SetExits(j, v.tested.current, v.loop.body, v.loop.join), v.loop.join);
    WithinLess(j, SetExits(j, v.tested.current, v.loop.body, v.loop.join), {v.tested.current}, f);
    WithinLess(v.bodyDone, j, {v.bodyDone.current}, f);
    WithinLess(MoveTo(v.branched, v.loop.body), v.bodyDone, {v.loop.body}, f);
    MovedWithin(f, v.branched, v.loop.body);
    WithinLess(v.tested, v.branched, {v.tested.current}, f);
    WithinLess(v.start, v.tested, {v.start.current}, f);
  }

  lemma WhileHits(f: Final, skip: set<string>, base: set<string>, p: Program, c: Expr, body: Stmt, g: Graph) returns (x: string)
    requires Source.GoodExpr(p, c) && Source.GoodStmt(p, body)
    requires LabelClosed(f) && Tracked(f, g) && Contained(skip, base, g) && Within(GenStmt(While(c, body), g), f)
    ensures Tracked(f, GenStmt(While(c, body), g))
    ensures !NoShortCircuitInRightOperandStmt(While(c, body)) ==> Hit(f, skip, base, g, GenStmt(While(c, body), g), x)
    decreases While(c, body), 1
  {
    hide Contained, Touches, Fresh, Awaits, Within, LabelClosed, Tracked, Avoids, Source.GoodStmt, Source.GoodExpr, GenExpr, GenStmt, Target,
      AddJump, AddBranch, SetExits, OpenLoop, OpenBlock, NoShortCircuitInRightOperand;
    TrackedReady(f, g);
    var whole := While(c, body);
    var v := WhileStages(c, body, g);
    WhileLast(c, body, g);
    LoopWithin(f, g, v);
    InsideLoop(skip, base, g);
    LoopTracked(f, g, v);
    ExprInside(skip, base, p, c, v.start);
    LoopTargets(base, g, v);
    InsideBranch(skip, base, v.tested, v.cond, v.loop.body, v.loop.join);
    var x1 := ExprHits(f, skip, base, p, c, v.start);
    LoopArms(f, g, v);
    var x2 := ArmHits(f, skip, base, p, whole, body, v.branched, v.loop.body, v.loop.header);
    LastTracked(f, v.last);
    LoopTargetsIn(base, v);
    var j := AddJump(v.bodyDone, v.loop.header);
    LoopTargetsAfter(base, v);
    x := if !NoShortCircuitInRightOperand(c) then x1 else x2;
    if !NoShortCircuitInRightOperand(c) {
      LoopApart(skip, base, v.start, v.tested, x, v.loop);
      LoopTouches(g, v);
      AvoidsFrom(skip, base, g, v.start, v.tested, {g.current}, x);
      AvoidsBranch(skip, base, g, v.tested, v.cond, v.loop.body, v.loop.join, x);
      AvoidsArm(skip, base, g, v.branched, x, p, whole, body, v.loop.body, v.loop.header, v.loop.header);
      LoopCloses(skip, base, g, j, v.tested.current, v.loop, x);
    } else if !NoShortCircuitInRightOperandStmt(body) {
      LoopApart(skip, base, v.branched, j, x, v.loop);
      LoopTouches(g, v);
      AvoidsFrom(skip, base, g, v.branched, j, {g.current}, x);
      LoopCloses(skip, base, g, j, v.tested.current, v.loop, x);
    }
  }

  lemma LoopTargetsIn(base: set<string>, v: WhileGraphs)
    requires Target(base, v.start, v.loop.header) && Target(base, v.start, v.loop.body) && Target(base, v.start, v.loop.join)
    requires Target(base, v.branched, v.loop.header) && Target(base, v.branched, v.loop.body) && Target(base, v.branched, v.loop.join)
    ensures {v.loop.header, v.loop.body, v.loop.join} <= v.start.blocks.Keys && {v.loop.header, v.loop.body, v.loop.join} <= v.branched.blocks.Keys
  {
  }

  lemma LoopApart(skip: set<string>, base: set<string>, g: Graph, h: Graph, x: string, loop: Loop)
    requires Avoids(skip, base, g, h, x) && {loop.header, loop.body, loop.join} <= g.blocks.Keys
    ensures x !in {loop.header, loop.body, loop.join}
  {
  }

  lemma LoopTouches(g: Graph, v: WhileGraphs)
    requires LoopEntered(g, v) && LoopTested(g, v)
    ensures Touches(g, v.start, {g.current}) && Touches(g, v.branched, {g.current})
  {
    hide Touches;
  }

  lemma AvoidsBranch(skip: set<string>, base: set<string>, g: Graph, h: Graph, a: Operand, yes: string, no: string, x: string)
    requires Avoids(skip, base, g, h, x) && Ready(h) && OperandInInt(a) && !Source.IsRoot(yes) && !Source.IsRoot(no)
    ensures Avoids(skip, base, g, AddBranch(h, a, yes, no), x)
  {
    hide Contained, Touches, AddBranch, Fresh;
    InsideBranch(skip, base + {x}, h, a, yes, no);
    AddBranchTouches(h, a, yes, no);
  }
}

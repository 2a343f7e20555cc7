/** IR generation preserves meaning: by induction on fuel and syntax, the code generated for an expression,
    statement or call runs to the result the source semantics gives, faults exactly as it does, and is still
    running when it times out. This needs no restriction on short-circuit operators, since labels alone
    decide where a run goes. */
module GenerationCorrect {
  import opened Ast
  import opened Tac
  import opened Names
  import opened Machine
  import opened FlowGraph
  import opened IrGeneration
  import opened GraphGrowth
  import opened IrMachine
  import opened Simulation
  import Source

  /** g is where the code starts, h the graph after it. */
  ghost predicate Fits(ir: Ir, g: Graph, h: Graph, sf: Frame, fr: Frame) {
    Ready(g) && CodeHas(ir, h) && Sees(sf, fr) && HasTemps(fr, g.nextTemp, h.nextTemp)
  }

  /** The run from g has done in n steps what r says, and o denotes the value. */
  ghost predicate ExprRuns(ir: Ir, k: Context, g: Graph, h: Graph, o: Operand, fr: Frame, s: Store,
                           n: nat, fr': Frame, r: Source.Outcome<Source.Value>, fuel: nat) {
    match r
    case Done(v, s') =>
      Run(ir, n, At(k, g, fr, s)) == At(k, h, fr', s') && Kept(fr, fr', g.nextTemp) && Denotes(o, v, fr', h.nextTemp)
    case Stops(why) => Stopped(ir, n, At(k, g, fr, s), why, fuel)
  }

  function GenPair(l: Expr, r: Expr, g: Graph): (Graph, Operand, Operand) {
    var (g1, a) := GenExpr(l, g);
    var (g2, b) := GenExpr(r, g1);
    (g2, a, b)
  }

  function EvalPair(p: Program, fuel: nat, l: Expr, r: Expr, sf: Frame, s: Store): Source.Outcome<(Source.Value, Source.Value)> {
    var (a, s1) :- Source.Eval(p, fuel, l, sf, s);
    var (b, s2) :- Source.Eval(p, fuel, r, sf, s1);
    Source.Done((a, b), s2)
  }

  ghost predicate PairRuns(ir: Ir, k: Context, g: Graph, q: (Graph, Operand, Operand), fr: Frame, s: Store,
                           n: nat, fr': Frame, r: Source.Outcome<(Source.Value, Source.Value)>, fuel: nat) {
    match r
    case Done(v, s') =>
      && Run(ir, n, At(k, g, fr, s)) == At(k, q.0, fr', s') && Kept(fr, fr', g.nextTemp)
      && Denotes(q.1, v.0, fr', q.0.nextTemp) && Denotes(q.2, v.1, fr', q.0.nextTemp)
    case Stops(why) => Stopped(ir, n, At(k, g, fr, s), why, fuel)
  }

  lemma FitsFirst(ir: Ir, g: Graph, h: Graph, j: Graph, sf: Frame, fr: Frame)
    requires Fits(ir, g, j, sf, fr) && Grows(g, h) && Grows(h, j)
    ensures Fits(ir, g, h, sf, fr) && g.nextTemp <= h.nextTemp <= j.nextTemp
  {
    CodeHasLess(ir, h, j, {h.current});
  }

  lemma FitsNext(ir: Ir, g: Graph, h: Graph, j: Graph, sf: Frame, fr: Frame, fr1: Frame)
    requires Fits(ir, g, j, sf, fr) && Kept(fr, fr1, g.nextTemp) && Ready(h) && g.nextTemp <= h.nextTemp
    ensures Fits(ir, h, j, sf, fr1)
  {
    KeptSees(sf, fr, fr1, g.nextTemp);
  }

  /** After n steps at h, the instruction t computes into temporary i and adds one step. */
  lemma ThenDefine(ir: Ir, g: Graph, h: Graph, t: Instr, i: nat, k: Context, fr: Frame, s: Store,
                   n: nat, fr1: Frame, s1: Store, last: nat, fuel: nat) returns (fr2: Frame)
    requires h.current in h.blocks && CodeHas(ir, AddInstr(h, t)) && Defines(t) && t.result == TempName(i)
    requires TempName(i) in fr.locals && g.nextTemp <= i < last && AddInstr(h, t).nextTemp == last
    requires Run(ir, n, At(k, g, fr, s)) == At(k, h, fr1, s1) && Kept(fr, fr1, g.nextTemp)
    ensures ExprRuns(ir, k, g, AddInstr(h, t), Name(TempName(i)), fr, s, n + 1, fr2,
                     ComputeOutcome(ir, t, fr1, s1), fuel)
  {
    assert TempName(i) in fr1.locals;
    StepDefine(ir, h, t, k, fr1, s1, i);
    RunAdd(ir, n, 1, At(k, g, fr, s));
    RunOne(ir, At(k, h, fr1, s1));
    var r := Compute(FieldTable(ir), t, fr1, s1);
    fr2 := fr1;
    if r.Ok? {
      fr2 := SetTemp(fr1, i, r.v.0);
      SetTempKept(fr1, i, r.v.0, g.nextTemp, last);
      KeptTrans(fr, fr1, fr2, g.nextTemp, g.nextTemp);
    }
  }

  function ComputeOutcome(ir: Ir, t: Instr, fr: Frame, s: Store): Source.Outcome<Source.Value>
    requires Defines(t)
  {
    match Compute(FieldTable(ir), t, fr, s)
    case Err(f) => Source.Stops(Source.Fail(f, s.out))
    case Ok((v, s')) => Source.Done(Source.Now(v), s')
  }

  lemma {:induction false} SimExpr(w: World, fuel: nat, e: Expr, g: Graph,
                                   k: Context, sf: Frame, fr: Frame, s: Store) returns (n: nat, fr': Frame)
    requires Source.GoodExpr(w.p, e) && Fits(w.ir, g, GenExpr(e, g).0, sf, fr)
    ensures ExprRuns(w.ir, k, g, GenExpr(e, g).0, GenExpr(e, g).1, fr, s, n, fr', Source.Eval(w.p, fuel, e, sf, s), fuel)
    decreases fuel, e
  {
    hide Compiled, Source.GoodExpr, GenExpr, Source.Eval, Fits, ExprRuns;
    match e
    case Binary(op, l, r) => n, fr' := SimBinary(w, fuel, e, g, k, sf, fr, s);
    case Not(r) => n, fr' := SimUnary(w, fuel, e, r, g, k, sf, fr, s);
    case And(l, r) => n, fr' := SimShortCircuit(w, fuel, e, l, r, true, g, k, sf, fr, s);
    case Or(l, r) => n, fr' := SimShortCircuit(w, fuel, e, l, r, false, g, k, sf, fr, s);
    case NewObject(c) => n, fr' := SimNew(w, fuel, e, g, k, sf, fr, s);
    case NewArray(r) => n, fr' := SimUnary(w, fuel, e, r, g, k, sf, fr, s);
    case ArrayAccess(l, r) => n, fr' := SimBinary(w, fuel, e, g, k, sf, fr, s);
    case ArrayLength(r) => n, fr' := SimUnary(w, fuel, e, r, g, k, sf, fr, s);
    case Call(r, c, m, args) => n, fr' := SimCall(w, fuel, e, g, k, sf, fr, s);
    case _ =>
      n, fr' := 0, fr;
      SimLeaf(w, fuel, e, g, k, sf, fr, s);
  }

  lemma SimLeaf(w: World, fuel: nat, e: Expr, g: Graph, k: Context, sf: Frame, fr: Frame, s: Store)
    requires e.IntLit? || e.BoolLit? || e.Ident? || e.This?
    requires Source.GoodExpr(w.p, e)
    ensures ExprRuns(w.ir, k, g, GenExpr(e, g).0, GenExpr(e, g).1, fr, s, 0, fr, Source.Eval(w.p, fuel, e, sf, s), fuel)
  {
    hide Compiled;
    KeptRefl(fr, g.nextTemp);
  }

  /** Two expressions in a row; n2 and fr2 are the second one's run, if the first is done. */
  lemma PairJoin(w: World, fuel: nat, l: Expr, r: Expr, g: Graph, k: Context, sf: Frame, fr: Frame, s: Store,
                 n1: nat, fr1: Frame, n2: nat, fr2: Frame)
    requires var (g1, a) := GenExpr(l, g);
             var (g2, b) := GenExpr(r, g1);
             var x := Source.Eval(w.p, fuel, l, sf, s);
             && g.nextTemp <= g1.nextTemp <= g2.nextTemp
             && ExprRuns(w.ir, k, g, g1, a, fr, s, n1, fr1, x, fuel)
             && (x.Done? ==> ExprRuns(w.ir, k, g1, g2, b, fr1, x.store, n2, fr2, Source.Eval(w.p, fuel, r, sf, x.store), fuel))
    ensures var d := Source.Eval(w.p, fuel, l, sf, s).Done?;
            PairRuns(w.ir, k, g, GenPair(l, r, g), fr, s, if d then n1 + n2 else n1, if d then fr2 else fr1,
                     EvalPair(w.p, fuel, l, r, sf, s), fuel)
  {
    hide Compiled, GenExpr, Source.Eval, Kept, Denotes, Stopped, Run, At;
    var (g1, a) := GenExpr(l, g);
    var (g2, b) := GenExpr(r, g1);
    var x := Source.Eval(w.p, fuel, l, sf, s);
    if x.Done? {
      var y := Source.Eval(w.p, fuel, r, sf, x.store);
      if y.Done? {
        RunAdd(w.ir, n1, n2, At(k, g, fr, s));
        KeptTrans(fr, fr1, fr2, g.nextTemp, g1.nextTemp);
        KeptDenotes(a, x.v, fr1, fr2, g1.nextTemp, g2.nextTemp);
        assert EvalPair(w.p, fuel, l, r, sf, s) == Source.Done((x.v, y.v), y.store);
      } else {
        StoppedLater(w.ir, n1, At(k, g, fr, s), n2, y.why, fuel, fuel);
        assert EvalPair(w.p, fuel, l, r, sf, s) == Source.Stops(y.why);
      }
    } else {
      assert EvalPair(w.p, fuel, l, r, sf, s) == Source.Stops(x.why);
    }
  }

  lemma SimPair(w: World, fuel: nat, e: Expr, l: Expr, r: Expr, g: Graph,
                k: Context, sf: Frame, fr: Frame, s: Store) returns (n: nat, fr': Frame)
    requires Source.GoodExpr(w.p, l) && Source.GoodExpr(w.p, r) && l < e && r < e
    requires Fits(w.ir, g, GenPair(l, r, g).0, sf, fr)
    ensures PairRuns(w.ir, k, g, GenPair(l, r, g), fr, s, n, fr', EvalPair(w.p, fuel, l, r, sf, s), fuel)
    decreases fuel, e, 0
  {
    hide Compiled, Source.GoodExpr, GenExpr, Source.Eval, Fits, Touches, Kept, Denotes, PairRuns, EvalPair;
    var g1 := PairFits(w, l, r, g, sf, fr);
    n, fr' := SimExpr(w, fuel, l, g, k, sf, fr, s);
    var x := Source.Eval(w.p, fuel, l, sf, s);
    var n2, fr2 := 0, fr';
    if x.Done? {
      FitsNext(w.ir, g, g1, GenExpr(r, g1).0, sf, fr, fr');
      n2, fr2 := SimExpr(w, fuel, r, g1, k, sf, fr', x.store);
    }
    PairJoin(w, fuel, l, r, g, k, sf, fr, s, n, fr', n2, fr2);
    if x.Done? { n, fr' := n + n2, fr2; }
  }

  lemma PairFits(w: World, l: Expr, r: Expr, g: Graph, sf: Frame, fr: Frame) returns (g1: Graph)
    requires Fits(w.ir, g, GenPair(l, r, g).0, sf, fr)
    ensures g1 == GenExpr(l, g).0 && GenPair(l, r, g).0 == GenExpr(r, g1).0
    ensures Fits(w.ir, g, g1, sf, fr) && Ready(g1) && g.nextTemp <= g1.nextTemp <= GenExpr(r, g1).0.nextTemp
    ensures Grows(g, GenExpr(r, g1).0) && Ready(GenExpr(r, g1).0)
  {
    hide GenExpr, Touches, Sees, CodeHas;
    g1 := GenExpr(l, g).0;
    ExprGrows(l, g);
    ExprGrows(r, g1);
    FitsFirst(w.ir, g, g1, GenExpr(r, g1).0, sf, fr);
    GrowsTrans(g, g1, GenExpr(r, g1).0);
  }

  function PairInstr(e: Expr, t: string, a: Operand, b: Operand): Instr
    requires e.Binary? || e.ArrayAccess?
  {
    if e.Binary? then Bin(e.op, t, a, b) else Access(t, a, b)
  }

  function Left(e: Expr): Expr
    requires e.Binary? || e.ArrayAccess?
  {
    if e.Binary? then e.lhs else e.arr
  }

  function Right(e: Expr): Expr
    requires e.Binary? || e.ArrayAccess?
  {
    if e.Binary? then e.rhs else e.index
  }

  lemma EvalOfPair(w: World, fuel: nat, e: Expr, sf: Frame, s: Store, t: string, a: Operand, b: Operand, fr: Frame)
    requires e.Binary? || e.ArrayAccess?
    ensures match EvalPair(w.p, fuel, Left(e), Right(e), sf, s)
            case Stops(why) => Source.Eval(w.p, fuel, e, sf, s) == Source.Stops(why)
            case Done((u, v), s') =>
              Read(a, fr, s') == Source.Force(u, sf, s') && Read(b, fr, s') == Source.Force(v, sf, s') ==>
              Source.Eval(w.p, fuel, e, sf, s) == ComputeOutcome(w.ir, PairInstr(e, t, a, b), fr, s')
  {
    hide Compiled, Run;
    match e
    case Binary(op, l, r) =>
    case ArrayAccess(l, r) =>
  }

  lemma BinaryParts(p: Program, e: Expr, g: Graph)
    requires (e.Binary? || e.ArrayAccess?) && Source.GoodExpr(p, e)
    ensures Source.GoodExpr(p, Left(e)) && Source.GoodExpr(p, Right(e)) && Left(e) < e && Right(e) < e
    ensures var q := GenPair(Left(e), Right(e), g);
            var (h, t) := NewTemp(q.0);
            var instr := PairInstr(e, t, q.1, q.2);
            GenExpr(e, g) == (AddInstr(h, instr), Name(t)) && AddInstr(h, instr).nextTemp == q.0.nextTemp + 1
  {
  }

  /** Binary operators and array accesses. */
  lemma SimBinary(w: World, fuel: nat, e: Expr, g: Graph,
                  k: Context, sf: Frame, fr: Frame, s: Store) returns (n: nat, fr': Frame)
    requires e.Binary? || e.ArrayAccess?
    requires Source.GoodExpr(w.p, e) && Fits(w.ir, g, GenExpr(e, g).0, sf, fr)
    ensures ExprRuns(w.ir, k, g, GenExpr(e, g).0, GenExpr(e, g).1, fr, s, n, fr', Source.Eval(w.p, fuel, e, sf, s), fuel)
    decreases fuel, e, 1
  {
    hide Compiled, Source.GoodExpr, GenExpr, Source.Eval, EvalPair, Touches, Sees, Kept, Denotes, Stopped, Run, AddInstr, Compute;
    var l, r := Left(e), Right(e);
    var q := GenPair(l, r, g);
    var (h, t) := NewTemp(q.0);
    var instr := PairInstr(e, t, q.1, q.2);
    BinaryParts(w.p, e, g);
    PairGrows(e, l, r, g);
    GrowsRefl(q.0);
    TempInstrGrows(q.0, q.0, instr);
    FitsFirst(w.ir, g, q.0, AddInstr(h, instr), sf, fr);
    n, fr' := SimPair(w, fuel, e, l, r, g, k, sf, fr, s);
    var x := EvalPair(w.p, fuel, l, r, sf, s);
    EvalOfPair(w, fuel, e, sf, s, t, q.1, q.2, fr');
    if x.Done? {
      FinishPair(w, fuel, e, g, q, k, sf, fr, s, n, fr', x);
      var fr1 := fr';
      fr' := ThenDefine(w.ir, g, h, instr, q.0.nextTemp, k, fr, s, n, fr1, x.store, AddInstr(h, instr).nextTemp, fuel);
      n := n + 1;
    }
  }

  lemma FinishPair(w: World, fuel: nat, e: Expr, g: Graph, q: (Graph, Operand, Operand), k: Context, sf: Frame, fr: Frame,
                   s: Store, n: nat, fr1: Frame, x: Source.Outcome<(Source.Value, Source.Value)>)
    requires x.Done? && PairRuns(w.ir, k, g, q, fr, s, n, fr1, x, fuel) && Sees(sf, fr)
    ensures Read(q.1, fr1, x.store) == Source.Force(x.v.0, sf, x.store)
    ensures Read(q.2, fr1, x.store) == Source.Force(x.v.1, sf, x.store)
    ensures Run(w.ir, n, At(k, g, fr, s)) == At(k, NewTemp(q.0).0, fr1, x.store)
  {
    KeptSees(sf, fr, fr1, g.nextTemp);
    ReadDenotes(q.1, x.v.0, sf, fr1, x.store, q.0.nextTemp);
    ReadDenotes(q.2, x.v.1, sf, fr1, x.store, q.0.nextTemp);
  }

  function UnaryInstr(e: Expr, t: string, a: Operand): Instr
    requires e.Not? || e.NewArray? || e.ArrayLength?
  {
    if e.Not? then NotTac(t, a) else if e.NewArray? then NewArr(t, a) else Length(t, a)
  }

  lemma EvalOfUnary(w: World, fuel: nat, e: Expr, r: Expr, sf: Frame, s: Store, t: string, a: Operand, fr: Frame)
    requires e == Not(r) || e == NewArray(r) || e == ArrayLength(r)
    ensures match Source.Eval(w.p, fuel, r, sf, s)
            case Stops(why) => Source.Eval(w.p, fuel, e, sf, s) == Source.Stops(why)
            case Done(u, s') =>
              Read(a, fr, s') == Source.Force(u, sf, s') ==>
              Source.Eval(w.p, fuel, e, sf, s) == ComputeOutcome(w.ir, UnaryInstr(e, t, a), fr, s')
  {
    hide Compiled, Run;
  }

  /** Where a unary operator's operand starts, the graph before its instruction, and the number of its temporary:
      `!` takes its temporary after the operand, array allocation and length before it. */
  function UnaryGraphs(e: Expr, r: Expr, g: Graph): (Graph, Graph, Graph, nat)
  {
    var g0 := if e.Not? then g else NewTemp(g).0;
    var g1 := GenExpr(r, g0).0;
    if e.Not? then (g0, g1, NewTemp(g1).0, g1.nextTemp) else (g0, g1, g1, g.nextTemp)
  }

  lemma UnaryStages(e: Expr, r: Expr, g: Graph)
    requires Ready(g) && (e == Not(r) || e == NewArray(r) || e == ArrayLength(r))
    ensures var (g0, g1, h, i) := UnaryGraphs(e, r, g);
            var t := UnaryInstr(e, TempName(i), GenExpr(r, g0).1);
            && Grows(g, g0) && Ready(g0) && Grows(g0, g1) && Ready(g1) && Grows(g1, AddInstr(h, t))
            && GenExpr(e, g) == (AddInstr(h, t), Name(TempName(i))) && g1 == GenExpr(r, g0).0
            && g.nextTemp <= i < h.nextTemp == AddInstr(h, t).nextTemp && h.current == g1.current && h.blocks == g1.blocks
            && g0.blocks == g.blocks && g0.current == g.current && h.current in h.blocks
  {
    hide Touches;
    var (g0, g1, h, i) := UnaryGraphs(e, r, g);
    var t := UnaryInstr(e, TempName(i), GenExpr(r, g0).1);
    GrowsRefl(g);
    NewTempGrows(g);
    ExprGrows(r, g0);
    GrowsRefl(g1);
    TempInstrGrows(g1, g1, t);
    AddInstrTouches(g1, t);
    FitsCounts(g, g0);
    FitsCounts(g0, g1);
  }

  lemma FitsCounts(g: Graph, h: Graph)
    requires Grows(g, h)
    ensures g.nextTemp <= h.nextTemp
  {
  }

  lemma GoodUnary(p: Program, e: Expr, r: Expr)
    requires (e == Not(r) || e == NewArray(r) || e == ArrayLength(r)) && Source.GoodExpr(p, e)
    ensures Source.GoodExpr(p, r)
  {
  }

  /** Negation, array allocation and array length. */
  lemma SimUnary(w: World, fuel: nat, e: Expr, r: Expr, g: Graph,
                 k: Context, sf: Frame, fr: Frame, s: Store) returns (n: nat, fr': Frame)
    requires e == Not(r) || e == NewArray(r) || e == ArrayLength(r)
    requires Source.GoodExpr(w.p, e) && Fits(w.ir, g, GenExpr(e, g).0, sf, fr)
    ensures ExprRuns(w.ir, k, g, GenExpr(e, g).0, GenExpr(e, g).1, fr, s, n, fr', Source.Eval(w.p, fuel, e, sf, s), fuel)
    decreases fuel, e, 0
  {
    hide Compiled, Source.GoodExpr, GenExpr, Source.Eval, Grows, Touches, Sees, Kept, Denotes, Stopped, Run, AddInstr, Compute, UnaryGraphs;
    assert Source.GoodExpr(w.p, r) by { GoodUnary(w.p, e, r); }
    var (g0, g1, h, i) := UnaryGraphs(e, r, g);
    var a := GenExpr(r, g0).1;
    var t := UnaryInstr(e, TempName(i), a);
    UnaryStages(e, r, g);
    var j := AddInstr(h, t);
    UnaryFits(w.ir, g, g0, g1, j, sf, fr);
    n, fr' := SimExpr(w, fuel, r, g0, k, sf, fr, s);
    var x := Source.Eval(w.p, fuel, r, sf, s);
    EvalOfUnary(w, fuel, e, r, sf, s, TempName(i), a, fr');
    if x.Done? {
      FitsCounts(g, g0);
      KeptRefl(fr, g.nextTemp);
      KeptTrans(fr, fr, fr', g.nextTemp, g0.nextTemp);
      KeptSees(sf, fr, fr', g.nextTemp);
      ReadDenotes(a, x.v, sf, fr', x.store, g1.nextTemp);
      assert At(k, h, fr', x.store) == At(k, g1, fr', x.store);
      var fr1 := fr';
      fr' := ThenDefine(w.ir, g, h, t, i, k, fr, s, n, fr1, x.store, j.nextTemp, fuel);
      n := n + 1;
    }
  }

  lemma UnaryFits(ir: Ir, g: Graph, g0: Graph, g1: Graph, j: Graph, sf: Frame, fr: Frame)
    requires Fits(ir, g, j, sf, fr) && Ready(g0) && Grows(g, g0) && Grows(g0, g1) && Grows(g1, j)
    ensures Fits(ir, g0, g1, sf, fr) && HasTemps(fr, g.nextTemp, j.nextTemp)
  {
    CodeHasLess(ir, g1, j, {g1.current});
  }

  lemma SimNew(w: World, fuel: nat, e: Expr, g: Graph,
               k: Context, sf: Frame, fr: Frame, s: Store) returns (n: nat, fr': Frame)
    requires e.NewObject?
    requires Source.GoodExpr(w.p, e) && Fits(w.ir, g, GenExpr(e, g).0, sf, fr)
    ensures ExprRuns(w.ir, k, g, GenExpr(e, g).0, GenExpr(e, g).1, fr, s, n, fr', Source.Eval(w.p, fuel, e, sf, s), fuel)
    decreases fuel, e, 0
  {
    var (h, t) := NewTemp(g);
    var instr := New(t, e.className);
    KeptRefl(fr, g.nextTemp);
    assert At(k, h, fr, s) == At(k, g, fr, s);
    assert Source.Eval(w.p, fuel, e, sf, s) == ComputeOutcome(w.ir, instr, fr, s);
    fr' := ThenDefine(w.ir, g, h, instr, g.nextTemp, k, fr, s, 0, fr, s, h.nextTemp, fuel);
    n := 1;
  }

  // ----- && and || -----

  ghost predicate ArmCode(ir: Ir, arm: string, value: int, arms: Arms) {
    arm in ir.code && |ir.code[arm]| >= 2
    && ir.code[arm][0] == Copy(Imm(value), arms.result) && ir.code[arm][1] == Jump(arms.join)
  }

  /** Where the branch on the left operand goes when the result is known, and which result that is. */
  function ShortArm(isAnd: bool, arms: Arms): string {
    if isAnd then arms.no else arms.yes
  }

  /** The graphs of an `&&` or `||` after its left operand: its arms, the start and end of the right operand. */
  datatype ShortGraphs = ShortGraphs(left: Graph, a: Operand, arms: Arms, start: Graph, right: Graph, b: Operand, last: Graph)

  function ShortGraphsOf(l: Expr, r: Expr, isAnd: bool, g: Graph): ShortGraphs {
    var (g1, a) := GenExpr(l, g);
    var (g2, arms) := OpenShortCircuit(g1, isAnd, a);
    var (g3, b) := GenExpr(r, g2);
    ShortGraphs(g1, a, arms, g2, g3, b, CloseShortCircuit(g3, b, arms))
  }

  ghost predicate ShortCode(ir: Ir, isAnd: bool, v: ShortGraphs) {
    && (if isAnd then BranchCode(ir, v.left.current, End(v.left), v.a, v.arms.rhs, v.arms.no)
        else BranchCode(ir, v.left.current, End(v.left), v.a, v.arms.yes, v.arms.rhs))
    && BranchCode(ir, v.right.current, End(v.right), v.b, v.arms.yes, v.arms.no)
    && ArmCode(ir, v.arms.yes, 1, v.arms) && ArmCode(ir, v.arms.no, 0, v.arms)
  }

  ghost predicate ShortPlaces(g: Graph, v: ShortGraphs) {
    && Grows(g, v.left) && Ready(v.left) && Ready(v.start) && Grows(v.start, v.right) && Ready(v.right)
    && v.start.current == v.arms.rhs && Here(v.start) == EMPTY_BLOCK
    && v.last.current == v.arms.join && Here(v.last) == EMPTY_BLOCK
    && v.arms.result == TempName(v.left.nextTemp)
    && g.nextTemp <= v.left.nextTemp < v.start.nextTemp <= v.right.nextTemp == v.last.nextTemp
  }

  lemma BranchInCode(ir: Ir, g: Graph, l: string, before: seq<Instr>, cond: Operand, yes: string, no: string)
    requires CodeHas(ir, g) && l in g.blocks && g.blocks[l].instrs == before + [CondJump(no, cond), Jump(yes)]
    ensures BranchCode(ir, l, |before|, cond, yes, no)
  {
    CodeAt(ir, g, l);
    var ts := g.blocks[l].instrs;
    assert ts[|before|] == CondJump(no, cond) && ts[|before| + 1] == Jump(yes);
  }

  lemma ArmInCode(ir: Ir, g: Graph, arm: string, value: int, arms: Arms)
    requires CodeHas(ir, g) && arm in g.blocks && g.blocks[arm] == ResultBlock(value, arms)
    ensures ArmCode(ir, arm, value, arms)
  {
    CodeAt(ir, g, arm);
    var ts := g.blocks[arm].instrs;
    assert ts[0] == Copy(Imm(value), arms.result) && ts[1] == Jump(arms.join);
  }

  lemma ShortStages(ir: Ir, l: Expr, r: Expr, isAnd: bool, g: Graph) returns (v: ShortGraphs)
    requires Ready(g) && CodeHas(ir, ShortGraphsOf(l, r, isAnd, g).last)
    ensures v == ShortGraphsOf(l, r, isAnd, g)
    ensures ShortCode(ir, isAnd, v) && ShortPlaces(g, v) && CodeHas(ir, v.right) && CodeHas(ir, v.left)
  {
    hide GenExpr, OpenShortCircuit, CloseShortCircuit, Grows, Touches, CodeHas, Fresh, Opened, ShortCode, ShortPlaces;
    v := ShortGraphsOf(l, r, isAnd, g);
    ExprGrows(l, g);
    OpenTouches(v.left, isAnd, v.a);
    ExprGrows(r, v.start);
    CloseTouches(v.start, v.right, v.b, v.arms);
    ShortFrom(ir, isAnd, g, v);
  }

  lemma ShortFrom(ir: Ir, isAnd: bool, g: Graph, v: ShortGraphs)
    requires CodeHas(ir, v.last) && Grows(g, v.left) && Ready(v.left)
    requires Opened(v.left, v.start, v.arms) && v.start.blocks[v.left.current] == LeftBranch(Here(v.left), isAnd, v.a, v.arms)
    requires Grows(v.start, v.right) && Ready(v.right) && Ready(v.last)
    requires Touches(v.start, v.last, {v.arms.rhs, v.arms.yes, v.arms.no})
    requires Touches(v.right, v.last, {v.right.current, v.arms.rhs, v.arms.yes, v.arms.no})
    requires v.arms.yes in v.last.blocks && v.arms.no in v.last.blocks && v.right.current in v.last.blocks
    requires v.last.blocks[v.arms.yes] == ResultBlock(1, v.arms) && v.last.blocks[v.arms.no] == ResultBlock(0, v.arms)
    requires v.last.blocks[v.right.current] == CloseCurrent(v.right, v.b, v.arms)
    requires v.last.current == v.arms.join && Here(v.last) == EMPTY_BLOCK && v.last.nextTemp == v.right.nextTemp
    ensures ShortCode(ir, isAnd, v) && ShortPlaces(g, v) && CodeHas(ir, v.right) && CodeHas(ir, v.left)
  {
    ShortPlacesOf(ir, isAnd, g, v);
    ShortCodeOf(ir, isAnd, v);
  }

  lemma ShortPlacesOf(ir: Ir, isAnd: bool, g: Graph, v: ShortGraphs)
    requires CodeHas(ir, v.last) && Grows(g, v.left) && Ready(v.left)
    requires Opened(v.left, v.start, v.arms) && Grows(v.start, v.right) && Ready(v.right)
    requires Touches(v.right, v.last, {v.right.current, v.arms.rhs, v.arms.yes, v.arms.no})
    requires v.last.current == v.arms.join && Here(v.last) == EMPTY_BLOCK && v.last.nextTemp == v.right.nextTemp
    ensures ShortPlaces(g, v) && CodeHas(ir, v.right) && CodeHas(ir, v.left)
  {
    CodeHasLess(ir, v.right, v.last, {v.right.current, v.arms.rhs, v.arms.yes, v.arms.no});
    CodeHasLess(ir, v.start, v.right, {v.start.current});
    CodeHasLess(ir, v.left, v.start, {v.left.current});
    FitsCounts(g, v.left);
    FitsCounts(v.start, v.right);
    hide CodeHas, Grows, Touches, Fresh;
  }

  lemma ShortCodeOf(ir: Ir, isAnd: bool, v: ShortGraphs)
    requires CodeHas(ir, v.last) && Ready(v.left) && Ready(v.right)
    requires Opened(v.left, v.start, v.arms) && v.start.blocks[v.left.current] == LeftBranch(Here(v.left), isAnd, v.a, v.arms)
    requires Touches(v.start, v.last, {v.arms.rhs, v.arms.yes, v.arms.no})
    requires v.arms.yes in v.last.blocks && v.arms.no in v.last.blocks && v.right.current in v.last.blocks
    requires v.last.blocks[v.arms.yes] == ResultBlock(1, v.arms) && v.last.blocks[v.arms.no] == ResultBlock(0, v.arms)
    requires v.last.blocks[v.right.current] == CloseCurrent(v.right, v.b, v.arms)
    ensures ShortCode(ir, isAnd, v)
  {
    assert v.left.current in v.start.blocks;
    assert v.last.blocks[v.left.current] == v.start.blocks[v.left.current];
    hide CodeHas, Grows, Touches, Fresh, BranchCode, ArmCode;
    ArmInCode(ir, v.last, v.arms.yes, 1, v.arms);
    ArmInCode(ir, v.last, v.arms.no, 0, v.arms);
    BranchInCode(ir, v.last, v.right.current, Here(v.right).instrs, v.b, v.arms.yes, v.arms.no);
    if isAnd {
      BranchInCode(ir, v.last, v.left.current, Here(v.left).instrs, v.a, v.arms.rhs, v.arms.no);
    } else {
      BranchInCode(ir, v.last, v.left.current, Here(v.left).instrs, v.a, v.arms.yes, v.arms.rhs);
    }
  }

  /** An arm stores its value and jumps to the join, where the expression ends. */
  lemma ThenArm(ir: Ir, k: Context, g: Graph, h: Graph, arms: Arms, arm: string, value: int, i: nat,
                fr: Frame, s: Store, n: nat, fr1: Frame, s1: Store, fuel: nat)
    requires ArmCode(ir, arm, value, arms) && arms.result == TempName(i) && TempName(i) in fr.locals
    requires g.nextTemp <= i < h.nextTemp && h.current == arms.join && Here(h) == EMPTY_BLOCK
    requires Run(ir, n, At(k, g, fr, s)) == AtBlock(k, arm, 0, fr1, s1) && Kept(fr, fr1, g.nextTemp)
    ensures ExprRuns(ir, k, g, h, Name(TempName(i)), fr, s, n + 2, SetTemp(fr1, i, value),
                     Source.Done(Source.Now(value), s1), fuel)
  {
    var fr2 := SetTemp(fr1, i, value);
    var c := AtBlock(k, arm, 0, fr1, s1);
    assert TempName(i) in fr1.locals;
    RunOne(ir, c);
    assert Step(ir, c) == AtBlock(k, arm, 1, fr2, s1);
    RunJump(ir, k, arm, 1, arms.join, fr2, s1);
    RunAdd(ir, 1, 1, c);
    RunAdd(ir, n, 2, At(k, g, fr, s));
    SetTempKept(fr1, i, value, g.nextTemp, h.nextTemp);
    KeptTrans(fr, fr1, fr2, g.nextTemp, g.nextTemp);
  }

  /** The source meaning of both operators in one. */
  function EvalShort(p: Program, fuel: nat, l: Expr, r: Expr, isAnd: bool, sf: Frame, s: Store): Source.Outcome<Source.Value> {
    var (a, s1) :- Source.Eval(p, fuel, l, sf, s);
    var (x, _) :- Source.Read(a, sf, s1);
    if (x == 0) == isAnd then Source.Done(Source.Now(OfBool(!isAnd)), s1)
    else EvalRight(p, fuel, r, sf, s1)
  }

  function EvalRight(p: Program, fuel: nat, r: Expr, sf: Frame, s: Store): Source.Outcome<Source.Value> {
    var (b, s2) :- Source.Eval(p, fuel, r, sf, s);
    var (y, _) :- Source.Read(b, sf, s2);
    Source.Done(Source.Now(OfBool(y != 0)), s2)
  }

  lemma EvalShortIs(p: Program, fuel: nat, l: Expr, r: Expr, isAnd: bool, sf: Frame, s: Store)
    ensures Source.Eval(p, fuel, if isAnd then And(l, r) else Or(l, r), sf, s) == EvalShort(p, fuel, l, r, isAnd, sf, s)
  {
  }

  lemma ShortParts(w: World, e: Expr, l: Expr, r: Expr, isAnd: bool, g: Graph, sf: Frame, fr: Frame) returns (v: ShortGraphs)
    requires e == (if isAnd then And(l, r) else Or(l, r))
    requires Source.GoodExpr(w.p, e) && Fits(w.ir, g, GenExpr(e, g).0, sf, fr)
    ensures Source.GoodExpr(w.p, l) && Source.GoodExpr(w.p, r) && r < e && l < e
    ensures GenExpr(e, g) == (v.last, Name(v.arms.result))
    ensures v.left == GenExpr(l, g).0 && v.a == GenExpr(l, g).1
    ensures v.right == GenExpr(r, v.start).0 && v.b == GenExpr(r, v.start).1
    ensures ShortCode(w.ir, isAnd, v) && ShortPlaces(g, v) && CodeHas(w.ir, v.right) && Fits(w.ir, g, v.left, sf, fr)
  {
    hide Grows, Touches, Sees, ShortCode, ShortPlaces;
    v := ShortGraphsOf(l, r, isAnd, g);
    assert GenExpr(e, g) == (v.last, Name(v.arms.result));
    v := ShortStages(w.ir, l, r, isAnd, g);
    FitsFirstShort(w.ir, g, v, sf, fr);
  }

  lemma SimShortCircuit(w: World, fuel: nat, e: Expr, l: Expr, r: Expr, isAnd: bool,
                        g: Graph, k: Context, sf: Frame, fr: Frame, s: Store) returns (n: nat, fr': Frame)
    requires e == (if isAnd then And(l, r) else Or(l, r))
    requires Source.GoodExpr(w.p, e) && Fits(w.ir, g, GenExpr(e, g).0, sf, fr)
    ensures ExprRuns(w.ir, k, g, GenExpr(e, g).0, GenExpr(e, g).1, fr, s, n, fr', Source.Eval(w.p, fuel, e, sf, s), fuel)
    decreases fuel, e, 1
  {
    hide Compiled, Source.GoodExpr, GenExpr, Source.Eval, Fits, Grows, Touches, Sees, Kept, Denotes, ShortCode, ShortPlaces, ShortGraphsOf, Run;
    var v := ShortParts(w, e, l, r, isAnd, g, sf, fr);
    EvalShortIs(w.p, fuel, l, r, isAnd, sf, s);
    n, fr' := SimExpr(w, fuel, l, g, k, sf, fr, s);
    var x := Source.Eval(w.p, fuel, l, sf, s);
    if x.Done? {
      n, fr' := SimShortRest(w, fuel, e, l, r, isAnd, g, k, sf, fr, s, v, n, fr', x);
    } else {
      assert EvalShort(w.p, fuel, l, r, isAnd, sf, s) == Source.Stops(x.why);
    }
  }

  lemma FitsFirstShort(ir: Ir, g: Graph, v: ShortGraphs, sf: Frame, fr: Frame)
    requires Fits(ir, g, v.last, sf, fr) && CodeHas(ir, v.left) && ShortPlaces(g, v)
    ensures Fits(ir, g, v.left, sf, fr)
  {
  }

  lemma FitsRight(ir: Ir, g: Graph, v: ShortGraphs, k: Context, sf: Frame, fr: Frame, fr1: Frame, s: Store)
    requires Fits(ir, g, v.last, sf, fr) && CodeHas(ir, v.right) && ShortPlaces(g, v) && Kept(fr, fr1, g.nextTemp)
    ensures Fits(ir, v.start, v.right, sf, fr1) && TempName(v.left.nextTemp) in fr.locals && Sees(sf, fr1)
    ensures At(k, v.start, fr1, s) == AtBlock(k, v.arms.rhs, 0, fr1, s)
  {
    KeptSees(sf, fr, fr1, g.nextTemp);
  }

  lemma SimShortRest(w: World, fuel: nat, e: Expr, l: Expr, r: Expr, isAnd: bool, g: Graph, k: Context, sf: Frame, fr: Frame,
                     s: Store, v: ShortGraphs, n1: nat, fr1: Frame, x: Source.Outcome<Source.Value>) returns (n: nat, fr': Frame)
    requires r < e && Source.GoodExpr(w.p, r) && v.right == GenExpr(r, v.start).0 && v.b == GenExpr(r, v.start).1
    requires x == Source.Eval(w.p, fuel, l, sf, s) && x.Done?
    requires ShortCode(w.ir, isAnd, v) && ShortPlaces(g, v) && CodeHas(w.ir, v.right) && Fits(w.ir, g, v.last, sf, fr)
    requires ExprRuns(w.ir, k, g, v.left, v.a, fr, s, n1, fr1, x, fuel)
    ensures ExprRuns(w.ir, k, g, v.last, Name(v.arms.result), fr, s, n, fr', EvalShort(w.p, fuel, l, r, isAnd, sf, s), fuel)
    decreases fuel, e, 0
  {
    hide Compiled, Source.GoodExpr, GenExpr, Source.Eval, EvalRight, Grows, Touches, CodeHas, Sees, Kept, Denotes, BranchCode, ArmCode, Run;
    var q := EvalShort(w.p, fuel, l, r, isAnd, sf, s);
    var c := At(k, g, fr, s);
    assert Kept(fr, fr1, g.nextTemp) && Denotes(v.a, x.v, fr1, v.left.nextTemp);
    assert Run(w.ir, n1, c) == At(k, v.left, fr1, x.store);
    FitsRight(w.ir, g, v, k, sf, fr, fr1, x.store);
    var (yes, no) := if isAnd then (v.arms.rhs, v.arms.no) else (v.arms.yes, v.arms.rhs);
    var i := v.left.nextTemp;
    ReadDenotes(v.a, x.v, sf, fr1, x.store, v.left.nextTemp);
    var n2 := RunBranch(w.ir, k, v.left.current, End(v.left), v.a, yes, no, fr1, x.store);
    RunAdd(w.ir, n1, n2, c);
    n, fr' := n1 + n2, fr1;
    var f := Source.Force(x.v, sf, x.store);
    if f.Err? {
      assert q == Source.Stops(Source.Fail(f.f, x.store.out));
    } else if (f.v == 0) == isAnd {
      assert q == Source.Done(Source.Now(OfBool(!isAnd)), x.store);
      var value := OfBool(!isAnd);
      ThenArm(w.ir, k, g, v.last, v.arms, ShortArm(isAnd, v.arms), value, i, fr, s, n, fr1, x.store, fuel);
      n, fr' := n + 2, SetTemp(fr1, i, value);
    } else {
      assert q == EvalRight(w.p, fuel, r, sf, x.store);
      n, fr' := SimRight(w, fuel, e, l, r, isAnd, g, k, sf, fr, s, v, n, fr1, x.store);
    }
  }

  /** The right operand, from its empty block. */
  lemma SimRight(w: World, fuel: nat, e: Expr, l: Expr, r: Expr, isAnd: bool, g: Graph, k: Context, sf: Frame, fr: Frame,
                 s: Store, v: ShortGraphs, n1: nat, fr1: Frame, s1: Store) returns (n: nat, fr': Frame)
    requires r < e && Source.GoodExpr(w.p, r) && v.right == GenExpr(r, v.start).0 && v.b == GenExpr(r, v.start).1
    requires ShortCode(w.ir, isAnd, v) && ShortPlaces(g, v) && CodeHas(w.ir, v.right) && Fits(w.ir, g, v.last, sf, fr)
    requires Kept(fr, fr1, g.nextTemp) && Run(w.ir, n1, At(k, g, fr, s)) == AtBlock(k, v.arms.rhs, 0, fr1, s1)
    ensures ExprRuns(w.ir, k, g, v.last, Name(v.arms.result), fr, s, n, fr', EvalRight(w.p, fuel, r, sf, s1), fuel)
    decreases fuel, e, 0, 0
  {
    hide Compiled, Source.GoodExpr, GenExpr, Source.Eval, Fits, Grows, Touches, CodeHas, Sees, Kept, Denotes, BranchCode, ArmCode, Run;
    var q := EvalRight(w.p, fuel, r, sf, s1);
    var c := At(k, g, fr, s);
    var i := v.left.nextTemp;
    FitsRight(w.ir, g, v, k, sf, fr, fr1, s1);
    var n2, fr2 := SimExpr(w, fuel, r, v.start, k, sf, fr1, s1);
    n, fr' := n1 + n2, fr2;
    var y := Source.Eval(w.p, fuel, r, sf, s1);
    if y.Stops? {
      StoppedLater(w.ir, n1, c, n2, y.why, fuel, fuel);
      assert q == Source.Stops(y.why);
    } else {
      RunAdd(w.ir, n1, n2, c);
      KeptTrans(fr, fr1, fr2, g.nextTemp, v.start.nextTemp);
      KeptSees(sf, fr1, fr2, v.start.nextTemp);
      n, fr' := SimRightTest(w, fuel, r, isAnd, g, k, sf, fr, s, v, n, fr2, s1, y);
    }
  }

  lemma SimRightTest(w: World, fuel: nat, r: Expr, isAnd: bool, g: Graph, k: Context, sf: Frame, fr: Frame, s: Store,
                     v: ShortGraphs, n2: nat, fr2: Frame, s1: Store, y: Source.Outcome<Source.Value>) returns (n: nat, fr': Frame)
    requires ShortCode(w.ir, isAnd, v) && ShortPlaces(g, v) && Sees(sf, fr2) && TempName(v.left.nextTemp) in fr.locals
    requires y == Source.Eval(w.p, fuel, r, sf, s1) && y.Done? && Denotes(v.b, y.v, fr2, v.right.nextTemp)
    requires Kept(fr, fr2, g.nextTemp) && Run(w.ir, n2, At(k, g, fr, s)) == At(k, v.right, fr2, y.store)
    ensures ExprRuns(w.ir, k, g, v.last, Name(v.arms.result), fr, s, n, fr', EvalRight(w.p, fuel, r, sf, s1), fuel)
  {
    var q := EvalRight(w.p, fuel, r, sf, s1);
    var c := At(k, g, fr, s);
    hide Compiled, Source.Eval, Grows, Touches, CodeHas, Sees, Kept, Denotes, BranchCode, ArmCode, Run;
    ReadDenotes(v.b, y.v, sf, fr2, y.store, v.right.nextTemp);
    var n3 := RunBranch(w.ir, k, v.right.current, End(v.right), v.b, v.arms.yes, v.arms.no, fr2, y.store);
    RunAdd(w.ir, n2, n3, c);
    n, fr' := n2 + n3, fr2;
    var f := Source.Force(y.v, sf, y.store);
    if f.Err? {
      assert q == Source.Stops(Source.Fail(f.f, y.store.out));
    } else {
      assert q == Source.Done(Source.Now(OfBool(f.v != 0)), y.store);
      var value := OfBool(f.v != 0);
      ThenArm(w.ir, k, g, v.last, v.arms, if f.v == 0 then v.arms.no else v.arms.yes, value, v.left.nextTemp,
              fr, s, n, fr2, y.store, fuel);
      n, fr' := n + 2, SetTemp(fr2, v.left.nextTemp, value);
    }
  }

  // ----- calls -----

  /** As ExprRuns, for arguments: they are pushed on the pending stack in order. */
  ghost predicate ArgsRun(ir: Ir, k: Context, g: Graph, h: Graph, fr: Frame, s: Store,
                          n: nat, fr': Frame, r: Source.Outcome<seq<int>>, fuel: nat) {
    match r
    case Done(xs, s') => Run(ir, n, At(k, g, fr, s)) == At(Push(k, xs), h, fr', s') && Kept(fr, fr', g.nextTemp)
    case Stops(why) => Stopped(ir, n, At(k, g, fr, s), why, fuel)
  }

  function Push(k: Context, xs: seq<int>): Context {
    k.(stack := k.stack + xs)
  }

  /** One argument: evaluated, then pushed. */
  lemma ThenParam(ir: Ir, k: Context, g: Graph, h: Graph, o: Operand, sf: Frame, fr: Frame, s: Store,
                  n: nat, fr1: Frame, x: Source.Outcome<Source.Value>, fuel: nat)
    requires ExprRuns(ir, k, g, h, o, fr, s, n, fr1, x, fuel) && x.Done? && Sees(sf, fr)
    requires h.current in h.blocks && CodeHas(ir, AddInstr(h, Param(o)))
    ensures match Source.Force(x.v, sf, x.store)
            case Err(f) => Run(ir, n + 1, At(k, g, fr, s)) == Halted(Faulted(f), x.store.out)
            case Ok(v) => Run(ir, n + 1, At(k, g, fr, s)) == At(Push(k, [v]), AddInstr(h, Param(o)), fr1, x.store)
  {
    KeptSees(sf, fr, fr1, g.nextTemp);
    ReadDenotes(o, x.v, sf, fr1, x.store, h.nextTemp);
    RunAdd(ir, n, 1, At(k, g, fr, s));
    RunOne(ir, At(k, h, fr1, x.store));
    StepAt(ir, h, Param(o), k, fr1, x.store);
  }

  lemma ArgsParts(w: World, args: seq<Expr>, g: Graph, sf: Frame, fr: Frame)
    requires args != [] && (forall a | a in args :: Source.GoodExpr(w.p, a)) && Fits(w.ir, g, GenArgs(args, g), sf, fr)
    ensures var (g1, a) := GenExpr(args[0], g);
            var g2 := AddInstr(g1, Param(a));
            && Source.GoodExpr(w.p, args[0]) && (forall a | a in args[1..] :: Source.GoodExpr(w.p, a))
            && GenArgs(args, g) == GenArgs(args[1..], g2)
            && Fits(w.ir, g, g1, sf, fr) && Ready(g1) && Ready(g2) && CodeHas(w.ir, g2) && g.nextTemp <= g1.nextTemp == g2.nextTemp
  {
    hide Compiled, Source.GoodExpr, GenExpr, Touches, Sees;
    var (g1, a) := GenExpr(args[0], g);
    var g2 := AddInstr(g1, Param(a));
    ExprGrows(args[0], g);
    AddInstrTouches(g1, Param(a));
    ArgsGrow(args[1..], g2);
    GrowsTrans(g1, g2, GenArgs(args, g));
    FitsFirst(w.ir, g, g1, GenArgs(args, g), sf, fr);
    CodeHasLess(w.ir, g2, GenArgs(args, g), {g2.current});
  }

  lemma {:induction false} SimArgs(w: World, fuel: nat, args: seq<Expr>, g: Graph,
                                   k: Context, sf: Frame, fr: Frame, s: Store) returns (n: nat, fr': Frame)
    requires (forall a | a in args :: Source.GoodExpr(w.p, a)) && Fits(w.ir, g, GenArgs(args, g), sf, fr)
    ensures ArgsRun(w.ir, k, g, GenArgs(args, g), fr, s, n, fr', Source.EvalArgs(w.p, fuel, args, sf, s), fuel)
    decreases fuel, args
  {
    hide Compiled, Source.GoodExpr, GenExpr, Source.Eval, Touches, Sees, Kept, Denotes, Run, AddInstr;
    n, fr' := 0, fr;
    var c := At(k, g, fr, s);
    var q := Source.EvalArgs(w.p, fuel, args, sf, s);
    if args == [] {
      KeptRefl(fr, g.nextTemp);
      assert Push(k, []) == k;
      RunZero(w.ir, c);
    } else {
      var (g1, a) := GenExpr(args[0], g);
      var g2 := AddInstr(g1, Param(a));
      ArgsParts(w, args, g, sf, fr);
      n, fr' := SimExpr(w, fuel, args[0], g, k, sf, fr, s);
      var x := Source.Eval(w.p, fuel, args[0], sf, s);
      if x.Stops? {
        assert q == Source.Stops(x.why);
      } else {
        ThenParam(w.ir, k, g, g1, a, sf, fr, s, n, fr', x, fuel);
        n := n + 1;
        var f := Source.Force(x.v, sf, x.store);
        if f.Err? {
          assert q == Source.Stops(Source.Fail(f.f, x.store.out));
        } else {
          FitsNext(w.ir, g, g2, GenArgs(args, g), sf, fr, fr');
          var n2, fr2 := SimArgs(w, fuel, args[1..], g2, Push(k, [f.v]), sf, fr', x.store);
          var y := Source.EvalArgs(w.p, fuel, args[1..], sf, x.store);
          if y.Stops? {
            StoppedLater(w.ir, n, c, n2, y.why, fuel, fuel);
            assert q == Source.Stops(y.why);
          } else {
            RunAdd(w.ir, n, n2, c);
            KeptTrans(fr, fr', fr2, g.nextTemp, g2.nextTemp);
            assert q == Source.Done([f.v] + y.v, y.store);
            assert Push(Push(k, [f.v]), y.v) == Push(k, [f.v] + y.v);
          }
          n, fr' := n + n2, fr2;
        }
      }
    }
  }

  lemma RunZero(ir: Ir, c: Config)
    ensures Run(ir, 0, c) == c
  {
  }

  /** The graphs of a call: after the receiver, after the arguments, and with its temporary. */
  datatype CallGraphs = CallGraphs(receiver: Graph, r: Operand, args: Graph, temp: Graph, instr: Instr, last: Graph)

  function CallGraphsOf(e: Expr, g: Graph): CallGraphs
    requires e.Call?
  {
    var (g1, r) := GenExpr(e.receiver, g);
    var g2 := GenArgs(e.args, g1);
    var (g3, t) := NewTemp(g2);
    var instr := Invoke(t, r, RootName(e.className, e.methodName), |e.args|);
    CallGraphs(g1, r, g2, g3, instr, AddInstr(g3, instr))
  }

  lemma CallParts(w: World, e: Expr, g: Graph, sf: Frame, fr: Frame) returns (v: CallGraphs)
    requires e.Call? && Source.GoodExpr(w.p, e) && Fits(w.ir, g, GenExpr(e, g).0, sf, fr)
    ensures v == CallGraphsOf(e, g) && GenExpr(e, g) == (v.last, Name(v.instr.result))
    ensures v.receiver == GenExpr(e.receiver, g).0 && v.r == GenExpr(e.receiver, g).1 && v.args == GenArgs(e.args, v.receiver)
    ensures Source.GoodExpr(w.p, e.receiver) && forall a | a in e.args :: Source.GoodExpr(w.p, a)
    ensures v.instr.Invoke? && v.instr.target in w.p.methods && |w.p.methods[v.instr.target].sig.params| == |e.args|
    ensures v.instr.target == RootName(e.className, e.methodName) && v.instr.receiver == v.r
    ensures v.instr.result == TempName(v.args.nextTemp) && v.instr.result in fr.locals
    ensures Fits(w.ir, g, v.receiver, sf, fr) && Ready(v.receiver) && CodeHas(w.ir, v.args) && CodeHas(w.ir, v.last)
    ensures v.last == AddInstr(v.temp, v.instr) && v.temp.current in v.temp.blocks
    ensures v.temp.current == v.args.current && v.temp.blocks == v.args.blocks
    ensures g.nextTemp <= v.receiver.nextTemp <= v.args.nextTemp < v.last.nextTemp && HasTemps(fr, g.nextTemp, v.last.nextTemp)
  {
    v := CallGraphsOf(e, g);
    ExprGrows(e.receiver, g);
    ArgsGrow(e.args, v.receiver);
    hide GenExpr, GenArgs, Touches, Sees;
    GrowsRefl(v.args);
    TempInstrGrows(v.args, v.args, v.instr);
    GrowsTrans(v.receiver, v.args, v.last);
    FitsFirst(w.ir, g, v.receiver, v.last, sf, fr);
    CodeHasLess(w.ir, v.args, v.last, {v.args.current});
    FitsCounts(v.receiver, v.args);
  }

  /** What is left of a call once receiver and arguments are evaluated. */
  function FinishCall(p: Program, fuel: nat, target: string, r: Source.Value, xs: seq<int>, sf: Frame, s: Store): Source.Outcome<Source.Value> {
    var (self, _) :- Source.Read(r, sf, s);
    if fuel == 0 then Source.Stops(Source.Timeout(s.out))
    else
      var (n, s3) :- Source.CallMethod(p, fuel - 1, target, self, xs, s);
      Source.Done(Source.Now(n), s3)
  }

  lemma EvalCallIs(p: Program, fuel: nat, e: Expr, sf: Frame, s: Store)
    requires e.Call?
    ensures Source.Eval(p, fuel, e, sf, s) ==
            match Source.Eval(p, fuel, e.receiver, sf, s)
            case Stops(w) => Source.Stops(w)
            case Done(r, s1) =>
              match Source.EvalArgs(p, fuel, e.args, sf, s1)
              case Stops(w) => Source.Stops(w)
              case Done(xs, s2) => FinishCall(p, fuel, RootName(e.className, e.methodName), r, xs, sf, s2)
  {
  }

  lemma SimCall(w: World, fuel: nat, e: Expr, g: Graph,
                k: Context, sf: Frame, fr: Frame, s: Store) returns (n: nat, fr': Frame)
    requires e.Call?
    requires Source.GoodExpr(w.p, e) && Fits(w.ir, g, GenExpr(e, g).0, sf, fr)
    ensures ExprRuns(w.ir, k, g, GenExpr(e, g).0, GenExpr(e, g).1, fr, s, n, fr', Source.Eval(w.p, fuel, e, sf, s), fuel)
    decreases fuel, e, 2
  {
    hide Compiled, Source.GoodExpr, GenExpr, GenArgs, Source.Eval, Source.EvalArgs, FinishCall, CallGraphsOf, Touches, CodeHas, Sees, Kept, Denotes, Run, AddInstr;
    var v := CallParts(w, e, g, sf, fr);
    var c := At(k, g, fr, s);
    EvalCallIs(w.p, fuel, e, sf, s);
    n, fr' := SimExpr(w, fuel, e.receiver, g, k, sf, fr, s);
    var x := Source.Eval(w.p, fuel, e.receiver, sf, s);
    if x.Done? {
      FitsArgs(w.ir, g, v, sf, fr, fr');
      var n2, fr2 := SimArgs(w, fuel, e.args, v.receiver, k, sf, fr', x.store);
      var y := Source.EvalArgs(w.p, fuel, e.args, sf, x.store);
      if y.Stops? {
        StoppedLater(w.ir, n, c, n2, y.why, fuel, fuel);
        n := n + n2;
      } else {
        RunAdd(w.ir, n, n2, c);
        KeptTrans(fr, fr', fr2, g.nextTemp, v.receiver.nextTemp);
        KeptDenotes(v.r, x.v, fr', fr2, v.receiver.nextTemp, v.args.nextTemp);
        EvalArgsLength(w.p, fuel, e.args, sf, x.store);
        n, fr' := SimInvoke(w, fuel, e, g, k, sf, fr, s, v, n + n2, fr2, x.v, y.v, y.store);
      }
    }
  }

  lemma FitsArgs(ir: Ir, g: Graph, v: CallGraphs, sf: Frame, fr: Frame, fr1: Frame)
    requires Sees(sf, fr) && Kept(fr, fr1, g.nextTemp) && Ready(v.receiver) && CodeHas(ir, v.args)
    requires HasTemps(fr, g.nextTemp, v.last.nextTemp) && g.nextTemp <= v.receiver.nextTemp <= v.args.nextTemp < v.last.nextTemp
    ensures Fits(ir, v.receiver, v.args, sf, fr1)
  {
    KeptSees(sf, fr, fr1, g.nextTemp);
  }

  lemma {:induction false} EvalArgsLength(p: Program, fuel: nat, args: seq<Expr>, sf: Frame, s: Store)
    ensures var r := Source.EvalArgs(p, fuel, args, sf, s);
            r.Done? ==> |r.v| == |args|
    decreases |args|
  {
    if args != [] {
      var x := Source.Eval(p, fuel, args[0], sf, s);
      if x.Done? {
        EvalArgsLength(p, fuel, args[1..], sf, x.store);
      }
    }
  }

  /** The call instruction itself: entry, body, return. */
  lemma SimInvoke(w: World, fuel: nat, e: Expr, g: Graph, k: Context, sf: Frame, fr: Frame, s: Store, v: CallGraphs,
                  n2: nat, fr2: Frame, r: Source.Value, xs: seq<int>, s2: Store) returns (n: nat, fr': Frame)
    requires CodeHas(w.ir, v.last) && v.last == AddInstr(v.temp, v.instr) && v.temp.current in v.temp.blocks
    requires v.temp.current == v.args.current && v.temp.blocks == v.args.blocks
    requires v.instr.Invoke? && v.instr.target in w.p.methods && |w.p.methods[v.instr.target].sig.params| == |xs|
    requires v.instr.receiver == v.r && v.instr.result == TempName(v.args.nextTemp) && v.instr.result in fr.locals
    requires g.nextTemp <= v.args.nextTemp < v.last.nextTemp
    requires Run(w.ir, n2, At(k, g, fr, s)) == At(Push(k, xs), v.args, fr2, s2) && Kept(fr, fr2, g.nextTemp)
    requires Sees(sf, fr) && Denotes(v.r, r, fr2, v.args.nextTemp)
    ensures ExprRuns(w.ir, k, g, v.last, Name(v.instr.result), fr, s, n, fr',
                     FinishCall(w.p, fuel, v.instr.target, r, xs, sf, s2), fuel)
    decreases fuel, e, 1
  {
    hide Compiled, CompiledMethod, Source.CallMethod, Machine.Enter, CodeHas, Sees, Kept, Denotes, Run, AddInstr, Execute, Step, ExprRuns;
    var c := At(k, g, fr, s);
    var d := At(Push(k, xs), v.temp, fr2, s2);
    assert d == At(Push(k, xs), v.args, fr2, s2);
    n, fr' := n2, fr2;
    var f := Source.Force(r, sf, s2);
    var q := FinishCall(w.p, fuel, v.instr.target, r, xs, sf, s2);
    KeptSees(sf, fr, fr2, g.nextTemp);
    ReadDenotes(v.r, r, sf, fr2, s2, v.args.nextTemp);
    InvokeStep(w, v, k, xs, fr2, s2);
    RunAdd(w.ir, n2, 1, c);
    RunOne(w.ir, d);
    if f.Err? {
      assert q == Source.Stops(Source.Fail(f.f, s2.out));
      n := n2 + 1;
      StopsRuns(w.ir, k, g, v, fr, s, n, fr', q, fuel);
    } else if fuel == 0 {
      assert q == Source.Stops(Source.Timeout(s2.out));
      StopsRuns(w.ir, k, g, v, fr, s, n, fr', q, fuel);
    } else {
      n, fr' := SimEntered(w, fuel, e, g, k, fr, s, v, n2 + 1, fr2, f.v, xs, s2);
      var y := Source.CallMethod(w.p, fuel - 1, v.instr.target, f.v, xs, s2);
      assert q == if y.Done? then Source.Done(Source.Now(y.v), y.store) else Source.Stops(y.why);
    }
  }

  lemma StopsRuns(ir: Ir, k: Context, g: Graph, v: CallGraphs, fr: Frame, s: Store, n: nat, fr': Frame,
                  q: Source.Outcome<Source.Value>, fuel: nat)
    requires v.instr.Invoke? && q.Stops? && Stopped(ir, n, At(k, g, fr, s), q.why, fuel)
    ensures ExprRuns(ir, k, g, v.last, Name(v.instr.result), fr, s, n, fr', q, fuel)
  {
  }

  /** What the call instruction does to a configuration. */
  lemma InvokeStep(w: World, v: CallGraphs, k: Context, xs: seq<int>, fr: Frame, s: Store)
    requires CodeHas(w.ir, v.last) && v.last == AddInstr(v.temp, v.instr) && v.temp.current in v.temp.blocks
    requires v.instr.Invoke? && v.instr.target in w.p.methods && |w.p.methods[v.instr.target].sig.params| == |xs|
    ensures v.instr.target in w.ir.sigs
    ensures Step(w.ir, At(Push(k, xs), v.temp, fr, s)) ==
            match Read(v.instr.receiver, fr, s)
            case Err(f) => Halted(Faulted(f), s.out)
            case Ok(self) =>
              match Machine.Enter(w.ir.sigs[v.instr.target], self, k.stack + xs, s)
              case Err(f) => Halted(Faulted(f), s.out)
              case Ok((fr0, rest, s0)) =>
                Running(Activation(v.instr.target, v.instr.target, 0, fr0), k.callers + [CallerOf(k, v, fr)], rest, s0)
  {
    hide Compiled, CompiledMethod, Source.GoodExpr, Source.GoodStmt, CodeHas, AddInstr, Machine.Enter, SameSignature;
    MethodOf(w, v.instr.target);
    StepAt(w.ir, v.temp, v.instr, Push(k, xs), fr, s);
  }

  function CallerOf(k: Context, v: CallGraphs, fr: Frame): Caller
    requires v.instr.Invoke?
  {
    Caller(Activation(k.name, v.temp.current, End(v.temp) + 1, fr), v.instr.result)
  }

  lemma MethodOf(w: World, name: string)
    requires name in w.p.methods
    ensures name in w.starts && name in w.ir.sigs && CompiledMethod(w.ir, name, w.p.methods[name], w.starts[name])
    ensures SameSignature(w.p.methods[name].sig, w.ir.sigs[name])
    ensures Source.GoodExpr(w.p, w.p.methods[name].result)
    ensures forall t :: t in w.p.methods[name].body ==> Source.GoodStmt(w.p, t)
  {
    assert name in w.starts;
  }

  /** Entry has been made or has faulted, after n1 steps; the callee runs with one unit of fuel less. */
  lemma SimEntered(w: World, fuel: nat, e: Expr, g: Graph, k: Context, fr: Frame, s: Store, v: CallGraphs,
                   n1: nat, fr2: Frame, self: int, xs: seq<int>, s2: Store) returns (n: nat, fr': Frame)
    requires fuel > 0 && v.last == AddInstr(v.temp, v.instr) && v.temp.current in v.temp.blocks
    requires v.instr.Invoke? && v.instr.target in w.p.methods && |w.p.methods[v.instr.target].sig.params| == |xs|
    requires v.instr.result == TempName(v.args.nextTemp) && v.instr.result in fr.locals
    requires g.nextTemp <= v.args.nextTemp < v.last.nextTemp && n1 > 0
    requires v.instr.target in w.ir.sigs && Kept(fr, fr2, g.nextTemp)
    requires Run(w.ir, n1, At(k, g, fr, s)) ==
            match Machine.Enter(w.ir.sigs[v.instr.target], self, k.stack + xs, s2)
            case Err(f) => Halted(Faulted(f), s2.out)
            case Ok((fr0, rest, s0)) =>
              Running(Activation(v.instr.target, v.instr.target, 0, fr0), k.callers + [CallerOf(k, v, fr2)], rest, s0)
    ensures var y := Source.CallMethod(w.p, fuel - 1, v.instr.target, self, xs, s2);
            ExprRuns(w.ir, k, g, v.last, Name(v.instr.result), fr, s, n, fr',
                     if y.Done? then Source.Done(Source.Now(y.v), y.store) else Source.Stops(y.why), fuel)
    decreases fuel, e, 0
  {
    hide Compiled, CompiledMethod, Source.Exec, Source.ExecAll, Source.Eval, MethodResult, Machine.Enter, Sees, Kept, Denotes, Run;
    var name := v.instr.target;
    var m := w.p.methods[name];
    var c := At(k, g, fr, s);
    n, fr' := n1, fr2;
    MethodOf(w, name);
    EnterSees(m.sig, w.ir.sigs[name], self, k.stack, xs, s2);
    CallMethodIs(w.p, fuel - 1, name, self, xs, s2);
    var entry := Machine.Enter(m.sig, self, xs, s2);
    if entry.Ok? {
      var fr0 := Machine.Enter(w.ir.sigs[name], self, k.stack + xs, s2).v.0;
      var inner := Context(name, k.callers + [CallerOf(k, v, fr2)], k.stack);
      var n2, frr := SimMethod(w, fuel - 1, name, inner, entry.v.0, fr0, entry.v.2);
      var y := MethodResult(w.p, fuel - 1, m, entry.v.0, entry.v.2);
      n := n1 + n2;
      if y.Stops? {
        StoppedLater(w.ir, n1, c, n2, y.why, fuel - 1, fuel);
      } else {
        RunAdd(w.ir, n1, n2, c);
        var i := v.args.nextTemp;
        fr' := ThenLeave(w.ir, k, g, v, fr, s, n, fr2, y.v, y.store, name, frr);
        n := n + 1;
      }
    }
  }

  /** Body and result of a method, from its bound frame. */
  function MethodResult(p: Program, fuel: nat, m: Method, fr: Frame, s: Store): Source.Outcome<int> {
    var (fr1, s1) :- Source.ExecAll(p, fuel, m.body, fr, s);
    var (r, s2) :- Source.Eval(p, fuel, m.result, fr1, s1);
    Source.Read(r, fr1, s2)
  }

  lemma CallMethodIs(p: Program, fuel: nat, target: string, self: int, args: seq<int>, s: Store)
    requires target in p.methods
    ensures Source.CallMethod(p, fuel, target, self, args, s) ==
            match Machine.Enter(p.methods[target].sig, self, args, s)
            case Err(f) => Source.Stops(Source.Fail(f, s.out))
            case Ok((fr, _, s1)) => MethodResult(p, fuel, p.methods[target], fr, s1)
  {
  }

  /** The callee is about to return v: a configuration whose next step is Leave. */
  ghost predicate Returning(ir: Ir, k: Context, fr: Frame, s: Store, v: int, c: Config) {
    c.Running? && c.callers == k.callers && c.stack == k.stack && c.store == s && Step(ir, c) == Leave(v, c)
  }

  lemma ThenLeave(ir: Ir, k: Context, g: Graph, v: CallGraphs, fr: Frame, s: Store, n: nat, fr2: Frame,
                  x: int, s3: Store, name: string, callee: Frame) returns (fr': Frame)
    requires v.instr.Invoke? && v.last == AddInstr(v.temp, v.instr) && v.temp.current in v.temp.blocks
    requires v.instr.result == TempName(v.args.nextTemp) && v.instr.result in fr.locals
    requires g.nextTemp <= v.args.nextTemp < v.last.nextTemp && Kept(fr, fr2, g.nextTemp)
    requires Returning(ir, Context(name, k.callers + [CallerOf(k, v, fr2)], k.stack), callee, s3, x, Run(ir, n, At(k, g, fr, s)))
    ensures ExprRuns(ir, k, g, v.last, Name(v.instr.result), fr, s, n + 1, fr', Source.Done(Source.Now(x), s3), 0)
  {
    var i := v.args.nextTemp;
    fr' := SetTemp(fr2, i, x);
    SetTempKept(fr2, i, x, g.nextTemp, v.last.nextTemp);
    KeptTrans(fr, fr2, fr', g.nextTemp, g.nextTemp);
    var c := Run(ir, n, At(k, g, fr, s));
    RunAdd(ir, n, 1, At(k, g, fr, s));
    RunOne(ir, c);
    assert c.callers[..|c.callers| - 1] == k.callers;
    assert SetVar(v.instr.result, x, fr2, s3) == Ok((fr', s3));
    assert End(v.last) == End(v.temp) + 1;
  }

  /** A method's code, from its empty root block, runs to the point of returning its result. */
  /** The run from c has done in n steps what r says, about to return if it is a value. */
  ghost predicate MethodRuns(ir: Ir, k: Context, c: Config, n: nat, fr': Frame, r: Source.Outcome<int>, fuel: nat) {
    match r
    case Done(v, s') => Returning(ir, k, fr', s', v, Run(ir, n, c))
    case Stops(why) => Stopped(ir, n, c, why, fuel)
  }

  lemma SimMethod(w: World, fuel: nat, name: string, k: Context, sf: Frame, fr: Frame, s: Store) returns (n: nat, fr': Frame)
    requires name in w.p.methods && name in w.ir.sigs && k.name == name
    requires Sees(sf, fr) && fr.locals.Keys == w.ir.sigs[name].locals
    ensures MethodRuns(w.ir, k, AtBlock(k, name, 0, fr, s), n, fr', MethodResult(w.p, fuel, w.p.methods[name], sf, s), fuel)
    decreases fuel
  {
    hide Compiled, CompiledMethod, Source.Exec, Source.ExecAll, Source.Eval, Source.GoodExpr, Source.GoodStmt, GenStmts, GenExpr, Fits, Sees, Kept, Denotes, Run, ExprRuns, Returning;
    var m := w.p.methods[name];
    var v := MethodParts(w, name, k, sf, fr, s);
    n, fr' := SimStmts(w, fuel, m.body, v.start, k, sf, fr, s);
    var x := Source.ExecAll(w.p, fuel, m.body, sf, s);
    if x.Done? {
      FitsResult(w, name, v, sf, fr, x.v, fr');
      var n2, fr2 := SimExpr(w, fuel, m.result, v.body, k, x.v, fr', x.store);
      n, fr' := ThenReturn(w, fuel, name, k, v, fr, s, n, sf, x.v, fr', x.store, n2, fr2);
    }
  }

  /** The graphs of a method: at its root, after its body, after its result. */
  datatype MethodGraphs = MethodGraphs(start: Graph, body: Graph, result: Graph, r: Operand)

  ghost predicate MethodPlaces(w: World, name: string, v: MethodGraphs)
    requires name in w.p.methods
  {
    var m := w.p.methods[name];
    && v.body == GenStmts(m.body, v.start) && v.result == GenExpr(m.result, v.body).0 && v.r == GenExpr(m.result, v.body).1
    && Ready(v.body) && v.result.current in v.result.blocks && CodeHas(w.ir, v.result) && CodeHas(w.ir, AddInstr(v.result, Return(v.r)))
    && v.start.nextTemp <= v.body.nextTemp <= v.result.nextTemp
  }

  lemma MethodParts(w: World, name: string, k: Context, sf: Frame, fr: Frame, s: Store) returns (v: MethodGraphs)
    requires name in w.p.methods && name in w.ir.sigs && k.name == name
    requires Sees(sf, fr) && fr.locals.Keys == w.ir.sigs[name].locals
    ensures MethodPlaces(w, name, v)
    ensures v.body == GenStmts(w.p.methods[name].body, v.start) && v.result == GenExpr(w.p.methods[name].result, v.body).0
    ensures Fits(w.ir, v.start, v.body, sf, fr) && HasTemps(fr, v.start.nextTemp, v.result.nextTemp)
    ensures At(k, v.start, fr, s) == AtBlock(k, name, 0, fr, s)
    ensures Source.GoodExpr(w.p, w.p.methods[name].result)
    ensures forall t :: t in w.p.methods[name].body ==> Source.GoodStmt(w.p, t)
  {
    hide Compiled, Source.GoodExpr, Source.GoodStmt, GenStmts, GenExpr, Touches, Sees;
    MethodOf(w, name);
    var m, g := w.p.methods[name], w.starts[name];
    var g1 := GenStmts(m.body, g);
    var (g2, r) := GenExpr(m.result, g1);
    v := MethodGraphs(g, g1, g2, r);
    StmtsGrow(m.body, g);
    ExprGrows(m.result, g1);
    AddInstrTouches(g2, Return(r));
    CodeHasLess(w.ir, g2, AddInstr(g2, Return(r)), {g2.current});
    CodeHasLess(w.ir, g1, g2, {g1.current});
    FitsCounts(g, g1);
    FitsCounts(g1, g2);
    assert GenBody(m, g) == AddInstr(g2, Return(r));
    assert HasTemps(fr, g.nextTemp, g2.nextTemp);
  }

  lemma FitsResult(w: World, name: string, v: MethodGraphs, sf: Frame, fr: Frame, sf1: Frame, fr1: Frame)
    requires name in w.p.methods && MethodPlaces(w, name, v) && HasTemps(fr, v.start.nextTemp, v.result.nextTemp)
    requires Sees(sf1, fr1) && fr1.locals.Keys == fr.locals.Keys
    ensures Fits(w.ir, v.body, v.result, sf1, fr1) && GenExpr(w.p.methods[name].result, v.body) == (v.result, v.r)
  {
    hide Compiled;
  }

  lemma ThenReturn(w: World, fuel: nat, name: string, k: Context, v: MethodGraphs, fr: Frame, s: Store, n1: nat,
                   sf: Frame, sf1: Frame, fr1: Frame, s1: Store, n2: nat, fr2: Frame) returns (n: nat, fr': Frame)
    requires name in w.p.methods && MethodPlaces(w, name, v)
    requires Source.ExecAll(w.p, fuel, w.p.methods[name].body, sf, s) == Source.Done(sf1, s1)
    requires Run(w.ir, n1, At(k, v.start, fr, s)) == At(k, v.body, fr1, s1) && Sees(sf1, fr1)
    requires ExprRuns(w.ir, k, v.body, v.result, v.r, fr1, s1, n2, fr2, Source.Eval(w.p, fuel, w.p.methods[name].result, sf1, s1), fuel)
    ensures var c := At(k, v.start, fr, s);
            match MethodResult(w.p, fuel, w.p.methods[name], sf, s)
            case Done(x, s') => Returning(w.ir, k, fr', s', x, Run(w.ir, n, c))
            case Stops(why) => Stopped(w.ir, n, c, why, fuel)
  {
    hide Compiled, Source.ExecAll, Source.Eval, GenStmts, GenExpr, CodeHas, Sees, Kept, Denotes, Run, AddInstr;
    var m := w.p.methods[name];
    var c := At(k, v.start, fr, s);
    n, fr' := n1 + n2, fr2;
    var y := Source.Eval(w.p, fuel, m.result, sf1, s1);
    if y.Stops? {
      StoppedLater(w.ir, n1, c, n2, y.why, fuel, fuel);
      assert MethodResult(w.p, fuel, m, sf, s) == Source.Stops(y.why);
    } else {
      RunAdd(w.ir, n1, n2, c);
      KeptSees(sf1, fr1, fr2, v.body.nextTemp);
      ReadDenotes(v.r, y.v, sf1, fr2, y.store, v.result.nextTemp);
      var d := At(k, v.result, fr2, y.store);
      StepAt(w.ir, v.result, Return(v.r), k, fr2, y.store);
      var f := Source.Force(y.v, sf1, y.store);
      if f.Err? {
        RunAdd(w.ir, n, 1, c);
        RunOne(w.ir, d);
        n := n + 1;
        assert MethodResult(w.p, fuel, m, sf, s) == Source.Stops(Source.Fail(f.f, y.store.out));
      } else {
        assert MethodResult(w.p, fuel, m, sf, s) == Source.Done(f.v, y.store);
      }
    }
  }

  // ----- statements -----

  ghost predicate StmtRuns(ir: Ir, k: Context, g: Graph, h: Graph, fr: Frame, s: Store,
                           n: nat, fr': Frame, r: Source.Outcome<Frame>, fuel: nat) {
    match r
    case Done(sf', s') =>
      Run(ir, n, At(k, g, fr, s)) == At(k, h, fr', s') && Sees(sf', fr') && fr'.locals.Keys == fr.locals.Keys
    case Stops(why) => Stopped(ir, n, At(k, g, fr, s), why, fuel)
  }

  lemma {:induction false} SimStmts(w: World, fuel: nat, ts: seq<Stmt>, g: Graph,
                                    k: Context, sf: Frame, fr: Frame, s: Store) returns (n: nat, fr': Frame)
    requires (forall t | t in ts :: Source.GoodStmt(w.p, t)) && Fits(w.ir, g, GenStmts(ts, g), sf, fr)
    ensures StmtRuns(w.ir, k, g, GenStmts(ts, g), fr, s, n, fr', Source.ExecAll(w.p, fuel, ts, sf, s), fuel)
    decreases fuel, ts
  {
    hide Compiled, Source.GoodStmt, GenStmt, Source.Exec, Touches, Sees, Kept, Run, At;
    n, fr' := 0, fr;
    var c := At(k, g, fr, s);
    var q := Source.ExecAll(w.p, fuel, ts, sf, s);
    if ts == [] {
      RunZero(w.ir, c);
    } else {
      var g1 := GenStmt(ts[0], g);
      var h := GenStmts(ts[1..], g1);
      StmtGrows(ts[0], g);
      StmtsGrow(ts[1..], g1);
      FitsFirst(w.ir, g, g1, h, sf, fr);
      n, fr' := SimStmt(w, fuel, ts[0], g, k, sf, fr, s);
      var x := Source.Exec(w.p, fuel, ts[0], sf, s);
      if x.Stops? {
        assert q == Source.Stops(x.why);
      } else {
        FitsThen(w.ir, g, g1, h, sf, fr, x.v, fr');
        var n2, fr2 := SimStmts(w, fuel, ts[1..], g1, k, x.v, fr', x.store);
        assert q == Source.ExecAll(w.p, fuel, ts[1..], x.v, x.store);
        StmtJoin(w.ir, k, g, g1, h, fr, s, n, x.v, fr', x.store, n2, fr2, q, fuel, fuel);
        n, fr' := n + n2, fr2;
      }
    }
  }

  lemma FitsThen(ir: Ir, g: Graph, h: Graph, j: Graph, sf: Frame, fr: Frame, sf1: Frame, fr1: Frame)
    requires Fits(ir, g, j, sf, fr) && Ready(h) && g.nextTemp <= h.nextTemp
    requires Sees(sf1, fr1) && fr1.locals.Keys == fr.locals.Keys
    ensures Fits(ir, h, j, sf1, fr1)
  {
  }

  /** A run of n1 steps to the end of h, then the run that gives the outcome. */
  lemma StmtJoin(ir: Ir, k: Context, g: Graph, h: Graph, j: Graph, fr: Frame, s: Store, n1: nat, sf1: Frame, fr1: Frame, s1: Store,
                 n2: nat, fr2: Frame, q: Source.Outcome<Frame>, less: nat, fuel: nat)
    requires Run(ir, n1, At(k, g, fr, s)) == At(k, h, fr1, s1) && fr1.locals.Keys == fr.locals.Keys
    requires StmtRuns(ir, k, h, j, fr1, s1, n2, fr2, q, less) && fuel <= less + n1
    ensures StmtRuns(ir, k, g, j, fr, s, n1 + n2, fr2, q, fuel)
  {
    hide Run, At, Sees;
    RunAdd(ir, n1, n2, At(k, g, fr, s));
    if q.Stops? {
      StoppedLater(ir, n1, At(k, g, fr, s), n2, q.why, less, fuel);
    }
  }

  lemma {:induction false} SimStmt(w: World, fuel: nat, t: Stmt, g: Graph,
                                   k: Context, sf: Frame, fr: Frame, s: Store) returns (n: nat, fr': Frame)
    requires Source.GoodStmt(w.p, t) && Fits(w.ir, g, GenStmt(t, g), sf, fr)
    ensures StmtRuns(w.ir, k, g, GenStmt(t, g), fr, s, n, fr', Source.Exec(w.p, fuel, t, sf, s), fuel)
    decreases fuel, t
  {
    hide Compiled, Source.GoodExpr, GenStmts, GenExpr, Source.ExecAll, Source.Eval, Fits, StmtRuns;
    match t
    case Assign(x, e) => n, fr' := SimEffect(w, fuel, t, g, k, sf, fr, s);
    case ArrayAssign(x, i, e) => n, fr' := SimArrayAssign(w, fuel, t, g, k, sf, fr, s);
    case Print(e) => n, fr' := SimEffect(w, fuel, t, g, k, sf, fr, s);
    case If(c, thn) => n, fr' := SimIf(w, fuel, t, g, k, sf, fr, s);
    case IfElse(c, thn, els) => n, fr' := SimIfElse(w, fuel, t, g, k, sf, fr, s);
    case While(c, body) => n, fr' := SimWhile(w, fuel, t, g, k, sf, fr, s);
    case Block(ts) => n, fr' := SimStmts(w, fuel, ts, g, k, sf, fr, s);
  }

  function EffectInstr(t: Stmt, a: Operand): Instr
    requires t.Assign? || t.Print?
  {
    if t.Assign? then Copy(a, t.x) else PrintTac(a)
  }

  /** The effect of an assignment or print once its expression has a value. */
  function Effect(t: Stmt, a: Source.Value, sf: Frame, s: Store): Source.Outcome<Frame>
    requires t.Assign? || t.Print?
  {
    var (n, _) :- Source.Read(a, sf, s);
    if t.Print? then Source.Done(sf, s.(out := s.out + [n]))
    else
      var (u, _) :- Source.Lift(SetVar(t.x, n, sf, s), s);
      Source.Done(u.0, u.1)
  }

  lemma EffectParts(w: World, fuel: nat, t: Stmt, g: Graph, sf: Frame, fr: Frame, s: Store) returns (g1: Graph, a: Operand)
    requires (t.Assign? || t.Print?) && Source.GoodStmt(w.p, t) && Fits(w.ir, g, GenStmt(t, g), sf, fr)
    ensures (g1, a) == GenExpr(t.e, g) && GenStmt(t, g) == AddInstr(g1, EffectInstr(t, a))
    ensures Source.GoodExpr(w.p, t.e) && (t.Assign? ==> !Generated(t.x))
    ensures Fits(w.ir, g, g1, sf, fr) && CodeHas(w.ir, AddInstr(g1, EffectInstr(t, a))) && g1.current in g1.blocks
    ensures match Source.Eval(w.p, fuel, t.e, sf, s)
            case Stops(why) => Source.Exec(w.p, fuel, t, sf, s) == Source.Stops(why)
            case Done(v, s1) => Source.Exec(w.p, fuel, t, sf, s) == Effect(t, v, sf, s1)
  {
    hide Compiled, Source.GoodExpr, GenExpr, Source.Eval, Touches, Sees;
    g1 := GenExpr(t.e, g).0;
    a := GenExpr(t.e, g).1;
    ExprGrows(t.e, g);
    AddInstrTouches(g1, EffectInstr(t, a));
    FitsFirst(w.ir, g, g1, AddInstr(g1, EffectInstr(t, a)), sf, fr);
  }

  lemma SimEffect(w: World, fuel: nat, t: Stmt, g: Graph,
                  k: Context, sf: Frame, fr: Frame, s: Store) returns (n: nat, fr': Frame)
    requires (t.Assign? || t.Print?) && Source.GoodStmt(w.p, t) && Fits(w.ir, g, GenStmt(t, g), sf, fr)
    ensures StmtRuns(w.ir, k, g, GenStmt(t, g), fr, s, n, fr', Source.Exec(w.p, fuel, t, sf, s), fuel)
    decreases fuel, t, 0
  {
    hide Compiled, Source.GoodExpr, Source.GoodStmt, GenExpr, GenStmt, Source.Eval, Source.Exec, Effect, Touches, CodeHas, Sees, Kept, Denotes, Run, AddInstr;
    var g1, a := EffectParts(w, fuel, t, g, sf, fr, s);
    n, fr' := SimExpr(w, fuel, t.e, g, k, sf, fr, s);
    var x := Source.Eval(w.p, fuel, t.e, sf, s);
    if x.Done? {
      KeptSees(sf, fr, fr', g.nextTemp);
      ReadDenotes(a, x.v, sf, fr', x.store, g1.nextTemp);
      KeptKeys(fr, fr', g.nextTemp);
      var fr1 := fr';
      fr' := EffectStep(w.ir, t, g1, a, k, sf, fr1, x.v, x.store);
      RunAdd(w.ir, n, 1, At(k, g, fr, s));
      n := n + 1;
    }
  }

  lemma KeptKeys(fr: Frame, fr': Frame, n: nat)
    requires Kept(fr, fr', n)
    ensures fr'.locals.Keys == fr.locals.Keys
  {
  }

  lemma EffectStep(ir: Ir, t: Stmt, g: Graph, a: Operand, k: Context, sf: Frame, fr: Frame, v: Source.Value, s: Store)
    returns (fr': Frame)
    requires (t.Assign? || t.Print?) && (t.Assign? ==> !Generated(t.x))
    requires CodeHas(ir, AddInstr(g, EffectInstr(t, a))) && g.current in g.blocks
    requires Sees(sf, fr) && Read(a, fr, s) == Source.Force(v, sf, s)
    ensures match Effect(t, v, sf, s)
            case Stops(why) => why.Fail? && Run(ir, 1, At(k, g, fr, s)) == Halted(Faulted(why.f), why.out)
            case Done(sf', s') =>
              Run(ir, 1, At(k, g, fr, s)) == At(k, AddInstr(g, EffectInstr(t, a)), fr', s')
              && Sees(sf', fr') && fr'.locals.Keys == fr.locals.Keys
  {
    hide CodeHas, Sees, Run;
    fr' := fr;
    StepAt(ir, g, EffectInstr(t, a), k, fr, s);
    RunOne(ir, At(k, g, fr, s));
    var f := Source.Force(v, sf, s);
    if t.Assign? && f.Ok? {
      SetVarSees(t.x, f.v, sf, fr, s);
      if SetVar(t.x, f.v, fr, s).Ok? {
        fr' := SetVar(t.x, f.v, fr, s).v.0;
      }
    }
  }

  function StoreEffect(x: string, i: Source.Value, a: Source.Value, sf: Frame, s: Store): Source.Outcome<Frame> {
    var (ref, _) :- Source.Read(Source.Later(x), sf, s);
    var (k, _) :- Source.Read(i, sf, s);
    var (n, _) :- Source.Read(a, sf, s);
    var (s1, _) :- Source.Lift(StoreElement(ref, k, n, s), s);
    Source.Done(sf, s1)
  }

  function ArrayAssigned(p: Program, fuel: nat, t: Stmt, sf: Frame, s: Store): Source.Outcome<Frame>
    requires t.ArrayAssign?
  {
    var (v, s1) :- EvalPair(p, fuel, t.index, t.e, sf, s);
    StoreEffect(t.x, v.0, v.1, sf, s1)
  }

  lemma ArrayAssignParts(w: World, fuel: nat, t: Stmt, g: Graph, sf: Frame, fr: Frame, s: Store) returns (q: (Graph, Operand, Operand))
    requires t.ArrayAssign? && Source.GoodStmt(w.p, t) && Fits(w.ir, g, GenStmt(t, g), sf, fr)
    ensures q == GenPair(t.index, t.e, g) && GenStmt(t, g) == AddInstr(q.0, ArrayCopy(t.x, q.1, q.2))
    ensures Source.GoodExpr(w.p, t.index) && Source.GoodExpr(w.p, t.e) && !Generated(t.x)
    ensures Fits(w.ir, g, q.0, sf, fr) && CodeHas(w.ir, AddInstr(q.0, ArrayCopy(t.x, q.1, q.2))) && q.0.current in q.0.blocks
    ensures Source.Exec(w.p, fuel, t, sf, s) == ArrayAssigned(w.p, fuel, t, sf, s)
  {
    hide Compiled, Source.GoodExpr, GenExpr, Source.Eval, Touches, Sees;
    q := GenPair(t.index, t.e, g);
    var g1 := GenExpr(t.index, g).0;
    ExprGrows(t.index, g);
    ExprGrows(t.e, g1);
    GrowsTrans(g, g1, q.0);
    AddInstrTouches(q.0, ArrayCopy(t.x, q.1, q.2));
    FitsFirst(w.ir, g, q.0, AddInstr(q.0, ArrayCopy(t.x, q.1, q.2)), sf, fr);
  }

  lemma SimArrayAssign(w: World, fuel: nat, t: Stmt, g: Graph,
                       k: Context, sf: Frame, fr: Frame, s: Store) returns (n: nat, fr': Frame)
    requires t.ArrayAssign? && Source.GoodStmt(w.p, t) && Fits(w.ir, g, GenStmt(t, g), sf, fr)
    ensures StmtRuns(w.ir, k, g, GenStmt(t, g), fr, s, n, fr', Source.Exec(w.p, fuel, t, sf, s), fuel)
    decreases fuel, t, 0
  {
    hide Compiled, Source.GoodExpr, Source.GoodStmt, GenExpr, GenStmt, Source.Eval, Source.Exec, EvalPair, ArrayAssigned, Touches, CodeHas, Sees, Kept, Denotes, Run, AddInstr;
    var q := ArrayAssignParts(w, fuel, t, g, sf, fr, s);
    var g1 := PairFits(w, t.index, t.e, g, sf, fr);
    n, fr' := SimExpr(w, fuel, t.index, g, k, sf, fr, s);
    var x := Source.Eval(w.p, fuel, t.index, sf, s);
    var n2, fr2 := 0, fr';
    if x.Done? {
      FitsNext(w.ir, g, g1, q.0, sf, fr, fr');
      n2, fr2 := SimExpr(w, fuel, t.e, g1, k, sf, fr', x.store);
    }
    PairJoin(w, fuel, t.index, t.e, g, k, sf, fr, s, n, fr', n2, fr2);
    if x.Done? { n, fr' := n + n2, fr2; }
    n, fr' := ThenStore(w, fuel, t, g, q, k, sf, fr, s, n, fr');
  }

  lemma ThenStore(w: World, fuel: nat, t: Stmt, g: Graph, q: (Graph, Operand, Operand), k: Context, sf: Frame, fr: Frame, s: Store,
                  n1: nat, fr1: Frame) returns (n: nat, fr': Frame)
    requires t.ArrayAssign? && !Generated(t.x) && Sees(sf, fr) && q == GenPair(t.index, t.e, g)
    requires CodeHas(w.ir, AddInstr(q.0, ArrayCopy(t.x, q.1, q.2))) && q.0.current in q.0.blocks
    requires PairRuns(w.ir, k, g, q, fr, s, n1, fr1, EvalPair(w.p, fuel, t.index, t.e, sf, s), fuel)
    ensures StmtRuns(w.ir, k, g, AddInstr(q.0, ArrayCopy(t.x, q.1, q.2)), fr, s, n, fr', ArrayAssigned(w.p, fuel, t, sf, s), fuel)
  {
    hide Compiled, GenPair, EvalPair, Touches, CodeHas, Kept, Denotes, Run;
    n, fr' := n1, fr1;
    var x := EvalPair(w.p, fuel, t.index, t.e, sf, s);
    if x.Done? {
      KeptSees(sf, fr, fr1, g.nextTemp);
      KeptKeys(fr, fr1, g.nextTemp);
      ReadDenotes(q.1, x.v.0, sf, fr1, x.store, q.0.nextTemp);
      ReadDenotes(q.2, x.v.1, sf, fr1, x.store, q.0.nextTemp);
      NameDenotes(t.x, sf, fr1, x.store);
      StepAt(w.ir, q.0, ArrayCopy(t.x, q.1, q.2), k, fr1, x.store);
      RunAdd(w.ir, n1, 1, At(k, g, fr, s));
      RunOne(w.ir, At(k, q.0, fr1, x.store));
      n := n1 + 1;
    }
  }

  lemma NameDenotes(x: string, sf: Frame, fr: Frame, s: Store)
    requires Sees(sf, fr) && !Generated(x)
    ensures GetVar(x, fr, s) == GetVar(x, sf, s)
  {
  }

  // ----- control -----

  /** A condition: the branch to take. */
  function Test(p: Program, fuel: nat, c: Expr, sf: Frame, s: Store): Source.Outcome<bool> {
    var (a, s1) :- Source.Eval(p, fuel, c, sf, s);
    var (n, _) :- Source.Read(a, sf, s1);
    Source.Done(n != 0, s1)
  }

  ghost predicate TestRuns(ir: Ir, k: Context, g: Graph, yes: string, no: string, sf: Frame, fr: Frame, s: Store,
                           n: nat, fr': Frame, r: Source.Outcome<bool>, fuel: nat) {
    match r
    case Done(b, s') =>
      && n > 0 && Run(ir, n, At(k, g, fr, s)) == AtBlock(k, if b then yes else no, 0, fr', s')
      && Sees(sf, fr') && fr'.locals.Keys == fr.locals.Keys
    case Stops(why) => Stopped(ir, n, At(k, g, fr, s), why, fuel)
  }

  lemma ThenBranch(w: World, fuel: nat, c: Expr, g: Graph, h: Graph, cond: Operand, yes: string, no: string,
                   k: Context, sf: Frame, fr: Frame, s: Store, n1: nat, fr1: Frame) returns (n: nat)
    requires BranchCode(w.ir, h.current, End(h), cond, yes, no) && Sees(sf, fr)
    requires ExprRuns(w.ir, k, g, h, cond, fr, s, n1, fr1, Source.Eval(w.p, fuel, c, sf, s), fuel)
    ensures TestRuns(w.ir, k, g, yes, no, sf, fr, s, n, fr1, Test(w.p, fuel, c, sf, s), fuel)
  {
    hide Compiled, Source.Eval, BranchCode, Sees, Kept, Denotes, Run;
    n := n1;
    var x := Source.Eval(w.p, fuel, c, sf, s);
    if x.Done? {
      KeptSees(sf, fr, fr1, g.nextTemp);
      KeptKeys(fr, fr1, g.nextTemp);
      ReadDenotes(cond, x.v, sf, fr1, x.store, h.nextTemp);
      var m := RunBranch(w.ir, k, h.current, End(h), cond, yes, no, fr1, x.store);
      RunAdd(w.ir, n1, m, At(k, g, fr, s));
      n := n1 + m;
    }
  }

  lemma JumpInCode(ir: Ir, g: Graph, l: string, before: seq<Instr>, to: string)
    requires CodeHas(ir, g) && l in g.blocks && g.blocks[l].instrs == before + [Jump(to)]
    ensures JumpCode(ir, l, |before|, to)
  {
    CodeAt(ir, g, l);
    assert g.blocks[l].instrs[|before|] == Jump(to);
  }

  /** An arm has run to its end; its jump leads to the join, which is still empty. */
  lemma ThenJoin(ir: Ir, k: Context, g: Graph, h: Graph, j: Graph, l: string, fr: Frame, s: Store, n: nat, fr': Frame,
                 r: Source.Outcome<Frame>, fuel: nat) returns (m: nat)
    requires StmtRuns(ir, k, g, h, fr, s, n, fr', r, fuel) && JumpCode(ir, h.current, End(h), l)
    requires j.current == l && Here(j) == EMPTY_BLOCK
    ensures StmtRuns(ir, k, g, j, fr, s, m, fr', r, fuel)
  {
    hide JumpCode, Sees, Run;
    m := n;
    if r.Done? {
      RunJump(ir, k, h.current, End(h), l, fr', r.store);
      RunAdd(ir, n, 1, At(k, g, fr, s));
      m := n + 1;
    }
  }

  ghost predicate IfCode(w: World, t: Stmt, g: Graph, v: IfGraphs, sf: Frame, fr: Frame)
    requires t.If?
  {
    var arm := MoveTo(v.branched, v.yes);
    && v.last == GenStmt(t, g) && (v.tested, v.cond) == GenExpr(t.cond, v.start) && v.thenDone == GenStmt(t.thn, arm)
    && BranchCode(w.ir, v.tested.current, End(v.tested), v.cond, v.yes, v.join)
    && JumpCode(w.ir, v.thenDone.current, End(v.thenDone), v.join)
    && Fits(w.ir, v.start, v.tested, sf, fr) && Fits(w.ir, arm, v.thenDone, sf, fr)
    && v.start.current == g.current && Here(v.start) == Here(g) && End(arm) == 0
    && v.last.current == v.join && Here(v.last) == EMPTY_BLOCK
  }

  lemma IfParts(w: World, t: Stmt, g: Graph, sf: Frame, fr: Frame) returns (v: IfGraphs)
    requires t.If? && Fits(w.ir, g, GenStmt(t, g), sf, fr)
    ensures IfCode(w, t, g, v, sf, fr)
  {
    hide Compiled, GenStmt, Sees, IfGraphsOf, IfFinished, IfTested, Grows, Touches, Awaits, Fresh;
    v := IfStages(t.cond, t.thn, g);
    IfLast(t.cond, t.thn, g);
    IfEquations(t, g);
    IfCodeOf(w.ir, g, v, sf, fr);
  }

  lemma IfEquations(t: Stmt, g: Graph)
    requires t.If?
    ensures var v := IfGraphsOf(t.cond, t.thn, g);
            (v.tested, v.cond) == GenExpr(t.cond, v.start) && v.thenDone == GenStmt(t.thn, MoveTo(v.branched, v.yes))
  {
  }

  lemma IfCodeOf(ir: Ir, g: Graph, v: IfGraphs, sf: Frame, fr: Frame)
    requires IfTested(g, v) && IfFinished(g, v) && Grows(MoveTo(v.branched, v.yes), v.thenDone) && Ready(v.thenDone)
    requires Fits(ir, g, v.last, sf, fr)
    ensures BranchCode(ir, v.tested.current, End(v.tested), v.cond, v.yes, v.join)
    ensures JumpCode(ir, v.thenDone.current, End(v.thenDone), v.join)
    ensures Fits(ir, v.start, v.tested, sf, fr) && Fits(ir, MoveTo(v.branched, v.yes), v.thenDone, sf, fr)
    ensures v.start.current == g.current && Here(v.start) == Here(g) && End(MoveTo(v.branched, v.yes)) == 0
    ensures v.last.current == v.join && Here(v.last) == EMPTY_BLOCK
  {
    hide GenStmt, GenExpr, Sees, NewIn;
    var arm := MoveTo(v.branched, v.yes);
    CodeHasLess(ir, v.thenDone, v.last, {v.thenDone.current});
    CodeHasLess(ir, arm, v.thenDone, {arm.current});
    CodeHasLess(ir, v.tested, v.branched, {v.tested.current});
    FitsCounts(v.start, v.tested);
    FitsCounts(arm, v.thenDone);
    hide CodeHas, Touches, Fresh, BranchCode, JumpCode;
    BranchInCode(ir, v.branched, v.tested.current, Here(v.tested).instrs, v.cond, v.yes, v.join);
    JumpInCode(ir, v.last, v.thenDone.current, Here(v.thenDone).instrs, v.join);
  }

  lemma GoodControl(p: Program, t: Stmt)
    requires Source.GoodStmt(p, t) && (t.If? || t.IfElse? || t.While?)
    ensures Source.GoodExpr(p, t.cond) && (t.While? ==> Source.GoodStmt(p, t.body))
    ensures (t.If? || t.IfElse? ==> Source.GoodStmt(p, t.thn)) && (t.IfElse? ==> Source.GoodStmt(p, t.els))
  {
  }

  lemma ExecIfIs(p: Program, fuel: nat, t: Stmt, sf: Frame, s: Store)
    requires t.If?
    ensures Source.Exec(p, fuel, t, sf, s) ==
            match Test(p, fuel, t.cond, sf, s)
            case Stops(why) => Source.Stops(why)
            case Done(b, s1) => if b then Source.Exec(p, fuel, t.thn, sf, s1) else Source.Done(sf, s1)
  {
  }

  lemma SimIf(w: World, fuel: nat, t: Stmt, g: Graph,
              k: Context, sf: Frame, fr: Frame, s: Store) returns (n: nat, fr': Frame)
    requires t.If? && Source.GoodStmt(w.p, t) && Fits(w.ir, g, GenStmt(t, g), sf, fr)
    ensures StmtRuns(w.ir, k, g, GenStmt(t, g), fr, s, n, fr', Source.Exec(w.p, fuel, t, sf, s), fuel)
    decreases fuel, t, 0
  {
    hide Compiled, Source.GoodExpr, Source.GoodStmt, GenExpr, GenStmt, Source.Eval, Source.Exec, Test, Touches, Fresh, CodeHas, Sees, BranchCode, JumpCode, Kept, Run;
    var v := IfParts(w, t, g, sf, fr);
    GoodControl(w.p, t);
    ExecIfIs(w.p, fuel, t, sf, s);
    var arm := MoveTo(v.branched, v.yes);
    var n1, fr1 := SimExpr(w, fuel, t.cond, v.start, k, sf, fr, s);
    n := ThenBranch(w, fuel, t.cond, v.start, v.tested, v.cond, v.yes, v.join, k, sf, fr, s, n1, fr1);
    fr' := fr1;
    var x := Test(w.p, fuel, t.cond, sf, s);
    if x.Done? && x.v {
      FitsSame(w.ir, arm, v.thenDone, sf, fr, fr1);
      var n2, fr2 := SimStmt(w, fuel, t.thn, arm, k, sf, fr1, x.store);
      var q := Source.Exec(w.p, fuel, t.thn, sf, x.store);
      n2 := ThenJoin(w.ir, k, arm, v.thenDone, v.last, v.join, fr1, x.store, n2, fr2, q, fuel);
      StmtJoin(w.ir, k, g, arm, v.last, fr, s, n, sf, fr1, x.store, n2, fr2, q, fuel, fuel);
      n, fr' := n + n2, fr2;
    }
  }

  lemma FitsSame(ir: Ir, g: Graph, h: Graph, sf: Frame, fr: Frame, fr1: Frame)
    requires Fits(ir, g, h, sf, fr) && Sees(sf, fr1) && fr1.locals.Keys == fr.locals.Keys
    ensures Fits(ir, g, h, sf, fr1)
  {
  }

  ghost predicate IfElseCode(w: World, t: Stmt, g: Graph, v: IfElseGraphs, sf: Frame, fr: Frame)
    requires t.IfElse?
  {
    var (arm, other) := (MoveTo(v.branched, v.yes), MoveTo(AddJump(v.thenDone, v.join), v.no));
    && v.last == GenStmt(t, g) && (v.tested, v.cond) == GenExpr(t.cond, v.start)
    && v.thenDone == GenStmt(t.thn, arm) && v.elseDone == GenStmt(t.els, other)
    && BranchCode(w.ir, v.tested.current, End(v.tested), v.cond, v.yes, v.no)
    && JumpCode(w.ir, v.thenDone.current, End(v.thenDone), v.join)
    && JumpCode(w.ir, v.elseDone.current, End(v.elseDone), v.join)
    && Fits(w.ir, v.start, v.tested, sf, fr) && Fits(w.ir, arm, v.thenDone, sf, fr) && Fits(w.ir, other, v.elseDone, sf, fr)
    && v.start.current == g.current && Here(v.start) == Here(g) && End(arm) == 0 && End(other) == 0
    && v.last.current == v.join && Here(v.last) == EMPTY_BLOCK
  }

  lemma IfElseParts(w: World, t: Stmt, g: Graph, sf: Frame, fr: Frame) returns (v: IfElseGraphs)
    requires t.IfElse? && Fits(w.ir, g, GenStmt(t, g), sf, fr)
    ensures IfElseCode(w, t, g, v, sf, fr)
  {
    hide Compiled, GenStmt, Sees, IfElseGraphsOf, IfElseFinished, IfElseTurn, IfElseTested, Grows, Touches, Awaits, Fresh;
    v := IfElseStages(t.cond, t.thn, t.els, g);
    IfElseLast(t.cond, t.thn, t.els, g);
    IfElseEquations(t, g);
    IfElseCodeOf(w.ir, g, v, sf, fr);
  }

  lemma IfElseEquations(t: Stmt, g: Graph)
    requires t.IfElse?
    ensures var v := IfElseGraphsOf(t.cond, t.thn, t.els, g);
            (v.tested, v.cond) == GenExpr(t.cond, v.start) && v.thenDone == GenStmt(t.thn, MoveTo(v.branched, v.yes))
            && v.elseDone == GenStmt(t.els, MoveTo(AddJump(v.thenDone, v.join), v.no))
  {
  }

  lemma IfElseCodeOf(ir: Ir, g: Graph, v: IfElseGraphs, sf: Frame, fr: Frame)
    requires IfElseTested(g, v) && IfElseTurn(g, v) && IfElseFinished(g, v)
    requires Grows(MoveTo(v.branched, v.yes), v.thenDone) && Ready(v.thenDone)
    requires Grows(MoveTo(AddJump(v.thenDone, v.join), v.no), v.elseDone) && Ready(v.elseDone)
    requires Fits(ir, g, v.last, sf, fr)
    ensures BranchCode(ir, v.tested.current, End(v.tested), v.cond, v.yes, v.no)
    ensures JumpCode(ir, v.thenDone.current, End(v.thenDone), v.join)
    ensures JumpCode(ir, v.elseDone.current, End(v.elseDone), v.join)
    ensures Fits(ir, v.start, v.tested, sf, fr) && Fits(ir, MoveTo(v.branched, v.yes), v.thenDone, sf, fr)
    ensures Fits(ir, MoveTo(AddJump(v.thenDone, v.join), v.no), v.elseDone, sf, fr)
    ensures v.start.current == g.current && Here(v.start) == Here(g) && End(MoveTo(v.branched, v.yes)) == 0
    ensures End(MoveTo(AddJump(v.thenDone, v.join), v.no)) == 0
    ensures v.last.current == v.join && Here(v.last) == EMPTY_BLOCK
  {
    hide BranchCode, JumpCode, GenStmt, GenExpr, Sees, NewIn;
    var j := AddJump(v.thenDone, v.join);
    IfElseHas(ir, g, v, j);
    hide CodeHas, Touches, Fresh, Awaits, AddJump;
    BranchInCode(ir, v.branched, v.tested.current, Here(v.tested).instrs, v.cond, v.yes, v.no);
    JumpInCode(ir, j, v.thenDone.current, Here(v.thenDone).instrs, v.join);
    JumpInCode(ir, v.last, v.elseDone.current, Here(v.elseDone).instrs, v.join);
  }

  lemma IfElseHas(ir: Ir, g: Graph, v: IfElseGraphs, j: Graph)
    requires IfElseTested(g, v) && IfElseTurn(g, v) && IfElseFinished(g, v)
    requires Grows(MoveTo(v.branched, v.yes), v.thenDone) && Ready(v.thenDone) && j == AddJump(v.thenDone, v.join)
    requires Grows(MoveTo(j, v.no), v.elseDone) && Ready(v.elseDone) && CodeHas(ir, v.last)
    ensures CodeHas(ir, v.elseDone) && CodeHas(ir, j) && CodeHas(ir, v.thenDone) && CodeHas(ir, v.branched) && CodeHas(ir, v.tested)
    ensures g.nextTemp == v.start.nextTemp <= v.tested.nextTemp == v.branched.nextTemp <= v.thenDone.nextTemp
    ensures v.thenDone.nextTemp == j.nextTemp <= v.elseDone.nextTemp == v.last.nextTemp
    ensures MoveTo(j, v.no).blocks == j.blocks
  {
    hide Fresh, Awaits, AddJump, Grows;
    var arm, other := MoveTo(v.branched, v.yes), MoveTo(j, v.no);
    GrowsHas(ir, other, v.elseDone, v.last);
    CodeHasLess(ir, v.thenDone, j, {v.thenDone.current});
    GrowsHas(ir, arm, v.thenDone, v.thenDone);
    CodeHasLess(ir, v.tested, v.branched, {v.tested.current});
    FitsCounts(v.start, v.tested);
  }

  lemma GrowsHas(ir: Ir, g: Graph, h: Graph, last: Graph)
    requires Grows(g, h) && CodeHas(ir, last) && (last == h || Touches(h, last, {h.current}))
    ensures CodeHas(ir, h) && CodeHas(ir, g) && g.nextTemp <= h.nextTemp
  {
    if last != h { CodeHasLess(ir, h, last, {h.current}); }
    CodeHasLess(ir, g, h, {g.current});
  }

  lemma ExecIfElseIs(p: Program, fuel: nat, t: Stmt, sf: Frame, s: Store)
    requires t.IfElse?
    ensures Source.Exec(p, fuel, t, sf, s) ==
            match Test(p, fuel, t.cond, sf, s)
            case Stops(why) => Source.Stops(why)
            case Done(b, s1) => Source.Exec(p, fuel, if b then t.thn else t.els, sf, s1)
  {
  }

  lemma SimIfElse(w: World, fuel: nat, t: Stmt, g: Graph,
                  k: Context, sf: Frame, fr: Frame, s: Store) returns (n: nat, fr': Frame)
    requires t.IfElse? && Source.GoodStmt(w.p, t) && Fits(w.ir, g, GenStmt(t, g), sf, fr)
    ensures StmtRuns(w.ir, k, g, GenStmt(t, g), fr, s, n, fr', Source.Exec(w.p, fuel, t, sf, s), fuel)
    decreases fuel, t, 0
  {
    hide Compiled, Source.GoodExpr, Source.GoodStmt, GenExpr, GenStmt, Source.Eval, Source.Exec, Test, Touches, Fresh, CodeHas, Sees, BranchCode, JumpCode, Kept, Run, AddJump;
    var v := IfElseParts(w, t, g, sf, fr);
    GoodControl(w.p, t);
    ExecIfElseIs(w.p, fuel, t, sf, s);
    var n1, fr1 := SimExpr(w, fuel, t.cond, v.start, k, sf, fr, s);
    n := ThenBranch(w, fuel, t.cond, v.start, v.tested, v.cond, v.yes, v.no, k, sf, fr, s, n1, fr1);
    fr' := fr1;
    var x := Test(w.p, fuel, t.cond, sf, s);
    if x.Done? {
      var (arm, end, body) := if x.v then (MoveTo(v.branched, v.yes), v.thenDone, t.thn)
                              else (MoveTo(AddJump(v.thenDone, v.join), v.no), v.elseDone, t.els);
      FitsSame(w.ir, arm, end, sf, fr, fr1);
      var n2, fr2 := SimStmt(w, fuel, body, arm, k, sf, fr1, x.store);
      var q := Source.Exec(w.p, fuel, body, sf, x.store);
      n2 := ThenJoin(w.ir, k, arm, end, v.last, v.join, fr1, x.store, n2, fr2, q, fuel);
      StmtJoin(w.ir, k, g, arm, v.last, fr, s, n, sf, fr1, x.store, n2, fr2, q, fuel, fuel);
      n, fr' := n + n2, fr2;
    }
  }

  ghost predicate WhileCode(w: World, t: Stmt, g: Graph, v: WhileGraphs, sf: Frame, fr: Frame)
    requires t.While?
  {
    var arm := MoveTo(v.branched, v.loop.body);
    && v.last == GenStmt(t, g) && (v.tested, v.cond) == GenExpr(t.cond, v.start) && v.bodyDone == GenStmt(t.body, arm)
    && JumpCode(w.ir, g.current, End(g), v.loop.header)
    && BranchCode(w.ir, v.tested.current, End(v.tested), v.cond, v.loop.body, v.loop.join)
    && JumpCode(w.ir, v.bodyDone.current, End(v.bodyDone), v.loop.header)
    && Fits(w.ir, v.start, v.tested, sf, fr) && Fits(w.ir, arm, v.bodyDone, sf, fr)
    && v.start.current == v.loop.header && Here(v.start) == EMPTY_BLOCK && arm.current == v.loop.body && End(arm) == 0
    && v.last.current == v.loop.join && Here(v.last) == EMPTY_BLOCK
  }

  lemma WhileParts(w: World, t: Stmt, g: Graph, sf: Frame, fr: Frame) returns (v: WhileGraphs)
    requires t.While? && Fits(w.ir, g, GenStmt(t, g), sf, fr)
    ensures WhileCode(w, t, g, v, sf, fr)
  {
    hide Compiled, GenStmt, Sees, WhileGraphsOf, LoopEntered, LoopTested, LoopFinished, Grows, Touches, Awaits, Fresh;
    v := WhileStages(t.cond, t.body, g);
    WhileLast(t.cond, t.body, g);
    WhileEquations(t, g);
    WhileCodeOf(w.ir, g, v, sf, fr);
  }

  lemma WhileEquations(t: Stmt, g: Graph)
    requires t.While?
    ensures var v := WhileGraphsOf(t.cond, t.body, g);
            (v.tested, v.cond) == GenExpr(t.cond, v.start) && v.bodyDone == GenStmt(t.body, MoveTo(v.branched, v.loop.body))
  {
  }

  lemma WhileCodeOf(ir: Ir, g: Graph, v: WhileGraphs, sf: Frame, fr: Frame)
    requires LoopEntered(g, v) && LoopTested(g, v) && LoopFinished(g, v)
    requires Grows(MoveTo(v.branched, v.loop.body), v.bodyDone) && Ready(v.bodyDone)
    requires Fits(ir, g, v.last, sf, fr)
    ensures JumpCode(ir, g.current, End(g), v.loop.header)
    ensures BranchCode(ir, v.tested.current, End(v.tested), v.cond, v.loop.body, v.loop.join)
    ensures JumpCode(ir, v.bodyDone.current, End(v.bodyDone), v.loop.header)
    ensures Fits(ir, v.start, v.tested, sf, fr) && Fits(ir, MoveTo(v.branched, v.loop.body), v.bodyDone, sf, fr)
    ensures v.start.current == v.loop.header && Here(v.start) == EMPTY_BLOCK && End(MoveTo(v.branched, v.loop.body)) == 0
    ensures v.last.current == v.loop.join && Here(v.last) == EMPTY_BLOCK
  {
    hide BranchCode, JumpCode;
    WhileHas(ir, g, v);
    hide CodeHas, Touches, Fresh;
    JumpInCode(ir, v.start, g.current, Here(g).instrs, v.loop.header);
    BranchInCode(ir, v.branched, v.tested.current, Here(v.tested).instrs, v.cond, v.loop.body, v.loop.join);
    JumpInCode(ir, v.last, v.bodyDone.current, Here(v.bodyDone).instrs, v.loop.header);
  }

  lemma WhileHas(ir: Ir, g: Graph, v: WhileGraphs)
    requires LoopEntered(g, v) && LoopTested(g, v) && LoopFinished(g, v)
    requires Grows(MoveTo(v.branched, v.loop.body), v.bodyDone) && Ready(v.bodyDone) && CodeHas(ir, v.last)
    ensures CodeHas(ir, v.bodyDone) && CodeHas(ir, v.branched) && CodeHas(ir, v.tested) && CodeHas(ir, v.start)
    ensures g.nextTemp == v.start.nextTemp <= v.tested.nextTemp == v.branched.nextTemp <= v.bodyDone.nextTemp == v.last.nextTemp
  {
    hide Fresh, Awaits;
    var arm := MoveTo(v.branched, v.loop.body);
    CodeHasLess(ir, v.bodyDone, v.last, {v.bodyDone.current, v.tested.current});
    CodeHasLess(ir, arm, v.bodyDone, {arm.current});
    CodeHasLess(ir, v.tested, v.branched, {v.tested.current});
    CodeHasLess(ir, v.start, v.tested, {v.start.current});
    FitsCounts(v.start, v.tested);
    FitsCounts(arm, v.bodyDone);
  }

  lemma SimWhile(w: World, fuel: nat, t: Stmt, g: Graph,
                 k: Context, sf: Frame, fr: Frame, s: Store) returns (n: nat, fr': Frame)
    requires t.While? && Source.GoodStmt(w.p, t) && Fits(w.ir, g, GenStmt(t, g), sf, fr)
    ensures StmtRuns(w.ir, k, g, GenStmt(t, g), fr, s, n, fr', Source.Exec(w.p, fuel, t, sf, s), fuel)
    decreases fuel, t, 1
  {
    hide Compiled, Source.GoodStmt, GenStmt, Source.Exec, Sees, CodeHas, StmtRuns, BranchCode, JumpCode, Run;
    var v := WhileParts(w, t, g, sf, fr);
    RunJump(w.ir, k, g.current, End(g), v.loop.header, fr, s);
    n, fr' := SimLoop(w, fuel, t, g, v, k, sf, fr, sf, fr, s);
    StmtJoin(w.ir, k, g, v.start, v.last, fr, s, 1, sf, fr, s, n, fr', Source.Exec(w.p, fuel, t, sf, s), fuel, fuel);
    n := n + 1;
  }

  lemma ExecWhileIs(p: Program, fuel: nat, t: Stmt, sf: Frame, s: Store)
    requires t.While? && fuel > 0
    ensures Source.Exec(p, fuel, t, sf, s) ==
            match Test(p, fuel, t.cond, sf, s)
            case Stops(why) => Source.Stops(why)
            case Done(b, s1) =>
              if !b then Source.Done(sf, s1)
              else
                match Source.Exec(p, fuel, t.body, sf, s1)
                case Stops(why) => Source.Stops(why)
                case Done(sf2, s2) => Source.Exec(p, fuel - 1, t, sf2, s2)
  {
  }

  /** From the loop's header, for any number of iterations; sf0 and fr0 are the frames on entry. */
  lemma SimLoop(w: World, fuel: nat, t: Stmt, g: Graph, v: WhileGraphs, k: Context, sf0: Frame, fr0: Frame,
                sf: Frame, fr: Frame, s: Store) returns (n: nat, fr': Frame)
    requires t.While? && Source.GoodStmt(w.p, t) && WhileCode(w, t, g, v, sf0, fr0)
    requires Sees(sf, fr) && fr.locals.Keys == fr0.locals.Keys
    ensures StmtRuns(w.ir, k, v.start, v.last, fr, s, n, fr', Source.Exec(w.p, fuel, t, sf, s), fuel)
    decreases fuel, t, 0
  {
    hide Compiled, Source.GoodExpr, Source.GoodStmt, GenExpr, GenStmt, Source.Eval, Source.Exec, Test, Fits, Sees, BranchCode, JumpCode, Kept, Run, ExprRuns;
    n, fr' := 0, fr;
    if fuel == 0 {
      RunZero(w.ir, At(k, v.start, fr, s));
      ExecWhileOut(w.p, t, sf, s);
    } else {
      GoodControl(w.p, t);
      ExecWhileIs(w.p, fuel, t, sf, s);
      FitsAgain(w.ir, v.start, v.tested, sf0, fr0, sf, fr);
      var n1, fr1 := SimExpr(w, fuel, t.cond, v.start, k, sf, fr, s);
      n := ThenBranch(w, fuel, t.cond, v.start, v.tested, v.cond, v.loop.body, v.loop.join, k, sf, fr, s, n1, fr1);
      fr' := fr1;
      var x := Test(w.p, fuel, t.cond, sf, s);
      if x.Done? && x.v {
        n, fr' := SimIteration(w, fuel, t, g, v, k, sf0, fr0, sf, fr, s, n, fr1, x.store);
      }
    }
  }

  lemma ExecWhileOut(p: Program, t: Stmt, sf: Frame, s: Store)
    requires t.While?
    ensures Source.Exec(p, 0, t, sf, s) == Source.Stops(Source.Timeout(s.out))
  {
  }

  lemma FitsAgain(ir: Ir, g: Graph, h: Graph, sf: Frame, fr: Frame, sf1: Frame, fr1: Frame)
    requires Fits(ir, g, h, sf, fr) && Sees(sf1, fr1) && fr1.locals.Keys == fr.locals.Keys
    ensures Fits(ir, g, h, sf1, fr1)
  {
  }

  /** The condition was true after n1 steps: the body, the jump back, and the rest of the loop. */
  lemma SimIteration(w: World, fuel: nat, t: Stmt, g: Graph, v: WhileGraphs, k: Context, sf0: Frame, fr0: Frame,
                     sf: Frame, fr: Frame, s: Store, n1: nat, fr1: Frame, s1: Store) returns (n: nat, fr': Frame)
    requires t.While? && Source.GoodStmt(w.p, t) && Source.GoodStmt(w.p, t.body) && WhileCode(w, t, g, v, sf0, fr0) && fuel > 0 && n1 > 0
    requires Run(w.ir, n1, At(k, v.start, fr, s)) == AtBlock(k, v.loop.body, 0, fr1, s1)
    requires Sees(sf, fr1) && fr1.locals.Keys == fr.locals.Keys == fr0.locals.Keys
    ensures var r := Source.Exec(w.p, fuel, t.body, sf, s1);
            StmtRuns(w.ir, k, v.start, v.last, fr, s, n, fr',
                     if r.Stops? then Source.Stops(r.why) else Source.Exec(w.p, fuel - 1, t, r.v, r.store), fuel)
    decreases fuel, t, 0, 0
  {
    hide Compiled, Source.GoodExpr, Source.GoodStmt, GenExpr, GenStmt, Source.Eval, Source.Exec, Fits, Sees, BranchCode, JumpCode, Run;
    var arm := MoveTo(v.branched, v.loop.body);
    FitsAgain(w.ir, arm, v.bodyDone, sf0, fr0, sf, fr1);
    var n2, fr2 := SimStmt(w, fuel, t.body, arm, k, sf, fr1, s1);
    var r := Source.Exec(w.p, fuel, t.body, sf, s1);
    n2 := ThenJoin(w.ir, k, arm, v.bodyDone, v.start, v.loop.header, fr1, s1, n2, fr2, r, fuel);
    StmtJoin(w.ir, k, v.start, arm, v.start, fr, s, n1, sf, fr1, s1, n2, fr2, r, fuel, fuel);
    n, fr' := n1 + n2, fr2;
    if r.Done? {
      var n3, fr3 := SimLoop(w, fuel - 1, t, g, v, k, sf0, fr0, r.v, fr2, r.store);
      StmtJoin(w.ir, k, v.start, v.start, v.last, fr, s, n, r.v, fr2, r.store, n3, fr3,
               Source.Exec(w.p, fuel - 1, t, r.v, r.store), fuel - 1, fuel);
      n, fr' := n + n3, fr3;
    }
  }
}

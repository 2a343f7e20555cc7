/** Whole programs: the code generated for main and the methods, one after the other in one graph, and the
    correctness of its runs. */
module ProgramGeneration {
  import opened Ast
  import opened Tac
  import opened Names
  import opened Machine
  import opened FlowGraph
  import opened IrGeneration
  import opened GraphGrowth
  import opened IrMachine
  import opened Simulation
  import opened GenerationCorrect
  import Source

  function IndexOf(xs: seq<string>, x: string): (i: nat)
    requires x in xs
    ensures i < |xs| && xs[i] == x
  {
    if xs[0] == x then 0 else 1 + IndexOf(xs[1..], x)
  }

  function CodeOf(g: Graph): map<string, seq<Instr>> {
    Code(g.blocks)
  }

  /** A method's signature with the temporaries that generation added to its scope. */
  function RunSignature(p: Program, name: string): Signature
    requires name in p.methods && name in p.order
  {
    p.methods[name].sig.(locals := FinalScope(p, IndexOf(p.order, name) + 1))
  }

  function IrWithCode(p: Program, code: map<string, seq<Instr>>): Ir {
    Ir(code, p.mainName, p.mainSig.(locals := FinalScope(p, 0)),
       map name | name in p.methods && name in p.order :: RunSignature(p, name))
  }

  function IrOf(p: Program): Ir {
    IrWithCode(p, CodeOf(GenProgram(p)))
  }

  /** The graph at the root of a method. */
  function StartOf(p: Program, name: string): Graph
    requires name in p.methods && name in p.order
  {
    AddRoot(GenUpTo(p, IndexOf(p.order, name)), name, p.methods[name].sig.locals)
  }

  function MainStart(p: Program): Graph {
    AddRoot(EMPTY_GRAPH, p.mainName, p.mainSig.locals)
  }

  function PairingOf(p: Program): Pairing {
    Pairing(p, IrOf(p), map name | name in p.methods && name in p.order :: StartOf(p, name))
  }

  /** Blocks of g are unchanged in h. */
  ghost predicate Keeps(g: Graph, h: Graph) {
    forall l {:trigger l in g.blocks} {:trigger h.blocks[l]} :: l in g.blocks ==> l in h.blocks && h.blocks[l] == g.blocks[l]
  }

  /** The blocks are main's, the roots of the first n methods, and numbered ones. */
  ghost predicate Accounted(p: Program, g: Graph, n: nat)
    requires n <= |p.order|
  {
    forall l {:trigger l in g.blocks} :: l in g.blocks ==> l == p.mainName || l in p.order[..n] || NewIn(l, 0, g.nextBlock)
  }

  lemma BlockIsNotRoot(l: string, lo: nat, hi: nat)
    requires NewIn(l, lo, hi)
    ensures !Source.IsRoot(l)
  {
    var i: nat :| lo <= i < hi && l == BlockName(i);
    BlockHasNoDot(i);
  }

  lemma BlockHasNoDot(i: nat)
    ensures '.' !in BlockName(i)
  {
    var l, d := BlockName(i), Decimal(i);
    forall j | 0 <= j < |l|
      ensures l[j] != '.'
    {
      if j >= 6 { assert l[j] == d[j - 6]; }
    }
  }

  lemma AddRootReady(g: Graph, name: string, scope: set<string>)
    requires Fresh(g) && Source.IsRoot(name)
    ensures Ready(AddRoot(g, name, scope)) && Here(AddRoot(g, name, scope)) == EMPTY_BLOCK
  {
    var h := AddRoot(g, name, scope);
    forall i: nat | h.nextBlock <= i
      ensures BlockName(i) !in h.blocks
    {
      BlockHasNoDot(i);
    }
  }

  lemma BodyGrows(m: Method, g: Graph)
    requires Ready(g)
    ensures Grows(g, GenBody(m, g)) && Ready(GenBody(m, g))
  {
    hide Touches;
    var g1 := GenStmts(m.body, g);
    var (g2, r) := GenExpr(m.result, g1);
    StmtsGrow(m.body, g);
    ExprGrows(m.result, g1);
    GrowsTrans(g, g1, g2);
    AddInstrTouches(g2, Return(r));
    GrowsTrans(g, g2, AddInstr(g2, Return(r)));
  }

  lemma MainGrows(p: Program)
    requires Source.GoodProgram(p)
    ensures Ready(MainStart(p)) && Here(MainStart(p)) == EMPTY_BLOCK
    ensures Grows(MainStart(p), GenMain(p)) && Ready(GenMain(p)) && Accounted(p, GenMain(p), 0)
  {
    assert Fresh(EMPTY_GRAPH);
    AddRootReady(EMPTY_GRAPH, p.mainName, p.mainSig.locals);
    StmtsGrow(p.mainBody, MainStart(p));
    forall l | l in GenMain(p).blocks
      ensures l == p.mainName || NewIn(l, 0, GenMain(p).nextBlock)
    {
      if l !in MainStart(p).blocks { assert NewIn(l, 0, GenMain(p).nextBlock); }
    }
  }

  /** Each method starts from a fresh root and leaves all earlier blocks as they are. */
  lemma {:induction false} UpToGrows(p: Program, n: nat)
    requires Source.GoodProgram(p) && n <= |p.order|
    ensures Ready(GenUpTo(p, n)) && Accounted(p, GenUpTo(p, n), n)
    ensures n > 0 ==> Keeps(GenUpTo(p, n - 1), GenUpTo(p, n)) && p.order[n - 1] in p.methods
                      && MethodGrows(p, n - 1)
    decreases n
  {
    hide Source.GoodProgram, Accounted, Keeps, Fresh, GenBody, Touches, GenMain;
    if n == 0 {
      MainGrows(p);
    } else {
      UpToGrows(p, n - 1);
      MethodStep(p, n - 1);
    }
  }

  ghost predicate MethodGrows(p: Program, i: nat)
    requires i < |p.order| && p.order[i] in p.methods
  {
    var m := p.methods[p.order[i]];
    var start := AddRoot(GenUpTo(p, i), p.order[i], m.sig.locals);
    Ready(start) && Here(start) == EMPTY_BLOCK && Grows(start, GenBody(m, start)) && GenUpTo(p, i + 1) == GenBody(m, start)
  }

  lemma MethodStep(p: Program, i: nat)
    requires Source.GoodProgram(p) && i < |p.order|
    requires Ready(GenUpTo(p, i)) && Accounted(p, GenUpTo(p, i), i)
    ensures p.order[i] in p.methods && MethodGrows(p, i)
    ensures Ready(GenUpTo(p, i + 1)) && Accounted(p, GenUpTo(p, i + 1), i + 1) && Keeps(GenUpTo(p, i), GenUpTo(p, i + 1))
  {
    var name := p.order[i];
    assert name in p.order;
    var m := p.methods[name];
    var g := GenUpTo(p, i);
    var start := AddRoot(g, name, m.sig.locals);
    AddRootReady(g, name, m.sig.locals);
    BodyGrows(m, start);
    RootIsNew(p, g, i);
    StepAccounted(p, g, start, GenBody(m, start), i);
  }

  lemma RootIsNew(p: Program, g: Graph, i: nat)
    requires Source.GoodProgram(p) && i < |p.order| && Accounted(p, g, i)
    ensures p.order[i] !in g.blocks
  {
    var name := p.order[i];
    assert name in p.order && Source.IsRoot(name) && name != p.mainName;
    if name in g.blocks && name !in p.order[..i] {
      BlockIsNotRoot(name, 0, g.nextBlock);
    }
  }

  lemma StepAccounted(p: Program, g: Graph, start: Graph, h: Graph, i: nat)
    requires i < |p.order| && Accounted(p, g, i) && p.order[i] !in g.blocks
    requires start.blocks == g.blocks[p.order[i] := EMPTY_BLOCK] && start.nextBlock == g.nextBlock && start.current == p.order[i]
    requires Grows(start, h)
    ensures Accounted(p, h, i + 1) && Keeps(g, h)
  {
    assert p.order[..i + 1] == p.order[..i] + [p.order[i]];
    forall l | l in h.blocks
      ensures l == p.mainName || l in p.order[..i + 1] || NewIn(l, 0, h.nextBlock)
    {
      if l in g.blocks {
        if NewIn(l, 0, g.nextBlock) { assert NewIn(l, 0, h.nextBlock); }
      } else if l !in start.blocks {
        assert NewIn(l, start.nextBlock, h.nextBlock);
      }
    }
    forall l | l in g.blocks
      ensures l in h.blocks && h.blocks[l] == g.blocks[l]
    {
      assert l in start.blocks && l != start.current;
    }
  }

  lemma {:induction false} UpToKept(p: Program, i: nat, n: nat)
    requires Source.GoodProgram(p) && i <= n <= |p.order|
    ensures Keeps(GenUpTo(p, i), GenUpTo(p, n))
    decreases n
  {
    hide Source.GoodProgram, GenUpTo;
    if i < n {
      UpToKept(p, i, n - 1);
      UpToGrows(p, n);
    }
  }

  /** Whatever was generated on the way is in the final code, word for word. */
  lemma CodeHasUpTo(p: Program, i: nat)
    requires Source.GoodProgram(p) && i <= |p.order|
    ensures CodeHas(IrOf(p), GenUpTo(p, i))
    ensures forall l :: l in GenUpTo(p, i).blocks ==> l in IrOf(p).code && IrOf(p).code[l] == GenUpTo(p, i).blocks[l].instrs
  {
    UpToKept(p, i, |p.order|);
    forall l | l in GenUpTo(p, i).blocks
      ensures l in IrOf(p).code && IrOf(p).code[l] == GenUpTo(p, i).blocks[l].instrs
    {
      assert l in GenProgram(p).blocks;
    }
  }

  lemma ScopeSignature(sig: Signature, g: Graph, h: Graph)
    requires Grows(g, h) && g.locals == sig.locals && Source.GoodSignature(sig)
    ensures SameSignature(sig, sig.(locals := h.locals))
  {
  }

  lemma MethodCompiled(p: Program, name: string)
    requires Source.GoodProgram(p) && name in p.methods && name in p.order
    ensures CompiledMethod(IrOf(p), name, p.methods[name], StartOf(p, name))
  {
    var i := IndexOf(p.order, name);
    UpToGrows(p, i + 1);
    CodeHasUpTo(p, i + 1);
    var m, g := p.methods[name], StartOf(p, name);
    assert IrOf(p).sigs[name] == RunSignature(p, name);
    ScopeSignature(m.sig, g, GenBody(m, g));
  }

  /** Compiling a program gives a pairing that the simulation applies to. */
  lemma PairingCompiled(p: Program)
    requires Source.GoodProgram(p)
    ensures Compiled(PairingOf(p))
  {
    hide CompiledMethod, Source.GoodStmt, Source.GoodExpr, Source.GoodSignature, GenProgram, StartOf, RunSignature, FieldTable, Source.FieldTable;
    var w := PairingOf(p);
    forall name | name in p.methods
      ensures name in w.starts && CompiledMethod(w.ir, name, p.methods[name], w.starts[name])
    {
      assert name in p.order;
      MethodCompiled(p, name);
    }
    SameFieldTable(p);
  }

  lemma SameFieldTable(p: Program)
    requires forall m :: m in p.methods ==> m in p.order
    ensures FieldTable(IrOf(p)) == Source.FieldTable(p)
  {
    assert (map m | m in IrOf(p).sigs :: IrOf(p).sigs[m].fields) == map m | m in p.methods :: p.methods[m].sig.fields;
  }

  function Mains(p: Program): Context {
    Context(p.mainName, [], [])
  }

  lemma MainFits(p: Program)
    requires Source.GoodProgram(p)
    ensures Fits(IrOf(p), MainStart(p), GenMain(p), FreshFrame(p.mainSig), FreshFrame(IrOf(p).mainSig))
    ensures Start(IrOf(p)) == At(Mains(p), MainStart(p), FreshFrame(IrOf(p).mainSig), Source.EMPTY_STORE)
    ensures forall t | t in p.mainBody :: Source.GoodStmt(p, t)
  {
    MainGrows(p);
    CodeHasUpTo(p, 0);
    ScopeSignature(p.mainSig, MainStart(p), GenMain(p));
  }

  /** The code of main ends where generation of main ended, so the run stops there. */
  lemma MainEnds(p: Program, fr: Frame, s: Store)
    requires Source.GoodProgram(p)
    ensures Step(IrOf(p), At(Mains(p), GenMain(p), fr, s)) == Halted(Finished, s.out)
  {
    MainGrows(p);
    CodeHasUpTo(p, 0);
    assert GenMain(p).current in GenUpTo(p, 0).blocks;
  }

  /** What a run of c observably does within n steps, against the source outcome r. */
  ghost predicate Matches(ir: Ir, n: nat, r: Source.Outcome<Frame>, fuel: nat) {
    match r
    case Done(_, s) => Run(ir, n, Start(ir)) == Halted(Finished, s.out)
    case Stops(why) => Stopped(ir, n, Start(ir), why, fuel)
  }

  /** IR generation is correct for whole programs: with any fuel, the generated code finishes, faults or goes
      on exactly as the source does, with the same output. */
  lemma GenerationPreservesMeaning(p: Program, fuel: nat) returns (n: nat)
    requires Source.GoodProgram(p)
    ensures Matches(IrOf(p), n, Source.Run(p, fuel), fuel)
  {
    PairingCompiled(p);
    MainFits(p);
    hide Source.ExecAll, GenStmts, Compiled, IrOf, PairingOf, Fits, MainStart, At;
    var w: World := PairingOf(p);
    PairingParts(p);
    var sf, fr := FreshFrame(p.mainSig), FreshFrame(IrOf(p).mainSig);
    var fr';
    n, fr' := SimStmts(w, fuel, p.mainBody, MainStart(p), Mains(p), sf, fr, Source.EMPTY_STORE);
    var r := Source.Run(p, fuel);
    if r.Done? {
      MainEnds(p, fr', r.store);
      RunAdd(IrOf(p), n, 1, Start(IrOf(p)));
      RunOne(IrOf(p), Run(IrOf(p), n, Start(IrOf(p))));
      n := n + 1;
    }
  }

  lemma PairingParts(p: Program)
    ensures PairingOf(p).p == p && PairingOf(p).ir == IrOf(p) && GenStmts(p.mainBody, MainStart(p)) == GenMain(p)
  {
  }
}

/** The whole compiler: what the VM shows of a compiled program is what the source program does. */
module Pipeline {
  import opened Ast
  import opened Tac
  import opened Machine
  import opened Bytecode
  import opened FlowGraph
  import opened IrGeneration
  import opened ProgramGeneration
  import opened ExitTargets
  import opened Reachability
  import opened Passes
  import opened PassesCorrect
  import opened Emission
  import opened Loading
  import opened Lowering
  import opened EmittedLabels
  import I = IrMachine
  import IrVisitor
  import Source
  import SourceSafety
  import Vm

  // ----- three-address code and VM -----

  lemma {:induction false} IrOutputGrows(p: I.Ir, n: nat, c: I.Config)
    ensures I.Output(c) <= I.Output(I.Run(p, n, c))
  {
    hide I.Execute;
    if n > 0 {
      IrOutputGrows(p, n - 1, I.Step(p, c));
      IrStepOutput(p, c);
    }
  }

  /** A step prints at most one number, and then it goes on. */
  lemma IrStepOutput(p: I.Ir, c: I.Config)
    ensures I.Output(c) <= I.Output(I.Step(p, c))
    ensures I.Output(I.Step(p, c)) == I.Output(c) || (I.Step(p, c).Running? && exists x :: I.Output(I.Step(p, c)) == I.Output(c) + [x])
  {
    hide I.Execute;
    if c.Running? && c.cur.block in p.code && c.cur.pc < |p.code[c.cur.block]| {
      IrExecuteOutput(p, p.code[c.cur.block][c.cur.pc], c);
    }
  }

  lemma IrExecuteOutput(p: I.Ir, t: Instr, c: I.Config)
    requires c.Running?
    ensures var d := I.Execute(p, t, c);
            I.Output(d) == I.Output(c) || (d.Running? && exists x :: I.Output(d) == I.Output(c) + [x])
  {
    hide I.Read, Machine.Enter, SetVar, I.Compute, StoreElement;
    var fr, s := c.cur.frame, c.store;
    if Defines(t) {
      DefineOutput(I.FieldTable(p), t, fr, s);
    } else if t.Invoke? {
      InvokeOutput(p, t, c);
    } else if t.ArrayCopy? {
      WriteOutput(t, fr, s);
    } else if t.Return? {
      var n := I.Read(t.rhs, fr, s);
      if n.Ok? && c.callers != [] {
        var k := c.callers[|c.callers| - 1];
        SetVarOutput(k.result, n.v, k.act.frame, s);
      }
    }
  }

  lemma SetVarOutput(x: string, n: int, fr: Frame, s: Store)
    ensures SetVar(x, n, fr, s).Ok? ==> SetVar(x, n, fr, s).v.1.out == s.out
  {
  }

  lemma DefineOutput(ft: map<string, set<string>>, t: Instr, fr: Frame, s: Store)
    requires Defines(t)
    ensures I.Define(ft, t, fr, s).Ok? ==> I.Define(ft, t, fr, s).v.1.out == s.out
  {
    hide SetVar, I.Compute;
    var r := I.Compute(ft, t, fr, s);
    if r.Ok? {
      ComputeOutput(ft, t, fr, s);
      SetVarOutput(t.result, r.v.0, fr, r.v.1);
    }
  }

  lemma ComputeOutput(ft: map<string, set<string>>, t: Instr, fr: Frame, s: Store)
    requires Defines(t)
    ensures I.Compute(ft, t, fr, s).Ok? ==> I.Compute(ft, t, fr, s).v.1.out == s.out
  {
  }

  lemma WriteOutput(t: Instr, fr: Frame, s: Store)
    requires t.ArrayCopy?
    ensures I.WriteArray(t, fr, s).Ok? ==> I.WriteArray(t, fr, s).v.out == s.out
  {
  }

  lemma {:induction false} BindOutput(params: seq<string>, stack: seq<int>, fr: Frame, s: Store)
    ensures BindParams(params, stack, fr, s).Ok? ==> BindParams(params, stack, fr, s).v.2.out == s.out
    decreases |params|
  {
    hide SetVar;
    if params != [] && stack != [] {
      var n, d := |params| - 1, |stack| - 1;
      SetVarOutput(params[n], stack[d], fr, s);
      var r := SetVar(params[n], stack[d], fr, s);
      if r.Ok? { BindOutput(params[..n], stack[..d], r.v.0, r.v.1); }
    }
  }

  lemma InvokeOutput(p: I.Ir, t: Instr, c: I.Config)
    requires c.Running? && t.Invoke?
    ensures I.Output(I.Enter(p, t, c)) == I.Output(c)
  {
    hide SetVar, BindParams, I.Read;
    var r := I.Read(t.receiver, c.cur.frame, c.store);
    if r.Ok? && t.target in p.sigs {
      var sig := p.sigs[t.target];
      SetVarOutput("this", r.v, FreshFrame(sig), c.store);
      var e := SetVar("this", r.v, FreshFrame(sig), c.store);
      if e.Ok? { BindOutput(sig.params, c.stack, e.v.0, e.v.1); }
    }
  }

  lemma StandsLooks(k: Link, c: I.Config, v: Vm.State)
    requires Stands(k, c, v)
    ensures I.Look(c) == Vm.Look(v) && I.Output(c) == Vm.Output(v)
  {
    hide SavedAll, Offset;
  }

  /** The VM fails for want of a block that was not emitted, having printed out. */
  ghost predicate Misses(vm: Vm.Program, out: seq<int>) {
    Vm.Shows(vm, I.Over(I.Faulted(NoSuchBlock), out))
  }

  /** The VM shows s, or it is lost before it gets there. */
  ghost predicate ShowsOrMisses(k: Link, s: I.Sight) {
    Vm.Shows(k.vm, s) || (!AllLabelsReached(k.blocks, k.roots) && exists out :: out <= s.out && Misses(k.vm, out))
  }

  /** Whatever the three-address code shows, the VM shows, unless it is lost. */
  lemma VmShowsIr(k: Link, n: nat)
    requires Linked(k)
    ensures ShowsOrMisses(k, I.Look(I.Run(k.ir, n, I.Start(k.ir))))
  {
    hide Linked, FineConfig, Stands, I.Start, Vm.Start, I.Run, Vm.Run, I.Look, Vm.Look, AllLabelsReached, Lost;
    StartStands(k);
    var m := LoweringSimulates(k, n, I.Start(k.ir), Vm.Start(k.vm));
    var c, w := I.Run(k.ir, n, I.Start(k.ir)), Vm.Run(k.vm, m, Vm.Start(k.vm));
    if Stands(k, c, w) {
      StandsLooks(k, c, w);
    } else {
      var j: nat :| j <= n && Lost(k, I.Run(k.ir, j, I.Start(k.ir)), w);
      var d := I.Run(k.ir, j, I.Start(k.ir));
      LostLooks(k, d, w);
      I.RunAdd(k.ir, j, n - j, I.Start(k.ir));
      IrOutputGrows(k.ir, n - j, d);
      SameOut(c);
      assert Misses(k.vm, I.Output(d));
    }
  }

  lemma SameOut(c: I.Config)
    ensures I.Look(c).out == I.Output(c)
  {
  }

  lemma LostLooks(k: Link, d: I.Config, w: Vm.State)
    requires Lost(k, d, w)
    ensures Vm.Look(w) == I.Over(I.Faulted(NoSuchBlock), I.Output(d)) && !AllLabelsReached(k.blocks, k.roots) && w.Done?
    ensures I.Look(d) == I.Going(I.Output(d)) && Vm.Output(w) == I.Output(d)
  {
    hide Reach, AllLabelsReached;
  }

  /** The VM shows what the configuration shows, or it is lost in a block that the code jumped to. */
  ghost predicate LooksLike(k: Link, s: I.Sight, c: I.Config) {
    s == I.Look(c) || (!AllLabelsReached(k.blocks, k.roots) && s == I.Over(I.Faulted(NoSuchBlock), I.Output(c)))
  }

  /** Between the states that stand for two successive configurations the VM looks like one of the two. */
  lemma Between(k: Link, c: I.Config, m: nat, v: Vm.State, w: Vm.State, j: nat)
    requires Stands(k, c, v) && w == Vm.Run(k.vm, m, v) && j <= m
    requires Stands(k, I.Step(k.ir, c), w) || Lost(k, I.Step(k.ir, c), w)
    ensures LooksLike(k, Vm.Look(Vm.Run(k.vm, j, v)), c) || LooksLike(k, Vm.Look(Vm.Run(k.vm, j, v)), I.Step(k.ir, c))
  {
    hide Stands, I.Step, Vm.Step, Lost, AllLabelsReached;
    var u, d := Vm.Run(k.vm, j, v), I.Step(k.ir, c);
    StandsLooks(k, c, v);
    if Stands(k, d, w) { StandsLooks(k, d, w); } else { LostLooks(k, d, w); }
    Vm.RunAdd(k.vm, j, m - j, v);
    Vm.OutputGrows(k.vm, j, v);
    Vm.OutputGrows(k.vm, m - j, u);
    IrStepOutput(k.ir, c);
    if u.Done? {
      Vm.DoneStays(k.vm, m - j, u);
    } else {
      OneOf(I.Output(c), Vm.Output(u), I.Output(d));
      if c.Halted? { Vm.DoneStays(k.vm, j, v); }
    }
  }

  lemma OneOf(a: seq<int>, b: seq<int>, c: seq<int>)
    requires a <= b <= c && (c == a || exists x :: c == a + [x])
    ensures b == a || b == c
  {
    if |b| == |a| { assert b == a; }
  }

  /** Whatever the VM shows, the three-address code shows, or the VM is lost after the same output. */
  lemma {:induction false} IrShowsVm(k: Link, m: nat, c: I.Config, v: Vm.State) returns (n: nat)
    requires Linked(k) && FineConfig(k, c) && Stands(k, c, v)
    ensures LooksLike(k, Vm.Look(Vm.Run(k.vm, m, v)), I.Run(k.ir, n, c))
    decreases m
  {
    hide Linked, FineConfig, Stands, I.Step, Vm.Step, I.Look, Vm.Look, Lost, AllLabelsReached, LooksLike;
    StandsLooks(k, c, v);
    if c.Halted? {
      HaltedDone(k, c, v);
      Vm.DoneStays(k.vm, m, v);
      AlikeNow(k, c);
      n := 0;
    } else {
      var m0 := StepFollows(k, c, v);
      var w := Vm.Run(k.vm, m0, v);
      if m <= m0 {
        Between(k, c, m0, v, w, m);
        n := if LooksLike(k, Vm.Look(Vm.Run(k.vm, m, v)), c) then 0 else 1;
        assert I.Run(k.ir, 1, c) == I.Run(k.ir, 0, I.Step(k.ir, c));
      } else if Lost(k, I.Step(k.ir, c), w) {
        Vm.RunAdd(k.vm, m0, m - m0, v);
        LostLooks(k, I.Step(k.ir, c), w);
        Vm.DoneStays(k.vm, m - m0, w);
        LostAlike(k, I.Step(k.ir, c), w);
        assert I.Run(k.ir, 1, c) == I.Run(k.ir, 0, I.Step(k.ir, c));
        n := 1;
      } else {
        Vm.RunAdd(k.vm, m0, m - m0, v);
        n := IrShowsVm(k, m - m0, I.Step(k.ir, c), w);
        n := n + 1;
      }
    }
  }

  lemma AlikeNow(k: Link, c: I.Config)
    ensures LooksLike(k, I.Look(c), c)
  {
  }

  lemma LostAlike(k: Link, d: I.Config, w: Vm.State)
    requires Lost(k, d, w)
    ensures LooksLike(k, Vm.Look(w), d)
  {
    hide AllLabelsReached;
    LostLooks(k, d, w);
  }

  lemma HaltedDone(k: Link, c: I.Config, v: Vm.State)
    requires c.Halted? && Stands(k, c, v)
    ensures v.Done?
  {
  }

  /** Emission and lowering preserve behaviour, whatever the program does: each of the two machines shows what the other
      shows, except that the VM fails where the code jumps to a block that was not emitted; and when labels only lead to
      emitted blocks there is no exception. */
  lemma LoweringPreservesBehaviour(k: Link)
    requires Linked(k)
    ensures forall s :: I.Shows(k.ir, s) ==> ShowsOrMisses(k, s)
    ensures forall s :: Vm.Shows(k.vm, s) ==> IrLooksLike(k, s)
    ensures AllLabelsReached(k.blocks, k.roots) ==> forall s :: I.Shows(k.ir, s) <==> Vm.Shows(k.vm, s)
  {
    hide Linked, FineConfig, Stands, I.Start, Vm.Start, I.Run, Vm.Run, I.Look, Vm.Look, AllLabelsReached, LooksLike;
    forall n: nat
      ensures ShowsOrMisses(k, I.Look(I.Run(k.ir, n, I.Start(k.ir))))
    {
      VmShowsIr(k, n);
    }
    StartStands(k);
    forall m: nat
      ensures IrLooksLike(k, Vm.Look(Vm.Run(k.vm, m, Vm.Start(k.vm))))
    {
      var n := IrShowsVm(k, m, I.Start(k.ir), Vm.Start(k.vm));
      assert LooksLike(k, Vm.Look(Vm.Run(k.vm, m, Vm.Start(k.vm))), I.Run(k.ir, n, I.Start(k.ir)));
    }
    forall s | AllLabelsReached(k.blocks, k.roots) && IrLooksLike(k, s)
      ensures I.Shows(k.ir, s)
    {
      var n: nat :| LooksLike(k, s, I.Run(k.ir, n, I.Start(k.ir)));
      NotLost(k, s, I.Run(k.ir, n, I.Start(k.ir)));
    }
  }

  /** Some configuration of the run looks like s. */
  ghost predicate IrLooksLike(k: Link, s: I.Sight) {
    exists n: nat :: LooksLike(k, s, I.Run(k.ir, n, I.Start(k.ir)))
  }

  lemma NotLost(k: Link, s: I.Sight, c: I.Config)
    requires AllLabelsReached(k.blocks, k.roots) && LooksLike(k, s, c)
    ensures s == I.Look(c)
  {
    hide AllLabelsReached;
  }

  // ----- the compiler -----

  /** What is seen of a source run with some fuel. */
  function LookSource(r: Source.Outcome<Frame>): I.Sight {
    match r
    case Done(_, s) => I.Over(I.Finished, s.out)
    case Stops(Fail(f, out)) => I.Over(I.Faulted(f), out)
    case Stops(Timeout(out)) => I.Going(out)
  }

  ghost predicate SourceShows(p: Program, s: I.Sight) {
    exists fuel: nat :: LookSource(Source.Run(p, fuel)) == s
  }

  /** The graph of a program after a list of passes. */
  ghost function Optimised(p: Program, passes: seq<Pass>): Blocks {
    AfterAll(passes, GenProgram(p).blocks, GenProgram(p).roots)
  }

  /** ms has been emitted for p, with the symbol table as generation left it. */
  ghost predicate CompiledTo(p: Program, passes: seq<Pass>, scopes: map<string, Scope>, ms: seq<MethodCode>) {
    && Source.GoodProgram(p)
    && ScopesFit(IrOf(p), GenProgram(p).roots, scopes)
    && Emitted(ms, Optimised(p, passes), GenProgram(p).roots, scopes)
  }

  lemma GeneratedTidy(p: Program)
    requires Source.GoodProgram(p)
    ensures Tidy(GenProgram(p).blocks, GenProgram(p).roots, OwnersUpTo(p, |p.order|))
    ensures GenProgram(p).roots == [p.mainName] + p.order
  {
    hide Source.GoodProgram, Owned, AllRoots, WellFormed.Shaped, CleanBlock;
    var n := |p.order|;
    ProgramOwned(p, n);
    ProgramShaped(p, n);
    assert p.order[..n] == p.order;
  }

  lemma GeneratedSound(p: Program)
    requires Source.GoodProgram(p) && NoShortCircuitUpTo(p, |p.order|)
    ensures Sound(GenProgram(p).blocks, GenProgram(p).roots, OwnersUpTo(p, |p.order|))
  {
    hide Source.GoodProgram, NoShortCircuitUpTo, Owned, WellFormed.Agrees, AllClean;
    ProgramOwned(p, |p.order|);
    ProgramAgrees(p, |p.order|);
  }

  lemma RootsGood(p: Program)
    requires Source.GoodProgram(p)
    ensures RootsOf(IrOf(p), [p.mainName] + p.order)
  {
    hide Source.GoodStmt, Source.GoodExpr;
    var roots := [p.mainName] + p.order;
    forall r
      ensures r in roots <==> r == p.mainName || r in p.order
    {
    }
    forall i, j | 0 <= i < j < |roots|
      ensures roots[i] != roots[j]
    {
      if i == 0 { assert roots[j] == p.order[j - 1] && roots[j] in p.order; }
    }
  }

  lemma IrHasCode(p: Program)
    ensures WithBlocks(IrOf(p), GenProgram(p).blocks) == IrOf(p)
  {
  }

  /** The link between the optimised code and the loaded program. */
  lemma CompiledLinked(p: Program, passes: seq<Pass>, scopes: map<string, Scope>, ms: seq<MethodCode>) returns (k: Link)
    requires CompiledTo(p, passes, scopes, ms)
    ensures ms != [] && k.vm == LoadProgram(ms) && Linked(k) && I.SameBehaviour(IrOf(p), k.ir)
    ensures k.blocks == Optimised(p, passes) && k.roots == GenProgram(p).roots
  {
    hide Source.GoodProgram, Tidy, LoadProgram, EmittedMethod, Linked, GenProgram, IrOf, RootsOf, Code, I.SameBehaviour;
    GeneratedTidy(p);
    RootsGood(p);
    IrHasCode(p);
    var g, owner := GenProgram(p), OwnersUpTo(p, |p.order|);
    PassesPreserveBehaviour(IrOf(p), passes, g.blocks, g.roots, owner);
    var blocks := Optimised(p, passes);
    assert ms != [];
    var ir := WithBlocks(IrOf(p), blocks);
    k := Link(ir, blocks, g.roots, owner, LoadProgram(ms));
    SameRoots(IrOf(p), ir, g.roots, scopes);
    EmittedLinked(k, ms, scopes);
  }

  lemma SameRoots(p: I.Ir, q: I.Ir, roots: seq<string>, scopes: map<string, Scope>)
    requires RootsOf(p, roots) && ScopesFit(p, roots, scopes) && q == p.(code := q.code)
    ensures RootsOf(q, roots) && ScopesFit(q, roots, scopes)
  {
  }

  /** What the source shows, the generated code shows. */
  lemma IrShowsSource(p: Program, fuel: nat)
    requires Source.GoodProgram(p)
    ensures I.Shows(IrOf(p), LookSource(Source.Run(p, fuel)))
  {
    hide Source.GoodProgram, Source.Run, IrOf, I.Run, I.Start;
    var n := GenerationPreservesMeaning(p, fuel);
    MatchedLooks(IrOf(p), n, Source.Run(p, fuel), fuel);
  }

  lemma MatchedLooks(ir: I.Ir, n: nat, r: Source.Outcome<Frame>, fuel: nat)
    requires Matches(ir, n, r, fuel)
    ensures I.Look(I.Run(ir, n, I.Start(ir))) == LookSource(r)
    ensures r.Stops? && r.why.Timeout? ==> n >= fuel
  {
    hide I.Run, I.Start;
  }

  /** When the generated code stops, so does the source, in the same way, given enough fuel; and until then
      what it has printed the source prints too. */
  lemma SourceShowsIr(p: Program, n: nat) returns (fuel: nat)
    requires Source.GoodProgram(p)
    ensures var c := I.Run(IrOf(p), n, I.Start(IrOf(p)));
            var r := LookSource(Source.Run(p, fuel));
            && (c.Halted? ==> r == I.Look(c))
            && I.Output(c) <= r.out
  {
    hide Source.GoodProgram, Source.Run, IrOf, I.Start, Matches, I.Step;
    fuel := n + 1;
    var ir := IrOf(p);
    var m := GenerationPreservesMeaning(p, fuel);
    var r := Source.Run(p, fuel);
    MatchedLooks(ir, m, r, fuel);
    var c, d := I.Run(ir, n, I.Start(ir)), I.Run(ir, m, I.Start(ir));
    if n <= m {
      I.RunAdd(ir, n, m - n, I.Start(ir));
      IrOutputGrows(ir, m - n, c);
      if c.Halted? { I.HaltedStays(ir, m - n, c); }
    } else {
      I.RunAdd(ir, m, n - m, I.Start(ir));
      NotTimedOut(r, d);
      I.HaltedStays(ir, n - m, d);
    }
  }

  lemma NotTimedOut(r: Source.Outcome<Frame>, d: I.Config)
    requires I.Look(d) == LookSource(r) && !(r.Stops? && r.why.Timeout?)
    ensures d.Halted?
  {
  }

  lemma SourceOfIr(p: Program, s: I.Sight)
    requires Source.GoodProgram(p) && I.Shows(IrOf(p), s)
    ensures s.Over? ==> SourceShows(p, s)
    ensures exists fuel: nat :: s.out <= LookSource(Source.Run(p, fuel)).out
  {
    hide Source.GoodProgram, Source.Run, IrOf, I.Run, I.Start;
    var n: nat :| I.Look(I.Run(IrOf(p), n, I.Start(IrOf(p)))) == s;
    var fuel := SourceShowsIr(p, n);
    assert s.out <= LookSource(Source.Run(p, fuel)).out;
  }

  /** The only thing that goes wrong in compiled code. For any program, any passes and any emission: the VM prints nothing
      that the source does not print; it stops as the source stops, or else it fails for want of a block; and it shows
      whatever the source shows, unless it fails so before. */
  lemma CompiledOrMissing(p: Program, passes: seq<Pass>, scopes: map<string, Scope>, ms: seq<MethodCode>)
    requires CompiledTo(p, passes, scopes, ms)
    ensures ms != []
    ensures forall s :: Vm.Shows(LoadProgram(ms), s) ==> exists fuel: nat :: s.out <= LookSource(Source.Run(p, fuel)).out
    ensures forall how, out :: Vm.Shows(LoadProgram(ms), I.Over(how, out)) ==> SourceShows(p, I.Over(how, out)) || how == I.Faulted(NoSuchBlock)
    ensures forall s :: SourceShows(p, s) ==> Vm.Shows(LoadProgram(ms), s) || exists out :: out <= s.out && Misses(LoadProgram(ms), out)
  {
    hide Source.GoodProgram, LoadProgram, Source.Run, IrOf, I.Run, I.Start, Vm.Shows, Emitted, ScopesFit, Linked, AllLabelsReached, LooksLike, I.Shows;
    var k := CompiledLinked(p, passes, scopes, ms);
    LoweringPreservesBehaviour(k);
    forall s | Vm.Shows(k.vm, s)
      ensures exists fuel: nat :: s.out <= LookSource(Source.Run(p, fuel)).out
      ensures s.Over? ==> SourceShows(p, s) || s.how == I.Faulted(NoSuchBlock)
    {
      var s' := ShownInIr(k, s);
      SameInIr(p, k, s');
      SourceOfIr(p, s');
      var fuel: nat :| s'.out <= LookSource(Source.Run(p, fuel)).out;
      assert s.out <= LookSource(Source.Run(p, fuel)).out;
    }
    forall s | SourceShows(p, s)
      ensures ShowsOrMisses(k, s)
    {
      var fuel: nat :| LookSource(Source.Run(p, fuel)) == s;
      IrShowsSource(p, fuel);
      SameInIr(p, k, s);
    }
  }

  lemma SameInIr(p: Program, k: Link, s: I.Sight)
    requires I.SameBehaviour(IrOf(p), k.ir)
    ensures I.Shows(IrOf(p), s) <==> I.Shows(k.ir, s)
  {
    hide I.Shows, IrOf;
  }

  /** What the VM shows the three-address code shows, or at least its output. */
  lemma ShownInIr(k: Link, s: I.Sight) returns (s': I.Sight)
    requires IrLooksLike(k, s)
    ensures I.Shows(k.ir, s') && s'.out == s.out
    ensures s' == s || s == I.Over(I.Faulted(NoSuchBlock), s.out)
  {
    hide AllLabelsReached, I.Run, I.Start;
    var n: nat :| LooksLike(k, s, I.Run(k.ir, n, I.Start(k.ir)));
    s' := I.Look(I.Run(k.ir, n, I.Start(k.ir)));
  }

  /** The compiler is correct. A compiled program whose labels all name emitted blocks stops on the VM exactly when its
      source does, with the same output and the same result or run-time error; whatever the source has printed when its
      fuel is used up the VM prints as well, and goes on; and the VM prints nothing that the source does not. */
  lemma CompilerCorrect(p: Program, passes: seq<Pass>, scopes: map<string, Scope>, ms: seq<MethodCode>)
    requires CompiledTo(p, passes, scopes, ms) && AllLabelsNamed(ms)
    ensures ms != []
    ensures forall how, out :: Vm.Shows(LoadProgram(ms), I.Over(how, out)) <==> SourceShows(p, I.Over(how, out))
    ensures forall out :: SourceShows(p, I.Going(out)) ==> Vm.Shows(LoadProgram(ms), I.Going(out))
    ensures forall s :: Vm.Shows(LoadProgram(ms), s) ==> exists fuel: nat :: s.out <= LookSource(Source.Run(p, fuel)).out
  {
    hide Source.GoodProgram, LoadProgram, Source.Run, IrOf, I.Run, I.Start, Emitted, ScopesFit, I.Shows, Vm.Shows, Linked, AllLabelsReached, ShowsOrMisses,
      AllLabelsNamed, GenProgram, AfterAll;
    var k := CompiledLinked(p, passes, scopes, ms);
    LabelsNamedExactly(ms, k.blocks, k.roots, scopes);
    LoweringPreservesBehaviour(k);
    forall s | SourceShows(p, s)
      ensures Vm.Shows(k.vm, s)
    {
      var fuel: nat :| LookSource(Source.Run(p, fuel)) == s;
      IrShowsSource(p, fuel);
      SameInIr(p, k, s);
    }
    forall s | Vm.Shows(k.vm, s)
      ensures s.Over? ==> SourceShows(p, s)
      ensures exists fuel: nat :: s.out <= LookSource(Source.Run(p, fuel)).out
    {
      SameInIr(p, k, s);
      SourceOfIr(p, s);
    }
  }

  /** Without nested short circuits all labels name emitted blocks, whatever passes have run. */
  lemma PlainLabelsNamed(p: Program, passes: seq<Pass>, scopes: map<string, Scope>, ms: seq<MethodCode>)
    requires CompiledTo(p, passes, scopes, ms) && NoShortCircuitUpTo(p, |p.order|)
    ensures AllLabelsNamed(ms)
  {
    hide Source.GoodProgram, NoShortCircuitUpTo, Sound, Emitted, ScopesFit, IrOf, GenProgram, AfterAll, AllLabelsNamed;
    var g, owner := GenProgram(p), OwnersUpTo(p, |p.order|);
    GeneratedSound(p);
    PassesKeepAgreement(passes, g.blocks, g.roots, owner);
    SoundLabelsNamed(ms, Optimised(p, passes), g.roots, scopes, owner);
  }

  /** Safety: whatever the program does, the VM never runs off the end of a block, pops an empty data stack, returns
      without a caller or calls a missing method; and never misses a block if all labels name emitted ones. */
  lemma VmNeverStuck(p: Program, passes: seq<Pass>, scopes: map<string, Scope>, ms: seq<MethodCode>, m: nat)
    requires CompiledTo(p, passes, scopes, ms)
    ensures ms != []
    ensures var v := Vm.Run(LoadProgram(ms), m, Vm.Start(LoadProgram(ms)));
            v.Done? && v.how.Faulted? && Stuck(v.how.f) ==> v.how.f == NoSuchBlock && !AllLabelsNamed(ms)
  {
    hide Source.GoodProgram, LoadProgram, Source.Run, IrOf, I.Run, I.Start, Vm.Run, Vm.Start, Emitted, ScopesFit, AllLabelsNamed, Misses;
    CompiledOrMissing(p, passes, scopes, ms);
    if AllLabelsNamed(ms) { CompilerCorrect(p, passes, scopes, ms); }
    var v := Vm.Run(LoadProgram(ms), m, Vm.Start(LoadProgram(ms)));
    if v.Done? {
      assert Vm.Look(v) == I.Over(v.how, v.out);
      assert Vm.Shows(LoadProgram(ms), I.Over(v.how, v.out));
      if SourceShows(p, I.Over(v.how, v.out)) {
        var fuel: nat :| LookSource(Source.Run(p, fuel)) == I.Over(v.how, v.out);
        SourceSafety.RunSafe(p, fuel);
        LookedSafe(Source.Run(p, fuel), v.how, v.out);
      }
    }
  }

  lemma LookedSafe(r: Source.Outcome<Frame>, how: I.Ending, out: seq<int>)
    requires LookSource(r) == I.Over(how, out) && SourceSafety.Safe(r)
    ensures how.Faulted? ==> !Stuck(how.f)
  {
  }

  lemma CompileTidy(p: Program, passes: seq<Pass>)
    requires Source.GoodProgram(p)
    ensures var g, owner := GenProgram(p), OwnersUpTo(p, |p.order|);
            && Closed(g.blocks) && (forall r :: r in g.roots ==> r in g.blocks)
            && Owned(Optimised(p, passes), g.roots, owner) && RootsOf(IrOf(p), g.roots) && TrueExitFirst(Optimised(p, passes))
  {
    hide Source.GoodProgram, AllTidy, Owned, GenProgram, IrOf, RootsOf, I.SameBehaviour;
    var g, owner := GenProgram(p), OwnersUpTo(p, |p.order|);
    GeneratedTidy(p);
    SoundClosed(g.blocks, g.roots, owner);
    PassesPreserveBehaviour(IrOf(p), passes, g.blocks, g.roots, owner);
    RootsGood(p);
    TidyTrueExitFirst(Optimised(p, passes));
  }

  /** The compiler's run: generate, optimise, emit. */
  method Compile(p: Program, passes: seq<Pass>, scopes: map<string, Scope>) returns (ms: seq<MethodCode>)
    requires Source.GoodProgram(p)
    requires ScopesFit(IrOf(p), GenProgram(p).roots, scopes)
    ensures CompiledTo(p, passes, scopes, ms)
  {
    hide Source.GoodProgram, Owned, TrueExitFirst, Emitted, GenProgram, IrOf, Distinct, AfterAll, Closed, SomePassChanges;
    CompileTidy(p, passes);
    var graph := IrVisitor.GenerateIr(p);
    var changed := RunPasses(passes, graph);
    ms := GenerateBytecode(graph, scopes, OwnersUpTo(p, |p.order|));
  }
}

/** The whole way from a unit that the type checker accepts to the file that the VM reads and runs. */
module EndToEnd {
  import opened Ast
  import opened Bytecode
  import opened Machine
  import opened Emission
  import opened Loading
  import opened Passes
  import opened Pipeline
  import opened EmittedLabels
  import opened Reachability
  import opened Tac
  import opened ProgramGeneration
  import opened Serialization
  import opened TypeChecking
  import EagerPrograms
  import EagerReads
  import ExitTargets
  import I = IrMachine
  import IrGeneration
  import PassesCorrect
  import Source
  import TypeSoundness
  import TypedStores
  import UnitMeaning
  import Vm
  import WellFormed

  /** What is seen of the unit at some fuel, by its meaning on parse trees. */
  ghost predicate UnitShows(o: UnitMeaning.Order, w: TypedStores.Setting, s: I.Sight) {
    exists fuel: nat :: LookSource(UnitMeaning.UnitRun(o, w, fuel)) == s
  }

  /** Running vm is running the unit, variables read late: it stops exactly when the unit does, in the same way and with the
      same output, prints nothing else, and is never stuck. */
  ghost predicate Runs(vm: Vm.Program, w: TypedStores.Setting) {
    && (forall how, out :: Vm.Shows(vm, I.Over(how, out)) <==> UnitShows(UnitMeaning.Late, w, I.Over(how, out)))
    && (forall out :: UnitShows(UnitMeaning.Late, w, I.Going(out)) ==> Vm.Shows(vm, I.Going(out)))
    && (forall s :: Vm.Shows(vm, s) ==> exists fuel: nat :: s.out <= LookSource(UnitMeaning.UnitRun(UnitMeaning.Late, w, fuel)).out)
    && NeverStuck(vm)
  }

  ghost predicate NeverStuck(vm: Vm.Program) {
    forall m: nat :: !StuckAfter(vm, m)
  }

  ghost predicate StuckAfter(vm: Vm.Program, m: nat) {
    var v := Vm.Run(vm, m, Vm.Start(vm));
    v.Done? && v.how.Faulted? && Stuck(v.how.f)
  }

  /** Running vm is running the unit, except that vm may fail for want of a block: it prints nothing that the unit does not
      print, stops as the unit stops or so, and shows whatever the unit shows unless it fails so before. */
  ghost predicate RunsOrMisses(vm: Vm.Program, w: TypedStores.Setting) {
    && (forall s :: Vm.Shows(vm, s) ==> exists fuel: nat :: s.out <= LookSource(UnitMeaning.UnitRun(UnitMeaning.Late, w, fuel)).out)
    && (forall how, out :: Vm.Shows(vm, I.Over(how, out)) ==> UnitShows(UnitMeaning.Late, w, I.Over(how, out)) || how == I.Faulted(NoSuchBlock))
    && (forall s :: UnitShows(UnitMeaning.Late, w, s) ==> Vm.Shows(vm, s) || exists out :: out <= s.out && Misses(vm, out))
    && forall m: nat :: StuckAfter(vm, m) ==> Vm.Run(vm, m, Vm.Start(vm)).how.f == NoSuchBlock
  }

  /** The unit and the program that generation gets for it show the same. */
  lemma UnitSeen(w: TypedStores.Setting)
    requires WellDeclared(w.classes, w.u) && CheckUnit(w.classes, w.u).errors == 0
    ensures var p := TypedUnit(w.classes, w.u);
            && (forall fuel: nat :: UnitMeaning.UnitRun(UnitMeaning.Late, w, fuel) == Source.Run(p, fuel))
            && (forall s :: UnitShows(UnitMeaning.Late, w, s) <==> SourceShows(p, s))
            && (forall s :: UnitShows(UnitMeaning.AtOnce, w, s) <==> EagerShows(p, s))
  {
    hide WellDeclared, CheckUnit, TypedUnit, Source.Run, EagerReads.EagerRun, UnitMeaning.UnitRun, LookSource;
    var p := TypedUnit(w.classes, w.u);
    forall fuel: nat
      ensures UnitMeaning.UnitRun(UnitMeaning.Late, w, fuel) == Source.Run(p, fuel)
      ensures UnitMeaning.UnitRun(UnitMeaning.AtOnce, w, fuel) == EagerReads.EagerRun(p, fuel)
    {
      UnitMeaning.CompiledMeaning(UnitMeaning.Late, w, fuel);
      UnitMeaning.CompiledMeaning(UnitMeaning.AtOnce, w, fuel);
    }
    forall s
      ensures UnitShows(UnitMeaning.Late, w, s) <==> SourceShows(p, s)
      ensures UnitShows(UnitMeaning.AtOnce, w, s) <==> EagerShows(p, s)
    {
      LateShown(w, p, s);
      EagerShown(w, p, s);
    }
  }

  lemma LateShown(w: TypedStores.Setting, p: Program, s: I.Sight)
    requires forall fuel: nat :: UnitMeaning.UnitRun(UnitMeaning.Late, w, fuel) == Source.Run(p, fuel)
    ensures UnitShows(UnitMeaning.Late, w, s) <==> SourceShows(p, s)
  {
    hide Source.Run, UnitMeaning.UnitRun, LookSource;
    if UnitShows(UnitMeaning.Late, w, s) {
      var fuel: nat :| LookSource(UnitMeaning.UnitRun(UnitMeaning.Late, w, fuel)) == s;
      assert LookSource(Source.Run(p, fuel)) == s;
    }
    if SourceShows(p, s) {
      var fuel: nat :| LookSource(Source.Run(p, fuel)) == s;
      assert LookSource(UnitMeaning.UnitRun(UnitMeaning.Late, w, fuel)) == s;
    }
  }

  lemma EagerShown(w: TypedStores.Setting, p: Program, s: I.Sight)
    requires forall fuel: nat :: UnitMeaning.UnitRun(UnitMeaning.AtOnce, w, fuel) == EagerReads.EagerRun(p, fuel)
    ensures UnitShows(UnitMeaning.AtOnce, w, s) <==> EagerShows(p, s)
  {
    hide EagerReads.EagerRun, UnitMeaning.UnitRun, LookSource;
    if UnitShows(UnitMeaning.AtOnce, w, s) {
      var fuel: nat :| LookSource(UnitMeaning.UnitRun(UnitMeaning.AtOnce, w, fuel)) == s;
      assert LookSource(EagerReads.EagerRun(p, fuel)) == s;
    }
    if EagerShows(p, s) {
      var fuel: nat :| LookSource(EagerReads.EagerRun(p, fuel)) == s;
      assert LookSource(UnitMeaning.UnitRun(UnitMeaning.AtOnce, w, fuel)) == s;
    }
  }

  /** Whatever unit the type checker accepts: its file can be read back, and what was read runs as the unit does, unless
      it fails for want of a block; which cannot happen if all labels in the emitted code name blocks emitted with it. */
  lemma AcceptedUnitRuns(classes: Classes, u: Unit, passes: seq<Pass>, scopes: map<string, Scope>, ms: seq<MethodCode>)
    requires WellDeclared(classes, u) && CheckUnit(classes, u).errors == 0
    requires var p := TypedUnit(classes, u);
             && ScopesFit(IrOf(p), IrGeneration.GenProgram(p).roots, scopes)
             && Emitted(ms, Optimised(p, passes), IrGeneration.GenProgram(p).roots, scopes)
    requires AllNamesFit(ms)
    ensures FitsProgram(ms)
    ensures var r, w := ReadProgram(WriteProgram(ms)), TypedStores.Setting(classes, u);
            && r.Got? && r.rest == [] && RunsOrMisses(LoadRawProgram(r.value), w)
            && (AllLabelsNamed(ms) ==> Runs(LoadRawProgram(r.value), w))
  {
    hide WellDeclared, CheckUnit, TypedUnit, Source.GoodProgram, ScopesFit, Emitted, FitsProgram, WriteProgram, ReadProgram,
      LoadProgram, LoadRawProgram, SourceShows, Vm.Shows, Optimised, IrOf, StuckAfter, AllLabelsNamed, AllNamesFit, RunsOrMisses, Runs, ConstantsFit;
    var p, w := TypedUnit(classes, u), TypedStores.Setting(classes, u);
    AcceptedUnitIsGood(classes, u);
    assert CompiledTo(p, passes, scopes, ms);
    CompiledFits(p, passes, scopes, ms);
    FileLoads(ms);
    CompiledRunsOrMisses(w, passes, scopes, ms);
    if AllLabelsNamed(ms) { CompiledRuns(w, passes, scopes, ms); }
  }

  /** In particular, if no `&&` or `||` stands inside the right operand of another one. */
  lemma PlainUnitRuns(classes: Classes, u: Unit, passes: seq<Pass>, scopes: map<string, Scope>, ms: seq<MethodCode>)
    requires WellDeclared(classes, u) && CheckUnit(classes, u).errors == 0
    requires var p := TypedUnit(classes, u);
             && ExitTargets.NoShortCircuitUpTo(p, |p.order|) && ScopesFit(IrOf(p), IrGeneration.GenProgram(p).roots, scopes)
             && Emitted(ms, Optimised(p, passes), IrGeneration.GenProgram(p).roots, scopes)
    requires AllNamesFit(ms)
    ensures FitsProgram(ms)
    ensures var r := ReadProgram(WriteProgram(ms)); r.Got? && r.rest == [] && Runs(LoadRawProgram(r.value), TypedStores.Setting(classes, u))
  {
    hide WellDeclared, CheckUnit, TypedUnit, Source.GoodProgram, ScopesFit, Emitted, FitsProgram, WriteProgram, ReadProgram,
      LoadRawProgram, Optimised, IrOf, AllLabelsNamed, AllNamesFit, RunsOrMisses, Runs, ExitTargets.NoShortCircuitUpTo;
    AcceptedUnitIsGood(classes, u);
    PlainLabelsNamed(TypedUnit(classes, u), passes, scopes, ms);
    AcceptedUnitRuns(classes, u, passes, scopes, ms);
  }

  lemma CompiledRuns(w: TypedStores.Setting, passes: seq<Pass>, scopes: map<string, Scope>, ms: seq<MethodCode>)
    requires WellDeclared(w.classes, w.u) && CheckUnit(w.classes, w.u).errors == 0
    requires CompiledTo(TypedUnit(w.classes, w.u), passes, scopes, ms) && AllLabelsNamed(ms)
    ensures ms != [] && Runs(LoadProgram(ms), w)
  {
    hide WellDeclared, CheckUnit, TypedUnit, CompiledTo, LoadProgram, SourceShows, UnitShows, Vm.Shows, StuckAfter, AllLabelsNamed;
    CompilerCorrect(TypedUnit(w.classes, w.u), passes, scopes, ms);
    UnitSeen(w);
    forall m: nat
      ensures !StuckAfter(LoadProgram(ms), m)
    {
      VmNeverStuck(TypedUnit(w.classes, w.u), passes, scopes, ms, m);
      NotStuckAfter(LoadProgram(ms), m);
    }
  }

  lemma CompiledRunsOrMisses(w: TypedStores.Setting, passes: seq<Pass>, scopes: map<string, Scope>, ms: seq<MethodCode>)
    requires WellDeclared(w.classes, w.u) && CheckUnit(w.classes, w.u).errors == 0
    requires CompiledTo(TypedUnit(w.classes, w.u), passes, scopes, ms)
    ensures ms != [] && RunsOrMisses(LoadProgram(ms), w)
  {
    hide WellDeclared, CheckUnit, TypedUnit, CompiledTo, LoadProgram, SourceShows, UnitShows, Vm.Shows, AllLabelsNamed, Misses;
    CompiledOrMissing(TypedUnit(w.classes, w.u), passes, scopes, ms);
    UnitSeen(w);
    forall m: nat | StuckAfter(LoadProgram(ms), m)
      ensures Vm.Run(LoadProgram(ms), m, Vm.Start(LoadProgram(ms))).how.f == NoSuchBlock
    {
      VmNeverStuck(TypedUnit(w.classes, w.u), passes, scopes, ms, m);
    }
  }

  // ----- constants -----

  lemma {:induction false} LoweredConstants(ts: seq<Instr>)
    requires ExitTargets.AllClean(ts)
    ensures forall i :: i in LowerAll(ts) ==> ConstantFits(i)
  {
    hide Lower, ConstantFits;
    if ts != [] {
      var n := |ts| - 1;
      LoweredConstants(ts[..n]);
      LoweredConstant(ts[n]);
    }
  }

  lemma LoweredConstant(t: Instr)
    requires ExitTargets.Clean(t)
    ensures forall i :: i in Lower(t) ==> ConstantFits(i)
  {
  }

  lemma ExpectedConstants(blocks: Blocks, isMain: bool, root: string, params: seq<string>, l: string)
    requires l in blocks && ExitTargets.AllClean(blocks[l].instrs)
    ensures forall i :: i in ExpectedCode(blocks, isMain, root, params, l) ==> ConstantFits(i)
  {
    hide LowerAll;
    LoweredConstants(blocks[l].instrs);
  }

  /** Every constant in the code of a compiled program fits 64 bits, since the operands of the three-address code are C++
      ints. */
  lemma CompiledFits(p: Program, passes: seq<Pass>, scopes: map<string, Scope>, ms: seq<MethodCode>)
    requires CompiledTo(p, passes, scopes, ms) && AllNamesFit(ms)
    ensures FitsProgram(ms)
  {
    hide Source.GoodProgram, ScopesFit, EmittedMethod, FitsProgram, AllNamesFit, ConstantsFit, IrOf, Optimised, PassesCorrect.Tidy, I.SameBehaviour;
    var g, owner := IrGeneration.GenProgram(p), ExitTargets.OwnersUpTo(p, |p.order|);
    GeneratedTidy(p);
    PassesCorrect.PassesPreserveBehaviour(IrOf(p), passes, g.blocks, g.roots, owner);
    var blocks := Optimised(p, passes);
    assert blocks == AfterAll(passes, g.blocks, g.roots) by { OptimisedIs(p, passes); }
    forall m | m in ms
      ensures ConstantsFit(m)
    {
      var i :| 0 <= i < |ms| && ms[i] == m;
      MethodConstants(m, blocks, i == 0, g.roots, g.roots[i], scopes[g.roots[i]], owner);
    }
    FitsParts(ms);
  }

  lemma OptimisedIs(p: Program, passes: seq<Pass>)
    ensures Optimised(p, passes) == AfterAll(passes, IrGeneration.GenProgram(p).blocks, IrGeneration.GenProgram(p).roots)
  {
  }

  lemma MethodConstants(m: MethodCode, blocks: Blocks, isMain: bool, roots: seq<string>, root: string, scope: Scope, owner: map<string, string>)
    requires EmittedMethod(m, blocks, isMain, root, scope) && PassesCorrect.Tidy(blocks, roots, owner)
    ensures ConstantsFit(m)
  {
    hide AsMap, Reach, ExpectedCode, ConstantFits, ExitTargets.Owned, WellFormed.Shaped;
    forall b | b in m.blocks
      ensures forall i :: i in b.code ==> ConstantFits(i)
    {
      var i :| 0 <= i < |m.blocks| && m.blocks[i] == b;
      AsMapFirst(m.blocks, i);
      assert b.name in AsMap(m.blocks).Keys;
      assert ExitTargets.CleanBlock(blocks[b.name]);
      ExpectedConstants(blocks, isMain, root, scope.params, b.name);
    }
  }

  lemma NotStuckAfter(vm: Vm.Program, m: nat)
    requires var v := Vm.Run(vm, m, Vm.Start(vm)); v.Done? && v.how.Faulted? ==> !Stuck(v.how.f)
    ensures !StuckAfter(vm, m)
  {
  }

  ghost predicate FaultOfLanguage(vm: Vm.Program, m: nat) {
    var v := Vm.Run(vm, m, Vm.Start(vm));
    v.Done? && v.how.Faulted? ==> TypedStores.OfLanguage(v.how.f)
  }

  /** If its identifiers also resolve to variables, the VM only ever fails with a fault of the language, no variable or
      field being ever missing, or for want of a block as above. */
  lemma AcceptedUnitNeverGoesWrong(w: TypedStores.Setting, passes: seq<Pass>, scopes: map<string, Scope>, ms: seq<MethodCode>, m: nat)
    requires TypedStores.Accepted(w) && CompiledTo(TypedUnit(w.classes, w.u), passes, scopes, ms)
    ensures ms != []
    ensures FaultOfLanguage(LoadProgram(ms), m) || (StuckAfter(LoadProgram(ms), m) && !AllLabelsNamed(ms))
  {
    hide TypedStores.Accepted, TypedUnit, CompiledTo, LoadProgram, SourceShows, Vm.Run, Vm.Start, Vm.Shows, AllLabelsNamed, Misses;
    var p := TypedUnit(w.classes, w.u);
    CompiledOrMissing(p, passes, scopes, ms);
    var v := Vm.Run(LoadProgram(ms), m, Vm.Start(LoadProgram(ms)));
    if v.Done? {
      ShownNow(LoadProgram(ms), m);
      if SourceShows(p, I.Over(v.how, v.out)) {
        var fuel := ShownFuel(p, I.Over(v.how, v.out));
        TypeSoundness.AcceptedNeverGoesWrong(w, fuel);
        FineLooks(Source.Run(p, fuel), v.how, v.out);
      } else {
        VmNeverStuck(p, passes, scopes, ms, m);
      }
    }
  }

  lemma ShownNow(vm: Vm.Program, m: nat)
    ensures Vm.Shows(vm, Vm.Look(Vm.Run(vm, m, Vm.Start(vm))))
  {
  }

  lemma ShownFuel(p: Program, s: I.Sight) returns (fuel: nat)
    requires SourceShows(p, s)
    ensures LookSource(Source.Run(p, fuel)) == s
  {
    fuel :| LookSource(Source.Run(p, fuel)) == s;
  }

  lemma FineLooks(r: Source.Outcome<Frame>, how: I.Ending, out: seq<int>)
    requires TypeSoundness.Fine(r) && LookSource(r) == I.Over(how, out)
    ensures how.Faulted? ==> TypedStores.OfLanguage(how.f)
  {
  }

  // ----- the language's order of reads -----

  ghost predicate EagerShows(p: Program, s: I.Sight) {
    exists fuel: nat :: LookSource(EagerReads.EagerRun(p, fuel)) == s
  }

  /** Running vm is running the unit with each variable read where it stands, except that where the language fails for want
      of an object vm may fail with another fault of the language, after the same output. */
  ghost predicate RunsInOrder(vm: Vm.Program, w: TypedStores.Setting) {
    && (forall out :: Vm.Shows(vm, I.Over(I.Finished, out)) <==> UnitShows(UnitMeaning.AtOnce, w, I.Over(I.Finished, out)))
    && (forall f, out :: Vm.Shows(vm, I.Over(I.Faulted(f), out)) ==>
          TypedStores.OfLanguage(f) && (UnitShows(UnitMeaning.AtOnce, w, I.Over(I.Faulted(f), out)) || UnitShows(UnitMeaning.AtOnce, w, I.Over(I.Faulted(ThisUnset), out))))
    && (forall f, out :: UnitShows(UnitMeaning.AtOnce, w, I.Over(I.Faulted(f), out)) ==>
          Vm.Shows(vm, I.Over(I.Faulted(f), out)) || (f == ThisUnset && exists f' :: Vm.Shows(vm, I.Over(I.Faulted(f'), out))))
    && (forall out :: UnitShows(UnitMeaning.AtOnce, w, I.Going(out)) ==> Vm.Shows(vm, I.Going(out)))
  }

  /** What is seen of two runs that are alike. */
  ghost predicate SeenAlike(late: I.Sight, eager: I.Sight) {
    late == eager || (late.Over? && late.how.Faulted? && eager == I.Over(I.Faulted(ThisUnset), late.out))
  }

  lemma AlikeLooks(late: Source.Outcome<Frame>, eager: Source.Outcome<Frame>)
    requires EagerReads.Alike(late, eager)
    ensures SeenAlike(LookSource(late), LookSource(eager))
  {
  }

  lemma LateSeen(w: TypedStores.Setting, s: I.Sight) returns (s': I.Sight)
    requires TypedStores.Accepted(w) && EagerReads.OrderlyProgram(TypedUnit(w.classes, w.u)) && SourceShows(TypedUnit(w.classes, w.u), s)
    ensures EagerShows(TypedUnit(w.classes, w.u), s') && SeenAlike(s, s')
    ensures s.Over? && s.how.Faulted? ==> TypedStores.OfLanguage(s.how.f)
  {
    hide TypedStores.Accepted, EagerReads.OrderlyProgram, TypedUnit, Source.Run, EagerReads.EagerRun, LookSource, EagerReads.Alike, SeenAlike;
    var p := TypedUnit(w.classes, w.u);
    var fuel := ShownFuel(p, s);
    EagerPrograms.RunsAlike(w, fuel);
    ProgIs(w);
    AlikeLooks(Source.Run(p, fuel), EagerReads.EagerRun(p, fuel));
    s' := LookSource(EagerReads.EagerRun(p, fuel));
    TypeSoundness.AcceptedNeverGoesWrong(w, fuel);
    if s.Over? { FineLooks(Source.Run(p, fuel), s.how, s.out); }
  }

  lemma ProgIs(w: TypedStores.Setting)
    ensures TypeSoundness.Prog(w) == TypedUnit(w.classes, w.u)
  {
    hide TypedUnit;
  }

  lemma EagerSeen(w: TypedStores.Setting, s: I.Sight) returns (s': I.Sight)
    requires TypedStores.Accepted(w) && EagerReads.OrderlyProgram(TypedUnit(w.classes, w.u)) && EagerShows(TypedUnit(w.classes, w.u), s)
    ensures SourceShows(TypedUnit(w.classes, w.u), s') && SeenAlike(s', s)
  {
    hide TypedStores.Accepted, EagerReads.OrderlyProgram, TypedUnit, Source.Run, EagerReads.EagerRun, LookSource, EagerReads.Alike, SeenAlike;
    var p := TypedUnit(w.classes, w.u);
    var fuel: nat :| LookSource(EagerReads.EagerRun(p, fuel)) == s;
    EagerPrograms.RunsAlike(w, fuel);
    ProgIs(w);
    AlikeLooks(Source.Run(p, fuel), EagerReads.EagerRun(p, fuel));
    s' := LookSource(Source.Run(p, fuel));
    assert SourceShows(p, s');
  }

  /** An accepted unit whose identifiers resolve and in which no field stands unread across a call runs on the VM as the
      language has it, if all emitted labels name emitted blocks. */
  lemma OrderlyUnitRuns(w: TypedStores.Setting, passes: seq<Pass>, scopes: map<string, Scope>, ms: seq<MethodCode>)
    requires TypedStores.Accepted(w) && EagerReads.OrderlyProgram(TypedUnit(w.classes, w.u))
    requires CompiledTo(TypedUnit(w.classes, w.u), passes, scopes, ms) && AllLabelsNamed(ms)
    ensures ms != [] && RunsInOrder(LoadProgram(ms), w)
  {
    hide TypedStores.Accepted, EagerReads.OrderlyProgram, TypedUnit, CompiledTo, LoadProgram, SourceShows, EagerShows, UnitShows, Vm.Shows, AllLabelsNamed, TypedStores.OfLanguage;
    var p := TypedUnit(w.classes, w.u);
    AcceptedParts(w);
    UnitSeen(w);
    CompilerCorrect(p, passes, scopes, ms);
    var vm := LoadProgram(ms);
    forall how, out | Vm.Shows(vm, I.Over(how, out))
      ensures EagerShows(p, I.Over(how, out)) || (how.Faulted? && EagerShows(p, I.Over(I.Faulted(ThisUnset), out)))
      ensures how.Faulted? ==> TypedStores.OfLanguage(how.f)
    {
      var s' := LateSeen(w, I.Over(how, out));
    }
    forall s | EagerShows(p, s)
      ensures Vm.Shows(vm, s) || (s.Over? && s.how == I.Faulted(ThisUnset) && exists f' :: Vm.Shows(vm, I.Over(I.Faulted(f'), s.out)))
    {
      var s' := EagerSeen(w, s);
      if s' != s { assert Vm.Shows(vm, I.Over(I.Faulted(s'.how.f), s.out)); }
    }
  }

  lemma AcceptedParts(w: TypedStores.Setting)
    requires TypedStores.Accepted(w)
    ensures WellDeclared(w.classes, w.u) && CheckUnit(w.classes, w.u).errors == 0
  {
  }
}

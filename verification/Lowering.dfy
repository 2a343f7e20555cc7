/** Runs of the emitted bytecode are runs of the three-address code, until the code jumps to a block that was not
    emitted, if there is one. */
module Lowering {
  import opened Ast
  import opened Tac
  import opened Machine
  import opened Bytecode
  import opened FlowGraph
  import opened WellFormed
  import opened Reachability
  import opened ExitTargets
  import opened PassesCorrect
  import opened LoweringSteps
  import I = IrMachine
  import Vm

  /** Three-address code with its graph, and the program loaded into the VM. */
  datatype Link = Link(ir: I.Ir, blocks: Blocks, roots: seq<string>, owner: map<string, string>, vm: Vm.Program)

  function SignatureOf(k: Link, r: string): Signature {
    if r in k.ir.sigs then k.ir.sigs[r] else k.ir.mainSig
  }

  function MethodOf(k: Link, r: string): Vm.Loaded {
    if r in k.ir.sigs && r in k.vm.methods then k.vm.methods[r] else k.vm.main
  }

  function Head(k: Link, r: string, l: string): seq<Instruction> {
    if l == r then Prologue(r == k.ir.main, SignatureOf(k, r).params) else []
  }

  /** Main ends with STOP wherever it has no exit. */
  function Tail(k: Link, r: string, l: string): seq<Instruction>
    requires l in k.blocks
  {
    if r == k.ir.main && Exits(k.blocks[l]) == {} then [STOP] else []
  }

  function CodeFor(k: Link, r: string, l: string): seq<Instruction>
    requires l in k.blocks
  {
    Head(k, r, l) + LowerAll(k.blocks[l].instrs) + Tail(k, r, l)
  }

  ghost predicate LoadedAs(k: Link, r: string) {
    var m, sig := MethodOf(k, r), SignatureOf(k, r);
    && m.locals == sig.locals && m.fields == sig.fields && m.blocks.Keys == Reach(k.blocks, r)
    && forall l {:trigger m.blocks[l]} {:trigger l in Reach(k.blocks, r)} ::
         l in Reach(k.blocks, r) ==> l in m.blocks && m.blocks[l] == CodeFor(k, r, l)
  }

  ghost predicate Linked(k: Link) {
    && k.ir.code == Code(k.blocks)
    && Tidy(k.blocks, k.roots, k.owner)
    && (forall r {:trigger r in k.roots} :: r in k.roots <==> r == k.ir.main || r in k.ir.sigs)
    && k.ir.main !in k.ir.sigs && k.ir.mainSig.params == []
    && k.vm.methods.Keys == k.ir.sigs.Keys
    && SameAllocation(k.vm, I.FieldTable(k.ir))
    && k.vm.mainName == k.ir.main
    && forall r {:trigger LoadedAs(k, r)} :: r in k.roots ==> LoadedAs(k, r)
  }

  // ----- the relation -----

  ghost predicate Before(k: Link, a: I.Activation) {
    a.block in k.blocks && a.pc <= |k.blocks[a.block].instrs|
  }

  function Offset(k: Link, a: I.Activation): nat
    requires a.block in k.blocks && a.pc <= |k.blocks[a.block].instrs|
  {
    |Head(k, a.name, a.block)| + |LowerAll(k.blocks[a.block].instrs[..a.pc])|
  }

  /** a is inside its method, and control can have fallen through to it. */
  ghost predicate Fine(k: Link, a: I.Activation) {
    && a.name in k.roots && a.block in Reach(k.blocks, a.name) && Before(k, a)
    && (a.pc > 0 ==> var t := k.blocks[a.block].instrs[a.pc - 1]; !t.Jump? && !t.Return?)
  }

  ghost predicate FineCaller(k: Link, c: I.Caller) {
    && Fine(k, c.act) && c.act.pc > 0
    && var t := k.blocks[c.act.block].instrs[c.act.pc - 1];
       t.Invoke? && t.result == c.result
  }

  /** Main is the outermost activation and no other. */
  ghost predicate FineConfig(k: Link, c: I.Config) {
    c.Running? ==>
      && Fine(k, c.cur) && (c.cur.name == k.ir.main <==> c.callers == [])
      && forall i {:trigger c.callers[i]} :: 0 <= i < |c.callers| ==>
           FineCaller(k, c.callers[i]) && (c.callers[i].act.name == k.ir.main <==> i == 0)
  }

  function ActivationOf(k: Link, a: I.Activation): Vm.Activation
    requires a.block in k.blocks && a.pc <= |k.blocks[a.block].instrs|
  {
    Vm.Activation(MethodOf(k, a.name), a.block, Offset(k, a), a.frame)
  }

  /** A suspended caller resumes in front of the STORE of its call. */
  function SavedOf(k: Link, a: I.Activation): Vm.Activation
    requires a.block in k.blocks && a.pc <= |k.blocks[a.block].instrs|
  {
    Vm.Activation(MethodOf(k, a.name), a.block, if Offset(k, a) > 0 then Offset(k, a) - 1 else 0, a.frame)
  }

  ghost predicate SavedAll(k: Link, callers: seq<I.Caller>, saved: seq<Vm.Activation>) {
    |saved| == |callers|
    && forall i {:trigger callers[i]} {:trigger saved[i]} :: 0 <= i < |callers| ==> Before(k, callers[i].act) && saved[i] == SavedOf(k, callers[i].act)
  }

  /** The VM state that stands for a configuration. */
  ghost predicate Stands(k: Link, c: I.Config, v: Vm.State) {
    match c
    case Halted(how, out) => v == Vm.Done(how, out)
    case Running(a, callers, stack, s) =>
      Before(k, a) && v.Active? && v.cur == ActivationOf(k, a) && SavedAll(k, callers, v.saved) && v.stack == stack && v.store == s
  }

  // ----- where the code is -----

  lemma CodeAhead(k: Link, a: I.Activation, v: Vm.State)
    requires Linked(k) && Fine(k, a) && a.pc < |k.blocks[a.block].instrs|
    requires v.Active? && v.cur == ActivationOf(k, a)
    ensures Ahead(v, Lower(k.blocks[a.block].instrs[a.pc]))
    ensures Offset(k, a.(pc := a.pc + 1)) == Offset(k, a) + |Lower(k.blocks[a.block].instrs[a.pc])|
  {
    hide Reach, Lower, LowerAll, SameAllocation, Tidy, Head, Tail, Ahead;
    var ts := k.blocks[a.block].instrs;
    LowerAllAt(ts, a.pc);
    assert LoadedAs(k, a.name);
    var code, before := Lower(ts[a.pc]), LowerAll(ts[..a.pc]);
    assert v.cur.body.blocks[v.cur.block] == CodeFor(k, a.name, a.block);
    Inside(v, Head(k, a.name, a.block), before, code, LowerAll(ts), Tail(k, a.name, a.block));
  }

  lemma Inside(v: Vm.State, head: seq<Instruction>, before: seq<Instruction>, code: seq<Instruction>, all: seq<Instruction>, tail: seq<Instruction>)
    requires v.Active? && v.cur.block in v.cur.body.blocks && v.cur.body.blocks[v.cur.block] == head + all + tail
    requires v.cur.pc == |head| + |before| && before + code <= all
    ensures Ahead(v, code)
  {
    forall i {:trigger code[i]} | 0 <= i < |code|
      ensures v.cur.body.blocks[v.cur.block][v.cur.pc + i] == code[i]
    {
      MiddleAt(head, all, tail, |before| + i);
      PrefixAt(before, code, all, i);
    }
  }

  lemma MiddleAt(head: seq<Instruction>, all: seq<Instruction>, tail: seq<Instruction>, k: nat)
    requires k < |all|
    ensures (head + all + tail)[|head| + k] == all[k]
  {
  }

  lemma PrefixAt(before: seq<Instruction>, code: seq<Instruction>, all: seq<Instruction>, i: nat)
    requires before + code <= all && i < |code|
    ensures all[|before| + i] == code[i]
  {
    assert all[|before| + i] == (before + code)[|before| + i];
  }

  lemma OpenEnd(b: BBlock)
    requires Shaped(b) && (|b.instrs| > 0 ==> !b.instrs[|b.instrs| - 1].Jump?)
    ensures Exits(b) == {}
  {
  }

  lemma BlockTidy(k: Link, l: string)
    requires Linked(k) && l in k.blocks
    ensures Shaped(k.blocks[l]) && AllClean(k.blocks[l].instrs) && AllRoots(k.roots)
  {
  }

  lemma LabelNoRoot(k: Link, a: I.Activation)
    requires Linked(k) && Fine(k, a) && a.pc < |k.blocks[a.block].instrs|
    ensures forall l :: l in Labels(k.blocks[a.block].instrs[a.pc]) ==> l !in k.roots
  {
    hide Reach, SameAllocation, LoadedAs, Shaped, Exits;
    BlockTidy(k, a.block);
    assert Clean(k.blocks[a.block].instrs[a.pc]);
  }

  /** A jump goes to the start of another block of the method, never to its root. */
  lemma JumpFine(k: Link, a: I.Activation, l: string)
    requires Linked(k) && Fine(k, a) && l in Reach(k.blocks, a.name) && l !in k.roots
    ensures var b := I.Goto(a, l);
            Fine(k, b) && ActivationOf(k, b) == Vm.Activation(MethodOf(k, a.name), l, 0, a.frame)
  {
    hide Exits, SameAllocation, Reach, LoadedAs, Tidy;
    ReachInside(k.blocks, a.name);
  }

  lemma NextFine(k: Link, a: I.Activation)
    requires Fine(k, a) && a.pc < |k.blocks[a.block].instrs|
    requires var t := k.blocks[a.block].instrs[a.pc]; !t.Jump? && !t.Return?
    ensures Fine(k, I.Next(a)) && Before(k, I.Next(a))
  {
    hide Reach;
  }

  // ----- one step -----

  function InstrAt(k: Link, a: I.Activation): Instr
    requires a.block in k.blocks && a.pc < |k.blocks[a.block].instrs|
  {
    k.blocks[a.block].instrs[a.pc]
  }

  /** The code has jumped to a block that was not emitted, where the VM has failed. */
  ghost predicate Lost(k: Link, d: I.Config, w: Vm.State) {
    && d.Running? && d.cur.name in k.roots && d.cur.block !in Reach(k.blocks, d.cur.name)
    && !AllLabelsReached(k.blocks, k.roots) && w == Vm.Done(I.Faulted(NoSuchBlock), I.Output(d))
  }

  /** What steps of the VM code must achieve for a step of the three-address code. */
  ghost predicate Follows(k: Link, c: I.Config, v: Vm.State, m: nat) {
    && m > 0
    && ((Stands(k, I.Step(k.ir, c), Vm.Run(k.vm, m, v)) && FineConfig(k, I.Step(k.ir, c))) || Lost(k, I.Step(k.ir, c), Vm.Run(k.vm, m, v)))
  }

  /** About to run an instruction of its block. */
  ghost predicate Poised(k: Link, c: I.Config, v: Vm.State) {
    && Linked(k) && FineConfig(k, c) && c.Running? && Stands(k, c, v)
    && c.cur.pc < |k.blocks[c.cur.block].instrs|
  }

  lemma StepIs(k: Link, c: I.Config, v: Vm.State)
    requires Poised(k, c, v)
    ensures I.Step(k.ir, c) == I.Execute(k.ir, InstrAt(k, c.cur), c)
    ensures Ahead(v, Lower(InstrAt(k, c.cur)))
    ensures Offset(k, I.Next(c.cur)) == Offset(k, c.cur) + |Lower(InstrAt(k, c.cur))|
  {
    hide I.Execute, Lower, Reach, SavedAll, SameAllocation, LoadedAs, Tidy;
    CodeAhead(k, c.cur, v);
  }

  lemma OnFine(k: Link, c: I.Config, v: Vm.State, fr: Frame, stack: seq<int>, s: Store, n: nat)
    requires Poised(k, c, v) && n == |Lower(InstrAt(k, c.cur))|
    requires var t := InstrAt(k, c.cur); !t.Jump? && !t.Return?
    ensures var d := I.Running(I.Next(c.cur).(frame := fr), c.callers, stack, s);
            FineConfig(k, d) && Stands(k, d, Ran(v, n, fr, stack, s))
  {
    hide Lower, LowerAll, Reach, Tidy, LoadedAs, SameAllocation;
    StepIs(k, c, v);
    NextFine(k, c.cur);
  }

  lemma DefineFollows(k: Link, c: I.Config, v: Vm.State)
    requires Poised(k, c, v) && Defines(InstrAt(k, c.cur))
    ensures Follows(k, c, v, |Lower(InstrAt(k, c.cur))|)
  {
    hide Poised, Ahead, Offset, I.Define, Vm.Run, Linked, FineConfig, SavedAll;
    StepIs(k, c, v);
    PoisedParts(k, c, v);
    var t, fr, s := InstrAt(k, c.cur), c.cur.frame, c.store;
    DefineRuns(k.vm, I.FieldTable(k.ir), t, v);
    var r := I.Define(I.FieldTable(k.ir), t, fr, s);
    if r.Ok? { OnFine(k, c, v, r.v.0, v.stack, r.v.1, |Lower(t)|); } else { FaultFine(k, c, r.f); }
  }

  lemma PoisedParts(k: Link, c: I.Config, v: Vm.State)
    requires Poised(k, c, v)
    ensures c.Running? && v.Active? && v.cur.frame == c.cur.frame && v.store == c.store && v.stack == c.stack
    ensures SavedAll(k, c.callers, v.saved) && SameAllocation(k.vm, I.FieldTable(k.ir)) && Linked(k) && FineConfig(k, c)
    ensures c.cur.block in k.blocks && c.cur.pc < |k.blocks[c.cur.block].instrs|
  {
    hide SavedAll, SameAllocation, Offset, LoadedAs, Tidy, Reach;
  }

  lemma ArrayCopyFollows(k: Link, c: I.Config, v: Vm.State)
    requires Poised(k, c, v) && InstrAt(k, c.cur).ArrayCopy?
    ensures Follows(k, c, v, 4)
  {
    hide Poised, Ahead, Offset, I.WriteArray, Vm.Run, Linked, FineConfig, SavedAll;
    StepIs(k, c, v);
    PoisedParts(k, c, v);
    var t := InstrAt(k, c.cur);
    ArrayCopyRuns(k.vm, t, v);
    var r := I.WriteArray(t, c.cur.frame, c.store);
    if r.Ok? { OnFine(k, c, v, c.cur.frame, v.stack, r.v, 4); } else { FaultFine(k, c, r.f); }
  }

  lemma FaultFine(k: Link, c: I.Config, f: Fault)
    ensures FineConfig(k, I.Fail(c, f)) && Stands(k, I.Fail(c, f), Vm.Done(I.Faulted(f), I.Output(c)))
  {
  }

  lemma PrintFollows(k: Link, c: I.Config, v: Vm.State)
    requires Poised(k, c, v) && InstrAt(k, c.cur).PrintTac?
    ensures Follows(k, c, v, 2)
  {
    hide Poised, Ahead, Offset, I.Read, Vm.Run, Linked, FineConfig, SavedAll;
    StepIs(k, c, v);
    PoisedParts(k, c, v);
    var t := InstrAt(k, c.cur);
    PrintRuns(k.vm, v, t.rhs);
    var r := I.Read(t.rhs, c.cur.frame, c.store);
    if r.Ok? { OnFine(k, c, v, c.cur.frame, v.stack, c.store.(out := c.store.out + [r.v]), 2); } else { FaultFine(k, c, r.f); }
  }

  lemma ParamFollows(k: Link, c: I.Config, v: Vm.State)
    requires Poised(k, c, v) && InstrAt(k, c.cur).Param?
    ensures Follows(k, c, v, 1)
  {
    hide Poised, Ahead, Offset, I.Read, Vm.Run, Linked, FineConfig, SavedAll, Vm.Step;
    StepIs(k, c, v);
    PoisedParts(k, c, v);
    var t := InstrAt(k, c.cur);
    PushStep(k.vm, v, t.rhs);
    RunTwo(k.vm, v);
    var r := I.Read(t.rhs, c.cur.frame, c.store);
    if r.Ok? { OnFine(k, c, v, c.cur.frame, v.stack + [r.v], c.store, 1); } else { FaultFine(k, c, r.f); }
  }

  lemma GotoStands(k: Link, c: I.Config, v: Vm.State, l: string)
    requires Poised(k, c, v) && l in Reach(k.blocks, c.cur.name) && l !in k.roots
    ensures var d := I.Running(I.Goto(c.cur, l), c.callers, c.stack, c.store);
            FineConfig(k, d) && Stands(k, d, Jumped(v, l, v.stack))
  {
    hide Reach, LowerAll, Linked;
    JumpFine(k, c.cur, l);
  }

  /** A label of a reached block that is not reached itself. */
  lemma LabelUnreached(k: Link, a: I.Activation, l: string)
    requires Linked(k) && Fine(k, a) && a.pc < |k.blocks[a.block].instrs| && l in Labels(k.blocks[a.block].instrs[a.pc])
    requires l !in Reach(k.blocks, a.name)
    ensures !AllLabelsReached(k.blocks, k.roots)
  {
    hide Reach, Linked, Labels;
    var ts := k.blocks[a.block].instrs;
    assert ts[a.pc] in ts && l in LabelsOf(ts);
    assert !LabelsReached(k.blocks, a.name);
  }

  lemma MethodKeys(k: Link, r: string)
    requires Linked(k) && r in k.roots
    ensures MethodOf(k, r).blocks.Keys == Reach(k.blocks, r)
  {
    hide Reach, Tidy, SameAllocation, CodeFor;
    assert LoadedAs(k, r);
  }

  lemma MissingBlock(k: Link, c: I.Config, v: Vm.State, l: string)
    requires Poised(k, c, v) && l !in Reach(k.blocks, c.cur.name) && v.Active?
    ensures Vm.Run(k.vm, 1, Jumped(v, l, v.stack)) == Vm.Done(I.Faulted(NoSuchBlock), I.Output(c))
    ensures c.cur.name in k.roots
  {
    hide Reach, LowerAll, Linked, Offset, SavedAll;
    MethodKeys(k, c.cur.name);
    RunTwo(k.vm, Jumped(v, l, v.stack));
  }

  /** After the m instructions of a jump to l: in the block if it was emitted, failing for want of it otherwise. */
  lemma GotoFollows(k: Link, c: I.Config, v: Vm.State, m: nat, l: string)
    requires Poised(k, c, v) && l in Labels(InstrAt(k, c.cur)) && m > 0
    requires I.Step(k.ir, c) == I.Running(I.Goto(c.cur, l), c.callers, c.stack, c.store)
    requires v.Active? && Vm.Run(k.vm, m, v) == Jumped(v, l, v.stack)
    ensures exists n :: Follows(k, c, v, n)
  {
    hide Reach, Linked, FineConfig, Stands, Poised, I.Step, Vm.Run, Labels, AllLabelsReached, Fine;
    PoisedFine(k, c, v);
    LabelNoRoot(k, c.cur);
    if l in Reach(k.blocks, c.cur.name) {
      GotoStands(k, c, v, l);
      assert Follows(k, c, v, m);
    } else {
      LabelUnreached(k, c.cur, l);
      MissingBlock(k, c, v, l);
      Vm.RunAdd(k.vm, m, 1, v);
      assert Follows(k, c, v, m + 1);
    }
  }

  lemma PoisedFine(k: Link, c: I.Config, v: Vm.State)
    requires Poised(k, c, v)
    ensures Linked(k) && c.Running? && Fine(k, c.cur) && c.cur.pc < |k.blocks[c.cur.block].instrs|
  {
    hide Fine, Linked, Stands;
  }

  lemma JumpFollows(k: Link, c: I.Config, v: Vm.State)
    requires Poised(k, c, v) && InstrAt(k, c.cur).Jump?
    ensures exists m :: Follows(k, c, v, m)
  {
    hide Poised, Ahead, Offset, Vm.Run, Linked, FineConfig, SavedAll, Exits, Follows;
    StepIs(k, c, v);
    PoisedParts(k, c, v);
    var l := InstrAt(k, c.cur).target;
    JumpRuns(k.vm, v, l);
    GotoFollows(k, c, v, 1, l);
  }

  lemma CondJumpFollows(k: Link, c: I.Config, v: Vm.State)
    requires Poised(k, c, v) && InstrAt(k, c.cur).CondJump?
    ensures exists m :: Follows(k, c, v, m)
  {
    hide Poised, Ahead, Offset, Vm.Run, Linked, FineConfig, SavedAll, Exits, I.Read;
    StepIs(k, c, v);
    PoisedParts(k, c, v);
    var t := InstrAt(k, c.cur);
    CondJumpRuns(k.vm, v, t.target, t.cond);
    var r := I.Read(t.cond, c.cur.frame, c.store);
    if r.Err? {
      FaultFine(k, c, r.f);
      assert Follows(k, c, v, 2);
    } else if r.v == 0 {
      GotoFollows(k, c, v, 2, t.target);
    } else {
      OnFine(k, c, v, c.cur.frame, v.stack, c.store, 2);
      assert Follows(k, c, v, 2);
    }
  }

  // ----- calls and returns -----

  lemma RootStart(k: Link, r: string, fr: Frame)
    requires Linked(k) && r in k.roots
    ensures var a := I.Activation(r, r, 0, fr);
            Fine(k, a) && Before(k, a) && Offset(k, a) == |Prologue(r == k.ir.main, SignatureOf(k, r).params)|
  {
    hide Reach, SameAllocation, Exits, LoadedAs;
    SoundClosed(k.blocks, k.roots, k.owner);
    ReachRoot(k.blocks, r);
  }

  /** At the root of a method the whole prologue is ahead, in a fresh frame. */
  lemma RootAhead(k: Link, r: string, v: Vm.State)
    requires Linked(k) && r in k.ir.sigs && v.Active? && v.cur == Vm.Activate(MethodOf(k, r), r)
    ensures Ahead(v, Prologue(false, SignatureOf(k, r).params)) && v.cur.frame == FreshFrame(SignatureOf(k, r))
    ensures r in k.roots && r in k.vm.methods && MethodOf(k, r) == k.vm.methods[r] && SignatureOf(k, r) == k.ir.sigs[r] && r != k.ir.main
  {
    hide Reach, SameAllocation, Exits, Tidy, LowerAll, Tail, Prologue, Ahead;
    assert r in k.roots;
    assert LoadedAs(k, r);
    SoundReach(k, r);
    var head := Prologue(false, SignatureOf(k, r).params);
    assert v.cur.body.blocks[r] == head + LowerAll(k.blocks[r].instrs) + Tail(k, r, r);
    assert [] + head == head;
    Inside(v, [], [], head, head + LowerAll(k.blocks[r].instrs), Tail(k, r, r));
  }

  lemma SoundReach(k: Link, r: string)
    requires Linked(k) && r in k.roots
    ensures r in k.blocks && r in Reach(k.blocks, r)
  {
    hide Reach, SameAllocation, Exits, LoadedAs;
    SoundClosed(k.blocks, k.roots, k.owner);
    ReachRoot(k.blocks, r);
  }

  lemma CallerFine(k: Link, c: I.Config, v: Vm.State)
    requires Poised(k, c, v) && InstrAt(k, c.cur).Invoke?
    ensures var caller := I.Caller(I.Next(c.cur), InstrAt(k, c.cur).result);
            && FineCaller(k, caller)
            && SavedAll(k, c.callers + [caller], v.saved + [v.cur.(pc := v.cur.pc + 2)])
  {
    hide LowerAll, Reach, Tidy, LoadedAs, SameAllocation;
    StepIs(k, c, v);
    NextFine(k, c.cur);
    assert |Lower(InstrAt(k, c.cur))| == 3;
  }

  /** The configuration in which a callee starts. */
  lemma EnteredFine(k: Link, c: I.Config, v: Vm.State, fr: Frame, rest: seq<int>, s: Store)
    requires Poised(k, c, v) && InstrAt(k, c.cur).Invoke? && InstrAt(k, c.cur).target in k.ir.sigs
    ensures var t := InstrAt(k, c.cur);
            var d := I.Running(I.Activation(t.target, t.target, 0, fr), c.callers + [I.Caller(I.Next(c.cur), t.result)], rest, s);
            var m := MethodOf(k, t.target);
            var n := |Prologue(false, SignatureOf(k, t.target).params)|;
            FineConfig(k, d) && Stands(k, d, Vm.Active(Vm.Activation(m, t.target, n, fr), v.saved + [v.cur.(pc := v.cur.pc + 2)], rest, s))
  {
    hide Lower, Reach, Tidy, LoadedAs, SameAllocation, Fine, FineCaller, SavedAll, Prologue, Offset;
    var t := InstrAt(k, c.cur);
    CallerFine(k, c, v);
    assert t.target in k.roots;
    RootStart(k, t.target, fr);
    NextName(c.cur);
  }

  lemma NextName(a: I.Activation)
    ensures I.Next(a).name == a.name
  {
  }

  lemma InvokeFollows(k: Link, c: I.Config, v: Vm.State)
    requires Poised(k, c, v) && InstrAt(k, c.cur).Invoke?
    ensures exists m :: Follows(k, c, v, m)
  {
    hide Poised, Ahead, Offset, Vm.Run, Linked, FineConfig, SavedAll, I.Read, Machine.Enter, Prologue;
    StepIs(k, c, v);
    PoisedParts(k, c, v);
    var t := InstrAt(k, c.cur);
    CallRuns(k.vm, v, t);
    var r := I.Read(t.receiver, c.cur.frame, c.store);
    SameMethods(k);
    if r.Err? {
      FaultFine(k, c, r.f);
      assert Follows(k, c, v, 2);
    } else if t.target !in k.ir.sigs {
      FaultFine(k, c, NoSuchMethod);
      assert Follows(k, c, v, 2);
    } else {
      EnterFollows(k, c, v, r.v);
    }
  }

  lemma SameMethods(k: Link)
    requires Linked(k)
    ensures k.vm.methods.Keys == k.ir.sigs.Keys
  {
  }

  lemma EnterFollows(k: Link, c: I.Config, v: Vm.State, self: int)
    requires Poised(k, c, v) && InstrAt(k, c.cur).Invoke? && InstrAt(k, c.cur).target in k.ir.sigs
    requires v.Active? && I.Read(InstrAt(k, c.cur).receiver, v.cur.frame, v.store) == Ok(self)
    requires Vm.Run(k.vm, 2, v) == Called(k.vm, v, InstrAt(k, c.cur), Ok(self))
    ensures exists m :: Follows(k, c, v, m)
  {
    hide Poised, Ahead, Offset, Vm.Run, Linked, FineConfig, SavedAll, I.Read, Machine.Enter, Prologue, FreshFrame, Vm.Activate;
    StepIs(k, c, v);
    PoisedParts(k, c, v);
    SameMethods(k);
    var t := InstrAt(k, c.cur);
    var sig, n := SignatureOf(k, t.target), 1 + |SignatureOf(k, t.target).params|;
    var v1 := Vm.Run(k.vm, 2, v);
    EnteredBody(k, t.target);
    RootAhead(k, t.target, v1);
    PrologueRuns(k.vm, sig, v1, self, v.stack);
    PrologueLength(sig);
    Vm.RunAdd(k.vm, 2, n, v);
    var r := Machine.Enter(sig, self, v.stack, v.store);
    if r.Ok? {
      EnteredFine(k, c, v, r.v.0, r.v.1, r.v.2);
      ActivateParts(MethodOf(k, t.target), t.target);
    } else {
      FaultFine(k, c, r.f);
    }
    assert Follows(k, c, v, 2 + n);
  }

  lemma EnteredBody(k: Link, r: string)
    requires Linked(k) && r in k.ir.sigs
    ensures r in k.vm.methods && MethodOf(k, r) == k.vm.methods[r]
  {
  }

  lemma PrologueLength(sig: Signature)
    ensures |Prologue(false, sig.params)| == 1 + |sig.params|
  {
  }

  lemma ActivateParts(m: Vm.Loaded, l: string)
    ensures Vm.Activate(m, l).body == m && Vm.Activate(m, l).block == l && Vm.Activate(m, l).pc == 0
  {
  }

  /** saved is the caller, in front of the STORE of its result. */
  ghost predicate Resumes(k: Link, caller: I.Caller, saved: Vm.Activation) {
    && Before(k, caller.act)
    && saved == SavedOf(k, caller.act) && saved.pc + 1 == Offset(k, caller.act)
    && forall w: Vm.State :: w.Active? && w.cur == saved ==> Ahead(w, [STORE(caller.result)])
  }

  lemma ResumeAhead(k: Link, callers: seq<I.Caller>, saved: seq<Vm.Activation>)
    requires Linked(k) && SavedAll(k, callers, saved) && callers != [] && FineCaller(k, callers[|callers| - 1])
    ensures |saved| == |callers| && Resumes(k, callers[|callers| - 1], saved[|callers| - 1])
  {
    hide LowerAll, Reach, Linked, Ahead, Offset;
    var n := |callers| - 1;
    var a := callers[n].act;
    forall w: Vm.State | w.Active? && w.cur == saved[n]
      ensures w.cur.pc + 1 == Offset(k, a) && Ahead(w, [STORE(callers[n].result)])
    {
      CallerAhead(k, a, w);
    }
    assert Vm.Active(saved[n], [], [], Store([], [], [])).cur == saved[n];
  }

  lemma CallerAhead(k: Link, a: I.Activation, w: Vm.State)
    requires Linked(k) && Fine(k, a) && a.pc > 0 && InstrAt(k, a.(pc := a.pc - 1)).Invoke?
    requires w.Active? && w.cur == SavedOf(k, a)
    ensures w.cur.pc + 1 == Offset(k, a) && Ahead(w, [STORE(InstrAt(k, a.(pc := a.pc - 1)).result)])
  {
    hide Lower, LowerAll, Reach, Tidy, LoadedAs, SameAllocation, Head, Tail;
    var ts := k.blocks[a.block].instrs;
    LowerAllAt(ts, a.pc - 1);
    assert LoadedAs(k, a.name);
    var t := ts[a.pc - 1];
    InvokeLength(t);
    var before := LowerAll(ts[..a.pc - 1]) + Lower(t)[..2];
    assert before + [STORE(t.result)] == LowerAll(ts[..a.pc]);
    LoadedBody(k, a);
    Inside(w, Head(k, a.name, a.block), before, [STORE(t.result)], LowerAll(ts), Tail(k, a.name, a.block));
  }

  lemma InvokeLength(t: Instr)
    requires t.Invoke?
    ensures |Lower(t)| == 3 && Lower(t) == Lower(t)[..2] + [STORE(t.result)]
  {
  }

  lemma LoadedBody(k: Link, a: I.Activation)
    requires Linked(k) && Fine(k, a)
    ensures a.block in MethodOf(k, a.name).blocks && MethodOf(k, a.name).blocks[a.block] == CodeFor(k, a.name, a.block)
  {
    hide Reach, Tidy, SameAllocation, Lower, LowerAll, Head, Tail;
    assert LoadedAs(k, a.name);
  }

  lemma ReturnFollows(k: Link, c: I.Config, v: Vm.State)
    requires Poised(k, c, v) && InstrAt(k, c.cur).Return?
    ensures exists m :: Follows(k, c, v, m)
  {
    hide Poised, Ahead, Offset, Vm.Run, Linked, FineConfig, SavedAll, I.Read;
    StepIs(k, c, v);
    PoisedParts(k, c, v);
    var t := InstrAt(k, c.cur);
    ReturnRuns(k.vm, v, t.rhs);
    SavedLength(k, c, v);
    var r := I.Read(t.rhs, c.cur.frame, c.store);
    if r.Err? {
      FaultFine(k, c, r.f);
      assert Follows(k, c, v, 2);
    } else if c.callers == [] {
      FaultFine(k, c, EmptyActivations);
      assert Follows(k, c, v, 2);
    } else {
      LeaveFollows(k, c, v, r.v);
    }
  }

  lemma SavedLength(k: Link, c: I.Config, v: Vm.State)
    requires c.Running? && v.Active? && SavedAll(k, c.callers, v.saved)
    ensures |v.saved| == |c.callers|
  {
  }

  lemma LeaveFollows(k: Link, c: I.Config, v: Vm.State, x: int)
    requires Poised(k, c, v) && InstrAt(k, c.cur).Return? && c.callers != []
    requires v.Active? && |v.saved| == |c.callers| && I.Read(InstrAt(k, c.cur).rhs, c.cur.frame, c.store) == Ok(x)
    requires Vm.Run(k.vm, 2, v) == Returned(v, Ok(x))
    ensures exists m :: Follows(k, c, v, m)
  {
    hide Poised, Ahead, Offset, Vm.Run, Linked, FineConfig, SavedAll, I.Read, Vm.Step, FineCaller, LowerAll, SetVar, GetVar, Fine;
    StepIs(k, c, v);
    PoisedParts(k, c, v);
    var caller := c.callers[|c.callers| - 1];
    LastCallerFine(k, c);
    ResumeAhead(k, c.callers, v.saved);
    var v1 := Vm.Run(k.vm, 2, v);
    StoreStep(k.vm, v1, caller.result, v.stack, x);
    Vm.RunAdd(k.vm, 2, 1, v);
    RunTwo(k.vm, v1);
    var r := SetVar(caller.result, x, caller.act.frame, c.store);
    if r.Ok? { LeftFine(k, c, v, r.v.0, r.v.1); } else { FaultFine(k, c, r.f); }
    assert Follows(k, c, v, 3);
  }

  lemma LastCallerFine(k: Link, c: I.Config)
    requires FineConfig(k, c) && c.Running? && c.callers != []
    ensures FineCaller(k, c.callers[|c.callers| - 1])
  {
    hide FineCaller;
  }

  lemma LeftFine(k: Link, c: I.Config, v: Vm.State, fr: Frame, s: Store)
    requires FineConfig(k, c) && c.Running? && v.Active? && SavedAll(k, c.callers, v.saved) && c.callers != []
    requires Resumes(k, c.callers[|c.callers| - 1], v.saved[|c.callers| - 1])
    ensures var n := |c.callers| - 1;
            var d := I.Running(c.callers[n].act.(frame := fr), c.callers[..n], c.stack, s);
            FineConfig(k, d) && Stands(k, d, Vm.Active(v.saved[n].(pc := v.saved[n].pc + 1, frame := fr), v.saved[..n], c.stack, s))
  {
    hide LowerAll, Reach, Lower;
    var n := |c.callers| - 1;
    LastCallerFine(k, c);
  }

  // ----- the end of a block -----

  lemma EndFollows(k: Link, c: I.Config, v: Vm.State)
    requires Linked(k) && FineConfig(k, c) && c.Running? && Stands(k, c, v) && c.cur.pc == |k.blocks[c.cur.block].instrs|
    ensures Follows(k, c, v, 1)
  {
    hide LowerAll, Reach, Shaped, LoadedAs, SameAllocation, Exits, Tidy, Prologue, Ahead, AllLabelsReached;
    var a := c.cur;
    var b := k.blocks[a.block];
    assert b.instrs[..a.pc] == b.instrs;
    BlockTidy(k, a.block);
    OpenEnd(b);
    LoadedBody(k, a);
    RunTwo(k.vm, v);
    if c.callers == [] {
      assert Tail(k, a.name, a.block) == [STOP];
      Inside(v, Head(k, a.name, a.block), LowerAll(b.instrs), [STOP], LowerAll(b.instrs) + [STOP], []);
      NextInstruction(v, STOP);
    } else {
      assert Tail(k, a.name, a.block) == [];
    }
  }

  /** Every step of the three-address code is matched by at least one step of the VM. */
  lemma StepFollows(k: Link, c: I.Config, v: Vm.State) returns (m: nat)
    requires Linked(k) && FineConfig(k, c) && c.Running? && Stands(k, c, v)
    ensures Follows(k, c, v, m)
  {
    hide Linked, FineConfig, Poised, Follows, SavedAll, Offset, Lower, InstrAt;
    PlacedIn(k, c, v);
    if c.cur.pc == |k.blocks[c.cur.block].instrs| {
      EndFollows(k, c, v);
      m := 1;
    } else {
      assert Poised(k, c, v) by { IsPoised(k, c, v); }
      var t := InstrAt(k, c.cur);
      match t
      case Jump(_) => JumpFollows(k, c, v); m :| Follows(k, c, v, m);
      case CondJump(_, _) => CondJumpFollows(k, c, v); m :| Follows(k, c, v, m);
      case Param(_) => ParamFollows(k, c, v); m := 1;
      case PrintTac(_) => PrintFollows(k, c, v); m := 2;
      case ArrayCopy(_, _, _) => ArrayCopyFollows(k, c, v); m := 4;
      case Invoke(_, _, _, _) => InvokeFollows(k, c, v); m :| Follows(k, c, v, m);
      case Return(_) => ReturnFollows(k, c, v); m :| Follows(k, c, v, m);
      case _ => DefineFollows(k, c, v); m := |Lower(t)|;
    }
  }

  lemma PlacedIn(k: Link, c: I.Config, v: Vm.State)
    requires Linked(k) && FineConfig(k, c) && c.Running? && Stands(k, c, v)
    ensures c.cur.block in k.blocks && c.cur.pc <= |k.blocks[c.cur.block].instrs|
  {
    hide Linked, FineConfig, SavedAll, Offset;
  }

  lemma IsPoised(k: Link, c: I.Config, v: Vm.State)
    requires Linked(k) && FineConfig(k, c) && c.Running? && Stands(k, c, v)
    requires c.cur.block in k.blocks && c.cur.pc < |k.blocks[c.cur.block].instrs|
    ensures Poised(k, c, v)
  {
    hide Linked, FineConfig, SavedAll, Offset;
  }

  // ----- whole runs -----

  /** After n steps of the three-address code the VM stands for the configuration reached, or it has been lost on the
      way. */
  ghost predicate Reaches(k: Link, n: nat, c: I.Config, w: Vm.State) {
    || (FineConfig(k, I.Run(k.ir, n, c)) && Stands(k, I.Run(k.ir, n, c), w))
    || exists j: nat :: j <= n && Lost(k, I.Run(k.ir, j, c), w)
  }

  lemma ReachesOn(k: Link, n: nat, c: I.Config, w: Vm.State)
    requires n > 0 && Reaches(k, n - 1, I.Step(k.ir, c), w)
    ensures Reaches(k, n, c, w)
  {
    hide FineConfig, Stands, Lost, I.Step;
    if j: nat :| j <= n - 1 && Lost(k, I.Run(k.ir, j, I.Step(k.ir, c)), w) {
      assert I.Run(k.ir, j + 1, c) == I.Run(k.ir, j, I.Step(k.ir, c));
      assert Lost(k, I.Run(k.ir, j + 1, c), w);
    }
  }

  lemma LostNow(k: Link, n: nat, c: I.Config, w: Vm.State)
    requires n > 0 && Lost(k, I.Step(k.ir, c), w)
    ensures Reaches(k, n, c, w)
  {
    hide FineConfig, Stands, Lost, I.Step;
    assert I.Run(k.ir, 1, c) == I.Run(k.ir, 0, I.Step(k.ir, c));
    assert Lost(k, I.Run(k.ir, 1, c), w);
  }

  /** Lowering simulates: after any number n of steps of the three-address code the VM, after at least as
      many, is in the state that stands for the configuration reached, unless the code has jumped to a block that was
      not emitted. */
  lemma {:induction false} LoweringSimulates(k: Link, n: nat, c: I.Config, v: Vm.State) returns (m: nat)
    requires Linked(k) && FineConfig(k, c) && Stands(k, c, v)
    ensures Reaches(k, n, c, Vm.Run(k.vm, m, v))
    ensures n <= m || I.Run(k.ir, n, c).Halted? || Vm.Run(k.vm, m, v).Done?
  {
    hide Linked, FineConfig, Stands, I.Step, Vm.Step;
    if n == 0 {
      m := 0;
    } else if c.Halted? {
      m := 0;
      I.HaltedStays(k.ir, n, c);
    } else {
      var m0 := StepFollows(k, c, v);
      if Lost(k, I.Step(k.ir, c), Vm.Run(k.vm, m0, v)) {
        LostNow(k, n, c, Vm.Run(k.vm, m0, v));
        m := m0;
      } else {
        hide Reaches, Lost;
        var m1 := LoweringSimulates(k, n - 1, I.Step(k.ir, c), Vm.Run(k.vm, m0, v));
        Vm.RunAdd(k.vm, m0, m1, v);
        ReachesOn(k, n, c, Vm.Run(k.vm, m0 + m1, v));
        m := m0 + m1;
      }
    }
  }

  lemma StartStands(k: Link)
    requires Linked(k)
    ensures FineConfig(k, I.Start(k.ir)) && Stands(k, I.Start(k.ir), Vm.Start(k.vm))
  {
    hide Reach, Tidy, SameAllocation, LowerAll;
    assert k.ir.main in k.roots;
    assert LoadedAs(k, k.ir.main);
    RootStart(k, k.ir.main, FreshFrame(k.ir.mainSig));
  }
}

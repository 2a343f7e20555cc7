/** What the VM does with the code of one three-address instruction. */
module LoweringSteps {
  import opened Ast
  import opened Tac
  import opened Machine
  import opened Bytecode
  import I = IrMachine
  import Vm

  /** The next instructions of the current block. */
  ghost predicate Ahead(v: Vm.State, code: seq<Instruction>) {
    && v.Active? && v.cur.block in v.cur.body.blocks
    && var all := v.cur.body.blocks[v.cur.block];
       v.cur.pc + |code| <= |all| && forall i {:trigger code[i]} :: 0 <= i < |code| ==> all[v.cur.pc + i] == code[i]
  }

  /** v after n instructions, with a new frame, stack and store. */
  function Ran(v: Vm.State, n: nat, fr: Frame, stack: seq<int>, s: Store): Vm.State
    requires v.Active?
  {
    Vm.Active(v.cur.(pc := v.cur.pc + n, frame := fr), v.saved, stack, s)
  }

  /** v after n instructions that leave one more value on the stack, or its failure. */
  function Gave(v: Vm.State, n: nat, r: Res<(int, Store)>): Vm.State
    requires v.Active?
  {
    match r
    case Err(f) => Vm.Fail(v, f)
    case Ok((x, s)) => Ran(v, n, v.cur.frame, v.stack + [x], s)
  }

  /** v after n instructions that store into a variable, or its failure. */
  function Stored(v: Vm.State, n: nat, stack: seq<int>, r: Res<(Frame, Store)>): Vm.State
    requires v.Active?
  {
    match r
    case Err(f) => Vm.Fail(v, f)
    case Ok((fr, s)) => Ran(v, n, fr, stack, s)
  }

  /** v after n instructions that change the heap, or its failure. */
  function Wrote(v: Vm.State, n: nat, stack: seq<int>, r: Res<Store>): Vm.State
    requires v.Active?
  {
    match r
    case Err(f) => Vm.Fail(v, f)
    case Ok(s) => Ran(v, n, v.cur.frame, stack, s)
  }

  /** v after n instructions that bind parameters, or its failure. */
  function Bound(v: Vm.State, n: nat, r: Res<(Frame, seq<int>, Store)>): Vm.State
    requires v.Active?
  {
    match r
    case Err(f) => Vm.Fail(v, f)
    case Ok((fr, rest, s)) => Ran(v, n, fr, rest, s)
  }

  function Beside(r: Res<int>, s: Store): Res<(int, Store)> {
    match r
    case Err(f) => Err(f)
    case Ok(n) => Ok((n, s))
  }

  lemma AheadOf(v: Vm.State, code: seq<Instruction>, n: nat, fr: Frame, stack: seq<int>, s: Store)
    requires v.Active? && Ahead(v, code) && n <= |code|
    ensures Ahead(Ran(v, n, fr, stack, s), code[n..])
  {
  }

  lemma RunTwo(p: Vm.Program, v: Vm.State)
    ensures Vm.Run(p, 1, v) == Vm.Step(p, v) && Vm.Run(p, 2, v) == Vm.Step(p, Vm.Step(p, v))
  {
    hide Vm.Step;
    assert Vm.Run(p, 1, Vm.Step(p, v)) == Vm.Run(p, 0, Vm.Step(p, Vm.Step(p, v)));
  }

  lemma RunThree(p: Vm.Program, v: Vm.State)
    ensures Vm.Run(p, 3, v) == Vm.Step(p, Vm.Step(p, Vm.Step(p, v)))
    ensures Vm.Run(p, 4, v) == Vm.Step(p, Vm.Step(p, Vm.Step(p, Vm.Step(p, v))))
  {
    hide Vm.Step;
    RunTwo(p, Vm.Step(p, v));
    RunTwo(p, Vm.Step(p, Vm.Step(p, v)));
  }

  lemma PushStep(p: Vm.Program, v: Vm.State, o: Operand)
    requires v.Active? && Ahead(v, [Push(o)])
    ensures Vm.Step(p, v) == Gave(v, 1, Beside(I.Read(o, v.cur.frame, v.store), v.store))
  {
    hide GetVar;
    NextInstruction(v, Push(o));
    assert v.stack[..|v.stack| - 0] == v.stack;
  }

  lemma StoreStep(p: Vm.Program, v: Vm.State, x: string, below: seq<int>, n: int)
    requires v.Active? && Ahead(v, [STORE(x)]) && v.stack == below + [n]
    ensures Vm.Step(p, v) == Stored(v, 1, below, SetVar(x, n, v.cur.frame, v.store))
  {
    hide SetVar;
    NextInstruction(v, STORE(x));
    assert v.stack[..|v.stack| - 1] == below;
  }

  lemma NextInstruction(v: Vm.State, i: Instruction)
    requires v.Active? && Ahead(v, [i])
    ensures v.cur.pc < |v.cur.body.blocks[v.cur.block]| && v.cur.body.blocks[v.cur.block][v.cur.pc] == i
  {
    assert [i][0] == i;
  }

  /** An instruction that pops y, then x, and pushes a result. */
  lemma TwoOperandStep(p: Vm.Program, v: Vm.State, i: Instruction, below: seq<int>, x: int, y: int)
    requires v.Active? && Ahead(v, [i]) && v.stack == below + [x, y]
    requires i.ARRAY_LOAD? || exists op :: i == Operator(op)
    ensures var r := if i.ARRAY_LOAD? then LoadElement(x, y, v.store) else Vm.Binary(i, y, x);
            Vm.Step(p, v) == Gave(v.(stack := below), 1, Beside(r, v.store))
  {
    hide LoadElement, Vm.Binary;
    NextInstruction(v, i);
    assert v.stack[..|v.stack| - 2] == below;
  }

  lemma OperatorIsApply(op: BinaryOp, x: int, y: int)
    ensures Vm.Binary(Operator(op), y, x) == Apply(op, x, y)
  {
    hide TruncDiv;
  }

  /** The non-commutative operators get their operands in source order. */
  lemma TwoOperandRuns(p: Vm.Program, ft: map<string, set<string>>, t: Instr, v: Vm.State)
    requires v.Active? && (t.Bin? || t.Access?) && Ahead(v, Lower(t))
    ensures Vm.Run(p, 3, v) == Gave(v, 3, I.Compute(ft, t, v.cur.frame, v.store))
  {
    hide Vm.Step, GetVar, Apply, LoadElement, Vm.Binary, Vm.Run, I.Read, Ahead;
    var l, r := t.lhs, t.rhs;
    var fr, s, code := v.cur.frame, v.store, Lower(t);
    var i := code[2];
    RunThree(p, v);
    AheadParts(v, code);
    PushStep(p, v, l);
    var x := I.Read(l, fr, s);
    if x.Ok? {
      var v1 := Ran(v, 1, fr, v.stack + [x.v], s);
      AheadOf(v, code, 1, fr, v.stack + [x.v], s);
      AheadParts(v1, code[1..]);
      PushStep(p, v1, r);
      var y := I.Read(r, fr, s);
      if y.Ok? {
        assert v.stack + [x.v] + [y.v] == v.stack + [x.v, y.v];
        var v2 := Ran(v, 2, fr, v.stack + [x.v, y.v], s);
        AheadOf(v, code, 2, fr, v.stack + [x.v, y.v], s);
        AheadParts(v2, code[2..]);
        TwoOperandStep(p, v2, i, v.stack, x.v, y.v);
        if t.Bin? { OperatorIsApply(t.op, x.v, y.v); }
      } else {
        DoneStep(p, Vm.Fail(v, y.f));
      }
    } else {
      DoneStep(p, Vm.Fail(v, x.f));
    }
  }

  lemma DoneStep(p: Vm.Program, v: Vm.State)
    requires v.Done?
    ensures Vm.Step(p, v) == v
  {
  }

  lemma AheadParts(v: Vm.State, code: seq<Instruction>)
    requires v.Active? && Ahead(v, code) && |code| > 0
    ensures Ahead(v, [code[0]])
  {
    assert [code[0]][0] == code[0];
  }

  function OneOperand(t: Instr): bool {
    t.NotTac? || t.Length? || t.NewArr?
  }

  lemma OneOperandStep(p: Vm.Program, ft: map<string, set<string>>, t: Instr, v: Vm.State, below: seq<int>, x: int)
    requires v.Active? && OneOperand(t) && Ahead(v, [Lower(t)[1]]) && v.stack == below + [x] && I.Read(t.rhs, v.cur.frame, v.store) == Ok(x)
    ensures Vm.Step(p, v) == Gave(v.(stack := below), 1, I.Compute(ft, t, v.cur.frame, v.store))
  {
    hide GetVar, I.Read;
    NextInstruction(v, Lower(t)[1]);
    assert v.stack[..|v.stack| - 1] == below;
  }

  lemma OneOperandRuns(p: Vm.Program, ft: map<string, set<string>>, t: Instr, v: Vm.State)
    requires v.Active? && OneOperand(t) && Ahead(v, Lower(t))
    ensures Vm.Run(p, 2, v) == Gave(v, 2, I.Compute(ft, t, v.cur.frame, v.store))
  {
    hide Vm.Step, GetVar, Vm.Run, I.Read, Ahead, AllocArray, ArrayAt;
    var fr, s, code := v.cur.frame, v.store, Lower(t);
    RunTwo(p, v);
    AheadParts(v, code);
    PushStep(p, v, t.rhs);
    var x := I.Read(t.rhs, fr, s);
    if x.Ok? {
      var v1 := Ran(v, 1, fr, v.stack + [x.v], s);
      AheadOf(v, code, 1, fr, v.stack + [x.v], s);
      AheadParts(v1, code[1..]);
      OneOperandStep(p, ft, t, v1, v.stack, x.v);
    } else {
      DoneStep(p, Vm.Fail(v, x.f));
    }
  }

  /** Everything but the final STORE of an instruction that defines a variable. */
  function FrontLength(t: Instr): nat
    requires Defines(t)
  {
    |Lower(t)| - 1
  }

  ghost predicate SameAllocation(p: Vm.Program, ft: map<string, set<string>>) {
    forall c, s :: Vm.Allocate(p, c, s) == AllocObject(ft, c, s)
  }

  lemma FrontRuns(p: Vm.Program, ft: map<string, set<string>>, t: Instr, v: Vm.State)
    requires v.Active? && Defines(t) && Ahead(v, Lower(t)) && SameAllocation(p, ft)
    ensures Vm.Run(p, FrontLength(t), v) == Gave(v, FrontLength(t), I.Compute(ft, t, v.cur.frame, v.store))
  {
    hide Ahead, Vm.Run, I.Compute, Vm.Step, Vm.Allocate, AllocObject;
    RunTwo(p, v);
    match t
    case Bin(_, _, _, _) => TwoOperandRuns(p, ft, t, v);
    case Access(_, _, _) => TwoOperandRuns(p, ft, t, v);
    case Copy(_, _) => CopyStep(p, ft, t, v);
    case New(_, _) => NewStep(p, ft, t, v);
    case _ => OneOperandRuns(p, ft, t, v);
  }

  lemma CopyStep(p: Vm.Program, ft: map<string, set<string>>, t: Instr, v: Vm.State)
    requires v.Active? && t.Copy? && Ahead(v, Lower(t))
    ensures Vm.Step(p, v) == Gave(v, 1, I.Compute(ft, t, v.cur.frame, v.store))
  {
    hide Ahead, I.Read, Vm.Step;
    AheadParts(v, Lower(t));
    PushStep(p, v, t.rhs);
  }

  lemma NewStep(p: Vm.Program, ft: map<string, set<string>>, t: Instr, v: Vm.State)
    requires v.Active? && t.New? && Ahead(v, Lower(t)) && SameAllocation(p, ft)
    ensures Vm.Step(p, v) == Gave(v, 1, I.Compute(ft, t, v.cur.frame, v.store))
  {
    hide Ahead, Vm.Allocate, AllocObject;
    AheadParts(v, Lower(t));
    NextInstruction(v, NEW(t.className));
    assert Vm.Allocate(p, t.className, v.store) == AllocObject(ft, t.className, v.store);
  }

  lemma ComputePrintsNothing(ft: map<string, set<string>>, t: Instr, fr: Frame, s: Store)
    requires Defines(t) && I.Compute(ft, t, fr, s).Ok?
    ensures I.Compute(ft, t, fr, s).v.1.out == s.out
  {
  }

  lemma SetVarPrintsNothing(x: string, n: int, fr: Frame, s: Store)
    requires SetVar(x, n, fr, s).Ok?
    ensures SetVar(x, n, fr, s).v.1.out == s.out
  {
  }

  lemma DefineRuns(p: Vm.Program, ft: map<string, set<string>>, t: Instr, v: Vm.State)
    requires v.Active? && Defines(t) && Ahead(v, Lower(t)) && SameAllocation(p, ft)
    ensures Vm.Run(p, |Lower(t)|, v) == Stored(v, |Lower(t)|, v.stack, I.Define(ft, t, v.cur.frame, v.store))
  {
    hide Ahead, Vm.Run, I.Compute, Vm.Step, SetVar, SameAllocation;
    var n := FrontLength(t);
    FrontRuns(p, ft, t, v);
    Vm.RunAdd(p, n, 1, v);
    RunTwo(p, Vm.Run(p, n, v));
    var r := I.Compute(ft, t, v.cur.frame, v.store);
    if r.Ok? {
      var (x, s) := r.v;
      var v1 := Ran(v, n, v.cur.frame, v.stack + [x], s);
      AheadOf(v, Lower(t), n, v.cur.frame, v.stack + [x], s);
      assert Lower(t)[n..] == [STORE(t.result)];
      StoreStep(p, v1, t.result, v.stack, x);
      ComputePrintsNothing(ft, t, v.cur.frame, v.store);
    } else {
      DoneStep(p, Vm.Fail(v, r.f));
    }
  }

  lemma ArrayStoreStep(p: Vm.Program, v: Vm.State, below: seq<int>, ref: int, i: int, n: int)
    requires v.Active? && Ahead(v, [ARRAY_STORE]) && v.stack == below + [ref, i, n]
    ensures Vm.Step(p, v) == Wrote(v, 1, below, StoreElement(ref, i, n, v.store))
  {
    hide StoreElement;
    NextInstruction(v, ARRAY_STORE);
    assert v.stack[..|v.stack| - 3] == below;
  }

  lemma ArrayCopyRuns(p: Vm.Program, t: Instr, v: Vm.State)
    requires v.Active? && t.ArrayCopy? && Ahead(v, Lower(t))
    ensures Vm.Run(p, 4, v) == Wrote(v, 4, v.stack, I.WriteArray(t, v.cur.frame, v.store))
  {
    hide Vm.Step, GetVar, Vm.Run, I.Read, Ahead, StoreElement;
    var fr, s, code := v.cur.frame, v.store, Lower(t);
    RunThree(p, v);
    AheadParts(v, code);
    var a := Name(t.arr);
    ReadName(t.arr, fr, s);
    PushStep(p, v, a);
    var x, y, z := I.Read(a, fr, s), I.Read(t.index, fr, s), I.Read(t.rhs, fr, s);
    if x.Ok? {
      var v1 := Ran(v, 1, fr, v.stack + [x.v], s);
      AheadOf(v, code, 1, fr, v.stack + [x.v], s);
      AheadParts(v1, code[1..]);
      PushStep(p, v1, t.index);
      if y.Ok? {
        var st2 := v.stack + [x.v] + [y.v];
        var v2 := Ran(v, 2, fr, st2, s);
        AheadOf(v, code, 2, fr, st2, s);
        AheadParts(v2, code[2..]);
        PushStep(p, v2, t.rhs);
        if z.Ok? {
          assert st2 + [z.v] == v.stack + [x.v, y.v, z.v];
          var v3 := Ran(v, 3, fr, v.stack + [x.v, y.v, z.v], s);
          AheadOf(v, code, 3, fr, v.stack + [x.v, y.v, z.v], s);
          AheadParts(v3, code[3..]);
          ArrayStoreStep(p, v3, v.stack, x.v, y.v, z.v);
        } else {
          DoneStep(p, Vm.Fail(v, z.f));
        }
      } else {
        DoneStep(p, Vm.Fail(v, y.f));
      }
    } else {
      DoneStep(p, Vm.Fail(v, x.f));
    }
  }

  lemma ReadName(x: string, fr: Frame, s: Store)
    ensures I.Read(Name(x), fr, s) == GetVar(x, fr, s)
  {
  }

  /** The state in which block l begins. */
  function Jumped(v: Vm.State, l: string, stack: seq<int>): Vm.State
    requires v.Active?
  {
    Vm.Active(v.cur.(block := l, pc := 0), v.saved, stack, v.store)
  }

  function Branched(v: Vm.State, l: string, r: Res<int>): Vm.State
    requires v.Active?
  {
    match r
    case Err(f) => Vm.Fail(v, f)
    case Ok(n) => if n == 0 then Jumped(v, l, v.stack) else Ran(v, 2, v.cur.frame, v.stack, v.store)
  }

  function Printed(v: Vm.State, r: Res<int>): Vm.State
    requires v.Active?
  {
    match r
    case Err(f) => Vm.Fail(v, f)
    case Ok(n) => Ran(v, 2, v.cur.frame, v.stack, v.store.(out := v.store.out + [n]))
  }

  function Called(p: Vm.Program, v: Vm.State, t: Instr, r: Res<int>): Vm.State
    requires v.Active? && t.Invoke?
  {
    match r
    case Err(f) => Vm.Fail(v, f)
    case Ok(self) =>
      if t.target !in p.methods then Vm.Fail(v, NoSuchMethod)
      else Vm.Active(Vm.Activate(p.methods[t.target], t.target), v.saved + [v.cur.(pc := v.cur.pc + 2)], v.stack + [self], v.store)
  }

  function Returned(v: Vm.State, r: Res<int>): Vm.State
    requires v.Active?
  {
    match r
    case Err(f) => Vm.Fail(v, f)
    case Ok(n) =>
      if v.saved == [] then Vm.Fail(v, EmptyActivations)
      else Vm.Active(v.saved[|v.saved| - 1], v.saved[..|v.saved| - 1], v.stack + [n], v.store)
  }

  lemma JumpRuns(p: Vm.Program, v: Vm.State, l: string)
    requires v.Active? && Ahead(v, Lower(Jump(l)))
    ensures Vm.Run(p, 1, v) == Jumped(v, l, v.stack)
  {
    RunTwo(p, v);
    NextInstruction(v, JMP(l));
  }

  lemma CondJumpRuns(p: Vm.Program, v: Vm.State, l: string, o: Operand)
    requires v.Active? && Ahead(v, Lower(CondJump(l, o)))
    ensures Vm.Run(p, 2, v) == Branched(v, l, I.Read(o, v.cur.frame, v.store))
  {
    hide Ahead, I.Read, Vm.Run;
    var fr, s, code := v.cur.frame, v.store, Lower(CondJump(l, o));
    RunTwo(p, v);
    AheadParts(v, code);
    PushStep(p, v, o);
    var x := I.Read(o, fr, s);
    if x.Ok? {
      var v1 := Ran(v, 1, fr, v.stack + [x.v], s);
      AheadOf(v, code, 1, fr, v.stack + [x.v], s);
      AheadParts(v1, code[1..]);
      NextInstruction(v1, CJMP(l));
      assert v1.stack[..|v1.stack| - 1] == v.stack;
    }
  }

  lemma PrintRuns(p: Vm.Program, v: Vm.State, o: Operand)
    requires v.Active? && Ahead(v, Lower(PrintTac(o)))
    ensures Vm.Run(p, 2, v) == Printed(v, I.Read(o, v.cur.frame, v.store))
  {
    hide Ahead, I.Read, Vm.Run;
    var fr, s, code := v.cur.frame, v.store, Lower(PrintTac(o));
    RunTwo(p, v);
    AheadParts(v, code);
    PushStep(p, v, o);
    var x := I.Read(o, fr, s);
    if x.Ok? {
      var v1 := Ran(v, 1, fr, v.stack + [x.v], s);
      AheadOf(v, code, 1, fr, v.stack + [x.v], s);
      AheadParts(v1, code[1..]);
      NextInstruction(v1, PRINT);
      assert v1.stack[..|v1.stack| - 1] == v.stack;
    }
  }

  // ----- calls -----

  /** The parameter prologue pops the arguments from the last to the first, as BindParams does. */
  lemma {:induction false} StoreParamsRuns(p: Vm.Program, params: seq<string>, v: Vm.State)
    requires v.Active? && Ahead(v, StoreAll(Reversed(params)))
    ensures Vm.Run(p, |params|, v) == Bound(v, |params|, BindParams(params, v.stack, v.cur.frame, v.store))
    decreases |params|
  {
    hide Ahead, Vm.Step, SetVar;
    if params != [] {
      var n, code := |params| - 1, StoreAll(Reversed(params));
      AheadParts(v, code);
      assert code[0] == STORE(params[n]);
      assert code[1..] == StoreAll(Reversed(params[..n]));
      if v.stack == [] {
        StoreEmpty(p, v, params[n]);
        Vm.DoneStays(p, n, Vm.Step(p, v));
      } else {
        var d := |v.stack| - 1;
        assert v.stack == v.stack[..d] + [v.stack[d]];
        StoreStep(p, v, params[n], v.stack[..d], v.stack[d]);
        var r := SetVar(params[n], v.stack[d], v.cur.frame, v.store);
        if r.Ok? {
          var (fr, s) := r.v;
          AheadOf(v, code, 1, fr, v.stack[..d], s);
          StoreParamsRuns(p, params[..n], Ran(v, 1, fr, v.stack[..d], s));
          SetVarPrintsNothing(params[n], v.stack[d], v.cur.frame, v.store);
        } else {
          Vm.DoneStays(p, n, Vm.Step(p, v));
        }
      }
    }
  }

  lemma StoreEmpty(p: Vm.Program, v: Vm.State, x: string)
    requires v.Active? && Ahead(v, [STORE(x)]) && v.stack == []
    ensures Vm.Step(p, v) == Vm.Fail(v, EmptyStack)
  {
    NextInstruction(v, STORE(x));
  }

  /** The prologue of a method, from its first instruction. */
  lemma PrologueRuns(p: Vm.Program, sig: Signature, v: Vm.State, self: int, below: seq<int>)
    requires v.Active? && Ahead(v, Prologue(false, sig.params)) && v.stack == below + [self] && v.cur.frame == FreshFrame(sig)
    ensures Vm.Run(p, 1 + |sig.params|, v) == Bound(v, 1 + |sig.params|, Machine.Enter(sig, self, below, v.store))
  {
    hide Ahead, Vm.Step, SetVar, FreshFrame, BindParams, Vm.Run;
    var code := Prologue(false, sig.params);
    assert code[1..] == StoreAll(Reversed(sig.params));
    Vm.RunAdd(p, 1, |sig.params|, v);
    RunTwo(p, v);
    AheadParts(v, code);
    StoreStep(p, v, "this", below, self);
    var r := SetVar("this", self, FreshFrame(sig), v.store);
    if r.Ok? {
      var (fr, s) := r.v;
      AheadOf(v, code, 1, fr, below, s);
      StoreParamsRuns(p, sig.params, Ran(v, 1, fr, below, s));
      SetVarPrintsNothing("this", self, FreshFrame(sig), v.store);
    } else {
      Vm.DoneStays(p, |sig.params|, Vm.Step(p, v));
    }
  }

  /** Receiver pushed, caller saved in front of its STORE, and the callee about to run its prologue. */
  lemma CallRuns(p: Vm.Program, v: Vm.State, t: Instr)
    requires v.Active? && t.Invoke? && Ahead(v, Lower(t))
    ensures Vm.Run(p, 2, v) == Called(p, v, t, I.Read(t.receiver, v.cur.frame, v.store))
  {
    hide Ahead, I.Read, Vm.Run;
    var fr, s, code := v.cur.frame, v.store, Lower(t);
    RunTwo(p, v);
    AheadParts(v, code);
    PushStep(p, v, t.receiver);
    var x := I.Read(t.receiver, fr, s);
    if x.Ok? {
      var v1 := Ran(v, 1, fr, v.stack + [x.v], s);
      AheadOf(v, code, 1, fr, v.stack + [x.v], s);
      AheadParts(v1, code[1..]);
      NextInstruction(v1, CALL(t.target));
    }
  }

  lemma ReturnRuns(p: Vm.Program, v: Vm.State, o: Operand)
    requires v.Active? && Ahead(v, Lower(Return(o)))
    ensures Vm.Run(p, 2, v) == Returned(v, I.Read(o, v.cur.frame, v.store))
  {
    hide Ahead, I.Read, Vm.Run;
    var fr, s, code := v.cur.frame, v.store, Lower(Return(o));
    RunTwo(p, v);
    AheadParts(v, code);
    PushStep(p, v, o);
    var x := I.Read(o, fr, s);
    if x.Ok? {
      var v1 := Ran(v, 1, fr, v.stack + [x.v], s);
      AheadOf(v, code, 1, fr, v.stack + [x.v], s);
      AheadParts(v1, code[1..]);
      NextInstruction(v1, RET);
    }
  }
}

/** The stack machine (src/vm/vm.cpp). */
module Vm {
  import opened Machine
  import opened Bytecode
  import IrMachine

  type Ending = IrMachine.Ending
  type Sight = IrMachine.Sight

  /** A method as it is loaded: names of locals and fields, and code by block name. */
  datatype Loaded = Loaded(locals: set<string>, fields: set<string>, blocks: map<string, seq<Instruction>>)

  datatype Program = Program(mainName: string, main: Loaded, methods: map<string, Loaded>)

  datatype Activation = Activation(body: Loaded, block: string, pc: nat, frame: Frame)

  datatype State =
    | Active(cur: Activation, saved: seq<Activation>, stack: seq<int>, store: Store)
    | Done(how: Ending, out: seq<int>)

  /** The field names registered for a class by main and the methods. */
  function ClassFieldNames(p: Program, className: string): set<string> {
    (if ClassOf(p.mainName) == className then p.main.fields else {})
    + (set m, f | m in p.methods && f in p.methods[m].fields && ClassOf(m) == className :: f)
  }

  function Allocate(p: Program, className: string, s: Store): (int, Store) {
    var o := Obj(className, map f | f in ClassFieldNames(p, className) && f != "this" :: 0);
    (|s.objects| + 1, s.(objects := s.objects + [o]))
  }

  function Activate(m: Loaded, name: string): Activation {
    Activation(m, name, 0, Frame(map x | x in m.locals :: 0, m.fields, 0))
  }

  predicate IsBinary(i: Instruction) {
    i.ADD? || i.SUB? || i.MUL? || i.DIV? || i.LT? || i.GT? || i.EQ? || i.AND? || i.OR?
  }

  /** The two-operand opcodes; x is popped first. */
  function Binary(i: Instruction, x: int, y: int): Res<int>
    requires IsBinary(i)
  {
    match i
    case ADD => Ok(x + y)
    case SUB => Ok(y - x)
    case MUL => Ok(x * y)
    case DIV => if x == 0 then Err(DivideByZero) else Ok(TruncDiv(y, x))
    case LT => Ok(if x > y then 1 else 0)
    case GT => Ok(if x < y then 1 else 0)
    case EQ => Ok(if x == y then 1 else 0)
    case AND => Ok(if x * y == 0 then 0 else 1)
    case OR => Ok(if x + y == 0 then 0 else 1)
  }

  function Fail(v: State, f: Fault): State {
    Done(IrMachine.Faulted(f), Output(v))
  }

  function Output(v: State): seq<int> {
    if v.Active? then v.store.out else v.out
  }

  /** The k-th value from the top of the stack, 0 being the top. */
  function Top(v: State, k: nat): int
    requires v.Active? && k < |v.stack|
  {
    v.stack[|v.stack| - 1 - k]
  }

  /** Replaces the top k values by n. */
  function Give(v: State, k: nat, n: Res<int>): State
    requires v.Active? && k <= |v.stack|
  {
    match n
    case Err(f) => Fail(v, f)
    case Ok(n) => v.(stack := v.stack[..|v.stack| - k] + [n])
  }

  /** How many values an instruction pops. */
  function Pops(i: Instruction): nat {
    match i
    case LOAD(_) => 0
    case CONST(_) => 0
    case JMP(_) => 0
    case CALL(_) => 0
    case RET => 0
    case STOP => 0
    case NEW(_) => 0
    case STORE(_) => 1
    case NOT => 1
    case CJMP(_) => 1
    case PRINT => 1
    case NEW_ARRAY => 1
    case ARRAY_LENGTH => 1
    case ARRAY_STORE => 3
    case _ => 2
  }

  /** One instruction, the program counter already behind it. */
  function Execute(p: Program, i: Instruction, v: State): State
    requires v.Active?
  {
    if |v.stack| < Pops(i) then Fail(v, EmptyStack)
    else
      match i
      case STOP => Done(IrMachine.Finished, v.store.out)
      case RET =>
        if v.saved == [] then Fail(v, EmptyActivations)
        else v.(cur := v.saved[|v.saved| - 1], saved := v.saved[..|v.saved| - 1])
      case CALL(m) =>
        if m !in p.methods then Fail(v, NoSuchMethod)
        else v.(cur := Activate(p.methods[m], m), saved := v.saved + [v.cur])
      case JMP(l) => v.(cur := v.cur.(block := l, pc := 0))
      case CJMP(l) =>
        var v1 := v.(stack := v.stack[..|v.stack| - 1]);
        if Top(v, 0) == 0 then v1.(cur := v.cur.(block := l, pc := 0)) else v1
      case PRINT =>
        v.(stack := v.stack[..|v.stack| - 1], store := v.store.(out := v.store.out + [Top(v, 0)]))
      case NEW(c) =>
        var (ref, s) := Allocate(p, c, v.store);
        v.(stack := v.stack + [ref], store := s)
      case NEW_ARRAY =>
        (match AllocArray(Top(v, 0), v.store)
         case Err(f) => Fail(v, f)
         case Ok((ref, s)) => v.(stack := v.stack[..|v.stack| - 1] + [ref], store := s))
      case ARRAY_LOAD => Give(v, 2, LoadElement(Top(v, 1), Top(v, 0), v.store))
      case ARRAY_STORE =>
        (match StoreElement(Top(v, 2), Top(v, 1), Top(v, 0), v.store)
         case Err(f) => Fail(v, f)
         case Ok(s) => v.(stack := v.stack[..|v.stack| - 3], store := s))
      case ARRAY_LENGTH =>
        (match ArrayAt(Top(v, 0), v.store)
         case Err(f) => Fail(v, f)
         case Ok(a) => v.(stack := v.stack[..|v.stack| - 1] + [|a|]))
      case NOT => Give(v, 1, Ok(if Top(v, 0) == 0 then 1 else 0))
      case CONST(n) => Give(v, 0, Ok(n))
      case LOAD(x) => Give(v, 0, GetVar(x, v.cur.frame, v.store))
      case STORE(x) =>
        (match SetVar(x, Top(v, 0), v.cur.frame, v.store)
         case Err(f) => Fail(v, f)
         case Ok((fr, s)) => v.(cur := v.cur.(frame := fr), stack := v.stack[..|v.stack| - 1], store := s))
      case _ => Give(v, 2, Binary(i, Top(v, 0), Top(v, 1)))
  }

  function Step(p: Program, v: State): State {
    if v.Done? then v
    else if v.cur.block !in v.cur.body.blocks then Fail(v, NoSuchBlock)
    else
      var code := v.cur.body.blocks[v.cur.block];
      if v.cur.pc >= |code| then Fail(v, PastEnd)
      else Execute(p, code[v.cur.pc], v.(cur := v.cur.(pc := v.cur.pc + 1)))
  }

  function Run(p: Program, n: nat, v: State): State {
    if n == 0 then v else Run(p, n - 1, Step(p, v))
  }

  function Start(p: Program): State {
    Active(Activate(p.main, p.mainName), [], [], Store([], [], []))
  }

  function Look(v: State): Sight {
    match v
    case Active(_, _, _, s) => IrMachine.Going(s.out)
    case Done(how, out) => IrMachine.Over(how, out)
  }

  ghost predicate Shows(p: Program, s: Sight) {
    exists n: nat :: Look(Run(p, n, Start(p))) == s
  }

  lemma {:induction false} RunAdd(p: Program, m: nat, n: nat, v: State)
    ensures Run(p, m + n, v) == Run(p, n, Run(p, m, v))
    decreases m
  {
    if m > 0 {
      RunAdd(p, m - 1, n, Step(p, v));
      assert Run(p, m + n, v) == Run(p, m - 1 + n, Step(p, v));
    }
  }

  lemma {:induction false} DoneStays(p: Program, n: nat, v: State)
    requires v.Done?
    ensures Run(p, n, v) == v
  {
    if n > 0 { DoneStays(p, n - 1, v); }
  }

  lemma {:induction false} OutputGrows(p: Program, n: nat, v: State)
    ensures Output(v) <= Output(Run(p, n, v))
  {
    hide Execute;
    if n > 0 {
      OutputGrows(p, n - 1, Step(p, v));
      if v.Active? { forall i, w: State | w.Active? && w.store == v.store ensures Output(v) <= Output(Execute(p, i, w)) { ExecuteGrows(p, i, w); } }
    }
  }

  lemma ExecuteGrows(p: Program, i: Instruction, v: State)
    requires v.Active?
    ensures Output(v) <= Output(Execute(p, i, v))
  {
  }

  // ----- faults of the machine itself -----

  /** The operands that an instruction takes from the data stack. */
  predicate HasOperands(i: Instruction, stack: seq<int>) {
    && (i.STORE? || i.NOT? || i.CJMP? || i.PRINT? || i.NEW_ARRAY? || i.ARRAY_LENGTH? || IsBinary(i) || i.ARRAY_LOAD? || i.ARRAY_STORE? ==> |stack| >= 1)
    && (IsBinary(i) || i.ARRAY_LOAD? || i.ARRAY_STORE? ==> |stack| >= 2)
    && (i.ARRAY_STORE? ==> |stack| >= 3)
  }

  /** A round fails with a fault of the machine exactly when there is no block of the name, no code left in it, an operand
      missing, no caller to return to, or no method of the name; which of these comes first decides the fault. Nothing is
      printed then. */
  lemma StuckExactly(p: Program, v: State)
    requires v.Active?
    ensures var w, blocks, a := Step(p, v), v.cur.body.blocks, v.cur;
            if a.block !in blocks then w == Done(IrMachine.Faulted(NoSuchBlock), v.store.out)
            else if a.pc >= |blocks[a.block]| then w == Done(IrMachine.Faulted(PastEnd), v.store.out)
            else
              var i := blocks[a.block][a.pc];
              if !HasOperands(i, v.stack) then w == Done(IrMachine.Faulted(EmptyStack), v.store.out)
              else if i.RET? && v.saved == [] then w == Done(IrMachine.Faulted(EmptyActivations), v.store.out)
              else if i.CALL? && i.name !in p.methods then w == Done(IrMachine.Faulted(NoSuchMethod), v.store.out)
              else w.Done? && w.how.Faulted? ==> !Stuck(w.how.f)
  {
  }

  // ----- operands on the data stack -----

  /** The k-th value from the top, the top being the 0-th. */
  function Ref(stack: seq<int>, k: nat): int {
    if k < |stack| then stack[|stack| - 1 - k] else 0
  }

  function Below(stack: seq<int>, k: nat): seq<int> {
    if k <= |stack| then stack[..|stack| - k] else []
  }

  /** The k-th value refers to an array. */
  predicate ArrayOf(stack: seq<int>, arrays: seq<seq<int>>, k: nat) {
    k < |stack| && 1 <= Ref(stack, k) <= |arrays|
  }

  /** The k-th value is an index into the array that the one below it refers to. */
  predicate ElementOf(stack: seq<int>, arrays: seq<seq<int>>, k: nat) {
    ArrayOf(stack, arrays, k + 1) && 0 <= Ref(stack, k) < |arrays[Ref(stack, k + 1) - 1]|
  }

  function ElementFault(stack: seq<int>, arrays: seq<seq<int>>, k: nat): Fault {
    if |stack| < k + 2 then EmptyStack else if ArrayOf(stack, arrays, k + 1) then IndexOutOfBounds else BadReference
  }

  // ----- the machine in place -----

  class VirtualMachine {
    const program: Program
    var dataStack: seq<int>
    var activations: seq<Activation>
    var current: Activation
    var objects: seq<Obj>
    var arrays: seq<seq<int>>
    var output: seq<int>

    constructor (program: Program)
      ensures this.program == program && Value() == Start(program)
    {
      this.program := program;
      current := Activate(program.main, program.mainName);
      dataStack, activations, objects, arrays, output := [], [], [], [], [];
    }

    function Heap(): Store
      reads this
    {
      Store(objects, arrays, output)
    }

    function Value(): State
      reads this
    {
      Active(current, activations, dataStack, Heap())
    }

    method Push(n: int)
      modifies `dataStack
      ensures dataStack == old(dataStack) + [n]
    {
      dataStack := dataStack + [n];
    }

    method Pop() returns (r: Res<int>)
      modifies `dataStack
      ensures if old(dataStack) == [] then r == Err(EmptyStack) && dataStack == []
              else r == Ok(old(dataStack)[|old(dataStack)| - 1]) && dataStack == old(dataStack)[..|old(dataStack)| - 1]
    {
      if dataStack == [] { return Err(EmptyStack); }
      r := Ok(dataStack[|dataStack| - 1]);
      dataStack := dataStack[..|dataStack| - 1];
    }

    /** x from the top, y below it. */
    method PopTwo() returns (r: Res<(int, int)>)
      modifies `dataStack
      ensures if |old(dataStack)| < 2 then r == Err(EmptyStack)
              else && r == Ok((old(dataStack)[|old(dataStack)| - 1], old(dataStack)[|old(dataStack)| - 2]))
                   && dataStack == old(dataStack)[..|old(dataStack)| - 2]
    {
      var x :- Pop();
      var y :- Pop();
      r := Ok((x, y));
    }

    method SetVariable(name: string, n: int) returns (r: Res<bool>)
      modifies `current, `objects
      ensures match SetVar(name, n, old(current.frame), old(Heap()))
              case Err(f) => r == Err(f)
              case Ok((fr, s)) => r.Ok? && r.v && current == old(current).(frame := fr) && Heap() == s
    {
      var fr := current.frame;
      if name in fr.locals {
        current := current.(frame := fr.(locals := fr.locals[name := n]));
        return Ok(true);
      }
      if name !in fr.fields { return Err(NoSuchVariable); }
      if name == "this" {
        current := current.(frame := fr.(self := n));
        return Ok(true);
      }
      if fr.self == 0 { return Err(ThisUnset); }
      if fr.self < 0 || fr.self > |objects| { return Err(BadReference); }
      var o := objects[fr.self - 1];
      objects := objects[fr.self - 1 := o.(fields := o.fields[name := n])];
      r := Ok(true);
    }

    /** Fetches an instruction and runs it; the result says whether the machine goes on. */
    method StepOnce() returns (r: Res<bool>)
      modifies this
      ensures match r
              case Err(f) => Step(program, old(Value())) == Done(IrMachine.Faulted(f), output)
              case Ok(goesOn) => Step(program, old(Value())) == if goesOn then Value() else Done(IrMachine.Finished, output)
    {
      hide Execute;
      if current.block !in current.body.blocks { return Err(NoSuchBlock); }
      var code := current.body.blocks[current.block];
      if current.pc >= |code| { return Err(PastEnd); }
      var i := code[current.pc];
      current := current.(pc := current.pc + 1);
      r := ExecuteOne(i);
    }

    method ExecuteOne(i: Instruction) returns (r: Res<bool>)
      modifies this
      ensures match r
              case Err(f) => Execute(program, i, old(Value())) == Done(IrMachine.Faulted(f), output)
              case Ok(goesOn) => Execute(program, i, old(Value())) == if goesOn then Value() else Done(IrMachine.Finished, output)
    {
      hide SetVar, Allocate, Binary, GetVar, AllocArray, LoadElement, StoreElement, ArrayAt, Activate;
      match i {
        case STOP => return Ok(false);
        case RET =>
          if activations == [] { return Err(EmptyActivations); }
          current := activations[|activations| - 1];
          activations := activations[..|activations| - 1];
        case CALL(m) =>
          activations := activations + [current];
          if m !in program.methods { return Err(NoSuchMethod); }
          current := Activate(program.methods[m], m);
        case JMP(l) => current := current.(block := l, pc := 0);
        case CJMP(l) =>
          var condition :- Pop();
          if condition == 0 { current := current.(block := l, pc := 0); }
        case PRINT =>
          var n :- Pop();
          output := output + [n];
        case NEW(_) => r := ExecuteVariable(i); return;
        case LOAD(_) => r := ExecuteVariable(i); return;
        case CONST(_) => r := ExecuteVariable(i); return;
        case STORE(_) => r := ExecuteVariable(i); return;
        case NOT => r := ExecuteVariable(i); return;
        case NEW_ARRAY => r := NewArray(); return;
        case ARRAY_LOAD => r := ArrayLoad(); return;
        case ARRAY_STORE => r := ArrayStore(); return;
        case ARRAY_LENGTH => r := ArrayLength(); return;
        case ADD => r := TwoOperands(i); return;
        case SUB => r := TwoOperands(i); return;
        case MUL => r := TwoOperands(i); return;
        case DIV => r := TwoOperands(i); return;
        case LT => r := TwoOperands(i); return;
        case GT => r := TwoOperands(i); return;
        case EQ => r := TwoOperands(i); return;
        case AND => r := TwoOperands(i); return;
        case OR => r := TwoOperands(i); return;
      }
      r := Ok(true);
    }

    method ExecuteVariable(i: Instruction) returns (r: Res<bool>)
      requires i.NEW? || i.LOAD? || i.CONST? || i.STORE? || i.NOT?
      modifies this
      ensures match r
              case Err(f) => Execute(program, i, old(Value())) == Done(IrMachine.Faulted(f), output)
              case Ok(goesOn) => goesOn && Execute(program, i, old(Value())) == Value()
    {
      hide SetVar, Allocate, GetVar, Binary, AllocArray, LoadElement, StoreElement, ArrayAt, Activate;
      match i {
        case NEW(c) =>
          var (ref, s) := Allocate(program, c, Heap());
          objects := s.objects;
          AllocateObjects(program, c, old(Heap()));
          Push(ref);
        case LOAD(x) =>
          var n :- GetVar(x, current.frame, Heap());
          Push(n);
          assert old(dataStack)[..|old(dataStack)|] == old(dataStack);
        case CONST(n) =>
          Push(n);
          assert old(dataStack)[..|old(dataStack)|] == old(dataStack);
        case STORE(x) =>
          var n :- Pop();
          r := SetVariable(x, n);
          SetVarOutput(x, n, old(current.frame), old(Heap()));
          return;
        case NOT =>
          var x :- Pop();
          Push(if x == 0 then 1 else 0);
      }
      r := Ok(true);
    }

    method TwoOperands(i: Instruction) returns (r: Res<bool>)
      requires IsBinary(i)
      modifies this
      ensures match r
              case Err(f) => Execute(program, i, old(Value())) == Done(IrMachine.Faulted(f), output)
              case Ok(goesOn) => goesOn && Execute(program, i, old(Value())) == Value()
    {
      hide Binary;
      var xy :- PopTwo();
      var (x, y) := xy;
      var n :- Binary(i, x, y);
      Push(n);
      r := Ok(true);
    }

    /** Everything but the data stack and the arrays. */
    twostate predicate OthersKept()
      reads this
    {
      current == old(current) && activations == old(activations) && objects == old(objects) && output == old(output)
    }

    /** A new last array of zeros, its number on the stack in place of the length. */
    method NewArray() returns (r: Res<bool>)
      modifies this
      ensures OthersKept()
      ensures r.Ok? ==>
                && old(dataStack) != [] && Ref(old(dataStack), 0) >= 0 && |arrays| == |old(arrays)| + 1
                && (forall k :: 0 <= k < |old(arrays)| ==> arrays[k] == old(arrays)[k])
                && |arrays[|old(arrays)|]| == Ref(old(dataStack), 0) && (forall j :: 0 <= j < Ref(old(dataStack), 0) ==> arrays[|old(arrays)|][j] == 0)
                && dataStack == Below(old(dataStack), 1) + [|arrays|]
      ensures r.Err? ==> arrays == old(arrays) && r.f == if old(dataStack) == [] then EmptyStack else NegativeLength
      ensures match r
              case Err(f) => Execute(program, NEW_ARRAY, old(Value())) == Done(IrMachine.Faulted(f), output)
              case Ok(goesOn) => goesOn && Execute(program, NEW_ARRAY, old(Value())) == Value()
    {
      var length :- Pop();
      if length < 0 { return Err(NegativeLength); }
      arrays := arrays + [seq(length, i => 0)];
      Push(|arrays|);
      r := Ok(true);
    }

    method ArrayLoad() returns (r: Res<bool>)
      modifies this
      ensures OthersKept() && arrays == old(arrays)
      ensures r.Ok? ==> ElementOf(old(dataStack), old(arrays), 0) && dataStack == Below(old(dataStack), 2) + [old(arrays)[Ref(old(dataStack), 1) - 1][Ref(old(dataStack), 0)]]
      ensures r.Err? ==> r.f == ElementFault(old(dataStack), old(arrays), 0)
      ensures match r
              case Err(f) => Execute(program, ARRAY_LOAD, old(Value())) == Done(IrMachine.Faulted(f), output)
              case Ok(goesOn) => goesOn && Execute(program, ARRAY_LOAD, old(Value())) == Value()
    {
      var two :- PopTwo();
      var (index, ref) := two;
      if ref <= 0 || ref > |arrays| { return Err(BadReference); }
      var a := arrays[ref - 1];
      if index < 0 || index >= |a| { return Err(IndexOutOfBounds); }
      Push(a[index]);
      r := Ok(true);
    }

    /** The element at the index below the top becomes the value at the top; every other element of every array, and
        everything else but the three operands, stays. */
    method ArrayStore() returns (r: Res<bool>)
      modifies this
      ensures OthersKept()
      ensures r.Ok? ==>
                && ElementOf(old(dataStack), old(arrays), 1) && dataStack == Below(old(dataStack), 3)
                && |arrays| == |old(arrays)| && (forall k :: 0 <= k < |arrays| ==> |arrays[k]| == |old(arrays)[k]|)
                && forall k, j {:trigger arrays[k][j]} :: 0 <= k < |arrays| && 0 <= j < |arrays[k]| ==>
                     arrays[k][j] == if k == Ref(old(dataStack), 2) - 1 && j == Ref(old(dataStack), 1) then Ref(old(dataStack), 0) else old(arrays)[k][j]
      ensures r.Err? ==> arrays == old(arrays) && r.f == ElementFault(old(dataStack), old(arrays), 1)
      ensures match r
              case Err(f) => Execute(program, ARRAY_STORE, old(Value())) == Done(IrMachine.Faulted(f), output)
              case Ok(goesOn) => goesOn && Execute(program, ARRAY_STORE, old(Value())) == Value()
    {
      var n :- Pop();
      var two :- PopTwo();
      var (index, ref) := two;
      if ref <= 0 || ref > |arrays| { return Err(BadReference); }
      var a := arrays[ref - 1];
      if index < 0 || index >= |a| { return Err(IndexOutOfBounds); }
      arrays := arrays[ref - 1 := a[index := n]];
      r := Ok(true);
    }

    method ArrayLength() returns (r: Res<bool>)
      modifies this
      ensures OthersKept() && arrays == old(arrays)
      ensures r.Ok? ==> ArrayOf(old(dataStack), old(arrays), 0) && dataStack == Below(old(dataStack), 1) + [|old(arrays)[Ref(old(dataStack), 0) - 1]|]
      ensures r.Err? ==> r.f == if old(dataStack) == [] then EmptyStack else BadReference
      ensures match r
              case Err(f) => Execute(program, ARRAY_LENGTH, old(Value())) == Done(IrMachine.Faulted(f), output)
              case Ok(goesOn) => goesOn && Execute(program, ARRAY_LENGTH, old(Value())) == Value()
    {
      var ref :- Pop();
      if ref <= 0 || ref > |arrays| { return Err(BadReference); }
      Push(|arrays[ref - 1]|);
      r := Ok(true);
    }

    /** The machine's loop, cut off after limit instructions: going is true if it has not stopped by then. */
    method RunFor(limit: nat) returns (going: bool, how: Ending)
      modifies this
      ensures Run(program, limit, old(Value())) == if going then Value() else Done(how, output)
    {
      hide Step;
      going, how := true, IrMachine.Finished;
      ghost var start := Value();
      var n := 0;
      while n < limit && going
        invariant n <= limit
        invariant going ==> how == IrMachine.Finished && Run(program, limit, start) == Run(program, limit - n, Value())
        invariant !going ==> Run(program, limit, start) == Done(how, output)
      {
        ghost var before := Value();
        var r := StepOnce();
        n := n + 1;
        going := r.Ok? && r.v;
        if r.Err? { how := IrMachine.Faulted(r.f); }
        if !going { DoneStays(program, limit - n, Done(how, output)); }
      }
    }
  }

  /** The OR opcode adds its operands, so it is a disjunction exactly when they do not cancel out; AND always
      is a conjunction. */
  lemma LogicalOpcodes(x: int, y: int)
    ensures Binary(OR, x, y) == Ok(OfBool(x != 0 || y != 0)) <==> (x == 0 || x + y != 0)
    ensures Binary(AND, x, y) == Ok(OfBool(x != 0 && y != 0))
  {
    if x != 0 && y != 0 { NonZeroProduct(x, y); }
  }

  lemma NonZeroProduct(x: int, y: int)
    requires x != 0 && y != 0
    ensures x * y != 0
  {
  }

  lemma SetVarOutput(x: string, n: int, fr: Frame, s: Store)
    ensures SetVar(x, n, fr, s).Ok? ==> SetVar(x, n, fr, s).v.1.out == s.out && SetVar(x, n, fr, s).v.1.arrays == s.arrays
  {
  }

  lemma AllocateObjects(p: Program, c: string, s: Store)
    ensures Allocate(p, c, s).1 == s.(objects := Allocate(p, c, s).1.objects)
  {
  }
}

/** Runs of three-address code: one instruction a step, labels deciding where control goes. A call pushes the
    caller and a return stores into the caller's result. */
module IrMachine {
  import opened Ast
  import opened Tac
  import opened Machine

  /** The code by block name, and the signature of each method by root name; main is not callable. */
  datatype Ir = Ir(code: map<string, seq<Instr>>, main: string, mainSig: Signature, sigs: map<string, Signature>)

  datatype Activation = Activation(name: string, block: string, pc: nat, frame: Frame)

  /** A suspended activation and the variable that receives the returned value. */
  datatype Caller = Caller(act: Activation, result: string)

  datatype Ending = Finished | Faulted(f: Fault)

  datatype Config =
    | Running(cur: Activation, callers: seq<Caller>, stack: seq<int>, store: Store)
    | Halted(how: Ending, out: seq<int>)

  function Output(c: Config): seq<int> {
    if c.Running? then c.store.out else c.out
  }

  function FieldTable(p: Ir): map<string, set<string>> {
    (map m | m in p.sigs :: p.sigs[m].fields)[p.main := p.mainSig.fields]
  }

  function Read(o: Operand, fr: Frame, s: Store): Res<int> {
    match o
    case Imm(n) => Ok(n)
    case Name(x) => GetVar(x, fr, s)
  }

  /** The value an instruction stores in its result, and the store after computing it. */
  function Compute(fieldTable: map<string, set<string>>, t: Instr, fr: Frame, s: Store): Res<(int, Store)>
    requires Defines(t)
  {
    match t
    case Bin(op, _, l, r) =>
      var x :- Read(l, fr, s);
      var y :- Read(r, fr, s);
      var n :- Apply(op, x, y);
      Ok((n, s))
    case NotTac(_, r) =>
      var x :- Read(r, fr, s);
      Ok((OfBool(x == 0), s))
    case Copy(r, _) =>
      var x :- Read(r, fr, s);
      Ok((x, s))
    case Access(_, l, r) =>
      var x :- Read(l, fr, s);
      var y :- Read(r, fr, s);
      var n :- LoadElement(x, y, s);
      Ok((n, s))
    case Length(_, r) =>
      var x :- Read(r, fr, s);
      var a :- ArrayAt(x, s);
      Ok((|a|, s))
    case New(_, c) => Ok(AllocObject(fieldTable, c, s))
    case NewArr(_, r) =>
      var n :- Read(r, fr, s);
      AllocArray(n, s)
  }

  function Define(fieldTable: map<string, set<string>>, t: Instr, fr: Frame, s: Store): Res<(Frame, Store)>
    requires Defines(t)
  {
    var (n, s1) :- Compute(fieldTable, t, fr, s);
    SetVar(t.result, n, fr, s1)
  }

  function WriteArray(t: Instr, fr: Frame, s: Store): Res<Store>
    requires t.ArrayCopy?
  {
    var ref :- GetVar(t.arr, fr, s);
    var i :- Read(t.index, fr, s);
    var n :- Read(t.rhs, fr, s);
    StoreElement(ref, i, n, s)
  }

  function Fail(c: Config, f: Fault): Config {
    Halted(Faulted(f), Output(c))
  }

  function Next(a: Activation): Activation {
    a.(pc := a.pc + 1)
  }

  function Goto(a: Activation, l: string): Activation {
    a.(block := l, pc := 0)
  }

  function Execute(p: Ir, t: Instr, c: Config): Config
    requires c.Running?
  {
    var fr := c.cur.frame;
    match t
    case Jump(l) => c.(cur := Goto(c.cur, l))
    case CondJump(l, o) =>
      (match Read(o, fr, c.store)
       case Err(f) => Fail(c, f)
       case Ok(n) => c.(cur := if n == 0 then Goto(c.cur, l) else Next(c.cur)))
    case Param(o) =>
      (match Read(o, fr, c.store)
       case Err(f) => Fail(c, f)
       case Ok(n) => c.(cur := Next(c.cur), stack := c.stack + [n]))
    case PrintTac(o) =>
      (match Read(o, fr, c.store)
       case Err(f) => Fail(c, f)
       case Ok(n) => c.(cur := Next(c.cur), store := c.store.(out := c.store.out + [n])))
    case ArrayCopy(_, _, _) =>
      (match WriteArray(t, fr, c.store)
       case Err(f) => Fail(c, f)
       case Ok(s) => c.(cur := Next(c.cur), store := s))
    case Invoke(_, _, _, _) => Enter(p, t, c)
    case Return(o) =>
      (match Read(o, fr, c.store)
       case Err(f) => Fail(c, f)
       case Ok(n) => Leave(n, c))
    case _ =>
      match Define(FieldTable(p), t, fr, c.store)
      case Err(f) => Fail(c, f)
      case Ok((fr1, s1)) => c.(cur := Next(c.cur).(frame := fr1), store := s1)
  }

  function Enter(p: Ir, t: Instr, c: Config): Config
    requires c.Running? && t.Invoke?
  {
    match Read(t.receiver, c.cur.frame, c.store)
    case Err(f) => Fail(c, f)
    case Ok(self) =>
      if t.target !in p.sigs then Fail(c, NoSuchMethod)
      else
        match Machine.Enter(p.sigs[t.target], self, c.stack, c.store)
        case Err(f) => Fail(c, f)
        case Ok((fr, rest, s)) =>
          Running(Activation(t.target, t.target, 0, fr), c.callers + [Caller(Next(c.cur), t.result)], rest, s)
  }

  function Leave(n: int, c: Config): Config
    requires c.Running?
  {
    if c.callers == [] then Fail(c, EmptyActivations)
    else
      var k := c.callers[|c.callers| - 1];
      match SetVar(k.result, n, k.act.frame, c.store)
      case Err(f) => Fail(c, f)
      case Ok((fr, s)) => Running(k.act.(frame := fr), c.callers[..|c.callers| - 1], c.stack, s)
  }

  /** Main stops where its code ends; anywhere else the end of a block must not be reached. */
  function Step(p: Ir, c: Config): Config {
    if c.Halted? then c
    else if c.cur.block !in p.code then Fail(c, NoSuchBlock)
    else
      var ts := p.code[c.cur.block];
      if c.cur.pc < |ts| then Execute(p, ts[c.cur.pc], c)
      else if c.callers == [] then Halted(Finished, c.store.out)
      else Fail(c, PastEnd)
  }

  function Run(p: Ir, n: nat, c: Config): Config {
    if n == 0 then c else Run(p, n - 1, Step(p, c))
  }

  function Start(p: Ir): Config {
    Running(Activation(p.main, p.main, 0, FreshFrame(p.mainSig)), [], [], Store([], [], []))
  }

  lemma {:induction false} RunAdd(p: Ir, m: nat, n: nat, c: Config)
    ensures Run(p, m + n, c) == Run(p, n, Run(p, m, c))
    decreases m
  {
    if m > 0 {
      RunAdd(p, m - 1, n, Step(p, c));
      assert Run(p, m + n, c) == Run(p, m - 1 + n, Step(p, c));
    }
  }

  lemma {:induction false} HaltedStays(p: Ir, n: nat, c: Config)
    requires c.Halted?
    ensures Run(p, n, c) == c
  {
    if n > 0 { HaltedStays(p, n - 1, c); }
  }

  // ----- behaviour -----

  /** What can be seen of a configuration: what it has printed, and whether and how it has stopped. */
  datatype Sight = Going(out: seq<int>) | Over(how: Ending, out: seq<int>)

  function Look(c: Config): Sight {
    match c
    case Running(_, _, _, s) => Going(s.out)
    case Halted(how, out) => Over(how, out)
  }

  /** Some moment of the run of p from its start looks like v. */
  ghost predicate Shows(p: Ir, v: Sight) {
    exists n: nat :: Look(Run(p, n, Start(p))) == v
  }

  /** Everything one run shows the other shows too: they print the same in the same order, and both go on
      for ever, or finish, or fail with the same fault. */
  ghost predicate SameBehaviour(p: Ir, q: Ir) {
    forall v :: Shows(p, v) <==> Shows(q, v)
  }
}

/** The relation between a source state and a state of the generated code, and its elementary steps. */
module Simulation {
  import opened Ast
  import opened Tac
  import opened Names
  import opened Machine
  import opened FlowGraph
  import opened IrGeneration
  import opened GraphGrowth
  import opened IrMachine
  import Source

  /** What a piece of code leaves alone: the method it runs in, the callers, and the pending stack. */
  datatype Context = Context(name: string, callers: seq<Caller>, stack: seq<int>)

  function AtBlock(k: Context, l: string, pc: nat, fr: Frame, s: Store): Config {
    Running(Activation(k.name, l, pc, fr), k.callers, k.stack, s)
  }

  /** About to run the instruction that g will add next. */
  function At(k: Context, g: Graph, fr: Frame, s: Store): Config {
    AtBlock(k, g.current, End(g), fr, s)
  }

  /** All that has been generated is in the code, at its place. */
  ghost predicate CodeHas(ir: Ir, g: Graph) {
    forall l {:trigger l in g.blocks} :: l in g.blocks ==> l in ir.code && g.blocks[l].instrs <= ir.code[l]
  }

  /** Only temporaries numbered n or higher differ. */
  ghost predicate Kept(fr: Frame, fr': Frame, n: nat) {
    && fr'.fields == fr.fields && fr'.self == fr.self && fr'.locals.Keys == fr.locals.Keys
    && forall x {:trigger fr'.locals[x]} :: x in fr.locals && !TempFrom(x, n) ==> fr'.locals[x] == fr.locals[x]
  }

  /** The frames agree on everything a source identifier can name. */
  ghost predicate Sees(sf: Frame, fr: Frame) {
    && sf.fields == fr.fields && sf.self == fr.self
    && forall x :: !Generated(x) ==> (x in sf.locals <==> x in fr.locals) && (x in sf.locals ==> sf.locals[x] == fr.locals[x])
  }

  ghost predicate HasTemps(fr: Frame, lo: nat, hi: nat) {
    forall i: nat {:trigger TempName(i)} :: lo <= i < hi ==> TempName(i) in fr.locals
  }

  /** The operand o denotes v, and keeps doing so while temporaries from n on are written. */
  ghost predicate Denotes(o: Operand, v: Source.Value, fr: Frame, n: nat) {
    match v
    case Now(k) =>
      o == Imm(k)
      || (o.Name? && Generated(o.x) && !TempFrom(o.x, n) && o.x in fr.locals && fr.locals[o.x] == k)
    case Later(x) => o == Name(x) && !Generated(x)
  }

  lemma CodeHasLess(ir: Ir, g: Graph, h: Graph, w: set<string>)
    requires CodeHas(ir, h) && Touches(g, h, w)
    ensures CodeHas(ir, g)
  {
    forall l | l in g.blocks
      ensures l in ir.code && g.blocks[l].instrs <= ir.code[l]
    {
      assert l in h.blocks;
    }
  }

  lemma CodeAt(ir: Ir, g: Graph, l: string)
    requires CodeHas(ir, g) && l in g.blocks
    ensures l in ir.code && |g.blocks[l].instrs| <= |ir.code[l]|
    ensures forall i :: 0 <= i < |g.blocks[l].instrs| ==> ir.code[l][i] == g.blocks[l].instrs[i]
  {
  }

  lemma KeptRefl(fr: Frame, n: nat)
    ensures Kept(fr, fr, n)
  {
  }

  lemma KeptTrans(a: Frame, b: Frame, c: Frame, m: nat, n: nat)
    requires Kept(a, b, m) && Kept(b, c, n) && m <= n
    ensures Kept(a, c, m)
  {
    forall x | x in a.locals && !TempFrom(x, m)
      ensures c.locals[x] == a.locals[x]
    {
      assert !TempFrom(x, n);
      assert b.locals[x] == a.locals[x];
    }
  }

  lemma KeptSees(sf: Frame, fr: Frame, fr': Frame, n: nat)
    requires Sees(sf, fr) && Kept(fr, fr', n)
    ensures Sees(sf, fr')
  {
    forall x | !Generated(x)
      ensures !TempFrom(x, n)
    {
    }
  }

  lemma KeptDenotes(o: Operand, v: Source.Value, fr: Frame, fr': Frame, m: nat, n: nat)
    requires Denotes(o, v, fr, m) && Kept(fr, fr', m) && m <= n
    ensures Denotes(o, v, fr', n)
  {
    if v.Now? && o.Name? {
      assert fr'.locals[o.x] == fr.locals[o.x];
    }
  }

  /** Reading the operand at run time is reading the value at source level. */
  lemma ReadDenotes(o: Operand, v: Source.Value, sf: Frame, fr: Frame, s: Store, n: nat)
    requires Denotes(o, v, fr, n) && Sees(sf, fr)
    ensures Read(o, fr, s) == Source.Force(v, sf, s)
  {
  }

  lemma SetVarSees(x: string, v: int, sf: Frame, fr: Frame, s: Store)
    requires Sees(sf, fr) && !Generated(x)
    ensures match SetVar(x, v, sf, s)
            case Err(f) => SetVar(x, v, fr, s) == Err(f)
            case Ok((sf', s')) =>
              SetVar(x, v, fr, s).Ok? && SetVar(x, v, fr, s).v.1 == s' && Sees(sf', SetVar(x, v, fr, s).v.0)
              && SetVar(x, v, fr, s).v.0.locals.Keys == fr.locals.Keys
  {
  }

  lemma {:induction false} BindParamsSees(params: seq<string>, stack: seq<int>, sf: Frame, fr: Frame, s: Store)
    requires Sees(sf, fr) && forall x :: x in params ==> !Generated(x)
    ensures match BindParams(params, stack, sf, s)
            case Err(f) => BindParams(params, stack, fr, s) == Err(f)
            case Ok((sf', rest, s')) =>
              var r := BindParams(params, stack, fr, s);
              r.Ok? && r.v.1 == rest && r.v.2 == s' && Sees(sf', r.v.0) && r.v.0.locals.Keys == fr.locals.Keys
    decreases |params|
  {
    if params != [] && stack != [] {
      var n, d := |params| - 1, |stack| - 1;
      SetVarSees(params[n], stack[d], sf, fr, s);
      var r := SetVar(params[n], stack[d], sf, s);
      if r.Ok? {
        var q := SetVar(params[n], stack[d], fr, s);
        BindParamsSees(params[..n], stack[..d], r.v.0, q.v.0, q.v.1);
      }
    }
  }

  /** The signature used at run time only adds generated names to the scope. */
  ghost predicate SameSignature(source: Signature, target: Signature) {
    && target.params == source.params && target.fields == source.fields && source.locals <= target.locals
    && (forall x :: x in target.locals && !Generated(x) ==> x in source.locals)
    && (forall x :: x in source.params ==> !Generated(x))
  }

  lemma EnterSees(source: Signature, target: Signature, self: int, below: seq<int>, args: seq<int>, s: Store)
    requires SameSignature(source, target) && |source.params| == |args|
    ensures match Machine.Enter(source, self, args, s)
            case Err(f) => Machine.Enter(target, self, below + args, s) == Err(f)
            case Ok((sf, _, s')) =>
              var r := Machine.Enter(target, self, below + args, s);
              r.Ok? && r.v.1 == below && r.v.2 == s' && Sees(sf, r.v.0) && r.v.0.locals.Keys == target.locals
  {
    var sf, fr := FreshFrame(source), FreshFrame(target);
    assert Sees(sf, fr);
    SetVarSees("this", self, sf, fr, s);
    var r := SetVar("this", self, sf, s);
    if r.Ok? {
      var q := SetVar("this", self, fr, s);
      BindParamsSees(source.params, args, r.v.0, q.v.0, q.v.1);
      BindParamsFrame(source.params, below, args, q.v.0, q.v.1);
    }
  }

  // ----- runs -----

  /** After n steps the run from c has stopped as w says; a time-out has used up at least the fuel. */
  ghost predicate Stopped(ir: Ir, n: nat, c: Config, w: Source.Stop, fuel: nat) {
    match w
    case Fail(f, out) => Run(ir, n, c) == Halted(Faulted(f), out)
    case Timeout(out) => fuel <= n && Run(ir, n, c).Running? && Output(Run(ir, n, c)) == out
  }

  lemma StoppedLater(ir: Ir, m: nat, c: Config, n: nat, w: Source.Stop, fuel: nat, more: nat)
    requires Stopped(ir, n, Run(ir, m, c), w, fuel) && more <= fuel + m
    ensures Stopped(ir, m + n, c, w, more)
  {
    RunAdd(ir, m, n, c);
  }

  lemma RunOne(ir: Ir, c: Config)
    ensures Run(ir, 1, c) == Step(ir, c)
  {
    assert Run(ir, 0, Step(ir, c)) == Step(ir, c);
  }

  /** The step at the place where g added t. */
  lemma StepAt(ir: Ir, g: Graph, t: Instr, k: Context, fr: Frame, s: Store)
    requires g.current in g.blocks && CodeHas(ir, AddInstr(g, t))
    ensures Step(ir, At(k, g, fr, s)) == Execute(ir, t, At(k, g, fr, s))
    ensures Goto(Next(At(k, g, fr, s).cur), g.current).(pc := End(g) + 1) == At(k, AddInstr(g, t), fr, s).cur
  {
    CodeAt(ir, AddInstr(g, t), g.current);
    var b := Here(AddInstr(g, t));
    assert b.instrs[End(g)] == t;
  }

  function SetTemp(fr: Frame, i: nat, v: int): Frame {
    fr.(locals := fr.locals[TempName(i) := v])
  }

  lemma SetTempKept(fr: Frame, i: nat, v: int, lo: nat, hi: nat)
    requires TempName(i) in fr.locals && lo <= i < hi
    ensures Kept(fr, SetTemp(fr, i, v), lo)
    ensures Denotes(Name(TempName(i)), Source.Now(v), SetTemp(fr, i, v), hi)
  {
    assert TempFrom(TempName(i), lo);
    assert SetTemp(fr, i, v).locals.Keys == fr.locals.Keys;
    TempIsGenerated(i);
    EarlierTempIsNotLater(i, hi);
  }

  /** An instruction that computes into temporary number i. */
  lemma StepDefine(ir: Ir, g: Graph, t: Instr, k: Context, fr: Frame, s: Store, i: nat)
    requires g.current in g.blocks && CodeHas(ir, AddInstr(g, t))
    requires Defines(t) && t.result == TempName(i) && TempName(i) in fr.locals
    ensures Step(ir, At(k, g, fr, s)) ==
            match Compute(FieldTable(ir), t, fr, s)
            case Err(f) => Halted(Faulted(f), s.out)
            case Ok((v, s')) => At(k, AddInstr(g, t), SetTemp(fr, i, v), s')
  {
    StepAt(ir, g, t, k, fr, s);
  }

  /** At position pc of block l, a conditional jump is followed by a jump. */
  ghost predicate BranchCode(ir: Ir, l: string, pc: nat, cond: Operand, yes: string, no: string) {
    l in ir.code && pc + 1 < |ir.code[l]| && ir.code[l][pc] == CondJump(no, cond) && ir.code[l][pc + 1] == Jump(yes)
  }

  /** Such a branch takes at least one step. */
  lemma RunBranch(ir: Ir, k: Context, l: string, pc: nat, cond: Operand, yes: string, no: string, fr: Frame, s: Store)
    returns (n: nat)
    requires BranchCode(ir, l, pc, cond, yes, no)
    ensures n > 0 && Run(ir, n, AtBlock(k, l, pc, fr, s)) ==
            match Read(cond, fr, s)
            case Err(f) => Halted(Faulted(f), s.out)
            case Ok(x) => AtBlock(k, if x == 0 then no else yes, 0, fr, s)
  {
    var c := AtBlock(k, l, pc, fr, s);
    RunOne(ir, c);
    n := 1;
    if Read(cond, fr, s).Ok? && Read(cond, fr, s).v != 0 {
      RunAdd(ir, 1, 1, c);
      RunOne(ir, Step(ir, c));
      n := 2;
    }
  }

  ghost predicate JumpCode(ir: Ir, l: string, pc: nat, to: string) {
    l in ir.code && pc < |ir.code[l]| && ir.code[l][pc] == Jump(to)
  }

  lemma RunJump(ir: Ir, k: Context, l: string, pc: nat, to: string, fr: Frame, s: Store)
    requires JumpCode(ir, l, pc, to)
    ensures Run(ir, 1, AtBlock(k, l, pc, fr, s)) == AtBlock(k, to, 0, fr, s)
  {
    RunOne(ir, AtBlock(k, l, pc, fr, s));
  }

  // ----- compiled programs -----

  /** Each method's code is in ir: starts gives the graph at its root. */
  ghost predicate CompiledMethod(ir: Ir, name: string, m: Method, g: Graph) {
    && Ready(g) && g.current == name && Here(g) == EMPTY_BLOCK
    && CodeHas(ir, GenBody(m, g))
    && name in ir.sigs && SameSignature(m.sig, ir.sigs[name])
    && forall i: nat {:trigger TempName(i)} :: g.nextTemp <= i < GenBody(m, g).nextTemp ==> TempName(i) in ir.sigs[name].locals
  }

  /** A source program, its code, and the graph at the root of each of its methods. */
  datatype Pairing = Pairing(p: Program, ir: Ir, starts: map<string, Graph>)

  ghost predicate Compiled(w: Pairing) {
    && Source.GoodProgram(w.p)
    && FieldTable(w.ir) == Source.FieldTable(w.p)
    && forall name {:trigger w.p.methods[name]} {:trigger w.starts[name]} :: name in w.p.methods ==>
         name in w.starts && CompiledMethod(w.ir, name, w.p.methods[name], w.starts[name])
  }

  const EMPTY_PAIRING := Pairing(Program(".", Signature([], {}, {}), [], [], map[]), Ir(map[], ".", Signature([], {}, {}), map[]), map[])

  type World = w: Pairing | Compiled(w) ghost witness EMPTY_PAIRING
}

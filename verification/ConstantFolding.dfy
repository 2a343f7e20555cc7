/** Constant folding of one block (src/ir/passes/ConstantFoldingPass.cpp), with the environment threaded
    through its instructions, and its correctness. */
module ConstantFolding {
  import opened Ast
  import opened Tac
  import opened Machine
  import opened IrMachine

  datatype Option<+T> = None | Some(value: T)

  type Env = map<string, int>

  const INT64_MIN := -0x8000_0000_0000_0000
  const INT64_MAX := 0x7fff_ffff_ffff_ffff

  function Constant(o: Operand, env: Env): Option<int> {
    match o
    case Imm(n) => Some(n)
    case Name(x) => if x in env then Some(env[x]) else None
  }

  function SubstituteOperand(o: Operand, env: Env): Operand {
    if o.Name? && o.x in env && InInt(env[o.x]) then Imm(env[o.x]) else o
  }

  function Substitute(t: Instr, env: Env): Instr {
    match t
    case Bin(op, x, l, r) => Bin(op, x, SubstituteOperand(l, env), SubstituteOperand(r, env))
    case Access(x, l, r) => Access(x, SubstituteOperand(l, env), SubstituteOperand(r, env))
    case ArrayCopy(x, i, r) => ArrayCopy(x, SubstituteOperand(i, env), SubstituteOperand(r, env))
    case NotTac(x, r) => NotTac(x, SubstituteOperand(r, env))
    case Copy(r, x) => Copy(SubstituteOperand(r, env), x)
    case Length(x, r) => Length(x, SubstituteOperand(r, env))
    case NewArr(x, r) => NewArr(x, SubstituteOperand(r, env))
    case Param(r) => Param(SubstituteOperand(r, env))
    case Return(r) => Return(SubstituteOperand(r, env))
    case PrintTac(r) => PrintTac(SubstituteOperand(r, env))
    case CondJump(l, o) => CondJump(l, SubstituteOperand(o, env))
    case Invoke(x, o, m, n) => Invoke(x, SubstituteOperand(o, env), m, n)
    case New(_, _) => t
    case Jump(_) => t
  }

  /** The folded operators; division by zero is left for run time. */
  function FoldBinary(op: BinaryOp, x: int, y: int): Option<int> {
    match op
    case Add => Some(x + y)
    case Subtract => Some(x - y)
    case Multiply => Some(x * y)
    case Divide => if y == 0 then None else Some(TruncDiv(x, y))
    case LessThan => Some(if x < y then 1 else 0)
    case GreaterThan => Some(if x > y then 1 else 0)
    case EqualTo => Some(if x == y then 1 else 0)
  }

  function TryFold(t: Instr, env: Env): Option<int> {
    match t
    case Bin(op, _, l, r) =>
      var x, y := Constant(l, env), Constant(r, env);
      if x.Some? && y.Some? then FoldBinary(op, x.value, y.value) else None
    case NotTac(_, r) =>
      var x := Constant(r, env);
      if x.Some? then Some(if x.value == 0 then 1 else 0) else None
    case _ => None
  }

  /** The value a folded instruction is replaced by, if it is folded. */
  function Folded(t: Instr, env: Env): Option<int> {
    var v := TryFold(t, env);
    if v.Some? && InInt(v.value) then v else None
  }

  function FoldInstr(t: Instr, env: Env): Instr {
    var t1 := Substitute(t, env);
    var v := Folded(t1, env);
    if v.Some? && (t1.Bin? || t1.NotTac?) then Copy(Imm(v.value), t1.result) else t1
  }

  /** The environment after an instruction: a folded or copied constant is entered, any other result is
      dropped, and a call forgets everything. */
  function NextEnv(t: Instr, env: Env): Env {
    var t1 := Substitute(t, env);
    var v := Folded(t1, env);
    if v.Some? && (t1.Bin? || t1.NotTac?) then env[t1.result := v.value]
    else if t1.Invoke? then map[]
    else if t1.Copy? then
      var c := Constant(t1.rhs, env);
      if c.Some? then env[t1.result := c.value] else env - {t1.result}
    else if Defines(t1) then env - {t1.result}
    else env
  }

  /** The environment before instruction i. */
  function EnvAt(ts: seq<Instr>, i: nat): Env
    requires i <= |ts|
  {
    if i == 0 then map[] else NextEnv(ts[i - 1], EnvAt(ts, i - 1))
  }

  function FoldBlock(ts: seq<Instr>): (r: seq<Instr>)
    ensures |r| == |ts|
  {
    seq(|ts|, i requires 0 <= i < |ts| => FoldInstr(ts[i], EnvAt(ts, i)))
  }

  // ----- one instruction -----

  /** Each entry is the current value of its variable. */
  ghost predicate Consistent(env: Env, fr: Frame, s: Store) {
    forall x {:trigger env[x]} {:trigger x in env} :: x in env ==> GetVar(x, fr, s) == Ok(env[x])
  }

  lemma ReadSubstituted(o: Operand, env: Env, fr: Frame, s: Store)
    requires Consistent(env, fr, s)
    ensures Read(SubstituteOperand(o, env), fr, s) == Read(o, fr, s)
    ensures Constant(o, env).Some? ==> Read(o, fr, s) == Ok(Constant(o, env).value)
  {
  }

  /** The compile-time operators are the run-time ones wherever they are defined. */
  lemma FoldBinaryIsApply(op: BinaryOp, x: int, y: int)
    ensures match FoldBinary(op, x, y)
            case Some(v) => Apply(op, x, y) == Ok(v)
            case None => Apply(op, x, y) == Err(DivideByZero)
  {
  }

  lemma FoldedDefine(ft: map<string, set<string>>, t: Instr, env: Env, fr: Frame, s: Store)
    requires Consistent(env, fr, s) && Defines(t)
    ensures Defines(FoldInstr(t, env)) && FoldInstr(t, env).result == t.result
    ensures Compute(ft, FoldInstr(t, env), fr, s) == Compute(ft, t, fr, s)
    ensures Folded(Substitute(t, env), env).Some? && (t.Bin? || t.NotTac?) ==>
              Compute(ft, t, fr, s) == Ok((Folded(Substitute(t, env), env).value, s))
  {
    hide Consistent;
    var t1 := Substitute(t, env);
    match t
    case Bin(op, _, l, r) =>
      ReadSubstituted(l, env, fr, s);
      ReadSubstituted(r, env, fr, s);
      FoldedBin(op, t1, env, fr, s);
    case Access(_, l, r) =>
      ReadSubstituted(l, env, fr, s);
      ReadSubstituted(r, env, fr, s);
    case NotTac(_, r) =>
      ReadSubstituted(r, env, fr, s);
      ReadSubstituted(t1.rhs, env, fr, s);
    case Copy(r, _) => ReadSubstituted(r, env, fr, s);
    case Length(_, r) => ReadSubstituted(r, env, fr, s);
    case NewArr(_, r) => ReadSubstituted(r, env, fr, s);
    case New(_, _) =>
  }

  lemma FoldedBin(op: BinaryOp, t: Instr, env: Env, fr: Frame, s: Store)
    requires Consistent(env, fr, s) && t.Bin? && t.op == op
    ensures forall ft :: Folded(t, env).Some? ==> Compute(ft, t, fr, s) == Ok((Folded(t, env).value, s))
  {
    ReadSubstituted(t.lhs, env, fr, s);
    ReadSubstituted(t.rhs, env, fr, s);
    var x, y := Constant(t.lhs, env), Constant(t.rhs, env);
    if x.Some? && y.Some? { FoldBinaryIsApply(op, x.value, y.value); }
  }

  /** Allocation, array writes and output change no variable. */
  lemma ComputeKeepsVars(ft: map<string, set<string>>, t: Instr, fr: Frame, s: Store, x: string)
    requires Defines(t) && Compute(ft, t, fr, s).Ok? && GetVar(x, fr, s).Ok?
    ensures GetVar(x, fr, Compute(ft, t, fr, s).v.1) == GetVar(x, fr, s)
  {
  }

  lemma DefineKeepsConsistent(ft: map<string, set<string>>, t: Instr, env: Env, fr: Frame, s: Store)
    requires Consistent(env, fr, s) && Defines(t) && t.result != "this" && Define(ft, t, fr, s).Ok?
    ensures var (fr1, s1) := Define(ft, t, fr, s).v;
            Consistent(NextEnv(t, env), fr1, s1)
  {
    hide Consistent, Compute, GetVar, SetVar, FoldBinary;
    var (n, s1) := Compute(ft, t, fr, s).v;
    var (fr2, s2) := SetVar(t.result, n, fr, s1).v;
    var next := NextEnv(t, env);
    NextEnvOf(ft, t, env, fr, s);
    DefinedConsistent(ft, t, env, fr, s, next);
  }

  lemma NextEnvOf(ft: map<string, set<string>>, t: Instr, env: Env, fr: Frame, s: Store)
    requires Consistent(env, fr, s) && Defines(t) && Compute(ft, t, fr, s).Ok?
    ensures NextEnv(t, env) == env - {t.result} || NextEnv(t, env) == env[t.result := Compute(ft, t, fr, s).v.0]
  {
    hide Consistent, FoldBinary;
    FoldedDefine(ft, t, env, fr, s);
    if t.Copy? {
      ReadSubstituted(t.rhs, env, fr, s);
      ReadSubstituted(SubstituteOperand(t.rhs, env), env, fr, s);
    }
  }

  lemma DefinedConsistent(ft: map<string, set<string>>, t: Instr, env: Env, fr: Frame, s: Store, next: Env)
    requires Consistent(env, fr, s) && Defines(t) && t.result != "this" && Define(ft, t, fr, s).Ok?
    requires next == env - {t.result} || next == env[t.result := Compute(ft, t, fr, s).v.0]
    ensures Consistent(next, Define(ft, t, fr, s).v.0, Define(ft, t, fr, s).v.1)
  {
    var (n, s1) := Compute(ft, t, fr, s).v;
    var (fr2, s2) := SetVar(t.result, n, fr, s1).v;
    forall x | x in next
      ensures GetVar(x, fr2, s2) == Ok(next[x])
    {
      hide Compute;
      SetVarThenGet(t.result, n, x, fr, s1);
      if x != t.result {
        assert x in env;
        ComputeKeepsVars(ft, t, fr, s, x);
      }
    }
  }

  lemma WriteKeepsConsistent(env: Env, t: Instr, fr: Frame, s: Store)
    requires Consistent(env, fr, s) && t.ArrayCopy? && WriteArray(t, fr, s).Ok?
    ensures Consistent(env, fr, WriteArray(t, fr, s).v)
  {
  }

  // ----- whole runs -----

  /** Some blocks of the code, any of them, have been folded. */
  ghost predicate FoldedCode(code: map<string, seq<Instr>>, code': map<string, seq<Instr>>) {
    code'.Keys == code.Keys
    && forall l {:trigger code'[l]} :: l in code ==> code'[l] == code[l] || code'[l] == FoldBlock(code[l])
  }

  /** No instruction assigns to `this`, which is no identifier of the source language. */
  ghost predicate NeverSetsThis(code: map<string, seq<Instr>>) {
    forall l, i {:trigger code[l][i]} :: l in code && 0 <= i < |code[l]| && Defines(code[l][i]) ==> code[l][i].result != "this"
  }

  ghost predicate Placed(code: map<string, seq<Instr>>, a: Activation) {
    a.block in code && a.pc <= |code[a.block]|
  }

  function EnvOf(code: map<string, seq<Instr>>, a: Activation): Env
    requires Placed(code, a)
  {
    EnvAt(code[a.block], a.pc)
  }

  /** The environment computed at compile time holds wherever the run is; suspended callers resume with an
      empty one. */
  ghost predicate EnvHolds(code: map<string, seq<Instr>>, c: Config) {
    c.Running? ==>
      && (Placed(code, c.cur) ==> Consistent(EnvOf(code, c.cur), c.cur.frame, c.store))
      && CallersForget(code, c.callers)
  }

  ghost predicate CallersForget(code: map<string, seq<Instr>>, callers: seq<Caller>) {
    forall i {:trigger callers[i]} :: 0 <= i < |callers| && Placed(code, callers[i].act) ==> EnvOf(code, callers[i].act) == map[]
  }

  lemma OneMoreCaller(code: map<string, seq<Instr>>, callers: seq<Caller>, k: Caller)
    requires CallersForget(code, callers) && (Placed(code, k.act) ==> EnvOf(code, k.act) == map[])
    ensures CallersForget(code, callers + [k])
  {
  }

  lemma EnvAtNext(ts: seq<Instr>, i: nat)
    requires i < |ts|
    ensures EnvAt(ts, i + 1) == NextEnv(ts[i], EnvAt(ts, i))
  {
  }

  function WithCode(p: Ir, code: map<string, seq<Instr>>): Ir {
    p.(code := code)
  }

  /** The instruction and its folded form do the same to a configuration whose environment holds. */
  lemma SameStep(p: Ir, code': map<string, seq<Instr>>, c: Config)
    requires FoldedCode(p.code, code') && EnvHolds(p.code, c)
    ensures Step(WithCode(p, code'), c) == Step(p, c)
  {
    hide FoldInstr, Execute, EnvAt;
    if c.Running? && c.cur.block in p.code && c.cur.pc < |p.code[c.cur.block]| {
      var t := p.code[c.cur.block][c.cur.pc];
      assert code'[c.cur.block] == p.code[c.cur.block] || code'[c.cur.block] == FoldBlock(p.code[c.cur.block]);
      SameExecute(p, code', t, EnvOf(p.code, c.cur), c);
      SameCode(p, code', t, c);
    }
  }

  lemma SameCode(p: Ir, code': map<string, seq<Instr>>, t: Instr, c: Config)
    requires c.Running?
    ensures Execute(WithCode(p, code'), t, c) == Execute(p, t, c)
  {
    assert FieldTable(WithCode(p, code')) == FieldTable(p);
  }

  lemma SameExecute(p: Ir, code': map<string, seq<Instr>>, t: Instr, env: Env, c: Config)
    requires c.Running? && Consistent(env, c.cur.frame, c.store)
    ensures Execute(WithCode(p, code'), FoldInstr(t, env), c) == Execute(p, t, c)
  {
    hide Consistent, Compute, FoldBinary;
    SameCode(p, code', FoldInstr(t, env), c);
    var fr, s := c.cur.frame, c.store;
    match t
    case Jump(_) =>
    case CondJump(_, o) => ReadSubstituted(o, env, fr, s);
    case Param(o) => ReadSubstituted(o, env, fr, s);
    case PrintTac(o) => ReadSubstituted(o, env, fr, s);
    case Return(o) => ReadSubstituted(o, env, fr, s);
    case Invoke(_, o, _, _) => ReadSubstituted(o, env, fr, s);
    case ArrayCopy(_, i, o) =>
      ReadSubstituted(i, env, fr, s);
      ReadSubstituted(o, env, fr, s);
    case _ => FoldedDefine(FieldTable(p), t, env, fr, s);
  }

  lemma StepKeepsEnv(p: Ir, c: Config)
    requires NeverSetsThis(p.code) && EnvHolds(p.code, c)
    ensures EnvHolds(p.code, Step(p, c))
  {
    hide FoldInstr, NextEnv, Consistent, NeverSetsThis;
    if c.Running? && c.cur.block in p.code && c.cur.pc < |p.code[c.cur.block]| {
      var ts := p.code[c.cur.block];
      var t, env := ts[c.cur.pc], EnvOf(p.code, c.cur);
      EnvAtNext(ts, c.cur.pc);
      if t.Jump? || t.CondJump? {
        BranchKeepsEnv(p, t, env, c, Step(p, c));
      } else if t.Invoke? {
        EnterKeepsEnv(p, t, env, c, Step(p, c));
      } else if t.Return? {
        LeaveKeepsEnv(p, t, c, Step(p, c));
      } else {
        PlainKeepsEnv(p, t, env, c, Step(p, c));
      }
    }
  }

  lemma EmptyConsistent(fr: Frame, s: Store)
    ensures Consistent(map[], fr, s)
  {
  }

  lemma BranchKeepsEnv(p: Ir, t: Instr, env: Env, c: Config, d: Config)
    requires c.Running? && Placed(p.code, c.cur) && c.cur.pc < |p.code[c.cur.block]| && (t.Jump? || t.CondJump?)
    requires EnvHolds(p.code, c) && t == p.code[c.cur.block][c.cur.pc] && env == EnvOf(p.code, c.cur)
    requires d == Execute(p, t, c)
    ensures EnvHolds(p.code, d)
  {
    hide Consistent;
    EmptyConsistent(c.cur.frame, c.store);
    EnvAtNext(p.code[c.cur.block], c.cur.pc);
    assert NextEnv(t, env) == env;
    assert EnvAt(p.code[c.cur.block], 0) == map[];
  }

  lemma EnterKeepsEnv(p: Ir, t: Instr, env: Env, c: Config, d: Config)
    requires c.Running? && Placed(p.code, c.cur) && c.cur.pc < |p.code[c.cur.block]| && t.Invoke?
    requires EnvHolds(p.code, c) && t == p.code[c.cur.block][c.cur.pc] && env == EnvOf(p.code, c.cur)
    requires d == Execute(p, t, c)
    ensures EnvHolds(p.code, d)
  {
    hide Consistent, Machine.Enter;
    EnvAtNext(p.code[c.cur.block], c.cur.pc);
    assert NextEnv(t, env) == map[];
    if d.Running? {
      EmptyConsistent(d.cur.frame, d.store);
      assert Placed(p.code, d.cur) ==> EnvOf(p.code, d.cur) == map[];
      OneMoreCaller(p.code, c.callers, d.callers[|c.callers|]);
    }
  }

  lemma LeaveKeepsEnv(p: Ir, t: Instr, c: Config, d: Config)
    requires c.Running? && t.Return? && EnvHolds(p.code, c) && d == Execute(p, t, c)
    ensures EnvHolds(p.code, d)
  {
    hide Consistent, EnvAt, SetVar, GetVar;
    if d.Running? {
      var k := c.callers[|c.callers| - 1];
      EmptyConsistent(d.cur.frame, d.store);
      assert Placed(p.code, d.cur) ==> EnvOf(p.code, d.cur) == EnvOf(p.code, k.act);
    }
  }

  lemma PlainKeepsEnv(p: Ir, t: Instr, env: Env, c: Config, d: Config)
    requires c.Running? && Placed(p.code, c.cur) && c.cur.pc < |p.code[c.cur.block]| && NeverSetsThis(p.code)
    requires !t.Jump? && !t.CondJump? && !t.Invoke? && !t.Return?
    requires EnvHolds(p.code, c) && t == p.code[c.cur.block][c.cur.pc] && env == EnvOf(p.code, c.cur)
    requires d == Execute(p, t, c)
    ensures EnvHolds(p.code, d)
  {
    hide Consistent, NextEnv, Compute, WriteArray, GetVar, SetVar;
    EnvAtNext(p.code[c.cur.block], c.cur.pc);
    if Defines(t) {
      if Define(FieldTable(p), t, c.cur.frame, c.store).Ok? {
        DefineKeepsConsistent(FieldTable(p), t, env, c.cur.frame, c.store);
      }
    } else {
      NextEnvPlain(t, env);
      if t.ArrayCopy? {
        if WriteArray(t, c.cur.frame, c.store).Ok? {
          WriteKeepsConsistent(env, t, c.cur.frame, c.store);
        }
      } else if t.PrintTac? {
        OutputKeepsConsistent(env, c.cur.frame, c.store);
      }
    }
  }

  lemma NextEnvPlain(t: Instr, env: Env)
    requires t.ArrayCopy? || t.PrintTac? || t.Param?
    ensures NextEnv(t, env) == env
  {
  }

  lemma OutputKeepsConsistent(env: Env, fr: Frame, s: Store)
    requires Consistent(env, fr, s)
    ensures forall n :: Consistent(env, fr, s.(out := s.out + [n]))
  {
  }

  /** Constant folding preserves every run: whichever blocks are folded, the folded code goes through the
      very same configurations, step by step. */
  lemma {:induction false} FoldingPreservesRuns(p: Ir, code': map<string, seq<Instr>>, n: nat, c: Config)
    requires FoldedCode(p.code, code') && NeverSetsThis(p.code) && EnvHolds(p.code, c)
    ensures Run(WithCode(p, code'), n, c) == Run(p, n, c)
  {
    hide FoldedCode, NeverSetsThis, EnvHolds, Step;
    if n > 0 {
      SameStep(p, code', c);
      StepKeepsEnv(p, c);
      FoldingPreservesRuns(p, code', n - 1, Step(p, c));
    }
  }

  /** From the start of a program nothing is assumed. */
  lemma FoldingPreservesProgram(p: Ir, code': map<string, seq<Instr>>, n: nat)
    requires FoldedCode(p.code, code') && NeverSetsThis(p.code)
    ensures Run(WithCode(p, code'), n, Start(p)) == Run(p, n, Start(p))
  {
    FoldingPreservesRuns(p, code', n, Start(p));
  }

  // ----- idempotence and bounds -----

  lemma FoldInstrTwice(t: Instr, env: Env)
    ensures FoldInstr(FoldInstr(t, env), env) == FoldInstr(t, env)
    ensures NextEnv(FoldInstr(t, env), env) == NextEnv(t, env)
  {
  }

  lemma {:induction false} EnvAtFolded(ts: seq<Instr>, i: nat)
    requires i <= |ts|
    ensures EnvAt(FoldBlock(ts), i) == EnvAt(ts, i)
  {
    hide FoldInstr, NextEnv;
    if i > 0 {
      EnvAtFolded(ts, i - 1);
      FoldInstrTwice(ts[i - 1], EnvAt(ts, i - 1));
    }
  }

  /** Folding a folded block changes nothing: the environment before each instruction is the same. */
  lemma FoldBlockIdempotent(ts: seq<Instr>)
    ensures FoldBlock(FoldBlock(ts)) == FoldBlock(ts)
  {
    hide FoldInstr, EnvAt;
    forall i | 0 <= i < |ts|
      ensures FoldBlock(FoldBlock(ts))[i] == FoldBlock(ts)[i]
    {
      EnvAtFolded(ts, i);
      FoldInstrTwice(ts[i], EnvAt(ts, i));
    }
  }

  // ----- what is folded -----

  /** An operator on constants whose run-time value is a C++ int: it need not be left to the VM. */
  predicate Foldable(t: Instr) {
    match t
    case Bin(op, _, l, r) => l.Imm? && r.Imm? && Apply(op, l.n, r.n).Ok? && InInt(Apply(op, l.n, r.n).v)
    case NotTac(_, r) => r.Imm?
    case _ => false
  }

  function Operands(t: Instr): set<Operand> {
    match t
    case Bin(_, _, l, r) => {l, r}
    case Access(_, l, r) => {l, r}
    case ArrayCopy(_, i, r) => {i, r}
    case NotTac(_, r) => {r}
    case Copy(r, _) => {r}
    case Length(_, r) => {r}
    case NewArr(_, r) => {r}
    case Param(r) => {r}
    case Return(r) => {r}
    case PrintTac(r) => {r}
    case CondJump(_, o) => {o}
    case Invoke(_, o, _, _) => {o}
    case New(_, _) => {}
    case Jump(_) => {}
  }

  /** The instruction may change x: it writes x, or is a call, which may write any field. */
  predicate MayChange(t: Instr, x: string) {
    t.Invoke? || (Defines(t) && t.result == x)
  }

  lemma NotFoldable(t: Instr, env: Env)
    ensures !Foldable(FoldInstr(t, env))
  {
    var t1 := Substitute(t, env);
    if t1.Bin? && t1.lhs.Imm? && t1.rhs.Imm? { FoldBinaryIsApply(t1.op, t1.lhs.n, t1.rhs.n); }
  }

  /** The pass leaves no operator on constants, but for divisions by zero and results that are no C++ int. */
  lemma NothingFoldableLeft(ts: seq<Instr>)
    ensures forall t :: t in FoldBlock(ts) ==> !Foldable(t)
  {
    hide FoldInstr, EnvAt, Foldable;
    forall t | t in FoldBlock(ts)
      ensures !Foldable(t)
    {
      var i :| 0 <= i < |ts| && FoldBlock(ts)[i] == t;
      NotFoldable(ts[i], EnvAt(ts, i));
    }
  }

  lemma CopyEntered(t: Instr, env: Env, x: string, n: int)
    requires FoldInstr(t, env) == Copy(Imm(n), x)
    ensures x in NextEnv(t, env) && NextEnv(t, env)[x] == n
  {
  }

  lemma EntryKept(t: Instr, env: Env, x: string)
    requires x in env && !MayChange(t, x)
    ensures x in NextEnv(t, env) && NextEnv(t, env)[x] == env[x]
  {
  }

  lemma EntrySubstituted(t: Instr, env: Env, x: string)
    requires x in env && InInt(env[x])
    ensures Name(x) !in Operands(FoldInstr(t, env))
  {
  }

  /** Nor does it leave a read of a variable whose last change in the block, with no call since, gave it a constant. */
  lemma NoKnownNameLeft(ts: seq<Instr>, j: nat, i: nat, x: string, n: int)
    requires j < i < |ts| && FoldBlock(ts)[j] == Copy(Imm(n), x) && InInt(n)
    requires forall k :: j < k < i ==> !MayChange(ts[k], x)
    ensures Name(x) !in Operands(FoldBlock(ts)[i])
  {
    hide FoldInstr, NextEnv, Operands, MayChange;
    CopyEntered(ts[j], EnvAt(ts, j), x, n);
    for k := j + 1 to i
      invariant x in EnvAt(ts, k) && EnvAt(ts, k)[x] == n
    {
      EntryKept(ts[k], EnvAt(ts, k), x);
    }
    EntrySubstituted(ts[i], EnvAt(ts, i), x);
  }

  /** Control transfers keep their kind, their labels and their place. */
  lemma FoldKeepsControl(t: Instr, env: Env)
    ensures Straight(FoldInstr(t, env)) == Straight(t)
    ensures t.Jump? ==> FoldInstr(t, env) == t
    ensures t.CondJump? ==> FoldInstr(t, env).CondJump? && FoldInstr(t, env).target == t.target
    ensures t.Return? ==> FoldInstr(t, env).Return?
    ensures t.Invoke? ==> FoldInstr(t, env).Invoke? && FoldInstr(t, env).target == t.target && FoldInstr(t, env).argCount == t.argCount
    ensures Defines(FoldInstr(t, env)) == Defines(t) && (Defines(t) ==> FoldInstr(t, env).result == t.result)
  {
  }

  ghost predicate EnvInInt(env: Env) {
    forall x :: x in env ==> InInt(env[x])
  }

  /** No environment value ever leaves the int range, so substituting one never fails the range check, and
      the folded block again has only int immediates. */
  lemma {:induction false} EnvStaysInInt(ts: seq<Instr>, i: nat)
    requires i <= |ts| && forall j :: 0 <= j < |ts| ==> ImmediatesInInt(ts[j])
    ensures EnvInInt(EnvAt(ts, i))
    ensures forall j :: 0 <= j < i ==> ImmediatesInInt(FoldBlock(ts)[j])
  {
    hide FoldInstr, NextEnv, ImmediatesInInt, EnvInInt;
    if i == 0 {
      EmptyInInt();
    } else {
      EnvStaysInInt(ts, i - 1);
      NextEnvInInt(ts[i - 1], EnvAt(ts, i - 1));
    }
  }

  lemma EmptyInInt()
    ensures EnvInInt(map[])
  {
  }

  lemma NextEnvInInt(t: Instr, env: Env)
    requires ImmediatesInInt(t) && EnvInInt(env)
    ensures EnvInInt(NextEnv(t, env)) && ImmediatesInInt(FoldInstr(t, env))
  {
    hide FoldBinary;
  }

  lemma NatProduct(x: nat, y: nat, m: nat)
    requires x <= m && y <= m
    ensures 0 <= x * y <= m * m
  {
    assert x * y <= m * y <= m * m;
  }

  lemma ProductInInt64(x: int, y: int)
    requires InInt(x) && InInt(y)
    ensures INT64_MIN <= x * y <= INT64_MAX
  {
    NatProduct(Abs(x), Abs(y), 0x8000_0000);
    SignedProduct(Abs(x), Abs(y));
  }

  lemma TimesAtLeast(q: nat, b: nat)
    requires b > 0
    ensures q * b >= q
  {
  }

  lemma QuotientShrinks(a: nat, b: nat, q: nat)
    requires b > 0 && q == a / b
    ensures q <= a
  {
    DivModNat(a, b);
    TimesAtLeast(q, b);
  }

  lemma SignedBound(x: int, y: int, q: int, t: int)
    requires InInt(x) && 0 <= q <= Abs(x)
    requires t == if (x < 0) == (y < 0) then q else -q
    ensures INT64_MIN <= t <= INT64_MAX
  {
  }

  lemma TruncDivIs(x: int, y: int, q: int)
    requires y != 0 && q == Abs(x) / Abs(y)
    ensures TruncDiv(x, y) == if (x < 0) == (y < 0) then q else -q
  {
  }

  lemma QuotientInInt64(x: int, y: int)
    requires InInt(x) && InInt(y) && y != 0
    ensures INT64_MIN <= TruncDiv(x, y) <= INT64_MAX
  {
    hide TruncDiv;
    var q := Abs(x) / Abs(y);
    QuotientShrinks(Abs(x), Abs(y), q);
    TruncDivIs(x, y, q);
    SignedBound(x, y, q, TruncDiv(x, y));
  }

  /** Folding operands in int range cannot overflow the 64-bit arithmetic it is done in, INT_MIN / -1 included. */
  lemma FoldFitsInt64(t: Instr, env: Env)
    requires ImmediatesInInt(t) && EnvInInt(env) && TryFold(t, env).Some?
    ensures INT64_MIN <= TryFold(t, env).value <= INT64_MAX
  {
    if t.Bin? {
      var x, y := Constant(t.lhs, env).value, Constant(t.rhs, env).value;
      assert InInt(x) && InInt(y);
      if t.op.Multiply? { ProductInInt64(x, y); }
      if t.op.Divide? { QuotientInInt64(x, y); }
    }
  }

  // ----- the pass over one block, in place -----

  /** The loop of the pass: instructions are substituted and replaced where they stand, and the result tells
      exactly whether the block changed. */
  method ProcessBlock(instructions: array<Instr>) returns (changed: bool)
    modifies instructions
    ensures instructions[..] == FoldBlock(old(instructions[..]))
    ensures changed == (instructions[..] != old(instructions[..]))
  {
    hide FoldInstr, NextEnv, FoldBlock;
    ghost var ts := instructions[..];
    var env: Env := map[];
    changed := false;
    for i := 0 to instructions.Length
      invariant env == EnvAt(ts, i)
      invariant instructions[..] == FoldBlock(ts)[..i] + ts[i..]
      invariant changed == (FoldBlock(ts)[..i] != ts[..i])
    {
      FoldBlockStep(ts, i);
      Splice(FoldBlock(ts), ts, i, FoldInstr(ts[i], env));
      ghost var before := instructions[..];
      var c, next := ProcessInstruction(instructions, i, env);
      env := next;
      assert instructions[..] == before[i := FoldInstr(ts[i], EnvAt(ts, i))];
      changed := c || changed;
    }
  }

  lemma Splice(a: seq<Instr>, b: seq<Instr>, i: nat, t: Instr)
    requires i < |a| == |b|
    ensures (a[..i] + b[i..])[i := t] == a[..i] + [t] + b[i + 1..]
  {
  }

  lemma FoldBlockStep(ts: seq<Instr>, i: nat)
    requires i < |ts|
    ensures FoldBlock(ts)[..i + 1] == FoldBlock(ts)[..i] + [FoldInstr(ts[i], EnvAt(ts, i))]
    ensures ts[..i + 1] == ts[..i] + [ts[i]]
  {
    hide FoldInstr, EnvAt;
  }

  method ProcessInstruction(instructions: array<Instr>, i: nat, env: Env) returns (changed: bool, next: Env)
    requires i < instructions.Length
    modifies instructions
    ensures instructions[i] == FoldInstr(old(instructions[i]), env) && next == NextEnv(old(instructions[i]), env)
    ensures forall j :: 0 <= j < instructions.Length && j != i ==> instructions[j] == old(instructions[j])
    ensures changed == (instructions[i] != old(instructions[i]))
  {
    next := env;
    var t := Substitute(instructions[i], env);
    changed := t != instructions[i];
    instructions[i] := t;
    var folded := TryFold(t, env);
    if folded.Some? && InInt(folded.value) {
      instructions[i] := Copy(Imm(folded.value), t.result);
      next := next[t.result := folded.value];
      changed := true;
      return;
    }
    if t.Invoke? {
      next := map[];
    } else if t.Copy? {
      var constant := Constant(t.rhs, env);
      next := if constant.Some? then next[t.result := constant.value] else next - {t.result};
    } else if Defines(t) {
      next := next - {t.result};
    }
  }
}

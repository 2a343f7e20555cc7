/** A well-formed source program never fails for a reason that is the machine's: it does not miss a method or
    run out of arguments. */
module SourceSafety {
  import opened Ast
  import opened Machine
  import opened Names
  import opened Source

  predicate Safe<T>(r: Outcome<T>) {
    r.Stops? && r.why.Fail? ==> !Stuck(r.why.f)
  }

  predicate SafeRes<T>(r: Res<T>) {
    r.Err? ==> !Stuck(r.f)
  }

  lemma PrimitivesSafe(x: string, n: int, fr: Frame, s: Store)
    ensures SafeRes(GetVar(x, fr, s)) && SafeRes(SetVar(x, n, fr, s))
  {
  }

  lemma ForceSafe(v: Value, fr: Frame, s: Store)
    ensures Safe(Read(v, fr, s)) && SafeRes(Force(v, fr, s))
  {
    hide GetVar;
    if v.Later? { PrimitivesSafe(v.x, 0, fr, s); }
  }

  lemma {:induction false} BindSafe(params: seq<string>, args: seq<int>, fr: Frame, s: Store)
    requires |params| == |args|
    ensures SafeRes(BindParams(params, args, fr, s))
    decreases |params|
  {
    hide SetVar;
    if params != [] {
      var n := |params| - 1;
      PrimitivesSafe(params[n], args[n], fr, s);
      var r := SetVar(params[n], args[n], fr, s);
      if r.Ok? { BindSafe(params[..n], args[..n], r.v.0, r.v.1); }
    }
  }

  lemma EnterSafe(sig: Signature, self: int, args: seq<int>, s: Store)
    requires |sig.params| == |args|
    ensures SafeRes(Enter(sig, self, args, s))
  {
    hide SetVar, BindParams;
    PrimitivesSafe("this", self, FreshFrame(sig), s);
    var r := SetVar("this", self, FreshFrame(sig), s);
    if r.Ok? { BindSafe(sig.params, args, r.v.0, r.v.1); }
  }

  /** What the operators of one node can fail with, their operands evaluated. */
  lemma OperatorsSafe(op: BinaryOp, x: int, y: int, z: int, s: Store)
    ensures SafeRes(Apply(op, x, y)) && SafeRes(AllocArray(x, s)) && SafeRes(LoadElement(x, y, s)) && SafeRes(ArrayAt(x, s))
    ensures SafeRes(StoreElement(x, y, z, s))
  {
  }

  lemma {:induction false} EvalSafe(p: Program, fuel: nat, e: Expr, fr: Frame, s: Store)
    requires GoodProgram(p) && GoodExpr(p, e)
    ensures Safe(Eval(p, fuel, e, fr, s))
    decreases fuel, e, 1
  {
    hide GoodProgram, Force, Apply, AllocArray, LoadElement, ArrayAt, AllocObject, CallMethod, EvalArgs, FieldTable, OfBool;
    match e
    case Binary(op, l, r) => PairSafe(p, fuel, e, l, r, fr, s);
    case ArrayAccess(l, r) => PairSafe(p, fuel, e, l, r, fr, s);
    case And(l, r) => ShortSafe(p, fuel, e, l, r, fr, s);
    case Or(l, r) => ShortSafe(p, fuel, e, l, r, fr, s);
    case Not(r) => OneSafe(p, fuel, e, r, fr, s);
    case NewArray(r) => OneSafe(p, fuel, e, r, fr, s);
    case ArrayLength(r) => OneSafe(p, fuel, e, r, fr, s);
    case Call(receiver, c, m, args) =>
      EvalSafe(p, fuel, receiver, fr, s);
      var r := Eval(p, fuel, receiver, fr, s);
      if r.Done? {
        EvalArgsSafe(p, fuel, args, fr, r.store);
        var xs := EvalArgs(p, fuel, args, fr, r.store);
        if xs.Done? {
          ForceSafe(r.v, fr, xs.store);
          var self := Read(r.v, fr, xs.store);
          if self.Done? && fuel > 0 { CallSafe(p, fuel - 1, RootName(c, m), self.v, xs.v, xs.store); }
        }
      }
    case _ =>
  }

  lemma OneSafe(p: Program, fuel: nat, e: Expr, r: Expr, fr: Frame, s: Store)
    requires GoodProgram(p) && GoodExpr(p, r) && (e == Not(r) || e == NewArray(r) || e == ArrayLength(r))
    ensures Safe(Eval(p, fuel, e, fr, s))
    decreases fuel, e, 0
  {
    hide GoodProgram, GoodExpr, Force, AllocArray, ArrayAt, OfBool;
    EvalSafe(p, fuel, r, fr, s);
    var a := Eval(p, fuel, r, fr, s);
    if a.Done? {
      ForceSafe(a.v, fr, a.store);
      var x := Force(a.v, fr, a.store);
      if x.Ok? { OperatorsSafe(Add, x.v, 0, 0, a.store); }
    }
  }

  lemma PairSafe(p: Program, fuel: nat, e: Expr, l: Expr, r: Expr, fr: Frame, s: Store)
    requires GoodProgram(p) && GoodExpr(p, l) && GoodExpr(p, r)
    requires e == ArrayAccess(l, r) || (e.Binary? && e.lhs == l && e.rhs == r)
    ensures Safe(Eval(p, fuel, e, fr, s))
    decreases fuel, e, 0
  {
    hide GoodProgram, GoodExpr, Force, Apply, LoadElement;
    EvalSafe(p, fuel, l, fr, s);
    var a := Eval(p, fuel, l, fr, s);
    if a.Done? {
      EvalSafe(p, fuel, r, fr, a.store);
      var b := Eval(p, fuel, r, fr, a.store);
      if b.Done? {
        ForceSafe(a.v, fr, b.store);
        ForceSafe(b.v, fr, b.store);
        var x, y := Force(a.v, fr, b.store), Force(b.v, fr, b.store);
        if x.Ok? && y.Ok? { OperatorsSafe(if e.Binary? then e.op else Add, x.v, y.v, 0, b.store); }
      }
    }
  }

  lemma ShortSafe(p: Program, fuel: nat, e: Expr, l: Expr, r: Expr, fr: Frame, s: Store)
    requires GoodProgram(p) && GoodExpr(p, l) && GoodExpr(p, r) && (e == And(l, r) || e == Or(l, r))
    ensures Safe(Eval(p, fuel, e, fr, s))
    decreases fuel, e, 0
  {
    hide GoodProgram, GoodExpr, Force, OfBool;
    EvalSafe(p, fuel, l, fr, s);
    var a := Eval(p, fuel, l, fr, s);
    if a.Done? {
      ForceSafe(a.v, fr, a.store);
      EvalSafe(p, fuel, r, fr, a.store);
      var b := Eval(p, fuel, r, fr, a.store);
      if b.Done? { ForceSafe(b.v, fr, b.store); }
    }
  }

  lemma {:induction false} EvalArgsSafe(p: Program, fuel: nat, args: seq<Expr>, fr: Frame, s: Store)
    requires GoodProgram(p) && forall a :: a in args ==> GoodExpr(p, a)
    ensures var r := EvalArgs(p, fuel, args, fr, s);
            Safe(r) && (r.Done? ==> |r.v| == |args|)
    decreases fuel, args
  {
    hide GoodProgram, GoodExpr, Force;
    if args != [] {
      EvalSafe(p, fuel, args[0], fr, s);
      var a := Eval(p, fuel, args[0], fr, s);
      if a.Done? {
        ForceSafe(a.v, fr, a.store);
        EvalArgsSafe(p, fuel, args[1..], fr, a.store);
      }
    }
  }

  lemma CallSafe(p: Program, fuel: nat, target: string, self: int, args: seq<int>, s: Store)
    requires GoodProgram(p) && target in p.methods && |p.methods[target].sig.params| == |args|
    ensures Safe(CallMethod(p, fuel, target, self, args, s))
    decreases fuel
  {
    hide GoodStmt, GoodExpr, GoodSignature, Force, Enter;
    var m := p.methods[target];
    EnterSafe(m.sig, self, args, s);
    var e := Enter(m.sig, self, args, s);
    if e.Ok? {
      ExecAllSafe(p, fuel, m.body, e.v.0, e.v.2);
      var b := ExecAll(p, fuel, m.body, e.v.0, e.v.2);
      if b.Done? {
        EvalSafe(p, fuel, m.result, b.v, b.store);
        var r := Eval(p, fuel, m.result, b.v, b.store);
        if r.Done? { ForceSafe(r.v, b.v, r.store); }
      }
    }
  }

  lemma {:induction false} ExecSafe(p: Program, fuel: nat, t: Stmt, fr: Frame, s: Store)
    requires GoodProgram(p) && GoodStmt(p, t)
    ensures Safe(Exec(p, fuel, t, fr, s))
    decreases fuel, t
  {
    hide GoodProgram, GoodExpr, Force, StoreElement, SetVar, Eval;
    match t
    case Assign(x, e) =>
      EvalSafe(p, fuel, e, fr, s);
      var a := Eval(p, fuel, e, fr, s);
      if a.Done? {
        ForceSafe(a.v, fr, a.store);
        var n := Force(a.v, fr, a.store);
        if n.Ok? { PrimitivesSafe(x, n.v, fr, a.store); }
      }
    case ArrayAssign(x, index, e) => ArrayAssignSafe(p, fuel, x, index, e, fr, s);
    case Print(e) => TestSafe(p, fuel, e, fr, s);
    case If(c, thn) =>
      TestSafe(p, fuel, c, fr, s);
      var a := Eval(p, fuel, c, fr, s);
      if a.Done? { ExecSafe(p, fuel, thn, fr, a.store); }
    case IfElse(c, thn, els) =>
      TestSafe(p, fuel, c, fr, s);
      var a := Eval(p, fuel, c, fr, s);
      if a.Done? {
        ExecSafe(p, fuel, thn, fr, a.store);
        ExecSafe(p, fuel, els, fr, a.store);
      }
    case While(c, body) =>
      if fuel > 0 {
        TestSafe(p, fuel, c, fr, s);
        var a := Eval(p, fuel, c, fr, s);
        if a.Done? {
          ExecSafe(p, fuel, body, fr, a.store);
          var b := Exec(p, fuel, body, fr, a.store);
          if b.Done? { ExecSafe(p, fuel - 1, t, b.v, b.store); }
        }
      }
    case Block(ts) => ExecAllSafe(p, fuel, ts, fr, s);
  }

  /** An expression evaluated and read. */
  lemma TestSafe(p: Program, fuel: nat, e: Expr, fr: Frame, s: Store)
    requires GoodProgram(p) && GoodExpr(p, e)
    ensures var a := Eval(p, fuel, e, fr, s);
            Safe(a) && (a.Done? ==> Safe(Read(a.v, fr, a.store)))
    decreases fuel, e, 2
  {
    hide GoodProgram, GoodExpr, Force, Eval;
    EvalSafe(p, fuel, e, fr, s);
    var a := Eval(p, fuel, e, fr, s);
    if a.Done? { ForceSafe(a.v, fr, a.store); }
  }

  lemma ArrayAssignSafe(p: Program, fuel: nat, x: string, index: Expr, e: Expr, fr: Frame, s: Store)
    requires GoodProgram(p) && GoodExpr(p, index) && GoodExpr(p, e)
    ensures Safe(Exec(p, fuel, ArrayAssign(x, index, e), fr, s))
    decreases fuel, ArrayAssign(x, index, e), 0
  {
    hide GoodProgram, GoodExpr, Force, StoreElement, Eval;
    EvalSafe(p, fuel, index, fr, s);
    var i := Eval(p, fuel, index, fr, s);
    if i.Done? {
      EvalSafe(p, fuel, e, fr, i.store);
      var a := Eval(p, fuel, e, fr, i.store);
      if a.Done? {
        ForceSafe(Later(x), fr, a.store);
        ForceSafe(i.v, fr, a.store);
        ForceSafe(a.v, fr, a.store);
        var ref, k, n := Force(Later(x), fr, a.store), Force(i.v, fr, a.store), Force(a.v, fr, a.store);
        if ref.Ok? && k.Ok? && n.Ok? { OperatorsSafe(Add, ref.v, k.v, n.v, a.store); }
      }
    }
  }

  lemma {:induction false} ExecAllSafe(p: Program, fuel: nat, ts: seq<Stmt>, fr: Frame, s: Store)
    requires GoodProgram(p) && forall t :: t in ts ==> GoodStmt(p, t)
    ensures Safe(ExecAll(p, fuel, ts, fr, s))
    decreases fuel, ts
  {
    hide GoodProgram, GoodStmt, Exec;
    if ts != [] {
      ExecSafe(p, fuel, ts[0], fr, s);
      var r := Exec(p, fuel, ts[0], fr, s);
      if r.Done? { ExecAllSafe(p, fuel, ts[1..], r.v, r.store); }
    }
  }

  /** Source programs only fail with run-time errors of the language. */
  lemma RunSafe(p: Program, fuel: nat)
    requires GoodProgram(p)
    ensures Safe(Source.Run(p, fuel))
  {
    hide GoodStmt;
    ExecAllSafe(p, fuel, p.mainBody, FreshFrame(p.mainSig), EMPTY_STORE);
  }
}

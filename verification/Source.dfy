/** Meaning of source programs, independent of how they are compiled. As in the compiled code, an identifier
    denotes its variable until an operator, test, argument or statement reads it; fuel bounds loop iterations
    and calls, so a diverging program times out at every fuel. */
module Source {
  import opened Ast
  import opened Machine
  import opened Names

  datatype Stop = Fail(f: Fault, out: seq<int>) | Timeout(out: seq<int>)

  datatype Outcome<+T> = Done(v: T, store: Store) | Stops(why: Stop) {
    predicate IsFailure() { Stops? }
    function PropagateFailure<U>(): Outcome<U> requires Stops? { Stops(why) }
    function Extract(): (T, Store) requires Done? { (v, store) }
  }

  /** The value of an expression: a number, or a variable still to be read. */
  datatype Value = Now(n: int) | Later(x: string)

  function Lift<T>(r: Res<T>, s: Store): Outcome<T> {
    match r
    case Ok(v) => Done(v, s)
    case Err(f) => Stops(Fail(f, s.out))
  }

  function Force(v: Value, fr: Frame, s: Store): Res<int> {
    match v
    case Now(n) => Ok(n)
    case Later(x) => GetVar(x, fr, s)
  }

  function Read(v: Value, fr: Frame, s: Store): Outcome<int> {
    Lift(Force(v, fr, s), s)
  }

  function FieldTable(p: Program): map<string, set<string>> {
    (map m | m in p.methods :: p.methods[m].sig.fields)[p.mainName := p.mainSig.fields]
  }

  /** Expressions never change the frame they are evaluated in. */
  function Eval(p: Program, fuel: nat, e: Expr, fr: Frame, s: Store): Outcome<Value>
    decreases fuel, e
  {
    match e
    case IntLit(n) => Done(Now(n), s)
    case BoolLit(b) => Done(Now(OfBool(b)), s)
    case Ident(x) => Done(Later(x), s)
    case This => Done(Later("this"), s)
    case Binary(op, l, r) =>
      var (a, s1) :- Eval(p, fuel, l, fr, s);
      var (b, s2) :- Eval(p, fuel, r, fr, s1);
      var (x, _) :- Read(a, fr, s2);
      var (y, _) :- Read(b, fr, s2);
      var (n, _) :- Lift(Apply(op, x, y), s2);
      Done(Now(n), s2)
    case Not(r) =>
      var (a, s1) :- Eval(p, fuel, r, fr, s);
      var (x, _) :- Read(a, fr, s1);
      Done(Now(OfBool(x == 0)), s1)
    case And(l, r) =>
      var (a, s1) :- Eval(p, fuel, l, fr, s);
      var (x, _) :- Read(a, fr, s1);
      if x == 0 then Done(Now(0), s1)
      else
        var (b, s2) :- Eval(p, fuel, r, fr, s1);
        var (y, _) :- Read(b, fr, s2);
        Done(Now(OfBool(y != 0)), s2)
    case Or(l, r) =>
      var (a, s1) :- Eval(p, fuel, l, fr, s);
      var (x, _) :- Read(a, fr, s1);
      if x != 0 then Done(Now(1), s1)
      else
        var (b, s2) :- Eval(p, fuel, r, fr, s1);
        var (y, _) :- Read(b, fr, s2);
        Done(Now(OfBool(y != 0)), s2)
    case NewObject(c) =>
      var (ref, s1) := AllocObject(FieldTable(p), c, s);
      Done(Now(ref), s1)
    case NewArray(length) =>
      var (a, s1) :- Eval(p, fuel, length, fr, s);
      var (n, _) :- Read(a, fr, s1);
      var (ref, _) :- Lift(AllocArray(n, s1), s1);
      Done(Now(ref.0), ref.1)
    case ArrayAccess(arr, index) =>
      var (a, s1) :- Eval(p, fuel, arr, fr, s);
      var (i, s2) :- Eval(p, fuel, index, fr, s1);
      var (x, _) :- Read(a, fr, s2);
      var (y, _) :- Read(i, fr, s2);
      var (n, _) :- Lift(LoadElement(x, y, s2), s2);
      Done(Now(n), s2)
    case ArrayLength(arr) =>
      var (a, s1) :- Eval(p, fuel, arr, fr, s);
      var (x, _) :- Read(a, fr, s1);
      var (elements, _) :- Lift(ArrayAt(x, s1), s1);
      Done(Now(|elements|), s1)
    case Call(receiver, c, m, args) =>
      var (r, s1) :- Eval(p, fuel, receiver, fr, s);
      var (xs, s2) :- EvalArgs(p, fuel, args, fr, s1);
      var (self, _) :- Read(r, fr, s2);
      if fuel == 0 then Stops(Timeout(s2.out))
      else
        var (n, s3) :- CallMethod(p, fuel - 1, RootName(c, m), self, xs, s2);
        Done(Now(n), s3)
  }

  /** Arguments are read as they are evaluated, left to right; the receiver is read after them. */
  function EvalArgs(p: Program, fuel: nat, args: seq<Expr>, fr: Frame, s: Store): Outcome<seq<int>>
    decreases fuel, args
  {
    if args == [] then Done([], s)
    else
      var (a, s1) :- Eval(p, fuel, args[0], fr, s);
      var (x, _) :- Read(a, fr, s1);
      var (xs, s2) :- EvalArgs(p, fuel, args[1..], fr, s1);
      Done([x] + xs, s2)
  }

  function CallMethod(p: Program, fuel: nat, target: string, self: int, args: seq<int>, s: Store): Outcome<int>
    decreases fuel
  {
    if target !in p.methods then Stops(Fail(NoSuchMethod, s.out))
    else
      var m := p.methods[target];
      var (entry, _) :- Lift(Enter(m.sig, self, args, s), s);
      var (fr1, s1) :- ExecAll(p, fuel, m.body, entry.0, entry.2);
      var (r, s2) :- Eval(p, fuel, m.result, fr1, s1);
      Read(r, fr1, s2)
  }

  function Exec(p: Program, fuel: nat, t: Stmt, fr: Frame, s: Store): Outcome<Frame>
    decreases fuel, t
  {
    match t
    case Assign(x, e) =>
      var (a, s1) :- Eval(p, fuel, e, fr, s);
      var (n, _) :- Read(a, fr, s1);
      var (w, _) :- Lift(SetVar(x, n, fr, s1), s1);
      Done(w.0, w.1)
    case ArrayAssign(x, index, e) =>
      var (i, s1) :- Eval(p, fuel, index, fr, s);
      var (a, s2) :- Eval(p, fuel, e, fr, s1);
      var (ref, _) :- Read(Later(x), fr, s2);
      var (k, _) :- Read(i, fr, s2);
      var (n, _) :- Read(a, fr, s2);
      var (s3, _) :- Lift(StoreElement(ref, k, n, s2), s2);
      Done(fr, s3)
    case Print(e) =>
      var (a, s1) :- Eval(p, fuel, e, fr, s);
      var (n, _) :- Read(a, fr, s1);
      Done(fr, s1.(out := s1.out + [n]))
    case If(c, thn) =>
      var (a, s1) :- Eval(p, fuel, c, fr, s);
      var (n, _) :- Read(a, fr, s1);
      if n == 0 then Done(fr, s1) else Exec(p, fuel, thn, fr, s1)
    case IfElse(c, thn, els) =>
      var (a, s1) :- Eval(p, fuel, c, fr, s);
      var (n, _) :- Read(a, fr, s1);
      if n == 0 then Exec(p, fuel, els, fr, s1) else Exec(p, fuel, thn, fr, s1)
    case While(c, body) =>
      if fuel == 0 then Stops(Timeout(s.out))
      else
        var (a, s1) :- Eval(p, fuel, c, fr, s);
        var (n, _) :- Read(a, fr, s1);
        if n == 0 then Done(fr, s1)
        else
          var (fr2, s2) :- Exec(p, fuel, body, fr, s1);
          Exec(p, fuel - 1, t, fr2, s2)
    case Block(stmts) => ExecAll(p, fuel, stmts, fr, s)
  }

  function ExecAll(p: Program, fuel: nat, ts: seq<Stmt>, fr: Frame, s: Store): Outcome<Frame>
    decreases fuel, ts
  {
    if ts == [] then Done(fr, s)
    else
      var (fr1, s1) :- Exec(p, fuel, ts[0], fr, s);
      ExecAll(p, fuel, ts[1..], fr1, s1)
  }

  const EMPTY_STORE := Store([], [], [])

  function Run(p: Program, fuel: nat): Outcome<Frame> {
    ExecAll(p, fuel, p.mainBody, FreshFrame(p.mainSig), EMPTY_STORE)
  }

  // ----- what lexing and type checking guarantee -----

  /** Identifiers come from the lexer, and every call names a method of the program with its number of
      parameters. */
  ghost predicate GoodExpr(p: Program, e: Expr) {
    match e
    case IntLit(n) => InInt(n)
    case BoolLit(_) => true
    case Ident(x) => !Generated(x)
    case This => true
    case Binary(_, l, r) => GoodExpr(p, l) && GoodExpr(p, r)
    case Not(x) => GoodExpr(p, x)
    case And(l, r) => GoodExpr(p, l) && GoodExpr(p, r)
    case Or(l, r) => GoodExpr(p, l) && GoodExpr(p, r)
    case NewObject(_) => true
    case NewArray(n) => GoodExpr(p, n)
    case ArrayAccess(a, i) => GoodExpr(p, a) && GoodExpr(p, i)
    case ArrayLength(a) => GoodExpr(p, a)
    case Call(r, c, m, args) =>
      && GoodExpr(p, r)
      && (forall a | a in args :: GoodExpr(p, a))
      && RootName(c, m) in p.methods
      && |p.methods[RootName(c, m)].sig.params| == |args|
  }

  ghost predicate GoodStmt(p: Program, t: Stmt) {
    match t
    case Assign(x, e) => !Generated(x) && x != "this" && GoodExpr(p, e)
    case ArrayAssign(x, i, e) => !Generated(x) && GoodExpr(p, i) && GoodExpr(p, e)
    case Print(e) => GoodExpr(p, e)
    case If(c, t) => GoodExpr(p, c) && GoodStmt(p, t)
    case IfElse(c, t, f) => GoodExpr(p, c) && GoodStmt(p, t) && GoodStmt(p, f)
    case While(c, b) => GoodExpr(p, c) && GoodStmt(p, b)
    case Block(ts) => forall t | t in ts :: GoodStmt(p, t)
  }

  ghost predicate GoodSignature(sig: Signature) {
    && (forall x | x in sig.params :: !Generated(x))
    && (forall x | x in sig.locals :: !Generated(x))
  }

  predicate IsRoot(name: string) {
    '.' in name
  }

  ghost predicate GoodProgram(p: Program) {
    && IsRoot(p.mainName) && p.mainName !in p.methods
    && GoodSignature(p.mainSig) && p.mainSig.params == []
    && (forall t | t in p.mainBody :: GoodStmt(p, t))
    && Distinct(p.order) && (forall m :: m in p.order <==> m in p.methods)
    && forall m | m in p.methods ::
         && IsRoot(m)
         && GoodSignature(p.methods[m].sig)
         && (forall t | t in p.methods[m].body :: GoodStmt(p, t))
         && GoodExpr(p, p.methods[m].result)
  }
}

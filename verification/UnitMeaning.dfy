/** The meaning of a checked unit, on its parse trees: what each operator, literal and statement does, which method a call
    runs and which fields an object has, with no abstract syntax in between. Variables are read at once, as section 15.7.1
    of the Java Language Specification has it, or late, where their value is used, as the compiled code does. */
module UnitMeaning {
  import A = Ast
  import EagerReads
  import Rules = TypingRules
  import opened Machine
  import opened Names
  import P = Parsing
  import opened TypeChecking
  import opened TypedStores
  import opened Source

  datatype Order = Late | AtOnce

  /** A digit string read from the left. */
  function DecimalValue(digits: string, before: nat): nat {
    if digits == "" then before
    else DecimalValue(digits[1..], 10 * before + if '0' <= digits[0] <= '9' then digits[0] as int - '0' as int else 0)
  }

  function Operate(op: P.Operator, x: int, y: int): Res<int> {
    match op
    case Add => Ok(x + y)
    case Subtract => Ok(x - y)
    case Multiply => Ok(x * y)
    case Divide => if y == 0 then Err(DivideByZero) else Ok(TruncDiv(x, y))
    case Less => Ok(if x < y then 1 else 0)
    case Greater => Ok(if x > y then 1 else 0)
    case Equal => Ok(if x == y then 1 else 0)
    case And => Ok(if x != 0 && y != 0 then 1 else 0)
    case Or => Ok(if x != 0 || y != 0 then 1 else 0)
  }

  /** The operators that may leave their right operand alone, and the value of the left one that decides. */
  predicate Decided(op: P.Operator, x: int) {
    (op.And? && x == 0) || (op.Or? && x != 0)
  }

  function Variable(o: Order, x: string, fr: Frame, s: Store): Outcome<Value> {
    match o
    case Late => Done(Later(x), s)
    case AtOnce =>
      var (n, _) :- Lift(GetVar(x, fr, s), s);
      Done(Now(n), s)
  }

  /** The fields of a class, wherever in the unit the class is met. */
  function FieldsOf(u: Unit, c: string): set<string> {
    (if c == u.mainClass then u.mainFields.Keys else {}) + (set d, f | d in u.methods && d.className == c && f in d.fields.Keys :: f) - {"this"}
  }

  predicate Declares(u: Unit, d: MethodDecl, c: string, m: string) {
    d in u.methods && d.className == c && d.name == m
  }

  /** The type of a receiver by the typing rules. */
  ghost function StaticClass(env: Env, e: P.Tree): string {
    if Rules.Typable(env, e) then
      var t :| Rules.HasType(env, e, t);
      t
    else ""
  }

  /** Expressions change no frame. Fuel bounds loop iterations and calls. */
  ghost function Evaluate(o: Order, w: Setting, env: Env, fuel: nat, e: P.Tree, fr: Frame, s: Store): Outcome<Value>
    decreases fuel, e
  {
    match e
    case Integer(digits) => Done(Now(DecimalValue(digits, 0)), s)
    case True => Done(Now(1), s)
    case False => Done(Now(0), s)
    case Name(x) => Variable(o, x, fr, s)
    case This => Variable(o, "this", fr, s)
    case Infix(op, l, r) =>
      if op.And? || op.Or? then
        var (a, s1) :- Evaluate(o, w, env, fuel, l, fr, s);
        var (x, _) :- Read(a, fr, s1);
        if Decided(op, x) then Done(Now(if op.And? then 0 else 1), s1)
        else
          var (b, s2) :- Evaluate(o, w, env, fuel, r, fr, s1);
          var (y, _) :- Read(b, fr, s2);
          Done(Now(if y == 0 then 0 else 1), s2)
      else
        var (a, s1) :- Evaluate(o, w, env, fuel, l, fr, s);
        var (b, s2) :- Evaluate(o, w, env, fuel, r, fr, s1);
        var (x, _) :- Read(a, fr, s2);
        var (y, _) :- Read(b, fr, s2);
        var (n, _) :- Lift(Operate(op, x, y), s2);
        Done(Now(n), s2)
    case Not(r) =>
      var (a, s1) :- Evaluate(o, w, env, fuel, r, fr, s);
      var (x, _) :- Read(a, fr, s1);
      Done(Now(if x == 0 then 1 else 0), s1)
    case NewObject(c) =>
      var fields := map f | f in FieldsOf(w.u, c) :: 0;
      Done(Now(|s.objects| + 1), s.(objects := s.objects + [Obj(c, fields)]))
    case NewArray(length) =>
      var (a, s1) :- Evaluate(o, w, env, fuel, length, fr, s);
      var (n, _) :- Read(a, fr, s1);
      var (ref, _) :- Lift(AllocArray(n, s1), s1);
      Done(Now(ref.0), ref.1)
    case Index(arr, index) =>
      var (a, s1) :- Evaluate(o, w, env, fuel, arr, fr, s);
      var (i, s2) :- Evaluate(o, w, env, fuel, index, fr, s1);
      var (x, _) :- Read(a, fr, s2);
      var (y, _) :- Read(i, fr, s2);
      var (n, _) :- Lift(LoadElement(x, y, s2), s2);
      Done(Now(n), s2)
    case Length(arr) =>
      var (a, s1) :- Evaluate(o, w, env, fuel, arr, fr, s);
      var (x, _) :- Read(a, fr, s1);
      var (elements, _) :- Lift(ArrayAt(x, s1), s1);
      Done(Now(|elements|), s1)
    case Call(receiver, m, args) =>
      var (r, s1) :- Evaluate(o, w, env, fuel, receiver, fr, s);
      var (xs, s2) :- EvaluateArgs(o, w, env, fuel, args, fr, s1);
      var (self, _) :- Read(r, fr, s2);
      if fuel == 0 then Stops(Timeout(s2.out))
      else
        var (n, s3) :- Perform(o, w, fuel - 1, StaticClass(env, receiver), m, self, xs, s2);
        Done(Now(n), s3)
  }

  /** Arguments are read one after the other. */
  ghost function EvaluateArgs(o: Order, w: Setting, env: Env, fuel: nat, args: seq<P.Tree>, fr: Frame, s: Store): Outcome<seq<int>>
    decreases fuel, args
  {
    if args == [] then Done([], s)
    else
      var (a, s1) :- Evaluate(o, w, env, fuel, args[0], fr, s);
      var (x, _) :- Read(a, fr, s1);
      var (xs, s2) :- EvaluateArgs(o, w, env, fuel, args[1..], fr, s1);
      Done([x] + xs, s2)
  }

  /** The method named m of class c: the receiver and the arguments are bound, the body is executed, and the result is
      evaluated where it ends. */
  ghost function Perform(o: Order, w: Setting, fuel: nat, c: string, m: string, self: int, args: seq<int>, s: Store): Outcome<int>
    decreases fuel
  {
    if !exists d :: Declares(w.u, d, c, m) then Stops(Fail(NoSuchMethod, s.out))
    else
      var d :| Declares(w.u, d, c, m);
      var env := EnvIn(w.classes, d);
      var (entry, _) :- Lift(Enter(A.Signature(d.params, d.locals.Keys, d.fields.Keys), self, args, s), s);
      var (fr1, s1) :- ExecuteAll(o, w, env, fuel, d.body, entry.0, entry.2);
      var (r, s2) :- Evaluate(o, w, env, fuel, d.result, fr1, s1);
      Read(r, fr1, s2)
  }

  ghost function Execute(o: Order, w: Setting, env: Env, fuel: nat, t: TreeStmt, fr: Frame, s: Store): Outcome<Frame>
    decreases fuel, t
  {
    match t
    case Declare(_, _) => Done(fr, s)
    case Assign(x, e) =>
      var (a, s1) :- Evaluate(o, w, env, fuel, e, fr, s);
      var (n, _) :- Read(a, fr, s1);
      var (changed, _) :- Lift(SetVar(x, n, fr, s1), s1);
      Done(changed.0, changed.1)
    case ArrayAssign(x, index, e) =>
      var (arr, _) :- Variable(o, x, fr, s);
      var (i, s1) :- Evaluate(o, w, env, fuel, index, fr, s);
      var (a, s2) :- Evaluate(o, w, env, fuel, e, fr, s1);
      var (ref, _) :- Read(arr, fr, s2);
      var (k, _) :- Read(i, fr, s2);
      var (n, _) :- Read(a, fr, s2);
      var (s3, _) :- Lift(StoreElement(ref, k, n, s2), s2);
      Done(fr, s3)
    case Print(e) =>
      var (a, s1) :- Evaluate(o, w, env, fuel, e, fr, s);
      var (n, _) :- Read(a, fr, s1);
      Done(fr, s1.(out := s1.out + [n]))
    case If(c, thn) =>
      var (a, s1) :- Evaluate(o, w, env, fuel, c, fr, s);
      var (n, _) :- Read(a, fr, s1);
      if n != 0 then Execute(o, w, env, fuel, thn, fr, s1) else Done(fr, s1)
    case IfElse(c, thn, els) =>
      var (a, s1) :- Evaluate(o, w, env, fuel, c, fr, s);
      var (n, _) :- Read(a, fr, s1);
      if n != 0 then Execute(o, w, env, fuel, thn, fr, s1) else Execute(o, w, env, fuel, els, fr, s1)
    case While(c, body) =>
      if fuel == 0 then Stops(Timeout(s.out))
      else
        var (a, s1) :- Evaluate(o, w, env, fuel, c, fr, s);
        var (n, _) :- Read(a, fr, s1);
        if n != 0 then
          var (fr2, s2) :- Execute(o, w, env, fuel, body, fr, s1);
          Execute(o, w, env, fuel - 1, t, fr2, s2)
        else Done(fr, s1)
    case Block(ts) => ExecuteAll(o, w, env, fuel, ts, fr, s)
  }

  ghost function ExecuteAll(o: Order, w: Setting, env: Env, fuel: nat, ts: seq<TreeStmt>, fr: Frame, s: Store): Outcome<Frame>
    decreases fuel, ts
  {
    if ts == [] then Done(fr, s)
    else
      var (fr1, s1) :- Execute(o, w, env, fuel, ts[0], fr, s);
      ExecuteAll(o, w, env, fuel, ts[1..], fr1, s1)
  }

  ghost function UnitRun(o: Order, w: Setting, fuel: nat): Outcome<Frame> {
    var locals := map x | x in w.u.mainLocals.Keys :: 0;
    ExecuteAll(o, w, EnvAt(w, MainPlace(w.u)), fuel, w.u.mainBody, Frame(locals, w.u.mainFields.Keys, 0), Store([], [], []))
  }

  // ----- the compiled program means the same -----

  lemma {:induction false} DecimalOne(digits: string, before: nat)
    requires digits != ""
    ensures var n := |digits| - 1;
            DecimalValue(digits, before) == 10 * DecimalValue(digits[..n], before) + if '0' <= digits[n] <= '9' then digits[n] as int - '0' as int else 0
    decreases |digits|
  {
    var n := |digits| - 1;
    if n > 0 {
      DecimalOne(digits[1..], 10 * before + if '0' <= digits[0] <= '9' then digits[0] as int - '0' as int else 0);
      assert digits[1..][..n - 1] == digits[..n][1..];
    }
  }

  /** The literal that generation gets is the digit string read from the left. */
  lemma {:induction false} LiteralMeaning(digits: string)
    ensures NumberOf(digits) == DecimalValue(digits, 0)
    decreases |digits|
  {
    if digits != "" {
      LiteralMeaning(digits[..|digits| - 1]);
      DecimalOne(digits, 0);
    }
  }

  lemma OperatorMeaning(op: P.Operator, x: int, y: int)
    requires !op.And? && !op.Or?
    ensures AstOperator(op).Some? && Operate(op, x, y) == Apply(AstOperator(op).value, x, y)
  {
  }

  /** What a unit and the scope of an expression must satisfy. */
  ghost predicate Fit(w: Setting, env: Env) {
    WellDeclared(w.classes, w.u) && CheckUnit(w.classes, w.u).errors == 0 && Declared(env) && env.classes == w.classes
  }

  predicate FineExpr(env: Env, e: P.Tree) {
    Lexed(e) && CheckExpr(env, e).errors == 0
  }

  function AsValue(r: Outcome<int>): Outcome<Value> {
    match r
    case Done(n, s) => Done(Now(n), s)
    case Stops(why) => Stops(why)
  }

  /** The program that generation gets, read late or at once. */
  function Compiled(o: Order, p: A.Program, fuel: nat, e: A.Expr, fr: Frame, s: Store): Outcome<Value> {
    match o
    case Late => Eval(p, fuel, e, fr, s)
    case AtOnce => AsValue(EagerReads.Eager(p, fuel, e, fr, s))
  }

  function CompiledArgs(o: Order, p: A.Program, fuel: nat, args: seq<A.Expr>, fr: Frame, s: Store): Outcome<seq<int>> {
    match o
    case Late => EvalArgs(p, fuel, args, fr, s)
    case AtOnce => EagerReads.EagerArgs(p, fuel, args, fr, s)
  }

  function CompiledCall(o: Order, p: A.Program, fuel: nat, target: string, self: int, args: seq<int>, s: Store): Outcome<int> {
    match o
    case Late => CallMethod(p, fuel, target, self, args, s)
    case AtOnce => EagerReads.EagerCall(p, fuel, target, self, args, s)
  }

  function CompiledExec(o: Order, p: A.Program, fuel: nat, t: A.Stmt, fr: Frame, s: Store): Outcome<Frame> {
    match o
    case Late => Exec(p, fuel, t, fr, s)
    case AtOnce => EagerReads.EagerExec(p, fuel, t, fr, s)
  }

  function CompiledAll(o: Order, p: A.Program, fuel: nat, ts: seq<A.Stmt>, fr: Frame, s: Store): Outcome<Frame> {
    match o
    case Late => ExecAll(p, fuel, ts, fr, s)
    case AtOnce => EagerReads.EagerAll(p, fuel, ts, fr, s)
  }

  lemma CompiledBinary(o: Order, p: A.Program, fuel: nat, op: A.BinaryOp, l: A.Expr, r: A.Expr, fr: Frame, s: Store)
    ensures Compiled(o, p, fuel, A.Binary(op, l, r), fr, s) == (
              var (a, s1) :- Compiled(o, p, fuel, l, fr, s);
              var (b, s2) :- Compiled(o, p, fuel, r, fr, s1);
              var (x, _) :- Read(a, fr, s2);
              var (y, _) :- Read(b, fr, s2);
              var (n, _) :- Lift(Apply(op, x, y), s2);
              Done(Now(n), s2))
  {
    hide Apply, GetVar;
  }

  lemma CompiledAnd(o: Order, p: A.Program, fuel: nat, l: A.Expr, r: A.Expr, fr: Frame, s: Store)
    ensures Compiled(o, p, fuel, A.And(l, r), fr, s) == (
              var (a, s1) :- Compiled(o, p, fuel, l, fr, s);
              var (x, _) :- Read(a, fr, s1);
              if x == 0 then Done(Now(0), s1)
              else
                var (b, s2) :- Compiled(o, p, fuel, r, fr, s1);
                var (y, _) :- Read(b, fr, s2);
                Done(Now(OfBool(y != 0)), s2))
  {
    hide OfBool, GetVar;
  }

  lemma CompiledOr(o: Order, p: A.Program, fuel: nat, l: A.Expr, r: A.Expr, fr: Frame, s: Store)
    ensures Compiled(o, p, fuel, A.Or(l, r), fr, s) == (
              var (a, s1) :- Compiled(o, p, fuel, l, fr, s);
              var (x, _) :- Read(a, fr, s1);
              if x != 0 then Done(Now(1), s1)
              else
                var (b, s2) :- Compiled(o, p, fuel, r, fr, s1);
                var (y, _) :- Read(b, fr, s2);
                Done(Now(OfBool(y != 0)), s2))
  {
    hide OfBool, GetVar;
  }

  lemma CompiledNot(o: Order, p: A.Program, fuel: nat, r: A.Expr, fr: Frame, s: Store)
    ensures Compiled(o, p, fuel, A.Not(r), fr, s) == (
              var (a, s1) :- Compiled(o, p, fuel, r, fr, s);
              var (x, _) :- Read(a, fr, s1);
              Done(Now(OfBool(x == 0)), s1))
  {
    hide OfBool, GetVar;
  }

  lemma CompiledNewArray(o: Order, p: A.Program, fuel: nat, r: A.Expr, fr: Frame, s: Store)
    ensures Compiled(o, p, fuel, A.NewArray(r), fr, s) == (
              var (a, s1) :- Compiled(o, p, fuel, r, fr, s);
              var (n, _) :- Read(a, fr, s1);
              var (ref, _) :- Lift(AllocArray(n, s1), s1);
              Done(Now(ref.0), ref.1))
  {
    hide AllocArray, GetVar;
  }

  lemma CompiledLength(o: Order, p: A.Program, fuel: nat, r: A.Expr, fr: Frame, s: Store)
    ensures Compiled(o, p, fuel, A.ArrayLength(r), fr, s) == (
              var (a, s1) :- Compiled(o, p, fuel, r, fr, s);
              var (x, _) :- Read(a, fr, s1);
              var (elements, _) :- Lift(ArrayAt(x, s1), s1);
              Done(Now(|elements|), s1))
  {
    hide ArrayAt, GetVar;
  }

  lemma CompiledAccess(o: Order, p: A.Program, fuel: nat, l: A.Expr, r: A.Expr, fr: Frame, s: Store)
    ensures Compiled(o, p, fuel, A.ArrayAccess(l, r), fr, s) == (
              var (a, s1) :- Compiled(o, p, fuel, l, fr, s);
              var (b, s2) :- Compiled(o, p, fuel, r, fr, s1);
              var (x, _) :- Read(a, fr, s2);
              var (y, _) :- Read(b, fr, s2);
              var (n, _) :- Lift(LoadElement(x, y, s2), s2);
              Done(Now(n), s2))
  {
    hide LoadElement, GetVar;
  }

  lemma CompiledInvoke(o: Order, p: A.Program, fuel: nat, r: A.Expr, c: string, m: string, args: seq<A.Expr>, fr: Frame, s: Store)
    ensures Compiled(o, p, fuel, A.Call(r, c, m, args), fr, s) == (
              var (a, s1) :- Compiled(o, p, fuel, r, fr, s);
              var (xs, s2) :- CompiledArgs(o, p, fuel, args, fr, s1);
              var (self, _) :- Read(a, fr, s2);
              if fuel == 0 then Stops(Timeout(s2.out))
              else
                var (n, s3) :- CompiledCall(o, p, fuel - 1, RootName(c, m), self, xs, s2);
                Done(Now(n), s3))
  {
    hide RootName, GetVar, EagerReads.EagerCall, CallMethod, EvalArgs, EagerReads.EagerArgs;
  }

  lemma CompiledArgsNext(o: Order, p: A.Program, fuel: nat, args: seq<A.Expr>, fr: Frame, s: Store)
    ensures CompiledArgs(o, p, fuel, args, fr, s) == (
              if args == [] then Done([], s)
              else
                var (a, s1) :- Compiled(o, p, fuel, args[0], fr, s);
                var (x, _) :- Read(a, fr, s1);
                var (xs, s2) :- CompiledArgs(o, p, fuel, args[1..], fr, s1);
                Done([x] + xs, s2))
  {
    hide GetVar, Eval, EagerReads.Eager;
  }

  lemma CompiledEntry(o: Order, p: A.Program, fuel: nat, target: string, self: int, args: seq<int>, s: Store)
    requires target in p.methods
    ensures CompiledCall(o, p, fuel, target, self, args, s) == (
              var m := p.methods[target];
              var (entry, _) :- Lift(Enter(m.sig, self, args, s), s);
              var (fr1, s1) :- CompiledAll(o, p, fuel, m.body, entry.0, entry.2);
              var (r, s2) :- Compiled(o, p, fuel, m.result, fr1, s1);
              Read(r, fr1, s2))
  {
    hide GetVar, Eval, EagerReads.Eager, Enter, ExecAll, EagerReads.EagerAll;
  }

  lemma CompiledAssign(o: Order, p: A.Program, fuel: nat, x: string, e: A.Expr, fr: Frame, s: Store)
    ensures CompiledExec(o, p, fuel, A.Assign(x, e), fr, s) == (
              var (a, s1) :- Compiled(o, p, fuel, e, fr, s);
              var (n, _) :- Read(a, fr, s1);
              var (w, _) :- Lift(SetVar(x, n, fr, s1), s1);
              Done(w.0, w.1))
  {
    hide GetVar, SetVar, Eval, EagerReads.Eager;
  }

  lemma CompiledArrayAssign(o: Order, p: A.Program, fuel: nat, x: string, index: A.Expr, e: A.Expr, fr: Frame, s: Store)
    ensures CompiledExec(o, p, fuel, A.ArrayAssign(x, index, e), fr, s) == (
              var (arr, _) :- Variable(o, x, fr, s);
              var (i, s1) :- Compiled(o, p, fuel, index, fr, s);
              var (a, s2) :- Compiled(o, p, fuel, e, fr, s1);
              var (ref, _) :- Read(arr, fr, s2);
              var (k, _) :- Read(i, fr, s2);
              var (n, _) :- Read(a, fr, s2);
              var (s3, _) :- Lift(StoreElement(ref, k, n, s2), s2);
              Done(fr, s3))
  {
    hide GetVar, StoreElement, Eval, EagerReads.Eager;
  }

  lemma CompiledPrint(o: Order, p: A.Program, fuel: nat, e: A.Expr, fr: Frame, s: Store)
    ensures CompiledExec(o, p, fuel, A.Print(e), fr, s) == (
              var (a, s1) :- Compiled(o, p, fuel, e, fr, s);
              var (n, _) :- Read(a, fr, s1);
              Done(fr, s1.(out := s1.out + [n])))
  {
    hide GetVar, Eval, EagerReads.Eager;
  }

  lemma CompiledIf(o: Order, p: A.Program, fuel: nat, c: A.Expr, thn: A.Stmt, fr: Frame, s: Store)
    ensures CompiledExec(o, p, fuel, A.If(c, thn), fr, s) == (
              var (a, s1) :- Compiled(o, p, fuel, c, fr, s);
              var (n, _) :- Read(a, fr, s1);
              if n != 0 then CompiledExec(o, p, fuel, thn, fr, s1) else Done(fr, s1))
  {
    hide GetVar, Eval, EagerReads.Eager;
  }

  lemma CompiledIfElse(o: Order, p: A.Program, fuel: nat, c: A.Expr, thn: A.Stmt, els: A.Stmt, fr: Frame, s: Store)
    ensures CompiledExec(o, p, fuel, A.IfElse(c, thn, els), fr, s) == (
              var (a, s1) :- Compiled(o, p, fuel, c, fr, s);
              var (n, _) :- Read(a, fr, s1);
              if n != 0 then CompiledExec(o, p, fuel, thn, fr, s1) else CompiledExec(o, p, fuel, els, fr, s1))
  {
    hide GetVar, Eval, EagerReads.Eager;
  }

  lemma CompiledWhile(o: Order, p: A.Program, fuel: nat, c: A.Expr, body: A.Stmt, fr: Frame, s: Store)
    ensures CompiledExec(o, p, fuel, A.While(c, body), fr, s) == (
              if fuel == 0 then Stops(Timeout(s.out))
              else
                var (a, s1) :- Compiled(o, p, fuel, c, fr, s);
                var (n, _) :- Read(a, fr, s1);
                if n != 0 then
                  var (fr2, s2) :- CompiledExec(o, p, fuel, body, fr, s1);
                  CompiledExec(o, p, fuel - 1, A.While(c, body), fr2, s2)
                else Done(fr, s1))
  {
    hide GetVar, Eval, EagerReads.Eager;
  }

  lemma CompiledNext(o: Order, p: A.Program, fuel: nat, ts: seq<A.Stmt>, fr: Frame, s: Store)
    ensures CompiledAll(o, p, fuel, ts, fr, s) == (
              if ts == [] then Done(fr, s)
              else
                var (fr1, s1) :- CompiledExec(o, p, fuel, ts[0], fr, s);
                CompiledAll(o, p, fuel, ts[1..], fr1, s1))
    ensures CompiledExec(o, p, fuel, A.Block(ts), fr, s) == CompiledAll(o, p, fuel, ts, fr, s)
  {
    hide GetVar, Eval, EagerReads.Eager;
  }

  // ----- what is looked up -----

  /** ft holds the fields of main under its root, those of each method under its own, and nothing else. */
  ghost predicate Tables(u: Unit, ft: map<string, set<string>>) {
    && RootName(u.mainClass, "main") in ft && ft[RootName(u.mainClass, "main")] == u.mainFields.Keys
    && (forall d :: d in u.methods ==> RootOf(d) in ft && ft[RootOf(d)] == d.fields.Keys)
    && forall m :: m in ft && m != RootName(u.mainClass, "main") ==> exists d :: d in u.methods && RootOf(d) == m
  }

  lemma TableOf(w: Setting)
    requires WellDeclared(w.classes, w.u)
    ensures Tables(w.u, FieldTable(TypedUnit(w.classes, w.u)))
  {
    hide WellDeclared, TypedMethods, TypedStmts, Typed, RootOf, RootName;
    MethodsByRoot(w);
    RootsApart(w);
    var p := TypedUnit(w.classes, w.u);
    assert p.methods == TypedMethods(w.classes, w.u.methods) && p.mainName == RootName(w.u.mainClass, "main");
  }

  /** The machine gives an object the fields of its class. */
  lemma ClassFieldsMeaning(w: Setting, c: string)
    requires WellDeclared(w.classes, w.u)
    ensures ClassFields(FieldTable(TypedUnit(w.classes, w.u)), c) == FieldsOf(w.u, c)
  {
    hide TypedUnit, WellDeclared, ClassOf, FieldTable, RootOf, RootName;
    TableOf(w);
    NoDots(w);
    var ft := FieldTable(TypedUnit(w.classes, w.u));
    TabledFields(w.u, ft, c);
  }

  lemma TabledFields(u: Unit, ft: map<string, set<string>>, c: string)
    requires Tables(u, ft) && ClassOf(RootName(u.mainClass, "main")) == u.mainClass
    requires forall d :: d in u.methods ==> ClassOf(RootOf(d)) == d.className
    ensures ClassFields(ft, c) == FieldsOf(u, c)
  {
    hide ClassOf, RootOf, RootName;
    forall f | f in ClassFields(ft, c)
      ensures f in FieldsOf(u, c)
    {
      var m :| m in ft && f in ft[m] && ClassOf(m) == c && f != "this";
      if m != RootName(u.mainClass, "main") {
        var d :| d in u.methods && RootOf(d) == m;
        assert d.className == c && f in d.fields.Keys;
      }
    }
    forall f | f in FieldsOf(u, c)
      ensures f in ClassFields(ft, c)
    {
      if c == u.mainClass && f in u.mainFields.Keys {
        assert f in ft[RootName(u.mainClass, "main")];
      } else {
        var d :| d in u.methods && d.className == c && f in d.fields.Keys;
        assert f in ft[RootOf(d)];
      }
    }
  }

  /** A method that a class declares is the one that generation has under its root. */
  lemma MethodMeaning(w: Setting, d: MethodDecl, c: string, m: string)
    requires WellDeclared(w.classes, w.u) && Declares(w.u, d, c, m)
    ensures var p := TypedUnit(w.classes, w.u); RootName(c, m) in p.methods && p.methods[RootName(c, m)] == TypedMethod(w.classes, d)
  {
    hide LexedMethod, LexedStmt, Declared, Lexed, TypedMethods, TypedMethod;
    MethodsByRoot(w);
  }

  lemma ReceiverMeaning(w: Setting, env: Env, receiver: P.Tree, m: string, args: seq<P.Tree>)
    requires Fit(w, env) && FineExpr(env, P.Call(receiver, m, args))
    ensures StaticClass(env, receiver) == CheckExpr(env, receiver).name
    ensures exists d :: Declares(w.u, d, StaticClass(env, receiver), m)
    ensures FineExpr(env, receiver) && CheckArgs(env, args).1 == 0
  {
    hide CheckExpr, CheckArgs, Rules.HasType, LexedMethod, LexedStmt, Declared, CheckUnit;
    CallParts(w, env, receiver, m, args);
    Rules.TypableExactly(env, receiver);
    ErrorsExactly(env, receiver);
    var t :| Rules.HasType(env, receiver, t) && t == StaticClass(env, receiver);
    Rules.OneType(env, receiver, t, CheckExpr(env, receiver).name);
    var d :| d in w.u.methods && d.className == t && d.name == m && d.info == w.classes[t][m];
    assert Declares(w.u, d, t, m);
  }

  lemma CallParts(w: Setting, env: Env, receiver: P.Tree, m: string, args: seq<P.Tree>)
    requires Fit(w, env) && FineExpr(env, P.Call(receiver, m, args))
    ensures CheckExpr(env, receiver).errors == 0 && CheckArgs(env, args).1 == 0 && m != "main"
    ensures var c := CheckExpr(env, receiver).name; c in env.classes && m in env.classes[c]
  {
    hide CheckArgs, CheckExpr, WellDeclared, Declared, CheckUnit, Mismatches;
    Rules.CallIs(env, receiver, m, args);
    ErrorsExactly(env, receiver);
  }

  // ----- expressions -----

  lemma InfixParts(env: Env, op: P.Operator, l: P.Tree, r: P.Tree)
    requires FineExpr(env, P.Infix(op, l, r))
    ensures FineExpr(env, l) && FineExpr(env, r)
  {
    Rules.InfixOwn(env, op, l, r);
  }

  lemma IndexParts(env: Env, l: P.Tree, r: P.Tree)
    requires FineExpr(env, P.Index(l, r))
    ensures FineExpr(env, l) && FineExpr(env, r)
  {
    Rules.IndexOwn(env, l, r);
  }

  lemma UnaryParts(env: Env, e: P.Tree)
    requires Rules.IsUnary(e) && FineExpr(env, e)
    ensures FineExpr(env, Rules.Operand(e))
  {
    Rules.UnaryOwn(env, e);
  }

  /** Evaluating a checked expression is evaluating what generation gets for it. */
  lemma {:induction false} ExprMeaning(o: Order, w: Setting, env: Env, fuel: nat, e: P.Tree, fr: Frame, s: Store)
    requires Fit(w, env) && FineExpr(env, e)
    ensures Evaluate(o, w, env, fuel, e, fr, s) == Compiled(o, TypedUnit(w.classes, w.u), fuel, Typed(env, e), fr, s)
    decreases fuel, e, 1
  {
    hide Fit, FineExpr, TypedUnit, Compiled, Evaluate, Typed;
    match e
    case Infix(op, l, r) =>
      InfixParts(env, op, l, r);
      if op.And? { AndMeaning(o, w, env, fuel, l, r, fr, s); }
      else if op.Or? { OrMeaning(o, w, env, fuel, l, r, fr, s); }
      else { BinaryMeaning(o, w, env, fuel, op, l, r, fr, s); }
    case Not(r) => NotMeaning(o, w, env, fuel, r, fr, s);
    case NewArray(r) => NewArrayMeaning(o, w, env, fuel, r, fr, s);
    case Index(l, r) =>
      IndexParts(env, l, r);
      IndexMeaning(o, w, env, fuel, l, r, fr, s);
    case Length(r) => LengthMeaning(o, w, env, fuel, r, fr, s);
    case Call(r, m, args) => CallMeaning(o, w, env, fuel, r, m, args, fr, s);
    case _ => LeafMeaning(o, w, env, fuel, e, fr, s);
  }

  lemma LeafMeaning(o: Order, w: Setting, env: Env, fuel: nat, e: P.Tree, fr: Frame, s: Store)
    requires Fit(w, env) && (e.Integer? || e.True? || e.False? || e.Name? || e.This? || e.NewObject?)
    ensures Evaluate(o, w, env, fuel, e, fr, s) == Compiled(o, TypedUnit(w.classes, w.u), fuel, Typed(env, e), fr, s)
  {
    hide GetVar, WellDeclared, CheckUnit, ClassFields, FieldsOf, FieldTable, TypedUnit;
    if e.Integer? { LiteralMeaning(e.lexeme); }
    if e.NewObject? { ClassFieldsMeaning(w, e.className); }
  }

  lemma InfixIs(o: Order, w: Setting, env: Env, fuel: nat, op: P.Operator, l: P.Tree, r: P.Tree, fr: Frame, s: Store)
    requires !op.And? && !op.Or?
    ensures Evaluate(o, w, env, fuel, P.Infix(op, l, r), fr, s) == (
              var (a, s1) :- Evaluate(o, w, env, fuel, l, fr, s);
              var (b, s2) :- Evaluate(o, w, env, fuel, r, fr, s1);
              var (x, _) :- Read(a, fr, s2);
              var (y, _) :- Read(b, fr, s2);
              var (n, _) :- Lift(Operate(op, x, y), s2);
              Done(Now(n), s2))
  {
    hide Operate, Read;
  }

  lemma AndIs(o: Order, w: Setting, env: Env, fuel: nat, l: P.Tree, r: P.Tree, fr: Frame, s: Store)
    ensures Evaluate(o, w, env, fuel, P.Infix(P.And, l, r), fr, s) == (
              var (a, s1) :- Evaluate(o, w, env, fuel, l, fr, s);
              var (x, _) :- Read(a, fr, s1);
              if x == 0 then Done(Now(0), s1)
              else
                var (b, s2) :- Evaluate(o, w, env, fuel, r, fr, s1);
                var (y, _) :- Read(b, fr, s2);
                Done(Now(OfBool(y != 0)), s2))
  {
    hide Read;
  }

  lemma OrIs(o: Order, w: Setting, env: Env, fuel: nat, l: P.Tree, r: P.Tree, fr: Frame, s: Store)
    ensures Evaluate(o, w, env, fuel, P.Infix(P.Or, l, r), fr, s) == (
              var (a, s1) :- Evaluate(o, w, env, fuel, l, fr, s);
              var (x, _) :- Read(a, fr, s1);
              if x != 0 then Done(Now(1), s1)
              else
                var (b, s2) :- Evaluate(o, w, env, fuel, r, fr, s1);
                var (y, _) :- Read(b, fr, s2);
                Done(Now(OfBool(y != 0)), s2))
  {
    hide Read;
  }

  lemma IndexIs(o: Order, w: Setting, env: Env, fuel: nat, l: P.Tree, r: P.Tree, fr: Frame, s: Store)
    ensures Evaluate(o, w, env, fuel, P.Index(l, r), fr, s) == (
              var (a, s1) :- Evaluate(o, w, env, fuel, l, fr, s);
              var (b, s2) :- Evaluate(o, w, env, fuel, r, fr, s1);
              var (x, _) :- Read(a, fr, s2);
              var (y, _) :- Read(b, fr, s2);
              var (n, _) :- Lift(LoadElement(x, y, s2), s2);
              Done(Now(n), s2))
  {
    hide Read, LoadElement;
  }

  lemma BinaryMeaning(o: Order, w: Setting, env: Env, fuel: nat, op: P.Operator, l: P.Tree, r: P.Tree, fr: Frame, s: Store)
    requires Fit(w, env) && FineExpr(env, l) && FineExpr(env, r) && !op.And? && !op.Or?
    ensures Evaluate(o, w, env, fuel, P.Infix(op, l, r), fr, s) == Compiled(o, TypedUnit(w.classes, w.u), fuel, Typed(env, P.Infix(op, l, r)), fr, s)
    decreases fuel, P.Infix(op, l, r), 0
  {
    hide Fit, FineExpr, TypedUnit, Compiled, Evaluate, Apply, Operate, AstOperator, Read;
    OperatorMeaning(op, 0, 0);
    InfixIs(o, w, env, fuel, op, l, r, fr, s);
    TypedInfix(env, op, l, r);
    CompiledBinary(o, TypedUnit(w.classes, w.u), fuel, AstOperator(op).value, Typed(env, l), Typed(env, r), fr, s);
    ExprMeaning(o, w, env, fuel, l, fr, s);
    hide Typed;
    var a := Evaluate(o, w, env, fuel, l, fr, s);
    if a.Done? {
      ExprMeaning(o, w, env, fuel, r, fr, a.store);
      forall x, y
        ensures Operate(op, x, y) == Apply(AstOperator(op).value, x, y)
      {
        OperatorMeaning(op, x, y);
      }
    }
  }

  lemma TypedInfix(env: Env, op: P.Operator, l: P.Tree, r: P.Tree)
    ensures op.And? ==> Typed(env, P.Infix(op, l, r)) == A.And(Typed(env, l), Typed(env, r))
    ensures op.Or? ==> Typed(env, P.Infix(op, l, r)) == A.Or(Typed(env, l), Typed(env, r))
    ensures !op.And? && !op.Or? ==> Typed(env, P.Infix(op, l, r)) == A.Binary(AstOperator(op).value, Typed(env, l), Typed(env, r))
  {
  }

  lemma AndMeaning(o: Order, w: Setting, env: Env, fuel: nat, l: P.Tree, r: P.Tree, fr: Frame, s: Store)
    requires Fit(w, env) && FineExpr(env, l) && FineExpr(env, r)
    ensures Evaluate(o, w, env, fuel, P.Infix(P.And, l, r), fr, s) == Compiled(o, TypedUnit(w.classes, w.u), fuel, Typed(env, P.Infix(P.And, l, r)), fr, s)
    decreases fuel, P.Infix(P.And, l, r), 0
  {
    hide Fit, FineExpr, TypedUnit, Compiled, Evaluate, Typed, Read;
    AndIs(o, w, env, fuel, l, r, fr, s);
    TypedInfix(env, P.And, l, r);
    CompiledAnd(o, TypedUnit(w.classes, w.u), fuel, Typed(env, l), Typed(env, r), fr, s);
    ExprMeaning(o, w, env, fuel, l, fr, s);
    var a := Evaluate(o, w, env, fuel, l, fr, s);
    if a.Done? { ExprMeaning(o, w, env, fuel, r, fr, a.store); }
  }

  lemma OrMeaning(o: Order, w: Setting, env: Env, fuel: nat, l: P.Tree, r: P.Tree, fr: Frame, s: Store)
    requires Fit(w, env) && FineExpr(env, l) && FineExpr(env, r)
    ensures Evaluate(o, w, env, fuel, P.Infix(P.Or, l, r), fr, s) == Compiled(o, TypedUnit(w.classes, w.u), fuel, Typed(env, P.Infix(P.Or, l, r)), fr, s)
    decreases fuel, P.Infix(P.Or, l, r), 0
  {
    hide Fit, FineExpr, TypedUnit, Compiled, Evaluate, Typed, Read;
    OrIs(o, w, env, fuel, l, r, fr, s);
    TypedInfix(env, P.Or, l, r);
    CompiledOr(o, TypedUnit(w.classes, w.u), fuel, Typed(env, l), Typed(env, r), fr, s);
    ExprMeaning(o, w, env, fuel, l, fr, s);
    var a := Evaluate(o, w, env, fuel, l, fr, s);
    if a.Done? { ExprMeaning(o, w, env, fuel, r, fr, a.store); }
  }

  lemma NotMeaning(o: Order, w: Setting, env: Env, fuel: nat, r: P.Tree, fr: Frame, s: Store)
    requires Fit(w, env) && FineExpr(env, P.Not(r))
    ensures Evaluate(o, w, env, fuel, P.Not(r), fr, s) == Compiled(o, TypedUnit(w.classes, w.u), fuel, Typed(env, P.Not(r)), fr, s)
    decreases fuel, P.Not(r), 0
  {
    hide Fit, FineExpr, TypedUnit, Compiled, Read;
    UnaryParts(env, P.Not(r));
    CompiledNot(o, TypedUnit(w.classes, w.u), fuel, Typed(env, r), fr, s);
    ExprMeaning(o, w, env, fuel, r, fr, s);
  }

  lemma NewArrayMeaning(o: Order, w: Setting, env: Env, fuel: nat, r: P.Tree, fr: Frame, s: Store)
    requires Fit(w, env) && FineExpr(env, P.NewArray(r))
    ensures Evaluate(o, w, env, fuel, P.NewArray(r), fr, s) == Compiled(o, TypedUnit(w.classes, w.u), fuel, Typed(env, P.NewArray(r)), fr, s)
    decreases fuel, P.NewArray(r), 0
  {
    hide Fit, FineExpr, TypedUnit, Compiled, Read, AllocArray;
    UnaryParts(env, P.NewArray(r));
    CompiledNewArray(o, TypedUnit(w.classes, w.u), fuel, Typed(env, r), fr, s);
    ExprMeaning(o, w, env, fuel, r, fr, s);
  }

  lemma LengthMeaning(o: Order, w: Setting, env: Env, fuel: nat, r: P.Tree, fr: Frame, s: Store)
    requires Fit(w, env) && FineExpr(env, P.Length(r))
    ensures Evaluate(o, w, env, fuel, P.Length(r), fr, s) == Compiled(o, TypedUnit(w.classes, w.u), fuel, Typed(env, P.Length(r)), fr, s)
    decreases fuel, P.Length(r), 0
  {
    hide Fit, FineExpr, TypedUnit, Compiled, Read, ArrayAt;
    UnaryParts(env, P.Length(r));
    CompiledLength(o, TypedUnit(w.classes, w.u), fuel, Typed(env, r), fr, s);
    ExprMeaning(o, w, env, fuel, r, fr, s);
  }

  lemma IndexMeaning(o: Order, w: Setting, env: Env, fuel: nat, l: P.Tree, r: P.Tree, fr: Frame, s: Store)
    requires Fit(w, env) && FineExpr(env, l) && FineExpr(env, r)
    ensures Evaluate(o, w, env, fuel, P.Index(l, r), fr, s) == Compiled(o, TypedUnit(w.classes, w.u), fuel, Typed(env, P.Index(l, r)), fr, s)
    decreases fuel, P.Index(l, r), 0
  {
    hide Fit, FineExpr, TypedUnit, Compiled, Evaluate, LoadElement, Read;
    IndexIs(o, w, env, fuel, l, r, fr, s);
    CompiledAccess(o, TypedUnit(w.classes, w.u), fuel, Typed(env, l), Typed(env, r), fr, s);
    ExprMeaning(o, w, env, fuel, l, fr, s);
    var a := Evaluate(o, w, env, fuel, l, fr, s);
    if a.Done? { ExprMeaning(o, w, env, fuel, r, fr, a.store); }
  }

  predicate FineArgs(env: Env, args: seq<P.Tree>) {
    CheckArgs(env, args).1 == 0 && forall a :: a in args ==> Lexed(a)
  }

  lemma CallMeaning(o: Order, w: Setting, env: Env, fuel: nat, r: P.Tree, m: string, args: seq<P.Tree>, fr: Frame, s: Store)
    requires Fit(w, env) && FineExpr(env, P.Call(r, m, args))
    ensures Evaluate(o, w, env, fuel, P.Call(r, m, args), fr, s) == Compiled(o, TypedUnit(w.classes, w.u), fuel, Typed(env, P.Call(r, m, args)), fr, s)
    decreases fuel, P.Call(r, m, args), 0
  {
    hide Fit, TypedUnit, Compiled, CompiledArgs, CompiledCall, Read, CheckExpr, CheckArgs, StaticClass, Declares, RootName;
    ReceiverMeaning(w, env, r, m, args);
    assert FineArgs(env, args);
    var p, c := TypedUnit(w.classes, w.u), StaticClass(env, r);
    CompiledInvoke(o, p, fuel, Typed(env, r), c, m, TypedArgs(env, args), fr, s);
    ExprMeaning(o, w, env, fuel, r, fr, s);
    hide FineExpr, FineArgs;
    var a := Evaluate(o, w, env, fuel, r, fr, s);
    if a.Done? {
      ArgsMeaning(o, w, env, fuel, args, fr, a.store);
      var xs := EvaluateArgs(o, w, env, fuel, args, fr, a.store);
      if xs.Done? && fuel > 0 {
        var self := Read(a.v, fr, xs.store);
        if self.Done? { PerformMeaning(o, w, env, fuel - 1, c, m, self.v, xs.v, xs.store); }
      }
    }
  }

  lemma ArgsMeaning(o: Order, w: Setting, env: Env, fuel: nat, args: seq<P.Tree>, fr: Frame, s: Store)
    requires Fit(w, env) && FineArgs(env, args)
    ensures EvaluateArgs(o, w, env, fuel, args, fr, s) == CompiledArgs(o, TypedUnit(w.classes, w.u), fuel, TypedArgs(env, args), fr, s)
    decreases fuel, args, 2
  {
    hide Fit, TypedUnit, Compiled, CompiledArgs, Read, CheckExpr, Lexed, Typed, Evaluate;
    var p := TypedUnit(w.classes, w.u);
    CompiledArgsNext(o, p, fuel, TypedArgs(env, args), fr, s);
    if args != [] {
      assert TypedArgs(env, args)[1..] == TypedArgs(env, args[1..]);
      ExprMeaning(o, w, env, fuel, args[0], fr, s);
      var a := Evaluate(o, w, env, fuel, args[0], fr, s);
      if a.Done? { ArgsMeaning(o, w, env, fuel, args[1..], fr, a.store); }
    }
  }

  // ----- methods -----

  lemma DeclaredOnce(w: Setting, c: string, m: string)
    requires WellDeclared(w.classes, w.u)
    ensures forall d, d' :: Declares(w.u, d, c, m) && Declares(w.u, d', c, m) ==> d == d'
  {
    hide LexedMethod, LexedStmt, Declared, RootName;
    forall d, d' | Declares(w.u, d, c, m) && Declares(w.u, d', c, m)
      ensures d == d'
    {
      var i :| 0 <= i < |w.u.methods| && w.u.methods[i] == d;
      var j :| 0 <= j < |w.u.methods| && w.u.methods[j] == d';
      assert RootOf(w.u.methods[i]) == RootOf(w.u.methods[j]);
    }
  }

  ghost predicate FineMethod(w: Setting, d: MethodDecl) {
    var env := EnvIn(w.classes, d);
    Fit(w, env) && FineStmts(env, d.body) && FineExpr(env, d.result)
  }

  predicate FineStmts(env: Env, ts: seq<TreeStmt>) {
    CheckStmts(env, ts).errors == 0 && forall t :: t in ts ==> LexedStmt(t)
  }

  predicate FineStmt(env: Env, t: TreeStmt) {
    CheckStmt(env, t).errors == 0 && LexedStmt(t)
  }

  lemma MethodFine(w: Setting, d: MethodDecl)
    requires WellDeclared(w.classes, w.u) && CheckUnit(w.classes, w.u).errors == 0 && d in w.u.methods
    ensures FineMethod(w, d)
  {
    hide WellDeclared, CheckUnit, LexedStmt, Declared, Lexed, CheckExpr, CheckStmts;
    MethodOf(w, d);
  }

  lemma MethodOf(w: Setting, d: MethodDecl)
    requires WellDeclared(w.classes, w.u) && CheckUnit(w.classes, w.u).errors == 0 && d in w.u.methods
    ensures LexedMethod(d) && Declared(EnvIn(w.classes, d)) && CheckMethod(w.classes, d).errors == 0
  {
    hide LexedStmt, LexedMethod, Declared, CheckMethod, CheckMethods, CheckStmts, EnvOf;
    var i :| 0 <= i < |w.u.methods| && w.u.methods[i] == d;
    MethodsAccepted(w.classes, w.u.methods, i);
  }

  lemma PerformMeaning(o: Order, w: Setting, env: Env, fuel: nat, c: string, m: string, self: int, args: seq<int>, s: Store)
    requires Fit(w, env) && exists d :: Declares(w.u, d, c, m)
    ensures Perform(o, w, fuel, c, m, self, args, s) == CompiledCall(o, TypedUnit(w.classes, w.u), fuel, RootName(c, m), self, args, s)
    decreases fuel
  {
    hide TypedUnit, Compiled, CompiledAll, CompiledCall, Read, RootName, WellDeclared, CheckUnit, EnvOf, Enter, Declared;
    var p := TypedUnit(w.classes, w.u);
    var d :| Declares(w.u, d, c, m);
    DeclaredOnce(w, c, m);
    MethodMeaning(w, d, c, m);
    MethodFine(w, d);
    hide Fit, FineStmts, FineExpr;
    CompiledEntry(o, p, fuel, RootName(c, m), self, args, s);
    var env := EnvIn(w.classes, d);
    var sig := A.Signature(d.params, d.locals.Keys, d.fields.Keys);
    var entry := Enter(sig, self, args, s);
    if entry.Ok? {
      AllMeaning(o, w, env, fuel, d.body, entry.v.0, entry.v.2);
      var b := ExecuteAll(o, w, env, fuel, d.body, entry.v.0, entry.v.2);
      if b.Done? { ExprMeaning(o, w, env, fuel, d.result, b.v, b.store); }
    }
    PerformIs(o, w, fuel, d, c, m, self, args, s);
  }

  lemma PerformIs(o: Order, w: Setting, fuel: nat, d: MethodDecl, c: string, m: string, self: int, args: seq<int>, s: Store)
    requires Declares(w.u, d, c, m) && forall d' :: Declares(w.u, d', c, m) ==> d' == d
    ensures Perform(o, w, fuel, c, m, self, args, s) == (
              var env := EnvIn(w.classes, d);
              var (entry, _) :- Lift(Enter(A.Signature(d.params, d.locals.Keys, d.fields.Keys), self, args, s), s);
              var (fr1, s1) :- ExecuteAll(o, w, env, fuel, d.body, entry.0, entry.2);
              var (r, s2) :- Evaluate(o, w, env, fuel, d.result, fr1, s1);
              Read(r, fr1, s2))
  {
    hide Enter, ExecuteAll, Evaluate, Read, EnvIn;
  }

  // ----- statements -----

  lemma StmtParts(env: Env, t: TreeStmt)
    requires FineStmt(env, t)
    ensures t.Assign? || t.ArrayAssign? || t.Print? ==> FineExpr(env, t.e)
    ensures t.ArrayAssign? ==> FineExpr(env, t.index)
    ensures t.If? || t.IfElse? || t.While? ==> FineExpr(env, t.cond)
    ensures t.Block? ==> FineStmts(env, t.stmts)
  {
    hide CheckExpr, Lexed, CheckStmts, Demand;
    DemandsMet(env, t);
  }

  lemma ControlParts(env: Env, t: TreeStmt)
    requires (t.If? || t.IfElse? || t.While?) && FineStmt(env, t)
    ensures t.If? || t.IfElse? ==> FineStmt(env, t.thn)
    ensures t.IfElse? ==> FineStmt(env, t.els)
    ensures t.While? ==> FineStmt(env, t.body)
  {
    hide CheckExpr, CheckStmt, Lexed, LexedStmt;
    ArmsAccepted(env, t);
    var arms := Arms(t);
    assert FineStmt(env, arms[0]);
    if t.IfElse? { assert FineStmt(env, arms[1]); }
  }

  /** Executing a checked statement is executing what generation gets for it. */
  lemma {:induction false} StmtMeaning(o: Order, w: Setting, env: Env, fuel: nat, t: TreeStmt, fr: Frame, s: Store)
    requires Fit(w, env) && FineStmt(env, t)
    ensures Execute(o, w, env, fuel, t, fr, s) == CompiledExec(o, TypedUnit(w.classes, w.u), fuel, TypedStmt(env, t), fr, s)
    decreases fuel, t, 1
  {
    hide Fit, FineExpr, FineStmts, FineStmt, TypedUnit, Evaluate, Compiled, CompiledExec, CompiledAll, Read, SetVar, StoreElement, Typed, TypedStmts;
    var p := TypedUnit(w.classes, w.u);
    StmtParts(env, t);
    match t
    case Declare(_, _) => NothingMeaning(o, p, fuel, fr, s);
    case Assign(x, e) =>
      CompiledAssign(o, p, fuel, x, Typed(env, e), fr, s);
      ExprMeaning(o, w, env, fuel, e, fr, s);
    case ArrayAssign(x, i, e) => ArrayAssignMeaning(o, w, env, fuel, x, i, e, fr, s);
    case Print(e) =>
      CompiledPrint(o, p, fuel, Typed(env, e), fr, s);
      ExprMeaning(o, w, env, fuel, e, fr, s);
    case Block(ts) =>
      CompiledNext(o, p, fuel, TypedStmts(env, ts), fr, s);
      AllMeaning(o, w, env, fuel, ts, fr, s);
    case While(c, body) => WhileMeaning(o, w, env, fuel, c, body, fr, s);
    case _ => BranchMeaning(o, w, env, fuel, t, fr, s);
  }

  lemma NothingMeaning(o: Order, p: A.Program, fuel: nat, fr: Frame, s: Store)
    ensures CompiledExec(o, p, fuel, A.Block([]), fr, s) == Done(fr, s)
  {
    CompiledNext(o, p, fuel, [], fr, s);
  }

  lemma ArrayAssignMeaning(o: Order, w: Setting, env: Env, fuel: nat, x: string, i: P.Tree, e: P.Tree, fr: Frame, s: Store)
    requires Fit(w, env) && FineExpr(env, i) && FineExpr(env, e)
    ensures var t := TypeChecking.ArrayAssign(x, i, e);
            Execute(o, w, env, fuel, t, fr, s) == CompiledExec(o, TypedUnit(w.classes, w.u), fuel, TypedStmt(env, t), fr, s)
    decreases fuel, TypeChecking.ArrayAssign(x, i, e), 0
  {
    hide Fit, FineExpr, TypedUnit, Evaluate, Compiled, CompiledExec, Read, StoreElement, Typed, Variable;
    CompiledArrayAssign(o, TypedUnit(w.classes, w.u), fuel, x, Typed(env, i), Typed(env, e), fr, s);
    ExprMeaning(o, w, env, fuel, i, fr, s);
    var a := Evaluate(o, w, env, fuel, i, fr, s);
    if a.Done? { ExprMeaning(o, w, env, fuel, e, fr, a.store); }
  }

  lemma BranchMeaning(o: Order, w: Setting, env: Env, fuel: nat, t: TreeStmt, fr: Frame, s: Store)
    requires Fit(w, env) && FineStmt(env, t) && (t.If? || t.IfElse?)
    ensures Execute(o, w, env, fuel, t, fr, s) == CompiledExec(o, TypedUnit(w.classes, w.u), fuel, TypedStmt(env, t), fr, s)
    decreases fuel, t, 0
  {
    hide Fit, FineExpr, FineStmt, TypedUnit, Evaluate, Compiled, CompiledExec, Read, Typed;
    var p := TypedUnit(w.classes, w.u);
    StmtParts(env, t);
    ControlParts(env, t);
    if t.If? { CompiledIf(o, p, fuel, Typed(env, t.cond), TypedStmt(env, t.thn), fr, s); }
    else { CompiledIfElse(o, p, fuel, Typed(env, t.cond), TypedStmt(env, t.thn), TypedStmt(env, t.els), fr, s); }
    ExprMeaning(o, w, env, fuel, t.cond, fr, s);
    var a := Evaluate(o, w, env, fuel, t.cond, fr, s);
    if a.Done? {
      StmtMeaning(o, w, env, fuel, t.thn, fr, a.store);
      if t.IfElse? { StmtMeaning(o, w, env, fuel, t.els, fr, a.store); }
    }
  }

  lemma WhileMeaning(o: Order, w: Setting, env: Env, fuel: nat, c: P.Tree, body: TreeStmt, fr: Frame, s: Store)
    requires Fit(w, env) && FineStmt(env, TypeChecking.While(c, body))
    ensures var t := TypeChecking.While(c, body);
            Execute(o, w, env, fuel, t, fr, s) == CompiledExec(o, TypedUnit(w.classes, w.u), fuel, TypedStmt(env, t), fr, s)
    decreases fuel, TypeChecking.While(c, body), 0
  {
    hide Fit, FineExpr, FineStmt, TypedUnit, Evaluate, Compiled, CompiledExec, Read, Typed;
    var t := TypeChecking.While(c, body);
    StmtParts(env, t);
    ControlParts(env, t);
    CompiledWhile(o, TypedUnit(w.classes, w.u), fuel, Typed(env, c), TypedStmt(env, body), fr, s);
    if fuel > 0 {
      ExprMeaning(o, w, env, fuel, c, fr, s);
      var a := Evaluate(o, w, env, fuel, c, fr, s);
      if a.Done? {
        StmtMeaning(o, w, env, fuel, body, fr, a.store);
        var b := Execute(o, w, env, fuel, body, fr, a.store);
        if b.Done? { StmtMeaning(o, w, env, fuel - 1, t, b.v, b.store); }
      }
    }
  }

  lemma AllMeaning(o: Order, w: Setting, env: Env, fuel: nat, ts: seq<TreeStmt>, fr: Frame, s: Store)
    requires Fit(w, env) && FineStmts(env, ts)
    ensures ExecuteAll(o, w, env, fuel, ts, fr, s) == CompiledAll(o, TypedUnit(w.classes, w.u), fuel, TypedStmts(env, ts), fr, s)
    decreases fuel, ts, 2
  {
    hide Fit, TypedUnit, CompiledExec, CompiledAll, CheckStmt, LexedStmt, TypedStmt, Execute;
    CompiledNext(o, TypedUnit(w.classes, w.u), fuel, TypedStmts(env, ts), fr, s);
    if ts != [] {
      assert TypedStmts(env, ts)[1..] == TypedStmts(env, ts[1..]);
      assert FineStmt(env, ts[0]) && FineStmts(env, ts[1..]);
      StmtMeaning(o, w, env, fuel, ts[0], fr, s);
      var b := Execute(o, w, env, fuel, ts[0], fr, s);
      if b.Done? { AllMeaning(o, w, env, fuel, ts[1..], b.v, b.store); }
    }
  }

  /** Whatever unit the type checker accepts, the program that generation gets for it has the unit's outcome at every fuel,
      read late or at once. */
  lemma CompiledMeaning(o: Order, w: Setting, fuel: nat)
    requires WellDeclared(w.classes, w.u) && CheckUnit(w.classes, w.u).errors == 0
    ensures UnitRun(o, w, fuel) == match o
                                   case Late => Run(TypedUnit(w.classes, w.u), fuel)
                                   case AtOnce => EagerReads.EagerRun(TypedUnit(w.classes, w.u), fuel)
  {
    var env := EnvAt(w, MainPlace(w.u));
    var fr := FreshFrame(TypedUnit(w.classes, w.u).mainSig);
    MainFine(w);
    hide WellDeclared, CheckUnit, ExecuteAll, ExecAll, EagerReads.EagerAll, EnvOf;
    AllMeaning(o, w, env, fuel, w.u.mainBody, fr, EMPTY_STORE);
  }

  lemma MainFine(w: Setting)
    requires WellDeclared(w.classes, w.u) && CheckUnit(w.classes, w.u).errors == 0
    ensures var env := EnvAt(w, MainPlace(w.u)); Fit(w, env) && FineStmts(env, w.u.mainBody)
  {
    hide CheckStmts, CheckMethods, LexedStmt, LexedMethod, Declared;
  }
}

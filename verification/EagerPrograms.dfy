/** Late and eager reads in whole programs. An accepted program in which no field stands unread across a call does, as
    compiled, what the language asks for; and there is an accepted program that does not. */
module EagerPrograms {
  import A = Ast
  import P = Parsing
  import opened EagerReads
  import opened Machine
  import opened Names
  import opened TypeChecking
  import opened TypeSoundness
  import opened TypedStores
  import Source

  function Locals(k: Place): set<string> {
    k.locals.Keys
  }

  function Code(w: Setting, k: Place, e: P.Tree): A.Expr {
    Typed(EnvAt(w, k), e)
  }

  function LateAt(w: Setting, fuel: nat, k: Place, e: P.Tree, fr: Frame, s: Store): Source.Outcome<int> {
    Late(Prog(w), fuel, Code(w, k, e), fr, s)
  }

  function EagerAt(w: Setting, fuel: nat, k: Place, e: P.Tree, fr: Frame, s: Store): Source.Outcome<int> {
    Eager(Prog(w), fuel, Code(w, k, e), fr, s)
  }

  /** Ready to be evaluated, accepted and in order, in a program that is in order. */
  ghost predicate InOrder(w: Setting, k: Place, e: P.Tree, fr: Frame, s: Store) {
    Ready(w, k, fr, s) && Sound(w, k, e) && Orderly(Locals(k), Code(w, k, e)) && OrderlyProgram(Prog(w))
  }

  lemma FrameLocals(w: Setting, k: Place, fr: Frame, s: Store)
    requires Ready(w, k, fr, s)
    ensures fr.locals.Keys == Locals(k)
  {
    hide Accepted, InUnit, StoreOk;
  }

  /** Whatever cannot be read in an accepted program cannot be read for want of an object. */
  lemma TypedReadable(w: Setting, k: Place, v: Source.Value, t: string, fr: Frame, s: Store)
    requires Ready(w, k, fr, s) && ValueOk(w, k, v, t, s)
    ensures Readable(v, fr, s)
  {
    hide InUnit, StoreOk, FrameOk, HasType, EnvAt, GetVar, CheckUnit, UnitResolves, WellDeclared, Tabled;
    if v.Later? { GetTyped(w, k, v.x, fr, s); }
  }

  lemma NameReadable(w: Setting, k: Place, x: string, fr: Frame, s: Store)
    requires Ready(w, k, fr, s) && x in EnvAt(w, k).vars
    ensures Readable(Source.Later(x), fr, s)
  {
    hide Accepted, InUnit, StoreOk, FrameOk, EnvAt, GetVar;
    TypedReadable(w, k, Source.Later(x), EnvAt(w, k).vars[x], fr, s);
  }

  lemma LateStore(w: Setting, fuel: nat, k: Place, e: P.Tree, fr: Frame, s: Store)
    ensures var a, x := EvalAt(w, fuel, k, e, fr, s), LateAt(w, fuel, k, e, fr, s);
            && (x.Done? ==> a.Done? && a.store == x.store) && x == ReadAt(w, fuel, k, e, fr, s)
  {
    hide Source.Eval, Prog, EnvAt, Typed, Source.Force;
  }

  /** Where the first of two operands has been evaluated. */
  lemma FirstSteady<T>(w: Setting, fuel: nat, k: Place, l: P.Tree, fr: Frame, s: Store, b: Source.Outcome<T>)
    requires Ready(w, k, fr, s) && Sound(w, k, l) && Alike(LateAt(w, fuel, k, l, fr, s), EagerAt(w, fuel, k, l, fr, s))
    requires var a := EvalAt(w, fuel, k, l, fr, s);
             a.Done? && FieldName(Locals(k), Code(w, k, l)) ==> Quiet(a.store, b)
    ensures Steady(Prog(w), fuel, Code(w, k, l), fr, s, b)
    ensures EvalAt(w, fuel, k, l, fr, s).Done? ==> Ready(w, k, fr, EvalAt(w, fuel, k, l, fr, s).store)
  {
    hide Ready, Sound, ValueOk, Kept, TypeOf, Prog, EnvAt, Typed, Source.Eval, Eager, FieldName, Quiet, Readable, Alike, OfLanguage, Late;
    EvalTyped(w, fuel, k, l, fr, s);
    FrameLocals(w, k, fr, s);
    var a := EvalAt(w, fuel, k, l, fr, s);
    if a.Done? {
      ReadyAgain(w, k, fr, s, a.store);
      TypedReadable(w, k, a.v, TypeOf(w, k, l), fr, a.store);
    }
  }

  // ----- expressions -----

  lemma {:induction false} EvalAlike(w: Setting, fuel: nat, k: Place, e: P.Tree, fr: Frame, s: Store)
    requires InOrder(w, k, e, fr, s)
    ensures Alike(LateAt(w, fuel, k, e, fr, s), EagerAt(w, fuel, k, e, fr, s))
    decreases fuel, e, 2
  {
    hide InOrder, LateAt, EagerAt, Alike;
    match e
    case Infix(op, l, r) =>
      if op.And? || op.Or? { LogicalAlike(w, fuel, k, e, l, r, fr, s); } else { OperandsAlike(w, fuel, k, e, l, r, fr, s); }
    case Index(l, r) => OperandsAlike(w, fuel, k, e, l, r, fr, s);
    case Not(r) => UnaryAlike(w, fuel, k, e, r, fr, s);
    case NewArray(r) => UnaryAlike(w, fuel, k, e, r, fr, s);
    case Length(r) => UnaryAlike(w, fuel, k, e, r, fr, s);
    case Call(r, m, args) => InvocationAlike(w, fuel, k, e, fr, s);
    case _ => LeafAlike(w, fuel, k, e, fr, s);
  }

  lemma LeafAlike(w: Setting, fuel: nat, k: Place, e: P.Tree, fr: Frame, s: Store)
    requires P.Atom(e) || e.NewObject?
    ensures Alike(LateAt(w, fuel, k, e, fr, s), EagerAt(w, fuel, k, e, fr, s))
  {
    hide Prog, EnvAt, Late, Eager, Alike;
    AtomAlike(Prog(w), fuel, Code(w, k, e), fr, s);
  }

  /** Two operands that may both stand unread. */
  predicate TwoOperands(e: P.Tree, l: P.Tree, r: P.Tree) {
    e == P.Index(l, r) || (e.Infix? && e.lhs == l && e.rhs == r && !e.op.And? && !e.op.Or?)
  }

  lemma OperandParts(w: Setting, k: Place, e: P.Tree, l: P.Tree, r: P.Tree, fr: Frame, s: Store)
    requires TwoOperands(e, l, r) && InOrder(w, k, e, fr, s)
    ensures InOrder(w, k, l, fr, s) && Sound(w, k, r) && Orderly(Locals(k), Code(w, k, r)) && OrderlyProgram(Prog(w))
    ensures Settles(Locals(k), Code(w, k, l), Code(w, k, r)) && Ready(w, k, fr, s) && Sound(w, k, l)
    ensures var c := Code(w, k, e);
            c == A.ArrayAccess(Code(w, k, l), Code(w, k, r)) || (c.Binary? && c.lhs == Code(w, k, l) && c.rhs == Code(w, k, r))
  {
    hide Ready, Sound, Prog, EnvAt, OperatorType, CheckExpr, OrderlyProgram, Declared, CallFree;
    ReadyDeclared(w, k, fr, s);
    if e.Index? { IndexParts(w, k, l, r); } else { InfixParts(w, k, e.op, l, r); }
  }

  lemma OperandsAlike(w: Setting, fuel: nat, k: Place, e: P.Tree, l: P.Tree, r: P.Tree, fr: Frame, s: Store)
    requires TwoOperands(e, l, r) && InOrder(w, k, e, fr, s)
    ensures Alike(LateAt(w, fuel, k, e, fr, s), EagerAt(w, fuel, k, e, fr, s))
    decreases fuel, e, 1
  {
    hide Ready, Sound, Prog, Orderly, OrderlyProgram, Code, Source.Eval, Eager, Late, Alike, FieldName, CallFree, Quiet, Steady;
    OperandParts(w, k, e, l, r, fr, s);
    var a := EvalAt(w, fuel, k, l, fr, s);
    var b := if a.Done? then EvalAt(w, fuel, k, r, fr, a.store) else a;
    EvalIs(w, fuel, k, l, fr, s);
    EvalAlike(w, fuel, k, l, fr, s);
    if a.Done? {
      EvalIs(w, fuel, k, r, fr, a.store);
      if FieldName(Locals(k), Code(w, k, l)) { CallFreeQuiet(Prog(w), fuel, Code(w, k, r), fr, a.store); }
    }
    FirstSteady(w, fuel, k, l, fr, s, b);
    if a.Done? { EvalAlike(w, fuel, k, r, fr, a.store); }
    PairAlike(Prog(w), fuel, Code(w, k, e), Code(w, k, l), Code(w, k, r), fr, s);
  }

  lemma EvalIs(w: Setting, fuel: nat, k: Place, e: P.Tree, fr: Frame, s: Store)
    ensures EvalAt(w, fuel, k, e, fr, s) == Source.Eval(Prog(w), fuel, Code(w, k, e), fr, s)
  {
    hide Source.Eval, Prog, EnvAt, Typed;
  }

  lemma LogicalParts(w: Setting, k: Place, e: P.Tree, l: P.Tree, r: P.Tree, fr: Frame, s: Store)
    requires e.Infix? && e.lhs == l && e.rhs == r && (e.op.And? || e.op.Or?) && InOrder(w, k, e, fr, s)
    ensures InOrder(w, k, l, fr, s) && Sound(w, k, r) && Orderly(Locals(k), Code(w, k, r)) && OrderlyProgram(Prog(w))
    ensures Code(w, k, e) == A.And(Code(w, k, l), Code(w, k, r)) || Code(w, k, e) == A.Or(Code(w, k, l), Code(w, k, r))
    ensures Ready(w, k, fr, s) && Sound(w, k, l)
  {
    hide Ready, Sound, Prog, EnvAt, OperatorType, CheckExpr, OrderlyProgram, Declared, CallFree;
    ReadyDeclared(w, k, fr, s);
    InfixParts(w, k, e.op, l, r);
  }

  lemma LogicalAlike(w: Setting, fuel: nat, k: Place, e: P.Tree, l: P.Tree, r: P.Tree, fr: Frame, s: Store)
    requires e.Infix? && e.lhs == l && e.rhs == r && (e.op.And? || e.op.Or?) && InOrder(w, k, e, fr, s)
    ensures Alike(LateAt(w, fuel, k, e, fr, s), EagerAt(w, fuel, k, e, fr, s))
    decreases fuel, e, 1
  {
    hide Ready, Sound, Prog, Orderly, OrderlyProgram, Code, Eager, Late, Alike;
    LogicalParts(w, k, e, l, r, fr, s);
    EvalAlike(w, fuel, k, l, fr, s);
    ReadyAfter(w, fuel, k, l, fr, s);
    var x := LateAt(w, fuel, k, l, fr, s);
    if x.Done? { EvalAlike(w, fuel, k, r, fr, x.store); }
    ShortAlike(Prog(w), fuel, Code(w, k, e), Code(w, k, l), Code(w, k, r), fr, s);
  }

  lemma ReadyAfter(w: Setting, fuel: nat, k: Place, e: P.Tree, fr: Frame, s: Store)
    requires Ready(w, k, fr, s) && Sound(w, k, e)
    ensures LateAt(w, fuel, k, e, fr, s).Done? ==> Ready(w, k, fr, LateAt(w, fuel, k, e, fr, s).store)
  {
    hide Ready, Sound, ReadAt, LateAt, IntOk, TypeOf;
    LateStore(w, fuel, k, e, fr, s);
    ReadTyped(w, fuel, k, e, fr, s);
  }

  lemma UnaryParts(w: Setting, k: Place, e: P.Tree, r: P.Tree, fr: Frame, s: Store)
    requires (e == P.Not(r) || e == P.NewArray(r) || e == P.Length(r)) && InOrder(w, k, e, fr, s)
    ensures InOrder(w, k, r, fr, s)
    ensures var c, d := Code(w, k, e), Code(w, k, r);
            c == A.Not(d) || c == A.NewArray(d) || c == A.ArrayLength(d)
  {
    hide Ready, Sound, Prog, EnvAt, CheckExpr, OrderlyProgram, Declared;
    ReadyDeclared(w, k, fr, s);
    OneParts(w, k, e, r);
  }

  lemma UnaryAlike(w: Setting, fuel: nat, k: Place, e: P.Tree, r: P.Tree, fr: Frame, s: Store)
    requires (e == P.Not(r) || e == P.NewArray(r) || e == P.Length(r)) && InOrder(w, k, e, fr, s)
    ensures Alike(LateAt(w, fuel, k, e, fr, s), EagerAt(w, fuel, k, e, fr, s))
    decreases fuel, e, 1
  {
    hide InOrder, Prog, Code, Eager, Late, Alike;
    UnaryParts(w, k, e, r, fr, s);
    EvalAlike(w, fuel, k, r, fr, s);
    OneAlike(Prog(w), fuel, Code(w, k, e), Code(w, k, r), fr, s);
  }

  // ----- calls -----

  function EagerArgsAt(w: Setting, fuel: nat, k: Place, args: seq<P.Tree>, fr: Frame, s: Store): Source.Outcome<seq<int>> {
    EagerArgs(Prog(w), fuel, TypedArgs(EnvAt(w, k), args), fr, s)
  }

  ghost predicate ArgsInOrder(w: Setting, k: Place, args: seq<P.Tree>) {
    ArgsSound(w, k, args) && forall a | a in args :: Orderly(Locals(k), Code(w, k, a))
  }

  lemma {:induction false} ListAlike(w: Setting, fuel: nat, k: Place, args: seq<P.Tree>, fr: Frame, s: Store)
    requires Ready(w, k, fr, s) && ArgsInOrder(w, k, args) && OrderlyProgram(Prog(w))
    ensures Alike(ArgsAt(w, fuel, k, args, fr, s), EagerArgsAt(w, fuel, k, args, fr, s))
    decreases fuel, args
  {
    hide Ready, Sound, Prog, Orderly, OrderlyProgram, Source.Eval, Eager, ArgsSound, EnvAt, Typed, Alike, Late;
    if args == [] {
      NoArgsAlike(w, fuel, k, fr, s);
    } else {
      ArgsFirst(w, k, args);
      var e, cs := args[0], TypedArgs(EnvAt(w, k), args);
      assert cs[0] == Code(w, k, e) && cs[1..] == TypedArgs(EnvAt(w, k), args[1..]);
      assert args[0] in args && forall a :: a in args[1..] ==> a in args;
      EvalAlike(w, fuel, k, e, fr, s);
      ReadyAfter(w, fuel, k, e, fr, s);
      var x := LateAt(w, fuel, k, e, fr, s);
      if x.Done? { ListAlike(w, fuel, k, args[1..], fr, x.store); }
      ArgsAlike(Prog(w), fuel, cs, fr, s);
    }
  }

  lemma NoArgsAlike(w: Setting, fuel: nat, k: Place, fr: Frame, s: Store)
    ensures Alike(ArgsAt(w, fuel, k, [], fr, s), EagerArgsAt(w, fuel, k, [], fr, s))
  {
  }

  lemma {:induction false} TypedArgsAre(env: Env, args: seq<P.Tree>)
    ensures forall e :: e in args ==> Typed(env, e) in TypedArgs(env, args)
  {
    hide Typed;
    if args != [] {
      TypedArgsAre(env, args[1..]);
      assert args == [args[0]] + args[1..];
    }
  }

  lemma CallInOrder(w: Setting, k: Place, e: P.Tree, fr: Frame, s: Store)
    requires e.Call? && InOrder(w, k, e, fr, s)
    ensures InOrder(w, k, e.receiver, fr, s) && ArgsInOrder(w, k, e.args) && Ready(w, k, fr, s) && Sound(w, k, e.receiver) && OrderlyProgram(Prog(w))
    ensures var c := Code(w, k, e);
            && c.Call? && c.receiver == Code(w, k, e.receiver) && c.args == TypedArgs(EnvAt(w, k), e.args)
            && c.className == TypeOf(w, k, e.receiver) && c.methodName == e.methodName
            && (FieldName(Locals(k), c.receiver) ==> forall a | a in c.args :: CallFree(a))
  {
    hide Ready, Sound, Prog, EnvAt, OrderlyProgram, Declared, CheckExpr, ArgsSound, CallFree;
    ReadyDeclared(w, k, fr, s);
    CallParts(w, k, e);
    TypedArgsAre(EnvAt(w, k), e.args);
    var c := Code(w, k, e);
    forall a | a in e.args
      ensures Orderly(Locals(k), Code(w, k, a))
    {
      assert Code(w, k, a) in c.args;
    }
  }

  lemma InvocationAlike(w: Setting, fuel: nat, k: Place, e: P.Tree, fr: Frame, s: Store)
    requires e.Call? && InOrder(w, k, e, fr, s)
    ensures Alike(LateAt(w, fuel, k, e, fr, s), EagerAt(w, fuel, k, e, fr, s))
    decreases fuel, e, 1
  {
    hide Ready, Sound, Prog, Orderly, OrderlyProgram, Code, Source.Eval, Eager, Late, Alike, FieldName, CallFree, Quiet, Steady, ArgsSound, EnvAt,
      Source.CallMethod, EagerCall, Source.EvalArgs, EagerArgs, TypedArgs, Source.Force;
    CallInOrder(w, k, e, fr, s);
    var c, a := Code(w, k, e), EvalAt(w, fuel, k, e.receiver, fr, s);
    EvalIs(w, fuel, k, e.receiver, fr, s);
    EvalAlike(w, fuel, k, e.receiver, fr, s);
    if a.Done? && FieldName(Locals(k), c.receiver) { ArgsQuiet(Prog(w), fuel, c.args, fr, a.store); }
    var xs: Source.Outcome<seq<int>> := if a.Done? then Source.EvalArgs(Prog(w), fuel, c.args, fr, a.store) else Source.Stops(a.why);
    FirstSteady(w, fuel, k, e.receiver, fr, s, xs);
    if a.Done? {
      ListAlike(w, fuel, k, e.args, fr, a.store);
      if xs.Done? && fuel > 0 { CalleeAlike(w, fuel, k, e, fr, s); }
    }
    CallAlike(Prog(w), fuel, c, fr, s);
  }

  lemma CalleeAlike(w: Setting, fuel: nat, k: Place, e: P.Tree, fr: Frame, s: Store)
    requires e.Call? && Ready(w, k, fr, s) && Sound(w, k, e) && OrderlyProgram(Prog(w)) && fuel > 0
    requires var a := EvalAt(w, fuel, k, e.receiver, fr, s);
             a.Done? && ArgsAt(w, fuel, k, e.args, fr, a.store).Done?
    ensures var a := EvalAt(w, fuel, k, e.receiver, fr, s);
            var xs := ArgsAt(w, fuel, k, e.args, fr, a.store);
            var self, root := Source.Force(a.v, fr, xs.store), RootName(TypeOf(w, k, e.receiver), e.methodName);
            self.Ok? ==> Alike(Source.CallMethod(Prog(w), fuel - 1, root, self.v, xs.v, xs.store), EagerCall(Prog(w), fuel - 1, root, self.v, xs.v, xs.store))
    decreases fuel, e, 0
  {
    hide Ready, Sound, TypeOf, ValueOk, Kept, Declared, Prog, Source.Force, EvalAt, ArgsAt, EnvAt, HaveTypes, Accepted, ArgsSound, RootOf, HasType,
      Source.CallMethod, OfLanguage, EagerCall, Alike, OrderlyProgram;
    ReadyDeclared(w, k, fr, s);
    ReadyAccepted(w, k, fr, s);
    CallParts(w, k, e);
    var d := CalleeOf(w, TypeOf(w, k, e.receiver), e.methodName);
    EvalTyped(w, fuel, k, e.receiver, fr, s);
    var a := EvalAt(w, fuel, k, e.receiver, fr, s);
    ReadyAgain(w, k, fr, s, a.store);
    ArgsTyped(w, fuel, k, e.args, fr, a.store);
    var xs := ArgsAt(w, fuel, k, e.args, fr, a.store);
    ValueStays(w, k, a.v, TypeOf(w, k, e.receiver), a.store, xs.store);
    ReadyAgain(w, k, fr, a.store, xs.store);
    ForceTyped(w, k, a.v, TypeOf(w, k, e.receiver), fr, xs.store);
    var self := Source.Force(a.v, fr, xs.store);
    if self.Ok? {
      ReadyStore(w, k, fr, xs.store);
      CalledAlike(w, fuel - 1, d, self.v, xs.v, xs.store);
    }
  }

  ghost predicate BodyInOrder(w: Setting, k: Place, ts: seq<TreeStmt>) {
    BodySound(w, k, ts) && forall t | t in ts :: OrderlyStmt(Locals(k), TypedStmt(EnvAt(w, k), t))
  }

  lemma {:induction false} TypedStmtsAre(env: Env, ts: seq<TreeStmt>)
    ensures forall t :: t in ts ==> TypedStmt(env, t) in TypedStmts(env, ts)
  {
    hide TypedStmt;
    if ts != [] {
      TypedStmtsAre(env, ts[1..]);
      assert ts == [ts[0]] + ts[1..];
    }
  }

  lemma MethodInOrder(w: Setting, d: MethodDecl)
    requires Accepted(w) && d in w.u.methods && OrderlyProgram(Prog(w))
    ensures RootOf(d) in Prog(w).methods && Prog(w).methods[RootOf(d)] == TypedMethod(w.classes, d)
    ensures var k := PlaceOf(d);
            BodyInOrder(w, k, d.body) && Sound(w, k, d.result) && TypeOf(w, k, d.result) == d.info.returns_ && Orderly(Locals(k), Code(w, k, d.result))
  {
    hide Accepted, Prog, RootOf, LexedMethod, MethodResolves, CheckMethod, TypeOf, Sound, TabledParams, Typed, TypedStmts, Orderly, OrderlyStmt, BodySound;
    MethodOf(w, d);
    MethodSound(w, d);
    assert OrderlyMethod(Prog(w).methods[RootOf(d)]);
    assert EnvAt(w, PlaceOf(d)) == EnvIn(w.classes, d);
    TypedStmtsAre(EnvIn(w.classes, d), d.body);
  }

  lemma CalledAlike(w: Setting, fuel: nat, d: MethodDecl, self: int, xs: seq<int>, s: Store)
    requires Accepted(w) && d in w.u.methods && StoreOk(w, s) && OrderlyProgram(Prog(w))
    requires HasType(w, self, d.className, s) && HaveTypes(w, xs, d.info.params, s)
    ensures Alike(Source.CallMethod(Prog(w), fuel, RootOf(d), self, xs, s), EagerCall(Prog(w), fuel, RootOf(d), self, xs, s))
    decreases fuel
  {
    hide Accepted, Ready, StoreOk, HasType, HaveTypes, Prog, RootOf, Kept, OfLanguage, Enter, BodyAt, TypedMethod, TypeOf, Sound, FrameOk, OrderlyProgram, Orderly,
      BodyInOrder, Alike, Late, Eager, Source.CallMethod, EagerCall, Source.ExecAll, EagerAll, BodySound;
    MethodInOrder(w, d);
    EntryTyped(w, d, self, xs, s);
    BodyInSound(w, PlaceOf(d), d.body);
    var k := PlaceOf(d);
    var entry := Enter(TypedMethod(w.classes, d).sig, self, xs, s).v.0;
    StmtsAlike(w, fuel, k, d.body, entry, s);
    BodyTyped(w, fuel, k, d.body, entry, s);
    var b := BodyAt(w, fuel, k, d.body, entry, s);
    MethodCode(w, fuel, d, entry, s);
    if b.Done? {
      ReadyIn(w, k, entry, s, b.v, b.store);
      EvalAlike(w, fuel, k, d.result, b.v, b.store);
    }
    MethodAlike(Prog(w), fuel, RootOf(d), self, xs, s);
  }

  lemma BodyInSound(w: Setting, k: Place, ts: seq<TreeStmt>)
    requires BodyInOrder(w, k, ts)
    ensures BodySound(w, k, ts)
  {
    hide BodySound, OrderlyStmt;
  }

  lemma MethodCode(w: Setting, fuel: nat, d: MethodDecl, fr: Frame, s: Store)
    ensures var k, m := PlaceOf(d), TypedMethod(w.classes, d);
            && BodyAt(w, fuel, k, d.body, fr, s) == Source.ExecAll(Prog(w), fuel, m.body, fr, s)
            && EagerBodyAt(w, fuel, k, d.body, fr, s) == EagerAll(Prog(w), fuel, m.body, fr, s)
            && Code(w, k, d.result) == m.result
  {
    hide Prog, Source.ExecAll, EagerAll, Typed, TypedStmts;
    assert EnvAt(w, PlaceOf(d)) == EnvIn(w.classes, d);
  }

  // ----- statements -----

  function EagerBodyAt(w: Setting, fuel: nat, k: Place, ts: seq<TreeStmt>, fr: Frame, s: Store): Source.Outcome<Frame> {
    EagerAll(Prog(w), fuel, TypedStmts(EnvAt(w, k), ts), fr, s)
  }

  function EagerExecAt(w: Setting, fuel: nat, k: Place, t: TreeStmt, fr: Frame, s: Store): Source.Outcome<Frame> {
    EagerExec(Prog(w), fuel, TypedStmt(EnvAt(w, k), t), fr, s)
  }

  ghost predicate StmtInOrder(w: Setting, k: Place, t: TreeStmt, fr: Frame, s: Store) {
    Ready(w, k, fr, s) && StmtSound(w, k, t) && OrderlyStmt(Locals(k), TypedStmt(EnvAt(w, k), t)) && OrderlyProgram(Prog(w))
  }

  lemma {:induction false} StmtAlike(w: Setting, fuel: nat, k: Place, t: TreeStmt, fr: Frame, s: Store)
    requires StmtInOrder(w, k, t, fr, s)
    ensures Alike(ExecAt(w, fuel, k, t, fr, s), EagerExecAt(w, fuel, k, t, fr, s))
    decreases fuel, t, 2
  {
    hide StmtInOrder, ExecAt, EagerExecAt, Alike;
    match t
    case Declare(_, _) => DeclareAlike(w, fuel, k, t, fr, s);
    case Assign(_, _) => EffectAlike(w, fuel, k, t, fr, s);
    case Print(_) => EffectAlike(w, fuel, k, t, fr, s);
    case ArrayAssign(x, i, e) => ElementAlike(w, fuel, k, t, fr, s);
    case If(_, _) => ArmsAlike(w, fuel, k, t, fr, s);
    case IfElse(_, _, _) => ArmsAlike(w, fuel, k, t, fr, s);
    case While(_, _) => WhileAlike(w, fuel, k, t, fr, s);
    case Block(_) => BlockAlike(w, fuel, k, t, fr, s);
  }

  lemma DeclareAlike(w: Setting, fuel: nat, k: Place, t: TreeStmt, fr: Frame, s: Store)
    requires t.Declare?
    ensures Alike(ExecAt(w, fuel, k, t, fr, s), EagerExecAt(w, fuel, k, t, fr, s))
  {
    hide Prog, EnvAt;
    assert TypedStmt(EnvAt(w, k), t) == A.Block([]);
    assert Source.ExecAll(Prog(w), fuel, [], fr, s) == EagerAll(Prog(w), fuel, [], fr, s);
  }

  lemma BlockAlike(w: Setting, fuel: nat, k: Place, t: TreeStmt, fr: Frame, s: Store)
    requires StmtInOrder(w, k, t, fr, s) && t.Block?
    ensures Alike(ExecAt(w, fuel, k, t, fr, s), EagerExecAt(w, fuel, k, t, fr, s))
    decreases fuel, t, 1
  {
    hide Ready, Prog, EnvAt, OrderlyProgram, CheckStmts, TypedStmts, Source.ExecAll, EagerAll, Alike;
    BlockInOrder(w, k, t, fr, s);
    StmtsAlike(w, fuel, k, t.stmts, fr, s);
  }

  lemma BlockInOrder(w: Setting, k: Place, t: TreeStmt, fr: Frame, s: Store)
    requires StmtInOrder(w, k, t, fr, s) && t.Block?
    ensures BodyInOrder(w, k, t.stmts)
  {
    hide Ready, Prog, EnvAt, OrderlyProgram, CheckStmts, TypedStmt;
    TypedStmtsAre(EnvAt(w, k), t.stmts);
    assert TypedStmt(EnvAt(w, k), t) == A.Block(TypedStmts(EnvAt(w, k), t.stmts)) by { TypedBlock(EnvAt(w, k), t); }
  }

  lemma TypedBlock(env: Env, t: TreeStmt)
    requires t.Block?
    ensures TypedStmt(env, t) == A.Block(TypedStmts(env, t.stmts))
  {
    hide TypedStmts;
  }

  lemma EffectParts(w: Setting, k: Place, t: TreeStmt, fr: Frame, s: Store)
    requires StmtInOrder(w, k, t, fr, s) && (t.Assign? || t.Print?)
    ensures InOrder(w, k, t.e, fr, s)
    ensures var c := TypedStmt(EnvAt(w, k), t); (c.Assign? || c.Print?) && c.e == Code(w, k, t.e)
  {
    hide Ready, Prog, EnvAt, OrderlyProgram, Sound, StmtSound, TypeOf, Declared;
    ReadyDeclared(w, k, fr, s);
    if t.Assign? { AssignParts(w, k, t.x, t.e); } else { PrintParts(w, k, t.e); }
  }

  lemma EffectAlike(w: Setting, fuel: nat, k: Place, t: TreeStmt, fr: Frame, s: Store)
    requires StmtInOrder(w, k, t, fr, s) && (t.Assign? || t.Print?)
    ensures Alike(ExecAt(w, fuel, k, t, fr, s), EagerExecAt(w, fuel, k, t, fr, s))
    decreases fuel, t, 1
  {
    hide StmtInOrder, InOrder, Prog, EnvAt, Alike, Source.Exec, EagerExec, Late, Eager, Typed, TypedStmt;
    EffectParts(w, k, t, fr, s);
    EvalAlike(w, fuel, k, t.e, fr, s);
    AssignAlike(Prog(w), fuel, TypedStmt(EnvAt(w, k), t), fr, s);
  }

  lemma ElementParts(w: Setting, k: Place, t: TreeStmt, fr: Frame, s: Store)
    requires StmtInOrder(w, k, t, fr, s) && t.ArrayAssign?
    ensures InOrder(w, k, t.index, fr, s) && Ready(w, k, fr, s) && Sound(w, k, t.index) && Sound(w, k, t.e) && Orderly(Locals(k), Code(w, k, t.e))
    ensures OrderlyProgram(Prog(w)) && t.x in EnvAt(w, k).vars
    ensures var c := TypedStmt(EnvAt(w, k), t);
            && c == A.ArrayAssign(t.x, Code(w, k, t.index), Code(w, k, t.e)) && Settles(Locals(k), c.index, c.e)
            && (FieldName(Locals(k), A.Ident(t.x)) ==> CallFree(c.index) && CallFree(c.e))
  {
    hide Ready, Prog, EnvAt, OrderlyProgram, Sound, StmtSound, TypeOf, Declared, CallFree;
    ReadyDeclared(w, k, fr, s);
    ArrayAssignParts(w, k, t.x, t.index, t.e);
  }

  lemma ElementAlike(w: Setting, fuel: nat, k: Place, t: TreeStmt, fr: Frame, s: Store)
    requires StmtInOrder(w, k, t, fr, s) && t.ArrayAssign?
    ensures Alike(ExecAt(w, fuel, k, t, fr, s), EagerExecAt(w, fuel, k, t, fr, s))
    decreases fuel, t, 1
  {
    hide Ready, Sound, Prog, EnvAt, Orderly, OrderlyProgram, OrderlyStmt, StmtSound, Code, Source.Eval, Source.Exec, EagerExec, Eager, Late, Alike, FieldName, CallFree,
      Quiet, Steady, Readable, TypedStmt;
    ElementParts(w, k, t, fr, s);
    var c, l, r := TypedStmt(EnvAt(w, k), t), t.index, t.e;
    var a := EvalAt(w, fuel, k, l, fr, s);
    var b := if a.Done? then EvalAt(w, fuel, k, r, fr, a.store) else a;
    EvalIs(w, fuel, k, l, fr, s);
    EvalAlike(w, fuel, k, l, fr, s);
    if a.Done? {
      EvalIs(w, fuel, k, r, fr, a.store);
      if FieldName(Locals(k), Code(w, k, l)) { CallFreeQuiet(Prog(w), fuel, Code(w, k, r), fr, a.store); }
    }
    FirstSteady(w, fuel, k, l, fr, s, b);
    if a.Done? { EvalAlike(w, fuel, k, r, fr, a.store); }
    NameReadable(w, k, t.x, fr, s);
    FrameLocals(w, k, fr, s);
    ArrayAssignAlike(Prog(w), fuel, c, fr, s);
  }

  lemma TestParts(w: Setting, k: Place, t: TreeStmt, fr: Frame, s: Store)
    requires StmtInOrder(w, k, t, fr, s) && (t.If? || t.IfElse? || t.While?)
    ensures InOrder(w, k, t.cond, fr, s) && Ready(w, k, fr, s) && Sound(w, k, t.cond) && OrderlyProgram(Prog(w)) && StmtSound(w, k, t)
    ensures forall i :: 0 <= i < |Arms(t)| ==>
              StmtSound(w, k, Arms(t)[i]) && Arms(t)[i] < t && OrderlyStmt(Locals(k), TypedStmt(EnvAt(w, k), Arms(t)[i]))
    ensures var env := EnvAt(w, k);
            TypedStmt(env, t) == (if t.If? then A.If(Typed(env, t.cond), TypedStmt(env, t.thn))
                                  else if t.IfElse? then A.IfElse(Typed(env, t.cond), TypedStmt(env, t.thn), TypedStmt(env, t.els))
                                  else A.While(Typed(env, t.cond), TypedStmt(env, t.body)))
  {
    hide Ready, Prog, EnvAt, OrderlyProgram, Sound, StmtSound, Orderly, Typed;
    ControlParts(w, k, t);
  }

  lemma ArmsAlike(w: Setting, fuel: nat, k: Place, t: TreeStmt, fr: Frame, s: Store)
    requires StmtInOrder(w, k, t, fr, s) && (t.If? || t.IfElse?)
    ensures Alike(ExecAt(w, fuel, k, t, fr, s), EagerExecAt(w, fuel, k, t, fr, s))
    decreases fuel, t, 1
  {
    hide Ready, InOrder, Prog, EnvAt, Alike, Source.Exec, EagerExec, Late, Eager, Typed, TypedStmt, StmtSound, Sound, OrderlyStmt, OrderlyProgram;
    TestParts(w, k, t, fr, s);
    EvalAlike(w, fuel, k, t.cond, fr, s);
    ReadyAfter(w, fuel, k, t.cond, fr, s);
    var n, c := LateAt(w, fuel, k, t.cond, fr, s), TypedStmt(EnvAt(w, k), t);
    if n.Done? {
      forall i | 0 <= i < |Arms(t)|
        ensures Alike(ExecAt(w, fuel, k, Arms(t)[i], fr, n.store), EagerExecAt(w, fuel, k, Arms(t)[i], fr, n.store))
      {
        StmtAlike(w, fuel, k, Arms(t)[i], fr, n.store);
      }
      assert Arms(t)[0] == t.thn && (t.IfElse? ==> Arms(t)[1] == t.els);
    }
    BranchAlike(Prog(w), fuel, c, fr, s);
  }

  lemma WhileAlike(w: Setting, fuel: nat, k: Place, t: TreeStmt, fr: Frame, s: Store)
    requires StmtInOrder(w, k, t, fr, s) && t.While?
    ensures Alike(ExecAt(w, fuel, k, t, fr, s), EagerExecAt(w, fuel, k, t, fr, s))
    decreases fuel, t, 1
  {
    hide Ready, InOrder, Prog, EnvAt, Alike, Source.Exec, EagerExec, Late, Eager, Typed, TypedStmt, StmtSound, Sound, OrderlyStmt, OrderlyProgram, Kept, FrameOk, OfLanguage;
    TestParts(w, k, t, fr, s);
    if fuel > 0 {
      EvalAlike(w, fuel, k, t.cond, fr, s);
      ReadyAfter(w, fuel, k, t.cond, fr, s);
      var n := LateAt(w, fuel, k, t.cond, fr, s);
      if n.Done? && n.v != 0 {
        assert Arms(t)[0] == t.body;
        StmtAlike(w, fuel, k, t.body, fr, n.store);
        ExecTyped(w, fuel, k, t.body, fr, n.store);
        var b := ExecAt(w, fuel, k, t.body, fr, n.store);
        if b.Done? {
          ReadyIn(w, k, fr, n.store, b.v, b.store);
          StmtAlike(w, fuel - 1, k, t, b.v, b.store);
        }
      }
    }
    LoopAlike(Prog(w), fuel, TypedStmt(EnvAt(w, k), t), fr, s);
  }

  lemma {:induction false} StmtsAlike(w: Setting, fuel: nat, k: Place, ts: seq<TreeStmt>, fr: Frame, s: Store)
    requires Ready(w, k, fr, s) && BodyInOrder(w, k, ts) && OrderlyProgram(Prog(w))
    ensures Alike(BodyAt(w, fuel, k, ts, fr, s), EagerBodyAt(w, fuel, k, ts, fr, s))
    decreases fuel, ts
  {
    hide Ready, StmtSound, EnvAt, Prog, Kept, FrameOk, OfLanguage, OrderlyProgram, OrderlyStmt, TypedStmt, Source.Exec, EagerExec, Alike, BodySound;
    if ts == [] {
      NoStmtsAlike(w, fuel, k, fr, s);
    } else {
      BodyFirst(w, k, ts);
      var cs := TypedStmts(EnvAt(w, k), ts);
      assert cs[0] == TypedStmt(EnvAt(w, k), ts[0]) && cs[1..] == TypedStmts(EnvAt(w, k), ts[1..]);
      assert ts[0] in ts && forall t :: t in ts[1..] ==> t in ts;
      StmtAlike(w, fuel, k, ts[0], fr, s);
      ExecTyped(w, fuel, k, ts[0], fr, s);
      var r := ExecAt(w, fuel, k, ts[0], fr, s);
      if r.Done? {
        ReadyIn(w, k, fr, s, r.v, r.store);
        StmtsAlike(w, fuel, k, ts[1..], r.v, r.store);
      }
      BodyAlike(Prog(w), fuel, cs, fr, s);
    }
  }

  lemma NoStmtsAlike(w: Setting, fuel: nat, k: Place, fr: Frame, s: Store)
    ensures Alike(BodyAt(w, fuel, k, [], fr, s), EagerBodyAt(w, fuel, k, [], fr, s))
  {
  }

  // ----- whole programs -----

  /** In an accepted program in which no field stands unread across a call, reading late makes no difference: a run ends
      as the language asks for, with the same output, or both fail, the language for want of an object. */
  lemma RunsAlike(w: Setting, fuel: nat)
    requires Accepted(w) && OrderlyProgram(Prog(w))
    ensures Alike(Source.Run(Prog(w), fuel), EagerRun(Prog(w), fuel))
  {
    hide Accepted, Ready, BodySound, OrderlyStmt, Alike;
    MainReady(w);
    MainInOrder(w);
    StmtsAlike(w, fuel, MainPlace(w.u), w.u.mainBody, FreshFrame(Prog(w).mainSig), Source.EMPTY_STORE);
    RunIs(w, fuel);
    EagerRunIs(w, fuel);
  }

  lemma MainInOrder(w: Setting)
    requires OrderlyProgram(Prog(w)) && BodySound(w, MainPlace(w.u), w.u.mainBody)
    ensures BodyInOrder(w, MainPlace(w.u), w.u.mainBody)
  {
    hide BodySound, OrderlyStmt, TypedMethods, TypedStmt, TypedStmts;
    TypedStmtsAre(EnvAt(w, MainPlace(w.u)), w.u.mainBody);
  }

  lemma EagerRunIs(w: Setting, fuel: nat)
    ensures EagerRun(Prog(w), fuel) == EagerBodyAt(w, fuel, MainPlace(w.u), w.u.mainBody, FreshFrame(Prog(w).mainSig), Source.EMPTY_STORE)
  {
    hide TypedStmts, TypedMethods, EagerAll;
  }
}

/** Section 15.7.1 of the Java Language Specification has the left operand evaluated, and its variable read,
    before the right one. The compiled code reads a variable when the operator runs. The two agree unless a field stands
    unread to the left of a call. */
module EagerReads {
  import opened Ast
  import opened Machine
  import opened Names
  import opened Source

  predicate CallFree(e: Expr) {
    match e
    case Binary(_, l, r) => CallFree(l) && CallFree(r)
    case Not(x) => CallFree(x)
    case And(l, r) => CallFree(l) && CallFree(r)
    case Or(l, r) => CallFree(l) && CallFree(r)
    case NewArray(n) => CallFree(n)
    case ArrayAccess(a, i) => CallFree(a) && CallFree(i)
    case ArrayLength(a) => CallFree(a)
    case Call(_, _, _, _) => false
    case _ => true
  }

  // ----- the condition -----

  /** A bare identifier that names no local, so it can only be a field. */
  predicate FieldName(locals: set<string>, e: Expr) {
    e.Ident? && e.x !in locals
  }

  /** No call is made in r while e, evaluated before it, stands unread. */
  predicate Settles(locals: set<string>, e: Expr, r: Expr) {
    FieldName(locals, e) ==> CallFree(r)
  }

  /** No field stands unread across a call: to the left of one in an operator or an array access, or as the receiver of a
      call whose arguments make one. Operands of `&&` and `||` and arguments are read at their own turn. */
  predicate Orderly(locals: set<string>, e: Expr) {
    match e
    case Binary(_, l, r) => Orderly(locals, l) && Orderly(locals, r) && Settles(locals, l, r)
    case ArrayAccess(l, r) => Orderly(locals, l) && Orderly(locals, r) && Settles(locals, l, r)
    case And(l, r) => Orderly(locals, l) && Orderly(locals, r)
    case Or(l, r) => Orderly(locals, l) && Orderly(locals, r)
    case Not(x) => Orderly(locals, x)
    case NewArray(x) => Orderly(locals, x)
    case ArrayLength(x) => Orderly(locals, x)
    case Call(r, _, _, args) =>
      Orderly(locals, r) && (forall a | a in args :: Orderly(locals, a)) && (FieldName(locals, r) ==> forall a | a in args :: CallFree(a))
    case _ => true
  }

  /** In an array assignment the array's name stands first, then the index, then the value. */
  predicate OrderlyStmt(locals: set<string>, t: Stmt) {
    match t
    case Assign(_, e) => Orderly(locals, e)
    case ArrayAssign(x, i, e) =>
      Orderly(locals, i) && Orderly(locals, e) && Settles(locals, Ident(x), i) && Settles(locals, Ident(x), e) && Settles(locals, i, e)
    case Print(e) => Orderly(locals, e)
    case If(c, t) => Orderly(locals, c) && OrderlyStmt(locals, t)
    case IfElse(c, t, f) => Orderly(locals, c) && OrderlyStmt(locals, t) && OrderlyStmt(locals, f)
    case While(c, b) => Orderly(locals, c) && OrderlyStmt(locals, b)
    case Block(ts) => forall t | t in ts :: OrderlyStmt(locals, t)
  }

  /** The condition on a program; the signatures say which names are locals. */
  ghost predicate OrderlyProgram(p: Program) {
    && (forall t | t in p.mainBody :: OrderlyStmt(p.mainSig.locals, t))
    && forall m {:trigger p.methods[m]} | m in p.methods :: OrderlyMethod(p.methods[m])
  }

  ghost predicate OrderlyMethod(m: Method) {
    (forall t | t in m.body :: OrderlyStmt(m.sig.locals, t)) && Orderly(m.sig.locals, m.result)
  }

  // ----- the language's order -----

  /** Evaluation as the language has it: each identifier is read where it stands. */
  function Eager(p: Program, fuel: nat, e: Expr, fr: Frame, s: Store): Outcome<int>
    decreases fuel, e
  {
    match e
    case IntLit(n) => Done(n, s)
    case BoolLit(b) => Done(OfBool(b), s)
    case Ident(x) => Lift(GetVar(x, fr, s), s)
    case This => Lift(GetVar("this", fr, s), s)
    case Binary(op, l, r) =>
      var (x, s1) :- Eager(p, fuel, l, fr, s);
      var (y, s2) :- Eager(p, fuel, r, fr, s1);
      Lift(Apply(op, x, y), s2)
    case Not(r) =>
      var (x, s1) :- Eager(p, fuel, r, fr, s);
      Done(OfBool(x == 0), s1)
    case And(l, r) =>
      var (x, s1) :- Eager(p, fuel, l, fr, s);
      if x == 0 then Done(0, s1)
      else
        var (y, s2) :- Eager(p, fuel, r, fr, s1);
        Done(OfBool(y != 0), s2)
    case Or(l, r) =>
      var (x, s1) :- Eager(p, fuel, l, fr, s);
      if x != 0 then Done(1, s1)
      else
        var (y, s2) :- Eager(p, fuel, r, fr, s1);
        Done(OfBool(y != 0), s2)
    case NewObject(c) =>
      var (ref, s1) := AllocObject(FieldTable(p), c, s);
      Done(ref, s1)
    case NewArray(length) =>
      var (n, s1) :- Eager(p, fuel, length, fr, s);
      var (ref, _) :- Lift(AllocArray(n, s1), s1);
      Done(ref.0, ref.1)
    case ArrayAccess(arr, index) =>
      var (x, s1) :- Eager(p, fuel, arr, fr, s);
      var (y, s2) :- Eager(p, fuel, index, fr, s1);
      Lift(LoadElement(x, y, s2), s2)
    case ArrayLength(arr) =>
      var (x, s1) :- Eager(p, fuel, arr, fr, s);
      var (elements, _) :- Lift(ArrayAt(x, s1), s1);
      Done(|elements|, s1)
    case Call(receiver, c, m, args) =>
      var (self, s1) :- Eager(p, fuel, receiver, fr, s);
      var (xs, s2) :- EagerArgs(p, fuel, args, fr, s1);
      if fuel == 0 then Stops(Timeout(s2.out)) else EagerCall(p, fuel - 1, RootName(c, m), self, xs, s2)
  }

  function EagerArgs(p: Program, fuel: nat, args: seq<Expr>, fr: Frame, s: Store): Outcome<seq<int>>
    decreases fuel, args
  {
    if args == [] then Done([], s)
    else
      var (x, s1) :- Eager(p, fuel, args[0], fr, s);
      var (xs, s2) :- EagerArgs(p, fuel, args[1..], fr, s1);
      Done([x] + xs, s2)
  }

  function EagerCall(p: Program, fuel: nat, target: string, self: int, args: seq<int>, s: Store): Outcome<int>
    decreases fuel
  {
    if target !in p.methods then Stops(Fail(NoSuchMethod, s.out))
    else
      var m := p.methods[target];
      var (entry, _) :- Lift(Enter(m.sig, self, args, s), s);
      var (fr1, s1) :- EagerAll(p, fuel, m.body, entry.0, entry.2);
      Eager(p, fuel, m.result, fr1, s1)
  }

  function EagerExec(p: Program, fuel: nat, t: Stmt, fr: Frame, s: Store): Outcome<Frame>
    decreases fuel, t
  {
    match t
    case Assign(x, e) =>
      var (n, s1) :- Eager(p, fuel, e, fr, s);
      var (w, _) :- Lift(SetVar(x, n, fr, s1), s1);
      Done(w.0, w.1)
    case ArrayAssign(x, index, e) =>
      var (ref, _) :- Lift(GetVar(x, fr, s), s);
      var (k, s1) :- Eager(p, fuel, index, fr, s);
      var (n, s2) :- Eager(p, fuel, e, fr, s1);
      var (s3, _) :- Lift(StoreElement(ref, k, n, s2), s2);
      Done(fr, s3)
    case Print(e) =>
      var (n, s1) :- Eager(p, fuel, e, fr, s);
      Done(fr, s1.(out := s1.out + [n]))
    case If(c, thn) =>
      var (n, s1) :- Eager(p, fuel, c, fr, s);
      if n == 0 then Done(fr, s1) else EagerExec(p, fuel, thn, fr, s1)
    case IfElse(c, thn, els) =>
      var (n, s1) :- Eager(p, fuel, c, fr, s);
      if n == 0 then EagerExec(p, fuel, els, fr, s1) else EagerExec(p, fuel, thn, fr, s1)
    case While(c, body) =>
      if fuel == 0 then Stops(Timeout(s.out))
      else
        var (n, s1) :- Eager(p, fuel, c, fr, s);
        if n == 0 then Done(fr, s1)
        else
          var (fr2, s2) :- EagerExec(p, fuel, body, fr, s1);
          EagerExec(p, fuel - 1, t, fr2, s2)
    case Block(stmts) => EagerAll(p, fuel, stmts, fr, s)
  }

  function EagerAll(p: Program, fuel: nat, ts: seq<Stmt>, fr: Frame, s: Store): Outcome<Frame>
    decreases fuel, ts
  {
    if ts == [] then Done(fr, s)
    else
      var (fr1, s1) :- EagerExec(p, fuel, ts[0], fr, s);
      EagerAll(p, fuel, ts[1..], fr1, s1)
  }

  function EagerRun(p: Program, fuel: nat): Outcome<Frame> {
    EagerAll(p, fuel, p.mainBody, FreshFrame(p.mainSig), EMPTY_STORE)
  }

  /** Evaluation as the compiled code has it, the value read at the end. */
  function Late(p: Program, fuel: nat, e: Expr, fr: Frame, s: Store): Outcome<int> {
    var (v, s1) :- Eval(p, fuel, e, fr, s);
    Read(v, fr, s1)
  }

  // ----- without calls -----

  /** Every identifier of e resolves to a variable. */
  predicate Resolved(e: Expr, fr: Frame, s: Store) {
    match e
    case Ident(x) => GetVar(x, fr, s).Ok?
    case This => GetVar("this", fr, s).Ok?
    case Binary(_, l, r) => Resolved(l, fr, s) && Resolved(r, fr, s)
    case Not(x) => Resolved(x, fr, s)
    case And(l, r) => Resolved(l, fr, s) && Resolved(r, fr, s)
    case Or(l, r) => Resolved(l, fr, s) && Resolved(r, fr, s)
    case NewArray(n) => Resolved(n, fr, s)
    case ArrayAccess(a, i) => Resolved(a, fr, s) && Resolved(i, fr, s)
    case ArrayLength(a) => Resolved(a, fr, s)
    case Call(r, _, _, args) => Resolved(r, fr, s) && forall a | a in args :: Resolved(a, fr, s)
    case _ => true
  }

  /** The store has only been extended by new objects and arrays. */
  predicate Extends(s: Store, s': Store) {
    s.objects <= s'.objects && s.arrays <= s'.arrays && s'.out == s.out
  }

  lemma ExtendsTrans(a: Store, b: Store, c: Store)
    requires Extends(a, b) && Extends(b, c)
    ensures Extends(a, c)
  {
  }

  lemma ExtendsKeeps(x: string, fr: Frame, s: Store, s': Store)
    requires Extends(s, s') && GetVar(x, fr, s).Ok?
    ensures GetVar(x, fr, s') == GetVar(x, fr, s)
  {
  }

  lemma {:induction false} ExtendsResolved(e: Expr, fr: Frame, s: Store, s': Store)
    requires Extends(s, s') && Resolved(e, fr, s)
    ensures Resolved(e, fr, s')
  {
    hide GetVar, Extends;
    match e
    case Ident(x) => ExtendsKeeps(x, fr, s, s');
    case This => ExtendsKeeps("this", fr, s, s');
    case Binary(_, l, r) => ExtendsResolved(l, fr, s, s'); ExtendsResolved(r, fr, s, s');
    case Not(r) => ExtendsResolved(r, fr, s, s');
    case And(l, r) => ExtendsResolved(l, fr, s, s'); ExtendsResolved(r, fr, s, s');
    case Or(l, r) => ExtendsResolved(l, fr, s, s'); ExtendsResolved(r, fr, s, s');
    case NewArray(r) => ExtendsResolved(r, fr, s, s');
    case ArrayAccess(l, r) => ExtendsResolved(l, fr, s, s'); ExtendsResolved(r, fr, s, s');
    case ArrayLength(r) => ExtendsResolved(r, fr, s, s');
    case Call(r, _, _, args) =>
      ExtendsResolved(r, fr, s, s');
      forall a | a in args
        ensures Resolved(a, fr, s')
      {
        ExtendsResolved(a, fr, s, s');
      }
    case _ =>
  }

  /** The value can be read, now and in any extension, with the same result n. */
  predicate Settled(v: Value, n: int, fr: Frame, s: Store) {
    Force(v, fr, s) == Ok(n)
  }

  lemma SettledStays(v: Value, n: int, fr: Frame, s: Store, s': Store)
    requires Settled(v, n, fr, s) && Extends(s, s')
    ensures Settled(v, n, fr, s')
  {
    hide GetVar, Extends;
    if v.Later? { ExtendsKeeps(v.x, fr, s, s'); }
  }

  /** What evaluating e both ways gives: the same value, or the same stop. */
  ghost predicate Agree(late: Outcome<Value>, eager: Outcome<int>, fr: Frame, s: Store) {
    match late
    case Stops(why) => eager == Stops(why)
    case Done(v, s') => eager.Done? && eager.store == s' && Settled(v, eager.v, fr, s') && Extends(s, s')
  }

  lemma {:induction false} CallFreeAgree(p: Program, fuel: nat, e: Expr, fr: Frame, s: Store)
    requires CallFree(e) && Resolved(e, fr, s)
    ensures Agree(Eval(p, fuel, e, fr, s), Eager(p, fuel, e, fr, s), fr, s)
    decreases e
  {
    hide GetVar, Extends, Apply, LoadElement, ArrayAt, AllocArray, AllocObject, FieldTable, OfBool, Resolved;
    ResolvedParts(e, fr, s);
    match e
    case Binary(op, l, r) => PairAgree(p, fuel, e, l, r, fr, s);
    case ArrayAccess(l, r) => PairAgree(p, fuel, e, l, r, fr, s);
    case And(l, r) => ShortAgree(p, fuel, e, l, r, fr, s);
    case Or(l, r) => ShortAgree(p, fuel, e, l, r, fr, s);
    case Not(r) => CallFreeAgree(p, fuel, r, fr, s);
    case NewArray(r) =>
      CallFreeAgree(p, fuel, r, fr, s);
      var x := Eager(p, fuel, r, fr, s);
      if x.Done? && AllocArray(x.v, x.store).Ok? {
        AllocExtends(x.v, x.store);
        ExtendsTrans(s, x.store, AllocArray(x.v, x.store).v.1);
      }
    case ArrayLength(r) => CallFreeAgree(p, fuel, r, fr, s);
    case NewObject(c) => ObjectExtends(FieldTable(p), c, s);
    case Ident(x) => ExtendsRefl(s);
    case This => ExtendsRefl(s);
    case IntLit(_) => ExtendsRefl(s);
    case BoolLit(_) => ExtendsRefl(s);
  }

  lemma ExtendsRefl(s: Store)
    ensures Extends(s, s)
  {
  }

  lemma AllocExtends(n: int, s: Store)
    ensures AllocArray(n, s).Ok? ==> Extends(s, AllocArray(n, s).v.1)
  {
  }

  lemma ObjectExtends(ft: map<string, set<string>>, c: string, s: Store)
    ensures Extends(s, AllocObject(ft, c, s).1)
  {
  }

  lemma ResolvedParts(e: Expr, fr: Frame, s: Store)
    requires Resolved(e, fr, s)
    ensures e.Ident? ==> GetVar(e.x, fr, s).Ok?
    ensures e.This? ==> GetVar("this", fr, s).Ok?
    ensures e.Binary? ==> Resolved(e.lhs, fr, s) && Resolved(e.rhs, fr, s)
    ensures e.And? ==> Resolved(e.lhs, fr, s) && Resolved(e.rhs, fr, s)
    ensures e.Or? ==> Resolved(e.lhs, fr, s) && Resolved(e.rhs, fr, s)
    ensures e.ArrayAccess? ==> Resolved(e.arr, fr, s) && Resolved(e.index, fr, s)
    ensures e.Not? ==> Resolved(e.e, fr, s)
    ensures e.NewArray? ==> Resolved(e.length, fr, s)
    ensures e.ArrayLength? ==> Resolved(e.arr, fr, s)
  {
    hide GetVar;
  }

  lemma PairAgree(p: Program, fuel: nat, e: Expr, l: Expr, r: Expr, fr: Frame, s: Store)
    requires CallFree(l) && CallFree(r) && Resolved(l, fr, s) && Resolved(r, fr, s)
    requires e == ArrayAccess(l, r) || (e.Binary? && e.lhs == l && e.rhs == r)
    ensures Agree(Eval(p, fuel, e, fr, s), Eager(p, fuel, e, fr, s), fr, s)
    decreases e, 0
  {
    hide GetVar, Extends, Apply, LoadElement, Resolved, CallFree;
    CallFreeAgree(p, fuel, l, fr, s);
    var x := Eager(p, fuel, l, fr, s);
    var a := Eval(p, fuel, l, fr, s);
    if x.Done? {
      ExtendsResolved(r, fr, s, x.store);
      CallFreeAgree(p, fuel, r, fr, x.store);
      var y := Eager(p, fuel, r, fr, x.store);
      if y.Done? {
        SettledStays(a.v, x.v, fr, x.store, y.store);
        ExtendsTrans(s, x.store, y.store);
      }
    }
  }

  lemma ShortAgree(p: Program, fuel: nat, e: Expr, l: Expr, r: Expr, fr: Frame, s: Store)
    requires CallFree(l) && CallFree(r) && Resolved(l, fr, s) && Resolved(r, fr, s)
    requires e == And(l, r) || e == Or(l, r)
    ensures Agree(Eval(p, fuel, e, fr, s), Eager(p, fuel, e, fr, s), fr, s)
    decreases e, 0
  {
    hide GetVar, Extends, Resolved, CallFree, OfBool;
    CallFreeAgree(p, fuel, l, fr, s);
    var x := Eager(p, fuel, l, fr, s);
    if x.Done? {
      ExtendsResolved(r, fr, s, x.store);
      CallFreeAgree(p, fuel, r, fr, x.store);
      var y := Eager(p, fuel, r, fr, x.store);
      if y.Done? { ExtendsTrans(s, x.store, y.store); }
    }
  }

  /** Without calls, reading late is reading in the order of the language: same value, same failure, same store. */
  lemma LateIsEager(p: Program, fuel: nat, e: Expr, fr: Frame, s: Store)
    requires CallFree(e) && Resolved(e, fr, s)
    ensures Late(p, fuel, e, fr, s) == Eager(p, fuel, e, fr, s)
  {
    hide Eval, Eager, Resolved, CallFree, GetVar, Extends;
    CallFreeAgree(p, fuel, e, fr, s);
  }

  // ----- what late and eager evaluation have in common -----

  /** The same outcome; or eager evaluation fails for want of an object to read a field from, and the other fails too,
      after the same output. */
  ghost predicate Alike<T>(late: Outcome<T>, eager: Outcome<T>) {
    late == eager || (late.Stops? && late.why.Fail? && eager == Stops(Fail(ThisUnset, late.why.out)))
  }

  /** Without calls there is no output and no time-out, and the store is only extended. */
  ghost predicate Quiet<T>(s: Store, r: Outcome<T>) {
    if r.Done? then Extends(s, r.store) else r.why.Fail? && r.why.out == s.out
  }

  lemma {:induction false} CallFreeQuiet(p: Program, fuel: nat, e: Expr, fr: Frame, s: Store)
    requires CallFree(e)
    ensures Quiet(s, Eval(p, fuel, e, fr, s))
    decreases e
  {
    hide GetVar, Extends, Apply, LoadElement, ArrayAt, AllocArray, AllocObject, FieldTable, OfBool;
    ExtendsRefl(s);
    match e
    case Binary(_, l, r) => PairQuiet(p, fuel, l, r, e, fr, s);
    case ArrayAccess(l, r) => PairQuiet(p, fuel, l, r, e, fr, s);
    case And(l, r) => PairQuiet(p, fuel, l, r, e, fr, s);
    case Or(l, r) => PairQuiet(p, fuel, l, r, e, fr, s);
    case Not(r) => CallFreeQuiet(p, fuel, r, fr, s); ExtendsOut(s, Eval(p, fuel, r, fr, s));
    case ArrayLength(r) => CallFreeQuiet(p, fuel, r, fr, s); ExtendsOut(s, Eval(p, fuel, r, fr, s));
    case NewArray(r) =>
      CallFreeQuiet(p, fuel, r, fr, s);
      var a := Eval(p, fuel, r, fr, s);
      ExtendsOut(s, a);
      if a.Done? && Force(a.v, fr, a.store).Ok? {
        var n := Force(a.v, fr, a.store).v;
        AllocExtends(n, a.store);
        if AllocArray(n, a.store).Ok? { ExtendsTrans(s, a.store, AllocArray(n, a.store).v.1); }
      }
    case NewObject(c) => ObjectExtends(FieldTable(p), c, s);
    case _ =>
  }

  lemma ExtendsOut<T>(s: Store, r: Outcome<T>)
    requires Quiet(s, r)
    ensures r.Done? ==> r.store.out == s.out
  {
  }

  lemma PairQuiet(p: Program, fuel: nat, l: Expr, r: Expr, e: Expr, fr: Frame, s: Store)
    requires CallFree(l) && CallFree(r) && l < e && r < e
    requires e == ArrayAccess(l, r) || e == And(l, r) || e == Or(l, r) || (e.Binary? && e.lhs == l && e.rhs == r)
    ensures Quiet(s, Eval(p, fuel, e, fr, s))
    decreases e, 0
  {
    hide GetVar, Extends, Apply, LoadElement, CallFree, OfBool;
    CallFreeQuiet(p, fuel, l, fr, s);
    var a := Eval(p, fuel, l, fr, s);
    ExtendsOut(s, a);
    if a.Done? {
      CallFreeQuiet(p, fuel, r, fr, a.store);
      var b := Eval(p, fuel, r, fr, a.store);
      ExtendsOut(a.store, b);
      if b.Done? { ExtendsTrans(s, a.store, b.store); }
    }
  }

  lemma {:induction false} ArgsQuiet(p: Program, fuel: nat, args: seq<Expr>, fr: Frame, s: Store)
    requires forall a | a in args :: CallFree(a)
    ensures Quiet(s, EvalArgs(p, fuel, args, fr, s))
    decreases args
  {
    hide GetVar, Extends, CallFree;
    ExtendsRefl(s);
    if args != [] {
      CallFreeQuiet(p, fuel, args[0], fr, s);
      var a := Eval(p, fuel, args[0], fr, s);
      ExtendsOut(s, a);
      if a.Done? {
        ArgsQuiet(p, fuel, args[1..], fr, a.store);
        var xs := EvalArgs(p, fuel, args[1..], fr, a.store);
        if xs.Done? { ExtendsTrans(s, a.store, xs.store); }
      }
    }
  }

  /** Only identifiers and `this` are left to be read. */
  lemma LaterIs(p: Program, fuel: nat, e: Expr, fr: Frame, s: Store)
    ensures var a := Eval(p, fuel, e, fr, s);
            a.Done? && a.v.Later? ==> a.store == s && ((e.Ident? && a.v.x == e.x) || (e.This? && a.v.x == "this"))
  {
  }

  /** Reading v fails, if at all, for want of an object. */
  ghost predicate Readable(v: Value, fr: Frame, s: Store) {
    Force(v, fr, s).Err? ==> Force(v, fr, s).f == ThisUnset
  }

  /** Between s and s' nothing that v could notice has happened. */
  ghost predicate Unnoticed(v: Value, fr: Frame, s: Store, s': Store) {
    Force(v, fr, s') == Force(v, fr, s) && (Force(v, fr, s).Err? ==> s'.out == s.out)
  }

  /** A value left unread reads the same after whatever its condition allows in between. */
  lemma StillReads(p: Program, fuel: nat, e: Expr, fr: Frame, s: Store, s': Store)
    requires var a := Eval(p, fuel, e, fr, s);
             a.Done? && Readable(a.v, fr, a.store) && (FieldName(fr.locals.Keys, e) ==> Extends(a.store, s'))
    ensures Unnoticed(Eval(p, fuel, e, fr, s).v, fr, Eval(p, fuel, e, fr, s).store, s')
  {
    LaterIs(p, fuel, e, fr, s);
  }

  /** Two operands, the second evaluated while the first may stand unread. */
  ghost predicate Steady<T>(p: Program, fuel: nat, l: Expr, fr: Frame, s: Store, b: Outcome<T>) {
    var a := Eval(p, fuel, l, fr, s);
    && Alike(Late(p, fuel, l, fr, s), Eager(p, fuel, l, fr, s))
    && (a.Done? ==> Readable(a.v, fr, a.store) && (FieldName(fr.locals.Keys, l) ==> Quiet(a.store, b)))
  }

  /** What cannot be read is a field. */
  lemma ErrIsField(p: Program, fuel: nat, e: Expr, fr: Frame, s: Store)
    requires var a := Eval(p, fuel, e, fr, s);
             a.Done? && Readable(a.v, fr, a.store) && Force(a.v, fr, a.store).Err?
    ensures FieldName(fr.locals.Keys, e)
  {
    LaterIs(p, fuel, e, fr, s);
  }

  /** From there on: if l can be read, eager evaluation has read the same number and goes on from the same store; if not,
      it has failed already, and the other will, or r fails before. */
  lemma SteadyMeans<T>(p: Program, fuel: nat, l: Expr, fr: Frame, s: Store, b: Outcome<T>)
    requires Steady(p, fuel, l, fr, s, b)
    ensures var a, x := Eval(p, fuel, l, fr, s), Eager(p, fuel, l, fr, s);
            && (a.Stops? ==> Alike(Stops(a.why), x))
            && (a.Done? && Force(a.v, fr, a.store).Ok? ==> x == Done(Force(a.v, fr, a.store).v, a.store))
            && (a.Done? && Force(a.v, fr, a.store).Err? ==> x == Stops(Fail(ThisUnset, a.store.out)))
            && (a.Done? && b.Done? ==> Force(a.v, fr, b.store) == Force(a.v, fr, a.store))
            && (a.Done? && b.Done? && Force(a.v, fr, a.store).Err? ==> b.store.out == a.store.out && Force(a.v, fr, b.store) == Err(ThisUnset))
            && (a.Done? && b.Stops? && Force(a.v, fr, a.store).Err? ==> b.why.Fail? && b.why.out == a.store.out)
  {
    hide Eval, Eager, FieldName, Extends, Force;
    var a := Eval(p, fuel, l, fr, s);
    if a.Done? {
      if Force(a.v, fr, a.store).Err? { ErrIsField(p, fuel, l, fr, s); }
      ExtendsOutAll(a.store, b, FieldName(fr.locals.Keys, l));
      if b.Done? { StillReads(p, fuel, l, fr, s, b.store); }
    }
  }

  lemma ExtendsOutAll<T>(s: Store, b: Outcome<T>, quiet: bool)
    requires quiet ==> Quiet(s, b)
    ensures quiet ==> (b.Done? ==> Extends(s, b.store) && b.store.out == s.out) && (b.Stops? ==> b.why.Fail? && b.why.out == s.out)
  {
  }

  lemma PairAlike(p: Program, fuel: nat, e: Expr, l: Expr, r: Expr, fr: Frame, s: Store)
    requires e == ArrayAccess(l, r) || (e.Binary? && e.lhs == l && e.rhs == r)
    requires var a := Eval(p, fuel, l, fr, s);
             Steady(p, fuel, l, fr, s, if a.Done? then Eval(p, fuel, r, fr, a.store) else a)
    requires var a := Eval(p, fuel, l, fr, s);
             a.Done? ==> Alike(Late(p, fuel, r, fr, a.store), Eager(p, fuel, r, fr, a.store))
    ensures Alike(Late(p, fuel, e, fr, s), Eager(p, fuel, e, fr, s))
  {
    hide GetVar, Apply, LoadElement, Steady;
    var a := Eval(p, fuel, l, fr, s);
    SteadyMeans(p, fuel, l, fr, s, if a.Done? then Eval(p, fuel, r, fr, a.store) else a);
  }

  /** Operators that read their operands at once. */
  lemma ShortAlike(p: Program, fuel: nat, e: Expr, l: Expr, r: Expr, fr: Frame, s: Store)
    requires e == And(l, r) || e == Or(l, r)
    requires Alike(Late(p, fuel, l, fr, s), Eager(p, fuel, l, fr, s))
    requires var x := Late(p, fuel, l, fr, s);
             x.Done? ==> Alike(Late(p, fuel, r, fr, x.store), Eager(p, fuel, r, fr, x.store))
    ensures Alike(Late(p, fuel, e, fr, s), Eager(p, fuel, e, fr, s))
  {
    hide GetVar, OfBool;
  }

  lemma OneAlike(p: Program, fuel: nat, e: Expr, r: Expr, fr: Frame, s: Store)
    requires e == Not(r) || e == NewArray(r) || e == ArrayLength(r)
    requires Alike(Late(p, fuel, r, fr, s), Eager(p, fuel, r, fr, s))
    ensures Alike(Late(p, fuel, e, fr, s), Eager(p, fuel, e, fr, s))
  {
    hide GetVar, OfBool, AllocArray, ArrayAt;
  }

  lemma AtomAlike(p: Program, fuel: nat, e: Expr, fr: Frame, s: Store)
    requires e.IntLit? || e.BoolLit? || e.Ident? || e.This? || e.NewObject?
    ensures Alike(Late(p, fuel, e, fr, s), Eager(p, fuel, e, fr, s))
  {
    hide GetVar, OfBool, AllocObject, FieldTable;
  }

  lemma ArgsAlike(p: Program, fuel: nat, args: seq<Expr>, fr: Frame, s: Store)
    requires args != [] && Alike(Late(p, fuel, args[0], fr, s), Eager(p, fuel, args[0], fr, s))
    requires var x := Late(p, fuel, args[0], fr, s);
             x.Done? ==> Alike(EvalArgs(p, fuel, args[1..], fr, x.store), EagerArgs(p, fuel, args[1..], fr, x.store))
    ensures Alike(EvalArgs(p, fuel, args, fr, s), EagerArgs(p, fuel, args, fr, s))
  {
    hide GetVar, Force, Eval, Eager;
  }

  lemma CallAlike(p: Program, fuel: nat, e: Expr, fr: Frame, s: Store)
    requires e.Call?
    requires var a := Eval(p, fuel, e.receiver, fr, s);
             Steady(p, fuel, e.receiver, fr, s, if a.Done? then EvalArgs(p, fuel, e.args, fr, a.store) else Stops(a.why))
    requires var a := Eval(p, fuel, e.receiver, fr, s);
             a.Done? ==> Alike(EvalArgs(p, fuel, e.args, fr, a.store), EagerArgs(p, fuel, e.args, fr, a.store))
    requires var a := Eval(p, fuel, e.receiver, fr, s);
             a.Done? ==>
               var xs := EvalArgs(p, fuel, e.args, fr, a.store);
               xs.Done? && fuel > 0 && Force(a.v, fr, xs.store).Ok? ==>
                 var root, self := RootName(e.className, e.methodName), Force(a.v, fr, xs.store).v;
                 Alike(CallMethod(p, fuel - 1, root, self, xs.v, xs.store), EagerCall(p, fuel - 1, root, self, xs.v, xs.store))
    ensures Alike(Late(p, fuel, e, fr, s), Eager(p, fuel, e, fr, s))
  {
    hide GetVar, Steady, CallMethod, EagerCall, EvalArgs, EagerArgs, RootName;
    var a := Eval(p, fuel, e.receiver, fr, s);
    SteadyMeans(p, fuel, e.receiver, fr, s, if a.Done? then EvalArgs(p, fuel, e.args, fr, a.store) else Stops(a.why));
  }

  lemma MethodAlike(p: Program, fuel: nat, target: string, self: int, args: seq<int>, s: Store)
    requires target in p.methods
    requires var r := Enter(p.methods[target].sig, self, args, s);
             r.Ok? ==>
               var m, fr, s0 := p.methods[target], r.v.0, r.v.2;
               && Alike(ExecAll(p, fuel, m.body, fr, s0), EagerAll(p, fuel, m.body, fr, s0))
               && var b := ExecAll(p, fuel, m.body, fr, s0);
                  b.Done? ==> Alike(Late(p, fuel, m.result, b.v, b.store), Eager(p, fuel, m.result, b.v, b.store))
    ensures Alike(CallMethod(p, fuel, target, self, args, s), EagerCall(p, fuel, target, self, args, s))
  {
    hide GetVar, Force, Enter, ExecAll, EagerAll, Eval, Eager;
  }

  // ----- statements -----

  lemma AssignAlike(p: Program, fuel: nat, t: Stmt, fr: Frame, s: Store)
    requires (t.Assign? || t.Print?) && Alike(Late(p, fuel, t.e, fr, s), Eager(p, fuel, t.e, fr, s))
    ensures Alike(Exec(p, fuel, t, fr, s), EagerExec(p, fuel, t, fr, s))
  {
    hide GetVar, Force, SetVar, Eval, Eager;
  }

  lemma ArrayAssignAlike(p: Program, fuel: nat, t: Stmt, fr: Frame, s: Store)
    requires t.ArrayAssign? && Readable(Later(t.x), fr, s)
    requires FieldName(fr.locals.Keys, Ident(t.x)) ==> CallFree(t.index) && CallFree(t.e)
    requires var a := Eval(p, fuel, t.index, fr, s);
             && Steady(p, fuel, t.index, fr, s, if a.Done? then Eval(p, fuel, t.e, fr, a.store) else a)
             && (a.Done? ==> Alike(Late(p, fuel, t.e, fr, a.store), Eager(p, fuel, t.e, fr, a.store)))
    ensures Alike(Exec(p, fuel, t, fr, s), EagerExec(p, fuel, t, fr, s))
  {
    hide GetVar, StoreElement, Steady, CallFree, Eval, Eager, Extends;
    var a := Eval(p, fuel, t.index, fr, s);
    var b := if a.Done? then Eval(p, fuel, t.e, fr, a.store) else a;
    SteadyMeans(p, fuel, t.index, fr, s, b);
    NameSteady(p, fuel, t, fr, s);
  }

  /** The array's name reads the same before and after index and value. */
  lemma NameSteady(p: Program, fuel: nat, t: Stmt, fr: Frame, s: Store)
    requires t.ArrayAssign? && Readable(Later(t.x), fr, s)
    requires FieldName(fr.locals.Keys, Ident(t.x)) ==> CallFree(t.index) && CallFree(t.e)
    ensures var v, a := Later(t.x), Eval(p, fuel, t.index, fr, s);
            && (a.Stops? && Force(v, fr, s).Err? ==> a.why.Fail? && a.why.out == s.out)
            && (a.Done? ==>
                  var b := Eval(p, fuel, t.e, fr, a.store);
                  && (b.Stops? && Force(v, fr, s).Err? ==> b.why.Fail? && b.why.out == s.out)
                  && (b.Done? ==> Unnoticed(v, fr, s, b.store)))
  {
    hide Eval, Extends, CallFree;
    assert Eval(p, fuel, Ident(t.x), fr, s) == Done(Later(t.x), s) by { IdentEval(p, fuel, t.x, fr, s); }
    var e, a := Ident(t.x), Eval(p, fuel, t.index, fr, s);
    if Force(Later(t.x), fr, s).Err? { ErrIsField(p, fuel, e, fr, s); }
    if FieldName(fr.locals.Keys, e) {
      CallFreeQuiet(p, fuel, t.index, fr, s);
      ExtendsOutAll(s, a, true);
    }
    if a.Done? {
      var b := Eval(p, fuel, t.e, fr, a.store);
      if FieldName(fr.locals.Keys, e) {
        CallFreeQuiet(p, fuel, t.e, fr, a.store);
        ExtendsOutAll(a.store, b, true);
        if b.Done? { ExtendsTrans(s, a.store, b.store); }
      }
      if b.Done? { StillReads(p, fuel, e, fr, s, b.store); }
    }
  }

  lemma IdentEval(p: Program, fuel: nat, x: string, fr: Frame, s: Store)
    ensures Eval(p, fuel, Ident(x), fr, s) == Done(Later(x), s)
  {
  }

  /** The statement that a test leads to, if any. */
  function Next(t: Stmt, n: int): seq<Stmt>
    requires t.If? || t.IfElse?
  {
    if n != 0 then [t.thn] else if t.IfElse? then [t.els] else []
  }

  lemma BranchAlike(p: Program, fuel: nat, t: Stmt, fr: Frame, s: Store)
    requires (t.If? || t.IfElse?) && Alike(Late(p, fuel, t.cond, fr, s), Eager(p, fuel, t.cond, fr, s))
    requires var n := Late(p, fuel, t.cond, fr, s);
             n.Done? ==> forall arm {:trigger arm in Next(t, n.v)} | arm in Next(t, n.v) :: Alike(Exec(p, fuel, arm, fr, n.store), EagerExec(p, fuel, arm, fr, n.store))
    ensures Alike(Exec(p, fuel, t, fr, s), EagerExec(p, fuel, t, fr, s))
  {
    hide GetVar, Force, Eval, Eager;
    var n := Late(p, fuel, t.cond, fr, s);
    if n.Done? && Next(t, n.v) != [] { assert Next(t, n.v)[0] in Next(t, n.v); }
  }

  lemma LoopAlike(p: Program, fuel: nat, t: Stmt, fr: Frame, s: Store)
    requires t.While? && (fuel > 0 ==> Alike(Late(p, fuel, t.cond, fr, s), Eager(p, fuel, t.cond, fr, s)))
    requires var n := Late(p, fuel, t.cond, fr, s);
             fuel > 0 && n.Done? && n.v != 0 ==>
               && Alike(Exec(p, fuel, t.body, fr, n.store), EagerExec(p, fuel, t.body, fr, n.store))
               && var b := Exec(p, fuel, t.body, fr, n.store);
                  b.Done? ==> Alike(Exec(p, fuel - 1, t, b.v, b.store), EagerExec(p, fuel - 1, t, b.v, b.store))
    ensures Alike(Exec(p, fuel, t, fr, s), EagerExec(p, fuel, t, fr, s))
  {
    hide GetVar, Force, Eval, Eager;
  }

  lemma BodyAlike(p: Program, fuel: nat, ts: seq<Stmt>, fr: Frame, s: Store)
    requires ts != [] && Alike(Exec(p, fuel, ts[0], fr, s), EagerExec(p, fuel, ts[0], fr, s))
    requires var r := Exec(p, fuel, ts[0], fr, s);
             r.Done? ==> Alike(ExecAll(p, fuel, ts[1..], r.v, r.store), EagerAll(p, fuel, ts[1..], r.v, r.store))
    ensures Alike(ExecAll(p, fuel, ts, fr, s), EagerAll(p, fuel, ts, fr, s))
  {
    hide Exec, EagerExec;
  }

  // ----- exactly when, for a field left of a call -----

  /** `x op r` with x a field: whatever r does, the late result is the eager one if and only if the operator gives the same
      on the values that x has before and after r. */
  lemma OperatorExactly(p: Program, fuel: nat, op: BinaryOp, x: string, r: Expr, fr: Frame, s: Store)
    requires var y := Eager(p, fuel, r, fr, s);
             Late(p, fuel, r, fr, s) == y && y.Done? && GetVar(x, fr, s).Ok? && GetVar(x, fr, y.store).Ok?
    ensures var y, e := Eager(p, fuel, r, fr, s), Binary(op, Ident(x), r);
            Late(p, fuel, e, fr, s) == Eager(p, fuel, e, fr, s) <==>
            Apply(op, GetVar(x, fr, s).v, y.v) == Apply(op, GetVar(x, fr, y.store).v, y.v)
  {
    hide GetVar, Apply;
    assert Eval(p, fuel, Ident(x), fr, s) == Done(Later(x), s) && Eager(p, fuel, Ident(x), fr, s) == Lift(GetVar(x, fr, s), s);
  }

  /** For sums, differences and products by anything but 0, that is: if and only if r leaves x as it is. */
  lemma SumsExactly(op: BinaryOp, before: int, after: int, y: int)
    requires op.Add? || op.Subtract? || (op.Multiply? && y != 0)
    ensures Apply(op, before, y) == Apply(op, after, y) <==> before == after
  {
    if op.Multiply? && before * y == after * y { assert (before - after) * y == 0; }
  }

  /** `x[r]`. */
  lemma AccessExactly(p: Program, fuel: nat, x: string, r: Expr, fr: Frame, s: Store)
    requires var y := Eager(p, fuel, r, fr, s);
             Late(p, fuel, r, fr, s) == y && y.Done? && GetVar(x, fr, s).Ok? && GetVar(x, fr, y.store).Ok?
    ensures var y, e := Eager(p, fuel, r, fr, s), ArrayAccess(Ident(x), r);
            Late(p, fuel, e, fr, s) == Eager(p, fuel, e, fr, s) <==>
            LoadElement(GetVar(x, fr, s).v, y.v, y.store) == LoadElement(GetVar(x, fr, y.store).v, y.v, y.store)
  {
    hide GetVar, LoadElement;
    assert Eval(p, fuel, Ident(x), fr, s) == Done(Later(x), s) && Eager(p, fuel, Ident(x), fr, s) == Lift(GetVar(x, fr, s), s);
  }

  /** `x.m(args)`: if and only if the method, called on the object that x denotes before the arguments and on the one it
      denotes after them, does the same. */
  lemma ReceiverExactly(p: Program, fuel: nat, x: string, c: string, m: string, args: seq<Expr>, fr: Frame, s: Store)
    requires fuel > 0 && GetVar(x, fr, s).Ok?
    requires var ys := EagerArgs(p, fuel, args, fr, s);
             && EvalArgs(p, fuel, args, fr, s) == ys && ys.Done? && GetVar(x, fr, ys.store).Ok?
    ensures var ys, e, root := EagerArgs(p, fuel, args, fr, s), Call(Ident(x), c, m, args), RootName(c, m);
            Late(p, fuel, e, fr, s) == Eager(p, fuel, e, fr, s) <==>
            CallMethod(p, fuel - 1, root, GetVar(x, fr, ys.store).v, ys.v, ys.store) == EagerCall(p, fuel - 1, root, GetVar(x, fr, s).v, ys.v, ys.store)
  {
    hide GetVar, CallMethod, EagerCall, EvalArgs, EagerArgs, RootName;
    assert Eval(p, fuel, Ident(x), fr, s) == Done(Later(x), s) && Eager(p, fuel, Ident(x), fr, s) == Lift(GetVar(x, fr, s), s);
  }

  /** `x[i] = e`, index and value being in order: if and only if the same array is written, or writing fails alike. */
  lemma ArrayAssignExactly(p: Program, fuel: nat, x: string, i: Expr, e: Expr, fr: Frame, s: Store)
    requires var j := Eager(p, fuel, i, fr, s);
             && j.Done? && Eval(p, fuel, i, fr, s) == Done(Now(j.v), j.store)
             && var n := Eager(p, fuel, e, fr, j.store);
                Late(p, fuel, e, fr, j.store) == n && n.Done? && GetVar(x, fr, s).Ok? && GetVar(x, fr, n.store).Ok?
    ensures var j := Eager(p, fuel, i, fr, s);
            var n, t := Eager(p, fuel, e, fr, j.store), ArrayAssign(x, i, e);
            Exec(p, fuel, t, fr, s) == EagerExec(p, fuel, t, fr, s) <==>
            StoreElement(GetVar(x, fr, s).v, j.v, n.v, n.store) == StoreElement(GetVar(x, fr, n.store).v, j.v, n.v, n.store)
  {
    hide GetVar, StoreElement, Eval, Eager;
  }
}

/** Accepted programs do not go wrong. Every value has its static type while the source program runs, so the only
    faults left are those of the language: division by zero, null references, array bounds and lengths, and a field
    used without an object. The one hypothesis that the type checker does not establish is that identifiers resolve
    to variables; it also accepts the names of classes and methods. */
module TypeSoundness {
  import A = Ast
  import P = Parsing
  import opened Machine
  import opened Names
  import opened TypeChecking
  import opened TypedStores
  import Source

  // ----- expressions -----

  ghost predicate ValueOk(w: Setting, k: Place, v: Source.Value, t: string, s: Store) {
    match v
    case Now(n) => HasType(w, n, t, s)
    case Later(x) => x in EnvAt(w, k).vars && EnvAt(w, k).vars[x] == t
  }

  predicate Fine<T>(r: Source.Outcome<T>) {
    r.Stops? && r.why.Fail? ==> OfLanguage(r.why.f)
  }

  ghost predicate Kept(w: Setting, s: Store, s': Store) {
    StoreOk(w, s') && Grown(s, s')
  }

  ghost predicate EvalOk(w: Setting, k: Place, t: string, s: Store, r: Source.Outcome<Source.Value>) {
    Fine(r) && (r.Done? ==> ValueOk(w, k, r.v, t, r.store) && Kept(w, s, r.store))
  }

  /** What an expression needs to be evaluated at k. */
  ghost predicate Ready(w: Setting, k: Place, fr: Frame, s: Store) {
    Accepted(w) && InUnit(w.u, k) && FrameOk(w, k, fr, s) && StoreOk(w, s)
  }

  predicate Sound(w: Setting, k: Place, e: P.Tree) {
    Lexed(e) && Resolves(EnvAt(w, k), e) && CheckExpr(EnvAt(w, k), e).errors == 0
  }

  function TypeOf(w: Setting, k: Place, e: P.Tree): string {
    CheckExpr(EnvAt(w, k), e).name
  }

  lemma ReadyAgain(w: Setting, k: Place, fr: Frame, s: Store, s': Store)
    requires Ready(w, k, fr, s) && Kept(w, s, s')
    ensures Ready(w, k, fr, s')
  {
    hide Accepted, InUnit, StoreOk, FrameOk, Grown;
    FrameStays(w, k, fr, s, s');
  }

  lemma KeptTrans(w: Setting, a: Store, b: Store, c: Store)
    requires Kept(w, a, b) && Kept(w, b, c)
    ensures Kept(w, a, c)
  {
    hide StoreOk, Grown;
    GrownTrans(a, b, c);
  }

  /** Reading a typed value gives a number of its type. */
  lemma ForceTyped(w: Setting, k: Place, v: Source.Value, t: string, fr: Frame, s: Store)
    requires Ready(w, k, fr, s) && ValueOk(w, k, v, t, s)
    ensures Source.Force(v, fr, s).Ok? ==> HasType(w, Source.Force(v, fr, s).v, t, s)
    ensures Source.Force(v, fr, s).Err? ==> OfLanguage(Source.Force(v, fr, s).f)
  {
    hide InUnit, StoreOk, FrameOk, HasType, EnvAt, GetVar, CheckUnit, UnitResolves, WellDeclared, Tabled;
    if v.Later? { GetTyped(w, k, v.x, fr, s); }
  }

  lemma ValueStays(w: Setting, k: Place, v: Source.Value, t: string, s: Store, s': Store)
    requires ValueOk(w, k, v, t, s) && Kept(w, s, s')
    ensures ValueOk(w, k, v, t, s')
  {
    hide StoreOk, Grown, HasType, EnvAt;
    if v.Now? { TypeStays(w, v.n, t, s, s'); }
  }

  function Prog(w: Setting): A.Program {
    TypedUnit(w.classes, w.u)
  }

  function EvalAt(w: Setting, fuel: nat, k: Place, e: P.Tree, fr: Frame, s: Store): Source.Outcome<Source.Value> {
    Source.Eval(Prog(w), fuel, Typed(EnvAt(w, k), e), fr, s)
  }

  lemma EnvDeclared(w: Setting, k: Place)
    requires Accepted(w) && InUnit(w.u, k)
    ensures Declared(EnvAt(w, k))
  {
    hide CheckUnit, UnitResolves, Tabled, Declared, LexedMethod, LexedStmt;
    if k != MainPlace(w.u) {
      var d :| d in w.u.methods && k == PlaceOf(d);
      assert Declared(EnvIn(w.classes, d));
    }
  }

  /** What acceptance says about the parts of an operator. */
  lemma InfixParts(w: Setting, k: Place, op: P.Operator, l: P.Tree, r: P.Tree)
    requires Sound(w, k, P.Infix(op, l, r)) && Declared(EnvAt(w, k))
    ensures Sound(w, k, l) && Sound(w, k, r)
    ensures OperatorType(op, TypeOf(w, k, l), TypeOf(w, k, r)) == P.Some(TypeOf(w, k, P.Infix(op, l, r)))
  {
    hide Declared, OperatorType, EnvAt;
    ErrorsExactly(EnvAt(w, k), l);
    ErrorsExactly(EnvAt(w, k), r);
  }

  lemma OneParts(w: Setting, k: Place, e: P.Tree, r: P.Tree)
    requires Sound(w, k, e) && Declared(EnvAt(w, k)) && (e == P.Not(r) || e == P.NewArray(r) || e == P.Length(r))
    ensures Sound(w, k, r)
    ensures TypeOf(w, k, r) == (if e.Not? then "boolean" else if e.NewArray? then "int" else "int[]")
    ensures TypeOf(w, k, e) == (if e.Not? then "boolean" else if e.NewArray? then "int[]" else "int")
  {
    hide Declared, EnvAt;
    ErrorsExactly(EnvAt(w, k), r);
  }

  lemma IndexParts(w: Setting, k: Place, a: P.Tree, i: P.Tree)
    requires Sound(w, k, P.Index(a, i)) && Declared(EnvAt(w, k))
    ensures Sound(w, k, a) && Sound(w, k, i) && TypeOf(w, k, a) == "int[]" && TypeOf(w, k, i) == "int" && TypeOf(w, k, P.Index(a, i)) == "int"
  {
    hide Declared, EnvAt;
    ErrorsExactly(EnvAt(w, k), a);
    ErrorsExactly(EnvAt(w, k), i);
  }

  /** Operators map values of their operand types to values of their result type. */
  lemma OperatorTyped(w: Setting, op: P.Operator, x: int, y: int, t: string, t': string, s: Store)
    requires HasType(w, x, t, s) && HasType(w, y, t', s) && OperatorType(op, t, t').Some? && !op.And? && !op.Or?
    ensures var r := Apply(AstOperator(op).value, x, y);
            if r.Ok? then HasType(w, r.v, OperatorType(op, t, t').value, s) else OfLanguage(r.f)
  {
  }

  // ----- the induction -----

  lemma {:induction false} EvalTyped(w: Setting, fuel: nat, k: Place, e: P.Tree, fr: Frame, s: Store)
    requires Ready(w, k, fr, s) && Sound(w, k, e)
    ensures EvalOk(w, k, TypeOf(w, k, e), s, EvalAt(w, fuel, k, e, fr, s))
    decreases fuel, e, 2
  {
    hide Ready, Sound, EvalOk, EvalAt, TypeOf;
    match e
    case Infix(op, l, r) =>
      if op.And? || op.Or? { ShortTyped(w, fuel, k, e, l, r, fr, s); } else { InfixTyped(w, fuel, k, e, l, r, fr, s); }
    case Not(r) => OneTyped(w, fuel, k, e, r, fr, s);
    case NewArray(r) => OneTyped(w, fuel, k, e, r, fr, s);
    case Length(r) => OneTyped(w, fuel, k, e, r, fr, s);
    case Index(a, i) => IndexTyped(w, fuel, k, e, a, i, fr, s);
    case Call(r, m, args) => CallTyped(w, fuel, k, e, fr, s);
    case NewObject(c) => NewTyped(w, fuel, k, c, fr, s);
    case Integer(_) => AtomTyped(w, fuel, k, e, fr, s);
    case Name(_) => AtomTyped(w, fuel, k, e, fr, s);
    case True => AtomTyped(w, fuel, k, e, fr, s);
    case False => AtomTyped(w, fuel, k, e, fr, s);
    case This => AtomTyped(w, fuel, k, e, fr, s);
  }

  lemma NewTyped(w: Setting, fuel: nat, k: Place, c: string, fr: Frame, s: Store)
    requires Ready(w, k, fr, s) && Sound(w, k, P.NewObject(c))
    ensures EvalOk(w, k, TypeOf(w, k, P.NewObject(c)), s, EvalAt(w, fuel, k, P.NewObject(c), fr, s))
  {
    hide Accepted, InUnit, FrameOk, StoreOk, HasType, Grown, AllocObject, TypedUnit;
    NewObjectTyped(w, c, s);
  }

  lemma AtomTyped(w: Setting, fuel: nat, k: Place, e: P.Tree, fr: Frame, s: Store)
    requires Ready(w, k, fr, s) && Sound(w, k, e) && P.Atom(e)
    ensures EvalOk(w, k, TypeOf(w, k, e), s, EvalAt(w, fuel, k, e, fr, s))
  {
    hide Accepted, InUnit, FrameOk, StoreOk, TypedUnit, NumberOf;
    EnvDeclared(w, k);
    hide Declared;
    ErrorsExactly(EnvAt(w, k), e);
  }

  /** Two operands, both evaluated before either is read. */
  ghost predicate PairOk(w: Setting, fuel: nat, k: Place, l: P.Tree, r: P.Tree, fr: Frame, s: Store) {
    var a := EvalAt(w, fuel, k, l, fr, s);
    && Fine(a)
    && (a.Done? ==>
          var b := EvalAt(w, fuel, k, r, fr, a.store);
          && Fine(b)
          && (b.Done? ==> ValueOk(w, k, a.v, TypeOf(w, k, l), b.store) && ValueOk(w, k, b.v, TypeOf(w, k, r), b.store)
                          && Kept(w, s, b.store) && Ready(w, k, fr, b.store)))
  }

  lemma PairTyped(w: Setting, fuel: nat, k: Place, l: P.Tree, r: P.Tree, fr: Frame, s: Store)
    requires Ready(w, k, fr, s) && EvalOk(w, k, TypeOf(w, k, l), s, EvalAt(w, fuel, k, l, fr, s))
    requires var a := EvalAt(w, fuel, k, l, fr, s);
             a.Done? ==> EvalOk(w, k, TypeOf(w, k, r), a.store, EvalAt(w, fuel, k, r, fr, a.store))
    ensures PairOk(w, fuel, k, l, r, fr, s)
  {
    hide Ready, EvalAt, TypeOf, ValueOk, Kept, OfLanguage;
    var a := EvalAt(w, fuel, k, l, fr, s);
    if a.Done? {
      var b := EvalAt(w, fuel, k, r, fr, a.store);
      if b.Done? {
        ValueStays(w, k, a.v, TypeOf(w, k, l), a.store, b.store);
        KeptTrans(w, s, a.store, b.store);
        ReadyAgain(w, k, fr, s, b.store);
      }
    }
  }

  lemma ReadyDeclared(w: Setting, k: Place, fr: Frame, s: Store)
    requires Ready(w, k, fr, s)
    ensures Declared(EnvAt(w, k))
  {
    hide Accepted, InUnit, Declared, EnvAt;
    EnvDeclared(w, k);
  }

  lemma InfixTyped(w: Setting, fuel: nat, k: Place, e: P.Tree, l: P.Tree, r: P.Tree, fr: Frame, s: Store)
    requires Ready(w, k, fr, s) && Sound(w, k, e) && e.Infix? && e.lhs == l && e.rhs == r && !e.op.And? && !e.op.Or?
    ensures EvalOk(w, k, TypeOf(w, k, e), s, EvalAt(w, fuel, k, e, fr, s))
    decreases fuel, e, 1
  {
    hide Ready, Sound, TypeOf, ValueOk, Kept, OfLanguage, Declared, OperatorType, HasType, Prog, Source.Force, Apply, EvalAt;
    ReadyDeclared(w, k, fr, s);
    InfixParts(w, k, e.op, l, r);
    EvalTyped(w, fuel, k, l, fr, s);
    InfixEval(w, fuel, k, e, fr, s);
    var a := EvalAt(w, fuel, k, l, fr, s);
    if a.Done? {
      ReadyAgain(w, k, fr, s, a.store);
      EvalTyped(w, fuel, k, r, fr, a.store);
      PairTyped(w, fuel, k, l, r, fr, s);
      var b := EvalAt(w, fuel, k, r, fr, a.store);
      if b.Done? {
        ForceTyped(w, k, a.v, TypeOf(w, k, l), fr, b.store);
        ForceTyped(w, k, b.v, TypeOf(w, k, r), fr, b.store);
        var x, y := Source.Force(a.v, fr, b.store), Source.Force(b.v, fr, b.store);
        if x.Ok? && y.Ok? {
          OperatorTyped(w, e.op, x.v, y.v, TypeOf(w, k, l), TypeOf(w, k, r), b.store);
          var n := Apply(AstOperator(e.op).value, x.v, y.v);
          if n.Ok? { NowOk(w, k, n.v, TypeOf(w, k, e), b.store); }
        }
      }
    }
  }

  lemma NowOk(w: Setting, k: Place, n: int, t: string, s: Store)
    requires HasType(w, n, t, s)
    ensures ValueOk(w, k, Source.Now(n), t, s)
  {
  }

  /** The evaluation of an operator, spelled out. */
  lemma InfixEval(w: Setting, fuel: nat, k: Place, e: P.Tree, fr: Frame, s: Store)
    requires e.Infix? && !e.op.And? && !e.op.Or?
    ensures var a := EvalAt(w, fuel, k, e.lhs, fr, s);
            var b := if a.Done? then EvalAt(w, fuel, k, e.rhs, fr, a.store) else a;
            && (a.Stops? ==> EvalAt(w, fuel, k, e, fr, s) == a)
            && (b.Stops? ==> EvalAt(w, fuel, k, e, fr, s) == b)
            && (b.Done? ==> EvalAt(w, fuel, k, e, fr, s) == OperatorOutcome(e.op, Source.Force(a.v, fr, b.store), Source.Force(b.v, fr, b.store), b.store))
  {
    hide Source.Force, Apply, Prog, EnvAt;
  }

  function OperatorOutcome(op: P.Operator, x: Res<int>, y: Res<int>, s: Store): Source.Outcome<Source.Value>
    requires !op.And? && !op.Or?
  {
    if x.Err? then Source.Stops(Source.Fail(x.f, s.out))
    else if y.Err? then Source.Stops(Source.Fail(y.f, s.out))
    else
      var n := Apply(AstOperator(op).value, x.v, y.v);
      if n.Err? then Source.Stops(Source.Fail(n.f, s.out)) else Source.Done(Source.Now(n.v), s)
  }

  lemma ShortTyped(w: Setting, fuel: nat, k: Place, e: P.Tree, l: P.Tree, r: P.Tree, fr: Frame, s: Store)
    requires Ready(w, k, fr, s) && Sound(w, k, e) && e.Infix? && e.lhs == l && e.rhs == r && (e.op.And? || e.op.Or?)
    ensures EvalOk(w, k, TypeOf(w, k, e), s, EvalAt(w, fuel, k, e, fr, s))
    decreases fuel, e, 1
  {
    hide Ready, Sound, TypeOf, ValueOk, Kept, OfLanguage, Declared, OperatorType, HasType, Prog, Source.Force, EvalAt;
    ReadyDeclared(w, k, fr, s);
    InfixParts(w, k, e.op, l, r);
    LogicalTypes(e.op, TypeOf(w, k, l), TypeOf(w, k, r));
    EvalTyped(w, fuel, k, l, fr, s);
    ShortEval(w, fuel, k, e, fr, s);
    var a := EvalAt(w, fuel, k, l, fr, s);
    if a.Done? {
      ReadyAgain(w, k, fr, s, a.store);
      EvalTyped(w, fuel, k, r, fr, a.store);
      PairTyped(w, fuel, k, l, r, fr, s);
      ForceTyped(w, k, a.v, TypeOf(w, k, l), fr, a.store);
      TruthTyped(w, k, a.store);
      var b := EvalAt(w, fuel, k, r, fr, a.store);
      if b.Done? {
        ForceTyped(w, k, b.v, TypeOf(w, k, r), fr, b.store);
        TruthTyped(w, k, b.store);
      }
    }
  }

  lemma LogicalTypes(op: P.Operator, t: string, t': string)
    requires OperatorType(op, t, t').Some? && (op.And? || op.Or?)
    ensures OperatorType(op, t, t').value == "boolean"
  {
  }

  /** 0 and 1 are the truth values. */
  lemma TruthTyped(w: Setting, k: Place, s: Store)
    ensures forall b :: ValueOk(w, k, Source.Now(OfBool(b)), "boolean", s)
    ensures ValueOk(w, k, Source.Now(0), "boolean", s) && ValueOk(w, k, Source.Now(1), "boolean", s)
  {
  }

  lemma ShortEval(w: Setting, fuel: nat, k: Place, e: P.Tree, fr: Frame, s: Store)
    requires e.Infix? && (e.op.And? || e.op.Or?)
    ensures var a := EvalAt(w, fuel, k, e.lhs, fr, s);
            && (a.Stops? ==> EvalAt(w, fuel, k, e, fr, s) == a)
            && (a.Done? ==>
                  var b := EvalAt(w, fuel, k, e.rhs, fr, a.store);
                  EvalAt(w, fuel, k, e, fr, s) == ShortOutcome(e.op.And?, Source.Force(a.v, fr, a.store), a.store, b, fr))
  {
    hide Source.Force, Prog, EnvAt;
  }

  function ShortOutcome(isAnd: bool, x: Res<int>, s: Store, b: Source.Outcome<Source.Value>, fr: Frame): Source.Outcome<Source.Value> {
    if x.Err? then Source.Stops(Source.Fail(x.f, s.out))
    else if isAnd && x.v == 0 then Source.Done(Source.Now(0), s)
    else if !isAnd && x.v != 0 then Source.Done(Source.Now(1), s)
    else if b.Stops? then b
    else
      var y := Source.Force(b.v, fr, b.store);
      if y.Err? then Source.Stops(Source.Fail(y.f, b.store.out)) else Source.Done(Source.Now(OfBool(y.v != 0)), b.store)
  }

  lemma OneTyped(w: Setting, fuel: nat, k: Place, e: P.Tree, r: P.Tree, fr: Frame, s: Store)
    requires Ready(w, k, fr, s) && Sound(w, k, e) && (e == P.Not(r) || e == P.NewArray(r) || e == P.Length(r))
    ensures EvalOk(w, k, TypeOf(w, k, e), s, EvalAt(w, fuel, k, e, fr, s))
    decreases fuel, e, 1
  {
    hide Ready, Sound, TypeOf, ValueOk, Kept, Declared, HasType, Prog, Source.Force, EvalAt, AllocArray, ArrayAt, OfBool;
    ReadyDeclared(w, k, fr, s);
    OneParts(w, k, e, r);
    EvalTyped(w, fuel, k, r, fr, s);
    OneEval(w, fuel, k, e, r, fr, s);
    var a := EvalAt(w, fuel, k, r, fr, s);
    if a.Done? {
      ReadyAgain(w, k, fr, s, a.store);
      ForceTyped(w, k, a.v, TypeOf(w, k, r), fr, a.store);
      var x := Source.Force(a.v, fr, a.store);
      if x.Ok? {
        OneResult(w, k, e, x.v, fr, a.store);
        var o := OneOutcome(e, x, a.store);
        if o.Done? { KeptTrans(w, s, a.store, o.store); }
      }
    }
  }

  function OneOutcome(e: P.Tree, x: Res<int>, s: Store): Source.Outcome<Source.Value> {
    if x.Err? then Source.Stops(Source.Fail(x.f, s.out))
    else if e.Not? then Source.Done(Source.Now(OfBool(x.v == 0)), s)
    else if e.NewArray? then
      var r := AllocArray(x.v, s);
      if r.Err? then Source.Stops(Source.Fail(r.f, s.out)) else Source.Done(Source.Now(r.v.0), r.v.1)
    else
      var r := ArrayAt(x.v, s);
      if r.Err? then Source.Stops(Source.Fail(r.f, s.out)) else Source.Done(Source.Now(|r.v|), s)
  }

  lemma OneEval(w: Setting, fuel: nat, k: Place, e: P.Tree, r: P.Tree, fr: Frame, s: Store)
    requires e == P.Not(r) || e == P.NewArray(r) || e == P.Length(r)
    ensures var a := EvalAt(w, fuel, k, r, fr, s);
            && (a.Stops? ==> EvalAt(w, fuel, k, e, fr, s) == a)
            && (a.Done? ==> EvalAt(w, fuel, k, e, fr, s) == OneOutcome(e, Source.Force(a.v, fr, a.store), a.store))
  {
    hide Source.Force, Prog, EnvAt, AllocArray, ArrayAt, OfBool;
  }

  lemma OneResult(w: Setting, k: Place, e: P.Tree, x: int, fr: Frame, s: Store)
    requires Ready(w, k, fr, s) && (e.Not? || e.NewArray? || e.Length?)
    ensures var o := OneOutcome(e, Ok(x), s);
            Fine(o) && (o.Done? ==> Kept(w, s, o.store) && ValueOk(w, k, o.v, if e.Not? then "boolean" else if e.NewArray? then "int[]" else "int", o.store))
  {
    hide Accepted, InUnit, FrameOk, StoreOk, Grown;
    ArraysTyped(w, s, s);
    if e.NewArray? && x >= 0 { ArraysTyped(w, s, AllocArray(x, s).v.1); }
  }

  lemma IndexTyped(w: Setting, fuel: nat, k: Place, e: P.Tree, l: P.Tree, r: P.Tree, fr: Frame, s: Store)
    requires Ready(w, k, fr, s) && Sound(w, k, e) && e == P.Index(l, r)
    ensures EvalOk(w, k, TypeOf(w, k, e), s, EvalAt(w, fuel, k, e, fr, s))
    decreases fuel, e, 1
  {
    hide Ready, Sound, TypeOf, ValueOk, Kept, Declared, HasType, Prog, Source.Force, EvalAt, LoadElement;
    ReadyDeclared(w, k, fr, s);
    IndexParts(w, k, l, r);
    EvalTyped(w, fuel, k, l, fr, s);
    IndexEval(w, fuel, k, e, fr, s);
    var a := EvalAt(w, fuel, k, l, fr, s);
    if a.Done? {
      ReadyAgain(w, k, fr, s, a.store);
      EvalTyped(w, fuel, k, r, fr, a.store);
      PairTyped(w, fuel, k, l, r, fr, s);
      var b := EvalAt(w, fuel, k, r, fr, a.store);
      if b.Done? {
        ForceTyped(w, k, a.v, TypeOf(w, k, l), fr, b.store);
        ForceTyped(w, k, b.v, TypeOf(w, k, r), fr, b.store);
        var x, y := Source.Force(a.v, fr, b.store), Source.Force(b.v, fr, b.store);
        if x.Ok? && y.Ok? { ElementTyped(w, k, x.v, y.v, b.store); }
      }
    }
  }

  lemma ElementTyped(w: Setting, k: Place, ref: int, i: int, s: Store)
    ensures LoadElement(ref, i, s).Err? ==> OfLanguage(LoadElement(ref, i, s).f)
    ensures LoadElement(ref, i, s).Ok? ==> ValueOk(w, k, Source.Now(LoadElement(ref, i, s).v), "int", s)
  {
  }

  function ElementOutcome(x: Res<int>, y: Res<int>, s: Store): Source.Outcome<Source.Value> {
    if x.Err? then Source.Stops(Source.Fail(x.f, s.out))
    else if y.Err? then Source.Stops(Source.Fail(y.f, s.out))
    else
      var n := LoadElement(x.v, y.v, s);
      if n.Err? then Source.Stops(Source.Fail(n.f, s.out)) else Source.Done(Source.Now(n.v), s)
  }

  lemma IndexEval(w: Setting, fuel: nat, k: Place, e: P.Tree, fr: Frame, s: Store)
    requires e.Index?
    ensures var a := EvalAt(w, fuel, k, e.arr, fr, s);
            var b := if a.Done? then EvalAt(w, fuel, k, e.index, fr, a.store) else a;
            && (a.Stops? ==> EvalAt(w, fuel, k, e, fr, s) == a)
            && (b.Stops? ==> EvalAt(w, fuel, k, e, fr, s) == b)
            && (b.Done? ==> EvalAt(w, fuel, k, e, fr, s) == ElementOutcome(Source.Force(a.v, fr, b.store), Source.Force(b.v, fr, b.store), b.store))
  {
    hide Source.Force, LoadElement, Prog, EnvAt;
  }

  // ----- calls -----

  /** The values have the types ts, one by one. */
  ghost predicate HaveTypes(w: Setting, xs: seq<int>, ts: seq<string>, s: Store) {
    |xs| == |ts| && forall i {:trigger xs[i]} {:trigger ts[i]} :: 0 <= i < |xs| ==> HasType(w, xs[i], ts[i], s)
  }

  ghost predicate ArgsOk(w: Setting, ts: seq<string>, s: Store, r: Source.Outcome<seq<int>>) {
    Fine(r) && (r.Done? ==> HaveTypes(w, r.v, ts, r.store) && Kept(w, s, r.store))
  }

  function ArgsAt(w: Setting, fuel: nat, k: Place, args: seq<P.Tree>, fr: Frame, s: Store): Source.Outcome<seq<int>> {
    Source.EvalArgs(Prog(w), fuel, TypedArgs(EnvAt(w, k), args), fr, s)
  }

  ghost predicate ArgsSound(w: Setting, k: Place, args: seq<P.Tree>) {
    (forall a | a in args :: Lexed(a) && Resolves(EnvAt(w, k), a)) && CheckArgs(EnvAt(w, k), args).1 == 0
  }

  lemma {:induction false} ArgsTyped(w: Setting, fuel: nat, k: Place, args: seq<P.Tree>, fr: Frame, s: Store)
    requires Ready(w, k, fr, s) && ArgsSound(w, k, args)
    ensures ArgsOk(w, CheckArgs(EnvAt(w, k), args).0, s, ArgsAt(w, fuel, k, args, fr, s))
    decreases fuel, args
  {
    hide Ready, EvalAt, Kept, HasType, Source.Force, EnvAt, ValueOk, OfLanguage;
    if args == [] {
      ReadyKept(w, k, fr, s);
    } else {
      ArgsFirst(w, k, args);
      EvalTyped(w, fuel, k, args[0], fr, s);
      ArgsEval(w, fuel, k, args, fr, s);
      var a := EvalAt(w, fuel, k, args[0], fr, s);
      if a.Done? {
        ReadyAgain(w, k, fr, s, a.store);
        ForceTyped(w, k, a.v, TypeOf(w, k, args[0]), fr, a.store);
        var x := Source.Force(a.v, fr, a.store);
        if x.Ok? {
          ArgsTyped(w, fuel, k, args[1..], fr, a.store);
          var xs := ArgsAt(w, fuel, k, args[1..], fr, a.store);
          if xs.Done? {
            KeptTrans(w, s, a.store, xs.store);
            MoreTypes(w, x.v, TypeOf(w, k, args[0]), a.store, xs.v, CheckArgs(EnvAt(w, k), args[1..]).0, xs.store);
          }
        }
      }
    }
  }

  lemma ReadyKept(w: Setting, k: Place, fr: Frame, s: Store)
    requires Ready(w, k, fr, s)
    ensures Kept(w, s, s)
  {
    hide Accepted, InUnit, FrameOk, ObjectOk;
  }

  lemma ArgsFirst(w: Setting, k: Place, args: seq<P.Tree>)
    requires args != [] && ArgsSound(w, k, args)
    ensures Sound(w, k, args[0]) && ArgsSound(w, k, args[1..])
    ensures CheckArgs(EnvAt(w, k), args).0 == [TypeOf(w, k, args[0])] + CheckArgs(EnvAt(w, k), args[1..]).0
  {
    hide EnvAt, CheckExpr, Lexed, Resolves;
  }

  lemma MoreTypes(w: Setting, x: int, t: string, s: Store, xs: seq<int>, ts: seq<string>, s': Store)
    requires HasType(w, x, t, s) && Kept(w, s, s') && HaveTypes(w, xs, ts, s')
    ensures HaveTypes(w, [x] + xs, [t] + ts, s')
  {
    hide HasType, StoreOk, Grown;
    TypeStays(w, x, t, s, s');
  }

  lemma ArgsEval(w: Setting, fuel: nat, k: Place, args: seq<P.Tree>, fr: Frame, s: Store)
    requires args != []
    ensures var a := EvalAt(w, fuel, k, args[0], fr, s);
            && (a.Stops? ==> ArgsAt(w, fuel, k, args, fr, s) == Source.Stops(a.why))
            && (a.Done? ==>
                  var xs := ArgsAt(w, fuel, k, args[1..], fr, a.store);
                  ArgsAt(w, fuel, k, args, fr, s) == ArgsOutcome(Source.Force(a.v, fr, a.store), a.store, xs))
  {
    hide Source.Force, Prog, EnvAt, Typed, Source.Eval;
    var ts := TypedArgs(EnvAt(w, k), args);
    assert ts[0] == Typed(EnvAt(w, k), args[0]) && ts[1..] == TypedArgs(EnvAt(w, k), args[1..]);
  }

  function ArgsOutcome(x: Res<int>, s: Store, rest: Source.Outcome<seq<int>>): Source.Outcome<seq<int>> {
    if x.Err? then Source.Stops(Source.Fail(x.f, s.out))
    else if rest.Stops? then rest
    else Source.Done([x.v] + rest.v, rest.store)
  }

  /** Arguments that fit have exactly the types of the parameters. */
  lemma {:induction false} MatchedTypes(params: seq<string>, ts: seq<string>)
    requires Mismatches(params, ts).0 && |params| == |ts|
    ensures params == ts
  {
    if params != [] {
      MatchedTypes(params[1..], ts[1..]);
      assert params == [params[0]] + params[1..] && ts == [ts[0]] + ts[1..];
    }
  }

  lemma CallParts(w: Setting, k: Place, e: P.Tree)
    requires e.Call? && Sound(w, k, e) && Declared(EnvAt(w, k))
    ensures Sound(w, k, e.receiver) && ArgsSound(w, k, e.args) && e.methodName != "main"
    ensures var c := TypeOf(w, k, e.receiver);
            && c in w.classes && e.methodName in w.classes[c] && w.classes[c][e.methodName].params == CheckArgs(EnvAt(w, k), e.args).0
            && TypeOf(w, k, e) == w.classes[c][e.methodName].returns_
  {
    var env := EnvAt(w, k);
    assert env.classes == w.classes;
    hide EnvAt, Declared, Mismatches;
    ErrorsExactly(env, e);
    ErrorsExactly(env, e.receiver);
    var c := CheckExpr(env, e.receiver).name;
    var ts := CheckArgs(env, e.args).0;
    MatchedTypes(env.classes[c][e.methodName].params, ts);
  }

  /** The method that an accepted call runs. */
  lemma CalleeOf(w: Setting, c: string, m: string) returns (d: MethodDecl)
    requires Accepted(w) && c in w.classes && m in w.classes[c] && m != "main"
    ensures d in w.u.methods && d.className == c && d.name == m && d.info == w.classes[c][m]
    ensures RootName(c, m) == RootOf(d)
  {
    hide CheckUnit, UnitResolves, Tabled, Declared, LexedMethod, LexedStmt;
    d :| d in w.u.methods && d.className == c && d.name == m && d.info == w.classes[c][m];
  }

  lemma MethodOf(w: Setting, d: MethodDecl)
    requires Accepted(w) && d in w.u.methods
    ensures RootOf(d) in Prog(w).methods && Prog(w).methods[RootOf(d)] == TypedMethod(w.classes, d)
    ensures CheckMethod(w.classes, d).errors == 0 && LexedMethod(d) && MethodResolves(w, d) && TabledParams(d)
  {
    hide CheckStmts, UnitResolves, Declared, LexedMethod, LexedStmt, CheckMethod, CheckMethods, TypedMethod, TypedMethods, RootOf, MethodResolves;
    TypedMethodsHas(w.classes, w.u.methods);
    var i :| 0 <= i < |w.u.methods| && w.u.methods[i] == d;
    MethodsAccepted(w.classes, w.u.methods, i);
    assert UnitResolves(w);
    UnitParts(w.classes, w.u);
    ResolvesMethod(w, d);
  }

  lemma ResolvesMethod(w: Setting, d: MethodDecl)
    requires UnitResolves(w) && d in w.u.methods
    ensures MethodResolves(w, d)
  {
    hide MethodResolves;
  }

  function CallOutcome(w: Setting, fuel: nat, root: string, self: Res<int>, xs: seq<int>, s: Store): Source.Outcome<Source.Value> {
    if self.Err? then Source.Stops(Source.Fail(self.f, s.out))
    else if fuel == 0 then Source.Stops(Source.Timeout(s.out))
    else
      var r := Source.CallMethod(Prog(w), fuel - 1, root, self.v, xs, s);
      if r.Stops? then Source.Stops(r.why) else Source.Done(Source.Now(r.v), r.store)
  }

  lemma CallEval(w: Setting, fuel: nat, k: Place, e: P.Tree, fr: Frame, s: Store)
    requires e.Call?
    ensures var a := EvalAt(w, fuel, k, e.receiver, fr, s);
            && (a.Stops? ==> EvalAt(w, fuel, k, e, fr, s) == a)
            && (a.Done? ==>
                  var xs := ArgsAt(w, fuel, k, e.args, fr, a.store);
                  && (xs.Stops? ==> EvalAt(w, fuel, k, e, fr, s) == Source.Stops(xs.why))
                  && (xs.Done? ==>
                        var root := RootName(TypeOf(w, k, e.receiver), e.methodName);
                        EvalAt(w, fuel, k, e, fr, s) == CallOutcome(w, fuel, root, Source.Force(a.v, fr, xs.store), xs.v, xs.store)))
  {
    hide Source.Force, Prog, EnvAt, Source.CallMethod, CheckExpr, TypedArgs, Source.EvalArgs;
  }

  lemma CallTyped(w: Setting, fuel: nat, k: Place, e: P.Tree, fr: Frame, s: Store)
    requires e.Call? && Ready(w, k, fr, s) && Sound(w, k, e)
    ensures EvalOk(w, k, TypeOf(w, k, e), s, EvalAt(w, fuel, k, e, fr, s))
    decreases fuel, e, 1
  {
    hide Ready, Sound, TypeOf, ValueOk, Kept, Declared, Prog, Source.Force, EvalAt, ArgsAt, EnvAt, HaveTypes, Accepted, ArgsSound, RootOf, HasType, Source.CallMethod, OfLanguage;
    ReadyDeclared(w, k, fr, s);
    ReadyAccepted(w, k, fr, s);
    CallParts(w, k, e);
    var d := CalleeOf(w, TypeOf(w, k, e.receiver), e.methodName);
    EvalTyped(w, fuel, k, e.receiver, fr, s);
    CallEval(w, fuel, k, e, fr, s);
    var a := EvalAt(w, fuel, k, e.receiver, fr, s);
    if a.Done? {
      ReadyAgain(w, k, fr, s, a.store);
      ArgsTyped(w, fuel, k, e.args, fr, a.store);
      var xs := ArgsAt(w, fuel, k, e.args, fr, a.store);
      if xs.Done? {
        ValueStays(w, k, a.v, TypeOf(w, k, e.receiver), a.store, xs.store);
        ReadyAgain(w, k, fr, a.store, xs.store);
        ForceTyped(w, k, a.v, TypeOf(w, k, e.receiver), fr, xs.store);
        KeptTrans(w, s, a.store, xs.store);
        var self := Source.Force(a.v, fr, xs.store);
        if self.Ok? && fuel > 0 {
          ReadyStore(w, k, fr, xs.store);
          MethodTyped(w, fuel - 1, d, self.v, xs.v, xs.store);
          var r := Source.CallMethod(Prog(w), fuel - 1, RootOf(d), self.v, xs.v, xs.store);
          if r.Done? {
            KeptTrans(w, s, xs.store, r.store);
            NowOk(w, k, r.v, d.info.returns_, r.store);
          }
        }
      }
    }
  }

  lemma ReadyAccepted(w: Setting, k: Place, fr: Frame, s: Store)
    requires Ready(w, k, fr, s)
    ensures Accepted(w) && InUnit(w.u, k)
  {
  }

  lemma ReadyStore(w: Setting, k: Place, fr: Frame, s: Store)
    requires Ready(w, k, fr, s)
    ensures StoreOk(w, s)
  {
  }

  ghost predicate IntOk(w: Setting, t: string, s: Store, r: Source.Outcome<int>) {
    Fine(r) && (r.Done? ==> HasType(w, r.v, t, r.store) && Kept(w, s, r.store))
  }

  /** The frame a method is entered with is typed. */
  lemma EntryTyped(w: Setting, d: MethodDecl, self: int, xs: seq<int>, s: Store)
    requires Accepted(w) && d in w.u.methods && StoreOk(w, s)
    requires HasType(w, self, d.className, s) && HaveTypes(w, xs, d.info.params, s)
    ensures var r := Enter(TypedMethod(w.classes, d).sig, self, xs, s);
            r.Ok? && r.v.2 == s && Ready(w, PlaceOf(d), r.v.0, s)
  {
    hide HasType, StoreOk, CheckUnit, WellDeclared, UnitResolves, Enter, Typed, TypedStmts;
    var k := PlaceOf(d);
    assert InUnit(w.u, k) && TabledPlace(k) && TabledParams(d);
    var sig := TypedMethod(w.classes, d).sig;
    ParamsLocal(d);
    EnterBinds(sig, self, [], xs, s);
    assert [] + xs == xs;
    var fr := Enter(sig, self, xs, s).v.0;
    forall x | x in k.locals
      ensures HasType(w, fr.locals[x], k.locals[x], s)
    {
      if x in d.params {
        var i :| 0 <= i < |d.params| && d.params[i] == x;
        assert fr.locals[sig.params[i]] == xs[i];
      } else {
        ZeroTyped(w, k.locals[x], s);
      }
    }
  }

  lemma ParamsLocal(d: MethodDecl)
    requires TabledParams(d)
    ensures forall x :: x in d.params ==> x in d.locals
  {
  }

  /** The initial value has every type. */
  lemma ZeroTyped(w: Setting, t: string, s: Store)
    ensures HasType(w, 0, t, s)
  {
  }

  lemma MethodTyped(w: Setting, fuel: nat, d: MethodDecl, self: int, xs: seq<int>, s: Store)
    requires Accepted(w) && d in w.u.methods && StoreOk(w, s)
    requires HasType(w, self, d.className, s) && HaveTypes(w, xs, d.info.params, s)
    ensures IntOk(w, d.info.returns_, s, Source.CallMethod(Prog(w), fuel, RootOf(d), self, xs, s))
    decreases fuel
  {
    hide Accepted, Ready, StoreOk, HasType, HaveTypes, Prog, RootOf, Kept, OfLanguage, Enter, Source.Force, EvalAt, BodyAt, LexedMethod, MethodResolves, CheckMethod,
      TypedMethod, TypeOf, Sound, ValueOk, TabledParams, FrameOk;
    MethodOf(w, d);
    EntryTyped(w, d, self, xs, s);
    MethodSound(w, d);
    var k := PlaceOf(d);
    var entry := Enter(TypedMethod(w.classes, d).sig, self, xs, s).v.0;
    MethodEval(w, fuel, d, self, xs, entry, s);
    BodyTyped(w, fuel, k, d.body, entry, s);
    var b := BodyAt(w, fuel, k, d.body, entry, s);
    if b.Done? {
      ReadyIn(w, k, entry, s, b.v, b.store);
      EvalTyped(w, fuel, k, d.result, b.v, b.store);
      var r := EvalAt(w, fuel, k, d.result, b.v, b.store);
      if r.Done? {
        ReadyAgain(w, k, b.v, b.store, r.store);
        ForceTyped(w, k, r.v, TypeOf(w, k, d.result), b.v, r.store);
        KeptTrans(w, s, b.store, r.store);
      }
    }
  }

  lemma ReadyIn(w: Setting, k: Place, fr: Frame, s: Store, fr': Frame, s': Store)
    requires Ready(w, k, fr, s) && FrameOk(w, k, fr', s') && Kept(w, s, s')
    ensures Ready(w, k, fr', s')
  {
  }

  lemma MethodSound(w: Setting, d: MethodDecl)
    requires Accepted(w) && d in w.u.methods && CheckMethod(w.classes, d).errors == 0 && LexedMethod(d) && MethodResolves(w, d)
    ensures BodySound(w, PlaceOf(d), d.body) && Sound(w, PlaceOf(d), d.result) && TypeOf(w, PlaceOf(d), d.result) == d.info.returns_
  {
    hide Lexed, LexedStmt, Resolves, StmtResolves, CheckUnit, UnitResolves, Tabled, Declared, CheckStmts, CheckExpr;
    var env := EnvIn(w.classes, d);
    assert env == EnvAt(w, PlaceOf(d)) && Declared(env);
    ErrorsExactly(env, d.result);
    StmtsErrorsExactly(env, d.body);
  }

  function MethodOutcome(b: Source.Outcome<Frame>, r: Source.Outcome<Source.Value>): Source.Outcome<int> {
    if b.Stops? then Source.Stops(b.why) else if r.Stops? then Source.Stops(r.why) else Source.Read(r.v, b.v, r.store)
  }

  lemma MethodEval(w: Setting, fuel: nat, d: MethodDecl, self: int, xs: seq<int>, entry: Frame, s: Store)
    requires RootOf(d) in Prog(w).methods && Prog(w).methods[RootOf(d)] == TypedMethod(w.classes, d)
    requires var r := Enter(TypedMethod(w.classes, d).sig, self, xs, s); r.Ok? && r.v.2 == s && r.v.0 == entry
    ensures var k := PlaceOf(d);
            var b := BodyAt(w, fuel, k, d.body, entry, s);
            var r := if b.Done? then EvalAt(w, fuel, k, d.result, b.v, b.store) else Source.Stops(b.why);
            Source.CallMethod(Prog(w), fuel, RootOf(d), self, xs, s) == MethodOutcome(b, r)
  {
    hide Prog, RootOf, Enter, Source.Force, Source.ExecAll, Source.Eval, TypedStmts, Typed;
    assert EnvAt(w, PlaceOf(d)) == EnvIn(w.classes, d);
  }

  // ----- statements -----

  function ExecAt(w: Setting, fuel: nat, k: Place, t: TreeStmt, fr: Frame, s: Store): Source.Outcome<Frame> {
    Source.Exec(Prog(w), fuel, TypedStmt(EnvAt(w, k), t), fr, s)
  }

  function BodyAt(w: Setting, fuel: nat, k: Place, ts: seq<TreeStmt>, fr: Frame, s: Store): Source.Outcome<Frame> {
    Source.ExecAll(Prog(w), fuel, TypedStmts(EnvAt(w, k), ts), fr, s)
  }

  ghost predicate ExecOk(w: Setting, k: Place, s: Store, r: Source.Outcome<Frame>) {
    Fine(r) && (r.Done? ==> FrameOk(w, k, r.v, r.store) && Kept(w, s, r.store))
  }

  predicate StmtSound(w: Setting, k: Place, t: TreeStmt) {
    LexedStmt(t) && StmtResolves(EnvAt(w, k), t) && CheckStmt(EnvAt(w, k), t).errors == 0
  }

  ghost predicate BodySound(w: Setting, k: Place, ts: seq<TreeStmt>) {
    (forall t :: t in ts ==> LexedStmt(t) && StmtResolves(EnvAt(w, k), t)) && CheckStmts(EnvAt(w, k), ts).errors == 0
  }

  /** An expression evaluated and read. */
  function ReadAt(w: Setting, fuel: nat, k: Place, e: P.Tree, fr: Frame, s: Store): Source.Outcome<int> {
    var a := EvalAt(w, fuel, k, e, fr, s);
    if a.Stops? then Source.Stops(a.why) else Source.Read(a.v, fr, a.store)
  }

  lemma ReadTyped(w: Setting, fuel: nat, k: Place, e: P.Tree, fr: Frame, s: Store)
    requires Ready(w, k, fr, s) && Sound(w, k, e)
    ensures IntOk(w, TypeOf(w, k, e), s, ReadAt(w, fuel, k, e, fr, s))
    ensures ReadAt(w, fuel, k, e, fr, s).Done? ==> Ready(w, k, fr, ReadAt(w, fuel, k, e, fr, s).store)
    decreases fuel, e, 3
  {
    hide Ready, EvalAt, Kept, HasType, Source.Force, ValueOk, OfLanguage, TypeOf, Sound;
    EvalTyped(w, fuel, k, e, fr, s);
    var a := EvalAt(w, fuel, k, e, fr, s);
    if a.Done? {
      ReadyAgain(w, k, fr, s, a.store);
      ForceTyped(w, k, a.v, TypeOf(w, k, e), fr, a.store);
    }
  }

  lemma DemandMet(c: Checked, wanted: string)
    requires Demand(c, wanted).errors == 0 && (c.errors > 0 <==> IsError(c.name))
    ensures c.errors == 0 && c.name == wanted
  {
  }

  lemma AssignParts(w: Setting, k: Place, x: string, e: P.Tree)
    requires StmtSound(w, k, Assign(x, e)) && Declared(EnvAt(w, k))
    ensures Sound(w, k, e) && x in EnvAt(w, k).vars && EnvAt(w, k).vars[x] == TypeOf(w, k, e) && x != "this"
  {
    hide EnvAt, CheckExpr, Lexed, Resolves;
    ErrorsExactly(EnvAt(w, k), e);
  }

  lemma ArrayAssignParts(w: Setting, k: Place, x: string, i: P.Tree, e: P.Tree)
    requires StmtSound(w, k, ArrayAssign(x, i, e)) && Declared(EnvAt(w, k))
    ensures Sound(w, k, i) && Sound(w, k, e) && TypeOf(w, k, i) == "int" && TypeOf(w, k, e) == "int"
    ensures x in EnvAt(w, k).vars && EnvAt(w, k).vars[x] == "int[]"
  {
    hide EnvAt, CheckExpr, Lexed, Resolves, Demand;
    var env := EnvAt(w, k);
    ErrorsExactly(env, i);
    ErrorsExactly(env, e);
    LookUpExactly(env, x);
    DemandMet(CheckExpr(env, i), "int");
    DemandMet(CheckExpr(env, e), "int");
    DemandMet(LookUp(env, x), "int[]");
  }

  lemma PrintParts(w: Setting, k: Place, e: P.Tree)
    requires StmtSound(w, k, Print(e))
    ensures Sound(w, k, e)
  {
    hide EnvAt, CheckExpr, Lexed, Resolves;
  }

  lemma ControlParts(w: Setting, k: Place, t: TreeStmt)
    requires StmtSound(w, k, t) && (t.If? || t.IfElse? || t.While?)
    ensures Sound(w, k, t.cond)
    ensures forall i :: 0 <= i < |Arms(t)| ==> StmtSound(w, k, Arms(t)[i]) && Arms(t)[i] < t
  {
    hide EnvAt, CheckExpr, Lexed, Resolves, CheckStmt, LexedStmt;
    ArmsAccepted(EnvAt(w, k), t);
    DemandsMet(EnvAt(w, k), t);
    ArmsResolve(EnvAt(w, k), t);
  }

  lemma ArmsResolve(env: Env, t: TreeStmt)
    requires StmtResolves(env, t) && (t.If? || t.IfElse? || t.While?)
    ensures Resolves(env, t.cond) && forall i :: 0 <= i < |Arms(t)| ==> StmtResolves(env, Arms(t)[i])
  {
    hide Resolves;
  }

  lemma {:induction false} ExecTyped(w: Setting, fuel: nat, k: Place, t: TreeStmt, fr: Frame, s: Store)
    requires Ready(w, k, fr, s) && StmtSound(w, k, t)
    ensures ExecOk(w, k, s, ExecAt(w, fuel, k, t, fr, s))
    decreases fuel, t, 2
  {
    hide Ready, StmtSound, ExecOk, ExecAt;
    match t
    case Declare(_, _) => DeclareTyped(w, fuel, k, t, fr, s);
    case Assign(x, e) => AssignTyped(w, fuel, k, x, e, fr, s);
    case ArrayAssign(x, i, e) => ArrayAssignTyped(w, fuel, k, x, i, e, fr, s);
    case Print(e) => PrintTyped(w, fuel, k, e, fr, s);
    case If(c, _) => BranchTyped(w, fuel, k, t, fr, s);
    case IfElse(c, _, _) => BranchTyped(w, fuel, k, t, fr, s);
    case While(c, body) => LoopTyped(w, fuel, k, t, fr, s);
    case Block(ts) => BlockTyped(w, fuel, k, t, fr, s);
  }

  lemma DeclareTyped(w: Setting, fuel: nat, k: Place, t: TreeStmt, fr: Frame, s: Store)
    requires Ready(w, k, fr, s) && t.Declare?
    ensures ExecOk(w, k, s, ExecAt(w, fuel, k, t, fr, s))
  {
    hide Accepted, InUnit, Kept, Prog, EnvAt;
    ReadyKept(w, k, fr, s);
    assert TypedStmt(EnvAt(w, k), t) == A.Block([]);
    assert Source.ExecAll(Prog(w), fuel, [], fr, s) == Source.Done(fr, s);
  }

  lemma BlockTyped(w: Setting, fuel: nat, k: Place, t: TreeStmt, fr: Frame, s: Store)
    requires Ready(w, k, fr, s) && StmtSound(w, k, t) && t.Block?
    ensures ExecOk(w, k, s, ExecAt(w, fuel, k, t, fr, s))
    decreases fuel, t, 1
  {
    hide Ready, Prog, EnvAt, ExecOk, CheckStmts, TypedStmts, Source.ExecAll;
    BodyTyped(w, fuel, k, t.stmts, fr, s);
  }

  lemma AssignTyped(w: Setting, fuel: nat, k: Place, x: string, e: P.Tree, fr: Frame, s: Store)
    requires Ready(w, k, fr, s) && StmtSound(w, k, Assign(x, e))
    ensures ExecOk(w, k, s, ExecAt(w, fuel, k, Assign(x, e), fr, s))
    decreases fuel, Assign(x, e), 1
  {
    hide Ready, StmtSound, EnvAt, Declared, Kept, HasType, FrameOk, SetVar, ReadAt, TypeOf, Sound, Prog, ExecAt, StoreOk, Grown;
    ReadyDeclared(w, k, fr, s);
    AssignParts(w, k, x, e);
    ReadTyped(w, fuel, k, e, fr, s);
    AssignEval(w, fuel, k, x, e, fr, s);
    var n := ReadAt(w, fuel, k, e, fr, s);
    if n.Done? {
      Written(w, k, x, n.v, fr, n.store);
      var r := SetVar(x, n.v, fr, n.store);
      if r.Ok? { KeptTrans(w, s, n.store, r.v.1); }
    }
  }

  lemma Written(w: Setting, k: Place, x: string, n: int, fr: Frame, s: Store)
    requires Ready(w, k, fr, s) && x in EnvAt(w, k).vars && x != "this" && HasType(w, n, EnvAt(w, k).vars[x], s)
    ensures var r := SetVar(x, n, fr, s);
            if r.Ok? then FrameOk(w, k, r.v.0, r.v.1) && Kept(w, s, r.v.1) else OfLanguage(r.f)
  {
    hide EnvAt, HasType, FrameOk, SetVar, StoreOk, Grown, CheckUnit, WellDeclared, UnitResolves, Tabled, InUnit;
    SetTyped(w, k, x, n, fr, s);
  }

  function AssignOutcome(x: string, n: Source.Outcome<int>, fr: Frame): Source.Outcome<Frame> {
    if n.Stops? then Source.Stops(n.why)
    else
      var r := SetVar(x, n.v, fr, n.store);
      if r.Err? then Source.Stops(Source.Fail(r.f, n.store.out)) else Source.Done(r.v.0, r.v.1)
  }

  lemma AssignEval(w: Setting, fuel: nat, k: Place, x: string, e: P.Tree, fr: Frame, s: Store)
    ensures ExecAt(w, fuel, k, Assign(x, e), fr, s) == AssignOutcome(x, ReadAt(w, fuel, k, e, fr, s), fr)
  {
    hide EnvAt, Prog, SetVar, Source.Force, Source.Eval, Typed;
  }

  lemma PrintTyped(w: Setting, fuel: nat, k: Place, e: P.Tree, fr: Frame, s: Store)
    requires Ready(w, k, fr, s) && StmtSound(w, k, Print(e))
    ensures ExecOk(w, k, s, ExecAt(w, fuel, k, Print(e), fr, s))
    decreases fuel, Print(e), 1
  {
    hide Ready, StmtSound, EnvAt, Kept, HasType, FrameOk, ReadAt, TypeOf, Sound, Prog, ExecAt;
    PrintParts(w, k, e);
    ReadTyped(w, fuel, k, e, fr, s);
    PrintEval(w, fuel, k, e, fr, s);
    var n := ReadAt(w, fuel, k, e, fr, s);
    if n.Done? {
      var s' := n.store.(out := n.store.out + [n.v]);
      OutputTyped(w, k, fr, n.store, s');
      KeptTrans(w, s, n.store, s');
    }
  }

  lemma OutputTyped(w: Setting, k: Place, fr: Frame, s: Store, s': Store)
    requires Ready(w, k, fr, s) && s'.objects == s.objects && |s.arrays| == |s'.arrays|
    ensures FrameOk(w, k, fr, s') && Kept(w, s, s')
  {
    hide Accepted, InUnit, FrameOk, StoreOk, Grown;
    ArraysTyped(w, s, s');
    FrameStays(w, k, fr, s, s');
  }

  lemma PrintEval(w: Setting, fuel: nat, k: Place, e: P.Tree, fr: Frame, s: Store)
    ensures var n := ReadAt(w, fuel, k, e, fr, s);
            ExecAt(w, fuel, k, Print(e), fr, s) ==
            if n.Stops? then Source.Stops(n.why) else Source.Done(fr, n.store.(out := n.store.out + [n.v]))
  {
    hide EnvAt, Prog, Source.Force, Source.Eval, Typed;
  }

  lemma ArrayAssignTyped(w: Setting, fuel: nat, k: Place, x: string, i: P.Tree, e: P.Tree, fr: Frame, s: Store)
    requires Ready(w, k, fr, s) && StmtSound(w, k, ArrayAssign(x, i, e))
    ensures ExecOk(w, k, s, ExecAt(w, fuel, k, ArrayAssign(x, i, e), fr, s))
    decreases fuel, ArrayAssign(x, i, e), 1
  {
    hide Ready, StmtSound, EnvAt, Declared, Kept, HasType, FrameOk, TypeOf, Sound, Prog, ExecAt, EvalAt, ValueOk, Source.Force, StoreElement;
    ReadyDeclared(w, k, fr, s);
    ArrayAssignParts(w, k, x, i, e);
    EvalTyped(w, fuel, k, i, fr, s);
    ArrayAssignEval(w, fuel, k, x, i, e, fr, s);
    var a := EvalAt(w, fuel, k, i, fr, s);
    if a.Done? {
      ReadyAgain(w, k, fr, s, a.store);
      EvalTyped(w, fuel, k, e, fr, a.store);
      PairTyped(w, fuel, k, i, e, fr, s);
      var b := EvalAt(w, fuel, k, e, fr, a.store);
      if b.Done? {
        NamedOk(w, k, x, "int[]", b.store);
        ForceTyped(w, k, Source.Later(x), "int[]", fr, b.store);
        ForceTyped(w, k, a.v, "int", fr, b.store);
        ForceTyped(w, k, b.v, "int", fr, b.store);
        var ref, j, n := Source.Force(Source.Later(x), fr, b.store), Source.Force(a.v, fr, b.store), Source.Force(b.v, fr, b.store);
        if ref.Ok? && j.Ok? && n.Ok? {
          StoredTyped(w, k, ref.v, j.v, n.v, fr, b.store);
          var r := StoreElement(ref.v, j.v, n.v, b.store);
          if r.Ok? { KeptTrans(w, s, b.store, r.v); }
        }
      }
    }
  }

  lemma NamedOk(w: Setting, k: Place, x: string, t: string, s: Store)
    requires x in EnvAt(w, k).vars && EnvAt(w, k).vars[x] == t
    ensures ValueOk(w, k, Source.Later(x), t, s)
  {
  }

  lemma StoredTyped(w: Setting, k: Place, ref: int, i: int, n: int, fr: Frame, s: Store)
    requires Ready(w, k, fr, s)
    ensures var r := StoreElement(ref, i, n, s);
            if r.Ok? then FrameOk(w, k, fr, r.v) && Kept(w, s, r.v) else OfLanguage(r.f)
  {
    hide Ready, FrameOk, Kept;
    var r := StoreElement(ref, i, n, s);
    if r.Ok? { OutputTyped(w, k, fr, s, r.v); }
  }

  function ArrayAssignOutcome(ref: Res<int>, i: Res<int>, n: Res<int>, fr: Frame, s: Store): Source.Outcome<Frame> {
    if ref.Err? then Source.Stops(Source.Fail(ref.f, s.out))
    else if i.Err? then Source.Stops(Source.Fail(i.f, s.out))
    else if n.Err? then Source.Stops(Source.Fail(n.f, s.out))
    else
      var r := StoreElement(ref.v, i.v, n.v, s);
      if r.Err? then Source.Stops(Source.Fail(r.f, s.out)) else Source.Done(fr, r.v)
  }

  lemma ArrayAssignEval(w: Setting, fuel: nat, k: Place, x: string, i: P.Tree, e: P.Tree, fr: Frame, s: Store)
    ensures var t := ArrayAssign(x, i, e);
            var a := EvalAt(w, fuel, k, i, fr, s);
            && (a.Stops? ==> ExecAt(w, fuel, k, t, fr, s) == Source.Stops(a.why))
            && (a.Done? ==>
                  var b := EvalAt(w, fuel, k, e, fr, a.store);
                  && (b.Stops? ==> ExecAt(w, fuel, k, t, fr, s) == Source.Stops(b.why))
                  && (b.Done? ==>
                        var ref, j, n := Source.Force(Source.Later(x), fr, b.store), Source.Force(a.v, fr, b.store), Source.Force(b.v, fr, b.store);
                        ExecAt(w, fuel, k, t, fr, s) == ArrayAssignOutcome(ref, j, n, fr, b.store)))
  {
    hide EnvAt, Prog, Source.Force, Source.Eval, Typed, StoreElement;
  }

  /** The arm that is taken, if any. */
  function Taken(t: TreeStmt, n: int): seq<TreeStmt>
    requires t.If? || t.IfElse?
  {
    if n != 0 then [t.thn] else if t.IfElse? then [t.els] else []
  }

  lemma BranchTyped(w: Setting, fuel: nat, k: Place, t: TreeStmt, fr: Frame, s: Store)
    requires Ready(w, k, fr, s) && StmtSound(w, k, t) && (t.If? || t.IfElse?)
    ensures ExecOk(w, k, s, ExecAt(w, fuel, k, t, fr, s))
    decreases fuel, t, 1
  {
    hide Ready, StmtSound, EnvAt, Kept, HasType, FrameOk, ReadAt, TypeOf, Sound, Prog, ExecAt, OfLanguage;
    ControlParts(w, k, t);
    ReadTyped(w, fuel, k, t.cond, fr, s);
    BranchEval(w, fuel, k, t, fr, s);
    var n := ReadAt(w, fuel, k, t.cond, fr, s);
    if n.Done? {
      var arm := Taken(t, n.v);
      if arm == [] {
        ReadyFrame(w, k, fr, n.store);
      } else {
        assert arm[0] == Arms(t)[if n.v != 0 then 0 else 1];
        ExecTyped(w, fuel, k, arm[0], fr, n.store);
        var r := ExecAt(w, fuel, k, arm[0], fr, n.store);
        if r.Done? { KeptTrans(w, s, n.store, r.store); }
      }
    }
  }

  lemma ReadyFrame(w: Setting, k: Place, fr: Frame, s: Store)
    requires Ready(w, k, fr, s)
    ensures FrameOk(w, k, fr, s)
  {
  }

  lemma BranchEval(w: Setting, fuel: nat, k: Place, t: TreeStmt, fr: Frame, s: Store)
    requires t.If? || t.IfElse?
    ensures var n := ReadAt(w, fuel, k, t.cond, fr, s);
            && (n.Stops? ==> ExecAt(w, fuel, k, t, fr, s) == Source.Stops(n.why))
            && (n.Done? ==>
                  var arm := Taken(t, n.v);
                  ExecAt(w, fuel, k, t, fr, s) == (if arm == [] then Source.Done(fr, n.store) else ExecAt(w, fuel, k, arm[0], fr, n.store)))
  {
    hide EnvAt, Prog, Source.Force, Source.Eval, Typed;
  }

  lemma LoopTyped(w: Setting, fuel: nat, k: Place, t: TreeStmt, fr: Frame, s: Store)
    requires Ready(w, k, fr, s) && StmtSound(w, k, t) && t.While?
    ensures ExecOk(w, k, s, ExecAt(w, fuel, k, t, fr, s))
    decreases fuel, t, 1
  {
    hide Ready, StmtSound, EnvAt, Kept, HasType, FrameOk, ReadAt, TypeOf, Sound, Prog, ExecAt, OfLanguage;
    ControlParts(w, k, t);
    LoopEval(w, fuel, k, t, fr, s);
    if fuel > 0 {
      ReadTyped(w, fuel, k, t.cond, fr, s);
      var n := ReadAt(w, fuel, k, t.cond, fr, s);
      if n.Done? {
        ReadyFrame(w, k, fr, n.store);
        if n.v != 0 {
          assert t.body == Arms(t)[0];
          ExecTyped(w, fuel, k, t.body, fr, n.store);
          var b := ExecAt(w, fuel, k, t.body, fr, n.store);
          if b.Done? {
            ReadyIn(w, k, fr, n.store, b.v, b.store);
            ExecTyped(w, fuel - 1, k, t, b.v, b.store);
            var r := ExecAt(w, fuel - 1, k, t, b.v, b.store);
            KeptTrans(w, s, n.store, b.store);
            if r.Done? { KeptTrans(w, s, b.store, r.store); }
          }
        }
      }
    }
  }

  lemma LoopEval(w: Setting, fuel: nat, k: Place, t: TreeStmt, fr: Frame, s: Store)
    requires t.While?
    ensures fuel == 0 ==> ExecAt(w, fuel, k, t, fr, s) == Source.Stops(Source.Timeout(s.out))
    ensures fuel > 0 ==>
              var n := ReadAt(w, fuel, k, t.cond, fr, s);
              && (n.Stops? ==> ExecAt(w, fuel, k, t, fr, s) == Source.Stops(n.why))
              && (n.Done? && n.v == 0 ==> ExecAt(w, fuel, k, t, fr, s) == Source.Done(fr, n.store))
              && (n.Done? && n.v != 0 ==>
                    var b := ExecAt(w, fuel, k, t.body, fr, n.store);
                    ExecAt(w, fuel, k, t, fr, s) == if b.Stops? then b else ExecAt(w, fuel - 1, k, t, b.v, b.store))
  {
    hide EnvAt, Prog, Source.Force, Source.Eval, Typed;
  }

  lemma {:induction false} BodyTyped(w: Setting, fuel: nat, k: Place, ts: seq<TreeStmt>, fr: Frame, s: Store)
    requires Ready(w, k, fr, s) && BodySound(w, k, ts)
    ensures ExecOk(w, k, s, BodyAt(w, fuel, k, ts, fr, s))
    decreases fuel, ts
  {
    hide Ready, StmtSound, EnvAt, Kept, FrameOk, ExecAt, OfLanguage;
    if ts == [] {
      ReadyKept(w, k, fr, s);
      ReadyFrame(w, k, fr, s);
    } else {
      BodyFirst(w, k, ts);
      ExecTyped(w, fuel, k, ts[0], fr, s);
      BodyEval(w, fuel, k, ts, fr, s);
      var r := ExecAt(w, fuel, k, ts[0], fr, s);
      if r.Done? {
        ReadyIn(w, k, fr, s, r.v, r.store);
        BodyTyped(w, fuel, k, ts[1..], r.v, r.store);
        var b := BodyAt(w, fuel, k, ts[1..], r.v, r.store);
        if b.Done? { KeptTrans(w, s, r.store, b.store); }
      }
    }
  }

  lemma BodyFirst(w: Setting, k: Place, ts: seq<TreeStmt>)
    requires ts != [] && BodySound(w, k, ts)
    ensures StmtSound(w, k, ts[0]) && BodySound(w, k, ts[1..])
  {
    hide EnvAt, CheckStmt, LexedStmt, StmtResolves;
  }

  lemma BodyEval(w: Setting, fuel: nat, k: Place, ts: seq<TreeStmt>, fr: Frame, s: Store)
    requires ts != []
    ensures var r := ExecAt(w, fuel, k, ts[0], fr, s);
            BodyAt(w, fuel, k, ts, fr, s) == if r.Stops? then r else BodyAt(w, fuel, k, ts[1..], r.v, r.store)
  {
    hide Prog, EnvAt, TypedStmt, Source.Exec;
    var us := TypedStmts(EnvAt(w, k), ts);
    assert us[0] == TypedStmt(EnvAt(w, k), ts[0]) && us[1..] == TypedStmts(EnvAt(w, k), ts[1..]);
  }

  // ----- whole programs -----

  lemma MainReady(w: Setting)
    requires Accepted(w)
    ensures Ready(w, MainPlace(w.u), FreshFrame(Prog(w).mainSig), Source.EMPTY_STORE) && BodySound(w, MainPlace(w.u), w.u.mainBody)
  {
    hide Declared, Lexed, LexedStmt, Resolves, StmtResolves, CheckStmts, CheckMethods, HasType, TypedStmts, TypedMethods;
    var k, fr := MainPlace(w.u), FreshFrame(Prog(w).mainSig);
    assert InUnit(w.u, k);
    ZeroTyped(w, k.className, Source.EMPTY_STORE);
    forall x | x in k.locals
      ensures HasType(w, fr.locals[x], k.locals[x], Source.EMPTY_STORE)
    {
      ZeroTyped(w, k.locals[x], Source.EMPTY_STORE);
    }
  }

  /** Type soundness: whatever an accepted program fails with is a fault of the language; no name is ever missing. */
  lemma AcceptedNeverGoesWrong(w: Setting, fuel: nat)
    requires Accepted(w)
    ensures Fine(Source.Run(TypedUnit(w.classes, w.u), fuel))
  {
    hide Accepted, Ready, FrameOk, Kept, Prog, EnvAt, OfLanguage, BodySound;
    MainReady(w);
    BodyTyped(w, fuel, MainPlace(w.u), w.u.mainBody, FreshFrame(Prog(w).mainSig), Source.EMPTY_STORE);
    RunIs(w, fuel);
  }

  lemma RunIs(w: Setting, fuel: nat)
    ensures Source.Run(TypedUnit(w.classes, w.u), fuel) ==
            BodyAt(w, fuel, MainPlace(w.u), w.u.mainBody, FreshFrame(Prog(w).mainSig), Source.EMPTY_STORE)
  {
    hide TypedStmts, TypedMethods, Source.ExecAll;
  }

  // ----- the hypothesis on identifiers -----

  /** An accepted identifier is missing at run time exactly when it does not name a variable. */
  lemma MissingExactly(w: Setting, k: Place, x: string, fr: Frame, s: Store)
    requires Tabled(w) && InUnit(w.u, k) && FrameOk(w, k, fr, s) && StoreOk(w, s)
    ensures GetVar(x, fr, s) == Err(NoSuchVariable) <==> x !in EnvAt(w, k).vars
  {
    hide InUnit, HasType, ObjectOk;
    if x in EnvAt(w, k).vars { GetTyped(w, k, x, fr, s); }
  }

  const CLASSES: Classes := map["M" := map["main" := MethodInfo("void", [])]]
  const NAME_PRINTER := Unit("M", map[], map["this" := "M"], [Print(P.Name("M"))], [], [])

  lemma PrinterDeclared()
    ensures WellDeclared(CLASSES, NAME_PRINTER)
  {
    var t: TreeStmt := Print(P.Name("M"));
    assert NAME_PRINTER.mainBody == [t];
    assert LexedStmt(t);
  }

  lemma PrinterTabled()
    ensures Tabled(Setting(CLASSES, NAME_PRINTER))
  {
    assert forall k :: InUnit(NAME_PRINTER, k) ==> k == MainPlace(NAME_PRINTER);
  }

  lemma NamePrinted(env: Env, c: string)
    requires c !in env.vars && c in env.classes && !IsError(c)
    ensures CheckStmts(env, [Print(P.Name(c))]) == Verdict(true, 0)
  {
    var t: TreeStmt := Print(P.Name(c));
    assert LookUp(env, c) == Checked(c, 0);
    assert CheckStmt(env, t) == Verdict(true, 0);
    hide CheckStmt;
    assert [t][1..] == [] && CheckStmts(env, []) == Verdict(true, 0);
  }

  lemma PrinterChecked()
    ensures CheckUnit(CLASSES, NAME_PRINTER).errors == 0
  {
    var env := EnvOf(CLASSES, "M", map[], map["this" := "M"]);
    assert "M" !in env.vars && "M" in env.classes;
    NamePrinted(env, "M");
    hide CheckStmt, CheckMethod, CheckExpr;
    assert CheckStmts(Env(map[], CLASSES, map[]), []) == Verdict(true, 0);
    assert CheckMethods(CLASSES, []) == Verdict(true, 0);
    hide CheckStmts, CheckMethods;
  }

  lemma PrinterUnresolved()
    ensures !UnitResolves(Setting(CLASSES, NAME_PRINTER))
  {
    var env := EnvAt(Setting(CLASSES, NAME_PRINTER), MainPlace(NAME_PRINTER));
    var t: TreeStmt := Print(P.Name("M"));
    assert "M" !in env.vars;
    assert t in NAME_PRINTER.mainBody && !StmtResolves(env, t);
  }

  lemma PrinterFails()
    ensures Source.Run(TypedUnit(CLASSES, NAME_PRINTER), 0) == Source.Stops(Source.Fail(NoSuchVariable, []))
  {
    var p, t := TypedUnit(CLASSES, NAME_PRINTER), A.Print(A.Ident("M"));
    assert [Print(P.Name("M"))][1..] == [];
    assert p.mainBody == [t] + [];
    var fr := FreshFrame(p.mainSig);
    assert GetVar("M", fr, Source.EMPTY_STORE) == Err(NoSuchVariable);
    assert Source.Exec(p, 0, t, fr, Source.EMPTY_STORE) == Source.Stops(Source.Fail(NoSuchVariable, []));
  }

  /** The type checker accepts a program that prints the name of its class, and the program fails. */
  lemma ClassNameAccepted()
    ensures var w := Setting(CLASSES, NAME_PRINTER);
            && WellDeclared(CLASSES, NAME_PRINTER) && Tabled(w) && CheckUnit(CLASSES, NAME_PRINTER).errors == 0 && !UnitResolves(w)
            && Source.Run(TypedUnit(CLASSES, NAME_PRINTER), 0) == Source.Stops(Source.Fail(NoSuchVariable, []))
  {
    hide *;
    PrinterDeclared();
    PrinterTabled();
    PrinterChecked();
    PrinterUnresolved();
    PrinterFails();
  }
}

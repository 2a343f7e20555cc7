/** Typed values, frames and stores, and what the symbol table and the type checker guarantee of a unit; how the
    machine's variables and allocation respect the types. */
module TypedStores {
  import A = Ast
  import P = Parsing
  import opened Machine
  import opened Names
  import opened TypeChecking
  import Source

  datatype Setting = Setting(classes: Classes, u: Unit)

  /** Where a statement stands: the class, and the types of the locals and of the fields. */
  datatype Place = Place(className: string, locals: map<string, string>, fields: map<string, string>)

  function MainPlace(u: Unit): Place {
    Place(u.mainClass, u.mainLocals, u.mainFields)
  }

  function PlaceOf(d: MethodDecl): Place {
    Place(d.className, d.locals, d.fields)
  }

  ghost predicate InUnit(u: Unit, k: Place) {
    k == MainPlace(u) || exists d :: d in u.methods && k == PlaceOf(d)
  }

  function EnvAt(w: Setting, k: Place): Env {
    EnvOf(w.classes, k.className, k.locals, k.fields)
  }

  predicate Builtin(t: string) {
    t == "int" || t == "boolean" || t == "int[]"
  }

  // ----- hypotheses -----

  /** What the symbol table guarantees: classes are not named like builtin types, all methods of a class share its
      fields, `this` is a field of the class's own type, and parameters are locals of their declared types. */
  ghost predicate Tabled(w: Setting) {
    && (forall c {:trigger c in w.classes} :: c in w.classes ==> !Builtin(c))
    && (forall k {:trigger InUnit(w.u, k)} :: InUnit(w.u, k) ==> TabledPlace(k))
    && (forall k, k' {:trigger InUnit(w.u, k), InUnit(w.u, k')} ::
          InUnit(w.u, k) && InUnit(w.u, k') && k.className == k'.className ==> k.fields == k'.fields)
    && (forall d {:trigger d in w.u.methods} :: d in w.u.methods ==> TabledParams(d))
  }

  ghost predicate TabledPlace(k: Place) {
    && !Builtin(k.className)
    && "this" !in k.locals && "this" in k.fields && k.fields["this"] == k.className
  }

  ghost predicate TabledParams(d: MethodDecl) {
    && |d.params| == |d.info.params| && Distinct(d.params)
    && forall i {:trigger d.params[i]} :: 0 <= i < |d.params| ==> d.params[i] in d.locals && d.locals[d.params[i]] == d.info.params[i]
  }

  /** Every identifier names a variable. */
  predicate Resolves(env: Env, e: P.Tree) {
    match e
    case Name(x) => x in env.vars
    case Infix(_, l, r) => Resolves(env, l) && Resolves(env, r)
    case Not(r) => Resolves(env, r)
    case NewArray(r) => Resolves(env, r)
    case Index(a, i) => Resolves(env, a) && Resolves(env, i)
    case Length(a) => Resolves(env, a)
    case Call(r, _, args) => Resolves(env, r) && forall a | a in args :: Resolves(env, a)
    case _ => true
  }

  predicate StmtResolves(env: Env, s: TreeStmt) {
    match s
    case Declare(_, _) => true
    case Assign(x, e) => x in env.vars && Resolves(env, e)
    case ArrayAssign(x, i, e) => x in env.vars && Resolves(env, i) && Resolves(env, e)
    case Print(e) => Resolves(env, e)
    case If(c, t) => Resolves(env, c) && StmtResolves(env, t)
    case IfElse(c, t, f) => Resolves(env, c) && StmtResolves(env, t) && StmtResolves(env, f)
    case While(c, b) => Resolves(env, c) && StmtResolves(env, b)
    case Block(ss) => forall s | s in ss :: StmtResolves(env, s)
  }

  ghost predicate UnitResolves(w: Setting) {
    && (forall s {:trigger s in w.u.mainBody} :: s in w.u.mainBody ==> StmtResolves(EnvAt(w, MainPlace(w.u)), s))
    && (forall d {:trigger d in w.u.methods} :: d in w.u.methods ==> MethodResolves(w, d))
  }

  ghost predicate MethodResolves(w: Setting, d: MethodDecl) {
    (forall s :: s in d.body ==> StmtResolves(EnvIn(w.classes, d), s)) && Resolves(EnvIn(w.classes, d), d.result)
  }

  ghost predicate Accepted(w: Setting) {
    WellDeclared(w.classes, w.u) && CheckUnit(w.classes, w.u).errors == 0 && Tabled(w) && UnitResolves(w)
  }

  // ----- typed values, frames and stores -----

  /** Variables of other types, which nothing but their initial 0 inhabits, are the arguments of main. */
  ghost predicate HasType(w: Setting, n: int, t: string, s: Store) {
    if t == "int" then true
    else if t == "boolean" then n == 0 || n == 1
    else if t == "int[]" then 0 <= n <= |s.arrays|
    else n == 0 || (t in w.classes && 0 < n <= |s.objects| && s.objects[n - 1].className == t)
  }

  /** Nothing is deallocated, and objects keep their class. */
  ghost predicate Grown(s: Store, s': Store) {
    && |s.arrays| <= |s'.arrays| && |s.objects| <= |s'.objects|
    && forall i {:trigger s'.objects[i]} :: 0 <= i < |s.objects| ==> s'.objects[i].className == s.objects[i].className
  }

  ghost predicate HoldsFields(w: Setting, o: Obj, k: Place, s: Store) {
    && o.fields.Keys == k.fields.Keys - {"this"}
    && forall x {:trigger o.fields[x]} :: x in o.fields ==> HasType(w, o.fields[x], k.fields[x], s)
  }

  ghost predicate ObjectOk(w: Setting, o: Obj, s: Store) {
    forall k {:trigger InUnit(w.u, k)} :: InUnit(w.u, k) && k.className == o.className ==> HoldsFields(w, o, k, s)
  }

  ghost predicate StoreOk(w: Setting, s: Store) {
    forall i {:trigger s.objects[i]} :: 0 <= i < |s.objects| ==> ObjectOk(w, s.objects[i], s)
  }

  ghost predicate FrameOk(w: Setting, k: Place, fr: Frame, s: Store) {
    && fr.locals.Keys == k.locals.Keys && fr.fields == k.fields.Keys && HasType(w, fr.self, k.className, s)
    && forall x {:trigger fr.locals[x]} :: x in k.locals ==> HasType(w, fr.locals[x], k.locals[x], s)
  }

  lemma TypeStays(w: Setting, n: int, t: string, s: Store, s': Store)
    requires HasType(w, n, t, s) && Grown(s, s')
    ensures HasType(w, n, t, s')
  {
  }

  lemma FrameStays(w: Setting, k: Place, fr: Frame, s: Store, s': Store)
    requires FrameOk(w, k, fr, s) && Grown(s, s')
    ensures FrameOk(w, k, fr, s')
  {
    hide HasType, Grown;
    TypeStays(w, fr.self, k.className, s, s');
    forall x | x in k.locals
      ensures HasType(w, fr.locals[x], k.locals[x], s')
    {
      TypeStays(w, fr.locals[x], k.locals[x], s, s');
    }
  }

  lemma ObjectStays(w: Setting, o: Obj, s: Store, s': Store)
    requires ObjectOk(w, o, s) && Grown(s, s')
    ensures ObjectOk(w, o, s')
  {
    hide HasType, Grown, InUnit;
    forall k | InUnit(w.u, k) && k.className == o.className
      ensures HoldsFields(w, o, k, s')
    {
      assert HoldsFields(w, o, k, s);
      forall x | x in o.fields
        ensures HasType(w, o.fields[x], k.fields[x], s')
      {
        TypeStays(w, o.fields[x], k.fields[x], s, s');
      }
    }
  }

  lemma GrownTrans(a: Store, b: Store, c: Store)
    requires Grown(a, b) && Grown(b, c)
    ensures Grown(a, c)
  {
  }

  // ----- variables -----

  /** The faults of the language; the others are the machine's, or come from names that resolve to nothing. */
  predicate OfLanguage(f: Fault) {
    f.DivideByZero? || f.BadReference? || f.IndexOutOfBounds? || f.NegativeLength? || f.ThisUnset?
  }

  lemma SelfObject(w: Setting, k: Place, fr: Frame, s: Store)
    requires Tabled(w) && InUnit(w.u, k) && FrameOk(w, k, fr, s) && StoreOk(w, s) && fr.self != 0
    ensures 0 < fr.self <= |s.objects| && s.objects[fr.self - 1].className == k.className
    ensures HoldsFields(w, s.objects[fr.self - 1], k, s)
  {
    hide InUnit, HoldsFields;
    assert TabledPlace(k);
    assert ObjectOk(w, s.objects[fr.self - 1], s);
  }

  /** A variable that resolves reads as a value of its type, or there is no object to read it from. */
  lemma GetTyped(w: Setting, k: Place, x: string, fr: Frame, s: Store)
    requires Tabled(w) && InUnit(w.u, k) && FrameOk(w, k, fr, s) && StoreOk(w, s) && x in EnvAt(w, k).vars
    ensures GetVar(x, fr, s).Ok? ==> HasType(w, GetVar(x, fr, s).v, EnvAt(w, k).vars[x], s)
    ensures GetVar(x, fr, s).Err? ==> GetVar(x, fr, s).f == ThisUnset
  {
    hide InUnit, HasType, ObjectOk;
    assert TabledPlace(k);
    if x !in k.locals && x != "this" && fr.self != 0 { SelfObject(w, k, fr, s); }
  }

  /** A write of a value of the right type keeps frame and store typed. */
  lemma SetTyped(w: Setting, k: Place, x: string, n: int, fr: Frame, s: Store)
    requires Tabled(w) && InUnit(w.u, k) && FrameOk(w, k, fr, s) && StoreOk(w, s)
    requires x in EnvAt(w, k).vars && x != "this" && HasType(w, n, EnvAt(w, k).vars[x], s)
    ensures var r := SetVar(x, n, fr, s);
            if r.Ok? then FrameOk(w, k, r.v.0, r.v.1) && StoreOk(w, r.v.1) && Grown(s, r.v.1) else r.f == ThisUnset
  {
    hide InUnit, HasType, ObjectOk;
    assert TabledPlace(k);
    if x !in k.locals && fr.self != 0 {
      SelfObject(w, k, fr, s);
      FieldSet(w, k, x, n, fr.self - 1, s);
      FrameStays(w, k, fr, s, WithField(s, fr.self - 1, x, n));
    }
  }

  function WithField(s: Store, i: nat, x: string, n: int): Store
    requires i < |s.objects|
  {
    s.(objects := s.objects[i := s.objects[i].(fields := s.objects[i].fields[x := n])])
  }

  lemma FieldSet(w: Setting, k: Place, x: string, n: int, i: nat, s: Store)
    requires Tabled(w) && InUnit(w.u, k) && StoreOk(w, s) && i < |s.objects| && s.objects[i].className == k.className
    requires x in k.fields && x != "this" && HasType(w, n, k.fields[x], s)
    ensures StoreOk(w, WithField(s, i, x, n)) && Grown(s, WithField(s, i, x, n))
  {
    hide InUnit, HasType, Tabled;
    var s' := WithField(s, i, x, n);
    forall j | 0 <= j < |s'.objects|
      ensures ObjectOk(w, s'.objects[j], s')
    {
      assert ObjectOk(w, s.objects[j], s);
      if j == i {
        WithFieldOk(w, k, x, n, s.objects[i], s);
        ObjectStays(w, s'.objects[i], s, s');
      } else {
        ObjectStays(w, s.objects[j], s, s');
      }
    }
  }

  lemma WithFieldOk(w: Setting, k: Place, x: string, n: int, o: Obj, s: Store)
    requires Tabled(w) && InUnit(w.u, k) && ObjectOk(w, o, s) && o.className == k.className
    requires x in k.fields && x != "this" && HasType(w, n, k.fields[x], s)
    ensures ObjectOk(w, o.(fields := o.fields[x := n]), s)
  {
    hide InUnit, HasType;
    var o' := o.(fields := o.fields[x := n]);
    forall k' | InUnit(w.u, k') && k'.className == o.className
      ensures HoldsFields(w, o', k', s)
    {
      assert k'.fields == k.fields;
      assert HoldsFields(w, o, k', s);
    }
  }

  // ----- allocation -----

  lemma {:induction false} ClassOfRoot(c: string, m: string)
    requires '.' !in c
    ensures ClassOf(RootName(c, m)) == c
  {
    if c == "" {
      assert RootName(c, m)[0] == '.';
    } else {
      ClassOfRoot(c[1..], m);
      assert RootName(c, m)[1..] == RootName(c[1..], m);
    }
  }

  /** The fields that the machine gives an object are those of the places of its class. */
  lemma FieldsOfClass(w: Setting, k: Place)
    requires Accepted(w) && InUnit(w.u, k)
    ensures ClassFields(Source.FieldTable(TypedUnit(w.classes, w.u)), k.className) == k.fields.Keys - {"this"}
  {
    hide CheckUnit, WellDeclared, UnitResolves, TypedUnit, InUnit;
    var p := TypedUnit(w.classes, w.u);
    var ft := Source.FieldTable(p);
    forall m | m in ft && ClassOf(m) == k.className
      ensures ft[m] == k.fields.Keys
    {
      var k' := RootPlace(w, m);
    }
    var m := PlaceRoot(w, k);
  }

  lemma MethodsByRoot(w: Setting)
    requires WellDeclared(w.classes, w.u)
    ensures var methods := TypedMethods(w.classes, w.u.methods);
            && (forall d :: d in w.u.methods ==> RootOf(d) in methods && methods[RootOf(d)] == TypedMethod(w.classes, d))
            && forall m :: m in methods ==> exists d :: d in w.u.methods && RootOf(d) == m
  {
    hide Declared, LexedMethod, LexedStmt, TypedMethod, RootOf, TypedMethods;
    TypedMethodsHas(w.classes, w.u.methods);
    forall d | d in w.u.methods
      ensures RootOf(d) in TypedMethods(w.classes, w.u.methods)
      ensures TypedMethods(w.classes, w.u.methods)[RootOf(d)] == TypedMethod(w.classes, d)
    {
      var i :| 0 <= i < |w.u.methods| && w.u.methods[i] == d;
    }
    forall m | m in TypedMethods(w.classes, w.u.methods)
      ensures exists d :: d in w.u.methods && RootOf(d) == m
    {
      var i :| 0 <= i < |w.u.methods| && RootOf(w.u.methods[i]) == m;
      assert w.u.methods[i] in w.u.methods;
    }
  }

  lemma RootsApart(w: Setting)
    requires WellDeclared(w.classes, w.u)
    ensures forall d :: d in w.u.methods ==> RootOf(d) != RootName(w.u.mainClass, "main")
  {
    hide Declared, LexedMethod, LexedStmt, RootOf;
  }

  /** The fields of each root, as the machine is given them. */
  lemma FieldsOfRoots(w: Setting)
    requires WellDeclared(w.classes, w.u)
    ensures var ft, main := Source.FieldTable(TypedUnit(w.classes, w.u)), RootName(w.u.mainClass, "main");
            && main in ft && ft[main] == w.u.mainFields.Keys
            && (forall d :: d in w.u.methods ==> RootOf(d) in ft && ft[RootOf(d)] == d.fields.Keys)
            && forall m :: m in ft && m != main ==> exists d :: d in w.u.methods && RootOf(d) == m
  {
    hide WellDeclared, TypedStmts, Typed, RootOf, TypedMethods;
    MethodsByRoot(w);
    RootsApart(w);
    var p := TypedUnit(w.classes, w.u);
    forall d | d in w.u.methods
      ensures RootOf(d) in p.methods && p.methods[RootOf(d)].sig.fields == d.fields.Keys && RootOf(d) != p.mainName
    {
      assert p.methods[RootOf(d)] == TypedMethod(w.classes, d);
    }
    var ft := Source.FieldTable(p);
    forall m | m in ft && m != p.mainName
      ensures exists d :: d in w.u.methods && RootOf(d) == m
    {
      assert m in TypedMethods(w.classes, w.u.methods);
    }
  }

  lemma NoDots(w: Setting)
    requires WellDeclared(w.classes, w.u)
    ensures ClassOf(RootName(w.u.mainClass, "main")) == w.u.mainClass
    ensures forall d :: d in w.u.methods ==> ClassOf(RootOf(d)) == d.className
  {
    hide LexedMethod, LexedStmt, Declared, Lexed, ClassOf, RootName;
    ClassOfRoot(w.u.mainClass, "main");
    forall d | d in w.u.methods
      ensures ClassOf(RootOf(d)) == d.className
    {
      ClassOfRoot(d.className, d.name);
    }
  }

  lemma RootPlace(w: Setting, m: string) returns (k: Place)
    requires Accepted(w) && m in Source.FieldTable(TypedUnit(w.classes, w.u))
    ensures InUnit(w.u, k) && Source.FieldTable(TypedUnit(w.classes, w.u))[m] == k.fields.Keys && ClassOf(m) == k.className
  {
    hide CheckUnit, UnitResolves, WellDeclared, TypedUnit, Source.FieldTable;
    FieldsOfRoots(w);
    NoDots(w);
    if m == RootName(w.u.mainClass, "main") {
      k := MainPlace(w.u);
      assert InUnit(w.u, k);
    } else {
      var d :| d in w.u.methods && RootOf(d) == m;
      k := PlaceOf(d);
      assert InUnit(w.u, k);
    }
  }

  lemma PlaceRoot(w: Setting, k: Place) returns (m: string)
    requires Accepted(w) && InUnit(w.u, k)
    ensures m in Source.FieldTable(TypedUnit(w.classes, w.u)) && ClassOf(m) == k.className
    ensures Source.FieldTable(TypedUnit(w.classes, w.u))[m] == k.fields.Keys
  {
    hide CheckUnit, UnitResolves, WellDeclared, TypedUnit, Source.FieldTable;
    FieldsOfRoots(w);
    NoDots(w);
    if k == MainPlace(w.u) {
      m := RootName(w.u.mainClass, "main");
    } else {
      var d :| d in w.u.methods && k == PlaceOf(d);
      m := RootOf(d);
    }
  }

  /** A new object, its fields 0, is typed. */
  lemma NewObjectTyped(w: Setting, c: string, s: Store)
    requires Accepted(w) && StoreOk(w, s) && c in w.classes
    ensures var (ref, s') := AllocObject(Source.FieldTable(TypedUnit(w.classes, w.u)), c, s);
            HasType(w, ref, c, s') && StoreOk(w, s') && Grown(s, s')
  {
    hide CheckUnit, UnitResolves, WellDeclared, TypedUnit, Source.FieldTable, InUnit, ObjectOk, ClassFields;
    var (ref, s') := AllocObject(Source.FieldTable(TypedUnit(w.classes, w.u)), c, s);
    assert !Builtin(c);
    ZeroFields(w, s'.objects[ref - 1], s');
    forall i | 0 <= i < |s'.objects|
      ensures ObjectOk(w, s'.objects[i], s')
    {
      if i < |s.objects| {
        assert ObjectOk(w, s.objects[i], s);
        ObjectStays(w, s.objects[i], s, s');
      }
    }
  }

  lemma ZeroFields(w: Setting, o: Obj, s: Store)
    requires Accepted(w) && o.fields.Keys == ClassFields(Source.FieldTable(TypedUnit(w.classes, w.u)), o.className)
    requires forall x :: x in o.fields ==> o.fields[x] == 0
    ensures ObjectOk(w, o, s)
  {
    hide CheckUnit, UnitResolves, WellDeclared, TypedUnit, Source.FieldTable, InUnit, ClassFields;
    forall k | InUnit(w.u, k) && k.className == o.className
      ensures HoldsFields(w, o, k, s)
    {
      FieldsOfClass(w, k);
    }
  }

  /** New arrays and writes to array elements concern no object. */
  lemma ArraysTyped(w: Setting, s: Store, s': Store)
    requires StoreOk(w, s) && s'.objects == s.objects && |s.arrays| <= |s'.arrays|
    ensures StoreOk(w, s') && Grown(s, s')
  {
    hide ObjectOk;
    forall i | 0 <= i < |s'.objects|
      ensures ObjectOk(w, s'.objects[i], s')
    {
      assert ObjectOk(w, s.objects[i], s);
      ObjectStays(w, s.objects[i], s, s');
    }
  }
}

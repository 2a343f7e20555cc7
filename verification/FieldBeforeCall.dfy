/** An accepted program whose compiled code does not do what section 15.7.1 of the Java Language Specification asks for:
    `class A { int x; int g() { x = 1; return x + this.f(); } int f() { x = 2; return 0; } }`, with main printing
    `new A().g()`. The language has 1 printed; the compiled code reads x after the call and prints 2. */
module FieldBeforeCall {
  import A = Ast
  import P = Parsing
  import opened EagerReads
  import opened Machine
  import opened Names
  import opened TypeChecking
  import opened TypedStores
  import opened UnitMeaning
  import Source

  const INT := MethodInfo("int", [])
  const CLASSES: Classes := map["M" := map["main" := MethodInfo("void", [])], "A" := map["g" := INT, "f" := INT]]
  const FIELDS: map<string, string> := map["this" := "A", "x" := "int"]
  const SETTER := MethodDecl("A", "f", INT, [], map[], FIELDS, [Assign("x", P.Integer("2"))], P.Integer("0"))
  const SUM := P.Infix(P.Add, P.Name("x"), P.Call(P.This, "f", []))
  const SUMMER := MethodDecl("A", "g", INT, [], map[], FIELDS, [Assign("x", P.Integer("1"))], SUM)
  const SHOWN := P.Call(P.NewObject("A"), "g", [])
  const UNIT := Unit("M", map[], map["this" := "M"], [Print(SHOWN)], [], [SUMMER, SETTER])
  const W := Setting(CLASSES, UNIT)

  // ----- the unit is accepted -----

  lemma Digits()
    ensures NumberOf("0") == 0 && NumberOf("1") == 1 && NumberOf("2") == 2
  {
    assert "0"[..0] == "" && "1"[..0] == "" && "2"[..0] == "";
  }

  lemma EnvDeclaredHere(className: string, fields: map<string, string>)
    requires fields == FIELDS || fields == map["this" := "M"]
    ensures Declared(EnvOf(CLASSES, className, map[], fields))
  {
  }

  lemma RootsDiffer()
    ensures RootOf(SUMMER) == "A.g" && RootOf(SETTER) == "A.f" && RootName("M", "main") == "M.main"
    ensures "A.g" != "A.f" && "A.g" != "M.main" && "A.f" != "M.main"
  {
    assert "A.g"[2] != "A.f"[2] && "A.g"[0] != "M.main"[0] && "A.f"[0] != "M.main"[0];
  }

  lemma ExpressionsLexed()
    ensures Lexed(P.Integer("0")) && Lexed(P.Integer("1")) && Lexed(P.Integer("2")) && Lexed(SUM) && Lexed(SHOWN)
  {
    Digits();
    hide NumberOf;
    assert "g" != "main" && "f" != "main";
    assert Lexed(P.Call(P.This, "f", [])) && Lexed(P.Name("x"));
  }

  lemma MethodsLexed()
    ensures LexedMethod(SUMMER) && LexedMethod(SETTER) && LexedStmt(Print(SHOWN))
  {
    hide Lexed;
    ExpressionsLexed();
    assert !Generated("x") && "x" != "this";
    var a: TreeStmt, b: TreeStmt := Assign("x", P.Integer("1")), Assign("x", P.Integer("2"));
    assert LexedStmt(a) && LexedStmt(b);
  }

  lemma UnitDeclared()
    ensures WellDeclared(CLASSES, UNIT)
  {
    MethodsLexed();
    hide LexedMethod, LexedStmt, Declared, RootOf;
    RootsDiffer();
    EnvDeclaredHere("M", map["this" := "M"]);
    EnvDeclaredHere("A", FIELDS);
    MethodsListed();
  }

  lemma MethodsListed()
    ensures forall c, m {:trigger CLASSES[c][m]} :: c in CLASSES && m in CLASSES[c] && m != "main" ==>
              exists d :: d in UNIT.methods && d.className == c && d.name == m && d.info == CLASSES[c][m]
  {
    assert SUMMER in UNIT.methods && SETTER in UNIT.methods;
    forall c, m | c in CLASSES && m in CLASSES[c] && m != "main"
      ensures exists d :: d in UNIT.methods && d.className == c && d.name == m && d.info == CLASSES[c][m]
    {
      var d := if m == "g" then SUMMER else SETTER;
      assert d in UNIT.methods && d.className == c && d.name == m && d.info == CLASSES[c][m];
    }
  }

  lemma PlacesTabled(k: Place)
    requires InUnit(UNIT, k)
    ensures k == MainPlace(UNIT) || k == Place("A", map[], FIELDS)
    ensures TabledPlace(k)
  {
    if k != MainPlace(UNIT) {
      var d :| d in UNIT.methods && k == PlaceOf(d);
      assert d == SUMMER || d == SETTER;
    }
    assert "A"[0] != "b"[0];
  }

  lemma UnitTabled()
    ensures Tabled(W)
  {
    hide InUnit, TabledPlace;
    forall k | InUnit(W.u, k)
      ensures TabledPlace(k) && (k == MainPlace(UNIT) || k == Place("A", map[], FIELDS))
    {
      PlacesTabled(k);
    }
    assert MainPlace(UNIT).className != "A";
    assert TabledParams(SUMMER) && TabledParams(SETTER);
  }

  lemma MainChecked(env: Env)
    requires env == EnvOf(CLASSES, "M", map[], map["this" := "M"])
    ensures CheckStmts(env, [Print(SHOWN)]) == Verdict(true, 0)
  {
    var t: TreeStmt := Print(SHOWN);
    assert CheckExpr(env, P.NewObject("A")) == Checked("A", 0);
    assert CheckArgs(env, []) == ([], 0);
    assert CheckExpr(env, SHOWN) == Checked("int", 0);
    assert CheckStmt(env, t) == Verdict(true, 0);
    hide CheckStmt;
    assert [t][1..] == [] && CheckStmts(env, []) == Verdict(true, 0);
  }

  lemma SetChecked(env: Env, n: string)
    requires env == EnvOf(CLASSES, "A", map[], FIELDS)
    ensures CheckStmts(env, [Assign("x", P.Integer(n))]) == Verdict(true, 0)
  {
    var t: TreeStmt := Assign("x", P.Integer(n));
    assert LookUp(env, "x") == Checked("int", 0);
    assert CheckStmt(env, t) == Verdict(true, 0);
    hide CheckStmt;
    assert [t][1..] == [] && CheckStmts(env, []) == Verdict(true, 0);
  }

  lemma SumChecked(env: Env)
    requires env == EnvOf(CLASSES, "A", map[], FIELDS)
    ensures CheckExpr(env, SUM) == Checked("int", 0)
  {
    assert LookUp(env, "x") == Checked("int", 0);
    assert CheckExpr(env, P.This) == Checked("A", 0);
    assert CheckArgs(env, []) == ([], 0);
    assert CheckExpr(env, P.Call(P.This, "f", [])) == Checked("int", 0);
    assert CheckExpr(env, P.Name("x")) == Checked("int", 0);
  }

  lemma SummerChecked()
    ensures CheckMethod(CLASSES, SUMMER) == Verdict(true, 0)
  {
    var env := EnvOf(CLASSES, "A", map[], FIELDS);
    SetChecked(env, "1");
    SumChecked(env);
    hide CheckStmts, CheckExpr, EnvOf;
  }

  lemma SetterChecked()
    ensures CheckMethod(CLASSES, SETTER) == Verdict(true, 0)
  {
    var env := EnvOf(CLASSES, "A", map[], FIELDS);
    SetChecked(env, "2");
    assert CheckExpr(env, P.Integer("0")) == Checked("int", 0);
    hide CheckStmts, CheckExpr, EnvOf;
  }

  lemma MethodsChecked()
    ensures CheckMethods(CLASSES, [SUMMER, SETTER]) == Verdict(true, 0)
  {
    hide CheckMethod;
    SummerChecked();
    SetterChecked();
    assert [SUMMER, SETTER][1..] == [SETTER] && [SETTER][1..] == [];
    assert CheckMethods(CLASSES, []) == Verdict(true, 0) && CheckMethods(CLASSES, [SETTER]) == Verdict(true, 0);
  }

  lemma NothingDeclared(env: Env)
    ensures CheckStmts(env, []) == Verdict(true, 0)
  {
  }

  lemma UnitChecked()
    ensures CheckUnit(CLASSES, UNIT).errors == 0
  {
    hide CheckMethods, CheckStmts, EnvOf;
    MainChecked(EnvOf(CLASSES, "M", map[], map["this" := "M"]));
    NothingDeclared(Env(map[], CLASSES, map[]));
    MethodsChecked();
  }

  lemma UnitIsResolved()
    ensures UnitResolves(W)
  {
    hide StmtResolves, MethodResolves;
    MainResolves();
    MethodResolvesHere(SUMMER);
    MethodResolvesHere(SETTER);
  }

  lemma MainResolves()
    ensures StmtResolves(EnvAt(W, MainPlace(UNIT)), Print(SHOWN))
  {
    var env := EnvAt(W, MainPlace(UNIT));
    var t: TreeStmt := Print(SHOWN);
    assert Resolves(env, P.NewObject("A")) && Resolves(env, SHOWN);
    assert StmtResolves(env, t);
  }

  lemma MethodResolvesHere(d: MethodDecl)
    requires d == SUMMER || d == SETTER
    ensures MethodResolves(W, d)
  {
    var env := EnvIn(CLASSES, d);
    assert "x" in env.vars;
    assert Resolves(env, P.Call(P.This, "f", [])) && Resolves(env, P.Name("x")) && Resolves(env, SUM);
    assert forall n :: StmtResolves(env, Assign("x", P.Integer(n)));
  }

  lemma UnitAccepted()
    ensures Accepted(W)
  {
    hide WellDeclared, CheckUnit, Tabled, UnitResolves;
    UnitDeclared();
    UnitTabled();
    UnitChecked();
    UnitIsResolved();
  }

  // ----- its program -----

  const SIG := A.Signature([], {}, {"this", "x"})
  const CALL := A.Call(A.This, "A", "f", [])
  const SUM_CODE := A.Binary(A.Add, A.Ident("x"), CALL)

  /** The program of the unit. */
  ghost predicate IsProgram(p: A.Program) {
    && p.mainSig == A.Signature([], {}, {"this"})
    && p.mainBody == [A.Print(A.Call(A.NewObject("A"), "A", "g", []))]
    && "A.g" in p.methods && p.methods["A.g"] == A.Method(SIG, [A.Assign("x", A.IntLit(1))], SUM_CODE)
    && "A.f" in p.methods && p.methods["A.f"] == A.Method(SIG, [A.Assign("x", A.IntLit(2))], A.IntLit(0))
    && ClassFields(Source.FieldTable(p), "A") == {"x"}
  }

  lemma MainTyped()
    ensures TypedUnit(CLASSES, UNIT).mainBody == [A.Print(A.Call(A.NewObject("A"), "A", "g", []))]
  {
    var env := EnvOf(CLASSES, "M", map[], map["this" := "M"]);
    var t: TreeStmt := Print(SHOWN);
    assert TypedArgs(env, []) == [];
    assert Typed(env, SHOWN) == A.Call(A.NewObject("A"), "A", "g", []);
    assert TypedStmt(env, t) == A.Print(A.Call(A.NewObject("A"), "A", "g", []));
    assert [t][1..] == [] && TypedStmts(env, []) == [];
  }

  lemma AssignTyped(env: Env, n: string)
    ensures TypedStmts(env, [Assign("x", P.Integer(n))]) == [A.Assign("x", A.IntLit(NumberOf(n)))]
  {
    var t: TreeStmt := Assign("x", P.Integer(n));
    assert [t][1..] == [] && TypedStmts(env, []) == [];
  }

  lemma MethodsTyped()
    ensures TypedMethod(CLASSES, SUMMER) == A.Method(SIG, [A.Assign("x", A.IntLit(1))], SUM_CODE)
    ensures TypedMethod(CLASSES, SETTER) == A.Method(SIG, [A.Assign("x", A.IntLit(2))], A.IntLit(0))
  {
    var env := EnvOf(CLASSES, "A", map[], FIELDS);
    Digits();
    AssignTyped(env, "1");
    AssignTyped(env, "2");
    assert TypedArgs(env, []) == [] && CheckExpr(env, P.This) == Checked("A", 0);
    assert Typed(env, SUM) == SUM_CODE;
    assert FIELDS.Keys == {"this", "x"};
  }

  lemma ProgramIs()
    ensures IsProgram(TypedUnit(CLASSES, UNIT))
  {
    hide TypedStmts, TypedMethod, Accepted, RootOf, TypedMethods, WellDeclared, ClassFields, Source.FieldTable, Roots;
    MainTyped();
    MethodsTyped();
    UnitAccepted();
    RootsDiffer();
    assert WellDeclared(CLASSES, UNIT) by { UnitDeclared(); }
    MethodsByRoot(W);
    assert SUMMER in UNIT.methods && SETTER in UNIT.methods;
    var k := PlaceOf(SUMMER);
    assert InUnit(W.u, k);
    FieldsOfClass(W, k);
    assert FIELDS.Keys - {"this"} == {"x"};
  }

  // ----- what it prints -----

  function Object(n: int): Store {
    Store([Obj("A", map["x" := n])], [], [])
  }

  const HERE := Frame(map[], {"this", "x"}, 1)

  lemma Entered(n: int)
    ensures Enter(SIG, 1, [], Object(n)) == Ok((HERE, [], Object(n)))
  {
    assert FreshFrame(SIG).locals == map[];
  }

  lemma FieldWritten(m: int, n: int)
    ensures SetVar("x", n, HERE, Object(m)) == Ok((HERE, Object(n)))
    ensures GetVar("x", HERE, Object(m)) == Ok(m) && GetVar("this", HERE, Object(m)) == Ok(1)
  {
    assert map["x" := m]["x" := n] == map["x" := n];
    assert [Obj("A", map["x" := m])][0 := Obj("A", map["x" := n])] == [Obj("A", map["x" := n])];
  }

  lemma Assigned(p: A.Program, fuel: nat, m: int, n: int)
    ensures Source.ExecAll(p, fuel, [A.Assign("x", A.IntLit(n))], HERE, Object(m)) == Source.Done(HERE, Object(n))
    ensures EagerAll(p, fuel, [A.Assign("x", A.IntLit(n))], HERE, Object(m)) == Source.Done(HERE, Object(n))
  {
    FieldWritten(m, n);
    var t := A.Assign("x", A.IntLit(n));
    assert Source.Exec(p, fuel, t, HERE, Object(m)) == Source.Done(HERE, Object(n));
    assert EagerExec(p, fuel, t, HERE, Object(m)) == Source.Done(HERE, Object(n));
    assert [t][1..] == [];
    assert Source.ExecAll(p, fuel, [], HERE, Object(n)) == Source.Done(HERE, Object(n));
    assert EagerAll(p, fuel, [], HERE, Object(n)) == Source.Done(HERE, Object(n));
  }

  /** The call sets the field to 2 and returns 0, on either reading. */
  lemma SetterRuns(p: A.Program, fuel: nat, m: int)
    requires IsProgram(p)
    ensures Source.CallMethod(p, fuel, "A.f", 1, [], Object(m)) == Source.Done(0, Object(2))
    ensures EagerCall(p, fuel, "A.f", 1, [], Object(m)) == Source.Done(0, Object(2))
  {
    hide Enter, Source.ExecAll, EagerAll;
    Entered(m);
    Assigned(p, fuel, m, 2);
  }

  lemma SumLate(p: A.Program, fuel: nat)
    requires IsProgram(p) && fuel > 0
    ensures Source.Eval(p, fuel, SUM_CODE, HERE, Object(1)) == Source.Done(Source.Now(2), Object(2))
  {
    hide Source.CallMethod, GetVar;
    SetterRuns(p, fuel - 1, 1);
    FieldWritten(1, 2);
    FieldWritten(2, 2);
    assert RootName("A", "f") == "A.f";
    assert Source.Eval(p, fuel, A.Ident("x"), HERE, Object(1)) == Source.Done(Source.Later("x"), Object(1));
    assert Source.Eval(p, fuel, A.This, HERE, Object(1)) == Source.Done(Source.Later("this"), Object(1));
    assert Source.EvalArgs(p, fuel, [], HERE, Object(1)) == Source.Done([], Object(1));
    assert Source.Eval(p, fuel, CALL, HERE, Object(1)) == Source.Done(Source.Now(0), Object(2));
  }

  lemma SumEager(p: A.Program, fuel: nat)
    requires IsProgram(p) && fuel > 0
    ensures Eager(p, fuel, SUM_CODE, HERE, Object(1)) == Source.Done(1, Object(2))
  {
    hide EagerCall, GetVar;
    SetterRuns(p, fuel - 1, 1);
    FieldWritten(1, 2);
    assert RootName("A", "f") == "A.f";
    assert Eager(p, fuel, A.Ident("x"), HERE, Object(1)) == Source.Done(1, Object(1));
    assert Eager(p, fuel, A.This, HERE, Object(1)) == Source.Done(1, Object(1));
    assert EagerArgs(p, fuel, [], HERE, Object(1)) == Source.Done([], Object(1));
    assert Eager(p, fuel, CALL, HERE, Object(1)) == Source.Done(0, Object(2));
  }

  lemma SummerRuns(p: A.Program, fuel: nat)
    requires IsProgram(p) && fuel > 0
    ensures Source.CallMethod(p, fuel, "A.g", 1, [], Object(0)) == Source.Done(2, Object(2))
    ensures EagerCall(p, fuel, "A.g", 1, [], Object(0)) == Source.Done(1, Object(2))
  {
    hide Enter, Source.ExecAll, EagerAll, Source.Eval, Eager;
    Entered(0);
    Assigned(p, fuel, 0, 1);
    SumLate(p, fuel);
    SumEager(p, fuel);
  }

  lemma OneField(names: set<string>)
    requires names == {"x"}
    ensures (map f | f in names :: 0) == map["x" := 0]
  {
  }

  lemma Allocated(p: A.Program)
    requires IsProgram(p)
    ensures AllocObject(Source.FieldTable(p), "A", Source.EMPTY_STORE) == (1, Object(0))
  {
    hide ClassFields, Source.FieldTable;
    OneField(ClassFields(Source.FieldTable(p), "A"));
    assert [] + [Obj("A", map["x" := 0])] == [Obj("A", map["x" := 0])];
  }

  lemma ProgramPrints(p: A.Program)
    requires IsProgram(p)
    ensures Source.Run(p, 2).Done? && Source.Run(p, 2).store.out == [2]
    ensures EagerRun(p, 2).Done? && EagerRun(p, 2).store.out == [1]
  {
    hide Source.CallMethod, EagerCall, AllocObject, Source.FieldTable, GetVar;
    var fr, s, call := FreshFrame(p.mainSig), Source.EMPTY_STORE, A.Call(A.NewObject("A"), "A", "g", []);
    Allocated(p);
    SummerRuns(p, 1);
    assert RootName("A", "g") == "A.g";
    assert Source.Eval(p, 2, A.NewObject("A"), fr, s) == Source.Done(Source.Now(1), Object(0));
    assert Source.EvalArgs(p, 2, [], fr, Object(0)) == Source.Done([], Object(0));
    assert Source.Eval(p, 2, call, fr, s) == Source.Done(Source.Now(2), Object(2));
    assert Eager(p, 2, A.NewObject("A"), fr, s) == Source.Done(1, Object(0));
    assert EagerArgs(p, 2, [], fr, Object(0)) == Source.Done([], Object(0));
    assert Eager(p, 2, call, fr, s) == Source.Done(1, Object(2));
    hide Source.Eval, Eager;
    var t := A.Print(call);
    var late, eager := Object(2).(out := [] + [2]), Object(2).(out := [] + [1]);
    assert Source.Exec(p, 2, t, fr, s) == Source.Done(fr, late);
    assert EagerExec(p, 2, t, fr, s) == Source.Done(fr, eager);
    assert [t][1..] == [];
    assert Source.ExecAll(p, 2, [], fr, late) == Source.Done(fr, late) && EagerAll(p, 2, [], fr, eager) == Source.Done(fr, eager);
  }

  /** Accepted, with every identifier a variable: compiled it prints 2, where the language asks for 1. A field stands unread
      to the left of a call. */
  lemma LateIsNotEager()
    ensures var p := TypedUnit(CLASSES, UNIT);
            && Accepted(W) && !OrderlyProgram(p)
            && UnitRun(Late, W, 2).Done? && UnitRun(Late, W, 2).store.out == [2]
            && UnitRun(AtOnce, W, 2).Done? && UnitRun(AtOnce, W, 2).store.out == [1]
  {
    hide TypedUnit, IsProgram, OrderlyProgram, Source.Run, EagerRun, UnitRun, WellDeclared, CheckUnit, Tabled, UnitResolves;
    UnitAccepted();
    CompiledMeaning(Late, W, 2);
    CompiledMeaning(AtOnce, W, 2);
    ProgramIs();
    ProgramPrints(TypedUnit(CLASSES, UNIT));
    SumOutOfOrder(TypedUnit(CLASSES, UNIT));
  }

  lemma SumOutOfOrder(p: A.Program)
    requires IsProgram(p)
    ensures !OrderlyProgram(p)
  {
    assert !Orderly({}, SUM_CODE);
    assert !OrderlyMethod(p.methods["A.g"]);
  }
}

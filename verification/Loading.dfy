/** The program the VM holds for an emitted one, and its link with the three-address code. */
module Loading {
  import opened Tac
  import opened Ast
  import opened Machine
  import opened Bytecode
  import opened FlowGraph
  import opened WellFormed
  import opened Reachability
  import opened Emission
  import opened PassesCorrect
  import opened LoweringSteps
  import opened Lowering
  import I = IrMachine
  import Vm

  function LoadMethod(m: MethodCode): Vm.Loaded {
    Vm.Loaded(Elements(m.variables), Elements(m.fields), AsMap(m.blocks))
  }

  /** Methods by name, the first of a name counting. */
  function LoadMethods(ms: seq<MethodCode>): map<string, Vm.Loaded> {
    if ms == [] then map[]
    else
      var before, m := LoadMethods(ms[..|ms| - 1]), ms[|ms| - 1];
      if m.name in before then before else before[m.name := LoadMethod(m)]
  }

  /** Main comes first. */
  function LoadProgram(ms: seq<MethodCode>): Vm.Program
    requires ms != []
  {
    Vm.Program(ms[0].name, LoadMethod(ms[0]), LoadMethods(ms[1..]))
  }

  lemma {:induction false} LoadMethodsDistinct(ms: seq<MethodCode>)
    requires forall i, j :: 0 <= i < j < |ms| ==> ms[i].name != ms[j].name
    ensures forall i :: 0 <= i < |ms| ==> ms[i].name in LoadMethods(ms) && LoadMethods(ms)[ms[i].name] == LoadMethod(ms[i])
    ensures forall r :: r in LoadMethods(ms) ==> exists i :: 0 <= i < |ms| && ms[i].name == r
  {
    if ms != [] {
      var n := |ms| - 1;
      LoadMethodsDistinct(ms[..n]);
      assert forall i :: 0 <= i < n ==> ms[..n][i] == ms[i];
      forall r | r in LoadMethods(ms[..n])
        ensures r != ms[n].name
      {
        var i :| 0 <= i < n && ms[..n][i].name == r;
        assert ms[i].name != ms[n].name;
      }
      forall r | r in LoadMethods(ms)
        ensures exists i :: 0 <= i < |ms| && ms[i].name == r
      {
        if r in LoadMethods(ms[..n]) {
          var i :| 0 <= i < n && ms[..n][i].name == r;
          assert ms[i].name == r;
        } else {
          assert ms[n].name == r;
        }
      }
    }
  }

  /** The symbol table lists each method as its signature has it, temporaries included. */
  ghost predicate ScopesFit(ir: I.Ir, roots: seq<string>, scopes: map<string, Scope>) {
    forall r {:trigger scopes[r]} {:trigger r in roots} :: r in roots ==>
      && r in scopes
      && var sig := if r in ir.sigs then ir.sigs[r] else ir.mainSig;
         && scopes[r].params == sig.params && Elements(scopes[r].variables) == sig.locals && Elements(scopes[r].fields) == sig.fields
  }

  ghost predicate RootsOf(ir: I.Ir, roots: seq<string>) {
    && roots != [] && roots[0] == ir.main && Distinct(roots)
    && (forall r {:trigger r in roots} :: r in roots <==> r == ir.main || r in ir.sigs)
    && ir.main !in ir.sigs && ir.mainSig.params == []
  }

  lemma EmittedNames(ms: seq<MethodCode>, blocks: Blocks, roots: seq<string>, scopes: map<string, Scope>)
    requires Emitted(ms, blocks, roots, scopes)
    ensures forall i :: 0 <= i < |ms| ==> ms[i].name == roots[i]
  {
    hide AsMap, Reach, ExpectedCode;
  }

  lemma LoadedNames(ir: I.Ir, ms: seq<MethodCode>, blocks: Blocks, roots: seq<string>, scopes: map<string, Scope>)
    requires RootsOf(ir, roots) && Emitted(ms, blocks, roots, scopes)
    ensures LoadProgram(ms).mainName == ir.main && LoadProgram(ms).methods.Keys == ir.sigs.Keys
    ensures LoadProgram(ms).main == LoadMethod(ms[0])
    ensures forall i :: 1 <= i < |ms| ==> roots[i] in LoadProgram(ms).methods && LoadProgram(ms).methods[roots[i]] == LoadMethod(ms[i])
  {
    hide EmittedMethod, LoadMethod, LoadMethods;
    EmittedNames(ms, blocks, roots, scopes);
    var rest := ms[1..];
    LoadMethodsDistinct(rest);
    forall i | 1 <= i < |ms|
      ensures roots[i] in LoadMethods(rest) && LoadMethods(rest)[roots[i]] == LoadMethod(ms[i])
    {
      assert rest[i - 1] == ms[i];
    }
    forall r | r in ir.sigs
      ensures r in LoadMethods(rest)
    {
      assert r in roots;
      var i :| 0 <= i < |roots| && roots[i] == r;
    }
    forall r | r in LoadMethods(rest)
      ensures r in ir.sigs
    {
      var i :| 0 <= i < |rest| && rest[i].name == r;
      assert rest[i] == ms[i + 1] && roots[i + 1] in roots;
    }
  }

  lemma MethodLoaded(k: Link, ms: seq<MethodCode>, scopes: map<string, Scope>, i: nat)
    requires RootsOf(k.ir, k.roots) && Emitted(ms, k.blocks, k.roots, scopes) && ScopesFit(k.ir, k.roots, scopes)
    requires i < |ms| && k.vm == LoadProgram(ms)
    ensures MethodOf(k, k.roots[i]) == LoadMethod(ms[i]) && LoadedAs(k, k.roots[i])
  {
    hide AsMap, Reach, LoadMethods, Prologue, LowerAll, Exits;
    LoadedNames(k.ir, ms, k.blocks, k.roots, scopes);
    var r := k.roots[i];
    assert r in k.roots;
    assert EmittedMethod(ms[i], k.blocks, i == 0, r, scopes[r]);
    assert (i == 0) == (r == k.ir.main);
    forall l | l in Reach(k.blocks, r)
      ensures l in k.blocks && AsMap(ms[i].blocks)[l] == CodeFor(k, r, l)
    {
      assert AsMap(ms[i].blocks)[l] == ExpectedCode(k.blocks, i == 0, r, scopes[r].params, l);
    }
  }

  lemma SameFields(k: Link, className: string)
    requires k.ir.main !in k.ir.sigs && k.vm.mainName == k.ir.main && k.vm.methods.Keys == k.ir.sigs.Keys
    requires k.vm.main.fields == k.ir.mainSig.fields
    requires forall r :: r in k.ir.sigs ==> k.vm.methods[r].fields == k.ir.sigs[r].fields
    ensures ClassFields(I.FieldTable(k.ir), className) == set f | f in Vm.ClassFieldNames(k.vm, className) && f != "this"
  {
    hide ClassOf;
    var ft := I.FieldTable(k.ir);
    forall f | f in ClassFields(ft, className)
      ensures f in Vm.ClassFieldNames(k.vm, className)
    {
      var m :| m in ft && f in ft[m] && ClassOf(m) == className && f != "this";
      if m != k.ir.main { assert m in k.vm.methods && f in k.vm.methods[m].fields; }
    }
    forall f | f in Vm.ClassFieldNames(k.vm, className) && f != "this"
      ensures f in ClassFields(ft, className)
    {
      if ClassOf(k.vm.mainName) == className && f in k.vm.main.fields {
        assert k.ir.main in ft && f in ft[k.ir.main];
      } else {
        var m :| m in k.vm.methods && f in k.vm.methods[m].fields && ClassOf(m) == className;
        assert m in ft && f in ft[m];
      }
    }
  }

  /** New objects have the same fields on both machines. */
  lemma AllocationLoaded(k: Link)
    requires k.ir.main !in k.ir.sigs && k.vm.mainName == k.ir.main && k.vm.methods.Keys == k.ir.sigs.Keys
    requires k.vm.main.fields == k.ir.mainSig.fields
    requires forall r :: r in k.ir.sigs ==> k.vm.methods[r].fields == k.ir.sigs[r].fields
    ensures SameAllocation(k.vm, I.FieldTable(k.ir))
  {
    hide ClassFields, Vm.ClassFieldNames, I.FieldTable;
    forall c, s
      ensures Vm.Allocate(k.vm, c, s) == AllocObject(I.FieldTable(k.ir), c, s)
    {
      SameFields(k, c);
      SameZeros(Vm.ClassFieldNames(k.vm, c), ClassFields(I.FieldTable(k.ir), c));
    }
  }

  lemma SameZeros(names: set<string>, fields: set<string>)
    requires fields == set f | f in names && f != "this"
    ensures (map f | f in names && f != "this" :: 0) == (map f | f in fields :: 0)
  {
  }

  /** Loading what was emitted links the three-address code with the VM. */
  lemma EmittedLinked(k: Link, ms: seq<MethodCode>, scopes: map<string, Scope>)
    requires Tidy(k.blocks, k.roots, k.owner) && k.ir.code == Code(k.blocks)
    requires RootsOf(k.ir, k.roots) && Emitted(ms, k.blocks, k.roots, scopes) && ScopesFit(k.ir, k.roots, scopes)
    requires k.vm == LoadProgram(ms)
    ensures Linked(k)
  {
    hide EmittedMethod, LoadMethod, LoadMethods, LoadedAs, Tidy, I.FieldTable, SameAllocation;
    LoadedNames(k.ir, ms, k.blocks, k.roots, scopes);
    forall r | r in k.roots
      ensures LoadedAs(k, r)
    {
      var i :| 0 <= i < |k.roots| && k.roots[i] == r;
      MethodLoaded(k, ms, scopes, i);
    }
    assert k.ir.main in k.roots;
    FieldsLoaded(k);
    AllocationLoaded(k);
  }

  lemma FieldsLoaded(k: Link)
    requires RootsOf(k.ir, k.roots) && k.vm.methods.Keys == k.ir.sigs.Keys && forall r :: r in k.roots ==> LoadedAs(k, r)
    ensures k.vm.main.fields == k.ir.mainSig.fields
    ensures forall r :: r in k.ir.sigs ==> k.vm.methods[r].fields == k.ir.sigs[r].fields
  {
    hide Reach, CodeFor;
    assert k.ir.main in k.roots;
    assert LoadedAs(k, k.ir.main);
    forall r | r in k.ir.sigs
      ensures k.vm.methods[r].fields == k.ir.sigs[r].fields
    {
      assert r in k.roots;
      assert LoadedAs(k, r);
    }
  }
}

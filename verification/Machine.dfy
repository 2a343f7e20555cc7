/** Memory and primitive operations shared by the source language, three-address code and the VM
    (src/vm/vm.cpp:201-302). Integers are unbounded; a thrown exception is a Fault. */
module Machine {
  import opened Ast

  datatype Fault =
    | DivideByZero | BadReference | IndexOutOfBounds | NegativeLength
    | NoSuchVariable | ThisUnset | NoSuchField
    | NoSuchBlock | PastEnd | EmptyStack | EmptyActivations | NoSuchMethod

  /** Faults of the machine itself, which no program may cause; the others are run-time errors. */
  predicate Stuck(f: Fault) {
    f.NoSuchBlock? || f.PastEnd? || f.EmptyStack? || f.EmptyActivations? || f.NoSuchMethod?
  }

  datatype Res<+T> = Ok(v: T) | Err(f: Fault) {
    predicate IsFailure() { Err? }
    function PropagateFailure<U>(): Res<U> requires Err? { Err(f) }
    function Extract(): T requires Ok? { v }
  }

  datatype Obj = Obj(className: string, fields: map<string, int>)

  datatype Store = Store(objects: seq<Obj>, arrays: seq<seq<int>>, out: seq<int>)

  /** The variables of one activation; self is the this-reference, 0 when unset. */
  datatype Frame = Frame(locals: map<string, int>, fields: set<string>, self: int)

  function Abs(a: int): nat {
    if a < 0 then -a else a
  }

  /** C++ integer division: the quotient is truncated toward zero. */
  function TruncDiv(a: int, b: int): int
    requires b != 0
  {
    var q := Abs(a) / Abs(b);
    if (a < 0) == (b < 0) then q else -q
  }

  function OfBool(b: bool): int {
    if b then 1 else 0
  }

  function Apply(op: BinaryOp, x: int, y: int): Res<int> {
    match op
    case Add => Ok(x + y)
    case Subtract => Ok(x - y)
    case Multiply => Ok(x * y)
    case Divide => if y == 0 then Err(DivideByZero) else Ok(TruncDiv(x, y))
    case LessThan => Ok(OfBool(x < y))
    case GreaterThan => Ok(OfBool(x > y))
    case EqualTo => Ok(OfBool(x == y))
  }

  function ObjectAt(ref: int, s: Store): Res<Obj> {
    if 0 < ref <= |s.objects| then Ok(s.objects[ref - 1]) else Err(BadReference)
  }

  function ArrayAt(ref: int, s: Store): Res<seq<int>> {
    if 0 < ref <= |s.arrays| then Ok(s.arrays[ref - 1]) else Err(BadReference)
  }

  function GetVar(x: string, fr: Frame, s: Store): Res<int> {
    if x in fr.locals then Ok(fr.locals[x])
    else if x !in fr.fields then Err(NoSuchVariable)
    else if x == "this" then Ok(fr.self)
    else if fr.self == 0 then Err(ThisUnset)
    else
      var o :- ObjectAt(fr.self, s);
      if x in o.fields then Ok(o.fields[x]) else Err(NoSuchField)
  }

  function SetVar(x: string, v: int, fr: Frame, s: Store): Res<(Frame, Store)> {
    if x in fr.locals then Ok((fr.(locals := fr.locals[x := v]), s))
    else if x !in fr.fields then Err(NoSuchVariable)
    else if x == "this" then Ok((fr.(self := v), s))
    else if fr.self == 0 then Err(ThisUnset)
    else
      var o :- ObjectAt(fr.self, s);
      Ok((fr, s.(objects := s.objects[fr.self - 1 := o.(fields := o.fields[x := v])])))
  }

  /** The part of a method's name before the dot. */
  function ClassOf(methodName: string): string {
    if methodName == "" || methodName[0] == '.' then "" else [methodName[0]] + ClassOf(methodName[1..])
  }

  /** Field names per class: the fields of every method of the class, `this` excepted. */
  function ClassFields(fieldTable: map<string, set<string>>, className: string): set<string> {
    set m, f | m in fieldTable && f in fieldTable[m] && ClassOf(m) == className && f != "this" :: f
  }

  /** A new object; its reference is the number of objects allocated so far, this one included. */
  function AllocObject(fieldTable: map<string, set<string>>, className: string, s: Store): (int, Store) {
    var o := Obj(className, map f | f in ClassFields(fieldTable, className) :: 0);
    (|s.objects| + 1, s.(objects := s.objects + [o]))
  }

  function AllocArray(length: int, s: Store): Res<(int, Store)> {
    if length < 0 then Err(NegativeLength)
    else Ok((|s.arrays| + 1, s.(arrays := s.arrays + [seq(length, i => 0)])))
  }

  function LoadElement(ref: int, index: int, s: Store): Res<int> {
    var a :- ArrayAt(ref, s);
    if 0 <= index < |a| then Ok(a[index]) else Err(IndexOutOfBounds)
  }

  function StoreElement(ref: int, index: int, v: int, s: Store): Res<Store> {
    var a :- ArrayAt(ref, s);
    if 0 <= index < |a| then Ok(s.(arrays := s.arrays[ref - 1 := a[index := v]])) else Err(IndexOutOfBounds)
  }

  function FreshFrame(sig: Signature): Frame {
    Frame(map x | x in sig.locals :: 0, sig.fields, 0)
  }

  /** The parameter prologue: the last parameter is popped first. Yields the frame, what is left on the
      stack, and the store. */
  function BindParams(params: seq<string>, stack: seq<int>, fr: Frame, s: Store): Res<(Frame, seq<int>, Store)>
    decreases |params|
  {
    if params == [] then Ok((fr, stack, s))
    else if stack == [] then Err(EmptyStack)
    else
      var n, d := |params| - 1, |stack| - 1;
      var (fr1, s1) :- SetVar(params[n], stack[d], fr, s);
      BindParams(params[..n], stack[..d], fr1, s1)
  }

  /** Entry to a method whose receiver has just been popped. */
  function Enter(sig: Signature, receiver: int, stack: seq<int>, s: Store): Res<(Frame, seq<int>, Store)> {
    var (fr, s1) :- SetVar("this", receiver, FreshFrame(sig), s);
    BindParams(sig.params, stack, fr, s1)
  }

  // ----- laws of the primitives -----

  lemma DivModNat(d: nat, m: nat)
    requires m != 0
    ensures d == (d / m) * m + d % m && d % m < m
  {
  }

  lemma SignedProduct(q: int, m: int)
    ensures (-q) * m == -(q * m) && q * (-m) == -(q * m) && (-q) * (-m) == q * m
  {
  }

  lemma RemainderSign(a: int, b: int, q: int, r: int, t: int)
    requires b != 0 && Abs(a) == q * Abs(b) + r && 0 <= r < Abs(b)
    requires t == if (a < 0) == (b < 0) then q else -q
    ensures a - t * b == if a < 0 then -r else r
  {
    SignedProduct(q, Abs(b));
  }

  function Remainder(a: int, b: int, t: int): int {
    a - t * b
  }

  /** Truncating division is the one quotient whose remainder is smaller than the divisor and takes the
      sign of the dividend. */
  lemma TruncDivRemainder(a: int, b: int)
    requires b != 0
    ensures var r := Remainder(a, b, TruncDiv(a, b));
            Abs(r) < Abs(b) && (r > 0 ==> a > 0) && (r < 0 ==> a < 0)
  {
    var d, m, t := Abs(a), Abs(b), TruncDiv(a, b);
    var q, r := d / m, d % m;
    DivModNat(d, m);
    RemainderSign(a, b, q, r, t);
    assert Remainder(a, b, t) == r || Remainder(a, b, t) + r == 0;
  }

  // The heap: what is written is what is read afterwards, and nothing else changes.

  /** An element can be read exactly inside an array that has been allocated. */
  lemma LoadExactly(ref: int, i: int, s: Store)
    ensures ArrayAt(ref, s).Err? <==> ref <= 0 || ref > |s.arrays|
    ensures ArrayAt(ref, s).Err? ==> ArrayAt(ref, s).f == BadReference && LoadElement(ref, i, s) == Err(BadReference)
    ensures ArrayAt(ref, s).Ok? ==> LoadElement(ref, i, s) == if i < 0 || i >= |ArrayAt(ref, s).v| then Err(IndexOutOfBounds) else Ok(ArrayAt(ref, s).v[i])
    ensures ArrayAt(ref, s).Ok? ==> ArrayAt(ref, s).v == s.arrays[ref - 1]
  {
  }

  /** A write succeeds exactly where a read does, and fails with the same fault. The element is read back from its place;
      every other element of every array reads as before, and lengths, objects and output stay. */
  lemma StoreThenLoad(ref: int, i: int, v: int, s: Store, ref': int, j: int)
    ensures StoreElement(ref, i, v, s).Ok? <==> LoadElement(ref, i, s).Ok?
    ensures StoreElement(ref, i, v, s).Err? ==> LoadElement(ref, i, s) == Err(StoreElement(ref, i, v, s).f)
    ensures StoreElement(ref, i, v, s).Ok? ==>
              var s' := StoreElement(ref, i, v, s).v;
              && LoadElement(ref', j, s') == (if ref' == ref && j == i then Ok(v) else LoadElement(ref', j, s))
              && ArrayAt(ref', s').Ok? == ArrayAt(ref', s).Ok? && (ArrayAt(ref', s).Ok? ==> |ArrayAt(ref', s').v| == |ArrayAt(ref', s).v|)
              && |s'.arrays| == |s.arrays| && s'.objects == s.objects && s'.out == s.out
  {
  }

  /** A new array has a reference that was not valid before, and not null; it has the length asked for and reads 0
      everywhere. The other arrays, the objects and the output stay. */
  lemma AllocThenLoad(n: int, s: Store, ref': int, j: int)
    ensures AllocArray(n, s) == Err(NegativeLength) <==> n < 0
    ensures n >= 0 ==> AllocArray(n, s).Ok?
    ensures n >= 0 ==>
              var (ref, s') := AllocArray(n, s).v;
              && ref > 0 && ArrayAt(ref, s).Err? && ArrayAt(ref, s').Ok? && |ArrayAt(ref, s').v| == n
              && LoadElement(ref', j, s') == (if ref' != ref then LoadElement(ref', j, s) else if 0 <= j < n then Ok(0) else Err(IndexOutOfBounds))
              && (ref' != ref ==> ArrayAt(ref', s') == ArrayAt(ref', s))
              && |s'.arrays| == |s.arrays| + 1 && s'.objects == s.objects && s'.out == s.out
  {
  }

  /** Assigning to a field changes that field of the current object and nothing else in the store; assigning to a local
      changes nothing in the store. */
  lemma FieldWrite(x: string, v: int, fr: Frame, s: Store, r: nat, y: string)
    requires SetVar(x, v, fr, s).Ok? && r < |s.objects|
    ensures var (fr', s') := SetVar(x, v, fr, s).v;
            && s'.arrays == s.arrays && s'.out == s.out && |s'.objects| == |s.objects|
            && s'.objects[r].className == s.objects[r].className && fr'.fields == fr.fields && fr'.locals.Keys == fr.locals.Keys
            && (x in fr.locals || x == "this" ==> s' == s)
            && (x !in fr.locals && x != "this" ==>
                  && fr' == fr && 0 < fr.self <= |s.objects|
                  && (r == fr.self - 1 ==> x in s'.objects[r].fields && s'.objects[r].fields[x] == v)
                  && (r != fr.self - 1 || y != x ==>
                        (y in s'.objects[r].fields <==> y in s.objects[r].fields)
                        && (y in s.objects[r].fields ==> s'.objects[r].fields[y] == s.objects[r].fields[y])))
  {
  }

  /** A new object has a reference that was not valid before, its class and, each 0, the fields of that class; nothing
      else changes. */
  lemma AllocThenFields(ft: map<string, set<string>>, c: string, s: Store, r: nat)
    ensures var (ref, s') := AllocObject(ft, c, s);
            && ref > 0 && ObjectAt(ref, s) == Err(BadReference) && ObjectAt(ref, s').Ok? && ObjectAt(ref, s').v.className == c
            && ObjectAt(ref, s').v.fields.Keys == ClassFields(ft, c)
            && (forall x :: x in ClassFields(ft, c) ==> ObjectAt(ref, s').v.fields[x] == 0)
            && (r != ref ==> ObjectAt(r, s') == ObjectAt(r, s)) && s'.arrays == s.arrays && s'.out == s.out
  {
    hide ClassFields;
  }

  /** A local hides a field of its name, `this` is the receiver, and any other field is the current object's. What is
      missing decides the fault: the variable, the receiver, its object or the field in it. */
  lemma GetExactly(x: string, fr: Frame, s: Store)
    ensures var field := x !in fr.locals && x in fr.fields && x != "this";
            var there := 0 < fr.self <= |s.objects|;
            && (x in fr.locals ==> GetVar(x, fr, s) == Ok(fr.locals[x]))
            && (x !in fr.locals && x in fr.fields && x == "this" ==> GetVar(x, fr, s) == Ok(fr.self))
            && (field && there && x in s.objects[fr.self - 1].fields ==> GetVar(x, fr, s) == Ok(s.objects[fr.self - 1].fields[x]))
            && (GetVar(x, fr, s) == Err(NoSuchVariable) <==> x !in fr.locals && x !in fr.fields)
            && (GetVar(x, fr, s) == Err(ThisUnset) <==> field && fr.self == 0)
            && (GetVar(x, fr, s) == Err(BadReference) <==> field && fr.self != 0 && !there)
            && (GetVar(x, fr, s) == Err(NoSuchField) <==> field && there && x !in s.objects[fr.self - 1].fields)
  {
  }

  /** A write fails as a read does, except that a field may be missing. */
  lemma SetExactly(x: string, v: int, fr: Frame, s: Store)
    ensures SetVar(x, v, fr, s).Err? <==> GetVar(x, fr, s).Err? && GetVar(x, fr, s).f != NoSuchField
    ensures SetVar(x, v, fr, s).Err? ==> GetVar(x, fr, s) == Err(SetVar(x, v, fr, s).f)
  {
  }

  /** A write is seen by the next read of the same name and by no read of another, `this` excepted. */
  lemma SetVarThenGet(x: string, v: int, y: string, fr: Frame, s: Store)
    requires SetVar(x, v, fr, s).Ok?
    ensures var (fr', s') := SetVar(x, v, fr, s).v;
            GetVar(x, fr', s') == Ok(v) && (y != x && x != "this" ==> GetVar(y, fr', s') == GetVar(y, fr, s))
  {
  }

  /** r with the given values left on the stack. */
  function Leaving(below: seq<int>, r: Res<(Frame, seq<int>, Store)>): Res<(Frame, seq<int>, Store)> {
    match r
    case Ok((fr, _, s)) => Ok((fr, below, s))
    case Err(f) => Err(f)
  }

  /** A call leaves on the stack what was below its arguments, and binds the rest to its parameters. */
  lemma {:induction false} BindParamsFrame(params: seq<string>, below: seq<int>, args: seq<int>, fr: Frame, s: Store)
    requires |params| == |args|
    ensures BindParams(params, below + args, fr, s) == Leaving(below, BindParams(params, args, fr, s))
    ensures BindParams(params, args, fr, s).Ok? ==> BindParams(params, args, fr, s).v.1 == []
    decreases |params|
  {
    var stack := below + args;
    if params == [] {
      assert stack == below;
    } else {
      var n, d := |params| - 1, |stack| - 1;
      assert stack[d] == args[n] && stack[..d] == below + args[..n];
      var r := SetVar(params[n], args[n], fr, s);
      if r.Ok? {
        BindParamsFrame(params[..n], below, args[..n], r.v.0, r.v.1);
      }
    }
  }

  predicate Distinct<T(==)>(xs: seq<T>) {
    forall i, j :: 0 <= i < j < |xs| ==> xs[i] != xs[j]
  }

  lemma BindLast(params: seq<string>, args: seq<int>, fr: Frame, s: Store)
    requires params != [] && |params| == |args| && params[|params| - 1] in fr.locals
    ensures var n := |params| - 1;
            BindParams(params, args, fr, s) == BindParams(params[..n], args[..n], fr.(locals := fr.locals[params[n] := args[n]]), s)
  {
  }

  lemma {:induction false} BindParamsLocals(params: seq<string>, args: seq<int>, fr: Frame, s: Store)
    requires |params| == |args| && Distinct(params)
    requires forall p :: p in params ==> p in fr.locals
    ensures var r := BindParams(params, args, fr, s);
            && r.Ok? && r.v.2 == s && r.v.1 == []
            && r.v.0.self == fr.self && r.v.0.fields == fr.fields && r.v.0.locals.Keys == fr.locals.Keys
            && (forall i :: 0 <= i < |params| ==> r.v.0.locals[params[i]] == args[i])
            && forall x :: x in fr.locals && x !in params ==> r.v.0.locals[x] == fr.locals[x]
    decreases |params|
  {
    if params != [] {
      var n := |params| - 1;
      var fr1 := fr.(locals := fr.locals[params[n] := args[n]]);
      BindLast(params, args, fr, s);
      hide BindParams, SetVar;
      assert fr1.locals.Keys == fr.locals.Keys;
      BindParamsLocals(params[..n], args[..n], fr1, s);
      assert params == params[..n] + [params[n]];
      assert params[n] !in params[..n];
    }
  }

  /** Calling convention at entry: argument i is in parameter i, the receiver in `this`, every other local
      is 0, nothing else is consumed and the store is unchanged. */
  lemma EnterBinds(sig: Signature, receiver: int, below: seq<int>, args: seq<int>, s: Store)
    requires |sig.params| == |args| && Distinct(sig.params)
    requires forall p :: p in sig.params ==> p in sig.locals
    requires "this" in sig.fields && "this" !in sig.locals
    ensures var r := Enter(sig, receiver, below + args, s);
            && r.Ok? && r.v.1 == below && r.v.2 == s
            && r.v.0.self == receiver && r.v.0.fields == sig.fields && r.v.0.locals.Keys == sig.locals
            && (forall i :: 0 <= i < |args| ==> r.v.0.locals[sig.params[i]] == args[i])
            && forall x :: x in sig.locals && x !in sig.params ==> r.v.0.locals[x] == 0
  {
    var fr := FreshFrame(sig).(self := receiver);
    assert SetVar("this", receiver, FreshFrame(sig), s) == Ok((fr, s));
    BindParamsFrame(sig.params, below, args, fr, s);
    BindParamsLocals(sig.params, args, fr, s);
  }
}

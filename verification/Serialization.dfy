/** The bytecode file: its writer (src/util/serialize.cpp:6-27, src/bytecode) and its reader
    (src/util/serialize.cpp:29-60, src/vm/vm.cpp:481-548). Sizes are 8 bytes little-endian, constants 8 bytes
    in two's complement, opcodes one byte. */
module Serialization {
  import opened Bytecode
  import opened Emission
  import opened Loading
  import Vm

  type Byte = n: nat | n < 256

  /** A value and the bytes behind it, or an input that is too short or holds no opcode. */
  datatype Read<+T> = Got(value: T, rest: seq<Byte>) | Malformed {
    predicate IsFailure() { Malformed? }
    function PropagateFailure<U>(): Read<U> requires Malformed? { Malformed }
    function Extract(): (T, seq<Byte>) requires Got? { (value, rest) }
  }

  // ----- numbers -----

  function Power256(k: nat): nat {
    if k == 0 then 1 else 256 * Power256(k - 1)
  }

  function LittleEndian(n: nat, k: nat): (bs: seq<Byte>)
    ensures |bs| == k
  {
    if k == 0 then [] else [n % 256] + LittleEndian(n / 256, k - 1)
  }

  function FromLittleEndian(bs: seq<Byte>): nat {
    if bs == [] then 0 else bs[0] + 256 * FromLittleEndian(bs[1..])
  }

  lemma {:induction false} LittleEndianRoundTrip(n: nat, k: nat)
    requires n < Power256(k)
    ensures FromLittleEndian(LittleEndian(n, k)) == n
  {
    if k > 0 { LittleEndianRoundTrip(n / 256, k - 1); }
  }

  const SIZE_LIMIT := 0x1_0000_0000_0000_0000
  const SIGN_LIMIT := 0x8000_0000_0000_0000

  lemma PowerOfEight()
    ensures Power256(8) == SIZE_LIMIT
  {
    assert Power256(4) == 0x1_0000_0000;
    assert Power256(6) == 0x1_0000_0000_0000;
  }

  predicate FitsSize(n: nat) {
    n < SIZE_LIMIT
  }

  predicate FitsInt64(n: int) {
    -SIGN_LIMIT <= n < SIGN_LIMIT
  }

  function WriteInteger(n: nat): seq<Byte> {
    LittleEndian(n, 8)
  }

  function ReadInteger(bs: seq<Byte>): Read<nat> {
    if |bs| < 8 then Malformed else Got(FromLittleEndian(bs[..8]), bs[8..])
  }

  lemma ReadIntegerBack(n: nat, rest: seq<Byte>)
    requires FitsSize(n)
    ensures ReadInteger(WriteInteger(n) + rest) == Got(n, rest)
  {
    PowerOfEight();
    LittleEndianRoundTrip(n, 8);
    var bs := WriteInteger(n) + rest;
    assert bs[..8] == WriteInteger(n) && bs[8..] == rest;
  }

  function WriteSigned(n: int): seq<Byte>
    requires FitsInt64(n)
  {
    WriteInteger(if n < 0 then n + SIZE_LIMIT else n)
  }

  function ReadSigned(bs: seq<Byte>): Read<int> {
    var (n, rest) :- ReadInteger(bs);
    Got(if n >= SIGN_LIMIT then n - SIZE_LIMIT else n, rest)
  }

  /** Every 64-bit constant survives, negative ones included. */
  lemma ReadSignedBack(n: int, rest: seq<Byte>)
    requires FitsInt64(n)
    ensures ReadSigned(WriteSigned(n) + rest) == Got(n, rest)
  {
    hide WriteInteger, ReadInteger;
    ReadIntegerBack(if n < 0 then n + SIZE_LIMIT else n, rest);
  }

  // ----- strings -----

  predicate FitsString(s: string) {
    FitsSize(|s|) && forall i :: 0 <= i < |s| ==> s[i] as int < 256
  }

  function Encode(s: string): (bs: seq<Byte>)
    requires FitsString(s)
    ensures |bs| == |s|
  {
    seq(|s|, i requires 0 <= i < |s| => s[i] as int)
  }

  function Decode(bs: seq<Byte>): string {
    seq(|bs|, i requires 0 <= i < |bs| => bs[i] as char)
  }

  function WriteString(s: string): seq<Byte>
    requires FitsString(s)
  {
    WriteInteger(|s|) + Encode(s)
  }

  function ReadString(bs: seq<Byte>): Read<string> {
    var (n, rest) :- ReadInteger(bs);
    if |rest| < n then Malformed else Got(Decode(rest[..n]), rest[n..])
  }

  lemma ReadStringBack(s: string, rest: seq<Byte>)
    requires FitsString(s)
    ensures ReadString(WriteString(s) + rest) == Got(s, rest)
  {
    hide WriteInteger, ReadInteger;
    assert WriteString(s) + rest == WriteInteger(|s|) + (Encode(s) + rest);
    ReadIntegerBack(|s|, Encode(s) + rest);
    assert (Encode(s) + rest)[..|s|] == Encode(s) && (Encode(s) + rest)[|s|..] == rest;
    assert Decode(Encode(s)) == s;
  }

  predicate FitsStrings(ss: seq<string>) {
    FitsSize(|ss|) && forall s :: s in ss ==> FitsString(s)
  }

  function StringBytes(ss: seq<string>): seq<Byte>
    requires forall s :: s in ss ==> FitsString(s)
  {
    if ss == [] then [] else WriteString(ss[0]) + StringBytes(ss[1..])
  }

  function WriteStrings(ss: seq<string>): seq<Byte>
    requires FitsStrings(ss)
  {
    WriteInteger(|ss|) + StringBytes(ss)
  }

  function StringsFrom(n: nat, bs: seq<Byte>): Read<seq<string>> {
    if n == 0 then Got([], bs)
    else
      var (s, rest) :- ReadString(bs);
      var (ss, rest') :- StringsFrom(n - 1, rest);
      Got([s] + ss, rest')
  }

  function ReadStrings(bs: seq<Byte>): Read<seq<string>> {
    var (n, rest) :- ReadInteger(bs);
    StringsFrom(n, rest)
  }

  lemma {:induction false} StringsBack(ss: seq<string>, rest: seq<Byte>)
    requires forall s :: s in ss ==> FitsString(s)
    ensures StringsFrom(|ss|, StringBytes(ss) + rest) == Got(ss, rest)
  {
    hide WriteString, ReadString, FitsString;
    if ss == [] {
      assert StringBytes(ss) + rest == rest;
    } else {
      assert StringBytes(ss) + rest == WriteString(ss[0]) + (StringBytes(ss[1..]) + rest);
      ReadStringBack(ss[0], StringBytes(ss[1..]) + rest);
      StringsBack(ss[1..], rest);
      assert [ss[0]] + ss[1..] == ss;
    }
  }

  lemma ReadStringsBack(ss: seq<string>, rest: seq<Byte>)
    requires FitsStrings(ss)
    ensures ReadStrings(WriteStrings(ss) + rest) == Got(ss, rest)
  {
    hide WriteInteger, ReadInteger, StringsFrom, StringBytes, FitsString;
    assert WriteStrings(ss) + rest == WriteInteger(|ss|) + (StringBytes(ss) + rest);
    ReadIntegerBack(|ss|, StringBytes(ss) + rest);
    StringsBack(ss, rest);
  }

  // ----- instructions -----

  /** The numbering of src/bytecode/Opcode.hpp. */
  function Opcode(i: Instruction): Byte {
    match i
    case LOAD(_) => 0
    case CONST(_) => 1
    case STORE(_) => 2
    case ADD => 3
    case SUB => 4
    case MUL => 5
    case DIV => 6
    case LT => 7
    case GT => 8
    case EQ => 9
    case AND => 10
    case OR => 11
    case NOT => 12
    case JMP(_) => 13
    case CJMP(_) => 14
    case CALL(_) => 15
    case RET => 16
    case PRINT => 17
    case STOP => 18
    case NEW(_) => 19
    case NEW_ARRAY => 20
    case ARRAY_LOAD => 21
    case ARRAY_STORE => 22
    case ARRAY_LENGTH => 23
  }

  /** The string parameter of the instructions that have one. */
  function Text(i: Instruction): seq<string> {
    match i
    case LOAD(x) => [x]
    case STORE(x) => [x]
    case JMP(l) => [l]
    case CJMP(l) => [l]
    case CALL(m) => [m]
    case NEW(c) => [c]
    case _ => []
  }

  predicate TextFits(i: Instruction) {
    forall s :: s in Text(i) ==> FitsString(s)
  }

  predicate ConstantFits(i: Instruction) {
    i.CONST? ==> FitsInt64(i.n)
  }

  predicate FitsInstruction(i: Instruction) {
    ConstantFits(i) && TextFits(i)
  }

  function WriteInstruction(i: Instruction): seq<Byte>
    requires FitsInstruction(i)
  {
    [Opcode(i)] + if i.CONST? then WriteSigned(i.n) else if Text(i) != [] then WriteString(Text(i)[0]) else []
  }

  predicate TakesText(op: Byte) {
    op in [0, 2, 13, 14, 15, 19]
  }

  function WithText(op: Byte, s: string): Instruction
    requires TakesText(op)
  {
    if op == 0 then LOAD(s)
    else if op == 2 then STORE(s)
    else if op == 13 then JMP(s)
    else if op == 14 then CJMP(s)
    else if op == 15 then CALL(s)
    else NEW(s)
  }

  /** The instruction without parameter that has this opcode. */
  function Plain(op: Byte, rest: seq<Byte>): Read<Instruction> {
    if op == 3 then Got(ADD, rest)
    else if op == 4 then Got(SUB, rest)
    else if op == 5 then Got(MUL, rest)
    else if op == 6 then Got(DIV, rest)
    else if op == 7 then Got(LT, rest)
    else if op == 8 then Got(GT, rest)
    else if op == 9 then Got(EQ, rest)
    else if op == 10 then Got(AND, rest)
    else if op == 11 then Got(OR, rest)
    else if op == 12 then Got(NOT, rest)
    else if op == 16 then Got(RET, rest)
    else if op == 17 then Got(PRINT, rest)
    else if op == 18 then Got(STOP, rest)
    else if op == 20 then Got(NEW_ARRAY, rest)
    else if op == 21 then Got(ARRAY_LOAD, rest)
    else if op == 22 then Got(ARRAY_STORE, rest)
    else if op == 23 then Got(ARRAY_LENGTH, rest)
    else Malformed
  }

  function ReadInstruction(bs: seq<Byte>): Read<Instruction> {
    if bs == [] then Malformed
    else if bs[0] == 1 then
      var (n, rest) :- ReadSigned(bs[1..]);
      Got(CONST(n), rest)
    else if TakesText(bs[0]) then
      var (s, rest) :- ReadString(bs[1..]);
      Got(WithText(bs[0], s), rest)
    else Plain(bs[0], bs[1..])
  }

  lemma PlainBack(i: Instruction, rest: seq<Byte>)
    requires !i.CONST? && Text(i) == []
    ensures Plain(Opcode(i), rest) == Got(i, rest) && !TakesText(Opcode(i)) && Opcode(i) != 1
  {
  }

  lemma TextBack(i: Instruction)
    requires Text(i) != []
    ensures TakesText(Opcode(i)) && Opcode(i) != 1 && WithText(Opcode(i), Text(i)[0]) == i && !i.CONST?
  {
  }

  lemma ReadInstructionBack(i: Instruction, rest: seq<Byte>)
    requires FitsInstruction(i)
    ensures ReadInstruction(WriteInstruction(i) + rest) == Got(i, rest)
  {
    hide WriteString, ReadString, WriteSigned, ReadSigned, FitsString, Plain, TakesText, WithText;
    var bs := WriteInstruction(i) + rest;
    if i.CONST? {
      assert bs[1..] == WriteSigned(i.n) + rest;
      ReadSignedBack(i.n, rest);
    } else if Text(i) != [] {
      TextBack(i);
      assert Text(i)[0] in Text(i);
      assert bs[1..] == WriteString(Text(i)[0]) + rest;
      ReadStringBack(Text(i)[0], rest);
    } else {
      PlainBack(i, rest);
      assert bs[1..] == rest;
    }
  }

  // ----- blocks, methods, programs -----

  predicate FitsCode(code: seq<Instruction>) {
    FitsSize(|code|) && forall i :: i in code ==> FitsInstruction(i)
  }

  function CodeBytes(code: seq<Instruction>): seq<Byte>
    requires forall i :: i in code ==> FitsInstruction(i)
  {
    if code == [] then [] else WriteInstruction(code[0]) + CodeBytes(code[1..])
  }

  function WriteCode(code: seq<Instruction>): seq<Byte>
    requires FitsCode(code)
  {
    WriteInteger(|code|) + CodeBytes(code)
  }

  function CodeFrom(n: nat, bs: seq<Byte>): Read<seq<Instruction>> {
    if n == 0 then Got([], bs)
    else
      var (i, rest) :- ReadInstruction(bs);
      var (code, rest') :- CodeFrom(n - 1, rest);
      Got([i] + code, rest')
  }

  function ReadCode(bs: seq<Byte>): Read<seq<Instruction>> {
    var (n, rest) :- ReadInteger(bs);
    CodeFrom(n, rest)
  }

  lemma {:induction false} CodeBack(code: seq<Instruction>, rest: seq<Byte>)
    requires forall i :: i in code ==> FitsInstruction(i)
    ensures CodeFrom(|code|, CodeBytes(code) + rest) == Got(code, rest)
  {
    hide WriteInstruction, ReadInstruction, FitsInstruction;
    if code == [] {
      assert CodeBytes(code) + rest == rest;
    } else {
      assert CodeBytes(code) + rest == WriteInstruction(code[0]) + (CodeBytes(code[1..]) + rest);
      ReadInstructionBack(code[0], CodeBytes(code[1..]) + rest);
      CodeBack(code[1..], rest);
      assert [code[0]] + code[1..] == code;
    }
  }

  lemma ReadCodeBack(code: seq<Instruction>, rest: seq<Byte>)
    requires FitsCode(code)
    ensures ReadCode(WriteCode(code) + rest) == Got(code, rest)
  {
    hide WriteInteger, ReadInteger, CodeFrom, CodeBytes, FitsInstruction;
    assert WriteCode(code) + rest == WriteInteger(|code|) + (CodeBytes(code) + rest);
    ReadIntegerBack(|code|, CodeBytes(code) + rest);
    CodeBack(code, rest);
  }

  predicate FitsBlock(b: CodeBlock) {
    FitsString(b.name) && FitsCode(b.code)
  }

  function BlockBytes(bs: seq<CodeBlock>): seq<Byte>
    requires forall b :: b in bs ==> FitsBlock(b)
  {
    if bs == [] then []
    else
      assert FitsBlock(bs[0]);
      WriteString(bs[0].name) + WriteCode(bs[0].code) + BlockBytes(bs[1..])
  }

  function Emplace<T>(m: map<string, T>, name: string, value: T): map<string, T> {
    if name in m then m else m[name := value]
  }

  function EmplaceAll(m: CodeMap, bs: seq<CodeBlock>): CodeMap
    decreases bs
  {
    if bs == [] then m else EmplaceAll(Emplace(m, bs[0].name, bs[0].code), bs[1..])
  }

  /** Blocks are emplaced as they are read, so the first of a name counts. */
  function BlocksFrom(n: nat, m: CodeMap, bs: seq<Byte>): Read<CodeMap> {
    if n == 0 then Got(m, bs)
    else
      var (name, rest) :- ReadString(bs);
      var (code, rest') :- ReadCode(rest);
      BlocksFrom(n - 1, Emplace(m, name, code), rest')
  }

  lemma {:induction false} BlocksBack(bs: seq<CodeBlock>, m: CodeMap, rest: seq<Byte>)
    requires forall b :: b in bs ==> FitsBlock(b)
    ensures BlocksFrom(|bs|, m, BlockBytes(bs) + rest) == Got(EmplaceAll(m, bs), rest)
  {
    hide WriteString, ReadString, WriteCode, ReadCode, FitsString, FitsCode, Emplace;
    if bs == [] {
      assert BlockBytes(bs) + rest == rest;
    } else {
      assert FitsBlock(bs[0]);
      var after := BlockBytes(bs[1..]) + rest;
      assert BlockBytes(bs) + rest == WriteString(bs[0].name) + (WriteCode(bs[0].code) + after);
      ReadStringBack(bs[0].name, WriteCode(bs[0].code) + after);
      ReadCodeBack(bs[0].code, after);
      BlocksBack(bs[1..], Emplace(m, bs[0].name, bs[0].code), rest);
    }
  }

  lemma {:induction false} EmplacedIsMap(bs: seq<CodeBlock>, i: nat)
    requires i <= |bs|
    ensures EmplaceAll(AsMap(bs[..i]), bs[i..]) == AsMap(bs)
    decreases |bs| - i
  {
    if i == |bs| {
      assert bs[..i] == bs;
    } else {
      assert bs[..i + 1][..i] == bs[..i] && bs[i..][1..] == bs[i + 1..];
      EmplacedIsMap(bs, i + 1);
    }
  }

  /** A method as the reader returns it: variables in order, code by block name. */
  datatype RawMethod = RawMethod(variables: seq<string>, fields: seq<string>, blocks: CodeMap)

  datatype RawProgram = RawProgram(mainName: string, main: RawMethod, methods: map<string, RawMethod>)

  predicate FitsMethod(m: MethodCode) {
    && FitsString(m.name) && FitsStrings(m.variables) && FitsStrings(m.fields)
    && FitsSize(|m.blocks|) && forall b :: b in m.blocks ==> FitsBlock(b)
  }

  function MethodBody(m: MethodCode): seq<Byte>
    requires FitsMethod(m)
  {
    WriteStrings(m.variables) + WriteStrings(m.fields) + WriteInteger(|m.blocks|) + BlockBytes(m.blocks)
  }

  function WriteMethod(m: MethodCode): seq<Byte>
    requires FitsMethod(m)
  {
    WriteString(m.name) + MethodBody(m)
  }

  function ReadMethod(bs: seq<Byte>): Read<RawMethod> {
    var (variables, r1) :- ReadStrings(bs);
    var (fields, r2) :- ReadStrings(r1);
    var (n, r3) :- ReadInteger(r2);
    var (blocks, r4) :- BlocksFrom(n, map[], r3);
    Got(RawMethod(variables, fields, blocks), r4)
  }

  function Raw(m: MethodCode): RawMethod {
    RawMethod(m.variables, m.fields, AsMap(m.blocks))
  }

  lemma ReadMethodBack(m: MethodCode, rest: seq<Byte>)
    requires FitsMethod(m)
    ensures ReadMethod(MethodBody(m) + rest) == Got(Raw(m), rest)
  {
    hide WriteInteger, ReadInteger, WriteStrings, ReadStrings, BlockBytes, BlocksFrom, FitsString, FitsStrings, FitsBlock, AsMap;
    var r3 := BlockBytes(m.blocks) + rest;
    var r2 := WriteInteger(|m.blocks|) + r3;
    var r1 := WriteStrings(m.fields) + r2;
    assert MethodBody(m) + rest == WriteStrings(m.variables) + r1;
    ReadStringsBack(m.variables, r1);
    ReadStringsBack(m.fields, r2);
    ReadIntegerBack(|m.blocks|, r3);
    BlocksBack(m.blocks, map[], rest);
    NothingEmplaced(m.blocks);
  }

  lemma NothingEmplaced(bs: seq<CodeBlock>)
    ensures EmplaceAll(map[], bs) == AsMap(bs)
  {
    EmplacedIsMap(bs, 0);
    assert bs[..0] == [] && bs[0..] == bs;
  }

  predicate FitsProgram(ms: seq<MethodCode>) {
    ms != [] && FitsSize(|ms| - 1) && forall m :: m in ms ==> FitsMethod(m)
  }

  // Sizes and names on the one hand, constants on the other.

  predicate NamesFit(m: MethodCode) {
    && FitsString(m.name) && FitsStrings(m.variables) && FitsStrings(m.fields) && FitsSize(|m.blocks|)
    && forall b {:trigger b in m.blocks} :: b in m.blocks ==> FitsString(b.name) && FitsSize(|b.code|) && forall i :: i in b.code ==> TextFits(i)
  }

  predicate AllNamesFit(ms: seq<MethodCode>) {
    (ms != [] ==> FitsSize(|ms| - 1)) && forall m :: m in ms ==> NamesFit(m)
  }

  predicate ConstantsFit(m: MethodCode) {
    forall b {:trigger b in m.blocks} :: b in m.blocks ==> forall i :: i in b.code ==> ConstantFits(i)
  }

  lemma FitsParts(ms: seq<MethodCode>)
    ensures FitsProgram(ms) <==> ms != [] && AllNamesFit(ms) && forall m :: m in ms ==> ConstantsFit(m)
  {
    hide FitsString, FitsStrings, FitsSize, TextFits, ConstantFits;
    forall m | m in ms
      ensures FitsMethod(m) <==> NamesFit(m) && ConstantsFit(m)
    {
      MethodParts(m);
    }
  }

  lemma MethodParts(m: MethodCode)
    ensures FitsMethod(m) <==> NamesFit(m) && ConstantsFit(m)
  {
    hide FitsString, FitsStrings, FitsSize, TextFits, ConstantFits;
    forall b | b in m.blocks
      ensures FitsBlock(b) <==> FitsString(b.name) && FitsSize(|b.code|) && (forall i :: i in b.code ==> TextFits(i)) && forall i :: i in b.code ==> ConstantFits(i)
    {
    }
  }

  function MethodBytes(ms: seq<MethodCode>): seq<Byte>
    requires forall m :: m in ms ==> FitsMethod(m)
  {
    if ms == [] then [] else WriteMethod(ms[0]) + MethodBytes(ms[1..])
  }

  /** Main, the number of the other methods, and those. */
  function WriteProgram(ms: seq<MethodCode>): seq<Byte>
    requires FitsProgram(ms)
  {
    WriteMethod(ms[0]) + WriteInteger(|ms| - 1) + MethodBytes(ms[1..])
  }

  function MethodsFrom(n: nat, methods: map<string, RawMethod>, bs: seq<Byte>): Read<map<string, RawMethod>> {
    if n == 0 then Got(methods, bs)
    else
      var (name, rest) :- ReadString(bs);
      var (m, rest') :- ReadMethod(rest);
      MethodsFrom(n - 1, Emplace(methods, name, m), rest')
  }

  function ReadProgram(bs: seq<Byte>): Read<RawProgram> {
    var (name, r1) :- ReadString(bs);
    var (main, r2) :- ReadMethod(r1);
    var (n, r3) :- ReadInteger(r2);
    var (methods, r4) :- MethodsFrom(n, map[], r3);
    Got(RawProgram(name, main, methods), r4)
  }

  function EmplaceMethods(methods: map<string, RawMethod>, ms: seq<MethodCode>): map<string, RawMethod>
    decreases ms
  {
    if ms == [] then methods else EmplaceMethods(Emplace(methods, ms[0].name, Raw(ms[0])), ms[1..])
  }

  lemma {:induction false} MethodsBack(ms: seq<MethodCode>, methods: map<string, RawMethod>, rest: seq<Byte>)
    requires forall m :: m in ms ==> FitsMethod(m)
    ensures MethodsFrom(|ms|, methods, MethodBytes(ms) + rest) == Got(EmplaceMethods(methods, ms), rest)
  {
    hide WriteString, ReadString, MethodBody, ReadMethod, FitsString, FitsStrings, FitsBlock, Emplace, Raw;
    if ms == [] {
      assert MethodBytes(ms) + rest == rest;
    } else {
      assert FitsMethod(ms[0]);
      var after := MethodBytes(ms[1..]) + rest;
      assert MethodBytes(ms) + rest == WriteString(ms[0].name) + (MethodBody(ms[0]) + after);
      ReadStringBack(ms[0].name, MethodBody(ms[0]) + after);
      ReadMethodBack(ms[0], after);
      MethodsBack(ms[1..], Emplace(methods, ms[0].name, Raw(ms[0])), rest);
    }
  }

  /** Reading back what was written, whatever follows it, gives the same main name, variable lists and code, and
      consumes exactly the bytes written. */
  lemma ReadProgramBack(ms: seq<MethodCode>, rest: seq<Byte>)
    requires FitsProgram(ms)
    ensures ReadProgram(WriteProgram(ms) + rest) ==
            Got(RawProgram(ms[0].name, Raw(ms[0]), EmplaceMethods(map[], ms[1..])), rest)
  {
    hide WriteInteger, ReadInteger, WriteString, ReadString, MethodBody, ReadMethod, MethodBytes, MethodsFrom, FitsString, FitsStrings, FitsBlock, Raw;
    assert FitsMethod(ms[0]);
    var r3 := MethodBytes(ms[1..]) + rest;
    var r2 := WriteInteger(|ms| - 1) + r3;
    var r1 := MethodBody(ms[0]) + r2;
    assert WriteProgram(ms) + rest == WriteString(ms[0].name) + r1;
    ReadStringBack(ms[0].name, r1);
    ReadMethodBack(ms[0], r2);
    ReadIntegerBack(|ms| - 1, r3);
    MethodsBack(ms[1..], map[], rest);
  }

  // ----- from the file into the VM -----

  function LoadRaw(m: RawMethod): Vm.Loaded {
    Vm.Loaded(Elements(m.variables), Elements(m.fields), m.blocks)
  }

  function LoadRawProgram(p: RawProgram): Vm.Program {
    Vm.Program(p.mainName, LoadRaw(p.main), map r | r in p.methods :: LoadRaw(p.methods[r]))
  }

  lemma {:induction false} MethodsLoaded(ms: seq<MethodCode>, i: nat, methods: map<string, RawMethod>)
    requires i <= |ms| && (map r | r in methods :: LoadRaw(methods[r])) == LoadMethods(ms[..i])
    ensures var all := EmplaceMethods(methods, ms[i..]);
            (map r | r in all :: LoadRaw(all[r])) == LoadMethods(ms)
    decreases |ms| - i
  {
    if i == |ms| {
      assert ms[..i] == ms;
    } else {
      assert ms[..i + 1][..i] == ms[..i] && ms[i..][1..] == ms[i + 1..];
      MethodsLoaded(ms, i + 1, Emplace(methods, ms[i].name, Raw(ms[i])));
    }
  }

  /** So the VM that reads the file runs the emitted program. */
  lemma FileLoads(ms: seq<MethodCode>)
    requires FitsProgram(ms)
    ensures var r := ReadProgram(WriteProgram(ms));
            r.Got? && r.rest == [] && LoadRawProgram(r.value) == LoadProgram(ms)
  {
    hide WriteProgram, ReadProgram, EmplaceMethods, FitsMethod, LoadMethods;
    ReadProgramBack(ms, []);
    assert WriteProgram(ms) + [] == WriteProgram(ms);
    var rest := ms[1..];
    assert rest[0..] == rest && rest[..0] == [];
    NoMethods();
    MethodsLoaded(rest, 0, map[]);
  }

  lemma NoMethods()
    ensures LoadMethods([]) == map[]
  {
  }

  // ----- the stream classes -----

  class Serializer {
    var os: seq<Byte>

    constructor ()
      ensures os == []
    {
      os := [];
    }

    method PutInteger(n: nat)
      modifies this
      ensures os == old(os) + WriteInteger(n)
    {
      os := os + WriteInteger(n);
    }

    method PutString(s: string)
      requires FitsString(s)
      modifies this
      ensures os == old(os) + WriteString(s)
    {
      PutInteger(|s|);
      os := os + Encode(s);
    }

    method PutStrings(ss: seq<string>)
      requires FitsStrings(ss)
      modifies this
      ensures os == old(os) + WriteStrings(ss)
    {
      hide WriteInteger, WriteString, FitsString;
      PutInteger(|ss|);
      ghost var start := os;
      for i := 0 to |ss|
        invariant os + StringBytes(ss[i..]) == start + StringBytes(ss)
      {
        assert ss[i..][0] == ss[i] && ss[i..][1..] == ss[i + 1..];
        assert ss[i] in ss;
        PutString(ss[i]);
      }
      assert ss[|ss|..] == [] && os + [] == os;
    }

    method PutInstruction(i: Instruction)
      requires FitsInstruction(i)
      modifies this
      ensures os == old(os) + WriteInstruction(i)
    {
      hide WriteSigned, WriteString, Opcode, FitsString;
      os := os + [Opcode(i)];
      if i.CONST? {
        os := os + WriteSigned(i.n);
      } else if Text(i) != [] {
        assert Text(i)[0] in Text(i);
        PutString(Text(i)[0]);
      }
    }

    method PutCode(code: seq<Instruction>)
      requires FitsCode(code)
      modifies this
      ensures os == old(os) + WriteCode(code)
    {
      hide WriteInteger, WriteInstruction, FitsInstruction;
      PutInteger(|code|);
      ghost var start := os;
      for i := 0 to |code|
        invariant os + CodeBytes(code[i..]) == start + CodeBytes(code)
      {
        assert code[i..][0] == code[i] && code[i..][1..] == code[i + 1..];
        assert code[i] in code;
        PutInstruction(code[i]);
      }
      assert code[|code|..] == [] && os + [] == os;
    }

    method PutMethod(m: MethodCode)
      requires FitsMethod(m)
      modifies this
      ensures os == old(os) + WriteMethod(m)
    {
      hide WriteInteger, WriteString, WriteStrings, WriteCode, FitsString, FitsStrings, FitsCode;
      PutString(m.name);
      PutStrings(m.variables);
      PutStrings(m.fields);
      PutInteger(|m.blocks|);
      ghost var start := os;
      for i := 0 to |m.blocks|
        invariant os + BlockBytes(m.blocks[i..]) == start + BlockBytes(m.blocks)
      {
        assert m.blocks[i..][0] == m.blocks[i] && m.blocks[i..][1..] == m.blocks[i + 1..];
        assert FitsBlock(m.blocks[i]);
        PutString(m.blocks[i].name);
        PutCode(m.blocks[i].code);
      }
      assert m.blocks[|m.blocks|..] == [] && os + [] == os;
    }

    method PutProgram(ms: seq<MethodCode>)
      requires FitsProgram(ms)
      modifies this
      ensures os == old(os) + WriteProgram(ms)
    {
      hide WriteInteger, WriteMethod;
      PutMethod(ms[0]);
      PutInteger(|ms| - 1);
      ghost var start := os;
      for i := 1 to |ms|
        invariant os + MethodBytes(ms[i..]) == start + MethodBytes(ms[1..])
      {
        assert ms[i..][0] == ms[i] && ms[i..][1..] == ms[i + 1..];
        assert FitsMethod(ms[i]);
        PutMethod(ms[i]);
      }
      assert ms[|ms|..] == [] && os + [] == os;
    }
  }

  /** A value taken from the stream, or the discovery that it is malformed. */
  datatype Taken<+T> = Taken(value: T) | Bad {
    predicate IsFailure() { Bad? }
    function PropagateFailure<U>(): Taken<U> requires Bad? { Bad }
    function Extract(): T requires Taken? { value }
  }

  /** t is what reading gives, and the stream stands behind it. */
  ghost predicate Took<T(!new)>(t: Taken<T>, r: Read<T>, stream: seq<Byte>) {
    if r.Malformed? then t.Bad? else t == Taken(r.value) && stream == r.rest
  }

  function Prepend<T>(vec: seq<T>, r: Read<seq<T>>): Read<seq<T>> {
    match r
    case Malformed => Malformed
    case Got(more, rest) => Got(vec + more, rest)
  }

  lemma PrependNone<T>(r: Read<seq<T>>)
    ensures Prepend([], r) == r
  {
    if r.Got? { assert [] + r.value == r.value; }
  }

  lemma PrependOne<T>(vec: seq<T>, x: T, more: seq<T>, rest: seq<Byte>)
    ensures Prepend(vec, Got([x] + more, rest)) == Prepend(vec + [x], Got(more, rest))
  {
    assert vec + ([x] + more) == vec + [x] + more;
  }

  class Deserializer {
    var stream: seq<Byte>

    constructor (stream: seq<Byte>)
      ensures this.stream == stream
    {
      this.stream := stream;
    }

    method TakeInteger() returns (n: Taken<nat>)
      modifies this
      ensures Took(n, ReadInteger(old(stream)), stream)
    {
      hide FromLittleEndian;
      if |stream| < 8 { return Bad; }
      n := Taken(FromLittleEndian(stream[..8]));
      stream := stream[8..];
    }

    method TakeSigned() returns (n: Taken<int>)
      modifies this
      ensures Took(n, ReadSigned(old(stream)), stream)
    {
      hide ReadInteger;
      var u :- TakeInteger();
      n := Taken(if u >= SIGN_LIMIT then u - SIZE_LIMIT else u);
    }

    method TakeString() returns (s: Taken<string>)
      modifies this
      ensures Took(s, ReadString(old(stream)), stream)
    {
      hide ReadInteger, Decode;
      var n :- TakeInteger();
      if |stream| < n { return Bad; }
      s := Taken(Decode(stream[..n]));
      stream := stream[n..];
    }

    method TakeStrings() returns (r: Taken<seq<string>>)
      modifies this
      ensures Took(r, ReadStrings(old(stream)), stream)
    {
      hide ReadInteger, ReadString;
      var n :- TakeInteger();
      ghost var start := stream;
      var vec: seq<string> := [];
      PrependNone(StringsFrom(n, start));
      for i := 0 to n
        invariant StringsFrom(n, start) == Prepend(vec, StringsFrom(n - i, stream))
      {
        var s :- TakeString();
        ghost var tail := StringsFrom(n - i - 1, stream);
        if tail.Got? { PrependOne(vec, s, tail.value, tail.rest); }
        vec := vec + [s];
      }
      assert vec + [] == vec;
      r := Taken(vec);
    }

    method TakeInstruction() returns (i: Taken<Instruction>)
      modifies this
      ensures Took(i, ReadInstruction(old(stream)), stream)
    {
      hide ReadSigned, ReadString, TakesText, WithText, Plain;
      if stream == [] { return Bad; }
      var op := stream[0];
      stream := stream[1..];
      if op == 1 {
        var n :- TakeSigned();
        return Taken(CONST(n));
      }
      if TakesText(op) {
        var s :- TakeString();
        return Taken(WithText(op, s));
      }
      var plain := Plain(op, stream);
      if plain.Malformed? { return Bad; }
      PlainRest(op, stream);
      i := Taken(plain.value);
    }

    method TakeCode() returns (r: Taken<seq<Instruction>>)
      modifies this
      ensures Took(r, ReadCode(old(stream)), stream)
    {
      hide ReadInteger, ReadInstruction;
      var n :- TakeInteger();
      ghost var start := stream;
      var code: seq<Instruction> := [];
      PrependNone(CodeFrom(n, start));
      for k := 0 to n
        invariant CodeFrom(n, start) == Prepend(code, CodeFrom(n - k, stream))
      {
        var i :- TakeInstruction();
        ghost var tail := CodeFrom(n - k - 1, stream);
        if tail.Got? { PrependOne(code, i, tail.value, tail.rest); }
        code := code + [i];
      }
      assert code + [] == code;
      r := Taken(code);
    }

    method TakeMethod() returns (m: Taken<RawMethod>)
      modifies this
      ensures Took(m, ReadMethod(old(stream)), stream)
    {
      hide ReadInteger, ReadStrings, ReadString, ReadCode, Emplace;
      var variables :- TakeStrings();
      var fields :- TakeStrings();
      var n :- TakeInteger();
      ghost var start := stream;
      var blocks: CodeMap := map[];
      for i := 0 to n
        invariant BlocksFrom(n, map[], start) == BlocksFrom(n - i, blocks, stream)
      {
        var name :- TakeString();
        var code :- TakeCode();
        blocks := Emplace(blocks, name, code);
      }
      m := Taken(RawMethod(variables, fields, blocks));
    }

    method TakeProgram() returns (p: Taken<RawProgram>)
      modifies this
      ensures Took(p, ReadProgram(old(stream)), stream)
    {
      hide ReadInteger, ReadString, ReadMethod, Emplace;
      var name :- TakeString();
      var main :- TakeMethod();
      var n :- TakeInteger();
      ghost var start := stream;
      var methods: map<string, RawMethod> := map[];
      for i := 0 to n
        invariant MethodsFrom(n, map[], start) == MethodsFrom(n - i, methods, stream)
      {
        var methodName :- TakeString();
        var m :- TakeMethod();
        methods := Emplace(methods, methodName, m);
      }
      p := Taken(RawProgram(name, main, methods));
    }
  }

  lemma PlainRest(op: Byte, rest: seq<Byte>)
    ensures Plain(op, rest).Got? ==> Plain(op, rest).rest == rest
  {
  }
}

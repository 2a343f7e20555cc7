/** The layout of a bytecode file, byte by byte, and that the writer produces exactly that (src/util/serialize.cpp:6-27,
    src/bytecode/BytecodeInstruction.cpp:13-23, src/bytecode/BytecodeMethod.cpp:26-35, src/bytecode/BytecodeProgram.cpp:49-62). */
module FileFormat {
  import opened Bytecode
  import opened Emission
  import opened Machine
  import opened Serialization

  // ----- the layout -----

  /** The place values of the eight bytes, the lowest first. */
  const PLACES: seq<nat> := [1, 0x100, 0x1_0000, 0x100_0000, 0x1_0000_0000, 0x100_0000_0000, 0x1_0000_0000_0000, 0x100_0000_0000_0000]

  predicate IsNumber(bs: seq<Byte>, n: nat) {
    |bs| == 8 && forall i :: 0 <= i < 8 ==> bs[i] as int == n / PLACES[i] % 256
  }

  /** Two's complement in 64 bits. */
  predicate IsConstant(bs: seq<Byte>, n: int) {
    if n >= 0 then IsNumber(bs, n) else n + 0x1_0000_0000_0000_0000 >= 0 && IsNumber(bs, n + 0x1_0000_0000_0000_0000)
  }

  /** The length, then the characters. */
  predicate IsText(bs: seq<Byte>, s: string) {
    |bs| == 8 + |s| && IsNumber(bs[..8], |s|) && forall i :: 0 <= i < |s| ==> bs[8 + i] as int == s[i] as int
  }

  /** The opcodes by number. */
  predicate Numbered(i: Instruction, op: int) {
    match i
    case LOAD(_) => op == 0
    case CONST(_) => op == 1
    case STORE(_) => op == 2
    case ADD => op == 3
    case SUB => op == 4
    case MUL => op == 5
    case DIV => op == 6
    case LT => op == 7
    case GT => op == 8
    case EQ => op == 9
    case AND => op == 10
    case OR => op == 11
    case NOT => op == 12
    case JMP(_) => op == 13
    case CJMP(_) => op == 14
    case CALL(_) => op == 15
    case RET => op == 16
    case PRINT => op == 17
    case STOP => op == 18
    case NEW(_) => op == 19
    case NEW_ARRAY => op == 20
    case ARRAY_LOAD => op == 21
    case ARRAY_STORE => op == 22
    case ARRAY_LENGTH => op == 23
  }

  /** The opcode, then a constant or a name if the instruction has one. */
  predicate IsInstruction(bs: seq<Byte>, i: Instruction) {
    && bs != [] && Numbered(i, bs[0])
    && match i
       case CONST(n) => IsConstant(bs[1..], n)
       case LOAD(x) => IsText(bs[1..], x)
       case STORE(x) => IsText(bs[1..], x)
       case JMP(l) => IsText(bs[1..], l)
       case CJMP(l) => IsText(bs[1..], l)
       case CALL(m) => IsText(bs[1..], m)
       case NEW(c) => IsText(bs[1..], c)
       case _ => |bs| == 1
  }

  /** The strings one after the other. */
  predicate AreTexts(bs: seq<Byte>, ss: seq<string>) {
    if ss == [] then bs == [] else exists k :: 0 <= k <= |bs| && IsText(bs[..k], ss[0]) && AreTexts(bs[k..], ss[1..])
  }

  predicate AreInstructions(bs: seq<Byte>, code: seq<Instruction>) {
    if code == [] then bs == [] else exists k :: 0 <= k <= |bs| && IsInstruction(bs[..k], code[0]) && AreInstructions(bs[k..], code[1..])
  }

  /** The number of strings, then the strings. */
  predicate IsNameList(bs: seq<Byte>, ss: seq<string>) {
    |bs| >= 8 && IsNumber(bs[..8], |ss|) && AreTexts(bs[8..], ss)
  }

  predicate IsCode(bs: seq<Byte>, code: seq<Instruction>) {
    |bs| >= 8 && IsNumber(bs[..8], |code|) && AreInstructions(bs[8..], code)
  }

  /** The name of the block, then its code. */
  predicate IsBlock(bs: seq<Byte>, b: CodeBlock) {
    exists k :: 0 <= k <= |bs| && IsText(bs[..k], b.name) && IsCode(bs[k..], b.code)
  }

  predicate AreBlocks(bs: seq<Byte>, blocks: seq<CodeBlock>) {
    if blocks == [] then bs == [] else exists k :: 0 <= k <= |bs| && IsBlock(bs[..k], blocks[0]) && AreBlocks(bs[k..], blocks[1..])
  }

  /** The five parts of a method, at the places i, j and k. */
  predicate MethodAt(bs: seq<Byte>, m: MethodCode, i: int, j: int, k: int) {
    0 <= i <= j <= k && k + 8 <= |bs| && IsText(bs[..i], m.name) && IsNameList(bs[i..j], m.variables) && IsNameList(bs[j..k], m.fields) &&
      IsNumber(bs[k..k + 8], |m.blocks|) && AreBlocks(bs[k + 8..], m.blocks)
  }

  /** The name, the variables, the fields, the number of blocks and the blocks. */
  ghost predicate IsMethod(bs: seq<Byte>, m: MethodCode) {
    exists i, j, k :: MethodAt(bs, m, i, j, k)
  }

  ghost predicate AreMethods(bs: seq<Byte>, ms: seq<MethodCode>) {
    if ms == [] then bs == [] else exists k :: 0 <= k <= |bs| && IsMethod(bs[..k], ms[0]) && AreMethods(bs[k..], ms[1..])
  }

  /** The main method, the number of the others, and those. */
  ghost predicate IsFile(bs: seq<Byte>, ms: seq<MethodCode>) {
    ms != [] && exists k :: 0 <= k && k + 8 <= |bs| && IsMethod(bs[..k], ms[0]) && IsNumber(bs[k..k + 8], |ms| - 1) && AreMethods(bs[k + 8..], ms[1..])
  }

  // ----- the writer -----

  lemma Quotient(p: nat, q: nat, t: nat)
    requires t < p
    ensures (p * q + t) / p == q
  {
    var x := (p * q + t) / p;
    DivModNat(p * q + t, p);
    if x < q { Multiples(p, x + 1, q); }
    if x > q { Multiples(p, q + 1, x); }
  }

  lemma Multiples(p: nat, a: nat, b: nat)
    requires a <= b
    ensures p * a <= p * b
  {
  }

  lemma DivideTwice(n: nat, p: nat)
    requires p > 0
    ensures n / 256 / p == n / (256 * p)
  {
    var m := 256 * p;
    var q, r := n / m, n % m;
    DivModNat(n, m);
    var x := p * q;
    assert n == 256 * x + r;
    assert n / 256 == x + r / 256 && r / 256 < p;
    Quotient(p, q, r / 256);
  }

  lemma {:induction false} ByteAt(n: nat, k: nat, i: nat)
    requires i < k
    ensures Power256(i) > 0 && LittleEndian(n, k)[i] as int == n / Power256(i) % 256
    decreases k
  {
    if i > 0 {
      ByteAt(n / 256, k - 1, i - 1);
      DivideTwice(n, Power256(i - 1));
    }
  }

  lemma PlacesArePowers()
    ensures forall i :: 0 <= i < 8 ==> PLACES[i] == Power256(i)
  {
    assert Power256(0) == PLACES[0];
    assert Power256(1) == PLACES[1];
    assert Power256(2) == PLACES[2];
    assert Power256(3) == PLACES[3];
    assert Power256(4) == PLACES[4];
    assert Power256(5) == PLACES[5];
    assert Power256(6) == PLACES[6];
    assert Power256(7) == PLACES[7];
  }

  /** A size is laid out by place values, and in no other way. */
  lemma NumberExactly(bs: seq<Byte>, n: nat)
    ensures IsNumber(bs, n) <==> bs == WriteInteger(n)
  {
    hide LittleEndian, Power256;
    PlacesArePowers();
    forall i | 0 <= i < 8
      ensures WriteInteger(n)[i] as int == n / PLACES[i] % 256
    {
      ByteAt(n, 8, i);
    }
  }

  lemma ConstantExactly(bs: seq<Byte>, n: int)
    requires FitsInt64(n)
    ensures IsConstant(bs, n) <==> bs == WriteSigned(n)
  {
    hide IsNumber, WriteInteger;
    NumberExactly(bs, if n >= 0 then n else n + 0x1_0000_0000_0000_0000);
  }

  lemma TextExactly(bs: seq<Byte>, s: string)
    requires FitsString(s)
    ensures IsText(bs, s) <==> bs == WriteString(s)
  {
    hide IsNumber, WriteInteger;
    if |bs| >= 8 { NumberExactly(bs[..8], |s|); }
    NumberExactly(WriteInteger(|s|), |s|);
    assert |WriteInteger(|s|)| == 8 by { hide *; NumberLength(|s|); }
    if IsText(bs, s) {
      assert bs == bs[..8] + bs[8..];
      assert bs[8..] == Encode(s);
    }
    if bs == WriteString(s) { assert bs[..8] == WriteInteger(|s|); }
  }

  lemma NumberLength(n: nat)
    ensures |WriteInteger(n)| == 8
  {
  }

  lemma InstructionExactly(bs: seq<Byte>, i: Instruction)
    requires FitsInstruction(i)
    ensures IsInstruction(bs, i) <==> bs == WriteInstruction(i)
  {
    hide IsText, IsConstant, WriteString, WriteSigned, FitsString, Opcode, Numbered;
    assert forall op: Byte :: Numbered(i, op) <==> op == Opcode(i) by { OpcodeExactly(i); }
    if bs != [] {
      assert bs == [bs[0]] + bs[1..];
      if i.CONST? { ConstantExactly(bs[1..], i.n); }
      if Text(i) != [] {
        assert Text(i)[0] in Text(i);
        TextExactly(bs[1..], Text(i)[0]);
      }
    }
  }

  lemma OpcodeExactly(i: Instruction)
    ensures forall op: Byte :: Numbered(i, op) <==> op == Opcode(i)
  {
  }

  lemma {:induction false} TextsExactly(bs: seq<Byte>, ss: seq<string>)
    requires forall s :: s in ss ==> FitsString(s)
    ensures AreTexts(bs, ss) <==> bs == StringBytes(ss)
    decreases ss
  {
    hide IsText, WriteString, FitsString;
    if ss != [] {
      assert ss[0] in ss;
      var n := |WriteString(ss[0])|;
      forall k | 0 <= k <= |bs|
        ensures IsText(bs[..k], ss[0]) && AreTexts(bs[k..], ss[1..]) <==> bs[..k] == WriteString(ss[0]) && bs[k..] == StringBytes(ss[1..])
      {
        TextExactly(bs[..k], ss[0]);
        TextsExactly(bs[k..], ss[1..]);
      }
      Split(bs, WriteString(ss[0]), StringBytes(ss[1..]));
    }
  }

  /** A sequence is the concatenation of two where some place splits it into them, and only there. */
  lemma Split(bs: seq<Byte>, a: seq<Byte>, b: seq<Byte>)
    ensures bs == a + b ==> |a| <= |bs| && bs[..|a|] == a && bs[|a|..] == b
    ensures forall k :: 0 <= k <= |bs| && bs[..k] == a && bs[k..] == b ==> bs == a + b
  {
    forall k | 0 <= k <= |bs| && bs[..k] == a && bs[k..] == b
      ensures bs == a + b
    {
      assert bs == bs[..k] + bs[k..];
    }
  }

  lemma {:induction false} InstructionsExactly(bs: seq<Byte>, code: seq<Instruction>)
    requires forall i :: i in code ==> FitsInstruction(i)
    ensures AreInstructions(bs, code) <==> bs == CodeBytes(code)
    decreases code
  {
    hide IsInstruction, WriteInstruction, FitsInstruction;
    if code != [] {
      assert code[0] in code;
      forall k | 0 <= k <= |bs|
        ensures IsInstruction(bs[..k], code[0]) && AreInstructions(bs[k..], code[1..]) <==>
                  bs[..k] == WriteInstruction(code[0]) && bs[k..] == CodeBytes(code[1..])
      {
        InstructionExactly(bs[..k], code[0]);
        InstructionsExactly(bs[k..], code[1..]);
      }
      Split(bs, WriteInstruction(code[0]), CodeBytes(code[1..]));
    }
  }

  lemma NameListExactly(bs: seq<Byte>, ss: seq<string>)
    requires FitsStrings(ss)
    ensures IsNameList(bs, ss) <==> bs == WriteStrings(ss)
  {
    hide IsNumber, WriteInteger, AreTexts, StringBytes, FitsString;
    NumberLength(|ss|);
    Split(bs, WriteInteger(|ss|), StringBytes(ss));
    if |bs| >= 8 {
      NumberExactly(bs[..8], |ss|);
      TextsExactly(bs[8..], ss);
    }
  }

  lemma CodeExactly(bs: seq<Byte>, code: seq<Instruction>)
    requires FitsCode(code)
    ensures IsCode(bs, code) <==> bs == WriteCode(code)
  {
    hide IsNumber, WriteInteger, AreInstructions, CodeBytes, FitsInstruction;
    NumberLength(|code|);
    Split(bs, WriteInteger(|code|), CodeBytes(code));
    if |bs| >= 8 {
      NumberExactly(bs[..8], |code|);
      InstructionsExactly(bs[8..], code);
    }
  }

  lemma BlockExactly(bs: seq<Byte>, b: CodeBlock)
    requires FitsBlock(b)
    ensures IsBlock(bs, b) <==> bs == WriteString(b.name) + WriteCode(b.code)
  {
    hide IsText, IsCode, WriteString, WriteCode, FitsString, FitsCode;
    forall k | 0 <= k <= |bs|
      ensures IsText(bs[..k], b.name) && IsCode(bs[k..], b.code) <==> bs[..k] == WriteString(b.name) && bs[k..] == WriteCode(b.code)
    {
      TextExactly(bs[..k], b.name);
      CodeExactly(bs[k..], b.code);
    }
    Split(bs, WriteString(b.name), WriteCode(b.code));
  }

  lemma {:induction false} BlocksExactly(bs: seq<Byte>, blocks: seq<CodeBlock>)
    requires forall b :: b in blocks ==> FitsBlock(b)
    ensures AreBlocks(bs, blocks) <==> bs == BlockBytes(blocks)
    decreases blocks
  {
    hide IsBlock, WriteString, WriteCode, FitsString, FitsCode;
    if blocks != [] {
      assert FitsBlock(blocks[0]);
      var first := WriteString(blocks[0].name) + WriteCode(blocks[0].code);
      forall k | 0 <= k <= |bs|
        ensures IsBlock(bs[..k], blocks[0]) && AreBlocks(bs[k..], blocks[1..]) <==> bs[..k] == first && bs[k..] == BlockBytes(blocks[1..])
      {
        BlockExactly(bs[..k], blocks[0]);
        BlocksExactly(bs[k..], blocks[1..]);
      }
      Split(bs, first, BlockBytes(blocks[1..]));
    }
  }

  lemma MethodExactly(bs: seq<Byte>, m: MethodCode)
    requires FitsMethod(m)
    ensures IsMethod(bs, m) <==> bs == WriteMethod(m)
  {
    hide IsText, IsNameList, IsNumber, AreBlocks, WriteString, WriteStrings, WriteInteger, BlockBytes, FitsString, FitsStrings, FitsBlock;
    if IsMethod(bs, m) {
      var i, j, k :| MethodAt(bs, m, i, j, k);
      TextExactly(bs[..i], m.name);
      NameListExactly(bs[i..j], m.variables);
      NameListExactly(bs[j..k], m.fields);
      NumberExactly(bs[k..k + 8], |m.blocks|);
      BlocksExactly(bs[k + 8..], m.blocks);
      assert bs == bs[..i] + bs[i..];
      assert bs[i..] == bs[i..j] + bs[j..k] + bs[k..k + 8] + bs[k + 8..];
    }
    if bs == WriteMethod(m) {
      var a, b, c, d, e := WriteString(m.name), WriteStrings(m.variables), WriteStrings(m.fields), WriteInteger(|m.blocks|), BlockBytes(m.blocks);
      var i, j, k := |a|, |a| + |b|, |a| + |b| + |c|;
      NumberLength(|m.blocks|);
      assert bs[..i] == a && bs[i..j] == b && bs[j..k] == c && bs[k..k + 8] == d && bs[k + 8..] == e;
      TextExactly(a, m.name);
      NameListExactly(b, m.variables);
      NameListExactly(c, m.fields);
      NumberExactly(d, |m.blocks|);
      BlocksExactly(e, m.blocks);
      assert MethodAt(bs, m, i, j, k);
    }
  }

  lemma {:induction false} MethodsExactly(bs: seq<Byte>, ms: seq<MethodCode>)
    requires forall m :: m in ms ==> FitsMethod(m)
    ensures AreMethods(bs, ms) <==> bs == MethodBytes(ms)
    decreases ms
  {
    hide IsMethod, WriteMethod, FitsMethod;
    if ms != [] {
      assert ms[0] in ms;
      forall k | 0 <= k <= |bs|
        ensures IsMethod(bs[..k], ms[0]) && AreMethods(bs[k..], ms[1..]) <==> bs[..k] == WriteMethod(ms[0]) && bs[k..] == MethodBytes(ms[1..])
      {
        MethodExactly(bs[..k], ms[0]);
        MethodsExactly(bs[k..], ms[1..]);
      }
      Split(bs, WriteMethod(ms[0]), MethodBytes(ms[1..]));
    }
  }

  /** What is written is laid out as a file of the program, and nothing else is laid out so. */
  lemma FileExactly(bs: seq<Byte>, ms: seq<MethodCode>)
    requires FitsProgram(ms)
    ensures IsFile(bs, ms) <==> bs == WriteProgram(ms)
  {
    hide IsMethod, IsNumber, AreMethods, WriteMethod, WriteInteger, MethodBytes, FitsMethod;
    assert ms[0] in ms;
    var a, b, c := WriteMethod(ms[0]), WriteInteger(|ms| - 1), MethodBytes(ms[1..]);
    NumberLength(|ms| - 1);
    forall k | 0 <= k && k + 8 <= |bs|
      ensures IsMethod(bs[..k], ms[0]) && IsNumber(bs[k..k + 8], |ms| - 1) && AreMethods(bs[k + 8..], ms[1..]) <==> bs[..k] == a && bs[k..k + 8] == b && bs[k + 8..] == c
    {
      MethodExactly(bs[..k], ms[0]);
      NumberExactly(bs[k..k + 8], |ms| - 1);
      MethodsExactly(bs[k + 8..], ms[1..]);
    }
    if bs == WriteProgram(ms) {
      var k := |a|;
      assert bs[..k] == a && bs[k..k + 8] == b && bs[k + 8..] == c;
    }
    forall k | 0 <= k && k + 8 <= |bs| && bs[..k] == a && bs[k..k + 8] == b && bs[k + 8..] == c
      ensures bs == WriteProgram(ms)
    {
      assert bs == bs[..k] + bs[k..k + 8] + bs[k + 8..];
    }
  }
}

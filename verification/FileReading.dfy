/** The reader takes a program from a stream of bytes if and only if the stream starts with a written one
    (src/util/serialize.cpp:29-60, src/vm/vm.cpp:481-548). */
module FileReading {
  import opened Bytecode
  import opened Emission
  import opened Serialization

  // ----- numbers and strings -----

  lemma {:induction false} BytesBack(bs: seq<Byte>)
    ensures FromLittleEndian(bs) < Power256(|bs|) && LittleEndian(FromLittleEndian(bs), |bs|) == bs
  {
    if bs != [] {
      BytesBack(bs[1..]);
      LowestByte(bs[0], FromLittleEndian(bs[1..]));
      assert [bs[0]] + bs[1..] == bs;
    }
  }

  lemma LowestByte(b: Byte, n: nat)
    ensures (b + 256 * n) % 256 == b && (b + 256 * n) / 256 == n
  {
  }

  lemma ReadIntegerExactly(bs: seq<Byte>, n: nat, rest: seq<Byte>)
    ensures ReadInteger(bs) == Got(n, rest) <==> FitsSize(n) && bs == WriteInteger(n) + rest
  {
    if ReadInteger(bs) == Got(n, rest) {
      hide FromLittleEndian, LittleEndian;
      PowerOfEight();
      BytesBack(bs[..8]);
      assert bs == bs[..8] + bs[8..];
    }
    if FitsSize(n) && bs == WriteInteger(n) + rest { ReadIntegerBack(n, rest); }
  }

  lemma ReadSignedExactly(bs: seq<Byte>, n: int, rest: seq<Byte>)
    ensures ReadSigned(bs) == Got(n, rest) <==> FitsInt64(n) && bs == WriteSigned(n) + rest
  {
    hide ReadInteger, WriteInteger;
    if ReadSigned(bs) == Got(n, rest) {
      var r := ReadInteger(bs);
      ReadIntegerExactly(bs, r.value, r.rest);
    }
    if FitsInt64(n) && bs == WriteSigned(n) + rest { ReadSignedBack(n, rest); }
  }

  lemma ReadStringExactly(bs: seq<Byte>, s: string, rest: seq<Byte>)
    ensures ReadString(bs) == Got(s, rest) <==> FitsString(s) && bs == WriteString(s) + rest
  {
    hide ReadInteger, WriteInteger;
    if ReadString(bs) == Got(s, rest) {
      var r := ReadInteger(bs);
      ReadIntegerExactly(bs, r.value, r.rest);
      assert r.rest == r.rest[..r.value] + r.rest[r.value..];
      assert Encode(s) == r.rest[..r.value];
      assert bs == WriteString(s) + rest;
    }
    if FitsString(s) && bs == WriteString(s) + rest { ReadStringBack(s, rest); }
  }

  lemma {:induction false} StringsFromExactly(n: nat, bs: seq<Byte>, ss: seq<string>, rest: seq<Byte>)
    ensures StringsFrom(n, bs) == Got(ss, rest) <==> |ss| == n && (forall s :: s in ss ==> FitsString(s)) && bs == StringBytes(ss) + rest
  {
    hide ReadString, WriteString, FitsString;
    if StringsFrom(n, bs) == Got(ss, rest) {
      if n > 0 {
        var r := ReadString(bs);
        ReadStringExactly(bs, r.value, r.rest);
        var more := StringsFrom(n - 1, r.rest);
        StringsFromExactly(n - 1, r.rest, more.value, more.rest);
        assert ss[0] == r.value && ss[1..] == more.value;
        assert bs == WriteString(ss[0]) + (StringBytes(ss[1..]) + rest);
      } else {
        assert bs == StringBytes(ss) + rest;
      }
    }
    if |ss| == n && (forall s :: s in ss ==> FitsString(s)) && bs == StringBytes(ss) + rest { StringsBack(ss, rest); }
  }

  lemma ReadStringsExactly(bs: seq<Byte>, ss: seq<string>, rest: seq<Byte>)
    ensures ReadStrings(bs) == Got(ss, rest) <==> FitsStrings(ss) && bs == WriteStrings(ss) + rest
  {
    hide ReadInteger, WriteInteger, StringsFrom, StringBytes, FitsString;
    if ReadStrings(bs) == Got(ss, rest) {
      var r := ReadInteger(bs);
      ReadIntegerExactly(bs, r.value, r.rest);
      StringsFromExactly(r.value, r.rest, ss, rest);
      assert bs == WriteStrings(ss) + rest;
    }
    if FitsStrings(ss) && bs == WriteStrings(ss) + rest { ReadStringsBack(ss, rest); }
  }

  // ----- instructions -----

  lemma PlainExactly(op: Byte, rest: seq<Byte>)
    requires Plain(op, rest).Got?
    ensures var i := Plain(op, rest).value; Plain(op, rest).rest == rest && Opcode(i) == op && Text(i) == [] && !i.CONST?
  {
  }

  lemma WithTextExactly(op: Byte, s: string)
    requires TakesText(op)
    ensures Opcode(WithText(op, s)) == op && Text(WithText(op, s)) == [s] && !WithText(op, s).CONST?
  {
  }

  /** An instruction is read if and only if it has been written. */
  lemma ReadInstructionExactly(bs: seq<Byte>, i: Instruction, rest: seq<Byte>)
    ensures ReadInstruction(bs) == Got(i, rest) <==> FitsInstruction(i) && bs == WriteInstruction(i) + rest
  {
    hide ReadSigned, WriteSigned, ReadString, WriteString, Plain, WithText, TakesText, Opcode, Text, FitsString;
    if ReadInstruction(bs) == Got(i, rest) {
      assert bs == [bs[0]] + bs[1..];
      if bs[0] == 1 {
        ConstantRead(bs, i.n, rest);
      } else if TakesText(bs[0]) {
        var r := ReadString(bs[1..]);
        ReadStringExactly(bs[1..], r.value, r.rest);
        WithTextExactly(bs[0], r.value);
      } else {
        PlainExactly(bs[0], bs[1..]);
      }
    }
    if FitsInstruction(i) && bs == WriteInstruction(i) + rest { ReadInstructionBack(i, rest); }
  }

  lemma ConstantRead(bs: seq<Byte>, n: int, rest: seq<Byte>)
    requires bs != [] && bs[0] == 1 && ReadSigned(bs[1..]) == Got(n, rest)
    ensures FitsInstruction(CONST(n)) && bs == WriteInstruction(CONST(n)) + rest
  {
    hide ReadSigned, WriteSigned;
    ReadSignedExactly(bs[1..], n, rest);
    assert bs == [bs[0]] + bs[1..];
  }

  lemma {:induction false} CodeFromExactly(n: nat, bs: seq<Byte>, code: seq<Instruction>, rest: seq<Byte>)
    ensures CodeFrom(n, bs) == Got(code, rest) <==> |code| == n && (forall i :: i in code ==> FitsInstruction(i)) && bs == CodeBytes(code) + rest
  {
    hide ReadInstruction, WriteInstruction, FitsInstruction;
    if CodeFrom(n, bs) == Got(code, rest) {
      if n > 0 {
        var r := ReadInstruction(bs);
        ReadInstructionExactly(bs, r.value, r.rest);
        var more := CodeFrom(n - 1, r.rest);
        CodeFromExactly(n - 1, r.rest, more.value, more.rest);
        assert code[0] == r.value && code[1..] == more.value;
        assert bs == WriteInstruction(code[0]) + (CodeBytes(code[1..]) + rest);
      } else {
        assert bs == CodeBytes(code) + rest;
      }
    }
    if |code| == n && (forall i :: i in code ==> FitsInstruction(i)) && bs == CodeBytes(code) + rest { CodeBack(code, rest); }
  }

  lemma ReadCodeExactly(bs: seq<Byte>, code: seq<Instruction>, rest: seq<Byte>)
    ensures ReadCode(bs) == Got(code, rest) <==> FitsCode(code) && bs == WriteCode(code) + rest
  {
    hide ReadInteger, WriteInteger, CodeFrom, CodeBytes, FitsInstruction;
    if ReadCode(bs) == Got(code, rest) {
      var r := ReadInteger(bs);
      ReadIntegerExactly(bs, r.value, r.rest);
      CodeFromExactly(r.value, r.rest, code, rest);
      assert bs == WriteCode(code) + rest;
    }
    if FitsCode(code) && bs == WriteCode(code) + rest { ReadCodeBack(code, rest); }
  }

  // ----- blocks, methods, programs -----

  /** The blocks that have been read, with those of a repeated name that the map has dropped. */
  lemma {:induction false} BlocksOf(n: nat, m: CodeMap, bs: seq<Byte>) returns (blocks: seq<CodeBlock>)
    requires BlocksFrom(n, m, bs).Got?
    ensures |blocks| == n && (forall b :: b in blocks ==> FitsBlock(b))
    ensures var r := BlocksFrom(n, m, bs); bs == BlockBytes(blocks) + r.rest && r.value == EmplaceAll(m, blocks)
  {
    hide ReadString, WriteString, ReadCode, WriteCode, FitsString, FitsCode, Emplace;
    if n == 0 {
      blocks := [];
      assert bs == BlockBytes(blocks) + bs;
    } else {
      var name := ReadString(bs);
      ReadStringExactly(bs, name.value, name.rest);
      var code := ReadCode(name.rest);
      ReadCodeExactly(name.rest, code.value, code.rest);
      var more := BlocksOf(n - 1, Emplace(m, name.value, code.value), code.rest);
      var first := CodeBlock(name.value, code.value);
      blocks := [first] + more;
      assert blocks[1..] == more && blocks[0] == first;
      var rest := BlocksFrom(n, m, bs).rest;
      assert bs == WriteString(first.name) + WriteCode(first.code) + (BlockBytes(more) + rest);
    }
  }

  lemma MethodOf(name: string, bs: seq<Byte>) returns (m: MethodCode)
    requires FitsString(name) && ReadMethod(bs).Got?
    ensures m.name == name && FitsMethod(m) && bs == MethodBody(m) + ReadMethod(bs).rest && ReadMethod(bs).value == Raw(m)
  {
    hide ReadInteger, WriteInteger, ReadStrings, WriteStrings, BlocksFrom, BlockBytes, FitsString, FitsStrings, FitsBlock, AsMap;
    var variables := ReadStrings(bs);
    ReadStringsExactly(bs, variables.value, variables.rest);
    var fields := ReadStrings(variables.rest);
    ReadStringsExactly(variables.rest, fields.value, fields.rest);
    var n := ReadInteger(fields.rest);
    ReadIntegerExactly(fields.rest, n.value, n.rest);
    var blocks := BlocksOf(n.value, map[], n.rest);
    NothingEmplaced(blocks);
    m := MethodCode(name, variables.value, fields.value, blocks);
    var rest := ReadMethod(bs).rest;
    assert bs == WriteStrings(m.variables) + (WriteStrings(m.fields) + (WriteInteger(|blocks|) + (BlockBytes(blocks) + rest)));
    assert bs == MethodBody(m) + rest;
  }

  lemma {:induction false} MethodsOf(n: nat, methods: map<string, RawMethod>, bs: seq<Byte>) returns (ms: seq<MethodCode>)
    requires MethodsFrom(n, methods, bs).Got?
    ensures |ms| == n && (forall m :: m in ms ==> FitsMethod(m))
    ensures var r := MethodsFrom(n, methods, bs); bs == MethodBytes(ms) + r.rest && r.value == EmplaceMethods(methods, ms)
  {
    hide ReadString, WriteString, ReadMethod, MethodBody, FitsString, FitsMethod, Emplace, Raw;
    if n == 0 {
      ms := [];
      assert bs == MethodBytes(ms) + bs;
    } else {
      var name := ReadString(bs);
      ReadStringExactly(bs, name.value, name.rest);
      var first := MethodOf(name.value, name.rest);
      var body := ReadMethod(name.rest);
      var more := MethodsOf(n - 1, Emplace(methods, name.value, body.value), body.rest);
      ms := [first] + more;
      assert ms[1..] == more && ms[0] == first;
      var rest := MethodsFrom(n, methods, bs).rest;
      assert bs == WriteString(first.name) + MethodBody(first) + (MethodBytes(more) + rest);
    }
  }

  /** The reader's result for a written program. */
  function Loads(ms: seq<MethodCode>): RawProgram
    requires ms != []
  {
    RawProgram(ms[0].name, Raw(ms[0]), EmplaceMethods(map[], ms[1..]))
  }

  /** Whatever is read has been written: the stream starts with a file of some program, the result is what that program reads
      as, and the rest is what follows. All other streams are refused. */
  lemma ReadProgramExactly(bs: seq<Byte>, p: RawProgram, rest: seq<Byte>)
    ensures ReadProgram(bs) == Got(p, rest) <==> exists ms :: FitsProgram(ms) && bs == WriteProgram(ms) + rest && p == Loads(ms)
  {
    hide WriteProgram, ReadProgram, FitsMethod, Loads;
    if ReadProgram(bs) == Got(p, rest) {
      var ms := ProgramOf(bs);
    }
    if ms :| FitsProgram(ms) && bs == WriteProgram(ms) + rest && p == Loads(ms) { Read(ms, rest); }
  }

  lemma Read(ms: seq<MethodCode>, rest: seq<Byte>)
    requires FitsProgram(ms)
    ensures ReadProgram(WriteProgram(ms) + rest) == Got(Loads(ms), rest)
  {
    ReadProgramBack(ms, rest);
  }

  lemma ProgramOf(bs: seq<Byte>) returns (ms: seq<MethodCode>)
    requires ReadProgram(bs).Got?
    ensures FitsProgram(ms) && bs == WriteProgram(ms) + ReadProgram(bs).rest && ReadProgram(bs).value == Loads(ms)
  {
    hide ReadInteger, WriteInteger, ReadString, WriteString, ReadMethod, MethodBody, MethodsFrom, MethodBytes, FitsString, FitsMethod, Raw, EmplaceMethods;
    var name := ReadString(bs);
    ReadStringExactly(bs, name.value, name.rest);
    var main := MethodOf(name.value, name.rest);
    var body := ReadMethod(name.rest);
    var n := ReadInteger(body.rest);
    ReadIntegerExactly(body.rest, n.value, n.rest);
    var others := MethodsOf(n.value, map[], n.rest);
    ms := [main] + others;
    assert ms[0] == main && ms[1..] == others;
    var rest := ReadProgram(bs).rest;
    assert bs == WriteString(main.name) + (MethodBody(main) + (WriteInteger(|others|) + (MethodBytes(others) + rest)));
    assert WriteMethod(main) == WriteString(main.name) + MethodBody(main);
    assert bs == WriteProgram(ms) + rest;
  }
}

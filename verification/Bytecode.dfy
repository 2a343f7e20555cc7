/** Bytecode and its lowering from three-address code (src/ir/Tac.cpp, src/ir/ArithmeticTac.cpp,
    src/ir/LogicalTac.cpp, src/bytecode). */
module Bytecode {
  import opened Ast
  import opened Tac

  /** In the order of src/bytecode/Opcode.hpp, with the parameter an opcode carries. */
  datatype Instruction =
    | LOAD(x: string)
    | CONST(n: int)
    | STORE(x: string)
    | ADD | SUB | MUL | DIV | LT | GT | EQ | AND | OR | NOT
    | JMP(target: string)
    | CJMP(target: string)
    | CALL(name: string)
    | RET | PRINT | STOP
    | NEW(className: string)
    | NEW_ARRAY | ARRAY_LOAD | ARRAY_STORE | ARRAY_LENGTH

  datatype CodeBlock = CodeBlock(name: string, code: seq<Instruction>)

  datatype MethodCode = MethodCode(name: string, variables: seq<string>, fields: seq<string>, blocks: seq<CodeBlock>)

  function Push(o: Operand): Instruction {
    match o
    case Imm(n) => CONST(n)
    case Name(x) => LOAD(x)
  }

  function Operator(op: BinaryOp): Instruction {
    match op
    case Add => ADD
    case Subtract => SUB
    case Multiply => MUL
    case Divide => DIV
    case LessThan => LT
    case GreaterThan => GT
    case EqualTo => EQ
  }

  /** generateBytecode of each instruction. */
  function Lower(t: Instr): seq<Instruction> {
    match t
    case Bin(op, x, l, r) => [Push(l), Push(r), Operator(op), STORE(x)]
    case NotTac(x, r) => [Push(r), NOT, STORE(x)]
    case Copy(r, x) => [Push(r), STORE(x)]
    case ArrayCopy(x, i, r) => [LOAD(x), Push(i), Push(r), ARRAY_STORE]
    case Access(x, l, r) => [Push(l), Push(r), ARRAY_LOAD, STORE(x)]
    case Length(x, r) => [Push(r), ARRAY_LENGTH, STORE(x)]
    case New(x, c) => [NEW(c), STORE(x)]
    case NewArr(x, r) => [Push(r), NEW_ARRAY, STORE(x)]
    case Jump(l) => [JMP(l)]
    case CondJump(l, o) => [Push(o), CJMP(l)]
    case Invoke(x, o, m, _) => [Push(o), CALL(m), STORE(x)]
    case Param(r) => [Push(r)]
    case Return(r) => [Push(r), RET]
    case PrintTac(r) => [Push(r), PRINT]
  }

  function LowerAll(ts: seq<Instr>): seq<Instruction> {
    if ts == [] then [] else LowerAll(ts[..|ts| - 1]) + Lower(ts[|ts| - 1])
  }

  function StoreAll(names: seq<string>): seq<Instruction> {
    seq(|names|, i requires 0 <= i < |names| => STORE(names[i]))
  }

  function Reversed(names: seq<string>): seq<string> {
    seq(|names|, i requires 0 <= i < |names| => names[|names| - 1 - i])
  }

  /** What a root starts with: the receiver, except in main, then the parameters from the last to the first. */
  function Prologue(isMain: bool, params: seq<string>): seq<Instruction> {
    (if isMain then [] else [STORE("this")]) + StoreAll(Reversed(params))
  }

  /** The code of instruction i stands right behind the code of those before it. */
  lemma {:induction false} LowerAllAt(ts: seq<Instr>, i: nat)
    requires i < |ts|
    ensures LowerAll(ts[..i + 1]) == LowerAll(ts[..i]) + Lower(ts[i])
    ensures LowerAll(ts[..i + 1]) <= LowerAll(ts)
    decreases |ts|
  {
    assert ts[..i + 1][..i] == ts[..i];
    if i + 1 < |ts| {
      var front := ts[..|ts| - 1];
      LowerAllAt(front, i);
      assert front[..i + 1] == ts[..i + 1];
    } else {
      assert ts[..i + 1] == ts;
    }
  }

  // ----- the builder of a block -----

  /** Instructions are appended one by one (src/bytecode/BytecodeMethodBlock.cpp). */
  class BytecodeMethodBlock {
    const name: string
    var instructions: seq<Instruction>

    constructor (name: string)
      ensures this.name == name && instructions == []
    {
      this.name, instructions := name, [];
    }

    method Add(i: Instruction)
      modifies this
      ensures instructions == old(instructions) + [i]
    {
      instructions := instructions + [i];
    }

    method PushOperand(o: Operand)
      modifies this
      ensures instructions == old(instructions) + [Push(o)]
    {
      match o
      case Imm(n) => Add(CONST(n));
      case Name(x) => Add(LOAD(x));
    }

    /** generateBytecode of an instruction appends exactly its code. */
    method Generate(t: Instr)
      modifies this
      ensures instructions == old(instructions) + Lower(t)
    {
      match t
      case Bin(op, x, l, r) =>
        PushOperand(l);
        PushOperand(r);
        Add(Operator(op));
        Add(STORE(x));
      case NotTac(x, r) =>
        PushOperand(r);
        Add(NOT);
        Add(STORE(x));
      case Copy(r, x) =>
        PushOperand(r);
        Add(STORE(x));
      case ArrayCopy(x, i, r) =>
        PushOperand(Name(x));
        PushOperand(i);
        PushOperand(r);
        Add(ARRAY_STORE);
      case Access(x, l, r) =>
        PushOperand(l);
        PushOperand(r);
        Add(ARRAY_LOAD);
        Add(STORE(x));
      case Length(x, r) =>
        PushOperand(r);
        Add(ARRAY_LENGTH);
        Add(STORE(x));
      case New(x, c) =>
        Add(NEW(c));
        Add(STORE(x));
      case NewArr(x, r) =>
        PushOperand(r);
        Add(NEW_ARRAY);
        Add(STORE(x));
      case Jump(l) => Add(JMP(l));
      case CondJump(l, o) =>
        PushOperand(o);
        Add(CJMP(l));
      case Invoke(x, o, m, _) =>
        PushOperand(o);
        Add(CALL(m));
        Add(STORE(x));
      case Param(r) => PushOperand(r);
      case Return(r) =>
        PushOperand(r);
        Add(RET);
      case PrintTac(r) =>
        PushOperand(r);
        Add(PRINT);
    }
  }
}

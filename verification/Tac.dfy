/** Three-address code (src/ir/Tac.hpp). Each constructor names the slot the source uses for result, label,
    class name or operand; in ArrayCopy the array's name sits in the result slot. */
module Tac {
  import opened Ast

  datatype Operand = Name(x: string) | Imm(n: int)

  datatype Instr =
    | Bin(op: BinaryOp, result: string, lhs: Operand, rhs: Operand)
    | NotTac(result: string, rhs: Operand)
    | Copy(rhs: Operand, result: string)
    | ArrayCopy(arr: string, index: Operand, rhs: Operand)
    | Access(result: string, lhs: Operand, rhs: Operand)
    | Length(result: string, rhs: Operand)
    | New(result: string, className: string)
    | NewArr(result: string, rhs: Operand)
    | Jump(target: string)
    | CondJump(target: string, cond: Operand)
    | Invoke(result: string, receiver: Operand, target: string, argCount: nat)
    | Param(rhs: Operand)
    | Return(rhs: Operand)
    | PrintTac(rhs: Operand)

  /** Computes a value and stores it in its result, with no transfer of control. */
  predicate Defines(t: Instr) {
    t.Bin? || t.NotTac? || t.Copy? || t.Access? || t.Length? || t.New? || t.NewArr?
  }

  /** Falls through to the next instruction unless it faults. */
  predicate Straight(t: Instr) {
    !t.Jump? && !t.CondJump? && !t.Return?
  }

  predicate AllStraight(ts: seq<Instr>) {
    forall i :: 0 <= i < |ts| ==> Straight(ts[i])
  }

  /** The blocks an instruction may jump to. */
  function Labels(t: Instr): set<string> {
    if t.Jump? || t.CondJump? then {t.target} else {}
  }

  function LabelsOf(ts: seq<Instr>): set<string> {
    set t, x | t in ts && x in Labels(t) :: x
  }

  predicate OperandInInt(o: Operand) {
    o.Imm? ==> InInt(o.n)
  }

  /** The immediates of an instruction are C++ ints. */
  predicate ImmediatesInInt(t: Instr) {
    match t
    case Bin(_, _, l, r) => OperandInInt(l) && OperandInInt(r)
    case Access(_, l, r) => OperandInInt(l) && OperandInInt(r)
    case ArrayCopy(_, i, r) => OperandInInt(i) && OperandInInt(r)
    case NotTac(_, r) => OperandInInt(r)
    case Copy(r, _) => OperandInInt(r)
    case Length(_, r) => OperandInInt(r)
    case NewArr(_, r) => OperandInInt(r)
    case Param(r) => OperandInInt(r)
    case Return(r) => OperandInInt(r)
    case PrintTac(r) => OperandInInt(r)
    case CondJump(_, o) => OperandInInt(o)
    case Invoke(_, o, _, _) => OperandInInt(o)
    case New(_, _) => true
    case Jump(_) => true
  }
}

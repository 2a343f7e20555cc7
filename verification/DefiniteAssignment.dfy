/** Every temporary is defined before it is used, on every path of control from a method's root; both passes keep
    this. The proof gives each block the set of temporaries that are defined whenever it is entered. */
module DefiniteAssignment {
  import opened Ast
  import opened Tac
  import opened Names
  import opened FlowGraph
  import opened IrGeneration
  import opened GraphGrowth
  import opened ProgramGeneration
  import Source

  type Entry = map<string, set<string>>

  function OperandUses(o: Operand): set<string> {
    if o.Name? && Generated(o.x) then {o.x} else {}
  }

  /** The temporaries an instruction reads. */
  function Uses(t: Instr): set<string> {
    match t
    case Bin(_, _, l, r) => OperandUses(l) + OperandUses(r)
    case Access(_, l, r) => OperandUses(l) + OperandUses(r)
    case ArrayCopy(x, i, r) => OperandUses(Name(x)) + OperandUses(i) + OperandUses(r)
    case NotTac(_, r) => OperandUses(r)
    case Copy(r, _) => OperandUses(r)
    case Length(_, r) => OperandUses(r)
    case NewArr(_, r) => OperandUses(r)
    case Param(r) => OperandUses(r)
    case Return(r) => OperandUses(r)
    case PrintTac(r) => OperandUses(r)
    case CondJump(_, o) => OperandUses(o)
    case Invoke(_, o, _, _) => OperandUses(o)
    case New(_, _) => {}
    case Jump(_) => {}
  }

  function Sets(t: Instr): set<string> {
    if Defines(t) || t.Invoke? then {t.result} else {}
  }

  function SetsOf(ts: seq<Instr>): set<string> {
    if ts == [] then {} else SetsOf(ts[..|ts| - 1]) + Sets(ts[|ts| - 1])
  }

  /** With the temporaries in d defined, t may run: it reads only those, and whatever it leads to asks for no more. */
  ghost predicate MayRun(t: Instr, d: set<string>, at: Entry) {
    Uses(t) <= d && forall l {:trigger at[l]} {:trigger l in Labels(t)} :: l in Labels(t) ==> l in at && at[l] <= d
  }

  /** The block entered with at[l] defined. */
  ghost predicate BlockFine(ts: seq<Instr>, d: set<string>, at: Entry) {
    forall i {:trigger ts[i]} :: 0 <= i < |ts| ==> MayRun(ts[i], d + SetsOf(ts[..i]), at)
  }

  ghost predicate Certified(blocks: map<string, BBlock>, at: Entry) {
    at.Keys == blocks.Keys && forall l {:trigger blocks[l]} {:trigger at[l]} :: l in blocks ==> BlockFine(blocks[l].instrs, at[l], at)
  }

  /** What is defined at the point where g will add its next instruction. */
  function DefinedAt(g: Graph, at: Entry): set<string>
    requires g.current in at
  {
    at[g.current] + SetsOf(Here(g).instrs)
  }

  /** at' says the same as at about older blocks. */
  ghost predicate Extends(at: Entry, at': Entry) {
    forall l {:trigger at'[l]} {:trigger l in at} :: l in at ==> l in at' && at'[l] == at[l]
  }

  ghost predicate Sound(g: Graph, at: Entry) {
    Ready(g) && at.Keys == g.blocks.Keys && Certified(g.blocks, at)
  }

  /** From g to h the certificate has been extended and nothing defined has been lost. */
  ghost predicate Defining(g: Graph, at: Entry, h: Graph, at': Entry) {
    Sound(g, at) && Sound(h, at') && Extends(at, at') && DefinedAt(g, at) <= DefinedAt(h, at')
  }

  lemma DefiningTrans(g: Graph, at: Entry, h: Graph, at1: Entry, k: Graph, at2: Entry)
    requires Defining(g, at, h, at1) && Defining(h, at1, k, at2)
    ensures Defining(g, at, k, at2)
  {
    hide BlockFine, SetsOf;
  }

  lemma DefiningRefl(g: Graph, at: Entry)
    requires Sound(g, at)
    ensures Defining(g, at, g, at)
  {
  }

  // ----- the elementary steps -----

  lemma AddFine(g: Graph, at: Entry, t: Instr)
    requires Sound(g, at) && MayRun(t, DefinedAt(g, at), at)
    ensures var h := AddInstr(g, t);
            Sound(h, at) && DefinedAt(h, at) == DefinedAt(g, at) + Sets(t)
  {
    hide Uses, MayRun;
    var ts := Here(g).instrs;
    var ts' := ts + [t];
    assert ts'[..|ts|] == ts;
    forall i | 0 <= i < |ts'|
      ensures MayRun(ts'[i], at[g.current] + SetsOf(ts'[..i]), at)
    {
      if i < |ts| {
        assert ts'[..i] == ts[..i];
        assert MayRun(ts[i], at[g.current] + SetsOf(ts[..i]), at);
      }
    }
    AddInstrTouches(g, t);
  }

  /** A new block may ask for anything that is already asked of no one: nothing leads to it yet. */
  lemma NewBlockFine(g: Graph, at: Entry, d: set<string>)
    requires Sound(g, at)
    ensures var (h, l) := NewBlock(g);
            && l !in g.blocks && h.current == g.current && Here(h) == Here(g) && l in h.blocks && h.blocks[l] == EMPTY_BLOCK
            && Sound(h, at[l := d]) && Extends(at, at[l := d]) && DefinedAt(h, at[l := d]) == DefinedAt(g, at)
  {
    hide MayRun;
    var (h, l) := NewBlock(g);
    NewBlockTouches(g);
    var at' := at[l := d];
    forall m | m in h.blocks
      ensures BlockFine(h.blocks[m].instrs, at'[m], at')
    {
      if m != l { StillFine(g.blocks[m].instrs, at[m], at, at'); }
    }
  }

  lemma StillFine(ts: seq<Instr>, d: set<string>, at: Entry, at': Entry)
    requires BlockFine(ts, d, at) && Extends(at, at')
    ensures BlockFine(ts, d, at')
  {
    hide Uses, Labels, SetsOf;
    forall i | 0 <= i < |ts|
      ensures MayRun(ts[i], d + SetsOf(ts[..i]), at')
    {
      assert MayRun(ts[i], d + SetsOf(ts[..i]), at);
    }
  }

  /** Temporaries, exits and moves do not concern the certificate. */
  lemma QuietFine(g: Graph, at: Entry, h: Graph)
    requires Sound(g, at) && Ready(h) && h.blocks.Keys == g.blocks.Keys
    requires forall l :: l in g.blocks ==> h.blocks[l].instrs == g.blocks[l].instrs
    ensures Sound(h, at) && DefinedAt(h, at) == at[h.current] + SetsOf(g.blocks[h.current].instrs)
  {
  }

  lemma TempFine(g: Graph, at: Entry)
    requires Sound(g, at)
    ensures Sound(NewTemp(g).0, at) && DefinedAt(NewTemp(g).0, at) == DefinedAt(g, at)
  {
    NewTempGrows(g);
    QuietFine(g, at, NewTemp(g).0);
  }

  /** A value is computed into a new temporary. */
  lemma ResultFine(g: Graph, at: Entry, h: Graph, at': Entry, t: Instr)
    requires Defining(g, at, h, at') && Uses(t) <= DefinedAt(h, at') && Labels(t) == {}
    requires (Defines(t) || t.Invoke?) && t.result == NewTemp(h).1
    ensures var k := AddInstr(NewTemp(h).0, t);
            Defining(g, at, k, at') && OperandUses(Name(t.result)) <= DefinedAt(k, at')
  {
    hide Uses, Certified, SetsOf;
    TempFine(h, at');
    AddFine(NewTemp(h).0, at', t);
  }

  lemma JumpFine(g: Graph, at: Entry, l: string)
    requires Sound(g, at) && l in at && at[l] <= DefinedAt(g, at)
    ensures Sound(AddJump(g, l), at) && AddJump(g, l).current == g.current
    ensures forall m :: m in g.blocks && m != g.current ==> m in AddJump(g, l).blocks && AddJump(g, l).blocks[m] == g.blocks[m]
  {
    hide SetsOf, BlockFine;
    AddFine(g, at, Jump(l));
    AddJumpTouches(g, l);
    QuietFine(AddInstr(g, Jump(l)), at, AddJump(g, l));
  }

  lemma BranchFine(g: Graph, at: Entry, cond: Operand, yes: string, no: string)
    requires Sound(g, at) && OperandUses(cond) <= DefinedAt(g, at)
    requires yes in at && no in at && at[yes] <= DefinedAt(g, at) && at[no] <= DefinedAt(g, at)
    ensures Sound(AddBranch(g, cond, yes, no), at)
    ensures forall l :: l in g.blocks && l != g.current ==> l in AddBranch(g, cond, yes, no).blocks && AddBranch(g, cond, yes, no).blocks[l] == g.blocks[l]
    ensures AddBranch(g, cond, yes, no).current == g.current
  {
    hide SetsOf, BlockFine;
    AddFine(g, at, CondJump(no, cond));
    AddInstrTouches(g, CondJump(no, cond));
    AddFine(AddInstr(g, CondJump(no, cond)), at, Jump(yes));
  }

  lemma ExitsFine(g: Graph, at: Entry, l: string, t: string, f: string)
    requires Sound(g, at) && l in g.blocks
    ensures Sound(SetExits(g, l, t, f), at) && Sound(SetTrueExit(g, l, t), at)
    ensures forall m :: m in g.blocks ==> SetExits(g, l, t, f).blocks[m].instrs == g.blocks[m].instrs && SetTrueExit(g, l, t).blocks[m].instrs == g.blocks[m].instrs
  {
    SetExitsTouches(g, l, t, f);
    QuietFine(g, at, SetExits(g, l, t, f));
    QuietFine(g, at, SetTrueExit(g, l, t));
  }

  lemma MoveFine(g: Graph, at: Entry, l: string)
    requires Sound(g, at) && l in g.blocks && g.blocks[l].instrs == []
    ensures Sound(MoveTo(g, l), at) && DefinedAt(MoveTo(g, l), at) == at[l]
  {
    QuietFine(g, at, MoveTo(g, l));
  }

  // ----- expressions -----

  /** Source identifiers are no temporaries. */
  predicate Plain(e: Expr) {
    match e
    case Ident(x) => !Generated(x)
    case Binary(_, l, r) => Plain(l) && Plain(r)
    case Not(x) => Plain(x)
    case And(l, r) => Plain(l) && Plain(r)
    case Or(l, r) => Plain(l) && Plain(r)
    case NewArray(n) => Plain(n)
    case ArrayAccess(a, i) => Plain(a) && Plain(i)
    case ArrayLength(a) => Plain(a)
    case Call(r, _, _, args) => Plain(r) && forall a | a in args :: Plain(a)
    case _ => true
  }

  predicate PlainStmt(s: Stmt) {
    match s
    case Assign(_, e) => Plain(e)
    case ArrayAssign(x, i, e) => !Generated(x) && Plain(i) && Plain(e)
    case Print(e) => Plain(e)
    case If(c, t) => Plain(c) && PlainStmt(t)
    case IfElse(c, t, f) => Plain(c) && PlainStmt(t) && PlainStmt(f)
    case While(c, b) => Plain(c) && PlainStmt(b)
    case Block(ss) => forall s | s in ss :: PlainStmt(s)
  }

  lemma {:induction false} ExprDefines(e: Expr, g: Graph, at: Entry) returns (at': Entry)
    requires Plain(e) && Sound(g, at)
    ensures Defining(g, at, GenExpr(e, g).0, at') && OperandUses(GenExpr(e, g).1) <= DefinedAt(GenExpr(e, g).0, at')
    decreases e
  {
    hide Certified, SetsOf, AddInstr, NewTemp, OpenShortCircuit, CloseShortCircuit, Fresh;
    at' := at;
    match e
    case Binary(op, l, r) =>
      at' := PairDefines(e, l, r, g, at);
      var (g1, a) := GenExpr(l, g);
      var (g2, b) := GenExpr(r, g1);
      ResultFine(g, at, g2, at', Bin(op, NewTemp(g2).1, a, b));
    case ArrayAccess(l, r) =>
      at' := PairDefines(e, l, r, g, at);
      var (g1, a) := GenExpr(l, g);
      var (g2, b) := GenExpr(r, g1);
      ResultFine(g, at, g2, at', Access(NewTemp(g2).1, a, b));
    case Not(r) =>
      at' := ExprDefines(r, g, at);
      var (g1, a) := GenExpr(r, g);
      ResultFine(g, at, g1, at', NotTac(NewTemp(g1).1, a));
    case NewObject(c) =>
      DefiningRefl(g, at);
      ResultFine(g, at, g, at, New(NewTemp(g).1, c));
    case NewArray(n) => at' := TempFirstDefines(e, n, g, at);
    case ArrayLength(n) => at' := TempFirstDefines(e, n, g, at);
    case And(l, r) => at' := ShortDefines(e, l, r, true, g, at);
    case Or(l, r) => at' := ShortDefines(e, l, r, false, g, at);
    case Call(r, c, m, args) =>
      var at1 := ExprDefines(r, g, at);
      var (g1, a) := GenExpr(r, g);
      at' := ArgsDefine(e, 0, g1, at1);
      assert args[0..] == args;
      var g2 := GenArgs(args, g1);
      DefiningTrans(g, at, g1, at1, g2, at');
      ResultFine(g, at, g2, at', Invoke(NewTemp(g2).1, a, RootName(c, m), |args|));
    case Ident(_) => DefiningRefl(g, at);
    case This => DefiningRefl(g, at);
    case IntLit(_) => DefiningRefl(g, at);
    case BoolLit(_) => DefiningRefl(g, at);
  }

  lemma PairDefines(e: Expr, l: Expr, r: Expr, g: Graph, at: Entry) returns (at': Entry)
    requires Plain(l) && Plain(r) && Sound(g, at) && l < e && r < e
    ensures var (g1, a) := GenExpr(l, g);
            var (g2, b) := GenExpr(r, g1);
            Defining(g, at, g2, at') && OperandUses(a) <= DefinedAt(g2, at') && OperandUses(b) <= DefinedAt(g2, at')
    decreases e, 0
  {
    hide Certified, SetsOf, GenExpr, Plain;
    var at1 := ExprDefines(l, g, at);
    at' := ExprDefines(r, GenExpr(l, g).0, at1);
    DefiningTrans(g, at, GenExpr(l, g).0, at1, GenExpr(r, GenExpr(l, g).0).0, at');
  }

  /** The temporary is taken before the operand is evaluated. */
  lemma TempFirstDefines(e: Expr, n: Expr, g: Graph, at: Entry) returns (at': Entry)
    requires Plain(n) && Sound(g, at) && (e == NewArray(n) || e == ArrayLength(n))
    ensures Defining(g, at, GenExpr(e, g).0, at') && OperandUses(GenExpr(e, g).1) <= DefinedAt(GenExpr(e, g).0, at')
    decreases e, 0
  {
    hide Certified, SetsOf, AddInstr, Plain;
    var (g1, t) := NewTemp(g);
    TempFine(g, at);
    at' := ExprDefines(n, g1, at);
    var (g2, a) := GenExpr(n, g1);
    AddFine(g2, at', if e.NewArray? then NewArr(t, a) else Length(t, a));
  }

  lemma {:induction false} ArgsDefine(call: Expr, k: nat, g: Graph, at: Entry) returns (at': Entry)
    requires call.Call? && k <= |call.args| && (forall a | a in call.args :: Plain(a)) && Sound(g, at)
    ensures Defining(g, at, GenArgs(call.args[k..], g), at')
    decreases call, 0, |call.args| - k
  {
    hide Certified, SetsOf, AddInstr, Plain, GenExpr;
    at' := at;
    var args := call.args[k..];
    if args == [] {
      DefiningRefl(g, at);
    } else {
      assert args[0] == call.args[k] && args[1..] == call.args[k + 1..];
      var at1 := ExprDefines(call.args[k], g, at);
      var (g1, a) := GenExpr(args[0], g);
      AddFine(g1, at1, Param(a));
      var g2 := AddInstr(g1, Param(a));
      at' := ArgsDefine(call, k + 1, g2, at1);
      DefiningTrans(g, at, g1, at1, g2, at1);
      DefiningTrans(g, at, g2, at1, GenArgs(args[1..], g2), at');
    }
  }

  /** The blocks of an `&&` or `||` ask for what is defined after the left operand, the joining one also for the
      result, which both arms set. */
  function ArmsEntry(at: Entry, arms: Arms, d: set<string>): Entry {
    at[arms.rhs := d][arms.yes := d][arms.no := d][arms.join := d + {arms.result}]
  }

  ghost predicate ArmsWait(h: Graph, arms: Arms) {
    ArmsIn(arms, h) && h.blocks[arms.rhs] == h.blocks[arms.yes] == h.blocks[arms.no] == h.blocks[arms.join] == EMPTY_BLOCK
  }

  lemma ArmsFine(g: Graph, at: Entry, d: set<string>)
    requires Sound(g, at)
    ensures var (h, arms) := NewArms(g);
            && Sound(h, ArmsEntry(at, arms, d)) && Extends(at, ArmsEntry(at, arms, d)) && ArmsWait(h, arms)
            && h.current == g.current && DefinedAt(h, ArmsEntry(at, arms, d)) == DefinedAt(g, at) && h.current !in {arms.rhs, arms.yes, arms.no, arms.join}
  {
    hide Certified, SetsOf;
    var (g1, t) := NewTemp(g);
    TempFine(g, at);
    NewBlockFine(g1, at, d);
    var (g2, rhs) := NewBlock(g1);
    NewBlockFine(g2, at[rhs := d], d);
    var (g3, yes) := NewBlock(g2);
    NewBlockFine(g3, at[rhs := d][yes := d], d);
    var (g4, no) := NewBlock(g3);
    NewBlockFine(g4, at[rhs := d][yes := d][no := d], d + {t});
    NewArmsTouches(g);
  }

  lemma OpenDefines(g: Graph, at: Entry, isAnd: bool, a: Operand)
    requires Sound(g, at) && OperandUses(a) <= DefinedAt(g, at)
    ensures var (h, arms) := OpenShortCircuit(g, isAnd, a);
            var at' := ArmsEntry(at, arms, DefinedAt(g, at));
            Sound(h, at') && Extends(at, at') && ArmsWait(h, arms) && h.current == arms.rhs && DefinedAt(h, at') == DefinedAt(g, at)
  {
    hide Certified, SetsOf, AddBranch, SetExits, NewArms, Fresh;
    var (g1, arms) := NewArms(g);
    var at' := ArmsEntry(at, arms, DefinedAt(g, at));
    ArmsFine(g, at, DefinedAt(g, at));
    var (onTrue, onFalse) := if isAnd then (arms.rhs, arms.no) else (arms.yes, arms.rhs);
    BranchFine(g1, at', a, onTrue, onFalse);
    var g2 := AddBranch(g1, a, onTrue, onFalse);
    ExitsFine(g2, at', g1.current, onTrue, onFalse);
    var g3 := SetExits(g2, g1.current, onTrue, onFalse);
    SetExitsKeep(g2, g1.current, onTrue, onFalse);
    MoveFine(g3, at', arms.rhs);
  }

  lemma SetExitsKeep(g: Graph, l: string, t: string, f: string)
    ensures forall m :: m in g.blocks && m != l ==> m in SetExits(g, l, t, f).blocks && SetExits(g, l, t, f).blocks[m] == g.blocks[m]
  {
  }

  lemma GiveDefines(g: Graph, at: Entry, value: int, arm: string, arms: Arms)
    requires Sound(g, at) && arm in g.blocks && g.blocks[arm].instrs == [] && arms.join in at && at[arms.join] <= at[arm] + {arms.result}
    ensures Sound(GiveResult(g, value, arm, arms), at)
    ensures forall m :: m in g.blocks && m != arm ==> m in GiveResult(g, value, arm, arms).blocks && GiveResult(g, value, arm, arms).blocks[m] == g.blocks[m]
  {
    hide Certified, SetsOf, AddJump, Fresh;
    MoveFine(g, at, arm);
    var g1 := MoveTo(g, arm);
    AddFine(g1, at, Copy(Imm(value), arms.result));
    JumpFine(AddInstr(g1, Copy(Imm(value), arms.result)), at, arms.join);
  }

  lemma CloseDefines(h: Graph, at: Entry, b: Operand, arms: Arms, d: set<string>)
    requires Sound(h, at) && OperandUses(b) <= DefinedAt(h, at) && d <= DefinedAt(h, at) && ArmsIn(arms, h)
    requires at[arms.yes] == d && at[arms.no] == d && at[arms.join] == d + {arms.result} && h.current !in {arms.yes, arms.no, arms.join}
    requires h.blocks[arms.yes] == h.blocks[arms.no] == h.blocks[arms.join] == EMPTY_BLOCK
    ensures Sound(CloseShortCircuit(h, b, arms), at) && CloseShortCircuit(h, b, arms).current == arms.join
    ensures DefinedAt(CloseShortCircuit(h, b, arms), at) == d + {arms.result}
  {
    hide Certified, SetsOf, AddBranch, SetExits, GiveResult, Fresh;
    BranchFine(h, at, b, arms.yes, arms.no);
    var k0 := AddBranch(h, b, arms.yes, arms.no);
    BranchKeys(h, b, arms.yes, arms.no);
    ExitsFine(k0, at, arms.rhs, arms.yes, arms.no);
    SetExitsKeep(k0, arms.rhs, arms.yes, arms.no);
    var k1 := SetExits(k0, arms.rhs, arms.yes, arms.no);
    GiveDefines(k1, at, 1, arms.yes, arms);
    var k2 := GiveResult(k1, 1, arms.yes, arms);
    GiveDefines(k2, at, 0, arms.no, arms);
    MoveFine(GiveResult(k2, 0, arms.no, arms), at, arms.join);
  }

  lemma BranchKeys(g: Graph, cond: Operand, yes: string, no: string)
    ensures g.blocks.Keys <= AddBranch(g, cond, yes, no).blocks.Keys
  {
  }

  lemma ShortDefines(e: Expr, l: Expr, r: Expr, isAnd: bool, g: Graph, at: Entry) returns (at': Entry)
    requires Plain(l) && Plain(r) && Sound(g, at) && e == (if isAnd then And(l, r) else Or(l, r))
    ensures Defining(g, at, GenExpr(e, g).0, at') && OperandUses(GenExpr(e, g).1) <= DefinedAt(GenExpr(e, g).0, at')
    decreases e, 0
  {
    hide Certified, SetsOf, OpenShortCircuit, CloseShortCircuit, Ready, Plain, GenExpr, ArmsEntry, DefinedAt, Extends, Touches;
    ShortIs(l, r, isAnd, g);
    var at1 := ExprDefines(l, g, at);
    var (g1, a) := GenExpr(l, g);
    CurrentIn(g1, at1);
    var d := DefinedAt(g1, at1);
    OpenDefines(g1, at1, isAnd, a);
    var (g2, arms) := OpenShortCircuit(g1, isAnd, a);
    var at2 := ArmsEntry(at1, arms, d);
    at' := ExprDefines(r, g2, at2);
    var (g3, b) := GenExpr(r, g2);
    ExprGrows(r, g2) by { SoundReady(g2, at2); }
    ArmsUntouched(g2, g3, arms);
    ArmsAsked(at1, arms, d, at', g2);
    CloseDefines(g3, at', b, arms, d);
    var k := CloseShortCircuit(g3, b, arms);
    DefiningTrans(g, at, g1, at1, g2, at2);
    DefiningTrans(g, at, g2, at2, g3, at');
    JoinDefines(g, at, g3, at', k, d, arms);
  }

  lemma CurrentIn(g: Graph, at: Entry)
    requires Sound(g, at)
    ensures g.current in at
  {
  }

  lemma SoundReady(g: Graph, at: Entry)
    requires Sound(g, at)
    ensures Ready(g)
  {
  }

  lemma ArmsAsked(at: Entry, arms: Arms, d: set<string>, at': Entry, g: Graph)
    requires Extends(ArmsEntry(at, arms, d), at') && ArmsIn(arms, g)
    ensures arms.yes in at' && arms.no in at' && arms.join in at'
    ensures at'[arms.yes] == d && at'[arms.no] == d && at'[arms.join] == d + {arms.result}
  {
    assert arms.yes in ArmsEntry(at, arms, d) && arms.no in ArmsEntry(at, arms, d) && arms.join in ArmsEntry(at, arms, d);
  }

  lemma JoinDefines(g: Graph, at: Entry, h: Graph, at': Entry, k: Graph, d: set<string>, arms: Arms)
    requires Defining(g, at, h, at') && DefinedAt(g, at) <= d && Sound(k, at') && DefinedAt(k, at') == d + {arms.result}
    ensures Defining(g, at, k, at') && OperandUses(Name(arms.result)) <= DefinedAt(k, at')
  {
    hide Certified, SetsOf, Ready;
  }

  lemma ArmsUntouched(g: Graph, h: Graph, arms: Arms)
    requires ArmsWait(g, arms) && g.current == arms.rhs && Grows(g, h)
    ensures ArmsIn(arms, h) && h.current !in {arms.yes, arms.no, arms.join}
    ensures h.blocks[arms.yes] == h.blocks[arms.no] == h.blocks[arms.join] == EMPTY_BLOCK
  {
  }

  lemma ShortIs(l: Expr, r: Expr, isAnd: bool, g: Graph)
    ensures var (g1, a) := GenExpr(l, g);
            var (g2, arms) := OpenShortCircuit(g1, isAnd, a);
            var (g3, b) := GenExpr(r, g2);
            GenExpr(if isAnd then And(l, r) else Or(l, r), g) == (CloseShortCircuit(g3, b, arms), Name(arms.result))
  {
    hide OpenShortCircuit, CloseShortCircuit, NewTemp, AddInstr, GenArgs;
  }

  // ----- statements -----

  /** x is still empty and asks for d. */
  ghost predicate Waits(g: Graph, at: Entry, x: string, d: set<string>) {
    x in g.blocks && g.blocks[x].instrs == [] && x in at && at[x] == d
  }

  /** What waits in g, its current block and x excepted, waits in h. */
  ghost predicate KeepsWaiting(g: Graph, at: Entry, h: Graph, at': Entry, d: set<string>, x: string) {
    forall l {:trigger Waits(h, at', l, d)} :: Waits(g, at, l, d) && l != g.current && l != x ==> Waits(h, at', l, d) && l != h.current
  }

  lemma GrownWaits(g: Graph, at: Entry, h: Graph, at': Entry, d: set<string>)
    requires Grows(g, h) && Extends(at, at')
    ensures KeepsWaiting(g, at, h, at', d, g.current)
  {
  }

  /** A condition that starts at h, and its branch to two waiting blocks. */
  lemma TestDefines(c: Expr, h: Graph, at: Entry, yes: string, no: string, d: set<string>) returns (at': Entry)
    requires Plain(c) && Sound(h, at) && d <= DefinedAt(h, at) && Waits(h, at, yes, d) && Waits(h, at, no, d) && h.current !in {yes, no}
    ensures var (k, a) := GenExpr(c, h);
            var b := AddBranch(k, a, yes, no);
            Sound(b, at') && Extends(at, at') && k.current in b.blocks && KeepsWaiting(h, at, b, at', d, h.current)
  {
    hide Certified, SetsOf, GenExpr, Plain, AddBranch, Touches, Fresh;
    at' := ExprDefines(c, h, at);
    var (k, a) := GenExpr(c, h);
    ExprGrows(c, h);
    GrownWaits(h, at, k, at', d);
    assert Waits(k, at', yes, d) && Waits(k, at', no, d);
    BranchFine(k, at', a, yes, no);
    BranchKeys(k, a, yes, no);
    var b := AddBranch(k, a, yes, no);
    forall l | Waits(h, at, l, d) && l != h.current
      ensures Waits(b, at', l, d) && l != b.current
    {
      assert Waits(k, at', l, d);
    }
  }

  /** An arm that starts in the waiting block from, and its jump to a block that asks for d. */
  lemma ArmDefines(whole: Stmt, s: Stmt, h: Graph, at: Entry, from: string, l: string, d: set<string>) returns (at': Entry)
    requires s < whole && PlainStmt(s) && Sound(h, at) && Waits(h, at, from, d) && l in at && at[l] == d
    ensures var k := GenStmt(s, MoveTo(h, from));
            Sound(AddJump(k, l), at') && Extends(at, at') && KeepsWaiting(MoveTo(h, from), at, AddJump(k, l), at', d, from)
    decreases whole, 0
  {
    hide Certified, SetsOf, GenStmt, PlainStmt, AddJump, Touches, Fresh;
    var m := MoveTo(h, from);
    MoveFine(h, at, from);
    at' := StmtDefines(s, m, at);
    var k := GenStmt(s, m);
    StmtGrows(s, m);
    GrownWaits(m, at, k, at', d);
    assert at'[l] == d;
    JumpFine(k, at', l);
    forall x | Waits(m, at, x, d) && x != from
      ensures Waits(AddJump(k, l), at', x, d) && x != AddJump(k, l).current
    {
      assert Waits(k, at', x, d);
    }
  }

  lemma {:induction false} StmtDefines(s: Stmt, g: Graph, at: Entry) returns (at': Entry)
    requires PlainStmt(s) && Sound(g, at)
    ensures Defining(g, at, GenStmt(s, g), at')
    decreases s
  {
    hide Certified, SetsOf, GenExpr, AddInstr, Plain, Fresh;
    match s
    case Assign(x, e) => at' := EffectDefines(e, g, at, Copy(GenExpr(e, g).1, x));
    case Print(e) => at' := EffectDefines(e, g, at, PrintTac(GenExpr(e, g).1));
    case ArrayAssign(x, index, e) =>
      at' := PairDefines(ArrayAccess(index, e), index, e, g, at);
      var (g1, i) := GenExpr(index, g);
      var (g2, a) := GenExpr(e, g1);
      AddFine(g2, at', ArrayCopy(x, i, a));
    case If(c, thn) => at' := IfDefines(c, thn, g, at);
    case IfElse(c, thn, els) => at' := IfElseDefines(c, thn, els, g, at);
    case While(c, body) => at' := WhileDefines(c, body, g, at);
    case Block(ss) =>
      at' := StmtsDefine(s, 0, g, at);
      assert ss[0..] == ss;
  }

  lemma EffectDefines(e: Expr, g: Graph, at: Entry, t: Instr) returns (at': Entry)
    requires Plain(e) && Sound(g, at) && Uses(t) == OperandUses(GenExpr(e, g).1) && Labels(t) == {}
    ensures Defining(g, at, AddInstr(GenExpr(e, g).0, t), at')
  {
    hide Certified, SetsOf, GenExpr, AddInstr, Plain, Uses;
    at' := ExprDefines(e, g, at);
    AddFine(GenExpr(e, g).0, at', t);
  }

  lemma {:induction false} StmtsDefine(whole: Stmt, k: nat, g: Graph, at: Entry) returns (at': Entry)
    requires whole.Block? && k <= |whole.stmts| && (forall s | s in whole.stmts :: PlainStmt(s)) && Sound(g, at)
    ensures Defining(g, at, GenStmts(whole.stmts[k..], g), at')
    decreases whole, 0, |whole.stmts| - k
  {
    hide Certified, SetsOf, PlainStmt, GenStmt;
    at' := at;
    var ss := whole.stmts[k..];
    if ss == [] {
      DefiningRefl(g, at);
    } else {
      assert ss[0] == whole.stmts[k] && ss[1..] == whole.stmts[k + 1..];
      var at1 := StmtDefines(whole.stmts[k], g, at);
      at' := StmtsDefine(whole, k + 1, GenStmt(ss[0], g), at1);
      DefiningTrans(g, at, GenStmt(ss[0], g), at1, GenStmts(ss[1..], GenStmt(ss[0], g)), at');
    }
  }

  /** New waiting blocks for a control statement that starts at g. */
  lemma WaitersFine(g: Graph, at: Entry)
    requires Sound(g, at)
    ensures var d := DefinedAt(g, at);
            var (g1, x) := NewBlock(g);
            var (g2, y) := NewBlock(g1);
            var (g3, z) := NewBlock(g2);
            var at2, at3 := at[x := d][y := d], at[x := d][y := d][z := d];
            && Sound(g2, at2) && Extends(at, at2) && DefinedAt(g2, at2) == d && Waits(g2, at2, x, d) && Waits(g2, at2, y, d)
            && x != y && g2.current == g.current && g.current !in {x, y}
            && Sound(g3, at3) && Extends(at, at3) && DefinedAt(g3, at3) == d && Waits(g3, at3, x, d) && Waits(g3, at3, y, d) && Waits(g3, at3, z, d)
            && z !in {x, y} && g3.current == g.current && g.current != z
  {
    hide Certified, SetsOf;
    var d := DefinedAt(g, at);
    var (g1, x) := NewBlock(g);
    NewBlockFine(g, at, d);
    var (g2, y) := NewBlock(g1);
    NewBlockFine(g1, at[x := d], d);
    NewBlockFine(g2, at[x := d][y := d], d);
  }

  lemma EndDefines(g: Graph, at: Entry, k: Graph, at': Entry, join: string, d: set<string>)
    requires Sound(g, at) && d == DefinedAt(g, at) && Sound(k, at') && Extends(at, at') && Waits(k, at', join, d)
    ensures Defining(g, at, MoveTo(k, join), at')
  {
    MoveFine(k, at', join);
  }

  lemma ConditionDefines(k: Graph, at: Entry, a: Operand, yes: string, no: string)
    requires Sound(AddBranch(k, a, yes, no), at) && k.current in AddBranch(k, a, yes, no).blocks
    ensures Sound(CloseCondition(k, a, yes, no), at) && CloseCondition(k, a, yes, no).current == AddBranch(k, a, yes, no).current
    ensures forall x, d :: Waits(AddBranch(k, a, yes, no), at, x, d) ==> Waits(CloseCondition(k, a, yes, no), at, x, d)
  {
    hide Certified, SetsOf, AddBranch;
    ExitsFine(AddBranch(k, a, yes, no), at, k.current, yes, no);
  }

  lemma ExtendsOn(a: Entry, b: Entry, c: Entry)
    requires Extends(a, b) && Extends(b, c)
    ensures Extends(a, c)
  {
  }

  lemma IfDefines(c: Expr, thn: Stmt, g: Graph, at: Entry) returns (at': Entry)
    requires Plain(c) && PlainStmt(thn) && Sound(g, at)
    ensures Defining(g, at, GenStmt(If(c, thn), g), at')
    decreases If(c, thn), 1
  {
    hide Sound, Extends, SetsOf, GenExpr, Plain, PlainStmt, AddBranch, SetExits, CloseCondition, AddJump, Defining, NewBlock, Waits;
    var d := DefinedAt(g, at) by { CurrentIn(g, at); }
    WaitersFine(g, at);
    var (g1, yes) := NewBlock(g);
    var (g2, join) := NewBlock(g1);
    var at2 := at[yes := d][join := d];
    var at3 := TestDefines(c, g2, at2, yes, join, d);
    var (g3, a) := GenExpr(c, g2);
    ConditionDefines(g3, at3, a, yes, join);
    var g4 := CloseCondition(g3, a, yes, join);
    assert Waits(g4, at3, yes, d) && Waits(g4, at3, join, d);
    WaitAsks(g4, at3, join, d);
    at' := ArmDefines(If(c, thn), thn, g4, at3, yes, join, d);
    var g5 := GenStmt(thn, MoveTo(g4, yes));
    WaitStays(g4, at3, yes, join, d);
    assert Waits(AddJump(g5, join), at', join, d);
    ExtendsOn(at, at2, at3);
    ExtendsOn(at, at3, at');
    EndDefines(g, at, AddJump(g5, join), at', join, d);
    IfIs(c, thn, g);
  }

  lemma WaitAsks(g: Graph, at: Entry, x: string, d: set<string>)
    requires Waits(g, at, x, d)
    ensures x in at && at[x] == d
  {
  }

  lemma WaitStays(g: Graph, at: Entry, from: string, x: string, d: set<string>)
    requires Waits(g, at, x, d) && x != from
    ensures Waits(MoveTo(g, from), at, x, d) && x != MoveTo(g, from).current
  {
  }

  lemma IfIs(c: Expr, thn: Stmt, g: Graph)
    ensures var (g1, yes) := NewBlock(g);
            var (g2, join) := NewBlock(g1);
            var (g3, a) := GenExpr(c, g2);
            var g4 := CloseCondition(g3, a, yes, join);
            GenStmt(If(c, thn), g) == MoveTo(AddJump(GenStmt(thn, MoveTo(g4, yes)), join), join)
  {
    hide GenExpr, NewBlock, CloseCondition, AddJump;
  }

  lemma IfElseDefines(c: Expr, thn: Stmt, els: Stmt, g: Graph, at: Entry) returns (at': Entry)
    requires Plain(c) && PlainStmt(thn) && PlainStmt(els) && Sound(g, at)
    ensures Defining(g, at, GenStmt(IfElse(c, thn, els), g), at')
    decreases IfElse(c, thn, els), 1
  {
    hide Sound, Extends, SetsOf, GenExpr, Plain, PlainStmt, AddBranch, SetExits, CloseCondition, AddJump, Defining, NewBlock, Waits;
    var d := DefinedAt(g, at) by { CurrentIn(g, at); }
    WaitersFine(g, at);
    var (g1, yes) := NewBlock(g);
    var (g2, no) := NewBlock(g1);
    var (g3, join) := NewBlock(g2);
    var at3 := at[yes := d][no := d][join := d];
    var at4 := TestDefines(c, g3, at3, yes, no, d);
    var (g4, a) := GenExpr(c, g3);
    ConditionDefines(g4, at4, a, yes, no);
    var g5 := CloseCondition(g4, a, yes, no);
    assert Waits(g5, at4, yes, d) && Waits(g5, at4, no, d) && Waits(g5, at4, join, d);
    WaitAsks(g5, at4, join, d);
    var at6 := ArmDefines(IfElse(c, thn, els), thn, g5, at4, yes, join, d);
    var j := AddJump(GenStmt(thn, MoveTo(g5, yes)), join);
    WaitStays(g5, at4, yes, no, d);
    WaitStays(g5, at4, yes, join, d);
    assert Waits(j, at6, no, d) && Waits(j, at6, join, d);
    WaitAsks(j, at6, join, d);
    at' := ArmDefines(IfElse(c, thn, els), els, j, at6, no, join, d);
    var k := AddJump(GenStmt(els, MoveTo(j, no)), join);
    WaitStays(j, at6, no, join, d);
    assert Waits(k, at', join, d);
    ExtendsOn(at, at3, at4);
    ExtendsOn(at, at4, at6);
    ExtendsOn(at, at6, at');
    EndDefines(g, at, k, at', join, d);
    IfElseIs(c, thn, els, g);
  }

  lemma IfElseIs(c: Expr, thn: Stmt, els: Stmt, g: Graph)
    ensures var (g1, yes) := NewBlock(g);
            var (g2, no) := NewBlock(g1);
            var (g3, join) := NewBlock(g2);
            var (g4, a) := GenExpr(c, g3);
            var g5 := CloseCondition(g4, a, yes, no);
            var j := AddJump(GenStmt(thn, MoveTo(g5, yes)), join);
            GenStmt(IfElse(c, thn, els), g) == MoveTo(AddJump(GenStmt(els, MoveTo(j, no)), join), join)
  {
    hide GenExpr, NewBlock, CloseCondition, AddJump, GenStmts, OpenLoop, AddInstr, AddBranch, SetExits, MoveTo;
  }

  /** The three blocks of a loop, entered at its header. */
  lemma LoopDefines(g: Graph, at: Entry)
    requires Sound(g, at)
    ensures var d := DefinedAt(g, at);
            var (h, loop) := OpenLoop(g);
            var at' := at[loop.header := d][loop.body := d][loop.join := d];
            && Sound(h, at') && Extends(at, at') && h.current == loop.header && DefinedAt(h, at') == d
            && Waits(h, at', loop.body, d) && Waits(h, at', loop.join, d) && loop.body != loop.join && loop.header !in {loop.body, loop.join}
            && loop.header in at' && at'[loop.header] == d
  {
    hide Certified, SetsOf, AddJump, Fresh;
    var d := DefinedAt(g, at);
    var (g1, header) := NewBlock(g);
    NewBlockFine(g, at, d);
    var (g2, body) := NewBlock(g1);
    NewBlockFine(g1, at[header := d], d);
    var g3 := SetTrueExit(g2, body, header);
    ExitsFine(g2, at[header := d][body := d], body, header, header);
    LoopExitKeeps(g2, at[header := d][body := d], body, header);
    var (g4, join) := NewBlock(g3);
    NewBlockFine(g3, at[header := d][body := d], d);
    var at' := at[header := d][body := d][join := d];
    JumpFine(g4, at', header);
    MoveFine(AddJump(g4, header), at', header);
  }

  lemma LoopExitKeeps(g: Graph, at: Entry, body: string, header: string)
    requires Sound(g, at) && body in g.blocks && body != g.current && g.blocks[body] == EMPTY_BLOCK
    ensures var h := SetTrueExit(g, body, header);
            h.current == g.current && Here(h) == Here(g) && h.blocks.Keys == g.blocks.Keys && h.blocks[body].instrs == []
            && forall l :: l in g.blocks && l != body ==> h.blocks[l] == g.blocks[l]
  {
  }

  lemma WhileDefines(c: Expr, body: Stmt, g: Graph, at: Entry) returns (at': Entry)
    requires Plain(c) && PlainStmt(body) && Sound(g, at)
    ensures Defining(g, at, GenStmt(While(c, body), g), at')
    decreases While(c, body), 1
  {
    hide Sound, Extends, SetsOf, GenExpr, Plain, PlainStmt, AddBranch, SetExits, OpenLoop, AddJump, Defining, NewBlock, Waits;
    var d := DefinedAt(g, at) by { CurrentIn(g, at); }
    LoopDefines(g, at);
    var (g1, loop) := OpenLoop(g);
    var at1 := at[loop.header := d][loop.body := d][loop.join := d];
    var at2 := TestDefines(c, g1, at1, loop.body, loop.join, d);
    var (g2, a) := GenExpr(c, g1);
    var g3 := AddBranch(g2, a, loop.body, loop.join);
    assert Waits(g3, at2, loop.body, d) && Waits(g3, at2, loop.join, d);
    ExtendsAt(at1, at2, loop.header);
    var at4 := ArmDefines(While(c, body), body, g3, at2, loop.body, loop.header, d);
    var g5 := AddJump(GenStmt(body, MoveTo(g3, loop.body)), loop.header);
    WaitStays(g3, at2, loop.body, loop.join, d);
    assert Waits(g5, at4, loop.join, d);
    LoopCloseDefines(g3, at2, g5, at4, g2.current, loop, d);
    at' := at4;
    ExtendsOn(at, at1, at2);
    ExtendsOn(at, at2, at4);
    EndDefines(g, at, SetExits(g5, g2.current, loop.body, loop.join), at4, loop.join, d);
    WhileIs(c, body, g);
  }

  lemma ExtendsAt(at: Entry, at': Entry, x: string)
    requires Extends(at, at') && x in at
    ensures x in at' && at'[x] == at[x]
  {
  }

  /** The exits of the condition's block are set last. */
  lemma LoopCloseDefines(g: Graph, at: Entry, k: Graph, at': Entry, cond: string, loop: Loop, d: set<string>)
    requires Sound(g, at) && cond in g.blocks && Sound(k, at') && Extends(at, at') && Waits(k, at', loop.join, d)
    ensures var h := SetExits(k, cond, loop.body, loop.join);
            Sound(h, at') && Waits(h, at', loop.join, d)
  {
    hide Certified, SetsOf;
    assert cond in at;
    ExitsFine(k, at', cond, loop.body, loop.join);
  }

  lemma WhileIs(c: Expr, body: Stmt, g: Graph)
    ensures var (g1, loop) := OpenLoop(g);
            var (g2, a) := GenExpr(c, g1);
            var g3 := AddBranch(g2, a, loop.body, loop.join);
            var g5 := AddJump(GenStmt(body, MoveTo(g3, loop.body)), loop.header);
            GenStmt(While(c, body), g) == MoveTo(SetExits(g5, g2.current, loop.body, loop.join), loop.join)
  {
    hide GenExpr, OpenLoop, AddBranch, SetExits, AddJump;
  }
}

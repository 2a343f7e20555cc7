/** Folding of conditional jumps with a constant condition in one block
    (src/ir/passes/ConditionalJumpFoldingPass.cpp), and its correctness: a branch becomes one jump, so runs
    are preserved up to the erased jump. */
module JumpFolding {
  import opened Tac
  import opened Machine
  import opened FlowGraph
  import opened IrMachine
  import opened WellFormed

  predicate ConstantBranch(t: Instr) {
    t.CondJump? && t.cond.Imm?
  }

  function NextJump(ts: seq<Instr>, i: nat): Exit {
    if i + 1 < |ts| && ts[i + 1].Jump? then To(ts[i + 1].target) else None
  }

  /** The label to jump to: for a false condition the branch's own, otherwise that of the jump that follows,
      otherwise that of the true exit. */
  function TargetLabel(b: BBlock, i: nat): Exit
    requires i < |b.instrs| && ConstantBranch(b.instrs[i])
  {
    if b.instrs[i].cond.n == 0 then To(b.instrs[i].target)
    else if NextJump(b.instrs, i).To? then NextJump(b.instrs, i)
    else b.trueExit
  }

  /** The block behind that label: the matching exit if there is one, otherwise a block of that name among
      the collected ones. */
  function TargetBlock(b: BBlock, value: int, target: string, names: set<string>): Exit {
    if value == 0 && b.falseExit.To? then b.falseExit
    else if value != 0 && b.trueExit.To? then b.trueExit
    else if target in names then To(target)
    else None
  }

  /** Target label and target block, both None when the branch is left alone. */
  function Decide(b: BBlock, i: nat, names: set<string>): (Exit, Exit)
    requires i < |b.instrs| && ConstantBranch(b.instrs[i])
  {
    match TargetLabel(b, i)
    case None => (None, None)
    case To(l) =>
      var block := TargetBlock(b, b.instrs[i].cond.n, l, names);
      if block.To? then (To(l), block) else (None, None)
  }

  function ApplyFold(b: BBlock, i: nat, target: string, block: string): BBlock
    requires i < |b.instrs|
  {
    var ts := b.instrs[i := Jump(target)];
    BBlock(if NextJump(ts, i).To? then ts[..i + 1] + ts[i + 2..] else ts, To(block), None)
  }

  function FoldFrom(b: BBlock, i: nat, names: set<string>): BBlock
    decreases |b.instrs| - i
  {
    if i >= |b.instrs| then b
    else if ConstantBranch(b.instrs[i]) && Decide(b, i, names).0.To? then
      var d := Decide(b, i, names);
      FoldFrom(ApplyFold(b, i, d.0.name, d.1.name), i + 1, names)
    else FoldFrom(b, i + 1, names)
  }

  function FoldJumps(b: BBlock, names: set<string>): BBlock {
    FoldFrom(b, 0, names)
  }

  /** r is b up to some place where a conditional jump of b has become a jump. */
  ghost predicate Turned(b: BBlock, r: BBlock) {
    exists k :: TurnedAt(b, r, k)
  }

  ghost predicate TurnedAt(b: BBlock, r: BBlock, k: int) {
    0 <= k < |b.instrs| && k < |r.instrs| && b.instrs[..k] == r.instrs[..k] && b.instrs[k].CondJump? && r.instrs[k].Jump?
  }

  lemma TurnedTrans(a: BBlock, b: BBlock, c: BBlock)
    requires Turned(a, b) && Turned(b, c)
    ensures Turned(a, c)
  {
    var i, j :| TurnedAt(a, b, i) && TurnedAt(b, c, j);
    var k := if i < j then i else j;
    assert a.instrs[..k] == a.instrs[..i][..k] == b.instrs[..i][..k] == b.instrs[..k];
    assert c.instrs[..k] == c.instrs[..j][..k] == b.instrs[..j][..k];
    if i < j { assert c.instrs[i] == c.instrs[..j][i] == b.instrs[..j][i]; }
    if j < i { assert a.instrs[j] == a.instrs[..i][j] == b.instrs[..i][j]; }
    assert TurnedAt(a, c, k);
  }

  /** The loop of the pass over a block's instruction vector: the result tells exactly whether the block
      changed. */
  method ProcessBlock(b: BBlock, names: set<string>) returns (r: BBlock, changed: bool)
    ensures r == FoldJumps(b, names)
    ensures if changed then Turned(b, r) else r == b
  {
    hide Decide, ApplyFold, Turned;
    r, changed := b, false;
    var i := 0;
    while i < |r.instrs|
      invariant i <= |r.instrs|
      invariant FoldFrom(r, i, names) == FoldJumps(b, names)
      invariant if changed then Turned(b, r) else r == b
      decreases |r.instrs| - i
    {
      if ConstantBranch(r.instrs[i]) {
        var (target, block) := Decide(r, i, names);
        if target.To? {
          AppliedFold(r, i, names);
          if changed { TurnedTrans(b, r, ApplyFold(r, i, target.name, block.name)); }
          r := ApplyFold(r, i, target.name, block.name);
          changed := true;
        }
      }
      i := i + 1;
    }
  }

  lemma AppliedFold(b: BBlock, i: nat, names: set<string>)
    requires i < |b.instrs| && ConstantBranch(b.instrs[i]) && Decide(b, i, names).0.To?
    ensures var d := Decide(b, i, names);
            && d.1.To?
            && var b1 := ApplyFold(b, i, d.0.name, d.1.name);
            && i < |b1.instrs| <= |b.instrs| && Turned(b, b1)
  {
    var d := Decide(b, i, names);
    assert TurnedAt(b, ApplyFold(b, i, d.0.name, d.1.name), i);
  }

  lemma TurnedDiffers(b: BBlock, r: BBlock)
    requires Turned(b, r)
    ensures r != b
  {
  }

  // ----- what it does to a block whose exits agree with its labels -----

  function ChosenTarget(ts: seq<Instr>): string
    requires EndsInBranch(ts) && ts[|ts| - 2].cond.Imm?
  {
    if ts[|ts| - 2].cond.n == 0 then ts[|ts| - 2].target else ts[|ts| - 1].target
  }

  predicate HasConstantBranch(ts: seq<Instr>) {
    EndsInBranch(ts) && ts[|ts| - 2].cond.Imm?
  }

  function SimplifiedCode(ts: seq<Instr>): seq<Instr> {
    if HasConstantBranch(ts) then ts[..|ts| - 2] + [Jump(ChosenTarget(ts))] else ts
  }

  function Simplified(b: BBlock): BBlock {
    if HasConstantBranch(b.instrs) then BBlock(SimplifiedCode(b.instrs), To(ChosenTarget(b.instrs)), None) else b
  }

  lemma {:induction false} SkipBranchless(b: BBlock, i: nat, k: nat, names: set<string>)
    requires i <= k <= |b.instrs| && forall j :: i <= j < k ==> !ConstantBranch(b.instrs[j])
    ensures FoldFrom(b, i, names) == FoldFrom(b, k, names)
    decreases k - i
  {
    if i < k { SkipBranchless(b, i + 1, k, names); }
  }

  lemma BranchlessBlock(b: BBlock)
    requires Shaped(b) && !HasConstantBranch(b.instrs)
    ensures forall j :: 0 <= j < |b.instrs| ==> !ConstantBranch(b.instrs[j])
  {
    var ts, n := b.instrs, |b.instrs|;
    forall j | 0 <= j < n
      ensures !ConstantBranch(ts[j])
    {
      if EndsInBranch(ts) {
        if j < n - 2 { assert ts[j] == ts[..n - 2][j]; }
      } else if EndsInJump(ts) || EndsInReturn(ts) {
        if j < n - 1 { assert ts[j] == ts[..n - 1][j]; }
      }
    }
  }

  lemma BranchBlock(b: BBlock)
    requires Shaped(b) && HasConstantBranch(b.instrs)
    ensures forall j :: 0 <= j < |b.instrs| - 2 ==> !ConstantBranch(b.instrs[j])
  {
    var ts, n := b.instrs, |b.instrs|;
    forall j | 0 <= j < n - 2
      ensures !ConstantBranch(ts[j])
    {
      assert ts[j] == ts[..n - 2][j];
    }
  }

  /** The exit on the side that a final branch on a constant takes. */
  function ChosenExit(b: BBlock): Exit
    requires HasConstantBranch(b.instrs)
  {
    if b.instrs[|b.instrs| - 2].cond.n == 0 then b.falseExit else b.trueExit
  }

  /** Whatever the exits of a block say, the loop replaces exactly a final branch on a constant by a jump to the arm it
      takes, and the true exit becomes the exit on that side, or if there is none the block of that name among the
      collected ones; without either the block is left alone. */
  lemma FoldJumpsShaped(b: BBlock, names: set<string>)
    requires Shaped(b)
    ensures var r := FoldJumps(b, names);
            if HasConstantBranch(b.instrs) && (ChosenExit(b).To? || ChosenTarget(b.instrs) in names) then
              && r.instrs == SimplifiedCode(b.instrs) && r.falseExit == None
              && r.trueExit == (if ChosenExit(b).To? then ChosenExit(b) else To(ChosenTarget(b.instrs)))
            else r == b
  {
    var ts, n := b.instrs, |b.instrs|;
    if HasConstantBranch(ts) {
      BranchBlock(b);
      SkipBranchless(b, 0, n - 2, names);
      var d := Decide(b, n - 2, names);
      if d.0.To? {
        assert d.0 == To(ChosenTarget(ts));
        var b1 := ApplyFold(b, n - 2, d.0.name, d.1.name);
        var ts1 := ts[n - 2 := Jump(d.0.name)];
        assert ts1[..n - 1] + ts1[n..] == ts[..n - 2] + [Jump(d.0.name)];
        assert b1.instrs == SimplifiedCode(ts);
        assert FoldFrom(b1, n - 1, names) == b1;
      } else {
        assert FoldFrom(b, n - 1, names) == b;
      }
    } else {
      BranchlessBlock(b);
      SkipBranchless(b, 0, n, names);
    }
  }

  lemma SimplifiedShape(b: BBlock, r: BBlock)
    requires Shaped(b) && HasConstantBranch(b.instrs) && r.instrs == SimplifiedCode(b.instrs)
    ensures Shaped(r)
  {
    var ts, body := r.instrs, b.instrs[..|b.instrs| - 2];
    assert ts[..|ts| - 1] == body;
    assert |ts| >= 2 ==> ts[|ts| - 2] == body[|ts| - 2];
  }

  /** When exits agree with labels the loop replaces exactly a final branch on a constant, by a jump to the
      arm it takes, and points the true exit there; the collected names are never consulted. */
  lemma FoldJumpsSimplifies(b: BBlock, names: set<string>)
    requires Agrees(b)
    ensures FoldJumps(b, names) == Simplified(b)
  {
    var ts, n := b.instrs, |b.instrs|;
    AgreesShaped(b);
    if HasConstantBranch(ts) {
      BranchBlock(b);
      SkipBranchless(b, 0, n - 2, names);
      var d := Decide(b, n - 2, names);
      assert d == (To(ChosenTarget(ts)), To(ChosenTarget(ts)));
      var b1 := ApplyFold(b, n - 2, ChosenTarget(ts), ChosenTarget(ts));
      var ts1 := ts[n - 2 := Jump(ChosenTarget(ts))];
      assert ts1[..n - 1] + ts1[n..] == ts[..n - 2] + [Jump(ChosenTarget(ts))];
      assert b1 == Simplified(b);
      assert FoldFrom(b1, n - 1, names) == b1;
    } else {
      BranchlessBlock(b);
      SkipBranchless(b, 0, n, names);
    }
  }

  /** Simplifying keeps agreement, only drops exits, leaves no constant branch and is idempotent. */
  lemma SimplifiedAgrees(b: BBlock)
    requires Agrees(b)
    ensures Agrees(Simplified(b)) && Exits(Simplified(b)) <= Exits(b)
    ensures forall t :: t in Simplified(b).instrs ==> !ConstantBranch(t)
    ensures Simplified(Simplified(b)) == Simplified(b)
    ensures Simplified(b).instrs == SimplifiedCode(b.instrs)
  {
    hide Agrees, ConstantBranch;
    AgreesShaped(b);
    if HasConstantBranch(b.instrs) {
      SimplifiedBranch(b);
    } else {
      BranchlessBlock(b);
    }
  }

  lemma SimplifiedBranch(b: BBlock)
    requires Agrees(b) && HasConstantBranch(b.instrs)
    ensures Agrees(Simplified(b)) && !HasConstantBranch(Simplified(b).instrs) && Exits(Simplified(b)) <= Exits(b)
    ensures forall t :: t in Simplified(b).instrs ==> !ConstantBranch(t)
  {
    var ts, body := Simplified(b).instrs, b.instrs[..|b.instrs| - 2];
    assert ts[..|ts| - 1] == body;
    assert |ts| >= 2 ==> ts[|ts| - 2] == body[|ts| - 2];
  }

  // ----- runs -----

  /** Straight code up to a final branch, jump or return. */
  predicate WellEnded(ts: seq<Instr>) {
    EndsInBranch(ts) ==> AllStraight(ts[..|ts| - 2])
  }

  /** Some blocks of the code, any of them, have been simplified. */
  ghost predicate SimplifiedIn(code: map<string, seq<Instr>>, code': map<string, seq<Instr>>) {
    && code'.Keys == code.Keys
    && forall l {:trigger code'[l]} {:trigger code[l]} :: l in code ==> WellEnded(code[l]) && (code'[l] == code[l] || code'[l] == SimplifiedCode(code[l]))
  }

  ghost predicate Changed(code: map<string, seq<Instr>>, code': map<string, seq<Instr>>, l: string) {
    l in code && l in code' && code'[l] != code[l]
  }

  /** At the jump that simplifying erased. */
  ghost predicate AtErased(code: map<string, seq<Instr>>, code': map<string, seq<Instr>>, a: Activation) {
    Changed(code, code', a.block) && a.pc == |code[a.block]| - 1 && HasConstantBranch(code[a.block])
    && code[a.block][|code[a.block]| - 2].cond.n != 0
  }

  ghost predicate Early(code: map<string, seq<Instr>>, code': map<string, seq<Instr>>, a: Activation) {
    Changed(code, code', a.block) ==> a.pc <= |code[a.block]| - 2
  }

  ghost predicate AllEarly(code: map<string, seq<Instr>>, code': map<string, seq<Instr>>, callers: seq<Caller>) {
    forall i {:trigger callers[i]} :: 0 <= i < |callers| ==> Early(code, code', callers[i].act)
  }

  function Back(c: Config): Config
    requires c.Running? && c.cur.pc > 0
  {
    Running(c.cur.(pc := c.cur.pc - 1), c.callers, c.stack, c.store)
  }

  ghost predicate Waiting(code: map<string, seq<Instr>>, code': map<string, seq<Instr>>, c: Config) {
    c.Running? && AtErased(code, code', c.cur)
  }

  /** The same configuration, or the original at an erased jump and the simplified one just before it. */
  ghost predicate Same(code: map<string, seq<Instr>>, code': map<string, seq<Instr>>, c: Config, d: Config) {
    if Waiting(code, code', c) then d == Back(c) && AllEarly(code, code', c.callers)
    else d == c && (c.Running? ==> Early(code, code', c.cur) && AllEarly(code, code', c.callers))
  }

  /** One step of the simplified code is one step of the original, or two across an erased jump. */
  lemma SameStep(p: Ir, q: Ir, c: Config, d: Config)
    requires SimplifiedIn(p.code, q.code) && q == p.(code := q.code) && Same(p.code, q.code, c, d)
    ensures Same(p.code, q.code, Step(p, c), if Waiting(p.code, q.code, Step(p, c)) then d else Step(q, d))
    ensures Waiting(p.code, q.code, c) ==> !Waiting(p.code, q.code, Step(p, c))
  {
    var code, code' := p.code, q.code;
    if c.Running? && c.cur.block in code {
      if Waiting(code, code', c) {
        ErasedStep(p, q, c, d);
      } else if Changed(code, code', c.cur.block) && c.cur.pc == |code[c.cur.block]| - 2 {
        BranchStep(p, q, c);
      } else if c.cur.pc < |code[c.cur.block]| {
        BodyStep(p, q, c);
      }
    }
  }

  lemma ErasedStep(p: Ir, q: Ir, c: Config, d: Config)
    requires SimplifiedIn(p.code, q.code) && q == p.(code := q.code) && Same(p.code, q.code, c, d) && Waiting(p.code, q.code, c)
    ensures Step(q, d) == Step(p, c) && Same(p.code, q.code, Step(p, c), Step(q, d)) && !Waiting(p.code, q.code, Step(p, c))
  {
    var ts, ts' := p.code[c.cur.block], q.code[c.cur.block];
    assert ts' == SimplifiedCode(ts) && ts'[|ts'| - 1] == ts[|ts| - 1];
  }

  lemma BranchStep(p: Ir, q: Ir, c: Config)
    requires SimplifiedIn(p.code, q.code) && q == p.(code := q.code) && Same(p.code, q.code, c, c) && c.Running?
    requires Changed(p.code, q.code, c.cur.block) && c.cur.pc == |p.code[c.cur.block]| - 2
    ensures Same(p.code, q.code, Step(p, c), if Waiting(p.code, q.code, Step(p, c)) then c else Step(q, c))
  {
    var ts, ts' := p.code[c.cur.block], q.code[c.cur.block];
    assert ts' == SimplifiedCode(ts) && ts'[|ts'| - 1] == Jump(ChosenTarget(ts));
  }

  lemma BodyStep(p: Ir, q: Ir, c: Config)
    requires SimplifiedIn(p.code, q.code) && q == p.(code := q.code) && Same(p.code, q.code, c, c) && c.Running?
    requires !Waiting(p.code, q.code, c) && c.cur.block in p.code && c.cur.pc < |p.code[c.cur.block]|
    requires Changed(p.code, q.code, c.cur.block) ==> c.cur.pc < |p.code[c.cur.block]| - 2
    ensures Step(q, c) == Step(p, c) && Same(p.code, q.code, Step(p, c), Step(q, c)) && !Waiting(p.code, q.code, Step(p, c))
  {
    hide Execute, Same, WellEnded;
    var ts, ts' := p.code[c.cur.block], q.code[c.cur.block];
    var t := ts[c.cur.pc];
    assert t == ts'[c.cur.pc];
    SameCode(p, q, t, c);
    if Changed(p.code, q.code, c.cur.block) {
      assert WellEnded(ts);
      StraightBody(ts, c.cur.pc);
    }
    ExecuteMoves(p, t, c);
    MovedSame(p.code, q.code, c, Step(p, c), t);
  }

  lemma StraightBody(ts: seq<Instr>, i: nat)
    requires WellEnded(ts) && EndsInBranch(ts) && i < |ts| - 2
    ensures Straight(ts[i])
  {
    assert ts[i] == ts[..|ts| - 2][i];
  }

  lemma SameCode(p: Ir, q: Ir, t: Instr, c: Config)
    requires c.Running? && q == p.(code := q.code)
    ensures Execute(q, t, c) == Execute(p, t, c)
  {
    assert FieldTable(q) == FieldTable(p);
  }

  /** Where an instruction can lead: on, to the start of a block, into a method, or back to the caller. */
  ghost predicate Moves(c: Config, d: Config, t: Instr)
    requires c.Running?
  {
    d.Running? ==>
      || (d.callers == c.callers && d.cur.block == c.cur.block && d.cur.pc == c.cur.pc + 1)
      || (d.callers == c.callers && d.cur.pc == 0 && !Straight(t))
      || (d.cur.pc == 0 && |d.callers| > 0 && d.callers == c.callers + [d.callers[|d.callers| - 1]]
          && d.callers[|d.callers| - 1].act.block == c.cur.block && d.callers[|d.callers| - 1].act.pc == c.cur.pc + 1)
      || (t.Return? && |c.callers| > 0 && c.callers == d.callers + [c.callers[|c.callers| - 1]]
          && d.cur.block == c.callers[|c.callers| - 1].act.block && d.cur.pc == c.callers[|c.callers| - 1].act.pc)
  }

  lemma ExecuteMoves(p: Ir, t: Instr, c: Config)
    requires c.Running?
    ensures Moves(c, Execute(p, t, c), t)
  {
    hide Define, WriteArray, Machine.Enter, SetVar, Read;
    if t.Return? && c.callers != [] {
      assert c.callers == c.callers[..|c.callers| - 1] + [c.callers[|c.callers| - 1]];
    }
  }

  lemma MovedSame(code: map<string, seq<Instr>>, code': map<string, seq<Instr>>, c: Config, d: Config, t: Instr)
    requires c.Running? && Moves(c, d, t) && Same(code, code', c, c) && !Waiting(code, code', c)
    requires SimplifiedIn(code, code')
    requires Changed(code, code', c.cur.block) ==> c.cur.pc < |code[c.cur.block]| - 2 && Straight(t)
    ensures Same(code, code', d, d) && !Waiting(code, code', d)
  {
    hide WellEnded;
    if d.Running? {
      if |d.callers| > |c.callers| { assert Early(code, code', d.callers[|d.callers| - 1].act); }
      forall i | 0 <= i < |d.callers|
        ensures Early(code, code', d.callers[i].act)
      {
        if i < |c.callers| { assert Early(code, code', c.callers[i].act); }
      }
    }
  }

  /** Jump folding preserves every run: whichever blocks are simplified, after any number n of steps of the
      original the simplified code is at the same configuration, up to an erased jump, after at most n and at
      least about half as many. */
  lemma {:induction false} JumpFoldingPreservesRuns(p: Ir, q: Ir, n: nat, c: Config, d: Config) returns (m: nat)
    requires SimplifiedIn(p.code, q.code) && q == p.(code := q.code) && Same(p.code, q.code, c, d)
    ensures Same(p.code, q.code, Run(p, n, c), Run(q, m, d))
    ensures m <= n
    ensures n + (if Waiting(p.code, q.code, c) then 1 else 0) <= 2 * m + (if Waiting(p.code, q.code, Run(p, n, c)) then 1 else 0)
    decreases n
  {
    hide Same, Waiting, SimplifiedIn, Step;
    if n == 0 {
      m := 0;
    } else {
      SameStep(p, q, c, d);
      if Waiting(p.code, q.code, Step(p, c)) {
        m := JumpFoldingPreservesRuns(p, q, n - 1, Step(p, c), d);
      } else {
        m := JumpFoldingPreservesRuns(p, q, n - 1, Step(p, c), Step(q, d));
        m := m + 1;
      }
    }
  }

  /** Conversely, every configuration of the simplified code is one of the original. */
  lemma {:induction false} JumpFoldingAddsNoRuns(p: Ir, q: Ir, m: nat, c: Config, d: Config) returns (n: nat)
    requires SimplifiedIn(p.code, q.code) && q == p.(code := q.code) && Same(p.code, q.code, c, d)
    ensures Same(p.code, q.code, Run(p, n, c), Run(q, m, d))
    decreases m, !Waiting(p.code, q.code, c)
  {
    hide Same, Waiting, SimplifiedIn, Step;
    if m == 0 {
      n := 0;
    } else {
      SameStep(p, q, c, d);
      if Waiting(p.code, q.code, Step(p, c)) {
        n := JumpFoldingAddsNoRuns(p, q, m, Step(p, c), d);
      } else {
        n := JumpFoldingAddsNoRuns(p, q, m - 1, Step(p, c), Step(q, d));
      }
      n := n + 1;
    }
  }
}

/** Emission of a graph as bytecode (src/ir/CFG.cpp:12-38, 113-160, src/ir/BBlock.cpp:32-53,
    src/bytecode/BytecodeMethod.cpp:6-19). */
module Emission {
  import opened Tac
  import opened Machine
  import opened Bytecode
  import opened FlowGraph
  import opened WellFormed
  import opened Reachability
  import opened ExitTargets
  import opened PassesCorrect

  type CodeMap = map<string, seq<Instruction>>

  /** Code by block name, the first block of a name counting. */
  function AsMap(bs: seq<CodeBlock>): CodeMap {
    if bs == [] then map[]
    else
      var m, b := AsMap(bs[..|bs| - 1]), bs[|bs| - 1];
      if b.name in m then m else m[b.name := b.code]
  }

  predicate FirstAt(bs: seq<CodeBlock>, i: nat) {
    i < |bs| && forall j :: 0 <= j < i ==> bs[j].name != bs[i].name
  }

  predicate DistinctNames(bs: seq<CodeBlock>) {
    forall i, j :: 0 <= i < j < |bs| ==> bs[i].name != bs[j].name
  }

  function NamesOf(bs: seq<CodeBlock>): (ns: seq<string>)
    ensures |ns| == |bs| && forall i :: 0 <= i < |ns| ==> ns[i] == bs[i].name
  {
    seq(|bs|, i requires 0 <= i < |bs| => bs[i].name)
  }

  function CodeIn(m: CodeMap, l: string): seq<Instruction> {
    if l in m then m[l] else []
  }

  lemma {:induction false} AsMapKeys(bs: seq<CodeBlock>, l: string)
    ensures l in AsMap(bs) <==> exists i :: 0 <= i < |bs| && bs[i].name == l
  {
    if bs != [] {
      var n := |bs| - 1;
      AsMapKeys(bs[..n], l);
      if i :| 0 <= i < |bs| && bs[i].name == l {
        if i < n { assert bs[..n][i].name == l; }
      }
      if l in AsMap(bs[..n]) {
        var i :| 0 <= i < n && bs[..n][i].name == l;
        assert bs[i].name == l;
      }
    }
  }

  lemma {:induction false} AsMapFirst(bs: seq<CodeBlock>, i: nat)
    requires FirstAt(bs, i)
    ensures bs[i].name in AsMap(bs) && AsMap(bs)[bs[i].name] == bs[i].code
    decreases |bs|
  {
    var n := |bs| - 1;
    if i < n {
      assert bs[..n][i] == bs[i];
      AsMapFirst(bs[..n], i);
    } else {
      AsMapKeys(bs[..n], bs[i].name);
    }
  }

  lemma {:induction false} AsMapUpdate(bs: seq<CodeBlock>, i: nat, code: seq<Instruction>)
    requires FirstAt(bs, i)
    ensures AsMap(bs[i := CodeBlock(bs[i].name, code)]) == AsMap(bs)[bs[i].name := code]
    decreases |bs|
  {
    var n, bs' := |bs| - 1, bs[i := CodeBlock(bs[i].name, code)];
    if i < n {
      assert bs[..n][i] == bs[i] && bs'[..n] == bs[..n][i := CodeBlock(bs[i].name, code)];
      AsMapUpdate(bs[..n], i, code);
      AsMapFirst(bs[..n], i);
    } else {
      assert bs'[..n] == bs[..n];
      AsMapKeys(bs[..n], bs[i].name);
    }
  }

  /** Names with l behind them unless it is among them. */
  function Listed(ns: seq<string>, l: string): seq<string> {
    if l in ns then ns else ns + [l]
  }

  class BytecodeMethod {
    const name: string
    const variables: seq<string>
    const fields: seq<string>
    var blocks: seq<CodeBlock>

    constructor (name: string, variables: seq<string>, fields: seq<string>)
      ensures this.name == name && this.variables == variables && this.fields == fields && blocks == []
    {
      this.name, this.variables, this.fields, blocks := name, variables, fields, [];
    }

    function Value(): MethodCode
      reads this
    {
      MethodCode(name, variables, fields, blocks)
    }

    /** Finds the block of that name, or appends an empty one. */
    method GetBlock(l: string) returns (i: nat)
      modifies this`blocks
      ensures FirstAt(blocks, i) && blocks[i] == CodeBlock(l, CodeIn(AsMap(old(blocks)), l))
      ensures AsMap(blocks) == AsMap(old(blocks))[l := CodeIn(AsMap(old(blocks)), l)]
      ensures DistinctNames(old(blocks)) ==> DistinctNames(blocks)
      ensures NamesOf(blocks) == Listed(NamesOf(old(blocks)), l)
    {
      i := 0;
      while i < |blocks| && blocks[i].name != l
        invariant i <= |blocks| && forall j :: 0 <= j < i ==> blocks[j].name != l
      {
        i := i + 1;
      }
      AsMapKeys(blocks, l);
      if i == |blocks| {
        ghost var before := blocks;
        blocks := blocks + [CodeBlock(l, [])];
        assert blocks[..|before|] == before;
      } else {
        AsMapFirst(blocks, i);
      }
    }

    method Append(i: nat, code: seq<Instruction>)
      requires FirstAt(blocks, i)
      modifies this`blocks
      ensures |blocks| == |old(blocks)| && forall j :: 0 <= j < |blocks| ==> blocks[j].name == old(blocks)[j].name
      ensures NamesOf(blocks) == NamesOf(old(blocks))
      ensures blocks[i].code == old(blocks)[i].code + code
      ensures AsMap(blocks) == AsMap(old(blocks))[blocks[i].name := old(blocks)[i].code + code]
    {
      AsMapUpdate(blocks, i, blocks[i].code + code);
      blocks := blocks[i := CodeBlock(blocks[i].name, blocks[i].code + code)];
    }
  }

  function Emitting(blocks: Blocks, region: set<string>, l: string): seq<Instruction> {
    if l in region && l in blocks then LowerAll(blocks[l].instrs) else []
  }

  /** Code after the blocks of region have been emitted behind what was there. */
  ghost predicate Grown(before: CodeMap, after: CodeMap, blocks: Blocks, region: set<string>) {
    && after.Keys == before.Keys + region
    && forall l {:trigger after[l]} :: l in after ==> after[l] == CodeIn(before, l) + Emitting(blocks, region, l)
  }

  lemma GrownTwice(a: CodeMap, b: CodeMap, c: CodeMap, blocks: Blocks, r: set<string>, s: set<string>)
    requires Grown(a, b, blocks, r) && Grown(b, c, blocks, s) && r !! s
    ensures Grown(a, c, blocks, r + s)
  {
    forall l | l in c
      ensures c[l] == CodeIn(a, l) + Emitting(blocks, r + s, l)
    {
      EmittingApart(blocks, r, s, l);
      assert l in b ==> b[l] == CodeIn(a, l) + Emitting(blocks, r, l);
      Regrouped(CodeIn(a, l), Emitting(blocks, r, l), Emitting(blocks, s, l));
      hide Emitting;
      if l !in b { assert CodeIn(a, l) == [] && l !in r; }
    }
  }

  lemma EmittingApart(blocks: Blocks, r: set<string>, s: set<string>, l: string)
    requires r !! s
    ensures Emitting(blocks, r + s, l) == Emitting(blocks, r, l) + Emitting(blocks, s, l)
    ensures l !in r ==> Emitting(blocks, r, l) == []
  {
    hide LowerAll;
  }

  lemma Regrouped(x: seq<Instruction>, y: seq<Instruction>, z: seq<Instruction>)
    ensures x + y + z == x + (y + z)
  {
  }

  /** A block with a false exit has a true exit too. */
  ghost predicate TrueExitFirst(blocks: Blocks) {
    forall l {:trigger blocks[l]} :: l in blocks ==> TrueFirst(blocks[l])
  }

  lemma ReachFrom(blocks: Blocks, l: string, x: string)
    requires Closed(blocks) && l in blocks && x in Exits(blocks[l])
    ensures Reach(blocks, x) <= Reach(blocks, l)
  {
    ReachRoot(blocks, l);
    ReachStep(blocks, l, l, x);
    ReachClosed(blocks, l);
    ReachLeast(blocks, x, Reach(blocks, l));
  }

  /** From one set of flagged blocks to a larger one by walks below l: nothing is flagged that l does not
      reach, and what is flagged anew has its exits flagged, those of l itself excepted. */
  ghost predicate Walked(blocks: Blocks, l: string, before: set<string>, after: set<string>) {
    && before + {l} <= after && after - before <= Reach(blocks, l)
    && forall x {:trigger x in after} :: x in after && x !in before && x != l ==> x in blocks && Exits(blocks[x]) <= after
  }

  lemma WalkedOn(blocks: Blocks, l: string, before: set<string>, middle: set<string>, x: string, after: set<string>)
    requires Closed(blocks) && l in blocks && x in Exits(blocks[l]) && Walked(blocks, l, before, middle)
    requires x !in middle && Walked(blocks, x, middle, after) && x in blocks && Exits(blocks[x]) <= after
    ensures Walked(blocks, l, before, after)
  {
    hide Reach, Exits;
    ReachFrom(blocks, l, x);
  }

  // ----- the order of the walk -----

  function Elements(ns: seq<string>): set<string> {
    set n | n in ns
  }

  /** The blocks not seen before that a walk from l meets, in order: l, what its true exit leads to, and then what its false
      exit leads to. */
  ghost function Visit(blocks: Blocks, l: string, seen: set<string>): seq<string>
    requires Closed(blocks) && l in blocks && l !in seen
    decreases blocks.Keys - seen, 0
  {
    var b, now := blocks[l], seen + {l};
    assert (b.trueExit.To? ==> b.trueExit.name in Exits(b)) && (b.falseExit.To? ==> b.falseExit.name in Exits(b));
    var first := if b.trueExit.To? then VisitExit(blocks, b.trueExit.name, now) else [];
    var second := if b.trueExit.To? && b.falseExit.To? then VisitExit(blocks, b.falseExit.name, now + Elements(first)) else [];
    [l] + first + second
  }

  ghost function VisitExit(blocks: Blocks, x: string, seen: set<string>): seq<string>
    requires Closed(blocks) && x in blocks
    decreases blocks.Keys - seen, 1
  {
    if x in seen then [] else Visit(blocks, x, seen)
  }

  /** Block i of the order, unless it has no true exit or that exit is already there, is followed by it. */
  ghost predicate FollowedByTrueExit(blocks: Blocks, seen: set<string>, order: seq<string>, i: nat)
    requires i < |order|
  {
    order[i] in blocks && (blocks[order[i]].trueExit.To? ==>
      var x := blocks[order[i]].trueExit.name;
      x in seen || x in order[..i + 1] || (i + 1 < |order| && order[i + 1] == x))
  }

  /** BBlock::generateBytecode: the flag-guarded walk. It flags and emits, once each and behind what is there,
      blocks reachable from l, and leaves no exit of them unflagged. */
  method GenerateBlock(graph: Cfg, l: string, m: BytecodeMethod)
    requires Closed(graph.blocks) && TrueExitFirst(graph.blocks) && l in graph.blocks && l !in graph.generated
    requires graph.generated <= graph.blocks.Keys && DistinctNames(m.blocks) && Elements(NamesOf(m.blocks)) <= graph.generated + {l}
    modifies graph`generated, m`blocks
    ensures Walked(graph.blocks, l, old(graph.generated), graph.generated) && Exits(graph.blocks[l]) <= graph.generated
    ensures graph.generated <= graph.blocks.Keys && DistinctNames(m.blocks)
    ensures Grown(AsMap(old(m.blocks)), AsMap(m.blocks), graph.blocks, graph.generated - old(graph.generated))
    ensures graph.generated == old(graph.generated) + Elements(Visit(graph.blocks, l, old(graph.generated)))
    ensures NamesOf(m.blocks) == Listed(NamesOf(old(m.blocks)), l) + Visit(graph.blocks, l, old(graph.generated))[1..]
    decreases graph.blocks.Keys - graph.generated, 0
  {
    hide Reach, LowerAll, AsMap, Walked, Grown, DistinctNames, FirstAt, VisitExit, NamesOf, Listed, Elements;
    ghost var blocks, before, code, names := graph.blocks, graph.generated, AsMap(m.blocks), NamesOf(m.blocks);
    graph.generated := graph.generated + {l};
    EmitBlock(graph, l, m);
    WalkedFirst(blocks, l, before);
    assert graph.generated - before == {l};
    ListedIn(names, l, graph.generated);
    VisitIs(blocks, l, before);
    var b := graph.blocks[l];
    ghost var first: seq<string>, second: seq<string> := [], [];
    if b.trueExit.To? && !b.falseExit.To? {
      first := VisitExit(blocks, b.trueExit.name, graph.generated);
      GenerateExit(graph, l, b.trueExit.name, m, before, code);
    } else if b.trueExit.To? && b.falseExit.To? {
      first := VisitExit(blocks, b.trueExit.name, graph.generated);
      GenerateExit(graph, l, b.trueExit.name, m, before, code);
      second := VisitExit(blocks, b.falseExit.name, graph.generated);
      GenerateExit(graph, l, b.falseExit.name, m, before, code);
    }
    VisitedAll(before, names, l, first, second);
  }

  lemma ListedIn(ns: seq<string>, l: string, region: set<string>)
    requires Elements(ns) <= region && l in region
    ensures Elements(Listed(ns, l)) <= region
  {
  }

  lemma VisitIs(blocks: Blocks, l: string, seen: set<string>)
    requires Closed(blocks) && l in blocks && l !in seen && TrueExitFirst(blocks)
    ensures var b := blocks[l];
            && (b.trueExit.To? ==> b.trueExit.name in blocks) && (b.falseExit.To? ==> b.trueExit.To? && b.falseExit.name in blocks)
            && var first := if b.trueExit.To? then VisitExit(blocks, b.trueExit.name, seen + {l}) else [];
               var second := if b.falseExit.To? then VisitExit(blocks, b.falseExit.name, seen + {l} + Elements(first)) else [];
               Visit(blocks, l, seen) == [l] + first + second
  {
    hide VisitExit;
    var b := blocks[l];
    assert (b.trueExit.To? ==> b.trueExit.name in Exits(b)) && (b.falseExit.To? ==> b.falseExit.name in Exits(b));
    assert TrueFirst(b);
  }

  lemma VisitedAll(before: set<string>, names: seq<string>, l: string, first: seq<string>, second: seq<string>)
    ensures before + {l} + Elements(first) + Elements(second) == before + Elements([l] + first + second)
    ensures Listed(names, l) + first + second == Listed(names, l) + ([l] + first + second)[1..]
    ensures Elements([]) == {}
  {
    hide Listed;
    assert ([l] + first + second)[1..] == first + second;
    forall x
      ensures x in [l] + first + second <==> x == l || x in first || x in second
    {
    }
  }

  lemma WalkedFirst(blocks: Blocks, l: string, before: set<string>)
    requires l in blocks
    ensures Walked(blocks, l, before, before + {l})
  {
    ReachRoot(blocks, l);
  }

  /** The instructions of one block, in order, into the method's block of that name. */
  method EmitBlock(graph: Cfg, l: string, m: BytecodeMethod)
    requires l in graph.blocks && DistinctNames(m.blocks)
    modifies m`blocks
    ensures DistinctNames(m.blocks) && Grown(AsMap(old(m.blocks)), AsMap(m.blocks), graph.blocks, {l})
    ensures NamesOf(m.blocks) == Listed(NamesOf(old(m.blocks)), l)
  {
    hide Lower, AsMap, NamesOf, Listed;
    var at := m.GetBlock(l);
    var block := new BytecodeMethodBlock(l);
    var ts := graph.blocks[l].instrs;
    for i := 0 to |ts|
      modifies block
      invariant block.instructions == LowerAll(ts[..i])
    {
      assert ts[..i + 1][..i] == ts[..i];
      block.Generate(ts[i]);
    }
    assert ts[..|ts|] == ts;
    SameNames(m.blocks);
    m.Append(at, block.instructions);
  }

  /** One guarded recursive call: exit x of block l, which has been emitted. */
  method GenerateExit(graph: Cfg, l: string, x: string, m: BytecodeMethod, ghost before: set<string>, ghost code: CodeMap)
    requires Closed(graph.blocks) && TrueExitFirst(graph.blocks) && l in graph.blocks && x in Exits(graph.blocks[l])
    requires graph.generated <= graph.blocks.Keys && DistinctNames(m.blocks) && Elements(NamesOf(m.blocks)) <= graph.generated
    requires Walked(graph.blocks, l, before, graph.generated) && x in graph.blocks
    requires Grown(code, AsMap(m.blocks), graph.blocks, graph.generated - before)
    modifies graph`generated, m`blocks
    ensures Walked(graph.blocks, l, before, graph.generated) && x in graph.generated && old(graph.generated) <= graph.generated
    ensures graph.generated <= graph.blocks.Keys && DistinctNames(m.blocks)
    ensures Grown(code, AsMap(m.blocks), graph.blocks, graph.generated - before)
    ensures graph.generated == old(graph.generated) + Elements(VisitExit(graph.blocks, x, old(graph.generated)))
    ensures NamesOf(m.blocks) == NamesOf(old(m.blocks)) + VisitExit(graph.blocks, x, old(graph.generated))
    ensures Elements(NamesOf(m.blocks)) <= graph.generated
    decreases graph.blocks.Keys - graph.generated, 1
  {
    hide Reach, LowerAll, AsMap, Grown, DistinctNames, Exits, TrueExitFirst, NamesOf;
    ghost var names := NamesOf(m.blocks);
    VisitedNone(names);
    if x !in graph.generated {
      ghost var middle, codeThen := graph.generated, AsMap(m.blocks);
      GenerateBlock(graph, x, m);
      WalkedOn(graph.blocks, l, before, middle, x, graph.generated);
      GrownTwice(code, codeThen, AsMap(m.blocks), graph.blocks, middle - before, graph.generated - middle);
      assert middle - before + (graph.generated - middle) == graph.generated - before;
      VisitStarts(graph.blocks, x, middle);
      VisitedMore(names, x, Visit(graph.blocks, x, middle), middle);
    }
  }

  lemma VisitedNone(names: seq<string>)
    ensures Elements([]) == {} && names + [] == names
  {
  }

  lemma VisitStarts(blocks: Blocks, l: string, seen: set<string>)
    requires Closed(blocks) && l in blocks && l !in seen
    ensures Visit(blocks, l, seen) != [] && Visit(blocks, l, seen)[0] == l
  {
  }

  lemma VisitedMore(names: seq<string>, x: string, more: seq<string>, seen: set<string>)
    requires more != [] && more[0] == x && Elements(names) <= seen && x !in seen
    ensures Listed(names, x) + more[1..] == names + more
    ensures Elements(names + more) <= seen + Elements(more)
  {
    assert x in names ==> x in Elements(names);
    assert more == [x] + more[1..];
  }

  // ----- a whole program -----

  /** What the symbol table lists for a method: parameters, variables and fields. */
  datatype Scope = Scope(params: seq<string>, variables: seq<string>, fields: seq<string>)

  function ExpectedCode(blocks: Blocks, isMain: bool, root: string, params: seq<string>, l: string): seq<Instruction>
    requires l in blocks
  {
    (if l == root then Prologue(isMain, params) else []) + LowerAll(blocks[l].instrs)
    + if isMain && Exits(blocks[l]) == {} then [STOP] else []
  }

  /** The method's blocks are exactly those its root leads to, once each; each holds its lowered instructions,
      the root behind the prologue, and in main each block without exits before one STOP. */
  ghost predicate EmittedMethod(m: MethodCode, blocks: Blocks, isMain: bool, root: string, scope: Scope) {
    && m.name == root && m.variables == scope.variables && m.fields == scope.fields
    && DistinctNames(m.blocks) && AsMap(m.blocks).Keys == Reach(blocks, root)
    && forall l {:trigger AsMap(m.blocks)[l]} {:trigger l in Reach(blocks, root)} ::
         l in Reach(blocks, root) ==> l in blocks && AsMap(m.blocks)[l] == ExpectedCode(blocks, isMain, root, scope.params, l)
  }

  /** Main first, then the other roots in order. */
  ghost predicate Emitted(ms: seq<MethodCode>, blocks: Blocks, roots: seq<string>, scopes: map<string, Scope>) {
    && |ms| == |roots| && (forall r :: r in roots ==> r in scopes)
    && forall i {:trigger ms[i]} {:trigger roots[i]} :: 0 <= i < |ms| ==> EmittedMethod(ms[i], blocks, i == 0, roots[i], scopes[roots[i]])
  }

  /** As EmittedMethod, before the STOPs are added outside the blocks in stopped. */
  ghost predicate EmittedSoFar(code: CodeMap, blocks: Blocks, root: string, prologue: seq<Instruction>, stopped: set<string>) {
    && code.Keys == Reach(blocks, root)
    && forall l {:trigger code[l]} {:trigger l in Reach(blocks, root)} :: l in Reach(blocks, root) ==>
         && l in blocks
         && code[l] == (if l == root then prologue else []) + LowerAll(blocks[l].instrs)
                       + if l in stopped && Exits(blocks[l]) == {} then [STOP] else []
  }

  lemma TidyTrueExitFirst(blocks: Blocks)
    requires AllTidy(blocks)
    ensures TrueExitFirst(blocks)
  {
  }

  /** The walk from a root flags exactly what the root leads to, since the blocks of other roots are apart. */
  lemma WalkedAll(blocks: Blocks, roots: seq<string>, owner: map<string, string>, r: string, before: set<string>, after: set<string>)
    requires Owned(blocks, roots, owner) && r in roots && before <= blocks.Keys && forall x :: x in before ==> owner[x] != r
    requires Walked(blocks, r, before, after) && after <= blocks.Keys && Exits(blocks[r]) <= after
    ensures after - before == Reach(blocks, r) && after == before + Reach(blocks, r)
  {
    hide Reach;
    OwnedReach(blocks, roots, owner, r);
    var mine := after - before;
    forall l | l in mine
      ensures l in blocks && Exits(blocks[l]) <= mine
    {
      forall x | x in Exits(blocks[l])
        ensures x in mine
      {
        assert owner[x] == owner[l];
        assert owner[l] == r;
      }
    }
    ReachLeast(blocks, r, mine);
  }

  /** The root's block: the receiver's STORE outside main, then the parameters' from the last to the first. */
  method StartMethod(isMain: bool, root: string, scope: Scope) returns (m: BytecodeMethod)
    ensures fresh(m) && m.name == root && m.variables == scope.variables && m.fields == scope.fields && DistinctNames(m.blocks)
    ensures AsMap(m.blocks) == map[root := Prologue(isMain, scope.params)] && NamesOf(m.blocks) == [root]
  {
    hide AsMap, Prologue, Reversed, StoreAll, DistinctNames, NamesOf, Listed;
    m := new BytecodeMethod(root, scope.variables, scope.fields);
    NoBlocks();
    NoNames(root);
    var i := m.GetBlock(root);
    SameNames(m.blocks);
    if !isMain {
      m.Append(i, [STORE("this")]);
    }
    ghost var start := m.blocks[i].code;
    StoreNone();
    assert scope.params[|scope.params|..] == [] && start + [] == start;
    for k := |scope.params| downto 0
      invariant FirstAt(m.blocks, i) && m.blocks[i] == CodeBlock(root, start + StoreAll(Reversed(scope.params[k..])))
      invariant DistinctNames(m.blocks) && AsMap(m.blocks) == map[root := start + StoreAll(Reversed(scope.params[k..]))]
      invariant NamesOf(m.blocks) == [root]
    {
      StoreOneMore(scope.params, k);
      SameNames(m.blocks);
      m.Append(i, [STORE(scope.params[k])]);
    }
    assert scope.params[0..] == scope.params;
    PrologueIs(isMain, scope.params, start);
  }

  lemma NoNames(l: string)
    ensures NamesOf([]) == [] && Listed([], l) == [l]
  {
  }

  lemma NoBlocks()
    ensures AsMap([]) == map[] && DistinctNames([])
  {
  }

  lemma SameNames(bs: seq<CodeBlock>)
    requires DistinctNames(bs)
    ensures forall cs: seq<CodeBlock> :: |cs| == |bs| && (forall j :: 0 <= j < |cs| ==> cs[j].name == bs[j].name) ==> DistinctNames(cs)
  {
  }

  lemma StoreNone()
    ensures StoreAll(Reversed([])) == []
  {
  }

  /** The blocks of a method in the file: those that its root leads to, in the order of the walk from it. */
  ghost predicate InOrder(names: seq<string>, blocks: Blocks, root: string) {
    Closed(blocks) && root in blocks && names == Visit(blocks, root, {})
  }

  lemma RootListed(root: string, before: set<string>, order: seq<string>)
    requires order != [] && order[0] == root
    ensures Elements([root]) <= before + {root} && Listed([root], root) + order[1..] == order
  {
    assert order == [order[0]] + order[1..];
  }

  /** What l does not lead to does not matter to the walk from it. */
  lemma {:induction false} VisitApart(blocks: Blocks, l: string, seen: set<string>, others: set<string>)
    requires Closed(blocks) && l in blocks && l !in seen && others !! Reach(blocks, l)
    ensures l !in seen + others && Visit(blocks, l, seen + others) == Visit(blocks, l, seen)
    decreases blocks.Keys - seen, 0
  {
    hide Reach, VisitExit;
    ReachRoot(blocks, l);
    var b, now := blocks[l], seen + {l};
    assert (b.trueExit.To? ==> b.trueExit.name in Exits(b)) && (b.falseExit.To? ==> b.falseExit.name in Exits(b));
    assert seen + others + {l} == now + others;
    if b.trueExit.To? {
      ReachFrom(blocks, l, b.trueExit.name);
      VisitExitApart(blocks, b.trueExit.name, now, others);
      var first := VisitExit(blocks, b.trueExit.name, now);
      assert now + others + Elements(first) == now + Elements(first) + others;
      if b.falseExit.To? {
        ReachFrom(blocks, l, b.falseExit.name);
        VisitExitApart(blocks, b.falseExit.name, now + Elements(first), others);
      }
    }
  }

  lemma {:induction false} VisitExitApart(blocks: Blocks, x: string, seen: set<string>, others: set<string>)
    requires Closed(blocks) && x in blocks && others !! Reach(blocks, x)
    ensures VisitExit(blocks, x, seen + others) == VisitExit(blocks, x, seen)
    decreases blocks.Keys - seen, 1
  {
    hide Reach, Visit;
    ReachRoot(blocks, x);
    if x !in seen { VisitApart(blocks, x, seen, others); }
  }

  lemma FollowedWithin(blocks: Blocks, seen: set<string>, front: seq<string>, part: seq<string>, back: seq<string>, i: nat)
    requires i < |part| && FollowedByTrueExit(blocks, seen + Elements(front), part, i)
    ensures FollowedByTrueExit(blocks, seen, front + part + back, |front| + i)
  {
    var order, k := front + part + back, |front| + i;
    assert order[k] == part[i] && order[..k + 1] == front + part[..i + 1];
    if i + 1 < |part| { assert order[k + 1] == part[i + 1]; }
  }

  /** In the order of a walk every block is followed by its true exit, unless that has come before. */
  lemma {:induction false} TrueExitNext(blocks: Blocks, l: string, seen: set<string>, i: nat)
    requires Closed(blocks) && l in blocks && l !in seen && i < |Visit(blocks, l, seen)|
    ensures FollowedByTrueExit(blocks, seen, Visit(blocks, l, seen), i)
    decreases blocks.Keys - seen
  {
    hide FollowedByTrueExit, Elements;
    var b, now := blocks[l], seen + {l};
    assert (b.trueExit.To? ==> b.trueExit.name in Exits(b)) && (b.falseExit.To? ==> b.falseExit.name in Exits(b));
    var first := if b.trueExit.To? then VisitExit(blocks, b.trueExit.name, now) else [];
    var second := if b.trueExit.To? && b.falseExit.To? then VisitExit(blocks, b.falseExit.name, now + Elements(first)) else [];
    assert Visit(blocks, l, seen) == [l] + first + second;
    assert Elements([l]) == {l} by { OneElement(l); }
    if i == 0 {
      if b.trueExit.To? && b.trueExit.name !in now { VisitStarts(blocks, b.trueExit.name, now); }
      FirstFollowed(blocks, seen, l, first, second);
    } else if i <= |first| {
      TrueExitNext(blocks, b.trueExit.name, now, i - 1);
      FollowedWithin(blocks, seen, [l], first, second, i - 1);
    } else {
      var seen' := now + Elements(first);
      TrueExitNext(blocks, b.falseExit.name, seen', i - 1 - |first|);
      assert Elements([l] + first) == {l} + Elements(first) by { TwoParts(l, first); }
      assert seen + Elements([l] + first) == seen';
      FollowedWithin(blocks, seen, [l] + first, second, [], i - 1 - |first|);
      assert [l] + first + second + [] == [l] + first + second;
    }
  }

  lemma OneElement(l: string)
    ensures Elements([l]) == {l}
  {
  }

  lemma TwoParts(l: string, first: seq<string>)
    ensures Elements([l] + first) == {l} + Elements(first)
  {
    forall x
      ensures x in [l] + first <==> x == l || x in first
    {
    }
  }

  lemma FirstFollowed(blocks: Blocks, seen: set<string>, l: string, first: seq<string>, second: seq<string>)
    requires l in blocks
    requires var e := blocks[l].trueExit; e.To? && e.name !in seen + {l} ==> first != [] && first[0] == e.name
    ensures FollowedByTrueExit(blocks, seen, [l] + first + second, 0)
  {
    var order := [l] + first + second;
    assert order[..1] == [l];
  }

  /** The iteration of CFG::generateBytecode for one root. */
  method GenerateMethod(graph: Cfg, isMain: bool, root: string, scope: Scope, ghost owner: map<string, string>) returns (m: BytecodeMethod)
    requires Owned(graph.blocks, graph.roots, owner) && TrueExitFirst(graph.blocks) && root in graph.roots && graph.generated <= graph.blocks.Keys
    requires forall x :: x in graph.generated ==> owner[x] != root
    modifies graph`generated
    ensures fresh(m) && m.name == root && m.variables == scope.variables && m.fields == scope.fields && DistinctNames(m.blocks)
    ensures EmittedSoFar(AsMap(m.blocks), graph.blocks, root, Prologue(isMain, scope.params), {})
    ensures graph.generated == old(graph.generated) + Reach(graph.blocks, root) && graph.generated <= graph.blocks.Keys
    ensures InOrder(NamesOf(m.blocks), graph.blocks, root)
  {
    hide Reach, LowerAll, Walked, AllClosedWell, Exits, Prologue, AsMap, EmittedSoFar, DistinctNames, NamesOf, Visit;
    ghost var before := graph.generated;
    SoundClosed(graph.blocks, graph.roots, owner);
    m := StartMethod(isMain, root, scope);
    ghost var code := AsMap(m.blocks);
    assert owner[root] == root;
    VisitStarts(graph.blocks, root, before);
    RootListed(root, before, Visit(graph.blocks, root, before));
    GenerateBlock(graph, root, m);
    OwnedReach(graph.blocks, graph.roots, owner, root);
    VisitApart(graph.blocks, root, {}, before);
    assert {} + before == before;
    WalkedAll(graph.blocks, graph.roots, owner, root, before, graph.generated);
    StartedGrown(code, AsMap(m.blocks), graph.blocks, root, Prologue(isMain, scope.params));
  }

  lemma StoreOneMore(params: seq<string>, k: nat)
    requires k < |params|
    ensures StoreAll(Reversed(params[k..])) == StoreAll(Reversed(params[k + 1..])) + [STORE(params[k])]
  {
  }

  lemma PrologueIs(isMain: bool, params: seq<string>, start: seq<Instruction>)
    requires start == if isMain then [] else [STORE("this")]
    ensures start + StoreAll(Reversed(params)) == Prologue(isMain, params)
  {
  }

  lemma StartedGrown(before: CodeMap, after: CodeMap, blocks: Blocks, root: string, prologue: seq<Instruction>)
    requires before == map[root := prologue] && Grown(before, after, blocks, Reach(blocks, root)) && root in blocks
    ensures EmittedSoFar(after, blocks, root, prologue, {})
  {
    hide LowerAll;
    ReachRoot(blocks, root);
    forall l | l in Reach(blocks, root)
      ensures l in blocks && after[l] == (if l == root then prologue else []) + LowerAll(blocks[l].instrs) + []
    {
      assert after[l] == CodeIn(before, l) + LowerAll(blocks[l].instrs);
    }
  }

  /** appendStopToLeafBlocks: each reachable block without exits gets one STOP, as its last instruction. */
  method AppendStopToLeafBlocks(graph: Cfg, root: string, m: BytecodeMethod, ghost prologue: seq<Instruction>)
    requires Closed(graph.blocks) && root in graph.blocks && DistinctNames(m.blocks)
    requires EmittedSoFar(AsMap(m.blocks), graph.blocks, root, prologue, {})
    modifies m`blocks
    ensures DistinctNames(m.blocks) && NamesOf(m.blocks) == NamesOf(old(m.blocks))
    ensures EmittedSoFar(AsMap(m.blocks), graph.blocks, root, prologue, graph.blocks.Keys)
  {
    hide Reach, LowerAll, AsMap, Walking, Pushed, Exits, NamesOf;
    ghost var blocks := graph.blocks;
    var stack, visited: set<string> := [root], {};
    WalkStarts(blocks, root);
    while stack != []
      invariant Walking(blocks, root, visited, stack)
      invariant DistinctNames(m.blocks) && EmittedSoFar(AsMap(m.blocks), blocks, root, prologue, visited)
      invariant NamesOf(m.blocks) == NamesOf(old(m.blocks))
      decreases blocks.Keys - visited, |stack|
    {
      var l, rest := stack[|stack| - 1], stack[..|stack| - 1];
      assert stack == rest + [l];
      stack := rest;
      if l in visited {
        WalkSkips(blocks, root, visited, rest, l);
        continue;
      }
      WalkVisits(blocks, root, visited, rest, l);
      WalkReaches(blocks, root, visited, rest, l);
      assert l in blocks.Keys - visited;
      var b := graph.blocks[l];
      PushedNone(b);
      if !b.trueExit.To? && !b.falseExit.To? {
        ghost var code := AsMap(m.blocks);
        AlreadyListed(m.blocks, l);
        var i := m.GetBlock(l);
        m.Append(i, [STOP]);
        StoppedOne(code, AsMap(m.blocks), blocks, root, prologue, visited, l);
        assert stack + Pushed(b) == stack;
      } else {
        NotStopped(AsMap(m.blocks), blocks, root, prologue, visited, l);
        stack := stack + Pushed(b);
      }
      visited := visited + {l};
    }
    WalkEnds(blocks, root, visited);
    StoppedAll(AsMap(m.blocks), blocks, root, prologue);
  }

  lemma AlreadyListed(bs: seq<CodeBlock>, l: string)
    requires l in AsMap(bs)
    ensures Listed(NamesOf(bs), l) == NamesOf(bs)
  {
    AsMapKeys(bs, l);
    var i :| 0 <= i < |bs| && bs[i].name == l;
    assert NamesOf(bs)[i] == l;
  }

  lemma WalkReaches(blocks: Blocks, root: string, visited: set<string>, stack: seq<string>, l: string)
    requires Walking(blocks, root, visited, stack + [l])
    ensures l in Reach(blocks, root)
  {
    assert l in stack + [l];
  }

  lemma PushedNone(b: BBlock)
    ensures !b.trueExit.To? && !b.falseExit.To? <==> Exits(b) == {}
    ensures Exits(b) == {} ==> Pushed(b) == []
  {
  }

  lemma StoppedOne(before: CodeMap, after: CodeMap, blocks: Blocks, root: string, prologue: seq<Instruction>, visited: set<string>, l: string)
    requires EmittedSoFar(before, blocks, root, prologue, visited) && l in Reach(blocks, root) && l !in visited
    requires l in blocks && Exits(blocks[l]) == {} && after == before[l := CodeIn(before, l) + [STOP]]
    ensures EmittedSoFar(after, blocks, root, prologue, visited + {l})
  {
    hide LowerAll, Reach, Exits;
  }

  lemma NotStopped(code: CodeMap, blocks: Blocks, root: string, prologue: seq<Instruction>, visited: set<string>, l: string)
    requires EmittedSoFar(code, blocks, root, prologue, visited) && l in blocks && Exits(blocks[l]) != {}
    ensures EmittedSoFar(code, blocks, root, prologue, visited + {l})
  {
    hide LowerAll, Reach, Exits;
  }

  lemma StoppedAll(code: CodeMap, blocks: Blocks, root: string, prologue: seq<Instruction>)
    requires EmittedSoFar(code, blocks, root, prologue, Reach(blocks, root))
    ensures EmittedSoFar(code, blocks, root, prologue, blocks.Keys)
  {
    hide LowerAll, Reach, Exits;
  }

  /** CFG::generateBytecode: every root's method, and the STOPs of main. */
  method GenerateBytecode(graph: Cfg, scopes: map<string, Scope>, ghost owner: map<string, string>) returns (program: seq<MethodCode>)
    requires Owned(graph.blocks, graph.roots, owner) && TrueExitFirst(graph.blocks) && Distinct(graph.roots)
    requires forall r :: r in graph.roots ==> r in scopes
    modifies graph`generated
    ensures Emitted(program, graph.blocks, graph.roots, scopes)
    ensures forall i :: 0 <= i < |program| ==> InOrder(NamesOf(program[i].blocks), graph.blocks, graph.roots[i])
  {
    hide InOrder, NamesOf, Reach, LowerAll, AsMap, Exits, Prologue, AllClosedWell, EmittedSoFar, EmittedMethod;
    graph.generated := {};
    program := [];
    var main: BytecodeMethod? := null;
    for i := 0 to |graph.roots|
      invariant graph.generated <= graph.blocks.Keys
      invariant forall x :: x in graph.generated ==> owner[x] in graph.roots[..i]
      invariant |program| == i && (main == null <==> i == 0) && (main != null ==> fresh(main))
      invariant forall j {:trigger program[j]} :: 1 <= j < i ==> EmittedMethod(program[j], graph.blocks, false, graph.roots[j], scopes[graph.roots[j]])
      invariant forall j {:trigger program[j]} :: 0 <= j < i ==> InOrder(NamesOf(program[j].blocks), graph.blocks, graph.roots[j])
      invariant main != null ==> i > 0 && main.blocks == program[0].blocks
      invariant main != null ==> i > 0 && HoldsMain(main, graph.blocks, graph.roots[0], scopes[graph.roots[0]], {})
    {
      var root := graph.roots[i];
      OwnedReach(graph.blocks, graph.roots, owner, root);
      assert graph.roots[..i + 1] == graph.roots[..i] + [root];
      assert owner[root] == root;
      var m := GenerateMethod(graph, i == 0, root, scopes[root], owner);
      program := program + [m.Value()];
      if main == null {
        main := m;
      } else {
        MethodEmitted(m, graph.blocks, root, scopes[root]);
      }
    }
    if main != null {
      SoundClosed(graph.blocks, graph.roots, owner);
      AppendStopToLeafBlocks(graph, graph.roots[0], main, Prologue(true, scopes[graph.roots[0]].params));
      program := program[0 := main.Value()];
      MainEmitted(main, graph.blocks, graph.roots[0], scopes[graph.roots[0]]);
    }
  }

  ghost predicate HoldsMain(m: BytecodeMethod, blocks: Blocks, root: string, scope: Scope, stopped: set<string>)
    reads m
  {
    && m.name == root && m.variables == scope.variables && m.fields == scope.fields && DistinctNames(m.blocks)
    && EmittedSoFar(AsMap(m.blocks), blocks, root, Prologue(true, scope.params), stopped)
  }

  lemma MethodEmitted(m: BytecodeMethod, blocks: Blocks, root: string, scope: Scope)
    requires m.name == root && m.variables == scope.variables && m.fields == scope.fields && DistinctNames(m.blocks)
    requires EmittedSoFar(AsMap(m.blocks), blocks, root, Prologue(false, scope.params), {})
    ensures EmittedMethod(m.Value(), blocks, false, root, scope)
  {
    hide LowerAll, Reach, Exits, AsMap, Prologue;
  }

  lemma MainEmitted(m: BytecodeMethod, blocks: Blocks, root: string, scope: Scope)
    requires HoldsMain(m, blocks, root, scope, blocks.Keys)
    ensures EmittedMethod(m.Value(), blocks, true, root, scope)
  {
    hide LowerAll, Reach, Exits, AsMap, Prologue;
  }
}

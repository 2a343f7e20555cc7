/** The control-flow graph under construction, as a value (src/ir/CFG.cpp, src/ir/BBlock.hpp). Blocks are
    held by name and an exit pointer is the name of the block it points to; names are unique because block
    numbers are never reused. */
module FlowGraph {
  import opened Ast
  import opened Tac
  import opened Names

  datatype Exit = None | To(name: string)

  datatype BBlock = BBlock(instrs: seq<Instr>, trueExit: Exit, falseExit: Exit)

  const EMPTY_BLOCK := BBlock([], None, None)

  /** locals is the scope of the method being generated, to which temporaries are added. */
  datatype Graph = Graph(blocks: map<string, BBlock>, current: string, roots: seq<string>,
                         nextTemp: nat, nextBlock: nat, locals: set<string>)

  /** The instructions of each block. */
  function Code(blocks: map<string, BBlock>): map<string, seq<Instr>> {
    map l | l in blocks :: blocks[l].instrs
  }

  function BlockAt(g: Graph, l: string): BBlock {
    if l in g.blocks then g.blocks[l] else EMPTY_BLOCK
  }

  function Here(g: Graph): BBlock {
    BlockAt(g, g.current)
  }

  /** Position of the next instruction to be added. */
  function End(g: Graph): nat {
    |Here(g).instrs|
  }

  function NewTemp(g: Graph): (Graph, string) {
    var t := TempName(g.nextTemp);
    (g.(nextTemp := g.nextTemp + 1, locals := g.locals + {t}), t)
  }

  function NewBlock(g: Graph): (Graph, string) {
    var l := BlockName(g.nextBlock);
    (g.(nextBlock := g.nextBlock + 1, blocks := g.blocks[l := EMPTY_BLOCK]), l)
  }

  function AddInstr(g: Graph, t: Instr): Graph {
    var b := Here(g);
    g.(blocks := g.blocks[g.current := b.(instrs := b.instrs + [t])])
  }

  function MoveTo(g: Graph, l: string): Graph {
    g.(current := l)
  }

  function SetTrueExit(g: Graph, l: string, t: string): Graph {
    g.(blocks := g.blocks[l := BlockAt(g, l).(trueExit := To(t))])
  }

  function SetExits(g: Graph, l: string, t: string, f: string): Graph {
    g.(blocks := g.blocks[l := BlockAt(g, l).(trueExit := To(t), falseExit := To(f))])
  }

  /** CondJump to onFalse, then Jump to onTrue. */
  function AddBranch(g: Graph, cond: Operand, onTrue: string, onFalse: string): Graph {
    AddInstr(AddInstr(g, CondJump(onFalse, cond)), Jump(onTrue))
  }

  /** Ends the current block with a jump and makes its true exit agree. */
  function AddJump(g: Graph, l: string): Graph {
    SetTrueExit(AddInstr(g, Jump(l)), g.current, l)
  }

  function AddRoot(g: Graph, name: string, scope: set<string>): Graph {
    g.(blocks := g.blocks[name := EMPTY_BLOCK], current := name, roots := g.roots + [name], locals := scope)
  }

  /** The graph as the compiler holds it, updated in place; generated holds the names of the blocks whose
      flag is set. */
  class Cfg {
    var blocks: map<string, BBlock>
    var current: string
    var roots: seq<string>
    var nextTemp: nat
    var nextBlock: nat
    var locals: set<string>
    var generated: set<string>

    constructor ()
      ensures Model() == Graph(map[], "", [], 0, 0, {})
    {
      blocks, current, roots, nextTemp, nextBlock, locals, generated := map[], "", [], 0, 0, {}, {};
    }

    function Model(): Graph
      reads this
    {
      Graph(blocks, current, roots, nextTemp, nextBlock, locals)
    }

    /** A fresh temporary, entered into the scope of the method. */
    method GetTemporaryName() returns (t: string)
      modifies `nextTemp, `locals
      ensures (Model(), t) == NewTemp(old(Model()))
    {
      t := TempName(nextTemp);
      nextTemp := nextTemp + 1;
      locals := locals + {t};
    }

    method MakeBlock() returns (l: string)
      modifies `nextBlock, `blocks
      ensures (Model(), l) == NewBlock(old(Model()))
    {
      l := BlockName(nextBlock);
      nextBlock := nextBlock + 1;
      blocks := blocks[l := EMPTY_BLOCK];
    }

    method Add(t: Instr)
      modifies `blocks
      ensures Model() == AddInstr(old(Model()), t)
    {
      var b := BlockAt(Model(), current);
      blocks := blocks[current := b.(instrs := b.instrs + [t])];
    }

    method SetCurrent(l: string)
      modifies `current
      ensures Model() == MoveTo(old(Model()), l)
    {
      current := l;
    }

    method SetTrueBlock(l: string, t: string)
      modifies `blocks
      ensures Model() == SetTrueExit(old(Model()), l, t)
    {
      blocks := blocks[l := BlockAt(Model(), l).(trueExit := To(t))];
    }

    method SetBlocks(l: string, t: string, f: string)
      modifies `blocks
      ensures Model() == SetExits(old(Model()), l, t, f)
    {
      SetTrueBlock(l, t);
      blocks := blocks[l := BlockAt(Model(), l).(falseExit := To(f))];
      assert blocks == SetExits(old(Model()), l, t, f).blocks;
    }

    method AddMethodRoot(name: string, scope: set<string>)
      modifies this
      ensures Model() == AddRoot(old(Model()), name, scope)
    {
      blocks := blocks[name := EMPTY_BLOCK];
      roots := roots + [name];
      current := name;
      locals := scope;
    }
  }
}

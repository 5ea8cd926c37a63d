/** The function builder: an imperative API for putting a control-flow graph
    together block by block. */
module Builder {
  import opened Ir

  /** What a builder holds; `Graph` is the value a `FuncBuilder` object stands for. */
  datatype Graph = Graph(blocks: seq<Block>, current: BlockId, nextReg: Reg, loops: seq<LoopFrame>)

  type Building = g: Graph | g.current < |g.blocks|
    witness Graph([Block([], Unreachable)], 0, 0, [])

  const EMPTY_BLOCK := Block([], Unreachable)
  const ENTRY: BlockId := 0

  function Initial(): Building {
    Graph([EMPTY_BLOCK, EMPTY_BLOCK], ENTRY, 0, [])
  }

  function Fresh(g: Building): Building {
    g.(nextReg := g.nextReg + 1)
  }

  function NewBlock(g: Building): Building {
    g.(blocks := g.blocks + [EMPTY_BLOCK])
  }

  function SwitchTo(g: Building, id: BlockId): Building {
    if id < |g.blocks| then g.(current := id) else g
  }

  predicate Terminated(g: Building) {
    !g.blocks[g.current].term.Unreachable?
  }

  /** Instructions after the first terminator are dropped. */
  function Push(g: Building, i: Inst): Building {
    if Terminated(g) then g
    else var b := g.blocks[g.current];
         g.(blocks := g.blocks[g.current := b.(insts := b.insts + [i])])
  }

  /** The first terminator wins. */
  function Terminate(g: Building, t: Terminator): Building {
    if Terminated(g) then g
    else g.(blocks := g.blocks[g.current := g.blocks[g.current].(term := t)])
  }

  function PushLoop(g: Building, f: LoopFrame): Building {
    g.(loops := g.loops + [f])
  }

  function PopLoop(g: Building): Building {
    if g.loops == [] then g else g.(loops := g.loops[..|g.loops| - 1])
  }

  /** A block left open becomes a plain return in a proper procedure. */
  function Sealed(b: Block, proper: bool): Block {
    if b.term.Unreachable? && proper then b.(term := Terminator.Return(None)) else b
  }

  ghost predicate IsSealing(open: seq<Block>, closed: seq<Block>, proper: bool) {
    |closed| == |open| && forall i :: 0 <= i < |open| ==> closed[i] == Sealed(open[i], proper)
  }

  class FuncBuilder {
    const hasResult: bool
    var blocks: seq<Block>
    var current: BlockId
    var nextReg: Reg
    var loopStack: seq<LoopFrame>

    ghost predicate Valid()
      reads this
    {
      current < |blocks|
    }

    ghost function State(): Building
      reads this
      requires Valid()
    {
      Graph(blocks, current, nextReg, loopStack)
    }

    constructor (hasResult: bool)
      ensures Valid() && State() == Initial() && this.hasResult == hasResult
    {
      this.hasResult := hasResult;
      blocks := [EMPTY_BLOCK, EMPTY_BLOCK];
      current := ENTRY;
      nextReg := 0;
      loopStack := [];
    }

    method FreshReg() returns (r: Reg)
      requires Valid()
      modifies this
      ensures Valid() && r == old(nextReg) && State() == Fresh(old(State()))
      ensures nextReg == r + 1 && |blocks| == old(|blocks|)
    {
      r := nextReg;
      nextReg := nextReg + 1;
    }

    method AddBlock() returns (id: BlockId)
      requires Valid()
      modifies this
      ensures Valid() && id == |old(blocks)| && State() == NewBlock(old(State()))
      ensures nextReg == old(nextReg) && |blocks| == id + 1
    {
      id := |blocks|;
      blocks := blocks + [EMPTY_BLOCK];
    }

    method Activate(id: BlockId)
      requires Valid() && id < |blocks|
      modifies this
      ensures Valid() && State() == SwitchTo(old(State()), id)
      ensures nextReg == old(nextReg) && |blocks| == old(|blocks|)
    {
      current := id;
    }

    method IsTerminated() returns (t: bool)
      requires Valid()
      ensures t == Terminated(State())
    {
      t := !blocks[current].term.Unreachable?;
    }

    method Append(i: Inst)
      requires Valid()
      modifies this
      ensures Valid() && State() == Push(old(State()), i)
      ensures nextReg == old(nextReg) && |blocks| == old(|blocks|)
    {
      var t := IsTerminated();
      if t {
        return;
      }
      blocks := blocks[current := blocks[current].(insts := blocks[current].insts + [i])];
    }

    method End(t: Terminator)
      requires Valid()
      modifies this
      ensures Valid() && State() == Terminate(old(State()), t)
      ensures nextReg == old(nextReg) && |blocks| == old(|blocks|)
    {
      var done := IsTerminated();
      if done {
        return;
      }
      blocks := blocks[current := blocks[current].(term := t)];
    }

    method EnterLoop(f: LoopFrame)
      requires Valid()
      modifies this
      ensures Valid() && State() == PushLoop(old(State()), f)
      ensures nextReg == old(nextReg) && |blocks| == old(|blocks|)
    {
      loopStack := loopStack + [f];
    }

    method LeaveLoop()
      requires Valid()
      modifies this
      ensures Valid() && State() == PopLoop(old(State()))
      ensures nextReg == old(nextReg) && |blocks| == old(|blocks|)
    {
      if loopStack != [] {
        loopStack := loopStack[..|loopStack| - 1];
      }
    }

    method CurrentLoop() returns (f: Option<LoopFrame>)
      requires Valid()
      ensures f == if State().loops == [] then None else Some(State().loops[|State().loops| - 1])
    {
      f := if loopStack == [] then None else Some(loopStack[|loopStack| - 1]);
    }

    method Finish() returns (f: seq<Block>)
      requires Valid()
      modifies this
      ensures IsSealing(old(blocks), f, !hasResult) && f == blocks
    {
      var i := 0;
      while i < |blocks|
        invariant 0 <= i <= |blocks| == |old(blocks)|
        invariant forall k :: 0 <= k < i ==> blocks[k] == Sealed(old(blocks)[k], !hasResult)
        invariant forall k :: i <= k < |blocks| ==> blocks[k] == old(blocks)[k]
      {
        if blocks[i].term.Unreachable? {
          blocks := blocks[i := blocks[i].(term := if hasResult then Unreachable else Terminator.Return(None))];
        }
        i := i + 1;
      }
      f := blocks;
    }
  }
}

/** Programs, and the linked cells that list them: src/aff-executor.h and src/scheds/common.h. */
module Programs {
  import opened Machine

  const MAX_CORES: nat := 6

  lemma SixCores()
    ensures MAX_CORES == 6 && CORES_NEEDED == 1
  {
  }

  /** README.md: all the applications are single-threaded. */
  const CORES_NEEDED: nat := 1

  datatype Class = NONE | BW | CS | CNS | N

  datatype RunStatus = RS_STOPED | RS_RUNNING

  /** The part of `prog_data_t` that scheduling decisions are taken from. */
  datatype ProgData = ProgData(
    category: Class,
    init_id: nat,             // slot of the program: the instances of one program share it
    ipc_alone: I32,
    llc_alone: I32,
    instr_retd_sum: U64,
    ideal_instr: U64,
    ratio: U64,
    waiting_time: int,
    run_status: RunStatus,
    tm_wstart: U32,
    tm_wstop: U32,
    tm_rstart: U32,
    tm_rstop: U32,
    tm_running: U32,
    tm_waiting: U32,
    instr_retd: U64,
    unh_cycles: U64,
    mem_reads: U64,
    sum_mem_reads: U64,
    llc_occupancy: U64)

  /** A program as a value: its identity and its data. */
  datatype Prog = Prog(id: int, pd: ProgData)

  /** A `cds_list_head`: the `pl_node` embedded in a program when `entry`, a bare list head otherwise. */
  class Node {
    var next: Node
    var prev: Node
    const entry: bool
    const id: int
    var pd: ProgData
    var core: int             // start of the core range the program was given
    var fitness: U64
    var killed: bool

    constructor Head()
      ensures next == prev == this && !entry
    {
      next, prev := this, this;
      entry, id := false, 0;
      pd := *;
      core, fitness, killed := 0, 0, false;
    }

    constructor Entry(id: int, pd: ProgData)
      ensures next == prev == this && entry && this.id == id && this.pd == pd && !killed
    {
      next, prev := this, this;
      entry, this.id := true, id;
      this.pd := pd;
      core, fitness, killed := 0, 0, false;
    }
  }

  ghost predicate Entries(s: seq<Node>) {
    forall i :: 0 <= i < |s| ==> s[i].entry
  }

  /** The sort key: `get_value` of all the policies narrows the progress ratio to `int`. */
  function GetVal(n: Node): int
    requires n.entry
    reads n`pd
  {
    ToInt(n.pd.ratio)
  }

  ghost function View(s: seq<Node>): (v: seq<Prog>)
    reads (set n | n in s)`pd
    ensures |v| == |s| && forall i :: 0 <= i < |s| ==> v[i] == Prog(s[i].id, s[i].pd)
  {
    if s == [] then [] else View(s[..|s| - 1]) + [Prog(s[|s| - 1].id, s[|s| - 1].pd)]
  }

  /** The order that the sort by progress ratio establishes. */
  ghost predicate InOrder(v: seq<Prog>) {
    forall i, j :: 0 <= i < j < |v| ==> ToInt(v[i].pd.ratio) <= ToInt(v[j].pd.ratio)
  }
}

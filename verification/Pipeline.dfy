// The instructions, queue entries and constants of the out-of-order core
// (champsim/inc/instruction.h, champsim/inc/ooo_cpu.h).
module Pipeline {
  import opened Prelude
  import opened RegisterAllocation

  type Addr = nat

  // An instruction in flight. Renaming overwrites `src` and `dst` with physical
  // ids; `archSrc` and `archDst` keep the registers the program named. No
  // operation reads those two, only specifications do.
  datatype Instr = Instr(
    id: nat,
    archSrc: seq<int>, archDst: seq<int>,
    src: seq<int>, dst: seq<int>,
    srcMem: seq<Addr>, dstMem: seq<Addr>,
    readyTime: int,
    fetchCompleted: bool, decoded: bool,
    scheduled: bool, executed: bool, completed: bool,
    memDone: nat)
  {
    function NumMemOps(): nat {
      |dstMem| + |srcMem|
    }
  }

  // ready == None stands for time_point::max(), producer == None for "waits on no store".
  datatype Load = Load(addr: Addr, id: nat, ready: Option<int>, issued: bool, producer: Option<nat>)

  // `waiters` are the load-queue slots whose loads this store will release.
  datatype Store = Store(addr: Addr, id: nat, ready: Option<int>, fetched: bool, waiters: seq<nat>)

  // What the L1D sees of a store.
  datatype StoreKey = StoreKey(id: nat, addr: Addr)

  function KeyOf(st: Store): StoreKey {
    StoreKey(st.id, st.addr)
  }

  predicate Due(t: Option<int>, now: int) {
    t.Some? && t.value <= now
  }

  // Program order.
  predicate SortedIds(xs: seq<Instr>) {
    forall i, j :: 0 <= i < j < |xs| ==> xs[i].id < xs[j].id
  }

  lemma {:induction false} SortedTail(x: seq<Instr>, y: seq<Instr>)
    requires SortedIds(x + y)
    ensures SortedIds(y)
  {
    forall i, j | 0 <= i < j < |y| ensures y[i].id < y[j].id {
      assert (x + y)[|x| + i].id < (x + y)[|x| + j].id;
    }
  }

  // What the program says about an instruction, without its progress.
  datatype Op = Op(id: nat, archSrc: seq<int>, archDst: seq<int>, srcMem: seq<Addr>, dstMem: seq<Addr>)

  function OpOf(ins: Instr): Op {
    Op(ins.id, ins.archSrc, ins.archDst, ins.srcMem, ins.dstMem)
  }

  function Program(xs: seq<Instr>): (ops: seq<Op>)
    ensures |ops| == |xs| && forall i :: 0 <= i < |xs| ==> ops[i] == OpOf(xs[i])
  {
    if xs == [] then [] else Program(xs[..|xs| - 1]) + [OpOf(xs[|xs| - 1])]
  }
}

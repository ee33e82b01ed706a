/** Names, constants and static configuration shared by the kernel modules. */
module KernelTypes {

  // Table sizes (include/minix/com.h, include/minix/sys_config.h, kernel/proc.h).
  const NR_TASKS: nat := 4
  const NR_SLOTS: nat := 68          // NR_TASKS + NR_PROCS
  const NR_SYS_PROCS: nat := 32
  const BITCHUNK_BITS: nat := 16     // bitchunk_t is an unsigned short
  const NR_SCHED_QUEUES: nat := 16
  const IDLE_Q: nat := 15

  /** A process slot: the process number plus NR_TASKS, so kernel tasks are 0..3. */
  type Pid = p: nat | p < NR_SLOTS

  /** The index of a privilege structure. */
  type SysId = i: nat | i < NR_SYS_PROCS

  type Addr = nat

  const IDLE: Pid := 0
  const CLOCK: Pid := 1
  const SYSTEM: Pid := 2
  const HARDWARE: Pid := 3
  const PM: Pid := 4

  /** A possibly nil pointer into the process table. */
  datatype Link = Nil | To(p: Pid)

  /** The wanted source of a receive. */
  datatype Peer = Any | From(p: Pid)

  /** The bits of p_rts_flags; a process is runnable iff none is set. */
  datatype RtsFlag = SlotFree | NoMap | Sending | Receiving | Signaled | SigPending | Traced | NoPriv
  type Flags = set<RtsFlag>

  predicate IsKernel(p: Pid) { p < NR_TASKS }

  /** The argument BuildMess adds to a notification from HARDWARE or SYSTEM. */
  datatype NotifyArg = NoArg | Interrupts(ids: set<nat>) | Signals(sigs: set<nat>)

  datatype Payload =
    | Words(words: seq<int>)
    | Notice(timestamp: nat, arg: NotifyArg)

  datatype Message = Message(source: Pid, payload: Payload)

  /** The part of a privilege structure that no modelled step changes. */
  datatype PrivSpec = PrivSpec(procNr: Pid, billable: bool, preemptible: bool,
                               trapMask: set<nat>, ipcTo: set<SysId>)

  /** The part of a process slot that no modelled step changes.  Addresses are in clicks. */
  datatype SlotSpec = SlotSpec(priv: SysId, maxPriority: nat, quantum: int,
                               dataVir: nat, stackVir: nat, stackLen: nat)

  /** The fixed process population. */
  datatype Config = Config(slots: seq<SlotSpec>, privs: seq<PrivSpec>) {

    predicate Shape() {
      |slots| == NR_SLOTS && |privs| == NR_SYS_PROCS
    }

    function Priv(p: Pid): (s: PrivSpec)
      requires Shape()
    {
      privs[slots[p].priv]
    }

    /** A system process has a privilege structure of its own; user processes share one. */
    ghost predicate OwnsPriv(p: Pid)
      requires Shape()
    {
      && Priv(p).procNr == p
      && forall q: Pid :: q != p ==> slots[q].priv != slots[p].priv
    }

    /** The structure of kernel source k is k's alone and is the only one that names k. */
    ghost predicate Identifies(k: Pid)
      requires Shape()
    {
      OwnsPriv(k) && forall i: SysId :: privs[i].procNr == k ==> i == slots[k].priv
    }

    /** What kernel/table.c and main() establish for the boot image. */
    ghost predicate Legal() {
      && Shape()
      && Priv(IDLE).trapMask == {}
      && slots[IDLE].maxPriority == IDLE_Q
      && (forall p: Pid :: p != IDLE ==> slots[p].maxPriority < IDLE_Q)
      && Identifies(SYSTEM) && Identifies(HARDWARE)
    }
  }
}

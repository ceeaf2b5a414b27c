/** The scheduler (schedule.c) with the one-vCPU policy (sched_noop.c): every processor has an idle
    thread and a vCPU thread, any processor can wake, put to sleep or kick the vCPU thread of any
    other, and a processor switches threads only when it finds its NEED_RESCHEDULE flag set. */
module Scheduler {
  import opened Wrappers

  /** A thread has no status before init_thread_data. */
  datatype Status = UNKNOWN | RUNNING | RUNNABLE | BLOCKED

  datatype Thread = Idle | Vcpu

  /** What the scheduler lock of a processor protects: the status of its threads, noop_thread_obj,
      curr_obj and NEED_RESCHEDULE, and the INIT signals sent to it so far. */
  datatype Sched = Sched(idle: Status, vcpu: Status, noop: Option<Thread>, curr: Option<Thread>, need: bool, inits: nat)

  function StatusOf(s: Sched, t: Thread): Status {
    if t.Idle? then s.idle else s.vcpu
  }

  function SetStatus(s: Sched, t: Thread, status: Status): Sched {
    if t.Idle? then s.(idle := status) else s.(vcpu := status)
  }

  function Pick(s: Sched): Thread {
    if s.noop.Some? then s.noop.value else Idle
  }

  // ---- The locked sections ----

  function Requested(s: Sched, remote: bool): Sched {
    s.(need := true, inits := if remote then s.inits + 1 else s.inits)
  }

  function Initialized(s: Sched, t: Thread): Sched {
    SetStatus(s, t, BLOCKED)
  }

  function Started(s: Sched): Sched {
    s.(curr := Some(Idle), idle := RUNNING)
  }

  function Slept(s: Sched, t: Thread, remote: bool): Sched {
    var s1 := if s.noop == Some(t) then s.(noop := None) else s;
    var s2 := if StatusOf(s1, t) == RUNNING then Requested(s1, remote) else s1;
    SetStatus(s2, t, BLOCKED)
  }

  function Woken(s: Sched, t: Thread, remote: bool): Sched {
    if StatusOf(s, t) != BLOCKED then s
    else
      var s1 := if s.noop.None? then s.(noop := Some(t)) else s;
      Requested(SetStatus(s1, t, RUNNABLE), remote)
  }

  function Kicked(s: Sched, t: Thread, remote: bool): Sched {
    if StatusOf(s, t) == RUNNING then (if remote then s.(inits := s.inits + 1) else s)
    else if StatusOf(s, t) == RUNNABLE then Requested(s, remote)
    else s
  }

  /** The locked section of schedule, which replaces the thread that was current before the lock. */
  function Scheduled(s: Sched, prev: Thread): Sched {
    var next := Pick(s);
    var s1 := s.(need := false);
    var s2 := if StatusOf(s1, prev) == RUNNING then SetStatus(s1, prev, RUNNABLE) else s1;
    SetStatus(s2, next, RUNNING).(curr := Some(next))
  }

  // ---- What always holds ----

  /** No reschedule is lost: a processor that does not run what it should has its flag set. */
  predicate NothingLost(s: Sched) {
    match s.curr
    case None => s.noop.Some? ==> s.need
    case Some(t) => Pick(s) != t || StatusOf(s, t) != RUNNING ==> s.need
  }

  /** The policy knows the vCPU thread exactly while it is ready to run, and only the current thread
      is running. */
  predicate ThreadsOk(s: Sched) {
    && (s.noop == Some(Vcpu) <==> s.vcpu == RUNNING || s.vcpu == RUNNABLE) && s.noop != Some(Idle)
    && (forall t: Thread :: StatusOf(s, t) == RUNNING ==> s.curr == Some(t))
    && (s.curr.Some? ==> s.idle != UNKNOWN)
  }

  predicate SchedInv(s: Sched) {
    ThreadsOk(s) && NothingLost(s)
  }

  /** A thread that is made ready stays ready until it is put to sleep, and is then running or about
      to be rescheduled to. */
  lemma ReadyIsServed(s: Sched)
    requires SchedInv(s) && s.noop.Some?
    ensures s.need || (s.curr == Some(Vcpu) && s.vcpu == RUNNING)
  {
  }

  /** A processor is signalled exactly when another one puts its running thread to sleep, wakes a blocked
      thread of it, or kicks one that is ready or running, and never by itself. All but the kick of a
      running thread also make it reschedule. */
  lemma RemoteRequestsSignal(s: Sched, t: Thread, remote: bool)
    ensures var signal, status := if remote then s.inits + 1 else s.inits, StatusOf(s, t);
            && Slept(s, t, remote).inits == (if status == RUNNING then signal else s.inits)
            && Woken(s, t, remote).inits == (if status == BLOCKED then signal else s.inits)
            && Kicked(s, t, remote).inits == (if status == RUNNING || status == RUNNABLE then signal else s.inits)
            && Slept(s, t, remote).need == (s.need || status == RUNNING)
            && Woken(s, t, remote).need == (s.need || status == BLOCKED)
            && Kicked(s, t, remote).need == (s.need || status == RUNNABLE)
  {
  }

  // ---- The objects ----

  class ThreadObject {
    const pcpuId: nat
    var status: Status

    constructor (id: nat)
      ensures pcpuId == id && status == UNKNOWN
    {
      pcpuId, status := id, UNKNOWN;
    }
  }

  /** struct sched_control of a processor, with the private data of the policy. */
  class SchedControl {
    const pcpuId: nat
    const idle: ThreadObject
    const vcpu: ThreadObject
    var needReschedule: bool
    var currObj: ThreadObject?
    var noopThreadObj: ThreadObject?
    var inits: nat

    constructor (id: nat)
      ensures Valid() && pcpuId == id && fresh(idle) && fresh(vcpu)
      ensures Abs() == Sched(UNKNOWN, UNKNOWN, None, None, false, 0)
    {
      var i := new ThreadObject(id);
      var v := new ThreadObject(id);
      pcpuId, idle, vcpu := id, i, v;
      needReschedule, currObj, noopThreadObj, inits := false, null, null, 0;
    }

    ghost predicate Valid()
      reads this
    {
      && idle != vcpu && idle.pcpuId == vcpu.pcpuId == pcpuId
      && (currObj == null || currObj == idle || currObj == vcpu)
      && (noopThreadObj == null || noopThreadObj == idle || noopThreadObj == vcpu)
    }

    ghost function ThreadOf(obj: ThreadObject?): Option<Thread> {
      if obj == null then None else if obj == idle then Some(Idle) else Some(Vcpu)
    }

    ghost function Abs(): Sched
      reads this, idle, vcpu
    {
      Sched(idle.status, vcpu.status, ThreadOf(noopThreadObj), ThreadOf(currObj), needReschedule, inits)
    }

    predicate Mine(obj: ThreadObject) {
      obj == idle || obj == vcpu
    }

    method MakeRescheduleRequest(here: nat)
      requires Valid()
      modifies this`needReschedule, this`inits
      ensures Valid() && Abs() == Requested(old(Abs()), here != pcpuId)
      ensures needReschedule && inits == old(inits) + (if here != pcpuId then 1 else 0)
    {
      needReschedule := true;
      if here != pcpuId {
        inits := inits + 1;
      }
    }

    method InitThreadData(obj: ThreadObject)
      requires Valid() && Mine(obj)
      modifies obj`status
      ensures Valid() && Abs() == Initialized(old(Abs()), ThreadOf(obj).value)
      ensures obj.status == BLOCKED
    {
      obj.status := BLOCKED;
    }

    /** The second locked section of run_thread, after init_thread_data. */
    method StartThread(obj: ThreadObject)
      requires Valid() && obj == idle
      modifies this`currObj, obj`status
      ensures Valid() && Abs() == Started(old(Abs()))
      ensures currObj == obj && obj.status == RUNNING
    {
      currObj := obj;
      obj.status := RUNNING;
    }

    method SchedNoopPickNext() returns (next: ThreadObject)
      requires Valid()
      ensures Mine(next) && ThreadOf(next).value == Pick(Abs())
      ensures next == if noopThreadObj != null then noopThreadObj else idle
    {
      if noopThreadObj != null {
        next := noopThreadObj;
      } else {
        next := idle;
      }
    }

    method SchedNoopSleep(obj: ThreadObject)
      requires Valid() && Mine(obj)
      modifies this`noopThreadObj
      ensures Valid()
      ensures var s, t := old(Abs()), ThreadOf(obj).value; Abs() == if s.noop == Some(t) then s.(noop := None) else s
      ensures noopThreadObj == if old(noopThreadObj) == obj then null else old(noopThreadObj)
    {
      if noopThreadObj == obj {
        noopThreadObj := null;
      }
    }

    method SchedNoopWake(obj: ThreadObject)
      requires Valid() && Mine(obj)
      modifies this`noopThreadObj
      ensures Valid()
      ensures var s, t := old(Abs()), ThreadOf(obj).value; Abs() == if s.noop.None? then s.(noop := Some(t)) else s
      ensures noopThreadObj == if old(noopThreadObj) == null then obj else old(noopThreadObj)
    {
      if noopThreadObj == null {
        noopThreadObj := obj;
      }
    }

    method SleepThread(obj: ThreadObject, here: nat)
      requires Valid() && Mine(obj)
      modifies this`noopThreadObj, this`needReschedule, this`inits, obj`status
      ensures Valid() && Abs() == Slept(old(Abs()), ThreadOf(obj).value, here != pcpuId)
      ensures obj.status == BLOCKED && noopThreadObj == if old(noopThreadObj) == obj then null else old(noopThreadObj)
      ensures needReschedule == (old(needReschedule) || old(obj.status) == RUNNING)
      ensures inits == old(inits) + if old(obj.status) == RUNNING && here != pcpuId then 1 else 0
    {
      SchedNoopSleep(obj);
      if obj.status == RUNNING {
        MakeRescheduleRequest(here);
      }
      obj.status := BLOCKED;
    }

    method WakeThread(obj: ThreadObject, here: nat)
      requires Valid() && Mine(obj)
      modifies this`noopThreadObj, this`needReschedule, this`inits, obj`status
      ensures Valid() && Abs() == Woken(old(Abs()), ThreadOf(obj).value, here != pcpuId)
      ensures old(obj.status) == BLOCKED ==>
                && obj.status == RUNNABLE && needReschedule
                && noopThreadObj == (if old(noopThreadObj) == null then obj else old(noopThreadObj))
                && inits == old(inits) + (if here != pcpuId then 1 else 0)
      ensures old(obj.status) != BLOCKED ==>
                && obj.status == old(obj.status) && noopThreadObj == old(noopThreadObj)
                && needReschedule == old(needReschedule) && inits == old(inits)
    {
      if obj.status == BLOCKED {
        SchedNoopWake(obj);
        obj.status := RUNNABLE;
        MakeRescheduleRequest(here);
      }
    }

    method KickThread(obj: ThreadObject, here: nat)
      requires Valid() && Mine(obj)
      modifies this`needReschedule, this`inits
      ensures Valid() && Abs() == Kicked(old(Abs()), ThreadOf(obj).value, here != pcpuId)
      ensures needReschedule == (old(needReschedule) || obj.status == RUNNABLE)
      ensures inits == old(inits) + if (obj.status == RUNNING || obj.status == RUNNABLE) && here != pcpuId then 1 else 0
    {
      if obj.status == RUNNING {
        if here != pcpuId {
          inits := inits + 1;
        }
      } else if obj.status == RUNNABLE {
        MakeRescheduleRequest(here);
      }
    }

    /** The locked section of schedule. */
    method ScheduleLocked(prev: ThreadObject) returns (next: ThreadObject)
      requires Valid() && Mine(prev)
      modifies this`needReschedule, this`currObj, idle`status, vcpu`status
      ensures Valid() && Mine(next) && ThreadOf(next).value == Pick(old(Abs()))
      ensures Abs() == Scheduled(old(Abs()), ThreadOf(prev).value)
      ensures next == (if noopThreadObj != null then noopThreadObj else idle)
      ensures currObj == next && next.status == RUNNING && !needReschedule
      ensures prev != next ==> prev.status == if old(prev.status) == RUNNING then RUNNABLE else old(prev.status)
      ensures prev == next ==> forall obj: ThreadObject :: Mine(obj) && obj != next ==> obj.status == old(obj.status)
    {
      next := SchedNoopPickNext();
      needReschedule := false;
      if prev.status == RUNNING {
        prev.status := RUNNABLE;
      }
      next.status := RUNNING;
      currObj := next;
    }
  }

  // ---- Any number of processors ----

  /** Where a processor is in schedule: it has read curr_obj and not yet taken the lock, or it has
      given the lock back and not yet switched stacks. */
  datatype Phase = Outside | Entered(prev: Thread) | Switching(prev: Thread, next: Thread)

  /** A processor: its scheduler state, where it is in schedule, and the thread whose stack it uses. */
  datatype Cpu = Cpu(s: Sched, phase: Phase, stack: Option<Thread>)

  datatype Step =
    | Init(p: nat, t: Thread)
    | Start(p: nat)
    | Sleep(p: nat, remote: bool)
    | Wake(p: nat, remote: bool)
    | Kick(p: nat, remote: bool)
    | Enter(p: nat)
    | Locked(p: nat)
    | Switch(p: nat)

  /** A thread is given its data before it is used: the idle thread before it becomes current, the
      vCPU thread while it is not ready. A processor schedules only once it has a current thread. */
  predicate Enabled(c: Cpu, step: Step) {
    match step
    case Init(_, t) => if t.Idle? then c.s.curr.None? else c.s.vcpu == UNKNOWN || c.s.vcpu == BLOCKED
    case Start(_) => c.s.curr.None? && c.s.idle == BLOCKED
    case Sleep(_, _) => c.s.vcpu != UNKNOWN
    case Wake(_, _) => c.s.vcpu != UNKNOWN
    case Kick(_, _) => c.s.vcpu != UNKNOWN
    case Enter(_) => c.s.curr.Some? && c.phase.Outside?
    case Locked(_) => c.phase.Entered?
    case Switch(_) => c.phase.Switching?
  }

  function Apply(c: Cpu, step: Step): Cpu
    requires Enabled(c, step)
  {
    match step
    case Init(_, t) => c.(s := Initialized(c.s, t))
    case Start(_) => c.(s := Started(c.s), stack := Some(Idle))
    case Sleep(_, remote) => c.(s := Slept(c.s, Vcpu, remote))
    case Wake(_, remote) => c.(s := Woken(c.s, Vcpu, remote))
    case Kick(_, remote) => c.(s := Kicked(c.s, Vcpu, remote))
    case Enter(_) => c.(phase := Entered(c.s.curr.value))
    case Locked(_) =>
      var prev, next := c.phase.prev, Pick(c.s);
      c.(s := Scheduled(c.s, prev), phase := if prev != next then Switching(prev, next) else Outside)
    case Switch(_) => c.(phase := Outside, stack := Some(c.phase.next))
  }

  /** The thread a processor found current before it took the lock still is when it has it, and the
      processor uses the stack of its current thread except between the lock and the switch. */
  predicate CpuInv(c: Cpu) {
    && SchedInv(c.s)
    && match c.phase
       case Outside => c.stack == c.s.curr
       case Entered(prev) => c.stack == c.s.curr == Some(prev)
       case Switching(prev, next) => c.stack == Some(prev) && c.s.curr == Some(next) && prev != next
  }

  lemma StepKeeps(c: Cpu, step: Step)
    requires CpuInv(c) && Enabled(c, step)
    ensures CpuInv(Apply(c, step))
  {
  }

  /** schedule settles: it leaves the processor with the thread it should run, running, its flag clear,
      and the thread it replaced ready instead of running, or as it was. */
  lemma ScheduleSettles(c: Cpu, step: Step)
    requires CpuInv(c) && Enabled(c, step) && step.Locked?
    ensures var s := Apply(c, step).s;
            && s.curr == Some(Pick(c.s)) && StatusOf(s, Pick(c.s)) == RUNNING && !s.need && Pick(s) == Pick(c.s)
            && (c.phase.prev != Pick(c.s) ==>
                  StatusOf(s, c.phase.prev) == if StatusOf(c.s, c.phase.prev) == RUNNING then RUNNABLE else StatusOf(c.s, c.phase.prev))
            && (c.s.vcpu == BLOCKED <==> s.vcpu == BLOCKED)
  {
  }

  /** A run of a machine: every step changes one processor. */
  predicate StepAt(states: seq<seq<Cpu>>, steps: seq<Step>, i: nat)
    requires i < |steps| && |states| == |steps| + 1
  {
    var p := steps[i].p;
    && p < |states[i]| && Enabled(states[i][p], steps[i])
    && states[i + 1] == states[i][p := Apply(states[i][p], steps[i])]
  }

  predicate IsRun(states: seq<seq<Cpu>>, steps: seq<Step>) {
    && |states| == |steps| + 1
    && (forall p :: 0 <= p < |states[0]| ==> states[0][p] == Cpu(Sched(UNKNOWN, UNKNOWN, None, None, false, 0), Outside, None))
    && forall i: nat :: i < |steps| ==> StepAt(states, steps, i)
  }

  /** In every interleaving, on every processor. */
  lemma {:induction false} RunKeeps(states: seq<seq<Cpu>>, steps: seq<Step>, i: nat, p: nat)
    requires IsRun(states, steps) && i < |states| && p < |states[0]|
    ensures |states[i]| == |states[0]| && CpuInv(states[i][p])
  {
    if i > 0 {
      assert StepAt(states, steps, i - 1);
      RunKeeps(states, steps, i - 1, p);
      if steps[i - 1].p == p {
        StepKeeps(states[i - 1][p], steps[i - 1]);
      }
    }
  }

  /** A wake-up is not lost: once the vCPU thread of a processor is ready, and until it is put to sleep,
      it is running or its processor is going to reschedule, and after the next schedule it is running. */
  lemma {:induction false} ReadyStaysServed(states: seq<seq<Cpu>>, steps: seq<Step>, i: nat, j: nat, p: nat)
    requires IsRun(states, steps) && i <= j < |states| && p < |states[0]|
    requires |states[i]| == |states[0]| && states[i][p].s.noop == Some(Vcpu)
    requires forall m: nat :: i <= m < j ==> !(steps[m].Sleep? && steps[m].p == p)
    ensures |states[j]| == |states[0]|
    ensures var s := states[j][p].s;
            && s.noop == Some(Vcpu) && (s.need || (s.curr == Some(Vcpu) && s.vcpu == RUNNING))
            && ((exists m: nat :: i <= m < j && steps[m] == Locked(p)) ==> s.curr == Some(Vcpu) && s.vcpu == RUNNING)
  {
    RunKeeps(states, steps, j, p);
    if i < j {
      assert StepAt(states, steps, j - 1);
      RunKeeps(states, steps, j - 1, p);
      ReadyStaysServed(states, steps, i, j - 1, p);
    }
  }

  /** What a wake-up of a blocked vCPU thread starts: the thread is ready, its processor is going to
      reschedule, and was signalled by another one. Any other wake-up changes nothing. */
  lemma WakeStarts(states: seq<seq<Cpu>>, steps: seq<Step>, i: nat, p: nat, remote: bool)
    requires IsRun(states, steps) && i < |steps| && steps[i] == Wake(p, remote) && p < |states[0]|
    ensures |states[i]| == |states[i + 1]| == |states[0]|
    ensures var c, c' := states[i][p], states[i + 1][p];
            if c.s.vcpu == BLOCKED then
              && c.s.noop == None && c'.s.noop == Some(Vcpu) && c'.s.vcpu == RUNNABLE && c'.s.need
              && c'.s.inits == (if remote then c.s.inits + 1 else c.s.inits)
              && c'.s.curr == c.s.curr && c'.s.idle == c.s.idle && c'.phase == c.phase && c'.stack == c.stack
            else c' == c
  {
    assert StepAt(states, steps, i);
    RunKeeps(states, steps, i, p);
    RunKeeps(states, steps, i + 1, p);
  }

  /** From the wake-up of a blocked vCPU thread until it is put to sleep again it is running or about to
      be scheduled, and after the next schedule it is running. */
  lemma WakeIsServed(states: seq<seq<Cpu>>, steps: seq<Step>, i: nat, j: nat, p: nat, remote: bool)
    requires IsRun(states, steps) && i < j < |states| && p < |states[0]| && steps[i] == Wake(p, remote)
    requires |states[i]| == |states[0]| && states[i][p].s.vcpu == BLOCKED
    requires forall m: nat :: i < m < j ==> !(steps[m].Sleep? && steps[m].p == p)
    ensures |states[j]| == |states[0]|
    ensures var s := states[j][p].s;
            && s.noop == Some(Vcpu) && (s.need || (s.curr == Some(Vcpu) && s.vcpu == RUNNING))
            && ((exists m: nat :: i < m < j && steps[m] == Locked(p)) ==> s.curr == Some(Vcpu) && s.vcpu == RUNNING)
  {
    WakeStarts(states, steps, i, p, remote);
    hide IsRun;
    ReadyStaysServed(states, steps, i + 1, j, p);
  }

  /** A thread that was put to sleep is blocked until it is woken, and after the next schedule its processor
      runs the idle thread; it was made to reschedule if the thread was running. */
  lemma {:induction false} SleepIsServed(states: seq<seq<Cpu>>, steps: seq<Step>, i: nat, j: nat, p: nat, remote: bool)
    requires IsRun(states, steps) && i < j < |states| && p < |states[0]| && steps[i] == Sleep(p, remote)
    requires forall m: nat :: i < m < j ==> !(steps[m].Wake? && steps[m].p == p)
    ensures |states[i]| == |states[j]| == |states[0]|
    ensures var s, s' := states[i][p].s, states[j][p].s;
            && s'.vcpu == BLOCKED && s'.noop == None
            && (j == i + 1 ==> s'.need == (s.need || s.vcpu == RUNNING)
                               && s'.inits == s.inits + (if remote && s.vcpu == RUNNING then 1 else 0))
            && (s'.need || s'.curr == None || (s'.curr == Some(Idle) && s'.idle == RUNNING))
            && ((exists m: nat :: i < m < j && steps[m] == Locked(p)) ==> s'.curr == Some(Idle) && s'.idle == RUNNING)
  {
    RunKeeps(states, steps, j, p);
    RunKeeps(states, steps, j - 1, p);
    assert StepAt(states, steps, j - 1);
    if i + 1 < j {
      SleepIsServed(states, steps, i, j - 1, p, remote);
    }
  }
}

/** The calls of vtd.c running beside each other and beside the hardware, which fills its caches from
    memory, drops cached entries and executes invalidation requests whenever it likes.

    Memory is what processors write (cpu) and what the hardware sees (hw): a cache line gets from the
    one to the other when it is flushed, or written back at any other time. Entries that are not
    present are never cached (Caching Mode is 0, section 6.1 of the VT-d specification). */
module VtdProtocol {
  import opened Wrappers
  import opened VtdEntries
  import opened VtdCalls

  /** A call in progress: what the entry held when it began, and how many operations it has done. */
  datatype Run = Run(call: Call, was: DmarEntry, pc: nat)

  /** A call that has found the root entry of its bus absent and installs it. Any number of calls can do
      so at once, for the devices of a bus: they all write the same entry. */
  datatype Install = Install(bus: bv8, pc: nat)

  /** A translation in the IOTLB, tagged with its domain, and the table it was found in. */
  datatype Tlb = Tlb(sid: bv16, page: nat, did: bv16, table: bv64)

  /** The request of the call that holds the queue's lock: phases 0 to 5 are the stores of
      dmar_issue_qi_request up to the one to the tail register, 6 is the spin wait. */
  datatype Request = Request(owner: Key, statusHpa: bv64, start: nat, phase: nat, completed: bool)

  /** The calls in progress, the entry that belongs to the context table of each bus, and the
      invalidation queue. */
  datatype Control = Control(
    calls: map<Key, Run>,
    installs: map<nat, Install>,
    roots: imap<bv8, DmarEntry>,
    queue: seq<Desc>,
    qiTail: nat,
    tailRegister: nat,
    head: nat,
    request: Option<Request>)

  datatype State = State(
    cpu: imap<Key, DmarEntry>,
    hw: imap<Key, DmarEntry>,
    cache: map<Key, DmarEntry>,
    iotlb: set<Tlb>,
    ctl: Control)

  datatype Step =
    | Begin(k: Key, call: Call)
    | Access(k: Key)
    | Lock(k: Key, statusHpa: bv64)
    | Advance
    | Unlock
    | End(k: Key)
    | BeginRoot(n: nat, bus: bv8)
    | AccessRoot(n: nat)
    | EndRoot(n: nat)
    | WriteBack(k: Key)
    | Fill(k: Key)
    | Evict(k: Key)
    | WalkMemory(sid: bv16, page: nat)
    | WalkCached(sid: bv16, page: nat)
    | EvictTlb(e: Tlb)
    | Consume

  // ---- The steps ----

  ghost predicate Total(s: State) {
    && (forall k: Key :: k in s.cpu && k in s.hw)
    && (forall b: bv8 :: b in s.ctl.roots && Present(s.ctl.roots[b].lo))
  }

  /** The stores and the flush that install a root entry. */
  ghost function RootOps(c: Control, bus: bv8): seq<Op>
    requires bus in c.roots && Present(c.roots[bus].lo)
  {
    Program(Root(bus), Add(c.roots[bus]))
  }

  /** The call on k has an operation left, which is a request or not. */
  ghost predicate NextIs(c: Control, k: Key, issue: bool) {
    && k in c.calls && Sensible(k, c.calls[k].call)
    && c.calls[k].pc < |Program(k, c.calls[k].call)|
    && Program(k, c.calls[k].call)[c.calls[k].pc].Issue? == issue
  }

  ghost function NextOp(c: Control, k: Key): Op
    requires k in c.calls && Sensible(k, c.calls[k].call) && c.calls[k].pc < |Program(k, c.calls[k].call)|
  {
    Program(k, c.calls[k].call)[c.calls[k].pc]
  }

  /** When a step can happen. A call begins when no other call is about its device or interrupt; a device
      is added when it is absent and removed from the domain it is in; a root entry is installed when
      it is found absent. */
  ghost predicate Enabled(s: State, step: Step) {
    var c := s.ctl;
    && Total(s)
    && match step
       case Begin(k, call) =>
         && k !in c.calls && !k.Root? && Sensible(k, call)
         && (call.Add? ==> !Present(s.cpu[k].lo))
         && (call.Remove? ==> Present(s.cpu[k].lo) ==> DomainOf(s.cpu[k].hi) == call.did)
         && (call.Free? ==> call.lo == Cleared(s.cpu[k].lo))
       case Access(k) => NextIs(c, k, false)
       case Lock(k, _) => c.request.None? && NextIs(c, k, true)
       case Advance =>
         && c.request.Some? && c.request.value.phase < 6 && NextIs(c, c.request.value.owner, true)
         && Slot(c.qiTail) < |c.queue|
       case Unlock => CanUnlock(c)
       case End(k) => k in c.calls && Sensible(k, c.calls[k].call) && c.calls[k].pc == |Program(k, c.calls[k].call)|
       case BeginRoot(n, bus) => n !in c.installs && !Present(s.cpu[Root(bus)].lo)
       case AccessRoot(n) => n in c.installs && c.installs[n].pc < 3
       case EndRoot(n) => n in c.installs && c.installs[n].pc == 3
       case WriteBack(k) => true
       case Fill(k) => Present(s.hw[k].lo)
       case Evict(k) => k in s.cache
       case WalkMemory(sid, _) => Present(s.hw[Ctx(sid)].lo)
       case WalkCached(sid, _) => Ctx(sid) in s.cache
       case EvictTlb(e) => e in s.iotlb
       case Consume => HasRequest(c)
  }

  predicate HasRequest(c: Control) {
    c.head != c.tailRegister && Slot(c.head) < |c.queue|
  }

  ghost predicate CanUnlock(c: Control) {
    c.request.Some? && c.request.value.phase == 6 && c.request.value.completed && c.request.value.owner in c.calls
  }

  ghost function Done(c: Control, k: Key): Control
    requires k in c.calls
  {
    c.(calls := c.calls[k := c.calls[k].(pc := c.calls[k].pc + 1)])
  }

  ghost function Accessed(s: State, k: Key): State
    requires Total(s) && NextIs(s.ctl, k, false)
  {
    Performed(s, k, NextOp(s.ctl, k)).(ctl := Done(s.ctl, k))
  }

  ghost function AccessedRoot(s: State, n: nat): State
    requires Enabled(s, AccessRoot(n))
  {
    var i := s.ctl.installs[n];
    Performed(s, Root(i.bus), RootOps(s.ctl, i.bus)[i.pc]).(ctl := s.ctl.(installs := s.ctl.installs[n := i.(pc := i.pc + 1)]))
  }

  /** What a store or a flush does to memory. */
  ghost function Performed(s: State, k: Key, op: Op): State
    requires Total(s)
  {
    if op.FlushLine? then s.(hw := s.hw[k := s.cpu[k]]) else s.(cpu := s.cpu[k := Written(s.cpu[k], op)])
  }

  /** An entry after a write to one of its halves. */
  function Written(e: DmarEntry, op: Op): DmarEntry {
    match op
    case WriteHi(_, hi) => DmarEntry(hi, e.lo)
    case WriteLo(_, lo) => DmarEntry(e.hi, lo)
    case _ => e
  }

  /** dmar_issue_qi_request, store by store. */
  ghost function Advanced(c: Control): Control
    requires c.request.Some? && NextIs(c, c.request.value.owner, true) && Slot(c.qiTail) < |c.queue|
  {
    var r := c.request.value;
    var c' := c.(request := Some(r.(phase := r.phase + 1)));
    if r.phase == 0 then c'.(queue := c.queue[Slot(c.qiTail) := NextOp(c, r.owner).desc])
    else if r.phase == 1 then c'.(qiTail := Next(c.qiTail))
    else if r.phase == 2 then c'.(queue := c.queue[Slot(c.qiTail) := Wait(r.statusHpa)])
    else if r.phase == 3 then c'.(qiTail := Next(c.qiTail))
    else if r.phase == 4 then c.(request := Some(r.(phase := 5, completed := false)))
    else c'.(tailRegister := c.qiTail)
  }

  /** What the hardware does for a descriptor, at least: it may drop more, by other steps. */
  ghost function Executed(s: State, d: Desc): State {
    match d
    case CtxGlobal => s.(cache := map k | k in s.cache && !k.Ctx? :: s.cache[k])
    case CtxDevice(did, sid, _) =>
      if Ctx(sid) in s.cache && DomainOf(s.cache[Ctx(sid)].hi) == did then s.(cache := s.cache - {Ctx(sid)}) else s
    case IotlbGlobal => s.(iotlb := {})
    case IotlbDomain(did) => s.(iotlb := set e | e in s.iotlb && e.did != did)
    case IecGlobal => s.(cache := map k | k in s.cache && !k.Irte? :: s.cache[k])
    case IecIndex(index, _) => s.(cache := s.cache - {Irte(index)})
    case Wait(a) => s.(ctl := Signalled(s.ctl, a))
    case Invalid => s
  }

  ghost function Signalled(c: Control, statusHpa: bv64): Control {
    if c.request.Some? && c.request.value.statusHpa == statusHpa
    then c.(request := Some(c.request.value.(completed := true))) else c
  }

  ghost function Consumed(s: State): State
    requires HasRequest(s.ctl)
  {
    var s' := Executed(s, s.ctl.queue[Slot(s.ctl.head)]);
    s'.(ctl := s'.ctl.(head := Next(s.ctl.head)))
  }

  ghost function Unlocked(s: State): State
    requires CanUnlock(s.ctl)
  {
    s.(ctl := Done(s.ctl, s.ctl.request.value.owner).(request := None))
  }

  ghost function Translated(s: State, sid: bv16, page: nat, e: DmarEntry): State {
    s.(iotlb := s.iotlb + {Tlb(sid, page, DomainOf(e.hi), TablePointer(e.lo))})
  }

  ghost function Apply(s: State, step: Step): State
    requires Enabled(s, step)
  {
    match step
    case Begin(k, call) => s.(ctl := s.ctl.(calls := s.ctl.calls[k := Run(call, s.cpu[k], 0)]))
    case Access(k) => Accessed(s, k)
    case Lock(k, a) => s.(ctl := s.ctl.(request := Some(Request(k, a, s.ctl.qiTail, 0, true))))
    case Advance => s.(ctl := Advanced(s.ctl))
    case Unlock => Unlocked(s)
    case End(k) => s.(ctl := s.ctl.(calls := s.ctl.calls - {k}))
    case BeginRoot(n, bus) => s.(ctl := s.ctl.(installs := s.ctl.installs[n := Install(bus, 0)]))
    case AccessRoot(n) => AccessedRoot(s, n)
    case EndRoot(n) => s.(ctl := s.ctl.(installs := s.ctl.installs - {n}))
    case WriteBack(k) => s.(hw := s.hw[k := s.cpu[k]])
    case Fill(k) => s.(cache := s.cache[k := s.hw[k]])
    case Evict(k) => s.(cache := s.cache - {k})
    case WalkMemory(sid, page) => Translated(s, sid, page, s.hw[Ctx(sid)])
    case WalkCached(sid, page) => Translated(s, sid, page, s.cache[Ctx(sid)])
    case EvictTlb(e) => s.(iotlb := s.iotlb - {e})
    case Consume => Consumed(s)
  }

  // ---- The invariant ----

  /** The entry after the first operations of a call. */
  function After(call: Call, was: DmarEntry, pc: nat): DmarEntry {
    match call
    case Add(e) => if pc == 0 then was else if pc == 1 then DmarEntry(e.hi, was.lo) else e
    case Remove(_) => if pc == 0 then was else if pc == 1 then DmarEntry(was.hi, 0) else EMPTY
    case Assign(e) => if pc == 0 then was else if pc == 1 then DmarEntry(e.hi, was.lo) else e
    case Free(lo) => if pc == 0 then was else DmarEntry(was.hi, lo)
  }

  /** The position of the flush: the writes come before, the requests after it. */
  function FlushAt(call: Call): nat {
    if call.Free? then 1 else 2
  }

  ghost predicate RunOk(k: Key, r: Run) {
    && !k.Root? && Sensible(k, r.call) && r.pc <= |Program(k, r.call)|
    && (r.call.Add? ==> !Present(r.was.lo))
    && (r.call.Remove? ==> Present(r.was.lo) ==> DomainOf(r.was.hi) == r.call.did)
  }

  /** Once a call has flushed its entry the hardware sees it; before, the hardware sees the entry as
      it was after one of the writes so far. */
  ghost predicate MemoryInv(c: Control, k: Key, cpu: DmarEntry, hw: DmarEntry) {
    if k.Root? then k !in c.calls && RootInv(c, k.bus, cpu, hw)
    else if k !in c.calls then cpu == hw else RunOk(k, c.calls[k]) && RunMemory(c.calls[k], cpu, hw)
  }

  ghost predicate RunMemory(r: Run, cpu: DmarEntry, hw: DmarEntry) {
    && cpu == After(r.call, r.was, r.pc)
    && if r.pc > FlushAt(r.call) then hw == cpu
       else hw == r.was || hw == cpu || (r.pc == 2 && hw == After(r.call, r.was, 1))
  }

  predicate Installs(c: Control, n: nat, bus: bv8) {
    n in c.installs && c.installs[n].bus == bus
  }

  /** Whoever installs a root entry writes its upper half first, so once the entry is present it is
      whole, and it stays as it is while others install it again. */
  ghost predicate RootInv(c: Control, bus: bv8, cpu: DmarEntry, hw: DmarEntry) {
    && bus in c.roots
    && (Present(cpu.lo) ==> cpu == c.roots[bus]) && (Present(hw.lo) ==> hw == cpu)
    && (cpu != hw ==> exists n: nat :: Installs(c, n, bus))
    && forall n: nat :: Installs(c, n, bus) ==> InstallInv(c.installs[n].pc, c.roots[bus], cpu, hw)
  }

  predicate InstallInv(pc: nat, e: DmarEntry, cpu: DmarEntry, hw: DmarEntry) {
    pc <= 3 && (pc >= 1 ==> cpu.hi == e.hi) && (pc >= 2 ==> cpu == e) && (pc == 3 ==> hw == cpu)
  }

  /** The hardware has executed the request of the lock's holder, which is the call on k. */
  ghost predicate RequestExecuted(c: Control, k: Key) {
    c.request.Some? && c.request.value.owner == k && c.request.value.phase == 6 && c.head != c.request.value.start
  }

  /** Operation i of the call on k is an invalidation that has not been executed. */
  ghost predicate Pending(c: Control, k: Key, i: nat) {
    k in c.calls && (c.calls[k].pc < i || (c.calls[k].pc == i && !RequestExecuted(c, k)))
  }

  /** A stale copy of entry k may be in a hardware cache: its invalidation is still to come. */
  ghost predicate StaleCovered(c: Control, k: Key, e: DmarEntry) {
    && k in c.calls && Pending(c, k, FlushAt(c.calls[k].call) + 1)
    && !c.calls[k].call.Add?
    && (c.calls[k].call.Remove? ==> DomainOf(e.hi) == c.calls[k].call.did)
  }

  ghost predicate CacheInv(c: Control, k: Key, cached: DmarEntry, hw: DmarEntry) {
    Present(cached.lo) && (cached == hw || StaleCovered(c, k, cached))
  }

  ghost predicate TlbCovered(c: Control, e: Tlb) {
    var k := Ctx(e.sid);
    Pending(c, k, 4) && c.calls[k].call.Remove? && e.did == c.calls[k].call.did
  }

  predicate TlbOf(e: Tlb, now: DmarEntry) {
    Present(now.lo) && e.did == DomainOf(now.hi) && e.table == TablePointer(now.lo)
  }

  ghost predicate QueueInv(c: Control) {
    && |c.queue| == DMAR_NUM_ENTRIES_PER_PAGE
    && match c.request
       case None => c.head == c.tailRegister == c.qiTail && PairStart(c.qiTail)
       case Some(r) =>
         && PairStart(r.start) && r.phase <= 6
         && NextIs(c, r.owner, true)
         && c.qiTail == (if r.phase <= 1 then r.start else if r.phase <= 3 then Next(r.start) else Next(Next(r.start)))
         && (r.phase >= 1 ==> c.queue[Slot(r.start)] == NextOp(c, r.owner).desc)
         && (r.phase >= 3 ==> c.queue[Slot(Next(r.start))] == Wait(r.statusHpa))
         && (r.phase == 5 ==> !r.completed)
         && if r.phase < 6 then c.head == c.tailRegister == r.start
            else
              && c.tailRegister == Next(Next(r.start))
              && (c.head == r.start || c.head == Next(r.start) || c.head == c.tailRegister)
              && (r.completed <==> c.head == c.tailRegister)
  }

  ghost predicate KeyInv(s: State, k: Key)
    requires Total(s)
  {
    MemoryInv(s.ctl, k, s.cpu[k], s.hw[k]) && (k in s.cache ==> CacheInv(s.ctl, k, s.cache[k], s.hw[k]))
  }

  ghost predicate TlbInv(s: State, e: Tlb)
    requires Total(s)
  {
    TlbOf(e, s.hw[Ctx(e.sid)]) || TlbCovered(s.ctl, e)
  }

  ghost predicate Inv(s: State) {
    && Total(s) && QueueInv(s.ctl)
    && (forall k: Key :: KeyInv(s, k))
    && (forall e: Tlb :: e in s.iotlb ==> TlbInv(s, e))
  }

  // ---- Every step keeps it ----

  /** Nothing that matters to entry k has changed. */
  ghost predicate SameFor(s: State, s': State, k: Key)
    requires Total(s) && Total(s')
  {
    && s'.cpu[k] == s.cpu[k] && s'.hw[k] == s.hw[k]
    && (k in s'.cache ==> k in s.cache && s'.cache[k] == s.cache[k])
    && SameControl(s.ctl, s'.ctl, k)
  }

  ghost predicate SameControl(c: Control, c': Control, k: Key) {
    && (k in c'.calls <==> k in c.calls) && (k in c.calls ==> c'.calls[k] == c.calls[k])
    && (RequestExecuted(c', k) <==> RequestExecuted(c, k))
    && c'.roots == c.roots && (k.Root? ==> c'.installs == c.installs || SameInstalls(c, c', k.bus))
  }

  ghost predicate SameInstalls(c: Control, c': Control, bus: bv8) {
    forall n: nat ::
      (Installs(c', n, bus) <==> Installs(c, n, bus)) && (Installs(c, n, bus) && Installs(c', n, bus) ==> c'.installs[n] == c.installs[n])
  }

  lemma RootFrame(c: Control, c': Control, bus: bv8, cpu: DmarEntry, hw: DmarEntry)
    requires (c'.installs == c.installs || SameInstalls(c, c', bus)) && c'.roots == c.roots && RootInv(c, bus, cpu, hw)
    ensures RootInv(c', bus, cpu, hw)
  {
    hide Present;
    if cpu != hw {
      var n: nat :| Installs(c, n, bus);
      assert Installs(c', n, bus);
    }
    forall n: nat | Installs(c', n, bus)
      ensures InstallInv(c'.installs[n].pc, c'.roots[bus], cpu, hw)
    {
      assert Installs(c, n, bus);
    }
  }

  lemma KeyFrame(s: State, s': State, k: Key)
    requires Total(s) && Total(s') && SameFor(s, s', k) && KeyInv(s, k)
    ensures KeyInv(s', k)
  {
    hide Present, DomainOf, After, RunOk, RequestExecuted, RootInv, SameInstalls;
    if k.Root? {
      RootFrame(s.ctl, s'.ctl, k.bus, s.cpu[k], s.hw[k]);
    }
  }

  lemma TlbFrame(s: State, s': State, e: Tlb)
    requires Total(s) && Total(s') && SameFor(s, s', Ctx(e.sid)) && TlbInv(s, e)
    ensures TlbInv(s', e)
  {
    hide TlbOf, RequestExecuted, SameInstalls;
  }

  /** A step that matters to one entry only, and keeps what the invariant says of it. */
  lemma StepOn(s: State, s': State, k: Key)
    requires Inv(s) && Total(s') && QueueInv(s'.ctl)
    requires forall k': Key :: k' != k ==> SameFor(s, s', k')
    requires KeyInv(s', k)
    requires forall e: Tlb :: e in s'.iotlb && (e !in s.iotlb || Ctx(e.sid) == k) ==> TlbInv(s', e)
    ensures Inv(s')
  {
    hide QueueInv, KeyInv, TlbInv, SameFor;
    forall k': Key
      ensures KeyInv(s', k')
    {
      if k' != k {
        KeyFrame(s, s', k');
      }
    }
    forall e: Tlb | e in s'.iotlb
      ensures TlbInv(s', e)
    {
      if e in s.iotlb && Ctx(e.sid) != k {
        TlbFrame(s, s', e);
      }
    }
  }

  /** The queue does not depend on calls that do not hold its lock. */
  lemma QueueFrame(c: Control, calls: map<Key, Run>)
    requires QueueInv(c)
    requires c.request.Some? ==> c.request.value.owner in calls && calls[c.request.value.owner] == c.calls[c.request.value.owner]
    ensures QueueInv(c.(calls := calls))
  {
    hide Program, Sensible;
  }

  lemma BeginKeeps(s: State, k: Key, call: Call)
    requires Inv(s) && Enabled(s, Begin(k, call))
    ensures Inv(Apply(s, Begin(k, call)))
  {
    hide Present, DomainOf, TablePointer, Cleared, QueueInv, TlbOf, Program, SameInstalls;
    var s' := Apply(s, Begin(k, call));
    NotOwner(s.ctl, k);
    QueueFrame(s.ctl, s'.ctl.calls);
    assert KeyInv(s, k);
    assert forall e: Tlb :: e in s'.iotlb ==> TlbInv(s, e);
    StepOn(s, s', k);
  }

  lemma EndKeeps(s: State, k: Key)
    requires Inv(s) && Enabled(s, End(k))
    ensures Inv(Apply(s, End(k)))
  {
    hide Present, DomainOf, TablePointer, Cleared, QueueInv, TlbOf, SameInstalls;
    var s' := Apply(s, End(k));
    NotOwner(s.ctl, k);
    QueueFrame(s.ctl, s'.ctl.calls);
    assert KeyInv(s, k);
    assert forall e: Tlb :: e in s'.iotlb ==> TlbInv(s, e);
    StepOn(s, s', k);
  }

  /** A call whose next operation is no request does not hold the lock. */
  lemma NotOwner(c: Control, k: Key)
    requires QueueInv(c) && !NextIs(c, k, true)
    ensures c.request.Some? ==> c.request.value.owner in c.calls && c.request.value.owner != k
  {
    hide Program, Sensible;
  }

  lemma AccessKeeps(s: State, k: Key)
    requires Inv(s) && Enabled(s, Access(k))
    ensures Inv(Apply(s, Access(k)))
  {
    var s' := Apply(s, Access(k));
    NotOwner(s.ctl, k);
    QueueFrame(s.ctl, s'.ctl.calls);
    AccessKeepsKey(s, k);
    AccessOnlyOn(s, k);
    hide Present, DomainOf, TablePointer, Cleared, QueueInv, TlbInv, KeyInv, Program, Sensible, Written, SameFor;
    forall e: Tlb | e in s.iotlb && Ctx(e.sid) == k
      ensures TlbInv(s', e)
    {
      AccessKeepsTlb(s, k, e);
    }
    StepOn(s, s', k);
  }

  lemma AccessOnlyOn(s: State, k: Key)
    requires Total(s) && NextIs(s.ctl, k, false)
    ensures Total(Accessed(s, k))
    ensures forall k': Key :: k' != k ==> SameFor(s, Accessed(s, k), k')
  {
    hide Program, Sensible, Written;
  }

  /** The next operation of a call takes its entry from one stage to the next; its writes come before
      its flush, its flush before its requests. */
  lemma OpAdvances(k: Key, r: Run)
    requires RunOk(k, r) && r.pc < |Program(k, r.call)|
    ensures var op := Program(k, r.call)[r.pc];
            && After(r.call, r.was, r.pc + 1) == Written(After(r.call, r.was, r.pc), op)
            && (op.WriteHi? || op.WriteLo? <==> r.pc < FlushAt(r.call))
            && (op.FlushLine? <==> r.pc == FlushAt(r.call))
            && (op.Issue? ==> r.pc > FlushAt(r.call))
  {
    hide Present, DomainOf;
    match r.call
    case Add(e) =>
    case Remove(did) => assert r.pc in {0, 1, 2, 3, 4};
    case Assign(e) =>
    case Free(lo) =>
  }

  lemma AccessKeepsKey(s: State, k: Key)
    requires Inv(s) && NextIs(s.ctl, k, false)
    ensures KeyInv(Accessed(s, k), k)
  {
    AccessKeepsMemory(s, k);
    assert KeyInv(s, k);
    OpAdvances(k, s.ctl.calls[k]);
    hide Present, DomainOf, TablePointer, Cleared, QueueInv, TlbInv, Program, Sensible, Written, MemoryInv;
    if Present(s.hw[k].lo) && s.ctl.calls[k].pc <= FlushAt(s.ctl.calls[k].call) {
      AddedUncached(s, k);
    }
  }

  lemma AccessKeepsMemory(s: State, k: Key)
    requires Inv(s) && NextIs(s.ctl, k, false)
    ensures var s' := Accessed(s, k); MemoryInv(s'.ctl, k, s'.cpu[k], s'.hw[k])
  {
    assert KeyInv(s, k);
    hide Present, DomainOf, TablePointer, Cleared, QueueInv, TlbInv, Program, Sensible, Written, CacheInv, RunMemory;
    RunAdvances(k, s.ctl.calls[k], s.cpu[k], s.hw[k]);
  }

  lemma RunAdvances(k: Key, r: Run, cpu: DmarEntry, hw: DmarEntry)
    requires RunOk(k, r) && RunMemory(r, cpu, hw) && r.pc < |Program(k, r.call)| && !Program(k, r.call)[r.pc].Issue?
    ensures var op := Program(k, r.call)[r.pc];
            RunMemory(r.(pc := r.pc + 1), Written(cpu, op), if op.FlushLine? then cpu else hw)
  {
    OpAdvances(k, r);
    hide Program, Sensible, Written, RunOk;
  }

  /** What the hardware can see of an entry before it is flushed. */
  lemma AddedUncached(s: State, k: Key)
    requires Inv(s) && k in s.ctl.calls && s.ctl.calls[k].pc <= FlushAt(s.ctl.calls[k].call) && Present(s.hw[k].lo)
    ensures s.ctl.calls[k].call.Add? ==> s.hw[k] == s.cpu[k]
    ensures s.ctl.calls[k].call.Remove? ==> DomainOf(s.hw[k].hi) == s.ctl.calls[k].call.did
  {
    EmptyIsAbsent();
    assert KeyInv(s, k);
    hide Present, DomainOf, Program, QueueInv;
  }

  lemma AccessKeepsTlb(s: State, k: Key, e: Tlb)
    requires Inv(s) && NextIs(s.ctl, k, false) && e in s.iotlb && Ctx(e.sid) == k
    ensures TlbInv(Accessed(s, k), e)
  {
    EmptyIsAbsent();
    NotOwner(s.ctl, k);
    assert KeyInv(s, k) && TlbInv(s, e);
    OpAdvances(k, s.ctl.calls[k]);
    hide Present, DomainOf, TablePointer, Cleared, QueueInv, CacheInv, Program, Sensible, Written;
  }

  lemma WriteBackKeeps(s: State, k: Key)
    requires Inv(s) && Enabled(s, WriteBack(k))
    ensures Inv(Apply(s, WriteBack(k)))
  {
    var s' := Apply(s, WriteBack(k));
    WriteBackKeepsKey(s, k);
    hide Present, DomainOf, TablePointer, KeyInv, TlbInv, QueueInv, SameInstalls;
    forall e: Tlb | e in s.iotlb && Ctx(e.sid) == k
      ensures TlbInv(s', e)
    {
      WriteBackKeepsTlb(s, k, e);
    }
    StepOn(s, s', k);
  }

  lemma WriteBackKeepsKey(s: State, k: Key)
    requires Inv(s)
    ensures KeyInv(s.(hw := s.hw[k := s.cpu[k]]), k)
  {
    assert KeyInv(s, k);
    hide DomainOf, TablePointer, Cleared, QueueInv, Program, TlbInv, RequestExecuted;
    if k in s.ctl.calls && s.ctl.calls[k].pc <= FlushAt(s.ctl.calls[k].call) {
      NotOwnerBeforeFlush(s, k);
      if Present(s.hw[k].lo) {
        AddedUncached(s, k);
      }
    }
    hide Present;
  }

  lemma WriteBackKeepsTlb(s: State, k: Key, e: Tlb)
    requires Inv(s) && e in s.iotlb && Ctx(e.sid) == k
    ensures TlbInv(s.(hw := s.hw[k := s.cpu[k]]), e)
  {
    EmptyIsAbsent();
    assert KeyInv(s, k) && TlbInv(s, e);
    hide Present, DomainOf, TablePointer, Cleared, QueueInv, CacheInv, Program, RequestExecuted;
  }

  lemma LockKeeps(s: State, k: Key, a: bv64)
    requires Inv(s) && Enabled(s, Lock(k, a))
    ensures Inv(Apply(s, Lock(k, a)))
  {
    hide DomainOf, TablePointer, Cleared, Present, Program, Sensible, KeyInv, TlbInv;
    var s' := Apply(s, Lock(k, a));
    RequestOnly(s, s');
  }

  /** A step of the queue's owner that leaves open whether its request has been executed. */
  lemma RequestOnly(s: State, s': State)
    requires Inv(s) && s' == s.(ctl := s'.ctl) && QueueInv(s'.ctl)
    requires s'.ctl.calls == s.ctl.calls && s'.ctl.installs == s.ctl.installs && s'.ctl.roots == s.ctl.roots
    requires forall k: Key :: RequestExecuted(s'.ctl, k) <==> RequestExecuted(s.ctl, k)
    ensures Inv(s')
  {
    hide QueueInv, RequestExecuted, KeyInv, TlbInv;
    forall k: Key
      ensures KeyInv(s', k)
    {
      KeyFrame(s, s', k);
    }
    forall e: Tlb | e in s'.iotlb
      ensures TlbInv(s', e)
    {
      TlbFrame(s, s', e);
    }
  }

  lemma AdvanceKeeps(s: State)
    requires Inv(s) && Enabled(s, Advance)
    ensures Inv(Apply(s, Advance))
  {
    hide DomainOf, TablePointer, Cleared, Present, Program, Sensible, KeyInv, TlbInv;
    var s' := Apply(s, Advance);
    AdvanceKeepsQueue(s.ctl);
    RequestOnly(s, s');
  }

  lemma AdvanceKeepsQueue(c: Control)
    requires QueueInv(c) && c.request.Some? && c.request.value.phase < 6 && Slot(c.qiTail) < |c.queue|
    ensures QueueInv(Advanced(c))
  {
    PairOfSlots(c.request.value.start);
    hide Program, Sensible, Slot, Next, PairStart;
  }

  lemma UnlockKeeps(s: State)
    requires Inv(s) && Enabled(s, Unlock)
    ensures Inv(Apply(s, Unlock))
  {
    var s', k := Apply(s, Unlock), s.ctl.request.value.owner;
    UnlockKeepsKey(s, k);
    UnlockKeepsQueue(s.ctl);
    UnlockOnlyOn(s);
    hide Enabled, Apply, Unlocked, SameFor, KeyInv, TlbInv, QueueInv, Total;
    forall e: Tlb | e in s.iotlb && Ctx(e.sid) == k
      ensures TlbInv(s', e)
    {
      UnlockKeepsTlb(s, k, e);
    }
    StepOn(s, s', k);
  }

  lemma UnlockOnlyOn(s: State)
    requires Total(s) && CanUnlock(s.ctl)
    ensures var s' := Unlocked(s);
            && Total(s') && s'.iotlb == s.iotlb
            && forall k: Key :: k != s.ctl.request.value.owner ==> SameFor(s, s', k)
  {
    hide Present, SameInstalls;
  }

  lemma UnlockKeepsQueue(c: Control)
    requires QueueInv(c) && c.request.Some? && c.request.value.phase == 6 && c.request.value.completed && c.request.value.owner in c.calls
    ensures QueueInv(Done(c, c.request.value.owner).(request := None))
  {
    PairOfSlots(c.request.value.start);
    hide Program, Sensible, Slot, Next, PairStart;
  }

  lemma UnlockKeepsKey(s: State, k: Key)
    requires Inv(s) && CanUnlock(s.ctl) && k == s.ctl.request.value.owner
    ensures KeyInv(Unlocked(s), k)
  {
    assert KeyInv(s, k);
    OpAdvances(k, s.ctl.calls[k]);
    hide Present, DomainOf, TablePointer, Cleared, TlbInv, Sensible, Written;
  }

  lemma UnlockKeepsTlb(s: State, k: Key, e: Tlb)
    requires Inv(s) && CanUnlock(s.ctl) && k == s.ctl.request.value.owner && e in s.iotlb && Ctx(e.sid) == k
    ensures TlbInv(Unlocked(s), e)
  {
    assert TlbInv(s, e);
    hide TlbOf, Sensible, KeyInv;
  }

  lemma FillKeeps(s: State, step: Step)
    requires Inv(s) && Enabled(s, step) && (step.Fill? || step.Evict?)
    ensures Inv(Apply(s, step))
  {
    var s', k := Apply(s, step), step.k;
    assert KeyInv(s, k);
    hide DomainOf, TablePointer, Cleared, Present, Program, QueueInv, MemoryInv, TlbOf, TlbCovered, StaleCovered, SameInstalls, RequestExecuted;
    assert forall e: Tlb :: e in s'.iotlb ==> TlbInv(s, e);
    StepOn(s, s', k);
  }

  /** A translation by an entry is the entry's, or the removal of its device will drop it. */
  lemma TranslationInv(c: Control, sid: bv16, page: nat, e: DmarEntry, hw: DmarEntry)
    requires CacheInv(c, Ctx(sid), e, hw) && (Ctx(sid) in c.calls ==> RunOk(Ctx(sid), c.calls[Ctx(sid)]))
    ensures var tlb := Tlb(sid, page, DomainOf(e.hi), TablePointer(e.lo)); TlbOf(tlb, hw) || TlbCovered(c, tlb)
  {
    hide DomainOf, TablePointer, Present, Program;
  }

  lemma TranslatedKeeps(s: State, sid: bv16, page: nat, e: DmarEntry)
    requires Inv(s) && CacheInv(s.ctl, Ctx(sid), e, s.hw[Ctx(sid)])
    ensures Inv(Translated(s, sid, page, e))
  {
    var s', k := Translated(s, sid, page, e), Ctx(sid);
    assert KeyInv(s, k);
    TranslationInv(s.ctl, sid, page, e, s.hw[k]);
    hide DomainOf, TablePointer, Present, Program, RequestExecuted, SameInstalls, RunMemory, RunOk;
    hide QueueInv, CacheInv, TlbOf, TlbCovered, RootInv;
    assert forall x: Tlb :: x in s.iotlb ==> TlbInv(s, x);
    StepOn(s, s', k);
  }

  /** What the hardware finds in memory or in a cached entry, it may put in the IOTLB. */
  lemma WalkKeeps(s: State, step: Step)
    requires Inv(s) && Enabled(s, step) && (step.WalkMemory? || step.WalkCached?)
    ensures Inv(Apply(s, step))
  {
    var k := Ctx(step.sid);
    assert KeyInv(s, k);
    hide DomainOf, TablePointer, Present, StaleCovered, Translated, QueueInv, TlbInv, MemoryInv;
    if step.WalkMemory? {
      TranslatedKeeps(s, step.sid, step.page, s.hw[k]);
    } else {
      TranslatedKeeps(s, step.sid, step.page, s.cache[k]);
    }
  }

  lemma EvictTlbKeeps(s: State, e: Tlb)
    requires Inv(s) && Enabled(s, EvictTlb(e))
    ensures Inv(Apply(s, EvictTlb(e)))
  {
    hide DomainOf, TablePointer, Cleared, Present, Program, QueueInv, TlbOf, MemoryInv, CacheInv, TlbCovered;
    var s', k := Apply(s, EvictTlb(e)), Ctx(e.sid);
    assert KeyInv(s, k);
    assert forall e: Tlb :: e in s.iotlb ==> TlbInv(s, e);
    StepOn(s, s', k);
  }

  // ---- Root entries ----

  /** A step of one installation matters to the root entry of its bus only. */
  lemma InstallStep(s: State, s': State, bus: bv8)
    requires Inv(s) && Total(s') && s'.iotlb == s.iotlb && s'.cache == s.cache
    requires s'.ctl == s.ctl.(installs := s'.ctl.installs)
    requires forall b: bv8 :: b != bus ==> SameInstalls(s.ctl, s'.ctl, b)
    requires forall k: Key :: k != Root(bus) ==> s'.cpu[k] == s.cpu[k] && s'.hw[k] == s.hw[k]
    requires RootInv(s'.ctl, bus, s'.cpu[Root(bus)], s'.hw[Root(bus)])
    requires Present(s.hw[Root(bus)].lo) ==> s'.hw[Root(bus)] == s.hw[Root(bus)]
    ensures Inv(s')
  {
    var k := Root(bus);
    assert KeyInv(s, k);
    hide Present, DomainOf, RootInv, SameInstalls, Program, After, TlbOf;
    QueueInstalls(s.ctl, s'.ctl.installs);
    hide QueueInv;
    StepOn(s, s', k);
  }

  lemma QueueInstalls(c: Control, installs: map<nat, Install>)
    requires QueueInv(c)
    ensures QueueInv(c.(installs := installs))
  {
    hide Program, Sensible;
  }

  lemma OtherBuses(c: Control, n: nat, bus: bv8, i: Install)
    requires i.bus == bus && (n in c.installs ==> c.installs[n].bus == bus)
    ensures var c' := c.(installs := c.installs[n := i]); forall b: bv8 :: b != bus ==> SameInstalls(c, c', b)
    ensures var c' := c.(installs := c.installs - {n}); forall b: bv8 :: b != bus ==> SameInstalls(c, c', b)
  {
  }

  lemma BeginRootKeeps(s: State, n: nat, bus: bv8)
    requires Inv(s) && Enabled(s, BeginRoot(n, bus))
    ensures Inv(Apply(s, BeginRoot(n, bus)))
  {
    var s', k := Apply(s, BeginRoot(n, bus)), Root(bus);
    assert KeyInv(s, k);
    OtherBuses(s.ctl, n, bus, Install(bus, 0));
    BegunRootInv(s.ctl, n, bus, s.cpu[k], s.hw[k]);
    hide Inv, RootInv, SameInstalls, Present;
    InstallStep(s, s', bus);
  }

  lemma BegunRootInv(c: Control, n: nat, bus: bv8, cpu: DmarEntry, hw: DmarEntry)
    requires RootInv(c, bus, cpu, hw) && n !in c.installs
    ensures RootInv(c.(installs := c.installs[n := Install(bus, 0)]), bus, cpu, hw)
  {
    hide Present;
    var c' := c.(installs := c.installs[n := Install(bus, 0)]);
    assert Installs(c', n, bus);
    assert forall m: nat :: Installs(c', m, bus) && m != n ==> Installs(c, m, bus);
  }

  lemma EndRootKeeps(s: State, n: nat)
    requires Inv(s) && Enabled(s, EndRoot(n))
    ensures Inv(Apply(s, EndRoot(n)))
  {
    var s', bus := Apply(s, EndRoot(n)), s.ctl.installs[n].bus;
    var k := Root(bus);
    assert KeyInv(s, k);
    OtherBuses(s.ctl, n, bus, s.ctl.installs[n]);
    EndedRootInv(s.ctl, n, bus, s.cpu[k], s.hw[k]);
    hide Inv, RootInv, SameInstalls, Present;
    InstallStep(s, s', bus);
  }

  lemma EndedRootInv(c: Control, n: nat, bus: bv8, cpu: DmarEntry, hw: DmarEntry)
    requires RootInv(c, bus, cpu, hw) && Installs(c, n, bus) && c.installs[n].pc == 3
    ensures RootInv(c.(installs := c.installs - {n}), bus, cpu, hw)
  {
    hide Present;
    var c' := c.(installs := c.installs - {n});
    assert forall m: nat :: Installs(c', m, bus) ==> Installs(c, m, bus);
  }

  lemma AccessRootKeeps(s: State, n: nat)
    requires Inv(s) && Enabled(s, AccessRoot(n))
    ensures Inv(Apply(s, AccessRoot(n)))
  {
    var s', bus := Apply(s, AccessRoot(n)), s.ctl.installs[n].bus;
    var k := Root(bus);
    assert KeyInv(s, k);
    OtherBuses(s.ctl, n, bus, s'.ctl.installs[n]);
    AccessedRootInv(s.ctl, n, bus, s.cpu[k], s.hw[k]);
    hide Inv, RootInv, SameInstalls, Present, Written, Program;
    InstallStep(s, s', bus);
  }

  /** Store by store: an entry that is present already is stored again as it is. */
  lemma AccessedRootInv(c: Control, n: nat, bus: bv8, cpu: DmarEntry, hw: DmarEntry)
    requires RootInv(c, bus, cpu, hw) && Installs(c, n, bus) && c.installs[n].pc < 3 && Present(c.roots[bus].lo)
    ensures var op := RootOps(c, bus)[c.installs[n].pc];
            var cpu' := if op.FlushLine? then cpu else Written(cpu, op);
            var hw' := if op.FlushLine? then cpu else hw;
            && RootInv(c.(installs := c.installs[n := Install(bus, c.installs[n].pc + 1)]), bus, cpu', hw')
            && (Present(hw.lo) ==> hw' == hw)
  {
    var i := c.installs[n];
    var c' := c.(installs := c.installs[n := Install(bus, i.pc + 1)]);
    var op := RootOps(c, bus)[i.pc];
    hide Present;
    assert InstallInv(i.pc, c.roots[bus], cpu, hw);
    assert Installs(c', n, bus);
    assert forall m: nat :: Installs(c', m, bus) && m != n ==> Installs(c, m, bus) && c'.installs[m] == c.installs[m];
  }

  /** The requests of a call are about its own entry. */
  lemma IssueOps(k: Key, r: Run)
    requires RunOk(k, r) && r.pc < |Program(k, r.call)| && Program(k, r.call)[r.pc].Issue?
    ensures var d := Program(k, r.call)[r.pc].desc;
            || (r.call.Remove? && r.pc == 3 && d == CtxDevice(r.call.did, k.sid, 0))
            || (r.call.Remove? && r.pc == 4 && d == IotlbDomain(r.call.did))
            || (!r.call.Add? && !r.call.Remove? && r.pc == FlushAt(r.call) + 1 && d == IecIndex(k.index, 0))
  {
    hide Present, DomainOf;
    match r.call
    case Add(e) =>
    case Remove(did) => assert r.pc in {0, 1, 2, 3, 4};
    case Assign(e) =>
    case Free(lo) =>
  }

  lemma ConsumeKeeps(s: State)
    requires Inv(s) && Enabled(s, Consume)
    ensures Inv(Apply(s, Consume))
  {
    NextDescriptor(s);
    if s.ctl.head == s.ctl.request.value.start {
      RequestKeeps(s);
    } else {
      WaitKeeps(s);
    }
  }

  /** What the hardware finds in the queue is a request or the wait descriptor behind it. */
  lemma NextDescriptor(s: State)
    requires Inv(s) && HasRequest(s.ctl)
    ensures s.ctl.request.Some? && s.ctl.request.value.phase == 6
    ensures s.ctl.head != s.ctl.request.value.start ==>
              s.ctl.head == Next(s.ctl.request.value.start) && s.ctl.queue[Slot(s.ctl.head)] == Wait(s.ctl.request.value.statusHpa)
  {
    hide KeyInv, TlbInv, Program, Sensible;
    if s.ctl.request.Some? {
      PairOfSlots(s.ctl.request.value.start);
    }
    hide Slot, Next, PairStart;
  }

  lemma WaitKeeps(s: State)
    requires Inv(s) && HasRequest(s.ctl) && s.ctl.request.Some? && s.ctl.request.value.phase == 6
    requires s.ctl.head == Next(s.ctl.request.value.start)
    requires s.ctl.queue[Slot(s.ctl.head)] == Wait(s.ctl.request.value.statusHpa)
    ensures Inv(Consumed(s))
  {
    WaitSignals(s, s.ctl.queue[Slot(s.ctl.head)]);
    WaitMovesHead(s.ctl);
    hide Executed, QueueInv, KeyInv, TlbInv;
    RequestOnly(s, Consumed(s));
  }

  lemma WaitMovesHead(c: Control)
    requires QueueInv(c) && c.request.Some? && c.request.value.phase == 6 && c.head == Next(c.request.value.start)
    ensures QueueInv(c.(request := Some(c.request.value.(completed := true)), head := Next(c.head)))
  {
    PairOfSlots(c.request.value.start);
    hide Program, Sensible, Slot, Next, PairStart;
  }

  lemma RequestKeeps(s: State)
    requires Inv(s) && HasRequest(s.ctl) && s.ctl.request.Some? && s.ctl.head == s.ctl.request.value.start
    ensures Inv(Consumed(s))
  {
    var s', k := Consumed(s), s.ctl.request.value.owner;
    RequestKeepsKey(s);
    RequestMovesHead(s);
    RequestOnlyOn(s);
    hide DomainOf, TablePointer, Cleared, Present, KeyInv, TlbInv, Program, Sensible, SameFor, Executed, QueueInv;
    forall e: Tlb | e in s'.iotlb && Ctx(e.sid) == k
      ensures TlbInv(s', e)
    {
      RequestKeepsTlb(s, e);
    }
    StepOn(s, s', k);
  }

  lemma RequestOnlyOn(s: State)
    requires Inv(s) && HasRequest(s.ctl) && s.ctl.request.Some? && s.ctl.head == s.ctl.request.value.start
    ensures var s' := Consumed(s);
            && Total(s') && s'.iotlb <= s.iotlb
            && forall k: Key :: k != s.ctl.request.value.owner ==> SameFor(s, s', k)
  {
    var k := s.ctl.request.value.owner;
    OwnerRuns(s, k);
    IssueOps(k, s.ctl.calls[k]);
    hide DomainOf, TablePointer, Cleared, Present, KeyInv, TlbInv, Program, Sensible, Executed, SameInstalls, RunOk;
    ExecutedDropsOnly(s, s.ctl.queue[Slot(s.ctl.head)]);
  }

  lemma RequestMovesHead(s: State)
    requires Inv(s) && HasRequest(s.ctl) && s.ctl.request.Some? && s.ctl.head == s.ctl.request.value.start
    ensures QueueInv(Consumed(s).ctl)
  {
    var k := s.ctl.request.value.owner;
    OwnerRuns(s, k);
    IssueOps(k, s.ctl.calls[k]);
    PairOfSlots(s.ctl.request.value.start);
    hide DomainOf, TablePointer, Cleared, Present, KeyInv, TlbInv, Program, Sensible, Executed, Slot, Next, PairStart;
    ExecutedDropsOnly(s, s.ctl.queue[Slot(s.ctl.head)]);
  }

  lemma DomainDropped(s: State, d: Desc, e: Tlb)
    requires e in Executed(s, d).iotlb
    ensures d.IotlbDomain? ==> e.did != d.did
  {
    hide DomainOf;
  }

  lemma OwnerRuns(s: State, k: Key)
    requires Inv(s) && s.ctl.request.Some? && k == s.ctl.request.value.owner
    ensures k in s.ctl.calls && RunOk(k, s.ctl.calls[k])
  {
    assert KeyInv(s, k);
    hide Program, Sensible;
  }

  lemma RequestKeepsKey(s: State)
    requires Inv(s) && HasRequest(s.ctl) && s.ctl.request.Some? && s.ctl.head == s.ctl.request.value.start
    ensures Total(Consumed(s)) && KeyInv(Consumed(s), s.ctl.request.value.owner)
  {
    var k := s.ctl.request.value.owner;
    assert KeyInv(s, k);
    EmptyIsAbsent();
    OwnerRuns(s, k);
    IssueOps(k, s.ctl.calls[k]);
    hide DomainOf, TablePointer, Cleared, Present, TlbInv, Program, Sensible;
  }

  lemma RequestKeepsTlb(s: State, e: Tlb)
    requires Inv(s) && HasRequest(s.ctl) && s.ctl.request.Some? && s.ctl.head == s.ctl.request.value.start
    requires e in Consumed(s).iotlb && Ctx(e.sid) == s.ctl.request.value.owner && Total(Consumed(s))
    ensures TlbInv(Consumed(s), e)
  {
    var k := s.ctl.request.value.owner;
    OwnerRuns(s, k);
    IssueOps(k, s.ctl.calls[k]);
    hide DomainOf, TablePointer, Cleared, Present, KeyInv, Program, Sensible, TlbOf, Executed, RunOk;
    var d := s.ctl.queue[Slot(s.ctl.head)];
    ExecutedDropsOnly(s, d);
    DomainDropped(s, d, e);
    assert TlbInv(s, e);
  }

  // ---- Runs ----

  /** Tables in use by nobody, empty caches, an empty queue. */
  ghost predicate Init(s: State) {
    && Total(s) && (forall k: Key :: s.cpu[k] == s.hw[k]) && s.cache == map[] && s.iotlb == {}
    && (forall b: bv8 :: Present(s.cpu[Root(b)].lo) ==> s.cpu[Root(b)] == s.ctl.roots[b])
    && s.ctl.calls == map[] && s.ctl.installs == map[] && s.ctl.request == None
    && |s.ctl.queue| == DMAR_NUM_ENTRIES_PER_PAGE && s.ctl.qiTail == s.ctl.tailRegister == s.ctl.head == 0
  }

  lemma StepKeeps(s: State, step: Step)
    requires Inv(s) && Enabled(s, step)
    ensures Inv(Apply(s, step))
  {
    hide *;
    match step
    case Begin(k, call) => BeginKeeps(s, k, call);
    case Access(k) => AccessKeeps(s, k);
    case Lock(k, a) => LockKeeps(s, k, a);
    case Advance => AdvanceKeeps(s);
    case Unlock => UnlockKeeps(s);
    case End(k) => EndKeeps(s, k);
    case BeginRoot(n, bus) => BeginRootKeeps(s, n, bus);
    case AccessRoot(n) => AccessRootKeeps(s, n);
    case EndRoot(n) => EndRootKeeps(s, n);
    case WriteBack(k) => WriteBackKeeps(s, k);
    case Fill(k) => FillKeeps(s, step);
    case Evict(k) => FillKeeps(s, step);
    case WalkMemory(sid, page) => WalkKeeps(s, step);
    case WalkCached(sid, page) => WalkKeeps(s, step);
    case EvictTlb(e) => EvictTlbKeeps(s, e);
    case Consume => ConsumeKeeps(s);
  }

  /** Steps that can follow each other. */
  ghost predicate IsPath(states: seq<State>, steps: seq<Step>) {
    && |states| == |steps| + 1
    && forall i :: 0 <= i < |steps| ==> StepAt(states, steps, i)
  }

  ghost predicate IsRun(states: seq<State>, steps: seq<Step>) {
    IsPath(states, steps) && Init(states[0])
  }

  ghost predicate StepAt(states: seq<State>, steps: seq<Step>, i: nat)
    requires i < |steps| && |states| == |steps| + 1
  {
    Enabled(states[i], steps[i]) && states[i + 1] == Apply(states[i], steps[i])
  }

  lemma {:induction false} RunKeeps(states: seq<State>, steps: seq<Step>, i: nat)
    requires IsRun(states, steps) && i < |states|
    ensures Inv(states[i])
  {
    if i == 0 {
      hide Present, DomainOf, TablePointer;
    } else {
      RunKeeps(states, steps, i - 1);
      hide Inv, Enabled, Apply, Init;
      assert StepAt(states, steps, i - 1);
      StepKeeps(states[i - 1], steps[i - 1]);
    }
  }

  // ---- What it means ----

  /** An invalidation that will drop cached copies of entry k is still to be executed. */
  ghost predicate InvalidationDue(c: Control, k: Key) {
    k in c.calls && !c.calls[k].call.Add? && Pending(c, k, FlushAt(c.calls[k].call) + 1)
  }

  /** What the hardware has cached is what it would read, or an invalidation is due. Adding a device
      needs none. */
  lemma CachesCoherent(s: State, k: Key)
    requires Inv(s) && k in s.cache
    ensures Present(s.cache[k].lo)
    ensures s.cache[k] == s.hw[k] || InvalidationDue(s.ctl, k)
    ensures k !in s.ctl.calls ==> s.cache[k] == s.hw[k] == s.cpu[k]
  {
    assert KeyInv(s, k);
    hide Program;
  }

  /** The hardware never sees a context entry of which only one half has been written, whenever the
      cache line is written back. */
  lemma ContextNeverTorn(s: State, k: Key)
    requires Inv(s) && !k.Irte? && Present(s.hw[k].lo)
    ensures s.hw[k] == s.cpu[k] || (k in s.ctl.calls && s.ctl.calls[k].call.Remove? && s.hw[k] == s.ctl.calls[k].was)
  {
    assert KeyInv(s, k);
    EmptyIsAbsent();
    hide Present, Program;
  }

  // ---- Replacing an interrupt entry ----

  /** The hardware can read, as a present entry, what is neither the old nor the new one. */
  predicate Torn(seen: DmarEntry, was: DmarEntry, irte: DmarEntry) {
    Present(seen.lo) && seen != was && seen != irte
  }

  /** A path on which the assignment of an interrupt entry begins and has not ended. */
  ghost predicate Assigning(states: seq<State>, steps: seq<Step>, k: Key, irte: DmarEntry) {
    && IsPath(states, steps) && |steps| > 0 && steps[0] == Begin(k, Assign(irte))
    && forall i :: 0 < i < |steps| ==> steps[i] != End(k)
  }

  /** Some such path from a state leads to one in which the entry is seen torn. */
  ghost predicate CanTear(s: State, k: Key, irte: DmarEntry)
    requires Total(s)
  {
    exists states: seq<State>, steps: seq<Step> ::
      Assigning(states, steps, k, irte) && states[0] == s && SeenTorn(states[|steps|], k, s.cpu[k], irte)
  }

  ghost predicate SeenTorn(s: State, k: Key, was: DmarEntry, irte: DmarEntry) {
    Total(s) && Torn(s.hw[k], was, irte)
  }

  /** dmar_assign_irte exposes a mixture of the old and the new entry exactly when the old one is present
      and both halves change. A caller that frees an entry before assigning it again is safe. */
  lemma AssignTearsExactly(s: State, k: Key, irte: DmarEntry)
    requires Inv(s) && k.Irte? && Enabled(s, Begin(k, Assign(irte)))
    ensures CanTear(s, k, irte) <==> Present(s.cpu[k].lo) && irte.hi != s.cpu[k].hi && irte.lo != s.cpu[k].lo
  {
    if CanTear(s, k, irte) {
      var states: seq<State>, steps: seq<Step> :|
        Assigning(states, steps, k, irte) && states[0] == s && SeenTorn(states[|steps|], k, s.cpu[k], irte);
      hide Enabled, Inv, SeenTorn;
      AssignmentRuns(states, steps, k, irte, |steps|);
      TornIsMixed(states[|steps|], k, s.cpu[k], irte);
    }
    if Present(s.cpu[k].lo) && irte.hi != s.cpu[k].hi && irte.lo != s.cpu[k].lo {
      var states, steps := TearingPath(s, k, irte);
    }
  }

  /** Its call stays in progress, and the invariant holds. */
  lemma {:induction false} AssignmentRuns(states: seq<State>, steps: seq<Step>, k: Key, irte: DmarEntry, i: nat)
    requires Assigning(states, steps, k, irte) && 0 < i <= |steps| && Inv(states[0])
    ensures Inv(states[i]) && IsAssigning(states[i], k, states[0].cpu[k], irte)
  {
    assert StepAt(states, steps, i - 1);
    if i == 1 {
      StepKeeps(states[0], steps[0]);
    } else {
      AssignmentRuns(states, steps, k, irte, i - 1);
      hide Inv, Enabled, Apply, IsAssigning;
      StepKeeps(states[i - 1], steps[i - 1]);
      CallStays(states[i - 1], steps[i - 1], k, states[0].cpu[k], irte);
    }
  }

  ghost predicate IsAssigning(s: State, k: Key, was: DmarEntry, irte: DmarEntry) {
    k in s.ctl.calls && s.ctl.calls[k].call == Assign(irte) && s.ctl.calls[k].was == was
  }

  lemma CallStays(s: State, step: Step, k: Key, was: DmarEntry, irte: DmarEntry)
    requires Enabled(s, step) && step != End(k) && IsAssigning(s, k, was, irte)
    ensures IsAssigning(Apply(s, step), k, was, irte)
  {
    if step.Consume? {
      hide Present, Executed;
      ExecutedDropsOnly(s, s.ctl.queue[Slot(s.ctl.head)]);
    } else if step.Begin? || step.Access? || step.Unlock? || step.End? {
      hide Present, Program, Sensible, Written;
    } else {
      CallsUntouched(s, step);
    }
  }

  lemma CallsUntouched(s: State, step: Step)
    requires Enabled(s, step) && !(step.Begin? || step.Access? || step.Unlock? || step.End? || step.Consume?)
    ensures Apply(s, step).ctl.calls == s.ctl.calls
  {
    hide Present, Program, Sensible, Written, DomainOf;
  }

  /** What is seen torn is the new upper half with the old lower one. */
  lemma TornIsMixed(s: State, k: Key, was: DmarEntry, irte: DmarEntry)
    requires Inv(s) && k.Irte? && IsAssigning(s, k, was, irte) && SeenTorn(s, k, was, irte)
    ensures s.hw[k] == DmarEntry(irte.hi, was.lo)
    ensures Present(was.lo) && irte.hi != was.hi && irte.lo != was.lo
    ensures InvalidationDue(s.ctl, k)
  {
    assert KeyInv(s, k);
    hide Present, Program;
    NotOwnerBeforeFlush(s, k);
  }

  /** Three steps lead there: the call begins, stores the upper half, and the cache line is written back.
      A fourth one caches the mixture. */
  lemma TearingPath(s: State, k: Key, irte: DmarEntry) returns (states: seq<State>, steps: seq<Step>)
    requires Inv(s) && k.Irte? && Enabled(s, Begin(k, Assign(irte)))
    requires Present(s.cpu[k].lo) && irte.hi != s.cpu[k].hi && irte.lo != s.cpu[k].lo
    ensures Assigning(states, steps, k, irte) && states[0] == s && SeenTorn(states[|steps|], k, s.cpu[k], irte)
    ensures Enabled(states[|steps|], Fill(k))
    ensures Apply(states[|steps|], Fill(k)).cache[k] == DmarEntry(irte.hi, s.cpu[k].lo)
  {
    BegunAssigning(s, k, irte);
    var s1 := Apply(s, Begin(k, Assign(irte)));
    HalfStored(s1, k, irte, s.cpu[k]);
    var s2 := Apply(s1, Access(k));
    WrittenBack(s2, k);
    var s3 := Apply(s2, WriteBack(k));
    hide Enabled, Apply, Inv, Present;
    states, steps := [s, s1, s2, s3], [Begin(k, Assign(irte)), Access(k), WriteBack(k)];
    assert StepAt(states, steps, 0) && StepAt(states, steps, 1) && StepAt(states, steps, 2);
  }

  lemma WrittenBack(s: State, k: Key)
    requires Total(s)
    ensures Enabled(s, WriteBack(k))
    ensures var s' := Apply(s, WriteBack(k));
            && Total(s') && s'.hw[k] == s.cpu[k]
            && (Present(s'.hw[k].lo) ==> Enabled(s', Fill(k)) && Apply(s', Fill(k)).cache[k] == s'.hw[k])
  {
    hide Present;
  }

  lemma BegunAssigning(s: State, k: Key, irte: DmarEntry)
    requires k.Irte? && Enabled(s, Begin(k, Assign(irte)))
    ensures var s1 := Apply(s, Begin(k, Assign(irte)));
            && Total(s1) && s1.cpu == s.cpu && s1.hw == s.hw
            && k in s1.ctl.calls && s1.ctl.calls[k] == Run(Assign(irte), s.cpu[k], 0)
  {
    hide Present;
  }

  lemma HalfStored(s: State, k: Key, irte: DmarEntry, was: DmarEntry)
    requires Total(s) && k.Irte? && k in s.ctl.calls && s.ctl.calls[k] == Run(Assign(irte), was, 0) && Present(irte.lo)
    ensures Enabled(s, Access(k))
    ensures var s' := Apply(s, Access(k)); Total(s') && s'.cpu[k] == DmarEntry(irte.hi, s.cpu[k].lo)
  {
    hide Present;
  }

  lemma NotOwnerBeforeFlush(s: State, k: Key)
    requires Inv(s) && k in s.ctl.calls
    ensures s.ctl.calls[k].pc <= FlushAt(s.ctl.calls[k].call) ==> !RequestExecuted(s.ctl, k)
  {
    assert KeyInv(s, k);
    if s.ctl.calls[k].pc < |Program(k, s.ctl.calls[k].call)| {
      OpAdvances(k, s.ctl.calls[k]);
    }
    hide Present, DomainOf;
  }

  /** The hardware knows nothing of a device and will learn nothing before it is added. */
  ghost predicate Gone(s: State, sid: bv16) {
    Total(s) && GoneFromMemory(s, Ctx(sid)) && GoneFromCaches(s, sid)
  }

  ghost predicate GoneFromMemory(s: State, k: Key)
    requires Total(s)
  {
    && !Present(s.cpu[k].lo) && !Present(s.hw[k].lo)
    && (k in s.ctl.calls ==> s.ctl.calls[k].call.Remove? && !Present(s.ctl.calls[k].was.lo))
  }

  ghost predicate GoneFromCaches(s: State, sid: bv16) {
    Ctx(sid) !in s.cache && forall e: Tlb :: e in s.iotlb ==> e.sid != sid
  }

  /** When remove_iommu_device returns, its device is gone. */
  lemma RemovedIsGone(s: State, sid: bv16)
    requires Inv(s) && Enabled(s, End(Ctx(sid))) && s.ctl.calls[Ctx(sid)].call.Remove?
    ensures Gone(Apply(s, End(Ctx(sid))), sid)
  {
    var k := Ctx(sid);
    assert KeyInv(s, k);
    EmptyIsAbsent();
    hide Present, DomainOf, QueueInv;
    forall e: Tlb | e in s.iotlb
      ensures e.sid != sid
    {
      assert TlbInv(s, e);
    }
  }

  /** It stays gone whatever anyone does, except to add it. */
  lemma GoneStays(s: State, step: Step, sid: bv16)
    requires Inv(s) && Enabled(s, step) && Gone(s, sid)
    requires !(step.Begin? && step.k == Ctx(sid) && step.call.Add?)
    ensures Gone(Apply(s, step), sid)
  {
    StepKeeps(s, step);
    GoneMemoryStays(s, step, Ctx(sid));
    GoneCachesStay(s, step, sid);
  }

  lemma GoneMemoryStays(s: State, step: Step, k: Key)
    requires Inv(s) && Enabled(s, step) && GoneFromMemory(s, k) && k.Ctx? && Total(Apply(s, step))
    requires !(step.Begin? && step.k == k && step.call.Add?)
    ensures GoneFromMemory(Apply(s, step), k)
  {
    hide Inv, Enabled, Apply, GoneFromMemory;
    match step
    case Begin(_, _) => GoneUnderCalls(s, step, k);
    case Access(k') =>
      if k' == k {
        RemovalStays(s, k);
      } else {
        GoneUnderAccess(s, step, k);
      }
    case Lock(_, _) => GoneUnderQueue(s, step, k);
    case Advance => GoneUnderQueue(s, step, k);
    case Unlock => GoneUnderCalls(s, step, k);
    case End(_) => GoneUnderCalls(s, step, k);
    case BeginRoot(_, _) => GoneUnderAccess(s, step, k);
    case AccessRoot(_) => GoneUnderAccess(s, step, k);
    case EndRoot(_) => GoneUnderAccess(s, step, k);
    case WriteBack(_) => GoneUnderHardware(s, step, k);
    case Fill(_) => GoneUnderHardware(s, step, k);
    case Evict(_) => GoneUnderHardware(s, step, k);
    case WalkMemory(_, _) => GoneUnderHardware(s, step, k);
    case WalkCached(_, _) => GoneUnderHardware(s, step, k);
    case EvictTlb(_) => GoneUnderHardware(s, step, k);
    case Consume => GoneUnderConsume(s, k);
  }

  lemma GoneUnderCalls(s: State, step: Step, k: Key)
    requires Enabled(s, step) && GoneFromMemory(s, k) && k.Ctx? && Total(Apply(s, step))
    requires (step.Begin? && !(step.k == k && step.call.Add?)) || step.Unlock? || step.End?
    ensures GoneFromMemory(Apply(s, step), k)
  {
    hide Present, Program, NextIs;
  }

  lemma GoneUnderAccess(s: State, step: Step, k: Key)
    requires Enabled(s, step) && GoneFromMemory(s, k) && k.Ctx? && Total(Apply(s, step))
    requires (step.Access? && step.k != k) || step.BeginRoot? || step.AccessRoot? || step.EndRoot?
    ensures GoneFromMemory(Apply(s, step), k)
  {
    hide Present, Program, Sensible, Written;
  }

  lemma GoneUnderQueue(s: State, step: Step, k: Key)
    requires Enabled(s, step) && GoneFromMemory(s, k) && Total(Apply(s, step)) && (step.Lock? || step.Advance?)
    ensures GoneFromMemory(Apply(s, step), k)
  {
    hide Present, Program, Sensible;
  }

  lemma GoneUnderHardware(s: State, step: Step, k: Key)
    requires Enabled(s, step) && GoneFromMemory(s, k) && Total(Apply(s, step))
    requires step.WriteBack? || step.Fill? || step.Evict? || step.WalkMemory? || step.WalkCached? || step.EvictTlb?
    ensures GoneFromMemory(Apply(s, step), k)
  {
    hide Present, Program, Sensible;
    if !step.WriteBack? {
      MemoryUntouched(s, step);
      hide Apply, Enabled;
    }
  }

  lemma MemoryUntouched(s: State, step: Step)
    requires Enabled(s, step)
    requires step.Fill? || step.Evict? || step.WalkMemory? || step.WalkCached? || step.EvictTlb?
    ensures var s' := Apply(s, step); s'.cpu == s.cpu && s'.hw == s.hw && s'.ctl == s.ctl
  {
    hide Present, DomainOf, TablePointer;
  }

  lemma GoneUnderConsume(s: State, k: Key)
    requires Enabled(s, Consume) && GoneFromMemory(s, k) && Total(Apply(s, Consume))
    ensures GoneFromMemory(Apply(s, Consume), k)
  {
    hide Present, Executed;
    ExecutedDropsOnly(s, s.ctl.queue[Slot(s.ctl.head)]);
  }

  /** A removal in progress does not make an absent entry present. */
  lemma RemovalStays(s: State, k: Key)
    requires Inv(s) && Enabled(s, Access(k)) && GoneFromMemory(s, k) && k.Ctx? && Total(Apply(s, Access(k)))
    ensures GoneFromMemory(Apply(s, Access(k)), k)
  {
    EmptyIsAbsent();
    assert KeyInv(s, k);
    OpAdvances(k, s.ctl.calls[k]);
    hide Present, QueueInv, Program, TlbInv, DomainOf, Written;
  }

  /** An invalidation drops cached entries and translations, and does nothing else to them. */
  lemma ExecutedDropsOnly(s: State, d: Desc)
    ensures var s' := Executed(s, d);
            && s'.cpu == s.cpu && s'.hw == s.hw && s'.ctl.calls == s.ctl.calls && (!d.Wait? ==> s'.ctl == s.ctl)
            && s'.cache.Keys <= s.cache.Keys && s'.iotlb <= s.iotlb
            && forall k: Key :: k in s'.cache ==> s'.cache[k] == s.cache[k]
  {
    hide DomainOf;
  }

  lemma GoneCachesStay(s: State, step: Step, sid: bv16)
    requires Enabled(s, step) && GoneFromMemory(s, Ctx(sid)) && GoneFromCaches(s, sid)
    ensures GoneFromCaches(Apply(s, step), sid)
  {
    if step.Consume? {
      hide Present, Executed;
      ExecutedDropsOnly(s, s.ctl.queue[Slot(s.ctl.head)]);
    } else if step.Fill? || step.Evict? || step.WalkMemory? || step.WalkCached? || step.EvictTlb? {
      hide Present, DomainOf, TablePointer;
    } else {
      CachesUntouched(s, step);
    }
  }

  lemma CachesUntouched(s: State, step: Step)
    requires Enabled(s, step) && !step.Consume?
    requires !(step.Fill? || step.Evict? || step.WalkMemory? || step.WalkCached? || step.EvictTlb?)
    ensures Apply(s, step).cache == s.cache && Apply(s, step).iotlb == s.iotlb
  {
    hide Present, Program, Sensible, Written, DomainOf;
  }

  /** In every run, from the return of remove_iommu_device to the next add_iommu_device of the device,
      no cached context entry and no cached translation is the device's. */
  lemma {:induction false} NothingReappears(states: seq<State>, steps: seq<Step>, i: nat, j: nat, sid: bv16)
    requires IsRun(states, steps) && i < j < |states|
    requires steps[i] == End(Ctx(sid)) && Ctx(sid) in states[i].ctl.calls && states[i].ctl.calls[Ctx(sid)].call.Remove?
    requires forall m :: i < m < j ==> !(steps[m].Begin? && steps[m].k == Ctx(sid) && steps[m].call.Add?)
    ensures Gone(states[j], sid)
  {
    hide Inv, Enabled, Apply, Gone, Init;
    RunKeeps(states, steps, j - 1);
    assert StepAt(states, steps, j - 1);
    hide StepAt;
    if j == i + 1 {
      RemovedIsGone(states[i], sid);
    } else {
      NothingReappears(states, steps, i, j - 1, sid);
      GoneStays(states[j - 1], steps[j - 1], sid);
    }
  }

  // ---- Why remove_iommu_device does things in its order ----

  /** The two invalidations of a removal, with nothing between them. */
  ghost function Invalidated(s: State, did: bv16, sid: bv16): State {
    Executed(Executed(s, CtxDevice(did, sid, 0)), IotlbDomain(did))
  }

  /** They drop all that is cached of a device exactly when it was cached in that domain, which is why
      a device must be removed from the domain it is in. */
  lemma InvalidationsExact(s: State, did: bv16, sid: bv16)
    ensures GoneFromCaches(Invalidated(s, did, sid), sid) <==>
              (Ctx(sid) in s.cache ==> DomainOf(s.cache[Ctx(sid)].hi) == did) && (forall e: Tlb :: e in s.iotlb && e.sid == sid ==> e.did == did)
  {
    hide DomainOf;
    var s' := Invalidated(s, did, sid);
    assert forall e: Tlb :: e in s'.iotlb <==> e in s.iotlb && e.did != did;
  }

  /** With the IOTLB first, a walk from the cached context entry in between leaves a translation. */
  lemma IotlbFirstLeavesTranslation(s: State, did: bv16, sid: bv16, page: nat)
    requires Ctx(sid) in s.cache
    ensures var s1 := Executed(s, IotlbDomain(did));
            var s2 := Translated(s1, sid, page, s1.cache[Ctx(sid)]);
            !GoneFromCaches(Executed(s2, CtxDevice(did, sid, 0)), sid)
  {
    hide DomainOf, TablePointer;
    var s1 := Executed(s, IotlbDomain(did));
    var s2 := Translated(s1, sid, page, s1.cache[Ctx(sid)]);
    var e := s1.cache[Ctx(sid)];
    assert Tlb(sid, page, DomainOf(e.hi), TablePointer(e.lo)) in Executed(s2, CtxDevice(did, sid, 0)).iotlb;
  }

  /** With the invalidations before the flush, the hardware reads the old entry again. */
  lemma FlushLastLeavesEntry(s: State, did: bv16, sid: bv16)
    requires Total(s) && Present(s.hw[Ctx(sid)].lo) && !Present(s.cpu[Ctx(sid)].lo)
    ensures var s1 := Invalidated(s, did, sid);
            Enabled(s1, Fill(Ctx(sid))) && !GoneFromCaches(Apply(Apply(s1, Fill(Ctx(sid))), WriteBack(Ctx(sid))), sid)
  {
    hide DomainOf, Present;
    ExecutedDropsOnly(s, CtxDevice(did, sid, 0));
    ExecutedDropsOnly(Executed(s, CtxDevice(did, sid, 0)), IotlbDomain(did));
  }

  // ---- The queue ----

  /** The slots whose descriptors the hardware has been given and has not executed. */
  predicate Outstanding(c: Control, slot: nat) {
    if c.head <= c.tailRegister then Slot(c.head) <= slot < Slot(c.tailRegister)
    else Slot(c.head) <= slot < DMAR_NUM_ENTRIES_PER_PAGE || slot < Slot(c.tailRegister)
  }

  /** A descriptor is stored in a slot of the queue that the hardware is done with, and the two of a
      request are next to each other: none straddles the end of the queue. */
  lemma NoDescriptorLost(s: State)
    requires Inv(s) && s.ctl.request.Some? && (s.ctl.request.value.phase == 0 || s.ctl.request.value.phase == 2)
    ensures Slot(s.ctl.qiTail) < DMAR_NUM_ENTRIES_PER_PAGE && !Outstanding(s.ctl, Slot(s.ctl.qiTail))
    ensures Slot(s.ctl.qiTail) == Slot(s.ctl.request.value.start) + (if s.ctl.request.value.phase == 0 then 0 else 1)
    ensures Slot(s.ctl.request.value.start) % 2 == 0
  {
    PairOfSlots(s.ctl.request.value.start);
    hide KeyInv, TlbInv, Program, Sensible;
  }

  /** Between requests the hardware has caught up and the tail is at an even slot. */
  lemma QueueIdle(s: State)
    requires Inv(s) && s.ctl.request.None?
    ensures s.ctl.head == s.ctl.tailRegister == s.ctl.qiTail < DMAR_INVALIDATION_QUEUE_SIZE && s.ctl.qiTail % 32 == 0
  {
  }

  /** The spin wait ends when the hardware has executed the request and then the wait descriptor, and
      that takes the hardware two steps. */
  lemma RequestCompletes(s: State)
    requires Inv(s) && s.ctl.request.Some? && s.ctl.request.value.phase == 6
    ensures var r := s.ctl.request.value;
            if r.completed then RequestExecuted(s.ctl, r.owner) && s.ctl.head == s.ctl.qiTail
            else Total(s) && HasRequest(s.ctl) && Progress(s.ctl, Consumed(s).ctl)
  {
    var k := s.ctl.request.value.owner;
    OwnerRuns(s, k);
    IssueOps(k, s.ctl.calls[k]);
    hide Present, DomainOf, Program, Sensible, KeyInv, TlbInv, Executed, RunOk, RootInv;
    if s.ctl.head == s.ctl.request.value.start {
      ExecutedDropsOnly(s, s.ctl.queue[Slot(s.ctl.head)]);
    } else if !s.ctl.request.value.completed {
      WaitSignals(s, s.ctl.queue[Slot(s.ctl.head)]);
    }
  }

  /** One step of the hardware executes the request, the next one completes it. */
  ghost predicate Progress(c: Control, c': Control) {
    && c.request.Some? && c'.request.Some?
    && var k := c.request.value.owner;
       if RequestExecuted(c, k) then c'.request.value.completed else RequestExecuted(c', k) && !c'.request.value.completed
  }

  lemma WaitSignals(s: State, d: Desc)
    requires s.ctl.request.Some? && d == Wait(s.ctl.request.value.statusHpa)
    ensures Executed(s, d) == s.(ctl := s.ctl.(request := Some(s.ctl.request.value.(completed := true))))
  {
    hide DomainOf;
  }
}

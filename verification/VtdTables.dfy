/** The remapping structures of a DMAR unit and the calls that edit them (vtd.c). */
module VtdTables {
  import opened Wrappers
  import opened VtdEntries
  import opened VtdCalls

  const BUSES: nat := 256
  const DEVFUNS: nat := 256
  const CONFIG_MAX_IR_ENTRIES: nat := 256

  datatype IommuDomain = IommuDomain(vmId: bv16, transTablePtr: bv64, addrWidth: bv32)

  datatype Device = Device(bus: bv8, devfun: bv8)

  /** What the hardware finds for a device. */
  datatype Assignment = Assignment(did: bv16, table: bv64, width: bv64, translation: bv64)

  lemma ByteBelow(b: bv8)
    ensures b as nat < 256
  {
  }

  lemma SameByte(a: bv8, b: bv8)
    requires a as nat == b as nat
    ensures a == b
  {
  }

  function RootIndex(bus: bv8): (r: nat)
    ensures r < BUSES
  {
    ByteBelow(bus);
    bus as nat
  }

  lemma RootIndexApart(bus: bv8, bus': bv8)
    ensures RootIndex(bus) == RootIndex(bus') <==> bus == bus'
  {
    if RootIndex(bus) == RootIndex(bus') {
      SameByte(bus, bus');
    }
  }

  /** Context tables lie one after another. */
  function CtxIndex(table: nat, devfun: bv8): (r: nat)
    ensures DEVFUNS * table <= r < DEVFUNS * (table + 1)
  {
    ByteBelow(devfun);
    DEVFUNS * table + devfun as nat
  }

  lemma CtxIndexApart(table: nat, devfun: bv8, table': nat, devfun': bv8)
    requires CtxIndex(table, devfun) == CtxIndex(table', devfun')
    ensures table == table' && devfun == devfun'
  {
    ByteBelow(devfun);
    ByteBelow(devfun');
    assert table == table';
    SameByte(devfun, devfun');
  }

  // ---- What the hardware finds ----

  /** What the hardware reads in a context entry. */
  function AssignmentIn(e: DmarEntry): Assignment {
    Assignment(DomainOf(e.hi), TablePointer(e.lo), AddressWidth(e.hi), TranslationType(e.lo))
  }

  /** Context tables are pages, each at its own address. */
  ghost predicate AddressesOk(hpa: seq<bv64>, tableAt: map<bv64, nat>) {
    && |hpa| == BUSES
    && (forall b :: 0 <= b < BUSES ==> hpa[b] in tableAt && tableAt[hpa[b]] == b && hpa[b] & PAGE_OFFSET == 0)
    && (forall a :: a in tableAt ==> tableAt[a] < BUSES)
  }

  /** Where the hardware looks for the context entry of a request: the upper byte of the source identifier
      picks the root entry, the lower one the entry of the table it points to. */
  function HardwareIndex(tableAt: map<bv64, nat>, root: seq<DmarEntry>, sid: bv16): (r: Option<nat>)
    requires |root| == BUSES && forall a :: a in tableAt ==> tableAt[a] < BUSES
    ensures r.Some? ==> r.value < BUSES * DEVFUNS
  {
    SourceBytes(sid);
    var entry := root[(sid >> 8) as nat];
    if !Present(entry.lo) || TablePointer(entry.lo) !in tableAt then None
    else
      var table, byte: nat := tableAt[TablePointer(entry.lo)], (sid & 0xFF) as nat;
      Some(DEVFUNS * table + byte)
  }

  lemma SourceBytes(sid: bv16)
    ensures 0 <= (sid >> 8) as int < BUSES && 0 <= (sid & 0xFF) as int < DEVFUNS
  {
  }

  /** What it finds for a device with that source identifier. */
  function Decode(tableAt: map<bv64, nat>, root: seq<DmarEntry>, ctx: seq<DmarEntry>, sid: bv16): Option<Assignment>
    requires |root| == BUSES && |ctx| == BUSES * DEVFUNS && forall a :: a in tableAt ==> tableAt[a] < BUSES
  {
    var index := HardwareIndex(tableAt, root, sid);
    if index.None? || !Present(ctx[index.value].lo) then None else Some(AssignmentIn(ctx[index.value]))
  }

  lemma Widened(b: bv8)
    ensures (b as bv16) as nat == b as nat
  {
  }

  /** The indices the code computes for a device are the bytes of its source identifier. */
  lemma IndicesOfSource(bus: bv8, devfun: bv8, table: nat, sid: bv16)
    requires IsSource(sid, bus, devfun)
    ensures RootIndex(bus) == (sid >> 8) as nat == bus as nat
    ensures CtxIndex(table, devfun) == DEVFUNS * table + (sid & 0xFF) as nat == DEVFUNS * table + devfun as nat
  {
    Widened(bus);
    Widened(devfun);
  }

  function ContextIndex(d: Device): (r: nat)
    ensures r < BUSES * DEVFUNS
  {
    CtxIndex(RootIndex(d.bus), d.devfun)
  }

  lemma ContextIndexApart(d: Device, d': Device)
    ensures ContextIndex(d) == ContextIndex(d') <==> d == d'
  {
    if ContextIndex(d) == ContextIndex(d') {
      CtxIndexApart(RootIndex(d.bus), d.devfun, RootIndex(d'.bus), d'.devfun);
      RootIndexApart(d.bus, d'.bus);
    }
  }

  /** A present root entry points to the context table of its bus. */
  ghost predicate RootOk(hpa: seq<bv64>, root: seq<DmarEntry>, b: bv8)
    requires |hpa| == |root| == BUSES
  {
    Present(root[RootIndex(b)].lo) ==> TablePointer(root[RootIndex(b)].lo) == hpa[RootIndex(b)]
  }

  /** The context entries that are present belong to the devices that were added. */
  ghost predicate ContextOk(root: seq<DmarEntry>, ctx: seq<DmarEntry>, devices: map<Device, Assignment>, d: Device)
    requires |root| == BUSES && |ctx| == BUSES * DEVFUNS
  {
    var e := ctx[ContextIndex(d)];
    if d in devices then Present(root[RootIndex(d.bus)].lo) && Present(e.lo) && AssignmentIn(e) == devices[d]
    else !Present(e.lo)
  }

  ghost predicate TablesOk(hpa: seq<bv64>, root: seq<DmarEntry>, ctx: seq<DmarEntry>, devices: map<Device, Assignment>)
    requires |hpa| == |root| == BUSES && |ctx| == BUSES * DEVFUNS
  {
    (forall b: bv8 :: RootOk(hpa, root, b)) && (forall d: Device :: ContextOk(root, ctx, devices, d))
  }

  /** The hardware finds exactly the devices that were added and not removed, each as it was added. */
  lemma DecodesDevices(hpa: seq<bv64>, tableAt: map<bv64, nat>, root: seq<DmarEntry>, ctx: seq<DmarEntry>,
                       devices: map<Device, Assignment>, d: Device, sid: bv16)
    requires AddressesOk(hpa, tableAt) && |root| == BUSES && |ctx| == BUSES * DEVFUNS
    requires TablesOk(hpa, root, ctx, devices) && IsSource(sid, d.bus, d.devfun)
    ensures Decode(tableAt, root, ctx, sid) == if d in devices then Some(devices[d]) else None
  {
    assert RootOk(hpa, root, d.bus) && ContextOk(root, ctx, devices, d);
    IndexOfDevice(hpa, tableAt, root, d, sid);
    hide Present, TablePointer, AssignmentIn, IsSource, HardwareIndex, ContextIndex, RootIndex;
  }

  /** Where the root entry of its bus is present, the hardware looks for a device in the context entry that
      the code edits for it. */
  lemma IndexOfDevice(hpa: seq<bv64>, tableAt: map<bv64, nat>, root: seq<DmarEntry>, d: Device, sid: bv16)
    requires AddressesOk(hpa, tableAt) && |root| == BUSES
    requires RootOk(hpa, root, d.bus) && IsSource(sid, d.bus, d.devfun)
    ensures HardwareIndex(tableAt, root, sid) == if Present(root[RootIndex(d.bus)].lo) then Some(ContextIndex(d)) else None
  {
    IndicesOfSource(d.bus, d.devfun, RootIndex(d.bus), sid);
    hide Present, TablePointer, IsSource, RootIndex, CtxIndex;
  }

  /** Changing the context entry of one device, with its assignment, leaves the others as they are. */
  lemma OneContextChanged(hpa: seq<bv64>, root: seq<DmarEntry>, ctx: seq<DmarEntry>, ctx': seq<DmarEntry>,
                          devices: map<Device, Assignment>, devices': map<Device, Assignment>, device: Device)
    requires |hpa| == |root| == BUSES && |ctx| == |ctx'| == BUSES * DEVFUNS
    requires TablesOk(hpa, root, ctx, devices) && ContextOk(root, ctx', devices', device)
    requires ctx' == ctx[ContextIndex(device) := ctx'[ContextIndex(device)]]
    requires devices - {device} == devices' - {device}
    ensures TablesOk(hpa, root, ctx', devices')
  {
    hide Present, TablePointer, AssignmentIn, ContextIndex;
    forall d: Device
      ensures ContextOk(root, ctx', devices', d)
    {
      if d != device {
        ContextIndexApart(d, device);
        assert ContextOk(root, ctx, devices, d);
        assert d in devices - {device} <==> d in devices' - {device};
        if d in devices {
          assert (devices - {device})[d] == (devices' - {device})[d];
        }
      }
    }
  }

  lemma RootPoints(hpa: seq<bv64>, root: seq<DmarEntry>, ctx: seq<DmarEntry>, devices: map<Device, Assignment>, bus: bv8)
    requires |hpa| == |root| == BUSES && |ctx| == BUSES * DEVFUNS && TablesOk(hpa, root, ctx, devices)
    ensures RootOk(hpa, root, bus)
  {
  }

  lemma RootInstalled(hpa: seq<bv64>, root: seq<DmarEntry>, root': seq<DmarEntry>, ctx: seq<DmarEntry>,
                      devices: map<Device, Assignment>, bus: bv8)
    requires |hpa| == |root| == |root'| == BUSES && |ctx| == BUSES * DEVFUNS
    requires TablesOk(hpa, root, ctx, devices) && RootOk(hpa, root', bus) && Present(root'[RootIndex(bus)].lo)
    requires root' == root[RootIndex(bus) := root'[RootIndex(bus)]]
    ensures TablesOk(hpa, root', ctx, devices)
  {
    hide Present, TablePointer, AssignmentIn, ContextIndex, RootIndex;
    forall b: bv8
      ensures RootOk(hpa, root', b)
    {
      assert RootOk(hpa, root, b);
      RootIndexApart(b, bus);
    }
    forall d: Device
      ensures ContextOk(root', ctx, devices, d)
    {
      assert ContextOk(root, ctx, devices, d);
    }
  }

  class DmarUnit {
    const rootTable: array<DmarEntry>
    const ctxTables: array<DmarEntry>
    const irTable: array<DmarEntry>
    const qiQueue: array<DmarEntry>
    /** Where the context table of a bus lies in physical memory, and which table lies at an address. */
    const ctxHpa: seq<bv64>
    const tableAt: map<bv64, nat>
    /** Where the hardware stores the status of a request. */
    const statusHpa: bv64
    var qiTail: nat

    /** The devices that have been added and not removed. */
    ghost var devices: map<Device, Assignment>
    /** The memory accesses, flushes and requests so far. */
    ghost var trace: seq<Op>

    constructor (hpa: seq<bv64>, at: map<bv64, nat>, status: bv64)
      requires AddressesOk(hpa, at)
      ensures Valid() && devices == map[] && trace == [] && qiTail == 0
      ensures fresh(rootTable) && fresh(ctxTables) && fresh(irTable) && fresh(qiQueue)
    {
      rootTable := new DmarEntry[BUSES](_ => EMPTY);
      ctxTables := new DmarEntry[BUSES * DEVFUNS](_ => EMPTY);
      irTable := new DmarEntry[CONFIG_MAX_IR_ENTRIES](_ => EMPTY);
      qiQueue := new DmarEntry[DMAR_NUM_ENTRIES_PER_PAGE](_ => EMPTY);
      ctxHpa, tableAt, statusHpa := hpa, at, status;
      qiTail, devices, trace := 0, map[], [];
      new;
      EmptyIsAbsent();
      hide Present, TablePointer, AssignmentIn;
      assert forall b: bv8 :: RootOk(ctxHpa, rootTable[..], b);
      assert forall d: Device :: ContextOk(rootTable[..], ctxTables[..], devices, d);
    }

    ghost predicate Sized() {
      && AddressesOk(ctxHpa, tableAt)
      && rootTable.Length == BUSES && ctxTables.Length == BUSES * DEVFUNS
      && irTable.Length == CONFIG_MAX_IR_ENTRIES && qiQueue.Length == DMAR_NUM_ENTRIES_PER_PAGE
      && rootTable != ctxTables && rootTable != irTable && rootTable != qiQueue
      && ctxTables != irTable && ctxTables != qiQueue && irTable != qiQueue
    }

    function RootEntry(bus: bv8): DmarEntry
      requires |ctxHpa| == BUSES
    {
      DmarEntry(0, RootLo(ctxHpa[RootIndex(bus)]))
    }

    ghost predicate Valid()
      reads this`devices, this`qiTail, rootTable, ctxTables
    {
      && Sized() && TablesOk(ctxHpa, rootTable[..], ctxTables[..], devices)
      && PairStart(qiTail)
    }

    /** Which entry of the protocol a place in memory is: root entries by their bus, context entries by
        the source identifier that leads the hardware to them, interrupt entries by their index. */
    ghost predicate IsEntry(table: array<DmarEntry>, i: nat, k: Key)
      requires Sized()
      reads rootTable
    {
      match k
      case Root(bus) => table == rootTable && i == bus as nat
      case Ctx(sid) => table == ctxTables && HardwareIndex(tableAt, rootTable[..], sid) == Some(i)
      case Irte(index) => table == irTable && i == index as nat
    }

    /** The accesses to table memory, each recorded as it is made. */
    method StoreHi(table: array<DmarEntry>, i: nat, hi: bv64, ghost k: Key)
      requires i < table.Length && Sized() && IsEntry(table, i, k)
      modifies this`trace, table
      ensures table[..] == old(table[..])[i := DmarEntry(hi, old(table[i].lo))]
      ensures trace == old(trace) + [WriteHi(k, hi)]
    {
      table[i] := table[i].(hi := hi);
      trace := trace + [WriteHi(k, hi)];
    }

    method StoreLo(table: array<DmarEntry>, i: nat, lo: bv64, ghost k: Key)
      requires i < table.Length && Sized() && IsEntry(table, i, k)
      modifies this`trace, table
      ensures table[..] == old(table[..])[i := DmarEntry(old(table[i].hi), lo)]
      ensures trace == old(trace) + [WriteLo(k, lo)]
    {
      table[i] := table[i].(lo := lo);
      trace := trace + [WriteLo(k, lo)];
    }

    method IommuFlushCache(ghost k: Key)
      modifies this`trace
      ensures trace == old(trace) + [FlushLine(k)]
    {
      trace := trace + [FlushLine(k)];
    }

    method AddIommuDevice(domain: IommuDomain, bus: bv8, devfun: bv8) returns (ret: int, ghost sid: bv16)
      requires Valid() && domain.addrWidth == 48
      modifies this`devices, this`trace, rootTable, ctxTables
      ensures Valid() && ret == 0
      ensures devices == old(devices)[Device(bus, devfun) := InDomain(domain)]
      ensures trace == old(trace) + RootOps(old(rootTable[RootIndex(bus)]), bus)
                     + Program(Ctx(sid), Add(ContextEntry(domain)))
      ensures IsSource(sid, bus, devfun) && ContextEdited(old(ctxTables[..]), sid, ContextEntry(domain))
    {
      hide Present, TablesOk, ContextEdited, HardwareIndex, IsSource;
      ret := 0;
      var contextTableAddr := RootContextTable(bus);
      sid := SetContext(domain, bus, devfun, contextTableAddr);
    }

    /** One context entry has been stored: the one the hardware reads for a source identifier. */
    ghost predicate ContextEdited(ctx: seq<DmarEntry>, sid: bv16, e: DmarEntry)
      requires Sized()
      reads rootTable, ctxTables
    {
      var index := HardwareIndex(tableAt, rootTable[..], sid);
      index.Some? && |ctx| == BUSES * DEVFUNS && ctxTables[..] == ctx[index.value := e]
    }

    /** The second half of add_iommu_device: the context entry becomes present with its last write. */
    method SetContext(domain: IommuDomain, bus: bv8, devfun: bv8, contextTableAddr: bv64) returns (ghost sid: bv16)
      requires Valid() && domain.addrWidth == 48
      requires contextTableAddr == ctxHpa[RootIndex(bus)] && Present(rootTable[RootIndex(bus)].lo)
      modifies this`devices, this`trace, ctxTables
      ensures Valid()
      ensures devices == old(devices)[Device(bus, devfun) := InDomain(domain)]
      ensures trace == old(trace) + Program(Ctx(sid), Add(ContextEntry(domain)))
      ensures IsSource(sid, bus, devfun) && ContextEdited(old(ctxTables[..]), sid, ContextEntry(domain))
    {
      sid := PciBdf(bus, devfun);
      SourceReadsBack(bus, devfun);
      RootPoints(ctxHpa, rootTable[..], ctxTables[..], devices, bus);
      IndexOfDevice(ctxHpa, tableAt, rootTable[..], Device(bus, devfun), sid);
      hide DmarSetBitslice, DmarGetBitslice, RootPresentBit, RootCtp, ContextHi, ContextLo, Present, TablePointer, AssignmentIn, TablesOk, RootIndex, CtxIndex, PciBdf, IsSource, HardwareIndex;
      ghost var k := Ctx(sid);
      var hi, lo := ContextHi(domain.addrWidth, domain.vmId), ContextLo(domain.transTablePtr);
      ContextReads(domain);
      ghost var ctx := ctxTables[..];
      var context := CtxIndex(tableAt[contextTableAddr], devfun);
      StoreHi(ctxTables, context, hi, k);
      StoreLo(ctxTables, context, lo, k);
      IommuFlushCache(k);
      devices := devices[Device(bus, devfun) := InDomain(domain)];
      OneContextChanged(ctxHpa, rootTable[..], ctx, ctxTables[..], old(devices), devices, Device(bus, devfun));
    }

    function RootOps(root: DmarEntry, bus: bv8): seq<Op>
      requires Sized()
    {
      RootReadsBack(ctxHpa[RootIndex(bus)]);
      if Present(root.lo) then [] else Program(Root(bus), Add(RootEntry(bus)))
    }

    method RemoveIommuDevice(domain: IommuDomain, bus: bv8, devfun: bv8) returns (ret: int, ghost source: bv16)
      requires Valid() && Present(rootTable[RootIndex(bus)].lo)
      modifies this, ctxTables, qiQueue
      ensures Valid() && ret == 0
      ensures devices == old(devices) - {Device(bus, devfun)}
      ensures trace == old(trace) + Program(Ctx(source), Remove(domain.vmId + 1))
      ensures IsSource(source, bus, devfun) && ContextEdited(old(ctxTables[..]), source, EMPTY)
    {
      hide Present, TablesOk, HardwareIndex, IsSource, PciBdf, ContextEdited, AddressesOk, PairStart;
      ret := 0;
      var sid := PciBdf(bus, devfun);
      source := sid;
      ClearContext(bus, devfun);
      DomainsApart(domain.vmId, domain.vmId);
      DmarInvalidContextCache(VmidToDomainid(domain.vmId), sid, 0, DMAR_CIRG_DEVICE);
      DmarInvalidIotlb(VmidToDomainid(domain.vmId), DMAR_IIRG_DOMAIN);
    }

    /** The first half of remove_iommu_device: the context entry is made absent, then cleared. */
    method ClearContext(bus: bv8, devfun: bv8)
      requires Valid() && Present(rootTable[RootIndex(bus)].lo)
      modifies this`devices, this`trace, ctxTables
      ensures Valid()
      ensures devices == old(devices) - {Device(bus, devfun)}
      ensures var k := Ctx(PciBdf(bus, devfun)); trace == old(trace) + [WriteLo(k, 0), WriteHi(k, 0), FlushLine(k)]
      ensures IsSource(PciBdf(bus, devfun), bus, devfun) && ContextEdited(old(ctxTables[..]), PciBdf(bus, devfun), EMPTY)
    {
      ghost var k, ctx := Ctx(PciBdf(bus, devfun)), ctxTables[..];
      SourceReadsBack(bus, devfun);
      RootPoints(ctxHpa, rootTable[..], ctx, devices, bus);
      IndexOfDevice(ctxHpa, tableAt, rootTable[..], Device(bus, devfun), PciBdf(bus, devfun));
      hide DmarSetBitslice, DmarGetBitslice, RootPresentBit, RootCtp, PageNumber, PageAddress, Present, TablePointer, AssignmentIn, TablesOk, RootIndex, CtxIndex, PciBdf, IsSource, HardwareIndex;
      CtpIsTablePointer(rootTable[RootIndex(bus)].lo);
      EmptyIsAbsent();
      var contextTableAddr := RootCtp(rootTable[RootIndex(bus)].lo);
      contextTableAddr := PageAddress(contextTableAddr);
      var context := CtxIndex(tableAt[contextTableAddr], devfun);
      StoreLo(ctxTables, context, 0, k);
      StoreHi(ctxTables, context, 0, k);
      IommuFlushCache(k);
      devices := devices - {Device(bus, devfun)};
      OneContextChanged(ctxHpa, rootTable[..], ctx, ctxTables[..], old(devices), devices, Device(bus, devfun));
    }

    /** Put a request and a wait descriptor in the queue. The spin wait until the hardware has
        executed both is VtdProtocol's. */
    method DmarIssueQiRequest(desc: DmarEntry)
      requires Valid()
      modifies this`qiTail, this`trace, qiQueue
      ensures Valid()
      ensures trace == old(trace) + [Issue(ReadDesc(desc))]
      ensures qiTail == Next(Next(old(qiTail)))
      ensures var slot := Slot(old(qiTail));
              slot + 1 < DMAR_NUM_ENTRIES_PER_PAGE
              && qiQueue[..] == old(qiQueue[..])[slot := desc][slot + 1 := DmarEntry(statusHpa, DMAR_INV_WAIT_DESC_LOWER)]
    {
      PairOfSlots(qiTail);
      hide ReadDesc, TablesOk, Slot, Next, PairStart;
      qiQueue[Slot(qiTail)] := desc;
      qiTail := Next(qiTail);
      qiQueue[Slot(qiTail)] := DmarEntry(statusHpa, DMAR_INV_WAIT_DESC_LOWER);
      qiTail := Next(qiTail);
      trace := trace + [Issue(ReadDesc(desc))];
    }

    method DmarInvalidContextCache(did: bv16, sid: bv16, fm: bv8, cirg: Cirg)
      requires Valid()
      modifies this`qiTail, this`trace, qiQueue
      ensures Valid()
      ensures trace == old(trace) + match cirg
                                    case DMAR_CIRG_GLOBAL => [Issue(CtxGlobal)]
                                    case DMAR_CIRG_DEVICE => [Issue(CtxDevice(did, sid, fm as bv64 & 3))]
                                    case _ => []
    {
      ContextCacheReadsBack(did, sid, fm);
      DescriptorMade(did, sid, fm, cirg, DMAR_IIRG_GLOBAL);
      hide ReadDesc, ContextCacheLo, TablesOk;
      var lo := ContextCacheLo(did, sid, fm, cirg);
      if lo != 0 {
        DmarIssueQiRequest(DmarEntry(0, lo));
      }
    }

    method DmarInvalidIotlb(did: bv16, iirg: Iirg)
      requires Valid()
      modifies this`qiTail, this`trace, qiQueue
      ensures Valid()
      ensures trace == old(trace) + match iirg
                                    case DMAR_IIRG_GLOBAL => [Issue(IotlbGlobal)]
                                    case DMAR_IIRG_DOMAIN => [Issue(IotlbDomain(did))]
                                    case _ => []
    {
      IotlbReadsBack(did);
      DescriptorMade(did, 0, 0, DMAR_CIRG_GLOBAL, iirg);
      hide ReadDesc, IotlbLo, TablesOk;
      var lo := IotlbLo(did, iirg);
      if lo != 0 {
        DmarIssueQiRequest(DmarEntry(0, lo));
      }
    }

    method DmarInvalidIec(intrIndex: bv16, indexMask: bv8, isGlobal: bool)
      requires Valid()
      modifies this`qiTail, this`trace, qiQueue
      ensures Valid()
      ensures trace == old(trace) + [Issue(if isGlobal then IecGlobal else IecIndex(intrIndex, indexMask as bv64 & 0x1F))]
    {
      IecReadsBack(intrIndex, indexMask);
      hide ReadDesc, IecLo, TablesOk;
      DmarIssueQiRequest(DmarEntry(0, IecLo(intrIndex, indexMask, isGlobal)));
    }

    method DmarAssignIrte(sid: bv16, irte: DmarEntry, index: bv16)
      requires Valid() && index as nat < CONFIG_MAX_IR_ENTRIES
      modifies this`qiTail, this`trace, irTable, qiQueue
      ensures Valid()
      ensures irTable[..] == old(irTable[..])[index as nat := EffectiveIrte(irte, sid)]
      ensures Sensible(Irte(index), Assign(EffectiveIrte(irte, sid)))
      ensures trace == old(trace) + Program(Irte(index), Assign(EffectiveIrte(irte, sid)))
    {
      EffectiveIrteFields(irte, sid);
      hide EffectiveIrte, Present, TablesOk;
      var e := EffectiveIrte(irte, sid);
      StoreHi(irTable, index as nat, e.hi, Irte(index));
      StoreLo(irTable, index as nat, e.lo, Irte(index));
      IommuFlushCache(Irte(index));
      DmarInvalidIec(index, 0, false);
    }

    method DmarFreeIrte(index: bv16)
      requires Valid() && index as nat < CONFIG_MAX_IR_ENTRIES
      modifies this`qiTail, this`trace, irTable, qiQueue
      ensures Valid()
      ensures var e := old(irTable[index as nat]); irTable[..] == old(irTable[..])[index as nat := DmarEntry(e.hi, Cleared(e.lo))]
      ensures Sensible(Irte(index), Free(Cleared(old(irTable[index as nat].lo))))
      ensures trace == old(trace) + Program(Irte(index), Free(Cleared(old(irTable[index as nat].lo))))
    {
      ClearedIsAbsent(irTable[index as nat].lo);
      hide Cleared, Present, TablesOk;
      var lo := Cleared(irTable[index as nat].lo);
      StoreLo(irTable, index as nat, lo, Irte(index));
      IommuFlushCache(Irte(index));
      DmarInvalidIec(index, 0, false);
    }

    method InstallRoot(bus: bv8)
      requires Valid() && !Present(rootTable[RootIndex(bus)].lo)
      modifies this`trace, rootTable
      ensures Valid() && Present(rootTable[RootIndex(bus)].lo)
      ensures trace == old(trace) + RootOps(old(rootTable[RootIndex(bus)]), bus)
    {
      hide DmarSetBitslice, RootLo, Present, TablePointer, AssignmentIn;
      var rootIndex := RootIndex(bus);
      var lo := RootLo(ctxHpa[rootIndex]);
      ghost var root := rootTable[..];
      RootReadsBack(ctxHpa[rootIndex]);
      StoreHi(rootTable, rootIndex, 0, Root(bus));
      StoreLo(rootTable, rootIndex, lo, Root(bus));
      IommuFlushCache(Root(bus));
      RootInstalled(ctxHpa, root, rootTable[..], ctxTables[..], devices, bus);
    }

    /** The first half of add_iommu_device: the context table of the bus, which the root entry points
        to from now on. */
    method RootContextTable(bus: bv8) returns (contextTableAddr: bv64)
      requires Valid()
      modifies this`trace, rootTable
      ensures Valid() && contextTableAddr == ctxHpa[RootIndex(bus)] && Present(rootTable[RootIndex(bus)].lo)
      ensures trace == old(trace) + RootOps(old(rootTable[RootIndex(bus)]), bus)
    {
      hide DmarSetBitslice, DmarGetBitslice, RootPresentBit, RootCtp, PageNumber, PageAddress, RootLo, Present, TablePointer, AssignmentIn;
      var rootIndex := RootIndex(bus);
      CtpIsTablePointer(rootTable[rootIndex].lo);
      RootReadsBack(ctxHpa[rootIndex]);
      PageNumberAddress(ctxHpa[rootIndex]);
      assert RootOk(ctxHpa, rootTable[..], bus);
      if RootPresentBit(rootTable[rootIndex].lo) == 0 {
        contextTableAddr := PageNumber(ctxHpa[rootIndex]);
        InstallRoot(bus);
      } else {
        contextTableAddr := RootCtp(rootTable[rootIndex].lo);
      }
      contextTableAddr := PageAddress(contextTableAddr);
    }
  }

  /** What a device of a domain is assigned: the domain of the VM, the page its tables start at, and
      the code for 48 bits. */
  function InDomain(domain: IommuDomain): Assignment {
    Assignment(domain.vmId + 1, domain.transTablePtr - (domain.transTablePtr & PAGE_OFFSET), 2, DMAR_CTX_TT_UNTRANSLATED)
  }

  function ContextEntry(domain: IommuDomain): DmarEntry {
    DmarEntry(ContextHi(domain.addrWidth, domain.vmId), ContextLo(domain.transTablePtr))
  }

  lemma ContextReads(domain: IommuDomain)
    requires domain.addrWidth == 48
    ensures Present(ContextEntry(domain).lo) && AssignmentIn(ContextEntry(domain)) == InDomain(domain)
  {
    ContextReadsBack(domain.addrWidth, domain.vmId, domain.transTablePtr);
    WidthCodes(domain.addrWidth);
    hide ContextHi, ContextLo, DomainOf, TablePointer, AddressWidth, TranslationType, WidthToAw;
  }
}

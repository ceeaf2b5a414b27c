/** lookup_address and walk_page_table (pagetable.c): reading the tables by following entries. */
module PageLookup {
  import opened PageEntry
  import opened Paging
  import opened Wrappers
  import opened PagingSteps
  import opened PagingRanges
  import opened PageTable
  import opened PageTree

  /** The entry a walk reads next, in the table an entry references. */
  function Below(c: Config, level: Level, e: Entry, index: nat): nat
    requires level < 3 && Base(c, level + 1) <= e.paddr
  {
    PTRS_PER_TABLE * ((e.paddr - Base(c, level + 1)) / PAGE_SIZE) + index
  }

  lemma BelowReached(c: Config, t: Tables, level: Level, k: nat, index: nat)
    requires WellFormed(c, t) && k < |t[level]| && Reached(c, t, level, k) && ReferencesTable(c, level, t[level][k])
    requires index < PTRS_PER_TABLE
    ensures level < 3 && Base(c, level + 1) <= t[level][k].paddr
    ensures Below(c, level, t[level][k], index) == PTRS_PER_TABLE * k + index
    ensures Reached(c, t, level + 1, PTRS_PER_TABLE * k + index)
    ensures PTRS_PER_TABLE * k + index < |t[level + 1]|
  {
    ReachedReference(c, t, level, k);
    SlotPage(Base(c, level + 1), k);
    assert (PTRS_PER_TABLE * k + index) / PTRS_PER_TABLE == k;
  }

  /** pml4e_index, pdpte_index, pde_index, pte_index */
  function EntryIndex(level: Level, a: nat): (index: nat)
    ensures index < PTRS_PER_TABLE
  {
    Index(level, a) % PTRS_PER_TABLE
  }

  lemma BelowIndex(level: Level, a: nat)
    requires level < 3
    ensures Index(level + 1, a) == PTRS_PER_TABLE * Index(level, a) + EntryIndex(level + 1, a)
  {
    ChildIndex(level, a);
    SlotIndex(Index(level, a), Index(level + 1, a));
  }

  /** The answer to a lookup: the leaf that covers the address, or nothing exactly when the address
      is not translated and no leaf covers it. */
  ghost predicate LookupAnswer(c: Config, t: Tables, a: nat, pret: Option<Leaf>) {
    && (pret.None? <==> Translate(c, t, a) == None)
    && (pret.None? ==> forall leaf: Leaf :: IsLeaf(c, t, leaf) ==> !Covers(leaf, a))
    && (pret.Some? ==> IsLeaf(c, t, pret.value) && Covers(pret.value, a))
  }

  lemma WalkEndsAbsent(c: Config, t: Tables, level: Level, a: nat)
    requires WellFormed(c, t) && a < ADDRESS_LIMIT && Index(level, a) < |t[level]|
    requires Reached(c, t, level, Index(level, a)) && !Present(c.ops, t[level][Index(level, a)])
    ensures LookupAnswer(c, t, a, None)
  {
    var k := Index(level, a);
    BlockOf(level, a, k);
    TranslateIsMap(c, t, a);
    MapFromAbove(c, t, level, k, a);
    forall leaf: Leaf | IsLeaf(c, t, leaf)
      ensures !Covers(leaf, a)
    {
      if Covers(leaf, a) {
        LeafTranslates(c, t, leaf, a);
      }
    }
  }

  /** Find the entry that maps an address and the size of its page. */
  method LookupAddress(tables: PageTables, addr: nat) returns (pret: Option<Leaf>, pgSize: nat)
    requires tables.Separate() && WellFormed(tables.c, tables.T()) && addr < ADDRESS_LIMIT
    ensures LookupAnswer(tables.c, tables.T(), addr, pret)
    ensures pret.Some? ==> pgSize == Span(pret.value.level)
  {
    var c := tables.c;
    ghost var t := tables.T();
    BelowIndex(0, addr);
    hide PageTables.T, Ok, Map, WellFormed, Reached, IsLeaf, Covers, Translate, Walk, Index, EntryIndex, Below, Start,
         LookupAnswer;
    pret, pgSize := None, 0;
    RootReached(c, t, addr);
    var pml4e := EntryIndex(IA32E_PML4, addr);
    var e4 := tables.Pgentry(IA32E_PML4, pml4e);
    if Present(c.ops, e4) {
      BelowReached(c, t, IA32E_PML4, pml4e, EntryIndex(1, addr));
      var pdpte := Below(c, IA32E_PML4, e4, EntryIndex(IA32E_PDPT, addr));
      var e3 := tables.Pgentry(IA32E_PDPT, pdpte);
      if Present(c.ops, e3) {
        if Large(e3) {
          pgSize := PDPTE_SIZE;
          pret := Some(Leaf(IA32E_PDPT, pdpte));
          FoundLeaf(c, t, IA32E_PDPT, addr);
        } else {
          pret, pgSize := LookupInPd(tables, pdpte, addr);
        }
      } else {
        WalkEndsAbsent(c, t, IA32E_PDPT, addr);
      }
    } else {
      WalkEndsAbsent(c, t, IA32E_PML4, addr);
    }
  }

  /** The lookup below a PDPTE that references a page directory. */
  method LookupInPd(tables: PageTables, pdpte: nat, addr: nat) returns (pret: Option<Leaf>, pgSize: nat)
    requires tables.Separate() && WellFormed(tables.c, tables.T()) && addr < ADDRESS_LIMIT
    requires pdpte == Index(IA32E_PDPT, addr) && pdpte < |tables.T()[IA32E_PDPT]|
    requires Reached(tables.c, tables.T(), IA32E_PDPT, pdpte)
    requires ReferencesTable(tables.c, IA32E_PDPT, tables.T()[IA32E_PDPT][pdpte])
    ensures LookupAnswer(tables.c, tables.T(), addr, pret)
    ensures pret.Some? ==> pgSize == Span(pret.value.level)
  {
    var c := tables.c;
    ghost var t := tables.T();
    BelowIndex(1, addr);
    hide PageTables.T, Ok, Map, WellFormed, Reached, IsLeaf, Covers, Translate, Walk, Index, EntryIndex, Below, Start,
         LookupAnswer;
    pret, pgSize := None, 0;
    BelowReached(c, t, IA32E_PDPT, pdpte, EntryIndex(2, addr));
    var pde := Below(c, IA32E_PDPT, tables.Pgentry(IA32E_PDPT, pdpte), EntryIndex(IA32E_PD, addr));
    var e2 := tables.Pgentry(IA32E_PD, pde);
    if Present(c.ops, e2) {
      if Large(e2) {
        pgSize := PDE_SIZE;
        pret := Some(Leaf(IA32E_PD, pde));
        FoundLeaf(c, t, IA32E_PD, addr);
      } else {
        pret, pgSize := LookupInPt(tables, pde, addr);
      }
    } else {
      WalkEndsAbsent(c, t, IA32E_PD, addr);
    }
  }

  /** The lookup below a PDE that references a page table. */
  method LookupInPt(tables: PageTables, pde: nat, addr: nat) returns (pret: Option<Leaf>, pgSize: nat)
    requires tables.Separate() && WellFormed(tables.c, tables.T()) && addr < ADDRESS_LIMIT
    requires pde == Index(IA32E_PD, addr) && pde < |tables.T()[IA32E_PD]|
    requires Reached(tables.c, tables.T(), IA32E_PD, pde)
    requires ReferencesTable(tables.c, IA32E_PD, tables.T()[IA32E_PD][pde])
    ensures LookupAnswer(tables.c, tables.T(), addr, pret)
    ensures pret.Some? ==> pgSize == Span(pret.value.level)
  {
    var c := tables.c;
    ghost var t := tables.T();
    BelowIndex(2, addr);
    hide PageTables.T, Ok, Map, WellFormed, Reached, IsLeaf, Covers, Translate, Walk, Index, EntryIndex, Below, Start,
         LookupAnswer;
    pret, pgSize := None, 0;
    BelowReached(c, t, IA32E_PD, pde, EntryIndex(3, addr));
    var pte := Below(c, IA32E_PD, tables.Pgentry(IA32E_PD, pde), EntryIndex(IA32E_PT, addr));
    if Present(c.ops, tables.Pgentry(IA32E_PT, pte)) {
      pgSize := PTE_SIZE;
      pret := Some(Leaf(IA32E_PT, pte));
      FoundLeaf(c, t, IA32E_PT, addr);
    } else {
      WalkEndsAbsent(c, t, IA32E_PT, addr);
    }
  }

  lemma RootReached(c: Config, t: Tables, a: nat)
    requires WellFormed(c, t) && a < ADDRESS_LIMIT
    ensures Index(0, a) == EntryIndex(0, a) < |t[IA32E_PML4]| && Reached(c, t, IA32E_PML4, Index(0, a))
  {
  }

  lemma FoundLeaf(c: Config, t: Tables, level: Level, a: nat)
    requires WellFormed(c, t) && a < ADDRESS_LIMIT
    requires Index(level, a) < |t[level]| && Reached(c, t, level, Index(level, a))
    requires Present(c.ops, t[level][Index(level, a)]) && MapsPage(level, t[level][Index(level, a)])
    ensures LookupAnswer(c, t, a, Some(Leaf(level, Index(level, a))))
  {
    BlockOf(level, a, Index(level, a));
    LeafTranslates(c, t, Leaf(level, Index(level, a)), a);
  }

  // ---- The walk over all leaves ----

  /** The callback has been called once, in address order, for each leaf below an address. */
  ghost predicate Visited(c: Config, t: Tables, log: seq<Leaf>, pos: nat) {
    && (forall leaf: Leaf :: leaf in log <==> IsLeaf(c, t, leaf) && First(leaf) < pos)
    && forall i, j :: 0 <= i < j < |log| ==> First(log[i]) < First(log[j])
  }

  /** A leaf that starts in the block of a reached entry is that entry or lies below it. */
  lemma LeafInBlock(c: Config, t: Tables, level: Level, k: nat, leaf: Leaf)
    requires WellFormed(c, t) && Reached(c, t, level, k) && IsLeaf(c, t, leaf)
    requires Start(level, k) <= First(leaf) < Start(level, k + 1)
    ensures leaf == Leaf(level, k) || ReferencesTable(c, level, t[level][k])
  {
    var a := First(leaf);
    BlockOf(level, a, k);
    BlockOf(leaf.level, a, leaf.index);
    if level < leaf.level {
      Ancestor(c, t, leaf.level, leaf.index, level, a);
    } else if leaf.level < level {
      Ancestor(c, t, level, k, leaf.level, a);
    }
  }

  lemma VisitAbsent(c: Config, t: Tables, log: seq<Leaf>, level: Level, k: nat)
    requires WellFormed(c, t) && Visited(c, t, log, Start(level, k))
    requires Reached(c, t, level, k) && !Present(c.ops, t[level][k])
    ensures Visited(c, t, log, Start(level, k + 1))
  {
    BlockOf(level, Start(level, k), k);
    forall leaf: Leaf | IsLeaf(c, t, leaf) && First(leaf) < Start(level, k + 1)
      ensures First(leaf) < Start(level, k)
    {
      if Start(level, k) <= First(leaf) {
        LeafInBlock(c, t, level, k, leaf);
      }
    }
  }

  lemma VisitLeaf(c: Config, t: Tables, log: seq<Leaf>, level: Level, k: nat)
    requires WellFormed(c, t) && Visited(c, t, log, Start(level, k))
    requires IsLeaf(c, t, Leaf(level, k))
    ensures Visited(c, t, log + [Leaf(level, k)], Start(level, k + 1))
  {
    var x := Leaf(level, k);
    var log' := log + [x];
    BlockOf(level, Start(level, k), k);
    forall leaf: Leaf
      ensures leaf in log' <==> IsLeaf(c, t, leaf) && First(leaf) < Start(level, k + 1)
    {
      if IsLeaf(c, t, leaf) && Start(level, k) <= First(leaf) < Start(level, k + 1) {
        LeafInBlock(c, t, level, k, leaf);
      }
    }
    forall i, j | 0 <= i < j < |log'|
      ensures First(log'[i]) < First(log'[j])
    {
      if j == |log| {
        assert log'[i] in log;
      }
    }
  }

  lemma {:induction false} NoPageTwice(log: seq<Leaf>, leaf: Leaf)
    requires forall i, j :: 0 <= i < j < |log| ==> First(log[i]) < First(log[j])
    ensures multiset(log)[leaf] == if leaf in log then 1 else 0
  {
    if log == [] {
      assert multiset(log) == multiset{};
    } else {
      var front, last := log[..|log| - 1], log[|log| - 1];
      assert log == front + [last];
      NoPageTwice(front, leaf);
      assert leaf in log <==> leaf in front || leaf == last;
      assert multiset(log) == multiset(front) + multiset{last};
      if leaf in front {
        var i :| 0 <= i < |front| && front[i] == leaf;
        assert log[i] == leaf;
      }
    }
  }

  /** Every leaf of the tables starts below the address limit. */
  lemma LeafBelowLimit(c: Config, t: Tables, leaf: Leaf)
    requires WellFormed(c, t) && IsLeaf(c, t, leaf)
    ensures First(leaf) < ADDRESS_LIMIT
  {
    ReachedOk(c, t, leaf.level, leaf.index);
    BlockOf(leaf.level, First(leaf), leaf.index);
    if leaf.level > 0 {
      assert Start(leaf.level, leaf.index + 1) <= c.space;
    }
  }

  lemma WalkDone(c: Config, t: Tables, log: seq<Leaf>)
    requires WellFormed(c, t) && Visited(c, t, log, ADDRESS_LIMIT)
    ensures forall leaf: Leaf :: multiset(log)[leaf] == if IsLeaf(c, t, leaf) then 1 else 0
  {
    forall leaf: Leaf
      ensures multiset(log)[leaf] == if IsLeaf(c, t, leaf) then 1 else 0
    {
      NoPageTwice(log, leaf);
      if IsLeaf(c, t, leaf) {
        LeafBelowLimit(c, t, leaf);
      }
    }
  }

  lemma TableStart(level: Level, k: nat)
    requires level < 3
    ensures Start(level + 1, PTRS_PER_TABLE * k + 0) == Start(level, k)
    ensures Start(level + 1, PTRS_PER_TABLE * k + PTRS_PER_TABLE) == Start(level, k + 1)
  {
    ChildBlocks(level, k);
  }

  /** Call cb for every leaf. The calls are recorded in log with the size each is given. */
  method WalkPageTable(tables: PageTables) returns (log: seq<Leaf>, sizes: seq<nat>)
    requires tables.Separate() && WellFormed(tables.c, tables.T())
    ensures forall leaf: Leaf :: multiset(log)[leaf] == if IsLeaf(tables.c, tables.T(), leaf) then 1 else 0
    ensures |sizes| == |log| && forall n :: 0 <= n < |log| ==> sizes[n] == Span(log[n].level)
    ensures forall m, n :: 0 <= m < n < |log| ==> First(log[m]) < First(log[n])
  {
    var c := tables.c;
    ghost var t := tables.T();
    hide Ok, Map;
    log, sizes := [], [];
    var i := 0;
    while i < PTRS_PER_TABLE
      invariant i <= PTRS_PER_TABLE
      invariant Visited(c, t, log, Start(0, i))
      invariant |sizes| == |log| && forall n :: 0 <= n < |log| ==> sizes[n] == Span(log[n].level)
    {
      var pml4e := i;
      i := i + 1;
      var e4 := tables.Pgentry(IA32E_PML4, pml4e);
      if !Present(c.ops, e4) {
        VisitAbsent(c, t, log, IA32E_PML4, pml4e);
        continue;
      }
      log, sizes := WalkPdpt(tables, pml4e, log, sizes);
    }
    WalkDone(c, t, log);
  }

  method WalkPdpt(tables: PageTables, pml4e: nat, log0: seq<Leaf>, sizes0: seq<nat>)
      returns (log: seq<Leaf>, sizes: seq<nat>)
    requires tables.Separate() && WellFormed(tables.c, tables.T())
    requires Reached(tables.c, tables.T(), 0, pml4e) && ReferencesTable(tables.c, 0, tables.T()[0][pml4e])
    requires Visited(tables.c, tables.T(), log0, Start(0, pml4e))
    requires |sizes0| == |log0| && forall n :: 0 <= n < |log0| ==> sizes0[n] == Span(log0[n].level)
    ensures Visited(tables.c, tables.T(), log, Start(0, pml4e + 1))
    ensures |sizes| == |log| && forall n :: 0 <= n < |log| ==> sizes[n] == Span(log[n].level)
  {
    var c := tables.c;
    ghost var t := tables.T();
    log, sizes := log0, sizes0;
    TableStart(0, pml4e);
    BelowReached(c, t, 0, pml4e, 0);
    hide Ok, Map, Visited, WellFormed;
    var e4 := tables.Pgentry(IA32E_PML4, pml4e);
    var j := 0;
    while j < PTRS_PER_TABLE
      invariant j <= PTRS_PER_TABLE
      invariant Visited(c, t, log, Start(1, PTRS_PER_TABLE * pml4e + j))
      invariant |sizes| == |log| && forall n :: 0 <= n < |log| ==> sizes[n] == Span(log[n].level)
    {
      BelowReached(c, t, 0, pml4e, j);
      var pdpte := Below(c, IA32E_PML4, e4, j);
      j := j + 1;
      var e3 := tables.Pgentry(IA32E_PDPT, pdpte);
      if !Present(c.ops, e3) {
        VisitAbsent(c, t, log, IA32E_PDPT, pdpte);
        continue;
      }
      if Large(e3) {
        VisitLeaf(c, t, log, IA32E_PDPT, pdpte);
        log, sizes := log + [Leaf(IA32E_PDPT, pdpte)], sizes + [PDPTE_SIZE];
        continue;
      }
      log, sizes := WalkPd(tables, pdpte, log, sizes);
    }
  }

  method WalkPd(tables: PageTables, pdpte: nat, log0: seq<Leaf>, sizes0: seq<nat>)
      returns (log: seq<Leaf>, sizes: seq<nat>)
    requires tables.Separate() && WellFormed(tables.c, tables.T())
    requires Reached(tables.c, tables.T(), 1, pdpte) && ReferencesTable(tables.c, 1, tables.T()[1][pdpte])
    requires Visited(tables.c, tables.T(), log0, Start(1, pdpte))
    requires |sizes0| == |log0| && forall n :: 0 <= n < |log0| ==> sizes0[n] == Span(log0[n].level)
    ensures Visited(tables.c, tables.T(), log, Start(1, pdpte + 1))
    ensures |sizes| == |log| && forall n :: 0 <= n < |log| ==> sizes[n] == Span(log[n].level)
  {
    var c := tables.c;
    ghost var t := tables.T();
    log, sizes := log0, sizes0;
    TableStart(1, pdpte);
    BelowReached(c, t, 1, pdpte, 0);
    hide Ok, Map, Visited, WellFormed;
    var e3 := tables.Pgentry(IA32E_PDPT, pdpte);
    var k := 0;
    while k < PTRS_PER_TABLE
      invariant k <= PTRS_PER_TABLE
      invariant Visited(c, t, log, Start(2, PTRS_PER_TABLE * pdpte + k))
      invariant |sizes| == |log| && forall n :: 0 <= n < |log| ==> sizes[n] == Span(log[n].level)
    {
      BelowReached(c, t, 1, pdpte, k);
      var pde := Below(c, IA32E_PDPT, e3, k);
      k := k + 1;
      var e2 := tables.Pgentry(IA32E_PD, pde);
      if !Present(c.ops, e2) {
        VisitAbsent(c, t, log, IA32E_PD, pde);
        continue;
      }
      if Large(e2) {
        VisitLeaf(c, t, log, IA32E_PD, pde);
        log, sizes := log + [Leaf(IA32E_PD, pde)], sizes + [PDE_SIZE];
        continue;
      }
      log, sizes := WalkPt(tables, pde, log, sizes);
    }
  }

  method WalkPt(tables: PageTables, pde: nat, log0: seq<Leaf>, sizes0: seq<nat>)
      returns (log: seq<Leaf>, sizes: seq<nat>)
    requires tables.Separate() && WellFormed(tables.c, tables.T())
    requires Reached(tables.c, tables.T(), 2, pde) && ReferencesTable(tables.c, 2, tables.T()[2][pde])
    requires Visited(tables.c, tables.T(), log0, Start(2, pde))
    requires |sizes0| == |log0| && forall n :: 0 <= n < |log0| ==> sizes0[n] == Span(log0[n].level)
    ensures Visited(tables.c, tables.T(), log, Start(2, pde + 1))
    ensures |sizes| == |log| && forall n :: 0 <= n < |log| ==> sizes[n] == Span(log[n].level)
  {
    var c := tables.c;
    ghost var t := tables.T();
    log, sizes := log0, sizes0;
    TableStart(2, pde);
    BelowReached(c, t, 2, pde, 0);
    hide Ok, Map, Visited, WellFormed;
    var e2 := tables.Pgentry(IA32E_PD, pde);
    var m := 0;
    while m < PTRS_PER_TABLE
      invariant m <= PTRS_PER_TABLE
      invariant Visited(c, t, log, Start(3, PTRS_PER_TABLE * pde + m))
      invariant |sizes| == |log| && forall n :: 0 <= n < |log| ==> sizes[n] == Span(log[n].level)
    {
      BelowReached(c, t, 2, pde, m);
      var pte := Below(c, IA32E_PD, e2, m);
      m := m + 1;
      if Present(c.ops, tables.Pgentry(IA32E_PT, pte)) {
        VisitLeaf(c, t, log, IA32E_PT, pte);
        log, sizes := log + [Leaf(IA32E_PT, pte)], sizes + [PTE_SIZE];
      } else {
        VisitAbsent(c, t, log, IA32E_PT, pte);
      }
    }
  }
}

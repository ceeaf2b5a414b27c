/** The ring buffers of the virtual UART (vuart.c): a put into a full one overwrites the oldest
    character. */
module Fifo {
  /** What fifo_getchar returns when there is nothing to get. */
  const NOTHING: int := -1

  /** num characters from rindex on, around the end of the buffer. */
  function Window(buf: seq<int>, rindex: nat, num: nat): (s: seq<int>)
    requires |buf| > 0
    ensures |s| == num
  {
    seq(num, i requires 0 <= i < num => buf[Cell(rindex, i, |buf|)])
  }

  function Cell(rindex: nat, i: nat, size: nat): (c: nat)
    requires size > 0
    ensures c < size
  {
    (rindex + i) % size
  }

  lemma CellIs(rindex: nat, i: nat, size: nat)
    requires rindex < size && i <= size
    ensures Cell(rindex, i, size) == if rindex + i < size then rindex + i else rindex + i - size
  {
  }

  lemma CellNext(rindex: nat, i: nat, size: nat)
    requires rindex < size && i < size
    ensures Cell(Cell(rindex, 1, size), i, size) == Cell(rindex, i + 1, size)
  {
    CellIs(rindex, 1, size);
    CellIs(rindex, i + 1, size);
    CellIs(Cell(rindex, 1, size), i, size);
  }

  lemma CellsApart(rindex: nat, i: nat, j: nat, size: nat)
    requires rindex < size && i < j < size
    ensures Cell(rindex, i, size) != Cell(rindex, j, size)
  {
    CellIs(rindex, i, size);
    CellIs(rindex, j, size);
  }

  // ---- The queue a FIFO stands for ----

  function Put(s: seq<int>, size: nat, ch: int): seq<int>
    requires size > 0
  {
    if |s| < size then s + [ch] else s[1..] + [ch]
  }

  function Get(s: seq<int>): seq<int> {
    if s == [] then [] else s[1..]
  }

  lemma PutFree(buf: seq<int>, rindex: nat, num: nat, ch: int)
    requires rindex < |buf| && num < |buf|
    ensures Window(buf[Cell(rindex, num, |buf|) := ch], rindex, num + 1) == Window(buf, rindex, num) + [ch]
  {
    hide Cell;
    forall i | 0 <= i < num
      ensures Cell(rindex, i, |buf|) != Cell(rindex, num, |buf|)
    {
      CellsApart(rindex, i, num, |buf|);
    }
  }

  lemma GetOldest(buf: seq<int>, rindex: nat, num: nat)
    requires rindex < |buf| && 0 < num <= |buf|
    ensures Window(buf, Cell(rindex, 1, |buf|), num - 1) == Window(buf, rindex, num)[1..]
  {
    hide Cell;
    forall i | 0 <= i < num - 1
      ensures Cell(Cell(rindex, 1, |buf|), i, |buf|) == Cell(rindex, i + 1, |buf|)
    {
      CellNext(rindex, i, |buf|);
    }
  }

  /** In a full buffer the oldest character lies where the next one goes. */
  lemma PutFull(buf: seq<int>, rindex: nat, ch: int)
    requires rindex < |buf|
    ensures var r := Cell(rindex, 1, |buf|);
            && Cell(rindex, |buf|, |buf|) == Cell(r, |buf| - 1, |buf|) == rindex
            && Window(buf[rindex := ch], r, |buf|) == Window(buf, rindex, |buf|)[1..] + [ch]
  {
    var r := Cell(rindex, 1, |buf|);
    CellIs(rindex, |buf|, |buf|);
    CellNext(rindex, |buf| - 1, |buf|);
    PutFree(buf, r, |buf| - 1, ch);
    GetOldest(buf, rindex, |buf|);
  }

  class VuartFifo {
    const buf: array<int>
    const size: nat
    var rindex: nat
    var windex: nat
    var num: nat

    constructor (n: nat)
      requires n > 0
      ensures Valid() && size == n && Contents() == [] && fresh(buf)
    {
      buf := new int[n](_ => 0);
      size := n;
      rindex, windex, num := 0, 0, 0;
    }

    ghost predicate Valid()
      reads this
    {
      && 0 < size == buf.Length && rindex < size && num <= size
      && windex == Cell(rindex, num, size)
    }

    ghost function Contents(): seq<int>
      requires Valid()
      reads this, buf
    {
      Window(buf[..], rindex, num)
    }

    method FifoReset()
      requires 0 < size == buf.Length
      modifies this
      ensures Valid() && Contents() == []
    {
      rindex, windex, num := 0, 0, 0;
    }

    method FifoPutchar(ch: int)
      requires Valid()
      modifies this, buf
      ensures Valid() && Contents() == Put(old(Contents()), size, ch)
      ensures old(num) < size ==> Contents() == old(Contents()) + [ch]
      ensures old(num) == size ==> Contents() == old(Contents())[1..] + [ch]
    {
      hide Cell, Window;
      ghost var before := buf[..];
      buf[windex] := ch;
      assert buf[..] == before[windex := ch];
      CellOne(windex, size);
      if num < size {
        PutFree(before, rindex, num, ch);
        NextCell(rindex, num, size);
        windex := (windex + 1) % size;
        num := num + 1;
      } else {
        PutFull(before, rindex, ch);
        CellOne(rindex, size);
        CellFull((rindex + 1) % size, size);
        rindex := (rindex + 1) % size;
        windex := (windex + 1) % size;
      }
    }

    lemma NextCell(r: nat, n: nat, sz: nat)
      requires r < sz && n < sz
      ensures Cell(Cell(r, n, sz), 1, sz) == Cell(r, n + 1, sz)
    {
      CellIs(r, n, sz);
      CellIs(r, n + 1, sz);
      CellIs(Cell(r, n, sz), 1, sz);
    }

    lemma CellOne(r: nat, sz: nat)
      requires sz > 0
      ensures Cell(r, 1, sz) == (r + 1) % sz
    {
    }

    lemma CellFull(r: nat, sz: nat)
      requires r < sz
      ensures Cell(r, sz, sz) == r
    {
      CellIs(r, sz, sz);
    }

    method FifoGetchar() returns (c: int)
      requires Valid()
      modifies this
      ensures Valid() && Contents() == Get(old(Contents()))
      ensures old(num) > 0 ==> old(Contents()) == [c] + Contents()
      ensures old(num) == 0 ==> c == NOTHING && Contents() == []
      ensures c == if old(Contents()) == [] then NOTHING else old(Contents())[0]
    {
      c := NOTHING;
      if num > 0 {
        assert Cell(rindex, 0, size) == rindex;
        GetOldest(buf[..], rindex, num);
        CellNext(rindex, num - 1, size);
        c := buf[rindex];
        rindex := (rindex + 1) % size;
        num := num - 1;
      }
    }

    method FifoNumchars() returns (n: nat)
      requires Valid()
      ensures n == |Contents()| <= size
    {
      n := num;
    }
  }

  // ---- Runs ----

  datatype Op = PutChar(ch: int) | GetChar

  /** What a FIFO holds after a run. */
  function After(ops: seq<Op>, size: nat): seq<int>
    requires size > 0
  {
    if ops == [] then []
    else
      var s := After(ops[..|ops| - 1], size);
      match ops[|ops| - 1]
      case PutChar(ch) => Put(s, size, ch)
      case GetChar => Get(s)
  }

  function AllPut(ops: seq<Op>): seq<int> {
    if ops == [] then []
    else
      var s := AllPut(ops[..|ops| - 1]);
      match ops[|ops| - 1]
      case PutChar(ch) => s + [ch]
      case GetChar => s
  }

  /** What has been read, in order. */
  function Read(ops: seq<Op>, size: nat): seq<int>
    requires size > 0
  {
    if ops == [] then []
    else
      var before := ops[..|ops| - 1];
      var s := After(before, size);
      if ops[|ops| - 1].GetChar? && s != [] then Read(before, size) + [s[0]] else Read(before, size)
  }

  /** part is taken from the first n characters of all, in order, at the places at. */
  ghost predicate TakenAt(part: seq<int>, all: seq<int>, n: int, at: seq<nat>) {
    && |at| == |part| && n <= |all|
    && (forall i :: 0 <= i < |at| ==> at[i] < n && part[i] == all[at[i]])
    && (forall i, j :: 0 <= i < j < |at| ==> at[i] < at[j])
  }

  lemma TakenNext(part: seq<int>, all: seq<int>, n: nat, at: seq<nat>)
    requires TakenAt(part, all, n, at) && n < |all|
    ensures TakenAt(part + [all[n]], all, n + 1, at + [n])
  {
  }

  lemma TakenLonger(part: seq<int>, all: seq<int>, n: nat, at: seq<nat>, ch: int, m: nat)
    requires TakenAt(part, all, n, at) && n <= m <= |all + [ch]|
    ensures TakenAt(part, all + [ch], m, at)
  {
  }

  /** What is held is the end of all that was put; what was read was taken from before it, in order. */
  ghost predicate Newest(s: seq<int>, all: seq<int>, size: nat, read: seq<int>, at: seq<nat>) {
    && |s| <= size && |s| <= |all| && s == all[|all| - |s|..]
    && TakenAt(read, all, |all| - |s|, at)
  }

  lemma PutNewest(s: seq<int>, all: seq<int>, size: nat, read: seq<int>, at: seq<nat>, ch: int)
    requires size > 0 && Newest(s, all, size, read, at)
    ensures Newest(Put(s, size, ch), all + [ch], size, read, at)
  {
    hide TakenAt;
    TakenLonger(read, all, |all| - |s|, at, ch, |all| + 1 - |Put(s, size, ch)|);
  }

  lemma GetNewest(s: seq<int>, all: seq<int>, size: nat, read: seq<int>, at: seq<nat>)
    requires s != [] && Newest(s, all, size, read, at)
    ensures Newest(s[1..], all, size, read + [s[0]], at + [|all| - |s|])
  {
    hide TakenAt;
    TakenNext(read, all, |all| - |s|, at);
  }

  /** A FIFO holds the newest of the characters put into it, in order, however many were overwritten;
      the characters that have been read, in order too, are older than all it holds. */
  lemma {:induction false} HoldsNewest(ops: seq<Op>, size: nat) returns (at: seq<nat>)
    requires size > 0
    ensures Newest(After(ops, size), AllPut(ops), size, Read(ops, size), at)
  {
    at := [];
    if ops != [] {
      var before := ops[..|ops| - 1];
      at := HoldsNewest(before, size);
      var s, all, read := After(before, size), AllPut(before), Read(before, size);
      hide Newest, Put;
      match ops[|ops| - 1]
      case PutChar(ch) =>
        PutNewest(s, all, size, read, at, ch);
      case GetChar =>
        if s != [] {
          GetNewest(s, all, size, read, at);
          at := at + [|all| - |s|];
        }
    }
  }

  /** How many puts have met a full buffer. */
  function Overwritten(ops: seq<Op>, size: nat): nat
    requires size > 0
  {
    if ops == [] then 0
    else
      var before := ops[..|ops| - 1];
      Overwritten(before, size) + if ops[|ops| - 1].PutChar? && |After(before, size)| == size then 1 else 0
  }

  /** Every character is read, held, or the one that a put into a full buffer has cost. */
  lemma {:induction false} OnePerOverwrite(ops: seq<Op>, size: nat)
    requires size > 0
    ensures |Read(ops, size)| + |After(ops, size)| + Overwritten(ops, size) == |AllPut(ops)|
    ensures |After(ops, size)| <= size
  {
    if ops != [] {
      OnePerOverwrite(ops[..|ops| - 1], size);
    }
  }

  ghost predicate NeverFull(ops: seq<Op>, size: nat)
    requires size > 0
  {
    forall i :: 0 <= i < |ops| && ops[i].PutChar? ==> |After(ops[..i], size)| < size
  }

  /** As long as no put meets a full buffer nothing is lost: what has been read and what is held are
      all that was put. */
  lemma {:induction false} NothingLost(ops: seq<Op>, size: nat)
    requires size > 0 && NeverFull(ops, size)
    ensures Read(ops, size) + After(ops, size) == AllPut(ops)
  {
    if ops != [] {
      var before := ops[..|ops| - 1];
      assert NeverFull(before, size) by {
        forall i | 0 <= i < |before| && before[i].PutChar?
          ensures |After(before[..i], size)| < size
        {
          assert before[..i] == ops[..i] && ops[i].PutChar?;
        }
      }
      NothingLost(before, size);
      var s, op := After(before, size), ops[|ops| - 1];
      assert op.PutChar? ==> |s| < size;
      hide After, AllPut, NeverFull;
      assert op.PutChar? ==> Read(before, size) + (s + [op.ch]) == Read(before, size) + s + [op.ch];
      assert op.GetChar? && s != [] ==> Read(before, size) + [s[0]] + s[1..] == Read(before, size) + s;
    }
  }
}

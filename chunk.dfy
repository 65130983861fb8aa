/**
 * clox's chunk: a growable byte buffer, its constants and a table mapping
 * byte indices to source lines, kept as (line, count) pairs in one int
 * buffer (line in slot 2j, count in slot 2j+1). The code is modelled as it
 * is written, including the places where it does not do what a run-length
 * table should; the table as evidently intended is specified beside it.
 * Buffer growth follows GROW_CAPACITY of memory.h (8, then doubling); fresh
 * slots of a regrown buffer hold unknown values, as realloc leaves them.
 */
module Chunks {
  import opened Common

  newtype Byte = b: int | 0 <= b < 256

  /** GROW_CAPACITY: 8 for a small buffer, otherwise twice the old capacity. */
  function GrowCapacity(capacity: nat): (r: nat)
    ensures r > capacity && r >= 8
    ensures capacity % 2 == 0 ==> r % 2 == 0
  {
    if capacity < 8 then 8 else capacity * 2
  }

  datatype Pair = Pair(line: int, count: int)

  /** The first n (line, count) pairs of a slot buffer. */
  function PairsOf(slots: seq<int>, n: nat): (ps: seq<Pair>)
    requires 2 * n <= |slots|
    ensures |ps| == n
    ensures forall j :: 0 <= j < n ==> ps[j] == Pair(slots[2 * j], slots[2 * j + 1])
  {
    seq(n, j requires 0 <= j < n => Pair(slots[2 * j], slots[2 * j + 1]))
  }

  /** Pairs depend only on the slots they cover. */
  lemma PairsOfPrefix(a: seq<int>, b: seq<int>, n: nat)
    requires 2 * n <= |a| && 2 * n <= |b| && a[..2 * n] == b[..2 * n]
    ensures PairsOf(a, n) == PairsOf(b, n)
  {
    forall j | 0 <= j < n
      ensures PairsOf(a, n)[j] == PairsOf(b, n)[j]
    {
      assert a[2 * j] == a[..2 * n][2 * j] && a[2 * j + 1] == a[..2 * n][2 * j + 1];
      assert b[2 * j] == b[..2 * n][2 * j] && b[2 * j + 1] == b[..2 * n][2 * j + 1];
    }
  }

  /** Writing slots 2n and 2n+1 adds one pair after the first n. */
  lemma PairsOfAppend(a: seq<int>, b: seq<int>, n: nat)
    requires 2 * n <= |a| && 2 * n + 2 <= |b| && a[..2 * n] == b[..2 * n]
    ensures PairsOf(b, n + 1) == PairsOf(a, n) + [Pair(b[2 * n], b[2 * n + 1])]
  {
    PairsOfPrefix(a, b, n);
    assert PairsOf(b, n + 1)[..n] == PairsOf(b, n);
  }

  // ---------------------------------------------------------------------------
  // The line table as written

  /**
   * What writeLineArray does to the stored pairs: a new (line, 1) pair unless
   * the last pair's count equals index, in which case the slot it increments
   * lies past the last pair and no stored pair changes.
   */
  function StoredAfterWrite(pairs: seq<Pair>, index: int, line: int): (r: seq<Pair>)
    ensures |r| == |pairs| || r == pairs + [Pair(line, 1)]
  {
    if |pairs| == 0 || pairs[|pairs| - 1].count != index then pairs + [Pair(line, 1)] else pairs
  }

  /** The pairs writeChunk leaves after writing bytes on lines ls at indices 0, 1, 2, ... */
  function AsWrittenStored(ls: seq<int>): (pairs: seq<Pair>)
    decreases |ls|
  {
    if ls == [] then [] else StoredAfterWrite(AsWrittenStored(ls[..|ls| - 1]), |ls| - 1, ls[|ls| - 1])
  }

  /**
   * How many pairs the loop of indexToLine steps over: it adds counts while
   * the running total is below index and a pair is left.
   */
  function StopPair(pairs: seq<Pair>, index: int, curr: int, k: nat): (stop: nat)
    requires k <= |pairs|
    ensures k <= stop <= |pairs|
    decreases |pairs| - k
  {
    if curr < index && k < |pairs| then StopPair(pairs, index, curr + pairs[k].count, k + 1) else k
  }

  /** The line indexToLine reads, when its slot is a stored pair's line; None when it reads past them. */
  function LineAt(pairs: seq<Pair>, index: int): (r: Option<int>)
    ensures r.Some? <==> StopPair(pairs, index, 0, 0) < |pairs|
  {
    var k := StopPair(pairs, index, 0, 0);
    if k < |pairs| then Some(pairs[k].line) else None
  }

  class LineArray {
    var pairCount: nat
    var capacity: nat
    var lines: array?<int>

    ghost predicate Valid()
      reads this
    {
      (lines == null <==> capacity == 0) && (lines != null ==> lines.Length == capacity) &&
      (capacity == 0 || capacity >= 8) && capacity % 2 == 0 && 2 * pairCount <= capacity
    }

    /** The state initLineArray sets up and freeLineArray returns to. */
    ghost predicate Empty()
      reads this
    {
      pairCount == 0 && capacity == 0 && lines == null
    }

    function Slots(): (s: seq<int>)
      reads this, lines
      requires Valid()
      ensures |s| == capacity
    {
      if lines == null then [] else lines[..]
    }

    /** The stored (line, count) pairs. */
    function Pairs(): (ps: seq<Pair>)
      reads this, lines
      requires Valid()
      ensures |ps| == pairCount
    {
      PairsOf(Slots(), pairCount)
    }

    /** initLineArray. */
    constructor()
      ensures Valid() && Empty()
    {
      pairCount, capacity, lines := 0, 0, null;
    }

    /** freeLineArray: the buffer is released and the array is as initLineArray leaves it. */
    method Free()
      modifies this
      ensures Valid() && Empty()
    {
      pairCount, capacity, lines := 0, 0, null;
    }

    /** lastLine: as written, slot 2·pair_count−1, which is the last pair's count, not its line. */
    function LastLine(): (r: int)
      reads this, lines
      requires Valid() && pairCount > 0
      ensures r == Pairs()[pairCount - 1].count
    {
      lines[2 * pairCount - 1]
    }

    /**
     * writeLineArray. The assertion is a precondition. The increment of slot
     * 2·pair_count writes past the buffer when the buffer is full; that
     * out-of-bounds write is reported as overflow and changes nothing here.
     */
    method WriteLineArray(index: int, line: int) returns (overflow: bool)
      requires Valid()
      requires pairCount > 0 ==> index >= LastLine()
      modifies this, lines
      ensures Valid()
      ensures var extend := old(pairCount) > 0 && old(LastLine()) == index;
        var pc := old(pairCount);
        (overflow <==> extend && 2 * pc >= old(capacity)) &&
        (!extend ==>
          pairCount == pc + 1 &&
          capacity == (if old(capacity) < 2 * pc + 1 then GrowCapacity(old(capacity)) else old(capacity)) &&
          Slots()[..2 * pc] == old(Slots())[..2 * pc] &&
          Slots()[2 * pc] == line && Slots()[2 * pc + 1] == 1) &&
        (extend && !overflow ==>
          pairCount == pc && capacity == old(capacity) &&
          Slots() == old(Slots())[2 * pc := old(Slots())[2 * pc] + 1]) &&
        (overflow ==> pairCount == pc && capacity == old(capacity) && Slots() == old(Slots()))
      ensures !overflow ==> Pairs() == StoredAfterWrite(old(Pairs()), index, line)
    {
      ghost var before := Slots();
      overflow := false;
      if pairCount == 0 || LastLine() != index {
        AppendPair(line);
      } else if pairCount * 2 < capacity {
        lines[pairCount * 2] := lines[pairCount * 2] + 1;
        PairsOfPrefix(before, Slots(), pairCount);
      } else {
        overflow := true;
      }
    }

    /** A new pair (line, 1) after the stored ones, growing the buffer when it is full. */
    method AppendPair(line: int)
      requires Valid()
      modifies this, lines
      ensures Valid()
      ensures pairCount == old(pairCount) + 1
      ensures capacity == (if old(capacity) < 2 * old(pairCount) + 1 then GrowCapacity(old(capacity)) else old(capacity))
      ensures Slots()[..2 * old(pairCount)] == old(Slots())[..2 * old(pairCount)]
      ensures Slots()[2 * old(pairCount)] == line && Slots()[2 * old(pairCount) + 1] == 1
      ensures Pairs() == old(Pairs()) + [Pair(line, 1)]
    {
      ghost var before := Slots();
      if capacity < pairCount * 2 + 1 {
        Grow();
      }
      lines[pairCount * 2] := line;
      lines[pairCount * 2 + 1] := 1;
      PairsOfAppend(before, Slots(), pairCount);
      pairCount := pairCount + 1;
    }

    /** The grow step: GROW_CAPACITY, and GROW_ARRAY copying the old slots into a fresh buffer. */
    method Grow()
      requires Valid()
      modifies this
      ensures Valid() && fresh(lines) && pairCount == old(pairCount)
      ensures capacity == GrowCapacity(old(capacity))
      ensures Slots()[..old(capacity)] == old(Slots())
    {
      var oldCapacity := capacity;
      capacity := GrowCapacity(oldCapacity);
      var grown := new int[capacity];
      forall s | 0 <= s < oldCapacity {
        grown[s] := lines[s];
      }
      lines := grown;
    }

    /**
     * indexToLine: add counts until the running total reaches index or the
     * pairs run out, then read the line slot reached. None is a read past
     * the end of the buffer.
     */
    method IndexToLine(index: int) returns (r: Option<int>)
      requires Valid() && pairCount > 0
      ensures var k := StopPair(Pairs(), index, 0, 0);
        (k < pairCount ==> r == Some(Pairs()[k].line)) &&
        (k == pairCount ==> r == if 2 * k < capacity then Some(Slots()[2 * k]) else None)
      ensures LineAt(Pairs(), index).Some? ==> r == LineAt(Pairs(), index)
    {
      var curr := 0;
      var idx := 0;
      while curr < index && idx + 1 <= pairCount * 2
        invariant idx % 2 == 0 && 0 <= idx <= 2 * pairCount
        invariant StopPair(Pairs(), index, curr, idx / 2) == StopPair(Pairs(), index, 0, 0)
        decreases 2 * pairCount - idx
      {
        curr := curr + lines[idx + 1];
        idx := idx + 2;
      }
      if idx < capacity {
        r := Some(lines[idx]);
      } else {
        r := None;
      }
    }
  }

  // ---------------------------------------------------------------------------
  // What the table holds as written

  /**
   * The write of the byte at index |ls| may take the assertion of
   * writeLineArray, and its increment of slot 2·pair_count stays inside the
   * buffer: the only index equal to the last (unit) count is 1, when there
   * is one pair and the buffer holds at least 8 slots.
   */
  lemma WriteFits(ls: seq<int>, capacity: nat)
    requires capacity == 0 || capacity >= 8
    requires 2 * |AsWrittenStored(ls)| <= capacity
    ensures var ps := AsWrittenStored(ls);
      (|ps| > 0 ==> |ls| >= ps[|ps| - 1].count) &&
      (|ps| > 0 && ps[|ps| - 1].count == |ls| ==> 2 * |ps| < capacity)
  {
    AsWrittenCounts(ls);
  }

  /** Writing one more byte is one more step of writeLineArray. */
  lemma AsWrittenSnoc(ls: seq<int>, line: int)
    ensures AsWrittenStored(ls + [line]) == StoredAfterWrite(AsWrittenStored(ls), |ls|, line)
  {
    assert (ls + [line])[..|ls|] == ls;
  }

  /**
   * Every stored count is 1, there is at most one pair per byte, and a
   * non-empty chunk has a pair.
   */
  lemma {:induction false} AsWrittenCounts(ls: seq<int>)
    ensures var ps := AsWrittenStored(ls);
      |ps| <= |ls| && (|ls| > 0 ==> |ps| > 0) &&
      forall j :: 0 <= j < |ps| ==> ps[j].count == 1
    decreases |ls|
  {
    if ls != [] {
      AsWrittenCounts(ls[..|ls| - 1]);
    }
  }

  /**
   * As written, the byte at index 1 adds no pair (the first pair's count, 1,
   * equals its index) and every later byte adds a pair of its own, even on
   * the same line: the pairs hold the lines of bytes 0, 2, 3, ..., each with
   * count 1.
   */
  lemma {:induction false} AsWrittenDropsSecondLine(ls: seq<int>)
    requires |ls| >= 2
    ensures AsWrittenStored(ls) == [Pair(ls[0], 1)] + seq(|ls| - 2, i requires 0 <= i < |ls| - 2 => Pair(ls[i + 2], 1))
    decreases |ls|
  {
    var n := |ls| - 1;
    if |ls| == 2 {
      assert ls[..1][..0] == [];
      assert AsWrittenStored(ls[..1]) == [Pair(ls[0], 1)];
    } else {
      AsWrittenDropsSecondLine(ls[..n]);
      var prev := AsWrittenStored(ls[..n]);
      assert prev == [Pair(ls[0], 1)] + seq(n - 2, i requires 0 <= i < n - 2 => Pair(ls[i + 2], 1));
      assert prev[|prev| - 1].count == 1 != n;
    }
  }

  /** With every count 1, the loop of indexToLine stops after min(index, pairs) pairs. */
  lemma {:induction false} StopPairUnitCounts(pairs: seq<Pair>, index: int, k: nat)
    requires k <= |pairs| && forall j :: 0 <= j < |pairs| ==> pairs[j].count == 1
    ensures StopPair(pairs, index, k, k) == if index <= k then k else if index < |pairs| then index else |pairs|
    decreases |pairs| - k
  {
    if k < index && k < |pairs| {
      StopPairUnitCounts(pairs, index, k + 1);
    }
  }

  /**
   * indexToLine is right when every count is 1: index i below the number of
   * pairs gives the line of pair i.
   */
  lemma UnitCountsIndexToLine(pairs: seq<Pair>, index: int)
    requires forall j :: 0 <= j < |pairs| ==> pairs[j].count == 1
    requires 0 <= index < |pairs|
    ensures LineAt(pairs, index) == Some(pairs[index].line)
  {
    StopPairUnitCounts(pairs, index, 0);
  }

  /**
   * The effect on getLine as written: after bytes on lines 1, 2, 3, the
   * byte at index 1 is reported on line 3, and the line of the last byte is
   * read from past the stored pairs.
   */
  lemma GetLineAsWritten()
    ensures LineAt(AsWrittenStored([1, 2, 3]), 0) == Some(1)
    ensures LineAt(AsWrittenStored([1, 2, 3]), 1) == Some(3)
    ensures LineAt(AsWrittenStored([1, 2, 3]), 2) == None
  {
    AsWrittenDropsSecondLine([1, 2, 3]);
    var ps := AsWrittenStored([1, 2, 3]);
    assert ps == [Pair(1, 1), Pair(3, 1)];
    StopPairUnitCounts(ps, 0, 0);
    StopPairUnitCounts(ps, 1, 0);
    StopPairUnitCounts(ps, 2, 0);
  }

  /**
   * With a count above 1 indexToLine reads one pair too far: for the pairs
   * (123, 2), index 1 reads past the stored pairs, and for (1, 3), (2, 5)
   * index 1 gives line 2.
   */
  lemma IndexToLineOneRunLate()
    ensures LineAt([Pair(123, 2)], 1) == None
    ensures LineAt([Pair(1, 3), Pair(2, 5)], 1) == Some(2)
  {
    assert StopPair([Pair(123, 2)], 1, 0, 0) == 1;
    assert StopPair([Pair(1, 3), Pair(2, 5)], 1, 3, 1) == 1;
  }

  // ---------------------------------------------------------------------------
  // The line table as evidently intended

  /** A run's count is at least 1: the table stores no empty runs. */
  type Positive = n: int | n >= 1 witness 1

  /** One run of the intended table: count consecutive bytes on one line. */
  datatype Run = Run(line: int, count: Positive)

  /** count copies of line. */
  function Repeat(line: int, count: nat): (r: seq<int>)
    ensures |r| == count && forall i :: 0 <= i < count ==> r[i] == line
  {
    seq(count, _ => line)
  }

  /** The line of every byte, in order, that a run-length table stands for. */
  function Decode(runs: seq<Run>): (ls: seq<int>)
    decreases |runs|
  {
    if runs == [] then [] else Repeat(runs[0].line, runs[0].count) + Decode(runs[1..])
  }

  /**
   * writeLineArray as intended: a byte on the last run's line (slot
   * 2·pair_count−2) raises that run's count (slot 2·pair_count−1);
   * otherwise it starts a run (line, 1).
   */
  function IntendedWrite(runs: seq<Run>, line: int): (r: seq<Run>)
    ensures 0 < |r| && r[|r| - 1].line == line
  {
    if |runs| > 0 && runs[|runs| - 1].line == line then
      runs[..|runs| - 1] + [Run(line, runs[|runs| - 1].count + 1)]
    else runs + [Run(line, 1)]
  }

  /** The intended table after writing bytes on lines ls in order. */
  function Encode(ls: seq<int>): (runs: seq<Run>)
    ensures |runs| <= |ls|
    decreases |ls|
  {
    if ls == [] then [] else IntendedWrite(Encode(ls[..|ls| - 1]), ls[|ls| - 1])
  }

  /** indexToLine as intended: the line of the run that covers index. */
  function IntendedLineAt(runs: seq<Run>, index: int): (r: Option<int>)
    decreases |runs|
  {
    if runs == [] || index < 0 then None
    else if index < runs[0].count then Some(runs[0].line)
    else IntendedLineAt(runs[1..], index - runs[0].count)
  }

  lemma {:induction false} DecodeAppend(runs: seq<Run>, r: Run)
    ensures Decode(runs + [r]) == Decode(runs) + Repeat(r.line, r.count)
    decreases |runs|
  {
    if runs == [] {
      assert [r][1..] == [];
    } else {
      assert (runs + [r])[1..] == runs[1..] + [r];
      DecodeAppend(runs[1..], r);
    }
  }

  /** Each intended write adds exactly the byte's line to the decoded lines. */
  lemma IntendedWriteAppends(runs: seq<Run>, line: int)
    ensures Decode(IntendedWrite(runs, line)) == Decode(runs) + [line]
  {
    if |runs| > 0 && runs[|runs| - 1].line == line {
      var n := |runs| - 1;
      assert runs == runs[..n] + [runs[n]];
      DecodeAppend(runs[..n], runs[n]);
      DecodeAppend(runs[..n], Run(line, runs[n].count + 1));
      RepeatOneMore(line, runs[n].count);
    } else {
      assert Repeat(line, 1) == [line];
      DecodeAppend(runs, Run(line, 1));
    }
  }

  lemma RepeatOneMore(line: int, count: nat)
    ensures Repeat(line, count + 1) == Repeat(line, count) + [line]
  {
  }

  /** The intended table stands for exactly the lines written. */
  lemma {:induction false} EncodeDecodes(ls: seq<int>)
    ensures Decode(Encode(ls)) == ls
    decreases |ls|
  {
    if ls != [] {
      EncodeDecodes(ls[..|ls| - 1]);
      IntendedWriteAppends(Encode(ls[..|ls| - 1]), ls[|ls| - 1]);
      assert ls == ls[..|ls| - 1] + [ls[|ls| - 1]];
    }
  }

  /** The intended lookup finds the decoded line of every index. */
  lemma {:induction false} IntendedLineAtDecodes(runs: seq<Run>, index: int)
    requires 0 <= index < |Decode(runs)|
    ensures IntendedLineAt(runs, index) == Some(Decode(runs)[index])
    decreases |runs|
  {
    if index >= runs[0].count {
      IntendedLineAtDecodes(runs[1..], index - runs[0].count);
    }
  }

  /** The intended table gives back the line of every byte written. */
  lemma IntendedRoundTrip(ls: seq<int>, index: int)
    requires 0 <= index < |ls|
    ensures IntendedLineAt(Encode(ls), index) == Some(ls[index])
  {
    EncodeDecodes(ls);
    IntendedLineAtDecodes(Encode(ls), index);
  }

  // ---------------------------------------------------------------------------
  // The chunk

  class Chunk {
    var count: nat
    var capacity: nat
    var code: array?<Byte>
    const lines: LineArray
    /** The ValueArray of constants; a clox Value is a double. */
    var constants: seq<real>
    /** The line of every byte written so far. */
    ghost var writtenLines: seq<int>

    ghost predicate Valid()
      reads this, lines, lines.lines
    {
      (code == null <==> capacity == 0) && (code != null ==> code.Length == capacity) && count <= capacity &&
      lines.Valid() && |writtenLines| == count && lines.Pairs() == AsWrittenStored(writtenLines)
    }

    /** The state initChunk sets up. */
    ghost predicate Empty()
      reads this, lines
    {
      count == 0 && capacity == 0 && code == null && constants == [] && writtenLines == [] && lines.Empty()
    }

    function Code(): (bytes: seq<Byte>)
      reads this, code
      requires (code == null <==> capacity == 0) && (code != null ==> code.Length == capacity) && count <= capacity
      ensures |bytes| == count
    {
      if code == null then [] else code[..count]
    }

    /** initChunk. */
    constructor()
      ensures Valid() && Empty() && fresh(lines)
    {
      count, capacity, code := 0, 0, null;
      lines := new LineArray();
      constants := [];
      writtenLines := [];
    }

    /** freeChunk: every buffer is released and the chunk is as initChunk leaves it. */
    method Free()
      requires Valid()
      modifies this, lines
      ensures Valid() && Empty()
    {
      lines.Free();
      count, capacity, code := 0, 0, null;
      constants := [];
      writtenLines := [];
    }

    /**
     * writeChunk: grow when full, store the byte at code[count], record its
     * line in the table at index count, and count it.
     */
    method WriteChunk(byte: Byte, line: int)
      requires Valid()
      modifies this, code, lines, lines.lines
      ensures Valid()
      ensures count == old(count) + 1 && Code() == old(Code()) + [byte]
      ensures capacity == if old(capacity) < old(count) + 1 then GrowCapacity(old(capacity)) else old(capacity)
      ensures writtenLines == old(writtenLines) + [line] && constants == old(constants)
      ensures lines.Pairs() == StoredAfterWrite(old(lines.Pairs()), old(count), line)
    {
      StoreByte(byte);
      RecordLine(line);
    }

    /** The first half of writeChunk: grow when full and store the byte at code[count]. */
    method StoreByte(byte: Byte)
      requires Valid()
      modifies this, code
      ensures Valid() && count == old(count) < capacity && code[..count + 1] == old(Code()) + [byte]
      ensures capacity == if old(capacity) < old(count) + 1 then GrowCapacity(old(capacity)) else old(capacity)
      ensures writtenLines == old(writtenLines) && constants == old(constants)
      ensures lines.Pairs() == old(lines.Pairs())
    {
      if capacity < count + 1 {
        GrowCode();
      }
      code[count] := byte;
    }

    /** The second half of writeChunk: record the line of byte count in the table, and count the byte. */
    method RecordLine(line: int)
      requires Valid() && count < capacity
      modifies this, lines, lines.lines
      ensures Valid() && count == old(count) + 1 && code == old(code) && capacity == old(capacity)
      ensures writtenLines == old(writtenLines) + [line] && constants == old(constants)
      ensures lines.Pairs() == StoredAfterWrite(old(lines.Pairs()), old(count), line)
    {
      ghost var ls := writtenLines;
      WriteFits(ls, lines.capacity);
      AsWrittenSnoc(ls, line);
      var overflow := lines.WriteLineArray(count, line);
      assert !overflow;
      assert lines.Valid() && lines.Pairs() == AsWrittenStored(ls + [line]);
      count := count + 1;
      writtenLines := ls + [line];
    }

    /** The grow step of writeChunk: GROW_CAPACITY, and GROW_ARRAY copying the bytes into a fresh buffer. */
    method GrowCode()
      requires Valid()
      modifies this
      ensures Valid() && fresh(code) && count == old(count) && writtenLines == old(writtenLines)
      ensures constants == old(constants) && capacity == GrowCapacity(old(capacity)) && Code() == old(Code())
    {
      var oldCapacity := capacity;
      capacity := GrowCapacity(oldCapacity);
      var grown := new Byte[capacity];
      forall i | 0 <= i < oldCapacity {
        grown[i] := code[i];
      }
      code := grown;
    }

    /** addConstant: append the value and return its index. */
    method AddConstant(value: real) returns (index: int)
      requires Valid()
      modifies this`constants
      ensures Valid()
      ensures constants == old(constants) + [value]
      ensures 0 <= index < |constants| && index == |constants| - 1 && constants[index] == value
      ensures count == old(count) && capacity == old(capacity) && code == old(code)
      ensures writtenLines == old(writtenLines) && Code() == old(Code())
    {
      constants := constants + [value];
      index := |constants| - 1;
    }

    /**
     * getLine: indexToLine on the chunk's table, whose stored pairs are the
     * as-written pairs of the lines written so far.
     */
    method GetLine(index: int) returns (r: Option<int>)
      requires Valid() && count > 0
      ensures LineAt(AsWrittenStored(writtenLines), index).Some? ==> r == LineAt(AsWrittenStored(writtenLines), index)
    {
      AsWrittenCounts(writtenLines);
      r := lines.IndexToLine(index);
    }
  }
}

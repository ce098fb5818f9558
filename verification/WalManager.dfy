/** The numbered segments of the write-ahead log, as bytes. */
module WalManager {
  import opened Words
  import opened Model
  import opened Names
  import opened EngineState
  import opened ChunkStore
  import opened WalFormat
  import opened Wal
  import opened DiskContent
  import opened Binary

  class Manager {
    /** The directory: segment number to bytes. */
    var segments: map<nat, seq<byte>>
    /** The number of the open segment. */
    var current: nat

    /** The open segment is there, and no number is above its. */
    ghost predicate Consistent()
      reads this
    {
      current in segments && forall n :: n in segments ==> 1 <= n <= current
    }

    /** Opens the segment with the largest number read back from the names for appending, or
        starts with number 1. */
    constructor Open(directory: map<nat, seq<byte>>)
      ensures current == if Latest(directory.Keys) == 0 then 1 else Latest(directory.Keys)
      ensures segments == if current in directory then directory else directory[current := []]
      ensures (forall n :: n in directory ==> 1 <= n < NUMBERS) ==>
                && Consistent()
                && if directory.Keys == {} then current == 1 && segments == map[1 := []]
                   else current == Largest(directory.Keys) && segments == directory
    {
      hide Latest;
      var n := LatestNumber(directory.Keys);
      if n == 0 {
        n := 1;
      }
      current := n;
      segments := if n in directory then directory else directory[n := []];
      new;
      if forall k :: k in directory ==> 1 <= k < NUMBERS {
        LatestIsLargest(directory.Keys);
      }
    }

    /** Appends the frame of a record to the open segment; when the record's lengths fit, that
        appends the record to what the segment replays to. */
    method Write(rec: Record) returns (ghost order: seq<Str>)
      requires Consistent()
      modifies this
      ensures Consistent() && current == old(current)
      ensures IsOrder(order, rec.labels)
      ensures segments == old(segments)[current := old(segments)[current] + Frame(RecordBytes(rec, order))]
      ensures AllReplay(old(segments)) && Loggable(rec) ==>
                && AllReplay(segments)
                && WalContents(segments)
                   == WalContents(old(segments))[current := RecordsIn(old(segments)[current]) + [rec]]
    {
      hide RecordBytes, Frame, ReplayBytes, Loggable;
      ghost var before := segments;
      var frame, o := FrameRecord(rec);
      order := o;
      FrameReplays(segments[current], rec, order);
      segments := segments[current := segments[current] + frame];
      SegmentsPut(before, current, segments[current]);
    }

    /** Seals the open segment and opens the next one; the number is one never used before. */
    method Rotate() returns (sealed: nat)
      requires Consistent()
      modifies this
      ensures Consistent() && sealed == old(current) && current == sealed + 1
      ensures current !in old(segments) && segments == old(segments)[current := []]
    {
      sealed := current;
      current := current + 1;
      segments := segments[current := []];
    }

    /** Deletes a sealed segment. */
    method Remove(n: nat)
      requires Consistent() && n != current
      modifies this
      ensures Consistent() && current == old(current) && segments == old(segments) - {n}
    {
      segments := segments - {n};
    }
  }

  /** A segment opened under a number that is read back is the next to be opened again exactly
      when no larger number is read back: numbers from one million on are skipped. */
  lemma {:induction false} ReopenedNumber(numbers: set<nat>, n: nat)
    requires n in numbers && n > 0
    ensures Latest(numbers) == n <==> n < NUMBERS && forall m :: m in numbers ==> m <= n || m >= NUMBERS
  {
    if n < NUMBERS {
      assert n in Parsed(numbers);
    }
    assert forall m :: m in Parsed(numbers) <==> m in numbers && m < NUMBERS;
  }
}

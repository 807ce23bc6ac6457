/**
 * The cleanup queue: a fixed ring of 32 (category, voice, text) entries for
 * parties whose creator could not be moved into their new voice channel,
 * and the once-a-minute sweep that retires them.
 *
 * The sweep is a small state machine over the queue and the category id it
 * saw at the front on the previous tick (`last`): an entry is retired only
 * when it is seen at the front on two consecutive ticks.
 */
module Cleanup {
  import opened Types
  import Occupancy

  const Slots: nat := 32

  /** The array index of the `i`-th entry of a ring whose front is at `start`. */
  function Slot(start: nat, i: nat): (k: nat)
    requires start < Slots && i < Slots
    ensures k < Slots
    ensures k == (start + i) % Slots
  {
    if start + i < Slots then start + i else start + i - Slots
  }

  /** `FixedVecDeque<[_; 32]>`: a ring buffer with a front index and a length. */
  class CleanupQueue {
    const data: array<CleanupEntry>
    var start: nat
    var len: nat
    ghost var Contents: seq<CleanupEntry>

    ghost predicate Valid()
      reads this, data
    {
      data.Length == Slots && start < Slots && len <= Slots && |Contents| == len
      && forall i :: 0 <= i < len ==> Contents[i] == data[Slot(start, i)]
    }

    constructor ()
      ensures Valid() && fresh(data) && Contents == []
    {
      data := new CleanupEntry[Slots](_ => CleanupEntry(0, 0, None));
      start, len := 0, 0;
      Contents := [];
    }

    method IsFull() returns (full: bool)
      requires Valid()
      ensures full <==> |Contents| == Slots
    {
      full := len == Slots;
    }

    method Front() returns (e: Option<CleanupEntry>)
      requires Valid()
      ensures e.None? <==> Contents == []
      ensures e.Some? ==> e.value == Contents[0]
    {
      if len == 0 {
        e := None;
      } else {
        e := Some(data[start]);
      }
    }

    /**
     * `*queue.push_back() = e`: the entry goes last; on a full ring it
     * overwrites the front entry, so the length stays 32.
     */
    method PushBack(e: CleanupEntry)
      requires Valid()
      modifies this, data
      ensures Valid()
      ensures |old(Contents)| < Slots ==> Contents == old(Contents) + [e]
      ensures |old(Contents)| == Slots ==> Contents == old(Contents)[1..] + [e]
    {
      if len == Slots {
        data[start] := e;
        start := Slot(start, 1);
        Contents := Contents[1..] + [e];
      } else {
        data[Slot(start, len)] := e;
        len := len + 1;
        Contents := Contents + [e];
      }
    }

    method PopFront() returns (e: Option<CleanupEntry>)
      requires Valid()
      modifies this
      ensures Valid()
      ensures old(Contents) == [] ==> e.None? && Contents == []
      ensures old(Contents) != [] ==> e == Some(old(Contents)[0]) && Contents == old(Contents)[1..]
    {
      if len == 0 {
        e := None;
      } else {
        e := Some(data[start]);
        start := Slot(start, 1);
        len := len - 1;
        Contents := Contents[1..];
      }
    }
  }

  /**
   * One tick of the sweep on queue `q` with marker `last`: an empty queue
   * does nothing; a front entry whose category is the marker is popped;
   * any other front entry only becomes the marker.
   */
  function SweepStep(q: seq<CleanupEntry>, last: ChannelId): (r: (Option<CleanupEntry>, ChannelId))
    ensures q == [] ==> r == (None, last)
    ensures q != [] && q[0].category == last ==> r == (Some(q[0]), last)
    ensures q != [] && q[0].category != last ==> r == (None, q[0].category)
  {
    if q == [] then (None, last)
    else if q[0].category == last then (Some(q[0]), last)
    else (None, q[0].category)
  }

  /** The queue after a tick. */
  function AfterStep(q: seq<CleanupEntry>, last: ChannelId): seq<CleanupEntry> {
    if SweepStep(q, last).0.Some? then q[1..] else q
  }

  /** The queue and marker after `k` ticks with no pushes in between. */
  function Sweep(q: seq<CleanupEntry>, last: ChannelId, k: nat): (seq<CleanupEntry>, ChannelId)
    decreases k
  {
    if k == 0 then (q, last)
    else Sweep(AfterStep(q, last), SweepStep(q, last).1, k - 1)
  }

  /** Every party category is a channel of its own, so the queued categories are distinct. */
  predicate DistinctCategories(q: seq<CleanupEntry>) {
    forall i, j :: 0 <= i < j < |q| ==> q[i].category != q[j].category
  }

  /** No entry is popped on the tick it first reaches the front. */
  predicate Fresh(q: seq<CleanupEntry>, last: ChannelId) {
    q == [] || q[0].category != last
  }

  /**
   * The grace period: with no pushes, from a queue whose front has not
   * been seen yet, two ticks retire exactly one entry, so `2k` ticks retire
   * the first `k` entries (or all of them), and the front is again unseen.
   */
  lemma {:induction false} SweepRetiresOnePerTwoTicks(q: seq<CleanupEntry>, last: ChannelId, k: nat)
    requires DistinctCategories(q) && Fresh(q, last)
    ensures var n := if k < |q| then k else |q|;
            Sweep(q, last, 2 * k).0 == q[n..] && Fresh(Sweep(q, last, 2 * k).0, Sweep(q, last, 2 * k).1)
    decreases k
  {
    if k > 0 {
      if q == [] {
        SweepEmpty(last, 2 * k);
      } else {
        var m := q[0].category;
        assert SweepStep(q, last) == (None, m);
        assert SweepStep(q, m) == (Some(q[0]), m);
        assert Sweep(q, last, 2 * k) == Sweep(q[1..], m, 2 * (k - 1));
        assert DistinctCategories(q[1..]);
        assert Fresh(q[1..], m);
        SweepRetiresOnePerTwoTicks(q[1..], m, k - 1);
        assert q[1..][(if k - 1 < |q| - 1 then k - 1 else |q| - 1)..] == q[(if k < |q| then k else |q|)..];
      }
    }
  }

  /** Ticks on an empty queue change nothing. */
  lemma {:induction false} SweepEmpty(last: ChannelId, k: nat)
    ensures Sweep([], last, k) == ([], last)
    decreases k
  {
    if k > 0 {
      SweepEmpty(last, k - 1);
    }
  }

  /** A front entry is never retired on the tick it is first seen. */
  lemma FirstSightingKeepsEntry(q: seq<CleanupEntry>, last: ChannelId)
    requires q != [] && q[0].category != last
    ensures AfterStep(q, last) == q && SweepStep(q, last).1 == q[0].category
  {
  }

  /**
   * What the push onto a full queue deletes for the overwritten entry `e`,
   * as written: it reads the voice count under the entry's category id,
   * and when that is zero deletes the voice channel, the text channel and
   * the voice channel again.
   */
  function EvictionDeletes(counts: Occupancy.Counts, e: CleanupEntry): (ids: seq<ChannelId>)
    ensures Occupancy.CountOf(counts, e.category) == 0 ==> ids == [e.voice] + OptionIds(e.text) + [e.voice]
    ensures Occupancy.CountOf(counts, e.category) != 0 ==> ids == []
  {
    if Occupancy.CountOf(counts, e.category) == 0 then [e.voice] + OptionIds(e.text) + [e.voice] else []
  }

  /**
   * Since only voice channels are ever counted, the category of an
   * overwritten entry has no count: its channels are deleted whatever the
   * number of people still in its voice channel, and the category itself,
   * when distinct from its children, is never deleted.
   */
  lemma EvictionIgnoresOccupancy(counts: Occupancy.Counts, e: CleanupEntry)
    requires e.category !in counts
    requires e.category != e.voice && e.text != Some(e.category)
    ensures e.voice in EvictionDeletes(counts, e)
    ensures e.category !in EvictionDeletes(counts, e)
    ensures multiset(EvictionDeletes(counts, e))[e.voice] >= 2
  {
    var ids := EvictionDeletes(counts, e);
    assert ids == [e.voice] + OptionIds(e.text) + [e.voice];
    assert multiset(ids) == multiset{e.voice} + multiset(OptionIds(e.text)) + multiset{e.voice};
  }
}

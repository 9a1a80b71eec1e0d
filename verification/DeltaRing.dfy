/**
 The bounded ring of recent key writes, one entry per applied command, against
 the history of every push.
 */
module DeltaRing {
  import opened Wrappers
  import opened MetadataModel

  datatype Entry = Entry(index: nat, writes: seq<KeyWrite>)

  /** The bytes of a write's key and value. */
  type Weigh = KeyWrite -> nat

  function WritesSize(weigh: Weigh, writes: seq<KeyWrite>): nat {
    if writes == [] then 0 else WritesSize(weigh, writes[..|writes| - 1]) + weigh(writes[|writes| - 1])
  }

  /** An entry's share of the budget: its index and its writes. */
  function EntrySize(weigh: Weigh, e: Entry): nat {
    8 + WritesSize(weigh, e.writes)
  }

  function TotalSize(weigh: Weigh, entries: seq<Entry>): nat {
    if entries == [] then 0 else EntrySize(weigh, entries[0]) + TotalSize(weigh, entries[1..])
  }

  lemma {:induction false} TotalSizeAppend(weigh: Weigh, entries: seq<Entry>, e: Entry)
    ensures TotalSize(weigh, entries + [e]) == TotalSize(weigh, entries) + EntrySize(weigh, e)
    decreases |entries|
  {
    if entries == [] {
      assert [] + [e] == [e] && [e][1..] == [];
    } else {
      assert (entries + [e])[1..] == entries[1..] + [e];
      TotalSizeAppend(weigh, entries[1..], e);
    }
  }

  predicate Rising(h: seq<Entry>) {
    forall i, j :: 0 <= i < j < |h| ==> h[i].index < h[j].index
  }

  /** The writes of the entries with an index in `(lo, hi]`, in order. */
  function WritesIn(h: seq<Entry>, lo: nat, hi: nat): seq<KeyWrite> {
    if h == [] then []
    else
      var front := WritesIn(h[..|h| - 1], lo, hi);
      if lo < h[|h| - 1].index <= hi then front + h[|h| - 1].writes else front
  }

  lemma {:induction false} WritesInAppend(a: seq<Entry>, b: seq<Entry>, lo: nat, hi: nat)
    ensures WritesIn(a + b, lo, hi) == WritesIn(a, lo, hi) + WritesIn(b, lo, hi)
    decreases |b|
  {
    if b == [] {
      assert a + b == a;
    } else {
      assert (a + b)[..|a + b| - 1] == a + b[..|b| - 1];
      WritesInAppend(a, b[..|b| - 1], lo, hi);
    }
  }

  lemma {:induction false} NoWritesOutside(h: seq<Entry>, lo: nat, hi: nat)
    requires forall i :: 0 <= i < |h| ==> h[i].index <= lo || h[i].index > hi
    ensures WritesIn(h, lo, hi) == []
    decreases |h|
  {
    if h != [] {
      NoWritesOutside(h[..|h| - 1], lo, hi);
    }
  }

  /** The retained window is the end of the history. */
  predicate IsTail(entries: seq<Entry>, h: seq<Entry>) {
    |entries| <= |h| && h[|h| - |entries|..] == entries
  }

  predicate Covered(entries: seq<Entry>, lastSeen: nat, upto: nat) {
    lastSeen >= upto || (entries != [] && entries[0].index <= lastSeen + 1 && upto <= entries[|entries| - 1].index)
  }

  /** A covered range of the window is that range of the whole history. */
  lemma CoveredRangeIsWhole(entries: seq<Entry>, h: seq<Entry>, lastSeen: nat, upto: nat)
    requires Rising(h) && IsTail(entries, h) && lastSeen < upto && Covered(entries, lastSeen, upto)
    ensures WritesIn(entries, lastSeen, upto) == WritesIn(h, lastSeen, upto)
  {
    var n := |h| - |entries|;
    var older := h[..n];
    assert h == older + entries;
    WritesInAppend(older, entries, lastSeen, upto);
    forall i | 0 <= i < |older|
      ensures older[i].index <= lastSeen
    {
      assert older[i] == h[i] && h[n] == entries[0];
    }
    NoWritesOutside(older, lastSeen, upto);
  }

  /** `kept` is the end of `all`, and whatever was dropped was over budget when it went. */
  ghost predicate Evicts(weigh: Weigh, maxBytes: nat, all: seq<Entry>, kept: seq<Entry>) {
    IsTail(kept, all) && forall k :: 0 <= k < |all| - |kept| ==> TotalSize(weigh, all[k..]) > maxBytes
  }

  class DeltaRing {
    const weigh: Weigh
    const maxBytes: nat
    var entries: seq<Entry>
    var bytes: nat
    ghost var history: seq<Entry>

    ghost predicate Sized()
      reads this
    {
      bytes == TotalSize(weigh, entries) && (bytes <= maxBytes || |entries| == 1)
    }

    ghost predicate Valid()
      reads this
    {
      Rising(history) && IsTail(entries, history) && Sized()
    }

    constructor (weigh: Weigh, maxBytes: nat)
      ensures Valid() && history == [] && entries == [] && this.weigh == weigh && this.maxBytes == maxBytes
    {
      this.weigh, this.maxBytes := weigh, maxBytes;
      entries, bytes, history := [], 0, [];
    }

    method Clear()
      requires Valid()
      modifies this
      ensures Valid() && entries == [] && history == old(history)
    {
      entries, bytes := [], 0;
    }

    /** Pop the oldest while over budget, but never the last one. */
    method EvictOverBudget()
      requires entries != [] && bytes == TotalSize(weigh, entries)
      modifies this`entries, this`bytes
      ensures Sized() && entries != [] && Evicts(weigh, maxBytes, old(entries), entries)
    {
      ghost var all := entries;
      ghost var evicted := 0;
      assert all[0..] == all;
      while |entries| > 1 && bytes > maxBytes
        invariant 0 <= evicted < |all| && entries == all[evicted..] && bytes == TotalSize(weigh, entries)
        invariant forall k :: 0 <= k < evicted ==> TotalSize(weigh, all[k..]) > maxBytes
      {
        bytes := bytes - EntrySize(weigh, entries[0]);
        entries := entries[1..];
        assert entries == all[evicted + 1..];
        evicted := evicted + 1;
      }
    }

    /** The oldest entries go, and only while the rest is still over budget; the new one stays. */
    method Push(index: nat, writes: seq<KeyWrite>)
      requires Valid() && (history != [] ==> history[|history| - 1].index < index)
      modifies this
      ensures Valid() && history == old(history) + [Entry(index, writes)]
      ensures entries != [] && entries[|entries| - 1] == Entry(index, writes)
      ensures Evicts(weigh, maxBytes, old(entries) + [Entry(index, writes)], entries)
    {
      var entry := Entry(index, writes);
      TotalSizeAppend(weigh, entries, entry);
      RisingAppend(history, entry);
      bytes := bytes + EntrySize(weigh, entry);
      entries := entries + [entry];
      history := history + [entry];
      ghost var all := entries;
      EvictOverBudget();
      TailOfTail(old(entries), old(history), entry, entries);
      assert Evicts(weigh, maxBytes, all, entries);
    }

    /** The writes after `lastSeen` up to `upto`, or nothing when the window does not cover them. */
    method WritesSince(lastSeen: nat, upto: nat) returns (r: Option<seq<KeyWrite>>)
      requires Valid()
      ensures r.Some? <==> Covered(entries, lastSeen, upto)
      ensures r.Some? ==> r.value == if lastSeen >= upto then [] else WritesIn(history, lastSeen, upto)
    {
      if lastSeen >= upto {
        return Some([]);
      }
      if |entries| == 0 || lastSeen + 1 < entries[0].index {
        return None;
      }
      if entries[|entries| - 1].index < upto {
        return None;
      }
      CoveredRangeIsWhole(entries, history, lastSeen, upto);
      var writes: seq<KeyWrite> := [];
      for i := 0 to |entries|
        invariant writes == WritesIn(entries[..i], lastSeen, upto)
      {
        assert entries[..i + 1][..i] == entries[..i];
        if lastSeen < entries[i].index <= upto {
          writes := writes + entries[i].writes;
        }
      }
      assert entries[..|entries|] == entries;
      return Some(writes);
    }
  }

  lemma RisingAppend(h: seq<Entry>, e: Entry)
    requires Rising(h) && (h != [] ==> h[|h| - 1].index < e.index)
    ensures Rising(h + [e])
  {
    forall i | 0 <= i < |h|
      ensures h[i].index < e.index
    {
      assert h[i].index <= h[|h| - 1].index;
    }
  }

  lemma TailOfTail(before: seq<Entry>, h: seq<Entry>, e: Entry, kept: seq<Entry>)
    requires IsTail(before, h) && kept != [] && IsTail(kept, before + [e])
    ensures IsTail(kept, h + [e]) && kept[|kept| - 1] == e
  {
    var n := |h| - |before|;
    var all := before + [e];
    var cut := |all| - |kept|;
    assert h + [e] == h[..n] + all;
    assert (h + [e])[n + cut..] == all[cut..];
    assert kept[|kept| - 1] == all[cut..][|kept| - 1];
  }
}

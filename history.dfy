/** The process-wide processing log, most recent entry first. The image path
    prepends and cuts the log back to 50 entries; the video path prepends
    without cutting. */
module History {
  import opened Types

  const HistoryCap := 50

  /** The log after an image-path record: the new entry first, then the old
      entries in order, as many as fit under the cap. */
  function Prepended(h: seq<HistoryEntry>, e: HistoryEntry): (r: seq<HistoryEntry>)
    ensures |r| == Min(|h| + 1, HistoryCap)
    ensures r[0] == e
    ensures r[1..] == h[..|r| - 1]
  {
    var full := [e] + h;
    if |full| > HistoryCap then full[..HistoryCap] else full
  }

  class ProcessingHistory {
    var entries: seq<HistoryEntry>

    constructor ()
      ensures entries == []
    {
      entries := [];
    }

    /** Image path: `unshift`, then `slice(0, 50)` when longer than 50. */
    method RecordImage(entry: HistoryEntry)
      modifies this
      ensures entries == Prepended(old(entries), entry)
      ensures entries[0] == entry && |entries| == Min(|old(entries)| + 1, HistoryCap)
      ensures entries[1..] == old(entries)[..|entries| - 1]
    {
      entries := [entry] + entries;
      if |entries| > HistoryCap {
        entries := entries[..HistoryCap];
      }
    }

    /** Video path: `unshift` only. */
    method RecordVideo(entry: HistoryEntry)
      modifies this
      ensures entries == [entry] + old(entries)
      ensures |entries| == |old(entries)| + 1
    {
      entries := [entry] + entries;
    }
  }

  /** The log after image-path records of `es`, in the order they complete. */
  function ImageRecords(h: seq<HistoryEntry>, es: seq<HistoryEntry>): seq<HistoryEntry>
    decreases |es|
  {
    if es == [] then h else ImageRecords(Prepended(h, es[0]), es[1..])
  }

  function Reversed(s: seq<HistoryEntry>): (r: seq<HistoryEntry>)
    ensures |r| == |s|
    decreases |s|
  {
    if s == [] then [] else Reversed(s[1..]) + [s[0]]
  }

  /** After a run of image records the log holds the newest entries first,
      followed by the old log, cut to 50. */
  lemma {:induction false} ImageRecordsWindow(h: seq<HistoryEntry>, es: seq<HistoryEntry>)
    requires |h| <= HistoryCap || es != []
    ensures ImageRecords(h, es) == (Reversed(es) + h)[..Min(|es| + |h|, HistoryCap)]
    decreases |es|
  {
    if es == [] {
      assert (Reversed(es) + h) == h;
    } else {
      var e, rest := es[0], es[1..];
      var h1 := Prepended(h, e);
      ImageRecordsWindow(h1, rest);
      PrependedIsCut(h, e);
      ReversedCons(es, h);
      CutTail(Reversed(rest), [e] + h, |h1|, Min(|es| + |h|, HistoryCap));
      assert Min(|rest| + |h1|, HistoryCap) == Min(|es| + |h|, HistoryCap);
    }
  }

  lemma PrependedIsCut(h: seq<HistoryEntry>, e: HistoryEntry)
    ensures Prepended(h, e) == ([e] + h)[..|Prepended(h, e)|]
  {
    assert ([e] + h)[..|[e] + h|] == [e] + h;
  }

  lemma ReversedCons(es: seq<HistoryEntry>, h: seq<HistoryEntry>)
    requires es != []
    ensures Reversed(es) + h == Reversed(es[1..]) + ([es[0]] + h)
  {
    var r := Reversed(es[1..]);
    assert Reversed(es) == r + [es[0]];
    AppendAssoc(r, [es[0]], h);
  }

  /** Cutting the tail of a sequence does not change a prefix that ends
      before the cut. */
  lemma CutTail(a: seq<HistoryEntry>, t: seq<HistoryEntry>, m: nat, n: nat)
    requires m <= |t| && n <= |a| + m
    ensures (a + t[..m])[..n] == (a + t)[..n]
  {
    assert forall i :: 0 <= i < n ==> (a + t[..m])[i] == (a + t)[i];
  }

  /** However long the log was, a run of at least one image record leaves at
      most 50 entries. */
  lemma ImageRecordsBounded(h: seq<HistoryEntry>, es: seq<HistoryEntry>)
    requires |h| <= HistoryCap || es != []
    ensures |ImageRecords(h, es)| <= HistoryCap
  {
    ImageRecordsWindow(h, es);
  }

  /** After 50 image records nothing of the earlier log survives: the log is
      exactly the 50 newest entries, newest first. */
  lemma OldEntriesEvicted(h: seq<HistoryEntry>, es: seq<HistoryEntry>)
    requires |es| >= HistoryCap
    ensures ImageRecords(h, es) == Reversed(es)[..HistoryCap]
  {
    ImageRecordsWindow(h, es);
    assert (Reversed(es) + h)[..HistoryCap] == Reversed(es)[..HistoryCap];
  }
}

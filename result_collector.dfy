/**
 * The result collector of the command-line program: `on_begin`, `on_result`
 * and `on_done` acting on the state the program shares between them, the
 * heap of passed sites `out_heap`, the output file and the done event. The
 * output file is the sequence of lines written to it; the done event is a
 * flag. Console output is not modelled.
 */
module ResultCollector {
  import opened Optional
  import opened SiteAvailableCheck
  import opened HeapQueue

  /** One `out_heap` entry: `(data.site_id, data)`. */
  type HeapEntry = Entry<SiteData>

  /** The line written for one passed site. */
  function Line(data: SiteData): string
  {
    data.url + "\n"
  }

  /** The lines written for entries drained in this order. */
  function Lines(entries: seq<HeapEntry>): seq<string>
  {
    if entries == [] then [] else [Line(entries[0].item)] + Lines(entries[1..])
  }

  /** One line per entry, the k-th line for the k-th entry. */
  lemma {:induction false} LinesAt(entries: seq<HeapEntry>)
    ensures |Lines(entries)| == |entries|
    ensures forall k :: 0 <= k < |entries| ==> Lines(entries)[k] == Line(entries[k].item)
  {
    if entries != [] {
      LinesAt(entries[1..]);
    }
  }

  /** Each entry's key is the site id of its context. */
  predicate KeyedBySite(h: seq<HeapEntry>)
  {
    forall k :: 0 <= k < |h| ==> h[k].key == h[k].item.siteId
  }

  class Collector {
    var outHeap: seq<HeapEntry>
    var outLines: seq<string>
    var doneEvent: bool
    /** Number of error-free `on_result` calls so far. */
    ghost var passCount: nat

    /**
     * Every entry is keyed by its own site id, no site id is in the heap
     * twice, and every pass is either still in the heap or written out as
     * exactly one line.
     */
    ghost predicate Valid()
      reads this
    {
      && DistinctKeys(outHeap)
      && KeyedBySite(outHeap)
      && |outHeap| + |outLines| == passCount
    }

    constructor ()
      ensures Valid() && outHeap == [] && outLines == [] && !doneEvent && passCount == 0
    {
      outHeap := [];
      outLines := [];
      doneEvent := false;
      passCount := 0;
    }

    /** `on_begin` only reports progress on the console: no shared state changes. */
    method OnBegin(error: Option<Error>, data: SiteData)
      requires Valid()
      ensures Valid() && unchanged(this)
    {
    }

    /**
     * `on_result`: a failure is only reported; a pass is pushed onto the heap.
     * The site must not be in the heap yet: two entries with one site id
     * would make the heap compare two contexts, which Python refuses.
     */
    method OnResult(error: Option<Error>, data: SiteData)
      requires Valid()
      requires error.None? ==> forall k :: 0 <= k < |outHeap| ==> outHeap[k].key != data.siteId
      modifies this`outHeap, this`passCount
      ensures Valid()
      ensures error.Some? ==> outHeap == old(outHeap) && passCount == old(passCount)
      ensures error.None? ==> outHeap == old(outHeap) + [Entry(data.siteId, data)] && passCount == old(passCount) + 1
    {
      if error.Some? {
        return;
      }
      outHeap := outHeap + [Entry(data.siteId, data)];
      passCount := passCount + 1;
    }

    /**
     * `on_done`: with an error, nothing is written; otherwise the heap is
     * drained, one line per entry in ascending site id. The done event is set
     * on both paths.
     */
    method OnDone(error: Option<Error>)
      requires Valid()
      modifies this`outHeap, this`outLines, this`doneEvent
      ensures Valid() && doneEvent
      ensures error.Some? ==> outHeap == old(outHeap) && outLines == old(outLines)
      ensures error.None? ==> outHeap == [] && outLines == old(outLines) + Lines(SortByKey(old(outHeap)))
    {
      if error.Some? {
        doneEvent := true;
        return;
      }
      Drain();
      doneEvent := true;
    }

    /** The `heappop` loop of `on_done`: pop the least entry and write its line until the heap is empty. */
    method Drain()
      requires Valid()
      modifies this`outHeap, this`outLines
      ensures Valid() && outHeap == []
      ensures outLines == old(outLines) + Lines(SortByKey(old(outHeap)))
    {
      while true
        invariant Valid()
        invariant outLines + Lines(SortByKey(outHeap)) == old(outLines) + Lines(SortByKey(old(outHeap)))
        decreases |outHeap|
      {
        var top, rest := HeapPop(outHeap);
        if top.None? {
          assert outLines + [] == outLines;
          break;
        }
        ghost var written, drained := outLines, Lines(SortByKey(rest));
        DrainStep(outHeap, top.value, rest);
        outLines := outLines + [Line(top.value.item)];
        outHeap := rest;
        assert written + ([Line(top.value.item)] + drained) == outLines + drained;
      }
    }
  }

  /** Writing the popped entry's line first and then draining the rest writes the whole drain order. */
  lemma DrainStep(h: seq<HeapEntry>, top: HeapEntry, rest: seq<HeapEntry>)
    requires DistinctKeys(h) && KeyedBySite(h)
    requires exists k :: 0 <= k < |h| && Some(top) == Some(h[k]) && IsLeast(h[k], h) && rest == h[..k] + h[k + 1..]
    ensures DistinctKeys(rest) && KeyedBySite(rest) && |rest| + 1 == |h|
    ensures Lines(SortByKey(h)) == [Line(top.item)] + Lines(SortByKey(rest))
  {
    var k :| 0 <= k < |h| && Some(top) == Some(h[k]) && IsLeast(h[k], h) && rest == h[..k] + h[k + 1..];
    PopLeast(h, k);
    forall i | 0 <= i < |rest| ensures rest[i].key == rest[i].item.siteId {
      if i < k { assert rest[i] == h[i]; } else { assert rest[i] == h[i + 1]; }
    }
    assert SortByKey(h) == [h[k]] + SortByKey(rest);
    assert Lines([h[k]] + SortByKey(rest)) == [Line(h[k].item)] + Lines(SortByKey(rest));
  }

  /**
   * The drained lines come in strictly ascending site id, and there is one
   * per entry of the heap.
   */
  lemma DrainOrder(h: seq<HeapEntry>)
    requires DistinctKeys(h)
    ensures |Lines(SortByKey(h))| == |h|
    ensures Ascending(SortByKey(h))
    ensures multiset(SortByKey(h)) == multiset(h)
  {
    SortByKeyAscending(h);
    SortByKeyPermutation(h);
    LinesAt(SortByKey(h));
    assert |SortByKey(h)| == |multiset(SortByKey(h))| == |multiset(h)| == |h|;
  }
}

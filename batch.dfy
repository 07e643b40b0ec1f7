/**
 * The command-line program's wiring of the pool to the collector: every
 * callback the pool makes is handed to the matching collector operation,
 * and the output file ends up holding the normalised URL of every site that
 * passed, in input order. The heap makes that order independent of the
 * order in which the passes are pushed (`AnyArrivalOrder`).
 */
module Batch {
  import opened Optional
  import opened UrlFix
  import opened SiteAvailableCheck
  import opened ProbeTrace
  import opened HeapQueue
  import opened ResultCollector

  /** The heap entries `(site_id, data)` for these contexts. */
  function Entries(ds: seq<SiteData>): seq<HeapEntry>
  {
    seq(|ds|, k requires 0 <= k < |ds| => Entry(ds[k].siteId, ds[k]))
  }

  /** The lambdas that route a pool callback to the collector. */
  method Dispatch(collector: Collector, ev: Event)
    requires collector.Valid()
    requires ev.Result? && ev.error.None? ==>
               forall k :: 0 <= k < |collector.outHeap| ==> collector.outHeap[k].key != ev.data.siteId
    modifies collector
    ensures collector.Valid()
    ensures ev.Begin? ==> unchanged(collector)
    ensures ev.Result? ==>
              collector.outLines == old(collector.outLines) && collector.doneEvent == old(collector.doneEvent)
              && collector.outHeap == old(collector.outHeap) + (if ev.error.None? then [Entry(ev.data.siteId, ev.data)] else [])
    ensures ev.Done? && ev.doneError.None? ==>
              collector.doneEvent && collector.outHeap == []
              && collector.outLines == old(collector.outLines) + Lines(SortByKey(old(collector.outHeap)))
    ensures ev.Done? && ev.doneError.Some? ==>
              collector.doneEvent && collector.outHeap == old(collector.outHeap) && collector.outLines == old(collector.outLines)
  {
    match ev {
      case Begin(error, data) => collector.OnBegin(error, data);
      case Result(error, data) => collector.OnResult(error, data);
      case Done(error) => collector.OnDone(error);
    }
  }

  lemma PassedStep(body: seq<Event>, i: nat)
    requires i < |body|
    ensures Passed(body[..i + 1]) == Passed(body[..i]) + (if body[i].Result? && body[i].error.None? then [body[i].data] else [])
  {
    assert body[..i + 1] == body[..i] + [body[i]];
    PassedAppend(body[..i], [body[i]]);
    assert [body[i]][1..] == [];
  }

  /** Before a pass is pushed, every site already in the heap has a smaller id. */
  lemma PassedBefore(body: seq<Event>, i: nat)
    requires i < |body| && body[i].Result? && body[i].error.None?
    requires IdsAscending(Passed(body))
    ensures forall k :: 0 <= k < |Passed(body[..i])| ==> Passed(body[..i])[k].siteId < body[i].data.siteId
  {
    assert body == body[..i] + [body[i]] + body[i + 1..];
    PassedAppend(body[..i] + [body[i]], body[i + 1..]);
    PassedStep(body, i);
    assert body[..i + 1] == body[..i] + [body[i]];
    var before := Passed(body[..i]);
    assert Passed(body)[|before|] == body[i].data;
    forall k | 0 <= k < |before| ensures before[k].siteId < body[i].data.siteId {
      assert Passed(body)[k] == before[k];
    }
  }

  lemma EntriesAscending(ds: seq<SiteData>)
    requires IdsAscending(ds)
    ensures Ascending(Entries(ds)) && DistinctKeys(Entries(ds)) && KeyedBySite(Entries(ds))
  {
    var es := Entries(ds);
    forall i, j | 0 <= i < |es| && 0 <= j < |es| && i != j ensures es[i].key != es[j].key {
      if i < j { assert ds[i].siteId < ds[j].siteId; } else { assert ds[j].siteId < ds[i].siteId; }
    }
  }

  /** What the output file should hold: the normalised URL of every site that passes, in input order. */
  function PassedUrls(sites: seq<string>, from: nat, reject: string -> Option<string>, net: nat -> Reply): seq<string>
    decreases |sites| - from
  {
    if from >= |sites| then []
    else (if Survives(sites, from, reject, net) then [FixUrl(sites[from]) + "\n"] else [])
         + PassedUrls(sites, from + 1, reject, net)
  }

  lemma EntriesAppend(a: seq<SiteData>, b: seq<SiteData>)
    ensures Entries(a + b) == Entries(a) + Entries(b)
  {
    var l, r := Entries(a + b), Entries(a) + Entries(b);
    assert |l| == |r|;
    forall k | 0 <= k < |l| ensures l[k] == r[k] {
      if k >= |a| { assert (a + b)[k] == b[k - |a|]; }
    }
  }

  lemma {:induction false} LinesAppend(a: seq<HeapEntry>, b: seq<HeapEntry>)
    ensures Lines(a + b) == Lines(a) + Lines(b)
  {
    if a != [] {
      assert (a + b)[1..] == a[1..] + b;
      LinesAppend(a[1..], b);
    } else {
      assert a + b == b;
    }
  }

  /** Draining the surviving contexts writes exactly the reference lines. */
  lemma {:induction false} SurvivorLines(sites: seq<string>, from: nat, reject: string -> Option<string>, net: nat -> Reply)
    ensures Lines(Entries(Survivors(sites, from, reject, net))) == PassedUrls(sites, from, reject, net)
    decreases |sites| - from
  {
    if from < |sites| {
      var rest := Survivors(sites, from + 1, reject, net);
      SurvivorLines(sites, from + 1, reject, net);
      var head := if Survives(sites, from, reject, net) then [Context(Task(from, sites[from]), reject)] else [];
      assert Survivors(sites, from, reject, net) == head + rest;
      EntriesAppend(head, rest);
      LinesAppend(Entries(head), Entries(rest));
      if head != [] {
        assert Entries(head)[1..] == [];
      } else {
        assert Entries(head) == [];
      }
    }
  }

  /**
   * Whatever order the passes of a run are pushed in, draining the heap
   * writes the reference lines: the normalised URLs of the passing sites in
   * input order.
   */
  lemma AnyArrivalOrder(sites: seq<string>, reject: string -> Option<string>, net: nat -> Reply, pushed: seq<HeapEntry>)
    requires multiset(pushed) == multiset(Entries(Survivors(sites, 0, reject, net)))
    ensures Lines(SortByKey(pushed)) == PassedUrls(sites, 0, reject, net)
  {
    var entries := Entries(Survivors(sites, 0, reject, net));
    SurvivorsAscending(sites, 0, reject, net);
    EntriesAscending(Survivors(sites, 0, reject, net));
    DrainOrderFree(entries, pushed);
    AscendingDrainsInOrder(entries);
    SurvivorLines(sites, 0, reject, net);
  }

  /** The worker callbacks of a whole run; the completion callback follows them. */
  function RunEvents(sites: seq<string>, conc: Option<int>, reject: string -> Option<string>, net: nat -> Reply): seq<Event>
  {
    if ThreadCount(conc) > 0 then Trace(sites, 0, reject, net) else []
  }

  /** What a run's worker callbacks provide: no completion callback, and passes in ascending site id. */
  lemma RunFacts(sites: seq<string>, conc: Option<int>, reject: string -> Option<string>, net: nat -> Reply)
    ensures forall k :: 0 <= k < |RunEvents(sites, conc, reject, net)| ==> !RunEvents(sites, conc, reject, net)[k].Done?
    ensures IdsAscending(Passed(RunEvents(sites, conc, reject, net)))
    ensures ThreadCount(conc) > 0 ==> Passed(RunEvents(sites, conc, reject, net)) == Survivors(sites, 0, reject, net)
  {
    if ThreadCount(conc) > 0 {
      NoDoneFrom(sites, 0, reject, net);
      PassedAreSurvivors(sites, 0, reject, net);
      SurvivorsAscending(sites, 0, reject, net);
    }
  }

  /** Hand every worker callback to the collector in turn: the heap ends up holding every pass. */
  method Deliver(collector: Collector, events: seq<Event>)
    requires collector.Valid() && !collector.doneEvent && collector.outLines == [] && collector.outHeap == []
    requires forall k :: 0 <= k < |events| ==> !events[k].Done?
    requires IdsAscending(Passed(events))
    modifies collector
    ensures collector.Valid() && !collector.doneEvent && collector.outLines == []
    ensures collector.outHeap == Entries(Passed(events))
  {
    var i := 0;
    while i < |events|
      invariant 0 <= i <= |events|
      invariant collector.Valid() && !collector.doneEvent && collector.outLines == []
      invariant collector.outHeap == Entries(Passed(events[..i]))
    {
      PassedStep(events, i);
      if events[i].Result? && events[i].error.None? {
        PassedBefore(events, i);
      }
      Dispatch(collector, events[i]);
      i := i + 1;
    }
    assert events[..i] == events;
  }

  /**
   * One run of the program with its callbacks wired to a fresh collector:
   * the done event is set, and the output holds the normalised URL of every
   * site that passed, each once and in input order; with no worker at all
   * (`conc <= 0`) nothing is written. The order the passes reach the heap
   * does not matter to the output (`AnyArrivalOrder`).
   */
  method CheckSites(sites: seq<string>, conc: Option<int>, reject: string -> Option<string>, net: nat -> Reply)
    returns (lines: seq<string>, done: bool)
    ensures done
    ensures ThreadCount(conc) > 0 ==> lines == PassedUrls(sites, 0, reject, net)
    ensures ThreadCount(conc) == 0 ==> lines == []
  {
    var events := BulkCheck(sites, conc, reject, net);
    RunFacts(sites, conc, reject, net);
    var workerEvents := events[..|events| - 1];
    assert workerEvents == RunEvents(sites, conc, reject, net);
    var collector := new Collector();
    Deliver(collector, workerEvents);
    ghost var pushed := collector.outHeap;
    Dispatch(collector, events[|events| - 1]);
    if ThreadCount(conc) > 0 {
      AnyArrivalOrder(sites, reject, net, pushed);
    }
    lines, done := collector.outLines, collector.doneEvent;
  }
}

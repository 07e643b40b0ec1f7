/**
 * What the callback trace of the probe pipeline guarantees: tasks are claimed
 * in enumeration order, each exactly once; every task gets one `on_begin`; a
 * task whose context failed to build gets no `on_result`, every other task
 * gets exactly one, and it is a pass exactly when the site answered 200 with
 * at least the required number of bytes.
 */
module ProbeTrace {
  import opened Optional
  import opened UrlFix
  import opened SiteAvailableCheck

  /** Site ids of the `on_begin` callbacks, in the order they are made. */
  function BeginIds(events: seq<Event>): seq<nat>
  {
    if events == [] then []
    else (if events[0].Begin? then [events[0].data.siteId] else []) + BeginIds(events[1..])
  }

  /** The `on_begin` and `on_result` callbacks about one site, in order. */
  function EventsFor(events: seq<Event>, siteId: nat): seq<Event>
  {
    if events == [] then []
    else (if !events[0].Done? && events[0].data.siteId == siteId then [events[0]] else [])
         + EventsFor(events[1..], siteId)
  }

  /** The contexts reported by an error-free `on_result`, in order. */
  function Passed(events: seq<Event>): seq<SiteData>
  {
    if events == [] then []
    else (if events[0].Result? && events[0].error.None? then [events[0].data] else [])
         + Passed(events[1..])
  }

  /** A site passes: its request could be built, and it answered 200 with enough body. */
  predicate Survives(sites: seq<string>, i: nat, reject: string -> Option<string>, net: nat -> Reply)
    requires i < |sites|
  {
    reject(FixUrl(sites[i])).None?
    && net(i).Responds? && net(i).status == STATUS_OK && net(i).available >= OPENER_DATA_REQUIRE
  }

  /** The contexts of the surviving sites from position `from` on, in input order. */
  function Survivors(sites: seq<string>, from: nat, reject: string -> Option<string>, net: nat -> Reply): seq<SiteData>
    decreases |sites| - from
  {
    if from >= |sites| then []
    else (if Survives(sites, from, reject, net) then [Context(Task(from, sites[from]), reject)] else [])
         + Survivors(sites, from + 1, reject, net)
  }

  predicate IdsWithin(s: seq<SiteData>, lo: nat, hi: nat)
  {
    forall k :: 0 <= k < |s| ==> lo <= s[k].siteId < hi
  }

  /** Strictly ascending site ids, so also no id twice. */
  predicate IdsAscending(s: seq<SiteData>)
  {
    forall j, k :: 0 <= j < k < |s| ==> s[j].siteId < s[k].siteId
  }

  lemma {:induction false} BeginIdsAppend(a: seq<Event>, b: seq<Event>)
    ensures BeginIds(a + b) == BeginIds(a) + BeginIds(b)
  {
    if a != [] {
      assert (a + b)[1..] == a[1..] + b;
      BeginIdsAppend(a[1..], b);
    } else {
      assert a + b == b;
    }
  }

  lemma {:induction false} EventsForAppend(a: seq<Event>, b: seq<Event>, siteId: nat)
    ensures EventsFor(a + b, siteId) == EventsFor(a, siteId) + EventsFor(b, siteId)
  {
    if a != [] {
      assert (a + b)[1..] == a[1..] + b;
      EventsForAppend(a[1..], b, siteId);
    } else {
      assert a + b == b;
    }
  }

  lemma {:induction false} PassedAppend(a: seq<Event>, b: seq<Event>)
    ensures Passed(a + b) == Passed(a) + Passed(b)
  {
    if a != [] {
      assert (a + b)[1..] == a[1..] + b;
      PassedAppend(a[1..], b);
    } else {
      assert a + b == b;
    }
  }

  /**
   * The callbacks of one task: an `on_begin` about the task's context first;
   * it carries an error exactly when the request could not be built, and then
   * it is the only callback; otherwise one `on_result` about the same context
   * follows, error-free exactly when the site answered 200 with at least
   * 1000 bytes.
   */
  lemma TaskCallbacks(t: Task, reject: string -> Option<string>, net: nat -> Reply)
    ensures var ev := TaskEvents(t, reject, net);
      && 1 <= |ev| <= 2
      && ev[0].Begin? && ev[0].data == Context(t, reject)
      && (ev[0].error.Some? <==> reject(FixUrl(t.rawUrl)).Some?)
      && (|ev| == 1 <==> ev[0].error.Some?)
      && (|ev| == 2 ==>
            (ev[1].Result? && ev[1].data == ev[0].data
             && (ev[1].error.None? <==>
                   net(t.siteId).Responds? && net(t.siteId).status == STATUS_OK
                   && net(t.siteId).available >= OPENER_DATA_REQUIRE)))
  {
  }

  /** Every callback a task produces is about that task's site. */
  lemma TaskEventsAbout(t: Task, reject: string -> Option<string>, net: nat -> Reply, siteId: nat)
    ensures EventsFor(TaskEvents(t, reject, net), siteId) == if siteId == t.siteId then TaskEvents(t, reject, net) else []
  {
    var ev := TaskEvents(t, reject, net);
    TaskCallbacks(t, reject, net);
    if |ev| == 1 {
      assert ev == [ev[0]];
    } else {
      assert ev == [ev[0]] + [ev[1]];
      EventsForAppend([ev[0]], [ev[1]], siteId);
    }
  }

  /** One task contributes exactly one `on_begin`, about its own site. */
  lemma TaskBeginIds(t: Task, reject: string -> Option<string>, net: nat -> Reply)
    ensures BeginIds(TaskEvents(t, reject, net)) == [t.siteId]
  {
    var ev := TaskEvents(t, reject, net);
    TaskCallbacks(t, reject, net);
    if |ev| == 1 {
      assert ev[1..] == [];
    } else {
      assert ev[1..] == [ev[1]] && ev[1..][1..] == [];
      assert BeginIds(ev[1..]) == [] + BeginIds([]);
    }
    assert ev[0].data.siteId == t.siteId;
  }

  /**
   * Tasks are claimed in enumeration order: the `on_begin` callbacks name the
   * positions `from`, `from + 1`, ... up to the end of the list, each once.
   */
  lemma {:induction false} ClaimOrderFrom(sites: seq<string>, from: nat, reject: string -> Option<string>, net: nat -> Reply)
    requires from <= |sites|
    ensures BeginIds(Trace(sites, from, reject, net)) == seq(|sites| - from, k => from + k)
    decreases |sites| - from
  {
    if from < |sites| {
      var t := Task(from, sites[from]);
      var rest := Trace(sites, from + 1, reject, net);
      assert Trace(sites, from, reject, net) == TaskEvents(t, reject, net) + rest;
      ClaimOrderFrom(sites, from + 1, reject, net);
      BeginIdsAppend(TaskEvents(t, reject, net), rest);
      TaskBeginIds(t, reject, net);
      CountUpCons(from, |sites| - from - 1);
    }
  }

  lemma CountUpCons(from: nat, n: nat)
    ensures seq(n + 1, k => from + k) == [from] + seq(n, k => from + 1 + k)
  {
  }

  /** The completion callback is never made by a worker: a worker trace holds only task callbacks. */
  lemma {:induction false} NoDoneFrom(sites: seq<string>, from: nat, reject: string -> Option<string>, net: nat -> Reply)
    ensures forall k :: 0 <= k < |Trace(sites, from, reject, net)| ==> !Trace(sites, from, reject, net)[k].Done?
    decreases |sites| - from
  {
    if from < |sites| {
      var t := Task(from, sites[from]);
      var ev := TaskEvents(t, reject, net);
      var rest := Trace(sites, from + 1, reject, net);
      NoDoneFrom(sites, from + 1, reject, net);
      TaskCallbacks(t, reject, net);
      var all: seq<Event> := ev + rest;
      forall k | 0 <= k < |all| ensures !all[k].Done? {
        if k >= |ev| { assert all[k] == rest[k - |ev|]; }
      }
    }
  }

  /** From the start: the k-th `on_begin` is about site k, for every site, and no other. */
  lemma ClaimOrder(sites: seq<string>, reject: string -> Option<string>, net: nat -> Reply)
    ensures BeginIds(Trace(sites, 0, reject, net)) == seq(|sites|, k => k)
  {
    ClaimOrderFrom(sites, 0, reject, net);
  }

  /** The callbacks about one site are exactly that site's task's callbacks, if it is in range. */
  lemma {:induction false} EventsForTraceFrom(sites: seq<string>, from: nat, siteId: nat, reject: string -> Option<string>, net: nat -> Reply)
    ensures EventsFor(Trace(sites, from, reject, net), siteId)
         == if from <= siteId < |sites| then TaskEvents(Task(siteId, sites[siteId]), reject, net) else []
    decreases |sites| - from
  {
    if from < |sites| {
      var t := Task(from, sites[from]);
      EventsForTraceFrom(sites, from + 1, siteId, reject, net);
      EventsForAppend(TaskEvents(t, reject, net), Trace(sites, from + 1, reject, net), siteId);
      TaskEventsAbout(t, reject, net, siteId);
    }
  }

  /**
   * The per-site callback contract over a whole run: each site of the list
   * gets one `on_begin`; an error in it means the request could not be built
   * and no `on_result` follows; otherwise exactly one `on_result` follows,
   * and it is a pass exactly when the site answered 200 with enough bytes.
   */
  lemma SiteCallbacks(sites: seq<string>, i: nat, reject: string -> Option<string>, net: nat -> Reply)
    requires i < |sites|
    ensures var ev := EventsFor(Trace(sites, 0, reject, net), i);
      && 1 <= |ev| <= 2
      && ev[0].Begin? && ev[0].data.siteId == i && ev[0].data.url == FixUrl(sites[i])
      && (ev[0].error.Some? <==> reject(FixUrl(sites[i])).Some?)
      && (|ev| == 1 <==> ev[0].error.Some?)
      && (|ev| == 2 ==>
            (ev[1].Result? && ev[1].data == ev[0].data
             && (ev[1].error.None? <==> Survives(sites, i, reject, net))))
  {
    EventsForTraceFrom(sites, 0, i, reject, net);
    TaskCallbacks(Task(i, sites[i]), reject, net);
  }

  /** Positions past the end of the list get no callbacks at all. */
  lemma NoCallbacksPastEnd(sites: seq<string>, i: nat, reject: string -> Option<string>, net: nat -> Reply)
    requires i >= |sites|
    ensures EventsFor(Trace(sites, 0, reject, net), i) == []
  {
    EventsForTraceFrom(sites, 0, i, reject, net);
  }

  /** The passing contexts of a run are the surviving sites' contexts, in input order. */
  lemma {:induction false} PassedAreSurvivors(sites: seq<string>, from: nat, reject: string -> Option<string>, net: nat -> Reply)
    ensures Passed(Trace(sites, from, reject, net)) == Survivors(sites, from, reject, net)
    decreases |sites| - from
  {
    if from < |sites| {
      var t := Task(from, sites[from]);
      PassedAreSurvivors(sites, from + 1, reject, net);
      PassedAppend(TaskEvents(t, reject, net), Trace(sites, from + 1, reject, net));
      var ev := TaskEvents(t, reject, net);
      TaskCallbacks(t, reject, net);
      if |ev| == 1 {
        assert ev == [ev[0]] + [];
      } else {
        assert ev == [ev[0]] + [ev[1]];
        PassedAppend([ev[0]], [ev[1]]);
      }
    }
  }

  /** Surviving contexts come in strictly ascending site id, all at or after `from`. */
  lemma {:induction false} SurvivorsAscending(sites: seq<string>, from: nat, reject: string -> Option<string>, net: nat -> Reply)
    ensures IdsWithin(Survivors(sites, from, reject, net), from, |sites|)
    ensures IdsAscending(Survivors(sites, from, reject, net))
    decreases |sites| - from
  {
    if from < |sites| {
      SurvivorsAscending(sites, from + 1, reject, net);
      var rest := Survivors(sites, from + 1, reject, net);
      var head := if Survives(sites, from, reject, net) then [Context(Task(from, sites[from]), reject)] else [];
      var all := Survivors(sites, from, reject, net);
      assert all == head + rest;
      assert forall k :: 0 <= k < |head| ==> head[k].siteId == from;
      forall k | 0 <= k < |all|
        ensures from <= all[k].siteId < |sites|
      {
        if k >= |head| { assert all[k] == rest[k - |head|]; }
      }
      forall j, k | 0 <= j < k < |all|
        ensures all[j].siteId < all[k].siteId
      {
        assert all[k] == rest[k - |head|];
        if j >= |head| { assert all[j] == rest[j - |head|]; }
      }
    }
  }
}

/**
 * The probe pipeline of `site_available_check`: a shared cursor over the
 * enumerated site list, the worker loop that claims one site at a time,
 * builds its request context, reports `on_begin`, probes the site and
 * reports `on_result`, and the bulk entry point that starts the workers and
 * reports completion.
 *
 * The worker's callbacks are recorded as an event trace, in the order the
 * worker would invoke them. The network is an oracle: `net(siteId)` is what
 * opening the request for that task does (it raises, or it answers with a
 * status and a number of body bytes available). Building the request object
 * is the other foreign step that can raise: `reject(url)` is `Some(tag)` when
 * the HTTP library refuses the normalised URL.
 */
module SiteAvailableCheck {
  import opened Optional
  import opened UrlFix

  const DEFAULT_CONCURRENCY: int := 20
  /** Seconds given to `opener.open`. */
  const OPENER_TIMEOUT: real := 20.0
  /** Body bytes a site must deliver to pass. */
  const OPENER_DATA_REQUIRE: nat := 1000
  /** The only status that passes. */
  const STATUS_OK: int := 200

  /** One item of `enumerate(site_list)`. */
  datatype Task = Task(siteId: nat, rawUrl: string)

  /** The request settings stored once the request object exists. */
  datatype Opener = Opener(timeout: real, dataRequire: nat)

  /**
   * `SiteAvCheckData` as the callbacks see it: `opener` is `None` when
   * building the request raised before the timeout and length were stored.
   */
  datatype SiteData = SiteData(siteId: nat, rawUrl: string, url: string, opener: Option<Opener>)

  /** What a callback's `error` argument says: a foreign exception, or one of the two checks. */
  datatype Error = Raised(tag: string) | UnexpectedStatus | ShortBody

  /** The oracle's answer to opening one request. */
  datatype Reply = Raises(tag: string) | Responds(status: int, available: nat)

  /** One callback invocation: `on_begin`, `on_result` or the completion callback. */
  datatype Event =
    | Begin(error: Option<Error>, data: SiteData)
    | Result(error: Option<Error>, data: SiteData)
    | Done(doneError: Option<Error>)

  /** What `resp.read(n)` returns when `available` body bytes remain: at most `n` of them. */
  function ReadUpTo(available: nat, n: nat): (got: nat)
    ensures got <= n && got <= available
    ensures got == n || got == available
  {
    if available < n then available else n
  }

  /** The outcome of the probe once the request exists: `None` is a pass. */
  function Verdict(reply: Reply, require: nat): (error: Option<Error>)
    ensures error.None? <==> reply.Responds? && reply.status == STATUS_OK && reply.available >= require
    ensures reply.Responds? && reply.status != STATUS_OK ==> error == Some(UnexpectedStatus)
    ensures reply.Raises? ==> error == Some(Raised(reply.tag))
  {
    match reply
    case Raises(tag) => Some(Raised(tag))
    case Responds(status, available) =>
      if status != STATUS_OK then Some(UnexpectedStatus)
      else if ReadUpTo(available, require) < require then Some(ShortBody)
      else None
  }

  /** The error building the request context raises, if any. */
  function BuildError(t: Task, reject: string -> Option<string>): (error: Option<Error>)
    ensures error.Some? <==> reject(FixUrl(t.rawUrl)).Some?
  {
    match reject(FixUrl(t.rawUrl))
    case Some(tag) => Some(Raised(tag))
    case None => None
  }

  /** The context as far as it was built: the request settings only when the request exists. */
  function Context(t: Task, reject: string -> Option<string>): (data: SiteData)
    ensures data.siteId == t.siteId && data.rawUrl == t.rawUrl && data.url == FixUrl(t.rawUrl)
    ensures data.opener.Some? <==> BuildError(t, reject).None?
    ensures data.opener.Some? ==> data.opener.value == Opener(OPENER_TIMEOUT, OPENER_DATA_REQUIRE)
  {
    var url := FixUrl(t.rawUrl);
    if reject(url).Some? then SiteData(t.siteId, t.rawUrl, url, None)
    else SiteData(t.siteId, t.rawUrl, url, Some(Opener(OPENER_TIMEOUT, OPENER_DATA_REQUIRE)))
  }

  /** The callbacks one claimed task produces. */
  function TaskEvents(t: Task, reject: string -> Option<string>, net: nat -> Reply): seq<Event>
  {
    var data := Context(t, reject);
    if BuildError(t, reject).Some? then [Begin(BuildError(t, reject), data)]
    else [Begin(None, data), Result(Verdict(net(t.siteId), OPENER_DATA_REQUIRE), data)]
  }

  /**
   * The callbacks of the tasks of `enumerate(sites)` from position `from` on,
   * claimed one after another.
   */
  function Trace(sites: seq<string>, from: nat, reject: string -> Option<string>, net: nat -> Reply): seq<Event>
    decreases |sites| - from
  {
    if from >= |sites| then []
    else TaskEvents(Task(from, sites[from]), reject, net) + Trace(sites, from + 1, reject, net)
  }

  /** A trace from a position inside the list starts with that position's task. */
  lemma TraceStep(sites: seq<string>, from: nat, reject: string -> Option<string>, net: nat -> Reply)
    requires from < |sites|
    ensures Trace(sites, from, reject, net)
         == TaskEvents(Task(from, sites[from]), reject, net) + Trace(sites, from + 1, reject, net)
  {
  }

  /** The shared `enumerate` iterator behind `iter_lock`. */
  class SiteCursor {
    const sites: seq<string>
    var pos: nat

    ghost predicate Valid()
      reads this
    {
      pos <= |sites|
    }

    constructor (sites: seq<string>)
      ensures Valid() && this.sites == sites && pos == 0
    {
      this.sites := sites;
      pos := 0;
    }

    /** `next(site_iter)`: the next pair, or `None` where Python raises `StopIteration`. */
    method Next() returns (t: Option<Task>)
      requires Valid()
      modifies this`pos
      ensures Valid()
      ensures old(pos) < |sites| ==> t == Some(Task(old(pos), sites[old(pos)])) && pos == old(pos) + 1
      ensures old(pos) == |sites| ==> t == None && pos == old(pos)
    {
      if pos == |sites| {
        return None;
      }
      t := Some(Task(pos, sites[pos]));
      pos := pos + 1;
    }
  }

  /*
   * The steps of one loop iteration are kept as statements, in the order the
   * worker performs them: the request is built before the timeout and length
   * are stored, and the status is checked before any body byte is read. Each
   * method is proved to compute the function that specifies it (`Context`,
   * `Verdict`, `TaskEvents`); the lemmas reason about those functions.
   */

  /**
   * The first half of one iteration, after the claim: normalise the URL,
   * build the request (which may raise), store the timeout and the required
   * length.
   */
  method BuildContext(t: Task, reject: string -> Option<string>) returns (data: SiteData, error: Option<Error>)
    ensures data == Context(t, reject) && error == BuildError(t, reject)
  {
    var url := FixUrl(t.rawUrl);
    data := SiteData(t.siteId, t.rawUrl, url, None);
    var refused := reject(url);
    if refused.Some? {
      return data, Some(Raised(refused.value));
    }
    data := data.(opener := Some(Opener(OPENER_TIMEOUT, OPENER_DATA_REQUIRE)));
    error := None;
  }

  /**
   * The second half of one iteration: open the request, require status 200,
   * then read up to the required number of bytes and require all of them.
   */
  method Probe(opener: Opener, reply: Reply) returns (error: Option<Error>)
    ensures error == Verdict(reply, opener.dataRequire)
  {
    error := None;
    match reply {
      case Raises(tag) =>
        error := Some(Raised(tag));
      case Responds(status, available) =>
        if status != STATUS_OK {
          error := Some(UnexpectedStatus);
        } else {
          var body := ReadUpTo(available, opener.dataRequire);
          if body < opener.dataRequire {
            error := Some(ShortBody);
          }
        }
    }
  }

  /**
   * One pass of the worker loop after the claim: build the context and report
   * `on_begin`; when building raised, that is all for this task; otherwise
   * probe and report `on_result`.
   */
  method RunTask(task: Task, reject: string -> Option<string>, net: nat -> Reply) returns (events: seq<Event>)
    ensures events == TaskEvents(task, reject, net)
  {
    var data, buildError := BuildContext(task, reject);
    if buildError.Some? {
      events := [Begin(buildError, data)];
      return;
    }
    events := [Begin(None, data)];
    var error := Probe(data.opener.value, net(task.siteId));
    events := events + [Result(error, data)];
  }

  /**
   * `site_available_check_thread`: claim tasks until the cursor is exhausted;
   * per task report `on_begin` (with the error when building the request
   * raised, and then go on to the next task), probe, and report `on_result`.
   */
  method CheckThread(cursor: SiteCursor, reject: string -> Option<string>, net: nat -> Reply)
    returns (events: seq<Event>)
    requires cursor.Valid()
    modifies cursor
    ensures cursor.Valid() && cursor.pos == |cursor.sites|
    ensures events == Trace(cursor.sites, old(cursor.pos), reject, net)
  {
    events := [];
    while true
      invariant cursor.Valid() && old(cursor.pos) <= cursor.pos
      invariant events + Trace(cursor.sites, cursor.pos, reject, net) == Trace(cursor.sites, old(cursor.pos), reject, net)
      decreases |cursor.sites| - cursor.pos
    {
      ghost var prior, pos := events, cursor.pos;
      var claimed := cursor.Next();
      if claimed.None? {
        assert events + [] == events;
        return;
      }
      var task := claimed.value;
      ghost var rest := Trace(cursor.sites, cursor.pos, reject, net);
      TraceStep(cursor.sites, pos, reject, net);
      var taskEvents := RunTask(task, reject, net);
      events := events + taskEvents;
      assert events + rest == prior + (TaskEvents(task, reject, net) + rest);
    }
  }

  /** Number of worker threads: `conc`, defaulting to `DEFAULT_CONCURRENCY`; `range(conc)` is empty for `conc <= 0`. */
  function ThreadCount(conc: Option<int>): (n: nat)
    ensures conc.None? ==> n == DEFAULT_CONCURRENCY
    ensures conc.Some? ==> n == if conc.value < 0 then 0 else conc.value
  {
    var c := if conc.None? then DEFAULT_CONCURRENCY else conc.value;
    if c < 0 then 0 else c
  }

  /**
   * `bulk_site_available_check` run sequentially: the workers run one after
   * another over one shared cursor, then the completion callback reports
   * success. The first worker drains the cursor; the others find it empty.
   */
  method BulkCheck(sites: seq<string>, conc: Option<int>, reject: string -> Option<string>, net: nat -> Reply)
    returns (events: seq<Event>)
    ensures ThreadCount(conc) > 0 ==> events == Trace(sites, 0, reject, net) + [Done(None)]
    ensures ThreadCount(conc) == 0 ==> events == [Done(None)]
  {
    var threads := ThreadCount(conc);
    var cursor := new SiteCursor(sites);
    events := [];
    for i := 0 to threads
      invariant cursor.Valid() && cursor.sites == sites
      invariant i == 0 ==> cursor.pos == 0 && events == []
      invariant i > 0 ==> cursor.pos == |sites| && events == Trace(sites, 0, reject, net)
    {
      var threadEvents := CheckThread(cursor, reject, net);
      events := events + threadEvents;
    }
    events := events + [Done(None)];
  }
}

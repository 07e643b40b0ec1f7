# site-available-check, modelled in Dafny

`site-available-check` reads a list of site references and probes every site
with HTTP GET through a pool of worker threads. A site passes when it answers
status 200 and delivers at least 1000 body bytes. The program writes the
normalised URL of every passing site to an output file, one per line, in the
order of the input list.

This project models the core of that program:

- `fix_url`, the URL normaliser (`fix_url.dfy`, module `UrlFix`). It is pure
  string logic.
- The worker loop `site_available_check_thread`, the shared `enumerate`
  cursor, and `bulk_site_available_check` with its `conc` default
  (`site_available_check.dfy`, module `SiteAvailableCheck`). The workers run
  one after another instead of concurrently. Every callback a worker makes
  is recorded as an `Event` in a trace, in invocation order.
- What the callback trace guarantees, as lemmas (`probe_trace.dfy`, module
  `ProbeTrace`):
  - Tasks are claimed in input order, each exactly once.
  - Every task gets one `on_begin`.
  - A failed request build ends the task after its `on_begin`.
  - Every other task gets one `on_result`. It is a pass exactly when the
    site answered 200 with at least 1000 bytes.
- The `heapq` operations the collector uses (`heap_queue.dfy`, module
  `HeapQueue`). Pushing appends. `HeapPop` removes an entry of least key.
  The order in which repeated pops deliver the entries is specified by an
  insertion sort, `SortByKey`. For distinct keys, which
  `Collector.Valid()` maintains, it is proved to be a strictly ascending
  permutation.
- The result collector of `main.py`, as the class `ResultCollector.Collector`.
  Its fields are `out_heap`, the lines written to the output file, and
  `done_event`. Its methods are `on_begin`, `on_result` and `on_done`
  (`result_collector.dfy`).
- The wiring in `main()` that routes the pool's callbacks to the collector
  (`batch.dfy`, module `Batch`). `CheckSites` runs the pool, replays every
  callback into a fresh collector, and proves what the output file holds:
  the normalised URL of every site that passes, each once, in input order.
  The replay delivers the results in claim order. `AnyArrivalOrder` proves
  separately that the output would be the same for any order in which the
  passes reached the heap.

The network and the HTTP library are oracles:

- `net: nat -> Reply` says what probing site `site_id` does. It either
  raises, tagged, or answers with a status and a number of available body
  bytes. `resp.read` can also raise, for example on a timeout in the middle
  of the body. That case is expressed as `Raises(tag)` too, since it leads
  to the same `on_result` with an error.
- `reject: string -> Option<string>` says whether building the request
  object for a normalised URL raises.

Exceptions are opaque tags. `SiteAvCheckError` appears as the two checks it
reports: `UnexpectedStatus` and `ShortBody`.

Two consequences of the code are worth stating:

- There are no dedicated `Timeout`, `ConnectionError` or `NormalizationError`
  failure kinds. Any exception from `build_opener`, `opener.open` or
  `resp.read` is passed to `on_result` as it is
  (site_available_check.py:74-90). One from building the request object
  (`request.Request`) goes to `on_begin` instead
  (site_available_check.py:62,65-67). `fix_url` cannot fail on a string.
  The model has `Raised(tag)` plus the two checks.
- `range(conc)` starts no worker for `conc <= 0`, yet `callback(None)`
  still fires (site_available_check.py:119,125-132). In that case no site
  is probed and nothing is written. `ThreadCount` and `BulkCheck` model
  this.

## Model

| member | source | states |
|---|---|---|
| UrlFix.FixUrl | lib_site_available_check_2013_03_09/site_available_check.py:31-43 | `fix_url`: a reference without the `https:` or `http:` scheme gets a `/` unless it starts with `/`, then another unless it starts with `//`, then the `http:` prefix; anything else is returned as it is. Its properties are the lemmas below |
| UrlFix.LeadingSlashes | lib_site_available_check_2013_03_09/site_available_check.py:36-39 | the count is the length of the run of `/` the string starts with: all of those are slashes and the next character is not |
| UrlFix.FixUrlKeepsScheme | lib_site_available_check_2013_03_09/site_available_check.py:34-43 | a reference starting with `http:` or `https:` is returned unchanged |
| UrlFix.ShapeNoSlash | lib_site_available_check_2013_03_09/site_available_check.py:36-41 | a scheme-less reference with no leading slash becomes `http://` + the reference |
| UrlFix.ShapeOneSlash | lib_site_available_check_2013_03_09/site_available_check.py:36-41 | with exactly one leading slash, it becomes `http:/` + the reference |
| UrlFix.ShapeTwoSlashes | lib_site_available_check_2013_03_09/site_available_check.py:36-41 | with two or more leading slashes, it becomes `http:` + the reference |
| UrlFix.FixUrlShape | lib_site_available_check_2013_03_09/site_available_check.py:34-41 | every scheme-less reference becomes `http:`, then 2, 1 or 0 added slashes for 0, 1 or at least 2 leading slashes, then the reference unchanged |
| UrlFix.FixUrlNetworkLocation | lib_site_available_check_2013_03_09/site_available_check.py:34-41 | every scheme-less reference comes out starting with `http://` and ending with the untouched input |
| UrlFix.FixUrlResult | lib_site_available_check_2013_03_09/site_available_check.py:31-43 | every result names the `http:` or `https:` scheme and ends with the input |
| UrlFix.FixUrlIdempotent | lib_site_available_check_2013_03_09/site_available_check.py:31-43 | normalising twice gives the same as normalising once |
| UrlFix.FixUrlBareHost | lib_site_available_check_2013_03_09/site_available_check.py:34-43 | `example.com` becomes `http://example.com` |
| UrlFix.FixUrlRootedPath | lib_site_available_check_2013_03_09/site_available_check.py:34-43 | `/path` becomes `http://path` |
| UrlFix.FixUrlHttps | lib_site_available_check_2013_03_09/site_available_check.py:34-43 | `https://x.com` is left unchanged |
| SiteAvailableCheck.ReadUpTo | lib_site_available_check_2013_03_09/site_available_check.py:84 | `resp.read(n)` returns at most `n` bytes and no more than are available; it returns `n` of them or all that are available |
| SiteAvailableCheck.Verdict | lib_site_available_check_2013_03_09/site_available_check.py:76-87 | a probe passes iff the site answered status 200 and at least the required number of bytes could be read; a non-200 answer fails as an unexpected status, whatever the body; an exception from opening is passed on with its tag |
| SiteAvailableCheck.BuildError | lib_site_available_check_2013_03_09/site_available_check.py:61-62 | building the context fails exactly when the request object for the normalised URL cannot be built |
| SiteAvailableCheck.Context | lib_site_available_check_2013_03_09/site_available_check.py:52-64 | the context carries the claimed id, the raw URL and its normalisation; the timeout 20.0 and the 1000-byte requirement are stored exactly when the request could be built |
| SiteAvailableCheck.TaskEvents | lib_site_available_check_2013_03_09/site_available_check.py:52-95 | the callbacks of one loop iteration after a successful claim: `on_begin` with the build error alone, or `on_begin` without error followed by `on_result` with the probe's verdict; `ProbeTrace.TaskCallbacks` states their content |
| SiteAvailableCheck.Trace | lib_site_available_check_2013_03_09/site_available_check.py:45-95 | the callbacks of the worker loop from a cursor position to the end of the list: each task's callbacks in claim order; `ProbeTrace` states what they guarantee |
| SiteAvailableCheck.SiteCursor.constructor | lib_site_available_check_2013_03_09/site_available_check.py:108 | `enumerate(site_list)` starts at position 0 of the list |
| SiteAvailableCheck.SiteCursor.Next | lib_site_available_check_2013_03_09/site_available_check.py:55-59 | `next` yields the pair (position, raw URL) and advances by one; at the end it yields nothing and stays put |
| SiteAvailableCheck.BuildContext | lib_site_available_check_2013_03_09/site_available_check.py:61-64 | the imperative context build produces the specified context and build error |
| SiteAvailableCheck.Probe | lib_site_available_check_2013_03_09/site_available_check.py:74-87 | the imperative probe reaches the verdict `Verdict` specifies for the opener's required length |
| SiteAvailableCheck.RunTask | lib_site_available_check_2013_03_09/site_available_check.py:61-95 | one claimed task makes exactly the callbacks `TaskEvents` specifies |
| SiteAvailableCheck.CheckThread | lib_site_available_check_2013_03_09/site_available_check.py:45-95 | the worker loop exhausts the cursor and makes the callbacks of every remaining task, task by task in claim order |
| SiteAvailableCheck.ThreadCount | lib_site_available_check_2013_03_09/site_available_check.py:104-105 | `conc` defaults to 20 when absent; `conc <= 0` starts no worker |
| SiteAvailableCheck.BulkCheck | lib_site_available_check_2013_03_09/site_available_check.py:97-132 | with at least one worker, the callbacks are those of every task in input order and then one completion callback without error; with none, only the completion callback |
| ProbeTrace.TaskCallbacks | lib_site_available_check_2013_03_09/site_available_check.py:54-95 | one task makes one or two callbacks. The first is `on_begin` about its context, with an error iff the request could not be built, and then it is the only one. Otherwise one `on_result` about the same context follows, error-free iff status 200 with at least 1000 bytes |
| ProbeTrace.TaskEventsAbout | lib_site_available_check_2013_03_09/site_available_check.py:54-95 | every callback a task makes is about that task's site and no other |
| ProbeTrace.TaskBeginIds | lib_site_available_check_2013_03_09/site_available_check.py:65-72 | each task makes exactly one `on_begin`, about its own site id |
| ProbeTrace.ClaimOrderFrom | lib_site_available_check_2013_03_09/site_available_check.py:55-59 | from any cursor position, the `on_begin` callbacks name the positions from there to the end of the list, in order, each once |
| ProbeTrace.ClaimOrder | lib_site_available_check_2013_03_09/site_available_check.py:108 | the k-th `on_begin` of a run is about site k, for every site of the list, and there are no others |
| ProbeTrace.NoDoneFrom | lib_site_available_check_2013_03_09/site_available_check.py:45-95 | a worker never makes the completion callback |
| ProbeTrace.EventsForTraceFrom | lib_site_available_check_2013_03_09/site_available_check.py:51-95 | the callbacks about one site are exactly its own task's callbacks if the site lies ahead of the cursor, and none otherwise |
| ProbeTrace.SiteCallbacks | lib_site_available_check_2013_03_09/site_available_check.py:51-95 | per site of the list over a whole run: one `on_begin`, with an error iff the request could not be built, and then nothing else. Otherwise exactly one `on_result`, a pass iff the site answered 200 with at least 1000 bytes |
| ProbeTrace.NoCallbacksPastEnd | lib_site_available_check_2013_03_09/site_available_check.py:57-59 | no site id beyond the list gets any callback, since an exhausted cursor ends the worker |
| ProbeTrace.PassedAreSurvivors | lib_site_available_check_2013_03_09/site_available_check.py:74-95 | the contexts of the error-free `on_result` callbacks are the contexts of the sites that pass, in input order |
| ProbeTrace.SurvivorsAscending | lib_site_available_check_2013_03_09/site_available_check.py:108 | passing contexts come in strictly ascending site id, all within the list |
| HeapQueue.HeapPop | lib_site_available_check_2013_03_09/main.py:56-59 | `heappop` on an empty heap signals emptiness (Python's `IndexError`) and leaves it empty; otherwise it removes one entry of least key and keeps the others |
| HeapQueue.SortByKeyPermutation | lib_site_available_check_2013_03_09/main.py:55-62 | draining delivers every entry of the heap exactly once |
| HeapQueue.SortByKeyAscending | lib_site_available_check_2013_03_09/main.py:55-62 | with distinct keys, draining delivers the entries in strictly ascending key order |
| HeapQueue.AscendingUnique | lib_site_available_check_2013_03_09/main.py:55-62 | only one strictly ascending order holds a given collection of entries, so the drain order is determined |
| HeapQueue.PopLeast | lib_site_available_check_2013_03_09/main.py:57 | popping the least entry takes the head of the drain order, and the remaining entries drain as the rest of it |
| HeapQueue.PermutationKeepsDistinct | lib_site_available_check_2013_03_09/main.py:42 | pushing the same entries in another order still gives distinct keys |
| HeapQueue.DrainOrderFree | lib_site_available_check_2013_03_09/main.py:55-62 | two heaps holding the same entries with distinct keys drain in the same order, whatever order the entries were pushed in |
| HeapQueue.AscendingDrainsInOrder | lib_site_available_check_2013_03_09/main.py:55-62 | entries pushed in ascending key order are drained in the order they were pushed |
| ResultCollector.LinesAt | lib_site_available_check_2013_03_09/main.py:61 | one line `site_url + "\n"` per drained entry, the k-th line for the k-th entry |
| ResultCollector.Collector.constructor | lib_site_available_check_2013_03_09/main.py:89-92 | the collector starts with an empty heap, an empty output and the done event clear |
| ResultCollector.Collector.OnBegin | lib_site_available_check_2013_03_09/main.py:26-32 | `on_begin` changes neither the heap, nor the output, nor the done event |
| ResultCollector.Collector.OnResult | lib_site_available_check_2013_03_09/main.py:34-44 | a failure leaves the heap unchanged; a pass pushes exactly one `(site_id, data)` entry and changes nothing else; the entry count stays in step with the passes |
| ResultCollector.Collector.OnDone | lib_site_available_check_2013_03_09/main.py:46-66 | with an error, nothing is written and the heap is kept. Without one, the heap is emptied and one line per entry is appended in drain order. The done event is set on both paths, and every pass ends up as exactly one line |
| ResultCollector.Collector.Drain | lib_site_available_check_2013_03_09/main.py:55-62 | the pop-and-write loop empties the heap and appends the lines of all its entries in drain order |
| ResultCollector.DrainStep | lib_site_available_check_2013_03_09/main.py:57-61 | writing the popped entry's line and then draining the rest writes exactly the lines of the whole drain order |
| ResultCollector.DrainOrder | lib_site_available_check_2013_03_09/main.py:55-62 | with unique site ids, the drained lines are one per heap entry, in strictly ascending site id, and hold every entry once |
| Batch.Dispatch | lib_site_available_check_2013_03_09/main.py:93-98 | every callback of the pool reaches the matching collector operation with that operation's effect |
| Batch.PassedBefore | lib_site_available_check_2013_03_09/main.py:42 | when a pass is pushed, every site already in the heap has a smaller id, so no id is pushed twice |
| Batch.EntriesAscending | lib_site_available_check_2013_03_09/main.py:42 | the entries pushed during a run are keyed by their site ids, distinct and ascending |
| Batch.SurvivorLines | lib_site_available_check_2013_03_09/main.py:55-62 | draining the passing contexts writes exactly `fix_url(raw) + "\n"` for each passing site, in input order |
| Batch.AnyArrivalOrder | lib_site_available_check_2013_03_09/main.py:42-62 | whatever order the passes of a run are pushed onto the heap in, draining it writes `fix_url(raw) + "\n"` for each passing site, in input order |
| Batch.RunFacts | lib_site_available_check_2013_03_09/site_available_check.py:45-95 | a run's worker callbacks contain no completion callback, and their passes are the passing sites' contexts in ascending site id |
| Batch.Deliver | lib_site_available_check_2013_03_09/main.py:95-96 | routing every worker callback to the collector leaves the output empty and the done event clear, with every pass in the heap |
| Batch.CheckSites | lib_site_available_check_2013_03_09/main.py:86-99 | a whole run, with results delivered in claim order, sets the done event. The output holds the normalised URL of every passing site, each once, in input order. With `conc <= 0` it holds nothing |

## Left out

- Threads, locks and joins. This covers the `RLock`s, `threading.Thread`, `join` and the supervising `in_thread` of `bulk_site_available_check`. Workers run one after another over the shared cursor, so the first drains it and the rest find it exhausted. Interleavings, the concurrency cap and "completion fires after every worker has exited" are properties of thread scheduling, not of this sequential model.
- The HTTP library (`request.Request`, `build_opener`, `opener.open`, `resp.getcode`, `resp.read`). It is replaced by the two oracles described above. The 20-second timeout is stored in the context but not enforced; a timeout is one of the oracle's raised tags.
- `resp_data` is not kept in the context. Only the number of bytes `resp.read` returned matters to the verdict.
- Console output (`print` in every callback) and exception detail (`sys.exc_info()`). An error is an opaque tag.
- `main()`'s argument parsing, opening the output file, `read_list` and `done_event.wait()`. `read_list` is not part of this model. The output file is the `outLines` sequence, and flushing is not modelled. `Batch.CheckSites` models only the wiring of the callbacks.
- Callbacks passed as `None`. The program always passes all three. Exceptions raised inside a callback are not modelled either.
- `fix_url`'s `isinstance(raw_url, str)` assertion. Inputs are typed as strings, so it cannot fail.
- An exception from `next(site_iter)` other than `StopIteration`. `enumerate` over a list raises none.
- The binary-tree layout of `heapq`. The heap is a list in push order, and `HeapPop` scans it for an entry of least key. Only the order in which pops deliver entries is modelled, and it is the same.
- ResultCollector.Collector.OnResult: requires that the passing site is not in the heap yet. Two entries with one site id would make `heapq` compare two `SiteAvCheckData` objects, which Python refuses with a `TypeError`. The pool never produces a duplicate id (`Batch.PassedBefore`).
- ResultCollector.Collector.OnDone: the error path is modelled, but `bulk_site_available_check` only ever reports completion without an error.

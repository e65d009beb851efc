/** `fetch_data_generator`: the per-entity pager over the upstream content
    API. The HTTP client is the function `api` of a `Feed`; one call of it is
    one `fetch_data` call, and a reply is either a decoded JSON body or the
    failure `fetch_data` raises. */
module Pager {
  import opened Wrappers
  import opened Json
  import opened Text
  import opened Watermarks

  /** Endpoints whose payload sits under a camelCase key rather than under
      their last path segment. */
  const Aliases: map<string, string> := map[
    "facilitygroups" := "facilityGroups",
    "imagetypes" := "imageTypes",
    "facilitytypologies" := "facilityTypologies",
    "groupcategories" := "groupCategories",
    "boardgroups" := "boardGroups",
    "ratecomments" := "rateComments"
  ]

  /** The key of the response object that holds an endpoint's records: the
      last path segment, in the API's camel case where it has one. */
  function ResponseKey(endpoint: string): (key: string)
    ensures LastSegment(endpoint) in Aliases ==> key == Aliases[LastSegment(endpoint)]
    ensures LastSegment(endpoint) !in Aliases ==> key == LastSegment(endpoint)
    ensures Lower(key) == Lower(LastSegment(endpoint))
  {
    var segment := LastSegment(endpoint);
    if segment in Aliases then
      AliasesRecase(segment);
      LowerIdempotent(Aliases[segment]);
      Aliases[segment]
    else segment
  }

  /** The 1-based inclusive item window `(from, to)` requested for a page:
      `batchSize` items wide, the first one starting at item 1. */
  function Window(page: nat, batchSize: nat): (w: (int, int))
    ensures w.1 - w.0 + 1 == batchSize
    ensures page >= 1 ==> w.0 >= 1
    ensures page == 1 ==> w.0 == 1
  {
    ((page - 1) * batchSize + 1, page * batchSize)
  }

  /** The query of one page request (`fields`, `language`, `from`, `to`,
      `lastUpdateTime`) and the endpoint it goes to. */
  datatype Request = Request(
    endpoint: string,
    fields: string,
    language: string,
    from: int,
    to: int,
    lastUpdateTime: Option<Day>)

  /** What `fetch_data` gives back: the decoded body, or the exception it
      raises (a transport failure, a non-2xx status, a body that is not JSON). */
  datatype Reply = FetchFailed | Body(json: Value)

  /** The exceptions that end a pager run. */
  datatype Error =
    | UpstreamError(endpoint: string)
      // raised by fetch_data
    | UnexpectedStructure(endpoint: string)
      // the reply is falsy, not an object, or lacks the response key
    | UnloadableRecords(endpoint: string)
      // a non-empty payload that is not a list of objects, which
      // insert_data_chunk cannot turn into rows
    | BadCounters(endpoint: string)
      // `to` or `total` is missing or not a number

  /** What happens after a batch has been yielded: fetch the next page, stop,
      or raise while evaluating the stop condition. */
  datatype After = More | Last | Fault(error: Error)

  /** One turn of the generator loop: it stops (normally or by raising)
      without yielding, or it yields a batch. */
  datatype Step = Stop(failure: Option<Error>) | Yield(batch: seq<Record>, after: After)

  function FailureAfter(a: After): Option<Error> {
    if a.Fault? then Some(a.error) else None
  }

  /** A reply the generator reads records from: a truthy object that holds
      the response key. Any other body raises "Unexpected response structure". */
  predicate WellShaped(reply: Reply, key: string) {
    reply.Body? && Truthy(reply.json) && reply.json.Obj? && Lookup(reply.json.members, key).Some?
  }

  /** The value under the response key of a well-shaped reply. */
  function Payload(reply: Reply, key: string): Value
    requires WellShaped(reply, key)
  {
    Lookup(reply.json.members, key).value
  }

  /** The stop condition `response_data['to'] >= response_data['total']`
      of a full page: stop or go on when both are numbers, raise otherwise. */
  function CounterVerdict(members: seq<(string, Value)>, endpoint: string): (after: After)
    ensures after.More? <==> exists to, total | NumberOf(Lookup(members, "to")) == Some(to) && NumberOf(Lookup(members, "total")) == Some(total) :: to < total
    ensures after.Last? <==> exists to, total | NumberOf(Lookup(members, "to")) == Some(to) && NumberOf(Lookup(members, "total")) == Some(total) :: to >= total
    ensures after.Fault? <==> NumberOf(Lookup(members, "to")).None? || NumberOf(Lookup(members, "total")).None?
    ensures after.Fault? ==> after.error == BadCounters(endpoint)
  {
    match (NumberOf(Lookup(members, "to")), NumberOf(Lookup(members, "total")))
    case (Some(to), Some(total)) => if to >= total then Last else More
    case _ => Fault(BadCounters(endpoint))
  }

  /** One pass of the `while True` body on one reply: a failed fetch or a
      malformed reply raises; an empty payload stops quietly; a payload of
      records is yielded, after which a short page stops without reading the
      counters and a full page asks for more exactly when `to < total`. */
  function PageStep(reply: Reply, endpoint: string, key: string, batchSize: nat): (s: Step)
    ensures s.Yield? ==> |s.batch| > 0
    ensures reply.FetchFailed? ==> s == Stop(Some(UpstreamError(endpoint)))
    ensures reply.Body? && !WellShaped(reply, key) ==> s == Stop(Some(UnexpectedStructure(endpoint)))
    ensures WellShaped(reply, key) && !Truthy(Payload(reply, key)) ==> s == Stop(None)
    ensures WellShaped(reply, key) && Truthy(Payload(reply, key)) && !IsRecordList(Payload(reply, key))
            ==> s == Stop(Some(UnloadableRecords(endpoint)))
    ensures WellShaped(reply, key) && Truthy(Payload(reply, key)) && IsRecordList(Payload(reply, key))
            ==> s.Yield? && s.batch == Records(Payload(reply, key))
    ensures s.Yield? && |s.batch| < batchSize ==> s.after == Last
    ensures s.Yield? && |s.batch| >= batchSize ==>
              WellShaped(reply, key) && s.after == CounterVerdict(reply.json.members, endpoint)
  {
    match reply
    case FetchFailed => Stop(Some(UpstreamError(endpoint)))
    case Body(v) =>
      if !WellShaped(reply, key) then
        Stop(Some(UnexpectedStructure(endpoint)))
      else
        var data := Payload(reply, key);
        if !Truthy(data) then Stop(None)
        else if !IsRecordList(data) then Stop(Some(UnloadableRecords(endpoint)))
        else
          var batch := Records(data);
          if |batch| < batchSize then Yield(batch, Last)
          else Yield(batch, CounterVerdict(v.members, endpoint))
  }

  /** The arguments of one `fetch_data_generator` call, with the upstream. */
  datatype Feed = Feed(
    api: Request -> Reply,
    endpoint: string,
    language: string,
    batchSize: nat,
    since: Option<Day>)

  /** The request the generator sends for a page: every field, in the
      feed's language, changed since the feed's watermark, for the page's
      window. */
  function RequestAt(f: Feed, page: nat): (r: Request)
    ensures r.endpoint == f.endpoint && r.fields == "all" && r.language == f.language
    ensures r.lastUpdateTime == f.since
    ensures (r.from, r.to) == Window(page, f.batchSize)
  {
    var w := Window(page, f.batchSize);
    Request(f.endpoint, "all", f.language, w.0, w.1, f.since)
  }

  /** The generator's loop body on the reply to a page, `key` being the
      endpoint's response key. */
  function StepAt(f: Feed, key: string, page: nat): Step {
    PageStep(ReplyAt(f, page), f.endpoint, key, f.batchSize)
  }

  /** The generator's loop body, page by page. */
  function PageSteps(f: Feed): nat -> Step {
    (page: nat) => StepAt(f, ResponseKey(f.endpoint), page)
  }

  /** A step after which the generator asks for no further page. */
  predicate Ends(s: Step) {
    !(s.Yield? && s.after.More?)
  }

  /** Page `n` ends the run: it stops or yields a last batch. */
  ghost predicate Halts(steps: nat -> Step, n: nat) {
    n >= 1 && Ends(steps(n))
  }

  /** Some page ends the run. */
  ghost predicate Terminates(steps: nat -> Step) {
    exists n: nat :: Halts(steps, n)
  }

  /** Some page ends the run on this feed, so the generator terminates. */
  ghost predicate Finite(f: Feed) {
    Terminates(PageSteps(f))
  }

  /** Everything one generator run produces: the batches it yields, in order,
      and the exception that ended it, if any. */
  datatype Run = Run(batches: seq<seq<Record>>, failure: Option<Error>)

  /** The run from page `page` on, given a page `n` that ends it. */
  ghost function TraceFrom(steps: nat -> Step, page: nat, n: nat): Run
    requires 1 <= page <= n && Halts(steps, n)
    decreases n - page
  {
    match steps(page)
    case Stop(failure) => Run([], failure)
    case Yield(batch, More) =>
      var rest := TraceFrom(steps, page + 1, n);
      Run([batch] + rest.batches, rest.failure)
    case Yield(batch, after) => Run([batch], FailureAfter(after))
  }

  /** The whole run, from page 1. */
  ghost function TraceOf(steps: nat -> Step): Run
    requires Terminates(steps)
  {
    var n: nat :| Halts(steps, n);
    TraceFrom(steps, 1, n)
  }

  /** The whole run of the generator on a feed. */
  ghost function Trace(f: Feed): Run
    requires Finite(f)
  {
    TraceOf(PageSteps(f))
  }

  /** Which page ends the run does not matter: the run is the same. */
  lemma {:induction false} TraceFromAnyBound(steps: nat -> Step, page: nat, n: nat, m: nat)
    requires 1 <= page <= n && Halts(steps, n)
    requires page <= m && Halts(steps, m)
    ensures TraceFrom(steps, page, n) == TraceFrom(steps, page, m)
    decreases n - page
  {
    if !Ends(steps(page)) {
      TraceFromAnyBound(steps, page + 1, n, m);
    }
  }

  lemma TraceOfIsTraceFrom(steps: nat -> Step, n: nat)
    requires Halts(steps, n)
    ensures Terminates(steps) && TraceOf(steps) == TraceFrom(steps, 1, n)
  {
    var m: nat :| Halts(steps, m) && TraceOf(steps) == TraceFrom(steps, 1, m);
    TraceFromAnyBound(steps, 1, n, m);
  }

  /** A run read off the pages one by one, beginning at page `page`: batch
      `i` is the batch yielded on page `page + i`, every page before the last
      batch's asks for more, and the run ends as the last batch's page (or
      the page after the batches) says. */
  ghost predicate ExplainsFrom(steps: nat -> Step, page: nat, r: Run) {
    var k := |r.batches|;
    && (forall p: nat | page <= p < page + k :: steps(p).Yield? && steps(p).batch == r.batches[p - page])
    && (forall p: nat | page <= p < page + k - 1 :: steps(p).Yield? && steps(p).after.More?)
    && if k > 0 && steps(page + k - 1).Yield? && !steps(page + k - 1).after.More? then
         r.failure == FailureAfter(steps(page + k - 1).after)
       else
         steps(page + k).Stop? && r.failure == steps(page + k).failure
  }

  lemma {:induction false} TraceFromExplained(steps: nat -> Step, page: nat, n: nat)
    requires 1 <= page <= n && Halts(steps, n)
    ensures ExplainsFrom(steps, page, TraceFrom(steps, page, n))
    decreases n - page
  {
    var s := steps(page);
    if !Ends(s) {
      var rest := TraceFrom(steps, page + 1, n);
      TraceFromExplained(steps, page + 1, n);
      ExplainsCons(steps, page, rest);
    }
  }

  /** A page that yields and asks for more, followed by a run read off the
      next pages, explains the run that begins with its batch. */
  lemma ExplainsCons(steps: nat -> Step, page: nat, rest: Run)
    requires steps(page).Yield? && steps(page).after.More?
    requires ExplainsFrom(steps, page + 1, rest)
    ensures ExplainsFrom(steps, page, Run([steps(page).batch] + rest.batches, rest.failure))
  {
    var r := Run([steps(page).batch] + rest.batches, rest.failure);
    var k := |r.batches|;
    forall p: nat | page <= p < page + k
      ensures steps(p).Yield? && steps(p).batch == r.batches[p - page]
    {
      if p > page {
        assert r.batches[p - page] == rest.batches[p - (page + 1)];
      }
    }
  }

  lemma {:induction false} ExplainedIsTraceFrom(steps: nat -> Step, page: nat, n: nat, r: Run)
    requires 1 <= page <= n && Halts(steps, n)
    requires ExplainsFrom(steps, page, r)
    ensures r == TraceFrom(steps, page, n)
    decreases n - page
  {
    var s := steps(page);
    var k := |r.batches|;
    if s.Stop? {
      assert k == 0;
    } else if !s.after.More? {
      assert k == 1;
      assert r.batches == [s.batch];
    } else {
      var rest := ExplainsTail(steps, page, r);
      ExplainedIsTraceFrom(steps, page + 1, n, rest);
    }
  }

  /** The converse of `ExplainsCons`: past a page that yields and asks for
      more, the rest of the run is read off the next pages. */
  lemma ExplainsTail(steps: nat -> Step, page: nat, r: Run) returns (rest: Run)
    requires steps(page).Yield? && steps(page).after.More?
    requires ExplainsFrom(steps, page, r)
    ensures r == Run([steps(page).batch] + rest.batches, rest.failure)
    ensures ExplainsFrom(steps, page + 1, rest)
  {
    var k := |r.batches|;
    assert k > 0;
    rest := Run(r.batches[1..], r.failure);
    forall p: nat | page + 1 <= p < page + 1 + (k - 1)
      ensures steps(p).Yield? && steps(p).batch == rest.batches[p - (page + 1)]
    {
      assert rest.batches[p - (page + 1)] == r.batches[p - page];
    }
    assert r.batches == [steps(page).batch] + rest.batches;
  }

  /** The generator's run is exactly the run read off its pages one by one:
      this run fits them, and no other does. */
  lemma TraceCharacterised(steps: nat -> Step, r: Run)
    requires Terminates(steps)
    ensures ExplainsFrom(steps, 1, r) <==> r == TraceOf(steps)
  {
    var n: nat :| Halts(steps, n);
    TraceOfIsTraceFrom(steps, n);
    TraceFromExplained(steps, 1, n);
    if ExplainsFrom(steps, 1, r) {
      ExplainedIsTraceFrom(steps, 1, n, r);
    }
  }

  /** The first page that ends the run decides it: with pages `1 .. p-1`
      yielding and asking for more and page `p` ending the run, the generator
      yields exactly the batches of pages `1 .. p-1`, then page `p`'s batch if
      it has one, and raises what page `p` raises. An empty page therefore
      stops without a batch, a short page or `to >= total` stops right after
      its batch, and a malformed reply raises with nothing further yielded. */
  lemma RunEndsAtFirstEndingPage(steps: nat -> Step, p: nat)
    requires p >= 1
    requires forall q: nat | 1 <= q < p :: !Ends(steps(q))
    requires Ends(steps(p))
    ensures Terminates(steps)
    ensures var r := TraceOf(steps);
      && |r.batches| == (if steps(p).Yield? then p else p - 1)
      && (forall q: nat | 1 <= q <= |r.batches| :: steps(q).Yield? && r.batches[q - 1] == steps(q).batch)
      && r.failure == (match steps(p)
                       case Stop(e) => e
                       case Yield(_, after) => FailureAfter(after))
  {
    assert Halts(steps, p);
    TraceOfIsTraceFrom(steps, p);
    var k := if steps(p).Yield? then p else p - 1;
    var r := Run(seq(k, i requires 0 <= i < k => steps(i + 1).batch),
                 match steps(p) case Stop(e) => e case Yield(_, after) => FailureAfter(after));
    assert ExplainsFrom(steps, 1, r);
    TraceCharacterised(steps, r);
  }

  /** Steps as `PageStep` produces them: a yielded batch is never empty, and
      one after which the generator asks for more holds a full page. */
  ghost predicate Paged(steps: nat -> Step, batchSize: nat) {
    forall p: nat :: steps(p).Yield? ==>
      |steps(p).batch| > 0 && (steps(p).after.More? ==> |steps(p).batch| >= batchSize)
  }

  lemma PageStepsPaged(f: Feed)
    ensures Paged(PageSteps(f), f.batchSize)
  {
    forall p: nat ensures PageSteps(f)(p) == StepAt(f, ResponseKey(f.endpoint), p) {
    }
  }

  /** Every yielded batch holds at least one record, and every batch but the
      last holds at least a page's worth. */
  lemma {:induction false} BatchesNonEmpty(steps: nat -> Step, batchSize: nat)
    requires Terminates(steps) && Paged(steps, batchSize)
    ensures forall i | 0 <= i < |TraceOf(steps).batches| :: |TraceOf(steps).batches[i]| > 0
    ensures forall i | 0 <= i < |TraceOf(steps).batches| - 1 :: |TraceOf(steps).batches[i]| >= batchSize
  {
    var r := TraceOf(steps);
    TraceCharacterised(steps, r);
    forall i | 0 <= i < |r.batches|
      ensures |r.batches[i]| > 0
      ensures i < |r.batches| - 1 ==> |r.batches[i]| >= batchSize
    {
      assert steps(1 + i).Yield?;
    }
  }

  /** One turn of the generator loop, as the loop's invariant sees it: the
      run so far plus the run from `page` on is the whole run. */
  lemma {:induction false} TurnKeepsRun(steps: nat -> Step, page: nat, n: nat, done: seq<seq<Record>>)
    requires 1 <= page <= n && Halts(steps, n)
    requires TraceFrom(steps, 1, n) == Run(done + TraceFrom(steps, page, n).batches, TraceFrom(steps, page, n).failure)
    ensures steps(page).Stop? ==> TraceFrom(steps, 1, n) == Run(done, steps(page).failure)
    ensures steps(page).Yield? && !steps(page).after.More? ==>
      TraceFrom(steps, 1, n) == Run(done + [steps(page).batch], FailureAfter(steps(page).after))
    ensures steps(page).Yield? && steps(page).after.More? ==>
      && page < n
      && TraceFrom(steps, 1, n) == Run((done + [steps(page).batch]) + TraceFrom(steps, page + 1, n).batches,
                                       TraceFrom(steps, page + 1, n).failure)
  {
    var s := steps(page);
    if s.Stop? {
      assert done + [] == done;
    } else if s.after.More? {
      var next := TraceFrom(steps, page + 1, n);
      assert done + ([s.batch] + next.batches) == (done + [s.batch]) + next.batches;
    }
  }

  /** The page steps of a feed, seen from inside the generator loop: page
      by page the loop body computes them (instantiated only at the page the
      loop is on), and their run is the feed's run. */
  lemma StepsOfFeed(f: Feed, key: string) returns (steps: nat -> Step)
    requires Finite(f) && key == ResponseKey(f.endpoint)
    ensures Terminates(steps) && TraceOf(steps) == Trace(f)
    ensures forall p: nat {:trigger StepAt(f, key, p)} :: steps(p) == StepAt(f, key, p)
  {
    steps := PageSteps(f);
  }

  /** The `while True` loop of the generator: one page request per turn,
      the page counter incremented after each yielded batch, the loop left
      on an empty page, a last batch or an exception. `steps` is the run's
      page-by-page specification. */
  method Generate(f: Feed, key: string, ghost steps: nat -> Step) returns (batches: seq<seq<Record>>, failure: Option<Error>)
    requires Terminates(steps)
    requires forall p: nat {:trigger StepAt(f, key, p)} :: steps(p) == StepAt(f, key, p)
    ensures batches == TraceOf(steps).batches && failure == TraceOf(steps).failure
  {
    ghost var n: nat :| Halts(steps, n);
    TraceOfIsTraceFrom(steps, n);
    var page: nat := 1;
    batches, failure := [], None;
    assert TraceFrom(steps, page, n).batches == [] + TraceFrom(steps, page, n).batches;
    while true
      invariant 1 <= page <= n
      invariant TraceFrom(steps, 1, n).batches == batches + TraceFrom(steps, page, n).batches
      invariant TraceFrom(steps, 1, n).failure == TraceFrom(steps, page, n).failure
      decreases n - page
    {
      var (from, to) := Window(page, f.batchSize);
      var reply := f.api(Request(f.endpoint, "all", f.language, from, to, f.since));
      var step := PageStep(reply, f.endpoint, key, f.batchSize);
      assert step == StepAt(f, key, page);
      TurnKeepsRun(steps, page, n, batches);
      match step {
        case Stop(e) =>
          failure := e;
          return;
        case Yield(batch, after) =>
          batches := batches + [batch];
          page := page + 1;
          if !after.More? {
            failure := FailureAfter(after);
            return;
          }
      }
    }
  }

  /** `fetch_data_generator(endpoint, language, batch_size, last_update_time)`
      run to the end and collected: the batches it yields, in order, and the
      exception that ends it, if any. */
  method FetchAll(f: Feed) returns (batches: seq<seq<Record>>, failure: Option<Error>)
    requires Finite(f)
    ensures batches == Trace(f).batches && failure == Trace(f).failure
  {
    var key := ResponseKey(f.endpoint);
    ghost var steps := StepsOfFeed(f, key);
    batches, failure := Generate(f, key, steps);
  }

  /** On a feed, every batch the generator yields holds at least one
      record, and every batch but the last holds a full page. */
  lemma FeedBatchesNonEmpty(f: Feed)
    requires Finite(f)
    ensures forall i | 0 <= i < |Trace(f).batches| :: |Trace(f).batches[i]| > 0
    ensures forall i | 0 <= i < |Trace(f).batches| - 1 :: |Trace(f).batches[i]| >= f.batchSize
  {
    PageStepsPaged(f);
    BatchesNonEmpty(PageSteps(f), f.batchSize);
  }

  /** The reply a feed gets for a page. */
  function ReplyAt(f: Feed, page: nat): Reply {
    f.api(RequestAt(f, page))
  }

  /** The first page that ends a feed's run decides it, stated on its
      replies: pages `1 .. p-1` yield and ask for more, page `p` ends. */
  lemma FeedEndsAt(f: Feed, p: nat) returns (steps: nat -> Step)
    requires p >= 1
    requires forall q: nat | 1 <= q < p :: !Ends(StepAt(f, ResponseKey(f.endpoint), q))
    requires Ends(StepAt(f, ResponseKey(f.endpoint), p))
    ensures Finite(f) && steps == PageSteps(f)
    ensures forall q: nat {:trigger StepAt(f, ResponseKey(f.endpoint), q)} :: steps(q) == StepAt(f, ResponseKey(f.endpoint), q)
    ensures var r := Trace(f);
      && |r.batches| == (if steps(p).Yield? then p else p - 1)
      && (forall q: nat | 1 <= q <= |r.batches| :: steps(q).Yield? && r.batches[q - 1] == steps(q).batch)
      && r.failure == (match steps(p)
                       case Stop(e) => e
                       case Yield(_, after) => FailureAfter(after))
  {
    var key := ResponseKey(f.endpoint);
    steps := PageSteps(f);
    forall q: nat ensures steps(q) == StepAt(f, key, q) {
    }
    assert forall q: nat | 1 <= q < p :: !Ends(steps(q));
    assert Halts(steps, p);
    RunEndsAtFirstEndingPage(steps, p);
  }

  /** A first reply with an empty payload: nothing is yielded and the
      generator returns without an exception. */
  lemma EmptyFirstPage(f: Feed, key: string)
    requires key == ResponseKey(f.endpoint)
    requires WellShaped(ReplyAt(f, 1), key) && !Truthy(Payload(ReplyAt(f, 1), key))
    ensures Finite(f) && Trace(f) == Run([], None)
  {
    assert StepAt(f, key, 1) == Stop(None);
    var steps := FeedEndsAt(f, 1);
  }

  /** A first reply with fewer records than a page: its records are the
      one batch, and the generator returns without reading `to`/`total`. */
  lemma ShortFirstPage(f: Feed, key: string)
    requires key == ResponseKey(f.endpoint) && WellShaped(ReplyAt(f, 1), key)
    requires var data := Payload(ReplyAt(f, 1), key);
      Truthy(data) && IsRecordList(data) && |Records(data)| < f.batchSize
    ensures Finite(f) && Trace(f) == Run([Records(Payload(ReplyAt(f, 1), key))], None)
  {
    var reply := ReplyAt(f, 1);
    var batch := Records(Payload(reply, key));
    var s := PageStep(reply, f.endpoint, key, f.batchSize);
    assert s.Yield? && s.batch == batch && s.after == Last;
    assert StepAt(f, key, 1) == s;
    var steps := FeedEndsAt(f, 1);
    assert |Trace(f).batches| == 1 && Trace(f).batches[0] == batch;
  }

  /** A full first page with `to < total`, then a second reply with an empty
      payload: the first page's records are the one batch, the second page
      is requested, and the generator returns without an exception. */
  lemma FullThenEmptyPage(f: Feed, key: string)
    requires key == ResponseKey(f.endpoint) && WellShaped(ReplyAt(f, 1), key)
    requires var data := Payload(ReplyAt(f, 1), key);
      Truthy(data) && IsRecordList(data) && |Records(data)| >= f.batchSize
    requires CounterVerdict(ReplyAt(f, 1).json.members, f.endpoint).More?
    requires WellShaped(ReplyAt(f, 2), key) && !Truthy(Payload(ReplyAt(f, 2), key))
    ensures Finite(f) && Trace(f) == Run([Records(Payload(ReplyAt(f, 1), key))], None)
  {
    var batch := Records(Payload(ReplyAt(f, 1), key));
    assert StepAt(f, key, 1) == Yield(batch, More);
    assert StepAt(f, key, 2) == Stop(None);
    var steps := FeedEndsAt(f, 2);
    assert |Trace(f).batches| == 1 && Trace(f).batches[0] == batch;
  }

  /** Page `n`'s window ends where page `n + 1`'s begins, and each window
      holds `batchSize` items; with a positive batch size every item
      `i >= 1` lies in exactly one window, that of page
      `(i - 1) / batchSize + 1`. */
  lemma {:induction false} ItemOnOnePage(item: int, batchSize: nat, page: nat)
    requires page >= 1
    ensures Window(page + 1, batchSize).0 == Window(page, batchSize).1 + 1
    ensures Window(page, batchSize).1 - Window(page, batchSize).0 + 1 == batchSize
    ensures item >= 1 && batchSize >= 1 ==>
      (Window(page, batchSize).0 <= item <= Window(page, batchSize).1 <==> page == (item - 1) / batchSize + 1)
  {
    assert Window(page, batchSize) == ((page - 1) * batchSize + 1, page * batchSize);
    assert Window(page + 1, batchSize).0 == page * batchSize + 1;
    if item >= 1 && batchSize >= 1 {
      var q := (item - 1) / batchSize;
      var r := (item - 1) % batchSize;
      assert item - 1 == q * batchSize + r && 0 <= r < batchSize;
      if page <= q {
        MulMonotone(page, q, batchSize);
      } else if page >= q + 2 {
        MulMonotone(q + 1, page - 1, batchSize);
      }
    }
  }

  lemma MulMonotone(a: int, b: int, c: nat)
    requires a <= b
    ensures a * c <= b * c
  {
    assert b * c - a * c == (b - a) * c;
  }

  /** `split('/')[-1]` of `dir/name`, for a `name` without a slash, is `name`. */
  lemma {:induction false} LastSegmentOfPath(dir: string, name: string)
    requires '/' !in name
    ensures LastSegment(dir + "/" + name) == name
    decreases |name|
  {
    var path := dir + "/" + name;
    if name == [] {
      assert path[|path| - 1] == '/';
    } else {
      var init := name[..|name| - 1];
      assert '/' !in init by {
        forall i | 0 <= i < |init| ensures init[i] != '/' {
          assert init[i] == name[i];
        }
      }
      LastSegmentOfPath(dir, init);
      assert path[..|path| - 1] == dir + "/" + init;
      assert path[|path| - 1] == name[|name| - 1];
      assert init + [name[|name| - 1]] == name;
    }
  }

  /** The alias table is only ever consulted for a different spelling: the
      key equals the last path segment exactly when the segment has no
      alias. */
  lemma ResponseKeyIsSegment(endpoint: string)
    ensures ResponseKey(endpoint) == LastSegment(endpoint) <==> LastSegment(endpoint) !in Aliases
  {
    var segment := LastSegment(endpoint);
    if segment in Aliases {
      AliasesRecase(segment);
    }
  }

  /** An alias differs from its segment only in the case of its letters. */
  lemma AliasesRecase(segment: string)
    requires segment in Aliases
    ensures Aliases[segment] != segment && Lower(Aliases[segment]) == segment
  {
    var alias := Aliases[segment];
    assert |alias| == |segment|;
    RecaseAt(segment, alias);
  }

  lemma RecaseAt(segment: string, alias: string)
    requires segment in Aliases && alias == Aliases[segment]
    ensures alias != segment && Lower(alias) == segment
  {
    if segment == "facilitygroups" {
      Recased(alias, segment, 8);
    } else if segment == "imagetypes" {
      Recased(alias, segment, 5);
    } else if segment == "facilitytypologies" {
      Recased(alias, segment, 8);
    } else {
      RecaseRest(segment, alias);
    }
  }

  /** `RecaseAt` for the last three aliases. */
  lemma RecaseRest(segment: string, alias: string)
    requires segment in Aliases && alias == Aliases[segment]
    requires segment != "facilitygroups" && segment != "imagetypes" && segment != "facilitytypologies"
    ensures alias != segment && Lower(alias) == segment
  {
    if segment == "groupcategories" {
      Recased(alias, segment, 5);
    } else if segment == "boardgroups" {
      Recased(alias, segment, 5);
    } else {
      assert segment == "ratecomments";
      Recased(alias, segment, 4);
    }
  }

  /** `alias` lower-cases to `segment` and differs from it at `k`. */
  lemma Recased(alias: string, segment: string, k: nat)
    requires |alias| == |segment| && k < |alias| && alias[k] != segment[k]
    requires forall i | 0 <= i < |alias| :: LowerChar(alias[i]) == segment[i]
    ensures alias != segment && Lower(alias) == segment
  {
  }

  /** An aliased endpoint: its key is the alias. */
  lemma AliasedKeyExample()
    ensures ResponseKey("types/boardgroups") == "boardGroups"
  {
    var endpoint := "types/boardgroups";
    assert endpoint == "types" + "/" + "boardgroups";
    LastSegmentOfPath("types", "boardgroups");
    assert "boardgroups" in Aliases && Aliases["boardgroups"] == "boardGroups";
  }

  /** A plain endpoint: its key is its last segment. */
  lemma PlainKeyExample()
    ensures ResponseKey("locations/countries") == "countries"
  {
    var endpoint := "locations/countries";
    assert endpoint == "locations" + "/" + "countries";
    LastSegmentOfPath("locations", "countries");
    assert "countries" !in Aliases;
  }
}

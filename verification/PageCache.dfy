/** The debate page's read-through cache as a timed protocol: lookup, database read, later
    asynchronous fill with a time to live, asynchronous delete after an approval. Evictions, lost
    fills, lost deletes and outages of the cache may happen at any moment. */
module PageCache {
  import DebatePage

  /** What `getDebates` serves for a debate; the protocol never looks inside. */
  type View = DebatePage.Page

  /** Seconds an entry lives. */
  const TTL: int := 60

  /** `readAt` is bookkeeping the program does not store: the step that read `view`. */
  datatype Entry = Entry(view: View, readAt: nat, expires: int)

  /** A request between its lookup and the end of its fill. */
  datatype Request =
    | Missed(debate: int)
    | Fetched(debate: int, view: View, readAt: nat)
    | Filling(debate: int, view: View, readAt: nat)

  /** `pages` is the database view of every existing debate; `deletes` are the sent DELs. */
  datatype State = State(
    step: nat,
    now: int,
    pages: map<int, View>,
    cache: map<int, Entry>,
    requests: map<int, Request>,
    deletes: map<int, int>)

  datatype Event =
    | Tick(seconds: nat)                              // time passes
    | Commit(pages: map<int, View>)                   // any change of the tables
    | Approve(pages: map<int, View>, id: int, debate: int) // approveArgument: commit, then send a DEL for body.debateId
    | Hit(debate: int)                                // the lookup answers from the cache
    | Miss(id: int, debate: int)                      // nothing cached, expired, or the cache is unavailable
    | Read(id: int)                                   // the query's snapshot; an unknown debate ends in "not found"
    | Respond(id: int)                                // the answer leaves and the fill is sent
    | Store(id: int)                                  // the SET arrives
    | LoseFill(id: int)
    | Delete(id: int)                                 // the DEL arrives
    | LoseDelete(id: int)
    | Evict(debate: int)

  predicate Live(s: State, debate: int) {
    debate in s.cache && s.now < s.cache[debate].expires
  }

  predicate Enabled(s: State, e: Event) {
    match e
    case Tick(_) => true
    case Commit(_) => true
    case Approve(_, id, _) => id !in s.deletes
    case Hit(d) => Live(s, d)
    case Miss(id, _) => id !in s.requests
    case Read(id) => id in s.requests && s.requests[id].Missed?
    case Respond(id) => id in s.requests && s.requests[id].Fetched?
    case Store(id) => id in s.requests && s.requests[id].Filling?
    case LoseFill(id) => id in s.requests && s.requests[id].Filling?
    case Delete(id) => id in s.deletes
    case LoseDelete(id) => id in s.deletes
    case Evict(_) => true
  }

  function AfterRead(s: State, id: int): map<int, Request>
    requires id in s.requests && s.requests[id].Missed?
  {
    var d := s.requests[id].debate;
    if d in s.pages then s.requests[id := Fetched(d, s.pages[d], s.step)] else s.requests - {id}
  }

  function Effect(s: State, e: Event): State
    requires Enabled(s, e)
  {
    match e
    case Tick(seconds) => s.(now := s.now + seconds)
    case Commit(pages) => s.(pages := pages)
    case Approve(pages, id, d) => s.(pages := pages, deletes := s.deletes[id := d])
    case Hit(_) => s
    case Miss(id, d) => s.(requests := s.requests[id := Missed(d)])
    case Read(id) => s.(requests := AfterRead(s, id))
    case Respond(id) =>
      var r := s.requests[id];
      s.(requests := s.requests[id := Filling(r.debate, r.view, r.readAt)])
    case Store(id) =>
      var r := s.requests[id];
      s.(cache := s.cache[r.debate := Entry(r.view, r.readAt, s.now + TTL)], requests := s.requests - {id})
    case LoseFill(id) => s.(requests := s.requests - {id})
    case Delete(id) => s.(cache := s.cache - {s.deletes[id]}, deletes := s.deletes - {id})
    case LoseDelete(id) => s.(deletes := s.deletes - {id})
    case Evict(d) => s.(cache := s.cache - {d})
  }

  function Next(s: State, e: Event): State
    requires Enabled(s, e)
  {
    Effect(s, e).(step := s.step + 1)
  }

  /** The page an event sends to its requester, if it sends one. */
  datatype Answer = Page(debate: int, view: View, readAt: nat) | NoAnswer

  function AnswerOf(s: State, e: Event): Answer
    requires Enabled(s, e)
  {
    match e
    case Hit(d) => Page(d, s.cache[d].view, s.cache[d].readAt)
    case Respond(id) => Page(s.requests[id].debate, s.requests[id].view, s.requests[id].readAt)
    case _ => NoAnswer
  }

  ghost predicate Start(s: State) {
    s.step == 0 && s.cache == map[] && s.requests == map[] && s.deletes == map[]
  }

  ghost predicate Run(trace: seq<State>, events: seq<Event>) {
    && |trace| == |events| + 1
    && Start(trace[0])
    && forall i :: 0 <= i < |events| ==> Enabled(trace[i], events[i]) && trace[i + 1] == Next(trace[i], events[i])
  }

  // ---------------------------------------------------------------- where cached pages come from

  /** At moment `i` the database view of the debate was `view`. */
  ghost predicate WasView(trace: seq<State>, i: nat, debate: int, view: View) {
    i < |trace| && debate in trace[i].pages && trace[i].pages[debate] == view
  }

  lemma {:induction false} ClockAdvances(trace: seq<State>, events: seq<Event>, i: nat, j: nat)
    requires Run(trace, events) && i <= j < |trace|
    ensures trace[i].now <= trace[j].now
  {
    if i < j { ClockAdvances(trace, events, i, j - 1); }
  }

  /** Every cached page is one the database showed before it was stored; it expires 60 s after that. */
  ghost predicate CacheSourced(trace: seq<State>, n: nat)
    requires n < |trace|
  {
    forall d :: d in trace[n].cache ==>
      var e := trace[n].cache[d];
      && e.readAt < n && WasView(trace, e.readAt, d, e.view)
      && trace[e.readAt].now <= e.expires - TTL <= trace[n].now
  }

  /** A page in flight for a request is one the database showed before moment `n`. */
  ghost predicate RequestSourced(trace: seq<State>, n: nat, r: Request) {
    !r.Missed? ==> r.readAt < n && WasView(trace, r.readAt, r.debate, r.view)
  }

  ghost predicate RequestsSourced(trace: seq<State>, n: nat)
    requires n < |trace|
  {
    forall id :: id in trace[n].requests ==> RequestSourced(trace, n, trace[n].requests[id])
  }

  /** Everything held at moment `n`, in the cache or in flight, is a page the database showed before;
      an entry was stored no earlier than it was read, and expires 60 s after it was stored. */
  ghost predicate Sourced(trace: seq<State>, n: nat)
    requires n < |trace|
  {
    trace[n].step == n && CacheSourced(trace, n) && RequestsSourced(trace, n)
  }

  lemma StepCacheIsSourced(trace: seq<State>, events: seq<Event>, n: nat)
    requires Run(trace, events) && n + 1 < |trace| && CacheSourced(trace, n) && RequestsSourced(trace, n)
    ensures CacheSourced(trace, n + 1)
  {
    var e := events[n];
    if e.Store? {
      ClockAdvances(trace, events, trace[n].requests[e.id].readAt, n);
    }
  }

  lemma StepRequestsAreSourced(trace: seq<State>, events: seq<Event>, n: nat)
    requires Run(trace, events) && n + 1 < |trace| && trace[n].step == n && RequestsSourced(trace, n)
    ensures RequestsSourced(trace, n + 1)
  {
    var s, e, s' := trace[n], events[n], trace[n + 1];
    forall id | id in s'.requests ensures RequestSourced(trace, n + 1, s'.requests[id]) {
      if id in s.requests {
        assert RequestSourced(trace, n, s.requests[id]);
        RequestStep(s, e, id);
      }
    }
  }

  /** A request keeps its page, or has just read it. */
  lemma RequestStep(s: State, e: Event, id: int)
    requires Enabled(s, e) && id in s.requests && id in Next(s, e).requests
    ensures var r, r' := s.requests[id], Next(s, e).requests[id];
            !r'.Missed? ==>
              || (!r.Missed? && r'.debate == r.debate && r'.view == r.view && r'.readAt == r.readAt)
              || (r'.readAt == s.step && r'.debate in s.pages && r'.view == s.pages[r'.debate])
  {
  }

  lemma {:induction false} RunIsSourced(trace: seq<State>, events: seq<Event>, n: nat)
    requires Run(trace, events) && n < |trace|
    ensures Sourced(trace, n)
  {
    if n > 0 {
      RunIsSourced(trace, events, n - 1);
      StepCacheIsSourced(trace, events, n - 1);
      StepRequestsAreSourced(trace, events, n - 1);
    }
  }

  /** Moment `m` is the arrival of the fill that brought in a page read at `readAt`. */
  ghost predicate StoredAt(trace: seq<State>, events: seq<Event>, m: nat, debate: int, view: View, readAt: nat) {
    && m < |events| && m < |trace| && events[m].Store? && events[m].id in trace[m].requests
    && trace[m].requests[events[m].id] == Filling(debate, view, readAt)
  }

  lemma {:induction false} EntryWasStored(trace: seq<State>, events: seq<Event>, n: nat, d: int) returns (m: nat)
    requires Run(trace, events) && n < |trace| && d in trace[n].cache
    ensures m < n && StoredAt(trace, events, m, d, trace[n].cache[d].view, trace[n].cache[d].readAt)
    ensures trace[n].cache[d].expires == trace[m].now + TTL
  {
    var e := events[n - 1];
    if e.Store? && trace[n - 1].requests[e.id].debate == d {
      m := n - 1;
    } else {
      m := EntryWasStored(trace, events, n - 1, d);
    }
  }

  /** Bounded staleness: whatever the interleaving, an answer given at time t is the database view at
      some r <= t. Answered from the cache, t is within 60 s of the arrival of the fill that stored it. */
  lemma BoundedStaleness(trace: seq<State>, events: seq<Event>, n: nat) returns (stored: nat)
    requires Run(trace, events) && n < |events| && AnswerOf(trace[n], events[n]).Page?
    ensures var a := AnswerOf(trace[n], events[n]);
            a.readAt < n && WasView(trace, a.readAt, a.debate, a.view) && trace[a.readAt].now <= trace[n].now
    ensures events[n].Hit? ==>
              var a := AnswerOf(trace[n], events[n]);
              && a.readAt < stored < n && StoredAt(trace, events, stored, a.debate, a.view, a.readAt)
              && trace[n].now - trace[a.readAt].now < 60 + (trace[stored].now - trace[a.readAt].now)
              && trace[a.readAt].now <= trace[stored].now <= trace[n].now
  {
    RunIsSourced(trace, events, n);
    var a := AnswerOf(trace[n], events[n]);
    ClockAdvances(trace, events, a.readAt, n);
    stored := 0;
    if events[n].Hit? {
      stored := EntryWasStored(trace, events, n, a.debate);
      RunIsSourced(trace, events, stored);
      ClockAdvances(trace, events, a.readAt, stored);
      ClockAdvances(trace, events, stored, n);
    }
  }

  /** The event puts nothing under the debate's key and takes nothing away. */
  ghost predicate LeavesEntry(s: State, e: Event, d: int) {
    && (e.Store? && e.id in s.requests && !s.requests[e.id].Missed? ==> s.requests[e.id].debate != d)
    && (e.Delete? && e.id in s.deletes ==> s.deletes[e.id] != d)
    && e != Evict(d)
  }

  /** And the other way round: a fill that arrives serves its page for the next 60 s, to every request that
      reaches the cache, unless another fill, a delete or an eviction of that page comes first. */
  lemma {:induction false} StoredPageIsServed(trace: seq<State>, events: seq<Event>, m: nat, n: nat, id: int, page: Request)
    requires Run(trace, events) && m < n < |trace| && events[m] == Store(id)
    requires id in trace[m].requests && trace[m].requests[id] == page
    requires forall k :: m < k < n ==> LeavesEntry(trace[k], events[k], page.debate)
    ensures page.Filling? && page.debate in trace[n].cache
    ensures trace[n].cache[page.debate] == Entry(page.view, page.readAt, trace[m].now + 60)
    ensures Enabled(trace[n], Hit(page.debate)) <==> trace[n].now < trace[m].now + 60
    ensures Enabled(trace[n], Hit(page.debate)) ==>
              AnswerOf(trace[n], Hit(page.debate)) == Page(page.debate, page.view, page.readAt)
  {
    if m < n - 1 {
      StoredPageIsServed(trace, events, m, n - 1, id, page);
      assert LeavesEntry(trace[n - 1], events[n - 1], page.debate);
    }
  }

  /** "Not found" is never cached: a debate absent so far has no entry and no fill under way. */
  lemma NotFoundIsNeverCached(trace: seq<State>, events: seq<Event>, n: nat, d: int)
    requires Run(trace, events) && n < |trace|
    requires forall i :: 0 <= i < n ==> d !in trace[i].pages
    ensures d !in trace[n].cache
    ensures forall id :: id in trace[n].requests && trace[n].requests[id].debate == d ==> trace[n].requests[id].Missed?
  {
    RunIsSourced(trace, events, n);
  }

  // ---------------------------------------------------------------- an approval becomes visible

  /** No page of the debate read before moment `p` is in flight. */
  ghost predicate NothingOlderInFlight(s: State, d: int, p: nat) {
    forall id :: id in s.requests && s.requests[id].debate == d && !s.requests[id].Missed? ==> p <= s.requests[id].readAt
  }

  /** No page of the debate read before moment `p` is in flight or cached and not expired. */
  ghost predicate NothingOlderHeld(s: State, d: int, p: nat) {
    && NothingOlderInFlight(s, d, p)
    && (Live(s, d) ==> p <= s.cache[d].readAt)
  }

  lemma NothingOlderPersists(s: State, e: Event, d: int, p: nat)
    requires Enabled(s, e) && NothingOlderHeld(s, d, p) && p <= s.step
    ensures NothingOlderHeld(Next(s, e), d, p)
    ensures AnswerOf(s, e).Page? && AnswerOf(s, e).debate == d ==> p <= AnswerOf(s, e).readAt
  {
  }

  /** `future` continues a run from its first state, by any events. */
  ghost predicate Continues(future: seq<State>, events: seq<Event>) {
    && |future| == |events| + 1
    && forall i :: 0 <= i < |events| ==> Enabled(future[i], events[i]) && future[i + 1] == Next(future[i], events[i])
  }

  lemma {:induction false} NothingOlderEver(future: seq<State>, events: seq<Event>, d: int, p: nat, n: nat)
    requires Continues(future, events) && n < |future|
    requires p <= future[0].step && NothingOlderHeld(future[0], d, p)
    ensures NothingOlderHeld(future[n], d, p) && p <= future[n].step
  {
    if n > 0 {
      NothingOlderEver(future, events, d, p, n - 1);
      NothingOlderPersists(future[n - 1], events[n - 1], d, p);
    }
  }

  /** Every answer about the debate, however the run continues from `s`, was read at or after `p`. */
  ghost predicate OnlyNewerAnswers(s: State, d: int, p: nat) {
    forall future: seq<State>, events: seq<Event>, n: nat ::
      Continues(future, events) && future[0] == s && n < |events| &&
      AnswerOf(future[n], events[n]).Page? && AnswerOf(future[n], events[n]).debate == d ==>
        p <= AnswerOf(future[n], events[n]).readAt
  }

  lemma NewerAnswersFromNothingOlder(s: State, d: int, p: nat)
    requires p <= s.step && NothingOlderHeld(s, d, p)
    ensures OnlyNewerAnswers(s, d, p)
  {
    forall future: seq<State>, events: seq<Event>, n: nat |
      Continues(future, events) && future[0] == s && n < |events| &&
      AnswerOf(future[n], events[n]).Page? && AnswerOf(future[n], events[n]).debate == d
      ensures p <= AnswerOf(future[n], events[n]).readAt
    {
      NothingOlderEver(future, events, d, p, n);
      NothingOlderPersists(future[n], events[n], d, p);
    }
  }

  lemma ContinuesOneEarlier(s: State, e: Event, future: seq<State>, events: seq<Event>)
    requires Enabled(s, e) && Continues(future, events) && future[0] == Next(s, e)
    ensures Continues([s] + future, [e] + events)
  {
    forall i | 0 <= i < |[e] + events|
      ensures Enabled(([s] + future)[i], ([e] + events)[i])
      ensures ([s] + future)[i + 1] == Next(([s] + future)[i], ([e] + events)[i])
    {
      if i > 0 {
        assert ([s] + future)[i] == future[i - 1] && ([e] + events)[i] == events[i - 1];
      }
    }
  }

  /** What can be answered after one more event can be answered. */
  lemma NewerAnswersPersist(s: State, e: Event, d: int, p: nat)
    requires Enabled(s, e) && OnlyNewerAnswers(s, d, p)
    ensures OnlyNewerAnswers(Next(s, e), d, p)
  {
    forall future: seq<State>, events: seq<Event>, n: nat |
      Continues(future, events) && future[0] == Next(s, e) && n < |events| &&
      AnswerOf(future[n], events[n]).Page? && AnswerOf(future[n], events[n]).debate == d
      ensures p <= AnswerOf(future[n], events[n]).readAt
    {
      ContinuesOneEarlier(s, e, future, events);
      assert ([s] + future)[n + 1] == future[n] && ([e] + events)[n + 1] == events[n];
    }
  }

  lemma CachedPageCanBeServed(s: State, d: int, p: nat)
    requires Live(s, d) && s.cache[d].readAt < p
    ensures !OnlyNewerAnswers(s, d, p)
  {
    var future, events := [s, Next(s, Hit(d))], [Hit(d)];
    assert Continues(future, events);
    assert AnswerOf(future[0], events[0]).readAt < p;
  }

  /** A fill that read too early and is still in flight can be stored and then served. */
  lemma LateFillIsServed(s: State, d: int, p: nat, id: int)
    requires id in s.requests && s.requests[id].debate == d && !s.requests[id].Missed? && s.requests[id].readAt < p
    ensures !OnlyNewerAnswers(s, d, p)
  {
    if OnlyNewerAnswers(s, d, p) {
      var sent := s;
      if s.requests[id].Fetched? {
        NewerAnswersPersist(s, Respond(id), d, p);
        sent := Next(s, Respond(id));
      }
      NewerAnswersPersist(sent, Store(id), d, p);
      CachedPageCanBeServed(Next(sent, Store(id)), d, p);
    }
  }

  /** In any state: all answers to come are at least as new as moment `p` if and only if nothing older is
      live in the cache or on its way there. */
  lemma OnlyNewerAnswersIff(s: State, d: int, p: nat)
    requires p <= s.step
    ensures OnlyNewerAnswers(s, d, p) <==> NothingOlderHeld(s, d, p)
  {
    if NothingOlderHeld(s, d, p) {
      NewerAnswersFromNothingOlder(s, d, p);
    } else if Live(s, d) && s.cache[d].readAt < p {
      CachedPageCanBeServed(s, d, p);
    } else {
      var id :| id in s.requests && s.requests[id].debate == d && !s.requests[id].Missed? && s.requests[id].readAt < p;
      LateFillIsServed(s, d, p, id);
    }
  }

  /** Between steps `p` and `m` the delete that step `p` sent neither arrives nor gets lost. */
  ghost predicate DeleteIsUnderWay(events: seq<Event>, p: nat, m: nat) {
    && p < m <= |events| && events[p].Approve?
    && forall i :: p < i < m ==> events[i] != Delete(events[p].id) && events[i] != LoseDelete(events[p].id)
  }

  /** Then it names the debate the approval's body named. */
  lemma {:induction false} DeleteNamesTheDebate(trace: seq<State>, events: seq<Event>, p: nat, m: nat)
    requires Run(trace, events) && DeleteIsUnderWay(events, p, m)
    ensures events[p].id in trace[m].deletes && trace[m].deletes[events[p].id] == events[p].debate
  {
    if p < m - 1 { DeleteNamesTheDebate(trace, events, p, m - 1); }
  }

  /** An approval commits at step `p`, its delete arrives at step `m`. Every answer about debate `d` that can
      ever follow is at least as new as the approval if and only if, when the delete arrives, no older read of
      that page is on its way into the cache, and the approval named that debate or no older page of it is live. */
  lemma ApprovalIsVisibleIff(trace: seq<State>, events: seq<Event>, p: nat, m: nat, d: int)
    requires Run(trace, events) && m < |events| && DeleteIsUnderWay(events, p, m) && events[m] == Delete(events[p].id)
    ensures OnlyNewerAnswers(trace[m + 1], d, p + 1) <==>
            && NothingOlderInFlight(trace[m], d, p + 1)
            && (events[p].debate == d || (Live(trace[m], d) ==> p + 1 <= trace[m].cache[d].readAt))
  {
    DeleteNamesTheDebate(trace, events, p, m);
    RunIsSourced(trace, events, m + 1);
    OnlyNewerAnswersIff(trace[m + 1], d, p + 1);
  }

  /** A delete under another debate's key helps nothing: the page stays cached as it was, and what may still
      be answered is new enough exactly if it was so before. */
  lemma MisaddressedDeleteKeepsEntry(s: State, id: int, d: int, p: nat)
    requires id in s.deletes && s.deletes[id] != d && p <= s.step
    ensures OnlyNewerAnswers(Next(s, Delete(id)), d, p) <==> OnlyNewerAnswers(s, d, p)
    ensures Live(s, d) ==> Live(Next(s, Delete(id)), d) && AnswerOf(Next(s, Delete(id)), Hit(d)) == AnswerOf(s, Hit(d))
  {
    OnlyNewerAnswersIff(s, d, p);
    OnlyNewerAnswersIff(Next(s, Delete(id)), d, p);
  }

  /** A page that was read can be sent, stored and served from the cache. */
  lemma FetchedPageIsServed(s: State, d: int, view: View, readAt: nat, id: int)
    requires id in s.requests && s.requests[id] == Fetched(d, view, readAt)
    ensures Enabled(s, Respond(id))
    ensures var s1 := Next(s, Respond(id));
            Enabled(s1, Store(id)) &&
            var s2 := Next(s1, Store(id));
            Enabled(s2, Hit(d)) && AnswerOf(s2, Hit(d)) == Page(d, view, readAt)
  {
    assert Next(s, Respond(id)).requests[id] == Filling(d, view, readAt);
  }

  /** A read that an approval and its delete overtake. */
  lemma ReadIsOvertaken(start: State, d: int, approved: map<int, View>, request: int, delete: int)
    requires Start(start) && d in start.pages
    ensures Enabled(start, Miss(request, d))
    ensures var s1 := Next(start, Miss(request, d));
            Enabled(s1, Read(request)) &&
            var s2 := Next(s1, Read(request));
            Enabled(s2, Approve(approved, delete, d)) &&
            var s3 := Next(s2, Approve(approved, delete, d));
            Enabled(s3, Delete(delete)) &&
            var s4 := Next(s3, Delete(delete));
            request in s4.requests && s4.requests[request] == Fetched(d, start.pages[d], 1) && s4.pages == approved
  {
    assert Next(start, Miss(request, d)).requests == map[request := Missed(d)];
  }

  /** The failing side happens: a request reads, an approval and its delete pass, then the request's fill
      arrives, and a visitor is answered with the page as it was before the approval. */
  lemma ApprovalMissedByLateFill(start: State, d: int, approved: map<int, View>, request: int, delete: int)
    returns (trace: seq<State>, events: seq<Event>)
    requires Start(start) && d in start.pages
    ensures Run(trace, events) && trace[0] == start
    ensures |events| == 7 && events[2] == Approve(approved, delete, d) && events[3] == Delete(delete)
    ensures trace[4].pages == approved && AnswerOf(trace[6], events[6]) == Page(d, start.pages[d], 1)
  {
    events := [Miss(request, d), Read(request), Approve(approved, delete, d), Delete(delete), Respond(request),
      Store(request), Hit(d)];
    ReadIsOvertaken(start, d, approved, request, delete);
    var s1 := Next(start, Miss(request, d));
    var s2 := Next(s1, Read(request));
    var s3 := Next(s2, Approve(approved, delete, d));
    var s4 := Next(s3, Delete(delete));
    FetchedPageIsServed(s4, d, start.pages[d], 1, request);
    var s5 := Next(s4, Respond(request));
    var s6 := Next(s5, Store(request));
    trace := [start, s1, s2, s3, s4, s5, s6, Next(s6, Hit(d))];
  }

  // ---------------------------------------------------------------- the controllers, in place

  /** `getDebate` and `approveArgument`, cut at their awaits; each segment is one event of the protocol. */
  class Controllers {
    var step: nat
    var now: int
    var pages: map<int, View>
    var cache: map<int, Entry>
    var requests: map<int, Request>
    var deletes: map<int, int>

    function Current(): State
      reads this
    {
      State(step, now, pages, cache, requests, deletes)
    }

    /** `cache.get`: a string answers the request; anything else, or an unavailable cache, falls through. */
    method GetDebate(id: int, debateId: int, available: bool) returns (hit: Answer)
      requires id !in requests
      modifies this
      ensures hit.Page? <==> available && debateId in old(cache) && old(now) < old(cache)[debateId].expires
      ensures hit.Page? ==> hit == AnswerOf(old(Current()), Hit(debateId)) && Current() == Next(old(Current()), Hit(debateId))
      ensures hit.NoAnswer? ==> Current() == Next(old(Current()), Miss(id, debateId))
    {
      step := step + 1;
      if available && debateId in cache && now < cache[debateId].expires {
        return Page(debateId, cache[debateId].view, cache[debateId].readAt);
      }
      requests := requests[id := Missed(debateId)];
      return NoAnswer;
    }

    /** The query of `getDebateArguments` and the fold over its rows. */
    method ReadPage(id: int) returns (found: bool)
      requires id in requests && requests[id].Missed?
      modifies this
      ensures Current() == Next(old(Current()), Read(id))
      ensures found <==> old(requests)[id].debate in old(pages)
      ensures if found then id in requests && requests[id].Fetched? &&
                            requests[id].view == old(pages)[old(requests)[id].debate]
              else id !in requests
    {
      var d := requests[id].debate;
      found := d in pages;
      requests := if found then requests[id := Fetched(d, pages[d], step)] else requests - {id};
      step := step + 1;
    }

    /** `tap` sends the fill without waiting for it, then `map` answers. */
    method SendPage(id: int) returns (answer: Answer)
      requires id in requests && requests[id].Fetched?
      modifies this
      ensures Current() == Next(old(Current()), Respond(id))
      ensures answer == AnswerOf(old(Current()), Respond(id))
      ensures answer == Page(old(requests)[id].debate, old(requests)[id].view, old(requests)[id].readAt)
    {
      var r := requests[id];
      requests := requests[id := Filling(r.debate, r.view, r.readAt)];
      step := step + 1;
      return Page(r.debate, r.view, r.readAt);
    }

    /** The SET with EX 60, or its failure, which is swallowed. */
    method FinishFill(id: int, available: bool)
      requires id in requests && requests[id].Filling?
      modifies this
      ensures Current() == Next(old(Current()), if available then Store(id) else LoseFill(id))
    {
      var r := requests[id];
      if available {
        cache := cache[r.debate := Entry(r.view, r.readAt, now + TTL)];
      }
      requests := requests - {id};
      step := step + 1;
    }

    /** The update of `approveTicket` has committed; a DEL for the debate named by the body is sent. */
    method ApproveArgument(approved: map<int, View>, id: int, bodyDebateId: int)
      requires id !in deletes
      modifies this
      ensures Current() == Next(old(Current()), Approve(approved, id, bodyDebateId))
      ensures pages == approved && deletes == old(deletes)[id := bodyDebateId]
    {
      pages := approved;
      deletes := deletes[id := bodyDebateId];
      step := step + 1;
    }

    method FinishDelete(id: int, available: bool)
      requires id in deletes
      modifies this
      ensures Current() == Next(old(Current()), if available then Delete(id) else LoseDelete(id))
    {
      if available {
        cache := cache - {deletes[id]};
      }
      deletes := deletes - {id};
      step := step + 1;
    }
  }
}

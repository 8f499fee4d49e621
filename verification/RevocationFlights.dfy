/** Concurrent revocation checks over one cache and one store. Requests that miss the cache share a
    lookup per token: the first starts it, later ones join it until it has finished. Everything else
    (other instances, clean-up, eviction, time) may happen between any two steps. */
module RevocationFlights {
  import opened Revocation

  /** What a lookup returned; `at` is the step and `time` the clock of its read. */
  datatype Result = Pending | Row(found: bool, at: nat, time: nat) | Failed

  /** `gap` records that the row was missing at some moment since the lookup began. */
  datatype Lookup = Lookup(key: string, startedAt: nat, gap: bool, result: Result, landed: bool)

  datatype Phase = Missed | Waiting(on: nat) | FromCache(seen: nat, put: nat) | FromLookup(on: nat)

  /** `gap` records that the row was missing at some moment while the request ran; `answeredAt` is the
      clock of the answer. */
  datatype Request = Request(key: string, askedAt: nat, gap: bool, phase: Phase, revoked: bool, answeredAt: nat)

  /** A call of RevokeToken between its insert, at clock `time`, and its cache entry. */
  datatype Revoker = Revoker(key: string, time: nat)

  /** A cached positive answer: when the row was seen and when the entry was put. */
  datatype Cached = Cached(seen: nat, put: nat)

  datatype Shared = Shared(
    step: nat, now: nat,
    rows: set<string>, left: map<string, nat>, // `left`: clock of each token's latest removal
    cached: map<string, Cached>, revokers: map<nat, Revoker>,
    lookups: seq<Lookup>, flights: map<string, nat>, requests: map<nat, Request>)

  datatype Event =
    | Insert(key: string) | Delete(key: string)
    | RevokeInsert(op: nat, key: string) | RevokeCache(op: nat)
    | CacheDrop(key: string) | CacheClear | Tick(delta: nat)
    | Ask(id: nat, key: string) | Join(id: nat) | Read(n: nat) | Fail(n: nat) | Finish(n: nat) | Reply(id: nat)

  function Start(rows: set<string>): Shared { Shared(0, 0, rows, map[], map[], map[], [], map[], map[]) }

  predicate Answered(r: Request) { r.phase.FromCache? || r.phase.FromLookup? }

  predicate Fresh(c: Cached, now: nat) { now <= c.put + TTL }

  predicate Enabled(s: Shared, e: Event) {
    match e
    case RevokeInsert(op, _) => op !in s.revokers
    case RevokeCache(op) => op in s.revokers
    case Ask(id, _) => id !in s.requests
    case Join(id) => id in s.requests && s.requests[id].phase == Missed
    case Read(n) => n < |s.lookups| && s.lookups[n].result == Pending
    case Fail(n) => n < |s.lookups| && s.lookups[n].result == Pending
    case Finish(n) => n < |s.lookups| && s.lookups[n].result != Pending && !s.lookups[n].landed
    case Reply(id) =>
      id in s.requests && s.requests[id].phase.Waiting? && s.requests[id].phase.on < |s.lookups|
      && s.lookups[s.requests[id].phase.on].landed
    case _ => true
  }

  // ----- steps -----

  function NotedBy(r: Request, key: string): Request { if r.key == key && !Answered(r) then r.(gap := true) else r }

  function NotedIn(l: Lookup, key: string): Lookup { if l.key == key then l.(gap := true) else l }

  function Removed(s: Shared, key: string): Shared {
    s.(rows := s.rows - {key}, left := if key in s.rows then s.left[key := s.now] else s.left,
       requests := map id | id in s.requests :: NotedBy(s.requests[id], key),
       lookups := seq(|s.lookups|, i requires 0 <= i < |s.lookups| => NotedIn(s.lookups[i], key)))
  }

  function Asked(s: Shared, id: nat, key: string): Shared {
    var gap := key !in s.rows;
    var r := if key in s.cached && Fresh(s.cached[key], s.now)
             then Request(key, s.step, gap, FromCache(s.cached[key].seen, s.cached[key].put), true, s.now)
             else Request(key, s.step, gap, Missed, false, 0);
    s.(requests := s.requests[id := r])
  }

  function Joined(s: Shared, id: nat): Shared
    requires id in s.requests
  {
    var r := s.requests[id];
    if r.key in s.flights then s.(requests := s.requests[id := r.(phase := Waiting(s.flights[r.key]))])
    else
      s.(requests := s.requests[id := r.(phase := Waiting(|s.lookups|))],
         lookups := s.lookups + [Lookup(r.key, s.step, r.key !in s.rows, Pending, false)],
         flights := s.flights[r.key := |s.lookups|])
  }

  function Resulted(s: Shared, n: nat, r: Result): Shared
    requires n < |s.lookups|
  {
    s.(lookups := s.lookups[n := s.lookups[n].(result := r)])
  }

  function Finished(s: Shared, n: nat): Shared
    requires n < |s.lookups|
  {
    var key := s.lookups[n].key;
    s.(lookups := s.lookups[n := s.lookups[n].(landed := true)],
       flights := if key in s.flights && s.flights[key] == n then s.flights - {key} else s.flights)
  }

  /** The answer is the lookup's; a failed lookup counts as revoked, and a row found is cached. */
  function Replied(s: Shared, id: nat): Shared
    requires id in s.requests && s.requests[id].phase.Waiting? && s.requests[id].phase.on < |s.lookups|
  {
    var r := s.requests[id];
    var result := s.lookups[r.phase.on].result;
    var revoked := result.Row? ==> result.found;
    s.(requests := s.requests[id := r.(phase := FromLookup(r.phase.on), revoked := revoked, answeredAt := s.now)],
       cached := if result.Row? && result.found then s.cached[r.key := Cached(result.time, s.now)] else s.cached)
  }

  function Effect(s: Shared, e: Event): Shared
    requires Enabled(s, e)
  {
    match e
    case Insert(key) => s.(rows := s.rows + {key})
    case Delete(key) => Removed(s, key)
    case RevokeInsert(op, key) => s.(rows := s.rows + {key}, revokers := s.revokers[op := Revoker(key, s.now)])
    case RevokeCache(op) =>
      s.(cached := s.cached[s.revokers[op].key := Cached(s.revokers[op].time, s.now)], revokers := s.revokers - {op})
    case CacheDrop(key) => s.(cached := s.cached - {key})
    case CacheClear => s.(cached := map[])
    case Tick(delta) => s.(now := s.now + delta)
    case Ask(id, key) => Asked(s, id, key)
    case Join(id) => Joined(s, id)
    case Read(n) => Resulted(s, n, Row(s.lookups[n].key in s.rows, s.step, s.now))
    case Fail(n) => Resulted(s, n, Failed)
    case Finish(n) => Finished(s, n)
    case Reply(id) => Replied(s, id)
  }

  function Apply(s: Shared, e: Event): Shared
    requires Enabled(s, e)
  {
    Effect(s, e).(step := s.step + 1)
  }

  // ----- the invariant -----

  /** The row was in the store at clock `time` or later. */
  predicate PresentSince(s: Shared, key: string, time: nat) {
    time <= s.now && (key in s.rows || (key in s.left && time <= s.left[key]))
  }

  predicate LookupOk(s: Shared, l: Lookup) {
    && l.startedAt < s.step
    && (!l.gap ==> l.key in s.rows)
    && (l.landed ==> l.result != Pending)
    && (l.result.Row? ==>
          && l.startedAt <= l.result.at < s.step
          && (l.result.found ==> PresentSince(s, l.key, l.result.time))
          && (!l.result.found ==> l.gap))
  }

  predicate ReadNothing(l: Lookup) { l.result.Row? && !l.result.found }

  /** A lookup that read "no row" after the request was asked saw the row missing while it ran. */
  predicate LinkOk(s: Shared, r: Request, n: nat) {
    && n < |s.lookups| && s.lookups[n].key == r.key
    && (ReadNothing(s.lookups[n]) && r.askedAt <= s.lookups[n].result.at ==> r.gap)
  }

  predicate LinksOk(s: Shared, r: Request) {
    forall n: nat :: n < |s.lookups| && s.lookups[n].key == r.key ==> LinkOk(s, r, n)
  }

  predicate RequestOk(s: Shared, r: Request) {
    && r.askedAt < s.step
    && (!Answered(r) && !r.gap ==> r.key in s.rows)
    && match r.phase
       case Missed => LinksOk(s, r)
       case Waiting(n) => LinksOk(s, r) && LinkOk(s, r, n)
       case FromCache(seen, put) => r.revoked && PresentSince(s, r.key, seen) && r.answeredAt <= put + TTL
       case FromLookup(n) =>
         LinkOk(s, r, n) && s.lookups[n].result != Pending
         && (r.revoked <==> (s.lookups[n].result.Row? ==> s.lookups[n].result.found))
  }

  ghost predicate Inv(s: Shared) {
    && (forall k :: k in s.cached ==> PresentSince(s, k, s.cached[k].seen))
    && (forall op :: op in s.revokers ==> PresentSince(s, s.revokers[op].key, s.revokers[op].time))
    && (forall k :: k in s.flights ==>
       s.flights[k] < |s.lookups| && s.lookups[s.flights[k]].key == k && !s.lookups[s.flights[k]].landed)
    && (forall i :: 0 <= i < |s.lookups| ==> LookupOk(s, s.lookups[i]))
    && (forall id :: id in s.requests ==> RequestOk(s, s.requests[id]))
    && (forall k :: k in s.left ==> s.left[k] <= s.now)
  }

  lemma Persists(s: Shared, e: Event, k: string, time: nat)
    requires Enabled(s, e) && PresentSince(s, k, time)
    ensures PresentSince(Apply(s, e), k, time)
  {
  }

  lemma StoreStep(s: Shared, e: Event)
    requires Inv(s) && Enabled(s, e)
    ensures var t := Apply(s, e);
      && (forall k :: k in t.cached ==> PresentSince(t, k, t.cached[k].seen))
      && (forall op :: op in t.revokers ==> PresentSince(t, t.revokers[op].key, t.revokers[op].time))
      && (forall k :: k in t.left ==> t.left[k] <= t.now)
  {
    var t := Apply(s, e);
    forall k, time | PresentSince(s, k, time) ensures PresentSince(t, k, time) { Persists(s, e, k, time); }
    if e.Reply? {
      var n := s.requests[e.id].phase.on;
      assert RequestOk(s, s.requests[e.id]) && LookupOk(s, s.lookups[n]);
    }
  }

  lemma FlightStep(s: Shared, e: Event)
    requires Inv(s) && Enabled(s, e)
    ensures var t := Apply(s, e);
      forall k :: k in t.flights ==>
          t.flights[k] < |t.lookups| && t.lookups[t.flights[k]].key == k && !t.lookups[t.flights[k]].landed
  {
  }

  /** What one step does to a lookup: its key, start and result stay, and a gap is never forgotten. */
  predicate Grows(l: Lookup, m: Lookup) {
    m.key == l.key && m.startedAt == l.startedAt && (l.gap ==> m.gap) && (l.result != Pending ==> m.result == l.result)
  }

  lemma LookupsGrow(s: Shared, e: Event)
    requires Enabled(s, e)
    ensures var t := Apply(s, e);
        |s.lookups| <= |t.lookups| && forall i :: 0 <= i < |s.lookups| ==> Grows(s.lookups[i], t.lookups[i])
  {
  }

  lemma LookupStep(s: Shared, e: Event, i: nat)
    requires Inv(s) && Enabled(s, e) && i < |Apply(s, e).lookups|
    ensures LookupOk(Apply(s, e), Apply(s, e).lookups[i])
  {
    var t := Apply(s, e);
    if i < |s.lookups| {
      var l := s.lookups[i];
      assert LookupOk(s, l);
      if l.result.Row? && l.result.found { Persists(s, e, l.key, l.result.time); }
    }
  }

  /** While a request runs, its links stay right: a read that finds nothing leaves it with a gap. */
  lemma LinkStep(s: Shared, e: Event, id: nat, n: nat)
    requires Inv(s) && Enabled(s, e) && id in s.requests && !Answered(s.requests[id])
    requires n < |Apply(s, e).lookups| && Apply(s, e).lookups[n].key == s.requests[id].key
    ensures LinkOk(Apply(s, e), Apply(s, e).requests[id], n)
  {
    assert RequestOk(s, s.requests[id]);
    if n < |s.lookups| {
      LookupsGrow(s, e);
      assert LinkOk(s, s.requests[id], n);
    }
  }

  lemma OldLinkStep(s: Shared, e: Event, id: nat, n: nat)
    requires Inv(s) && Enabled(s, e) && id in s.requests && s.requests[id].phase == FromLookup(n)
    ensures RequestOk(Apply(s, e), Apply(s, e).requests[id])
  {
    assert RequestOk(s, s.requests[id]);
    LookupsGrow(s, e);
    assert Grows(s.lookups[n], Apply(s, e).lookups[n]);
  }

  lemma NewRequest(s: Shared, e: Event)
    requires Inv(s) && Enabled(s, e) && e.Ask?
    ensures RequestOk(Apply(s, e), Apply(s, e).requests[e.id])
  {
    forall n: nat | n < |s.lookups| && s.lookups[n].result.Row? ensures s.lookups[n].result.at < s.step {
      assert LookupOk(s, s.lookups[n]);
    }
  }

  lemma ReplyStep(s: Shared, e: Event)
    requires Inv(s) && Enabled(s, e) && e.Reply?
    ensures RequestOk(Apply(s, e), Apply(s, e).requests[e.id])
  {
    var r := s.requests[e.id];
    assert RequestOk(s, r) && LookupOk(s, s.lookups[r.phase.on]);
  }

  lemma CachedStep(s: Shared, e: Event, id: nat)
    requires Inv(s) && Enabled(s, e) && id in s.requests && s.requests[id].phase.FromCache?
    ensures RequestOk(Apply(s, e), Apply(s, e).requests[id])
  {
    assert RequestOk(s, s.requests[id]);
    Persists(s, e, s.requests[id].key, s.requests[id].phase.seen);
  }

  /** A running request keeps its key, and keeps running unless this step is its reply. */
  lemma RunningFrame(s: Shared, e: Event, id: nat)
    requires Inv(s) && Enabled(s, e) && id in s.requests && !Answered(s.requests[id]) && !(e.Reply? && e.id == id)
    ensures var t := Apply(s, e);
      && id in t.requests && t.requests[id].key == s.requests[id].key && t.requests[id].askedAt < t.step
      && (!t.requests[id].gap ==> t.requests[id].key in t.rows)
      && (t.requests[id].phase == Missed
          || (&& t.requests[id].phase.Waiting? && t.requests[id].phase.on < |t.lookups|
              && t.lookups[t.requests[id].phase.on].key == t.requests[id].key))
  {
    assert RequestOk(s, s.requests[id]);
  }

  lemma RunningStep(s: Shared, e: Event, id: nat)
    requires Inv(s) && Enabled(s, e) && id in s.requests && !Answered(s.requests[id]) && !(e.Reply? && e.id == id)
    ensures RequestOk(Apply(s, e), Apply(s, e).requests[id])
  {
    RunningFrame(s, e, id);
    forall n: nat | n < |Apply(s, e).lookups| && Apply(s, e).lookups[n].key == s.requests[id].key
      ensures LinkOk(Apply(s, e), Apply(s, e).requests[id], n)
    {
      LinkStep(s, e, id, n);
    }
  }

  lemma RequestStep(s: Shared, e: Event, id: nat)
    requires Inv(s) && Enabled(s, e) && id in Apply(s, e).requests
    ensures RequestOk(Apply(s, e), Apply(s, e).requests[id])
  {
    if id !in s.requests {
      NewRequest(s, e);
    } else if s.requests[id].phase.FromLookup? {
      OldLinkStep(s, e, id, s.requests[id].phase.on);
    } else if s.requests[id].phase.FromCache? {
      CachedStep(s, e, id);
    } else if e.Reply? && e.id == id {
      ReplyStep(s, e);
    } else {
      RunningStep(s, e, id);
    }
  }

  /** Every step keeps the invariant. */
  lemma StepInv(s: Shared, e: Event)
    requires Inv(s) && Enabled(s, e)
    ensures Inv(Apply(s, e))
  {
    var t := Apply(s, e);
    StoreStep(s, e);
    FlightStep(s, e);
    forall i | 0 <= i < |t.lookups| ensures LookupOk(t, t.lookups[i]) { LookupStep(s, e, i); }
    forall id | id in t.requests ensures RequestOk(t, t.requests[id]) { RequestStep(s, e, id); }
  }

  // ----- runs -----

  ghost predicate CanRun(s: Shared, es: seq<Event>)
    decreases |es|
  {
    es != [] ==> Enabled(s, es[0]) && CanRun(Apply(s, es[0]), es[1..])
  }

  function After(s: Shared, es: seq<Event>): Shared
    requires CanRun(s, es)
    decreases |es|
  {
    if es == [] then s else After(Apply(s, es[0]), es[1..])
  }

  /** Reachable from an empty cache over any store. */
  ghost predicate Reachable(s: Shared) {
    exists rows: set<string>, es: seq<Event> :: CanRun(Start(rows), es) && After(Start(rows), es) == s
  }

  lemma {:induction false} RunInv(s: Shared, es: seq<Event>)
    requires Inv(s) && CanRun(s, es)
    ensures Inv(After(s, es))
    decreases |es|
  {
    if es != [] {
      StepInv(s, es[0]);
      RunInv(Apply(s, es[0]), es[1..]);
    }
  }

  lemma ReachableInv(s: Shared)
    requires Reachable(s)
    ensures Inv(s)
  {
    var rows: set<string>, es: seq<Event> :| CanRun(Start(rows), es) && After(Start(rows), es) == s;
    assert Inv(Start(rows));
    RunInv(Start(rows), es);
  }

  lemma {:induction false} RunSnoc(s: Shared, es: seq<Event>, e: Event)
    requires CanRun(s, es) && Enabled(After(s, es), e)
    ensures CanRun(s, es + [e]) && After(s, es + [e]) == Apply(After(s, es), e)
    decreases |es|
  {
    if es != [] {
      assert (es + [e])[1..] == es[1..] + [e];
      RunSnoc(Apply(s, es[0]), es[1..], e);
    } else {
      assert [e][1..] == [];
    }
  }

  lemma Extend(s: Shared, e: Event) returns (t: Shared)
    requires Reachable(s) && Enabled(s, e)
    ensures t == Apply(s, e) && Reachable(t)
  {
    t := Apply(s, e);
    var rows: set<string>, es: seq<Event> :| CanRun(Start(rows), es) && After(Start(rows), es) == s;
    RunSnoc(Start(rows), es, e);
  }

  // ----- what every run guarantees -----

  /** A negative answer means that the row was missing at some moment since the lookup behind it began;
      so a token whose row is there for the whole lookup is reported. */
  lemma NegativeMeansMissing(s: Shared, id: nat)
    requires Reachable(s) && id in s.requests && Answered(s.requests[id]) && !s.requests[id].revoked
    ensures s.requests[id].phase.FromLookup? && s.requests[id].phase.on < |s.lookups|
    ensures var l := s.lookups[s.requests[id].phase.on]; l.key == s.requests[id].key && ReadNothing(l) && l.gap
  {
    ReachableInv(s);
    assert RequestOk(s, s.requests[id]);
    assert LookupOk(s, s.lookups[s.requests[id].phase.on]);
  }

  /** The request joined a lookup that had already read "no row" when the request was asked. */
  predicate JoinedTooLate(s: Shared, r: Request) {
    && r.phase.FromLookup? && r.phase.on < |s.lookups|
    && ReadNothing(s.lookups[r.phase.on]) && s.lookups[r.phase.on].result.at < r.askedAt
  }

  /** For a token whose row was there for the whole request, the answer is wrong exactly when the
      request joined a lookup that had read before it was asked. */
  lemma StaleExactlyWhenJoinedTooLate(s: Shared, id: nat)
    requires Reachable(s) && id in s.requests && Answered(s.requests[id]) && !s.requests[id].gap
    ensures !s.requests[id].revoked <==> JoinedTooLate(s, s.requests[id])
  {
    ReachableInv(s);
    assert RequestOk(s, s.requests[id]);
  }

  /** So a request that started its lookup, or joined one begun after it was asked, never errs. */
  lemma OwnLookupIsCurrent(s: Shared, id: nat)
    requires Reachable(s) && id in s.requests && s.requests[id].phase.FromLookup? && !s.requests[id].revoked
    requires var r := s.requests[id]; r.phase.on < |s.lookups| && r.askedAt <= s.lookups[r.phase.on].startedAt
    ensures s.requests[id].gap
  {
    ReachableInv(s);
    assert RequestOk(s, s.requests[id]);
    assert LookupOk(s, s.lookups[s.requests[id].phase.on]);
  }

  /** A positive answer outlives its row by a bounded time: if the cache entry was put within `lag` of
      seeing the row, the row was in the store no more than `TTL + lag` before the answer. */
  lemma PositiveAnswersAge(s: Shared, id: nat, lag: nat)
    requires Reachable(s) && id in s.requests && s.requests[id].phase.FromCache?
    requires s.requests[id].phase.put <= s.requests[id].phase.seen + lag
    ensures var r := s.requests[id];
      r.revoked && PresentSince(s, r.key, r.phase.seen) && r.answeredAt <= r.phase.seen + TTL + lag
  {
    ReachableInv(s);
    assert RequestOk(s, s.requests[id]);
  }

  // ----- what the records stand for -----

  /** The row is missing now or at some later moment of the run. */
  ghost predicate MissingIn(s: Shared, es: seq<Event>, key: string)
    requires CanRun(s, es)
    decreases |es|
  {
    key !in s.rows || (es != [] && MissingIn(Apply(s, es[0]), es[1..], key))
  }

  predicate Running(s: Shared, id: nat) { id in s.requests && !Answered(s.requests[id]) }

  lemma GapStep(s: Shared, e: Event, id: nat)
    requires Inv(s) && Enabled(s, e) && Running(s, id)
    ensures var t := Apply(s, e);
      && id in t.requests && t.requests[id].key == s.requests[id].key
      && (Running(t, id) ==> (t.requests[id].gap <==> s.requests[id].gap || s.requests[id].key !in t.rows))
      && (!Running(t, id) ==> t.requests[id].gap == s.requests[id].gap)
  {
    assert RequestOk(s, s.requests[id]);
  }

  lemma AnsweredStep(s: Shared, e: Event, id: nat)
    requires Enabled(s, e) && id in s.requests && Answered(s.requests[id])
    ensures id in Apply(s, e).requests && Apply(s, e).requests[id] == s.requests[id]
  {
  }

  /** A running request has a gap exactly when its row was missing at some moment since it was asked. */
  lemma {:induction false} GapMeansMissing(s: Shared, es: seq<Event>, id: nat)
    requires Inv(s) && CanRun(s, es) && Running(s, id) && Running(After(s, es), id)
    ensures After(s, es).requests[id].gap <==> s.requests[id].gap || MissingIn(s, es, s.requests[id].key)
    decreases |es|
  {
    assert RequestOk(s, s.requests[id]);
    if es != [] {
      var t := Apply(s, es[0]);
      GapStep(s, es[0], id);
      StepInv(s, es[0]);
      if !Running(t, id) { StaysAnswered(t, es[1..], id); }
      GapMeansMissing(t, es[1..], id);
    }
  }

  lemma {:induction false} StaysAnswered(s: Shared, es: seq<Event>, id: nat)
    requires CanRun(s, es) && id in s.requests && Answered(s.requests[id])
    ensures id in After(s, es).requests && After(s, es).requests[id] == s.requests[id]
    decreases |es|
  {
    if es != [] {
      AnsweredStep(s, es[0], id);
      StaysAnswered(Apply(s, es[0]), es[1..], id);
    }
  }

  /** A new request starts with a gap exactly when the row is missing, and is answered at once exactly when the
      cache holds the token and the entry is at most 30 old. */
  lemma AskedOnFields(s: Shared, id: nat, key: string)
    requires id !in s.requests
    ensures var r := Apply(s, Ask(id, key)).requests[id];
      && r.key == key && r.askedAt == s.step && (r.gap <==> key !in s.rows)
      && (if key in s.cached && s.now <= s.cached[key].put + 30
          then r.revoked && r.answeredAt == s.now && r.phase == FromCache(s.cached[key].seen, s.cached[key].put)
          else r.phase == Missed)
  {
  }

  lemma LookupGapStep(s: Shared, e: Event, i: nat)
    requires Inv(s) && Enabled(s, e) && i < |Apply(s, e).lookups|
    ensures var t := Apply(s, e); var key := t.lookups[i].key;
      t.lookups[i].gap <==> (i < |s.lookups| && s.lookups[i].gap) || key !in t.rows
  {
    if i < |s.lookups| { assert LookupOk(s, s.lookups[i]); }
  }

  /** A lookup has a gap exactly when its row was missing at some moment since it began. */
  lemma {:induction false} LookupGapMeansMissing(s: Shared, es: seq<Event>, i: nat)
    requires Inv(s) && CanRun(s, es) && i < |s.lookups|
    ensures i < |After(s, es).lookups| && After(s, es).lookups[i].key == s.lookups[i].key
    ensures After(s, es).lookups[i].gap <==> s.lookups[i].gap || MissingIn(s, es, s.lookups[i].key)
    decreases |es|
  {
    assert LookupOk(s, s.lookups[i]);
    if es != [] {
      LookupsGrow(s, es[0]);
      assert Grows(s.lookups[i], Apply(s, es[0]).lookups[i]);
      LookupGapStep(s, es[0], i);
      StepInv(s, es[0]);
      LookupGapMeansMissing(Apply(s, es[0]), es[1..], i);
    }
  }

  /** The clock of a removal is set by removing the row and by nothing else. */
  lemma LeftOnFields(s: Shared, e: Event, k: string)
    requires Enabled(s, e)
    ensures var t := Apply(s, e);
      if k in s.rows && k !in t.rows then e == Delete(k) && k in t.left && t.left[k] == s.now
      else (k in t.left <==> k in s.left) && (k in t.left ==> t.left[k] == s.left[k])
  {
  }

  /** An entry is put by a revoker or by a reply, at the present clock; it carries the clock of the revoker's
      insert or of the lookup's read. */
  lemma CachedOnFields(s: Shared, e: Event, k: string)
    requires Enabled(s, e) && k in Apply(s, e).cached && (k !in s.cached || s.cached[k] != Apply(s, e).cached[k])
    ensures var c := Apply(s, e).cached[k];
      && c.put == s.now
      && (|| (e.RevokeCache? && s.revokers[e.op] == Revoker(k, c.seen))
          || (&& e.Reply? && s.requests[e.id].key == k
              && var l := s.lookups[s.requests[e.id].phase.on];
                 l.result.Row? && l.result.found && l.result.time == c.seen))
  {
  }

  lemma ReadOnFields(s: Shared, n: nat)
    requires Enabled(s, Read(n))
    ensures Apply(s, Read(n)).lookups[n].result == Row(s.lookups[n].key in s.rows, s.step, s.now)
  {
  }

  // ----- a revocation is seen at once -----

  predicate Drops(e: Event, key: string) { e == CacheDrop(key) || e == CacheClear }

  predicate NoDrop(es: seq<Event>, key: string) { forall i :: 0 <= i < |es| ==> !Drops(es[i], key) }

  /** The cache holds the token since `put` or later. */
  predicate Holds(s: Shared, key: string, put: nat) { put <= s.now && key in s.cached && put <= s.cached[key].put }

  lemma HoldsStep(s: Shared, e: Event, key: string, put: nat)
    requires Enabled(s, e) && Holds(s, key, put) && !Drops(e, key)
    ensures Holds(Apply(s, e), key, put)
  {
  }

  lemma {:induction false} HoldsRun(s: Shared, es: seq<Event>, key: string, put: nat)
    requires CanRun(s, es) && Holds(s, key, put) && NoDrop(es, key)
    ensures Holds(After(s, es), key, put)
    decreases |es|
  {
    if es != [] {
      HoldsStep(s, es[0], key, put);
      assert forall i :: 0 <= i < |es[1..]| ==> es[1..][i] == es[i + 1];
      HoldsRun(Apply(s, es[0]), es[1..], key, put);
    }
  }

  /** Once RevokeToken has returned, or a request was told that the row was found, every request for the token
      asked within the next 30 is answered "revoked" at once, whatever happens to the store in between, unless
      the entry is evicted or the cache cleared. */
  lemma RevokedIsSeenAtOnce(s: Shared, e: Event, key: string, es: seq<Event>, id: nat)
    requires Enabled(s, e) && CanRun(Apply(s, e), es) && NoDrop(es, key)
    requires
      || (e.RevokeCache? && s.revokers[e.op].key == key)
      || (&& e.Reply? && s.requests[e.id].key == key
          && s.lookups[s.requests[e.id].phase.on].result.Row? && s.lookups[s.requests[e.id].phase.on].result.found)
    requires var t := After(Apply(s, e), es); t.now <= s.now + 30 && id !in t.requests
    ensures var t := After(Apply(s, e), es);
      var r := Apply(t, Ask(id, key)).requests[id]; r.phase.FromCache? && r.revoked && r.answeredAt == t.now
  {
    assert Holds(Apply(s, e), key, s.now);
    HoldsRun(Apply(s, e), es, key, s.now);
  }

  // ----- the stale answer occurs -----

  const TOKEN := "t"
  const EARLY := Lookup(TOKEN, 1, true, Row(false, 2, 0), false)
  const FIRST := Request(TOKEN, 0, true, Waiting(0), false, 0)

  lemma StartIsReachable(rows: set<string>)
    ensures Reachable(Start(rows))
  {
    assert CanRun(Start(rows), []) && After(Start(rows), []) == Start(rows);
  }

  /** One request's lookup has read "no row" and not yet returned. */
  lemma EarlyRead() returns (s: Shared)
    ensures Reachable(s)
    ensures s == Shared(3, 0, {}, map[], map[], map[], [EARLY], map[TOKEN := 0], map[0 := FIRST])
  {
    StartIsReachable({});
    s := Extend(Start({}), Ask(0, TOKEN));
    s := Extend(s, Join(0));
    s := Extend(s, Read(0));
  }

  lemma LateAsk() returns (s: Shared)
    ensures Reachable(s)
    ensures s == Shared(5, 0, {TOKEN}, map[], map[], map[], [EARLY], map[TOKEN := 0],
                        map[0 := FIRST, 1 := Request(TOKEN, 4, false, Missed, false, 0)])
  {
    s := EarlyRead();
    s := Extend(s, Insert(TOKEN));
    s := Extend(s, Ask(1, TOKEN));
  }

  /** Then the token is revoked and a second request, asked afterwards, joins that lookup. */
  lemma LateJoin() returns (s: Shared)
    ensures Reachable(s)
    ensures s == Shared(6, 0, {TOKEN}, map[], map[], map[], [EARLY], map[TOKEN := 0],
                        map[0 := FIRST, 1 := Request(TOKEN, 4, false, Waiting(0), false, 0)])
  {
    s := LateAsk();
    s := Extend(s, Join(1));
  }

  /** The second request is told "not revoked" although the row was there for all of its run. */
  lemma StaleNegativeExists() returns (s: Shared)
    ensures Reachable(s) && 1 in s.requests && Answered(s.requests[1])
    ensures s.requests[1].key in s.rows && !s.requests[1].gap && !s.requests[1].revoked
  {
    s := LateJoin();
    s := Extend(s, Finish(0));
    s := Extend(s, Reply(1));
  }
}

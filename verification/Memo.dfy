/** The memo cache and the provider in front of it (packages/python/src/cci/cache.py, provider.py). */
module Memo {
  import opened Wrappers

  const FORMAT: nat := 1

  datatype Operation = Synthesis | Indexing | TreeNavigation

  datatype Request = Request(operation: Operation, prompt: string, evidence: string)

  datatype Response = Response(text: string, inputTokens: Option<int>, outputTokens: Option<int>, usageUnknown: bool)

  datatype Scope = Scope(namespace: string, store: string, history: string, generation: nat)

  /** The cache key: digests are taken to be injective, so the key is what was digested. */
  datatype Key = Key(scope: Scope, request: Request)

  /** A stored record as it parses: it names the scope and request it was stored under. */
  datatype Value = Value(format: nat, scope: Scope, request: Request, created: real, expiry: real, payload: Response)

  /** The stored bytes: a record, or something that does not parse. */
  datatype Raw = Parsed(value: Value) | Garbage

  /** Redis drops an entry on its own at `dropAt`. */
  datatype Entry = Entry(raw: Raw, dropAt: real)

  datatype Breaker = Breaker(failures: nat, openUntil: Option<real>, errors: nat)

  datatype Stores = Stores(redis: map<Key, Entry>, local: map<Key, Raw>, breaker: Breaker)

  datatype Kind = Disabled | LocalOnly | Redis(fallback: bool)

  datatype Tuning = Tuning(threshold: nat, probe: real, lifetime: real)

  /** What goes wrong in one operation; a failed write may have landed all the same. */
  datatype Faults = Faults(redisGet: bool, redisSet: bool, landed: bool, localGet: bool, localSet: bool, late: bool)

  datatype Got = Failed | Found(value: Option<Value>)

  // ---------------------------------------------------------------- circuit breaker

  predicate Available(b: Breaker, clock: real) {
    b.openUntil.None? || clock >= b.openUntil.value
  }

  function NoteFailure(b: Breaker, t: Tuning, clock: real): Breaker {
    var n := b.failures + 1;
    Breaker(n, if n >= t.threshold then Some(clock + t.probe) else b.openUntil, b.errors + 1)
  }

  function NoteSuccess(b: Breaker): Breaker {
    b.(failures := 0, openUntil := None)
  }

  /** The circuit is open exactly after that many failures, and at least one. */
  predicate BreakerOk(b: Breaker, t: Tuning) {
    b.openUntil.Some? <==> b.failures >= 1 && b.failures >= t.threshold
  }

  // ---------------------------------------------------------------- the operations

  /** A record is usable strictly before its expiry. */
  function Fresh(raw: Raw, now: real): Option<Value> {
    if raw.Parsed? && raw.value.expiry > now then Some(raw.value) else None
  }

  function LocalGet(local: map<Key, Raw>, key: Key, now: real): Option<Value> {
    if key in local then Fresh(local[key], now) else None
  }

  predicate Visible(redis: map<Key, Entry>, key: Key, clock: real) {
    key in redis && clock < redis[key].dropAt
  }

  function Seconds(span: real): real {
    if span.Floor < 1 then 1.0 else span.Floor as real
  }

  /** A write to Redis: it succeeds, or fails having landed or not. */
  function RedisPut(s: Stores, t: Tuning, key: Key, e: Entry, clock: real, f: Faults): Stores {
    if f.redisSet then
      s.(redis := if f.landed then s.redis[key := e] else s.redis, breaker := NoteFailure(s.breaker, t, clock))
    else s.(redis := s.redis[key := e], breaker := NoteSuccess(s.breaker))
  }

  /** The fallback lookup, which refills Redis for the time the record has left. */
  function FallbackGet(s: Stores, t: Tuning, kind: Kind, key: Key, now: real, clock: real, f: Faults): (Stores, Got) {
    if kind == Redis(false) then (s, Found(None))
    else if f.localGet then (s, Failed)
    else
      var v := LocalGet(s.local, key, now);
      if v.None? || !Available(s.breaker, clock) then (s, Found(v))
      else (RedisPut(s, t, key, Entry(Parsed(v.value), clock + Seconds(v.value.expiry - now)), clock, f), Found(v))
  }

  function Get(s: Stores, t: Tuning, kind: Kind, key: Key, now: real, clock: real, f: Faults): (Stores, Got) {
    match kind
    case Disabled => (s, Found(None))
    case LocalOnly => (s, if f.localGet then Failed else Found(LocalGet(s.local, key, now)))
    case Redis(_) =>
      if !Available(s.breaker, clock) then FallbackGet(s, t, kind, key, now, clock, f)
      else if f.redisGet then FallbackGet(s.(breaker := NoteFailure(s.breaker, t, clock)), t, kind, key, now, clock, f)
      else
        var s1 := s.(breaker := NoteSuccess(s.breaker));
        if Visible(s.redis, key, clock) then (s1, Found(Fresh(s.redis[key].raw, now)))
        else FallbackGet(s1, t, kind, key, now, clock, f)
  }

  function Set(s: Stores, t: Tuning, kind: Kind, key: Key, v: Value, clock: real, f: Faults): Stores {
    match kind
    case Disabled => s
    case LocalOnly => if f.localSet && !f.landed then s else s.(local := s.local[key := Parsed(v)])
    case Redis(fallback) =>
      var s1 := if !fallback || (f.localSet && !f.landed) then s else s.(local := s.local[key := Parsed(v)]);
      if (fallback && f.localSet) || !Available(s1.breaker, clock) then s1
      else RedisPut(s1, t, key, Entry(Parsed(v), clock + Seconds(v.expiry - v.created)), clock, f)
  }

  predicate Cacheable(kind: Kind, scope: Option<Scope>, request: Request) {
    kind != Disabled && scope.Some? && request.operation in {Indexing, TreeNavigation}
  }

  /** Whether a looked-up record may be served for this very scope and request. */
  predicate Serves(got: Got, scope: Scope, request: Request, f: Faults) {
    !f.late && got.Found? && got.value.Some? && got.value.value.format == FORMAT &&
    got.value.value.scope == scope && got.value.value.request == request
  }

  datatype Served = Served(response: Response, fromCache: bool)

  datatype Completed = Completed(stores: Stores, result: Result<Served, string>)

  /** One completion: `read` is the clock of the lookup, `wrote` of the write; `answered` says the model replied. */
  function Complete(s: Stores, t: Tuning, kind: Kind, request: Request, scope: Option<Scope>, read: real, wrote: real,
                    readFaults: Faults, writeFaults: Faults, inner: Request -> Response, answered: bool): Completed
  {
    var cacheable := Cacheable(kind, scope, request);
    var looked :=
      if cacheable then Get(s, t, kind, Key(scope.value, request), read, read, readFaults) else (s, Found(None));
    if cacheable && Serves(looked.1, scope.value, request, readFaults) then
      Completed(looked.0, Ok(Served(looked.1.value.value.payload, true)))
    else if !answered then Completed(looked.0, Err("provider error"))
    else
      var response := inner(request);
      var stores := if !cacheable then looked.0
                    else Set(looked.0, t, kind, Key(scope.value, request),
                             Value(FORMAT, scope.value, request, wrote, wrote + t.lifetime, response),
                             wrote, writeFaults);
      Completed(stores, Ok(Served(response, false)))
  }

  // ---------------------------------------------------------------- honesty of what is stored

  /** A record may be misplaced or expired, but what it says about its own request is what the model answers. */
  ghost predicate Honest(raw: Raw, inner: Request -> Response) {
    raw.Parsed? && raw.value.format == FORMAT ==> raw.value.payload == inner(raw.value.request)
  }

  ghost predicate AllHonest(s: Stores, inner: Request -> Response) {
    && (forall k :: k in s.redis ==> Honest(s.redis[k].raw, inner))
    && (forall k :: k in s.local ==> Honest(s.local[k], inner))
  }

  lemma PutKeepsHonest(s: Stores, t: Tuning, key: Key, e: Entry, clock: real, f: Faults, inner: Request -> Response)
    requires AllHonest(s, inner) && Honest(e.raw, inner)
    ensures AllHonest(RedisPut(s, t, key, e, clock, f), inner)
  {}

  lemma FallbackKeepsHonest(s: Stores, t: Tuning, kind: Kind, key: Key, now: real, clock: real, f: Faults,
                            inner: Request -> Response)
    requires AllHonest(s, inner)
    ensures AllHonest(FallbackGet(s, t, kind, key, now, clock, f).0, inner)
    ensures var g := FallbackGet(s, t, kind, key, now, clock, f).1;
            g.Found? && g.value.Some? ==> Honest(Parsed(g.value.value), inner) && g.value.value.expiry > now
  {
    var v := LocalGet(s.local, key, now);
    if v.Some? {
      assert Honest(s.local[key], inner);
      PutKeepsHonest(s, t, key, Entry(Parsed(v.value), clock + Seconds(v.value.expiry - now)), clock, f, inner);
    }
  }

  lemma GetKeepsHonest(s: Stores, t: Tuning, kind: Kind, key: Key, now: real, clock: real, f: Faults,
                       inner: Request -> Response)
    requires AllHonest(s, inner)
    ensures AllHonest(Get(s, t, kind, key, now, clock, f).0, inner)
    ensures var g := Get(s, t, kind, key, now, clock, f).1;
            g.Found? && g.value.Some? ==> Honest(Parsed(g.value.value), inner) && g.value.value.expiry > now
  {
    FallbackKeepsHonest(s, t, kind, key, now, clock, f, inner);
    FallbackKeepsHonest(s.(breaker := NoteFailure(s.breaker, t, clock)), t, kind, key, now, clock, f, inner);
    FallbackKeepsHonest(s.(breaker := NoteSuccess(s.breaker)), t, kind, key, now, clock, f, inner);
  }

  lemma SetKeepsHonest(s: Stores, t: Tuning, kind: Kind, key: Key, v: Value, clock: real, f: Faults,
                       inner: Request -> Response)
    requires AllHonest(s, inner) && Honest(Parsed(v), inner)
    ensures AllHonest(Set(s, t, kind, key, v, clock, f), inner)
  {}

  /**
   * One completion under any faults: an answer is the model's own answer, it fails only when the model
   * does, and one served from the cache had not expired and was stored under the same scope, cache
   * generation included.
   */
  lemma CompleteIsTransparent(s: Stores, t: Tuning, kind: Kind, request: Request, scope: Option<Scope>, read: real,
                              wrote: real,
                              readFaults: Faults, writeFaults: Faults, inner: Request -> Response, answered: bool)
    requires AllHonest(s, inner)
    ensures var c := Complete(s, t, kind, request, scope, read, wrote, readFaults, writeFaults, inner, answered);
            && AllHonest(c.stores, inner)
            && (c.result.Ok? ==> c.result.value.response == inner(request))
            && (answered ==> c.result.Ok?)
            && (c.result.Ok? && c.result.value.fromCache ==>
                  && Cacheable(kind, scope, request)
                  && var g := Get(s, t, kind, Key(scope.value, request), read, read, readFaults).1;
                     && g.Found? && g.value.Some? && g.value.value.expiry > read && g.value.value.scope == scope.value
                     && g.value.value.request == request)
  {
    if Cacheable(kind, scope, request) {
      var key := Key(scope.value, request);
      GetKeepsHonest(s, t, kind, key, read, read, readFaults, inner);
      var looked := Get(s, t, kind, key, read, read, readFaults);
      SetKeepsHonest(looked.0, t, kind, key,
                     Value(FORMAT, scope.value, request, wrote, wrote + t.lifetime, inner(request)),
                     wrote, writeFaults, inner);
    }
  }

  // ---------------------------------------------------------------- what is served from the cache

  /** Nothing goes wrong. */
  predicate Clean(f: Faults) {
    !f.redisGet && !f.redisSet && !f.localGet && !f.localSet && !f.late
  }

  /** The record is the one a lookup comes to: Redis's while the circuit lets it through, else the local store's. */
  ghost predicate ComesTo(s: Stores, kind: Kind, key: Key, now: real, v: Value) {
    match kind
    case Disabled => false
    case LocalOnly => key in s.local && s.local[key] == Parsed(v)
    case Redis(fallback) =>
      if (s.breaker.openUntil.None? || now >= s.breaker.openUntil.value) && key in s.redis && now < s.redis[key].dropAt
      then s.redis[key].raw == Parsed(v)
      else fallback && key in s.local && s.local[key] == Parsed(v)
  }

  /** A record for this scope and request that has not expired. */
  ghost predicate Current(v: Value, scope: Scope, request: Request, now: real) {
    v.format == FORMAT && v.scope == scope && v.request == request && now < v.expiry
  }

  /**
   * When nothing goes wrong, a completion is served from the cache exactly if it may be cached and the lookup
   * comes to a current record of its own; then it is that record's answer, and the model is not asked.
   */
  lemma ServedExactly(s: Stores, t: Tuning, kind: Kind, request: Request, scope: Option<Scope>, read: real, wrote: real,
                      readFaults: Faults, writeFaults: Faults, inner: Request -> Response, answered: bool)
    requires Clean(readFaults)
    ensures var r := Complete(s, t, kind, request, scope, read, wrote, readFaults, writeFaults, inner, answered).result;
            && (r.Ok? && r.value.fromCache <==>
                  && kind != Disabled && scope.Some? && request.operation in {Indexing, TreeNavigation}
                  && exists v :: ComesTo(s, kind, Key(scope.value, request), read, v) &&
                                 Current(v, scope.value, request, read))
            && (r.Ok? && r.value.fromCache ==>
                  forall v :: ComesTo(s, kind, Key(scope.value, request), read, v) ==> r.value.response == v.payload)
  {
    if scope.Some? { LookupComesTo(s, t, kind, Key(scope.value, request), read, readFaults); }
    hide Get, Set, ComesTo;
  }

  lemma LookupComesTo(s: Stores, t: Tuning, kind: Kind, key: Key, now: real, f: Faults)
    requires Clean(f)
    ensures var got := Get(s, t, kind, key, now, now, f).1;
            && got.Found?
            && (got.value.Some? <==> exists v :: ComesTo(s, kind, key, now, v) && now < v.expiry)
            && (forall v :: ComesTo(s, kind, key, now, v) && now < v.expiry ==> got.value == Some(v))
  {
    var got := Get(s, t, kind, key, now, now, f).1;
    if got.Found? && got.value.Some? { assert ComesTo(s, kind, key, now, got.value.value); }
  }

  /** The later stores hold under this key what the earlier ones did. */
  ghost predicate SameUnder(key: Key, s: Stores, s2: Stores) {
    && (key in s.redis <==> key in s2.redis) && (key in s.redis ==> s2.redis[key] == s.redis[key])
    && (key in s.local <==> key in s2.local) && (key in s.local ==> s2.local[key] == s.local[key])
  }

  /**
   * An answer the model gave is served again to the same request until it expires: without a fallback only
   * while Redis keeps it, whole seconds, and after a write that the open circuit kept from Redis only while
   * Redis shows nothing older.
   */
  lemma AnswerIsServedAgain(s: Stores, t: Tuning, kind: Kind, request: Request, scope: Option<Scope>, read: real,
                            wrote: real, readFaults: Faults, writeFaults: Faults, inner: Request -> Response,
                            s2: Stores, read2: real, clean: Faults, inner2: Request -> Response, answered2: bool)
    requires kind != Disabled && scope.Some? && request.operation in {Indexing, TreeNavigation}
    requires Clean(writeFaults) && Clean(clean) && wrote <= read2 < wrote + t.lifetime
    requires var c := Complete(s, t, kind, request, scope, read, wrote, readFaults, writeFaults, inner, true);
             && c.result == Ok(Served(inner(request), false)) && SameUnder(Key(scope.value, request), c.stores, s2)
    requires kind.Redis? ==>
               var key := Key(scope.value, request);
               var reached := Get(s, t, kind, key, read, read, readFaults).0;
               var open := s2.breaker.openUntil.Some? && read2 < s2.breaker.openUntil.value;
               if Available(reached.breaker, wrote) then kind.fallback || (!open && read2 < wrote + Seconds(t.lifetime))
               else kind.fallback && (open || key !in s2.redis || s2.redis[key].dropAt <= read2)
    ensures Complete(s2, t, kind, request, scope, read2, read2, clean, clean, inner2, answered2).result ==
            Ok(Served(inner(request), true))
  {
    var key, response := Key(scope.value, request), inner(request);
    var c := Complete(s, t, kind, request, scope, read, wrote, readFaults, writeFaults, inner, true);
    var v := Value(FORMAT, scope.value, request, wrote, wrote + t.lifetime, response);
    var reached := Get(s, t, kind, key, read, read, readFaults).0;
    WrittenCleanly(reached, t, kind, key, v, wrote, writeFaults);
    assert c.stores == Set(reached, t, kind, key, v, wrote, writeFaults);
    hide Get, Set;
    assert ComesTo(s2, kind, key, read2, v);
    ServedExactly(s2, t, kind, request, scope, read2, read2, clean, clean, inner2, answered2);
    assert Current(v, scope.value, request, read2);
  }

  lemma WrittenCleanly(s: Stores, t: Tuning, kind: Kind, key: Key, v: Value, clock: real, f: Faults)
    requires Clean(f)
    ensures var after := Set(s, t, kind, key, v, clock, f);
            && (kind == LocalOnly || kind == Redis(true) ==> key in after.local && after.local[key] == Parsed(v))
            && (kind.Redis? && Available(s.breaker, clock) ==>
                  key in after.redis && after.redis[key] == Entry(Parsed(v), clock + Seconds(v.expiry - v.created)))
  {}

  /** Whole seconds, at least one. */
  lemma SecondsAre(span: real)
    ensures Seconds(span) >= 1.0 && (span >= 1.0 ==> Seconds(span) <= span < Seconds(span) + 1.0)
    ensures Seconds(span) == Seconds(span).Floor as real
  {}

  // ---------------------------------------------------------------- runs

  datatype Event =
    | Completes(request: Request, scope: Option<Scope>, read: real, wrote: real, readFaults: Faults,
                writeFaults: Faults, answered: bool)
    | WipesLocal
    | Purges(removed: set<Key>)
    | CorruptsLocal(key: Key, raw: Raw)
    | CorruptsRedis(key: Key, entry: Entry)

  /** Corruption may put any bytes anywhere, short of forging a record for a request the model never answered so. */
  ghost predicate Possible(e: Event, inner: Request -> Response) {
    (e.CorruptsLocal? ==> Honest(e.raw, inner)) && (e.CorruptsRedis? ==> Honest(e.entry.raw, inner))
  }

  function Next(s: Stores, t: Tuning, kind: Kind, e: Event, inner: Request -> Response): Stores {
    match e
    case Completes(request, scope, read, wrote, readFaults, writeFaults, answered) =>
      Complete(s, t, kind, request, scope, read, wrote, readFaults, writeFaults, inner, answered).stores
    case WipesLocal => s.(local := map[])
    case Purges(removed) => s.(redis := s.redis - removed)
    case CorruptsLocal(key, raw) => s.(local := s.local[key := raw])
    case CorruptsRedis(key, entry) => s.(redis := s.redis[key := entry])
  }

  ghost predicate StepAt(run: seq<Stores>, events: seq<Event>, t: Tuning, kind: Kind, inner: Request -> Response,
                         i: nat)
    requires i < |events| && |run| == |events| + 1
  {
    Possible(events[i], inner) && run[i+1] == Next(run[i], t, kind, events[i], inner)
  }

  ghost predicate Run(run: seq<Stores>, events: seq<Event>, t: Tuning, kind: Kind, inner: Request -> Response) {
    && |run| == |events| + 1 && run[0] == Stores(map[], map[], Breaker(0, None, 0))
    && forall i :: 0 <= i < |events| ==> StepAt(run, events, t, kind, inner, i)
  }

  lemma {:induction false} RunStaysHonest(run: seq<Stores>, events: seq<Event>, t: Tuning, kind: Kind,
                                          inner: Request -> Response, i: nat)
    requires Run(run, events, t, kind, inner) && i < |run|
    ensures AllHonest(run[i], inner)
  {
    if i > 0 {
      RunStaysHonest(run, events, t, kind, inner, i - 1);
      assert StepAt(run, events, t, kind, inner, i - 1);
      hide Complete;
      var s, e := run[i - 1], events[i - 1];
      if e.Completes? {
        CompleteIsTransparent(s, t, kind, e.request, e.scope, e.read, e.wrote, e.readFaults, e.writeFaults, inner,
                              e.answered);
      }
    }
  }

  /** What a completion step of a run hands to its caller. */
  function Reply(s: Stores, t: Tuning, kind: Kind, e: Event, inner: Request -> Response): Result<Served, string>
    requires e.Completes?
  {
    Complete(s, t, kind, e.request, e.scope, e.read, e.wrote, e.readFaults, e.writeFaults, inner, e.answered).result
  }

  /**
   * In every run, whatever the faults, corruption, expiry, refills and failed purges: each completion
   * returns what the uncached model returns, and fails only when the model does.
   */
  lemma MemoIsTransparent(run: seq<Stores>, events: seq<Event>, t: Tuning, kind: Kind, inner: Request -> Response,
                          i: nat)
    requires Run(run, events, t, kind, inner) && i < |events| && events[i].Completes?
    ensures var r := Reply(run[i], t, kind, events[i], inner);
            && (r.Ok? ==> r.value.response == inner(events[i].request)) && (events[i].answered ==> r.Ok?)
            && (r.Ok? && r.value.fromCache ==> events[i].request.operation != Synthesis)
  {
    var e := events[i];
    RunStaysHonest(run, events, t, kind, inner, i);
    CompleteIsTransparent(run[i], t, kind, e.request, e.scope, e.read, e.wrote, e.readFaults, e.writeFaults, inner,
                          e.answered);
  }

  // ---------------------------------------------------------------- expiry, refills, the breaker

  /** Every record anywhere in the stores. */
  ghost predicate Stored(s: Stores, v: Value) {
    (exists k :: k in s.redis && s.redis[k].raw == Parsed(v)) || (exists k :: k in s.local && s.local[k] == Parsed(v))
  }

  /** A lookup, refill included, creates no record: no expiry is ever extended. */
  lemma RefillKeepsExpiry(s: Stores, t: Tuning, kind: Kind, key: Key, now: real, clock: real, f: Faults, v: Value)
    requires Stored(Get(s, t, kind, key, now, clock, f).0, v)
    ensures Stored(s, v)
  {
    var after := Get(s, t, kind, key, now, clock, f).0;
    assert after.local == s.local;
    if k :| k in after.redis && after.redis[k].raw == Parsed(v) {
      if k in s.redis && s.redis[k] == after.redis[k] {
        assert s.redis[k].raw == Parsed(v);
      } else {
        assert k == key && key in s.local && s.local[key] == Parsed(v);
      }
    }
  }

  // ---------------------------------------------------------------- the circuit breaker over a run

  /** One operation on Redis: whether it succeeded, and when. */
  datatype Op = Op(ok: bool, clock: real)

  function FallbackOps(s: Stores, kind: Kind, key: Key, now: real, clock: real, f: Faults): seq<Op> {
    if kind == Redis(false) || f.localGet || LocalGet(s.local, key, now).None? || !Available(s.breaker, clock) then []
    else [Op(!f.redisSet, clock)]
  }

  /** The operations on Redis that a lookup performs. */
  function GetOps(s: Stores, t: Tuning, kind: Kind, key: Key, now: real, clock: real, f: Faults): seq<Op> {
    match kind
    case Disabled => []
    case LocalOnly => []
    case Redis(_) =>
      if !Available(s.breaker, clock) then FallbackOps(s, kind, key, now, clock, f)
      else if f.redisGet then
        [Op(false, clock)] + FallbackOps(s.(breaker := NoteFailure(s.breaker, t, clock)), kind, key, now, clock, f)
      else
        [Op(true, clock)] +
        (if Visible(s.redis, key, clock) then []
         else FallbackOps(s.(breaker := NoteSuccess(s.breaker)), kind, key, now, clock, f))
  }

  /** The operations on Redis that a write performs. */
  function SetOps(s: Stores, kind: Kind, clock: real, f: Faults): seq<Op> {
    if kind.Redis? && !(kind.fallback && f.localSet) && Available(s.breaker, clock) then [Op(!f.redisSet, clock)]
    else []
  }

  /** The operations on Redis that one step of a run performs. */
  function StepOps(s: Stores, t: Tuning, kind: Kind, e: Event): seq<Op> {
    if !e.Completes? || !Cacheable(kind, e.scope, e.request) then []
    else
      var key := Key(e.scope.value, e.request);
      var looked := Get(s, t, kind, key, e.read, e.read, e.readFaults);
      GetOps(s, t, kind, key, e.read, e.read, e.readFaults) +
      (if Serves(looked.1, e.scope.value, e.request, e.readFaults) || !e.answered then []
       else SetOps(looked.0, kind, e.wrote, e.writeFaults))
  }

  function RunOps(run: seq<Stores>, events: seq<Event>, t: Tuning, kind: Kind, i: nat): seq<Op>
    requires i <= |events| && |run| == |events| + 1
  {
    if i == 0 then [] else RunOps(run, events, t, kind, i - 1) + StepOps(run[i-1], t, kind, events[i-1])
  }

  /** How many operations have failed in a row at the end. */
  function Trailing(ops: seq<Op>): nat {
    if ops == [] || ops[|ops|-1].ok then 0 else 1 + Trailing(ops[..|ops|-1])
  }

  /** What the operations on Redis so far make of the breaker. */
  /** The operations that failed in all. */
  function Failures(ops: seq<Op>): nat {
    if ops == [] then 0 else Failures(ops[..|ops|-1]) + (if ops[|ops|-1].ok then 0 else 1)
  }

  ghost predicate Tracks(b: Breaker, t: Tuning, ops: seq<Op>) {
    && b.failures == Trailing(ops) && b.errors == Failures(ops)
    && (b.openUntil.Some? <==> Trailing(ops) >= 1 && Trailing(ops) >= t.threshold)
    && (b.openUntil.Some? ==> ops != [] && b.openUntil.value == ops[|ops|-1].clock + t.probe)
  }

  lemma TracksOne(b: Breaker, t: Tuning, ops: seq<Op>, op: Op)
    requires Tracks(b, t, ops)
    ensures Tracks(if op.ok then NoteSuccess(b) else NoteFailure(b, t, op.clock), t, ops + [op])
  {
    assert (ops + [op])[..|ops|] == ops;
  }

  lemma PutTracks(s: Stores, t: Tuning, key: Key, e: Entry, clock: real, f: Faults, ops: seq<Op>)
    requires Tracks(s.breaker, t, ops)
    ensures Tracks(RedisPut(s, t, key, e, clock, f).breaker, t, ops + [Op(!f.redisSet, clock)])
  {
    TracksOne(s.breaker, t, ops, Op(!f.redisSet, clock));
    hide Tracks;
  }

  lemma FallbackTracks(s: Stores, t: Tuning, kind: Kind, key: Key, now: real, clock: real, f: Faults, ops: seq<Op>)
    requires Tracks(s.breaker, t, ops)
    ensures Tracks(FallbackGet(s, t, kind, key, now, clock, f).0.breaker, t,
                   ops + FallbackOps(s, kind, key, now, clock, f))
  {
    assert ops + [] == ops;
    var v := LocalGet(s.local, key, now);
    if v.Some? { PutTracks(s, t, key, Entry(Parsed(v.value), clock + Seconds(v.value.expiry - now)), clock, f, ops); }
    hide Tracks, LocalGet, Seconds, RedisPut;
  }

  lemma GetTracks(s: Stores, t: Tuning, kind: Kind, key: Key, now: real, clock: real, f: Faults, ops: seq<Op>)
    requires Tracks(s.breaker, t, ops)
    ensures Tracks(Get(s, t, kind, key, now, clock, f).0.breaker, t, ops + GetOps(s, t, kind, key, now, clock, f))
  {
    assert ops + [] == ops;
    if kind.Redis? {
      if Available(s.breaker, clock) {
        GetTracksPrimary(s, t, kind, key, now, clock, f, ops);
      } else {
        FallbackTracks(s, t, kind, key, now, clock, f, ops);
      }
    }
    hide Tracks, FallbackGet, FallbackOps, Available, NoteFailure, NoteSuccess, Fresh, Visible;
  }

  /** A lookup that tries Redis first. */
  lemma GetTracksPrimary(s: Stores, t: Tuning, kind: Kind, key: Key, now: real, clock: real, f: Faults, ops: seq<Op>)
    requires Tracks(s.breaker, t, ops) && kind.Redis? && Available(s.breaker, clock)
    ensures Tracks(Get(s, t, kind, key, now, clock, f).0.breaker, t, ops + GetOps(s, t, kind, key, now, clock, f))
  {
    hide Tracks, FallbackGet, FallbackOps, Fresh, NoteFailure, NoteSuccess, Visible;
    var op := Op(!f.redisGet, clock);
    var next := s.(breaker := if op.ok then NoteSuccess(s.breaker) else NoteFailure(s.breaker, t, clock));
    var more := FallbackOps(next, kind, key, now, clock, f);
    TracksOne(s.breaker, t, ops, op);
    FallbackTracks(next, t, kind, key, now, clock, f, ops + [op]);
    assert ops + ([op] + more) == ops + [op] + more;
    assert [op] + [] == [op];
  }

  lemma SetTracks(s: Stores, t: Tuning, kind: Kind, key: Key, v: Value, clock: real, f: Faults, ops: seq<Op>)
    requires Tracks(s.breaker, t, ops)
    ensures Tracks(Set(s, t, kind, key, v, clock, f).breaker, t, ops + SetOps(s, kind, clock, f))
  {
    assert ops + [] == ops;
    PutTracks(s, t, key, Entry(Parsed(v), clock + Seconds(v.expiry - v.created)), clock, f, ops);
    var s1 := s.(local := s.local[key := Parsed(v)]);
    PutTracks(s1, t, key, Entry(Parsed(v), clock + Seconds(v.expiry - v.created)), clock, f, ops);
    hide Tracks, Seconds, RedisPut;
  }

  lemma StepTracks(s: Stores, t: Tuning, kind: Kind, e: Event, inner: Request -> Response, ops: seq<Op>)
    requires Tracks(s.breaker, t, ops)
    ensures Tracks(Next(s, t, kind, e, inner).breaker, t, ops + StepOps(s, t, kind, e))
  {
    hide Tracks, Get, Set, GetOps, SetOps, Serves;
    assert ops + [] == ops;
    if e.Completes? && Cacheable(kind, e.scope, e.request) {
      var key := Key(e.scope.value, e.request);
      var looked := Get(s, t, kind, key, e.read, e.read, e.readFaults);
      var v := Value(FORMAT, e.scope.value, e.request, e.wrote, e.wrote + t.lifetime, inner(e.request));
      GetTracks(s, t, kind, key, e.read, e.read, e.readFaults, ops);
      var got := GetOps(s, t, kind, key, e.read, e.read, e.readFaults);
      SetTracks(looked.0, t, kind, key, v, e.wrote, e.writeFaults, ops + got);
      assert ops + (got + SetOps(looked.0, kind, e.wrote, e.writeFaults)) ==
               ops + got + SetOps(looked.0, kind, e.wrote, e.writeFaults);
      assert ops + (got + []) == ops + got;
    }
  }

  /**
   * In every run the breaker counts the operations on Redis that have failed in a row, and the circuit
   * is open exactly when that count has reached the threshold, until the probe time after the last of them.
   */
  lemma {:induction false} BreakerCountsFailures(run: seq<Stores>, events: seq<Event>, t: Tuning, kind: Kind,
                                                 inner: Request -> Response, i: nat)
    requires Run(run, events, t, kind, inner) && i < |run|
    ensures |run| == |events| + 1 && Tracks(run[i].breaker, t, RunOps(run, events, t, kind, i))
  {
    hide Next, StepOps;
    if i > 0 {
      BreakerCountsFailures(run, events, t, kind, inner, i - 1);
      assert StepAt(run, events, t, kind, inner, i - 1);
      hide Tracks, Run;
      StepTracks(run[i - 1], t, kind, events[i - 1], inner, RunOps(run, events, t, kind, i - 1));
    }
  }

  /** The step does not reach `until`, and leaves Redis alone unless a completion touches it. */
  predicate Meanwhile(e: Event, until: real) {
    match e
    case Completes(_, _, read, wrote, _, _, _) => read < until && wrote < until
    case WipesLocal => true
    case CorruptsLocal(_, _) => true
    case Purges(_) => false
    case CorruptsRedis(_, _) => false
  }

  lemma ClosedStep(s: Stores, t: Tuning, kind: Kind, e: Event, inner: Request -> Response, until: real)
    requires s.breaker.openUntil == Some(until) && Meanwhile(e, until)
    ensures Next(s, t, kind, e, inner).redis == s.redis && Next(s, t, kind, e, inner).breaker == s.breaker
    ensures StepOps(s, t, kind, e) == []
  {
    if e.Completes? && Cacheable(kind, e.scope, e.request) {
      var key := Key(e.scope.value, e.request);
      var looked := Get(s, t, kind, key, e.read, e.read, e.readFaults);
      assert looked.0.redis == s.redis && looked.0.breaker == s.breaker;
    }
    hide Seconds, LocalGet;
  }

  /** From the opening of the circuit until its probe time, whatever is asked, Redis is neither read nor written. */
  lemma {:induction false} OpenCircuitSparesRedis(run: seq<Stores>, events: seq<Event>, t: Tuning, kind: Kind,
                                                  inner: Request -> Response, i: nat, j: nat, until: real)
    requires Run(run, events, t, kind, inner) && i <= j < |run| && |run| == |events| + 1
    requires run[i].breaker.openUntil == Some(until) && forall k :: i <= k < j ==> Meanwhile(events[k], until)
    ensures run[j].redis == run[i].redis && run[j].breaker == run[i].breaker
    ensures RunOps(run, events, t, kind, j) == RunOps(run, events, t, kind, i)
    decreases j
  {
    hide Next, StepOps;
    if i < j {
      OpenCircuitSparesRedis(run, events, t, kind, inner, i, j - 1, until);
      assert StepAt(run, events, t, kind, inner, j - 1);
      ClosedStep(run[j - 1], t, kind, events[j - 1], inner, until);
    }
  }

  lemma FallbackKeepsBreaker(s: Stores, t: Tuning, kind: Kind, key: Key, now: real, clock: real, f: Faults)
    requires BreakerOk(s.breaker, t)
    ensures BreakerOk(FallbackGet(s, t, kind, key, now, clock, f).0.breaker, t)
  {
    hide LocalGet, Seconds;
  }

  lemma GetKeepsBreaker(s: Stores, t: Tuning, kind: Kind, key: Key, now: real, clock: real, f: Faults)
    requires BreakerOk(s.breaker, t)
    ensures BreakerOk(Get(s, t, kind, key, now, clock, f).0.breaker, t)
  {
    FallbackKeepsBreaker(s, t, kind, key, now, clock, f);
    FallbackKeepsBreaker(s.(breaker := NoteFailure(s.breaker, t, clock)), t, kind, key, now, clock, f);
    FallbackKeepsBreaker(s.(breaker := NoteSuccess(s.breaker)), t, kind, key, now, clock, f);
    hide FallbackGet;
  }

  lemma SetKeepsBreaker(s: Stores, t: Tuning, kind: Kind, key: Key, v: Value, clock: real, f: Faults)
    requires BreakerOk(s.breaker, t)
    ensures BreakerOk(Set(s, t, kind, key, v, clock, f).breaker, t)
  {
    hide Seconds;
  }

  lemma AnswerKeepsBreaker(s: Stores, t: Tuning, kind: Kind, request: Request, scope: Option<Scope>, read: real,
                           wrote: real,
                           readFaults: Faults, writeFaults: Faults, inner: Request -> Response, answered: bool)
    ensures BreakerOk(s.breaker, t) ==>
              BreakerOk(Complete(s, t, kind, request, scope, read, wrote, readFaults, writeFaults, inner,
                                 answered).stores.breaker, t)
  {
    if BreakerOk(s.breaker, t) && Cacheable(kind, scope, request) {
      var key := Key(scope.value, request);
      GetKeepsBreaker(s, t, kind, key, read, read, readFaults);
      SetKeepsBreaker(Get(s, t, kind, key, read, read, readFaults).0, t, kind, key,
                      Value(FORMAT, scope.value, request, wrote, wrote + t.lifetime, inner(request)),
                      wrote, writeFaults);
    }
    hide Get, Set, BreakerOk;
  }

  /** What a lookup promises, whatever fails. */
  lemma LookupFacts(s: Stores, t: Tuning, kind: Kind, key: Key, now: real, clock: real, f: Faults)
    ensures var (after, got) := Get(s, t, kind, key, now, clock, f);
            && (forall v :: Stored(after, v) ==> Stored(s, v)) && after.local == s.local
            && (got.Found? && got.value.Some? ==> got.value.value.expiry > now && Stored(s, got.value.value))
            && (!Available(s.breaker, clock) ==> after.redis == s.redis && after.breaker == s.breaker)
            && (BreakerOk(s.breaker, t) ==> BreakerOk(after.breaker, t))
            && (forall inner :: AllHonest(s, inner) ==> AllHonest(after, inner))
  {
    var after, got := Get(s, t, kind, key, now, clock, f).0, Get(s, t, kind, key, now, clock, f).1;
    forall v | Stored(after, v) ensures Stored(s, v) { RefillKeepsExpiry(s, t, kind, key, now, clock, f, v); }
    forall inner | AllHonest(s, inner)
      ensures AllHonest(after, inner) { GetKeepsHonest(s, t, kind, key, now, clock, f, inner); }
    if BreakerOk(s.breaker, t) { GetKeepsBreaker(s, t, kind, key, now, clock, f); }
    FoundIsStored(s, t, kind, key, now, clock, f);
    hide AllHonest, BreakerOk, Stored;
  }

  /** What a lookup leaves in Redis was there, or is its own record, kept no longer than it has left. */
  lemma RefillLasts(s: Stores, t: Tuning, kind: Kind, key: Key, now: real, clock: real, f: Faults)
    ensures var (after, got) := Get(s, t, kind, key, now, clock, f);
            && after.redis - {key} == s.redis - {key}
            && (key in after.redis && (key !in s.redis || after.redis[key] != s.redis[key]) ==>
                  && got.Found? && got.value.Some?
                  && after.redis[key] == Entry(Parsed(got.value.value), clock + Seconds(got.value.value.expiry - now)))
            && (key in s.redis ==> key in after.redis)
  {
    hide Seconds;
  }

  lemma FoundIsStored(s: Stores, t: Tuning, kind: Kind, key: Key, now: real, clock: real, f: Faults)
    ensures var got := Get(s, t, kind, key, now, clock, f).1;
            got.Found? && got.value.Some? ==> got.value.value.expiry > now && Stored(s, got.value.value)
  {
    var got := Get(s, t, kind, key, now, clock, f).1;
    if got.Found? && got.value.Some? {
      assert (key in s.redis && s.redis[key].raw == Parsed(got.value.value)) ||
             (key in s.local && s.local[key] == Parsed(got.value.value));
    }
  }

  /** What a write promises, whatever fails. */
  lemma WriteFacts(s: Stores, t: Tuning, kind: Kind, key: Key, v: Value, clock: real, f: Faults)
    ensures var after := Set(s, t, kind, key, v, clock, f);
            && (forall w :: Stored(after, w) ==> w == v || Stored(s, w))
            && after.redis - {key} == s.redis - {key} && after.local - {key} == s.local - {key}
            && (!Available(s.breaker, clock) ==> after.redis == s.redis && after.breaker == s.breaker)
            && (kind == Redis(true) && !f.localSet ==> key in after.local && after.local[key] == Parsed(v))
            && (BreakerOk(s.breaker, t) ==> BreakerOk(after.breaker, t))
            && (forall inner :: AllHonest(s, inner) && Honest(Parsed(v), inner) ==> AllHonest(after, inner))
  {
    var after := Set(s, t, kind, key, v, clock, f);
    forall inner | AllHonest(s, inner) && Honest(Parsed(v), inner) ensures AllHonest(after, inner) {
      SetKeepsHonest(s, t, kind, key, v, clock, f, inner);
    }
    if BreakerOk(s.breaker, t) { SetKeepsBreaker(s, t, kind, key, v, clock, f); }
    forall w | Stored(after, w) ensures w == v || Stored(s, w) { WrittenOnly(s, t, kind, key, v, clock, f, w); }
    hide AllHonest, BreakerOk, Stored, Seconds;
  }

  lemma WrittenOnly(s: Stores, t: Tuning, kind: Kind, key: Key, v: Value, clock: real, f: Faults, w: Value)
    requires Stored(Set(s, t, kind, key, v, clock, f), w)
    ensures w == v || Stored(s, w)
  {
    var after := Set(s, t, kind, key, v, clock, f);
    if k :| k in after.redis && after.redis[k].raw == Parsed(w) {
      if k != key { assert k in s.redis && s.redis[k] == after.redis[k]; }
    } else {
      var k :| k in after.local && after.local[k] == Parsed(w);
      if k != key { assert k in s.local && s.local[k] == after.local[k]; }
    }
  }

  // ---------------------------------------------------------------- the object

  class RedisMemoCache {
    var redis: map<Key, Entry>
    var local: map<Key, Raw>
    var consecutiveFailures: nat
    var circuitOpenUntil: Option<real>
    var redisErrors: nat
    const fallback: bool
    const tuning: Tuning

    function Now(): Stores
      reads this
    {
      Stores(redis, local, Breaker(consecutiveFailures, circuitOpenUntil, redisErrors))
    }

    /** Nothing stored lies about what `inner` answers, and the breaker is open exactly when it should be. */
    ghost predicate Valid(inner: Request -> Response)
      reads this
    {
      AllHonest(Now(), inner) && BreakerOk(Now().breaker, tuning)
    }

    constructor (hasFallback: bool, t: Tuning)
      ensures Now() == Stores(map[], map[], Breaker(0, None, 0)) && fallback == hasFallback && tuning == t
      ensures forall inner :: Valid(inner)
    {
      redis, local, consecutiveFailures, circuitOpenUntil, redisErrors := map[], map[], 0, None, 0;
      fallback, tuning := hasFallback, t;
    }

    method MarkFailure(clock: real)
      modifies this`consecutiveFailures, this`circuitOpenUntil, this`redisErrors
      ensures Now() == old(Now()).(breaker := NoteFailure(old(Now()).breaker, tuning, clock))
    {
      redisErrors, consecutiveFailures := redisErrors + 1, consecutiveFailures + 1;
      if consecutiveFailures >= tuning.threshold {
        circuitOpenUntil := Some(clock + tuning.probe);
      }
    }

    method MarkSuccess()
      modifies this`consecutiveFailures, this`circuitOpenUntil
      ensures Now() == old(Now()).(breaker := NoteSuccess(old(Now()).breaker))
    {
      consecutiveFailures, circuitOpenUntil := 0, None;
    }

    method Store(key: Key, e: Entry, clock: real, f: Faults)
      modifies this
      ensures Now() == RedisPut(old(Now()), tuning, key, e, clock, f)
    {
      if f.redisSet {
        if f.landed {
          redis := redis[key := e];
        }
        MarkFailure(clock);
      } else {
        redis := redis[key := e];
        MarkSuccess();
      }
    }

    /**
     * A lookup, with fallback and refill.  What it finds has not expired; it stores nothing new, keeps the
     * local store as it is, leaves Redis alone while the circuit is open, and keeps the object valid.
     */
    method Lookup(key: Key, now: real, clock: real, f: Faults) returns (got: Got)
      modifies this
      ensures (Now(), got) == Get(old(Now()), tuning, Redis(fallback), key, now, clock, f)
      ensures forall inner :: old(Valid(inner)) ==> Valid(inner)
      ensures got.Found? && got.value.Some? ==> got.value.value.expiry > now && old(Stored(Now(), got.value.value))
      ensures (forall v :: Stored(Now(), v) ==> old(Stored(Now(), v))) && local == old(local)
      ensures old(!Available(Now().breaker, clock)) ==> redis == old(redis) && Now().breaker == old(Now().breaker)
    {
      LookupFacts(Now(), tuning, Redis(fallback), key, now, clock, f);
      hide Stored, AllHonest, BreakerOk, Seconds;
      if circuitOpenUntil.None? || clock >= circuitOpenUntil.value {
        if f.redisGet {
          MarkFailure(clock);
        } else {
          MarkSuccess();
          if key in redis && clock < redis[key].dropAt {
            return Found(Fresh(redis[key].raw, now));
          }
        }
      }
      if !fallback {
        return Found(None);
      }
      if f.localGet {
        return Failed;
      }
      var value := LocalGet(local, key, now);
      if value.None? {
        return Found(None);
      }
      var remaining := value.value.expiry - now;
      if remaining > 0.0 && (circuitOpenUntil.None? || clock >= circuitOpenUntil.value) {
        Store(key, Entry(Parsed(value.value), clock + Seconds(remaining)), clock, f);
      }
      return Found(value);
    }

    /**
     * A write to the fallback and the primary.  It stores this record only, under this key only, in the
     * primary unless the circuit is open; an honest record keeps the object valid.
     */
    method Write(key: Key, v: Value, clock: real, f: Faults)
      modifies this
      ensures Now() == Set(old(Now()), tuning, Redis(fallback), key, v, clock, f)
      ensures forall inner :: old(Valid(inner)) && Honest(Parsed(v), inner) ==> Valid(inner)
      ensures forall w :: Stored(Now(), w) ==> w == v || old(Stored(Now(), w))
      ensures redis - {key} == old(redis) - {key} && local - {key} == old(local) - {key}
      ensures old(!Available(Now().breaker, clock)) ==> redis == old(redis) && Now().breaker == old(Now().breaker)
      ensures fallback && !f.localSet ==> key in local && local[key] == Parsed(v)
      ensures !fallback || (f.localSet && !f.landed) ==> local == old(local)
      ensures old(Available(Now().breaker, clock)) && !f.redisSet && !(fallback && f.localSet) ==>
                key in redis && redis[key] == Entry(Parsed(v), clock + Seconds(v.expiry - v.created))
    {
      WriteFacts(Now(), tuning, Redis(fallback), key, v, clock, f);
      if fallback {
        if !f.localSet || f.landed {
          local := local[key := Parsed(v)];
        }
        if f.localSet {
          return;
        }
      }
      if circuitOpenUntil.None? || clock >= circuitOpenUntil.value {
        Store(key, Entry(Parsed(v), clock + Seconds(v.expiry - v.created)), clock, f);
      }
    }

    /**
     * `MemoizedProvider.complete` over this cache, with the model as a deterministic function: whatever
     * fails, it answers as the model would, and only the model's own failure is one of its own.
     */
    method Answer(request: Request, scope: Option<Scope>, read: real, wrote: real, readFaults: Faults,
                  writeFaults: Faults, inner: Request -> Response, answered: bool) returns (r: Result<Served, string>)
      modifies this
      ensures Completed(Now(), r) == Complete(old(Now()), tuning, Redis(fallback), request, scope, read, wrote,
                                              readFaults, writeFaults, inner, answered)
      ensures old(Valid(inner)) ==>
                Valid(inner) && (r.Ok? ==> r.value.response == inner(request)) && (answered ==> r.Ok?)
      ensures r.Err? ==> !answered
    {
      ghost var before := Now();
      if AllHonest(before, inner) {
        CompleteIsTransparent(before, tuning, Redis(fallback), request, scope, read, wrote, readFaults, writeFaults,
                              inner, answered);
      }
      AnswerKeepsBreaker(before, tuning, Redis(fallback), request, scope, read, wrote, readFaults, writeFaults, inner,
                         answered);
      hide Get, Set, AllHonest, BreakerOk;
      var cacheable := scope.Some? && (request.operation == Indexing || request.operation == TreeNavigation);
      if cacheable {
        var got := Lookup(Key(scope.value, request), read, read, readFaults);
        if !readFaults.late && got.Found? && got.value.Some? && got.value.value.format == FORMAT
           && got.value.value.scope == scope.value && got.value.value.request == request {
          return Ok(Served(got.value.value.payload, true));
        }
      }
      if !answered {
        return Err("provider error");
      }
      var response := inner(request);
      if cacheable {
        Write(Key(scope.value, request), Value(FORMAT, scope.value, request, wrote, wrote + tuning.lifetime, response),
              wrote, writeFaults);
      }
      return Ok(Served(response, false));
    }
  }
}

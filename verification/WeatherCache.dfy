/** The forecast cache of the dashboard's weather page, under interleaved lookups. */
module WeatherCache {
  import opened Options

  const TTL := 300.0
  const TYPE_KEY := "_c300x_forecast_type"

  type Entity = string
  type Revision = string

  datatype Kind = Hourly | Daily

  function KindName(k: Kind): string { if k == Hourly then "hourly" else "daily" }

  datatype Item = Record(fields: map<string, string>) | Scalar(text: string)

  /** What the forecast service does: it rejects the call, fails, or answers with items, perhaps none. */
  datatype Response = Rejected | Failed | Items(items: seq<Item>)

  type Service = (Entity, Kind, Revision) -> Response

  datatype Entry = Entry(expires: real, revision: Revision, forecast: seq<Item>)

  type Cache = map<(Entity, Kind), Entry>

  function Tag(x: Item, k: Kind): Item {
    match x
    case Record(fields) => Record(fields[TYPE_KEY := KindName(k)])
    case Scalar(_) => x
  }

  /** `_tag_forecast_items` */
  function TagAll(items: seq<Item>, k: Kind): (r: seq<Item>)
    ensures |r| == |items|
  {
    seq(|items|, i requires 0 <= i < |items| => Tag(items[i], k))
  }

  predicate Answers(r: Response) { r.Items? && r.items != [] }

  /** Hourly, then daily, each answered for a revision of its own. */
  function Mixed(service: Service, e: Entity, hourlyFor: Revision, dailyFor: Revision): Option<seq<Item>> {
    var hourly, daily := service(e, Hourly, hourlyFor), service(e, Daily, dailyFor);
    if hourly.Rejected? then None
    else if Answers(hourly) then Some(TagAll(hourly.items, Hourly))
    else if Answers(daily) then Some(TagAll(daily.items, Daily))
    else None
  }

  /** The lookup without a cache, of a state that stays what it is. */
  function Uncached(service: Service, e: Entity, rev: Revision): Option<seq<Item>> { Mixed(service, e, rev, rev) }

  /** `_cached_weather_forecast` */
  function Cached(cache: Cache, now: real, e: Entity, k: Kind, rev: Revision): Option<seq<Item>> {
    if (e, k) !in cache then None
    else
      var entry := cache[(e, k)];
      if entry.revision != rev || entry.expires < now then None else Some(entry.forecast)
  }

  // ---------------------------------------------------------------- lookups, one step per await

  datatype Lookup = Lookup(entity: Entity, revision: Revision, kind: Kind)

  /** A lookup whose service call is pending: the revision its hourly call was answered for, its own before that,
      and the revisions the entity has had since the pending call was made. */
  datatype Wait = Wait(lookup: Lookup, hourlyFor: Revision, live: set<Revision>)

  /** A finished lookup, with the revisions its hourly and daily forecast were answered for, its own where the
      service was not asked; the cache entry that served it if one did; and the time. */
  datatype Answer = Answer(
    entity: Entity, revision: Revision, hourlyFor: Revision, dailyFor: Revision,
    result: Option<seq<Item>>, served: Option<Entry>, at: real)

  /** The cache, the revision each of its entries was answered for, and the revisions of the entities. */
  datatype State = State(
    cache: Cache, origin: map<(Entity, Kind), Revision>, now: real, current: map<Entity, Revision>,
    waiting: map<nat, Wait>, answers: seq<Answer>)

  const INITIAL := State(map[], map[], 0.0, map[], map[], [])

  datatype Event =
    | Changes(entity: Entity, revision: Revision)
    | Begins(id: nat, entity: Entity)
    | Replies(id: nat, seen: Revision)
    | TimePasses(elapsed: real)

  /** The service answers for any revision the entity has had since it was called. */
  predicate Enabled(s: State, e: Event) {
    match e
    case Changes(_, _) => true
    case Begins(id, _) => id !in s.waiting
    case Replies(id, seen) => id in s.waiting && seen in s.waiting[id].live
    case TimePasses(d) => d >= 0.0
  }

  /** `_weather_state_revision`: empty for an entity without a state. */
  function RevisionOf(current: map<Entity, Revision>, e: Entity): Revision { if e in current then current[e] else "" }

  function Finish(
    s: State, id: nat, l: Lookup, hourlyFor: Revision, dailyFor: Revision, result: Option<seq<Item>>, served: Option<Entry>)
    : State
  {
    s.(waiting := s.waiting - {id},
       answers := s.answers + [Answer(l.entity, l.revision, hourlyFor, dailyFor, result, served, s.now)])
  }

  function OriginOf(s: State, l: Lookup): Revision {
    if (l.entity, l.kind) in s.origin then s.origin[(l.entity, l.kind)] else l.revision
  }

  /** The part of the loop before the service is called: serve from the cache or wait for the service. */
  function Ask(s: State, id: nat, l: Lookup, hourlyFor: Revision): State {
    var hit := Cached(s.cache, s.now, l.entity, l.kind, l.revision);
    if hit.Some? then
      var served := Some(s.cache[(l.entity, l.kind)]);
      if l.kind == Hourly then Finish(s, id, l, OriginOf(s, l), l.revision, hit, served)
      else Finish(s, id, l, hourlyFor, OriginOf(s, l), hit, served)
    else s.(waiting := s.waiting[id := Wait(l, hourlyFor, {RevisionOf(s.current, l.entity)})])
  }

  /** `_store_weather_forecast_cache` */
  function Store(s: State, l: Lookup, seen: Revision, forecast: seq<Item>): State {
    s.(cache := s.cache[(l.entity, l.kind) := Entry(s.now + TTL, l.revision, forecast)],
       origin := s.origin[(l.entity, l.kind) := seen])
  }

  function Resume(service: Service, s: State, id: nat, seen: Revision): State
    requires id in s.waiting
  {
    var l := s.waiting[id].lookup;
    var hourlyFor := if l.kind == Hourly then seen else s.waiting[id].hourlyFor;
    var dailyFor := if l.kind == Daily then seen else l.revision;
    var r := service(l.entity, l.kind, seen);
    if r.Rejected? then Finish(s, id, l, hourlyFor, dailyFor, None, None)
    else if Answers(r) then
      var tagged := TagAll(r.items, l.kind);
      Finish(Store(s, l, seen, tagged), id, l, hourlyFor, dailyFor, Some(tagged), None)
    else if l.kind == Hourly then Ask(s, id, l.(kind := Daily), seen)
    else Finish(s, id, l, hourlyFor, dailyFor, None, None)
  }

  /** The entity has another state; calls that are pending may be answered for it. */
  function Change(s: State, entity: Entity, revision: Revision): State {
    s.(current := s.current[entity := revision],
       waiting := map id | id in s.waiting ::
         if s.waiting[id].lookup.entity == entity then s.waiting[id].(live := s.waiting[id].live + {revision})
         else s.waiting[id])
  }

  function Apply(service: Service, s: State, e: Event): State
    requires Enabled(s, e)
  {
    match e
    case Changes(entity, revision) => Change(s, entity, revision)
    case Begins(id, entity) =>
      var revision := RevisionOf(s.current, entity);
      Ask(s, id, Lookup(entity, revision, Hourly), revision)
    case Replies(id, seen) => Resume(service, s, id, seen)
    case TimePasses(d) => s.(now := s.now + d)
  }

  class ForecastCache {
    var cache: Cache
    var now: real
    ghost var origin: map<(Entity, Kind), Revision>
    ghost var current: map<Entity, Revision>
    ghost var waiting: map<nat, Wait>
    ghost var answers: seq<Answer>

    ghost function Now(): State
      reads this
    {
      State(cache, origin, now, current, waiting, answers)
    }

    constructor ()
      ensures Now() == INITIAL
    {
      cache, now, origin, current, waiting, answers := map[], 0.0, map[], map[], map[], [];
    }

    method CachedForecast(l: Lookup) returns (r: Option<seq<Item>>)
      ensures r == Cached(cache, now, l.entity, l.kind, l.revision)
    {
      if (l.entity, l.kind) !in cache { return None; }
      var entry := cache[(l.entity, l.kind)];
      if entry.revision != l.revision { return None; }
      if entry.expires < now { return None; }
      r := Some(entry.forecast);
    }

    /** From the start of one round of the loop to its await, or to the end of the lookup. */
    method AskFor(id: nat, l: Lookup, ghost hourlyFor: Revision) returns (done: bool, r: Option<seq<Item>>)
      modifies this
      ensures Now() == Ask(old(Now()), id, l, hourlyFor)
      ensures done == (id !in waiting)
      ensures done ==> r == answers[|answers| - 1].result
    {
      ghost var after := Ask(Now(), id, l, hourlyFor);
      r := CachedForecast(l);
      done := r.Some?;
      waiting, answers := after.waiting, after.answers;
    }

    /** From the service's reply to the next await, or to the end of the lookup. */
    method OnReply(id: nat, l: Lookup, response: Response, ghost service: Service, ghost seen: Revision)
      returns (done: bool, r: Option<seq<Item>>)
      requires id in waiting && waiting[id].lookup == l && response == service(l.entity, l.kind, seen)
      modifies this
      ensures Now() == Resume(service, old(Now()), id, seen)
      ensures done == (id !in waiting)
      ensures done ==> r == answers[|answers| - 1].result
    {
      ghost var after := Resume(service, Now(), id, seen);
      if response.Items? && response.items != [] {
        var tagged := TagAll(response.items, l.kind);
        cache := cache[(l.entity, l.kind) := Entry(now + TTL, l.revision, tagged)];
        done, r := true, Some(tagged);
      } else if !response.Rejected? && l.kind == Hourly {
        done, r := AskFor(id, l.(kind := Daily), seen);
        return;
      } else {
        done, r := true, None;
      }
      origin, waiting, answers := after.origin, after.waiting, after.answers;
    }
  }

  // ---------------------------------------------------------------- where every answer comes from

  /** The service passes from hourly on to daily. */
  predicate FallsThrough(service: Service, e: Entity, rev: Revision) {
    var hourly := service(e, Hourly, rev); !hourly.Rejected? && !Answers(hourly)
  }

  predicate EntryIsSound(service: Service, s: State, e: Entity, k: Kind)
    requires (e, k) in s.cache
  {
    (e, k) in s.origin && s.cache[(e, k)].expires <= s.now + 300.0 &&
    var r := service(e, k, s.origin[(e, k)]); Answers(r) && s.cache[(e, k)].forecast == TagAll(r.items, k)
  }

  /** The answer is the one of the calls it came from, and what served it has its revision and is young enough. */
  predicate AnswerIsSound(service: Service, a: Answer) {
    a.result == Mixed(service, a.entity, a.hourlyFor, a.dailyFor) &&
    (a.served.Some? ==>
      a.served.value.revision == a.revision && 0.0 <= a.at - (a.served.value.expires - 300.0) <= 300.0)
  }

  ghost predicate Inv(service: Service, s: State) {
    (forall e, k :: (e, k) in s.cache ==> EntryIsSound(service, s, e, k)) &&
    (forall id :: id in s.waiting && s.waiting[id].lookup.kind == Daily ==>
      FallsThrough(service, s.waiting[id].lookup.entity, s.waiting[id].hourlyFor)) &&
    (forall i :: 0 <= i < |s.answers| ==> AnswerIsSound(service, s.answers[i]))
  }

  lemma AskKeepsInv(service: Service, s: State, id: nat, l: Lookup, hourlyFor: Revision)
    requires Inv(service, s) && (l.kind == Daily ==> FallsThrough(service, l.entity, hourlyFor))
    ensures Inv(service, Ask(s, id, l, hourlyFor))
  {
    var s' := Ask(s, id, l, hourlyFor);
    if Cached(s.cache, s.now, l.entity, l.kind, l.revision).Some? { assert EntryIsSound(service, s, l.entity, l.kind); }
    forall e, k | (e, k) in s'.cache ensures EntryIsSound(service, s', e, k) { assert EntryIsSound(service, s, e, k); }
  }

  lemma ResumeKeepsInv(service: Service, s: State, id: nat, seen: Revision)
    requires Inv(service, s) && id in s.waiting
    ensures Inv(service, Resume(service, s, id, seen))
  {
    var l := s.waiting[id].lookup;
    var r := service(l.entity, l.kind, seen);
    if !r.Rejected? && !Answers(r) && l.kind == Hourly {
      AskKeepsInv(service, s, id, l.(kind := Daily), seen);
    } else {
      var s' := Resume(service, s, id, seen);
      forall e, k | (e, k) in s'.cache ensures EntryIsSound(service, s', e, k) {
        if (e, k) != (l.entity, l.kind) || !Answers(r) { assert EntryIsSound(service, s, e, k); }
      }
    }
  }

  lemma StepKeepsInv(service: Service, s: State, e: Event)
    requires Inv(service, s) && Enabled(s, e)
    ensures Inv(service, Apply(service, s, e))
  {
    match e
    case Begins(id, entity) =>
      var revision := RevisionOf(s.current, entity);
      AskKeepsInv(service, s, id, Lookup(entity, revision, Hourly), revision);
    case Replies(id, seen) => ResumeKeepsInv(service, s, id, seen);
    case _ =>
      var s' := Apply(service, s, e);
      forall x, k | (x, k) in s'.cache ensures EntryIsSound(service, s', x, k) { assert EntryIsSound(service, s, x, k); }
  }

  predicate Possible(service: Service, s: State, events: seq<Event>)
    decreases |events|
  {
    events == [] || (Enabled(s, events[0]) && Possible(service, Apply(service, s, events[0]), events[1..]))
  }

  function Run(service: Service, s: State, events: seq<Event>): State
    requires Possible(service, s, events)
    decreases |events|
  {
    if events == [] then s else Run(service, Apply(service, s, events[0]), events[1..])
  }

  lemma {:induction false} RunKeepsInv(service: Service, s: State, events: seq<Event>)
    requires Inv(service, s) && Possible(service, s, events)
    ensures Inv(service, Run(service, s, events))
    decreases |events|
  {
    hide Inv, Apply;
    if events != [] {
      StepKeepsInv(service, s, events[0]);
      RunKeepsInv(service, Apply(service, s, events[0]), events[1..]);
    }
  }

  // ---------------------------------------------------------------- when an answer mixes revisions

  predicate IsForeign(a: Answer) { a.hourlyFor != a.revision || a.dailyFor != a.revision }

  /** The service answers for another revision than the one the lookup began with. */
  predicate ForeignReply(s: State, e: Event) {
    e.Replies? && e.id in s.waiting && e.seen != s.waiting[e.id].lookup.revision
  }

  predicate ForeignIn(service: Service, s: State, events: seq<Event>)
    requires Possible(service, s, events)
    decreases |events|
  {
    events != [] && (ForeignReply(s, events[0]) || ForeignIn(service, Apply(service, s, events[0]), events[1..]))
  }

  ghost predicate ForeignAnswer(s: State) { exists i :: 0 <= i < |s.answers| && IsForeign(s.answers[i]) }

  ghost predicate ForeignWait(s: State) {
    exists id :: id in s.waiting && s.waiting[id].hourlyFor != s.waiting[id].lookup.revision
  }

  /** Some lookup, finished or pending, has been given a forecast of another revision than its own. */
  ghost predicate Mixes(s: State) { ForeignAnswer(s) || ForeignWait(s) }

  /** An entry answered for another revision than its key's came with an answer that was; before the hourly reply a
      lookup has no other revision than its own. */
  ghost predicate OriginsKnown(s: State) {
    s.origin.Keys == s.cache.Keys &&
    (forall x :: x in s.cache && s.origin[x] != s.cache[x].revision ==> ForeignAnswer(s)) &&
    forall id :: id in s.waiting && s.waiting[id].lookup.kind == Hourly ==>
      s.waiting[id].hourlyFor == s.waiting[id].lookup.revision
  }

  lemma AnswersGrow(s: State, s': State, a: Answer)
    requires s'.answers == s.answers + [a]
    ensures ForeignAnswer(s') <==> ForeignAnswer(s) || IsForeign(a)
  {
    if ForeignAnswer(s) {
      var i :| 0 <= i < |s.answers| && IsForeign(s.answers[i]);
      assert s'.answers[i] == s.answers[i];
    }
    if IsForeign(a) { assert s'.answers[|s.answers|] == a; }
  }

  /** A lookup asks; what its hourly call was answered for, if it was pending, has not been another revision. */
  lemma AskMixes(s: State, id: nat, l: Lookup, hourlyFor: Revision)
    requires OriginsKnown(s) && (l.kind == Hourly ==> hourlyFor == l.revision)
    requires id in s.waiting ==> s.waiting[id].hourlyFor == s.waiting[id].lookup.revision
    ensures var s' := Ask(s, id, l, hourlyFor);
      OriginsKnown(s') && (Mixes(s') <==> Mixes(s) || hourlyFor != l.revision)
  {
    var s' := Ask(s, id, l, hourlyFor);
    if Cached(s.cache, s.now, l.entity, l.kind, l.revision).Some? {
      assert (l.entity, l.kind) in s.cache;
      AnswersGrow(s, s', s'.answers[|s.answers|]);
      FinishedWaits(s, s', id);
    } else {
      assert ForeignAnswer(s') <==> ForeignAnswer(s);
      RenewedWaits(s, s', id);
    }
  }

  lemma FinishedWaits(s: State, s': State, id: nat)
    requires s'.waiting == s.waiting - {id}
    ensures ForeignWait(s) <==>
      ForeignWait(s') || (id in s.waiting && s.waiting[id].hourlyFor != s.waiting[id].lookup.revision)
  {
    if ForeignWait(s) {
      var k :| k in s.waiting && s.waiting[k].hourlyFor != s.waiting[k].lookup.revision;
      if k != id { assert s'.waiting[k] == s.waiting[k]; }
    }
  }

  lemma RenewedWaits(s: State, s': State, id: nat)
    requires id in s'.waiting && s'.waiting == s.waiting[id := s'.waiting[id]]
    requires id in s.waiting ==> s.waiting[id].hourlyFor == s.waiting[id].lookup.revision
    ensures ForeignWait(s') <==> ForeignWait(s) || s'.waiting[id].hourlyFor != s'.waiting[id].lookup.revision
  {
    if ForeignWait(s) {
      var k :| k in s.waiting && s.waiting[k].hourlyFor != s.waiting[k].lookup.revision;
      assert s'.waiting[k] == s.waiting[k];
    }
  }

  lemma ResumeMixes(service: Service, s: State, id: nat, seen: Revision)
    requires OriginsKnown(s) && id in s.waiting
    ensures var s' := Resume(service, s, id, seen);
      OriginsKnown(s') && (Mixes(s') <==> Mixes(s) || seen != s.waiting[id].lookup.revision)
  {
    var l := s.waiting[id].lookup;
    var r := service(l.entity, l.kind, seen);
    if !r.Rejected? && !Answers(r) && l.kind == Hourly {
      AskMixes(s, id, l.(kind := Daily), seen);
    } else {
      var s' := Resume(service, s, id, seen);
      AnswersGrow(s, s', s'.answers[|s.answers|]);
      FinishedWaits(s, s', id);
      hide ForeignAnswer, ForeignWait;
    }
  }

  lemma ChangeMixes(s: State, entity: Entity, revision: Revision)
    requires OriginsKnown(s)
    ensures OriginsKnown(Change(s, entity, revision)) && (Mixes(Change(s, entity, revision)) <==> Mixes(s))
  {
    var s' := Change(s, entity, revision);
    assert ForeignAnswer(s') <==> ForeignAnswer(s);
    if ForeignWait(s) {
      var k :| k in s.waiting && s.waiting[k].hourlyFor != s.waiting[k].lookup.revision;
      assert s'.waiting[k].hourlyFor == s.waiting[k].hourlyFor;
    }
  }

  lemma StepMixes(service: Service, s: State, e: Event)
    requires OriginsKnown(s) && Enabled(s, e)
    ensures OriginsKnown(Apply(service, s, e))
    ensures Mixes(Apply(service, s, e)) <==> Mixes(s) || ForeignReply(s, e)
  {
    hide Ask, Resume, Change, OriginsKnown, Mixes;
    match e
    case Changes(entity, revision) => ChangeMixes(s, entity, revision);
    case Begins(id, entity) =>
      var revision := RevisionOf(s.current, entity);
      AskMixes(s, id, Lookup(entity, revision, Hourly), revision);
    case Replies(id, seen) => ResumeMixes(service, s, id, seen);
    case TimePasses(d) => TimeMixes(s, d);
  }

  lemma TimeMixes(s: State, d: real)
    requires OriginsKnown(s)
    ensures OriginsKnown(s.(now := s.now + d)) && (Mixes(s.(now := s.now + d)) <==> Mixes(s))
  {
  }

  lemma {:induction false} RunMixes(service: Service, s: State, events: seq<Event>)
    requires OriginsKnown(s) && Possible(service, s, events)
    ensures Mixes(Run(service, s, events)) <==> Mixes(s) || ForeignIn(service, s, events)
    decreases |events|
  {
    hide OriginsKnown, Apply, Mixes, ForeignReply;
    if events != [] {
      StepMixes(service, s, events[0]);
      RunMixes(service, Apply(service, s, events[0]), events[1..]);
    }
  }

  /** For a service that is a function of entity, type and revision, failures included: however lookups, replies,
      state changes and time interleave, every lookup returns what its calls were answered, or the entry that served
      it, and what is served has the lookup's revision and is at most 300 seconds old. It is what the lookup would
      return without a cache unless a forecast was for another revision, and a run has such a lookup exactly when
      some reply in it was for another revision than the lookup began with. */
  lemma CacheIsTransparent(service: Service, events: seq<Event>)
    requires Possible(service, INITIAL, events)
    ensures
      var s := Run(service, INITIAL, events);
      (forall a :: a in s.answers ==>
        AnswerIsSound(service, a) && (!IsForeign(a) ==> a.result == Uncached(service, a.entity, a.revision))) &&
      (Mixes(s) <==> ForeignIn(service, INITIAL, events))
  {
    RunKeepsInv(service, INITIAL, events);
    RunMixes(service, INITIAL, events);
  }

  // ---------------------------------------------------------------- while no state changes under a lookup

  /** No entity gets another revision while a lookup of it is pending. */
  predicate Quiet(s: State, e: Event) {
    e.Changes? ==>
      forall id :: id in s.waiting && s.waiting[id].lookup.entity == e.entity ==> s.waiting[id].lookup.revision == e.revision
  }

  predicate QuietIn(service: Service, s: State, events: seq<Event>)
    requires Possible(service, s, events)
    decreases |events|
  {
    events == [] || (Quiet(s, events[0]) && QuietIn(service, Apply(service, s, events[0]), events[1..]))
  }

  ghost predicate IsCurrent(s: State, id: nat)
    requires id in s.waiting
  {
    var w := s.waiting[id];
    RevisionOf(s.current, w.lookup.entity) == w.lookup.revision && w.live == {w.lookup.revision}
  }

  lemma StepStaysCurrent(service: Service, s: State, e: Event)
    requires Enabled(s, e) && Quiet(s, e) && forall id :: id in s.waiting ==> IsCurrent(s, id)
    ensures !ForeignReply(s, e)
    ensures var s' := Apply(service, s, e); forall id :: id in s'.waiting ==> IsCurrent(s', id)
  {
    if e.Replies? { assert IsCurrent(s, e.id); }
    var s' := Apply(service, s, e);
    forall id | id in s'.waiting ensures IsCurrent(s', id) {
      if id in s.waiting { assert IsCurrent(s, id); }
    }
  }

  lemma {:induction false} QuietHasNoForeign(service: Service, s: State, events: seq<Event>)
    requires Possible(service, s, events) && QuietIn(service, s, events)
    requires forall id :: id in s.waiting ==> IsCurrent(s, id)
    ensures !ForeignIn(service, s, events)
    decreases |events|
  {
    hide Apply, ForeignReply, IsCurrent, Quiet;
    if events != [] {
      StepStaysCurrent(service, s, events[0]);
      QuietHasNoForeign(service, Apply(service, s, events[0]), events[1..]);
    }
  }

  /** While no state changes under a pending lookup, every lookup returns what it would without a cache. */
  lemma QuietIsTransparent(service: Service, events: seq<Event>)
    requires Possible(service, INITIAL, events) && QuietIn(service, INITIAL, events)
    ensures forall a :: a in Run(service, INITIAL, events).answers ==> a.result == Uncached(service, a.entity, a.revision)
  {
    QuietHasNoForeign(service, INITIAL, events);
    CacheIsTransparent(service, events);
    var s := Run(service, INITIAL, events);
    forall a | a in s.answers ensures !IsForeign(a) {
      var i :| 0 <= i < |s.answers| && s.answers[i] == a;
    }
    hide Run, QuietIn, ForeignIn;
  }

  /** A change under a pending lookup lets the service answer for the new revision. */
  lemma ChangeLetsAForeignReplyIn(s: State, id: nat, revision: Revision)
    requires id in s.waiting && revision != s.waiting[id].lookup.revision
    ensures var s' := Change(s, s.waiting[id].lookup.entity, revision);
      Enabled(s', Replies(id, revision)) && ForeignReply(s', Replies(id, revision))
  {
  }

  /** A run in which it does: the state changes while the daily call is pending, and its answer is stored and
      returned under the revision before. */
  lemma MixedAnswer() returns (service: Service, events: seq<Event>, a: Answer)
    ensures Possible(service, INITIAL, events) && Run(service, INITIAL, events).answers == [a]
    ensures a.revision == "A" && a.dailyFor == "B" && a.result != Uncached(service, a.entity, a.revision)
    ensures (a.entity, Daily) in Run(service, INITIAL, events).cache
    ensures Run(service, INITIAL, events).cache[(a.entity, Daily)].revision == "A"
  {
    service := (e, k, r) => if k == Hourly then Failed else Items([Scalar(r)]);
    var home := "weather.home";
    var s1 := Change(INITIAL, home, "A");
    var s2 := Apply(service, s1, Begins(0, home));
    var s3 := Apply(service, s2, Replies(0, "A"));
    var s4 := Apply(service, s3, Changes(home, "B"));
    var s5 := Apply(service, s4, Replies(0, "B"));
    var last := [Replies(0, "B")];
    RunOne(service, s4, Replies(0, "B"));
    RunNext(service, s3, Changes(home, "B"), last);
    RunNext(service, s2, Replies(0, "A"), [Changes(home, "B")] + last);
    RunNext(service, s1, Begins(0, home), [Replies(0, "A")] + ([Changes(home, "B")] + last));
    events := [Begins(0, home)] + ([Replies(0, "A")] + ([Changes(home, "B")] + last));
    RunNext(service, INITIAL, Changes(home, "A"), events);
    events := [Changes(home, "A")] + events;
    a := s5.answers[0];
    var before, after := [Scalar("A")], [Scalar("B")];
    assert a.result == Some(TagAll(after, Daily)) && Uncached(service, home, "A") == Some(TagAll(before, Daily));
    assert TagAll(after, Daily)[0] == Scalar("B") && TagAll(before, Daily)[0] == Scalar("A");
  }

  lemma RunNext(service: Service, s: State, e: Event, events: seq<Event>)
    requires Enabled(s, e) && Possible(service, Apply(service, s, e), events)
    ensures Possible(service, s, [e] + events)
    ensures Run(service, s, [e] + events) == Run(service, Apply(service, s, e), events)
  {
    assert ([e] + events)[1..] == events;
  }

  lemma RunOne(service: Service, s: State, e: Event)
    requires Enabled(s, e)
    ensures Possible(service, s, [e]) && Run(service, s, [e]) == Apply(service, s, e)
  {
    assert [e][1..] == [];
  }

  // ---------------------------------------------------------------- what is stored and served

  /** Every record of a forecast says which kind of forecast it is of, and is otherwise what the service answered. */
  lemma TagsSayTheKind(items: seq<Item>, k: Kind, i: nat, name: string)
    requires i < |items|
    ensures
      match items[i]
      case Scalar(_) => TagAll(items, k)[i] == items[i]
      case Record(fields) =>
        TagAll(items, k)[i].Record? &&
        Options.Lookup(TagAll(items, k)[i].fields, name) ==
          if name == "_c300x_forecast_type" then Some(if k.Hourly? then "hourly" else "daily") else Options.Lookup(fields, name)
  {
  }

  /** A forecast that answers is stored, and serves exactly the lookups of its kind and revision that ask for it in the
      next 300 seconds. */
  lemma StoredForecastServes(service: Service, s: State, id: nat, seen: Revision, elapsed: real, l: Lookup)
    requires id in s.waiting && elapsed >= 0.0
    requires l.entity == s.waiting[id].lookup.entity && l.kind == s.waiting[id].lookup.kind
    requires service(l.entity, l.kind, seen).Items? && |service(l.entity, l.kind, seen).items| > 0
    ensures
      var tagged := TagAll(service(l.entity, l.kind, seen).items, l.kind);
      var s' := Resume(service, s, id, seen);
      id !in s'.waiting && s'.answers != [] && s'.answers[|s'.answers| - 1].result == Some(tagged) &&
      Cached(s'.cache, s'.now + elapsed, l.entity, l.kind, l.revision) ==
        if l.revision == s.waiting[id].lookup.revision && elapsed <= 300.0 then Some(tagged) else None
  {
  }

  /** A reply that is no forecast stores nothing: a rejected call ends the lookup empty-handed, and so does a daily one;
      after a failed or empty hourly call the lookup turns to daily forecasts. */
  lemma OtherRepliesStoreNothing(service: Service, s: State, id: nat, seen: Revision)
    requires id in s.waiting
    requires
      var r := service(s.waiting[id].lookup.entity, s.waiting[id].lookup.kind, seen);
      r.Rejected? || r.Failed? || |r.items| == 0
    ensures
      var l, s' := s.waiting[id].lookup, Resume(service, s, id, seen);
      s'.cache == s.cache &&
      if l.kind.Daily? || service(l.entity, l.kind, seen).Rejected? then
        id !in s'.waiting && s'.answers != [] && s'.answers[|s'.answers| - 1].result == None
      else
        var daily := Cached(s.cache, s.now, l.entity, Daily, l.revision);
        if daily.None? then id in s'.waiting && s'.waiting[id].lookup == l.(kind := Daily)
        else id !in s'.waiting && s'.answers != [] && s'.answers[|s'.answers| - 1].result == daily
  {
  }
}

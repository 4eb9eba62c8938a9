/** The state of the doorbell camera's WebRTC session registry, and the effect of every block of its
    coroutines that runs without reaching an await. Between two blocks any other coroutine may run, so a
    run of the camera is a sequence of such blocks in any order their guards allow. */
module CameraState {

  type Sid = string      // WebRTC session id, chosen by the browser side
  type Handle = nat      // identity of a provider session object
  type Task = nat        // identity of one call of the close coroutine
  type Stamp = nat       // arrival number of an ICE candidate; stands for its payload

  const MAX_PRESESSION_SESSIONS := 16
  const MAX_PRESESSION_CANDIDATES := 64

  datatype Session = Session(
    sid: Sid, resource: string, homeCall: bool, ringCall: bool,
    ringPreview: bool, ready: bool, pending: seq<Stamp>)

  /** Where an offer coroutine is suspended. ClosingOld, Failing and Cleaning await an inner close. */
  datatype Stage =
    | ClosingOld(t: Task)      // closing the session the id had before; still outside the try block
    | Opening                  // waiting for the media decision and the provider
    | Negotiating(h: Handle)   // session registered, provider is handling the offer
    | Flushing(h: Handle)      // replaying buffered candidates
    | Failing(t: Task)         // provider reported an error; closing inside the try block
    | Cleaning(t: Task)        // closing from an exception handler
    | Ending                   // nothing left to do with the registry

  /** Who awaits a close: background work and offers are drained by entity removal, calls made by
      the stop hooks or the stream source are not. */
  datatype Origin = Tracked | Untracked | OfOffer(sid: Sid) | OfRemoval

  datatype Phase =
    | TearDown                 // popped, awaiting the provider close
    | TornDown                 // provider close complete, last-owner check still to come
    | Refreshing(last: bool)   // ring preview: last-owner check done, awaiting the video status
    | Stopping                 // decided to stop the device media

  datatype Close = Close(sid: Sid, h: Handle, stopMedia: bool, force: bool, phase: Phase, origin: Origin)

  /** Aborted: the removal was cancelled while it awaited one of its own closes. */
  datatype Removal = Present | Removing(queue: seq<Sid>) | Removed | Aborted

  /** Insertion-ordered dictionary of candidate lists. */
  datatype Buffers = Buffers(order: seq<Sid>, table: map<Sid, seq<Stamp>>)

  datatype Delivery = Delivery(c: Stamp, replayed: bool)

  datatype Fate = Waiting(sid: Sid) | Pending(h: Handle) | Sent(h: Handle) | Dropped

  /** One evaluation of should_stop_media, with what it looked at. */
  datatype Decision = Decision(
    h: Handle, resource: string, last: bool, refreshed: bool, stopMedia: bool, force: bool,
    ringPreview: bool, ringCall: bool, stop: bool, shared: bool)

  /** What happened to the ICE candidates so far; no block reads it. */
  datatype IceHistory = IceHistory(
    arrived: nat,                          // candidates that arrived
    fate: map<Stamp, Fate>,                // where each of them is
    logs: map<Handle, seq<Delivery>>,      // what the provider received for each session
    buffered: map<Handle, seq<Stamp>>,     // what was ever put in each session's buffer
    wasReady: set<Handle>,
    flushed: map<Handle, seq<Stamp>>)      // what had been buffered when a session's flush ended normally

  /** Where a session object is: in `active`, held by a close, let go by a completed close, replaced in
      `active` by a later session, or found its id taken when a cancelled close put it back. */
  datatype Place = Registered | Held(t: Task) | Finished | Overwritten | Displaced

  /** What happened to the sessions so far; no block reads it. */
  datatype Books = Books(
    places: map<Handle, Place>,
    pops: map<Handle, nat>,                // tear-downs begun
    putBacks: map<Handle, nat>,            // cancelled closes that put the session back
    closed: set<Handle>,                   // provider close completed
    decisions: seq<Decision>)

  datatype State = State(
    objects: map<Handle, Session>, active: map<Sid, Handle>, candidates: Buffers,
    offers: map<Sid, Stage>, closing: bool, closers: map<Task, Close>, removal: Removal,
    ice: IceHistory, books: Books)

  const INITIAL := State(map[], map[], Buffers([], map[]), map[], false, map[], Present,
                         IceHistory(0, map[], map[], map[], {}, map[]), Books(map[], map[], map[], {}, []))

  datatype Event =
    | OfferBegin(sid: Sid, t: Task)
    | Register(sid: Sid, h: Handle, resource: string, homeCall: bool, ringCall: bool, ringPreview: bool)
    | OfferReturned(sid: Sid, failed: bool, stop: bool, t: Task)
    | FlushStep(sid: Sid)
    | OfferFail(sid: Sid, stop: bool, t: Task)
    | OfferCancel(sid: Sid, stop: bool, t: Task)
    | OfferEnd(sid: Sid)
    | CloseBegin(t: Task, sid: Sid, stop: bool, origin: Origin)
    | ProviderClosed(t: Task)
    | CheckLast(t: Task)
    | Decide(t: Task, ringing: Ringing)
    | StopDone(t: Task)
    | CloseCancel(t: Task)
    | Candidate(sid: Sid)
    | HomeCallEnded
    | RemoveBegin
    | RemoveDrained
    | RemoveNext(t: Task, current: bool)
    | RemoveFinish

  /** Answer of the video status refresh: an unanswered ring, none, or the refresh failed. */
  datatype Ringing = StillRinging | NoRing | RefreshFailed

  // ---------------------------------------------------------------- small helpers

  function Without(order: seq<Sid>, sid: Sid): seq<Sid> {
    if order == [] then []
    else if order[0] == sid then Without(order[1..], sid)
    else [order[0]] + Without(order[1..], sid)
  }

  function Pop(b: Buffers, sid: Sid): Buffers {
    if sid in b.table then Buffers(Without(b.order, sid), b.table - {sid}) else b
  }

  function HeldFor(b: Buffers, sid: Sid): seq<Stamp> {
    if sid in b.table then b.table[sid] else []
  }

  function Relocate(fate: map<Stamp, Fate>, cs: seq<Stamp>, to: Fate): map<Stamp, Fate> {
    map c | c in fate :: if c in cs then to else fate[c]
  }

  function Count(m: map<Handle, nat>, h: Handle): nat {
    if h in m then m[h] else 0
  }

  function Log(s: State, h: Handle): seq<Delivery> {
    if h in s.ice.logs then s.ice.logs[h] else []
  }

  function Buffered(s: State, h: Handle): seq<Stamp> {
    if h in s.ice.buffered then s.ice.buffered[h] else []
  }

  ghost predicate HasResource(active: map<Sid, Handle>, objects: map<Handle, Session>, resource: string) {
    exists sid :: sid in active && active[sid] in objects && objects[active[sid]].resource == resource
  }

  // ---------------------------------------------------------------- blocks

  /** `candidates.pop(sid, None)`: the buffered candidates are gone for good. */
  function Discard(s: State, sid: Sid): State {
    s.(candidates := Pop(s.candidates, sid),
       ice := s.ice.(fate := Relocate(s.ice.fate, HeldFor(s.candidates, sid), Dropped)))
  }

  /** From the call of the close coroutine to its first await. */
  function BeginClose(s: State, t: Task, sid: Sid, stop: bool, force: bool, origin: Origin): State {
    if sid !in s.active then Discard(s, sid)
    else
      var h := s.active[sid];
      var s' := Discard(s, sid);
      s'.(active := s.active - {sid},
          closers := s.closers[t := Close(sid, h, stop, force, TearDown, origin)],
          books := s.books.(places := s.books.places[h := Held(t)],
                            pops := s.books.pops[h := Count(s.books.pops, h) + 1]))
  }

  /** What an offer does once the inner close it awaits has ended. */
  function Resumed(stage: Stage, t: Task): Stage {
    if stage == ClosingOld(t) then Opening
    else if stage == Failing(t) || stage == Cleaning(t) then Ending
    else stage
  }

  /** The close coroutine ends normally and the offer awaiting it, if any, moves on. */
  function EndClose(s: State, t: Task): State
    requires t in s.closers
  {
    var c := s.closers[t];
    s.(closers := s.closers - {t},
       offers := if c.origin.OfOffer? && c.origin.sid in s.offers
                 then s.offers[c.origin.sid := Resumed(s.offers[c.origin.sid], t)] else s.offers,
       books := s.books.(places := s.books.places[c.h := Finished]))
  }

  /** The close coroutine is cancelled: `active.setdefault(sid, session)`. A removal that awaited it ends too. */
  function PutBack(s: State, t: Task): State
    requires t in s.closers
  {
    var c := s.closers[t];
    var books := s.books;
    s.(closers := s.closers - {t},
       active := if c.sid in s.active then s.active else s.active[c.sid := c.h],
       removal := if c.origin.OfRemoval? then Aborted else s.removal,
       books := if c.sid in s.active then books.(places := books.places[c.h := Displaced])
                else books.(places := books.places[c.h := Registered],
                            putBacks := books.putBacks[c.h := Count(books.putBacks, c.h) + 1]))
  }

  /** Evaluates should_stop_media and continues to the stop or to the end. */
  ghost function MakeDecision(s: State, t: Task, last: bool, refreshed: bool): State
    requires t in s.closers && s.closers[t].h in s.objects
  {
    var c := s.closers[t];
    var o := s.objects[c.h];
    var stop := last && c.stopMedia && (c.force || (!o.ringPreview && !o.ringCall));
    var d := Decision(c.h, o.resource, last, refreshed, c.stopMedia, c.force, o.ringPreview, o.ringCall, stop,
                      HasResource(s.active, s.objects, o.resource));
    var s' := s.(books := s.books.(decisions := s.books.decisions + [d]));
    if stop then s'.(closers := s.closers[t := c.(phase := Stopping)]) else EndClose(s', t)
  }

  function DoProviderClosed(s: State, t: Task): State
    requires t in s.closers
  {
    s.(closers := s.closers[t := s.closers[t].(phase := TornDown)],
       books := s.books.(closed := s.books.closed + {s.closers[t].h}))
  }

  /** `last_resource_session`, and the decision unless a ring preview needs a fresh status first. */
  ghost function DoCheckLast(s: State, t: Task): State
    requires t in s.closers && s.closers[t].h in s.objects
  {
    var c := s.closers[t];
    var last := !HasResource(s.active, s.objects, s.objects[c.h].resource);
    if s.objects[c.h].ringPreview then s.(closers := s.closers[t := c.(phase := Refreshing(last))])
    else MakeDecision(s, t, last, false)
  }

  function Refreshed(s: State, h: Handle, ringing: Ringing): State
    requires h in s.objects
  {
    if ringing.RefreshFailed? then s
    else s.(objects := s.objects[h := s.objects[h].(ringPreview := ringing.StillRinging?)])
  }

  ghost function DoDecide(s: State, t: Task, ringing: Ringing): State
    requires t in s.closers && s.closers[t].phase.Refreshing? && s.closers[t].h in s.objects
  {
    MakeDecision(Refreshed(s, s.closers[t].h, ringing), t, s.closers[t].phase.last, true)
  }

  function BeginOffer(s: State, sid: Sid, t: Task): State {
    if s.closing || sid in s.offers then s
    else if sid in s.active then
      BeginClose(s, t, sid, true, false, OfOffer(sid)).(offers := s.offers[sid := ClosingOld(t)])
    else s.(offers := s.offers[sid := Opening])
  }

  function DoRegister(s: State, sid: Sid, h: Handle, resource: string, homeCall: bool, ringCall: bool, ringPreview: bool): State {
    var held := HeldFor(s.candidates, sid);
    var places := if sid in s.active then s.books.places[s.active[sid] := Overwritten] else s.books.places;
    s.(objects := s.objects[h := Session(sid, resource, homeCall, ringCall, ringPreview, false, held)],
       active := s.active[sid := h],
       candidates := Pop(s.candidates, sid),
       offers := s.offers[sid := Negotiating(h)],
       ice := s.ice.(fate := Relocate(s.ice.fate, held, Pending(h)), buffered := s.ice.buffered[h := held]),
       books := s.books.(places := places[h := Registered]))
  }

  /** Exception handlers of an offer: pop the candidates, then close whatever the id maps to. */
  function HandleFailure(s: State, sid: Sid, stop: bool, t: Task): State {
    var s' := BeginClose(s, t, sid, stop, false, OfOffer(sid));
    s'.(offers := s.offers[sid := if sid in s.active then Cleaning(t) else Ending])
  }

  function DoOfferReturned(s: State, sid: Sid, failed: bool, stop: bool, t: Task): State
    requires sid in s.offers && s.offers[sid].Negotiating? && s.offers[sid].h in s.objects
  {
    var h := s.offers[sid].h;
    if sid !in s.active || s.active[sid] != h then s.(offers := s.offers[sid := Ending])
    else if failed then
      BeginClose(s, t, sid, stop, false, OfOffer(sid)).(offers := s.offers[sid := Failing(t)])
    else MakeReady(s, sid, h)
  }

  function MakeReady(s: State, sid: Sid, h: Handle): State
    requires h in s.objects
  {
    s.(objects := s.objects[h := s.objects[h].(ready := true)],
       offers := s.offers[sid := Flushing(h)],
       ice := s.ice.(wasReady := s.ice.wasReady + {h}))
  }

  /** Hands candidate c to the provider of session h. */
  function Send(ice: IceHistory, h: Handle, c: Stamp, replayed: bool): IceHistory {
    var log := if h in ice.logs then ice.logs[h] else [];
    ice.(logs := ice.logs[h := log + [Delivery(c, replayed)]], fate := ice.fate[c := Sent(h)])
  }

  /** One turn of the flush loop, or its end when the buffer is empty. */
  function DoFlushStep(s: State, sid: Sid): State
    requires sid in s.offers && s.offers[sid].Flushing? && s.offers[sid].h in s.objects
  {
    var h := s.offers[sid].h;
    var o := s.objects[h];
    if o.pending == [] then
      s.(offers := s.offers[sid := Ending], ice := s.ice.(flushed := s.ice.flushed[h := Buffered(s, h)]))
    else s.(objects := s.objects[h := o.(pending := o.pending[1..])],
            ice := Send(s.ice, h, o.pending[0], true))
  }

  function DoOfferCancel(s: State, sid: Sid, stop: bool, t: Task): State
    requires sid in s.offers
    requires InnerTask(s.offers[sid]).Some? ==> InnerTask(s.offers[sid]).t in s.closers
  {
    match s.offers[sid]
    case ClosingOld(t0) => PutBack(s, t0).(offers := s.offers - {sid})
    case Cleaning(t0) => PutBack(s, t0).(offers := s.offers - {sid})
    case Failing(t0) => CancelHandler(PutBack(s, t0).(offers := s.offers - {sid}), sid, stop, t)
    case Ending => s.(offers := s.offers - {sid})
    case _ => CancelHandler(s, sid, stop, t)
  }

  /** `except CancelledError`: during unload the session stays registered for the final forced close. */
  function CancelHandler(s: State, sid: Sid, stop: bool, t: Task): State {
    if s.closing then Discard(s, sid).(offers := s.offers[sid := Ending])
    else HandleFailure(s, sid, stop, t)
  }

  datatype MaybeTask = None | Some(t: Task)

  function InnerTask(stage: Stage): MaybeTask {
    match stage
    case ClosingOld(t) => Some(t)
    case Failing(t) => Some(t)
    case Cleaning(t) => Some(t)
    case _ => None
  }

  /** Makes room for a new pre-session buffer by evicting the oldest one. */
  function Evict(s: State): State {
    if |s.candidates.order| >= MAX_PRESESSION_SESSIONS then Discard(s, s.candidates.order[0]) else s
  }

  function Enqueue(b: Buffers, sid: Sid): Buffers {
    if sid in b.table then b else Buffers(b.order + [sid], b.table[sid := []])
  }

  /** A candidate arrives; unless it is stored or forwarded below, it is ignored. */
  function Arrive(s: State): State {
    s.(ice := s.ice.(arrived := s.ice.arrived + 1, fate := s.ice.fate[s.ice.arrived := Dropped]))
  }

  function StoreInSession(s: State, h: Handle, c: Stamp): State
    requires h in s.objects
  {
    var o := s.objects[h];
    if o.ready then s.(ice := Send(s.ice, h, c, false))
    else if |o.pending| < MAX_PRESESSION_CANDIDATES then
      s.(objects := s.objects[h := o.(pending := o.pending + [c])],
         ice := s.ice.(fate := s.ice.fate[c := Pending(h)], buffered := s.ice.buffered[h := Buffered(s, h) + [c]]))
    else s
  }

  function StoreBeforeSession(s: State, sid: Sid, c: Stamp): State {
    var b := Enqueue(s.candidates, sid);
    if |b.table[sid]| < MAX_PRESESSION_CANDIDATES then
      s.(candidates := b.(table := b.table[sid := b.table[sid] + [c]]),
         ice := s.ice.(fate := s.ice.fate[c := Waiting(sid)]))
    else s.(candidates := b)
  }

  function DoCandidate(s: State, sid: Sid): State {
    var c := s.ice.arrived;
    var s := Arrive(s);
    if s.closing then s
    else if sid in s.active && s.active[sid] in s.objects then StoreInSession(s, s.active[sid], c)
    else StoreBeforeSession(if sid in s.candidates.table then s else Evict(s), sid, c)
  }

  function MarkInactive(objects: map<Handle, Session>, active: map<Sid, Handle>): map<Handle, Session> {
    map h | h in objects ::
      if h in active.Values && objects[h].homeCall then objects[h].(ready := false) else objects[h]
  }

  /** `candidates.clear()` and the snapshot of the ids still registered. */
  ghost function DoDrained(s: State): State {
    var ids: seq<Sid> := Listed(s.active.Keys);
    s.(candidates := Buffers([], map[]), removal := Removing(ids),
       ice := s.ice.(fate := map c | c in s.ice.fate :: if s.ice.fate[c].Waiting? then Dropped else s.ice.fate[c]))
  }

  /** Some listing of a set; the order in which sessions are closed does not matter. */
  ghost function Listed(ids: set<Sid>): (r: seq<Sid>)
    ensures forall x :: x in r <==> x in ids
    decreases ids
  {
    if ids == {} then [] else var x :| x in ids; [x] + Listed(ids - {x})
  }

  /** One round of the removal's loop over its snapshot of ids. */
  function DoRemoveNext(s: State, t: Task, current: bool): State
    requires s.removal.Removing? && s.removal.queue != []
  {
    BeginClose(s.(removal := Removing(s.removal.queue[1..])), t, s.removal.queue[0], current, current, OfRemoval)
  }

  // ---------------------------------------------------------------- runs

  ghost predicate Enabled(s: State, e: Event) {
    match e
    case OfferBegin(_, t) => t !in s.closers
    case Register(sid, h, _, _, _, _) => sid in s.offers && s.offers[sid].Opening? && h !in s.objects
    case OfferReturned(sid, _, _, t) =>
      sid in s.offers && s.offers[sid].Negotiating? && s.offers[sid].h in s.objects && t !in s.closers
    case FlushStep(sid) => sid in s.offers && s.offers[sid].Flushing? && s.offers[sid].h in s.objects
    case OfferFail(sid, _, t) =>
      sid in s.offers && t !in s.closers &&
      (s.offers[sid].Opening? || s.offers[sid].Negotiating? || s.offers[sid].Flushing?)
    case OfferCancel(sid, _, t) =>
      sid in s.offers && t !in s.closers &&
      (InnerTask(s.offers[sid]).Some? ==> InnerTask(s.offers[sid]).t in s.closers)
    case OfferEnd(sid) => sid in s.offers && s.offers[sid].Ending?
    case CloseBegin(t, _, _, origin) =>
      t !in s.closers && ((origin.Tracked? && s.removal.Present?) || origin.Untracked?)
    case ProviderClosed(t) => t in s.closers && s.closers[t].phase.TearDown?
    case CheckLast(t) => t in s.closers && s.closers[t].phase.TornDown? && s.closers[t].h in s.objects
    case Decide(t, _) => t in s.closers && s.closers[t].phase.Refreshing? && s.closers[t].h in s.objects
    case StopDone(t) => t in s.closers && s.closers[t].phase.Stopping?
    case CloseCancel(t) => t in s.closers && !s.closers[t].origin.OfOffer?
    case Candidate(_) => true
    case HomeCallEnded => true
    case RemoveBegin => s.removal.Present?
    case RemoveDrained =>
      s.closing && s.removal.Present? && s.offers == map[] &&
      (forall t :: t in s.closers ==> s.closers[t].origin.Untracked?)
    case RemoveNext(t, _) => t !in s.closers && s.removal.Removing? && s.removal.queue != [] && RemovalIdle(s)
    case RemoveFinish => s.removal.Removing? && s.removal.queue == [] && RemovalIdle(s)
  }

  /** Entity removal closes one session at a time. */
  ghost predicate RemovalIdle(s: State) {
    forall t :: t in s.closers ==> !s.closers[t].origin.OfRemoval?
  }

  ghost function Apply(s: State, e: Event): State
    requires Enabled(s, e)
  {
    match e
    case OfferBegin(sid, t) => BeginOffer(s, sid, t)
    case Register(sid, h, resource, homeCall, ringCall, ringPreview) =>
      DoRegister(s, sid, h, resource, homeCall, ringCall, ringPreview)
    case OfferReturned(sid, failed, stop, t) => DoOfferReturned(s, sid, failed, stop, t)
    case FlushStep(sid) => DoFlushStep(s, sid)
    case OfferFail(sid, stop, t) => HandleFailure(s, sid, stop, t)
    case OfferCancel(sid, stop, t) => DoOfferCancel(s, sid, stop, t)
    case OfferEnd(sid) => s.(offers := s.offers - {sid})
    case CloseBegin(t, sid, stop, origin) => BeginClose(s, t, sid, stop, false, origin)
    case ProviderClosed(t) => DoProviderClosed(s, t)
    case CheckLast(t) => DoCheckLast(s, t)
    case Decide(t, ringing) => DoDecide(s, t, ringing)
    case StopDone(t) => EndClose(s, t)
    case CloseCancel(t) => PutBack(s, t)
    case Candidate(sid) => DoCandidate(s, sid)
    case HomeCallEnded => s.(objects := MarkInactive(s.objects, s.active))
    case RemoveBegin => s.(closing := true)
    case RemoveDrained => DoDrained(s)
    case RemoveNext(t, current) => DoRemoveNext(s, t, current)
    case RemoveFinish => s.(removal := Removed)
  }

  /** The events can happen one after the other from s. */
  ghost predicate Possible(s: State, es: seq<Event>)
    decreases |es|
  {
    es == [] || (Enabled(s, es[0]) && Possible(Apply(s, es[0]), es[1..]))
  }

  ghost function Run(s: State, es: seq<Event>): State
    requires Possible(s, es)
    decreases |es|
  {
    if es == [] then s else Run(Apply(s, es[0]), es[1..])
  }
}

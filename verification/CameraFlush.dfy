/** The flush of buffered candidates over whole runs: a flush that nothing interrupts forwards all of them. */
module CameraFlush {
  import opened CameraState
  import opened CameraInvariants
  import opened CameraIce

  /** A flush that ended normally has forwarded everything buffered until then, and unless an ended home call has
      silenced the session nothing was buffered since. */
  ghost predicate FlushedKnown(s: State, h: Handle)
    requires h in s.ice.flushed
  {
    h in s.objects && h in s.ice.wasReady && s.ice.flushed[h] <= Replayed(Log(s, h)) &&
    (s.objects[h].ready || !s.objects[h].homeCall ==> s.objects[h].pending == [])
  }

  /** Once ready, a session stays so unless its home call ends. */
  ghost predicate ReadyKnown(s: State, h: Handle) {
    h in s.ice.wasReady ==> h in s.objects && (s.objects[h].ready || s.objects[h].homeCall)
  }

  /** Each session is negotiated once and flushed once, by the offer of its own id. */
  ghost predicate StageKnown(s: State, sid: Sid)
    requires sid in s.offers
  {
    (s.offers[sid].Negotiating? ==>
      s.offers[sid].h in s.objects && s.objects[s.offers[sid].h].sid == sid && s.offers[sid].h !in s.ice.wasReady) &&
    (s.offers[sid].Flushing? ==>
      s.offers[sid].h in s.objects && s.objects[s.offers[sid].h].sid == sid && s.offers[sid].h in s.ice.wasReady &&
      s.offers[sid].h !in s.ice.flushed)
  }

  ghost predicate FlushInv(s: State) {
    (forall h :: h in s.ice.flushed ==> FlushedKnown(s, h)) &&
    (forall h :: ReadyKnown(s, h)) &&
    (forall sid :: sid in s.offers ==> StageKnown(s, sid))
  }

  // ---------------------------------------------------------------- blocks that flush nothing

  /** The candidate lists are untouched, a session only stops being ready when its home call ends, and no offer
      comes to negotiate or flush. */
  ghost predicate SameFlush(s: State, s': State) {
    s'.ice.logs == s.ice.logs && s'.ice.buffered == s.ice.buffered && s'.ice.wasReady == s.ice.wasReady &&
    s'.ice.flushed == s.ice.flushed && s'.objects.Keys == s.objects.Keys &&
    (forall h :: h in s.objects ==> SameFlushSession(s.objects[h], s'.objects[h])) &&
    (forall x :: x in s'.offers && (s'.offers[x].Negotiating? || s'.offers[x].Flushing?) ==>
      x in s.offers && s'.offers[x] == s.offers[x])
  }

  ghost predicate SameFlushSession(o: Session, o': Session) {
    o'.sid == o.sid && o'.pending == o.pending && o'.homeCall == o.homeCall &&
    (o'.ready == o.ready || (o.homeCall && !o'.ready))
  }

  lemma SameFlushKeepsInv(s: State, s': State)
    requires FlushInv(s) && SameFlush(s, s')
    ensures FlushInv(s')
  {
    forall h | h in s'.ice.flushed ensures FlushedKnown(s', h) {
      assert FlushedKnown(s, h) && Log(s', h) == Log(s, h);
    }
    forall h ensures ReadyKnown(s', h) { assert ReadyKnown(s, h); }
    forall x | x in s'.offers ensures StageKnown(s', x) {
      if s'.offers[x].Negotiating? || s'.offers[x].Flushing? { assert StageKnown(s, x); }
    }
  }

  lemma DiscardFlushesNothing(s: State, sid: Sid)
    ensures SameFlush(s, Discard(s, sid))
  {
    hide Pop, Relocate;
  }

  lemma BeginCloseFlushesNothing(s: State, t: Task, sid: Sid, stop: bool, force: bool, origin: Origin)
    ensures SameFlush(s, BeginClose(s, t, sid, stop, force, origin))
  {
    hide Pop, Relocate;
  }

  lemma CloserFlushesNothing(s: State, t: Task)
    requires t in s.closers
    ensures SameFlush(s, PutBack(s, t)) && SameFlush(s, EndClose(s, t))
  {
  }

  lemma SameFlushIsTransitive(s: State, m: State, s': State)
    requires SameFlush(s, m) && SameFlush(m, s')
    ensures SameFlush(s, s')
  {
  }

  lemma HandlerFlushesNothing(s: State, sid: Sid, stop: bool, t: Task)
    ensures SameFlush(s, CancelHandler(s, sid, stop, t)) && SameFlush(s, HandleFailure(s, sid, stop, t))
  {
    hide BeginClose, Discard;
    BeginCloseFlushesNothing(s, t, sid, stop, false, OfOffer(sid));
    DiscardFlushesNothing(s, sid);
  }

  lemma OfferCancelFlushesNothing(s: State, sid: Sid, stop: bool, t: Task)
    requires Enabled(s, OfferCancel(sid, stop, t))
    ensures SameFlush(s, DoOfferCancel(s, sid, stop, t))
  {
    hide PutBack, CancelHandler, SameFlushSession;
    if InnerTask(s.offers[sid]).Some? {
      var t0 := InnerTask(s.offers[sid]).t;
      CloserFlushesNothing(s, t0);
      var m := PutBack(s, t0).(offers := s.offers - {sid});
      HandlerFlushesNothing(m, sid, stop, t);
      if s.offers[sid].Failing? {
        hide SameFlush;
        SameFlushIsTransitive(s, m, CancelHandler(m, sid, stop, t));
      }
    } else {
      HandlerFlushesNothing(s, sid, stop, t);
    }
  }

  lemma DecisionFlushesNothing(s: State, t: Task, last: bool, refreshed: bool)
    requires t in s.closers && s.closers[t].h in s.objects
    ensures SameFlush(s, MakeDecision(s, t, last, refreshed))
  {
  }

  lemma RefreshFlushesNothing(s: State, h: Handle, ringing: Ringing)
    requires h in s.objects
    ensures SameFlush(s, Refreshed(s, h, ringing))
  {
  }

  lemma CheckFlushesNothing(s: State, e: Event)
    requires Enabled(s, e) && (e.CheckLast? || e.Decide?)
    ensures SameFlush(s, Apply(s, e))
  {
    hide MakeDecision, HasResource;
    if e.CheckLast? {
      DecisionFlushesNothing(s, e.t, !HasResource(s.active, s.objects, s.objects[s.closers[e.t].h].resource), false);
    } else {
      var m := Refreshed(s, s.closers[e.t].h, e.ringing);
      RefreshFlushesNothing(s, s.closers[e.t].h, e.ringing);
      hide SameFlush, Refreshed;
      DecisionFlushesNothing(m, e.t, s.closers[e.t].phase.last, true);
      SameFlushIsTransitive(s, m, MakeDecision(m, e.t, s.closers[e.t].phase.last, true));
    }
  }

  /** The blocks besides registering, becoming ready, flushing and storing a candidate. */
  lemma QuietFlushesNothing(s: State, e: Event)
    requires Enabled(s, e) && !e.Register? && !e.OfferReturned? && !e.FlushStep? && !e.Candidate?
    ensures SameFlush(s, Apply(s, e))
  {
    hide BeginClose, PutBack, EndClose, DoOfferCancel, HandleFailure, DoCheckLast, DoDecide, SameFlush;
    match e
    case OfferCancel(sid, stop, t) => OfferCancelFlushesNothing(s, sid, stop, t);
    case OfferFail(sid, stop, t) => HandlerFlushesNothing(s, sid, stop, t);
    case CloseBegin(t, sid, stop, origin) => BeginCloseFlushesNothing(s, t, sid, stop, false, origin);
    case StopDone(t) => CloserFlushesNothing(s, t);
    case CloseCancel(t) => CloserFlushesNothing(s, t);
    case CheckLast(_) => CheckFlushesNothing(s, e);
    case Decide(_, _) => CheckFlushesNothing(s, e);
    case OfferBegin(sid, t) => OfferBeginFlushesNothing(s, sid, t);
    case RemoveNext(t, current) => RemoveNextFlushesNothing(s, t, current);
    case _ => PlainFlushesNothing(s, e);
  }

  lemma OfferBeginFlushesNothing(s: State, sid: Sid, t: Task)
    ensures SameFlush(s, BeginOffer(s, sid, t))
  {
    hide BeginClose;
    BeginCloseFlushesNothing(s, t, sid, true, false, OfOffer(sid));
  }

  lemma RemoveNextFlushesNothing(s: State, t: Task, current: bool)
    requires s.removal.Removing? && s.removal.queue != []
    ensures SameFlush(s, DoRemoveNext(s, t, current))
  {
    hide BeginClose;
    var m := s.(removal := Removing(s.removal.queue[1..]));
    BeginCloseFlushesNothing(m, t, s.removal.queue[0], current, current, OfRemoval);
  }

  lemma PlainFlushesNothing(s: State, e: Event)
    requires Enabled(s, e)
    requires
      e.OfferEnd? || e.ProviderClosed? || e.HomeCallEnded? || e.RemoveBegin? || e.RemoveDrained? || e.RemoveFinish?
    ensures SameFlush(s, Apply(s, e))
  {
    hide DoCandidate, BeginClose, DoRegister, MakeDecision, DoRemoveNext, DoOfferReturned, DoOfferCancel, HandleFailure, BeginOffer,
      EndClose, PutBack, DoDecide, DoCheckLast;
  }

  // ---------------------------------------------------------------- the blocks that handle candidates

  /** What is known of the other sessions when one session changes. */
  lemma OtherFlushed(s: State, s': State, g: Handle)
    requires g in s.ice.flushed && FlushedKnown(s, g)
    requires g in s'.ice.flushed && s'.ice.flushed[g] == s.ice.flushed[g] && Log(s', g) == Log(s, g)
    requires g in s'.objects && s'.objects[g] == s.objects[g] && s.ice.wasReady <= s'.ice.wasReady
    ensures FlushedKnown(s', g)
  {
    hide Replayed, Log;
  }

  lemma RegisterKeepsFlush(s: State, s': State, sid: Sid, h: Handle)
    requires IceInv(s) && FlushInv(s) && BufferMoves(s, s', sid, h) && s'.objects[h].sid == sid
    ensures FlushInv(s')
  {
    hide IceInv, Pop, Relocate, HeldFor, Replayed, Buffered;
    forall g | g in s.objects ensures g in s'.objects && s'.objects[g] == s.objects[g] {
      assert g in s'.objects - {h} && (s'.objects - {h})[g] == s.objects[g];
    }
    assert ReadyKnown(s, h);
    forall g | g in s'.ice.flushed ensures FlushedKnown(s', g) {
      assert FlushedKnown(s, g);
      OtherFlushed(s, s', g);
    }
    forall g ensures ReadyKnown(s', g) { assert ReadyKnown(s, g); }
    forall x | x in s'.offers ensures StageKnown(s', x) { if x != sid { assert StageKnown(s, x); } }
  }

  lemma ReadyKeepsFlush(s: State, sid: Sid, h: Handle)
    requires FlushInv(s) && sid in s.offers && s.offers[sid] == Negotiating(h) && h in s.objects
    ensures FlushInv(MakeReady(s, sid, h))
  {
    var s' := MakeReady(s, sid, h);
    assert StageKnown(s, sid);
    forall g | g in s'.ice.flushed ensures FlushedKnown(s', g) {
      assert FlushedKnown(s, g) && Log(s', g) == Log(s, g);
    }
    forall g ensures ReadyKnown(s', g) { assert ReadyKnown(s, g); }
    NeverReadyIsNotFlushed(s, h);
    forall x | x in s'.offers ensures StageKnown(s', x) { if x != sid { assert StageKnown(s, x); } }
  }

  lemma NeverReadyIsNotFlushed(s: State, h: Handle)
    requires FlushInv(s) && h !in s.ice.wasReady
    ensures h !in s.ice.flushed
  {
  }

  /** The loop has run empty: everything ever buffered has been forwarded. */
  lemma EmptyBufferIsReplayed(s: State, h: Handle)
    requires IceInv(s) && h in s.objects && s.objects[h].pending == []
    ensures Replayed(Log(s, h)) == Buffered(s, h)
  {
    assert SessionBuffers(s, h);
    assert Replayed(Log(s, h)) + [] == Replayed(Log(s, h));
  }

  lemma FlushEndKeepsFlush(s: State, sid: Sid)
    requires IceInv(s) && FlushInv(s) && Enabled(s, FlushStep(sid)) && s.objects[s.offers[sid].h].pending == []
    ensures FlushInv(DoFlushStep(s, sid))
  {
    hide IceInv, Replayed, Buffered;
    var s', h := DoFlushStep(s, sid), s.offers[sid].h;
    assert StageKnown(s, sid);
    EmptyBufferIsReplayed(s, h);
    forall g | g in s'.ice.flushed ensures FlushedKnown(s', g) {
      assert Log(s', g) == Log(s, g);
      if g != h {
        assert FlushedKnown(s, g);
        OtherFlushed(s, s', g);
      }
    }
    forall g ensures ReadyKnown(s', g) { assert ReadyKnown(s, g); }
    forall x | x in s'.offers ensures StageKnown(s', x) { if x != sid { assert StageKnown(s, x); } }
  }

  /** Forwarding a candidate only lengthens the log. */
  lemma ForwardKeepsFlush(s: State, s': State, h: Handle, c: Stamp, replayed: bool)
    requires FlushInv(s) && Forwards(s, s', h, c, replayed)
    requires s'.objects[h].sid == s.objects[h].sid && s'.objects[h].homeCall == s.objects[h].homeCall
    ensures FlushInv(s')
  {
    hide Replayed;
    ReplayedAppend(Log(s, h), Delivery(c, replayed));
    assert Log(s', h) == Log(s, h) + [Delivery(c, replayed)];
    forall g | g in s'.ice.flushed ensures FlushedKnown(s', g) {
      assert FlushedKnown(s, g);
      if g != h { OtherFlushed(s, s', g); }
    }
    forall g ensures ReadyKnown(s', g) { assert ReadyKnown(s, g); }
    forall x | x in s'.offers ensures StageKnown(s', x) { assert StageKnown(s, x); }
  }

  lemma FlushStepKeepsFlush(s: State, sid: Sid)
    requires IceInv(s) && FlushInv(s) && Enabled(s, FlushStep(sid))
    ensures FlushInv(DoFlushStep(s, sid))
  {
    var h := s.offers[sid].h;
    if s.objects[h].pending == [] {
      FlushEndKeepsFlush(s, sid);
    } else {
      var c := s.objects[h].pending[0];
      assert StageKnown(s, sid) && SessionBuffers(s, h);
      assert FateIs(s, c, Pending(h)) by { assert c in s.objects[h].pending; }
      hide IceInv, FlushInv;
      FlushForwards(s, sid, h);
      ForwardKeepsFlush(s, DoFlushStep(s, sid), h, c, true);
    }
  }

  /** A candidate buffered by a session that is not ready. */
  lemma QueueKeepsFlush(s: State, s': State, h: Handle, c: Stamp)
    requires FlushInv(s) && Queued(s, s', h, c) && !s.objects[h].ready
    ensures FlushInv(s')
  {
    hide Replayed, Buffered;
    assert ReadyKnown(s, h);
    forall g | g in s'.ice.flushed ensures FlushedKnown(s', g) {
      assert FlushedKnown(s, g) && Log(s', g) == Log(s, g);
      if g != h { OtherFlushed(s, s', g); }
    }
    forall g ensures ReadyKnown(s', g) { assert ReadyKnown(s, g); }
    forall x | x in s'.offers ensures StageKnown(s', x) { assert StageKnown(s, x); }
  }

  /** A candidate for a registered session. */
  lemma StoreInSessionKeepsFlush(s: State, h: Handle, c: Stamp)
    requires FlushInv(s) && h in s.objects && c in s.ice.fate && s.ice.fate[c].Dropped?
    requires s.objects[h].ready ==> h in s.ice.wasReady
    ensures FlushInv(StoreInSession(s, h, c))
  {
    hide FlushInv;
    if s.objects[h].ready { ForwardKeepsFlush(s, StoreInSession(s, h, c), h, c, false); }
    else if |s.objects[h].pending| < MAX_PRESESSION_CANDIDATES { QueueKeepsFlush(s, StoreInSession(s, h, c), h, c); }
  }

  lemma StoreFlushesNothing(s: State, sid: Sid, c: Stamp)
    ensures SameFlush(s, StoreBeforeSession(s, sid, c))
  {
    hide Enqueue;
  }

  lemma EvictFlushesNothing(s: State)
    ensures SameFlush(s, Evict(s)) && SameFlush(s, Arrive(s))
  {
    hide Pop, Relocate;
  }

  lemma CandidateKeepsFlush(s: State, sid: Sid)
    requires IceInv(s) && FlushInv(s)
    ensures FlushInv(DoCandidate(s, sid))
  {
    var c, m := s.ice.arrived, Arrive(s);
    EvictFlushesNothing(s);
    ArriveKeepsIce(s);
    hide FlushInv, SameFlush, StoreInSession, StoreBeforeSession, Evict, Arrive;
    SameFlushKeepsInv(s, m);
    if m.closing {
    } else if sid in m.active && m.active[sid] in m.objects {
      assert SessionLog(m, m.active[sid]);
      StoreInSessionKeepsFlush(m, m.active[sid], c);
    } else {
      hide IceInv;
      EvictFlushesNothing(m);
      StoreFlushesNothing(m, sid, c);
      SameFlushKeepsInv(m, Evict(m));
      StoreFlushesNothing(Evict(m), sid, c);
      SameFlushKeepsInv(m, StoreBeforeSession(m, sid, c));
      SameFlushKeepsInv(Evict(m), StoreBeforeSession(Evict(m), sid, c));
    }
  }

  lemma OfferReturnedKeepsFlush(s: State, e: Event)
    requires FlushInv(s) && Enabled(s, e) && e.OfferReturned?
    ensures FlushInv(Apply(s, e))
  {
    hide FlushInv, BeginClose, MakeReady;
    var h := s.offers[e.sid].h;
    if e.sid !in s.active || s.active[e.sid] != h || e.failed {
      BeginCloseFlushesNothing(s, e.t, e.sid, e.stop, false, OfOffer(e.sid));
      SameFlushKeepsInv(s, Apply(s, e));
    } else {
      ReadyKeepsFlush(s, e.sid, h);
    }
  }

  lemma StepKeepsFlush(s: State, e: Event)
    requires IceInv(s) && FlushInv(s) && Enabled(s, e)
    ensures FlushInv(Apply(s, e))
  {
    hide IceInv, FlushInv, SameFlush;
    if e.Register? {
      var s' := Apply(s, e);
      assert s'.objects - {e.h} == s.objects;
      RegisterKeepsFlush(s, s', e.sid, e.h);
    } else {
      hide DoOfferReturned, DoFlushStep, DoCandidate;
      if e.OfferReturned? { OfferReturnedKeepsFlush(s, e); }
      else if e.FlushStep? { FlushStepKeepsFlush(s, e.sid); }
      else if e.Candidate? { CandidateKeepsFlush(s, e.sid); }
      else {
        QuietFlushesNothing(s, e);
        hide Apply;
        SameFlushKeepsInv(s, Apply(s, e));
      }
    }
  }

  lemma {:induction false} RunKeepsFlush(s: State, es: seq<Event>)
    requires IceInv(s) && FlushInv(s) && Possible(s, es)
    ensures IceInv(Run(s, es)) && FlushInv(Run(s, es))
    decreases |es|
  {
    hide IceInv, FlushInv, Apply;
    if es == [] {
    } else {
      StepKeepsIce(s, es[0]);
      StepKeepsFlush(s, es[0]);
      RunKeepsFlush(Apply(s, es[0]), es[1..]);
    }
  }

  // ---------------------------------------------------------------- when a flush ends

  ghost predicate IsFlushing(s: State, h: Handle) {
    h in s.objects && s.objects[h].sid in s.offers && s.offers[s.objects[h].sid] == Flushing(h)
  }

  /** The provider fails, or the offer is cancelled, in the middle of the flush. */
  ghost predicate InterruptsFlush(s: State, e: Event, h: Handle) {
    IsFlushing(s, h) && (e.OfferFail? || e.OfferCancel?) && e.sid == s.objects[h].sid
  }

  /** The loop finds the buffer empty. */
  ghost predicate FinishesFlush(s: State, e: Event, h: Handle) {
    IsFlushing(s, h) && e == FlushStep(s.objects[h].sid) && s.objects[h].pending == []
  }

  lemma CloserKeepsFlushing(s: State, t: Task, sid: Sid, stop: bool, force: bool, origin: Origin, x: Sid)
    requires x in s.offers && s.offers[x].Flushing?
    ensures BeginClose(s, t, sid, stop, force, origin).offers == s.offers
    ensures t in s.closers ==> PutBack(s, t).offers == s.offers
    ensures t in s.closers ==> x in EndClose(s, t).offers && EndClose(s, t).offers[x] == s.offers[x]
  {
    hide Pop, Relocate, HeldFor;
  }

  lemma CheckKeepsFlushing(s: State, e: Event, x: Sid)
    requires Enabled(s, e) && (e.CheckLast? || e.Decide?) && x in s.offers && s.offers[x].Flushing?
    ensures x in Apply(s, e).offers && Apply(s, e).offers[x] == s.offers[x]
  {
    hide HasResource, MakeDecision;
    var c := s.closers[e.t];
    match e
    case CheckLast(t) => DecisionKeepsFlushing(s, t, !HasResource(s.active, s.objects, s.objects[c.h].resource), false, x);
    case Decide(t, ringing) => DecisionKeepsFlushing(Refreshed(s, c.h, ringing), t, c.phase.last, true, x);
  }

  lemma DecisionKeepsFlushing(s: State, t: Task, last: bool, refreshed: bool, x: Sid)
    requires t in s.closers && s.closers[t].h in s.objects && x in s.offers && s.offers[x].Flushing?
    ensures x in MakeDecision(s, t, last, refreshed).offers && MakeDecision(s, t, last, refreshed).offers[x] == s.offers[x]
  {
    DecisionOutline(s, t, last, refreshed);
    hide MakeDecision;
  }

  lemma HandlerKeepsFlushing(s: State, sid: Sid, stop: bool, t: Task, x: Sid)
    requires x in s.offers && s.offers[x].Flushing? && x != sid
    ensures x in CancelHandler(s, sid, stop, t).offers && CancelHandler(s, sid, stop, t).offers[x] == s.offers[x]
    ensures x in HandleFailure(s, sid, stop, t).offers && HandleFailure(s, sid, stop, t).offers[x] == s.offers[x]
  {
    hide BeginClose;
    CloserKeepsFlushing(s, t, sid, stop, false, OfOffer(sid), x);
    hide Pop, Relocate, HeldFor;
  }

  lemma CancelKeepsFlushing(s: State, sid: Sid, stop: bool, t: Task, x: Sid)
    requires Enabled(s, OfferCancel(sid, stop, t)) && x in s.offers && s.offers[x].Flushing? && x != sid
    ensures x in DoOfferCancel(s, sid, stop, t).offers && DoOfferCancel(s, sid, stop, t).offers[x] == s.offers[x]
  {
    hide PutBack, CancelHandler;
    if InnerTask(s.offers[sid]).Some? {
      var t0 := InnerTask(s.offers[sid]).t;
      CloserKeepsFlushing(s, t0, sid, stop, false, OfOffer(sid), x);
      HandlerKeepsFlushing(PutBack(s, t0).(offers := s.offers - {sid}), sid, stop, t, x);
    } else {
      HandlerKeepsFlushing(s, sid, stop, t, x);
    }
  }

  lemma OfferEndsByItself(s: State, e: Event, sid: Sid)
    requires Enabled(s, e) && sid in s.offers && s.offers[sid].Flushing?
    requires !e.FlushStep? && !e.Candidate? && !e.Register? && !e.OfferReturned?
    requires !((e.OfferFail? || e.OfferCancel?) && e.sid == sid)
    ensures sid in Apply(s, e).offers && Apply(s, e).offers[sid] == s.offers[sid]
  {
    hide BeginClose, PutBack, EndClose, DoOfferCancel, HandleFailure, DoCheckLast, DoDecide, MarkInactive;
    match e
    case OfferBegin(x, t) => CloserKeepsFlushing(s, t, x, true, false, OfOffer(x), sid);
    case CloseBegin(t, x, stop, origin) => CloserKeepsFlushing(s, t, x, stop, false, origin, sid);
    case StopDone(t) => CloserKeepsFlushing(s, t, "", true, false, Tracked, sid);
    case CloseCancel(t) => CloserKeepsFlushing(s, t, "", true, false, Tracked, sid);
    case OfferFail(x, stop, t) => HandlerKeepsFlushing(s, x, stop, t, sid);
    case OfferCancel(x, stop, t) => CancelKeepsFlushing(s, x, stop, t, sid);
    case CheckLast(_) => CheckKeepsFlushing(s, e, sid);
    case Decide(_, _) => CheckKeepsFlushing(s, e, sid);
    case RemoveNext(t, current) =>
      var m := s.(removal := Removing(s.removal.queue[1..]));
      CloserKeepsFlushing(m, t, s.removal.queue[0], current, current, OfRemoval, sid);
    case _ =>
  }

  lemma InterruptedOffer(s: State, e: Event, h: Handle)
    requires Enabled(s, e) && InterruptsFlush(s, e, h)
    ensures !IsFlushing(Apply(s, e), h)
  {
    hide Relocate, Pop;
  }

  /** What a block does to the flush of one session. */
  ghost predicate FlushMoves(s: State, e: Event, s': State, h: Handle) {
    (h in s.ice.flushed ==> h in s'.ice.flushed && s'.ice.flushed[h] == s.ice.flushed[h]) &&
    (h in s.ice.wasReady ==> h in s'.ice.wasReady) &&
    (h in s'.ice.wasReady && h !in s.ice.wasReady ==> IsFlushing(s', h)) &&
    (IsFlushing(s', h) && !IsFlushing(s, h) ==> h !in s.ice.wasReady) &&
    (IsFlushing(s, h) && !IsFlushing(s', h) <==> InterruptsFlush(s, e, h) || FinishesFlush(s, e, h)) &&
    (h in s'.ice.flushed && h !in s.ice.flushed <==> FinishesFlush(s, e, h)) &&
    (FinishesFlush(s, e, h) ==> s'.ice.flushed[h] == Buffered(s, h)) &&
    (h in s.objects ==> h in s'.objects && Buffered(s, h) <= Buffered(s', h))
  }

  /** What a block that flushes nothing leaves of one session's flush. */
  lemma SameFlushAt(s: State, s': State, h: Handle)
    requires SameFlush(s, s')
    ensures s'.ice.flushed == s.ice.flushed && s'.ice.wasReady == s.ice.wasReady && Buffered(s', h) == Buffered(s, h)
    ensures (h in s'.objects <==> h in s.objects) && (IsFlushing(s', h) ==> IsFlushing(s, h))
    ensures h in s.objects ==> s'.objects[h].sid == s.objects[h].sid
  {
    if h in s.objects { assert SameFlushSession(s.objects[h], s'.objects[h]); }
  }

  lemma QuietMoves(s: State, e: Event, h: Handle)
    requires Enabled(s, e) && !e.Register? && !e.OfferReturned? && !e.FlushStep? && !e.Candidate?
    ensures FlushMoves(s, e, Apply(s, e), h)
  {
    hide Apply, SameFlush, Buffered;
    QuietFlushesNothing(s, e);
    SameFlushAt(s, Apply(s, e), h);
    if IsFlushing(s, h) {
      if InterruptsFlush(s, e, h) { InterruptedOffer(s, e, h); } else { OfferEndsByItself(s, e, s.objects[h].sid); }
    }
  }

  lemma ForwardingMoves(s: State, e: Event, h: Handle)
    requires FlushInv(s) && Enabled(s, e) && e.FlushStep? && s.objects[s.offers[e.sid].h].pending != []
    ensures FlushMoves(s, e, Apply(s, e), h)
  {
    hide FlushInv;
    var s' := Apply(s, e);
    assert s'.ice.flushed == s.ice.flushed && s'.ice.wasReady == s.ice.wasReady && s'.ice.buffered == s.ice.buffered;
    assert s'.offers == s.offers && Buffered(s', h) == Buffered(s, h);
    assert h in s.objects ==> h in s'.objects && s'.objects[h].sid == s.objects[h].sid;
    assert h in s'.objects ==> h in s.objects;
    assert IsFlushing(s', h) <==> IsFlushing(s, h);
    hide Apply, Buffered;
  }

  lemma FlushEndMoves(s: State, e: Event, h: Handle)
    requires FlushInv(s) && Enabled(s, e) && e.FlushStep? && s.objects[s.offers[e.sid].h].pending == []
    ensures FlushMoves(s, e, Apply(s, e), h)
  {
    assert StageKnown(s, e.sid);
    hide FlushInv;
    var s', g := Apply(s, e), s.offers[e.sid].h;
    assert s'.ice == s.ice.(flushed := s.ice.flushed[g := Buffered(s, g)]) && s'.objects == s.objects;
    assert s'.offers == s.offers[e.sid := Ending] && Buffered(s', h) == Buffered(s, h);
    assert s.objects[g].sid == e.sid && g !in s.ice.flushed;
    hide Apply, Buffered, StageKnown;
  }

  lemma FlushStepMoves(s: State, e: Event, h: Handle)
    requires FlushInv(s) && Enabled(s, e) && e.FlushStep?
    ensures FlushMoves(s, e, Apply(s, e), h)
  {
    hide FlushInv, Apply, FlushMoves;
    if s.objects[s.offers[e.sid].h].pending == [] { FlushEndMoves(s, e, h); } else { ForwardingMoves(s, e, h); }
  }

  lemma RegisterMoves(s: State, e: Event, h: Handle)
    requires FlushInv(s) && Enabled(s, e) && e.Register?
    ensures FlushMoves(s, e, Apply(s, e), h)
  {
    hide FlushInv, Pop, Relocate, HeldFor;
  }

  lemma OfferReturnedMoves(s: State, e: Event, h: Handle)
    requires FlushInv(s) && Enabled(s, e) && e.OfferReturned?
    ensures FlushMoves(s, e, Apply(s, e), h)
  {
    hide FlushInv, BeginClose, MakeReady, SameFlush, FlushMoves;
    var g := s.offers[e.sid].h;
    NegotiatedOnce(s, e.sid);
    if e.sid in s.active && s.active[e.sid] == g && !e.failed {
      MadeReadyMoves(s, e, e.sid, g, h);
    } else {
      NotReadyMoves(s, e, h);
    }
  }

  lemma NegotiatedOnce(s: State, sid: Sid)
    requires FlushInv(s) && sid in s.offers && s.offers[sid].Negotiating?
    ensures var h := s.offers[sid].h; h in s.objects && s.objects[h].sid == sid && h !in s.ice.wasReady
  {
    assert StageKnown(s, sid);
  }

  lemma NotReadyMoves(s: State, e: Event, h: Handle)
    requires Enabled(s, e) && e.OfferReturned?
    requires e.failed || e.sid !in s.active || s.active[e.sid] != s.offers[e.sid].h
    ensures FlushMoves(s, e, Apply(s, e), h)
  {
    hide Apply, SameFlush, Buffered;
    NotReadyFlushesNothing(s, e);
    SameFlushAt(s, Apply(s, e), h);
    if IsFlushing(s, h) { NotReadyKeepsFlushing(s, e, h); }
  }

  lemma NotReadyFlushesNothing(s: State, e: Event)
    requires Enabled(s, e) && e.OfferReturned?
    requires e.failed || e.sid !in s.active || s.active[e.sid] != s.offers[e.sid].h
    ensures SameFlush(s, Apply(s, e))
  {
    hide BeginClose, MakeReady, SameFlushSession;
    BeginCloseFlushesNothing(s, e.t, e.sid, e.stop, false, OfOffer(e.sid));
    SessionIsItself(s);
  }

  lemma SessionIsItself(s: State)
    ensures forall h :: h in s.objects ==> SameFlushSession(s.objects[h], s.objects[h])
  {
  }

  lemma NotReadyKeepsFlushing(s: State, e: Event, h: Handle)
    requires Enabled(s, e) && e.OfferReturned? && IsFlushing(s, h)
    requires e.failed || e.sid !in s.active || s.active[e.sid] != s.offers[e.sid].h
    ensures IsFlushing(Apply(s, e), h)
  {
    hide Relocate, Pop, HeldFor, MakeReady;
  }

  lemma MadeReadyMoves(s: State, e: Event, sid: Sid, g: Handle, h: Handle)
    requires sid in s.offers && s.offers[sid] == Negotiating(g) && g in s.objects && s.objects[g].sid == sid
    requires g !in s.ice.wasReady && e.OfferReturned?
    ensures FlushMoves(s, e, MakeReady(s, sid, g), h)
  {
  }

  lemma SameFlushMoves(s: State, e: Event, s': State, h: Handle)
    requires SameFlush(s, s') && s'.offers == s.offers && e.Candidate?
    ensures FlushMoves(s, e, s', h)
  {
  }

  lemma StoredMoves(s: State, e: Event, m: State, g: Handle, c: Stamp, h: Handle)
    requires SameFlush(s, m) && m.offers == s.offers && g in m.objects && e.Candidate?
    ensures FlushMoves(s, e, StoreInSession(m, g, c), h)
  {
    hide SameFlush, FinishesFlush, InterruptsFlush, StoreInSession, Buffered;
    SameFlushAt(s, m, h);
    CandidateIsNoStep(s, e, h);
    StoredAt(m, g, c, h);
  }

  lemma StoredAt(s: State, g: Handle, c: Stamp, h: Handle)
    requires g in s.objects
    ensures var s' := StoreInSession(s, g, c);
      s'.offers == s.offers && s'.ice.flushed == s.ice.flushed && s'.ice.wasReady == s.ice.wasReady &&
      (h in s'.objects <==> h in s.objects) && (h in s.objects ==> s'.objects[h].sid == s.objects[h].sid) &&
      Buffered(s, h) <= Buffered(s', h)
  {
  }

  lemma CandidateIsNoStep(s: State, e: Event, h: Handle)
    requires e.Candidate?
    ensures !FinishesFlush(s, e, h) && !InterruptsFlush(s, e, h)
  {
  }

  lemma CandidateMoves(s: State, e: Event, h: Handle)
    requires Enabled(s, e) && e.Candidate?
    ensures FlushMoves(s, e, Apply(s, e), h)
  {
    hide Arrive, Evict, StoreBeforeSession, StoreInSession, SameFlush, FlushMoves;
    var c, m := s.ice.arrived, Arrive(s);
    EvictFlushesNothing(s);
    ArrivedOffers(s, e.sid, c);
    if m.closing {
      SameFlushMoves(s, e, m, h);
    } else if e.sid in m.active && m.active[e.sid] in m.objects {
      StoredMoves(s, e, m, m.active[e.sid], c, h);
    } else {
      var b := if e.sid in m.candidates.table then m else Evict(m);
      EvictFlushesNothing(m);
      ArrivedOffers(m, e.sid, c);
      if e.sid !in m.candidates.table { SameFlushIsTransitive(s, m, b); }
      StoreFlushesNothing(b, e.sid, c);
      ArrivedOffers(b, e.sid, c);
      SameFlushIsTransitive(s, b, StoreBeforeSession(b, e.sid, c));
      SameFlushMoves(s, e, StoreBeforeSession(b, e.sid, c), h);
    }
  }

  lemma ArrivedOffers(s: State, sid: Sid, c: Stamp)
    ensures Arrive(s).offers == s.offers && Evict(s).offers == s.offers && StoreBeforeSession(s, sid, c).offers == s.offers
  {
  }

  lemma StepMoves(s: State, e: Event, h: Handle)
    requires FlushInv(s) && Enabled(s, e)
    ensures FlushMoves(s, e, Apply(s, e), h)
  {
    hide FlushInv, Apply, FlushMoves;
    if e.FlushStep? { FlushStepMoves(s, e, h); }
    else if e.Register? { RegisterMoves(s, e, h); }
    else if e.OfferReturned? { OfferReturnedMoves(s, e, h); }
    else if e.Candidate? { CandidateMoves(s, e, h); }
    else { QuietMoves(s, e, h); }
  }

  /** Exactly when a flush in progress ends, and that by its normal end everything buffered has been forwarded. */
  lemma FlushEndsExactly(s: State, e: Event, h: Handle)
    requires IceInv(s) && FlushInv(s) && Enabled(s, e) && IsFlushing(s, h)
    ensures !IsFlushing(Apply(s, e), h) <==> InterruptsFlush(s, e, h) || FinishesFlush(s, e, h)
    ensures FinishesFlush(s, e, h) ==> Replayed(Log(Apply(s, e), h)) == Buffered(Apply(s, e), h)
  {
    StepMoves(s, e, h);
    StepKeepsIce(s, e);
    if FinishesFlush(s, e, h) {
      assert Apply(s, e).objects[h].pending == [];
      hide Apply, FlushMoves;
      EmptyBufferIsReplayed(Apply(s, e), h);
    }
  }

  // ---------------------------------------------------------------- theorems over whole runs

  /** Some block of the run interrupts the session's flush. */
  ghost predicate Interrupts(s: State, es: seq<Event>, h: Handle)
    requires Possible(s, es)
    decreases |es|
  {
    es != [] && (InterruptsFlush(s, es[0], h) || Interrupts(Apply(s, es[0]), es[1..], h))
  }

  /** Ready, but its flush will never end normally. */
  ghost predicate CutOff(s: State, h: Handle) {
    h in s.ice.wasReady && h !in s.ice.flushed && !IsFlushing(s, h)
  }

  lemma {:induction false} RunCutsOff(s: State, es: seq<Event>, h: Handle)
    requires IceInv(s) && FlushInv(s) && Possible(s, es)
    ensures CutOff(Run(s, es), h) <==> CutOff(s, h) || Interrupts(s, es, h)
    decreases |es|
  {
    hide IceInv, FlushInv, Apply, InterruptsFlush, FinishesFlush;
    if es != [] {
      var m := Apply(s, es[0]);
      StepKeepsIce(s, es[0]);
      StepKeepsFlush(s, es[0]);
      StepMoves(s, es[0], h);
      FlushingIsPending(s, h);
      FlushingIsPending(m, h);
      InterruptIsNoFinish(s, es[0], h);
      RunCutsOff(m, es[1..], h);
    }
  }

  lemma FlushingIsPending(s: State, h: Handle)
    requires FlushInv(s)
    ensures IsFlushing(s, h) ==> h in s.ice.wasReady && h !in s.ice.flushed
    ensures h in s.ice.flushed ==> h in s.ice.wasReady
  {
    if IsFlushing(s, h) { assert StageKnown(s, s.objects[h].sid); }
    if h in s.ice.flushed { assert FlushedKnown(s, h); }
  }

  lemma InterruptIsNoFinish(s: State, e: Event, h: Handle)
    ensures !(InterruptsFlush(s, e, h) && FinishesFlush(s, e, h))
    ensures InterruptsFlush(s, e, h) || FinishesFlush(s, e, h) ==> IsFlushing(s, h)
  {
  }

  lemma InitialFlush()
    ensures IceInv(INITIAL) && FlushInv(INITIAL)
  {
  }

  /** In every run: a session's flush has ended normally exactly when the provider made it ready, its flush is no
      longer running, and neither a failure nor a cancellation of its offer interrupted it. Then everything that
      had been buffered by that end, before or after the session existed, has been forwarded in order of arrival;
      and unless its home call has ended, everything ever buffered for it. */
  lemma FlushCompletesExactly(es: seq<Event>, h: Handle)
    requires Possible(INITIAL, es)
    ensures
      var s := Run(INITIAL, es);
      (h in s.ice.flushed <==> h in s.ice.wasReady && !IsFlushing(s, h) && !Interrupts(INITIAL, es, h)) &&
      (h in s.ice.flushed ==> h in s.objects && s.ice.flushed[h] <= Replayed(Log(s, h))) &&
      (h in s.ice.flushed && (s.objects[h].ready || !s.objects[h].homeCall) ==> Replayed(Log(s, h)) == Buffered(s, h))
  {
    InitialFlush();
    RunKeepsFlush(INITIAL, es);
    RunCutsOff(INITIAL, es, h);
    var s := Run(INITIAL, es);
    FlushingIsPending(s, h);
    if h in s.ice.flushed {
      assert FlushedKnown(s, h);
      if s.objects[h].pending == [] { EmptyBufferIsReplayed(s, h); }
    }
  }

  lemma {:induction false} FlushedStays(s: State, es: seq<Event>, h: Handle)
    requires IceInv(s) && FlushInv(s) && Possible(s, es) && h in s.ice.flushed
    ensures h in Run(s, es).ice.flushed && Run(s, es).ice.flushed[h] == s.ice.flushed[h]
    decreases |es|
  {
    hide IceInv, FlushInv, Apply, InterruptsFlush, FinishesFlush;
    if es != [] {
      StepKeepsIce(s, es[0]);
      StepKeepsFlush(s, es[0]);
      StepMoves(s, es[0], h);
      FlushedStays(Apply(s, es[0]), es[1..], h);
    }
  }

  lemma {:induction false} FlushHoldsAll(s: State, es: seq<Event>, h: Handle)
    requires IceInv(s) && FlushInv(s) && Possible(s, es)
    requires h in s.objects && h !in s.ice.flushed && h in Run(s, es).ice.flushed
    ensures Buffered(s, h) <= Run(s, es).ice.flushed[h]
    decreases |es|
  {
    hide IceInv, FlushInv, Apply, InterruptsFlush, FinishesFlush, Buffered;
    if es != [] {
      var m := Apply(s, es[0]);
      StepKeepsIce(s, es[0]);
      StepKeepsFlush(s, es[0]);
      StepMoves(s, es[0], h);
      if h in m.ice.flushed { FlushedStays(m, es[1..], h); } else { FlushHoldsAll(m, es[1..], h); }
    }
  }

  /** Whatever was buffered for a session at any moment before its flush ended normally has, from that end on,
      been forwarded in order of arrival. */
  lemma CompletedFlushForwardsAll(es0: seq<Event>, es: seq<Event>, h: Handle)
    requires Possible(INITIAL, es0) && Possible(Run(INITIAL, es0), es)
    requires
      var s := Run(INITIAL, es0);
      h in s.objects && h !in s.ice.flushed && h in Run(s, es).ice.flushed
    ensures Buffered(Run(INITIAL, es0), h) <= Replayed(Log(Run(Run(INITIAL, es0), es), h))
  {
    InitialFlush();
    RunKeepsFlush(INITIAL, es0);
    RunKeepsFlush(Run(INITIAL, es0), es);
    FlushHoldsAll(Run(INITIAL, es0), es, h);
    assert FlushedKnown(Run(Run(INITIAL, es0), es), h);
  }
}

/** Which ICE candidates are dropped: exactly those that find no room and those whose buffer is discarded. */
module CameraDrops {
  import opened CameraState
  import opened CameraInvariants
  import opened CameraIce

  /** A candidate that arrives now for the id is stored nowhere and forwarded to nobody. */
  ghost predicate Ignored(s: State, sid: Sid) {
    s.closing ||
    if sid in s.active then
      s.active[sid] in s.objects && !s.objects[s.active[sid]].ready &&
      |s.objects[s.active[sid]].pending| >= 64
    else |HeldFor(s.candidates, sid)| >= 64
  }

  /** The block throws away the pre-session buffer of the id. */
  ghost predicate DiscardsBuffer(s: State, e: Event, x: Sid)
    requires Enabled(s, e)
  {
    match e
    case OfferBegin(sid, _) => x == sid && !s.closing && sid !in s.offers && sid in s.active
    case OfferReturned(sid, failed, _, _) => x == sid && failed && sid in s.active && s.active[sid] == s.offers[sid].h
    case OfferFail(sid, _, _) => x == sid
    case OfferCancel(sid, _, _) =>
      x == sid && !s.offers[sid].ClosingOld? && !s.offers[sid].Cleaning? && !s.offers[sid].Ending?
    case CloseBegin(_, sid, _, _) => x == sid
    case RemoveNext(_, _) => x == s.removal.queue[0]
    case RemoveDrained => true
    case Candidate(sid) =>
      !s.closing && sid !in s.active && sid !in s.candidates.table &&
      |s.candidates.order| >= 16 && x == s.candidates.order[0]
    case _ => false
  }

  ghost predicate Drops(s: State, e: Event, c: Stamp)
    requires Enabled(s, e)
  {
    (e.Candidate? && c == s.ice.arrived && Ignored(s, e.sid)) ||
    (c in s.ice.fate && s.ice.fate[c].Waiting? && DiscardsBuffer(s, e, s.ice.fate[c].sid))
  }

  lemma WaitingIsHeld(s: State, sid: Sid, c: Stamp)
    requires IceInv(s)
    ensures c in HeldFor(s.candidates, sid) <==> FateIs(s, c, Waiting(sid))
  {
    if sid in s.candidates.table && c in s.candidates.table[sid] { assert BufferKnown(s, sid); }
    if FateIs(s, c, Waiting(sid)) { assert StampKnown(s, c); }
  }

  lemma DiscardDrops(s: State, sid: Sid, c: Stamp)
    requires IceInv(s)
    ensures FateIs(Discard(s, sid), c, Dropped) <==> FateIs(s, c, Dropped) || FateIs(s, c, Waiting(sid))
    ensures c in Discard(s, sid).ice.fate <==> c in s.ice.fate
    ensures FateIs(Discard(s, sid), c, Dropped) || Lookup(Discard(s, sid), c) == Lookup(s, c)
  {
    WaitingIsHeld(s, sid, c);
    hide IceInv, HeldFor, Pop;
  }

  /** The fate of a candidate, or dropped for one that has not arrived. */
  function Lookup(s: State, c: Stamp): Fate { if c in s.ice.fate then s.ice.fate[c] else Dropped }

  ghost predicate SameFates(s: State, s': State) { s'.ice.fate == s.ice.fate }

  lemma CloserKeepsFates(s: State, t: Task, sid: Sid, stop: bool, force: bool, origin: Origin)
    ensures SameFates(Discard(s, sid), BeginClose(s, t, sid, stop, force, origin))
    ensures t in s.closers ==> SameFates(s, PutBack(s, t)) && SameFates(s, EndClose(s, t))
  {
    hide Pop, Relocate, HeldFor;
  }

  lemma CheckKeepsFates(s: State, e: Event)
    requires Enabled(s, e) && (e.CheckLast? || e.Decide?)
    ensures SameFates(s, Apply(s, e))
  {
    hide HasResource;
  }

  lemma HandlerDrops(s: State, sid: Sid, stop: bool, t: Task, c: Stamp)
    requires IceInv(s)
    ensures FateIs(CancelHandler(s, sid, stop, t), c, Dropped) <==> FateIs(s, c, Dropped) || FateIs(s, c, Waiting(sid))
  {
    hide IceInv, Discard, BeginClose;
    CloserKeepsFates(s, t, sid, stop, false, OfOffer(sid));
    DiscardDrops(s, sid, c);
  }

  lemma CancelDrops(s: State, e: Event, c: Stamp)
    requires IceInv(s) && Enabled(s, e) && e.OfferCancel?
    ensures FateIs(Apply(s, e), c, Dropped) <==> FateIs(s, c, Dropped) || Drops(s, e, c)
  {
    hide IceInv, CancelHandler, PutBack;
    if InnerTask(s.offers[e.sid]).Some? {
      var t0 := InnerTask(s.offers[e.sid]).t;
      var m := PutBack(s, t0).(offers := s.offers - {e.sid});
      CloserKeepsFates(s, t0, e.sid, e.stop, false, OfOffer(e.sid));
      PutBackKeepsIce(s, t0, e.sid);
      HandlerDrops(m, e.sid, e.stop, e.t, c);
    } else {
      HandlerDrops(s, e.sid, e.stop, e.t, c);
    }
  }

  lemma PutBackKeepsIce(s: State, t: Task, sid: Sid)
    requires IceInv(s) && t in s.closers
    ensures IceInv(PutBack(s, t).(offers := s.offers - {sid}))
  {
    hide IceInv;
    SameIceKeepsInv(s, PutBack(s, t).(offers := s.offers - {sid}));
  }

  lemma CloseDrops(s: State, t: Task, sid: Sid, stop: bool, force: bool, origin: Origin, c: Stamp)
    requires IceInv(s)
    ensures FateIs(BeginClose(s, t, sid, stop, force, origin), c, Dropped) <==> FateIs(s, c, Dropped) || FateIs(s, c, Waiting(sid))
  {
    DiscardDrops(s, sid, c);
    CloserKeepsFates(s, t, sid, stop, force, origin);
    hide IceInv, Discard, BeginClose;
  }

  lemma OfferBeginDrops(s: State, sid: Sid, t: Task, c: Stamp)
    requires IceInv(s) && Enabled(s, OfferBegin(sid, t))
    ensures FateIs(BeginOffer(s, sid, t), c, Dropped) <==> FateIs(s, c, Dropped) || Drops(s, OfferBegin(sid, t), c)
  {
    hide IceInv, BeginClose;
    CloseDrops(s, t, sid, true, false, OfOffer(sid), c);
  }

  lemma OfferReturnedDrops(s: State, sid: Sid, failed: bool, stop: bool, t: Task, c: Stamp)
    requires IceInv(s) && Enabled(s, OfferReturned(sid, failed, stop, t))
    ensures FateIs(DoOfferReturned(s, sid, failed, stop, t), c, Dropped) <==>
      FateIs(s, c, Dropped) || Drops(s, OfferReturned(sid, failed, stop, t), c)
  {
    hide IceInv, BeginClose;
    CloseDrops(s, t, sid, stop, false, OfOffer(sid), c);
  }

  lemma RemoveNextDrops(s: State, t: Task, current: bool, c: Stamp)
    requires IceInv(s) && Enabled(s, RemoveNext(t, current))
    ensures FateIs(DoRemoveNext(s, t, current), c, Dropped) <==> FateIs(s, c, Dropped) || Drops(s, RemoveNext(t, current), c)
  {
    hide IceInv, BeginClose;
    var m := s.(removal := Removing(s.removal.queue[1..]));
    SameIceKeepsInv(s, m);
    CloseDrops(m, t, s.removal.queue[0], current, current, OfRemoval, c);
  }

  /** Blocks that begin a close, and so discard at most the buffer of one id. */
  lemma ClosingDrops(s: State, e: Event, c: Stamp)
    requires IceInv(s) && Enabled(s, e)
    requires e.OfferBegin? || e.OfferReturned? || e.OfferFail? || e.CloseBegin? || e.RemoveNext?
    ensures FateIs(Apply(s, e), c, Dropped) <==> FateIs(s, c, Dropped) || Drops(s, e, c)
  {
    hide IceInv, BeginOffer, DoOfferReturned, BeginClose, DoRemoveNext;
    match e
    case OfferBegin(sid, t) => OfferBeginDrops(s, sid, t, c);
    case OfferReturned(sid, failed, stop, t) => OfferReturnedDrops(s, sid, failed, stop, t, c);
    case OfferFail(sid, stop, t) => CloseDrops(s, t, sid, stop, false, OfOffer(sid), c);
    case CloseBegin(t, sid, stop, origin) => CloseDrops(s, t, sid, stop, false, origin, c);
    case RemoveNext(t, current) => RemoveNextDrops(s, t, current, c);
  }

  lemma RegisterDrops(s: State, e: Event, c: Stamp)
    requires IceInv(s) && Enabled(s, e) && e.Register?
    ensures FateIs(Apply(s, e), c, Dropped) <==> FateIs(s, c, Dropped)
  {
    WaitingIsHeld(s, e.sid, c);
    hide IceInv, HeldFor, Pop;
  }

  lemma FrontIsPending(s: State, h: Handle)
    requires IceInv(s) && h in s.objects && s.objects[h].pending != []
    ensures FateIs(s, s.objects[h].pending[0], Pending(h))
  {
    assert SessionBuffers(s, h);
    assert s.objects[h].pending[0] in s.objects[h].pending;
  }

  lemma FlushStepDrops(s: State, e: Event, c: Stamp)
    requires IceInv(s) && Enabled(s, e) && e.FlushStep?
    ensures FateIs(Apply(s, e), c, Dropped) <==> FateIs(s, c, Dropped)
  {
    hide IceInv;
    var h := s.offers[e.sid].h;
    if s.objects[h].pending != [] { FrontIsPending(s, h); }
  }

  /** Storing the newest candidate n changes no other fate, and n is then dropped only for want of room. */
  lemma StoreInSessionDrops(s: State, h: Handle, n: Stamp, c: Stamp)
    requires h in s.objects && FateIs(s, n, Dropped)
    ensures var o, s' := s.objects[h], StoreInSession(s, h, n);
      FateIs(s', c, Dropped) <==>
        FateIs(s, c, Dropped) && (c != n || (!o.ready && |o.pending| >= MAX_PRESESSION_CANDIDATES))
  {
  }

  lemma StoreBeforeSessionDrops(s: State, sid: Sid, n: Stamp, c: Stamp)
    requires FateIs(s, n, Dropped)
    ensures FateIs(StoreBeforeSession(s, sid, n), c, Dropped) <==>
      FateIs(s, c, Dropped) && (c != n || |HeldFor(s.candidates, sid)| >= MAX_PRESESSION_CANDIDATES)
  {
  }

  lemma ArriveDrops(s: State, c: Stamp)
    ensures FateIs(Arrive(s), c, Dropped) <==> FateIs(s, c, Dropped) || c == s.ice.arrived
    ensures c != s.ice.arrived ==> Lookup(Arrive(s), c) == Lookup(s, c)
    ensures Arrive(s) == s.(ice := Arrive(s).ice)
  {
  }

  lemma EvictDrops(s: State, sid: Sid, c: Stamp)
    requires IceInv(s) && sid !in s.candidates.table
    ensures FateIs(Evict(s), c, Dropped) <==>
      FateIs(s, c, Dropped) ||
      (|s.candidates.order| >= MAX_PRESESSION_SESSIONS && FateIs(s, c, Waiting(s.candidates.order[0])))
    ensures HeldFor(Evict(s).candidates, sid) == []
  {
    if |s.candidates.order| >= MAX_PRESESSION_SESSIONS { DiscardDrops(s, s.candidates.order[0], c); }
    hide IceInv, Relocate;
  }

  lemma NewestIsUnknown(s: State)
    requires IceInv(s)
    ensures s.ice.arrived !in s.ice.fate
  {
    assert forall c :: c in s.ice.fate ==> StampKnown(s, c);
  }

  lemma RegisteredIsAnObject(s: State, sid: Sid)
    requires Inv(s) && sid in s.active
    ensures s.active[sid] in s.objects
  {
    assert ActiveKnown(s, sid);
  }

  /** A candidate for a registered session. */
  lemma ActiveCandidateDrops(s: State, sid: Sid, c: Stamp)
    requires !s.closing && sid in s.active && s.active[sid] in s.objects && s.ice.arrived !in s.ice.fate
    ensures FateIs(DoCandidate(s, sid), c, Dropped) <==>
      FateIs(s, c, Dropped) || (c == s.ice.arrived && Ignored(s, sid))
  {
    hide Arrive, StoreInSession, StoreBeforeSession, Evict;
    ArriveDrops(s, c);
    ArriveDrops(s, s.ice.arrived);
    StoreInSessionDrops(Arrive(s), s.active[sid], s.ice.arrived, c);
  }

  /** A candidate for an id that has a buffer. */
  lemma BufferedCandidateDrops(s: State, sid: Sid, c: Stamp)
    requires !s.closing && sid !in s.active && sid in s.candidates.table && s.ice.arrived !in s.ice.fate
    ensures FateIs(DoCandidate(s, sid), c, Dropped) <==>
      FateIs(s, c, Dropped) || (c == s.ice.arrived && Ignored(s, sid))
  {
    hide Arrive, StoreInSession, StoreBeforeSession, Evict, HeldFor;
    ArriveDrops(s, c);
    ArriveDrops(s, s.ice.arrived);
    StoreBeforeSessionDrops(Arrive(s), sid, s.ice.arrived, c);
  }

  /** The first candidate for an id, which may evict the oldest buffer. */
  lemma NewCandidateDrops(s: State, sid: Sid, c: Stamp)
    requires IceInv(s) && !s.closing && sid !in s.active && sid !in s.candidates.table
    ensures FateIs(DoCandidate(s, sid), c, Dropped) <==>
      FateIs(s, c, Dropped) || (c == s.ice.arrived && Ignored(s, sid)) ||
      (|s.candidates.order| >= MAX_PRESESSION_SESSIONS && FateIs(s, c, Waiting(s.candidates.order[0])))
  {
    hide IceInv, Arrive, StoreInSession, StoreBeforeSession, Evict, HeldFor;
    var n, m := s.ice.arrived, Arrive(s);
    NewestIsUnknown(s);
    ArriveKeepsIce(s);
    ArriveDrops(s, c);
    ArriveDrops(s, n);
    NothingHeld(s, sid);
    EvictDrops(m, sid, c);
    EvictDrops(m, sid, n);
    StoreBeforeSessionDrops(Evict(m), sid, n, c);
  }

  lemma IgnoredDrops(s: State, sid: Sid, c: Stamp)
    requires s.closing
    ensures FateIs(DoCandidate(s, sid), c, Dropped) <==>
      FateIs(s, c, Dropped) || (c == s.ice.arrived && Ignored(s, sid))
  {
    hide Arrive, StoreInSession, StoreBeforeSession, Evict;
    ArriveDrops(s, c);
  }

  lemma CandidateDrops(s: State, e: Event, c: Stamp)
    requires IceInv(s) && Inv(s) && Enabled(s, e) && e.Candidate?
    ensures FateIs(Apply(s, e), c, Dropped) <==> FateIs(s, c, Dropped) || Drops(s, e, c)
  {
    hide IceInv, Inv, DoCandidate, Ignored, HeldFor;
    NewestIsUnknown(s);
    if s.closing { IgnoredDrops(s, e.sid, c); }
    else if e.sid in s.active {
      RegisteredIsAnObject(s, e.sid);
      ActiveCandidateDrops(s, e.sid, c);
    } else if e.sid in s.candidates.table { BufferedCandidateDrops(s, e.sid, c); }
    else { NewCandidateDrops(s, e.sid, c); }
  }

  lemma NothingHeld(s: State, sid: Sid)
    requires sid !in s.candidates.table
    ensures HeldFor(s.candidates, sid) == []
  {
  }

  /** A block drops exactly the candidates that arrive without finding room and those waiting in a buffer it
      discards; what is dropped stays dropped. */
  lemma StepDropsExactly(s: State, e: Event, c: Stamp)
    requires IceInv(s) && Inv(s) && Enabled(s, e)
    ensures FateIs(Apply(s, e), c, Dropped) <==> FateIs(s, c, Dropped) || Drops(s, e, c)
  {
    hide IceInv, Inv, BeginClose, PutBack, EndClose, DoCheckLast, DoDecide, DoCandidate, DoOfferCancel;
    match e
    case OfferCancel(_, _, _) => CancelDrops(s, e, c);
    case Register(_, _, _, _, _, _) => RegisterDrops(s, e, c);
    case FlushStep(_) => FlushStepDrops(s, e, c);
    case Candidate(_) => CandidateDrops(s, e, c);
    case CheckLast(_) => CheckKeepsFates(s, e);
    case Decide(_, _) => CheckKeepsFates(s, e);
    case StopDone(t) => CloserKeepsFates(s, t, "", true, false, Tracked);
    case CloseCancel(t) => CloserKeepsFates(s, t, "", true, false, Tracked);
    case _ =>
      if e.OfferBegin? || e.OfferReturned? || e.OfferFail? || e.CloseBegin? || e.RemoveNext? { ClosingDrops(s, e, c); }
  }

  ghost predicate DropsIn(s: State, es: seq<Event>, c: Stamp)
    requires Possible(s, es)
    decreases |es|
  {
    es != [] && (Drops(s, es[0], c) || DropsIn(Apply(s, es[0]), es[1..], c))
  }

  lemma {:induction false} RunDrops(s: State, es: seq<Event>, c: Stamp)
    requires IceInv(s) && Inv(s) && Possible(s, es)
    ensures FateIs(Run(s, es), c, Dropped) <==> FateIs(s, c, Dropped) || DropsIn(s, es, c)
    decreases |es|
  {
    hide IceInv, Inv, Apply, Drops;
    if es != [] {
      StepKeepsIce(s, es[0]);
      StepKeepsInv(s, es[0]);
      StepDropsExactly(s, es[0], c);
      RunDrops(Apply(s, es[0]), es[1..], c);
    }
  }

  /** Over every run, a candidate has been dropped exactly when some block of the run dropped it. */
  lemma DroppedExactly(es: seq<Event>, c: Stamp)
    requires Possible(INITIAL, es)
    ensures FateIs(Run(INITIAL, es), c, Dropped) <==> DropsIn(INITIAL, es, c)
  {
    InitialInv();
    assert IceInv(INITIAL);
    RunDrops(INITIAL, es, c);
  }
}

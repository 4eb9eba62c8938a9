/** When a session can be lost: exactly when its id is used again while it is registered or being closed. */
module CameraLoss {
  import opened CameraState
  import opened CameraInvariants
  import opened CameraClose

  /** A put-back that finds its id taken, or a registration that replaces a session. */
  ghost predicate TakesTheId(s: State, e: Event) {
    match e
    case Register(sid, _, _, _, _, _) => sid in s.active
    case CloseCancel(t) => t in s.closers && s.closers[t].sid in s.active
    case OfferCancel(sid, _, _) =>
      sid in s.offers && InnerTask(s.offers[sid]).Some? && InnerTask(s.offers[sid]).t in s.closers &&
      s.closers[InnerTask(s.offers[sid]).t].sid in s.active
    case _ => false
  }

  /** No session becomes lost. */
  ghost predicate LosesNone(s: State, s': State) {
    forall h :: h in s'.objects && Lost(s', h) ==> Lost(s, h)
  }

  lemma BeginCloseLosesNone(s: State, t: Task, sid: Sid, stop: bool, force: bool, origin: Origin)
    ensures LosesNone(s, BeginClose(s, t, sid, stop, force, origin))
    ensures BeginClose(s, t, sid, stop, force, origin).objects == s.objects
  {
  }

  lemma EndCloseLosesNone(s: State, t: Task)
    requires t in s.closers
    ensures LosesNone(s, EndClose(s, t))
  {
  }

  lemma PutBackLoses(s: State, t: Task)
    requires t in s.closers && CloserKnown(s, t)
    ensures s.closers[t].sid in s.active ==> !LosesNone(s, PutBack(s, t))
    ensures s.closers[t].sid !in s.active ==> LosesNone(s, PutBack(s, t))
  {
    assert !Lost(s, s.closers[t].h);
    if s.closers[t].sid in s.active { assert Lost(PutBack(s, t), s.closers[t].h); }
  }

  lemma RegisterLoses(s: State, sid: Sid, h: Handle, resource: string, homeCall: bool, ringCall: bool, ringPreview: bool)
    requires h !in s.objects && (sid in s.active ==> ActiveKnown(s, sid))
    ensures
      var s' := DoRegister(s, sid, h, resource, homeCall, ringCall, ringPreview);
      if sid in s.active then !LosesNone(s, s') else LosesNone(s, s')
  {
    if sid in s.active {
      assert !Lost(s, s.active[sid]);
      assert Lost(DoRegister(s, sid, h, resource, homeCall, ringCall, ringPreview), s.active[sid]);
    }
  }

  lemma CheckLosesNone(s: State, t: Task)
    requires t in s.closers && s.closers[t].h in s.objects
    ensures LosesNone(s, DoCheckLast(s, t))
    ensures forall r | s.closers[t].phase.Refreshing? :: LosesNone(s, DoDecide(s, t, r))
  {
  }

  lemma LossIgnoresOffers(s: State, m: State, offers: map<Sid, Stage>)
    ensures LosesNone(s, m) <==> LosesNone(s, m.(offers := offers))
  {
    var m' := m.(offers := offers);
    forall h ensures Lost(m, h) <==> Lost(m', h) {}
  }

  lemma HandlerLosesNone(s: State, sid: Sid, stop: bool, t: Task)
    ensures LosesNone(s, CancelHandler(s, sid, stop, t))
    ensures CancelHandler(s, sid, stop, t).objects == s.objects
  {
    BeginCloseLosesNone(s, t, sid, stop, false, OfOffer(sid));
    LossIgnoresOffers(s, BeginClose(s, t, sid, stop, false, OfOffer(sid)), CancelHandler(s, sid, stop, t).offers);
    hide BeginClose;
  }

  lemma HandlerKeepsLost(m: State, sid: Sid, stop: bool, t: Task, h: Handle)
    requires h in m.objects && Lost(m, h) && (sid in m.active ==> m.active[sid] != h)
    ensures h in CancelHandler(m, sid, stop, t).objects && Lost(CancelHandler(m, sid, stop, t), h)
  {
  }

  lemma LossIsTransitive(s: State, m: State, s': State)
    requires LosesNone(s, m) && LosesNone(m, s') && m.objects.Keys == s'.objects.Keys
    ensures LosesNone(s, s')
  {
  }

  /** An offer's exception handler runs when the close it awaited has been cancelled. */
  lemma HandlerAfterPutBack(s: State, sid: Sid, stop: bool, t: Task, t0: Task)
    requires Inv(s) && sid in s.offers && s.offers[sid] == Failing(t0) && t0 in s.closers
    ensures
      var s' := CancelHandler(PutBack(s, t0).(offers := s.offers - {sid}), sid, stop, t);
      LosesNone(s, s') <==> s.closers[t0].sid !in s.active
  {
    hide CancelHandler, LosesNone;
    var m := PutBack(s, t0).(offers := s.offers - {sid});
    assert CloserKnown(s, t0) && OfferKnown(s, sid);
    PutBackLoses(s, t0);
    LossIgnoresOffers(s, PutBack(s, t0), s.offers - {sid});
    HandlerLosesNone(m, sid, stop, t);
    if sid in s.active {
      assert ActiveKnown(s, sid);
      hide Inv;
      HandlerAfterDisplaced(s, sid, stop, t, t0);
    } else {
      hide Inv, PutBack;
      LossIsTransitive(s, m, CancelHandler(m, sid, stop, t));
    }
  }

  lemma HandlerAfterDisplaced(s: State, sid: Sid, stop: bool, t: Task, t0: Task)
    requires t0 in s.closers && CloserKnown(s, t0) && sid in s.active && ActiveKnown(s, sid) && s.closers[t0].sid == sid
    ensures !LosesNone(s, CancelHandler(PutBack(s, t0).(offers := s.offers - {sid}), sid, stop, t))
  {
    var m := PutBack(s, t0).(offers := s.offers - {sid});
    var h := s.closers[t0].h;
    assert Lost(m, h) && !Lost(s, h);
    HandlerKeepsLost(m, sid, stop, t, h);
    hide CancelHandler;
  }

  lemma OfferCancelLoses(s: State, sid: Sid, stop: bool, t: Task)
    requires Inv(s) && Enabled(s, OfferCancel(sid, stop, t))
    ensures LosesNone(s, DoOfferCancel(s, sid, stop, t)) <==> !TakesTheId(s, OfferCancel(sid, stop, t))
  {
    hide LosesNone, CancelHandler;
    if InnerTask(s.offers[sid]).None? {
      hide Inv;
      HandlerLosesNone(s, sid, stop, t);
      LosesNoneOfItself(s);
      LossIgnoresOffers(s, s, s.offers - {sid});
    } else {
      var t0 := InnerTask(s.offers[sid]).t;
      assert CloserKnown(s, t0);
      if s.offers[sid].Failing? {
        HandlerAfterPutBack(s, sid, stop, t, t0);
        hide Inv, CloserKnown, PutBack;
      } else {
        hide Inv;
        PutBackLoses(s, t0);
        LossIgnoresOffers(s, PutBack(s, t0), s.offers - {sid});
        hide CloserKnown, PutBack;
      }
    }
  }

  lemma LosesNoneOfItself(s: State)
    ensures LosesNone(s, s)
  {
  }

  /** Exactly which blocks lose a session. */
  lemma StepLosesExactly(s: State, e: Event)
    requires Inv(s) && Enabled(s, e)
    ensures !LosesNone(s, Apply(s, e)) <==> TakesTheId(s, e)
  {
    if e.CloseCancel? { assert CloserKnown(s, e.t); }
    if e.Register? && e.sid in s.active { assert ActiveKnown(s, e.sid); }
    hide BeginOffer, DoRegister, DoOfferReturned, DoFlushStep, HandleFailure, DoOfferCancel, BeginClose,
      DoProviderClosed, DoCheckLast, DoDecide, EndClose, PutBack, DoCandidate, MarkInactive, DoDrained, DoRemoveNext;
    hide Inv, LosesNone, CloserKnown, ActiveKnown;
    match e
    case Register(sid, h, resource, homeCall, ringCall, ringPreview) =>
      RegisterLoses(s, sid, h, resource, homeCall, ringCall, ringPreview);
    case OfferCancel(sid, stop, t) => OfferCancelLoses(s, sid, stop, t);
    case CloseBegin(t, sid, stop, origin) => BeginCloseLosesNone(s, t, sid, stop, false, origin);
    case CheckLast(t) => CheckLosesNone(s, t);
    case Decide(t, ringing) => CheckLosesNone(s, t);
    case StopDone(t) => EndCloseLosesNone(s, t);
    case CloseCancel(t) => PutBackLoses(s, t);
    case Candidate(sid) => CandidateLosesNone(s, sid);
    case RemoveNext(t, current) => RemoveNextLosesNone(s, t, current);
    case _ =>
      if e.OfferBegin? || e.OfferReturned? || e.OfferFail? { OfferStepLosesNone(s, e); } else { QuietLosesNone(s, e); }
  }

  lemma OfferStepLosesNone(s: State, e: Event)
    requires Enabled(s, e) && (e.OfferBegin? || e.OfferReturned? || e.OfferFail?)
    ensures LosesNone(s, Apply(s, e))
  {
    hide BeginClose;
    match e
    case OfferBegin(sid, t) => BeginCloseLosesNone(s, t, sid, true, false, OfOffer(sid));
    case OfferReturned(sid, _, stop, t) => BeginCloseLosesNone(s, t, sid, stop, false, OfOffer(sid));
    case OfferFail(sid, stop, t) => BeginCloseLosesNone(s, t, sid, stop, false, OfOffer(sid));
  }

  lemma RemoveNextLosesNone(s: State, t: Task, current: bool)
    requires s.removal.Removing? && s.removal.queue != []
    ensures LosesNone(s, DoRemoveNext(s, t, current))
  {
    BeginCloseLosesNone(s.(removal := Removing(s.removal.queue[1..])), t, s.removal.queue[0], current, current, OfRemoval);
    hide BeginClose;
  }

  lemma CandidateLosesNone(s: State, sid: Sid)
    ensures LosesNone(s, DoCandidate(s, sid))
  {
    CandidateKeepsRegistry(s, sid);
    hide DoCandidate;
  }

  lemma QuietLosesNone(s: State, e: Event)
    requires Enabled(s, e)
    requires
      e.FlushStep? || e.OfferEnd? || e.ProviderClosed? || e.HomeCallEnded? ||
      e.RemoveBegin? || e.RemoveDrained? || e.RemoveFinish?
    ensures LosesNone(s, Apply(s, e))
  {
  }

  // ---------------------------------------------------------------- ids that are not reused

  /** No offer begins for an id that a close in progress still holds. */
  ghost predicate NoReuse(s: State, e: Event) {
    e.OfferBegin? ==> forall t :: t in s.closers ==> s.closers[t].sid != e.sid
  }

  ghost predicate NeverReuses(s: State, es: seq<Event>)
    requires Possible(s, es)
    decreases |es|
  {
    es == [] || (NoReuse(s, es[0]) && NeverReuses(Apply(s, es[0]), es[1..]))
  }

  /** The id of a close in progress is free, and an offer about to register finds its id free. */
  ghost predicate Clean(s: State) {
    (forall t, u :: t in s.closers && u in s.closers && t != u ==> s.closers[t].sid != s.closers[u].sid) &&
    (forall t :: t in s.closers ==> s.closers[t].sid !in s.active) &&
    (forall sid :: sid in s.offers && s.offers[sid].Opening? ==> Free(s, sid))
  }

  ghost predicate Free(s: State, sid: Sid) {
    sid !in s.active && forall t :: t in s.closers ==> s.closers[t].sid != sid
  }

  lemma BegunFree(s: State, t: Task, sid: Sid, stop: bool, force: bool, origin: Origin, s': State, x: Sid)
    requires Begun(s, t, sid, stop, force, origin, s') && Free(s, x)
    ensures Free(s', x)
  {
  }

  /** A close begins; no offer becomes Opening by it. */
  lemma BeginCloseKeepsClean(s: State, t: Task, sid: Sid, stop: bool, force: bool, origin: Origin, s': State)
    requires Clean(s) && Begun(s, t, sid, stop, force, origin, s')
    requires forall x :: x in s'.offers && s'.offers[x].Opening? ==> x in s.offers && s.offers[x].Opening?
    ensures Clean(s')
  {
    if sid in s.active {
      forall u | u in s.closers ensures s.closers[u].sid != sid {}
    }
    forall x | x in s'.offers && s'.offers[x].Opening? ensures Free(s', x) {
      BegunFree(s, t, sid, stop, force, origin, s', x);
    }
  }

  lemma EndCloseKeepsClean(s: State, t: Task)
    requires Clean(s) && (forall x :: x in s.offers ==> OfferKnown(s, x)) && t in s.closers
    ensures Clean(EndClose(s, t))
  {
    var s' := EndClose(s, t);
    forall x | x in s'.offers && s'.offers[x].Opening? ensures Free(s', x) {
      if s.offers[x].Opening? { assert Free(s, x); } else { assert OfferKnown(s, x); }
    }
  }

  lemma PutBackKeepsClean(s: State, t: Task, s': State)
    requires Clean(s) && t in s.closers && s' == PutBack(s, t).(offers := s'.offers)
    requires forall x :: x in s'.offers ==> x in s.offers && s'.offers[x] == s.offers[x]
    ensures Clean(s')
  {
    forall x | x in s'.offers && s'.offers[x].Opening? ensures Free(s', x) { assert Free(s, x); }
  }

  lemma RegisterKeepsClean(s: State, sid: Sid, h: Handle, resource: string, homeCall: bool, ringCall: bool, ringPreview: bool)
    requires Clean(s) && sid in s.offers && s.offers[sid].Opening?
    ensures Clean(DoRegister(s, sid, h, resource, homeCall, ringCall, ringPreview))
  {
    var s' := DoRegister(s, sid, h, resource, homeCall, ringCall, ringPreview);
    assert Free(s, sid);
    forall x | x in s'.offers && s'.offers[x].Opening? ensures Free(s', x) { assert Free(s, x); }
  }

  lemma OfferBeginKeepsClean(s: State, sid: Sid, t: Task)
    requires Clean(s) && t !in s.closers && NoReuse(s, OfferBegin(sid, t))
    ensures Clean(BeginOffer(s, sid, t))
  {
    var s' := BeginOffer(s, sid, t);
    if !s.closing && sid !in s.offers && sid in s.active {
      BeginCloseKeepsClean(s, t, sid, true, false, OfOffer(sid), s');
    } else {
      forall x | x in s'.offers && s'.offers[x].Opening? ensures Free(s', x) {
        if x in s.offers && s.offers[x].Opening? { assert Free(s, x); }
      }
    }
  }

  /** Blocks that leave `active` and the closes' ids alone and make no offer Opening. */
  ghost predicate SameCloses(s: State, s': State) {
    s'.active == s.active && s'.closers.Keys == s.closers.Keys &&
    (forall t :: t in s.closers ==> s'.closers[t].sid == s.closers[t].sid) &&
    (forall x :: x in s'.offers && s'.offers[x].Opening? ==> x in s.offers && s.offers[x].Opening?)
  }

  lemma OtherKeepsClean(s: State, s': State)
    requires Clean(s) && SameCloses(s, s')
    ensures Clean(s')
  {
    forall x | x in s'.offers && s'.offers[x].Opening? ensures Free(s', x) { assert Free(s, x); }
  }

  lemma CancelHandlerKeepsClean(s: State, sid: Sid, stop: bool, t: Task)
    requires Clean(s) && t !in s.closers
    ensures Clean(CancelHandler(s, sid, stop, t))
  {
    hide Clean;
    if s.closing { OtherKeepsClean(s, CancelHandler(s, sid, stop, t)); }
    else { BeginCloseKeepsClean(s, t, sid, stop, false, OfOffer(sid), CancelHandler(s, sid, stop, t)); }
  }

  lemma OfferCancelKeepsClean(s: State, sid: Sid, stop: bool, t: Task)
    requires Clean(s) && Enabled(s, OfferCancel(sid, stop, t))
    ensures Clean(DoOfferCancel(s, sid, stop, t))
  {
    hide Clean;
    if InnerTask(s.offers[sid]).Some? {
      var t0 := InnerTask(s.offers[sid]).t;
      var m := PutBack(s, t0).(offers := s.offers - {sid});
      PutBackKeepsClean(s, t0, m);
      if s.offers[sid].Failing? { CancelHandlerKeepsClean(m, sid, stop, t); }
    } else if s.offers[sid].Ending? {
      OtherKeepsClean(s, DoOfferCancel(s, sid, stop, t));
    } else {
      CancelHandlerKeepsClean(s, sid, stop, t);
    }
  }

  lemma DecisionKeepsClean(s: State, t: Task, last: bool, refreshed: bool)
    requires Clean(s) && Inv(s) && t in s.closers && s.closers[t].h in s.objects
    ensures Clean(MakeDecision(s, t, last, refreshed))
  {
    hide Clean, MakeDecision, EndClose;
    var s' := MakeDecision(s, t, last, refreshed);
    DecisionOutline(s, t, last, refreshed);
    var m := s.(books := s.books.(decisions := s'.books.decisions));
    forall x | x in s.offers ensures OfferKnown(m, x) { assert OfferKnown(s, x); }
    hide Inv;
    OtherKeepsClean(s, m);
    if Last(s'.books.decisions).stop { OtherKeepsClean(m, s'); } else { EndCloseKeepsClean(m, t); }
  }

  lemma CheckLastKeepsClean(s: State, t: Task)
    requires Clean(s) && Inv(s) && t in s.closers && s.closers[t].h in s.objects
    ensures Clean(DoCheckLast(s, t))
  {
    hide Clean, Inv, HasResource, MakeDecision;
    var o := s.objects[s.closers[t].h];
    if o.ringPreview { OtherKeepsClean(s, DoCheckLast(s, t)); }
    else { DecisionKeepsClean(s, t, !HasResource(s.active, s.objects, o.resource), false); }
  }

  lemma DecideKeepsClean(s: State, t: Task, ringing: Ringing)
    requires Clean(s) && Inv(s) && t in s.closers && s.closers[t].phase.Refreshing? && s.closers[t].h in s.objects
    ensures Clean(DoDecide(s, t, ringing))
  {
    hide Clean, Inv, MakeDecision;
    var m := Refreshed(s, s.closers[t].h, ringing);
    SameRegistryKeepsInv(s, m);
    OtherKeepsClean(s, m);
    DecisionKeepsClean(m, t, s.closers[t].phase.last, true);
  }

  lemma CloseBeginKeepsClean(s: State, t: Task, sid: Sid, stop: bool, force: bool, origin: Origin)
    requires Clean(s) && t !in s.closers
    ensures Clean(BeginClose(s, t, sid, stop, force, origin)) && Clean(HandleFailure(s, sid, stop, t))
  {
    hide Clean;
    BeginCloseKeepsClean(s, t, sid, stop, force, origin, BeginClose(s, t, sid, stop, force, origin));
    BeginCloseKeepsClean(s, t, sid, stop, false, OfOffer(sid), HandleFailure(s, sid, stop, t));
  }

  lemma OfferReturnedKeepsClean(s: State, sid: Sid, failed: bool, stop: bool, t: Task)
    requires Clean(s) && t !in s.closers && sid in s.offers && s.offers[sid].Negotiating? && s.offers[sid].h in s.objects
    ensures Clean(DoOfferReturned(s, sid, failed, stop, t))
  {
    hide Clean;
    var s' := DoOfferReturned(s, sid, failed, stop, t);
    if sid in s.active && s.active[sid] == s.offers[sid].h && failed {
      BeginCloseKeepsClean(s, t, sid, stop, false, OfOffer(sid), s');
    } else { OtherKeepsClean(s, s'); }
  }

  lemma CloseCancelKeepsClean(s: State, t: Task)
    requires Clean(s) && t in s.closers
    ensures Clean(PutBack(s, t))
  {
    hide Clean;
    PutBackKeepsClean(s, t, PutBack(s, t));
  }

  lemma RemoveNextKeepsClean(s: State, t: Task, current: bool)
    requires Clean(s) && t !in s.closers && s.removal.Removing? && s.removal.queue != []
    ensures Clean(DoRemoveNext(s, t, current))
  {
    hide Clean;
    BeginCloseKeepsClean(s, t, s.removal.queue[0], current, current, OfRemoval, DoRemoveNext(s, t, current));
  }

  lemma QuietKeepsClean(s: State, e: Event)
    requires Clean(s) && Enabled(s, e)
    requires
      e.FlushStep? || e.OfferEnd? || e.ProviderClosed? || e.Candidate? || e.HomeCallEnded? ||
      e.RemoveBegin? || e.RemoveDrained? || e.RemoveFinish?
    ensures Clean(Apply(s, e))
  {
    hide Clean;
    if e.Candidate? { CandidateKeepsRegistry(s, e.sid); hide DoCandidate; } else { QuietKeepsCloses(s, e); hide Apply; }
    OtherKeepsClean(s, Apply(s, e));
  }

  lemma QuietKeepsCloses(s: State, e: Event)
    requires Enabled(s, e)
    requires
      e.FlushStep? || e.OfferEnd? || e.ProviderClosed? || e.HomeCallEnded? ||
      e.RemoveBegin? || e.RemoveDrained? || e.RemoveFinish?
    ensures SameCloses(s, Apply(s, e))
  {
    hide DoCandidate, BeginClose, DoRegister, MakeDecision, DoRemoveNext, DoOfferReturned, DoOfferCancel, HandleFailure, BeginOffer,
      EndClose, PutBack, DoDecide, DoCheckLast;
  }

  lemma StopDoneKeepsClean(s: State, t: Task)
    requires Inv(s) && Clean(s) && t in s.closers
    ensures Clean(EndClose(s, t))
  {
    forall x | x in s.offers ensures OfferKnown(s, x) {}
    hide Inv, Clean;
    EndCloseKeepsClean(s, t);
  }

  lemma StepKeepsClean(s: State, e: Event)
    requires Inv(s) && Clean(s) && Enabled(s, e) && NoReuse(s, e)
    ensures Clean(Apply(s, e))
  {
    hide Inv, Clean, NoReuse;
    hide BeginOffer, DoRegister, DoOfferReturned, DoFlushStep, HandleFailure, DoOfferCancel, BeginClose,
      DoProviderClosed, DoCheckLast, DoDecide, EndClose, PutBack, DoCandidate, MarkInactive, DoDrained, DoRemoveNext;
    match e
    case OfferBegin(sid, t) => OfferBeginKeepsClean(s, sid, t);
    case Register(sid, h, resource, homeCall, ringCall, ringPreview) =>
      RegisterKeepsClean(s, sid, h, resource, homeCall, ringCall, ringPreview);
    case OfferReturned(sid, failed, stop, t) => OfferReturnedKeepsClean(s, sid, failed, stop, t);
    case OfferFail(sid, stop, t) => CloseBeginKeepsClean(s, t, sid, stop, false, Tracked);
    case OfferCancel(sid, stop, t) => OfferCancelKeepsClean(s, sid, stop, t);
    case CloseBegin(t, sid, stop, origin) => CloseBeginKeepsClean(s, t, sid, stop, false, origin);
    case CheckLast(t) => CheckLastKeepsClean(s, t);
    case Decide(t, ringing) => DecideKeepsClean(s, t, ringing);
    case StopDone(t) => StopDoneKeepsClean(s, t);
    case CloseCancel(t) => CloseCancelKeepsClean(s, t);
    case RemoveNext(t, current) => RemoveNextKeepsClean(s, t, current);
    case _ => QuietKeepsClean(s, e);
  }

  lemma StepLosesNone(s: State, e: Event)
    requires Inv(s) && Clean(s) && Enabled(s, e)
    ensures LosesNone(s, Apply(s, e))
  {
    StepLosesExactly(s, e);
    if e.Register? { assert Free(s, e.sid); }
    hide Inv, Apply;
    assert !TakesTheId(s, e);
  }

  lemma {:induction false} RunLosesNone(s: State, es: seq<Event>)
    requires Inv(s) && Clean(s) && Possible(s, es) && NeverReuses(s, es)
    requires forall h :: h in s.objects ==> !Lost(s, h)
    ensures forall h :: h in Run(s, es).objects ==> !Lost(Run(s, es), h)
    decreases |es|
  {
    if es == [] {
    } else {
      StepKeepsInv(s, es[0]);
      StepKeepsClean(s, es[0]);
      StepLosesNone(s, es[0]);
      var m := Apply(s, es[0]);
      assert forall h :: Fresh(s, h);
      hide Apply, Inv, Clean;
      assert forall h :: h in m.objects ==> !Lost(m, h) by {
        forall h | h in m.objects ensures !Lost(m, h) { assert Fresh(s, h); }
      }
      RunLosesNone(Apply(s, es[0]), es[1..]);
    }
  }

  /** In every run in which no offer takes the id of a close in progress, each session ever registered is still
      registered, is held by a close in progress, or has completed its provider close: no cancellation loses it. */
  lemma NoSessionIsLost(es: seq<Event>, h: Handle)
    requires Possible(INITIAL, es) && NeverReuses(INITIAL, es) && h in Run(INITIAL, es).objects
    ensures var s := Run(INITIAL, es); OnActive(s, h) || BeingClosed(s, h) || h in s.books.closed
  {
    InitialInv();
    assert Clean(INITIAL);
    RunLosesNone(INITIAL, es);
    EverySessionIsSomewhere(es, h);
  }

  // ---------------------------------------------------------------- exactly which runs lose a session

  ghost predicate SomeoneLost(s: State) { exists h :: h in s.objects && Lost(s, h) }

  /** Some block of the run registers under, or puts a session back to, an id that is taken. */
  ghost predicate TakesAnId(s: State, es: seq<Event>)
    requires Possible(s, es)
    decreases |es|
  {
    es != [] && (TakesTheId(s, es[0]) || TakesAnId(Apply(s, es[0]), es[1..]))
  }

  lemma StepLosesSomeone(s: State, e: Event)
    requires Inv(s) && Enabled(s, e)
    ensures SomeoneLost(Apply(s, e)) <==> SomeoneLost(s) || TakesTheId(s, e)
  {
    var s' := Apply(s, e);
    StepLosesExactly(s, e);
    if SomeoneLost(s) {
      var h :| h in s.objects && Lost(s, h);
      StepKeepsLost(s, e, h);
    }
    assert forall h :: Fresh(s, h);
    hide Inv, Apply, TakesTheId;
    if SomeoneLost(s') && !SomeoneLost(s) {
      var h :| h in s'.objects && Lost(s', h);
      assert Fresh(s, h);
    }
  }

  lemma {:induction false} RunLosesSomeone(s: State, es: seq<Event>)
    requires Inv(s) && Possible(s, es)
    ensures SomeoneLost(Run(s, es)) <==> SomeoneLost(s) || TakesAnId(s, es)
    decreases |es|
  {
    hide Inv, Apply, SomeoneLost, TakesTheId;
    if es != [] {
      StepKeepsInv(s, es[0]);
      StepLosesSomeone(s, es[0]);
      RunLosesSomeone(Apply(s, es[0]), es[1..]);
    }
  }

  /** A run loses a session if and only if one of its blocks registers under, or puts back to, a taken id. */
  lemma RunLosesExactly(es: seq<Event>)
    requires Possible(INITIAL, es)
    ensures (exists h :: h in Run(INITIAL, es).objects && Lost(Run(INITIAL, es), h)) <==> TakesAnId(INITIAL, es)
  {
    InitialInv();
    RunLosesSomeone(INITIAL, es);
  }
}

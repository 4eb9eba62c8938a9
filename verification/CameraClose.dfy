/** The close protocol over whole runs: who stops the shared media, how often a session is torn down, and
    when a session can be lost. */
module CameraClose {
  import opened CameraState
  import opened CameraInvariants

  // ---------------------------------------------------------------- tear-downs

  /** Closed twice, from anywhere, a session is torn down once more only if a cancelled close put it back. */
  lemma TornDownAtMostOnce(es: seq<Event>, h: Handle)
    requires Possible(INITIAL, es) && h in Run(INITIAL, es).objects
    ensures
      var s := Run(INITIAL, es);
      Count(s.books.pops, h) <= 1 + Count(s.books.putBacks, h) &&
      (OnActive(s, h) ==> Count(s.books.pops, h) == Count(s.books.putBacks, h))
  {
    InitialInv();
    RunKeepsInv(INITIAL, es);
    var s := Run(INITIAL, es);
    assert SessionKnown(s, h);
    if OnActive(s, h) { assert ActiveKnown(s, s.objects[h].sid); }
  }

  ghost predicate Lost(s: State, h: Handle) {
    h in s.books.places && (s.books.places[h].Overwritten? || s.books.places[h].Displaced?)
  }

  ghost predicate BeingClosed(s: State, h: Handle) {
    exists t :: t in s.closers && s.closers[t].h == h
  }

  /** Every session that was ever registered still is, is held by a close in progress, has completed its
      provider close, or is one of the lost ones. */
  lemma EverySessionIsSomewhere(es: seq<Event>, h: Handle)
    requires Possible(INITIAL, es) && h in Run(INITIAL, es).objects
    ensures
      var s := Run(INITIAL, es);
      OnActive(s, h) || BeingClosed(s, h) || h in s.books.closed || Lost(s, h)
  {
    InitialInv();
    RunKeepsInv(INITIAL, es);
    assert SessionKnown(Run(INITIAL, es), h);
  }

  // ---------------------------------------------------------------- the last owner stops the media

  ghost predicate Sound(d: Decision) {
    (d.stop <==> d.last && d.stopMedia && (d.force || (!d.ringPreview && !d.ringCall))) &&
    (!d.refreshed ==> (d.last <==> !d.shared))
  }

  /** What a block can do to the list of decisions. */
  ghost predicate DecisionsGrow(s: State, e: Event, s': State) {
    s'.books.decisions == s.books.decisions ||
    ((e.CheckLast? || e.Decide?) &&
     exists d :: s'.books.decisions == s.books.decisions + [d] && Sound(d) && (e.Decide? <==> d.refreshed))
  }

  lemma CheckAddsSoundDecision(s: State, t: Task)
    requires t in s.closers && s.closers[t].h in s.objects
    ensures DecisionsGrow(s, CheckLast(t), DoCheckLast(s, t))
  {
    var s' := DoCheckLast(s, t);
    if s'.books.decisions != s.books.decisions {
      assert Sound(Last(s'.books.decisions));
    }
  }

  lemma DecideAddsSoundDecision(s: State, t: Task, ringing: Ringing)
    requires t in s.closers && s.closers[t].phase.Refreshing? && s.closers[t].h in s.objects
    ensures DecisionsGrow(s, Decide(t, ringing), DoDecide(s, t, ringing))
  {
    assert Sound(Last(DoDecide(s, t, ringing).books.decisions));
  }

  lemma BlockKeepsDecisions(s: State, t: Task, sid: Sid, stop: bool, force: bool, origin: Origin)
    ensures BeginClose(s, t, sid, stop, force, origin).books.decisions == s.books.decisions
    ensures DoCandidate(s, sid).books.decisions == s.books.decisions
    ensures t in s.closers ==> PutBack(s, t).books.decisions == s.books.decisions
  {
    CandidateKeepsRegistry(s, sid);
  }

  lemma HandlerKeepsDecisions(s: State, sid: Sid, stop: bool, t: Task)
    ensures CancelHandler(s, sid, stop, t).books.decisions == s.books.decisions
  {
    BlockKeepsDecisions(s, t, sid, stop, false, OfOffer(sid));
    hide BeginClose;
  }

  lemma CancelKeepsDecisions(s: State, sid: Sid, stop: bool, t: Task)
    requires Enabled(s, OfferCancel(sid, stop, t))
    ensures DoOfferCancel(s, sid, stop, t).books.decisions == s.books.decisions
  {
    hide PutBack, CancelHandler, BeginClose, DoCandidate;
    if InnerTask(s.offers[sid]).Some? {
      var t0 := InnerTask(s.offers[sid]).t;
      BlockKeepsDecisions(s, t0, sid, stop, false, OfOffer(sid));
      HandlerKeepsDecisions(PutBack(s, t0).(offers := s.offers - {sid}), sid, stop, t);
    } else {
      HandlerKeepsDecisions(s, sid, stop, t);
    }
  }

  lemma OfferStepKeepsDecisions(s: State, e: Event)
    requires Enabled(s, e) && (e.OfferBegin? || e.OfferReturned? || e.OfferFail? || e.OfferCancel?)
    ensures Apply(s, e).books.decisions == s.books.decisions
  {
    hide BeginClose, DoOfferCancel;
    match e
    case OfferBegin(sid, t) => BlockKeepsDecisions(s, t, sid, true, false, OfOffer(sid));
    case OfferReturned(sid, _, stop, t) => BlockKeepsDecisions(s, t, sid, stop, false, OfOffer(sid));
    case OfferFail(sid, stop, t) => BlockKeepsDecisions(s, t, sid, stop, false, OfOffer(sid));
    case OfferCancel(sid, stop, t) => CancelKeepsDecisions(s, sid, stop, t);
  }

  lemma StepGrowsDecisions(s: State, e: Event)
    requires Enabled(s, e)
    ensures DecisionsGrow(s, e, Apply(s, e))
  {
    if e.CheckLast? { CheckAddsSoundDecision(s, e.t); hide DecisionsGrow, DoCheckLast; }
    else if e.Decide? { DecideAddsSoundDecision(s, e.t, e.ringing); hide DecisionsGrow, DoDecide; }
    else if e.OfferBegin? || e.OfferReturned? || e.OfferFail? || e.OfferCancel? {
      OfferStepKeepsDecisions(s, e);
      hide Apply, Sound;
    } else {
      OtherStepKeepsDecisions(s, e);
      hide Apply, Sound;
    }
  }

  lemma OtherStepKeepsDecisions(s: State, e: Event)
    requires Enabled(s, e) && !e.CheckLast? && !e.Decide?
    requires !e.OfferBegin? && !e.OfferReturned? && !e.OfferFail? && !e.OfferCancel?
    ensures Apply(s, e).books.decisions == s.books.decisions
  {
    hide BeginClose, DoCandidate, PutBack, MakeDecision, BeginOffer, DoOfferReturned, HandleFailure, DoOfferCancel, DoCheckLast, DoDecide;
    match e
    case CloseBegin(t, sid, stop, origin) => BlockKeepsDecisions(s, t, sid, stop, false, origin);
    case CloseCancel(t) => BlockKeepsDecisions(s, t, "", true, false, Tracked);
    case Candidate(sid) => BlockKeepsDecisions(s, 0, sid, true, false, Tracked);
    case RemoveNext(t, current) =>
      var m := s.(removal := Removing(s.removal.queue[1..]));
      BlockKeepsDecisions(m, t, s.removal.queue[0], current, current, OfRemoval);
    case _ =>
  }

  /** In every run: media is stopped exactly by a last owner whose close asks for it and whose session is
      no ring (or the stop is forced), and, unless the session was a ring preview whose status had to be
      refreshed, never while another session of the resource is registered. */
  lemma {:induction false} EveryDecisionIsSound(s: State, es: seq<Event>)
    requires Possible(s, es) && forall d :: d in s.books.decisions ==> Sound(d)
    ensures forall d :: d in Run(s, es).books.decisions ==> Sound(d)
    ensures forall d :: d in Run(s, es).books.decisions && d.stop && !d.refreshed ==> !d.shared
    decreases |es|
  {
    if es == [] {
    } else {
      StepGrowsDecisions(s, es[0]);
      EveryDecisionIsSound(Apply(s, es[0]), es[1..]);
    }
  }

  // The session is registered, or the close that took it has yet to find out whether it was the last owner
  // or to act on having been.

  ghost predicate Owed(s: State, h: Handle)
    requires h in s.objects
  {
    h in s.books.places &&
    match s.books.places[h]
    case Registered => true
    case Held(t) =>
      t in s.closers && s.closers[t].h == h &&
      (s.closers[t].phase.TearDown? || s.closers[t].phase.TornDown? || s.closers[t].phase == Refreshing(true))
    case _ => false
  }

  ghost predicate OwedSomewhere(s: State, resource: string) {
    exists h :: h in s.objects && s.objects[h].resource == resource && Owed(s, h)
  }

  ghost predicate LastOwnerDecided(s: State, resource: string, n: nat) {
    exists i :: n <= i < |s.books.decisions| && s.books.decisions[i].resource == resource && s.books.decisions[i].last
  }

  /** What a block does to a session that is owed a last-owner check, or lost: the lost stay lost. */
  ghost predicate StaysOwed(s: State, s': State, h: Handle)
    requires h in s.objects
  {
    h in s'.objects && s'.objects[h].resource == s.objects[h].resource &&
    (Owed(s', h) || Lost(s', h)) && (Lost(s, h) ==> Lost(s', h))
  }

  lemma BeginCloseStaysOwed(s: State, t: Task, sid: Sid, stop: bool, force: bool, origin: Origin, h: Handle)
    requires Inv(s) && t !in s.closers && h in s.objects && (Owed(s, h) || Lost(s, h))
    ensures StaysOwed(s, BeginClose(s, t, sid, stop, force, origin), h)
  {
    if sid in s.active { assert ActiveKnown(s, sid); }
    hide Inv, BeginClose;
    BegunStaysOwed(s, t, sid, stop, force, origin, h);
  }

  lemma BegunStaysOwed(s: State, t: Task, sid: Sid, stop: bool, force: bool, origin: Origin, h: Handle)
    requires sid in s.active ==> ActiveKnown(s, sid)
    requires t !in s.closers && h in s.objects && (Owed(s, h) || Lost(s, h))
    ensures StaysOwed(s, BeginClose(s, t, sid, stop, force, origin), h)
  {
    hide Pop, Relocate, HeldFor;
  }

  lemma PutBackStaysOwed(s: State, t: Task, h: Handle)
    requires t in s.closers && CloserKnown(s, t) && h in s.objects && (Owed(s, h) || Lost(s, h))
    ensures StaysOwed(s, PutBack(s, t), h)
  {
    var s' := PutBack(s, t);
    if h != s.closers[t].h { assert s'.books.places[h] == s.books.places[h]; }
  }

  lemma EndCloseStaysOwed(s: State, t: Task, h: Handle)
    requires Inv(s) && t in s.closers && s.closers[t].phase.Stopping? && h in s.objects && (Owed(s, h) || Lost(s, h))
    ensures StaysOwed(s, EndClose(s, t), h)
  {
    assert CloserKnown(s, t);
  }

  lemma RegisterStaysOwed(
    s: State, sid: Sid, g: Handle, resource: string, homeCall: bool, ringCall: bool, ringPreview: bool, h: Handle)
    requires Inv(s) && g !in s.objects && h in s.objects && (Owed(s, h) || Lost(s, h))
    ensures StaysOwed(s, DoRegister(s, sid, g, resource, homeCall, ringCall, ringPreview), h)
  {
    if sid in s.active { assert ActiveKnown(s, sid); }
  }

  lemma SameRegistryStaysOwed(s: State, s': State, h: Handle)
    requires SameRegistry(s, s') && h in s.objects && (Owed(s, h) || Lost(s, h))
    ensures StaysOwed(s, s', h)
  {
  }

  lemma CancelHandlerStaysOwed(s: State, sid: Sid, stop: bool, t: Task, h: Handle)
    requires Inv(s) && t !in s.closers && h in s.objects && (Owed(s, h) || Lost(s, h))
    ensures StaysOwed(s, CancelHandler(s, sid, stop, t), h)
  {
    BeginCloseStaysOwed(s, t, sid, stop, false, OfOffer(sid), h);
    hide Inv;
  }

  lemma OfferCancelStaysOwed(s: State, sid: Sid, stop: bool, t: Task, h: Handle)
    requires Inv(s) && t !in s.closers && sid in s.offers && h in s.objects && (Owed(s, h) || Lost(s, h))
    requires InnerTask(s.offers[sid]).Some? ==> InnerTask(s.offers[sid]).t in s.closers
    ensures StaysOwed(s, DoOfferCancel(s, sid, stop, t), h)
  {
    if InnerTask(s.offers[sid]).Some? {
      InnerCancelStaysOwed(s, sid, stop, t, h, InnerTask(s.offers[sid]).t);
    } else if !s.offers[sid].Ending? {
      CancelHandlerStaysOwed(s, sid, stop, t, h);
    }
    hide Inv, PutBack, CancelHandler, Owed, Lost;
  }

  lemma InnerPutBackStaysOwed(s: State, sid: Sid, t: Task, h: Handle, t0: Task)
    requires Inv(s) && t !in s.closers && sid in s.offers && h in s.objects && (Owed(s, h) || Lost(s, h))
    requires InnerTask(s.offers[sid]) == Some(t0) && t0 in s.closers
    ensures var m := PutBack(s, t0).(offers := s.offers - {sid}); Inv(m) && t !in m.closers && StaysOwed(s, m, h)
  {
    var m := PutBack(s, t0).(offers := s.offers - {sid});
    assert OfferKnown(s, sid);
    forall x | x in m.offers ensures InnerTask(s.offers[x]) != Some(t0) { assert OfferKnown(s, x); }
    assert CloserKnown(s, t0);
    PutBackStaysOwed(s, t0, h);
    PutBackKeepsInv(s, t0, m);
    assert t !in m.closers;
    hide Inv, OfferKnown, PutBack;
  }

  lemma InnerCancelStaysOwed(s: State, sid: Sid, stop: bool, t: Task, h: Handle, t0: Task)
    requires Inv(s) && t !in s.closers && sid in s.offers && h in s.objects && (Owed(s, h) || Lost(s, h))
    requires InnerTask(s.offers[sid]) == Some(t0) && t0 in s.closers
    ensures StaysOwed(s, DoOfferCancel(s, sid, stop, t), h)
  {
    hide Inv, PutBack, CancelHandler, Owed, Lost;
    var m := PutBack(s, t0).(offers := s.offers - {sid});
    InnerPutBackStaysOwed(s, sid, t, h, t0);
    if s.offers[sid].Failing? {
      CancelHandlerStaysOwed(m, sid, stop, t, h);
    }
  }

  lemma DecisionRecorded(s: State, t: Task, last: bool, refreshed: bool)
    requires t in s.closers && s.closers[t].h in s.objects
    ensures
      var s' := MakeDecision(s, t, last, refreshed);
      |s'.books.decisions| == |s.books.decisions| + 1 &&
      Last(s'.books.decisions).last == last &&
      Last(s'.books.decisions).resource == s.objects[s.closers[t].h].resource
  {
  }

  /** A decision leaves the other sessions where they are. */
  lemma DecisionStaysOwed(s: State, t: Task, last: bool, refreshed: bool, h: Handle)
    requires t in s.closers && CloserKnown(s, t) && h in s.objects && (Owed(s, h) || Lost(s, h)) && s.closers[t].h != h
    ensures StaysOwed(s, MakeDecision(s, t, last, refreshed), h)
    ensures Owed(s, h) ==> Owed(MakeDecision(s, t, last, refreshed), h)
  {
  }

  lemma RecordedIsDecided(s': State, resource: string, n: nat)
    requires n < |s'.books.decisions| && Last(s'.books.decisions).last && Last(s'.books.decisions).resource == resource
    ensures LastOwnerDecided(s', resource, n)
  {
    assert s'.books.decisions[|s'.books.decisions| - 1].last;
  }

  /** The check: another registered session shares the resource, or the decision is the last owner's, or
      the last owner is waiting for a fresh status. */
  lemma CheckSettles(s: State, t: Task, resource: string, n: nat)
    requires Inv(s) && t in s.closers && s.closers[t].phase.TornDown? && s.closers[t].h in s.objects
    requires n <= |s.books.decisions| && s.objects[s.closers[t].h].resource == resource
    ensures OwedSomewhere(DoCheckLast(s, t), resource) || LastOwnerDecided(DoCheckLast(s, t), resource, n)
  {
    var s' := DoCheckLast(s, t);
    assert CloserKnown(s, t);
    var c := s.closers[t];
    if HasResource(s.active, s.objects, resource) {
      var sid :| sid in s.active && s.active[sid] in s.objects && s.objects[s.active[sid]].resource == resource;
      var g := s.active[sid];
      assert ActiveKnown(s, sid);
      hide Inv;
      OtherCheckStaysOwed(s, t, g);
      hide DoCheckLast;
    } else {
      hide Inv;
      if s.objects[c.h].ringPreview {
        assert Owed(s', c.h);
      } else {
        DecisionRecorded(s, t, true, false);
        hide MakeDecision;
        RecordedIsDecided(s', resource, n);
      }
    }
  }

  lemma DecideSettles(s: State, t: Task, ringing: Ringing, resource: string, n: nat)
    requires t in s.closers && s.closers[t].phase == Refreshing(true) && s.closers[t].h in s.objects
    requires n <= |s.books.decisions| && s.objects[s.closers[t].h].resource == resource
    ensures LastOwnerDecided(DoDecide(s, t, ringing), resource, n)
  {
    DecisionRecorded(Refreshed(s, s.closers[t].h, ringing), t, true, true);
    hide MakeDecision;
    RecordedIsDecided(DoDecide(s, t, ringing), resource, n);
  }

  lemma OtherCheckStaysOwed(s: State, t: Task, h: Handle)
    requires t in s.closers && CloserKnown(s, t) && h in s.objects && (Owed(s, h) || Lost(s, h)) && s.closers[t].h != h
    ensures StaysOwed(s, DoCheckLast(s, t), h)
    ensures Owed(s, h) ==> Owed(DoCheckLast(s, t), h)
  {
    DecisionStaysOwed(s, t, !HasResource(s.active, s.objects, s.objects[s.closers[t].h].resource), false, h);
    hide MakeDecision, CloserKnown;
  }

  lemma OtherDecideStaysOwed(s: State, t: Task, ringing: Ringing, h: Handle)
    requires t in s.closers && s.closers[t].phase.Refreshing? && CloserKnown(s, t)
    requires h in s.objects && (Owed(s, h) || Lost(s, h)) && s.closers[t].h != h
    ensures StaysOwed(s, DoDecide(s, t, ringing), h)
  {
    var m := Refreshed(s, s.closers[t].h, ringing);
    SameRegistryStaysOwed(s, m, h);
    DecisionStaysOwed(m, t, s.closers[t].phase.last, true, h);
    hide MakeDecision, Owed, Lost, CloserKnown;
  }

  /** A check or decision of another session's close. */
  lemma OtherDecisionStaysOwed(s: State, e: Event, h: Handle)
    requires Inv(s) && Enabled(s, e) && (e.CheckLast? || e.Decide?)
    requires h in s.objects && (Owed(s, h) || Lost(s, h)) && s.closers[e.t].h != h
    ensures StaysOwed(s, Apply(s, e), h)
  {
    assert CloserKnown(s, e.t);
    hide Inv, StaysOwed, Owed, Lost, CloserKnown, DoCheckLast, DoDecide;
    if e.CheckLast? { OtherCheckStaysOwed(s, e.t, h); } else { OtherDecideStaysOwed(s, e.t, e.ringing, h); }
  }

  lemma CloseCancelStaysOwed(s: State, t: Task, h: Handle)
    requires Inv(s) && t in s.closers && h in s.objects && (Owed(s, h) || Lost(s, h))
    ensures StaysOwed(s, PutBack(s, t), h)
  {
    assert CloserKnown(s, t);
    hide PutBack;
    PutBackStaysOwed(s, t, h);
  }

  lemma OfferBeginStaysOwed(s: State, sid: Sid, t: Task, h: Handle)
    requires Inv(s) && t !in s.closers && h in s.objects && (Owed(s, h) || Lost(s, h))
    ensures StaysOwed(s, BeginOffer(s, sid, t), h)
  {
    BeginCloseStaysOwed(s, t, sid, true, false, OfOffer(sid), h);
    hide BeginClose, Inv;
  }

  lemma OfferReturnedStaysOwed(s: State, sid: Sid, failed: bool, stop: bool, t: Task, h: Handle)
    requires Inv(s) && Enabled(s, OfferReturned(sid, failed, stop, t)) && h in s.objects && (Owed(s, h) || Lost(s, h))
    ensures StaysOwed(s, DoOfferReturned(s, sid, failed, stop, t), h)
  {
    hide BeginClose, Inv, Owed, Lost;
    if failed {
      BeginCloseStaysOwed(s, t, sid, stop, false, OfOffer(sid), h);
      StagesDoNotMatter(s, BeginClose(s, t, sid, stop, false, OfOffer(sid)), s.offers[sid := Failing(t)], h);
    }
    var s' := DoOfferReturned(s, sid, failed, stop, t);
    if !failed || sid !in s.active || s.active[sid] != s.offers[sid].h {
      SameRegistryStaysOwed(s, s'.(offers := s.offers), h);
      StagesDoNotMatter(s, s'.(offers := s.offers), s'.offers, h);
    }
    hide StaysOwed;
  }

  lemma StagesDoNotMatter(s: State, s': State, offers: map<Sid, Stage>, h: Handle)
    requires h in s.objects && StaysOwed(s, s', h)
    ensures StaysOwed(s, s'.(offers := offers), h)
  {
  }

  lemma FailureStaysOwed(s: State, sid: Sid, stop: bool, t: Task, h: Handle)
    requires Inv(s) && t !in s.closers && h in s.objects && (Owed(s, h) || Lost(s, h))
    ensures StaysOwed(s, HandleFailure(s, sid, stop, t), h)
  {
    BeginCloseStaysOwed(s, t, sid, stop, false, OfOffer(sid), h);
    hide BeginClose, Inv;
  }

  lemma CandidateStaysOwed(s: State, sid: Sid, h: Handle)
    requires h in s.objects && (Owed(s, h) || Lost(s, h))
    ensures StaysOwed(s, DoCandidate(s, sid), h)
  {
    CandidateKeepsRegistry(s, sid);
    hide DoCandidate;
    SameRegistryStaysOwed(s, DoCandidate(s, sid), h);
  }

  lemma RemoveNextStaysOwed(s: State, t: Task, current: bool, h: Handle)
    requires Inv(s) && t !in s.closers && s.removal.Removing? && s.removal.queue != []
    requires h in s.objects && (Owed(s, h) || Lost(s, h))
    ensures StaysOwed(s, DoRemoveNext(s, t, current), h)
  {
    var m := s.(removal := Removing(s.removal.queue[1..]));
    SameRegistryKeepsInv(s, m);
    BeginCloseStaysOwed(m, t, s.removal.queue[0], current, current, OfRemoval, h);
    hide BeginClose, Inv;
  }

  lemma QuietStaysOwed(s: State, e: Event, h: Handle)
    requires Enabled(s, e) && h in s.objects && (Owed(s, h) || Lost(s, h))
    requires
      e.FlushStep? || e.OfferEnd? || e.ProviderClosed? || e.HomeCallEnded? ||
      e.RemoveBegin? || e.RemoveDrained? || e.RemoveFinish?
    ensures StaysOwed(s, Apply(s, e), h)
  {
    hide BeginClose, DoRegister, MakeDecision, DoCandidate, DoRemoveNext, DoOfferReturned, DoOfferCancel, HandleFailure, BeginOffer,
      EndClose, PutBack;
  }

  lemma StepStaysOwed(s: State, e: Event, h: Handle)
    requires Inv(s) && Enabled(s, e) && !e.CheckLast? && !e.Decide? && h in s.objects && (Owed(s, h) || Lost(s, h))
    ensures StaysOwed(s, Apply(s, e), h)
  {
    hide BeginOffer, DoRegister, DoOfferReturned, DoFlushStep, HandleFailure, DoOfferCancel, BeginClose,
      DoProviderClosed, EndClose, PutBack, DoCandidate, MarkInactive, DoDrained, DoRemoveNext;
    hide Inv, StaysOwed, Owed, Lost;
    match e
    case Register(sid, g, resource, homeCall, ringCall, ringPreview) =>
      RegisterStaysOwed(s, sid, g, resource, homeCall, ringCall, ringPreview, h);
    case CloseBegin(t, sid, stop, origin) => BeginCloseStaysOwed(s, t, sid, stop, false, origin, h);
    case StopDone(t) => EndCloseStaysOwed(s, t, h);
    case CloseCancel(t) => CloseCancelStaysOwed(s, t, h);
    case Candidate(sid) => CandidateStaysOwed(s, sid, h);
    case RemoveNext(t, current) => RemoveNextStaysOwed(s, t, current, h);
    case OfferBegin(sid, t) => OfferBeginStaysOwed(s, sid, t, h);
    case OfferReturned(sid, failed, stop, t) => OfferReturnedStaysOwed(s, sid, failed, stop, t, h);
    case OfferFail(sid, stop, t) => FailureStaysOwed(s, sid, stop, t, h);
    case OfferCancel(sid, stop, t) => OfferCancelStaysOwed(s, sid, stop, t, h);
    case _ => QuietStaysOwed(s, e, h);
  }

  ghost function AllLost(s: State): set<Handle> { set h | h in s.objects && Lost(s, h) }

  /** A session of the resource is lost that was not lost before. */
  ghost predicate SomeLostSince(s: State, resource: string, before: set<Handle>) {
    exists h :: h in s.objects && s.objects[h].resource == resource && Lost(s, h) && h !in before
  }

  ghost predicate Served(s: State, resource: string, n: nat, before: set<Handle>) {
    OwedSomewhere(s, resource) || LastOwnerDecided(s, resource, n) || SomeLostSince(s, resource, before)
  }

  lemma StaysOwedServes(s: State, s': State, h: Handle, resource: string, n: nat, before: set<Handle>)
    requires h in s.objects && s.objects[h].resource == resource && StaysOwed(s, s', h) && h !in before
    ensures Served(s', resource, n, before)
  {
  }

  /** A session that is owed a check is not lost. */
  lemma OwedIsNotLost(s: State, h: Handle, before: set<Handle>)
    requires h in s.objects && Owed(s, h) && before <= AllLost(s)
    ensures h !in before
  {
  }

  /** One block: a resource with a session owed a check stays so, is settled by a last owner, or loses one. */
  lemma OwedStepServes(s: State, e: Event, h: Handle, resource: string, n: nat, before: set<Handle>)
    requires Inv(s) && Enabled(s, e) && n <= |s.books.decisions| && before <= AllLost(s)
    requires h in s.objects && s.objects[h].resource == resource && Owed(s, h)
    ensures Served(Apply(s, e), resource, n, before)
  {
    OwedIsNotLost(s, h, before);
    hide AllLost;
    if (e.CheckLast? || e.Decide?) && s.closers[e.t].h == h {
      assert CloserKnown(s, e.t);
      hide Inv;
      if e.CheckLast? { CheckSettles(s, e.t, resource, n); } else { DecideSettles(s, e.t, e.ringing, resource, n); }
      hide DoCheckLast, DoDecide, OwedSomewhere, LastOwnerDecided;
    } else {
      hide Inv, Owed, Lost, StaysOwed, Served, Apply;
      if e.CheckLast? || e.Decide? { OtherDecisionStaysOwed(s, e, h); } else { StepStaysOwed(s, e, h); }
      StaysOwedServes(s, Apply(s, e), h, resource, n, before);
    }
  }

  lemma DecidedStays(s: State, s': State, e: Event, resource: string, n: nat)
    requires LastOwnerDecided(s, resource, n) && DecisionsGrow(s, e, s')
    ensures LastOwnerDecided(s', resource, n)
  {
    var i :| n <= i < |s.books.decisions| && s.books.decisions[i].resource == resource && s.books.decisions[i].last;
    assert s'.books.decisions[i] == s.books.decisions[i];
  }

  lemma StepServes(s: State, e: Event, resource: string, n: nat, before: set<Handle>)
    requires Inv(s) && Enabled(s, e) && n <= |s.books.decisions| && before <= AllLost(s) && Served(s, resource, n, before)
    ensures Served(Apply(s, e), resource, n, before)
  {
    hide Inv, Apply, Owed, Lost, StaysOwed, DecisionsGrow, LastOwnerDecided, AllLost;
    var s' := Apply(s, e);
    if OwedSomewhere(s, resource) {
      var h :| h in s.objects && s.objects[h].resource == resource && Owed(s, h);
      OwedStepServes(s, e, h, resource, n, before);
    } else if SomeLostSince(s, resource, before) {
      var h :| h in s.objects && s.objects[h].resource == resource && Lost(s, h) && h !in before;
      StepKeepsLost(s, e, h);
      StaysOwedServes(s, s', h, resource, n, before);
    } else {
      StepGrowsDecisions(s, e);
      DecidedStays(s, s', e, resource, n);
    }
  }

  lemma StepKeepsAllLost(s: State, e: Event)
    requires Inv(s) && Enabled(s, e)
    ensures AllLost(s) <= AllLost(Apply(s, e))
  {
    hide Apply, Inv, Owed, Lost;
    forall h | h in AllLost(s) ensures h in AllLost(Apply(s, e)) { StepKeepsLost(s, e, h); }
  }

  /** Once lost, a session stays lost. */
  lemma StepKeepsLost(s: State, e: Event, h: Handle)
    requires Inv(s) && Enabled(s, e) && h in s.objects && Lost(s, h)
    ensures StaysOwed(s, Apply(s, e), h)
  {
    if e.CheckLast? || e.Decide? {
      assert CloserKnown(s, e.t);
      hide Inv;
      OtherDecisionStaysOwed(s, e, h);
    } else {
      StepStaysOwed(s, e, h);
    }
    hide Apply;
  }

  lemma {:induction false} RunServes(s: State, es: seq<Event>, resource: string, n: nat, before: set<Handle>)
    requires Inv(s) && Possible(s, es) && n <= |s.books.decisions| && before <= AllLost(s) && Served(s, resource, n, before)
    ensures Served(Run(s, es), resource, n, before)
    decreases |es|
  {
    hide Apply, Inv, Served, AllLost;
    if es == [] {
    } else {
      StepServes(s, es[0], resource, n, before);
      StepKeepsInv(s, es[0]);
      StepKeepsAllLost(s, es[0]);
      StepGrowsDecisions(s, es[0]);
      RunServes(Apply(s, es[0]), es[1..], resource, n, before);
    }
  }

  /** Any number of closes of sessions sharing a resource, in any interleaving with each other and with
      everything else the camera does: when the resource has been registered, is no longer, and no close of
      it is still undecided, some close since then was the last owner's; if the decisions record that the media
      is to stop and no ring, one of them stops it. The only way out is a session lost to id reuse since. */
  lemma SomeAskingCloseStops(es0: seq<Event>, es: seq<Event>, resource: string)
    requires Possible(INITIAL, es0) && Possible(Run(INITIAL, es0), es)
    requires
      var s := Run(INITIAL, es0);
      var s' := Run(s, es);
      HasResource(s.active, s.objects, resource) && !OwedSomewhere(s', resource) &&
      !SomeLostSince(s', resource, AllLost(s)) &&
      forall i :: |s.books.decisions| <= i < |s'.books.decisions| && s'.books.decisions[i].resource == resource ==>
        s'.books.decisions[i].stopMedia && !s'.books.decisions[i].ringPreview && !s'.books.decisions[i].ringCall
    ensures
      var s := Run(INITIAL, es0);
      var s' := Run(s, es);
      exists i :: |s.books.decisions| <= i < |s'.books.decisions| &&
        s'.books.decisions[i].resource == resource && s'.books.decisions[i].stop
  {
    var s := Run(INITIAL, es0);
    var s' := Run(s, es);
    var n := |s.books.decisions|;
    InitialInv();
    RunKeepsInv(INITIAL, es0);
    var sid :| sid in s.active && s.active[sid] in s.objects && s.objects[s.active[sid]].resource == resource;
    assert ActiveKnown(s, sid);
    assert Owed(s, s.active[sid]);
    hide Inv, AllLost;
    RunServes(s, es, resource, n, AllLost(s));
    EveryDecisionIsSound(INITIAL, es0);
    EveryDecisionIsSound(s, es);
    hide Possible, Run, OwedSomewhere, SomeLostSince;
    var i :| n <= i < |s'.books.decisions| && s'.books.decisions[i].resource == resource && s'.books.decisions[i].last;
    assert Sound(s'.books.decisions[i]);
  }
}

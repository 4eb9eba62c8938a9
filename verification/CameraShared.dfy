/** When media is stopped under another session: the check of a ring preview's close goes stale during its refresh. */
module CameraShared {
  import opened CameraState
  import opened CameraInvariants
  import opened CameraClose

  /** The newest decision stops the media although a registered session shares its resource. */
  ghost predicate StopsShared(s: State) {
    s.books.decisions != [] && Last(s.books.decisions).stop && Last(s.books.decisions).shared
  }

  /** Exactly when the decision after a status refresh stops media that another registered session shares. */
  lemma StopsSharedExactly(s: State, t: Task, ringing: Ringing)
    requires Enabled(s, Decide(t, ringing))
    ensures
      var s' := Apply(s, Decide(t, ringing));
      var c, o := s.closers[t], s.objects[s.closers[t].h];
      |s'.books.decisions| == |s.books.decisions| + 1 && Last(s'.books.decisions).h == c.h &&
      (StopsShared(s') <==>
        c.phase.last && c.stopMedia &&
        (c.force || (!o.ringCall && (ringing.NoRing? || (ringing.RefreshFailed? && !o.ringPreview)))) &&
        HasResource(s.active, s.objects, o.resource))
  {
    var m := Refreshed(s, s.closers[t].h, ringing);
    SameResources(s, m, s.objects[s.closers[t].h].resource);
    DecisionSays(m, t, s.closers[t].phase.last, true);
    hide HasResource, MakeDecision;
  }

  lemma DecisionSays(s: State, t: Task, last: bool, refreshed: bool)
    requires t in s.closers && s.closers[t].h in s.objects
    ensures
      var ds := MakeDecision(s, t, last, refreshed).books.decisions;
      var c, o := s.closers[t], s.objects[s.closers[t].h];
      |ds| == |s.books.decisions| + 1 && Last(ds).h == c.h &&
      Last(ds).stop == (last && c.stopMedia && (c.force || (!o.ringPreview && !o.ringCall))) &&
      Last(ds).shared == HasResource(s.active, s.objects, o.resource)
  {
    EndCloseKeepsDecisions(s, t);
    hide HasResource, EndClose;
  }

  lemma SameResources(s: State, s': State, resource: string)
    requires s'.active == s.active && s'.objects.Keys == s.objects.Keys
    requires forall h :: h in s.objects ==> s'.objects[h].resource == s.objects[h].resource
    ensures HasResource(s'.active, s'.objects, resource) <==> HasResource(s.active, s.objects, resource)
  {
  }

  // ---------------------------------------------------------------- how a resource gets an owner

  /** The close that an event cancels, if it cancels one. */
  ghost function CancelledClose(s: State, e: Event): MaybeTask
    requires Enabled(s, e)
  {
    match e
    case CloseCancel(t) => Some(t)
    case OfferCancel(sid, _, _) =>
      if s.offers[sid].Failing? && !s.closing then None else InnerTask(s.offers[sid])
    case _ => None
  }

  /** A session of the resource registers, or a cancelled close puts one back. */
  ghost predicate BringsOwner(s: State, e: Event, resource: string)
    requires Enabled(s, e)
  {
    (e.Register? && e.resource == resource) ||
    match CancelledClose(s, e)
    case None => false
    case Some(t) =>
      t in s.closers && s.closers[t].sid !in s.active && s.closers[t].h in s.objects &&
      s.objects[s.closers[t].h].resource == resource
  }

  /** No session comes to be registered, and none changes its resource. */
  ghost predicate OnlyLeaves(s: State, s': State) {
    (forall sid :: sid in s'.active ==> sid in s.active && s'.active[sid] == s.active[sid]) &&
    s.objects.Keys == s'.objects.Keys &&
    (forall h :: h in s.objects ==> s'.objects[h].resource == s.objects[h].resource)
  }

  lemma LeavingBringsNobody(s: State, s': State, resource: string)
    requires OnlyLeaves(s, s') && !HasResource(s.active, s.objects, resource)
    ensures !HasResource(s'.active, s'.objects, resource)
  {
  }

  lemma BeginCloseOnlyLeaves(s: State, t: Task, sid: Sid, stop: bool, force: bool, origin: Origin)
    ensures OnlyLeaves(s, BeginClose(s, t, sid, stop, force, origin))
    ensures sid !in BeginClose(s, t, sid, stop, force, origin).active
  {
    hide Pop, Relocate;
  }

  lemma CandidateOnlyLeaves(s: State, sid: Sid)
    ensures OnlyLeaves(s, DoCandidate(s, sid))
  {
    CandidateKeepsRegistry(s, sid);
    hide DoCandidate;
  }

  lemma CheckOnlyLeaves(s: State, t: Task)
    requires Enabled(s, CheckLast(t))
    ensures OnlyLeaves(s, DoCheckLast(s, t))
  {
    hide HasResource, MakeDecision;
    DecisionKeepsSessions(s, t, !HasResource(s.active, s.objects, s.objects[s.closers[t].h].resource), false);
  }

  lemma DecideOnlyLeaves(s: State, t: Task, ringing: Ringing)
    requires Enabled(s, Decide(t, ringing))
    ensures OnlyLeaves(s, DoDecide(s, t, ringing))
  {
    hide HasResource, MakeDecision;
    DecisionKeepsSessions(Refreshed(s, s.closers[t].h, ringing), t, s.closers[t].phase.last, true);
  }

  lemma OfferBeginOnlyLeaves(s: State, sid: Sid, t: Task)
    ensures OnlyLeaves(s, BeginOffer(s, sid, t))
  {
    BeginCloseOnlyLeaves(s, t, sid, true, false, OfOffer(sid));
    hide BeginClose;
  }

  lemma OfferReturnedOnlyLeaves(s: State, sid: Sid, failed: bool, stop: bool, t: Task)
    requires Enabled(s, OfferReturned(sid, failed, stop, t))
    ensures OnlyLeaves(s, DoOfferReturned(s, sid, failed, stop, t))
  {
    BeginCloseOnlyLeaves(s, t, sid, stop, false, OfOffer(sid));
    hide BeginClose;
  }

  lemma FailureOnlyLeaves(s: State, sid: Sid, stop: bool, t: Task)
    ensures OnlyLeaves(s, HandleFailure(s, sid, stop, t))
  {
    BeginCloseOnlyLeaves(s, t, sid, stop, false, OfOffer(sid));
    hide BeginClose;
  }

  lemma RemovalOnlyLeaves(s: State, t: Task, current: bool)
    requires Enabled(s, RemoveNext(t, current))
    ensures OnlyLeaves(s, DoRemoveNext(s, t, current))
  {
    BeginCloseOnlyLeaves(s.(removal := Removing(s.removal.queue[1..])), t, s.removal.queue[0], current, current, OfRemoval);
    hide BeginClose;
  }

  lemma PlainOnlyLeaves(s: State, e: Event)
    requires Enabled(s, e)
    requires
      e.FlushStep? || e.OfferEnd? || e.ProviderClosed? || e.StopDone? || e.HomeCallEnded? ||
      e.RemoveBegin? || e.RemoveDrained? || e.RemoveFinish?
    ensures OnlyLeaves(s, Apply(s, e))
  {
    hide BeginClose, DoRegister, MakeDecision, DoCandidate, DoRemoveNext, DoOfferReturned, DoOfferCancel, HandleFailure, BeginOffer;
  }

  lemma QuietOnlyLeaves(s: State, e: Event)
    requires Enabled(s, e) && !e.Register? && !e.CloseCancel? && !e.OfferCancel?
    ensures OnlyLeaves(s, Apply(s, e))
  {
    hide BeginOffer, DoOfferReturned, DoFlushStep, HandleFailure, BeginClose, DoProviderClosed, DoCheckLast, DoDecide, EndClose,
      DoCandidate, MarkInactive, DoDrained, DoRemoveNext, OnlyLeaves;
    match e
    case CloseBegin(t, sid, stop, origin) => BeginCloseOnlyLeaves(s, t, sid, stop, false, origin);
    case CheckLast(t) => CheckOnlyLeaves(s, t);
    case Decide(t, ringing) => DecideOnlyLeaves(s, t, ringing);
    case Candidate(sid) => CandidateOnlyLeaves(s, sid);
    case RemoveNext(t, current) => RemovalOnlyLeaves(s, t, current);
    case OfferBegin(sid, t) => OfferBeginOnlyLeaves(s, sid, t);
    case OfferReturned(sid, failed, stop, t) => OfferReturnedOnlyLeaves(s, sid, failed, stop, t);
    case OfferFail(sid, stop, t) => FailureOnlyLeaves(s, sid, stop, t);
    case _ => PlainOnlyLeaves(s, e);
  }

  lemma PutBackBrings(s: State, t: Task, offers: map<Sid, Stage>, resource: string)
    requires t in s.closers && CloserKnown(s, t) && !HasResource(s.active, s.objects, resource)
    ensures var s' := PutBack(s, t).(offers := offers);
      HasResource(s'.active, s'.objects, resource) <==>
        s.closers[t].sid !in s.active && s.objects[s.closers[t].h].resource == resource
  {
    var c := s.closers[t];
    if c.sid !in s.active { assert PutBack(s, t).active[c.sid] == c.h; }
  }

  lemma HandlerOnlyLeaves(s: State, sid: Sid, stop: bool, t: Task)
    ensures OnlyLeaves(s, CancelHandler(s, sid, stop, t))
    ensures s.closing ==> CancelHandler(s, sid, stop, t).active == s.active && CancelHandler(s, sid, stop, t).objects == s.objects
    ensures !s.closing ==> sid !in CancelHandler(s, sid, stop, t).active
  {
    BeginCloseOnlyLeaves(s, t, sid, stop, false, OfOffer(sid));
    hide BeginClose, Pop, Relocate;
  }

  lemma OfferCancelBrings(s: State, e: Event, resource: string)
    requires Inv(s) && Enabled(s, e) && e.OfferCancel? && !HasResource(s.active, s.objects, resource)
    ensures HasResource(Apply(s, e).active, Apply(s, e).objects, resource) <==> BringsOwner(s, e, resource)
  {
    hide CancelHandler, HasResource, PutBack;
    if InnerTask(s.offers[e.sid]).Some? {
      var t0 := InnerTask(s.offers[e.sid]).t;
      assert CloserKnown(s, t0) && OfferKnown(s, e.sid);
      hide Inv;
      PutBackBrings(s, t0, s.offers - {e.sid}, resource);
      if s.offers[e.sid].Failing? { FailingBrings(s, e.sid, e.stop, e.t, t0, resource); }
    } else {
      hide Inv;
      HandlerOnlyLeaves(s, e.sid, e.stop, e.t);
      LeavingBringsNobody(s, CancelHandler(s, e.sid, e.stop, e.t), resource);
    }
  }

  /** The cancelled close puts its session back, and the handler takes it again unless the removal has begun. */
  lemma FailingBrings(s: State, sid: Sid, stop: bool, t: Task, t0: Task, resource: string)
    requires t0 in s.closers && CloserKnown(s, t0) && s.closers[t0].sid == sid && !HasResource(s.active, s.objects, resource)
    ensures
      var m := PutBack(s, t0).(offers := s.offers - {sid});
      var s' := CancelHandler(m, sid, stop, t);
      HasResource(s'.active, s'.objects, resource) <==> s.closing && HasResource(m.active, m.objects, resource)
  {
    var m := PutBack(s, t0).(offers := s.offers - {sid});
    assert m.closing == s.closing;
    HandlerOnlyLeaves(m, sid, stop, t);
    hide CancelHandler, HasResource;
    if !s.closing { FailingTakesAgain(s, m, CancelHandler(m, sid, stop, t), t0, resource); }
  }

  /** The exception handler of the offer closes again what the cancelled close put back. */
  lemma FailingTakesAgain(s: State, m: State, s': State, t: Task, resource: string)
    requires t in s.closers && !HasResource(s.active, s.objects, resource)
    requires m == PutBack(s, t).(offers := m.offers) && OnlyLeaves(m, s') && s.closers[t].sid !in s'.active
    ensures !HasResource(s'.active, s'.objects, resource)
  {
  }

  /** A resource without a registered session gets one exactly when a session of it registers or a cancelled close
      puts one back. */
  lemma OwnerComesExactly(s: State, e: Event, resource: string)
    requires Inv(s) && Enabled(s, e) && !HasResource(s.active, s.objects, resource)
    ensures HasResource(Apply(s, e).active, Apply(s, e).objects, resource) <==> BringsOwner(s, e, resource)
  {
    if e.Register? { RegisterBrings(s, e, resource); }
    else if e.CloseCancel? { CloseCancelBrings(s, e, resource); }
    else if e.OfferCancel? { OfferCancelBrings(s, e, resource); }
    else {
      QuietOnlyLeaves(s, e);
      LeavingBringsNobody(s, Apply(s, e), resource);
    }
    hide Apply, Inv, HasResource;
  }

  lemma CloseCancelBrings(s: State, e: Event, resource: string)
    requires Inv(s) && Enabled(s, e) && e.CloseCancel? && !HasResource(s.active, s.objects, resource)
    ensures HasResource(Apply(s, e).active, Apply(s, e).objects, resource) <==> BringsOwner(s, e, resource)
  {
    assert CloserKnown(s, e.t);
    PutBackBrings(s, e.t, s.offers, resource);
    assert PutBack(s, e.t).(offers := s.offers) == PutBack(s, e.t);
    hide Inv, HasResource;
  }

  lemma RegisterBrings(s: State, e: Event, resource: string)
    requires Enabled(s, e) && e.Register? && !HasResource(s.active, s.objects, resource)
    requires Inv(s)
    ensures HasResource(Apply(s, e).active, Apply(s, e).objects, resource) <==> e.resource == resource
  {
    var s' := Apply(s, e);
    assert s'.active[e.sid] == e.h && s'.objects[e.h].resource == e.resource;
    forall sid | sid in s'.active && sid != e.sid ensures s'.active[sid] != e.h { assert ActiveKnown(s, sid); }
    hide Inv, Relocate, Pop, HeldFor;
  }

  // ---------------------------------------------------------------- between the check and the decision

  ghost predicate OwnerComes(s: State, es: seq<Event>, resource: string)
    requires Possible(s, es)
    decreases |es|
  {
    es != [] && (BringsOwner(s, es[0], resource) || OwnerComes(Apply(s, es[0]), es[1..], resource))
  }

  lemma {:induction false} NobodyWithoutComing(s: State, es: seq<Event>, resource: string)
    requires Inv(s) && Possible(s, es) && !HasResource(s.active, s.objects, resource)
    requires HasResource(Run(s, es).active, Run(s, es).objects, resource)
    ensures OwnerComes(s, es, resource)
    decreases |es|
  {
    hide Inv, Apply, BringsOwner, HasResource;
    if es != [] {
      StepKeepsInv(s, es[0]);
      OwnerComesExactly(s, es[0], resource);
      if !BringsOwner(s, es[0], resource) { NobodyWithoutComing(Apply(s, es[0]), es[1..], resource); }
    }
  }

  lemma {:induction false} ResourceStays(s: State, es: seq<Event>, h: Handle)
    requires Inv(s) && Possible(s, es) && h in s.objects
    ensures h in Run(s, es).objects && Run(s, es).objects[h].resource == s.objects[h].resource
    decreases |es|
  {
    hide Inv, Apply;
    if es != [] {
      StepKeepsInv(s, es[0]);
      StepKeepsResource(s, es[0], h);
      ResourceStays(Apply(s, es[0]), es[1..], h);
    }
  }

  lemma StepKeepsResource(s: State, e: Event, h: Handle)
    requires Enabled(s, e) && h in s.objects
    ensures h in Apply(s, e).objects && Apply(s, e).objects[h].resource == s.objects[h].resource
  {
    if e.OfferCancel? {
      CancelKeepsResource(s, e.sid, e.stop, e.t, h);
      hide DoOfferCancel;
    } else if e.Register? || e.CloseCancel? {
      hide Pop, Relocate, HeldFor;
    } else {
      QuietOnlyLeaves(s, e);
      hide Apply;
    }
  }

  lemma CancelKeepsResource(s: State, sid: Sid, stop: bool, t: Task, h: Handle)
    requires Enabled(s, OfferCancel(sid, stop, t)) && h in s.objects
    ensures
      var s' := DoOfferCancel(s, sid, stop, t);
      h in s'.objects && s'.objects[h].resource == s.objects[h].resource
  {
    HandlerOnlyLeaves(s, sid, stop, t);
    if InnerTask(s.offers[sid]).Some? {
      var m := PutBack(s, InnerTask(s.offers[sid]).t).(offers := s.offers - {sid});
      HandlerOnlyLeaves(m, sid, stop, t);
    }
    hide CancelHandler;
  }

  /** The close makes its check in s, reaching m; the run es leads on to u, where its decision follows. */
  ghost predicate CheckThenDecide(s: State, t: Task, m: State, es: seq<Event>, u: State, ringing: Ringing) {
    Enabled(s, CheckLast(t)) && m == Apply(s, CheckLast(t)) && Possible(m, es) && u == Run(m, es) &&
    t in m.closers && t in u.closers && u.closers[t] == m.closers[t] && Enabled(u, Decide(t, ringing))
  }

  /** A ring preview's close that makes its last-owner check in s and decides after the run es: it stops media that
      another session shares exactly when it was the last owner at the check, is not one at the decision, asks for
      the stop, and the refresh finds no ring; and then an owner of the resource came in between. */
  lemma SharedStopMeansANewOwner(s: State, t: Task, m: State, es: seq<Event>, u: State, ringing: Ringing)
    requires Inv(s) && CheckThenDecide(s, t, m, es, u, ringing) && s.objects[s.closers[t].h].ringPreview
    ensures s.closers[t].h in u.objects
    ensures
      var c, resource := s.closers[t], s.objects[s.closers[t].h].resource;
      var o := u.objects[c.h];
      (StopsShared(Apply(u, Decide(t, ringing))) <==>
        !HasResource(s.active, s.objects, resource) && HasResource(u.active, u.objects, resource) && c.stopMedia &&
        (c.force || (!o.ringCall && (ringing.NoRing? || (ringing.RefreshFailed? && !o.ringPreview))))) &&
      (StopsShared(Apply(u, Decide(t, ringing))) ==> OwnerComes(m, es, resource))
  {
    var c, resource := s.closers[t], s.objects[s.closers[t].h].resource;
    assert m.closers[t].phase == Refreshing(!HasResource(s.active, s.objects, resource));
    assert m.active == s.active && m.objects == s.objects;
    StepKeepsInv(s, CheckLast(t));
    ResourceStays(m, es, c.h);
    StopsSharedExactly(u, t, ringing);
    hide Inv, Apply, HasResource;
    if !HasResource(s.active, s.objects, resource) && HasResource(u.active, u.objects, resource) {
      NobodyWithoutComing(m, es, resource);
    }
  }
}

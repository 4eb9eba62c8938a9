/** Entity removal: once it has drained the camera's own work and walked its snapshot, nothing is left. */
module CameraRemoval {
  import opened CameraState
  import opened CameraInvariants
  import opened CameraClose

  /** The ids that a cancelled close has put back since removal drained, and that no close has taken again. */
  ghost function PutBackSince(s: State, e: Event, ids: set<Sid>): set<Sid>
    requires Enabled(s, e)
  {
    match e
    case RemoveDrained => {}
    case CloseCancel(t) => ids + {s.closers[t].sid}
    case CloseBegin(_, sid, _, _) => ids - {sid}
    case RemoveNext(_, _) => ids - {s.removal.queue[0]}
    case _ => ids
  }

  ghost function PutBackIn(s: State, es: seq<Event>, ids: set<Sid>): set<Sid>
    requires Possible(s, es)
    decreases |es|
  {
    if es == [] then ids else PutBackIn(Apply(s, es[0]), es[1..], PutBackSince(s, es[0], ids))
  }

  /** While removal walks its snapshot, the sessions still registered are those in the rest of it and those put
      back since, and only removal itself and the closes it never waits for hold sessions. */
  ghost predicate Draining(s: State, ids: set<Sid>) {
    match s.removal
    case Present => true
    case Aborted => true
    case Removing(queue) =>
      Shut(s) && ids <= s.active.Keys && (forall sid :: sid in s.active ==> sid in queue || sid in ids) &&
      forall t :: t in s.closers ==> s.closers[t].origin.Untracked? || s.closers[t].origin.OfRemoval?
    case Removed =>
      Shut(s) && s.active.Keys == ids && forall t :: t in s.closers ==> s.closers[t].origin.Untracked?
  }

  ghost predicate Shut(s: State) {
    s.closing && s.offers == map[] && s.candidates == Buffers([], map[])
  }

  lemma CloseKeepsDraining(s: State, t: Task, sid: Sid, stop: bool, ids: set<Sid>)
    requires Draining(s, ids)
    ensures Draining(BeginClose(s, t, sid, stop, false, Untracked), ids - {sid})
  {
    hide Relocate;
  }

  lemma RemoveNextKeepsDraining(s: State, t: Task, current: bool, ids: set<Sid>)
    requires Draining(s, ids) && s.removal.Removing? && s.removal.queue != []
    ensures Draining(DoRemoveNext(s, t, current), ids - {s.removal.queue[0]})
  {
    hide Relocate;
    var queue := s.removal.queue;
    assert queue == [queue[0]] + queue[1..];
  }

  lemma EndedCloseKeepsDraining(s: State, t: Task, ids: set<Sid>)
    requires Draining(s, ids) && t in s.closers
    ensures Draining(EndClose(s, t), ids)
  {
  }

  lemma CancelledCloseKeepsDraining(s: State, t: Task, ids: set<Sid>)
    requires Draining(s, ids) && t in s.closers
    ensures Draining(PutBack(s, t), ids + {s.closers[t].sid})
  {
  }

  lemma DecisionKeepsDraining(s: State, t: Task, last: bool, refreshed: bool, ids: set<Sid>)
    requires Draining(s, ids) && t in s.closers && s.closers[t].h in s.objects
    ensures Draining(MakeDecision(s, t, last, refreshed), ids)
  {
    hide HasResource;
  }

  lemma CheckKeepsDraining(s: State, e: Event, ids: set<Sid>)
    requires Draining(s, ids) && Enabled(s, e) && (e.CheckLast? || e.Decide?)
    ensures Draining(Apply(s, e), ids)
  {
    if e.CheckLast? {
      DecisionKeepsDraining(s, e.t, !HasResource(s.active, s.objects, s.objects[s.closers[e.t].h].resource), false, ids);
    } else {
      var m := Refreshed(s, s.closers[e.t].h, e.ringing);
      assert Draining(m, ids);
      DecisionKeepsDraining(m, e.t, s.closers[e.t].phase.last, true, ids);
    }
    hide MakeDecision, HasResource;
  }

  lemma BlocksKeepRemoval(s: State, t: Task, sid: Sid, stop: bool, force: bool, origin: Origin)
    ensures BeginClose(s, t, sid, stop, force, origin).removal == s.removal
    ensures t in s.closers ==> EndClose(s, t).removal == s.removal
    ensures t in s.closers ==> PutBack(s, t).removal == s.removal || PutBack(s, t).removal.Aborted?
  {
  }

  lemma CandidateKeepsRemoval(s: State, sid: Sid)
    ensures DoCandidate(s, sid).removal == s.removal
  {
  }

  lemma CheckKeepsRemoval(s: State, t: Task)
    requires t in s.closers && s.closers[t].h in s.objects
    ensures DoCheckLast(s, t).removal == s.removal
    ensures forall r | s.closers[t].phase.Refreshing? :: DoDecide(s, t, r).removal == s.removal
  {
  }

  lemma CancelKeepsRemoval(s: State, sid: Sid, stop: bool, t: Task)
    requires Enabled(s, OfferCancel(sid, stop, t))
    ensures DoOfferCancel(s, sid, stop, t).removal == s.removal || DoOfferCancel(s, sid, stop, t).removal.Aborted?
  {
    hide BeginClose, PutBack;
    BlocksKeepRemoval(s, t, sid, stop, false, OfOffer(sid));
    if InnerTask(s.offers[sid]).Some? {
      var t0 := InnerTask(s.offers[sid]).t;
      BlocksKeepRemoval(s, t0, sid, stop, false, OfOffer(sid));
      BlocksKeepRemoval(PutBack(s, t0).(offers := s.offers - {sid}), t, sid, stop, false, OfOffer(sid));
    }
  }

  ghost predicate NotDraining(s: State) { s.removal.Present? || s.removal.Aborted? }

  /** Before removal has drained, and after it was aborted, there is nothing to keep. */
  lemma NotDrainingStays(s: State, e: Event)
    requires Enabled(s, e) && NotDraining(s) && !e.RemoveDrained?
    ensures NotDraining(Apply(s, e))
  {
    hide DoOfferCancel, BeginClose, DoCheckLast, DoDecide, EndClose, PutBack, DoCandidate, MarkInactive, Relocate, Pop;
    match e
    case OfferBegin(sid, t) => BlocksKeepRemoval(s, t, sid, true, false, OfOffer(sid));
    case OfferReturned(sid, _, stop, t) => BlocksKeepRemoval(s, t, sid, stop, false, OfOffer(sid));
    case OfferFail(sid, stop, t) => BlocksKeepRemoval(s, t, sid, stop, false, OfOffer(sid));
    case OfferCancel(sid, stop, t) => CancelKeepsRemoval(s, sid, stop, t);
    case CloseBegin(t, sid, stop, origin) => BlocksKeepRemoval(s, t, sid, stop, false, origin);
    case CheckLast(t) => CheckKeepsRemoval(s, t);
    case Decide(t, _) => CheckKeepsRemoval(s, t);
    case StopDone(t) => BlocksKeepRemoval(s, t, "", true, false, Tracked);
    case CloseCancel(t) => BlocksKeepRemoval(s, t, "", true, false, Tracked);
    case Candidate(sid) => CandidateKeepsRemoval(s, sid);
    case _ =>
  }

  lemma DrainedIsDraining(s: State)
    requires Enabled(s, RemoveDrained)
    ensures Draining(DoDrained(s), {})
  {
  }

  lemma StepKeepsDraining(s: State, e: Event, ids: set<Sid>)
    requires Draining(s, ids) && Enabled(s, e)
    ensures Draining(Apply(s, e), PutBackSince(s, e, ids))
  {
    if NotDraining(s) && !e.RemoveDrained? {
      NotDrainingStays(s, e);
      hide Apply;
    } else {
      hide BeginClose, EndClose, PutBack, DoCheckLast, DoDecide, DoRemoveNext, MarkInactive, Relocate, DoDrained;
      match e
      case CloseBegin(t, sid, stop, _) => CloseKeepsDraining(s, t, sid, stop, ids);
      case CheckLast(_) => CheckKeepsDraining(s, e, ids);
      case Decide(_, _) => CheckKeepsDraining(s, e, ids);
      case StopDone(t) => EndedCloseKeepsDraining(s, t, ids);
      case CloseCancel(t) => CancelledCloseKeepsDraining(s, t, ids);
      case RemoveNext(t, current) => RemoveNextKeepsDraining(s, t, current, ids);
      case RemoveDrained => DrainedIsDraining(s);
      case _ =>
    }
  }

  lemma {:induction false} RunKeepsDraining(s: State, es: seq<Event>, ids: set<Sid>)
    requires Draining(s, ids) && Possible(s, es)
    ensures Draining(Run(s, es), PutBackIn(s, es, ids))
    decreases |es|
  {
    hide Draining, Apply, PutBackSince;
    if es == [] {
    } else {
      StepKeepsDraining(s, es[0], ids);
      RunKeepsDraining(Apply(s, es[0]), es[1..], PutBackSince(s, es[0], ids));
    }
  }

  /** Held by a close that entity removal never waits for. */
  ghost predicate HeldUntracked(s: State, h: Handle) {
    exists t :: t in s.closers && s.closers[t].h == h && s.closers[t].origin.Untracked?
  }

  /** In every run: when removal has completed, no candidate buffer and no offer is left, the ids still registered
      are exactly those that a close cancelled since the drain put back and that no close has taken again, and
      every other session ever registered has completed its provider close, was lost to id reuse, or is held by a
      close that removal does not wait for. So nothing is left registered exactly when no id was left put back. */
  lemma RemovalLeavesExactly(es: seq<Event>)
    requires Possible(INITIAL, es) && Run(INITIAL, es).removal.Removed?
    ensures
      var s := Run(INITIAL, es);
      s.candidates == Buffers([], map[]) && s.offers == map[] &&
      s.active.Keys == PutBackIn(INITIAL, es, {}) && (s.active == map[] <==> PutBackIn(INITIAL, es, {}) == {}) &&
      forall h :: h in s.objects ==> OnActive(s, h) || h in s.books.closed || Lost(s, h) || HeldUntracked(s, h)
  {
    RunKeepsDraining(INITIAL, es, {});
    var s := Run(INITIAL, es);
    assert s.active == map[] <==> s.active.Keys == {};
    forall h | h in s.objects ensures OnActive(s, h) || h in s.books.closed || Lost(s, h) || HeldUntracked(s, h) {
      EverySessionIsSomewhere(es, h);
      if BeingClosed(s, h) {
        var t :| t in s.closers && s.closers[t].h == h;
        assert s.closers[t].origin.Untracked?;
      }
    }
  }

  /** After removal has completed and left nothing registered, a block registers a session again if and only if it
      is the cancellation of a close. */
  lemma RegistersAfterRemovalExactly(es: seq<Event>, e: Event)
    requires Possible(INITIAL, es) && Run(INITIAL, es).removal.Removed? && Run(INITIAL, es).active == map[]
    requires Enabled(Run(INITIAL, es), e)
    ensures Apply(Run(INITIAL, es), e).active != map[] <==> e.CloseCancel?
  {
    var s := Run(INITIAL, es);
    RunKeepsDraining(INITIAL, es, {});
    StepKeepsDraining(s, e, {});
    hide Possible, Run, PutBackIn;
    if e.CloseCancel? { assert s.closers[e.t].sid in PutBack(s, e.t).active; }
    NothingTaken(s, e);
  }

  lemma NothingTaken(s: State, e: Event)
    requires Enabled(s, e) && s.removal.Removed? && s.offers == map[] && s.active == map[] && s.closing
    ensures !e.CloseCancel? ==> Apply(s, e).active == map[]
  {
    hide HasResource, Relocate, MarkInactive;
  }
}

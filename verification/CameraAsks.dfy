/** What every close was asked for, and that it acts on it: the event that begins a close says whether the media is to
    be stopped and whether to force it, and the decision at the end of the close is made with that. */
module CameraAsks {
  import opened CameraState
  import opened CameraInvariants
  import opened CameraClose

  /** A close as it was asked for. */
  datatype Ask = Ask(h: Handle, sid: Sid, stop: bool, force: bool, origin: Origin)

  /** The close that a block begins, if it begins one, read off the event alone: which session is registered under the
      id, and what the event asks for. An offer's handler is not run for the stages that close in their own handler, nor
      does it close anything while the camera is closing. */
  ghost function AskOf(s: State, e: Event): map<Task, Ask>
    requires Enabled(s, e)
  {
    match e
    case CloseBegin(t, sid, stop, origin) =>
      if sid in s.active then map[t := Ask(s.active[sid], sid, stop, false, origin)] else map[]
    case RemoveNext(t, current) =>
      var sid := s.removal.queue[0];
      if sid in s.active then map[t := Ask(s.active[sid], sid, current, current, OfRemoval)] else map[]
    case OfferBegin(sid, t) =>
      if !s.closing && sid !in s.offers && sid in s.active then map[t := Ask(s.active[sid], sid, true, false, OfOffer(sid))]
      else map[]
    case OfferReturned(sid, failed, stop, t) =>
      if failed && sid in s.active && s.active[sid] == s.offers[sid].h then
        map[t := Ask(s.active[sid], sid, stop, false, OfOffer(sid))]
      else map[]
    case OfferFail(sid, stop, t) =>
      if sid in s.active then map[t := Ask(s.active[sid], sid, stop, false, OfOffer(sid))] else map[]
    case OfferCancel(sid, stop, t) =>
      var stage := s.offers[sid];
      if s.closing || stage.ClosingOld? || stage.Cleaning? || stage.Ending? then map[]
      else if sid in s.active then map[t := Ask(s.active[sid], sid, stop, false, OfOffer(sid))]
      else if stage.Failing? then map[t := Ask(s.closers[stage.t].h, sid, stop, false, OfOffer(sid))]
      else map[]
    case _ => map[]
  }

  ghost predicate Matches(c: Close, a: Ask) {
    c.h == a.h && c.sid == a.sid && c.stopMedia == a.stop && c.force == a.force && c.origin == a.origin
  }

  ghost predicate SameAsk(c: Close, d: Close) {
    c.h == d.h && c.sid == d.sid && c.stopMedia == d.stopMedia && c.force == d.force && c.origin == d.origin
  }

  /** How far a close that goes on is after a block: its provider close completes, it makes its last-owner check, and a
      ring preview is refreshed before the decision; after the decision it goes on only to stop the media. */
  ghost function PhaseAfter(s: State, e: Event, t: Task): Phase
    requires Enabled(s, e) && t in s.closers
  {
    if e == ProviderClosed(t) then TornDown
    else if e == CheckLast(t) then
      var o := s.objects[s.closers[t].h];
      if o.ringPreview then Refreshing(!HasResource(s.active, s.objects, o.resource)) else Stopping
    else if e.Decide? && e.t == t then Stopping
    else s.closers[t].phase
  }

  /** The closes after a block are those it was asked to begin, tearing down, and earlier ones that are as they were
      asked for and have gone on with the block. */
  ghost predicate AsAsked(s: State, e: Event, s': State)
    requires Enabled(s, e)
  {
    (forall t :: t in s'.closers ==>
      if t in AskOf(s, e) then Matches(s'.closers[t], AskOf(s, e)[t]) && s'.closers[t].phase.TearDown?
      else t in s.closers && SameAsk(s.closers[t], s'.closers[t]) && s'.closers[t].phase == PhaseAfter(s, e, t)) &&
    (forall t :: t in AskOf(s, e) ==> t in s'.closers && t !in s.closers)
  }

  /** A block that begins the close it is asked for, or ends some closes, and moves none on. */
  lemma ClosersAsAsked(s: State, e: Event, s': State, t: Task)
    requires Enabled(s, e) && !e.ProviderClosed? && !e.CheckLast? && !e.Decide?
    requires
      if t in AskOf(s, e) then
        var a := AskOf(s, e)[t];
        AskOf(s, e).Keys == {t} && t !in s.closers && t in s'.closers &&
        s'.closers[t] == Close(a.sid, a.h, a.stop, a.force, TearDown, a.origin)
      else AskOf(s, e) == map[]
    requires forall u :: u in s'.closers && u !in AskOf(s, e) ==> u in s.closers && s'.closers[u] == s.closers[u]
    ensures AsAsked(s, e, s')
  {
    hide AskOf, HasResource;
  }

  lemma BeginCloseAsks(s: State, t: Task, sid: Sid, stop: bool, force: bool, origin: Origin)
    ensures BeginClose(s, t, sid, stop, force, origin).closers ==
      if sid in s.active then s.closers[t := Close(sid, s.active[sid], stop, force, TearDown, origin)] else s.closers
  {
    hide Pop, Relocate, HeldFor;
  }

  lemma OfferBeginAsks(s: State, sid: Sid, t: Task)
    requires Enabled(s, OfferBegin(sid, t))
    ensures AsAsked(s, OfferBegin(sid, t), BeginOffer(s, sid, t))
  {
    hide BeginClose, AsAsked;
    BeginCloseAsks(s, t, sid, true, false, OfOffer(sid));
    ClosersAsAsked(s, OfferBegin(sid, t), BeginOffer(s, sid, t), t);
  }

  lemma CloseBeginAsks(s: State, t: Task, sid: Sid, stop: bool, origin: Origin)
    requires Enabled(s, CloseBegin(t, sid, stop, origin))
    ensures AsAsked(s, CloseBegin(t, sid, stop, origin), BeginClose(s, t, sid, stop, false, origin))
  {
    hide BeginClose, AsAsked;
    BeginCloseAsks(s, t, sid, stop, false, origin);
    ClosersAsAsked(s, CloseBegin(t, sid, stop, origin), BeginClose(s, t, sid, stop, false, origin), t);
  }

  lemma RemoveNextAsks(s: State, t: Task, current: bool)
    requires Enabled(s, RemoveNext(t, current))
    ensures AsAsked(s, RemoveNext(t, current), DoRemoveNext(s, t, current))
  {
    hide BeginClose, AsAsked;
    BeginCloseAsks(s.(removal := Removing(s.removal.queue[1..])), t, s.removal.queue[0], current, current, OfRemoval);
    ClosersAsAsked(s, RemoveNext(t, current), DoRemoveNext(s, t, current), t);
  }

  lemma OfferFailAsks(s: State, sid: Sid, stop: bool, t: Task)
    requires Enabled(s, OfferFail(sid, stop, t))
    ensures AsAsked(s, OfferFail(sid, stop, t), HandleFailure(s, sid, stop, t))
  {
    hide BeginClose, AsAsked;
    BeginCloseAsks(s, t, sid, stop, false, OfOffer(sid));
    ClosersAsAsked(s, OfferFail(sid, stop, t), HandleFailure(s, sid, stop, t), t);
  }

  lemma OfferReturnedAsks(s: State, sid: Sid, failed: bool, stop: bool, t: Task)
    requires Enabled(s, OfferReturned(sid, failed, stop, t))
    ensures AsAsked(s, OfferReturned(sid, failed, stop, t), DoOfferReturned(s, sid, failed, stop, t))
  {
    hide BeginClose, AsAsked;
    BeginCloseAsks(s, t, sid, stop, false, OfOffer(sid));
    ClosersAsAsked(s, OfferReturned(sid, failed, stop, t), DoOfferReturned(s, sid, failed, stop, t), t);
  }

  /** The handler of a cancelled offer. */
  lemma HandlerAsks(s: State, sid: Sid, stop: bool, t: Task)
    ensures CancelHandler(s, sid, stop, t).closers ==
      if !s.closing && sid in s.active then s.closers[t := Close(sid, s.active[sid], stop, false, TearDown, OfOffer(sid))]
      else s.closers
  {
    BeginCloseAsks(s, t, sid, stop, false, OfOffer(sid));
    hide BeginClose, Pop, Relocate;
  }

  lemma OfferCancelAsks(s: State, sid: Sid, stop: bool, t: Task)
    requires Inv(s) && Enabled(s, OfferCancel(sid, stop, t))
    ensures AsAsked(s, OfferCancel(sid, stop, t), DoOfferCancel(s, sid, stop, t))
  {
    hide CancelHandler, PutBack, Inv, AsAsked;
    if InnerTask(s.offers[sid]).Some? {
      var t0 := InnerTask(s.offers[sid]).t;
      InnerCloseIsKnown(s, sid, t0);
      PutBackRegisters(s, t0, sid);
      HandlerAsks(PutBack(s, t0).(offers := s.offers - {sid}), sid, stop, t);
    } else {
      HandlerAsks(s, sid, stop, t);
    }
    ClosersAsAsked(s, OfferCancel(sid, stop, t), DoOfferCancel(s, sid, stop, t), t);
  }

  lemma InnerCloseIsKnown(s: State, sid: Sid, t0: Task)
    requires Inv(s) && sid in s.offers && InnerTask(s.offers[sid]) == Some(t0)
    ensures t0 in s.closers && s.closers[t0].sid == sid
  {
    assert OfferKnown(s, sid);
  }

  lemma PutBackRegisters(s: State, t0: Task, sid: Sid)
    requires t0 in s.closers && s.closers[t0].sid == sid
    ensures var m := PutBack(s, t0).(offers := s.offers - {sid});
      m.closing == s.closing && m.closers == s.closers - {t0} && sid in m.active &&
      m.active[sid] == if sid in s.active then s.active[sid] else s.closers[t0].h
  {
  }

  lemma DecisionKeepsAsks(s: State, t: Task, last: bool, refreshed: bool)
    requires t in s.closers && s.closers[t].h in s.objects
    ensures var s' := MakeDecision(s, t, last, refreshed);
      s'.closers == s.closers - {t} || s'.closers == s.closers[t := s.closers[t].(phase := Stopping)]
  {
    DecisionOutline(s, t, last, refreshed);
    hide MakeDecision;
  }

  lemma CheckKeepsAsks(s: State, t: Task)
    requires Enabled(s, CheckLast(t))
    ensures AsAsked(s, CheckLast(t), DoCheckLast(s, t))
  {
    hide HasResource, MakeDecision, AsAsked;
    var o := s.objects[s.closers[t].h];
    DecisionKeepsAsks(s, t, !HasResource(s.active, s.objects, o.resource), false);
    PhaseAsAsked(s, CheckLast(t), DoCheckLast(s, t), t);
  }

  /** A block that moves one close on or ends it. */
  lemma PhaseAsAsked(s: State, e: Event, s': State, t: Task)
    requires Enabled(s, e) && (e.CheckLast? || e.Decide?) && e.t == t
    requires s'.closers == s.closers - {t} || s'.closers == s.closers[t := s.closers[t].(phase := PhaseAfter(s, e, t))]
    ensures AsAsked(s, e, s')
  {
    hide HasResource;
  }

  lemma DecideKeepsAsks(s: State, t: Task, ringing: Ringing)
    requires Enabled(s, Decide(t, ringing))
    ensures AsAsked(s, Decide(t, ringing), DoDecide(s, t, ringing))
  {
    hide MakeDecision, HasResource, AsAsked;
    DecisionKeepsAsks(Refreshed(s, s.closers[t].h, ringing), t, s.closers[t].phase.last, true);
    PhaseAsAsked(s, Decide(t, ringing), DoDecide(s, t, ringing), t);
  }

  lemma CandidateKeepsAsks(s: State, sid: Sid)
    ensures AsAsked(s, Candidate(sid), DoCandidate(s, sid))
  {
    CandidateKeepsRegistry(s, sid);
    hide DoCandidate, AsAsked;
    ClosersAsAsked(s, Candidate(sid), DoCandidate(s, sid), 0);
  }

  lemma ProviderClosedAsks(s: State, t: Task)
    requires Enabled(s, ProviderClosed(t))
    ensures AsAsked(s, ProviderClosed(t), DoProviderClosed(s, t))
  {
    hide HasResource;
  }

  lemma PlainKeepsAsks(s: State, e: Event)
    requires Enabled(s, e)
    requires
      e.Register? || e.FlushStep? || e.OfferEnd? || e.StopDone? || e.CloseCancel? || e.HomeCallEnded? || e.RemoveBegin? ||
      e.RemoveDrained? || e.RemoveFinish?
    ensures AsAsked(s, e, Apply(s, e))
  {
    hide BeginClose, MakeDecision, DoCandidate, DoRemoveNext, DoOfferReturned, DoOfferCancel, HandleFailure, BeginOffer, Pop,
      Relocate, HeldFor, MarkInactive, AsAsked, DoCheckLast, DoDecide;
    ClosersAsAsked(s, e, Apply(s, e), 0);
  }

  /** A close is begun exactly when an event asks for it, as it asks for it; and no block changes what was asked. */
  lemma ClosesAsAsked(s: State, e: Event)
    requires Inv(s) && Enabled(s, e)
    ensures AsAsked(s, e, Apply(s, e))
  {
    hide Inv, AsAsked;
    hide BeginOffer, DoRegister, DoOfferReturned, DoFlushStep, HandleFailure, DoOfferCancel, BeginClose,
      DoProviderClosed, DoCheckLast, DoDecide, EndClose, PutBack, DoCandidate, MarkInactive, DoDrained, DoRemoveNext;
    match e
    case OfferBegin(sid, t) => OfferBeginAsks(s, sid, t);
    case OfferReturned(sid, failed, stop, t) => OfferReturnedAsks(s, sid, failed, stop, t);
    case OfferFail(sid, stop, t) => OfferFailAsks(s, sid, stop, t);
    case OfferCancel(sid, stop, t) => OfferCancelAsks(s, sid, stop, t);
    case CloseBegin(t, sid, stop, origin) => CloseBeginAsks(s, t, sid, stop, origin);
    case CheckLast(t) => CheckKeepsAsks(s, t);
    case Decide(t, ringing) => DecideKeepsAsks(s, t, ringing);
    case Candidate(sid) => CandidateKeepsAsks(s, sid);
    case RemoveNext(t, current) => RemoveNextAsks(s, t, current);
    case ProviderClosed(t) => ProviderClosedAsks(s, t);
    case _ => PlainKeepsAsks(s, e);
  }

  // ---------------------------------------------------------------- over whole runs

  /** What the closes of a run were asked for, from its events alone; a later close may have the number of an ended one. */
  ghost function AsksIn(s: State, es: seq<Event>, asks: map<Task, Ask>): map<Task, Ask>
    requires Possible(s, es)
    decreases |es|
  {
    if es == [] then asks else AsksIn(Apply(s, es[0]), es[1..], asks + AskOf(s, es[0]))
  }

  ghost predicate Remembers(s: State, asks: map<Task, Ask>) {
    forall t :: t in s.closers ==> t in asks && Matches(s.closers[t], asks[t])
  }

  lemma {:induction false} RunRemembers(s: State, es: seq<Event>, asks: map<Task, Ask>)
    requires Inv(s) && Possible(s, es) && Remembers(s, asks)
    ensures Remembers(Run(s, es), AsksIn(s, es, asks))
    decreases |es|
  {
    hide Inv, Apply, AskOf;
    if es != [] {
      ClosesAsAsked(s, es[0]);
      StepKeepsInv(s, es[0]);
      RunRemembers(Apply(s, es[0]), es[1..], asks + AskOf(s, es[0]));
    }
  }

  /** In every run, each close in progress is of the session, and is to stop or force the media, as the event that began
      it asked. */
  lemma ClosesRemember(es: seq<Event>, t: Task)
    requires Possible(INITIAL, es) && t in Run(INITIAL, es).closers
    ensures t in AsksIn(INITIAL, es, map[]) && Matches(Run(INITIAL, es).closers[t], AsksIn(INITIAL, es, map[])[t])
  {
    InitialInv();
    RunRemembers(INITIAL, es, map[]);
  }

  // ---------------------------------------------------------------- the sessions keep what they were registered with

  /** A session as it was registered: everything but its ring preview, readiness and buffer. */
  ghost predicate SameSort(o: Session, o': Session) {
    o'.sid == o.sid && o'.resource == o.resource && o'.homeCall == o.homeCall && o'.ringCall == o.ringCall
  }

  /** The ring preview after a block: as the status refresh of its close says, if it says something. */
  ghost predicate PreviewAfter(s: State, e: Event, h: Handle, before: bool)
    requires Enabled(s, e)
  {
    if e.Decide? && s.closers[e.t].h == h && !e.ringing.RefreshFailed? then e.ringing.StillRinging? else before
  }

  /** Exactly the sessions registered come to exist, with the facts of their event; of the others only the ring preview
      changes, with a status refresh. */
  ghost predicate SortsKept(s: State, e: Event, s': State)
    requires Enabled(s, e)
  {
    s'.objects.Keys == s.objects.Keys + (if e.Register? then {e.h} else {}) &&
    (e.Register? ==>
      var o := s'.objects[e.h];
      o.sid == e.sid && o.resource == e.resource && o.homeCall == e.homeCall && o.ringCall == e.ringCall &&
      o.ringPreview == e.ringPreview && !o.ready && o.pending == HeldFor(s.candidates, e.sid)) &&
    forall h :: h in s.objects ==>
      SameSort(s.objects[h], s'.objects[h]) && s'.objects[h].ringPreview == PreviewAfter(s, e, h, s.objects[h].ringPreview)
  }

  ghost predicate AllSame(s: State, s': State) {
    s'.objects.Keys == s.objects.Keys &&
    forall h :: h in s.objects ==>
      SameSort(s.objects[h], s'.objects[h]) && s'.objects[h].ringPreview == s.objects[h].ringPreview
  }

  lemma BeginCloseKeepsSorts(s: State, t: Task, sid: Sid, stop: bool, force: bool, origin: Origin)
    ensures BeginClose(s, t, sid, stop, force, origin).objects == s.objects
    ensures t in s.closers ==> PutBack(s, t).objects == s.objects && EndClose(s, t).objects == s.objects
  {
    hide Pop, Relocate, HeldFor;
  }

  lemma HandlerKeepsSorts(s: State, sid: Sid, stop: bool, t: Task)
    ensures CancelHandler(s, sid, stop, t).objects == s.objects && HandleFailure(s, sid, stop, t).objects == s.objects
  {
    BeginCloseKeepsSorts(s, t, sid, stop, false, OfOffer(sid));
    hide BeginClose, Pop, Relocate;
  }

  lemma CancelKeepsSorts(s: State, sid: Sid, stop: bool, t: Task)
    requires Enabled(s, OfferCancel(sid, stop, t))
    ensures DoOfferCancel(s, sid, stop, t).objects == s.objects
  {
    hide PutBack, CancelHandler;
    HandlerKeepsSorts(s, sid, stop, t);
    if InnerTask(s.offers[sid]).Some? {
      var t0 := InnerTask(s.offers[sid]).t;
      BeginCloseKeepsSorts(s, t0, sid, stop, false, OfOffer(sid));
      HandlerKeepsSorts(PutBack(s, t0).(offers := s.offers - {sid}), sid, stop, t);
    }
  }

  lemma OfferKeepsSorts(s: State, sid: Sid, failed: bool, stop: bool, t: Task)
    ensures AllSame(s, BeginOffer(s, sid, t))
    ensures Enabled(s, OfferReturned(sid, failed, stop, t)) ==> AllSame(s, DoOfferReturned(s, sid, failed, stop, t))
  {
    BeginCloseKeepsSorts(s, t, sid, true, false, OfOffer(sid));
    BeginCloseKeepsSorts(s, t, sid, stop, false, OfOffer(sid));
    hide BeginClose;
  }

  lemma CandidateKeepsSorts(s: State, sid: Sid)
    ensures AllSame(s, DoCandidate(s, sid))
  {
    hide Arrive, Evict, StoreInSession, StoreBeforeSession;
    var c, m := s.ice.arrived, Arrive(s);
    StoresKeepSorts(s, sid, c);
    StoresKeepSorts(m, sid, c);
    StoresKeepSorts(Evict(m), sid, c);
    if sid in s.active && s.active[sid] in s.objects { StoreKeepsSorts(m, s.active[sid], c); }
  }

  lemma StoresKeepSorts(s: State, sid: Sid, c: Stamp)
    ensures Arrive(s) == s.(ice := Arrive(s).ice)
    ensures Evict(s).objects == s.objects && StoreBeforeSession(s, sid, c).objects == s.objects
  {
    hide Pop, Relocate;
  }

  lemma StoreKeepsSorts(s: State, h: Handle, c: Stamp)
    requires h in s.objects
    ensures AllSame(s, StoreInSession(s, h, c))
  {
  }

  lemma CheckKeepsSorts(s: State, t: Task)
    requires Enabled(s, CheckLast(t))
    ensures DoCheckLast(s, t).objects == s.objects
  {
    hide MakeDecision, HasResource;
    DecisionKeepsSessions(s, t, !HasResource(s.active, s.objects, s.objects[s.closers[t].h].resource), false);
  }

  lemma DecideKeepsSorts(s: State, t: Task, ringing: Ringing)
    requires Enabled(s, Decide(t, ringing))
    ensures DoDecide(s, t, ringing).objects == Refreshed(s, s.closers[t].h, ringing).objects
  {
    hide MakeDecision;
    DecisionKeepsSessions(Refreshed(s, s.closers[t].h, ringing), t, s.closers[t].phase.last, true);
  }

  lemma CheckSorts(s: State, e: Event)
    requires Enabled(s, e) && (e.CheckLast? || e.Decide?)
    ensures SortsKept(s, e, Apply(s, e))
  {
    hide DoCheckLast, DoDecide;
    if e.CheckLast? { CheckKeepsSorts(s, e.t); } else { DecideKeepsSorts(s, e.t, e.ringing); }
  }

  lemma FlushKeepsSorts(s: State, sid: Sid)
    requires Enabled(s, FlushStep(sid))
    ensures AllSame(s, DoFlushStep(s, sid))
  {
  }

  lemma PlainKeepsSorts(s: State, e: Event)
    requires Enabled(s, e)
    requires e.OfferEnd? || e.ProviderClosed? || e.HomeCallEnded? || e.RemoveBegin? || e.RemoveDrained? || e.RemoveFinish?
    ensures AllSame(s, Apply(s, e))
  {
    hide BeginClose, MakeDecision, DoCandidate, DoRemoveNext, DoOfferReturned, DoOfferCancel, HandleFailure, BeginOffer, Pop,
      Relocate, HeldFor, DoFlushStep;
  }

  lemma RegisterKeepsSorts(s: State, e: Event)
    requires Enabled(s, e) && e.Register?
    ensures SortsKept(s, e, Apply(s, e))
  {
    hide Pop, Relocate;
  }

  lemma QuietKeepsSorts(s: State, e: Event)
    requires Enabled(s, e) && !e.Register? && !e.CheckLast? && !e.Decide?
    ensures AllSame(s, Apply(s, e))
  {
    hide AllSame;
    hide BeginOffer, DoOfferReturned, DoFlushStep, HandleFailure, DoOfferCancel, BeginClose,
      DoProviderClosed, EndClose, PutBack, DoCandidate, MarkInactive, DoDrained;
    ItselfIsSame(s);
    match e
    case OfferBegin(sid, t) => OfferKeepsSorts(s, sid, false, false, t);
    case OfferReturned(sid, failed, stop, t) => OfferKeepsSorts(s, sid, failed, stop, t);
    case OfferFail(sid, stop, t) => HandlerKeepsSorts(s, sid, stop, t);
    case OfferCancel(sid, stop, t) => CancelKeepsSorts(s, sid, stop, t);
    case CloseBegin(t, sid, stop, origin) => BeginCloseKeepsSorts(s, t, sid, stop, false, origin);
    case StopDone(t) => BeginCloseKeepsSorts(s, t, "", true, false, Tracked);
    case CloseCancel(t) => BeginCloseKeepsSorts(s, t, "", true, false, Tracked);
    case Candidate(sid) => CandidateKeepsSorts(s, sid);
    case RemoveNext(t, current) =>
      BeginCloseKeepsSorts(s.(removal := Removing(s.removal.queue[1..])), t, s.removal.queue[0], current, current, OfRemoval);
    case FlushStep(sid) => FlushKeepsSorts(s, sid);
    case _ => PlainKeepsSorts(s, e);
  }

  lemma ItselfIsSame(s: State)
    ensures forall s': State :: s'.objects == s.objects ==> AllSame(s, s')
  {
  }

  /** Sessions come to exist only by registering, as what they are registered, and stay that, but for the ring preview,
      which is what the status refresh of its close finds. */
  lemma SessionsKeepTheirSort(s: State, e: Event)
    requires Enabled(s, e)
    ensures SortsKept(s, e, Apply(s, e))
  {
    hide Apply;
    if e.Register? { RegisterKeepsSorts(s, e); }
    else if e.CheckLast? || e.Decide? { CheckSorts(s, e); }
    else { QuietKeepsSorts(s, e); }
  }
}

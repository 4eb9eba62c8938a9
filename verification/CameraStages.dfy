/** The camera seen from one id: what becomes of its offer, its session and its close with every block, and that none
    of them gets stuck. */
module CameraStages {
  import opened CameraState
  import opened CameraInvariants
  import opened CameraClose
  import opened CameraAsks
  import opened CameraStops

  // ---------------------------------------------------------------- offers

  /** The exception handler of an offer: it closes the id's session, if there is one to close. */
  ghost predicate Handled(s: State, e: Event, stage: Stage)
    requires Enabled(s, e) && (e.OfferFail? || e.OfferCancel?)
  {
    stage == if e.t in AskOf(s, e) then Cleaning(e.t) else Ending
  }

  /** The life of an offer: the old session of the id is closed first; then the new one is registered, answered by the
      provider and flushed; a failure or a cancellation runs the exception handler, unless that is already running or
      the offer has not come to its try block. */
  ghost predicate StageMoves(s: State, e: Event, s': State, x: Sid)
    requires Enabled(s, e)
  {
    if x !in s.offers then
      (x in s'.offers <==> e.OfferBegin? && e.sid == x && !s.closing) &&
      (x in s'.offers ==> s'.offers[x] == if x in s.active then ClosingOld(e.t) else Opening)
    else
      var stage, cancelled, failed := s.offers[x], e.OfferCancel? && e.sid == x, e.OfferFail? && e.sid == x;
      if stage.ClosingOld? || stage.Cleaning? || stage.Ending? then
        (x !in s'.offers <==> cancelled || (stage.Ending? && e == OfferEnd(x))) &&
        (x in s'.offers ==>
          s'.offers[x] ==
            if InnerTask(stage).Some? && InnerTask(stage).t !in s'.closers then if stage.ClosingOld? then Opening else Ending
            else stage)
      else
        x in s'.offers &&
        if cancelled || failed then Handled(s, e, s'.offers[x])
        else match stage
          case Opening => s'.offers[x] == if e.Register? && e.sid == x then Negotiating(e.h) else stage
          case Negotiating(h) =>
            s'.offers[x] ==
              if !e.OfferReturned? || e.sid != x then stage
              else if x !in s.active || s.active[x] != h then Ending
              else if e.failed then Failing(e.t)
              else Flushing(h)
          case Flushing(h) => s'.offers[x] == if e == FlushStep(x) && s.objects[h].pending == [] then Ending else stage
          case Failing(t) => s'.offers[x] == if t !in s'.closers then Ending else stage
          case _ => true
  }

  lemma OffersOfBlocks(s: State, t: Task, sid: Sid, stop: bool, force: bool, origin: Origin)
    ensures BeginClose(s, t, sid, stop, force, origin).offers == s.offers
    ensures t in s.closers ==> PutBack(s, t).offers == s.offers
    ensures Discard(s, sid).offers == s.offers
  {
    hide Pop, Relocate, HeldFor;
  }

  /** The id whose offer an event belongs to. */
  ghost predicate Concerns(e: Event, x: Sid) {
    (e.OfferBegin? || e.Register? || e.OfferReturned? || e.FlushStep? || e.OfferFail? || e.OfferCancel? || e.OfferEnd?) && e.sid == x
  }

  /** An offer is left alone by blocks of others that keep the close it waits for. */
  lemma LeftAlone(s: State, e: Event, s': State, x: Sid)
    requires Enabled(s, e) && !Concerns(e, x)
    requires x in s'.offers <==> x in s.offers
    requires x in s.offers ==> s'.offers[x] == s.offers[x]
    requires x in s.offers && InnerTask(s.offers[x]).Some? ==> InnerTask(s.offers[x]).t in s'.closers
    ensures StageMoves(s, e, s', x)
  {
    hide AskOf;
  }

  lemma OfferBeginMoves(s: State, e: Event, x: Sid)
    requires Enabled(s, e) && e.OfferBegin? && (x in s.offers ==> OfferKnown(s, x))
    ensures StageMoves(s, e, Apply(s, e), x)
  {
    OffersOfBlocks(s, e.t, e.sid, true, false, OfOffer(e.sid));
    BeginCloseAsks(s, e.t, e.sid, true, false, OfOffer(e.sid));
    hide BeginClose, AskOf;
  }

  lemma ReturnedMoves(s: State, e: Event, x: Sid)
    requires Enabled(s, e) && e.OfferReturned? && (x in s.offers ==> OfferKnown(s, x))
    ensures StageMoves(s, e, Apply(s, e), x)
  {
    OffersOfBlocks(s, e.t, e.sid, e.stop, false, OfOffer(e.sid));
    BeginCloseAsks(s, e.t, e.sid, e.stop, false, OfOffer(e.sid));
    hide BeginClose, AskOf, StageMoves, MakeReady;
    if x != e.sid { LeftAlone(s, e, Apply(s, e), x); }
    else {
      ReadyOffers(s, e.sid, s.offers[e.sid].h);
      OwnReturnedMoves(s, e, Apply(s, e));
    }
  }

  lemma ReadyOffers(s: State, sid: Sid, h: Handle)
    requires h in s.objects
    ensures MakeReady(s, sid, h).offers == s.offers[sid := Flushing(h)] && MakeReady(s, sid, h).closers == s.closers
  {
  }

  lemma OwnReturnedMoves(s: State, e: Event, s': State)
    requires Enabled(s, e) && e.OfferReturned? && e.sid in s'.offers
    requires s'.offers[e.sid] ==
      if e.sid !in s.active || s.active[e.sid] != s.offers[e.sid].h then Ending
      else if e.failed then Failing(e.t) else Flushing(s.offers[e.sid].h)
    ensures StageMoves(s, e, s', e.sid)
  {
    hide AskOf;
  }

  lemma FailMoves(s: State, e: Event, x: Sid)
    requires Enabled(s, e) && e.OfferFail? && (x in s.offers ==> OfferKnown(s, x))
    ensures StageMoves(s, e, Apply(s, e), x)
  {
    OffersOfBlocks(s, e.t, e.sid, e.stop, false, OfOffer(e.sid));
    BeginCloseAsks(s, e.t, e.sid, e.stop, false, OfOffer(e.sid));
    hide BeginClose;
    if x != e.sid {
      LeftAlone(s, e, Apply(s, e), x);
      hide StageMoves, AskOf;
    }
  }

  /** The offers after the handler of a cancelled offer. */
  lemma HandlerOffers(s: State, sid: Sid, stop: bool, t: Task)
    ensures CancelHandler(s, sid, stop, t).offers ==
      s.offers[sid := if !s.closing && sid in s.active then Cleaning(t) else Ending]
  {
    OffersOfBlocks(s, t, sid, stop, false, OfOffer(sid));
    hide BeginClose, Discard;
  }

  lemma CancelMoves(s: State, e: Event, x: Sid)
    requires Inv(s) && Enabled(s, e) && e.OfferCancel?
    ensures StageMoves(s, e, Apply(s, e), x)
  {
    hide CancelHandler, PutBack, StageMoves, Inv;
    if InnerTask(s.offers[e.sid]).Some? {
      var t0 := InnerTask(s.offers[e.sid]).t;
      var m := PutBack(s, t0).(offers := s.offers - {e.sid});
      InnerCloseIsKnown(s, e.sid, t0);
      PutBackRegisters(s, t0, e.sid);
      HandlerOffers(m, e.sid, e.stop, e.t);
      HandlerAsks(m, e.sid, e.stop, e.t);
      if x == e.sid { OwnCancelMoves(s, e, Apply(s, e)); }
      else {
        if x in s.offers && InnerTask(s.offers[x]).Some? { OtherInner(s, e.sid, x); }
        LeftAlone(s, e, Apply(s, e), x);
      }
    } else {
      HandlerOffers(s, e.sid, e.stop, e.t);
      HandlerAsks(s, e.sid, e.stop, e.t);
      if x == e.sid { OwnCancelMoves(s, e, Apply(s, e)); }
      else {
        if x in s.offers && InnerTask(s.offers[x]).Some? { OtherInner(s, e.sid, x); }
        LeftAlone(s, e, Apply(s, e), x);
      }
    }
  }

  lemma OwnCancelMoves(s: State, e: Event, s': State)
    requires Enabled(s, e) && e.OfferCancel?
    requires
      var stage := s.offers[e.sid];
      if stage.ClosingOld? || stage.Cleaning? || stage.Ending? then e.sid !in s'.offers
      else
        e.sid in s'.offers &&
        s'.offers[e.sid] == if !s.closing && (e.sid in s.active || stage.Failing?) then Cleaning(e.t) else Ending
    ensures StageMoves(s, e, s', e.sid)
  {
  }

  /** Offers of different ids wait for different closes. */
  lemma OtherInner(s: State, sid: Sid, x: Sid)
    requires Inv(s) && sid in s.offers && x in s.offers && x != sid && InnerTask(s.offers[x]).Some?
    ensures InnerTask(s.offers[x]).t in s.closers && InnerTask(s.offers[x]) != InnerTask(s.offers[sid])
  {
    assert OfferKnown(s, x) && OfferKnown(s, sid);
  }

  /** A close that ends normally lets the offer that awaits it go on. */
  lemma EndedMoves(s: State, e: Event, x: Sid, m: State, t: Task)
    requires Inv(s) && Enabled(s, e) && (e == StopDone(t) || e == CheckLast(t) || (e.Decide? && e.t == t))
    requires t in m.closers && m.closers == s.closers && m.offers == s.offers
    ensures StageMoves(s, e, EndClose(m, t), x)
  {
    hide StageMoves, Inv, EndClose;
    if x in s.offers {
      InnerCloseEnds(s, m, t, x);
      if InnerTask(s.offers[x]) == Some(t) { OwnEndMoves(s, e, x, EndClose(m, t), t); }
      else {
        EndCloseOffers(m, t, x);
        LeftAlone(s, e, EndClose(m, t), x);
      }
    } else {
      NoOfferEnds(m, t, x);
      LeftAlone(s, e, EndClose(m, t), x);
    }
  }

  lemma NoOfferEnds(m: State, t: Task, x: Sid)
    requires t in m.closers && x !in m.offers
    ensures x !in EndClose(m, t).offers
  {
  }

  lemma InnerCloseEnds(s: State, m: State, t: Task, x: Sid)
    requires Inv(s) && x in s.offers && t in m.closers && m.closers == s.closers && m.offers == s.offers
    ensures t !in EndClose(m, t).closers && x in EndClose(m, t).offers
    ensures InnerTask(s.offers[x]) == Some(t) ==>
      EndClose(m, t).offers[x] == if s.offers[x].ClosingOld? then Opening else Ending
    ensures InnerTask(s.offers[x]).Some? && InnerTask(s.offers[x]) != Some(t) ==>
      InnerTask(s.offers[x]).t in EndClose(m, t).closers
  {
    assert OfferKnown(s, x);
    hide Inv;
  }

  lemma EndCloseOffers(m: State, t: Task, x: Sid)
    requires t in m.closers && x in m.offers && InnerTask(m.offers[x]) != Some(t)
    ensures EndClose(m, t).offers.Keys == m.offers.Keys && EndClose(m, t).offers[x] == m.offers[x]
  {
  }

  lemma OwnEndMoves(s: State, e: Event, x: Sid, s': State, t: Task)
    requires Enabled(s, e) && !Concerns(e, x) && x in s.offers && InnerTask(s.offers[x]) == Some(t)
    requires x in s'.offers && s'.offers[x] == (if s.offers[x].ClosingOld? then Opening else Ending) && t !in s'.closers
    ensures StageMoves(s, e, s', x)
  {
    hide AskOf;
  }

  lemma DecisionMoves(s: State, e: Event, x: Sid, m: State, t: Task, last: bool, refreshed: bool)
    requires Inv(s) && Enabled(s, e) && (e == CheckLast(t) || (e.Decide? && e.t == t))
    requires t in m.closers && m.closers[t].h in m.objects && m.closers == s.closers && m.offers == s.offers
    ensures StageMoves(s, e, MakeDecision(m, t, last, refreshed), x)
  {
    hide StageMoves, EndClose, MakeDecision;
    DecisionOutline(m, t, last, refreshed);
    var s' := MakeDecision(m, t, last, refreshed);
    var n := m.(books := m.books.(decisions := s'.books.decisions));
    if Last(s'.books.decisions).stop {
      if x in s.offers { assert OfferKnown(s, x); }
      hide Inv;
      LeftAlone(s, e, s', x);
    } else {
      EndedMoves(s, e, x, n, t);
    }
  }

  lemma CheckMoves(s: State, e: Event, x: Sid)
    requires Inv(s) && Enabled(s, e) && (e.CheckLast? || e.Decide?)
    ensures StageMoves(s, e, Apply(s, e), x)
  {
    hide StageMoves, MakeDecision, HasResource;
    var c := s.closers[e.t];
    match e
    case CheckLast(t) =>
      if s.objects[c.h].ringPreview {
        if x in s.offers { assert OfferKnown(s, x); }
        hide Inv;
        LeftAlone(s, e, Apply(s, e), x);
      } else {
        DecisionMoves(s, e, x, s, t, !HasResource(s.active, s.objects, s.objects[c.h].resource), false);
      }
    case Decide(t, ringing) => DecisionMoves(s, e, x, Refreshed(s, c.h, ringing), t, c.phase.last, true);
  }

  /** The close of another, or of no offer, is cancelled. */
  lemma CloseCancelMoves(s: State, e: Event, x: Sid)
    requires Inv(s) && Enabled(s, e) && e.CloseCancel?
    ensures StageMoves(s, e, Apply(s, e), x)
  {
    if x in s.offers { assert OfferKnown(s, x); }
    hide Inv, StageMoves;
    LeftAlone(s, e, Apply(s, e), x);
  }

  lemma OwnStepMoves(s: State, e: Event, x: Sid)
    requires Enabled(s, e) && (e.Register? || e.FlushStep? || e.OfferEnd?) && (x in s.offers ==> OfferKnown(s, x))
    ensures StageMoves(s, e, Apply(s, e), x)
  {
    hide Pop, Relocate, HeldFor, AskOf;
    if x != e.sid {
      LeftAlone(s, e, Apply(s, e), x);
      hide StageMoves;
    }
  }

  lemma BeginMoves(s: State, e: Event, x: Sid)
    requires Enabled(s, e) && (e.CloseBegin? || e.RemoveNext?) && (x in s.offers ==> OfferKnown(s, x))
    ensures StageMoves(s, e, Apply(s, e), x)
  {
    hide BeginClose, StageMoves;
    match e
    case CloseBegin(t, sid, stop, origin) =>
      OffersOfBlocks(s, t, sid, stop, false, origin);
      BeginCloseAsks(s, t, sid, stop, false, origin);
      LeftAlone(s, e, Apply(s, e), x);
    case RemoveNext(t, current) =>
      var m := s.(removal := Removing(s.removal.queue[1..]));
      OffersOfBlocks(m, t, s.removal.queue[0], current, current, OfRemoval);
      BeginCloseAsks(m, t, s.removal.queue[0], current, current, OfRemoval);
      LeftAlone(s, e, Apply(s, e), x);
  }

  lemma QuietMoves(s: State, e: Event, x: Sid)
    requires Enabled(s, e) && (x in s.offers ==> OfferKnown(s, x))
    requires e.ProviderClosed? || e.Candidate? || e.HomeCallEnded? || e.RemoveBegin? || e.RemoveDrained? || e.RemoveFinish?
    ensures StageMoves(s, e, Apply(s, e), x)
  {
    if e.Candidate? { CandidateKeepsRegistry(s, e.sid); }
    hide StageMoves, DoCandidate, BeginClose, MakeDecision, DoRemoveNext, DoOfferReturned, DoOfferCancel, HandleFailure,
      BeginOffer, MarkInactive;
    LeftAlone(s, e, Apply(s, e), x);
  }

  /** Every block moves every offer along its life and no other way. */
  lemma OffersFollowTheirLife(s: State, e: Event, x: Sid)
    requires Inv(s) && Enabled(s, e)
    ensures StageMoves(s, e, Apply(s, e), x)
  {
    if x in s.offers { assert OfferKnown(s, x); }
    hide StageMoves, Apply, Inv;
    match e
    case OfferBegin(_, _) => OfferBeginMoves(s, e, x);
    case OfferReturned(_, _, _, _) => ReturnedMoves(s, e, x);
    case OfferFail(_, _, _) => FailMoves(s, e, x);
    case OfferCancel(_, _, _) => CancelMoves(s, e, x);
    case Register(_, _, _, _, _, _) => OwnStepMoves(s, e, x);
    case FlushStep(_) => OwnStepMoves(s, e, x);
    case OfferEnd(_) => OwnStepMoves(s, e, x);
    case CloseBegin(_, _, _, _) => BeginMoves(s, e, x);
    case RemoveNext(_, _) => BeginMoves(s, e, x);
    case CheckLast(_) => CheckMoves(s, e, x);
    case Decide(_, _) => CheckMoves(s, e, x);
    case StopDone(t) => StopDoneMoves(s, t, x);
    case CloseCancel(_) => CloseCancelMoves(s, e, x);
    case _ => QuietMoves(s, e, x);
  }

  lemma StopDoneMoves(s: State, t: Task, x: Sid)
    requires Inv(s) && Enabled(s, StopDone(t))
    ensures StageMoves(s, StopDone(t), Apply(s, StopDone(t)), x)
  {
    hide StageMoves, EndClose, Inv;
    EndedMoves(s, StopDone(t), x, s, t);
  }

  // ---------------------------------------------------------------- registered sessions

  /** A block cancels the close t. */
  ghost predicate Cancels(s: State, e: Event, t: Task)
    requires Enabled(s, e)
  {
    e == CloseCancel(t) || (e.OfferCancel? && InnerTask(s.offers[e.sid]) == Some(t))
  }

  /** The block begins the close of the id's session. */
  ghost predicate Takes(s: State, e: Event, x: Sid)
    requires Enabled(s, e)
  {
    exists t :: t in AskOf(s, e) && AskOf(s, e)[t].sid == x
  }

  /** Which session an id has after a block: none once its close begins; the one that registers; the one of a cancelled
      close, if the id is free; otherwise the same as before. */
  ghost predicate ActiveMoves(s: State, e: Event, s': State, x: Sid)
    requires Enabled(s, e)
  {
    if Takes(s, e, x) then x !in s'.active
    else if e.Register? && e.sid == x then x in s'.active && s'.active[x] == e.h
    else if x in s.active then x in s'.active && s'.active[x] == s.active[x]
    else
      (x in s'.active <==> exists t :: t in s.closers && Cancels(s, e, t) && s.closers[t].sid == x) &&
      forall t :: t in s.closers && Cancels(s, e, t) && s.closers[t].sid == x ==> s'.active[x] == s.closers[t].h
  }

  /** The registry after a cancelled close has put its session back. */
  function Back(s: State, c: Close): map<Sid, Handle> { if c.sid in s.active then s.active else s.active[c.sid := c.h] }

  lemma BlocksActive(s: State, t: Task, sid: Sid, stop: bool, force: bool, origin: Origin)
    ensures BeginClose(s, t, sid, stop, force, origin).active == if sid in s.active then s.active - {sid} else s.active
    ensures t in s.closers ==> EndClose(s, t).active == s.active
    ensures t in s.closers ==> PutBack(s, t).active == Back(s, s.closers[t])
  {
    hide Pop, Relocate, HeldFor;
  }

  lemma HandlerActive(s: State, sid: Sid, stop: bool, t: Task)
    ensures CancelHandler(s, sid, stop, t).active ==
      if s.closing || sid !in s.active then s.active else s.active - {sid}
  {
    BlocksActive(s, t, sid, stop, false, OfOffer(sid));
    hide BeginClose, Pop, Relocate;
  }

  /** Blocks that cancel no close and register nothing: the id whose close they begin is free. */
  lemma TakenMoves(s: State, e: Event, s': State, sid: Sid, x: Sid)
    requires Enabled(s, e) && !e.Register? && !e.CloseCancel? && (e.OfferCancel? ==> InnerTask(s.offers[e.sid]).None?)
    requires if Takes(s, e, sid) then s'.active == s.active - {sid} else s'.active == s.active
    requires forall y :: Takes(s, e, y) ==> y == sid
    ensures ActiveMoves(s, e, s', x)
  {
    hide AskOf, Takes;
  }

  /** The id of the session whose close an event may begin. */
  function IdOf(s: State, e: Event): Sid
    requires Enabled(s, e)
  {
    match e
    case OfferBegin(sid, _) => sid
    case OfferReturned(sid, _, _, _) => sid
    case OfferFail(sid, _, _) => sid
    case OfferCancel(sid, _, _) => sid
    case CloseBegin(_, sid, _, _) => sid
    case RemoveNext(_, _) => s.removal.queue[0]
    case _ => ""
  }

  lemma AsksForItsId(s: State, e: Event)
    requires Enabled(s, e)
    ensures forall t :: t in AskOf(s, e) ==> AskOf(s, e)[t].sid == IdOf(s, e)
    ensures forall y :: Takes(s, e, y) ==> y == IdOf(s, e)
    ensures Takes(s, e, IdOf(s, e)) <==> TaskOf(e) in AskOf(s, e)
  {
  }

  /** The task of the close an event may begin. */
  function TaskOf(e: Event): Task {
    if e.OfferBegin? || e.OfferReturned? || e.OfferFail? || e.OfferCancel? || e.CloseBegin? || e.RemoveNext? then e.t else 0
  }

  lemma BeginTakes(s: State, e: Event)
    requires Enabled(s, e)
    requires e.OfferBegin? || e.OfferReturned? || e.OfferFail? || e.CloseBegin? || e.RemoveNext?
    ensures Apply(s, e).active == if TaskOf(e) in AskOf(s, e) then s.active - {IdOf(s, e)} else s.active
  {
    hide BeginClose;
    match e
    case OfferBegin(sid, t) => BlocksActive(s, t, sid, true, false, OfOffer(sid));
    case OfferReturned(sid, _, stop, t) => BlocksActive(s, t, sid, stop, false, OfOffer(sid));
    case OfferFail(sid, stop, t) => BlocksActive(s, t, sid, stop, false, OfOffer(sid));
    case CloseBegin(t, sid, stop, origin) => BlocksActive(s, t, sid, stop, false, origin);
    case RemoveNext(t, current) =>
      BlocksActive(s.(removal := Removing(s.removal.queue[1..])), t, s.removal.queue[0], current, current, OfRemoval);
  }

  lemma BeginActive(s: State, e: Event, x: Sid)
    requires Enabled(s, e)
    requires e.OfferBegin? || e.OfferReturned? || e.OfferFail? || e.CloseBegin? || e.RemoveNext?
    ensures ActiveMoves(s, e, Apply(s, e), x)
  {
    hide ActiveMoves, Takes, Apply, AskOf;
    AsksForItsId(s, e);
    BeginTakes(s, e);
    TakenMoves(s, e, Apply(s, e), IdOf(s, e), x);
  }

  lemma CancelActive(s: State, e: Event, x: Sid)
    requires Inv(s) && Enabled(s, e) && e.OfferCancel?
    ensures ActiveMoves(s, e, Apply(s, e), x)
  {
    hide CancelHandler, PutBack, Inv, Takes, ActiveMoves;
    AsksForItsId(s, e);
    if InnerTask(s.offers[e.sid]).Some? {
      var t0 := InnerTask(s.offers[e.sid]).t;
      InnerCloseIsKnown(s, e.sid, t0);
      PutBackRegisters(s, t0, e.sid);
      BlocksActive(s, t0, e.sid, e.stop, false, OfOffer(e.sid));
      HandlerActive(PutBack(s, t0).(offers := s.offers - {e.sid}), e.sid, e.stop, e.t);
      InnerCancelActive(s, e, Apply(s, e), t0, x);
    } else {
      HandlerActive(s, e.sid, e.stop, e.t);
      TakenMoves(s, e, Apply(s, e), e.sid, x);
    }
  }

  lemma InnerCancelActive(s: State, e: Event, s': State, t0: Task, x: Sid)
    requires Enabled(s, e) && e.OfferCancel? && InnerTask(s.offers[e.sid]) == Some(t0)
    requires t0 in s.closers && s.closers[t0].sid == e.sid
    requires
      var back := Back(s, s.closers[t0]);
      s'.active == if s.offers[e.sid].Failing? && !s.closing then back - {e.sid} else back
    ensures ActiveMoves(s, e, s', x)
  {
    AsksForItsId(s, e);
    assert Cancels(s, e, t0);
    if s.offers[e.sid].Failing? && !s.closing { assert e.t in AskOf(s, e); }
    hide AskOf, Takes;
  }

  lemma CloseCancelActive(s: State, e: Event, x: Sid)
    requires Enabled(s, e) && e.CloseCancel?
    ensures ActiveMoves(s, e, Apply(s, e), x)
  {
    BlocksActive(s, e.t, "", true, false, Tracked);
    AsksForItsId(s, e);
    assert Cancels(s, e, e.t);
    hide PutBack, AskOf, Takes;
  }

  lemma QuietActive(s: State, e: Event, x: Sid)
    requires Enabled(s, e) && !e.OfferBegin? && !e.OfferReturned? && !e.OfferFail? && !e.CloseBegin? && !e.RemoveNext?
    requires !e.OfferCancel? && !e.CloseCancel? && !e.Register?
    ensures ActiveMoves(s, e, Apply(s, e), x)
  {
    hide ActiveMoves, Takes;
    AsksForItsId(s, e);
    if e.Candidate? { CandidateKeepsRegistry(s, e.sid); hide DoCandidate; }
    else if e.CheckLast? || e.Decide? { CheckActive(s, e); hide Apply; }
    else { PlainActive(s, e); hide Apply; }
    TakenMoves(s, e, Apply(s, e), "", x);
  }

  lemma CheckActive(s: State, e: Event)
    requires Enabled(s, e) && (e.CheckLast? || e.Decide?)
    ensures Apply(s, e).active == s.active
  {
    hide MakeDecision, HasResource;
    var c := s.closers[e.t];
    match e
    case CheckLast(t) => DecisionKeepsSessions(s, t, !HasResource(s.active, s.objects, s.objects[c.h].resource), false);
    case Decide(t, ringing) => DecisionKeepsSessions(Refreshed(s, c.h, ringing), t, c.phase.last, true);
  }

  lemma PlainActive(s: State, e: Event)
    requires Enabled(s, e)
    requires
      e.FlushStep? || e.OfferEnd? || e.ProviderClosed? || e.StopDone? || e.HomeCallEnded? || e.RemoveBegin? ||
      e.RemoveDrained? || e.RemoveFinish?
    ensures Apply(s, e).active == s.active
  {
    hide BeginClose, MakeDecision, DoCandidate, DoRemoveNext, DoOfferReturned, DoOfferCancel, HandleFailure, BeginOffer,
      MarkInactive, DoCheckLast, DoDecide;
  }

  lemma RegisterActive(s: State, e: Event, x: Sid)
    requires Enabled(s, e) && e.Register?
    ensures ActiveMoves(s, e, Apply(s, e), x)
  {
    AsksForItsId(s, e);
    hide Pop, Relocate, HeldFor, Takes;
  }

  /** Every block gives the ids the sessions they should have. */
  lemma IdsKeepTheirSessions(s: State, e: Event, x: Sid)
    requires Inv(s) && Enabled(s, e)
    ensures ActiveMoves(s, e, Apply(s, e), x)
  {
    hide ActiveMoves, Apply, Inv;
    match e
    case OfferCancel(_, _, _) => CancelActive(s, e, x);
    case CloseCancel(_) => CloseCancelActive(s, e, x);
    case Register(_, _, _, _, _, _) => RegisterActive(s, e, x);
    case _ =>
      if e.OfferBegin? || e.OfferReturned? || e.OfferFail? || e.CloseBegin? || e.RemoveNext? { BeginActive(s, e, x); }
      else { QuietActive(s, e, x); }
  }

  // ---------------------------------------------------------------- nothing gets stuck

  /** A block that moves the close on. */
  function NextOfClose(t: Task, phase: Phase, ringing: Ringing): Event {
    match phase
    case TearDown => ProviderClosed(t)
    case TornDown => CheckLast(t)
    case Refreshing(_) => Decide(t, ringing)
    case Stopping => StopDone(t)
  }

  lemma CloseGoesOn(s: State, t: Task, ringing: Ringing)
    requires Inv(s) && t in s.closers
    ensures Enabled(s, NextOfClose(t, s.closers[t].phase, ringing))
    ensures !s.closers[t].origin.OfOffer? ==> Enabled(s, CloseCancel(t))
  {
    assert CloserKnown(s, t);
    hide Inv;
  }

  function Steps(phase: Phase): nat {
    match phase
    case TearDown => 4
    case TornDown => 3
    case Refreshing(_) => 2
    case Stopping => 1
  }

  lemma StepsGetFewer(s: State, t: Task, ringing: Ringing)
    requires Inv(s) && t in s.closers
    ensures
      var e := NextOfClose(t, s.closers[t].phase, ringing);
      Enabled(s, e) && (t in Apply(s, e).closers ==> Steps(Apply(s, e).closers[t].phase) < Steps(s.closers[t].phase))
  {
    hide Inv, Apply, AskOf, AsAsked;
    CloseGoesOn(s, t, ringing);
    var e := NextOfClose(t, s.closers[t].phase, ringing);
    ClosesAsAsked(s, e);
    if e.StopDone? { StopIsDone(s, e); }
    else if t in Apply(s, e).closers { PhaseGoesOn(s, e, Apply(s, e), t, ringing); }
  }

  lemma PhaseGoesOn(s: State, e: Event, s': State, t: Task, ringing: Ringing)
    requires t in s.closers && e == NextOfClose(t, s.closers[t].phase, ringing) && !e.StopDone? && Enabled(s, e)
    requires AsAsked(s, e, s') && t in s'.closers
    ensures Steps(s'.closers[t].phase) < Steps(s.closers[t].phase)
  {
    hide HasResource;
  }

  lemma StopIsDone(s: State, e: Event)
    requires Enabled(s, e) && e.StopDone?
    ensures e.t !in Apply(s, e).closers
  {
    StopEnds(s, e.t);
    hide EndClose;
  }

  lemma StopEnds(s: State, t: Task)
    requires t in s.closers
    ensures t !in EndClose(s, t).closers
  {
  }

  /** Whatever has happened, and whatever a status refresh says, a close in progress can end by its own blocks alone,
      at most four of them. */
  lemma {:induction false} NoCloseGetsStuck(s: State, t: Task, ringing: Ringing) returns (es: seq<Event>)
    requires Inv(s) && t in s.closers
    ensures |es| <= 4 && Possible(s, es) && t !in Run(s, es).closers
    ensures forall e :: e in es ==> e in {ProviderClosed(t), CheckLast(t), Decide(t, ringing), StopDone(t)}
    ensures |es| <= Steps(s.closers[t].phase)
    decreases Steps(s.closers[t].phase)
  {
    hide Inv, Apply;
    StepsGetFewer(s, t, ringing);
    var e := NextOfClose(t, s.closers[t].phase, ringing);
    var s' := Apply(s, e);
    StepKeepsInv(s, e);
    es := [];
    assert Possible(s', []) && Run(s', []) == s';
    if t in s'.closers { es := NoCloseGetsStuck(s', t, ringing); }
    assert ([e] + es)[1..] == es;
    es := [e] + es;
  }

  /** An offer can go on in every stage, however the provider answers, and can be cancelled; and a new offer, close or
      candidate can always come. */
  lemma NoOfferGetsStuck(s: State, x: Sid, t: Task, h: Handle, resource: string, flag: bool, stop: bool)
    requires Inv(s) && x in s.offers && t !in s.closers && h !in s.objects
    ensures Enabled(s, OfferCancel(x, stop, t)) && Enabled(s, OfferBegin(x, t)) && Enabled(s, Candidate(x))
    ensures Enabled(s, CloseBegin(t, x, stop, Untracked)) && (s.removal.Present? ==> Enabled(s, CloseBegin(t, x, stop, Tracked)))
    ensures
      match s.offers[x]
      case Opening => Enabled(s, Register(x, h, resource, flag, flag, flag)) && Enabled(s, OfferFail(x, stop, t))
      case Negotiating(_) => Enabled(s, OfferReturned(x, flag, stop, t)) && Enabled(s, OfferFail(x, stop, t))
      case Flushing(_) => Enabled(s, FlushStep(x)) && Enabled(s, OfferFail(x, stop, t))
      case Ending => Enabled(s, OfferEnd(x))
      case _ => InnerTask(s.offers[x]).Some? && InnerTask(s.offers[x]).t in s.closers
  {
    assert OfferKnown(s, x);
    hide Inv;
  }

  /** Removal can go on while it has sessions to close and none of its own closes is running, and then end. */
  lemma NoRemovalGetsStuck(s: State, t: Task, current: bool)
    requires Inv(s) && t !in s.closers
    ensures s.removal.Present? ==> Enabled(s, RemoveBegin)
    ensures s.removal.Present? && s.closing && s.offers == map[] && (forall u :: u in s.closers ==> s.closers[u].origin.Untracked?) ==>
      Enabled(s, RemoveDrained)
    ensures s.removal.Removing? && (forall u :: u in s.closers ==> !s.closers[u].origin.OfRemoval?) ==>
      Enabled(s, if s.removal.queue == [] then RemoveFinish else RemoveNext(t, current))
  {
  }

  // ---------------------------------------------------------------- readiness and removal

  /** A session is ready once the provider has taken the offer that registered it, and until its home call ends. */
  ghost predicate ReadyMoves(s: State, e: Event, s': State, h: Handle)
    requires Enabled(s, e) && h in s.objects
  {
    h in s'.objects &&
    s'.objects[h].ready ==
      if e.OfferReturned? && !e.failed && s.offers[e.sid] == Negotiating(h) && e.sid in s.active && s.active[e.sid] == h then true
      else if e.HomeCallEnded? && h in s.active.Values && s.objects[h].homeCall then false
      else s.objects[h].ready
  }

  lemma HandlersKeepReady(s: State, e: Event, h: Handle)
    requires Enabled(s, e) && h in s.objects
    requires
      e.OfferBegin? || e.OfferFail? || e.OfferCancel? || e.CloseBegin? || e.RemoveNext? || e.CloseCancel? || e.StopDone?
    ensures Apply(s, e).objects == s.objects
  {
    hide BeginClose, PutBack, EndClose, CancelHandler, DoOfferCancel;
    match e
    case OfferBegin(sid, t) => BeginCloseKeepsSorts(s, t, sid, true, false, OfOffer(sid));
    case OfferFail(sid, stop, t) => BeginCloseKeepsSorts(s, t, sid, stop, false, OfOffer(sid));
    case OfferCancel(sid, stop, t) => CancelKeepsSorts(s, sid, stop, t);
    case CloseBegin(t, sid, stop, origin) => BeginCloseKeepsSorts(s, t, sid, stop, false, origin);
    case RemoveNext(t, current) =>
      BeginCloseKeepsSorts(s.(removal := Removing(s.removal.queue[1..])), t, s.removal.queue[0], current, current, OfRemoval);
    case CloseCancel(t) => BeginCloseKeepsSorts(s, t, "", true, false, Tracked);
    case StopDone(t) => BeginCloseKeepsSorts(s, t, "", true, false, Tracked);
  }

  lemma ReturnedReady(s: State, e: Event, h: Handle)
    requires Enabled(s, e) && e.OfferReturned? && h in s.objects
    ensures ReadyMoves(s, e, Apply(s, e), h)
  {
    hide BeginClose;
    BeginCloseKeepsSorts(s, e.t, e.sid, e.stop, false, OfOffer(e.sid));
  }

  lemma CheckReady(s: State, e: Event, h: Handle)
    requires Enabled(s, e) && (e.CheckLast? || e.Decide?) && h in s.objects
    ensures ReadyMoves(s, e, Apply(s, e), h)
  {
    hide DoCheckLast, DoDecide;
    if e.CheckLast? { CheckKeepsSorts(s, e.t); } else { DecideKeepsSorts(s, e.t, e.ringing); }
  }

  lemma StoresKeepReady(s: State, sid: Sid, h: Handle)
    requires h in s.objects
    ensures h in DoCandidate(s, sid).objects && DoCandidate(s, sid).objects[h].ready == s.objects[h].ready
  {
    hide Arrive, Evict, StoreBeforeSession;
    var c, m := s.ice.arrived, Arrive(s);
    StoresKeepSorts(s, sid, c);
    StoresKeepSorts(m, sid, c);
    StoresKeepSorts(Evict(m), sid, c);
  }

  lemma PlainReady(s: State, e: Event, h: Handle)
    requires Enabled(s, e) && h in s.objects
    requires
      e.Register? ==> e.h != h
    requires
      e.Register? || e.FlushStep? || e.OfferEnd? || e.ProviderClosed? || e.HomeCallEnded? || e.RemoveBegin? ||
      e.RemoveDrained? || e.RemoveFinish?
    ensures ReadyMoves(s, e, Apply(s, e), h)
  {
    hide BeginClose, MakeDecision, DoCandidate, DoRemoveNext, DoOfferReturned, DoOfferCancel, HandleFailure, BeginOffer,
      DoCheckLast, DoDecide, Pop, Relocate, HeldFor;
  }

  /** A session is ready exactly from the provider's answer to its offer to the end of its home call. */
  lemma SessionsAreReadyWhenAnswered(s: State, e: Event, h: Handle)
    requires Enabled(s, e) && h in s.objects
    ensures ReadyMoves(s, e, Apply(s, e), h)
  {
    hide Apply;
    if e.OfferReturned? { ReturnedReady(s, e, h); }
    else if e.CheckLast? || e.Decide? { CheckReady(s, e, h); }
    else if e.Candidate? { StoresKeepReady(s, e.sid, h); CandidateIsDone(s, e); }
    else if e.Register? || e.FlushStep? || e.OfferEnd? || e.ProviderClosed? || e.HomeCallEnded? || e.RemoveBegin? ||
      e.RemoveDrained? || e.RemoveFinish? { PlainReady(s, e, h); }
    else { HandlersKeepReady(s, e, h); }
  }

  lemma CandidateIsDone(s: State, e: Event)
    requires Enabled(s, e) && e.Candidate?
    ensures Apply(s, e) == DoCandidate(s, e.sid)
  {
    hide DoCandidate;
  }

  /** Removal first makes the camera close, then drains it, then closes the sessions it found one after the other; it is
      aborted when one of these closes is cancelled. */
  ghost predicate RemovalMoves(s: State, e: Event, s': State)
    requires Enabled(s, e)
  {
    s'.closing == (s.closing || e.RemoveBegin?) &&
    if e.RemoveDrained? then s'.removal.Removing? && forall x :: x in s'.removal.queue <==> x in s.active
    else if e.RemoveNext? then s'.removal == Removing(s.removal.queue[1..])
    else if e.RemoveFinish? then s'.removal.Removed?
    else if e.CloseCancel? && s.closers[e.t].origin.OfRemoval? then s'.removal.Aborted?
    else s'.removal == s.removal
  }

  lemma BlocksRemoval(s: State, t: Task, sid: Sid, stop: bool, force: bool, origin: Origin)
    ensures var m := BeginClose(s, t, sid, stop, force, origin); m.closing == s.closing && m.removal == s.removal
    ensures t in s.closers ==> var m := EndClose(s, t); m.closing == s.closing && m.removal == s.removal
    ensures t in s.closers ==>
      var m := PutBack(s, t);
      m.closing == s.closing && m.removal == if s.closers[t].origin.OfRemoval? then Aborted else s.removal
  {
    hide Pop, Relocate, HeldFor;
  }

  lemma HandlerRemoval(s: State, sid: Sid, stop: bool, t: Task)
    ensures var m := CancelHandler(s, sid, stop, t); m.closing == s.closing && m.removal == s.removal
  {
    BlocksRemoval(s, t, sid, stop, false, OfOffer(sid));
    hide BeginClose, Pop, Relocate;
  }

  lemma CancelRemoval(s: State, e: Event)
    requires Inv(s) && Enabled(s, e) && e.OfferCancel?
    ensures RemovalMoves(s, e, Apply(s, e))
  {
    hide PutBack, CancelHandler, Inv;
    HandlerRemoval(s, e.sid, e.stop, e.t);
    if InnerTask(s.offers[e.sid]).Some? {
      var t0 := InnerTask(s.offers[e.sid]).t;
      InnerIsOfOffer(s, e.sid, t0);
      BlocksRemoval(s, t0, e.sid, e.stop, false, OfOffer(e.sid));
      HandlerRemoval(PutBack(s, t0).(offers := s.offers - {e.sid}), e.sid, e.stop, e.t);
    }
  }

  lemma InnerIsOfOffer(s: State, sid: Sid, t0: Task)
    requires Inv(s) && sid in s.offers && InnerTask(s.offers[sid]) == Some(t0)
    ensures t0 in s.closers && s.closers[t0].origin == OfOffer(sid)
  {
    assert OfferKnown(s, sid);
  }

  lemma BeginRemoval(s: State, e: Event)
    requires Enabled(s, e)
    requires
      e.OfferBegin? || e.OfferReturned? || e.OfferFail? || e.CloseBegin? || e.RemoveNext? || e.CloseCancel? || e.StopDone?
    ensures RemovalMoves(s, e, Apply(s, e))
  {
    hide BeginClose, PutBack, EndClose;
    match e
    case OfferBegin(sid, t) => BlocksRemoval(s, t, sid, true, false, OfOffer(sid));
    case OfferReturned(sid, _, stop, t) => BlocksRemoval(s, t, sid, stop, false, OfOffer(sid));
    case OfferFail(sid, stop, t) => BlocksRemoval(s, t, sid, stop, false, OfOffer(sid));
    case CloseBegin(t, sid, stop, origin) => BlocksRemoval(s, t, sid, stop, false, origin);
    case RemoveNext(t, current) =>
      BlocksRemoval(s.(removal := Removing(s.removal.queue[1..])), t, s.removal.queue[0], current, current, OfRemoval);
    case CloseCancel(t) => BlocksRemoval(s, t, "", true, false, Tracked);
    case StopDone(t) => BlocksRemoval(s, t, "", true, false, Tracked);
  }

  lemma CheckRemoval(s: State, e: Event)
    requires Enabled(s, e) && (e.CheckLast? || e.Decide?)
    ensures RemovalMoves(s, e, Apply(s, e))
  {
    hide MakeDecision, HasResource;
    var c := s.closers[e.t];
    match e
    case CheckLast(t) => DecisionRemoval(s, t, !HasResource(s.active, s.objects, s.objects[c.h].resource), false);
    case Decide(t, ringing) => DecisionRemoval(Refreshed(s, c.h, ringing), t, c.phase.last, true);
  }

  lemma DecisionRemoval(s: State, t: Task, last: bool, refreshed: bool)
    requires t in s.closers && s.closers[t].h in s.objects
    ensures var m := MakeDecision(s, t, last, refreshed); m.closing == s.closing && m.removal == s.removal
  {
    DecisionOutline(s, t, last, refreshed);
    hide MakeDecision;
  }

  lemma CandidateRemoval(s: State, sid: Sid)
    ensures DoCandidate(s, sid).closing == s.closing && DoCandidate(s, sid).removal == s.removal
  {
    hide Pop, Relocate;
  }

  lemma PlainRemoval(s: State, e: Event)
    requires Enabled(s, e)
    requires
      e.Register? || e.FlushStep? || e.OfferEnd? || e.ProviderClosed? || e.HomeCallEnded? || e.RemoveBegin? ||
      e.RemoveDrained? || e.RemoveFinish?
    ensures RemovalMoves(s, e, Apply(s, e))
  {
    hide BeginClose, MakeDecision, DoCandidate, DoRemoveNext, DoOfferReturned, DoOfferCancel, HandleFailure, BeginOffer,
      DoCheckLast, DoDecide, Pop, Relocate, HeldFor, MarkInactive;
  }

  /** Every block moves removal along and no other way. */
  lemma RemovalFollowsItsSteps(s: State, e: Event)
    requires Inv(s) && Enabled(s, e)
    ensures RemovalMoves(s, e, Apply(s, e))
  {
    hide RemovalMoves, Apply, Inv;
    if e.OfferCancel? { CancelRemoval(s, e); }
    else if e.CheckLast? || e.Decide? { CheckRemoval(s, e); }
    else if e.Candidate? { CandidateRemoves(s, e); }
    else if e.Register? || e.FlushStep? || e.OfferEnd? || e.ProviderClosed? || e.HomeCallEnded? || e.RemoveBegin? ||
      e.RemoveDrained? || e.RemoveFinish? { PlainRemoval(s, e); }
    else { BeginRemoval(s, e); }
  }

  lemma CandidateRemoves(s: State, e: Event)
    requires Enabled(s, e) && e.Candidate?
    ensures RemovalMoves(s, e, Apply(s, e))
  {
    CandidateRemoval(s, e.sid);
    hide DoCandidate;
  }
}

/** What every block of the camera keeps: where a session can be, and how often it is torn down. */
module CameraInvariants {
  import opened CameraState

  ghost predicate OnActive(s: State, h: Handle)
    requires h in s.objects
  {
    s.objects[h].sid in s.active && s.active[s.objects[h].sid] == h
  }

  ghost predicate ActiveKnown(s: State, sid: Sid)
    requires sid in s.active
  {
    var h := s.active[sid];
    h in s.objects && s.objects[h].sid == sid && h in s.books.places && s.books.places[h] == Registered
  }

  ghost predicate CloserKnown(s: State, t: Task)
    requires t in s.closers
  {
    var c := s.closers[t];
    c.h in s.objects && s.objects[c.h].sid == c.sid && c.h in s.books.places && s.books.places[c.h] == Held(t) &&
    (!c.phase.TearDown? ==> c.h in s.books.closed)
  }

  ghost predicate OfferKnown(s: State, sid: Sid)
    requires sid in s.offers
  {
    match s.offers[sid]
    case Negotiating(h) => h in s.objects && s.objects[h].sid == sid
    case Flushing(h) => h in s.objects && s.objects[h].sid == sid
    case ClosingOld(t) => t in s.closers && s.closers[t].origin == OfOffer(sid) && s.closers[t].sid == sid
    case Failing(t) => t in s.closers && s.closers[t].origin == OfOffer(sid) && s.closers[t].sid == sid
    case Cleaning(t) => t in s.closers && s.closers[t].origin == OfOffer(sid) && s.closers[t].sid == sid
    case _ => true
  }

  function One(b: bool): nat { if b then 1 else 0 }

  /** The ledger of places tells the truth, and the tear-downs of a session balance: one per registration
      and one per put-back, less the one still to come if it is registered or was overwritten. */
  ghost predicate SessionKnown(s: State, h: Handle)
    requires h in s.objects
  {
    h in s.books.places &&
    (match s.books.places[h]
     case Registered => OnActive(s, h)
     case Held(t) => t in s.closers && s.closers[t].h == h
     case Finished => h in s.books.closed
     case _ => true) &&
    Count(s.books.pops, h) + One(s.books.places[h].Registered?) + One(s.books.places[h].Overwritten?)
      == 1 + Count(s.books.putBacks, h)
  }

  ghost predicate Fresh(s: State, h: Handle) {
    h !in s.objects ==> h !in s.books.places && h !in s.books.pops && h !in s.books.putBacks
  }

  ghost predicate Inv(s: State) {
    (forall sid :: sid in s.active ==> ActiveKnown(s, sid)) &&
    (forall t :: t in s.closers ==> CloserKnown(s, t)) &&
    (forall sid :: sid in s.offers ==> OfferKnown(s, sid)) &&
    (forall h :: h in s.objects ==> SessionKnown(s, h)) &&
    (forall h :: Fresh(s, h))
  }

  // ---------------------------------------------------------------- one block

  /** Two states with the same session bookkeeping: only buffers and candidate history may differ. */
  ghost predicate SameRegistry(s: State, s': State) {
    s'.active == s.active && s'.closers == s.closers && s'.offers == s.offers && s'.books == s.books &&
    s'.objects.Keys == s.objects.Keys &&
    (forall h :: h in s.objects ==> s'.objects[h].sid == s.objects[h].sid && s'.objects[h].resource == s.objects[h].resource)
  }

  lemma SameRegistryKeepsInv(s: State, s': State)
    requires Inv(s) && SameRegistry(s, s')
    ensures Inv(s')
  {
    forall sid | sid in s'.active ensures ActiveKnown(s', sid) { assert ActiveKnown(s, sid); }
    forall t | t in s'.closers ensures CloserKnown(s', t) { assert CloserKnown(s, t); }
    forall sid | sid in s'.offers ensures OfferKnown(s', sid) { assert OfferKnown(s, sid); }
    forall h | h in s'.objects ensures SessionKnown(s', h) { assert SessionKnown(s, h); }
    forall h ensures Fresh(s', h) { assert Fresh(s, h); }
  }

  lemma DiscardKeepsRegistry(s: State, sid: Sid)
    ensures SameRegistry(s, Discard(s, sid))
  {
  }

  lemma EvictKeepsRegistry(s: State)
    ensures SameRegistry(s, Evict(s))
  {
  }

  lemma StoreBeforeSessionKeepsRegistry(s: State, sid: Sid, c: Stamp)
    ensures SameRegistry(s, StoreBeforeSession(s, sid, c))
  {
  }

  /** One session's flags or buffer change, and the candidate history. */
  lemma TouchKeepsRegistry(s: State, h: Handle, o: Session, ice: IceHistory)
    requires h in s.objects && o.sid == s.objects[h].sid && o.resource == s.objects[h].resource
    ensures SameRegistry(s, s.(objects := s.objects[h := o], ice := ice)) && SameRegistry(s, s.(ice := ice))
  {
  }

  lemma StoreInSessionKeepsRegistry(s: State, h: Handle, c: Stamp)
    requires h in s.objects
    ensures SameRegistry(s, StoreInSession(s, h, c))
  {
    hide SameRegistry, Buffered;
    var s' := StoreInSession(s, h, c);
    TouchKeepsRegistry(s, h, s'.objects[h], s'.ice);
    TouchKeepsRegistry(s, h, s.objects[h], s.ice);
    assert s.(ice := s.ice) == s;
  }

  lemma CandidateKeepsRegistry(s: State, sid: Sid)
    ensures SameRegistry(s, DoCandidate(s, sid))
  {
    var m := Arrive(s);
    EvictKeepsRegistry(m);
    if sid in s.active && s.active[sid] in s.objects { StoreInSessionKeepsRegistry(m, s.active[sid], s.ice.arrived); }
    StoreBeforeSessionKeepsRegistry(m, sid, s.ice.arrived);
    StoreBeforeSessionKeepsRegistry(Evict(m), sid, s.ice.arrived);
    hide Evict, StoreInSession, StoreBeforeSession;
  }

  // Beginning a close. s' may differ from BeginClose in `offers` and `removal`.

  ghost predicate Begun(s: State, t: Task, sid: Sid, stop: bool, force: bool, origin: Origin, s': State) {
    t !in s.closers && s' == BeginClose(s, t, sid, stop, force, origin).(offers := s'.offers, removal := s'.removal)
  }

  lemma BegunActive(s: State, t: Task, sid: Sid, stop: bool, force: bool, origin: Origin, s': State, x: Sid)
    requires Begun(s, t, sid, stop, force, origin, s') && x in s'.active && x in s.active && ActiveKnown(s, x)
    requires sid in s.active ==> ActiveKnown(s, sid)
    ensures ActiveKnown(s', x)
  {
  }

  lemma BegunCloser(s: State, t: Task, sid: Sid, stop: bool, force: bool, origin: Origin, s': State, x: Task)
    requires Begun(s, t, sid, stop, force, origin, s') && x in s'.closers
    requires x in s.closers ==> CloserKnown(s, x)
    requires sid in s.active ==> ActiveKnown(s, sid)
    ensures CloserKnown(s', x)
  {
  }

  lemma BegunSession(s: State, t: Task, sid: Sid, stop: bool, force: bool, origin: Origin, s': State, h: Handle)
    requires Begun(s, t, sid, stop, force, origin, s') && h in s.objects && SessionKnown(s, h)
    requires sid in s.active ==> ActiveKnown(s, sid)
    ensures SessionKnown(s', h)
  {
  }

  /** The offer whose stage changes either awaits the new close or awaits nothing. */
  lemma BegunOffer(s: State, t: Task, sid: Sid, stop: bool, force: bool, origin: Origin, s': State, x: Sid)
    requires Begun(s, t, sid, stop, force, origin, s') && x in s'.offers
    requires x in s.offers && s'.offers[x] == s.offers[x] ==> OfferKnown(s, x)
    requires
      (x in s.offers && s'.offers[x] == s.offers[x]) || s'.offers[x].Ending? || s'.offers[x].Opening? ||
      (x == sid && origin == OfOffer(sid) && sid in s.active && InnerTask(s'.offers[x]) == Some(t))
    ensures OfferKnown(s', x)
  {
  }

  lemma BeginCloseKeepsInv(s: State, t: Task, sid: Sid, stop: bool, force: bool, origin: Origin, s': State)
    requires Inv(s) && Begun(s, t, sid, stop, force, origin, s')
    requires forall x :: x in s'.offers ==>
      (x in s.offers && s'.offers[x] == s.offers[x]) || s'.offers[x].Ending? || s'.offers[x].Opening? ||
      (x == sid && origin == OfOffer(sid) && sid in s.active && InnerTask(s'.offers[x]) == Some(t))
    ensures Inv(s')
  {
    hide Begun, ActiveKnown, CloserKnown, OfferKnown, SessionKnown;
    BegunKeys(s, t, sid, stop, force, origin, s');
    forall x | x in s'.active ensures ActiveKnown(s', x) { BegunActive(s, t, sid, stop, force, origin, s', x); }
    forall x | x in s'.closers ensures CloserKnown(s', x) { BegunCloser(s, t, sid, stop, force, origin, s', x); }
    forall x | x in s'.offers ensures OfferKnown(s', x) { BegunOffer(s, t, sid, stop, force, origin, s', x); }
    forall h | h in s'.objects ensures SessionKnown(s', h) { BegunSession(s, t, sid, stop, force, origin, s', h); }
    forall h ensures Fresh(s', h) {
      assert Fresh(s, h);
      BegunFresh(s, t, sid, stop, force, origin, s', h);
    }
  }

  lemma BegunKeys(s: State, t: Task, sid: Sid, stop: bool, force: bool, origin: Origin, s': State)
    requires Begun(s, t, sid, stop, force, origin, s')
    ensures s'.objects == s.objects && s'.active.Keys <= s.active.Keys && t !in s.closers
  {
  }

  lemma BegunFresh(s: State, t: Task, sid: Sid, stop: bool, force: bool, origin: Origin, s': State, h: Handle)
    requires Begun(s, t, sid, stop, force, origin, s') && Fresh(s, h) && (sid in s.active ==> ActiveKnown(s, sid))
    ensures Fresh(s', h)
  {
  }

  // Ending a close.

  lemma EndedOffer(s: State, t: Task, x: Sid)
    requires t in s.closers && x in s.offers && OfferKnown(s, x)
    ensures OfferKnown(EndClose(s, t), x)
  {
  }

  lemma EndedSession(s: State, t: Task, h: Handle)
    requires t in s.closers && s.closers[t].h in s.books.closed && CloserKnown(s, t)
    requires h in s.objects && SessionKnown(s, h)
    ensures SessionKnown(EndClose(s, t), h)
  {
  }

  lemma EndCloseKeepsInv(s: State, t: Task)
    requires Inv(s) && t in s.closers && s.closers[t].h in s.books.closed
    ensures Inv(EndClose(s, t))
  {
    var s' := EndClose(s, t);
    assert CloserKnown(s, t);
    forall x | x in s'.active ensures ActiveKnown(s', x) { assert ActiveKnown(s, x); }
    forall x | x in s'.closers ensures CloserKnown(s', x) { assert CloserKnown(s, x); }
    forall x | x in s'.offers ensures OfferKnown(s', x) { EndedOffer(s, t, x); }
    forall h | h in s'.objects ensures SessionKnown(s', h) { EndedSession(s, t, h); }
    forall h ensures Fresh(s', h) { assert Fresh(s, h); }
  }

  // Cancelling a close. s' may differ from PutBack in `offers`.

  lemma PutBackActive(s: State, t: Task, s': State, x: Sid)
    requires t in s.closers && CloserKnown(s, t) && s' == PutBack(s, t).(offers := s'.offers)
    requires x in s'.active && (x in s.active ==> ActiveKnown(s, x))
    ensures ActiveKnown(s', x)
  {
  }

  lemma PutBackCloser(s: State, t: Task, s': State, u: Task)
    requires t in s.closers && CloserKnown(s, t) && s' == PutBack(s, t).(offers := s'.offers)
    requires u in s.closers && u != t && CloserKnown(s, u)
    ensures CloserKnown(s', u)
  {
  }

  lemma PutBackOffer(s: State, t: Task, s': State, x: Sid)
    requires t in s.closers && s' == PutBack(s, t).(offers := s'.offers)
    requires x in s'.offers && x in s.offers && s'.offers[x] == s.offers[x] && InnerTask(s.offers[x]) != Some(t)
    requires OfferKnown(s, x)
    ensures OfferKnown(s', x)
  {
  }

  lemma PutBackOther(s: State, t: Task, s': State, h: Handle)
    requires t in s.closers && CloserKnown(s, t) && s' == PutBack(s, t).(offers := s'.offers)
    requires h in s.objects && h != s.closers[t].h && SessionKnown(s, h)
    ensures SessionKnown(s', h)
  {
  }

  lemma PutBackSession(s: State, t: Task, s': State)
    requires t in s.closers && CloserKnown(s, t) && s' == PutBack(s, t).(offers := s'.offers)
    requires SessionKnown(s, s.closers[t].h)
    ensures SessionKnown(s', s.closers[t].h)
  {
  }

  lemma PutBackKeepsInv(s: State, t: Task, s': State)
    requires Inv(s) && t in s.closers && s' == PutBack(s, t).(offers := s'.offers)
    requires forall x :: x in s'.offers ==> x in s.offers && s'.offers[x] == s.offers[x] && InnerTask(s.offers[x]) != Some(t)
    ensures Inv(s')
  {
    assert CloserKnown(s, t);
    forall x | x in s'.active ensures ActiveKnown(s', x) { PutBackActive(s, t, s', x); }
    forall x | x in s'.closers ensures CloserKnown(s', x) { PutBackCloser(s, t, s', x); }
    forall x | x in s'.offers ensures OfferKnown(s', x) { PutBackOffer(s, t, s', x); }
    forall h | h in s'.objects ensures SessionKnown(s', h) {
      if h == s.closers[t].h { PutBackSession(s, t, s'); } else { PutBackOther(s, t, s', h); }
    }
    forall h ensures Fresh(s', h) { assert Fresh(s, h); }
  }

  // Registering a session.

  lemma RegisteredSession(
    s: State, sid: Sid, h: Handle, resource: string, homeCall: bool, ringCall: bool, ringPreview: bool, g: Handle)
    requires h !in s.objects && (sid in s.active ==> ActiveKnown(s, sid))
    requires (g in s.objects && SessionKnown(s, g)) || (g == h && Fresh(s, g))
    ensures SessionKnown(DoRegister(s, sid, h, resource, homeCall, ringCall, ringPreview), g)
  {
  }

  /** The active ids, closes and offers after registering h. */
  lemma RegisteredActive(s: State, s': State, sid: Sid, h: Handle, x: Sid)
    requires s'.active == s.active[sid := h] && h !in s.objects && h in s'.objects && s'.objects[h].sid == sid
    requires s'.objects == s.objects[h := s'.objects[h]]
    requires forall g :: g in s.books.places && g != h && !(sid in s.active && s.active[sid] == g) ==>
      g in s'.books.places && s'.books.places[g] == s.books.places[g]
    requires h in s'.books.places && s'.books.places[h] == Registered
    requires x in s'.active && (x in s.active ==> ActiveKnown(s, x)) && (sid in s.active ==> ActiveKnown(s, sid))
    ensures ActiveKnown(s', x)
  {
  }

  lemma RegisteredCloser(
    s: State, sid: Sid, h: Handle, resource: string, homeCall: bool, ringCall: bool, ringPreview: bool, t: Task)
    requires h !in s.objects && (sid in s.active ==> ActiveKnown(s, sid)) && t in s.closers && CloserKnown(s, t)
    ensures CloserKnown(DoRegister(s, sid, h, resource, homeCall, ringCall, ringPreview), t)
  {
    hide Pop, Relocate, HeldFor;
    if sid in s.active { ActiveIsNotHeld(s, sid, t); }
  }

  lemma RegisterKeepsInv(s: State, sid: Sid, h: Handle, resource: string, homeCall: bool, ringCall: bool, ringPreview: bool)
    requires Inv(s) && h !in s.objects
    ensures Inv(DoRegister(s, sid, h, resource, homeCall, ringCall, ringPreview))
  {
    hide SessionKnown, ActiveKnown, CloserKnown, Pop, Relocate, HeldFor;
    if sid in s.active { ActiveIsAnObject(s, sid); }
    var s' := DoRegister(s, sid, h, resource, homeCall, ringCall, ringPreview);
    forall x | x in s'.active ensures ActiveKnown(s', x) { RegisteredActive(s, s', sid, h, x); }
    forall t | t in s'.closers ensures CloserKnown(s', t) {
      RegisteredCloser(s, sid, h, resource, homeCall, ringCall, ringPreview, t);
    }
    forall x | x in s'.offers ensures OfferKnown(s', x) { if x != sid { assert OfferKnown(s, x); } }
    forall g | g in s'.objects ensures SessionKnown(s', g) {
      assert Fresh(s, g);
      RegisteredSession(s, sid, h, resource, homeCall, ringCall, ringPreview, g);
    }
    forall g ensures Fresh(s', g) { assert Fresh(s, g); }
  }

  lemma ActiveIsAnObject(s: State, sid: Sid)
    requires sid in s.active && ActiveKnown(s, sid)
    ensures s.active[sid] in s.objects
  {
  }

  lemma ActiveIsNotHeld(s: State, sid: Sid, t: Task)
    requires sid in s.active && ActiveKnown(s, sid) && t in s.closers && CloserKnown(s, t)
    ensures s.closers[t].h != s.active[sid]
  {
  }

  // Blocks that move closes and offers along without moving any session.

  ghost predicate SamePlaces(s: State, s': State) {
    s'.active == s.active && s'.objects.Keys == s.objects.Keys &&
    (forall h :: h in s.objects ==> s'.objects[h].sid == s.objects[h].sid) &&
    s'.books.places == s.books.places && s'.books.pops == s.books.pops && s'.books.putBacks == s.books.putBacks &&
    s.books.closed <= s'.books.closed
  }

  lemma SameSession(s: State, s': State, h: Handle)
    requires SamePlaces(s, s') && h in s.objects && SessionKnown(s, h)
    requires forall t :: t in s.closers ==> t in s'.closers && s'.closers[t].h == s.closers[t].h
    ensures SessionKnown(s', h)
  {
  }

  lemma OfferMoveKeepsInv(s: State, s': State, sid: Sid)
    requires Inv(s) && SamePlaces(s, s') && s'.closers == s.closers && s'.books.closed == s.books.closed
    requires s'.offers - {sid} == s.offers - {sid}
    requires sid in s'.offers ==> InnerTask(s'.offers[sid]) == None && OfferKnown(s', sid)
    ensures Inv(s')
  {
    forall x | x in s'.active ensures ActiveKnown(s', x) { assert ActiveKnown(s, x); }
    forall t | t in s'.closers ensures CloserKnown(s', t) { assert CloserKnown(s, t); }
    forall x | x in s'.offers ensures OfferKnown(s', x) {
      if x != sid {
        assert x in s'.offers - {sid} && (s'.offers - {sid})[x] == (s.offers - {sid})[x];
        assert OfferKnown(s, x);
      }
    }
    forall h | h in s'.objects ensures SessionKnown(s', h) { SameSession(s, s', h); }
    forall h ensures Fresh(s', h) { assert Fresh(s, h); }
  }

  lemma MovedCloser(s: State, s': State, t: Task, u: Task)
    requires SamePlaces(s, s') && t in s.closers && u in s.closers && CloserKnown(s, u)
    requires s'.closers.Keys == s.closers.Keys && (u != t ==> s'.closers[u] == s.closers[u])
    requires s'.closers[t] == s.closers[t].(phase := s'.closers[t].phase)
    requires s'.closers[t].phase.TearDown? || s.closers[t].h in s'.books.closed
    ensures CloserKnown(s', u)
  {
  }

  lemma MovedOffer(s: State, s': State, x: Sid)
    requires SamePlaces(s, s') && s'.offers == s.offers && x in s.offers && OfferKnown(s, x)
    requires forall u :: u in s.closers ==> u in s'.closers && s'.closers[u] == s.closers[u].(phase := s'.closers[u].phase)
    ensures OfferKnown(s', x)
  {
  }

  lemma SameActive(s: State, s': State, x: Sid)
    requires SamePlaces(s, s') && x in s.active && ActiveKnown(s, x)
    ensures ActiveKnown(s', x)
  {
  }

  lemma CloserMoveKeepsInv(s: State, s': State, t: Task)
    requires Inv(s) && SamePlaces(s, s') && s'.offers == s.offers && t in s.closers
    requires s'.closers.Keys == s.closers.Keys && forall u :: u in s.closers && u != t ==> s'.closers[u] == s.closers[u]
    requires s'.closers[t] == s.closers[t].(phase := s'.closers[t].phase)
    requires s'.closers[t].phase.TearDown? || s.closers[t].h in s'.books.closed
    ensures Inv(s')
  {
    hide ActiveKnown, CloserKnown, OfferKnown, SessionKnown;
    forall x | x in s'.active ensures ActiveKnown(s', x) { SameActive(s, s', x); }
    forall u | u in s'.closers ensures CloserKnown(s', u) { MovedCloser(s, s', t, u); }
    forall x | x in s'.offers ensures OfferKnown(s', x) { MovedOffer(s, s', x); }
    forall h | h in s'.objects ensures SessionKnown(s', h) { SameSession(s, s', h); }
    forall h ensures Fresh(s', h) { assert Fresh(s, h); }
  }

  lemma DecisionKeepsInv(s: State, t: Task, last: bool, refreshed: bool)
    requires Inv(s) && t in s.closers && !s.closers[t].phase.TearDown? && s.closers[t].h in s.objects
    ensures Inv(MakeDecision(s, t, last, refreshed))
  {
    hide HasResource;
    assert CloserKnown(s, t);
    var s' := MakeDecision(s, t, last, refreshed);
    DecisionOutline(s, t, last, refreshed);
    hide Inv, MakeDecision, EndClose;
    var m := s.(books := s.books.(decisions := s'.books.decisions));
    CloserMoveKeepsInv(s, m, t);
    if Last(s'.books.decisions).stop { CloserMoveKeepsInv(s, s', t); } else { EndCloseKeepsInv(m, t); }
  }

  /** A decision is written down, and the close goes on to the stop or ends. */
  lemma DecisionOutline(s: State, t: Task, last: bool, refreshed: bool)
    requires t in s.closers && s.closers[t].h in s.objects
    ensures
      var s' := MakeDecision(s, t, last, refreshed);
      var m := s.(books := s.books.(decisions := s'.books.decisions));
      |s'.books.decisions| == |s.books.decisions| + 1 &&
      s' == (if Last(s'.books.decisions).stop then m.(closers := s.closers[t := s.closers[t].(phase := Stopping)])
             else EndClose(m, t))
  {
    hide HasResource, EndClose;
    EndCloseKeepsDecisions(s, t);
  }

  lemma EndCloseKeepsDecisions(s: State, t: Task)
    requires t in s.closers
    ensures forall ds :: EndClose(s.(books := s.books.(decisions := ds)), t).books.decisions == ds
  {
  }

  lemma DecisionKeepsSessions(s: State, t: Task, last: bool, refreshed: bool)
    requires t in s.closers && s.closers[t].h in s.objects
    ensures MakeDecision(s, t, last, refreshed).active == s.active && MakeDecision(s, t, last, refreshed).objects == s.objects
  {
    DecisionOutline(s, t, last, refreshed);
    hide MakeDecision;
  }

  function Last(ds: seq<Decision>): Decision
    requires ds != []
  {
    ds[|ds| - 1]
  }

  lemma CancelHandlerKeepsInv(s: State, sid: Sid, stop: bool, t: Task)
    requires Inv(s) && t !in s.closers
    ensures Inv(CancelHandler(s, sid, stop, t))
  {
    var s' := CancelHandler(s, sid, stop, t);
    if s.closing {
      DiscardKeepsRegistry(s, sid);
      SameRegistryKeepsInv(s, Discard(s, sid));
      OfferMoveKeepsInv(Discard(s, sid), s', sid);
    } else {
      BeginCloseKeepsInv(s, t, sid, stop, false, OfOffer(sid), s');
    }
  }

  lemma OfferCancelKeepsInv(s: State, sid: Sid, stop: bool, t: Task)
    requires Inv(s) && t !in s.closers && sid in s.offers
    requires InnerTask(s.offers[sid]).Some? ==> InnerTask(s.offers[sid]).t in s.closers
    ensures Inv(DoOfferCancel(s, sid, stop, t))
  {
    var s' := DoOfferCancel(s, sid, stop, t);
    if InnerTask(s.offers[sid]).Some? {
      var t0 := InnerTask(s.offers[sid]).t;
      var m := PutBack(s, t0).(offers := s.offers - {sid});
      assert OfferKnown(s, sid);
      forall x | x in m.offers ensures InnerTask(s.offers[x]) != Some(t0) { assert OfferKnown(s, x); }
      PutBackKeepsInv(s, t0, m);
      if s.offers[sid].Failing? { CancelHandlerKeepsInv(m, sid, stop, t); }
    } else if s.offers[sid].Ending? {
      OfferMoveKeepsInv(s, s', sid);
    } else {
      CancelHandlerKeepsInv(s, sid, stop, t);
    }
  }

  lemma OfferBeginKeepsInv(s: State, sid: Sid, t: Task)
    requires Inv(s) && t !in s.closers
    ensures Inv(BeginOffer(s, sid, t))
  {
    hide Inv;
    var s' := BeginOffer(s, sid, t);
    if s.closing || sid in s.offers {}
    else if sid in s.active { BeginCloseKeepsInv(s, t, sid, true, false, OfOffer(sid), s'); }
    else { OfferMoveKeepsInv(s, s', sid); }
  }

  lemma ReadyKeepsInv(s: State, sid: Sid, h: Handle)
    requires Inv(s) && h in s.objects && s.objects[h].sid == sid
    ensures Inv(MakeReady(s, sid, h))
  {
    hide Inv;
    OfferMoveKeepsInv(s, MakeReady(s, sid, h), sid);
  }

  lemma OfferReturnedKeepsInv(s: State, sid: Sid, failed: bool, stop: bool, t: Task)
    requires Inv(s) && t !in s.closers
    requires sid in s.offers && s.offers[sid].Negotiating? && s.offers[sid].h in s.objects
    ensures Inv(DoOfferReturned(s, sid, failed, stop, t))
  {
    hide BeginClose, MakeReady;
    var s' := DoOfferReturned(s, sid, failed, stop, t);
    assert OfferKnown(s, sid);
    hide Inv;
    if sid !in s.active || s.active[sid] != s.offers[sid].h { OfferMoveKeepsInv(s, s', sid); }
    else if failed { BeginCloseKeepsInv(s, t, sid, stop, false, OfOffer(sid), s'); }
    else { ReadyKeepsInv(s, sid, s.offers[sid].h); }
  }

  lemma FlushStepKeepsInv(s: State, sid: Sid)
    requires Inv(s) && sid in s.offers && s.offers[sid].Flushing? && s.offers[sid].h in s.objects
    ensures Inv(DoFlushStep(s, sid))
  {
    hide Inv;
    if s.objects[s.offers[sid].h].pending == [] { OfferMoveKeepsInv(s, DoFlushStep(s, sid), sid); }
    else { SameRegistryKeepsInv(s, DoFlushStep(s, sid)); }
  }

  lemma OfferFailKeepsInv(s: State, sid: Sid, stop: bool, t: Task)
    requires Inv(s) && t !in s.closers
    ensures Inv(HandleFailure(s, sid, stop, t))
  {
    BeginCloseKeepsInv(s, t, sid, stop, false, OfOffer(sid), HandleFailure(s, sid, stop, t));
  }

  lemma CloseBeginKeepsInv(s: State, t: Task, sid: Sid, stop: bool, origin: Origin)
    requires Inv(s) && t !in s.closers
    ensures Inv(BeginClose(s, t, sid, stop, false, origin))
  {
    hide Inv;
    BeginCloseKeepsInv(s, t, sid, stop, false, origin, BeginClose(s, t, sid, stop, false, origin));
  }

  lemma ProviderClosedKeepsInv(s: State, t: Task)
    requires Inv(s) && t in s.closers
    ensures Inv(DoProviderClosed(s, t))
  {
    assert CloserKnown(s, t);
    CloserMoveKeepsInv(s, DoProviderClosed(s, t), t);
  }

  lemma CheckLastKeepsInv(s: State, t: Task)
    requires Inv(s) && t in s.closers && s.closers[t].phase.TornDown? && s.closers[t].h in s.objects
    ensures Inv(DoCheckLast(s, t))
  {
    hide MakeDecision, HasResource;
    assert CloserKnown(s, t);
    hide Inv;
    var o := s.objects[s.closers[t].h];
    if o.ringPreview { CloserMoveKeepsInv(s, DoCheckLast(s, t), t); }
    else { DecisionKeepsInv(s, t, !HasResource(s.active, s.objects, o.resource), false); }
  }

  lemma DecideKeepsInv(s: State, t: Task, ringing: Ringing)
    requires Inv(s) && t in s.closers && s.closers[t].phase.Refreshing? && s.closers[t].h in s.objects
    ensures Inv(DoDecide(s, t, ringing))
  {
    var m := Refreshed(s, s.closers[t].h, ringing);
    SameRegistryKeepsInv(s, m);
    DecisionKeepsInv(m, t, s.closers[t].phase.last, true);
  }

  lemma StopDoneKeepsInv(s: State, t: Task)
    requires Inv(s) && t in s.closers && s.closers[t].phase.Stopping?
    ensures Inv(EndClose(s, t))
  {
    assert CloserKnown(s, t);
    EndCloseKeepsInv(s, t);
  }

  lemma CloseCancelKeepsInv(s: State, t: Task)
    requires Inv(s) && t in s.closers && !s.closers[t].origin.OfOffer?
    ensures Inv(PutBack(s, t))
  {
    forall x | x in s.offers ensures InnerTask(s.offers[x]) != Some(t) { assert OfferKnown(s, x); }
    PutBackKeepsInv(s, t, PutBack(s, t));
  }

  lemma RemoveNextKeepsInv(s: State, t: Task, current: bool)
    requires Inv(s) && t !in s.closers && s.removal.Removing? && s.removal.queue != []
    ensures Inv(DoRemoveNext(s, t, current))
  {
    hide Inv;
    BeginCloseKeepsInv(s, t, s.removal.queue[0], current, current, OfRemoval, DoRemoveNext(s, t, current));
  }

  lemma CandidateKeepsInv(s: State, sid: Sid)
    requires Inv(s)
    ensures Inv(DoCandidate(s, sid))
  {
    CandidateKeepsRegistry(s, sid);
    SameRegistryKeepsInv(s, DoCandidate(s, sid));
  }

  lemma OtherKeepsInv(s: State)
    requires Inv(s)
    ensures Inv(s.(objects := MarkInactive(s.objects, s.active)))
    ensures Inv(s.(closing := true)) && Inv(s.(removal := Removed)) && Inv(DoDrained(s))
  {
    hide Inv;
    SameRegistryKeepsInv(s, s.(objects := MarkInactive(s.objects, s.active)));
    SameRegistryKeepsInv(s, s.(closing := true));
    SameRegistryKeepsInv(s, s.(removal := Removed));
    SameRegistryKeepsInv(s, DoDrained(s));
  }

  lemma OfferEndKeepsInv(s: State, sid: Sid)
    requires Inv(s)
    ensures Inv(s.(offers := s.offers - {sid}))
  {
    OfferMoveKeepsInv(s, s.(offers := s.offers - {sid}), sid);
  }

  /** Every block keeps the invariant, whatever ran before it. */
  lemma StepKeepsInv(s: State, e: Event)
    requires Inv(s) && Enabled(s, e)
    ensures Inv(Apply(s, e))
  {
    hide Inv;
    hide BeginOffer, DoRegister, DoOfferReturned, DoFlushStep, HandleFailure, DoOfferCancel, BeginClose,
      DoProviderClosed, DoCheckLast, DoDecide, EndClose, PutBack, DoCandidate, MarkInactive, DoDrained, DoRemoveNext;
    match e
    case OfferBegin(sid, t) => OfferBeginKeepsInv(s, sid, t);
    case Register(sid, h, resource, homeCall, ringCall, ringPreview) =>
      RegisterKeepsInv(s, sid, h, resource, homeCall, ringCall, ringPreview);
    case OfferReturned(sid, failed, stop, t) => OfferReturnedKeepsInv(s, sid, failed, stop, t);
    case FlushStep(sid) => FlushStepKeepsInv(s, sid);
    case OfferFail(sid, stop, t) => OfferFailKeepsInv(s, sid, stop, t);
    case OfferCancel(sid, stop, t) => OfferCancelKeepsInv(s, sid, stop, t);
    case OfferEnd(sid) => OfferEndKeepsInv(s, sid);
    case CloseBegin(t, sid, stop, origin) => CloseBeginKeepsInv(s, t, sid, stop, origin);
    case ProviderClosed(t) => ProviderClosedKeepsInv(s, t);
    case CheckLast(t) => CheckLastKeepsInv(s, t);
    case Decide(t, ringing) => DecideKeepsInv(s, t, ringing);
    case StopDone(t) => StopDoneKeepsInv(s, t);
    case CloseCancel(t) => CloseCancelKeepsInv(s, t);
    case Candidate(sid) => CandidateKeepsInv(s, sid);
    case RemoveNext(t, current) => RemoveNextKeepsInv(s, t, current);
    case HomeCallEnded => OtherKeepsInv(s);
    case RemoveBegin => OtherKeepsInv(s);
    case RemoveDrained => OtherKeepsInv(s);
    case RemoveFinish => OtherKeepsInv(s);
  }

  lemma {:induction false} RunKeepsInv(s: State, es: seq<Event>)
    requires Inv(s) && Possible(s, es)
    ensures Inv(Run(s, es))
    decreases |es|
  {
    if es == [] {
    } else {
      StepKeepsInv(s, es[0]);
      RunKeepsInv(Apply(s, es[0]), es[1..]);
    }
  }

  lemma InitialInv()
    ensures Inv(INITIAL)
  {
  }
}

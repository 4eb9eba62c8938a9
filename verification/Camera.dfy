/** The camera itself: the fields its coroutines share, and their blocks as methods. Each method does what the
    block does to the fields and is proved to be the corresponding step of the registry's state. The fields
    declared ghost record where the coroutines are suspended and what has happened; no block reads them. */
module Camera {
  import opened CameraState

  lemma DecisionParts(s: State, t: Task, last: bool, refreshed: bool)
    requires t in s.closers && s.closers[t].h in s.objects
    ensures
      var s' := MakeDecision(s, t, last, refreshed);
      s' == s.(closers := s'.closers, offers := s'.offers, books := s'.books) && s'.offers.Keys == s.offers.Keys
  {
  }

  lemma CheckParts(s: State, t: Task)
    requires t in s.closers && s.closers[t].h in s.objects
    ensures
      var s' := DoCheckLast(s, t);
      s' == s.(closers := s'.closers, offers := s'.offers, books := s'.books) && s'.offers.Keys == s.offers.Keys
  {
    DecisionParts(s, t, !HasResource(s.active, s.objects, s.objects[s.closers[t].h].resource), false);
    hide MakeDecision;
  }

  lemma DecideParts(s: State, t: Task, ringing: Ringing)
    requires t in s.closers && s.closers[t].phase.Refreshing? && s.closers[t].h in s.objects
    ensures
      var s' := DoDecide(s, t, ringing);
      s' == s.(objects := Refreshed(s, s.closers[t].h, ringing).objects,
               closers := s'.closers, offers := s'.offers, books := s'.books) && s'.offers.Keys == s.offers.Keys
  {
    DecisionParts(Refreshed(s, s.closers[t].h, ringing), t, s.closers[t].phase.last, true);
    hide MakeDecision;
  }

  lemma BeginCloseParts(s: State, t: Task, sid: Sid, stop: bool, force: bool, origin: Origin)
    ensures
      var s' := BeginClose(s, t, sid, stop, force, origin);
      s' == Discard(s, sid).(active := s.active - {sid}, closers := s'.closers, books := s'.books)
  {
    if sid !in s.active { assert s.active - {sid} == s.active; }
  }

  lemma DiscardParts(s: State, sid: Sid)
    ensures Discard(s, sid) == s.(candidates := Pop(s.candidates, sid), ice := Discard(s, sid).ice)
  {
  }

  lemma RegisterParts(s: State, sid: Sid, h: Handle, resource: string, homeCall: bool, ringCall: bool, ringPreview: bool)
    ensures
      var s' := DoRegister(s, sid, h, resource, homeCall, ringCall, ringPreview);
      s' == s.(objects := s.objects[h := Session(sid, resource, homeCall, ringCall, ringPreview, false, HeldFor(s.candidates, sid))],
               active := s.active[sid := h], candidates := Pop(s.candidates, sid), offers := s.offers[sid := Negotiating(h)],
               ice := s'.ice, books := s'.books)
  {
  }

  class Camera {
    var sessions: map<Handle, Session>           // the session objects, by identity
    var active: map<Sid, Handle>
    var order: seq<Sid>                          // the keys of `waiting`, oldest first
    var waiting: map<Sid, seq<Stamp>>
    var offers: set<Sid>                         // ids whose offer coroutine is running
    var closing: bool
    ghost var stages: map<Sid, Stage>
    ghost var closers: map<Task, Close>
    ghost var removal: Removal
    ghost var ice: IceHistory
    ghost var books: Books

    ghost predicate Valid()
      reads this`sessions, this`active, this`stages, this`offers
    {
      (forall sid :: sid in active ==> active[sid] in sessions) && stages.Keys == offers
    }

    ghost function Now(): State
      reads this
    {
      State(sessions, active, Buffers(order, waiting), stages, closing, closers, removal, ice, books)
    }

    constructor ()
      ensures Valid() && Now() == INITIAL
    {
      sessions, active, order, waiting, offers, closing := map[], map[], [], map[], {}, false;
      stages, closers, removal := map[], map[], Present;
      ice, books := INITIAL.ice, INITIAL.books;
    }

    /** `candidates.pop(session_id, None)` */
    method DiscardCandidates(sid: Sid)
      requires Valid()
      modifies this`order, this`waiting, this`ice
      ensures Valid() && Now() == Discard(old(Now()), sid)
    {
      ice := Discard(Now(), sid).ice;
      if sid in waiting {
        var rest := [];
        for i := 0 to |order|
          invariant rest + Without(order[i..], sid) == Without(order, sid)
        {
          assert order[i..][0] == order[i] && order[i..][1..] == order[i + 1..];
          if order[i] != sid { rest := rest + [order[i]]; }
        }
        order, waiting := rest, waiting - {sid};
      }
    }

    /** `_has_webrtc_sessions_for_resource` */
    method HasSessionsForResource(resource: string) returns (found: bool)
      requires Valid()
      ensures found <==> HasResource(active, sessions, resource)
    {
      found := false;
      var rest := active.Keys;
      while rest != {}
        invariant rest <= active.Keys
        invariant found ==> HasResource(active, sessions, resource)
        invariant !found ==> forall sid :: sid in active && sid !in rest ==> sessions[active[sid]].resource != resource
        decreases rest
      {
        var sid :| sid in rest;
        if sessions[active[sid]].resource == resource {
          found := true;
        }
        rest := rest - {sid};
      }
    }

    /** A candidate for a registered session: forwarded when it is ready, else buffered up to the bound. */
    method OfferCandidateToSession(h: Handle, c: Stamp) returns (forwarded: bool)
      requires Valid() && h in sessions
      modifies this`sessions, this`ice
      ensures Valid() && forwarded == old(sessions)[h].ready
      ensures Now() == StoreInSession(old(Now()), h, c)
    {
      ghost var before := Now();
      var o := sessions[h];
      forwarded := o.ready;
      if !o.ready && |o.pending| < MAX_PRESESSION_CANDIDATES {
        sessions := sessions[h := o.(pending := o.pending + [c])];
      }
      ice := StoreInSession(before, h, c).ice;
    }

    /** A candidate that arrives before its session, in one of at most 16 buffers; the oldest makes room. */
    method BufferCandidate(sid: Sid, c: Stamp)
      requires Valid()
      modifies this`order, this`waiting, this`ice
      ensures Valid()
      ensures
        var s := old(Now());
        Now() == StoreBeforeSession(if sid in s.candidates.table then s else Evict(s), sid, c)
    {
      if sid !in waiting && |order| >= MAX_PRESESSION_SESSIONS { DiscardCandidates(order[0]); }
      ghost var before := Now();
      if sid !in waiting { order, waiting := order + [sid], waiting[sid := []]; }
      if |waiting[sid]| < MAX_PRESESSION_CANDIDATES { waiting := waiting[sid := waiting[sid] + [c]]; }
      ice := StoreBeforeSession(before, sid, c).ice;
    }

    /** `async_on_webrtc_candidate` */
    method OnCandidate(sid: Sid, c: Stamp)
      requires Valid() && c == ice.arrived
      modifies this`order, this`waiting, this`ice, this`sessions
      ensures Valid() && Now() == DoCandidate(old(Now()), sid)
    {
      hide StoreBeforeSession, StoreInSession, Evict;
      ice := Arrive(Now()).ice;
      if closing { return; }
      if sid in active {
        var forwarded := OfferCandidateToSession(active[sid], c);
      } else {
        BufferCandidate(sid, c);
      }
    }

    /** One turn of `_async_flush_provider_webrtc_candidates`; the candidate returned is the one forwarded. */
    method FlushTurn(sid: Sid, h: Handle) returns (sent: seq<Stamp>)
      requires Valid() && sid in stages && stages[sid] == Flushing(h) && h in sessions
      modifies this`stages, this`ice, this`sessions
      ensures Valid() && Now() == DoFlushStep(old(Now()), sid)
      ensures old(sessions[h].pending) == sent + sessions[h].pending && |sent| <= 1
      ensures sent == [] ==> sessions[h].pending == []
    {
      ghost var before := sessions;
      ghost var after := DoFlushStep(Now(), sid);
      var o := sessions[h];
      sent := [];
      if o.pending != [] {
        sent := [o.pending[0]];
        sessions := sessions[h := o.(pending := o.pending[1..])];
      }
      stages, ice := after.offers, after.ice;
    }

    /** `_async_close_webrtc_session` up to its first await; returns the session taken, if there was one. */
    method StartClose(sid: Sid, stop: bool, force: bool, ghost t: Task, ghost origin: Origin) returns (taken: set<Handle>)
      requires Valid() && t !in closers
      modifies this`active, this`order, this`waiting, this`closers, this`ice, this`books
      ensures Valid() && Now() == BeginClose(old(Now()), t, sid, stop, force, origin)
      ensures taken == if sid in old(active) then {old(active)[sid]} else {}
    {
      ghost var after := BeginClose(Now(), t, sid, stop, force, origin);
      BeginCloseParts(Now(), t, sid, stop, force, origin);
      hide BeginClose;
      taken := if sid in active then {active[sid]} else {};
      if sid in active { active := active - {sid}; }
      assert active == old(active) - {sid};
      DiscardCandidates(sid);
      closers, books := after.closers, after.books;
    }

    /** `active.setdefault(session_id, session)` in the cancelled close. */
    method RestoreSession(sid: Sid, h: Handle, ghost t: Task)
      requires Valid() && h in sessions && t in closers && closers[t].sid == sid && closers[t].h == h
      modifies this`active, this`closers, this`books, this`removal
      ensures Valid() && Now() == PutBack(old(Now()), t)
    {
      ghost var after := PutBack(Now(), t);
      if sid !in active { active := active[sid := h]; }
      closers, books, removal := after.closers, after.books, after.removal;
    }

    /** From the completed provider close to the decision, or to the status refresh a ring preview needs. */
    method CheckLastOwner(h: Handle, stopMedia: bool, force: bool, ghost t: Task) returns (last: bool, stop: bool)
      requires Valid() && h in sessions && t in closers && closers[t].h == h && closers[t].phase.TornDown?
      requires closers[t].stopMedia == stopMedia && closers[t].force == force
      modifies this`closers, this`stages, this`books
      ensures Valid() && Now() == DoCheckLast(old(Now()), t)
      ensures last <==> !HasResource(active, sessions, sessions[h].resource)
      ensures stop <==> last && stopMedia && !sessions[h].ringPreview && (force || !sessions[h].ringCall)
    {
      ghost var after := DoCheckLast(Now(), t);
      CheckParts(Now(), t);
      hide DoCheckLast;
      var o := sessions[h];
      var found := HasSessionsForResource(o.resource);
      last := !found;
      stop := !o.ringPreview && last && stopMedia && (force || !o.ringCall);
      closers, stages, books := after.closers, after.offers, after.books;
    }

    /** The rest of the decision once the status is back, with the check made before the refresh. */
    method DecideAfterRefresh(h: Handle, last: bool, stopMedia: bool, force: bool, ringing: Ringing, ghost t: Task)
      returns (stop: bool)
      requires Valid() && h in sessions && t in closers && closers[t].h == h && closers[t].phase == Refreshing(last)
      requires closers[t].stopMedia == stopMedia && closers[t].force == force
      modifies this`closers, this`stages, this`books, this`sessions
      ensures Valid() && Now() == DoDecide(old(Now()), t, ringing)
      ensures stop <==> last && stopMedia && (force || (!sessions[h].ringPreview && !sessions[h].ringCall))
    {
      hide DoDecide;
      ghost var before := Now();
      ghost var after := DoDecide(before, t, ringing);
      DecideParts(before, t, ringing);
      var o := sessions[h];
      if !ringing.RefreshFailed? {
        o := o.(ringPreview := ringing.StillRinging?);
        sessions := sessions[h := o];
      }
      stop := last && stopMedia && (force || (!o.ringPreview && !o.ringCall));
      closers, stages, books := after.closers, after.offers, after.books;
      assert Now() == after;
    }

    /** `_async_handle_webrtc_offer` up to its first await: refused while unloading or for an id that is
        already opening; otherwise the id is owned, and a session it still has is closed first. */
    method BeginOfferFor(sid: Sid, ghost t: Task) returns (accepted: bool, taken: set<Handle>)
      requires Valid() && t !in closers
      modifies this`offers, this`stages, this`active, this`order, this`waiting, this`closers, this`ice, this`books
      ensures Valid() && Now() == BeginOffer(old(Now()), sid, t)
      ensures accepted <==> !closing && sid !in old(offers)
      ensures offers == if accepted then old(offers) + {sid} else old(offers)
    {
      ghost var after := BeginOffer(Now(), sid, t);
      accepted, taken := !closing && sid !in offers, {};
      if accepted {
        hide BeginClose;
        if sid in active { taken := StartClose(sid, true, false, t, OfOffer(sid)); }
        offers := offers + {sid};
        stages := after.offers;
      }
    }

    /** The offer coroutine leaves `opening`. */
    method EndOffer(sid: Sid)
      requires Valid()
      modifies this`offers, this`stages
      ensures Valid() && Now() == old(Now()).(offers := old(stages) - {sid})
    {
      offers, stages := offers - {sid}, stages - {sid};
    }

    /** The provider has answered the offer. A session closed meanwhile is left alone; an error closes it;
        otherwise it becomes ready and the flush begins. */
    method ProviderAnswered(sid: Sid, h: Handle, failed: bool, stop: bool, ghost t: Task) returns (flush: bool)
      requires Valid() && sid in stages && stages[sid] == Negotiating(h) && h in sessions && t !in closers
      modifies this`stages, this`active, this`order, this`waiting, this`closers, this`ice, this`books, this`sessions
      ensures Valid() && Now() == DoOfferReturned(old(Now()), sid, failed, stop, t)
      ensures flush <==> !failed && sid in old(active) && old(active)[sid] == h
    {
      hide BeginClose;
      ghost var before := Now();
      ghost var after := DoOfferReturned(before, sid, failed, stop, t);
      flush := false;
      if sid in active && active[sid] == h {
        if failed {
          var taken := StartClose(sid, stop, false, t, OfOffer(sid));
        } else {
          sessions := sessions[h := sessions[h].(ready := true)];
          flush := true;
        }
      }
      stages, ice := after.offers, after.ice;
    }

    /** `active[session_id] = session`, with the candidates that were waiting for it. */
    method RegisterSession(sid: Sid, resource: string, homeCall: bool, ringCall: bool, ringPreview: bool, h: Handle)
      requires Valid() && sid in stages && stages[sid].Opening? && h !in sessions
      modifies this`sessions, this`active, this`order, this`waiting, this`stages, this`ice, this`books
      ensures Valid()
      ensures Now() == DoRegister(old(Now()), sid, h, resource, homeCall, ringCall, ringPreview)
    {
      hide DoRegister, Discard, Relocate, Pop;
      ghost var before := Now();
      ghost var after := DoRegister(before, sid, h, resource, homeCall, ringCall, ringPreview);
      RegisterParts(before, sid, h, resource, homeCall, ringCall, ringPreview);
      DiscardParts(before, sid);
      var held := if sid in waiting then waiting[sid] else [];
      DiscardCandidates(sid);
      sessions := sessions[h := Session(sid, resource, homeCall, ringCall, ringPreview, false, held)];
      active := active[sid := h];
      stages, ice, books := after.offers, after.ice, after.books;
      assert Now() == after;
    }

    /** `_mark_home_call_sessions_inactive` */
    method MarkHomeCallsInactive()
      requires Valid()
      modifies this`sessions
      ensures Valid() && Now() == old(Now()).(objects := MarkInactive(old(sessions), active))
    {
      ghost var before := sessions;
      ghost var done: set<Handle> := {};
      var rest := active.Keys;
      hide Silenced;
      SilencedNone(before);
      while rest != {}
        invariant rest <= active.Keys
        invariant forall sid :: sid in active ==> sid in rest || active[sid] in done
        invariant done <= active.Values && sessions == Silenced(before, done)
        decreases rest
      {
        var sid :| sid in rest;
        var h := active[sid];
        SilencedOne(before, done, h);
        if sessions[h].homeCall { sessions := sessions[h := sessions[h].(ready := false)]; }
        rest, done := rest - {sid}, done + {h};
      }
      SilencedAll(before, done, active);
    }

    static lemma SilencedNone(objects: map<Handle, Session>)
      ensures Silenced(objects, {}) == objects
    {
    }

    static lemma SilencedOne(objects: map<Handle, Session>, hs: set<Handle>, h: Handle)
      requires h in objects
      ensures var s := Silenced(objects, hs);
        s.Keys == objects.Keys &&
        Silenced(objects, hs + {h}) == if s[h].homeCall then s[h := s[h].(ready := false)] else s
    {
    }

    static lemma SilencedAll(objects: map<Handle, Session>, hs: set<Handle>, active: map<Sid, Handle>)
      requires hs <= active.Values && forall sid :: sid in active ==> active[sid] in hs
      ensures Silenced(objects, hs) == MarkInactive(objects, active)
    {
    }

    static ghost function Silenced(objects: map<Handle, Session>, hs: set<Handle>): map<Handle, Session> {
      map h | h in objects :: if h in hs && objects[h].homeCall then objects[h].(ready := false) else objects[h]
    }

    /** `async_will_remove_from_hass` after the background work has drained; returns the ids left to close. */
    method Drain() returns (ghost ids: seq<Sid>)
      requires Valid()
      modifies this`order, this`waiting, this`removal, this`ice
      ensures Valid() && Now() == DoDrained(old(Now()))
      ensures forall sid :: sid in ids <==> sid in active
    {
      ghost var after := DoDrained(Now());
      order, waiting := [], map[];
      removal, ice := after.removal, after.ice;
      ids := removal.queue;
    }
  }
}

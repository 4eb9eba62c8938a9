/** Concrete runs showing that the conditions of the camera's theorems cannot be dropped. */
module CameraRuns {
  import opened CameraState
  import opened CameraInvariants
  import opened CameraClose

  lemma {:induction false} Extend(s: State, es: seq<Event>, e: Event)
    requires Possible(s, es) && Enabled(Run(s, es), e)
    ensures Possible(s, es + [e]) && Run(s, es + [e]) == Apply(Run(s, es), e)
    decreases |es|
  {
    if es == [] {
      assert Possible(Apply(s, e), []);
      assert ([e])[1..] == [];
    } else {
      Extend(Apply(s, es[0]), es[1..], e);
      assert (es + [e])[1..] == es[1..] + [e];
    }
  }

  ghost predicate CanOpen(s: State, sid: Sid, h: Handle) {
    !s.closing && sid !in s.offers && sid !in s.active && h !in s.objects && s.candidates == INITIAL.candidates &&
    s.removal.Present? && 99 !in s.closers
  }

  /** What opening a session changes, up to the candidate history. */
  ghost predicate Opened(s: State, s': State, sid: Sid, h: Handle, o: Session, offers: map<Sid, Stage>) {
    s' == s.(objects := s.objects[h := o], active := s.active[sid := h], offers := offers, ice := s'.ice,
             books := s.books.(places := s.books.places[h := Registered]))
  }

  lemma RegisterSession(es: seq<Event>, sid: Sid, h: Handle, resource: string, ringPreview: bool) returns (es': seq<Event>)
    requires Possible(INITIAL, es) && CanOpen(Run(INITIAL, es), sid, h)
    ensures Possible(INITIAL, es')
    ensures
      var s := Run(INITIAL, es);
      Opened(s, Run(INITIAL, es'), sid, h, Session(sid, resource, false, false, ringPreview, false, []),
             s.offers[sid := Negotiating(h)])
  {
    hide Possible, Run;
    Extend(INITIAL, es, OfferBegin(sid, 99));
    es' := es + [OfferBegin(sid, 99)];
    var e := Register(sid, h, resource, false, false, ringPreview);
    Extend(INITIAL, es', e);
    es' := es' + [e];
  }

  /** Opening a session for a free id takes five blocks. */
  lemma OpenSession(es: seq<Event>, sid: Sid, h: Handle, resource: string, ringPreview: bool) returns (es': seq<Event>)
    requires Possible(INITIAL, es) && CanOpen(Run(INITIAL, es), sid, h)
    ensures Possible(INITIAL, es')
    ensures
      var s := Run(INITIAL, es);
      Opened(s, Run(INITIAL, es'), sid, h, Session(sid, resource, false, false, ringPreview, true, []), s.offers)
  {
    hide Possible, Run;
    var s := Run(INITIAL, es);
    es' := RegisterSession(es, sid, h, resource, ringPreview);
    Extend(INITIAL, es', OfferReturned(sid, false, false, 99));
    es' := es' + [OfferReturned(sid, false, false, 99)];
    Extend(INITIAL, es', FlushStep(sid));
    es' := es' + [FlushStep(sid)];
    Extend(INITIAL, es', OfferEnd(sid));
    es' := es' + [OfferEnd(sid)];
    assert Run(INITIAL, es').offers == s.offers;
  }

  lemma RemoveEntity(es: seq<Event>) returns (es': seq<Event>)
    requires Possible(INITIAL, es)
    requires
      var s := Run(INITIAL, es);
      s.removal.Present? && s.active == map[] && s.offers == map[] && forall t :: t in s.closers ==> s.closers[t].origin.Untracked?
    ensures Possible(INITIAL, es')
    ensures
      var s' := Run(INITIAL, es');
      s'.removal.Removed? && s'.closers == Run(INITIAL, es).closers && s'.active == map[]
  {
    hide Possible, Run;
    Extend(INITIAL, es, RemoveBegin);
    es' := es + [RemoveBegin];
    assert Run(INITIAL, es').active.Keys == {};
    Extend(INITIAL, es', RemoveDrained);
    es' := es' + [RemoveDrained];
    Extend(INITIAL, es', RemoveFinish);
    es' := es' + [RemoveFinish];
  }

  /** A close that removal does not wait for, cancelled after removal has finished, leaves its session behind. */
  lemma LateCancelLeavesASession() returns (es: seq<Event>)
    ensures Possible(INITIAL, es)
    ensures Run(INITIAL, es).removal.Removed? && Run(INITIAL, es).active != map[]
  {
    hide Possible, Run;
    assert Possible(INITIAL, []) && Run(INITIAL, []) == INITIAL by { PossibleNone(); }
    es := OpenSession([], "a", 0, "doorbell:entry:video", false);
    Extend(INITIAL, es, CloseBegin(1, "a", false, Untracked));
    es := es + [CloseBegin(1, "a", false, Untracked)];
    es := RemoveEntity(es);
    Extend(INITIAL, es, CloseCancel(1));
    es := es + [CloseCancel(1)];
    assert "a" in Run(INITIAL, es).active;
  }

  lemma PossibleNone()
    ensures Possible(INITIAL, []) && Run(INITIAL, []) == INITIAL
  {
  }

  /** A second session is open under the id of one whose close is still waiting for its provider. */
  lemma ReusedId() returns (es: seq<Event>)
    ensures Possible(INITIAL, es)
    ensures
      var s := Run(INITIAL, es);
      0 in s.objects && s.removal.Present? && "a" in s.active &&
      s.closers == map[1 := Close("a", 0, false, false, TearDown, Tracked)]
  {
    hide Possible, Run;
    assert Possible(INITIAL, []) && Run(INITIAL, []) == INITIAL by { PossibleNone(); }
    es := OpenSession([], "a", 0, "doorbell:entry:video", false);
    Extend(INITIAL, es, CloseBegin(1, "a", false, Tracked));
    es := es + [CloseBegin(1, "a", false, Tracked)];
    es := OpenSession(es, "a", 1, "doorbell:entry:video", false);
  }

  /** An offer that reuses the id of a session being closed makes the close lose that session when removal begins
      and cancels it. */
  lemma ReusedIdLosesASession() returns (es: seq<Event>)
    ensures Possible(INITIAL, es)
    ensures 0 in Run(INITIAL, es).objects && Lost(Run(INITIAL, es), 0)
  {
    hide Possible, Run;
    es := ReusedId();
    Extend(INITIAL, es, RemoveBegin);
    es := es + [RemoveBegin];
    Extend(INITIAL, es, CloseCancel(1));
    es := es + [CloseCancel(1)];
  }

  /** The only session, a ring preview, is being closed by a new offer for its id, and the close has just made the
      last-owner check. */
  lemma CheckedPreview() returns (es: seq<Event>)
    ensures Possible(INITIAL, es)
    ensures
      var s := Run(INITIAL, es);
      s == INITIAL.(objects := map[0 := Session("a", "ring:entry", false, false, true, true, [])], ice := s.ice,
                    books := s.books, offers := map["a" := ClosingOld(1)],
                    closers := map[1 := Close("a", 0, true, false, Refreshing(true), OfOffer("a"))])
  {
    hide Possible, Run;
    assert Possible(INITIAL, []) && Run(INITIAL, []) == INITIAL by { PossibleNone(); }
    es := OpenSession([], "a", 0, "ring:entry", true);
    Extend(INITIAL, es, OfferBegin("a", 1));
    es := es + [OfferBegin("a", 1)];
    assert Run(INITIAL, es).active == map[];
    Extend(INITIAL, es, ProviderClosed(1));
    es := es + [ProviderClosed(1)];
    Extend(INITIAL, es, CheckLast(1));
    es := es + [CheckLast(1)];
  }

  /** A ring preview's close checks for other owners before it refreshes the status: a preview of the same ring that
      registers during the refresh does not keep it from stopping the media they share, once the ring is over. */
  lemma StaleCheckStopsSharedMedia() returns (es: seq<Event>)
    ensures Possible(INITIAL, es)
    ensures exists d :: d in Run(INITIAL, es).books.decisions && d.stop && d.shared
  {
    hide Possible, Run;
    es := CheckedPreview();
    es := OpenSession(es, "b", 1, "ring:entry", true);
    var s := Run(INITIAL, es);
    assert s.active["b"] == 1;
    assert HasResource(s.active, Refreshed(s, 0, NoRing).objects, "ring:entry");
    Extend(INITIAL, es, Decide(1, NoRing));
    es := es + [Decide(1, NoRing)];
    assert Last(Run(INITIAL, es).books.decisions).stop && Last(Run(INITIAL, es).books.decisions).shared;
  }

  /** A session of the id "a", waiting for the provider's answer. */
  ghost predicate Waits(s: State, pending: seq<Stamp>) {
    s == INITIAL.(objects := map[0 := Session("a", "doorbell:entry:video", false, false, false, false, pending)],
                  active := map["a" := 0], offers := map["a" := Negotiating(0)], ice := s.ice, books := s.books) &&
    s.ice.buffered == map[0 := pending] && s.ice.logs == map[] && s.ice.flushed == map[]
  }

  lemma Negotiation() returns (es: seq<Event>)
    ensures Possible(INITIAL, es) && Waits(Run(INITIAL, es), []) && Run(INITIAL, es).ice.arrived == 0
  {
    hide Possible, Run;
    assert Possible(INITIAL, []) && Run(INITIAL, []) == INITIAL by { PossibleNone(); }
    Extend(INITIAL, [], OfferBegin("a", 99));
    es := [] + [OfferBegin("a", 99)];
    var e := Register("a", 0, "doorbell:entry:video", false, false, false);
    Extend(INITIAL, es, e);
    es := es + [e];
  }

  /** Another candidate arrives for it. */
  lemma Buffering(es: seq<Event>, pending: seq<Stamp>) returns (es': seq<Event>)
    requires Possible(INITIAL, es) && Waits(Run(INITIAL, es), pending) && |pending| < MAX_PRESESSION_CANDIDATES
    ensures Possible(INITIAL, es') && Run(INITIAL, es').ice.arrived == Run(INITIAL, es).ice.arrived + 1
    ensures Waits(Run(INITIAL, es'), pending + [Run(INITIAL, es).ice.arrived])
  {
    hide Possible, Run;
    Extend(INITIAL, es, Candidate("a"));
    es' := es + [Candidate("a")];
  }

  lemma BufferingTwo() returns (es: seq<Event>)
    ensures Possible(INITIAL, es) && Waits(Run(INITIAL, es), [0, 1])
  {
    hide Possible, Run, Waits;
    var none: seq<Stamp> := [];
    assert none + [0] == [0] && [0] + [1] == [0, 1];
    es := Negotiation();
    es := Buffering(es, none);
    es := Buffering(es, [0]);
  }

  /** The offer fails while its flush hands the first of two candidates to the provider, which never gets the second. */
  lemma InterruptedFlushLosesTheRest() returns (es: seq<Event>)
    ensures Possible(INITIAL, es)
    ensures
      var s := Run(INITIAL, es);
      0 in s.ice.wasReady && 0 !in s.ice.flushed && s.offers == map["a" := Cleaning(1)] &&
      Buffered(s, 0) == [0, 1] && Log(s, 0) == [Delivery(0, true)]
  {
    hide Possible, Run;
    es := BufferingTwo();
    Extend(INITIAL, es, OfferReturned("a", false, false, 99));
    es := es + [OfferReturned("a", false, false, 99)];
    Extend(INITIAL, es, FlushStep("a"));
    es := es + [FlushStep("a")];
    Extend(INITIAL, es, OfferFail("a", false, 1));
    es := es + [OfferFail("a", false, 1)];
  }
}

/** When a close stops the device media, in terms of what the events asked for and of the sessions they registered. */
module CameraStops {
  import opened CameraState
  import opened CameraInvariants
  import opened CameraClose
  import opened CameraAsks

  /** The close stops the media if it is still the last owner's by its check, was asked to, and is forced or no ring. */
  predicate ShouldStop(last: bool, a: Ask, preview: bool, call: bool) { last && a.stop && (a.force || !(preview || call)) }

  /** A decision of the close t: it is written down as it was made, and the close goes on to the stop or is over. */
  ghost predicate Decides(s: State, s': State, t: Task, stop: bool, preview: bool)
    requires t in s.closers && s.closers[t].h in s.objects
  {
    var c, o := s.closers[t], s.objects[s.closers[t].h];
    |s'.books.decisions| == |s.books.decisions| + 1 && s'.books.decisions[..|s.books.decisions|] == s.books.decisions &&
    var d := Last(s'.books.decisions);
    d.h == c.h && d.resource == o.resource && d.stopMedia == c.stopMedia && d.force == c.force && d.ringCall == o.ringCall &&
    d.ringPreview == preview && d.stop == stop &&
    if stop then t in s'.closers && s'.closers[t].phase.Stopping?
    else t !in s'.closers && c.h in s'.books.places && s'.books.places[c.h].Finished?
  }

  lemma DecisionDecides(s: State, t: Task, last: bool, refreshed: bool)
    requires t in s.closers && s.closers[t].h in s.objects
    ensures
      var c, o := s.closers[t], s.objects[s.closers[t].h];
      Decides(s, MakeDecision(s, t, last, refreshed), t,
        ShouldStop(last, Ask(c.h, c.sid, c.stopMedia, c.force, c.origin), o.ringPreview, o.ringCall), o.ringPreview)
  {
    EndCloseKeepsDecisions(s, t);
    hide HasResource;
  }

  lemma CheckDecides(s: State, t: Task)
    requires Enabled(s, CheckLast(t))
    ensures
      var s', c, o := Apply(s, CheckLast(t)), s.closers[t], s.objects[s.closers[t].h];
      var a := Ask(c.h, c.sid, c.stopMedia, c.force, c.origin);
      if o.ringPreview then s'.books.decisions == s.books.decisions && t in s'.closers && s'.closers[t].phase.Refreshing?
      else Decides(s, s', t, ShouldStop(!HasResource(s.active, s.objects, o.resource), a, false, o.ringCall), false)
  {
    hide MakeDecision, HasResource, Decides;
    DecisionDecides(s, t, !HasResource(s.active, s.objects, s.objects[s.closers[t].h].resource), false);
  }

  /** Whether the session still rings when its close decides. */
  predicate Rings(before: bool, ringing: Ringing) { if ringing.RefreshFailed? then before else ringing.StillRinging? }

  lemma DecideDecides(s: State, t: Task, ringing: Ringing)
    requires Enabled(s, Decide(t, ringing))
    ensures
      var c, o := s.closers[t], s.objects[s.closers[t].h];
      var preview := Rings(o.ringPreview, ringing);
      Decides(s, Apply(s, Decide(t, ringing)), t,
        ShouldStop(c.phase.last, Ask(c.h, c.sid, c.stopMedia, c.force, c.origin), preview, o.ringCall), preview)
  {
    var m := Refreshed(s, s.closers[t].h, ringing);
    DecisionDecides(m, t, s.closers[t].phase.last, true);
    hide MakeDecision;
  }

  // ---------------------------------------------------------------- every decision of a run

  /** In every run, at the check of a close: unless its session is a ring preview, which is refreshed first, the close
      goes on to stop the media exactly when no other session of the resource is registered, the event that began it
      asked for the stop, and it forced it or the session is no ring call; otherwise the close is over. */
  lemma ChecksAsAsked(es: seq<Event>, t: Task)
    requires Possible(INITIAL, es) && Enabled(Run(INITIAL, es), CheckLast(t))
    ensures t in AsksIn(INITIAL, es, map[])
    ensures
      var s, a := Run(INITIAL, es), AsksIn(INITIAL, es, map[])[t];
      var s', o := Apply(s, CheckLast(t)), s.objects[s.closers[t].h];
      s.closers[t].h == a.h && (t in s'.closers && s'.closers[t].phase.Refreshing? <==> o.ringPreview) &&
      (t in s'.closers && s'.closers[t].phase.Stopping? <==>
        !o.ringPreview && !HasResource(s.active, s.objects, o.resource) && a.stop && (a.force || !o.ringCall)) &&
      (t in s'.closers ==> s'.closers[t].phase.Refreshing? || s'.closers[t].phase.Stopping?)
  {
    var s := Run(INITIAL, es);
    ClosesRemember(es, t);
    CheckDecides(s, t);
    CheckKeepsAsks(s, t);
    hide Run, AsksIn, Possible, HasResource, DoCheckLast;
  }

  /** The same at the decision after a refresh: it goes by the earlier check and by what the refresh found. */
  lemma DecidesAsAsked(es: seq<Event>, t: Task, ringing: Ringing)
    requires Possible(INITIAL, es) && Enabled(Run(INITIAL, es), Decide(t, ringing))
    ensures t in AsksIn(INITIAL, es, map[])
    ensures
      var s, a := Run(INITIAL, es), AsksIn(INITIAL, es, map[])[t];
      var s', o := Apply(s, Decide(t, ringing)), s.objects[s.closers[t].h];
      s.closers[t].h == a.h &&
      (t in s'.closers <==>
        s.closers[t].phase.last && a.stop && (a.force || (!Rings(o.ringPreview, ringing) && !o.ringCall))) &&
      (t in s'.closers ==> s'.closers[t].phase.Stopping?)
  {
    var s := Run(INITIAL, es);
    ClosesRemember(es, t);
    DecideDecides(s, t, ringing);
    hide Run, AsksIn, Possible, DoDecide;
  }

  // ---------------------------------------------------------------- closes that all ask for the stop

  /** Every close of the resource that the run begins is asked to stop the media. */
  ghost predicate AskToStop(s: State, es: seq<Event>, resource: string)
    requires Possible(s, es)
    decreases |es|
  {
    es == [] ||
    ((forall t :: (t in AskOf(s, es[0]) && AskOf(s, es[0])[t].h in s.objects &&
        s.objects[AskOf(s, es[0])[t].h].resource == resource) ==> AskOf(s, es[0])[t].stop) &&
     AskToStop(Apply(s, es[0]), es[1..], resource))
  }

  /** No session of the resource is registered as a ring. */
  predicate NoRingRegisters(es: seq<Event>, resource: string) {
    forall e :: e in es && e.Register? && e.resource == resource ==> !e.ringCall && !e.ringPreview
  }

  ghost predicate NoRing(s: State, resource: string) {
    (forall h :: h in s.objects && s.objects[h].resource == resource ==> !s.objects[h].ringCall && !s.objects[h].ringPreview) &&
    forall t :: t in s.closers && s.closers[t].phase.Refreshing? && s.closers[t].h in s.objects ==>
      s.objects[s.closers[t].h].resource != resource
  }

  ghost predicate AllStop(s: State, resource: string) {
    forall t :: t in s.closers && s.closers[t].h in s.objects && s.objects[s.closers[t].h].resource == resource ==>
      s.closers[t].stopMedia
  }

  lemma StepKeepsNoRing(s: State, e: Event, resource: string)
    requires Inv(s) && Enabled(s, e) && NoRing(s, resource) && NoRingRegisters([e], resource)
    ensures NoRing(Apply(s, e), resource)
  {
    hide Inv, Apply, AskOf;
    assert e in [e];
    ClosesAsAsked(s, e);
    SessionsKeepTheirSort(s, e);
    ClosersAreKnown(s);
    var s' := Apply(s, e);
    forall h | h in s'.objects && s'.objects[h].resource == resource ensures !s'.objects[h].ringCall && !s'.objects[h].ringPreview {
      SortHasNoRing(s, e, s', resource, h);
    }
    forall t | t in s'.closers && s'.closers[t].phase.Refreshing? && s'.closers[t].h in s'.objects
      ensures s'.objects[s'.closers[t].h].resource != resource
    {
      RefreshHasOtherResource(s, e, s', resource, t);
    }
  }

  lemma SortHasNoRing(s: State, e: Event, s': State, resource: string, h: Handle)
    requires Enabled(s, e) && NoRing(s, resource) && SortsKept(s, e, s') && h in s'.objects && s'.objects[h].resource == resource
    requires e.Register? && e.resource == resource ==> !e.ringCall && !e.ringPreview
    requires e.Decide? ==> s.closers[e.t].h in s.objects
    ensures !s'.objects[h].ringCall && !s'.objects[h].ringPreview
  {
    hide AskOf, HasResource;
    if h in s.objects { assert SameSort(s.objects[h], s'.objects[h]); }
  }

  lemma RefreshHasOtherResource(s: State, e: Event, s': State, resource: string, t: Task)
    requires Enabled(s, e) && NoRing(s, resource) && SortsKept(s, e, s') && AsAsked(s, e, s')
    requires t in s'.closers && s'.closers[t].phase.Refreshing? && s'.closers[t].h in s'.objects
    requires t in s.closers ==> s.closers[t].h in s.objects
    ensures s'.objects[s'.closers[t].h].resource != resource
  {
    hide AskOf, HasResource;
    assert t in s.closers && s'.closers[t].h == s.closers[t].h && s'.closers[t].phase == PhaseAfter(s, e, t);
    assert SameSort(s.objects[s.closers[t].h], s'.objects[s.closers[t].h]);
  }

  lemma ClosersAreKnown(s: State)
    requires Inv(s)
    ensures forall t :: t in s.closers ==> s.closers[t].h in s.objects
  {
    forall t | t in s.closers ensures s.closers[t].h in s.objects { assert CloserKnown(s, t); }
  }

  /** A new decision of the resource records a stop that was asked for, and no ring. */
  lemma NewDecision(s: State, e: Event, resource: string)
    requires Inv(s) && Enabled(s, e) && NoRing(s, resource) && AllStop(s, resource)
    ensures
      var was, now := s.books.decisions, Apply(s, e).books.decisions;
      |was| <= |now| && now[..|was|] == was &&
      forall i :: |was| <= i < |now| && now[i].resource == resource ==>
        now[i].stopMedia && !now[i].ringPreview && !now[i].ringCall
  {
    ClosersAreKnown(s);
    if e.CheckLast? || e.Decide? { DecisionAsks(s, e, resource); } else { StepGrowsDecisions(s, e); }
    hide Inv, Apply;
  }

  lemma DecisionAsks(s: State, e: Event, resource: string)
    requires Enabled(s, e) && (e.CheckLast? || e.Decide?) && NoRing(s, resource) && AllStop(s, resource)
    ensures
      var was, now := s.books.decisions, Apply(s, e).books.decisions;
      |was| <= |now| && now[..|was|] == was &&
      forall i :: |was| <= i < |now| && now[i].resource == resource ==>
        now[i].stopMedia && !now[i].ringPreview && !now[i].ringCall
  {
    hide Apply, HasResource, AskOf;
    if e.CheckLast? { CheckDecides(s, e.t); } else { DecideDecides(s, e.t, e.ringing); }
  }

  lemma StepKeepsAllStop(s: State, e: Event, resource: string)
    requires Inv(s) && Enabled(s, e) && AllStop(s, resource)
    requires forall t :: t in AskOf(s, e) && AskOf(s, e)[t].h in s.objects && s.objects[AskOf(s, e)[t].h].resource == resource ==>
      AskOf(s, e)[t].stop
    ensures AllStop(Apply(s, e), resource)
  {
    ClosesAsAsked(s, e);
    SessionsKeepTheirSort(s, e);
    AsksAreKnown(s, e);
    ClosersAreKnown(s);
    hide Inv, Apply, AskOf;
  }

  lemma AsksAreKnown(s: State, e: Event)
    requires Inv(s) && Enabled(s, e)
    ensures forall t :: t in AskOf(s, e) ==> AskOf(s, e)[t].h in s.objects
  {
    forall t | t in AskOf(s, e) ensures AskOf(s, e)[t].h in s.objects {
      if AskOf(s, e)[t].sid in s.active { assert ActiveKnown(s, AskOf(s, e)[t].sid); }
      if e.OfferCancel? && s.offers[e.sid].Failing? { assert CloserKnown(s, s.offers[e.sid].t); }
    }
  }

  lemma {:induction false} RunDecisions(s: State, es: seq<Event>, resource: string)
    requires Inv(s) && Possible(s, es) && NoRing(s, resource) && AllStop(s, resource)
    requires AskToStop(s, es, resource) && NoRingRegisters(es, resource)
    ensures
      var was, now := s.books.decisions, Run(s, es).books.decisions;
      |was| <= |now| && now[..|was|] == was &&
      forall i :: |was| <= i < |now| && now[i].resource == resource ==>
        now[i].stopMedia && !now[i].ringPreview && !now[i].ringCall
    decreases |es|
  {
    hide Inv, Apply, NoRing, AllStop, AskOf;
    if es != [] {
      assert NoRingRegisters([es[0]], resource) by { assert es[0] in es; }
      assert NoRingRegisters(es[1..], resource) by { assert forall e :: e in es[1..] ==> e in es; }
      StepKeepsInv(s, es[0]);
      StepKeepsNoRing(s, es[0], resource);
      StepKeepsAllStop(s, es[0], resource);
      NewDecision(s, es[0], resource);
      RunDecisions(Apply(s, es[0]), es[1..], resource);
    }
  }

  lemma {:induction false} RunKeepsNoRing(s: State, es: seq<Event>, resource: string)
    requires Inv(s) && Possible(s, es) && NoRing(s, resource) && NoRingRegisters(es, resource)
    ensures Inv(Run(s, es)) && NoRing(Run(s, es), resource)
    decreases |es|
  {
    hide Inv, Apply, NoRing;
    if es != [] {
      assert NoRingRegisters([es[0]], resource) by { assert es[0] in es; }
      assert NoRingRegisters(es[1..], resource) by { assert forall e :: e in es[1..] ==> e in es; }
      StepKeepsInv(s, es[0]);
      StepKeepsNoRing(s, es[0], resource);
      RunKeepsNoRing(Apply(s, es[0]), es[1..], resource);
    }
  }

  /** Any number of closes of sessions sharing a resource, in any interleaving with each other and with everything else
      the camera does: the resource has been registered, is no longer, and no close of it is undecided. Then, if no
      session of it was registered as a ring, and every close of it, pending then or begun since, was asked to stop the
      media, some close since then has decided to stop it. The only way out is a session lost to id reuse since. */
  lemma SomeCloseStopsTheMedia(es0: seq<Event>, es: seq<Event>, resource: string)
    requires Possible(INITIAL, es0) && Possible(Run(INITIAL, es0), es)
    requires NoRingRegisters(es0, resource) && NoRingRegisters(es, resource)
    requires
      var s, asks := Run(INITIAL, es0), AsksIn(INITIAL, es0, map[]);
      var s' := Run(s, es);
      HasResource(s.active, s.objects, resource) && !OwedSomewhere(s', resource) &&
      !SomeLostSince(s', resource, AllLost(s)) && AskToStop(s, es, resource) &&
      forall t :: t in s.closers && t in asks && asks[t].h in s.objects && s.objects[asks[t].h].resource == resource ==>
        asks[t].stop
    ensures
      var s := Run(INITIAL, es0);
      var s' := Run(s, es);
      exists i :: |s.books.decisions| <= i < |s'.books.decisions| &&
        s'.books.decisions[i].resource == resource && s'.books.decisions[i].stop
  {
    var s := Run(INITIAL, es0);
    InitialInv();
    RunKeepsNoRing(INITIAL, es0, resource);
    forall t | t in s.closers && s.closers[t].h in s.objects && s.objects[s.closers[t].h].resource == resource
      ensures s.closers[t].stopMedia
    {
      ClosesRemember(es0, t);
    }
    hide Inv, AllLost, OwedSomewhere, NoRing, AskOf, AsksIn;
    RunDecisions(s, es, resource);
    SomeAskingCloseStops(es0, es, resource);
  }
}

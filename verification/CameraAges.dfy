/** The order of the pre-session buffers: by the arrival of their first candidates, so that the buffer evicted to make
    room is always the one that has waited longest. */
module CameraAges {
  import opened CameraState
  import opened CameraInvariants
  import opened CameraIce

  predicate Started(b: Buffers, x: Sid) { x in b.table && b.table[x] != [] }

  /** The first candidate of a buffer. */
  function First(b: Buffers, x: Sid): Stamp { if Started(b, x) then b.table[x][0] else 0 }

  /** No buffer is empty, and each began before those after it. */
  ghost predicate Aged(b: Buffers) {
    (forall i :: 0 <= i < |b.order| ==> Started(b, b.order[i])) &&
    forall i, j :: 0 <= i < j < |b.order| ==> First(b, b.order[i]) < First(b, b.order[j])
  }

  predicate Distinct(order: seq<Sid>) { forall j, k :: 0 <= j < k < |order| ==> order[j] != order[k] }

  lemma TailIsDistinct(order: seq<Sid>)
    requires order != [] && Distinct(order)
    ensures Distinct(order[1..]) && order[0] !in order[1..]
  {
  }

  /** Taking an id out of the order leaves the others in their order. */
  lemma {:induction false} WithoutExactly(order: seq<Sid>, i: nat)
    requires i < |order| && Distinct(order)
    ensures Without(order, order[i]) == order[..i] + order[i + 1..]
    decreases |order|
  {
    hide Distinct;
    TailIsDistinct(order);
    if i == 0 {
      NothingToTake(order[1..], order[0]);
    } else {
      var rest := order[1..];
      WithoutExactly(rest, i - 1);
      assert rest[i - 1] == order[i] && rest[i - 1] in rest;
      assert order[..i] == [order[0]] + rest[..i - 1] && rest[i..] == order[i + 1..];
    }
  }

  lemma {:induction false} NothingToTake(order: seq<Sid>, x: Sid)
    requires x !in order
    ensures Without(order, x) == order
    decreases |order|
  {
    if order != [] { NothingToTake(order[1..], x); }
  }

  lemma PopKeepsAged(b: Buffers, x: Sid)
    requires OrderKnown(b) && Aged(b)
    ensures Aged(Pop(b, x))
  {
    if x in b.table {
      var i :| 0 <= i < |b.order| && b.order[i] == x;
      WithoutExactly(b.order, i);
      hide Without, Aged;
      RestIsAged(b, i);
    }
  }

  lemma RestIsAged(b: Buffers, i: nat)
    requires OrderKnown(b) && Aged(b) && i < |b.order|
    ensures Aged(Buffers(b.order[..i] + b.order[i + 1..], b.table - {b.order[i]}))
  {
    var b' := Buffers(b.order[..i] + b.order[i + 1..], b.table - {b.order[i]});
    hide First, Started;
    forall j | 0 <= j < |b'.order|
      ensures b'.order[j] == b.order[Skip(i, j)] && First(b', b'.order[j]) == First(b, b'.order[j]) && Started(b', b'.order[j])
    {
      PlaceOf(b.order, i, j);
      assert Started(b, b.order[Skip(i, j)]);
      StartedStays(b, b'.order, b.order[i], b'.order[j]);
    }
    forall j, k | 0 <= j < k < |b'.order| ensures First(b', b'.order[j]) < First(b', b'.order[k]) {
      assert b'.order[j] == b.order[Skip(i, j)] && b'.order[k] == b.order[Skip(i, k)];
    }
  }

  lemma PlaceOf(order: seq<Sid>, i: nat, j: nat)
    requires i < |order| && j < |order| - 1
    ensures (order[..i] + order[i + 1..])[j] == order[Skip(i, j)]
  {
  }

  lemma StartedStays(b: Buffers, order: seq<Sid>, x: Sid, y: Sid)
    requires y != x && Started(b, y)
    ensures Started(Buffers(order, b.table - {x}), y) && First(Buffers(order, b.table - {x}), y) == First(b, y)
  {
  }

  /** The place in the whole order of the jth without the ith. */
  function Skip(i: nat, j: nat): nat { if j < i then j else j + 1 }

  /** A candidate newer than all others goes to the end of its buffer, or begins the last one. */
  lemma StoredKeepsAged(s: State, sid: Sid, c: Stamp)
    requires OrderKnown(s.candidates) && Aged(s.candidates)
    requires forall x, d :: x in s.candidates.table && d in s.candidates.table[x] ==> d < c
    ensures Aged(StoreBeforeSession(s, sid, c).candidates)
  {
    hide StoreBeforeSession, OrderKnown;
    var b, b' := s.candidates, StoreBeforeSession(s, sid, c).candidates;
    StoredLast(s, sid, c);
    forall i | 0 <= i < |b.order|
      ensures b'.order[i] == b.order[i] && Started(b', b.order[i]) && First(b', b.order[i]) == First(b, b.order[i])
      ensures First(b, b.order[i]) < c
    {
      assert Started(b, b.order[i]);
      assert b.table[b.order[i]][0] in b.table[b.order[i]];
      StoredFirst(s, sid, c, b.order[i]);
    }
    hide First, Started;
  }

  lemma StoredFirst(s: State, sid: Sid, c: Stamp, x: Sid)
    requires Started(s.candidates, x)
    ensures var b' := StoreBeforeSession(s, sid, c).candidates; Started(b', x) && First(b', x) == First(s.candidates, x)
  {
  }

  lemma StoredLast(s: State, sid: Sid, c: Stamp)
    ensures var b, b' := s.candidates, StoreBeforeSession(s, sid, c).candidates;
      if sid in b.table then b'.order == b.order
      else b'.order == b.order + [sid] && Started(b', sid) && First(b', sid) == c
  {
  }

  lemma CandidateKeepsAged(s: State, sid: Sid)
    requires IceInv(s) && Aged(s.candidates)
    ensures Aged(DoCandidate(s, sid).candidates)
  {
    var c, m := s.ice.arrived, Arrive(s);
    BuffersAreOlder(s);
    assert m.candidates == s.candidates;
    if !s.closing && !(sid in s.active && s.active[sid] in s.objects) {
      if sid in s.candidates.table {
        hide IceInv;
        StoredKeepsAged(m, sid, c);
      } else {
        EvictKeepsAged(m, c);
        hide IceInv;
        StoredKeepsAged(Evict(m), sid, c);
      }
    } else if !s.closing { SessionKeepsBuffers(m, s.active[sid], c); }
    hide IceInv, StoreInSession, StoreBeforeSession, Evict;
  }

  lemma SessionKeepsBuffers(s: State, h: Handle, c: Stamp)
    requires h in s.objects
    ensures StoreInSession(s, h, c).candidates == s.candidates
  {
  }

  lemma BuffersAreOlder(s: State)
    requires IceInv(s)
    ensures OrderKnown(s.candidates)
    ensures forall x, d :: x in s.candidates.table && d in s.candidates.table[x] ==> d < s.ice.arrived
  {
    forall x, d | x in s.candidates.table && d in s.candidates.table[x] ensures d < s.ice.arrived { assert BufferKnown(s, x); }
    hide BufferKnown;
  }

  lemma EvictKeepsAged(s: State, c: Stamp)
    requires OrderKnown(s.candidates) && Aged(s.candidates)
    requires forall x, d :: x in s.candidates.table && d in s.candidates.table[x] ==> d < c
    ensures OrderKnown(Evict(s).candidates) && Aged(Evict(s).candidates)
    ensures forall x, d :: x in Evict(s).candidates.table && d in Evict(s).candidates.table[x] ==> d < c
  {
    if |s.candidates.order| >= 16 {
      PopKeepsOrder(s.candidates, s.candidates.order[0]);
      PopKeepsAged(s.candidates, s.candidates.order[0]);
    }
    hide Relocate, Without, Aged, OrderKnown;
  }

  // ---------------------------------------------------------------- every block

  /** A block throws away at most one buffer. */
  ghost predicate PopsOne(b: Buffers, b': Buffers) { b' == b || exists x :: b' == Pop(b, x) }

  lemma BlocksPopOne(s: State, t: Task, sid: Sid, stop: bool, force: bool, origin: Origin)
    ensures PopsOne(s.candidates, BeginClose(s, t, sid, stop, force, origin).candidates)
    ensures PopsOne(s.candidates, Discard(s, sid).candidates)
    ensures t in s.closers ==> PutBack(s, t).candidates == s.candidates && EndClose(s, t).candidates == s.candidates
  {
    assert Discard(s, sid).candidates == Pop(s.candidates, sid);
    assert BeginClose(s, t, sid, stop, force, origin).candidates == Pop(s.candidates, sid);
    hide Pop, Relocate, HeldFor;
  }

  lemma HandlerPopsOne(s: State, sid: Sid, stop: bool, t: Task)
    ensures PopsOne(s.candidates, CancelHandler(s, sid, stop, t).candidates)
    ensures PopsOne(s.candidates, HandleFailure(s, sid, stop, t).candidates)
  {
    BlocksPopOne(s, t, sid, stop, false, OfOffer(sid));
    hide BeginClose, Discard, PopsOne;
  }

  lemma CancelPopsOne(s: State, sid: Sid, stop: bool, t: Task)
    requires Enabled(s, OfferCancel(sid, stop, t))
    ensures PopsOne(s.candidates, DoOfferCancel(s, sid, stop, t).candidates)
  {
    hide PutBack, CancelHandler;
    HandlerPopsOne(s, sid, stop, t);
    if InnerTask(s.offers[sid]).Some? {
      var t0 := InnerTask(s.offers[sid]).t;
      BlocksPopOne(s, t0, sid, stop, false, OfOffer(sid));
      HandlerPopsOne(PutBack(s, t0).(offers := s.offers - {sid}), sid, stop, t);
    }
  }

  lemma BeginPopsOne(s: State, e: Event)
    requires Enabled(s, e)
    requires e.OfferBegin? || e.OfferReturned? || e.OfferFail? || e.CloseBegin? || e.RemoveNext? || e.Register?
    ensures PopsOne(s.candidates, Apply(s, e).candidates)
  {
    hide BeginClose, Pop, Relocate, HeldFor;
    match e
    case OfferBegin(sid, t) => BlocksPopOne(s, t, sid, true, false, OfOffer(sid));
    case OfferReturned(sid, _, stop, t) => BlocksPopOne(s, t, sid, stop, false, OfOffer(sid));
    case OfferFail(sid, stop, t) => BlocksPopOne(s, t, sid, stop, false, OfOffer(sid));
    case CloseBegin(t, sid, stop, origin) => BlocksPopOne(s, t, sid, stop, false, origin);
    case RemoveNext(t, current) =>
      BlocksPopOne(s.(removal := Removing(s.removal.queue[1..])), t, s.removal.queue[0], current, current, OfRemoval);
    case Register(sid, _, _, _, _, _) => assert Apply(s, e).candidates == Pop(s.candidates, sid);
  }

  lemma CheckPopsNone(s: State, e: Event)
    requires Enabled(s, e) && (e.CheckLast? || e.Decide?)
    ensures Apply(s, e).candidates == s.candidates
  {
    hide MakeDecision, HasResource;
    var c := s.closers[e.t];
    match e
    case CheckLast(t) => DecisionPopsNone(s, t, !HasResource(s.active, s.objects, s.objects[c.h].resource), false);
    case Decide(t, ringing) => DecisionPopsNone(Refreshed(s, c.h, ringing), t, c.phase.last, true);
  }

  lemma DecisionPopsNone(s: State, t: Task, last: bool, refreshed: bool)
    requires t in s.closers && s.closers[t].h in s.objects
    ensures MakeDecision(s, t, last, refreshed).candidates == s.candidates
  {
    DecisionOutline(s, t, last, refreshed);
    hide MakeDecision;
  }

  lemma PlainPopsNone(s: State, e: Event)
    requires Enabled(s, e)
    requires
      e.FlushStep? || e.OfferEnd? || e.ProviderClosed? || e.StopDone? || e.CloseCancel? || e.HomeCallEnded? || e.RemoveBegin? ||
      e.RemoveFinish?
    ensures Apply(s, e).candidates == s.candidates
  {
    hide BeginClose, MakeDecision, DoCandidate, DoRemoveNext, DoOfferReturned, DoOfferCancel, HandleFailure, BeginOffer,
      MarkInactive, DoCheckLast, DoDecide, DoDrained;
  }

  lemma StepPopsOne(s: State, e: Event)
    requires Enabled(s, e) && !e.Candidate? && !e.RemoveDrained?
    ensures PopsOne(s.candidates, Apply(s, e).candidates)
  {
    hide PopsOne;
    if e.OfferCancel? { CancelPopsOne(s, e.sid, e.stop, e.t); hide DoOfferCancel; }
    else if e.CheckLast? || e.Decide? { CheckPopsNone(s, e); SameIsOne(s.candidates); hide Apply; }
    else if e.OfferBegin? || e.OfferReturned? || e.OfferFail? || e.CloseBegin? || e.RemoveNext? || e.Register? {
      BeginPopsOne(s, e);
      hide Apply;
    } else {
      PlainPopsNone(s, e);
      SameIsOne(s.candidates);
      hide Apply;
    }
  }

  lemma SameIsOne(b: Buffers)
    ensures PopsOne(b, b)
  {
  }

  lemma StepKeepsAged(s: State, e: Event)
    requires IceInv(s) && Enabled(s, e) && Aged(s.candidates)
    ensures Aged(Apply(s, e).candidates)
  {
    hide Aged, IceInv, DoCandidate, DoDrained, OrderKnown;
    if e.Candidate? { CandidateKeepsAged(s, e.sid); }
    else if e.RemoveDrained? { DrainedIsAged(s); }
    else {
      BuffersAreOlder(s);
      StepPopsOne(s, e);
      hide Apply;
      PoppedKeepsAged(s.candidates, Apply(s, e).candidates);
    }
  }

  lemma DrainedIsAged(s: State)
    ensures Aged(DoDrained(s).candidates)
  {
  }

  lemma PoppedKeepsAged(b: Buffers, b': Buffers)
    requires OrderKnown(b) && Aged(b) && PopsOne(b, b')
    ensures Aged(b')
  {
    hide Aged, OrderKnown, Pop;
    if b' != b {
      var x :| b' == Pop(b, x);
      PopKeepsAged(b, x);
    }
  }

  lemma {:induction false} RunKeepsAged(s: State, es: seq<Event>)
    requires IceInv(s) && Possible(s, es) && Aged(s.candidates)
    ensures IceInv(Run(s, es)) && Aged(Run(s, es).candidates)
    decreases |es|
  {
    hide IceInv, Apply, Aged;
    if es != [] {
      StepKeepsAged(s, es[0]);
      StepKeepsIce(s, es[0]);
      RunKeepsAged(Apply(s, es[0]), es[1..]);
    }
  }

  /** In every run, the buffer first in the order, which is the one evicted to make room, is the one whose first candidate
      arrived before those of all the others. */
  lemma OldestBufferGoesFirst(es: seq<Event>, x: Sid)
    requires Possible(INITIAL, es)
    ensures
      var b := Run(INITIAL, es).candidates;
      x in b.table && b.order != [] && x != b.order[0] ==>
        b.order[0] in b.table && b.table[b.order[0]] != [] && b.table[x] != [] && b.table[b.order[0]][0] < b.table[x][0]
  {
    assert IceInv(INITIAL);
    RunKeepsAged(INITIAL, es);
    var b := Run(INITIAL, es).candidates;
    BuffersAreOlder(Run(INITIAL, es));
    hide IceInv, Run, Possible;
    if x in b.table && b.order != [] && x != b.order[0] {
      var i :| 0 <= i < |b.order| && b.order[i] == x;
      assert Started(b, b.order[0]) && Started(b, b.order[i]) && First(b, b.order[0]) < First(b, b.order[i]);
    }
  }
}

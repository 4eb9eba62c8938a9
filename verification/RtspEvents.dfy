/** Waiting for agent events that may make the RTSP stream ready: a revision counter and a set of waiters. */
module RtspEvents {

  type Waiter = nat   // identity of a waiting coroutine and its future

  /** Pending: suspended. Woken: the future has its result. Expired: the timeout or a cancellation ended the
      wait. A woken or expired coroutine has yet to run and leave. */
  datatype Status = Pending | Woken | Expired

  datatype Wait = Wait(captured: nat, status: Status)

  /** `waits` holds every coroutine inside `_async_wait_for_rtsp_event`. */
  datatype State = State(revision: nat, waiters: set<Waiter>, waits: map<Waiter, Wait>)

  const INITIAL := State(0, {}, map[])

  datatype Event =
    | Begins(w: Waiter, captured: nat, waitPositive: bool)   // with a revision read at or before this moment
    | Expires(w: Waiter)
    | Resumes(w: Waiter)
    | AgentEvent

  predicate Enabled(s: State, e: Event) {
    match e
    case Begins(w, captured, _) => w !in s.waits && captured <= s.revision
    case Expires(w) => w in s.waits && s.waits[w].status.Pending?
    case Resumes(w) => w in s.waits && !s.waits[w].status.Pending?
    case AgentEvent => true
  }

  predicate Suspends(s: State, captured: nat, waitPositive: bool) { waitPositive && captured == s.revision }

  function AfterBegin(s: State, w: Waiter, captured: nat, waitPositive: bool): State {
    if Suspends(s, captured, waitPositive) then
      s.(waiters := s.waiters + {w}, waits := s.waits[w := Wait(captured, Pending)])
    else s
  }

  /** The waiters that were in the set are woken; the others keep their status. */
  function AfterWake(s: State): State {
    State(s.revision + 1, {},
      map w | w in s.waits ::
        if w in s.waiters && s.waits[w].status.Pending? then s.waits[w].(status := Woken) else s.waits[w])
  }

  function Apply(s: State, e: Event): State
    requires Enabled(s, e)
  {
    match e
    case Begins(w, captured, waitPositive) => AfterBegin(s, w, captured, waitPositive)
    case Expires(w) => s.(waits := s.waits[w := s.waits[w].(status := Expired)])
    case Resumes(w) => s.(waiters := s.waiters - {w}, waits := s.waits - {w})
    case AgentEvent => AfterWake(s)
  }

  class Revisions {
    var revision: nat
    var waiters: set<Waiter>
    ghost var waits: map<Waiter, Wait>

    ghost function Now(): State
      reads this
    {
      State(revision, waiters, waits)
    }

    constructor ()
      ensures Now() == INITIAL
    {
      revision, waiters, waits := 0, {}, map[];
    }

    /** `_async_wait_for_rtsp_event` up to its await; returns whether the coroutine is now suspended. */
    method BeginWait(w: Waiter, captured: nat, waitPositive: bool) returns (suspended: bool)
      requires Enabled(Now(), Begins(w, captured, waitPositive))
      modifies this
      ensures Now() == Apply(old(Now()), Begins(w, captured, waitPositive))
      ensures suspended <==> w in waits
    {
      suspended := false;
      if !waitPositive || revision != captured { return; }
      waiters := waiters + {w};
      waits := waits[w := Wait(captured, Pending)];
      suspended := true;
    }

    /** The coroutine runs again and leaves through its finally block. */
    method Resume(w: Waiter)
      requires Enabled(Now(), Resumes(w))
      modifies this
      ensures Now() == Apply(old(Now()), Resumes(w))
    {
      waiters := waiters - {w};
      waits := waits - {w};
    }

    /** `_wake_rtsp_event_waiters` */
    method Wake()
      modifies this
      ensures Now() == Apply(old(Now()), AgentEvent)
    {
      ghost var before := waits;
      revision := revision + 1;
      var rest := waiters;
      ghost var all := waiters;
      waiters := {};
      while rest != {}
        invariant rest <= all && waiters == {} && revision == old(revision) + 1
        invariant waits == map w | w in before ::
          if w in all && w !in rest && before[w].status.Pending? then before[w].(status := Woken) else before[w]
        decreases rest
      {
        var w :| w in rest;
        if w in waits && waits[w].status.Pending? { waits := waits[w := waits[w].(status := Woken)]; }
        rest := rest - {w};
      }
    }
  }

  // ---------------------------------------------------------------- no lost wake-up

  /** A suspended coroutine captured the current revision and is in the set that the next event wakes. */
  ghost predicate Inv(s: State) {
    s.waiters <= s.waits.Keys &&
    forall w :: w in s.waits && s.waits[w].status.Pending? ==> w in s.waiters && s.waits[w].captured == s.revision
  }

  lemma StepKeepsInv(s: State, e: Event)
    requires Inv(s) && Enabled(s, e)
    ensures Inv(Apply(s, e))
    ensures Apply(s, e).revision == s.revision + if e.AgentEvent? then 1 else 0
  {
  }

  predicate Possible(s: State, events: seq<Event>)
    decreases |events|
  {
    events == [] || (Enabled(s, events[0]) && Possible(Apply(s, events[0]), events[1..]))
  }

  function Run(s: State, events: seq<Event>): State
    requires Possible(s, events)
    decreases |events|
  {
    if events == [] then s else Run(Apply(s, events[0]), events[1..])
  }

  function AgentEvents(events: seq<Event>): nat
    decreases |events|
  {
    if events == [] then 0 else (if events[0].AgentEvent? then 1 else 0) + AgentEvents(events[1..])
  }

  lemma {:induction false} RunKeepsInv(s: State, events: seq<Event>)
    requires Inv(s) && Possible(s, events)
    ensures Inv(Run(s, events)) && Run(s, events).revision == s.revision + AgentEvents(events)
    decreases |events|
  {
    if events == [] {
    } else {
      StepKeepsInv(s, events[0]);
      RunKeepsInv(Apply(s, events[0]), events[1..]);
    }
  }

  /** Whatever waits, timeouts, resumptions and events interleave, the revision counts the agent events, and a
      coroutine that is still suspended captured the revision after the last of them: no event came since. */
  lemma SuspendedMeansNoEventSince(events: seq<Event>, w: Waiter)
    requires Possible(INITIAL, events)
    ensures var s := Run(INITIAL, events);
      s.revision == AgentEvents(events) &&
      (w in s.waits && s.waits[w].status.Pending? ==> s.waits[w].captured == AgentEvents(events))
  {
    RunKeepsInv(INITIAL, events);
  }

  /** An agent event ends every suspension there is. */
  lemma AnEventWakesEveryone(events: seq<Event>, w: Waiter)
    requires Possible(INITIAL, events)
    ensures var s := Apply(Run(INITIAL, events), AgentEvent); w in s.waits ==> !s.waits[w].status.Pending?
  {
    RunKeepsInv(INITIAL, events);
  }

  // ---------------------------------------------------------------- what every block does to one coroutine

  /** The state of one coroutine after a block: it is suspended by its own wait alone, woken by an event or expired
      while it is pending, and gone when it has run again. */
  predicate WaitMoves(s: State, e: Event, s': State, w: Waiter)
    requires Enabled(s, e)
  {
    match e
    case Begins(v, captured, positive) =>
      if v != w then Lives(s, s', w)
      else (w in s'.waits <==> positive && captured == s.revision) && (w in s'.waits ==> s'.waits[w] == Wait(captured, Pending))
    case Expires(v) => if v != w then Lives(s, s', w) else w in s'.waits && s'.waits[w] == Wait(s.waits[w].captured, Expired)
    case Resumes(v) => if v != w then Lives(s, s', w) else w !in s'.waits && w !in s'.waiters
    case AgentEvent =>
      (w in s'.waits <==> w in s.waits) && s'.revision == s.revision + 1 &&
      (w in s.waits ==>
        s'.waits[w] == if s.waits[w].status.Pending? then Wait(s.waits[w].captured, Woken) else s.waits[w])
  }

  /** The coroutine is as it was. */
  predicate Lives(s: State, s': State, w: Waiter) {
    (w in s'.waits <==> w in s.waits) && (w in s.waits ==> s'.waits[w] == s.waits[w]) && (w in s'.waiters <==> w in s.waiters)
  }

  lemma WaitsExactly(s: State, e: Event, w: Waiter)
    requires Inv(s) && Enabled(s, e)
    ensures WaitMoves(s, e, Apply(s, e), w)
  {
  }

  /** After any run, a coroutine that begins to wait is suspended exactly when it may wait at all and no event has come
      since it read the revision. */
  lemma SuspendsExactly(events: seq<Event>, w: Waiter, captured: nat, positive: bool)
    requires Possible(INITIAL, events) && Enabled(Run(INITIAL, events), Begins(w, captured, positive))
    ensures
      var s := Apply(Run(INITIAL, events), Begins(w, captured, positive));
      (w in s.waits && s.waits[w].status.Pending? <==> positive && captured == AgentEvents(events)) &&
      (w in s.waits ==> w in s.waiters)
  {
    RunKeepsInv(INITIAL, events);
    WaitsExactly(Run(INITIAL, events), Begins(w, captured, positive), w);
  }
}

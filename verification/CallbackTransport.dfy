/** Reconciling the agent's callback transport with the configured one: configure, restart, re-read, ready. */
module CallbackTransport {

  /** A capability value as the code compares it, by identity with True or False. */
  datatype Flag = True | False | Other

  function ToFlag(b: bool): Flag { if b then True else False }

  datatype Caps = Caps(configurable: Flag, configured: Flag, active: Flag, available: Flag)

  datatype Reply<T> = Answer(value: T) | Failed

  /** What the agent would answer to each request of one call; Failed also covers a cancelled call. */
  datatype Replies = Replies(setup: Reply<Caps>, configure: Reply<Flag>, restart: Reply<()>)

  /** A request as the agent sees it, with the transport's cached configuration when it was made. */
  datatype Request =
    | ReadSetup
    | Configure(enabled: bool)
    | Restart(cached: Caps, accepted: bool)

  datatype Error = AgentError | Unsupported | NotConfirmed | AwaitingRestart | Unavailable | OverrideRequired

  datatype Outcome = Returned(changed: bool) | Raised(error: Error)

  datatype State = State(enabled: bool, caps: Caps, ready: bool, refresh: bool, restartRequested: bool, changed: bool)

  function Initial(enabled: bool, caps: Caps): State { State(enabled, caps, false, false, false, false) }

  datatype Step = Step(after: State, requests: seq<Request>, outcome: Outcome)

  /** Re-reads the capabilities when a mutation has been attempted. */
  function Refresh(t: State, replies: Replies): Step {
    if !t.refresh then Step(t, [], Returned(false))
    else if replies.setup.Failed? then Step(t, [ReadSetup], Raised(AgentError))
    else Step(t.(caps := replies.setup.value), [ReadSetup], Returned(false))
  }

  /** Writes the wanted mode unless the cached configuration already has it. */
  function WriteMode(t: State, replies: Replies): Step {
    if (t.caps.configured == True) == t.enabled then Step(t, [], Returned(false))
    else
      var t := t.(refresh := true);
      if replies.configure.Failed? then Step(t, [Configure(t.enabled)], Raised(AgentError))
      else if replies.configure.value != ToFlag(t.enabled) then Step(t, [Configure(t.enabled)], Raised(NotConfirmed))
      else Step(t.(caps := t.caps.(configured := ToFlag(t.enabled)), changed := true), [Configure(t.enabled)], Returned(false))
  }

  /** Asks for the restart the mode change needs, until one request has been accepted. */
  function RequestRestart(t: State, replies: Replies): Step {
    var t := t.(refresh := true, changed := true);
    if t.restartRequested then Step(t, [], Raised(AwaitingRestart))
    else if replies.restart.Failed? then Step(t, [Restart(t.caps, false)], Raised(AgentError))
    else Step(t.(restartRequested := true), [Restart(t.caps, true)], Raised(AwaitingRestart))
  }

  /** `_async_prepare` */
  function Reconcile(t: State, replies: Replies): Step {
    if t.ready then Step(t, [], Returned(false))
    else
      var r := Refresh(t, replies);
      if r.outcome.Raised? then r
      else if r.after.caps.configurable != True then
        if t.enabled then Step(r.after, r.requests, Raised(Unsupported))
        else Step(r.after.(ready := true), r.requests, Returned(false))
      else
        var active := r.after.caps.active == True;
        var w := WriteMode(r.after, replies);
        if w.outcome.Raised? then Step(w.after, r.requests + w.requests, w.outcome)
        else if active != t.enabled then
          var p := RequestRestart(w.after, replies);
          Step(p.after, r.requests + w.requests + p.requests, p.outcome)
        else if t.enabled && w.after.caps.available != True then Step(w.after, r.requests + w.requests, Raised(Unavailable))
        else Step(w.after.(ready := true), r.requests + w.requests, Returned(w.after.changed))
  }

  /** `async_prepare` */
  function Prepare(t: State, https: bool, replies: Replies): Step {
    var s := Reconcile(t, replies);
    if s.outcome.Raised? then s
    else if https && !t.enabled then s.(outcome := Raised(OverrideRequired))
    else s
  }

  class Transport {
    const enabled: bool
    var caps: Caps
    var ready: bool
    var refreshRequired: bool
    var restartRequested: bool
    var changed: bool

    ghost function Now(): State
      reads this
    {
      State(enabled, caps, ready, refreshRequired, restartRequested, changed)
    }

    constructor (enabled: bool, caps: Caps)
      ensures Now() == Initial(enabled, caps)
    {
      this.enabled, this.caps := enabled, caps;
      ready, refreshRequired, restartRequested, changed := false, false, false, false;
    }

    method AsyncPrepare(https: bool, replies: Replies) returns (outcome: Outcome, ghost requests: seq<Request>)
      modifies this
      ensures Step(Now(), requests, outcome) == Prepare(old(Now()), https, replies)
    {
      outcome, requests := ReconcileOnce(replies);
      if outcome.Returned? && https && !enabled { outcome := Raised(OverrideRequired); }
    }

    method ReconcileOnce(replies: Replies) returns (outcome: Outcome, ghost requests: seq<Request>)
      modifies this
      ensures Step(Now(), requests, outcome) == Reconcile(old(Now()), replies)
    {
      requests := [];
      if ready { return Returned(false), []; }
      if refreshRequired {
        requests := [ReadSetup];
        if replies.setup.Failed? { return Raised(AgentError), requests; }
        caps := replies.setup.value;
      }
      if caps.configurable != True {
        if enabled { return Raised(Unsupported), requests; }
        ready := true;
        return Returned(false), requests;
      }
      var configured, active := caps.configured == True, caps.active == True;
      if configured != enabled {
        refreshRequired := true;
        requests := requests + [Configure(enabled)];
        if replies.configure.Failed? { return Raised(AgentError), requests; }
        if replies.configure.value != ToFlag(enabled) { return Raised(NotConfirmed), requests; }
        caps := caps.(configured := ToFlag(enabled));
        changed := true;
      }
      if active != enabled {
        refreshRequired, changed := true, true;
        if !restartRequested {
          requests := requests + [Restart(caps, replies.restart.Answer?)];
          if replies.restart.Failed? { return Raised(AgentError), requests; }
          restartRequested := true;
        }
        return Raised(AwaitingRestart), requests;
      }
      if enabled && caps.available != True { return Raised(Unavailable), requests; }
      ready := true;
      return Returned(changed), requests;
    }
  }

  // ---------------------------------------------------------------- safety over every run

  datatype Call = Call(https: bool, replies: Replies)

  datatype Record = Record(before: State, step: Step)

  /** The records of a sequence of calls; the lock serialises them. */
  function Run(t: State, calls: seq<Call>): (records: seq<Record>)
    ensures |records| == |calls|
    decreases |calls|
  {
    if calls == [] then []
    else
      var s := Prepare(t, calls[0].https, calls[0].replies);
      [Record(t, s)] + Run(s.after, calls[1..])
  }

  predicate Settled(t: State) {
    if t.caps.configurable != True then !t.enabled
    else
      (t.caps.configured == True) == t.enabled &&
      (t.caps.active == True) == t.enabled &&
      (t.enabled ==> t.caps.available == True)
  }

  predicate Mutates(r: Request) { r.Configure? || r.Restart? }

  /** What holds between calls: readiness means the transport is settled. */
  predicate Good(t: State) { t.ready ==> Settled(t) }

  /** A request that may be made from `t` by a call that leaves `u` behind. */
  predicate Allowed(t: State, u: State, r: Request) {
    (Mutates(r) ==> u.refresh) &&
    (r.Configure? ==> r.enabled == t.enabled) &&
    (r.Restart? ==> !t.restartRequested && (r.cached.configured == True) == t.enabled) &&
    (r.Restart? && r.accepted ==> u.restartRequested)
  }

  predicate AllAllowed(t: State, u: State, rs: seq<Request>) { forall r :: r in rs ==> Allowed(t, u, r) }

  /** What no call takes back. */
  predicate Grows(t: State, u: State) {
    u.enabled == t.enabled && (t.refresh ==> u.refresh) && (t.restartRequested ==> u.restartRequested)
  }

  lemma RefreshIsSafe(t: State, replies: Replies)
    ensures var r := Refresh(t, replies);
      Grows(t, r.after) && AllAllowed(t, r.after, r.requests) && r.after.restartRequested == t.restartRequested &&
      r.after.ready == t.ready && (t.refresh ==> r.requests == [ReadSetup]) && r.outcome != Returned(true)
  {
  }

  lemma WriteIsSafe(t: State, replies: Replies)
    ensures var w := WriteMode(t, replies);
      Grows(t, w.after) && AllAllowed(t, w.after, w.requests) && w.after.restartRequested == t.restartRequested &&
      w.after.ready == t.ready && w.outcome != Returned(true) &&
      (w.outcome.Returned? ==>
        (w.after.caps.configured == True) == t.enabled &&
        w.after.caps == t.caps.(configured := w.after.caps.configured))
  {
  }

  lemma RestartIsSafe(t: State, replies: Replies)
    ensures var p := RequestRestart(t, replies);
      ((t.caps.configured == True) == t.enabled ==> AllAllowed(t, p.after, p.requests)) &&
      Grows(t, p.after) && p.after.ready == t.ready && p.outcome.Raised?
  {
  }

  lemma Join(t: State, u: State, v: State, rs: seq<Request>, qs: seq<Request>)
    requires AllAllowed(t, u, rs) && AllAllowed(u, v, qs) && Grows(t, u) && Grows(u, v)
    ensures AllAllowed(t, v, rs + qs) && Grows(t, v)
  {
  }

  /** One call: which requests it may make, in what state, and what it leaves behind. */
  lemma ReconcileStep(t: State, replies: Replies)
    requires Good(t)
    ensures
      var s := Reconcile(t, replies);
      Good(s.after) && Grows(t, s.after) && AllAllowed(t, s.after, s.requests) &&
      (t.ready ==> s == Step(t, [], Returned(false))) &&
      (!t.ready ==> (s.outcome.Returned? <==> s.after.ready)) &&
      (t.refresh && !t.ready ==> s.requests != [] && s.requests[0] == ReadSetup)
  {
    if !t.ready {
      RefreshIsSafe(t, replies);
      var r := Refresh(t, replies);
      if r.outcome.Returned? && r.after.caps.configurable == True {
        var w := WriteMode(r.after, replies);
        WriteIsSafe(r.after, replies);
        hide Refresh, WriteMode, RequestRestart, AllAllowed;
        Join(t, r.after, w.after, r.requests, w.requests);
        if w.outcome.Returned? && (r.after.caps.active == True) != t.enabled {
          var p := RequestRestart(w.after, replies);
          RestartIsSafe(w.after, replies);
          Join(t, w.after, p.after, r.requests + w.requests, p.requests);
        }
      }
    }
  }

  lemma CallIsSafe(t: State, https: bool, replies: Replies)
    requires Good(t)
    ensures
      var s := Prepare(t, https, replies);
      Good(s.after) && Grows(t, s.after) && AllAllowed(t, s.after, s.requests) &&
      (t.ready ==> s.requests == [] && s.after == t && s.outcome != Returned(true)) &&
      (s.outcome == Returned(true) ==> s.after.ready) &&
      (t.refresh && !t.ready ==> s.requests != [] && s.requests[0] == ReadSetup)
  {
    ReconcileStep(t, replies);
    hide Reconcile, AllAllowed, Settled;
  }

  /** What earlier calls leave for the later ones. */
  predicate After(first: Step, t: State) {
    (first.outcome == Returned(true) ==> t.ready) &&
    (forall r :: r in first.requests && Mutates(r) ==> t.refresh) &&
    (forall r :: r in first.requests && r.Restart? && r.accepted ==> t.restartRequested)
  }

  lemma {:induction false} EffectsLast(first: Step, t: State, calls: seq<Call>, j: nat)
    requires Good(t) && After(first, t) && j < |calls|
    ensures var r := Run(t, calls)[j]; Good(r.before) && After(first, r.before) && r.before.enabled == t.enabled
    ensures var r := Run(t, calls)[j]; r.step == Prepare(r.before, calls[j].https, calls[j].replies)
    decreases j
  {
    CallIsSafe(t, calls[0].https, calls[0].replies);
    hide Prepare, Settled, AllAllowed;
    if j > 0 {
      EffectsLast(first, Prepare(t, calls[0].https, calls[0].replies).after, calls[1..], j - 1);
    }
  }

  lemma {:induction false} RunFrom(t: State, calls: seq<Call>, i: nat)
    requires i < |calls|
    ensures var r := Run(t, calls)[i]; Run(t, calls)[i + 1..] == Run(r.step.after, calls[i + 1..])
    decreases i
  {
    hide Prepare;
    if i > 0 {
      var s := Prepare(t, calls[0].https, calls[0].replies);
      RunFrom(s.after, calls[1..], i - 1);
      assert Run(t, calls)[i + 1..] == Run(s.after, calls[1..])[i..];
      assert calls[1..][i..] == calls[i + 1..];
    }
  }

  /** Call `i` of a run, and what it leaves for call `j`. */
  lemma PairIsSafe(t: State, calls: seq<Call>, i: nat, j: nat)
    requires t == Initial(t.enabled, t.caps) && i < j < |calls|
    ensures var records := Run(t, calls);
      After(records[i].step, records[j].before) && AllAllowed(records[j].before, records[j].step.after, records[j].step.requests) &&
      (records[j].before.ready ==> records[j].step.outcome != Returned(true) && records[j].step.requests == []) &&
      (records[j].before.refresh && !records[j].before.ready ==>
        records[j].step.requests != [] && records[j].step.requests[0] == ReadSetup)
  {
    var records := Run(t, calls);
    SingleIsSafe(t, calls, i);
    SingleIsSafe(t, calls, j);
    RunFrom(t, calls, i);
    hide Prepare, Settled, Run;
    assert records[j] == Run(records[i].step.after, calls[i + 1..])[j - i - 1];
    EffectsLast(records[i].step, records[i].step.after, calls[i + 1..], j - i - 1);
  }

  lemma SingleIsSafe(t: State, calls: seq<Call>, i: nat)
    requires t == Initial(t.enabled, t.caps) && i < |calls|
    ensures var r := Run(t, calls)[i];
      Good(r.step.after) && After(r.step, r.step.after) && r.before.enabled == t.enabled &&
      AllAllowed(r.before, r.step.after, r.step.requests) &&
      (r.before.ready ==> r.step.outcome != Returned(true) && r.step.requests == []) &&
      (r.before.refresh && !r.before.ready ==> r.step.requests != [] && r.step.requests[0] == ReadSetup)
  {
    EffectsLast(Step(t, [], Returned(false)), t, calls, i);
    var r := Run(t, calls)[i];
    CallIsSafe(r.before, calls[i].https, calls[i].replies);
    hide Prepare, Settled, Run;
  }

  /** Over every sequence of calls and agent failures: a call ends ready only when the transport is settled, and
      every restart request comes when the cached configuration is the wanted one. */
  lemma ReadyMeansSettled(enabled: bool, caps: Caps, calls: seq<Call>)
    ensures
      var records := Run(Initial(enabled, caps), calls);
      forall i :: 0 <= i < |records| ==>
        (records[i].step.after.ready ==> Settled(records[i].step.after)) &&
        forall r :: r in records[i].step.requests && r.Restart? ==> (r.cached.configured == True) == enabled
  {
    forall i | 0 <= i < |calls| { SingleIsSafe(Initial(enabled, caps), calls, i); }
    hide Run, Settled;
  }

  /** No two restart requests in one list of requests. */
  predicate AtMostOneRestart(rs: seq<Request>) {
    forall a, b :: 0 <= a < b < |rs| && rs[a].Restart? ==> !rs[b].Restart?
  }

  lemma OneRestartPerCall(t: State, https: bool, replies: Replies)
    ensures AtMostOneRestart(Prepare(t, https, replies).requests)
  {
    hide Settled;
    if !t.ready {
      var r := Refresh(t, replies);
      var w := WriteMode(r.after, replies);
      var p := RequestRestart(w.after, replies);
      assert forall q :: q in r.requests + w.requests ==> !q.Restart?;
      assert |p.requests| <= 1;
      hide Refresh, WriteMode, RequestRestart;
      RestartComesLast(r.requests, w.requests, p.requests);
    }
  }

  lemma RestartComesLast(rs: seq<Request>, ws: seq<Request>, ps: seq<Request>)
    requires (forall q :: q in rs + ws ==> !q.Restart?) && |ps| <= 1
    ensures AtMostOneRestart([]) && AtMostOneRestart(rs) && AtMostOneRestart(rs + ws) && AtMostOneRestart(rs + ws + ps)
  {
    forall k | 0 <= k < |rs + ws| ensures !(rs + ws)[k].Restart? && !(rs + ws + ps)[k].Restart? {
      assert (rs + ws)[k] in rs + ws;
    }
    forall k | 0 <= k < |rs| ensures !rs[k].Restart? { assert (rs + ws)[k] == rs[k]; }
  }

  /** At most one restart request is ever accepted, and none is made after it, in its own call or a later one. */
  lemma OneRestartIsAccepted(enabled: bool, caps: Caps, calls: seq<Call>)
    ensures
      var records := Run(Initial(enabled, caps), calls);
      forall i, j, r, q | 0 <= i < j < |records| && r in records[i].step.requests && q in records[j].step.requests ::
        r.Restart? && q.Restart? ==> !r.accepted
    ensures
      var records := Run(Initial(enabled, caps), calls);
      forall i :: 0 <= i < |records| ==> AtMostOneRestart(records[i].step.requests)
  {
    var t := Initial(enabled, caps);
    forall i, j | 0 <= i < j < |calls| { PairIsSafe(t, calls, i, j); }
    forall i | 0 <= i < |calls| ensures AtMostOneRestart(Run(t, calls)[i].step.requests) {
      EffectsLast(Step(t, [], Returned(false)), t, calls, i);
      OneRestartPerCall(Run(t, calls)[i].before, calls[i].https, calls[i].replies);
    }
    hide Run, Prepare, AtMostOneRestart;
  }

  /** At most one call returns true, and no later call asks the agent for anything. */
  lemma OneCallReportsTheChange(enabled: bool, caps: Caps, calls: seq<Call>)
    ensures
      var records := Run(Initial(enabled, caps), calls);
      forall i, j :: 0 <= i < j < |records| && records[i].step.outcome == Returned(true) ==>
        records[j].step.outcome != Returned(true) && records[j].step.requests == []
  {
    forall i, j | 0 <= i < j < |calls| { PairIsSafe(Initial(enabled, caps), calls, i, j); }
    hide Run;
  }

  /** After a mutation was attempted, successful or not, every call that is not ready starts by re-reading. */
  lemma MutationsAreReread(enabled: bool, caps: Caps, calls: seq<Call>)
    ensures
      var records := Run(Initial(enabled, caps), calls);
      forall i, j, r :: 0 <= i < j < |records| && r in records[i].step.requests && Mutates(r) && !records[j].before.ready ==>
        records[j].step.requests != [] && records[j].step.requests[0] == ReadSetup
  {
    forall i, j | 0 <= i < j < |calls| { PairIsSafe(Initial(enabled, caps), calls, i, j); }
    hide Run;
  }

  /** The call that becomes ready after a change reports it exactly when the agent is still configurable and the
      URL is not an HTTPS one without the override; otherwise no call of the run ever reports the change. */
  lemma {:induction false} ChangeIsReportedExactly(enabled: bool, caps: Caps, calls: seq<Call>, i: nat)
    requires i < |calls|
    requires var r := Run(Initial(enabled, caps), calls)[i]; !r.before.ready && r.step.after.ready && r.step.after.changed
    ensures (exists j :: 0 <= j < |calls| && Run(Initial(enabled, caps), calls)[j].step.outcome == Returned(true)) <==>
            Run(Initial(enabled, caps), calls)[i].step.after.caps.configurable == True && !(calls[i].https && !enabled)
  {
    var t := Initial(enabled, caps);
    var records := Run(t, calls);
    var r := records[i];
    EffectsLast(Step(t, [], Returned(false)), t, calls, i);
    ReadyReports(r.before, calls[i].https, calls[i].replies);
    SingleIsSafe(t, calls, i);
    hide Run, Prepare, Settled, AllAllowed;
    var becomesReady := Step(r.step.after, [], Returned(true));
    forall j | i < j < |calls| ensures records[j].step.outcome != Returned(true) {
      RunFrom(t, calls, i);
      assert records[j] == Run(r.step.after, calls[i + 1..])[j - i - 1];
      EffectsLast(becomesReady, r.step.after, calls[i + 1..], j - i - 1);
      SingleIsSafe(t, calls, j);
    }
    forall j | 0 <= j < i ensures records[j].step.outcome != Returned(true) {
      PairIsSafe(t, calls, j, i);
    }
  }

  lemma ReadyReports(t: State, https: bool, replies: Replies)
    requires !t.ready && Prepare(t, https, replies).after.ready && Prepare(t, https, replies).after.changed
    ensures var s := Prepare(t, https, replies);
      s.outcome ==
        if https && !t.enabled then Raised(OverrideRequired) else Returned(s.after.caps.configurable == True)
  {
    ReadyReconciles(t, replies);
    hide Reconcile;
  }

  lemma ReadyReconciles(t: State, replies: Replies)
    requires !t.ready && Reconcile(t, replies).after.ready && Reconcile(t, replies).after.changed
    ensures var s := Reconcile(t, replies); s.outcome == Returned(s.after.caps.configurable == True)
  {
    hide Refresh, WriteMode, Confirmed, HasMode, Moded;
    ConfirmedExactly(t, replies);
    ModedKeepsTheRest(Seen(t, replies), t.enabled);
  }

  lemma ModedKeepsTheRest(c: Caps, enabled: bool)
    ensures Moded(c, enabled) == c.(configured := Moded(c, enabled).configured)
  {
  }

  // ---------------------------------------------------------------- exactly how a call ends

  /** The capabilities a call goes by: those just re-read after an attempted mutation, else the cached ones. */
  function Seen(t: State, replies: Replies): Caps {
    if t.refresh && replies.setup.Answer? then replies.setup.value else t.caps
  }

  predicate CannotRead(t: State, replies: Replies) { t.refresh && replies.setup.Failed? }

  predicate HasMode(c: Caps, enabled: bool) { c.configured.True? <==> enabled }

  predicate IsActive(c: Caps, enabled: bool) { c.active.True? <==> enabled }

  /** The agent already had the wanted mode, or has just confirmed it. */
  predicate Confirmed(c: Caps, enabled: bool, replies: Replies) {
    HasMode(c, enabled) || (replies.configure.Answer? && replies.configure.value == if enabled then True else False)
  }

  function ReadsOf(t: State): seq<Request> { if t.refresh then [ReadSetup] else [] }

  /** The mode write of a call that reads a configurable agent. */
  function WritesOf(t: State, replies: Replies): seq<Request> {
    if HasMode(Seen(t, replies), t.enabled) then [] else [Configure(t.enabled)]
  }

  /** The restart request of a call that reads a configurable agent. */
  function RestartsOf(t: State, replies: Replies): seq<Request> {
    var c := Seen(t, replies);
    if Confirmed(c, t.enabled, replies) && !IsActive(c, t.enabled) && !t.restartRequested then
      [Restart(Moded(c, t.enabled), replies.restart.Answer?)]
    else []
  }

  /** The requests of a call that is not ready yet: the re-read after an attempted mutation; of a configurable agent,
      the mode write unless it has the mode, and the restart once the mode is confirmed but not active. */
  lemma RequestsExactly(t: State, https: bool, replies: Replies)
    requires !t.ready
    ensures Prepare(t, https, replies).requests ==
      ReadsOf(t) +
      (if CannotRead(t, replies) || !Seen(t, replies).configurable.True? then []
       else WritesOf(t, replies) + RestartsOf(t, replies))
  {
    hide Refresh, WriteMode, Confirmed, HasMode, Moded;
    ConfirmedExactly(t, replies);
  }

  /** Which kinds of requests those are. */
  lemma KindsExactly(t: State, https: bool, replies: Replies)
    requires !t.ready
    ensures
      var rs, c := Prepare(t, https, replies).requests, Seen(t, replies);
      var asks := !CannotRead(t, replies) && c.configurable.True?;
      ((exists r :: r in rs && r.Configure?) <==> asks && !HasMode(c, t.enabled)) &&
      ((exists r :: r in rs && r.Restart?) <==>
        asks && Confirmed(c, t.enabled, replies) && !IsActive(c, t.enabled) && !t.restartRequested)
  {
    hide Prepare;
    RequestsExactly(t, https, replies);
    Kinds(ReadsOf(t), WritesOf(t, replies), RestartsOf(t, replies));
    hide ReadsOf, CannotRead, Seen, Confirmed, HasMode, IsActive, Moded;
  }

  lemma Kinds(first: seq<Request>, writes: seq<Request>, restarts: seq<Request>)
    requires (forall r :: r in first ==> r.ReadSetup?) && (forall r :: r in writes ==> r.Configure?)
    requires forall r :: r in restarts ==> r.Restart?
    ensures var rs := first + (writes + restarts);
      ((exists r :: r in rs && r.Configure?) <==> writes != []) && ((exists r :: r in rs && r.Restart?) <==> restarts != [])
  {
    var rs := first + (writes + restarts);
    if writes != [] { assert writes[0] in rs; }
    if restarts != [] { assert restarts[0] in rs; }
  }

  /** How a call ends that is not ready yet, and with which error. */
  lemma OutcomeExactly(t: State, https: bool, replies: Replies)
    requires !t.ready
    ensures
      var s, c := Prepare(t, https, replies), Seen(t, replies);
      var asks := !CannotRead(t, replies) && c.configurable.True?;
      var confirmed, active := asks && Confirmed(c, t.enabled, replies), IsActive(c, t.enabled);
      (s.outcome == Raised(Unsupported) <==> !CannotRead(t, replies) && !c.configurable.True? && t.enabled) &&
      (s.outcome == Raised(NotConfirmed) <==> asks && !confirmed && replies.configure.Answer?) &&
      (s.outcome == Raised(AwaitingRestart) <==> confirmed && !active && (t.restartRequested || replies.restart.Answer?)) &&
      (s.outcome == Raised(Unavailable) <==> confirmed && active && t.enabled && !c.available.True?) &&
      (s.outcome == Raised(AgentError) <==>
        CannotRead(t, replies) || (asks && !confirmed && replies.configure.Failed?) ||
        (confirmed && !active && !t.restartRequested && replies.restart.Failed?)) &&
      (s.after.ready <==>
        if asks then confirmed && active && (t.enabled ==> c.available.True?) else !CannotRead(t, replies) && !t.enabled) &&
      (s.outcome == Raised(OverrideRequired) <==> s.after.ready && https && !t.enabled) &&
      (s.outcome == Returned(true) <==> s.after.ready && !(https && !t.enabled) && asks && s.after.changed)
  {
    hide Refresh, WriteMode, HasMode;
    ConfirmedExactly(t, replies);
  }

  /** What the first two stages of a call do. */
  lemma ConfirmedExactly(t: State, replies: Replies)
    ensures var r, c := Refresh(t, replies), Seen(t, replies);
      (r.outcome == Returned(false) <==> !CannotRead(t, replies)) &&
      (r.outcome == Raised(AgentError) <==> CannotRead(t, replies)) && r.after == t.(caps := c) && r.requests == ReadsOf(t)
    ensures var c := Seen(t, replies); var w := WriteMode(t.(caps := c), replies);
      var confirmed := Confirmed(c, t.enabled, replies);
      (w.outcome == Returned(false) <==> confirmed) &&
      (w.outcome == Raised(NotConfirmed) <==> !confirmed && replies.configure.Answer?) &&
      (w.outcome == Raised(AgentError) <==> !confirmed && replies.configure.Failed?) &&
      w.requests == WritesOf(t, replies) &&
      w.after == t.(caps := if confirmed then Moded(c, t.enabled) else c,
                    refresh := t.refresh || !HasMode(c, t.enabled),
                    changed := t.changed || (confirmed && !HasMode(c, t.enabled)))
  {
  }

  /** The capabilities with the wanted mode written over another. */
  function Moded(c: Caps, enabled: bool): Caps {
    if HasMode(c, enabled) then c else c.(configured := if enabled then True else False)
  }

  /** Over every run: a call that asks for the mode without getting it confirmed raises, asks for no restart, does not
      become ready and takes over no configuration; so a restart or readiness always follows one the agent reported or
      confirmed. */
  lemma UnconfirmedModeIsNotUsed(enabled: bool, caps: Caps, calls: seq<Call>, i: nat)
    requires i < |calls|
    ensures
      var s, replies := Run(Initial(enabled, caps), calls)[i].step, calls[i].replies;
      (exists r :: r in s.requests && r.Configure?) && replies.configure != Answer(if enabled then True else False) ==>
        s.outcome.Raised? && !s.after.ready && (forall r :: r in s.requests ==> !r.Restart?) &&
        s.after.caps == Seen(Run(Initial(enabled, caps), calls)[i].before, replies)
  {
    var t := Initial(enabled, caps);
    EffectsLast(Step(t, [], Returned(false)), t, calls, i);
    var before, replies := Run(t, calls)[i].before, calls[i].replies;
    if !before.ready {
      KindsExactly(before, calls[i].https, replies);
      OutcomeExactly(before, calls[i].https, replies);
      CapsAreTheAgents(before, calls[i].https, replies);
    } else {
      CallIsSafe(before, calls[i].https, replies);
    }
    hide Run, Prepare;
  }

  /** The cached capabilities are the ones seen, with the wanted mode once the agent has confirmed it. */
  lemma CapsAreTheAgents(t: State, https: bool, replies: Replies)
    requires !t.ready
    ensures
      var c := Seen(t, replies);
      var writes := !CannotRead(t, replies) && c.configurable.True? && Confirmed(c, t.enabled, replies);
      Prepare(t, https, replies).after.caps == if writes then Moded(c, t.enabled) else c
  {
    hide Refresh, WriteMode, Confirmed, HasMode;
    ConfirmedExactly(t, replies);
  }

  /** A confirmed mode write, or a restart asked for or awaited. */
  predicate MakesAChange(s: Step, call: Call, enabled: bool) {
    s.outcome == Raised(AwaitingRestart) || (exists r :: r in s.requests && r.Restart?) ||
    ((exists r :: r in s.requests && r.Configure?) && call.replies.configure == Answer(if enabled then True else False))
  }

  lemma CallChanges(t: State, call: Call)
    requires Good(t)
    ensures var s := Prepare(t, call.https, call.replies);
      s.after.changed <==> t.changed || MakesAChange(s, call, t.enabled)
  {
    if !t.ready {
      KindsExactly(t, call.https, call.replies);
      OutcomeExactly(t, call.https, call.replies);
      ChangedIsWritten(t, call);
    }
    hide Refresh, WriteMode, RequestRestart;
  }

  lemma ChangedIsWritten(t: State, call: Call)
    requires !t.ready
    ensures
      var c := Seen(t, call.replies);
      var confirmed :=
        !CannotRead(t, call.replies) && c.configurable.True? && Confirmed(c, t.enabled, call.replies);
      Prepare(t, call.https, call.replies).after.changed <==>
        t.changed || (confirmed && (!HasMode(c, t.enabled) || !IsActive(c, t.enabled)))
  {
    hide Refresh, WriteMode, Confirmed, HasMode;
    ConfirmedExactly(t, call.replies);
  }

  /** Over every run, a change is on record exactly when some call so far had a mode write confirmed, or asked for or
      awaited a restart. */
  lemma {:induction false} ChangedExactly(t: State, calls: seq<Call>, i: nat)
    requires Good(t) && i < |calls|
    ensures Run(t, calls)[i].step.after.changed <==>
      t.changed || exists j :: 0 <= j <= i && MakesAChange(Run(t, calls)[j].step, calls[j], t.enabled)
    decreases i
  {
    hide Prepare, MakesAChange;
    CallChanges(t, calls[0]);
    CallIsSafe(t, calls[0].https, calls[0].replies);
    var s := Prepare(t, calls[0].https, calls[0].replies);
    var records, rest := Run(t, calls), Run(s.after, calls[1..]);
    assert records == [Record(t, s)] + rest;
    if i > 0 {
      ChangedExactly(s.after, calls[1..], i - 1);
      assert forall j :: 0 < j <= i ==> records[j] == rest[j - 1] && calls[j] == calls[1..][j - 1];
      if exists j :: 0 <= j <= i - 1 && MakesAChange(rest[j].step, calls[1..][j], t.enabled) {
        var j :| 0 <= j <= i - 1 && MakesAChange(rest[j].step, calls[1..][j], t.enabled);
        assert MakesAChange(records[j + 1].step, calls[j + 1], t.enabled);
      }
    }
    if MakesAChange(s, calls[0], t.enabled) { assert MakesAChange(records[0].step, calls[0], t.enabled); }
  }

  /** A run whose change is never reported: HTTPS is being switched off, and the only call is given an HTTPS URL. */
  lemma UnreportedChange() returns (caps: Caps, calls: seq<Call>)
    ensures var records := Run(Initial(false, caps), calls);
      |records| == 1 && records[0].step.after.ready && records[0].step.after.changed &&
      records[0].step.requests == [Configure(false)] && records[0].step.outcome == Raised(OverrideRequired)
    ensures forall j :: 0 <= j < |calls| ==> Run(Initial(false, caps), calls)[j].step.outcome != Returned(true)
  {
    caps := Caps(True, True, False, False);
    calls := [Call(true, Replies(Failed, Answer(False), Failed))];
    assert calls[1..] == [];
  }

  /** The other such run: after the accepted restart the agent comes back without a configurable transport. */
  lemma UnreportedByUnconfigurable() returns (caps: Caps, calls: seq<Call>)
    ensures var records := Run(Initial(false, caps), calls);
      |records| == 2 && records[0].step.outcome == Raised(AwaitingRestart) && records[1].step.requests == [ReadSetup] &&
      records[1].step.after.ready && records[1].step.after.changed && records[1].step.after.caps.configurable != True
    ensures forall j :: 0 <= j < |calls| ==> !calls[j].https
    ensures forall j :: 0 <= j < |calls| ==> Run(Initial(false, caps), calls)[j].step.outcome != Returned(true)
  {
    caps := Caps(True, True, True, True);
    var first := Call(false, Replies(Failed, Answer(False), Answer(())));
    var second := Call(false, Replies(Answer(Caps(False, False, False, False)), Failed, Failed));
    calls := [first, second];
    assert calls[1..] == [second] && [second][1..] == [];
  }

  // ---------------------------------------------------------------- convergence with an honest agent

  /** The restart the agent has been asked for: none accepted, or accepted and so many status reads from done. */
  datatype Reboot = NotYet | Restarting(left: nat) | Done

  /** A configurable agent that does what it is asked, refuses a restart finitely often while it is busy, and
      needs a finite number of calls to come back; HTTPS is available exactly while it is active. */
  datatype Agent = Agent(configured: bool, active: bool, refusals: nat, delay: nat, reboot: Reboot)

  function View(a: Agent): Caps { Caps(True, ToFlag(a.configured), ToFlag(a.active), ToFlag(a.active)) }

  /** The agent when its setup is read: a restart that is due takes effect. */
  function Read(a: Agent): Agent {
    match a.reboot
    case Restarting(left) => if left == 0 then a.(active := a.configured, reboot := Done) else a.(reboot := Restarting(left - 1))
    case _ => a
  }

  function Handle(a: Agent, r: Request): Agent {
    match r
    case ReadSetup => a
    case Configure(enabled) => a.(configured := enabled)
    case Restart(_, accepted) =>
      if accepted then a.(reboot := Restarting(a.delay)) else if a.refusals > 0 then a.(refusals := a.refusals - 1) else a
  }

  function HandleAll(a: Agent, rs: seq<Request>): Agent
    decreases |rs|
  {
    if rs == [] then a else HandleAll(Handle(a, rs[0]), rs[1..])
  }

  /** The answers of the agent to one call. */
  function Honest(t: State, a: Agent): Replies {
    Replies(Answer(View(a)), Answer(ToFlag(t.enabled)), if a.refusals > 0 then Failed else Answer(()))
  }

  /** One call with a URL of the wanted mode. */
  function Drive(t: State, a: Agent): (State, Agent) {
    var a := if t.refresh && !t.ready then Read(a) else a;
    var s := Prepare(t, t.enabled, Honest(t, a));
    (s.after, HandleAll(a, s.requests))
  }

  function DriveMany(t: State, a: Agent, n: nat): (State, Agent)
    decreases n
  {
    if n == 0 then (t, a) else var (t', a') := Drive(t, a); DriveMany(t', a', n - 1)
  }

  /** Calls still needed: the remaining refusals, the accepted request, and the pending calls. */
  function Remaining(t: State, a: Agent): nat {
    if t.ready then 0
    else if a.active == t.enabled then 1
    else match a.reboot
      case NotYet => a.refusals + 1 + a.delay + 1
      case Restarting(left) => left + 1
      case Done => 0
  }

  predicate Tracks(t: State, a: Agent) {
    (!t.refresh && !t.ready ==> t.caps == View(a)) &&
    (t.restartRequested <==> !a.reboot.NotYet?) &&
    (a.reboot.Restarting? ==> t.refresh && a.configured == t.enabled) &&
    (a.reboot.Done? ==> a.active == t.enabled)
  }

  /** The requests of one call to an agent seen as a, and what it leaves. */
  lemma HonestCall(t: State, a: Agent)
    requires !t.ready && (t.refresh || t.caps == View(a))
    ensures var s := Prepare(t, t.enabled, Honest(t, a));
      s.after.enabled == t.enabled && s.after.caps == View(a.(configured := t.enabled)) &&
      s.after.ready == (a.active == t.enabled) && (t.refresh || a.configured != t.enabled ==> s.after.refresh) &&
      (if a.active == t.enabled || t.restartRequested then
         s.requests == ReadsOf(t) + Writes(t, a) && s.after.restartRequested == t.restartRequested
       else
         s.requests == ReadsOf(t) + Writes(t, a) + [Restart(s.after.caps, a.refusals == 0)] &&
         s.after.restartRequested == (a.refusals == 0)) &&
      (a.active != t.enabled ==> s.after.refresh)
  {
    HonestStages(t, a);
    hide Refresh, WriteMode;
  }

  lemma HonestStages(t: State, a: Agent)
    requires t.refresh || t.caps == View(a)
    ensures var r := Refresh(t, Honest(t, a));
      r == Step(t.(caps := View(a)), ReadsOf(t), Returned(false)) &&
      var w := WriteMode(r.after, Honest(t, a));
      w.outcome == Returned(false) && w.requests == Writes(t, a) &&
      w.after == r.after.(caps := View(a.(configured := t.enabled)),
                          refresh := t.refresh || a.configured != t.enabled, changed := w.after.changed)
  {
  }

  function Writes(t: State, a: Agent): seq<Request> { if a.configured == t.enabled then [] else [Configure(t.enabled)] }

  lemma FirstDrive(t: State, a: Agent)
    requires Tracks(t, a) && !t.ready && !t.refresh
    ensures var (t', a') := Drive(t, a); Tracks(t', a') && Remaining(t', a') < Remaining(t, a) && t'.enabled == t.enabled
  {
    hide HandleAll, Prepare, Honest, View;
    HonestCall(t, a);
    HandleFew(a, Prepare(t, t.enabled, Honest(t, a)).requests);
  }

  lemma LaterDrive(t: State, a: Agent)
    requires Tracks(t, a) && !t.ready && t.refresh
    ensures var (t', a') := Drive(t, a); Tracks(t', a') && Remaining(t', a') < Remaining(t, a) && t'.enabled == t.enabled
  {
    hide HandleAll, Prepare, Honest, View;
    var b := Read(a);
    HonestCall(t, b);
    HandleFew(b, Prepare(t, t.enabled, Honest(t, b)).requests);
  }

  lemma {:induction false} HandleFew(a: Agent, rs: seq<Request>)
    ensures |rs| == 0 ==> HandleAll(a, rs) == a
    ensures |rs| == 1 ==> HandleAll(a, rs) == Handle(a, rs[0])
    ensures |rs| == 2 ==> HandleAll(a, rs) == Handle(Handle(a, rs[0]), rs[1])
    ensures |rs| == 3 ==> HandleAll(a, rs) == Handle(Handle(Handle(a, rs[0]), rs[1]), rs[2])
    decreases |rs|
  {
    if 2 <= |rs| <= 3 {
      HandleFew(Handle(a, rs[0]), rs[1..]);
    }
    if |rs| == 3 {
      HandleFew(Handle(Handle(a, rs[0]), rs[1]), rs[1..][1..]);
    }
  }

  /** Repeated calls reach readiness after at most refusals + 1 + delay + 1 of them. */
  lemma {:induction false} ReconcileConverges(t: State, a: Agent, n: nat)
    requires Tracks(t, a) && n >= Remaining(t, a)
    ensures DriveMany(t, a, n).0.ready
    decreases n
  {
    if t.ready {
      StaysReady(t, a, n);
    } else {
      if t.refresh { LaterDrive(t, a); } else { FirstDrive(t, a); }
      var (t', a') := Drive(t, a);
      ReconcileConverges(t', a', n - 1);
    }
  }

  lemma {:induction false} StaysReady(t: State, a: Agent, n: nat)
    requires t.ready
    ensures DriveMany(t, a, n).0.ready
    decreases n
  {
    if n > 0 { StaysReady(t, Drive(t, a).1, n - 1); }
  }

  /** From construction, with the capabilities the agent then had. */
  lemma FreshTransportConverges(enabled: bool, a: Agent, n: nat)
    requires a.reboot.NotYet? && n >= a.refusals + a.delay + 2
    ensures DriveMany(Initial(enabled, View(a)), a, n).0.ready
  {
    ReconcileConverges(Initial(enabled, View(a)), a, n);
  }
}

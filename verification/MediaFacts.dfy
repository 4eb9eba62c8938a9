/** The live media facts published for diagnostics, and the cumulative bridge view they are read from. */
module MediaFacts {
  import opened Options

  /** A JSON value as truth and type tests see it. */
  datatype Json = Null | Flag(b: bool) | Whole(n: int) | Fraction(zero: bool) | Text(s: string) | Composite(empty: bool)

  predicate Truthy(v: Json) {
    match v
    case Null => false
    case Flag(b) => b
    case Whole(n) => n != 0
    case Fraction(zero) => !zero
    case Text(s) => s != ""
    case Composite(empty) => !empty
  }

  /** The bridge keys the facts are read from, and any other. */
  datatype Key =
    | MediaOwner | MediaActive | MediaStarting | StopInProgress | CallActive | Clients | ExternalMediaActive
    | RingCallActive | RingMediaActive | HomeCallRunning | HomeCallActive | HomeCallAnswered | Other(name: string)

  type Bridge = map<Key, Json>

  datatype Facts = Facts(
    mediaStarting: bool, callActive: bool, bridgeMediaActive: bool, stopInProgress: bool, externalMediaActive: bool,
    ringCallActive: bool, ringMediaActive: bool, homeCallRunning: bool, homeCallActive: bool,
    clients: int, owner: Option<string>)

  function OwnerOf(b: Bridge): Option<string> {
    if MediaOwner in b && b[MediaOwner].Text? then Some(b[MediaOwner].s) else None
  }

  predicate Idle(owner: Option<string>) { owner.None? || owner.value == "" || owner.value == "idle" }

  /** `bool(bridge.get(key))` */
  predicate Stated(b: Bridge, k: Key) { k in b && Truthy(b[k]) }

  /** `owned_flag` */
  predicate OwnedFlag(b: Bridge, k: Key, owned: bool, unstated: bool) {
    owned && if k in b then Truthy(b[k]) else unstated
  }

  /** In this language a truth value counts as the number one or zero. */
  function CountOf(b: Bridge): int {
    if Clients !in b then 0
    else match b[Clients]
      case Whole(n) => n
      case Flag(f) => if f then 1 else 0
      case _ => 0
  }

  /** `_media_facts_from_bridge` */
  function FactsOf(b: Bridge): Facts {
    var owner := OwnerOf(b);
    var agent, ring, home := owner == Some("agent"), owner == Some("ring"), owner == Some("home_call");
    Facts(
      Stated(b, MediaStarting),
      OwnedFlag(b, CallActive, agent, false),
      OwnedFlag(b, MediaActive, agent, true),
      Stated(b, StopInProgress),
      !Idle(owner) && !agent && !ring && !home && Stated(b, ExternalMediaActive),
      OwnedFlag(b, RingCallActive, ring, true),
      ring && Stated(b, RingMediaActive),
      OwnedFlag(b, HomeCallRunning, home, HomeCallActive !in b),
      OwnedFlag(b, HomeCallActive, home, false),
      CountOf(b),
      owner)
  }

  /** What the camera keeps for the facts; `stored` is what diagnostics last received. */
  datatype View = View(bridge: Bridge, videoOwner: string, closing: bool, stored: Option<Facts>)

  datatype Event =
    /** A full status: its bridge when it has one, and its owner. */
    | StatusApplied(bridge: Option<Bridge>, owner: Option<string>)
    /** A window event, which carries any part of the bridge and perhaps an owner. */
    | EventMerged(part: Bridge, mediaOwner: Option<string>, owner: Option<string>)
    | HomeCallStatus(running: bool, active: bool, answered: bool, details: map<string, Json>)
    | HomeCallEnded(details: map<string, Json>)
    | WindowClosed

  function Details(details: map<string, Json>): Bridge { map n | n in details :: Other(n) := details[n] }

  /** `_refresh_derived_media_state`, as far as the published facts go. */
  function Refreshed(v: View): View {
    if v.closing then v else v.(stored := Some(FactsOf(v.bridge)))
  }

  predicate OwnsHomeCall(v: View) { v.videoOwner == "home_call" || OwnerOf(v.bridge) == Some("home_call") }

  const CLOSED: Bridge := map[
    MediaOwner := Text("idle"), MediaActive := Flag(false), MediaStarting := Flag(false), StopInProgress := Flag(false),
    ExternalMediaActive := Flag(false), RingCallActive := Flag(false), RingMediaActive := Flag(false),
    CallActive := Flag(false), Clients := Whole(0)]

  const HOME_CALL_OVER: Bridge := map[
    HomeCallRunning := Flag(false), HomeCallActive := Flag(false), HomeCallAnswered := Flag(false)]

  const HOME_MEDIA_OVER: Bridge := map[
    MediaOwner := Text("idle"), MediaActive := Flag(false), MediaStarting := Flag(false), StopInProgress := Flag(false),
    CallActive := Flag(false), Clients := Whole(0)]

  function BridgeAfter(v: View, e: Event): Bridge {
    match e
    case StatusApplied(bridge, _) => (match bridge case Some(b) => b case None => map[])
    case EventMerged(part, _, _) => v.bridge + part
    case HomeCallStatus(running, active, answered, details) =>
      v.bridge + Details(details) +
      map[MediaOwner := Text("home_call"), HomeCallRunning := Flag(running), HomeCallActive := Flag(active),
          HomeCallAnswered := Flag(answered)]
    case HomeCallEnded(details) =>
      var b := v.bridge + Details(details) + HOME_CALL_OVER;
      if OwnsHomeCall(v) then b + HOME_MEDIA_OVER else b
    case WindowClosed => v.bridge + CLOSED
  }

  function VideoOwnerAfter(v: View, e: Event): string {
    match e
    case StatusApplied(_, owner) => (match owner case Some(s) => s case None => "unknown")
    case EventMerged(_, mediaOwner, owner) =>
      if owner.Some? then owner.value else if mediaOwner.Some? then mediaOwner.value else v.videoOwner
    case HomeCallStatus(_, _, _, _) => "home_call"
    case HomeCallEnded(_) => if OwnsHomeCall(v) then "idle" else v.videoOwner
    case WindowClosed => "idle"
  }

  function Apply(v: View, e: Event): View {
    Refreshed(v.(bridge := BridgeAfter(v, e), videoOwner := VideoOwnerAfter(v, e)))
  }

  lemma HomeCallOver(b: Bridge)
    ensures b + HOME_CALL_OVER == b[HomeCallRunning := Flag(false)][HomeCallActive := Flag(false)][HomeCallAnswered := Flag(false)]
  {
  }

  lemma HomeMediaOver(b: Bridge)
    ensures b + HOME_MEDIA_OVER ==
      b[MediaOwner := Text("idle")][MediaActive := Flag(false)][MediaStarting := Flag(false)]
       [StopInProgress := Flag(false)][CallActive := Flag(false)][Clients := Whole(0)]
  {
  }

  // ---------------------------------------------------------------- the camera

  class CameraMedia {
    var bridgeStatus: Bridge
    var videoOwner: string
    var closing: bool
    var stored: Option<Facts>

    ghost function Now(): View
      reads this
    {
      View(bridgeStatus, videoOwner, closing, stored)
    }

    constructor ()
      ensures Now() == View(map[], "unknown", false, None)
    {
      bridgeStatus, videoOwner, closing, stored := map[], "unknown", false, None;
    }

    method RefreshDerivedMediaState()
      modifies this
      ensures Now() == Refreshed(old(Now()))
    {
      if closing { return; }
      var facts := FactsOf(bridgeStatus);
      if stored == Some(facts) { return; }
      stored := Some(facts);
    }

    method ApplyStatus(bridge: Option<Bridge>, owner: Option<string>)
      modifies this
      ensures Now() == Apply(old(Now()), StatusApplied(bridge, owner))
    {
      hide FactsOf;
      bridgeStatus := if bridge.Some? then bridge.value else map[];
      videoOwner := if owner.Some? then owner.value else "unknown";
      RefreshDerivedMediaState();
    }

    method ApplyHomeCallStatus(running: bool, active: bool, answered: bool, details: map<string, Json>)
      modifies this
      ensures Now() == Apply(old(Now()), HomeCallStatus(running, active, answered, details))
    {
      hide FactsOf, Details;
      videoOwner := "home_call";
      bridgeStatus := bridgeStatus + Details(details) +
        map[MediaOwner := Text("home_call"), HomeCallRunning := Flag(running), HomeCallActive := Flag(active),
            HomeCallAnswered := Flag(answered)];
      RefreshDerivedMediaState();
    }

    method ApplyHomeCallEnded(details: map<string, Json>)
      modifies this
      ensures Now() == Apply(old(Now()), HomeCallEnded(details))
    {
      var wasHomeCall := videoOwner == "home_call" || OwnerOf(bridgeStatus) == Some("home_call");
      hide FactsOf, Details;
      var b := bridgeStatus + Details(details);
      bridgeStatus := b[HomeCallRunning := Flag(false)][HomeCallActive := Flag(false)][HomeCallAnswered := Flag(false)];
      HomeCallOver(b);
      if wasHomeCall {
        b := bridgeStatus;
        bridgeStatus := bridgeStatus[MediaOwner := Text("idle")];
        bridgeStatus := bridgeStatus[MediaActive := Flag(false)];
        bridgeStatus := bridgeStatus[MediaStarting := Flag(false)];
        bridgeStatus := bridgeStatus[StopInProgress := Flag(false)];
        bridgeStatus := bridgeStatus[CallActive := Flag(false)];
        bridgeStatus := bridgeStatus[Clients := Whole(0)];
        HomeMediaOver(b);
        videoOwner := "idle";
      }
      RefreshDerivedMediaState();
    }

    method ClearVideoWindow()
      modifies this
      ensures Now() == Apply(old(Now()), WindowClosed)
    {
      hide FactsOf;
      videoOwner := "idle";
      bridgeStatus := bridgeStatus + CLOSED;
      RefreshDerivedMediaState();
    }

    method HandleWindowEvent(part: Bridge, mediaOwner: Option<string>, owner: Option<string>)
      modifies this
      ensures Now() == Apply(old(Now()), EventMerged(part, mediaOwner, owner))
    {
      hide FactsOf;
      assert part == map[] ==> bridgeStatus + part == bridgeStatus;
      if part != map[] { bridgeStatus := bridgeStatus + part; }
      if mediaOwner.Some? { videoOwner := mediaOwner.value; }
      if owner.Some? { videoOwner := owner.value; }
      RefreshDerivedMediaState();
    }
  }

  // ---------------------------------------------------------------- what the facts can say

  predicate AgentFacts(f: Facts) { f.callActive || f.bridgeMediaActive }

  predicate RingFacts(f: Facts) { f.ringCallActive || f.ringMediaActive }

  predicate HomeCallFacts(f: Facts) { f.homeCallRunning || f.homeCallActive }

  /** Nothing is reported as live. */
  predicate Quiet(f: Facts) {
    !f.mediaStarting && !f.stopInProgress && !f.externalMediaActive && !AgentFacts(f) && !RingFacts(f) &&
    !HomeCallFacts(f) && f.clients == 0
  }

  /** The bridge has the key and says yes. */
  ghost predicate Says(b: Bridge, k: Key) { exists v :: Lookup(b, k) == Some(v) && Truthy(v) }

  /** What each fact is: a fact of an owner is what the bridge says while that owner has the media, and what the owner
      alone proves where the bridge says nothing; the others are what the bridge says. */
  lemma FactsExactly(b: Bridge)
    ensures
      var f := FactsOf(b);
      (forall s :: f.owner == Some(s) <==> Lookup(b, MediaOwner) == Some(Text(s))) &&
      (f.mediaStarting <==> Says(b, MediaStarting)) && (f.stopInProgress <==> Says(b, StopInProgress)) &&
      (f.callActive <==> f.owner == Some("agent") && Says(b, CallActive)) &&
      (f.bridgeMediaActive <==> f.owner == Some("agent") && (MediaActive !in b || Says(b, MediaActive))) &&
      (f.ringCallActive <==> f.owner == Some("ring") && (RingCallActive !in b || Says(b, RingCallActive))) &&
      (f.ringMediaActive <==> f.owner == Some("ring") && Says(b, RingMediaActive)) &&
      (f.homeCallRunning <==>
        f.owner == Some("home_call") &&
        if HomeCallRunning in b then Says(b, HomeCallRunning) else HomeCallActive !in b) &&
      (f.homeCallActive <==> f.owner == Some("home_call") && Says(b, HomeCallActive)) &&
      (f.externalMediaActive <==>
        f.owner !in {None, Some(""), Some("idle"), Some("agent"), Some("ring"), Some("home_call")} &&
        Says(b, ExternalMediaActive)) &&
      (forall n :: Lookup(b, Clients) == Some(Whole(n)) ==> f.clients == n) &&
      (Lookup(b, Clients) == Some(Flag(true)) ==> f.clients == 1) &&
      ((forall n :: Lookup(b, Clients) != Some(Whole(n))) && Lookup(b, Clients) != Some(Flag(true)) ==> f.clients == 0)
  {
    SaysStated(b, MediaStarting);
    SaysStated(b, StopInProgress);
    SaysStated(b, CallActive);
    SaysStated(b, MediaActive);
    SaysStated(b, RingCallActive);
    SaysStated(b, RingMediaActive);
    SaysStated(b, HomeCallRunning);
    SaysStated(b, HomeCallActive);
    SaysStated(b, ExternalMediaActive);
    hide Truthy;
  }

  lemma SaysStated(b: Bridge, k: Key)
    ensures Says(b, k) <==> k in b && Truthy(b[k])
  {
    if k in b && Truthy(b[k]) { assert Lookup(b, k) == Some(b[k]); }
    hide Truthy;
  }

  /** What a home-call status says of a key. */
  function Reported(e: Event, k: Key): Option<Json>
    requires e.HomeCallStatus?
  {
    match k
    case MediaOwner => Some(Text("home_call"))
    case HomeCallRunning => Some(Flag(e.running))
    case HomeCallActive => Some(Flag(e.active))
    case HomeCallAnswered => Some(Flag(e.answered))
    case _ => None
  }

  /** What the end of a home call leaves of a key: its own are taken back, and the media's when it had the media. */
  function TakenBack(k: Key, owned: bool): Option<Json> {
    if k in {HomeCallRunning, HomeCallActive, HomeCallAnswered} then Some(Flag(false))
    else if !owned then None
    else if k == MediaOwner then Some(Text("idle"))
    else if k == Clients then Some(Whole(0))
    else if k in {MediaActive, MediaStarting, StopInProgress, CallActive} then Some(Flag(false))
    else None
  }

  /** What a closed window leaves of a key: everything is taken back but a home call. */
  function ClosedSays(k: Key): Option<Json> {
    if k == MediaOwner then Some(Text("idle"))
    else if k == Clients then Some(Whole(0))
    else if k in {HomeCallRunning, HomeCallActive, HomeCallAnswered} then None
    else Some(Flag(false))
  }

  function Else(a: Option<Json>, b: Option<Json>): Option<Json> { if a.Some? then a else b }

  lemma StatusKey(v: View, e: Event, k: Key)
    requires e.HomeCallStatus? && !k.Other?
    ensures Lookup(BridgeAfter(v, e), k) == Else(Reported(e, k), Lookup(v.bridge, k))
  {
    hide Details;
    DetailsAreOther(e.details, k);
    OverlayKey(v.bridge, Details(e.details), k);
    StatusIs(v, e, v.bridge + Details(e.details), k);
    hide BridgeAfter, Reported, Else;
  }

  lemma StatusIs(v: View, e: Event, b: Bridge, k: Key)
    requires e.HomeCallStatus? && !k.Other? && b == v.bridge + Details(e.details)
    ensures Lookup(BridgeAfter(v, e), k) == Else(Reported(e, k), Lookup(b, k))
  {
    hide Details;
  }

  lemma EndedKey(v: View, e: Event, k: Key)
    requires e.HomeCallEnded? && !k.Other?
    ensures
      var owned := v.videoOwner == "home_call" || Lookup(v.bridge, MediaOwner) == Some(Text("home_call"));
      Lookup(BridgeAfter(v, e), k) == Else(TakenBack(k, owned), Lookup(v.bridge, k))
  {
    hide Details;
    DetailsAreOther(e.details, k);
    OverlayKey(v.bridge, Details(e.details), k);
    EndedParts(v.bridge + Details(e.details), k);
    EndedIs(v, e);
    hide BridgeAfter, TakenBack, Else;
  }

  lemma EndedIs(v: View, e: Event)
    requires e.HomeCallEnded?
    ensures
      var b := v.bridge + Details(e.details) + HOME_CALL_OVER;
      BridgeAfter(v, e) ==
        if v.videoOwner == "home_call" || Lookup(v.bridge, MediaOwner) == Some(Text("home_call")) then b + HOME_MEDIA_OVER else b
  {
    hide Details;
  }

  lemma EndedParts(b: Bridge, k: Key)
    requires !k.Other?
    ensures Lookup(b + HOME_CALL_OVER, k) == Else(TakenBack(k, false), Lookup(b, k))
    ensures Lookup(b + HOME_CALL_OVER + HOME_MEDIA_OVER, k) == Else(TakenBack(k, true), Lookup(b, k))
  {
    OverlayKey(b, HOME_CALL_OVER, k);
    OverlayKey(b + HOME_CALL_OVER, HOME_MEDIA_OVER, k);
    OverKeys(k);
    LookedUp(HOME_CALL_OVER, k);
    LookedUp(HOME_MEDIA_OVER, k);
    hide TakenBack, Lookup;
  }

  lemma LookedUp(c: Bridge, k: Key)
    ensures Lookup(c, k) == if k in c then Some(c[k]) else None
  {
  }

  lemma ClosedKey(v: View, k: Key)
    requires !k.Other?
    ensures Lookup(BridgeAfter(v, WindowClosed), k) == Else(ClosedSays(k), Lookup(v.bridge, k))
  {
    OverlayKey(v.bridge, CLOSED, k);
    OverKeys(k);
  }

  /** What an event makes of one key of the bridge that the facts are read from. */
  lemma BridgeExactly(v: View, e: Event, k: Key)
    requires !k.Other?
    ensures
      var after, before := Lookup(BridgeAfter(v, e), k), Lookup(v.bridge, k);
      match e
      case StatusApplied(bridge, _) => after == if bridge.Some? then Lookup(bridge.value, k) else None
      case EventMerged(part, _, _) => after == Else(Lookup(part, k), before)
      case HomeCallStatus(_, _, _, _) => after == Else(Reported(e, k), before)
      case HomeCallEnded(_) =>
        after ==
          Else(TakenBack(k, v.videoOwner == "home_call" || Lookup(v.bridge, MediaOwner) == Some(Text("home_call"))), before)
      case WindowClosed => after == Else(ClosedSays(k), before)
  {
    match e {
      case StatusApplied(_, _) =>
      case EventMerged(part, _, _) => OverlayKey(v.bridge, part, k);
      case HomeCallStatus(_, _, _, _) => StatusKey(v, e, k);
      case HomeCallEnded(_) => EndedKey(v, e, k);
      case WindowClosed => ClosedKey(v, k);
    }
    hide Reported, TakenBack, ClosedSays, Else;
  }

  lemma OverlayKey(b: Bridge, c: Bridge, k: Key)
    ensures Lookup(b + c, k) == if k in c then Some(c[k]) else Lookup(b, k)
  {
  }

  lemma OverKeys(k: Key)
    requires !k.Other?
    ensures Lookup(HOME_CALL_OVER, k) == TakenBack(k, false)
    ensures Else(Lookup(HOME_MEDIA_OVER, k), Lookup(HOME_CALL_OVER, k)) == TakenBack(k, true)
    ensures Lookup(CLOSED, k) == ClosedSays(k)
  {
  }

  /** Who has the video after an event. */
  lemma VideoOwnerExactly(v: View, e: Event)
    ensures
      var after := VideoOwnerAfter(v, e);
      match e
      case StatusApplied(_, owner) => if owner.Some? then after == owner.value else after == "unknown"
      case EventMerged(_, mediaOwner, owner) =>
        if owner.Some? then after == owner.value else if mediaOwner.Some? then after == mediaOwner.value
        else after == v.videoOwner
      case HomeCallStatus(_, _, _, _) => after == "home_call"
      case HomeCallEnded(_) =>
        if v.videoOwner == "home_call" || Lookup(v.bridge, MediaOwner) == Some(Text("home_call")) then after == "idle"
        else after == v.videoOwner
      case WindowClosed => after == "idle"
  {
  }

  /** Whatever was merged into the bridge, the owner-scoped facts name at most one owner, the one the bridge names. */
  lemma FactsNameOneOwner(b: Bridge)
    ensures var f := FactsOf(b);
      (AgentFacts(f) ==> f.owner == Some("agent")) && (RingFacts(f) ==> f.owner == Some("ring")) &&
      (HomeCallFacts(f) ==> f.owner == Some("home_call")) &&
      (f.externalMediaActive ==>
        !Idle(f.owner) && f.owner != Some("agent") && f.owner != Some("ring") && f.owner != Some("home_call"))
    ensures var f := FactsOf(b);
      !(AgentFacts(f) && (RingFacts(f) || HomeCallFacts(f) || f.externalMediaActive)) &&
      !(RingFacts(f) && (HomeCallFacts(f) || f.externalMediaActive)) && !(HomeCallFacts(f) && f.externalMediaActive)
  {
  }

  /** The unscoped keys are at rest and nobody owns the media. */
  predicate AtRest(b: Bridge) {
    Idle(OwnerOf(b)) && !Stated(b, MediaStarting) && !Stated(b, StopInProgress) && CountOf(b) == 0
  }

  /** Idle facts do not depend on the owner-scoped keys at all. */
  lemma QuietWhenAtRest(b: Bridge)
    requires Idle(OwnerOf(b))
    ensures Quiet(FactsOf(b)) <==> AtRest(b)
  {
  }

  lemma OverlayAtRest(b: Bridge, c: Bridge)
    requires c == CLOSED || c == HOME_MEDIA_OVER
    ensures AtRest(b + c)
  {
    assert c[MediaOwner] == Text("idle") && c[Clients] == Whole(0);
    assert c[MediaStarting] == Flag(false) && c[StopInProgress] == Flag(false);
  }

  lemma EndsAtRest(v: View, e: Event)
    requires e.WindowClosed? || (e.HomeCallEnded? && OwnsHomeCall(v))
    ensures AtRest(BridgeAfter(v, e))
  {
    hide AtRest, Details, OwnsHomeCall;
    if e.WindowClosed? {
      OverlayAtRest(v.bridge, CLOSED);
    } else {
      OverlayAtRest(v.bridge + Details(e.details) + HOME_CALL_OVER, HOME_MEDIA_OVER);
    }
  }

  lemma HomeCallEndKeeps(v: View, e: Event, k: Key)
    requires e.HomeCallEnded? && !OwnsHomeCall(v)
    requires !k.Other? && !k.HomeCallRunning? && !k.HomeCallActive? && !k.HomeCallAnswered?
    ensures Lookup(BridgeAfter(v, e), k) == Lookup(v.bridge, k)
  {
    hide OwnsHomeCall, Details;
    DetailsAreOther(e.details, k);
    MergeKeeps(v.bridge, Details(e.details), k);
    HomeCallOver(v.bridge + Details(e.details));
  }

  lemma DetailsAreOther(details: map<string, Json>, k: Key)
    requires !k.Other?
    ensures k !in Details(details)
  {
  }

  lemma MergeKeeps(b: Bridge, c: Bridge, k: Key)
    requires k !in c
    ensures Lookup(b + c, k) == Lookup(b, k)
  {
  }

  /** The end of a home call that did not own the media changes no fact. */
  lemma OthersHomeCallEnd(v: View, e: Event)
    requires e.HomeCallEnded? && !OwnsHomeCall(v)
    ensures FactsOf(BridgeAfter(v, e)) == FactsOf(v.bridge)
  {
    hide BridgeAfter;
    forall k: Key | !k.Other? && !k.HomeCallRunning? && !k.HomeCallActive? && !k.HomeCallAnswered?
      ensures Lookup(BridgeAfter(v, e), k) == Lookup(v.bridge, k)
    {
      HomeCallEndKeeps(v, e, k);
    }
    SameFacts(v.bridge, BridgeAfter(v, e));
  }

  lemma SameFacts(b: Bridge, c: Bridge)
    requires OwnerOf(b) != Some("home_call")
    requires forall k: Key :: !k.Other? && !k.HomeCallRunning? && !k.HomeCallActive? && !k.HomeCallAnswered? ==>
      Lookup(c, k) == Lookup(b, k)
    ensures FactsOf(b) == FactsOf(c)
  {
    assert Lookup(c, MediaOwner) == Lookup(b, MediaOwner) && Lookup(c, MediaActive) == Lookup(b, MediaActive);
    assert Lookup(c, MediaStarting) == Lookup(b, MediaStarting) && Lookup(c, StopInProgress) == Lookup(b, StopInProgress);
    assert Lookup(c, CallActive) == Lookup(b, CallActive) && Lookup(c, Clients) == Lookup(b, Clients);
    assert Lookup(c, ExternalMediaActive) == Lookup(b, ExternalMediaActive);
    assert Lookup(c, RingCallActive) == Lookup(b, RingCallActive) && Lookup(c, RingMediaActive) == Lookup(b, RingMediaActive);
  }

  predicate MentionsUnscoped(e: Event) {
    e.StatusApplied? || e.HomeCallStatus? ||
    (e.EventMerged? &&
      (MediaOwner in e.part || MediaStarting in e.part || StopInProgress in e.part || Clients in e.part))
  }

  lemma StaysAtRest(v: View, e: Event)
    requires AtRest(v.bridge) && !MentionsUnscoped(e)
    ensures AtRest(BridgeAfter(v, e))
  {
    if e.WindowClosed? || (e.HomeCallEnded? && OwnsHomeCall(v)) {
      EndsAtRest(v, e);
    } else if e.HomeCallEnded? {
      OthersHomeCallEnd(v, e);
      QuietWhenAtRest(v.bridge);
      QuietWhenAtRest(BridgeAfter(v, e));
    }
  }

  function Run(v: View, events: seq<Event>): View
    decreases |events|
  {
    if events == [] then v else Run(Apply(v, events[0]), events[1..])
  }

  lemma {:induction false} RunStaysAtRest(v: View, events: seq<Event>)
    requires AtRest(v.bridge) && forall i :: 0 <= i < |events| ==> !MentionsUnscoped(events[i])
    ensures AtRest(Run(v, events).bridge)
    decreases |events|
  {
    if events == [] {
    } else {
      StaysAtRest(v, events[0]);
      RunStaysAtRest(Apply(v, events[0]), events[1..]);
    }
  }

  lemma {:induction false} RunJoined(v: View, before: seq<Event>, after: seq<Event>)
    ensures Run(v, before + after) == Run(Run(v, before), after)
    decreases |before|
  {
    if before == [] {
      assert before + after == after;
    } else {
      assert (before + after)[1..] == before[1..] + after;
      RunJoined(Apply(v, before[0]), before[1..], after);
    }
  }

  /** Facts never latch. After any run, a media-closed event or the end of a home call that owned the media makes
      every fact quiet, and they stay quiet through any further events until one states an owner, a start, a stop
      or clients: no stale owner-scoped key, merged before or after, comes back to life. */
  lemma FactsNeverLatch(v: View, before: seq<Event>, end: Event, after: seq<Event>)
    requires end.WindowClosed? || (end.HomeCallEnded? && OwnsHomeCall(Run(v, before)))
    requires forall i :: 0 <= i < |after| ==> !MentionsUnscoped(after[i])
    ensures Quiet(FactsOf(Run(v, before + [end] + after).bridge))
  {
    var u := Run(v, before);
    EndsAtRest(u, end);
    var w := Apply(u, end);
    RunStaysAtRest(w, after);
    assert ([end] + after)[1..] == after;
    RunJoined(v, before, [end] + after);
    assert before + [end] + after == before + ([end] + after);
    QuietWhenAtRest(Run(w, after).bridge);
  }

  /** While the camera is not closing, the stored facts are always those of the current bridge. */
  lemma {:induction false} StoredFactsAreCurrent(v: View, events: seq<Event>)
    requires !v.closing && (events != [] || v.stored == Some(FactsOf(v.bridge)))
    ensures Run(v, events).stored == Some(FactsOf(Run(v, events).bridge))
    decreases |events|
  {
    hide FactsOf, BridgeAfter;
    if events != [] { StoredFactsAreCurrent(Apply(v, events[0]), events[1..]); }
  }

  /** Once it is closing, the camera publishes nothing more. */
  lemma {:induction false} ClosingPublishesNothing(v: View, events: seq<Event>)
    requires v.closing
    ensures Run(v, events).stored == v.stored && Run(v, events).closing
    decreases |events|
  {
    hide FactsOf, BridgeAfter;
    if events != [] { ClosingPublishesNothing(Apply(v, events[0]), events[1..]); }
  }
}

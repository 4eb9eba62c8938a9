/** ICE candidates over whole runs: where each of them is, in what order they reach the provider, and how
    many are held. */
module CameraIce {
  import opened CameraState
  import opened CameraInvariants

  ghost predicate Increasing(cs: seq<Stamp>) {
    forall i, j :: 0 <= i < j < |cs| ==> cs[i] < cs[j]
  }

  /** The candidates of a session that reached the provider from its buffer, in order. */
  function Replayed(log: seq<Delivery>): seq<Stamp> {
    if log == [] then []
    else
      var rest := Replayed(log[..|log| - 1]);
      if log[|log| - 1].replayed then rest + [log[|log| - 1].c] else rest
  }

  lemma ReplayedAppend(log: seq<Delivery>, d: Delivery)
    ensures Replayed(log + [d]) == Replayed(log) + (if d.replayed then [d.c] else [])
  {
    assert (log + [d])[..|log|] == log;
  }

  ghost predicate InLog(log: seq<Delivery>, c: Stamp) {
    exists i :: 0 <= i < |log| && log[i].c == c
  }

  ghost predicate NoDuplicates(log: seq<Delivery>) {
    forall i, j :: 0 <= i < j < |log| ==> log[i].c != log[j].c
  }

  ghost predicate FateIs(s: State, c: Stamp, fate: Fate) {
    c in s.ice.fate && s.ice.fate[c] == fate
  }

  // ---------------------------------------------------------------- the invariant

  ghost predicate OrderKnown(b: Buffers) {
    |b.order| <= MAX_PRESESSION_SESSIONS &&
    (forall sid :: sid in b.table <==> sid in b.order) &&
    (forall i, j :: 0 <= i < j < |b.order| ==> b.order[i] != b.order[j])
  }

  ghost predicate BufferKnown(s: State, sid: Sid)
    requires sid in s.candidates.table
  {
    var cs := s.candidates.table[sid];
    |cs| <= MAX_PRESESSION_CANDIDATES && Increasing(cs) &&
    forall c :: c in cs ==> c < s.ice.arrived && FateIs(s, c, Waiting(sid))
  }

  /** Everything ever buffered for the session has been replayed, in order, or is still in its buffer. */
  ghost predicate SessionBuffers(s: State, h: Handle)
    requires h in s.objects
  {
    var o := s.objects[h];
    |o.pending| <= MAX_PRESESSION_CANDIDATES &&
    Buffered(s, h) == Replayed(Log(s, h)) + o.pending && Increasing(Buffered(s, h)) &&
    (forall c :: c in Buffered(s, h) ==> c < s.ice.arrived) &&
    (forall c :: c in o.pending ==> FateIs(s, c, Pending(h)))
  }

  ghost predicate SessionLog(s: State, h: Handle)
    requires h in s.objects
  {
    NoDuplicates(Log(s, h)) &&
    (forall i :: 0 <= i < |Log(s, h)| ==> FateIs(s, Log(s, h)[i].c, Sent(h))) &&
    (Log(s, h) != [] || s.objects[h].ready ==> h in s.ice.wasReady)
  }

  ghost predicate Unlogged(s: State, h: Handle) {
    h !in s.objects ==> h !in s.ice.logs
  }

  /** A candidate is where its fate says. */
  ghost predicate StampKnown(s: State, c: Stamp)
    requires c in s.ice.fate
  {
    c < s.ice.arrived &&
    match s.ice.fate[c]
    case Waiting(sid) => sid in s.candidates.table && c in s.candidates.table[sid]
    case Pending(h) => h in s.objects && c in s.objects[h].pending
    case Sent(h) => h in s.objects && InLog(Log(s, h), c)
    case Dropped => true
  }

  ghost predicate FlushKnown(s: State, sid: Sid)
    requires sid in s.offers
  {
    s.offers[sid].Flushing? ==> s.offers[sid].h in s.ice.wasReady
  }

  ghost predicate IceInv(s: State) {
    OrderKnown(s.candidates) &&
    (forall sid :: sid in s.candidates.table ==> BufferKnown(s, sid)) &&
    (forall h :: h in s.objects ==> SessionBuffers(s, h)) &&
    (forall h :: h in s.objects ==> SessionLog(s, h)) &&
    (forall h :: Unlogged(s, h)) &&
    (forall c :: c in s.ice.fate ==> StampKnown(s, c)) &&
    (forall c :: 0 <= c < s.ice.arrived ==> c in s.ice.fate) &&
    (forall sid :: sid in s.offers ==> FlushKnown(s, sid))
  }

  // ---------------------------------------------------------------- blocks that leave candidates alone

  ghost predicate SameIce(s: State, s': State) {
    s'.candidates == s.candidates && s'.ice == s.ice.(flushed := s'.ice.flushed) && s'.objects.Keys == s.objects.Keys &&
    (forall h :: h in s.objects ==> s'.objects[h].pending == s.objects[h].pending &&
                                    (s'.objects[h].ready ==> s.objects[h].ready)) &&
    (forall x :: x in s'.offers && s'.offers[x].Flushing? ==> x in s.offers && s'.offers[x] == s.offers[x])
  }

  lemma SameSession(s: State, s': State, h: Handle)
    requires SameIce(s, s') && h in s.objects && SessionBuffers(s, h) && SessionLog(s, h)
    ensures SessionBuffers(s', h) && SessionLog(s', h)
  {
    assert Log(s', h) == Log(s, h) && Buffered(s', h) == Buffered(s, h);
    forall c | c in s.objects[h].pending ensures FateIs(s', c, Pending(h)) { assert FateIs(s, c, Pending(h)); }
    forall i | 0 <= i < |Log(s, h)| ensures FateIs(s', Log(s, h)[i].c, Sent(h)) { assert FateIs(s, Log(s, h)[i].c, Sent(h)); }
  }

  lemma SameBuffer(s: State, s': State, x: Sid)
    requires SameIce(s, s') && x in s.candidates.table && BufferKnown(s, x)
    ensures BufferKnown(s', x)
  {
    forall c | c in s.candidates.table[x] ensures FateIs(s', c, Waiting(x)) { assert FateIs(s, c, Waiting(x)); }
  }

  lemma SameStamp(s: State, s': State, c: Stamp)
    requires SameIce(s, s') && c in s.ice.fate && StampKnown(s, c)
    ensures StampKnown(s', c)
  {
    if s.ice.fate[c].Sent? { assert Log(s', s.ice.fate[c].h) == Log(s, s.ice.fate[c].h); }
  }

  lemma SameIceKeepsInv(s: State, s': State)
    requires IceInv(s) && SameIce(s, s')
    ensures IceInv(s')
  {
    forall x | x in s'.candidates.table ensures BufferKnown(s', x) { SameBuffer(s, s', x); }
    forall h | h in s'.objects ensures SessionBuffers(s', h) && SessionLog(s', h) { SameSession(s, s', h); }
    forall h ensures Unlogged(s', h) { assert Unlogged(s, h); }
    forall c | c in s'.ice.fate ensures StampKnown(s', c) { SameStamp(s, s', c); }
    forall x | x in s'.offers ensures FlushKnown(s', x) { if s'.offers[x].Flushing? { assert FlushKnown(s, x); } }
  }

  // ---------------------------------------------------------------- discarding a buffer

  lemma {:induction false} WithoutDrops(order: seq<Sid>, sid: Sid)
    ensures forall x :: x in Without(order, sid) <==> x in order && x != sid
    ensures |Without(order, sid)| <= |order| && (sid in order ==> |Without(order, sid)| < |order|)
  {
    if order == [] {
    } else {
      WithoutDrops(order[1..], sid);
    }
  }

  lemma {:induction false} WithoutKeepsDistinct(order: seq<Sid>, sid: Sid)
    requires forall i, j :: 0 <= i < j < |order| ==> order[i] != order[j]
    ensures
      var w := Without(order, sid);
      forall i, j :: 0 <= i < j < |w| ==> w[i] != w[j]
  {
    if order == [] {
    } else {
      WithoutKeepsDistinct(order[1..], sid);
      WithoutDrops(order[1..], sid);
      var w := Without(order[1..], sid);
      forall k | 0 <= k < |w| ensures w[k] != order[0] { assert w[k] in order[1..]; }
    }
  }

  lemma PopKeepsOrder(b: Buffers, sid: Sid)
    requires OrderKnown(b)
    ensures OrderKnown(Pop(b, sid))
    ensures sid in b.table ==> |Pop(b, sid).order| < |b.order|
  {
    WithoutDrops(b.order, sid);
    WithoutKeepsDistinct(b.order, sid);
  }

  /** Apart from the buffer it empties, discarding changes no candidate's fate. */
  lemma DiscardedFate(s: State, sid: Sid, c: Stamp)
    requires sid in s.candidates.table ==> BufferKnown(s, sid)
    requires c in s.ice.fate && s.ice.fate[c] != Waiting(sid)
    ensures c in Discard(s, sid).ice.fate && Discard(s, sid).ice.fate[c] == s.ice.fate[c]
  {
  }

  lemma DiscardedBuffer(s: State, sid: Sid, x: Sid)
    requires sid in s.candidates.table ==> BufferKnown(s, sid)
    requires x in s.candidates.table && x != sid && BufferKnown(s, x)
    ensures x in Discard(s, sid).candidates.table && BufferKnown(Discard(s, sid), x)
  {
    forall c | c in s.candidates.table[x] ensures FateIs(Discard(s, sid), c, Waiting(x)) {
      assert FateIs(s, c, Waiting(x));
      DiscardedFate(s, sid, c);
    }
  }

  lemma DiscardedSession(s: State, sid: Sid, h: Handle)
    requires sid in s.candidates.table ==> BufferKnown(s, sid)
    requires h in s.objects && SessionBuffers(s, h) && SessionLog(s, h)
    ensures SessionBuffers(Discard(s, sid), h) && SessionLog(Discard(s, sid), h)
  {
    var s' := Discard(s, sid);
    assert Log(s', h) == Log(s, h) && Buffered(s', h) == Buffered(s, h);
    forall c | c in s.objects[h].pending ensures FateIs(s', c, Pending(h)) {
      assert FateIs(s, c, Pending(h));
      DiscardedFate(s, sid, c);
    }
    forall i | 0 <= i < |Log(s, h)| ensures FateIs(s', Log(s, h)[i].c, Sent(h)) {
      assert FateIs(s, Log(s, h)[i].c, Sent(h));
      DiscardedFate(s, sid, Log(s, h)[i].c);
    }
  }

  lemma DiscardedStamp(s: State, sid: Sid, c: Stamp)
    requires c in s.ice.fate && StampKnown(s, c)
    ensures c in Discard(s, sid).ice.fate && StampKnown(Discard(s, sid), c)
  {
    var s' := Discard(s, sid);
    if s.ice.fate[c].Sent? { assert Log(s', s.ice.fate[c].h) == Log(s, s.ice.fate[c].h); }
  }

  lemma DiscardKeepsIce(s: State, sid: Sid)
    requires IceInv(s)
    ensures IceInv(Discard(s, sid))
  {
    var s' := Discard(s, sid);
    PopKeepsOrder(s.candidates, sid);
    forall x | x in s'.candidates.table ensures BufferKnown(s', x) { DiscardedBuffer(s, sid, x); }
    forall h | h in s'.objects ensures SessionBuffers(s', h) && SessionLog(s', h) { DiscardedSession(s, sid, h); }
    forall h ensures Unlogged(s', h) { assert Unlogged(s, h); }
    forall c | c in s'.ice.fate ensures StampKnown(s', c) { DiscardedStamp(s, sid, c); }
    forall x | x in s'.offers ensures FlushKnown(s', x) { assert FlushKnown(s, x); }
  }

  // ---------------------------------------------------------------- registering a session

  /** What registering does to the candidates: the buffer moves into the new session. */
  ghost predicate BufferMoves(s: State, s': State, sid: Sid, h: Handle) {
    var held := HeldFor(s.candidates, sid);
    h !in s.objects && h in s'.objects && s'.objects - {h} == s.objects && s'.objects[h].pending == held && !s'.objects[h].ready &&
    s'.candidates == Pop(s.candidates, sid) && s'.offers == s.offers[sid := Negotiating(h)] &&
    s'.ice == s.ice.(fate := Relocate(s.ice.fate, held, Pending(h)), buffered := s.ice.buffered[h := held])
  }

  lemma MovedFate(s: State, s': State, sid: Sid, h: Handle, c: Stamp)
    requires BufferMoves(s, s', sid, h) && (sid in s.candidates.table ==> BufferKnown(s, sid))
    requires c in s.ice.fate
    ensures c in s'.ice.fate
    ensures s.ice.fate[c] != Waiting(sid) ==> s'.ice.fate[c] == s.ice.fate[c]
  {
  }

  lemma MovedBuffer(s: State, s': State, sid: Sid, h: Handle, x: Sid)
    requires BufferMoves(s, s', sid, h) && (sid in s.candidates.table ==> BufferKnown(s, sid))
    requires x in s'.candidates.table && x in s.candidates.table && x != sid && BufferKnown(s, x)
    ensures BufferKnown(s', x)
  {
    forall c | c in s.candidates.table[x] ensures FateIs(s', c, Waiting(x)) {
      assert FateIs(s, c, Waiting(x));
      MovedFate(s, s', sid, h, c);
    }
  }

  lemma MovedOther(s: State, s': State, sid: Sid, h: Handle, g: Handle)
    requires BufferMoves(s, s', sid, h) && (sid in s.candidates.table ==> BufferKnown(s, sid))
    requires g in s.objects && SessionBuffers(s, g) && SessionLog(s, g)
    ensures g in s'.objects && SessionBuffers(s', g) && SessionLog(s', g)
  {
    assert (s'.objects - {h})[g] == s.objects[g];
    assert Log(s', g) == Log(s, g) && Buffered(s', g) == Buffered(s, g);
    forall c | c in s.objects[g].pending ensures FateIs(s', c, Pending(g)) {
      assert FateIs(s, c, Pending(g));
      MovedFate(s, s', sid, h, c);
    }
    forall i | 0 <= i < |Log(s, g)| ensures FateIs(s', Log(s, g)[i].c, Sent(g)) {
      assert FateIs(s, Log(s, g)[i].c, Sent(g));
      MovedFate(s, s', sid, h, Log(s, g)[i].c);
    }
  }

  lemma MovedNew(s: State, s': State, sid: Sid, h: Handle)
    requires BufferMoves(s, s', sid, h) && Unlogged(s, h)
    requires sid in s.candidates.table ==> BufferKnown(s, sid)
    ensures SessionBuffers(s', h) && SessionLog(s', h)
  {
    assert Log(s', h) == [];
    assert Buffered(s', h) == HeldFor(s.candidates, sid) == s'.objects[h].pending;
    forall c | c in s'.objects[h].pending ensures FateIs(s', c, Pending(h)) { assert FateIs(s, c, Waiting(sid)); }
  }

  lemma MovedStamp(s: State, s': State, sid: Sid, h: Handle, c: Stamp)
    requires BufferMoves(s, s', sid, h) && c in s.ice.fate && StampKnown(s, c)
    ensures c in s'.ice.fate && StampKnown(s', c)
  {
    match s.ice.fate[c]
    case Pending(g) => assert (s'.objects - {h})[g] == s.objects[g];
    case Sent(g) =>
      assert (s'.objects - {h})[g] == s.objects[g];
      assert Log(s', g) == Log(s, g);
    case _ =>
  }

  lemma RegisterKeepsIce(s: State, s': State, sid: Sid, h: Handle)
    requires IceInv(s) && BufferMoves(s, s', sid, h)
    ensures IceInv(s')
  {
    PopKeepsOrder(s.candidates, sid);
    assert Unlogged(s, h);
    forall x | x in s'.candidates.table ensures BufferKnown(s', x) { MovedBuffer(s, s', sid, h, x); }
    forall g | g in s'.objects ensures SessionBuffers(s', g) && SessionLog(s', g) {
      if g == h { MovedNew(s, s', sid, h); } else {
        assert g in s'.objects - {h};
        MovedOther(s, s', sid, h, g);
      }
    }
    forall g ensures Unlogged(s', g) {
      assert Unlogged(s, g);
      if g in s.objects { assert g in s'.objects - {h}; }
    }
    forall c | c in s'.ice.fate ensures StampKnown(s', c) { MovedStamp(s, s', sid, h, c); }
    forall x | x in s'.offers ensures FlushKnown(s', x) { if x != sid { assert FlushKnown(s, x); } }
  }

  // ---------------------------------------------------------------- forwarding a candidate

  /** Candidate c of session h reaches its provider, from the front of the buffer or directly. */
  ghost predicate Forwards(s: State, s': State, h: Handle, c: Stamp, replayed: bool) {
    h in s.objects && c in s.ice.fate &&
    s' == s.(objects := s'.objects, ice := Send(s.ice, h, c, replayed)) &&
    h in s'.objects && s'.objects == s.objects[h := s'.objects[h]] && s'.objects[h].ready == s.objects[h].ready &&
    h in s.ice.wasReady &&
    (if replayed then s.objects[h].pending == [c] + s'.objects[h].pending
     else s'.objects[h].pending == s.objects[h].pending && s.ice.fate[c].Dropped?)
  }

  /** Only the forwarded candidate's fate changes. */
  lemma ForwardedFate(s: State, s': State, h: Handle, c: Stamp, replayed: bool)
    requires Forwards(s, s', h, c, replayed) && SessionBuffers(s, h)
    ensures FateIs(s', c, Sent(h)) && (s.ice.fate[c].Dropped? || s.ice.fate[c] == Pending(h))
    ensures forall d :: d in s.ice.fate && d != c ==> d in s'.ice.fate && s'.ice.fate[d] == s.ice.fate[d]
    ensures s'.ice.fate.Keys == s.ice.fate.Keys
  {
    if replayed { assert s.objects[h].pending[0] == c; assert FateIs(s, c, Pending(h)); }
  }

  lemma ForwardedBuffer(s: State, s': State, h: Handle, c: Stamp, replayed: bool, x: Sid)
    requires Forwards(s, s', h, c, replayed) && SessionBuffers(s, h)
    requires x in s.candidates.table && BufferKnown(s, x)
    ensures BufferKnown(s', x)
  {
    ForwardedFate(s, s', h, c, replayed);
    forall d | d in s.candidates.table[x] ensures FateIs(s', d, Waiting(x)) { assert FateIs(s, d, Waiting(x)); }
  }

  /** Nothing behind the front of a buffer equals the front. */
  lemma FrontIsUnique(prefix: seq<Stamp>, c: Stamp, after: seq<Stamp>, d: Stamp)
    requires Increasing(prefix + ([c] + after)) && d in after
    ensures d != c
  {
    var k :| 0 <= k < |after| && after[k] == d;
    var all := prefix + ([c] + after);
    assert all[|prefix|] == c && all[|prefix| + 1 + k] == d;
  }

  lemma ForwardedSession(s: State, s': State, h: Handle, c: Stamp, replayed: bool)
    requires Forwards(s, s', h, c, replayed) && SessionBuffers(s, h)
    ensures SessionBuffers(s', h)
  {
    ForwardedFate(s, s', h, c, replayed);
    ReplayedAppend(Log(s, h), Delivery(c, replayed));
    assert Log(s', h) == Log(s, h) + [Delivery(c, replayed)];
    var r := Replayed(Log(s, h));
    var after := s'.objects[h].pending;
    hide Replayed;
    if replayed {
      assert r + ([c] + after) == (r + [c]) + after;
      forall d | d in after ensures FateIs(s', d, Pending(h)) {
        FrontIsUnique(r, c, after, d);
        assert d in [c] + after;
        assert FateIs(s, d, Pending(h));
      }
    } else {
      assert r + [] == r;
      forall d | d in after ensures FateIs(s', d, Pending(h)) { assert FateIs(s, d, Pending(h)); }
    }
  }

  lemma ForwardedLog(s: State, s': State, h: Handle, c: Stamp, replayed: bool)
    requires Forwards(s, s', h, c, replayed) && SessionBuffers(s, h) && SessionLog(s, h)
    ensures SessionLog(s', h)
  {
    ForwardedFate(s, s', h, c, replayed);
    var log := Log(s, h);
    assert Log(s', h) == log + [Delivery(c, replayed)];
    forall i | 0 <= i < |log| ensures FateIs(s', log[i].c, Sent(h)) && log[i].c != c { assert FateIs(s, log[i].c, Sent(h)); }
  }

  lemma ForwardedOther(s: State, s': State, h: Handle, c: Stamp, replayed: bool, g: Handle)
    requires Forwards(s, s', h, c, replayed) && SessionBuffers(s, h)
    requires g in s.objects && g != h && SessionBuffers(s, g) && SessionLog(s, g)
    ensures SessionBuffers(s', g) && SessionLog(s', g)
  {
    ForwardedFate(s, s', h, c, replayed);
    assert Log(s', g) == Log(s, g) && Buffered(s', g) == Buffered(s, g);
    forall d | d in s.objects[g].pending ensures FateIs(s', d, Pending(g)) { assert FateIs(s, d, Pending(g)); }
    forall i | 0 <= i < |Log(s, g)| ensures FateIs(s', Log(s, g)[i].c, Sent(g)) { assert FateIs(s, Log(s, g)[i].c, Sent(g)); }
  }

  lemma ForwardedStamp(s: State, s': State, h: Handle, c: Stamp, replayed: bool, d: Stamp)
    requires Forwards(s, s', h, c, replayed) && SessionBuffers(s, h)
    requires d in s.ice.fate && StampKnown(s, d)
    ensures d in s'.ice.fate && StampKnown(s', d)
  {
    ForwardedFate(s, s', h, c, replayed);
    var log := Log(s, h);
    assert Log(s', h) == log + [Delivery(c, replayed)];
    if d == c {
      assert Log(s', h)[|log|].c == c;
    } else if s.ice.fate[d].Sent? {
      var g := s.ice.fate[d].h;
      var i :| 0 <= i < |Log(s, g)| && Log(s, g)[i].c == d;
      assert Log(s', g)[i].c == d;
    } else if s.ice.fate[d] == Pending(h) && replayed {
      assert d in [c] + s'.objects[h].pending;
    }
  }

  lemma ForwardKeepsIce(s: State, s': State, h: Handle, c: Stamp, replayed: bool)
    requires IceInv(s) && Forwards(s, s', h, c, replayed)
    ensures IceInv(s')
  {
    ForwardedFate(s, s', h, c, replayed);
    forall x | x in s'.candidates.table ensures BufferKnown(s', x) { ForwardedBuffer(s, s', h, c, replayed, x); }
    forall g | g in s'.objects ensures SessionBuffers(s', g) && SessionLog(s', g) {
      if g == h {
        ForwardedSession(s, s', h, c, replayed);
        ForwardedLog(s, s', h, c, replayed);
      } else { ForwardedOther(s, s', h, c, replayed, g); }
    }
    forall g ensures Unlogged(s', g) { assert Unlogged(s, g); }
    forall d | d in s'.ice.fate ensures StampKnown(s', d) { ForwardedStamp(s, s', h, c, replayed, d); }
    forall x | x in s'.offers ensures FlushKnown(s', x) { assert FlushKnown(s, x); }
  }

  // ---------------------------------------------------------------- a candidate arrives

  /** The newest candidate, not stored anywhere yet. */
  ghost predicate Newest(s: State, c: Stamp) {
    c + 1 == s.ice.arrived && FateIs(s, c, Dropped)
  }

  lemma NewestIsNowhere(s: State, c: Stamp)
    requires IceInv(s) && Newest(s, c)
    ensures forall sid :: sid in s.candidates.table ==> c !in s.candidates.table[sid]
    ensures forall h :: h in s.objects ==> c !in s.objects[h].pending
    ensures forall h, i :: h in s.objects && 0 <= i < |Log(s, h)| ==> Log(s, h)[i].c != c
  {
    forall sid | sid in s.candidates.table ensures c !in s.candidates.table[sid] { assert BufferKnown(s, sid); }
    forall h | h in s.objects ensures c !in s.objects[h].pending { assert SessionBuffers(s, h); }
    forall h, i | h in s.objects && 0 <= i < |Log(s, h)| ensures Log(s, h)[i].c != c {
      assert SessionLog(s, h);
      assert FateIs(s, Log(s, h)[i].c, Sent(h));
    }
  }

  /** Nothing but the newest candidate's fate changes, and no list of candidates loses its place. */
  ghost predicate OnlyNewest(s: State, s': State, c: Stamp) {
    s'.ice.arrived >= s.ice.arrived && s'.ice.wasReady == s.ice.wasReady && s'.ice.logs == s.ice.logs &&
    (forall d :: d in s.ice.fate && d != c ==> d in s'.ice.fate && s'.ice.fate[d] == s.ice.fate[d])
  }

  lemma UntouchedSession(s: State, s': State, c: Stamp, h: Handle)
    requires OnlyNewest(s, s', c) && h in s.objects && SessionBuffers(s, h) && SessionLog(s, h)
    requires h in s'.objects && s'.objects[h] == s.objects[h] && Buffered(s', h) == Buffered(s, h)
    requires c !in s.objects[h].pending && forall i :: 0 <= i < |Log(s, h)| ==> Log(s, h)[i].c != c
    ensures SessionBuffers(s', h) && SessionLog(s', h)
  {
    assert Log(s', h) == Log(s, h);
    forall d | d in s.objects[h].pending ensures FateIs(s', d, Pending(h)) { assert FateIs(s, d, Pending(h)); }
    forall i | 0 <= i < |Log(s, h)| ensures FateIs(s', Log(s, h)[i].c, Sent(h)) { assert FateIs(s, Log(s, h)[i].c, Sent(h)); }
  }

  lemma UntouchedBuffer(s: State, s': State, c: Stamp, x: Sid)
    requires OnlyNewest(s, s', c) && x in s.candidates.table && BufferKnown(s, x) && c !in s.candidates.table[x]
    requires x in s'.candidates.table && s'.candidates.table[x] == s.candidates.table[x]
    ensures BufferKnown(s', x)
  {
    forall d | d in s.candidates.table[x] ensures FateIs(s', d, Waiting(x)) { assert FateIs(s, d, Waiting(x)); }
  }

  lemma IncreasingAppend(cs: seq<Stamp>, c: Stamp)
    requires Increasing(cs) && forall d :: d in cs ==> d < c
    ensures Increasing(cs + [c])
  {
    forall i, j | 0 <= i < j < |cs + [c]| ensures (cs + [c])[i] < (cs + [c])[j] { assert cs[i] in cs; }
  }

  lemma ArrivedSession(s: State, h: Handle)
    requires h in s.objects && SessionBuffers(s, h) && SessionLog(s, h)
    requires forall d :: d in s.ice.fate ==> d < s.ice.arrived
    ensures SessionBuffers(Arrive(s), h) && SessionLog(Arrive(s), h)
  {
    forall d | d in s.objects[h].pending ensures d < s.ice.arrived { assert FateIs(s, d, Pending(h)); }
    forall i | 0 <= i < |Log(s, h)| ensures Log(s, h)[i].c < s.ice.arrived { assert FateIs(s, Log(s, h)[i].c, Sent(h)); }
    UntouchedSession(s, Arrive(s), s.ice.arrived, h);
  }

  lemma ArrivedStamp(s: State, d: Stamp)
    requires d in s.ice.fate && StampKnown(s, d)
    ensures d in Arrive(s).ice.fate && StampKnown(Arrive(s), d)
  {
    if s.ice.fate[d].Sent? { assert Log(Arrive(s), s.ice.fate[d].h) == Log(s, s.ice.fate[d].h); }
  }

  lemma ArriveKeepsIce(s: State)
    requires IceInv(s)
    ensures IceInv(Arrive(s)) && Newest(Arrive(s), s.ice.arrived)
  {
    var s' := Arrive(s);
    var c := s.ice.arrived;
    forall d | d in s.ice.fate ensures d < c { assert StampKnown(s, d); }
    forall x | x in s'.candidates.table ensures BufferKnown(s', x) {
      assert BufferKnown(s, x);
      UntouchedBuffer(s, s', c, x);
    }
    forall h | h in s'.objects ensures SessionBuffers(s', h) && SessionLog(s', h) { ArrivedSession(s, h); }
    forall h ensures Unlogged(s', h) { assert Unlogged(s, h); }
    forall d | d in s'.ice.fate ensures StampKnown(s', d) { if d != c { ArrivedStamp(s, d); } }
    forall x | x in s'.offers ensures FlushKnown(s', x) { assert FlushKnown(s, x); }
  }

  /** The newest candidate goes to the end of a session's buffer. */
  ghost predicate Queued(s: State, s': State, h: Handle, c: Stamp) {
    h in s.objects && |s.objects[h].pending| < MAX_PRESESSION_CANDIDATES &&
    s' == s.(objects := s.objects[h := s.objects[h].(pending := s.objects[h].pending + [c])],
             ice := s.ice.(fate := s.ice.fate[c := Pending(h)], buffered := s.ice.buffered[h := Buffered(s, h) + [c]]))
  }

  lemma QueuedSession(s: State, s': State, h: Handle, c: Stamp)
    requires Queued(s, s', h, c) && Newest(s, c) && SessionBuffers(s, h) && SessionLog(s, h)
    requires c !in s.objects[h].pending && c !in Buffered(s, h)
    requires forall i :: 0 <= i < |Log(s, h)| ==> Log(s, h)[i].c != c
    ensures SessionBuffers(s', h) && SessionLog(s', h)
  {
    assert Log(s', h) == Log(s, h);
    var r := Replayed(Log(s, h));
    hide Replayed;
    assert (r + s.objects[h].pending) + [c] == r + (s.objects[h].pending + [c]);
    forall d | d in s'.objects[h].pending ensures FateIs(s', d, Pending(h)) {
      if d != c { assert d in s.objects[h].pending; assert FateIs(s, d, Pending(h)); }
    }
    IncreasingAppend(Buffered(s, h), c);
    forall i | 0 <= i < |Log(s, h)| ensures FateIs(s', Log(s, h)[i].c, Sent(h)) { assert FateIs(s, Log(s, h)[i].c, Sent(h)); }
  }

  lemma QueuedStamp(s: State, s': State, h: Handle, c: Stamp, d: Stamp)
    requires Queued(s, s', h, c) && Newest(s, c) && d in s.ice.fate && StampKnown(s, d)
    ensures d in s'.ice.fate && StampKnown(s', d)
  {
    if d == c { assert s'.objects[h].pending[|s.objects[h].pending|] == c; }
    else if s.ice.fate[d].Sent? { assert Log(s', s.ice.fate[d].h) == Log(s, s.ice.fate[d].h); }
  }

  lemma BufferedIsOlder(s: State, c: Stamp, h: Handle)
    requires IceInv(s) && Newest(s, c) && h in s.objects
    ensures c !in Buffered(s, h)
  {
    assert SessionBuffers(s, h);
    NewestIsNowhere(s, c);
    var r := Replayed(Log(s, h));
    if c in r { ReplayedInLog(Log(s, h), c); }
  }

  lemma {:induction false} ReplayedInLog(log: seq<Delivery>, c: Stamp)
    requires c in Replayed(log)
    ensures exists i :: 0 <= i < |log| && log[i].c == c
  {
    if log == [] {
    } else if log[|log| - 1].replayed && log[|log| - 1].c == c {
    } else {
      ReplayedInLog(log[..|log| - 1], c);
      var i :| 0 <= i < |log| - 1 && log[..|log| - 1][i].c == c;
      assert log[i].c == c;
    }
  }

  lemma QueueKeepsIce(s: State, s': State, h: Handle, c: Stamp)
    requires IceInv(s) && Newest(s, c) && Queued(s, s', h, c)
    ensures IceInv(s')
  {
    hide SessionBuffers, SessionLog, StampKnown, BufferKnown;
    NewestIsNowhere(s, c);
    BufferedIsOlder(s, c, h);
    forall x | x in s'.candidates.table ensures BufferKnown(s', x) {
      assert BufferKnown(s, x);
      UntouchedBuffer(s, s', c, x);
    }
    forall g | g in s'.objects ensures SessionBuffers(s', g) && SessionLog(s', g) {
      assert SessionBuffers(s, g) && SessionLog(s, g);
      if g == h { QueuedSession(s, s', h, c); } else { UntouchedSession(s, s', c, g); }
    }
    forall g ensures Unlogged(s', g) { assert Unlogged(s, g); }
    forall d | d in s'.ice.fate ensures StampKnown(s', d) { QueuedStamp(s, s', h, c, d); }
    forall x | x in s'.offers ensures FlushKnown(s', x) { assert FlushKnown(s, x); }
  }

  lemma StoreInSessionKeepsIce(s: State, h: Handle, c: Stamp)
    requires IceInv(s) && Newest(s, c) && h in s.objects
    ensures IceInv(StoreInSession(s, h, c))
  {
    assert SessionLog(s, h);
    hide IceInv;
    if s.objects[h].ready { ForwardKeepsIce(s, StoreInSession(s, h, c), h, c, false); }
    else if |s.objects[h].pending| < MAX_PRESESSION_CANDIDATES { QueueKeepsIce(s, StoreInSession(s, h, c), h, c); }
  }

  // Before a session exists.

  lemma EvictMakesRoom(s: State, c: Stamp)
    requires IceInv(s) && Newest(s, c)
    ensures IceInv(Evict(s)) && Newest(Evict(s), c) && |Evict(s).candidates.order| < MAX_PRESESSION_SESSIONS
    ensures Evict(s).candidates.table.Keys <= s.candidates.table.Keys
  {
    if |s.candidates.order| >= MAX_PRESESSION_SESSIONS {
      var oldest := s.candidates.order[0];
      DiscardKeepsIce(s, oldest);
      PopKeepsOrder(s.candidates, oldest);
      if oldest in s.candidates.table { assert BufferKnown(s, oldest); }
      DiscardedFate(s, oldest, c);
    }
  }

  lemma EnqueueKeepsOrder(b: Buffers, sid: Sid)
    requires OrderKnown(b) && (sid in b.table || |b.order| < MAX_PRESESSION_SESSIONS)
    ensures OrderKnown(Enqueue(b, sid))
  {
  }

  lemma StoredOtherBuffer(s: State, sid: Sid, c: Stamp, x: Sid)
    requires Newest(s, c) && x in s.candidates.table && x != sid && BufferKnown(s, x) && c !in s.candidates.table[x]
    ensures x in StoreBeforeSession(s, sid, c).candidates.table && BufferKnown(StoreBeforeSession(s, sid, c), x)
  {
    hide Increasing;
    StoredTable(s, sid, c, x);
    StoredFates(s, sid, c);
  }

  lemma StoredOwnBuffer(s: State, sid: Sid, c: Stamp)
    requires Newest(s, c) && (sid in s.candidates.table ==> BufferKnown(s, sid) && c !in s.candidates.table[sid])
    ensures BufferKnown(StoreBeforeSession(s, sid, c), sid)
  {
    var was := if sid in s.candidates.table then s.candidates.table[sid] else [];
    var s' := StoreBeforeSession(s, sid, c);
    StoredFates(s, sid, c);
    IncreasingAppend(was, c);
    hide Increasing;
    forall d | d in s'.candidates.table[sid] ensures d < s'.ice.arrived && FateIs(s', d, Waiting(sid)) {
      if d != c { assert FateIs(s, d, Waiting(sid)); }
    }
  }

  lemma StoredTable(s: State, sid: Sid, c: Stamp, x: Sid)
    requires x in s.candidates.table && x != sid
    ensures
      var b := StoreBeforeSession(s, sid, c).candidates;
      x in b.table && b.table[x] == s.candidates.table[x]
  {
  }

  lemma StoredFates(s: State, sid: Sid, c: Stamp)
    ensures
      var s' := StoreBeforeSession(s, sid, c);
      s'.ice.arrived == s.ice.arrived && forall d :: d in s.ice.fate && d != c ==> d in s'.ice.fate && s'.ice.fate[d] == s.ice.fate[d]
  {
  }

  lemma StoredBuffer(s: State, sid: Sid, c: Stamp, x: Sid)
    requires Newest(s, c) && (x in s.candidates.table ==> BufferKnown(s, x) && c !in s.candidates.table[x])
    requires x in StoreBeforeSession(s, sid, c).candidates.table
    ensures BufferKnown(StoreBeforeSession(s, sid, c), x)
  {
    hide BufferKnown;
    if x == sid { StoredOwnBuffer(s, sid, c); } else { StoredOtherBuffer(s, sid, c, x); }
  }

  lemma StoredNewest(s: State, sid: Sid, c: Stamp)
    requires Newest(s, c)
    ensures c in StoreBeforeSession(s, sid, c).ice.fate && StampKnown(StoreBeforeSession(s, sid, c), c)
  {
    var b := Enqueue(s.candidates, sid).table[sid];
    assert c in b + [c];
  }

  lemma StoredOlder(s: State, sid: Sid, c: Stamp, d: Stamp)
    requires d in s.ice.fate && StampKnown(s, d) && d != c
    ensures d in StoreBeforeSession(s, sid, c).ice.fate && StampKnown(StoreBeforeSession(s, sid, c), d)
  {
    StoredFates(s, sid, c);
    match s.ice.fate[d]
    case Waiting(x) => StoredTables(s, sid, c, x, d);
    case _ =>
      StoredOnlyLogs(s, sid, c);
      StoredElsewhere(s, sid, c);
      hide StoreBeforeSession;
  }

  lemma StoredTables(s: State, sid: Sid, c: Stamp, x: Sid, d: Stamp)
    requires x in s.candidates.table && d in s.candidates.table[x]
    ensures
      var b := StoreBeforeSession(s, sid, c).candidates;
      x in b.table && d in b.table[x]
  {
    if x != sid { StoredTable(s, sid, c, x); }
  }

  lemma StoredOnlyNewest(s: State, sid: Sid, c: Stamp)
    ensures OnlyNewest(s, StoreBeforeSession(s, sid, c), c)
  {
  }

  lemma StoredElsewhere(s: State, sid: Sid, c: Stamp)
    ensures
      var s' := StoreBeforeSession(s, sid, c);
      s'.objects == s.objects && s'.offers == s.offers && s'.ice.buffered == s.ice.buffered &&
      s'.ice.arrived == s.ice.arrived && (c in s.ice.fate ==> s'.ice.fate.Keys == s.ice.fate.Keys)
  {
  }

  lemma StoredOrder(s: State, sid: Sid, c: Stamp)
    requires OrderKnown(s.candidates) && (sid in s.candidates.table || |s.candidates.order| < MAX_PRESESSION_SESSIONS)
    ensures OrderKnown(StoreBeforeSession(s, sid, c).candidates)
  {
    EnqueueKeepsOrder(s.candidates, sid);
  }

  lemma StoreBeforeSessionKeepsIce(s: State, sid: Sid, c: Stamp)
    requires IceInv(s) && Newest(s, c) && (sid in s.candidates.table || |s.candidates.order| < MAX_PRESESSION_SESSIONS)
    ensures IceInv(StoreBeforeSession(s, sid, c))
  {
    hide SessionBuffers, SessionLog, StampKnown, BufferKnown, StoreBeforeSession, OrderKnown, OnlyNewest;
    var s' := StoreBeforeSession(s, sid, c);
    NewestIsNowhere(s, c);
    StoredOrder(s, sid, c);
    StoredOnlyNewest(s, sid, c);
    StoredElsewhere(s, sid, c);
    StoredOnlyLogs(s, sid, c);
    forall x | x in s'.candidates.table ensures BufferKnown(s', x) {
      if x in s.candidates.table { assert BufferKnown(s, x); }
      StoredBuffer(s, sid, c, x);
    }
    forall h | h in s'.objects ensures SessionBuffers(s', h) && SessionLog(s', h) {
      assert SessionBuffers(s, h) && SessionLog(s, h);
      UntouchedSession(s, s', c, h);
    }
    forall h ensures Unlogged(s', h) { assert Unlogged(s, h); }
    forall d | d in s'.ice.fate ensures StampKnown(s', d) {
      if d == c { StoredNewest(s, sid, c); } else { StoredOlder(s, sid, c, d); }
    }
    forall x | x in s'.offers ensures FlushKnown(s', x) { assert FlushKnown(s, x); }
  }

  lemma StoredOnlyLogs(s: State, sid: Sid, c: Stamp)
    ensures
      var s' := StoreBeforeSession(s, sid, c);
      s'.ice == s.ice.(fate := s'.ice.fate)
  {
  }

  lemma CandidateKeepsIce(s: State, sid: Sid)
    requires IceInv(s)
    ensures IceInv(DoCandidate(s, sid))
  {
    var c := s.ice.arrived;
    var m := Arrive(s);
    hide IceInv, Newest;
    ArriveKeepsIce(s);
    if s.closing {}
    else if sid in s.active && s.active[sid] in s.objects { StoreInSessionKeepsIce(m, s.active[sid], c); }
    else if sid in s.candidates.table { StoreBeforeSessionKeepsIce(m, sid, c); }
    else {
      EvictMakesRoom(m, c);
      StoreBeforeSessionKeepsIce(Evict(m), sid, c);
    }
    hide StoreInSession, StoreBeforeSession, Evict;
  }

  // ---------------------------------------------------------------- the remaining blocks

  lemma ReadyKeepsIce(s: State, sid: Sid, h: Handle)
    requires IceInv(s) && h in s.objects
    ensures IceInv(MakeReady(s, sid, h))
  {
    var s' := MakeReady(s, sid, h);
    var m := s.(ice := s'.ice);
    forall x | x in m.candidates.table ensures BufferKnown(m, x) {
      assert BufferKnown(s, x);
      UntouchedBuffer(s, m.(ice := s.ice), s.ice.arrived, x);
    }
    forall g | g in s'.objects ensures SessionBuffers(s', g) && SessionLog(s', g) {
      assert SessionBuffers(s, g) && SessionLog(s, g);
      ReadySession(s, sid, h, g);
    }
    forall x | x in s'.candidates.table ensures BufferKnown(s', x) {
      forall d | d in s.candidates.table[x] ensures FateIs(s', d, Waiting(x)) { assert FateIs(s, d, Waiting(x)); }
    }
    forall g ensures Unlogged(s', g) { assert Unlogged(s, g); }
    forall d | d in s'.ice.fate ensures StampKnown(s', d) {
      assert StampKnown(s, d);
      if s.ice.fate[d].Sent? { assert Log(s', s.ice.fate[d].h) == Log(s, s.ice.fate[d].h); }
    }
    forall x | x in s'.offers ensures FlushKnown(s', x) { if x != sid { assert FlushKnown(s, x); } }
  }

  lemma ReadySession(s: State, sid: Sid, h: Handle, g: Handle)
    requires h in s.objects && g in s.objects && SessionBuffers(s, g) && SessionLog(s, g)
    ensures SessionBuffers(MakeReady(s, sid, h), g) && SessionLog(MakeReady(s, sid, h), g)
  {
    var s' := MakeReady(s, sid, h);
    assert Log(s', g) == Log(s, g) && Buffered(s', g) == Buffered(s, g);
    forall c | c in s.objects[g].pending ensures FateIs(s', c, Pending(g)) { assert FateIs(s, c, Pending(g)); }
    forall i | 0 <= i < |Log(s, g)| ensures FateIs(s', Log(s, g)[i].c, Sent(g)) { assert FateIs(s, Log(s, g)[i].c, Sent(g)); }
  }

  lemma DrainedSession(s: State, g: Handle)
    requires g in s.objects && SessionBuffers(s, g) && SessionLog(s, g)
    ensures SessionBuffers(DoDrained(s), g) && SessionLog(DoDrained(s), g)
  {
    var s' := DoDrained(s);
    assert Log(s', g) == Log(s, g) && Buffered(s', g) == Buffered(s, g);
    forall c | c in s.objects[g].pending ensures FateIs(s', c, Pending(g)) { assert FateIs(s, c, Pending(g)); }
    forall i | 0 <= i < |Log(s, g)| ensures FateIs(s', Log(s, g)[i].c, Sent(g)) { assert FateIs(s, Log(s, g)[i].c, Sent(g)); }
  }

  lemma DrainKeepsIce(s: State)
    requires IceInv(s)
    ensures IceInv(DoDrained(s))
  {
    var s' := DoDrained(s);
    forall g | g in s'.objects ensures SessionBuffers(s', g) && SessionLog(s', g) { DrainedSession(s, g); }
    forall g ensures Unlogged(s', g) { assert Unlogged(s, g); }
    forall d | d in s'.ice.fate ensures StampKnown(s', d) {
      assert StampKnown(s, d);
      if s.ice.fate[d].Sent? { assert Log(s', s.ice.fate[d].h) == Log(s, s.ice.fate[d].h); }
    }
    forall x | x in s'.offers ensures FlushKnown(s', x) { assert FlushKnown(s, x); }
  }

  lemma BeginCloseKeepsIce(s: State, t: Task, sid: Sid, stop: bool, force: bool, origin: Origin, s': State)
    requires IceInv(s) && s' == BeginClose(s, t, sid, stop, force, origin).(offers := s'.offers, removal := s'.removal)
    requires forall x :: x in s'.offers && s'.offers[x].Flushing? ==> x in s.offers && s'.offers[x] == s.offers[x]
    ensures IceInv(s')
  {
    hide IceInv;
    DiscardKeepsIce(s, sid);
    SameIceKeepsInv(Discard(s, sid), s');
    hide Discard;
  }

  lemma CancelHandlerKeepsIce(s: State, sid: Sid, stop: bool, t: Task)
    requires IceInv(s)
    ensures IceInv(CancelHandler(s, sid, stop, t))
  {
    hide IceInv;
    if s.closing {
      DiscardKeepsIce(s, sid);
      SameIceKeepsInv(Discard(s, sid), CancelHandler(s, sid, stop, t));
    } else {
      BeginCloseKeepsIce(s, t, sid, stop, false, OfOffer(sid), CancelHandler(s, sid, stop, t));
    }
    hide Discard;
  }

  lemma OfferCancelKeepsIce(s: State, sid: Sid, stop: bool, t: Task)
    requires IceInv(s) && sid in s.offers
    requires InnerTask(s.offers[sid]).Some? ==> InnerTask(s.offers[sid]).t in s.closers
    ensures IceInv(DoOfferCancel(s, sid, stop, t))
  {
    hide IceInv;
    var m := s.(offers := s.offers - {sid});
    if InnerTask(s.offers[sid]).Some? { m := PutBack(s, InnerTask(s.offers[sid]).t).(offers := s.offers - {sid}); }
    SameIceKeepsInv(s, m);
    hide PutBack, CancelHandler;
    if s.offers[sid].Failing? { CancelHandlerKeepsIce(m, sid, stop, t); }
    else if !s.offers[sid].ClosingOld? && !s.offers[sid].Cleaning? && !s.offers[sid].Ending? {
      CancelHandlerKeepsIce(s, sid, stop, t);
    }
  }

  lemma OfferBeginKeepsIce(s: State, sid: Sid, t: Task)
    requires IceInv(s)
    ensures IceInv(BeginOffer(s, sid, t))
  {
    hide IceInv;
    if !s.closing && sid !in s.offers {
      if sid in s.active { BeginCloseKeepsIce(s, t, sid, true, false, OfOffer(sid), BeginOffer(s, sid, t)); }
      else { SameIceKeepsInv(s, BeginOffer(s, sid, t)); }
    }
  }

  lemma OfferReturnedKeepsIce(s: State, sid: Sid, failed: bool, stop: bool, t: Task)
    requires IceInv(s) && sid in s.offers && s.offers[sid].Negotiating? && s.offers[sid].h in s.objects
    ensures IceInv(DoOfferReturned(s, sid, failed, stop, t))
  {
    hide IceInv;
    var s' := DoOfferReturned(s, sid, failed, stop, t);
    if sid !in s.active || s.active[sid] != s.offers[sid].h { SameIceKeepsInv(s, s'); }
    else if failed { BeginCloseKeepsIce(s, t, sid, stop, false, OfOffer(sid), s'); }
    else { ReadyKeepsIce(s, sid, s.offers[sid].h); }
    hide MakeReady;
  }

  lemma FlushForwards(s: State, sid: Sid, h: Handle)
    requires sid in s.offers && s.offers[sid] == Flushing(h) && h in s.objects && h in s.ice.wasReady
    requires s.objects[h].pending != [] && s.objects[h].pending[0] in s.ice.fate
    ensures Forwards(s, DoFlushStep(s, sid), h, s.objects[h].pending[0], true)
  {
    var p := s.objects[h].pending;
    assert p == [p[0]] + p[1..];
  }

  lemma FlushStepKeepsIce(s: State, sid: Sid)
    requires IceInv(s) && sid in s.offers && s.offers[sid].Flushing? && s.offers[sid].h in s.objects
    ensures IceInv(DoFlushStep(s, sid))
  {
    var h := s.offers[sid].h;
    var p := s.objects[h].pending;
    if p == [] {
      hide IceInv;
      SameIceKeepsInv(s, DoFlushStep(s, sid));
    } else {
      assert FlushKnown(s, sid) && SessionBuffers(s, h);
      hide IceInv;
      assert FateIs(s, p[0], Pending(h)) by { assert p[0] in p; }
      hide SessionBuffers;
      FlushForwards(s, sid, h);
      hide Forwards, DoFlushStep;
      ForwardKeepsIce(s, DoFlushStep(s, sid), h, p[0], true);
    }
  }

  lemma RegisterBlockKeepsIce(s: State, sid: Sid, h: Handle, resource: string, homeCall: bool, ringCall: bool, ringPreview: bool)
    requires IceInv(s) && h !in s.objects
    ensures IceInv(DoRegister(s, sid, h, resource, homeCall, ringCall, ringPreview))
  {
    hide IceInv;
    var s' := DoRegister(s, sid, h, resource, homeCall, ringCall, ringPreview);
    assert s'.objects - {h} == s.objects;
    RegisterKeepsIce(s, s', sid, h);
  }

  lemma DecisionIsSameIce(s: State, t: Task, last: bool, refreshed: bool)
    requires t in s.closers && s.closers[t].h in s.objects
    ensures SameIce(s, MakeDecision(s, t, last, refreshed))
  {
  }

  lemma CheckLastKeepsIce(s: State, t: Task)
    requires IceInv(s) && t in s.closers && s.closers[t].h in s.objects
    ensures IceInv(DoCheckLast(s, t))
  {
    hide IceInv;
    DecisionIsSameIce(s, t, !HasResource(s.active, s.objects, s.objects[s.closers[t].h].resource), false);
    hide HasResource, MakeDecision;
    SameIceKeepsInv(s, DoCheckLast(s, t));
  }

  lemma DecideKeepsIce(s: State, t: Task, ringing: Ringing)
    requires IceInv(s) && t in s.closers && s.closers[t].phase.Refreshing? && s.closers[t].h in s.objects
    ensures IceInv(DoDecide(s, t, ringing))
  {
    hide IceInv;
    var m := Refreshed(s, s.closers[t].h, ringing);
    SameIceKeepsInv(s, m);
    DecisionIsSameIce(m, t, s.closers[t].phase.last, true);
    hide MakeDecision;
    SameIceKeepsInv(m, DoDecide(s, t, ringing));
  }

  lemma CloseEventKeepsIce(s: State, e: Event)
    requires IceInv(s) && Enabled(s, e)
    requires e.OfferEnd? || e.ProviderClosed? || e.StopDone? || e.CloseCancel? || e.HomeCallEnded? || e.RemoveBegin? || e.RemoveFinish?
    ensures IceInv(Apply(s, e))
  {
    hide IceInv;
    CloseEventIsSameIce(s, e);
    hide Apply;
    SameIceKeepsInv(s, Apply(s, e));
  }

  lemma CloseEventIsSameIce(s: State, e: Event)
    requires Enabled(s, e)
    requires e.OfferEnd? || e.ProviderClosed? || e.StopDone? || e.CloseCancel? || e.HomeCallEnded? || e.RemoveBegin? || e.RemoveFinish?
    ensures SameIce(s, Apply(s, e))
  {
    hide Discard, BeginClose, DoRegister, MakeDecision, DoFlushStep, DoCandidate, DoDrained, DoRemoveNext, DoOfferReturned,
      DoOfferCancel, HandleFailure, BeginOffer, DoCheckLast, DoDecide;
  }

  lemma BeginEventKeepsIce(s: State, t: Task, sid: Sid, stop: bool, origin: Origin)
    requires IceInv(s)
    ensures IceInv(BeginClose(s, t, sid, stop, false, origin)) && IceInv(HandleFailure(s, sid, stop, t))
  {
    hide IceInv;
    BeginCloseKeepsIce(s, t, sid, stop, false, origin, BeginClose(s, t, sid, stop, false, origin));
    BeginCloseKeepsIce(s, t, sid, stop, false, OfOffer(sid), HandleFailure(s, sid, stop, t));
  }

  lemma RemoveNextKeepsIce(s: State, t: Task, current: bool)
    requires IceInv(s) && s.removal.Removing? && s.removal.queue != []
    ensures IceInv(DoRemoveNext(s, t, current))
  {
    hide IceInv;
    BeginCloseKeepsIce(s, t, s.removal.queue[0], current, current, OfRemoval, DoRemoveNext(s, t, current));
  }

  lemma StepKeepsIce(s: State, e: Event)
    requires IceInv(s) && Enabled(s, e)
    ensures IceInv(Apply(s, e))
  {
    hide IceInv;
    hide BeginOffer, DoRegister, DoOfferReturned, DoFlushStep, HandleFailure, DoOfferCancel, BeginClose,
      DoProviderClosed, DoCheckLast, DoDecide, EndClose, PutBack, DoCandidate, MarkInactive, DoDrained, DoRemoveNext;
    match e
    case OfferBegin(sid, t) => OfferBeginKeepsIce(s, sid, t);
    case Register(sid, h, resource, homeCall, ringCall, ringPreview) =>
      RegisterBlockKeepsIce(s, sid, h, resource, homeCall, ringCall, ringPreview);
    case OfferReturned(sid, failed, stop, t) => OfferReturnedKeepsIce(s, sid, failed, stop, t);
    case FlushStep(sid) => FlushStepKeepsIce(s, sid);
    case OfferFail(sid, stop, t) => BeginEventKeepsIce(s, t, sid, stop, Tracked);
    case OfferCancel(sid, stop, t) => OfferCancelKeepsIce(s, sid, stop, t);
    case CloseBegin(t, sid, stop, origin) => BeginEventKeepsIce(s, t, sid, stop, origin);
    case CheckLast(t) => CheckLastKeepsIce(s, t);
    case Decide(t, ringing) => DecideKeepsIce(s, t, ringing);
    case Candidate(sid) => CandidateKeepsIce(s, sid);
    case RemoveDrained => DrainKeepsIce(s);
    case RemoveNext(t, current) => RemoveNextKeepsIce(s, t, current);
    case _ => CloseEventKeepsIce(s, e);
  }

  lemma {:induction false} RunKeepsIce(s: State, es: seq<Event>)
    requires IceInv(s) && Possible(s, es)
    ensures IceInv(Run(s, es))
    decreases |es|
  {
    if es == [] {
    } else {
      StepKeepsIce(s, es[0]);
      hide IceInv, Apply;
      RunKeepsIce(Apply(s, es[0]), es[1..]);
    }
  }

  // ---------------------------------------------------------------- theorems

  /** At all times at most 16 ids have a pre-session buffer, and no buffer holds more than 64 candidates. */
  lemma BuffersAreBounded(es: seq<Event>)
    requires Possible(INITIAL, es)
    ensures
      var s := Run(INITIAL, es);
      |s.candidates.table| <= 16 &&
      (forall sid :: sid in s.candidates.table ==> |s.candidates.table[sid]| <= 64) &&
      (forall h :: h in s.objects ==> |s.objects[h].pending| <= 64)
  {
    RunKeepsIce(INITIAL, es);
    var s := Run(INITIAL, es);
    forall sid | sid in s.candidates.table ensures |s.candidates.table[sid]| <= 64 { assert BufferKnown(s, sid); }
    forall h | h in s.objects ensures |s.objects[h].pending| <= 64 { assert SessionBuffers(s, h); }
    CardinalityOfListed(s.candidates.order, s.candidates.table.Keys);
    assert |s.candidates.table| == |s.candidates.table.Keys|;
  }

  lemma {:induction false} CardinalityOfListed(order: seq<Sid>, ids: set<Sid>)
    requires forall sid :: sid in ids ==> sid in order
    ensures |ids| <= |order|
  {
    if order == [] {
      assert ids == {};
    } else {
      CardinalityOfListed(order[1..], ids - {order[0]});
    }
  }

  /** Nothing reaches a provider before its session first became ready; what was buffered for a session, before
      or after it existed, reaches the provider exactly once and in the order of arrival, up to what its buffer
      still holds; and the provider gets no candidate twice. */
  lemma CandidatesAreReplayedInOrder(es: seq<Event>, h: Handle)
    requires Possible(INITIAL, es) && h in Run(INITIAL, es).objects
    ensures
      var s := Run(INITIAL, es);
      (Log(s, h) != [] ==> h in s.ice.wasReady) &&
      Replayed(Log(s, h)) + s.objects[h].pending == Buffered(s, h) && Increasing(Buffered(s, h)) &&
      NoDuplicates(Log(s, h))
  {
    RunKeepsIce(INITIAL, es);
    assert SessionBuffers(Run(INITIAL, es), h) && SessionLog(Run(INITIAL, es), h);
  }

  /** Each candidate that ever arrived is in one place: waiting for its session, in one session's buffer, with
      one session's provider, or dropped. */
  lemma EveryCandidateIsInOnePlace(es: seq<Event>, c: Stamp)
    requires Possible(INITIAL, es)
    ensures
      var s := Run(INITIAL, es);
      (c < s.ice.arrived <==> c in s.ice.fate) &&
      (forall sid :: sid in s.candidates.table ==> (c in s.candidates.table[sid] <==> FateIs(s, c, Waiting(sid)))) &&
      (forall h :: h in s.objects ==> (c in s.objects[h].pending <==> FateIs(s, c, Pending(h)))) &&
      (forall h :: h in s.objects ==> (InLog(Log(s, h), c) <==> FateIs(s, c, Sent(h))))
  {
    RunKeepsIce(INITIAL, es);
    var s := Run(INITIAL, es);
    if c in s.ice.fate { assert StampKnown(s, c); }
    forall sid | sid in s.candidates.table ensures c in s.candidates.table[sid] <==> FateIs(s, c, Waiting(sid)) {
      assert BufferKnown(s, sid);
    }
    forall h | h in s.objects ensures c in s.objects[h].pending <==> FateIs(s, c, Pending(h)) { assert SessionBuffers(s, h); }
    forall h | h in s.objects ensures InLog(Log(s, h), c) <==> FateIs(s, c, Sent(h)) { assert SessionLog(s, h); }
  }
}

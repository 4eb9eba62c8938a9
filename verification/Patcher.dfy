/** Patching a copy of a known binary: hash-verified ranges, written in place, and nothing else. */
module Patcher {

  import opened ByteStrings
  import opened Options

  /** A SHA-256 digest as a number. */
  type Digest = nat

  datatype Write = Write(offset: int, data: Bytes)

  datatype Patch = Patch(offset: nat, length: nat, expected: Digest, patched: Digest, writes: seq<Write>)

  datatype Error = Unsupported | PrecheckFailed | WriteOutOfRange | VerificationFailed

  datatype Result = Patched(data: Bytes) | Refused(error: Error)

  // ---------------------------------------------------------------- the patcher on values

  function Overwrite(d: Bytes, at: nat, data: Bytes): (r: Bytes)
    requires at + |data| <= |d|
    ensures |r| == |d|
    ensures forall k :: 0 <= k < |d| ==> r[k] == if at <= k < at + |data| then data[k - at] else d[k]
  {
    d[..at] + data + d[at + |data|..]
  }

  /** `_verify_range` */
  predicate Verify(hash: Bytes -> Digest, d: Bytes, p: Patch, digest: Digest) {
    p.offset + p.length <= |d| && hash(d[p.offset..p.offset + p.length]) == digest
  }

  predicate InRange(p: Patch, w: Write) { 0 <= w.offset && w.offset + |w.data| <= p.length }

  function WriteFrom(d: Bytes, p: Patch, j: nat): (r: Result)
    requires p.offset + p.length <= |d| && j <= |p.writes|
    ensures r.Patched? ==> |r.data| == |d|
    decreases |p.writes| - j
  {
    if j == |p.writes| then Patched(d)
    else
      var w := p.writes[j];
      if !InRange(p, w) then Refused(WriteOutOfRange)
      else WriteFrom(Overwrite(d, p.offset + w.offset, w.data), p, j + 1)
  }

  function PatchOne(hash: Bytes -> Digest, d: Bytes, p: Patch): (r: Result)
    ensures r.Patched? ==> |r.data| == |d|
  {
    if !Verify(hash, d, p, p.expected) then Refused(PrecheckFailed)
    else
      var r := WriteFrom(d, p, 0);
      if r.Refused? then r
      else if !Verify(hash, r.data, p, p.patched) then Refused(VerificationFailed)
      else r
  }

  function PatchFrom(hash: Bytes -> Digest, d: Bytes, table: seq<Patch>, i: nat): (r: Result)
    requires i <= |table|
    ensures r.Patched? ==> |r.data| == |d|
    decreases |table| - i
  {
    if i == |table| then Patched(d)
    else
      var r := PatchOne(hash, d, table[i]);
      if r.Refused? then r else PatchFrom(hash, r.data, table, i + 1)
  }

  // ---------------------------------------------------------------- the patcher in place

  class TargetFile {
    var content: Option<Bytes>
  }

  method CopyInto(a: array<Byte>, at: nat, data: Bytes)
    requires at + |data| <= a.Length
    modifies a
    ensures a[..] == Overwrite(old(a[..]), at, data)
    ensures forall k :: at <= k < at + |data| ==> a[k] == data[k - at]
    ensures forall k :: 0 <= k < a.Length && !(at <= k < at + |data|) ==> a[k] == old(a[k])
  {
    ghost var was := a[..];
    for k := 0 to |data|
      invariant forall i :: 0 <= i < a.Length ==> a[i] == if at <= i < at + k then data[i - at] else was[i]
    {
      a[at + k] := data[k];
    }
    assert a[..] == Overwrite(was, at, data);
  }

  /** The inner loop: the writes of one patch, checked against its range. */
  method WritePatch(a: array<Byte>, patch: Patch) returns (ok: bool)
    requires patch.offset + patch.length <= a.Length
    modifies a
    ensures var r := WriteFrom(old(a[..]), patch, 0); ok == r.Patched? && (ok ==> a[..] == r.data)
    ensures !ok ==> WriteFrom(old(a[..]), patch, 0) == Refused(WriteOutOfRange)
  {
    for j := 0 to |patch.writes|
      invariant WriteFrom(old(a[..]), patch, 0) == WriteFrom(a[..], patch, j)
    {
      var write := patch.writes[j];
      if write.offset < 0 || patch.offset + write.offset + |write.data| > patch.offset + patch.length { return false; }
      CopyInto(a, patch.offset + write.offset, write.data);
    }
    ok := true;
  }

  /** `patch_routing` for a given table; the target is written only on success. */
  method PatchRouting(source: Bytes, target: TargetFile, hash: Bytes -> Digest, stock: Digest, table: seq<Patch>)
    returns (r: Result)
    modifies target
    ensures r == if hash(source) != stock then Refused(Unsupported) else PatchFrom(hash, source, table, 0)
    ensures r.Refused? ==> unchanged(target)
    ensures r.Patched? ==> target.content == Some(r.data)
  {
    var data := new Byte[|source|](i requires 0 <= i < |source| => source[i]);
    assert data[..] == source;
    if hash(data[..]) != stock { return Refused(Unsupported); }
    for i := 0 to |table|
      invariant data.Length == |source| && unchanged(target)
      invariant PatchFrom(hash, source, table, 0) == PatchFrom(hash, data[..], table, i)
    {
      var patch := table[i];
      if !Verify(hash, data[..], patch, patch.expected) { return Refused(PrecheckFailed); }
      ghost var before := data[..];
      var ok := WritePatch(data, patch);
      assert ok ==> WriteFrom(before, patch, 0) == Patched(data[..]);
      if !ok { return Refused(WriteOutOfRange); }
      if !Verify(hash, data[..], patch, patch.patched) { return Refused(VerificationFailed); }
    }
    target.content := Some(data[..]);
    r := Patched(data[..]);
  }

  // ---------------------------------------------------------------- what a table with disjoint ranges does

  predicate Apart(p: Patch, q: Patch) { p.offset + p.length <= q.offset || q.offset + q.length <= p.offset }

  predicate Disjoint(table: seq<Patch>) { forall i, j :: 0 <= i < j < |table| ==> Apart(table[i], table[j]) }

  /** The writes of one patch applied to the bytes of its own range. */
  function Local(s: Bytes, writes: seq<Write>): Bytes
    decreases |writes|
  {
    if writes == [] then s
    else
      var w := writes[0];
      if 0 <= w.offset && w.offset + |w.data| <= |s| then Local(Overwrite(s, w.offset, w.data), writes[1..])
      else Local(s, writes[1..])
  }

  function Range(d: Bytes, p: Patch): Bytes
    requires p.offset + p.length <= |d|
  {
    d[p.offset..p.offset + p.length]
  }

  /** A patch that the data can take, judged by the bytes of its own range alone. */
  predicate Takes(hash: Bytes -> Digest, d: Bytes, p: Patch) {
    p.offset + p.length <= |d| && hash(Range(d, p)) == p.expected &&
    (forall j :: 0 <= j < |p.writes| ==> InRange(p, p.writes[j])) &&
    hash(Local(Range(d, p), p.writes)) == p.patched
  }

  predicate SameOutside(d: Bytes, e: Bytes, p: Patch) {
    |e| == |d| && forall k :: 0 <= k < |d| && !(p.offset <= k < p.offset + p.length) ==> e[k] == d[k]
  }

  lemma OverwriteInRange(d: Bytes, p: Patch, w: Write)
    requires p.offset + p.length <= |d| && InRange(p, w)
    ensures var e := Overwrite(d, p.offset + w.offset, w.data);
      SameOutside(d, e, p) && Range(e, p) == Overwrite(Range(d, p), w.offset, w.data)
  {
    var e, at := Overwrite(d, p.offset + w.offset, w.data), p.offset + w.offset;
    forall k | 0 <= k < |d| ensures e[k] == if at <= k < at + |w.data| then w.data[k - at] else d[k] {
    }
    var r, s := Range(d, p), Overwrite(Range(d, p), w.offset, w.data);
    forall k | 0 <= k < p.length ensures s[k] == e[p.offset + k] {
      assert r[k] == d[p.offset + k];
    }
  }

  lemma {:induction false} WritesAreLocal(d: Bytes, p: Patch, j: nat)
    requires p.offset + p.length <= |d| && j <= |p.writes|
    ensures var r := WriteFrom(d, p, j);
      (r.Patched? <==> forall i :: j <= i < |p.writes| ==> InRange(p, p.writes[i])) &&
      (r.Patched? ==> SameOutside(d, r.data, p) && Range(r.data, p) == Local(Range(d, p), p.writes[j..]))
    decreases |p.writes| - j
  {
    if j < |p.writes| && InRange(p, p.writes[j]) {
      var w := p.writes[j];
      OverwriteInRange(d, p, w);
      WritesAreLocal(Overwrite(d, p.offset + w.offset, w.data), p, j + 1);
      assert p.writes[j..][1..] == p.writes[j + 1..];
    }
  }

  lemma PatchOneExactly(hash: Bytes -> Digest, d: Bytes, p: Patch)
    ensures var r := PatchOne(hash, d, p);
      (r.Patched? <==> Takes(hash, d, p)) &&
      (r.Patched? ==> SameOutside(d, r.data, p) && Range(r.data, p) == Local(Range(d, p), p.writes))
  {
    if p.offset + p.length <= |d| {
      WritesAreLocal(d, p, 0);
      assert p.writes[0..] == p.writes;
    }
  }

  lemma ApartRangeIsKept(d: Bytes, e: Bytes, p: Patch, q: Patch)
    requires SameOutside(d, e, p) && Apart(p, q) && q.offset + q.length <= |d|
    ensures Range(e, q) == Range(d, q)
  {
  }

  predicate Outside(table: seq<Patch>, i: nat, k: nat) {
    forall j :: i <= j < |table| ==> !(table[j].offset <= k < table[j].offset + table[j].length)
  }

  /** The overlay of the patches from the `i`th on. */
  predicate Overlay(d: Bytes, e: Bytes, table: seq<Patch>, i: nat) {
    |e| == |d| &&
    (forall k :: 0 <= k < |d| && Outside(table, i, k) ==> e[k] == d[k]) &&
    (forall j :: i <= j < |table| ==>
      table[j].offset + table[j].length <= |d| && Range(e, table[j]) == Local(Range(d, table[j]), table[j].writes))
  }

  lemma {:induction false} PatchFromExactly(hash: Bytes -> Digest, d: Bytes, table: seq<Patch>, i: nat)
    requires Disjoint(table) && i <= |table|
    ensures var r := PatchFrom(hash, d, table, i);
      (r.Patched? <==> forall j :: i <= j < |table| ==> Takes(hash, d, table[j])) &&
      (r.Patched? ==> Overlay(d, r.data, table, i))
    decreases |table| - i
  {
    if i < |table| {
      var p := table[i];
      PatchOneExactly(hash, d, p);
      var one := PatchOne(hash, d, p);
      if one.Patched? {
        var e := one.data;
        PatchFromExactly(hash, e, table, i + 1);
        forall j | i < j < |table| ensures Takes(hash, d, table[j]) <==> Takes(hash, e, table[j]) {
          if table[j].offset + table[j].length <= |d| { ApartRangeIsKept(d, e, p, table[j]); }
        }
        var r := PatchFrom(hash, e, table, i + 1);
        if r.Patched? {
          OverlayFirst(d, e, r.data, table, i);
        }
      }
    }
  }

  lemma OverlayFirst(d: Bytes, e: Bytes, f: Bytes, table: seq<Patch>, i: nat)
    requires Disjoint(table) && i < |table| && table[i].offset + table[i].length <= |d|
    requires SameOutside(d, e, table[i]) && Range(e, table[i]) == Local(Range(d, table[i]), table[i].writes)
    requires Overlay(e, f, table, i + 1)
    ensures Overlay(d, f, table, i)
  {
    var p := table[i];
    forall k | p.offset <= k < p.offset + p.length ensures f[k] == e[k] {
      assert Outside(table, i + 1, k);
    }
    assert Range(f, p) == Range(e, p);
    forall j | i < j < |table| ensures Range(f, table[j]) == Local(Range(d, table[j]), table[j].writes) {
      ApartRangeIsKept(d, e, p, table[j]);
    }
    forall k | 0 <= k < |d| && Outside(table, i, k) ensures f[k] == d[k] {
      assert Outside(table, i + 1, k);
      assert e[k] == d[k];
    }
  }

  /** A table with disjoint ranges patches exactly the data each of whose ranges takes its patch by itself. Then
      the length is kept, bytes outside the ranges are kept, and every range, not only the last, has its patched
      digest. */
  lemma PatchedExactly(hash: Bytes -> Digest, d: Bytes, table: seq<Patch>)
    requires Disjoint(table)
    ensures var r := PatchFrom(hash, d, table, 0);
      (r.Patched? <==> forall j :: 0 <= j < |table| ==> Takes(hash, d, table[j])) &&
      (r.Patched? ==> Overlay(d, r.data, table, 0)) &&
      (r.Patched? ==> forall j :: 0 <= j < |table| ==> Verify(hash, r.data, table[j], table[j].patched))
  {
    PatchFromExactly(hash, d, table, 0);
  }

  /** Why a patch cannot be taken by the data: the first of the three tests that fails. */
  function Reason(hash: Bytes -> Digest, d: Bytes, p: Patch): Error {
    if p.offset + p.length > |d| || hash(Range(d, p)) != p.expected then PrecheckFailed
    else if exists j :: 0 <= j < |p.writes| && !InRange(p, p.writes[j]) then WriteOutOfRange
    else VerificationFailed
  }

  /** The first patch, from the `i`th on, that the data does not take. */
  predicate FirstRefused(hash: Bytes -> Digest, d: Bytes, table: seq<Patch>, i: nat, j: nat) {
    i <= j < |table| && !Takes(hash, d, table[j]) && forall k :: i <= k < j ==> Takes(hash, d, table[k])
  }

  lemma ReasonIsKept(hash: Bytes -> Digest, d: Bytes, e: Bytes, p: Patch, q: Patch)
    requires SameOutside(d, e, p) && Apart(p, q)
    ensures Takes(hash, d, q) <==> Takes(hash, e, q)
    ensures Reason(hash, d, q) == Reason(hash, e, q)
  {
    if q.offset + q.length <= |d| { ApartRangeIsKept(d, e, p, q); }
  }

  lemma PatchOneRefuses(hash: Bytes -> Digest, d: Bytes, p: Patch)
    requires !Takes(hash, d, p)
    ensures PatchOne(hash, d, p) == Refused(Reason(hash, d, p))
  {
    PatchOneExactly(hash, d, p);
    if p.offset + p.length <= |d| {
      WritesAreLocal(d, p, 0);
      OnlyRangeErrors(d, p, 0);
      assert p.writes[0..] == p.writes;
    }
  }

  lemma {:induction false} OnlyRangeErrors(d: Bytes, p: Patch, j: nat)
    requires p.offset + p.length <= |d| && j <= |p.writes|
    ensures WriteFrom(d, p, j).Refused? ==> WriteFrom(d, p, j) == Refused(WriteOutOfRange)
    decreases |p.writes| - j
  {
    if j < |p.writes| && InRange(p, p.writes[j]) {
      OnlyRangeErrors(Overwrite(d, p.offset + p.writes[j].offset, p.writes[j].data), p, j + 1);
    }
  }

  lemma {:induction false} RefusesFrom(hash: Bytes -> Digest, d: Bytes, table: seq<Patch>, i: nat, j: nat)
    requires Disjoint(table) && FirstRefused(hash, d, table, i, j)
    ensures PatchFrom(hash, d, table, i) == Refused(Reason(hash, d, table[j]))
    decreases |table| - i
  {
    var p := table[i];
    if i == j {
      PatchOneRefuses(hash, d, p);
    } else {
      PatchOneExactly(hash, d, p);
      var e := PatchOne(hash, d, p).data;
      hide Takes, PatchOne, Reason;
      forall k | i < k <= j ensures Takes(hash, e, table[k]) <==> Takes(hash, d, table[k]) {
        ReasonIsKept(hash, d, e, p, table[k]);
      }
      ReasonIsKept(hash, d, e, p, table[j]);
      RefusesFrom(hash, e, table, i + 1, j);
    }
  }

  /** A refusal is that of the first patch the data does not take by itself: its precheck if the range is not there or
      has another digest than expected, else a write out of its range, else the digest of what was written. */
  lemma RefusedExactly(hash: Bytes -> Digest, d: Bytes, table: seq<Patch>, j: nat)
    requires Disjoint(table) && FirstRefused(hash, d, table, 0, j)
    ensures PatchFrom(hash, d, table, 0) == Refused(Reason(hash, d, table[j]))
  {
    RefusesFrom(hash, d, table, 0, j);
  }

  predicate Covers(p: Patch, w: Write, k: int) { p.offset + w.offset <= k < p.offset + w.offset + |w.data| }

  lemma {:induction false} LocalKeeps(s: Bytes, writes: seq<Write>, k: nat)
    requires k < |s| && forall j :: 0 <= j < |writes| ==> !(writes[j].offset <= k < writes[j].offset + |writes[j].data|)
    ensures |Local(s, writes)| == |s| && Local(s, writes)[k] == s[k]
    decreases |writes|
  {
    if writes != [] {
      var w := writes[0];
      assert forall j :: 0 <= j < |writes| - 1 ==> writes[1..][j] == writes[j + 1];
      if 0 <= w.offset && w.offset + |w.data| <= |s| {
        var t := Overwrite(s, w.offset, w.data);
        assert t[k] == s[k];
        LocalKeeps(t, writes[1..], k);
      } else {
        LocalKeeps(s, writes[1..], k);
      }
    }
  }

  lemma {:induction false} LocalWrites(s: Bytes, writes: seq<Write>, j: nat, k: nat)
    requires forall i :: 0 <= i < |writes| ==> 0 <= writes[i].offset && writes[i].offset + |writes[i].data| <= |s|
    requires j < |writes| && writes[j].offset <= k < writes[j].offset + |writes[j].data|
    requires forall i :: j < i < |writes| ==> !(writes[i].offset <= k < writes[i].offset + |writes[i].data|)
    ensures |Local(s, writes)| == |s| && Local(s, writes)[k] == writes[j].data[k - writes[j].offset]
    decreases |writes|
  {
    var t := Overwrite(s, writes[0].offset, writes[0].data);
    assert forall i :: 0 <= i < |writes| - 1 ==> writes[1..][i] == writes[i + 1];
    if j == 0 { LocalKeeps(t, writes[1..], k); } else { LocalWrites(t, writes[1..], j - 1, k); }
  }

  /** Every byte of a listed write is in the result, unless a later write of the same patch covers it. */
  lemma ListedBytesAreWritten(hash: Bytes -> Digest, d: Bytes, table: seq<Patch>, i: nat, j: nat, k: nat)
    requires Disjoint(table) && PatchFrom(hash, d, table, 0).Patched? && i < |table| && j < |table[i].writes|
    requires k < |table[i].writes[j].data|
    requires var p := table[i];
      forall l :: j < l < |p.writes| ==> !Covers(p, p.writes[l], p.offset + p.writes[j].offset + k)
    ensures var e, p := PatchFrom(hash, d, table, 0).data, table[i];
      0 <= p.offset + p.writes[j].offset + k < |e| &&
      e[p.offset + p.writes[j].offset + k] == p.writes[j].data[k]
  {
    hide PatchFrom, Verify, Disjoint, Covers, Range, Local, Overlay, Takes;
    PatchedExactly(hash, d, table);
    var e, p := PatchFrom(hash, d, table, 0).data, table[i];
    OverlayAt(hash, d, e, table, i);
    WrittenInRange(d, e, p, j, k);
  }

  lemma OverlayAt(hash: Bytes -> Digest, d: Bytes, e: Bytes, table: seq<Patch>, i: nat)
    requires Overlay(d, e, table, 0) && i < |table| && Takes(hash, d, table[i])
    ensures var p := table[i];
      p.offset + p.length <= |d| == |e| && Range(e, p) == Local(Range(d, p), p.writes) &&
      forall l :: 0 <= l < |p.writes| ==> InRange(p, p.writes[l])
  {
    hide Range, Local;
  }

  lemma WrittenInRange(d: Bytes, e: Bytes, p: Patch, j: nat, k: nat)
    requires p.offset + p.length <= |d| == |e| && Range(e, p) == Local(Range(d, p), p.writes)
    requires j < |p.writes| && k < |p.writes[j].data| && forall l :: 0 <= l < |p.writes| ==> InRange(p, p.writes[l])
    requires forall l :: j < l < |p.writes| ==> !Covers(p, p.writes[l], p.offset + p.writes[j].offset + k)
    ensures 0 <= p.offset + p.writes[j].offset + k < |e|
    ensures e[p.offset + p.writes[j].offset + k] == p.writes[j].data[k]
  {
    assert InRange(p, p.writes[j]);
    var at := p.writes[j].offset + k;
    forall l | j < l < |p.writes| ensures !(p.writes[l].offset <= at < p.writes[l].offset + |p.writes[l].data|) {
      assert !Covers(p, p.writes[l], p.offset + at);
    }
    LocalWrites(Range(d, p), p.writes, j, at);
    assert Range(e, p)[at] == e[p.offset + at];
  }

  /** No byte changes unless one of the listed writes covers it. */
  lemma OnlyListedWrites(hash: Bytes -> Digest, d: Bytes, table: seq<Patch>, k: nat)
    requires Disjoint(table) && PatchFrom(hash, d, table, 0).Patched? && k < |d|
    requires forall i, j :: 0 <= i < |table| && 0 <= j < |table[i].writes| ==> !Covers(table[i], table[i].writes[j], k)
    ensures PatchFrom(hash, d, table, 0).data[k] == d[k]
  {
    PatchedExactly(hash, d, table);
    var e := PatchFrom(hash, d, table, 0).data;
    hide PatchFrom, Takes, Verify, Local, Disjoint, Range;
    if !Outside(table, 0, k) {
      var i :| 0 <= i < |table| && table[i].offset <= k < table[i].offset + table[i].length;
      forall j | 0 <= j < |table[i].writes| ensures !Covers(table[i], table[i].writes[j], k) {
      }
      hide Covers;
      InsideRange(d, e, table[i], k);
    }
  }

  lemma InsideRange(d: Bytes, e: Bytes, p: Patch, k: nat)
    requires p.offset <= k < p.offset + p.length <= |d| == |e| && Range(e, p) == Local(Range(d, p), p.writes)
    requires forall j :: 0 <= j < |p.writes| ==> !Covers(p, p.writes[j], k)
    ensures e[k] == d[k]
  {
    LocalKeeps(Range(d, p), p.writes, k - p.offset);
    assert Range(e, p)[k - p.offset] == e[k];
  }

  /** The order of the patches does not matter. */
  lemma OrderDoesNotMatter(hash: Bytes -> Digest, d: Bytes, table: seq<Patch>, other: seq<Patch>)
    requires Disjoint(table) && Disjoint(other) && forall p :: p in table <==> p in other
    ensures var r, q := PatchFrom(hash, d, table, 0), PatchFrom(hash, d, other, 0);
      (r.Patched? <==> q.Patched?) && (r.Patched? ==> r == q)
  {
    PatchedExactly(hash, d, table);
    PatchedExactly(hash, d, other);
    var r, q := PatchFrom(hash, d, table, 0), PatchFrom(hash, d, other, 0);
    hide PatchFrom, Takes, Overlay, Disjoint, Verify;
    if r.Patched? { SameDemand(hash, d, table, other); }
    if q.Patched? { SameDemand(hash, d, other, table); }
    if r.Patched? && q.Patched? {
      forall k | 0 <= k < |d| ensures r.data[k] == q.data[k] { SameByte(d, r.data, q.data, table, other, k); }
    }
  }

  lemma SameDemand(hash: Bytes -> Digest, d: Bytes, table: seq<Patch>, other: seq<Patch>)
    requires (forall p :: p in other ==> p in table) && forall j :: 0 <= j < |table| ==> Takes(hash, d, table[j])
    ensures forall j :: 0 <= j < |other| ==> Takes(hash, d, other[j])
  {
    hide Takes;
    forall j | 0 <= j < |other| ensures Takes(hash, d, other[j]) { assert other[j] in table; }
  }

  lemma SameByte(d: Bytes, e: Bytes, f: Bytes, table: seq<Patch>, other: seq<Patch>, k: nat)
    requires Overlay(d, e, table, 0) && Overlay(d, f, other, 0) && forall p :: p in table <==> p in other
    requires k < |d|
    ensures e[k] == f[k]
  {
    if Outside(table, 0, k) {
      forall j | 0 <= j < |other| ensures !(other[j].offset <= k < other[j].offset + other[j].length) {
        assert other[j] in table;
      }
      assert Outside(other, 0, k);
    } else {
      var i :| 0 <= i < |table| && table[i].offset <= k < table[i].offset + table[i].length;
      var p := table[i];
      assert p in other;
      assert Range(e, p)[k - p.offset] == e[k] && Range(f, p)[k - p.offset] == f[k];
    }
  }
}

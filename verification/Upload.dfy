/** Uploading the packaged agent bundle in chunks: prepare, every file, the manifest, then apply. */
module Upload {
  import opened ByteStrings
  import opened Options

  const CHUNK := 2048
  const MANIFEST_PATH := "device_agent/bundle.json"

  /** A file entry of the bundle's metadata; an empty text stands for a missing value. */
  datatype Entry = NotARecord | Entry(path: string, sha256: string, mode: string)

  datatype Bundle = Bundle(hash: string, agentVersion: string, version: string, files: Option<seq<Entry>>)

  datatype Request =
    | Prepare(hash: string, version: string)
    | Chunk(path: string, sha256: string, mode: string, offset: nat, data: Bytes, final: bool)
    | Apply(hash: string)

  /** The packaged files by path (none when unreadable), which paths resolve inside the package, and the digest. */
  datatype Package = Package(content: string -> Option<Bytes>, inside: string -> bool, digest: Bytes -> string)

  /** The maintenance API as the updater meets it: a record of its requests, of which so many are answered. */
  class Api {
    const answered: nat
    var trace: seq<Request>

    constructor (answered: nat)
      ensures this.answered == answered && trace == []
    {
      this.answered, trace := answered, [];
    }

    predicate Answering()
      reads this
    {
      |trace| <= answered
    }

    method Send(r: Request) returns (ok: bool)
      requires Answering()
      modifies this
      ensures trace == old(trace) + [r] && ok == (|trace| <= answered)
    {
      trace := trace + [r];
      ok := |trace| <= answered;
    }
  }

  // ---------------------------------------------------------------- one file

  /** The chunks of a file from an offset on. */
  function ChunksFrom(path: string, sha256: string, mode: string, data: Bytes, offset: nat): seq<Request>
    requires offset <= |data|
    decreases |data| - offset
  {
    if offset == |data| then []
    else
      var end := if offset + CHUNK < |data| then offset + CHUNK else |data|;
      [Chunk(path, sha256, mode, offset, data[offset..end], end == |data|)] + ChunksFrom(path, sha256, mode, data, end)
  }

  function ChunksOf(path: string, sha256: string, mode: string, data: Bytes): seq<Request> {
    if data == [] then [Chunk(path, sha256, mode, 0, [], true)] else ChunksFrom(path, sha256, mode, data, 0)
  }

  /** What the chunks carry, joined in order. */
  function Joined(chunks: seq<Request>): Bytes
    decreases |chunks|
  {
    if chunks == [] then [] else (if chunks[0].Chunk? then chunks[0].data else []) + Joined(chunks[1..])
  }

  /** Chunks that a receiver can append one after the other, starting at `offset`. */
  predicate Contiguous(chunks: seq<Request>, offset: nat)
    decreases |chunks|
  {
    chunks == [] ||
    (chunks[0].Chunk? && chunks[0].offset == offset && Contiguous(chunks[1..], offset + |chunks[0].data|))
  }

  predicate OnlyLastIsFinal(chunks: seq<Request>) {
    chunks != [] && forall i :: 0 <= i < |chunks| ==> chunks[i].Chunk? && (chunks[i].final <==> i == |chunks| - 1)
  }

  predicate ForFile(chunks: seq<Request>, path: string, sha256: string, mode: string) {
    forall c :: c in chunks ==> c.Chunk? && c.path == path && c.sha256 == sha256 && c.mode == mode && |c.data| <= 2048
  }

  lemma {:induction false} ChunksFromJoin(path: string, sha256: string, mode: string, data: Bytes, offset: nat)
    requires offset <= |data|
    ensures var chunks := ChunksFrom(path, sha256, mode, data, offset);
      Joined(chunks) == data[offset..] && Contiguous(chunks, offset)
    decreases |data| - offset
  {
    if offset < |data| {
      var end := if offset + CHUNK < |data| then offset + CHUNK else |data|;
      ChunksFromJoin(path, sha256, mode, data, end);
      var chunks := ChunksFrom(path, sha256, mode, data, offset);
      assert chunks[1..] == ChunksFrom(path, sha256, mode, data, end);
      assert data[offset..end] + data[end..] == data[offset..];
    }
  }

  lemma {:induction false} ChunksFromForm(path: string, sha256: string, mode: string, data: Bytes, offset: nat)
    requires offset < |data|
    ensures var chunks := ChunksFrom(path, sha256, mode, data, offset);
      OnlyLastIsFinal(chunks) && ForFile(chunks, path, sha256, mode)
    decreases |data| - offset
  {
    var end := if offset + CHUNK < |data| then offset + CHUNK else |data|;
    if end < |data| { ChunksFromForm(path, sha256, mode, data, end); }
  }

  /** The chunks of any file, the empty one included, are contiguous from zero, at most 2048 bytes each, exactly
      the last is final, and together they are the file. */
  lemma ChunksReassemble(path: string, sha256: string, mode: string, data: Bytes)
    ensures var chunks := ChunksOf(path, sha256, mode, data);
      Joined(chunks) == data && Contiguous(chunks, 0) && OnlyLastIsFinal(chunks) && ForFile(chunks, path, sha256, mode)
  {
    if data == [] {
      var chunks := ChunksOf(path, sha256, mode, data);
      assert chunks[1..] == [];
    } else {
      ChunksFromJoin(path, sha256, mode, data, 0);
      ChunksFromForm(path, sha256, mode, data, 0);
      assert data[0..] == data;
    }
  }

  // ---------------------------------------------------------------- the whole update

  predicate Uploadable(p: Package, e: Entry) {
    e.Entry? && e.path != "" && !("../" <= e.path) && p.inside(e.path) && p.content(e.path).Some?
  }

  function ModeOf(e: Entry): string
    requires e.Entry?
  {
    if e.mode == "" then "600" else e.mode
  }

  /** The requests that upload one entry. */
  function FileRequests(p: Package, e: Entry): seq<Request>
    requires Uploadable(p, e)
  {
    ChunksOf(e.path, e.sha256, ModeOf(e), p.content(e.path).value)
  }

  /** The requests for the entries up to the first that cannot be uploaded. */
  function FilesRequests(p: Package, files: seq<Entry>): seq<Request>
    decreases |files|
  {
    if files == [] || !Uploadable(p, files[0]) then [] else FileRequests(p, files[0]) + FilesRequests(p, files[1..])
  }

  predicate AllUploadable(p: Package, files: seq<Entry>) { forall i :: 0 <= i < |files| ==> Uploadable(p, files[i]) }

  function ManifestEntry(p: Package): Option<Entry> {
    match p.content(MANIFEST_PATH)
    case Some(data) => Some(Entry(MANIFEST_PATH, p.digest(data), "600"))
    case None => None
  }

  function VersionOf(b: Bundle): string { if b.agentVersion != "" then b.agentVersion else b.version }

  predicate Complete(b: Option<Bundle>) {
    b.Some? && b.value.hash != "" && VersionOf(b.value) != "" && b.value.files.Some?
  }

  /** Whether everything that is needed for an apply can be uploaded. */
  predicate Deployable(p: Package, b: Option<Bundle>) {
    Complete(b) && AllUploadable(p, b.value.files.value) && ManifestEntry(p).Some? && Uploadable(p, ManifestEntry(p).value)
  }

  function Whole(first: Request, files: seq<Request>, manifest: seq<Request>, last: Request): seq<Request> {
    [first] + files + manifest + [last]
  }

  /** The requests of an update when the API answers all of them. */
  function Plan(p: Package, b: Option<Bundle>): seq<Request> {
    if !Complete(b) then []
    else
      var first, files := Prepare(b.value.hash, VersionOf(b.value)), FilesRequests(p, b.value.files.value);
      if !Deployable(p, b) then [first] + files
      else Whole(first, files, FileRequests(p, ManifestEntry(p).value), Apply(b.value.hash))
  }

  /** A plan as far as the API answers: the first unanswered request is the last one made. */
  function UpTo(plan: seq<Request>, answered: nat): seq<Request> {
    if |plan| <= answered then plan else plan[..answered + 1]
  }

  method UploadChunks(api: Api, path: string, sha256: string, mode: string, data: Bytes) returns (ok: bool)
    requires api.Answering()
    modifies api
    ensures api.trace == UpTo(old(api.trace) + ChunksOf(path, sha256, mode, data), api.answered)
    ensures ok == api.Answering()
  {
    if data == [] {
      ok := api.Send(Chunk(path, sha256, mode, 0, [], true));
      return;
    }
    var offset := 0;
    ghost var before := api.trace;
    while offset < |data|
      invariant offset <= |data| && api.Answering()
      invariant api.trace + ChunksFrom(path, sha256, mode, data, offset) == before + ChunksFrom(path, sha256, mode, data, 0)
    {
      var end := if offset + CHUNK < |data| then offset + CHUNK else |data|;
      ghost var made := api.trace;
      ok := api.Send(Chunk(path, sha256, mode, offset, data[offset..end], offset + |data[offset..end]| >= |data|));
      assert made + ChunksFrom(path, sha256, mode, data, offset) == api.trace + ChunksFrom(path, sha256, mode, data, end);
      if !ok { return; }
      offset := end;
    }
    ok := true;
  }

  /** `_async_upload_bundle_file` */
  method UploadBundleFile(api: Api, p: Package, e: Entry) returns (ok: bool)
    requires api.Answering()
    modifies api
    ensures !Uploadable(p, e) ==> !ok && api.trace == old(api.trace)
    ensures Uploadable(p, e) ==>
      api.trace == UpTo(old(api.trace) + FileRequests(p, e), api.answered) && ok == api.Answering()
  {
    if e.NotARecord? || e.path == "" || "../" <= e.path || !p.inside(e.path) { return false; }
    var data := p.content(e.path);
    if data.None? { return false; }
    ok := UploadChunks(api, e.path, e.sha256, if e.mode == "" then "600" else e.mode, data.value);
  }

  method UploadFiles(api: Api, p: Package, files: seq<Entry>) returns (ok: bool)
    requires api.Answering()
    modifies api
    ensures api.trace == UpTo(old(api.trace) + FilesRequests(p, files), api.answered)
    ensures ok == (api.Answering() && AllUploadable(p, files))
  {
    hide ChunksOf, ModeOf;
    ghost var before := api.trace;
    for i := 0 to |files|
      invariant api.Answering() && AllUploadable(p, files[..i])
      invariant api.trace + FilesRequests(p, files[i..]) == before + FilesRequests(p, files)
    {
      ghost var made := api.trace;
      assert files[i..][0] == files[i] && files[i..][1..] == files[i + 1..];
      assert files[..i + 1] == files[..i] + [files[i]];
      ok := UploadBundleFile(api, p, files[i]);
      if !Uploadable(p, files[i]) {
        assert FilesRequests(p, files[i..]) == [];
        return;
      }
      assert made + FilesRequests(p, files[i..]) == (made + FileRequests(p, files[i])) + FilesRequests(p, files[i + 1..]);
      if !ok { return; }
    }
    assert files[..|files|] == files;
    ok := true;
  }

  /** `async_apply_packaged_agent_update` */
  method ApplyPackagedAgentUpdate(api: Api, p: Package, b: Option<Bundle>) returns (ok: bool)
    requires api.trace == []
    modifies api
    ensures api.trace == UpTo(Plan(p, b), api.answered)
    ensures ok == (Deployable(p, b) && api.Answering())
  {
    if b.None? { return false; }
    var version := if b.value.agentVersion != "" then b.value.agentVersion else b.value.version;
    if b.value.hash == "" || version == "" || b.value.files.None? { return false; }
    var files := b.value.files.value;
    ghost var plan := Plan(p, b);
    ghost var begun := [Prepare(b.value.hash, version)] + FilesRequests(p, files);
    BegunIsAPrefix(p, b);
    hide ChunksOf, FilesRequests, FileRequests, AllUploadable, Uploadable, Plan, UpTo;
    UpToIs(begun[..1], plan, api.answered);
    UpToIs(begun, plan, api.answered);
    assert begun[..1] == [] + [Prepare(b.value.hash, version)];
    ok := api.Send(Prepare(b.value.hash, version));
    if !ok { return; }
    ok := UploadFiles(api, p, files);
    if !ok { return; }
    var manifest := p.content(MANIFEST_PATH);
    if manifest.None? { return false; }
    ghost var uploaded := begun + if Deployable(p, b) then FileRequests(p, ManifestEntry(p).value) else [];
    UpToIs(uploaded, plan, api.answered);
    ok := UploadBundleFile(api, p, Entry(MANIFEST_PATH, p.digest(manifest.value), "600"));
    if !ok { return; }
    UpToIs(plan, plan, api.answered);
    ok := api.Send(Apply(b.value.hash));
  }

  /** A plan whose start is not answered to its end is cut within that start. */
  lemma UpToIs(first: seq<Request>, plan: seq<Request>, answered: nat)
    requires first <= plan
    ensures |first| > answered ==> UpTo(plan, answered) == UpTo(first, answered) && |UpTo(first, answered)| == answered + 1
    ensures |first| <= answered ==> UpTo(first, answered) == first
    ensures |first| <= answered + 1 && first == plan ==> UpTo(first, answered) == first
  {
  }

  lemma BegunIsAPrefix(p: Package, b: Option<Bundle>)
    requires Complete(b)
    ensures var begun := [Prepare(b.value.hash, VersionOf(b.value))] + FilesRequests(p, b.value.files.value);
      begun[..1] <= begun <= Plan(p, b) && (!Deployable(p, b) ==> Plan(p, b) == begun) &&
      (Deployable(p, b) ==>
        begun + FileRequests(p, ManifestEntry(p).value) <= Plan(p, b) &&
        Plan(p, b) == begun + FileRequests(p, ManifestEntry(p).value) + [Apply(b.value.hash)])
  {
    hide FilesRequests, FileRequests, AllUploadable;
  }

  // ---------------------------------------------------------------- what every update keeps

  predicate NoApply(rs: seq<Request>) { forall r :: r in rs ==> !r.Apply? }

  lemma {:induction false} FilesHaveNoApply(p: Package, files: seq<Entry>)
    ensures NoApply(FilesRequests(p, files))
    decreases |files|
  {
    if files != [] && Uploadable(p, files[0]) {
      FileHasNoApply(p, files[0]);
      FilesHaveNoApply(p, files[1..]);
    }
  }

  lemma FileHasNoApply(p: Package, e: Entry)
    requires Uploadable(p, e)
    ensures NoApply(FileRequests(p, e))
  {
    ChunksReassemble(e.path, e.sha256, ModeOf(e), p.content(e.path).value);
  }

  /** Requests `from..to` deliver the whole of one file. */
  predicate Delivers(rs: seq<Request>, from: nat, to: nat, path: string, sha256: string, mode: string, data: Bytes) {
    from <= to <= |rs| &&
    var chunks := rs[from..to];
    ForFile(chunks, path, sha256, mode) && Contiguous(chunks, 0) && OnlyLastIsFinal(chunks) && Joined(chunks) == data
  }

  /** The mode the device is to give a file. */
  predicate IsModeFor(mode: string, e: Entry)
    requires e.Entry?
  {
    if |e.mode| > 0 then mode == e.mode else mode == "600"
  }

  /** Requests `from..to` deliver the entry's file, with its digest and mode. */
  ghost predicate DeliversEntry(rs: seq<Request>, from: nat, to: nat, p: Package, e: Entry) {
    e.Entry? && p.content(e.path).Some? &&
    exists mode :: IsModeFor(mode, e) && Delivers(rs, from, to, e.path, e.sha256, mode, p.content(e.path).value)
  }

  /** Where the requests of the `i`th file start. */
  function Start(p: Package, files: seq<Entry>, i: nat): nat
    requires i <= |files|
  {
    |FilesRequests(p, files[..i])|
  }

  /** Requests `from..to` are those of one entry. */
  predicate SliceIs(rs: seq<Request>, from: nat, to: nat, file: seq<Request>) {
    from < to <= |rs| && rs[from..to] == file
  }

  lemma {:induction false} FilesInOrder(p: Package, files: seq<Entry>, i: nat)
    requires AllUploadable(p, files) && i < |files|
    ensures SliceIs(FilesRequests(p, files), Start(p, files, i), Start(p, files, i + 1), FileRequests(p, files[i]))
    decreases |files|
  {
    hide FilesRequests, FileRequests, Uploadable, SliceIs;
    FilesSplit(p, files, i + 1);
    FilesSplit(p, files, i);
    var first, rest := FileRequests(p, files[0]), FilesRequests(p, files[1..]);
    if i == 0 {
      FileHasRequests(p, files[0]);
      FilesSplit(p, files[1..], 0);
      FirstSlice(first, rest);
    } else {
      FilesInOrder(p, files[1..], i - 1);
      ShiftedSlice(first, rest, Start(p, files[1..], i - 1), Start(p, files[1..], i), FileRequests(p, files[i]));
    }
  }

  lemma FirstSlice(first: seq<Request>, rest: seq<Request>)
    requires first != []
    ensures SliceIs(first + rest, 0, |first|, first)
  {
  }

  lemma ShiftedSlice(first: seq<Request>, rest: seq<Request>, from: nat, to: nat, file: seq<Request>)
    requires SliceIs(rest, from, to, file)
    ensures SliceIs(first + rest, |first| + from, |first| + to, file)
  {
    SameSlice(rest, first + rest, |first|, from, to);
  }

  lemma FilesSplit(p: Package, files: seq<Entry>, i: nat)
    requires AllUploadable(p, files) && i <= |files|
    ensures i > 0 ==> FilesRequests(p, files[..i]) == FileRequests(p, files[0]) + FilesRequests(p, files[1..][..i - 1])
    ensures files != [] ==> FilesRequests(p, files) == FileRequests(p, files[0]) + FilesRequests(p, files[1..])
    ensures i == 0 ==> FilesRequests(p, files[..i]) == []
  {
    hide FileRequests;
    if i > 0 { assert files[..i][1..] == files[1..][..i - 1] && files[..i][0] == files[0]; }
  }

  lemma FileHasRequests(p: Package, e: Entry)
    requires Uploadable(p, e)
    ensures FileRequests(p, e) != []
  {
    ChunksReassemble(e.path, e.sha256, ModeOf(e), p.content(e.path).value);
  }

  lemma SameSlice(rs: seq<Request>, all: seq<Request>, at: nat, from: nat, to: nat)
    requires from <= to <= |rs| && at + |rs| <= |all| && all[at..at + |rs|] == rs
    ensures all[at + from..at + to] == rs[from..to]
  {
    forall k | from <= k < to ensures all[at + k] == rs[k] { assert all[at..at + |rs|][k] == all[at + k]; }
  }

  lemma MiddleSlice(first: Request, rs: seq<Request>, more: seq<Request>, from: nat, to: nat, file: seq<Request>)
    requires SliceIs(rs, from, to, file)
    ensures SliceIs([first] + rs + more, 1 + from, 1 + to, file)
  {
    var all := [first] + rs + more;
    assert all[1..1 + |rs|] == rs;
    SameSlice(rs, all, 1, from, to);
  }

  lemma DeliversSlice(rs: seq<Request>, from: nat, to: nat, p: Package, e: Entry)
    requires Uploadable(p, e) && SliceIs(rs, from, to, FileRequests(p, e))
    ensures DeliversEntry(rs, from, to, p, e)
  {
    ChunksReassemble(e.path, e.sha256, ModeOf(e), p.content(e.path).value);
    hide Contiguous, Joined, ForFile, OnlyLastIsFinal, ChunksOf;
    assert IsModeFor(ModeOf(e), e) && Delivers(rs, from, to, e.path, e.sha256, ModeOf(e), p.content(e.path).value);
  }

  /** An entry can be uploaded exactly when it is a record with a path that is not empty, does not start by leaving
      the package, resolves inside it and can be read. */
  lemma UploadableExactly(p: Package, e: Entry)
    ensures Uploadable(p, e) <==>
      e.Entry? && |e.path| > 0 && !(|e.path| >= 3 && e.path[..3] == "../") && p.inside(e.path) && p.content(e.path) != None
  {
    if e.Entry? && "../" <= e.path { assert e.path[..3] == "../"; }
  }

  /** The number of entries before the first that cannot be uploaded. */
  predicate Stops(p: Package, files: seq<Entry>, n: nat) {
    n <= |files| && AllUploadable(p, files[..n]) && (n < |files| ==> !Uploadable(p, files[n]))
  }

  lemma {:induction false} FilesUntil(p: Package, files: seq<Entry>, n: nat)
    requires Stops(p, files, n)
    ensures FilesRequests(p, files) == FilesRequests(p, files[..n])
    decreases |files|
  {
    if n > 0 {
      var first, rest := files[..n], files[1..][..n - 1];
      assert first[0] == files[0] && first[1..] == rest;
      forall i | 0 <= i < |rest| ensures Uploadable(p, rest[i]) { assert rest[i] == first[i + 1]; }
      FilesUntil(p, files[1..], n - 1);
    }
  }

  /** What the first request says: the bundle's hash, and its agent version or else its version. */
  predicate IsPrepare(r: Request, b: Bundle) {
    r.Prepare? && r.hash == b.hash && if |b.agentVersion| > 0 then r.version == b.agentVersion else r.version == b.version
  }

  /** A plan exists only for a bundle with a hash, a version and a list of files, and starts with the prepare. */
  lemma PlanIsBegun(p: Package, b: Option<Bundle>)
    ensures Plan(p, b) != [] <==>
      b.Some? && |b.value.hash| > 0 && (|b.value.agentVersion| > 0 || |b.value.version| > 0) && b.value.files != None
    ensures Plan(p, b) != [] ==> IsPrepare(Plan(p, b)[0], b.value)
  {
    hide FilesRequests, FileRequests, Uploadable;
  }

  /** The first bad entry ends the plan: nothing follows the chunks of the entries before it. */
  lemma PlanStopsAtABadEntry(p: Package, b: Option<Bundle>, n: nat)
    requires Complete(b) && n < |b.value.files.value| && Stops(p, b.value.files.value, n)
    ensures |Plan(p, b)| == 1 + Start(p, b.value.files.value, n)
  {
    FilesUntil(p, b.value.files.value, n);
    hide FilesRequests, FileRequests;
  }

  /** The entry at which the upload stops. */
  function Bad(p: Package, files: seq<Entry>): (n: nat)
    ensures Stops(p, files, n)
    decreases |files|
  {
    if files == [] || !Uploadable(p, files[0]) then 0
    else
      var n := Bad(p, files[1..]);
      var good, rest := files[..n + 1], files[1..][..n];
      assert AllUploadable(p, good) by {
        forall i | 0 <= i < |good| ensures Uploadable(p, good[i]) { if i > 0 { assert good[i] == rest[i - 1]; } }
      }
      n + 1
  }

  lemma UploadableBefore(p: Package, files: seq<Entry>, m: nat, i: nat)
    requires i < m <= |files| && AllUploadable(p, files[..m])
    ensures Uploadable(p, files[i])
  {
    assert files[..m][i] == files[i];
  }

  lemma BegunSlice(p: Package, files: seq<Entry>, i: nat, first: Request, more: seq<Request>)
    requires i < |files| && AllUploadable(p, files[..i + 1]) && Uploadable(p, files[i])
    ensures SliceIs([first] + FilesRequests(p, files) + more,
      1 + Start(p, files, i), 1 + Start(p, files, i + 1), FileRequests(p, files[i]))
  {
    hide FilesRequests, FileRequests, Uploadable, SliceIs;
    var n := Bad(p, files);
    if n <= i { UploadableBefore(p, files, i + 1, n); }
    FilesUntil(p, files, n);
    FilesInOrder(p, files[..n], i);
    assert files[..n][..i] == files[..i] && files[..n][..i + 1] == files[..i + 1] && files[..n][i] == files[i];
    MiddleSlice(first, FilesRequests(p, files), more, Start(p, files, i), Start(p, files, i + 1), FileRequests(p, files[i]));
  }

  /** Each file's chunks follow each other in the bundle's order and deliver the file, up to the first bad entry. */
  lemma PlanInOrder(p: Package, b: Option<Bundle>, i: nat)
    requires Complete(b) && i < |b.value.files.value| && AllUploadable(p, b.value.files.value[..i + 1])
    ensures var plan, files := Plan(p, b), b.value.files.value;
      DeliversEntry(plan, 1 + Start(p, files, i), 1 + Start(p, files, i + 1), p, files[i])
  {
    hide FilesRequests, FileRequests, Uploadable, DeliversEntry, SliceIs, AllUploadable, Start;
    var files, plan := b.value.files.value, Plan(p, b);
    UploadableBefore(p, files, i + 1, i);
    var more := if Deployable(p, b) then FileRequests(p, ManifestEntry(p).value) + [Apply(b.value.hash)] else [];
    BegunSlice(p, files, i, Prepare(b.value.hash, VersionOf(b.value)), more);
    assert plan == [Prepare(b.value.hash, VersionOf(b.value))] + FilesRequests(p, files) + more;
    DeliversSlice(plan, 1 + Start(p, files, i), 1 + Start(p, files, i + 1), p, files[i]);
  }

  /** After the last file come the manifest's chunks, with mode 600 and the digest of its bytes. */
  lemma ManifestBeforeApply(p: Package, b: Option<Bundle>)
    requires Deployable(p, b)
    ensures var plan, files := Plan(p, b), b.value.files.value;
      p.content("device_agent/bundle.json").Some? &&
      var data := p.content("device_agent/bundle.json").value;
      Delivers(plan, 1 + Start(p, files, |files|), |plan| - 1, "device_agent/bundle.json", p.digest(data), "600", data)
  {
    var plan, files, e := Plan(p, b), b.value.files.value, ManifestEntry(p).value;
    var rs := FilesRequests(p, files);
    assert files[..|files|] == files;
    hide FilesRequests, FileRequests, Delivers, AllUploadable;
    FileHasRequests(p, e);
    assert plan[1 + |rs|..|plan| - 1] == FileRequests(p, e);
    DeliversSlice(plan, 1 + |rs|, |plan| - 1, p, e);
  }

  /** An update can be completed exactly when the bundle has a hash, a version and a list of entries that can all be
      uploaded, and so can the manifest. */
  lemma DeployableExactly(p: Package, b: Option<Bundle>)
    ensures Deployable(p, b) <==>
      Plan(p, b) != [] && (forall e :: e in b.value.files.value ==> Uploadable(p, e)) &&
      p.inside("device_agent/bundle.json") && p.content("device_agent/bundle.json") != None
    ensures Deployable(p, b) <==> !NoApply(Plan(p, b))
  {
    assert !("../" <= MANIFEST_PATH) by { assert MANIFEST_PATH[0] != "../"[0]; }
    if Complete(b) {
      FilesHaveNoApply(p, b.value.files.value);
      assert Deployable(p, b) ==> Plan(p, b)[|Plan(p, b)| - 1].Apply?;
    }
    hide FilesRequests, FileRequests;
  }

  /** Whenever an apply is requested, it is the last and only one of a complete update: the first request is the
      prepare, and between them come the chunks of every file and of the manifest, each of which reassembles. */
  lemma AppliedMeansUploaded(p: Package, b: Option<Bundle>, answered: nat)
    requires !NoApply(UpTo(Plan(p, b), answered))
    ensures Deployable(p, b) && UpTo(Plan(p, b), answered) == Plan(p, b)
    ensures var plan := Plan(p, b); |plan| > 1 && IsPrepare(plan[0], b.value)
    ensures var plan := Plan(p, b); NoApply(plan[..|plan| - 1]) && plan[|plan| - 1] == Apply(b.value.hash)
  {
    var plan := Plan(p, b);
    if Complete(b) {
      FilesHaveNoApply(p, b.value.files.value);
      hide FilesRequests, FileRequests, AllUploadable;
      if Deployable(p, b) {
        FileHasNoApply(p, ManifestEntry(p).value);
        assert plan[..|plan| - 1] ==
          [Prepare(b.value.hash, VersionOf(b.value))] + FilesRequests(p, b.value.files.value) +
          FileRequests(p, ManifestEntry(p).value);
        assert NoApply(plan[..|plan| - 1]);
      }
    }
  }
}

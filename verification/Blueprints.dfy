/** Synchronising the bundled blueprints with a directory the user may edit, through a manifest of shipped digests. */
module Blueprints {
  import opened ByteStrings
  import opened Options

  type Name = string
  type Digest = string

  const OBSOLETE: set<Name> := {"doorbell_call_mobile_dashboard.yaml", "doorbell_call_notification.yaml"}

  /** The digest in use, and the digests shipped under each name before the manifest existed. */
  datatype Kit = Kit(hash: Bytes -> Digest, legacy: map<Name, set<Digest>>)

  datatype Source = Source(name: Name, content: Bytes)

  /** The bundled sources in listing order, or none when their directory is missing. */
  type Release = Option<seq<Source>>

  predicate DistinctNames(sources: seq<Source>) {
    forall i, j :: 0 <= i < j < |sources| ==> sources[i].name != sources[j].name
  }

  predicate IsRelease(r: Release) { r.Some? ==> DistinctNames(r.value) }

  /** A value of the manifest's table, of which only the texts are read. */
  datatype Json = Text(text: string) | NotText

  /** The manifest file: absent, unreadable or of another shape, or a table. */
  datatype ManifestFile = Missing | Unusable | Table(entries: map<string, Json>)

  /** `_load_manifest` */
  function Load(m: ManifestFile): map<Name, Digest> {
    if !m.Table? then map[] else map n | n in m.entries && m.entries[n].Text? :: m.entries[n].text
  }

  /** `_write_manifest` */
  function Written(manifest: map<Name, Digest>): ManifestFile {
    Table(map n | n in manifest :: Text(manifest[n]))
  }

  lemma LoadWritten(manifest: map<Name, Digest>)
    ensures Load(Written(manifest)) == manifest
  {
    var m := Written(manifest);
    forall n | n in manifest ensures n in m.entries && Load(m)[n] == manifest[n] {
    }
  }

  predicate IsLegacyShipped(kit: Kit, name: Name, digest: Digest) {
    name in kit.legacy && digest in kit.legacy[name]
  }

  // ---------------------------------------------------------------- what a run does to one name

  /** One name of the target directory: its file and its manifest digest. */
  datatype Slot = Slot(file: Option<Bytes>, digest: Option<Digest>)

  datatype Action = Install | Update | Adopt | Leave

  /** Whether the run may replace a file that differs from the shipped content. */
  predicate Replaceable(kit: Kit, name: Name, slot: Slot)
    requires slot.file.Some?
  {
    var digest := kit.hash(slot.file.value);
    slot.digest == Some(digest) || (slot.digest.None? && IsLegacyShipped(kit, name, digest))
  }

  function ActionFor(kit: Kit, s: Source, slot: Slot): Action {
    if slot.file.None? then Install
    else if slot.file.value == s.content then
      if slot.digest == Some(kit.hash(s.content)) then Leave else Adopt
    else if Replaceable(kit, s.name, slot) then Update
    else Leave
  }

  function SlotAfter(kit: Kit, s: Source, slot: Slot): Slot {
    if ActionFor(kit, s, slot) == Leave then slot else Slot(Some(s.content), Some(kit.hash(s.content)))
  }

  // ---------------------------------------------------------------- a whole run

  datatype Work = Work(
    files: map<Name, Bytes>, manifest: map<Name, Digest>, dirty: bool,
    installed: seq<Name>, updated: seq<Name>, removed: seq<Name>)

  function At(w: Work, n: Name): Slot { Slot(Lookup(w.files, n), Lookup(w.manifest, n)) }

  function RemoveOne(w: Work, n: Name): Work {
    w.(files := w.files - {n},
       removed := if n in w.files then w.removed + [n] else w.removed,
       manifest := w.manifest - {n},
       dirty := w.dirty || n in w.manifest)
  }

  function RemoveAll(w: Work, names: seq<Name>): Work
    decreases |names|
  {
    if names == [] then w else RemoveOne(RemoveAll(w, names[..|names| - 1]), names[|names| - 1])
  }

  function SyncOne(kit: Kit, w: Work, s: Source): Work {
    var action := ActionFor(kit, s, At(w, s.name));
    if action == Leave then w
    else
      w.(files := w.files[s.name := s.content],
         manifest := w.manifest[s.name := kit.hash(s.content)],
         dirty := true,
         installed := if action == Install then w.installed + [s.name] else w.installed,
         updated := if action == Update then w.updated + [s.name] else w.updated)
  }

  function SyncAll(kit: Kit, w: Work, sources: seq<Source>): Work
    decreases |sources|
  {
    if sources == [] then w else SyncOne(kit, SyncAll(kit, w, sources[..|sources| - 1]), sources[|sources| - 1])
  }

  lemma RemovedNone(w: Work)
    ensures RemoveAll(w, []) == w
  {
  }

  lemma RemovedNext(w: Work, names: seq<Name>, i: nat)
    requires i < |names|
    ensures RemoveAll(w, names[..i + 1]) == RemoveOne(RemoveAll(w, names[..i]), names[i])
  {
    assert names[..i + 1][..i] == names[..i];
  }

  lemma SyncedNone(kit: Kit, w: Work)
    ensures SyncAll(kit, w, []) == w
  {
  }

  lemma SyncedNext(kit: Kit, w: Work, sources: seq<Source>, i: nat)
    requires i < |sources|
    ensures SyncAll(kit, w, sources[..i + 1]) == SyncOne(kit, SyncAll(kit, w, sources[..i]), sources[i])
  {
    assert sources[..i + 1][..i] == sources[..i];
  }

  /** What the loops do to their variables, which leave a name alone that is not there. */
  lemma RemovedInPlace(w: Work, n: Name)
    ensures RemoveOne(w, n) ==
      w.(files := if n in w.files then w.files - {n} else w.files,
         removed := if n in w.files then w.removed + [n] else w.removed,
         manifest := if n in w.manifest then w.manifest - {n} else w.manifest,
         dirty := w.dirty || n in w.manifest)
  {
    assert n !in w.files ==> w.files - {n} == w.files;
    assert n !in w.manifest ==> w.manifest - {n} == w.manifest;
  }

  lemma SyncedInPlace(kit: Kit, w: Work, s: Source)
    ensures
      var digest, managed := kit.hash(s.content), Lookup(w.manifest, s.name);
      var taken := w.(files := w.files[s.name := s.content], manifest := w.manifest[s.name := digest], dirty := true);
      SyncOne(kit, w, s) ==
        if s.name !in w.files then taken.(installed := w.installed + [s.name])
        else if w.files[s.name] == s.content then
          if managed == Some(digest) then w else w.(manifest := taken.manifest, dirty := true)
        else
          var was := kit.hash(w.files[s.name]);
          if managed != Some(was) && !(managed.None? && IsLegacyShipped(kit, s.name, was)) then w
          else taken.(updated := w.updated + [s.name])
  {
    if s.name in w.files && w.files[s.name] == s.content { assert w.files[s.name := s.content] == w.files; }
  }

  datatype Dir = Dir(files: map<Name, Bytes>, manifestFile: ManifestFile)

  datatype Result = Result(installed: seq<Name>, updated: seq<Name>, removed: seq<Name>)

  const NOTHING := Result([], [], [])

  function Start(d: Dir): Work { Work(d.files, Load(d.manifestFile), false, [], [], []) }

  function Finish(d: Dir, w: Work): Dir { Dir(w.files, if w.dirty then Written(w.manifest) else d.manifestFile) }

  /** An enumeration of the obsolete names, in the order the run happens to take them. */
  predicate IsListing(order: seq<Name>) { (set n | n in order) == OBSOLETE }

  /** `install_bundled_blueprints` on values. */
  function Run(kit: Kit, d: Dir, order: seq<Name>, release: Release): (Dir, Result) {
    if release.None? then (d, NOTHING)
    else
      var w := SyncAll(kit, RemoveAll(Start(d), order), release.value);
      (Finish(d, w), Result(w.installed, w.updated, w.removed))
  }

  class TargetDir {
    var files: map<Name, Bytes>
    var manifestFile: ManifestFile

    ghost function Now(): Dir
      reads this
    {
      Dir(files, manifestFile)
    }

    method InstallBundledBlueprints(kit: Kit, order: seq<Name>, release: Release) returns (r: Result)
      requires IsListing(order)
      modifies this
      ensures (Now(), r) == Run(kit, old(Now()), order, release)
    {
      if release.None? { return NOTHING; }
      hide RemoveAll, RemoveOne, SyncAll, SyncOne, Load, Written, IsListing;
      RemovedNone(Start(old(Now())));
      var sources := release.value;
      var manifest, manifestChanged := Load(manifestFile), false;
      var installed: seq<Name>, updated: seq<Name>, removed: seq<Name> := [], [], [];
      ghost var begun := Start(old(Now()));
      for i := 0 to |order|
        invariant manifestFile == old(manifestFile)
        invariant Work(files, manifest, manifestChanged, installed, updated, removed) == RemoveAll(begun, order[..i])
      {
        var target := order[i];
        RemovedNext(begun, order, i);
        RemovedInPlace(RemoveAll(begun, order[..i]), target);
        if target in files {
          files := files - {target};
          removed := removed + [target];
        }
        if target in manifest {
          manifest := manifest - {target};
          manifestChanged := true;
        }
      }
      assert order[..|order|] == order;
      ghost var cleared := RemoveAll(begun, order);
      SyncedNone(kit, cleared);
      for i := 0 to |sources|
        invariant manifestFile == old(manifestFile)
        invariant Work(files, manifest, manifestChanged, installed, updated, removed) == SyncAll(kit, cleared, sources[..i])
      {
        var source := sources[i];
        SyncedNext(kit, cleared, sources, i);
        SyncedInPlace(kit, SyncAll(kit, cleared, sources[..i]), source);
        var sourceHash := kit.hash(source.content);
        if source.name in files {
          var target := files[source.name];
          var targetHash := kit.hash(target);
          var managed := Lookup(manifest, source.name);
          if target == source.content {
            if managed != Some(sourceHash) {
              manifest := manifest[source.name := sourceHash];
              manifestChanged := true;
            }
            continue;
          }
          if managed != Some(targetHash) && !(managed.None? && IsLegacyShipped(kit, source.name, targetHash)) {
            continue;
          }
          files := files[source.name := source.content];
          manifest := manifest[source.name := sourceHash];
          manifestChanged := true;
          updated := updated + [source.name];
        } else {
          files := files[source.name := source.content];
          manifest := manifest[source.name := sourceHash];
          manifestChanged := true;
          installed := installed + [source.name];
        }
      }
      assert sources[..|sources|] == sources;
      if manifestChanged { manifestFile := Written(manifest); }
      r := Result(installed, updated, removed);
    }
  }

  // ---------------------------------------------------------------- exactly what a run overwrites

  lemma {:induction false} Removed(w: Work, names: seq<Name>, n: Name)
    ensures var v := RemoveAll(w, names);
      At(v, n) == (if n in names then Slot(None, None) else At(w, n)) &&
      (n in v.removed <==> n in w.removed || (n in names && n in w.files))
    decreases |names|
  {
    if names == [] {
    } else {
      var k := |names| - 1;
      Removed(w, names[..k], n);
      Removed(w, names[..k], names[k]);
      assert names == names[..k] + [names[k]];
    }
  }

  lemma {:induction false} RemovedBook(w: Work, names: seq<Name>)
    ensures var v := RemoveAll(w, names);
      v.installed == w.installed && v.updated == w.updated && (w.dirty ==> v.dirty) &&
      (!v.dirty ==> v.manifest == w.manifest)
    decreases |names|
  {
    if names != [] {
      var k := |names| - 1;
      RemovedBook(w, names[..k]);
      var u := RemoveAll(w, names[..k]);
      assert names[k] !in u.manifest ==> u.manifest - {names[k]} == u.manifest;
    }
  }

  lemma {:induction false} SyncedElsewhere(kit: Kit, w: Work, sources: seq<Source>, n: Name)
    requires forall i :: 0 <= i < |sources| ==> sources[i].name != n
    ensures var v := SyncAll(kit, w, sources);
      At(v, n) == At(w, n) && (n in v.installed <==> n in w.installed) && (n in v.updated <==> n in w.updated)
    decreases |sources|
  {
    if sources != [] { SyncedElsewhere(kit, w, sources[..|sources| - 1], n); }
  }

  lemma {:induction false} SyncedAt(kit: Kit, w: Work, sources: seq<Source>, i: nat)
    requires DistinctNames(sources) && i < |sources|
    ensures var v := SyncAll(kit, w, sources); var s := sources[i]; var action := ActionFor(kit, s, At(w, s.name));
      At(v, s.name) == SlotAfter(kit, s, At(w, s.name)) &&
      (s.name in v.installed <==> s.name in w.installed || action == Install) &&
      (s.name in v.updated <==> s.name in w.updated || action == Update)
    decreases |sources|
  {
    var k := |sources| - 1;
    if i == k {
      SyncedElsewhere(kit, w, sources[..k], sources[k].name);
    } else {
      SyncedAt(kit, w, sources[..k], i);
    }
  }

  lemma {:induction false} SyncedBook(kit: Kit, w: Work, sources: seq<Source>)
    ensures var v := SyncAll(kit, w, sources);
      v.removed == w.removed && (w.dirty ==> v.dirty) && (!v.dirty ==> v.manifest == w.manifest)
    decreases |sources|
  {
    if sources != [] { SyncedBook(kit, w, sources[..|sources| - 1]); }
  }

  function SlotIn(d: Dir, n: Name): Slot { At(Start(d), n) }

  /** The slot of a name when the sources are compared: obsolete names have been cleared. */
  function Cleared(d: Dir, n: Name): Slot { if n in OBSOLETE then Slot(None, None) else SlotIn(d, n) }

  predicate Names(release: Release, n: Name) {
    release.Some? && exists i :: 0 <= i < |release.value| && release.value[i].name == n
  }

  lemma LoadAfter(kit: Kit, d: Dir, order: seq<Name>, release: Release)
    requires release.Some?
    ensures var v := SyncAll(kit, RemoveAll(Start(d), order), release.value);
      Load(Finish(d, v).manifestFile) == v.manifest
  {
    var u := RemoveAll(Start(d), order);
    var v := SyncAll(kit, u, release.value);
    RemovedBook(Start(d), order);
    SyncedBook(kit, u, release.value);
    LoadWritten(v.manifest);
  }

  /** What a run leaves at the name of one of its sources, and how it reports it. */
  lemma RunAtSource(kit: Kit, d: Dir, order: seq<Name>, release: Release, s: Source)
    requires IsListing(order) && IsRelease(release) && release.Some? && s in release.value
    ensures var (e, r) := Run(kit, d, order, release); var action := ActionFor(kit, s, Cleared(d, s.name));
      SlotIn(e, s.name) == SlotAfter(kit, s, Cleared(d, s.name)) &&
      (s.name in r.installed <==> action == Install) && (s.name in r.updated <==> action == Update)
  {
    var i :| 0 <= i < |release.value| && release.value[i] == s;
    var u := RemoveAll(Start(d), order);
    InListing(order, s.name);
    Removed(Start(d), order, s.name);
    RemovedBook(Start(d), order);
    SyncedAt(kit, u, release.value, i);
    LoadAfter(kit, d, order, release);
    hide RemoveAll, SyncAll, Load, Written, ActionFor, SlotAfter;
  }

  lemma InListing(order: seq<Name>, n: Name)
    requires IsListing(order)
    ensures n in order <==> n in OBSOLETE
  {
    assert n in order <==> n in set m | m in order;
  }

  lemma RunElsewhere(kit: Kit, d: Dir, order: seq<Name>, release: Release, n: Name)
    requires IsListing(order) && release.Some? && !Names(release, n)
    ensures var (e, r) := Run(kit, d, order, release);
      SlotIn(e, n) == Cleared(d, n) && n !in r.installed && n !in r.updated
  {
    var u := RemoveAll(Start(d), order);
    InListing(order, n);
    Removed(Start(d), order, n);
    RemovedBook(Start(d), order);
    SyncedElsewhere(kit, u, release.value, n);
    LoadAfter(kit, d, order, release);
    hide RemoveAll, SyncAll, Load, Written;
  }

  /** A run replaces an existing file exactly when its bytes match its manifest digest or, without a manifest
      entry, a digest shipped before the manifest; any other file keeps its bytes. */
  lemma OverwritesExactly(kit: Kit, d: Dir, order: seq<Name>, release: Release, s: Source)
    requires IsListing(order) && IsRelease(release) && release.Some? && s in release.value
    requires s.name in d.files && s.name !in OBSOLETE
    ensures
      var (e, r) := Run(kit, d, order, release);
      var manifest, was := Load(d.manifestFile), d.files[s.name];
      var pristine := if s.name in manifest then manifest[s.name] == kit.hash(was) else IsLegacyShipped(kit, s.name, kit.hash(was));
      s.name in e.files && e.files[s.name] == (if pristine then s.content else was) &&
      (s.name in r.updated <==> e.files[s.name] != was) && s.name !in r.installed
  {
    RunAtSource(kit, d, order, release, s);
    hide Run, Load;
  }

  /** A missing file is installed; an obsolete one is removed; every other name is left alone. */
  lemma RestOfTheRun(kit: Kit, d: Dir, order: seq<Name>, release: Release, n: Name)
    requires IsListing(order) && IsRelease(release) && release.Some?
    ensures var (e, r) := Run(kit, d, order, release);
      (n in r.removed <==> n in OBSOLETE && n in d.files) &&
      (Names(release, n) ==> n in e.files) &&
      (n in r.installed <==> Names(release, n) && (n !in d.files || n in OBSOLETE)) &&
      (!Names(release, n) ==> Lookup(e.files, n) == if n in OBSOLETE then None else Lookup(d.files, n))
  {
    var u := RemoveAll(Start(d), order);
    InListing(order, n);
    Removed(Start(d), order, n);
    SyncedBook(kit, u, release.value);
    if Names(release, n) {
      var i :| 0 <= i < |release.value| && release.value[i].name == n;
      RunAtSource(kit, d, order, release, release.value[i]);
    } else {
      RunElsewhere(kit, d, order, release, n);
    }
  }

  // ---------------------------------------------------------------- a second run

  lemma {:induction false} NothingToRemove(w: Work, names: seq<Name>)
    requires forall n :: n in names ==> n !in w.files && n !in w.manifest
    ensures RemoveAll(w, names) == w
    decreases |names|
  {
    if names != [] {
      NothingToRemove(w, names[..|names| - 1]);
      var n := names[|names| - 1];
      assert w.files - {n} == w.files && w.manifest - {n} == w.manifest;
    }
  }

  lemma {:induction false} NothingToSync(kit: Kit, w: Work, sources: seq<Source>)
    requires forall s :: s in sources ==> ActionFor(kit, s, At(w, s.name)) == Leave
    ensures SyncAll(kit, w, sources) == w
    decreases |sources|
  {
    if sources != [] { NothingToSync(kit, w, sources[..|sources| - 1]); }
  }

  predicate NoObsolete(release: Release) { release.Some? ==> forall s :: s in release.value ==> s.name !in OBSOLETE }

  /** A second run of the same release reports nothing and changes nothing exactly when the release ships no
      obsolete name, whatever the directory and the manifest were. */
  lemma SecondRunDoesNothing(kit: Kit, d: Dir, order: seq<Name>, again: seq<Name>, release: Release)
    requires IsListing(order) && IsListing(again) && IsRelease(release)
    ensures var (e, r) := Run(kit, d, order, release);
      Run(kit, e, again, release) == (e, NOTHING) <==> NoObsolete(release)
  {
    if release.Some? {
      var e := Run(kit, d, order, release).0;
      if NoObsolete(release) {
        forall n | n in again ensures n !in Start(e).files && n !in Start(e).manifest {
          InListing(again, n);
          assert !Names(release, n);
          RunElsewhere(kit, d, order, release, n);
        }
        NothingToRemove(Start(e), again);
        forall s | s in release.value ensures ActionFor(kit, s, At(Start(e), s.name)) == Leave {
          RunAtSource(kit, d, order, release, s);
        }
        NothingToSync(kit, Start(e), release.value);
      } else {
        var s :| s in release.value && s.name in OBSOLETE;
        RunAtSource(kit, d, order, release, s);
        RestOfTheRun(kit, e, again, release, s.name);
      }
    }
  }

  // ---------------------------------------------------------------- runs, releases and edits over time

  datatype Event =
    | UserWrites(name: Name, content: Bytes)
    | UserDeletes(name: Name)
    | LosesManifest(left: ManifestFile)
    | Syncs(order: seq<Name>, release: Release)
    | IsCutShort(order: seq<Name>, release: Release, synced: nat)

  /** A cut-short run has handled some sources when an error stops it, before the manifest is written. */
  predicate Possible(e: Event) {
    match e
    case LosesManifest(left) => !left.Table?
    case Syncs(order, release) => IsListing(order) && IsRelease(release)
    case IsCutShort(order, release, synced) =>
      IsListing(order) && IsRelease(release) && release.Some? && synced <= |release.value|
    case _ => true
  }

  function Ships(e: Event): set<Source> {
    match e
    case Syncs(_, Some(sources)) => set s | s in sources
    case IsCutShort(_, Some(sources), _) => set s | s in sources
    case _ => {}
  }

  function Next(kit: Kit, d: Dir, e: Event): Dir
    requires Possible(e)
  {
    match e
    case UserWrites(n, content) => d.(files := d.files[n := content])
    case UserDeletes(n) => d.(files := d.files - {n})
    case LosesManifest(left) => d.(manifestFile := left)
    case Syncs(order, release) => Run(kit, d, order, release).0
    case IsCutShort(order, release, synced) =>
      d.(files := Run(kit, d, order, Some(release.value[..synced])).0.files)
  }

  function Live(kit: Kit, d: Dir, events: seq<Event>): Dir
    requires forall e :: e in events ==> Possible(e)
    decreases |events|
  {
    if events == [] then d else Live(kit, Next(kit, d, events[0]), events[1..])
  }

  function AllShipped(events: seq<Event>): set<Source>
    decreases |events|
  {
    if events == [] then {} else Ships(events[0]) + AllShipped(events[1..])
  }

  /** Every manifest digest is the digest of bytes shipped under that name. */
  ghost predicate Honest(kit: Kit, d: Dir, shipped: set<Source>) {
    var m := Load(d.manifestFile);
    forall n :: n in m ==> exists s :: s in shipped && s.name == n && kit.hash(s.content) == m[n]
  }

  lemma EventKeepsHonest(kit: Kit, d: Dir, e: Event, shipped: set<Source>)
    requires Possible(e) && Honest(kit, d, shipped)
    ensures Honest(kit, Next(kit, d, e), shipped + Ships(e))
  {
    var d' := Next(kit, d, e);
    if e.Syncs? && e.release.Some? {
      var m, m' := Load(d.manifestFile), Load(d'.manifestFile);
      forall n | n in m' ensures exists s :: s in shipped + Ships(e) && s.name == n && kit.hash(s.content) == m'[n] {
        if Names(e.release, n) {
          var i :| 0 <= i < |e.release.value| && e.release.value[i].name == n;
          var s := e.release.value[i];
          RunAtSource(kit, d, e.order, e.release, s);
          assert s in Ships(e);
        } else {
          RunElsewhere(kit, d, e.order, e.release, n);
        }
      }
    }
  }

  /** Over any releases, edits, deletions, lost manifests and cut-short runs the manifest stays honest. */
  lemma {:induction false} ManifestStaysHonest(kit: Kit, d: Dir, events: seq<Event>, shipped: set<Source>)
    requires forall e :: e in events ==> Possible(e)
    requires Honest(kit, d, shipped)
    ensures Honest(kit, Live(kit, d, events), shipped + AllShipped(events))
    decreases |events|
  {
    if events == [] {
      assert shipped + AllShipped(events) == shipped;
    } else {
      EventKeepsHonest(kit, d, events[0], shipped);
      ManifestStaysHonest(kit, Next(kit, d, events[0]), events[1..], shipped + Ships(events[0]));
      assert shipped + AllShipped(events) == shipped + Ships(events[0]) + AllShipped(events[1..]);
    }
  }

  predicate Touches(e: Event, n: Name) { (e.UserWrites? || e.UserDeletes?) && e.name == n }

  /** Bytes that no release has ever shipped under a name, as far as the digest tells. */
  predicate OwnBytes(kit: Kit, n: Name, content: Bytes, shipped: set<Source>) {
    n !in OBSOLETE && !IsLegacyShipped(kit, n, kit.hash(content)) &&
    forall s :: s in shipped && s.name == n ==> kit.hash(s.content) != kit.hash(content)
  }

  lemma EventKeepsTheEdit(kit: Kit, d: Dir, e: Event, n: Name, content: Bytes, shipped: set<Source>)
    requires Possible(e) && !Touches(e, n) && Honest(kit, d, shipped)
    requires Lookup(d.files, n) == Some(content) && OwnBytes(kit, n, content, shipped + Ships(e))
    ensures Lookup(Next(kit, d, e).files, n) == Some(content)
  {
    if (e.Syncs? || e.IsCutShort?) && e.release.Some? {
      var release := if e.Syncs? then e.release else Some(e.release.value[..e.synced]);
      if Names(release, n) {
        var i :| 0 <= i < |release.value| && release.value[i].name == n;
        var s := release.value[i];
        assert s in e.release.value && s in Ships(e);
        OverwritesExactly(kit, d, e.order, release, s);
      } else {
        RunElsewhere(kit, d, e.order, release, n);
      }
    }
  }

  lemma {:induction false} OwnBytesSurvive(
    kit: Kit, d: Dir, events: seq<Event>, n: Name, content: Bytes, shipped: set<Source>)
    requires forall e :: e in events ==> Possible(e) && !Touches(e, n)
    requires Honest(kit, d, shipped)
    requires Lookup(d.files, n) == Some(content) && OwnBytes(kit, n, content, shipped + AllShipped(events))
    ensures Lookup(Live(kit, d, events).files, n) == Some(content)
    decreases |events|
  {
    if events == [] {
    } else {
      EventKeepsTheEdit(kit, d, events[0], n, content, shipped);
      EventKeepsHonest(kit, d, events[0], shipped);
      assert shipped + AllShipped(events) == shipped + Ships(events[0]) + AllShipped(events[1..]);
      OwnBytesSurvive(kit, Next(kit, d, events[0]), events[1..], n, content, shipped + Ships(events[0]));
    }
  }

  /** A file the manifest knows to be pristine. */
  predicate Managed(kit: Kit, d: Dir, n: Name) {
    var slot := SlotIn(d, n);
    slot.file.Some? && slot.digest == Some(kit.hash(slot.file.value))
  }

  /** The content a sequence of events leaves at a managed name: that of the last release shipping it. */
  function LastShipped(events: seq<Event>, n: Name, content: Bytes): Bytes
    decreases |events|
  {
    if events == [] then content
    else LastShipped(events[1..], n, if events[0].Syncs? then ShippedAs(events[0].release, n, content) else content)
  }

  function ShippedAs(release: Release, n: Name, otherwise: Bytes): Bytes {
    if release.None? then otherwise else ContentOf(release.value, n, otherwise)
  }

  function ContentOf(sources: seq<Source>, n: Name, otherwise: Bytes): Bytes
    decreases |sources|
  {
    if sources == [] then otherwise
    else if sources[0].name == n then sources[0].content
    else ContentOf(sources[1..], n, otherwise)
  }

  lemma {:induction false} ContentOfSource(sources: seq<Source>, n: Name, otherwise: Bytes)
    ensures Names(Some(sources), n) ==> Source(n, ContentOf(sources, n, otherwise)) in sources
    ensures !Names(Some(sources), n) ==> ContentOf(sources, n, otherwise) == otherwise
    decreases |sources|
  {
    if sources == [] {
    } else {
      var rest: Release := Some(sources[1..]);
      ContentOfSource(sources[1..], n, otherwise);
      if Names(Some(sources), n) && sources[0].name != n {
        var i :| 0 <= i < |sources| && sources[i].name == n;
        assert sources[1..][i - 1].name == n;
      }
      if Names(rest, n) {
        var i :| 0 <= i < |sources| - 1 && sources[1..][i].name == n;
        assert sources[i + 1].name == n;
      }
    }
  }

  lemma EventKeepsManaged(kit: Kit, d: Dir, e: Event, n: Name)
    requires Possible(e) && !Touches(e, n) && !e.LosesManifest? && !e.IsCutShort? && n !in OBSOLETE
    requires Managed(kit, d, n)
    ensures Managed(kit, Next(kit, d, e), n)
    ensures Next(kit, d, e).files[n] == if e.Syncs? then ShippedAs(e.release, n, d.files[n]) else d.files[n]
  {
    if e.Syncs? && e.release.Some? {
      ContentOfSource(e.release.value, n, d.files[n]);
      if Names(e.release, n) {
        RunAtSource(kit, d, e.order, e.release, Source(n, ContentOf(e.release.value, n, d.files[n])));
      } else {
        RunElsewhere(kit, d, e.order, e.release, n);
      }
    }
  }

  /** A pristine file follows the releases for as long as the user leaves it alone, the manifest is not lost and
      no run is cut short. */
  lemma {:induction false} PristineFollowsReleases(kit: Kit, d: Dir, events: seq<Event>, n: Name)
    requires forall e :: e in events ==> Possible(e) && !Touches(e, n) && !e.LosesManifest? && !e.IsCutShort?
    requires n !in OBSOLETE && Managed(kit, d, n)
    ensures Managed(kit, Live(kit, d, events), n)
    ensures Live(kit, d, events).files[n] == LastShipped(events, n, d.files[n])
    decreases |events|
  {
    if events == [] {
    } else {
      EventKeepsManaged(kit, d, events[0], n);
      PristineFollowsReleases(kit, Next(kit, d, events[0]), events[1..], n);
    }
  }

  /** A file that a release may not replace: it does not match its manifest entry, edited or restored to an older
      shipped version; or it has no entry and was not shipped before there were any. */
  predicate Departed(kit: Kit, d: Dir, n: Name) { SlotIn(d, n).file.Some? && !Replaceable(kit, n, SlotIn(d, n)) }

  lemma EventKeepsDeparted(kit: Kit, d: Dir, e: Event, n: Name)
    requires Possible(e) && !Touches(e, n) && !e.LosesManifest? && n !in OBSOLETE
    requires Departed(kit, d, n)
    requires Source(n, d.files[n]) !in Ships(e)
    ensures SlotIn(Next(kit, d, e), n) == SlotIn(d, n)
  {
    if (e.Syncs? || e.IsCutShort?) && e.release.Some? {
      var release := if e.Syncs? then e.release else Some(e.release.value[..e.synced]);
      if Names(release, n) {
        var i :| 0 <= i < |release.value| && release.value[i].name == n;
        assert release.value[i] in Ships(e);
        RunAtSource(kit, d, e.order, release, release.value[i]);
      } else {
        RunElsewhere(kit, d, e.order, release, n);
      }
    }
  }

  /** Such a file stays as it is through every run, whatever it holds, until a release ships exactly these bytes
      again. */
  lemma {:induction false} DepartedStays(kit: Kit, d: Dir, events: seq<Event>, n: Name)
    requires forall e :: e in events ==> Possible(e) && !Touches(e, n) && !e.LosesManifest?
    requires n !in OBSOLETE
    requires Departed(kit, d, n)
    requires Source(n, d.files[n]) !in AllShipped(events)
    ensures SlotIn(Live(kit, d, events), n) == SlotIn(d, n)
    decreases |events|
  {
    if events != [] {
      EventKeepsDeparted(kit, d, events[0], n);
      DepartedStays(kit, Next(kit, d, events[0]), events[1..], n);
    }
  }

  /** A run cut short that writes the content of s leaves the manifest entry, or its absence, as it was. */
  lemma CutShortWrites(kit: Kit, d: Dir, cut: Event, s: Source)
    requires Possible(cut) && cut.IsCutShort? && s in cut.release.value[..cut.synced] && s.name !in OBSOLETE
    requires SlotIn(d, s.name).file.Some? ==> Replaceable(kit, s.name, SlotIn(d, s.name))
    ensures SlotIn(Next(kit, d, cut), s.name) == Slot(Some(s.content), SlotIn(d, s.name).digest)
  {
    RunAtSource(kit, d, cut.order, Some(cut.release.value[..cut.synced]), s);
    assert SlotIn(Next(kit, d, cut), s.name).digest == SlotIn(d, s.name).digest;
  }

  /** After a run cut short that installed or updated a file, the next complete run replaces it by other content
      exactly when the content happens to match the old entry or, without one, a digest from before there were any.
      A first install, which has neither, is not replaced. */
  lemma CutShortFollowsExactly(kit: Kit, d: Dir, cut: Event, s: Source, order: seq<Name>, release: Release, later: Source)
    requires Possible(cut) && cut.IsCutShort? && s in cut.release.value[..cut.synced] && s.name !in OBSOLETE
    requires SlotIn(d, s.name).file.Some? ==> Replaceable(kit, s.name, SlotIn(d, s.name))
    requires Possible(Syncs(order, release)) && release.Some? && later in release.value
    requires later.name == s.name && later.content != s.content
    ensures
      var slot, digest := SlotIn(d, s.name), kit.hash(s.content);
      Lookup(Next(kit, Next(kit, d, cut), Syncs(order, release)).files, s.name) == Some(
        if slot.digest == Some(digest) || (slot.digest.None? && IsLegacyShipped(kit, s.name, digest)) then later.content
        else s.content)
  {
    CutShortWrites(kit, d, cut, s);
    RunAtSource(kit, Next(kit, d, cut), order, release, later);
  }

  /** A run cut short after installing or updating a file leaves no digest, or the old one, behind. Unless that
      matches what it wrote, the file counts as customised from then on: no later release replaces it unless it
      ships the same content again. */
  lemma CutShortRunFreezesAFile(kit: Kit, d: Dir, cut: Event, s: Source, events: seq<Event>)
    requires Possible(cut) && cut.IsCutShort? && s in cut.release.value[..cut.synced] && s.name !in OBSOLETE
    requires SlotIn(d, s.name).file.Some? ==> Replaceable(kit, s.name, SlotIn(d, s.name))
    requires !Replaceable(kit, s.name, Slot(Some(s.content), SlotIn(d, s.name).digest))
    requires forall e :: e in events ==> Possible(e) && !Touches(e, s.name) && !e.LosesManifest?
    requires s !in AllShipped(events)
    ensures Lookup(Live(kit, Next(kit, d, cut), events).files, s.name) == Some(s.content)
  {
    CutShortWrites(kit, d, cut, s);
    DepartedStays(kit, Next(kit, d, cut), events, s.name);
  }

  /** A run cut short after one update: the next release, which runs to its end, does not update the file. */
  lemma MissedRelease() returns (kit: Kit, d: Dir, cut: Event, next: Event, n: Name, shipped: Bytes)
    ensures Possible(cut) && Possible(next) && cut.IsCutShort? && next.Syncs? && Managed(kit, d, n)
    ensures Source(n, shipped) in Ships(next) && Lookup(Live(kit, d, [cut, next]).files, n) != Some(shipped)
  {
    hide Managed, Live, AllShipped, IsListing;
    ObsoleteListed();
    kit := Kit(b => seq(|b|, i => 'x'), map[]);
    var before, between: Bytes := [0], [0, 0];
    n, shipped := "doorbell.yaml", [0, 0, 0];
    d := Dir(map[n := before], Written(map[n := kit.hash(before)]));
    cut, next := IsCutShort(OBSOLETE_LISTED, Some([Source(n, between)]), 1), Syncs(OBSOLETE_LISTED, Some([Source(n, shipped)]));
    WrittenIsManaged(kit, n, before);
    assert |kit.hash(between)| == 2 && |kit.hash(before)| == 1;
    MissesRelease(kit, d, OBSOLETE_LISTED, n, between, shipped);
  }

  const OBSOLETE_LISTED := ["doorbell_call_mobile_dashboard.yaml", "doorbell_call_notification.yaml"]

  lemma ObsoleteListed()
    ensures IsListing(OBSOLETE_LISTED)
  {
    assert OBSOLETE_LISTED[0] in OBSOLETE_LISTED && OBSOLETE_LISTED[1] in OBSOLETE_LISTED;
  }

  lemma WrittenIsManaged(kit: Kit, n: Name, content: Bytes)
    ensures Managed(kit, Dir(map[n := content], Written(map[n := kit.hash(content)])), n)
  {
    LoadWritten(map[n := kit.hash(content)]);
  }

  lemma MissesRelease(kit: Kit, d: Dir, order: seq<Name>, n: Name, first: Bytes, second: Bytes)
    requires IsListing(order) && n !in OBSOLETE && Managed(kit, d, n) && kit.hash(first) != kit.hash(d.files[n]) && first != second
    ensures
      var cut, next := IsCutShort(order, Some([Source(n, first)]), 1), Syncs(order, Some([Source(n, second)]));
      Lookup(Live(kit, d, [cut, next]).files, n) == Some(first) && Source(n, second) in Ships(next)
  {
    var s, cut, next :=
      Source(n, first), IsCutShort(order, Some([Source(n, first)]), 1), Syncs(order, Some([Source(n, second)]));
    assert [s][..1] == [s] && [cut, next][1..] == [next] && AllShipped([]) == {};
    assert Source(n, second) in [Source(n, second)];
    hide IsListing;
    CutShortRunFreezesAFile(kit, d, cut, s, [next]);
  }

  /** A run cut short keeps a managed file managed exactly when the part of the release it handled left the
      file's digest as it was. */
  lemma CutShortKeepsManagedExactly(kit: Kit, d: Dir, cut: Event, n: Name)
    requires Possible(cut) && cut.IsCutShort? && n !in OBSOLETE && Managed(kit, d, n)
    ensures
      var was := d.files[n];
      var shipped := ContentOf(cut.release.value[..cut.synced], n, was);
      Lookup(Next(kit, d, cut).files, n) == Some(shipped) &&
      (Managed(kit, Next(kit, d, cut), n) <==> kit.hash(shipped) == kit.hash(was))
  {
    var handled: Release := Some(cut.release.value[..cut.synced]);
    ContentOfSource(handled.value, n, d.files[n]);
    if Names(handled, n) {
      RunAtSource(kit, d, cut.order, handled, Source(n, ContentOf(handled.value, n, d.files[n])));
    } else {
      RunElsewhere(kit, d, cut.order, handled, n);
    }
    assert SlotIn(Next(kit, d, cut), n).digest == SlotIn(d, n).digest;
  }

  /** An older version the user restores over a managed file survives every run, like any other edit. */
  lemma RestoredVersionSurvives(kit: Kit, d: Dir, older: Source, events: seq<Event>)
    requires older.name !in OBSOLETE && Managed(kit, d, older.name)
    requires kit.hash(older.content) != kit.hash(d.files[older.name])
    requires forall e :: e in events ==> Possible(e) && !Touches(e, older.name) && !e.LosesManifest?
    requires older !in AllShipped(events)
    ensures Lookup(Live(kit, Next(kit, d, UserWrites(older.name, older.content)), events).files, older.name) ==
      Some(older.content)
  {
    DepartedStays(kit, Next(kit, d, UserWrites(older.name, older.content)), events, older.name);
  }

  /** A version of a file that is the user's: bytes no release ever shipped under the name, whatever happens to the
      manifest; or any bytes that differ from what the manifest records, an older shipped version included, or that it
      does not record, while the manifest is kept and until a release ships them again. */
  predicate UsersVersion(kit: Kit, d: Dir, events: seq<Event>, n: Name, content: Bytes, shipped: set<Source>) {
    OwnBytes(kit, n, content, shipped + AllShipped(events)) ||
    (n !in OBSOLETE && Departed(kit, d, n) && Source(n, content) !in AllShipped(events) &&
     forall e :: e in events ==> !e.LosesManifest?)
  }

  /** The user's version of a file survives every run, however the releases go on. */
  lemma CustomisationSurvives(
    kit: Kit, d: Dir, events: seq<Event>, n: Name, content: Bytes, shipped: set<Source>)
    requires forall e :: e in events ==> Possible(e) && !Touches(e, n)
    requires Honest(kit, d, shipped)
    requires Lookup(d.files, n) == Some(content) && UsersVersion(kit, d, events, n, content, shipped)
    ensures Lookup(Live(kit, d, events).files, n) == Some(content)
  {
    if OwnBytes(kit, n, content, shipped + AllShipped(events)) {
      OwnBytesSurvive(kit, d, events, n, content, shipped);
    } else {
      DepartedStays(kit, d, events, n);
    }
  }
}

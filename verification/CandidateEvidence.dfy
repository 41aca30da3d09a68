/** Lists of named values read as maps. */
module NamedLists {
  import opened Prelude
  import opened Paths

  datatype Named<V> = Named(path: Bytes, value: V)

  function PathsOf<V>(items: seq<Named<V>>): (paths: seq<Bytes>)
    ensures |paths| == |items| && forall i :: 0 <= i < |items| ==> paths[i] == items[i].path
  {
    seq(|items|, i requires 0 <= i < |items| => items[i].path)
  }

  ghost function AsMap<V>(items: seq<Named<V>>): map<Bytes, V> {
    if items == [] then map[]
    else
      var last := items[|items| - 1];
      AsMap(items[..|items| - 1])[last.path := last.value]
  }

  ghost predicate Ordered<V>(items: seq<Named<V>>) {
    Sorted(PathsOf(items))
  }

  lemma OrderedDistinct<V>(items: seq<Named<V>>, i: nat, j: nat)
    requires Ordered(items) && i < |items| && j < |items|
    ensures i != j ==> items[i].path != items[j].path
  {
    LessIrreflexive(items[i].path);
    if i < j {
      assert Less(PathsOf(items)[i], PathsOf(items)[j]);
    } else if j < i {
      assert Less(PathsOf(items)[j], PathsOf(items)[i]);
    }
  }

  lemma OrderedFront<V>(items: seq<Named<V>>)
    requires Ordered(items) && items != []
    ensures Ordered(items[..|items| - 1])
  {
    var front := PathsOf(items[..|items| - 1]);
    forall i, j | 0 <= i < j < |front| ensures Less(front[i], front[j]) {
      assert Less(PathsOf(items)[i], PathsOf(items)[j]);
    }
  }

  /** A sorted list loses nothing when read as a map. */
  lemma {:induction false} AsMapAt<V>(items: seq<Named<V>>, i: nat)
    requires Ordered(items) && i < |items|
    ensures items[i].path in AsMap(items) && AsMap(items)[items[i].path] == items[i].value
  {
    var n := |items| - 1;
    if i < n {
      OrderedFront(items);
      AsMapAt(items[..n], i);
      OrderedDistinct(items, i, n);
    }
  }

  lemma AsMapOfFront<V>(front: seq<Named<V>>, last: Named<V>)
    ensures AsMap(front + [last]) == AsMap(front)[last.path := last.value]
  {
    assert (front + [last])[..|front|] == front;
  }

  /** Overwriting one position of the list updates one key of the map. */
  lemma {:induction false} UpdateAt<V>(items: seq<Named<V>>, k: nat, v: V)
    requires Ordered(items) && k < |items|
    ensures AsMap(items[k := Named(items[k].path, v)]) == AsMap(items)[items[k].path := v]
  {
    hide AsMap, Ordered, PathsOf;
    var n := |items| - 1;
    var front, last := items[..n], items[n];
    assert items == front + [last];
    AsMapOfFront(front, last);
    if k < n {
      OrderedFront(items);
      UpdateAt(front, k, v);
      OrderedDistinct(items, k, n);
      var updated := front[k := Named(items[k].path, v)];
      assert items[k := Named(items[k].path, v)] == updated + [last];
      AsMapOfFront(updated, last);
    } else {
      assert items[k := Named(last.path, v)] == front + [Named(last.path, v)];
      AsMapOfFront(front, Named(last.path, v));
    }
  }
}

/** Rebuilding the candidate files of a run from its persisted baseline and proposal. */
module CandidateEvidence {
  import opened Prelude
  import opened Evidence
  import opened NamedLists
  import opened Paths
  import DirectoryManifest

  datatype Summary = Summary(length: U64, digest: Digest)
  type ManifestEntry = Named<Summary>
  type CandidateFile = Named<Bytes>

  datatype Entry = Entry(
    path: Bytes, ordinal: U64, length: U64, contentDigest: Digest, contentArtifact: string,
    platform: string, identityA: string, identityB: string, ownerId: string, ownerMode: Option<nat>)

  datatype Baseline = Baseline(
    runId: Uuid, manifestArtifact: string, manifestDigest: Digest,
    preconditionsArtifact: string, preconditionsDigest: Digest,
    entryCount: U64, totalBytes: U64, directoryCount: U64, directoryDigest: Digest,
    entries: seq<Entry>, directories: seq<Bytes>)

  datatype Proposal = Proposal(
    runId: Uuid, proposalArtifact: string, payloadArtifact: string, baselineManifestArtifact: string,
    candidateManifestDigest: Digest, path: Bytes, expectedLiveHash: Digest, beforeHash: Digest,
    afterHash: Digest, payloadHash: Digest, payloadLength: U64)

  /** The digest and its text form, the verified read of the artifact store, and the canonical forms
      of the manifest, the source preconditions and the proposal. Nothing is assumed about them. */
  datatype Environment = Environment(
    digest: Bytes -> Digest,
    text: Digest -> string,
    read: string -> Option<Bytes>,
    manifest: seq<ManifestEntry> -> Option<Bytes>,
    preconditions: (Digest, seq<Entry>) -> Option<Bytes>,
    envelope: (Digest, Proposal, Bytes) -> Option<Bytes>)

  datatype Candidate = Candidate(directories: seq<Bytes>, files: seq<CandidateFile>, manifest: seq<ManifestEntry>)

  datatype Load<+T> = Loaded(value: T) | InvalidEvidence | ArtifactCorrupt

  // ---- what is accepted ----

  predicate IdentityOk(e: Entry) {
    && (match e.ownerMode
        case Some(mode) => e.platform == "unix" && mode <= 4095
        case None => e.platform == "windows")
    && e.identityA != [] && e.identityB != [] && e.ownerId != []
  }

  predicate EntryOk(env: Environment, e: Entry, i: nat) {
    ValidRelativePath(e.path) && e.ordinal == i && e.contentArtifact == env.text(e.contentDigest) && IdentityOk(e)
  }

  /** The stored bytes have the given length and digest. */
  predicate Stored(env: Environment, artifact: string, length: U64, digest: Digest) {
    var bytes := env.read(artifact);
    bytes.Some? && |bytes.value| == length && env.digest(bytes.value) == digest
  }

  predicate ContentOk(env: Environment, e: Entry) {
    Stored(env, e.contentArtifact, e.length, e.contentDigest)
  }

  function EntryPaths(entries: seq<Entry>): (paths: seq<Bytes>)
    ensures |paths| == |entries| && forall i :: 0 <= i < |entries| ==> paths[i] == entries[i].path
  {
    PathsOf(BaselineManifest(entries))
  }

  function TotalBytes(entries: seq<Entry>): nat {
    if entries == [] then 0 else TotalBytes(entries[..|entries| - 1]) + entries[|entries| - 1].length
  }

  ghost predicate EntriesOk(env: Environment, entries: seq<Entry>) {
    && Sorted(EntryPaths(entries))
    && forall i :: 0 <= i < |entries| ==> EntryOk(env, entries[i], i) && ContentOk(env, entries[i])
  }

  /** The stored bytes are the canonical form, which has the recorded digest. */
  predicate Canonical(env: Environment, canonical: Option<Bytes>, artifact: string, digest: Digest) {
    canonical.Some? && env.digest(canonical.value) == digest && env.read(artifact) == canonical
  }

  ghost predicate RecordsAgree(env: Environment, b: Baseline, p: Proposal) {
    && DirectoryManifest.WellFormed(b.directories)
    && |b.directories| == b.directoryCount
    && env.digest(EncodeDirectories(b.directories)) == b.directoryDigest
    && p.runId == b.runId
    && b.manifestArtifact == env.text(b.manifestDigest)
    && b.preconditionsArtifact == env.text(b.preconditionsDigest)
    && p.baselineManifestArtifact == b.manifestArtifact
    && p.payloadArtifact == env.text(p.payloadHash)
    && p.afterHash == p.payloadHash
    && p.expectedLiveHash == p.beforeHash
  }

  /** The proposal replaces one file of the baseline, whose content was `beforeHash`. */
  ghost predicate Replaces(b: Baseline, p: Proposal, k: int) {
    0 <= k < |b.entries| && b.entries[k].path == p.path && b.entries[k].contentDigest == p.beforeHash
  }

  ghost predicate BaselineOk(env: Environment, b: Baseline) {
    && |b.entries| == b.entryCount
    && EntriesOk(env, b.entries)
    && TotalBytes(b.entries) == b.totalBytes
    && Canonical(env, env.manifest(BaselineManifest(b.entries)), b.manifestArtifact, b.manifestDigest)
    && Canonical(env, env.preconditions(b.manifestDigest, b.entries), b.preconditionsArtifact, b.preconditionsDigest)
  }

  ghost predicate ProposalOk(env: Environment, b: Baseline, p: Proposal) {
    && Stored(env, p.payloadArtifact, p.payloadLength, p.payloadHash)
    && env.envelope(b.manifestDigest, p, env.read(p.payloadArtifact).value).Some?
    && env.read(p.proposalArtifact) == env.envelope(b.manifestDigest, p, env.read(p.payloadArtifact).value)
    && var manifest := env.manifest(CandidateManifest(b.entries, p));
       manifest.Some? && env.digest(manifest.value) == p.candidateManifestDigest
  }

  ghost predicate Accepted(env: Environment, b: Baseline, p: Proposal) {
    && RecordsAgree(env, b, p)
    && (exists k :: Replaces(b, p, k))
    && BaselineOk(env, b)
    && ProposalOk(env, b, p)
  }

  // ---- what is built ----

  function BaselineManifest(entries: seq<Entry>): (manifest: seq<ManifestEntry>)
    ensures |manifest| == |entries|
    ensures forall i :: 0 <= i < |entries| ==>
              manifest[i] == Named(entries[i].path, Summary(entries[i].length, entries[i].contentDigest))
  {
    seq(|entries|, i requires 0 <= i < |entries| =>
      Named(entries[i].path, Summary(entries[i].length, entries[i].contentDigest)))
  }

  function BytesOf(env: Environment, artifact: string): Bytes {
    var bytes := env.read(artifact);
    if bytes.Some? then bytes.value else []
  }

  function BaselineFiles(env: Environment, entries: seq<Entry>): (files: seq<CandidateFile>)
    ensures |files| == |entries|
    ensures forall i :: 0 <= i < |entries| ==>
              files[i] == Named(entries[i].path, BytesOf(env, entries[i].contentArtifact))
  {
    seq(|entries|, i requires 0 <= i < |entries| => Named(entries[i].path, BytesOf(env, entries[i].contentArtifact)))
  }

  /** Wherever the proposal's path occurs, the payload stands. */
  function CandidateManifest(entries: seq<Entry>, p: Proposal): (manifest: seq<ManifestEntry>)
    ensures |manifest| == |entries|
    ensures forall i :: 0 <= i < |entries| ==>
              manifest[i] == Named(entries[i].path,
                                   if entries[i].path == p.path then Summary(p.payloadLength, p.payloadHash)
                                   else Summary(entries[i].length, entries[i].contentDigest))
  {
    seq(|entries|, i requires 0 <= i < |entries| =>
      Named(entries[i].path,
            if entries[i].path == p.path then Summary(p.payloadLength, p.payloadHash)
            else Summary(entries[i].length, entries[i].contentDigest)))
  }

  function CandidateFiles(env: Environment, entries: seq<Entry>, p: Proposal): (files: seq<CandidateFile>)
    ensures |files| == |entries|
    ensures forall i :: 0 <= i < |entries| ==>
              files[i] == Named(entries[i].path,
                                BytesOf(env, if entries[i].path == p.path then p.payloadArtifact
                                             else entries[i].contentArtifact))
  {
    seq(|entries|, i requires 0 <= i < |entries| =>
      Named(entries[i].path,
            BytesOf(env, if entries[i].path == p.path then p.payloadArtifact else entries[i].contentArtifact)))
  }

  // ---- what acceptance means ----

  /** Files and manifest agree position by position. */
  lemma FilesMatchManifest(env: Environment, b: Baseline, p: Proposal, i: nat)
    requires Accepted(env, b, p) && i < |b.entries|
    ensures var file, entry := CandidateFiles(env, b.entries, p)[i], CandidateManifest(b.entries, p)[i];
            && file.path == entry.path
            && |file.value| == entry.value.length
            && env.digest(file.value) == entry.value.digest
  {
    assert ContentOk(env, b.entries[i]);
  }

  lemma SortedEntries<V>(entries: seq<Entry>, items: seq<Named<V>>)
    requires Sorted(EntryPaths(entries)) && |items| == |entries|
    requires forall i :: 0 <= i < |entries| ==> items[i].path == entries[i].path
    ensures Ordered(items)
  {
    assert PathsOf(items) == EntryPaths(entries);
  }

  /** At most one entry has the proposal's path, so every way of looking it up agrees. */
  lemma UniqueEntry(entries: seq<Entry>, i: nat, j: nat)
    requires Sorted(EntryPaths(entries)) && i < |entries| && j < |entries| && entries[i].path == entries[j].path
    ensures i == j
  {
    SortedEntries(entries, BaselineManifest(entries));
    OrderedDistinct(BaselineManifest(entries), i, j);
  }

  lemma CandidateAtIndex(env: Environment, entries: seq<Entry>, p: Proposal, k: nat)
    requires Sorted(EntryPaths(entries)) && k < |entries| && entries[k].path == p.path
    ensures CandidateManifest(entries, p) ==
            BaselineManifest(entries)[k := Named(p.path, Summary(p.payloadLength, p.payloadHash))]
    ensures CandidateFiles(env, entries, p) ==
            BaselineFiles(env, entries)[k := Named(p.path, BytesOf(env, p.payloadArtifact))]
  {
    forall i | 0 <= i < |entries| && entries[i].path == p.path ensures i == k {
      UniqueEntry(entries, i, k);
    }
  }

  /** As maps, the candidate is the baseline with one existing key updated to the payload. */
  lemma CandidateIsOneUpdate(env: Environment, b: Baseline, p: Proposal)
    requires Accepted(env, b, p)
    ensures p.path in AsMap(BaselineFiles(env, b.entries))
    ensures env.digest(AsMap(BaselineFiles(env, b.entries))[p.path]) == p.beforeHash
    ensures AsMap(CandidateFiles(env, b.entries, p)) ==
            AsMap(BaselineFiles(env, b.entries))[p.path := BytesOf(env, p.payloadArtifact)]
    ensures AsMap(CandidateManifest(b.entries, p)) ==
            AsMap(BaselineManifest(b.entries))[p.path := Summary(p.payloadLength, p.payloadHash)]
    ensures env.digest(BytesOf(env, p.payloadArtifact)) == p.afterHash
  {
    var k :| Replaces(b, p, k);
    CandidateAtIndex(env, b.entries, p, k);
    SortedEntries(b.entries, BaselineFiles(env, b.entries));
    SortedEntries(b.entries, BaselineManifest(b.entries));
    AsMapAt(BaselineFiles(env, b.entries), k);
    UpdateAt(BaselineFiles(env, b.entries), k, BytesOf(env, p.payloadArtifact));
    UpdateAt(BaselineManifest(b.entries), k, Summary(p.payloadLength, p.payloadHash));
    assert ContentOk(env, b.entries[k]);
  }

  // ---- loading ----

  /** The first entry with the given path. */
  method FindEntry(entries: seq<Entry>, path: Bytes) returns (found: Option<nat>)
    ensures found.Some? ==> found.value < |entries| && entries[found.value].path == path
    ensures found.Some? ==> forall i :: 0 <= i < found.value ==> entries[i].path != path
    ensures found.None? ==> forall i :: 0 <= i < |entries| ==> entries[i].path != path
  {
    for i := 0 to |entries|
      invariant forall j :: 0 <= j < i ==> entries[j].path != path
    {
      if entries[i].path == path { return Some(i); }
    }
    return None;
  }

  /** `Some` with the entry found by the linear lookup, exactly when the records agree and that entry
      has the digest the proposal expects. */
  method ValidatePersistedEvidence(env: Environment, b: Baseline, p: Proposal) returns (found: Option<nat>)
    ensures found.Some? ==> RecordsAgree(env, b, p) && Replaces(b, p, found.value)
    ensures found.None? && Sorted(EntryPaths(b.entries)) ==> !(RecordsAgree(env, b, p) && exists k :: Replaces(b, p, k))
  {
    hide DirectoryManifest.WellFormed, EncodeDirectories, Sorted;
    var directories := DirectoryManifest.CanonicalDirectoryManifest(b.directories);
    if directories.None? { return None; }
    var matching := FindEntry(b.entries, p.path);
    if || p.runId != b.runId
       || b.manifestArtifact != env.text(b.manifestDigest)
       || b.preconditionsArtifact != env.text(b.preconditionsDigest)
       || b.directoryCount != |b.directories|
       || env.digest(directories.value) != b.directoryDigest
       || p.baselineManifestArtifact != b.manifestArtifact
       || p.payloadArtifact != env.text(p.payloadHash)
       || p.afterHash != p.payloadHash
       || p.expectedLiveHash != p.beforeHash
       || matching.None?
    {
      return None;
    }
    if b.entries[matching.value].contentDigest != p.beforeHash {
      if Sorted(EntryPaths(b.entries)) {
        forall k | Replaces(b, p, k) ensures false {
          UniqueEntry(b.entries, k, matching.value);
        }
      }
      return None;
    }
    return matching;
  }

  lemma {:induction false} TotalBytesMonotone(entries: seq<Entry>, k: nat)
    requires k <= |entries|
    ensures TotalBytes(entries[..k]) <= TotalBytes(entries)
  {
    if k < |entries| {
      var front := entries[..|entries| - 1];
      TotalBytesMonotone(front, k);
      assert front[..k] == entries[..k];
    } else {
      assert entries[..k] == entries;
    }
  }

  /** What has been established after `k` entries. */
  ghost predicate LoadedUpTo(env: Environment, entries: seq<Entry>, k: nat)
    requires k <= |entries|
  {
    && (forall i :: 0 < i < k ==> Less(entries[i - 1].path, entries[i].path))
    && (forall i :: 0 <= i < k ==> EntryOk(env, entries[i], i) && ContentOk(env, entries[i]))
  }

  lemma AllLoaded(env: Environment, entries: seq<Entry>)
    requires LoadedUpTo(env, entries, |entries|)
    ensures EntriesOk(env, entries)
  {
    SortedByNeighbours(EntryPaths(entries));
  }

  /** Checks one entry and reads its content. */
  method LoadEntry(env: Environment, entries: seq<Entry>, k: nat) returns (r: Load<Bytes>)
    requires k < |entries| && k < 0x1_0000_0000_0000_0000 && LoadedUpTo(env, entries, k)
    ensures r.Loaded? ==> LoadedUpTo(env, entries, k + 1) && r.value == BytesOf(env, entries[k].contentArtifact)
    ensures !r.Loaded? ==> !EntriesOk(env, entries)
  {
    hide ValidRelativePath, Less, IdentityOk;
    var e := entries[k];
    if !EntryOk(env, e, k) { return InvalidEvidence; }
    if k > 0 && !Less(entries[k - 1].path, e.path) {
      assert EntryPaths(entries)[k - 1] == entries[k - 1].path && EntryPaths(entries)[k] == e.path;
      return InvalidEvidence;
    }
    if !ContentOk(env, e) { return ArtifactCorrupt; }
    return Loaded(BytesOf(env, e.contentArtifact));
  }

  lemma BuiltStep(env: Environment, entries: seq<Entry>, k: nat)
    requires k < |entries|
    ensures BaselineManifest(entries[..k + 1]) ==
            BaselineManifest(entries[..k]) +
            [Named(entries[k].path, Summary(entries[k].length, entries[k].contentDigest))]
    ensures BaselineFiles(env, entries[..k + 1]) ==
            BaselineFiles(env, entries[..k]) + [Named(entries[k].path, BytesOf(env, entries[k].contentArtifact))]
    ensures TotalBytes(entries[..k + 1]) == TotalBytes(entries[..k]) + entries[k].length
  {
    assert entries[..k + 1][..k] == entries[..k];
  }

  /** The two parallel lists of the baseline. */
  method LoadEntries(env: Environment, b: Baseline) returns (r: Load<(seq<ManifestEntry>, seq<CandidateFile>)>)
    requires |b.entries| == b.entryCount
    ensures r.Loaded? <==> EntriesOk(env, b.entries) && TotalBytes(b.entries) == b.totalBytes
    ensures r.Loaded? ==> r.value == (BaselineManifest(b.entries), BaselineFiles(env, b.entries))
  {
    hide EntriesOk, LoadedUpTo, BaselineManifest, BaselineFiles, TotalBytes;
    var manifest: seq<ManifestEntry>, files: seq<CandidateFile>, total: nat := [], [], 0;
    assert b.entries[..0] == [];
    NothingLoaded(env, b.entries);
    for k := 0 to |b.entries|
      invariant LoadedUpTo(env, b.entries, k)
      invariant manifest == BaselineManifest(b.entries[..k])
      invariant files == BaselineFiles(env, b.entries[..k])
      invariant total == TotalBytes(b.entries[..k]) < 0x1_0000_0000_0000_0000
    {
      var entry := b.entries[k];
      var content := LoadEntry(env, b.entries, k);
      if !content.Loaded? {
        return if content.ArtifactCorrupt? then ArtifactCorrupt else InvalidEvidence;
      }
      BuiltStep(env, b.entries, k);
      if total + entry.length >= 0x1_0000_0000_0000_0000 {
        TotalBytesMonotone(b.entries, k + 1);
        return InvalidEvidence;
      }
      total := total + entry.length;
      manifest := manifest + [Named(entry.path, Summary(entry.length, entry.contentDigest))];
      files := files + [Named(entry.path, content.value)];
    }
    assert b.entries[..|b.entries|] == b.entries;
    if total != b.totalBytes { return InvalidEvidence; }
    AllLoaded(env, b.entries);
    return Loaded((manifest, files));
  }

  lemma NothingLoaded(env: Environment, entries: seq<Entry>)
    ensures LoadedUpTo(env, entries, 0)
    ensures BaselineManifest([]) == [] && BaselineFiles(env, []) == [] && TotalBytes([]) == 0
  {
  }

  /** The baseline half: entries, manifest and source preconditions. */
  method LoadBaseline(env: Environment, b: Baseline) returns (r: Load<(seq<ManifestEntry>, seq<CandidateFile>)>)
    ensures r.Loaded? <==> BaselineOk(env, b)
    ensures r.Loaded? ==> r.value == (BaselineManifest(b.entries), BaselineFiles(env, b.entries))
  {
    hide EntriesOk, BaselineManifest, BaselineFiles, TotalBytes;
    if |b.entries| != b.entryCount { return InvalidEvidence; }
    var loaded := LoadEntries(env, b);
    if !loaded.Loaded? { return loaded; }
    var manifest := env.manifest(loaded.value.0);
    if manifest.None? { return InvalidEvidence; }
    if !Canonical(env, manifest, b.manifestArtifact, b.manifestDigest) { return ArtifactCorrupt; }
    var preconditions := env.preconditions(b.manifestDigest, b.entries);
    if preconditions.None? { return InvalidEvidence; }
    if !Canonical(env, preconditions, b.preconditionsArtifact, b.preconditionsDigest) { return ArtifactCorrupt; }
    return loaded;
  }

  /** The entry to overwrite, by binary search in the loaded manifest. */
  method FindByBinarySearch(entries: seq<Entry>, path: Bytes) returns (k: Option<nat>)
    requires Sorted(EntryPaths(entries))
    ensures k.Some? ==> k.value < |entries| && entries[k.value].path == path
    ensures k.None? ==> forall i :: 0 <= i < |entries| ==> entries[i].path != path
  {
    k := BinarySearch(EntryPaths(entries), path);
    if k.None? {
      forall i | 0 <= i < |entries| ensures entries[i].path != path {
        assert EntryPaths(entries)[i] in EntryPaths(entries);
      }
    }
  }

  /** Loads exactly the accepted evidence. The linear lookup of the validation and the binary search
      of the reconstruction select the same entry. */
  method LoadVerifiedCandidateEvidence(env: Environment, b: Baseline, p: Proposal) returns (r: Load<Candidate>)
    ensures r.Loaded? <==> Accepted(env, b, p)
    ensures r.Loaded? ==>
              r.value == Candidate(b.directories, CandidateFiles(env, b.entries, p), CandidateManifest(b.entries, p))
  {
    hide Sorted, BaselineManifest, BaselineFiles, CandidateFiles, CandidateManifest, RecordsAgree, Stored, TotalBytes;
    var linear := ValidatePersistedEvidence(env, b, p);
    if linear.None? { return InvalidEvidence; }
    var loaded := LoadBaseline(env, b);
    if !loaded.Loaded? {
      return if loaded.ArtifactCorrupt? then ArtifactCorrupt else InvalidEvidence;
    }
    var manifest, files := loaded.value.0, loaded.value.1;
    if !Stored(env, p.payloadArtifact, p.payloadLength, p.payloadHash) { return ArtifactCorrupt; }
    var payload := BytesOf(env, p.payloadArtifact);
    StoredSome(env, p.payloadArtifact, p.payloadLength, p.payloadHash);
    var envelope := env.envelope(b.manifestDigest, p, payload);
    if envelope.None? { return InvalidEvidence; }
    if env.read(p.proposalArtifact) != envelope { return ArtifactCorrupt; }
    var index := FindByBinarySearch(b.entries, p.path);
    if index.None? { return InvalidEvidence; }
    UniqueEntry(b.entries, index.value, linear.value);
    CandidateAtIndex(env, b.entries, p, index.value);
    assert |manifest| == |files| == |b.entries|;
    manifest := manifest[index.value := Named(p.path, Summary(p.payloadLength, p.payloadHash))];
    files := files[index.value := Named(p.path, payload)];
    var candidate := env.manifest(manifest);
    if candidate.None? { return InvalidEvidence; }
    if env.digest(candidate.value) != p.candidateManifestDigest { return InvalidEvidence; }
    return Loaded(Candidate(b.directories, files, manifest));
  }

  lemma StoredSome(env: Environment, artifact: string, length: U64, digest: Digest)
    requires Stored(env, artifact, length, digest)
    ensures env.read(artifact) == Some(BytesOf(env, artifact))
  {
  }
}

/** Byte-wise order and relative paths. */
module Paths {
  import opened Prelude

  const SLASH: byte := 47
  const BACKSLASH: byte := 92
  const DOT: byte := 46
  const MAX_RELATIVE_PATH_BYTES: nat := 4_096

  // ---- order ----

  predicate Less(a: Bytes, b: Bytes) {
    b != [] && (a == [] || a[0] < b[0] || (a[0] == b[0] && Less(a[1..], b[1..])))
  }

  /** Byte-wise lexicographic order: a proper prefix, or the smaller byte at the first difference. */
  lemma {:induction false} LessExactly(a: Bytes, b: Bytes)
    ensures Less(a, b) <==>
              exists k :: 0 <= k <= |a| && k < |b| && a[..k] == b[..k] && (k == |a| || a[k] < b[k])
  {
    if a == [] || b == [] || a[0] != b[0] {
      if Less(a, b) {
        assert a[..0] == b[..0];
      }
    } else {
      LessExactly(a[1..], b[1..]);
      if Less(a, b) {
        var k :| 0 <= k <= |a[1..]| && k < |b[1..]| && a[1..][..k] == b[1..][..k]
                 && (k == |a[1..]| || a[1..][k] < b[1..][k]);
        assert a[..k + 1] == [a[0]] + a[1..][..k] && b[..k + 1] == [b[0]] + b[1..][..k];
      }
      if k :| 0 <= k <= |a| && k < |b| && a[..k] == b[..k] && (k == |a| || a[k] < b[k]) {
        assert a[1..][..k - 1] == a[..k][1..] && b[1..][..k - 1] == b[..k][1..];
      }
    }
  }

  lemma {:induction false} LessTransitive(a: Bytes, b: Bytes, c: Bytes)
    requires Less(a, b) && Less(b, c)
    ensures Less(a, c)
  {
    if a != [] && a[0] == b[0] && b[0] == c[0] {
      LessTransitive(a[1..], b[1..], c[1..]);
    }
  }

  lemma {:induction false} LessIrreflexive(a: Bytes)
    ensures !Less(a, a)
  {
    if a != [] {
      LessIrreflexive(a[1..]);
    }
  }

  ghost predicate Sorted(paths: seq<Bytes>) {
    forall i, j :: 0 <= i < j < |paths| ==> Less(paths[i], paths[j])
  }

  /** Comparing neighbours is enough. */
  lemma SortedByNeighbours(paths: seq<Bytes>)
    requires forall i :: 0 < i < |paths| ==> Less(paths[i - 1], paths[i])
    ensures Sorted(paths)
  {
    forall i, j | 0 <= i < j < |paths| ensures Less(paths[i], paths[j]) {
      NeighboursReach(paths, i, j);
    }
  }

  lemma {:induction false} NeighboursReach(paths: seq<Bytes>, i: nat, j: nat)
    requires forall k :: 0 < k < |paths| ==> Less(paths[k - 1], paths[k])
    requires i < j < |paths|
    ensures Less(paths[i], paths[j])
    decreases j - i
  {
    if i + 1 < j {
      NeighboursReach(paths, i, j - 1);
      LessTransitive(paths[i], paths[j - 1], paths[j]);
    }
  }

  lemma NotBefore(paths: seq<Bytes>, mid: nat, target: Bytes)
    requires Sorted(paths) && mid < |paths| && !Less(target, paths[mid])
    ensures forall k :: 0 <= k < mid ==> paths[k] != target
  {
    assert forall k :: 0 <= k < mid ==> Less(paths[k], paths[mid]);
  }

  lemma NotFrom(paths: seq<Bytes>, mid: nat, target: Bytes)
    requires Sorted(paths) && mid < |paths| && Less(target, paths[mid])
    ensures forall k :: mid <= k < |paths| ==> paths[k] != target
  {
    LessIrreflexive(target);
    forall k | mid <= k < |paths| ensures paths[k] != target {
      if k > mid {
        LessTransitive(target, paths[mid], paths[k]);
      }
    }
  }

  /** The library's halving search. Its answer is always an occurrence; on a sorted list it is also
      complete. Nothing is assumed about the order of the list. */
  method BinarySearch(paths: seq<Bytes>, target: Bytes) returns (found: Option<nat>)
    ensures found.Some? ==> found.value < |paths| && paths[found.value] == target
    ensures Sorted(paths) ==> (found.Some? <==> target in paths)
  {
    if paths == [] { return None; }
    var base, size := 0, |paths|;
    while size > 1
      invariant 0 <= base && 1 <= size && base + size <= |paths|
      invariant Sorted(paths) ==> forall k :: 0 <= k < |paths| && paths[k] == target ==> base <= k < base + size
    {
      var half := size / 2;
      var mid := base + half;
      if !Less(target, paths[mid]) {
        if Sorted(paths) { NotBefore(paths, mid, target); }
        base := mid;
      } else if Sorted(paths) {
        NotFrom(paths, mid, target);
      }
      size := size - half;
    }
    if paths[base] == target { return Some(base); }
    return None;
  }

  // ---- components ----

  /** The parts between slashes. */
  function Split(path: Bytes): (parts: seq<Bytes>)
    ensures parts != []
  {
    if path == [] then [[]]
    else
      var rest := Split(path[1..]);
      if path[0] == SLASH then [[]] + rest else [[path[0]] + rest[0]] + rest[1..]
  }

  function Join(parts: seq<Bytes>): Bytes
    requires parts != []
  {
    if |parts| == 1 then parts[0] else parts[0] + [SLASH] + Join(parts[1..])
  }

  lemma JoinPrepend(b: byte, parts: seq<Bytes>)
    requires parts != []
    ensures Join([[b] + parts[0]] + parts[1..]) == [b] + Join(parts)
  {
    var longer := [[b] + parts[0]] + parts[1..];
    assert longer[1..] == parts[1..];
    if |parts| > 1 {
      assert [b] + parts[0] + [SLASH] + Join(parts[1..]) == [b] + (parts[0] + [SLASH] + Join(parts[1..]));
    }
  }

  lemma JoinEmptyFirst(parts: seq<Bytes>)
    requires parts != []
    ensures Join([[]] + parts) == [SLASH] + Join(parts)
  {
    assert ([[]] + parts)[1..] == parts;
  }

  lemma {:induction false} JoinSplit(path: Bytes)
    ensures Join(Split(path)) == path
  {
    if path != [] {
      var rest := Split(path[1..]);
      JoinSplit(path[1..]);
      hide Join;
      JoinPrepend(path[0], rest);
      JoinEmptyFirst(rest);
      assert path == [path[0]] + path[1..];
    }
  }

  lemma {:induction false} SplitJoin(parts: seq<Bytes>)
    requires parts != [] && forall i :: 0 <= i < |parts| ==> SLASH !in parts[i]
    ensures Split(Join(parts)) == parts
    decreases |parts|, |parts[0]|
  {
    var path := Join(parts);
    if parts[0] == [] {
      if |parts| > 1 {
        assert path == [SLASH] + Join(parts[1..]);
        assert path[1..] == Join(parts[1..]);
        SplitJoin(parts[1..]);
        assert parts == [[]] + parts[1..];
      } else {
        assert parts == [[]];
      }
    } else {
      var shorter := [parts[0][1..]] + parts[1..];
      assert shorter[1..] == parts[1..];
      assert path == [parts[0][0]] + Join(shorter);
      assert path[1..] == Join(shorter);
      assert parts[0][0] in parts[0];
      SplitJoin(shorter);
      assert [parts[0][0]] + parts[0][1..] == parts[0];
      assert parts == [parts[0]] + parts[1..];
    }
  }

  predicate Component(part: Bytes) {
    part != [] && part != [DOT] && part != [DOT, DOT] && SLASH !in part && BACKSLASH !in part
  }

  /** The checks made on a stored path. */
  predicate ValidRelativePath(path: Bytes) {
    && path != [] && |path| <= MAX_RELATIVE_PATH_BYTES
    && BACKSLASH !in path
    && path[0] != SLASH && path[|path| - 1] != SLASH
    && forall part :: part in Split(path) ==> part != [] && part != [DOT] && part != [DOT, DOT]
  }

  lemma {:induction false} SplitParts(path: Bytes)
    ensures forall part :: part in Split(path) ==> SLASH !in part
    ensures forall part, b :: part in Split(path) && b in part ==> b in path
  {
    if path != [] {
      SplitParts(path[1..]);
      var rest := Split(path[1..]);
      assert rest[0] in rest;
      forall part | part in Split(path) ensures SLASH !in part && forall b :: b in part ==> b in path {
        if path[0] != SLASH && part == Split(path)[0] {
          assert forall b :: b in part ==> b == path[0] || b in rest[0];
        } else {
          assert part == [] || part in rest;
        }
      }
    }
  }

  lemma {:induction false} JoinBytes(parts: seq<Bytes>)
    requires parts != [] && forall i :: 0 <= i < |parts| ==> Component(parts[i])
    ensures Join(parts) != [] && Join(parts)[0] != SLASH && Join(parts)[|Join(parts)| - 1] != SLASH
    ensures BACKSLASH !in Join(parts)
  {
    assert Component(parts[0]) && parts[0][0] in parts[0] && parts[0][|parts[0]| - 1] in parts[0];
    if |parts| > 1 {
      JoinBytes(parts[1..]);
    }
  }

  /** A path passes exactly when it is some components joined by slashes, and short enough. */
  lemma ValidPathsAreJoins(path: Bytes)
    ensures ValidRelativePath(path) <==>
              |path| <= MAX_RELATIVE_PATH_BYTES &&
              exists parts ::
                parts != [] && (forall i :: 0 <= i < |parts| ==> Component(parts[i])) && path == Join(parts)
  {
    if ValidRelativePath(path) {
      JoinSplit(path);
      SplitParts(path);
      forall i | 0 <= i < |Split(path)| ensures Component(Split(path)[i]) {
        assert Split(path)[i] in Split(path);
      }
    }
    if parts :| parts != [] && (forall i :: 0 <= i < |parts| ==> Component(parts[i])) && path == Join(parts) {
      SplitJoin(parts);
      JoinBytes(parts);
    }
  }

  // ---- ancestors ----

  /** `ancestor` names a directory above `path`. */
  predicate IsAncestor(ancestor: Bytes, path: Bytes) {
    ancestor + [SLASH] <= path
  }

  /** Everything before the last slash. */
  function Parent(path: Bytes): (parent: Option<Bytes>)
    ensures parent.Some? ==> |parent.value| < |path| && IsAncestor(parent.value, path)
  {
    if path == [] then None
    else
      var front := path[..|path| - 1];
      if path[|path| - 1] == SLASH then assert front + [SLASH] == path; Some(front)
      else Parent(front)
  }

  lemma {:induction false} ParentIsNearest(ancestor: Bytes, path: Bytes)
    requires IsAncestor(ancestor, path)
    ensures Parent(path).Some?
    ensures ancestor == Parent(path).value || IsAncestor(ancestor, Parent(path).value)
  {
    var front := path[..|path| - 1];
    assert path[|ancestor|] == SLASH;
    if path[|path| - 1] == SLASH {
      if |ancestor| + 1 < |path| {
        assert ancestor + [SLASH] <= front;
      } else {
        assert path[..|ancestor|] == ancestor;
      }
    } else {
      assert ancestor + [SLASH] <= front;
      ParentIsNearest(ancestor, front);
    }
  }

  ghost predicate ClosedUnderParent(paths: seq<Bytes>) {
    forall path :: path in paths && Parent(path).Some? ==> Parent(path).value in paths
  }

  /** Checking each direct parent is enough for all ancestors. */
  lemma {:induction false} ParentsCoverAncestors(paths: seq<Bytes>, path: Bytes, ancestor: Bytes)
    requires ClosedUnderParent(paths) && path in paths && IsAncestor(ancestor, path)
    ensures ancestor in paths
    decreases |path|
  {
    ParentIsNearest(ancestor, path);
    var parent := Parent(path).value;
    assert parent in paths;
    if ancestor != parent {
      ParentsCoverAncestors(paths, parent, ancestor);
    }
  }
}

/** The canonical list of baseline directories. */
module DirectoryManifest {
  import opened Prelude
  import opened Encoding
  import opened Evidence
  import opened Paths

  const MAX_DIRECTORY_COUNT: nat := 100_000
  const MAX_AGGREGATE_PATH_BYTES: nat := 8 * 1024 * 1024

  function TotalLength(paths: seq<Bytes>): nat {
    if paths == [] then 0 else TotalLength(paths[..|paths| - 1]) + |paths[|paths| - 1]|
  }

  /** A complete, strictly ordered tree of directories within the limits. */
  ghost predicate WellFormed(paths: seq<Bytes>) {
    && |paths| <= MAX_DIRECTORY_COUNT
    && TotalLength(paths) <= MAX_AGGREGATE_PATH_BYTES
    && Sorted(paths)
    && (forall path :: path in paths ==> ValidRelativePath(path))
    && (forall path, ancestor :: path in paths && IsAncestor(ancestor, path) ==> ancestor in paths)
  }

  lemma {:induction false} TotalLengthMonotone(paths: seq<Bytes>, k: nat)
    requires k <= |paths|
    ensures TotalLength(paths[..k]) <= TotalLength(paths)
  {
    if k < |paths| {
      var front := paths[..|paths| - 1];
      TotalLengthMonotone(front, k);
      assert front[..k] == paths[..k];
    } else {
      assert paths[..k] == paths;
    }
  }

  /** What has been checked after the first `k` entries. The parents are looked up in the whole list,
      whose tail is still unchecked. */
  ghost predicate CheckedUpTo(paths: seq<Bytes>, k: nat)
    requires k <= |paths|
  {
    && (forall i :: 0 < i < k ==> Less(paths[i - 1], paths[i]))
    && (forall i :: 0 <= i < k ==> ValidRelativePath(paths[i]))
    && (forall i :: 0 <= i < k && Parent(paths[i]).Some? ==> Parent(paths[i]).value in paths)
  }

  lemma NothingChecked(paths: seq<Bytes>)
    ensures CheckedUpTo(paths, 0)
    ensures EncodeTexts(paths[..0]) == [] && TotalLength(paths[..0]) == 0
  {
  }

  lemma AllChecked(paths: seq<Bytes>)
    requires |paths| <= MAX_DIRECTORY_COUNT && TotalLength(paths) <= MAX_AGGREGATE_PATH_BYTES
    requires CheckedUpTo(paths, |paths|)
    ensures WellFormed(paths)
  {
    SortedByNeighbours(paths);
    forall path | path in paths && Parent(path).Some? ensures Parent(path).value in paths {
      var i :| 0 <= i < |paths| && paths[i] == path;
    }
    forall path, ancestor | path in paths && IsAncestor(ancestor, path) ensures ancestor in paths {
      ParentsCoverAncestors(paths, path, ancestor);
    }
  }

  /** The checks made on entry `k`. */
  method CheckEntry(directories: seq<Bytes>, k: nat) returns (ok: bool)
    requires k < |directories| && CheckedUpTo(directories, k)
    ensures ok ==> CheckedUpTo(directories, k + 1)
    ensures !ok ==> !WellFormed(directories)
  {
    var directory := directories[k];
    assert directory in directories;
    if !ValidRelativePath(directory) || (k > 0 && !Less(directories[k - 1], directory)) { return false; }
    var parent := Parent(directory);
    if parent.Some? {
      var found := BinarySearch(directories, parent.value);
      return found.Some?;
    }
    return true;
  }

  /** Accepts exactly the well-formed lists, and encodes them. */
  method CanonicalDirectoryManifest(directories: seq<Bytes>) returns (r: Option<Bytes>)
    ensures r.Some? <==> WellFormed(directories)
    ensures r.Some? ==> r.value == EncodeDirectories(directories)
  {
    hide CheckedUpTo, Sorted, ValidRelativePath, IsAncestor, EncodeTexts, EncodeText, BigEndian, Domain;
    if |directories| > MAX_DIRECTORY_COUNT { return None; }
    assert Plain(DIRECTORY_MANIFEST);
    var head := Domain(DIRECTORY_MANIFEST) + BigEndian(|directories|, 4);
    var bytes, aggregate, k := head, 0, 0;
    NothingChecked(directories);
    while k < |directories|
      invariant 0 <= k <= |directories|
      invariant CheckedUpTo(directories, k)
      invariant aggregate == TotalLength(directories[..k]) <= MAX_AGGREGATE_PATH_BYTES
      invariant bytes == head + EncodeTexts(directories[..k])
    {
      var ok := CheckEntry(directories, k);
      if !ok { return None; }
      assert directories[..k + 1] == directories[..k] + [directories[k]];
      assert directories[..k + 1][..k] == directories[..k];
      aggregate := aggregate + |directories[k]|;
      if aggregate > MAX_AGGREGATE_PATH_BYTES {
        TotalLengthMonotone(directories, k + 1);
        return None;
      }
      EncodeTextsAppend(directories[..k], directories[k]);
      bytes := bytes + EncodeText(directories[k]);
      k := k + 1;
    }
    assert directories[..k] == directories;
    AllChecked(directories);
    return Some(bytes);
  }

  /** An accepted list can be read back from its encoding. */
  lemma ManifestRoundTrip(directories: seq<Bytes>)
    requires WellFormed(directories)
    ensures DecodeCounted(DIRECTORY_MANIFEST, EncodeDirectories(directories)) == Some(directories)
  {
    forall i | 0 <= i < |directories| ensures |directories[i]| < TEXT_LIMIT {
      assert directories[i] in directories;
    }
    CountedRoundTrip(DIRECTORY_MANIFEST, directories);
  }
}

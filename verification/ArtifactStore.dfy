/** Quota accounting: counters against a recount of the directory. */
module ArtifactUsage {
  import opened Disk
  import opened MapSums

  const U64_MAX: nat := 0xFFFF_FFFF_FFFF_FFFF
  const MAX_ARTIFACT_STORE_BYTES: nat := 1024 * 1024 * 1024
  const MAX_ARTIFACT_OBJECTS: nat := 200_000

  datatype Usage = Usage(objects: nat, bytes: nat)

  predicate CanAdd(usage: Usage, length: nat) {
    && usage.objects + 1 <= U64_MAX && usage.bytes + length <= U64_MAX
    && usage.objects + 1 <= MAX_ARTIFACT_OBJECTS && usage.bytes + length <= MAX_ARTIFACT_STORE_BYTES
  }

  /** What a fresh scan would count for these entries. */
  ghost function Recount(sizes: map<Name, nat>): Usage {
    Usage(|sizes|, Sum(sizes))
  }

  lemma {:induction false} SumBound(sizes: map<Name, nat>)
    requires forall name :: name in sizes ==> sizes[name] <= MAX_ARTIFACT_BYTES
    ensures Sum(sizes) <= |sizes| * MAX_ARTIFACT_BYTES
    decreases |sizes|
  {
    if sizes != map[] {
      var name :| name in sizes;
      SumRemove(sizes, name);
      SumBound(sizes - {name});
    }
  }
}

/** The content-addressed artifact store: publication, reading, garbage collection, recovery. */
module ArtifactStores {
  import opened Prelude
  import opened Disk
  import opened MapSums
  import opened ArtifactUsage

  const MAX_ARTIFACT_DIRECTORY_ENTRIES: nat := 400_000
  const EXISTING_PUBLICATION_RETRIES: nat := 32

  datatype ErrorCode = InvalidRoot | Io | Corrupt | LimitExceeded
  datatype Result<+T> = Ok(value: T) | Err(code: ErrorCode)
  datatype LinkOutcome = Linked | AlreadyExists | OtherError
  datatype Snapshot = Snapshot(disk: DiskState, acked: map<Id, Bytes>)

  // ---- abstract views of a directory ----

  ghost predicate Reachable(s: DiskState) {
    forall name :: name in Visible(s) ==> Visible(s)[name] in s.inodes
  }

  lemma SoundReachable(hash: Bytes -> Id, s: DiskState)
    requires Sound(hash, s)
    ensures Reachable(s)
  {
    forall name | name in Visible(s) ensures Visible(s)[name] in s.inodes {
      VisibleMay(s, name);
    }
  }

  ghost function Data(dir: map<Name, nat>, inodes: map<nat, Inode>): map<Name, Bytes> {
    map name | name in dir && name.Canonical? && dir[name] in inodes :: inodes[dir[name]].data
  }

  /** The store as a plain map from canonical names to bytes. */
  ghost function Contents(s: DiskState): map<Name, Bytes> {
    Data(Visible(s), s.inodes)
  }

  /** Every directory entry with its length: what a fresh scan counts. */
  ghost function Sizes(s: DiskState): map<Name, nat> {
    map name | name in Visible(s) && Visible(s)[name] in s.inodes :: |s.inodes[Visible(s)[name]].data|
  }

  ghost function Part(sizes: map<Name, nat>, names: seq<Name>): map<Name, nat> {
    map name | name in sizes && name in names :: sizes[name]
  }

  ghost function Lengths(contents: map<Name, Bytes>): map<Name, nat> {
    map name | name in contents :: |contents[name]|
  }

  lemma SameContents(s: DiskState, after: DiskState)
    requires Reachable(s) && Reachable(after)
    requires forall name: Name :: name.Canonical? ==>
               && (name in Visible(s) <==> name in Visible(after))
               && (name in Visible(s) ==>
                     s.inodes[Visible(s)[name]].data == after.inodes[Visible(after)[name]].data)
    ensures Contents(s) == Contents(after)
  {
  }

  lemma DataWith(dir: map<Name, nat>, inodes: map<nat, Inode>, name: Name, ino: nat)
    requires name !in dir && ino in inodes
    ensures Data(dir[name := ino], inodes) ==
            if name.Canonical? then Data(dir, inodes)[name := inodes[ino].data] else Data(dir, inodes)
  {
  }

  /** New inodes do not change what the existing names refer to. */
  lemma DataGrown(dir: map<Name, nat>, inodes: map<nat, Inode>, grown: map<nat, Inode>)
    requires forall name :: name in dir ==> dir[name] in inodes
    requires forall i :: i in inodes ==> i in grown && grown[i] == inodes[i]
    ensures Data(dir, grown) == Data(dir, inodes)
  {
  }

  lemma LinkedTemporaries(s: DiskState, after: DiskState, name: Name, ino: nat)
    requires Visible(after) == Visible(s)[name := ino]
    ensures Temporaries(after) == Temporaries(s) + (if name.Temporary? then {name} else {})
  {
    hide Visible;
  }

  lemma DataWithout(dir: map<Name, nat>, inodes: map<nat, Inode>, name: Name)
    ensures Data(dir - {name}, inodes) == Data(dir, inodes) - {name}
  {
  }

  lemma DataWithoutTemporary(dir: map<Name, nat>, inodes: map<nat, Inode>, token: nat)
    ensures Data(dir - {Temporary(token)}, inodes) == Data(dir, inodes)
  {
  }

  lemma UnlinkedTemporaries(s: DiskState, after: DiskState, name: Name)
    requires Visible(after) == Visible(s) - {name}
    ensures Temporaries(after) == Temporaries(s) - {name}
  {
    hide Visible;
  }

  /** Adding one object to the map adds one object and its length to the recount. */
  lemma RecountPublished(contents: map<Name, Bytes>, name: Name, bytes: Bytes)
    requires name !in contents
    ensures var before := Recount(Lengths(contents));
            Recount(Lengths(contents[name := bytes])) == Usage(before.objects + 1, before.bytes + |bytes|)
  {
    assert Lengths(contents[name := bytes]) == Lengths(contents)[name := |bytes|];
    SumAdd(Lengths(contents), name, |bytes|);
  }

  /** Removing one object takes exactly its length off the recount, which never underflows. */
  lemma RecountDropped(contents: map<Name, Bytes>, name: Name)
    requires name in contents
    ensures var before := Recount(Lengths(contents));
            && before.objects >= 1 && before.bytes >= |contents[name]|
            && Recount(Lengths(contents - {name})) == Usage(before.objects - 1, before.bytes - |contents[name]|)
  {
    assert Lengths(contents - {name}) == Lengths(contents) - {name};
    SumRemove(Lengths(contents), name);
  }

  /** The temporary names left in the directory. */
  ghost function Temporaries(s: DiskState): set<Name> {
    set name | name in Visible(s) && name.Temporary?
  }

  /** A sealed single-link object whose bytes hash to its name, under every canonical name. */
  ghost predicate Clean(hash: Bytes -> Id, s: DiskState) {
    && Temporaries(s) == {}
    && Reachable(s)
    && forall id :: Canonical(id) in Visible(s) ==>
         && Published(hash, s.inodes[Visible(s)[Canonical(id)]], id)
         && LinkCount(Visible(s), Visible(s)[Canonical(id)]) == 1
  }

  lemma CleanWithoutTemporaries(hash: Bytes -> Id, s: DiskState)
    requires Sound(hash, s) && Temporaries(s) == {}
    ensures Clean(hash, s)
  {
    SoundReachable(hash, s);
    forall id | Canonical(id) in Visible(s)
      ensures Published(hash, s.inodes[Visible(s)[Canonical(id)]], id)
      ensures LinkCount(Visible(s), Visible(s)[Canonical(id)]) == 1
    {
      VisibleMay(s, Canonical(id));
      forall name | name in Visible(s) && name.Temporary? ensures name in Temporaries(s) {
      }
      CanonicalLinks(hash, s, id);
    }
  }

  /** Once no temporary is left, the counters kept since then are those of a fresh scan. */
  lemma RecountOfDirectory(s: DiskState)
    requires Temporaries(s) == {}
    ensures Lengths(Contents(s)) == Sizes(s)
  {
    forall name | name in Visible(s) ensures name.Canonical? {
      assert name.Temporary? ==> name in Temporaries(s);
    }
  }

  /** Every acknowledged object is in the store, under its name, with its bytes. */
  lemma AcknowledgedPresent(s: DiskState, acked: map<Id, Bytes>)
    requires Holds(s, acked)
    ensures forall id :: id in acked ==> Canonical(id) in Contents(s) && Contents(s)[Canonical(id)] == acked[id]
  {
    forall id | id in acked
      ensures Canonical(id) in Contents(s) && Contents(s)[Canonical(id)] == acked[id]
    {
      HoldsVisible(s, acked, id);
    }
  }

  lemma NothingDropped(s: DiskState, acked: map<Id, Bytes>, referenced: set<Id>)
    requires Holds(s, acked)
    ensures acked == StillHeld(acked, Contents(s))
    ensures Between(Contents(s), Contents(s), referenced)
  {
    AcknowledgedPresent(s, acked);
  }

  /** Once the directory is synced, only what is in the store can come back. */
  lemma DroppedGone(hash: Bytes -> Id, s: DiskState)
    requires Sound(hash, s) && s.pending == []
    ensures forall name: Name :: name.Canonical? && name !in Contents(s) ==> Gone(s, name)
  {
    SoundReachable(hash, s);
  }

  lemma ContentsCanonical(s: DiskState)
    ensures forall name :: name in Contents(s) ==> name.Canonical?
  {
  }

  /** After a crash with nothing pending the store is what it was. */
  lemma SyncedSurvives(hash: Bytes -> Id, s: DiskState, after: DiskState)
    requires Sound(hash, s) && s.pending == [] && CrashOutcome(s, after)
    ensures Contents(after) == Contents(s)
  {
    var kept :| Subsequence(kept, s.pending) && after.synced == ApplyAll(s.synced, kept);
    assert Visible(after) == Visible(s);
    forall name | name in Visible(s) && name.Canonical?
      ensures Visible(s)[name] in s.inodes && s.inodes[Visible(s)[name]].durable
    {
      assert MayName(s, name, s.synced[name]);
    }
  }

  datatype Inventory = Inventory(usage: Usage, canonical: seq<(Id, nat)>)

  predicate Distinct<T(==)>(items: seq<T>) {
    forall i, j :: 0 <= i < j < |items| ==> items[i] != items[j]
  }

  ghost function Listed(listing: seq<(Id, nat)>): set<Name> {
    set k | 0 <= k < |listing| :: Canonical(listing[k].0)
  }

  ghost function CanonicalIn(names: seq<Name>): set<Name> {
    set name | name in names && name.Canonical?
  }

  ghost function TemporaryIn(names: seq<Name>): set<Name> {
    set name | name in names && name.Temporary?
  }

  /** The listing names exactly the objects of the store, with their lengths. */
  ghost predicate Describes(listing: seq<(Id, nat)>, contents: map<Name, Bytes>, names: set<Name>) {
    && Listed(listing) == names
    && (forall i, j :: 0 <= i < j < |listing| ==> listing[i].0 != listing[j].0)
    && (forall k :: 0 <= k < |listing| ==>
          Canonical(listing[k].0) in contents && |contents[Canonical(listing[k].0)]| == listing[k].1)
  }

  lemma ListedAppend(listing: seq<(Id, nat)>, entry: (Id, nat))
    ensures Listed(listing + [entry]) == Listed(listing) + {Canonical(entry.0)}
  {
    var grown := listing + [entry];
    forall name | name in Listed(listing) + {Canonical(entry.0)} ensures name in Listed(grown) {
      if name in Listed(listing) {
        var k :| 0 <= k < |listing| && name == Canonical(listing[k].0);
        assert grown[k] == listing[k];
      } else {
        assert grown[|listing|] == entry;
      }
    }
  }

  /** One more directory entry scanned. */
  lemma PartAppend(sizes: map<Name, nat>, names: seq<Name>, name: Name)
    requires name in sizes && name !in names
    ensures var before := Recount(Part(sizes, names));
            Recount(Part(sizes, names + [name])) == Usage(before.objects + 1, before.bytes + sizes[name])
  {
    assert Part(sizes, names + [name]) == Part(sizes, names)[name := sizes[name]];
    SumAdd(Part(sizes, names), name, sizes[name]);
  }

  /** One more entry listed. */
  lemma DescribesAppend(s: DiskState, names: seq<Name>, seen: nat, listing: seq<(Id, nat)>)
    requires Distinct(names) && seen < |names| && names[seen] in Visible(s) && Visible(s)[names[seen]] in s.inodes
    requires Describes(listing, Contents(s), CanonicalIn(names[..seen]))
    ensures var name := names[seen];
            var grown := if name.Canonical? then listing + [(name.id, |Contents(s)[name]|)] else listing;
            Describes(grown, Contents(s), CanonicalIn(names[..seen + 1]))
  {
    var name := names[seen];
    assert names[..seen + 1] == names[..seen] + [name];
    if name.Canonical? {
      assert CanonicalIn(names[..seen + 1]) == CanonicalIn(names[..seen]) + {name};
      ListedAppend(listing, (name.id, |Contents(s)[name]|));
      forall k | 0 <= k < |listing| ensures listing[k].0 != name.id {
        assert Canonical(listing[k].0) in Listed(listing);
      }
    } else {
      assert CanonicalIn(names[..seen + 1]) == CanonicalIn(names[..seen]);
    }
  }

  /** The listed objects that no root references. */
  ghost function Unreferenced(listing: seq<(Id, nat)>, referenced: set<Id>): set<Name> {
    set k | 0 <= k < |listing| && listing[k].0 !in referenced :: Canonical(listing[k].0)
  }

  lemma UnreferencedAppend(listing: seq<(Id, nat)>, entry: (Id, nat), referenced: set<Id>)
    ensures Unreferenced(listing + [entry], referenced)
         == Unreferenced(listing, referenced) + (if entry.0 in referenced then {} else {Canonical(entry.0)})
  {
    var grown := listing + [entry];
    forall name | name in Unreferenced(listing, referenced) ensures name in Unreferenced(grown, referenced) {
      var k :| 0 <= k < |listing| && listing[k].0 !in referenced && name == Canonical(listing[k].0);
      assert grown[k] == listing[k];
    }
    if entry.0 !in referenced {
      assert grown[|listing|] == entry;
    }
  }

  ghost function Retained<T>(contents: map<Name, T>, referenced: set<Id>): map<Name, T> {
    map name | name in contents && name.Canonical? && name.id in referenced :: contents[name]
  }

  /** Dropping every unreferenced object of a complete listing leaves exactly the referenced ones. */
  lemma RetainedExactly(listing: seq<(Id, nat)>, contents: map<Name, Bytes>, referenced: set<Id>)
    requires Describes(listing, contents, contents.Keys)
    ensures contents - Unreferenced(listing, referenced) == Retained(contents, referenced)
  {
    forall name | name in contents
      ensures name.Canonical? && (name in Unreferenced(listing, referenced) <==> name.id !in referenced)
    {
      assert name in Listed(listing);
      var k :| 0 <= k < |listing| && name == Canonical(listing[k].0);
    }
  }

  /** `after` is `before` without some unreferenced objects. */
  ghost predicate Between(before: map<Name, Bytes>, after: map<Name, Bytes>, referenced: set<Id>) {
    && (forall name :: name in after ==> name in before && after[name] == before[name])
    && (forall name :: name in before && name.Canonical? && name.id in referenced ==> name in after)
  }

  lemma RetainBetween(listing: seq<(Id, nat)>, contents: map<Name, Bytes>, referenced: set<Id>)
    ensures Between(contents, contents - Unreferenced(listing, referenced), referenced)
  {
  }

  /** The acknowledged objects still in the store. */
  ghost function StillHeld(acked: map<Id, Bytes>, contents: map<Name, Bytes>): map<Id, Bytes> {
    map id | id in acked && Canonical(id) in contents :: acked[id]
  }

  lemma RetainStart(listing: seq<(Id, nat)>, contents: map<Name, Bytes>, referenced: set<Id>)
    ensures contents - Unreferenced(listing[..0], referenced) == contents
  {
  }

  /** What removing (or keeping) the k-th listed object means for the map and the acknowledged set. */
  lemma RetainStep(listing: seq<(Id, nat)>, k: nat, contents: map<Name, Bytes>, acked: map<Id, Bytes>,
                   referenced: set<Id>)
    requires k < |listing| && Describes(listing, contents, contents.Keys)
    ensures var id := listing[k].0;
            var before := contents - Unreferenced(listing[..k], referenced);
            var after := contents - Unreferenced(listing[..k + 1], referenced);
            && (id in referenced ==> after == before)
            && (id !in referenced ==>
                  && Canonical(id) in before && |before[Canonical(id)]| == listing[k].1
                  && after == before - {Canonical(id)}
                  && StillHeld(acked, after) == StillHeld(acked, before) - {id})
  {
    var id := listing[k].0;
    assert listing[..k + 1] == listing[..k] + [listing[k]];
    UnreferencedAppend(listing[..k], listing[k], referenced);
    if id !in referenced {
      assert Canonical(id) !in Unreferenced(listing[..k], referenced);
      var before := contents - Unreferenced(listing[..k], referenced);
      assert contents - Unreferenced(listing[..k + 1], referenced) == before - {Canonical(id)};
      assert StillHeld(acked, before - {Canonical(id)}) == StillHeld(acked, before) - {id};
    }
  }

  lemma RecoverStart(s: DiskState, names: seq<Name>)
    requires forall name :: name in names <==> name in Visible(s)
    ensures Temporaries(s) == TemporaryIn(names[0..])
  {
    assert names[0..] == names;
  }

  lemma RecoverStep(names: seq<Name>, seen: nat)
    requires Distinct(names) && seen < |names|
    ensures names[seen].Temporary? ==> names[seen] in TemporaryIn(names[seen..])
    ensures TemporaryIn(names[seen + 1..]) == TemporaryIn(names[seen..]) - {names[seen]}
  {
    assert names[seen..] == [names[seen]] + names[seen + 1..];
    assert names[seen] !in names[seen + 1..];
  }

  lemma RecoverDone(names: seq<Name>)
    ensures TemporaryIn(names[|names|..]) == {}
  {
  }

  lemma EntriesShrink(s: DiskState, after: DiskState)
    requires Contents(after) == Contents(s) && Temporaries(after) == {} && Reachable(after)
    ensures |Visible(after)| <= |Visible(s)|
  {
    forall name | name in Visible(after) ensures name in Visible(s) {
      assert name.Temporary? ==> name in Temporaries(after);
      assert name in Contents(after);
    }
    SubsetCard(Visible(after).Keys, Visible(s).Keys);
  }

  lemma SubsetCard<T>(small: set<T>, large: set<T>)
    requires small <= large
    ensures |small| <= |large|
  {
    assert large == small + (large - small);
  }

  /** Dropping the temporary name of a published object leaves its canonical name alone on it. */
  lemma PublishedAlone(hash: Bytes -> Id, s: DiskState, token: nat)
    requires Sound(hash, s) && Temporary(token) in Visible(s)
    requires Visible(s)[Temporary(token)] in s.inodes
    ensures var ino := Visible(s)[Temporary(token)];
            var canonical := Canonical(hash(s.inodes[ino].data));
            canonical in Visible(s) && Visible(s)[canonical] == ino ==>
              LinkCount(Visible(s) - {Temporary(token)}, ino) == 1
  {
    var dir := Visible(s);
    var ino := dir[Temporary(token)];
    var canonical := Canonical(hash(s.inodes[ino].data));
    if canonical in dir && dir[canonical] == ino {
      VisibleMay(s, Temporary(token));
      forall name | name in dir && dir[name] == ino ensures name == Temporary(token) || name == canonical {
        VisibleMay(s, name);
      }
      var rest := dir - {Temporary(token)};
      assert (set name | name in rest && rest[name] == ino) == {canonical};
    }
  }

  lemma ScanStart(s: DiskState, names: seq<Name>)
    ensures Recount(Part(Sizes(s), names[..0])) == Usage(0, 0)
    ensures Describes([], Contents(s), CanonicalIn(names[..0]))
  {
    assert Part(Sizes(s), names[..0]) == map[];
  }

  lemma ScanStep(s: DiskState, names: seq<Name>, seen: nat, listing: seq<(Id, nat)>)
    requires Distinct(names) && seen < |names| && names[seen] in Visible(s) && Visible(s)[names[seen]] in s.inodes
    requires Describes(listing, Contents(s), CanonicalIn(names[..seen]))
    ensures var name := names[seen];
            var length := |s.inodes[Visible(s)[name]].data|;
            var before := Recount(Part(Sizes(s), names[..seen]));
            && Recount(Part(Sizes(s), names[..seen + 1])) == Usage(before.objects + 1, before.bytes + length)
            && Describes(if name.Canonical? then listing + [(name.id, length)] else listing,
                         Contents(s), CanonicalIn(names[..seen + 1]))
  {
    DescribesAppend(s, names, seen, listing);
    assert names[..seen + 1] == names[..seen] + [names[seen]];
    PartAppend(Sizes(s), names[..seen], names[seen]);
  }

  lemma ScanDone(s: DiskState, names: seq<Name>, listing: seq<(Id, nat)>)
    requires forall name :: name in names <==> name in Visible(s)
    requires Reachable(s) && Describes(listing, Contents(s), CanonicalIn(names[..|names|]))
    ensures Part(Sizes(s), names[..|names|]) == Sizes(s)
    ensures Describes(listing, Contents(s), Contents(s).Keys)
  {
    assert names[..|names|] == names;
    assert CanonicalIn(names) == Contents(s).Keys;
  }

  /** The checks a scan makes on one entry: its length, or the error. */
  function CheckEntry(s: DiskState, name: Name): (r: Result<nat>)
    requires name in Visible(s) && Visible(s)[name] in s.inodes
    ensures r.Ok? ==> r.value == |s.inodes[Visible(s)[name]].data|
  {
    var ino := Visible(s)[name];
    var length := |s.inodes[ino].data|;
    if LinkCount(Visible(s), ino) != 1 || (name.Canonical? && !s.inodes[ino].isSealed) then Err(Corrupt)
    else if name.Canonical? && length > MAX_ARTIFACT_BYTES then Err(LimitExceeded)
    else Ok(length)
  }

  /** Scanning a directory without temporaries cannot fail an entry check. */
  lemma CleanEntryPasses(hash: Bytes -> Id, s: DiskState, name: Name)
    requires Sound(hash, s) && Temporaries(s) == {} && name in Visible(s) && Visible(s)[name] in s.inodes
    ensures CheckEntry(s, name).Ok? && CheckEntry(s, name).value <= MAX_ARTIFACT_BYTES
  {
    CleanWithoutTemporaries(hash, s);
    assert name.Temporary? ==> name in Temporaries(s);
    assert name == Canonical(name.id);
  }

  /** ... nor overflow a counter. */
  lemma CleanBytesBounded(hash: Bytes -> Id, s: DiskState, names: seq<Name>)
    requires Sound(hash, s) && Temporaries(s) == {}
    ensures var part := Recount(Part(Sizes(s), names));
            part.bytes <= part.objects * MAX_ARTIFACT_BYTES
  {
    var part := Part(Sizes(s), names);
    forall name | name in part ensures part[name] <= MAX_ARTIFACT_BYTES {
      CleanEntryPasses(hash, s, name);
    }
    SumBound(part);
  }

  /** The checks a read makes: sealed, under one name only, of admissible length, with this hash. */
  ghost predicate Readable(hash: Bytes -> Id, s: DiskState, name: Name, id: Id) {
    var dir := Visible(s);
    && name in dir && dir[name] in s.inodes
    && var inode := s.inodes[dir[name]];
       && inode.isSealed && LinkCount(dir, dir[name]) == 1
       && |inode.data| <= MAX_ARTIFACT_BYTES && hash(inode.data) == id
  }

  /** `Put` may go ahead: the length is admissible, and the object is there already, readable and with
      these bytes, or it is new and both quotas have room for it. */
  ghost predicate Admissible(hash: Bytes -> Id, s: DiskState, usage: Usage, bytes: Bytes) {
    var name := Canonical(hash(bytes));
    && |bytes| <= MAX_ARTIFACT_BYTES
    && if name in Contents(s) then Readable(hash, s, name, hash(bytes)) && Contents(s)[name] == bytes
       else CanAdd(usage, |bytes|)
  }

  /** A private temporary stands alone on its file. */
  lemma PrivateAlone(s: DiskState, ino: nat, token: nat)
    requires Private(s, ino, token) && Temporary(token) in Visible(s) && Visible(s)[Temporary(token)] == ino
    ensures forall name :: name in Visible(s) && Visible(s)[name] == ino ==> name == Temporary(token)
    ensures LinkCount(Visible(s), ino) == 1
  {
    forall name | name in Visible(s) && Visible(s)[name] == ino ensures name == Temporary(token) {
      VisibleMay(s, name);
    }
    assert (set n | n in Visible(s) && Visible(s)[n] == ino) == {Temporary(token)};
  }

  /** The file has its temporary and its canonical name, and no other. */
  ghost predicate TwoNames(dir: map<Name, nat>, ino: nat, token: nat, id: Id) {
    && Canonical(id) in dir && dir[Canonical(id)] == ino
    && forall name :: name in dir && dir[name] == ino ==> name == Temporary(token) || name == Canonical(id)
  }

  lemma LinkedTwice(dir: map<Name, nat>, ino: nat, token: nat, id: Id)
    requires forall name :: name in dir && dir[name] == ino ==> name == Temporary(token)
    ensures TwoNames(dir[Canonical(id) := ino], ino, token, id)
  {
  }

  /** Once the temporary name is gone the published object can be read. */
  lemma SettledReadable(hash: Bytes -> Id, s: DiskState, before: map<Name, nat>, ino: nat, token: nat, id: Id)
    requires Sound(hash, s) && TwoNames(before, ino, token, id) && Visible(s) == before - {Temporary(token)}
    ensures Readable(hash, s, Canonical(id), id)
  {
    VisibleMay(s, Canonical(id));
    assert (set n | n in Visible(s) && Visible(s)[n] == ino) == {Canonical(id)};
  }

  class ArtifactStore {
    const hash: Bytes -> Id
    var disk: DiskState
    var usage: Usage
    /** Objects whose `Put` returned `Ok` and that no `RetainOnly` has dropped since. */
    ghost var acked: map<Id, Bytes>
    /** Every state of the disk since creation, one per system call: the points a crash can hit. */
    ghost var history: set<Snapshot>
    /** A temporary could not be removed since the last `Open`. */
    ghost var removalFailed: bool

    ghost predicate Safe()
      reads `disk, `acked, `history
      ensures Safe() ==> Reachable(disk) && CrashSafe(hash, disk, acked)
    {
      && CrashSafe(hash, disk, acked)
      && Reachable(disk)
      && Snapshot(disk, acked) in history
      && (forall point :: point in history ==> CrashSafe(hash, point.disk, point.acked))
    }

    ghost predicate Valid()
      reads this
    {
      && Safe()
      && usage == Recount(Lengths(Contents(disk)))
      && (!removalFailed ==> Temporaries(disk) == {})
    }

    /** A new, empty store. */
    constructor (hash: Bytes -> Id)
      ensures Valid() && this.hash == hash && Visible(disk) == map[] && acked == map[]
    {
      this.hash := hash;
      disk := DiskState(map[], map[], [], 0, 0);
      usage := Usage(0, 0);
      acked, removalFailed := map[], false;
      history := {Snapshot(DiskState(map[], map[], [], 0, 0), map[])};
    }

    /** Makes the state after a system call visible to crashes. */
    ghost method Record()
      requires CrashSafe(hash, disk, acked)
      requires forall point :: point in history ==> CrashSafe(hash, point.disk, point.acked)
      modifies this`history
      ensures Safe() && history == old(history) + {Snapshot(disk, acked)}
    {
      SoundReachable(hash, disk);
      history := history + {Snapshot(disk, acked)};
    }

    method SyncContainingDirectory() returns (ok: bool)
      requires Safe()
      modifies this`disk, this`history
      ensures Safe() && old(history) <= history
      ensures Visible(disk) == old(Visible(disk)) && disk.inodes == old(disk.inodes)
      ensures disk.nextToken == old(disk.nextToken) && disk.nextInode == old(disk.nextInode)
      ensures Contents(disk) == old(Contents(disk)) && Temporaries(disk) == old(Temporaries(disk))
      ensures ok ==> disk.pending == []
      ensures !ok ==> disk == old(disk)
    {
      ok := *;
      if ok {
        SyncKeeps(hash, disk, acked);
        disk := SyncDirectory(disk);
        Record();
        SameContents(old(disk), disk);
      }
    }

    method RemoveTemporary(token: nat) returns (ok: bool)
      requires Safe()
      modifies this`disk, this`history, this`removalFailed
      ensures Safe() && old(history) <= history
      ensures disk.inodes == old(disk.inodes)
      ensures Visible(disk) == if ok then old(Visible(disk)) - {Temporary(token)} else old(Visible(disk))
      ensures Contents(disk) == old(Contents(disk))
      ensures Temporaries(disk) == if ok then old(Temporaries(disk)) - {Temporary(token)} else old(Temporaries(disk))
      ensures removalFailed == (old(removalFailed) || !ok)
    {
      ok := *;
      if ok {
        UnlinkKeeps(hash, disk, acked, Temporary(token));
        DataWithoutTemporary(Visible(disk), disk.inodes, token);
        UnlinkedTemporaries(disk, Queue(disk, Unlink(Temporary(token))), Temporary(token));
        hide Data, Temporaries;
        disk := Queue(disk, Unlink(Temporary(token)));
        Record();
      } else {
        removalFailed := true;
      }
    }

    /** Opens, checks and re-hashes one named object. Any step may fail with `Corrupt`; if no system
        call fails, the object is returned exactly when it is readable. */
    method ReadNamedVerified(name: Name, id: Id) returns (r: Result<Bytes>, ioOk: bool)
      requires Safe()
      ensures r.Ok? ==> Readable(hash, disk, name, id) && r.value == disk.inodes[Visible(disk)[name]].data
      ensures r.Err? ==> r.code == Corrupt || r.code == LimitExceeded
      ensures ioOk ==> (r.Ok? <==> Readable(hash, disk, name, id))
    {
      ioOk := *;
      if !ioOk || name !in Visible(disk) {
        return Err(Corrupt), ioOk;
      }
      var inode := disk.inodes[Visible(disk)[name]];
      if !inode.isSealed || LinkCount(Visible(disk), Visible(disk)[name]) != 1 {
        return Err(Corrupt), ioOk;
      }
      if |inode.data| > MAX_ARTIFACT_BYTES {
        return Err(LimitExceeded), ioOk;
      }
      if hash(inode.data) != id {
        return Err(Corrupt), ioOk;
      }
      return Ok(inode.data), ioOk;
    }

    /** Tries again while the object looks corrupt; `ioOk` tells of the attempt that decided. */
    method ReadExistingPublication(id: Id) returns (r: Result<Bytes>, ioOk: bool)
      requires Safe()
      ensures r.Ok? ==> Canonical(id) in Contents(disk) && r.value == Contents(disk)[Canonical(id)]
      ensures ioOk ==> (r.Ok? <==> Readable(hash, disk, Canonical(id), id))
    {
      var attempt := 0;
      while attempt < EXISTING_PUBLICATION_RETRIES {
        r, ioOk := ReadNamedVerified(Canonical(id), id);
        if r.Ok? || r.code != Corrupt || attempt + 1 >= EXISTING_PUBLICATION_RETRIES {
          return;
        }
        attempt := attempt + 1;
      }
      return Err(Corrupt), false;
    }

    /** One change to a file that only its temporary name can reach. */
    method UpdateTemporary(token: nat, ino: nat, inode: Inode)
      requires Safe() && ino in disk.inodes && Private(disk, ino, token)
      modifies this`disk, this`history
      ensures Safe() && old(history) <= history
      ensures Visible(disk) == old(Visible(disk)) && Private(disk, ino, token)
      ensures ino in disk.inodes && disk.inodes[ino] == inode
      ensures Contents(disk) == old(Contents(disk)) && Temporaries(disk) == old(Temporaries(disk))
    {
      SetInodeKeeps(hash, disk, acked, ino, token, inode);
      disk := SetInode(disk, ino, inode);
      Record();
      forall name | name in Visible(disk) && name.Canonical? ensures Visible(disk)[name] != ino {
        VisibleMay(disk, name);
      }
      SameContents(old(disk), disk);
    }

    /** Writes, syncs, seals, syncs again and re-reads a private temporary. */
    method Prepare(token: nat, ino: nat, bytes: Bytes, id: Id) returns (r: Result<()>, ioOk: bool)
      requires Safe() && id == hash(bytes) && |bytes| <= MAX_ARTIFACT_BYTES
      requires ino in disk.inodes && Private(disk, ino, token)
      requires Temporary(token) in Visible(disk) && Visible(disk)[Temporary(token)] == ino
      modifies this`disk, this`history
      ensures Safe() && old(history) <= history
      ensures Visible(disk) == old(Visible(disk)) && Private(disk, ino, token)
      ensures Contents(disk) == old(Contents(disk)) && Temporaries(disk) == old(Temporaries(disk))
      ensures ino in disk.inodes
      ensures r.Ok? ==> Published(hash, disk.inodes[ino], id) && disk.inodes[ino].data == bytes
      ensures ioOk ==> r.Ok?
    {
      hide Safe, Contents, Temporaries, Visible, Private;
      ioOk := WriteAndSeal(token, ino, bytes);
      if !ioOk { return Err(Io), false; }
      PrivateAlone(disk, ino, token);
      var prepared: Result<Bytes>;
      prepared, ioOk := ReadNamedVerified(Temporary(token), id);
      if prepared.Err? { return Err(prepared.code), ioOk; }
      if prepared.value != bytes { return Err(Corrupt), ioOk; }
      return Ok(()), ioOk;
    }

    method WriteAndSeal(token: nat, ino: nat, bytes: Bytes) returns (ok: bool)
      requires Safe() && ino in disk.inodes && Private(disk, ino, token)
      modifies this`disk, this`history
      ensures Safe() && old(history) <= history
      ensures Visible(disk) == old(Visible(disk)) && Private(disk, ino, token)
      ensures Contents(disk) == old(Contents(disk)) && Temporaries(disk) == old(Temporaries(disk))
      ensures ino in disk.inodes && (ok ==> disk.inodes[ino] == Inode(bytes, true, true))
    {
      hide Safe, Contents, Temporaries, Visible, Private;
      var partial: Bytes := *;
      ok := *;
      UpdateTemporary(token, ino, Inode(if ok then bytes else partial, false, false));
      if !ok { return; }
      ok := *;
      if !ok { return; }
      UpdateTemporary(token, ino, Inode(bytes, false, true));
      ok := *;
      if !ok { return; }
      UpdateTemporary(token, ino, Inode(bytes, true, false));
      ok := *;
      if !ok { return; }
      UpdateTemporary(token, ino, Inode(bytes, true, true));
    }

    /** Abandons a temporary after a failure: the store is as before unless the removal failed. */
    method Abandon(token: nat, cause: ErrorCode) returns (code: ErrorCode)
      requires Safe() && usage == Recount(Lengths(Contents(disk)))
      requires !removalFailed ==> Temporaries(disk) == {Temporary(token)}
      modifies this`disk, this`history, this`removalFailed
      ensures Valid() && old(history) <= history
      ensures old(removalFailed) ==> removalFailed
      ensures Contents(disk) == old(Contents(disk))
    {
      var removed := RemoveTemporary(token);
      if !removed { return Io; }
      var synced := SyncContainingDirectory();
      return if synced then cause else Io;
    }

    /** Stores `bytes` under their hash.

        `Ok` acknowledges the object. In every case the store, read as a map, is unchanged or has
        gained exactly this object, the counters agree with it, and they pass no quota they had
        not passed before. If no system call fails, `Ok` is returned exactly when the object is
        admissible. */
    method Put(bytes: Bytes) returns (r: Result<Bytes>, ioOk: bool)
      requires Valid()
      modifies this`disk, this`usage, this`acked, this`history, this`removalFailed
      ensures Valid() && old(history) <= history
      ensures old(removalFailed) ==> removalFailed
      ensures r.Ok? ==> r.value == bytes && acked == old(acked)[hash(bytes) := bytes]
      ensures r.Ok? ==> Contents(disk) == old(Contents(disk))[Canonical(hash(bytes)) := bytes]
      ensures r.Err? ==> acked == old(acked)
      ensures || Contents(disk) == old(Contents(disk))
              || (Canonical(hash(bytes)) !in old(Contents(disk))
                  && Contents(disk) == old(Contents(disk))[Canonical(hash(bytes)) := bytes]
                  && usage.objects <= MAX_ARTIFACT_OBJECTS && usage.bytes <= MAX_ARTIFACT_STORE_BYTES)
      ensures ioOk ==> (r.Ok? <==> Admissible(hash, old(disk), old(usage), bytes))
    {
      if |bytes| > MAX_ARTIFACT_BYTES {
        return Err(LimitExceeded), true;
      }
      var id := hash(bytes);
      var name := Canonical(id);
      ioOk := *;
      if !ioOk {
        return Err(Io), false;
      }
      assert name in Visible(disk) <==> name in Contents(disk);
      if name in Visible(disk) {
        r, ioOk := PutExisting(id, bytes);
        return;
      }
      if !CanAdd(usage, |bytes|) {
        return Err(LimitExceeded), true;
      }
      r, ioOk := Publish(id, bytes);
    }

    /** The name is taken: the object must be the same, and its directory entry is synced. */
    method PutExisting(id: Id, bytes: Bytes) returns (r: Result<Bytes>, ioOk: bool)
      requires Valid() && id == hash(bytes) && Canonical(id) in Contents(disk)
      modifies this`disk, this`acked, this`history
      ensures Valid() && old(history) <= history
      ensures Contents(disk) == old(Contents(disk))
      ensures r.Ok? ==> r.value == bytes && Contents(disk)[Canonical(id)] == bytes && acked == old(acked)[id := bytes]
      ensures r.Err? ==> acked == old(acked)
      ensures ioOk ==>
                (r.Ok? <==> Readable(hash, old(disk), Canonical(id), id) && old(Contents(disk))[Canonical(id)] == bytes)
    {
      hide Safe, Contents, Temporaries, Lengths, Recount, Readable;
      r, ioOk := ReadExistingPublication(id);
      if r.Err? { return; }
      if r.value != bytes {
        return Err(Corrupt), ioOk;
      }
      var synced := SyncContainingDirectory();
      if !synced {
        return Err(Io), false;
      }
      Acknowledge(id, bytes);
    }

    /** Marks an object durable: its directory entry was synced and names these bytes. */
    ghost method Acknowledge(id: Id, bytes: Bytes)
      requires Valid() && disk.pending == []
      requires Canonical(id) in Contents(disk) && Contents(disk)[Canonical(id)] == bytes
      modifies this`acked, this`history
      ensures Valid() && old(history) <= history
      ensures acked == old(acked)[id := bytes]
    {
      acked := acked[id := bytes];
      Record();
    }

    /** The publication protocol for a name that is not in the directory. */
    method Publish(id: Id, bytes: Bytes) returns (r: Result<Bytes>, ioOk: bool)
      requires Valid() && id == hash(bytes) && |bytes| <= MAX_ARTIFACT_BYTES
      requires Canonical(id) !in Contents(disk) && CanAdd(usage, |bytes|)
      modifies this`disk, this`usage, this`acked, this`history, this`removalFailed
      ensures Valid() && old(history) <= history
      ensures old(removalFailed) ==> removalFailed
      ensures r.Ok? ==> r.value == bytes && acked == old(acked)[id := bytes]
      ensures r.Ok? ==> Contents(disk) == old(Contents(disk))[Canonical(id) := bytes]
      ensures r.Err? ==> acked == old(acked)
      ensures || Contents(disk) == old(Contents(disk))
              || (Contents(disk) == old(Contents(disk))[Canonical(id) := bytes]
                  && usage.objects <= MAX_ARTIFACT_OBJECTS && usage.bytes <= MAX_ARTIFACT_STORE_BYTES)
      ensures ioOk ==> r.Ok?
    {
      ghost var contents := Contents(disk);
      hide Safe, Contents, Temporaries, Lengths, Recount, Visible, Private, TwoNames;
      var token := disk.nextToken;
      var staged: Result<nat>;
      staged, ioOk := Stage(id, bytes);
      if staged.Err? {
        return Err(staged.code), false;
      }
      var outcome: LinkOutcome := *;
      if outcome != Linked {
        var code := Abandon(token, if outcome == AlreadyExists then Corrupt else Io);
        return Err(code), false;
      }
      PrivateAlone(disk, staged.value, token);
      LinkedTwice(Visible(disk), staged.value, token, id);
      LinkCanonical(id, staged.value);
      CountPublished(contents, Canonical(id), bytes);
      var settled: bool;
      r, settled := Settle(token, id, bytes, staged.value);
      ioOk := ioOk && settled;
    }

    /** Creates and prepares the temporary; on failure it is abandoned again. */
    method Stage(id: Id, bytes: Bytes) returns (r: Result<nat>, ioOk: bool)
      requires Valid() && id == hash(bytes) && |bytes| <= MAX_ARTIFACT_BYTES
      modifies this`disk, this`history, this`removalFailed
      ensures Safe() && old(history) <= history
      ensures usage == Recount(Lengths(Contents(disk)))
      ensures Contents(disk) == old(Contents(disk))
      ensures old(removalFailed) ==> removalFailed
      ensures r.Err? ==> Valid()
      ensures r.Ok? ==>
                && (!removalFailed ==> Temporaries(disk) == {Temporary(old(disk.nextToken))})
                && r.value in disk.inodes
                && Published(hash, disk.inodes[r.value], id) && disk.inodes[r.value].data == bytes
                && var token := old(disk.nextToken);
                   && Private(disk, r.value, token)
                   && Temporary(token) in Visible(disk) && Visible(disk)[Temporary(token)] == r.value
      ensures ioOk ==> r.Ok?
    {
      hide Safe, Contents, Temporaries, Lengths, Recount, Private, Visible;
      ioOk := *;
      if !ioOk {
        return Err(Io), false;
      }
      var token, ino := disk.nextToken, disk.nextInode;
      CreateFile();
      var prepared: Result<()>;
      prepared, ioOk := Prepare(token, ino, bytes, id);
      if prepared.Err? {
        var code := Abandon(token, prepared.code);
        return Err(code), false;
      }
      return Ok(ino), ioOk;
    }

    /** Makes a linked object durable: sync, drop the temporary name, sync again, re-read. */
    method Settle(token: nat, id: Id, bytes: Bytes, ghost ino: nat) returns (r: Result<Bytes>, ioOk: bool)
      requires Safe() && usage == Recount(Lengths(Contents(disk)))
      requires !removalFailed ==> Temporaries(disk) == {Temporary(token)}
      requires Canonical(id) in Contents(disk) && Contents(disk)[Canonical(id)] == bytes
      requires TwoNames(Visible(disk), ino, token, id)
      modifies this`disk, this`acked, this`history, this`removalFailed
      ensures Valid() && old(history) <= history
      ensures old(removalFailed) ==> removalFailed
      ensures Contents(disk) == old(Contents(disk))
      ensures r.Ok? ==> r.value == bytes && acked == old(acked)[id := bytes]
      ensures r.Err? ==> acked == old(acked)
      ensures ioOk ==> r.Ok?
    {
      hide Safe, Contents, Temporaries, Lengths, Recount, Visible, TwoNames, Readable;
      var synced := SyncContainingDirectory();
      if !synced {
        var code := Abandon(token, Io);
        return Err(Io), false;
      }
      var removed := RemoveTemporary(token);
      if !removed {
        return Err(Io), false;
      }
      synced := SyncContainingDirectory();
      if !synced {
        return Err(Io), false;
      }
      SettledReadable(hash, disk, old(Visible(disk)), ino, token, id);
      r, ioOk := ReadBack(id);
      if r.Err? { return; }
      if r.value != bytes {
        return Err(Corrupt), ioOk;
      }
      Acknowledge(id, bytes);
    }

    method ReadBack(id: Id) returns (r: Result<Bytes>, ioOk: bool)
      requires Safe() && Canonical(id) in Contents(disk)
      ensures r.Ok? ==> r.value == Contents(disk)[Canonical(id)]
      ensures ioOk ==> (r.Ok? <==> Readable(hash, disk, Canonical(id), id))
    {
      r, ioOk := ReadNamedVerified(Canonical(id), id);
    }

    /** Creates an empty private temporary under a name never used before. */
    method CreateFile()
      requires Safe()
      modifies this`disk, this`history
      ensures Safe() && old(history) <= history
      ensures var token, ino := old(disk.nextToken), old(disk.nextInode);
              && Temporaries(disk) == old(Temporaries(disk)) + {Temporary(token)}
              && ino in disk.inodes && Private(disk, ino, token)
              && Visible(disk) == old(Visible(disk))[Temporary(token) := ino]
      ensures Contents(disk) == old(Contents(disk))
    {
      CreateKeeps(hash, disk, acked);
      forall name | name in Visible(disk)
        ensures name != Temporary(disk.nextToken) && Visible(disk)[name] in disk.inodes
      {
        VisibleMay(disk, name);
      }
      disk := CreateTemporary(disk);
      Record();
      DataGrown(Visible(old(disk)), old(disk.inodes), disk.inodes);
      DataWith(Visible(old(disk)), disk.inodes, Temporary(old(disk.nextToken)), old(disk.nextInode));
      LinkedTemporaries(old(disk), disk, Temporary(old(disk.nextToken)), old(disk.nextInode));
    }

    /** Hard-links a prepared file under its canonical name. */
    method LinkCanonical(id: Id, ino: nat)
      requires Safe() && Canonical(id) !in Contents(disk)
      requires ino in disk.inodes && Published(hash, disk.inodes[ino], id)
      modifies this`disk, this`history
      ensures Safe() && old(history) <= history
      ensures Contents(disk) == old(Contents(disk))[Canonical(id) := old(disk.inodes[ino].data)]
      ensures Temporaries(disk) == old(Temporaries(disk))
      ensures Visible(disk) == old(Visible(disk))[Canonical(id) := ino]
    {
      assert Canonical(id) !in Visible(disk);
      LinkKeeps(hash, disk, acked, id, ino);
      DataWith(Visible(disk), disk.inodes, Canonical(id), ino);
      LinkedTemporaries(disk, Queue(disk, Link(Canonical(id), ino)), Canonical(id), ino);
      hide Contents, Temporaries, Visible;
      disk := Queue(disk, Link(Canonical(id), ino));
      Record();
    }

    /** The counter update after a hard link repeats the admission check, which cannot fail now. */
    method CountPublished(ghost contents: map<Name, Bytes>, name: Name, bytes: Bytes)
      requires usage == Recount(Lengths(contents)) && name !in contents && CanAdd(usage, |bytes|)
      modifies this`usage
      ensures usage == Recount(Lengths(contents[name := bytes]))
      ensures usage.objects <= MAX_ARTIFACT_OBJECTS && usage.bytes <= MAX_ARTIFACT_STORE_BYTES
    {
      RecountPublished(contents, name, bytes);
      var added := AddUsage(|bytes|);
      assert added;
    }

    method AddUsage(length: nat) returns (ok: bool)
      modifies this`usage
      ensures ok == CanAdd(old(usage), length)
      ensures usage == if ok then Usage(old(usage).objects + 1, old(usage).bytes + length) else old(usage)
    {
      ok := CanAdd(usage, length);
      if ok {
        usage := Usage(usage.objects + 1, usage.bytes + length);
      }
    }

    // ---- directory scans ----

    method Entries() returns (names: seq<Name>)
      ensures Distinct(names) && (forall name :: name in names <==> name in Visible(disk))
      ensures |names| == |Visible(disk)|
    {
      names := [];
      var rest := Visible(disk).Keys;
      while rest != {}
        invariant rest <= Visible(disk).Keys
        invariant forall name :: name in names <==> name in Visible(disk).Keys - rest
        invariant Distinct(names) && |names| + |rest| == |Visible(disk)|
      {
        var name :| name in rest;
        names, rest := names + [name], rest - {name};
      }
    }

    /** Scans the directory: checks every entry and counts it. `ioOk` tells whether every system
        call worked. */
    method InspectDirectory() returns (r: Result<Inventory>, ioOk: bool)
      requires Safe()
      ensures r.Ok? ==> r.value.usage == Recount(Sizes(disk))
      ensures r.Ok? ==> Describes(r.value.canonical, Contents(disk), Contents(disk).Keys)
      ensures ioOk && Temporaries(disk) == {} ==> (r.Ok? <==> |Visible(disk)| <= MAX_ARTIFACT_DIRECTORY_ENTRIES)
    {
      hide Describes, CanonicalIn, Recount, Part, Sizes, Contents, Temporaries, Visible, Safe, Sound, Holds, Distinct;
      ioOk := *;
      if !ioOk { return Err(Io), false; }
      var names := Entries();
      var inventory := Inventory(Usage(0, 0), []);
      var seen := 0;
      ScanStart(disk, names);
      while seen < |names|
        invariant 0 <= seen <= |names| && ioOk && seen <= MAX_ARTIFACT_DIRECTORY_ENTRIES
        invariant inventory.usage.objects == seen && inventory.usage == Recount(Part(Sizes(disk), names[..seen]))
        invariant Describes(inventory.canonical, Contents(disk), CanonicalIn(names[..seen]))
      {
        ioOk := *;
        if !ioOk { return Err(Io), false; }
        if seen + 1 > MAX_ARTIFACT_DIRECTORY_ENTRIES { return Err(LimitExceeded), true; }
        var next := ScanEntry(names, seen, inventory);
        if next.Err? { return Err(next.code), true; }
        inventory := next.value;
        seen := seen + 1;
      }
      ScanDone(disk, names, inventory.canonical);
      return Ok(inventory), true;
    }

    /** Checks one more entry and counts it. On a directory without temporaries this cannot fail. */
    method ScanEntry(names: seq<Name>, seen: nat, inventory: Inventory) returns (r: Result<Inventory>)
      requires Safe() && Distinct(names) && (forall name :: name in names <==> name in Visible(disk))
      requires seen < |names| && seen < MAX_ARTIFACT_DIRECTORY_ENTRIES && inventory.usage.objects == seen
      requires inventory.usage == Recount(Part(Sizes(disk), names[..seen]))
      requires Describes(inventory.canonical, Contents(disk), CanonicalIn(names[..seen]))
      ensures r.Ok? ==>
                && r.value.usage.objects == seen + 1
                && r.value.usage == Recount(Part(Sizes(disk), names[..seen + 1]))
                && Describes(r.value.canonical, Contents(disk), CanonicalIn(names[..seen + 1]))
      ensures Temporaries(disk) == {} ==> r.Ok?
    {
      hide Describes, CanonicalIn, Recount, Part, Sizes, Contents, Temporaries, Visible, CheckEntry, Safe, Sound;
      hide Holds, Distinct;
      var name, usage, listing := names[seen], inventory.usage, inventory.canonical;
      if Temporaries(disk) == {} {
        CleanEntryPasses(hash, disk, name);
        CleanBytesBounded(hash, disk, names[..seen]);
      }
      var entry := CheckEntry(disk, name);
      if entry.Err? { return Err(entry.code); }
      ScanStep(disk, names, seen, listing);
      if name.Canonical? {
        listing := listing + [(name.id, entry.value)];
      }
      if usage.objects + 1 > U64_MAX || usage.bytes + entry.value > U64_MAX {
        return Err(LimitExceeded);
      }
      return Ok(Inventory(Usage(usage.objects + 1, usage.bytes + entry.value), listing));
    }

    // ---- garbage collection ----

    method RemoveVerifiedCanonical(id: Id, expected: nat) returns (r: Result<()>, ioOk: bool)
      requires Safe() && Canonical(id) in Contents(disk)
      modifies this`disk, this`acked, this`history
      ensures Safe() && old(history) <= history
      ensures Temporaries(disk) == old(Temporaries(disk))
      ensures Contents(disk) == if r.Ok? then old(Contents(disk)) - {Canonical(id)} else old(Contents(disk))
      ensures acked == if r.Ok? then old(acked) - {id} else old(acked)
      ensures ioOk && old(Temporaries(disk)) == {} && expected == |old(Contents(disk))[Canonical(id)]| ==> r.Ok?
    {
      hide Safe, Contents, Temporaries;
      var verified: bool;
      verified, ioOk := VerifyCanonical(id, expected);
      if !verified {
        return Err(Corrupt), ioOk;
      }
      ioOk := *;
      if !ioOk {
        return Err(Io), false;
      }
      UnlinkCanonical(id);
      return Ok(()), true;
    }

    /** The object still passes the checks of the scan, with the listed length. */
    method VerifyCanonical(id: Id, expected: nat) returns (verified: bool, ioOk: bool)
      requires Safe() && Canonical(id) in Contents(disk)
      ensures verified ==> expected == |Contents(disk)[Canonical(id)]|
      ensures ioOk && Temporaries(disk) == {} && expected == |Contents(disk)[Canonical(id)]| ==> verified
    {
      ioOk := *;
      if Temporaries(disk) == {} { CleanEntryPasses(hash, disk, Canonical(id)); }
      var entry := CheckEntry(disk, Canonical(id));
      verified := ioOk && entry.Ok? && entry.value == expected;
    }

    method UnlinkCanonical(id: Id)
      requires Safe() && Canonical(id) in Contents(disk)
      modifies this`disk, this`acked, this`history
      ensures Safe() && old(history) <= history
      ensures Temporaries(disk) == old(Temporaries(disk))
      ensures Contents(disk) == old(Contents(disk)) - {Canonical(id)} && acked == old(acked) - {id}
    {
      UnlinkKeeps(hash, disk, acked - {id}, Canonical(id));
      DataWithout(Visible(disk), disk.inodes, Canonical(id));
      assert Contents(Queue(disk, Unlink(Canonical(id)))) == Contents(disk) - {Canonical(id)};
      UnlinkedTemporaries(disk, Queue(disk, Unlink(Canonical(id))), Canonical(id));
      assert Canonical(id) !in Temporaries(disk);
      hide Contents, Temporaries, Visible;
      acked := acked - {id};
      disk := Queue(disk, Unlink(Canonical(id)));
      Record();
    }

    method SubtractUsage(length: nat) returns (ok: bool)
      modifies this`usage
      ensures ok == (old(usage).objects >= 1 && old(usage).bytes >= length)
      ensures ok ==> usage == Usage(old(usage).objects - 1, old(usage).bytes - length)
    {
      if usage.objects < 1 {
        return false;
      }
      usage := usage.(objects := usage.objects - 1);
      if usage.bytes < length {
        return false;
      }
      usage := usage.(bytes := usage.bytes - length);
      return true;
    }

    /** Removes one verified object and takes it off the counters, which cannot underflow. */
    method Drop(id: Id, length: nat) returns (r: Result<()>, ioOk: bool)
      requires Valid() && Canonical(id) in Contents(disk) && |Contents(disk)[Canonical(id)]| == length
      modifies this`disk, this`usage, this`acked, this`history
      ensures Valid() && old(history) <= history
      ensures Contents(disk) == if r.Ok? then old(Contents(disk)) - {Canonical(id)} else old(Contents(disk))
      ensures acked == if r.Ok? then old(acked) - {id} else old(acked)
      ensures Temporaries(disk) == old(Temporaries(disk))
      ensures ioOk && Temporaries(disk) == {} ==> r.Ok?
    {
      hide Contents, Temporaries, Recount, Lengths, Safe;
      RecountDropped(Contents(disk), Canonical(id));
      r, ioOk := RemoveVerifiedCanonical(id, length);
      if r.Ok? {
        var subtracted := SubtractUsage(length);
        assert subtracted;
      }
    }

    /** Drops the unreferenced objects of a complete listing, up to the first failure. */
    method Sweep(listing: seq<(Id, nat)>, referenced: set<Id>) returns (r: Result<bool>, ioOk: bool)
      requires Valid() && Describes(listing, Contents(disk), Contents(disk).Keys)
      requires acked == StillHeld(acked, Contents(disk))
      modifies this`disk, this`usage, this`acked, this`history
      ensures Valid() && old(history) <= history
      ensures Between(old(Contents(disk)), Contents(disk), referenced)
      ensures r.Ok? ==> Contents(disk) == Retained(old(Contents(disk)), referenced)
      ensures acked == StillHeld(old(acked), Contents(disk))
      ensures ioOk && old(Temporaries(disk)) == {} ==> r.Ok?
      ensures r == Ok(false) ==> disk == old(disk)
    {
      hide Contents, Retained, Unreferenced, StillHeld, Valid, Between, Describes, Temporaries;
      r, ioOk := Ok(false), true;
      var k := 0;
      RetainStart(listing, Contents(disk), referenced);
      while k < |listing|
        invariant 0 <= k <= |listing| && r.Ok?
        invariant Valid() && old(history) <= history
        invariant Contents(disk) == old(Contents(disk)) - Unreferenced(listing[..k], referenced)
        invariant acked == StillHeld(old(acked), Contents(disk))
        invariant Temporaries(disk) == old(Temporaries(disk))
        invariant r == Ok(false) ==> disk == old(disk)
      {
        var (id, length) := listing[k];
        RetainStep(listing, k, old(Contents(disk)), old(acked), referenced);
        if id !in referenced {
          var removed, dropped := Drop(id, length);
          if removed.Err? {
            RetainBetween(listing[..k], old(Contents(disk)), referenced);
            return Err(removed.code), dropped;
          }
          r := Ok(true);
        }
        k := k + 1;
      }
      assert listing[..k] == listing;
      RetainBetween(listing, old(Contents(disk)), referenced);
      RetainedExactly(listing, old(Contents(disk)), referenced);
    }

    /** Drops the objects no root references. Success leaves exactly the referenced ones; an error
        leaves a store between the two. Success is durable: no crash brings back what this call dropped; a
        call that has nothing to drop does not touch the disk. Without temporaries only a failed system call
        or a directory over its entry cap stops it. */
    method RetainOnly(referenced: set<Id>) returns (r: Result<()>, ioOk: bool)
      requires Valid()
      modifies this`disk, this`usage, this`acked, this`history
      ensures Valid() && old(history) <= history
      ensures Between(old(Contents(disk)), Contents(disk), referenced)
      ensures r.Ok? ==> Contents(disk) == Retained(old(Contents(disk)), referenced)
      ensures acked == StillHeld(old(acked), Contents(disk))
      ensures ioOk && !removalFailed ==> (r.Ok? <==> |old(Visible(disk))| <= MAX_ARTIFACT_DIRECTORY_ENTRIES)
      ensures r.Ok? ==> disk.pending == [] || disk == old(disk)
      ensures r.Ok? ==> forall name :: name in old(Contents(disk)) && name !in Contents(disk) ==> Gone(disk, name)
    {
      hide Contents, Retained, StillHeld, Between, Describes, Safe, Recount, Lengths, Temporaries, Sound, Holds,
           Visible;
      NothingDropped(disk, acked, referenced);
      ContentsCanonical(disk);
      var inventory, scanned := InspectDirectory();
      if inventory.Err? {
        return Err(inventory.code), scanned;
      }
      var swept: Result<bool>;
      swept, ioOk := Sweep(inventory.value.canonical, referenced);
      if swept.Err? {
        return Err(swept.code), ioOk && scanned;
      }
      if swept.value {
        var synced := SyncContainingDirectory();
        if !synced {
          return Err(Io), false;
        }
        DroppedGone(hash, disk);
      }
      return Ok(()), ioOk && scanned;
    }

    // ---- recovery ----

    /** Removes a temporary name and syncs the directory. */
    method RemoveAndSync(token: nat) returns (ok: bool)
      requires Safe()
      modifies this`disk, this`history, this`removalFailed
      ensures Safe() && old(history) <= history && disk.inodes == old(disk.inodes)
      ensures Contents(disk) == old(Contents(disk)) && Temporaries(disk) <= old(Temporaries(disk))
      ensures ok ==> Visible(disk) == old(Visible(disk)) - {Temporary(token)}
      ensures ok ==> Temporaries(disk) == old(Temporaries(disk)) - {Temporary(token)}
    {
      hide Safe, Contents, Temporaries, Visible;
      ok := RemoveTemporary(token);
      if ok {
        ok := SyncContainingDirectory();
      }
    }

    /** Finishes or undoes one interrupted publication. Only a failed system call can stop it. */
    method RecoverOne(token: nat) returns (r: Result<()>, ioOk: bool)
      requires Safe() && Temporary(token) in Temporaries(disk)
      modifies this`disk, this`history, this`removalFailed
      ensures Safe() && old(history) <= history
      ensures Contents(disk) == old(Contents(disk)) && Temporaries(disk) <= old(Temporaries(disk))
      ensures r.Ok? ==> Temporaries(disk) == old(Temporaries(disk)) - {Temporary(token)}
      ensures ioOk ==> r.Ok?
    {
      ioOk := *;
      if !ioOk { return Err(Corrupt), false; }
      TemporaryLinks(hash, disk, token);
      var dir := Visible(disk);
      var ino := dir[Temporary(token)];
      var inode := disk.inodes[ino];
      var links := LinkCount(dir, ino);
      if links == 1 {
        ioOk := RemoveAndSync(token);
        return if ioOk then Ok(()) else Err(Io), ioOk;
      }
      if links != 2 || !inode.isSealed {
        return Err(Corrupt), true;
      }
      if |inode.data| > MAX_ARTIFACT_BYTES {
        return Err(LimitExceeded), true;
      }
      var canonical := Canonical(hash(inode.data));
      if canonical !in dir || dir[canonical] != ino {
        return Err(Corrupt), true;
      }
      PublishedAlone(hash, disk, token);
      hide Safe, Contents, Temporaries, Visible, LinkCount;
      ioOk := RemoveAndSync(token);
      if !ioOk { return Err(Io), false; }
      ioOk := *;
      if !ioOk { return Err(Corrupt), false; }
      if canonical !in Visible(disk) || Visible(disk)[canonical] != ino
         || !disk.inodes[ino].isSealed || LinkCount(Visible(disk), ino) != 1 {
        return Err(Corrupt), true;
      }
      return Ok(()), true;
    }

    /** Startup recovery: no temporary name is left, and the store read as a map is untouched. */
    method Recover() returns (r: Result<()>, ioOk: bool)
      requires Safe()
      modifies this`disk, this`history, this`removalFailed
      ensures Safe() && old(history) <= history && Contents(disk) == old(Contents(disk))
      ensures r.Ok? ==> Temporaries(disk) == {} && |old(Visible(disk))| <= MAX_ARTIFACT_DIRECTORY_ENTRIES
      ensures ioOk ==> (r.Ok? <==> |old(Visible(disk))| <= MAX_ARTIFACT_DIRECTORY_ENTRIES)
    {
      ioOk := *;
      if !ioOk { return Err(Io), false; }
      var names := Entries();
      RecoverStart(disk, names);
      hide Safe, Contents, Temporaries, TemporaryIn, Visible;
      var seen := 0;
      while seen < |names|
        invariant 0 <= seen <= |names| && ioOk && seen <= MAX_ARTIFACT_DIRECTORY_ENTRIES
        invariant Safe() && old(history) <= history && Contents(disk) == old(Contents(disk))
        invariant Temporaries(disk) == TemporaryIn(names[seen..])
      {
        if seen + 1 > MAX_ARTIFACT_DIRECTORY_ENTRIES { return Err(LimitExceeded), true; }
        RecoverStep(names, seen);
        if names[seen].Temporary? {
          r, ioOk := RecoverOne(names[seen].token);
          if r.Err? { return; }
        }
        ioOk := *;
        if !ioOk { return Err(Io), false; }
        seen := seen + 1;
      }
      RecoverDone(names);
      return Ok(()), true;
    }

    /** Recovers, scans and resets the counters. Without a failed system call it succeeds exactly
        when the directory is within its entry cap, and then the directory is clean. */
    method Open() returns (r: Result<()>, ioOk: bool)
      requires Safe()
      modifies this`disk, this`usage, this`history, this`removalFailed
      ensures Safe() && old(history) <= history && Contents(disk) == old(Contents(disk))
      ensures r.Ok? ==> Valid() && !removalFailed && Clean(hash, disk) && usage == Recount(Sizes(disk))
      ensures ioOk ==> (r.Ok? <==> |old(Visible(disk))| <= MAX_ARTIFACT_DIRECTORY_ENTRIES)
    {
      hide Safe, Contents, Temporaries, Recount, Lengths, Sizes, Clean, Visible, Sound, Holds, Reachable, Describes;
      r, ioOk := Recover();
      if r.Err? { return; }
      CleanWithoutTemporaries(hash, disk);
      RecountOfDirectory(disk);
      EntriesShrink(old(disk), disk);
      var inventory, scanned := InspectDirectory();
      ioOk := ioOk && scanned;
      if inventory.Err? {
        return Err(inventory.code), ioOk;
      }
      usage, removalFailed := inventory.value.usage, false;
    }

    // ---- crashes ----

    /** The machine stops at some past state `point` of this store and comes back with `after`. */
    method CrashAt(ghost point: Snapshot, after: DiskState)
      requires Safe() && point in history && CrashOutcome(point.disk, after)
      modifies this`disk, this`acked, this`history
      ensures Safe() && old(history) <= history
      ensures disk == after && acked == point.acked
    {
      CrashKeeps(hash, point.disk, point.acked, after);
      disk, acked := after, point.acked;
      Record();
    }

    /** The crash theorem: from any state a crash can hit - inside `Put`, `RetainOnly`, `Recover`
        or between them - and whatever the crash keeps, opening again succeeds unless a system call
        fails or the directory is over its entry cap; every canonical name is then a sealed
        single-link object with that hash, no temporary is left, and every object acknowledged and
        not dropped by then is there with its bytes. */
    method CrashAndReopen(ghost point: Snapshot, after: DiskState) returns (r: Result<()>, ioOk: bool)
      requires Safe() && point in history && CrashOutcome(point.disk, after)
      modifies this`disk, this`usage, this`acked, this`history, this`removalFailed
      ensures Safe() && old(history) <= history && acked == point.acked
      ensures ioOk ==> (r.Ok? <==> |Visible(after)| <= MAX_ARTIFACT_DIRECTORY_ENTRIES)
      ensures r.Ok? ==> Valid() && !removalFailed && Clean(hash, disk) && usage == Recount(Sizes(disk))
      ensures Contents(disk) == Contents(after)
      ensures forall id :: id in point.acked ==>
                Canonical(id) in Contents(disk) && Contents(disk)[Canonical(id)] == point.acked[id]
    {
      hide Safe, Contents, Temporaries, Recount, Lengths, Sizes, Clean, Visible, CrashOutcome;
      CrashAt(point, after);
      r, ioOk := Open();
      AcknowledgedPresent(disk, acked);
    }

    /** Collection, crash, reopening: whatever the crash keeps, the reopened store holds none of the objects
        a successful collection dropped; if it dropped any, the store is exactly the collected one. */
    method CollectCrashAndReopen(referenced: set<Id>, crash: DiskState -> DiskState)
      returns (collected: Result<()>, r: Result<()>, ioOk: bool)
      requires Valid() && forall s :: CrashOutcome(s, crash(s))
      modifies this`disk, this`usage, this`acked, this`history, this`removalFailed
      ensures Safe() && old(history) <= history
      ensures r.Ok? ==> Valid() && Clean(hash, disk) && usage == Recount(Sizes(disk))
      ensures collected.Ok? ==>
                forall name :: name in old(Contents(disk)) && name !in Retained(old(Contents(disk)), referenced) ==>
                  name !in Contents(disk)
      ensures collected.Ok? && Retained(old(Contents(disk)), referenced) != old(Contents(disk)) ==>
                Contents(disk) == Retained(old(Contents(disk)), referenced)
    {
      hide Contents, Retained, Recount, Lengths, Sizes, Clean, Visible, CrashOutcome, Gone, Temporaries;
      var unused: bool;
      collected, unused := RetainOnly(referenced);
      ghost var stopped := disk;
      var after := crash(disk);
      NothingReturns(stopped, after);
      if disk.pending == [] {
        SyncedSurvives(hash, disk, after);
      }
      r, ioOk := CrashAndReopen(Snapshot(disk, acked), after);
    }

    lemma NothingReturns(s: DiskState, after: DiskState)
      requires CrashOutcome(s, after)
      ensures forall name :: Gone(s, name) ==> name !in Contents(after)
    {
      forall name | Gone(s, name) ensures name !in Contents(after) {
        ComesBackExactly(s, name);
      }
    }
  }
}

/**
 The private object directory of the artifact store, as a crash-prone file system.

 A directory maps names to inodes. Directory changes are queued until the directory is
 synced, and a crash keeps any subset of the queued changes. File contents and modes survive
 a crash only once the file itself was synced.
 */
module Disk {
  import opened Prelude

  type Id = string

  const MAX_ARTIFACT_BYTES: nat := 128 * 1024 * 1024

  datatype Name = Canonical(id: Id) | Temporary(token: nat)
  datatype Inode = Inode(data: Bytes, isSealed: bool, durable: bool)
  datatype DirOp = Link(name: Name, ino: nat) | Unlink(name: Name)

  /** `synced` survives a crash; `pending` are the directory changes made since the last sync.
      The two counters stand for fresh UUIDs and for inode allocation. */
  datatype DiskState = DiskState(
    inodes: map<nat, Inode>,
    synced: map<Name, nat>,
    pending: seq<DirOp>,
    nextToken: nat,
    nextInode: nat)

  function ApplyOp(dir: map<Name, nat>, op: DirOp): map<Name, nat> {
    match op
    case Link(name, ino) => dir[name := ino]
    case Unlink(name) => dir - {name}
  }

  function ApplyAll(dir: map<Name, nat>, ops: seq<DirOp>): map<Name, nat> {
    if ops == [] then dir else ApplyOp(ApplyAll(dir, ops[..|ops| - 1]), ops[|ops| - 1])
  }

  /** The directory as system calls see it. */
  function Visible(s: DiskState): map<Name, nat> {
    ApplyAll(s.synced, s.pending)
  }

  function LinkCount(dir: map<Name, nat>, ino: nat): nat {
    |set name | name in dir && dir[name] == ino|
  }

  // ---- system calls ----

  function Queue(s: DiskState, op: DirOp): DiskState {
    s.(pending := s.pending + [op])
  }

  function CreateTemporary(s: DiskState): DiskState {
    Queue(s.(inodes := s.inodes[s.nextInode := Inode([], false, false)],
             nextToken := s.nextToken + 1,
             nextInode := s.nextInode + 1),
          Link(Temporary(s.nextToken), s.nextInode))
  }

  function SetInode(s: DiskState, ino: nat, inode: Inode): DiskState {
    s.(inodes := s.inodes[ino := inode])
  }

  function SyncDirectory(s: DiskState): DiskState {
    s.(synced := Visible(s), pending := [])
  }

  // ---- what a crash may leave behind ----

  ghost predicate Subsequence(kept: seq<DirOp>, ops: seq<DirOp>) {
    if ops == [] then kept == []
    else
      || Subsequence(kept, ops[..|ops| - 1])
      || (kept != [] && kept[|kept| - 1] == ops[|ops| - 1]
          && Subsequence(kept[..|kept| - 1], ops[..|ops| - 1]))
  }

  /** A crash keeps some of the pending directory changes and every synced file; a file that
      was not synced may come back with any contents and either mode. */
  ghost predicate CrashOutcome(s: DiskState, after: DiskState) {
    && (exists kept :: Subsequence(kept, s.pending) && after.synced == ApplyAll(s.synced, kept))
    && after.pending == []
    && after.nextToken == s.nextToken && after.nextInode == s.nextInode
    && after.inodes.Keys == s.inodes.Keys
    && (forall ino :: ino in s.inodes && s.inodes[ino].durable ==> after.inodes[ino] == s.inodes[ino])
  }

  // ---- the crash invariant ----

  /** `name` can refer to `ino` now or after some crash. */
  ghost predicate MayName(s: DiskState, name: Name, ino: nat) {
    || (name in s.synced && s.synced[name] == ino)
    || Link(name, ino) in s.pending
  }

  predicate Published(hash: Bytes -> Id, inode: Inode, id: Id) {
    inode.isSealed && inode.durable && hash(inode.data) == id && |inode.data| <= MAX_ARTIFACT_BYTES
  }

  /** Every inode a name may reach exists, a canonical name may only reach a durable sealed object
      with that hash, and no two temporary names may reach one inode. */
  ghost predicate Sound(hash: Bytes -> Id, s: DiskState) {
    && (forall ino :: ino in s.inodes ==> ino < s.nextInode)
    && (forall name, ino :: MayName(s, name, ino) ==>
          && ino in s.inodes
          && (name.Canonical? ==> Published(hash, s.inodes[ino], name.id))
          && (name.Temporary? ==> name.token < s.nextToken))
    && (forall name, other, ino :: MayName(s, name, ino) && MayName(s, other, ino) ==>
          name.Temporary? && other.Temporary? ==> name == other)
  }

  /** Every acknowledged object is in the synced directory with its bytes, and no pending change
      touches its name. */
  ghost predicate Holds(s: DiskState, acked: map<Id, Bytes>) {
    forall id :: id in acked ==>
      && Canonical(id) in s.synced
      && s.synced[Canonical(id)] in s.inodes
      && s.inodes[s.synced[Canonical(id)]].data == acked[id]
      && (forall op :: op in s.pending ==> op.name != Canonical(id))
  }

  ghost predicate CrashSafe(hash: Bytes -> Id, s: DiskState, acked: map<Id, Bytes>) {
    Sound(hash, s) && Holds(s, acked)
  }

  // ---- lemmas: which inode a name reaches ----

  lemma {:induction false} ApplyAllReaches(dir: map<Name, nat>, ops: seq<DirOp>, name: Name)
    requires name in ApplyAll(dir, ops)
    ensures || (name in dir && dir[name] == ApplyAll(dir, ops)[name])
            || Link(name, ApplyAll(dir, ops)[name]) in ops
  {
    if ops != [] {
      var rest, op := ops[..|ops| - 1], ops[|ops| - 1];
      if !(op.Link? && op.name == name) {
        ApplyAllReaches(dir, rest, name);
      }
    }
  }

  lemma {:induction false} ApplyAllKeeps(dir: map<Name, nat>, ops: seq<DirOp>, name: Name)
    requires forall op :: op in ops ==> op.name != name
    ensures name in dir <==> name in ApplyAll(dir, ops)
    ensures name in dir ==> ApplyAll(dir, ops)[name] == dir[name]
  {
    if ops != [] {
      ApplyAllKeeps(dir, ops[..|ops| - 1], name);
      assert ops[|ops| - 1] in ops;
    }
  }

  lemma {:induction false} SubsequenceIn(kept: seq<DirOp>, ops: seq<DirOp>)
    requires Subsequence(kept, ops)
    ensures forall op :: op in kept ==> op in ops
  {
    if ops != [] {
      var rest := ops[..|ops| - 1];
      if Subsequence(kept, rest) {
        SubsequenceIn(kept, rest);
      } else {
        SubsequenceIn(kept[..|kept| - 1], rest);
        assert kept == kept[..|kept| - 1] + [ops[|ops| - 1]];
      }
    }
  }

  lemma VisibleMay(s: DiskState, name: Name)
    requires name in Visible(s)
    ensures MayName(s, name, Visible(s)[name])
  {
    ApplyAllReaches(s.synced, s.pending, name);
  }

  /** An acknowledged name still refers to its bytes. */
  lemma HoldsVisible(s: DiskState, acked: map<Id, Bytes>, id: Id)
    requires Holds(s, acked) && id in acked
    ensures Canonical(id) in Visible(s) && Visible(s)[Canonical(id)] == s.synced[Canonical(id)]
  {
    ApplyAllKeeps(s.synced, s.pending, Canonical(id));
  }

  // ---- the invariant survives every system call and every crash ----

  lemma QueueVisible(s: DiskState, op: DirOp)
    ensures Visible(Queue(s, op)) == ApplyOp(Visible(s), op)
  {
    assert (s.pending + [op])[..|s.pending|] == s.pending;
  }

  lemma QueueLinkMay(s: DiskState, name: Name, ino: nat)
    ensures forall n, i :: MayName(Queue(s, Link(name, ino)), n, i) <==> MayName(s, n, i) || (n == name && i == ino)
  {
  }

  /** Losing names never hurts. */
  lemma SoundShrinks(hash: Bytes -> Id, s: DiskState, after: DiskState)
    requires Sound(hash, s)
    requires after.inodes == s.inodes && after.nextInode == s.nextInode && after.nextToken == s.nextToken
    requires forall name, ino :: MayName(after, name, ino) ==> MayName(s, name, ino)
    ensures Sound(hash, after)
  {
  }

  /** Room for a new inode and a new token: no name changes. */
  lemma GrowKeeps(hash: Bytes -> Id, s: DiskState, acked: map<Id, Bytes>, grown: DiskState)
    requires CrashSafe(hash, s, acked)
    requires grown == s.(inodes := s.inodes[s.nextInode := Inode([], false, false)],
                         nextToken := s.nextToken + 1, nextInode := s.nextInode + 1)
    ensures CrashSafe(hash, grown, acked)
    ensures forall name :: !MayName(grown, name, s.nextInode)
  {
    forall name, ino | MayName(grown, name, ino) ensures MayName(s, name, ino) && ino != s.nextInode {
      assert MayName(s, name, ino);
    }
  }

  /** Naming an unnamed file with a temporary name. */
  lemma FreshLinkKeeps(hash: Bytes -> Id, s: DiskState, acked: map<Id, Bytes>, token: nat, ino: nat)
    requires CrashSafe(hash, s, acked) && ino in s.inodes && token < s.nextToken
    requires forall name :: !MayName(s, name, ino)
    ensures CrashSafe(hash, Queue(s, Link(Temporary(token), ino)), acked)
    ensures Private(Queue(s, Link(Temporary(token), ino)), ino, token)
  {
    QueueLinkMay(s, Temporary(token), ino);
  }

  lemma CreateKeeps(hash: Bytes -> Id, s: DiskState, acked: map<Id, Bytes>)
    requires CrashSafe(hash, s, acked)
    ensures CrashSafe(hash, CreateTemporary(s), acked)
    ensures Private(CreateTemporary(s), s.nextInode, s.nextToken)
    ensures Visible(CreateTemporary(s)) == Visible(s)[Temporary(s.nextToken) := s.nextInode]
  {
    var grown := s.(inodes := s.inodes[s.nextInode := Inode([], false, false)],
                    nextToken := s.nextToken + 1, nextInode := s.nextInode + 1);
    hide CrashSafe, MayName;
    GrowKeeps(hash, s, acked, grown);
    FreshLinkKeeps(hash, grown, acked, s.nextToken, s.nextInode);
    QueueVisible(grown, Link(Temporary(s.nextToken), s.nextInode));
  }

  /** Only the given temporary name may reach `ino`: it is not published yet. */
  ghost predicate Private(s: DiskState, ino: nat, token: nat) {
    forall name :: MayName(s, name, ino) ==> name == Temporary(token)
  }

  lemma SetInodeKeeps(hash: Bytes -> Id, s: DiskState, acked: map<Id, Bytes>, ino: nat, token: nat, inode: Inode)
    requires CrashSafe(hash, s, acked) && ino in s.inodes && Private(s, ino, token)
    ensures CrashSafe(hash, SetInode(s, ino, inode), acked)
    ensures Private(SetInode(s, ino, inode), ino, token)
    ensures Visible(SetInode(s, ino, inode)) == Visible(s)
  {
    var after := SetInode(s, ino, inode);
    assert forall n, i :: MayName(after, n, i) <==> MayName(s, n, i);
    forall id | id in acked ensures s.synced[Canonical(id)] != ino {
      assert MayName(s, Canonical(id), s.synced[Canonical(id)]);
    }
  }

  lemma LinkKeeps(hash: Bytes -> Id, s: DiskState, acked: map<Id, Bytes>, id: Id, ino: nat)
    requires CrashSafe(hash, s, acked)
    requires ino in s.inodes && Published(hash, s.inodes[ino], id) && Canonical(id) !in Visible(s)
    ensures CrashSafe(hash, Queue(s, Link(Canonical(id), ino)), acked)
    ensures Visible(Queue(s, Link(Canonical(id), ino))) == Visible(s)[Canonical(id) := ino]
  {
    QueueLinkMay(s, Canonical(id), ino);
    QueueVisible(s, Link(Canonical(id), ino));
    if id in acked {
      HoldsVisible(s, acked, id);
      assert false;
    }
  }

  lemma UnlinkKeeps(hash: Bytes -> Id, s: DiskState, acked: map<Id, Bytes>, name: Name)
    requires CrashSafe(hash, s, acked)
    requires name.Canonical? ==> name.id !in acked
    ensures CrashSafe(hash, Queue(s, Unlink(name)), acked)
    ensures Visible(Queue(s, Unlink(name))) == Visible(s) - {name}
  {
    var after := Queue(s, Unlink(name));
    forall n, i | MayName(after, n, i) ensures MayName(s, n, i) {
    }
    SoundShrinks(hash, s, after);
    QueueVisible(s, Unlink(name));
  }

  lemma SyncKeeps(hash: Bytes -> Id, s: DiskState, acked: map<Id, Bytes>)
    requires CrashSafe(hash, s, acked)
    ensures CrashSafe(hash, SyncDirectory(s), acked)
    ensures Visible(SyncDirectory(s)) == Visible(s)
  {
    var after := SyncDirectory(s);
    forall n, i | MayName(after, n, i) ensures MayName(s, n, i) {
      VisibleMay(s, n);
    }
    SoundShrinks(hash, s, after);
    forall id | id in acked
      ensures Canonical(id) in after.synced && after.synced[Canonical(id)] == s.synced[Canonical(id)]
    {
      HoldsVisible(s, acked, id);
    }
  }

  /** A crash at any moment keeps the invariant: each reachable directory is one the recovery can
      handle, and acknowledged objects are all still there. */
  lemma CrashKeeps(hash: Bytes -> Id, s: DiskState, acked: map<Id, Bytes>, after: DiskState)
    requires CrashSafe(hash, s, acked) && CrashOutcome(s, after)
    ensures CrashSafe(hash, after, acked)
    ensures Visible(after) == after.synced
  {
    var kept :| Subsequence(kept, s.pending) && after.synced == ApplyAll(s.synced, kept);
    SubsequenceIn(kept, s.pending);
    forall name, ino | MayName(after, name, ino)
      ensures MayName(s, name, ino) && (name.Canonical? ==> after.inodes[ino] == s.inodes[ino])
    {
      ApplyAllReaches(s.synced, kept, name);
    }
    forall id | id in acked
      ensures Canonical(id) in after.synced && after.synced[Canonical(id)] == s.synced[Canonical(id)]
      ensures s.inodes[s.synced[Canonical(id)]].durable
    {
      ApplyAllKeeps(s.synced, kept, Canonical(id));
      assert MayName(s, Canonical(id), s.synced[Canonical(id)]);
    }
  }

  // ---- what a crash can bring back ----

  /** No crash can show the name: it is not in the synced directory and no pending change adds it. */
  ghost predicate Gone(s: DiskState, name: Name) {
    name !in s.synced && forall op :: op in s.pending && op.Link? ==> op.name != name
  }

  lemma {:induction false} OneKept(op: DirOp, ops: seq<DirOp>)
    requires op in ops
    ensures Subsequence([op], ops)
  {
    var rest := ops[..|ops| - 1];
    if op == ops[|ops| - 1] {
      NoneKept(rest);
      assert [op][..0] == [];
    } else {
      assert op in rest;
      OneKept(op, rest);
    }
  }

  lemma {:induction false} NoneKept(ops: seq<DirOp>)
    ensures Subsequence([], ops)
  {
    if ops != [] {
      NoneKept(ops[..|ops| - 1]);
    }
  }

  ghost function CrashKeeping(s: DiskState, kept: seq<DirOp>): DiskState {
    s.(synced := ApplyAll(s.synced, kept), pending := [])
  }

  /** A crash can bring a name back exactly when it is not gone. */
  lemma ComesBackExactly(s: DiskState, name: Name)
    ensures (exists after :: CrashOutcome(s, after) && name in Visible(after)) <==> !Gone(s, name)
  {
    if after :| CrashOutcome(s, after) && name in Visible(after) {
      var kept :| Subsequence(kept, s.pending) && after.synced == ApplyAll(s.synced, kept);
      SubsequenceIn(kept, s.pending);
      ApplyAllReaches(s.synced, kept, name);
    }
    if name in s.synced {
      NoneKept(s.pending);
      assert CrashOutcome(s, CrashKeeping(s, [])) && name in Visible(CrashKeeping(s, []));
    } else if op :| op in s.pending && op.Link? && op.name == name {
      OneKept(op, s.pending);
      assert [op][..0] == [];
      assert CrashOutcome(s, CrashKeeping(s, [op])) && name in Visible(CrashKeeping(s, [op]));
    }
  }

  // ---- link counts ----

  lemma SingleLink(hash: Bytes -> Id, s: DiskState, name: Name)
    requires Sound(hash, s) && name in Visible(s)
    requires forall other :: other in Visible(s) && other != name ==> Visible(s)[other] != Visible(s)[name]
    ensures LinkCount(Visible(s), Visible(s)[name]) == 1
  {
    var dir := Visible(s);
    assert (set n | n in dir && dir[n] == dir[name]) == {name};
  }

  /** A visible temporary either stands alone or shares its inode with the canonical name of its
      bytes, and nothing else. */
  lemma TemporaryLinks(hash: Bytes -> Id, s: DiskState, token: nat)
    requires Sound(hash, s) && Temporary(token) in Visible(s)
    ensures var dir := Visible(s);
            var ino := dir[Temporary(token)];
            && ino in s.inodes
            && var canonical := Canonical(hash(s.inodes[ino].data));
            if canonical in dir && dir[canonical] == ino
            then LinkCount(dir, ino) == 2 && Published(hash, s.inodes[ino], canonical.id)
            else LinkCount(dir, ino) == 1
  {
    var dir := Visible(s);
    var temporary := Temporary(token);
    var ino := dir[temporary];
    VisibleMay(s, temporary);
    var canonical := Canonical(hash(s.inodes[ino].data));
    forall n | n in dir && dir[n] == ino ensures n == temporary || n == canonical {
      VisibleMay(s, n);
    }
    var names := set n | n in dir && dir[n] == ino;
    if canonical in dir && dir[canonical] == ino {
      VisibleMay(s, canonical);
      assert names == {temporary, canonical};
    } else {
      assert names == {temporary};
    }
  }

  /** A canonical name whose inode has no visible temporary name is alone on it. */
  lemma CanonicalLinks(hash: Bytes -> Id, s: DiskState, id: Id)
    requires Sound(hash, s) && Canonical(id) in Visible(s)
    requires forall name :: name in Visible(s) && name.Temporary? ==> Visible(s)[name] != Visible(s)[Canonical(id)]
    ensures LinkCount(Visible(s), Visible(s)[Canonical(id)]) == 1
  {
    var dir := Visible(s);
    VisibleMay(s, Canonical(id));
    forall other | other in dir && other != Canonical(id) ensures dir[other] != dir[Canonical(id)] {
      VisibleMay(s, other);
    }
    SingleLink(hash, s, Canonical(id));
  }
}

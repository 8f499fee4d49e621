/** Deleting a peer while changes are pending. The deletion itself is not undoable: it removes the
    peer's membership rows without a snapshot. Whether a later rollback works depends on whether some
    snapshot still mentions the peer. */
module PeerDeletion {
  import opened Wrappers
  import opened Snapshots
  import opened RollbackProofs

  function WithoutMember(r: Row, q: int): Row {
    if r.GroupRow? then GroupRow(r.group.(members := r.group.members - {q})) else r
  }

  function WithoutPeer(rows: Rows, q: int): Rows {
    map k | k in rows && k != Key(PeerK, q) :: WithoutMember(rows[k], q)
  }

  function DropSnapshots(snaps: seq<Snapshot>, k: Key): seq<Snapshot> {
    if snaps == [] then []
    else
      var n := |snaps| - 1;
      DropSnapshots(snaps[..n], k) + if snaps[n].key == k then [] else [snaps[n]]
  }

  /** A live policy names the peer, or a group the peer is in. */
  ghost predicate InUse(rows: Rows, q: int) { exists p, k :: UsedBy(rows, p, k, q) }

  /** Policy `p` mentions `k`, which is the peer or such a group. */
  predicate UsedBy(rows: Rows, p: Key, k: Key, q: int) {
    && p in rows && rows[p].PolicyRow? && !IsDeleted(rows[p]) && References(rows[p], k)
    && (k == Key(PeerK, q) || (k in rows && rows[k].GroupRow? && q in rows[k].group.members))
  }

  /** `DeletePeer` */
  ghost function DeletePeer(s: State, q: int): State {
    if Key(PeerK, q) !in s.rows || InUse(s.rows, q) then s
    else State(WithoutPeer(s.rows, q), DropSnapshots(s.snaps, Key(PeerK, q)))
  }

  predicate HasEnd(p: StoredPolicy, k: Key) { p.source == ToRow(k) || p.target == ToRow(k) }

  /** A live policy that keeps the peer from being deleted: it has the peer at an end, or a group that lists it. */
  ghost predicate Keeps(rows: Rows, p: Key, q: int) {
    && p in rows && rows[p].PolicyRow? && !rows[p].policy.deleted
    && (|| HasEnd(rows[p].policy, Key(PeerK, q))
        || exists g :: HasEnd(rows[p].policy, Key(GroupK, g)) && HasMember(rows, g, q))
  }

  predicate HasMember(rows: Rows, g: int, q: int) {
    Key(GroupK, g) in rows && rows[Key(GroupK, g)].GroupRow? && q in rows[Key(GroupK, g)].group.members
  }

  lemma InUseOnColumns(rows: Rows, q: int)
    requires WellTyped(rows)
    ensures InUse(rows, q) <==> exists p :: Keeps(rows, p, q)
  {
    if InUse(rows, q) {
      var p, k :| UsedBy(rows, p, k, q);
      if k != Key(PeerK, q) {
        assert Fits(k, rows[k]);
        assert k == Key(GroupK, k.id) && HasEnd(rows[p].policy, Key(GroupK, k.id)) && HasMember(rows, k.id, q);
      }
      assert Keeps(rows, p, q);
    }
    if p :| Keeps(rows, p, q) {
      if HasEnd(rows[p].policy, Key(PeerK, q)) {
        assert UsedBy(rows, p, Key(PeerK, q), q);
      } else {
        var g :| HasEnd(rows[p].policy, Key(GroupK, g)) && HasMember(rows, g, q);
        assert UsedBy(rows, p, Key(GroupK, g), q);
      }
    }
  }

  /** On the columns: a peer with a row is deleted exactly when no live policy keeps it; then its row, its
      memberships and its snapshot are gone, and every other row and snapshot is as it was. */
  lemma DeletePeerOnColumns(s: State, q: int, k: Key)
    requires WellTyped(s.rows)
    ensures var t, peer := DeletePeer(s, q), Key(PeerK, q);
      if peer !in s.rows || exists p :: Keeps(s.rows, p, q) then t == s
      else
        && (k in t.rows <==> k in s.rows && k != peer)
        && (k in t.rows && k.kind != GroupK ==> t.rows[k] == s.rows[k])
        && (k in t.rows && k.kind == GroupK ==>
            t.rows[k] == GroupRow(s.rows[k].group.(members := s.rows[k].group.members - {q})))
        && forall x :: x in t.snaps <==> x in s.snaps && x.key != peer
  {
    InUseOnColumns(s.rows, q);
    DroppedContents(s.snaps, Key(PeerK, q));
    assert k in s.rows ==> Fits(k, s.rows[k]);
  }

  predicate Mentions(r: Row, q: int) { References(r, Key(PeerK, q)) }

  /** The snapshot of a group lists the peer. */
  predicate Lists(x: Snapshot, q: int) {
    && x.change != Created && x.key.kind == GroupK
    && x.data.Some? && x.data.value.GroupRow? && q in x.data.value.group.members
  }

  predicate Unlisted(s: State, q: int) { forall i :: 0 <= i < |s.snaps| ==> !Lists(s.snaps[i], q) }

  // ----- snapshots after the deletion -----

  lemma {:induction false} DroppedContents(snaps: seq<Snapshot>, k: Key)
    ensures forall x :: x in DropSnapshots(snaps, k) <==> x in snaps && x.key != k
    ensures forall h :: HasSnapshot(DropSnapshots(snaps, k), h) <==> HasSnapshot(snaps, h) && h != k
  {
    if snaps != [] {
      var n := |snaps| - 1;
      DroppedContents(snaps[..n], k);
      assert snaps == snaps[..n] + [snaps[n]];
      forall h ensures HasSnapshot(DropSnapshots(snaps, k), h) <==> HasSnapshot(snaps, h) && h != k {
        HasSnapshotSnoc(snaps[..n], snaps[n], h);
        var before := DropSnapshots(snaps[..n], k);
        if snaps[n].key != k { HasSnapshotSnoc(before, snaps[n], h); } else { assert before + [] == before; }
      }
    }
  }

  predicate DistinctKeys(snaps: seq<Snapshot>) { forall i, j :: 0 <= i < j < |snaps| ==> snaps[i].key != snaps[j].key }

  lemma {:induction false} DroppedDistinct(snaps: seq<Snapshot>, k: Key)
    requires DistinctKeys(snaps)
    ensures DistinctKeys(DropSnapshots(snaps, k))
  {
    if snaps != [] {
      var n := |snaps| - 1;
      var pre, last := snaps[..n], snaps[n];
      var before := DropSnapshots(pre, k);
      DroppedDistinct(pre, k);
      DroppedContents(pre, k);
      LastIsNew(snaps);
      DistinctSnoc(before, last);
      assert before + [] == before;
    }
  }

  lemma LastIsNew(snaps: seq<Snapshot>)
    requires snaps != [] && DistinctKeys(snaps)
    ensures !HasSnapshot(snaps[..|snaps| - 1], snaps[|snaps| - 1].key)
  {
    var n := |snaps| - 1;
    assert forall m :: 0 <= m < n ==> snaps[..n][m] == snaps[m];
  }

  lemma DistinctSnoc(snaps: seq<Snapshot>, x: Snapshot)
    requires !HasSnapshot(snaps, x.key) && DistinctKeys(snaps)
    ensures DistinctKeys(snaps + [x])
  {
  }

  lemma SnapshotSurvives(base: Rows, rows: Rows, q: int, x: Snapshot)
    requires SnapshotOk(base, rows, x) && x.key != Key(PeerK, q) && !Lists(x, q)
    requires x.key in base ==> Fits(x.key, base[x.key])
    ensures SnapshotOk(WithoutPeer(base, q), WithoutPeer(rows, q), x)
  {
    if x.change != Created {
      var r := base[x.key];
      if r.GroupRow? { assert r.group.members - {q} == r.group.members; }
      assert WithoutMember(r, q) == r;
    }
  }

  lemma SnapshotsSurvive(base: Rows, s: State, q: int)
    requires WellTyped(base) && Inv(base, s) && Unlisted(s, q)
    ensures var snaps := DropSnapshots(s.snaps, Key(PeerK, q));
      forall i :: 0 <= i < |snaps| ==> SnapshotOk(WithoutPeer(base, q), WithoutPeer(s.rows, q), snaps[i])
  {
    var snaps := DropSnapshots(s.snaps, Key(PeerK, q));
    DroppedContents(s.snaps, Key(PeerK, q));
    forall i | 0 <= i < |snaps| ensures SnapshotOk(WithoutPeer(base, q), WithoutPeer(s.rows, q), snaps[i]) {
      assert snaps[i] in snaps;
      var m :| 0 <= m < |s.snaps| && s.snaps[m] == snaps[i];
      SnapshotSurvives(base, s.rows, q, s.snaps[m]);
    }
  }

  lemma RowSurvives(base: Rows, s: State, q: int, k: Key)
    requires Inv(base, s) && k in s.rows && k != Key(PeerK, q)
    ensures Fits(k, WithoutMember(s.rows[k], q))
    ensures !HasSnapshot(s.snaps, k) ==> k in base && WithoutMember(s.rows[k], q) == WithoutMember(base[k], q)
  {
  }

  lemma RowsSurvive(base: Rows, s: State, q: int)
    requires Inv(base, s)
    ensures var rows, b, snaps := WithoutPeer(s.rows, q), WithoutPeer(base, q), DropSnapshots(s.snaps, Key(PeerK, q));
      && (forall k :: k in rows ==> Fits(k, rows[k])) && (forall k :: k in b ==> k in rows)
      && (forall k :: k in rows && !HasSnapshot(snaps, k) ==> k in b && rows[k] == b[k])
  {
    var rows, b, snaps := WithoutPeer(s.rows, q), WithoutPeer(base, q), DropSnapshots(s.snaps, Key(PeerK, q));
    DroppedContents(s.snaps, Key(PeerK, q));
    forall k | k in rows ensures Fits(k, rows[k]) && (!HasSnapshot(snaps, k) ==> k in b && rows[k] == b[k]) {
      RowSurvives(base, s, q, k);
    }
  }

  lemma ShrunkIsRestorable(base: Rows, q: int)
    requires Restorable(base)
    ensures Restorable(WithoutPeer(base, q))
  {
    var b := WithoutPeer(base, q);
    forall k, h | k in b && h in b && Clash(b[k], b[h]) ensures k == h { assert Clash(base[k], base[h]); }
    forall k | k in b ensures ForeignKeysHold(b, b[k]) && ChecksHold(b[k]) {
      assert ForeignKeysHold(base, base[k]) && ChecksHold(base[k]);
    }
  }

  /** If no group snapshot lists the peer, the deletion moves the baseline: it is the old one without the
      peer and its memberships. Policies may go on mentioning the peer. */
  lemma DeletionMovesBaseline(base: Rows, s: State, q: int)
    requires Restorable(base) && Inv(base, s) && Unlisted(s, q) && Key(PeerK, q) in s.rows && !InUse(s.rows, q)
    ensures Inv(WithoutPeer(base, q), DeletePeer(s, q)) && Restorable(WithoutPeer(base, q))
  {
    RowsSurvive(base, s, q);
    SnapshotsSurvive(base, s, q);
    DroppedDistinct(s.snaps, Key(PeerK, q));
    assert DeletePeer(s, q) == State(WithoutPeer(s.rows, q), DropSnapshots(s.snaps, Key(PeerK, q)));
    ShrunkIsRestorable(base, q);
  }

  lemma StillNothingAwaits(base: Rows, s: State, q: int)
    requires NothingAwaits(base, s) && Key(PeerK, q) in s.rows && !InUse(s.rows, q)
    ensures NothingAwaits(WithoutPeer(base, q), DeletePeer(s, q))
  {
    var b, t := WithoutPeer(base, q), DeletePeer(s, q);
    DroppedContents(s.snaps, Key(PeerK, q));
    forall i, k | 0 <= i < |t.snaps| && t.snaps[i].change == Created && k in b
      ensures !References(b[k], t.snaps[i].key)
    {
      assert t.snaps[i] in t.snaps;
      var m :| 0 <= m < |s.snaps| && s.snaps[m] == t.snaps[i];
      assert !References(base[k], s.snaps[m].key);
    }
  }

  // ----- a snapshot that lists a peer that is gone -----

  predicate ListsGone(rows: Rows, x: Snapshot, q: int) {
    Lists(x, q) && x.key in rows && rows[x.key].GroupRow? && Key(PeerK, q) !in rows
  }

  /** Its foreign key fails, alone... */
  lemma ListedPeerFails(rows: Rows, x: Snapshot, q: int)
    requires ListsGone(rows, x, q)
    ensures Undo(rows, x) == None
  {
    assert q in Restored(rows[x.key], x.data.value).group.members;
  }

  lemma UndoKeepsOut(rows: Rows, x: Snapshot, k: Key)
    requires k !in rows && Undo(rows, x).Some?
    ensures k !in Undo(rows, x).value
  {
  }

  lemma UndoOther(rows: Rows, x: Snapshot, k: Key)
    requires k in rows && x.key != k && Undo(rows, x).Some?
    ensures k in Undo(rows, x).value && Undo(rows, x).value[k] == rows[k]
  {
  }

  /** ...and with all the others, whatever they say. */
  lemma {:induction false} ListedPeerBlocks(rows: Rows, snaps: seq<Snapshot>, j: nat, q: int)
    requires j < |snaps| && ListsGone(rows, snaps[j], q) && DistinctKeys(snaps)
    ensures UndoAll(rows, snaps) == None
  {
    var n := |snaps| - 1;
    var r := Undo(rows, snaps[n]);
    if j == n {
      ListedPeerFails(rows, snaps[n], q);
    } else if r.Some? {
      UndoKeepsOut(rows, snaps[n], Key(PeerK, q));
      UndoOther(rows, snaps[n], snaps[j].key);
      ListedPeerBlocks(r.value, snaps[..n], j, q);
    }
  }

  lemma FindDropped(snaps: seq<Snapshot>, k: Key, j: nat) returns (m: nat)
    requires j < |snaps| && snaps[j].key != k
    ensures m < |DropSnapshots(snaps, k)| && DropSnapshots(snaps, k)[m] == snaps[j]
  {
    DroppedContents(snaps, k);
    assert snaps[j] in DropSnapshots(snaps, k);
    m :| 0 <= m < |DropSnapshots(snaps, k)| && DropSnapshots(snaps, k)[m] == snaps[j];
  }

  /** A rollback right after a deletion: it succeeds exactly when no group snapshot lists the peer and no
      older entity stands in the way; then it returns to the baseline without the peer. */
  lemma RollbackAfterDeletion(base: Rows, s: State, q: int)
    requires Restorable(base) && NothingAwaits(base, s) && Inv(base, s)
    requires Key(PeerK, q) in s.rows && !InUse(s.rows, q)
    ensures RollbackAll(DeletePeer(s, q)) ==
      if Unlisted(s, q) && NoConflict(DeletePeer(s, q)) then (true, State(WithoutPeer(base, q), []))
      else (false, DeletePeer(s, q))
  {
    if Unlisted(s, q) {
      DeletionMovesBaseline(base, s, q);
      StillNothingAwaits(base, s, q);
      RollbackOver(WithoutPeer(base, q), DeletePeer(s, q));
    } else {
      var j :| 0 <= j < |s.snaps| && Lists(s.snaps[j], q);
      assert SnapshotOk(base, s.rows, s.snaps[j]);
      var m := FindDropped(s.snaps, Key(PeerK, q), j);
      DroppedDistinct(s.snaps, Key(PeerK, q));
      ListedPeerBlocks(WithoutPeer(s.rows, q), DropSnapshots(s.snaps, Key(PeerK, q)), m, q);
    }
  }

  // ----- runs with deletions -----

  datatype Move = Usual(step: Step) | Drop(q: int)

  /** The tables with the baseline a rollback should return to and the ids of deleted peers, which the
      database never hands out again. */
  datatype World = World(base: Rows, now: State, gone: set<Key>)

  predicate Reuses(step: Step, gone: set<Key>) { step.Do? && step.e.Create? && step.e.key in gone }

  ghost function Next(w: World, move: Move): World {
    match move
    case Usual(step) => if Reuses(step, w.gone) then w else w.(now := Take(w.now, step))
    case Drop(q) =>
      if Key(PeerK, q) !in w.now.rows || InUse(w.now.rows, q) then w
      else World(WithoutPeer(w.base, q), DeletePeer(w.now, q), w.gone + {Key(PeerK, q)})
  }

  ghost function After(w: World, moves: seq<Move>): World {
    if moves == [] then w else Next(After(w, moves[..|moves| - 1]), moves[|moves| - 1])
  }

  /** The snapshot of a group that is still there lists a deleted peer. */
  predicate Jams(s: State, gone: set<Key>, x: Snapshot, q: int) {
    Lists(x, q) && Key(PeerK, q) in gone && x.key in s.rows && s.rows[x.key].GroupRow?
  }

  ghost predicate Stuck(s: State, gone: set<Key>) {
    DistinctKeys(s.snaps) && exists j, q :: 0 <= j < |s.snaps| && Jams(s, gone, s.snaps[j], q)
  }

  ghost predicate DanglingOnly(base: Rows, gone: set<Key>) {
    forall k, t :: k in base && References(base[k], t) ==> t in base || t in gone
  }

  ghost predicate GoneStayAway(s: State, gone: set<Key>) {
    forall k :: k in gone ==> k !in s.rows && !HasSnapshot(s.snaps, k)
  }

  ghost predicate Related(w: World) {
    Restorable(w.base) && DanglingOnly(w.base, w.gone) && Inv(w.base, w.now)
  }

  /** Deleted ids stay away, and either the tables can be related to the baseline or they are stuck. */
  ghost predicate WorldOk(w: World) { GoneStayAway(w.now, w.gone) && (Stuck(w.now, w.gone) || Related(w)) }

  // ----- deleted ids stay away -----

  lemma {:induction false} UndoAllKeepsOut(rows: Rows, snaps: seq<Snapshot>, k: Key)
    requires k !in rows && UndoAll(rows, snaps).Some?
    ensures k !in UndoAll(rows, snaps).value
  {
    if snaps != [] {
      var n := |snaps| - 1;
      UndoKeepsOut(rows, snaps[n], k);
      UndoAllKeepsOut(Undo(rows, snaps[n]).value, snaps[..n], k);
    }
  }

  lemma PerformKeepsOut(s: State, e: Edit, k: Key)
    requires k !in s.rows && !HasSnapshot(s.snaps, k) && !(e.Create? && e.key == k)
    ensures k !in Perform(s, e).rows && !HasSnapshot(Perform(s, e).snaps, k)
  {
    var t := Perform(s, e);
    if |t.snaps| > |s.snaps| { HasSnapshotSnoc(s.snaps, t.snaps[|s.snaps|], k); }
  }

  lemma RollbackEntityKeepsOut(s: State, h: Key, k: Key)
    requires k !in s.rows && !HasSnapshot(s.snaps, k)
    ensures var t := RollbackEntity(s, h).1; k !in t.rows && !HasSnapshot(t.snaps, k)
  {
    if RollbackEntity(s, h).0 {
      var i := IndexOf(s.snaps, h);
      UndoKeepsOut(s.rows, s.snaps[i], k);
      var t := s.snaps[..i] + s.snaps[i + 1..];
      assert forall m :: 0 <= m < |t| ==> t[m] == s.snaps[if m < i then m else m + 1];
    }
  }

  lemma AwayStep(w: World, move: Move)
    requires GoneStayAway(w.now, w.gone)
    ensures GoneStayAway(Next(w, move).now, Next(w, move).gone)
  {
    forall k | k in Next(w, move).gone
      ensures k !in Next(w, move).now.rows && !HasSnapshot(Next(w, move).now.snaps, k)
    {
      match move
      case Usual(Do(e)) => if !(e.Create? && e.key in w.gone) { PerformKeepsOut(w.now, e, k); }
      case Usual(UndoEntity(h)) => RollbackEntityKeepsOut(w.now, h, k);
      case Usual(UndoEverything) =>
        if UndoAll(w.now.rows, w.now.snaps).Some? { UndoAllKeepsOut(w.now.rows, w.now.snaps, k); }
      case Drop(q) => DroppedContents(w.now.snaps, Key(PeerK, q));
    }
  }

  // ----- related tables -----

  lemma RelatedAwaitsNothing(w: World)
    requires GoneStayAway(w.now, w.gone) && Related(w)
    ensures NothingAwaits(w.base, w.now)
  {
    forall i, k | 0 <= i < |w.now.snaps| && w.now.snaps[i].change == Created && k in w.base
      ensures !References(w.base[k], w.now.snaps[i].key)
    {
      assert SnapshotOk(w.base, w.now.rows, w.now.snaps[i]);
      assert HasSnapshot(w.now.snaps, w.now.snaps[i].key);
    }
  }

  lemma ShrunkDangles(base: Rows, gone: set<Key>, q: int)
    requires DanglingOnly(base, gone)
    ensures DanglingOnly(WithoutPeer(base, q), gone + {Key(PeerK, q)})
  {
    var b := WithoutPeer(base, q);
    forall k, t | k in b && References(b[k], t) ensures t in b || t in gone + {Key(PeerK, q)} {
      assert References(base[k], t);
    }
  }

  lemma DropJams(w: World, q: int)
    requires Inv(w.base, w.now) && Key(PeerK, q) in w.now.rows && !InUse(w.now.rows, q) && !Unlisted(w.now, q)
    ensures Stuck(Next(w, Drop(q)).now, Next(w, Drop(q)).gone)
  {
    var s, t := w.now, Next(w, Drop(q)).now;
    var j :| 0 <= j < |s.snaps| && Lists(s.snaps[j], q);
    assert SnapshotOk(w.base, s.rows, s.snaps[j]);
    var m := FindDropped(s.snaps, Key(PeerK, q), j);
    DroppedDistinct(s.snaps, Key(PeerK, q));
    assert Jams(t, w.gone + {Key(PeerK, q)}, t.snaps[m], q);
  }

  lemma RelatedStep(w: World, move: Move)
    requires GoneStayAway(w.now, w.gone) && Related(w)
    ensures Stuck(Next(w, move).now, Next(w, move).gone) || Related(Next(w, move))
  {
    match move
    case Usual(Do(e)) => PerformInv(w.base, w.now, e);
    case Usual(UndoEntity(k)) => RollbackEntityInv(w.base, w.now, k);
    case Usual(UndoEverything) =>
      RelatedAwaitsNothing(w);
      RollbackOver(w.base, w.now);
      StartInv(w.base);
    case Drop(q) =>
      if Key(PeerK, q) in w.now.rows && !InUse(w.now.rows, q) {
        if Unlisted(w.now, q) {
          DeletionMovesBaseline(w.base, w.now, q);
          ShrunkDangles(w.base, w.gone, q);
        } else {
          DropJams(w, q);
        }
      }
  }

  // ----- stuck tables -----

  lemma JammedPerform(s: State, gone: set<Key>, e: Edit, j: nat, q: int)
    requires DistinctKeys(s.snaps) && j < |s.snaps| && Jams(s, gone, s.snaps[j], q)
    ensures Stuck(Perform(s, e), gone)
  {
    var t := Perform(s, e);
    assert s.snaps <= t.snaps;
    assert DistinctKeys(t.snaps) by {
      if |t.snaps| > |s.snaps| { DistinctSnoc(s.snaps, t.snaps[|s.snaps|]); }
    }
    assert t.snaps[j] == s.snaps[j];
    assert Jams(t, gone, t.snaps[j], q);
  }

  lemma JammedEntity(s: State, gone: set<Key>, k: Key, j: nat, q: int)
    requires DistinctKeys(s.snaps) && j < |s.snaps| && Jams(s, gone, s.snaps[j], q) && GoneStayAway(s, gone)
    ensures Stuck(RollbackEntity(s, k).1, gone)
  {
    var t := RollbackEntity(s, k).1;
    if RollbackEntity(s, k).0 {
      var i := IndexOf(s.snaps, k);
      if i == j { ListedPeerFails(s.rows, s.snaps[j], q); }
      UndoOther(s.rows, s.snaps[i], s.snaps[j].key);
      assert forall m :: 0 <= m < |t.snaps| ==> t.snaps[m] == s.snaps[if m < i then m else m + 1];
      var m := if j < i then j else j - 1;
      assert t.snaps[m] == s.snaps[j];
      assert Jams(t, gone, t.snaps[m], q);
    } else {
      assert Jams(t, gone, t.snaps[j], q);
    }
  }

  lemma JammedDrop(w: World, p: int, j: nat, q: int)
    requires DistinctKeys(w.now.snaps) && j < |w.now.snaps| && Jams(w.now, w.gone, w.now.snaps[j], q)
    ensures Stuck(Next(w, Drop(p)).now, Next(w, Drop(p)).gone)
  {
    var s, t := w.now, Next(w, Drop(p)).now;
    if Key(PeerK, p) in s.rows && !InUse(s.rows, p) {
      var m := FindDropped(s.snaps, Key(PeerK, p), j);
      DroppedDistinct(s.snaps, Key(PeerK, p));
      assert Jams(t, w.gone + {Key(PeerK, p)}, t.snaps[m], q);
    } else {
      assert Jams(t, w.gone, t.snaps[j], q);
    }
  }

  /** A stuck rollback fails and changes nothing. */
  lemma StuckRollbackFails(s: State, gone: set<Key>)
    requires Stuck(s, gone) && GoneStayAway(s, gone)
    ensures RollbackAll(s) == (false, s)
  {
    var j, q :| 0 <= j < |s.snaps| && Jams(s, gone, s.snaps[j], q);
    ListedPeerBlocks(s.rows, s.snaps, j, q);
  }

  /** Stuck tables stay stuck. */
  lemma StuckStep(w: World, move: Move)
    requires Stuck(w.now, w.gone) && GoneStayAway(w.now, w.gone)
    ensures Stuck(Next(w, move).now, Next(w, move).gone)
  {
    var j, q :| 0 <= j < |w.now.snaps| && Jams(w.now, w.gone, w.now.snaps[j], q);
    match move
    case Usual(Do(e)) => JammedPerform(w.now, w.gone, e, j, q);
    case Usual(UndoEntity(k)) => JammedEntity(w.now, w.gone, k, j, q);
    case Usual(UndoEverything) => StuckRollbackFails(w.now, w.gone);
    case Drop(p) => JammedDrop(w, p, j, q);
  }

  lemma {:induction false} RunOk(w: World, moves: seq<Move>)
    requires WorldOk(w)
    ensures WorldOk(After(w, moves))
    ensures Stuck(w.now, w.gone) ==> Stuck(After(w, moves).now, After(w, moves).gone)
  {
    if moves != [] {
      var before, last := moves[..|moves| - 1], moves[|moves| - 1];
      RunOk(w, before);
      var v := After(w, before);
      AwayStep(v, last);
      if Stuck(v.now, v.gone) { StuckStep(v, last); } else { RelatedStep(v, last); }
    }
  }

  // ----- the result -----

  ghost function Start(base: Rows): World { World(base, State(base, []), {}) }

  lemma StartOk(base: Rows)
    requires Baseline(base)
    ensures WorldOk(Start(base))
  {
    BaselineIsRestorable(base);
    StartInv(base);
  }

  /** Over every run of edits, undos and peer deletions: a rollback succeeds exactly when no group snapshot
      lists a deleted peer and no older entity stands in the way; then it returns the tables to the
      baseline without the deleted peers, and otherwise it changes nothing. */
  lemma RollbackOverDeletions(base: Rows, moves: seq<Move>)
    requires Baseline(base)
    ensures var w := After(Start(base), moves);
      RollbackAll(w.now) ==
        if !Stuck(w.now, w.gone) && NoConflict(w.now) then (true, State(w.base, [])) else (false, w.now)
  {
    StartOk(base);
    RunOk(Start(base), moves);
    var w := After(Start(base), moves);
    if Stuck(w.now, w.gone) {
      StuckRollbackFails(w.now, w.gone);
    } else {
      RelatedAwaitsNothing(w);
      RollbackOver(w.base, w.now);
    }
  }

  /** Once stuck, no continuation of the run can be rolled back. */
  lemma StuckForever(base: Rows, moves: seq<Move>, more: seq<Move>)
    requires Baseline(base)
    requires var w := After(Start(base), moves); Stuck(w.now, w.gone)
    ensures var v := After(After(Start(base), moves), more); RollbackAll(v.now) == (false, v.now)
  {
    StartOk(base);
    RunOk(Start(base), moves);
    var w := After(Start(base), moves);
    RunOk(w, more);
    StuckRollbackFails(After(w, more).now, After(w, more).gone);
  }

  /** A row of the baseline as a rollback returns it: a group without the deleted peers, anything else as
      it was. */
  ghost predicate RowWithout(r: Row, t: Row, gone: set<Key>) {
    if r.GroupRow? then
      && t.GroupRow? && t.group == r.group.(members := t.group.members)
      && forall q :: (q in t.group.members <==> q in r.group.members && Key(PeerK, q) !in gone)
                     && (q in t.group.members ==> t.group.members[q] == r.group.members[q])
    else t == r
  }

  /** The baseline a rollback returns to is the first one without the deleted peers. */
  lemma {:induction false} BaseOverDeletions(base: Rows, moves: seq<Move>)
    ensures var w := After(Start(base), moves);
      && (forall k :: k in w.base <==> k in base && k !in w.gone)
      && (forall k :: k in w.base ==> RowWithout(base[k], w.base[k], w.gone))
      && (forall k :: k in w.gone ==> k.kind == PeerK)
  {
    if moves != [] {
      BaseOverDeletions(base, moves[..|moves| - 1]);
      var v, last := After(Start(base), moves[..|moves| - 1]), moves[|moves| - 1];
      if last.Drop? && Next(v, last) != v {
        forall k | k in WithoutPeer(v.base, last.q)
          ensures RowWithout(base[k], WithoutMember(v.base[k], last.q), v.gone + {Key(PeerK, last.q)})
        {
          assert RowWithout(base[k], v.base[k], v.gone);
        }
      }
    }
  }

  // ----- the condition can fail -----

  const HOST := PeerRow(StoredPeer("host", "10.0.0.1", "key"))
  const CLUB := StoredGroup("club", "", false, map[1 := Membership(1, 0)], false)
  const CLUB_KEY := Key(GroupK, 2)

  function ClubBase(): Rows { map[Key(PeerK, 1) := HOST, CLUB_KEY := GroupRow(CLUB)] }

  lemma ClubRenamed()
    ensures Perform(State(ClubBase(), []), UpdateGroup(2, "team", "")) ==
      State(ClubBase()[CLUB_KEY := GroupRow(CLUB.(name := "team"))],
          [Snapshot(CLUB_KEY, Updated, Some(GroupRow(CLUB)))])
  {
    assert !HasSnapshot([], CLUB_KEY);
  }

  lemma ClubIsBaseline()
    ensures Baseline(ClubBase())
  {
  }

  lemma AfterTwo(w: World, a: Move, b: Move)
    ensures After(w, [a, b]) == Next(Next(w, a), b)
  {
    assert [a, b][..1] == [a] && [a][..0] == [];
    assert After(w, [a]) == Next(w, a);
  }

  lemma RenamedClubLists(s: State)
    requires s == State(ClubBase()[CLUB_KEY := GroupRow(CLUB.(name := "team"))],
                        [Snapshot(CLUB_KEY, Updated, Some(GroupRow(CLUB)))])
    ensures Key(PeerK, 1) in s.rows && !InUse(s.rows, 1) && !Unlisted(s, 1)
  {
    assert Lists(s.snaps[0], 1);
  }

  /** Renaming a group and then deleting one of its members: this run can never be rolled back. */
  lemma DeletionCanJam(rename: Edit)
    requires rename == UpdateGroup(2, "team", "")
    ensures Baseline(ClubBase())
    ensures var w := After(Start(ClubBase()), [Usual(Do(rename)), Drop(1)]); Stuck(w.now, w.gone)
  {
    var v := Next(Start(ClubBase()), Usual(Do(rename)));
    ClubIsBaseline();
    ClubRenamed();
    StartInv(ClubBase());
    PerformInv(ClubBase(), State(ClubBase(), []), rename);
    RenamedClubLists(v.now);
    DropJams(v, 1);
    AfterTwo(Start(ClubBase()), Usual(Do(rename)), Drop(1));
  }
}

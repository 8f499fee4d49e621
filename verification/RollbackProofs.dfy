/** Rollback restores the baseline, succeeds exactly when no older entity stands in the way of a
    newer one, and changes nothing when it fails. */
module RollbackProofs {
  import opened Wrappers
  import opened Snapshots

  /** Columns that neither an edit nor a rollback writes. */
  predicate SameFixed(a: Row, b: Row) {
    || (a.GroupRow? && b.GroupRow? && a.group.isSystem == b.group.isSystem)
    || (a.ServiceRow? && b.ServiceRow? && a.service.noConntrack == b.service.noConntrack)
    || (a.PolicyRow? && b.PolicyRow?)
  }

  lemma RestoredIsOriginal(current: Row, original: Row)
    requires SameFixed(current, original) && !IsDeleted(original)
    ensures Restored(current, Saved(original)) == original
  {
  }

  /** The tables when the snapshot table was last empty: well typed, every constraint satisfied, and
      every reference resolved. */
  ghost predicate Baseline(base: Rows) { WellTyped(base) && NoClashes(base) && ChecksPass(base) && NoDangling(base) }

  ghost predicate WellTyped(base: Rows) { forall k :: k in base ==> Fits(k, base[k]) }

  ghost predicate NoClashes(base: Rows) {
    forall k, h :: k in base && h in base && Clash(base[k], base[h]) ==> k == h
  }

  ghost predicate ChecksPass(base: Rows) { forall k :: k in base ==> ChecksHold(base[k]) }

  ghost predicate KeysPass(base: Rows) { forall k :: k in base ==> ForeignKeysHold(base, base[k]) }

  ghost predicate NoDangling(base: Rows) {
    forall k, t :: k in base && References(base[k], t) ==> t in base
  }

  /** What restoring the rows of a baseline needs of it. */
  ghost predicate Restorable(base: Rows) { WellTyped(base) && NoClashes(base) && ChecksPass(base) && KeysPass(base) }

  /** No row of the baseline refers to an entity created since. */
  ghost predicate NothingAwaits(base: Rows, s: State) {
    forall i, k :: 0 <= i < |s.snaps| && s.snaps[i].change == Created && k in base ==>
      !References(base[k], s.snaps[i].key)
  }

  /** Foreign keys are references, so a table without dangling references satisfies them. */
  lemma BaselineForeignKeys(base: Rows, k: Key)
    requires NoDangling(base) && k in base
    ensures ForeignKeysHold(base, base[k])
  {
    match base[k]
    case PolicyRow(p) => assert References(base[k], Key(ServiceK, p.service));
    case GroupRow(g) =>
      forall q | q in g.members ensures Key(PeerK, q) in base { assert References(base[k], Key(PeerK, q)); }
    case _ =>
  }

  lemma BaselineIsRestorable(base: Rows)
    requires Baseline(base)
    ensures Restorable(base)
  {
    forall k | k in base ensures ForeignKeysHold(base, base[k]) { BaselineForeignKeys(base, k); }
  }

  lemma BaselineAwaitsNothing(base: Rows, s: State)
    requires NoDangling(base) && Inv(base, s)
    ensures NothingAwaits(base, s)
  {
    forall i, k | 0 <= i < |s.snaps| && s.snaps[i].change == Created && k in base
      ensures !References(base[k], s.snaps[i].key)
    {
      assert SnapshotOk(base, s.rows, s.snaps[i]);
    }
  }

  /** What a snapshot says about its entity, now and at the baseline. */
  ghost predicate SnapshotOk(base: Rows, rows: Rows, s: Snapshot) {
    && s.key in rows
    && (s.change == Created ==> s.key !in base)
    && (s.change != Created ==>
          && s.key in base && s.data == Some(Saved(base[s.key])) && !IsDeleted(base[s.key])
          && SameFixed(rows[s.key], base[s.key]))
  }

  ghost predicate Inv(base: Rows, s: State) {
    && (forall k :: k in s.rows ==> Fits(k, s.rows[k]))
    && (forall k :: k in base ==> k in s.rows)
    && (forall k :: k in s.rows && !HasSnapshot(s.snaps, k) ==> k in base && s.rows[k] == base[k])
    && (forall i :: 0 <= i < |s.snaps| ==> SnapshotOk(base, s.rows, s.snaps[i]))
    && (forall i, j :: 0 <= i < j < |s.snaps| ==> s.snaps[i].key != s.snaps[j].key)
  }

  lemma StartInv(base: Rows)
    requires WellTyped(base)
    ensures Inv(base, State(base, []))
  {
  }

  // ----- edits keep the invariant -----

  lemma TouchInv(base: Rows, s: State, k: Key, change: Change, r: Row)
    requires Inv(base, s) && k in s.rows && !IsDeleted(s.rows[k]) && change != Created
    requires Fits(k, r) && SameFixed(r, s.rows[k])
    ensures Inv(base, State(s.rows[k := r], CreateSnapshot(s.snaps, Snapshot(k, change, Some(Saved(s.rows[k]))))))
  {
    var snap := Snapshot(k, change, Some(Saved(s.rows[k])));
    if HasSnapshot(s.snaps, k) { TouchAgain(base, s, k, r); } else { TouchFirst(base, s, k, r, snap); }
  }

  /** A later change of an entity leaves the snapshot table alone. */
  lemma TouchAgain(base: Rows, s: State, k: Key, r: Row)
    requires Inv(base, s) && k in s.rows && HasSnapshot(s.snaps, k) && Fits(k, r) && SameFixed(r, s.rows[k])
    ensures Inv(base, State(s.rows[k := r], s.snaps))
  {
    forall i | 0 <= i < |s.snaps| ensures SnapshotOk(base, s.rows[k := r], s.snaps[i]) {
      assert SnapshotOk(base, s.rows, s.snaps[i]);
    }
  }

  /** The first change of an entity records its baseline row. */
  lemma TouchFirst(base: Rows, s: State, k: Key, r: Row, snap: Snapshot)
    requires Inv(base, s) && k in s.rows && !IsDeleted(s.rows[k]) && !HasSnapshot(s.snaps, k)
    requires Fits(k, r) && SameFixed(r, s.rows[k])
    requires snap.key == k && snap.change != Created && snap.data == Some(Saved(s.rows[k]))
    ensures Inv(base, State(s.rows[k := r], s.snaps + [snap]))
  {
    var rows, snaps := s.rows[k := r], s.snaps + [snap];
    forall h ensures HasSnapshot(snaps, h) <==> HasSnapshot(s.snaps, h) || h == k { HasSnapshotSnoc(s.snaps, snap, h); }
    forall i | 0 <= i < |snaps| ensures SnapshotOk(base, rows, snaps[i]) {
      if i < |s.snaps| { assert SnapshotOk(base, s.rows, s.snaps[i]); }
    }
  }

  lemma HasSnapshotSnoc(snaps: seq<Snapshot>, s: Snapshot, k: Key)
    ensures HasSnapshot(snaps + [s], k) <==> HasSnapshot(snaps, k) || s.key == k
  {
    var all := snaps + [s];
    assert all[|snaps|] == s;
    if i :| 0 <= i < |snaps| && snaps[i].key == k { assert all[i].key == k; }
  }

  lemma CreateInv(base: Rows, s: State, k: Key, r: Row)
    requires Inv(base, s) && k !in s.rows && Fits(k, r)
    ensures Inv(base, State(s.rows[k := r], CreateSnapshot(s.snaps, Snapshot(k, Created, None))))
  {
    var snap := Snapshot(k, Created, None);
    assert !HasSnapshot(s.snaps, k);
    forall h ensures HasSnapshot(s.snaps + [snap], h) <==>
        HasSnapshot(s.snaps, h) || h == k { HasSnapshotSnoc(s.snaps, snap, h); }
  }

  lemma EditKeepsFixed(rows: Rows, e: Edit, r: Row)
    requires NewRow(rows, e, r).Some?
    ensures SameFixed(NewRow(rows, e, r).value, r)
  {
  }

  lemma PerformInv(base: Rows, s: State, e: Edit)
    requires Inv(base, s)
    ensures Inv(base, Perform(s, e))
  {
    var k := EditedKey(e);
    if Perform(s, e) != s {
      if e.Create? {
        CreateInv(base, s, k, e.row);
      } else {
        var r := NewRow(s.rows, e, s.rows[k]);
        EditKeepsFixed(s.rows, e, s.rows[k]);
        TouchInv(base, s, k, if e.SoftDelete? then Deleted else Updated, r.value);
      }
    }
  }

  // ----- the rows after undoing the newest snapshots -----

  /** The rows with the entities of `snaps[j..]` back at the baseline. */
  function Undone(base: Rows, rows: Rows, snaps: seq<Snapshot>, j: nat): Rows
    requires j <= |snaps|
    decreases |snaps| - j
  {
    if j == |snaps| then rows
    else
      var r := Undone(base, rows, snaps, j + 1);
      if snaps[j].key in base then r[snaps[j].key := base[snaps[j].key]] else r - {snaps[j].key}
  }

  ghost predicate IsNewer(snaps: seq<Snapshot>, j: nat, k: Key) { exists i :: j <= i < |snaps| && snaps[i].key == k }

  lemma {:induction false} UndoneContents(base: Rows, rows: Rows, snaps: seq<Snapshot>, j: nat)
    requires j <= |snaps|
    ensures forall k :: k in Undone(base, rows, snaps, j) <==> if IsNewer(snaps, j, k) then k in base else k in rows
    ensures forall k :: k in Undone(base, rows, snaps, j) ==>
        Undone(base, rows, snaps, j)[k] == if IsNewer(snaps, j, k) then base[k] else rows[k]
    decreases |snaps| - j
  {
    if j < |snaps| {
      UndoneContents(base, rows, snaps, j + 1);
      forall k ensures IsNewer(snaps, j, k) <==> IsNewer(snaps, j + 1, k) || snaps[j].key == k {
        if i :| j <= i < |snaps| && snaps[i].key == k { assert i == j || (j + 1 <= i < |snaps| && snaps[i].key == k); }
      }
    }
  }

  /** Undoing everything gives the baseline. */
  lemma AllUndoneIsBaseline(base: Rows, s: State)
    requires Inv(base, s)
    ensures Undone(base, s.rows, s.snaps, 0) == base
  {
    UndoneContents(base, s.rows, s.snaps, 0);
    var u := Undone(base, s.rows, s.snaps, 0);
    forall k ensures IsNewer(s.snaps, 0, k) <==> HasSnapshot(s.snaps, k) {}
    assert forall k :: k in u <==> k in base;
  }

  // ----- conflicts -----

  /** The current row of an entity with an older snapshot stands in the way of undoing a newer one:
      it references the entity about to be removed, or holds the name about to be restored. */
  predicate Conflict(rows: Rows, older: Snapshot, newer: Snapshot) {
    older.key in rows &&
    if newer.change == Created then References(rows[older.key], newer.key)
    else newer.data.Some? && Clash(rows[older.key], newer.data.value)
  }

  predicate NoConflictAt(s: State, j: nat)
    requires j < |s.snaps|
  {
    forall i :: 0 <= i < j ==> !Conflict(s.rows, s.snaps[i], s.snaps[j])
  }

  predicate NoConflict(s: State) { forall j :: 0 <= j < |s.snaps| ==> NoConflictAt(s, j) }

  /** Entities with an older snapshot, and the one being undone, still have their current row... */
  lemma OlderView(base: Rows, s: State, i: nat, j: nat)
    requires Inv(base, s) && i <= j < |s.snaps|
    ensures var u := Undone(base, s.rows, s.snaps, j + 1);
        s.snaps[i].key in u && u[s.snaps[i].key] == s.rows[s.snaps[i].key]
  {
    UndoneContents(base, s.rows, s.snaps, j + 1);
    assert SnapshotOk(base, s.rows, s.snaps[i]);
    assert !IsNewer(s.snaps, j + 1, s.snaps[i].key);
  }

  /** ...and every other entity is at the baseline. */
  lemma UndoneView(base: Rows, s: State, j: nat, p: Key) returns (i: int)
    requires Inv(base, s) && j < |s.snaps| && p in Undone(base, s.rows, s.snaps, j + 1)
    ensures var u := Undone(base, s.rows, s.snaps, j + 1);
      if i < 0 then p in base && u[p] == base[p] else i <= j && s.snaps[i].key == p
  {
    UndoneContents(base, s.rows, s.snaps, j + 1);
    if IsNewer(s.snaps, j + 1, p) || !HasSnapshot(s.snaps, p) {
      i := -1;
    } else {
      i :| 0 <= i < |s.snaps| && s.snaps[i].key == p;
    }
  }

  lemma SelfFree(r: Row, k: Key)
    requires Fits(k, r)
    ensures !References(r, k)
  {
  }

  lemma ReferencedMeansConflict(base: Rows, s: State, j: nat)
    requires NothingAwaits(base, s) && Inv(base, s) && j < |s.snaps| && s.snaps[j].change == Created
    requires IsReferenced(Undone(base, s.rows, s.snaps, j + 1), s.snaps[j].key)
    ensures !NoConflictAt(s, j)
  {
    var u, k := Undone(base, s.rows, s.snaps, j + 1), s.snaps[j].key;
    var p :| p in u && References(u[p], k);
    var i := UndoneView(base, s, j, p);
    assert SnapshotOk(base, s.rows, s.snaps[j]);
    if i >= 0 {
      OlderView(base, s, i, j);
      assert Fits(k, s.rows[k]);
      SelfFree(s.rows[k], k);
      assert i != j;
      assert Conflict(s.rows, s.snaps[i], s.snaps[j]);
    }
  }

  /** A created entity can be removed exactly when no older entity references it. */
  lemma UndoCreateExact(base: Rows, s: State, j: nat)
    requires NothingAwaits(base, s) && Inv(base, s) && j < |s.snaps| && s.snaps[j].change == Created
    ensures Undo(Undone(base, s.rows, s.snaps, j + 1), s.snaps[j])
         == if NoConflictAt(s, j) then Some(Undone(base, s.rows, s.snaps, j)) else None
  {
    var u, k := Undone(base, s.rows, s.snaps, j + 1), s.snaps[j].key;
    assert SnapshotOk(base, s.rows, s.snaps[j]);
    if IsReferenced(u, k) { ReferencedMeansConflict(base, s, j); }
    forall i | 0 <= i < j && Conflict(s.rows, s.snaps[i], s.snaps[j]) ensures IsReferenced(u, k) {
      OlderView(base, s, i, j);
      assert References(u[s.snaps[i].key], k);
    }
  }

  lemma RowsDiffer(base: Rows, p: Key, k: Key)
    requires NoClashes(base) && p in base && k in base && p != k
    ensures !Clash(base[p], base[k])
  {
  }

  lemma TakenMeansConflict(base: Rows, s: State, j: nat)
    requires NoClashes(base) && Inv(base, s) && j < |s.snaps| && s.snaps[j].change != Created
        && s.snaps[j].key in base
    requires Taken(Undone(base, s.rows, s.snaps, j + 1), s.snaps[j].key, base[s.snaps[j].key])
    ensures !NoConflictAt(s, j)
  {
    var u, k := Undone(base, s.rows, s.snaps, j + 1), s.snaps[j].key;
    var p :| p in u && p != k && Clash(u[p], base[k]);
    var i := UndoneView(base, s, j, p);
    if i < 0 {
      RowsDiffer(base, p, k);
    } else {
      HolderConflicts(base, s, i, j);
    }
  }

  lemma HolderConflicts(base: Rows, s: State, i: nat, j: nat)
    requires Inv(base, s) && i <= j < |s.snaps| && s.snaps[j].change != Created && s.snaps[i].key != s.snaps[j].key
    requires s.snaps[j].key in base && s.snaps[i].key in Undone(base, s.rows, s.snaps, j + 1)
    requires Clash(Undone(base, s.rows, s.snaps, j + 1)[s.snaps[i].key], base[s.snaps[j].key])
    ensures i < j && Conflict(s.rows, s.snaps[i], s.snaps[j])
  {
    OlderView(base, s, i, j);
    assert SnapshotOk(base, s.rows, s.snaps[j]);
  }

  lemma ForeignKeysStay(base: Rows, s: State, j: nat, r: Row)
    requires Inv(base, s) && j <= |s.snaps| && ForeignKeysHold(base, r)
    ensures ForeignKeysHold(Undone(base, s.rows, s.snaps, j), r)
  {
    UndoneContents(base, s.rows, s.snaps, j);
  }

  lemma HolderTakes(base: Rows, s: State, i: nat, j: nat)
    requires Inv(base, s) && i < j < |s.snaps| && s.snaps[j].change != Created
    requires Conflict(s.rows, s.snaps[i], s.snaps[j])
    ensures s.snaps[j].key in base
    ensures Taken(Undone(base, s.rows, s.snaps, j + 1), s.snaps[j].key, base[s.snaps[j].key])
  {
    assert SnapshotOk(base, s.rows, s.snaps[j]);
    OlderView(base, s, i, j);
    assert Clash(Undone(base, s.rows, s.snaps, j + 1)[s.snaps[i].key], base[s.snaps[j].key]);
  }

  /** The row a snapshot restores is the baseline row, in place of the current one. */
  lemma UndoRestores(base: Rows, s: State, j: nat)
    requires Inv(base, s) && j < |s.snaps| && s.snaps[j].change != Created
    requires s.snaps[j].key in base ==> Fits(s.snaps[j].key, base[s.snaps[j].key])
    ensures var u, k := Undone(base, s.rows, s.snaps, j + 1), s.snaps[j].key;
      && k in base && k in u
      && Undo(u, s.snaps[j]) == if Storable(u, k, base[k]) then Some(Undone(base, s.rows, s.snaps, j)) else None
  {
    var u, k := Undone(base, s.rows, s.snaps, j + 1), s.snaps[j].key;
    assert SnapshotOk(base, s.rows, s.snaps[j]);
    OlderView(base, s, j, j);
    RestoredIsOriginal(u[k], base[k]);
    assert k.kind != PeerK;
  }

  /** A changed entity can be restored exactly when no older entity holds its name. */
  lemma UndoChangeExact(base: Rows, s: State, j: nat)
    requires Restorable(base) && Inv(base, s) && j < |s.snaps| && s.snaps[j].change != Created
    ensures Undo(Undone(base, s.rows, s.snaps, j + 1), s.snaps[j])
         == if NoConflictAt(s, j) then Some(Undone(base, s.rows, s.snaps, j)) else None
  {
    var u, k := Undone(base, s.rows, s.snaps, j + 1), s.snaps[j].key;
    UndoRestores(base, s, j);
    ForeignKeysStay(base, s, j + 1, base[k]);
    if Taken(u, k, base[k]) { TakenMeansConflict(base, s, j); }
    forall i | 0 <= i < j && Conflict(s.rows, s.snaps[i], s.snaps[j]) ensures Taken(u, k, base[k]) {
      HolderTakes(base, s, i, j);
    }
  }

  lemma UndoExact(base: Rows, s: State, j: nat)
    requires Restorable(base) && NothingAwaits(base, s) && Inv(base, s) && j < |s.snaps|
    ensures Undo(Undone(base, s.rows, s.snaps, j + 1), s.snaps[j])
         == if NoConflictAt(s, j) then Some(Undone(base, s.rows, s.snaps, j)) else None
  {
    if s.snaps[j].change == Created { UndoCreateExact(base, s, j); } else { UndoChangeExact(base, s, j); }
  }

  lemma UndoAllStep(rows: Rows, snaps: seq<Snapshot>, j: nat)
    requires 0 < j <= |snaps|
    ensures UndoAll(rows, snaps[..j]) == var r := Undo(rows, snaps[j - 1]);
        if r.None? then None else UndoAll(r.value, snaps[..j - 1])
  {
    assert snaps[..j][..j - 1] == snaps[..j - 1];
  }

  predicate NoConflictBelow(s: State, j: nat)
    requires j <= |s.snaps|
  {
    j == 0 || (NoConflictAt(s, j - 1) && NoConflictBelow(s, j - 1))
  }

  lemma {:induction false} UndoAllExact(base: Rows, s: State, j: nat)
    requires Restorable(base) && NothingAwaits(base, s) && Inv(base, s) && j <= |s.snaps|
    ensures UndoAll(Undone(base, s.rows, s.snaps, j), s.snaps[..j])
         == if NoConflictBelow(s, j) then Some(base) else None
  {
    if j == 0 {
      AllUndoneIsBaseline(base, s);
      assert s.snaps[..0] == [];
    } else {
      UndoAllStep(Undone(base, s.rows, s.snaps, j), s.snaps, j);
      UndoExact(base, s, j - 1);
      UndoAllExact(base, s, j - 1);
    }
  }

  lemma {:induction false} BelowMeansAll(s: State, j: nat)
    requires j <= |s.snaps|
    ensures NoConflictBelow(s, j) <==> forall i :: 0 <= i < j ==> NoConflictAt(s, i)
  {
    if j > 0 { BelowMeansAll(s, j - 1); }
  }

  /** Rollback succeeds exactly when there is no conflict; then it restores the baseline and empties
      the snapshot table, and otherwise it changes nothing. */
  lemma RollbackOver(base: Rows, s: State)
    requires Restorable(base) && NothingAwaits(base, s) && Inv(base, s)
    ensures RollbackAll(s) == if NoConflict(s) then (true, State(base, [])) else (false, s)
  {
    assert s.snaps[..|s.snaps|] == s.snaps;
    UndoAllExact(base, s, |s.snaps|);
    BelowMeansAll(s, |s.snaps|);
  }

  lemma RollbackExact(base: Rows, s: State)
    requires Baseline(base) && Inv(base, s)
    ensures RollbackAll(s) == if NoConflict(s) then (true, State(base, [])) else (false, s)
  {
    BaselineIsRestorable(base);
    BaselineAwaitsNothing(base, s);
    RollbackOver(base, s);
  }

  // ----- undoing one entity -----

  lemma RollbackEntityInv(base: Rows, s: State, k: Key)
    requires Inv(base, s)
    ensures Inv(base, RollbackEntity(s, k).1)
    ensures RollbackEntity(s, k).0 ==> var t := RollbackEntity(s, k).1;
      !HasSnapshot(t.snaps, k) && (k in t.rows <==> k in base) && (k in base ==> t.rows[k] == base[k])
  {
    if RollbackEntity(s, k).0 {
      var i := IndexOf(s.snaps, k);
      assert SnapshotOk(base, s.rows, s.snaps[i]);
      if s.snaps[i].change != Created { RestoredIsOriginal(s.rows[k], base[k]); }
      DropSnapshotInv(base, s, i, RollbackEntity(s, k).1.rows);
      DropOne(s.snaps, i, k);
    }
  }

  /** Putting one entity back and dropping its snapshot keeps the invariant. */
  lemma DropSnapshotInv(base: Rows, s: State, i: nat, rows: Rows)
    requires Inv(base, s) && i < |s.snaps|
    requires var k := s.snaps[i].key; rows == if k in base then s.rows[k := base[k]] else s.rows - {k}
    requires var k := s.snaps[i].key; k in base ==> Fits(k, base[k])
    ensures Inv(base, State(rows, s.snaps[..i] + s.snaps[i + 1..]))
  {
    DropSnapshotRows(base, s, i, rows);
    DropSnapshotTable(base, s, i, rows);
  }

  lemma DropSnapshotRows(base: Rows, s: State, i: nat, rows: Rows)
    requires Inv(base, s) && i < |s.snaps|
    requires var k := s.snaps[i].key; rows == if k in base then s.rows[k := base[k]] else s.rows - {k}
    ensures forall h :: h in rows && !HasSnapshot(s.snaps[..i] + s.snaps[i + 1..], h) ==>
        h in base && rows[h] == base[h]
  {
    var k, snaps := s.snaps[i].key, s.snaps[..i] + s.snaps[i + 1..];
    forall h | h in rows && !HasSnapshot(snaps, h) ensures h in base && rows[h] == base[h] {
      if h != k {
        DropOne(s.snaps, i, h);
        assert h in s.rows && !HasSnapshot(s.snaps, h);
      }
    }
  }

  lemma DropSnapshotTable(base: Rows, s: State, i: nat, rows: Rows)
    requires Inv(base, s) && i < |s.snaps|
    requires var k := s.snaps[i].key; rows == if k in base then s.rows[k := base[k]] else s.rows - {k}
    ensures var snaps := s.snaps[..i] + s.snaps[i + 1..];
      && (forall m :: 0 <= m < |snaps| ==> SnapshotOk(base, rows, snaps[m]))
      && (forall m, n :: 0 <= m < n < |snaps| ==> snaps[m].key != snaps[n].key)
  {
    var snaps := s.snaps[..i] + s.snaps[i + 1..];
    forall m | 0 <= m < |snaps| ensures SnapshotOk(base, rows, snaps[m]) {
      KeptSnapshot(s.snaps, i, m);
      assert SnapshotOk(base, s.rows, s.snaps[if m < i then m else m + 1]);
    }
    forall m, n | 0 <= m < n < |snaps| ensures snaps[m].key != snaps[n].key {
      KeptSnapshot(s.snaps, i, m);
      KeptSnapshot(s.snaps, i, n);
    }
  }

  lemma KeptSnapshot(snaps: seq<Snapshot>, i: nat, m: nat)
    requires i < |snaps| && m < |snaps| - 1
    ensures (snaps[..i] + snaps[i + 1..])[m] == snaps[if m < i then m else m + 1]
  {
  }

  lemma DropOne(snaps: seq<Snapshot>, i: nat, h: Key)
    requires i < |snaps| && forall a, b :: 0 <= a < b < |snaps| ==> snaps[a].key != snaps[b].key
    ensures HasSnapshot(snaps[..i] + snaps[i + 1..], h) <==> HasSnapshot(snaps, h) && h != snaps[i].key
  {
    var t := snaps[..i] + snaps[i + 1..];
    if m :| 0 <= m < |t| && t[m].key == h { assert t[m] == snaps[if m < i then m else m + 1]; }
    if h != snaps[i].key && HasSnapshot(snaps, h) {
      var m :| 0 <= m < |snaps| && snaps[m].key == h;
      assert t[if m < i then m else m - 1] == snaps[m];
    }
  }

  // ----- runs -----

  datatype Step = Do(e: Edit) | UndoEntity(k: Key) | UndoEverything

  function Take(s: State, step: Step): State {
    match step
    case Do(e) => Perform(s, e)
    case UndoEntity(k) => RollbackEntity(s, k).1
    case UndoEverything => RollbackAll(s).1
  }

  function Run(s: State, steps: seq<Step>): State {
    if steps == [] then s else Take(Run(s, steps[..|steps| - 1]), steps[|steps| - 1])
  }

  lemma {:induction false} RunInv(base: Rows, steps: seq<Step>)
    requires Baseline(base)
    ensures Inv(base, Run(State(base, []), steps))
  {
    if steps == [] {
      StartInv(base);
    } else {
      var before := steps[..|steps| - 1];
      RunInv(base, before);
      var t := Run(State(base, []), before);
      match steps[|steps| - 1]
      case Do(e) => PerformInv(base, t, e);
      case UndoEntity(k) => RollbackEntityInv(base, t, k);
      case UndoEverything => RollbackExact(base, t); StartInv(base);
    }
  }

  /** Over every run of edits and rollbacks from a state without snapshots: whenever the snapshot
      table is empty the tables are at the baseline, and a rollback returns them to it exactly when
      no older entity stands in the way, changing nothing otherwise. */
  lemma RollbackRestoresBaseline(base: Rows, steps: seq<Step>)
    requires Baseline(base)
    ensures var s := Run(State(base, []), steps);
      && (s.snaps == [] ==> s.rows == base)
      && RollbackAll(s) == (if NoConflict(s) then (true, State(base, [])) else (false, s))
  {
    RunInv(base, steps);
    var s := Run(State(base, []), steps);
    RollbackExact(base, s);
    if s.snaps == [] { assert forall k :: k in s.rows <==> k in base; }
  }

  // ----- the condition can fail -----

  const WEB := StoredService("web", "80", "", "tcp", "", "", false, false, false)
  const RULE :=
    StoredPolicy("rule", "", ToSpecial(6), ToSpecial(6), 1, "", "", "ACCEPT", 1, true, "both", "both", false)
  const TEAM := StoredGroup("team", "", false, map[], false)

  function BlockedBase(): Rows { map[Key(ServiceK, 1) := ServiceRow(WEB), Key(PolicyK, 2) := PolicyRow(RULE)] }

  function Blocked(): State {
    State(BlockedBase()[Key(GroupK, 3) := GroupRow(TEAM)]
                       [Key(PolicyK, 2) := PolicyRow(RULE.(source := ToRow(Key(GroupK, 3))))],
          [Snapshot(Key(PolicyK, 2), Updated, Some(PolicyRow(RULE))), Snapshot(Key(GroupK, 3), Created, None)])
  }

  const G3 := Key(GroupK, 3)
  const P2 := Key(PolicyK, 2)
  const FIRST := Snapshot(P2, Updated, Some(PolicyRow(RULE)))

  function Patched(): State { State(BlockedBase()[P2 := PolicyRow(RULE.(enabled := false))], [FIRST]) }

  function WithTeam(): State { State(Patched().rows[G3 := GroupRow(TEAM)], [FIRST, Snapshot(G3, Created, None)]) }

  lemma PatchStep()
    ensures Perform(State(BlockedBase(), []), PatchEnabled(2, false)) == Patched()
  {
  }

  lemma CreateStep()
    ensures Perform(Patched(), Create(G3, GroupRow(TEAM))) == WithTeam()
  {
    assert G3 !in Patched().rows;
    assert !Taken(Patched().rows, G3, GroupRow(TEAM));
    assert !HasSnapshot(Patched().snaps, G3);
  }

  lemma PointStep()
    ensures Perform(WithTeam(), UpdatePolicy(2, RULE.(source := ToRow(G3)))) == Blocked()
  {
    var r := PolicyRow(RULE.(source := ToRow(G3)));
    assert !Taken(WithTeam().rows, P2, r);
    assert Key(ServiceK, 1) in WithTeam().rows;
    assert WithTeam().snaps[0].key == P2 && HasSnapshot(WithTeam().snaps, P2);
    assert WithTeam().rows[P2 := r] == Blocked().rows;
  }

  lemma BlockedBaseIsBaseline()
    ensures Baseline(BlockedBase())
  {
  }

  /** A policy edited before a group is created and pointed at the group afterwards keeps its older
      snapshot, so the group cannot be removed: this run of ordinary edits cannot be rolled back. */
  lemma RollbackCanBeBlocked()
    ensures Baseline(BlockedBase())
    ensures Run(State(BlockedBase(), []), [Do(PatchEnabled(2, false)), Do(Create(G3, GroupRow(TEAM))),
                                           Do(UpdatePolicy(2, RULE.(source := ToRow(G3))))]) == Blocked()
    ensures RollbackAll(Blocked()) == (false, Blocked())
  {
    BlockedBaseIsBaseline();
    PatchStep();
    CreateStep();
    PointStep();
    var e1, e2, e3 := PatchEnabled(2, false), Create(G3, GroupRow(TEAM)), UpdatePolicy(2, RULE.(source := ToRow(G3)));
    RunThree(State(BlockedBase(), []), e1, e2, e3);
    RunInv(BlockedBase(), [Do(e1), Do(e2), Do(e3)]);
    RollbackExact(BlockedBase(), Blocked());
    assert Conflict(Blocked().rows, Blocked().snaps[0], Blocked().snaps[1]);
    assert !NoConflictAt(Blocked(), 1);
  }

  lemma RunThree(s: State, e1: Edit, e2: Edit, e3: Edit)
    ensures Run(s, [Do(e1), Do(e2), Do(e3)]) == Perform(Perform(Perform(s, e1), e2), e3)
  {
    var steps := [Do(e1), Do(e2), Do(e3)];
    assert steps[..2] == [Do(e1), Do(e2)] && [Do(e1), Do(e2)][..1] == [Do(e1)] && [Do(e1)][..0] == [];
    assert Run(s, [Do(e1)]) == Perform(s, e1);
    assert Run(s, [Do(e1), Do(e2)]) == Perform(Perform(s, e1), e2);
  }
}

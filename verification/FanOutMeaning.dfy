/** Which peers a change reaches, read off the columns of the tables. */
module FanOutMeaning {
  import opened Catalog
  import opened PolicyMeaning
  import opened MeaningProofs
  import opened FanOut
  import opened Bundle

  ghost predicate HasRow(db: Db, q: int) { exists i :: 0 <= i < |db.peers| && db.peers[i].id == q }

  /** The end is there: the peer has a row, the group is live. */
  ghost predicate EndExists(db: Db, e: End) {
    match e.kind
    case PeerKind => HasRow(db, e.id)
    case GroupKind => LiveGroup(db, e.id)
    case SpecialKind => true
  }

  predicate IsAllPeers(e: End) { e.kind == SpecialKind && e.id == 7 }

  /** A policy reaches every peer when one of its ends is all peers, and the peers of its two ends otherwise;
      in both cases only peers that have a row. */
  ghost predicate Reaches(db: Db, pol: Policy, q: int) {
    && HasRow(db, q)
    && (Names(db, pol.source, q) || Names(db, pol.target, q) || IsAllPeers(pol.source) || IsAllPeers(pol.target))
  }

  ghost predicate Whole(db: Db, pol: Policy) {
    !pol.deleted && EndExists(db, pol.source) && EndExists(db, pol.target)
  }

  lemma {:induction false} FoundIffRow(peers: seq<Peer>, q: int)
    ensures FindPeer(peers, q).Some? <==> exists i :: 0 <= i < |peers| && peers[i].id == q
  {
    if peers != [] {
      FoundIffRow(peers[1..], q);
      if i :| 0 <= i < |peers| && peers[i].id == q { assert i > 0 ==> peers[1..][i - 1].id == q; }
      if i :| 0 <= i < |peers[1..]| && peers[1..][i].id == q { assert peers[i + 1].id == q; }
    }
  }

  lemma EndPeersOnColumns(db: Db, e: End)
    ensures EndPeers(db, e).Ok? <==> EndExists(db, e)
    ensures EndPeers(db, e).Ok? ==> forall q :: q in EndPeers(db, e).value <==> Names(db, e, q) && HasRow(db, q)
  {
    forall q ensures FindPeer(db.peers, q).Some? <==> HasRow(db, q) { FoundIffRow(db.peers, q); }
    forall q ensures Names(db, e, q) <==> EndHas(db, e, q) { NamesIsEndHas(db, e, q); }
  }

  /** `GetAffectedPeersByPolicy` on the columns: it fails exactly when the policy is deleted or one of its ends is
      gone, and otherwise returns, in ascending order, exactly the peers the policy reaches. */
  lemma AffectedOnColumns(db: Db, pol: Policy, q: int)
    ensures Resolves(db, pol) <==> Whole(db, pol)
    ensures Affects(db, pol, q) <==> Whole(db, pol) && Reaches(db, pol, q)
  {
    EndPeersOnColumns(db, pol.source);
    EndPeersOnColumns(db, pol.target);
    if Resolves(db, pol) {
      var s := AffectedSlices(db, pol).value;
      AllIdsAreRows(db, q);
      assert q in s[0] <==> Names(db, pol.source, q) && HasRow(db, q);
      assert q in s[1] <==> Names(db, pol.target, q) && HasRow(db, q);
      assert |s| == 3 ==> s[2] == AllIds(db.peers);
      assert FansOutToAll(pol) <==> IsAllPeers(pol.source) || IsAllPeers(pol.target);
      assert InSlices(q, s) <==> q in s[0] || q in s[1] || (|s| == 3 && q in s[2]);
    }
  }

  lemma AllIdsAreRows(db: Db, q: int)
    ensures q in AllIds(db.peers) <==> HasRow(db, q)
  {
    var ids := AllIds(db.peers);
    if q in ids { var i :| 0 <= i < |ids| && ids[i] == q; assert db.peers[i].id == q; }
    if i :| 0 <= i < |db.peers| && db.peers[i].id == q { assert ids[i] == q; }
  }

  /** A policy with all peers at either end reaches exactly the peers of the table. */
  lemma AllPeersReachesEveryRow(db: Db, pol: Policy, q: int)
    requires Resolves(db, pol) && (IsAllPeers(pol.source) || IsAllPeers(pol.target))
    ensures Affects(db, pol, q) <==> HasRow(db, q)
  {
    AffectedOnColumns(db, pol, q);
  }

  predicate OnGroup(pol: Policy, g: int) {
    !pol.deleted && ((pol.source.kind == GroupKind && pol.source.id == g)
        || (pol.target.kind == GroupKind && pol.target.id == g))
  }

  ghost predicate GroupReaches(db: Db, g: int, q: int) {
    exists i :: 0 <= i < |db.policies| && OnGroup(db.policies[i], g) && Whole(db, db.policies[i])
        && Reaches(db, db.policies[i], q)
  }

  /** The fan-out of a group edit: the peers reached by the policies, disabled ones too, that name the group at
      either end and whose ends are there. It is reported incomplete when one of those policies has lost an end. */
  lemma GroupFanOutOnColumns(db: Db, g: int, q: int)
    ensures InFanOut(db, g, q) <==> GroupReaches(db, g, q)
    ensures FanOutComplete(db, g) <==>
      forall i :: 0 <= i < |db.policies| && OnGroup(db.policies[i], g) ==> Whole(db, db.policies[i])
  {
    forall pol ensures RefersTo(pol, g) <==> OnGroup(pol, g) {}
    forall pol ensures Resolves(db, pol) <==> Whole(db, pol) { AffectedOnColumns(db, pol, q); }
    forall pol ensures Affects(db, pol, q) <==> Whole(db, pol) && Reaches(db, pol, q) { AffectedOnColumns(db, pol, q); }
  }

  predicate Lists(db: Db, g: int, q: int) { LiveGroup(db, g) && Member(g, q) in db.members }

  /** No policy on the group names the peer, or all peers, at either end. */
  ghost predicate NotNamed(db: Db, g: int, q: int) {
    forall i :: 0 <= i < |db.policies| && OnGroup(db.policies[i], g) ==>
      var pol := db.policies[i];
      !Names(db, pol.source, q) && !Names(db, pol.target, q) && !IsAllPeers(pol.source) && !IsAllPeers(pol.target)
  }

  /** Of the peers whose bundle an edit of the membership changed, the fan-out taken afterwards misses exactly
      those that the edit removed and that no policy on the group names in another way. */
  lemma MissedOnColumns(db1: Db, db2: Db, g: int, q: int)
    requires SameButMembersOf(db1, db2, g) && Compile(db1, q) != Compile(db2, q)
    requires forall i :: 0 <= i < |db2.policies| && OnGroup(db2.policies[i], g) ==> Whole(db2, db2.policies[i])
    ensures !GroupReaches(db2, g, q) <==> Lists(db1, g, q) && !Lists(db2, g, q) && NotNamed(db2, g, q)
  {
    GroupFanOutOnColumns(db2, g, q);
    FanOutAfterEdit(db1, db2, g, q);
    FoundIffRow(db2.peers, q);
  }

  ghost predicate ServiceReaches(db: Db, v: int, q: int) {
    exists i :: 0 <= i < |db.policies| && db.policies[i].service == v && Whole(db, db.policies[i])
        && Reaches(db, db.policies[i], q)
  }

  /** The same for a service edit: policies that use the service. */
  lemma ServiceFanOutOnColumns(db: Db, v: int, q: int)
    ensures InServiceFanOut(db, v, q) <==> ServiceReaches(db, v, q)
  {
    forall pol ensures Affects(db, pol, q) <==> Whole(db, pol) && Reaches(db, pol, q) { AffectedOnColumns(db, pol, q); }
  }
}

/** The transitive group walk behind a recompile: groups linked by a shared member. */
module GroupWalk {
  import opened Catalog
  import Bundle
  import FanOut

  /** The walk's query: another active group with a member in common. */
  predicate Shares(db: Db, g: int, h: int) {
    h != g && Active(db, h) && exists m :: m in db.members && m.group == g && Member(h, m.peer) in db.members
  }

  function SharingAmong(db: Db, g: int, rows: seq<Member>): (r: seq<int>)
    ensures forall h :: h in r <==> exists m :: m in rows && m.group == h && Shares(db, g, h)
    ensures forall i, j :: 0 <= i < j < |r| ==> r[i] != r[j]
  {
    if rows == [] then []
    else
      var n := |rows| - 1;
      assert rows == rows[..n] + [rows[n]];
      var before := SharingAmong(db, g, rows[..n]);
      if Shares(db, g, rows[n].group) && rows[n].group !in before then before + [rows[n].group] else before
  }

  /** `SELECT DISTINCT ... ORDER BY group_id` */
  function Related(db: Db, g: int): (r: seq<int>)
    ensures forall h :: h in r <==> Shares(db, g, h)
    ensures FanOut.Ascending(r)
  {
    var r := SharingAmong(db, g, db.members);
    assert forall h :: Shares(db, g, h) ==> exists m :: m in db.members && m.group == h by {
      forall h | Shares(db, g, h) ensures exists m :: m in db.members && m.group == h {
        var m :| m in db.members && m.group == g && Member(h, m.peer) in db.members;
        assert Member(h, m.peer).group == h;
      }
    }
    FanOut.Sort(r)
  }

  // ----- reachability, defined by paths -----

  predicate IsPath(db: Db, path: seq<int>) {
    path != [] && forall i :: 0 <= i < |path| - 1 ==> Shares(db, path[i], path[i + 1])
  }

  ghost predicate Reachable(db: Db, g: int, h: int) {
    exists path: seq<int> :: IsPath(db, path) && path[0] == g && path[|path| - 1] == h
  }

  lemma ReachesSelf(db: Db, g: int)
    ensures Reachable(db, g, g)
  {
    assert IsPath(db, [g]) && [g][0] == g;
  }

  lemma ReachesVia(db: Db, g: int, h: int, x: int)
    requires Shares(db, g, h) && Reachable(db, h, x)
    ensures Reachable(db, g, x)
  {
    var path :| IsPath(db, path) && path[0] == h && path[|path| - 1] == x;
    var longer := [g] + path;
    forall i | 0 <= i < |longer| - 1 ensures Shares(db, longer[i], longer[i + 1]) {
      if i > 0 { assert longer[i] == path[i - 1] && longer[i + 1] == path[i]; }
    }
    assert IsPath(db, longer) && longer[0] == g && longer[|longer| - 1] == x;
  }

  ghost predicate Closed(db: Db, s: set<int>, part: set<int>) {
    forall x, y :: x in part && Shares(db, x, y) ==> y in s
  }

  lemma {:induction false} ClosedHoldsPaths(db: Db, s: set<int>, path: seq<int>)
    requires Closed(db, s, s) && IsPath(db, path) && path[0] in s
    ensures path[|path| - 1] in s
    decreases |path|
  {
    if |path| > 1 {
      assert Shares(db, path[0], path[0 + 1]);
      assert forall i :: 0 <= i < |path[1..]| ==> path[1..][i] == path[i + 1];
      ClosedHoldsPaths(db, s, path[1..]);
    }
  }

  // ----- the walk -----

  class Walker {
    const db: Db
    var visited: set<int>
    var result: seq<int>

    constructor (db: Db)
      ensures Valid() && this.db == db && visited == {} && result == []
    {
      this.db, visited, result := db, {}, [];
    }

    ghost predicate Valid()
      reads this
    {
      && (forall g :: g in result <==> g in visited)
      && (forall i, j :: 0 <= i < j < |result| ==> result[i] != result[j])
    }

    /** Depth-first: everything newly visited is reachable and has all its neighbours visited. */
    method Walk(gid: int, ghost universe: set<int>)
      requires Valid() && gid in universe && db.groups.Keys <= universe && visited <= universe
      modifies this
      ensures Valid() && old(visited) + {gid} <= visited <= universe
      ensures old(result) <= result
      ensures gid !in old(visited) ==> result[|old(result)|..] != [] && result[|old(result)|] == gid
      ensures Closed(db, visited, visited - old(visited))
      ensures forall x :: x in visited - old(visited) ==> Reachable(db, gid, x)
      decreases universe - visited
    {
      if gid in visited { return; }
      visited := visited + {gid};
      result := result + [gid];
      ReachesSelf(db, gid);
      var related := Related(db, gid);
      assert universe - visited < universe - old(visited) by { assert gid in universe - old(visited); }
      ghost var entry, entryResult := visited, result;
      for k := 0 to |related|
        invariant Valid() && entry <= visited <= universe && entryResult <= result
        invariant forall i :: 0 <= i < k ==> related[i] in visited
        invariant Closed(db, visited, visited - entry)
        invariant forall x :: x in visited - entry ==> Reachable(db, gid, x)
      {
        assert related[k] in related && Shares(db, gid, related[k]);
        ghost var before := visited;
        Walk(related[k], universe);
        forall x | x in visited - before ensures Reachable(db, gid, x) { ReachesVia(db, gid, related[k], x); }
      }
      forall y | Shares(db, gid, y) ensures y in visited {
        assert y in related;
      }
    }
  }

  /** The walk returns, without duplicates and starting group first, exactly the groups reachable
      through shared members. Termination is part of what is proved. */
  method CollectTransitiveGroupIds(db: Db, groupId: int) returns (ids: seq<int>)
    ensures forall x :: x in ids <==> Reachable(db, groupId, x)
    ensures forall i, j :: 0 <= i < j < |ids| ==> ids[i] != ids[j]
    ensures ids != [] && ids[0] == groupId
  {
    var w := new Walker(db);
    w.Walk(groupId, db.groups.Keys + {groupId});
    ids := w.result;
    forall x | Reachable(db, groupId, x) ensures x in ids {
      var path :| IsPath(db, path) && path[0] == groupId && path[|path| - 1] == x;
      ClosedHoldsPaths(db, w.visited, path);
    }
  }

  /** The walk's query on the columns: each group has a member row with the same peer, and the other group is
      not pending delete. Between live groups it works both ways. */
  lemma SharesOnColumns(db: Db, g: int, h: int)
    ensures Shares(db, g, h) <==>
      && h != g && h in db.groups && !db.groups[h].deleted
      && exists i, j :: 0 <= i < |db.members| && 0 <= j < |db.members| && db.members[i].group == g
                        && db.members[j].group == h && db.members[i].peer == db.members[j].peer
    ensures Active(db, g) && Shares(db, g, h) ==> Shares(db, h, g)
  {
    if Shares(db, g, h) {
      var m :| m in db.members && m.group == g && Member(h, m.peer) in db.members;
      var i :| 0 <= i < |db.members| && db.members[i] == m;
      var j :| 0 <= j < |db.members| && db.members[j] == Member(h, m.peer);
      assert db.members[i].group == g && db.members[j].group == h && db.members[i].peer == db.members[j].peer;
      assert Member(g, db.members[j].peer) == m;
    }
    if h in db.groups && !db.groups[h].deleted && h != g {
      forall i, j | 0 <= i < |db.members| && 0 <= j < |db.members| && db.members[i].group == g
                    && db.members[j].group == h && db.members[i].peer == db.members[j].peer
        ensures Shares(db, g, h)
      {
        assert db.members[i] in db.members && db.members[j] == Member(h, db.members[i].peer);
      }
    }
  }

  // ----- what is recompiled -----

  ghost predicate Recompiled(db: Db, groupId: int, q: int) {
    exists g :: Reachable(db, groupId, g) && FanOut.InFanOut(db, g, q)
  }

  /** The policy at index `j` is on one of these groups. */
  predicate OnSome(db: Db, groups: seq<int>, j: nat) {
    j < |db.policies| && exists g :: g in groups && FanOut.RefersTo(db.policies[j], g)
  }

  /** `RecompileAffectedPeers`, up to the compiling: the policies on any group of the walk, each once, and the
      merged peers of those that resolve. */
  method PeersToRecompile(db: Db, groupId: int) returns (peers: seq<int>, failed: bool)
    ensures FanOut.Ascending(peers) && forall q :: q in peers <==> Recompiled(db, groupId, q)
    ensures failed <==> exists g :: Reachable(db, groupId, g) && !FanOut.FanOutComplete(db, g)
  {
    var groups := CollectTransitiveGroupIds(db, groupId);
    var picked := PoliciesOn(db, groups);
    var slices: seq<seq<int>> := [];
    failed := false;
    for i := 0 to |picked|
      invariant forall q :: FanOut.InSlices(q, slices) <==>
          exists k :: 0 <= k < i && FanOut.Affects(db, db.policies[picked[k]], q)
      invariant failed <==> exists k :: 0 <= k < i && !FanOut.Resolves(db, db.policies[picked[k]])
    {
      var r := FanOut.GetAffectedPeersByPolicy(db, db.policies[picked[i]]);
      if r.Err? {
        failed := true;
      } else {
        forall q ensures FanOut.InSlices(q, slices + [r.value]) <==> FanOut.InSlices(q, slices) || q in r.value {
          FanOut.OneMoreSlice(q, slices, r.value);
        }
        slices := slices + [r.value];
      }
    }
    peers := FanOut.MergePeerIds(slices);
    forall q ensures FanOut.InSlices(q, slices) <==> Recompiled(db, groupId, q) {
      PickedMeansRecompiled(db, groupId, groups, picked, q);
    }
    PickedMeansRecompiled(db, groupId, groups, picked, 0);
  }

  lemma PickedMeansRecompiled(db: Db, groupId: int, groups: seq<int>, picked: seq<nat>, q: int)
    requires forall x :: x in groups <==> Reachable(db, groupId, x)
    requires forall k :: 0 <= k < |picked| ==> picked[k] < |db.policies|
    requires forall j: nat :: j in picked <==> OnSome(db, groups, j)
    ensures (exists k :: 0 <= k < |picked| && FanOut.Affects(db, db.policies[picked[k]], q)) <==>
        Recompiled(db, groupId, q)
    ensures (exists k :: 0 <= k < |picked| && !FanOut.Resolves(db, db.policies[picked[k]]))
       <==> exists g :: Reachable(db, groupId, g) && !FanOut.FanOutComplete(db, g)
  {
    forall k | 0 <= k < |picked|
      ensures exists g :: Reachable(db, groupId, g) && FanOut.RefersTo(db.policies[picked[k]], g)
    {
      assert picked[k] in picked;
    }
    forall g, p | Reachable(db, groupId, g) && p in db.policies && FanOut.RefersTo(p, g)
      ensures exists k :: 0 <= k < |picked| && db.policies[picked[k]] == p
    {
      var j: nat :| j < |db.policies| && db.policies[j] == p;
      assert OnSome(db, groups, j);
    }
  }

  /** `findPoliciesByGroup` for each group, each policy once. */
  method PoliciesOn(db: Db, groups: seq<int>) returns (picked: seq<nat>)
    ensures forall k :: 0 <= k < |picked| ==> picked[k] < |db.policies|
    ensures forall j: nat :: j in picked <==> OnSome(db, groups, j)
    ensures forall i, j :: 0 <= i < j < |picked| ==> picked[i] != picked[j]
  {
    picked := [];
    var seen: set<nat> := {};
    for i := 0 to |groups|
      invariant forall j :: j in seen <==> j in picked
      invariant forall j: nat :: j in picked <==> OnSome(db, groups[..i], j)
      invariant forall i, j :: 0 <= i < j < |picked| ==> picked[i] != picked[j]
    {
      ghost var before := picked;
      for j := 0 to |db.policies|
        invariant forall j :: j in seen <==> j in picked
        invariant forall k: nat :: k in picked <==> k in before || (k < j && FanOut.RefersTo(db.policies[k], groups[i]))
        invariant forall i, j :: 0 <= i < j < |picked| ==> picked[i] != picked[j]
      {
        if FanOut.RefersTo(db.policies[j], groups[i]) && j !in seen {
          seen := seen + {j};
          picked := picked + [j];
        }
      }
      assert groups[..i + 1] == groups[..i] + [groups[i]];
    }
    assert groups[..|groups|] == groups;
    forall k | 0 <= k < |picked| ensures picked[k] < |db.policies| { assert picked[k] in picked; }
  }

  /** After an edit of a group's members, every peer whose bundle changed is recompiled, unless the edit removed
      it and no policy on any group of the walk reaches it any more. */
  lemma RecompileCovers(db1: Db, db2: Db, g: int, q: int)
    requires FanOut.SameButMembersOf(db1, db2, g) && FanOut.FanOutComplete(db2, g)
    requires Bundle.Compile(db1, q) != Bundle.Compile(db2, q)
    ensures !Recompiled(db2, g, q) <==>
      && IsMember(db1, g, q) && !IsMember(db2, g, q)
      && forall h :: Reachable(db2, g, h) ==> !FanOut.InFanOut(db2, h, q)
  {
    ReachesSelf(db2, g);
    FanOut.FanOutAfterEdit(db1, db2, g, q);
  }
}

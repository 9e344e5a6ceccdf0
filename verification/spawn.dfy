/** `Config::spawn_dial_managers`: index the connected dials by the index
    their status reports, then hand each configured dial manager the dial
    at its configured index, each dial to at most one manager. */
module Spawn {
  import opened Wrappers
  import opened Client
  import opened Metrics

  /** Why spawning failed. */
  datatype SpawnError =
    | ListFailed(error: ApiError)                        // `list_dials` failed
    | StatusFailed(dial: DialHandle, error: ApiError)   // "failed to get status for {id}"
    | NoDialsConnected                                  // "no dials are connected!"

  /** A dial manager task that was started: its name and configuration, and
      the dial it drives. */
  datatype Spawned = Spawned(name: string, config: DialConfig, dial: DialHandle)

  /** The configured managers (`Config::dials`), in the map's iteration order. */
  type Entries = seq<(string, DialConfig)>

  /** The first loop: each listed dial is entered under the index its status
      reports, a later dial replacing an earlier one with the same index;
      the first status that fails ends it. */
  function IndexFrom(acc: map<nat, DialHandle>, listed: seq<Listed>): Result<map<nat, DialHandle>, SpawnError>
    decreases |listed|
  {
    if listed == [] then Ok(acc)
    else match listed[0].status
      case Err(e) => Err(StatusFailed(listed[0].dial, e))
      case Ok(s) => IndexFrom(acc[s.index := listed[0].dial], listed[1..])
  }

  /** The second loop: an entry whose index is still in the map takes that
      dial out of it; any other entry is skipped. */
  function Assign(entries: Entries, m: map<nat, DialHandle>): seq<Spawned>
    decreases |entries|
  {
    if entries == [] then []
    else
      var (name, cfg) := entries[0];
      if cfg.index in m then [Spawned(name, cfg, m[cfg.index])] + Assign(entries[1..], m - {cfg.index})
      else Assign(entries[1..], m)
  }

  /** What spawning comes to, given what `list_dials` returned. */
  function Spawning(entries: Entries, listing: Result<seq<Listed>, ApiError>): (r: Result<seq<Spawned>, SpawnError>)
    ensures r.Ok? ==> |r.value| > 0
  {
    match listing
    case Err(e) => Err(ListFailed(e))
    case Ok(listed) =>
      match IndexFrom(map[], listed)
      case Err(e) => Err(e)
      case Ok(m) =>
        var spawned := Assign(entries, m);
        if |spawned| == 0 then Err(NoDialsConnected) else Ok(spawned)
  }

  /** `spawn_dial_managers`: the tasks it starts, in order, or why it failed. */
  method SpawnDialManagers(entries: Entries, listing: Result<seq<Listed>, ApiError>)
    returns (r: Result<seq<Spawned>, SpawnError>)
    ensures r == Spawning(entries, listing)
  {
    if listing.Err? {
      return Err(ListFailed(listing.error));
    }
    var listed := listing.value;
    var byIndex: map<nat, DialHandle> := map[];
    var i := 0;
    while i < |listed|
      invariant i <= |listed|
      invariant IndexFrom(byIndex, listed[i..]) == IndexFrom(map[], listed)
    {
      assert listed[i..][0] == listed[i] && listed[i..][1..] == listed[i + 1..];
      var dial := listed[i].dial;
      match listed[i].status {
        case Err(e) =>
          return Err(StatusFailed(dial, e));
        case Ok(status) =>
          byIndex := byIndex[status.index := dial];
      }
      i := i + 1;
    }
    assert listed[i..] == [];

    var remaining: map<nat, DialHandle> := byIndex;
    var spawned: seq<Spawned> := [];
    var dialsSpawned := 0;
    var j := 0;
    while j < |entries|
      invariant j <= |entries|
      invariant dialsSpawned == |spawned|
      invariant spawned + Assign(entries[j..], remaining) == Assign(entries, byIndex)
    {
      assert entries[j..][0] == entries[j] && entries[j..][1..] == entries[j + 1..];
      var (name, cfg) := entries[j];
      if cfg.index in remaining {
        spawned := spawned + [Spawned(name, cfg, remaining[cfg.index])];
        remaining := remaining - {cfg.index};
        dialsSpawned := dialsSpawned + 1;
      }
      j := j + 1;
    }
    assert entries[j..] == [];
    assert spawned == Assign(entries, byIndex);
    assert IndexFrom(map[], listed) == Ok(byIndex);
    if dialsSpawned == 0 {
      return Err(NoDialsConnected);
    }
    return Ok(spawned);
  }

  /** The index a dial's status reports. */
  function IndexOf(l: Listed): nat
    requires l.status.Ok?
  {
    l.status.value.index
  }

  predicate AllStatusesOk(listed: seq<Listed>) {
    forall i :: 0 <= i < |listed| ==> listed[i].status.Ok?
  }

  /** Indexing succeeds exactly when every listed dial's status does; when
      it fails, it is with the first failing dial and its error. */
  lemma {:induction false} IndexFromFails(acc: map<nat, DialHandle>, listed: seq<Listed>)
    ensures IndexFrom(acc, listed).Ok? <==> AllStatusesOk(listed)
    ensures IndexFrom(acc, listed).Err? ==>
              exists i :: 0 <= i < |listed| && listed[i].status.Err?
                          && (forall j :: 0 <= j < i ==> listed[j].status.Ok?)
                          && IndexFrom(acc, listed).error == StatusFailed(listed[i].dial, listed[i].status.error)
    decreases |listed|
  {
    if listed != [] {
      IndexFromFails(acc, listed[1..]);
      if listed[0].status.Ok? {
        var acc' := acc[IndexOf(listed[0]) := listed[0].dial];
        IndexFromFails(acc', listed[1..]);
        if IndexFrom(acc, listed).Err? {
          var i :| 0 <= i < |listed[1..]| && listed[1..][i].status.Err?
                   && (forall j :: 0 <= j < i ==> listed[1..][j].status.Ok?)
                   && IndexFrom(acc', listed[1..]).error
                      == StatusFailed(listed[1..][i].dial, listed[1..][i].status.error);
          assert listed[i + 1] == listed[1..][i];
          assert forall j :: 0 <= j < i + 1 ==> listed[j].status.Ok? by {
            forall j | 0 <= j < i + 1 ensures listed[j].status.Ok? {
              if j > 0 { assert listed[j] == listed[1..][j - 1]; }
            }
          }
        }
        if !AllStatusesOk(listed) {
          var k :| 0 <= k < |listed| && listed[k].status.Err?;
          assert listed[1..][k - 1] == listed[k];
        }
      }
    }
  }

  /** No dial with index `k` is listed at or after position `i`: dial `i` is
      the last one reporting its index. */
  predicate LastWithIndex(listed: seq<Listed>, i: nat)
    requires i < |listed| && AllStatusesOk(listed)
  {
    forall j :: i < j < |listed| ==> IndexOf(listed[j]) != IndexOf(listed[i])
  }

  /** When indexing succeeds, the map holds exactly the indices reported
      (besides those it started with), and each index is mapped to the last
      dial that reported it. */
  lemma {:induction false} IndexFromLastWins(acc: map<nat, DialHandle>, listed: seq<Listed>)
    requires AllStatusesOk(listed)
    ensures IndexFrom(acc, listed).Ok?
    ensures var m := IndexFrom(acc, listed).value;
            m.Keys == acc.Keys + set i | 0 <= i < |listed| :: IndexOf(listed[i])
    ensures var m := IndexFrom(acc, listed).value;
            forall i :: 0 <= i < |listed| && LastWithIndex(listed, i) ==> m[IndexOf(listed[i])] == listed[i].dial
    ensures var m := IndexFrom(acc, listed).value;
            forall k :: k in acc && (forall i :: 0 <= i < |listed| ==> IndexOf(listed[i]) != k) ==> m[k] == acc[k]
    decreases |listed|
  {
    if listed != [] {
      var tail := listed[1..];
      assert AllStatusesOk(tail) by {
        forall j | 0 <= j < |tail| ensures tail[j].status.Ok? { assert tail[j] == listed[j + 1]; }
      }
      var acc' := acc[IndexOf(listed[0]) := listed[0].dial];
      IndexFromLastWins(acc', tail);
      var m := IndexFrom(acc', tail).value;
      assert IndexFrom(acc, listed) == Ok(m);
      var reported := set i | 0 <= i < |listed| :: IndexOf(listed[i]);
      var reportedTail := set i | 0 <= i < |tail| :: IndexOf(tail[i]);
      assert reported == {IndexOf(listed[0])} + reportedTail by {
        forall k | k in reported ensures k in {IndexOf(listed[0])} + reportedTail {
          var i :| 0 <= i < |listed| && IndexOf(listed[i]) == k;
          if i > 0 { assert tail[i - 1] == listed[i]; }
        }
        forall k | k in reportedTail ensures k in reported {
          var i :| 0 <= i < |tail| && IndexOf(tail[i]) == k;
          assert tail[i] == listed[i + 1];
        }
      }
      forall i | 0 <= i < |listed| && LastWithIndex(listed, i)
        ensures m[IndexOf(listed[i])] == listed[i].dial
      {
        if i == 0 {
          assert forall j :: 0 <= j < |tail| ==> tail[j] == listed[j + 1];
        } else {
          assert tail[i - 1] == listed[i];
          assert LastWithIndex(tail, i - 1) by {
            forall j | i - 1 < j < |tail| ensures IndexOf(tail[j]) != IndexOf(tail[i - 1]) {
              assert tail[j] == listed[j + 1];
            }
          }
        }
      }
      forall k | k in acc && (forall i :: 0 <= i < |listed| ==> IndexOf(listed[i]) != k)
        ensures m[k] == acc[k]
      {
        assert IndexOf(listed[0]) != k;
        forall i | 0 <= i < |tail| ensures IndexOf(tail[i]) != k { assert tail[i] == listed[i + 1]; }
      }
    }
  }

  /** The indices a sequence of spawned managers were configured with. */
  function Claimed(spawned: seq<Spawned>): set<nat> {
    set a | 0 <= a < |spawned| :: spawned[a].config.index
  }

  /** The indices the configuration asks for. */
  function Wanted(entries: Entries): set<nat> {
    set j | 0 <= j < |entries| :: entries[j].1.index
  }

  predicate DistinctIndices(spawned: seq<Spawned>) {
    forall a, b :: 0 <= a < b < |spawned| ==> spawned[a].config.index != spawned[b].config.index
  }

  /** A manager started for a configured entry, driving the dial listed
      under the entry's index. */
  predicate Drives(s: Spawned, entries: Entries, m: map<nat, DialHandle>) {
    (s.name, s.config) in entries && s.config.index in m && s.dial == m[s.config.index]
  }

  lemma {:induction false} AssignDrives(entries: Entries, m: map<nat, DialHandle>)
    ensures forall a :: 0 <= a < |Assign(entries, m)| ==> Drives(Assign(entries, m)[a], entries, m)
    decreases |entries|
  {
    if entries != [] {
      var (name, cfg) := entries[0];
      var tail := entries[1..];
      assert entries == [entries[0]] + tail;
      if cfg.index in m {
        var m': map<nat, DialHandle> := m - {cfg.index};
        AssignDrives(tail, m');
        var rest := Assign(tail, m');
        assert forall a :: 0 <= a < |rest| ==> Drives(rest[a], tail, m');
        var r := [Spawned(name, cfg, m[cfg.index])] + rest;
        assert Assign(entries, m) == r;
        forall a | 0 <= a < |r| ensures Drives(r[a], entries, m) {
          if a > 0 {
            assert r[a] == rest[a - 1] && Drives(rest[a - 1], tail, m');
          }
        }
      } else {
        AssignDrives(tail, m);
        assert Assign(entries, m) == Assign(tail, m);
      }
    }
  }

  lemma {:induction false} AssignDistinct(entries: Entries, m: map<nat, DialHandle>)
    ensures DistinctIndices(Assign(entries, m))
    decreases |entries|
  {
    if entries != [] {
      var (name, cfg) := entries[0];
      var tail := entries[1..];
      if cfg.index in m {
        var m': map<nat, DialHandle> := m - {cfg.index};
        AssignDistinct(tail, m');
        AssignDrives(tail, m');
        var rest := Assign(tail, m');
        var r := [Spawned(name, cfg, m[cfg.index])] + rest;
        assert Assign(entries, m) == r;
        forall a | 0 < a < |r| ensures r[a].config.index != cfg.index {
          assert r[a] == rest[a - 1] && Drives(rest[a - 1], tail, m');
        }
        forall a, b | 0 <= a < b < |r| ensures r[a].config.index != r[b].config.index {
          if a > 0 { assert r[a] == rest[a - 1] && r[b] == rest[b - 1]; }
        }
      } else {
        AssignDistinct(tail, m);
        assert Assign(entries, m) == Assign(tail, m);
      }
    }
  }

  /** Every manager started is a configured one, driving the dial listed
      under its configured index; no two drive the same index. */
  lemma AssignSound(entries: Entries, m: map<nat, DialHandle>)
    ensures var r := Assign(entries, m);
            forall a :: 0 <= a < |r| ==> (r[a].name, r[a].config) in entries
    ensures var r := Assign(entries, m);
            forall a :: 0 <= a < |r| ==> r[a].config.index in m && r[a].dial == m[r[a].config.index]
    ensures DistinctIndices(Assign(entries, m))
  {
    AssignDrives(entries, m);
    AssignDistinct(entries, m);
  }

  /** Exactly the configured indices that have a dial are claimed. */
  lemma {:induction false} AssignClaims(entries: Entries, m: map<nat, DialHandle>)
    ensures Claimed(Assign(entries, m)) == Wanted(entries) * m.Keys
    decreases |entries|
  {
    if entries != [] {
      var (name, cfg) := entries[0];
      var tail := entries[1..];
      assert Wanted(entries) == {cfg.index} + Wanted(tail) by {
        forall k | k in Wanted(entries) ensures k in {cfg.index} + Wanted(tail) {
          var j :| 0 <= j < |entries| && entries[j].1.index == k;
          if j > 0 { assert tail[j - 1] == entries[j]; }
        }
        forall k | k in Wanted(tail) ensures k in Wanted(entries) {
          var j :| 0 <= j < |tail| && tail[j].1.index == k;
          assert tail[j] == entries[j + 1];
        }
      }
      if cfg.index in m {
        var m' := m - {cfg.index};
        AssignClaims(tail, m');
        var rest := Assign(tail, m');
        var r := [Spawned(name, cfg, m[cfg.index])] + rest;
        assert Claimed(r) == {cfg.index} + Claimed(rest) by {
          forall k | k in Claimed(r) ensures k in {cfg.index} + Claimed(rest) {
            var a :| 0 <= a < |r| && r[a].config.index == k;
            if a > 0 { assert r[a] == rest[a - 1]; }
          }
          forall k | k in Claimed(rest) ensures k in Claimed(r) {
            var a :| 0 <= a < |rest| && rest[a].config.index == k;
            assert r[a + 1] == rest[a];
          }
          assert r[0].config.index == cfg.index;
        }
      } else {
        AssignClaims(tail, m);
      }
    }
  }

  lemma {:induction false} DistinctClaimedCount(spawned: seq<Spawned>)
    requires DistinctIndices(spawned)
    ensures |Claimed(spawned)| == |spawned|
    decreases |spawned|
  {
    if spawned != [] {
      var init := spawned[..|spawned| - 1];
      var last := spawned[|spawned| - 1];
      DistinctClaimedCount(init);
      assert Claimed(spawned) == Claimed(init) + {last.config.index} by {
        forall k | k in Claimed(spawned) ensures k in Claimed(init) + {last.config.index} {
          var a :| 0 <= a < |spawned| && spawned[a].config.index == k;
          if a < |spawned| - 1 { assert init[a] == spawned[a]; }
        }
      }
      assert last.config.index !in Claimed(init);
    }
  }

  /** The number of managers started is the number of distinct configured
      indices that have a dial, and so never more than the number of dials. */
  lemma AssignCount(entries: Entries, m: map<nat, DialHandle>)
    ensures |Assign(entries, m)| == |Wanted(entries) * m.Keys|
    ensures |Assign(entries, m)| <= |m|
  {
    AssignSound(entries, m);
    AssignClaims(entries, m);
    DistinctClaimedCount(Assign(entries, m));
    assert Wanted(entries) * m.Keys <= m.Keys;
    SubsetCard(Wanted(entries) * m.Keys, m.Keys);
  }

  lemma {:induction false} SubsetCard(a: set<nat>, b: set<nat>)
    requires a <= b
    ensures |a| <= |b|
    decreases |b|
  {
    if a != {} {
      var x :| x in a;
      SubsetCard(a - {x}, b - {x});
    }
  }

  /** Spawning fails with "no dials are connected!" exactly when indexing
      succeeds but no configured index has a dial. */
  lemma NoDialsConnectedIff(entries: Entries, listed: seq<Listed>)
    ensures Spawning(entries, Ok(listed)) == Err(NoDialsConnected) <==>
              IndexFrom(map[], listed).Ok? && Wanted(entries) * IndexFrom(map[], listed).value.Keys == {}
  {
    IndexFromFails(map[], listed);
    if AllStatusesOk(listed) {
      AssignCount(entries, IndexFrom(map[], listed).value);
    }
  }

  /** A failing status aborts spawning before any manager is started. */
  lemma StatusFailureStartsNothing(entries: Entries, listed: seq<Listed>)
    requires !AllStatusesOk(listed)
    ensures Spawning(entries, Ok(listed)).Err? && Spawning(entries, Ok(listed)).error.StatusFailed?
  {
    IndexFromFails(map[], listed);
  }
}

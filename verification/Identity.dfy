/**
 * The container identity cache: discovery reports replace entries, unreported ones linger for the
 * TTL, and two indexes are rebuilt after every report.
 */
module Identity {
  import opened Bytes

  datatype Record = Record(id: string, name: string, pod: string, pid: int, cgroup: nat, lastObserved: int)

  datatype Report = Report(found: seq<Record>, now: int)

  type Records = map<string, Record>

  // ---- What a report does ----

  predicate Lists(r: Report, id: string) {
    exists i :: 0 <= i < |r.found| && r.found[i].id == id
  }

  /** Records the containers found, stamped with the time of the report. */
  function Recorded(byId: Records, found: seq<Record>, now: int): Records {
    if found == [] then byId
    else
      var last := found[|found| - 1];
      Recorded(byId, found[..|found| - 1], now)[last.id := last.(lastObserved := now)]
  }

  function Replaced(byId: Records, r: Report, ttl: int): Records {
    var all := Recorded(byId, r.found, r.now);
    map id | id in all && (Lists(r, id) || r.now - all[id].lastObserved <= ttl) :: all[id]
  }

  function RunCache(ttl: int, reports: seq<Report>): Records {
    if reports == [] then map[]
    else Replaced(RunCache(ttl, reports[..|reports| - 1]), reports[|reports| - 1], ttl)
  }

  /** Entry `i` is the last of a report with its id. */
  ghost predicate LastFound(found: seq<Record>, id: string, i: nat) {
    i < |found| && found[i].id == id && forall j :: i < j < |found| ==> found[j].id != id
  }

  /** A listed container is recorded as last listed, stamped; the others are left alone. */
  lemma {:induction false} RecordedExact(byId: Records, found: seq<Record>, now: int, id: string)
    ensures id in Recorded(byId, found, now) <==> id in byId || Lists(Report(found, now), id)
    ensures forall i: nat :: LastFound(found, id, i) ==> Recorded(byId, found, now)[id] == found[i].(lastObserved := now)
    ensures Lists(Report(found, now), id) ==> Recorded(byId, found, now)[id].lastObserved == now
    ensures !Lists(Report(found, now), id) && id in byId ==> Recorded(byId, found, now)[id] == byId[id]
  {
    if found == [] {
    } else {
      var init, last := found[..|found| - 1], found[|found| - 1];
      RecordedExact(byId, init, now, id);
      if last.id == id {
        assert found[|found| - 1].id == id;
      } else {
        forall i: nat | LastFound(found, id, i)
          ensures LastFound(init, id, i)
        {
        }
        if Lists(Report(found, now), id) {
          var i :| 0 <= i < |found| && found[i].id == id;
          assert init[i].id == id;
        }
      }
    }
  }

  // ---- Who is cached, read off the reports ----

  /** Report `i` is the latest that lists `id`. */
  ghost predicate LastListed(reports: seq<Report>, id: string, i: nat) {
    && i < |reports| && Lists(reports[i], id)
    && forall j :: i < j < |reports| ==> !Lists(reports[j], id)
  }

  /** No report since came more than the TTL after report `i`. */
  ghost predicate Unexpired(ttl: int, reports: seq<Report>, i: nat) {
    i < |reports| && forall j :: i < j < |reports| ==> reports[j].now - reports[i].now <= ttl
  }

  /** A container is cached exactly when it was reported, and no later report found it over age. */
  lemma {:induction false} CachedExactly(ttl: int, reports: seq<Report>, id: string)
    ensures id in RunCache(ttl, reports) <==> exists i: nat :: LastListed(reports, id, i) && Unexpired(ttl, reports, i)
    ensures forall i: nat :: LastListed(reports, id, i) && id in RunCache(ttl, reports) ==>
              RunCache(ttl, reports)[id].lastObserved == reports[i].now
    decreases |reports|
  {
    if reports == [] {
    } else {
      var n := |reports| - 1;
      var init, last := reports[..n], reports[n];
      CachedExactly(ttl, init, id);
      RecordedExact(RunCache(ttl, init), last.found, last.now, id);
      if Lists(last, id) {
        assert LastListed(reports, id, n) && Unexpired(ttl, reports, n);
      } else {
        StillListed(ttl, reports, id);
      }
    }
  }

  /** A report that does not list `id` leaves its last listing where it was, and may expire it. */
  lemma StillListed(ttl: int, reports: seq<Report>, id: string)
    requires reports != [] && !Lists(reports[|reports| - 1], id)
    ensures forall i: nat :: LastListed(reports, id, i) <==> LastListed(reports[..|reports| - 1], id, i)
    ensures forall i: nat :: i < |reports| - 1 ==>
              (Unexpired(ttl, reports, i) <==>
               Unexpired(ttl, reports[..|reports| - 1], i) && reports[|reports| - 1].now - reports[i].now <= ttl)
  {
  }

  // ---- Indexes ----

  /** An index by a positive key: every hit has the key, and every container with one is a hit. */
  ghost predicate Indexes(index: map<int, string>, byId: Records, key: Record -> int) {
    && (forall p :: p in index ==> p > 0 && index[p] in byId && key(byId[index[p]]) == p)
    && (forall id :: id in byId && key(byId[id]) > 0 ==> key(byId[id]) in index)
  }

  function PidOf(): Record -> int { (r: Record) => r.pid }
  function CgroupOf(): Record -> int { (r: Record) => r.cgroup }

  /** One pass of `reindex` over one of the keys; with a shared key any of its containers may win. */
  method Reindex(byId: Records, key: Record -> int) returns (index: map<int, string>)
    ensures Indexes(index, byId, key)
  {
    index := map[];
    var todo := byId.Keys;
    while todo != {}
      invariant todo <= byId.Keys
      invariant forall p :: p in index ==> p > 0 && index[p] in byId && key(byId[index[p]]) == p
      invariant forall id :: id in byId && id !in todo && key(byId[id]) > 0 ==> key(byId[id]) in index
      decreases |todo|
    {
      var id := AnyOf(todo);
      if key(byId[id]) > 0 {
        index := index[key(byId[id]) := id];
      }
      todo := todo - {id};
    }
  }

  /** The first loop of `Replace`: everything found is recorded, with the time of the report. */
  method StampAll(byId: Records, found: seq<Record>, now: int) returns (recorded: Records, nextIds: set<string>)
    ensures recorded == Recorded(byId, found, now)
    ensures forall id :: id in nextIds <==> Lists(Report(found, now), id)
  {
    recorded, nextIds := byId, {};
    for i := 0 to |found|
      invariant recorded == Recorded(byId, found[..i], now)
      invariant forall id :: id in nextIds <==> exists k :: 0 <= k < i && found[k].id == id
    {
      assert found[..i + 1][..i] == found[..i];
      recorded := recorded[found[i].id := found[i].(lastObserved := now)];
      nextIds := nextIds + {found[i].id};
    }
    assert found[..|found|] == found;
  }

  /** And the second: what was not found and is over age goes. */
  method Renew(byId: Records, found: seq<Record>, now: int, ttl: int) returns (next: Records)
    ensures next == Replaced(byId, Report(found, now), ttl)
  {
    var recorded, nextIds := StampAll(byId, found, now);
    next := Sift(recorded, (id: string, r: Record) => id !in nextIds && now - r.lastObserved > ttl);
  }

  /** What a lookup by key owes its caller. */
  ghost predicate IsHit(byId: Records, key: Record -> int, p: int, hit: Option<Record>) {
    && (hit.Some? <==> p > 0 && exists id :: id in byId && key(byId[id]) == p)
    && (hit.Some? ==> key(hit.value) == p && exists id :: id in byId && byId[id] == hit.value)
  }

  class Cache {
    const ttl: int
    var byId: Records
    var byPid: map<int, string>
    var byCgroup: map<int, string>
    ghost var reports: seq<Report>

    ghost predicate Valid()
      reads this
    {
      && byId == RunCache(ttl, reports)
      && Indexes(byPid, byId, PidOf())
      && Indexes(byCgroup, byId, CgroupOf())
    }

    /** `NewCache` */
    constructor (ttl: int)
      ensures Valid() && reports == [] && this.ttl == ttl
    {
      this.ttl := ttl;
      byId, byPid, byCgroup, reports := map[], map[], map[], [];
    }

    /** `Replace` */
    method Replace(found: seq<Record>, now: int)
      requires Valid()
      modifies this
      ensures Valid() && reports == old(reports) + [Report(found, now)]
    {
      assert (reports + [Report(found, now)])[..|reports|] == reports;
      byId := Renew(byId, found, now, ttl);
      reports := reports + [Report(found, now)];
      byPid := Reindex(byId, PidOf());
      byCgroup := Reindex(byId, CgroupOf());
    }

    /** `ByPID` */
    method ByPid(pid: int) returns (hit: Option<Record>)
      requires Valid()
      ensures IsHit(byId, PidOf(), pid, hit)
      ensures hit.Some? <==> pid > 0 && exists id :: id in byId && byId[id].pid == pid
      ensures hit.Some? ==> hit.value.pid == pid && exists id :: id in byId && byId[id] == hit.value
    {
      hit := if pid in byPid then Some(byId[byPid[pid]]) else None;
    }

    /** `ByCgroupID` */
    method ByCgroupId(cgroup: nat) returns (hit: Option<Record>)
      requires Valid()
      ensures IsHit(byId, CgroupOf(), cgroup, hit)
      ensures hit.Some? <==> cgroup > 0 && exists id :: id in byId && byId[id].cgroup == cgroup
      ensures hit.Some? ==> hit.value.cgroup == cgroup && exists id :: id in byId && byId[id] == hit.value
    {
      hit := if cgroup in byCgroup then Some(byId[byCgroup[cgroup]]) else None;
    }

    /** `LiveContainerIDs` */
    method LiveContainerIds() returns (ids: set<string>)
      requires Valid()
      ensures forall id :: id in ids <==>
                exists i: nat :: LastListed(reports, id, i) && Unexpired(ttl, reports, i)
    {
      ids := {};
      var todo := byId.Keys;
      while todo != {}
        invariant todo <= byId.Keys && ids == byId.Keys - todo
        decreases |todo|
      {
        var id := AnyOf(todo);
        ids := ids + {id};
        todo := todo - {id};
      }
      forall id
        ensures id in ids <==> exists i: nat :: LastListed(reports, id, i) && Unexpired(ttl, reports, i)
      {
        CachedExactly(ttl, reports, id);
      }
    }
  }
}

/**
 The standby run pool of one Actor or task (`src/services/standby.ts`).

 Requests share the pool's runs; each run takes at most `maxRequests` at a time, one more run is started
 when every run is above `desiredRequests`, a newer build retires the runs of the older one, and a run left
 idle is wound down. One step below is one stretch of the service between two awaits.
 */
module StandbyPool {
  import opened Wrappers

  /** What the settings' validation guarantees (`src/services/standby-config.ts:82-90`). */
  datatype Config = Config(desiredRequests: nat, maxRequests: nat) {
    predicate Valid() {
      1 <= desiredRequests <= maxRequests
    }
  }

  datatype Start = Starting | Running | Failed

  datatype PooledRun = PooledRun(buildId: string, start: Start, openRequests: int, idleTimer: bool, retiring: bool)

  type EntryId = nat
  type LeaseId = nat

  /**
   `entries` is every run ever added, in order; `pool` lists the ones that may take requests; `held` maps
   each lease not yet released to its entry; `finished` lists the entries that were told to finish; `peak`
   is the largest number of leases held at once so far.
   */
  datatype State = State(
    entries: seq<PooledRun>,
    pool: seq<EntryId>,
    held: map<LeaseId, EntryId>,
    nextLease: LeaseId,
    finished: seq<EntryId>,
    peak: nat)

  const EMPTY := State([], [], map[], 0, [], 0)

  predicate Below(ids: seq<EntryId>, n: nat) {
    forall i :: 0 <= i < |ids| ==> ids[i] < n
  }

  /** Every id mentioned anywhere is the id of an entry. */
  predicate Typed(s: State) {
    && Below(s.pool, |s.entries|) && Below(s.finished, |s.entries|)
    && (forall l | l in s.held :: l < s.nextLease && s.held[l] < |s.entries|)
  }

  // ---------- Steps ----------

  function Without(pool: seq<EntryId>, id: EntryId): (r: seq<EntryId>)
    ensures |r| <= |pool| && forall x | x in r :: x in pool
  {
    if pool == [] then [] else if pool[0] == id then pool[1..] else [pool[0]] + Without(pool[1..], id)
  }

  function SetEntry(s: State, id: EntryId, entry: PooledRun): State
    requires id < |s.entries|
  {
    s.(entries := s.entries[id := entry])
  }

  function AfterRemove(s: State, id: EntryId): State
    requires id < |s.entries|
  {
    SetEntry(s, id, s.entries[id].(idleTimer := false)).(pool := Without(s.pool, id))
  }

  function AfterFinish(s: State, id: EntryId): State {
    s.(finished := s.finished + [id])
  }

  function AfterRetire(s: State, id: EntryId): State
    requires id < |s.entries|
  {
    var removed := AfterRemove(SetEntry(s, id, s.entries[id].(retiring := true)), id);
    if s.entries[id].openRequests == 0 then AfterFinish(removed, id) else removed
  }

  /** The newer build's first request retires, in pool order, every run of another build. */
  function AfterRetireOthers(s: State, ids: seq<EntryId>, build: string): (r: State)
    requires Below(ids, |s.entries|)
    ensures |r.entries| == |s.entries|
    decreases |ids|
  {
    if ids == [] then s
    else
      var entry := s.entries[ids[0]];
      var next := if entry.buildId != build && !entry.retiring then AfterRetire(s, ids[0]) else s;
      AfterRetireOthers(next, ids[1..], build)
  }

  /** The least loaded entry that can take one more request, the earliest of equals. */
  function Pick(entries: seq<PooledRun>, pool: seq<EntryId>, config: Config): (r: Option<EntryId>)
    requires Below(pool, |entries|)
    ensures r.Some? ==> r.value in pool
  {
    if pool == [] then None
    else
      var last := pool[|pool| - 1];
      var picked := Pick(entries, pool[..|pool| - 1], config);
      if entries[last].retiring || entries[last].openRequests >= config.maxRequests then picked
      else if picked.None? || entries[last].openRequests < entries[picked.value].openRequests then Some(last)
      else picked
  }

  function AfterAddRun(s: State, build: string): State {
    s.(entries := s.entries + [PooledRun(build, Starting, 0, false, false)], pool := s.pool + [|s.entries|])
  }

  /** Reserves one request on `id` and hands out the next lease. */
  function AfterReserve(s: State, id: EntryId): State
    requires id < |s.entries|
  {
    var entry := s.entries[id];
    var held := s.held[s.nextLease := id];
    SetEntry(s, id, entry.(openRequests := entry.openRequests + 1, idleTimer := false))
      .(held := held, nextLease := s.nextLease + 1, peak := if |held| > s.peak then |held| else s.peak)
  }

  predicate AllAboveDesired(s: State, config: Config)
    requires Below(s.pool, |s.entries|)
  {
    forall id | id in s.pool :: s.entries[id].retiring || s.entries[id].openRequests > config.desiredRequests
  }

  /** `acquireStandbyRun` from its first look at the pool to the reservation: one atomic stretch. */
  function AfterAcquire(s: State, config: Config, build: string): State
    requires Typed(s)
  {
    var current := AfterRetireOthers(s, s.pool, build);
    RetireOthersTyped(s, s.pool, build);
    var picked := Pick(current.entries, current.pool, config);
    var ready := if picked.Some? then current else AfterAddRun(current, build);
    var reserved := AfterReserve(ready, if picked.Some? then picked.value else |current.entries|);
    if AllAboveDesired(reserved, config) then AfterAddRun(reserved, build) else reserved
  }

  function AfterArm(s: State, id: EntryId): State
    requires id < |s.entries|
  {
    SetEntry(s, id, s.entries[id].(idleTimer := true))
  }

  /** A lease's `release`; a second call does nothing. */
  function AfterRelease(s: State, lease: LeaseId): State
    requires Typed(s)
  {
    if lease !in s.held then s
    else
      var id := s.held[lease];
      var entry := s.entries[id];
      var open := entry.openRequests - 1;
      var freed := SetEntry(s, id, entry.(openRequests := open)).(held := s.held - {lease});
      if open > 0 then freed else if entry.retiring then AfterFinish(freed, id) else AfterArm(freed, id)
  }

  /** The run record exists: an entry nothing is waiting on starts its idle time. */
  function AfterStart(s: State, id: EntryId): State {
    if id >= |s.entries| || s.entries[id].start != Starting then s
    else
      var known := SetEntry(s, id, s.entries[id].(start := Running));
      if s.entries[id].openRequests == 0 then AfterArm(known, id) else known
  }

  function AfterStartFailure(s: State, id: EntryId): State {
    if id >= |s.entries| || s.entries[id].start != Starting then s
    else AfterRemove(SetEntry(s, id, s.entries[id].(start := Failed)), id)
  }

  /** The next acquisition sees that this entry's run ended on its own. */
  function AfterPrune(s: State, id: EntryId): State {
    if id >= |s.entries| || id !in s.pool || s.entries[id].start != Running then s
    else AfterRemove(s, id)
  }

  function AfterIdleTimer(s: State, id: EntryId): State {
    if id >= |s.entries| || !s.entries[id].idleTimer then s
    else
      var fired := SetEntry(s, id, s.entries[id].(idleTimer := false));
      if s.entries[id].openRequests > 0 || id !in s.pool then fired else AfterFinish(AfterRemove(fired, id), id)
  }

  // ---------- What every step keeps ----------

  ghost predicate Distinct(ids: seq<EntryId>) {
    forall i, j :: 0 <= i < j < |ids| ==> ids[i] != ids[j]
  }

  /** The leases that hold a request open on `id`. */
  function Holders(held: map<LeaseId, EntryId>, id: EntryId): set<LeaseId> {
    set l | l in held && held[l] == id
  }

  /** Each entry's counter is the number of unreleased leases on it, and within the cap. */
  ghost predicate CountsMatch(s: State, config: Config) {
    forall id {:trigger s.entries[id]} | 0 <= id < |s.entries| ::
      s.entries[id].openRequests == |Holders(s.held, id)| <= config.maxRequests
  }

  /** An entry that may take requests: not retired, not told to finish, its run not known to have failed. */
  predicate InService(s: State, id: EntryId)
    requires id < |s.entries|
  {
    && !s.entries[id].retiring && id !in s.finished && s.entries[id].start != Failed
    // Its idle time runs exactly while it has a run and no request.
    && (s.entries[id].idleTimer ==> s.entries[id].openRequests == 0)
    && (s.entries[id].start == Running && s.entries[id].openRequests == 0 ==> s.entries[id].idleTimer)
  }

  ghost predicate PoolInService(s: State)
    requires Typed(s)
  {
    && Distinct(s.pool)
    && (forall id | id in s.pool :: InService(s, id))
    && (forall id, id' | id in s.pool && id' in s.pool :: s.entries[id].buildId == s.entries[id'].buildId)
  }

  /** Told to finish at most once, and then nothing holds it; a retired entry as soon as nothing holds it. */
  ghost predicate FinishedOnce(s: State)
    requires Typed(s)
  {
    && Distinct(s.finished)
    && (forall id | id in s.finished :: id !in s.pool && s.entries[id].openRequests == 0)
    && (forall id {:trigger s.entries[id]} | 0 <= id < |s.entries| && s.entries[id].retiring ::
          id !in s.pool && (s.entries[id].openRequests == 0 ==> id in s.finished))
  }

  /** How many requests every run must hold before another is started. */
  function Threshold(config: Config): nat {
    if config.desiredRequests + 1 < config.maxRequests then config.desiredRequests + 1 else config.maxRequests
  }

  /** The requests that must have been held at once for a pool to reach `size` runs. */
  function Needed(size: nat, config: Config): int {
    (size - 1) * Threshold(config)
  }

  ghost predicate SizeBounded(s: State, config: Config) {
    |s.held| <= s.peak && Needed(|s.pool|, config) <= s.peak
  }

  ghost predicate Inv(s: State, config: Config) {
    Typed(s) && CountsMatch(s, config) && PoolInService(s) && FinishedOnce(s) && SizeBounded(s, config)
  }

  lemma {:induction false} WithoutMembers(pool: seq<EntryId>, id: EntryId)
    requires Distinct(pool)
    ensures Distinct(Without(pool, id)) && |Without(pool, id)| <= |pool|
    ensures forall x :: x in Without(pool, id) <==> x in pool && x != id
  {
    if pool != [] && pool[0] != id {
      WithoutMembers(pool[1..], id);
      var rest := Without(pool[1..], id);
      assert forall x :: x in pool <==> x == pool[0] || x in pool[1..];
      assert pool[0] !in rest;
    } else if pool != [] {
      assert forall x :: x in pool <==> x == pool[0] || x in pool[1..];
      assert id !in pool[1..];
    }
  }

  lemma RetireTyped(s: State, id: EntryId)
    requires Typed(s) && id < |s.entries|
    ensures Typed(AfterRetire(s, id))
  {
    var pool := Without(s.pool, id);
    assert forall i :: 0 <= i < |pool| ==> pool[i] in pool;
  }

  lemma {:induction false} RetireOthersTyped(s: State, ids: seq<EntryId>, build: string)
    requires Typed(s) && Below(ids, |s.entries|)
    ensures Typed(AfterRetireOthers(s, ids, build))
    decreases |ids|
  {
    if ids != [] {
      var entry := s.entries[ids[0]];
      if entry.buildId != build && !entry.retiring {
        RetireTyped(s, ids[0]);
        RetireOthersTyped(AfterRetire(s, ids[0]), ids[1..], build);
      } else {
        RetireOthersTyped(s, ids[1..], build);
      }
    }
  }

  lemma MulMono(a: int, b: int, t: nat)
    requires a <= b
    ensures a * t <= b * t
  {
  }

  lemma SmallerPool(config: Config, small: nat, large: nat)
    requires small <= large
    ensures Needed(small, config) <= Needed(large, config)
  {
    MulMono(small - 1, large - 1, Threshold(config));
  }

  /** Steps that open and close no request, and at most add an entry without any, keep the counts. */
  lemma CountsKept(s: State, r: State, config: Config)
    requires Typed(s) && CountsMatch(s, config) && r.held == s.held && |s.entries| <= |r.entries|
    requires forall x | 0 <= x < |r.entries| ::
      r.entries[x].openRequests == if x < |s.entries| then s.entries[x].openRequests else 0
    ensures CountsMatch(r, config)
  {
    forall x {:trigger r.entries[x]} | 0 <= x < |r.entries|
      ensures r.entries[x].openRequests == |Holders(r.held, x)| <= config.maxRequests
    {
      if x < |s.entries| {
        assert s.entries[x].openRequests == |Holders(s.held, x)|;
      } else {
        assert Holders(s.held, x) == {};
      }
    }
  }

  lemma RemoveKeeps(s: State, config: Config, id: EntryId)
    requires Inv(s, config) && id < |s.entries|
    ensures Inv(AfterRemove(s, id), config) && id !in AfterRemove(s, id).pool
  {
    hide Needed;
    var pool := Without(s.pool, id);
    WithoutMembers(s.pool, id);
    assert forall i :: 0 <= i < |pool| ==> pool[i] in pool;
    SmallerPool(config, |pool|, |s.pool|);
    CountsKept(s, AfterRemove(s, id), config);
  }

  lemma FinishKeeps(s: State, config: Config, id: EntryId)
    requires Inv(s, config) && id < |s.entries| && id !in s.pool && id !in s.finished
    requires s.entries[id].openRequests == 0
    ensures Inv(AfterFinish(s, id), config)
  {
    hide Needed;
    CountsKept(s, AfterFinish(s, id), config);
  }

  lemma RetireFinishesOnce(s: State, config: Config, id: EntryId)
    requires Inv(s, config) && id in s.pool && Typed(AfterRetire(s, id))
    ensures FinishedOnce(AfterRetire(s, id))
  {
    WithoutMembers(s.pool, id);
    assert InService(s, id);
    hide InService, CountsMatch, SizeBounded, Holders;
  }

  /** Retiring takes an entry out of the pool and finishes it there and then if nothing holds it. */
  lemma RetireKeeps(s: State, config: Config, id: EntryId)
    requires Inv(s, config) && id in s.pool
    ensures Inv(AfterRetire(s, id), config)
    ensures AfterRetire(s, id).pool == Without(s.pool, id)
  {
    hide Needed;
    RetireTyped(s, id);
    WithoutMembers(s.pool, id);
    SmallerPool(config, |Without(s.pool, id)|, |s.pool|);
    CountsKept(s, AfterRetire(s, id), config);
    assert InService(s, id);
    RetireFinishesOnce(s, config, id);
    hide FinishedOnce, CountsMatch;
  }

  /** The other builds' runs are retired one by one: each leaves, is marked, and finishes if nothing holds it. */
  lemma {:induction false} RetireOthersKeeps(s: State, config: Config, ids: seq<EntryId>, build: string)
    requires Inv(s, config) && Distinct(ids) && forall id :: id in ids ==> id in s.pool
    requires Below(ids, |s.entries|)
    ensures var r := AfterRetireOthers(s, ids, build);
      && Inv(r, config) && r.held == s.held && r.nextLease == s.nextLease && |r.entries| == |s.entries|
      && forall x | 0 <= x < |s.entries| :: var other := x in ids && s.entries[x].buildId != build;
           && r.entries[x] == (if other then s.entries[x].(retiring := true, idleTimer := false) else s.entries[x])
           && (x in r.pool <==> x in s.pool && !other)
           && (x in r.finished <==> x in s.finished || (other && s.entries[x].openRequests == 0))
    decreases |ids|
  {
    if ids != [] {
      var first := s.entries[ids[0]];
      assert ids[0] in ids;
      assert forall id :: id in ids <==> id == ids[0] || id in ids[1..];
      assert ids[0] !in ids[1..];
      assert InService(s, ids[0]);
      if first.buildId != build {
        RetireKeeps(s, config, ids[0]);
        WithoutMembers(s.pool, ids[0]);
        hide Inv;
        RetireOthersKeeps(AfterRetire(s, ids[0]), config, ids[1..], build);
      } else {
        hide Inv;
        RetireOthersKeeps(s, config, ids[1..], build);
      }
    }
  }

  // ---------- How many requests the pool's runs hold ----------

  function HoldersIn(held: map<LeaseId, EntryId>, ids: seq<EntryId>): set<LeaseId> {
    set l | l in held && held[l] in ids
  }

  lemma HoldersSplit(held: map<LeaseId, EntryId>, ids: seq<EntryId>)
    requires Distinct(ids) && ids != []
    ensures |HoldersIn(held, ids)| == |Holders(held, ids[0])| + |HoldersIn(held, ids[1..])|
  {
    var first, rest := Holders(held, ids[0]), HoldersIn(held, ids[1..]);
    assert ids[0] !in ids[1..];
    assert forall id :: id in ids <==> id == ids[0] || id in ids[1..];
    assert HoldersIn(held, ids) == first + rest && first !! rest;
  }

  lemma OneMore(n: nat, k: nat)
    ensures (n + 1) * k == n * k + k
  {
  }

  lemma {:induction false} PoolLoad(held: map<LeaseId, EntryId>, ids: seq<EntryId>, k: nat)
    requires Distinct(ids) && forall i :: 0 <= i < |ids| ==> |Holders(held, ids[i])| >= k
    ensures |ids| * k <= |HoldersIn(held, ids)|
  {
    if ids != [] {
      PoolLoad(held, ids[1..], k);
      HoldersSplit(held, ids);
      OneMore(|ids[1..]|, k);
    }
  }

  lemma SubsetSize(a: set<LeaseId>, b: set<LeaseId>)
    requires a <= b
    ensures |a| <= |b|
  {
    assert b == a + (b - a);
  }

  /** Whenever another run is started, every run in the pool holds enough requests to keep the size bound. */
  lemma RoomForOneMore(s: State, config: Config)
    requires Inv(s, config)
    requires forall id | id in s.pool :: s.entries[id].openRequests >= Threshold(config)
    ensures Needed(|s.pool| + 1, config) <= s.peak
  {
    forall i | 0 <= i < |s.pool| ensures |Holders(s.held, s.pool[i])| >= Threshold(config) {
      assert s.pool[i] in s.pool;
      var entry := s.entries[s.pool[i]];
    }
    PoolLoad(s.held, s.pool, Threshold(config));
    SubsetSize(HoldersIn(s.held, s.pool), s.held.Keys);
  }

  // ---------- Acquisition ----------

  lemma AddRunKeeps(s: State, config: Config, build: string)
    requires Inv(s, config) && Needed(|s.pool| + 1, config) <= s.peak
    requires forall id | id in s.pool :: s.entries[id].buildId == build
    ensures Inv(AfterAddRun(s, build), config)
  {
    hide Needed;
    var r := AfterAddRun(s, build);
    var added := |s.entries|;
    CountsKept(s, r, config);
    assert r.pool == s.pool + [added];
    assert forall id :: id in r.pool <==> id in s.pool || id == added;
  }

  lemma HoldersAfterReserve(held: map<LeaseId, EntryId>, lease: LeaseId, id: EntryId, other: EntryId)
    requires lease !in held
    ensures |Holders(held[lease := id], other)| == |Holders(held, other)| + if other == id then 1 else 0
  {
    var before, after := Holders(held, other), Holders(held[lease := id], other);
    assert after == if other == id then before + {lease} else before;
  }

  lemma ReserveKeeps(s: State, config: Config, id: EntryId)
    requires Inv(s, config) && id in s.pool && s.entries[id].openRequests < config.maxRequests
    ensures Inv(AfterReserve(s, id), config)
  {
    var r := AfterReserve(s, id);
    assert s.nextLease !in s.held;
    forall other {:trigger r.entries[other]} | 0 <= other < |r.entries|
      ensures r.entries[other].openRequests == |Holders(r.held, other)| <= config.maxRequests
    {
      HoldersAfterReserve(s.held, s.nextLease, id, other);
      assert s.entries[other].openRequests == |Holders(s.held, other)|;
    }
  }

  predicate CanTake(entry: PooledRun, config: Config) {
    !entry.retiring && entry.openRequests < config.maxRequests
  }

  /** The `k`th of the pool can take a request, is the least loaded that can, and the earliest of equals. */
  ghost predicate LeastLoadedAt(entries: seq<PooledRun>, pool: seq<EntryId>, config: Config, k: nat)
    requires Below(pool, |entries|)
  {
    && k < |pool| && CanTake(entries[pool[k]], config)
    && forall i | 0 <= i < |pool| && CanTake(entries[pool[i]], config) ::
         && entries[pool[i]].openRequests >= entries[pool[k]].openRequests
         && (i < k ==> entries[pool[i]].openRequests > entries[pool[k]].openRequests)
  }

  /** Picking finds the least loaded run below the cap, and nothing only when every run is at the cap. */
  lemma {:induction false} PickIsLeastLoaded(entries: seq<PooledRun>, pool: seq<EntryId>, config: Config)
    returns (k: nat)
    requires Below(pool, |entries|)
    ensures match Pick(entries, pool, config)
            case None => forall i | 0 <= i < |pool| :: !CanTake(entries[pool[i]], config)
            case Some(id) => LeastLoadedAt(entries, pool, config, k) && pool[k] == id
  {
    k := 0;
    if pool != [] {
      var n := |pool| - 1;
      var last, front := pool[n], pool[..n];
      k := PickIsLeastLoaded(entries, front, config);
      var picked := Pick(entries, front, config);
      assert forall i | 0 <= i < n :: front[i] == pool[i];
      if CanTake(entries[last], config)
         && (picked.None? || entries[last].openRequests < entries[picked.value].openRequests) {
        k := n;
      }
    }
  }

  /** What one acquisition makes of a pool with `runs` entries, `held` leases and `lease` the next one. */
  ghost predicate Acquired(
      runs: nat, held: map<LeaseId, EntryId>, lease: LeaseId, r: State, config: Config, build: string)
    requires Typed(r)
  {
    // At most one run is started, and the next request finds a run at or below the desired load.
    && runs <= |r.entries| <= runs + 1
    && (exists id :: id in r.pool && r.entries[id].openRequests <= config.desiredRequests)
    // The lease holds a run of the current build, only runs of that build are left, no other lease moved.
    && lease in r.held && r.held[lease] in r.pool && r.held == held[lease := r.held[lease]] && r.nextLease == lease + 1
    && (forall id | id in r.pool :: r.entries[id].buildId == build)
  }

  ghost predicate OneBuild(s: State, build: string)
    requires Typed(s)
  {
    forall id | id in s.pool :: s.entries[id].buildId == build
  }

  lemma StartAhead(s: State, config: Config, build: string, held: map<LeaseId, EntryId>, lease: LeaseId, id: EntryId)
    requires Inv(s, config) && OneBuild(s, build) && AllAboveDesired(s, config)
    requires s.held == held[lease := id] && id in s.pool && s.nextLease == lease + 1
    ensures var r := AfterAddRun(s, build); Inv(r, config) && Acquired(|s.entries|, held, lease, r, config, build)
  {
    hide Needed, Threshold;
    AboveDesiredIsThreshold(s, config);
    RoomForOneMore(s, config);
    AddRunKeeps(s, config, build);
    var r := AfterAddRun(s, build);
    assert r.pool[|s.pool|] == |s.entries|;
    assert r.entries[|s.entries|].openRequests == 0;
  }

  lemma ServeFromPool(s: State, config: Config, build: string, id: EntryId)
    requires Inv(s, config) && OneBuild(s, build)
    requires id in s.pool && s.entries[id].openRequests < config.maxRequests
    ensures var reserved := AfterReserve(s, id);
            var r := if AllAboveDesired(reserved, config) then AfterAddRun(reserved, build) else reserved;
            Inv(r, config) && Acquired(|s.entries|, s.held, s.nextLease, r, config, build)
  {
    hide Needed, Threshold, InService, CountsMatch, FinishedOnce, SizeBounded;
    ReserveKeeps(s, config, id);
    var reserved := AfterReserve(s, id);
    if AllAboveDesired(reserved, config) {
      StartAhead(reserved, config, build, s.held, s.nextLease, id);
    }
  }

  lemma AboveDesiredIsThreshold(s: State, config: Config)
    requires Inv(s, config) && AllAboveDesired(s, config)
    ensures forall id | id in s.pool :: s.entries[id].openRequests >= Threshold(config)
  {
    forall id | id in s.pool ensures s.entries[id].openRequests >= Threshold(config) {
      assert InService(s, id);
    }
  }

  lemma AllFullIsThreshold(s: State, config: Config)
    requires Inv(s, config) && Pick(s.entries, s.pool, config).None?
    ensures forall id | id in s.pool :: s.entries[id].openRequests >= Threshold(config)
  {
    var _ := PickIsLeastLoaded(s.entries, s.pool, config);
    forall id | id in s.pool ensures s.entries[id].openRequests >= Threshold(config) {
      assert InService(s, id);
      assert !CanTake(s.entries[id], config);
    }
  }

  lemma ServeFromNewRun(s: State, config: Config, build: string)
    requires Inv(s, config) && config.Valid() && OneBuild(s, build)
    requires Pick(s.entries, s.pool, config).None?
    ensures var reserved := AfterReserve(AfterAddRun(s, build), |s.entries|);
            && !AllAboveDesired(reserved, config) && Inv(reserved, config)
            && Acquired(|s.entries|, s.held, s.nextLease, reserved, config, build)
  {
    hide Needed, Threshold;
    AllFullIsThreshold(s, config);
    RoomForOneMore(s, config);
    AddRunKeeps(s, config, build);
    var added, id := AfterAddRun(s, build), |s.entries|;
    assert added.pool[|s.pool|] == id;
    ReserveKeeps(added, config, id);
    assert AfterReserve(added, id).entries[id].openRequests == 1;
  }

  /** After the newer build's arrival only runs of that build are in the pool. */
  lemma RetireAllKeeps(s: State, config: Config, build: string)
    requires Inv(s, config)
    ensures var r := AfterRetireOthers(s, s.pool, build);
            Inv(r, config) && OneBuild(r, build) && r.held == s.held && r.nextLease == s.nextLease
  {
    RetireOthersKeeps(s, config, s.pool, build);
  }

  /** An acquisition keeps every invariant, starts at most one run and leaves room for the next request. */
  lemma AcquireKeeps(s: State, config: Config, build: string)
    requires Inv(s, config) && config.Valid()
    ensures Inv(AfterAcquire(s, config, build), config)
    ensures Acquired(|s.entries|, s.held, s.nextLease, AfterAcquire(s, config, build), config, build)
  {
    hide Needed, Threshold, AllAboveDesired, PoolInService, CountsMatch, FinishedOnce, Acquired;
    hide AfterReserve, AfterAddRun;
    RetireAllKeeps(s, config, build);
    var current := AfterRetireOthers(s, s.pool, build);
    var picked := Pick(current.entries, current.pool, config);
    if picked.Some? {
      var _ := PickIsLeastLoaded(current.entries, current.pool, config);
      ServeFromPool(current, config, build, picked.value);
    } else {
      ServeFromNewRun(current, config, build);
    }
  }

  // ---------- The other steps ----------

  lemma HoldersAfterRelease(held: map<LeaseId, EntryId>, lease: LeaseId, other: EntryId)
    requires lease in held
    ensures |Holders(held - {lease}, other)| == |Holders(held, other)| - if other == held[lease] then 1 else 0
  {
    var before, after := Holders(held, other), Holders(held - {lease}, other);
    assert before == if other == held[lease] then after + {lease} else after;
  }

  lemma ReleaseCounts(s: State, config: Config, lease: LeaseId)
    requires Inv(s, config) && lease in s.held
    ensures Typed(AfterRelease(s, lease)) && CountsMatch(AfterRelease(s, lease), config)
    ensures s.entries[s.held[lease]].openRequests > 0
  {
    var r, id := AfterRelease(s, lease), s.held[lease];
    assert lease in Holders(s.held, id);
    assert s.entries[id].openRequests == |Holders(s.held, id)|;
    forall x {:trigger r.entries[x]} | 0 <= x < |r.entries|
      ensures r.entries[x].openRequests == |Holders(r.held, x)| <= config.maxRequests
    {
      HoldersAfterRelease(s.held, lease, x);
      assert s.entries[x].openRequests == |Holders(s.held, x)|;
    }
  }

  lemma ReleaseFinishesOnce(s: State, config: Config, lease: LeaseId)
    requires Inv(s, config) && lease in s.held && s.entries[s.held[lease]].openRequests > 0
    requires Typed(AfterRelease(s, lease))
    ensures FinishedOnce(AfterRelease(s, lease))
  {
    hide InService, CountsMatch, SizeBounded, Holders;
  }

  lemma ReleaseKeeps(s: State, config: Config, lease: LeaseId)
    requires Inv(s, config)
    ensures Inv(AfterRelease(s, lease), config)
  {
    hide Needed;
    if lease in s.held {
      ReleaseCounts(s, config, lease);
      ReleaseFinishesOnce(s, config, lease);
      hide CountsMatch, Holders;
      var id := s.held[lease];
      assert |s.held - {lease}| == |s.held| - 1;
      assert id !in s.finished;
      assert id in s.pool ==> InService(s, id);
      hide FinishedOnce;
    }
  }

  /** Outside the pool an entry's timer and start no longer matter. */
  lemma OutsideKeeps(s: State, config: Config, id: EntryId, entry: PooledRun)
    requires Inv(s, config) && id < |s.entries| && id !in s.pool
    requires entry == s.entries[id].(start := entry.start, idleTimer := entry.idleTimer)
    ensures Inv(SetEntry(s, id, entry), config)
  {
    hide Needed;
    CountsKept(s, SetEntry(s, id, entry), config);
  }

  lemma InsideKeeps(s: State, config: Config, id: EntryId, entry: PooledRun)
    requires Inv(s, config) && id in s.pool
    requires entry == s.entries[id].(start := entry.start, idleTimer := entry.idleTimer)
    requires InService(SetEntry(s, id, entry), id)
    ensures Inv(SetEntry(s, id, entry), config)
  {
    hide Needed;
    CountsKept(s, SetEntry(s, id, entry), config);
  }

  lemma StartSucceedsKeeps(s: State, config: Config, id: EntryId)
    requires Inv(s, config)
    ensures Inv(AfterStart(s, id), config)
  {
    if id < |s.entries| && s.entries[id].start == Starting {
      var entry := s.entries[id];
      entry := entry.(start := Running, idleTimer := entry.idleTimer || entry.openRequests == 0);
      assert AfterStart(s, id).entries == s.entries[id := entry];
      if id in s.pool {
        assert InService(s, id);
        InsideKeeps(s, config, id, entry);
      } else {
        OutsideKeeps(s, config, id, entry);
      }
    }
  }

  lemma StartFailsKeeps(s: State, config: Config, id: EntryId)
    requires Inv(s, config)
    ensures Inv(AfterStartFailure(s, id), config)
  {
    hide Needed, InService, CountsMatch, PoolInService, FinishedOnce;
    if id < |s.entries| && s.entries[id].start == Starting {
      RemoveKeeps(s, config, id);
      var removed := AfterRemove(s, id);
      var entry := removed.entries[id].(start := Failed);
      OutsideKeeps(removed, config, id, entry);
      assert AfterStartFailure(s, id).entries == removed.entries[id := entry];
    }
  }

  lemma IdleTimerFiresKeeps(s: State, config: Config, id: EntryId)
    requires Inv(s, config)
    ensures Inv(AfterIdleTimer(s, id), config)
  {
    hide Needed;
    if id < |s.entries| && s.entries[id].idleTimer {
      var entry := s.entries[id].(idleTimer := false);
      if id !in s.pool {
        OutsideKeeps(s, config, id, entry);
      } else {
        assert InService(s, id);
        RemoveKeeps(s, config, id);
        FinishKeeps(AfterRemove(s, id), config, id);
        assert s.entries[id := entry][id := entry] == s.entries[id := entry];
      }
    }
  }

  datatype Event =
    | Acquires(build: string)
    | Releases(lease: LeaseId)
    | Starts(id: EntryId)
    | StartFailing(id: EntryId)
    | Ends(id: EntryId)
    | Idles(id: EntryId)

  function Step(s: State, config: Config, event: Event): State
    requires Typed(s)
  {
    match event
    case Acquires(build) => AfterAcquire(s, config, build)
    case Releases(lease) => AfterRelease(s, lease)
    case Starts(id) => AfterStart(s, id)
    case StartFailing(id) => AfterStartFailure(s, id)
    case Ends(id) => AfterPrune(s, id)
    case Idles(id) => AfterIdleTimer(s, id)
  }

  lemma StepKeeps(s: State, config: Config, event: Event)
    requires Inv(s, config) && config.Valid()
    ensures Inv(Step(s, config, event), config)
  {
    hide Inv;
    match event
    case Acquires(build) => AcquireKeeps(s, config, build);
    case Releases(lease) => ReleaseKeeps(s, config, lease);
    case Starts(id) => StartSucceedsKeeps(s, config, id);
    case StartFailing(id) => StartFailsKeeps(s, config, id);
    case Ends(id) => if id < |s.entries| { RemoveKeeps(s, config, id); }
    case Idles(id) => IdleTimerFiresKeeps(s, config, id);
  }

  // ---------- Whole histories ----------

  lemma EmptyPoolInv(config: Config)
    ensures Inv(EMPTY, config)
  {
    assert Needed(0, config) == 0 - Threshold(config);
  }

  /** The pool after any sequence of events; every prefix is a history too, so this is about every moment. */
  function After(config: Config, events: seq<Event>): (s: State)
    requires config.Valid()
    ensures Inv(s, config)
  {
    EmptyPoolInv(config);
    if events == [] then EMPTY
    else
      var before := After(config, events[..|events| - 1]);
      StepKeeps(before, config, events[|events| - 1]);
      Step(before, config, events[|events| - 1])
  }

  function TotalOpen(entries: seq<PooledRun>): int {
    if entries == [] then 0 else TotalOpen(entries[..|entries| - 1]) + entries[|entries| - 1].openRequests
  }

  function HoldersBelow(held: map<LeaseId, EntryId>, n: nat): set<LeaseId> {
    set l | l in held && held[l] < n
  }

  lemma {:induction false} OpenIsHeld(s: State, config: Config, n: nat)
    requires Typed(s) && CountsMatch(s, config) && n <= |s.entries|
    ensures TotalOpen(s.entries[..n]) == |HoldersBelow(s.held, n)|
  {
    if n == 0 {
      assert HoldersBelow(s.held, 0) == {};
    } else {
      OpenIsHeld(s, config, n - 1);
      assert s.entries[..n][..n - 1] == s.entries[..n - 1];
      var last := Holders(s.held, n - 1);
      assert s.entries[n - 1].openRequests == |last|;
      assert HoldersBelow(s.held, n) == HoldersBelow(s.held, n - 1) + last;
    }
  }

  lemma SizeFromNeeded(size: nat, config: Config, peak: nat)
    requires config.Valid() && Needed(size, config) <= peak
    ensures size <= 1 + peak / Threshold(config)
  {
    var t := Threshold(config);
    if size >= 1 {
      DivAtLeast(size - 1, t, peak);
    }
  }

  lemma DivAtLeast(n: nat, t: nat, p: nat)
    requires t >= 1 && n * t <= p
    ensures n <= p / t
  {
    if n > p / t {
      MulMono(p / t + 1, n, t);
    }
  }

  /**
   At every moment of every history: the open requests are the leases not yet released, no run holds more
   than the cap, the pool's runs share one build, and the pool is no larger than the peak demand explains.
   */
  lemma EveryHistory(config: Config, events: seq<Event>)
    requires config.Valid()
    ensures var s := After(config, events);
            && Typed(s) && PoolInService(s) && FinishedOnce(s)
            && TotalOpen(s.entries) == |s.held|
            && (forall id | 0 <= id < |s.entries| :: 0 <= s.entries[id].openRequests <= config.maxRequests)
            && |s.pool| <= 1 + s.peak / Threshold(config)
  {
    hide Step, Needed, Threshold;
    var s := After(config, events);
    OpenIsHeld(s, config, |s.entries|);
    assert s.entries[..|s.entries|] == s.entries;
    assert HoldersBelow(s.held, |s.entries|) == s.held.Keys;
    SizeFromNeeded(|s.pool|, config, s.peak);
  }

  // ---------- Where every run ends up ----------

  /** A newer build has come, and this run is of another one. */
  predicate Replaced(s: State, event: Event, id: EntryId)
    requires id < |s.entries|
  {
    event.Acquires? && id in s.pool && s.entries[id].buildId != event.build
  }

  predicate EndsInPool(s: State, event: Event, id: EntryId)
    requires id < |s.entries|
  {
    event == Ends(id) && id in s.pool && s.entries[id].start == Running
  }

  predicate FailsToStart(s: State, event: Event, id: EntryId)
    requires id < |s.entries|
  {
    event == StartFailing(id) && s.entries[id].start == Starting
  }

  predicate IdlesOut(s: State, event: Event, id: EntryId)
    requires id < |s.entries|
  {
    event == Idles(id) && id in s.pool && s.entries[id].idleTimer
  }

  /** The last request on a run no longer in the pool comes back. */
  predicate LetsGo(s: State, event: Event, id: EntryId)
    requires id < |s.entries|
  {
    event.Releases? && event.lease in s.held && Holders(s.held, id) == {event.lease} && s.entries[id].retiring
  }

  /** What one event makes of an entry. */
  ghost predicate Moves(s: State, event: Event, r: State, id: EntryId)
    requires id < |s.entries| <= |r.entries|
  {
    var before, after := s.entries[id], r.entries[id];
    && after.buildId == before.buildId
    && (after.retiring <==> before.retiring || Replaced(s, event, id))
    && after.start == (if FailsToStart(s, event, id) then Failed
                       else if event == Starts(id) && before.start == Starting then Running else before.start)
    && (id in r.pool <==> && id in s.pool && !Replaced(s, event, id) && !EndsInPool(s, event, id)
                          && !FailsToStart(s, event, id) && !IdlesOut(s, event, id))
    && (id in r.finished <==> || id in s.finished || (Replaced(s, event, id) && Holders(s.held, id) == {})
                              || IdlesOut(s, event, id) || LetsGo(s, event, id))
  }

  predicate IsNew(r: State, id: EntryId, build: string)
    requires id < |r.entries|
  {
    id in r.pool && r.entries[id].start == Starting && r.entries[id].buildId == build
  }

  /** Serving a request changes no other run than the one it is served by, and adds new ones behind the rest. */
  ghost predicate OnlyServed(s: State, r: State, build: string) {
    && |s.entries| <= |r.entries| && r.finished == s.finished
    && (forall x | 0 <= x < |s.entries| :: var before, after := s.entries[x], r.entries[x];
         && after.buildId == before.buildId && after.retiring == before.retiring && after.start == before.start
         && (x in r.pool <==> x in s.pool))
    && (forall x | |s.entries| <= x < |r.entries| :: IsNew(r, x, build))
  }

  lemma ServingOnlyServes(s: State, config: Config, build: string, id: EntryId)
    requires Typed(s)
    ensures id < |s.entries| ==> OnlyServed(s, AfterReserve(s, id), build)
    ensures OnlyServed(s, AfterAddRun(s, build), build)
  {
    var r := AfterAddRun(s, build);
    assert r.pool[|s.pool|] == |s.entries|;
  }

  lemma ServingTwice(s: State, m: State, r: State, build: string)
    requires OnlyServed(s, m, build) && OnlyServed(m, r, build)
    ensures OnlyServed(s, r, build)
  {
    forall x | |s.entries| <= x < |r.entries| ensures IsNew(r, x, build) {
      if x < |m.entries| {
        assert IsNew(m, x, build) && m.entries[x].start == r.entries[x].start;
      }
    }
  }

  lemma RetiredThenServed(s: State, config: Config, current: State, r: State, build: string, id: EntryId)
    requires Inv(s, config) && OnlyServed(current, r, build) && id < |s.entries| == |current.entries|
    requires var other := id in s.pool && s.entries[id].buildId != build;
      && current.entries[id]
         == (if other then s.entries[id].(retiring := true, idleTimer := false) else s.entries[id])
      && (id in current.pool <==> id in s.pool && !other)
      && (id in current.finished <==> id in s.finished || (other && s.entries[id].openRequests == 0))
    ensures Moves(s, Acquires(build), r, id)
  {
    assert s.entries[id].openRequests == |Holders(s.held, id)|;
    hide Inv, Holders, IsNew;
  }

  lemma AcquireMoves(s: State, config: Config, build: string)
    requires Inv(s, config) && config.Valid()
    ensures var r := AfterAcquire(s, config, build);
      && |s.entries| <= |r.entries|
      && (forall id | 0 <= id < |s.entries| :: Moves(s, Acquires(build), r, id))
      && (forall id | |s.entries| <= id < |r.entries| :: IsNew(r, id, build))
  {
    var r, current := AfterAcquire(s, config, build), AfterRetireOthers(s, s.pool, build);
    RetireOthersKeeps(s, config, s.pool, build);
    AcquireOnlyServes(s, config, build);
    assert Typed(s);
    hide Inv, Typed, AfterAcquire, AfterRetireOthers, Moves, IsNew;
    forall id | 0 <= id < |s.entries| ensures Moves(s, Acquires(build), r, id) {
      RetiredThenServed(s, config, current, r, build, id);
    }
  }

  lemma AcquireOnlyServes(s: State, config: Config, build: string)
    requires Inv(s, config)
    ensures OnlyServed(AfterRetireOthers(s, s.pool, build), AfterAcquire(s, config, build), build)
  {
    assert Typed(s);
    hide Inv, Typed, AllAboveDesired, OnlyServed, AfterReserve, AfterAddRun, AfterRetireOthers;
    RetireOthersTyped(s, s.pool, build);
    var current := AfterRetireOthers(s, s.pool, build);
    var picked := Pick(current.entries, current.pool, config);
    var id := if picked.Some? then picked.value else |current.entries|;
    var reserved := if picked.Some? then AfterReserve(current, id) else AfterReserve(AfterAddRun(current, build), id);
    ReservedTyped(current, build, id);
    ServingOnlyServes(current, config, build, id);
    var added := AfterAddRun(current, build);
    if picked.None? {
      ServingOnlyServes(added, config, build, id);
      ServingTwice(current, added, reserved, build);
    }
    ServingOnlyServes(reserved, config, build, id);
    ServingTwice(current, reserved, AfterAddRun(reserved, build), build);
  }

  lemma ReservedTyped(s: State, build: string, id: EntryId)
    requires Typed(s)
    ensures id < |s.entries| ==> Typed(AfterReserve(s, id))
    ensures var added := AfterAddRun(s, build);
      Typed(added) && |added.entries| > |s.entries| && Typed(AfterReserve(added, |s.entries|))
  {
  }

  lemma ReleaseMoves(s: State, config: Config, lease: LeaseId, id: EntryId)
    requires Inv(s, config) && id < |s.entries|
    ensures |AfterRelease(s, lease).entries| == |s.entries|
    ensures Moves(s, Releases(lease), AfterRelease(s, lease), id)
  {
    if lease in s.held {
      var of := s.held[lease];
      assert lease in Holders(s.held, of);
      HoldersAfterRelease(s.held, lease, of);
      assert s.entries[of].openRequests == |Holders(s.held, of)|;
      assert Holders(s.held, of) == Holders(s.held - {lease}, of) + {lease};
      assert Holders(s.held, of) == {lease} <==> Holders(s.held - {lease}, of) == {};
    }
  }

  lemma EntriesStay(s: State, config: Config, event: Event)
    requires Typed(s) && !event.Acquires?
    ensures |Step(s, config, event).entries| == |s.entries|
  {
  }

  lemma EndMoves(s: State, of: EntryId, id: EntryId)
    requires Distinct(s.pool) && id < |s.entries|
    ensures |AfterPrune(s, of).entries| == |s.entries| && Moves(s, Ends(of), AfterPrune(s, of), id)
  {
    hide Holders;
    WithoutMembers(s.pool, of);
  }

  lemma StartFailureMoves(s: State, of: EntryId, id: EntryId)
    requires Distinct(s.pool) && id < |s.entries|
    ensures |AfterStartFailure(s, of).entries| == |s.entries|
    ensures Moves(s, StartFailing(of), AfterStartFailure(s, of), id)
  {
    hide Holders;
    WithoutMembers(s.pool, of);
  }

  lemma StartMoves(s: State, of: EntryId, id: EntryId)
    requires id < |s.entries|
    ensures |AfterStart(s, of).entries| == |s.entries| && Moves(s, Starts(of), AfterStart(s, of), id)
  {
    hide Holders;
  }

  lemma IdleMoves(s: State, config: Config, of: EntryId, id: EntryId)
    requires Inv(s, config) && id < |s.entries|
    ensures |AfterIdleTimer(s, of).entries| == |s.entries| && Moves(s, Idles(of), AfterIdleTimer(s, of), id)
  {
    assert of in s.pool ==> InService(s, of);
    hide CountsMatch, FinishedOnce, SizeBounded, Holders;
    WithoutMembers(s.pool, of);
  }

  lemma StepMoves(s: State, config: Config, event: Event)
    requires Inv(s, config) && config.Valid()
    ensures var r := Step(s, config, event);
      && |s.entries| <= |r.entries|
      && (forall id | 0 <= id < |s.entries| :: Moves(s, event, r, id))
      && (forall id | |s.entries| <= id < |r.entries| :: event.Acquires? && IsNew(r, id, event.build))
  {
    assert Typed(s) && Distinct(s.pool);
    hide Inv, Typed, Moves;
    if event.Acquires? {
      AcquireMoves(s, config, event.build);
    } else {
      hide AfterAcquire;
      EntriesStay(s, config, event);
      forall id | 0 <= id < |s.entries|
        ensures Moves(s, event, Step(s, config, event), id)
      {
        match event
        case Releases(lease) => ReleaseMoves(s, config, lease, id);
        case StartFailing(of) => StartFailureMoves(s, of, id);
        case Ends(of) => EndMoves(s, of, id);
        case Starts(of) => StartMoves(s, of, id);
        case Idles(of) => IdleMoves(s, config, of, id);
      }
    }
  }

  lemma EntryMoves(s: State, config: Config, event: Event, r: State, id: EntryId)
    requires Inv(s, config) && config.Valid() && r == Step(s, config, event)
    ensures |s.entries| <= |r.entries|
    ensures id < |s.entries| ==> Moves(s, event, r, id)
    ensures |s.entries| <= id < |r.entries| ==> event.Acquires? && IsNew(r, id, event.build)
  {
    hide Inv, Step, Moves, IsNew;
    StepMoves(s, config, event);
  }

  /** What takes a run out of the pool for good, apart from a failed start. */
  datatype Fate = Replacement | End | IdleTime

  predicate Befalls(s: State, event: Event, id: EntryId, fate: Fate) {
    && id < |s.entries|
    && match fate
       case Replacement => Replaced(s, event, id)
       case End => EndsInPool(s, event, id)
       case IdleTime => IdlesOut(s, event, id)
  }

  predicate Ever(config: Config, events: seq<Event>, id: EntryId, fate: Fate)
    requires config.Valid()
  {
    && events != []
    && var front := events[..|events| - 1];
       Befalls(After(config, front), events[|events| - 1], id, fate) || Ever(config, front, id, fate)
  }

  /** How a run's start went, as far as the history tells. */
  function StartOf(config: Config, events: seq<Event>, id: EntryId): Start
    requires config.Valid()
  {
    if events == [] then Starting
    else
      var front := events[..|events| - 1];
      if id >= |After(config, front).entries| then StartOf(config, front, id)
      else Answered(StartOf(config, front, id), events[|events| - 1], id)
  }

  /** Where an entry is, by how its start went and what has befallen it. */
  predicate Placed(s: State, id: EntryId, start: Start, replaced: bool, ended: bool, idled: bool)
    requires id < |s.entries|
  {
    && s.entries[id].start == start && (s.entries[id].retiring <==> replaced)
    && (id in s.pool <==> start != Failed && !replaced && !ended && !idled)
    && (id in s.finished <==> idled || (replaced && Holders(s.held, id) == {}))
  }

  /** The first answer to a start counts. */
  function Answered(before: Start, event: Event, id: EntryId): Start {
    if before != Starting then before
    else if event == Starts(id) then Running
    else if event == StartFailing(id) then Failed
    else Starting
  }

  lemma MovesPlace(s: State, config: Config, event: Event, r: State, id: EntryId,
                   start: Start, replaced: bool, ended: bool, idled: bool)
    requires id < |s.entries| <= |r.entries| && Moves(s, event, r, id) && Inv(r, config)
    requires Placed(s, id, start, replaced, ended, idled)
    ensures Placed(r, id, Answered(start, event, id), replaced || Replaced(s, event, id),
                   ended || EndsInPool(s, event, id), idled || IdlesOut(s, event, id))
  {
    assert r.entries[id].openRequests == |Holders(r.held, id)|;
    hide Holders, CountsMatch, SizeBounded, PoolInService;
  }

  lemma NewIsPlaced(config: Config, r: State, id: EntryId, build: string)
    requires id < |r.entries| && IsNew(r, id, build) && Inv(r, config)
    ensures Placed(r, id, Starting, false, false, false)
  {
    hide CountsMatch, SizeBounded, Holders;
  }

  /** The last event of a history, and what it adds to what has befallen a run. */
  lemma LastEvent(config: Config, front: seq<Event>, event: Event, events: seq<Event>, id: EntryId)
    requires config.Valid() && events != [] && front == events[..|events| - 1] && event == events[|events| - 1]
    ensures Inv(After(config, front), config) && Inv(After(config, events), config)
    ensures Typed(After(config, front)) && After(config, events) == Step(After(config, front), config, event)
    ensures forall fate :: Ever(config, events, id, fate) <==>
      Befalls(After(config, front), event, id, fate) || Ever(config, front, id, fate)
    ensures StartOf(config, events, id)
      == if id >= |After(config, front).entries| then StartOf(config, front, id)
         else Answered(StartOf(config, front, id), event, id)
  {
    assert Typed(After(config, front));
    hide Inv, Befalls, Step, Answered;
    forall fate
      ensures Ever(config, events, id, fate) <==>
        Befalls(After(config, front), event, id, fate) || Ever(config, front, id, fate)
    {
      assert events[..|events| - 1] == front && events[|events| - 1] == event;
    }
  }

  /**
   After every history, for every run ever started: it is in the pool until its start fails, it ends there, idles
   out or is replaced, and never again; it is retiring exactly if it was replaced, and told to finish exactly if it
   idled out or was replaced and nothing holds it any more. So no run is forgotten.
   */
  lemma {:induction false} EveryRunEndsUp(config: Config, events: seq<Event>, id: EntryId)
    requires config.Valid()
    ensures var s := After(config, events);
      var start := StartOf(config, events, id);
      var replaced, ended := Ever(config, events, id, Replacement), Ever(config, events, id, End);
      var idled := Ever(config, events, id, IdleTime);
      if id < |s.entries| then Placed(s, id, start, replaced, ended, idled)
      else start == Starting && !replaced && !ended && !idled
  {
    if events != [] {
      var front, event := events[..|events| - 1], events[|events| - 1];
      LastEvent(config, front, event, events, id);
      EveryRunEndsUp(config, front, id);
      hide After, Ever, StartOf, Answered, Inv, Step, Placed, Moves, IsNew, Replaced, EndsInPool, IdlesOut;
      var s, r := After(config, front), After(config, events);
      EntryMoves(s, config, event, r, id);
      if id < |s.entries| {
        MovesPlace(s, config, event, r, id, StartOf(config, front, id), Ever(config, front, id, Replacement),
                   Ever(config, front, id, End), Ever(config, front, id, IdleTime));
      } else if id < |r.entries| {
        NewIsPlaced(config, r, id, event.build);
      }
    }
  }


  /** The first request for a newer build retires every run of another one, and finishes those nothing holds. */
  lemma NewBuildRetiresTheOthers(config: Config, events: seq<Event>, build: string, id: EntryId)
    requires config.Valid() && id in After(config, events).pool
    requires After(config, events).entries[id].buildId != build
    ensures var r := After(config, events + [Acquires(build)]);
      && |After(config, events).entries| <= |r.entries| && id !in r.pool && r.entries[id].retiring
      && (id in r.finished <==> Holders(After(config, events).held, id) == {})
  {
    var more := events + [Acquires(build)];
    assert more[..|more| - 1] == events;
    StepMoves(After(config, events), config, Acquires(build));
    assert Moves(After(config, events), Acquires(build), After(config, more), id);
  }

  // ---------- Who serves a request ----------

  ghost predicate InOrder(ids: seq<EntryId>) {
    forall i, j :: 0 <= i < j < |ids| ==> ids[i] < ids[j]
  }

  lemma {:induction false} WithoutInOrder(pool: seq<EntryId>, id: EntryId)
    requires InOrder(pool)
    ensures InOrder(Without(pool, id))
  {
    if pool != [] && pool[0] != id {
      WithoutInOrder(pool[1..], id);
      var rest := Without(pool[1..], id);
      forall j | 0 <= j < |rest| ensures pool[0] < rest[j] {
        assert rest[j] in pool[1..];
      }
    }
  }

  lemma {:induction false} RetireOthersInOrder(s: State, ids: seq<EntryId>, build: string)
    requires Below(ids, |s.entries|) && InOrder(s.pool)
    ensures InOrder(AfterRetireOthers(s, ids, build).pool)
    decreases |ids|
  {
    if ids != [] {
      var entry := s.entries[ids[0]];
      WithoutInOrder(s.pool, ids[0]);
      var next := if entry.buildId != build && !entry.retiring then AfterRetire(s, ids[0]) else s;
      RetireOthersInOrder(next, ids[1..], build);
    }
  }

  lemma StepInOrder(s: State, config: Config, event: Event)
    requires Typed(s) && InOrder(s.pool)
    ensures InOrder(Step(s, config, event).pool)
  {
    match event
    case Acquires(build) =>
      RetireOthersInOrder(s, s.pool, build);
      RetireOthersTyped(s, s.pool, build);
      hide AfterRetireOthers, AllAboveDesired;
    case Releases(_) =>
    case Starts(_) =>
    case StartFailing(id) => WithoutInOrder(s.pool, id);
    case Ends(id) => WithoutInOrder(s.pool, id);
    case Idles(id) => WithoutInOrder(s.pool, id);
  }

  /** The pool lists its runs in the order they were started. */
  lemma {:induction false} PoolInOrder(config: Config, events: seq<Event>)
    requires config.Valid()
    ensures InOrder(After(config, events).pool)
  {
    if events != [] {
      hide Step;
      PoolInOrder(config, events[..|events| - 1]);
      StepInOrder(After(config, events[..|events| - 1]), config, events[|events| - 1]);
    }
  }

  /** A pooled run of the build that holds fewer requests than the cap. */
  predicate Able(s: State, config: Config, build: string, id: EntryId) {
    && id < |s.entries| && id in s.pool && s.entries[id].buildId == build
    && |Holders(s.held, id)| < config.maxRequests
  }

  /** Every pooled run of the build holds more requests than desired once `lease` is handed out for `id`. */
  predicate AllBusy(s: State, config: Config, build: string, id: EntryId)
    requires Below(s.pool, |s.entries|)
  {
    forall x | x in s.pool && s.entries[x].buildId == build ::
      |Holders(s.held, x)| + (if x == id then 1 else 0) > config.desiredRequests
  }

  /** The pool with the other builds' runs gone: the rest are as they were, and none of them is retiring. */
  ghost predicate Narrowed(s: State, current: State, build: string) {
    && Typed(s) && Typed(current) && InOrder(current.pool)
    && |current.entries| == |s.entries| && current.held == s.held && current.nextLease == s.nextLease
    && forall x: nat {:trigger x in current.pool} ::
         && (x in current.pool <==> x in s.pool && s.entries[x].buildId == build)
         && (x in current.pool ==>
               && current.entries[x] == s.entries[x] && !s.entries[x].retiring
               && s.entries[x].openRequests == |Holders(s.held, x)|)
  }

  lemma RetiringNarrows(s: State, config: Config, build: string)
    requires Inv(s, config) && InOrder(s.pool)
    ensures Narrowed(s, AfterRetireOthers(s, s.pool, build), build)
  {
    RetireOthersInOrder(s, s.pool, build);
    RetireOthersTyped(s, s.pool, build);
    RetireOthersKeeps(s, config, s.pool, build);
    var current := AfterRetireOthers(s, s.pool, build);
    hide AfterRetireOthers, Holders;
    forall x: nat | x in current.pool
      ensures !s.entries[x].retiring && s.entries[x].openRequests == |Holders(s.held, x)|
    {
      assert InService(s, x);
    }
  }

  /** What is served: the picked run, or a new one. */
  lemma PickedIsLeast(s: State, config: Config, current: State, build: string)
    requires Narrowed(s, current, build)
    ensures match Pick(current.entries, current.pool, config)
      case None => forall x :: !Able(s, config, build, x)
      case Some(id) =>
        && Able(s, config, build, id)
        && forall x: nat | Able(s, config, build, x) ::
             && |Holders(s.held, x)| >= |Holders(s.held, id)|
             && (x < id ==> |Holders(s.held, x)| > |Holders(s.held, id)|)
  {
    var k := PickIsLeastLoaded(current.entries, current.pool, config);
    var picked := Pick(current.entries, current.pool, config);
    hide Pick, Holders;
    forall x | Able(s, config, build, x)
      ensures picked.Some? && |Holders(s.held, x)| >= |Holders(s.held, picked.value)|
        && (x < picked.value ==> |Holders(s.held, x)| > |Holders(s.held, picked.value)|)
    {
      assert x in current.pool;
      var i :| 0 <= i < |current.pool| && current.pool[i] == x;
      assert CanTake(current.entries[current.pool[i]], config);
    }
    if picked.Some? {
      assert picked.value in current.pool;
    }
  }

  lemma AboveIsBusy(s: State, config: Config, current: State, build: string, id: EntryId)
    requires Narrowed(s, current, build) && id in current.pool
    ensures Below(AfterReserve(current, id).pool, |s.entries|)
    ensures AllAboveDesired(AfterReserve(current, id), config) <==> AllBusy(s, config, build, id)
  {
    var reserved := AfterReserve(current, id);
    hide Holders;
    forall x: nat | x in current.pool
      ensures !reserved.entries[x].retiring
      ensures reserved.entries[x].openRequests == |Holders(s.held, x)| + if x == id then 1 else 0
    {
    }
    if AllBusy(s, config, build, id) {
      forall x | x in reserved.pool ensures reserved.entries[x].openRequests > config.desiredRequests {
        assert x in current.pool;
      }
    }
    if AllAboveDesired(reserved, config) {
      forall x: nat | x in s.pool && s.entries[x].buildId == build
        ensures |Holders(s.held, x)| + (if x == id then 1 else 0) > config.desiredRequests
      {
        assert x in current.pool;
      }
    }
  }

  ghost predicate Served(s: State, config: Config, build: string, r: State) {
    && Typed(s) && s.nextLease in r.held && r.held == s.held[s.nextLease := r.held[s.nextLease]]
    && var id := r.held[s.nextLease];
       if exists x :: Able(s, config, build, x) then
         && Able(s, config, build, id)
         && (forall x | Able(s, config, build, x) ::
               && |Holders(s.held, x)| >= |Holders(s.held, id)|
               && (x < id ==> |Holders(s.held, x)| > |Holders(s.held, id)|))
         && |r.entries| == |s.entries| + (if AllBusy(s, config, build, id) then 1 else 0)
       else id == |s.entries| && |r.entries| == |s.entries| + 1
  }

  lemma AcquireServes(s: State, config: Config, build: string)
    requires Inv(s, config) && config.Valid() && InOrder(s.pool)
    ensures Served(s, config, build, AfterAcquire(s, config, build))
  {
    RetiringNarrows(s, config, build);
    RetireOthersTyped(s, s.pool, build);
    var current := AfterRetireOthers(s, s.pool, build);
    PickedIsLeast(s, config, current, build);
    var picked := Pick(current.entries, current.pool, config);
    if picked.Some? {
      AboveIsBusy(s, config, current, build, picked.value);
      hide Inv, AfterRetireOthers, Holders, Pick, Narrowed, AllAboveDesired, AllBusy;
    } else {
      RetireAllKeeps(s, config, build);
      ServeFromNewRun(current, config, build);
      hide Inv, AfterRetireOthers, Holders, Pick, AllAboveDesired, AllBusy;
    }
  }

  /**
   A request goes to the run of its build that holds the fewest, of those below the cap, the oldest of equals, and
   to a new run if there is none. Another run is started exactly if all of them then hold more than desired.
   */
  lemma LeaseGoesToLeastLoaded(config: Config, events: seq<Event>, build: string)
    requires config.Valid()
    ensures Served(After(config, events), config, build, After(config, events + [Acquires(build)]))
  {
    var s, more := After(config, events), events + [Acquires(build)];
    assert more[..|more| - 1] == events;
    PoolInOrder(config, events);
    AcquireServes(s, config, build);
  }

  // ---------- The pool as the service keeps it ----------

  class StandbyService {
    const config: Config
    var entries: seq<PooledRun>
    var pool: seq<EntryId>
    var held: map<LeaseId, EntryId>
    var nextLease: LeaseId
    var finished: seq<EntryId>
    ghost var peak: nat

    ghost function View(): State
      reads this
    {
      State(entries, pool, held, nextLease, finished, peak)
    }

    ghost predicate Valid()
      reads this
    {
      config.Valid() && Inv(View(), config)
    }

    constructor (config: Config)
      requires config.Valid()
      ensures Valid() && this.config == config && View() == EMPTY
    {
      this.config := config;
      entries, pool, held, nextLease, finished, peak := [], [], map[], 0, [], 0;
      EmptyPoolInv(config);
    }

    method RemoveFromPool(id: EntryId)
      requires Typed(View()) && id < |entries|
      modifies this
      ensures View() == AfterRemove(old(View()), id)
    {
      pool := Without(pool, id);
      entries := entries[id := entries[id].(idleTimer := false)];
    }

    method FinishRun(id: EntryId)
      modifies this
      ensures View() == AfterFinish(old(View()), id)
    {
      finished := finished + [id];
    }

    method Retire(id: EntryId)
      requires Typed(View()) && id < |entries|
      modifies this
      ensures View() == AfterRetire(old(View()), id)
    {
      entries := entries[id := entries[id].(retiring := true)];
      RemoveFromPool(id);
      if entries[id].openRequests == 0 {
        FinishRun(id);
      }
    }

    method AddRun(build: string) returns (id: EntryId)
      modifies this
      ensures View() == AfterAddRun(old(View()), build) && id == |old(entries)|
    {
      id := |entries|;
      entries := entries + [PooledRun(build, Starting, 0, false, false)];
      pool := pool + [id];
    }

    method RetireOthers(build: string)
      requires Typed(View())
      modifies this
      ensures View() == AfterRetireOthers(old(View()), old(pool), build)
    {
      var snapshot := pool;
      for i := 0 to |snapshot|
        invariant Typed(View()) && Below(snapshot, |entries|)
        invariant AfterRetireOthers(View(), snapshot[i..], build) == AfterRetireOthers(old(View()), snapshot, build)
      {
        var entry := entries[snapshot[i]];
        assert snapshot[i..][0] == snapshot[i] && snapshot[i..][1..] == snapshot[i + 1..];
        if entry.buildId != build && !entry.retiring {
          RetireTyped(View(), snapshot[i]);
          Retire(snapshot[i]);
        }
      }
    }

    method LeastLoaded() returns (picked: Option<EntryId>)
      requires Typed(View())
      ensures picked == Pick(entries, pool, config)
    {
      picked := None;
      for i := 0 to |pool|
        invariant picked == Pick(entries, pool[..i], config)
      {
        assert pool[..i + 1][..i] == pool[..i];
        var entry := entries[pool[i]];
        if entry.retiring || entry.openRequests >= config.maxRequests {
          continue;
        }
        if picked.None? || entry.openRequests < entries[picked.value].openRequests {
          picked := Some(pool[i]);
        }
      }
      assert pool[..|pool|] == pool;
    }

    method Reserve(id: EntryId) returns (lease: LeaseId)
      requires Typed(View()) && id < |entries|
      modifies this
      ensures View() == AfterReserve(old(View()), id) && lease == old(nextLease)
    {
      entries := entries[id := entries[id].(openRequests := entries[id].openRequests + 1, idleTimer := false)];
      lease := nextLease;
      held := held[lease := id];
      nextLease := nextLease + 1;
      peak := if |held| > peak then |held| else peak;
    }

    method Acquire(build: string) returns (lease: LeaseId)
      requires Valid()
      modifies this
      ensures Valid() && View() == AfterAcquire(old(View()), config, build)
      ensures lease == old(nextLease) && lease in held
    {
      hide PoolInService, CountsMatch, FinishedOnce, SizeBounded;
      AcquireKeeps(View(), config, build);
      RetireOthersTyped(View(), pool, build);
      RetireOthers(build);
      var picked := LeastLoaded();
      var id;
      if picked.Some? {
        id := picked.value;
      } else {
        id := AddRun(build);
      }
      lease := Reserve(id);
      if forall x | x in pool :: entries[x].retiring || entries[x].openRequests > config.desiredRequests {
        var _ := AddRun(build);
      }
    }

    method Release(lease: LeaseId)
      requires Valid()
      modifies this
      ensures Valid() && View() == AfterRelease(old(View()), lease)
    {
      ReleaseKeeps(View(), config, lease);
      if lease !in held {
        return;
      }
      var id := held[lease];
      held := held - {lease};
      entries := entries[id := entries[id].(openRequests := entries[id].openRequests - 1)];
      if entries[id].openRequests > 0 {
        return;
      }
      if entries[id].retiring {
        FinishRun(id);
      } else {
        entries := entries[id := entries[id].(idleTimer := true)];
      }
    }

    method IdleTimerFires(id: EntryId)
      requires Valid() && id < |entries| && entries[id].idleTimer
      modifies this
      ensures Valid() && View() == AfterIdleTimer(old(View()), id)
    {
      IdleTimerFiresKeeps(View(), config, id);
      entries := entries[id := entries[id].(idleTimer := false)];
      if entries[id].openRequests > 0 || id !in pool {
        return;
      }
      RemoveFromPool(id);
      FinishRun(id);
    }

    method Prune(id: EntryId)
      requires Valid() && id in pool && entries[id].start == Running
      modifies this
      ensures Valid() && View() == AfterPrune(old(View()), id)
    {
      RemoveKeeps(View(), config, id);
      RemoveFromPool(id);
    }

    method StartSettles(id: EntryId, ok: bool)
      requires Valid() && id < |entries| && entries[id].start == Starting
      modifies this
      ensures Valid() && View() == if ok then AfterStart(old(View()), id) else AfterStartFailure(old(View()), id)
    {
      if ok {
        StartSucceedsKeeps(View(), config, id);
        entries := entries[id := entries[id].(start := Running)];
        if entries[id].openRequests == 0 {
          entries := entries[id := entries[id].(idleTimer := true)];
        }
      } else {
        StartFailsKeeps(View(), config, id);
        entries := entries[id := entries[id].(start := Failed)];
        RemoveFromPool(id);
      }
    }
  }
}

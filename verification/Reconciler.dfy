/**
 The reconciler (server/internal/provision/reconciler.go): sweep expiries, then
 push what is due, over and over, with the clock standing still and no new
 requests. Some boxes may be down; a push to one of them fails and is deferred.
 */
module Reconciler {
  import opened Prelude
  import opened PeerRows
  import CP = ControlPlane
  import B = Backoff

  type UserId = nat

  /** What does not change while the passes run. */
  datatype World = World(
    owner: DeviceId -> UserId,
    entitled: set<UserId>,             // users with a live time block now
    now: int,
    down: set<ServerId>,               // boxes that do not answer
    draw: (RowId, int) -> real)        // jitter drawn for a row's nth attempt
  {
    ghost predicate Valid() { forall i, n :: 0.0 <= draw(i, n) < 1.0 }

    /** Live, though its user has no time left. */
    predicate Lapsed(row: Row) { row.Live() && owner(row.device) !in entitled }

    predicate Due(row: Row) { (row.state == Pending || row.state == Revoking) && row.nextAttempt <= now }
  }

  // ------------------------------------------------------------- one pass

  function LapsedUsers(rows: Rows, w: World): set<UserId> {
    set i: int | 0 <= i < |rows| && w.Lapsed(rows[i]) :: w.owner(rows[i].device)
  }

  function DueRows(rows: Rows, w: World): set<int> {
    set i: int | 0 <= i < |rows| && w.Due(rows[i])
  }

  function DevicesOf(rows: Rows, w: World, u: UserId): set<DeviceId> {
    set i: int | 0 <= i < |rows| && w.owner(rows[i].device) == u :: rows[i].device
  }

  function SweepUser(rows: Rows, w: World, u: UserId): Rows {
    BeginRevoke(rows, OfDevices(DevicesOf(rows, w, u)), w.now)
  }

  function Sweep(rows: Rows, w: World, users: seq<UserId>): Rows {
    if users == [] then rows else SweepUser(Sweep(rows, w, users[..|users| - 1]), w, users[|users| - 1])
  }

  /** applyOne: push, or record the failed attempt and when to try again. */
  function ApplyOne(st: CP.State, w: World, id: RowId): CP.State
    requires id < |st.rows|
    requires 0.0 <= w.draw(id, st.rows[id].attempts + 1) < 1.0
  {
    var row := st.rows[id];
    if row.server in w.down && (row.state == Pending || row.state == Revoking) then
      st.(rows := MarkAttemptFailed(st.rows, id, "edge: unreachable",
                                    w.now + B.Jittered(row.attempts + 1, w.draw(id, row.attempts + 1))))
    else CP.PushEffect(st, id, w.now)
  }

  ghost function ApplyAll(st: CP.State, w: World, ids: seq<RowId>): (r: CP.State)
    requires w.Valid() && forall k | 0 <= k < |ids| :: ids[k] < |st.rows|
    ensures |r.rows| == |st.rows|
  {
    if ids == [] then st else ApplyOne(ApplyAll(st, w, ids[..|ids| - 1]), w, ids[|ids| - 1])
  }

  /** What the two queries returned in one pass. */
  datatype Pass = Pass(users: seq<UserId>, due: seq<RowId>)

  /** A LIMIT n query over a set: n distinct members, or all of them. */
  ghost predicate Batch(ids: seq<int>, all: set<int>, limit: nat) {
    && (forall i | 0 <= i < |ids| :: ids[i] in all)
    && (forall i, j | 0 <= i < j < |ids| :: ids[i] != ids[j])
    && |ids| == Min(limit, |all|)
  }

  datatype Limits = Limits(expiryBatch: nat, batchSize: nat)

  ghost predicate ValidPass(st: CP.State, w: World, limits: Limits, p: Pass) {
    && Batch(p.users, LapsedUsers(st.rows, w), limits.expiryBatch)
    && Batch(p.due, DueRows(Sweep(st.rows, w, p.users), w), limits.batchSize)
  }

  lemma {:induction false} SweepShape(rows: Rows, w: World, users: seq<UserId>)
    ensures Settles(rows, Sweep(rows, w, users))
    decreases |users|
  {
    if users != [] { SweepShape(rows, w, users[..|users| - 1]); }
  }

  ghost function Once(st: CP.State, w: World, limits: Limits, p: Pass): CP.State
    requires w.Valid() && ValidPass(st, w, limits, p)
  {
    SweepShape(st.rows, w, p.users);
    ApplyAll(st.(rows := Sweep(st.rows, w, p.users)), w, p.due)
  }

  // -------------------------------------------------------------- measure

  /** Work left on a row: an expiry still to notice counts two, a due push one. */
  function RowRank(row: Row, w: World): nat {
    (if w.Lapsed(row) then 2 else 0) + (if w.Due(row) then 1 else 0)
  }

  function Rank(rows: Rows, w: World): nat {
    if rows == [] then 0 else RowRank(rows[0], w) + Rank(rows[1..], w)
  }

  ghost predicate NoMoreWork(rows: Rows, rows': Rows, w: World) {
    |rows'| == |rows| && forall i | 0 <= i < |rows| :: RowRank(rows'[i], w) <= RowRank(rows[i], w)
  }

  lemma {:induction false} RankFalls(rows: Rows, rows': Rows, w: World)
    requires NoMoreWork(rows, rows', w)
    ensures Rank(rows', w) <= Rank(rows, w)
    ensures (exists i | 0 <= i < |rows| ::
      RowRank(rows'[i], w) < RowRank(rows[i], w)) ==> Rank(rows', w) < Rank(rows, w)
    decreases |rows|
  {
    if rows != [] {
      RankFalls(rows[1..], rows'[1..], w);
      if i :| 0 < i < |rows| && RowRank(rows'[i], w) < RowRank(rows[i], w) {
        assert RowRank(rows'[1..][i - 1], w) < RowRank(rows[1..][i - 1], w);
      }
    }
  }

  lemma {:induction false} RankIsZeroWhenIdle(rows: Rows, w: World)
    ensures Rank(rows, w) == 0 <==> forall i | 0 <= i < |rows| :: RowRank(rows[i], w) == 0
    ensures Rank(rows, w) <= 3 * |rows|
    decreases |rows|
  {
    if rows != [] {
      RankIsZeroWhenIdle(rows[1..], w);
      forall i | 0 < i < |rows| ensures rows[i] == rows[1..][i - 1] {}
      assert (forall i | 0 <= i < |rows| :: RowRank(rows[i], w) == 0) ==>
             forall i | 0 <= i < |rows[1..]| :: RowRank(rows[1..][i], w) == 0;
    }
  }

  lemma SweepUserRows(rows: Rows, w: World, u: UserId)
    ensures forall i | 0 <= i < |rows| :: SweepUser(rows, w, u)[i] ==
              if rows[i].Live() && w.owner(rows[i].device) == u then Revoke(rows[i], w.now) else rows[i]
  {
    forall i | 0 <= i < |rows| && w.owner(rows[i].device) == u ensures rows[i].device in DevicesOf(rows, w, u) {}
  }

  lemma {:induction false} SweepDoesWork(rows: Rows, w: World, users: seq<UserId>)
    requires forall k | 0 <= k < |users| :: users[k] !in w.entitled
    ensures NoMoreWork(rows, Sweep(rows, w, users), w)
    ensures forall i | 0 <= i < |rows| && w.Lapsed(rows[i]) && w.owner(rows[i].device) in users ::
              RowRank(Sweep(rows, w, users)[i], w) < RowRank(rows[i], w)
    decreases |users|
  {
    SweepShape(rows, w, users);
    if users != [] {
      var rest, u := users[..|users| - 1], users[|users| - 1];
      assert users == rest + [u];
      SweepShape(rows, w, rest);
      SweepDoesWork(rows, w, rest);
      SweepUserRows(Sweep(rows, w, rest), w, u);
    }
  }

  lemma OnePushDoesWork(st: CP.State, w: World, id: RowId)
    requires w.Valid() && id < |st.rows|
    ensures var rows' := ApplyOne(st, w, id).rows;
            && |rows'| == |st.rows|
            && (forall i | 0 <= i < |st.rows| && i != id :: rows'[i] == st.rows[i])
            && (w.Due(st.rows[id]) ==> RowRank(rows'[id], w) < RowRank(st.rows[id], w))
  {
  }

  ghost predicate Distinct(ids: seq<int>) {
    forall j, k | 0 <= j < k < |ids| :: ids[j] != ids[k]
  }

  lemma {:induction false} PushesDoWork(st: CP.State, w: World, ids: seq<RowId>)
    requires w.Valid() && Distinct(ids)
    requires forall k | 0 <= k < |ids| :: ids[k] < |st.rows| && w.Due(st.rows[ids[k]])
    ensures var rows' := ApplyAll(st, w, ids).rows;
            && (forall k | 0 <= k < |ids| :: RowRank(rows'[ids[k]], w) < RowRank(st.rows[ids[k]], w))
            && (forall i | 0 <= i < |st.rows| && (forall k | 0 <= k < |ids| :: ids[k] != i) :: rows'[i] == st.rows[i])
    decreases |ids|
  {
    if ids != [] {
      var rest, id := ids[..|ids| - 1], ids[|ids| - 1];
      PushesDoWork(st, w, rest);
      var mid := ApplyAll(st, w, rest);
      assert mid.rows[id] == st.rows[id];
      OnePushDoesWork(mid, w, id);
      var rows' := ApplyAll(st, w, ids).rows;
      forall k | 0 <= k < |ids| ensures RowRank(rows'[ids[k]], w) < RowRank(st.rows[ids[k]], w) {
        if k < |rest| { assert rest[k] == ids[k] && rows'[ids[k]] == mid.rows[ids[k]]; }
      }
      forall i | 0 <= i < |st.rows| && (forall k | 0 <= k < |ids| :: ids[k] != i) ensures rows'[i] == st.rows[i] {
        forall k | 0 <= k < |rest| ensures rest[k] != i { assert rest[k] == ids[k]; }
        assert ids[|ids| - 1] != i;
      }
    }
  }

  lemma PushesOnlyHelp(st: CP.State, w: World, ids: seq<RowId>)
    requires w.Valid() && Distinct(ids)
    requires forall k | 0 <= k < |ids| :: ids[k] < |st.rows| && w.Due(st.rows[ids[k]])
    ensures NoMoreWork(st.rows, ApplyAll(st, w, ids).rows, w)
  {
    PushesDoWork(st, w, ids);
    var rows' := ApplyAll(st, w, ids).rows;
    forall i | 0 <= i < |st.rows| ensures RowRank(rows'[i], w) <= RowRank(st.rows[i], w) {
      if k :| 0 <= k < |ids| && ids[k] == i {
        assert RowRank(rows'[ids[k]], w) < RowRank(st.rows[ids[k]], w);
      }
    }
  }

  lemma SweepingHelps(st: CP.State, w: World, limits: Limits, p: Pass)
    requires w.Valid() && ValidPass(st, w, limits, p) && limits.expiryBatch >= 1
    requires exists i | 0 <= i < |st.rows| :: w.Lapsed(st.rows[i])
    ensures Rank(Sweep(st.rows, w, p.users), w) < Rank(st.rows, w)
  {
    var swept := Sweep(st.rows, w, p.users);
    SweepDoesWork(st.rows, w, p.users);
    var i :| 0 <= i < |st.rows| && w.Lapsed(st.rows[i]);
    assert w.owner(st.rows[i].device) in LapsedUsers(st.rows, w);
    assert |p.users| > 0 && p.users[0] in LapsedUsers(st.rows, w);
    var j: int :| 0 <= j < |st.rows| && w.Lapsed(st.rows[j]) && w.owner(st.rows[j].device) == p.users[0];
    assert RowRank(swept[j], w) < RowRank(st.rows[j], w);
    RankFalls(st.rows, swept, w);
  }

  lemma PushingHelps(st: CP.State, w: World, limits: Limits, due: seq<RowId>)
    requires w.Valid() && limits.batchSize >= 1 && Batch(due, DueRows(st.rows, w), limits.batchSize)
    ensures |ApplyAll(st, w, due).rows| == |st.rows|
    ensures Rank(ApplyAll(st, w, due).rows, w) <= Rank(st.rows, w)
    ensures (exists i | 0 <= i < |st.rows| ::
      w.Due(st.rows[i])) ==> Rank(ApplyAll(st, w, due).rows, w) < Rank(st.rows, w)
  {
    PushesOnlyHelp(st, w, due);
    RankFalls(st.rows, ApplyAll(st, w, due).rows, w);
    if i :| 0 <= i < |st.rows| && w.Due(st.rows[i]) {
      assert i in DueRows(st.rows, w);
      assert |due| > 0;
      PushesDoWork(st, w, due);
      assert RowRank(ApplyAll(st, w, due).rows[due[0]], w) < RowRank(st.rows[due[0]], w);
    }
  }

  /** As long as anything is left to do, a pass does some of it: each query that
      has an answer returns one, and every row it returns gets closer to rest. */
  lemma PassDoesWork(st: CP.State, w: World, limits: Limits, p: Pass)
    requires w.Valid() && ValidPass(st, w, limits, p)
    requires limits.expiryBatch >= 1 && limits.batchSize >= 1
    ensures |Once(st, w, limits, p).rows| == |st.rows|
    ensures Rank(Once(st, w, limits, p).rows, w) <= Rank(st.rows, w)
    ensures Rank(st.rows, w) > 0 ==> Rank(Once(st, w, limits, p).rows, w) < Rank(st.rows, w)
  {
    var swept := Sweep(st.rows, w, p.users);
    SweepShape(st.rows, w, p.users);
    SweepDoesWork(st.rows, w, p.users);
    RankFalls(st.rows, swept, w);
    PushingHelps(st.(rows := swept), w, limits, p.due);
    RankIsZeroWhenIdle(st.rows, w);
    if exists i | 0 <= i < |st.rows| :: w.Lapsed(st.rows[i]) {
      SweepingHelps(st, w, limits, p);
    } else {
      assert LapsedUsers(st.rows, w) == {};
      assert p.users == [] && swept == st.rows;
    }
  }

  // ------------------------------------------------------------ invariants

  /** Nothing is deferred except rows on boxes that are down, and those by at most 360 seconds. */
  ghost predicate Deferral(rows: Rows, w: World) {
    forall i | 0 <= i < |rows| && (rows[i].state == Pending || rows[i].state == Revoking) ::
      && rows[i].nextAttempt <= w.now + 360_000_000_000
      && (rows[i].server !in w.down ==> rows[i].nextAttempt <= w.now)
  }

  ghost predicate Sound(st: CP.State, w: World) {
    CP.Accounted(st) && st.wiped == {} && Deferral(st.rows, w)
  }

  lemma {:induction false} SweepKeepsSound(st: CP.State, w: World, users: seq<UserId>)
    requires Sound(st, w)
    ensures Sound(st.(rows := Sweep(st.rows, w, users)), w)
    decreases |users|
  {
    if users != [] {
      var rest := users[..|users| - 1];
      SweepKeepsSound(st, w, rest);
      var mid := st.(rows := Sweep(st.rows, w, rest));
      CP.StepKeepsAccount(mid, map[], CP.StartRevoke(OfDevices(DevicesOf(mid.rows, w, users[|users| - 1])), w.now));
    }
  }

  lemma OnePushKeepsSound(st: CP.State, w: World, id: RowId)
    requires Sound(st, w) && w.Valid() && id < |st.rows|
    ensures Sound(ApplyOne(st, w, id), w)
  {
    var row := st.rows[id];
    if row.server in w.down && (row.state == Pending || row.state == Revoking) {
      var retryAt := w.now + B.Jittered(row.attempts + 1, w.draw(id, row.attempts + 1));
      CP.StepKeepsAccount(st, map[], CP.PushLost(id, "edge: unreachable", retryAt));
    } else {
      CP.StepKeepsAccount(st, map[], CP.PushRow(id, w.now));
    }
  }

  lemma {:induction false} PushesKeepSound(st: CP.State, w: World, ids: seq<RowId>)
    requires Sound(st, w) && w.Valid() && forall k | 0 <= k < |ids| :: ids[k] < |st.rows|
    ensures Sound(ApplyAll(st, w, ids), w)
    decreases |ids|
  {
    if ids != [] {
      var rest := ids[..|ids| - 1];
      PushesKeepSound(st, w, rest);
      OnePushKeepsSound(ApplyAll(st, w, rest), w, ids[|ids| - 1]);
    }
  }

  // --------------------------------------------------------------- backing off

  /** The row's next attempt is d away, give or take a fifth. */
  predicate DueIn(row: Row, now: int, d: int) {
    4 * d <= 5 * (row.nextAttempt - now) <= 6 * d
  }

  /** What a push does to its row is the row's own affair. */
  lemma PushesKeepToTheirRow(st: CP.State, other: CP.State, w: World, id: RowId)
    requires w.Valid() && id < |st.rows| && id < |other.rows| && st.rows[id] == other.rows[id]
    ensures ApplyOne(st, w, id).rows[id] == ApplyOne(other, w, id).rows[id]
  {
  }

  lemma {:induction false} EachRowIsPushedOnce(st: CP.State, w: World, ids: seq<RowId>, k: nat)
    requires w.Valid() && Distinct(ids) && k < |ids|
    requires forall j | 0 <= j < |ids| :: ids[j] < |st.rows| && w.Due(st.rows[ids[j]])
    ensures ApplyAll(st, w, ids).rows[ids[k]] == ApplyOne(st, w, ids[k]).rows[ids[k]]
    decreases |ids|
  {
    var rest, id := ids[..|ids| - 1], ids[|ids| - 1];
    PushesDoWork(st, w, rest);
    var mid := ApplyAll(st, w, rest);
    OnePushDoesWork(mid, w, id);
    if k < |rest| {
      EachRowIsPushedOnce(st, w, rest, k);
      assert rest[k] == ids[k] && ids[k] != id;
    } else {
      assert forall j | 0 <= j < |rest| :: rest[j] == ids[j];
      assert mid.rows[id] == st.rows[id];
      PushesKeepToTheirRow(mid, st, w, id);
    }
  }

  /** What a pass does to a row it picks up. */
  lemma ARowPickedUp(st: CP.State, w: World, limits: Limits, p: Pass, id: RowId)
    requires w.Valid() && ValidPass(st, w, limits, p) && id in p.due && id < |st.rows|
    ensures id < |Once(st, w, limits, p).rows| && id < |Sweep(st.rows, w, p.users)|
    ensures var swept := st.(rows := Sweep(st.rows, w, p.users));
            && w.Due(swept.rows[id]) && swept.rows[id].server == st.rows[id].server
            && Once(st, w, limits, p).rows[id] == ApplyOne(swept, w, id).rows[id]
  {
    SweepShape(st.rows, w, p.users);
    var swept := st.(rows := Sweep(st.rows, w, p.users));
    var k :| 0 <= k < |p.due| && p.due[k] == id;
    assert id in DueRows(swept.rows, w);
    EachRowIsPushedOnce(swept, w, p.due, k);
  }

  /** A row that a pass picks up on a box that is down has one attempt more behind it and
      is put off by two seconds, doubled for each attempt before, up to five minutes, give
      or take a fifth. Nothing else about it changes but the cause on record. */
  lemma AFailedPushIsPutOff(st: CP.State, w: World, limits: Limits, p: Pass, id: RowId)
    requires w.Valid() && ValidPass(st, w, limits, p) && id in p.due && id < |st.rows|
    requires st.rows[id].server in w.down
    ensures id < |Once(st, w, limits, p).rows| && id < |Sweep(st.rows, w, p.users)|
    ensures var (was, row) := (Sweep(st.rows, w, p.users)[id], Once(st, w, limits, p).rows[id]);
            && row == was.(attempts := was.attempts + 1, lastError := "edge: unreachable",
                           nextAttempt := row.nextAttempt)
            && DueIn(row, w.now, Min(2_000_000_000 * Pow2(was.attempts), 300_000_000_000))
  {
    ARowPickedUp(st, w, limits, p, id);
    var n := Sweep(st.rows, w, p.users)[id].attempts + 1;
    B.TheDelayDoublesUpToTheCap(n, w.draw(id, n));
  }

  lemma WholeBatch(ids: seq<int>, all: set<int>, limit: nat)
    requires Batch(ids, all, limit) && limit >= |all|
    ensures forall x | x in all :: x in ids
  {
    var drawn := set k | 0 <= k < |ids| :: ids[k];
    SizeOfDistinct(ids);
    SubsetSize(drawn, all);
    forall x | x in all ensures x in ids { assert x in drawn; }
  }

  lemma {:induction false} SizeOfDistinct(ids: seq<int>)
    requires Distinct(ids)
    ensures |set k | 0 <= k < |ids| :: ids[k]| == |ids|
    decreases |ids|
  {
    if ids != [] {
      var rest := ids[..|ids| - 1];
      SizeOfDistinct(rest);
      var drawn := set k | 0 <= k < |rest| :: rest[k];
      assert (set k | 0 <= k < |ids| :: ids[k]) == drawn + {ids[|ids| - 1]};
    }
  }

  /** Sweeping comes first, so an expiry is acted on in the pass that notices it: if the
      batches are large enough, every row of a lapsed user on a box that answers is
      revoked by the end of the pass, its address free. */
  lemma AnExpiryIsActedOnInThePassThatNoticesIt(st: CP.State, w: World, limits: Limits, p: Pass, id: RowId)
    requires w.Valid() && ValidPass(st, w, limits, p) && id < |st.rows|
    requires w.Lapsed(st.rows[id]) && st.rows[id].server !in w.down
    requires limits.expiryBatch >= |LapsedUsers(st.rows, w)|
    requires limits.batchSize >= |DueRows(Sweep(st.rows, w, p.users), w)|
    ensures id < |Once(st, w, limits, p).rows|
    ensures Once(st, w, limits, p).rows[id].state == Revoked
    ensures Once(st, w, limits, p).rows[id].revision == st.rows[id].revision + 1
  {
    var u := w.owner(st.rows[id].device);
    assert u in LapsedUsers(st.rows, w);
    WholeBatch(p.users, LapsedUsers(st.rows, w), limits.expiryBatch);
    SweepRevokes(st.rows, w, p.users, id);
    var swept := st.(rows := Sweep(st.rows, w, p.users));
    assert id in DueRows(swept.rows, w);
    WholeBatch(p.due, DueRows(swept.rows, w), limits.batchSize);
    ARowPickedUp(st, w, limits, p, id);
  }

  lemma {:induction false} SweepRevokes(rows: Rows, w: World, users: seq<UserId>, id: RowId)
    requires id < |rows| && rows[id].Live() && w.owner(rows[id].device) in users && Distinct(users)
    ensures id < |Sweep(rows, w, users)| && Sweep(rows, w, users)[id] == Revoke(rows[id], w.now)
    decreases |users|
  {
    var rest, last := users[..|users| - 1], users[|users| - 1];
    assert users == rest + [last];
    SweepShape(rows, w, users);
    SweepShape(rows, w, rest);
    SweepUserRows(Sweep(rows, w, rest), w, last);
    if w.owner(rows[id].device) in rest {
      SweepRevokes(rows, w, rest, id);
    } else {
      SweepLeavesOthers(rows, w, rest, id);
    }
  }

  lemma {:induction false} SweepLeavesOthers(rows: Rows, w: World, users: seq<UserId>, id: RowId)
    requires id < |rows| && (!rows[id].Live() || w.owner(rows[id].device) !in users)
    ensures id < |Sweep(rows, w, users)| && Sweep(rows, w, users)[id] == rows[id]
    decreases |users|
  {
    SweepShape(rows, w, users);
    if users != [] {
      var rest := users[..|users| - 1];
      assert users == rest + [users[|users| - 1]];
      SweepLeavesOthers(rows, w, rest, id);
      SweepShape(rows, w, rest);
      SweepUserRows(Sweep(rows, w, rest), w, users[|users| - 1]);
    }
  }

  /** Passes at any times, with anybody entitled and any boxes down in each. */
  datatype Round = Round(w: World, p: Pass)

  /** In each of them the row is picked up on a box that is down, its user not having lapsed. */
  ghost predicate FailsEachTime(st: CP.State, limits: Limits, rounds: seq<Round>, id: RowId)
    decreases |rounds|
  {
    rounds != [] ==>
      var Round(w, p) := rounds[0];
      && w.Valid() && ValidPass(st, w, limits, p) && id in p.due && id < |st.rows|
      && st.rows[id].server in w.down && !w.Lapsed(st.rows[id])
      && FailsEachTime(Once(st, w, limits, p), limits, rounds[1..], id)
  }

  ghost function AfterRounds(st: CP.State, limits: Limits, rounds: seq<Round>, id: RowId): CP.State
    requires FailsEachTime(st, limits, rounds, id)
    decreases |rounds|
  {
    if rounds == [] then st
    else AfterRounds(Once(st, rounds[0].w, limits, rounds[0].p), limits, rounds[1..], id)
  }

  lemma OneMoreFailure(st: CP.State, w: World, limits: Limits, p: Pass, id: RowId)
    requires w.Valid() && ValidPass(st, w, limits, p) && id in p.due && id < |st.rows|
    requires st.rows[id].server in w.down && !w.Lapsed(st.rows[id])
    ensures id < |Once(st, w, limits, p).rows|
    ensures var (was, row) := (st.rows[id], Once(st, w, limits, p).rows[id]);
            && row.attempts == was.attempts + 1 && row.state == was.state && row.revision == was.revision
            && DueIn(row, w.now, Min(2_000_000_000 * Pow2(row.attempts - 1), 300_000_000_000))
  {
    SweepLeavesOthers(st.rows, w, p.users, id);
    AFailedPushIsPutOff(st, w, limits, p, id);
  }

  /** Failure after failure the delay doubles until it reaches five minutes: after k failed
      passes in a row, at whatever times, the row has k more attempts behind it and waits
      2 seconds times 2 to the number of those before the last, or 300 seconds if less. */
  lemma {:induction false} FailuresDoubleTheDelay(st: CP.State, limits: Limits, rounds: seq<Round>, id: RowId)
    requires rounds != [] && FailsEachTime(st, limits, rounds, id)
    ensures id < |st.rows| && id < |AfterRounds(st, limits, rounds, id).rows|
    ensures var (was, row) := (st.rows[id], AfterRounds(st, limits, rounds, id).rows[id]);
            && row.attempts == was.attempts + |rounds|
            && row.state == was.state && row.revision == was.revision
            && DueIn(row, rounds[|rounds| - 1].w.now, Min(2_000_000_000 * Pow2(row.attempts - 1), 300_000_000_000))
    decreases |rounds|
  {
    var Round(w, p) := rounds[0];
    OneMoreFailure(st, w, limits, p, id);
    var st', rest := Once(st, w, limits, p), rounds[1..];
    assert AfterRounds(st, limits, rounds, id) == AfterRounds(st', limits, rest, id);
    if rest != [] { FailuresDoubleTheDelay(st', limits, rest, id); }
  }

  // ----------------------------------------------------------- convergence

  ghost predicate ValidPasses(st: CP.State, w: World, limits: Limits, ps: seq<Pass>)
    requires w.Valid()
    decreases |ps|
  {
    ps != [] ==> ValidPass(st, w, limits, ps[0]) && ValidPasses(Once(st, w, limits, ps[0]), w, limits, ps[1..])
  }

  ghost function Passes(st: CP.State, w: World, limits: Limits, ps: seq<Pass>): CP.State
    requires w.Valid() && ValidPasses(st, w, limits, ps)
    decreases |ps|
  {
    if ps == [] then st else Passes(Once(st, w, limits, ps[0]), w, limits, ps[1..])
  }

  /** Desired and actual agree, except on boxes that are down. */
  ghost predicate Converged(st: CP.State, w: World) {
    forall i | 0 <= i < |st.rows| ::
      match st.rows[i].state
      case Active => w.owner(st.rows[i].device) in w.entitled && st.rows[i].key in st.On(st.rows[i].server)
      case Revoked => true
      case _ => st.rows[i].server in w.down && w.now < st.rows[i].nextAttempt <= w.now + 360_000_000_000
                && (st.rows[i].state == Pending ==> w.owner(st.rows[i].device) in w.entitled)
  }

  /** Whatever the queries return within their limits, after as many passes as the
      rank of the table (at most three per row) nothing is left to do: every row is
      active or revoked, active rows belong to entitled users and have their key on
      their box. A row stays behind only on a box that is down, deferred by at most
      360 seconds. */
  lemma {:induction false} RepeatedPassesConverge(st: CP.State, w: World, limits: Limits, ps: seq<Pass>)
    requires w.Valid() && Sound(st, w) && ValidPasses(st, w, limits, ps)
    requires limits.expiryBatch >= 1 && limits.batchSize >= 1
    ensures Rank(st.rows, w) <= 3 * |st.rows|
    ensures |ps| >= Rank(st.rows, w) ==> Converged(Passes(st, w, limits, ps), w)
    decreases |ps|
  {
    RankIsZeroWhenIdle(st.rows, w);
    if ps == [] {
      if Rank(st.rows, w) == 0 { IdleMeansConverged(st, w); }
    } else {
      PassIsSound(st, w, limits, ps[0]);
      RepeatedPassesConverge(Once(st, w, limits, ps[0]), w, limits, ps[1..]);
    }
  }

  lemma IdleMeansConverged(st: CP.State, w: World)
    requires Sound(st, w) && Rank(st.rows, w) == 0
    ensures Converged(st, w)
  {
    RankIsZeroWhenIdle(st.rows, w);
    forall i | 0 <= i < |st.rows|
      ensures RowRank(st.rows[i], w) == 0
      ensures st.rows[i].state == Active ==> st.rows[i].key in st.On(st.rows[i].server)
    {
      assert CP.RowAgainstEdge(st, i);
    }
  }

  // ---------------------------------------------------------------- the loop

  /** A LIMIT query fed one candidate at a time. */
  function Collect(ids: seq<int>, limit: nat, x: int): seq<int> {
    if |ids| < limit && x !in ids then ids + [x] else ids
  }

  ghost predicate Collected(ids: seq<int>, all: set<int>, limit: nat) {
    && Batch(ids, all, limit)
    && (|ids| < limit ==> forall x | x in all :: x in ids)
  }

  lemma CollectKeeps(ids: seq<int>, all: set<int>, limit: nat, x: int)
    requires Collected(ids, all, limit)
    ensures Collected(Collect(ids, limit, x), all + {x}, limit)
  {
    if x in all {
      assert all + {x} == all;
    } else {
      assert |all + {x}| == |all| + 1;
      assert x !in ids;
    }
  }

  /** One whole pass keeps the invariants and, while there is any work, does some. */
  lemma PassIsSound(st: CP.State, w: World, limits: Limits, p: Pass)
    requires w.Valid() && Sound(st, w) && ValidPass(st, w, limits, p)
    requires limits.expiryBatch >= 1 && limits.batchSize >= 1
    ensures var st' := Once(st, w, limits, p);
            && Sound(st', w) && |st'.rows| == |st.rows|
            && Rank(st'.rows, w) <= Max(0, Rank(st.rows, w) - 1)
  {
    SweepShape(st.rows, w, p.users);
    SweepKeepsSound(st, w, p.users);
    PushesKeepSound(st.(rows := Sweep(st.rows, w, p.users)), w, p.due);
    PassDoesWork(st, w, limits, p);
  }

  /** ORDER BY next_attempt_at, then LIMIT: in order, and none left out has waited longer. */
  ghost predicate LongestFirst(ids: seq<RowId>, all: set<int>, rows: Rows)
    requires forall i | i in all :: 0 <= i < |rows|
  {
    && (forall k | 0 <= k < |ids| :: ids[k] in all)
    && (forall j, k | 0 <= j < k < |ids| :: rows[ids[j]].nextAttempt <= rows[ids[k]].nextAttempt)
    && (forall k, i | 0 <= k < |ids| && i in all && i !in ids :: rows[ids[k]].nextAttempt <= rows[i].nextAttempt)
  }

  /** ids has been drawn from all, leaving waiting. */
  ghost predicate Drawn(ids: seq<int>, waiting: set<int>, all: set<int>) {
    && waiting <= all && |ids| + |waiting| == |all|
    && (forall k | 0 <= k < |ids| :: ids[k] in all && ids[k] !in waiting)
    && (forall j, k | 0 <= j < k < |ids| :: ids[j] != ids[k])
    && (forall x | x in all && x !in ids :: x in waiting)
  }

  lemma DrawOne(ids: seq<RowId>, waiting: set<int>, all: set<int>, rows: Rows, next: RowId)
    requires forall i | i in all :: 0 <= i < |rows|
    requires Drawn(ids, waiting, all) && LongestFirst(ids, all, rows) && next in waiting
    requires forall i | i in waiting :: rows[next].nextAttempt <= rows[i].nextAttempt
    ensures Drawn(ids + [next], waiting - {next}, all) && LongestFirst(ids + [next], all, rows)
  {
    assert next !in ids;
    assert |waiting - {next}| == |waiting| - 1;
  }

  lemma SomeMember(s: set<int>)
    requires s != {}
    ensures exists x :: x in s
  {
    if forall x :: x !in s { assert false; }
  }

  class Loop {
    var st: CP.State
    const w: World
    const limits: Limits

    constructor (st: CP.State, w: World, limits: Limits)
      ensures this.st == st && this.w == w && this.limits == limits
    {
      this.st, this.w, this.limits := st, w, limits;
    }

    /** ExpiredUserIDs: distinct owners of live rows with no time left, at most `expiryBatch`. */
    method ExpiredUserIds() returns (users: seq<UserId>)
      ensures Batch(users, LapsedUsers(st.rows, w), limits.expiryBatch)
    {
      users := [];
      ghost var found: set<int> := {};
      for i := 0 to |st.rows|
        invariant found == LapsedUsers(st.rows[..i], w)
        invariant Collected(users, found, limits.expiryBatch)
      {
        LapsedGrows(i);
        if w.Lapsed(st.rows[i]) {
          var u := w.owner(st.rows[i].device);
          CollectKeeps(users, found, limits.expiryBatch, u);
          users := Collect(users, limits.expiryBatch, u);
          found := found + {u};
        }
      }
      assert st.rows[..|st.rows|] == st.rows;
    }

    lemma LapsedGrows(i: nat)
      requires i < |st.rows|
      ensures LapsedUsers(st.rows[..i + 1], w) ==
              LapsedUsers(st.rows[..i], w) + if w.Lapsed(st.rows[i]) then {w.owner(st.rows[i].device)} else {}
    {
      var a, b := st.rows[..i], st.rows[..i + 1];
      forall u | u in LapsedUsers(a, w) ensures u in LapsedUsers(b, w) {
        var k: int :| 0 <= k < |a| && w.Lapsed(a[k]) && w.owner(a[k].device) == u;
        assert b[k] == a[k];
      }
      forall u | u in LapsedUsers(b, w)
        ensures u in LapsedUsers(a, w) || (w.Lapsed(st.rows[i]) && u == w.owner(st.rows[i].device))
      {
        var k: int :| 0 <= k < |b| && w.Lapsed(b[k]) && w.owner(b[k].device) == u;
        if k < i { assert a[k] == b[k]; }
      }
      if w.Lapsed(st.rows[i]) { assert b[i] == st.rows[i]; }
    }

    /** The row of a set that has waited longest for its push. */
    method LongestWaiting(waiting: set<int>) returns (first: RowId)
      requires waiting != {} && forall i | i in waiting :: 0 <= i < |st.rows|
      ensures first in waiting
      ensures forall i | i in waiting :: st.rows[first].nextAttempt <= st.rows[i].nextAttempt
    {
      SomeMember(waiting);
      var x :| x in waiting;
      first := x;
      var rest := waiting - {x};
      while rest != {}
        invariant rest <= waiting && first in waiting
        invariant forall i | i in waiting - rest :: st.rows[first].nextAttempt <= st.rows[i].nextAttempt
      {
        SomeMember(rest);
        var i :| i in rest;
        if st.rows[i].nextAttempt < st.rows[first].nextAttempt { first := i; }
        rest := rest - {i};
      }
    }

    /** DueAssignments: rows waiting for a push whose time has come, those due longest
        first, at most `batchSize`. */
    method DueAssignments() returns (due: seq<RowId>)
      ensures Batch(due, DueRows(st.rows, w), limits.batchSize)
      ensures LongestFirst(due, DueRows(st.rows, w), st.rows)
    {
      due := [];
      var waiting := set i: int | 0 <= i < |st.rows| && w.Due(st.rows[i]);
      while |due| < limits.batchSize && waiting != {}
        invariant Drawn(due, waiting, DueRows(st.rows, w)) && |due| <= limits.batchSize
        invariant LongestFirst(due, DueRows(st.rows, w), st.rows)
        decreases waiting
      {
        var next := LongestWaiting(waiting);
        DrawOne(due, waiting, DueRows(st.rows, w), st.rows, next);
        due := due + [next];
        waiting := waiting - {next};
      }
      assert waiting == {} ==> |due| == |DueRows(st.rows, w)|;
    }

    method SweepExpired() returns (ghost users: seq<UserId>)
      modifies this`st
      ensures Batch(users, LapsedUsers(old(st).rows, w), limits.expiryBatch)
      ensures st == old(st).(rows := Sweep(old(st).rows, w, users))
    {
      var ids := ExpiredUserIds();
      for i := 0 to |ids|
        invariant st == old(st).(rows := Sweep(old(st).rows, w, ids[..i]))
      {
        assert ids[..i + 1][..i] == ids[..i];
        st := st.(rows := SweepUser(st.rows, w, ids[i]));
      }
      assert ids[..|ids|] == ids;
      users := ids;
    }

    method ApplyDue() returns (ghost due: seq<RowId>)
      requires w.Valid()
      modifies this`st
      ensures Batch(due, DueRows(old(st).rows, w), limits.batchSize)
      ensures st == ApplyAll(old(st), w, due)
    {
      var ids := DueAssignments();
      assert forall k | 0 <= k < |ids| :: ids[k] in DueRows(st.rows, w);
      for i := 0 to |ids|
        invariant |st.rows| == |old(st).rows|
        invariant st == ApplyAll(old(st), w, ids[..i])
      {
        assert ids[..i + 1][..i] == ids[..i] && ids[i] in DueRows(old(st).rows, w);
        st := ApplyOne(st, w, ids[i]);
      }
      assert ids[..|ids|] == ids;
      due := ids;
    }

    /** One pass: it is one of the passes the convergence theorem speaks about. */
    method OncePass() returns (ghost p: Pass)
      requires w.Valid()
      modifies this`st
      ensures ValidPass(old(st), w, limits, p)
      ensures st == Once(old(st), w, limits, p)
    {
      ghost var users := SweepExpired();
      ghost var due := ApplyDue();
      p := Pass(users, due);
    }

    /** One tick leaves less to do. */
    method Tick()
      requires w.Valid() && Sound(st, w) && limits.expiryBatch >= 1 && limits.batchSize >= 1
      modifies this`st
      ensures Sound(st, w) && |st.rows| == |old(st).rows|
      ensures Rank(st.rows, w) <= Max(0, Rank(old(st).rows, w) - 1)
    {
      ghost var p := OncePass();
      PassIsSound(old(st), w, limits, p);
    }

    /** Run, for a number of ticks: with three per row, the fleet has converged. */
    method RunFor(ticks: nat)
      requires w.Valid() && Sound(st, w) && limits.expiryBatch >= 1 && limits.batchSize >= 1
      modifies this`st
      ensures Sound(st, w) && |st.rows| == |old(st).rows|
      ensures ticks >= 3 * |old(st).rows| ==> Converged(st, w)
    {
      RankIsZeroWhenIdle(st.rows, w);
      ghost var work, size := Rank(st.rows, w), |st.rows|;
      for t := 0 to ticks
        invariant Sound(st, w) && |st.rows| == size
        invariant Rank(st.rows, w) <= Max(0, work - t)
      {
        Tick();
      }
      if Rank(st.rows, w) == 0 { IdleMeansConverged(st, w); }
    }
  }
}

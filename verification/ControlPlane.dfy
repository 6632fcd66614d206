/**
 Table and edges together, at the grain where a push either takes effect on the
 edge and is recorded, or does nothing (edge.Fake). Edge boxes may be wiped at
 any time; devices rotate keys and never bring an old key back.
 */
module ControlPlane {
  import opened Prelude
  import opened PeerRows

  datatype State = State(
    rows: Rows,
    edge: map<ServerId, set<Key>>,       // keys installed on each box
    made: map<DeviceId, nat>,            // rotations each device has made
    // History: every key each row has ever carried, and boxes wiped since their last resync.
    held: seq<set<Key>>,
    wiped: set<ServerId>)
  {
    function On(s: ServerId): set<Key> { if s in edge then edge[s] else {} }

    /** devices.public_key: the device's present key. */
    function KeyOf(d: DeviceId): Key { Key(d, if d in made then made[d] else 0) }
  }

  const INITIAL := State([], map[], map[], [], {})

  datatype Event =
    | Rotate(d: DeviceId)
    | Want(d: DeviceId, s: ServerId, at: int)          // EnsureAssignment with the present key
    | PushRow(id: RowId, at: int)                      // reconciler or request push, answered and recorded
    | PushLost(id: RowId, cause: string, retryAt: int) // push failed
    | StartRevoke(scope: Scope, at: int)
    | MarkStale(s: ServerId, at: int)
    | Wipe(s: ServerId)
    | ResyncBox(s: ServerId, at: int)

  /** applyOne on a fresh row: ApplyPeer removes the replaced key and installs the
      present one; RemovePeer names the present key only. */
  function PushEffect(st: State, id: RowId, at: int): State
    requires id < |st.rows|
  {
    var row := st.rows[id];
    match row.state
    case Pending =>
      var replaced := if row.prev.Some? then {row.prev.value} else {};
      st.(edge := st.edge[row.server := st.On(row.server) - replaced + {row.key}],
          rows := MarkApplied(st.rows, id, row.revision, at))
    case Revoking =>
      st.(edge := st.edge[row.server := st.On(row.server) - {row.key}],
          rows := MarkRevoked(st.rows, id, row.revision, at))
    case _ => st
  }

  function LiveKeys(rows: Rows, s: ServerId): set<Key> {
    set i: int | 0 <= i < |rows| && rows[i].server == s && rows[i].Live() :: rows[i].key
  }

  /** Resync's writes after SyncPeers answered: MarkApplied for each row read as pending. */
  function MarkAllApplied(rows: Rows, s: ServerId, at: int): (r: Rows)
    ensures |r| == |rows|
  {
    seq(|rows|, i requires 0 <= i < |rows| =>
      if rows[i].server == s then MarkApplied(rows, i, rows[i].revision, at)[i] else rows[i])
  }

  function Next(st: State, subnets: Subnets, e: Event): State {
    match e
    case Rotate(d) => st.(made := st.made[d := st.KeyOf(d).generation + 1])
    case Want(d, s, at) =>
      var (rows, r) := Ensure(st.rows, subnets, d, s, st.KeyOf(d), at);
      if r.Failure? then st
      else if r.value == |st.rows| then st.(rows := rows, held := st.held + [{st.KeyOf(d)}])
      else st.(rows := rows,
               held := if r.value < |st.held| then st.held[r.value := st.held[r.value] + {st.KeyOf(d)}] else st.held)
    case PushRow(id, at) => if id < |st.rows| then PushEffect(st, id, at) else st
    case PushLost(id, cause, retryAt) => st.(rows := MarkAttemptFailed(st.rows, id, cause, retryAt))
    case StartRevoke(scope, at) => st.(rows := BeginRevoke(st.rows, scope, at))
    case MarkStale(s, at) => st.(rows := MarkServerPeersStale(st.rows, s, at))
    case Wipe(s) => st.(edge := st.edge[s := {}], wiped := st.wiped + {s})
    case ResyncBox(s, at) =>
      st.(edge := st.edge[s := LiveKeys(st.rows, s)], rows := MarkAllApplied(st.rows, s, at),
          wiped := st.wiped - {s})
  }

  function Run(st: State, subnets: Subnets, es: seq<Event>): State
    decreases |es|
  {
    if es == [] then st else Run(Next(st, subnets, es[0]), subnets, es[1..])
  }

  // -------------------------------------------------------- key accounting

  ghost predicate KeyOwned(st: State, i: nat)
    requires i < |st.rows| == |st.held|
  {
    var row := st.rows[i];
    && row.key in st.held[i]
    && (row.prev.Some? ==> row.prev.value in st.held[i] && row.prev.value.generation < row.key.generation)
    && (row.state == Active ==> row.prev == None)
    && row.key.generation <= st.KeyOf(row.device).generation
    && forall k | k in st.held[i] :: k.device == row.device && k.generation <= row.key.generation
  }

  /** Rows of one (device, server) follow one another: only the last may be held,
      and each starts no earlier in the device's keys than its predecessor ended. */
  ghost predicate Successive(st: State, i: nat, j: nat)
    requires i < |st.rows| == |st.held| && j < |st.rows|
  {
    i < j && st.rows[i].device == st.rows[j].device && st.rows[i].server == st.rows[j].server ==>
      !st.rows[i].Held() && forall k | k in st.held[j] :: st.rows[i].key.generation <= k.generation
  }

  /** Row i answers for key k being installed on its server. */
  predicate Accounts(row: Row, s: ServerId, k: Key) {
    row.server == s && ((row.Held() && row.key == k) || row.prev == Some(k))
  }

  ghost predicate RowAgainstEdge(st: State, i: nat)
    requires i < |st.rows| == |st.held|
  {
    var row := st.rows[i];
    row.Held() ==>
      && (row.prev.Some? ==> row.key !in st.On(row.server))
      && (forall k | k in st.held[i] && k in st.On(row.server) :: k == row.key || row.prev == Some(k))
      && (row.state == Active && row.server !in st.wiped ==> row.key in st.On(row.server))
  }

  ghost predicate KeyAccounted(st: State, s: ServerId, k: Key) {
    k in st.On(s) ==> exists i | 0 <= i < |st.rows| :: Accounts(st.rows[i], s, k)
  }

  ghost predicate Accounted(st: State) {
    && |st.rows| == |st.held|
    && (forall i | 0 <= i < |st.rows| :: KeyOwned(st, i) && RowAgainstEdge(st, i))
    && (forall i, j | 0 <= i < |st.rows| && 0 <= j < |st.rows| :: Successive(st, i, j))
    && (forall s, k :: KeyAccounted(st, s, k))
  }

  /** No two held rows of one server carry or replace the same key. */
  lemma HeldKeysApart(st: State, i: nat, j: nat)
    requires Accounted(st) && i < |st.rows| && j < |st.rows| && i != j
    requires st.rows[i].Held() && st.rows[j].Held() && st.rows[i].server == st.rows[j].server
    ensures st.rows[i].device != st.rows[j].device
  {
    assert Successive(st, i, j) && Successive(st, j, i);
  }

  /** A key no row has carried yet is on no edge. */
  lemma FreshKeyIsNowhere(st: State, d: DeviceId, s: ServerId)
    requires Accounted(st)
    requires forall i | 0 <= i < |st.rows| && st.rows[i].Held() && st.rows[i].device == d && st.rows[i].server == s ::
               st.rows[i].key != st.KeyOf(d)
    ensures st.KeyOf(d) !in st.On(s)
  {
    forall i | 0 <= i < |st.rows| ensures !Accounts(st.rows[i], s, st.KeyOf(d)) {
      assert KeyOwned(st, i);
    }
    assert KeyAccounted(st, s, st.KeyOf(d));
  }

  /** A first row for (d, s), or the next one after a revoked one. */
  lemma InsertKeepsAccount(st: State, d: DeviceId, s: ServerId, ip: int, at: int)
    requires Accounted(st)
    requires forall i | 0 <= i < |st.rows| && st.rows[i].device == d && st.rows[i].server == s :: !st.rows[i].Held()
    ensures Accounted(st.(rows := st.rows + [FreshRow(d, s, st.KeyOf(d), ip, at)], held := st.held + [{st.KeyOf(d)}]))
  {
    var st' := st.(rows := st.rows + [FreshRow(d, s, st.KeyOf(d), ip, at)], held := st.held + [{st.KeyOf(d)}]);
    FreshKeyIsNowhere(st, d, s);
    forall i | 0 <= i < |st'.rows| ensures KeyOwned(st', i) && RowAgainstEdge(st', i) {
      if i < |st.rows| { assert KeyOwned(st, i) && RowAgainstEdge(st, i); }
    }
    forall i, j | 0 <= i < |st'.rows| && 0 <= j < |st'.rows| ensures Successive(st', i, j) {
      if i < |st.rows| {
        assert KeyOwned(st, i);
        if j < |st.rows| { assert Successive(st, i, j); }
      }
    }
    forall t, k ensures KeyAccounted(st', t, k) {
      assert KeyAccounted(st, t, k);
      if k in st.On(t) {
        var i :| 0 <= i < |st.rows| && Accounts(st.rows[i], t, k);
        assert Accounts(st'.rows[i], t, k);
      }
    }
  }

  /** A held row asked for again: the same key, or the device's present one. */
  lemma RedesireKeepsAccount(st: State, id: RowId, at: int)
    requires Accounted(st) && id < |st.rows| && st.rows[id].Held()
    ensures var key := st.KeyOf(st.rows[id].device);
            Accounted(st.(rows := st.rows[id := Redesire(st.rows[id], key, at)],
                          held := st.held[id := st.held[id] + {key}]))
  {
    var row := st.rows[id];
    var key := st.KeyOf(row.device);
    var st' := st.(rows := st.rows[id := Redesire(row, key, at)], held := st.held[id := st.held[id] + {key}]);
    assert KeyOwned(st, id) && RowAgainstEdge(st, id);
    if row.key != key {
      forall i | 0 <= i < |st.rows| && st.rows[i].Held() && st.rows[i].device == row.device
        && st.rows[i].server == row.server
        ensures i == id
      {
        if i != id { HeldKeysApart(st, i, id); }
      }
      FreshKeyIsNowhere(st, row.device, row.server);
    }
    forall i | 0 <= i < |st'.rows| ensures KeyOwned(st', i) && RowAgainstEdge(st', i) {
      assert KeyOwned(st, i) && RowAgainstEdge(st, i);
    }
    forall i, j | 0 <= i < |st'.rows| && 0 <= j < |st'.rows| ensures Successive(st', i, j) {
      assert Successive(st, i, j) && KeyOwned(st, i);
    }
    forall t, k ensures KeyAccounted(st', t, k) {
      assert KeyAccounted(st, t, k);
      if k in st.On(t) {
        var i :| 0 <= i < |st.rows| && Accounts(st.rows[i], t, k);
        assert Accounts(st'.rows[i], t, k);
      }
    }
  }

  lemma WantKeepsAccount(st: State, subnets: Subnets, d: DeviceId, s: ServerId, at: int)
    requires Accounted(st)
    ensures Accounted(Next(st, subnets, Want(d, s, at)))
  {
    var st' := Next(st, subnets, Want(d, s, at));
    if s in subnets {
      match FindHeld(st.rows, d, s) {
        case Some(i) =>
          assert KeyOwned(st, i);
          if st.rows[i].key == st.KeyOf(d) && st.rows[i].state != Revoking {
            assert st.held[i] + {st.KeyOf(d)} == st.held[i];
            assert st' == st;
          } else {
            RedesireKeepsAccount(st, i, at);
          }
        case None =>
          if Allocate(st.rows, s, subnets[s]).Some? {
            InsertKeepsAccount(st, d, s, Allocate(st.rows, s, subnets[s]).value, at);
          }
      }
    }
  }

  lemma PushKeepsRows(st: State, id: RowId, at: int)
    requires Accounted(st) && id < |st.rows| && (st.rows[id].state == Pending || st.rows[id].state == Revoking)
    ensures var st' := PushEffect(st, id, at);
            forall i | 0 <= i < |st'.rows| :: KeyOwned(st', i) && RowAgainstEdge(st', i)
  {
    var st' := PushEffect(st, id, at);
    assert KeyOwned(st, id) && RowAgainstEdge(st, id);
    forall i | 0 <= i < |st'.rows| ensures KeyOwned(st', i) && RowAgainstEdge(st', i) {
      assert KeyOwned(st, i) && RowAgainstEdge(st, i);
      if i != id && st.rows[i].Held() && st.rows[i].server == st.rows[id].server { HeldKeysApart(st, i, id); }
    }
  }

  lemma PushKeepsAccount(st: State, subnets: Subnets, id: RowId, at: int)
    requires Accounted(st) && id < |st.rows|
    ensures Accounted(PushEffect(st, id, at))
  {
    var st' := PushEffect(st, id, at);
    var row := st.rows[id];
    if row.state == Pending || row.state == Revoking {
      PushKeepsRows(st, id, at);
      forall i, j | 0 <= i < |st'.rows| && 0 <= j < |st'.rows| ensures Successive(st', i, j) {
        assert Successive(st, i, j);
      }
      forall t, k ensures KeyAccounted(st', t, k) {
        assert KeyAccounted(st, t, k);
        if t == row.server && row.state == Pending && k == row.key {
          assert Accounts(st'.rows[id], t, k);
        } else if k in st'.On(t) {
          var i :| 0 <= i < |st.rows| && Accounts(st.rows[i], t, k);
          assert Accounts(st'.rows[i], t, k);
        }
      }
    }
  }

  lemma ResyncKeepsAccount(st: State, subnets: Subnets, s: ServerId, at: int)
    requires Accounted(st)
    ensures Accounted(Next(st, subnets, ResyncBox(s, at)))
  {
    var st' := Next(st, subnets, ResyncBox(s, at));
    forall i | 0 <= i < |st'.rows| ensures KeyOwned(st', i) && RowAgainstEdge(st', i) {
      assert KeyOwned(st, i) && RowAgainstEdge(st, i);
      if st.rows[i].server == s && st.rows[i].Held() {
        forall k | k in LiveKeys(st.rows, s) && k in st.held[i] ensures st.rows[i].Live() && k == st.rows[i].key {
          var j: int :| 0 <= j < |st.rows| && st.rows[j].server == s && st.rows[j].Live() && st.rows[j].key == k;
          assert KeyOwned(st, j);
          if i != j { HeldKeysApart(st, i, j); }
        }
      }
    }
    forall i, j | 0 <= i < |st'.rows| && 0 <= j < |st'.rows| ensures Successive(st', i, j) {
      assert Successive(st, i, j);
    }
    forall t, k ensures KeyAccounted(st', t, k) {
      assert KeyAccounted(st, t, k);
      if t == s && k in st'.On(s) {
        var i: int :| 0 <= i < |st.rows| && st.rows[i].server == s && st.rows[i].Live() && st.rows[i].key == k;
        assert Accounts(st'.rows[i], t, k);
      } else if k in st'.On(t) {
        var i :| 0 <= i < |st.rows| && Accounts(st.rows[i], t, k);
        assert Accounts(st'.rows[i], t, k);
      }
    }
  }

  /** Writes that leave every key, replaced key and box alone, and make no row active. */
  lemma QuietStepKeepsAccount(st: State, st': State)
    requires Accounted(st)
    requires Settles(st.rows, st'.rows) && st'.held == st.held
    requires st'.edge == st.edge && st'.wiped >= st.wiped
    requires forall d :: st'.KeyOf(d).generation >= st.KeyOf(d).generation
    requires forall i | 0 <= i < |st.rows| ::
               && st'.rows[i].key == st.rows[i].key && st'.rows[i].prev == st.rows[i].prev
               && (st'.rows[i].Held() <==> st.rows[i].Held())
               && (st'.rows[i].state == Active ==> st.rows[i].state == Active)
    ensures Accounted(st')
  {
    forall i | 0 <= i < |st'.rows| ensures KeyOwned(st', i) && RowAgainstEdge(st', i) {
      assert KeyOwned(st, i) && RowAgainstEdge(st, i);
    }
    forall i, j | 0 <= i < |st'.rows| && 0 <= j < |st'.rows| ensures Successive(st', i, j) {
      assert Successive(st, i, j);
    }
    forall t, k ensures KeyAccounted(st', t, k) {
      assert KeyAccounted(st, t, k);
      if k in st.On(t) {
        var i :| 0 <= i < |st.rows| && Accounts(st.rows[i], t, k);
        assert Accounts(st'.rows[i], t, k);
      }
    }
  }

  lemma WipeKeepsAccount(st: State, subnets: Subnets, s: ServerId)
    requires Accounted(st)
    ensures Accounted(Next(st, subnets, Wipe(s)))
  {
    var st' := Next(st, subnets, Wipe(s));
    forall i | 0 <= i < |st'.rows| ensures KeyOwned(st', i) && RowAgainstEdge(st', i) {
      assert KeyOwned(st, i) && RowAgainstEdge(st, i);
    }
    forall i, j | 0 <= i < |st'.rows| && 0 <= j < |st'.rows| ensures Successive(st', i, j) {
      assert Successive(st, i, j);
    }
    forall t, k ensures KeyAccounted(st', t, k) {
      assert KeyAccounted(st, t, k);
      if k in st'.On(t) {
        var i :| 0 <= i < |st.rows| && Accounts(st.rows[i], t, k);
        assert Accounts(st'.rows[i], t, k);
      }
    }
  }

  lemma StepKeepsAccount(st: State, subnets: Subnets, e: Event)
    requires Accounted(st)
    ensures Accounted(Next(st, subnets, e))
  {
    match e
    case Want(d, s, at) => WantKeepsAccount(st, subnets, d, s, at);
    case PushRow(id, at) => if id < |st.rows| { PushKeepsAccount(st, subnets, id, at); }
    case ResyncBox(s, at) => ResyncKeepsAccount(st, subnets, s, at);
    case Wipe(s) => WipeKeepsAccount(st, subnets, s);
    case _ => QuietStepKeepsAccount(st, Next(st, subnets, e));
  }

  lemma {:induction false} RunKeepsAccount(st: State, subnets: Subnets, es: seq<Event>)
    requires Accounted(st)
    ensures Accounted(Run(st, subnets, es))
    decreases |es|
  {
    if es != [] {
      StepKeepsAccount(st, subnets, es[0]);
      RunKeepsAccount(Next(st, subnets, es[0]), subnets, es[1..]);
    }
  }

  /** After any run, wipes included: every installed key is the present key of a
      held row there or the replaced key of some row there; an active row has no
      other key it ever carried still installed; and on a box not wiped since its
      last resync, an active row's key is installed. */
  lemma EveryInstalledKeyIsAccountedFor(subnets: Subnets, es: seq<Event>)
    ensures var st := Run(INITIAL, subnets, es);
            && |st.held| == |st.rows|
            && (forall s, k | k in st.On(s) :: exists i | 0 <= i < |st.rows| :: Accounts(st.rows[i], s, k))
            && (forall i, k | 0 <= i < |st.rows| && st.rows[i].state == Active
                              && k in st.held[i] && k in st.On(st.rows[i].server) :: k == st.rows[i].key)
            && (forall i | 0 <= i < |st.rows| && st.rows[i].state == Active && st.rows[i].server !in st.wiped ::
                  st.rows[i].key in st.On(st.rows[i].server))
  {
    RunKeepsAccount(INITIAL, subnets, es);
    var st := Run(INITIAL, subnets, es);
    forall s, k | k in st.On(s) ensures exists i | 0 <= i < |st.rows| :: Accounts(st.rows[i], s, k) {
      assert KeyAccounted(st, s, k);
    }
    forall i | 0 <= i < |st.rows| && st.rows[i].state == Active
      ensures st.rows[i].server !in st.wiped ==> st.rows[i].key in st.On(st.rows[i].server)
      ensures forall k | k in st.held[i] && k in st.On(st.rows[i].server) :: k == st.rows[i].key
    {
      assert KeyOwned(st, i) && RowAgainstEdge(st, i);
    }
  }

  /** Resync leaves the box with the keys of its pending and active rows, all of
      them, nothing else, and every such row active: whatever was on it before. */
  lemma ResyncIsExact(st: State, subnets: Subnets, s: ServerId, at: int)
    ensures var st' := Next(st, subnets, ResyncBox(s, at));
            && (forall k :: k in st'.On(s) <==>
                  exists i | 0 <= i < |st'.rows| ::
                    st'.rows[i].server == s && st'.rows[i].state == Active && st'.rows[i].key == k)
            && (forall i | 0 <= i < |st'.rows| && st'.rows[i].server == s :: st'.rows[i].state != Pending)
            && (forall t | t != s :: st'.On(t) == st.On(t))
            && (forall i | 0 <= i < |st.rows| :: st'.rows[i].Live() <==> st.rows[i].Live())
  {
    var st' := Next(st, subnets, ResyncBox(s, at));
    forall k | k in st'.On(s)
      ensures exists i | 0 <= i < |st'.rows| ::
        st'.rows[i].server == s && st'.rows[i].state == Active && st'.rows[i].key == k
    {
      var i: int :| 0 <= i < |st.rows| && st.rows[i].server == s && st.rows[i].Live() && st.rows[i].key == k;
      assert st'.rows[i].server == s && st'.rows[i].state == Active && st'.rows[i].key == k;
    }
  }

  lemma StepKeepsIndexes(st: State, subnets: Subnets, e: Event)
    requires Indexed(st.rows, subnets)
    ensures Indexed(Next(st, subnets, e).rows, subnets)
  {
    match e {
      case Want(d, s, at) => EnsureKeepsIndexes(st.rows, subnets, d, s, st.KeyOf(d), at);
      case PushRow(id, at) => SettlingKeepsIndexes(st.rows, Next(st, subnets, e).rows, subnets);
      case ResyncBox(s, at) => SettlingKeepsIndexes(st.rows, MarkAllApplied(st.rows, s, at), subnets);
      case _ => SettlingKeepsIndexes(st.rows, Next(st, subnets, e).rows, subnets);
    }
  }

  lemma {:induction false} RunKeepsIndexes(st: State, subnets: Subnets, es: seq<Event>)
    requires Indexed(st.rows, subnets)
    ensures Indexed(Run(st, subnets, es).rows, subnets)
    decreases |es|
  {
    if es != [] {
      StepKeepsIndexes(st, subnets, es[0]);
      RunKeepsIndexes(Next(st, subnets, es[0]), subnets, es[1..]);
    }
  }

  // ------------------------------------------------- keys left behind

  /** Removing a row's peer rids its box of every key the row ever carried if and
      only if the key it replaces, if any, is not installed there: removal names the
      present key only. A row that replaces none, as one can read from it, is clean. */
  lemma RevocationIsCleanExactlyWhen(st: State, id: RowId, at: int)
    requires Accounted(st) && id < |st.rows| && st.rows[id].state == Revoking
    ensures var row := st.rows[id];
            var st' := PushEffect(st, id, at);
            && st'.rows[id].state == Revoked
            && ((forall k | k in st.held[id] :: k !in st'.On(row.server)) <==>
                  row.prev.None? || row.prev.value !in st.On(row.server))
  {
    assert KeyOwned(st, id) && RowAgainstEdge(st, id);
  }

  /** An installed key its device has moved on from, which no held row of the server
      carries or replaces: nothing in the table names it any more. */
  ghost predicate LeftBehind(st: State, s: ServerId, k: Key) {
    && k in st.On(s)
    && k.generation < st.KeyOf(k.device).generation
    && forall i | 0 <= i < |st.rows| && st.rows[i].server == s && st.rows[i].Held() ::
         st.rows[i].key != k && st.rows[i].prev != Some(k)
  }

  lemma StepLeavesItBehind(st: State, subnets: Subnets, e: Event, s: ServerId, k: Key)
    requires LeftBehind(st, s, k) && e != Wipe(s) && !(e.ResyncBox? && e.s == s)
    ensures LeftBehind(Next(st, subnets, e), s, k)
  {
    var st' := Next(st, subnets, e);
    forall i | 0 <= i < |st'.rows| && st'.rows[i].server == s && st'.rows[i].Held()
      ensures st'.rows[i].key != k && st'.rows[i].prev != Some(k)
    {
      if i < |st.rows| { assert st.rows[i].server == s && st.rows[i].Held(); }
    }
  }

  /** Such a key stays on the box through every run, however long and whatever else
      happens, until the box is wiped or resynced. */
  lemma {:induction false} LeftBehindUntilWipeOrResync(st: State, subnets: Subnets, es: seq<Event>, s: ServerId, k: Key)
    requires LeftBehind(st, s, k)
    requires forall i | 0 <= i < |es| :: es[i] != Wipe(s) && !(es[i].ResyncBox? && es[i].s == s)
    ensures LeftBehind(Run(st, subnets, es), s, k)
    decreases |es|
  {
    if es != [] {
      StepLeavesItBehind(st, subnets, es[0], s, k);
      LeftBehindUntilWipeOrResync(Next(st, subnets, es[0]), subnets, es[1..], s, k);
    }
  }

  /** An unclean revocation is how keys are left behind: the replaced key is then
      named by no row, and stays. */
  lemma AnUncleanRevocationLeavesTheReplacedKey(st: State, subnets: Subnets, id: RowId, at: int, es: seq<Event>)
    requires Accounted(st) && id < |st.rows| && st.rows[id].state == Revoking
    requires st.rows[id].prev.Some? && st.rows[id].prev.value in st.On(st.rows[id].server)
    requires forall i | 0 <= i < |es| ::
               es[i] != Wipe(st.rows[id].server) && !(es[i].ResyncBox? && es[i].s == st.rows[id].server)
    ensures st.rows[id].prev.value in Run(PushEffect(st, id, at), subnets, es).On(st.rows[id].server)
  {
    var s, k := st.rows[id].server, st.rows[id].prev.value;
    var st' := PushEffect(st, id, at);
    assert KeyOwned(st, id);
    forall i | 0 <= i < |st'.rows| && st'.rows[i].server == s && st'.rows[i].Held()
      ensures st'.rows[i].key != k && st'.rows[i].prev != Some(k)
    {
      assert st'.rows[i] == st.rows[i] && KeyOwned(st, i);
      HeldKeysApart(st, i, id);
    }
    LeftBehindUntilWipeOrResync(st', subnets, es, s, k);
  }

  lemma {:induction false} RunSnoc(st: State, subnets: Subnets, es: seq<Event>, e: Event)
    ensures Run(st, subnets, es + [e]) == Next(Run(st, subnets, es), subnets, e)
    decreases |es|
  {
    if es == [] {
      assert [e][1..] == [];
    } else {
      assert (es + [e])[1..] == es[1..] + [e];
      RunSnoc(Next(st, subnets, es[0]), subnets, es[1..], e);
    }
  }

  /** It does come about: a device revoked between rotating and the push of its new
      key keeps the replaced key on the box after its row is revoked. */
  lemma RevokingMidRotationLeavesTheReplacedKey(subnets: Subnets) returns (es: seq<Event>)
    requires subnets == map[0 := 2]
    ensures var st := Run(INITIAL, subnets, es);
            |st.rows| == 1 && st.rows[0].state == Revoked && st.On(0) == {Key(0, 0)}
  {
    var empty: Rows := [];
    assert Pow2(2) == 2 * Pow2(1) == 4;
    assert !Taken(empty, 0, 2);
    es := [];
    es := Extend(subnets, es, Want(0, 0, 0));
    assert Run(INITIAL, subnets, es).rows == [FreshRow(0, 0, Key(0, 0), 2, 0)];
    es := Extend(subnets, es, PushRow(0, 0));
    es := Extend(subnets, es, Rotate(0));
    assert FindHeld(Run(INITIAL, subnets, es).rows, 0, 0) == Some(0);
    es := Extend(subnets, es, Want(0, 0, 0));
    es := Extend(subnets, es, StartRevoke(OfDevices({0}), 0));
    es := Extend(subnets, es, PushRow(0, 0));
  }

  lemma Extend(subnets: Subnets, es: seq<Event>, e: Event) returns (es': seq<Event>)
    ensures es' == es + [e]
    ensures Run(INITIAL, subnets, es') == Next(Run(INITIAL, subnets, es), subnets, e)
  {
    es' := es + [e];
    RunSnoc(INITIAL, subnets, es, e);
  }
}

/**
 Provision for one device (server/internal/provision/provision.go), a step at a
 time, with the reconciler, resyncs and every other device's requests running in
 between. Calls may be refused, lost before, half way or after taking effect, taken
 without being recorded, or made for rows as they were read any time earlier.
 */
module LocationSwitch {
  import opened Prelude
  import opened PeerRows
  import A = Acknowledgement
  import CP = ControlPlane

  const MAX_INLINE_ATTEMPTS: nat := 2

  /** Where the request for the device has got to. */
  datatype Request =
    | Idle
    | Trying(candidates: seq<ServerId>, next: nat)
    | Pushing(candidates: seq<ServerId>, next: nat, id: RowId, snap: Row)
    | Installed(server: ServerId)     // provisionOn returned; other servers not yet revoked

  /** How far a call got on the box before its answer was lost. */
  datatype Effect = Nothing | ReplacedGone | Landed

  datatype Reply = Ok(recorded: bool) | Unreachable(effect: Effect) | Rejected

  /** What a worker has read and may yet make a call for: one row, or a server's live rows. */
  datatype Reading = OfRow(x: A.Snapshot) | OfServer(server: ServerId, xs: seq<A.Snapshot>) {
    function Server(): ServerId { if OfRow? then x.row.server else server }

    function Items(): seq<A.Snapshot> { if OfRow? then [x] else xs }

    /** The keys a sync to the list leaves. */
    function Keys(): set<Key> { set y | y in Items() :: y.row.key }
  }

  /** readings is history: everything workers have read so far. */
  datatype State = State(cp: CP.State, request: Request, readings: seq<Reading>)

  datatype Event =
    | Background(e: CP.Event)
    | Read(id: RowId)                 // DueAssignments returned the row
    | ReadServer(server: ServerId)    // LivePeersForServer
    | Late(n: nat, effect: Effect, heard: bool, at: int, cause: string, retryAt: int)  // the call for a reading
    | PushUnheard(id: RowId, effect: Effect, cause: string, retryAt: int)   // a reconciler push, its answer lost
    | Begin(candidates: seq<ServerId>)
    | Attempt(at: int)
    | EdgeReplies(reply: Reply, at: int, cause: string, retryAt: int)
    | RevokeOthers(lands: bool, at: int)

  /** What a call for a row as read does to its box. */
  function OnBox(cp: CP.State, snap: Row, effect: Effect): CP.State {
    var replaced := if snap.prev.Some? then {snap.prev.value} else {};
    match effect
    case Nothing => cp
    case ReplacedGone =>
      if snap.Live() then cp.(edge := cp.edge[snap.server := cp.On(snap.server) - replaced]) else cp
    case Landed =>
      if snap.Live() then cp.(edge := cp.edge[snap.server := cp.On(snap.server) - replaced + {snap.key}])
      else cp.(edge := cp.edge[snap.server := cp.On(snap.server) - {snap.key}])
  }

  /** What a call does to its box, whatever the table says by then. A sync half way
      has removed what is not on its list. */
  function LateOnBox(cp: CP.State, reading: Reading, effect: Effect): CP.State {
    match reading
    case OfRow(x) => OnBox(cp, x.row, effect)
    case OfServer(s, _) =>
      match effect {
        case Nothing => cp
        case ReplacedGone => cp.(edge := cp.edge[s := cp.On(s) * reading.Keys()])
        case Landed => cp.(edge := cp.edge[s := reading.Keys()])
      }
  }

  /** Resync's writes: MarkApplied for each row read as pending. */
  function RecordAll(rows: Rows, xs: seq<A.Snapshot>, at: int): (r: Rows)
    ensures |r| == |rows|
    decreases |xs|
  {
    if xs == [] then rows
    else
      var x := xs[|xs| - 1];
      var before := RecordAll(rows, xs[..|xs| - 1], at);
      if x.row.state == Pending then MarkApplied(before, x.id, x.row.revision, at) else before
  }

  /** What a worker writes once its call is over. */
  function LateRecord(rows: Rows, reading: Reading, heard: bool, at: int, cause: string, retryAt: int): Rows {
    match reading
    case OfRow(x) =>
      if heard then A.Recorded(rows, x, at) else MarkAttemptFailed(rows, x.id, cause, retryAt)
    case OfServer(_, xs) => if heard then RecordAll(rows, xs, at) else rows
  }

  function Next(st: State, subnets: Subnets, d: DeviceId, e: Event): State {
    var cp := st.cp;
    match e
    case Read(id) =>
      if id < |cp.rows| && (cp.rows[id].state == Pending || cp.rows[id].state == Revoking) then
        st.(readings := st.readings + [OfRow(A.Snapshot(id, cp.rows[id]))])
      else st
    case ReadServer(s) => st.(readings := st.readings + [OfServer(s, A.LiveSnapshots(cp.rows, s))])
    case Late(n, effect, heard, at, cause, retryAt) =>
      if n < |st.readings| && (heard ==> effect == Landed) then
        st.(cp := LateOnBox(cp, st.readings[n], effect)
                  .(rows := LateRecord(cp.rows, st.readings[n], heard, at, cause, retryAt)))
      else st
    case Background(b) => st.(cp := CP.Next(cp, subnets, b))
    case PushUnheard(id, effect, cause, retryAt) =>
      if id < |cp.rows| && (cp.rows[id].state == Pending || cp.rows[id].state == Revoking) then
        st.(cp := OnBox(cp, cp.rows[id], effect).(rows := MarkAttemptFailed(cp.rows, id, cause, retryAt)))
      else st
    case Begin(cs) => if st.request.Idle? then st.(request := Trying(cs, 0)) else st
    case Attempt(at) =>
      if !st.request.Trying? then st else
      var Trying(cs, n) := st.request;
      if n >= |cs| || n >= MAX_INLINE_ATTEMPTS then st.(request := Idle) else
      var cp' := CP.Next(cp, subnets, CP.Want(d, cs[n], at));
      match Ensure(cp.rows, subnets, d, cs[n], cp.KeyOf(d), at).1 {
        case Failure(_) => st.(cp := cp', request := Trying(cs, n + 1))
        case Success(id) =>
          if cp'.rows[id].Applied() then st.(cp := cp', request := Installed(cs[n]))
          else st.(cp := cp', request := Pushing(cs, n, id, cp'.rows[id]))
      }
    case EdgeReplies(reply, at, cause, retryAt) =>
      if !st.request.Pushing? then st else
      var Pushing(cs, n, id, snap) := st.request;
      match reply {
        case Ok(recorded) =>
          var cp' := OnBox(cp, snap, Landed);
          st.(cp := if recorded then cp'.(rows := MarkApplied(cp.rows, id, snap.revision, at)) else cp',
              request := Installed(snap.server))
        case Unreachable(effect) =>
          st.(cp := OnBox(cp, snap, effect).(rows := MarkAttemptFailed(cp.rows, id, cause, retryAt)),
              request := Trying(cs, n + 1))
        case Rejected =>
          st.(cp := cp.(rows := MarkAttemptFailed(cp.rows, id, cause, retryAt)), request := Idle)
      }
    case RevokeOthers(lands, at) =>
      if !st.request.Installed? then st else
      st.(cp := if lands then cp.(rows := BeginRevoke(cp.rows, OtherServers(d, st.request.server), at)) else cp,
          request := Idle)
  }

  function Run(st: State, subnets: Subnets, d: DeviceId, es: seq<Event>): State
    decreases |es|
  {
    if es == [] then st else Run(Next(st, subnets, d, es[0]), subnets, d, es[1..])
  }

  /** One request at a time for device d, its key and entitlement unchanged, no box wiped:
      everything else the control plane does may happen in between. */
  predicate Permitted(e: Event, d: DeviceId) {
    e.Background? ==>
      match e.e
      case Rotate(x) => x != d
      case Want(x, _, _) => x != d
      case StartRevoke(scope, _) => if scope.OfDevices? then d !in scope.devices else scope.device != d
      case Wipe(_) => false
      case _ => true
  }

  // ------------------------------------------------------------- invariant

  ghost predicate OwnKeys(cp: CP.State, row: Row) {
    && row.key.device == row.device && row.key.generation <= cp.KeyOf(row.device).generation
    && (row.prev.Some? ==> row.prev.value.device == row.device
                           && row.prev.value.generation < row.key.generation)
  }

  /** Row i puts device d's present key, installed, on its server. */
  ghost predicate Serves(cp: CP.State, i: nat, d: DeviceId)
    requires i < |cp.rows|
  {
    var row := cp.rows[i];
    row.device == d && row.Live() && row.key == cp.KeyOf(d) && row.key in cp.On(row.server)
  }

  ghost predicate Served(cp: CP.State, d: DeviceId) {
    exists i | 0 <= i < |cp.rows| :: Serves(cp, i, d)
  }

  /** Sure means that no call has taken the device's present key off a box, so that an
      active row with that key has it installed. */
  ghost predicate RowInv(cp: CP.State, i: nat, d: DeviceId, sure: bool)
    requires i < |cp.rows|
  {
    OwnKeys(cp, cp.rows[i]) &&
    (sure && cp.rows[i].state == Active && cp.rows[i].device == d && cp.rows[i].key == cp.KeyOf(d) ==>
       cp.rows[i].key in cp.On(cp.rows[i].server))
  }

  ghost predicate RequestInv(st: State, d: DeviceId, sure: bool) {
    match st.request
    case Pushing(_, _, id, snap) =>
      && id < |st.cp.rows| && st.cp.rows[id].Live()
      && snap.device == d == st.cp.rows[id].device && snap.server == st.cp.rows[id].server
      && snap.Live() && snap.key == st.cp.KeyOf(d) == st.cp.rows[id].key && OwnKeys(st.cp, snap)
    case Installed(s) =>
      sure ==> exists i | 0 <= i < |st.cp.rows| :: st.cp.rows[i].server == s && Serves(st.cp, i, d)
    case _ => true
  }

  ghost predicate TableInv(cp: CP.State, subnets: Subnets, d: DeviceId, sure: bool) {
    && Indexed(cp.rows, subnets)
    && (forall i | 0 <= i < |cp.rows| :: RowInv(cp, i, d, sure))
  }

  /** Readings are of rows as they once were. */
  ghost predicate ReadingsInv(st: State) {
    forall n | 0 <= n < |st.readings| :: GenuineReading(st.cp, st.readings[n])
  }

  ghost predicate GenuineReading(cp: CP.State, reading: Reading) {
    forall y | y in reading.Items() ::
      && A.Genuine(y, cp.rows) && OwnKeys(cp, y.row)
      && (reading.OfServer? ==> y.row.Live() && y.row.server == reading.server)
  }

  ghost predicate Core(st: State, subnets: Subnets, d: DeviceId, sure: bool) {
    TableInv(st.cp, subnets, d, sure) && RequestInv(st, d, sure)
  }

  ghost predicate Inv(st: State, subnets: Subnets, d: DeviceId, sure: bool) {
    Core(st, subnets, d, sure) && ReadingsInv(st)
  }

  /** No box with an active row of the device has been wiped and not yet resynced. */
  predicate NoneAwaitsResync(cp: CP.State, d: DeviceId) {
    forall i | 0 <= i < |cp.rows| && cp.rows[i].device == d && cp.rows[i].state == Active ::
      cp.rows[i].server !in cp.wiped
  }

  /** Every state the control plane gets to will do, for every device, its earlier
      rotations included, unless a box with an active row of it awaits a resync. */
  lemma ReachableStatesWillDo(subnets: Subnets, es: seq<CP.Event>, d: DeviceId)
    requires NoneAwaitsResync(CP.Run(CP.INITIAL, subnets, es), d)
    ensures Inv(State(CP.Run(CP.INITIAL, subnets, es), Idle, []), subnets, d, true)
  {
    var cp := CP.Run(CP.INITIAL, subnets, es);
    CP.RunKeepsAccount(CP.INITIAL, subnets, es);
    CP.RunKeepsIndexes(CP.INITIAL, subnets, es);
    forall i | 0 <= i < |cp.rows| ensures RowInv(cp, i, d, true) {
      assert CP.KeyOwned(cp, i) && CP.RowAgainstEdge(cp, i);
    }
  }

  // --------------------------------------------------------- one step

  /** What a step must leave alone for every row that serves d to go on doing so. */
  ghost predicate KeepsServing(cp: CP.State, cp': CP.State, d: DeviceId) {
    && |cp.rows| <= |cp'.rows| && cp'.KeyOf(d) == cp.KeyOf(d)
    && forall i | 0 <= i < |cp.rows| && Serves(cp, i, d) :: Serves(cp', i, d) && cp'.rows[i].server == cp.rows[i].server
  }

  lemma PushKeeps(cp: CP.State, subnets: Subnets, d: DeviceId, sure: bool, id: RowId, at: int)
    requires TableInv(cp, subnets, d, sure) && id < |cp.rows|
    ensures TableInv(CP.PushEffect(cp, id, at), subnets, d, sure)
    ensures KeepsServing(cp, CP.PushEffect(cp, id, at), d)
  {
    var cp' := CP.PushEffect(cp, id, at);
    SettlingKeepsIndexes(cp.rows, cp'.rows, subnets);
    assert RowInv(cp, id, d, sure);
    forall i | 0 <= i < |cp.rows| ensures RowInv(cp', i, d, sure) && (Serves(cp, i, d) ==> Serves(cp', i, d)) {
      assert RowInv(cp, i, d, sure);
    }
  }

  lemma WantKeepsServing(cp: CP.State, subnets: Subnets, d: DeviceId, x: DeviceId, s: ServerId, at: int)
    ensures KeepsServing(cp, CP.Next(cp, subnets, CP.Want(x, s, at)), d)
  {
  }

  lemma WantKeepsRows(cp: CP.State, subnets: Subnets, d: DeviceId, sure: bool, x: DeviceId, s: ServerId, at: int)
    requires forall i | 0 <= i < |cp.rows| :: RowInv(cp, i, d, sure)
    ensures var cp' := CP.Next(cp, subnets, CP.Want(x, s, at));
            forall i | 0 <= i < |cp'.rows| :: RowInv(cp', i, d, sure)
  {
    var cp' := CP.Next(cp, subnets, CP.Want(x, s, at));
    forall i | 0 <= i < |cp'.rows| ensures RowInv(cp', i, d, sure) {
      if i < |cp.rows| { assert RowInv(cp, i, d, sure); }
    }
  }

  lemma WantKeeps(cp: CP.State, subnets: Subnets, d: DeviceId, sure: bool, x: DeviceId, s: ServerId, at: int)
    requires TableInv(cp, subnets, d, sure)
    ensures TableInv(CP.Next(cp, subnets, CP.Want(x, s, at)), subnets, d, sure)
    ensures KeepsServing(cp, CP.Next(cp, subnets, CP.Want(x, s, at)), d)
  {
    WantKeepsServing(cp, subnets, d, x, s, at);
    WantKeepsRows(cp, subnets, d, sure, x, s, at);
    CP.StepKeepsIndexes(cp, subnets, CP.Want(x, s, at));
  }

  lemma ResyncKeeps(cp: CP.State, subnets: Subnets, d: DeviceId, sure: bool, s: ServerId, at: int)
    requires TableInv(cp, subnets, d, sure)
    ensures TableInv(CP.Next(cp, subnets, CP.ResyncBox(s, at)), subnets, d, sure)
    ensures KeepsServing(cp, CP.Next(cp, subnets, CP.ResyncBox(s, at)), d)
  {
    var cp' := CP.Next(cp, subnets, CP.ResyncBox(s, at));
    SettlingKeepsIndexes(cp.rows, cp'.rows, subnets);
    forall i | 0 <= i < |cp.rows| ensures RowInv(cp', i, d, sure) && (Serves(cp, i, d) ==> Serves(cp', i, d)) {
      assert RowInv(cp, i, d, sure);
    }
  }

  lemma QuietKeeps(cp: CP.State, subnets: Subnets, d: DeviceId, sure: bool, e: CP.Event)
    requires TableInv(cp, subnets, d, sure) && Permitted(Background(e), d)
    requires !e.PushRow? && !e.Want? && !e.ResyncBox?
    ensures TableInv(CP.Next(cp, subnets, e), subnets, d, sure)
    ensures KeepsServing(cp, CP.Next(cp, subnets, e), d)
  {
    var cp' := CP.Next(cp, subnets, e);
    SettlingKeepsIndexes(cp.rows, cp'.rows, subnets);
    forall i | 0 <= i < |cp.rows| ensures RowInv(cp', i, d, sure) && (Serves(cp, i, d) ==> Serves(cp', i, d)) {
      assert RowInv(cp, i, d, sure);
    }
  }

  /** A call for a live row of any age takes nobody's present key away. */
  lemma BoxKeeps(cp: CP.State, subnets: Subnets, d: DeviceId, sure: bool, snap: Row, effect: Effect)
    requires TableInv(cp, subnets, d, sure) && snap.Live() && OwnKeys(cp, snap)
    ensures TableInv(OnBox(cp, snap, effect), subnets, d, sure)
    ensures KeepsServing(cp, OnBox(cp, snap, effect), d)
  {
    var cp' := OnBox(cp, snap, effect);
    forall i | 0 <= i < |cp.rows| ensures RowInv(cp', i, d, sure) && (Serves(cp, i, d) ==> Serves(cp', i, d)) {
      assert RowInv(cp, i, d, sure);
    }
  }

  /** Recording an attempt as failed, or a row as applied whose key is installed. */
  lemma RecordKeeps(cp: CP.State, subnets: Subnets, d: DeviceId, sure: bool, rows: Rows)
    requires TableInv(cp, subnets, d, sure) && Settles(cp.rows, rows)
    requires forall i | 0 <= i < |rows| ::
               && rows[i].key == cp.rows[i].key && (rows[i].prev.Some? ==> rows[i].prev == cp.rows[i].prev)
               && (cp.rows[i].Live() ==> rows[i].Live())
               && (rows[i].state == Active && cp.rows[i].state != Active ==> rows[i].key in cp.On(rows[i].server))
    ensures TableInv(cp.(rows := rows), subnets, d, sure) && KeepsServing(cp, cp.(rows := rows), d)
  {
    SettlingKeepsIndexes(cp.rows, rows, subnets);
    var cp' := cp.(rows := rows);
    forall i | 0 <= i < |rows| ensures RowInv(cp', i, d, sure) && (Serves(cp, i, d) ==> Serves(cp', i, d)) {
      assert RowInv(cp, i, d, sure);
    }
  }

  lemma RemovalKeeps(cp: CP.State, subnets: Subnets, d: DeviceId, sure: bool, id: RowId)
    requires TableInv(cp, subnets, d, sure) && id < |cp.rows| && cp.rows[id].state == Revoking
    ensures TableInv(OnBox(cp, cp.rows[id], Landed), subnets, d, sure)
    ensures KeepsServing(cp, OnBox(cp, cp.rows[id], Landed), d)
  {
    var cp' := OnBox(cp, cp.rows[id], Landed);
    assert RowInv(cp, id, d, sure);
    forall i | 0 <= i < |cp.rows| ensures RowInv(cp', i, d, sure) && (Serves(cp, i, d) ==> Serves(cp', i, d)) {
      assert RowInv(cp, i, d, sure);
    }
  }

  lemma UnheardKeeps(cp: CP.State, subnets: Subnets, d: DeviceId, sure: bool, id: RowId, effect: Effect,
                     cause: string, retryAt: int)
    requires TableInv(cp, subnets, d, sure) && id < |cp.rows| && cp.rows[id].state in {Pending, Revoking}
    ensures var cp' := OnBox(cp, cp.rows[id], effect).(rows := MarkAttemptFailed(cp.rows, id, cause, retryAt));
            TableInv(cp', subnets, d, sure) && KeepsServing(cp, cp', d)
  {
    assert RowInv(cp, id, d, sure);
    if cp.rows[id].state == Pending {
      BoxKeeps(cp, subnets, d, sure, cp.rows[id], effect);
    } else if effect == Landed {
      RemovalKeeps(cp, subnets, d, sure, id);
    }
    RecordKeeps(OnBox(cp, cp.rows[id], effect), subnets, d, sure, MarkAttemptFailed(cp.rows, id, cause, retryAt));
  }

  /** The rest of the world cannot invalidate what the request has achieved so far. */
  lemma RequestUndisturbed(st: State, d: DeviceId, sure: bool, cp': CP.State)
    requires RequestInv(st, d, sure) && KeepsServing(st.cp, cp', d)
    requires forall i | 0 <= i < |st.cp.rows| && st.cp.rows[i].device == d && st.cp.rows[i].Live() ::
               cp'.rows[i].Live() && cp'.rows[i].device == d
               && cp'.rows[i].server == st.cp.rows[i].server && cp'.rows[i].key == st.cp.rows[i].key
    ensures RequestInv(st.(cp := cp'), d, sure)
  {
    if st.request.Installed? && sure {
      var i :| 0 <= i < |st.cp.rows| && st.cp.rows[i].server == st.request.server && Serves(st.cp, i, d);
      assert Serves(cp', i, d);
    }
  }

  lemma BackgroundKeeps(st: State, subnets: Subnets, d: DeviceId, sure: bool, e: CP.Event)
    requires Core(st, subnets, d, sure) && Permitted(Background(e), d)
    ensures var st' := st.(cp := CP.Next(st.cp, subnets, e));
            Core(st', subnets, d, sure) && KeepsServing(st.cp, st'.cp, d)
  {
    match e {
      case PushRow(id, at) => if id < |st.cp.rows| { PushKeeps(st.cp, subnets, d, sure, id, at); }
      case Want(x, s, at) => WantKeeps(st.cp, subnets, d, sure, x, s, at);
      case ResyncBox(s, at) => ResyncKeeps(st.cp, subnets, d, sure, s, at);
      case _ => QuietKeeps(st.cp, subnets, d, sure, e);
    }
    RequestUndisturbed(st, d, sure, CP.Next(st.cp, subnets, e));
  }

  lemma PushUnheardKeeps(st: State, subnets: Subnets, d: DeviceId, sure: bool, e: Event)
    requires Core(st, subnets, d, sure) && e.PushUnheard?
    ensures var st' := Next(st, subnets, d, e);
            Core(st', subnets, d, sure) && KeepsServing(st.cp, st'.cp, d)
  {
    var st' := Next(st, subnets, d, e);
    if e.id < |st.cp.rows| && st.cp.rows[e.id].state in {Pending, Revoking} {
      UnheardKeeps(st.cp, subnets, d, sure, e.id, e.effect, e.cause, e.retryAt);
      RequestUndisturbed(st, d, sure, st'.cp);
    }
  }

  lemma AttemptKeeps(st: State, subnets: Subnets, d: DeviceId, sure: bool, at: int)
    requires Core(st, subnets, d, sure)
    ensures var st' := Next(st, subnets, d, Attempt(at));
            Core(st', subnets, d, sure) && KeepsServing(st.cp, st'.cp, d)
  {
    if st.request.Trying? && st.request.next < |st.request.candidates| && st.request.next < MAX_INLINE_ATTEMPTS {
      var cp := st.cp;
      var s := st.request.candidates[st.request.next];
      var cp' := CP.Next(cp, subnets, CP.Want(d, s, at));
      WantKeeps(cp, subnets, d, sure, d, s, at);
      var r := Ensure(cp.rows, subnets, d, s, cp.KeyOf(d), at).1;
      if r.Success? {
        assert RowInv(cp', r.value, d, sure);
        assert cp'.rows[r.value].device == d && cp'.rows[r.value].key == cp'.KeyOf(d);
        if sure && cp'.rows[r.value].Applied() { assert Serves(cp', r.value, d); }
      }
    }
  }

  lemma AnsweredKeeps(cp: CP.State, subnets: Subnets, d: DeviceId, sure: bool, id: RowId, snap: Row,
                      recorded: bool, at: int)
    requires TableInv(cp, subnets, d, sure) && id < |cp.rows| && snap.Live() && OwnKeys(cp, snap)
    requires cp.rows[id].key == snap.key && cp.rows[id].server == snap.server
    ensures var boxed := OnBox(cp, snap, Landed);
            var cp' := if recorded then boxed.(rows := MarkApplied(cp.rows, id, snap.revision, at)) else boxed;
            TableInv(cp', subnets, d, sure) && KeepsServing(cp, cp', d)
  {
    BoxKeeps(cp, subnets, d, sure, snap, Landed);
    if recorded {
      RecordKeeps(OnBox(cp, snap, Landed), subnets, d, sure, MarkApplied(cp.rows, id, snap.revision, at));
    }
  }

  lemma UnansweredKeeps(cp: CP.State, subnets: Subnets, d: DeviceId, sure: bool, id: RowId, snap: Row, effect: Effect,
                        cause: string, retryAt: int)
    requires TableInv(cp, subnets, d, sure) && snap.Live() && OwnKeys(cp, snap)
    ensures var cp' := OnBox(cp, snap, effect).(rows := MarkAttemptFailed(cp.rows, id, cause, retryAt));
            TableInv(cp', subnets, d, sure) && KeepsServing(cp, cp', d)
  {
    BoxKeeps(cp, subnets, d, sure, snap, effect);
    RecordKeeps(OnBox(cp, snap, effect), subnets, d, sure, MarkAttemptFailed(cp.rows, id, cause, retryAt));
  }

  lemma ReplyKeepsTable(st: State, subnets: Subnets, d: DeviceId, sure: bool, e: Event)
    requires Core(st, subnets, d, sure) && e.EdgeReplies? && st.request.Pushing?
    ensures var st' := Next(st, subnets, d, e);
            TableInv(st'.cp, subnets, d, sure) && KeepsServing(st.cp, st'.cp, d)
  {
    var (id, snap) := (st.request.id, st.request.snap);
    match e.reply
    case Ok(recorded) => AnsweredKeeps(st.cp, subnets, d, sure, id, snap, recorded, e.at);
    case Unreachable(effect) => UnansweredKeeps(st.cp, subnets, d, sure, id, snap, effect, e.cause, e.retryAt);
    case Rejected => UnansweredKeeps(st.cp, subnets, d, sure, id, snap, Nothing, e.cause, e.retryAt);
  }

  lemma ReplyKeeps(st: State, subnets: Subnets, d: DeviceId, sure: bool, e: Event)
    requires Core(st, subnets, d, sure) && e.EdgeReplies?
    ensures var st' := Next(st, subnets, d, e);
            Core(st', subnets, d, sure) && KeepsServing(st.cp, st'.cp, d)
  {
    var st' := Next(st, subnets, d, e);
    if st.request.Pushing? {
      ReplyKeepsTable(st, subnets, d, sure, e);
      if st'.request.Installed? { assert Serves(st'.cp, st.request.id, d); }
    }
  }

  /** Revoking the device elsewhere leaves what serves it on the chosen server, only. */
  lemma RevokeKeeps(st: State, subnets: Subnets, d: DeviceId, sure: bool, lands: bool, at: int)
    requires Core(st, subnets, d, sure)
    ensures var st' := Next(st, subnets, d, RevokeOthers(lands, at));
            Core(st', subnets, d, sure)
            && (Served(st.cp, d) ==> (Served(st'.cp, d) <==> !OpensGap(st, RevokeOthers(lands, at), d)))
  {
    var cp := st.cp;
    var st' := Next(st, subnets, d, RevokeOthers(lands, at));
    if st.request.Installed? && lands {
      SettlingKeepsIndexes(cp.rows, st'.cp.rows, subnets);
      forall i | 0 <= i < |cp.rows|
        ensures RowInv(st'.cp, i, d, sure)
        ensures Serves(st'.cp, i, d) <==> Serves(cp, i, d) && cp.rows[i].server == st.request.server
      {
        assert RowInv(cp, i, d, sure);
      }
    }
  }

  // ------------------------------------------------ calls for old readings

  /** The call, if it lands, takes the device's present key off its box. */
  predicate Takes(cp: CP.State, reading: Reading, effect: Effect, d: DeviceId) {
    && cp.KeyOf(d) in cp.On(reading.Server())
    && match reading
       case OfRow(x) => effect == Landed && !x.row.Live() && x.row.key == cp.KeyOf(d)
       case OfServer(_, xs) => effect != Nothing && forall k | 0 <= k < |xs| :: xs[k].row.key != cp.KeyOf(d)
  }

  predicate TakesAt(st: State, e: Event, d: DeviceId) {
    e.Late? && e.n < |st.readings| && (e.heard ==> e.effect == Landed) && Takes(st.cp, st.readings[e.n], e.effect, d)
  }

  /** The two ways to a gap: a call takes the present key off the one box that serves,
      or the others are revoked when the chosen server no longer does. */
  ghost predicate OpensGap(st: State, e: Event, d: DeviceId) {
    match e
    case Late(n, _, _, _, _, _) =>
      TakesAt(st, e, d) && ServedOnlyOn(st.cp, st.readings[n].Server(), d)
    case RevokeOthers(lands, _) =>
      lands && st.request.Installed? && forall i | 0 <= i < |st.cp.rows| && Serves(st.cp, i, d) ::
        st.cp.rows[i].server != st.request.server
    case _ => false
  }

  ghost predicate ServedOnlyOn(cp: CP.State, s: ServerId, d: DeviceId) {
    forall i | 0 <= i < |cp.rows| && Serves(cp, i, d) :: cp.rows[i].server == s
  }

  lemma LateSyncKeeps(cp: CP.State, subnets: Subnets, d: DeviceId, sure: bool, reading: Reading, effect: Effect)
    requires TableInv(cp, subnets, d, sure) && reading.OfServer? && !Takes(cp, reading, effect, d)
    ensures TableInv(LateOnBox(cp, reading, effect), subnets, d, sure)
    ensures KeepsServing(cp, LateOnBox(cp, reading, effect), d)
  {
    var cp' := LateOnBox(cp, reading, effect);
    if cp.KeyOf(d) in cp.On(reading.server) && effect != Nothing {
      var k :| 0 <= k < |reading.xs| && reading.xs[k].row.key == cp.KeyOf(d);
      assert reading.xs[k] in reading.Items() && cp.KeyOf(d) in reading.Keys();
    }
    forall i | 0 <= i < |cp.rows| ensures RowInv(cp', i, d, sure) && (Serves(cp, i, d) ==> Serves(cp', i, d)) {
      assert RowInv(cp, i, d, sure);
    }
  }

  lemma LateBoxKeeps(cp: CP.State, subnets: Subnets, d: DeviceId, sure: bool, reading: Reading, effect: Effect)
    requires TableInv(cp, subnets, d, sure) && GenuineReading(cp, reading) && !Takes(cp, reading, effect, d)
    ensures TableInv(LateOnBox(cp, reading, effect), subnets, d, sure)
    ensures KeepsServing(cp, LateOnBox(cp, reading, effect), d)
  {
    if reading.OfServer? {
      LateSyncKeeps(cp, subnets, d, sure, reading, effect);
    } else if reading.x.row.Live() {
      assert reading.x in reading.Items();
      BoxKeeps(cp, subnets, d, sure, reading.x.row, effect);
    } else {
      var cp' := LateOnBox(cp, reading, effect);
      forall i | 0 <= i < |cp.rows| ensures RowInv(cp', i, d, sure) && (Serves(cp, i, d) ==> Serves(cp', i, d)) {
        assert RowInv(cp, i, d, sure);
      }
    }
  }

  /** A taken key leaves whatever serves on other boxes, and nothing on its own. */
  lemma LateBoxTakes(cp: CP.State, subnets: Subnets, d: DeviceId, reading: Reading, effect: Effect)
    requires TableInv(cp, subnets, d, false) && Takes(cp, reading, effect, d)
    ensures var cp' := LateOnBox(cp, reading, effect);
            && TableInv(cp', subnets, d, false)
            && forall i | 0 <= i < |cp.rows| ::
                 Serves(cp', i, d) <==> Serves(cp, i, d) && cp.rows[i].server != reading.Server()
  {
    var cp' := LateOnBox(cp, reading, effect);
    forall i | 0 <= i < |cp.rows| ensures RowInv(cp', i, d, false) {
      assert RowInv(cp, i, d, false);
    }
  }

  /** What a late record may do to a table: settle rows in a way the box bears out. */
  ghost predicate RecordFits(cp: CP.State, rows: Rows) {
    && Settles(cp.rows, rows)
    && forall i | 0 <= i < |rows| ::
         && rows[i].key == cp.rows[i].key && (rows[i].prev.Some? ==> rows[i].prev == cp.rows[i].prev)
         && (cp.rows[i].Live() <==> rows[i].Live())
         && (rows[i].state == Active && cp.rows[i].state != Active ==> rows[i].key in cp.On(rows[i].server))
  }

  lemma {:induction false} RecordAllFits(cp: CP.State, xs: seq<A.Snapshot>, at: int)
    requires forall y | y in xs :: A.Genuine(y, cp.rows) && y.row.Live() && y.row.key in cp.On(y.row.server)
    ensures RecordFits(cp, RecordAll(cp.rows, xs, at))
    ensures forall i | 0 <= i < |cp.rows| :: RecordAll(cp.rows, xs, at)[i].revision == cp.rows[i].revision
    decreases |xs|
  {
    if xs != [] {
      var rest, x := xs[..|xs| - 1], xs[|xs| - 1];
      RecordAllFits(cp, rest, at);
      assert x in xs && A.Later(x.row, cp.rows[x.id]);
    }
  }

  lemma LateRecordFits(cp: CP.State, reading: Reading, heard: bool, at: int, cause: string, retryAt: int)
    requires GenuineReading(cp, reading)
    ensures heard ==> RecordFits(LateOnBox(cp, reading, Landed), LateRecord(cp.rows, reading, true, at, cause, retryAt))
    ensures RecordFits(cp, LateRecord(cp.rows, reading, false, at, cause, retryAt))
  {
    var boxed := LateOnBox(cp, reading, Landed);
    match reading
    case OfRow(x) =>
      assert x in reading.Items() && A.Later(x.row, cp.rows[x.id]);
    case OfServer(s, xs) =>
      forall y | y in xs ensures A.Genuine(y, boxed.rows) && y.row.Live() && y.row.key in boxed.On(y.row.server) {
        assert y in reading.Items();
      }
      if heard { RecordAllFits(boxed, xs, at); }
  }

  lemma FittingRecordKeeps(cp: CP.State, subnets: Subnets, d: DeviceId, sure: bool, rows: Rows)
    requires TableInv(cp, subnets, d, sure) && RecordFits(cp, rows)
    ensures TableInv(cp.(rows := rows), subnets, d, sure)
    ensures forall i | 0 <= i < |rows| :: Serves(cp.(rows := rows), i, d) <==> Serves(cp, i, d)
  {
    RecordKeeps(cp, subnets, d, sure, rows);
  }

  /** What a record of an unheard call does is the same on any box. */
  lemma UnheardRecordFits(cp: CP.State, boxed: CP.State, rows: Rows)
    requires RecordFits(cp, rows) && boxed.rows == cp.rows
    requires forall i | 0 <= i < |rows| :: rows[i].state == cp.rows[i].state
    ensures RecordFits(boxed, rows)
  {
  }

  /** A late call's record changes nothing about who serves. */
  lemma LateRecordKeeps(cp: CP.State, subnets: Subnets, d: DeviceId, sure: bool, reading: Reading, e: Event)
    requires GenuineReading(cp, reading) && e.Late? && (e.heard ==> e.effect == Landed)
    requires TableInv(LateOnBox(cp, reading, e.effect), subnets, d, sure)
    ensures var boxed := LateOnBox(cp, reading, e.effect);
            var rows := LateRecord(cp.rows, reading, e.heard, e.at, e.cause, e.retryAt);
            && RecordFits(boxed, rows) && TableInv(boxed.(rows := rows), subnets, d, sure)
            && forall i | 0 <= i < |rows| :: Serves(boxed.(rows := rows), i, d) <==> Serves(boxed, i, d)
  {
    var boxed := LateOnBox(cp, reading, e.effect);
    var rows := LateRecord(cp.rows, reading, e.heard, e.at, e.cause, e.retryAt);
    LateRecordFits(cp, reading, e.heard, e.at, e.cause, e.retryAt);
    if !e.heard { UnheardRecordFits(cp, boxed, rows); }
    FittingRecordKeeps(boxed, subnets, d, sure, rows);
  }

  lemma LateKeepsTable(st: State, subnets: Subnets, d: DeviceId, sure: bool, e: Event)
    requires Inv(st, subnets, d, sure) && e.Late? && e.n < |st.readings| && (e.heard ==> e.effect == Landed)
    requires sure ==> !TakesAt(st, e, d)
    ensures var (cp, cp') := (st.cp, Next(st, subnets, d, e).cp);
            && TableInv(cp', subnets, d, sure) && |cp'.rows| == |cp.rows| && cp'.KeyOf(d) == cp.KeyOf(d)
            && (forall i | 0 <= i < |cp.rows| ::
                  cp'.rows[i].server == cp.rows[i].server && cp'.rows[i].device == cp.rows[i].device
                  && cp'.rows[i].key == cp.rows[i].key && (cp.rows[i].Live() ==> cp'.rows[i].Live()))
            && if TakesAt(st, e, d) then
                 forall i | 0 <= i < |cp.rows| ::
                   Serves(cp', i, d) <==> Serves(cp, i, d) && cp.rows[i].server != st.readings[e.n].Server()
               else KeepsServing(cp, cp', d)
  {
    var reading := st.readings[e.n];
    assert GenuineReading(st.cp, reading);
    if TakesAt(st, e, d) {
      LateBoxTakes(st.cp, subnets, d, reading, e.effect);
    } else {
      LateBoxKeeps(st.cp, subnets, d, sure, reading, e.effect);
    }
    LateRecordKeeps(st.cp, subnets, d, sure, reading, e);
  }

  lemma LateKeeps(st: State, subnets: Subnets, d: DeviceId, sure: bool, e: Event)
    requires Inv(st, subnets, d, sure) && e.Late? && (sure ==> !TakesAt(st, e, d))
    ensures Core(Next(st, subnets, d, e), subnets, d, sure)
    ensures Served(st.cp, d) ==> (Served(Next(st, subnets, d, e).cp, d) <==> !OpensGap(st, e, d))
  {
    var st' := Next(st, subnets, d, e);
    if e.n < |st.readings| && (e.heard ==> e.effect == Landed) {
      LateKeepsTable(st, subnets, d, sure, e);
      if !TakesAt(st, e, d) {
        RequestUndisturbed(st, d, sure, st'.cp);
        if Served(st.cp, d) {
          var i :| 0 <= i < |st.cp.rows| && Serves(st.cp, i, d);
          assert Serves(st'.cp, i, d);
        }
      }
    }
  }

  // -------------------------------------------------------- readings last

  ghost predicate Onward(cp: CP.State, cp': CP.State) {
    A.Advances(cp.rows, cp'.rows) && forall x :: cp.KeyOf(x).generation <= cp'.KeyOf(x).generation
  }

  lemma WantGoesOnward(cp: CP.State, subnets: Subnets, d: DeviceId, s: ServerId, at: int)
    ensures Onward(cp, CP.Next(cp, subnets, CP.Want(d, s, at)))
  {
  }

  lemma ControlPlaneGoesOnward(cp: CP.State, subnets: Subnets, e: CP.Event)
    ensures Onward(cp, CP.Next(cp, subnets, e))
  {
    if e.Want? { WantGoesOnward(cp, subnets, e.d, e.s, e.at); }
  }

  lemma {:induction false} RecordAllAdvances(rows: Rows, xs: seq<A.Snapshot>, at: int)
    ensures A.Advances(rows, RecordAll(rows, xs, at))
    decreases |xs|
  {
    if xs != [] { RecordAllAdvances(rows, xs[..|xs| - 1], at); }
  }

  lemma LateRecordAdvances(rows: Rows, reading: Reading, heard: bool, at: int, cause: string, retryAt: int)
    ensures A.Advances(rows, LateRecord(rows, reading, heard, at, cause, retryAt))
  {
    if reading.OfServer? { RecordAllAdvances(rows, reading.xs, at); }
  }

  lemma ReplyGoesOnward(st: State, subnets: Subnets, d: DeviceId, e: Event)
    requires e.EdgeReplies?
    ensures Onward(st.cp, Next(st, subnets, d, e).cp)
  {
  }

  lemma StepGoesOnward(st: State, subnets: Subnets, d: DeviceId, e: Event)
    ensures Onward(st.cp, Next(st, subnets, d, e).cp)
  {
    match e {
      case Background(b) => ControlPlaneGoesOnward(st.cp, subnets, b);
      case Late(n, _, heard, at, cause, retryAt) =>
        if n < |st.readings| { LateRecordAdvances(st.cp.rows, st.readings[n], heard, at, cause, retryAt); }
      case Attempt(at) =>
        if st.request.Trying? && st.request.next < |st.request.candidates| {
          WantGoesOnward(st.cp, subnets, d, st.request.candidates[st.request.next], at);
        }
      case EdgeReplies(_, _, _, _) => ReplyGoesOnward(st, subnets, d, e);
      case _ =>
    }
  }

  lemma OnwardKeepsReading(cp: CP.State, cp': CP.State, reading: Reading)
    requires GenuineReading(cp, reading) && Onward(cp, cp')
    ensures GenuineReading(cp', reading)
  {
    forall y | y in reading.Items() ensures A.Genuine(y, cp'.rows) && OwnKeys(cp', y.row) {
      assert A.Genuine(y, cp.rows) && A.Later(cp.rows[y.id], cp'.rows[y.id]);
    }
  }

  lemma StepKeepsReadings(st: State, subnets: Subnets, d: DeviceId, sure: bool, e: Event)
    requires Inv(st, subnets, d, sure)
    ensures ReadingsInv(Next(st, subnets, d, e))
  {
    var st' := Next(st, subnets, d, e);
    StepGoesOnward(st, subnets, d, e);
    forall n | 0 <= n < |st'.readings| ensures GenuineReading(st'.cp, st'.readings[n]) {
      if n < |st.readings| {
        OnwardKeepsReading(st.cp, st'.cp, st.readings[n]);
      } else {
        forall y | y in st'.readings[n].Items() ensures OwnKeys(st.cp, y.row) {
          assert RowInv(st.cp, y.id, d, sure);
        }
      }
    }
  }

  lemma StepKeepsCore(st: State, subnets: Subnets, d: DeviceId, sure: bool, e: Event)
    requires Inv(st, subnets, d, sure) && Permitted(e, d) && (sure ==> !TakesAt(st, e, d))
    ensures Core(Next(st, subnets, d, e), subnets, d, sure)
    ensures Served(st.cp, d) ==> (Served(Next(st, subnets, d, e).cp, d) <==> !OpensGap(st, e, d))
  {
    match e {
      case Background(b) => BackgroundKeeps(st, subnets, d, sure, b);
      case PushUnheard(id, effect, cause, retryAt) => PushUnheardKeeps(st, subnets, d, sure, e);
      case Late(_, _, _, _, _, _) => LateKeeps(st, subnets, d, sure, e);
      case Attempt(at) => AttemptKeeps(st, subnets, d, sure, at);
      case EdgeReplies(_, _, _, _) => ReplyKeeps(st, subnets, d, sure, e);
      case RevokeOthers(lands, at) => RevokeKeeps(st, subnets, d, sure, lands, at);
      case _ =>
    }
    if Served(st.cp, d) && !e.RevokeOthers? && !e.Late? {
      var i :| 0 <= i < |st.cp.rows| && Serves(st.cp, i, d);
      assert Serves(Next(st, subnets, d, e).cp, i, d);
    }
  }

  lemma StepKeeps(st: State, subnets: Subnets, d: DeviceId, sure: bool, e: Event)
    requires Inv(st, subnets, d, sure) && Permitted(e, d) && (sure ==> !TakesAt(st, e, d))
    ensures Inv(Next(st, subnets, d, e), subnets, d, sure)
    ensures Served(st.cp, d) ==> (Served(Next(st, subnets, d, e).cp, d) <==> !OpensGap(st, e, d))
  {
    StepKeepsCore(st, subnets, d, sure, e);
    StepKeepsReadings(st, subnets, d, sure, e);
  }

  /** While nothing was taken, the chosen server serves, so revoking the others is safe. */
  lemma NothingTakenNothingOpened(st: State, subnets: Subnets, d: DeviceId, e: Event)
    requires Inv(st, subnets, d, true) && !TakesAt(st, e, d)
    ensures !OpensGap(st, e, d)
  {
  }

  // ---------------------------------------------------------- theorems

  ghost predicate ServedThroughout(st: State, subnets: Subnets, d: DeviceId, es: seq<Event>)
    decreases |es|
  {
    Served(st.cp, d) && (es != [] ==> ServedThroughout(Next(st, subnets, d, es[0]), subnets, d, es[1..]))
  }

  ghost predicate NothingOpens(st: State, subnets: Subnets, d: DeviceId, es: seq<Event>)
    decreases |es|
  {
    es != [] ==> !OpensGap(st, es[0], d) && NothingOpens(Next(st, subnets, d, es[0]), subnets, d, es[1..])
  }

  ghost predicate NothingTakes(st: State, subnets: Subnets, d: DeviceId, es: seq<Event>)
    decreases |es|
  {
    es != [] ==> !TakesAt(st, es[0], d) && NothingTakes(Next(st, subnets, d, es[0]), subnets, d, es[1..])
  }

  /** Once some server has a pending or active row for the device and holds its key,
      that stays so at every point of a run, whatever fails, whichever server is tried
      and however old the readings that calls are made for, if and only if no call
      takes the present key off the one box that serves, and the others are never
      revoked when the chosen server has lost it. */
  lemma {:induction false} GapsOpenExactlyWhen(st: State, subnets: Subnets, d: DeviceId, es: seq<Event>)
    requires Inv(st, subnets, d, false) && Served(st.cp, d)
    requires forall e | e in es :: Permitted(e, d)
    ensures ServedThroughout(st, subnets, d, es) <==> NothingOpens(st, subnets, d, es)
    decreases |es|
  {
    if es != [] {
      var st' := Next(st, subnets, d, es[0]);
      StepKeeps(st, subnets, d, false, es[0]);
      if OpensGap(st, es[0], d) {
        assert !ServedThroughout(st', subnets, d, es[1..]);
      } else {
        GapsOpenExactlyWhen(st', subnets, d, es[1..]);
      }
    }
  }

  /** So no gap opens in any run in which no call takes the device's present key: only
      removals and syncs the table has outrun can. */
  lemma {:induction false} SwitchingNeverLeavesAGap(st: State, subnets: Subnets, d: DeviceId, es: seq<Event>)
    requires Inv(st, subnets, d, true)
    requires (forall e | e in es :: Permitted(e, d)) && NothingTakes(st, subnets, d, es)
    ensures Inv(Run(st, subnets, d, es), subnets, d, true)
    ensures Served(st.cp, d) ==> Served(Run(st, subnets, d, es).cp, d) && ServedThroughout(st, subnets, d, es)
    decreases |es|
  {
    if es != [] {
      StepKeeps(st, subnets, d, true, es[0]);
      NothingTakenNothingOpened(st, subnets, d, es[0]);
      SwitchingNeverLeavesAGap(Next(st, subnets, d, es[0]), subnets, d, es[1..]);
    }
  }

  /** A call for a reading the table still bears out takes nothing from a live row. */
  lemma CurrentReadingsTakeNothing(st: State, subnets: Subnets, d: DeviceId, sure: bool, n: nat, effect: Effect, i: nat)
    requires Inv(st, subnets, d, sure) && n < |st.readings| && i < |st.cp.rows|
    requires Serves(st.cp, i, d) && st.cp.rows[i].server == st.readings[n].Server()
    requires match st.readings[n]
             case OfRow(x) => st.cp.rows[x.id].Held() && st.cp.rows[x.id].revision == x.row.revision
             case OfServer(_, xs) =>
               exists k | 0 <= k < |xs| :: xs[k].id == i && xs[k].row.revision == st.cp.rows[i].revision
    ensures !Takes(st.cp, st.readings[n], effect, d)
  {
    var reading := st.readings[n];
    assert GenuineReading(st.cp, reading);
    match reading
    case OfRow(x) =>
      assert x in reading.Items() && A.Later(x.row, st.cp.rows[x.id]);
    case OfServer(_, xs) =>
      var k :| 0 <= k < |xs| && xs[k].id == i && xs[k].row.revision == st.cp.rows[i].revision;
      assert xs[k] in reading.Items() && A.Later(xs[k].row, st.cp.rows[i]);
  }

  /** The server a request settles on has a live row for the device with its key
      installed, unless a call took it; and if the revoke write lands, it is the
      device's only live server. */
  lemma SuccessLeavesOneServer(st: State, subnets: Subnets, d: DeviceId, es: seq<Event>, at: int)
    requires Inv(st, subnets, d, true)
    requires (forall e | e in es :: Permitted(e, d)) && NothingTakes(st, subnets, d, es)
    requires Run(st, subnets, d, es).request.Installed?
    ensures var before := Run(st, subnets, d, es);
            var s := before.request.server;
            var after := Next(before, subnets, d, RevokeOthers(true, at));
            && (exists i | 0 <= i < |after.cp.rows| :: after.cp.rows[i].server == s && Serves(after.cp, i, d))
            && (forall i | 0 <= i < |after.cp.rows| && after.cp.rows[i].device == d && after.cp.rows[i].Live() ::
                  after.cp.rows[i].server == s)
  {
    SwitchingNeverLeavesAGap(st, subnets, d, es);
    var before := Run(st, subnets, d, es);
    var after := Next(before, subnets, d, RevokeOthers(true, at));
    var i :| 0 <= i < |before.cp.rows| && before.cp.rows[i].server == before.request.server && Serves(before.cp, i, d);
    assert Serves(after.cp, i, d);
  }

  lemma {:induction false} RunSnoc(st: State, subnets: Subnets, d: DeviceId, es: seq<Event>, e: Event)
    ensures Run(st, subnets, d, es + [e]) == Next(Run(st, subnets, d, es), subnets, d, e)
    decreases |es|
  {
    if es == [] {
      assert [e][1..] == [];
    } else {
      assert (es + [e])[1..] == es[1..] + [e];
      RunSnoc(Next(st, subnets, d, es[0]), subnets, d, es[1..], e);
    }
  }
}

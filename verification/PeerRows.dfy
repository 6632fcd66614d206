/**
 The peer_assignments table and the statements that write it
 (server/internal/store/peers.go). A row says what one device is to have on one box,
 and how far that is known to be so. A row's id is its position: rows are inserted
 and updated, never deleted.

 The functions say what each statement does to the table; the class PeerStore
 runs them in place.
 */
module PeerRows {
  import opened Prelude

  type DeviceId = nat
  type ServerId = nat
  type RowId = nat

  /** A WireGuard public key: an opaque value, labelled by the device that made
      it and by how many keys that device had made before. */
  datatype Key = Key(device: DeviceId, generation: nat)

  datatype PeerState = Pending | Active | Revoking | Revoked

  datatype Row = Row(
    device: DeviceId,
    server: ServerId,
    key: Key,
    prev: Option<Key>,
    ip: int,                    // host offset inside the server's tunnel subnet
    state: PeerState,
    revision: nat,
    applied: nat,
    attempts: nat,
    lastError: string,
    nextAttempt: int,
    activatedAt: Option<int>,
    revokedAt: Option<int>)
  {
    /** The row asks for an installed peer. */
    predicate Live() { state == Pending || state == Active }

    /** The row holds its address and its (device, server) slot. */
    predicate Held() { state != Revoked }

    /** PeerAssignment.Applied: the edge confirmed the present revision. */
    predicate Applied() { state == Active && applied >= revision }
  }

  type Rows = seq<Row>

  /** Host bits of each server's tunnel subnet; a server outside the map does not exist. */
  type Subnets = map<ServerId, nat>

  datatype EnsureError = UnknownServer | NoAddresses

  // ------------------------------------------------------------ queries

  predicate Taken(rows: Rows, s: ServerId, ip: int) {
    exists i | 0 <= i < |rows| :: rows[i].server == s && rows[i].Held() && rows[i].ip == ip
  }

  /** The held row of (d, s), the first one if there were several. */
  function FindHeld(rows: Rows, d: DeviceId, s: ServerId, from: nat := 0): (r: Option<RowId>)
    requires from <= |rows|
    ensures r.Some? ==> from <= r.value < |rows| && rows[r.value].Held()
                        && rows[r.value].device == d && rows[r.value].server == s
    ensures r.None? ==> forall i | from <= i < |rows| ::
                          rows[i].Held() ==> rows[i].device != d || rows[i].server != s
    decreases |rows| - from
  {
    if from == |rows| then None
    else if rows[from].Held() && rows[from].device == d && rows[from].server == s then Some(from)
    else FindHeld(rows, d, s, from + 1)
  }

  /** Highest host offset that may be handed out: network and broadcast excluded. */
  function MaxOffset(hostBits: nat): int { Pow2(hostBits) - 2 }

  /** The lowest free offset in lo..hi. */
  function LowestFree(rows: Rows, s: ServerId, lo: int, hi: int): (r: Option<int>)
    ensures r.Some? ==> lo <= r.value <= hi && !Taken(rows, s, r.value)
                        && forall ip | lo <= ip < r.value :: Taken(rows, s, ip)
    ensures r.None? ==> forall ip | lo <= ip <= hi :: Taken(rows, s, ip)
    decreases hi - lo
  {
    if lo > hi then None
    else if !Taken(rows, s, lo) then Some(lo)
    else LowestFree(rows, s, lo + 1, hi)
  }

  function Allocate(rows: Rows, s: ServerId, hostBits: nat): Option<int> {
    if MaxOffset(hostBits) < 1 then None else LowestFree(rows, s, 2, MaxOffset(hostBits))
  }

  // ------------------------------------------------------------ writes

  function FreshRow(d: DeviceId, s: ServerId, key: Key, ip: int, now: int): Row {
    Row(d, s, key, None, ip, Pending, 1, 0, 0, "", now, None, None)
  }

  /** A new desired state for an existing row: same address, next revision. */
  function Redesire(row: Row, key: Key, now: int): Row {
    row.(key := key,
         prev := if row.key == key then row.prev
                 else if row.prev.Some? then row.prev else Some(row.key),
         revision := row.revision + 1,
         state := Pending,
         attempts := 0,
         lastError := "",
         nextAttempt := now,
         revokedAt := None)
  }

  function Ensure(rows: Rows, subnets: Subnets, d: DeviceId, s: ServerId, key: Key, now: int)
    : (r: (Rows, Result<RowId, EnsureError>))
    ensures r.1.Success? ==> r.1.value < |r.0|
  {
    if s !in subnets then (rows, Failure(UnknownServer)) else
    match FindHeld(rows, d, s)
    case Some(i) =>
      if rows[i].key == key && rows[i].state != Revoking then (rows, Success(i))
      else (rows[i := Redesire(rows[i], key, now)], Success(i))
    case None =>
      match Allocate(rows, s, subnets[s])
      case None => (rows, Failure(NoAddresses))
      case Some(ip) => (rows + [FreshRow(d, s, key, ip, now)], Success(|rows|))
  }

  function MarkApplied(rows: Rows, id: RowId, revision: nat, now: int): Rows {
    if id < |rows| && rows[id].state == Pending && rows[id].revision <= revision then
      rows[id := rows[id].(state := Active, applied := Max(rows[id].applied, revision), prev := None,
                           attempts := 0, lastError := "",
                           activatedAt := if rows[id].activatedAt.Some? then rows[id].activatedAt else Some(now))]
    else rows
  }

  function MarkRevoked(rows: Rows, id: RowId, revision: nat, now: int): Rows {
    if id < |rows| && rows[id].state == Revoking && rows[id].revision <= revision then
      rows[id := rows[id].(state := Revoked, applied := Max(rows[id].applied, revision),
                           revokedAt := Some(now), attempts := 0, lastError := "")]
    else rows
  }

  /** left($2, 500): the recorded cause is at most 500 characters. */
  function Clip(cause: string): string {
    if |cause| <= 500 then cause else cause[..500]
  }

  function MarkAttemptFailed(rows: Rows, id: RowId, cause: string, retryAt: int): Rows {
    if id < |rows| then
      rows[id := rows[id].(attempts := rows[id].attempts + 1, lastError := Clip(cause), nextAttempt := retryAt)]
    else rows
  }

  /** The WHERE clauses of the three BeginRevoke statements. */
  datatype Scope = OfDevices(devices: set<DeviceId>) | OtherServers(device: DeviceId, keep: ServerId) {
    predicate Matches(row: Row) {
      row.Live() && match this
                    case OfDevices(ds) => row.device in ds
                    case OtherServers(d, keep) => row.device == d && row.server != keep
    }
  }

  function Revoke(row: Row, now: int): Row {
    row.(state := Revoking, revision := row.revision + 1, attempts := 0, nextAttempt := now)
  }

  function BeginRevoke(rows: Rows, scope: Scope, now: int): (r: Rows)
    ensures |r| == |rows|
  {
    seq(|rows|, i requires 0 <= i < |rows| => if scope.Matches(rows[i]) then Revoke(rows[i], now) else rows[i])
  }

  function MarkServerPeersStale(rows: Rows, s: ServerId, now: int): (r: Rows)
    ensures |r| == |rows|
  {
    seq(|rows|, i requires 0 <= i < |rows| =>
      if rows[i].server == s && rows[i].Live() then
        rows[i].(state := Pending, revision := rows[i].revision + 1, attempts := 0, nextAttempt := now)
      else rows[i])
  }

  // ------------------------------------------------- the table's indexes

  /** The two partial unique indexes, and offsets inside the subnet. */
  ghost predicate Indexed(rows: Rows, subnets: Subnets) {
    && (forall i | 0 <= i < |rows| && rows[i].Held() ::
          && rows[i].server in subnets
          && 2 <= rows[i].ip <= MaxOffset(subnets[rows[i].server]))
    && (forall i, j | 0 <= i < j < |rows| && rows[i].Held() && rows[j].Held() && rows[i].server == rows[j].server ::
          rows[i].ip != rows[j].ip && rows[i].device != rows[j].device)
  }

  lemma EnsureKeepsIndexes(rows: Rows, subnets: Subnets, d: DeviceId, s: ServerId, key: Key, now: int)
    requires Indexed(rows, subnets)
    ensures Indexed(Ensure(rows, subnets, d, s, key, now).0, subnets)
  {
    var (rows', r) := Ensure(rows, subnets, d, s, key, now);
    if s in subnets && FindHeld(rows, d, s).None? && r.Success? {
      var ip := rows'[|rows|].ip;
      forall i | 0 <= i < |rows| && rows[i].Held() && rows[i].server == s ensures rows[i].ip != ip {
        assert !Taken(rows, s, ip);
      }
    }
  }

  /** Every other write only changes rows in place, never back out of Revoked. */
  ghost predicate Settles(rows: Rows, rows': Rows) {
    && |rows'| == |rows|
    && forall i | 0 <= i < |rows| ::
         && rows'[i].device == rows[i].device && rows'[i].server == rows[i].server && rows'[i].ip == rows[i].ip
         && (rows'[i].Held() ==> rows[i].Held())
  }

  lemma SettlingKeepsIndexes(rows: Rows, rows': Rows, subnets: Subnets)
    requires Indexed(rows, subnets) && Settles(rows, rows')
    ensures Indexed(rows', subnets)
  {
  }

  /** Rows that occupy an address of server s. */
  ghost function Occupants(rows: Rows, s: ServerId): set<int> {
    set i: int | 0 <= i < |rows| && rows[i].server == s && rows[i].Held()
  }

  lemma UsableOffsets(hostBits: nat)
    ensures MaxOffset(hostBits) >= 2 <==> hostBits >= 2
    ensures hostBits < 2 ==> MaxOffset(hostBits) < 1
  {
    if hostBits >= 2 {
      assert Pow2(hostBits) == 2 * Pow2(hostBits - 1) == 4 * Pow2(hostBits - 2);
    } else if hostBits == 1 {
      assert Pow2(1) == 2 * Pow2(0);
    }
  }

  /** The held addresses of a server are as many as the rows holding them. */
  lemma OccupiedOffsets(rows: Rows, subnets: Subnets, s: ServerId) returns (taken: set<int>)
    requires Indexed(rows, subnets) && s in subnets
    ensures |taken| == |Occupants(rows, s)|
    ensures forall ip :: ip in taken <==> Taken(rows, s, ip)
    ensures forall ip | ip in taken :: 2 <= ip <= MaxOffset(subnets[s])
  {
    var occ := Occupants(rows, s);
    var offset := map i | i in occ :: rows[i].ip;
    InjectiveImageSize(occ, offset);
    taken := set i | i in occ :: offset[i];
    forall ip | Taken(rows, s, ip) ensures ip in taken {
      var i :| 0 <= i < |rows| && rows[i].server == s && rows[i].Held() && rows[i].ip == ip;
      assert i in occ && offset[i] == ip;
    }
  }

  /** Allocation fails exactly when every one of the 2^h - 3 usable offsets is
      held; a subnet of fewer than two host bits has none at all. */
  lemma AllocationFailsExactlyWhenFull(rows: Rows, subnets: Subnets, s: ServerId)
    requires Indexed(rows, subnets) && s in subnets
    ensures subnets[s] >= 2 ==> |Occupants(rows, s)| <= Pow2(subnets[s]) - 3
    ensures Allocate(rows, s, subnets[s]).None? <==>
            subnets[s] < 2 || |Occupants(rows, s)| == Pow2(subnets[s]) - 3
  {
    UsableOffsets(subnets[s]);
    var top := MaxOffset(subnets[s]);
    if subnets[s] >= 2 {
      var taken := OccupiedOffsets(rows, subnets, s);
      var usable := Interval(2, top + 1);
      SubsetSize(taken, usable);
      assert (forall ip | 2 <= ip <= top :: Taken(rows, s, ip)) <==> usable <= taken;
    }
  }

  /** A revoked row's address is free again the moment its revocation is recorded:
      there is no cool-down, and the next device may be given it. */
  lemma ARevokedAddressIsFreeAtOnce(rows: Rows, subnets: Subnets, id: RowId, revision: nat, now: int)
    requires Indexed(rows, subnets) && id < |rows|
    requires rows[id].state == Revoking && rows[id].revision <= revision
    ensures var (s, after) := (rows[id].server, MarkRevoked(rows, id, revision, now));
            && !Taken(after, s, rows[id].ip)
            && Allocate(after, s, subnets[s]).Some? && Allocate(after, s, subnets[s]).value <= rows[id].ip
  {
    var (s, after) := (rows[id].server, MarkRevoked(rows, id, revision, now));
    UsableOffsets(subnets[s]);
    assert !Taken(after, s, rows[id].ip);
    assert LowestFree(after, s, 2, MaxOffset(subnets[s])).Some?;
  }

  /** Asking twice for the same thing is asking once: the second call finds the
      first one's row and changes nothing. */
  lemma EnsureIsIdempotent(rows: Rows, subnets: Subnets, d: DeviceId, s: ServerId, key: Key, now: int, later: int)
    requires Indexed(rows, subnets)
    ensures var (once, r) := Ensure(rows, subnets, d, s, key, now);
            Ensure(once, subnets, d, s, key, later) == (once, r)
  {
    EnsureKeepsIndexes(rows, subnets, d, s, key, now);
    var (once, r) := Ensure(rows, subnets, d, s, key, now);
    if r.Success? {
      assert once[r.value].Held() && once[r.value].device == d && once[r.value].server == s;
      var f := FindHeld(once, d, s);
      assert f == Some(r.value);
    }
  }

  /** A changed wish: the row's next revision, to be pushed at once, the failures of the
      one before forgotten. */
  predicate WishedAnew(was: Row, row: Row, now: int) {
    && row.revision == was.revision + 1 && (row.state == Pending || row.state == Revoking)
    && row.attempts == 0 && row.nextAttempt == now
  }

  /** Every statement that changes what a row wishes for makes it due at once, and leaves
      every other row as it was. A request's row asks for the key, on the server. */
  lemma NewWishesAreDueAtOnce(rows: Rows, subnets: Subnets, d: DeviceId, s: ServerId, key: Key, scope: Scope, now: int)
    ensures var (asked, r) := Ensure(rows, subnets, d, s, key, now);
            && |rows| <= |asked| <= |rows| + 1
            && (forall i | 0 <= i < |rows| ::
                  asked[i] == rows[i] || (r == Success(i) && WishedAnew(rows[i], asked[i], now)))
            && (|asked| > |rows| ==> r == Success(|rows|) && asked[|rows|].state == Pending
                                     && asked[|rows|].nextAttempt == now && asked[|rows|].revision == 1)
            && (r.Success? ==> asked[r.value].device == d && asked[r.value].server == s
                               && asked[r.value].key == key && asked[r.value].Live())
    ensures forall i | 0 <= i < |rows| ::
              if scope.Matches(rows[i]) then
                WishedAnew(rows[i], BeginRevoke(rows, scope, now)[i], now)
                && BeginRevoke(rows, scope, now)[i].state == Revoking
              else BeginRevoke(rows, scope, now)[i] == rows[i]
    ensures forall i | 0 <= i < |rows| ::
              if rows[i].server == s && rows[i].Live() then
                WishedAnew(rows[i], MarkServerPeersStale(rows, s, now)[i], now)
                && MarkServerPeersStale(rows, s, now)[i].state == Pending
              else MarkServerPeersStale(rows, s, now)[i] == rows[i]
  {
  }
}

/** The store's methods over peer_assignments, updating one table in place. */
module PeerStore {
  import opened Prelude
  import opened PeerRows

  class Store {
    var rows: Rows
    const subnets: Subnets

    ghost predicate Valid()
      reads this
    {
      Indexed(rows, subnets)
    }

    constructor (subnets: Subnets)
      ensures Valid() && rows == [] && this.subnets == subnets
    {
      this.subnets := subnets;
      rows := [];
    }

    method Find(d: DeviceId, s: ServerId) returns (r: Option<RowId>)
      ensures r == FindHeld(rows, d, s)
    {
      var i := 0;
      while i < |rows|
        invariant 0 <= i <= |rows|
        invariant FindHeld(rows, d, s) == FindHeld(rows, d, s, i)
      {
        if rows[i].Held() && rows[i].device == d && rows[i].server == s {
          return Some(i);
        }
        i := i + 1;
      }
      return None;
    }

    /** The NOT EXISTS probe of one candidate address. */
    method IsTaken(s: ServerId, ip: int) returns (taken: bool)
      ensures taken <==> Taken(rows, s, ip)
    {
      for i := 0 to |rows|
        invariant forall k | 0 <= k < i :: !(rows[k].server == s && rows[k].Held() && rows[k].ip == ip)
      {
        if rows[i].server == s && rows[i].Held() && rows[i].ip == ip {
          return true;
        }
      }
      return false;
    }

    /** Probes upwards, so that every offset below the answer is taken; None when all are. */
    method AllocateIp(s: ServerId, hostBits: nat) returns (r: Option<int>)
      ensures r == Allocate(rows, s, hostBits)
      ensures r.Some? ==> 2 <= r.value <= MaxOffset(hostBits) && !Taken(rows, s, r.value)
      ensures r.Some? ==> forall ip | 2 <= ip < r.value :: Taken(rows, s, ip)
      ensures r.None? ==> forall ip | 2 <= ip <= MaxOffset(hostBits) :: Taken(rows, s, ip)
    {
      var top := MaxOffset(hostBits);
      if top < 1 {
        return None;
      }
      var g := 2;
      while g <= top
        invariant 2 <= g
        invariant LowestFree(rows, s, 2, top) == LowestFree(rows, s, g, top)
        decreases top - g
      {
        var taken := IsTaken(s, g);
        if !taken {
          return Some(g);
        }
        g := g + 1;
      }
      return None;
    }

    /** Device d is to have this key on server s: the row that says so, made or brought round. */
    method EnsureAssignment(d: DeviceId, s: ServerId, key: Key, now: int)
      returns (r: Result<RowId, EnsureError>)
      requires Valid()
      modifies this`rows
      ensures Valid()
      ensures (rows, r) == Ensure(old(rows), subnets, d, s, key, now)
      // The row handed back asks for this key on this server, and is not on its way out.
      ensures r.Success? ==> rows[r.value].device == d && rows[r.value].server == s
                             && rows[r.value].key == key && rows[r.value].Live()
      // An address, once given to a row, stays; a refusal leaves the table alone.
      ensures r.Success? ==> forall i | 0 <= i < |old(rows)| :: rows[i].ip == old(rows)[i].ip
      ensures r.Failure? ==> rows == old(rows)
    {
      EnsureKeepsIndexes(rows, subnets, d, s, key, now);
      if s !in subnets {
        return Failure(UnknownServer);
      }
      var existing := Find(d, s);
      if existing.Some? {
        var p := rows[existing.value];
        if p.key == key && p.state != Revoking {
          return Success(existing.value);
        }
        if p.key != key && p.prev == None {
          p := p.(prev := Some(p.key));
        }
        p := p.(key := key, revision := p.revision + 1, state := Pending, attempts := 0, lastError := "");
        p := p.(nextAttempt := now, revokedAt := None);
        rows := rows[existing.value := p];
        return Success(existing.value);
      }
      var ip := AllocateIp(s, subnets[s]);
      if ip == None {
        return Failure(NoAddresses);
      }
      rows := rows + [FreshRow(d, s, key, ip.value, now)];
      return Success(|rows| - 1);
    }

    /** The edge confirmed `revision`: only a pending row at or below it becomes active. */
    method RecordApplied(id: RowId, revision: nat, now: int)
      requires Valid()
      modifies this`rows
      ensures Valid()
      ensures rows == MarkApplied(old(rows), id, revision, now)
    {
      if id < |rows| && rows[id].state == Pending && rows[id].revision <= revision {
        var p := rows[id];
        p := p.(state := Active, prev := None, attempts := 0, lastError := "");
        if p.applied < revision { p := p.(applied := revision); }
        if p.activatedAt == None { p := p.(activatedAt := Some(now)); }
        rows := rows[id := p];
      }
      SettlingKeepsIndexes(old(rows), rows, subnets);
    }

    /** The edge confirmed removal at `revision`. */
    method RecordRevoked(id: RowId, revision: nat, now: int)
      requires Valid()
      modifies this`rows
      ensures Valid()
      ensures rows == MarkRevoked(old(rows), id, revision, now)
    {
      if id < |rows| && rows[id].state == Revoking && rows[id].revision <= revision {
        var p := rows[id];
        p := p.(state := Revoked, revokedAt := Some(now), attempts := 0, lastError := "");
        if p.applied < revision { p := p.(applied := revision); }
        rows := rows[id := p];
      }
      SettlingKeepsIndexes(old(rows), rows, subnets);
    }

    method RecordAttemptFailed(id: RowId, cause: string, retryAt: int)
      requires Valid()
      modifies this`rows
      ensures Valid()
      ensures rows == MarkAttemptFailed(old(rows), id, cause, retryAt)
    {
      if id < |rows| {
        rows := rows[id := rows[id].(attempts := rows[id].attempts + 1,
                                     lastError := Clip(cause), nextAttempt := retryAt)];
      }
      SettlingKeepsIndexes(old(rows), rows, subnets);
    }

    /** BeginRevokeForUser, BeginRevokeForDevice, BeginRevokeOtherServers: the live
        rows in scope, and no others, are put on their way out. */
    method Revoke(scope: Scope, now: int) returns (affected: nat)
      requires Valid()
      modifies this`rows
      ensures Valid()
      ensures rows == BeginRevoke(old(rows), scope, now)
      ensures affected == |set i: int | 0 <= i < |rows| && rows[i] != old(rows)[i]|
      ensures forall i | 0 <= i < |rows| :: !scope.Matches(rows[i])
    {
      var hits := set i: int | 0 <= i < |rows| && scope.Matches(rows[i]);
      affected := |hits|;
      rows := BeginRevoke(rows, scope, now);
      assert hits == set i: int | 0 <= i < |rows| && rows[i] != old(rows)[i];
      SettlingKeepsIndexes(old(rows), rows, subnets);
    }

    method MarkStale(s: ServerId, now: int) returns (affected: nat)
      requires Valid()
      modifies this`rows
      ensures Valid()
      ensures rows == MarkServerPeersStale(old(rows), s, now)
      ensures affected == |set i: int | 0 <= i < |rows| && rows[i] != old(rows)[i]|
      ensures forall i | 0 <= i < |rows| && rows[i].server == s :: rows[i].state != Active
    {
      var hits := set i: int | 0 <= i < |rows| && rows[i].server == s && rows[i].Live();
      affected := |hits|;
      rows := MarkServerPeersStale(rows, s, now);
      assert hits == set i: int | 0 <= i < |rows| && rows[i] != old(rows)[i];
      SettlingKeepsIndexes(old(rows), rows, subnets);
    }
  }
}

/**
 From the table to the interface: the peer list a resync sends
 (server/internal/store/peers.go, server/internal/provision/reconciler.go) meets
 what the client's Sync needs to be exact, in every reachable state.
 */
module EdgeSync {
  import opened Prelude
  import opened PeerRows
  import opened WireGuard
  import CP = ControlPlane

  /** The request built from the live rows of a server. Addresses are host offsets. */
  function PeerList(rows: Rows, s: ServerId): seq<Peer>
    decreases |rows|
  {
    if rows == [] then []
    else
      var row := rows[|rows| - 1];
      PeerList(rows[..|rows| - 1], s) +
      (if row.server == s && row.Live() then [Peer(Spelled(row.key, 0), Some(row.ip))] else [])
  }

  /** Live rows of one server have different keys and different addresses. */
  ghost predicate Apart(rows: Rows, s: ServerId) {
    forall i, j | 0 <= i < j < |rows| && rows[i].server == rows[j].server == s && rows[i].Live() && rows[j].Live() ::
      rows[i].key != rows[j].key && rows[i].ip != rows[j].ip
  }

  ghost predicate Lists(want: Wanted, rows: Rows, s: ServerId) {
    && want.Keys == CP.LiveKeys(rows, s)
    && forall i | 0 <= i < |rows| && rows[i].server == s && rows[i].Live() ::
      rows[i].key in want && want[rows[i].key] == rows[i].ip
  }

  lemma OneMoreRow(rows: Rows, s: ServerId, before: Wanted)
    requires rows != [] && Apart(rows, s) && Lists(before, rows[..|rows| - 1], s)
    ensures var row := rows[|rows| - 1];
            Lists(if row.server == s && row.Live() then before[row.key := row.ip] else before, rows, s)
  {
    var front, row := rows[..|rows| - 1], rows[|rows| - 1];
    var added := if row.server == s && row.Live() then {row.key} else {};
    assert forall i | 0 <= i < |front| :: front[i] == rows[i];
    assert CP.LiveKeys(rows, s) == CP.LiveKeys(front, s) + added by {
      forall k | k in CP.LiveKeys(front, s) ensures k in CP.LiveKeys(rows, s) {
        var i: int :| 0 <= i < |front| && front[i].server == s && front[i].Live() && front[i].key == k;
        assert rows[i].key == k;
      }
      forall k | k in CP.LiveKeys(rows, s) ensures k in CP.LiveKeys(front, s) + added {
        var i: int :| 0 <= i < |rows| && rows[i].server == s && rows[i].Live() && rows[i].key == k;
        if i < |front| { assert front[i].key == k; }
      }
    }
  }

  /** One more entry on a list that is read. */
  lemma OneMorePeer(peers: seq<Peer>, key: Key, ip: Ip)
    requires Desired(peers).Success?
    ensures var list := peers + [Peer(Spelled(key, 0), Some(ip))];
            Desired(list) == Result.Success(Desired(peers).value[key := ip])
  {
    var list := peers + [Peer(Spelled(key, 0), Some(ip))];
    assert list[..|list| - 1] == peers;
  }

  lemma {:induction false} TheListIsRead(rows: Rows, s: ServerId)
    requires Apart(rows, s)
    ensures Desired(PeerList(rows, s)).Success? && Lists(Desired(PeerList(rows, s)).value, rows, s)
    decreases |rows|
  {
    if rows == [] {
      assert PeerList(rows, s) == [];
    } else {
      var front, row := rows[..|rows| - 1], rows[|rows| - 1];
      TheListIsRead(front, s);
      var peers := PeerList(front, s);
      OneMoreRow(rows, s, Desired(peers).value);
      if row.server == s && row.Live() {
        OneMorePeer(peers, row.key, row.ip);
      } else {
        assert PeerList(rows, s) == peers;
      }
    }
  }

  lemma ListedAddressesAreDistinct(want: Wanted, rows: Rows, s: ServerId)
    requires Lists(want, rows, s) && Apart(rows, s)
    ensures Distinct(want)
  {
    forall j, k | j in want && k in want && want[j] == want[k] ensures j == k {
      assert j in CP.LiveKeys(rows, s) && k in CP.LiveKeys(rows, s);
      var a: int :| 0 <= a < |rows| && rows[a].server == s && rows[a].Live() && rows[a].key == j;
      var b: int :| 0 <= b < |rows| && rows[b].server == s && rows[b].Live() && rows[b].key == k;
    }
  }

  lemma ReachableRowsAreApart(subnets: Subnets, es: seq<CP.Event>, s: ServerId)
    ensures Apart(CP.Run(CP.INITIAL, subnets, es).rows, s)
  {
    CP.RunKeepsAccount(CP.INITIAL, subnets, es);
    CP.RunKeepsIndexes(CP.INITIAL, subnets, es);
    var st := CP.Run(CP.INITIAL, subnets, es);
    forall i, j | 0 <= i < j < |st.rows| && st.rows[i].server == st.rows[j].server == s && st.rows[i].Live()
      && st.rows[j].Live()
      ensures st.rows[i].key != st.rows[j].key && st.rows[i].ip != st.rows[j].ip
    {
      CP.HeldKeysApart(st, i, j);
      assert CP.KeyOwned(st, i) && CP.KeyOwned(st, j);
    }
  }

  ghost predicate AsListed(after: Peers, rows: Rows, s: ServerId) {
    forall i | 0 <= i < |rows| && rows[i].server == s && rows[i].Live() ::
      rows[i].key in after && after[rows[i].key] == [Host(rows[i].ip)]
  }

  lemma ListedIsExact(after: Peers, want: Wanted, rows: Rows, s: ServerId)
    requires Lists(want, rows, s) && after.Keys == want.Keys
    ensures AsListed(after, rows, s) <==> after == Exact(want)
  {
    if AsListed(after, rows, s) {
      forall k | k in want ensures after[k] == Exact(want)[k] {
        assert k in CP.LiveKeys(rows, s);
        var i: int :| 0 <= i < |rows| && rows[i].server == s && rows[i].Live() && rows[i].key == k;
      }
    }
  }

  /** After any run of the control plane, and whatever is on the interface: the list
      a resync sends is accepted, and syncing it leaves a peer for each pending or
      active row of that server and no other. Each of them has its row's address and
      no other exactly when the peers skipped are tidy, as they are on an interface
      driven only by the agent. */
  lemma AResyncReachesTheInterface(subnets: Subnets, es: seq<CP.Event>, s: ServerId, before: Peers)
    ensures var rows := CP.Run(CP.INITIAL, subnets, es).rows;
            var list := Desired(PeerList(rows, s));
            && list.Success? && Distinct(list.value)
            && var after := Settled(before, list.value);
            && after.Keys == CP.LiveKeys(rows, s)
            && (AsListed(after, rows, s) <==> TidySkips(before, list.value))
            && (HostOnly(before) ==> AsListed(after, rows, s))
  {
    var rows := CP.Run(CP.INITIAL, subnets, es).rows;
    ReachableRowsAreApart(subnets, es, s);
    TheListIsRead(rows, s);
    var want := Desired(PeerList(rows, s)).value;
    ListedAddressesAreDistinct(want, rows, s);
    SettledIsExactWhenTidy(before, want);
    ListedIsExact(Settled(before, want), want, rows, s);
    if HostOnly(before) { HostOnlyIsTidy(before, want); }
  }
}

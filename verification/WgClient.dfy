/**
 wg.Client (edge/internal/wg/wg.go): setting, removing and syncing peers by
 running one command after another, any of which may fail.
 */
module WgClient {
  import opened Prelude
  import opened PeerRows
  import opened WireGuard

  /** The replaced key is compared as text: another spelling of the same key is
      removed and set again. */
  function Checked(peer: Peer, replaced: Text): Result<Request, Error> {
    if ValidateKey(peer.publicKey).Failure? then Failure(InvalidKey)
    else if peer.tunnelIp.None? then Failure(InvalidIp)
    else
      var key := peer.publicKey.key;
      if replaced == Empty || replaced == Spelled(key, 0) then Success(Request(key, peer.tunnelIp.value, None))
      else if ValidateKey(replaced).Failure? then Failure(InvalidKey)
      else Success(Request(key, peer.tunnelIp.value, Some(replaced.key)))
  }

  /** What holds of the interface at every moment of a Sync: it has no more peers
      than before or than wanted, never loses a peer that stays, and a skipped peer
      keeps its address. */
  ghost predicate Steady(m: Peers, before: Peers, want: Wanted) {
    && (m.Keys <= before.Keys || m.Keys <= want.Keys)
    && |m| <= Max(|before|, |want|)
    && before.Keys * want.Keys <= m.Keys
    && (Distinct(want) ==> forall k | k in want && Skips(before, want, k) ::
      k in m && m[k] != [] && m[k][0] == before[k][0])
  }

  lemma SteadyWhen(m: Peers, before: Peers, want: Wanted)
    requires m.Keys <= before.Keys || m.Keys <= want.Keys
    requires before.Keys * want.Keys <= m.Keys
    requires Distinct(want) ==> forall k | k in want && Skips(before, want, k) ::
      k in m && m[k] != [] && m[k][0] == before[k][0]
    ensures Steady(m, before, want)
  {
    assert |m| == |m.Keys| && |before| == |before.Keys| && |want| == |want.Keys|;
    if m.Keys <= before.Keys { SubsetSize(m.Keys, before.Keys); } else { SubsetSize(m.Keys, want.Keys); }
  }

  lemma SettlingIsSteady(m: Peers, before: Peers, want: Wanted, done: set<Key>)
    requires done <= want.Keys && Settling(m, before, want, done)
    ensures Steady(m, before, want)
  {
    if Distinct(want) {
      forall k | k in want && Skips(before, want, k) ensures k in m && m[k] != [] && m[k][0] == before[k][0] {
        assert m[k] == Strip(before[k], Claims(before, want, done));
        assert before[k][0] !in Claims(before, want, done);
      }
    }
    SteadyWhen(m, before, want);
  }

  /** The moments recorded from some point on are all steady. */
  ghost predicate AllSteady(trace: seq<Peers>, from: nat, before: Peers, want: Wanted) {
    forall i | from <= i < |trace| :: Steady(trace[i], before, want)
  }

  lemma OneMore(trace: seq<Peers>, m: Peers, from: nat, before: Peers, want: Wanted)
    requires AllSteady(trace, from, before, want) && Steady(m, before, want)
    ensures AllSteady(trace + [m], from, before, want)
  {
  }

  /** The interface during the first loop, with the keys todo still to look at. */
  predicate Removing(m: Peers, before: Peers, want: Wanted, todo: set<Key>) {
    m == map k | k in before && (k in want || k in todo) :: before[k]
  }

  lemma RemovingIsSteady(m: Peers, before: Peers, want: Wanted, todo: set<Key>)
    requires Removing(m, before, want, todo)
    ensures Steady(m, before, want)
  {
    SteadyWhen(m, before, want);
  }

  lemma RemovingStep(m: Peers, before: Peers, want: Wanted, todo: set<Key>, k: Key)
    requires Removing(m, before, want, todo) && k in todo
    ensures Removing(if k in want then m else Remove(m, k), before, want, todo - {k})
  {
  }

  lemma SettledOutcome(m: Peers, before: Peers, want: Wanted)
    requires Settling(m, before, want, want.Keys) && Unique(m)
    ensures m.Keys == want.Keys
    ensures Distinct(want) ==> m == Settled(before, want)
    ensures m == Exact(want) <==> Distinct(want) && TidySkips(before, want)
  {
    if Distinct(want) {
      SettlingEnds(m, before, want);
      SettledIsExactWhenTidy(before, want);
    } else {
      SharedAddressesCannotBeExact(m, want);
    }
  }

  /** Setting k's address, whether or not the command took. */
  lemma AfterSetting(m: Peers, m': Peers, before: Peers, want: Wanted, done: set<Key>, k: Key)
    requires done <= want.Keys && k in want && k !in done && !Skips(before, want, k)
    requires Settling(m, before, want, done) && (m' == m || m' == Assign(m, k, want[k]))
    ensures m' == Assign(m, k, want[k]) ==> Settling(m', before, want, done + {k})
    ensures Steady(m', before, want)
    ensures HostOnly(m) ==> HostOnly(m')
  {
    SettlingSets(m, before, want, done, k);
    SettlingIsSteady(m, before, want, done);
    SettlingIsSteady(Assign(m, k, want[k]), before, want, done + {k});
    CommandsKeepTheRules(m, k, want[k]);
  }

  /** How many of the first n commands did not report success. */
  function Failed(fates: nat -> Fate, n: nat): nat {
    if n == 0 then 0 else Failed(fates, n - 1) + (if fates(n - 1) == Done then 0 else 1)
  }

  class Client {
    const persist: bool
    const fates: nat -> Fate      // what becomes of the n-th command run
    var commands: nat             // commands run so far
    ghost var failures: nat       // how many of them did not report success
    var peers: Peers              // the running interface
    var saved: Peers              // the configuration file
    ghost var trace: seq<Peers>   // the interface after each command that touches it

    ghost predicate Valid()
      reads this
    {
      Unique(peers) && failures == Failed(fates, commands)
    }

    constructor (persist: bool, fates: nat -> Fate, peers: Peers)
      requires Unique(peers)
      ensures Valid() && this.peers == peers && this.persist == persist && this.fates == fates
      ensures commands == failures == 0 && trace == [] && saved == peers
    {
      this.persist := persist;
      this.fates := fates;
      this.commands := 0;
      this.failures := 0;
      this.peers := peers;
      this.saved := peers;
      this.trace := [];
    }

    method RunSet(k: Key, ip: Ip) returns (ok: bool)
      requires Valid()
      modifies `commands, `failures, `peers, `trace
      ensures Valid() && commands == old(commands) + 1
      ensures failures == old(failures) + (if fates(old(commands)) == Done then 0 else 1)
      ensures ok <==> fates(old(commands)) == Done
      ensures peers == (if fates(old(commands)) == Refused then old(peers) else Assign(old(peers), k, ip))
      ensures trace == old(trace) + [peers]
    {
      CommandsKeepTheRules(peers, k, ip);
      if fates(commands) != Refused { peers := Assign(peers, k, ip); }
      ok := fates(commands) == Done;
      failures := failures + (if ok then 0 else 1);
      commands := commands + 1;
      trace := trace + [peers];
    }

    method RunRemove(k: Key) returns (ok: bool)
      requires Valid()
      modifies `commands, `failures, `peers, `trace
      ensures Valid() && commands == old(commands) + 1
      ensures failures == old(failures) + (if fates(old(commands)) == Done then 0 else 1)
      ensures ok <==> fates(old(commands)) == Done
      ensures peers == (if fates(old(commands)) == Refused then old(peers) else Remove(old(peers), k))
      ensures trace == old(trace) + [peers]
    {
      if fates(commands) != Refused { peers := Remove(peers, k); }
      ok := fates(commands) == Done;
      failures := failures + (if ok then 0 else 1);
      commands := commands + 1;
      trace := trace + [peers];
    }

    method Save() returns (ok: bool)
      requires Valid()
      modifies `commands, `failures, `saved
      ensures Valid()
      ensures commands == old(commands) + (if persist then 1 else 0)
      ensures ok <==> !persist || fates(old(commands)) == Done
      ensures failures == old(failures) + (if ok then 0 else 1)
      ensures saved == (if persist && fates(old(commands)) != Refused then peers else old(saved))
    {
      if !persist { return true; }
      if fates(commands) != Refused { saved := peers; }
      ok := fates(commands) == Done;
      failures := failures + (if ok then 0 else 1);
      commands := commands + 1;
    }

    /** Installs a peer. A replaced key goes first: it is never on the interface
        beside the new state. */
    method SetPeer(peer: Peer, replaced: Text) returns (r: Outcome)
      requires Valid()
      modifies this
      ensures Valid() && |trace| >= |old(trace)|
      ensures Checked(peer, replaced).Failure? ==> r == Failure(Checked(peer, replaced).error) && unchanged(this)
      ensures Checked(peer, replaced).Success? ==>
                var q := Checked(peer, replaced).value;
                && (r == Success(()) <==> failures == old(failures))
                && (r.Failure? ==> r.error == CommandFailed)
                && (r.Success? ==> peers == AfterSet(old(peers), q) && (persist ==> saved == peers))
                && (peers == old(peers) || peers == WithoutReplaced(old(peers), q) || peers == AfterSet(old(peers), q))
                && (q.removed.Some? && q.removed.value != q.key ==>
                      forall i | |old(trace)| <= i < |trace| :: q.removed.value in trace[i] ==> trace[i] == old(peers))
    {
      var key := ValidateKey(peer.publicKey);
      if key.Failure? { return Failure(key.error); }
      if peer.tunnelIp.None? { return Failure(InvalidIp); }
      if replaced != Empty && replaced != Spelled(key.value, 0) {
        var stale := ValidateKey(replaced);
        if stale.Failure? { return Failure(stale.error); }
        var ok := RunRemove(stale.value);
        if !ok { return Failure(CommandFailed); }
      }
      var ok := RunSet(key.value, peer.tunnelIp.value);
      if !ok { return Failure(CommandFailed); }
      ok := Save();
      return if ok then Success(()) else Failure(CommandFailed);
    }

    /** Removes a peer; one that is not there is no error. */
    method RemovePeer(publicKey: Text) returns (r: Outcome)
      requires Valid()
      modifies this
      ensures Valid()
      ensures ValidateKey(publicKey).Failure? ==> r == Failure(InvalidKey) && unchanged(this)
      ensures ValidateKey(publicKey).Success? ==>
                && (r == Success(()) <==> failures == old(failures))
                && (r.Failure? ==> r.error == CommandFailed)
                && (r.Success? ==> peers == Remove(old(peers), publicKey.key) && (persist ==> saved == peers))
                && (peers == old(peers) || peers == Remove(old(peers), publicKey.key))
    {
      var key := ValidateKey(publicKey);
      if key.Failure? { return Failure(key.error); }
      var ok := RunRemove(key.value);
      if !ok { return Failure(CommandFailed); }
      ok := Save();
      return if ok then Success(()) else Failure(CommandFailed);
    }

    method Collect(list: seq<Peer>) returns (r: Result<Wanted, Error>)
      ensures r == Desired(list)
    {
      var want: Wanted := map[];
      for i := 0 to |list|
        invariant Desired(list[..i]) == Result.Success(want)
      {
        assert list[..i + 1][..i] == list[..i];
        var key := ValidateKey(list[i].publicKey);
        if key.Failure? { AFailedPrefixFails(list, i + 1); return Failure(key.error); }
        if list[i].tunnelIp.None? { AFailedPrefixFails(list, i + 1); return Failure(InvalidIp); }
        want := want[key.value := list[i].tunnelIp.value];
      }
      assert list[..|list|] == list;
      return Success(want);
    }

    /** Makes the interface hold the given peers: removals first, then settings, each
        loop over a map in any order. */
    method Sync(list: seq<Peer>) returns (r: Outcome)
      requires Valid()
      modifies this
      ensures Valid() && |trace| >= |old(trace)|
      ensures fates(old(commands)) != Done ==> r == Failure(CommandFailed)
      ensures fates(old(commands)) == Done && Desired(list).Failure? ==> r == Failure(Desired(list).error)
      ensures fates(old(commands)) != Done || Desired(list).Failure? ==>
        unchanged(`peers) && unchanged(`saved) && unchanged(`trace)
      ensures fates(old(commands)) == Done && Desired(list).Success? ==>
                var want := Desired(list).value;
                && (r == Success(()) <==> failures == old(failures))
                && (r.Failure? ==> r.error == CommandFailed)
                && (r.Success? ==> peers.Keys == want.Keys && (persist ==> saved == peers))
                && (r.Success? && Distinct(want) ==> peers == Settled(old(peers), want))
                && (r.Success? ==> (peers == Exact(want) <==> Distinct(want) && TidySkips(old(peers), want)))
                && AllSteady(trace, |old(trace)|, old(peers), want)
      ensures HostOnly(old(peers)) ==> HostOnly(peers)
    {
      var current := map k | k in peers :: Listed(peers[k]);
      var listed := fates(commands) == Done;
      commands := commands + 1;
      failures := failures + (if listed then 0 else 1);
      if !listed { return Failure(CommandFailed); }
      var wanted := Collect(list);
      if wanted.Failure? { return Failure(wanted.error); }
      var want := wanted.value;
      var ok := Replace(current, want);
      if !ok { return Failure(CommandFailed); }
      SettledOutcome(peers, old(peers), want);
      ok := Save();
      return if ok then Success(()) else Failure(CommandFailed);
    }

    /** The two loops. */
    method Replace(current: map<Key, Option<Ip>>, want: Wanted) returns (ok: bool)
      requires Valid() && current == map k | k in peers :: Listed(peers[k])
      modifies `commands, `failures, `peers, `trace
      ensures Valid() && failures >= old(failures) && |trace| >= |old(trace)|
      ensures ok <==> failures == old(failures)
      ensures ok ==> Settling(peers, old(peers), want, want.Keys)
      ensures AllSteady(trace, |old(trace)|, old(peers), want)
      ensures HostOnly(old(peers)) ==> HostOnly(peers)
    {
      ok := RemoveUnwanted(current.Keys, want);
      if ok { ok := SetWanted(current, want, old(peers), |old(trace)|); }
    }

    /** One round of the first loop. */
    method RemoveUnlessWanted(k: Key, want: Wanted, ghost before: Peers, ghost todo: set<Key>, ghost from: nat)
      returns (ok: bool)
      requires Valid() && k in todo && from <= |trace|
      requires Removing(peers, before, want, todo) && AllSteady(trace, from, before, want)
      modifies `commands, `failures, `peers, `trace
      ensures Valid() && failures >= old(failures) && from <= |trace|
      ensures ok <==> failures == old(failures)
      ensures ok ==> Removing(peers, before, want, todo - {k})
      ensures AllSteady(trace, from, before, want)
      ensures HostOnly(old(peers)) ==> HostOnly(peers)
    {
      RemovingStep(peers, before, want, todo, k);
      ok := true;
      if k !in want {
        RemovingIsSteady(peers, before, want, todo);
        RemovingIsSteady(Remove(peers, k), before, want, todo - {k});
        ghost var t := trace;
        ok := RunRemove(k);
        OneMore(t, peers, from, before, want);
      }
    }

    method RemoveUnwanted(current: set<Key>, want: Wanted) returns (ok: bool)
      requires Valid() && current == peers.Keys
      modifies `commands, `failures, `peers, `trace
      ensures Valid() && failures >= old(failures) && |trace| >= |old(trace)|
      ensures ok <==> failures == old(failures)
      ensures ok ==> Removing(peers, old(peers), want, {})
      ensures AllSteady(trace, |old(trace)|, old(peers), want)
      ensures HostOnly(old(peers)) ==> HostOnly(peers)
    {
      ghost var before := peers;
      ghost var from := |trace|;
      var todo := current;
      while todo != {}
        invariant Valid() && failures == old(failures)
        invariant Removing(peers, before, want, todo)
        invariant from <= |trace| && AllSteady(trace, from, before, want)
        invariant HostOnly(before) ==> HostOnly(peers)
      {
        var k :| k in todo;
        ok := RemoveUnlessWanted(k, want, before, todo, from);
        if !ok { return; }
        todo := todo - {k};
      }
      ok := true;
    }

    /** One round of the second loop. */
    method SetUnlessRight(k: Key, right: bool, want: Wanted, ghost before: Peers, ghost done: set<Key>, ghost from: nat)
      returns (ok: bool)
      requires Valid() && k in want && (right <==> Skips(before, want, k))
      requires done <= want.Keys && k in want && k !in done && from <= |trace|
      requires Settling(peers, before, want, done) && AllSteady(trace, from, before, want)
      modifies `commands, `failures, `peers, `trace
      ensures Valid() && failures >= old(failures) && from <= |trace|
      ensures ok <==> failures == old(failures)
      ensures ok ==> Settling(peers, before, want, done + {k})
      ensures AllSteady(trace, from, before, want)
      ensures HostOnly(old(peers)) ==> HostOnly(peers)
    {
      ok := true;
      if right {
        SettlingSkips(peers, before, want, done, k);
      } else {
        ok := RunSet(k, want[k]);
        AfterSetting(old(peers), peers, before, want, done, k);
        OneMore(old(trace), peers, from, before, want);
      }
    }

    method SetWanted(current: map<Key, Option<Ip>>, want: Wanted, ghost before: Peers, ghost from: nat)
      returns (ok: bool)
      requires Valid() && current == map k | k in before :: Listed(before[k])
      requires Removing(peers, before, want, {}) && from <= |trace| && AllSteady(trace, from, before, want)
      modifies `commands, `failures, `peers, `trace
      ensures Valid() && failures >= old(failures) && from <= |trace|
      ensures ok <==> failures == old(failures)
      ensures ok ==> Settling(peers, before, want, want.Keys)
      ensures AllSteady(trace, from, before, want)
      ensures HostOnly(old(peers)) ==> HostOnly(peers)
    {
      var todo := want.Keys;
      ghost var done: set<Key> := {};
      ghost var start := peers;
      SettlingStarts(before, want);
      while todo != {}
        invariant todo + done == want.Keys && todo !! done
        invariant Valid() && failures == old(failures)
        invariant Settling(peers, before, want, done)
        invariant HostOnly(start) ==> HostOnly(peers)
        invariant from <= |trace| && AllSteady(trace, from, before, want)
        decreases todo
      {
        var k :| k in todo;
        var right := k in current && current[k] == Some(want[k]);
        ok := SetUnlessRight(k, right, want, before, done, from);
        if !ok { return; }
        todo, done := todo - {k}, done + {k};
      }
      assert done == want.Keys;
      ok := true;
    }
  }
}

/**
 What is on the boxes while workers act on snapshots of any age. The agent compares
 no revisions (edge/internal/agent/agent.go), so an answer to an old snapshot takes
 effect like any other: here is exactly when that costs an active row its key, and
 when it gives a revoked row's key back.
 */
module EdgeContents {
  import opened Prelude
  import opened PeerRows
  import A = Acknowledgement

  /** The table and its workers, and the keys installed on each box. */
  datatype Fleet = Fleet(st: A.State, box: map<ServerId, set<Key>>) {
    function On(s: ServerId): set<Key> { if s in box then box[s] else {} }
  }

  const INITIAL := Fleet(A.INITIAL, map[])

  /** A call takes effect when it is answered: ApplyPeer, RemovePeer or SyncPeers,
      for the rows as the worker read them. */
  function Effect(f: Fleet, w: A.Worker): map<ServerId, set<Key>> {
    match w
    case Push(x, _) =>
      var replaced := if x.row.prev.Some? then {x.row.prev.value} else {};
      f.box[x.row.server :=
        if x.row.Live() then f.On(x.row.server) - replaced + {x.row.key} else f.On(x.row.server) - {x.row.key}]
    case Resync(s, peers, _) => f.box[s := set x | x in peers :: x.row.key]
  }

  function Next(f: Fleet, subnets: Subnets, e: A.Event): Fleet {
    Fleet(A.Next(f.st, subnets, e),
          if e.EdgeAnswers? && e.w < |f.st.workers| then Effect(f, f.st.workers[e.w]) else f.box)
  }

  function Run(f: Fleet, subnets: Subnets, es: seq<A.Event>): Fleet
    decreases |es|
  {
    if es == [] then f else Run(Next(f, subnets, es[0]), subnets, es[1..])
  }

  /** The edge has acknowledged what row i asks for now; an active row is such a row. */
  predicate Acked(st: A.State, i: nat)
    requires i < |st.rows|
  {
    st.rows[i].Live() && A.Ack(i, st.rows[i].revision, A.Install(st.rows[i].key, st.rows[i].ip)) in st.acks
  }

  ghost predicate InstalledAt(f: Fleet, i: nat)
    requires i < |f.st.rows|
  {
    Acked(f.st, i) ==> f.st.rows[i].key in f.On(f.st.rows[i].server)
  }

  /** Every row the edge has acknowledged has its key on its box. */
  ghost predicate Installed(f: Fleet) {
    forall i | 0 <= i < |f.st.rows| :: InstalledAt(f, i)
  }

  /** Worker w's call, answered now, takes the key of acknowledged row i off its box:
      it removes it, replaces it by another, or syncs the box to a list without it. */
  predicate Takes(f: Fleet, w: A.Worker, i: nat)
    requires i < |f.st.rows|
  {
    var row := f.st.rows[i];
    && Acked(f.st, i)
    && match w
       case Push(x, _) =>
         && x.row.server == row.server
         && if x.row.Live() then x.row.prev == Some(row.key) && x.row.key != row.key else x.row.key == row.key
       case Resync(s, peers, _) => s == row.server && forall k | 0 <= k < |peers| :: peers[k].row.key != row.key
  }

  ghost predicate Harms(f: Fleet, e: A.Event) {
    e.EdgeAnswers? && e.w < |f.st.workers| && exists i | 0 <= i < |f.st.rows| :: Takes(f, f.st.workers[e.w], i)
  }

  // ------------------------------------------------- acknowledged rows

  /** Acknowledgements are about revisions the row has had. */
  ghost predicate AcksBounded(st: A.State) {
    forall a | a in st.acks :: a.id < |st.rows| && a.revision <= st.rows[a.id].revision
  }

  lemma StepBoundsAcks(st: A.State, subnets: Subnets, e: A.Event)
    requires A.Inv(st) && AcksBounded(st)
    ensures AcksBounded(A.Next(st, subnets, e))
  {
    A.StepAdvances(st, subnets, e);
    var st' := A.Next(st, subnets, e);
    forall a | a in st'.acks ensures a.id < |st'.rows| && a.revision <= st'.rows[a.id].revision {
      if a !in st.acks {
        var x :| x in st.workers[e.w].Items() && a == A.AckOf(x);
        assert A.Genuine(x, st.rows);
      }
    }
  }

  /** No step but an answer makes a row acknowledged, or changes one that is. */
  lemma AckedRowsStand(st: A.State, subnets: Subnets, e: A.Event, i: nat)
    requires AcksBounded(st) && !e.EdgeAnswers? && i < |A.Next(st, subnets, e).rows|
    requires Acked(A.Next(st, subnets, e), i)
    ensures i < |st.rows| && Acked(st, i)
    ensures var (row, row') := (st.rows[i], A.Next(st, subnets, e).rows[i]);
            row'.key == row.key && row'.server == row.server
  {
    A.StepAdvances(st, subnets, e);
    var st' := A.Next(st, subnets, e);
    assert st'.acks == st.acks;
    assert A.Later(st.rows[i], st'.rows[i]);
    assert A.WishOf(st.rows[i]) == A.WishOf(st'.rows[i]);
  }

  /** What an answer newly acknowledges, it has installed. */
  lemma AnswersInstall(f: Fleet, w: nat, x: A.Snapshot)
    requires A.Inv(f.st) && w < |f.st.workers| && x in f.st.workers[w].Items()
    requires x.id < |f.st.rows| && x.row.Live() && x.row.revision == f.st.rows[x.id].revision
    requires f.st.workers[w].Resync? ==> x.row.server == f.st.workers[w].server
    ensures var row := f.st.rows[x.id];
            row.key in Fleet(f.st, Effect(f, f.st.workers[w])).On(row.server)
  {
    assert A.Genuine(x, f.st.rows);
    assert A.WishOf(x.row) == A.WishOf(f.st.rows[x.id]);
  }

  /** Snapshots of a resync are of live rows of its own server. */
  ghost predicate ListsOwn(st: A.State) {
    forall w | 0 <= w < |st.workers| && st.workers[w].Resync? ::
      forall x | x in st.workers[w].peers :: x.row.server == st.workers[w].server && x.row.Live()
  }

  lemma StepListsOwn(st: A.State, subnets: Subnets, e: A.Event)
    requires ListsOwn(st)
    ensures ListsOwn(A.Next(st, subnets, e))
  {
  }

  lemma AnswerIsExact(f: Fleet, subnets: Subnets, w: nat, i: nat)
    requires A.Inv(f.st) && ListsOwn(f.st) && AcksBounded(f.st) && w < |f.st.workers| && i < |f.st.rows|
    requires InstalledAt(f, i)
    ensures InstalledAt(Next(f, subnets, A.EdgeAnswers(w)), i) <==> !Takes(f, f.st.workers[w], i)
  {
    var f' := Next(f, subnets, A.EdgeAnswers(w));
    var call := f.st.workers[w];
    if Acked(f'.st, i) && !Acked(f.st, i) {
      var x :| x in call.Items()
        && A.AckOf(x) == A.Ack(i, f.st.rows[i].revision, A.Install(f.st.rows[i].key, f.st.rows[i].ip));
      AnswersInstall(f, w, x);
    }
  }

  ghost predicate Sane(f: Fleet) { A.Inv(f.st) && AcksBounded(f.st) && ListsOwn(f.st) }

  lemma StepKeepsSane(f: Fleet, subnets: Subnets, e: A.Event)
    requires Sane(f)
    ensures Sane(Next(f, subnets, e))
  {
    A.StepKeepsInv(f.st, subnets, e);
    StepBoundsAcks(f.st, subnets, e);
    StepListsOwn(f.st, subnets, e);
  }

  lemma StepIsExact(f: Fleet, subnets: Subnets, e: A.Event)
    requires Sane(f) && Installed(f)
    ensures Installed(Next(f, subnets, e)) <==> !Harms(f, e)
  {
    var f' := Next(f, subnets, e);
    if e.EdgeAnswers? && e.w < |f.st.workers| {
      forall i | 0 <= i < |f.st.rows| ensures InstalledAt(f', i) <==> !Takes(f, f.st.workers[e.w], i) {
        AnswerIsExact(f, subnets, e.w, i);
      }
    } else if !e.EdgeAnswers? {
      forall i | 0 <= i < |f'.st.rows| ensures InstalledAt(f', i) {
        if Acked(f'.st, i) {
          AckedRowsStand(f.st, subnets, e, i);
          assert InstalledAt(f, i);
        }
      }
    } else {
      assert f' == f;
    }
  }

  // ------------------------------------------------------------ over runs

  ghost predicate InstalledThroughout(f: Fleet, subnets: Subnets, es: seq<A.Event>)
    decreases |es|
  {
    Installed(f) && (es != [] ==> InstalledThroughout(Next(f, subnets, es[0]), subnets, es[1..]))
  }

  ghost predicate NothingHarms(f: Fleet, subnets: Subnets, es: seq<A.Event>)
    decreases |es|
  {
    es != [] ==> !Harms(f, es[0]) && NothingHarms(Next(f, subnets, es[0]), subnets, es[1..])
  }

  lemma {:induction false} InstalledFrom(f: Fleet, subnets: Subnets, es: seq<A.Event>)
    requires Sane(f) && Installed(f)
    ensures InstalledThroughout(f, subnets, es) <==> NothingHarms(f, subnets, es)
    decreases |es|
  {
    if es != [] {
      var f' := Next(f, subnets, es[0]);
      StepIsExact(f, subnets, es[0]);
      StepKeepsSane(f, subnets, es[0]);
      if Harms(f, es[0]) {
        assert !InstalledThroughout(f', subnets, es[1..]);
      } else {
        InstalledFrom(f', subnets, es[1..]);
      }
    }
  }

  /** Over every run: each row the edge has acknowledged, the active ones among them,
      has its key on its box at every point if and only if no call is ever answered
      that takes an acknowledged row's key away. */
  lemma AcknowledgedKeysStayExactlyWhen(subnets: Subnets, es: seq<A.Event>)
    ensures InstalledThroughout(INITIAL, subnets, es) <==> NothingHarms(INITIAL, subnets, es)
  {
    InstalledFrom(INITIAL, subnets, es);
  }

  lemma ActiveRowsAreAcked(f: Fleet, i: nat)
    requires A.Inv(f.st) && i < |f.st.rows| && f.st.rows[i].state == Active
    ensures Acked(f.st, i)
  {
    assert A.Confirmed(i, f.st.rows[i], f.st.acks);
  }

  // --------------------------------------------- only old snapshots harm

  /** The row has moved on since the snapshot, or is over. */
  predicate Superseded(st: A.State, x: A.Snapshot) {
    x.id >= |st.rows| || st.rows[x.id].revision != x.row.revision || !st.rows[x.id].Held()
  }

  predicate ReadAsIs(st: A.State, i: nat, x: A.Snapshot)
    requires i < |st.rows|
  {
    x.id == i && x.row.revision == st.rows[i].revision && x.row.Live()
  }

  /** A call that still says what the table says: a push of a row as it is, or a sync
      of a list with every live row of the server as it is. */
  predicate Current(st: A.State, w: A.Worker) {
    match w
    case Push(x, _) => !Superseded(st, x)
    case Resync(s, peers, _) =>
      forall i | 0 <= i < |st.rows| && st.rows[i].server == s && st.rows[i].Live() ::
        exists k | 0 <= k < |peers| :: ReadAsIs(st, i, peers[k])
  }

  /** Devices offer keys of their own. */
  predicate OwnKeys(row: Row) {
    row.key.device == row.device && (row.prev.Some? ==> row.prev.value.device == row.device)
  }

  ghost predicate AllOwn(st: A.State) {
    && (forall i | 0 <= i < |st.rows| :: OwnKeys(st.rows[i]))
    && (forall w | 0 <= w < |st.workers| :: forall x | x in st.workers[w].Items() :: OwnKeys(x.row))
  }

  predicate OwnRequest(e: A.Event) { e.Request? ==> e.key.device == e.d }

  lemma StepKeepsOwn(st: A.State, subnets: Subnets, e: A.Event)
    requires AllOwn(st) && OwnRequest(e)
    ensures AllOwn(A.Next(st, subnets, e))
  {
    var st' := A.Next(st, subnets, e);
    forall w, x | 0 <= w < |st'.workers| && x in st'.workers[w].Items() ensures OwnKeys(x.row) {
      if w < |st.workers| { assert x in st.workers[w].Items(); }
    }
  }

  /** Only a call the table has outrun can take an acknowledged key. */
  lemma CurrentCallsTakeNothing(f: Fleet, subnets: Subnets, w: nat, i: nat)
    requires Sane(f) && AllOwn(f.st) && Indexed(f.st.rows, subnets)
    requires w < |f.st.workers| && i < |f.st.rows| && Current(f.st, f.st.workers[w])
    ensures !Takes(f, f.st.workers[w], i)
  {
    var call, row := f.st.workers[w], f.st.rows[i];
    if Acked(f.st, i) {
      match call
      case Push(x, _) =>
        assert x in call.Items() && A.Genuine(x, f.st.rows) && OwnKeys(x.row);
        assert A.WishOf(x.row) == A.WishOf(f.st.rows[x.id]);
        if x.id != i && x.row.server == row.server { assert x.row.device != row.device; }
      case Resync(s, peers, _) =>
        if s == row.server {
          var k :| 0 <= k < |peers| && ReadAsIs(f.st, i, peers[k]);
          assert peers[k] in call.Items() && A.Genuine(peers[k], f.st.rows);
          assert A.WishOf(peers[k].row) == A.WishOf(row);
        }
    }
  }

  /** Every answer in the run is to a call that is current when it is answered. */
  ghost predicate AnsweredInTime(f: Fleet, subnets: Subnets, es: seq<A.Event>)
    decreases |es|
  {
    es != [] ==>
      && OwnRequest(es[0])
      && (es[0].EdgeAnswers? && es[0].w < |f.st.workers| ==> Current(f.st, f.st.workers[es[0].w]))
      && AnsweredInTime(Next(f, subnets, es[0]), subnets, es[1..])
  }

  lemma {:induction false} InTimeFrom(f: Fleet, subnets: Subnets, es: seq<A.Event>)
    requires Sane(f) && AllOwn(f.st) && Indexed(f.st.rows, subnets) && AnsweredInTime(f, subnets, es)
    ensures NothingHarms(f, subnets, es)
    decreases |es|
  {
    if es != [] {
      if es[0].EdgeAnswers? && es[0].w < |f.st.workers| {
        forall i | 0 <= i < |f.st.rows| ensures !Takes(f, f.st.workers[es[0].w], i) {
          CurrentCallsTakeNothing(f, subnets, es[0].w, i);
        }
      }
      StepKeepsSane(f, subnets, es[0]);
      StepKeepsOwn(f.st, subnets, es[0]);
      A.StepKeepsIndexes(f.st, subnets, es[0]);
      InTimeFrom(Next(f, subnets, es[0]), subnets, es[1..]);
    }
  }

  lemma {:induction false} InstalledAtTheEnd(f: Fleet, subnets: Subnets, es: seq<A.Event>)
    requires Sane(f) && InstalledThroughout(f, subnets, es)
    ensures Sane(Run(f, subnets, es)) && Installed(Run(f, subnets, es))
    decreases |es|
  {
    if es != [] {
      StepKeepsSane(f, subnets, es[0]);
      InstalledAtTheEnd(Next(f, subnets, es[0]), subnets, es[1..]);
    }
  }

  /** So if every call is answered before the table outruns it, no acknowledged row
      ever misses its key, and no active one does. */
  lemma TimelyAnswersKeepEveryKey(subnets: Subnets, es: seq<A.Event>)
    requires AnsweredInTime(INITIAL, subnets, es)
    ensures InstalledThroughout(INITIAL, subnets, es)
    ensures var f := Run(INITIAL, subnets, es);
            forall i | 0 <= i < |f.st.rows| && f.st.rows[i].state == Active ::
              f.st.rows[i].key in f.On(f.st.rows[i].server)
  {
    InTimeFrom(INITIAL, subnets, es);
    AcknowledgedKeysStayExactlyWhen(subnets, es);
    InstalledAtTheEnd(INITIAL, subnets, es);
    var f := Run(INITIAL, subnets, es);
    forall i | 0 <= i < |f.st.rows| && f.st.rows[i].state == Active
      ensures f.st.rows[i].key in f.On(f.st.rows[i].server)
    {
      ActiveRowsAreAcked(f, i);
      assert InstalledAt(f, i);
    }
  }

  // --------------------------------------------------- revoked rows' keys

  /** The edge has acknowledged the removal that row i asks for now; a revoked row is
      such a row. */
  predicate AckedGone(st: A.State, i: nat)
    requires i < |st.rows|
  {
    !st.rows[i].Live() && A.Ack(i, st.rows[i].revision, A.Remove(st.rows[i].key)) in st.acks
  }

  ghost predicate GoneAt(f: Fleet, i: nat)
    requires i < |f.st.rows|
  {
    AckedGone(f.st, i) ==> f.st.rows[i].key !in f.On(f.st.rows[i].server)
  }

  ghost predicate Gone(f: Fleet) {
    forall i | 0 <= i < |f.st.rows| :: GoneAt(f, i)
  }

  /** Worker w's call, answered now, puts the key of a removed row back on its box: it
      installs it, or syncs the box to a list with it. */
  predicate PutsBack(f: Fleet, w: A.Worker, i: nat)
    requires i < |f.st.rows|
  {
    var row := f.st.rows[i];
    && AckedGone(f.st, i)
    && match w
       case Push(x, _) => x.row.Live() && x.row.server == row.server && x.row.key == row.key
       case Resync(s, peers, _) => s == row.server && exists k | 0 <= k < |peers| :: peers[k].row.key == row.key
  }

  ghost predicate Revives(f: Fleet, e: A.Event) {
    e.EdgeAnswers? && e.w < |f.st.workers| && exists i | 0 <= i < |f.st.rows| :: PutsBack(f, f.st.workers[e.w], i)
  }

  lemma GoneRowsStand(st: A.State, subnets: Subnets, e: A.Event, i: nat)
    requires AcksBounded(st) && !e.EdgeAnswers? && i < |A.Next(st, subnets, e).rows|
    requires AckedGone(A.Next(st, subnets, e), i)
    ensures i < |st.rows| && AckedGone(st, i)
    ensures var (row, row') := (st.rows[i], A.Next(st, subnets, e).rows[i]);
            row'.key == row.key && row'.server == row.server
  {
    A.StepAdvances(st, subnets, e);
    var st' := A.Next(st, subnets, e);
    assert st'.acks == st.acks;
    assert A.Later(st.rows[i], st'.rows[i]);
    assert A.WishOf(st.rows[i]) == A.WishOf(st'.rows[i]);
  }

  /** What an answer newly acknowledges as removed, it has removed. */
  lemma AnswersRemove(f: Fleet, w: nat, x: A.Snapshot)
    requires A.Inv(f.st) && ListsOwn(f.st) && w < |f.st.workers| && x in f.st.workers[w].Items()
    requires x.id < |f.st.rows| && !x.row.Live() && x.row.revision == f.st.rows[x.id].revision
    ensures var row := f.st.rows[x.id];
            row.key !in Fleet(f.st, Effect(f, f.st.workers[w])).On(row.server)
  {
    assert A.Genuine(x, f.st.rows);
    assert A.WishOf(x.row) == A.WishOf(f.st.rows[x.id]);
  }

  lemma RemovalIsExact(f: Fleet, subnets: Subnets, w: nat, i: nat)
    requires Sane(f) && w < |f.st.workers| && i < |f.st.rows| && GoneAt(f, i)
    ensures GoneAt(Next(f, subnets, A.EdgeAnswers(w)), i) <==> !PutsBack(f, f.st.workers[w], i)
  {
    var f' := Next(f, subnets, A.EdgeAnswers(w));
    var call := f.st.workers[w];
    if AckedGone(f'.st, i) && !AckedGone(f.st, i) {
      var x :| x in call.Items() && A.AckOf(x) == A.Ack(i, f.st.rows[i].revision, A.Remove(f.st.rows[i].key));
      AnswersRemove(f, w, x);
    }
  }

  lemma GoneStepIsExact(f: Fleet, subnets: Subnets, e: A.Event)
    requires Sane(f) && Gone(f)
    ensures Gone(Next(f, subnets, e)) <==> !Revives(f, e)
  {
    var f' := Next(f, subnets, e);
    if e.EdgeAnswers? && e.w < |f.st.workers| {
      forall i | 0 <= i < |f.st.rows| ensures GoneAt(f', i) <==> !PutsBack(f, f.st.workers[e.w], i) {
        RemovalIsExact(f, subnets, e.w, i);
      }
    } else if !e.EdgeAnswers? {
      forall i | 0 <= i < |f'.st.rows| ensures GoneAt(f', i) {
        if AckedGone(f'.st, i) {
          GoneRowsStand(f.st, subnets, e, i);
          assert GoneAt(f, i);
        }
      }
    } else {
      assert f' == f;
    }
  }

  ghost predicate GoneThroughout(f: Fleet, subnets: Subnets, es: seq<A.Event>)
    decreases |es|
  {
    Gone(f) && (es != [] ==> GoneThroughout(Next(f, subnets, es[0]), subnets, es[1..]))
  }

  ghost predicate NothingRevives(f: Fleet, subnets: Subnets, es: seq<A.Event>)
    decreases |es|
  {
    es != [] ==> !Revives(f, es[0]) && NothingRevives(Next(f, subnets, es[0]), subnets, es[1..])
  }

  lemma {:induction false} GoneFrom(f: Fleet, subnets: Subnets, es: seq<A.Event>)
    requires Sane(f) && Gone(f)
    ensures GoneThroughout(f, subnets, es) <==> NothingRevives(f, subnets, es)
    decreases |es|
  {
    if es != [] {
      var f' := Next(f, subnets, es[0]);
      GoneStepIsExact(f, subnets, es[0]);
      StepKeepsSane(f, subnets, es[0]);
      if Revives(f, es[0]) {
        assert !GoneThroughout(f', subnets, es[1..]);
      } else {
        GoneFrom(f', subnets, es[1..]);
      }
    }
  }

  lemma {:induction false} GoneAtTheEnd(f: Fleet, subnets: Subnets, es: seq<A.Event>)
    requires Sane(f) && GoneThroughout(f, subnets, es)
    ensures Sane(Run(f, subnets, es)) && Gone(Run(f, subnets, es))
    decreases |es|
  {
    if es != [] {
      StepKeepsSane(f, subnets, es[0]);
      GoneAtTheEnd(Next(f, subnets, es[0]), subnets, es[1..]);
    }
  }

  /** Over every run: each row whose removal the edge has acknowledged has its key off
      its box at every point if and only if no call is ever answered that installs such
      a key; and while none is, no revoked row's key is on its box. */
  lemma RevokedKeysStayOffExactlyWhen(subnets: Subnets, es: seq<A.Event>)
    ensures GoneThroughout(INITIAL, subnets, es) <==> NothingRevives(INITIAL, subnets, es)
    ensures NothingRevives(INITIAL, subnets, es) ==> RevokedKeysAreOff(Run(INITIAL, subnets, es))
  {
    GoneFrom(INITIAL, subnets, es);
    if NothingRevives(INITIAL, subnets, es) {
      GoneAtTheEnd(INITIAL, subnets, es);
      var f := Run(INITIAL, subnets, es);
      forall i | 0 <= i < |f.st.rows| && f.st.rows[i].state == Revoked
        ensures f.st.rows[i].key !in f.On(f.st.rows[i].server)
      {
        RevokedRowsAreAckedGone(f, i);
        assert GoneAt(f, i);
      }
    }
  }

  predicate RevokedKeysAreOff(f: Fleet) {
    forall i | 0 <= i < |f.st.rows| && f.st.rows[i].state == Revoked ::
      f.st.rows[i].key !in f.On(f.st.rows[i].server)
  }

  lemma RevokedRowsAreAckedGone(f: Fleet, i: nat)
    requires A.Inv(f.st) && i < |f.st.rows| && f.st.rows[i].state == Revoked
    ensures AckedGone(f.st, i)
  {
    assert A.Confirmed(i, f.st.rows[i], f.st.acks);
  }

  /** A list that says of the server's rows what the table says, and nothing else. */
  predicate SaysNothingElse(st: A.State, w: A.Worker) {
    w.Resync? ==> forall k | 0 <= k < |w.peers| :: !Superseded(st, w.peers[k])
  }

  /** A call the table bears out puts such a key back only for a live row of the same
      server that carries it: the device is wanted there again. */
  lemma CurrentCallsPutBackTheWanted(f: Fleet, w: nat, i: nat)
    requires Sane(f) && w < |f.st.workers| && i < |f.st.rows|
    requires Current(f.st, f.st.workers[w]) && SaysNothingElse(f.st, f.st.workers[w])
    requires PutsBack(f, f.st.workers[w], i)
    ensures exists j | 0 <= j < |f.st.rows| ::
              f.st.rows[j].Live() && f.st.rows[j].server == f.st.rows[i].server && f.st.rows[j].key == f.st.rows[i].key
  {
    var call := f.st.workers[w];
    var x: A.Snapshot;
    match call {
      case Push(y, _) => x := y;
      case Resync(s, peers, _) =>
        var k :| 0 <= k < |peers| && peers[k].row.key == f.st.rows[i].key;
        x := peers[k];
    }
    assert x in call.Items() && A.Genuine(x, f.st.rows);
    assert A.WishOf(x.row) == A.WishOf(f.st.rows[x.id]);
    assert f.st.rows[x.id].Live();
  }

  // ------------------------------------------------------- the losing run

  lemma {:induction false} RunSnoc(f: Fleet, subnets: Subnets, es: seq<A.Event>, e: A.Event)
    ensures Run(f, subnets, es + [e]) == Next(Run(f, subnets, es), subnets, e)
    decreases |es|
  {
    if es == [] {
      assert [e][1..] == [];
    } else {
      assert (es + [e])[1..] == es[1..] + [e];
      RunSnoc(Next(f, subnets, es[0]), subnets, es[1..], e);
    }
  }

  lemma Extend(subnets: Subnets, es: seq<A.Event>, e: A.Event) returns (es': seq<A.Event>)
    ensures es' == es + [e]
    ensures Run(INITIAL, subnets, es') == Next(Run(INITIAL, subnets, es), subnets, e)
  {
    es' := es + [e];
    RunSnoc(INITIAL, subnets, es, e);
  }

  /** A device is installed, then revoked; a worker picks the removal up. */
  lemma ARemovalUnderWay(subnets: Subnets) returns (es: seq<A.Event>)
    requires subnets == map[0 := 2]
    ensures var f := Run(INITIAL, subnets, es);
            && |f.st.rows| == 1 && |f.st.workers| == 2 && f.st.rows[0].state == Revoking
            && f.st.rows[0].(nextAttempt := 0) ==
               FreshRow(0, 0, Key(0, 0), 2, 0).(state := Revoking, revision := 2, applied := 1, activatedAt := Some(0))
            && f.st.workers[1] == A.Push(A.Snapshot(0, f.st.rows[0]), false)
  {
    var empty: Rows := [];
    assert Pow2(2) == 2 * Pow2(1) == 4;
    assert !Taken(empty, 0, 2);
    es := [];
    es := Extend(subnets, es, A.Request(0, 0, Key(0, 0), 0));
    assert Run(INITIAL, subnets, es).st.rows == [FreshRow(0, 0, Key(0, 0), 2, 0)];
    es := Extend(subnets, es, A.EdgeAnswers(0));
    es := Extend(subnets, es, A.RecordItem(0, 0, 0));
    es := Extend(subnets, es, A.StartRevoke(OfDevices({0}), 0));
    es := Extend(subnets, es, A.Claim(0));
  }

  /** The user comes back before that removal is answered: the row is revived, pushed
      and recorded active; then the old removal lands, and the active row's key is gone. */
  lemma ALateRemovalTakesAnActiveKey(subnets: Subnets) returns (es: seq<A.Event>)
    requires subnets == map[0 := 2]
    ensures var f := Run(INITIAL, subnets, es);
            && |f.st.rows| == 1 && f.st.rows[0].Applied()
            && f.st.rows[0].key !in f.On(f.st.rows[0].server)
  {
    es := ARemovalUnderWay(subnets);
    assert FindHeld(Run(INITIAL, subnets, es).st.rows, 0, 0) == Some(0);
    es := Extend(subnets, es, A.Request(0, 0, Key(0, 0), 0));
    es := Extend(subnets, es, A.EdgeAnswers(2));
    es := Extend(subnets, es, A.RecordItem(2, 0, 0));
    es := Extend(subnets, es, A.EdgeAnswers(1));
  }

  /** A device is asked for and revoked before the push is answered, and its removal
      is answered first. */
  lemma ARemovalOvertakes(subnets: Subnets) returns (es: seq<A.Event>)
    requires subnets == map[0 := 2]
    ensures var f := Run(INITIAL, subnets, es);
            && f.st.rows == [FreshRow(0, 0, Key(0, 0), 2, 0).(state := Revoking, revision := 2)]
            && |f.st.workers| == 2 && f.st.workers[0] == A.Push(A.Snapshot(0, FreshRow(0, 0, Key(0, 0), 2, 0)), false)
            && f.st.workers[1] == A.Push(A.Snapshot(0, f.st.rows[0]), true)
  {
    var empty: Rows := [];
    assert Pow2(2) == 2 * Pow2(1) == 4;
    assert !Taken(empty, 0, 2);
    es := [];
    es := Extend(subnets, es, A.Request(0, 0, Key(0, 0), 0));
    assert Run(INITIAL, subnets, es).st.rows == [FreshRow(0, 0, Key(0, 0), 2, 0)];
    es := Extend(subnets, es, A.StartRevoke(OfDevices({0}), 0));
    es := Extend(subnets, es, A.Claim(0));
    es := Extend(subnets, es, A.EdgeAnswers(1));
  }

  /** The dual: the removal is recorded, then the old push lands, and the revoked row's
      key is on the box with no row of the server asking for it. */
  lemma ALateInstallReturnsARevokedKey(subnets: Subnets) returns (es: seq<A.Event>)
    requires subnets == map[0 := 2]
    ensures var f := Run(INITIAL, subnets, es);
            && |f.st.rows| == 1 && f.st.rows[0].state == Revoked
            && f.st.rows[0].key in f.On(f.st.rows[0].server)
  {
    es := ARemovalOvertakes(subnets);
    es := Extend(subnets, es, A.RecordItem(1, 0, 0));
    es := Extend(subnets, es, A.EdgeAnswers(0));
  }
}

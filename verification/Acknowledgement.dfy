/**
 The table under concurrency: requests, reconciler workers and resyncs that act
 on row snapshots of any age, with acknowledgements and store writes arriving in
 any order, any number of times, or never.
 */
module Acknowledgement {
  import opened Prelude
  import opened PeerRows

  datatype Snapshot = Snapshot(id: RowId, row: Row)

  /** An edge call in flight, holding what it read when it started. */
  datatype Worker =
    | Push(work: Snapshot, acked: bool)            // provisionOn, applyOne
    | Resync(server: ServerId, peers: seq<Snapshot>, acked: bool)    // Resync
  {
    function Items(): seq<Snapshot> {
      match this
      case Push(w, _) => [w]
      case Resync(_, ps, _) => ps
    }
  }

  datatype Wish = Install(key: Key, ip: int) | Remove(key: Key)

  /** What the edge is asked for by a row as read. */
  function WishOf(row: Row): Wish {
    if row.Live() then Install(row.key, row.ip) else Remove(row.key)
  }

  /** The edge answered success to exactly this wish, at this revision of this row. */
  datatype Ack = Ack(id: RowId, revision: nat, wish: Wish)

  function AckOf(s: Snapshot): Ack { Ack(s.id, s.row.revision, WishOf(s.row)) }

  datatype State = State(rows: Rows, workers: seq<Worker>, acks: set<Ack>)

  datatype Event =
    | Request(d: DeviceId, s: ServerId, key: Key, at: int)
    | Claim(id: RowId)
    | StartResync(s: ServerId)
    | EdgeAnswers(w: nat)
    | RecordItem(w: nat, item: nat, at: int)
    | RecordFailure(w: nat, cause: string, retryAt: int)
    | StartRevoke(scope: Scope, at: int)
    | MarkStale(s: ServerId, at: int)

  const INITIAL := State([], [], {})

  /** The live rows of a server, as LivePeersForServer reads them (order immaterial here). */
  function LiveSnapshots(rows: Rows, s: ServerId, from: nat := 0): (r: seq<Snapshot>)
    requires from <= |rows|
    ensures forall x | x in r :: from <= x.id < |rows| && x.row == rows[x.id] && x.row.server == s && x.row.Live()
    ensures forall i | from <= i < |rows| && rows[i].server == s && rows[i].Live() :: Snapshot(i, rows[i]) in r
    decreases |rows| - from
  {
    if from == |rows| then []
    else (if rows[from].server == s && rows[from].Live() then [Snapshot(from, rows[from])] else [])
         + LiveSnapshots(rows, s, from + 1)
  }

  /** The store write that follows an acknowledged item. A resync writes only
      for rows it read as pending. */
  function Recorded(rows: Rows, item: Snapshot, at: int): Rows {
    if item.row.state == Revoking then MarkRevoked(rows, item.id, item.row.revision, at)
    else MarkApplied(rows, item.id, item.row.revision, at)
  }

  /** One step. An event that is not enabled changes nothing. */
  function Next(st: State, subnets: Subnets, e: Event): State {
    match e
    case Request(d, s, key, at) =>
      var (rows, r) := Ensure(st.rows, subnets, d, s, key, at);
      if r.Success? && !rows[r.value].Applied() then
        st.(rows := rows, workers := st.workers + [Push(Snapshot(r.value, rows[r.value]), false)])
      else st.(rows := rows)
    case Claim(id) =>
      if id < |st.rows| && (st.rows[id].state == Pending || st.rows[id].state == Revoking) then
        st.(workers := st.workers + [Push(Snapshot(id, st.rows[id]), false)])
      else st
    case StartResync(s) =>
      st.(workers := st.workers + [Resync(s, LiveSnapshots(st.rows, s), false)])
    case EdgeAnswers(w) =>
      if w < |st.workers| then
        st.(workers := st.workers[w := st.workers[w].(acked := true)],
            acks := st.acks + set x | x in st.workers[w].Items() :: AckOf(x))
      else st
    case RecordItem(w, i, at) =>
      if w < |st.workers| && st.workers[w].acked && i < |st.workers[w].Items()|
         && (st.workers[w].Resync? ==> st.workers[w].peers[i].row.state == Pending) then
        st.(rows := Recorded(st.rows, st.workers[w].Items()[i], at))
      else st
    case RecordFailure(w, cause, retryAt) =>
      if w < |st.workers| && st.workers[w].Push? then
        st.(rows := MarkAttemptFailed(st.rows, st.workers[w].work.id, cause, retryAt))
      else st
    case StartRevoke(scope, at) => st.(rows := BeginRevoke(st.rows, scope, at))
    case MarkStale(s, at) => st.(rows := MarkServerPeersStale(st.rows, s, at))
  }

  function Run(st: State, subnets: Subnets, es: seq<Event>): State
    decreases |es|
  {
    if es == [] then st else Run(Next(st, subnets, es[0]), subnets, es[1..])
  }

  // ------------------------------------------------ rows only move forward

  /** What one reading of a row and a later one have to do with each other: the
      identity and address are fixed, revision and applied revision never fall,
      and the revision determines key and direction. */
  ghost predicate Later(a: Row, b: Row) {
    && b.device == a.device && b.server == a.server && b.ip == a.ip
    && a.revision <= b.revision && a.applied <= b.applied
    && (a.revision == b.revision ==> WishOf(a) == WishOf(b))
    && (!a.Held() ==> b == a.(attempts := b.attempts, lastError := b.lastError, nextAttempt := b.nextAttempt))
  }

  ghost predicate Advances(rows: Rows, rows': Rows) {
    && |rows| <= |rows'|
    && forall i | 0 <= i < |rows| :: Later(rows[i], rows'[i])
  }

  lemma StepAdvances(st: State, subnets: Subnets, e: Event)
    ensures Advances(st.rows, Next(st, subnets, e).rows)
  {
  }

  /** Over any run: no revision or applied revision falls, no address, device or
      server changes, and a revoked row keeps key, state and revision for good. */
  lemma {:induction false} RunAdvances(st: State, subnets: Subnets, es: seq<Event>)
    ensures Advances(st.rows, Run(st, subnets, es).rows)
    decreases |es|
  {
    if es != [] {
      StepAdvances(st, subnets, es[0]);
      RunAdvances(Next(st, subnets, es[0]), subnets, es[1..]);
    }
  }

  // --------------------------------------------------- soundness of acks

  /** A row state that claims the edge's confirmation has it, for exactly the
      row's present key, address and revision. */
  ghost predicate Confirmed(i: RowId, row: Row, acks: set<Ack>) {
    && row.applied <= row.revision
    && (row.state == Active ==> row.applied == row.revision
                                && Ack(i, row.revision, Install(row.key, row.ip)) in acks)
    && (row.state == Revoked ==> row.applied == row.revision
                                 && Ack(i, row.revision, Remove(row.key)) in acks)
  }

  ghost predicate Genuine(x: Snapshot, rows: Rows) {
    x.id < |rows| && Later(x.row, rows[x.id])
  }

  ghost predicate Inv(st: State) {
    && (forall i | 0 <= i < |st.rows| :: Confirmed(i, st.rows[i], st.acks))
    && (forall w | 0 <= w < |st.workers| :: forall x | x in st.workers[w].Items() ::
          Genuine(x, st.rows) && (st.workers[w].acked ==> AckOf(x) in st.acks))
  }

  lemma RecordingConfirms(rows: Rows, x: Snapshot, at: int, acks: set<Ack>)
    requires Genuine(x, rows) && AckOf(x) in acks
    requires forall i | 0 <= i < |rows| :: Confirmed(i, rows[i], acks)
    ensures var rows' := Recorded(rows, x, at);
            forall i | 0 <= i < |rows'| :: Confirmed(i, rows'[i], acks)
  {
  }

  lemma StepConfirms(st: State, subnets: Subnets, e: Event)
    requires Inv(st)
    ensures var st' := Next(st, subnets, e);
            forall i | 0 <= i < |st'.rows| :: Confirmed(i, st'.rows[i], st'.acks)
  {
    var st' := Next(st, subnets, e);
    if e.RecordItem? {
      if st' != st { RecordingConfirms(st.rows, st.workers[e.w].Items()[e.item], e.at, st.acks); }
    } else {
      forall i | 0 <= i < |st'.rows| ensures Confirmed(i, st'.rows[i], st'.acks) {
        if i < |st.rows| { assert Confirmed(i, st.rows[i], st.acks); }
      }
    }
  }

  lemma WorkersKeepTheirItems(st: State, subnets: Subnets, e: Event, w: nat)
    requires w < |st.workers|
    ensures var st' := Next(st, subnets, e);
            && w < |st'.workers| && st'.workers[w].Items() == st.workers[w].Items()
            && (st'.workers[w].acked && !st.workers[w].acked ==>
                  forall x | x in st.workers[w].Items() :: AckOf(x) in st'.acks)
            && st.acks <= st'.acks
  {
  }

  lemma NewWorkersAreGenuine(st: State, subnets: Subnets, e: Event, w: nat)
    requires |st.workers| <= w < |Next(st, subnets, e).workers|
    ensures var st' := Next(st, subnets, e);
            !st'.workers[w].acked && forall x | x in st'.workers[w].Items() :: Genuine(x, st'.rows)
  {
  }

  lemma WorkersStayGenuine(st: State, subnets: Subnets, e: Event)
    requires Inv(st)
    ensures var st' := Next(st, subnets, e);
            forall w, x | 0 <= w < |st'.workers| && x in st'.workers[w].Items() ::
              Genuine(x, st'.rows) && (st'.workers[w].acked ==> AckOf(x) in st'.acks)
  {
    StepAdvances(st, subnets, e);
    var st' := Next(st, subnets, e);
    forall w, x | 0 <= w < |st'.workers| && x in st'.workers[w].Items()
      ensures Genuine(x, st'.rows) && (st'.workers[w].acked ==> AckOf(x) in st'.acks)
    {
      if w < |st.workers| {
        WorkersKeepTheirItems(st, subnets, e, w);
        assert Genuine(x, st.rows);
        assert Later(st.rows[x.id], st'.rows[x.id]);
      } else {
        NewWorkersAreGenuine(st, subnets, e, w);
      }
    }
  }

  lemma StepKeepsInv(st: State, subnets: Subnets, e: Event)
    requires Inv(st)
    ensures Inv(Next(st, subnets, e))
  {
    StepConfirms(st, subnets, e);
    WorkersStayGenuine(st, subnets, e);
  }

  /** In every reachable state a row is active only if the edge acknowledged
      exactly its present key and address at its present revision, and revoked
      only if the edge acknowledged the removal of its present key likewise. */
  lemma {:induction false} AcknowledgementSound(st: State, subnets: Subnets, es: seq<Event>)
    requires Inv(st)
    ensures Inv(Run(st, subnets, es))
    decreases |es|
  {
    if es != [] {
      StepKeepsInv(st, subnets, es[0]);
      AcknowledgementSound(Next(st, subnets, es[0]), subnets, es[1..]);
    }
  }

  lemma EveryActiveRowWasAcknowledged(subnets: Subnets, es: seq<Event>, i: RowId)
    ensures var st := Run(INITIAL, subnets, es);
            i < |st.rows| && st.rows[i].state == Active ==>
              st.rows[i].Applied()
              && Ack(i, st.rows[i].revision, Install(st.rows[i].key, st.rows[i].ip)) in st.acks
  {
    AcknowledgementSound(INITIAL, subnets, es);
    var st := Run(INITIAL, subnets, es);
    if i < |st.rows| {
      assert Confirmed(i, st.rows[i], st.acks);
    }
  }

  /** An acknowledgement of an older revision changes no row when it is recorded,
      however late it arrives. */
  lemma LateAcknowledgementIsIgnored(st: State, subnets: Subnets, w: nat, item: nat, at: int)
    requires w < |st.workers| && item < |st.workers[w].Items()|
    requires var x := st.workers[w].Items()[item];
             x.id < |st.rows| && x.row.revision < st.rows[x.id].revision
    ensures Next(st, subnets, RecordItem(w, item, at)) == st
  {
  }

  /** An answer that is recorded settles its row if and only if the row still waits for
      what the answer is about; otherwise the table stays as it is. */
  lemma AnAnswerSettlesItsRowExactlyWhen(st: State, subnets: Subnets, w: nat, item: nat, at: int)
    requires Inv(st) && w < |st.workers| && st.workers[w].acked && item < |st.workers[w].Items()|
    requires st.workers[w].Items()[item].row.state == Pending
             || (st.workers[w].Push? && st.workers[w].Items()[item].row.state == Revoking)
    ensures var x := st.workers[w].Items()[item];
            var st' := Next(st, subnets, RecordItem(w, item, at));
            x.id < |st.rows| &&
            if x.row.state == st.rows[x.id].state && x.row.revision == st.rows[x.id].revision then
              && st'.rows[x.id].state == (if x.row.state == Pending then Active else Revoked)
              && st'.rows[x.id].applied == st'.rows[x.id].revision == x.row.revision
              && st'.rows[x.id].key == x.row.key && st'.rows[x.id].attempts == 0
              && (x.row.state == Pending ==> st'.rows[x.id].prev == None)
              && forall i | 0 <= i < |st.rows| && i != x.id :: st'.rows[i] == st.rows[i]
            else st' == st
  {
    var x := st.workers[w].Items()[item];
    assert x in st.workers[w].Items();
    assert Genuine(x, st.rows) && Confirmed(x.id, st.rows[x.id], st.acks);
  }

  lemma StepKeepsIndexes(st: State, subnets: Subnets, e: Event)
    requires Indexed(st.rows, subnets)
    ensures Indexed(Next(st, subnets, e).rows, subnets)
  {
    match e {
      case Request(d, s, key, at) => EnsureKeepsIndexes(st.rows, subnets, d, s, key, at);
      case _ => SettlingKeepsIndexes(st.rows, Next(st, subnets, e).rows, subnets);
    }
  }

  /** The indexes hold in every reachable state, so allocation is exact there. */
  lemma {:induction false} ReachableTablesAreIndexed(st: State, subnets: Subnets, es: seq<Event>)
    requires Indexed(st.rows, subnets)
    ensures Indexed(Run(st, subnets, es).rows, subnets)
    decreases |es|
  {
    if es != [] {
      StepKeepsIndexes(st, subnets, es[0]);
      ReachableTablesAreIndexed(Next(st, subnets, es[0]), subnets, es[1..]);
    }
  }
}

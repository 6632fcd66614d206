/**
 Provision itself (server/internal/provision/provision.go), undisturbed: the loop over
 candidates is a run of the machine in LocationSwitch.
 */
module Provision {
  import opened Prelude
  import opened PeerRows
  import opened LocationSwitch
  import CP = ControlPlane
  import B = Backoff

  predicate OwnWork(es: seq<Event>) {
    forall e | e in es :: e.Begin? || e.Attempt? || e.EdgeReplies? || e.RevokeOthers?
  }

  lemma {:induction false} OwnWorkTakesNothing(st: State, subnets: Subnets, d: DeviceId, es: seq<Event>)
    requires OwnWork(es)
    ensures NothingTakes(st, subnets, d, es) && forall e | e in es :: Permitted(e, d)
    decreases |es|
  {
    if es != [] {
      assert es[0] in es && forall e | e in es[1..] :: e in es;
      OwnWorkTakesNothing(Next(st, subnets, d, es[0]), subnets, d, es[1..]);
    }
  }

  lemma {:induction false} RunAppend(st: State, subnets: Subnets, d: DeviceId, es: seq<Event>, later: seq<Event>)
    ensures Run(st, subnets, d, es + later) == Run(Run(st, subnets, d, es), subnets, d, later)
    decreases |es|
  {
    if es == [] {
      assert es + later == later;
    } else {
      assert (es + later)[1..] == es[1..] + later;
      RunAppend(Next(st, subnets, d, es[0]), subnets, d, es[1..], later);
    }
  }

  // ---------------------------------------------------------- one server

  /** The server takes the peer, or has it already. */
  predicate TakesPeer(cp: CP.State, subnets: Subnets, d: DeviceId, s: ServerId, reply: Reply, at: int) {
    var (rows, r) := Ensure(cp.rows, subnets, d, s, cp.KeyOf(d), at);
    r.Success? && (rows[r.value].Applied() || reply.Ok?)
  }

  /** The server has no address for the device or does not answer: the next may be tried. */
  predicate PassesOver(cp: CP.State, subnets: Subnets, d: DeviceId, s: ServerId, reply: Reply, at: int) {
    var (rows, r) := Ensure(cp.rows, subnets, d, s, cp.KeyOf(d), at);
    r.Failure? || (!rows[r.value].Applied() && reply.Unreachable?)
  }

  /** The next try at the row, if it comes to that, is two seconds off, doubled for each
      attempt behind it, up to five minutes, give or take a fifth. */
  predicate WellTimed(cp: CP.State, subnets: Subnets, d: DeviceId, s: ServerId, at: int, retryAt: int) {
    var (rows, r) := Ensure(cp.rows, subnets, d, s, cp.KeyOf(d), at);
    r.Success? ==>
      var wait := Min(2_000_000_000 * Pow2(rows[r.value].attempts), 300_000_000_000);
      4 * wait <= 5 * (retryAt - at) <= 6 * wait
  }

  lemma PuttingOffIsWellTimed(cp: CP.State, subnets: Subnets, d: DeviceId, s: ServerId, at: int, draw: real)
    requires 0.0 <= draw < 1.0
    ensures var asked := CP.Next(cp, subnets, CP.Want(d, s, at));
            match Ensure(cp.rows, subnets, d, s, cp.KeyOf(d), at).1
            case Failure(_) => asked == cp && forall retryAt :: WellTimed(cp, subnets, d, s, at, retryAt)
            case Success(id) => id < |asked.rows| && asked.rows == Ensure(cp.rows, subnets, d, s, cp.KeyOf(d), at).0
                                && WellTimed(cp, subnets, d, s, at, at + B.Jittered(asked.rows[id].attempts + 1, draw))
  {
    var (rows, r) := Ensure(cp.rows, subnets, d, s, cp.KeyOf(d), at);
    if r.Success? { B.TheDelayDoublesUpToTheCap(rows[r.value].attempts + 1, draw); }
  }

  /** Table and boxes after a try. */
  function Tried(cp: CP.State, subnets: Subnets, d: DeviceId, s: ServerId, reply: Reply, at: int, cause: string,
      retryAt: int): CP.State {
    var asked := CP.Next(cp, subnets, CP.Want(d, s, at));
    match Ensure(cp.rows, subnets, d, s, cp.KeyOf(d), at).1
    case Failure(_) => cp
    case Success(id) =>
      var row := asked.rows[id];
      if row.Applied() then asked
      else match reply
        case Ok(true) => OnBox(asked, row, Landed).(rows := MarkApplied(asked.rows, id, row.revision, at))
        case Ok(false) => OnBox(asked, row, Landed)
        case Unreachable(effect) =>
          OnBox(asked, row, effect).(rows := MarkAttemptFailed(asked.rows, id, cause, retryAt))
        case Rejected => asked.(rows := MarkAttemptFailed(asked.rows, id, cause, retryAt))
  }

  /** A try is two steps of the machine: asking for the row, and handling the answer. */
  lemma ATryIsTwoSteps(cp: CP.State, subnets: Subnets, d: DeviceId, candidates: seq<ServerId>, n: nat, reply: Reply,
      at: int, cause: string, retryAt: int)
    requires n < |candidates| && n < MAX_INLINE_ATTEMPTS
    ensures var s := candidates[n];
            var asked := Next(State(cp, Trying(candidates, n), []), subnets, d, Attempt(at));
            var answered := Next(asked, subnets, d, EdgeReplies(reply, at, cause, retryAt));
            answered == State(Tried(cp, subnets, d, s, reply, at, cause, retryAt),
                              RequestAfter(cp, subnets, d, candidates, n, reply, at), [])
  {
    var asked := Next(State(cp, Trying(candidates, n), []), subnets, d, Attempt(at));
    var (rows, r) := Ensure(cp.rows, subnets, d, candidates[n], cp.KeyOf(d), at);
    if r.Success? {
      FoundOnItsServer(cp.rows, subnets, d, candidates[n], cp.KeyOf(d), at);
      assert asked.cp.rows == rows;
      if !rows[r.value].Applied() {
        assert asked == State(asked.cp, Pushing(candidates, n, r.value, rows[r.value]), []);
      }
    }
  }

  lemma FoundOnItsServer(rows: Rows, subnets: Subnets, d: DeviceId, s: ServerId, key: Key, at: int)
    ensures var (rows', r) := Ensure(rows, subnets, d, s, key, at);
            r.Success? ==> rows'[r.value].server == s
  {
  }

  /** The rows of server s are the same in both tables. */
  ghost predicate SameOn(rows: Rows, rows': Rows, s: ServerId) {
    && |rows| <= |rows'|
    && (forall i | 0 <= i < |rows| ::
          rows'[i].server == rows[i].server && (rows[i].server == s ==> rows'[i] == rows[i]))
    && (forall i | |rows| <= i < |rows'| :: rows'[i].server != s)
  }

  lemma AskingElsewhereLeaves(cp: CP.State, subnets: Subnets, d: DeviceId, s: ServerId, other: ServerId, at: int)
    requires other != s
    ensures var asked := CP.Next(cp, subnets, CP.Want(d, s, at));
            && SameOn(cp.rows, asked.rows, other) && asked.KeyOf(d) == cp.KeyOf(d)
            && match Ensure(cp.rows, subnets, d, s, cp.KeyOf(d), at).1
               case Success(id) => id < |asked.rows| && asked.rows[id].server == s
               case Failure(_) => true
  {
  }

  lemma RecordingElsewhereLeaves(rows: Rows, rows': Rows, id: RowId, other: ServerId, revision: nat, at: int,
      cause: string, retryAt: int)
    requires SameOn(rows, rows', other) && id < |rows'| && rows'[id].server != other
    ensures SameOn(rows, MarkApplied(rows', id, revision, at), other)
    ensures SameOn(rows, MarkAttemptFailed(rows', id, cause, retryAt), other)
  {
  }

  lemma TryingElsewhereLeaves(cp: CP.State, subnets: Subnets, d: DeviceId, s: ServerId, other: ServerId, reply: Reply,
      at: int, cause: string, retryAt: int)
    requires other != s
    ensures var cp' := Tried(cp, subnets, d, s, reply, at, cause, retryAt);
            SameOn(cp.rows, cp'.rows, other) && cp'.KeyOf(d) == cp.KeyOf(d)
  {
    AskingElsewhereLeaves(cp, subnets, d, s, other, at);
    match Ensure(cp.rows, subnets, d, s, cp.KeyOf(d), at).1
    case Failure(_) =>
    case Success(id) =>
      var asked := CP.Next(cp, subnets, CP.Want(d, s, at));
      RecordingElsewhereLeaves(cp.rows, asked.rows, id, other, asked.rows[id].revision, at, cause, retryAt);
  }

  lemma {:induction false} SameHeld(rows: Rows, rows': Rows, d: DeviceId, s: ServerId, from: nat)
    requires SameOn(rows, rows', s) && from <= |rows'|
    ensures FindHeld(rows', d, s, from) == if from <= |rows| then FindHeld(rows, d, s, from) else None
    decreases |rows'| - from
  {
    if from < |rows'| { SameHeld(rows, rows', d, s, from + 1); }
  }

  lemma SameTaken(rows: Rows, rows': Rows, s: ServerId, ip: int)
    requires SameOn(rows, rows', s)
    ensures Taken(rows', s, ip) <==> Taken(rows, s, ip)
  {
    if Taken(rows, s, ip) {
      var i :| 0 <= i < |rows| && rows[i].server == s && rows[i].Held() && rows[i].ip == ip;
      assert rows'[i] == rows[i];
    }
  }

  lemma {:induction false} SameFree(rows: Rows, rows': Rows, s: ServerId, lo: int, hi: int)
    requires SameOn(rows, rows', s)
    ensures LowestFree(rows', s, lo, hi) == LowestFree(rows, s, lo, hi)
    decreases hi - lo
  {
    if lo <= hi {
      SameTaken(rows, rows', s, lo);
      SameFree(rows, rows', s, lo + 1, hi);
    }
  }

  /** What a try at one server comes to does not depend on a failed try at another. */
  lemma AnotherServerIsAsGoodAsBefore(cp: CP.State, subnets: Subnets, d: DeviceId, s: ServerId, other: ServerId,
      reply: Reply, next: Reply, at: int, cause: string, retryAt: int)
    requires other != s
    ensures var cp' := Tried(cp, subnets, d, s, reply, at, cause, retryAt);
            && (TakesPeer(cp', subnets, d, other, next, at) <==> TakesPeer(cp, subnets, d, other, next, at))
            && (PassesOver(cp', subnets, d, other, next, at) <==> PassesOver(cp, subnets, d, other, next, at))
  {
    var cp' := Tried(cp, subnets, d, s, reply, at, cause, retryAt);
    TryingElsewhereLeaves(cp, subnets, d, s, other, reply, at, cause, retryAt);
    SameHeld(cp.rows, cp'.rows, d, other, 0);
    if other in subnets { SameFree(cp.rows, cp'.rows, other, 2, MaxOffset(subnets[other])); }
  }

  /** It is safe to ask again: after a push that was taken and recorded, another request,
      whatever the box would answer, makes no call and writes nothing. */
  lemma AskingAgainTouchesNothing(cp: CP.State, subnets: Subnets, d: DeviceId, s: ServerId, at: int, cause: string,
      later: int, reply: Reply, retryAt: int, retryAt': int)
    requires Indexed(cp.rows, subnets) && TakesPeer(cp, subnets, d, s, Ok(true), at)
    requires forall i | 0 <= i < |cp.rows| && cp.rows[i].state == Active :: cp.rows[i].Applied()
    ensures var once := Tried(cp, subnets, d, s, Ok(true), at, cause, retryAt);
            var twice := Tried(once, subnets, d, s, reply, later, cause, retryAt');
            TakesPeer(once, subnets, d, s, reply, later) && twice.rows == once.rows && twice.edge == once.edge
  {
    var key := cp.KeyOf(d);
    var (rows, r) := Ensure(cp.rows, subnets, d, s, key, at);
    EnsureKeepsIndexes(cp.rows, subnets, d, s, key, at);
    var once := Tried(cp, subnets, d, s, Ok(true), at, cause, retryAt);
    AppliedOnceAsked(cp, subnets, d, s, at, cause, retryAt);
    SettlingKeepsIndexes(rows, once.rows, subnets);
    var f := FindHeld(once.rows, d, s);
    assert f == Some(r.value);
  }

  lemma AppliedOnceAsked(cp: CP.State, subnets: Subnets, d: DeviceId, s: ServerId, at: int, cause: string, retryAt: int)
    requires Indexed(cp.rows, subnets) && TakesPeer(cp, subnets, d, s, Ok(true), at)
    requires forall i | 0 <= i < |cp.rows| && cp.rows[i].state == Active :: cp.rows[i].Applied()
    ensures var once := Tried(cp, subnets, d, s, Ok(true), at, cause, retryAt);
            var (rows, r) := Ensure(cp.rows, subnets, d, s, cp.KeyOf(d), at);
            && Settles(rows, once.rows) && once.KeyOf(d) == cp.KeyOf(d)
            && once.rows[r.value].device == d && once.rows[r.value].server == s && once.rows[r.value].Applied()
            && once.rows[r.value].key == cp.KeyOf(d)
  {
    var (rows, r) := Ensure(cp.rows, subnets, d, s, cp.KeyOf(d), at);
    PuttingOffIsWellTimed(cp, subnets, d, s, at, 0.0);
    AskedRow(cp.rows, subnets, d, s, cp.KeyOf(d), at);
    assert rows[r.value].Applied() || Tried(cp, subnets, d, s, Ok(true), at, cause, retryAt).rows
                                      == MarkApplied(rows, r.value, rows[r.value].revision, at);
  }

  lemma AskedRow(rows: Rows, subnets: Subnets, d: DeviceId, s: ServerId, key: Key, at: int)
    requires forall i | 0 <= i < |rows| && rows[i].state == Active :: rows[i].Applied()
    ensures var (rows', r) := Ensure(rows, subnets, d, s, key, at);
            r.Success? ==>
              && rows'[r.value].device == d && rows'[r.value].server == s && rows'[r.value].key == key
              && (rows'[r.value].Applied() || rows'[r.value].state == Pending)
  {
  }

  // ---------------------------------------------------------- the loop

  /** The call, as events of the machine: at most two tries, whatever becomes of them. */
  function Tries(candidates: seq<ServerId>, replies: seq<Reply>, at: int, cause: string, retryAts: seq<int>)
    : (es: seq<Event>)
    requires |replies| == |retryAts| == 2
    ensures |es| == 6
  {
    [Begin(candidates), Attempt(at), EdgeReplies(replies[0], at, cause, retryAts[0]),
     Attempt(at), EdgeReplies(replies[1], at, cause, retryAts[1]), Attempt(at)]
  }

  lemma OneMoreRound(start: State, subnets: Subnets, d: DeviceId, candidates: seq<ServerId>, replies: seq<Reply>,
      at: int, cause: string, retryAts: seq<int>, i: nat)
    requires |replies| == |retryAts| == 2 && i < 2
    ensures var es := Tries(candidates, replies, at, cause, retryAts);
            Run(start, subnets, d, es[..3 + 2 * i])
            == Next(Next(Run(start, subnets, d, es[..1 + 2 * i]), subnets, d, Attempt(at)), subnets, d,
                    EdgeReplies(replies[i], at, cause, retryAts[i]))
  {
    var es := Tries(candidates, replies, at, cause, retryAts);
    assert es[..2 + 2 * i] == es[..1 + 2 * i] + [Attempt(at)];
    assert es[..3 + 2 * i] == es[..2 + 2 * i] + [EdgeReplies(replies[i], at, cause, retryAts[i])];
    RunSnoc(start, subnets, d, es[..1 + 2 * i], Attempt(at));
    RunSnoc(start, subnets, d, es[..2 + 2 * i], EdgeReplies(replies[i], at, cause, retryAts[i]));
  }

  /** With the request settled or given up, what is left of the tries does nothing. */
  lemma {:induction false} NothingFurther(st: State, subnets: Subnets, d: DeviceId, es: seq<Event>)
    requires st.request.Installed? || st.request.Idle?
    requires forall e | e in es :: e.Attempt? || e.EdgeReplies?
    ensures Run(st, subnets, d, es) == st
    decreases |es|
  {
    if es != [] {
      assert es[0] in es && forall e | e in es[1..] :: e in es;
      NothingFurther(st, subnets, d, es[1..]);
    }
  }

  lemma SettledAfter(start: State, subnets: Subnets, d: DeviceId, es: seq<Event>, n: nat)
    requires 1 <= n <= |es| && forall k | 1 <= k < |es| :: es[k].Attempt? || es[k].EdgeReplies?
    requires Run(start, subnets, d, es[..n]).request.Installed? || Run(start, subnets, d, es[..n]).request.Idle?
    ensures Run(start, subnets, d, es) == Run(start, subnets, d, es[..n])
  {
    assert es == es[..n] + es[n..];
    RunAppend(start, subnets, d, es[..n], es[n..]);
    NothingFurther(Run(start, subnets, d, es[..n]), subnets, d, es[n..]);
  }

  /** The last step of a successful request. */
  lemma Concludes(start: State, subnets: Subnets, d: DeviceId, es: seq<Event>, s: ServerId, lands: bool, at: int)
    requires Inv(start, subnets, d, true) && OwnWork(es)
    requires Run(start, subnets, d, es).request == Installed(s)
    ensures var last := Run(start, subnets, d, es + [RevokeOthers(lands, at)]);
            && last == Next(Run(start, subnets, d, es), subnets, d, RevokeOthers(lands, at))
            && Inv(last, subnets, d, true) && (Served(start.cp, d) ==> Served(last.cp, d))
            && (exists i | 0 <= i < |last.cp.rows| :: last.cp.rows[i].server == s && Serves(last.cp, i, d))
            && (lands ==> forall i | 0 <= i < |last.cp.rows| && last.cp.rows[i].device == d && last.cp.rows[i].Live() ::
                  last.cp.rows[i].server == s)
  {
    RunSnoc(start, subnets, d, es, RevokeOthers(lands, at));
    OwnWorkTakesNothing(start, subnets, d, es);
    OwnWorkTakesNothing(start, subnets, d, es + [RevokeOthers(lands, at)]);
    SwitchingNeverLeavesAGap(start, subnets, d, es);
    SwitchingNeverLeavesAGap(start, subnets, d, es + [RevokeOthers(lands, at)]);
    if lands { SuccessLeavesOneServer(start, subnets, d, es, at); }
  }

  /** Table and boxes after the first try. */
  function AfterFirst(cp: CP.State, subnets: Subnets, d: DeviceId, candidates: seq<ServerId>, replies: seq<Reply>,
      at: int, cause: string, retryAts: seq<int>): CP.State
    requires |replies| == |retryAts| == 2
  {
    if candidates == [] then cp else Tried(cp, subnets, d, candidates[0], replies[0], at, cause, retryAts[0])
  }

  /** The server a call settles on: the first candidate if it takes the peer, and the
      second if the first passes over and it takes the peer. No third is asked, and none
      after a rejection. */
  function Settled(cp: CP.State, subnets: Subnets, d: DeviceId, candidates: seq<ServerId>, replies: seq<Reply>,
      at: int, mid: CP.State): Option<ServerId>
    requires |replies| == 2
  {
    if |candidates| >= 1 && TakesPeer(cp, subnets, d, candidates[0], replies[0], at) then Some(candidates[0])
    else if |candidates| >= 2 && PassesOver(cp, subnets, d, candidates[0], replies[0], at)
            && TakesPeer(mid, subnets, d, candidates[1], replies[1], at) then Some(candidates[1])
    else None
  }

  /** Each push that fails is put off as it should be. */
  predicate AllWellTimed(cp: CP.State, subnets: Subnets, d: DeviceId, candidates: seq<ServerId>, replies: seq<Reply>,
      at: int, retryAts: seq<int>, mid: CP.State)
    requires |replies| == |retryAts| == 2
  {
    && (|candidates| >= 1 ==> WellTimed(cp, subnets, d, candidates[0], at, retryAts[0]))
    && (|candidates| >= 2 && PassesOver(cp, subnets, d, candidates[0], replies[0], at) ==>
          WellTimed(mid, subnets, d, candidates[1], at, retryAts[1]))
  }

  /** Given up on after one try: there was no other candidate, or the first rejected the peer. */
  predicate StopsAtFirst(cp: CP.State, subnets: Subnets, d: DeviceId, candidates: seq<ServerId>, replies: seq<Reply>,
      at: int)
    requires |replies| == 2
  {
    && |candidates| >= 1 && !TakesPeer(cp, subnets, d, candidates[0], replies[0], at)
    && (|candidates| == 1 || !PassesOver(cp, subnets, d, candidates[0], replies[0], at))
  }

  /** Table and boxes after all the tries. */
  function AfterTries(cp: CP.State, subnets: Subnets, d: DeviceId, candidates: seq<ServerId>, replies: seq<Reply>,
      at: int, cause: string, retryAts: seq<int>): CP.State
    requires |replies| == |retryAts| == 2
  {
    var mid := AfterFirst(cp, subnets, d, candidates, replies, at, cause, retryAts);
    if |candidates| >= 2 && PassesOver(cp, subnets, d, candidates[0], replies[0], at)
    then Tried(mid, subnets, d, candidates[1], replies[1], at, cause, retryAts[1])
    else mid
  }

  /** Where the request stands after a try at the nth candidate. */
  function RequestAfter(cp: CP.State, subnets: Subnets, d: DeviceId, candidates: seq<ServerId>, n: nat, reply: Reply,
      at: int): Request
    requires n < |candidates|
  {
    if TakesPeer(cp, subnets, d, candidates[n], reply, at) then Installed(candidates[n])
    else if PassesOver(cp, subnets, d, candidates[n], reply, at) then Trying(candidates, n + 1)
    else Idle
  }

  lemma OneTry(cp: CP.State, subnets: Subnets, d: DeviceId, candidates: seq<ServerId>, replies: seq<Reply>, at: int,
      cause: string, retryAts: seq<int>)
    requires |replies| == |retryAts| == 2
    ensures var es := Tries(candidates, replies, at, cause, retryAts);
            && Run(State(cp, Idle, []), subnets, d, es[..1]) == State(cp, Trying(candidates, 0), [])
            && (|candidates| >= 1 ==>
                  Run(State(cp, Idle, []), subnets, d, es[..3])
                  == State(AfterFirst(cp, subnets, d, candidates, replies, at, cause, retryAts),
                           RequestAfter(cp, subnets, d, candidates, 0, replies[0], at), []))
  {
    var start := State(cp, Idle, []);
    RunSnoc(start, subnets, d, [], Begin(candidates));
    assert [] + [Begin(candidates)] == Tries(candidates, replies, at, cause, retryAts)[..1];
    if |candidates| >= 1 {
      OneMoreRound(start, subnets, d, candidates, replies, at, cause, retryAts, 0);
      ATryIsTwoSteps(cp, subnets, d, candidates, 0, replies[0], at, cause, retryAts[0]);
    }
  }

  lemma TwoTries(cp: CP.State, subnets: Subnets, d: DeviceId, candidates: seq<ServerId>, replies: seq<Reply>, at: int,
      cause: string, retryAts: seq<int>)
    requires |replies| == |retryAts| == 2 && |candidates| >= 2
    requires RequestAfter(cp, subnets, d, candidates, 0, replies[0], at) == Trying(candidates, 1)
    ensures var es := Tries(candidates, replies, at, cause, retryAts);
            var mid := AfterFirst(cp, subnets, d, candidates, replies, at, cause, retryAts);
            Run(State(cp, Idle, []), subnets, d, es[..5])
            == State(Tried(mid, subnets, d, candidates[1], replies[1], at, cause, retryAts[1]),
                     RequestAfter(mid, subnets, d, candidates, 1, replies[1], at), [])
  {
    var mid := AfterFirst(cp, subnets, d, candidates, replies, at, cause, retryAts);
    OneTry(cp, subnets, d, candidates, replies, at, cause, retryAts);
    OneMoreRound(State(cp, Idle, []), subnets, d, candidates, replies, at, cause, retryAts, 1);
    ATryIsTwoSteps(mid, subnets, d, candidates, 1, replies[1], at, cause, retryAts[1]);
  }

  /** Once it has run out of candidates or tries, the request ends there. */
  lemma OutOfTries(start: State, subnets: Subnets, d: DeviceId, candidates: seq<ServerId>, es: seq<Event>, n: nat)
    requires |es| == 6 && n <= 2 && es[1 + 2 * n].Attempt?
    requires forall k | 1 <= k < |es| :: es[k].Attempt? || es[k].EdgeReplies?
    requires var last := Run(start, subnets, d, es[..1 + 2 * n]);
             last.request == Trying(candidates, n) && (n == 2 || n == |candidates|)
    ensures Run(start, subnets, d, es) == Run(start, subnets, d, es[..1 + 2 * n]).(request := Idle)
  {
    RunSnoc(start, subnets, d, es[..1 + 2 * n], es[1 + 2 * n]);
    assert es[..2 + 2 * n] == es[..1 + 2 * n] + [es[1 + 2 * n]];
    SettledAfter(start, subnets, d, es, 2 + 2 * n);
  }

  /** The tries, one by one, are a run of the machine. */
  lemma TheTriesAreARun(cp: CP.State, subnets: Subnets, d: DeviceId, candidates: seq<ServerId>, replies: seq<Reply>,
      at: int, cause: string, retryAts: seq<int>)
    requires |replies| == |retryAts| == 2
    ensures var end := AfterTries(cp, subnets, d, candidates, replies, at, cause, retryAts);
            var mid := AfterFirst(cp, subnets, d, candidates, replies, at, cause, retryAts);
            Run(State(cp, Idle, []), subnets, d, Tries(candidates, replies, at, cause, retryAts))
            == State(end, match Settled(cp, subnets, d, candidates, replies, at, mid)
                          case Some(s) => Installed(s)
                          case None => Idle, [])
  {
    var start := State(cp, Idle, []);
    var es := Tries(candidates, replies, at, cause, retryAts);
    OneTry(cp, subnets, d, candidates, replies, at, cause, retryAts);
    var n := if candidates == [] then 0
             else if |candidates| >= 2 && PassesOver(cp, subnets, d, candidates[0], replies[0], at) then 2 else 1;
    if n == 2 { TwoTries(cp, subnets, d, candidates, replies, at, cause, retryAts); }
    if Run(start, subnets, d, es[..1 + 2 * n]).request.Trying? {
      OutOfTries(start, subnets, d, candidates, es, n);
    } else {
      SettledAfter(start, subnets, d, es, 1 + 2 * n);
    }
  }

  datatype ProvisionError = NoServer | EdgeUnavailable

  /** Provision itself, run without interruption: every call is a run of the machine above. */
  class Service {
    var cp: CP.State
    const subnets: Subnets

    constructor (cp: CP.State, subnets: Subnets)
      ensures this.cp == cp && this.subnets == subnets
    {
      this.cp := cp;
      this.subnets := subnets;
    }

    /** provisionOn: None when the server took the peer, or already had it. `draw` is the
        jitter of the retry a failed push is put off by, `retryAt` when that is due. */
    method ProvisionOn(d: DeviceId, s: ServerId, reply: Reply, at: int, cause: string, draw: real)
      returns (failed: Option<Reply>, ghost retryAt: int)
      requires 0.0 <= draw < 1.0
      modifies this`cp
      ensures failed == None <==> TakesPeer(old(cp), subnets, d, s, reply, at)
      ensures failed.Some? && failed.value != Rejected <==> PassesOver(old(cp), subnets, d, s, reply, at)
      ensures cp == Tried(old(cp), subnets, d, s, reply, at, cause, retryAt)
      ensures WellTimed(old(cp), subnets, d, s, at, retryAt)
    {
      PuttingOffIsWellTimed(cp, subnets, d, s, at, draw);
      var ensured := Ensure(cp.rows, subnets, d, s, cp.KeyOf(d), at).1;
      cp := CP.Next(cp, subnets, CP.Want(d, s, at));
      retryAt := at;
      if ensured.Failure? {
        return Some(Unreachable(Nothing)), retryAt;
      }
      var assignment := cp.rows[ensured.value];
      retryAt := at + B.Jittered(assignment.attempts + 1, draw);
      if !assignment.Applied() {
        if reply.Unreachable? {
          cp := OnBox(cp, assignment, reply.effect);
        }
        if !reply.Ok? {
          var delay := B.Delay(assignment.attempts + 1, draw);
          cp := cp.(rows := MarkAttemptFailed(cp.rows, ensured.value, cause, at + delay));
          return Some(reply), retryAt;
        }
        cp := OnBox(cp, assignment, Landed);
        if reply.recorded {
          cp := cp.(rows := MarkApplied(cp.rows, ensured.value, assignment.revision, at));
        }
      }
      return None, retryAt;
    }

    /** The servers' replies come in as a parameter, one per try. */
    method Provision(d: DeviceId, candidates: seq<ServerId>, replies: seq<Reply>, revokeLands: bool,
                     at: int, cause: string, draws: seq<real>)
      returns (r: Result<ServerId, ProvisionError>, ghost retryAts: seq<int>)
      requires Inv(State(cp, Idle, []), subnets, d, true)
      requires |replies| == |draws| == 2 && forall i | 0 <= i < 2 :: 0.0 <= draws[i] < 1.0
      modifies this`cp
      ensures |retryAts| == 2
      ensures State(cp, Idle, []) ==
                Run(State(old(cp), Idle, []), subnets, d,
                    Tries(candidates, replies, at, cause, retryAts) + [RevokeOthers(revokeLands, at)])
      ensures Inv(State(cp, Idle, []), subnets, d, true)
      ensures Served(old(cp), d) ==> Served(cp, d)
      ensures var mid := AfterFirst(old(cp), subnets, d, candidates, replies, at, cause, retryAts);
              && r == (match Settled(old(cp), subnets, d, candidates, replies, at, mid)
                       case Some(s) => Result.Success(s)
                       case None => Failure(if candidates == [] then NoServer else EdgeUnavailable))
              && (StopsAtFirst(old(cp), subnets, d, candidates, replies, at) ==> cp == mid)
              && AllWellTimed(old(cp), subnets, d, candidates, replies, at, retryAts, mid)
      // The server named serves the device; it is alone in that if the revoke write landed.
      ensures r.Success? ==> exists i | 0 <= i < |cp.rows| :: cp.rows[i].server == r.value && Serves(cp, i, d)
      ensures r.Success? && revokeLands ==>
                forall i | 0 <= i < |cp.rows| && cp.rows[i].device == d && cp.rows[i].Live() ::
                  cp.rows[i].server == r.value
    {
      ghost var start := State(cp, Idle, []);
      var chosen: Option<ServerId>;
      chosen, retryAts := TryCandidates(d, candidates, replies, at, cause, draws);
      ghost var es := Tries(candidates, replies, at, cause, retryAts);
      TheTriesAreARun(start.cp, subnets, d, candidates, replies, at, cause, retryAts);
      RunSnoc(start, subnets, d, es, RevokeOthers(revokeLands, at));
      OwnWorkTakesNothing(start, subnets, d, es);
      SwitchingNeverLeavesAGap(start, subnets, d, es);
      if chosen.Some? {
        Concludes(start, subnets, d, es, chosen.value, revokeLands, at);
        if revokeLands {
          cp := cp.(rows := BeginRevoke(cp.rows, OtherServers(d, chosen.value), at));
        }
        return Success(chosen.value), retryAts;
      }
      r := Failure(if candidates == [] then NoServer else EdgeUnavailable);
    }

    /** The loop: in order, at most two, until one takes the peer or rejects it. */
    method TryCandidates(d: DeviceId, candidates: seq<ServerId>, replies: seq<Reply>, at: int, cause: string,
        draws: seq<real>)
      returns (chosen: Option<ServerId>, ghost retryAts: seq<int>)
      requires |replies| == |draws| == 2 && forall i | 0 <= i < 2 :: 0.0 <= draws[i] < 1.0
      modifies this`cp
      ensures |retryAts| == 2
      ensures cp == AfterTries(old(cp), subnets, d, candidates, replies, at, cause, retryAts)
      ensures var mid := AfterFirst(old(cp), subnets, d, candidates, replies, at, cause, retryAts);
              && chosen == Settled(old(cp), subnets, d, candidates, replies, at, mid)
              && AllWellTimed(old(cp), subnets, d, candidates, replies, at, retryAts, mid)
    {
      retryAts := [at, at];
      var i := 0;
      while i < |candidates| && i < MAX_INLINE_ATTEMPTS
        invariant 0 <= i <= |candidates| && i <= MAX_INLINE_ATTEMPTS && |retryAts| == 2
        invariant i == 0 ==> cp == old(cp)
        invariant i == 1 ==> cp == AfterFirst(old(cp), subnets, d, candidates, replies, at, cause, retryAts)
        invariant i >= 1 ==> PassesOver(old(cp), subnets, d, candidates[0], replies[0], at)
                             && WellTimed(old(cp), subnets, d, candidates[0], at, retryAts[0])
        invariant i == 2 ==>
                    var mid := AfterFirst(old(cp), subnets, d, candidates, replies, at, cause, retryAts);
                    && PassesOver(mid, subnets, d, candidates[1], replies[1], at)
                    && WellTimed(mid, subnets, d, candidates[1], at, retryAts[1])
                    && cp == AfterTries(old(cp), subnets, d, candidates, replies, at, cause, retryAts)
      {
        var failed;
        ghost var retryAt;
        failed, retryAt := ProvisionOn(d, candidates[i], replies[i], at, cause, draws[i]);
        retryAts := retryAts[i := retryAt];
        if failed == None {
          return Some(candidates[i]), retryAts;
        }
        i := i + 1;
        if failed == Some(Rejected) {
          return None, retryAts;
        }
      }
      chosen := None;
    }
  }
}

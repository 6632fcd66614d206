/**
 Grants that run at once (server/internal/store/subscriptions.go). A grant reads where
 the user's last block ends and inserts the next one there; another grant's insert may
 fall between the two.
 */
module ConcurrentGrants {
  import opened Prelude
  import opened Subscriptions

  /** A grant that has read its start and not inserted yet. */
  datatype Read = Read(user: string, planCode: string, source: string, base: int, done: bool)

  datatype State = State(subs: Subs, begun: seq<Read>, now: int)

  datatype Event =
    | ReadBase(user: string, planCode: string, source: string, at: int)
    | Insert(k: nat, at: int)

  function Block(plans: Plans, g: Read): Sub
    requires g.planCode in plans
  {
    Sub(g.user, g.planCode, g.source, g.base, g.base + plans[g.planCode].duration, false)
  }

  function Next(plans: Plans, st: State, e: Event): State {
    if e.at < st.now then st else
    match e
    case ReadBase(u, planCode, source, at) =>
      if planCode in plans && plans[planCode].duration > 0 then
        st.(begun := st.begun + [Read(u, planCode, source, Frontier(st.subs, u, at), false)], now := at)
      else st
    case Insert(k, at) =>
      if k < |st.begun| && !st.begun[k].done && st.begun[k].planCode in plans then
        st.(subs := st.subs + [Block(plans, st.begun[k])],
            begun := st.begun[k := st.begun[k].(done := true)], now := at)
      else st
  }

  function Run(plans: Plans, st: State, es: seq<Event>): State
    decreases |es|
  {
    if es == [] then st else Run(plans, Next(plans, st, es[0]), es[1..])
  }

  // ------------------------------------------------------------ invariant

  /** A block that has not begun takes over from one that begins earlier. */
  ghost predicate TakesOver(subs: Subs, j: nat, now: int)
    requires j < |subs|
  {
    subs[j].startsAt > now ==> exists i | 0 <= i < |subs| ::
      subs[i].user == subs[j].user && subs[i].startsAt < subs[j].startsAt <= subs[i].expiresAt
  }

  ghost predicate Linked(subs: Subs, now: int) {
    forall j | 0 <= j < |subs| :: !subs[j].revoked && subs[j].startsAt < subs[j].expiresAt && TakesOver(subs, j, now)
  }

  /** A start once read is not past the present end, and if still to come it is where
      some block of the user ends. */
  ghost predicate Fair(st: State, plans: Plans, g: Read) {
    && g.planCode in plans && plans[g.planCode].duration > 0
    && g.base <= Frontier(st.subs, g.user, st.now)
    && (g.base > st.now ==>
          exists i | 0 <= i < |st.subs| :: st.subs[i].user == g.user && st.subs[i].expiresAt == g.base)
  }

  ghost predicate Inv(st: State, plans: Plans) {
    && Linked(st.subs, st.now)
    && forall k | 0 <= k < |st.begun| :: Fair(st, plans, st.begun[k])
  }

  lemma FrontierGrows(subs: Subs, s: Sub, u: string, now: int)
    requires !s.revoked && s.startsAt < s.expiresAt
    ensures Frontier(subs + [s], u, now)
            == if s.user == u then Max(Frontier(subs, u, now), s.expiresAt) else Frontier(subs, u, now)
  {
    assert (subs + [s])[..|subs|] == subs;
    FrontierIsLatest(subs, u, now);
  }

  lemma {:induction false} FrontierOnlyMovesOn(subs: Subs, u: string, now: int, later: int)
    requires now <= later
    ensures Frontier(subs, u, now) <= Frontier(subs, u, later)
  {
    if subs != [] { FrontierOnlyMovesOn(subs[..|subs| - 1], u, now, later); }
  }

  lemma InsertKeepsLinked(st: State, plans: Plans, g: Read, at: int)
    requires Inv(st, plans) && Fair(st, plans, g) && st.now <= at
    ensures Linked(st.subs + [Block(plans, g)], at)
  {
    var subs' := st.subs + [Block(plans, g)];
    forall j | 0 <= j < |subs'| ensures TakesOver(subs', j, at) {
      if subs'[j].startsAt > at {
        if j < |st.subs| {
          assert TakesOver(st.subs, j, st.now);
          var i :| 0 <= i < |st.subs| && st.subs[i].user == st.subs[j].user
                   && st.subs[i].startsAt < st.subs[j].startsAt <= st.subs[i].expiresAt;
          assert subs'[i] == st.subs[i];
        } else {
          var i :| 0 <= i < |st.subs| && st.subs[i].user == g.user && st.subs[i].expiresAt == g.base;
          assert subs'[i] == st.subs[i];
        }
      }
    }
  }

  lemma StaysFair(st: State, st': State, plans: Plans, g: Read)
    requires Fair(st, plans, g) && st.now <= st'.now && |st.subs| <= |st'.subs| && st'.subs[..|st.subs|] == st.subs
    requires Frontier(st.subs, g.user, st'.now) <= Frontier(st'.subs, g.user, st'.now)
    ensures Fair(st', plans, g)
  {
    FrontierOnlyMovesOn(st.subs, g.user, st.now, st'.now);
    if g.base > st'.now {
      var i :| 0 <= i < |st.subs| && st.subs[i].user == g.user && st.subs[i].expiresAt == g.base;
      assert st'.subs[..|st.subs|][i] == st'.subs[i];
    }
  }

  lemma LinkedLater(subs: Subs, now: int, later: int)
    requires Linked(subs, now) && now <= later
    ensures Linked(subs, later)
  {
    forall j | 0 <= j < |subs| ensures TakesOver(subs, j, later) {
      assert TakesOver(subs, j, now);
    }
  }

  lemma StepKeepsInv(st: State, plans: Plans, e: Event)
    requires Inv(st, plans)
    ensures Inv(Next(plans, st, e), plans)
  {
    var st' := Next(plans, st, e);
    if st' != st {
      match e
      case ReadBase(u, _, _, at) =>
        LinkedLater(st.subs, st.now, at);
        FrontierIsLatest(st.subs, u, at);
        forall k | 0 <= k < |st.begun| ensures Fair(st', plans, st.begun[k]) {
          StaysFair(st, st', plans, st.begun[k]);
        }
      case Insert(k, at) =>
        assert Fair(st, plans, st.begun[k]);
        InsertKeepsLinked(st, plans, st.begun[k], at);
        forall m | 0 <= m < |st.begun| ensures Fair(st', plans, st'.begun[m]) {
          FrontierGrows(st.subs, Block(plans, st.begun[k]), st.begun[m].user, at);
          StaysFair(st, st', plans, st.begun[m]);
        }
    }
  }

  lemma {:induction false} RunKeepsInv(st: State, plans: Plans, es: seq<Event>)
    requires Inv(st, plans)
    ensures Inv(Run(plans, st, es), plans)
    decreases |es|
  {
    if es != [] {
      StepKeepsInv(st, plans, es[0]);
      RunKeepsInv(Next(plans, st, es[0]), plans, es[1..]);
    }
  }

  // ---------------------------------------------------------- theorems

  lemma {:induction false} WalkToEarlier(subs: Subs, u: string, now: int, x: int, i: nat)
    requires Linked(subs, now) && i < |subs| && subs[i].user == u && now <= x < subs[i].expiresAt
    ensures CoveredAt(subs, u, x)
    decreases subs[i].startsAt - x
  {
    if x < subs[i].startsAt {
      assert TakesOver(subs, i, now);
      var k: nat :| k < |subs| && subs[k].user == u && subs[k].startsAt < subs[i].startsAt <= subs[k].expiresAt;
      WalkToEarlier(subs, u, now, x, k);
    } else {
      assert subs[i].Covers(u, x);
    }
  }

  /** However grants interleave, a user is entitled without a gap until their latest
      expiry: overlaps can cost time, never open a hole. */
  lemma NoInterleavingOpensAGap(plans: Plans, start: int, es: seq<Event>, u: string, x: int)
    requires var st := Run(plans, State([], [], start), es);
             st.now <= x < Frontier(st.subs, u, st.now)
    ensures CoveredAt(Run(plans, State([], [], start), es).subs, u, x)
  {
    var st := Run(plans, State([], [], start), es);
    RunKeepsInv(State([], [], start), plans, es);
    FrontierIsLatest(st.subs, u, st.now);
    var i: nat :| i < |st.subs| && st.subs[i].LiveFor(u, st.now)
                  && st.subs[i].expiresAt == Frontier(st.subs, u, st.now);
    WalkToEarlier(st.subs, u, st.now, x, i);
  }

  /** Entitled time a user has left. */
  function Left(subs: Subs, u: string, now: int): int { Frontier(subs, u, now) - now }

  /** In every reachable state an insert adds its plan's full duration to what the user
      has left if and only if their latest expiry is still where the grant read it;
      otherwise it adds less, by as far as that has moved, down to nothing. */
  lemma TimeIsLostExactlyWhen(plans: Plans, start: int, es: seq<Event>, k: nat, at: int)
    requires var st := Run(plans, State([], [], start), es);
             k < |st.begun| && !st.begun[k].done && st.now <= at
    ensures var st := Run(plans, State([], [], start), es);
            var g := st.begun[k];
            g.planCode in plans &&
            var gained := Left(Next(plans, st, Insert(k, at)).subs, g.user, at) - Left(st.subs, g.user, at);
            var moved := Frontier(st.subs, g.user, at) - g.base;
            && moved >= 0 && gained == Max(0, plans[g.planCode].duration - moved)
            && (gained == plans[g.planCode].duration <==> Frontier(st.subs, g.user, at) == g.base)
  {
    var st := Run(plans, State([], [], start), es);
    RunKeepsInv(State([], [], start), plans, es);
    var g := st.begun[k];
    assert Fair(st, plans, g);
    FrontierGrows(st.subs, Block(plans, g), g.user, at);
    FrontierOnlyMovesOn(st.subs, g.user, st.now, at);
  }

  /** Two grants of one plan that both read before either inserts leave the user with
      the time of one. */
  lemma TwoAtOnceCountAsOne(plans: Plans, u: string, planCode: string, source: string, at: int)
    requires planCode in plans && plans[planCode].duration > 0
    ensures var read := ReadBase(u, planCode, source, at);
            var es := [read, read, Insert(0, at), Insert(1, at)];
            var st := Run(plans, State([], [], at), es);
            |st.subs| == 2 && Left(st.subs, u, at) == plans[planCode].duration
  {
    var read := ReadBase(u, planCode, source, at);
    var es := [read, read, Insert(0, at), Insert(1, at)];
    var none: Subs := [];
    var s0 := State(none, [], at);
    var s1 := Next(plans, s0, es[0]);
    var s2 := Next(plans, s1, es[1]);
    var s3 := Next(plans, s2, es[2]);
    var s4 := Next(plans, s3, es[3]);
    assert es[1..][1..] == es[2..] && es[2..][1..] == es[3..] && es[3..][1..] == [];
    assert Run(plans, s2, es[2..]) == Run(plans, s3, es[3..]) == Run(plans, s4, []);
    var b := Block(plans, s1.begun[0]);
    FrontierGrows(none, b, u, at);
    FrontierGrows([b], b, u, at);
    assert none + [b] == [b] && s4.subs == [b] + [b];
  }
}

/**
 Payments and time blocks together: a grant that lands in the settlement machine is a
 block on the buyer's stack, at the time of that call.
 */
module PaidTime {
  import opened Prelude
  import P = Payments
  import S = Subscriptions

  datatype Event = Event(e: P.Event, at: int)

  datatype State = State(pay: P.State, subs: S.Subs)

  const INITIAL := State(P.INITIAL, [])

  predicate Grantable(plans: S.Plans, plan: string) { plan in plans && plans[plan].duration > 0 }

  /** A grant for a plan that is not there is refused by the store. */
  function Effective(plans: S.Plans, st: P.State, e: P.Event): P.Event {
    if e.Proceed? && e.t < |st.threads| && st.threads[e.t].phase.GrantTo?
       && !Grantable(plans, st.threads[e.t].phase.plan) then P.Proceed(e.t, P.Refused)
    else e
  }

  /** The purchase a step makes, if it makes one. */
  function Made(plans: S.Plans, st: State, x: Event): seq<S.Purchase> {
    var pay := P.Next(st.pay, Effective(plans, st.pay, x.e));
    if |pay.blocks| > |st.pay.blocks| then
      var b := pay.blocks[|st.pay.blocks|];
      [S.Purchase(b.user, b.plan, "paystack", x.at)]
    else []
  }

  function Stacked(plans: S.Plans, subs: S.Subs, made: seq<S.Purchase>): S.Subs {
    if made == [] then subs
    else S.Grant(subs, plans, made[0].user, made[0].planCode, made[0].source, made[0].at)
  }

  function Next(plans: S.Plans, st: State, x: Event): State {
    State(P.Next(st.pay, Effective(plans, st.pay, x.e)), Stacked(plans, st.subs, Made(plans, st, x)))
  }

  function After(plans: S.Plans, es: seq<Event>): State {
    if es == [] then INITIAL else Next(plans, After(plans, es[..|es| - 1]), es[|es| - 1])
  }

  /** The settlement machine's own run. */
  function Calls(plans: S.Plans, es: seq<Event>): seq<P.Event> {
    if es == [] then []
    else Calls(plans, es[..|es| - 1]) + [Effective(plans, After(plans, es[..|es| - 1]).pay, es[|es| - 1].e)]
  }

  function Bought(plans: S.Plans, es: seq<Event>): seq<S.Purchase> {
    if es == [] then []
    else Bought(plans, es[..|es| - 1]) + Made(plans, After(plans, es[..|es| - 1]), es[|es| - 1])
  }

  ghost predicate InOrder(es: seq<Event>) {
    forall i, j | 0 <= i < j < |es| :: es[i].at <= es[j].at
  }

  // ------------------------------------------- the two machines' own runs

  lemma {:induction false} CallsRun(plans: S.Plans, es: seq<Event>)
    ensures P.Run(P.INITIAL, Calls(plans, es)) == After(plans, es).pay
  {
    if es != [] {
      var front := es[..|es| - 1];
      CallsRun(plans, front);
      P.RunSnoc(P.INITIAL, Calls(plans, front), Effective(plans, After(plans, front).pay, es[|es| - 1].e));
    }
  }

  /** A step makes at most one block, and only for a plan there is. */
  lemma OneBlockAStep(plans: S.Plans, st: State, x: Event)
    ensures var pay := P.Next(st.pay, Effective(plans, st.pay, x.e));
            var made := Made(plans, st, x);
            && (made == [] ==> pay.blocks == st.pay.blocks)
            && (made != [] ==> |made| == 1 && Grantable(plans, made[0].planCode)
                               && |pay.blocks| == |st.pay.blocks| + 1 && pay.blocks[..|st.pay.blocks|] == st.pay.blocks
                               && pay.blocks[|st.pay.blocks|].user == made[0].user
                               && pay.blocks[|st.pay.blocks|].plan == made[0].planCode)
  {
  }

  ghost predicate Until(ps: seq<S.Purchase>, at: int) { forall k | 0 <= k < |ps| :: ps[k].at <= at }

  lemma OneMorePurchase(plans: S.Plans, ps: seq<S.Purchase>, made: seq<S.Purchase>, at: int)
    requires S.InOrder(ps) && Until(ps, at) && |made| <= 1 && (made != [] ==> made[0].at == at)
    ensures S.InOrder(ps + made) && Until(ps + made, at)
    ensures S.Buy(plans, ps + made) == Stacked(plans, S.Buy(plans, ps), made)
  {
    if made == [] {
      assert ps + made == ps;
    } else {
      var all := ps + made;
      assert all[..|all| - 1] == ps && all[|all| - 1] == made[0];
    }
  }

  lemma MadeAtOnce(plans: S.Plans, st: State, x: Event)
    ensures var made := Made(plans, st, x);
            && |made| <= 1 && (made != [] ==> made[0].at == x.at)
            && Next(plans, st, x).subs == Stacked(plans, st.subs, made)
  {
  }

  lemma {:induction false} BoughtRuns(plans: S.Plans, es: seq<Event>, at: int)
    requires InOrder(es) && (es != [] ==> es[|es| - 1].at <= at)
    ensures After(plans, es).subs == S.Buy(plans, Bought(plans, es))
    ensures S.InOrder(Bought(plans, es)) && Until(Bought(plans, es), at)
  {
    if es != [] {
      var front, x := es[..|es| - 1], es[|es| - 1];
      BoughtRuns(plans, front, x.at);
      var made := Made(plans, After(plans, front), x);
      MadeAtOnce(plans, After(plans, front), x);
      OneMorePurchase(plans, Bought(plans, front), made, x.at);
      assert Bought(plans, es) == Bought(plans, front) + made;
    }
  }

  /** Block for block: the same buyer, the same plan, the plan's duration. */
  ghost predicate Matched(plans: S.Plans, st: State) {
    && |st.subs| == |st.pay.blocks|
    && forall k | 0 <= k < |st.subs| ::
         && st.subs[k].user == st.pay.blocks[k].user && st.subs[k].planCode == st.pay.blocks[k].plan
         && st.subs[k].planCode in plans
         && st.subs[k].expiresAt - st.subs[k].startsAt == plans[st.subs[k].planCode].duration
  }

  lemma StepMatches(plans: S.Plans, st: State, x: Event)
    requires Matched(plans, st)
    ensures Matched(plans, Next(plans, st, x))
  {
    OneBlockAStep(plans, st, x);
    var st' := Next(plans, st, x);
    forall k | 0 <= k < |st.subs| ensures st'.subs[k] == st.subs[k] && st'.pay.blocks[k] == st.pay.blocks[k] {
      assert st'.pay.blocks[..|st.pay.blocks|] == st.pay.blocks;
    }
  }

  lemma {:induction false} BlocksMatch(plans: S.Plans, es: seq<Event>)
    ensures Matched(plans, After(plans, es))
  {
    if es != [] {
      var front := es[..|es| - 1];
      BlocksMatch(plans, front);
      StepMatches(plans, After(plans, front), es[|es| - 1]);
    }
  }

  // ---------------------------------------------------------- theorems

  /** In every interleaving of deliveries, verify calls and failures: a settled
      reference with no grant outstanding has exactly one block, on its buyer's stack
      with its plan's duration, if and only if no step dropped it; and from the last
      step on, what each buyer has left is the time to their latest expiry, all of it
      covered. */
  lemma SettledReferencesAreTime(plans: S.Plans, es: seq<Event>, r: string, u: string, now: int)
    requires InOrder(es) && (es != [] ==> es[|es| - 1].at <= now)
    ensures var st := After(plans, es);
            && Matched(plans, st)
            && (P.Settled(st.pay, r) == 1 && P.GrantsPending(st.pay.threads, r) == 0 ==>
                  (P.BlocksFor(st.pay.blocks, r) == 1 <==> P.NothingDrops(P.INITIAL, Calls(plans, es), r)))
            && S.Remaining(st.subs, u, now) == S.Frontier(st.subs, u, now) - now
            && forall x | now <= x < S.Frontier(st.subs, u, now) :: S.CoveredAt(st.subs, u, x)
  {
    var st := After(plans, es);
    BlocksMatch(plans, es);
    CallsRun(plans, es);
    BoughtRuns(plans, es, now);
    if P.Settled(st.pay, r) == 1 && P.GrantsPending(st.pay.threads, r) == 0 {
      P.SettledMeansOneBlockExactlyWhen(Calls(plans, es), r);
    }
    S.TimeIsConserved(plans, Bought(plans, es), u, now);
  }

  lemma InOrderFront(es: seq<Event>, x: Event)
    requires InOrder(es + [x])
    ensures InOrder(es) && (es != [] ==> es[|es| - 1].at <= x.at)
  {
    var whole := es + [x];
    forall i, j | 0 <= i < j < |es| ensures es[i].at <= es[j].at {
      assert whole[i].at <= whole[j].at;
    }
    if es != [] { assert whole[|es| - 1].at <= whole[|es|].at; }
  }

  lemma StepBuys(plans: S.Plans, es: seq<Event>, x: Event)
    requires InOrder(es + [x])
    ensures var ps := Bought(plans, es);
            var made := Made(plans, After(plans, es), x);
            && After(plans, es).subs == S.Buy(plans, ps)
            && After(plans, es + [x]) == Next(plans, After(plans, es), x)
            && S.InOrder(ps + made) && After(plans, es + [x]).subs == S.Buy(plans, ps + made)
  {
    var whole := es + [x];
    assert whole[..|whole| - 1] == es;
    InOrderFront(es, x);
    BoughtRuns(plans, es, x.at);
    MadeAtOnce(plans, After(plans, es), x);
    OneMorePurchase(plans, Bought(plans, es), Made(plans, After(plans, es), x), x.at);
  }

  /** The step that makes a reference's block adds its plan's duration to what the
      buyer has left, and no step changes what anyone has left otherwise. */
  lemma EachBlockAddsItsTime(plans: S.Plans, es: seq<Event>, x: Event, u: string)
    requires InOrder(es + [x])
    ensures var (before, after) := (After(plans, es), After(plans, es + [x]));
            var made := Made(plans, before, x);
            && (|after.pay.blocks| > |before.pay.blocks| <==> made != [])
            && (made == [] ==> S.Remaining(after.subs, u, x.at) == S.Remaining(before.subs, u, x.at))
            && (made != [] ==>
                  && made[0].user == after.pay.blocks[|before.pay.blocks|].user
                  && made[0].planCode == after.pay.blocks[|before.pay.blocks|].plan && made[0].planCode in plans
                  && S.Remaining(after.subs, u, x.at) == S.Remaining(before.subs, u, x.at)
                       + if made[0].user == u then plans[made[0].planCode].duration else 0)
  {
    var st := After(plans, es);
    StepBuys(plans, es, x);
    OneBlockAStep(plans, st, x);
    var ps, made := Bought(plans, es), Made(plans, st, x);
    MadeAtOnce(plans, st, x);
    if made != [] {
      assert ps + made == ps + [made[0]];
      S.EachGrantAddsItsDuration(plans, ps, made[0], u);
    }
  }
}

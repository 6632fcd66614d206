/** Prepaid time blocks (server/internal/store/subscriptions.go). Each grant is one
    atomic insert; times and durations are in seconds. */
module Subscriptions {
  import opened Prelude

  datatype Plan = Plan(duration: int, deviceLimit: int)

  datatype Sub = Sub(user: string, planCode: string, source: string, startsAt: int, expiresAt: int, revoked: bool) {
    /** The row grants time to this user at some point after `now`. */
    predicate LiveFor(u: string, now: int) { user == u && !revoked && expiresAt > now }

    /** The row covers this very moment. */
    predicate Covers(u: string, now: int) { user == u && !revoked && startsAt <= now < expiresAt }
  }

  type Subs = seq<Sub>
  type Plans = map<string, Plan>

  /** GREATEST(now, the latest expiry among the user's live blocks). */
  function Frontier(subs: Subs, u: string, now: int): (f: int)
    ensures f >= now
  {
    if subs == [] then now
    else
      var rest := Frontier(subs[..|subs| - 1], u, now);
      var last := subs[|subs| - 1];
      if last.LiveFor(u, now) then Max(rest, last.expiresAt) else rest
  }

  /** A grant inserts nothing for an unknown plan, or for one whose window would be empty. */
  function Grant(subs: Subs, plans: Plans, u: string, planCode: string, source: string, now: int): Subs {
    if planCode !in plans || plans[planCode].duration <= 0 then subs
    else
      var start := Frontier(subs, u, now);
      subs + [Sub(u, planCode, source, start, start + plans[planCode].duration, false)]
  }

  datatype GrantError = UnknownPlan | EmptyWindow

  class Store {
    var subs: Subs
    const plans: Plans

    constructor (plans: Plans)
      ensures subs == [] && this.plans == plans
    {
      this.plans := plans;
      subs := [];
    }

    method GrantTimeBlock(u: string, planCode: string, source: string, now: int) returns (r: Result<Sub, GrantError>)
      modifies this`subs
      ensures subs == Grant(old(subs), plans, u, planCode, source, now)
      ensures r.Success? <==> planCode in plans && plans[planCode].duration > 0
      ensures r.Success? ==> subs == old(subs) + [r.value]
      ensures r.Success? ==> r.value.expiresAt - r.value.startsAt == plans[planCode].duration
      ensures r.Failure? ==> subs == old(subs)
    {
      if planCode !in plans {
        return Failure(UnknownPlan);
      }
      var base := now;
      for i := 0 to |subs|
        invariant base == Frontier(subs[..i], u, now)
      {
        assert subs[..i + 1][..i] == subs[..i];
        if subs[i].LiveFor(u, now) && subs[i].expiresAt > base {
          base := subs[i].expiresAt;
        }
      }
      assert subs[..|subs|] == subs;
      if plans[planCode].duration <= 0 {
        return Failure(EmptyWindow);
      }
      var sub := Sub(u, planCode, source, base, base + plans[planCode].duration, false);
      subs := subs + [sub];
      return Success(sub);
    }

    /** The best covering block by device limit, then by expiry, if there is one. */
    method Entitlement(u: string, now: int) returns (r: Option<Sub>)
      requires forall i | 0 <= i < |subs| :: subs[i].planCode in plans
      ensures r.Some? <==> CoveredAt(subs, u, now)
      ensures r.Some? ==> r.value in subs && r.value.Covers(u, now)
      ensures r.Some? ==> forall i | 0 <= i < |subs| && subs[i].Covers(u, now) ::
                var (p, best) := (plans[subs[i].planCode], plans[r.value.planCode]);
                p.deviceLimit < best.deviceLimit
                || (p.deviceLimit == best.deviceLimit && subs[i].expiresAt <= r.value.expiresAt)
    {
      r := None;
      for i := 0 to |subs|
        invariant r.None? <==> forall k | 0 <= k < i :: !subs[k].Covers(u, now)
        invariant r.Some? ==> r.value in subs && r.value.Covers(u, now)
        invariant r.Some? ==> forall k | 0 <= k < i && subs[k].Covers(u, now) ::
                    var (p, best) := (plans[subs[k].planCode], plans[r.value.planCode]);
                    p.deviceLimit < best.deviceLimit
                    || (p.deviceLimit == best.deviceLimit && subs[k].expiresAt <= r.value.expiresAt)
      {
        if subs[i].Covers(u, now) {
          var p := plans[subs[i].planCode].deviceLimit;
          if r == None || p > plans[r.value.planCode].deviceLimit
             || (p == plans[r.value.planCode].deviceLimit && subs[i].expiresAt > r.value.expiresAt) {
            r := Some(subs[i]);
          }
        }
      }
    }
  }

  // ---------------------------------------------------------- conservation

  datatype Purchase = Purchase(user: string, planCode: string, source: string, at: int)

  /** Serialized grants, oldest first. */
  function Buy(plans: Plans, ps: seq<Purchase>): Subs {
    if ps == [] then []
    else
      var p := ps[|ps| - 1];
      Grant(Buy(plans, ps[..|ps| - 1]), plans, p.user, p.planCode, p.source, p.at)
  }

  ghost predicate InOrder(ps: seq<Purchase>) {
    forall i, j | 0 <= i < j < |ps| :: ps[i].at <= ps[j].at
  }

  /** Time the user still has after `now`: what each of their blocks has left, added up. */
  function Remaining(subs: Subs, u: string, now: int): int {
    if subs == [] then 0
    else
      var last := subs[|subs| - 1];
      Remaining(subs[..|subs| - 1], u, now)
      + if last.LiveFor(u, now) then last.expiresAt - Max(last.startsAt, now) else 0
  }

  /** Entitlement.Active: some block covers this moment. */
  predicate CoveredAt(subs: Subs, u: string, x: int) {
    exists i | 0 <= i < |subs| :: subs[i].Covers(u, x)
  }

  /** Blocks of one user come in order without overlap, and any gap before a block
      had closed by the time of the grant that made it. */
  ghost predicate Stacked(subs: Subs, t: int) {
    && (forall i | 0 <= i < |subs| :: !subs[i].revoked && subs[i].startsAt < subs[i].expiresAt)
    && (forall i, j | 0 <= i < j < |subs| && subs[i].user == subs[j].user :: subs[i].expiresAt <= subs[j].startsAt)
    && (forall j | 0 <= j < |subs| ::
          subs[j].startsAt <= t || exists i | 0 <= i < j ::
            subs[i].user == subs[j].user && subs[i].expiresAt == subs[j].startsAt)
  }

  /** The frontier is now, or the expiry of one of the user's blocks; none reaches past it. */
  lemma {:induction false} FrontierIsLatest(subs: Subs, u: string, now: int)
    ensures var f := Frontier(subs, u, now);
            && (forall i | 0 <= i < |subs| && subs[i].user == u && !subs[i].revoked :: subs[i].expiresAt <= f)
            && (f == now || exists i | 0 <= i < |subs| :: subs[i].LiveFor(u, now) && subs[i].expiresAt == f)
    decreases |subs|
  {
    if subs != [] {
      var rest := subs[..|subs| - 1];
      FrontierIsLatest(rest, u, now);
      var f := Frontier(rest, u, now);
      if f != now {
        var i :| 0 <= i < |rest| && rest[i].LiveFor(u, now) && rest[i].expiresAt == f;
        assert subs[i] == rest[i];
      }
      forall i | 0 <= i < |subs| - 1 ensures subs[i] == rest[i] {}
      assert subs[|subs| - 1].LiveFor(u, now) ==> subs[|subs| - 1].expiresAt <= Frontier(subs, u, now);
    }
  }

  lemma GrantKeepsStacked(subs: Subs, plans: Plans, u: string, planCode: string, source: string, t: int, now: int)
    requires Stacked(subs, t) && t <= now
    ensures Stacked(Grant(subs, plans, u, planCode, source, now), now)
  {
    FrontierIsLatest(subs, u, now);
    var subs' := Grant(subs, plans, u, planCode, source, now);
    forall j | 0 <= j < |subs'| && subs'[j].startsAt > now
      ensures exists i | 0 <= i < j :: subs'[i].user == subs'[j].user && subs'[i].expiresAt == subs'[j].startsAt
    {
      if j < |subs| {
        var i :| 0 <= i < j && subs[i].user == subs[j].user && subs[i].expiresAt == subs[j].startsAt;
        assert subs'[i] == subs[i];
      } else {
        var i :| 0 <= i < |subs| && subs[i].LiveFor(u, now) && subs[i].expiresAt == Frontier(subs, u, now);
        assert subs'[i] == subs[i];
      }
    }
  }

  lemma {:induction false} PurchasesStack(plans: Plans, ps: seq<Purchase>, now: int)
    requires InOrder(ps) && (ps != [] ==> ps[|ps| - 1].at <= now)
    ensures Stacked(Buy(plans, ps), now)
    decreases |ps|
  {
    if ps != [] {
      var p := ps[|ps| - 1];
      PurchasesStack(plans, ps[..|ps| - 1], p.at);
      GrantKeepsStacked(Buy(plans, ps[..|ps| - 1]), plans, p.user, p.planCode, p.source, p.at, p.at);
    }
  }

  /** From now to the frontier, some block covers every moment. */
  lemma {:induction false} NoGap(subs: Subs, u: string, now: int, x: int)
    requires Stacked(subs, now)
    requires now <= x < Frontier(subs, u, now)
    ensures CoveredAt(subs, u, x)
  {
    FrontierIsLatest(subs, u, now);
    var i: nat :| i < |subs| && subs[i].LiveFor(u, now) && subs[i].expiresAt == Frontier(subs, u, now);
    WalkBack(subs, u, now, x, i);
  }

  lemma {:induction false} WalkBack(subs: Subs, u: string, now: int, x: int, i: nat)
    requires Stacked(subs, now) && i < |subs| && subs[i].user == u && now <= x < subs[i].expiresAt
    ensures CoveredAt(subs, u, x)
    decreases i
  {
    if x < subs[i].startsAt {
      var k: nat :| k < i && subs[k].user == u && subs[k].expiresAt == subs[i].startsAt;
      WalkBack(subs, u, now, x, k);
    } else {
      assert subs[i].Covers(u, x);
    }
  }

  /** No gap and no overlap: what the blocks have left adds up to the wall-clock
      time until the last of them expires. */
  lemma {:induction false} RemainingReachesTheFrontier(subs: Subs, u: string, now: int)
    requires Stacked(subs, now)
    ensures Remaining(subs, u, now) == Frontier(subs, u, now) - now
    decreases |subs|
  {
    if subs != [] {
      var rest, last := subs[..|subs| - 1], subs[|subs| - 1];
      PrefixStacked(subs, now);
      RemainingReachesTheFrontier(rest, u, now);
      if last.LiveFor(u, now) {
        FrontierIsLatest(rest, u, now);
        var f := Frontier(rest, u, now);
        if f != now {
          var i: nat :| i < |rest| && rest[i].LiveFor(u, now) && rest[i].expiresAt == f;
          assert subs[i] == rest[i] && subs[i].expiresAt <= last.startsAt;
        }
        if last.startsAt > now {
          var k: nat :| k < |rest| && subs[k].user == u && subs[k].expiresAt == last.startsAt;
          assert rest[k] == subs[k];
        }
        assert f == Max(last.startsAt, now);
      }
    }
  }

  lemma PrefixStacked(subs: Subs, now: int)
    requires Stacked(subs, now) && subs != []
    ensures Stacked(subs[..|subs| - 1], now)
  {
    var rest := subs[..|subs| - 1];
    forall j | 0 <= j < |rest|
      ensures rest[j].startsAt <= now || exists i | 0 <= i < j ::
        rest[i].user == rest[j].user && rest[i].expiresAt == rest[j].startsAt
    {
      if subs[j].startsAt > now {
        var i: nat :| i < j && subs[i].user == subs[j].user && subs[i].expiresAt == subs[j].startsAt;
        assert rest[i].user == rest[j].user && rest[i].expiresAt == rest[j].startsAt;
      }
    }
  }

  /** Every purchase adds exactly the plan's duration to the buyer's remaining time
      and nothing to anyone else's: nothing already paid for is lost or doubled. */
  lemma EachGrantAddsItsDuration(plans: Plans, ps: seq<Purchase>, p: Purchase, u: string)
    requires InOrder(ps + [p])
    ensures var (before, after) := (Buy(plans, ps), Buy(plans, ps + [p]));
            Remaining(after, u, p.at) == Remaining(before, u, p.at)
              + (if u == p.user && p.planCode in plans
                && plans[p.planCode].duration > 0 then plans[p.planCode].duration else 0)
  {
    assert (ps + [p])[..|ps|] == ps;
    var (before, after) := (Buy(plans, ps), Buy(plans, ps + [p]));
    if after != before {
      assert after[..|after| - 1] == before;
    }
  }

  /** Over any history of grants, from the time of the last one on: blocks of a user
      never overlap, every moment up to the latest expiry is covered, and remaining
      time is the time until then. */
  lemma TimeIsConserved(plans: Plans, ps: seq<Purchase>, u: string, now: int)
    requires InOrder(ps) && (ps != [] ==> ps[|ps| - 1].at <= now)
    ensures var subs := Buy(plans, ps);
            && (forall i, j | 0 <= i < j < |subs| && subs[i].user == subs[j].user ::
              subs[i].expiresAt <= subs[j].startsAt)
            && Remaining(subs, u, now) == Frontier(subs, u, now) - now
            && forall x | now <= x < Frontier(subs, u, now) :: CoveredAt(subs, u, x)
  {
    PurchasesStack(plans, ps, now);
    var subs := Buy(plans, ps);
    RemainingReachesTheFrontier(subs, u, now);
    forall x | now <= x < Frontier(subs, u, now) ensures CoveredAt(subs, u, x) {
      NoGap(subs, u, now, x);
    }
  }

  /** Entitlement's query matches at most one row, so its ordering never matters;
      and it matches one exactly while the user has time remaining. */
  lemma EntitledExactlyWhileTimeRemains(plans: Plans, ps: seq<Purchase>, u: string, now: int)
    requires InOrder(ps) && (ps != [] ==> ps[|ps| - 1].at <= now)
    ensures var subs := Buy(plans, ps);
            && (forall i, j | 0 <= i < j < |subs| :: !(subs[i].Covers(u, now) && subs[j].Covers(u, now)))
            && (CoveredAt(subs, u, now) <==> Remaining(subs, u, now) > 0)
  {
    TimeIsConserved(plans, ps, u, now);
    PurchasesStack(plans, ps, now);
    var subs := Buy(plans, ps);
    FrontierIsLatest(subs, u, now);
    if Remaining(subs, u, now) > 0 { NoGap(subs, u, now, now); }
  }

  /** Withdrawing any one block of any history takes away exactly the moments it
      covered: blocks stacked on it do not move up. */
  lemma RevokingABlockOpensItsOwnGap(plans: Plans, ps: seq<Purchase>, k: nat, u: string, x: int)
    requires InOrder(ps) && k < |Buy(plans, ps)|
    ensures var subs := Buy(plans, ps);
            var withdrawn := subs[k := subs[k].(revoked := true)];
            CoveredAt(withdrawn, u, x) <==> CoveredAt(subs, u, x) && !subs[k].Covers(u, x)
  {
    var subs := Buy(plans, ps);
    var withdrawn := subs[k := subs[k].(revoked := true)];
    PurchasesStack(plans, ps, if ps == [] then 0 else ps[|ps| - 1].at);
    if CoveredAt(withdrawn, u, x) {
      var i :| 0 <= i < |withdrawn| && withdrawn[i].Covers(u, x);
      assert i != k && subs[i].Covers(u, x);
      assert !subs[k].Covers(u, x);
    }
    if CoveredAt(subs, u, x) && !subs[k].Covers(u, x) {
      var i :| 0 <= i < |subs| && subs[i].Covers(u, x);
      assert withdrawn[i].Covers(u, x);
    }
  }

  /** The exclusion of revoked blocks matters: withdrawing a block that others are
      stacked on leaves the user with time remaining and no entitlement. */
  lemma RevokingAStackedBlockOpensAGap(u: string, plans: Plans)
    requires plans == map["daily" := Plan(86_400, 1)]
    ensures var subs := Buy(plans, [Purchase(u, "daily", "manual", 0), Purchase(u, "daily", "manual", 0)]);
            && |subs| == 2
            && var withdrawn := subs[0 := subs[0].(revoked := true)];
            Remaining(withdrawn, u, 0) == 86_400 && !CoveredAt(withdrawn, u, 0)
  {
    var p := Purchase(u, "daily", "manual", 0);
    assert [p, p][..1] == [p] && [p][..0] == [];
    var one := Sub(u, "daily", "manual", 0, 86_400, false);
    var two := Sub(u, "daily", "manual", 86_400, 172_800, false);
    assert Buy(plans, [p]) == [one];
    assert [one][..0] == [];
    assert Buy(plans, [p, p]) == [one, two];
    var gone := one.(revoked := true);
    var subs := Buy(plans, [p, p]);
    assert subs[0 := subs[0].(revoked := true)] == [gone, two];
    assert [gone, two][..1] == [gone] && [gone][..0] == [];
    assert Remaining([gone], u, 0) == 0;
    assert Remaining([gone, two], u, 0) == 86_400;
    assert !CoveredAt([gone, two], u, 0);
  }
}

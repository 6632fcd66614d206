/**
 Settling a payment (server/internal/api/payment_handlers.go, store/payments.go).
 Webhook deliveries and verify calls are threads that run one store call or one
 provider call at a time; any number of them race for the same reference.
 */
module Payments {
  import opened Prelude

  datatype Status = PENDING | SUCCESS | FAILED | ABANDONED

  /** A payments row; user and plan may be absent ("" in the columns read back). */
  datatype Payment = Payment(user: string, plan: string, amount: int, status: Status)

  /** The provider's event, with the metadata it echoes. */
  datatype Charge = Charge(eventId: string, kind: string, reference: string, amount: int, metaUser: string,
    metaPlan: string)
  {
    /** The recorded user and plan, or else the echoed ones; "" if there are neither. */
    function BuyerOf(row: Payment): string { if row.user == "" then metaUser else row.user }

    function PlanOf(row: Payment): string { if row.plan == "" then metaPlan else row.plan }

    /** It pays, at the recorded price, for a payment that is known. */
    predicate Covers(payments: map<string, Payment>) {
      reference != "" && reference in payments && payments[reference].amount <= amount
    }

    /** And nobody settled that before, and somebody is to have something for it. */
    predicate Earns(payments: map<string, Payment>) {
      && Covers(payments) && payments[reference].status != SUCCESS
      && BuyerOf(payments[reference]) != "" && PlanOf(payments[reference]) != ""
    }
  }

  /** Where a thread is: the next store call it will make. */
  datatype Phase =
    | Record                    // webhook: RecordWebhookEvent
    | Lookup                    // settleCharge: PaymentByRef
    | Settle                    // amount accepted: SettlePayment
    | GrantTo(user: string, plan: string)   // first to settle: GrantTimeBlock
    | Acknowledge               // webhook: MarkWebhookHandled
    | Done(granted: bool)
    | Stopped                   // ended with an error

  /** What a store call comes to: one that reports an error may have landed. */
  datatype Answer = Fine | Refused | Unheard

  datatype Thread = Thread(charge: Charge, webhook: bool, phase: Phase)

  datatype Block = Block(reference: string, user: string, plan: string, paid: int)

  datatype State = State(
    payments: map<string, Payment>,
    receipts: set<string>,
    threads: seq<Thread>,
    blocks: seq<Block>,          // time blocks granted, oldest first
    lost: set<string>)           // references settled by a thread whose grant then failed

  const INITIAL := State(map[], {}, [], [], {})

  datatype Event =
    | Initialize(reference: string, payment: Payment)        // UpsertPayment, with any status but success
    | Deliver(charge: Charge)                                // a webhook arrives
    | Verified(charge: Charge)                               // the provider vouched for a verify call
    | Proceed(t: nat, answer: Answer)                      // a thread makes its next call

  /** UpsertPayment: a conflicting row keeps everything but a pending status. */
  function Upsert(payments: map<string, Payment>, reference: string, p: Payment): map<string, Payment> {
    if reference in payments then
      payments[reference := payments[reference].(status :=
        if payments[reference].status == PENDING then p.status else payments[reference].status)]
    else payments[reference := p]
  }

  /** SettlePayment: the one conditional update, and whether it was the first. */
  function SettlePayment(payments: map<string, Payment>, reference: string): (map<string, Payment>, bool) {
    if reference in payments && payments[reference].status != SUCCESS then
      (payments[reference := payments[reference].(status := SUCCESS)], true)
    else (payments, false)
  }

  /** Thread t moves to another phase. */
  function At(st: State, t: nat, phase: Phase): State
    requires t < |st.threads|
  {
    st.(threads := st.threads[t := st.threads[t].(phase := phase)])
  }

  /** settleCharge returned: a verify call is done, a webhook has its receipt to close. */
  function Finish(th: Thread, granted: bool): Phase {
    if th.webhook then Acknowledge else Done(granted)
  }

  /** One call of one thread. */
  function Call(st: State, t: nat, answer: Answer): (r: State)
    requires t < |st.threads|
    ensures |r.threads| == |st.threads|
  {
    var th := st.threads[t];
    var c := th.charge;
    match th.phase
    case Record =>
      var landed := if answer == Refused then st else st.(receipts := st.receipts + {c.eventId});
      if answer != Fine then At(landed, t, Stopped)
      else if c.eventId in st.receipts then At(landed, t, Done(false))
      else At(landed, t, if c.kind == "charge.success" then Lookup else Acknowledge)
    case Lookup =>
      if c.reference == "" then At(st, t, Stopped)
      else if answer != Fine || c.reference !in st.payments then At(st, t, Finish(th, false))
      else if c.amount < st.payments[c.reference].amount then At(st, t, Finish(th, false))
      else At(st, t, Settle)
    case Settle =>
      if answer == Refused then At(st, t, Stopped)
      else
        var (payments, first) := SettlePayment(st.payments, c.reference);
        if !first then At(st, t, if answer == Fine then Finish(th, false) else Stopped)
        else
          var (user, plan) := (c.BuyerOf(payments[c.reference]), c.PlanOf(payments[c.reference]));
          if answer == Unheard || user == "" || plan == "" then
            At(st, t, Stopped).(payments := payments, lost := st.lost + {c.reference})
          else At(st, t, GrantTo(user, plan)).(payments := payments)
    case GrantTo(user, plan) =>
      if answer == Refused then At(st, t, Stopped).(lost := st.lost + {c.reference})
      else
        At(st, t, if answer == Fine then Finish(th, true) else Stopped)
        .(blocks := st.blocks + [Block(c.reference, user, plan, c.amount)])
    case Acknowledge => At(st, t, if answer == Fine then Done(false) else Stopped)
    case Done(_) => st
    case Stopped => st
  }

  function Next(st: State, e: Event): State {
    match e
    case Initialize(r, p) => if p.status == SUCCESS then st else st.(payments := Upsert(st.payments, r, p))
    case Deliver(c) => st.(threads := st.threads + [Thread(c, true, Record)])
    case Verified(c) => st.(threads := st.threads + [Thread(c, false, Lookup)])
    case Proceed(t, answer) => if t < |st.threads| then Call(st, t, answer) else st
  }

  function Run(st: State, es: seq<Event>): State
    decreases |es|
  {
    if es == [] then st else Run(Next(st, es[0]), es[1..])
  }

  // --------------------------------------------------------- at most once

  function BlocksFor(blocks: seq<Block>, r: string): nat {
    if blocks == [] then 0
    else BlocksFor(blocks[..|blocks| - 1], r) + if blocks[|blocks| - 1].reference == r then 1 else 0
  }

  /** Threads that settled r and have its grant still to make. */
  function GrantsPending(threads: seq<Thread>, r: string): nat {
    if threads == [] then 0
    else
      var last := threads[|threads| - 1];
      GrantsPending(threads[..|threads| - 1], r) + if last.phase.GrantTo? && last.charge.reference == r then 1 else 0
  }

  function Settled(st: State, r: string): nat {
    if r in st.payments && st.payments[r].status == SUCCESS then 1 else 0
  }

  /** The conservation law: a settled reference is worth exactly one block, which
      is granted, about to be granted, or lost to a failed step. */
  ghost predicate Conserved(st: State, r: string) {
    BlocksFor(st.blocks, r) + GrantsPending(st.threads, r) + (if r in st.lost then 1 else 0) == Settled(st, r)
  }

  ghost predicate Paid(st: State, t: nat)
    requires t < |st.threads|
  {
    var th := st.threads[t];
    th.phase.Settle? || th.phase.GrantTo? ==>
      th.charge.reference in st.payments && st.payments[th.charge.reference].amount <= th.charge.amount
  }

  ghost predicate Inv(st: State) {
    && (forall r :: Conserved(st, r))
    && (forall t | 0 <= t < |st.threads| :: Paid(st, t))
    && (forall b | b in st.blocks :: b.reference in st.payments && st.payments[b.reference].amount <= b.paid)
  }

  function IsPending(th: Thread, r: string): nat { if th.phase.GrantTo? && th.charge.reference == r then 1 else 0 }

  lemma {:induction false} PendingAfterUpdate(threads: seq<Thread>, t: nat, th: Thread, r: string)
    requires t < |threads|
    ensures GrantsPending(threads[t := th], r) ==
      GrantsPending(threads, r) - IsPending(threads[t], r) + IsPending(th, r)
    decreases |threads|
  {
    var n := |threads| - 1;
    if t < n {
      assert threads[t := th][..n] == threads[..n][t := th];
      PendingAfterUpdate(threads[..n], t, th, r);
    } else {
      assert threads[t := th][..n] == threads[..n];
    }
  }

  /** Moving a thread between phases without a grant in sight changes nothing that counts. */
  lemma MoveConserves(st: State, t: nat, phase: Phase, r: string)
    requires Conserved(st, r) && t < |st.threads| && !st.threads[t].phase.GrantTo? && !phase.GrantTo?
    ensures Conserved(At(st, t, phase), r)
  {
    PendingAfterUpdate(st.threads, t, st.threads[t].(phase := phase), r);
  }

  lemma SettleConserves(st: State, t: nat, answer: Answer, r: string)
    requires Inv(st) && t < |st.threads| && st.threads[t].phase.Settle?
    ensures Conserved(Call(st, t, answer), r)
  {
    var th := st.threads[t];
    var ref := th.charge.reference;
    assert Conserved(st, r);
    assert Conserved(st, ref);
    assert Paid(st, t);
    var st' := Call(st, t, answer);
    PendingAfterUpdate(st.threads, t, st'.threads[t], r);
    assert st'.threads == st.threads[t := st'.threads[t]];
    assert st'.blocks == st.blocks;
    if r != ref { assert Settled(st', r) == Settled(st, r); }
  }

  lemma GrantLost(st: State, t: nat, r: string)
    requires Conserved(st, r) && t < |st.threads| && st.threads[t].phase.GrantTo?
    ensures Conserved(At(st, t, Stopped).(lost := st.lost + {st.threads[t].charge.reference}), r)
  {
    PendingAfterUpdate(st.threads, t, st.threads[t].(phase := Stopped), r);
    PendingAtLeastOne(st.threads, t);
  }

  lemma GrantMade(st: State, t: nat, phase: Phase, b: Block, r: string)
    requires Conserved(st, r) && t < |st.threads| && st.threads[t].phase.GrantTo? && !phase.GrantTo?
    requires b.reference == st.threads[t].charge.reference
    ensures Conserved(At(st, t, phase).(blocks := st.blocks + [b]), r)
  {
    PendingAfterUpdate(st.threads, t, st.threads[t].(phase := phase), r);
    assert (st.blocks + [b])[..|st.blocks|] == st.blocks;
  }

  lemma CallConserves(st: State, t: nat, answer: Answer, r: string)
    requires Inv(st) && t < |st.threads|
    ensures Conserved(Call(st, t, answer), r)
  {
    var st' := Call(st, t, answer);
    assert Conserved(st, r);
    match st.threads[t].phase {
      case Settle => SettleConserves(st, t, answer, r);
      case GrantTo(user, plan) =>
        var th := st.threads[t];
        if answer == Refused { GrantLost(st, t, r); }
        else { GrantMade(st, t, st'.threads[t].phase, Block(th.charge.reference, user, plan, th.charge.amount), r); }
      case Done(_) =>
      case Stopped =>
      case _ =>
        MoveConserves(st, t, st'.threads[t].phase, r);
        assert At(st, t, st'.threads[t].phase).(receipts := st'.receipts) == st';
    }
  }

  lemma {:induction false} PendingAtLeastOne(threads: seq<Thread>, t: nat)
    requires t < |threads| && threads[t].phase.GrantTo?
    ensures GrantsPending(threads, threads[t].charge.reference) >= 1
    decreases |threads|
  {
    if t < |threads| - 1 { PendingAtLeastOne(threads[..|threads| - 1], t); }
  }

  lemma CallsLeavePricesAlone(st: State, t: nat, answer: Answer)
    requires t < |st.threads|
    ensures var st' := Call(st, t, answer);
            && (forall r | r in st.payments :: r in st'.payments && st'.payments[r].amount == st.payments[r].amount)
            && st'.threads == st.threads[t := st'.threads[t]] && st'.threads[t].charge == st.threads[t].charge
  {
  }

  lemma OwnCallKeepsPaid(st: State, t: nat, answer: Answer)
    requires t < |st.threads| && Paid(st, t)
    ensures Paid(Call(st, t, answer), t)
  {
  }

  lemma CallKeepsPaid(st: State, t: nat, answer: Answer)
    requires Inv(st) && t < |st.threads|
    ensures var st' := Call(st, t, answer);
            forall i | 0 <= i < |st'.threads| :: Paid(st', i)
  {
    var st' := Call(st, t, answer);
    CallsLeavePricesAlone(st, t, answer);
    OwnCallKeepsPaid(st, t, answer);
    forall i | 0 <= i < |st'.threads| && i != t ensures Paid(st', i) {
      assert st'.threads[i] == st.threads[i] && Paid(st, i);
    }
  }

  lemma CallKeepsPrices(st: State, t: nat, answer: Answer)
    requires Inv(st) && t < |st.threads|
    ensures var st' := Call(st, t, answer);
            forall b | b in st'.blocks :: b.reference in st'.payments && st'.payments[b.reference].amount <= b.paid
  {
    assert Paid(st, t);
  }

  lemma CallKeepsInv(st: State, t: nat, answer: Answer)
    requires Inv(st) && t < |st.threads|
    ensures Inv(Call(st, t, answer))
  {
    CallKeepsPaid(st, t, answer);
    CallKeepsPrices(st, t, answer);
    forall r ensures Conserved(Call(st, t, answer), r) {
      CallConserves(st, t, answer, r);
    }
  }

  lemma StepKeepsInv(st: State, e: Event)
    requires Inv(st)
    ensures Inv(Next(st, e))
  {
    var st' := Next(st, e);
    match e
    case Proceed(t, answer) => if t < |st.threads| { CallKeepsInv(st, t, answer); }
    case Initialize(ref, p) =>
      forall r ensures Conserved(st', r) { assert Conserved(st, r); }
      forall i | 0 <= i < |st'.threads| ensures Paid(st', i) { assert Paid(st, i); }
    case _ =>
      assert st'.threads[..|st.threads|] == st.threads;
      forall r ensures Conserved(st', r) { assert Conserved(st, r); }
      forall i | 0 <= i < |st'.threads| ensures Paid(st', i) { if i < |st.threads| { assert Paid(st, i); } }
  }

  lemma {:induction false} InvFrom(st: State, es: seq<Event>)
    requires Inv(st)
    ensures Inv(Run(st, es))
    decreases |es|
  {
    if es != [] {
      StepKeepsInv(st, es[0]);
      InvFrom(Next(st, es[0]), es[1..]);
    }
  }

  /** Under every interleaving of deliveries, verify calls and failures, a
      reference yields at most one time block, and none before it is settled;
      every block was paid for in full, as priced when the checkout was opened. */
  lemma AtMostOneBlockPerReference(es: seq<Event>, r: string)
    ensures var st := Run(INITIAL, es);
            && BlocksFor(st.blocks, r) <= Settled(st, r) <= 1
            && forall b | b in st.blocks :: b.reference in st.payments && st.payments[b.reference].amount <= b.paid
  {
    InvFrom(INITIAL, es);
    assert Conserved(Run(INITIAL, es), r);
  }

  /** Settling is for good, and a price once recorded stays. */
  lemma {:induction false} SuccessIsAbsorbing(st: State, es: seq<Event>, r: string)
    requires r in st.payments
    ensures var st' := Run(st, es);
            && r in st'.payments && st'.payments[r].amount == st.payments[r].amount
            && (st.payments[r].status == SUCCESS ==> st'.payments[r].status == SUCCESS)
            && |st.blocks| <= |st'.blocks| && st'.blocks[..|st.blocks|] == st.blocks
    decreases |es|
  {
    if es != [] {
      var st1 := Next(st, es[0]);
      SuccessIsAbsorbing(st1, es[1..], r);
      assert |st1.blocks| >= |st.blocks| && st1.blocks[..|st.blocks|] == st.blocks;
    }
  }

  /** The steps that settle a reference and leave it without its block: a first settle
      whose answer is not heard or that finds no user or plan to grant to, and a grant
      that is refused. */
  predicate Drops(st: State, e: Event, r: string) {
    && e.Proceed? && e.t < |st.threads| && st.threads[e.t].charge.reference == r
    && var th := st.threads[e.t];
       match th.phase
       case Settle =>
         && e.answer != Refused && r in st.payments && st.payments[r].status != SUCCESS
         && (e.answer == Unheard
             || (st.payments[r].user == "" && th.charge.metaUser == "")
             || (st.payments[r].plan == "" && th.charge.metaPlan == ""))
       case GrantTo(_, _) => e.answer == Refused
       case _ => false
  }

  predicate NothingDrops(st: State, es: seq<Event>, r: string)
    decreases |es|
  {
    es != [] ==> !Drops(st, es[0], r) && NothingDrops(Next(st, es[0]), es[1..], r)
  }

  lemma StepLosesExactlyWhen(st: State, e: Event, r: string)
    ensures r in Next(st, e).lost <==> r in st.lost || Drops(st, e, r)
  {
  }

  lemma {:induction false} LostExactlyWhen(st: State, es: seq<Event>, r: string)
    ensures r in Run(st, es).lost <==> r in st.lost || !NothingDrops(st, es, r)
    decreases |es|
  {
    if es != [] {
      StepLosesExactlyWhen(st, es[0], r);
      LostExactlyWhen(Next(st, es[0]), es[1..], r);
    }
  }

  /** Exactly once: in every run, a reference that is settled and whose grant is not
      still to be made has exactly one block if and only if no step dropped it. */
  lemma SettledMeansOneBlockExactlyWhen(es: seq<Event>, r: string)
    requires Settled(Run(INITIAL, es), r) == 1 && GrantsPending(Run(INITIAL, es).threads, r) == 0
    ensures BlocksFor(Run(INITIAL, es).blocks, r) == 1 <==> NothingDrops(INITIAL, es, r)
  {
    InvFrom(INITIAL, es);
    assert Conserved(Run(INITIAL, es), r);
    LostExactlyWhen(INITIAL, es, r);
  }

  lemma {:induction false} RunAppend(st: State, es: seq<Event>, later: seq<Event>)
    ensures Run(st, es + later) == Run(Run(st, es), later)
    decreases |es|
  {
    if es == [] {
      assert es + later == later;
    } else {
      assert (es + later)[1..] == es[1..] + later;
      RunAppend(Next(st, es[0]), es[1..], later);
    }
  }

  /** So once a covering charge's settle call has gone through, wherever in a run and
      whatever races with it, the reference has its block as soon as no grant of it is
      outstanding, if and only if nothing in the run dropped it. */
  lemma AQualifyingSettleLeavesOneBlock(es: seq<Event>, t: nat, later: seq<Event>)
    requires var st := Run(INITIAL, es);
             t < |st.threads| && st.threads[t].phase == Settle
    ensures var r := Run(INITIAL, es).threads[t].charge.reference;
            var whole := es + ([Proceed(t, Fine)] + later);
            var end := Run(INITIAL, whole);
            GrantsPending(end.threads, r) == 0 ==> (BlocksFor(end.blocks, r) == 1 <==> NothingDrops(INITIAL, whole, r))
  {
    var st := Run(INITIAL, es);
    var r := st.threads[t].charge.reference;
    InvFrom(INITIAL, es);
    assert Paid(st, t);
    var step := [Proceed(t, Fine)] + later;
    assert step[1..] == later;
    RunAppend(INITIAL, es, step);
    var next := Next(st, Proceed(t, Fine));
    assert next.payments[r].status == SUCCESS;
    SuccessIsAbsorbing(next, later, r);
    if GrantsPending(Run(INITIAL, es + step).threads, r) == 0 {
      SettledMeansOneBlockExactlyWhen(es + step, r);
    }
  }

  /** The calls thread t has still to make before its reference is settled. */
  function CallsToSettle(phase: Phase): nat {
    match phase
    case Record => 3
    case Lookup => 2
    case Settle => 1
    case _ => 0
  }

  function CallsOf(es: seq<Event>, t: nat): nat
    decreases |es|
  {
    if es == [] then 0 else (if es[0].Proceed? && es[0].t == t then 1 else 0) + CallsOf(es[1..], t)
  }

  /** Every call of thread t is answered. */
  predicate AllFine(es: seq<Event>, t: nat) {
    forall e | e in es && e.Proceed? && e.t == t :: e.answer == Fine
  }

  /** No other thread takes the receipt of event id. */
  predicate NobodyElseRecords(st: State, es: seq<Event>, t: nat, id: string)
    decreases |es|
  {
    es != [] ==>
      && !(es[0].Proceed? && es[0].t != t && es[0].t < |st.threads|
           && st.threads[es[0].t].phase == Record && st.threads[es[0].t].charge.eventId == id)
      && NobodyElseRecords(Next(st, es[0]), es[1..], t, id)
  }

  /** Thread t is on its way to settling a charge that covers its reference. */
  predicate OnItsWay(st: State, t: nat) {
    t < |st.threads| &&
    var th := st.threads[t];
    && th.charge.Covers(st.payments)
    && (th.phase == Record || th.phase == Lookup || th.phase == Settle)
    && (th.phase == Record ==> th.charge.kind == "charge.success" && th.charge.eventId !in st.receipts)
  }

  lemma OthersLeaveItOnItsWay(st: State, e: Event, t: nat)
    requires OnItsWay(st, t) && !(e.Proceed? && e.t == t)
    requires st.threads[t].phase == Record ==> NobodyElseRecords(st, [e], t, st.threads[t].charge.eventId)
    ensures OnItsWay(Next(st, e), t) && Next(st, e).threads[t] == st.threads[t]
  {
    if e.Proceed? && e.t < |st.threads| { CallsLeavePricesAlone(st, e.t, e.answer); }
  }

  lemma ItsCallsTakeItThere(st: State, t: nat)
    requires OnItsWay(st, t)
    ensures var (st', r) := (Call(st, t, Fine), st.threads[t].charge.reference);
            && t < |st'.threads| && st'.threads[t].charge == st.threads[t].charge
            && if st.threads[t].phase == Settle then Settled(st', r) == 1
               else OnItsWay(st', t) && CallsToSettle(st'.threads[t].phase) == CallsToSettle(st.threads[t].phase) - 1
  {
  }

  /** A covering charge whose calls are answered ends up settled, whatever interleaves. */
  lemma {:induction false} SettledInTheEnd(st: State, es: seq<Event>, t: nat)
    requires OnItsWay(st, t) && AllFine(es, t) && CallsOf(es, t) >= CallsToSettle(st.threads[t].phase)
    requires st.threads[t].phase == Record ==> NobodyElseRecords(st, es, t, st.threads[t].charge.eventId)
    ensures Settled(Run(st, es), st.threads[t].charge.reference) == 1
    decreases |es|
  {
    var (e, rest, r) := (es[0], es[1..], st.threads[t].charge.reference);
    assert e in es && forall x | x in rest :: x in es;
    var st' := Next(st, e);
    if !(e.Proceed? && e.t == t) {
      assert [e][1..] == [];
      OthersLeaveItOnItsWay(st, e, t);
      SettledInTheEnd(st', rest, t);
    } else {
      ItsCallsTakeItThere(st, t);
      if Settled(st', r) == 1 {
        SuccessIsAbsorbing(st', rest, r);
      } else {
        SettledInTheEnd(st', rest, t);
      }
    }
  }

  /** So once a covering charge arrives, in a fresh webhook or by a verify call, however
      much else runs in between, the answered calls of its thread settle the reference;
      and as soon as no grant of it is outstanding it has its one block, unless a step
      dropped it. */
  lemma AnArrivedChargeIsPaidOut(es: seq<Event>, c: Charge, webhook: bool, later: seq<Event>)
    requires var st := Run(INITIAL, es);
             && c.Covers(st.payments)
             && (webhook ==> c.kind == "charge.success" && c.eventId !in st.receipts
                             && NobodyElseRecords(Next(st, Deliver(c)), later, |st.threads|, c.eventId))
             && AllFine(later, |st.threads|) && CallsOf(later, |st.threads|) >= (if webhook then 3 else 2)
    ensures var whole := es + ([if webhook then Deliver(c) else Verified(c)] + later);
            var end := Run(INITIAL, whole);
            && Settled(end, c.reference) == 1
            && (GrantsPending(end.threads, c.reference) == 0 ==>
                  (BlocksFor(end.blocks, c.reference) == 1 <==> NothingDrops(INITIAL, whole, c.reference)))
  {
    var st := Run(INITIAL, es);
    var arrival := if webhook then Deliver(c) else Verified(c);
    var step := [arrival] + later;
    assert step[1..] == later;
    RunAppend(INITIAL, es, step);
    SettledInTheEnd(Next(st, arrival), later, |st.threads|);
    if GrantsPending(Run(INITIAL, es + step).threads, c.reference) == 0 {
      SettledMeansOneBlockExactlyWhen(es + step, c.reference);
    }
  }

  lemma {:induction false} LostStaysLost(st: State, es: seq<Event>)
    ensures st.lost <= Run(st, es).lost
    decreases |es|
  {
    if es != [] { LostStaysLost(Next(st, es[0]), es[1..]); }
  }

  /** A reference once dropped never yields a block, however often it is delivered or
      verified again: the payment already counts as settled. */
  lemma ALostGrantIsLostForGood(es: seq<Event>, later: seq<Event>, r: string)
    requires !NothingDrops(INITIAL, es, r)
    ensures BlocksFor(Run(INITIAL, es + later).blocks, r) == 0
  {
    var st := Run(INITIAL, es);
    LostExactlyWhen(INITIAL, es, r);
    RunAppend(INITIAL, es, later);
    InvFrom(INITIAL, es);
    InvFrom(st, later);
    LostStaysLost(st, later);
    assert Conserved(Run(st, later), r);
  }

  lemma {:induction false} RunSnoc(st: State, es: seq<Event>, e: Event)
    ensures Run(st, es + [e]) == Next(Run(st, es), e)
    decreases |es|
  {
    if es == [] {
      assert [e][1..] == [];
    } else {
      assert (es + [e])[1..] == es[1..] + [e];
      RunSnoc(Next(st, es[0]), es[1..], e);
    }
  }

  lemma Extend(es: seq<Event>, e: Event) returns (es': seq<Event>)
    ensures es' == es + [e] && Run(INITIAL, es') == Next(Run(INITIAL, es), e)
  {
    es' := es + [e];
    RunSnoc(INITIAL, es, e);
  }

  /** It comes to that when a covering charge of a priced reference settles and the
      grant then fails. */
  lemma AGrantCanBeLost(c: Charge, p: Payment) returns (es: seq<Event>)
    requires c.reference != "" && p.status == PENDING && p.user != "" && p.plan != "" && p.amount <= c.amount
    ensures !NothingDrops(INITIAL, es, c.reference)
  {
    es := [];
    es := Extend(es, Initialize(c.reference, p));
    es := Extend(es, Verified(c));
    es := Extend(es, Proceed(0, Fine));
    es := Extend(es, Proceed(0, Fine));
    es := Extend(es, Proceed(0, Refused));
    LostExactlyWhen(INITIAL, es, c.reference);
  }

  // ----------------------------------------------------------- the handlers

  datatype SettleError = NoReference | StoreFailed | NothingToGrant

  /** A thread's next call, while it is inside settleCharge. */
  function SettlingCall(st: State, t: nat, answer: Answer): (r: State)
    requires t < |st.threads|
    ensures |r.threads| == |st.threads|
  {
    var p := st.threads[t].phase;
    if p.Lookup? || p.Settle? || p.GrantTo? then Call(st, t, answer) else st
  }

  /** settleCharge as the calls of a lone thread, and a whole delivery. */
  function Settling(st: State, lookup: Answer, settle: Answer, grant: Answer): (r: State)
    requires |st.threads| == 1
    ensures |r.threads| == 1
  {
    SettlingCall(SettlingCall(SettlingCall(st, 0, lookup), 0, settle), 0, grant)
  }

  /** A fresh delivery from its receipt on, and a whole one. */
  function Handling(st: State, lookup: Answer, settle: Answer, grant: Answer, close: Answer): (r: State)
    requires |st.threads| == 1
    ensures |r.threads| == 1
  {
    var settled := Settling(st, lookup, settle, grant);
    if settled.threads[0].phase == Acknowledge then Call(settled, 0, close) else settled
  }

  function Delivery(st: State, record: Answer, lookup: Answer, settle: Answer, grant: Answer, close: Answer)
    : (r: State)
    requires |st.threads| == 1
    ensures |r.threads| == 1
  {
    var recorded := Call(st, 0, record);
    var phase := recorded.threads[0].phase;
    if phase == Lookup || phase == Acknowledge then Handling(recorded, lookup, settle, grant, close) else recorded
  }

  /** One handler at work, undisturbed: its calls are the calls of one thread above. */
  class PaymentServer {
    var payments: map<string, Payment>
    var receipts: set<string>
    var blocks: seq<Block>
    ghost var lost: set<string>

    ghost function With(th: Thread): State
      reads this
    {
      State(payments, receipts, [th], blocks, lost)
    }

    constructor ()
      ensures payments == map[] && receipts == {} && blocks == [] && lost == {}
    {
      payments, receipts, blocks, lost := map[], {}, [], {};
    }

    /** RecordWebhookEvent: false if this event was seen before. */
    method RecordWebhookEvent(eventId: string) returns (isNew: bool)
      modifies this`receipts
      ensures receipts == old(receipts) + {eventId}
      ensures isNew <==> eventId !in old(receipts)
    {
      isNew := eventId !in receipts;
      receipts := receipts + {eventId};
    }

    /** settleCharge, whose lookup comes first. */
    method SettleCharge(c: Charge, lookup: Answer, settle: Answer, grant: Answer, ghost webhook: bool)
      returns (r: Result<bool, SettleError>)
      modifies this`payments, this`blocks, this`lost
      ensures var end := Settling(old(With(Thread(c, webhook, Lookup))), lookup, settle, grant);
              && With(end.threads[0]) == end
              && (r.Failure? <==> end.threads[0].phase == Stopped)
              && (r.Success? ==> end.threads[0].phase == Finish(Thread(c, webhook, Lookup), r.value))
      // In the handler's own terms: what it settles, and that the first covering charge
      // of a reference, and no other, adds a block, the buyer's own.
      ensures payments == if lookup == Fine && c.Covers(old(payments)) && settle != Refused then
                            old(payments)[c.reference := old(payments)[c.reference].(status := SUCCESS)]
                          else old(payments)
      ensures blocks == if lookup == Fine && c.Earns(old(payments)) && settle == Fine && grant != Refused then
                          var row := old(payments)[c.reference];
                          old(blocks) + [Block(c.reference, c.BuyerOf(row), c.PlanOf(row), c.amount)]
                        else old(blocks)
      ensures r == Result.Success(true) <==>
                lookup == Fine && c.Earns(old(payments)) && settle == Fine && grant == Fine
    {
      ghost var start := With(Thread(c, webhook, Lookup));
      ghost var s1 := SettlingCall(start, 0, lookup);
      if c.reference == "" {
        return Failure(NoReference);
      }
      if lookup != Fine || c.reference !in payments {
        return Result.Success(false);
      }
      if c.amount < payments[c.reference].amount {
        return Result.Success(false);
      }
      assert s1 == With(Thread(c, webhook, Settle));
      r := SettleAccepted(c, settle, grant, webhook);
    }

    /** settleCharge, once the charge covers the price. */
    method SettleAccepted(c: Charge, settle: Answer, grant: Answer, ghost webhook: bool)
      returns (r: Result<bool, SettleError>)
      requires c.reference in payments
      modifies this`payments, this`blocks, this`lost
      ensures var start := old(With(Thread(c, webhook, Settle)));
              var end := SettlingCall(SettlingCall(start, 0, settle), 0, grant);
              && With(end.threads[0]) == end
              && (r.Failure? <==> end.threads[0].phase == Stopped)
              && (r.Success? ==> end.threads[0].phase == Finish(Thread(c, webhook, Settle), r.value))
      ensures payments == if settle != Refused then
                            old(payments)[c.reference := old(payments)[c.reference].(status := SUCCESS)]
                          else old(payments)
      ensures var row := old(payments)[c.reference];
              var earns := row.status != SUCCESS && c.BuyerOf(row) != "" && c.PlanOf(row) != "" && settle == Fine;
              && blocks == (if earns && grant != Refused then
                              old(blocks) + [Block(c.reference, c.BuyerOf(row), c.PlanOf(row), c.amount)]
                            else old(blocks))
              && (r == Result.Success(true) <==> earns && grant == Fine)
    {
      if settle == Refused {
        return Failure(StoreFailed);
      }
      if payments[c.reference].status == SUCCESS {
        return if settle == Fine then Result.Success(false) else Failure(StoreFailed);
      }
      var settled := payments[c.reference].(status := SUCCESS);
      payments := payments[c.reference := settled];
      if settle == Unheard {
        lost := lost + {c.reference};
        return Failure(StoreFailed);
      }
      r := GrantFor(c, settled, grant);
    }

    /** settleCharge, once its update was the first. */
    method GrantFor(c: Charge, settled: Payment, grant: Answer) returns (r: Result<bool, SettleError>)
      modifies this`blocks, this`lost
      ensures var (user, plan) := (c.BuyerOf(settled), c.PlanOf(settled));
              if user == "" || plan == "" then
                r == Failure(NothingToGrant) && blocks == old(blocks) && lost == old(lost) + {c.reference}
              else if grant == Refused then
                r == Failure(StoreFailed) && blocks == old(blocks) && lost == old(lost) + {c.reference}
              else
                && r == (if grant == Fine then Result.Success(true) else Failure(StoreFailed))
                && blocks == old(blocks) + [Block(c.reference, user, plan, c.amount)] && lost == old(lost)
    {
      var user, plan := settled.user, settled.plan;
      if user == "" { user := c.metaUser; }
      if plan == "" { plan := c.metaPlan; }
      if user == "" || plan == "" {
        lost := lost + {c.reference};
        return Failure(NothingToGrant);
      }
      if grant == Refused {
        lost := lost + {c.reference};
        return Failure(StoreFailed);
      }
      blocks := blocks + [Block(c.reference, user, plan, c.amount)];
      return if grant == Fine then Result.Success(true) else Failure(StoreFailed);
    }

    /** The event once recorded: a successful charge is settled, anything else ignored. */
    method HandleEvent(c: Charge, lookup: Answer, settle: Answer, grant: Answer, close: Answer)
      returns (ok: bool)
      modifies this`payments, this`blocks, this`lost
      ensures var phase := if c.kind == "charge.success" then Lookup else Acknowledge;
              var end := Handling(old(With(Thread(c, true, phase))), lookup, settle, grant, close);
              && With(end.threads[0]) == end
              && (ok <==> end.threads[0].phase.Done?)
      ensures payments == if c.kind == "charge.success" && lookup == Fine && c.Covers(old(payments))
                             && settle != Refused then
                            old(payments)[c.reference := old(payments)[c.reference].(status := SUCCESS)]
                          else old(payments)
      ensures blocks == if c.kind == "charge.success" && lookup == Fine && c.Earns(old(payments)) && settle == Fine
                           && grant != Refused then
                          var row := old(payments)[c.reference];
                          old(blocks) + [Block(c.reference, c.BuyerOf(row), c.PlanOf(row), c.amount)]
                        else old(blocks)
    {
      if c.kind == "charge.success" {
        var r := SettleCharge(c, lookup, settle, grant, true);
        if r.Failure? {
          return false;
        }
      }
      ok := close == Fine;
    }

    /** A delivery is a thread from its receipt on. It does nothing the second time,
        whatever became of the first. */
    method ProcessWebhook(c: Charge, record: Answer, lookup: Answer, settle: Answer, grant: Answer, close: Answer)
      returns (ok: bool)
      modifies this
      ensures var end := Delivery(old(With(Thread(c, true, Record))), record, lookup, settle, grant, close);
              && With(end.threads[0]) == end
              && (ok <==> end.threads[0].phase.Done?)
      // In the handler's own terms: the first delivery of a successful charge settles it
      // and adds the block it earned; any other delivery leaves at most a receipt.
      ensures receipts == if record == Refused then old(receipts) else old(receipts) + {c.eventId}
      ensures var first := record == Fine && c.eventId !in old(receipts) && c.kind == "charge.success";
              && payments == (if first && lookup == Fine && c.Covers(old(payments)) && settle != Refused then
                                old(payments)[c.reference := old(payments)[c.reference].(status := SUCCESS)]
                              else old(payments))
              && blocks == (if first && lookup == Fine && c.Earns(old(payments)) && settle == Fine
                               && grant != Refused then
                              var row := old(payments)[c.reference];
                              old(blocks) + [Block(c.reference, c.BuyerOf(row), c.PlanOf(row), c.amount)]
                            else old(blocks))
    {
      ghost var start := With(Thread(c, true, Record));
      if record == Refused {
        return false;
      }
      var isNew := RecordWebhookEvent(c.eventId);
      ghost var recorded := Call(start, 0, record);
      assert recorded == With(recorded.threads[0]);
      if record == Unheard {
        return false;
      }
      if !isNew {
        return true;
      }
      assert recorded == With(Thread(c, true, if c.kind == "charge.success" then Lookup else Acknowledge));
      ok := HandleEvent(c, lookup, settle, grant, close);
    }
  }
}

/**
 A run of LocationSwitch in which a switch back and forth leaves the device with
 nothing, and the next request does not notice: a worker's removal, read before the
 switch back, lands after it.
 */
module LateRemoval {
  import opened Prelude
  import opened PeerRows
  import opened LocationSwitch
  import A = Acknowledgement
  import CP = ControlPlane

  const KEY := Key(0, 0)
  const SUBNETS: Subnets := map[0 := 2, 1 := 2]
  const START := State(CP.INITIAL, Idle, [])

  /** Device 0's row on a server, at some revision. */
  function RowAt(s: ServerId, state: PeerState, revision: nat, applied: nat): Row {
    FreshRow(0, s, KEY, 2, 0).(state := state, revision := revision, applied := applied,
                               activatedAt := if applied == 0 then None else Some(0))
  }

  lemma Extend(es: seq<Event>, e: Event) returns (es': seq<Event>)
    ensures es' == es + [e] && Run(START, SUBNETS, 0, es') == Next(Run(START, SUBNETS, 0, es), SUBNETS, 0, e)
  {
    es' := es + [e];
    RunSnoc(START, SUBNETS, 0, es, e);
  }

  /** One request for server s whose push is answered and recorded, and whose revoke
      write lands. */
  lemma SwitchTo(es: seq<Event>, s: ServerId) returns (es': seq<Event>)
    ensures es' == es + [Begin([s])] + [Attempt(0)] + [EdgeReplies(Ok(true), 0, "", 0)] + [RevokeOthers(true, 0)]
    ensures var st0 := Run(START, SUBNETS, 0, es);
            var st1 := Next(Next(st0, SUBNETS, 0, Begin([s])), SUBNETS, 0, Attempt(0));
            var st2 := Next(st1, SUBNETS, 0, EdgeReplies(Ok(true), 0, "", 0));
            Run(START, SUBNETS, 0, es') == Next(st2, SUBNETS, 0, RevokeOthers(true, 0))
  {
    es' := Extend(es, Begin([s]));
    es' := Extend(es', Attempt(0));
    es' := Extend(es', EdgeReplies(Ok(true), 0, "", 0));
    es' := Extend(es', RevokeOthers(true, 0));
  }

  /** On server 0 first, then on server 1, with the removal from server 0 read. */
  lemma AwayAndRead() returns (es: seq<Event>)
    ensures var st := Run(START, SUBNETS, 0, es);
            && st.request == Idle && st.cp.made == map[]
            && st.cp.rows == [RowAt(0, Revoking, 2, 1), RowAt(1, Active, 1, 1)]
            && st.cp.On(0) == {KEY} && st.cp.On(1) == {KEY}
            && st.readings == [OfRow(A.Snapshot(0, st.cp.rows[0]))]
  {
    var empty: Rows := [];
    assert Pow2(2) == 2 * Pow2(1) == 4;
    assert !Taken(empty, 0, 2);
    es := SwitchTo([], 0);
    var st := Run(START, SUBNETS, 0, es);
    assert st.cp.rows == [RowAt(0, Active, 1, 1)];
    assert !Taken(st.cp.rows, 1, 2);
    es := SwitchTo(es, 1);
    es := Extend(es, Read(0));
  }

  /** Back on server 0, which serves alone. */
  lemma AndBack() returns (es: seq<Event>)
    ensures var st := Run(START, SUBNETS, 0, es);
            && st.request == Idle && st.cp.made == map[]
            && st.cp.rows == [RowAt(0, Active, 3, 3), RowAt(1, Revoking, 2, 1)]
            && st.cp.On(0) == {KEY}
            && st.readings == [OfRow(A.Snapshot(0, RowAt(0, Revoking, 2, 1)))]
  {
    es := AwayAndRead();
    assert FindHeld(Run(START, SUBNETS, 0, es).cp.rows, 0, 0) == Some(0);
    es := SwitchTo(es, 0);
  }

  /** Then the removal lands. The table shows an active, applied row and nothing serves;
      a further request finds that row, makes no call and reports success. */
  lemma ALateRemovalLeavesNothing() returns (es: seq<Event>)
    ensures var st := Run(START, SUBNETS, 0, es);
            && Served(st.cp, 0) && OpensGap(st, Late(0, Landed, true, 0, "", 0), 0)
            && var lost := Next(st, SUBNETS, 0, Late(0, Landed, true, 0, "", 0));
            && !Served(lost.cp, 0) && lost.cp.rows[0].Applied()
            && var again := Next(Next(lost, SUBNETS, 0, Begin([0])), SUBNETS, 0, Attempt(0));
            && again.request == Installed(0) && !Served(again.cp, 0)
  {
    es := AndBack();
    var st := Run(START, SUBNETS, 0, es);
    assert Serves(st.cp, 0, 0);
    var lost := Next(st, SUBNETS, 0, Late(0, Landed, true, 0, "", 0));
    assert lost.cp.rows == st.cp.rows && lost.cp.On(0) == {};
    assert FindHeld(lost.cp.rows, 0, 0) == Some(0);
  }
}

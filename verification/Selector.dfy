/** The choice of servers for a request (server/internal/provision/selector.go). */
module Selector {
  import opened Prelude

  type Code = string

  datatype Status = ACTIVE | DRAINING | DOWN | MAINTENANCE

  /** Country codes are compared without regard to case; here they are folded already. */
  datatype Server = Server(
    id: nat,
    code: Code,
    country: string,
    priority: int,
    capacity: int,
    livePeers: int,
    status: Status)

  datatype SelectError = NoServer | StoreFailed

  /** Codes in byte order. */
  predicate Before(a: Code, b: Code) {
    b != [] && (a == [] || a[0] < b[0] || (a[0] == b[0] && Before(a[1..], b[1..])))
  }

  predicate AtCapacity(s: Server) { s.capacity > 0 && s.livePeers >= s.capacity }

  predicate Home(s: Server, cc: string) { cc != "" && s.country == cc }

  /** The comparison the sort is given. */
  predicate Less(a: Server, b: Server, cc: string) {
    if AtCapacity(a) != AtCapacity(b) then !AtCapacity(a)
    else if a.priority != b.priority then a.priority < b.priority
    else if Home(a, cc) != Home(b, cc) then Home(a, cc)
    else if a.livePeers != b.livePeers then a.livePeers < b.livePeers
    else Before(a.code, b.code)
  }

  // ----------------------------------------------------- a strict order

  lemma {:induction false} BeforeIsAnOrder(a: Code, b: Code, c: Code)
    ensures !Before(a, a)
    ensures Before(a, b) && Before(b, c) ==> Before(a, c)
    ensures a != b ==> Before(a, b) || Before(b, a)
    decreases |a| + |b| + |c|
  {
    var a', b', c' := if a == [] then a else a[1..], if b == [] then b else b[1..], if c == [] then c else c[1..];
    if a != [] || b != [] || c != [] {
      BeforeIsAnOrder(a', b', c');
    }
    if a != [] && b != [] && a[0] == b[0] && a[1..] == b[1..] {
      assert a == [a[0]] + a[1..] == b;
    }
  }

  /** Less is a strict total order on servers with different codes. */
  lemma LessIsAStrictTotalOrder(a: Server, b: Server, c: Server, cc: string)
    ensures !Less(a, a, cc)
    ensures Less(a, b, cc) && Less(b, c, cc) ==> Less(a, c, cc)
    ensures a.code != b.code ==> Less(a, b, cc) || Less(b, a, cc)
    ensures !(Less(a, b, cc) && Less(b, a, cc))
  {
    BeforeIsAnOrder(a.code, b.code, c.code);
    BeforeIsAnOrder(a.code, b.code, a.code);
  }

  // -------------------------------------------------------------- sorting

  /** Stable insertion at the end, moving x past what it precedes. */
  function Insert(s: seq<Server>, x: Server, cc: string): (r: seq<Server>)
    ensures |r| == |s| + 1
  {
    if s == [] || !Less(x, s[|s| - 1], cc) then s + [x]
    else Insert(s[..|s| - 1], x, cc) + [s[|s| - 1]]
  }

  function Sort(s: seq<Server>, cc: string): (r: seq<Server>)
    ensures |r| == |s|
  {
    if s == [] then [] else Insert(Sort(s[..|s| - 1], cc), s[|s| - 1], cc)
  }

  ghost predicate Ordered(s: seq<Server>, cc: string) {
    forall i, j | 0 <= i < j < |s| :: Less(s[i], s[j], cc)
  }

  predicate UniqueCodes(s: seq<Server>) {
    forall i, j | 0 <= i < j < |s| :: s[i].code != s[j].code
  }

  lemma {:induction false} InsertPermutes(s: seq<Server>, x: Server, cc: string)
    ensures multiset(Insert(s, x, cc)) == multiset(s) + multiset{x}
  {
    if !(s == [] || !Less(x, s[|s| - 1], cc)) {
      InsertPermutes(s[..|s| - 1], x, cc);
      assert s == s[..|s| - 1] + [s[|s| - 1]];
    }
  }

  lemma {:induction false} SortPermutes(s: seq<Server>, cc: string)
    ensures multiset(Sort(s, cc)) == multiset(s)
  {
    if s != [] {
      SortPermutes(s[..|s| - 1], cc);
      InsertPermutes(Sort(s[..|s| - 1], cc), s[|s| - 1], cc);
      assert s == s[..|s| - 1] + [s[|s| - 1]];
    }
  }

  lemma {:induction false} InsertOrders(s: seq<Server>, x: Server, cc: string)
    requires Ordered(s, cc) && forall y | y in s :: y.code != x.code
    ensures Ordered(Insert(s, x, cc), cc)
  {
    if s == [] {
    } else {
      var front, last := s[..|s| - 1], s[|s| - 1];
      LessIsAStrictTotalOrder(x, last, last, cc);
      if Less(x, last, cc) {
        InsertOrders(front, x, cc);
        InsertPermutes(front, x, cc);
        var placed := Insert(front, x, cc);
        forall i | 0 <= i < |placed| ensures Less(placed[i], last, cc) {
          assert placed[i] in multiset(placed);
        }
      } else {
        forall i | 0 <= i < |s| ensures Less(s[i], x, cc) {
          LessIsAStrictTotalOrder(s[i], last, x, cc);
        }
      }
    }
  }

  lemma {:induction false} SortOrders(s: seq<Server>, cc: string)
    requires UniqueCodes(s)
    ensures Ordered(Sort(s, cc), cc)
  {
    if s != [] {
      var front := s[..|s| - 1];
      SortOrders(front, cc);
      SortPermutes(front, cc);
      forall y | y in Sort(front, cc) ensures y.code != s[|s| - 1].code {
        assert y in multiset(front);
      }
      InsertOrders(Sort(front, cc), s[|s| - 1], cc);
    }
  }

  lemma HeadsAgree(a: seq<Server>, b: seq<Server>, cc: string)
    requires Ordered(a, cc) && Ordered(b, cc) && multiset(a) == multiset(b) && a != [] && b != []
    ensures a[0] == b[0]
  {
    assert a[0] in multiset(b) && b[0] in multiset(a);
    var i :| 0 <= i < |b| && b[i] == a[0];
    var j :| 0 <= j < |a| && a[j] == b[0];
    LessIsAStrictTotalOrder(a[0], b[0], a[0], cc);
  }

  lemma TailsAgree(a: seq<Server>, b: seq<Server>)
    requires a != [] && b != [] && a[0] == b[0] && multiset(a) == multiset(b)
    ensures multiset(a[1..]) == multiset(b[1..])
  {
    assert a == [a[0]] + a[1..] && b == [b[0]] + b[1..];
    assert multiset(a[1..]) == multiset(a) - multiset{a[0]};
    assert multiset(b[1..]) == multiset(b) - multiset{b[0]};
  }

  /** An ordered sequence is determined by what it holds. */
  lemma {:induction false} OrderedIsUnique(a: seq<Server>, b: seq<Server>, cc: string)
    requires Ordered(a, cc) && Ordered(b, cc) && multiset(a) == multiset(b)
    ensures a == b
  {
    assert |a| == |multiset(a)| == |multiset(b)| == |b|;
    if a != [] {
      HeadsAgree(a, b, cc);
      TailsAgree(a, b);
      OrderedIsUnique(a[1..], b[1..], cc);
      assert a == [a[0]] + a[1..] && b == [b[0]] + b[1..];
    }
  }

  /** Sorting gives the one ordered permutation: no other order the store answers
      in, and no other correct way of sorting, changes the outcome. */
  lemma SortIsCanonical(s: seq<Server>, other: seq<Server>, cc: string)
    requires UniqueCodes(s) && multiset(other) == multiset(s)
    ensures Ordered(Sort(s, cc), cc) && multiset(Sort(s, cc)) == multiset(s)
    ensures Ordered(other, cc) ==> other == Sort(s, cc)
    ensures UniqueCodes(other) ==> Sort(other, cc) == Sort(s, cc)
  {
    SortOrders(s, cc);
    SortPermutes(s, cc);
    if Ordered(other, cc) { OrderedIsUnique(other, Sort(s, cc), cc); }
    if UniqueCodes(other) {
      SortOrders(other, cc);
      SortPermutes(other, cc);
      OrderedIsUnique(Sort(other, cc), Sort(s, cc), cc);
    }
  }

  method StepDown(a: array<Server>, j: nat)
    requires 0 < j < a.Length
    modifies a
    ensures a[j] == old(a[j - 1]) && a[j - 1] == old(a[j])
    ensures forall k | 0 <= k < a.Length && k != j && k != j - 1 :: a[k] == old(a[k])
  {
    a[j], a[j - 1] := a[j - 1], a[j];
  }

  /** Moves the server at i down past those it precedes. */
  method Sink(a: array<Server>, i: nat, cc: string)
    requires i < a.Length
    modifies a
    ensures a[..i + 1] == Insert(old(a[..i]), old(a[i]), cc)
    ensures a[i + 1..] == old(a[i + 1..])
  {
    ghost var front, x := a[..i], a[i];
    ghost var moved: seq<Server> := [];
    var j: nat := i;
    assert front[..i] == front;
    while j > 0 && Less(a[j], a[j - 1], cc)
      invariant j <= i && a[j] == x && |moved| == i - j
      invariant forall k | 0 <= k < j :: a[k] == front[k]
      invariant forall k | j < k <= i :: a[k] == moved[k - j - 1]
      invariant forall k | i < k < a.Length :: a[k] == old(a[k])
      invariant Insert(front[..j], x, cc) + moved == Insert(front, x, cc)
      decreases j
    {
      assert front[..j][..j - 1] == front[..j - 1];
      assert Insert(front[..j], x, cc) == Insert(front[..j - 1], x, cc) + [front[j - 1]];
      moved := [front[j - 1]] + moved;
      StepDown(a, j);
      j := j - 1;
    }
    ghost var placed := (front[..j] + [x]) + moved;
    assert placed == Insert(front, x, cc);
    assert forall k | 0 <= k <= i :: a[k] == placed[k];
  }

  /** sortServers, in place. */
  method SortServers(a: array<Server>, cc: string)
    modifies a
    ensures a[..] == Sort(old(a[..]), cc)
  {
    ghost var was := a[..];
    for i := 0 to a.Length
      invariant a[..i] == Sort(was[..i], cc)
      invariant a[i..] == was[i..]
    {
      assert was[..i + 1][..i] == was[..i] && a[i] == was[i];
      assert a[i..][1..] == a[i + 1..];
      Sink(a, i, cc);
    }
    assert a[..] == a[..a.Length] && was[..a.Length] == was;
  }

  // ----------------------------------------------------------- candidates

  function Without(s: seq<Server>, id: nat): seq<Server> {
    if s == [] then []
    else Without(s[..|s| - 1], id) + (if s[|s| - 1].id == id then [] else [s[|s| - 1]])
  }

  /** The servers to try. active is the store's list of active servers, if it
      answered; named is what the store has under the requested code; code is
      trimmed and in lower case. */
  function Choose(active: Option<seq<Server>>, named: Option<Server>, code: Code, cc: string)
    : Result<seq<Server>, SelectError>
  {
    if active.None? then Failure(StoreFailed)
    else if code != "" && code != "auto" then
      if named.None? || named.value.status != ACTIVE then Failure(NoServer)
      else Success([named.value] + Sort(Without(active.value, named.value.id), cc))
    else if active.value == [] then Failure(NoServer)
    else Success(Sort(active.value, cc))
  }

  method Candidates(active: Option<seq<Server>>, named: Option<Server>, code: Code, cc: string)
    returns (r: Result<seq<Server>, SelectError>)
    ensures r == Choose(active, named, code, cc)
  {
    if active.None? { return Failure(StoreFailed); }
    var list := active.value;
    if code != "" && code != "auto" {
      if named.None? { return Failure(NoServer); }
      var chosen := named.value;
      if chosen.status != ACTIVE { return Failure(NoServer); }
      var rest: seq<Server> := [];
      for i := 0 to |list|
        invariant rest == Without(list[..i], chosen.id)
      {
        assert list[..i + 1][..i] == list[..i];
        if list[i].id != chosen.id { rest := rest + [list[i]]; }
      }
      assert list[..|list|] == list;
      var a := new Server[|rest|](i requires 0 <= i < |rest| => rest[i]);
      assert a[..] == rest;
      SortServers(a, cc);
      return Success([chosen] + a[..]);
    }
    if list == [] { return Failure(NoServer); }
    var a := new Server[|list|](i requires 0 <= i < |list| => list[i]);
    assert a[..] == list;
    SortServers(a, cc);
    return Success(a[..]);
  }

  // ------------------------------------------- what the choice amounts to

  /** The table behind both queries, read at one moment. */
  ghost predicate Table(servers: seq<Server>) {
    && UniqueCodes(servers)
    && forall i, j | 0 <= i < j < |servers| :: servers[i].id != servers[j].id
  }

  ghost predicate Actives(active: seq<Server>, servers: seq<Server>) {
    && Table(active)
    && forall s :: s in active <==> s in servers && s.status == ACTIVE
  }

  ghost predicate Named(named: Option<Server>, servers: seq<Server>, code: Code) {
    match named
    case None => forall s | s in servers :: s.code != code
    case Some(n) => n in servers && n.code == code
  }

  /** The order users see: servers with room first; among those alike in that, the lower
      priority number; then the user's own country; then fewer users on it; then the code. */
  ghost predicate BestFirst(s: seq<Server>, cc: string) {
    forall i, j | 0 <= i < j < |s| ::
      var (a, b) := (s[i], s[j]);
      && (AtCapacity(a) ==> AtCapacity(b))
      && (AtCapacity(a) == AtCapacity(b) ==>
            && a.priority <= b.priority
            && (a.priority == b.priority ==>
                  && (cc != "" && b.country == cc ==> a.country == cc)
                  && ((a.country == cc <==> b.country == cc) || cc == "" ==>
                        && a.livePeers <= b.livePeers
                        && (a.livePeers == b.livePeers ==> Before(a.code, b.code)))))
  }

  lemma OrderedIsBestFirst(s: seq<Server>, cc: string)
    requires Ordered(s, cc)
    ensures BestFirst(s, cc)
  {
    forall i, j | 0 <= i < j < |s| ensures Less(s[i], s[j], cc) {
    }
  }

  /** Automatic choice fails only when no server is active; otherwise it offers each
      active server once, best first. */
  lemma AutomaticChoice(servers: seq<Server>, active: seq<Server>, named: Option<Server>, code: Code, cc: string)
    requires Actives(active, servers) && (code == "" || code == "auto")
    ensures var r := Choose(Some(active), named, code, cc);
            && (r == Failure(NoServer) <==> forall s | s in servers :: s.status != ACTIVE)
            && (r.Success? ==>
                  && multiset(r.value) == multiset(active) && BestFirst(r.value, cc))
  {
    SortIsCanonical(active, active, cc);
    if active != [] { assert active[0] in servers; }
    if active != [] { OrderedIsBestFirst(Sort(active, cc), cc); }
  }

  lemma {:induction false} WithoutMembers(s: seq<Server>, id: nat)
    ensures forall x :: x in Without(s, id) <==> x in s && x.id != id
  {
    if s != [] {
      assert s == s[..|s| - 1] + [s[|s| - 1]];
      WithoutMembers(s[..|s| - 1], id);
    }
  }

  lemma {:induction false} WithoutKeepsCodes(s: seq<Server>, id: nat)
    requires UniqueCodes(s)
    ensures UniqueCodes(Without(s, id))
  {
    if s != [] {
      var front, last := s[..|s| - 1], s[|s| - 1];
      WithoutKeepsCodes(front, id);
      WithoutMembers(front, id);
      forall x | x in Without(front, id) ensures x.code != last.code {
        assert x in front;
      }
    }
  }

  lemma {:induction false} NothingToDrop(s: seq<Server>, id: nat)
    requires forall i | 0 <= i < |s| :: s[i].id != id
    ensures Without(s, id) == s
  {
    if s != [] {
      NothingToDrop(s[..|s| - 1], id);
      assert s == s[..|s| - 1] + [s[|s| - 1]];
    }
  }

  lemma FrontIsATable(s: seq<Server>)
    requires Table(s) && s != []
    ensures Table(s[..|s| - 1])
    ensures forall x | x in s[..|s| - 1] :: x.id != s[|s| - 1].id
  {
  }

  /** Dropping a server and putting it back in front loses nothing. */
  lemma {:induction false} WithoutDropsOne(s: seq<Server>, n: Server)
    requires Table(s) && n in s
    ensures multiset{n} + multiset(Without(s, n.id)) == multiset(s)
  {
    var front, last := s[..|s| - 1], s[|s| - 1];
    assert s == front + [last];
    FrontIsATable(s);
    if last == n {
      NothingToDrop(front, n.id);
    } else {
      WithoutDropsOne(front, n);
      assert last.id != n.id;
      assert Without(s, n.id) == Without(front, n.id) + [last];
    }
  }

  /** A named server that is active comes first, followed by every other active
      server exactly once, best first; a name that is unknown or not active is
      refused even if other servers could serve. */
  lemma ExplicitChoice(servers: seq<Server>, active: seq<Server>, named: Option<Server>, code: Code, cc: string)
    requires Table(servers) && Actives(active, servers) && Named(named, servers, code)
    requires code != "" && code != "auto"
    ensures var r := Choose(Some(active), named, code, cc);
            && (r == Failure(NoServer) <==> forall s | s in servers && s.code == code :: s.status != ACTIVE)
            && (r.Success? ==>
                  && |r.value| > 0 && r.value[0].code == code
                  && multiset(r.value) == multiset(active)
                  && Ordered(r.value[1..], cc) && BestFirst(r.value[1..], cc))
  {
    var r := Choose(Some(active), named, code, cc);
    if named.Some? {
      OnlyOneMatches(servers, named.value);
      if named.value.status == ACTIVE {
        ChosenFirst(active, named.value, cc);
        assert r.value[1..] == Sort(Without(active, named.value.id), cc);
        OrderedIsBestFirst(r.value[1..], cc);
      }
    }
  }

  lemma OnlyOneMatches(servers: seq<Server>, n: Server)
    requires Table(servers) && n in servers
    ensures forall s | s in servers && (s.code == n.code || s.id == n.id) :: s == n
  {
    var at :| 0 <= at < |servers| && servers[at] == n;
    forall s | s in servers && (s.code == n.code || s.id == n.id) ensures s == n {
      var k :| 0 <= k < |servers| && servers[k] == s;
    }
  }

  lemma ChosenFirst(active: seq<Server>, n: Server, cc: string)
    requires Table(active) && n in active
    ensures var rest := Sort(Without(active, n.id), cc);
            multiset([n] + rest) == multiset(active) && Ordered(rest, cc)
  {
    var rest := Without(active, n.id);
    WithoutKeepsCodes(active, n.id);
    SortIsCanonical(rest, rest, cc);
    WithoutDropsOne(active, n);
  }
}

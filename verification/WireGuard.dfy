/**
 The edge box's WireGuard interface and the client that drives it with the wg
 tool (edge/internal/wg/wg.go). One allowed address belongs to one peer: setting
 it on a peer takes it from whichever peer had it. The agent runs one request at
 a time, so nothing else changes the interface during a call.
 */
module WireGuard {
  import opened Prelude
  import opened PeerRows

  type Ip = int

  datatype Cidr = Cidr(ip: Ip, bits: nat)

  /** Peers and their allowed addresses, in the order wg lists them. */
  type Peers = map<Key, seq<Cidr>>

  /** A key as text: base64 of 32 bytes has several spellings, of which spelling 0
      is the canonical one. */
  datatype Text = Empty | Malformed | Spelled(key: Key, spelling: nat)

  /** A requested peer; no address stands for netip's zero Addr. */
  datatype Peer = Peer(publicKey: Text, tunnelIp: Option<Ip>)

  datatype Error = InvalidKey | InvalidIp | CommandFailed

  type Outcome = Result<(), Error>

  /** What becomes of a command: one that reports failure may have taken effect. */
  datatype Fate = Done | Refused | Lost

  function ValidateKey(t: Text): Result<Key, Error> {
    if t.Spelled? then Success(t.key) else Failure(InvalidKey)
  }

  // ------------------------------------------------------- the interface

  function Host(ip: Ip): Cidr { Cidr(ip, 32) }

  /** The list without the addresses gone, order kept. */
  function Strip(list: seq<Cidr>, gone: set<Cidr>): (r: seq<Cidr>)
    ensures |r| <= |list|
    ensures forall c :: c in r <==> c in list && c !in gone
    ensures list != [] && list[0] !in gone ==> r != [] && r[0] == list[0]
  {
    if list == [] then []
    else if list[0] in gone then Strip(list[1..], gone)
    else [list[0]] + Strip(list[1..], gone)
  }

  /** wg set peer k allowed-ips ip/32. */
  function Assign(m: Peers, k: Key, ip: Ip): Peers {
    map j | j in m.Keys + {k} :: if j == k then [Host(ip)] else Strip(m[j], {Host(ip)})
  }

  /** wg set peer k remove. */
  function Remove(m: Peers, k: Key): Peers { m - {k} }

  /** WireGuard's rule: no address on two peers. */
  ghost predicate Unique(m: Peers) {
    forall j, k, c | j in m && k in m && c in m[j] && c in m[k] :: j == k
  }

  /** What an interface driven by this client alone looks like: one host address a
      peer, or none where another peer took it. */
  predicate HostOnly(m: Peers) {
    forall k | k in m :: m[k] == [] || (|m[k]| == 1 && m[k][0].bits == 32)
  }

  lemma CommandsKeepTheRules(m: Peers, k: Key, ip: Ip)
    ensures Unique(m) ==> Unique(Assign(m, k, ip)) && Unique(Remove(m, k))
    ensures HostOnly(m) ==> HostOnly(Assign(m, k, ip)) && HostOnly(Remove(m, k))
  {
  }

  /** The address wg.ListPeers reads for a peer: that of the first prefix listed. */
  function Listed(list: seq<Cidr>): Option<Ip> {
    if list == [] then None else Some(list[0].ip)
  }

  // ---------------------------------------------------- what Sync aims at

  type Wanted = map<Key, Ip>

  /** The validated peer set: any bad entry fails it all, a later duplicate wins. */
  function Desired(peers: seq<Peer>): Result<Wanted, Error>
    decreases |peers|
  {
    if peers == [] then Success(map[])
    else
      var before := Desired(peers[..|peers| - 1]);
      var p := peers[|peers| - 1];
      if before.Failure? then before
      else if ValidateKey(p.publicKey).Failure? then Failure(InvalidKey)
      else if p.tunnelIp.None? then Failure(InvalidIp)
      else Success(before.value[p.publicKey.key := p.tunnelIp.value])
  }

  lemma {:induction false} AFailedPrefixFails(peers: seq<Peer>, n: nat)
    requires n <= |peers| && Desired(peers[..n]).Failure?
    ensures Desired(peers) == Desired(peers[..n])
    decreases |peers|
  {
    if n == |peers| {
      assert peers[..n] == peers;
    } else {
      assert peers[..|peers| - 1][..n] == peers[..n];
      AFailedPrefixFails(peers[..|peers| - 1], n);
    }
  }

  predicate Distinct(want: Wanted) {
    forall j, k | j in want && k in want && want[j] == want[k] :: j == k
  }

  /** Exactly the wanted peers, each with exactly its own address. */
  function Exact(want: Wanted): Peers { map k | k in want :: [Host(want[k])] }

  /** The guard under which Sync leaves a wanted peer alone. */
  predicate Skips(m: Peers, want: Wanted, k: Key)
    requires k in want
  {
    k in m && Listed(m[k]) == Some(want[k])
  }

  /** The addresses set, and so taken from everyone else, for the keys done. */
  function Claims(m: Peers, want: Wanted, done: set<Key>): set<Cidr>
    requires done <= want.Keys
  {
    set k | k in done && !Skips(m, want, k) :: Host(want[k])
  }

  /** Where Sync takes an interface m, whatever order it works in. */
  function Settled(m: Peers, want: Wanted): Peers {
    map k | k in want :: if Skips(m, want, k) then Strip(m[k], Claims(m, want, want.Keys)) else [Host(want[k])]
  }

  // ------------------------------------------------------------- lemmas

  lemma {:induction false} StripTwice(list: seq<Cidr>, a: set<Cidr>, b: set<Cidr>)
    ensures Strip(Strip(list, a), b) == Strip(list, a + b)
  {
    if list != [] { StripTwice(list[1..], a, b); }
  }

  lemma {:induction false} StripNothing(list: seq<Cidr>, gone: set<Cidr>)
    requires forall c | c in list :: c !in gone
    ensures Strip(list, gone) == list
  {
    if list != [] {
      assert forall c | c in list[1..] :: c in list;
      StripNothing(list[1..], gone);
    }
  }

  /** The interface during the second loop, with the keys done dealt with. */
  ghost predicate Settling(m: Peers, before: Peers, want: Wanted, done: set<Key>)
    requires done <= want.Keys
  {
    && (forall k :: k in m <==> k in want && (k in before || k in done))
    && (Distinct(want) ==> forall k | k in m :: m[k] == Progress(before, want, done, k))
  }

  function Progress(before: Peers, want: Wanted, done: set<Key>, k: Key): seq<Cidr>
    requires done <= want.Keys && k in want && (k in before || k in done)
  {
    if k in done && !Skips(before, want, k) then [Host(want[k])] else Strip(before[k], Claims(before, want, done))
  }

  lemma SettlingStarts(before: Peers, want: Wanted)
    ensures Settling(map k | k in before && k in want :: before[k], before, want, {})
  {
    assert Claims(before, want, {}) == {};
    forall k | k in before ensures Strip(before[k], {}) == before[k] {
      StripNothing(before[k], {});
    }
  }

  lemma SettlingSkips(m: Peers, before: Peers, want: Wanted, done: set<Key>, k: Key)
    requires done <= want.Keys && k in want && Skips(before, want, k)
    requires Settling(m, before, want, done)
    ensures Settling(m, before, want, done + {k})
  {
    assert Claims(before, want, done + {k}) == Claims(before, want, done);
  }

  lemma SettlingSets(m: Peers, before: Peers, want: Wanted, done: set<Key>, k: Key)
    requires done <= want.Keys && k in want && k !in done && !Skips(before, want, k)
    requires Settling(m, before, want, done)
    ensures Settling(Assign(m, k, want[k]), before, want, done + {k})
  {
    var next := done + {k};
    assert Claims(before, want, next) == Claims(before, want, done) + {Host(want[k])};
    if Distinct(want) {
      forall j | j in m && j != k ensures Strip(m[j], {Host(want[k])}) == Progress(before, want, next, j) {
        if j in done && !Skips(before, want, j) {
          assert want[j] != want[k];
          StripNothing([Host(want[j])], {Host(want[k])});
        } else {
          StripTwice(before[j], Claims(before, want, done), {Host(want[k])});
        }
      }
    }
  }

  lemma SettlingEnds(m: Peers, before: Peers, want: Wanted)
    requires Distinct(want) && Settling(m, before, want, want.Keys)
    ensures m == Settled(before, want)
  {
  }

  lemma {:induction false} StripsToHead(list: seq<Cidr>, gone: set<Cidr>)
    requires list != [] && list[0] !in gone
    ensures Strip(list, gone) == [list[0]] <==> forall c | c in list[1..] :: c in gone
  {
    if Strip(list, gone) == [list[0]] {
      assert Strip(list[1..], gone) == [] by {
        assert ([list[0]] + Strip(list[1..], gone))[1..] == Strip(list[1..], gone);
      }
      forall c | c in list[1..] ensures c in gone {
        assert c !in Strip(list[1..], gone);
      }
    } else if forall c | c in list[1..] :: c in gone {
      var rest := Strip(list[1..], gone);
      if rest != [] { assert rest[0] in rest; }
    }
  }

  /** Every wanted peer that Sync skips lists, apart from addresses it sets on
      others, nothing but its own /32. */
  predicate TidySkips(m: Peers, want: Wanted) {
    forall k | k in want && Skips(m, want, k) ::
      m[k][0].bits == 32 && forall c | c in m[k][1..] :: c in Claims(m, want, want.Keys)
  }

  lemma SettledIsExactWhenTidy(m: Peers, want: Wanted)
    requires Distinct(want)
    ensures Settled(m, want) == Exact(want) <==> TidySkips(m, want)
  {
    var claims := Claims(m, want, want.Keys);
    forall k | k in want && Skips(m, want, k)
      ensures Settled(m, want)[k] == Exact(want)[k] <==>
              m[k][0].bits == 32 && forall c | c in m[k][1..] :: c in claims
    {
      assert m[k][0] !in claims;
      StripsToHead(m[k], claims);
      assert Strip(m[k], claims)[0] == m[k][0];
    }
    if TidySkips(m, want) {
      assert forall k | k in want :: Settled(m, want)[k] == Exact(want)[k];
    } else {
      var k :| k in want && Skips(m, want, k) && !(m[k][0].bits == 32 && forall c | c in m[k][1..] :: c in claims);
      assert Settled(m, want)[k] != Exact(want)[k];
    }
  }

  /** An interface only this client has driven is always tidy. */
  lemma HostOnlyIsTidy(m: Peers, want: Wanted)
    requires HostOnly(m)
    ensures TidySkips(m, want)
  {
  }

  /** Two peers wanted at one address cannot both have it. */
  lemma SharedAddressesCannotBeExact(m: Peers, want: Wanted)
    requires Unique(m) && !Distinct(want)
    ensures m != Exact(want)
  {
    var j, k :| j in want && k in want && want[j] == want[k] && j != k;
    assert Host(want[j]) in Exact(want)[j] && Host(want[k]) in Exact(want)[k];
  }

  // ------------------------------------------------------- one peer at a time

  /** A checked SetPeer request: key, address, and the key to remove first, if any. */
  datatype Request = Request(key: Key, ip: Ip, removed: Option<Key>)

  function WithoutReplaced(m: Peers, q: Request): Peers {
    if q.removed.Some? then Remove(m, q.removed.value) else m
  }

  function AfterSet(m: Peers, q: Request): Peers { Assign(WithoutReplaced(m, q), q.key, q.ip) }

  lemma StripAgain(list: seq<Cidr>, gone: set<Cidr>)
    ensures Strip(Strip(list, gone), gone) == Strip(list, gone)
  {
    StripTwice(list, gone, gone);
    assert gone + gone == gone;
  }

  lemma AssignTwice(m: Peers, k: Key, ip: Ip)
    ensures Assign(Assign(m, k, ip), k, ip) == Assign(m, k, ip)
  {
    forall j | j in m && j != k ensures Assign(Assign(m, k, ip), k, ip)[j] == Assign(m, k, ip)[j] {
      StripAgain(m[j], {Host(ip)});
    }
  }

  lemma AssignForgets(m: Peers, k: Key, ip: Ip)
    ensures Assign(Remove(m, k), k, ip) == Assign(m, k, ip)
  {
  }

  /** Wherever a failed SetPeer stopped, trying again ends where it would have. */
  lemma ARetryEndsTheSame(m: Peers, q: Request, left: Peers)
    requires left == m || left == WithoutReplaced(m, q) || left == AfterSet(m, q)
    ensures AfterSet(left, q) == AfterSet(m, q)
  {
    if left == AfterSet(m, q) {
      AssignTwice(WithoutReplaced(m, q), q.key, q.ip);
      if q.removed == Some(q.key) {
        AssignForgets(left, q.key, q.ip);
      } else if q.removed.Some? {
        assert q.removed.value !in left && Remove(left, q.removed.value) == left;
      }
    } else if left == WithoutReplaced(m, q) {
      assert WithoutReplaced(left, q) == left;
    }
  }

  /** An interface this client alone has driven syncs exactly. Every command keeps it
      such, so this covers a retry after any failure part way. */
  lemma SyncIsExactOnceDrivenHere(m: Peers, want: Wanted)
    requires HostOnly(m) && Distinct(want)
    ensures Settled(m, want) == Exact(want)
  {
    HostOnlyIsTidy(m, want);
    SettledIsExactWhenTidy(m, want);
  }

  /** A peer given a second address by hand keeps it through a Sync, because its
      first one is already right. */
  lemma AnExtraAddressSurvives(a: Key) returns (m: Peers, want: Wanted)
    ensures Unique(m) && Distinct(want) && want.Keys == m.Keys == {a}
    ensures Settled(m, want) == m != Exact(want)
  {
    m, want := map[a := [Host(5), Host(6)]], map[a := 5];
    assert Claims(m, want, want.Keys) == {};
    StripNothing(m[a], {});
    assert Settled(m, want)[a] == m[a] && Exact(want)[a] == [Host(5)];
    assert |m[a]| == 2;
  }
}

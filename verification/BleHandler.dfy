/** The proxy hub: which connected client owns each Bluetooth address. */
module BleHandler {
  import opened Wrappers

  type Client = nat
  type Address = string

  /** A client's socket and handshake; cleaned: its closing has been handled. */
  datatype Peer = Peer(open: bool, ready: bool, cleaned: bool)

  type Peers = map<Client, Peer>

  /** seers: the clients that saw the address, in the order they first did. */
  datatype Entry = Entry(owner: Client, seers: seq<Client>)

  type Owners = map<Address, Entry>

  datatype State = State(
    peers: Peers,
    connections: seq<Client>,
    scanning: set<Client>,
    owners: Owners,
    scanActive: bool,
    closed: bool)

  datatype Event =
    | Connect(client: Client)
    | Drop(client: Client)                           // the socket is no longer open
    | Hello(client: Client)
    | Discovered(client: Client, address: Address)
    | ScanEnded(client: Client)                      // scan_stopped, or StartScan failed
    | Close(client: Client)                          // close, error, timeout or a bad hello
    | StartScan
    | StopScan
    | Unregister

  const INITIAL: State := State(map[], [], {}, map[], false, false)

  predicate Connected(peers: Peers, c: Client) {
    c in peers && peers[c].open && peers[c].ready
  }

  function GetOwner(peers: Peers, owners: Owners, address: Address): Option<Client> {
    if address in owners && Connected(peers, owners[address].owner) then Some(owners[address].owner) else None
  }

  // ---- steps ------------------------------------------------------------------------------------

  function Remove(cs: seq<Client>, c: Client): seq<Client> {
    if cs == [] then [] else if cs[0] == c then cs[1..] else [cs[0]] + Remove(cs[1..], c)
  }

  function Add(cs: seq<Client>, c: Client): seq<Client> {
    if c in cs then cs else cs + [c]
  }

  function FirstConnected(peers: Peers, cs: seq<Client>): Option<Client> {
    if cs == [] then None else if Connected(peers, cs[0]) then Some(cs[0]) else FirstConnected(peers, cs[1..])
  }

  /** A sighting adds a seer, and takes over an address whose owner is gone. */
  function Sighted(peers: Peers, owners: Owners, c: Client, address: Address): Owners {
    if address !in owners then owners[address := Entry(c, [c])]
    else
      var e := owners[address];
      owners[address := Entry(if Connected(peers, e.owner) then e.owner else c, Add(e.seers, c))]
  }

  /** An entry without the client; None: nobody is left to own the address. */
  function Without(peers: Peers, e: Entry, c: Client): Option<Entry> {
    var seers := Remove(e.seers, c);
    if e.owner != c then Some(Entry(e.owner, seers))
    else
      var next :- FirstConnected(peers, seers);
      Some(Entry(next, seers))
  }

  function Disowned(peers: Peers, owners: Owners, c: Client): Owners {
    map a | a in owners && Without(peers, owners[a], c).Some? :: Without(peers, owners[a], c).value
  }

  /** Closing a connection: its socket is not open, its commands are rejected, and the first
      time the hub forgets it. */
  function Closed(s: State, c: Client): State
    requires c in s.peers
  {
    var peers := s.peers[c := Peer(false, false, true)];
    if s.peers[c].cleaned then s.(peers := peers)
    else
      s.(peers := peers,
         connections := Remove(s.connections, c),
         scanning := s.scanning - {c},
         owners := Disowned(peers, s.owners, c))
  }

  function ConnectedOnes(peers: Peers, cs: seq<Client>): set<Client> {
    set c | c in cs && Connected(peers, c)
  }

  /** Closes every connection, then forgets everything. */
  function ClosedAll(s: State, cs: seq<Client>): State
    requires forall c | c in cs :: c in s.peers
    decreases cs
  {
    if cs == [] then s else ClosedAll(Closed(s, cs[0]), cs[1..])
  }

  predicate Enabled(s: State, e: Event) {
    match e
    case Connect(c) => c !in s.peers
    case Drop(c) => c in s.peers
    case Hello(c) => c in s.peers && !s.peers[c].ready
    case Discovered(c, _) => c in s.peers && s.peers[c].ready
    case ScanEnded(c) => c in s.peers
    case Close(c) => c in s.peers
    case _ => true
  }

  function Step(s: State, e: Event): State
    requires Enabled(s, e) && Known(s)
  {
    match e
    case Connect(c) =>
      if s.closed then s
      else s.(peers := s.peers[c := Peer(true, false, false)], connections := s.connections + [c])
    case Drop(c) => s.(peers := s.peers[c := s.peers[c].(open := false)])
    case Hello(c) =>
      s.(peers := s.peers[c := s.peers[c].(ready := true)],
         scanning := if s.scanActive then s.scanning + {c} else s.scanning)
    case Discovered(c, a) => s.(owners := Sighted(s.peers, s.owners, c, a))
    case ScanEnded(c) => s.(scanning := s.scanning - {c})
    case Close(c) => Closed(s, c)
    case StartScan => s.(scanActive := true, scanning := s.scanning + ConnectedOnes(s.peers, s.connections))
    case StopScan => s.(scanActive := false, scanning := {})
    case Unregister =>
      if s.closed then s
      else ClosedAll(s, s.connections).(connections := [], scanning := {}, owners := map[], closed := true)
  }

  // ---- what is kept -----------------------------------------------------------------------------

  predicate Known(s: State) {
    forall c | c in s.connections :: c in s.peers
  }

  predicate Distinct(cs: seq<Client>) {
    cs == [] || (cs[0] !in cs[1..] && Distinct(cs[1..]))
  }

  /** A handled closing never leaves an open socket. */
  predicate PeerOk(p: Peer) {
    p.cleaned ==> !p.open
  }

  /** The owner is among the seers; a seer has shaken hands or is gone for good. */
  predicate EntryOk(peers: Peers, e: Entry) {
    && Distinct(e.seers) && e.owner in e.seers
    && forall c | c in e.seers :: c in peers && (peers[c].ready || peers[c].cleaned)
  }

  predicate Valid(s: State) {
    && Known(s)
    && (forall c | c in s.peers :: PeerOk(s.peers[c]))
    && (forall a | a in s.owners :: EntryOk(s.peers, s.owners[a]))
  }

  predicate AnyConnected(peers: Peers, e: Entry) {
    exists c | c in e.seers :: Connected(peers, c)
  }

  /** A disconnected owner will still be closed, or nobody could take over. */
  predicate EntryCovered(peers: Peers, e: Entry) {
    e.owner in peers && (Connected(peers, e.owner) || !peers[e.owner].cleaned || !AnyConnected(peers, e))
  }

  predicate Covered(s: State) {
    forall a | a in s.owners :: EntryCovered(s.peers, s.owners[a])
  }

  /** Every socket that is not open any more has had its closing handled. */
  predicate Quiescent(s: State) {
    forall c | c in s.peers :: s.peers[c].open || s.peers[c].cleaned
  }

  /** An address that a connected client saw has a connected owner. */
  predicate Owned(s: State) {
    forall a | a in s.owners :: AnyConnected(s.peers, s.owners[a]) ==> GetOwner(s.peers, s.owners, a).Some?
  }

  /** A client whose closing was handled reports an address that has lost its owner and that
      a connected client saw. */
  predicate Stale(s: State, e: Event) {
    e.Discovered? && e.client in s.peers && s.peers[e.client].cleaned && e.address in s.owners
    && !Connected(s.peers, s.owners[e.address].owner) && AnyConnected(s.peers, s.owners[e.address])
  }

  lemma {:induction false} RemoveHas(cs: seq<Client>, c: Client, x: Client)
    requires Distinct(cs)
    ensures x in Remove(cs, c) <==> x in cs && x != c
    ensures Distinct(Remove(cs, c))
  {
    if cs != [] && cs[0] != c {
      RemoveHas(cs[1..], c, x);
      RemoveHas(cs[1..], c, cs[0]);
      assert Remove(cs, c)[1..] == Remove(cs[1..], c);
    }
  }

  lemma {:induction false} AddHas(cs: seq<Client>, c: Client)
    requires Distinct(cs)
    ensures Distinct(Add(cs, c)) && forall x :: x in Add(cs, c) <==> x in cs || x == c
  {
    if c !in cs && cs != [] {
      AddHas(cs[1..], c);
      assert (cs + [c])[1..] == cs[1..] + [c];
    }
  }

  lemma {:induction false} FirstConnectedFinds(peers: Peers, cs: seq<Client>)
    ensures match FirstConnected(peers, cs)
      case Some(c) => c in cs && Connected(peers, c)
      case None => forall c | c in cs :: !Connected(peers, c)
  {
    if cs != [] && !Connected(peers, cs[0]) {
      FirstConnectedFinds(peers, cs[1..]);
    }
  }

  /** Forgetting a closed client keeps an entry in order, and hands it on if it can. */
  lemma {:induction false} WithoutKeeps(before: Peers, peers: Peers, e: Entry, c: Client)
    requires EntryOk(before, e) && c in before
    requires peers == before[c := Peer(false, false, true)]
    ensures var r := Without(peers, e, c);
      if r.Some? then EntryOk(peers, r.value) && (EntryCovered(before, e) ==> EntryCovered(peers, r.value))
      else forall x | x in e.seers :: !Connected(peers, x)
  {
    var seers := Remove(e.seers, c);
    forall x ensures x in seers <==> x in e.seers && x != c {
      RemoveHas(e.seers, c, x);
    }
    RemoveHas(e.seers, c, c);
    FirstConnectedFinds(peers, seers);
    if e.owner != c {
      assert AnyConnected(peers, Entry(e.owner, seers)) ==> AnyConnected(before, e);
    }
  }

  lemma {:induction false} EntriesKept(s: State, peers: Peers)
    requires Valid(s)
    requires forall c | c in s.peers :: c in peers && (s.peers[c].ready || s.peers[c].cleaned ==> peers[c].ready || peers[c].cleaned)
    ensures forall a | a in s.owners :: EntryOk(peers, s.owners[a])
  {
  }

  lemma {:induction false} CloseKeeps(s: State, c: Client)
    requires Valid(s) && c in s.peers
    ensures Valid(Closed(s, c)) && (Covered(s) ==> Covered(Closed(s, c)))
  {
    var peers := s.peers[c := Peer(false, false, true)];
    if s.peers[c].cleaned {
      EntriesKept(s, peers);
      forall x ensures Connected(peers, x) ==> Connected(s.peers, x) {}
      assert forall x :: Connected(s.peers, x) ==> Connected(peers, x);
    } else {
      ConnectionsRemoved(s, c);
      forall a | a in Disowned(peers, s.owners, c)
        ensures EntryOk(peers, Disowned(peers, s.owners, c)[a])
        ensures Covered(s) ==> EntryCovered(peers, Disowned(peers, s.owners, c)[a])
      {
        WithoutKeeps(s.peers, peers, s.owners[a], c);
      }
    }
  }

  lemma {:induction false} ConnectionsRemoved(s: State, c: Client)
    requires Known(s)
    ensures forall x | x in Remove(s.connections, c) :: x in s.connections
  {
    RemoveSubset(s.connections, c);
  }

  lemma {:induction false} RemoveSubset(cs: seq<Client>, c: Client)
    ensures forall x | x in Remove(cs, c) :: x in cs
  {
    if cs != [] && cs[0] != c {
      RemoveSubset(cs[1..], c);
    }
  }

  lemma {:induction false} ClosedAllKeeps(s: State, cs: seq<Client>)
    requires Valid(s) && forall c | c in cs :: c in s.peers
    ensures Valid(ClosedAll(s, cs))
    decreases cs
  {
    if cs != [] {
      CloseKeeps(s, cs[0]);
      ClosedAllKeeps(Closed(s, cs[0]), cs[1..]);
    }
  }

  lemma {:induction false} SightingKeeps(s: State, c: Client, address: Address)
    requires Valid(s) && c in s.peers && s.peers[c].ready
    ensures Valid(s.(owners := Sighted(s.peers, s.owners, c, address)))
  {
    if address in s.owners {
      AddHas(s.owners[address].seers, c);
    } else {
      assert Distinct([c]);
    }
  }

  /** A sighting leaves its address covered unless it is stale. */
  lemma {:induction false} SightingCovers(s: State, c: Client, address: Address)
    requires Valid(s) && Covered(s) && c in s.peers && s.peers[c].ready
    ensures EntryCovered(s.peers, Sighted(s.peers, s.owners, c, address)[address]) <==> !Stale(s, Discovered(c, address))
  {
    if address in s.owners {
      var e := s.owners[address];
      var after := Sighted(s.peers, s.owners, c, address)[address];
      AddHas(e.seers, c);
      assert AnyConnected(s.peers, after) <==> AnyConnected(s.peers, e) || Connected(s.peers, c) by {
        assert c in after.seers;
        if AnyConnected(s.peers, e) {
          var x :| x in e.seers && Connected(s.peers, x);
          assert x in after.seers;
        }
      }
    } else {
      var after := Sighted(s.peers, s.owners, c, address)[address];
      assert after == Entry(c, [c]);
      assert AnyConnected(s.peers, after) ==> Connected(s.peers, c);
    }
  }

  /** Every event keeps the owner among the seers. */
  lemma {:induction false} StepKeeps(s: State, e: Event)
    requires Valid(s) && Enabled(s, e)
    ensures Valid(Step(s, e))
  {
    match e
    case Connect(c) =>
      if !s.closed {
        EntriesKept(s, s.peers[c := Peer(true, false, false)]);
      }
    case Drop(c) => EntriesKept(s, Step(s, e).peers);
    case Hello(c) => EntriesKept(s, Step(s, e).peers);
    case Discovered(c, a) => SightingKeeps(s, c, a);
    case ScanEnded(c) =>
    case Close(c) => CloseKeeps(s, c);
    case StartScan =>
    case StopScan =>
    case Unregister =>
      if !s.closed {
        ClosedAllKeeps(s, s.connections);
      }
  }

  /** If no entry gains a connected seer or loses a connected owner, entries stay covered. */
  lemma {:induction false} CoverKept(s: State, peers: Peers)
    requires Valid(s) && Covered(s)
    requires forall c | c in s.peers :: c in peers && (peers[c].cleaned ==> s.peers[c].cleaned)
    requires forall c | c in s.peers && (s.peers[c].ready || s.peers[c].cleaned) && Connected(peers, c) :: Connected(s.peers, c)
    requires forall c | Connected(s.peers, c) :: Connected(peers, c) || !peers[c].cleaned
    ensures Covered(s.(peers := peers))
  {
    forall a | a in s.owners ensures EntryCovered(peers, s.owners[a]) {
      var e := s.owners[a];
      assert EntryOk(s.peers, e);
      assert AnyConnected(peers, e) ==> AnyConnected(s.peers, e);
    }
  }

  lemma {:induction false} HelloCovers(s: State, c: Client)
    requires Valid(s) && Covered(s) && Enabled(s, Hello(c))
    ensures Covered(Step(s, Hello(c)))
  {
    assert PeerOk(s.peers[c]);
    CoverKept(s, Step(s, Hello(c)).peers);
  }

  lemma {:induction false} DropCovers(s: State, c: Client)
    requires Valid(s) && Covered(s) && Enabled(s, Drop(c))
    ensures Covered(Step(s, Drop(c)))
  {
    assert PeerOk(s.peers[c]);
    CoverKept(s, Step(s, Drop(c)).peers);
  }

  /** Every event but a stale sighting keeps every address covered; a stale one does not. */
  lemma {:induction false} StepCovers(s: State, e: Event)
    requires Valid(s) && Covered(s) && Enabled(s, e)
    ensures Covered(Step(s, e)) <==> !Stale(s, e)
  {
    match e
    case Connect(c) =>
      if !s.closed {
        CoverKept(s, Step(s, e).peers);
      }
    case Drop(c) => DropCovers(s, c);
    case Hello(c) => HelloCovers(s, c);
    case Discovered(c, a) =>
      SightingCovers(s, c, a);
      assert a in Step(s, e).owners;
    case ScanEnded(c) =>
    case Close(c) => CloseKeeps(s, c);
    case StartScan =>
    case StopScan =>
    case Unregister =>
  }

  lemma {:induction false} QuiescentOwned(s: State)
    requires Valid(s) && Quiescent(s)
    ensures Covered(s) <==> Owned(s)
  {
    forall a | a in s.owners
      ensures EntryCovered(s.peers, s.owners[a])
         <==> (AnyConnected(s.peers, s.owners[a]) ==> GetOwner(s.peers, s.owners, a).Some?)
    {
      var e := s.owners[a];
      assert EntryOk(s.peers, e);
      assert s.peers[e.owner].open || s.peers[e.owner].cleaned;
      assert PeerOk(s.peers[e.owner]);
    }
  }

  // ---- runs -------------------------------------------------------------------------------------

  /** Each event can happen when it comes. */
  predicate Possible(s: State, es: seq<Event>)
    requires Valid(s)
    decreases es
  {
    es == [] || (Enabled(s, es[0]) && (StepKeeps(s, es[0]); Possible(Step(s, es[0]), es[1..])))
  }

  function Run(s: State, es: seq<Event>): (r: State)
    requires Valid(s) && Possible(s, es)
    ensures Valid(r)
    decreases es
  {
    if es == [] then s
    else
      StepKeeps(s, es[0]);
      Run(Step(s, es[0]), es[1..])
  }

  /** No client reports a sighting after its closing was handled, where that matters. */
  predicate NoneStale(s: State, es: seq<Event>)
    requires Valid(s) && Possible(s, es)
    decreases es
  {
    es == [] || (!Stale(s, es[0]) && (StepKeeps(s, es[0]); NoneStale(Step(s, es[0]), es[1..])))
  }

  lemma {:induction false} RunCovers(s: State, es: seq<Event>)
    requires Valid(s) && Covered(s) && Possible(s, es) && NoneStale(s, es)
    ensures Covered(Run(s, es))
    decreases es
  {
    if es != [] {
      StepKeeps(s, es[0]);
      StepCovers(s, es[0]);
      RunCovers(Step(s, es[0]), es[1..]);
    }
  }

  /** Over all runs, each owner saw its address; and once every closing has been handled, an
      address with a connected seer has a connected owner. */
  lemma {:induction false} OwnershipOverRuns(es: seq<Event>)
    requires Possible(INITIAL, es)
    ensures Valid(Run(INITIAL, es))
    ensures NoneStale(INITIAL, es) && Quiescent(Run(INITIAL, es)) ==> Owned(Run(INITIAL, es))
  {
    if NoneStale(INITIAL, es) {
      RunCovers(INITIAL, es);
    }
    if Quiescent(Run(INITIAL, es)) {
      QuiescentOwned(Run(INITIAL, es));
    }
  }

  // ---- a stale sighting -------------------------------------------------------------------------

  const SAW: Entry := Entry(1, [1, 2])

  /** Client 0 said hello after its handshake timed out; clients 1 and 2 saw the address. */
  const BEFORE: State :=
    State(map[0 := Peer(false, true, true), 1 := Peer(true, true, false), 2 := Peer(true, true, false)],
          [1, 2], {}, map["A" := SAW], false, false)

  lemma {:induction false} RunCons(s: State, e: Event, es: seq<Event>)
    requires Valid(s) && Enabled(s, e) && Valid(Step(s, e)) && Possible(Step(s, e), es)
    ensures Possible(s, [e] + es) && Run(s, [e] + es) == Run(Step(s, e), es)
  {
    assert ([e] + es)[1..] == es;
  }

  lemma {:induction false} BeforeValid()
    ensures Valid(BEFORE) && Covered(BEFORE)
  {
    assert Distinct([1, 2][1..]) && Distinct([1, 2]);
    assert EntryOk(BEFORE.peers, SAW);
  }

  const DROPPED: State := BEFORE.(peers := BEFORE.peers[1 := Peer(false, true, false)])
  const REPORTED: State := DROPPED.(owners := map["A" := Entry(0, [1, 2, 0])])
  const DISOWNED: State :=
    State(DROPPED.peers[1 := Peer(false, false, true)], [2], {}, map["A" := Entry(0, [2, 0])], false, false)

  lemma {:induction false} Dropping()
    ensures Valid(BEFORE) && Step(BEFORE, Drop(1)) == DROPPED && Valid(DROPPED)
  {
    BeforeValid();
    StepKeeps(BEFORE, Drop(1));
  }

  lemma {:induction false} Reporting()
    ensures Valid(DROPPED) && Step(DROPPED, Discovered(0, "A")) == REPORTED && Valid(REPORTED)
  {
    Dropping();
    StepKeeps(DROPPED, Discovered(0, "A"));
    assert [1, 2] + [0] == [1, 2, 0];
  }

  lemma {:induction false} ClosingEntry()
    ensures Disowned(DISOWNED.peers, REPORTED.owners, 1) == DISOWNED.owners
  {
    assert [1, 2, 0][1..] == [2, 0];
    assert Without(DISOWNED.peers, REPORTED.owners["A"], 1) == Some(Entry(0, [2, 0]));
  }

  lemma {:induction false} Closing()
    requires Known(REPORTED)
    ensures Step(REPORTED, Close(1)) == DISOWNED
  {
    ClosingEntry();
    assert [1, 2][1..] == [2];
  }

  lemma {:induction false} RunThree(s: State, a: Event, b: Event, c: Event, s1: State, s2: State, t: State)
    requires Valid(s) && Enabled(s, a) && Step(s, a) == s1
    requires Valid(s1) && Enabled(s1, b) && Step(s1, b) == s2
    requires Valid(s2) && Enabled(s2, c) && Step(s2, c) == t
    ensures Possible(s, [a, b, c]) && Run(s, [a, b, c]) == t
  {
    StepKeeps(s2, c);
    RunCons(s2, c, []);
    RunCons(s1, b, [c]);
    RunCons(s, a, [b, c]);
    assert [c] + [] == [c] && [b] + [c] == [b, c] && [a] + [b, c] == [a, b, c];
  }

  /** From there, client 1 drops, client 0 reports the address, and client 1 is closed: client 2
      is connected and saw the address, which has no connected owner. */
  lemma {:induction false} StaleSightingDisowns()
    ensures Valid(BEFORE) && Possible(BEFORE, [Drop(1), Discovered(0, "A"), Close(1)])
    ensures var t := Run(BEFORE, [Drop(1), Discovered(0, "A"), Close(1)]); Quiescent(t) && !Owned(t)
  {
    Dropping();
    Reporting();
    Closing();
    RunThree(BEFORE, Drop(1), Discovered(0, "A"), Close(1), DROPPED, REPORTED, DISOWNED);
    DisownedFails();
  }

  lemma {:induction false} DisownedFails()
    ensures Quiescent(DISOWNED) && !Owned(DISOWNED)
  {
    assert Connected(DISOWNED.peers, 2) && 2 in [2, 0];
    assert AnyConnected(DISOWNED.peers, DISOWNED.owners["A"]);
  }

  // ---- that state is reached --------------------------------------------------------------------

  const LATE: State := State(map[0 := Peer(false, true, true)], [], {}, map[], false, false)
  const TWO: State :=
    State(map[0 := Peer(false, true, true), 1 := Peer(true, true, false), 2 := Peer(true, false, false)],
          [1, 2], {}, map[], false, false)

  /** The handshake of client 0 times out, and then its hello arrives. */
  lemma {:induction false} LateHello()
    ensures Valid(INITIAL) && Possible(INITIAL, [Connect(0), Close(0), Hello(0)])
    ensures Run(INITIAL, [Connect(0), Close(0), Hello(0)]) == LATE
  {
    var s1 := INITIAL.(peers := map[0 := Peer(true, false, false)], connections := [0]);
    var s2 := LATE.(peers := map[0 := Peer(false, false, true)]);
    assert [] + [0] == [0] && [0][1..] == [];
    RunThree(INITIAL, Connect(0), Close(0), Hello(0), s1, s2, LATE);
  }

  lemma {:induction false} TwoConnect()
    ensures Valid(LATE) && Possible(LATE, [Connect(1), Hello(1), Connect(2)])
    ensures Run(LATE, [Connect(1), Hello(1), Connect(2)]) == TWO
  {
    var s1 := LATE.(peers := LATE.peers[1 := Peer(true, false, false)], connections := [1]);
    var s2 := LATE.(peers := LATE.peers[1 := Peer(true, true, false)], connections := [1]);
    assert [] + [1] == [1] && [1] + [2] == [1, 2];
    RunThree(LATE, Connect(1), Hello(1), Connect(2), s1, s2, TWO);
  }

  lemma {:induction false} TwoSee()
    ensures Valid(TWO) && Possible(TWO, [Hello(2), Discovered(1, "A"), Discovered(2, "A")])
    ensures Run(TWO, [Hello(2), Discovered(1, "A"), Discovered(2, "A")]) == BEFORE
  {
    var s1 := BEFORE.(owners := map[]);
    var s2 := BEFORE.(owners := map["A" := Entry(1, [1])]);
    assert [1] + [2] == [1, 2];
    assert Distinct([1]);
    RunThree(TWO, Hello(2), Discovered(1, "A"), Discovered(2, "A"), s1, s2, BEFORE);
  }

  lemma {:induction false} RunJoin(s: State, a: seq<Event>, b: seq<Event>)
    requires Valid(s) && Possible(s, a) && Possible(Run(s, a), b)
    ensures Possible(s, a + b) && Run(s, a + b) == Run(Run(s, a), b)
    decreases a
  {
    if a == [] {
      assert a + b == b;
    } else {
      assert (a + b)[1..] == a[1..] + b;
      StepKeeps(s, a[0]);
      RunJoin(Step(s, a[0]), a[1..], b);
    }
  }

  /** The whole run, from a hub without clients. */
  const DISOWNING: seq<Event> :=
    [Connect(0), Close(0), Hello(0)] + [Connect(1), Hello(1), Connect(2)]
    + [Hello(2), Discovered(1, "A"), Discovered(2, "A")] + [Drop(1), Discovered(0, "A"), Close(1)]

  lemma {:induction false} OwnershipFails()
    ensures Possible(INITIAL, DISOWNING) && Quiescent(Run(INITIAL, DISOWNING)) && !Owned(Run(INITIAL, DISOWNING))
  {
    var a, b := [Connect(0), Close(0), Hello(0)], [Connect(1), Hello(1), Connect(2)];
    var c := [Hello(2), Discovered(1, "A"), Discovered(2, "A")];
    LateHello();
    TwoConnect();
    TwoSee();
    StaleSightingDisowns();
    RunJoin(INITIAL, a, b);
    RunJoin(INITIAL, a + b, c);
    RunJoin(INITIAL, a + b + c, [Drop(1), Discovered(0, "A"), Close(1)]);
  }
}

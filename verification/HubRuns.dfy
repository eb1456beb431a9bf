/** Over all runs of the hub: who is recorded as having seen an address, who owns it and until
    when, and who scans. */
module HubRuns {
  import opened Wrappers
  import opened BleHandler

  type Sighting = (Client, Address)

  /** The client is recorded among those that saw the address. */
  predicate Recorded(s: State, c: Client, a: Address) {
    a in s.owners && c in s.owners[a].seers
  }

  /** Open sockets are listed, and of their clients exactly the sightings so far are recorded. */
  ghost predicate Tracks(s: State, seen: set<Sighting>) {
    && (forall c | c in s.peers && s.peers[c].open :: c in s.connections)
    && (forall p | p in seen :: p.0 in s.peers)
    && (forall c, a | c in s.peers && s.peers[c].open :: (c, a) in seen <==> Recorded(s, c, a))
  }

  function SightingOf(e: Event): set<Sighting> {
    if e.Discovered? then {(e.client, e.address)} else {}
  }

  function Sightings(es: seq<Event>): set<Sighting> {
    if es == [] then {} else SightingOf(es[0]) + Sightings(es[1..])
  }

  lemma {:induction false} RemoveOther(cs: seq<Client>, c: Client, x: Client)
    requires x != c
    ensures x in Remove(cs, c) <==> x in cs
  {
    if cs != [] && cs[0] != c {
      RemoveOther(cs[1..], c, x);
    }
  }

  lemma {:induction false} WithoutKeepsOther(before: Peers, peers: Peers, e: Entry, c: Client, x: Client)
    requires EntryOk(before, e) && x != c && x in before && before[x].open && PeerOk(before[x])
    requires peers == before[c := Peer(false, false, true)]
    ensures x in e.seers ==> Without(peers, e, c).Some?
    ensures Without(peers, e, c).Some? ==> (x in Without(peers, e, c).value.seers <==> x in e.seers)
  {
    RemoveOther(e.seers, c, x);
    if x in e.seers {
      assert Connected(peers, x);
      FirstConnectedFinds(peers, Remove(e.seers, c));
    }
  }

  /** Closing one client leaves what is recorded of the others. */
  lemma {:induction false} CloseTracks(s: State, seen: set<Sighting>, c: Client)
    requires Valid(s) && Tracks(s, seen) && c in s.peers
    ensures Valid(Closed(s, c)) && Tracks(Closed(s, c), seen)
  {
    CloseKeeps(s, c);
    var t := Closed(s, c);
    var peers := s.peers[c := Peer(false, false, true)];
    forall x | x in t.peers && t.peers[x].open ensures x in t.connections {
      RemoveOther(s.connections, c, x);
    }
    forall x, a | x in t.peers && t.peers[x].open ensures (x, a) in seen <==> Recorded(t, x, a) {
      if a in s.owners {
        WithoutKeepsOther(s.peers, peers, s.owners[a], c, x);
      }
    }
  }

  lemma {:induction false} AllClosed(s: State, seen: set<Sighting>, cs: seq<Client>)
    requires Valid(s) && Tracks(s, seen) && forall c | c in cs :: c in s.peers
    ensures var t := ClosedAll(s, cs);
      Tracks(t, seen) && t.peers.Keys == s.peers.Keys && forall c | c in s.peers && t.peers[c].open :: c !in cs
    ensures forall c | c in s.peers && !s.peers[c].open :: !ClosedAll(s, cs).peers[c].open
    decreases cs
  {
    if cs != [] {
      CloseTracks(s, seen, cs[0]);
      AllClosed(Closed(s, cs[0]), seen, cs[1..]);
    }
  }

  lemma {:induction false} UnregisterTracks(s: State, seen: set<Sighting>)
    requires Valid(s) && Tracks(s, seen)
    ensures Tracks(Step(s, Unregister), seen)
  {
    AllClosed(s, seen, s.connections);
  }

  lemma {:induction false} SightingTracks(s: State, seen: set<Sighting>, c: Client, a: Address)
    requires Valid(s) && Tracks(s, seen) && Enabled(s, Discovered(c, a))
    ensures Tracks(Step(s, Discovered(c, a)), seen + {(c, a)})
  {
    if a in s.owners {
      AddHas(s.owners[a].seers, c);
    }
  }

  lemma {:induction false} StepTracks(s: State, seen: set<Sighting>, e: Event)
    requires Valid(s) && Tracks(s, seen) && Enabled(s, e)
    ensures Tracks(Step(s, e), seen + SightingOf(e))
  {
    assert !e.Discovered? ==> seen + SightingOf(e) == seen;
    match e
    case Discovered(c, a) => SightingTracks(s, seen, c, a);
    case Close(c) => CloseTracks(s, seen, c);
    case Unregister => UnregisterTracks(s, seen);
    case _ =>
  }

  lemma {:induction false} RunTracks(s: State, seen: set<Sighting>, es: seq<Event>)
    requires Valid(s) && Tracks(s, seen) && Possible(s, es)
    ensures Tracks(Run(s, es), seen + Sightings(es))
    decreases es
  {
    if es == [] {
      assert seen + {} == seen;
    } else {
      StepTracks(s, seen, es[0]);
      StepKeeps(s, es[0]);
      RunTracks(Step(s, es[0]), seen + SightingOf(es[0]), es[1..]);
      assert seen + SightingOf(es[0]) + Sightings(es[1..]) == seen + Sightings(es);
    }
  }

  lemma {:induction false} SightingsAre(es: seq<Event>, c: Client, a: Address)
    ensures (c, a) in Sightings(es) <==> Discovered(c, a) in es
  {
    if es != [] {
      SightingsAre(es[1..], c, a);
    }
  }

  /** Of a connected client, exactly the addresses it reported are recorded. */
  lemma {:induction false} SeersAreReporters(es: seq<Event>, c: Client, a: Address)
    requires Possible(INITIAL, es) && Connected(Run(INITIAL, es).peers, c)
    ensures Recorded(Run(INITIAL, es), c, a) <==> Discovered(c, a) in es
  {
    RunTracks(INITIAL, {}, es);
    assert {} + Sightings(es) == Sightings(es);
    SightingsAre(es, c, a);
  }

  /** Over all runs: an owner reported its address; and, with all closings handled and no stale
      sighting, an address that a connected client reported has an owner. */
  lemma {:induction false} ReportedIsOwned(es: seq<Event>, c: Client, a: Address)
    requires Possible(INITIAL, es) && Connected(Run(INITIAL, es).peers, c)
    ensures var s := Run(INITIAL, es); var owner := GetOwner(s.peers, s.owners, a);
      && (owner == Some(c) ==> Discovered(c, a) in es)
      && (NoneStale(INITIAL, es) && Quiescent(s) && Discovered(c, a) in es ==> owner.Some?)
  {
    SeersAreReporters(es, c, a);
    OwnershipOverRuns(es);
    var s := Run(INITIAL, es);
    if a in s.owners {
      assert EntryOk(s.peers, s.owners[a]);
      assert c in s.owners[a].seers ==> AnyConnected(s.peers, s.owners[a]);
    }
  }

  // ---- how long an owner stays, and who comes next ------------------------------------------------

  /** An owner stays until it drops or is closed, or the hub is: no other client takes over. */
  lemma {:induction false} OwnerStays(s: State, e: Event, a: Address, o: Client)
    requires Valid(s) && Enabled(s, e) && GetOwner(s.peers, s.owners, a) == Some(o)
    requires e != Drop(o) && e != Close(o) && e != Unregister
    ensures GetOwner(Step(s, e).peers, Step(s, e).owners, a) == Some(o)
  {
    match e
    case Close(c) => OwnerStaysOnClose(s, c, a, o);
    case _ =>
  }

  lemma {:induction false} OwnerStaysOnClose(s: State, c: Client, a: Address, o: Client)
    requires Valid(s) && c in s.peers && c != o && GetOwner(s.peers, s.owners, a) == Some(o)
    ensures GetOwner(Closed(s, c).peers, Closed(s, c).owners, a) == Some(o)
  {
    assert Connected(Closed(s, c).peers, o);
    assert !s.peers[c].cleaned ==> Without(Closed(s, c).peers, s.owners[a], c).Some?;
  }

  /** A report takes over an address that is unknown or whose owner is not connected. */
  lemma {:induction false} ReporterTakesOver(s: State, c: Client, a: Address)
    requires Valid(s) && Enabled(s, Discovered(c, a)) && GetOwner(s.peers, s.owners, a).None?
    ensures var t := Step(s, Discovered(c, a));
      a in t.owners && t.owners[a].owner == c
      && t.owners[a].seers == if a !in s.owners then [c] else if c in s.owners[a].seers then s.owners[a].seers
                              else s.owners[a].seers + [c]
  {
  }

  lemma {:induction false} FirstIsFirst(peers: Peers, cs: seq<Client>) returns (i: nat)
    ensures i <= |cs| && forall j | 0 <= j < i :: !Connected(peers, cs[j])
    ensures FirstConnected(peers, cs) == if i < |cs| then Some(cs[i]) else None
    ensures i < |cs| ==> Connected(peers, cs[i])
  {
    if cs == [] || Connected(peers, cs[0]) {
      i := 0;
    } else {
      var k := FirstIsFirst(peers, cs[1..]);
      i := k + 1;
      forall j | 0 <= j < i ensures !Connected(peers, cs[j]) {
        if j > 0 {
          assert cs[j] == cs[1..][j - 1];
        }
      }
    }
  }

  /** When an owner is closed, the one that saw the address first among those still connected is
      next; without one the address is dropped. */
  lemma {:induction false} FirstSeerIsNext(s: State, a: Address) returns (i: nat)
    requires Valid(s) && a in s.owners && !s.peers[s.owners[a].owner].cleaned
    ensures var o, seers := s.owners[a].owner, Remove(s.owners[a].seers, s.owners[a].owner);
      var t := Closed(s, o);
      && i <= |seers| && (forall j | 0 <= j < i :: !Connected(t.peers, seers[j]))
      && if i < |seers| then Connected(t.peers, seers[i]) && a in t.owners && t.owners[a] == Entry(seers[i], seers)
         else a !in t.owners
  {
    var o := s.owners[a].owner;
    i := FirstIsFirst(Closed(s, o).peers, Remove(s.owners[a].seers, o));
  }

  // ---- scanning -----------------------------------------------------------------------------------

  /** Who scans after an event. */
  lemma {:induction false} WhoScans(s: State, e: Event, c: Client)
    requires Valid(s) && Enabled(s, e)
    ensures var t := Step(s, e);
      match e
      case StartScan =>
        t.scanActive && (c in t.scanning <==> c in s.scanning || (c in s.connections && Connected(s.peers, c)))
      case StopScan => !t.scanActive && t.scanning == {}
      case Hello(d) =>
        t.scanActive == s.scanActive && (c in t.scanning <==> c in s.scanning || (c == d && s.scanActive))
      case ScanEnded(d) => t.scanActive == s.scanActive && (c in t.scanning <==> c in s.scanning && c != d)
      case Close(d) =>
        t.scanActive == s.scanActive && (c in t.scanning <==> c in s.scanning && !(c == d && !s.peers[c].cleaned))
      case Unregister => t.scanActive == s.scanActive && (!s.closed ==> t.scanning == {})
      case _ => t.scanActive == s.scanActive && t.scanning == s.scanning
  {
    if e.Unregister? {
      ClosedAllScan(s, s.connections);
    }
  }

  lemma {:induction false} ClosedAllScan(s: State, cs: seq<Client>)
    requires forall c | c in cs :: c in s.peers
    ensures ClosedAll(s, cs).scanActive == s.scanActive
    decreases cs
  {
    if cs != [] {
      ClosedAllScan(Closed(s, cs[0]), cs[1..]);
    }
  }

  /** Nobody scans unless a scan was started and not stopped. */
  lemma {:induction false} NobodyScansIdle(s: State, es: seq<Event>)
    requires Valid(s) && Possible(s, es) && (s.scanActive || s.scanning == {})
    ensures Run(s, es).scanActive || Run(s, es).scanning == {}
    decreases es
  {
    if es != [] {
      StepKeeps(s, es[0]);
      IdleStep(s, es[0]);
      NobodyScansIdle(Step(s, es[0]), es[1..]);
    }
  }

  lemma {:induction false} IdleStep(s: State, e: Event)
    requires Valid(s) && Enabled(s, e) && (s.scanActive || s.scanning == {})
    ensures Step(s, e).scanActive || Step(s, e).scanning == {}
  {
    if !Step(s, e).scanActive {
      forall c | c in Step(s, e).scanning ensures false {
        WhoScans(s, e, c);
      }
    }
  }

  // ---- connecting ---------------------------------------------------------------------------------

  /** A client is connected from its hello until it drops or is closed. */
  lemma {:induction false} WhoIsConnected(s: State, e: Event, c: Client)
    requires Valid(s) && Enabled(s, e) && !e.Unregister?
    ensures Connected(Step(s, e).peers, c) <==>
      if e == Hello(c) then s.peers[c].open
      else Connected(s.peers, c) && e != Drop(c) && e != Close(c)
  {
  }

  /** A client that connects to an open hub has an open socket, and nobody connects to a closed one. */
  lemma {:induction false} WhoConnects(s: State, c: Client)
    requires Valid(s) && Enabled(s, Connect(c))
    ensures var t := Step(s, Connect(c));
      if s.closed then t == s
      else c in t.peers && t.peers[c].open && !t.peers[c].ready && c in t.connections
  {
  }

  // ---- the end ------------------------------------------------------------------------------------

  lemma {:induction false} RunListed(es: seq<Event>)
    requires Possible(INITIAL, es)
    ensures var s := Run(INITIAL, es); forall c | c in s.peers && s.peers[c].open :: c in s.connections
  {
    RunTracks(INITIAL, {}, es);
  }

  /** A hub that is unregistered has no client, no owner and no scan, whatever came before. */
  lemma {:induction false} UnregisterForgets(es: seq<Event>, c: Client)
    requires Possible(INITIAL, es) && !Run(INITIAL, es).closed
    ensures var t := Step(Run(INITIAL, es), Unregister);
      t.closed && t.connections == [] && t.scanning == {} && t.owners == map[] && !Connected(t.peers, c)
  {
    var s := Run(INITIAL, es);
    RunTracks(INITIAL, {}, es);
    AllClosed(s, {} + Sightings(es), s.connections);
  }
}

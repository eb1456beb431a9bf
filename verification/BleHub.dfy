/** The proxy hub itself: each method is one event handler, proved to be the step of
    BleHandler it stands for. The clients' sockets are part of its state. */
module BleHub {
  import opened Wrappers
  import opened BleHandler

  /** The owners once every address outside rest has been gone through. */
  function Partly(peers: Peers, before: Owners, c: Client, rest: set<Address>): Owners {
    map a | a in before && (a in rest || Without(peers, before[a], c).Some?) ::
      if a in rest then before[a] else Without(peers, before[a], c).value
  }

  lemma {:induction false} PartlyNext(peers: Peers, before: Owners, c: Client, rest: set<Address>, address: Address)
    requires address in rest && address in before
    ensures var now := Partly(peers, before, c, rest);
      var r := Without(peers, before[address], c);
      Partly(peers, before, c, rest - {address}) == if r.Some? then now[address := r.value] else now - {address}
  {
  }

  class BleProxyHandler {
    var peers: Peers
    var connections: seq<Client>
    var scanning: set<Client>
    var owners: Owners
    var scanActive: bool
    var closed: bool

    ghost function Now(): State
      reads this
    {
      State(peers, connections, scanning, owners, scanActive, closed)
    }

    ghost predicate Ready()
      reads this
    {
      Valid(Now())
    }

    constructor ()
      ensures Now() == INITIAL && Ready()
    {
      peers, connections, scanning, owners, scanActive, closed := map[], [], {}, map[], false, false;
    }

    method OnConnection(c: Client)
      requires Ready() && Enabled(Now(), Connect(c))
      modifies this
      ensures Now() == Step(old(Now()), Connect(c)) && Ready()
    {
      StepKeeps(Now(), Connect(c));
      if !closed {
        peers := peers[c := Peer(true, false, false)];
        connections := connections + [c];
      }
    }

    /** The hello of a client was accepted; it joins a scan in progress. */
    method OnHandshakeCompleted(c: Client)
      requires Ready() && Enabled(Now(), Hello(c))
      modifies this
      ensures Now() == Step(old(Now()), Hello(c)) && Ready()
    {
      StepKeeps(Now(), Hello(c));
      peers := peers[c := peers[c].(ready := true)];
      if scanActive {
        scanning := scanning + {c};
      }
    }

    /** The recorded owner while it is connected; it is one of the clients that saw the address. */
    method GetOwner(address: Address) returns (owner: Option<Client>)
      requires Ready()
      ensures owner == BleHandler.GetOwner(peers, owners, address)
      ensures owner.Some? ==>
        Connected(peers, owner.value) && address in owners && owner.value in owners[address].seers
      ensures owner.None? <==> address !in owners || !Connected(peers, owners[address].owner)
    {
      owner := None;
      if address in owners && Connected(peers, owners[address].owner) {
        assert EntryOk(peers, owners[address]);
        owner := Some(owners[address].owner);
      }
    }

    method StartScan()
      requires Ready()
      modifies this
      ensures Now() == Step(old(Now()), Event.StartScan) && Ready()
    {
      StepKeeps(Now(), Event.StartScan);
      scanActive := true;
      var all := connections;
      for i := 0 to |all|
        invariant scanning == old(scanning) + ConnectedOnes(peers, all[..i])
        invariant scanActive && connections == all == old(connections)
        invariant peers == old(peers) && owners == old(owners) && closed == old(closed)
      {
        assert all[..i + 1] == all[..i] + [all[i]];
        if Connected(peers, all[i]) {
          scanning := scanning + {all[i]};
        }
      }
      assert all[..|all|] == all;
    }

    method StopScan()
      requires Ready()
      modifies this
      ensures Now() == Step(old(Now()), Event.StopScan) && Ready()
    {
      scanActive := false;
      scanning := {};
    }

    method MarkNotScanning(c: Client)
      requires Ready() && Enabled(Now(), ScanEnded(c))
      modifies this
      ensures Now() == Step(old(Now()), ScanEnded(c)) && Ready()
    {
      scanning := scanning - {c};
    }

    method OnDeviceDiscovered(c: Client, address: Address)
      requires Ready() && Enabled(Now(), Discovered(c, address))
      modifies this
      ensures Now() == Step(old(Now()), Discovered(c, address)) && Ready()
    {
      StepKeeps(Now(), Discovered(c, address));
      if address !in owners {
        owners := owners[address := Entry(c, [c])];
      } else {
        var e := owners[address];
        e := e.(seers := Add(e.seers, c));
        if !Connected(peers, e.owner) {
          e := e.(owner := c);
        }
        owners := owners[address := e];
      }
    }

    method NextOwner(seers: seq<Client>) returns (next: Option<Client>)
      ensures next == FirstConnected(peers, seers)
    {
      next := None;
      for i := 0 to |seers|
        invariant FirstConnected(peers, seers) == FirstConnected(peers, seers[i..])
      {
        assert seers[i..][1..] == seers[i + 1..];
        if Connected(peers, seers[i]) {
          next := Some(seers[i]);
          return;
        }
      }
    }

    /** Takes the client out of one entry. */
    method HandOn(address: Address, c: Client)
      requires address in owners
      modifies this`owners
      ensures var r := Without(peers, old(owners)[address], c);
        owners == if r.Some? then old(owners)[address := r.value] else old(owners) - {address}
    {
      var e := owners[address];
      var seers := Remove(e.seers, c);
      if e.owner != c {
        owners := owners[address := Entry(e.owner, seers)];
      } else {
        var next := NextOwner(seers);
        if next.Some? {
          owners := owners[address := Entry(next.value, seers)];
        } else {
          owners := owners - {address};
        }
      }
    }

    /** Forgets a closed client: its addresses go to the next connected seer, or are dropped. */
    method OnConnectionClosed(c: Client)
      modifies this`connections, this`scanning, this`owners
      ensures connections == Remove(old(connections), c) && scanning == old(scanning) - {c}
      ensures owners == Disowned(peers, old(owners), c)
    {
      connections := Remove(connections, c);
      scanning := scanning - {c};
      ghost var before := owners;
      var rest := owners.Keys;
      while rest != {}
        invariant rest <= before.Keys
        invariant owners == Partly(peers, before, c, rest)
        invariant connections == Remove(old(connections), c) && scanning == old(scanning) - {c}
        decreases |rest|
      {
        var address :| address in rest;
        PartlyNext(peers, before, c, rest, address);
        HandOn(address, c);
        rest := rest - {address};
      }
    }

    /** A connection's cleanup; the hub hears of it the first time only. */
    method CloseConnection(c: Client)
      requires Ready() && c in peers
      modifies this
      ensures Now() == Closed(old(Now()), c) && Ready()
    {
      CloseKeeps(Now(), c);
      var first := !peers[c].cleaned;
      peers := peers[c := Peer(false, false, true)];
      if first {
        OnConnectionClosed(c);
      }
    }

    method Unregister()
      requires Ready()
      modifies this
      ensures Now() == Step(old(Now()), Event.Unregister) && Ready()
    {
      if closed {
        return;
      }
      StepKeeps(Now(), Event.Unregister);
      ghost var start := Now();
      var all := connections;
      for i := 0 to |all|
        invariant Ready() && forall x | x in all[i..] :: x in peers
        invariant ClosedAll(Now(), all[i..]) == ClosedAll(start, all)
      {
        assert all[i..][0] == all[i] && all[i..][1..] == all[i + 1..];
        CloseConnection(all[i]);
      }
      connections, scanning, owners, closed := [], {}, map[], true;
    }
  }
}

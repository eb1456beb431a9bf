/** Event subscriptions, kept in lists under text keys made of the filters: signalling looks
    up at most eight keys and calls what a scan of all registrations would. */
module Subscriptions {
  import opened Wrappers
  import opened DecimalText

  type Callback = nat

  datatype EventType =
    | NodeAdded | NodeUpdated | NodeRemoved | NodeEvent | AttributeUpdated | ServerShutdown | ServerInfoUpdated
    | EndpointAdded | EndpointRemoved | WebrtcCallback | ThreadDiagnosticsUpdated | NetworkTopologyUpdated

  const WILDCARD: string := "*"

  // ---- text ---------------------------------------------------------------------------------------

  function EventValue(e: EventType): string {
    match e
    case NodeAdded => "node_added"
    case NodeUpdated => "node_updated"
    case NodeRemoved => "node_removed"
    case NodeEvent => "node_event"
    case AttributeUpdated => "attribute_updated"
    case ServerShutdown => "server_shutdown"
    case ServerInfoUpdated => "server_info_updated"
    case EndpointAdded => "endpoint_added"
    case EndpointRemoved => "endpoint_removed"
    case WebrtcCallback => "webrtc_callback"
    case ThreadDiagnosticsUpdated => "thread_diagnostics_updated"
    case NetworkTopologyUpdated => "network_topology_updated"
  }

  /** str() of an integer. */
  function IntText(n: int): string {
    if n < 0 then "-" + Digits(-n) else Digits(n)
  }

  function Key(event: string, node: string, path: string): string {
    event + ("/" + (node + ("/" + path)))
  }

  /** Keys of different filters differ. */
  lemma {:induction false} KeyInjective(e: string, n: string, p: string, e': string, n': string, p': string)
    requires Lacks('/', e) && Lacks('/', n) && Lacks('/', e') && Lacks('/', n')
    ensures Key(e, n, p) == Key(e', n', p') <==> e == e' && n == n' && p == p'
  {
    if Key(e, n, p) == Key(e', n', p') {
      SplitAt('/', e, n + ("/" + p), e', n' + ("/" + p'));
      SplitAt('/', n, p, n', p');
    }
  }

  lemma {:induction false} NodeEventsOk(e: EventType)
    requires e.NodeAdded? || e.NodeUpdated? || e.NodeRemoved? || e.NodeEvent?
    ensures Lacks('/', EventValue(e)) && EventValue(e) != WILDCARD
  {
  }

  lemma {:induction false} ServerEventsOk(e: EventType)
    requires e.AttributeUpdated? || e.ServerShutdown? || e.ServerInfoUpdated? || e.EndpointAdded?
    ensures Lacks('/', EventValue(e)) && EventValue(e) != WILDCARD
  {
  }

  lemma {:induction false} OtherEventsOk(e: EventType)
    requires e.EndpointRemoved? || e.WebrtcCallback?
    ensures Lacks('/', EventValue(e)) && EventValue(e) != WILDCARD
  {
  }

  lemma {:induction false} UpdatesOk(e: EventType)
    requires e.ThreadDiagnosticsUpdated? || e.NetworkTopologyUpdated?
    ensures Lacks('/', EventValue(e)) && EventValue(e) != WILDCARD
  {
  }

  lemma {:induction false} EventValueOk(e: EventType)
    ensures Lacks('/', EventValue(e)) && EventValue(e) != WILDCARD
  {
    if e.NodeAdded? || e.NodeUpdated? || e.NodeRemoved? || e.NodeEvent? {
      NodeEventsOk(e);
    } else if e.AttributeUpdated? || e.ServerShutdown? || e.ServerInfoUpdated? || e.EndpointAdded? {
      ServerEventsOk(e);
    } else if e.EndpointRemoved? || e.WebrtcCallback? {
      OtherEventsOk(e);
    } else {
      UpdatesOk(e);
    }
  }

  lemma {:induction false} IntTextOk(n: int)
    ensures Lacks('/', IntText(n)) && IntText(n) != WILDCARD
  {
    DigitsOk(if n < 0 then -n else n);
    assert IntText(n)[0] == '-' || '0' <= IntText(n)[0] <= '9';
  }

  lemma {:induction false} IntTextInjective(m: int, n: int)
    ensures IntText(m) == IntText(n) <==> m == n
  {
    if IntText(m) == IntText(n) {
      DigitsOk(if m < 0 then -m else m);
      DigitsOk(if n < 0 then -n else n);
      assert IntText(m)[0] == '-' <==> m < 0;
      assert IntText(n)[0] == '-' <==> n < 0;
      if m < 0 {
        assert IntText(m)[1..] == Digits(-m) && IntText(n)[1..] == Digits(-n);
        DigitsInjective(-m, -n);
      } else {
        DigitsInjective(m, n);
      }
    }
  }

  // ---- registrations ------------------------------------------------------------------------------

  /** One call of subscribe_events that was not undone. A path filter that is the wildcard's
      own text acts as the wildcard. */
  datatype Registration =
    Registration(event: Option<EventType>, node: Option<int>, path: Option<string>, callback: Callback)

  function EventText(e: Option<EventType>): string {
    if e.None? then WILDCARD else EventValue(e.value)
  }

  function NodeText(n: Option<int>): string {
    if n.None? then WILDCARD else IntText(n.value)
  }

  function PathText(p: Option<string>): string {
    if p.None? then WILDCARD else p.value
  }

  function KeyOf(r: Registration): string {
    Key(EventText(r.event), NodeText(r.node), PathText(r.path))
  }

  /** The callback, if it is registered under the key. */
  function Under(r: Registration, key: string): seq<Callback> {
    if KeyOf(r) == key then [r.callback] else []
  }

  /** The callbacks registered under the key, oldest first. */
  function CallbacksOf(regs: seq<Registration>, key: string): seq<Callback> {
    if regs == [] then [] else Under(regs[0], key) + CallbacksOf(regs[1..], key)
  }

  lemma {:induction false} CallbacksHead(r: Registration, regs: seq<Registration>, key: string)
    ensures CallbacksOf([r] + regs, key) == Under(r, key) + CallbacksOf(regs, key)
  {
    assert ([r] + regs)[1..] == regs;
  }

  lemma {:induction false} CallbacksPush(regs: seq<Registration>, r: Registration, key: string)
    ensures CallbacksOf(regs + [r], key) == CallbacksOf(regs, key) + Under(r, key)
  {
    if regs == [] {
      CallbacksHead(r, [], key);
      assert [] + [r] == [r] + [];
    } else {
      CallbacksPush(regs[1..], r, key);
      CallbacksHead(regs[0], regs[1..] + [r], key);
      assert regs + [r] == [regs[0]] + (regs[1..] + [r]);
      Associate(Under(regs[0], key), CallbacksOf(regs[1..], key), Under(r, key));
    }
  }

  predicate Matches(r: Registration, event: EventType, node: Option<int>, path: Option<string>) {
    && (r.event.None? || r.event.value == event)
    && (r.node.None? || r.node == node)
    && (PathText(r.path) == WILDCARD || r.path == path)
  }

  /** What a scan of all registrations would call. */
  function Scan(regs: seq<Registration>, event: EventType, node: Option<int>, path: Option<string>): seq<Callback> {
    if regs == [] then []
    else
      Scan(regs[..|regs| - 1], event, node, path)
      + (if Matches(regs[|regs| - 1], event, node, path) then [regs[|regs| - 1].callback] else [])
  }

  // ---- the lookup ---------------------------------------------------------------------------------

  function ForPaths(regs: seq<Registration>, e: string, n: string, ps: seq<string>): seq<Callback> {
    if ps == [] then [] else CallbacksOf(regs, Key(e, n, ps[0])) + ForPaths(regs, e, n, ps[1..])
  }

  function ForNodes(regs: seq<Registration>, e: string, ns: seq<string>, ps: seq<string>): seq<Callback> {
    if ns == [] then [] else ForPaths(regs, e, ns[0], ps) + ForNodes(regs, e, ns[1..], ps)
  }

  function ForEvents(regs: seq<Registration>, es: seq<string>, ns: seq<string>, ps: seq<string>): seq<Callback> {
    if es == [] then [] else ForNodes(regs, es[0], ns, ps) + ForEvents(regs, es[1..], ns, ps)
  }

  function EventKeys(event: EventType): seq<string> {
    [EventValue(event), WILDCARD]
  }

  function NodeKeys(node: Option<int>): seq<string> {
    if node.None? then [WILDCARD] else [IntText(node.value), WILDCARD]
  }

  function PathKeys(path: Option<string>): seq<string> {
    if path.None? then [WILDCARD] else [path.value, WILDCARD]
  }

  /** The callbacks signalled, in order. */
  function Signalled(regs: seq<Registration>, event: EventType, node: Option<int>, path: Option<string>): seq<Callback> {
    ForEvents(regs, EventKeys(event), NodeKeys(node), PathKeys(path))
  }

  function Count(xs: seq<string>, x: string): nat {
    if xs == [] then 0 else (if xs[0] == x then 1 else 0) + Count(xs[1..], x)
  }

  function Copies(c: Callback, n: nat): multiset<Callback> {
    multiset{}[c := n]
  }

  predicate Simple(xs: seq<string>) {
    forall i | 0 <= i < |xs| :: Lacks('/', xs[i])
  }

  predicate Once(xs: seq<string>) {
    xs == [] || (xs[0] !in xs[1..] && Once(xs[1..]))
  }

  lemma {:induction false} KeyOfOk(r: Registration)
    ensures Lacks('/', EventText(r.event)) && Lacks('/', NodeText(r.node))
  {
    if r.event.Some? {
      EventValueOk(r.event.value);
    }
    if r.node.Some? {
      IntTextOk(r.node.value);
    }
  }

  lemma {:induction false} KeyPush(regs: seq<Registration>, r: Registration, e: string, n: string, p: string)
    requires Lacks('/', e) && Lacks('/', n)
    ensures var own := if EventText(r.event) == e && NodeText(r.node) == n && PathText(r.path) == p then 1 else 0;
      multiset(CallbacksOf(regs + [r], Key(e, n, p))) == multiset(CallbacksOf(regs, Key(e, n, p))) + Copies(r.callback, own)
  {
    KeyOfOk(r);
    KeyInjective(EventText(r.event), NodeText(r.node), PathText(r.path), e, n, p);
    CallbacksPush(regs, r, Key(e, n, p));
  }

  /** Copies gained in two parts add up. */
  lemma {:induction false} JoinCopies(a: seq<Callback>, a': seq<Callback>, c: Callback, m: nat, b: seq<Callback>,
                                      b': seq<Callback>, n: nat)
    requires multiset(a') == multiset(a) + Copies(c, m) && multiset(b') == multiset(b) + Copies(c, n)
    ensures multiset(a' + b') == multiset(a + b) + Copies(c, m + n)
  {
  }

  /** How often the registration is called for a path key of the event and node. */
  function Own(r: Registration, e: string, n: string, ps: seq<string>): nat {
    if EventText(r.event) == e && NodeText(r.node) == n then Count(ps, PathText(r.path)) else 0
  }

  /** One more registration is called once for each path key that is its own. */
  lemma {:induction false} PathsPush(regs: seq<Registration>, r: Registration, e: string, n: string, ps: seq<string>)
    requires Lacks('/', e) && Lacks('/', n)
    ensures multiset(ForPaths(regs + [r], e, n, ps))
         == multiset(ForPaths(regs, e, n, ps)) + Copies(r.callback, Own(r, e, n, ps))
  {
    if ps != [] {
      PathsPush(regs, r, e, n, ps[1..]);
      FirstPathPush(regs, r, e, n, ps[0]);
      OwnSplit(r, e, n, ps);
      JoinCopies(CallbacksOf(regs, Key(e, n, ps[0])), CallbacksOf(regs + [r], Key(e, n, ps[0])), r.callback,
                 Own(r, e, n, [ps[0]]),
                 ForPaths(regs, e, n, ps[1..]), ForPaths(regs + [r], e, n, ps[1..]), Own(r, e, n, ps[1..]));
    }
  }

  lemma {:induction false} OwnSplit(r: Registration, e: string, n: string, ps: seq<string>)
    requires ps != []
    ensures Own(r, e, n, ps) == Own(r, e, n, [ps[0]]) + Own(r, e, n, ps[1..])
  {
    var x := PathText(r.path);
    assert [ps[0]][1..] == [];
    assert Count([ps[0]], x) == (if ps[0] == x then 1 else 0) + Count([], x);
  }

  lemma {:induction false} OwnOne(r: Registration, e: string, n: string, p: string)
    ensures Own(r, e, n, [p])
         == if EventText(r.event) == e && NodeText(r.node) == n && PathText(r.path) == p then 1 else 0
  {
    assert [p][1..] == [] && Count([], PathText(r.path)) == 0;
  }

  lemma {:induction false} FirstPathPush(regs: seq<Registration>, r: Registration, e: string, n: string, p: string)
    requires Lacks('/', e) && Lacks('/', n)
    ensures multiset(CallbacksOf(regs + [r], Key(e, n, p)))
         == multiset(CallbacksOf(regs, Key(e, n, p))) + Copies(r.callback, Own(r, e, n, [p]))
  {
    KeyPush(regs, r, e, n, p);
    OwnOne(r, e, n, p);
  }

  lemma {:induction false} NodesPush(regs: seq<Registration>, r: Registration, e: string, ns: seq<string>, ps: seq<string>)
    requires Lacks('/', e) && Simple(ns) && Once(ns)
    ensures var own := if EventText(r.event) == e && NodeText(r.node) in ns then Count(ps, PathText(r.path)) else 0;
      multiset(ForNodes(regs + [r], e, ns, ps)) == multiset(ForNodes(regs, e, ns, ps)) + Copies(r.callback, own)
  {
    if ns != [] {
      PathsPush(regs, r, e, ns[0], ps);
      NodesPush(regs, r, e, ns[1..], ps);
    }
  }

  lemma {:induction false} EventsPush(regs: seq<Registration>, r: Registration, es: seq<string>, ns: seq<string>,
                                      ps: seq<string>)
    requires Simple(es) && Once(es) && Simple(ns) && Once(ns)
    ensures var own := if EventText(r.event) in es && NodeText(r.node) in ns then Count(ps, PathText(r.path)) else 0;
      multiset(ForEvents(regs + [r], es, ns, ps)) == multiset(ForEvents(regs, es, ns, ps)) + Copies(r.callback, own)
  {
    if es != [] {
      NodesPush(regs, r, es[0], ns, ps);
      EventsPush(regs, r, es[1..], ns, ps);
    }
  }

  lemma {:induction false} EventValuesDiffer(e: EventType, f: EventType)
    ensures EventValue(e) == EventValue(f) <==> e == f
  {
    if EventValue(e) == EventValue(f) {
      SameLength(e, f);
    }
  }

  /** The lengths of the values, and a letter where lengths agree, tell them apart. */
  function Mark(e: EventType): (int, char) {
    var s := EventValue(e);
    EventValueLong(e);
    (|s|, s[6])
  }

  lemma {:induction false} EventValueLong(e: EventType)
    ensures |EventValue(e)| > 6
  {
  }

  lemma {:induction false} SameLength(e: EventType, f: EventType)
    requires EventValue(e) == EventValue(f)
    ensures e == f
  {
    assert Mark(e) == Mark(f);
  }

  // ---- lookup and scan agree ----------------------------------------------------------------------

  /** A registration matches exactly if its texts are among the keys looked up. */
  lemma {:induction false} MatchIsLookup(r: Registration, event: EventType, node: Option<int>, path: Option<string>)
    ensures EventText(r.event) in EventKeys(event) <==> r.event.None? || r.event.value == event
    ensures NodeText(r.node) in NodeKeys(node) <==> r.node.None? || r.node == node
    ensures Count(PathKeys(path), PathText(r.path))
         == if PathText(r.path) == WILDCARD || r.path == path then (if path == Some(WILDCARD) then 2 else 1) else 0
  {
    if r.event.Some? {
      EventValueOk(r.event.value);
      EventValuesDiffer(r.event.value, event);
    }
    if r.node.Some? {
      IntTextOk(r.node.value);
      if node.Some? {
        IntTextInjective(r.node.value, node.value);
      }
    }
    PathCount(r.path, path);
  }

  lemma {:induction false} PathCount(p: Option<string>, path: Option<string>)
    ensures Count(PathKeys(path), PathText(p))
         == if PathText(p) == WILDCARD || p == path then (if path == Some(WILDCARD) then 2 else 1) else 0
  {
    var ps := PathKeys(path);
    assert [WILDCARD][1..] == [];
    assert Count([WILDCARD], PathText(p)) == if PathText(p) == WILDCARD then 1 else 0;
    if path.Some? {
      assert ps[1..] == [WILDCARD];
    }
  }

  lemma {:induction false} KeysOk(event: EventType, node: Option<int>)
    ensures Simple(EventKeys(event)) && Once(EventKeys(event)) && Simple(NodeKeys(node)) && Once(NodeKeys(node))
  {
    EventValueOk(event);
    assert EventKeys(event)[1..] == [WILDCARD] && [WILDCARD][1..] == [];
    if node.Some? {
      IntTextOk(node.value);
      assert NodeKeys(node)[1..] == [WILDCARD];
    }
  }

  function Twice(m: multiset<Callback>, twice: bool): multiset<Callback> {
    if twice then m + m else m
  }

  lemma {:induction false} NothingForPaths(e: string, n: string, ps: seq<string>)
    ensures ForPaths([], e, n, ps) == []
  {
    if ps != [] {
      NothingForPaths(e, n, ps[1..]);
    }
  }

  lemma {:induction false} NothingForNodes(e: string, ns: seq<string>, ps: seq<string>)
    ensures ForNodes([], e, ns, ps) == []
  {
    if ns != [] {
      NothingForPaths(e, ns[0], ps);
      NothingForNodes(e, ns[1..], ps);
    }
  }

  lemma {:induction false} NothingForEvents(es: seq<string>, ns: seq<string>, ps: seq<string>)
    ensures ForEvents([], es, ns, ps) == []
  {
    if es != [] {
      NothingForNodes(es[0], ns, ps);
      NothingForEvents(es[1..], ns, ps);
    }
  }

  /** The lookup calls what a scan calls; for the wildcard's own text as attribute path, twice. */
  lemma {:induction false} LookupIsScan(regs: seq<Registration>, event: EventType, node: Option<int>, path: Option<string>)
    ensures multiset(Signalled(regs, event, node, path))
         == Twice(multiset(Scan(regs, event, node, path)), path == Some(WILDCARD))
  {
    if regs == [] {
      NothingForEvents(EventKeys(event), NodeKeys(node), PathKeys(path));
    } else {
      var earlier, r := regs[..|regs| - 1], regs[|regs| - 1];
      assert regs == earlier + [r];
      LookupIsScan(earlier, event, node, path);
      SignalledPush(earlier, r, event, node, path);
      ScanPush(earlier, r, event, node, path);
    }
  }

  lemma {:induction false} SignalledPush(regs: seq<Registration>, r: Registration, event: EventType,
                                         node: Option<int>, path: Option<string>)
    ensures multiset(Signalled(regs + [r], event, node, path))
         == multiset(Signalled(regs, event, node, path))
            + Copies(r.callback, if Matches(r, event, node, path) then (if path == Some(WILDCARD) then 2 else 1) else 0)
  {
    KeysOk(event, node);
    EventsPush(regs, r, EventKeys(event), NodeKeys(node), PathKeys(path));
    MatchIsLookup(r, event, node, path);
  }

  lemma {:induction false} ScanPush(regs: seq<Registration>, r: Registration, event: EventType, node: Option<int>,
                                    path: Option<string>)
    ensures multiset(Scan(regs + [r], event, node, path))
         == multiset(Scan(regs, event, node, path)) + Copies(r.callback, if Matches(r, event, node, path) then 1 else 0)
  {
    assert (regs + [r])[..|regs|] == regs;
  }

  /** Each registered callback is called exactly once per matching registration, and no other,
      unless the attribute path is the wildcard's own text and something matches. */
  lemma {:induction false} SignalledOnce(regs: seq<Registration>, event: EventType, node: Option<int>, path: Option<string>)
    ensures multiset(Signalled(regs, event, node, path)) == multiset(Scan(regs, event, node, path))
       <==> path != Some(WILDCARD) || Scan(regs, event, node, path) == []
  {
    LookupIsScan(regs, event, node, path);
    var m := multiset(Scan(regs, event, node, path));
    if path == Some(WILDCARD) && Scan(regs, event, node, path) != [] {
      assert |m + m| == 2 * |m| && |m| > 0;
    }
  }

  /** One callback for everything. */
  const EVERYTHING: seq<Registration> := [Registration(None, None, None, 7)]

  /** An update of an attribute whose path is the wildcard's text calls it twice. */
  lemma {:induction false} CalledTwice(event: EventType, node: Option<int>)
    ensures Scan(EVERYTHING, event, node, Some("*")) == [7]
    ensures multiset(Signalled(EVERYTHING, event, node, Some("*"))) == multiset{7, 7}
  {
    assert EVERYTHING[..0] == [];
    LookupIsScan(EVERYTHING, event, node, Some(WILDCARD));
  }

  // ---- the client ---------------------------------------------------------------------------------

  function RemoveFirst(cs: seq<Callback>, c: Callback): seq<Callback> {
    if cs == [] then [] else if cs[0] == c then cs[1..] else [cs[0]] + RemoveFirst(cs[1..], c)
  }

  /** Undoes the oldest registration of the callback under the key. */
  function Unregister(regs: seq<Registration>, key: string, c: Callback): seq<Registration> {
    if regs == [] then []
    else if KeyOf(regs[0]) == key && regs[0].callback == c then regs[1..]
    else [regs[0]] + Unregister(regs[1..], key, c)
  }

  lemma {:induction false} RemoveHead(c: Callback, cs: seq<Callback>)
    ensures RemoveFirst([c] + cs, c) == cs
  {
  }

  lemma {:induction false} RemoveLater(b: Callback, cs: seq<Callback>, c: Callback)
    requires b != c
    ensures RemoveFirst([b] + cs, c) == [b] + RemoveFirst(cs, c)
  {
    assert ([b] + cs)[1..] == cs;
  }

  /** Under the key, the first equal callback goes; under other keys, nothing changes. */
  lemma {:induction false} UnregisterRemoves(regs: seq<Registration>, key: string, c: Callback, other: string)
    ensures CallbacksOf(Unregister(regs, key, c), other)
         == if other == key then RemoveFirst(CallbacksOf(regs, key), c) else CallbacksOf(regs, other)
  {
    if regs != [] {
      var r := regs[0];
      var rest := CallbacksOf(regs[1..], key);
      if KeyOf(r) == key && r.callback == c {
        RemoveHead(c, rest);
        assert Under(r, other) == (if other == key then [c] else []);
        assert [] + CallbacksOf(regs[1..], other) == CallbacksOf(regs[1..], other);
      } else {
        UnregisterRemoves(regs[1..], key, c, other);
        UnregisterCons(r, regs, key, c, other);
        if KeyOf(r) == key {
          RemoveLater(r.callback, rest, c);
        } else {
          assert Under(r, key) + rest == rest;
        }
      }
    }
  }

  lemma {:induction false} UnregisterCons(r: Registration, regs: seq<Registration>, key: string, c: Callback, other: string)
    requires regs != [] && r == regs[0] && !(KeyOf(r) == key && r.callback == c)
    ensures CallbacksOf(Unregister(regs, key, c), other) == Under(r, other) + CallbacksOf(Unregister(regs[1..], key, c), other)
  {
    assert ([r] + Unregister(regs[1..], key, c))[1..] == Unregister(regs[1..], key, c);
  }

  function Lookup(subscribers: map<string, seq<Callback>>, key: string): seq<Callback> {
    if key in subscribers then subscribers[key] else []
  }

  class MatterClient {
    var subscribers: map<string, seq<Callback>>
    ghost var registrations: seq<Registration>

    /** The lists are the registrations, sorted by key. */
    ghost predicate Valid()
      reads this
    {
      forall key: string :: Lookup(subscribers, key) == CallbacksOf(registrations, key)
    }

    constructor ()
      ensures Valid() && registrations == []
    {
      subscribers := map[];
      registrations := [];
    }

    /** The key, with the callback, is what unsubscribing needs. */
    method SubscribeEvents(callback: Callback, event: Option<EventType>, node: Option<int>, path: Option<string>)
      returns (key: string)
      requires Valid()
      modifies this
      ensures Valid() && registrations == old(registrations) + [Registration(event, node, path, callback)]
      ensures key == KeyOf(Registration(event, node, path, callback))
    {
      key := Key(EventText(event), NodeText(node), PathText(path));
      var list := Lookup(subscribers, key);
      subscribers := subscribers[key := list + [callback]];
      ghost var r := Registration(event, node, path, callback);
      ghost var before := registrations;
      registrations := registrations + [r];
      forall other: string ensures Lookup(subscribers, other) == CallbacksOf(registrations, other) {
        CallbacksPush(before, r, other);
      }
    }

    /** false: ValueError, the callback is not registered under the key any more. */
    method Unsubscribe(key: string, callback: Callback) returns (ok: bool)
      requires Valid() && key in subscribers
      modifies this
      ensures Valid() && ok == (callback in CallbacksOf(old(registrations), key))
      ensures registrations == if ok then Unregister(old(registrations), key, callback) else old(registrations)
    {
      var list := subscribers[key];
      ok := callback in list;
      if ok {
        subscribers := subscribers[key := RemoveFirst(list, callback)];
        ghost var before := registrations;
        registrations := Unregister(registrations, key, callback);
        forall other: string ensures Lookup(subscribers, other) == CallbacksOf(registrations, other) {
          UnregisterRemoves(before, key, callback, other);
        }
      }
    }

    /** The callbacks called, in order; SignalledOnce says which these are. */
    method SignalEvent(event: EventType, node: Option<int>, path: Option<string>) returns (called: seq<Callback>)
      requires Valid()
      ensures called == Signalled(registrations, event, node, path)
    {
      called := [];
      var es, ns, ps := EventKeys(event), NodeKeys(node), PathKeys(path);
      for i := 0 to |es|
        invariant called + ForEvents(registrations, es[i..], ns, ps) == ForEvents(registrations, es, ns, ps)
      {
        var some := SignalNodes(es[i], ns, ps);
        NextEvent(registrations, es[i..], ns, ps);
        assert es[i..][1..] == es[i + 1..];
        Associate(called, some, ForEvents(registrations, es[i + 1..], ns, ps));
        called := called + some;
      }
      assert called + [] == called;
    }

    method SignalNodes(e: string, ns: seq<string>, ps: seq<string>) returns (called: seq<Callback>)
      requires Valid()
      ensures called == ForNodes(registrations, e, ns, ps)
    {
      called := [];
      for i := 0 to |ns|
        invariant called + ForNodes(registrations, e, ns[i..], ps) == ForNodes(registrations, e, ns, ps)
      {
        var some := SignalPaths(e, ns[i], ps);
        assert ns[i..][1..] == ns[i + 1..];
        Associate(called, some, ForNodes(registrations, e, ns[i + 1..], ps));
        called := called + some;
      }
      assert called + [] == called;
    }

    method SignalPaths(e: string, n: string, ps: seq<string>) returns (called: seq<Callback>)
      requires Valid()
      ensures called == ForPaths(registrations, e, n, ps)
    {
      called := [];
      for i := 0 to |ps|
        invariant called + ForPaths(registrations, e, n, ps[i..]) == ForPaths(registrations, e, n, ps)
      {
        var some := Lookup(subscribers, Key(e, n, ps[i]));
        NextPath(registrations, e, n, ps[i..]);
        assert ps[i..][1..] == ps[i + 1..];
        Associate(called, some, ForPaths(registrations, e, n, ps[i + 1..]));
        called := called + some;
      }
      assert called + [] == called;
    }
  }

  lemma {:induction false} Associate(a: seq<Callback>, b: seq<Callback>, c: seq<Callback>)
    ensures a + (b + c) == a + b + c
  {
  }

  lemma {:induction false} NextPath(regs: seq<Registration>, e: string, n: string, ps: seq<string>)
    requires ps != []
    ensures ForPaths(regs, e, n, ps) == CallbacksOf(regs, Key(e, n, ps[0])) + ForPaths(regs, e, n, ps[1..])
  {
  }

  lemma {:induction false} NextEvent(regs: seq<Registration>, es: seq<string>, ns: seq<string>, ps: seq<string>)
    requires es != []
    ensures ForEvents(regs, es, ns, ps) == ForNodes(regs, es[0], ns, ps) + ForEvents(regs, es[1..], ns, ps)
  {
  }

  // ---- which callback goes ------------------------------------------------------------------------

  /** Of equal callbacks under a key the oldest goes, and the others keep their order. */
  lemma {:induction false} OldestRemoved(cs: seq<Callback>, c: Callback) returns (i: nat)
    requires c in cs
    ensures i < |cs| && cs[i] == c && c !in cs[..i] && RemoveFirst(cs, c) == cs[..i] + cs[i + 1..]
  {
    if cs[0] == c {
      i := 0;
      assert cs[..0] == [];
    } else {
      var k := OldestRemoved(cs[1..], c);
      i := k + 1;
      var before, behind := cs[1..][..k], cs[1..][k + 1..];
      assert cs[..i] == [cs[0]] + before && cs[i + 1..] == behind;
      Associate([cs[0]], before, behind);
    }
  }
}

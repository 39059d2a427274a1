/**
 The tunnel's registry as a value, each critical section of its lock as a function, and the whole tunnel as a machine
 whose steps are these sections and what handlers do between them.
 */
module TunnelModel {
  import opened Basics
  import opened Identifiers

  datatype Key = Key(user: int, agent: string)

  // A websocket peer, an agent's or a mobile's; id is its connection id.
  datatype Peer = Peer(id: int, key: Key, isAgent: bool, gateway: bool, discovery: bool)

  // A gateway request; id is its connection id.
  datatype Gateway = Gateway(id: int, key: Key)

  // A call of requestDiscovery, and with it the waiter channel the call made.
  type CallId = int

  datatype Registry = Registry(agents: map<Key, Peer>,
                               mobiles: map<Key, map<int, Peer>>,
                               gateways: map<Key, map<int, Gateway>>,
                               discoveries: map<Key, map<string, CallId>>)

  const MAX_MOBILES := 4
  const MAX_GATEWAYS := 128

  // ----- critical sections -----

  function Attach(r: Registry, p: Peer): (Registry, bool) {
    if p.isAgent then (r.(agents := r.agents[p.key := p], gateways := r.gateways - {p.key}), true)
    else if |Inner(r.mobiles, p.key)| >= MAX_MOBILES then (r, false)
    else (r.(mobiles := Put(r.mobiles, p.key, p.id, p)), true)
  }

  predicate Current(r: Registry, p: Peer) { p.key in r.agents && r.agents[p.key] == p }

  function Detach(r: Registry, p: Peer): Registry {
    if !p.isAgent then r.(mobiles := Cut(r.mobiles, p.key, p.id))
    else if Current(r, p) then r.(agents := r.agents - {p.key}, gateways := r.gateways - {p.key},
                                  discoveries := r.discoveries - {p.key})
    else r
  }

  function AttachGateway(r: Registry, g: Gateway): (Registry, bool) {
    if g.key !in r.agents || !r.agents[g.key].gateway || |Inner(r.gateways, g.key)| >= MAX_GATEWAYS then (r, false)
    else (r.(gateways := Put(r.gateways, g.key, g.id, g)), true)
  }

  function DetachGateway(r: Registry, g: Gateway): Registry { r.(gateways := Cut(r.gateways, g.key, g.id)) }

  datatype Admission = Unsupported | Duplicate | Admitted

  function BeginDiscovery(r: Registry, key: Key, requestId: string, call: CallId): (Registry, Admission) {
    if key !in r.agents || !r.agents[key].discovery then (r, Unsupported)
    else if Has(r.discoveries, key, requestId) then (r, Duplicate)
    else (r.(discoveries := Put(r.discoveries, key, requestId, call)), Admitted)
  }

  // The deferred clean-up removes the entry only if it is still the call's own.
  function EndDiscovery(r: Registry, key: Key, requestId: string, call: CallId): Registry {
    if Has(r.discoveries, key, requestId) && r.discoveries[key][requestId] == call
    then r.(discoveries := Cut(r.discoveries, key, requestId)) else r
  }

  // The waiter deliverDiscovery finds for a frame of this peer.
  function FindWaiter(r: Registry, p: Peer, requestId: string): Option<CallId> {
    if ValidIdentifier(requestId, 8, 128) && Current(r, p) && Has(r.discoveries, p.key, requestId)
    then Some(r.discoveries[p.key][requestId]) else None
  }

  // ----- the machine -----

  datatype Outcome = Payload(text: string, from: Peer) | ErrUnsupported | ErrUnavailable | ErrContext

  datatype Phase = Sending | Waiting | Finished(result: Outcome) | Returned(result: Outcome)

  datatype Call = Call(key: Key, requestId: string, phase: Phase)

  // A payload on its way into the waiter that was looked up for it.
  datatype Answer = Answer(from: Peer, requestId: string, call: CallId, text: string)

  /**
   attached and joined remember every peer that was ever registered, and every gateway with the agent it joined under;
   closing holds the gateways that left the registry and are to be closed after the unlock, failing the waiters that
   a disconnect captured and has yet to notify, inFlight the answers looked up and not yet sent, and served the waiters
   that were ever sent a result.
   */
  datatype Tunnel = Tunnel(reg: Registry,
                           closedPeers: set<Peer>, closedGateways: set<Gateway>,
                           attached: set<Peer>, joined: map<Gateway, Peer>, closing: set<Gateway>,
                           calls: map<CallId, Call>, boxes: map<CallId, Outcome>, served: set<CallId>,
                           inFlight: set<Answer>, answered: set<Answer>, failing: set<CallId>)

  datatype Act =
    | AttachAct(peer: Peer)
    | ClosePeerAct(peer: Peer)
    | DetachAct(peer: Peer)
    | AttachGatewayAct(gate: Gateway)
    | DetachGatewayAct(gate: Gateway)
    | CloseGatewayAct(gate: Gateway)
    | BeginAct(call: CallId, key: Key, requestId: string)
    | SentAct(call: CallId, ok: bool)
    | ReceiveAct(call: CallId)
    | GiveUpAct(call: CallId, cancelled: bool)
    | EndAct(call: CallId)
    | LookUpAct(peer: Peer, requestId: string, text: string)
    | PostAct(answer: Answer)
    | FailAct(call: CallId)

  predicate FreshPeer(t: Tunnel, p: Peer) { forall q :: q in t.attached ==> q.id != p.id }

  predicate FreshGateway(t: Tunnel, g: Gateway) { forall h :: h in t.joined ==> h.id != g.id }

  function SetPhase(t: Tunnel, c: CallId, phase: Phase): Tunnel
    requires c in t.calls
  {
    t.(calls := t.calls[c := t.calls[c].(phase := phase)])
  }

  function Captured(r: Registry, key: Key): set<CallId> { Inner(r.discoveries, key).Values }

  // A non-blocking send into a waiter that holds one result.
  function Send(t: Tunnel, c: CallId, result: Outcome): Tunnel {
    if c in t.boxes then t else t.(boxes := t.boxes[c := result], served := t.served + {c})
  }

  function AttachStep(t: Tunnel, p: Peer): Tunnel {
    var (reg, ok) := Attach(t.reg, p);
    if !ok then t.(closedPeers := t.closedPeers + {p})
    else if p.isAgent then
      t.(reg := reg, attached := t.attached + {p},
         closedPeers := if p.key in t.reg.agents then t.closedPeers + {t.reg.agents[p.key]} else t.closedPeers,
         closedGateways := t.closedGateways + Inner(t.reg.gateways, p.key).Values)
    else t.(reg := reg, attached := t.attached + {p})
  }

  function DetachStep(t: Tunnel, p: Peer): Tunnel {
    if p.isAgent && Current(t.reg, p)
    then t.(reg := Detach(t.reg, p), closing := t.closing + Inner(t.reg.gateways, p.key).Values,
            failing := t.failing + Captured(t.reg, p.key))
    else t.(reg := Detach(t.reg, p))
  }

  function BeginStep(t: Tunnel, c: CallId, key: Key, requestId: string): Tunnel {
    var (reg, admission) := BeginDiscovery(t.reg, key, requestId, c);
    var phase := match admission
                 case Unsupported => Returned(ErrUnsupported)
                 case Duplicate => Returned(ErrUnavailable)
                 case Admitted => Sending;
    t.(reg := reg, calls := t.calls[c := Call(key, requestId, phase)])
  }

  function Step(t: Tunnel, a: Act): Tunnel {
    match a
    case AttachAct(p) => if FreshPeer(t, p) then AttachStep(t, p) else t
    case ClosePeerAct(p) => t.(closedPeers := t.closedPeers + {p})
    case DetachAct(p) => if p in t.attached && p in t.closedPeers then DetachStep(t, p) else t
    case AttachGatewayAct(g) =>
      if FreshGateway(t, g) && AttachGateway(t.reg, g).1
      then t.(reg := AttachGateway(t.reg, g).0, joined := t.joined[g := t.reg.agents[g.key]]) else t
    case DetachGatewayAct(g) =>
      if g in t.joined then t.(reg := DetachGateway(t.reg, g), closing := t.closing + {g}) else t
    case CloseGatewayAct(g) => t.(closedGateways := t.closedGateways + {g}, closing := t.closing - {g})
    case BeginAct(c, key, requestId) => if c in t.calls then t else BeginStep(t, c, key, requestId)
    case SentAct(c, ok) =>
      if c in t.calls && t.calls[c].phase == Sending
      then SetPhase(t, c, if ok then Waiting else Finished(ErrUnavailable)) else t
    case ReceiveAct(c) =>
      if c in t.calls && t.calls[c].phase == Waiting && c in t.boxes
      then SetPhase(t, c, Finished(t.boxes[c])).(boxes := t.boxes - {c}) else t
    case GiveUpAct(c, cancelled) =>
      if c in t.calls && t.calls[c].phase == Waiting
      then SetPhase(t, c, Finished(if cancelled then ErrContext else ErrUnavailable)) else t
    case EndAct(c) =>
      if c in t.calls && t.calls[c].phase.Finished?
      then SetPhase(t, c, Returned(t.calls[c].phase.result))
           .(reg := EndDiscovery(t.reg, t.calls[c].key, t.calls[c].requestId, c)) else t
    case LookUpAct(p, requestId, text) =>
      var waiter := FindWaiter(t.reg, p, requestId);
      if waiter.None? then t
      else
        var answer := Answer(p, requestId, waiter.value, text);
        t.(inFlight := t.inFlight + {answer}, answered := t.answered + {answer})
    case PostAct(answer) =>
      if answer in t.inFlight
      then Send(t, answer.call, Payload(answer.text, answer.from)).(inFlight := t.inFlight - {answer}) else t
    case FailAct(c) => if c in t.failing then Send(t, c, ErrUnavailable).(failing := t.failing - {c}) else t
  }

  // The state after a run; prefixes of the run give the states on the way.
  function Exec(t: Tunnel, acts: seq<Act>): Tunnel {
    if acts == [] then t else Step(Exec(t, acts[..|acts| - 1]), acts[|acts| - 1])
  }

  const EMPTY := Registry(map[], map[], map[], map[])

  const START := Tunnel(EMPTY, {}, {}, {}, map[], {}, map[], map[], {}, {}, {}, {})
}

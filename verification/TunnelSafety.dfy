/**
 What every interleaving of the tunnel's critical sections keeps in its registry of peers and gateways.
 */
module TunnelSafety {
  import opened Basics
  import opened TunnelModel

  // Agents are stored under their own key; an agent that is no longer current is closed.
  ghost predicate AgentsOk(agents: map<Key, Peer>, attached: set<Peer>, closed: set<Peer>) {
    && (forall k :: k in agents ==> agents[k].key == k && agents[k].isAgent && agents[k] in attached)
    && (forall p :: p in attached && p.isAgent ==> (p.key in agents && agents[p.key] == p) || p in closed)
  }

  ghost predicate Stored<V>(m: map<Key, map<int, V>>, k: Key, i: int, v: V) { Has(m, k, i) && m[k][i] == v }

  // Mobiles are stored under their own key and id, at most four a key.
  ghost predicate MobilesOk(mobiles: map<Key, map<int, Peer>>, attached: set<Peer>) {
    && NoEmptyInner(mobiles)
    && (forall k :: k in mobiles ==> |mobiles[k]| <= MAX_MOBILES)
    && (forall k, i | Has(mobiles, k, i) ::
          var p := mobiles[k][i]; p.key == k && p.id == i && !p.isAgent && p in attached)
  }

  // An attached mobile stays in the registry until it is closed.
  ghost predicate MobilesKept(mobiles: map<Key, map<int, Peer>>, attached: set<Peer>, closed: set<Peer>) {
    && (forall p, q | p in attached && q in attached && p.id == q.id :: p == q)
    && (forall p :: p in attached && !p.isAgent ==> Stored(mobiles, p.key, p.id, p) || p in closed)
  }

  // Gateways are stored under their own key and id, at most 128 a key, and only under the agent they joined,
  // which is current and accepts gateways.
  ghost predicate GatewaysOk(gateways: map<Key, map<int, Gateway>>, agents: map<Key, Peer>,
                             joined: map<Gateway, Peer>)
  {
    && NoEmptyInner(gateways)
    && (forall k :: k in gateways ==> |gateways[k]| <= MAX_GATEWAYS && k in agents && agents[k].gateway)
    && (forall k, i | Has(gateways, k, i) ::
          var g := gateways[k][i]; g.key == k && g.id == i && g in joined && joined[g] == agents[k])
  }

  // A gateway that has left the registry is closed, or about to be.
  ghost predicate NoneLost(gateways: map<Key, map<int, Gateway>>, joined: map<Gateway, Peer>,
                           closed: set<Gateway>, closing: set<Gateway>)
  {
    forall g :: g in joined ==> Stored(gateways, g.key, g.id, g) || g in closed || g in closing
  }

  ghost predicate RegistryOk(t: Tunnel) {
    && AgentsOk(t.reg.agents, t.attached, t.closedPeers)
    && MobilesOk(t.reg.mobiles, t.attached)
    && MobilesKept(t.reg.mobiles, t.attached, t.closedPeers)
    && GatewaysOk(t.reg.gateways, t.reg.agents, t.joined)
    && NoneLost(t.reg.gateways, t.joined, t.closedGateways, t.closing)
  }

  // ----- peers -----

  lemma NewMobile(mobiles: map<Key, map<int, Peer>>, attached: set<Peer>, p: Peer)
    requires MobilesOk(mobiles, attached) && !p.isAgent && |Inner(mobiles, p.key)| < MAX_MOBILES
    ensures MobilesOk(Put(mobiles, p.key, p.id, p), attached + {p})
  {
    PutEntries(mobiles, p.key, p.id, p);
    var more: map<Key, map<int, Peer>> := Put(mobiles, p.key, p.id, p);
    forall k, i | Has(more, k, i)
      ensures more[k][i].key == k && more[k][i].id == i && !more[k][i].isAgent && more[k][i] in attached + {p}
    {
      assert (k == p.key && i == p.id) || Has(mobiles, k, i);
    }
  }

  lemma NewMobileKept(mobiles: map<Key, map<int, Peer>>, attached: set<Peer>, closed: set<Peer>, p: Peer)
    requires MobilesKept(mobiles, attached, closed) && !p.isAgent && forall q :: q in attached ==> q.id != p.id
    ensures MobilesKept(Put(mobiles, p.key, p.id, p), attached + {p}, closed)
  {
    PutEntries(mobiles, p.key, p.id, p);
    var more: map<Key, map<int, Peer>> := Put(mobiles, p.key, p.id, p);
    forall q | q in attached + {p} && !q.isAgent ensures Stored(more, q.key, q.id, q) || q in closed {
      assert q == p || Stored(mobiles, q.key, q.id, q) || q in closed;
    }
  }

  lemma NewAgent(agents: map<Key, Peer>, attached: set<Peer>, closed: set<Peer>, p: Peer, closed': set<Peer>)
    requires AgentsOk(agents, attached, closed) && p.isAgent && closed <= closed'
    requires p.key in agents ==> agents[p.key] in closed'
    ensures AgentsOk(agents[p.key := p], attached + {p}, closed')
  {}

  lemma AgentKeepsMobiles(mobiles: map<Key, map<int, Peer>>, attached: set<Peer>, closed: set<Peer>, p: Peer,
                          closed': set<Peer>)
    requires MobilesOk(mobiles, attached) && MobilesKept(mobiles, attached, closed) && p.isAgent && closed <= closed'
    requires forall q :: q in attached ==> q.id != p.id
    ensures MobilesOk(mobiles, attached + {p}) && MobilesKept(mobiles, attached + {p}, closed')
  {}

  lemma OldMobile(mobiles: map<Key, map<int, Peer>>, attached: set<Peer>, closed: set<Peer>, p: Peer)
    requires MobilesOk(mobiles, attached) && MobilesKept(mobiles, attached, closed) && p in attached && p in closed
    ensures MobilesOk(Cut(mobiles, p.key, p.id), attached) && MobilesKept(Cut(mobiles, p.key, p.id), attached, closed)
  {
    CutEntries(mobiles, p.key, p.id);
    forall q | q in attached && !q.isAgent ensures Stored(Cut(mobiles, p.key, p.id), q.key, q.id, q) || q in closed {
      assert Stored(mobiles, q.key, q.id, q) || q in closed;
    }
  }

  lemma ClosedMore(t: Tunnel, closed: set<Peer>)
    requires AgentsOk(t.reg.agents, t.attached, t.closedPeers) && MobilesKept(t.reg.mobiles, t.attached, t.closedPeers)
    requires t.closedPeers <= closed
    ensures AgentsOk(t.reg.agents, t.attached, closed) && MobilesKept(t.reg.mobiles, t.attached, closed)
  {
    forall p | p in t.attached && !p.isAgent ensures Stored(t.reg.mobiles, p.key, p.id, p) || p in closed {
      assert Stored(t.reg.mobiles, p.key, p.id, p) || p in t.closedPeers;
    }
  }

  // ----- gateways -----

  // Once its agent is replaced or gone, no gateway stays under the key.
  lemma ShutKey(gateways: map<Key, map<int, Gateway>>, agents: map<Key, Peer>, joined: map<Gateway, Peer>,
                key: Key, agents': map<Key, Peer>)
    requires GatewaysOk(gateways, agents, joined)
    requires forall k :: k in agents && k != key ==> k in agents' && agents'[k] == agents[k]
    ensures GatewaysOk(gateways - {key}, agents', joined)
  {
    forall k, i | Has(gateways - {key}, k, i) ensures Has(gateways, k, i) && k != key {}
  }

  // The gateways captured under the key are accounted for.
  lemma ShutLost(gateways: map<Key, map<int, Gateway>>, joined: map<Gateway, Peer>,
                 closed: set<Gateway>, closing: set<Gateway>, key: Key, closed': set<Gateway>, closing': set<Gateway>)
    requires NoneLost(gateways, joined, closed, closing) && closed <= closed' && closing <= closing'
    requires Inner(gateways, key).Values <= closed' + closing'
    ensures NoneLost(gateways - {key}, joined, closed', closing')
  {
    forall g | g in joined ensures Stored(gateways - {key}, g.key, g.id, g) || g in closed' || g in closing' {
      if Stored(gateways, g.key, g.id, g) && g.key == key { assert g in Inner(gateways, key).Values; }
    }
  }

  lemma NewGateway(gateways: map<Key, map<int, Gateway>>, agents: map<Key, Peer>, joined: map<Gateway, Peer>,
                   closed: set<Gateway>, closing: set<Gateway>, g: Gateway)
    requires GatewaysOk(gateways, agents, joined) && NoneLost(gateways, joined, closed, closing)
    requires g.key in agents && agents[g.key].gateway && |Inner(gateways, g.key)| < MAX_GATEWAYS && g !in joined
    ensures GatewaysOk(Put(gateways, g.key, g.id, g), agents, joined[g := agents[g.key]])
    ensures NoneLost(Put(gateways, g.key, g.id, g), joined[g := agents[g.key]], closed, closing)
  {
    PutEntries(gateways, g.key, g.id, g);
    var joined' := joined[g := agents[g.key]];
    forall h | h in joined'
      ensures Stored(Put(gateways, g.key, g.id, g), h.key, h.id, h) || h in closed || h in closing
    {
      assert h == g || Stored(gateways, h.key, h.id, h) || h in closed || h in closing;
    }
  }

  lemma OldGateway(gateways: map<Key, map<int, Gateway>>, agents: map<Key, Peer>, joined: map<Gateway, Peer>,
                   closed: set<Gateway>, closing: set<Gateway>, g: Gateway)
    requires GatewaysOk(gateways, agents, joined) && NoneLost(gateways, joined, closed, closing)
    ensures GatewaysOk(Cut(gateways, g.key, g.id), agents, joined)
    ensures NoneLost(Cut(gateways, g.key, g.id), joined, closed, closing + {g})
  {
    CutEntries(gateways, g.key, g.id);
    forall h | h in joined
      ensures Stored(Cut(gateways, g.key, g.id), h.key, h.id, h) || h in closed || h in closing + {g}
    {
      assert Stored(gateways, h.key, h.id, h) || h in closed || h in closing;
    }
  }

  // ----- steps -----

  lemma AttachOk(t: Tunnel, p: Peer)
    requires RegistryOk(t) && FreshPeer(t, p)
    ensures RegistryOk(AttachStep(t, p))
  {
    var u := AttachStep(t, p);
    if !Attach(t.reg, p).1 {
      ClosedMore(t, u.closedPeers);
    } else if p.isAgent {
      NewAgent(t.reg.agents, t.attached, t.closedPeers, p, u.closedPeers);
      AgentKeepsMobiles(t.reg.mobiles, t.attached, t.closedPeers, p, u.closedPeers);
      ShutKey(t.reg.gateways, t.reg.agents, t.joined, p.key, u.reg.agents);
      ShutLost(t.reg.gateways, t.joined, t.closedGateways, t.closing, p.key, u.closedGateways, u.closing);
    } else {
      NewMobile(t.reg.mobiles, t.attached, p);
      NewMobileKept(t.reg.mobiles, t.attached, t.closedPeers, p);
      assert AgentsOk(u.reg.agents, u.attached, u.closedPeers);
    }
  }

  lemma DetachOk(t: Tunnel, p: Peer)
    requires RegistryOk(t) && p in t.attached && p in t.closedPeers
    ensures RegistryOk(DetachStep(t, p))
  {
    var u := DetachStep(t, p);
    if !p.isAgent {
      OldMobile(t.reg.mobiles, t.attached, t.closedPeers, p);
    } else if Current(t.reg, p) {
      ShutKey(t.reg.gateways, t.reg.agents, t.joined, p.key, u.reg.agents);
      ShutLost(t.reg.gateways, t.joined, t.closedGateways, t.closing, p.key, u.closedGateways, u.closing);
      assert AgentsOk(u.reg.agents, u.attached, u.closedPeers);
    }
  }

  predicate OfDiscovery(a: Act) {
    a.BeginAct? || a.SentAct? || a.ReceiveAct? || a.GiveUpAct? || a.EndAct? || a.LookUpAct? || a.PostAct? || a.FailAct?
  }

  // The steps of a discovery touch neither peers nor gateways.
  lemma DiscoveryElsewhere(t: Tunnel, a: Act)
    requires OfDiscovery(a)
    ensures var u := Step(t, a);
            u.reg == t.reg.(discoveries := u.reg.discoveries) && u.closedPeers == t.closedPeers &&
            u.closedGateways == t.closedGateways && u.attached == t.attached && u.joined == t.joined &&
            u.closing == t.closing
  {}

  lemma StepRegistryOk(t: Tunnel, a: Act)
    requires RegistryOk(t)
    ensures RegistryOk(Step(t, a))
  {
    if OfDiscovery(a) {
      DiscoveryElsewhere(t, a);
    } else {
      match a
      case AttachAct(p) => if FreshPeer(t, p) { AttachOk(t, p); }
      case DetachAct(p) => if p in t.attached && p in t.closedPeers { DetachOk(t, p); }
      case AttachGatewayAct(g) =>
        if FreshGateway(t, g) && AttachGateway(t.reg, g).1 {
          NewGateway(t.reg.gateways, t.reg.agents, t.joined, t.closedGateways, t.closing, g);
        }
      case DetachGatewayAct(g) =>
        if g in t.joined { OldGateway(t.reg.gateways, t.reg.agents, t.joined, t.closedGateways, t.closing, g); }
      case ClosePeerAct(p) => ClosedMore(t, t.closedPeers + {p});
      case CloseGatewayAct(g) =>
    }
  }

  // In every reachable state of the tunnel the registry is in order.
  lemma {:induction false} RegistryAlwaysOk(acts: seq<Act>)
    ensures RegistryOk(Exec(START, acts))
  {
    if acts != [] {
      RegistryAlwaysOk(acts[..|acts| - 1]);
      StepRegistryOk(Exec(START, acts[..|acts| - 1]), acts[|acts| - 1]);
    }
  }

  // Of all agents that ever attached under a key, at most one is open, and it is the one in the registry.
  lemma OneOpenAgent(acts: seq<Act>, p: Peer, q: Peer)
    requires var t := Exec(START, acts);
             p in t.attached && q in t.attached && p.isAgent && q.isAgent && p.key == q.key &&
             p !in t.closedPeers && q !in t.closedPeers
    ensures p == q && Current(Exec(START, acts).reg, p)
  {
    RegistryAlwaysOk(acts);
  }
}

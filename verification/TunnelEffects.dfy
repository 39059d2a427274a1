/**
 What the critical sections of the tunnel do to each entry of the registry, and that a call nobody disturbs gets the
 agent's answer.
 */
module TunnelEffects {
  import opened Basics
  import opened Identifiers
  import opened TunnelModel

  // The entries of b are those of a, apart from this one.
  ghost predicate Elsewhere<V(!new)>(a: map<Key, map<int, V>>, b: map<Key, map<int, V>>, k: Key, i: int) {
    forall k', i' | !(k' == k && i' == i) ::
      (Has(b, k', i') <==> Has(a, k', i')) && (Has(a, k', i') ==> b[k'][i'] == a[k'][i'])
  }

  // An agent always attaches, in place of the one before it and its gateways.
  lemma AgentAttaches(r: Registry, p: Peer)
    requires p.isAgent
    ensures var (q, ok) := Attach(r, p);
            && ok && p.key in q.agents && q.agents[p.key] == p && p.key !in q.gateways
            && (forall k :: k != p.key ==>
                  (k in q.agents <==> k in r.agents) && (k in r.agents ==> q.agents[k] == r.agents[k]))
            && (forall k :: k != p.key ==>
                  (k in q.gateways <==> k in r.gateways) && (k in r.gateways ==> q.gateways[k] == r.gateways[k]))
            && q.mobiles == r.mobiles && q.discoveries == r.discoveries
  {}

  // A mobile attaches unless its key has four already.
  lemma MobileAttaches(r: Registry, p: Peer)
    requires !p.isAgent
    ensures var (q, ok) := Attach(r, p);
            && (ok <==> p.key in r.mobiles ==> |r.mobiles[p.key]| < 4)
            && (!ok ==> q == r)
            && (ok ==> && p.key in q.mobiles && p.id in q.mobiles[p.key] && q.mobiles[p.key][p.id] == p
                       && Elsewhere(r.mobiles, q.mobiles, p.key, p.id) && q == r.(mobiles := q.mobiles))
  {
    PutEntries(r.mobiles, p.key, p.id, p);
  }

  lemma MobileDetaches(r: Registry, p: Peer)
    requires !p.isAgent
    ensures var q := Detach(r, p);
            && !Has(q.mobiles, p.key, p.id) && Elsewhere(r.mobiles, q.mobiles, p.key, p.id)
            && q == r.(mobiles := q.mobiles)
  {
    CutEntries(r.mobiles, p.key, p.id);
  }

  // The current agent leaves with its gateways and waiters; one that was replaced leaves nothing behind to remove.
  lemma AgentDetaches(r: Registry, p: Peer)
    requires p.isAgent
    ensures var q := Detach(r, p);
            if p.key in r.agents && r.agents[p.key] == p
            then q == Registry(r.agents - {p.key}, r.mobiles, r.gateways - {p.key}, r.discoveries - {p.key})
            else q == r
  {}

  lemma GatewayAttaches(r: Registry, g: Gateway)
    ensures var (q, ok) := AttachGateway(r, g);
            && (ok <==> && g.key in r.agents && r.agents[g.key].gateway
                        && (g.key in r.gateways ==> |r.gateways[g.key]| < 128))
            && (!ok ==> q == r)
            && (ok ==> && g.key in q.gateways && g.id in q.gateways[g.key] && q.gateways[g.key][g.id] == g
                       && Elsewhere(r.gateways, q.gateways, g.key, g.id) && q == r.(gateways := q.gateways))
  {
    PutEntries(r.gateways, g.key, g.id, g);
  }

  lemma GatewayDetaches(r: Registry, g: Gateway)
    ensures var q := DetachGateway(r, g);
            && !Has(q.gateways, g.key, g.id) && Elsewhere(r.gateways, q.gateways, g.key, g.id)
            && q == r.(gateways := q.gateways)
  {
    CutEntries(r.gateways, g.key, g.id);
  }

  // A call is admitted exactly if an agent that serves discovery is there and its request id is not pending.
  lemma CallAdmitted(r: Registry, key: Key, requestId: string, c: CallId)
    ensures var (q, a) := BeginDiscovery(r, key, requestId, c);
            var pending := key in r.discoveries && requestId in r.discoveries[key];
            && (a == Unsupported <==> !(key in r.agents && r.agents[key].discovery))
            && (a == Admitted <==> key in r.agents && r.agents[key].discovery && !pending)
            && (a != Admitted ==> q == r)
            && (a == Admitted ==>
                  key in q.discoveries && requestId in q.discoveries[key] && q.discoveries[key][requestId] == c)
  {}

  // An answer finds the waiter of its id if and only if it comes from the agent that is current for the key.
  lemma AnswerFindsWaiter(r: Registry, p: Peer, requestId: string, c: CallId)
    requires 8 <= |requestId| <= 128 && forall i :: 0 <= i < |requestId| ==> IdentifierChar(requestId[i])
    ensures FindWaiter(r, p, requestId) == Some(c) <==>
            && p.key in r.agents && r.agents[p.key] == p
            && p.key in r.discoveries && requestId in r.discoveries[p.key] && r.discoveries[p.key][requestId] == c
  {}

  lemma CallWaits(t: Tunnel, c: CallId, p: Peer, requestId: string)
    requires c !in t.calls && p.discovery && p.key in t.reg.agents && t.reg.agents[p.key] == p
    requires !(p.key in t.reg.discoveries && requestId in t.reg.discoveries[p.key])
    ensures var w := Step(Step(t, BeginAct(c, p.key, requestId)), SentAct(c, true));
            && c in w.calls && w.calls[c] == Call(p.key, requestId, Waiting) && w.boxes == t.boxes
            && w.reg.agents == t.reg.agents && p.key in w.reg.discoveries
            && requestId in w.reg.discoveries[p.key] && w.reg.discoveries[p.key][requestId] == c
  {
    var begun := Step(t, BeginAct(c, p.key, requestId));
    assert begun.calls[c] == Call(p.key, requestId, Sending);
  }

  lemma AnswerPosted(w: Tunnel, c: CallId, p: Peer, requestId: string, text: string)
    requires c !in w.boxes && FindWaiter(w.reg, p, requestId) == Some(c)
    ensures var u := Step(Step(w, LookUpAct(p, requestId, text)), PostAct(Answer(p, requestId, c, text)));
            u.calls == w.calls && c in u.boxes && u.boxes[c] == Payload(text, p)
  {
    var answered := Step(w, LookUpAct(p, requestId, text));
    assert answered.calls == w.calls && answered.boxes == w.boxes && Answer(p, requestId, c, text) in answered.inFlight;
  }

  lemma ResultReturned(u: Tunnel, c: CallId)
    requires c in u.calls && u.calls[c].phase == Waiting && c in u.boxes
    ensures var v := Step(Step(u, ReceiveAct(c)), EndAct(c));
            c in v.calls && v.calls[c] == u.calls[c].(phase := Returned(u.boxes[c]))
  {
    var received := Step(u, ReceiveAct(c));
    assert received.calls[c] == u.calls[c].(phase := Finished(u.boxes[c]));
  }

  // A call that begins while the agent is there, whose request is sent and answered, returns the agent's answer.
  lemma CallGetsItsAnswer(t: Tunnel, c: CallId, p: Peer, requestId: string, text: string)
    requires c !in t.calls && c !in t.boxes && p.discovery && p.key in t.reg.agents && t.reg.agents[p.key] == p
    requires !(p.key in t.reg.discoveries && requestId in t.reg.discoveries[p.key])
    requires 8 <= |requestId| <= 128 && forall i :: 0 <= i < |requestId| ==> IdentifierChar(requestId[i])
    ensures var waiting := Step(Step(t, BeginAct(c, p.key, requestId)), SentAct(c, true));
            var posted := Step(Step(waiting, LookUpAct(p, requestId, text)), PostAct(Answer(p, requestId, c, text)));
            var u := Step(Step(posted, ReceiveAct(c)), EndAct(c));
            c in u.calls && u.calls[c] == Call(p.key, requestId, Returned(Payload(text, p)))
  {
    var waiting := Step(Step(t, BeginAct(c, p.key, requestId)), SentAct(c, true));
    CallWaits(t, c, p, requestId);
    AnswerFindsWaiter(waiting.reg, p, requestId, c);
    AnswerPosted(waiting, c, p, requestId, text);
    ResultReturned(Step(Step(waiting, LookUpAct(p, requestId, text)), PostAct(Answer(p, requestId, c, text))), c);
  }

  // One whose request cannot be sent, or that gives up, returns that.
  lemma CallGivesUp(t: Tunnel, c: CallId, cancelled: bool)
    requires c in t.calls && t.calls[c].phase == Waiting
    ensures var u := Step(Step(t, GiveUpAct(c, cancelled)), EndAct(c));
            c in u.calls && u.calls[c].phase == Returned(if cancelled then ErrContext else ErrUnavailable)
  {
    var g := Step(t, GiveUpAct(c, cancelled));
    assert g.calls[c].phase == Finished(if cancelled then ErrContext else ErrUnavailable);
  }
}

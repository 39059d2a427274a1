/**
 The tunnel as an object: its four maps under the lock, and the closed flags of peers and gateways.
 Each method is one critical section, or what its caller does after the unlock.
 */
module TunnelStore {
  import opened Basics
  import opened Identifiers
  import opened TunnelModel

  // Each of these waiters holds a result, the new results are failures, and nothing else has changed.
  ghost predicate Notified(before: map<CallId, Outcome>, after: map<CallId, Outcome>, waiters: set<CallId>) {
    && (forall c :: c in waiters ==> c in after)
    && (forall c :: c in before ==> c in after && after[c] == before[c])
    && (forall c :: c in after && c !in before ==> c in waiters && after[c] == ErrUnavailable)
  }

  class HapiTunnel {
    var agents: map<Key, Peer>
    var mobiles: map<Key, map<int, Peer>>
    var gateways: map<Key, map<int, Gateway>>
    var discoveries: map<Key, map<string, CallId>>
    var closedPeers: set<Peer>
    var closedGateways: set<Gateway>
    // What each waiter channel, of capacity one, holds.
    var boxes: map<CallId, Outcome>

    ghost function Reg(): Registry
      reads this
    {
      Registry(agents, mobiles, gateways, discoveries)
    }

    constructor ()
      ensures Reg() == EMPTY && closedPeers == {} && closedGateways == {} && boxes == map[]
    {
      agents, mobiles, gateways, discoveries := map[], map[], map[], map[];
      closedPeers, closedGateways, boxes := {}, {}, map[];
    }

    method Attach(p: Peer) returns (ok: bool)
      modifies this
      ensures (Reg(), ok) == TunnelModel.Attach(old(Reg()), p)
      ensures closedPeers == old(closedPeers) + if p.isAgent && p.key in old(agents) then {old(agents)[p.key]} else {}
      ensures closedGateways == old(closedGateways) + if p.isAgent then Inner(old(gateways), p.key).Values else {}
      ensures boxes == old(boxes)
    {
      if p.isAgent {
        if p.key in agents {
          closedPeers := closedPeers + {agents[p.key]};
        }
        if p.key in gateways {
          CloseGateways(gateways[p.key].Values);
        }
        gateways := gateways - {p.key};
        agents := agents[p.key := p];
        return true;
      }
      if p.key in mobiles && |mobiles[p.key]| >= MAX_MOBILES {
        return false;
      }
      var peers: map<int, Peer> := map[];
      if p.key in mobiles {
        peers := mobiles[p.key];
      }
      mobiles := mobiles[p.key := peers[p.id := p]];
      return true;
    }

    method CloseGateways(captured: set<Gateway>)
      modifies this`closedGateways
      ensures closedGateways == old(closedGateways) + captured
    {
      var rest := captured;
      while rest != {}
        invariant rest <= captured && closedGateways == old(closedGateways) + (captured - rest)
        decreases |rest|
      {
        var g := Pick(rest);
        closedGateways := closedGateways + {g};
        rest := rest - {g};
      }
    }

    method ClosePeer(p: Peer)
      modifies this`closedPeers
      ensures closedPeers == old(closedPeers) + {p}
    {
      closedPeers := closedPeers + {p};
    }

    // The locked part of detach; what it captures is dealt with after the unlock.
    method DetachLocked(p: Peer) returns (captured: set<Gateway>, waiters: set<CallId>)
      modifies this`agents, this`mobiles, this`gateways, this`discoveries
      ensures Reg() == TunnelModel.Detach(old(Reg()), p)
      ensures p.isAgent && Current(old(Reg()), p) ==>
                captured == Inner(old(gateways), p.key).Values && waiters == Captured(old(Reg()), p.key)
      ensures !(p.isAgent && Current(old(Reg()), p)) ==> captured == {} && waiters == {}
    {
      captured, waiters := {}, {};
      if p.isAgent {
        if p.key in agents && agents[p.key] == p {
          agents := agents - {p.key};
          if p.key in gateways {
            captured := gateways[p.key].Values;
          }
          if p.key in discoveries {
            waiters := discoveries[p.key].Values;
          }
          gateways := gateways - {p.key};
          discoveries := discoveries - {p.key};
        }
        return;
      }
      if p.key in mobiles {
        var peers := mobiles[p.key] - {p.id};
        if |peers| == 0 {
          mobiles := mobiles - {p.key};
        } else {
          mobiles := mobiles[p.key := peers];
        }
      }
    }

    // Detach without interference: afterwards the peer and the gateways it served are closed,
    // and every waiter that was pending on it holds a result.
    method Detach(p: Peer)
      modifies this
      ensures Reg() == TunnelModel.Detach(old(Reg()), p)
      ensures closedPeers == old(closedPeers) + {p}
      ensures p.isAgent && Current(old(Reg()), p) ==>
                && closedGateways == old(closedGateways) + Inner(old(gateways), p.key).Values
                && Notified(old(boxes), boxes, Captured(old(Reg()), p.key))
      ensures !(p.isAgent && Current(old(Reg()), p)) ==> closedGateways == old(closedGateways) && boxes == old(boxes)
    {
      ClosePeer(p);
      var captured, waiters := DetachLocked(p);
      CloseGateways(captured);
      FailWaiters(waiters);
    }

    // A waiter that holds a result keeps it.
    method FailWaiters(waiters: set<CallId>)
      modifies this`boxes
      ensures Notified(old(boxes), boxes, waiters)
      ensures waiters == {} ==> boxes == old(boxes)
    {
      var rest := waiters;
      while rest != {}
        invariant rest <= waiters && Notified(old(boxes), boxes, waiters - rest)
        invariant waiters == {} ==> boxes == old(boxes)
        decreases |rest|
      {
        var c := Pick(rest);
        var sent := TrySend(c, ErrUnavailable);
        rest := rest - {c};
      }
    }

    method TrySend(c: CallId, result: Outcome) returns (sent: bool)
      modifies this`boxes
      ensures sent <==> c !in old(boxes)
      ensures boxes == if sent then old(boxes)[c := result] else old(boxes)
    {
      if c in boxes {
        return false;
      }
      boxes := boxes[c := result];
      return true;
    }

    method AttachGateway(g: Gateway) returns (ok: bool)
      modifies this`gateways
      ensures (Reg(), ok) == TunnelModel.AttachGateway(old(Reg()), g)
    {
      if g.key !in agents || !agents[g.key].gateway {
        return false;
      }
      var requests: map<int, Gateway> := map[];
      if g.key in gateways {
        requests := gateways[g.key];
      }
      if |requests| >= MAX_GATEWAYS {
        return false;
      }
      gateways := gateways[g.key := requests[g.id := g]];
      return true;
    }

    method DetachGateway(g: Gateway)
      modifies this`gateways, this`closedGateways
      ensures Reg() == TunnelModel.DetachGateway(old(Reg()), g)
      ensures closedGateways == old(closedGateways) + {g}
    {
      if g.key in gateways {
        var requests := gateways[g.key] - {g.id};
        gateways := if |requests| == 0 then gateways - {g.key} else gateways[g.key := requests];
      }
      closedGateways := closedGateways + {g};
    }

    method BeginDiscovery(key: Key, requestId: string, call: CallId) returns (admission: Admission)
      modifies this`discoveries
      ensures (Reg(), admission) == TunnelModel.BeginDiscovery(old(Reg()), key, requestId, call)
    {
      if key !in agents || !agents[key].discovery {
        return Unsupported;
      }
      var pending: map<string, CallId> := map[];
      if key in discoveries {
        pending := discoveries[key];
      }
      if requestId in pending {
        return Duplicate;
      }
      discoveries := discoveries[key := pending[requestId := call]];
      return Admitted;
    }

    method EndDiscovery(key: Key, requestId: string, call: CallId)
      requires NoEmptyInner(discoveries)
      modifies this`discoveries
      ensures Reg() == TunnelModel.EndDiscovery(old(Reg()), key, requestId, call)
    {
      if key in discoveries {
        var pending := discoveries[key];
        if requestId in pending && pending[requestId] == call {
          pending := pending - {requestId};
        }
        if |pending| == 0 {
          discoveries := discoveries - {key};
        } else {
          discoveries := discoveries[key := pending];
        }
      }
    }

    // The waiter registered for this request id, unless the peer has been replaced; read under the lock.
    method LookUpWaiter(p: Peer, requestId: string) returns (waiter: Option<CallId>)
      ensures waiter == FindWaiter(Reg(), p, requestId)
    {
      var ok := CheckIdentifier(requestId, 8, 128);
      if !ok || p.key !in agents || agents[p.key] != p {
        return None;
      }
      if p.key in discoveries && requestId in discoveries[p.key] {
        return Some(discoveries[p.key][requestId]);
      }
      return None;
    }

    // The answer goes to the waiter looked up before, whatever has become of the registry since.
    method PostAnswer(waiter: CallId, p: Peer, text: string)
      modifies this`boxes
      ensures boxes == if waiter in old(boxes) then old(boxes) else old(boxes)[waiter := Payload(text, p)]
    {
      var sent := TrySend(waiter, Payload(text, p));
    }

    // Lookup and send without interference.
    method DeliverDiscovery(p: Peer, requestId: string, text: string)
      modifies this`boxes
      ensures var waiter := FindWaiter(Reg(), p, requestId);
              boxes == if waiter.Some? && waiter.value !in old(boxes)
                       then old(boxes)[waiter.value := Payload(text, p)] else old(boxes)
    {
      var waiter := LookUpWaiter(p, requestId);
      if waiter.Some? {
        PostAnswer(waiter.value, p, text);
      }
    }
  }
}

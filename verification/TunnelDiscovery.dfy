/**
 Discovery as a rendezvous between a request and the agent: what a call can return, and that no waiter is forgotten.
 */
module TunnelDiscovery {
  import opened Basics
  import opened TunnelModel

  // Every entry belongs to a call that has not returned, under the call's own key and request id.
  ghost predicate EntriesOk(discoveries: map<Key, map<string, CallId>>, agents: map<Key, Peer>,
                            calls: map<CallId, Call>)
  {
    && NoEmptyInner(discoveries)
    && (forall k :: k in discoveries ==> k in agents)
    && (forall k, r | Has(discoveries, k, r) ::
          var c := discoveries[k][r];
          c in calls && calls[c].key == k && calls[c].requestId == r && !calls[c].phase.Returned?)
  }

  ghost predicate Entered(discoveries: map<Key, map<string, CallId>>, c: CallId, call: Call) {
    Has(discoveries, call.key, call.requestId) && discoveries[call.key][call.requestId] == c
  }

  // The waiter of a call that is still running can be found, has been sent a result, or is about to be.
  ghost predicate NoneForgotten(discoveries: map<Key, map<string, CallId>>, calls: map<CallId, Call>,
                                failing: set<CallId>, served: set<CallId>)
  {
    forall c :: c in calls && !calls[c].phase.Returned? ==>
      Entered(discoveries, c, calls[c]) || c in failing || c in served
  }

  // An answer was addressed to the call into whose waiter it goes.
  ghost predicate AnswersOk(answered: set<Answer>, inFlight: set<Answer>, calls: map<CallId, Call>) {
    inFlight <= answered &&
    forall a :: a in answered ==>
      a.call in calls && calls[a.call].key == a.from.key && calls[a.call].requestId == a.requestId
  }

  // A payload result was answered into this very waiter.
  ghost predicate Earned(result: Outcome, c: CallId, call: Call, answered: set<Answer>) {
    result.Payload? ==> Answer(result.from, call.requestId, c, result.text) in answered
  }

  ghost predicate ResultsOk(calls: map<CallId, Call>, boxes: map<CallId, Outcome>, served: set<CallId>,
                            answered: set<Answer>)
  {
    && (forall c :: c in boxes ==> c in served)
    && (forall c :: c in boxes && boxes[c].Payload? ==> c in calls && Earned(boxes[c], c, calls[c], answered))
    && (forall c :: c in calls && (calls[c].phase.Finished? || calls[c].phase.Returned?) ==>
          Earned(calls[c].phase.result, c, calls[c], answered))
  }

  ghost predicate DiscoveryOk(t: Tunnel) {
    && EntriesOk(t.reg.discoveries, t.reg.agents, t.calls)
    && NoneForgotten(t.reg.discoveries, t.calls, t.failing, t.served)
    && AnswersOk(t.answered, t.inFlight, t.calls)
    && ResultsOk(t.calls, t.boxes, t.served, t.answered)
  }

  // ----- steps -----

  lemma NewEntry(discoveries: map<Key, map<string, CallId>>, agents: map<Key, Peer>, calls: map<CallId, Call>,
                 c: CallId, key: Key, requestId: string)
    requires EntriesOk(discoveries, agents, calls) && key in agents && c !in calls
    ensures EntriesOk(Put(discoveries, key, requestId, c), agents, calls[c := Call(key, requestId, Sending)])
  {
    PutEntries(discoveries, key, requestId, c);
  }

  lemma NewEntryFound(discoveries: map<Key, map<string, CallId>>, calls: map<CallId, Call>,
                      failing: set<CallId>, served: set<CallId>, c: CallId, key: Key, requestId: string)
    requires NoneForgotten(discoveries, calls, failing, served) && c !in calls && !Has(discoveries, key, requestId)
    ensures NoneForgotten(Put(discoveries, key, requestId, c), calls[c := Call(key, requestId, Sending)],
                          failing, served)
  {
    PutEntries(discoveries, key, requestId, c);
    forall d | d in calls && !calls[d].phase.Returned?
      ensures Entered(Put(discoveries, key, requestId, c), d, calls[d]) || d in failing || d in served
    {
      assert Entered(discoveries, d, calls[d]) || d in failing || d in served;
    }
  }

  // A call refused at once adds a returned call and nothing else.
  lemma RefusedOk(t: Tunnel, c: CallId, call: Call)
    requires DiscoveryOk(t) && c !in t.calls && call.phase.Returned? && !call.phase.result.Payload?
    ensures DiscoveryOk(t.(calls := t.calls[c := call]))
  {
    var u := t.(calls := t.calls[c := call]);
    forall d | d in u.calls && !u.calls[d].phase.Returned?
      ensures Entered(u.reg.discoveries, d, u.calls[d]) || d in u.failing || d in u.served
    {
      assert Entered(t.reg.discoveries, d, t.calls[d]) || d in t.failing || d in t.served;
    }
  }

  lemma BeginOk(t: Tunnel, c: CallId, key: Key, requestId: string)
    requires DiscoveryOk(t) && c !in t.calls
    ensures DiscoveryOk(BeginStep(t, c, key, requestId))
  {
    var u := BeginStep(t, c, key, requestId);
    if BeginDiscovery(t.reg, key, requestId, c).1 == Admitted {
      NewEntry(t.reg.discoveries, t.reg.agents, t.calls, c, key, requestId);
      NewEntryFound(t.reg.discoveries, t.calls, t.failing, t.served, c, key, requestId);
      NewCallOk(t, c, Call(key, requestId, Sending));
    } else {
      RefusedOk(t, c, u.calls[c]);
    }
  }

  lemma NewCallOk(t: Tunnel, c: CallId, call: Call)
    requires AnswersOk(t.answered, t.inFlight, t.calls) && ResultsOk(t.calls, t.boxes, t.served, t.answered)
    requires c !in t.calls && call.phase == Sending
    ensures AnswersOk(t.answered, t.inFlight, t.calls[c := call])
    ensures ResultsOk(t.calls[c := call], t.boxes, t.served, t.answered)
  {}

  // A call that moves on keeps its entry and its debts.
  lemma PhaseOk(t: Tunnel, c: CallId, phase: Phase)
    requires DiscoveryOk(t) && c in t.calls && !t.calls[c].phase.Returned? && !phase.Returned?
    requires phase.Finished? ==> Earned(phase.result, c, t.calls[c], t.answered)
    ensures DiscoveryOk(SetPhase(t, c, phase))
  {
    var u := SetPhase(t, c, phase);
    forall d | d in u.calls && !u.calls[d].phase.Returned?
      ensures Entered(u.reg.discoveries, d, u.calls[d]) || d in u.failing || d in u.served
    {
      assert Entered(t.reg.discoveries, d, t.calls[d]) || d in t.failing || d in t.served;
    }
  }

  function Cleaned(discoveries: map<Key, map<string, CallId>>, c: CallId, call: Call): map<Key, map<string, CallId>> {
    if Has(discoveries, call.key, call.requestId) && discoveries[call.key][call.requestId] == c
    then Cut(discoveries, call.key, call.requestId) else discoveries
  }

  // A call's own entry goes, and no other.
  lemma OwnEntryGoes(discoveries: map<Key, map<string, CallId>>, agents: map<Key, Peer>, calls: map<CallId, Call>,
                     c: CallId, k: Key, r: string)
    requires EntriesOk(discoveries, agents, calls) && c in calls
    ensures var rest := Cleaned(discoveries, c, calls[c]);
            && (Has(rest, k, r) <==> Has(discoveries, k, r) && discoveries[k][r] != c)
            && (Has(rest, k, r) ==> rest[k][r] == discoveries[k][r])
  {
    CutEntries(discoveries, calls[c].key, calls[c].requestId);
  }

  // A call returns and takes its own entry, if that is still there, with it.
  lemma EntryGone(discoveries: map<Key, map<string, CallId>>, agents: map<Key, Peer>, calls: map<CallId, Call>,
                  c: CallId, phase: Phase)
    requires EntriesOk(discoveries, agents, calls) && c in calls && phase.Returned?
    ensures EntriesOk(Cleaned(discoveries, c, calls[c]), agents, calls[c := calls[c].(phase := phase)])
  {
    var rest, after := Cleaned(discoveries, c, calls[c]), calls[c := calls[c].(phase := phase)];
    CutEntries(discoveries, calls[c].key, calls[c].requestId);
    forall k, r | Has(rest, k, r) ensures Has(discoveries, k, r) && rest[k][r] == discoveries[k][r] != c {
      OwnEntryGoes(discoveries, agents, calls, c, k, r);
    }
  }

  lemma OthersFound(discoveries: map<Key, map<string, CallId>>, calls: map<CallId, Call>, failing: set<CallId>,
                    served: set<CallId>, c: CallId, discoveries': map<Key, map<string, CallId>>, phase: Phase)
    requires NoneForgotten(discoveries, calls, failing, served) && c in calls && phase.Returned?
    requires discoveries' == Cleaned(discoveries, c, calls[c])
    ensures NoneForgotten(discoveries', calls[c := calls[c].(phase := phase)], failing, served)
  {
    CutEntries(discoveries, calls[c].key, calls[c].requestId);
    forall d | d in calls && !calls[d].phase.Returned? && d != c
      ensures Entered(discoveries', d, calls[d]) || d in failing || d in served
    {
      assert Entered(discoveries, d, calls[d]) || d in failing || d in served;
    }
  }

  lemma EndOk(t: Tunnel, c: CallId)
    requires DiscoveryOk(t) && c in t.calls && t.calls[c].phase.Finished?
    ensures DiscoveryOk(Step(t, EndAct(c)))
  {
    var u := Step(t, EndAct(c));
    var phase := Returned(t.calls[c].phase.result);
    EntryGone(t.reg.discoveries, t.reg.agents, t.calls, c, phase);
    OthersFound(t.reg.discoveries, t.calls, t.failing, t.served, c, u.reg.discoveries, phase);
    ReturnOk(t, c);
  }

  lemma ReturnOk(t: Tunnel, c: CallId)
    requires AnswersOk(t.answered, t.inFlight, t.calls) && ResultsOk(t.calls, t.boxes, t.served, t.answered)
    requires c in t.calls && t.calls[c].phase.Finished?
    ensures var calls := t.calls[c := t.calls[c].(phase := Returned(t.calls[c].phase.result))];
            AnswersOk(t.answered, t.inFlight, calls) && ResultsOk(calls, t.boxes, t.served, t.answered)
  {}

  lemma SendOk(t: Tunnel, c: CallId, result: Outcome)
    requires DiscoveryOk(t) && (result.Payload? ==> c in t.calls && Earned(result, c, t.calls[c], t.answered))
    ensures DiscoveryOk(Send(t, c, result)) && c in Send(t, c, result).served
  {
    var u := Send(t, c, result);
    forall d | d in u.calls && !u.calls[d].phase.Returned?
      ensures Entered(u.reg.discoveries, d, u.calls[d]) || d in u.failing || d in u.served
    {
      assert Entered(t.reg.discoveries, d, t.calls[d]) || d in t.failing || d in t.served;
    }
  }

  lemma KeyGone(discoveries: map<Key, map<string, CallId>>, agents: map<Key, Peer>, calls: map<CallId, Call>, key: Key)
    requires EntriesOk(discoveries, agents, calls)
    ensures EntriesOk(discoveries - {key}, agents - {key}, calls)
  {
    forall k, r | Has(discoveries - {key}, k, r) ensures Has(discoveries, k, r) {}
  }

  // Every waiter of the key that leaves is to be notified.
  lemma KeyFailing(t: Tunnel, key: Key)
    requires NoneForgotten(t.reg.discoveries, t.calls, t.failing, t.served)
    ensures NoneForgotten(t.reg.discoveries - {key}, t.calls, t.failing + Captured(t.reg, key), t.served)
  {
    forall d | d in t.calls && !t.calls[d].phase.Returned?
      ensures Entered(t.reg.discoveries - {key}, d, t.calls[d]) || d in t.failing || d in Captured(t.reg, key) ||
              d in t.served
    {
      assert Entered(t.reg.discoveries, d, t.calls[d]) || d in t.failing || d in t.served;
      if Entered(t.reg.discoveries, d, t.calls[d]) && t.calls[d].key == key { assert d in Captured(t.reg, key); }
    }
  }

  lemma DetachedOk(t: Tunnel, p: Peer)
    requires DiscoveryOk(t)
    ensures DiscoveryOk(DetachStep(t, p))
  {
    KeyGone(t.reg.discoveries, t.reg.agents, t.calls, p.key);
    KeyFailing(t, p.key);
  }

  predicate OfPeers(a: Act) {
    a.AttachAct? || a.ClosePeerAct? || a.AttachGatewayAct? || a.DetachGatewayAct? || a.CloseGatewayAct?
  }

  ghost predicate SameDiscovery(t: Tunnel, u: Tunnel) {
    u.reg.discoveries == t.reg.discoveries && u.calls == t.calls && u.boxes == t.boxes && u.served == t.served &&
    u.inFlight == t.inFlight && u.answered == t.answered && u.failing == t.failing &&
    (forall k :: k in t.reg.agents ==> k in u.reg.agents)
  }

  lemma AttachElsewhere(t: Tunnel, p: Peer)
    ensures SameDiscovery(t, AttachStep(t, p))
  {}

  lemma PeersElsewhere(t: Tunnel, a: Act)
    requires OfPeers(a)
    ensures SameDiscovery(t, Step(t, a))
  {
    if a.AttachAct? { AttachElsewhere(t, a.peer); }
  }

  lemma AgentsGrow(discoveries: map<Key, map<string, CallId>>, agents: map<Key, Peer>, calls: map<CallId, Call>,
                   agents': map<Key, Peer>)
    requires EntriesOk(discoveries, agents, calls) && forall k :: k in agents ==> k in agents'
    ensures EntriesOk(discoveries, agents', calls)
  {}

  lemma LookUpOk(t: Tunnel, p: Peer, requestId: string, text: string)
    requires DiscoveryOk(t)
    ensures DiscoveryOk(Step(t, LookUpAct(p, requestId, text)))
  {}

  lemma StepDiscoveryOk(t: Tunnel, a: Act)
    requires DiscoveryOk(t)
    ensures DiscoveryOk(Step(t, a))
  {
    if OfPeers(a) {
      PeersElsewhere(t, a);
      AgentsGrow(t.reg.discoveries, t.reg.agents, t.calls, Step(t, a).reg.agents);
    } else {
      match a
      case DetachAct(p) => if p in t.attached && p in t.closedPeers { DetachedOk(t, p); }
      case BeginAct(c, key, requestId) => if c !in t.calls { BeginOk(t, c, key, requestId); }
      case SentAct(c, ok) =>
        if c in t.calls && t.calls[c].phase == Sending {
          PhaseOk(t, c, if ok then Waiting else Finished(ErrUnavailable));
        }
      case ReceiveAct(c) =>
        if c in t.calls && t.calls[c].phase == Waiting && c in t.boxes { PhaseOk(t, c, Finished(t.boxes[c])); }
      case GiveUpAct(c, cancelled) =>
        if c in t.calls && t.calls[c].phase == Waiting {
          PhaseOk(t, c, Finished(if cancelled then ErrContext else ErrUnavailable));
        }
      case EndAct(c) => if c in t.calls && t.calls[c].phase.Finished? { EndOk(t, c); }
      case LookUpAct(p, requestId, text) => LookUpOk(t, p, requestId, text);
      case PostAct(answer) => if answer in t.inFlight { SendOk(t, answer.call, Payload(answer.text, answer.from)); }
      case FailAct(c) => if c in t.failing { SendOk(t, c, ErrUnavailable); }
    }
  }

  lemma {:induction false} DiscoveryAlwaysOk(acts: seq<Act>)
    ensures DiscoveryOk(Exec(START, acts))
  {
    if acts != [] {
      DiscoveryAlwaysOk(acts[..|acts| - 1]);
      StepDiscoveryOk(Exec(START, acts[..|acts| - 1]), acts[|acts| - 1]);
    }
  }

  // ----- results -----

  // Step i of the run is the answer's lookup: its sender was the current agent then, and the waiter was the call's.
  ghost predicate FoundAt(acts: seq<Act>, i: nat, a: Answer)
    requires i < |acts|
  {
    acts[i] == LookUpAct(a.from, a.requestId, a.text) &&
    FindWaiter(Exec(START, acts[..i]).reg, a.from, a.requestId) == Some(a.call)
  }

  lemma {:induction false} AnswerHasLookup(acts: seq<Act>, a: Answer) returns (i: nat)
    requires a in Exec(START, acts).answered
    ensures i < |acts| && FoundAt(acts, i, a)
  {
    var last := |acts| - 1;
    var t := Exec(START, acts[..last]);
    if a in t.answered {
      i := AnswerHasLookup(acts[..last], a);
      assert acts[..last][..i] == acts[..i];
    } else {
      i := last;
    }
  }

  // A call returns a payload only if, at some moment of the run, the agent current for the call's key answered the
  // call's request id and the lookup found the call's own waiter.
  lemma PayloadWasAnswered(acts: seq<Act>, c: CallId) returns (i: nat)
    requires c in Exec(START, acts).calls
    requires var call := Exec(START, acts).calls[c]; call.phase.Returned? && call.phase.result.Payload?
    ensures var call := Exec(START, acts).calls[c];
            var result := call.phase.result;
            && i < |acts| && acts[i] == LookUpAct(result.from, call.requestId, result.text)
            && result.from.key == call.key && Current(Exec(START, acts[..i]).reg, result.from)
            && Entered(Exec(START, acts[..i]).reg.discoveries, c, call)
  {
    DiscoveryAlwaysOk(acts);
    var call := Exec(START, acts).calls[c];
    i := AnswerHasLookup(acts, Answer(call.phase.result.from, call.requestId, c, call.phase.result.text));
  }

  // A call whose waiter is no longer in the registry has been sent a result, or is about to be.
  lemma CapturedWaiterIsServed(acts: seq<Act>, c: CallId)
    requires c in Exec(START, acts).calls && !Exec(START, acts).calls[c].phase.Returned?
    requires !Entered(Exec(START, acts).reg.discoveries, c, Exec(START, acts).calls[c])
    ensures c in Exec(START, acts).failing || c in Exec(START, acts).served
  {
    DiscoveryAlwaysOk(acts);
  }

  // u is t with one more call, which was refused at once.
  ghost predicate OnlyRefused(t: Tunnel, u: Tunnel, c: CallId) {
    c !in t.calls && c in u.calls && u.calls[c].phase.Returned? && u == t.(calls := t.calls[c := u.calls[c]])
  }

  // The agent serves discovery and a call with this request id is pending.
  predicate Repeats(r: Registry, key: Key, requestId: string) {
    key in r.agents && r.agents[key].discovery && Has(r.discoveries, key, requestId)
  }

  lemma RefusedAtOnce(t: Tunnel, c: CallId, key: Key, requestId: string)
    requires c !in t.calls && Repeats(t.reg, key, requestId)
    ensures var u := Step(t, BeginAct(c, key, requestId));
            OnlyRefused(t, u, c) && u.calls[c] == Call(key, requestId, Returned(ErrUnavailable))
  {}

  lemma RefusedCallIsIdle(t: Tunnel, u: Tunnel, c: CallId, a: Act)
    requires OnlyRefused(t, u, c) && !(a.BeginAct? && a.call == c)
    requires a.SentAct? || a.ReceiveAct? || a.GiveUpAct? || a.EndAct?
    ensures OnlyRefused(Step(t, a), Step(u, a), c) && Step(u, a).calls[c] == u.calls[c]
  {
    var d := a.call;
    if d != c && d in t.calls {
      var call := Step(t, a).calls[d];
      assert t.calls[d := call][c := u.calls[c]] == u.calls[d := call];
    }
  }

  // Whatever the tunnel does next it does in the same way with the refused call and without it.
  lemma StepKeepsRefused(t: Tunnel, u: Tunnel, c: CallId, a: Act)
    requires OnlyRefused(t, u, c) && !(a.BeginAct? && a.call == c)
    ensures OnlyRefused(Step(t, a), Step(u, a), c) && Step(u, a).calls[c] == u.calls[c]
  {
    if a.SentAct? || a.ReceiveAct? || a.GiveUpAct? || a.EndAct? {
      RefusedCallIsIdle(t, u, c, a);
    } else if a.BeginAct? {
      BeginBesideRefused(t, u, c, a.call, a.key, a.requestId);
    } else if OfPeers(a) || a.DetachAct? {
      PeersBesideRefused(t, u, c, a);
    } else {
      AnswersBesideRefused(t, u, c, a);
    }
  }

  lemma PeersBesideRefused(t: Tunnel, u: Tunnel, c: CallId, a: Act)
    requires OnlyRefused(t, u, c) && (OfPeers(a) || a.DetachAct?)
    ensures OnlyRefused(Step(t, a), Step(u, a), c) && Step(u, a).calls[c] == u.calls[c]
  {
    if a.AttachAct? { AttachBesideRefused(t, u, a.peer); }
    else if a.DetachAct? { DetachBesideRefused(t, u, a.peer); }
  }

  lemma AttachBesideRefused(t: Tunnel, u: Tunnel, p: Peer)
    requires u == t.(calls := u.calls)
    ensures AttachStep(t, p).calls == t.calls && AttachStep(u, p) == AttachStep(t, p).(calls := u.calls)
    ensures FreshPeer(u, p) <==> FreshPeer(t, p)
  {}

  lemma DetachBesideRefused(t: Tunnel, u: Tunnel, p: Peer)
    requires u == t.(calls := u.calls)
    ensures DetachStep(t, p).calls == t.calls && DetachStep(u, p) == DetachStep(t, p).(calls := u.calls)
  {}

  lemma AnswersBesideRefused(t: Tunnel, u: Tunnel, c: CallId, a: Act)
    requires OnlyRefused(t, u, c) && (a.LookUpAct? || a.PostAct? || a.FailAct?)
    ensures OnlyRefused(Step(t, a), Step(u, a), c) && Step(u, a).calls[c] == u.calls[c]
  {
    match a
    case LookUpAct(p, requestId, text) =>
    case PostAct(answer) => SendBesideRefused(t, u, answer.call, Payload(answer.text, answer.from));
    case FailAct(d) => SendBesideRefused(t, u, d, ErrUnavailable);
  }

  lemma SendBesideRefused(t: Tunnel, u: Tunnel, d: CallId, result: Outcome)
    requires u == t.(calls := u.calls)
    ensures Send(t, d, result).calls == t.calls && Send(u, d, result) == Send(t, d, result).(calls := u.calls)
  {}

  lemma BeginBesideRefused(t: Tunnel, u: Tunnel, c: CallId, d: CallId, key: Key, requestId: string)
    requires OnlyRefused(t, u, c) && d != c
    ensures var a := BeginAct(d, key, requestId);
            OnlyRefused(Step(t, a), Step(u, a), c) && Step(u, a).calls[c] == u.calls[c]
  {
    if d !in t.calls {
      var call := BeginStep(t, d, key, requestId).calls[d];
      assert t.calls[d := call][c := u.calls[c]] == u.calls[d := call];
    }
  }

  lemma {:induction false} ExecKeepsRefused(t: Tunnel, u: Tunnel, c: CallId, acts: seq<Act>)
    requires OnlyRefused(t, u, c) && forall i :: 0 <= i < |acts| ==> !(acts[i].BeginAct? && acts[i].call == c)
    ensures OnlyRefused(Exec(t, acts), Exec(u, acts), c) && Exec(u, acts).calls[c] == u.calls[c]
  {
    if acts != [] {
      var front, last := acts[..|acts| - 1], acts[|acts| - 1];
      ExecKeepsRefused(t, u, c, front);
      StepKeepsRefused(Exec(t, front), Exec(u, front), c, last);
    }
  }

  lemma {:induction false} ExecConcat(t: Tunnel, first: seq<Act>, more: seq<Act>)
    ensures Exec(t, first + more) == Exec(Exec(t, first), more)
  {
    if more == [] {
      assert first + more == first;
    } else {
      var front := more[..|more| - 1];
      assert (first + more)[..|first + more| - 1] == first + front;
      ExecConcat(t, first, front);
    }
  }

  // A call that repeats a pending request id leaves every run as it would have been without it: registry, waiters,
  // answers, closed peers and every other call agree at the end, whatever follows; the call itself has failed.
  lemma DuplicateChangesNothing(acts: seq<Act>, c: CallId, key: Key, requestId: string, later: seq<Act>)
    requires c !in Exec(START, acts).calls && Repeats(Exec(START, acts).reg, key, requestId)
    requires forall i :: 0 <= i < |later| ==> !(later[i].BeginAct? && later[i].call == c)
    ensures var without := Exec(START, acts + later);
            c !in without.calls &&
            Exec(START, acts + [BeginAct(c, key, requestId)] + later) ==
            without.(calls := without.calls[c := Call(key, requestId, Returned(ErrUnavailable))])
  {
    var begin := [BeginAct(c, key, requestId)];
    var t := Exec(START, acts);
    RefusedAtOnce(t, c, key, requestId);
    assert (acts + begin)[..|acts|] == acts;
    assert Exec(START, acts + begin) == Step(t, BeginAct(c, key, requestId));
    ExecConcat(START, acts, later);
    ExecConcat(START, acts + begin, later);
    ExecKeepsRefused(t, Exec(START, acts + begin), c, later);
  }

  // The clean-up of a call removes its own waiter and no other, also when the agent was replaced and the id used again.
  lemma CleanUpKeepsOthers(t: Tunnel, c: CallId, k: Key, r: string)
    requires DiscoveryOk(t) && c in t.calls && t.calls[c].phase.Finished?
    ensures var u := Step(t, EndAct(c));
            Has(u.reg.discoveries, k, r) <==> Has(t.reg.discoveries, k, r) && t.reg.discoveries[k][r] != c
    ensures var u := Step(t, EndAct(c));
            Has(u.reg.discoveries, k, r) ==> u.reg.discoveries[k][r] == t.reg.discoveries[k][r]
  {
    OwnEntryGoes(t.reg.discoveries, t.reg.agents, t.calls, c, k, r);
    assert Step(t, EndAct(c)).reg.discoveries == Cleaned(t.reg.discoveries, c, t.calls[c]);
  }

  // No step changes the request a call stands for, nor its result once it has one.
  lemma ReturnedOnce(t: Tunnel, a: Act, c: CallId)
    requires c in t.calls
    ensures c in Step(t, a).calls
    ensures var d := Step(t, a).calls[c];
            d.key == t.calls[c].key && d.requestId == t.calls[c].requestId &&
            (t.calls[c].phase.Returned? ==> d == t.calls[c]) &&
            (t.calls[c].phase.Finished? ==>
               (d.phase.Finished? || d.phase.Returned?) && d.phase.result == t.calls[c].phase.result)
  {}

  // A call returns once: what it returned at some moment of a run it has returned at the end.
  lemma {:induction false} ReturnedForever(acts: seq<Act>, k: nat, c: CallId)
    requires k <= |acts| && c in Exec(START, acts[..k]).calls && Exec(START, acts[..k]).calls[c].phase.Returned?
    ensures c in Exec(START, acts).calls && Exec(START, acts).calls[c] == Exec(START, acts[..k]).calls[c]
  {
    if k == |acts| {
      assert acts[..k] == acts;
    } else {
      var last := |acts| - 1;
      assert acts[..last][..k] == acts[..k];
      ReturnedForever(acts[..last], k, c);
      ReturnedOnce(Exec(START, acts[..last]), acts[last], c);
    }
  }
}

/**
 One connection request, from the ticket to the answer: which exits leave the ticket in force.
 The request runs in two parts, with the wait for the agent's answer between them; the contract of each part speaks of
 the state in which that part starts, so that any other handler may run during the wait.
 */
module HapiConnection {
  import opened Basics
  import opened Identifiers
  import opened AccessModel
  import opened AccessRuns
  import opened AccessStore
  import AccessEffects
  import AccessListing
  import opened ControlAad
  import opened MailboxStore
  import TunnelModel
  import UsageModel
  import UsageStore

  // The agent's columns that the handler reads.
  datatype Facts = Facts(online: bool, keyId: string, algorithm: string, publicKey: string)

  // Nonce and ciphertext are given by the length of their decoding, as in an envelope.
  datatype Blob = Blob(version: int, nonce: Option<nat>, ciphertext: Option<nat>, aad: string, raw: string)
  {
    predicate Fine() {
      version == 1 && aad != "" && nonce == Some(12) && ciphertext.Some? && 17 <= ciphertext.value <= CIPHERTEXT_MAX
    }
  }

  // The envelope is for this agent, key and request, and well-formed.
  ghost predicate EnvelopeFor(e: Envelope, agentId: string, f: Facts, requestId: string) {
    && e.version == 2 && e.operation == "hapi_connection" && e.requestId == requestId
    && e.algorithm == "RSA-OAEP-256+A256GCM" == f.algorithm
    && |e.keyId| > 0 && e.keyId == f.keyId && |f.publicKey| > 0
    && e.aad == "echoear-control-v2|" + agentId + "|hapi_connection||" + requestId + "|" + e.keyId
    && 32 <= |e.encryptedKey| <= 2048 && e.nonce == Some(12)
    && exists n :: e.ciphertext == Some(n) && 17 <= n <= 16384
  }

  // An agent's answer once it is decoded; the error is trimmed.
  datatype Reply = Reply(blob: Blob, error: string)

  datatype Answer = Failed(code: int) | Silent | Delivered(blob: Blob) | Accepted(item: MailboxModel.Row)
  {
    predicate Connected() { Delivered? || Accepted? }
    function Exit(): Exit
    {
      match this
      case Delivered(_) => Deliver
      case Accepted(_) => Queue
      case Silent => Leave
      case Failed(code) => Stop(code)
    }
  }

  // The insert of a lease works, commits without its reply coming back, or fails.
  datatype Insert = Works | ReplyLost | Fails

  // What becomes of the statements around a ticket: whether the day's tasks can be read, the insert, the signature,
  // and whether a revoke would succeed.
  datatype Issuing = Issuing(counted: bool, insert: Insert, signed: Option<string>, revokes: bool)
  {
    // A ticket that is not to be used any more gets revoked.
    predicate TakesBack() { insert.Works? && revokes }
  }

  // How a request that got its ticket ends.
  datatype Exit = Deliver | Queue | Leave | Stop(code: int)
  {
    predicate Connects() { Deliver? || Queue? }
  }

  // saves and queues tell whether the statement that stores the response, or the command, succeeds.
  function Conclude(read: string -> Option<Reply>, outcome: TunnelModel.Outcome, saves: bool, queues: bool): Exit {
    match outcome
    case ErrContext => Leave
    case ErrUnsupported => if queues then Queue else Stop(500)
    case ErrUnavailable => if queues then Queue else Stop(500)
    case Payload(text, _) =>
      if read(text).None? || read(text).value.error != "" then Stop(503)
      else if !read(text).value.blob.Fine() then Stop(502)
      else if saves then Deliver else Stop(500)
  }

  // The tables after that end; revokes tells whether a revoke statement succeeds.
  function Settled(db: Db, ticket: Ticket, exit: Exit, revokes: bool): Db {
    if exit.Connects() || !revokes then db else RevokeAccessLease(db, ticket)
  }

  datatype Grant = Grant(access: Access, ticket: Ticket, requestId: string, message: string)
  {
    function Slot(): MailboxModel.Slot { MailboxModel.Slot(access.owner, access.name, requestId) }
  }

  method CheckBlob(value: Blob) returns (ok: bool)
    ensures ok <==> value.Fine()
  {
    if value.version != 1 || value.aad == "" {
      return false;
    }
    if value.nonce != Some(12) {
      return false;
    }
    match value.ciphertext {
      case None => return false;
      case Some(n) => return !(n < 17 || n > CIPHERTEXT_MAX);
    }
  }

  ghost predicate NoMatch(db: Db, user: UserId, agentId: string) {
    forall x :: Grants(db, user, x) ==> !Matches(x, agentId)
  }

  predicate Named(agentId: string, requestId: string) {
    ValidIdentifier(agentId, 1, 128) && ValidIdentifier(requestId, 8, 128)
  }

  ghost predicate Kept(before: map<Ticket, Lease>, after: map<Ticket, Lease>) {
    forall t :: t in before ==> t in after && after[t] == before[t]
  }

  // The ticket is one of this user for this request, of an agent that exists.
  ghost predicate Issued(db: Db, t: Ticket, user: UserId, requestId: string) {
    t in db.leases && db.leases[t].subject == user && db.leases[t].requestId == requestId &&
    db.leases[t].agent in db.agents
  }

  // Where the mailbox keeps what belongs to this ticket.
  function SlotOf(db: Db, t: Ticket): MailboxModel.Slot
    requires t in db.leases && db.leases[t].agent in db.agents
  {
    MailboxModel.Slot(db.leases[t].owner, db.agents[db.leases[t].agent].name, db.leases[t].requestId)
  }

  // What a request does to the leases: old ones stay, and one it inserted is revoked exactly when the request does not
  // connect, it knows of the insert, and its revoke statement succeeds.
  ghost predicate LeasesAfter(before: map<Ticket, Lease>, after: map<Ticket, Lease>, connects: bool, takesBack: bool) {
    && Kept(before, after)
    && forall t :: t in after && t !in before ==> (after[t].revoked <==> !connects && takesBack)
  }

  // The tables hold one ticket more, in force.
  ghost predicate Added(before: map<Ticket, Lease>, db: Db, g: Grant, user: UserId) {
    && g.ticket !in before && Issued(db, g.ticket, user, g.requestId) && SlotOf(db, g.ticket) == g.Slot()
    && !db.leases[g.ticket].revoked && db.leases[g.ticket].expiresAt == db.now + 300 * SECOND
    && db.leases == before[g.ticket := db.leases[g.ticket]]
  }

  lemma IssueAdds(before: Db, issued: Db, g: Grant, user: UserId, usedToday: int)
    requires Grants(Sweep(before, false), user, g.access)
    requires CreateAccessLease(Sweep(before, false), user, g.access, 5 * MINUTE, g.requestId, usedToday, g.ticket) ==
             Committed(issued, g.ticket)
    ensures Added(before.leases, issued, g, user)
  {}

  lemma AddedThenSettled(before: map<Ticket, Lease>, issued: Db, g: Grant, user: UserId, exit: Exit, revokes: bool)
    requires Added(before, issued, g, user)
    ensures var after := Settled(issued, g.ticket, exit, revokes);
            && LeasesAfter(before, after.leases, exit.Connects(), revokes)
            && Issued(after, g.ticket, user, g.requestId) && SlotOf(after, g.ticket) == g.Slot()
  {}

  // What is left of the insert, the signature and the revoke of a ticket; got tells whether the ticket is handed out.
  ghost predicate TicketWritten(before: Db, after: Db, user: UserId, x: Access, requestId: string, used: int,
                                ticket: Ticket, issuing: Issuing, got: bool)
  {
    var o := CreateAccessLease(before, user, x, 5 * MINUTE, requestId, used, ticket);
    && (got <==> o.Committed? && issuing.insert.Works? && issuing.signed.Some?)
    && (got ==> after == o.db)
    && (o.Refused? || issuing.insert.Fails? ==> after == before)
    && (o.Committed? && !issuing.insert.Fails? && !got ==>
          after == if issuing.TakesBack() then RevokeAccessLease(o.db, ticket) else o.db)
  }

  lemma IssuedLeases(before: Db, after: Db, user: UserId, x: Access, requestId: string, used: int, ticket: Ticket,
                     issuing: Issuing, got: bool)
    requires TicketWritten(before, after, user, x, requestId, used, ticket, issuing, got)
    ensures !got ==> LeasesAfter(before.leases, after.leases, false, issuing.TakesBack())
    ensures after.shares == before.shares
  {}

  // For a granted row the limit at issue is its share's.
  lemma GrantsLimit(db: Db, user: UserId, x: Access, requestId: string, used: int, ticket: Ticket)
    requires Sound(db) && user in db.users && Grants(db, user, x)
    ensures CreateAccessLease(db, user, x, 5 * MINUTE, requestId, used, ticket).Committed? <==>
            ticket !in db.leases &&
            (x.share.Some? && 0 < db.shares[x.share.value].terms.maxTasksPerDay ==>
               used < db.shares[x.share.value].terms.maxTasksPerDay)
  {
    AccessEffects.IssueGoesThrough(db, user, x, 5 * MINUTE, requestId, used, ticket);
    AccessEffects.GrantedRow(db, user, x);
    AccessListing.RowShape(db, user, x);
  }

  class Server {
    const store: Store
    const mailbox: Mailbox
    const facts: AgentId -> Facts
    const ledger: UsageStore.Ledger
    const read: string -> Option<Reply>

    constructor (store: Store, mailbox: Mailbox, ledger: UsageStore.Ledger, facts: AgentId -> Facts,
                 read: string -> Option<Reply>)
      ensures this.store == store && this.mailbox == mailbox && this.ledger == ledger
      ensures this.facts == facts && this.read == read
    {
      this.store, this.mailbox, this.ledger, this.facts, this.read := store, mailbox, ledger, facts, read;
    }

    // The tasks the ledger has for the share of this access on this day.
    function TasksOf(x: Access, today: UsageModel.Day): int
      reads ledger
    {
      if x.share.None? then 0
      else UsageModel.DailyTotal(UsageModel.Books(ledger.events, ledger.daily), x.share.value, today).tasks
    }

    // What the limit is compared with; tasks that cannot be read count as none.
    function UsedToday(x: Access, today: UsageModel.Day, counted: bool): int
      reads ledger
    {
      if counted then TasksOf(x, today) else 0
    }

    // The share of this access has no limit, or the tasks of this day are below it.
    ghost predicate UnderLimit(db: Db, x: Access, tasks: int) {
      x.share.Some? && x.share.value in db.shares && 0 < db.shares[x.share.value].terms.maxTasksPerDay ==>
        tasks < db.shares[x.share.value].terms.maxTasksPerDay
    }

    function KeyOf(x: Access): AgentKey {
      var f := facts(x.agent);
      AgentKey(x.name, f.keyId, f.algorithm, f.publicKey)
    }

    // What the answer promises can be fetched: the response is stored, or the command is pending.
    ghost predicate Holds(slot: MailboxModel.Slot, answer: Answer)
      reads mailbox
    {
      match answer
      case Delivered(blob) => mailbox.Stored(slot) == Some(blob.raw)
      case Accepted(item) => item.slot == slot && item in mailbox.rows && item.status.Pending?
      case _ => true
    }

    // The limit is read from the ledger. A ticket that cannot be signed is revoked at once, if the revoke statement
    // succeeds; one whose insert is not confirmed is left alone.
    method IssueAccessTicket(user: UserId, x: Access, requestId: string, today: UsageModel.Day, ticket: Ticket,
                             issuing: Issuing)
      returns (r: Option<string>)
      requires store.Valid() && Derived(store.Tables(), user, x)
      modifies store
      ensures store.Valid()
      ensures TicketWritten(old(store.Tables()), store.Tables(), user, x, requestId,
                            UsedToday(x, today, issuing.counted), ticket, issuing, r.Some?)
      ensures r.Some? ==> r == issuing.signed
      ensures r.None? ==> LeasesAfter(old(store.leases), store.leases, false, issuing.TakesBack())
      // A ticket for a granted row is handed out exactly if its insert and signature work and the day's recorded tasks,
      // if they can be read, are below the limit of the share.
      ensures Grants(old(store.Tables()), user, x) ==>
                (r.Some? <==> && ticket !in old(store.leases) && issuing.insert.Works? && issuing.signed.Some?
                              && UnderLimit(store.Tables(), x, UsedToday(x, today, issuing.counted)))
    {
      var used := UsedToday(x, today, issuing.counted);
      r := InsertAndSign(user, x, requestId, used, ticket, issuing);
      ghost var db := old(store.Tables());
      IssuedLeases(db, store.Tables(), user, x, requestId, used, ticket, issuing, r.Some?);
      if Grants(db, user, x) { GrantsLimit(db, user, x, requestId, used, ticket); }
    }

    method InsertAndSign(user: UserId, x: Access, requestId: string, used: int, ticket: Ticket, issuing: Issuing)
      returns (r: Option<string>)
      requires store.Valid() && Derived(store.Tables(), user, x)
      modifies store
      ensures store.Valid()
      ensures TicketWritten(old(store.Tables()), store.Tables(), user, x, requestId, used, ticket, issuing, r.Some?)
      ensures r.Some? ==> r == issuing.signed
    {
      if issuing.insert.Fails? {
        return None;
      }
      var created := store.CreateAccessLease(user, x, 5 * MINUTE, requestId, used, ticket);
      if created.Failure? || issuing.insert.ReplyLost? {
        return None;
      }
      if issuing.signed.None? {
        var _ := store.RevokeAccessLease(ticket, issuing.revokes);
        return None;
      }
      return issuing.signed;
    }

    // The row is granted to the user under this identifier, its agent is online, and the envelope is for it.
    ghost predicate Admitted(db: Db, user: UserId, agentId: string, requestId: string, envelope: Envelope, x: Access) {
      && Grants(db, user, x) && Matches(x, agentId) && facts(x.agent).online
      && ValidIdentifier(requestId, 8, 128)
      && EnvelopeFor(envelope, db.agents[x.agent].name, facts(x.agent), requestId)
    }

    // The checks before the ticket. Whoever passes has access to an online agent and sent an envelope for it.
    method Admit(user: UserId, agentId: string, requestId: string, envelope: Envelope, order: seq<AgentId>)
      returns (r: Result<Access, int>)
      requires store.Valid() && store.Orders(order)
      modifies store
      ensures store.Valid()
      ensures r.Success? ==>
                && store.Tables() == Sweep(old(store.Tables()), false)
                && Admitted(store.Tables(), user, agentId, requestId, envelope, r.value)
      ensures r.Failure? ==> r.error in {400, 404, 409} && store.leases == old(store.leases)
      // Bad identifiers, no match, or what is found of the first match: each case has its answer.
      ensures !Named(agentId, requestId) ==> r == Failure(400)
      ensures Named(agentId, requestId) && NoMatch(Sweep(old(store.Tables()), false), user, agentId) ==>
                r == Failure(404)
      ensures Named(agentId, requestId) ==>
                forall x | FirstMatch(Sweep(old(store.Tables()), false), user, agentId, order, x) ::
                  var fits := EnvelopeFor(envelope, old(store.agents)[x.agent].name, facts(x.agent), requestId);
                  && (!facts(x.agent).online ==> r == Failure(409))
                  && (facts(x.agent).online && !fits ==> r == Failure(400))
                  && (facts(x.agent).online && fits ==> r == Success(x))
      ensures r == Failure(404) ==> NoMatch(store.Tables(), user, agentId)
    {
      var agentOk := CheckIdentifier(agentId, 1, 128);
      var requestOk := CheckIdentifier(requestId, 8, 128);
      if !agentOk || !requestOk {
        return Failure(400);
      }
      var found := store.ResolveAgentAccess(user, agentId, order);
      if found.None? {
        return Failure(404);
      }
      var x := found.value;
      forall y | FirstMatch(store.Tables(), user, agentId, order, y) ensures y == x {
        OneFirstMatch(store.Tables(), user, agentId, order, x, y);
      }
      AcceptedIff(envelope, KeyOf(x), requestId);
      if !facts(x.agent).online {
        return Failure(409);
      }
      if ValidateEnvelope(envelope, KeyOf(x), requestId) != Fine {
        return Failure(400);
      }
      return Success(x);
    }

    // Everything is in order: the identifiers, the first match, its agent and the envelope, the day's limit, a new
    // ticket, its insert and its signature.
    ghost predicate Passes(db: Db, user: UserId, agentId: string, requestId: string, envelope: Envelope,
                           order: seq<AgentId>, today: UsageModel.Day, ticket: Ticket, issuing: Issuing, x: Access)
      reads ledger
    {
      && Named(agentId, requestId) && FirstMatch(db, user, agentId, order, x)
      && facts(x.agent).online && EnvelopeFor(envelope, db.agents[x.agent].name, facts(x.agent), requestId)
      && (x.share.Some? && issuing.counted ==>
            UnderLimit(db, x, UsageModel.DailyTotal(UsageModel.Books(ledger.events, ledger.daily),
                                                    x.share.value, today).tasks))
      && ticket !in db.leases && issuing.insert.Works? && issuing.signed.Some?
    }

    // Up to the ticket.
    method OpenConnection(user: UserId, agentId: string, requestId: string, envelope: Envelope, order: seq<AgentId>,
                          today: UsageModel.Day, ticket: Ticket, issuing: Issuing)
      returns (r: Result<Grant, Answer>)
      requires store.Valid() && store.Orders(order) && user in store.users
      modifies store
      ensures store.Valid()
      ensures r.Success? ==>
                var g, db := r.value, Sweep(old(store.Tables()), false);
                && Admitted(db, user, agentId, requestId, envelope, g.access)
                && g == Grant(g.access, ticket, requestId, g.message)
                && CreateAccessLease(db, user, g.access, 5 * MINUTE, requestId,
                                     UsedToday(g.access, today, issuing.counted), ticket) ==
                   Committed(store.Tables(), ticket)
      // No ticket is handed out on a day whose recorded tasks have reached the limit of its share.
      ensures r.Success? && issuing.counted && ledger.Valid() && r.value.access.share.Some? ==>
                UnderLimit(store.Tables(), r.value.access,
                           UsageModel.Sum(ledger.events, r.value.access.share.value, today).tasks)
      // The first match gets its ticket when nothing stands against it.
      ensures forall x | Passes(Sweep(old(store.Tables()), false), user, agentId, requestId, envelope, order, today,
                                ticket, issuing, x) :: r.Success? && r.value.access == x
      ensures r.Success? ==> Added(old(store.leases), store.Tables(), r.value, user)
      ensures r.Success? ==> issuing.insert.Works?
      ensures r.Failure? ==>
                && r.error.Failed? && r.error.code in {400, 404, 409, 429}
                && LeasesAfter(old(store.leases), store.leases, false, issuing.TakesBack())
      ensures r == Failure(Failed(404)) ==> forall x :: Grants(store.Tables(), user, x) ==> !Matches(x, agentId)
    {
      var admitted := Admit(user, agentId, requestId, envelope, order);
      if admitted.Failure? {
        return Failure(Failed(admitted.error));
      }
      var x := admitted.value;
      GrantsDerived(store.Tables(), user, x);
      var message := IssueAccessTicket(user, x, requestId, today, ticket, issuing);
      if message.None? {
        return Failure(Failed(429));
      }
      var g := Grant(x, ticket, requestId, message.value);
      IssueAdds(old(store.Tables()), store.Tables(), g, user, UsedToday(x, today, issuing.counted));
      return Success(g);
    }

    // The agent has answered in time.
    method PassAnswer(g: Grant, text: string, saves: bool, revokes: bool) returns (answer: Answer)
      requires store.Valid()
      modifies store, mailbox`responses
      ensures store.Valid()
      ensures forall from :: answer.Exit() == Conclude(read, TunnelModel.Payload(text, from), saves, true)
      ensures store.Tables() == Settled(old(store.Tables()), g.ticket, answer.Exit(), revokes)
      ensures answer.Delivered? ==>
                && answer.blob == read(text).value.blob && mailbox.Stored(g.Slot()) == Some(answer.blob.raw)
                && mailbox.responses - {g.Slot()} == old(mailbox.responses) - {g.Slot()}
      ensures !answer.Delivered? ==> mailbox.responses == old(mailbox.responses)
    {
      var reply := read(text);
      if reply.None? || reply.value.error != "" {
        var _ := store.RevokeAccessLease(g.ticket, revokes);
        return Failed(503);
      }
      var fine := CheckBlob(reply.value.blob);
      if !fine {
        var _ := store.RevokeAccessLease(g.ticket, revokes);
        return Failed(502);
      }
      if !saves {
        var _ := store.RevokeAccessLease(g.ticket, revokes);
        return Failed(500);
      }
      mailbox.SaveHapiResponse(g.Slot(), reply.value.blob.raw);
      return Delivered(reply.value.blob);
    }

    // After the wait.
    method SettleConnection(g: Grant, outcome: TunnelModel.Outcome, saves: bool, queues: bool, revokes: bool)
      returns (answer: Answer)
      requires store.Valid() && mailbox.Valid()
      modifies store, mailbox
      ensures store.Valid() && mailbox.Valid()
      ensures answer.Exit() == Conclude(read, outcome, saves, queues)
      ensures store.Tables() == Settled(old(store.Tables()), g.ticket, answer.Exit(), revokes)
      // 200: the agent's blob is stored under the request, and no other response changes.
      ensures answer.Connected() ==> Holds(g.Slot(), answer)
      ensures answer.Delivered? ==>
                && answer.blob == read(outcome.text).value.blob
                && mailbox.responses - {g.Slot()} == old(mailbox.responses) - {g.Slot()}
      ensures !answer.Delivered? ==> mailbox.responses == old(mailbox.responses)
      // 202: the command is pending in the mailbox.
      ensures answer.Accepted? ==>
                && (mailbox.Contents(), answer.item.id) ==
                   MailboxModel.Enqueue(old(mailbox.Contents()), g.Slot(), g.message)
      ensures !answer.Accepted? ==> mailbox.Contents() == old(mailbox.Contents())
    {
      if outcome.Payload? {
        answer := PassAnswer(g, outcome.text, saves, revokes);
        return;
      }
      if outcome.ErrContext? {
        var _ := store.RevokeAccessLease(g.ticket, revokes);
        return Silent;
      }
      if !queues {
        var _ := store.RevokeAccessLease(g.ticket, revokes);
        return Failed(500);
      }
      var item := mailbox.EnqueueHapiConnection(g.Slot(), g.message);
      return Accepted(item);
    }

    // The whole request when nothing else runs: a ticket it inserted is revoked exactly when it does not connect, knows
    // of the insert and its revoke statement succeeds, and tickets issued before are as they were.
    method RequestHapiConnection(user: UserId, agentId: string, requestId: string, envelope: Envelope,
                                 order: seq<AgentId>, today: UsageModel.Day, ticket: Ticket, issuing: Issuing,
                                 outcome: TunnelModel.Outcome, saves: bool, queues: bool)
      returns (answer: Answer)
      requires store.Valid() && mailbox.Valid() && store.Orders(order) && user in store.users
      modifies store, mailbox
      ensures store.Valid() && mailbox.Valid()
      ensures LeasesAfter(old(store.leases), store.leases, answer.Connected(), issuing.TakesBack())
      // A request with everything in order ends as discovery and the storage statements have it.
      ensures (exists x :: Passes(Sweep(old(store.Tables()), false), user, agentId, requestId, envelope, order, today,
                                  ticket, issuing, x)) ==>
                answer.Exit() == Conclude(read, outcome, saves, queues)
      ensures answer.Connected() ==>
                && ticket !in old(store.leases) && Issued(store.Tables(), ticket, user, requestId)
                && Holds(SlotOf(store.Tables(), ticket), answer)
    {
      var grant := OpenConnection(user, agentId, requestId, envelope, order, today, ticket, issuing);
      if grant.Failure? {
        return grant.error;
      }
      var g := grant.value;
      ghost var issued := store.Tables();
      answer := SettleConnection(g, outcome, saves, queues, issuing.revokes);
      AddedThenSettled(old(store.leases), issued, g, user, answer.Exit(), issuing.revokes);
    }
  }

  // ----- with other handlers in between -----

  // This step is one of the three kinds that revoke the lease.
  ghost predicate Revokes(db: Db, op: Op, t: Ticket) {
    t in db.leases && Step(db, op) != db &&
    var l := db.leases[t];
    || op == RevokeLeaseOp(t)
    || (op.TransitionOp? && l.share == Some(op.id))
    || (op.UpdateUserOp? && (op.target == l.subject || op.target == l.owner) && Inactive(Step(db, op), op.target))
  }

  lemma StepRevokes(db: Db, op: Op, t: Ticket)
    requires t in db.leases && !db.leases[t].revoked && t in Step(db, op).leases && Step(db, op).leases[t].revoked
    ensures Revokes(db, op, t)
  {}

  // If a ticket in force has been revoked by the end of a run, one of its steps was a revocation of this very ticket,
  // a transition of its share, or the deactivation of its subject or owner.
  lemma {:induction false} RevokedBy(db: Db, ops: seq<Op>, t: Ticket) returns (i: nat)
    requires Sound(db) && t in db.leases && !db.leases[t].revoked
    requires t in Exec(db, ops).leases && Exec(db, ops).leases[t].revoked
    ensures i < |ops| && Revokes(Exec(db, ops[..i]), ops[i], t)
    decreases |ops|
  {
    var next := Step(db, ops[0]);
    StepSound(db, ops[0]);
    assert LeaseEvolves(db.leases[t], next.leases[t]);
    if next.leases[t].revoked {
      StepRevokes(db, ops[0], t);
      i := 0;
    } else {
      var k := RevokedBy(next, ops[1..], t);
      i := k + 1;
      assert ops[..i][1..] == ops[1..][..k] && ops[..i][0] == ops[0];
    }
  }

  // The tickets of other requests are never touched; this one is revoked exactly when the request does not connect
  // and its revoke statement succeeds.
  lemma TicketStaysIff(db: Db, t: Ticket, read: string -> Option<Reply>, outcome: TunnelModel.Outcome,
                       saves: bool, queues: bool, revokes: bool, k: Ticket)
    requires k in db.leases && !db.leases[k].revoked
    ensures var exit := Conclude(read, outcome, saves, queues);
            var d := Settled(db, t, exit, revokes);
            k in d.leases && (d.leases[k].revoked <==> k == t && !exit.Connects() && revokes)
    ensures var exit := Conclude(read, outcome, saves, queues);
            exit.Connects() <==>
            if outcome.Payload? then saves && read(outcome.text).Some? && read(outcome.text).value.error == "" &&
                                     read(outcome.text).value.blob.Fine()
            else queues && !outcome.ErrContext?
  {}

  // An answer can be passed on if its error is empty and its blob has version 1, authenticated data, a nonce of 12
  // bytes and a ciphertext of 17 bytes to 16 KiB.
  ghost predicate Proper(reply: Reply) {
    reply.error == "" && reply.blob.version == 1 && |reply.blob.aad| > 0 && reply.blob.nonce == Some(12) &&
    exists n :: reply.blob.ciphertext == Some(n) && 17 <= n <= 16384
  }

  // How each outcome ends.
  lemma ExitsOf(read: string -> Option<Reply>, outcome: TunnelModel.Outcome, saves: bool, queues: bool)
    ensures var exit := Conclude(read, outcome, saves, queues);
            && (exit == Deliver <==>
                  outcome.Payload? && read(outcome.text).Some? && Proper(read(outcome.text).value) && saves)
            && (exit == Queue <==> (outcome.ErrUnsupported? || outcome.ErrUnavailable?) && queues)
            && (exit == Leave <==> outcome.ErrContext?)
            && (exit == Stop(503) <==>
                  outcome.Payload? && (read(outcome.text).None? || read(outcome.text).value.error != ""))
            && (exit == Stop(502) <==>
                  outcome.Payload? && read(outcome.text).Some? && read(outcome.text).value.error == "" &&
                  !Proper(read(outcome.text).value))
    ensures var exit := Conclude(read, outcome, saves, queues);
            exit.Deliver? || exit.Queue? || exit.Leave? || exit in {Stop(500), Stop(502), Stop(503)}
  {}

  // The input at which an exit other than 200 and 202 leaves its ticket in force: neither the response can be stored
  // nor the ticket revoked. The answer is 500 and the next tick still renews the ticket.
  lemma FailedSaveKeepsTicket(db: Db, t: Ticket, read: string -> Option<Reply>, text: string, from: TunnelModel.Peer,
                              queues: bool, user: UserId, x: Access, requestId: string)
    requires read(text).Some? && read(text).value.error == "" && read(text).value.blob.Fine()
    requires t in db.leases && Candidate(db.leases[t], db.now, user, x, requestId)
    ensures var exit := Conclude(read, TunnelModel.Payload(text, from), false, queues);
            exit == Stop(500) && Renewable(Settled(db, t, exit, false), user, x, requestId)
  {
    assert Settled(db, t, Stop(500), false).leases[t] == db.leases[t];
  }

  // After an exit that does not connect, a ticket that was its request's only candidate can be renewed
  // if and only if the revoke statement failed.
  lemma RenewableIffRevokeFailed(db: Db, t: Ticket, exit: Exit, revokes: bool, user: UserId, x: Access,
                                 requestId: string)
    requires !exit.Connects() && t in db.leases && Candidate(db.leases[t], db.now, user, x, requestId)
    requires forall k :: k in db.leases && Candidate(db.leases[k], db.now, user, x, requestId) ==> k == t
    ensures Renewable(Settled(db, t, exit, revokes), user, x, requestId) <==> !revokes
  {
    if !revokes { assert Settled(db, t, exit, revokes).leases[t] == db.leases[t]; }
  }

  // A failed request whose revoke took effect opens no stream: whatever ran during its wait and whatever runs later,
  // a stream whose request id came with this ticket only is refused at every tick.
  lemma FailedRequestOpensNoStream(issued: Db, t: Ticket, during: seq<Op>, exit: Exit, revokes: bool, later: seq<Op>,
                                   token: Token, subject: UserId, x: Access, accessId: string,
                                   ownerKey: UserId, nameKey: string, requestId: string)
    requires Sound(issued) && t in issued.leases && !exit.Connects() && revokes
    requires var d := Exec(Settled(Exec(issued, during), t, exit, revokes), later);
             forall k | k in d.leases && d.leases[k].requestId == requestId && d.leases[k].subject == subject :: k == t
    ensures var d := Exec(Settled(Exec(issued, during), t, exit, revokes), later);
            !StreamAuthorized(d, token, subject, x, accessId, ownerKey, nameKey, requestId)
  {
    ExecSound(issued, during);
    var waited := Exec(issued, during);
    var settled := RevokeAccessLease(waited, t);
    RevokeLeaseInPlace(waited, t);
    InPlaceSound(waited, settled);
    ExecSound(settled, later);
    assert LeaseEvolves(settled.leases[t], Exec(settled, later).leases[t]);
  }
}

/** What every transition of the coordinator keeps, for every interleaving. */
module CoordinatorRuns {
  import opened Contracts
  import opened Coordinator
  import opened Sequences

  function SessionOf(p: Pending): string {
    p.proposal.identity.session
  }

  function RoleOf(p: Proposal): (string, string) {
    (p.target.goal, p.target.role)
  }

  ghost predicate Called(s: State, id: string) {
    exists i :: 0 <= i < |s.calls| && s.calls[i].proposal.id == id
  }

  /** The advertised window ends at the deadline or at the proposal's expiry, whichever comes first. */
  predicate WindowOk(expires: nat, remaining: nat, deadline: nat) {
    ACK_TIMEOUT_MS <= deadline && deadline - ACK_TIMEOUT_MS < expires
    && remaining == Min(ACK_TIMEOUT_MS, expires - (deadline - ACK_TIMEOUT_MS))
  }

  /** A runner call was made on an authorized, acknowledged, reconciled and unexpired proposal. */
  ghost predicate CallOk(c: RunnerCall) {
    && AuthorizationMatches(c.proposal, c.authorization)
    && AcknowledgementMatches(c.proposal, c.acknowledgement) && c.acknowledgement.accepted && c.acknowledgement.activity == Idle
    && ReadsAgree(c.proposal, c.acknowledgement, c.observed)
    && c.proposal.expires == c.proposal.created + PROPOSAL_TTL_MS
    && WindowOk(c.proposal.expires, c.remaining, c.deadline)
    && c.time < c.proposal.expires && c.time < c.deadline
  }

  /** The record read in the commit lock is the proposal's session, still idle, healthy, unassigned and at the same revision. */
  predicate ReadsAgree(p: Proposal, a: Acknowledgement, o: Observed) {
    && o.identity == p.identity && RecordConnection(o, p.connectionId, p.challenge) && o.revision == p.revision
    && SequenceCurrent(o, a.sequence) && Eligible(o) && p.target.node == o.identity.node
  }

  ghost predicate PendingOk(s: State, id: string)
    requires id in s.pendingById
  {
    var p := s.pendingById[id];
    && p.proposal.id == id && id in s.issued && id !in s.completed
    && SessionOf(p) in s.pendingBySession && s.pendingBySession[SessionOf(p)] == id
    && p.proposal.expires == p.proposal.created + PROPOSAL_TTL_MS
    && (p.authorization.Some? <==> p.remaining.Some?) && (p.remaining.Some? <==> p.deadline.Some?)
    && (p.authorization.Some? ==> AuthorizationMatches(p.proposal, p.authorization.value)
                                  && WindowOk(p.proposal.expires, p.remaining.value, p.deadline.value))
    && (p.acknowledgement.Some? ==> p.phase == Reconciled) && (p.phase == Proposed ==> p.authorization == None)
    && (p.phase == Reconciled ==>
      && p.authorization.Some? && p.acknowledgement.Some?
      && AcknowledgementMatches(p.proposal, p.acknowledgement.value) && p.acknowledgement.value.accepted && p.acknowledgement.value.activity == Idle
      && SessionOf(p) in s.tasks && BeyondReconciliation(s.tasks[SessionOf(p)], id))
    && (Called(s, id) ==> SessionOf(p) in s.tasks && s.tasks[SessionOf(p)] == Running(id))
  }

  predicate BeyondReconciliation(t: Task, id: string) {
    (t.AwaitingCommit? || t.Committing? || t.Running?) && t.id == id
  }

  /** What has been read by the time a commit waits at `stage`. */
  predicate ReadSoFar(p: Proposal, a: Acknowledgement, observed: Option<Observed>, stage: Stage) {
    match stage
    case ReadSession => true
    case ReadLatest => true
    case ReadConnection => observed.Some? && observed.value.identity == p.identity && RecordConnection(observed.value, p.connectionId, p.challenge)
    case ReadRevision =>
      observed.Some? && observed.value.identity == p.identity && RecordConnection(observed.value, p.connectionId, p.challenge)
      && observed.value.revision == p.revision
    case _ => observed.Some? && ReadsAgree(p, a, observed.value)
  }

  ghost predicate TaskOk(s: State, session: string, t: Task) {
    match t
    case Creating(request, _, _) => request.identity.session == session
    case Verifying(id, authorization) =>
      && id in s.pendingById && SessionOf(s.pendingById[id]) == session && s.pendingById[id].phase != Reconciled
      && s.pendingById[id].remaining == None && AuthorizationMatches(s.pendingById[id].proposal, authorization)
    case Requesting(id, _) =>
      id in s.pendingById && SessionOf(s.pendingById[id]) == session && s.pendingById[id].phase == Authorized
    case Reconciling(id, a, observed, stage) =>
      && id in s.pendingById && SessionOf(s.pendingById[id]) == session && s.pendingById[id].phase == Authorized
      && s.pendingById[id].authorization.Some? && AcknowledgementMatches(s.pendingById[id].proposal, a) && stage != ReadLatest
      && (stage == ReadLocal || stage == ReadOccupied || stage == ReadManaged ==> a.accepted && a.activity == Idle)
    case AwaitingCommit(id) => id in s.pendingById && SessionOf(s.pendingById[id]) == session && s.pendingById[id].phase == Reconciled
    case Committing(id, observed, stage) =>
      && id in s.pendingById && SessionOf(s.pendingById[id]) == session && s.pendingById[id].phase == Reconciled
      && s.commitHolder == Some(session)
      && (s.pendingById[id].acknowledgement.Some? ==>
            ReadSoFar(s.pendingById[id].proposal, s.pendingById[id].acknowledgement.value, observed, stage))
    case Running(id) =>
      && id in s.pendingById && SessionOf(s.pendingById[id]) == session && s.pendingById[id].phase == Reconciled
      && s.commitHolder == Some(session) && Called(s, id)
    case Presenting(id) => id in s.completed && s.completed[id].proposal.identity.session == session && !s.completed[id].presented
    case Delivering(id) =>
      id in s.completed && s.completed[id].proposal.identity.session == session && s.completed[id].presented && !s.completed[id].delivered
  }

  ghost predicate CompletedOk(s: State, id: string)
    requires id in s.completed
  {
    var done := s.completed[id];
    && done.proposal.id == id && id in s.issued && Called(s, id) && ResultMatches(done.result, done.proposal)
    && (done.presented <==> id in s.presentations) && (done.delivered <==> id in s.deliveries)
    && (done.delivered ==> done.presented)
  }

  ghost predicate PendingsOk(s: State) {
    && (forall id :: id in s.pendingById ==> PendingOk(s, id))
    && forall x :: x in s.pendingBySession ==> s.pendingBySession[x] in s.pendingById && SessionOf(s.pendingById[s.pendingBySession[x]]) == x
  }

  ghost predicate TasksOk(s: State) {
    && (forall x :: x in s.tasks ==> TaskOk(s, x, s.tasks[x]))
    && (s.commitHolder.Some? ==> s.commitHolder.value in s.tasks && Holding(s.tasks[s.commitHolder.value]))
  }

  /** Operations that can be inside the commit lock. */
  predicate Holding(t: Task) {
    t.Committing? || t.Running? || t.Presenting? || t.Delivering?
  }

  ghost predicate CallsOk(s: State) {
    && (forall i :: 0 <= i < |s.calls| ==> CallOk(s.calls[i]) && s.calls[i].proposal.id in s.issued)
    && (forall i, j :: 0 <= i < j < |s.calls| ==> s.calls[i].proposal.id != s.calls[j].proposal.id)
  }

  ghost predicate CompletionsOk(s: State) {
    && (forall id :: id in s.completed ==> CompletedOk(s, id))
    && Distinct(s.completedOrder) && |s.completedOrder| <= IDEMPOTENCY_LIMIT && (forall id :: id in s.completedOrder ==> id in s.completed)
    && Distinct(s.presentations) && Distinct(s.deliveries)
    && (forall id :: id in s.presentations || id in s.deliveries ==> id in s.completed)
  }

  ghost predicate Valid(s: State) {
    PendingsOk(s) && TasksOk(s) && CallsOk(s) && CompletionsOk(s)
  }

  /** `later` differs from `s` only in what belongs to one session. */
  ghost predicate Only(s: State, later: State, session: string) {
    && (forall x :: x != session ==> (x in later.tasks <==> x in s.tasks) && (x in s.tasks ==> later.tasks[x] == s.tasks[x]))
    && (forall x :: x != session ==>
          (x in later.pendingBySession <==> x in s.pendingBySession) && (x in s.pendingBySession ==> later.pendingBySession[x] == s.pendingBySession[x]))
    && (forall id :: id in s.pendingById && SessionOf(s.pendingById[id]) != session ==>
          id in later.pendingById && later.pendingById[id] == s.pendingById[id])
    && (forall id :: id in later.pendingById && SessionOf(later.pendingById[id]) != session ==>
          id in s.pendingById && later.pendingById[id] == s.pendingById[id])
    && (forall id :: id in s.completed && s.completed[id].proposal.identity.session != session ==>
          id in later.completed && later.completed[id] == s.completed[id])
    && (later.commitHolder == s.commitHolder
        || ((s.commitHolder == None || s.commitHolder == Some(session)) && (later.commitHolder == None || later.commitHolder == Some(session))))
    && s.issued <= later.issued
    && (forall id :: id in later.completed ==> id in s.completed || (id in s.pendingById && SessionOf(s.pendingById[id]) == session))
    && (forall id :: Called(s, id) ==> Called(later, id))
    && (forall id :: Called(later, id) ==> Called(s, id) || (id in s.pendingById && SessionOf(s.pendingById[id]) == session))
  }

  lemma OthersKept(s: State, later: State, session: string)
    requires Valid(s) && Only(s, later, session)
    ensures forall x :: x != session && x in later.tasks ==> TaskOk(later, x, later.tasks[x])
    ensures forall id :: id in later.pendingById && SessionOf(later.pendingById[id]) != session ==> PendingOk(later, id)
    ensures forall x :: x != session && x in later.pendingBySession ==>
      later.pendingBySession[x] in later.pendingById && SessionOf(later.pendingById[later.pendingBySession[x]]) == x
  {
    forall x | x != session && x in later.tasks ensures TaskOk(later, x, later.tasks[x]) {
      assert TaskOk(s, x, s.tasks[x]);
    }
    forall id | id in later.pendingById && SessionOf(later.pendingById[id]) != session ensures PendingOk(later, id) {
      assert PendingOk(s, id);
      OthersNotTouched(s, later, session, id);
    }
  }

  lemma OthersNotTouched(s: State, later: State, session: string, id: string)
    requires Valid(s) && Only(s, later, session) && id in s.pendingById && SessionOf(s.pendingById[id]) != session
    ensures Called(later, id) ==> Called(s, id)
    ensures id !in later.completed
  {
    assert PendingOk(s, id);
  }

  /** What is left to show of a transition that touches one session. */
  ghost predicate LocalOk(later: State, session: string) {
    && (session in later.tasks ==> TaskOk(later, session, later.tasks[session]))
    && (forall id :: id in later.pendingById && SessionOf(later.pendingById[id]) == session ==> PendingOk(later, id))
    && (session in later.pendingBySession ==>
          later.pendingBySession[session] in later.pendingById && SessionOf(later.pendingById[later.pendingBySession[session]]) == session)
    && (later.commitHolder == Some(session) ==> session in later.tasks && Holding(later.tasks[session]))
  }

  lemma Assemble(s: State, later: State, session: string)
    requires Valid(s) && Only(s, later, session) && LocalOk(later, session) && CallsOk(later) && CompletionsOk(later)
    ensures Valid(later)
  {
    hide CallsOk, CompletionsOk, CompletedOk, Called, TaskOk, PendingOk;
    OthersKept(s, later, session);
  }

  /** Calls and completions are as they were. */
  ghost predicate SameRecords(s: State, later: State) {
    && later.completed == s.completed && later.completedOrder == s.completedOrder && s.issued <= later.issued
    && later.calls == s.calls
    && later.presentations == s.presentations && later.deliveries == s.deliveries
  }

  lemma SameRecordsOk(s: State, later: State)
    requires Valid(s) && SameRecords(s, later)
    ensures CallsOk(later) && CompletionsOk(later)
    ensures forall id :: Called(later, id) == Called(s, id)
  {
    forall id ensures Called(later, id) == Called(s, id) { CalledSame(s, later, id); }
    forall id | id in later.completed ensures CompletedOk(later, id) {
      assert CompletedOk(s, id);
    }
  }

  /** A transition that changes no record, one task and one proposal touches one session. */
  lemma OnlyOne(s: State, later: State, session: string, id: string)
    requires SameRecords(s, later)
    requires forall x :: x != session ==> (x in later.tasks <==> x in s.tasks) && (x in s.tasks ==> later.tasks[x] == s.tasks[x])
    requires forall x :: x != session ==>
      (x in later.pendingBySession <==> x in s.pendingBySession) && (x in s.pendingBySession ==> later.pendingBySession[x] == s.pendingBySession[x])
    requires forall x :: x != id ==> (x in later.pendingById <==> x in s.pendingById) && (x in s.pendingById ==> later.pendingById[x] == s.pendingById[x])
    requires (id in s.pendingById ==> SessionOf(s.pendingById[id]) == session) && (id in later.pendingById ==> SessionOf(later.pendingById[id]) == session)
    requires later.commitHolder == s.commitHolder
      || ((s.commitHolder == None || s.commitHolder == Some(session)) && (later.commitHolder == None || later.commitHolder == Some(session)))
    requires forall x :: Called(later, x) == Called(s, x)
    ensures Only(s, later, session)
  {
    hide Called;
  }

  /** Nothing but tasks, locks and authorizations has changed. */
  ghost predicate SameTables(s: State, later: State) {
    SameRecords(s, later) && later.pendingById == s.pendingById && later.pendingBySession == s.pendingBySession
  }

  lemma CalledSame(s: State, later: State, id: string)
    requires later.calls == s.calls
    ensures Called(later, id) == Called(s, id)
  {
    if Called(s, id) {
      var i :| 0 <= i < |s.calls| && s.calls[i].proposal.id == id;
      assert later.calls[i].proposal.id == id;
    }
    if Called(later, id) {
      var i :| 0 <= i < |later.calls| && later.calls[i].proposal.id == id;
      assert s.calls[i].proposal.id == id;
    }
  }

  /** The operation of `session` moves on, and the proposals stay. */
  lemma TaskMoves(s: State, later: State, session: string)
    requires Valid(s) && SameTables(s, later)
    requires forall x :: x != session ==> (x in later.tasks <==> x in s.tasks) && (x in s.tasks ==> later.tasks[x] == s.tasks[x])
    requires later.commitHolder == s.commitHolder
      || ((s.commitHolder == None || s.commitHolder == Some(session)) && (later.commitHolder == None || later.commitHolder == Some(session)))
    requires later.commitHolder == Some(session) ==> session in later.tasks && Holding(later.tasks[session])
    requires session in later.tasks ==> TaskOk(later, session, later.tasks[session])
    requires forall id :: id in s.pendingById && SessionOf(s.pendingById[id]) == session ==>
      && (s.pendingById[id].phase == Reconciled ==> session in later.tasks && BeyondReconciliation(later.tasks[session], id))
      && (Called(s, id) ==> session in later.tasks && later.tasks[session] == Running(id))
    ensures Valid(later)
  {
    hide CallsOk, CompletionsOk, CompletedOk, Called;
    SameRecordsOk(s, later);
    forall id | id in later.pendingById && SessionOf(later.pendingById[id]) == session ensures PendingOk(later, id) {
      assert PendingOk(s, id);
    }
    OnlyUnchanged(s, later, session);
    hide Valid, Only, PendingOk, TaskOk, PendingsOk, TasksOk;
    Assemble(s, later, session);
  }

  lemma OnlyUnchanged(s: State, later: State, session: string)
    requires SameTables(s, later)
    requires forall x :: x != session ==> (x in later.tasks <==> x in s.tasks) && (x in s.tasks ==> later.tasks[x] == s.tasks[x])
    requires later.commitHolder == s.commitHolder
      || ((s.commitHolder == None || s.commitHolder == Some(session)) && (later.commitHolder == None || later.commitHolder == Some(session)))
    requires forall x :: Called(later, x) == Called(s, x)
    ensures Only(s, later, session)
  {
    hide Called;
  }

  /** The proposal of a session, if it has one, is the one its task works on. */
  lemma OnlyProposal(s: State, session: string, id: string, other: string)
    requires Valid(s) && id in s.pendingById && other in s.pendingById
    requires SessionOf(s.pendingById[id]) == session && SessionOf(s.pendingById[other]) == session
    ensures other == id
  {
    hide CallsOk, CompletionsOk, CompletedOk, Called;
    assert PendingOk(s, id) && PendingOk(s, other);
  }

  /** A session without an operation in flight has no proposal past authorization. */
  lemma AtRest(s: State, session: string)
    requires Valid(s) && (session in s.tasks ==> s.tasks[session].Creating?)
    ensures forall id :: id in s.pendingById && SessionOf(s.pendingById[id]) == session ==> s.pendingById[id].phase != Reconciled && !Called(s, id)
  {
    hide CallsOk, CompletionsOk, CompletedOk, Called;
    forall id | id in s.pendingById && SessionOf(s.pendingById[id]) == session ensures s.pendingById[id].phase != Reconciled && !Called(s, id) {
      assert PendingOk(s, id);
    }
  }

  /** A proposal is dropped, and the operation of its session ends or stays between reads of a creation. */
  lemma ProposalDropped(s: State, later: State, session: string, id: string)
    requires Valid(s) && id in s.pendingById && SessionOf(s.pendingById[id]) == session
    requires later.pendingById == s.pendingById - {id} && later.pendingBySession == s.pendingBySession - {session}
    requires SameRecords(s, later)
    requires forall x :: x != session ==> (x in later.tasks <==> x in s.tasks) && (x in s.tasks ==> later.tasks[x] == s.tasks[x])
    requires session in later.tasks ==> later.tasks[session].Creating? && later.tasks[session].request.identity.session == session
    requires later.commitHolder == if s.commitHolder == Some(session) then None else s.commitHolder
    ensures Valid(later)
  {
    SameRecordsOk(s, later);
    hide CallsOk, CompletionsOk, CompletedOk, Called, PendingOk;
    forall other | other in later.pendingById ensures SessionOf(later.pendingById[other]) != session {
      if SessionOf(s.pendingById[other]) == session {
        OnlyProposal(s, session, id, other);
      }
    }
    hide Valid, PendingsOk, TasksOk, CallsOk, CompletionsOk;
    OnlyOne(s, later, session, id);
    hide Only;
    Assemble(s, later, session);
  }

  lemma RemovedIs(s: State, session: string, id: string)
    requires Valid(s) && id in s.pendingById && SessionOf(s.pendingById[id]) == session
    ensures RemovePending(s, id) == s.(pendingById := s.pendingById - {id}, pendingBySession := s.pendingBySession - {session})
  {
    assert PendingOk(s, id);
  }

  lemma FailedValid(s: State, session: string, id: string)
    requires Valid(s) && id in s.pendingById && SessionOf(s.pendingById[id]) == session
    ensures Valid(Failed(s, session, id))
  {
    RemovedIs(s, session, id);
    ProposalDropped(s, Failed(s, session, id), session, id);
  }

  /** Dropping the proposal of a session at rest. */
  lemma DroppedAtRest(s: State, session: string, id: string)
    requires Valid(s) && id in s.pendingById && SessionOf(s.pendingById[id]) == session
    requires session in s.tasks ==> s.tasks[session].Creating?
    ensures Valid(RemovePending(s, id)) && session !in RemovePending(s, id).pendingBySession
    ensures RemovePending(s, id).tasks == s.tasks
  {
    hide CallsOk, CompletionsOk, CompletedOk, Called;
    RemovedIs(s, session, id);
    assert s.commitHolder != Some(session);
    assert session in s.tasks ==> TaskOk(s, session, s.tasks[session]);
    ProposalDropped(s, RemovePending(s, id), session, id);
  }

  /** What validity says of one session, and of one proposal. */
  lemma Facts(s: State, session: string)
    requires Valid(s)
    ensures session in s.tasks ==> TaskOk(s, session, s.tasks[session])
    ensures s.commitHolder == Some(session) ==> session in s.tasks && Holding(s.tasks[session])
  {
  }

  lemma PendingFacts(s: State, id: string)
    requires Valid(s) && id in s.pendingById
    ensures PendingOk(s, id)
  {
  }

  // ---- createProposal. ----

  lemma CreateStarts(s: State, request: Request)
    requires Valid(s)
    ensures Valid(StartCreate(s, request))
  {
    hide Valid, PendingsOk, TasksOk, CallsOk, CompletionsOk, CompletedOk, Called;
    var session := request.identity.session;
    if session !in s.tasks {
      AtRest(s, session);
      Facts(s, session);
      TaskMoves(s, StartCreate(s, request), session);
    }
  }

  /** While a creation waits between reads, it may move on, end, or first drop an expired proposal. */
  lemma CreatingMoves(s: State, later: State, session: string)
    requires Valid(s) && session in s.tasks && s.tasks[session].Creating?
    requires later == Released(s, session)
      || exists t: Task :: t.Creating? && t.request.identity.session == session && later == Waiting(s, session, t)
    ensures Valid(later)
  {
    hide Valid, PendingsOk, TasksOk, CallsOk, CompletionsOk, CompletedOk, Called;
    AtRest(s, session);
    Facts(s, session);
    TaskMoves(s, later, session);
  }

  lemma CreateResumes(s: State, session: string, reply: Reply, now: nat, id: string, nonce: string)
    requires Valid(s) && session in s.tasks && s.tasks[session].Creating?
    ensures Valid(ResumeCreate(s, session, s.tasks[session], reply, now, id, nonce))
  {
    hide Valid, PendingsOk, TasksOk, CallsOk, CompletionsOk, CompletedOk, Called;
    var t := s.tasks[session];
    var later := ResumeCreate(s, session, t, reply, now, id, nonce);
    Facts(s, session);
    PendingHere(s, session);
    match t.stage
    case ReadConnection =>
      var checked := CheckPending(s, session, now);
      if checked.Some? {
        if checked.value != s {
          DroppedAtRest(s, session, s.pendingBySession[session]);
        }
        if reply == Verdict(true) {
          CreatingMoves(checked.value, later, session);
        } else {
          CreatingMoves(s, later, session);
        }
      } else {
        CreatingMoves(s, later, session);
      }
    case ReadSession => CreatingMoves(s, later, session);
    case ReadLocal => CreatingMoves(s, later, session);
    case ReadOccupied => CreatingMoves(s, later, session);
    case _ => CreateFinishes(s, session, reply, now, id, nonce);
  }

  lemma PendingHere(s: State, session: string)
    requires Valid(s)
    ensures session in s.pendingBySession ==>
      s.pendingBySession[session] in s.pendingById && SessionOf(s.pendingById[s.pendingBySession[session]]) == session
  {
  }

  lemma CreateFinishes(s: State, session: string, reply: Reply, now: nat, id: string, nonce: string)
    requires Valid(s) && session in s.tasks && s.tasks[session].Creating?
    requires s.tasks[session].stage == ReadManaged || s.tasks[session].stage == ReadLatest || s.tasks[session].stage == ReadRevision
    ensures Valid(ResumeCreate(s, session, s.tasks[session], reply, now, id, nonce))
  {
    hide Valid, PendingsOk, TasksOk, CallsOk, CompletionsOk, CompletedOk, Called;
    var t := s.tasks[session];
    var later := ResumeCreate(s, session, t, reply, now, id, nonce);
    Facts(s, session);
    AtRest(s, session);
    if reply != Verdict(false) || session in s.pendingBySession || t.observed == None || now + PROPOSAL_TTL_MS > MAX_SAFE_INTEGER || id in s.issued {
      CreatingMoves(s, later, session);
    } else if nonce in s.issued + {id} {
      TaskMoves(s, later, session);
    } else {
      ProposalCreated(s, later, session, later.pendingById[id]);
    }
  }

  /** A new proposal for a session that has none. */
  lemma ProposalCreated(s: State, later: State, session: string, p: Pending)
    requires Valid(s) && session !in s.pendingBySession && p.proposal.id !in s.issued && SessionOf(p) == session
    requires s.commitHolder != Some(session)
    requires p == Pending(p.proposal, p.transport, Proposed, None, None, None, None) && p.proposal.expires == p.proposal.created + PROPOSAL_TTL_MS
    requires later == Released(s.(issued := s.issued + {p.proposal.id, p.proposal.nonce},
                    pendingById := s.pendingById[p.proposal.id := p],
                    pendingBySession := s.pendingBySession[session := p.proposal.id]), session)
    ensures Valid(later)
  {
    hide CallsOk, CompletionsOk, CompletedOk, Called;
    var id := p.proposal.id;
    NothingOfFresh(s, id);
    SameRecordsOk(s, later);
    forall other | other in s.pendingById ensures SessionOf(s.pendingById[other]) != session && other != id {
      assert PendingOk(s, other);
    }
    hide Valid, PendingsOk, TasksOk, CallsOk, CompletionsOk;
    hide CompletedOk, TaskOk;
    assert later.pendingById == s.pendingById[id := p] && later.pendingBySession == s.pendingBySession[session := id];
    assert later.tasks == s.tasks - {session} && later.commitHolder == s.commitHolder;
    assert PendingOk(later, id);
    hide Called, PendingOk;
    OnlyOne(s, later, session, id);
    hide Only;
    Assemble(s, later, session);
  }

  /** An identity never issued names no proposal, no call and no completion. */
  lemma NothingOfFresh(s: State, id: string)
    requires Valid(s) && id !in s.issued
    ensures id !in s.pendingById && id !in s.completed && !Called(s, id)
  {
    forall x | x in s.pendingById ensures x in s.issued { assert PendingOk(s, x); }
    forall x | x in s.completed ensures x in s.issued { assert CompletedOk(s, x); }
  }

  // ---- authorizeProposal. ----

  lemma AuthorizeStarts(s: State, id: string, a: Authorization, now: nat)
    requires Valid(s)
    ensures Valid(StartAuthorize(s, id, a, now))
  {
    hide Valid, PendingsOk, TasksOk, CallsOk, CompletionsOk, CompletedOk, Called;
    if id in s.pendingById && SessionOf(s.pendingById[id]) !in s.tasks {
      var session := SessionOf(s.pendingById[id]);
      PendingFacts(s, id);
      AtRest(s, session);
      Facts(s, session);
      if now >= s.pendingById[id].proposal.expires {
        DroppedAtRest(s, session, id);
      } else if StartAuthorize(s, id, a, now) != s {
        forall other | other in s.pendingById && SessionOf(s.pendingById[other]) == session ensures other == id {
          OnlyProposal(s, session, id, other);
        }
        TaskMoves(s, StartAuthorize(s, id, a, now), session);
      }
    }
  }

  /** The proposal an operation works on is rewritten, and the operation moves on. */
  lemma ProposalRewritten(s: State, later: State, session: string, p: Pending)
    requires Valid(s) && p.proposal.id in s.pendingById && SessionOf(p) == session && s.pendingById[p.proposal.id].proposal == p.proposal
    requires later.pendingById == s.pendingById[p.proposal.id := p] && later.pendingBySession == s.pendingBySession
    requires SameRecords(s, later)
    requires forall x :: x != session ==> (x in later.tasks <==> x in s.tasks) && (x in s.tasks ==> later.tasks[x] == s.tasks[x])
    requires later.commitHolder == s.commitHolder && s.commitHolder != Some(session)
    requires session in later.tasks ==> TaskOk(later, session, later.tasks[session])
    requires !Called(s, p.proposal.id) && PendingOk(later, p.proposal.id)
    ensures Valid(later)
  {
    hide CallsOk, CompletionsOk, CompletedOk, Called;
    var id := p.proposal.id;
    SameRecordsOk(s, later);
    forall other | other in later.pendingById && SessionOf(later.pendingById[other]) == session ensures other == id {
      OnlyProposal(s, session, id, other);
    }
    assert session in s.pendingBySession && s.pendingBySession[session] == id;
    hide TaskOk, PendingOk, Called;
    hide Valid, PendingsOk, TasksOk, CallsOk, CompletionsOk;
    OnlyOne(s, later, session, id);
    hide Only;
    Assemble(s, later, session);
  }

  lemma VerifyResumes(s: State, session: string, reply: Reply, now: nat)
    requires Valid(s) && session in s.tasks && s.tasks[session].Verifying? && s.tasks[session].id in s.pendingById
    ensures Valid(ResumeVerify(s, session, s.tasks[session], reply, now))
  {
    hide Valid, PendingsOk, TasksOk, CallsOk, CompletionsOk, CompletedOk, Called;
    var t := s.tasks[session];
    var later := ResumeVerify(s, session, t, reply, now);
    Facts(s, session);
    PendingFacts(s, t.id);
    var p := s.pendingById[t.id];
    CalledSame(s, later, t.id);
    Facts(s, session);
    if reply != Verdict(true) {
      SoleProposalRests(s, session, t.id);
      TaskMoves(s, later, session);
    } else if now >= p.proposal.expires {
      RemovedIs(s, session, t.id);
      ProposalDropped(s, later, session, t.id);
    } else {
      VerifyAccepted(s, session, t, later);
    }
  }

  lemma VerifyAccepted(s: State, session: string, t: Task, later: State)
    requires Valid(s) && session in s.tasks && s.tasks[session] == t && t.Verifying? && TaskOk(s, session, t) && PendingOk(s, t.id)
    requires exists now: nat :: now < s.pendingById[t.id].proposal.expires && later == ResumeVerify(s, session, t, Verdict(true), now)
    ensures Valid(later)
  {
    hide Valid, PendingsOk, TasksOk, CallsOk, CompletionsOk, CompletedOk, Called;
    CalledSame(s, later, t.id);
    Facts(s, session);
    assert session in later.tasks ==> TaskOk(later, session, later.tasks[session]);
    assert PendingOk(later, t.id);
    hide PendingOk, TaskOk;
    ProposalRewritten(s, later, session, later.pendingById[t.id]);
  }

  lemma SoleProposalRests(s: State, session: string, id: string)
    requires Valid(s) && id in s.pendingById && SessionOf(s.pendingById[id]) == session && session in s.tasks
    requires !BeyondReconciliation(s.tasks[session], id)
    ensures forall other :: other in s.pendingById && SessionOf(s.pendingById[other]) == session ==>
      s.pendingById[other].phase != Reconciled && !Called(s, other)
  {
    hide CallsOk, CompletionsOk, CompletedOk, Called;
    forall other | other in s.pendingById && SessionOf(s.pendingById[other]) == session
      ensures s.pendingById[other].phase != Reconciled && !Called(s, other)
    {
      OnlyProposal(s, session, id, other);
      assert PendingOk(s, id);
    }
  }

  lemma RequestResumes(s: State, session: string, reply: Reply)
    requires Valid(s) && session in s.tasks && s.tasks[session].Requesting? && s.tasks[session].id in s.pendingById
    ensures Valid(ResumeRequest(s, session, s.tasks[session], reply))
  {
    hide Valid, PendingsOk, TasksOk, CallsOk, CompletionsOk, CompletedOk, Called;
    var t := s.tasks[session];
    var later := ResumeRequest(s, session, t, reply);
    Facts(s, session);
    PendingFacts(s, t.id);
    CalledSame(s, later, t.id);
    Facts(s, session);
    if reply == Threw {
      ProposalRewritten(s, later, session, later.pendingById[t.id]);
    } else {
      SoleProposalRests(s, session, t.id);
      TaskMoves(s, later, session);
    }
  }

  // ---- acceptAcknowledgement. ----

  lemma RetryStarts(s: State, transport: Transport, a: Acknowledgement, now: nat)
    requires Valid(s) && a.proposalId in s.completedOrder && a.proposalId in s.completed
    ensures Valid(StartAcknowledge(s, transport, a, now))
  {
    hide Valid, PendingsOk, TasksOk, CallsOk, CompletionsOk, CompletedOk, Called;
    var id := a.proposalId;
    var session := s.completed[id].proposal.identity.session;
    var later := StartAcknowledge(s, transport, a, now);
    if session !in s.tasks && RetryMatches(s.completed[id], transport, a) {
      AtRest(s, session);
      Facts(s, session);
      TaskMoves(s, later, session);
    }
  }

  lemma AcknowledgeStarts(s: State, transport: Transport, a: Acknowledgement, now: nat)
    requires Valid(s)
    ensures Valid(StartAcknowledge(s, transport, a, now))
  {
    hide Valid, PendingsOk, TasksOk, CallsOk, CompletionsOk, CompletedOk, Called;
    var id := a.proposalId;
    var later := StartAcknowledge(s, transport, a, now);
    if id in s.completedOrder && id in s.completed {
      RetryStarts(s, transport, a, now);
    } else if id in s.pendingById && SessionOf(s.pendingById[id]) !in s.tasks {
      var session := SessionOf(s.pendingById[id]);
      AtRest(s, session);
      PendingFacts(s, id);
      Facts(s, session);
      if session in later.tasks {
        ReconcileStarts(s, transport, a, now, session);
      } else if later != s {
        DroppedAtRest(s, session, id);
      }
    }
  }

  lemma ReconcileStarts(s: State, transport: Transport, a: Acknowledgement, now: nat, session: string)
    requires Valid(s) && a.proposalId in s.pendingById && PendingOk(s, a.proposalId) && SessionOf(s.pendingById[a.proposalId]) == session
    requires session !in s.tasks && s.commitHolder != Some(session) && session in StartAcknowledge(s, transport, a, now).tasks
    requires !(a.proposalId in s.completedOrder && a.proposalId in s.completed)
    ensures Valid(StartAcknowledge(s, transport, a, now))
  {
    hide Valid, PendingsOk, TasksOk, CallsOk, CompletionsOk, CompletedOk, Called;
    AtRest(s, session);
    var later := StartAcknowledge(s, transport, a, now);
    assert TaskOk(later, session, later.tasks[session]);
    hide TaskOk, PendingOk, Called;
    TaskMoves(s, later, session);
  }

  lemma ReconcileResumes(s: State, session: string, reply: Reply)
    requires Valid(s) && session in s.tasks && s.tasks[session].Reconciling? && s.tasks[session].id in s.pendingById
    ensures Valid(ResumeReconcile(s, session, s.tasks[session], reply))
  {
    hide Valid, PendingsOk, TasksOk, CallsOk, CompletionsOk, CompletedOk, Called, ReadStep, Failed;
    var t := s.tasks[session];
    Facts(s, session);
    PendingFacts(s, t.id);
    Facts(s, session);
    var p := s.pendingById[t.id];
    if t.stage == ReadManaged {
      if reply == Verdict(false) {
        Reconcilable(s, session, t, ResumeReconcile(s, session, t, reply));
      } else {
        FailedValid(s, session, t.id);
      }
    } else {
      var step := ReadStep(p.proposal, t.acknowledgement, false, t.observed, t.stage, reply);
      if step == None {
        FailedValid(s, session, t.id);
      } else {
        ReadAgreed(p.proposal, t.acknowledgement, t.observed, t.stage, reply);
        ReadingMoves(s, session, t, ResumeReconcile(s, session, t, reply));
      }
    }
  }

  lemma ReadAgreed(p: Proposal, a: Acknowledgement, observed: Option<Observed>, stage: Stage, reply: Reply)
    requires stage != ReadLatest && ReadStep(p, a, false, observed, stage, reply).Some?
    ensures var next := ReadStep(p, a, false, observed, stage, reply).value.1;
      && next != ReadLatest
      && (next == ReadLocal ==> a.accepted && a.activity == Idle)
      && (next == ReadOccupied ==> stage == ReadLocal) && (next == ReadManaged ==> stage == ReadOccupied)
  {
  }

  /** The last read agrees: the proposal is reconciled and waits for the commit lock. */
  lemma Reconcilable(s: State, session: string, t: Task, later: State)
    requires Valid(s) && session in s.tasks && s.tasks[session] == t && t.Reconciling? && t.stage == ReadManaged && s.commitHolder != Some(session)
    requires TaskOk(s, session, t) && PendingOk(s, t.id) && later == ResumeReconcile(s, session, t, Verdict(false))
    ensures Valid(later)
  {
    hide Valid, PendingsOk, TasksOk, CallsOk, CompletionsOk, CompletedOk, Called;
    CalledSame(s, later, t.id);
    assert PendingOk(later, t.id) && TaskOk(later, session, later.tasks[session]);
    hide TaskOk, PendingOk;
    ProposalRewritten(s, later, session, later.pendingById[t.id]);
  }

  /** A read that agrees moves the operation to the next one. */
  lemma ReadingMoves(s: State, session: string, t: Task, later: State)
    requires Valid(s) && session in s.tasks && s.tasks[session] == t && t.Reconciling? && TaskOk(s, session, t) && s.commitHolder != Some(session)
    requires later.tasks.Keys == s.tasks.Keys && later == Waiting(s, session, later.tasks[session]) && TaskOk(later, session, later.tasks[session])
    ensures Valid(later)
  {
    hide Valid, PendingsOk, TasksOk, CallsOk, CompletionsOk, CompletedOk, Called;
    SoleProposalRests(s, session, t.id);
    hide TaskOk, Called;
    TaskMoves(s, later, session);
  }

  lemma CommitGranted(s: State, session: string)
    requires Valid(s)
    ensures Valid(EnterCommit(s, session))
  {
    hide Valid, PendingsOk, TasksOk, CallsOk, CompletionsOk, CompletedOk, Called;
    if session in s.tasks && s.tasks[session].AwaitingCommit? && s.commitHolder == None {
      var id := s.tasks[session].id;
      Facts(s, session);
      PendingFacts(s, id);
      forall other | other in s.pendingById && SessionOf(s.pendingById[other]) == session ensures other == id {
        OnlyProposal(s, session, id, other);
      }
      TaskMoves(s, EnterCommit(s, session), session);
    }
  }

  // ---- commit. ----

  /** The facts a commit in progress rests on. */
  lemma CommitFacts(s: State, session: string)
    requires Valid(s) && session in s.tasks && (s.tasks[session].Committing? || s.tasks[session].Running?)
    ensures var t := s.tasks[session]; t.id in s.pendingById && PendingOk(s, t.id) && TaskOk(s, session, t)
    ensures s.commitHolder == Some(session) && SessionOf(s.pendingById[s.tasks[session].id]) == session
    ensures forall x :: x in s.pendingById && SessionOf(s.pendingById[x]) == session ==> x == s.tasks[session].id
  {
    hide CallsOk, CompletionsOk, CompletedOk, Called;
    assert TaskOk(s, session, s.tasks[session]);
    forall x | x in s.pendingById && SessionOf(s.pendingById[x]) == session ensures x == s.tasks[session].id {
      OnlyProposal(s, session, s.tasks[session].id, x);
    }
  }

  lemma CommitReadAgreed(p: Proposal, a: Acknowledgement, observed: Option<Observed>, stage: Stage, reply: Reply)
    requires stage != ReadManaged && ReadSoFar(p, a, observed, stage) && ReadStep(p, a, true, observed, stage, reply).Some?
    ensures var next := ReadStep(p, a, true, observed, stage, reply).value;
      ReadSoFar(p, a, next.0, next.1)
  {
  }

  /** What the last step of a commit's reads checks before the runner is called. */
  predicate MayCall(p: Pending, t: Task, reply: Reply, now: nat)
    requires t.Committing?
  {
    reply == Verdict(false) && t.observed.Some? && now < p.proposal.expires && p.deadline.Some? && p.remaining.Some? && now < p.deadline.value
  }

  lemma CommitResumes(s: State, session: string, reply: Reply, now: nat)
    requires Valid(s) && session in s.tasks && s.tasks[session].Committing? && s.tasks[session].id in s.pendingById
    ensures Valid(ResumeCommit(s, session, s.tasks[session], reply, now))
  {
    hide Valid, PendingsOk, TasksOk, CallsOk, CompletionsOk, CompletedOk, Called, ReadStep, Failed;
    CommitFacts(s, session);
    var t := s.tasks[session];
    var p := s.pendingById[t.id];
    assert p.acknowledgement.Some? && p.authorization.Some?;
    hide PendingOk, TaskOk;
    if t.stage == ReadManaged && MayCall(p, t, reply, now) {
      RunnerIsCalled(s, session, now);
    } else if t.stage != ReadManaged && ReadStep(p.proposal, p.acknowledgement.value, true, t.observed, t.stage, reply).Some? {
      CommitReads(s, session, reply, now);
    } else {
      FailedValid(s, session, t.id);
      assert ResumeCommit(s, session, t, reply, now) == Failed(s, session, t.id);
    }
  }

  lemma CommitReads(s: State, session: string, reply: Reply, now: nat)
    requires Valid(s) && session in s.tasks && s.tasks[session].Committing? && s.tasks[session].id in s.pendingById
    requires var t, p := s.tasks[session], s.pendingById[s.tasks[session].id];
      t.stage != ReadManaged && p.acknowledgement.Some? && p.authorization.Some?
      && ReadStep(p.proposal, p.acknowledgement.value, true, t.observed, t.stage, reply).Some?
    ensures Valid(ResumeCommit(s, session, s.tasks[session], reply, now))
  {
    hide Valid, PendingsOk, TasksOk, CallsOk, CompletionsOk, CompletedOk, Called;
    CommitFacts(s, session);
    var t := s.tasks[session];
    var p := s.pendingById[t.id];
    NotCalledYet(s, session, t.id);
    var next := ReadStep(p.proposal, p.acknowledgement.value, true, t.observed, t.stage, reply).value;
    CommitReadAgreed(p.proposal, p.acknowledgement.value, t.observed, t.stage, reply);
    assert ResumeCommit(s, session, t, reply, now) == Waiting(s, session, Committing(t.id, next.0, next.1));
    hide ReadStep, ReadSoFar, PendingOk, ResumeCommit;
    var later := Waiting(s, session, Committing(t.id, next.0, next.1));
    assert TaskOk(later, session, later.tasks[session]);
    hide TaskOk;
    TaskMoves(s, later, session);
  }

  lemma NotCalledYet(s: State, session: string, id: string)
    requires id in s.pendingById && PendingOk(s, id) && SessionOf(s.pendingById[id]) == session && session in s.tasks && !s.tasks[session].Running?
    ensures !Called(s, id)
  {
  }

  function CallFor(p: Pending, observed: Observed, now: nat): RunnerCall
    requires p.authorization.Some? && p.acknowledgement.Some? && p.remaining.Some? && p.deadline.Some?
  {
    RunnerCall(p.proposal, p.transport, p.authorization.value, p.acknowledgement.value, observed, p.remaining.value, p.deadline.value, now)
  }

  /** The runner is called on a proposal it has never been called on, with everything agreed and in time. */
  lemma RunnerIsCalled(s: State, session: string, now: nat)
    requires Valid(s) && session in s.tasks && s.tasks[session].Committing? && s.tasks[session].stage == ReadManaged
    requires s.tasks[session].id in s.pendingById
    requires MayCall(s.pendingById[s.tasks[session].id], s.tasks[session], Verdict(false), now)
    ensures Valid(ResumeCommit(s, session, s.tasks[session], Verdict(false), now))
  {
    hide Valid, PendingsOk, TasksOk, CallsOk, CompletionsOk, CompletedOk, Called;
    CommitFacts(s, session);
    var t := s.tasks[session];
    var p := s.pendingById[t.id];
    var later := ResumeCommit(s, session, t, Verdict(false), now);
    NotCalledYet(s, session, t.id);
    var c := CallFor(p, t.observed.value, now);
    assert later == s.(calls := s.calls + [c], tasks := s.tasks[session := Running(t.id)]);
    assert CallOk(c);
    OneMoreCall(s, later, c);
    assert TaskOk(later, session, later.tasks[session]) && PendingOk(later, t.id);
    hide PendingOk, TaskOk;
    OnlyCalled(s, later, session, t.id);
    hide Only;
    Assemble(s, later, session);
  }

  lemma OneMoreCall(s: State, later: State, c: RunnerCall)
    requires Valid(s) && CallOk(c) && c.proposal.id in s.issued && !Called(s, c.proposal.id)
    requires later.calls == s.calls + [c] && later.issued == s.issued
    requires later.completed == s.completed && later.completedOrder == s.completedOrder
    requires later.presentations == s.presentations && later.deliveries == s.deliveries
    ensures CallsOk(later) && CompletionsOk(later)
    ensures forall x :: Called(later, x) <==> Called(s, x) || x == c.proposal.id
  {
    forall x ensures Called(later, x) <==> Called(s, x) || x == c.proposal.id {
      if Called(s, x) {
        var i :| 0 <= i < |s.calls| && s.calls[i].proposal.id == x;
        assert later.calls[i].proposal.id == x;
      }
      assert later.calls[|s.calls|] == c;
      if Called(later, x) {
        var i :| 0 <= i < |later.calls| && later.calls[i].proposal.id == x;
        assert i < |s.calls| ==> s.calls[i].proposal.id == x;
      }
    }
    forall i | 0 <= i < |s.calls| ensures s.calls[i].proposal.id != c.proposal.id {
      assert Called(s, s.calls[i].proposal.id);
    }
    forall x | x in later.completed ensures CompletedOk(later, x) {
      assert CompletedOk(s, x);
    }
  }

  lemma OnlyCalled(s: State, later: State, session: string, id: string)
    requires id in s.pendingById && SessionOf(s.pendingById[id]) == session
    requires later == s.(calls := later.calls, tasks := s.tasks[session := Running(id)])
    requires forall x :: Called(later, x) <==> Called(s, x) || x == id
    ensures Only(s, later, session)
  {
    hide Called;
  }

  lemma RunResumes(s: State, session: string, reply: Reply)
    requires Valid(s) && session in s.tasks && s.tasks[session].Running? && s.tasks[session].id in s.pendingById
    ensures Valid(ResumeRun(s, session, s.tasks[session], reply))
  {
    hide Valid, PendingsOk, TasksOk, CallsOk, CompletionsOk, CompletedOk, Called;
    CommitFacts(s, session);
    var t := s.tasks[session];
    var p := s.pendingById[t.id];
    var later := ResumeRun(s, session, t, reply);
    Facts(s, session);
    hide Distinct;
    if !reply.Ran? {
      FailedValid(s, session, t.id);
    } else if !ResultMatches(reply.result, p.proposal) || p.acknowledgement == None {
      RemovedIs(s, session, t.id);
      RunFailed(s, session, t.id, later);
    } else {
      RemovedIs(s, session, t.id);
      RunCompleted(s, session, t.id, later, Completed(p.proposal, p.transport, p.acknowledgement.value, reply.result, false, false));
    }
  }

  lemma RunFailed(s: State, session: string, id: string, later: State)
    requires Valid(s) && id in s.pendingById && SessionOf(s.pendingById[id]) == session && s.commitHolder == Some(session) && PendingOk(s, id)
    requires var role := RoleOf(s.pendingById[id].proposal);
      later == Failed(s.(commits := s.commits + [role]), session, id)
    ensures Valid(later)
  {
    hide Valid, Distinct;
    ProposalDropped(s, later, session, id);
  }

  /** The runner's result becomes a completion, and its presentation starts. */
  lemma RunCompleted(s: State, session: string, id: string, later: State, done: Completed)
    requires Valid(s) && session in s.tasks && s.tasks[session] == Running(id) && id in s.pendingById && PendingOk(s, id)
    requires SessionOf(s.pendingById[id]) == session && s.commitHolder == Some(session)
    requires done.proposal == s.pendingById[id].proposal && ResultMatches(done.result, done.proposal) && !done.presented && !done.delivered
    requires var role := RoleOf(s.pendingById[id].proposal);
      later == RememberCompleted(s.(commits := s.commits + [role], pendingById := s.pendingById - {id},
                                       pendingBySession := s.pendingBySession - {session}, tasks := s.tasks[session := Presenting(id)]), id, done)
    ensures Valid(later)
  {
    hide Distinct, CallsOk, CompletionsOk, CompletedOk, Called;
    assert TaskOk(s, session, s.tasks[session]) && id !in s.completed && id in s.issued;
    forall x | x in later.pendingById ensures SessionOf(later.pendingById[x]) != session {
      if SessionOf(s.pendingById[x]) == session {
        OnlyProposal(s, session, id, x);
      }
    }
    hide Valid, PendingsOk, TasksOk, PendingOk;
    assert TaskOk(later, session, later.tasks[session]) && Called(s, id);
    hide TaskOk;
    OneMoreCompletion(s, later, id, done);
    OnlyCompleted(s, later, session, id);
    hide Only;
    Assemble(s, later, session);
  }

  lemma OnlyCompleted(s: State, later: State, session: string, id: string)
    requires id in s.pendingById && SessionOf(s.pendingById[id]) == session && s.commitHolder == Some(session) && id !in s.completed
    requires later.pendingById == s.pendingById - {id} && later.pendingBySession == s.pendingBySession - {session}
    requires later.tasks == s.tasks[session := Presenting(id)] && later.commitHolder == s.commitHolder && later.issued == s.issued
    requires id in later.completed && later.completed == s.completed[id := later.completed[id]]
    requires forall x :: Called(later, x) == Called(s, x)
    ensures Only(s, later, session)
  {
    hide Called;
  }

  lemma OneMoreCompletion(s: State, later: State, id: string, done: Completed)
    requires Valid(s) && id in s.issued && id !in s.completed && Called(s, id)
    requires done.proposal.id == id && ResultMatches(done.result, done.proposal) && !done.presented && !done.delivered
    requires later.completed == s.completed[id := done] && later.calls == s.calls && later.issued == s.issued
    requires later.completedOrder == (if |s.completedOrder| >= IDEMPOTENCY_LIMIT then s.completedOrder[1..] else s.completedOrder) + [id]
    requires later.presentations == s.presentations && later.deliveries == s.deliveries
    ensures CallsOk(later) && CompletionsOk(later)
    ensures forall x :: Called(later, x) == Called(s, x)
  {
    hide Valid, Distinct, ResultMatches;
    forall x ensures Called(later, x) == Called(s, x) { CalledSame(s, later, x); }
    CallsStay(s, later);
    CompletionFacts(s);
    hide Called, CallsOk;
    OrderKeepsDistinct(s.completedOrder, id);
    assert id !in s.completedOrder && id !in s.presentations && id !in s.deliveries;
    OthersCompleted(s, later, id);
  }

  /** What is recorded of one completion leaves the others alone. */
  lemma OthersCompleted(s: State, later: State, id: string)
    requires CompletionsOk(s) && id in later.completed && later.completed == s.completed[id := later.completed[id]]
    requires s.issued <= later.issued && forall x :: Called(s, x) ==> Called(later, x)
    requires forall x :: x != id ==> (x in later.presentations <==> x in s.presentations) && (x in later.deliveries <==> x in s.deliveries)
    ensures forall x :: x in later.completed && x != id ==> CompletedOk(later, x)
  {
    hide Distinct, Called;
    forall x | x in later.completed && x != id ensures CompletedOk(later, x) {
      assert CompletedOk(s, x);
    }
  }

  lemma CallsStay(s: State, later: State)
    requires Valid(s) && later.calls == s.calls && later.issued == s.issued
    ensures CallsOk(later)
  {
  }

  lemma CompletionFacts(s: State)
    requires Valid(s)
    ensures CompletionsOk(s)
  {
  }

  lemma OrderKeepsDistinct(order: seq<string>, id: string)
    requires Distinct(order) && id !in order && |order| <= IDEMPOTENCY_LIMIT
    ensures var later := (if |order| >= IDEMPOTENCY_LIMIT then order[1..] else order) + [id];
      Distinct(later) && |later| <= IDEMPOTENCY_LIMIT && forall x :: x in later ==> x in order || x == id
  {
  }

  // ---- deliverCompleted. ----

  lemma DeliverResumes(s: State, session: string, reply: Reply)
    requires Valid(s) && session in s.tasks && (s.tasks[session].Presenting? || s.tasks[session].Delivering?)
    requires s.tasks[session].id in s.completed
    ensures Valid(ResumeDeliver(s, session, s.tasks[session], reply))
  {
    hide Valid, PendingsOk, TasksOk, CallsOk, CompletionsOk, CompletedOk, Called;
    var t := s.tasks[session];
    Facts(s, session);
    if reply == Threw {
      DeliveryEnds(s, session);
    } else {
      DeliveryGoesThrough(s, session, reply);
    }
  }

  lemma BeforeDelivery(s: State, session: string)
    requires Valid(s) && session in s.tasks && (s.tasks[session].Presenting? || s.tasks[session].Delivering?)
    ensures forall id :: id in s.pendingById && SessionOf(s.pendingById[id]) == session ==> s.pendingById[id].phase != Reconciled && !Called(s, id)
  {
    hide CallsOk, CompletionsOk, Called;
    forall id | id in s.pendingById && SessionOf(s.pendingById[id]) == session ensures s.pendingById[id].phase != Reconciled && !Called(s, id) {
      assert PendingOk(s, id);
    }
  }

  lemma DeliveryEnds(s: State, session: string)
    requires Valid(s) && session in s.tasks && (s.tasks[session].Presenting? || s.tasks[session].Delivering?)
    ensures Valid(Released(s, session))
  {
    hide Valid, PendingsOk, TasksOk, CallsOk, CompletionsOk, CompletedOk, Called;
    BeforeDelivery(s, session);
    Facts(s, session);
    hide TaskOk, PendingOk;
    TaskMoves(s, Released(s, session), session);
  }

  lemma DeliveryGoesThrough(s: State, session: string, reply: Reply)
    requires Valid(s) && session in s.tasks && (s.tasks[session].Presenting? || s.tasks[session].Delivering?)
    requires s.tasks[session].id in s.completed && reply != Threw && TaskOk(s, session, s.tasks[session])
    ensures Valid(ResumeDeliver(s, session, s.tasks[session], reply))
  {
    hide Valid, PendingsOk, TasksOk, CallsOk, CompletionsOk, CompletedOk, Called;
    var t := s.tasks[session];
    var later := ResumeDeliver(s, session, t, reply);
    BeforeDelivery(s, session);
    Facts(s, session);
    DeliveryRecorded(s, later, t.id, t.Presenting?);
    PendingKept(s, later, session);
    assert session in later.tasks ==> TaskOk(later, session, later.tasks[session]);
    hide TaskOk, PendingOk;
    OnlyDelivered(s, later, session, t.id);
    hide Only;
    Assemble(s, later, session);
  }

  /** A proposal of the session that has not been reconciled does not notice. */
  lemma PendingKept(s: State, later: State, session: string)
    requires Valid(s) && later.pendingById == s.pendingById && later.pendingBySession == s.pendingBySession && later.issued == s.issued
    requires later.completed.Keys == s.completed.Keys && forall x :: Called(later, x) == Called(s, x)
    requires forall id :: id in s.pendingById && SessionOf(s.pendingById[id]) == session ==> s.pendingById[id].phase != Reconciled && !Called(s, id)
    ensures forall id :: id in later.pendingById && SessionOf(later.pendingById[id]) == session ==> PendingOk(later, id)
    ensures session in later.pendingBySession ==>
      later.pendingBySession[session] in later.pendingById && SessionOf(later.pendingById[later.pendingBySession[session]]) == session
  {
    hide CallsOk, CompletionsOk, TasksOk, Called;
    forall id | id in later.pendingById && SessionOf(later.pendingById[id]) == session ensures PendingOk(later, id) {
      assert PendingOk(s, id);
    }
  }

  lemma OnlyDelivered(s: State, later: State, session: string, id: string)
    requires id in s.completed && s.completed[id].proposal.identity.session == session
    requires later.pendingById == s.pendingById && later.pendingBySession == s.pendingBySession && later.issued == s.issued
    requires forall x :: x != session ==> (x in later.tasks <==> x in s.tasks) && (x in s.tasks ==> later.tasks[x] == s.tasks[x])
    requires later.commitHolder == s.commitHolder || (s.commitHolder == Some(session) && later.commitHolder == None)
    requires id in later.completed && later.completed == s.completed[id := later.completed[id]]
    requires forall x :: Called(later, x) == Called(s, x)
    ensures Only(s, later, session)
  {
    hide Called;
  }

  /** A presentation or delivery that went through is recorded once. */
  lemma DeliveryRecorded(s: State, later: State, id: string, presenting: bool)
    requires Valid(s) && id in s.completed
    requires if presenting then !s.completed[id].presented else s.completed[id].presented && !s.completed[id].delivered
    requires later.completed == s.completed[id := if presenting then s.completed[id].(presented := true) else s.completed[id].(delivered := true)]
    requires later.presentations == s.presentations + (if presenting then [id] else [])
    requires later.deliveries == s.deliveries + (if presenting then [] else [id])
    requires later.calls == s.calls && later.issued == s.issued && later.completedOrder == s.completedOrder
    ensures CallsOk(later) && CompletionsOk(later)
    ensures forall x :: Called(later, x) == Called(s, x)
  {
    hide Valid, ResultMatches, Called;
    forall x ensures Called(later, x) == Called(s, x) { CalledSame(s, later, x); }
    CompletionFacts(s);
    assert CompletedOk(s, id);
    CallsStay(s, later);
    hide CallsOk;
    RecordedOnce(s.presentations, s.deliveries, id, presenting);
    hide Distinct;
    OthersCompleted(s, later, id);
  }

  lemma RecordedOnce(presentations: seq<string>, deliveries: seq<string>, id: string, presenting: bool)
    requires Distinct(presentations) && Distinct(deliveries) && if presenting then id !in presentations else id !in deliveries
    ensures Distinct(presentations + (if presenting then [id] else [])) && Distinct(deliveries + (if presenting then [] else [id]))
    ensures forall x :: x in presentations + (if presenting then [id] else []) <==> x in presentations || (presenting && x == id)
    ensures forall x :: x in deliveries + (if presenting then [] else [id]) <==> x in deliveries || (!presenting && x == id)
  {
    AppendDistinct(presentations, id);
    AppendDistinct(deliveries, id);
    AddNothing(presentations);
    AddNothing(deliveries);
  }

  lemma AddNothing(q: seq<string>)
    ensures q + [] == q
  {
  }

  lemma AppendDistinct(q: seq<string>, id: string)
    requires Distinct(q)
    ensures id !in q ==> Distinct(q + [id])
    ensures forall x :: x in q + [id] <==> x in q || x == id
  {
  }

  // ---- Every interleaving. ----

  lemma ResumeValid(s: State, session: string, reply: Reply, now: nat, id: string, nonce: string)
    requires Valid(s)
    ensures Valid(ResumeTask(s, session, reply, now, id, nonce))
  {
    hide Valid, ResumeCreate, ResumeVerify, ResumeRequest, ResumeReconcile, ResumeCommit, ResumeRun, ResumeDeliver;
    if session in s.tasks && Resumable(s, s.tasks[session]) {
      match s.tasks[session]
      case Creating(_, _, _) => CreateResumes(s, session, reply, now, id, nonce);
      case Verifying(_, _) => VerifyResumes(s, session, reply, now);
      case Requesting(_, _) => RequestResumes(s, session, reply);
      case Reconciling(_, _, _, _) => ReconcileResumes(s, session, reply);
      case Committing(_, _, _) => CommitResumes(s, session, reply, now);
      case Running(_) => RunResumes(s, session, reply);
      case Presenting(_) => DeliverResumes(s, session, reply);
      case Delivering(_) => DeliverResumes(s, session, reply);
      case AwaitingCommit(_) =>
    }
  }

  lemma RestartValid(s: State)
    requires Valid(s)
    ensures Valid(Reconstructed(s))
  {
    var later := Reconstructed(s);
    hide CallOk, ResultMatches;
    forall x | x in later.completed ensures CompletedOk(later, x) {
      assert CompletedOk(s, x);
      CalledSame(s, later, x);
    }
  }

  lemma StepValid(s: State, a: Action)
    requires Valid(s)
    ensures Valid(Step(s, a))
  {
    hide Valid;
    match a
    case Create(request) => CreateStarts(s, request);
    case Authorize(id, authorization, now) => AuthorizeStarts(s, id, authorization, now);
    case Acknowledge(transport, acknowledgement, now) => AcknowledgeStarts(s, transport, acknowledgement, now);
    case GrantCommit(session) => CommitGranted(s, session);
    case Resume(session, reply, now, id, nonce) => ResumeValid(s, session, reply, now, id, nonce);
    case Restart => RestartValid(s);
  }

  /** A run: any actions in any order, with any replies. */
  ghost predicate Run(states: seq<State>, actions: seq<Action>) {
    && |states| == |actions| + 1
    && states[0] == State(map[], map[], map[], [], [], {}, {}, map[], None, [], [], [], [])
    && forall i {:trigger actions[i]} :: 0 <= i < |actions| ==> states[i + 1] == Step(states[i], actions[i])
  }

  lemma {:induction false} RunValid(states: seq<State>, actions: seq<Action>, i: nat)
    requires Run(states, actions) && i < |states|
    ensures Valid(states[i])
  {
    if i > 0 {
      RunValid(states, actions, i - 1);
      StepValid(states[i - 1], actions[i - 1]);
    }
  }

  /** In every run the Team Runner is called at most once per proposal. */
  lemma RunnerOncePerProposal(states: seq<State>, actions: seq<Action>, k: nat)
    requires Run(states, actions) && k < |states|
    ensures forall i, j :: 0 <= i < j < |states[k].calls| ==> states[k].calls[i].proposal.id != states[k].calls[j].proposal.id
  {
    RunValid(states, actions, k);
  }

  /**
   * Whenever the Team Runner is called, the proposal was authorized and acknowledged with every bound field equal, the reads made
   * inside the commit lock agreed with it, and the time is before its expiry and before the end of the advertised window,
   * counted from the moment of authorization.
   */
  lemma RunnerOnlyWhenAgreed(states: seq<State>, actions: seq<Action>, k: nat, i: nat)
    requires Run(states, actions) && k < |states| && i < |states[k].calls|
    ensures var c := states[k].calls[i]; var authorizedAt := c.deadline - ACK_TIMEOUT_MS;
      && AuthorizationMatches(c.proposal, c.authorization) && AcknowledgementMatches(c.proposal, c.acknowledgement)
      && c.acknowledgement.accepted && ReadsAgree(c.proposal, c.acknowledgement, c.observed)
      && c.time < c.proposal.created + PROPOSAL_TTL_MS
      && c.time < authorizedAt + c.remaining && c.remaining <= ACK_TIMEOUT_MS
  {
    RunValid(states, actions, k);
    assert CallOk(states[k].calls[i]);
  }

  /** Presentation and the committed frame each succeed at most once for a proposal, the frame only after the presentation. */
  lemma DeliveredOnce(states: seq<State>, actions: seq<Action>, k: nat)
    requires Run(states, actions) && k < |states|
    ensures Distinct(states[k].presentations) && Distinct(states[k].deliveries)
    ensures forall id :: id in states[k].deliveries ==> id in states[k].presentations
    ensures forall id :: id in states[k].presentations ==> Called(states[k], id)
  {
    RunValid(states, actions, k);
    forall id | id in states[k].deliveries || id in states[k].presentations
      ensures (id in states[k].deliveries ==> id in states[k].presentations) && Called(states[k], id)
    {
      assert CompletedOk(states[k], id);
    }
  }

  // ---- Retries after a commit. ----

  /** What an exact retry is answered with; None when it is refused or the completion has been evicted. */
  function RetryReply(s: State, transport: Transport, a: Acknowledgement): Option<Result> {
    if a.proposalId in s.completedOrder && a.proposalId in s.completed && RetryMatches(s.completed[a.proposalId], transport, a)
    then Some(s.completed[a.proposalId].result) else None
  }

  /** A completion keeps everything but its delivery marks, and those only get set; logs only grow. */
  ghost predicate Grows(s: State, later: State) {
    && s.calls <= later.calls && s.commits <= later.commits && s.presentations <= later.presentations && s.deliveries <= later.deliveries
    && s.issued <= later.issued
    && forall id :: id in s.completed && id in s.issued && !(id in s.pendingById) ==>
      && id in later.completed
      && later.completed[id] == s.completed[id].(presented := later.completed[id].presented, delivered := later.completed[id].delivered)
      && (s.completed[id].presented ==> later.completed[id].presented) && (s.completed[id].delivered ==> later.completed[id].delivered)
  }

  /** No log and no completion is touched. */
  ghost predicate Quiet(s: State, later: State) {
    && later.calls == s.calls && later.commits == s.commits && later.presentations == s.presentations && later.deliveries == s.deliveries
    && later.completed == s.completed && s.issued <= later.issued
  }

  lemma QuietGrows(s: State, later: State)
    requires Quiet(s, later)
    ensures Grows(s, later)
  {
  }

  lemma ResumeGrows(s: State, session: string, reply: Reply, now: nat, id: string, nonce: string)
    requires session in s.tasks && Resumable(s, s.tasks[session])
    ensures Grows(s, ResumeTask(s, session, reply, now, id, nonce))
  {
    hide Grows, ResumeCreate, ResumeVerify, ResumeRequest, ResumeReconcile, ResumeCommit, ResumeRun, ResumeDeliver;
    match s.tasks[session]
    case Creating(_, _, _) => CreateQuiet(s, session, s.tasks[session], reply, now, id, nonce); QuietGrows(s, ResumeTask(s, session, reply, now, id, nonce));
    case Verifying(_, _) => VerifyQuiet(s, session, s.tasks[session], reply, now); QuietGrows(s, ResumeTask(s, session, reply, now, id, nonce));
    case Requesting(_, _) => RequestQuiet(s, session, s.tasks[session], reply); QuietGrows(s, ResumeTask(s, session, reply, now, id, nonce));
    case Reconciling(_, _, _, _) => ReconcileQuiet(s, session, s.tasks[session], reply); QuietGrows(s, ResumeTask(s, session, reply, now, id, nonce));
    case Committing(_, _, _) => CommitGrows(s, session, s.tasks[session], reply, now);
    case Running(_) => RunGrows(s, session, s.tasks[session], reply);
    case Presenting(_) => DeliverGrows(s, session, s.tasks[session], reply);
    case Delivering(_) => DeliverGrows(s, session, s.tasks[session], reply);
    case AwaitingCommit(_) => QuietGrows(s, s);
  }

  lemma CreateQuiet(s: State, session: string, t: Task, reply: Reply, now: nat, id: string, nonce: string)
    requires t.Creating?
    ensures Quiet(s, ResumeCreate(s, session, t, reply, now, id, nonce))
  {
    hide Eligible, RecordConnection, CheckPending;
    CheckQuiet(s, session, now);
    match t.stage
    case ReadSession =>
    case ReadConnection =>
    case ReadLocal =>
    case ReadOccupied =>
    case _ =>
  }

  lemma CheckQuiet(s: State, session: string, now: nat)
    ensures CheckPending(s, session, now).Some? ==> Quiet(s, CheckPending(s, session, now).value)
  {
  }

  lemma VerifyQuiet(s: State, session: string, t: Task, reply: Reply, now: nat)
    requires t.Verifying? && t.id in s.pendingById
    ensures Quiet(s, ResumeVerify(s, session, t, reply, now))
  {
  }

  lemma RequestQuiet(s: State, session: string, t: Task, reply: Reply)
    requires t.Requesting? && t.id in s.pendingById
    ensures Quiet(s, ResumeRequest(s, session, t, reply))
  {
  }

  lemma ReconcileQuiet(s: State, session: string, t: Task, reply: Reply)
    requires t.Reconciling? && t.id in s.pendingById
    ensures Quiet(s, ResumeReconcile(s, session, t, reply))
  {
    hide ReadStep;
  }

  lemma CommitGrows(s: State, session: string, t: Task, reply: Reply, now: nat)
    requires t.Committing? && t.id in s.pendingById
    ensures Grows(s, ResumeCommit(s, session, t, reply, now))
  {
    hide ReadStep;
  }

  lemma RunGrows(s: State, session: string, t: Task, reply: Reply)
    requires t.Running? && t.id in s.pendingById
    ensures Grows(s, ResumeRun(s, session, t, reply))
  {
    hide ResultMatches;
  }

  lemma DeliverGrows(s: State, session: string, t: Task, reply: Reply)
    requires (t.Presenting? || t.Delivering?) && t.id in s.completed
    ensures Grows(s, ResumeDeliver(s, session, t, reply))
  {
  }

  lemma StepGrows(s: State, a: Action)
    ensures Grows(s, Step(s, a))
  {
    hide Grows, ResumeTask, RetryMatches, AcknowledgementMatches, AuthorizationMatches;
    if a.Resume? && a.session in s.tasks && Resumable(s, s.tasks[a.session]) {
      ResumeGrows(s, a.session, a.reply, a.now, a.id, a.nonce);
    } else {
      if a.Resume? {
        NotResumable(s, a.session, a.reply, a.now, a.id, a.nonce);
      }
      QuietGrows(s, Step(s, a));
    }
  }

  lemma NotResumable(s: State, session: string, reply: Reply, now: nat, id: string, nonce: string)
    requires session !in s.tasks || !Resumable(s, s.tasks[session])
    ensures ResumeTask(s, session, reply, now, id, nonce) == s
  {
  }

  /** Once committed, a proposal keeps its result and never reaches the runner again, whatever is retried. */
  lemma {:induction false} CommittedForever(states: seq<State>, actions: seq<Action>, i: nat, j: nat, id: string)
    requires Run(states, actions) && i <= j < |states| && id in states[i].completed
    ensures id in states[j].completed && states[j].completed[id].result == states[i].completed[id].result
    ensures states[j].completed[id].proposal == states[i].completed[id].proposal
    ensures states[j].completed[id].acknowledgement == states[i].completed[id].acknowledgement
    ensures states[j].completed[id].transport == states[i].completed[id].transport
    ensures states[i].calls <= states[j].calls
    decreases j
  {
    if i < j {
      CommittedForever(states, actions, i, j - 1, id);
      RunValid(states, actions, j - 1);
      ClosedForGood(states[j - 1], id);
      StepGrows(states[j - 1], actions[j - 1]);
      hide Step;
    }
  }

  lemma NeverCalledAgain(states: seq<State>, actions: seq<Action>, i: nat, j: nat, id: string, k: nat)
    requires Run(states, actions) && i <= j < |states| && id in states[i].completed && |states[i].calls| <= k < |states[j].calls|
    ensures states[j].calls[k].proposal.id != id
  {
    CommittedForever(states, actions, i, j, id);
    RunValid(states, actions, i);
    RunValid(states, actions, j);
    assert CompletedOk(states[i], id);
    var m :| 0 <= m < |states[i].calls| && states[i].calls[m].proposal.id == id;
    assert states[j].calls[m] == states[i].calls[m];
  }

  /** Exact retries are all answered alike, as long as the completion is remembered. */
  lemma RetriesAnsweredAlike(states: seq<State>, actions: seq<Action>, i: nat, j: nat, transport: Transport, a: Acknowledgement)
    requires Run(states, actions) && i <= j < |states|
    requires RetryReply(states[i], transport, a).Some? && a.proposalId in states[j].completedOrder
    ensures RetryReply(states[j], transport, a) == RetryReply(states[i], transport, a)
  {
    CommittedForever(states, actions, i, j, a.proposalId);
  }

  /** How an operation on a completed proposal ends for its caller. */
  datatype Answer = Returned(result: Result) | DeliveryFailed

  /** The answer that action `a` gives on proposal `id`, if it ends such an operation. */
  function AnswerGiven(s: State, a: Action, id: string): Option<Answer> {
    match a
    case Acknowledge(transport, ack, _) =>
      if ack.proposalId == id && id in s.completedOrder && id in s.completed && s.completed[id].proposal.identity.session !in s.tasks
         && RetryMatches(s.completed[id], transport, ack) && s.completed[id].presented && s.completed[id].delivered
      then Some(Returned(s.completed[id].result)) else None
    case Resume(x, reply, _, _, _) =>
      if id !in s.completed || x !in s.tasks || (s.tasks[x] != Presenting(id) && s.tasks[x] != Delivering(id)) then None
      else if reply == Threw then Some(DeliveryFailed)
      else if s.tasks[x].Delivering? || s.completed[id].delivered then Some(Returned(s.completed[id].result)) else None
    case _ => None
  }

  /** An answer ends the operation; an operation that delivers a completion and is not answered yet goes on with the next delivery. */
  lemma AnswerEnds(s: State, a: Action, id: string)
    requires id in s.completed && (a.Acknowledge? || a.Resume?)
    ensures AnswerGiven(s, a, id).Some? && a.Resume? ==> a.session !in Step(s, a).tasks
    ensures (a.Resume? && a.session in s.tasks && (s.tasks[a.session] == Presenting(id) || s.tasks[a.session] == Delivering(id))
             && AnswerGiven(s, a, id) == None) ==> a.session in Step(s, a).tasks && Step(s, a).tasks[a.session] == Delivering(id)
  {
    hide RetryMatches, ResumeCreate, ResumeVerify, ResumeRequest, ResumeReconcile, ResumeCommit, ResumeRun, StartAcknowledge;
  }

  /** An exact retry that finds its session idle is answered at once with the recorded result, or takes up the delivery that is still owed. */
  lemma RetryServed(s: State, transport: Transport, a: Acknowledgement, now: nat)
    requires RetryReply(s, transport, a).Some? && s.completed[a.proposalId].proposal.identity.session !in s.tasks
    ensures var id := a.proposalId; var x := s.completed[id].proposal.identity.session; var later := Step(s, Acknowledge(transport, a, now));
      && later.calls == s.calls && later.completed == s.completed
      && (AnswerGiven(s, Acknowledge(transport, a, now), id) == Some(Returned(RetryReply(s, transport, a).value))
          || (x in later.tasks && (later.tasks[x] == Presenting(id) || later.tasks[x] == Delivering(id))))
  {
  }

  /** Whatever is answered with a result on one proposal, by the first acknowledgement or by any retry, is answered with the same result. */
  lemma AnswersAlike(states: seq<State>, actions: seq<Action>, i: nat, j: nat, id: string)
    requires Run(states, actions) && i <= j < |actions|
    requires AnswerGiven(states[i], actions[i], id).Some? && AnswerGiven(states[j], actions[j], id).Some?
    requires AnswerGiven(states[i], actions[i], id).value.Returned? && AnswerGiven(states[j], actions[j], id).value.Returned?
    ensures AnswerGiven(states[i], actions[i], id) == AnswerGiven(states[j], actions[j], id)
  {
    CommittedForever(states, actions, i, j, id);
  }

  lemma ClosedForGood(s: State, id: string)
    requires Valid(s) && id in s.completed
    ensures id !in s.pendingById && id in s.issued
  {
    hide CallsOk, TasksOk, Called;
    forall x | x in s.pendingById ensures x !in s.completed {
      assert PendingOk(s, x);
    }
    assert CompletedOk(s, id);
  }

  /** A committed proposal cannot be authorized again, and after eviction an acknowledgement of it changes nothing. */
  lemma EvictionNeverReopens(states: seq<State>, actions: seq<Action>, k: nat, id: string, authorization: Authorization, now: nat,
                             transport: Transport, a: Acknowledgement)
    requires Run(states, actions) && k < |states| && id in states[k].completed && a.proposalId == id
    ensures StartAuthorize(states[k], id, authorization, now) == states[k]
    ensures id !in states[k].completedOrder ==> StartAcknowledge(states[k], transport, a, now) == states[k]
    ensures |states[k].completedOrder| <= IDEMPOTENCY_LIMIT
  {
    RunValid(states, actions, k);
    ClosedForGood(states[k], id);
  }
}

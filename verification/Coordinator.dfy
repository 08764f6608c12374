/**
 * The Adoption coordinator of observer/adoption.ts. An operation is cut at its awaits: each transition below is
 * the synchronous code between two of them, so a run is any interleaving of transitions.
 */
module Coordinator {
  import opened Contracts

  const PROPOSAL_TTL_MS: nat := 30000
  const ACK_TIMEOUT_MS: nat := 5000
  const IDEMPOTENCY_LIMIT: nat := 256
  const MAX_SAFE_INTEGER: nat := 0x1F_FFFF_FFFF_FFFF

  /** A transport object, compared by identity. */
  type Transport = nat

  datatype Identity = Identity(session: string, node: string, process: string, piSession: string, extension: string)

  datatype Target = Target(goal: string, node: string, role: string)

  datatype Activity = Idle | Busy | WaitingForUser | UnknownActivity

  /** What the registry reports; fields it may omit are options. */
  datatype Observed = Observed(
    identity: Identity, connectionId: Option<string>, challenge: Option<string>,
    exited: bool, available: bool, activity: Activity, healthy: bool, unassigned: bool,
    revision: nat, acceptedSequence: Option<nat>)

  /** A proposal. Its digest stands for all of it, so comparing digests is comparing proposals. */
  datatype Proposal = Proposal(
    id: string, identity: Identity, connectionId: string, challenge: string, revision: nat,
    target: Target, created: nat, expires: nat, nonce: string)

  datatype Request = Request(identity: Identity, connectionId: string, challenge: string, transport: Transport, target: Target)

  datatype Authorization = Authorization(proposalId: string, digest: Proposal, goal: string, role: string, authorizationId: string, token: string)

  datatype Acknowledgement = Acknowledgement(
    process: string, piSession: string, extension: string, connectionId: string, challenge: string,
    proposalId: string, digest: Proposal, nonce: string, revision: nat, sequence: nat,
    accepted: bool, activity: Activity, refusal: Option<string>)

  /** No await separates the acknowledged phase from the reconciled one, so it is not a phase of its own here. */
  datatype Phase = Proposed | Authorized | Reconciled

  /** `remaining` is the acknowledgementRemainingMs the request advertised, `deadline` the acknowledgement deadline. */
  datatype Pending = Pending(
    proposal: Proposal, transport: Transport, phase: Phase,
    authorization: Option<Authorization>, remaining: Option<nat>, deadline: Option<nat>,
    acknowledgement: Option<Acknowledgement>)

  datatype Result = Result(
    identity: Option<Identity>, proposalId: string, digest: Proposal, agentRun: string, goal: string, role: string,
    managed: bool, binding: Option<string>, status: string, title: string)

  datatype Completed = Completed(
    proposal: Proposal, transport: Transport, acknowledgement: Acknowledgement, result: Result,
    presented: bool, delivered: bool)

  /** One call of the Team Runner, with everything it was called on. */
  datatype RunnerCall = RunnerCall(
    proposal: Proposal, transport: Transport, authorization: Authorization, acknowledgement: Acknowledgement,
    observed: Observed, remaining: nat, deadline: nat, time: nat)

  /** The reads made before a commit, in order; the first two only inside the commit lock or outside it. */
  datatype Stage = ReadSession | ReadLatest | ReadConnection | ReadRevision | ReadLocal | ReadOccupied | ReadManaged

  /** Where the operation that holds a session's lock is waiting. */
  datatype Task =
    | Creating(request: Request, observed: Option<Observed>, stage: Stage)
    | Verifying(id: string, authorization: Authorization)
    | Requesting(id: string, authorizationId: string)
    | Reconciling(id: string, acknowledgement: Acknowledgement, observed: Option<Observed>, stage: Stage)
    | AwaitingCommit(id: string)
    | Committing(id: string, observed: Option<Observed>, stage: Stage)
    | Running(id: string)
    | Presenting(id: string)
    | Delivering(id: string)

  /** What an awaited call comes back with. */
  datatype Reply = Session(observed: Option<Observed>) | Verdict(yes: bool) | Revision(value: nat) | Threw | Ran(result: Result)

  datatype State = State(
    pendingById: map<string, Pending>,
    pendingBySession: map<string, string>,
    completed: map<string, Completed>,
    completedOrder: seq<string>,
    usedAuthorizations: seq<string>,
    reserved: set<string>,
    issued: set<string>,
    tasks: map<string, Task>,
    commitHolder: Option<string>,
    calls: seq<RunnerCall>,
    commits: seq<(string, string)>,
    presentations: seq<string>,
    deliveries: seq<string>)

  // ---- The checks. ----

  predicate AuthorizationMatches(p: Proposal, a: Authorization) {
    a.proposalId == p.id && a.digest == p && a.goal == p.target.goal && a.role == p.target.role
  }

  predicate AcknowledgementMatches(p: Proposal, a: Acknowledgement) {
    && a.process == p.identity.process && a.piSession == p.identity.piSession && a.extension == p.identity.extension
    && a.connectionId == p.connectionId && a.challenge == p.challenge
    && a.proposalId == p.id && a.digest == p && a.nonce == p.nonce && a.revision == p.revision
  }

  predicate RetryMatches(done: Completed, transport: Transport, a: Acknowledgement) {
    && transport == done.transport && a.digest == done.proposal && a.nonce == done.proposal.nonce
    && a.process == done.proposal.identity.process && a.piSession == done.proposal.identity.piSession
    && a.extension == done.proposal.identity.extension
    && a.connectionId == done.proposal.connectionId && a.challenge == done.proposal.challenge
    && a.revision == done.proposal.revision && a.sequence == done.acknowledgement.sequence
    && a.activity == done.acknowledgement.activity && a.refusal == done.acknowledgement.refusal && a.accepted
  }

  predicate Eligible(o: Observed) {
    !o.exited && o.available && o.activity == Idle && o.healthy && o.unassigned
  }

  /** The part of assertConnectionCurrent that the record itself answers. */
  predicate RecordConnection(o: Observed, connectionId: string, challenge: string) {
    (o.connectionId == None || o.connectionId == Some(connectionId)) && (o.challenge == None || o.challenge == Some(challenge))
  }

  predicate SequenceCurrent(o: Observed, sequence: nat) {
    o.acceptedSequence == None || sequence > o.acceptedSequence.value
  }

  predicate ResultMatches(r: Result, p: Proposal) {
    && (r.identity == None || r.identity == Some(p.identity)) && r.binding == None && r.managed
    && r.proposalId == p.id && r.digest == p && r.goal == p.target.goal && r.role == p.target.role
    && r.agentRun != "" && 0 < |r.status| <= 512 && 0 < |r.title| <= 512
  }

  // ---- Small updates. ----

  function Min(a: nat, b: nat): nat {
    if a < b then a else b
  }

  function RemovePending(s: State, id: string): State {
    if id !in s.pendingById then s
    else
      var session := s.pendingById[id].proposal.identity.session;
      s.(pendingById := s.pendingById - {id},
         pendingBySession := if session in s.pendingBySession && s.pendingBySession[session] == id
                             then s.pendingBySession - {session} else s.pendingBySession)
  }

  /** The operation of `session` ends: its locks are free again. */
  function Released(s: State, session: string): State {
    s.(tasks := s.tasks - {session}, commitHolder := if s.commitHolder == Some(session) then None else s.commitHolder)
  }

  function Waiting(s: State, session: string, t: Task): State {
    s.(tasks := s.tasks[session := t])
  }

  /** An acknowledgement that fails after authorization invalidates its proposal. */
  function Failed(s: State, session: string, id: string): State {
    Released(RemovePending(s, id), session)
  }

  function WithPending(s: State, p: Pending): State {
    s.(pendingById := s.pendingById[p.proposal.id := p])
  }

  function RememberCompleted(s: State, id: string, done: Completed): State {
    s.(completed := s.completed[id := done],
       completedOrder := (if |s.completedOrder| >= IDEMPOTENCY_LIMIT then s.completedOrder[1..] else s.completedOrder) + [id])
  }

  function RememberAuthorization(used: seq<string>, id: string): seq<string> {
    if id in used then used else (if |used| >= IDEMPOTENCY_LIMIT then used[1..] else used) + [id]
  }

  // ---- createProposal. ----

  function StartCreate(s: State, request: Request): State {
    if request.identity.session in s.tasks then s
    else Waiting(s, request.identity.session, Creating(request, None, ReadSession))
  }

  /** A pending proposal of the session that has run out makes room; a live one is a conflict. */
  function CheckPending(s: State, session: string, now: nat): Option<State> {
    if session !in s.pendingBySession || s.pendingBySession[session] !in s.pendingById then Some(s)
    else if now >= s.pendingById[s.pendingBySession[session]].proposal.expires then Some(RemovePending(s, s.pendingBySession[session]))
    else None
  }

  function ResumeCreate(s: State, session: string, t: Task, reply: Reply, now: nat, id: string, nonce: string): State
    requires t.Creating?
  {
    var r := t.request;
    match t.stage
    case ReadSession =>
      if reply.Session? && reply.observed.Some? && reply.observed.value.identity == r.identity
         && RecordConnection(reply.observed.value, r.connectionId, r.challenge)
      then Waiting(s, session, Creating(r, reply.observed, ReadConnection)) else Released(s, session)
    case ReadConnection =>
      var checked := CheckPending(s, session, now);
      if reply == Verdict(true) && checked.Some? then
        if t.observed.Some? && Eligible(t.observed.value) && r.target.node == t.observed.value.identity.node
        then Waiting(checked.value, session, Creating(r, t.observed, ReadLocal)) else Released(checked.value, session)
      else Released(s, session)
    case ReadLocal => if reply == Verdict(true) then Waiting(s, session, Creating(r, t.observed, ReadOccupied)) else Released(s, session)
    case ReadOccupied => if reply == Verdict(false) then Waiting(s, session, Creating(r, t.observed, ReadManaged)) else Released(s, session)
    case _ =>
      if reply != Verdict(false) || session in s.pendingBySession || t.observed == None || now + PROPOSAL_TTL_MS > MAX_SAFE_INTEGER
         || id in s.issued
      then Released(s, session)
      else if nonce in s.issued + {id} then Released(s.(issued := s.issued + {id}), session)
      else
        var p := Proposal(id, r.identity, r.connectionId, r.challenge, t.observed.value.revision, r.target,
                          now, now + PROPOSAL_TTL_MS, nonce);
        Released(s.(issued := s.issued + {id, nonce},
                    pendingById := s.pendingById[id := Pending(p, r.transport, Proposed, None, None, None, None)],
                    pendingBySession := s.pendingBySession[session := id]), session)
  }

  // ---- authorizeProposal. ----

  function StartAuthorize(s: State, id: string, a: Authorization, now: nat): State {
    if id !in s.pendingById || s.pendingById[id].proposal.identity.session in s.tasks then s
    else
      var p := s.pendingById[id];
      if now >= p.proposal.expires then RemovePending(s, id)
      else if !AuthorizationMatches(p.proposal, a) then s
      else if p.phase == Authorized && p.remaining.Some? then s
      else if a.authorizationId in s.usedAuthorizations || a.authorizationId in s.reserved then s
      else Waiting(s.(reserved := s.reserved + {a.authorizationId}), p.proposal.identity.session, Verifying(id, a))
  }

  function ResumeVerify(s: State, session: string, t: Task, reply: Reply, now: nat): State
    requires t.Verifying? && t.id in s.pendingById
  {
    var p := s.pendingById[t.id];
    var over := Released(s.(reserved := s.reserved - {t.authorization.authorizationId}), session);
    if reply != Verdict(true) then over
    else if now >= p.proposal.expires then RemovePending(over, t.id)
    else if now + ACK_TIMEOUT_MS > MAX_SAFE_INTEGER then WithPending(over, p.(phase := Authorized))
    else
      Waiting(WithPending(s, p.(phase := Authorized, authorization := Some(t.authorization),
                                remaining := Some(Min(ACK_TIMEOUT_MS, p.proposal.expires - now)), deadline := Some(now + ACK_TIMEOUT_MS))),
              session, Requesting(t.id, t.authorization.authorizationId))
  }

  function ResumeRequest(s: State, session: string, t: Task, reply: Reply): State
    requires t.Requesting? && t.id in s.pendingById
  {
    var over := Released(s.(reserved := s.reserved - {t.authorizationId}), session);
    if reply == Threw then WithPending(over, s.pendingById[t.id].(phase := Proposed, authorization := None, remaining := None, deadline := None))
    else over.(usedAuthorizations := RememberAuthorization(s.usedAuthorizations, t.authorizationId))
  }

  // ---- acceptAcknowledgement. ----

  function StartAcknowledge(s: State, transport: Transport, a: Acknowledgement, now: nat): State {
    if a.proposalId in s.completedOrder && a.proposalId in s.completed then
      var done := s.completed[a.proposalId];
      if done.proposal.identity.session in s.tasks || !RetryMatches(done, transport, a) then s
      else StartDeliver(s, done.proposal.identity.session, a.proposalId)
    else if a.proposalId !in s.pendingById || s.pendingById[a.proposalId].proposal.identity.session in s.tasks then s
    else
      var p := s.pendingById[a.proposalId];
      if now >= p.proposal.expires then RemovePending(s, a.proposalId)
      else if p.phase == Proposed then s
      else if p.phase != Authorized || p.remaining == None || p.deadline == None || transport != p.transport || now >= p.deadline.value
              || !AcknowledgementMatches(p.proposal, a)
      then RemovePending(s, a.proposalId)
      else Waiting(s, p.proposal.identity.session, Reconciling(a.proposalId, a, None, ReadSession))
  }

  /** One read before the commit, outside or inside the commit lock: where it leads, or None when it does not agree. */
  function ReadStep(p: Proposal, a: Acknowledgement, committing: bool, observed: Option<Observed>, stage: Stage, reply: Reply)
    : Option<(Option<Observed>, Stage)>
  {
    match stage
    case ReadSession =>
      // Inside the commit lock the session is read twice, and the first read only has to find it.
      if !reply.Session? || reply.observed == None then None
      else if committing then Some((None, ReadLatest))
      else SessionRead(p, reply.observed)
    case ReadLatest => if !reply.Session? || reply.observed == None then None else SessionRead(p, reply.observed)
    case ReadConnection => if reply == Verdict(true) && observed.Some? && observed.value.revision == p.revision then Some((observed, ReadRevision)) else None
    case ReadRevision =>
      if reply == Revision(p.revision) && observed.Some? && SequenceCurrent(observed.value, a.sequence)
         && a.accepted && a.activity == Idle && Eligible(observed.value) && p.target.node == observed.value.identity.node
      then Some((observed, ReadLocal)) else None
    case ReadLocal => if reply == Verdict(true) then Some((observed, ReadOccupied)) else None
    case ReadOccupied => if reply == Verdict(false) then Some((observed, ReadManaged)) else None
    case ReadManaged => None
  }

  function SessionRead(p: Proposal, observed: Option<Observed>): Option<(Option<Observed>, Stage)>
    requires observed.Some?
  {
    if observed.value.identity == p.identity && RecordConnection(observed.value, p.connectionId, p.challenge)
    then Some((observed, ReadConnection)) else None
  }

  function ResumeReconcile(s: State, session: string, t: Task, reply: Reply): State
    requires t.Reconciling? && t.id in s.pendingById
  {
    var p := s.pendingById[t.id];
    if t.stage == ReadManaged then
      if reply == Verdict(false)
      then Waiting(WithPending(s, p.(phase := Reconciled, acknowledgement := Some(t.acknowledgement))), session, AwaitingCommit(t.id))
      else Failed(s, session, t.id)
    else match ReadStep(p.proposal, t.acknowledgement, false, t.observed, t.stage, reply)
      case None => Failed(s, session, t.id)
      case Some(next) => Waiting(s, session, Reconciling(t.id, t.acknowledgement, next.0, next.1))
  }

  /** The commit lock is granted. */
  function EnterCommit(s: State, session: string): State {
    if session !in s.tasks || !s.tasks[session].AwaitingCommit? || s.commitHolder.Some? then s
    else Waiting(s.(commitHolder := Some(session)), session, Committing(s.tasks[session].id, None, ReadSession))
  }

  function ResumeCommit(s: State, session: string, t: Task, reply: Reply, now: nat): State
    requires t.Committing? && t.id in s.pendingById
  {
    var p := s.pendingById[t.id];
    if p.acknowledgement == None || p.authorization == None then Failed(s, session, t.id)
    else if t.stage == ReadManaged then
      if reply == Verdict(false) && t.observed.Some? && now < p.proposal.expires
         && p.deadline.Some? && p.remaining.Some? && now < p.deadline.value
      then Waiting(s.(calls := s.calls + [RunnerCall(p.proposal, p.transport, p.authorization.value, p.acknowledgement.value,
                                                     t.observed.value, p.remaining.value, p.deadline.value, now)]),
                   session, Running(t.id))
      else Failed(s, session, t.id)
    else match ReadStep(p.proposal, p.acknowledgement.value, true, t.observed, t.stage, reply)
      case None => Failed(s, session, t.id)
      case Some(next) => Waiting(s, session, Committing(t.id, next.0, next.1))
  }

  /** The Team Runner comes back. Returning at all means that it committed. */
  function ResumeRun(s: State, session: string, t: Task, reply: Reply): State
    requires t.Running? && t.id in s.pendingById
  {
    var p := s.pendingById[t.id];
    if !reply.Ran? then Failed(s, session, t.id)
    else
      var after := s.(commits := s.commits + [(p.proposal.target.goal, p.proposal.target.role)]);
      if !ResultMatches(reply.result, p.proposal) || p.acknowledgement == None then Failed(after, session, t.id)
      else
        StartDeliver(
          RememberCompleted(RemovePending(after, t.id), t.id,
                            Completed(p.proposal, p.transport, p.acknowledgement.value, reply.result, false, false)),
          session, t.id)
  }

  // ---- deliverCompleted. ----

  function StartDeliver(s: State, session: string, id: string): State
    requires id in s.completed
  {
    if !s.completed[id].presented then Waiting(s, session, Presenting(id))
    else if !s.completed[id].delivered then Waiting(s, session, Delivering(id))
    else Released(s, session)
  }

  function ResumeDeliver(s: State, session: string, t: Task, reply: Reply): State
    requires (t.Presenting? || t.Delivering?) && t.id in s.completed
  {
    if reply == Threw then Released(s, session)
    else if t.Presenting? then
      StartDeliver(s.(completed := s.completed[t.id := s.completed[t.id].(presented := true)], presentations := s.presentations + [t.id]),
                   session, t.id)
    else
      Released(s.(completed := s.completed[t.id := s.completed[t.id].(delivered := true)], deliveries := s.deliveries + [t.id]), session)
  }

  datatype Action =
    | Create(request: Request)
    | Authorize(id: string, authorization: Authorization, now: nat)
    | Acknowledge(transport: Transport, acknowledgement: Acknowledgement, now: nat)
    | GrantCommit(session: string)
    | Resume(session: string, reply: Reply, now: nat, id: string, nonce: string)
    | Restart

  /** Whether the operation waiting in `session` holds what it needs; it always does. */
  predicate Resumable(s: State, t: Task) {
    match t
    case Creating(_, _, _) => true
    case AwaitingCommit(_) => false
    case Presenting(id) => id in s.completed
    case Delivering(id) => id in s.completed
    case _ => t.id in s.pendingById
  }

  function ResumeTask(s: State, session: string, reply: Reply, now: nat, id: string, nonce: string): State {
    if session !in s.tasks || !Resumable(s, s.tasks[session]) then s
    else
      var t := s.tasks[session];
      match t
      case Creating(_, _, _) => ResumeCreate(s, session, t, reply, now, id, nonce)
      case Verifying(_, _) => ResumeVerify(s, session, t, reply, now)
      case Requesting(_, _) => ResumeRequest(s, session, t, reply)
      case Reconciling(_, _, _, _) => ResumeReconcile(s, session, t, reply)
      case Committing(_, _, _) => ResumeCommit(s, session, t, reply, now)
      case Running(_) => ResumeRun(s, session, t, reply)
      case Presenting(_) => ResumeDeliver(s, session, t, reply)
      case Delivering(_) => ResumeDeliver(s, session, t, reply)
      case AwaitingCommit(_) => s
  }

  /** A restart is only taken when nothing is in flight. */
  function Reconstructed(s: State): State {
    if s.tasks != map[] then s else s.(pendingById := map[], pendingBySession := map[], reserved := {})
  }

  function Step(s: State, a: Action): State {
    match a
    case Create(request) => StartCreate(s, request)
    case Authorize(id, authorization, now) => StartAuthorize(s, id, authorization, now)
    case Acknowledge(transport, acknowledgement, now) => StartAcknowledge(s, transport, acknowledgement, now)
    case GrantCommit(session) => EnterCommit(s, session)
    case Resume(session, reply, now, id, nonce) => ResumeTask(s, session, reply, now, id, nonce)
    case Restart => Reconstructed(s)
  }

  /** The coordinator as an object; each method is the code of one operation between two awaits. */
  class AdoptionCoordinator {
    var pendingById: map<string, Pending>
    var pendingBySession: map<string, string>
    /** Completion records by proposal; `completedOrder` names those still in the table. */
    var completed: map<string, Completed>
    var completedOrder: seq<string>
    var usedAuthorizations: seq<string>
    var reserved: set<string>
    var issued: set<string>
    var tasks: map<string, Task>
    var commitHolder: Option<string>
    var calls: seq<RunnerCall>
    var commits: seq<(string, string)>
    var presentations: seq<string>
    var deliveries: seq<string>

    function Contents(): State
      reads this
    {
      State(pendingById, pendingBySession, completed, completedOrder, usedAuthorizations, reserved, issued, tasks,
            commitHolder, calls, commits, presentations, deliveries)
    }

    constructor ()
      ensures Contents() == State(map[], map[], map[], [], [], {}, {}, map[], None, [], [], [], [])
    {
      pendingById, pendingBySession, completed, completedOrder, usedAuthorizations := map[], map[], map[], [], [];
      reserved, issued, tasks, commitHolder := {}, {}, map[], None;
      calls, commits, presentations, deliveries := [], [], [], [];
    }

    method Remove(id: string)
      modifies this`pendingById, this`pendingBySession
      ensures Contents() == RemovePending(old(Contents()), id)
    {
      if id in pendingById {
        var session := pendingById[id].proposal.identity.session;
        pendingById := pendingById - {id};
        if session in pendingBySession && pendingBySession[session] == id {
          pendingBySession := pendingBySession - {session};
        }
      }
    }

    method Release(session: string)
      modifies this`tasks, this`commitHolder
      ensures Contents() == Released(old(Contents()), session)
    {
      tasks := tasks - {session};
      if commitHolder == Some(session) {
        commitHolder := None;
      }
    }

    method Wait(session: string, t: Task)
      modifies this`tasks
      ensures Contents() == Waiting(old(Contents()), session, t)
    {
      tasks := tasks[session := t];
    }

    method Invalidate(session: string, id: string)
      modifies this`pendingById, this`pendingBySession, this`tasks, this`commitHolder
      ensures Contents() == Failed(old(Contents()), session, id)
    {
      Remove(id);
      Release(session);
    }

    method AuthorizeProposal(id: string, a: Authorization, now: nat)
      modifies this
      ensures Contents() == StartAuthorize(old(Contents()), id, a, now)
    {
      if id !in pendingById { return; }
      var p := pendingById[id];
      var session := p.proposal.identity.session;
      if session in tasks { return; }
      if now >= p.proposal.expires {
        Remove(id);
        return;
      }
      if !AuthorizationMatches(p.proposal, a) { return; }
      if p.phase == Authorized && p.remaining.Some? { return; }
      if a.authorizationId in usedAuthorizations || a.authorizationId in reserved { return; }
      reserved := reserved + {a.authorizationId};
      Wait(session, Verifying(id, a));
    }

    method AuthorizationVerified(session: string, reply: Reply, now: nat)
      requires session in tasks && tasks[session].Verifying? && tasks[session].id in pendingById
      modifies this
      ensures Contents() == ResumeVerify(old(Contents()), session, old(tasks)[session], reply, now)
    {
      var t := tasks[session];
      var p := pendingById[t.id];
      if reply != Verdict(true) || now >= p.proposal.expires || now + ACK_TIMEOUT_MS > MAX_SAFE_INTEGER {
        reserved := reserved - {t.authorization.authorizationId};
        Release(session);
        if reply == Verdict(true) {
          if now >= p.proposal.expires {
            Remove(t.id);
          } else {
            pendingById := pendingById[p.proposal.id := p.(phase := Authorized)];
          }
        }
        return;
      }
      var remaining := Min(ACK_TIMEOUT_MS, p.proposal.expires - now);
      pendingById := pendingById[p.proposal.id := p.(phase := Authorized, authorization := Some(t.authorization),
                                                    remaining := Some(remaining), deadline := Some(now + ACK_TIMEOUT_MS))];
      Wait(session, Requesting(t.id, t.authorization.authorizationId));
    }

    method RequestSent(session: string, reply: Reply)
      requires session in tasks && tasks[session].Requesting? && tasks[session].id in pendingById
      modifies this
      ensures Contents() == ResumeRequest(old(Contents()), session, old(tasks)[session], reply)
    {
      var t := tasks[session];
      if reply == Threw {
        var p := pendingById[t.id];
        pendingById := pendingById[p.proposal.id := p.(phase := Proposed, authorization := None, remaining := None, deadline := None)];
      } else if t.authorizationId !in usedAuthorizations {
        if |usedAuthorizations| >= IDEMPOTENCY_LIMIT {
          usedAuthorizations := usedAuthorizations[1..];
        }
        usedAuthorizations := usedAuthorizations + [t.authorizationId];
      }
      reserved := reserved - {t.authorizationId};
      Release(session);
    }

    method AcceptAcknowledgement(transport: Transport, a: Acknowledgement, now: nat)
      modifies this
      ensures Contents() == StartAcknowledge(old(Contents()), transport, a, now)
    {
      var id := a.proposalId;
      if id in completedOrder && id in completed {
        var session := completed[id].proposal.identity.session;
        if session !in tasks && RetryMatches(completed[id], transport, a) {
          DeliverCompleted(session, id);
        }
        return;
      }
      if id !in pendingById { return; }
      var p := pendingById[id];
      if p.proposal.identity.session in tasks { return; }
      if now >= p.proposal.expires {
        Remove(id);
        return;
      }
      if p.phase == Proposed { return; }
      if p.phase != Authorized || p.remaining == None || p.deadline == None || transport != p.transport
         || now >= p.deadline.value || !AcknowledgementMatches(p.proposal, a) {
        Remove(id);
        return;
      }
      Wait(p.proposal.identity.session, Reconciling(id, a, None, ReadSession));
    }

    method ReconcileRead(session: string, reply: Reply)
      requires session in tasks && tasks[session].Reconciling? && tasks[session].id in pendingById
      modifies this
      ensures Contents() == ResumeReconcile(old(Contents()), session, old(tasks)[session], reply)
    {
      var t := tasks[session];
      var p := pendingById[t.id];
      if t.stage == ReadManaged {
        if reply != Verdict(false) {
          Invalidate(session, t.id);
          return;
        }
        pendingById := pendingById[p.proposal.id := p.(phase := Reconciled, acknowledgement := Some(t.acknowledgement))];
        Wait(session, AwaitingCommit(t.id));
        return;
      }
      var next := ReadStep(p.proposal, t.acknowledgement, false, t.observed, t.stage, reply);
      if next == None {
        Invalidate(session, t.id);
        return;
      }
      Wait(session, Reconciling(t.id, t.acknowledgement, next.value.0, next.value.1));
    }

    method CommitLockGranted(session: string)
      modifies this
      ensures Contents() == EnterCommit(old(Contents()), session)
    {
      if session in tasks && tasks[session].AwaitingCommit? && commitHolder == None {
        commitHolder := Some(session);
        Wait(session, Committing(tasks[session].id, None, ReadSession));
      }
    }

    /** The last read is followed by the deadline checks and, at once, by the one Team Runner call. */
    method CommitRead(session: string, reply: Reply, now: nat)
      requires session in tasks && tasks[session].Committing? && tasks[session].id in pendingById
      modifies this
      ensures Contents() == ResumeCommit(old(Contents()), session, old(tasks)[session], reply, now)
    {
      var t := tasks[session];
      var p := pendingById[t.id];
      if p.acknowledgement == None || p.authorization == None {
        Invalidate(session, t.id);
        return;
      }
      if t.stage != ReadManaged {
        var next := ReadStep(p.proposal, p.acknowledgement.value, true, t.observed, t.stage, reply);
        if next == None {
          Invalidate(session, t.id);
        } else {
          Wait(session, Committing(t.id, next.value.0, next.value.1));
        }
        return;
      }
      if reply != Verdict(false) || t.observed == None || now >= p.proposal.expires
         || p.deadline == None || p.remaining == None || now >= p.deadline.value {
        Invalidate(session, t.id);
        return;
      }
      calls := calls + [RunnerCall(p.proposal, p.transport, p.authorization.value, p.acknowledgement.value,
                                   t.observed.value, p.remaining.value, p.deadline.value, now)];
      Wait(session, Running(t.id));
    }

    method RunnerReturned(session: string, reply: Reply)
      requires session in tasks && tasks[session].Running? && tasks[session].id in pendingById
      modifies this
      ensures Contents() == ResumeRun(old(Contents()), session, old(tasks)[session], reply)
    {
      var id := tasks[session].id;
      var p := pendingById[id];
      if !reply.Ran? {
        Invalidate(session, id);
        return;
      }
      commits := commits + [(p.proposal.target.goal, p.proposal.target.role)];
      if !ResultMatches(reply.result, p.proposal) || p.acknowledgement == None {
        Invalidate(session, id);
        return;
      }
      Remove(id);
      completed := completed[id := Completed(p.proposal, p.transport, p.acknowledgement.value, reply.result, false, false)];
      if |completedOrder| >= IDEMPOTENCY_LIMIT {
        completedOrder := completedOrder[1..];
      }
      completedOrder := completedOrder + [id];
      DeliverCompleted(session, id);
    }

    method DeliverCompleted(session: string, id: string)
      requires id in completed
      modifies this`tasks, this`commitHolder
      ensures Contents() == StartDeliver(old(Contents()), session, id)
    {
      if !completed[id].presented {
        Wait(session, Presenting(id));
      } else if !completed[id].delivered {
        Wait(session, Delivering(id));
      } else {
        Release(session);
      }
    }

    method DeliveryReturned(session: string, reply: Reply)
      requires session in tasks && (tasks[session].Presenting? || tasks[session].Delivering?) && tasks[session].id in completed
      modifies this
      ensures Contents() == ResumeDeliver(old(Contents()), session, old(tasks)[session], reply)
    {
      var t := tasks[session];
      if reply == Threw {
        Release(session);
      } else if t.Presenting? {
        completed := completed[t.id := completed[t.id].(presented := true)];
        presentations := presentations + [t.id];
        DeliverCompleted(session, t.id);
      } else {
        completed := completed[t.id := completed[t.id].(delivered := true)];
        deliveries := deliveries + [t.id];
        Release(session);
      }
    }

    method CreateProposal(request: Request)
      modifies this
      ensures Contents() == StartCreate(old(Contents()), request)
    {
      if request.identity.session !in tasks {
        Wait(request.identity.session, Creating(request, None, ReadSession));
      }
    }

    /** The reads of a creation, but for the two after which more happens. */
    method CreateRead(session: string, reply: Reply, now: nat, id: string, nonce: string)
      requires session in tasks && tasks[session].Creating?
      modifies this
      ensures Contents() == ResumeCreate(old(Contents()), session, old(tasks)[session], reply, now, id, nonce)
    {
      var t := tasks[session];
      if t.stage == ReadConnection {
        ConnectionRead(session, t, reply, now, id, nonce);
      } else if t.stage == ReadSession {
        if reply.Session? && reply.observed.Some? && reply.observed.value.identity == t.request.identity
           && RecordConnection(reply.observed.value, t.request.connectionId, t.request.challenge) {
          Wait(session, Creating(t.request, reply.observed, ReadConnection));
        } else {
          Release(session);
        }
      } else if t.stage == ReadLocal || t.stage == ReadOccupied {
        if reply == Verdict(t.stage == ReadLocal) {
          Wait(session, Creating(t.request, t.observed, if t.stage == ReadLocal then ReadOccupied else ReadManaged));
        } else {
          Release(session);
        }
      } else {
        FinishCreate(session, t, reply, now, id, nonce);
      }
    }

    /** An expired pending proposal of the session makes room; a live one is a conflict. */
    method ConnectionRead(session: string, t: Task, reply: Reply, now: nat, ghost id: string, ghost nonce: string)
      requires t.Creating? && t.stage == ReadConnection
      modifies this
      ensures Contents() == ResumeCreate(old(Contents()), session, t, reply, now, id, nonce)
    {
      if reply != Verdict(true) {
        Release(session);
        return;
      }
      if session in pendingBySession && pendingBySession[session] in pendingById {
        if now < pendingById[pendingBySession[session]].proposal.expires {
          Release(session);
          return;
        }
        Remove(pendingBySession[session]);
      }
      if t.observed.Some? && Eligible(t.observed.value) && t.request.target.node == t.observed.value.identity.node {
        Wait(session, Creating(t.request, t.observed, ReadLocal));
      } else {
        Release(session);
      }
    }

    method FinishCreate(session: string, t: Task, reply: Reply, now: nat, id: string, nonce: string)
      requires t.Creating? && (t.stage == ReadManaged || t.stage == ReadLatest || t.stage == ReadRevision)
      modifies this
      ensures Contents() == ResumeCreate(old(Contents()), session, t, reply, now, id, nonce)
    {
      var r := t.request;
      if reply == Verdict(false) && session !in pendingBySession && t.observed.Some? && now + PROPOSAL_TTL_MS <= MAX_SAFE_INTEGER
         && id !in issued {
        if nonce in issued + {id} {
          issued := issued + {id};
        } else {
          issued := issued + {id, nonce};
          var p := Proposal(id, r.identity, r.connectionId, r.challenge, t.observed.value.revision, r.target, now, now + PROPOSAL_TTL_MS, nonce);
          pendingById := pendingById[id := Pending(p, r.transport, Proposed, None, None, None, None)];
          pendingBySession := pendingBySession[session := id];
        }
      }
      Release(session);
    }

    method Reconstruct()
      modifies this
      ensures Contents() == Reconstructed(old(Contents()))
    {
      if tasks == map[] {
        pendingById, pendingBySession, reserved := map[], map[], {};
      }
    }
  }
}

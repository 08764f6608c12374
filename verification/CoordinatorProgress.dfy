/** The coordinator never gets stuck, and its bounded tables forget only the oldest. */
module CoordinatorProgress {
  import opened Contracts
  import opened Coordinator
  import opened CoordinatorRuns
  import opened CoordinatorHistory

  // ---- Every operation ends. ----

  /** How many replies a series of reads can still take from `stage` on. */
  function ReadsLeft(stage: Stage): nat {
    match stage
    case ReadSession => 7
    case ReadLatest => 6
    case ReadConnection => 5
    case ReadRevision => 4
    case ReadLocal => 3
    case ReadOccupied => 2
    case ReadManaged => 1
  }

  /** How many replies and lock grants an operation can still take. */
  function Rank(t: Task): nat {
    match t
    case Creating(_, _, stage) => ReadsLeft(stage)
    case Verifying(_, _) => 2
    case Requesting(_, _) => 1
    case Reconciling(_, _, _, stage) => 11 + ReadsLeft(stage)
    case AwaitingCommit(_) => 11
    case Committing(_, _, stage) => 3 + ReadsLeft(stage)
    case Running(_) => 3
    case Presenting(_) => 2
    case Delivering(_) => 1
  }

  /** The operation of the session is over, or closer to its end. */
  predicate Advances(s: State, later: State, session: string)
    requires session in s.tasks
  {
    session !in later.tasks || Rank(later.tasks[session]) < Rank(s.tasks[session])
  }

  lemma CreateAdvances(s: State, session: string, reply: Reply, now: nat, id: string, nonce: string)
    requires session in s.tasks && s.tasks[session].Creating?
    ensures Advances(s, ResumeCreate(s, session, s.tasks[session], reply, now, id, nonce), session)
  {
    hide Eligible, RecordConnection, CheckPending;
    CheckedTasks(s, session, now);
  }

  lemma ReadAdvances(p: Proposal, a: Acknowledgement, committing: bool, observed: Option<Observed>, stage: Stage, reply: Reply)
    ensures ReadStep(p, a, committing, observed, stage, reply).Some? ==>
      ReadsLeft(ReadStep(p, a, committing, observed, stage, reply).value.1) < ReadsLeft(stage)
  {
    hide Eligible, SequenceCurrent, RecordConnection;
  }

  lemma ReconcileAdvances(s: State, session: string, reply: Reply)
    requires session in s.tasks && s.tasks[session].Reconciling? && s.tasks[session].id in s.pendingById
    ensures Advances(s, ResumeReconcile(s, session, s.tasks[session], reply), session)
  {
    var t := s.tasks[session];
    ReadAdvances(s.pendingById[t.id].proposal, t.acknowledgement, false, t.observed, t.stage, reply);
    hide ReadStep;
  }

  lemma CommitAdvances(s: State, session: string, reply: Reply, now: nat)
    requires session in s.tasks && s.tasks[session].Committing? && s.tasks[session].id in s.pendingById
    ensures Advances(s, ResumeCommit(s, session, s.tasks[session], reply, now), session)
  {
    var t := s.tasks[session];
    var p := s.pendingById[t.id];
    if p.acknowledgement.Some? {
      ReadAdvances(p.proposal, p.acknowledgement.value, true, t.observed, t.stage, reply);
    }
    hide ReadStep;
  }

  lemma LateAdvances(s: State, session: string, reply: Reply)
    requires session in s.tasks && Resumable(s, s.tasks[session])
    requires s.tasks[session].Running? || s.tasks[session].Presenting? || s.tasks[session].Delivering?
    requires s.tasks[session].Presenting? ==> !s.completed[s.tasks[session].id].presented
    ensures s.tasks[session].Running? ==> Advances(s, ResumeRun(s, session, s.tasks[session], reply), session)
    ensures !s.tasks[session].Running? ==> Advances(s, ResumeDeliver(s, session, s.tasks[session], reply), session)
  {
    hide ResultMatches;
  }

  lemma AuthorizeAdvances(s: State, session: string, reply: Reply, now: nat)
    requires session in s.tasks && Resumable(s, s.tasks[session])
    ensures s.tasks[session].Verifying? ==> Advances(s, ResumeVerify(s, session, s.tasks[session], reply, now), session)
    ensures s.tasks[session].Requesting? ==> Advances(s, ResumeRequest(s, session, s.tasks[session], reply), session)
  {
  }

  lemma AlwaysResumable(s: State, session: string)
    requires Valid(s) && session in s.tasks && !s.tasks[session].AwaitingCommit?
    ensures Resumable(s, s.tasks[session])
    ensures s.tasks[session].Presenting? ==> !s.completed[s.tasks[session].id].presented
  {
    Facts(s, session);
    hide Valid, Called;
  }

  /** Every reply brings the operation that waited for it closer to its end, whatever the reply is. */
  lemma ReplyAdvances(s: State, session: string, reply: Reply, now: nat, id: string, nonce: string)
    requires Valid(s) && session in s.tasks && !s.tasks[session].AwaitingCommit?
    ensures Resumable(s, s.tasks[session])
    ensures Advances(s, ResumeTask(s, session, reply, now, id, nonce), session)
  {
    AlwaysResumable(s, session);
    hide Valid, Advances, ResumeCreate, ResumeVerify, ResumeRequest, ResumeReconcile, ResumeCommit, ResumeRun, ResumeDeliver;
    match s.tasks[session]
    case Creating(_, _, _) => CreateAdvances(s, session, reply, now, id, nonce);
    case Reconciling(_, _, _, _) => ReconcileAdvances(s, session, reply);
    case Committing(_, _, _) => CommitAdvances(s, session, reply, now);
    case Running(_) => LateAdvances(s, session, reply);
    case Presenting(_) => LateAdvances(s, session, reply);
    case Delivering(_) => LateAdvances(s, session, reply);
    case _ => AuthorizeAdvances(s, session, reply, now);
  }

  /** So does the commit lock. */
  lemma GrantAdvances(s: State, session: string)
    requires session in s.tasks && s.tasks[session].AwaitingCommit? && s.commitHolder == None
    ensures Advances(s, EnterCommit(s, session), session) && EnterCommit(s, session).commitHolder == Some(session)
  {
  }

  /** The operation of `session` waits for nothing but a reply, or for a commit lock that is free. */
  predicate CanMove(s: State, session: string) {
    session in s.tasks && if s.tasks[session].AwaitingCommit? then s.commitHolder == None else Resumable(s, s.tasks[session])
  }

  /**
   * No deadlock: in every reachable state, each operation in flight can move by itself, or waits for the commit lock while
   * the operation that holds it can move. By ReplyAdvances and GrantAdvances each move uses up part of a bounded rank.
   */
  lemma NeverStuck(states: seq<State>, actions: seq<Action>, k: nat, session: string)
    requires Run(states, actions) && k < |states| && session in states[k].tasks
    ensures CanMove(states[k], session)
      || (states[k].tasks[session].AwaitingCommit? && states[k].commitHolder.Some? && CanMove(states[k], states[k].commitHolder.value))
  {
    var s := states[k];
    RunValid(states, actions, k);
    hide Run;
    if !s.tasks[session].AwaitingCommit? {
      ReplyAdvances(s, session, Threw, 0, "", "");
    } else if s.commitHolder.Some? {
      Facts(s, s.commitHolder.value);
      ReplyAdvances(s, s.commitHolder.value, Threw, 0, "", "");
    }
  }

  // ---- Authorization identities in flight. ----

  /** The authorization identity an operation holds reserved. */
  function InFlight(t: Task): Option<string> {
    match t
    case Verifying(_, a) => Some(a.authorizationId)
    case Requesting(_, id) => Some(id)
    case _ => None
  }

  function FlightOf(tasks: map<string, Task>, x: string): Option<string> {
    if x in tasks then InFlight(tasks[x]) else None
  }

  /** Reserved are exactly the identities of the operations in flight, and no two operations hold the same one. */
  ghost predicate ReservedExactly(reserved: set<string>, tasks: map<string, Task>) {
    && (forall id :: id in reserved ==> exists x :: FlightOf(tasks, x) == Some(id))
    && (forall x :: FlightOf(tasks, x).Some? ==> FlightOf(tasks, x).value in reserved)
    && (forall x, y :: x != y && FlightOf(tasks, x).Some? ==> FlightOf(tasks, y) != FlightOf(tasks, x))
  }

  /** One operation reserves, keeps or gives back its own identity. */
  ghost predicate OwnFlight(s: State, later: State, session: string) {
    && (forall x :: x != session ==> FlightOf(later.tasks, x) == FlightOf(s.tasks, x))
    && match (FlightOf(s.tasks, session), FlightOf(later.tasks, session))
       case (None, None) => later.reserved == s.reserved
       case (None, Some(id)) => id !in s.reserved && later.reserved == s.reserved + {id}
       case (Some(id), None) => later.reserved == s.reserved - {id}
       case (Some(id), Some(same)) => same == id && later.reserved == s.reserved
  }

  lemma OwnFlightKeeps(s: State, later: State, session: string)
    requires ReservedExactly(s.reserved, s.tasks) && OwnFlight(s, later, session)
    ensures ReservedExactly(later.reserved, later.tasks)
  {
    hide FlightOf;
    forall id | id in later.reserved ensures exists x :: FlightOf(later.tasks, x) == Some(id) {
      if id in s.reserved {
        var x :| FlightOf(s.tasks, x) == Some(id);
        assert x != session ==> FlightOf(later.tasks, x) == Some(id);
      }
    }
  }

  lemma StartFlight(s: State, a: Action) returns (session: string)
    requires !a.Resume? && !a.Restart?
    ensures OwnFlight(s, Step(s, a), session)
  {
    match a
    case Create(request) => session := request.identity.session;
    case Authorize(id, authorization, now) =>
      session := if id in s.pendingById then s.pendingById[id].proposal.identity.session else "";
      AuthorizeFlight(s, a, session);
    case Acknowledge(_, ack, _) =>
      var id := ack.proposalId;
      session := if id in s.completedOrder && id in s.completed then s.completed[id].proposal.identity.session
                 else if id in s.pendingById then s.pendingById[id].proposal.identity.session else "";
      AcknowledgeFlight(s, a, session);
    case GrantCommit(x) => session := x;
  }

  lemma AuthorizeFlight(s: State, a: Action, session: string)
    requires a.Authorize? && (a.id in s.pendingById ==> session == s.pendingById[a.id].proposal.identity.session)
    ensures OwnFlight(s, Step(s, a), session)
  {
    hide AuthorizationMatches, StartAcknowledge;
    RemovedTasks(s, a.id);
  }

  lemma AcknowledgeFlight(s: State, a: Action, session: string)
    requires a.Acknowledge?
    requires var id := a.acknowledgement.proposalId;
      if id in s.completedOrder && id in s.completed then session == s.completed[id].proposal.identity.session
      else id in s.pendingById ==> session == s.pendingById[id].proposal.identity.session
    ensures OwnFlight(s, Step(s, a), session)
  {
    hide RetryMatches, AcknowledgementMatches, StartAuthorize;
  }

  lemma ResumeFlight(s: State, session: string, reply: Reply, now: nat, id: string, nonce: string)
    requires session in s.tasks && Resumable(s, s.tasks[session])
    ensures OwnFlight(s, ResumeTask(s, session, reply, now, id, nonce), session)
  {
    hide OwnFlight, ResumeCreate, ResumeVerify, ResumeRequest, ResumeReconcile, ResumeCommit, ResumeRun, ResumeDeliver;
    match s.tasks[session]
    case Creating(_, _, _) => CreateFlight(s, session, reply, now, id, nonce);
    case Verifying(_, _) => VerifyFlight(s, session, reply, now);
    case Requesting(_, _) => RequestFlight(s, session, reply);
    case Reconciling(_, _, _, _) => ReconcileFlight(s, session, reply);
    case Committing(_, _, _) => CommitFlight(s, session, reply, now);
    case Running(_) => RunFlight(s, session, reply);
    case _ => DeliverFlight(s, session, reply);
  }

  lemma CreateFlight(s: State, session: string, reply: Reply, now: nat, id: string, nonce: string)
    requires session in s.tasks && s.tasks[session].Creating?
    ensures OwnFlight(s, ResumeCreate(s, session, s.tasks[session], reply, now, id, nonce), session)
  {
    hide Eligible, RecordConnection, CheckPending;
    CheckedTasks(s, session, now);
    CheckedReserved(s, session, now);
    match s.tasks[session].stage
    case ReadSession =>
    case ReadConnection =>
    case ReadLocal =>
    case ReadOccupied =>
    case _ =>
  }

  lemma CheckedReserved(s: State, session: string, now: nat)
    ensures CheckPending(s, session, now).Some? ==> CheckPending(s, session, now).value.reserved == s.reserved
  {
  }

  lemma VerifyFlight(s: State, session: string, reply: Reply, now: nat)
    requires session in s.tasks && s.tasks[session].Verifying? && s.tasks[session].id in s.pendingById
    ensures OwnFlight(s, ResumeVerify(s, session, s.tasks[session], reply, now), session)
  {
  }

  lemma RequestFlight(s: State, session: string, reply: Reply)
    requires session in s.tasks && s.tasks[session].Requesting? && s.tasks[session].id in s.pendingById
    ensures OwnFlight(s, ResumeRequest(s, session, s.tasks[session], reply), session)
  {
    hide RememberAuthorization;
  }

  lemma ReconcileFlight(s: State, session: string, reply: Reply)
    requires session in s.tasks && s.tasks[session].Reconciling? && s.tasks[session].id in s.pendingById
    ensures OwnFlight(s, ResumeReconcile(s, session, s.tasks[session], reply), session)
  {
    hide ReadStep;
  }

  lemma CommitFlight(s: State, session: string, reply: Reply, now: nat)
    requires session in s.tasks && s.tasks[session].Committing? && s.tasks[session].id in s.pendingById
    ensures OwnFlight(s, ResumeCommit(s, session, s.tasks[session], reply, now), session)
  {
    hide ReadStep;
  }

  lemma RunFlight(s: State, session: string, reply: Reply)
    requires session in s.tasks && s.tasks[session].Running? && s.tasks[session].id in s.pendingById
    ensures OwnFlight(s, ResumeRun(s, session, s.tasks[session], reply), session)
  {
    hide ResultMatches;
  }

  lemma DeliverFlight(s: State, session: string, reply: Reply)
    requires session in s.tasks && (s.tasks[session].Presenting? || s.tasks[session].Delivering?) && s.tasks[session].id in s.completed
    ensures OwnFlight(s, ResumeDeliver(s, session, s.tasks[session], reply), session)
  {
  }

  /** In every reachable state the reserved authorization identities are exactly those in flight, one operation each. */
  lemma {:induction false} ReservedInFlight(states: seq<State>, actions: seq<Action>, k: nat)
    requires Run(states, actions) && k < |states|
    ensures ReservedExactly(states[k].reserved, states[k].tasks)
  {
    hide Step, OwnFlight;
    if k > 0 {
      var s, a := states[k - 1], actions[k - 1];
      assert states[k] == Step(s, a);
      ReservedInFlight(states, actions, k - 1);
      hide Run;
      StepReserved(s, a);
    }
  }

  lemma StepReserved(s: State, a: Action)
    requires ReservedExactly(s.reserved, s.tasks)
    ensures ReservedExactly(Step(s, a).reserved, Step(s, a).tasks)
  {
    hide OwnFlight, StartAuthorize, StartAcknowledge, StartCreate, EnterCommit, ReservedExactly;
    if a.Restart? {
      NothingReserved();
    } else if !a.Resume? {
      var session := StartFlight(s, a);
      OwnFlightKeeps(s, Step(s, a), session);
    } else if a.session in s.tasks && Resumable(s, s.tasks[a.session]) {
      hide ResumeTask;
      ResumeFlight(s, a.session, a.reply, a.now, a.id, a.nonce);
      OwnFlightKeeps(s, Step(s, a), a.session);
    } else {
      NotResumable(s, a.session, a.reply, a.now, a.id, a.nonce);
    }
  }

  lemma NothingReserved()
    ensures ReservedExactly({}, map[])
  {
  }

  // ---- The tables that forget. ----

  /** The last 256 entries. */
  function Recent(all: seq<string>): seq<string> {
    if |all| <= IDEMPOTENCY_LIMIT then all else all[|all| - IDEMPOTENCY_LIMIT..]
  }

  lemma RecentAppended(all: seq<string>, id: string)
    ensures Recent(all + [id]) == (if |Recent(all)| >= IDEMPOTENCY_LIMIT then Recent(all)[1..] else Recent(all)) + [id]
  {
  }

  /** The proposals completed before state `k`, in order. */
  function Completions(states: seq<State>, actions: seq<Action>, k: nat): seq<string>
    requires |states| == |actions| + 1 && k < |states|
  {
    if k == 0 then []
    else Completions(states, actions, k - 1) + NewlyCompleted(states[k - 1], actions[k - 1])
  }

  function NewlyCompleted(s: State, a: Action): seq<string> {
    if a.Resume? && a.session in s.tasks && s.tasks[a.session].Running? && s.tasks[a.session].id in s.pendingById
       && a.reply.Ran? && ResultMatches(a.reply.result, s.pendingById[s.tasks[a.session].id].proposal)
       && s.pendingById[s.tasks[a.session].id].acknowledgement.Some?
    then [s.tasks[a.session].id] else []
  }

  predicate SameOrder(s: State, later: State) {
    later.completedOrder == s.completedOrder
  }

  lemma StartOrder(s: State, a: Action)
    requires !a.Resume?
    ensures SameOrder(s, Step(s, a))
  {
    hide RetryMatches, AcknowledgementMatches, AuthorizationMatches;
  }

  lemma CreateOrder(s: State, a: Action, t: Task)
    requires a.Resume? && t.Creating?
    ensures SameOrder(s, ResumeCreate(s, a.session, t, a.reply, a.now, a.id, a.nonce))
  {
    hide Eligible, RecordConnection;
    match t.stage
    case ReadSession =>
    case ReadConnection =>
    case ReadLocal =>
    case ReadOccupied =>
    case _ =>
  }

  lemma ResumeOrder(s: State, a: Action, t: Task)
    requires a.Resume? && Resumable(s, t) && !t.Creating? && !t.Running? && a.session in s.tasks && s.tasks[a.session] == t
    ensures SameOrder(s, ResumeTask(s, a.session, a.reply, a.now, a.id, a.nonce))
  {
    hide ReadStep, ResumeCreate, ResumeRun, RememberAuthorization;
    match t
    case Verifying(_, _) =>
    case Requesting(_, _) =>
    case Reconciling(_, _, _, _) =>
    case Committing(_, _, _) =>
    case _ =>
  }

  lemma RunOrder(s: State, a: Action)
    requires a.Resume? && a.session in s.tasks && s.tasks[a.session].Running? && s.tasks[a.session].id in s.pendingById
    ensures ResumeRun(s, a.session, s.tasks[a.session], a.reply).completedOrder ==
      if NewlyCompleted(s, a) == [] then s.completedOrder
      else (if |s.completedOrder| >= IDEMPOTENCY_LIMIT then s.completedOrder[1..] else s.completedOrder) + [s.tasks[a.session].id]
  {
    hide ResultMatches;
  }

  lemma StepOrder(s: State, a: Action)
    ensures Step(s, a).completedOrder ==
      if NewlyCompleted(s, a) == [] then s.completedOrder
      else (if |s.completedOrder| >= IDEMPOTENCY_LIMIT then s.completedOrder[1..] else s.completedOrder) + NewlyCompleted(s, a)
  {
    hide ResultMatches, StartAuthorize, StartAcknowledge, StartCreate, EnterCommit, ResumeCreate, ResumeRun;
    if !a.Resume? {
      StartOrder(s, a);
    } else if a.session in s.tasks && Resumable(s, s.tasks[a.session]) {
      var t := s.tasks[a.session];
      if t.Creating? {
        CreateOrder(s, a, t);
      } else if t.Running? {
        RunOrder(s, a);
      } else {
        hide ResumeTask;
        ResumeOrder(s, a, t);
      }
    } else {
      NotResumable(s, a.session, a.reply, a.now, a.id, a.nonce);
    }
  }

  /** The completion table always holds exactly the last 256 completed proposals, so only the oldest is ever forgotten. */
  lemma {:induction false} RecentRemembered(states: seq<State>, actions: seq<Action>, k: nat)
    requires Run(states, actions) && k < |states|
    ensures states[k].completedOrder == Recent(Completions(states, actions, k))
  {
    hide Step, NewlyCompleted, Recent;
    if k == 0 {
      assert Recent([]) == [] by { NothingRecent(); }
    } else {
      var s, a := states[k - 1], actions[k - 1];
      assert states[k] == Step(s, a);
      RecentRemembered(states, actions, k - 1);
      StepOrder(s, a);
      OrderFollows(Completions(states, actions, k - 1), s, a);
    }
  }

  lemma NothingRecent()
    ensures Recent([]) == []
  {
  }

  lemma OrderFollows(all: seq<string>, s: State, a: Action)
    requires s.completedOrder == Recent(all)
    ensures Recent(all + NewlyCompleted(s, a)) ==
      if NewlyCompleted(s, a) == [] then s.completedOrder
      else (if |s.completedOrder| >= IDEMPOTENCY_LIMIT then s.completedOrder[1..] else s.completedOrder) + NewlyCompleted(s, a)
  {
    var new' := NewlyCompleted(s, a);
    if new' == [] {
      assert all + new' == all;
    } else {
      RecentAppended(all, new'[0]);
      assert new' == [new'[0]];
    }
  }
}

/** Where a Team Runner call comes from: the actions of the run that led to it, in order. */
module CoordinatorHistory {
  import opened Contracts
  import opened Coordinator
  import opened CoordinatorRuns
  import opened Sequences

  predicate AsksFor(r: Request, p: Proposal, transport: Transport) {
    r.transport == transport && r.identity == p.identity && r.connectionId == p.connectionId && r.challenge == p.challenge && r.target == p.target
  }

  // ---- What one action does to a proposal, a task and the calls. ----

  /** The proposal keeps its story, or loses part of it. */
  predicate SameStory(p: Pending, q: Pending) {
    && q.proposal == p.proposal && q.transport == p.transport
    && (q.authorization.Some? ==> q.authorization == p.authorization && q.deadline == p.deadline)
    && (q.acknowledgement.Some? ==> q.acknowledgement == p.acknowledgement)
  }

  /** The proposal is new, or the operation of its session has just taken it one stage further. */
  predicate NewStory(s: State, a: Action, id: string, q: Pending) {
    && a.Resume? && a.session in s.tasks
    && match s.tasks[a.session]
       case Creating(request, _, _) =>
         id !in s.pendingById && AsksFor(request, q.proposal, q.transport) && q.authorization == None && q.acknowledgement == None
       case Verifying(i, authorization) =>
         && i == id && id in s.pendingById && q.proposal == s.pendingById[id].proposal && q.transport == s.pendingById[id].transport
         && a.reply == Verdict(true) && q.authorization == Some(authorization) && q.deadline == Some(a.now + ACK_TIMEOUT_MS) && q.acknowledgement == None
       case Reconciling(i, ack, _, _) =>
         && i == id && id in s.pendingById && q.proposal == s.pendingById[id].proposal && q.transport == s.pendingById[id].transport
         && q.authorization == s.pendingById[id].authorization && q.deadline == s.pendingById[id].deadline && q.acknowledgement == Some(ack)
       case _ => false
  }

  predicate Story(s: State, a: Action, id: string, q: Pending) {
    (id in s.pendingById && SameStory(s.pendingById[id], q)) || NewStory(s, a, id, q)
  }

  lemma CreateStory(s: State, a: Action, t: Task, id: string)
    requires a.Resume? && a.session in s.tasks && s.tasks[a.session] == t && t.Creating? && s.pendingById.Keys <= s.issued
    ensures var later := ResumeCreate(s, a.session, t, a.reply, a.now, a.id, a.nonce);
      id in later.pendingById ==> Story(s, a, id, later.pendingById[id])
  {
    hide Eligible;
    match t.stage
    case ReadSession =>
    case ReadConnection =>
    case ReadLocal =>
    case ReadOccupied =>
    case _ =>
  }

  lemma VerifyStory(s: State, a: Action, t: Task, id: string)
    requires a.Resume? && a.session in s.tasks && s.tasks[a.session] == t && t.Verifying? && t.id in s.pendingById
    requires s.pendingById[t.id].acknowledgement == None && s.pendingById[t.id].proposal.id == t.id
    ensures var later := ResumeVerify(s, a.session, t, a.reply, a.now);
      id in later.pendingById ==> Story(s, a, id, later.pendingById[id])
  {
  }

  lemma ResumeStory(s: State, a: Action, t: Task, id: string)
    requires a.Resume? && a.session in s.tasks && s.tasks[a.session] == t && Resumable(s, t) && !t.Creating? && !t.Verifying?
    requires t.Requesting? || t.Reconciling? ==> s.pendingById[t.id].proposal.id == t.id
    ensures var later := ResumeTask(s, a.session, a.reply, a.now, a.id, a.nonce);
      id in later.pendingById ==> Story(s, a, id, later.pendingById[id])
  {
    hide ReadStep, ResultMatches, RememberAuthorization;
    match t
    case Requesting(_, _) =>
    case Reconciling(_, _, _, _) =>
    case Committing(_, _, _) =>
    case Running(_) =>
    case _ =>
  }

  lemma AuthorizeStory(s: State, a: Action, id: string)
    requires a.Authorize? && id in Step(s, a).pendingById
    ensures id in s.pendingById && Step(s, a).pendingById[id] == s.pendingById[id]
  {
    hide AuthorizationMatches, StartAcknowledge;
  }

  lemma AcknowledgeStory(s: State, a: Action, id: string)
    requires a.Acknowledge? && id in Step(s, a).pendingById
    ensures id in s.pendingById && Step(s, a).pendingById[id] == s.pendingById[id]
  {
    hide RetryMatches, AcknowledgementMatches, StartAuthorize;
  }

  lemma StartStory(s: State, a: Action, id: string)
    requires !a.Resume? && id in Step(s, a).pendingById
    ensures id in s.pendingById && SameStory(s.pendingById[id], Step(s, a).pendingById[id])
  {
    match a
    case Authorize(_, _, _) => AuthorizeStory(s, a, id);
    case Acknowledge(_, _, _) => AcknowledgeStory(s, a, id);
    case _ => hide StartAuthorize, StartAcknowledge;
  }

  lemma PendingStory(s: State, a: Action, id: string)
    requires Valid(s) && id in Step(s, a).pendingById
    ensures Story(s, a, id, Step(s, a).pendingById[id])
  {
    hide ResumeCreate, NewStory, Valid, Called, StartAuthorize, StartAcknowledge, SameStory;
    if !a.Resume? {
      StartStory(s, a, id);
    } else if a.session in s.tasks && Resumable(s, s.tasks[a.session]) {
      var t := s.tasks[a.session];
      Facts(s, a.session);
      if t.Creating? {
        PendingsIssued(s);
        CreateStory(s, a, t, id);
      } else {
        if t.Verifying? || t.Requesting? || t.Reconciling? { PendingFacts(s, t.id); }
        if t.Verifying? { VerifyStory(s, a, t, id); return; }
        hide ResumeTask, PendingOk, TaskOk;
        ResumeStory(s, a, t, id);
      }
    } else {
      NotResumable(s, a.session, a.reply, a.now, a.id, a.nonce);
      assert SameStory(s.pendingById[id], s.pendingById[id]) by { SameStoryIsReflexive(s.pendingById[id]); }
    }
  }

  lemma SameStoryIsReflexive(p: Pending)
    ensures SameStory(p, p)
  {
  }

  lemma PendingsIssued(s: State)
    requires Valid(s)
    ensures s.pendingById.Keys <= s.issued
  {
    forall id | id in s.pendingById ensures id in s.issued {
      PendingFacts(s, id);
    }
  }

  /** `a` is the reply that the operation of `x` waited for as `t`. */
  predicate Replies(s: State, a: Action, x: string, t: Task) {
    a.Resume? && a.session == x && x in s.tasks && s.tasks[x] == t
  }

  /** `a` is a reply to the commit of proposal `id` in session `x`, waiting at `stage`. */
  predicate RepliesAt(s: State, a: Action, x: string, id: string, stage: Stage) {
    a.Resume? && a.session == x && x in s.tasks && s.tasks[x].Committing? && s.tasks[x].id == id && s.tasks[x].stage == stage
  }

  /** What has brought the operation of `x` to wait as `t`. */
  predicate Entered(s: State, a: Action, x: string, t: Task) {
    match t
    case Creating(r, _, _) => a == Create(r) || (a.Resume? && a.session == x && x in s.tasks && s.tasks[x].Creating? && s.tasks[x].request == r)
    case Verifying(id, auth) => a.Authorize? && a.id == id && a.authorization == auth && id in s.pendingById
    case Reconciling(id, ack, _, _) =>
      || (a.Acknowledge? && a.acknowledgement == ack && id in s.pendingById && a.transport == s.pendingById[id].transport
          && s.pendingById[id].deadline.Some? && a.now < s.pendingById[id].deadline.value && x !in s.tasks)
      || (a.Resume? && a.session == x && x in s.tasks && s.tasks[x].Reconciling? && s.tasks[x].id == id && s.tasks[x].acknowledgement == ack)
    case AwaitingCommit(id) =>
      && a.Resume? && a.session == x && x in s.tasks && s.tasks[x].Reconciling? && s.tasks[x].id == id
      && s.tasks[x].stage == ReadManaged && a.reply == Verdict(false)
    case Committing(id, o, stage) => CommitEntered(s, a, x, id, o, stage)
    case Running(id) => RepliesAt(s, a, x, id, ReadManaged) && a.reply == Verdict(false)
    case _ => true
  }

  /** The lock grant, then one favourable reply for each read inside the lock, in this order. */
  predicate CommitEntered(s: State, a: Action, x: string, id: string, o: Option<Observed>, stage: Stage) {
    match stage
    case ReadSession => a == GrantCommit(x) && x in s.tasks && s.tasks[x] == AwaitingCommit(id) && s.commitHolder == None
    case ReadLatest => RepliesAt(s, a, x, id, ReadSession) && a.reply.Session? && a.reply.observed.Some?
    case ReadConnection => RepliesAt(s, a, x, id, ReadLatest) && o.Some? && a.reply == Session(o)
    case ReadRevision => Replies(s, a, x, Committing(id, o, ReadConnection)) && a.reply == Verdict(true)
    case ReadLocal =>
      Replies(s, a, x, Committing(id, o, ReadRevision)) && id in s.pendingById && a.reply == Revision(s.pendingById[id].proposal.revision)
    case ReadOccupied => Replies(s, a, x, Committing(id, o, ReadLocal)) && a.reply == Verdict(true)
    case ReadManaged => Replies(s, a, x, Committing(id, o, ReadOccupied)) && a.reply == Verdict(false)
  }

  function TaskAt(s: State, x: string): Option<Task> {
    if x in s.tasks then Some(s.tasks[x]) else None
  }

  predicate TaskStory(s: State, a: Action, x: string, t: Task) {
    TaskAt(s, x) == Some(t) || Entered(s, a, x, t)
  }

  lemma StartTask(s: State, a: Action, x: string)
    requires !a.Resume? && x in Step(s, a).tasks
    ensures TaskStory(s, a, x, Step(s, a).tasks[x])
  {
    match a
    case Authorize(_, _, _) => AuthorizeTask(s, a, x);
    case Acknowledge(_, _, _) => AcknowledgeTask(s, a, x);
    case _ => hide StartAuthorize, StartAcknowledge;
  }

  lemma AuthorizeTask(s: State, a: Action, x: string)
    requires a.Authorize? && x in Step(s, a).tasks
    ensures TaskStory(s, a, x, Step(s, a).tasks[x])
  {
    hide AuthorizationMatches, StartAcknowledge;
  }

  lemma AcknowledgeTask(s: State, a: Action, x: string)
    requires a.Acknowledge? && x in Step(s, a).tasks
    ensures TaskStory(s, a, x, Step(s, a).tasks[x])
  {
    var id := a.acknowledgement.proposalId;
    RemovedTasks(s, id);
    hide RetryMatches, AcknowledgementMatches, StartAuthorize, RemovePending, StartDeliver;
    if id in s.completedOrder && id in s.completed {
      RetryTask(s, a, id, x);
    }
  }

  lemma RetryTask(s: State, a: Action, id: string, x: string)
    requires id in s.completed && a.Acknowledge?
    ensures var later := StartDeliver(s, s.completed[id].proposal.identity.session, id);
      x in later.tasks ==> TaskStory(s, a, x, later.tasks[x])
  {
  }

  lemma RemovedTasks(s: State, id: string)
    ensures RemovePending(s, id).tasks == s.tasks
  {
  }

  lemma CheckedTasks(s: State, session: string, now: nat)
    ensures CheckPending(s, session, now).Some? ==> CheckPending(s, session, now).value.tasks == s.tasks
  {
  }

  lemma CreateTask(s: State, a: Action, t: Task, x: string)
    requires a.Resume? && a.session in s.tasks && s.tasks[a.session] == t && t.Creating?
    ensures var later := ResumeCreate(s, a.session, t, a.reply, a.now, a.id, a.nonce);
      x in later.tasks ==> TaskStory(s, a, x, later.tasks[x])
  {
    hide Eligible, RecordConnection, CheckPending;
    CheckedTasks(s, a.session, a.now);
    match t.stage
    case ReadSession =>
    case ReadConnection =>
    case ReadLocal =>
    case ReadOccupied =>
    case _ =>
  }

  lemma EarlyTask(s: State, a: Action, t: Task, x: string)
    requires a.Resume? && a.session in s.tasks && s.tasks[a.session] == t && Resumable(s, t)
    requires t.Verifying? || t.Requesting? || t.Reconciling?
    ensures var later := ResumeTask(s, a.session, a.reply, a.now, a.id, a.nonce);
      x in later.tasks ==> TaskStory(s, a, x, later.tasks[x])
  {
    hide ReadStep, RememberAuthorization, ResumeCreate, ResumeCommit, ResumeRun, ResumeDeliver;
    match t
    case Verifying(_, _) =>
    case Requesting(_, _) =>
    case _ =>
  }

  lemma LateTask(s: State, a: Action, t: Task, x: string)
    requires a.Resume? && a.session in s.tasks && s.tasks[a.session] == t && Resumable(s, t)
    requires t.Committing? || t.Running? || t.Presenting? || t.Delivering?
    ensures var later := ResumeTask(s, a.session, a.reply, a.now, a.id, a.nonce);
      x in later.tasks ==> TaskStory(s, a, x, later.tasks[x])
  {
    match t
    case Committing(_, _, _) => CommitTask(s, a, t, x);
    case Running(_) => RunTask(s, a, t, x);
    case _ => hide ResumeCommit, ResumeRun;
  }

  lemma CommitTask(s: State, a: Action, t: Task, x: string)
    requires a.Resume? && a.session in s.tasks && s.tasks[a.session] == t && t.Committing? && t.id in s.pendingById
    ensures var later := ResumeCommit(s, a.session, t, a.reply, a.now);
      x in later.tasks ==> TaskStory(s, a, x, later.tasks[x])
  {
    var p := s.pendingById[t.id];
    if p.acknowledgement.Some? {
      ReadEntered(s, a, t, p, p.acknowledgement.value);
    }
    hide ReadStep, CommitEntered;
  }

  lemma ReadEntered(s: State, a: Action, t: Task, p: Pending, ack: Acknowledgement)
    requires a.Resume? && a.session in s.tasks && s.tasks[a.session] == t && t.Committing? && t.id in s.pendingById && p == s.pendingById[t.id]
    ensures var next := ReadStep(p.proposal, ack, true, t.observed, t.stage, a.reply);
      next.Some? ==> CommitEntered(s, a, a.session, t.id, next.value.0, next.value.1)
  {
    hide Eligible, SequenceCurrent, RecordConnection;
  }

  lemma RunTask(s: State, a: Action, t: Task, x: string)
    requires a.Resume? && a.session in s.tasks && s.tasks[a.session] == t && t.Running? && t.id in s.pendingById
    ensures var later := ResumeRun(s, a.session, t, a.reply);
      x in later.tasks ==> TaskStory(s, a, x, later.tasks[x])
  {
    hide ResultMatches;
  }

  lemma TasksStory(s: State, a: Action, x: string)
    requires x in Step(s, a).tasks
    ensures TaskStory(s, a, x, Step(s, a).tasks[x])
  {
    hide ResumeCreate, StartAuthorize, StartAcknowledge, TaskStory;
    if !a.Resume? {
      StartTask(s, a, x);
    } else if a.session in s.tasks && Resumable(s, s.tasks[a.session]) {
      var t := s.tasks[a.session];
      if t.Creating? {
        CreateTask(s, a, t, x);
      } else {
        hide ResumeTask;
        if t.Verifying? || t.Requesting? || t.Reconciling? { EarlyTask(s, a, t, x); } else { LateTask(s, a, t, x); }
      }
    } else {
      NotResumable(s, a.session, a.reply, a.now, a.id, a.nonce);
      TaskAsBefore(s, a, x);
    }
  }

  lemma TaskAsBefore(s: State, a: Action, x: string)
    requires x in s.tasks
    ensures TaskStory(s, a, x, s.tasks[x])
  {
  }

  /** The call is made by the last favourable reply inside the lock, on the record read there. */
  predicate CallStory(s: State, a: Action, c: RunnerCall) {
    && a.Resume? && c.time == a.now && a.reply == Verdict(false) && c.proposal.id in s.pendingById
    && a.session in s.tasks && s.tasks[a.session] == Committing(c.proposal.id, Some(c.observed), ReadManaged)
    && var p := s.pendingById[c.proposal.id];
    c.proposal == p.proposal && c.transport == p.transport && p.authorization == Some(c.authorization)
    && p.acknowledgement == Some(c.acknowledgement) && p.deadline == Some(c.deadline)
  }

  lemma StartCalls(s: State, a: Action)
    requires !a.Resume?
    ensures Step(s, a).calls == s.calls
  {
    hide RetryMatches, AcknowledgementMatches, AuthorizationMatches;
  }

  lemma CommitCalls(s: State, a: Action, t: Task)
    requires a.Resume? && a.session in s.tasks && s.tasks[a.session] == t && t.Committing?
    requires t.id in s.pendingById && s.pendingById[t.id].proposal.id == t.id
    ensures var later := ResumeCommit(s, a.session, t, a.reply, a.now);
      later.calls == s.calls || (later.calls != [] && later.calls[..|later.calls| - 1] == s.calls && CallStory(s, a, later.calls[|later.calls| - 1]))
  {
    hide ReadStep;
  }

  lemma RunCalls(s: State, a: Action, t: Task)
    requires a.Resume? && t.Running? && t.id in s.pendingById
    ensures ResumeRun(s, a.session, t, a.reply).calls == s.calls
  {
    hide ResultMatches;
  }

  lemma DeliverCalls(s: State, a: Action, t: Task)
    requires a.Resume? && (t.Presenting? || t.Delivering?) && t.id in s.completed
    ensures ResumeDeliver(s, a.session, t, a.reply).calls == s.calls
  {
  }

  lemma QuietCalls(s: State, a: Action, t: Task)
    requires a.Resume? && a.session in s.tasks && t == s.tasks[a.session] && Resumable(s, t)
    requires t.Creating? || t.Verifying? || t.Requesting? || t.Reconciling?
    ensures Step(s, a).calls == s.calls
  {
    hide ResumeCreate, ResumeVerify, ResumeRequest, ResumeReconcile;
    match t
    case Creating(_, _, _) => CreateQuiet(s, a.session, t, a.reply, a.now, a.id, a.nonce);
    case Verifying(_, _) => VerifyQuiet(s, a.session, t, a.reply, a.now);
    case Requesting(_, _) => RequestQuiet(s, a.session, t, a.reply);
    case Reconciling(_, _, _, _) => ReconcileQuiet(s, a.session, t, a.reply);
  }

  lemma CallsStory(s: State, a: Action)
    requires Valid(s)
    ensures var later := Step(s, a);
      later.calls == s.calls || (later.calls != [] && later.calls[..|later.calls| - 1] == s.calls && CallStory(s, a, later.calls[|later.calls| - 1]))
  {
    hide Valid, Called, Grows, Quiet, TaskOk, ResumeCreate, ResumeVerify, ResumeRequest, ResumeReconcile, ResumeCommit, ResumeRun, ResumeDeliver,
      StartAuthorize, StartAcknowledge, StartCreate, RemovePending, PendingOk, CallStory;
    if !a.Resume? {
      StartCalls(s, a);
    } else if a.session in s.tasks && Resumable(s, s.tasks[a.session]) {
      var t := s.tasks[a.session];
      match t
      case Committing(id, _, _) => PendingFacts(s, id); CommitCalls(s, a, t);
      case Running(_) => RunCalls(s, a, t);
      case Presenting(_) => DeliverCalls(s, a, t);
      case Delivering(_) => DeliverCalls(s, a, t);
      case _ => QuietCalls(s, a, t);
    } else {
      NotResumable(s, a.session, a.reply, a.now, a.id, a.nonce);
    }
  }

  // ---- Back through a run. ----

  /** A proposal that stays is the same proposal, and what an operation in flight rests on stays with it. */
  lemma StoryKept(s: State, a: Action, id: string, q: Pending)
    requires id in s.pendingById && Story(s, a, id, q)
    ensures q.proposal == s.pendingById[id].proposal && q.transport == s.pendingById[id].transport
    ensures q.authorization.Some? && !(a.Resume? && a.session in s.tasks && s.tasks[a.session].Verifying? && s.tasks[a.session].id == id) ==>
      q.authorization == s.pendingById[id].authorization && q.deadline == s.pendingById[id].deadline
  {
  }

  /** When the operation of `x` came to wait as it does: nothing has moved it since. */
  lemma {:induction false} WaitingSince(states: seq<State>, actions: seq<Action>, k: nat, x: string) returns (m: nat)
    requires Run(states, actions) && k < |states| && x in states[k].tasks
    ensures m < k && Entered(states[m], actions[m], x, states[k].tasks[x])
    ensures forall j :: m < j <= k ==> TaskAt(states[j], x) == Some(states[k].tasks[x])
    decreases k
  {
    hide Step, Entered;
    if k == 0 {
      assert false;
    } else {
      var s, a := states[k - 1], actions[k - 1];
      assert states[k] == Step(s, a);
      TasksStory(s, a, x);
      if TaskAt(s, x) == Some(states[k].tasks[x]) {
        m := WaitingSince(states, actions, k - 1, x);
      } else {
        m := k - 1;
      }
    }
  }

  /** The request a creation in flight works on. */
  lemma {:induction false} RequestedAt(states: seq<State>, actions: seq<Action>, k: nat, x: string) returns (m: nat)
    requires Run(states, actions) && k < |states| && x in states[k].tasks && states[k].tasks[x].Creating?
    ensures m < k && actions[m] == Create(states[k].tasks[x].request)
    decreases k
  {
    m := WaitingSince(states, actions, k, x);
    hide Run;
    if actions[m] != Create(states[k].tasks[x].request) {
      m := RequestedAt(states, actions, m, x);
    }
  }

  /** The last read of the creation that made a pending proposal. */
  lemma {:induction false} CreatedAt(states: seq<State>, actions: seq<Action>, k: nat, id: string) returns (m: nat)
    requires Run(states, actions) && k < |states| && id in states[k].pendingById
    ensures m < k && actions[m].Resume? && actions[m].session in states[m].tasks && states[m].tasks[actions[m].session].Creating?
    ensures AsksFor(states[m].tasks[actions[m].session].request, states[k].pendingById[id].proposal, states[k].pendingById[id].transport)
    decreases k
  {
    hide Step, AsksFor;
    if k == 0 {
      assert false;
    } else {
      var s, a := states[k - 1], actions[k - 1];
      assert states[k] == Step(s, a);
      RunValid(states, actions, k - 1);
      PendingStory(s, a, id);
      m := k - 1;
      if id in s.pendingById {
        StoryKept(s, a, id, states[k].pendingById[id]);
        m := CreatedAt(states, actions, k - 1, id);
      }
    }
  }

  /** The two states carry the same proposal `id` with the same authorization. */
  predicate SameAuthorization(s: State, later: State, id: string) {
    id in s.pendingById && id in later.pendingById
    && var p, q := s.pendingById[id], later.pendingById[id];
    q.proposal == p.proposal && q.transport == p.transport && q.authorization == p.authorization && q.deadline == p.deadline
  }

  /** The consent that authorized a pending proposal: it has stood since. */
  lemma {:induction false} AuthorizedSince(states: seq<State>, actions: seq<Action>, k: nat, id: string) returns (m: nat)
    requires Run(states, actions) && k < |states| && id in states[k].pendingById
    requires states[k].pendingById[id].authorization.Some? && states[k].pendingById[id].deadline.Some?
    ensures m < k && actions[m].Resume? && actions[m].reply == Verdict(true)
    ensures var p := states[k].pendingById[id];
      TaskAt(states[m], actions[m].session) == Some(Verifying(id, p.authorization.value)) && actions[m].now + ACK_TIMEOUT_MS == p.deadline.value
    ensures forall j :: m < j <= k ==> SameAuthorization(states[j], states[k], id)
    decreases k
  {
    hide Step;
    if k == 0 {
      assert false;
    } else {
      var s, a := states[k - 1], actions[k - 1];
      assert states[k] == Step(s, a);
      RunValid(states, actions, k - 1);
      PendingStory(s, a, id);
      StoryCase(s, states[k], a, id);
      hide Story;
      if SameAuthorization(s, states[k], id) {
        m := AuthorizedSince(states, actions, k - 1, id);
      } else {
        m := k - 1;
      }
    }
  }

  lemma StoryCase(s: State, later: State, a: Action, id: string)
    requires id in later.pendingById && Story(s, a, id, later.pendingById[id]) && later.pendingById[id].authorization.Some?
    ensures SameAuthorization(s, later, id)
      || (a.Resume? && a.reply == Verdict(true) && later.pendingById[id].deadline == Some(a.now + ACK_TIMEOUT_MS)
          && TaskAt(s, a.session) == Some(Verifying(id, later.pendingById[id].authorization.value)))
  {
  }

  /** A proposal that has been pending all along is the same proposal. */
  lemma {:induction false} SameProposal(states: seq<State>, actions: seq<Action>, i: nat, j: nat, id: string)
    requires Run(states, actions) && i <= j < |states| && forall n :: i <= n <= j ==> id in states[n].pendingById
    ensures states[i].pendingById[id].proposal == states[j].pendingById[id].proposal
    ensures states[i].pendingById[id].transport == states[j].pendingById[id].transport
    decreases j
  {
    hide Step, Story;
    if i < j {
      SameProposal(states, actions, i, j - 1, id);
      RunValid(states, actions, j - 1);
      assert states[j] == Step(states[j - 1], actions[j - 1]);
      PendingStory(states[j - 1], actions[j - 1], id);
      StoryKept(states[j - 1], actions[j - 1], id, states[j].pendingById[id]);
    }
  }

  // ---- Behind a call. ----

  /** The actions behind a Team Runner call, by their places in the run. */
  datatype Trace = Trace(
    requested: nat, authorized: nat, verified: nat, acknowledged: nat,
    granted: nat, first: nat, latest: nat, connection: nat, revision: nat, local: nat, occupied: nat, called: nat)

  predicate Answered(actions: seq<Action>, m: nat, x: string, reply: Reply) {
    m < |actions| && actions[m].Resume? && actions[m].session == x && actions[m].reply == reply
  }

  /** Working on proposal `id` from its acknowledgement to its call. */
  predicate WorksOn(t: Option<Task>, id: string) {
    t.Some? && (t.value.Reconciling? || t.value.AwaitingCommit? || t.value.Committing?) && t.value.id == id
  }

  /** The lock is granted, and every read inside it is answered favourably and in order, up to the call. */
  ghost predicate ReadInLock(states: seq<State>, actions: seq<Action>, x: string, p: Proposal, o: Observed, t: Trace) {
    && t.granted < t.first < t.latest < t.connection < t.revision < t.local < t.occupied < t.called < |actions| < |states|
    && actions[t.granted] == GrantCommit(x) && TaskAt(states[t.granted], x) == Some(AwaitingCommit(p.id))
    && (exists any :: Answered(actions, t.first, x, Session(Some(any))))
    && Answered(actions, t.latest, x, Session(Some(o)))
    && Answered(actions, t.connection, x, Verdict(true))
    && Answered(actions, t.revision, x, Revision(p.revision))
    && Answered(actions, t.local, x, Verdict(true))
    && Answered(actions, t.occupied, x, Verdict(false))
    && Answered(actions, t.called, x, Verdict(false)) && TaskAt(states[t.called], x) == Some(Committing(p.id, Some(o), ReadManaged))
    && forall j :: t.granted < j <= t.called ==> InLock(states[j], x, p.id)
  }

  /** Session `x` holds the commit lock and waits for a read on proposal `id`. */
  predicate InLock(s: State, x: string, id: string) {
    s.commitHolder == Some(x) && x in s.tasks && s.tasks[x].Committing? && s.tasks[x].id == id
  }

  lemma TaskPending(states: seq<State>, actions: seq<Action>, j: nat, x: string)
    requires Run(states, actions) && j < |states| && x in states[j].tasks
    ensures var t := states[j].tasks[x];
      t.Verifying? || t.Reconciling? || t.AwaitingCommit? || t.Committing? ==> t.id in states[j].pendingById && states[j].pendingById[t.id].proposal.identity.session == x
    ensures states[j].tasks[x].Committing? ==> states[j].commitHolder == Some(x)
  {
    RunValid(states, actions, j);
    Facts(states[j], x);
  }

  /** What brought a commit to its present read, and that it has held the lock since. */
  lemma LockedSince(states: seq<State>, actions: seq<Action>, k: nat, x: string) returns (m: nat)
    requires Run(states, actions) && k < |states| && x in states[k].tasks && states[k].tasks[x].Committing?
    ensures m < k && var t := states[k].tasks[x]; CommitEntered(states[m], actions[m], x, t.id, t.observed, t.stage)
    ensures forall j :: m < j <= k ==> InLock(states[j], x, states[k].tasks[x].id)
  {
    hide CommitEntered;
    m := WaitingSince(states, actions, k, x);
    forall j | m < j <= k ensures InLock(states[j], x, states[k].tasks[x].id) {
      TaskPending(states, actions, j, x);
    }
  }

  lemma LockTrace(states: seq<State>, actions: seq<Action>, called: nat, x: string, id: string, o: Observed) returns (t: Trace)
    requires Run(states, actions) && called < |actions| && id in states[called].pendingById
    requires TaskAt(states[called], x) == Some(Committing(id, Some(o), ReadManaged)) && Answered(actions, called, x, Verdict(false))
    requires states[called].pendingById[id].proposal.id == id
    ensures t.called == called && ReadInLock(states, actions, x, states[called].pendingById[id].proposal, o, t)
  {
    RunLength(states, actions);
    hide Run, InLock;
    var occupied := LockedSince(states, actions, called, x);
    var local := LockedSince(states, actions, occupied, x);
    var revision := LockedSince(states, actions, local, x);
    var connection := LockedSince(states, actions, revision, x);
    var latest := LockedSince(states, actions, connection, x);
    var first := LockedSince(states, actions, latest, x);
    var granted := LockedSince(states, actions, first, x);
    forall n | revision <= n <= called ensures id in states[n].pendingById {
      LockPending(states, actions, n, x, id);
    }
    SameProposal(states, actions, revision, called, id);
    t := Trace(0, 0, 0, 0, granted, first, latest, connection, revision, local, occupied, called);
    assert Answered(actions, first, x, Session(Some(actions[first].reply.observed.value)));
  }

  lemma LockPending(states: seq<State>, actions: seq<Action>, n: nat, x: string, id: string)
    requires Run(states, actions) && n < |states| && InLock(states[n], x, id)
    ensures id in states[n].pendingById
  {
    TaskPending(states, actions, n, x);
  }

  lemma RunLength(states: seq<State>, actions: seq<Action>)
    requires Run(states, actions)
    ensures |states| == |actions| + 1
  {
  }

  /** The acknowledgement that a reconciliation in progress works on, and that it has worked on it since. */
  lemma {:induction false} AcknowledgedSince(states: seq<State>, actions: seq<Action>, k: nat, x: string) returns (m: nat)
    requires Run(states, actions) && k < |states| && x in states[k].tasks && states[k].tasks[x].Reconciling?
    ensures var t := states[k].tasks[x];
      && m < k && actions[m].Acknowledge? && actions[m].acknowledgement == t.acknowledgement && t.id in states[m].pendingById
      && actions[m].transport == states[m].pendingById[t.id].transport
      && states[m].pendingById[t.id].deadline.Some? && actions[m].now < states[m].pendingById[t.id].deadline.value
    ensures forall j :: m < j <= k ==> WorksOn(TaskAt(states[j], x), states[k].tasks[x].id)
    decreases k
  {
    m := WaitingSince(states, actions, k, x);
    hide Run;
    if !actions[m].Acknowledge? {
      m := AcknowledgedSince(states, actions, m, x);
    }
  }

  /** The reconciliation that recorded the acknowledgement of a pending proposal: it has stood since. */
  lemma {:induction false} ReconciledSince(states: seq<State>, actions: seq<Action>, k: nat, id: string) returns (m: nat)
    requires Run(states, actions) && k < |states| && id in states[k].pendingById && states[k].pendingById[id].acknowledgement.Some?
    ensures m < k && actions[m].Resume?
    ensures var t := TaskAt(states[m], actions[m].session);
      t.Some? && t.value.Reconciling? && t.value.id == id && Some(t.value.acknowledgement) == states[k].pendingById[id].acknowledgement
    ensures forall j :: m < j <= k ==> id in states[j].pendingById && states[j].pendingById[id].acknowledgement.Some?
    decreases k
  {
    hide Step;
    if k == 0 {
      assert false;
    } else {
      var s, a := states[k - 1], actions[k - 1];
      assert states[k] == Step(s, a);
      RunValid(states, actions, k - 1);
      PendingStory(s, a, id);
      m := k - 1;
      if id in s.pendingById && s.pendingById[id].acknowledgement == states[k].pendingById[id].acknowledgement {
        m := ReconciledSince(states, actions, k - 1, id);
      }
    }
  }

  /** The stretch from the acknowledgement to the lock: one operation, on one proposal, without a break. */
  lemma AcknowledgementTrace(states: seq<State>, actions: seq<Action>, granted: nat, called: nat, x: string, id: string) returns (m: nat)
    requires Run(states, actions) && granted < called < |states|
    requires TaskAt(states[granted], x) == Some(AwaitingCommit(id)) && forall j :: granted < j <= called ==> InLock(states[j], x, id)
    requires id in states[called].pendingById && states[called].pendingById[id].acknowledgement.Some?
    ensures m < granted && actions[m].Acknowledge? && Some(actions[m].acknowledgement) == states[called].pendingById[id].acknowledgement
    ensures id in states[m].pendingById && actions[m].transport == states[m].pendingById[id].transport
    ensures states[m].pendingById[id].deadline.Some? && actions[m].now < states[m].pendingById[id].deadline.value
    ensures forall j :: m < j <= called ==> WorksOn(TaskAt(states[j], x), id)
  {
    var w := WaitingSince(states, actions, granted, x);
    var r := ReconciledSince(states, actions, called, id);
    assert Entered(states[w], actions[w], x, AwaitingCommit(id));
    OneReconciliation(states, actions, w, r, granted, called, x, id);
    hide Run;
    m := AcknowledgedSince(states, actions, w, x);
  }

  lemma OneReconciliation(states: seq<State>, actions: seq<Action>, w: nat, r: nat, granted: nat, called: nat, x: string, id: string)
    requires Run(states, actions) && w < granted < called < |states| && r < called
    requires x in states[w].tasks && states[w].tasks[x].Reconciling? && states[w].tasks[x].id == id
    requires forall j :: w < j <= granted ==> TaskAt(states[j], x) == Some(AwaitingCommit(id))
    requires forall j :: granted < j <= called ==> InLock(states[j], x, id)
    requires actions[r].Resume? && actions[r].session in states[r].tasks
    requires states[r].tasks[actions[r].session].Reconciling? && states[r].tasks[actions[r].session].id == id
    requires forall j :: r < j <= called ==> id in states[j].pendingById && states[j].pendingById[id].acknowledgement.Some?
    ensures r == w
  {
    TaskPending(states, actions, r, actions[r].session);
    TaskPending(states, actions, called, x);
    SameProposal(states, actions, r, called, id);
    if r < w {
      RunValid(states, actions, w);
      Facts(states[w], x);
      PendingFacts(states[w], id);
      assert false;
    } else if w < r {
      assert false;
    }
  }

  /** The reply that made call `i`. */
  lemma {:induction false} CallMade(states: seq<State>, actions: seq<Action>, k: nat, i: nat) returns (m: nat)
    requires Run(states, actions) && k < |states| && i < |states[k].calls|
    ensures m < k && CallStory(states[m], actions[m], states[k].calls[i])
    ensures states[m].calls == states[k].calls[..i] && states[m + 1].calls == states[k].calls[..i + 1]
    decreases k
  {
    hide Step, CallStory;
    if k == 0 {
      assert false;
    } else {
      var s, a := states[k - 1], actions[k - 1];
      assert states[k] == Step(s, a);
      RunValid(states, actions, k - 1);
      CallsStory(s, a);
      m := k - 1;
      if i < |s.calls| {
        assert s.calls[i] == states[k].calls[i] && s.calls[..i] == states[k].calls[..i] && s.calls[..i + 1] == states[k].calls[..i + 1];
        m := CallMade(states, actions, k - 1, i);
      } else {
        assert states[k].calls[..i + 1] == states[k].calls;
      }
    }
  }

  /** The request for the proposal, its authorization and the authorizer's consent, all in the proposal's own session. */
  ghost predicate Consented(states: seq<State>, actions: seq<Action>, c: RunnerCall, t: Trace) {
    && t.requested < t.authorized < t.verified < |actions| < |states|
    && actions[t.requested].Create? && AsksFor(actions[t.requested].request, c.proposal, c.transport)
    && actions[t.authorized].Authorize? && actions[t.authorized].id == c.proposal.id && actions[t.authorized].authorization == c.authorization
    && Answered(actions, t.verified, c.proposal.identity.session, Verdict(true))
    && TaskAt(states[t.verified], c.proposal.identity.session) == Some(Verifying(c.proposal.id, c.authorization))
    && actions[t.verified].now + ACK_TIMEOUT_MS == c.deadline
  }

  /** The acknowledgement on the proposal's own transport and in time, from which on its session works on nothing else. */
  ghost predicate Acknowledged(states: seq<State>, actions: seq<Action>, c: RunnerCall, t: Trace) {
    && t.acknowledged < t.granted < t.called < |actions| < |states|
    && actions[t.acknowledged].Acknowledge? && actions[t.acknowledged].transport == c.transport
    && actions[t.acknowledged].acknowledgement == c.acknowledgement && actions[t.acknowledged].now < c.deadline
    && forall j :: t.acknowledged < j <= t.called ==> WorksOn(TaskAt(states[j], c.proposal.identity.session), c.proposal.id)
  }

  /** The authorization part of the trace, from the state in which the call is made. */
  lemma ConsentTrace(states: seq<State>, actions: seq<Action>, called: nat, c: RunnerCall) returns (t: Trace)
    requires Run(states, actions) && called < |actions| && CallStory(states[called], actions[called], c)
    ensures Consented(states, actions, c, t)
    ensures forall j :: t.verified < j <= called ==> SameAuthorization(states[j], states[called], c.proposal.id)
    ensures t.verified < called
  {
    var id := c.proposal.id;
    RunLength(states, actions);
    var verified := AuthorizedSince(states, actions, called, id);
    var x := actions[verified].session;
    var authorized := WaitingSince(states, actions, verified, x);
    assert Entered(states[authorized], actions[authorized], x, Verifying(id, c.authorization));
    var created := CreatedAt(states, actions, authorized, id);
    var requested := RequestedAt(states, actions, created, actions[created].session);
    forall j | authorized <= j <= called ensures id in states[j].pendingById {
      if authorized < j <= verified {
        TaskPending(states, actions, j, x);
      }
    }
    SameProposal(states, actions, authorized, called, id);
    SameProposal(states, actions, verified, called, id);
    TaskPending(states, actions, verified, x);
    t := Trace(requested, authorized, verified, 0, 0, 0, 0, 0, 0, 0, 0, 0);
  }

  lemma TraceOf(states: seq<State>, actions: seq<Action>, called: nat, c: RunnerCall) returns (t: Trace)
    requires Run(states, actions) && called < |actions| && CallStory(states[called], actions[called], c)
    ensures t.verified < t.acknowledged && t.verified < called == t.called && |states| == |actions| + 1
    ensures actions[called].Resume? && actions[called].now == c.time && actions[t.verified].Resume? && actions[t.verified].now + ACK_TIMEOUT_MS == c.deadline
    ensures Consented(states, actions, c, t) && Acknowledged(states, actions, c, t)
    ensures ReadInLock(states, actions, c.proposal.identity.session, c.proposal, c.observed, t)
  {
    hide Run;
    RunLength(states, actions);
    var x, id := c.proposal.identity.session, c.proposal.id;
    var u := ConsentTrace(states, actions, called, c);
    CallSession(states, actions, called, c);
    var l := LockTrace(states, actions, called, x, id, c.observed);
    var m := AcknowledgementTrace(states, actions, l.granted, called, x, id);
    VerifiedFirst(states, actions, u.verified, m, called, x, id);
    t := l.(requested := u.requested, authorized := u.authorized, verified := u.verified, acknowledged := m);
    hide AsksFor, InLock, WorksOn, Entered;
  }

  lemma CallSession(states: seq<State>, actions: seq<Action>, called: nat, c: RunnerCall)
    requires Run(states, actions) && called < |actions| && called < |states| && CallStory(states[called], actions[called], c)
    ensures actions[called].session == c.proposal.identity.session
    ensures states[called].pendingById[c.proposal.id].proposal == c.proposal
  {
    TaskPending(states, actions, called, actions[called].session);
  }

  lemma VerifiedFirst(states: seq<State>, actions: seq<Action>, v: nat, m: nat, called: nat, x: string, id: string)
    requires |states| == |actions| + 1 && v < called < |actions| && m < called
    requires actions[v].Resume? && actions[m].Acknowledge? && TaskAt(states[v], x).Some? && TaskAt(states[v], x).value.Verifying?
    requires forall j :: m < j <= called ==> WorksOn(TaskAt(states[j], x), id)
    ensures v < m
  {
  }

  /**
   * Behind every call of the Team Runner stand, in this order: a request for the proposal on some transport, an authorization of
   * exactly this proposal, the authorizer's consent to it, an acknowledgement of it on that same transport before the deadline
   * counted from the consent, the commit lock, and a favourable answer to every read inside the lock. From the acknowledgement
   * to the call the session works on nothing else, and from the grant to the call it holds the lock.
   */
  lemma CallHasHistory(states: seq<State>, actions: seq<Action>, k: nat, i: nat) returns (t: Trace)
    requires Run(states, actions) && k < |states| && i < |states[k].calls|
    ensures var c := states[k].calls[i];
      && t.verified < t.acknowledged && t.called < k && states[t.called].calls + [c] == states[t.called + 1].calls
      && Consented(states, actions, c, t) && Acknowledged(states, actions, c, t)
      && ReadInLock(states, actions, c.proposal.identity.session, c.proposal, c.observed, t)
      && actions[t.called].now == c.time < actions[t.verified].now + c.remaining
  {
    hide Run, CallStory, Consented, Acknowledged, ReadInLock, CallOk, ReadsAgree, AcknowledgementMatches, AuthorizationMatches, SameAuthorization, InLock, WorksOn;
    var c := states[k].calls[i];
    RunLength(states, actions);
    var called := CallMade(states, actions, k, i);
    assert states[k].calls[..i + 1] == states[k].calls[..i] + [c];
    RunnerOnlyWhenAgreed(states, actions, k, i);
    t := TraceOf(states, actions, called, c);
  }

  // ---- One commit per role. ----

  /** The registry reports a role free only if no earlier commit took it. */
  predicate Truthful(s: State, a: Action) {
    a.Resume? && a.session in s.tasks && s.tasks[a.session].Committing? && s.tasks[a.session].stage == ReadOccupied
    && s.tasks[a.session].id in s.pendingById && a.reply == Verdict(false)
    ==> RoleOf(s.pendingById[s.tasks[a.session].id].proposal) !in s.commits
  }

  /** Past the occupancy read inside the lock. */
  predicate RoleRead(t: Task) {
    t.Running? || (t.Committing? && t.stage == ReadManaged)
  }

  ghost predicate RolesFree(s: State) {
    && Distinct(s.commits)
    && forall x :: x in s.tasks && RoleRead(s.tasks[x]) && s.tasks[x].id in s.pendingById ==>
         RoleOf(s.pendingById[s.tasks[x].id].proposal) !in s.commits
  }

  /** A commit is recorded by the return of the runner only, and then its operation is past the runner. */
  predicate CommitStory(s: State, a: Action, later: State) {
    || later.commits == s.commits
    || (a.Resume? && a.session in s.tasks && s.tasks[a.session].Running? && s.tasks[a.session].id in s.pendingById
        && later.commits == s.commits + [RoleOf(s.pendingById[s.tasks[a.session].id].proposal)]
        && (a.session in later.tasks ==> !RoleRead(later.tasks[a.session])))
  }

  lemma StartCommits(s: State, a: Action)
    requires !a.Resume?
    ensures Step(s, a).commits == s.commits
  {
    hide RetryMatches, AcknowledgementMatches, AuthorizationMatches;
  }

  lemma RunCommits(s: State, a: Action, t: Task)
    requires a.Resume? && a.session in s.tasks && s.tasks[a.session] == t && t.Running? && t.id in s.pendingById
    ensures CommitStory(s, a, ResumeRun(s, a.session, t, a.reply))
  {
    hide ResultMatches;
  }

  lemma OtherCommits(s: State, a: Action, t: Task)
    requires a.Resume? && a.session in s.tasks && s.tasks[a.session] == t && Resumable(s, t) && !t.Running?
    ensures Step(s, a).commits == s.commits
  {
    hide ResumeCreate, ResumeVerify, ResumeRequest, ResumeReconcile, ReadStep;
    match t
    case Creating(_, _, _) => CreateQuiet(s, a.session, t, a.reply, a.now, a.id, a.nonce);
    case Verifying(_, _) => VerifyQuiet(s, a.session, t, a.reply, a.now);
    case Requesting(_, _) => RequestQuiet(s, a.session, t, a.reply);
    case Reconciling(_, _, _, _) => ReconcileQuiet(s, a.session, t, a.reply);
    case _ =>
  }

  lemma CommitsStory(s: State, a: Action)
    ensures CommitStory(s, a, Step(s, a))
  {
    if !a.Resume? {
      hide Step, CommitStory;
      StartCommits(s, a);
      assert CommitStory(s, a, Step(s, a)) by { NoCommit(s, a, Step(s, a)); }
    } else if a.session in s.tasks && Resumable(s, s.tasks[a.session]) {
      hide ResumeRun, ResumeCommit, ResumeDeliver, ResumeCreate, ResumeVerify, ResumeRequest, ResumeReconcile;
      if s.tasks[a.session].Running? {
        RunCommits(s, a, s.tasks[a.session]);
      } else {
        OtherCommits(s, a, s.tasks[a.session]);
      }
    } else {
      NotResumable(s, a.session, a.reply, a.now, a.id, a.nonce);
    }
  }

  lemma NoCommit(s: State, a: Action, later: State)
    requires later.commits == s.commits
    ensures CommitStory(s, a, later)
  {
  }

  lemma StepRolesFree(s: State, a: Action)
    requires Valid(s) && RolesFree(s) && Truthful(s, a)
    ensures RolesFree(Step(s, a))
  {
    hide Step, Valid;
    var later := Step(s, a);
    CommitsStory(s, a);
    if later.commits != s.commits {
      DistinctExtended(s, a.session);
    }
    forall x | x in later.tasks && RoleRead(later.tasks[x]) && later.tasks[x].id in later.pendingById
      ensures RoleOf(later.pendingById[later.tasks[x].id].proposal) !in later.commits
    {
      RoleStaysFree(s, a, later, x);
    }
  }

  lemma DistinctExtended(s: State, x: string)
    requires RolesFree(s) && x in s.tasks && s.tasks[x].Running? && s.tasks[x].id in s.pendingById
    ensures Distinct(s.commits + [RoleOf(s.pendingById[s.tasks[x].id].proposal)])
  {
  }

  lemma RoleStaysFree(s: State, a: Action, later: State, x: string)
    requires Valid(s) && RolesFree(s) && Truthful(s, a) && later == Step(s, a) && CommitStory(s, a, later)
    requires x in later.tasks && RoleRead(later.tasks[x]) && later.tasks[x].id in later.pendingById
    ensures RoleOf(later.pendingById[later.tasks[x].id].proposal) !in later.commits
  {
    hide Step, Valid, Story, Called, PendingOk, Distinct;
    var id := later.tasks[x].id;
    TasksStory(s, a, x);
    PendingStory(s, a, id);
    Facts(s, x);
    if a.Resume? { Facts(s, a.session); }
    StoryKept(s, a, id, later.pendingById[id]);
  }

  /** At most one commit succeeds per Team Goal and Role, whatever the interleaving, when role occupancy reflects earlier commits. */
  lemma {:induction false} OneCommitPerRole(states: seq<State>, actions: seq<Action>, k: nat)
    requires Run(states, actions) && k < |states| && forall j :: 0 <= j < k ==> Truthful(states[j], actions[j])
    ensures RolesFree(states[k]) && Distinct(states[k].commits)
  {
    hide Step, Truthful, Distinct;
    if k == 0 {
      NothingCommitted();
      assert RolesFree(states[0]);
    } else {
      OneCommitPerRole(states, actions, k - 1);
      RunValid(states, actions, k - 1);
      assert states[k] == Step(states[k - 1], actions[k - 1]);
      hide RolesFree;
      StepRolesFree(states[k - 1], actions[k - 1]);
      FreeIsDistinct(states[k]);
    }
  }

  lemma NothingCommitted()
    ensures Distinct<(string, string)>([])
  {
  }

  lemma FreeIsDistinct(s: State)
    requires RolesFree(s)
    ensures Distinct(s.commits)
  {
  }
}

/** What every step of the registry keeps, and what follows for whole runs. */
module RegistryRuns {
  import opened Contracts
  import opened Registry

  /** What the registry has accepted for an extension, or -1. */
  function SequenceOf(r: State, key: Key): int {
    if key in r.highWater then r.highWater[key].sequence else -1
  }

  ghost predicate SessionsConsistent(r: State) {
    && |r.sessions| <= MAX_SESSIONS
    && (forall i, j :: 0 <= i < j < |r.sessions| ==>
          r.sessions[i].key != r.sessions[j].key && r.sessions[i].connectionId != r.sessions[j].connectionId)
    && forall i :: 0 <= i < |r.sessions| ==> SessionConsistent(r, r.sessions[i])
  }

  ghost predicate SessionConsistent(r: State, s: Session) {
    && s.key in r.highWater && r.highWater[s.key] == HighWater(s.attempt, s.sequence)
    && s.connectionId in r.issued
    && s.revision <= r.revision
    && (s.connection == None <==> s.availability == Unavailable)
    && |s.dedup| <= DEDUP_LIMIT
    && (forall i, j :: 0 <= i < j < |s.dedup| ==> s.dedup[i].body.eventId != s.dedup[j].body.eventId)
    && forall i :: 0 <= i < |s.dedup| ==> s.dedup[i].body.sequence <= s.sequence
  }

  /** At most 128 events, with consecutive revisions that end at the current one. */
  predicate LogConsecutive(log: seq<Event>, revision: nat) {
    |log| <= EVENT_LIMIT && |log| <= revision && forall i :: 0 <= i < |log| ==> log[i].revision == revision - |log| + 1 + i
  }

  ghost predicate Valid(r: State) {
    SessionsConsistent(r) && LogConsecutive(r.log, r.revision) && r.revision <= MAX_SAFE_INTEGER
  }

  lemma InitiallyValid()
    ensures Valid(State([], map[], {}, [], 0))
  {
  }

  lemma AppendedConsecutive(log: seq<Event>, revision: nat, e: Event)
    requires LogConsecutive(log, revision) && e.revision == revision + 1
    ensures LogConsecutive(Appended(log, e), revision + 1)
  {
  }

  lemma RememberedDistinct(s: Session, body: LifecycleBody, result: Record)
    requires |s.dedup| <= DEDUP_LIMIT && FindRemembered(s.dedup, body.eventId) == |s.dedup| && s.sequence < body.sequence
    requires forall i, j :: 0 <= i < j < |s.dedup| ==> s.dedup[i].body.eventId != s.dedup[j].body.eventId
    requires forall i :: 0 <= i < |s.dedup| ==> s.dedup[i].body.sequence <= s.sequence
    ensures var later := Remember(s.dedup, Remembered(body, result));
      && |later| <= DEDUP_LIMIT
      && (forall i, j :: 0 <= i < j < |later| ==> later[i].body.eventId != later[j].body.eventId)
      && (forall i :: 0 <= i < |later| ==> later[i].body.sequence <= body.sequence)
  {
  }

  /** The four shapes a single change of the registry can have. */
  datatype Move =
    | Stay(more: set<string>)
    | Renew(i: nat, s: Session)
    | Change(i: nat, s: Session, kind: EventType)
    | Admit(more: set<string>, i: nat, s: Session, kind: EventType)

  function Moved(r: State, m: Move): State
    requires m.Stay? || m.i <= |r.sessions|
    requires m.Renew? ==> m.i < |r.sessions|
  {
    match m
    case Stay(more) => r.(issued := r.issued + more)
    case Renew(i, s) => Noted(r.(sessions := r.sessions[i := s]), s)
    case Change(i, s, kind) => Noted(Changed(r, i, s, kind), s)
    case Admit(more, i, s, kind) => Noted(Changed(r.(issued := r.issued + more), i, s, kind), s)
  }

  /** A session as it may follow another: same identity and credentials, a transport only lost, sequences only grown. */
  ghost predicate Follows(s: Session, s': Session) {
    && s'.key == s.key && s'.observedId == s.observedId && s'.connectionId == s.connectionId && s'.challenge == s.challenge
    && (s'.connection == s.connection || s'.connection == None)
    && s'.attempt == s.attempt && s'.sequence >= s.sequence
  }

  ghost predicate Possible(r: State, m: Move) {
    match m
    case Stay(_) => true
    case Renew(i, s) =>
      && i < |r.sessions| && Follows(r.sessions[i], s) && AgentOf(s) == AgentOf(r.sessions[i]) && s.sequence > r.sessions[i].sequence
      && s.dedup == r.sessions[i].dedup
      && SessionConsistent(Moved(r, m), s)
    case Change(i, s, kind) =>
      && i < |r.sessions| && Follows(r.sessions[i], s) && s.revision == r.revision + 1 <= MAX_SAFE_INTEGER
      && (kind != LifecycleEvent ==> s.dedup == r.sessions[i].dedup)
      && SessionConsistent(Moved(r, m), s)
    case Admit(more, i, s, _) =>
      && i == ByKey(r.sessions, s.key) && (i == |r.sessions| ==> |r.sessions| < MAX_SESSIONS)
      && s.connectionId in more && s.connectionId !in r.issued && s.revision == r.revision + 1 <= MAX_SAFE_INTEGER
      && (s.key in r.highWater ==> r.highWater[s.key].attempt < s.attempt && r.highWater[s.key].sequence < s.sequence)
      && s.dedup == (if i < |r.sessions| then r.sessions[i].dedup else []) && s.connection.Some?
      && SessionConsistent(Moved(r, m), s)
  }

  /** A move changes one slot, which it gives a key and an identity of its own. */
  lemma OtherSlot(r: State, m: Move, j: nat)
    requires Valid(r) && Possible(r, m) && j < |r.sessions| && (m.Stay? || j != m.i)
    ensures j < |Moved(r, m).sessions| && Moved(r, m).sessions[j] == r.sessions[j]
    ensures !m.Stay? ==> m.i < |Moved(r, m).sessions| && Moved(r, m).sessions[m.i] == m.s
  {
    hide SessionConsistent;
  }

  lemma OtherKey(r: State, m: Move, j: nat)
    requires Valid(r) && Possible(r, m) && j < |r.sessions| && !m.Stay? && j != m.i
    ensures r.sessions[j].key != m.s.key && r.sessions[j].connectionId != m.s.connectionId
  {
    assert SessionConsistent(r, r.sessions[j]);
    if m.i < |r.sessions| {
      assert j < m.i || m.i < j;
    }
  }

  lemma ConsistentElsewhere(r: State, later: State, s: Session)
    requires SessionConsistent(r, s) && r.issued <= later.issued && r.revision <= later.revision
    requires s.key in later.highWater && later.highWater[s.key] == r.highWater[s.key]
    ensures SessionConsistent(later, s)
  {
  }

  /** Nothing a move leaves in place is disturbed by it. */
  lemma MoveKeeps(r: State, m: Move, j: nat)
    requires Valid(r) && Possible(r, m) && j < |r.sessions| && (m.Stay? || j != m.i)
    ensures j < |Moved(r, m).sessions| && Moved(r, m).sessions[j] == r.sessions[j]
    ensures SessionConsistent(Moved(r, m), r.sessions[j])
    ensures !m.Stay? ==> m.i < |Moved(r, m).sessions| && Moved(r, m).sessions[m.i] == m.s && r.sessions[j].key != m.s.key && r.sessions[j].connectionId != m.s.connectionId
  {
    OtherSlot(r, m, j);
    if !m.Stay? {
      OtherKey(r, m, j);
    }
    assert SessionConsistent(r, r.sessions[j]);
    hide SessionsConsistent, LogConsecutive;
    ConsistentElsewhere(r, Moved(r, m), r.sessions[j]);
  }

  lemma MoveValid(r: State, m: Move)
    requires Valid(r) && Possible(r, m)
    ensures Valid(Moved(r, m))
  {
    var after := Moved(r, m);
    assert LogConsecutive(after.log, after.revision) && after.revision <= MAX_SAFE_INTEGER by {
      if m.Change? || m.Admit? {
        AppendedConsecutive(r.log, r.revision, EventOf(m.kind, m.s));
      }
    }
    forall j | 0 <= j < |r.sessions| && (m.Stay? || j != m.i) {
      MoveKeeps(r, m, j);
    }
    MoveSize(r, m);
    hide *;
    KeptValid(r, m, after);
  }

  lemma MoveSize(r: State, m: Move)
    requires Valid(r) && Possible(r, m)
    ensures var after := Moved(r, m);
      && |r.sessions| <= |after.sessions| <= MAX_SESSIONS
      && (m.Stay? ==> |after.sessions| == |r.sessions|)
      && (!m.Stay? ==> m.i < |after.sessions| <= if m.i < |r.sessions| then |r.sessions| else m.i + 1)
      && (!m.Stay? ==> after.sessions[m.i] == m.s && SessionConsistent(after, m.s))
  {
  }

  lemma KeptValid(r: State, m: Move, after: State)
    requires Valid(r) && |r.sessions| <= |after.sessions| <= MAX_SESSIONS
    requires m.Stay? ==> |after.sessions| == |r.sessions|
    requires !m.Stay? ==> m.i <= |r.sessions| && m.i < |after.sessions| <= if m.i < |r.sessions| then |r.sessions| else m.i + 1
    requires !m.Stay? ==> after.sessions[m.i] == m.s && SessionConsistent(after, m.s)
    requires forall j :: 0 <= j < |r.sessions| && (m.Stay? || j != m.i) ==>
      && after.sessions[j] == r.sessions[j] && SessionConsistent(after, r.sessions[j])
      && (!m.Stay? ==> r.sessions[j].key != m.s.key && r.sessions[j].connectionId != m.s.connectionId)
    ensures SessionsConsistent(after)
  {
    forall j | 0 <= j < |after.sessions| ensures SessionConsistent(after, after.sessions[j]) {
      assert (!m.Stay? && j == m.i) || (j < |r.sessions| && after.sessions[j] == r.sessions[j]);
    }
    forall i, j | 0 <= i < j < |after.sessions|
      ensures after.sessions[i].key != after.sessions[j].key && after.sessions[i].connectionId != after.sessions[j].connectionId
    {
      assert (!m.Stay? && i == m.i) || (i < |r.sessions| && after.sessions[i] == r.sessions[i]);
      assert (!m.Stay? && j == m.i) || (j < |r.sessions| && after.sessions[j] == r.sessions[j]);
    }
  }

  lemma HeartbeatMove(r: State, connection: Connection, body: HeartbeatBody, now: nat) returns (m: Move)
    requires Valid(r)
    ensures Possible(r, m) && !m.Admit? && HeartbeatStep(r, connection, body, now).0 == Moved(r, m)
    ensures m.Change? ==> m.kind != LifecycleEvent
  {
    assert r.issued + {} == r.issued;
    m := Stay({});
    var i := Resolved(r.sessions, connection, body.connectionId, body.challenge);
    if i < |r.sessions| && r.sessions[i].sequence < body.sequence {
      assert SessionConsistent(r, r.sessions[i]);
      var s := r.sessions[i].(sequence := body.sequence, status := body.status, leaseUntil := now + LEASE_DURATION_MS);
      if s.status == r.sessions[i].status {
        m := Renew(i, s);
      } else if r.revision < MAX_SAFE_INTEGER {
        m := Change(i, s.(revision := r.revision + 1), HeartbeatEvent);
      }
    }
  }

  lemma LifecycleMove(r: State, connection: Connection, body: LifecycleBody, now: nat) returns (m: Move)
    requires Valid(r)
    ensures Possible(r, m) && !m.Admit? && LifecycleStep(r, connection, body, now).0 == Moved(r, m)
    ensures m.Change? ==>
      && m.i == Resolved(r.sessions, connection, body.connectionId, body.challenge)
      && forall d :: d in m.s.dedup ==> d in r.sessions[m.i].dedup || d.body == body
  {
    assert r.issued + {} == r.issued;
    m := Stay({});
    var i := Resolved(r.sessions, connection, body.connectionId, body.challenge);
    if i < |r.sessions| && r.sessions[i].sequence < body.sequence && r.revision < MAX_SAFE_INTEGER
       && FindRemembered(r.sessions[i].dedup, body.eventId) == |r.sessions[i].dedup| {
      assert SessionConsistent(r, r.sessions[i]);
      var s := r.sessions[i].(
        sequence := body.sequence, status := body.status, leaseUntil := now + LEASE_DURATION_MS, revision := r.revision + 1);
      RememberedDistinct(r.sessions[i], body, RecordOf(s));
      m := Change(i, s.(dedup := Remember(s.dedup, Remembered(body, RecordOf(s)))), LifecycleEvent);
    }
  }

  lemma CloseMove(r: State, connection: Connection, body: CloseBody) returns (m: Move)
    requires Valid(r)
    ensures Possible(r, m) && !m.Admit? && CloseStep(r, connection, body).0 == Moved(r, m)
    ensures m.Change? ==> m.kind != LifecycleEvent
  {
    assert r.issued + {} == r.issued;
    m := Stay({});
    var i := Resolved(r.sessions, connection, body.connectionId, body.challenge);
    if i < |r.sessions| && r.sessions[i].sequence < body.sequence && r.revision < MAX_SAFE_INTEGER {
      assert SessionConsistent(r, r.sessions[i]);
      m := Change(i, r.sessions[i].(sequence := body.sequence, connection := None, availability := Unavailable, revision := r.revision + 1), Closed);
    }
  }

  lemma DisconnectMove(r: State, connection: Connection) returns (m: Move)
    requires Valid(r)
    ensures Possible(r, m) && !m.Admit? && DisconnectStep(r, connection).0 == Moved(r, m)
    ensures m.Change? ==> m.kind != LifecycleEvent
  {
    assert r.issued + {} == r.issued;
    m := Stay({});
    var i := OnTransport(r.sessions, connection);
    if i < |r.sessions| && r.revision < MAX_SAFE_INTEGER {
      assert SessionConsistent(r, r.sessions[i]);
      m := Change(i, r.sessions[i].(connection := None, availability := Unavailable, revision := r.revision + 1), Closed);
      assert Moved(r, m) == Changed(r, i, m.s, Closed);
    }
  }

  /** Every action but a sweep and a restart is one possible move. */
  lemma OneMove(r: State, a: Action) returns (m: Move)
    requires Valid(r) && !a.Expire? && !a.Restart?
    ensures Possible(r, m) && Step(r, a).0 == Moved(r, m)
    ensures m.Admit? ==> a.Register? && m.s.key == a.registration.key && m.s.attempt == a.registration.attempt && m.s.connection == Some(a.connection)
    ensures m.Admit? <==> Step(r, a).1.Registered?
    ensures m.Change? && m.kind == LifecycleEvent ==>
      && a.Lifecycle? && m.i == Resolved(r.sessions, a.connection, a.lifecycle.connectionId, a.lifecycle.challenge)
      && forall d :: d in m.s.dedup ==> d in r.sessions[m.i].dedup || d.body == a.lifecycle
  {
    match a
    case Register(connection, body, offer, now) => m := RegisterMove(r, connection, body, offer, now);
    case Heartbeat(connection, body, now) => m := HeartbeatMove(r, connection, body, now);
    case Lifecycle(connection, body, now) => m := LifecycleMove(r, connection, body, now);
    case Close(connection, body) => m := CloseMove(r, connection, body);
    case Disconnect(connection) => m := DisconnectMove(r, connection);
  }

  lemma RegisterMove(r: State, connection: Connection, body: RegisterBody, offer: Offer, now: nat) returns (m: Move)
    requires Valid(r)
    ensures Possible(r, m) && RegisterStep(r, connection, body, offer, now).0 == Moved(r, m)
    ensures var reply := RegisterStep(r, connection, body, offer, now).1;
      && (reply.Rejected? ==> m.Stay?)
      && (!reply.Rejected? ==>
            && reply.Registered? && m.Admit? && m.s.key == body.key && m.s.sequence == body.sequence == reply.sequence
            && m.s.attempt == body.attempt == reply.attempt && IsLive(m.s, connection, reply.connectionId, reply.challenge))
  {
    var (after, reply) := RegisterStep(r, connection, body, offer, now);
    var i := ByKey(r.sessions, body.key);
    var known := i < |r.sessions|;
    if known { assert SessionConsistent(r, r.sessions[i]); }
    var one, two := {offer.connectionId}, {offer.connectionId} + {offer.challenge};
    var more := if known then two else two + {offer.observedId};
    assert r.issued + one + {offer.challenge} == r.issued + two;
    assert r.issued + two + {offer.observedId} == r.issued + (two + {offer.observedId});
    assert r.issued + {} == r.issued;
    if reply.Rejected? {
      m := Stay(after.issued - r.issued);
      assert r.issued + (after.issued - r.issued) == after.issued;
    } else {
      var s := Session(
        if known then r.sessions[i].observedId else offer.observedId, body.key,
        Some(connection), offer.connectionId, offer.challenge, body.attempt, body.sequence, body.status, Available,
        now + LEASE_DURATION_MS, r.revision + 1, if known then r.sessions[i].dedup else []);
      m := Admit(more, i, s, if known then Reconnected else RegisteredEvent);
    }
  }

  lemma DroppedValid(r: State, i: nat)
    requires Valid(r) && i < |r.sessions| && r.revision < MAX_SAFE_INTEGER
    ensures Valid(Dropped(r, i))
  {
    AppendedConsecutive(r.log, r.revision, EventOf(Expired, r.sessions[i].(revision := r.revision + 1)));
    var after := Dropped(r, i);
    forall j | 0 <= j < |after.sessions| ensures SessionConsistent(after, after.sessions[j]) {
      assert SessionConsistent(r, r.sessions[if j < i then j else j + 1]);
    }
  }

  lemma {:induction false} ExpireValid(r: State, i: nat, now: nat)
    requires Valid(r) && i <= |r.sessions|
    ensures Valid(ExpireFrom(r, i, now).0)
    decreases |r.sessions| - i
  {
    if i == |r.sessions| {
    } else if r.sessions[i].leaseUntil > now {
      ExpireValid(r, i + 1, now);
    } else if r.revision < MAX_SAFE_INTEGER {
      DroppedValid(r, i);
      ExpireValid(Dropped(r, i), i, now);
    }
  }

  /** Every operation keeps the registry valid. */
  lemma StepValid(r: State, a: Action)
    requires Valid(r)
    ensures Valid(Step(r, a).0)
  {
    match a
    case Expire(now) => ExpireValid(r, 0, now);
    case Restart(_) =>
    case _ =>
      var m := OneMove(r, a);
      MoveValid(r, m);
  }
}

/** The Agent Registry of observer/registry.ts: its state, and each operation as a function of it. */
module Registry {
  import opened Contracts

  const LEASE_DURATION_MS: nat := 15000
  const MAX_SESSIONS: nat := 64
  const DEDUP_LIMIT: nat := 256
  const EVENT_LIMIT: nat := 128
  const MAX_SAFE_INTEGER: nat := 0x1F_FFFF_FFFF_FFFF

  /** A transport object, compared by identity. */
  type Connection = nat

  /** processIncarnationId, piSessionId and extensionInstanceId; the source joins them with a character none of them contains. */
  datatype Key = Key(process: string, piSession: string, extension: string)

  datatype Status = Status(lifecycle: string, activity: string, health: string)

  datatype Availability = Available | Unavailable

  datatype RegisterBody = RegisterBody(key: Key, attempt: nat, sequence: nat, status: Status)

  datatype HeartbeatBody = HeartbeatBody(connectionId: string, challenge: string, sequence: nat, status: Status)

  datatype LifecycleBody = LifecycleBody(connectionId: string, challenge: string, eventId: string, sequence: nat, status: Status)

  datatype CloseBody = CloseBody(connectionId: string, challenge: string, sequence: nat, reason: string)

  datatype Record = Record(observedId: string, key: Key, status: Status, availability: Availability, revision: nat)

  /** A remembered lifecycle frame; the body stands for its JSON text. */
  datatype Remembered = Remembered(body: LifecycleBody, result: Record)

  datatype Session = Session(
    observedId: string, key: Key,
    connection: Option<Connection>, connectionId: string, challenge: string,
    attempt: nat, sequence: nat,
    status: Status, availability: Availability,
    leaseUntil: nat, revision: nat,
    dedup: seq<Remembered>)

  datatype HighWater = HighWater(attempt: nat, sequence: nat)

  datatype EventType = RegisteredEvent | Reconnected | HeartbeatEvent | LifecycleEvent | Closed | Expired

  datatype Event = Event(revision: nat, kind: EventType, observedId: string, status: Status, availability: Availability)

  datatype State = State(
    sessions: seq<Session>,
    highWater: map<Key, HighWater>,
    issued: set<string>,
    log: seq<Event>,
    revision: nat)

  datatype Error = StaleRegistration | InvalidSequence | SessionLimit | InvalidIdentity | ConnectionNotCurrent | MessageIdConflict

  datatype Reply = Registered(observedId: string, connectionId: string, challenge: string, attempt: nat, sequence: nat, revision: nat)
                 | Recorded(record: Record)
                 | Rejected(error: Error)
                 | Silent

  /** The values the capability issuer would hand out next. */
  datatype Offer = Offer(connectionId: string, challenge: string, observedId: string)

  /** Index of the first session that satisfies `p`, or the number of sessions. */
  function First(sessions: seq<Session>, p: Session -> bool): (i: nat)
    ensures i <= |sessions|
    ensures forall j :: 0 <= j < i ==> !p(sessions[j])
    ensures i < |sessions| ==> p(sessions[i])
  {
    if sessions == [] || p(sessions[0]) then 0 else 1 + First(sessions[1..], p)
  }

  predicate IsLive(s: Session, connection: Connection, connectionId: string, challenge: string) {
    s.connection == Some(connection) && s.connectionId == connectionId && s.challenge == challenge
  }

  function ByKey(sessions: seq<Session>, key: Key): nat {
    First(sessions, (s: Session) => s.key == key)
  }

  function Resolved(sessions: seq<Session>, connection: Connection, connectionId: string, challenge: string): nat {
    First(sessions, (s: Session) => IsLive(s, connection, connectionId, challenge))
  }

  function OnTransport(sessions: seq<Session>, connection: Connection): nat {
    First(sessions, (s: Session) => s.connection == Some(connection))
  }

  /** A bounded identity of at least 32 characters that has never been handed out. */
  predicate Issuable(value: string, issued: set<string>) {
    32 <= |value| <= 128 && value !in issued
  }

  function RecordOf(s: Session): Record {
    Record(s.observedId, s.key, s.status, s.availability, s.revision)
  }

  function EventOf(kind: EventType, s: Session): Event {
    Event(s.revision, kind, s.observedId, s.status, s.availability)
  }

  function Appended(log: seq<Event>, e: Event): seq<Event> {
    (if |log| >= EVENT_LIMIT then log[1..] else log) + [e]
  }

  function RegisteredReply(s: Session): Reply {
    Registered(s.observedId, s.connectionId, s.challenge, s.attempt, s.sequence, s.revision)
  }

  /** Session `i` becomes `s` under the next revision, and the event says so. */
  function Changed(r: State, i: nat, s: Session, kind: EventType): State
    requires i <= |r.sessions|
  {
    r.(sessions := r.sessions[..i] + [s] + if i < |r.sessions| then r.sessions[i + 1..] else [],
       log := Appended(r.log, EventOf(kind, s)),
       revision := s.revision)
  }

  function Noted(r: State, s: Session): State {
    r.(highWater := r.highWater[s.key := HighWater(s.attempt, s.sequence)])
  }

  function RegisterStep(r: State, connection: Connection, body: RegisterBody, offer: Offer, now: nat): (State, Reply) {
    if body.key in r.highWater && body.attempt <= r.highWater[body.key].attempt then (r, Rejected(StaleRegistration))
    else if body.key in r.highWater && body.sequence <= r.highWater[body.key].sequence then (r, Rejected(InvalidSequence))
    else
      var i := ByKey(r.sessions, body.key);
      var known := i < |r.sessions|;
      if !known && |r.sessions| >= MAX_SESSIONS then (r, Rejected(SessionLimit))
      else if !Issuable(offer.connectionId, r.issued) then (r, Rejected(InvalidIdentity))
      else
        var r1 := r.(issued := r.issued + {offer.connectionId});
        if !Issuable(offer.challenge, r1.issued) then (r1, Rejected(InvalidIdentity))
        else
          var r2 := r1.(issued := r1.issued + {offer.challenge});
          if !known && !Issuable(offer.observedId, r2.issued) then (r2, Rejected(InvalidIdentity))
          else
            var r3 := if known then r2 else r2.(issued := r2.issued + {offer.observedId});
            if r.revision >= MAX_SAFE_INTEGER then (r3, Rejected(InvalidSequence))
            else
              var s := Session(
                if known then r.sessions[i].observedId else offer.observedId, body.key,
                Some(connection), offer.connectionId, offer.challenge,
                body.attempt, body.sequence, body.status, Available,
                now + LEASE_DURATION_MS, r.revision + 1,
                if known then r.sessions[i].dedup else []);
              (Noted(Changed(r3, i, s, if known then Reconnected else RegisteredEvent), s), RegisteredReply(s))
  }

  /** A heartbeat moves the revision only when it reports something new. */
  function HeartbeatStep(r: State, connection: Connection, body: HeartbeatBody, now: nat): (State, Reply) {
    var i := Resolved(r.sessions, connection, body.connectionId, body.challenge);
    if i == |r.sessions| then (r, Rejected(ConnectionNotCurrent))
    else if body.sequence <= r.sessions[i].sequence then (r, Rejected(InvalidSequence))
    else
      var s := r.sessions[i].(sequence := body.sequence, status := body.status, leaseUntil := now + LEASE_DURATION_MS);
      if r.sessions[i].status == body.status then (Noted(r.(sessions := r.sessions[i := s]), s), Recorded(RecordOf(s)))
      else if r.revision >= MAX_SAFE_INTEGER then (r, Rejected(InvalidSequence))
      else
        var s' := s.(revision := r.revision + 1);
        (Noted(Changed(r, i, s', HeartbeatEvent), s'), Recorded(RecordOf(s')))
  }

  function FindRemembered(dedup: seq<Remembered>, eventId: string): (i: nat)
    ensures i <= |dedup|
    ensures forall j :: 0 <= j < i ==> dedup[j].body.eventId != eventId
    ensures i < |dedup| ==> dedup[i].body.eventId == eventId
  {
    if dedup == [] || dedup[0].body.eventId == eventId then 0 else 1 + FindRemembered(dedup[1..], eventId)
  }

  function Remember(dedup: seq<Remembered>, entry: Remembered): seq<Remembered> {
    (if |dedup| >= DEDUP_LIMIT then dedup[1..] else dedup) + [entry]
  }

  function LifecycleStep(r: State, connection: Connection, body: LifecycleBody, now: nat): (State, Reply) {
    var i := Resolved(r.sessions, connection, body.connectionId, body.challenge);
    if i == |r.sessions| then (r, Rejected(ConnectionNotCurrent))
    else
      var k := FindRemembered(r.sessions[i].dedup, body.eventId);
      if k < |r.sessions[i].dedup| then
        (r, if r.sessions[i].dedup[k].body == body then Recorded(r.sessions[i].dedup[k].result) else Rejected(MessageIdConflict))
      else if body.sequence <= r.sessions[i].sequence then (r, Rejected(InvalidSequence))
      else if r.revision >= MAX_SAFE_INTEGER then (r, Rejected(InvalidSequence))
      else
        var s := r.sessions[i].(
          sequence := body.sequence, status := body.status, leaseUntil := now + LEASE_DURATION_MS, revision := r.revision + 1);
        var s' := s.(dedup := Remember(s.dedup, Remembered(body, RecordOf(s))));
        (Noted(Changed(r, i, s', LifecycleEvent), s'), Recorded(RecordOf(s')))
  }

  function CloseStep(r: State, connection: Connection, body: CloseBody): (State, Reply) {
    var i := Resolved(r.sessions, connection, body.connectionId, body.challenge);
    if i == |r.sessions| then (r, Rejected(ConnectionNotCurrent))
    else if body.sequence <= r.sessions[i].sequence then (r, Rejected(InvalidSequence))
    else if r.revision >= MAX_SAFE_INTEGER then (r, Rejected(InvalidSequence))
    else
      var s := r.sessions[i].(sequence := body.sequence, connection := None, availability := Unavailable, revision := r.revision + 1);
      (Noted(Changed(r, i, s, Closed), s), Recorded(RecordOf(s)))
  }

  /** Only the first session on the transport is retired. */
  function DisconnectStep(r: State, connection: Connection): (State, Reply) {
    var i := OnTransport(r.sessions, connection);
    if i == |r.sessions| then (r, Silent)
    else if r.revision >= MAX_SAFE_INTEGER then (r, Rejected(InvalidSequence))
    else
      var s := r.sessions[i].(connection := None, availability := Unavailable, revision := r.revision + 1);
      (Changed(r, i, s, Closed), Recorded(RecordOf(s)))
  }

  /** Session `i` leaves; its key keeps its high-water mark. */
  function Dropped(r: State, i: nat): State
    requires i < |r.sessions|
  {
    var s := r.sessions[i].(revision := r.revision + 1);
    r.(sessions := r.sessions[..i] + r.sessions[i + 1..], log := Appended(r.log, EventOf(Expired, s)), revision := s.revision)
  }

  /** The sweep from session `i` on. */
  function ExpireFrom(r: State, i: nat, now: nat): (State, Reply)
    requires i <= |r.sessions|
    decreases |r.sessions| - i
  {
    if i == |r.sessions| then (r, Silent)
    else if r.sessions[i].leaseUntil > now then ExpireFrom(r, i + 1, now)
    else if r.revision >= MAX_SAFE_INTEGER then (r, Rejected(InvalidSequence))
    else ExpireFrom(Dropped(r, i), i, now)
  }

  /** Restart recovery: only the revision may survive. */
  function Restarted(r: State, base: nat): State {
    r.(revision := if base <= MAX_SAFE_INTEGER && base > r.revision then base else r.revision,
       sessions := [], highWater := map[], log := [])
  }

  datatype Action =
    | Register(connection: Connection, registration: RegisterBody, offer: Offer, now: nat)
    | Heartbeat(connection: Connection, heartbeat: HeartbeatBody, now: nat)
    | Lifecycle(connection: Connection, lifecycle: LifecycleBody, now: nat)
    | Close(connection: Connection, close: CloseBody)
    | Disconnect(connection: Connection)
    | Expire(now: nat)
    | Restart(base: nat)

  function Step(r: State, a: Action): (State, Reply) {
    match a
    case Register(connection, body, offer, now) => RegisterStep(r, connection, body, offer, now)
    case Heartbeat(connection, body, now) => HeartbeatStep(r, connection, body, now)
    case Lifecycle(connection, body, now) => LifecycleStep(r, connection, body, now)
    case Close(connection, body) => CloseStep(r, connection, body)
    case Disconnect(connection) => DisconnectStep(r, connection)
    case Expire(now) => ExpireFrom(r, 0, now)
    case Restart(base) => (Restarted(r, base), Silent)
  }

  /** What a snapshot shows of one session. */
  datatype Agent = Agent(observedId: string, status: Status, availability: Availability, revision: nat)

  datatype Snapshot = Snapshot(revision: nat, agents: seq<Agent>)

  function AgentOf(s: Session): Agent {
    Agent(s.observedId, s.status, s.availability, s.revision)
  }

  function SnapshotOf(r: State): Snapshot {
    Snapshot(r.revision, seq(|r.sessions|, i requires 0 <= i < |r.sessions| => AgentOf(r.sessions[i])))
  }

  class AgentRegistry {
    var sessions: seq<Session>
    var highWater: map<Key, HighWater>
    var issued: set<string>
    var log: seq<Event>
    var revision: nat

    function Contents(): State
      reads this
    {
      State(sessions, highWater, issued, log, revision)
    }

    constructor ()
      ensures Contents() == State([], map[], {}, [], 0)
    {
      sessions, highWater, issued, log, revision := [], map[], {}, [], 0;
    }

    method FindSession(p: Session -> bool) returns (i: nat)
      ensures i == First(sessions, p)
    {
      i := 0;
      while i < |sessions| && !p(sessions[i])
        invariant i <= |sessions| && First(sessions, p) == i + First(sessions[i..], p)
      {
        i := i + 1;
      }
    }

    method IssueCapability(value: string) returns (ok: bool)
      modifies this`issued
      ensures ok == Issuable(value, old(issued))
      ensures issued == if ok then old(issued) + {value} else old(issued)
    {
      ok := Issuable(value, issued);
      if ok {
        issued := issued + {value};
      }
    }

    method AdvanceRevision() returns (next: Option<nat>)
      modifies this`revision
      ensures next == if old(revision) >= MAX_SAFE_INTEGER then None else Some(old(revision) + 1)
      ensures revision == if next == None then old(revision) else next.value
    {
      if revision >= MAX_SAFE_INTEGER {
        return None;
      }
      revision := revision + 1;
      next := Some(revision);
    }

    method Emit(kind: EventType, s: Session)
      modifies this`log
      ensures log == Appended(old(log), EventOf(kind, s))
    {
      if |log| >= EVENT_LIMIT {
        log := log[1..];
      }
      log := log + [EventOf(kind, s)];
    }

    method Register(connection: Connection, body: RegisterBody, offer: Offer, now: nat) returns (reply: Reply)
      modifies this
      ensures (Contents(), reply) == RegisterStep(old(Contents()), connection, body, offer, now)
    {
      if body.key in highWater {
        if body.attempt <= highWater[body.key].attempt { return Rejected(StaleRegistration); }
        if body.sequence <= highWater[body.key].sequence { return Rejected(InvalidSequence); }
      }
      var i := FindSession((s: Session) => s.key == body.key);
      var known := i < |sessions|;
      if !known && |sessions| >= MAX_SESSIONS { return Rejected(SessionLimit); }
      var ok := IssueCapability(offer.connectionId);
      if !ok { return Rejected(InvalidIdentity); }
      ok := IssueCapability(offer.challenge);
      if !ok { return Rejected(InvalidIdentity); }
      if !known {
        ok := IssueCapability(offer.observedId);
        if !ok { return Rejected(InvalidIdentity); }
      }
      var next := AdvanceRevision();
      if next == None { return Rejected(InvalidSequence); }
      highWater := highWater[body.key := HighWater(body.attempt, body.sequence)];
      var s: Session;
      if known {
        s := sessions[i].(
          key := body.key, connection := Some(connection), connectionId := offer.connectionId, challenge := offer.challenge,
          attempt := body.attempt, sequence := body.sequence, status := body.status, availability := Available,
          leaseUntil := now + LEASE_DURATION_MS, revision := next.value);
        sessions := sessions[..i] + [s] + sessions[i + 1..];
        Emit(Reconnected, s);
      } else {
        s := Session(offer.observedId, body.key, Some(connection), offer.connectionId, offer.challenge,
          body.attempt, body.sequence, body.status, Available, now + LEASE_DURATION_MS, next.value, []);
        sessions := sessions[..i] + [s] + [];
        Emit(RegisteredEvent, s);
      }
      reply := RegisteredReply(s);
    }

    /** Puts a changed session back and raises its key's high-water mark. */
    method Accept(i: nat, s: Session)
      requires i < |sessions|
      modifies this`sessions, this`highWater
      ensures sessions == old(sessions)[..i] + [s] + old(sessions)[i + 1..]
      ensures highWater == old(highWater)[s.key := HighWater(s.attempt, s.sequence)]
    {
      sessions := sessions[..i] + [s] + sessions[i + 1..];
      highWater := highWater[s.key := HighWater(s.attempt, s.sequence)];
    }

    method Heartbeat(connection: Connection, body: HeartbeatBody, now: nat) returns (reply: Reply)
      modifies this
      ensures (Contents(), reply) == HeartbeatStep(old(Contents()), connection, body, now)
    {
      var i := FindSession((s: Session) => IsLive(s, connection, body.connectionId, body.challenge));
      if i == |sessions| { return Rejected(ConnectionNotCurrent); }
      var s := sessions[i];
      if body.sequence <= s.sequence { return Rejected(InvalidSequence); }
      var changed := s.status != body.status;
      if changed {
        var next := AdvanceRevision();
        if next == None { return Rejected(InvalidSequence); }
        s := s.(revision := next.value);
      }
      s := s.(sequence := body.sequence, status := body.status, leaseUntil := now + LEASE_DURATION_MS);
      ghost var before := sessions;
      Accept(i, s);
      assert sessions == before[i := s];
      if changed {
        Emit(HeartbeatEvent, s);
      }
      reply := Recorded(RecordOf(s));
    }

    method Lifecycle(connection: Connection, body: LifecycleBody, now: nat) returns (reply: Reply)
      modifies this
      ensures (Contents(), reply) == LifecycleStep(old(Contents()), connection, body, now)
    {
      var i := FindSession((s: Session) => IsLive(s, connection, body.connectionId, body.challenge));
      if i == |sessions| { return Rejected(ConnectionNotCurrent); }
      var s := sessions[i];
      var k := FindRemembered(s.dedup, body.eventId);
      if k < |s.dedup| {
        return if s.dedup[k].body == body then Recorded(s.dedup[k].result) else Rejected(MessageIdConflict);
      }
      if body.sequence <= s.sequence { return Rejected(InvalidSequence); }
      var next := AdvanceRevision();
      if next == None { return Rejected(InvalidSequence); }
      s := s.(sequence := body.sequence, status := body.status, leaseUntil := now + LEASE_DURATION_MS, revision := next.value);
      var result := RecordOf(s);
      s := s.(dedup := Remember(s.dedup, Remembered(body, result)));
      Accept(i, s);
      Emit(LifecycleEvent, s);
      reply := Recorded(result);
    }

    method Close(connection: Connection, body: CloseBody) returns (reply: Reply)
      modifies this
      ensures (Contents(), reply) == CloseStep(old(Contents()), connection, body)
    {
      var i := FindSession((s: Session) => IsLive(s, connection, body.connectionId, body.challenge));
      if i == |sessions| { return Rejected(ConnectionNotCurrent); }
      var s := sessions[i];
      if body.sequence <= s.sequence { return Rejected(InvalidSequence); }
      var next := AdvanceRevision();
      if next == None { return Rejected(InvalidSequence); }
      s := s.(sequence := body.sequence, connection := None, availability := Unavailable, revision := next.value);
      Accept(i, s);
      Emit(Closed, s);
      reply := Recorded(RecordOf(s));
    }

    method TransportClosed(connection: Connection) returns (reply: Reply)
      modifies this
      ensures (Contents(), reply) == DisconnectStep(old(Contents()), connection)
    {
      var i := FindSession((s: Session) => s.connection == Some(connection));
      if i == |sessions| { return Silent; }
      var next := AdvanceRevision();
      if next == None { return Rejected(InvalidSequence); }
      var s := sessions[i].(connection := None, availability := Unavailable, revision := next.value);
      sessions := sessions[..i] + [s] + sessions[i + 1..];
      Emit(Closed, s);
      reply := Recorded(RecordOf(s));
    }

    method Expire(now: nat) returns (reply: Reply)
      modifies this
      ensures (Contents(), reply) == ExpireFrom(old(Contents()), 0, now)
    {
      var i := 0;
      while i < |sessions|
        invariant i <= |sessions| && ExpireFrom(Contents(), i, now) == ExpireFrom(old(Contents()), 0, now)
        decreases |sessions| - i
      {
        if sessions[i].leaseUntil <= now {
          ghost var before := Contents();
          var s := sessions[i];
          var next := AdvanceRevision();
          if next == None { return Rejected(InvalidSequence); }
          sessions := sessions[..i] + sessions[i + 1..];
          s := s.(revision := next.value);
          Emit(Expired, s);
          assert Contents() == Dropped(before, i);
        } else {
          i := i + 1;
        }
      }
      reply := Silent;
    }

    /** Drops current observation; the issued capabilities stay spent. */
    method Reconstruct(base: nat)
      modifies this
      ensures Contents() == Restarted(old(Contents()), base)
    {
      if base <= MAX_SAFE_INTEGER && base > revision {
        revision := base;
      }
      sessions, highWater, log := [], map[], [];
    }
  }
}

/** Guarantees of the registry over whole runs. */
module RegistryGuarantees {
  import opened Contracts
  import opened Registry
  import opened RegistryRuns

  ghost predicate Run(states: seq<State>, actions: seq<Action>) {
    && |states| == |actions| + 1 && Valid(states[0])
    && forall i {:trigger actions[i]} :: 0 <= i < |actions| ==> states[i + 1] == Step(states[i], actions[i]).0
  }

  lemma {:induction false} RunValid(states: seq<State>, actions: seq<Action>, i: nat)
    requires Run(states, actions) && i < |states|
    ensures Valid(states[i])
  {
    if i > 0 {
      RunValid(states, actions, i - 1);
      StepValid(states[i - 1], actions[i - 1]);
    }
  }

  // ---- The revision is a version number of the snapshot, and the log is the tail of the history. ----

  function LastEvents(events: seq<Event>): seq<Event> {
    if |events| <= EVENT_LIMIT then events else events[|events| - EVENT_LIMIT..]
  }

  /** `e` are the events of the revisions after `from`, in order. */
  predicate Consecutive(e: seq<Event>, from: nat) {
    forall i :: 0 <= i < |e| ==> e[i].revision == from + 1 + i
  }

  ghost predicate Emits(r: State, e: seq<Event>, later: State) {
    && later.revision == r.revision + |e| && Consecutive(e, r.revision) && later.log == LastEvents(r.log + e)
    && (|e| == 0 ==> SnapshotOf(later) == SnapshotOf(r))
  }

  lemma EmitsTogether(a: State, e: seq<Event>, b: State, f: seq<Event>, c: State)
    requires Emits(a, e, b) && Emits(b, f, c)
    ensures Emits(a, e + f, c)
  {
    var all := a.log + (e + f);
    assert all == (a.log + e) + f;
    if |a.log + e| > EVENT_LIMIT {
      var cut := |a.log + e| - EVENT_LIMIT;
      assert b.log + f == all[cut..];
      assert LastEvents(b.log + f) == LastEvents(all);
    }
  }

  lemma MoveEmits(r: State, m: Move) returns (e: seq<Event>)
    requires Valid(r) && Possible(r, m)
    ensures Emits(r, e, Moved(r, m))
  {
    if m.Change? || m.Admit? {
      e := [EventOf(m.kind, m.s)];
      assert Moved(r, m).log == LastEvents(r.log + e);
    } else {
      e := [];
      assert r.log + e == r.log;
      assert SnapshotOf(Moved(r, m)).agents == SnapshotOf(r).agents;
    }
  }

  lemma {:induction false} ExpireEmits(r: State, i: nat, now: nat) returns (e: seq<Event>)
    requires Valid(r) && i <= |r.sessions|
    ensures Emits(r, e, ExpireFrom(r, i, now).0)
    decreases |r.sessions| - i
  {
    if i == |r.sessions| || (r.sessions[i].leaseUntil <= now && r.revision >= MAX_SAFE_INTEGER) {
      e := [];
      assert r.log + e == r.log;
    } else if r.sessions[i].leaseUntil > now {
      e := ExpireEmits(r, i + 1, now);
    } else {
      DroppedValid(r, i);
      var rest := ExpireEmits(Dropped(r, i), i, now);
      var first := EventOf(Expired, r.sessions[i].(revision := r.revision + 1));
      assert Emits(r, [first], Dropped(r, i));
      EmitsTogether(r, [first], Dropped(r, i), rest, ExpireFrom(r, i, now).0);
      e := [first] + rest;
    }
  }

  lemma StepEmits(r: State, a: Action) returns (e: seq<Event>)
    requires Valid(r) && !a.Restart?
    ensures Emits(r, e, Step(r, a).0)
  {
    if a.Expire? {
      e := ExpireEmits(r, 0, a.now);
    } else {
      var m := OneMove(r, a);
      e := MoveEmits(r, m);
    }
  }

  /** Between restarts the revision never falls, one event is emitted per revision, and the log keeps the last 128. */
  lemma {:induction false} HistoryKept(states: seq<State>, actions: seq<Action>, i: nat, j: nat) returns (e: seq<Event>)
    requires Run(states, actions) && i <= j < |states| && forall k :: i <= k < j ==> !actions[k].Restart?
    ensures Emits(states[i], e, states[j])
    decreases j
  {
    if i == j {
      e := [];
      RunValid(states, actions, i);
      assert states[i].log + e == states[i].log;
    } else {
      var before := HistoryKept(states, actions, i, j - 1);
      RunValid(states, actions, j - 1);
      var last := StepEmits(states[j - 1], actions[j - 1]);
      EmitsTogether(states[i], before, states[j - 1], last, states[j]);
      e := before + last;
    }
  }

  /** Between restarts, equal revisions mean equal snapshots. */
  lemma RevisionIsVersion(states: seq<State>, actions: seq<Action>, i: nat, j: nat)
    requires Run(states, actions) && i <= j < |states| && forall k :: i <= k < j ==> !actions[k].Restart?
    ensures states[i].revision <= states[j].revision
    ensures states[i].revision == states[j].revision ==> SnapshotOf(states[i]) == SnapshotOf(states[j])
  {
    var e := HistoryKept(states, actions, i, j);
  }

  /** A restart empties the snapshot under an unchanged revision exactly when there are sessions and no newer revision was saved. */
  lemma RestartExact(r: State, base: nat)
    requires Valid(r)
    ensures Restarted(r, base).revision == r.revision && SnapshotOf(Restarted(r, base)) != SnapshotOf(r)
      <==> |r.sessions| > 0 && !(r.revision < base <= MAX_SAFE_INTEGER)
  {
    var after := Restarted(r, base);
    assert |SnapshotOf(after).agents| == 0 && |SnapshotOf(r).agents| == |r.sessions|;
    if |r.sessions| == 0 {
      assert SnapshotOf(after).agents == SnapshotOf(r).agents;
    }
  }

  /** Registering once and restarting without a saved revision is such a run. */
  lemma RestartKeepsRevision(connection: Connection, body: RegisterBody, now: nat) returns (states: seq<State>, actions: seq<Action>)
    ensures Run(states, actions) && states[0] == State([], map[], {}, [], 0) && |actions| == 2 && actions[1] == Restart(0)
    ensures actions[0].Register? && actions[0].registration == body && Step(states[0], actions[0]).1.Registered?
    ensures states[2].revision == states[1].revision == 1 && SnapshotOf(states[2]) != SnapshotOf(states[1])
  {
    var id, challenge, observed := seq(32, _ => 'a'), seq(32, _ => 'b'), seq(32, _ => 'c');
    assert id[0] != challenge[0] && id[0] != observed[0] && challenge[0] != observed[0];
    var offer := Offer(id, challenge, observed);
    var first := State([], map[], {}, [], 0);
    var second := Step(first, Register(connection, body, offer, now)).0;
    InitiallyValid();
    assert |second.sessions| == 1;
    actions := [Register(connection, body, offer, now), Restart(0)];
    states := [first, second, Step(second, Restart(0)).0];
    StepValid(first, actions[0]);
    RestartExact(second, 0);
  }

  // ---- Accepted sequences grow, and a frame takes effect at most once. ----

  /** The extension and sequence of the frame that `a` makes the registry accept anew. */
  function Accepted(r: State, a: Action): Option<(Key, nat)> {
    var reply := Step(r, a).1;
    match a
    case Register(_, body, _, _) => if reply.Registered? then Some((body.key, body.sequence)) else None
    case Heartbeat(connection, body, _) =>
      var i := Resolved(r.sessions, connection, body.connectionId, body.challenge);
      if reply.Recorded? && i < |r.sessions| then Some((r.sessions[i].key, body.sequence)) else None
    case Lifecycle(connection, body, _) =>
      var i := Resolved(r.sessions, connection, body.connectionId, body.challenge);
      if reply.Recorded? && i < |r.sessions| && FindRemembered(r.sessions[i].dedup, body.eventId) == |r.sessions[i].dedup|
      then Some((r.sessions[i].key, body.sequence)) else None
    case Close(connection, body) =>
      var i := Resolved(r.sessions, connection, body.connectionId, body.challenge);
      if reply.Recorded? && i < |r.sessions| then Some((r.sessions[i].key, body.sequence)) else None
    case _ => None
  }

  lemma {:induction false} ExpireKeepsMarks(r: State, i: nat, now: nat)
    requires i <= |r.sessions|
    ensures ExpireFrom(r, i, now).0.highWater == r.highWater
    decreases |r.sessions| - i
  {
    if i == |r.sessions| {
    } else if r.sessions[i].leaseUntil > now {
      ExpireKeepsMarks(r, i + 1, now);
    } else if r.revision < MAX_SAFE_INTEGER {
      ExpireKeepsMarks(Dropped(r, i), i, now);
    }
  }

  /** An accepted frame raises its extension's mark to its own sequence; nothing else moves a mark, and expiry forgets none. */
  lemma StepSequence(r: State, a: Action, key: Key)
    requires Valid(r) && !a.Restart?
    ensures Raises(SequenceOf(r, key), SequenceOf(Step(r, a).0, key), Accepted(r, a), key)
  {
    match a
    case Expire(now) => ExpireKeepsMarks(r, 0, now);
    case Register(connection, body, offer, now) =>
      var m := RegisterMove(r, connection, body, offer, now);
    case Heartbeat(_, _, _) => HeartbeatRaises(r, a, key);
    case Lifecycle(_, _, _) => LifecycleRaises(r, a, key);
    case Close(_, _) => CloseRaises(r, a, key);
    case Disconnect(_) =>
  }

  lemma HeartbeatRaises(r: State, a: Action, key: Key)
    requires Valid(r) && a.Heartbeat?
    ensures Raises(SequenceOf(r, key), SequenceOf(Step(r, a).0, key), Accepted(r, a), key)
  {
    MarkOf(r, Resolved(r.sessions, a.connection, a.heartbeat.connectionId, a.heartbeat.challenge));
  }

  lemma LifecycleRaises(r: State, a: Action, key: Key)
    requires Valid(r) && a.Lifecycle?
    ensures Raises(SequenceOf(r, key), SequenceOf(Step(r, a).0, key), Accepted(r, a), key)
  {
    MarkOf(r, Resolved(r.sessions, a.connection, a.lifecycle.connectionId, a.lifecycle.challenge));
  }

  lemma CloseRaises(r: State, a: Action, key: Key)
    requires Valid(r) && a.Close?
    ensures Raises(SequenceOf(r, key), SequenceOf(Step(r, a).0, key), Accepted(r, a), key)
  {
    MarkOf(r, Resolved(r.sessions, a.connection, a.close.connectionId, a.close.challenge));
  }

  predicate Raises(before: int, after: int, accepted: Option<(Key, nat)>, key: Key) {
    match accepted
    case Some((k, sequence)) => if k == key then before < sequence == after else after == before
    case None => after == before
  }

  lemma MarkOf(r: State, i: nat)
    requires Valid(r) && i <= |r.sessions|
    ensures i < |r.sessions| ==> SequenceOf(r, r.sessions[i].key) == r.sessions[i].sequence
  {
    if i < |r.sessions| {
      assert SessionConsistent(r, r.sessions[i]);
    }
  }

  lemma {:induction false} SequencesGrow(states: seq<State>, actions: seq<Action>, i: nat, j: nat, key: Key)
    requires Run(states, actions) && i <= j < |states| && forall k :: i <= k < j ==> !actions[k].Restart?
    ensures SequenceOf(states[i], key) <= SequenceOf(states[j], key)
    decreases j
  {
    if i < j {
      SequencesGrow(states, actions, i, j - 1, key);
      RunValid(states, actions, j - 1);
      StepSequence(states[j - 1], actions[j - 1], key);
    }
  }

  /** Every frame accepted for an extension carries a larger sequence than all accepted before it. */
  lemma AcceptedSequencesIncrease(states: seq<State>, actions: seq<Action>, i: nat, j: nat)
    requires Run(states, actions) && i < j < |actions| && forall k :: i <= k < j ==> !actions[k].Restart?
    requires Accepted(states[i], actions[i]).Some? && Accepted(states[j], actions[j]).Some?
    requires Accepted(states[i], actions[i]).value.0 == Accepted(states[j], actions[j]).value.0
    ensures Accepted(states[i], actions[i]).value.1 < Accepted(states[j], actions[j]).value.1
  {
    var key := Accepted(states[i], actions[i]).value.0;
    RunValid(states, actions, i);
    RunValid(states, actions, j);
    StepSequence(states[i], actions[i], key);
    SequencesGrow(states, actions, i + 1, j, key);
    if !actions[j].Restart? {
      StepSequence(states[j], actions[j], key);
    }
  }

  // ---- Credentials. ----

  ghost predicate Holds(r: State, connectionId: string, key: Key) {
    exists i :: 0 <= i < |r.sessions| && r.sessions[i].connectionId == connectionId && r.sessions[i].key == key
  }

  /** The authority check of isCurrentConnection. */
  predicate Live(r: State, connection: Connection, connectionId: string, challenge: string) {
    Resolved(r.sessions, connection, connectionId, challenge) < |r.sessions|
  }

  /** `s'` has the identity and credentials of `s`, and its transport unless that was lost. */
  predicate Inherits(s: Session, s': Session) {
    && s'.key == s.key && s'.connectionId == s.connectionId && s'.challenge == s.challenge
    && (s'.connection == s.connection || s'.connection == None)
  }

  lemma MoveInherits(r: State, m: Move, j: nat)
    requires Valid(r) && Possible(r, m) && j < |Moved(r, m).sessions| && Moved(r, m).sessions[j].connectionId in r.issued
    ensures j < |r.sessions| && Inherits(r.sessions[j], Moved(r, m).sessions[j])
  {
    if !m.Stay? && j == m.i {
      assert Moved(r, m).sessions[j] == m.s;
    } else {
      MoveSize(r, m);
      MoveKeeps(r, m, j);
    }
  }

  /** An identity handed out before names no session that it did not name before. */
  lemma StepCredentials(r: State, a: Action, j: nat)
    requires Valid(r) && j < |Step(r, a).0.sessions| && Step(r, a).0.sessions[j].connectionId in r.issued
    ensures !a.Restart? && exists s :: s in r.sessions && Inherits(s, Step(r, a).0.sessions[j])
  {
    if a.Expire? {
      ExpireCredentials(r, 0, a.now);
      assert Step(r, a).0.sessions[j] in r.sessions;
    } else {
      var m := OneMove(r, a);
      MoveInherits(r, m, j);
      assert r.sessions[j] in r.sessions;
    }
  }

  lemma StepIssued(r: State, a: Action)
    requires Valid(r)
    ensures r.issued <= Step(r, a).0.issued
  {
    if a.Expire? {
      ExpireCredentials(r, 0, a.now);
    } else if !a.Restart? {
      var m := OneMove(r, a);
    }
  }

  lemma {:induction false} ExpireCredentials(r: State, i: nat, now: nat)
    requires i <= |r.sessions|
    ensures ExpireFrom(r, i, now).0.issued == r.issued
    ensures forall s :: s in ExpireFrom(r, i, now).0.sessions ==> s in r.sessions
    decreases |r.sessions| - i
  {
    if i == |r.sessions| {
    } else if r.sessions[i].leaseUntil > now {
      ExpireCredentials(r, i + 1, now);
    } else if r.revision < MAX_SAFE_INTEGER {
      ExpireCredentials(Dropped(r, i), i, now);
    }
  }

  /** A credential that is not live never becomes live again, restarts included. */
  lemma {:induction false} DeadForever(states: seq<State>, actions: seq<Action>, i: nat, j: nat, connection: Connection, id: string, challenge: string)
    requires Run(states, actions) && i <= j < |states|
    requires id in states[i].issued && !Live(states[i], connection, id, challenge)
    ensures id in states[j].issued && !Live(states[j], connection, id, challenge)
    decreases j
  {
    if i < j {
      DeadForever(states, actions, i, j - 1, connection, id, challenge);
      RunValid(states, actions, j - 1);
      StepIssued(states[j - 1], actions[j - 1]);
      var after := Step(states[j - 1], actions[j - 1]).0;
      forall k | 0 <= k < |after.sessions| ensures !IsLive(after.sessions[k], connection, id, challenge) {
        if after.sessions[k].connectionId == id {
          StepCredentials(states[j - 1], actions[j - 1], k);
          var s :| s in states[j - 1].sessions && Inherits(s, after.sessions[k]);
        }
      }
    }
  }

  /** Frames under a credential that is not live are refused and change nothing. */
  lemma DeadRefused(r: State, connection: Connection, id: string, challenge: string, sequence: nat, status: Status, eventId: string, reason: string, now: nat)
    requires !Live(r, connection, id, challenge)
    ensures Step(r, Heartbeat(connection, HeartbeatBody(id, challenge, sequence, status), now)) == (r, Rejected(ConnectionNotCurrent))
    ensures Step(r, Lifecycle(connection, LifecycleBody(id, challenge, eventId, sequence, status), now)) == (r, Rejected(ConnectionNotCurrent))
    ensures Step(r, Close(connection, CloseBody(id, challenge, sequence, reason))) == (r, Rejected(ConnectionNotCurrent))
  {
  }

  /** A replaced, closed or disconnected credential is not live; `s` is the session that held it. */
  lemma Retired(r: State, a: Action, i: nat)
    requires Valid(r) && i < |r.sessions|
    requires match a
      case Register(_, body, _, _) => body.key == r.sessions[i].key && Step(r, a).1.Registered?
      case Close(connection, body) => Step(r, a).1.Recorded? && i == Resolved(r.sessions, connection, body.connectionId, body.challenge)
      case Disconnect(connection) => Step(r, a).1.Recorded? && i == OnTransport(r.sessions, connection)
      case Restart(_) => true
      case _ => false
    ensures var s := r.sessions[i];
      s.connectionId in r.issued && forall c :: !Live(Step(r, a).0, c, s.connectionId, s.challenge)
  {
    assert SessionConsistent(r, r.sessions[i]);
    if !a.Restart? {
      var m := OneMove(r, a);
      RetiredBy(r, a, i, m);
    }
  }

  /** The slot of a retired session has lost its transport or its identity. */
  lemma RetiredAt(r: State, a: Action, i: nat)
    requires Valid(r) && i < |r.sessions|
    requires match a
      case Register(_, body, _, _) => body.key == r.sessions[i].key && Step(r, a).1.Registered?
      case Close(connection, body) => Step(r, a).1.Recorded? && i == Resolved(r.sessions, connection, body.connectionId, body.challenge)
      case Disconnect(connection) => Step(r, a).1.Recorded? && i == OnTransport(r.sessions, connection)
      case _ => false
    ensures var after := Step(r, a).0;
      i < |after.sessions| && (after.sessions[i].connection == None || after.sessions[i].connectionId !in r.issued)
  {
    if a.Register? {
      var m := RegisterMove(r, a.connection, a.registration, a.offer, a.now);
      assert m.i == i;
    }
  }

  lemma RetiredBy(r: State, a: Action, i: nat, m: Move)
    requires Valid(r) && i < |r.sessions| && Possible(r, m) && Step(r, a).0 == Moved(r, m)
    requires match a
      case Register(_, body, _, _) => body.key == r.sessions[i].key && Step(r, a).1.Registered?
      case Close(connection, body) => Step(r, a).1.Recorded? && i == Resolved(r.sessions, connection, body.connectionId, body.challenge)
      case Disconnect(connection) => Step(r, a).1.Recorded? && i == OnTransport(r.sessions, connection)
      case _ => false
    ensures forall j :: 0 <= j < |Moved(r, m).sessions| && Moved(r, m).sessions[j].connectionId == r.sessions[i].connectionId ==>
      Moved(r, m).sessions[j].connection == None
  {
    var after := Moved(r, m);
    var id := r.sessions[i].connectionId;
    assert SessionConsistent(r, r.sessions[i]);
    RetiredAt(r, a, i);
    hide Step, RegisterStep, CloseStep, DisconnectStep, Possible, Moved;
    forall j | 0 <= j < |after.sessions| && after.sessions[j].connectionId == id ensures j == i {
      MoveInherits(r, m, j);
      assert r.sessions[j].connectionId == r.sessions[i].connectionId;
    }
  }

  /** After a sweep nothing whose lease has run out is live, unless revisions have run out. */
  lemma SweptAway(r: State, i: nat, now: nat)
    requires Valid(r) && i < |r.sessions| && r.sessions[i].leaseUntil <= now && Step(r, Expire(now)).1 == Silent
    ensures var s := r.sessions[i];
      s.connectionId in r.issued && forall c :: !Live(Step(r, Expire(now)).0, c, s.connectionId, s.challenge)
  {
    assert SessionConsistent(r, r.sessions[i]);
    SweepLeaves(r, 0, now);
    ExpireCredentials(r, 0, now);
    var after := Step(r, Expire(now)).0;
    forall k | 0 <= k < |after.sessions| ensures after.sessions[k].connectionId != r.sessions[i].connectionId {
      assert after.sessions[k] in r.sessions;
      var j :| 0 <= j < |r.sessions| && r.sessions[j] == after.sessions[k];
      assert after.sessions[k].leaseUntil > now;
    }
  }

  lemma {:induction false} SweepLeaves(r: State, i: nat, now: nat)
    requires i <= |r.sessions| && (forall k :: 0 <= k < i ==> r.sessions[k].leaseUntil > now) && ExpireFrom(r, i, now).1 == Silent
    ensures forall s :: s in ExpireFrom(r, i, now).0.sessions ==> s.leaseUntil > now
    decreases |r.sessions| - i
  {
    if i == |r.sessions| {
    } else if r.sessions[i].leaseUntil > now {
      SweepLeaves(r, i + 1, now);
    } else {
      SweepLeaves(Dropped(r, i), i, now);
    }
  }

  /** While an identity still names a session, it names the same extension, whose mark has only grown. */
  lemma {:induction false} CredentialHistory(states: seq<State>, actions: seq<Action>, i: nat, j: nat, id: string, key: Key)
    requires Run(states, actions) && i <= j < |states| && id in states[i].issued && Holds(states[j], id, key)
    ensures Holds(states[i], id, key) && SequenceOf(states[i], key) <= SequenceOf(states[j], key)
    ensures id in states[j].issued
    decreases j
  {
    if i < j {
      RunValid(states, actions, j - 1);
      IssuedGrow(states, actions, i, j - 1, id);
      StepHolds(states[j - 1], actions[j - 1], id, key);
      StepSequence(states[j - 1], actions[j - 1], key);
      StepIssued(states[j - 1], actions[j - 1]);
      hide *;
      CredentialHistory(states, actions, i, j - 1, id, key);
    }
  }

  lemma StepHolds(r: State, a: Action, id: string, key: Key)
    requires Valid(r) && id in r.issued && Holds(Step(r, a).0, id, key)
    ensures !a.Restart? && Holds(r, id, key)
  {
    var after := Step(r, a).0;
    var k :| 0 <= k < |after.sessions| && after.sessions[k].connectionId == id && after.sessions[k].key == key;
    StepCredentials(r, a, k);
    var s :| s in r.sessions && Inherits(s, after.sessions[k]);
    var k' :| 0 <= k' < |r.sessions| && r.sessions[k'] == s;
  }

  lemma {:induction false} IssuedGrow(states: seq<State>, actions: seq<Action>, i: nat, j: nat, id: string)
    requires Run(states, actions) && i <= j < |states| && id in states[i].issued
    ensures id in states[j].issued
    decreases j
  {
    if i < j {
      IssuedGrow(states, actions, i, j - 1, id);
      RunValid(states, actions, j - 1);
      StepIssued(states[j - 1], actions[j - 1]);
    }
  }

  /** Once a lifecycle frame has taken effect, its connection identity names only an extension whose mark is past it. */
  lemma LifecycleLeavesMark(states: seq<State>, actions: seq<Action>, i: nat, j: nat, key: Key)
    requires Run(states, actions) && i < j < |states| && actions[i].Lifecycle? && Accepted(states[i], actions[i]).Some?
    requires Holds(states[j], actions[i].lifecycle.connectionId, key)
    ensures actions[i].lifecycle.sequence <= SequenceOf(states[j], key)
  {
    var id := actions[i].lifecycle.connectionId;
    RunValid(states, actions, i);
    var at := Resolved(states[i].sessions, actions[i].connection, id, actions[i].lifecycle.challenge);
    assert SessionConsistent(states[i], states[i].sessions[at]);
    CredentialHistory(states, actions, i, j, id, key);
    StepSequence(states[i], actions[i], key);
    StepIssued(states[i], actions[i]);
    CredentialHistory(states, actions, i + 1, j, id, key);
  }

  /** A lifecycle frame takes effect at most once, however many other frames have evicted it from the dedup table since. */
  lemma LifecycleOnce(states: seq<State>, actions: seq<Action>, i: nat, j: nat)
    requires Run(states, actions) && i < j < |actions|
    requires actions[i].Lifecycle? && actions[j].Lifecycle? && actions[i].lifecycle == actions[j].lifecycle
    requires Accepted(states[i], actions[i]).Some?
    ensures Accepted(states[j], actions[j]) == None
  {
    var body := actions[i].lifecycle;
    RunValid(states, actions, j);
    if Accepted(states[j], actions[j]).Some? {
      var later := Accepted(states[j], actions[j]).value.0;
      var at := Resolved(states[j].sessions, actions[j].connection, body.connectionId, body.challenge);
      assert states[j].sessions[at].key == later;
      StepSequence(states[j], actions[j], later);
      LifecycleLeavesMark(states, actions, i, j, later);
    }
  }

  // ---- What an accepted frame and a sweep do to the session. ----

  predicate Reports(a: Action) {
    a.Register? || a.Heartbeat? || a.Lifecycle?
  }

  function StatusIn(a: Action): Status
    requires Reports(a)
  {
    match a
    case Register(_, body, _, _) => body.status
    case Heartbeat(_, body, _) => body.status
    case Lifecycle(_, body, _) => body.status
  }

  /** The sessions whose lease has not run out, in order. */
  function Kept(sessions: seq<Session>, now: nat): seq<Session> {
    if sessions == [] then []
    else (if sessions[0].leaseUntil > now then [sessions[0]] else []) + Kept(sessions[1..], now)
  }

  lemma {:induction false} KeptMembers(sessions: seq<Session>, now: nat)
    ensures forall s :: s in Kept(sessions, now) <==> s in sessions && s.leaseUntil > now
  {
    if sessions != [] {
      KeptMembers(sessions[1..], now);
      assert forall s :: s in sessions <==> s == sessions[0] || s in sessions[1..];
    }
  }

  /** The sweep that deletes while it scans removes exactly the sessions whose lease has run out, and keeps the order of the rest. */
  lemma {:induction false} SweepExact(r: State, i: nat, now: nat)
    requires i <= |r.sessions| && ExpireFrom(r, i, now).1 == Silent
    ensures ExpireFrom(r, i, now).0.sessions == r.sessions[..i] + Kept(r.sessions[i..], now)
    decreases |r.sessions| - i
  {
    if i == |r.sessions| {
      assert r.sessions[..i] == r.sessions;
    } else {
      assert r.sessions[i..][0] == r.sessions[i] && r.sessions[i..][1..] == r.sessions[i + 1..];
      if r.sessions[i].leaseUntil > now {
        SweepExact(r, i + 1, now);
        assert r.sessions[..i + 1] == r.sessions[..i] + [r.sessions[i]];
      } else {
        var next := Dropped(r, i);
        SweepExact(next, i, now);
        assert next.sessions[..i] == r.sessions[..i] && next.sessions[i..] == r.sessions[i + 1..];
      }
    }
  }

  /** The session of `key` shows `status`, is available, and holds a lease until `until`. */
  ghost predicate Leased(r: State, key: Key, sequence: nat, status: Status, until: nat) {
    exists i :: 0 <= i < |r.sessions| && var s := r.sessions[i];
      s.key == key && s.sequence == sequence && s.status == status && s.availability == Available && s.leaseUntil == until
  }

  /** An accepted report shows at once in the session of its extension, and renews its lease. */
  lemma AcceptedShows(r: State, a: Action)
    requires Valid(r) && Reports(a) && Accepted(r, a).Some?
    ensures Leased(Step(r, a).0, Accepted(r, a).value.0, Accepted(r, a).value.1, StatusIn(a), a.now + LEASE_DURATION_MS)
  {
    match a
    case Register(connection, body, offer, now) => RegisterShows(r, connection, body, offer, now);
    case Heartbeat(connection, body, now) => HeartbeatShows(r, connection, body, now);
    case Lifecycle(connection, body, now) => LifecycleShows(r, connection, body, now);
  }

  lemma RegisterShows(r: State, connection: Connection, body: RegisterBody, offer: Offer, now: nat)
    requires RegisterStep(r, connection, body, offer, now).1.Registered?
    ensures Leased(RegisterStep(r, connection, body, offer, now).0, body.key, body.sequence, body.status, now + LEASE_DURATION_MS)
  {
    var i := ByKey(r.sessions, body.key);
    assert RegisterStep(r, connection, body, offer, now).0.sessions[i].key == body.key;
  }

  lemma HeartbeatShows(r: State, connection: Connection, body: HeartbeatBody, now: nat)
    requires Valid(r)
    requires HeartbeatStep(r, connection, body, now).1.Recorded?
    ensures var i := Resolved(r.sessions, connection, body.connectionId, body.challenge);
      i < |r.sessions| && Leased(HeartbeatStep(r, connection, body, now).0, r.sessions[i].key, body.sequence, body.status, now + LEASE_DURATION_MS)
  {
    var i := Resolved(r.sessions, connection, body.connectionId, body.challenge);
    assert SessionConsistent(r, r.sessions[i]);
    var after := HeartbeatStep(r, connection, body, now).0;
    assert after.sessions[i].key == r.sessions[i].key && after.sessions[i].availability == Available;
  }

  lemma LifecycleShows(r: State, connection: Connection, body: LifecycleBody, now: nat)
    requires Valid(r)
    requires Accepted(r, Lifecycle(connection, body, now)).Some?
    ensures var i := Resolved(r.sessions, connection, body.connectionId, body.challenge);
      i < |r.sessions| && Leased(LifecycleStep(r, connection, body, now).0, r.sessions[i].key, body.sequence, body.status, now + LEASE_DURATION_MS)
  {
    var i := Resolved(r.sessions, connection, body.connectionId, body.challenge);
    assert SessionConsistent(r, r.sessions[i]);
    var after := LifecycleStep(r, connection, body, now).0;
    assert after.sessions[i].key == r.sessions[i].key && after.sessions[i].availability == Available;
  }

  lemma KeptKey(sessions: seq<Session>, i: nat, later: nat)
    requires i < |sessions| && forall j, k :: 0 <= j < k < |sessions| ==> sessions[j].key != sessions[k].key
    ensures (exists s :: s in Kept(sessions, later) && s.key == sessions[i].key) <==> later < sessions[i].leaseUntil
  {
    KeptMembers(sessions, later);
    hide Kept;
    if later < sessions[i].leaseUntil {
      assert sessions[i] in Kept(sessions, later);
    } else {
      forall s | s in Kept(sessions, later) ensures s.key != sessions[i].key {
        var j :| 0 <= j < |sessions| && sessions[j] == s;
        assert j < i || i < j;
      }
    }
  }

  lemma DistinctKeys(r: State)
    requires Valid(r)
    ensures forall j, k :: 0 <= j < k < |r.sessions| ==> r.sessions[j].key != r.sessions[k].key
  {
    hide SessionConsistent;
  }

  /** A sweep after an accepted report leaves the extension's session if and only if its 15000 ms are not over. */
  lemma LeaseExact(r: State, a: Action, later: nat)
    requires Valid(r) && Reports(a) && Accepted(r, a).Some?
    requires ExpireFrom(Step(r, a).0, 0, later).1 == Silent
    ensures var key := Accepted(r, a).value.0; var swept := ExpireFrom(Step(r, a).0, 0, later).0;
      (exists s :: s in swept.sessions && s.key == key) <==> later < a.now + LEASE_DURATION_MS
  {
    hide Step, Accepted, Valid, ExpireFrom;
    var after := Step(r, a).0;
    AcceptedShows(r, a);
    StepValid(r, a);
    DistinctKeys(after);
    SweepWhole(after, later);
    var i :| 0 <= i < |after.sessions| && after.sessions[i].key == Accepted(r, a).value.0 && after.sessions[i].leaseUntil == a.now + LEASE_DURATION_MS;
    KeptKey(after.sessions, i, later);
  }

  lemma SweepWhole(r: State, now: nat)
    requires ExpireFrom(r, 0, now).1 == Silent
    ensures ExpireFrom(r, 0, now).0.sessions == Kept(r.sessions, now)
  {
    SweepExact(r, 0, now);
    hide ExpireFrom, Kept;
    assert r.sessions[0..] == r.sessions && r.sessions[..0] == [];
    assert [] + Kept(r.sessions, now) == Kept(r.sessions, now);
  }
}

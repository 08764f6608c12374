/** One extension and the registry, over connections that are FIFO but can be lost at any moment. */
module Protocol {
  import opened Contracts
  import opened Registry
  import opened RegistryRuns
  import opened RegistryGuarantees
  import opened Extension

  /**
   * `out` and `back` hold what is in flight on each of the extension's connections, `greeted` the connections the
   * gateway has registered, `gone` those it has seen closed, `others` the connections of everybody else, and
   * `events` the sequence every event identity was sent with.
   */
  datatype System = System(
    r: State, greeted: set<Connection>, gone: set<Connection>,
    out: map<Connection, seq<Frame>>, back: map<Connection, seq<Answer>>,
    e: Adapter, others: set<Connection>, events: map<string, nat>)

  datatype Happening =
    | ConnectNow | RetryNow | ConnectFailsNow
    | BindNow(connection: Connection, status: Status)
    | HeartbeatNow(status: Status) | LifecycleNow(status: Status) | ShutdownNow(reason: string)
    | CloseSeen(connection: Connection)
    | FrameArrives(connection: Connection, offer: Offer, now: nat)
    | AnswerArrives(connection: Connection, incompatible: bool)
    | Lost(connection: Connection, sent: nat, answered: nat)
    | GatewaySeesClose(connection: Connection)
    | Elsewhere(action: Action)

  function Sent(s: System, connection: Connection, f: Frame): System
    requires connection in s.out
  {
    s.(out := s.out[connection := s.out[connection] + [f]],
       events := if f.LifecycleFrame? then s.events[f.lifecycle.eventId := f.lifecycle.sequence] else s.events)
  }

  function Sending(s: System, connection: Option<Connection>, result: (Adapter, Option<Frame>)): System {
    if result.1 == None || connection == None || connection.value !in s.out then s.(e := result.0)
    else Sent(s.(e := result.0), connection.value, result.1.value)
  }

  function Current(e: Adapter): Option<Connection> {
    if e.active == None then None else Some(e.active.value.connection)
  }

  function ActionOf(f: Frame, connection: Connection, offer: Offer, now: nat): Action {
    match f
    case RegisterFrame(b) => Register(connection, b, offer, now)
    case HeartbeatFrame(b) => Heartbeat(connection, b, now)
    case LifecycleFrame(b) => Lifecycle(connection, b, now)
    case CloseFrame(b) => Close(connection, b)
  }

  /** The gateway's answers to one frame: registrations are answered, other frames only when they are refused. */
  function Answers(reply: Reply, f: Frame): seq<Answer> {
    match reply
    case Rejected(error) => [RejectedAnswer(error)]
    case Registered(_, id, challenge, attempt, sequence, _) => if f.RegisterFrame? then [RegisteredAnswer(id, challenge, attempt, sequence)] else []
    case _ => []
  }

  function Deliver(s: System, connection: Connection, offer: Offer, now: nat): System
    requires connection in s.out && s.out[connection] != [] && connection in s.back
  {
    var f := s.out[connection][0];
    var taken := s.(out := s.out[connection := s.out[connection][1..]]);
    if connection in s.gone then taken
    else if !f.RegisterFrame? && connection !in s.greeted then
      taken.(back := s.back[connection := s.back[connection] + [RejectedAnswer(ConnectionNotCurrent)]])
    else
      var (r, reply) := Step(s.r, ActionOf(f, connection, offer, now));
      taken.(r := r, greeted := if reply.Registered? then s.greeted + {connection} else s.greeted,
             back := s.back[connection := s.back[connection] + Answers(reply, f)])
  }

  /** What anybody else may make the registry do: frames on other connections, other registrations, sweeps, restarts. */
  predicate Foreign(s: System, a: Action) {
    match a
    case Expire(_) => true
    case Restart(_) => true
    case Register(connection, body, _, _) => connection !in s.out && body.key != s.e.key
    case _ => a.connection !in s.out
  }

  function Next(s: System, h: Happening): System {
    match h
    case ConnectNow => s.(e := Connect(s.e))
    case RetryNow => s.(e := Retry(s.e))
    case ConnectFailsNow => s.(e := ConnectFails(s.e))
    case BindNow(c, status) =>
      if c in s.out || c in s.others then s
      else Sending(s.(out := s.out[c := []], back := s.back[c := []]), Some(c), Bind(s.e, c, status))
    case HeartbeatNow(status) => Sending(s, Current(s.e), SendHeartbeat(s.e, status))
    case LifecycleNow(status) => Sending(s, Current(s.e), SendLifecycle(s.e, status))
    case ShutdownNow(reason) => Sending(s, Current(s.e), Shutdown(s.e, reason))
    case CloseSeen(c) => if Current(s.e) == Some(c) then s.(e := FailOpen(s.e)) else s
    case FrameArrives(c, offer, now) => if c in s.out && s.out[c] != [] && c in s.back then Deliver(s, c, offer, now) else s
    case AnswerArrives(c, incompatible) =>
      if c in s.back && s.back[c] != [] then
        s.(back := s.back[c := s.back[c][1..]], e := Receive(s.e, c, s.back[c][0], incompatible))
      else s
    case Lost(c, sent, answered) =>
      if c in s.out && c in s.back && sent <= |s.out[c]| && answered <= |s.back[c]| then
        s.(out := s.out[c := s.out[c][..sent]], back := s.back[c := s.back[c][..answered]])
      else s
    case GatewaySeesClose(c) =>
      if c in s.out && c !in s.gone then s.(r := Step(s.r, Disconnect(c)).0, gone := s.gone + {c}) else s
    case Elsewhere(a) =>
      if Foreign(s, a) then
        s.(r := Step(s.r, a).0, others := if a.Expire? || a.Restart? then s.others else s.others + {a.connection})
      else s
  }

  // ---- What holds in every reachable state. ----

  function AttemptOf(r: State, key: Key): int {
    if key in r.highWater then r.highWater[key].attempt else -1
  }

  /** Frames on other connections than the current one carry sequences below this. */
  function Floor(e: Adapter): nat {
    match e.connecting
    case Some(c) => c.1
    case None => if e.active.Some? then e.active.value.first else e.sequence + 1
  }

  function AttemptFloor(e: Adapter): nat {
    match e.connecting
    case Some(c) => c.0
    case None => if e.active.Some? then e.active.value.attempt else e.attempt + 1
  }

  ghost predicate AdapterOk(e: Adapter) {
    && (e.connecting.Some? ==> e.active == None && e.connecting.value == (e.attempt, e.sequence))
    && (e.active.Some? ==>
      && e.active.value.first <= e.active.value.sequence == e.sequence && e.active.value.attempt == e.attempt
      && (e.active.value.registered == None ==> e.active.value.first == e.active.value.sequence))
    && e.retries <= e.config.maxAttempts
  }

  /** A frame in flight on connection `c`. */
  ghost predicate FrameOk(s: System, c: Connection, f: Frame) {
    var q := SequenceOfFrame(f);
    && q <= s.e.sequence
    && (f.RegisterFrame? ==> f.registration.key == s.e.key && f.registration.attempt <= s.e.attempt)
    && (f.LifecycleFrame? ==> f.lifecycle.eventId in s.events && s.events[f.lifecycle.eventId] == q)
    && if Current(s.e) == Some(c) then
         && q > SequenceOf(s.r, s.e.key) && q >= s.e.active.value.first
         && (f.RegisterFrame? ==> q == s.e.active.value.first && f.registration.attempt == s.e.active.value.attempt)
       else q < Floor(s.e) && (f.RegisterFrame? ==> f.registration.attempt < AttemptFloor(s.e))
  }

  /** On the current connection sequences grow, and only what comes first can be a registration newer than the mark. */
  ghost predicate FramesOk(s: System) {
    && (forall c, i :: c in s.out && 0 <= i < |s.out[c]| ==> FrameOk(s, c, s.out[c][i]))
    && (forall c, i, j :: c in s.out && 0 <= i < j < |s.out[c]| ==> SequenceOfFrame(s.out[c][i]) < SequenceOfFrame(s.out[c][j]))
  }

  /** The registry's marks for this extension against what the extension has handed out. */
  ghost predicate MarksOk(s: System) {
    var mark, attempt := SequenceOf(s.r, s.e.key), AttemptOf(s.r, s.e.key);
    && mark <= s.e.sequence && attempt <= s.e.attempt
    && (s.e.connecting.Some? ==> mark < Floor(s.e) && attempt < AttemptFloor(s.e))
    && (s.e.active.Some? && mark < s.e.active.value.first ==> attempt < s.e.active.value.attempt)
  }

  ghost predicate AnswersOk(s: System) {
    && s.back.Keys == s.out.Keys && s.out.Keys !! s.others
    && (Current(s.e).Some? ==> Current(s.e).value in s.out)
    && (Current(s.e).Some? ==> forall answer :: answer in s.back[Current(s.e).value] && answer.RegisteredAnswer? ==>
          answer.attempt == s.e.active.value.attempt && answer.sequence == s.e.active.value.first)
  }

  /** The extension's session is on its own connections, and remembers only its own events. */
  ghost predicate SessionOk(own: set<Connection>, others: set<Connection>, key: Key, events: map<string, nat>, session: Registry.Session) {
    && (session.connection.Some? ==> session.connection.value in own || session.connection.value in others)
    && (session.connection.Some? && session.connection.value in own ==> session.key == key)
    && (session.key == key ==>
      && (session.connection.Some? ==> session.connection.value in own)
      && forall d :: d in session.dedup ==> d.body.eventId in events && events[d.body.eventId] == d.body.sequence)
  }

  ghost predicate SessionsOk(own: set<Connection>, others: set<Connection>, key: Key, events: map<string, nat>, r: State) {
    forall i :: 0 <= i < |r.sessions| ==> SessionOk(own, others, key, events, r.sessions[i])
  }

  ghost predicate EventsOk(s: System) {
    forall id :: id in s.events ==> exists m: nat :: m <= s.e.message && m <= MAX_SAFE_INTEGER && id == EventId(m)
  }

  ghost predicate Inv(s: System) {
    && Valid(s.r) && AdapterOk(s.e) && FramesOk(s) && MarksOk(s) && AnswersOk(s) && EventsOk(s)
    && SessionsOk(s.out.Keys, s.others, s.e.key, s.events, s.r)
  }

  // ---- Registry steps. ----

  /** Actions that only the extension's own frames can be, or that are nobody's or somebody else's. */
  ghost predicate Belongs(own: set<Connection>, others: set<Connection>, key: Key, events: map<string, nat>, a: Action) {
    && (a.Register? ==> (a.registration.key == key <==> a.connection in own) && (a.connection in own || a.connection in others))
    && (a.Lifecycle? && a.connection in own ==>
          a.lifecycle.eventId in events && events[a.lifecycle.eventId] == a.lifecycle.sequence)
  }

  lemma MoveSessionOk(own: set<Connection>, others: set<Connection>, key: Key, events: map<string, nat>, r: State, a: Action, m: Move)
    requires Valid(r) && SessionsOk(own, others, key, events, r) && Belongs(own, others, key, events, a) && Possible(r, m) && !m.Stay?
    requires m.Admit? ==> a.Register? && m.s.key == a.registration.key && m.s.connection == Some(a.connection)
    requires m.Change? && m.kind == LifecycleEvent ==>
      && a.Lifecycle? && m.i == Resolved(r.sessions, a.connection, a.lifecycle.connectionId, a.lifecycle.challenge)
      && forall d :: d in m.s.dedup ==> d in r.sessions[m.i].dedup || d.body == a.lifecycle
    ensures SessionOk(own, others, key, events, m.s)
  {
    if m.i < |r.sessions| {
      assert SessionOk(own, others, key, events, r.sessions[m.i]);
    }
  }

  lemma StepSessionsOk(own: set<Connection>, others: set<Connection>, key: Key, events: map<string, nat>, r: State, a: Action)
    requires Valid(r) && SessionsOk(own, others, key, events, r) && Belongs(own, others, key, events, a)
    ensures SessionsOk(own, others, key, events, Step(r, a).0)
  {
    if a.Expire? {
      ExpireCredentials(r, 0, a.now);
      var after := Step(r, a).0;
      forall j | 0 <= j < |after.sessions| ensures SessionOk(own, others, key, events, after.sessions[j]) {
        assert after.sessions[j] in r.sessions;
      }
    } else if !a.Restart? {
      var m := OneMove(r, a);
      if !m.Stay? {
        MoveSessionOk(own, others, key, events, r, a, m);
      }
      MoveSize(r, m);
      forall j | 0 <= j < |r.sessions| && (m.Stay? || j != m.i) {
        MoveKeeps(r, m, j);
      }
      hide *;
      SlotsOk(own, others, key, events, r, m, Step(r, a).0);
    }
  }

  lemma SlotsOk(own: set<Connection>, others: set<Connection>, key: Key, events: map<string, nat>, r: State, m: Move, after: State)
    requires SessionsOk(own, others, key, events, r) && (!m.Stay? ==> SessionOk(own, others, key, events, m.s))
    requires m.Stay? ==> |after.sessions| == |r.sessions|
    requires !m.Stay? ==> m.i < |after.sessions| <= (if m.i < |r.sessions| then |r.sessions| else m.i + 1) && m.i <= |r.sessions|
    requires !m.Stay? ==> after.sessions[m.i] == m.s
    requires |r.sessions| <= |after.sessions|
    requires forall j :: 0 <= j < |r.sessions| && (m.Stay? || j != m.i) ==> after.sessions[j] == r.sessions[j]
    ensures SessionsOk(own, others, key, events, after)
  {
    forall j | 0 <= j < |after.sessions| ensures SessionOk(own, others, key, events, after.sessions[j]) {
      assert (!m.Stay? && j == m.i) || (j < |r.sessions| && after.sessions[j] == r.sessions[j]);
    }
  }

  /** The attempt mark moves only with an accepted registration. */
  lemma StepAttempt(r: State, a: Action, key: Key)
    requires Valid(r) && !a.Restart?
    ensures AttemptOf(Step(r, a).0, key) ==
      if a.Register? && Step(r, a).1.Registered? && a.registration.key == key then a.registration.attempt else AttemptOf(r, key)
  {
    if a.Expire? {
      ExpireKeepsMarks(r, 0, a.now);
    } else {
      var m := OneMove(r, a);
      if !m.Stay? && m.i < |r.sessions| {
        assert SessionConsistent(r, r.sessions[m.i]);
      }
    }
  }

  /** What others do leaves the extension's marks alone, or forgets them at a restart. */
  lemma ForeignMarks(s: System, a: Action)
    requires Valid(s.r) && SessionsOk(s.out.Keys, s.others, s.e.key, s.events, s.r)
    requires Foreign(s, a) || a.Disconnect?
    ensures var r := Step(s.r, a).0;
      if a.Restart? then SequenceOf(r, s.e.key) == -1 == AttemptOf(r, s.e.key)
      else SequenceOf(r, s.e.key) == SequenceOf(s.r, s.e.key) && AttemptOf(r, s.e.key) == AttemptOf(s.r, s.e.key)
    ensures a.Register? ==> Belongs(s.out.Keys, s.others + {a.connection}, s.e.key, s.events, a)
    ensures !a.Register? ==> Belongs(s.out.Keys, s.others, s.e.key, s.events, a)
  {
    if !a.Restart? {
      StepSequence(s.r, a, s.e.key);
      StepAttempt(s.r, a, s.e.key);
      assert Accepted(s.r, a).Some? ==> Accepted(s.r, a).value.0 != s.e.key by {
        assert forall i :: 0 <= i < |s.r.sessions| ==> SessionOk(s.out.Keys, s.others, s.e.key, s.events, s.r.sessions[i]);
      }
    }
  }

  lemma RegistryKeepsInv(s: System, a: Action, later: System)
    requires Inv(s) && (Foreign(s, a) || a.Disconnect?)
    requires later.r == Step(s.r, a).0 && later.e == s.e && later.out == s.out && later.back == s.back && later.events == s.events
    requires s.others <= later.others && later.others !! s.out.Keys && (a.Register? ==> a.connection in later.others)
    ensures Inv(later)
  {
    ForeignMarks(s, a);
    StepValid(s.r, a);
    assert SessionsOk(s.out.Keys, later.others, s.e.key, s.events, s.r);
    StepSessionsOk(s.out.Keys, later.others, s.e.key, s.events, s.r, a);
    hide Step, Valid, Foreign, SessionsOk;
    forall c, i | c in s.out && 0 <= i < |s.out[c]| ensures FrameOk(later, c, later.out[c][i]) {
      assert FrameOk(s, c, s.out[c][i]);
    }
  }

  // ---- Extension steps. ----

  /** A step of the extension that sends nothing and opens nothing. */
  ghost predicate Local(e: Adapter, e': Adapter) {
    && e'.key == e.key && AdapterOk(e')
    && e.sequence <= e'.sequence && e.attempt <= e'.attempt && e.message <= e'.message
    && Floor(e) <= Floor(e') && AttemptFloor(e) <= AttemptFloor(e')
    && (e'.active.Some? ==>
          && e.active.Some? && e'.active.value.connection == e.active.value.connection
          && e'.active.value.first == e.active.value.first && e'.active.value.attempt == e.active.value.attempt)
    && (e.active.Some? && e'.active == None ==> Floor(e') > e.sequence && AttemptFloor(e') > e.attempt)
    && (e'.connecting.Some? ==> e'.connecting == e.connecting || (Floor(e') > e.sequence && AttemptFloor(e') > e.attempt))
  }

  lemma LocalKeepsInv(s: System, e': Adapter)
    requires Inv(s) && Local(s.e, e')
    ensures Inv(s.(e := e'))
  {
    var later := s.(e := e');
    forall c, i | c in s.out && 0 <= i < |s.out[c]| ensures FrameOk(later, c, later.out[c][i]) {
      assert FrameOk(s, c, s.out[c][i]);
    }
    forall id | id in s.events ensures exists m: nat :: m <= e'.message && m <= MAX_SAFE_INTEGER && id == EventId(m) {
      var m: nat :| m <= s.e.message && m <= MAX_SAFE_INTEGER && id == EventId(m);
    }
  }

  lemma LocalSteps(e: Adapter, c: Connection, answer: Answer, incompatible: bool)
    requires AdapterOk(e)
    ensures Local(e, Connect(e)) && Local(e, Retry(e)) && Local(e, ConnectFails(e)) && Local(e, FailOpen(e))
    ensures Local(e, Receive(e, c, answer, incompatible))
  {
  }

  // ---- Sending. ----

  /** Appending a frame to the current connection, or to the one just given up. */
  lemma SendKeepsInv(s: System, e': Adapter, c: Connection, f: Frame)
    requires Inv(s) && Current(s.e) == Some(c) && e'.key == s.e.key && AdapterOk(e')
    requires e'.sequence == s.e.sequence + 1 == SequenceOfFrame(f) && e'.attempt == s.e.attempt && e'.connecting == None
    requires s.e.message < e'.message && !f.RegisterFrame?
    requires e'.active == None || (Current(e') == Some(c) && e'.active.value.first == s.e.active.value.first)
    requires f.LifecycleFrame? ==> f.lifecycle.eventId == EventId(s.e.message + 1) && s.e.message + 1 <= MAX_SAFE_INTEGER
    ensures Inv(Sent(s.(e := e'), c, f))
  {
    var later := Sent(s.(e := e'), c, f);
    NewEvent(s, e', f);
    forall c', i | c' in later.out && 0 <= i < |later.out[c']| ensures FrameOk(later, c', later.out[c'][i]) {
      if c' != c || i < |s.out[c]| {
        assert FrameOk(s, c', s.out[c'][i]);
      }
    }
    forall c', i, j | c' in later.out && 0 <= i < j < |later.out[c']|
      ensures SequenceOfFrame(later.out[c'][i]) < SequenceOfFrame(later.out[c'][j])
    {
      assert FrameOk(s, c', s.out[c'][i]);
    }
    SessionsKeepEvents(s, later.events);
  }

  /** A fresh event identity is in nobody's memory. */
  lemma NewEvent(s: System, e': Adapter, f: Frame)
    requires EventsOk(s) && s.e.message < e'.message
    requires f.LifecycleFrame? ==> f.lifecycle.eventId == EventId(s.e.message + 1) && s.e.message + 1 <= MAX_SAFE_INTEGER
    ensures f.LifecycleFrame? ==> f.lifecycle.eventId !in s.events
    ensures EventsOk(s.(e := e', events := if f.LifecycleFrame? then s.events[f.lifecycle.eventId := f.lifecycle.sequence] else s.events))
  {
    hide EventId;
    var later := if f.LifecycleFrame? then s.events[f.lifecycle.eventId := f.lifecycle.sequence] else s.events;
    forall id | id in later ensures exists m: nat :: m <= e'.message && m <= MAX_SAFE_INTEGER && id == EventId(m) {
      if id in s.events {
        var m: nat :| m <= s.e.message && m <= MAX_SAFE_INTEGER && id == EventId(m);
      } else {
        var m := s.e.message + 1;
        assert id == EventId(m);
      }
    }
    if f.LifecycleFrame? && f.lifecycle.eventId in s.events {
      var m: nat :| m <= s.e.message && m <= MAX_SAFE_INTEGER && f.lifecycle.eventId == EventId(m);
      EventIdsDiffer(m, s.e.message + 1);
    }
  }

  lemma SessionsKeepEvents(s: System, events: map<string, nat>)
    requires SessionsOk(s.out.Keys, s.others, s.e.key, s.events, s.r)
    requires forall id :: id in s.events ==> id in events && events[id] == s.events[id]
    ensures SessionsOk(s.out.Keys, s.others, s.e.key, events, s.r)
  {
    forall i | 0 <= i < |s.r.sessions| ensures SessionOk(s.out.Keys, s.others, s.e.key, events, s.r.sessions[i]) {
      assert SessionOk(s.out.Keys, s.others, s.e.key, s.events, s.r.sessions[i]);
    }
  }

  /** A new connection with nothing on it. */
  lemma OpenedKeepsInv(s: System, c: Connection)
    requires Inv(s) && c !in s.out && c !in s.others
    ensures Inv(s.(out := s.out[c := []], back := s.back[c := []]))
  {
    var later := s.(out := s.out[c := []], back := s.back[c := []]);
    forall c', i | c' in later.out && 0 <= i < |later.out[c']| ensures FrameOk(later, c', later.out[c'][i]) {
      assert FrameOk(s, c', s.out[c'][i]);
    }
    forall i | 0 <= i < |s.r.sessions| ensures SessionOk(later.out.Keys, s.others, s.e.key, s.events, s.r.sessions[i]) {
      assert SessionOk(s.out.Keys, s.others, s.e.key, s.events, s.r.sessions[i]);
    }
  }

  /** The registration goes out as the first frame of its connection. */
  lemma RegistrationKeepsInv(s: System, c: Connection, status: Status)
    requires Inv(s) && c in s.out && s.out[c] == [] && s.back[c] == [] && s.e.connecting.Some? && !s.e.ended
    ensures Inv(Sending(s, Some(c), Bind(s.e, c, status)))
  {
    var later := Sending(s, Some(c), Bind(s.e, c, status));
    assert later.out.Keys == s.out.Keys;
    forall c', i | c' in later.out && 0 <= i < |later.out[c']| ensures FrameOk(later, c', later.out[c'][i]) {
      if c' != c {
        assert FrameOk(s, c', s.out[c'][i]);
      }
    }
    forall id | id in s.events ensures exists m: nat :: m <= later.e.message && m <= MAX_SAFE_INTEGER && id == EventId(m) {
      var m: nat :| m <= s.e.message && m <= MAX_SAFE_INTEGER && id == EventId(m);
    }
  }

  lemma BindKeepsInv(s: System, c: Connection, status: Status)
    requires Inv(s) && c !in s.out && c !in s.others
    ensures Inv(Next(s, BindNow(c, status)))
  {
    OpenedKeepsInv(s, c);
    var fresh' := s.(out := s.out[c := []], back := s.back[c := []]);
    if s.e.connecting.Some? && !s.e.ended {
      RegistrationKeepsInv(fresh', c, status);
    } else {
      LocalKeepsInv(fresh', Bind(s.e, c, status).0);
    }
  }

  // ---- Delivery. ----

  /** Losing frames and answers in flight breaks nothing. */
  lemma FrameStillOk(s: System, later: System, c: Connection, f: Frame)
    requires FrameOk(s, c, f) && later.r == s.r && later.e == s.e && later.events == s.events
    ensures FrameOk(later, c, f)
  {
  }

  lemma LossKeepsInv(s: System, c: Connection, frames: seq<Frame>, answers: seq<Answer>)
    requires Inv(s) && c in s.out
    requires exists from, to :: 0 <= from <= to <= |s.out[c]| && frames == s.out[c][from..to]
    requires forall a :: a in answers ==> a in s.back[c]
    ensures Inv(s.(out := s.out[c := frames], back := s.back[c := answers]))
  {
    var later := s.(out := s.out[c := frames], back := s.back[c := answers]);
    hide Valid, AdapterOk, SessionsOk, FrameOk;
    assert later.out.Keys == s.out.Keys;
    var from, to :| 0 <= from <= to <= |s.out[c]| && frames == s.out[c][from..to];
    forall c', i | c' in later.out && 0 <= i < |later.out[c']| ensures FrameOk(later, c', later.out[c'][i]) {
      FrameStillOk(s, later, c', s.out[c'][if c' == c then from + i else i]);
    }
  }

  /** What the registry does with a frame of the extension's that is newer than its marks, as far as the marks go. */
  lemma DeliveredMarks(s: System, c: Connection, offer: Offer, now: nat)
    requires Inv(s) && c in s.out && s.out[c] != []
    ensures var f := s.out[c][0]; var a := ActionOf(f, c, offer, now); var r := Step(s.r, a).0; var key := s.e.key;
      && Belongs(s.out.Keys, s.others, key, s.events, a)
      && (SequenceOf(r, key) == SequenceOf(s.r, key) || SequenceOf(s.r, key) < SequenceOf(r, key) == SequenceOfFrame(f))
      && (AttemptOf(r, key) == AttemptOf(s.r, key)
          || (f.RegisterFrame? && AttemptOf(r, key) == f.registration.attempt && SequenceOf(r, key) == SequenceOfFrame(f)))
      && (Step(s.r, a).1.Registered? && f.RegisterFrame? ==>
          Step(s.r, a).1.attempt == f.registration.attempt && Step(s.r, a).1.sequence == f.registration.sequence)
  {
    var f := s.out[c][0];
    var a := ActionOf(f, c, offer, now);
    assert FrameOk(s, c, f);
    StepSequence(s.r, a, s.e.key);
    StepAttempt(s.r, a, s.e.key);
    if f.RegisterFrame? {
      var m := RegisterMove(s.r, c, f.registration, offer, now);
    }
  }

  lemma DeliveryKeepsInv(s: System, c: Connection, offer: Offer, now: nat)
    requires Inv(s) && c in s.out && s.out[c] != []
    ensures Inv(Deliver(s, c, offer, now))
  {
    var f := s.out[c][0];
    var a := ActionOf(f, c, offer, now);
    assert FrameOk(s, c, f);
    var rest := s.out[c][1..];
    assert rest == s.out[c][1..|s.out[c]|];
    LossKeepsInv(s, c, rest, s.back[c]);
    var taken := s.(out := s.out[c := rest], back := s.back[c := s.back[c]]);
    assert taken.back == s.back;
    if c in s.gone {
    } else if !f.RegisterFrame? && c !in s.greeted {
      AnswerAdded(taken, c, RejectedAnswer(ConnectionNotCurrent));
    } else {
      DeliveredMarks(s, c, offer, now);
      StepValid(s.r, a);
      StepSessionsOk(s.out.Keys, s.others, s.e.key, s.events, s.r, a);
      var (r, reply) := Step(s.r, a);
      MarkedKeepsInv(s, c, taken, r);
      var answers := Answers(reply, f);
      if |answers| == 1 {
        AnswerAdded(taken.(r := r), c, answers[0]);
      } else {
        assert answers == [] && s.back[c] + answers == s.back[c];
        assert taken.back[c := taken.back[c] + answers] == taken.back;
      }
      GreetedIsFree(taken.(r := r, back := taken.back[c := taken.back[c] + answers]), if reply.Registered? then s.greeted + {c} else s.greeted);
    }
  }

  lemma GreetedIsFree(s: System, greeted: set<Connection>)
    requires Inv(s)
    ensures Inv(s.(greeted := greeted))
  {
    var later := s.(greeted := greeted);
    forall c, i | c in s.out && 0 <= i < |s.out[c]| ensures FrameOk(later, c, later.out[c][i]) {
      assert FrameOk(s, c, s.out[c][i]);
    }
  }

  lemma AnswerAdded(s: System, c: Connection, answer: Answer)
    requires Inv(s) && c in s.out
    requires answer.RegisteredAnswer? && Current(s.e) == Some(c) ==>
      answer.attempt == s.e.active.value.attempt && answer.sequence == s.e.active.value.first
    ensures Inv(s.(back := s.back[c := s.back[c] + [answer]]))
  {
    var later := s.(back := s.back[c := s.back[c] + [answer]]);
    forall c', i | c' in s.out && 0 <= i < |s.out[c']| ensures FrameOk(later, c', later.out[c'][i]) {
      assert FrameOk(s, c', s.out[c'][i]);
    }
  }

  /** After the first frame of a connection has been accepted or refused, the rest is still newer than the marks. */
  lemma MarkedKeepsInv(s: System, c: Connection, taken: System, r: State)
    requires Inv(s) && c in s.out && s.out[c] != [] && Inv(taken)
    requires taken == s.(out := s.out[c := s.out[c][1..]])
    requires Valid(r) && SessionsOk(s.out.Keys, s.others, s.e.key, s.events, r)
    requires var f := s.out[c][0]; var key := s.e.key;
      && (SequenceOf(r, key) == SequenceOf(s.r, key) || SequenceOf(s.r, key) < SequenceOf(r, key) == SequenceOfFrame(f))
      && (AttemptOf(r, key) == AttemptOf(s.r, key)
          || (f.RegisterFrame? && AttemptOf(r, key) == f.registration.attempt && SequenceOf(r, key) == SequenceOfFrame(f)))
    ensures Inv(taken.(r := r))
  {
    var later := taken.(r := r);
    var f := s.out[c][0];
    assert FrameOk(s, c, f);
    assert taken.out.Keys == s.out.Keys;
    forall c', i | c' in later.out && 0 <= i < |later.out[c']| ensures FrameOk(later, c', later.out[c'][i]) {
      assert FrameOk(taken, c', taken.out[c'][i]);
      if c' == c {
        assert later.out[c][i] == s.out[c][i + 1] && SequenceOfFrame(f) < SequenceOfFrame(s.out[c][i + 1]);
      }
    }
  }

  // ---- Every reachable state. ----

  lemma NextKeepsInv(s: System, h: Happening)
    requires Inv(s)
    ensures Inv(Next(s, h))
  {
    hide Connect, Retry, ConnectFails, FailOpen, Receive, Bind, SendHeartbeat, SendLifecycle, Shutdown, Step;
    hide Local, SendsOne, AdapterOk, FramesOk, MarksOk, EventsOk, SessionsOk, Valid, Deliver;
    match h
    case ConnectNow => LocalSteps(s.e, 0, RejectedAnswer(SessionLimit), false); LocalKeepsInv(s, Connect(s.e));
    case RetryNow => LocalSteps(s.e, 0, RejectedAnswer(SessionLimit), false); LocalKeepsInv(s, Retry(s.e));
    case ConnectFailsNow => LocalSteps(s.e, 0, RejectedAnswer(SessionLimit), false); LocalKeepsInv(s, ConnectFails(s.e));
    case CloseSeen(c) => LocalSteps(s.e, 0, RejectedAnswer(SessionLimit), false); LocalKeepsInv(s, FailOpen(s.e));
    case BindNow(c, status) =>
      if c !in s.out && c !in s.others {
        BindKeepsInv(s, c, status);
      }
    case HeartbeatNow(status) => SendsAreOne(s.e, status, ""); SendingKeepsInv(s, SendHeartbeat(s.e, status));
    case LifecycleNow(status) => SendsAreOne(s.e, status, ""); SendingKeepsInv(s, SendLifecycle(s.e, status));
    case ShutdownNow(reason) => SendsAreOne(s.e, Status("", "", ""), reason); SendingKeepsInv(s, Shutdown(s.e, reason));
    case FrameArrives(c, offer, now) =>
      if c in s.out && s.out[c] != [] {
        DeliveryKeepsInv(s, c, offer, now);
      }
    case AnswerArrives(c, incompatible) =>
      if c in s.back && s.back[c] != [] {
        LocalSteps(s.e, c, s.back[c][0], incompatible);
        LocalKeepsInv(s, Receive(s.e, c, s.back[c][0], incompatible));
        AnswersDropped(s.(e := Receive(s.e, c, s.back[c][0], incompatible)), c, s.back[c][1..]);
      }
    case Lost(c, sent, answered) =>
      if c in s.out && c in s.back && sent <= |s.out[c]| && answered <= |s.back[c]| {
        assert s.out[c][..sent] == s.out[c][0..sent];
        LossKeepsInv(s, c, s.out[c][..sent], s.back[c][..answered]);
      }
    case GatewaySeesClose(c) =>
      if c in s.out && c !in s.gone {
        RegistryKeepsInv(s, Disconnect(c), Next(s, h));
      }
    case Elsewhere(a) =>
      if Foreign(s, a) {
        RegistryKeepsInv(s, a, Next(s, h));
      }
  }

  lemma AnswersDropped(s: System, c: Connection, answers: seq<Answer>)
    requires Inv(s) && c in s.back && forall a :: a in answers ==> a in s.back[c]
    ensures Inv(s.(back := s.back[c := answers]))
  {
    assert s.out[c] == s.out[c][0..|s.out[c]|];
    LossKeepsInv(s, c, s.out[c], answers);
    assert s.out[c := s.out[c]] == s.out;
  }

  /** A send either fails locally or appends one frame to the current connection. */
  ghost predicate SendsOne(e: Adapter, e': Adapter, f: Option<Frame>) {
    match f
    case None => Local(e, e')
    case Some(f) =>
      && Current(e).Some? && e'.key == e.key && AdapterOk(e') && !f.RegisterFrame?
      && e'.sequence == e.sequence + 1 == SequenceOfFrame(f) && e'.attempt == e.attempt && e'.connecting == None && e.message < e'.message
      && (e'.active == None || (Current(e') == Current(e) && e'.active.value.first == e.active.value.first))
      && (f.LifecycleFrame? ==> f.lifecycle.eventId == EventId(e.message + 1) && e.message + 1 <= MAX_SAFE_INTEGER)
  }

  lemma SendsAreOne(e: Adapter, status: Status, reason: string)
    requires AdapterOk(e)
    ensures SendsOne(e, SendHeartbeat(e, status).0, SendHeartbeat(e, status).1)
    ensures SendsOne(e, SendLifecycle(e, status).0, SendLifecycle(e, status).1)
    ensures SendsOne(e, Shutdown(e, reason).0, Shutdown(e, reason).1)
  {
  }

  lemma SendingKeepsInv(s: System, result: (Adapter, Option<Frame>))
    requires Inv(s) && SendsOne(s.e, result.0, result.1)
    ensures Inv(Sending(s, Current(s.e), result))
  {
    if result.1 == None {
      LocalKeepsInv(s, result.0);
    } else {
      assert Current(s.e).value in s.out;
      hide Inv, AdapterOk;
      SendKeepsInv(s, result.0, Current(s.e).value, result.1.value);
    }
  }

  /** The extension has not said anything yet, and the registry knows nothing of it. */
  ghost predicate Initial(s: System) {
    && Valid(s.r) && s.e.key !in s.r.highWater
    && s.e == Adapter(s.e.config, s.e.key, s.e.attempt, s.e.message, 0, None, None, 0, false, false, false)
    && s.out == map[] && s.back == map[] && s.events == map[]
    && forall i :: 0 <= i < |s.r.sessions| ==>
      s.r.sessions[i].key != s.e.key && (s.r.sessions[i].connection.Some? ==> s.r.sessions[i].connection.value in s.others)
  }

  ghost predicate Reaches(states: seq<System>, happenings: seq<Happening>) {
    && |states| == |happenings| + 1 && Initial(states[0])
    && forall i {:trigger happenings[i]} :: 0 <= i < |happenings| ==> states[i + 1] == Next(states[i], happenings[i])
  }

  lemma {:induction false} ReachableInv(states: seq<System>, happenings: seq<Happening>, i: nat)
    requires Reaches(states, happenings) && i < |states|
    ensures Inv(states[i])
  {
    if i > 0 {
      ReachableInv(states, happenings, i - 1);
      NextKeepsInv(states[i - 1], happenings[i - 1]);
    }
  }

  /**
   * Whatever has been lost, retried or expired before: the registry does not answer a frame on the extension's
   * current connection with stale_registration, invalid_sequence or message_id_conflict while revisions remain.
   */
  lemma NeverStale(states: seq<System>, happenings: seq<Happening>, i: nat, c: Connection, offer: Offer, now: nat)
    requires Reaches(states, happenings) && i < |states|
    requires Current(states[i].e) == Some(c) && c in states[i].out && states[i].out[c] != []
    requires states[i].r.revision < MAX_SAFE_INTEGER
    ensures var reply := Step(states[i].r, ActionOf(states[i].out[c][0], c, offer, now)).1;
      reply != Rejected(StaleRegistration) && reply != Rejected(InvalidSequence) && reply != Rejected(MessageIdConflict)
  {
    var s := states[i];
    ReachableInv(states, happenings, i);
    var f := s.out[c][0];
    assert FrameOk(s, c, f);
    SessionIsNewer(s, c, f);
    assert f.RegisterFrame? ==> f.registration.key == s.e.key && AttemptOf(s.r, s.e.key) < f.registration.attempt;
    hide *;
    NewerIsTaken(s.r, f, c, offer, now);
  }

  /** A frame past the marks and unknown to the memory of the session on its connection is not refused as old. */
  lemma NewerIsTaken(r: State, f: Frame, c: Connection, offer: Offer, now: nat)
    requires r.revision < MAX_SAFE_INTEGER
    requires f.RegisterFrame? ==> AttemptOf(r, f.registration.key) < f.registration.attempt && SequenceOf(r, f.registration.key) < f.registration.sequence
    requires forall k :: 0 <= k < |r.sessions| && r.sessions[k].connection == Some(c) ==>
      && r.sessions[k].sequence < SequenceOfFrame(f)
      && (f.LifecycleFrame? ==> FindRemembered(r.sessions[k].dedup, f.lifecycle.eventId) == |r.sessions[k].dedup|)
    ensures var reply := Step(r, ActionOf(f, c, offer, now)).1;
      reply != Rejected(StaleRegistration) && reply != Rejected(InvalidSequence) && reply != Rejected(MessageIdConflict)
  {
  }

  /** A session on the current connection is the extension's own, so its mark and memory are older than the frame. */
  lemma SessionIsNewer(s: System, c: Connection, f: Frame)
    requires Inv(s) && Current(s.e) == Some(c) && FrameOk(s, c, f)
    ensures forall k :: 0 <= k < |s.r.sessions| && s.r.sessions[k].connection == Some(c) ==>
      && s.r.sessions[k].sequence < SequenceOfFrame(f)
      && (f.LifecycleFrame? ==> FindRemembered(s.r.sessions[k].dedup, f.lifecycle.eventId) == |s.r.sessions[k].dedup|)
  {
    forall k | 0 <= k < |s.r.sessions| && s.r.sessions[k].connection == Some(c)
      ensures s.r.sessions[k].sequence < SequenceOfFrame(f)
        && (f.LifecycleFrame? ==> FindRemembered(s.r.sessions[k].dedup, f.lifecycle.eventId) == |s.r.sessions[k].dedup|)
    {
      var session := s.r.sessions[k];
      assert SessionOk(s.out.Keys, s.others, s.e.key, s.events, session) && SessionConsistent(s.r, session);
      assert forall d :: d in session.dedup ==> d.body.sequence <= session.sequence;
    }
  }

  /** The extension accepts the registry's reply to its current registration. */
  lemma ReplyAccepted(states: seq<System>, happenings: seq<Happening>, i: nat, c: Connection, incompatible: bool)
    requires Reaches(states, happenings) && i < |states| && Current(states[i].e) == Some(c) && !states[i].e.ended
    requires c in states[i].back && states[i].back[c] != [] && states[i].back[c][0].RegisteredAnswer?
    ensures var e' := Next(states[i], AnswerArrives(c, incompatible)).e;
      && e'.active.Some? && e'.active.value.connection == c && e'.active.value.registered.Some?
      && (states[i].e.active.value.registered == None ==>
          && e'.retries == 0
          && e'.active.value.registered == Some(Credentials(states[i].back[c][0].connectionId, states[i].back[c][0].challenge)))
  {
    ReachableInv(states, happenings, i);
    assert states[i].back[c][0] in states[i].back[c];
  }

  /** One step of the extension changes the retry count by a reset or by one scheduled retry. */
  ghost predicate CountsRetries(e: Adapter, e': Adapter) {
    && e'.config == e.config && e'.key == e.key
    && (e.retries <= e'.retries <= e.retries + 1 || (e'.retries == 0 && Accepts(e, e')))
    && (e'.retries == e.retries + 1 ==> !e.ended && !e.permanent && e'.scheduled)
  }

  /** The current registration has just been accepted. */
  predicate Accepts(e: Adapter, e': Adapter) {
    e.active.Some? && e.active.value.registered == None && e'.active.Some? && e'.active.value.registered.Some?
  }

  lemma AdapterCounts(e: Adapter, c: Connection, answer: Answer, incompatible: bool, status: Status, reason: string)
    ensures CountsRetries(e, Connect(e)) && CountsRetries(e, Retry(e)) && CountsRetries(e, ConnectFails(e)) && CountsRetries(e, FailOpen(e))
    ensures CountsRetries(e, Receive(e, c, answer, incompatible)) && CountsRetries(e, Bind(e, c, status).0)
    ensures CountsRetries(e, SendHeartbeat(e, status).0) && CountsRetries(e, SendLifecycle(e, status).0)
    ensures CountsRetries(e, Shutdown(e, reason).0)
  {
  }

  lemma CountsSame(e: Adapter)
    ensures CountsRetries(e, e)
  {
  }

  lemma NextCounts(s: System, h: Happening)
    ensures CountsRetries(s.e, Next(s, h).e)
  {
    hide Connect, Retry, ConnectFails, FailOpen, Receive, Bind, SendHeartbeat, SendLifecycle, Shutdown, Step;
    var status := Status("", "", "");
    CountsSame(s.e);
    hide CountsRetries;
    match h
    case BindNow(c, st) => AdapterCounts(s.e, c, RejectedAnswer(SessionLimit), false, st, "");
    case HeartbeatNow(st) => AdapterCounts(s.e, 0, RejectedAnswer(SessionLimit), false, st, "");
    case LifecycleNow(st) => AdapterCounts(s.e, 0, RejectedAnswer(SessionLimit), false, st, "");
    case ShutdownNow(reason) => AdapterCounts(s.e, 0, RejectedAnswer(SessionLimit), false, status, reason);
    case AnswerArrives(c, incompatible) =>
      if c in s.back && s.back[c] != [] {
        AdapterCounts(s.e, c, s.back[c][0], incompatible, status, "");
      }
    case _ => AdapterCounts(s.e, 0, RejectedAnswer(SessionLimit), false, status, "");
  }

  /** How many retries are scheduled between two moments of a run. */
  function Scheduled(states: seq<System>, i: nat, j: nat): nat
    requires i <= j < |states|
    decreases j
  {
    if i == j then 0
    else Scheduled(states, i, j - 1) + if states[j].e.retries == states[j - 1].e.retries + 1 then 1 else 0
  }

  /** As long as no registration is accepted, at most the configured number of retries is scheduled; then the extension gives up. */
  lemma {:induction false} RetriesBounded(states: seq<System>, happenings: seq<Happening>, i: nat, j: nat)
    requires Reaches(states, happenings) && i <= j < |states|
    requires forall k :: i <= k < j ==> !Accepts(states[k].e, states[k + 1].e)
    ensures states[i].e.retries + Scheduled(states, i, j) == states[j].e.retries <= states[j].e.config.maxAttempts
    ensures states[j].e.config == states[i].e.config
    decreases j
  {
    ReachableInv(states, happenings, j);
    if i < j {
      RetriesBounded(states, happenings, i, j - 1);
      NextCounts(states[j - 1], happenings[j - 1]);
      hide Next, Inv, Accepts;
    }
  }

  /** The delays handed to the retry timer between two moments of a run, oldest first. */
  function Delays(states: seq<System>, i: nat, j: nat): seq<nat>
    requires i <= j < |states|
    decreases j
  {
    if i == j then []
    else
      var e := states[j].e;
      Delays(states, i, j - 1) + if e.retries == states[j - 1].e.retries + 1 then [DelayMs(e.config, e.retries)] else []
  }

  lemma {:induction false} DelaysSuccessive(states: seq<System>, happenings: seq<Happening>, i: nat, j: nat)
    requires Reaches(states, happenings) && i <= j < |states|
    requires forall k :: i <= k < j ==> !Accepts(states[k].e, states[k + 1].e)
    ensures var e, delays := states[i].e, Delays(states, i, j);
      && |delays| == Scheduled(states, i, j) && e.retries + |delays| == states[j].e.retries && states[j].e.config == e.config
      && forall k :: 0 <= k < |delays| ==> delays[k] == DelayMs(e.config, e.retries + 1 + k)
    decreases j
  {
    RetriesBounded(states, happenings, i, j);
    if i < j {
      DelaysSuccessive(states, happenings, i, j - 1);
      RetriesBounded(states, happenings, i, j - 1);
      NextCounts(states[j - 1], happenings[j - 1]);
      hide Next, Inv, Accepts, Reaches, DelayMs;
    }
  }

  /** As long as no registration is accepted, the delays are those of successive retries, so they never fall and keep to their bounds. */
  lemma DelaysNeverFall(states: seq<System>, happenings: seq<Happening>, i: nat, j: nat)
    requires Reaches(states, happenings) && i <= j < |states| && ValidConfig(states[i].e.config)
    requires forall k :: i <= k < j ==> !Accepts(states[k].e, states[k + 1].e)
    ensures var e, delays := states[i].e, Delays(states, i, j);
      && |delays| == Scheduled(states, i, j)
      && (forall k :: 0 <= k < |delays| ==> delays[k] == DelayMs(e.config, e.retries + 1 + k))
      && (forall k, l :: 0 <= k <= l < |delays| ==> e.config.initialDelayMs <= delays[k] <= delays[l] <= e.config.maxDelayMs)
  {
    DelaysSuccessive(states, happenings, i, j);
    hide Reaches, DelayMs, Delays, Scheduled, ValidConfig;
    var e, delays := states[i].e, Delays(states, i, j);
    forall k, l | 0 <= k <= l < |delays|
      ensures e.config.initialDelayMs <= delays[k] <= delays[l] <= e.config.maxDelayMs
    {
      DelaysGrow(e.config, e.retries + 1 + k, e.retries + 1 + l);
    }
  }
}

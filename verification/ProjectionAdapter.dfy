/** The reconnecting adapter of console/live-projection-adapter.ts. */
module ProjectionAdapter {
  import opened Contracts
  import opened ConsoleProjection

  datatype Mode = Initial | Resume | Recovering

  /** A connection is known by the generation it was opened in. */
  datatype Connection = Connection(generation: nat, mode: Mode, hello: bool, page: bool, snapshot: bool)

  /** A connector call under way; a detached one reports its failure to the adapter itself. */
  datatype Attempt = Attempt(mode: Mode, detached: bool)

  datatype Adapter = Adapter(
    p: Projection, connection: Option<Connection>, attempts: map<nat, Attempt>,
    generation: nat, started: bool, stopped: bool, published: seq<Handoff>)

  datatype Frame =
    | HelloAck(matches: bool)
    | ProtocolError
    | IntentAck(valid: bool)
    | EventPage(from: nat, events: seq<Option<EventRecord>>, to: nat)
    | SnapshotFrame(snapshot: Snapshot)
    | EventFrame(event: Option<EventRecord>)
    | OtherFrame

  function Publish(a: Adapter): Adapter {
    if a.p.current == None then a else a.(published := a.published + [a.p.current.value])
  }

  function EnterGap(a: Adapter): Adapter {
    if a.p.current == None then a else Publish(a.(p := InGap(a.p)))
  }

  /** A new generation; what was connected before is closed, and the connector is called. */
  function Replace(a: Adapter, mode: Mode, detached: bool): Adapter {
    if a.stopped then a
    else a.(generation := a.generation + 1, connection := None, attempts := a.attempts[a.generation + 1 := Attempt(mode, detached)])
  }

  predicate IsCurrent(a: Adapter, generation: nat) {
    !a.stopped && a.connection.Some? && a.connection.value.generation == generation && generation == a.generation
  }

  function Reject(a: Adapter, recover: bool): Adapter {
    var gapped := EnterGap(a);
    var cut := gapped.(generation := a.generation + 1, connection := None);
    if recover then Replace(cut, Recovering, true) else cut
  }

  function AcceptAll(p: Projection, events: seq<Option<EventRecord>>): (Projection, bool)
    decreases |events|
  {
    if events == [] then (p, true)
    else
      var (next, ok) := AcceptOne(p, events[0]);
      if ok then AcceptAll(next, events[1..]) else (next, false)
  }

  function Cursor(p: Projection): Option<nat> {
    if p.current == None then None else Some(p.current.value.cursor)
  }

  /** What a frame on the current connection does, and whether the source throws. */
  function AcceptFrame(a: Adapter, frame: Frame): (Adapter, bool)
    requires a.connection.Some?
  {
    var c := a.connection.value;
    if !c.hello then
      if frame == HelloAck(true) then (a.(connection := Some(c.(hello := true))), true) else (a, false)
    else match frame
      case IntentAck(valid) => (a, valid)
      case EventPage(from, events, to) =>
        if c.snapshot || c.mode != Resume || Cursor(a.p) != Some(from) then (a, false)
        else
          var (p, ok) := AcceptAll(a.p, events);
          if !ok || Cursor(p) != Some(to) then (a.(p := p), false) else (a.(p := p, connection := Some(c.(page := true))), true)
      case SnapshotFrame(s) =>
        if c.snapshot || (c.mode == Resume && !c.page) then (a, false)
        else
          var (p, ok) := match c.mode
            case Initial => InitializeWith(a.p, s)
            case Resume => ResnapshotWith(a.p, s)
            case Recovering => RecoverWith(a.p, s);
          if !ok then (a.(p := p), false) else (Publish(a.(p := p, connection := Some(c.(snapshot := true)))), true)
      case EventFrame(e) =>
        if !c.snapshot then (a, false)
        else
          var (p, ok) := AcceptOne(a.p, e);
          if !ok then (a.(p := p), false) else (Replace(Publish(a.(p := p)), Resume, true), true)
      case _ => (a, false)
  }

  datatype Action =
    | Start
    | Connects(attempt: nat)
    | ConnectFails(attempt: nat)
    | Receives(generation: nat, frame: Frame)
    | Closes(generation: nat)
    | RetryFresh
    | Stop

  function Step(a: Adapter, action: Action): Adapter {
    match action
    case Start => if a.started || a.stopped then a else Replace(a.(started := true), Initial, false)
    case Connects(g) =>
      if g !in a.attempts then a
      else
        var settled := a.(attempts := a.attempts - {g});
        if a.stopped || g != a.generation then settled
        else settled.(connection := Some(Connection(g, a.attempts[g].mode, false, false, false)))
    case ConnectFails(g) =>
      if g !in a.attempts then a
      else
        var settled := a.(attempts := a.attempts - {g}, started := if a.attempts[g].mode == Initial then false else a.started);
        if a.attempts[g].detached then EnterGap(settled) else settled
    case Receives(g, frame) =>
      if !IsCurrent(a, g) then a
      else
        var (next, ok) := AcceptFrame(a, frame);
        if ok then next else Reject(next, next.p.current.Some? && a.connection.value.mode != Recovering)
    case Closes(g) =>
      if !IsCurrent(a, g) then a
      else if a.p.current == None then a.(connection := None)
      else
        var gapped := EnterGap(a.(connection := None));
        if a.connection.value.mode != Recovering then Replace(gapped, Recovering, true) else gapped
    case RetryFresh =>
      if a.stopped || a.p.current == None || a.p.current.value.status != Gap then a else Replace(a, Recovering, false)
    case Stop => if a.stopped then a else a.(stopped := true, generation := a.generation + 1, connection := None)
  }

  class LiveProjectionAdapter {
    const projection: AgentConsoleProjection
    var connection: Option<Connection>
    var attempts: map<nat, Attempt>
    var generation: nat
    var started: bool
    var stopped: bool
    /** What the sink has been given. */
    var published: seq<Handoff>

    function Contents(): Adapter
      reads this, projection
    {
      Adapter(projection.Contents(), connection, attempts, generation, started, stopped, published)
    }

    constructor (projection: AgentConsoleProjection)
      ensures this.projection == projection
      ensures Contents() == Adapter(projection.Contents(), None, map[], 0, false, false, [])
    {
      this.projection := projection;
      connection, attempts, generation, started, stopped, published := None, map[], 0, false, false, [];
    }

    method PublishCurrent()
      modifies this`published
      ensures Contents() == Publish(old(Contents()))
    {
      if projection.current.Some? {
        published := published + [projection.current.value];
      }
    }

    method MarkGapAndPublish()
      modifies this`published, projection`current
      ensures Contents() == EnterGap(old(Contents()))
    {
      var marked := projection.MarkGap();
      if marked {
        PublishCurrent();
      }
    }

    method ReplaceConnection(mode: Mode, detached: bool)
      modifies this`generation, this`connection, this`attempts
      ensures Contents() == Replace(old(Contents()), mode, detached)
    {
      if stopped { return; }
      generation := generation + 1;
      connection := None;
      attempts := attempts[generation := Attempt(mode, detached)];
    }

    method ConnectorResolves(g: nat)
      modifies this
      ensures Contents() == Step(old(Contents()), Connects(g))
    {
      if g !in attempts { return; }
      var mode := attempts[g].mode;
      attempts := attempts - {g};
      if stopped || g != generation { return; }
      connection := Some(Connection(g, mode, false, false, false));
    }

    method ConnectorFails(g: nat)
      modifies this, projection
      ensures Contents() == Step(old(Contents()), ConnectFails(g))
    {
      if g !in attempts { return; }
      var attempt := attempts[g];
      attempts := attempts - {g};
      if attempt.mode == Initial {
        started := false;
      }
      if attempt.detached {
        MarkGapAndPublish();
      }
    }

    method AcceptPage(events: seq<Option<EventRecord>>) returns (ok: bool)
      modifies projection
      ensures (projection.Contents(), ok) == AcceptAll(old(projection.Contents()), events)
    {
      var i := 0;
      assert events[0..] == events;
      while i < |events|
        invariant 0 <= i <= |events|
        invariant AcceptAll(old(projection.Contents()), events) == AcceptAll(projection.Contents(), events[i..])
      {
        assert events[i..][0] == events[i] && events[i..][1..] == events[i + 1..];
        ok := projection.AcceptEvent(events[i]);
        if !ok { return; }
        i := i + 1;
      }
      assert events[i..] == [];
      ok := true;
    }

    method AcceptSnapshot(s: Snapshot) returns (ok: bool)
      requires connection.Some? && connection.value.hello
      modifies this, projection
      ensures (Contents(), ok) == AcceptFrame(old(Contents()), SnapshotFrame(s))
    {
      var c := connection.value;
      if c.snapshot || (c.mode == Resume && !c.page) { return false; }
      match c.mode {
        case Initial => ok := projection.Initialize(s);
        case Resume => ok := projection.Resnapshot(s);
        case Recovering => ok := projection.Recover(s);
      }
      if ok {
        connection := Some(c.(snapshot := true));
        PublishCurrent();
      }
    }

    /** One frame on the current connection. */
    method Accept(frame: Frame) returns (ok: bool)
      requires connection.Some?
      modifies this, projection
      ensures (Contents(), ok) == AcceptFrame(old(Contents()), frame)
    {
      var c := connection.value;
      if !c.hello {
        if frame != HelloAck(true) { return false; }
        connection := Some(c.(hello := true));
        return true;
      }
      match frame {
        case IntentAck(valid) => ok := valid;
        case EventPage(from, events, to) =>
          if c.snapshot || c.mode != Resume || Cursor(projection.Contents()) != Some(from) { return false; }
          ok := AcceptPage(events);
          if !ok || Cursor(projection.Contents()) != Some(to) { return false; }
          connection := Some(c.(page := true));
        case SnapshotFrame(s) => ok := AcceptSnapshot(s);
        case EventFrame(e) =>
          if !c.snapshot { return false; }
          ok := projection.AcceptEvent(e);
          if ok {
            PublishCurrent();
            ReplaceConnection(Resume, true);
          }
        case _ => ok := false;
      }
    }

    method Receive(g: nat, frame: Frame)
      modifies this, projection
      ensures Contents() == Step(old(Contents()), Receives(g, frame))
    {
      if !IsCurrent(Contents(), g) { return; }
      var mode := connection.value.mode;
      var ok := Accept(frame);
      if !ok {
        RejectConnection(projection.current.Some? && mode != Recovering);
      }
    }

    method RejectConnection(recover: bool)
      modifies this, projection
      ensures Contents() == Reject(old(Contents()), recover)
    {
      MarkGapAndPublish();
      generation := generation + 1;
      connection := None;
      if recover {
        ReplaceConnection(Recovering, true);
      }
    }

    method Closed(g: nat)
      modifies this, projection
      ensures Contents() == Step(old(Contents()), Closes(g))
    {
      if !IsCurrent(Contents(), g) { return; }
      var mode := connection.value.mode;
      connection := None;
      if projection.current == None { return; }
      MarkGapAndPublish();
      if mode != Recovering {
        ReplaceConnection(Recovering, true);
      }
    }

    method Begin()
      modifies this
      ensures Contents() == Step(old(Contents()), Start)
    {
      if started || stopped { return; }
      started := true;
      ReplaceConnection(Initial, false);
    }

    method Retry()
      modifies this
      ensures Contents() == Step(old(Contents()), RetryFresh)
    {
      if stopped || projection.current == None || projection.current.value.status != Gap { return; }
      ReplaceConnection(Recovering, false);
    }

    method End()
      modifies this
      ensures Contents() == Step(old(Contents()), Stop)
    {
      if stopped { return; }
      stopped := true;
      generation := generation + 1;
      connection := None;
    }
  }

  // ---- Guarantees. ----

  /** Frames come from a Team Runner whose log only grows, so its snapshot at a cursor is always the same one. */
  predicate Truthful(runner: nat -> Snapshot, action: Action) {
    action.Receives? && action.frame.SnapshotFrame? ==>
      action.frame.snapshot == runner(action.frame.snapshot.cursor)
  }

  /** The baseline of a projection, and a ready projection showing the runner's own snapshot. */
  ghost predicate ProjectionOk(runner: nat -> Snapshot, p: Projection) {
    p.current.Some? ==>
      var h := p.current.value;
      && p.goal.Some? && p.identities == Some(IdentitiesOf(h.cards))
      && (h.status == Ready ==> runner(h.cursor).cursor == h.cursor && h == ReadyFrom(runner(h.cursor)))
  }

  /** Published cursors never decrease, ready handoffs are the runner's snapshots, and the roles keep their runs. */
  ghost predicate PublishedOk(runner: nat -> Snapshot, p: Projection, published: seq<Handoff>) {
    && (published != [] ==> p.current.Some?)
    && (forall i :: 0 <= i < |published| ==>
          && p.identities == Some(IdentitiesOf(published[i].cards))
          && published[i].cursor <= p.current.value.cursor
          && (published[i].status == Ready ==> published[i] == ReadyFrom(runner(published[i].cursor))))
    && forall i, j :: 0 <= i < j < |published| ==> published[i].cursor <= published[j].cursor
  }

  ghost predicate GenerationsOk(connection: Option<Connection>, attempts: map<nat, Attempt>, generation: nat) {
    && (connection.Some? ==> connection.value.generation <= generation && connection.value.generation !in attempts)
    && forall g :: g in attempts ==> g <= generation
  }

  ghost predicate Valid(runner: nat -> Snapshot, a: Adapter) {
    ProjectionOk(runner, a.p) && PublishedOk(runner, a.p, a.published) && GenerationsOk(a.connection, a.attempts, a.generation)
  }

  /** A step of the projection that keeps its baseline and does not go back. */
  ghost predicate Forward(p: Projection, q: Projection) {
    p.current.Some? ==> q.current.Some? && q.identities == p.identities && p.current.value.cursor <= q.current.value.cursor
  }

  lemma OneForward(runner: nat -> Snapshot, p: Projection, event: Option<EventRecord>)
    requires ProjectionOk(runner, p)
    ensures var q := AcceptOne(p, event).0; ProjectionOk(runner, q) && Forward(p, q)
  {
  }

  lemma {:induction false} AllForward(runner: nat -> Snapshot, p: Projection, events: seq<Option<EventRecord>>)
    requires ProjectionOk(runner, p)
    ensures var q := AcceptAll(p, events).0; ProjectionOk(runner, q) && Forward(p, q)
    decreases |events|
  {
    if events != [] {
      OneForward(runner, p, events[0]);
      AllForward(runner, AcceptOne(p, events[0]).0, events[1..]);
    }
  }

  lemma SnapshotForward(runner: nat -> Snapshot, p: Projection, s: Snapshot, mode: Mode)
    requires ProjectionOk(runner, p) && s == runner(s.cursor)
    ensures var q := match mode
      case Initial => InitializeWith(p, s).0
      case Resume => ResnapshotWith(p, s).0
      case Recovering => RecoverWith(p, s).0;
      ProjectionOk(runner, q) && Forward(p, q)
  {
  }

  /** The projection moves forward, and its current handoff may be published. */
  lemma PublishValid(runner: nat -> Snapshot, p: Projection, published: seq<Handoff>, q: Projection)
    requires PublishedOk(runner, p, published) && ProjectionOk(runner, q) && Forward(p, q)
    ensures PublishedOk(runner, q, published)
    ensures q.current.Some? ==> PublishedOk(runner, q, published + [q.current.value])
  {
  }

  lemma GapValid(runner: nat -> Snapshot, a: Adapter)
    requires ProjectionOk(runner, a.p) && PublishedOk(runner, a.p, a.published)
    ensures ProjectionOk(runner, EnterGap(a).p) && PublishedOk(runner, EnterGap(a).p, EnterGap(a).published)
    ensures EnterGap(a) == a.(p := EnterGap(a).p, published := EnterGap(a).published) && (EnterGap(a).p.current == None <==> a.p.current == None)
  {
    PublishValid(runner, a.p, a.published, InGap(a.p));
  }

  lemma SnapshotFrameValid(runner: nat -> Snapshot, a: Adapter, s: Snapshot)
    requires Valid(runner, a) && a.connection.Some? && a.connection.value.hello && s == runner(s.cursor)
    ensures Valid(runner, AcceptFrame(a, SnapshotFrame(s)).0) && AcceptFrame(a, SnapshotFrame(s)).0.generation == a.generation
  {
    var q := match a.connection.value.mode
      case Initial => InitializeWith(a.p, s).0
      case Resume => ResnapshotWith(a.p, s).0
      case Recovering => RecoverWith(a.p, s).0;
    SnapshotForward(runner, a.p, s, a.connection.value.mode);
    PublishValid(runner, a.p, a.published, q);
    hide ProjectionOk, PublishedOk, InitializeWith, ResnapshotWith, RecoverWith;
  }

  lemma FrameValid(runner: nat -> Snapshot, a: Adapter, frame: Frame)
    requires Valid(runner, a) && a.connection.Some?
    requires frame.SnapshotFrame? ==> frame.snapshot == runner(frame.snapshot.cursor)
    ensures Valid(runner, AcceptFrame(a, frame).0) && AcceptFrame(a, frame).0.generation >= a.generation
  {
    hide ProjectionOk, PublishedOk, AcceptAll, AcceptOne;
    if a.connection.value.hello {
      match frame
      case EventPage(_, events, _) =>
        AllForward(runner, a.p, events);
        PublishValid(runner, a.p, a.published, AcceptAll(a.p, events).0);
      case SnapshotFrame(s) => SnapshotFrameValid(runner, a, s);
      case EventFrame(e) =>
        OneForward(runner, a.p, e);
        PublishValid(runner, a.p, a.published, AcceptOne(a.p, e).0);
      case _ =>
    }
  }

  lemma RejectValid(runner: nat -> Snapshot, a: Adapter, recover: bool)
    requires Valid(runner, a)
    ensures Valid(runner, Reject(a, recover)) && Reject(a, recover).generation >= a.generation
  {
    hide ProjectionOk, PublishedOk;
    GapValid(runner, a);
  }

  lemma StepValid(runner: nat -> Snapshot, a: Adapter, action: Action)
    requires Valid(runner, a) && Truthful(runner, action)
    ensures Valid(runner, Step(a, action)) && Step(a, action).generation >= a.generation
  {
    hide ProjectionOk, PublishedOk;
    match action
    case Receives(g, frame) =>
      if IsCurrent(a, g) {
        hide AcceptFrame, Reject;
        FrameValid(runner, a, frame);
        var (next, ok) := AcceptFrame(a, frame);
        RejectValid(runner, next, next.p.current.Some? && a.connection.value.mode != Recovering);
      }
    case Closes(g) => GapValid(runner, a.(connection := None));
    case ConnectFails(g) =>
      if g in a.attempts {
        GapValid(runner, a.(attempts := a.attempts - {g}, started := if a.attempts[g].mode == Initial then false else a.started));
      }
    case _ =>
  }

  /** Any order of frames, closes, late connects and retries, from a projection without a baseline. */
  ghost predicate Run(runner: nat -> Snapshot, states: seq<Adapter>, actions: seq<Action>) {
    && |states| == |actions| + 1 && states[0] == Adapter(CLEARED, None, map[], 0, false, false, [])
    && forall i {:trigger actions[i]} :: 0 <= i < |actions| ==> Truthful(runner, actions[i]) && states[i + 1] == Step(states[i], actions[i])
  }

  lemma {:induction false} RunValid(runner: nat -> Snapshot, states: seq<Adapter>, actions: seq<Action>, i: nat)
    requires Run(runner, states, actions) && i < |states|
    ensures Valid(runner, states[i])
  {
    if i > 0 {
      RunValid(runner, states, actions, i - 1);
      StepValid(runner, states[i - 1], actions[i - 1]);
    }
  }

  /**
   * Over any run the sink sees cursors that never decrease, ready handoffs that equal the runner's snapshot at
   * their cursor, and for each role one Agent Run.
   */
  lemma SinkSeesHistory(runner: nat -> Snapshot, states: seq<Adapter>, actions: seq<Action>, k: nat, i: nat, j: nat)
    requires Run(runner, states, actions) && k < |states| && i <= j < |states[k].published|
    ensures var shown := states[k].published;
      && shown[i].cursor <= shown[j].cursor
      && (shown[j].status == Ready ==> shown[j] == ReadyFrom(runner(shown[j].cursor)))
      && IdentitiesOf(shown[i].cards) == IdentitiesOf(shown[j].cards)
  {
    RunValid(runner, states, actions, k);
  }

  /** A generation that is neither connected nor being connected. */
  predicate Superseded(a: Adapter, generation: nat) {
    generation <= a.generation && !IsCurrent(a, generation) && (generation == a.generation ==> generation !in a.attempts)
  }

  lemma StaysSuperseded(runner: nat -> Snapshot, a: Adapter, action: Action, generation: nat)
    requires Valid(runner, a) && Superseded(a, generation)
    ensures Superseded(Step(a, action), generation)
  {
    hide ProjectionOk, PublishedOk, AcceptOne, AcceptAll, InitializeWith, ResnapshotWith, RecoverWith, InGap;
  }

  /** Frames and closes of a superseded connection change nothing, then or at any later time. */
  lemma {:induction false} SupersededHasNoEffect(runner: nat -> Snapshot, states: seq<Adapter>, actions: seq<Action>, i: nat, j: nat, generation: nat, frame: Frame)
    requires Run(runner, states, actions) && i <= j < |states| && Superseded(states[i], generation)
    ensures Superseded(states[j], generation)
    ensures Step(states[j], Receives(generation, frame)) == states[j] == Step(states[j], Closes(generation))
    decreases j
  {
    if i < j {
      SupersededHasNoEffect(runner, states, actions, i, j - 1, generation, frame);
      RunValid(runner, states, actions, j - 1);
      StaysSuperseded(runner, states[j - 1], actions[j - 1], generation);
    }
  }

  /** Leaving, being replaced, rejected or closed supersedes a connection. */
  lemma ReplacedIsSuperseded(runner: nat -> Snapshot, a: Adapter, action: Action, generation: nat)
    requires Valid(runner, a) && IsCurrent(a, generation) && !IsCurrent(Step(a, action), generation)
    ensures Superseded(Step(a, action), generation)
  {
    hide ProjectionOk, PublishedOk, AcceptOne, AcceptAll, InitializeWith, ResnapshotWith, RecoverWith, InGap;
  }

  /**
   * The late failure of a superseded connect attempt is seen exactly when the attempt was detached and there is a baseline. Then the
   * projection is in the gap state, whatever it was before, and nothing is done to leave it: connection and generation stay, and no
   * attempt is added.
   */
  lemma LateFailureExact(a: Adapter, g: nat)
    requires g in a.attempts && g < a.generation
    ensures var b := Step(a, ConnectFails(g));
      && (b.p != a.p || b.published != a.published <==> a.attempts[g].detached && a.p.current.Some?)
      && (b.published != a.published ==> b.p == InGap(a.p) && b.published == a.published + [b.p.current.value] && b.p.current.value.status == Gap)
      && b.connection == a.connection && b.generation == a.generation && b.attempts == a.attempts - {g}
  {
    if a.p.current.Some? {
      assert |a.published + [InGap(a.p).current.value]| == |a.published| + 1;
    }
  }

  /** A running adapter. */
  function Running(p: Projection, connection: Option<Connection>, attempts: map<nat, Attempt>, generation: nat, published: seq<Handoff>): Adapter {
    Adapter(p, connection, attempts, generation, true, false, published)
  }

  function Baseline(s: Snapshot): Projection {
    Projection(Some(ReadyFrom(s)), Some(s.goal), Some(IdentitiesOf(s.cards)), {})
  }

  function GapFrom(s: Snapshot): Handoff {
    ReadyFrom(s).(status := Gap)
  }

  const HANGING: map<nat, Attempt> := map[2 := Attempt(Recovering, true)]

  const LATE_FAILURE_START: Adapter := Adapter(CLEARED, None, map[], 0, false, false, [])

  /** What happens in a run in which a superseded attempt fails late, and the states it goes through. */
  function LateFailureActions(s: Snapshot): seq<Action> {
    [Start, Connects(1), Receives(1, HelloAck(true)), Receives(1, SnapshotFrame(s)), Closes(1),
     RetryFresh, Connects(3), Receives(3, HelloAck(true)), Receives(3, SnapshotFrame(s)), ConnectFails(2)]
  }

  function LateFailureStates(s: Snapshot): seq<Adapter> {
    var ready, gap, lost := ReadyFrom(s), GapFrom(s), InGap(Baseline(s));
    [LATE_FAILURE_START,
     Running(CLEARED, None, map[1 := Attempt(Initial, false)], 1, []),
     Running(CLEARED, Some(Connection(1, Initial, false, false, false)), map[], 1, []),
     Running(CLEARED, Some(Connection(1, Initial, true, false, false)), map[], 1, []),
     Running(Baseline(s), Some(Connection(1, Initial, true, false, true)), map[], 1, [ready]),
     Running(lost, None, HANGING, 2, [ready, gap]),
     Running(lost, None, HANGING[3 := Attempt(Recovering, false)], 3, [ready, gap]),
     Running(lost, Some(Connection(3, Recovering, false, false, false)), HANGING, 3, [ready, gap]),
     Running(lost, Some(Connection(3, Recovering, true, false, false)), HANGING, 3, [ready, gap]),
     Running(Baseline(s), Some(Connection(3, Recovering, true, false, true)), HANGING, 3, [ready, gap, ready]),
     Running(lost, Some(Connection(3, Recovering, true, false, true)), map[], 3, [ready, gap, ready, gap])]
  }

  lemma LateFailureFirst(s: Snapshot, i: nat)
    requires i < 5
    ensures LateFailureStates(s)[i + 1] == Step(LateFailureStates(s)[i], LateFailureActions(s)[i])
  {
  }

  lemma LateFailureSecond(s: Snapshot, i: nat)
    requires 5 <= i < 10
    ensures LateFailureStates(s)[i + 1] == Step(LateFailureStates(s)[i], LateFailureActions(s)[i])
  {
  }

  /**
   * A run in which that happens: a close opens a recovery that hangs, a fresh retry recovers instead, and then the hanging
   * attempt fails. The projection was ready on the retry's connection, and is in the gap state under that same connection afterwards.
   */
  lemma LateConnectFailureGaps(runner: nat -> Snapshot, s: Snapshot)
    requires s == runner(s.cursor)
    ensures var states, actions := LateFailureStates(s), LateFailureActions(s);
      && Run(runner, states, actions) && actions[9] == ConnectFails(2)
      && IsCurrent(states[9], 3) && states[9].p.current == Some(ReadyFrom(s)) && 2 in states[9].attempts
      && IsCurrent(states[10], 3) && states[10].connection == states[9].connection && states[10].attempts == map[]
      && states[10].p.current == Some(GapFrom(s))
  {
    var states, actions := LateFailureStates(s), LateFailureActions(s);
    forall i | 0 <= i < |actions| ensures Truthful(runner, actions[i]) && states[i + 1] == Step(states[i], actions[i]) {
      if i < 5 { LateFailureFirst(s, i); } else { LateFailureSecond(s, i); }
    }
  }

  // ---- The sink is never behind. ----

  /** A resumed connection has accepted its page of missed events and still owes the snapshot that goes with them. */
  predicate AwaitsSnapshot(a: Adapter) {
    a.connection.Some? && a.connection.value.mode == Resume && a.connection.value.page && !a.connection.value.snapshot
  }

  /** The last handoff the sink was given is the projection's own. */
  predicate LastIsCurrent(p: Projection, published: seq<Handoff>) {
    p.current.Some? ==> published != [] && published[|published| - 1] == p.current.value
  }

  predicate ConnectionCurrent(a: Adapter) {
    && (a.connection.Some? ==> a.connection.value.generation == a.generation)
    && (a.connection.Some? ==> a.generation !in a.attempts)
    && forall g :: g in a.attempts ==> g <= a.generation
  }

  /** The first connect attempt is alone, and without it or its success there is no baseline yet. */
  predicate Beginning(a: Adapter) {
    && (!a.started ==> a.p.current == None && forall g :: g in a.attempts ==> a.attempts[g].mode != Initial)
    && (forall g :: g in a.attempts && a.attempts[g].mode == Initial ==> a.p.current == None && a.connection == None)
    && (forall g, h :: g in a.attempts && h in a.attempts && a.attempts[g].mode == Initial == a.attempts[h].mode ==> g == h)
    && (a.p.current == None ==> forall g :: g in a.attempts ==> a.attempts[g].mode == Initial)
  }

  /** Between the page and its snapshot the projection may be ahead, and then it is reconnecting. */
  predicate UpToDate(a: Adapter) {
    && ConnectionCurrent(a)
    && (a.stopped || LastIsCurrent(a.p, a.published)
        || (AwaitsSnapshot(a) && a.p.current.Some? && a.p.current.value.status == Reconnecting))
  }

  lemma GapPublished(a: Adapter)
    ensures LastIsCurrent(EnterGap(a).p, EnterGap(a).published)
  {
  }

  lemma {:induction false} PageReconnects(p: Projection, events: seq<Option<EventRecord>>)
    requires AcceptAll(p, events).1
    ensures AcceptAll(p, events).0 == p || (AcceptAll(p, events).0.current.Some? && AcceptAll(p, events).0.current.value.status == Reconnecting)
    decreases |events|
  {
    if events != [] {
      PageReconnects(AcceptOne(p, events[0]).0, events[1..]);
    }
  }

  lemma FrameUpToDate(a: Adapter, frame: Frame)
    requires UpToDate(a) && !a.stopped && a.connection.Some? && AcceptFrame(a, frame).1
    ensures UpToDate(AcceptFrame(a, frame).0)
  {
    if a.connection.value.hello && frame.EventPage? {
      hide AcceptOne;
      PageReconnects(a.p, frame.events);
    }
  }

  lemma FrameKeepsConnection(a: Adapter, frame: Frame)
    requires a.connection.Some? && ConnectionCurrent(a)
    ensures ConnectionCurrent(AcceptFrame(a, frame).0) && AcceptFrame(a, frame).0.stopped == a.stopped
  {
    hide AcceptAll, AcceptOne, InitializeWith, ResnapshotWith, RecoverWith;
  }

  lemma RejectUpToDate(a: Adapter, recover: bool)
    requires ConnectionCurrent(a)
    ensures UpToDate(Reject(a, recover))
  {
    GapPublished(a);
  }

  lemma FrameBeginning(a: Adapter, frame: Frame)
    requires Beginning(a) && a.connection.Some? && a.started
    ensures Beginning(AcceptFrame(a, frame).0)
  {
    hide AcceptAll;
    if frame.EventPage? {
      PageKeepsBaseline(a.p, frame.events);
    }
  }

  lemma {:induction false} PageKeepsBaseline(p: Projection, events: seq<Option<EventRecord>>)
    ensures AcceptAll(p, events).0.current == None <==> p.current == None
    decreases |events|
  {
    if events != [] {
      PageKeepsBaseline(AcceptOne(p, events[0]).0, events[1..]);
    }
  }

  lemma RejectBeginning(a: Adapter, recover: bool)
    requires Beginning(a) && a.started && ConnectionCurrent(a) && (recover ==> a.p.current.Some?)
    requires forall g :: g in a.attempts ==> a.attempts[g].mode != Initial
    ensures Beginning(Reject(a, recover))
  {
  }

  /** A connection has consumed the first attempt, so the adapter has started. */
  predicate StartedWithConnection(a: Adapter) {
    a.connection.Some? ==> a.started
  }

  lemma FrameAttempts(a: Adapter, frame: Frame)
    requires a.connection.Some? && a.started && forall g :: g in a.attempts ==> a.attempts[g].mode != Initial
    ensures forall g :: g in AcceptFrame(a, frame).0.attempts ==> AcceptFrame(a, frame).0.attempts[g].mode != Initial
    ensures AcceptFrame(a, frame).0.started
  {
    hide AcceptAll, AcceptOne, InitializeWith, ResnapshotWith, RecoverWith;
  }

  lemma StepBeginning(a: Adapter, action: Action)
    requires Beginning(a) && ConnectionCurrent(a) && StartedWithConnection(a)
    ensures Beginning(Step(a, action)) && StartedWithConnection(Step(a, action))
  {
    if action.Receives? {
      if IsCurrent(a, action.generation) {
        var (next, ok) := AcceptFrame(a, action.frame);
        FrameKeepsConnection(a, action.frame);
        FrameBeginning(a, action.frame);
        FrameAttempts(a, action.frame);
        hide AcceptFrame;
        if !ok {
          RejectBeginning(next, next.p.current.Some? && a.connection.value.mode != Recovering);
        }
      }
    } else {
      hide AcceptFrame;
    }
  }

  lemma StepUpToDate(a: Adapter, action: Action)
    requires UpToDate(a) && Beginning(a)
    ensures UpToDate(Step(a, action))
  {
    match action
    case Receives(g, frame) =>
      if IsCurrent(a, g) {
        var (next, ok) := AcceptFrame(a, frame);
        FrameKeepsConnection(a, frame);
        if ok {
          FrameUpToDate(a, frame);
        } else {
          RejectUpToDate(next, next.p.current.Some? && a.connection.value.mode != Recovering);
        }
      }
    case Closes(g) => GapPublished(a.(connection := None));
    case ConnectFails(g) =>
      if g in a.attempts {
        GapPublished(a.(attempts := a.attempts - {g}, started := if a.attempts[g].mode == Initial then false else a.started));
      }
    case _ =>
  }

  /**
   * Until the adapter is stopped, the sink's last handoff is the projection's current one in every reachable state, except while
   * a resumed connection has delivered its page of missed events and not yet the snapshot that confirms them.
   */
  lemma {:induction false} SinkNeverBehind(runner: nat -> Snapshot, states: seq<Adapter>, actions: seq<Action>, k: nat)
    requires Run(runner, states, actions) && k < |states|
    ensures UpToDate(states[k]) && Beginning(states[k]) && StartedWithConnection(states[k])
  {
    hide Step, Beginning, Truthful, StartedWithConnection, LastIsCurrent, ConnectionCurrent;
    if k == 0 {
      InitiallyUpToDate();
    } else {
      assert states[k] == Step(states[k - 1], actions[k - 1]);
      SinkNeverBehind(runner, states, actions, k - 1);
      StepBeginning(states[k - 1], actions[k - 1]);
      hide UpToDate;
      StepUpToDate(states[k - 1], actions[k - 1]);
    }
  }

  lemma InitiallyUpToDate()
    ensures var a := Adapter(CLEARED, None, map[], 0, false, false, []); UpToDate(a) && Beginning(a) && StartedWithConnection(a)
  {
  }
}

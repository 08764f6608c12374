/** The observation publisher of observer/live-companion-projection.ts, fed by the registry. */
module Publisher {
  import opened Contracts
  import opened Registry
  import opened RegistryGuarantees

  datatype Call = OpenObserved(shown: Snapshot) | ApplyObserved(shown: Snapshot) | ClearObserved

  /** The publisher's fields, and the shell calls that went through. */
  datatype Published = Published(verified: bool, lastRevision: int, showing: bool, calls: seq<Call>)

  /** What the panel shows after those calls. */
  function Panel(calls: seq<Call>): Option<Snapshot> {
    if calls == [] || calls[|calls| - 1].ClearObserved? then None else Some(calls[|calls| - 1].shown)
  }

  function Publish(p: Published, s: Snapshot, capable: bool, delivered: bool): (Published, bool) {
    if !p.verified && !capable then (p, false)
    else
      var q := p.(verified := true);
      if s.revision <= q.lastRevision then (q, true)
      else if !delivered then (q, false)
      else (q.(lastRevision := s.revision, showing := true, calls := q.calls + [if q.showing then ApplyObserved(s) else OpenObserved(s)]), true)
  }

  function Clear(p: Published, capable: bool, delivered: bool): (Published, bool) {
    if !p.verified && !capable then (p, false)
    else if !delivered then (p.(verified := true), false)
    else (p.(verified := true, showing := false, calls := p.calls + [ClearObserved]), true)
  }

  class LiveCompanionProjection {
    var verified: bool
    var lastRevision: int
    var observerOpened: bool
    ghost var calls: seq<Call>

    ghost function Contents(): Published
      reads this
    {
      Published(verified, lastRevision, observerOpened, calls)
    }

    constructor ()
      ensures Contents() == Published(false, -1, false, [])
    {
      verified, lastRevision, observerOpened, calls := false, -1, false, [];
    }

    /** `capable` and `delivered` are what the shell answers to the capability check and to the call. */
    method PublishSnapshot(s: Snapshot, capable: bool, delivered: bool) returns (ok: bool)
      modifies this
      ensures (Contents(), ok) == Publish(old(Contents()), s, capable, delivered)
    {
      if !verified {
        if !capable { return false; }
        verified := true;
      }
      if s.revision <= lastRevision { return true; }
      if !delivered { return false; }
      calls := calls + [if observerOpened then ApplyObserved(s) else OpenObserved(s)];
      lastRevision := s.revision;
      observerOpened := true;
      ok := true;
    }

    method ClearObservedAgents(capable: bool, delivered: bool) returns (ok: bool)
      modifies this
      ensures (Contents(), ok) == Clear(old(Contents()), capable, delivered)
    {
      if !verified {
        if !capable { return false; }
        verified := true;
      }
      if !delivered { return false; }
      calls := calls + [ClearObserved];
      observerOpened := false;
      ok := true;
    }
  }

  /** The accepted revision is one the registry had, and an open panel shows the snapshot of it. */
  ghost predicate Faithful(p: Published, states: seq<State>, upto: nat) {
    && p.showing == Panel(p.calls).Some?
    && ((p.lastRevision == -1 && !p.showing)
        || exists i :: 0 <= i <= upto < |states| && states[i].revision == p.lastRevision
             && (p.showing ==> Panel(p.calls) == Some(SnapshotOf(states[i]))))
  }

  lemma InitiallyFaithful(states: seq<State>)
    ensures Faithful(Published(false, -1, false, []), states, 0)
  {
  }

  /**
   * Publishing the current snapshot keeps that, whether it is sent, dropped or fails. When it does not fail,
   * an open panel shows exactly the registry's current snapshot, so what is dropped is never missing.
   */
  lemma PublishFaithful(p: Published, states: seq<State>, actions: seq<Action>, k: nat, j: nat, capable: bool, delivered: bool)
    requires Run(states, actions) && k <= j < |states| && (forall i :: 0 <= i < |actions| ==> !actions[i].Restart?)
    requires Faithful(p, states, k)
    ensures var (q, ok) := Publish(p, SnapshotOf(states[j]), capable, delivered);
      && Faithful(q, states, j)
      && (ok && q.showing ==> Panel(q.calls) == Some(SnapshotOf(states[j])))
      && (ok ==> q.lastRevision == states[j].revision)
      && (!ok ==> q.calls == p.calls && q.lastRevision == p.lastRevision && q.showing == p.showing)
  {
    if p.lastRevision != -1 || p.showing {
      var i :| 0 <= i <= k < |states| && states[i].revision == p.lastRevision
        && (p.showing ==> Panel(p.calls) == Some(SnapshotOf(states[i])));
      RevisionIsVersion(states, actions, i, j);
      assert 0 <= i <= j;
    }
  }

  lemma ClearFaithful(p: Published, states: seq<State>, k: nat, capable: bool, delivered: bool)
    requires Faithful(p, states, k)
    ensures Faithful(Clear(p, capable, delivered).0, states, k)
    ensures Clear(p, capable, delivered).1 ==> Panel(Clear(p, capable, delivered).0.calls) == None
  {
    if p.lastRevision != -1 || p.showing {
      var i :| 0 <= i <= k < |states| && states[i].revision == p.lastRevision
        && (p.showing ==> Panel(p.calls) == Some(SnapshotOf(states[i])));
    }
  }

  /** One operation of the publisher's queue, started when the registry is in the state `at`. */
  datatype Task =
    | PublishTask(at: nat, capable: bool, delivered: bool)
    | ClearTask(at: nat, capable: bool, delivered: bool)

  function Perform(p: Published, states: seq<State>, t: Task): (Published, bool)
    requires t.at < |states|
  {
    if t.ClearTask? then Clear(p, t.capable, t.delivered) else Publish(p, SnapshotOf(states[t.at]), t.capable, t.delivered)
  }

  /** A publisher serving its queue beside a run of the registry. */
  ghost predicate Serves(ps: seq<Published>, tasks: seq<Task>, states: seq<State>, actions: seq<Action>) {
    && Run(states, actions) && (forall i :: 0 <= i < |actions| ==> !actions[i].Restart?)
    && |ps| == |tasks| + 1 && ps[0] == Published(false, -1, false, [])
    && (forall n :: 0 <= n < |tasks| ==> tasks[n].at < |states|)
    && (forall m, n :: 0 <= m < n < |tasks| ==> tasks[m].at <= tasks[n].at)
    && (forall n {:trigger tasks[n]} :: 0 <= n < |tasks| ==> ps[n + 1] == Perform(ps[n], states, tasks[n]).0)
  }

  /** Faithful throughout: an open panel always shows a snapshot the registry had, at the accepted revision. */
  lemma {:induction false} AlwaysFaithful(ps: seq<Published>, tasks: seq<Task>, states: seq<State>, actions: seq<Action>, n: nat)
    requires Serves(ps, tasks, states, actions) && n < |ps|
    ensures Faithful(ps[n], states, if n == 0 then 0 else tasks[n - 1].at)
  {
    if n > 0 {
      AlwaysFaithful(ps, tasks, states, actions, n - 1);
      var before, t := if n == 1 then 0 else tasks[n - 2].at, tasks[n - 1];
      if t.PublishTask? {
        PublishFaithful(ps[n - 1], states, actions, before, t.at, t.capable, t.delivered);
      } else {
        ClearFaithful(ps[n - 1], states, before, t.capable, t.delivered);
      }
    }
  }

  /** The registry's log holds an event past `revision`. */
  ghost predicate News(r: State, revision: int) {
    exists e :: e in r.log && e.revision > revision
  }

  lemma NewsExact(states: seq<State>, actions: seq<Action>, i: nat, j: nat)
    requires Run(states, actions) && i <= j < |states| && forall k :: i <= k < j ==> !actions[k].Restart?
    ensures News(states[j], states[i].revision) <==> states[j].revision > states[i].revision
  {
    RunValid(states, actions, i);
    RunValid(states, actions, j);
    var emitted := HistoryKept(states, actions, i, j);
    if |emitted| > 0 {
      var log := states[j].log;
      assert log[|log| - 1] == emitted[|emitted| - 1] && log[|log| - 1] in log;
    }
  }

  /** Whether a publication to a closed panel opens it. */
  lemma OpensForNews(p: Published, states: seq<State>, actions: seq<Action>, k: nat, t: Task)
    requires Run(states, actions) && forall i :: 0 <= i < |actions| ==> !actions[i].Restart?
    requires t.PublishTask? && k <= t.at < |states| && Faithful(p, states, k) && p.verified && !p.showing
    ensures var q := Perform(p, states, t).0;
      && (q.showing <==> t.delivered && (p.lastRevision == -1 || News(states[t.at], p.lastRevision)))
      && q.verified && (!q.showing ==> q == p)
  {
    if p.lastRevision != -1 {
      var i :| 0 <= i <= k < |states| && states[i].revision == p.lastRevision;
      NewsExact(states, actions, i, t.at);
    }
  }

  ghost predicate Reopening(states: seq<State>, t: Task, revision: int) {
    t.at < |states| && t.delivered && (revision == -1 || News(states[t.at], revision))
  }

  /**
   * After a clear that went through at `c`, and until the next clear, the panel is open exactly when some publication
   * since was delivered with an event past the accepted revision in the registry's log, or nothing had been accepted.
   */
  lemma {:induction false} ReopensOnlyForNews(ps: seq<Published>, tasks: seq<Task>, states: seq<State>, actions: seq<Action>, c: nat, k: nat)
    requires Serves(ps, tasks, states, actions) && c < k <= |tasks|
    requires tasks[c].ClearTask? && Perform(ps[c], states, tasks[c]).1 && forall m :: c < m < k ==> tasks[m].PublishTask?
    ensures ps[k].showing <==> exists m :: c < m < k && Reopening(states, tasks[m], ps[c].lastRevision)
    ensures ps[k].verified && (!ps[k].showing ==> ps[k].lastRevision == ps[c].lastRevision)
  {
    if k == c + 1 {
      assert ps[k] == Perform(ps[c], states, tasks[c]).0;
    } else {
      ReopensOnlyForNews(ps, tasks, states, actions, c, k - 1);
      AlwaysFaithful(ps, tasks, states, actions, k - 1);
      var t := tasks[k - 1];
      assert ps[k] == Perform(ps[k - 1], states, t).0;
      if !ps[k - 1].showing {
        OpensForNews(ps[k - 1], states, actions, tasks[k - 2].at, t);
      }
    }
  }
}

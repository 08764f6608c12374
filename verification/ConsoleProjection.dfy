/** The Agent Console projection of console/projection-core.ts. */
module ConsoleProjection {
  import opened Contracts

  datatype Status = Ready | Reconnecting | Gap

  datatype Card = Card(agentRun: string, piStatus: string)

  /** One card for each of the three roles. */
  datatype Cards = Cards(coordinator: Card, builder: Card, reviewer: Card)

  datatype Identities = Identities(coordinator: string, builder: string, reviewer: string)

  /** A validated snapshot of the Team Runner. */
  datatype Snapshot = Snapshot(goal: string, cursor: nat, cards: Cards)

  datatype EventRecord = EventRecord(sequence: nat, eventId: string)

  datatype Handoff = Handoff(status: Status, cursor: nat, cards: Cards)

  datatype Projection = Projection(current: Option<Handoff>, goal: Option<string>, identities: Option<Identities>, eventIds: set<string>)

  const CLEARED := Projection(None, None, None, {})

  function IdentitiesOf(c: Cards): Identities {
    Identities(c.coordinator.agentRun, c.builder.agentRun, c.reviewer.agentRun)
  }

  function ReadyFrom(s: Snapshot): Handoff {
    Handoff(Ready, s.cursor, s.cards)
  }

  /** An input that does not fit leaves the projection in the gap state, with its cursor and cards. */
  function InGap(p: Projection): Projection {
    if p.current == None then p else p.(current := Some(p.current.value.(status := Gap)))
  }

  function InitializeWith(p: Projection, s: Snapshot): (Projection, bool) {
    if p.current.Some? then (p, false)
    else (Projection(Some(ReadyFrom(s)), Some(s.goal), Some(IdentitiesOf(s.cards)), {}), true)
  }

  /** The next event in sequence is accepted in any state, the gap state included; None is a malformed event. */
  function AcceptOne(p: Projection, event: Option<EventRecord>): (Projection, bool) {
    if p.current == None then (p, false)
    else match event
      case None => (InGap(p), false)
      case Some(e) =>
        if e.sequence != p.current.value.cursor + 1 || e.eventId in p.eventIds then (InGap(p), false)
        else (p.(eventIds := p.eventIds + {e.eventId}, current := Some(Handoff(Reconnecting, e.sequence, p.current.value.cards))), true)
  }

  predicate SameBaseline(p: Projection, s: Snapshot) {
    p.goal == Some(s.goal) && p.identities == Some(IdentitiesOf(s.cards))
  }

  function ResnapshotWith(p: Projection, s: Snapshot): (Projection, bool) {
    if p.current == None || p.current.value.status != Reconnecting then (p, false)
    else if !SameBaseline(p, s) || s.cursor != p.current.value.cursor then (InGap(p), false)
    else (p.(current := Some(ReadyFrom(s))), true)
  }

  function RecoverWith(p: Projection, s: Snapshot): (Projection, bool) {
    if p.current == None || p.current.value.status != Gap then (p, false)
    else if !SameBaseline(p, s) || s.cursor < p.current.value.cursor then (InGap(p), false)
    else (p.(current := Some(ReadyFrom(s)), eventIds := {}), true)
  }

  class AgentConsoleProjection {
    var current: Option<Handoff>
    var goal: Option<string>
    var identities: Option<Identities>
    var eventIds: set<string>

    function Contents(): Projection
      reads this
    {
      Projection(current, goal, identities, eventIds)
    }

    constructor ()
      ensures Contents() == CLEARED
    {
      current, goal, identities, eventIds := None, None, None, {};
    }

    method Fail()
      modifies this`current
      ensures Contents() == InGap(old(Contents()))
    {
      if current.Some? {
        current := Some(Handoff(Gap, current.value.cursor, current.value.cards));
      }
    }

    method Initialize(s: Snapshot) returns (ok: bool)
      modifies this
      ensures (Contents(), ok) == InitializeWith(old(Contents()), s)
    {
      if current.Some? { return false; }
      goal, identities, eventIds, current := Some(s.goal), Some(IdentitiesOf(s.cards)), {}, Some(ReadyFrom(s));
      ok := true;
    }

    method AcceptEvent(event: Option<EventRecord>) returns (ok: bool)
      modifies this
      ensures (Contents(), ok) == AcceptOne(old(Contents()), event)
    {
      if current == None { return false; }
      if event == None
         || event.value.sequence <= current.value.cursor || event.value.sequence != current.value.cursor + 1
         || event.value.eventId in eventIds {
        Fail();
        return false;
      }
      eventIds := eventIds + {event.value.eventId};
      current := Some(Handoff(Reconnecting, event.value.sequence, current.value.cards));
      ok := true;
    }

    method Resnapshot(s: Snapshot) returns (ok: bool)
      modifies this
      ensures (Contents(), ok) == ResnapshotWith(old(Contents()), s)
    {
      if current == None || current.value.status == Gap || current.value.status != Reconnecting { return false; }
      if !SameBaseline(Contents(), s) || s.cursor != current.value.cursor {
        Fail();
        return false;
      }
      current := Some(ReadyFrom(s));
      ok := true;
    }

    method ClearState()
      modifies this
      ensures Contents() == CLEARED
    {
      current, goal, identities, eventIds := None, None, None, {};
    }

    method MarkGap() returns (ok: bool)
      modifies this`current
      ensures Contents() == InGap(old(Contents())) && ok == old(current).Some?
    {
      if current == None { return false; }
      Fail();
      ok := true;
    }

    method Recover(s: Snapshot) returns (ok: bool)
      modifies this
      ensures (Contents(), ok) == RecoverWith(old(Contents()), s)
    {
      if current == None || current.value.status != Gap { return false; }
      if !SameBaseline(Contents(), s) || s.cursor < current.value.cursor {
        Fail();
        return false;
      }
      eventIds := {};
      current := Some(ReadyFrom(s));
      ok := true;
    }
  }
}

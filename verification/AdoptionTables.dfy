/** The tables behind manual/live-adoption-store.ts and manual/live-retirement-store.ts, with their keys. */
module AdoptionTables {
  import opened Contracts

  datatype Binding = Binding(node: string, process: string, piSession: string, extension: string)

  /** A proposal as the stores read it. */
  datatype Proposal = Proposal(id: string, digest: string, session: string, binding: Binding, goal: string, role: string)

  datatype Run = Run(proposal: Proposal, agentRun: string)

  datatype AdoptionEvent = AdoptionEvent(sequence: nat, proposalId: string, session: string, agentRun: string, goal: string, role: string)

  datatype Retired = Retired(agentRun: string, goal: string, role: string, session: string, binding: Binding, revision: nat)

  datatype Replacement = Replacement(run: Run, predecessor: string, generation: nat)

  datatype RetirementEvent = RetirementEvent(sequence: nat, replaced: bool, agentRun: string, goal: string, role: string, predecessor: Option<string>, generation: nat)

  type Role = (string, string)

  /** `adoptionSequence` and `retirementSequence` are the tables' autoincrement counters. */
  datatype Db = Db(
    adopted: map<string, Run>, adoptionEvents: seq<AdoptionEvent>, adoptionSequence: nat, adoptionCursor: nat, takeovers: set<string>,
    retired: map<string, Retired>, replacements: map<string, Replacement>, vacancies: map<Role, nat>, purged: set<Binding>,
    retirementEvents: seq<RetirementEvent>, retirementSequence: nat, retirementCursor: nat, replacementTakeovers: set<string>)

  const EMPTY := Db(map[], [], 0, 0, {}, map[], map[], map[], {}, [], 0, 0, {})

  datatype Error =
    | ConstraintViolated | AlreadyManaged | UnknownAgentRun
    | StaleRevision | PredecessorUnknown | PredecessorMismatch | VacancyStale | RoleOccupied | NotRetired | PurgeBlocked

  datatype Outcome = Done | AlreadyRetired | Failed(error: Error)

  function RoleOf(r: Run): Role {
    (r.proposal.goal, r.proposal.role)
  }

  function Max(a: nat, b: nat): nat {
    if a < b then b else a
  }

  // ---- Queries. ----

  predicate RoleTaken(db: Db, role: Role) {
    exists id :: id in db.adopted && RoleOf(db.adopted[id]) == role
  }

  predicate BindingTaken(db: Db, binding: Binding) {
    exists id :: id in db.adopted && db.adopted[id].proposal.binding == binding
  }

  predicate AdoptedRun(db: Db, agentRun: string) {
    exists id :: id in db.adopted && db.adopted[id].agentRun == agentRun
  }

  predicate ReplacementRun(db: Db, agentRun: string) {
    exists id :: id in db.replacements && db.replacements[id].run.agentRun == agentRun
  }

  predicate IsRetired(db: Db, binding: Binding) {
    (exists x :: x in db.retired && db.retired[x].binding == binding) || binding in db.purged
  }

  predicate HasSuccessor(db: Db, agentRun: string) {
    exists id :: id in db.replacements && db.replacements[id].predecessor == agentRun
  }

  /** A replacement of the role that has not been retired. */
  predicate LiveReplacement(db: Db, role: Role) {
    exists id :: id in db.replacements && RoleOf(db.replacements[id].run) == role && db.replacements[id].run.agentRun !in db.retired
  }

  function RetiredIn(retired: map<string, Retired>, role: Role): set<string> {
    set x | x in retired && (retired[x].goal, retired[x].role) == role
  }

  /** The stored counter, or the number of retired rows when that is larger; retired rows never carry a predecessor. */
  function CurrentGeneration(db: Db, role: Role): nat {
    Max(if role in db.vacancies then db.vacancies[role] else 0, |RetiredIn(db.retired, role)|)
  }

  // ---- Statements and transactions. ----

  /** INSERT INTO adopted_runs: its primary key and its three UNIQUE keys. */
  predicate AdoptedKeysFree(db: Db, p: Proposal, agentRun: string) {
    p.id !in db.adopted && !AdoptedRun(db, agentRun) && !RoleTaken(db, (p.goal, p.role)) && !BindingTaken(db, p.binding)
  }

  function CommitAdoption(db: Db, p: Proposal, agentRun: string): (Db, Outcome) {
    if !AdoptedKeysFree(db, p, agentRun) then (db, Failed(ConstraintViolated))
    else
      var sequence := db.adoptionSequence + 1;
      (db.(adopted := db.adopted[p.id := Run(p, agentRun)],
           adoptionSequence := sequence,
           adoptionEvents := db.adoptionEvents + [AdoptionEvent(sequence, p.id, p.session, agentRun, p.goal, p.role)],
           adoptionCursor := Max(db.adoptionCursor, sequence)), Done)
  }

  function EventsWithout(events: seq<AdoptionEvent>, agentRun: string): seq<AdoptionEvent> {
    if events == [] then []
    else (if events[0].agentRun == agentRun then [] else [events[0]]) + EventsWithout(events[1..], agentRun)
  }

  function RetirementEventsWithout(events: seq<RetirementEvent>, agentRun: string): seq<RetirementEvent> {
    if events == [] then []
    else (if events[0].agentRun == agentRun then [] else [events[0]]) + RetirementEventsWithout(events[1..], agentRun)
  }

  function PurgeCommitted(db: Db, agentRun: string): Db {
    db.(takeovers := db.takeovers - {agentRun},
        adoptionEvents := EventsWithout(db.adoptionEvents, agentRun),
        adopted := map id | id in db.adopted && db.adopted[id].agentRun != agentRun :: db.adopted[id])
  }

  /** The row goes to the table its foreign key points into; an unknown run violates the key. */
  function RecordTakeover(db: Db, agentRun: string): (Db, Outcome) {
    if ReplacementRun(db, agentRun) then (db.(replacementTakeovers := db.replacementTakeovers + {agentRun}), Done)
    else if AdoptedRun(db, agentRun) then (db.(takeovers := db.takeovers + {agentRun}), Done)
    else (db, Failed(ConstraintViolated))
  }

  function CommitRetirement(db: Db, r: Retired): (Db, Outcome) {
    if r.revision < 1 then (db, Failed(StaleRevision))
    else if r.agentRun in db.retired then
      (db, if db.retired[r.agentRun].revision != r.revision then Failed(StaleRevision) else AlreadyRetired)
    else if exists x :: x in db.retired && db.retired[x].binding == r.binding then (db, Failed(ConstraintViolated))
    else
      var role := (r.goal, r.role);
      var generation := CurrentGeneration(db, role) + 1;
      var sequence := db.retirementSequence + 1;
      (db.(retired := db.retired[r.agentRun := r],
           vacancies := db.vacancies[role := generation],
           retirementSequence := sequence,
           retirementEvents := db.retirementEvents + [RetirementEvent(sequence, false, r.agentRun, r.goal, r.role, None, generation)],
           retirementCursor := Max(db.retirementCursor, sequence)), Done)
  }

  /** INSERT INTO retirement_replacements: its primary key and its UNIQUE keys on the run and on the role. */
  predicate ReplacementKeysFree(db: Db, p: Proposal, agentRun: string) {
    && p.id !in db.replacements && !ReplacementRun(db, agentRun)
    && forall id :: id in db.replacements ==> RoleOf(db.replacements[id].run) != (p.goal, p.role)
  }

  function CommitReplacement(db: Db, p: Proposal, agentRun: string, predecessor: string, generation: nat): (Db, Outcome) {
    var role := (p.goal, p.role);
    if predecessor !in db.retired then (db, Failed(PredecessorUnknown))
    else if (db.retired[predecessor].goal, db.retired[predecessor].role) != role then (db, Failed(PredecessorMismatch))
    else if generation != CurrentGeneration(db, role) then (db, Failed(VacancyStale))
    else if LiveReplacement(db, role) then (db, Failed(RoleOccupied))
    else if !ReplacementKeysFree(db, p, agentRun) then (db, Failed(ConstraintViolated))
    else
      var sequence := db.retirementSequence + 1;
      (db.(replacements := db.replacements[p.id := Replacement(Run(p, agentRun), predecessor, generation)],
           retirementSequence := sequence,
           retirementEvents := db.retirementEvents + [RetirementEvent(sequence, true, agentRun, p.goal, p.role, Some(predecessor), generation)],
           retirementCursor := Max(db.retirementCursor, sequence)), Done)
  }

  /** Deletes the retired run everywhere and keeps its binding as purged. */
  function PurgeRetired(db: Db, agentRun: string): (Db, Outcome) {
    if agentRun !in db.retired then (db, Failed(NotRetired))
    else if HasSuccessor(db, agentRun) then (db, Failed(PurgeBlocked))
    else
      var cut := db.(
        purged := db.purged + {db.retired[agentRun].binding},
        retirementEvents := RetirementEventsWithout(db.retirementEvents, agentRun),
        replacementTakeovers := db.replacementTakeovers - {agentRun},
        replacements := map id | id in db.replacements && db.replacements[id].run.agentRun != agentRun :: db.replacements[id],
        retired := db.retired - {agentRun});
      (PurgeCommitted(cut, agentRun), Done)
  }

  datatype Op =
    | Adopt(proposal: Proposal, agentRun: string)
    | Purge(agentRun: string)
    | Takeover(agentRun: string)
    | Retire(run: Retired)
    | Replace(proposal: Proposal, agentRun: string, predecessor: string, generation: nat)
    | PurgeHistory(agentRun: string)

  function Apply(db: Db, op: Op): (Db, Outcome) {
    match op
    case Adopt(p, agentRun) => CommitAdoption(db, p, agentRun)
    case Purge(agentRun) => (PurgeCommitted(db, agentRun), Done)
    case Takeover(agentRun) => RecordTakeover(db, agentRun)
    case Retire(run) => CommitRetirement(db, run)
    case Replace(p, agentRun, predecessor, generation) => CommitReplacement(db, p, agentRun, predecessor, generation)
    case PurgeHistory(agentRun) => PurgeRetired(db, agentRun)
  }

  /** The callback of a transaction: it stops at the first statement that throws. */
  function ApplyAll(db: Db, ops: seq<Op>): (Db, bool)
    decreases |ops|
  {
    if ops == [] then (db, true)
    else
      var (next, outcome) := Apply(db, ops[0]);
      if outcome.Failed? then (next, false) else ApplyAll(next, ops[1..])
  }

  /** How a transaction callback ends when no statement throws. */
  datatype Ending = Returns | ReturnsPromise | Throws

  class AdoptionDatabase {
    var adopted: map<string, Run>
    var adoptionEvents: seq<AdoptionEvent>
    var adoptionSequence: nat
    var adoptionCursor: nat
    var takeovers: set<string>
    var retired: map<string, Retired>
    var replacements: map<string, Replacement>
    var vacancies: map<Role, nat>
    var purged: set<Binding>
    var retirementEvents: seq<RetirementEvent>
    var retirementSequence: nat
    var retirementCursor: nat
    var replacementTakeovers: set<string>

    function Contents(): Db
      reads this
    {
      Db(adopted, adoptionEvents, adoptionSequence, adoptionCursor, takeovers, retired, replacements, vacancies, purged,
         retirementEvents, retirementSequence, retirementCursor, replacementTakeovers)
    }

    constructor ()
      ensures Contents() == EMPTY
    {
      adopted, adoptionEvents, adoptionSequence, adoptionCursor, takeovers := map[], [], 0, 0, {};
      retired, replacements, vacancies, purged := map[], map[], map[], {};
      retirementEvents, retirementSequence, retirementCursor, replacementTakeovers := [], 0, 0, {};
    }

    method CommitAdoptionRow(p: Proposal, agentRun: string) returns (outcome: Outcome)
      modifies this
      ensures (Contents(), outcome) == CommitAdoption(old(Contents()), p, agentRun)
    {
      if !AdoptedKeysFree(Contents(), p, agentRun) {
        return Failed(ConstraintViolated);
      }
      adopted := adopted[p.id := Run(p, agentRun)];
      adoptionSequence := adoptionSequence + 1;
      adoptionEvents := adoptionEvents + [AdoptionEvent(adoptionSequence, p.id, p.session, agentRun, p.goal, p.role)];
      if adoptionCursor < adoptionSequence {
        adoptionCursor := adoptionSequence;
      }
      outcome := Done;
    }

    method PurgeCommittedRun(agentRun: string)
      modifies this
      ensures Contents() == PurgeCommitted(old(Contents()), agentRun)
    {
      takeovers := takeovers - {agentRun};
      adoptionEvents := EventsWithout(adoptionEvents, agentRun);
      adopted := map id | id in adopted && adopted[id].agentRun != agentRun :: adopted[id];
    }

    method CommitRetirementRow(r: Retired) returns (outcome: Outcome)
      modifies this
      ensures (Contents(), outcome) == CommitRetirement(old(Contents()), r)
    {
      if r.revision < 1 { return Failed(StaleRevision); }
      if r.agentRun in retired {
        return if retired[r.agentRun].revision != r.revision then Failed(StaleRevision) else AlreadyRetired;
      }
      var previous := CurrentGeneration(Contents(), (r.goal, r.role));
      if exists x :: x in retired && retired[x].binding == r.binding {
        return Failed(ConstraintViolated);
      }
      retired := retired[r.agentRun := r];
      vacancies := vacancies[(r.goal, r.role) := previous + 1];
      retirementSequence := retirementSequence + 1;
      retirementEvents := retirementEvents + [RetirementEvent(retirementSequence, false, r.agentRun, r.goal, r.role, None, previous + 1)];
      if retirementCursor < retirementSequence {
        retirementCursor := retirementSequence;
      }
      outcome := Done;
    }

    method CommitReplacementRow(p: Proposal, agentRun: string, predecessor: string, generation: nat) returns (outcome: Outcome)
      modifies this
      ensures (Contents(), outcome) == CommitReplacement(old(Contents()), p, agentRun, predecessor, generation)
    {
      if predecessor !in retired { return Failed(PredecessorUnknown); }
      if retired[predecessor].goal != p.goal || retired[predecessor].role != p.role { return Failed(PredecessorMismatch); }
      if generation != CurrentGeneration(Contents(), (p.goal, p.role)) { return Failed(VacancyStale); }
      if LiveReplacement(Contents(), (p.goal, p.role)) { return Failed(RoleOccupied); }
      if !ReplacementKeysFree(Contents(), p, agentRun) { return Failed(ConstraintViolated); }
      replacements := replacements[p.id := Replacement(Run(p, agentRun), predecessor, generation)];
      retirementSequence := retirementSequence + 1;
      retirementEvents := retirementEvents + [RetirementEvent(retirementSequence, true, agentRun, p.goal, p.role, Some(predecessor), generation)];
      if retirementCursor < retirementSequence {
        retirementCursor := retirementSequence;
      }
      outcome := Done;
    }

    method PurgeRetiredRun(agentRun: string) returns (outcome: Outcome)
      modifies this
      ensures (Contents(), outcome) == PurgeRetired(old(Contents()), agentRun)
    {
      if agentRun !in retired { return Failed(NotRetired); }
      if HasSuccessor(Contents(), agentRun) { return Failed(PurgeBlocked); }
      hide PurgeCommitted, HasSuccessor, RetirementEventsWithout;
      purged := purged + {retired[agentRun].binding};
      retirementEvents := RetirementEventsWithout(retirementEvents, agentRun);
      replacementTakeovers := replacementTakeovers - {agentRun};
      replacements := map id | id in replacements && replacements[id].run.agentRun != agentRun :: replacements[id];
      retired := retired - {agentRun};
      PurgeCommittedRun(agentRun);
      outcome := Done;
    }

    method RecordManualTakeover(agentRun: string) returns (outcome: Outcome)
      modifies this
      ensures (Contents(), outcome) == RecordTakeover(old(Contents()), agentRun)
    {
      if ReplacementRun(Contents(), agentRun) {
        replacementTakeovers := replacementTakeovers + {agentRun};
      } else if AdoptedRun(Contents(), agentRun) {
        takeovers := takeovers + {agentRun};
      } else {
        return Failed(ConstraintViolated);
      }
      outcome := Done;
    }

    method Execute(op: Op) returns (outcome: Outcome)
      modifies this
      ensures (Contents(), outcome) == Apply(old(Contents()), op)
    {
      match op
      case Adopt(p, agentRun) => outcome := CommitAdoptionRow(p, agentRun);
      case Purge(agentRun) => PurgeCommittedRun(agentRun); outcome := Done;
      case Takeover(agentRun) => outcome := RecordManualTakeover(agentRun);
      case Retire(run) => outcome := CommitRetirementRow(run);
      case Replace(p, agentRun, predecessor, generation) => outcome := CommitReplacementRow(p, agentRun, predecessor, generation);
      case PurgeHistory(agentRun) => outcome := PurgeRetiredRun(agentRun);
    }

    /** ROLLBACK to what BEGIN IMMEDIATE saw. */
    method Rollback(before: Db)
      modifies this
      ensures Contents() == before
    {
      adopted, adoptionEvents := before.adopted, before.adoptionEvents;
      adoptionSequence, adoptionCursor, takeovers := before.adoptionSequence, before.adoptionCursor, before.takeovers;
      retired, replacements := before.retired, before.replacements;
      vacancies, purged := before.vacancies, before.purged;
      retirementEvents, replacementTakeovers := before.retirementEvents, before.replacementTakeovers;
      retirementSequence, retirementCursor := before.retirementSequence, before.retirementCursor;
    }

    /** All of the operations, or nothing: a throw at any statement, at the end, or a promise rolls everything back. */
    method Transaction(ops: seq<Op>, ending: Ending) returns (committed: bool)
      modifies this
      ensures committed <==> ApplyAll(old(Contents()), ops).1 && ending == Returns
      ensures Contents() == if committed then ApplyAll(old(Contents()), ops).0 else old(Contents())
    {
      var before := Contents();
      var i := 0;
      assert ops[0..] == ops;
      while i < |ops|
        invariant 0 <= i <= |ops| && before == old(Contents())
        invariant ApplyAll(before, ops) == ApplyAll(Contents(), ops[i..])
      {
        assert ops[i..][0] == ops[i] && ops[i..][1..] == ops[i + 1..];
        var outcome := Execute(ops[i]);
        if outcome.Failed? {
          Rollback(before);
          return false;
        }
        i := i + 1;
      }
      assert ops[i..] == [];
      if ending != Returns {
        Rollback(before);
        return false;
      }
      committed := true;
    }
  }
}

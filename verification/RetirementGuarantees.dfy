/** What the adoption and retirement tables keep over whole histories. */
module RetirementGuarantees {
  import opened Contracts
  import opened AdoptionTables

  // ---- Keys. ----

  ghost predicate AdoptedKeys(adopted: map<string, Run>) {
    && (forall id :: id in adopted ==> adopted[id].proposal.id == id)
    && forall i, j :: i in adopted && j in adopted && i != j ==>
         && adopted[i].agentRun != adopted[j].agentRun && RoleOf(adopted[i]) != RoleOf(adopted[j])
         && adopted[i].proposal.binding != adopted[j].proposal.binding
  }

  ghost predicate ReplacementKeys(replacements: map<string, Replacement>) {
    && (forall id :: id in replacements ==> replacements[id].run.proposal.id == id)
    && forall i, j :: i in replacements && j in replacements && i != j ==>
         replacements[i].run.agentRun != replacements[j].run.agentRun && RoleOf(replacements[i].run) != RoleOf(replacements[j].run)
  }

  ghost predicate RetiredKeys(retired: map<string, Retired>) {
    && (forall x :: x in retired ==> retired[x].agentRun == x)
    && forall x, y :: x in retired && y in retired && x != y ==> retired[x].binding != retired[y].binding
  }

  /** Every replacement's predecessor is kept in retired history, with the same role. */
  ghost predicate PredecessorsKept(retired: map<string, Retired>, replacements: map<string, Replacement>) {
    forall id :: id in replacements ==>
      var b := replacements[id];
      b.predecessor in retired && (retired[b.predecessor].goal, retired[b.predecessor].role) == RoleOf(b.run)
  }

  /** No role has more retired rows than its counter says. */
  ghost predicate GenerationsOk(retired: map<string, Retired>, vacancies: map<Role, nat>) {
    forall x :: x in retired ==>
      var role := (retired[x].goal, retired[x].role);
      role in vacancies && |RetiredIn(retired, role)| <= vacancies[role]
  }

  ghost predicate AdoptionSequenced(events: seq<AdoptionEvent>, sequence: nat, cursor: nat) {
    && cursor == sequence && (forall i :: 0 <= i < |events| ==> events[i].sequence <= sequence)
    && forall i, j :: 0 <= i < j < |events| ==> events[i].sequence < events[j].sequence
  }

  ghost predicate RetirementSequenced(events: seq<RetirementEvent>, sequence: nat, cursor: nat) {
    && cursor == sequence && (forall i :: 0 <= i < |events| ==> events[i].sequence <= sequence)
    && forall i, j :: 0 <= i < j < |events| ==> events[i].sequence < events[j].sequence
  }

  ghost predicate Valid(db: Db) {
    && AdoptedKeys(db.adopted) && ReplacementKeys(db.replacements) && RetiredKeys(db.retired)
    && PredecessorsKept(db.retired, db.replacements) && GenerationsOk(db.retired, db.vacancies)
    && AdoptionSequenced(db.adoptionEvents, db.adoptionSequence, db.adoptionCursor)
    && RetirementSequenced(db.retirementEvents, db.retirementSequence, db.retirementCursor)
  }

  lemma EmptyValid()
    ensures Valid(EMPTY)
  {
  }

  // ---- Event logs. ----

  lemma {:induction false} EventsFiltered(events: seq<AdoptionEvent>, agentRun: string, top: nat)
    requires forall i :: 0 <= i < |events| ==> events[i].sequence <= top
    requires forall i, j :: 0 <= i < j < |events| ==> events[i].sequence < events[j].sequence
    ensures var kept := EventsWithout(events, agentRun);
      && (forall e :: e in kept <==> e in events && e.agentRun != agentRun)
      && (forall i :: 0 <= i < |kept| ==> kept[i].sequence <= top)
      && (forall i, j :: 0 <= i < j < |kept| ==> kept[i].sequence < kept[j].sequence)
  {
    if events != [] {
      EventsFiltered(events[1..], agentRun, top);
      assert forall e :: e in events <==> e == events[0] || e in events[1..];
      assert forall e :: e in events[1..] ==> events[0].sequence < e.sequence;
    }
  }

  lemma {:induction false} RetirementEventsFiltered(events: seq<RetirementEvent>, agentRun: string, top: nat)
    requires forall i :: 0 <= i < |events| ==> events[i].sequence <= top
    requires forall i, j :: 0 <= i < j < |events| ==> events[i].sequence < events[j].sequence
    ensures var kept := RetirementEventsWithout(events, agentRun);
      && (forall e :: e in kept <==> e in events && e.agentRun != agentRun)
      && (forall i :: 0 <= i < |kept| ==> kept[i].sequence <= top)
      && (forall i, j :: 0 <= i < j < |kept| ==> kept[i].sequence < kept[j].sequence)
  {
    if events != [] {
      RetirementEventsFiltered(events[1..], agentRun, top);
      assert forall e :: e in events <==> e == events[0] || e in events[1..];
      assert forall e :: e in events[1..] ==> events[0].sequence < e.sequence;
    }
  }

  // ---- Every statement keeps the tables valid. ----

  lemma AdoptedAdded(db: Db, p: Proposal, agentRun: string)
    requires AdoptedKeys(db.adopted) && AdoptedKeysFree(db, p, agentRun)
    ensures AdoptedKeys(db.adopted[p.id := Run(p, agentRun)])
  {
  }

  lemma ReplacementAdded(db: Db, p: Proposal, b: Replacement)
    requires ReplacementKeys(db.replacements) && b.run.proposal == p && ReplacementKeysFree(db, p, b.run.agentRun)
    requires PredecessorsKept(db.retired, db.replacements)
    requires b.predecessor in db.retired && (db.retired[b.predecessor].goal, db.retired[b.predecessor].role) == RoleOf(b.run)
    ensures ReplacementKeys(db.replacements[p.id := b]) && PredecessorsKept(db.retired, db.replacements[p.id := b])
  {
  }

  lemma RetiredGrows(retired: map<string, Retired>, r: Retired, role: Role)
    requires r.agentRun !in retired
    ensures RetiredIn(retired[r.agentRun := r], role) == RetiredIn(retired, role) + if (r.goal, r.role) == role then {r.agentRun} else {}
  {
  }

  lemma RetiredAdded(db: Db, r: Retired, vacancies: map<Role, nat>)
    requires Valid(db) && r.agentRun !in db.retired && forall x :: x in db.retired ==> db.retired[x].binding != r.binding
    requires vacancies == db.vacancies[(r.goal, r.role) := CurrentGeneration(db, (r.goal, r.role)) + 1]
    ensures var retired := db.retired[r.agentRun := r];
      RetiredKeys(retired) && PredecessorsKept(retired, db.replacements) && GenerationsOk(retired, vacancies)
  {
    var retired := db.retired[r.agentRun := r];
    forall x | x in retired ensures
      var role := (retired[x].goal, retired[x].role); role in vacancies && |RetiredIn(retired, role)| <= vacancies[role]
    {
      RetiredGrows(db.retired, r, (retired[x].goal, retired[x].role));
    }
  }

  lemma RetireValid(db: Db, r: Retired)
    requires Valid(db)
    ensures Valid(CommitRetirement(db, r).0)
  {
    if CommitRetirement(db, r).1 == Done {
      RetiredAdded(db, r, CommitRetirement(db, r).0.vacancies);
      hide AdoptedKeys, ReplacementKeys, RetiredKeys, PredecessorsKept, GenerationsOk;
    }
  }

  lemma FewerRetired(retired: map<string, Retired>, later: map<string, Retired>, role: Role)
    requires forall x :: x in later ==> x in retired && later[x] == retired[x]
    ensures |RetiredIn(later, role)| <= |RetiredIn(retired, role)|
  {
    SubsetSize(RetiredIn(later, role), RetiredIn(retired, role));
  }

  lemma {:induction false} SubsetSize(a: set<string>, b: set<string>)
    requires a <= b
    ensures |a| <= |b|
    decreases |a|
  {
    if a != {} {
      var x :| x in a;
      SubsetSize(a - {x}, b - {x});
    }
  }

  /** Removing a retired run that no replacement points at, with its replacement row. */
  lemma RetiredRemoved(db: Db, agentRun: string, replacements: map<string, Replacement>)
    requires Valid(db) && !HasSuccessor(db, agentRun)
    requires replacements == map id | id in db.replacements && db.replacements[id].run.agentRun != agentRun :: db.replacements[id]
    ensures var retired := db.retired - {agentRun};
      RetiredKeys(retired) && ReplacementKeys(replacements) && PredecessorsKept(retired, replacements) && GenerationsOk(retired, db.vacancies)
  {
    var retired := db.retired - {agentRun};
    forall x | x in retired ensures
      var role := (retired[x].goal, retired[x].role); role in db.vacancies && |RetiredIn(retired, role)| <= db.vacancies[role]
    {
      FewerRetired(db.retired, retired, (retired[x].goal, retired[x].role));
    }
  }

  lemma PurgeHistoryValid(db: Db, agentRun: string)
    requires Valid(db)
    ensures Valid(PurgeRetired(db, agentRun).0)
  {
    var (later, outcome) := PurgeRetired(db, agentRun);
    if outcome == Done {
      RetirementEventsFiltered(db.retirementEvents, agentRun, db.retirementSequence);
      RetiredRemoved(db, agentRun, later.replacements);
      PurgeValid(db, agentRun);
      hide AdoptedKeys, ReplacementKeys, RetiredKeys, PredecessorsKept, GenerationsOk, AdoptionSequenced;
    }
  }

  lemma PurgeValid(db: Db, agentRun: string)
    requires Valid(db)
    ensures Valid(PurgeCommitted(db, agentRun))
  {
    EventsFiltered(db.adoptionEvents, agentRun, db.adoptionSequence);
    hide ReplacementKeys, RetiredKeys, PredecessorsKept, GenerationsOk, RetirementSequenced;
  }

  lemma AdoptValid(db: Db, p: Proposal, agentRun: string)
    requires Valid(db)
    ensures Valid(CommitAdoption(db, p, agentRun).0)
  {
    hide AdoptedKeys, ReplacementKeys, RetiredKeys, PredecessorsKept, GenerationsOk, RetirementSequenced, AdoptedKeysFree;
    if AdoptedKeysFree(db, p, agentRun) {
      AdoptedAdded(db, p, agentRun);
    }
  }

  lemma ReplaceValid(db: Db, p: Proposal, agentRun: string, predecessor: string, generation: nat)
    requires Valid(db)
    ensures Valid(CommitReplacement(db, p, agentRun, predecessor, generation).0)
  {
    hide AdoptedKeys, ReplacementKeys, RetiredKeys, PredecessorsKept, GenerationsOk, AdoptionSequenced, ReplacementKeysFree, LiveReplacement, CurrentGeneration;
    if CommitReplacement(db, p, agentRun, predecessor, generation).1 == Done {
      ReplacementAdded(db, p, Replacement(Run(p, agentRun), predecessor, generation));
    }
  }

  lemma ApplyValid(db: Db, op: Op)
    requires Valid(db)
    ensures Valid(Apply(db, op).0)
  {
    hide AdoptedKeys, ReplacementKeys, RetiredKeys, PredecessorsKept, GenerationsOk, AdoptionSequenced, RetirementSequenced;
    match op
    case Adopt(p, agentRun) => AdoptValid(db, p, agentRun);
    case Purge(agentRun) => PurgeValid(db, agentRun);
    case Takeover(agentRun) =>
    case Retire(run) => RetireValid(db, run);
    case Replace(p, agentRun, predecessor, generation) => ReplaceValid(db, p, agentRun, predecessor, generation);
    case PurgeHistory(agentRun) => PurgeHistoryValid(db, agentRun);
  }

  /** A history of committed operations on empty tables; an operation that throws leaves no trace. */
  ghost predicate History(states: seq<Db>, ops: seq<Op>) {
    && |states| == |ops| + 1 && states[0] == EMPTY
    && forall i {:trigger ops[i]} :: 0 <= i < |ops| ==> states[i + 1] == Apply(states[i], ops[i]).0
  }

  lemma {:induction false} HistoryValid(states: seq<Db>, ops: seq<Op>, i: nat)
    requires History(states, ops) && i < |states|
    ensures Valid(states[i])
  {
    if i > 0 {
      HistoryValid(states, ops, i - 1);
      ApplyValid(states[i - 1], ops[i - 1]);
    } else {
      EmptyValid();
    }
  }

  // ---- A retired binding stays retired. ----

  lemma RetiredOnce(db: Db, op: Op, binding: Binding)
    requires IsRetired(db, binding)
    ensures IsRetired(Apply(db, op).0, binding)
  {
    var later := Apply(db, op).0;
    if binding !in db.purged {
      var x :| x in db.retired && db.retired[x].binding == binding;
      assert x in later.retired ==> later.retired[x] == db.retired[x];
    }
  }

  lemma {:induction false} RetiredForever(states: seq<Db>, ops: seq<Op>, i: nat, j: nat, binding: Binding)
    requires History(states, ops) && i <= j < |states| && IsRetired(states[i], binding)
    ensures IsRetired(states[j], binding)
    decreases j
  {
    if i < j {
      RetiredForever(states, ops, i, j - 1, binding);
      RetiredOnce(states[j - 1], ops[j - 1], binding);
    }
  }

  // ---- The vacancy generation counts retirements. ----

  predicate Retires(db: Db, op: Op, role: Role) {
    op.Retire? && CommitRetirement(db, op.run).1 == Done && (op.run.goal, op.run.role) == role
  }

  function Retirements(states: seq<Db>, ops: seq<Op>, i: nat, role: Role): nat
    requires |states| == |ops| + 1 && i < |states|
  {
    if i == 0 then 0 else Retirements(states, ops, i - 1, role) + if Retires(states[i - 1], ops[i - 1], role) then 1 else 0
  }

  /** The stored counter of a role. */
  function Counter(db: Db, role: Role): nat {
    if role in db.vacancies then db.vacancies[role] else 0
  }

  lemma GenerationStep(db: Db, op: Op, role: Role)
    requires CurrentGeneration(db, role) == Counter(db, role)
    ensures var later := Apply(db, op).0;
      && CurrentGeneration(later, role) == CurrentGeneration(db, role) + (if Retires(db, op, role) then 1 else 0)
      && CurrentGeneration(later, role) == Counter(later, role)
  {
    var later := Apply(db, op).0;
    if op.Retire? {
      RetireCounts(db, op.run, role);
    } else {
      assert later.vacancies == db.vacancies;
      assert forall x :: x in later.retired ==> x in db.retired && later.retired[x] == db.retired[x];
      hide Apply;
      FewerRetired(db.retired, later.retired, role);
    }
  }

  lemma RetireCounts(db: Db, r: Retired, role: Role)
    requires CurrentGeneration(db, role) == Counter(db, role)
    ensures var later := CommitRetirement(db, r).0;
      && CurrentGeneration(later, role) == CurrentGeneration(db, role) + (if Retires(db, Retire(r), role) then 1 else 0)
      && CurrentGeneration(later, role) == Counter(later, role)
  {
    var (later, outcome) := CommitRetirement(db, r);
    if outcome == Done {
      RetiredGrows(db.retired, r, role);
    }
  }

  /** A role's vacancy generation is the number of retirements ever committed for it, purges or not. */
  lemma {:induction false} GenerationCountsRetirements(states: seq<Db>, ops: seq<Op>, i: nat, role: Role)
    requires History(states, ops) && i < |states|
    ensures CurrentGeneration(states[i], role) == Retirements(states, ops, i, role)
    ensures CurrentGeneration(states[i], role) == Counter(states[i], role)
  {
    if i > 0 {
      GenerationCountsRetirements(states, ops, i - 1, role);
      HistoryValid(states, ops, i - 1);
      GenerationStep(states[i - 1], ops[i - 1], role);
    } else {
      assert RetiredIn(map[], role) == {};
    }
  }

  lemma {:induction false} GenerationsGrow(states: seq<Db>, ops: seq<Op>, i: nat, j: nat, role: Role)
    requires History(states, ops) && i <= j < |states|
    ensures Retirements(states, ops, i, role) <= Retirements(states, ops, j, role)
    decreases j
  {
    hide Retires;
    if i < j {
      GenerationsGrow(states, ops, i, j - 1, role);
    }
  }

  /** A replacement proposal that is stale once can never commit later. */
  lemma StaleForever(states: seq<Db>, ops: seq<Op>, i: nat, j: nat, p: Proposal, agentRun: string, predecessor: string, generation: nat)
    requires History(states, ops) && i <= j < |states|
    requires generation < CurrentGeneration(states[i], (p.goal, p.role))
    ensures CommitReplacement(states[j], p, agentRun, predecessor, generation).1.Failed?
    ensures CommitReplacement(states[j], p, agentRun, predecessor, generation).0 == states[j]
  {
    GenerationCountsRetirements(states, ops, i, (p.goal, p.role));
    GenerationCountsRetirements(states, ops, j, (p.goal, p.role));
    GenerationsGrow(states, ops, i, j, (p.goal, p.role));
  }

  // ---- At most one live run per role. ----

  /** The run is the adopted run of the role. */
  predicate AdoptedIn(db: Db, agentRun: string, role: Role) {
    exists a :: a in db.adopted && db.adopted[a].agentRun == agentRun && RoleOf(db.adopted[a]) == role
  }

  /** The run is the replacement run of the role. */
  predicate ReplacementIn(db: Db, agentRun: string, role: Role) {
    exists id :: id in db.replacements && db.replacements[id].run.agentRun == agentRun && RoleOf(db.replacements[id].run) == role
  }

  predicate CommittedIn(db: Db, agentRun: string, role: Role) {
    AdoptedIn(db, agentRun, role) || ReplacementIn(db, agentRun, role)
  }

  predicate LiveIn(db: Db, agentRun: string, role: Role) {
    agentRun !in db.retired && CommittedIn(db, agentRun, role)
  }

  function RetiredRole(r: Retired): Role {
    (r.goal, r.role)
  }

  /** A retirement that commits names a run committed in that role; a role's retired adopted run is not purged as if it were live. */
  predicate Orderly(db: Db, op: Op) {
    match op
    case Retire(run) => Apply(db, op).1 != Done || CommittedIn(db, run.agentRun, RetiredRole(run))
    case Purge(agentRun) => !(agentRun in db.retired && AdoptedIn(db, agentRun, RetiredRole(db.retired[agentRun])))
    case _ => true
  }

  /** The predecessor of a replacement is the role's adopted run, retired. */
  ghost predicate FollowsAdopted(db: Db, b: Replacement) {
    b.predecessor in db.retired && AdoptedIn(db, b.predecessor, RoleOf(b.run))
  }

  ghost predicate Succeeds(db: Db) {
    && (forall id :: id in db.replacements ==> FollowsAdopted(db, db.replacements[id]))
    && forall x :: x in db.retired ==> CommittedIn(db, x, RetiredRole(db.retired[x]))
  }

  lemma SucceedsAdopt(db: Db, p: Proposal, agentRun: string)
    requires Succeeds(db)
    ensures Succeeds(CommitAdoption(db, p, agentRun).0)
  {
    var later := CommitAdoption(db, p, agentRun).0;
    if later != db {
      CommittedKept(db, later);
      hide AdoptedIn, ReplacementIn;
      forall id | id in later.replacements ensures FollowsAdopted(later, later.replacements[id]) {
        assert FollowsAdopted(db, db.replacements[id]);
      }
    }
  }

  /** Rows that stay keep their runs committed. */
  lemma CommittedKept(db: Db, later: Db)
    requires forall id :: id in db.adopted ==> id in later.adopted && later.adopted[id] == db.adopted[id]
    requires forall id :: id in db.replacements ==> id in later.replacements && later.replacements[id] == db.replacements[id]
    ensures forall x, role :: AdoptedIn(db, x, role) ==> AdoptedIn(later, x, role)
    ensures forall x, role :: CommittedIn(db, x, role) ==> CommittedIn(later, x, role)
  {
    forall x, role | AdoptedIn(db, x, role) ensures AdoptedIn(later, x, role) {
      var id :| id in db.adopted && db.adopted[id].agentRun == x && RoleOf(db.adopted[id]) == role;
      assert later.adopted[id] == db.adopted[id];
    }
    forall x, role | ReplacementIn(db, x, role) ensures ReplacementIn(later, x, role) {
      var id :| id in db.replacements && db.replacements[id].run.agentRun == x && RoleOf(db.replacements[id].run) == role;
      assert later.replacements[id] == db.replacements[id];
    }
    hide AdoptedIn, ReplacementIn;
  }

  /** Where no replacement row of the role is left, a retired run of the role can only be the adopted one. */
  lemma SucceedsReplace(db: Db, p: Proposal, agentRun: string, predecessor: string, generation: nat)
    requires Succeeds(db)
    ensures Succeeds(CommitReplacement(db, p, agentRun, predecessor, generation).0)
  {
    hide CurrentGeneration, LiveReplacement;
    var (later, outcome) := CommitReplacement(db, p, agentRun, predecessor, generation);
    if outcome == Done {
      assert CommittedIn(db, predecessor, (p.goal, p.role));
      assert AdoptedIn(db, predecessor, (p.goal, p.role));
      OneMoreReplacement(db, later, Replacement(Run(p, agentRun), predecessor, generation));
    }
  }

  lemma OneMoreReplacement(db: Db, later: Db, b: Replacement)
    requires Succeeds(db) && AdoptedIn(db, b.predecessor, RoleOf(b.run)) && b.predecessor in db.retired
    requires b.run.proposal.id !in db.replacements
    requires later.adopted == db.adopted && later.retired == db.retired && later.replacements == db.replacements[b.run.proposal.id := b]
    ensures Succeeds(later)
  {
    CommittedKept(db, later);
    hide CommittedIn, AdoptedIn, ReplacementIn;
    forall id | id in later.replacements ensures FollowsAdopted(later, later.replacements[id]) {
      if id != b.run.proposal.id {
        assert FollowsAdopted(db, db.replacements[id]);
      }
    }
  }

  /** A committed retirement keeps this exactly when it names a run committed in its role. */
  lemma SucceedsRetire(db: Db, r: Retired)
    requires Succeeds(db) && CommitRetirement(db, r).1 == Done
    ensures Succeeds(CommitRetirement(db, r).0) <==> CommittedIn(db, r.agentRun, RetiredRole(r))
  {
    var later := CommitRetirement(db, r).0;
    assert later.adopted == db.adopted && later.replacements == db.replacements && later.retired == db.retired[r.agentRun := r];
    hide CommitRetirement;
    OneMoreRetired(db, later, r);
  }

  lemma OneMoreRetired(db: Db, later: Db, r: Retired)
    requires Succeeds(db) && r.agentRun !in db.retired
    requires later.adopted == db.adopted && later.replacements == db.replacements && later.retired == db.retired[r.agentRun := r]
    ensures Succeeds(later) <==> CommittedIn(db, r.agentRun, RetiredRole(r))
  {
    CommittedKept(db, later);
    CommittedKept(later, db);
    hide CommittedIn, AdoptedIn, ReplacementIn;
    assert later.retired[r.agentRun] == r;
    forall id | id in later.replacements ensures FollowsAdopted(later, later.replacements[id]) {
      assert FollowsAdopted(db, db.replacements[id]);
    }
  }

  /** Purging a run as committed keeps this exactly when the run is not the retired adopted run of its role. */
  lemma SucceedsPurge(db: Db, agentRun: string)
    requires Valid(db) && Succeeds(db)
    ensures Succeeds(PurgeCommitted(db, agentRun)) <==> Orderly(db, Purge(agentRun))
  {
    var later := PurgeCommitted(db, agentRun);
    OthersStay(db, later, agentRun);
    AdoptedGone(db, agentRun);
    hide Valid, Succeeds, AdoptedIn, ReplacementIn, Orderly;
    if Orderly(db, Purge(agentRun)) {
      PurgeKeeps(db, later, agentRun);
    } else {
      PurgeBreaks(db, later, agentRun);
    }
  }

  lemma PurgeBreaks(db: Db, later: Db, agentRun: string)
    requires Valid(db) && Succeeds(db) && !Orderly(db, Purge(agentRun))
    requires later.retired == db.retired && later.replacements == db.replacements
    requires forall role :: !AdoptedIn(later, agentRun, role)
    ensures !Succeeds(later)
  {
    var role := RetiredRole(db.retired[agentRun]);
    hide Valid;
    if b :| b in later.replacements && later.replacements[b].run.agentRun == agentRun && RoleOf(later.replacements[b].run) == role {
      assert FollowsAdopted(db, db.replacements[b]);
      hide AdoptedIn;
      OneAdopted(db, db.replacements[b].predecessor, agentRun, role);
      assert !FollowsAdopted(later, later.replacements[b]);
    } else {
      assert agentRun in later.retired && !CommittedIn(later, agentRun, role);
    }
  }

  lemma OneAdopted(db: Db, x: string, y: string, role: Role)
    requires Valid(db) && AdoptedIn(db, x, role) && AdoptedIn(db, y, role)
    ensures x == y
  {
  }

  lemma AdoptedGone(db: Db, agentRun: string)
    ensures forall role :: !AdoptedIn(PurgeCommitted(db, agentRun), agentRun, role)
  {
  }

  /** Removing the rows of one run leaves the other runs where they are. */
  lemma OthersStay(db: Db, later: Db, agentRun: string)
    requires forall id :: id in db.adopted && db.adopted[id].agentRun != agentRun ==> id in later.adopted && later.adopted[id] == db.adopted[id]
    requires forall id :: id in db.replacements && db.replacements[id].run.agentRun != agentRun ==>
      id in later.replacements && later.replacements[id] == db.replacements[id]
    ensures forall x, role :: x != agentRun && AdoptedIn(db, x, role) ==> AdoptedIn(later, x, role)
    ensures forall x, role :: x != agentRun && CommittedIn(db, x, role) ==> CommittedIn(later, x, role)
  {
    forall x, role | x != agentRun && AdoptedIn(db, x, role) ensures AdoptedIn(later, x, role) {
      var id :| id in db.adopted && db.adopted[id].agentRun == x && RoleOf(db.adopted[id]) == role;
      assert later.adopted[id] == db.adopted[id];
    }
    forall x, role | x != agentRun && ReplacementIn(db, x, role) ensures ReplacementIn(later, x, role) {
      var id :| id in db.replacements && db.replacements[id].run.agentRun == x && RoleOf(db.replacements[id].run) == role;
      assert later.replacements[id] == db.replacements[id];
    }
    hide AdoptedIn, ReplacementIn;
  }

  lemma PurgeKeeps(db: Db, later: Db, agentRun: string)
    requires Valid(db) && Succeeds(db) && Orderly(db, Purge(agentRun))
    requires later.retired == db.retired && later.replacements == db.replacements
    requires forall x, role :: x != agentRun && AdoptedIn(db, x, role) ==> AdoptedIn(later, x, role)
    requires forall x, role :: x != agentRun && CommittedIn(db, x, role) ==> CommittedIn(later, x, role)
    ensures Succeeds(later)
  {
    forall id | id in later.replacements ensures FollowsAdopted(later, later.replacements[id]) {
      assert FollowsAdopted(db, db.replacements[id]);
      PredecessorRole(db, id);
    }
    if agentRun in db.retired {
      assert CommittedIn(db, agentRun, RetiredRole(db.retired[agentRun]));
      assert ReplacementIn(later, agentRun, RetiredRole(db.retired[agentRun]));
    }
    hide AdoptedIn, ReplacementIn, CommittedIn;
  }

  lemma PredecessorRole(db: Db, id: string)
    requires Valid(db) && id in db.replacements
    ensures db.replacements[id].predecessor in db.retired
    ensures RetiredRole(db.retired[db.replacements[id].predecessor]) == RoleOf(db.replacements[id].run)
  {
  }

  lemma SucceedsPurgeHistory(db: Db, agentRun: string)
    requires Succeeds(db)
    ensures Succeeds(PurgeRetired(db, agentRun).0)
  {
    var (later, outcome) := PurgeRetired(db, agentRun);
    if outcome == Done {
      OthersStay(db, later, agentRun);
      hide AdoptedIn, ReplacementIn, CommittedIn;
      forall id | id in later.replacements ensures FollowsAdopted(later, later.replacements[id]) {
        assert later.replacements[id] == db.replacements[id] && db.replacements[id].predecessor != agentRun;
        assert FollowsAdopted(db, db.replacements[id]);
      }
    }
  }

  lemma NothingSucceeds()
    ensures Succeeds(EMPTY)
  {
  }

  lemma {:induction false} HistorySucceeds(states: seq<Db>, ops: seq<Op>, i: nat)
    requires History(states, ops) && i < |states| && forall k :: 0 <= k < |ops| ==> Orderly(states[k], ops[k])
    ensures Succeeds(states[i])
  {
    hide Apply, Succeeds, Orderly, Valid;
    if i > 0 {
      HistorySucceeds(states, ops, i - 1);
      HistoryValid(states, ops, i - 1);
      OrderlyExact(states[i - 1], ops[i - 1]);
    } else {
      NothingSucceeds();
    }
  }

  /** Each operation keeps succession in order if and only if it is orderly; new commits may even reuse run identities. */
  lemma OrderlyExact(db: Db, op: Op)
    requires Valid(db) && Succeeds(db)
    ensures Succeeds(Apply(db, op).0) <==> Orderly(db, op)
  {
    hide Valid, Succeeds, CommittedIn, AdoptedIn;
    match op
    case Adopt(p, agentRun) => SucceedsAdopt(db, p, agentRun);
    case Purge(agentRun) => SucceedsPurge(db, agentRun);
    case Takeover(agentRun) => TakeoverKeepsRuns(db, agentRun);
    case Retire(run) =>
      if CommitRetirement(db, run).1 == Done { SucceedsRetire(db, run); }
    case Replace(p, agentRun, predecessor, generation) => SucceedsReplace(db, p, agentRun, predecessor, generation);
    case PurgeHistory(agentRun) => SucceedsPurgeHistory(db, agentRun);
  }

  lemma TakeoverKeepsRuns(db: Db, agentRun: string)
    requires Succeeds(db)
    ensures Succeeds(RecordTakeover(db, agentRun).0)
  {
    hide Succeeds;
    SameRuns(db, RecordTakeover(db, agentRun).0);
  }

  lemma SameRuns(db: Db, later: Db)
    requires Succeeds(db) && later.adopted == db.adopted && later.replacements == db.replacements && later.retired == db.retired
    ensures Succeeds(later)
  {
    CommittedKept(db, later);
    hide CommittedIn, AdoptedIn, ReplacementIn;
    forall id | id in later.replacements ensures FollowsAdopted(later, later.replacements[id]) {
      assert FollowsAdopted(db, db.replacements[id]);
    }
  }

  /** At most one run per Team Goal and Role is live, whether adopted or a replacement. */
  lemma OneLiveRun(states: seq<Db>, ops: seq<Op>, i: nat, x: string, y: string, role: Role)
    requires History(states, ops) && i < |states| && forall k :: 0 <= k < |ops| ==> Orderly(states[k], ops[k])
    requires LiveIn(states[i], x, role) && LiveIn(states[i], y, role)
    ensures x == y
  {
    HistoryValid(states, ops, i);
    HistorySucceeds(states, ops, i);
    LiveUnique(states[i], x, y, role);
  }

  lemma LiveUnique(db: Db, x: string, y: string, role: Role)
    requires Valid(db) && Succeeds(db) && LiveIn(db, x, role) && LiveIn(db, y, role)
    ensures x == y
  {
    if b :| b in db.replacements && RoleOf(db.replacements[b].run) == role && db.replacements[b].run.agentRun !in db.retired {
      assert FollowsAdopted(db, db.replacements[b]);
      var a :| a in db.adopted && db.adopted[a].agentRun == db.replacements[b].predecessor && RoleOf(db.adopted[a]) == role;
      // The only adopted run of the role is retired, so both live runs are the replacement.
      assert forall id :: id in db.adopted && RoleOf(db.adopted[id]) == role ==> id == a;
    }
  }

  /** Every replacement's predecessor is still retired history, in every history at all. */
  lemma PredecessorRetained(states: seq<Db>, ops: seq<Op>, i: nat, id: string)
    requires History(states, ops) && i < |states| && id in states[i].replacements
    ensures states[i].replacements[id].predecessor in states[i].retired
  {
    HistoryValid(states, ops, i);
  }

  /** Deleting a role's retired adopted run as if it were live breaks one-live-run: its role can then be taken beside the replacement. */
  lemma PurgedPredecessorFreesRole(a: Proposal, b: Proposal, c: Proposal, goal: string, role: string)
    requires a.goal == b.goal == c.goal == goal && a.role == b.role == c.role == role
    requires a.id != b.id && a.id != c.id && b.id != c.id
    ensures var d1 := CommitAdoption(EMPTY, a, "run-a").0;
      var d2 := CommitRetirement(d1, Retired("run-a", goal, role, a.session, a.binding, 1)).0;
      var d3 := CommitReplacement(d2, b, "run-b", "run-a", 1).0;
      var d4 := PurgeCommitted(d3, "run-a");
      var d5 := CommitAdoption(d4, c, "run-c").0;
      LiveIn(d5, "run-b", (goal, role)) && LiveIn(d5, "run-c", (goal, role))
  {
    var d1 := CommitAdoption(EMPTY, a, "run-a").0;
    assert d1.adopted == map[a.id := Run(a, "run-a")];
    assert RetiredIn(map[], (goal, role)) == {};
    var first := Retired("run-a", goal, role, a.session, a.binding, 1);
    var d2 := CommitRetirement(d1, first).0;
    assert d2.retired == map["run-a" := first] && d2.vacancies == map[(goal, role) := 1];
    assert RetiredIn(d2.retired, (goal, role)) == {"run-a"};
    var d3 := CommitReplacement(d2, b, "run-b", "run-a", 1).0;
    assert d3.replacements == map[b.id := Replacement(Run(b, "run-b"), "run-a", 1)];
    var d4 := PurgeCommitted(d3, "run-a");
    assert d4.adopted == map[];
    var d5 := CommitAdoption(d4, c, "run-c").0;
    assert d5.adopted[c.id] == Run(c, "run-c") && d5.replacements[b.id].run == Run(b, "run-b");
  }

  /** So does retiring a run that was never committed: it opens the role to a replacement beside the adopted run. */
  lemma UncommittedRetirementFreesRole(a: Proposal, b: Proposal, ghostBinding: Binding)
    requires (a.goal, a.role) == (b.goal, b.role)
    ensures var role := (a.goal, a.role);
      var d1 := Apply(EMPTY, Adopt(a, "run-a")).0;
      var d2 := Apply(d1, Retire(Retired("nobody", a.goal, a.role, a.session, ghostBinding, 1))).0;
      var d3 := Apply(d2, Replace(b, "run-b", "nobody", 1)).0;
      LiveIn(d3, "run-a", role) && LiveIn(d3, "run-b", role)
  {
    var role := (a.goal, a.role);
    var d1 := Apply(EMPTY, Adopt(a, "run-a")).0;
    assert d1.adopted == map[a.id := Run(a, "run-a")] && d1.retired == map[];
    var nobody := Retired("nobody", a.goal, a.role, a.session, ghostBinding, 1);
    assert RetiredIn(map[], role) == {};
    var d2 := Apply(d1, Retire(nobody)).0;
    assert d2.retired == map["nobody" := nobody] && d2.vacancies == map[role := 1];
    assert RetiredIn(d2.retired, role) == {"nobody"};
    var d3 := Apply(d2, Replace(b, "run-b", "nobody", 1)).0;
    assert d3.replacements == map[b.id := Replacement(Run(b, "run-b"), "nobody", 1)];
    assert d3.adopted[a.id] == Run(a, "run-a") && d3.replacements[b.id].run == Run(b, "run-b");
  }

  // ---- The event logs tell the tables. ----

  predicate Adopts(e: AdoptionEvent, r: Run) {
    && e.proposalId == r.proposal.id && e.session == r.proposal.session && e.agentRun == r.agentRun
    && e.goal == r.proposal.goal && e.role == r.proposal.role
  }

  /** Exactly one retained event for every committed run, and it says which run that is. */
  ghost predicate AdoptionsTold(adopted: map<string, Run>, events: seq<AdoptionEvent>) {
    && (forall e :: e in events ==> e.proposalId in adopted && Adopts(e, adopted[e.proposalId]))
    && (forall id :: id in adopted ==> exists e :: e in events && e.proposalId == id)
    && forall e, f :: e in events && f in events && e.agentRun == f.agentRun ==> e == f
  }

  predicate TellsRetired(e: RetirementEvent, r: Retired) {
    !e.replaced && e.agentRun == r.agentRun && e.goal == r.goal && e.role == r.role && e.predecessor == None
  }

  predicate TellsReplacement(e: RetirementEvent, b: Replacement) {
    && e.replaced && e.agentRun == b.run.agentRun && (e.goal, e.role) == RoleOf(b.run)
    && e.predecessor == Some(b.predecessor) && e.generation == b.generation
  }

  predicate SomeReplacement(replacements: map<string, Replacement>, e: RetirementEvent) {
    exists id :: id in replacements && TellsReplacement(e, replacements[id])
  }

  predicate SomeEvent(events: seq<RetirementEvent>, replaced: bool, agentRun: string) {
    exists e :: e in events && e.replaced == replaced && e.agentRun == agentRun
  }

  /** Exactly one retained event for every retired run and for every replacement. */
  ghost predicate RetirementsTold(retired: map<string, Retired>, replacements: map<string, Replacement>, events: seq<RetirementEvent>) {
    && (forall e :: e in events && !e.replaced ==> e.agentRun in retired && TellsRetired(e, retired[e.agentRun]))
    && (forall e :: e in events && e.replaced ==> SomeReplacement(replacements, e))
    && (forall x :: x in retired ==> SomeEvent(events, false, x))
    && (forall id :: id in replacements ==> SomeEvent(events, true, replacements[id].run.agentRun))
    && forall e, f :: e in events && f in events && e.agentRun == f.agentRun && e.replaced == f.replaced ==> e == f
  }

  ghost predicate Told(db: Db) {
    AdoptionsTold(db.adopted, db.adoptionEvents) && RetirementsTold(db.retired, db.replacements, db.retirementEvents)
  }

  lemma AdoptionTold(db: Db, p: Proposal, agentRun: string, e: AdoptionEvent)
    requires AdoptionsTold(db.adopted, db.adoptionEvents) && AdoptedKeysFree(db, p, agentRun) && Adopts(e, Run(p, agentRun))
    ensures AdoptionsTold(db.adopted[p.id := Run(p, agentRun)], db.adoptionEvents + [e])
  {
    var later := db.adoptionEvents + [e];
    assert forall f :: f in later <==> f in db.adoptionEvents || f == e;
    forall f | f in db.adoptionEvents ensures f.agentRun != agentRun {
      assert db.adopted[f.proposalId].agentRun == f.agentRun;
    }
  }

  lemma AdoptionPurged(db: Db, agentRun: string)
    requires Valid(db) && AdoptionsTold(db.adopted, db.adoptionEvents)
    ensures AdoptionsTold(PurgeCommitted(db, agentRun).adopted, PurgeCommitted(db, agentRun).adoptionEvents)
  {
    EventsFiltered(db.adoptionEvents, agentRun, db.adoptionSequence);
    var later := PurgeCommitted(db, agentRun);
    forall id | id in later.adopted ensures exists e :: e in later.adoptionEvents && e.proposalId == id {
      var e :| e in db.adoptionEvents && e.proposalId == id;
      assert e in later.adoptionEvents;
    }
  }

  lemma RetirementTold(db: Db, r: Retired, e: RetirementEvent)
    requires RetirementsTold(db.retired, db.replacements, db.retirementEvents) && r.agentRun !in db.retired && TellsRetired(e, r)
    ensures RetirementsTold(db.retired[r.agentRun := r], db.replacements, db.retirementEvents + [e])
  {
    EventAppended(db.retirementEvents, e);
  }

  /** What is told stays told when an event is appended. */
  lemma EventAppended(events: seq<RetirementEvent>, e: RetirementEvent)
    ensures forall f :: f in events + [e] <==> f in events || f == e
    ensures forall replaced, x :: SomeEvent(events + [e], replaced, x) <==> SomeEvent(events, replaced, x) || (e.replaced == replaced && e.agentRun == x)
  {
    assert forall f :: f in events + [e] <==> f in events || f == e;
    forall replaced, x | SomeEvent(events, replaced, x) || (e.replaced == replaced && e.agentRun == x) ensures SomeEvent(events + [e], replaced, x) {
      if SomeEvent(events, replaced, x) {
        var f :| f in events && f.replaced == replaced && f.agentRun == x;
        assert f in events + [e];
      } else {
        assert e in events + [e];
      }
    }
  }

  lemma ReplacementTold(db: Db, p: Proposal, b: Replacement, e: RetirementEvent)
    requires RetirementsTold(db.retired, db.replacements, db.retirementEvents) && b.run.proposal == p
    requires ReplacementKeysFree(db, p, b.run.agentRun) && TellsReplacement(e, b)
    ensures RetirementsTold(db.retired, db.replacements[p.id := b], db.retirementEvents + [e])
  {
    EventAppended(db.retirementEvents, e);
    var later := db.replacements[p.id := b];
    forall f | f in db.retirementEvents && f.replaced ensures SomeReplacement(later, f) && f.agentRun != b.run.agentRun {
      var id :| id in db.replacements && TellsReplacement(f, db.replacements[id]);
      assert later[id] == db.replacements[id];
    }
    assert later[p.id] == b && SomeReplacement(later, e);
  }

  lemma RetirementPurged(db: Db, agentRun: string, replacements: map<string, Replacement>)
    requires Valid(db) && RetirementsTold(db.retired, db.replacements, db.retirementEvents)
    requires replacements == map id | id in db.replacements && db.replacements[id].run.agentRun != agentRun :: db.replacements[id]
    ensures RetirementsTold(db.retired - {agentRun}, replacements, RetirementEventsWithout(db.retirementEvents, agentRun))
  {
    RetirementEventsFiltered(db.retirementEvents, agentRun, db.retirementSequence);
    hide *;
    TellingPurged(db.retired, db.replacements, replacements, db.retirementEvents, RetirementEventsWithout(db.retirementEvents, agentRun), agentRun);
  }

  lemma TellingPurged(retired: map<string, Retired>, replacements: map<string, Replacement>, kept: map<string, Replacement>,
                      events: seq<RetirementEvent>, later: seq<RetirementEvent>, agentRun: string)
    requires RetirementsTold(retired, replacements, events)
    requires kept == map id | id in replacements && replacements[id].run.agentRun != agentRun :: replacements[id]
    requires forall e :: e in later <==> e in events && e.agentRun != agentRun
    ensures RetirementsTold(retired - {agentRun}, kept, later)
  {
    hide SomeEvent, SomeReplacement, TellsRetired;
    forall x | x in retired - {agentRun} ensures SomeEvent(later, false, x) {
      EventKept(events, later, agentRun, false, x);
    }
    forall id | id in kept ensures SomeEvent(later, true, kept[id].run.agentRun) {
      EventKept(events, later, agentRun, true, kept[id].run.agentRun);
    }
    forall e | e in later && e.replaced ensures SomeReplacement(kept, e) {
      ReplacementKept(replacements, kept, agentRun, e);
    }
  }

  lemma EventKept(events: seq<RetirementEvent>, later: seq<RetirementEvent>, agentRun: string, replaced: bool, x: string)
    requires forall e :: e in later <==> e in events && e.agentRun != agentRun
    requires SomeEvent(events, replaced, x) && x != agentRun
    ensures SomeEvent(later, replaced, x)
  {
    var e :| e in events && e.replaced == replaced && e.agentRun == x;
    assert e in later;
  }

  lemma ReplacementKept(replacements: map<string, Replacement>, later: map<string, Replacement>, agentRun: string, e: RetirementEvent)
    requires later == map id | id in replacements && replacements[id].run.agentRun != agentRun :: replacements[id]
    requires SomeReplacement(replacements, e) && e.agentRun != agentRun
    ensures SomeReplacement(later, e)
  {
    var id :| id in replacements && TellsReplacement(e, replacements[id]);
    assert id in later && later[id] == replacements[id];
  }

  lemma OpTold(db: Db, op: Op)
    requires Valid(db) && Told(db)
    ensures Told(Apply(db, op).0)
  {
    hide Valid, AdoptionsTold, RetirementsTold, AdoptedKeysFree, ReplacementKeysFree, EventsWithout, RetirementEventsWithout, CurrentGeneration, LiveReplacement, HasSuccessor;
    match op
    case Adopt(p, agentRun) =>
      if AdoptedKeysFree(db, p, agentRun) {
        AdoptionTold(db, p, agentRun, AdoptionEvent(db.adoptionSequence + 1, p.id, p.session, agentRun, p.goal, p.role));
      }
    case Purge(agentRun) => AdoptionPurged(db, agentRun);
    case Takeover(_) =>
    case Retire(r) =>
      if CommitRetirement(db, r).1 == Done {
        var generation := CurrentGeneration(db, (r.goal, r.role)) + 1;
        RetirementTold(db, r, RetirementEvent(db.retirementSequence + 1, false, r.agentRun, r.goal, r.role, None, generation));
      }
    case Replace(p, agentRun, predecessor, generation) =>
      if CommitReplacement(db, p, agentRun, predecessor, generation).1 == Done {
        ReplacementTold(db, p, Replacement(Run(p, agentRun), predecessor, generation),
          RetirementEvent(db.retirementSequence + 1, true, agentRun, p.goal, p.role, Some(predecessor), generation));
      }
    case PurgeHistory(agentRun) =>
      if PurgeRetired(db, agentRun).1 == Done {
        AdoptionPurged(db, agentRun);
        RetirementPurged(db, agentRun, PurgeRetired(db, agentRun).0.replacements);
      }
  }

  /**
   * In every history the retained event logs tell the tables: one adoption event for each committed run, one retirement event
   * for each retired run and one replacement event for each replacement, with the rows' own fields, and no other events.
   */
  lemma {:induction false} HistoryTold(states: seq<Db>, ops: seq<Op>, i: nat)
    requires History(states, ops) && i < |states|
    ensures Told(states[i])
  {
    hide Apply, Told;
    if i > 0 {
      HistoryTold(states, ops, i - 1);
      HistoryValid(states, ops, i - 1);
      OpTold(states[i - 1], ops[i - 1]);
    } else {
      NothingTold();
    }
  }

  lemma NothingTold()
    ensures Told(EMPTY)
  {
  }
}

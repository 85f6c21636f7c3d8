/** Idempotent creates: load the key, act, store the key, commit, as interleaved steps of concurrent
    requests with crashes.  Reads see what has been committed when they run. */
module Idempotency {
  import opened Wrappers

  /** A stored key belongs to one user and one scope; the table has at most one row for it. */
  datatype Slot = Slot(user: string, scope: string, key: string)

  datatype Record = Record(hash: string, response: string)

  /** A committed effect, under the key and payload of the request that made it. */
  datatype Effect = Effect(slot: Slot, hash: string, response: string)

  /** Cash transfers and adjustments commit the effect together with the key.  Holding transactions
      commit the effect first and the key afterwards. */
  predicate CommitsTwice(slot: Slot) { slot.scope == "holding_transaction.create" }

  datatype Phase =
    | Ready
    | Executing
    | Acted(response: string)
    | Staged(response: string, overwrite: bool)
    | Halfway(response: string)
    | Tail(response: string, overwrite: bool)
    | Finished(response: string)
    | Replayed(response: string)
    | Refused
    | Aborted

  datatype Call = Call(slot: Slot, hash: string, phase: Phase)

  datatype System = System(store: map<Slot, Record>, effects: seq<Effect>, calls: map<int, Call>)

  datatype Event =
    | Begin(id: int, slot: Slot, hash: string)
    | Load(id: int)
    | Act(id: int, response: string)
    | Store(id: int)
    | Commit(id: int)
    | Crash(id: int)

  const START := System(map[], [], map[])

  function Move(s: System, id: int, phase: Phase): System
    requires id in s.calls
  {
    s.(calls := s.calls[id := s.calls[id].(phase := phase)])
  }

  function LoadStep(s: System, id: int): System
    requires id in s.calls
  {
    var c := s.calls[id];
    if !c.phase.Ready? then s
    else if c.slot !in s.store then Move(s, id, Executing)
    else if s.store[c.slot].hash != c.hash then Move(s, id, Refused)
    else Move(s, id, Replayed(s.store[c.slot].response))
  }

  function StoreStep(s: System, id: int): System
    requires id in s.calls
  {
    var c := s.calls[id];
    if c.phase.Acted? && !CommitsTwice(c.slot) then Move(s, id, Staged(c.phase.response, c.slot in s.store))
    else if c.phase.Halfway? then Move(s, id, Tail(c.phase.response, c.slot in s.store))
    else s
  }

  /** Committing an insert of a key that has a row by now violates the unique constraint; the
      transaction is rolled back. */
  function CommitStep(s: System, id: int): System
    requires id in s.calls
  {
    var c := s.calls[id];
    match c.phase
    case Acted(response) =>
      if !CommitsTwice(c.slot) then s
      else Move(s, id, Halfway(response)).(effects := s.effects + [Effect(c.slot, c.hash, response)])
    case Staged(response, overwrite) =>
      if !overwrite && c.slot in s.store then Move(s, id, Aborted)
      else Move(s, id, Finished(response)).(
        store := s.store[c.slot := Record(c.hash, response)],
        effects := s.effects + [Effect(c.slot, c.hash, response)])
    case Tail(response, overwrite) =>
      if !overwrite && c.slot in s.store then Move(s, id, Aborted)
      else Move(s, id, Finished(response)).(store := s.store[c.slot := Record(c.hash, response)])
    case _ => s
  }

  /** One step of one request; an event that is not enabled changes nothing. */
  function Step(s: System, e: Event): System {
    match e
    case Begin(id, slot, hash) => if id in s.calls then s else s.(calls := s.calls[id := Call(slot, hash, Ready)])
    case Load(id) => if id in s.calls then LoadStep(s, id) else s
    case Act(id, response) => if id in s.calls && s.calls[id].phase.Executing? then Move(s, id, Acted(response)) else s
    case Store(id) => if id in s.calls then StoreStep(s, id) else s
    case Commit(id) => if id in s.calls then CommitStep(s, id) else s
    case Crash(id) => if id in s.calls && Live(s.calls[id].phase) then Move(s, id, Aborted) else s
  }

  predicate Live(phase: Phase) {
    phase.Executing? || phase.Acted? || phase.Staged? || phase.Halfway? || phase.Tail?
  }

  function Run(events: seq<Event>): System {
    if events == [] then START else Step(Run(events[..|events| - 1]), events[|events| - 1])
  }

  function Count(effects: seq<Effect>, slot: Slot): nat {
    if effects == [] then 0
    else Count(effects[..|effects| - 1], slot) + (if effects[|effects| - 1].slot == slot then 1 else 0)
  }

  function LastEffect(effects: seq<Effect>, slot: Slot): Option<Record> {
    if effects == [] then None
    else
      var e := effects[|effects| - 1];
      if e.slot == slot then Some(Record(e.hash, e.response)) else LastEffect(effects[..|effects| - 1], slot)
  }

  lemma OneMoreEffect(effects: seq<Effect>, e: Effect)
    ensures forall slot :: Count(effects + [e], slot) == Count(effects, slot) + (if e.slot == slot then 1 else 0)
    ensures forall slot :: LastEffect(effects + [e], slot)
                        == if e.slot == slot then Some(Record(e.hash, e.response)) else LastEffect(effects, slot)
  {
    assert (effects + [e])[..|effects|] == effects;
  }

  /** Some effect of the slot was committed with this hash and response. */
  ghost predicate Committed(effects: seq<Effect>, slot: Slot, record: Record) {
    Effect(slot, record.hash, record.response) in effects
  }

  /** The only effect of a slot is the last one. */
  lemma {:induction false} OnlyEffect(effects: seq<Effect>, slot: Slot, record: Record)
    requires Committed(effects, slot, record)
    ensures Count(effects, slot) >= 1
    ensures Count(effects, slot) == 1 ==> LastEffect(effects, slot) == Some(record)
  {
    var n := |effects| - 1;
    if effects[n].slot != slot {
      OnlyEffect(effects[..n], slot, record);
    } else if Committed(effects[..n], slot, record) {
      OnlyEffect(effects[..n], slot, record);
    } else {
      assert effects[n] == Effect(slot, record.hash, record.response);
    }
  }

  // ---- what happens in a schedule ----

  ghost predicate CallIs(events: seq<Event>, i: int, id: int, slot: Slot)
    requires 0 <= i <= |events|
  {
    id in Run(events[..i]).calls && Run(events[..i]).calls[id].slot == slot
  }

  /** A request loads the key and finds no row. */
  ghost predicate FindsNothing(events: seq<Event>, i: int, id: int, slot: Slot) {
    && 0 <= i < |events| && events[i] == Load(id) && CallIs(events, i, id, slot)
    && Run(events[..i]).calls[id].phase.Ready? && slot !in Run(events[..i]).store
  }

  /** A request that has acted stores the key. */
  ghost predicate Stores(events: seq<Event>, i: int, id: int, slot: Slot) {
    && 0 <= i < |events| && events[i] == Store(id) && CallIs(events, i, id, slot)
    && Run(events[..i]).calls[id].phase.Acted?
  }

  /** A request commits its effect and the key. */
  ghost predicate Commits(events: seq<Event>, i: int, id: int, slot: Slot) {
    && 0 <= i < |events| && events[i] == Commit(id) && CallIs(events, i, id, slot)
    && Run(events[..i]).calls[id].phase.Staged? && Run(events[..i + 1]).effects != Run(events[..i]).effects
  }

  /** The request found nothing; since then another one has committed the key. */
  ghost predicate Overtaken(events: seq<Event>, slot: Slot, id: int, i: int, other: int, j: int) {
    other != id && i < j && FindsNothing(events, i, id, slot) && Commits(events, j, other, slot)
  }

  /** Having been overtaken, the request stores the key all the same, and commits. */
  ghost predicate Overlap(events: seq<Event>, slot: Slot, id: int, i: int, other: int, j: int, k: int, l: int) {
    && Overtaken(events, slot, id, i, other, j)
    && j < k < l && Stores(events, k, id, slot) && Commits(events, l, id, slot)
  }

  ghost predicate Overlaps(events: seq<Event>, slot: Slot) {
    exists id, i, other, j, k, l :: Overlap(events, slot, id, i, other, j, k, l)
  }

  // ---- the one-commit scopes, under any interleaving ----

  /** What a request's phase says about the schedule so far. */
  ghost predicate PhaseExplained(events: seq<Event>, id: int)
    requires id in Run(events).calls
  {
    var s, c := Run(events), Run(events).calls[id];
    match c.phase
    case Executing => Exposed(events, c.slot, id)
    case Acted(_) => Exposed(events, c.slot, id)
    case Staged(_, overwrite) => overwrite ==> StoredLate(events, c.slot, id)
    case Halfway(_) => false
    case Tail(_, _) => false
    case Finished(response) => Committed(s.effects, c.slot, Record(c.hash, response))
    case Replayed(response) => Committed(s.effects, c.slot, Record(c.hash, response))
    case _ => true
  }

  /** The request found nothing, and any row there is now was committed since. */
  ghost predicate Exposed(events: seq<Event>, slot: Slot, id: int) {
    && (exists i :: FindsNothing(events, i, id, slot))
    && (slot in Run(events).store ==> exists i, other, j :: Overtaken(events, slot, id, i, other, j))
  }

  ghost predicate StoredLate(events: seq<Event>, slot: Slot, id: int) {
    exists i, other, j, k :: Overtaken(events, slot, id, i, other, j) && j < k && Stores(events, k, id, slot)
  }

  /** The row of a slot is its last committed effect. */
  ghost predicate RowIsLast(s: System, slot: Slot) {
    && LastEffect(s.effects, slot) == (if slot in s.store then Some(s.store[slot]) else None)
    && (slot in s.store <==> Count(s.effects, slot) > 0)
    && (slot in s.store ==> Committed(s.effects, slot, s.store[slot]))
  }

  /** A second effect comes from an overlap. */
  ghost predicate RowExplained(events: seq<Event>, slot: Slot) {
    RowIsLast(Run(events), slot) && (Count(Run(events).effects, slot) > 1 ==> Overlaps(events, slot))
  }

  ghost predicate OneCommitInv(events: seq<Event>) {
    && (forall slot :: !CommitsTwice(slot) ==> RowExplained(events, slot))
    && (forall id :: id in Run(events).calls && !CommitsTwice(Run(events).calls[id].slot) ==>
          PhaseExplained(events, id))
  }

  // ---- what happened stays so ----

  lemma LongerRun(events: seq<Event>, e: Event)
    ensures (events + [e])[..|events|] == events && Run(events + [e]) == Step(Run(events), e)
    ensures forall i :: 0 <= i <= |events| ==> (events + [e])[..i] == events[..i]
  {
  }

  lemma OvertakenStays(events: seq<Event>, e: Event, slot: Slot, id: int, i: int, other: int, j: int)
    requires Overtaken(events, slot, id, i, other, j)
    ensures Overtaken(events + [e], slot, id, i, other, j)
  {
    LongerRun(events, e);
  }

  lemma OverlapsStays(events: seq<Event>, e: Event, slot: Slot)
    requires Overlaps(events, slot)
    ensures Overlaps(events + [e], slot)
  {
    var id, i, other, j, k, l :| Overlap(events, slot, id, i, other, j, k, l);
    OvertakenStays(events, e, slot, id, i, other, j);
    LongerRun(events, e);
    assert Overlap(events + [e], slot, id, i, other, j, k, l);
  }

  lemma StoresStays(events: seq<Event>, e: Event, k: int, id: int, slot: Slot)
    requires Stores(events, k, id, slot)
    ensures Stores(events + [e], k, id, slot)
  {
    LongerRun(events, e);
  }

  lemma StoredLateStays(events: seq<Event>, e: Event, slot: Slot, id: int)
    requires StoredLate(events, slot, id)
    ensures StoredLate(events + [e], slot, id)
  {
    var i, other, j, k :| Overtaken(events, slot, id, i, other, j) && j < k && Stores(events, k, id, slot);
    OvertakenStays(events, e, slot, id, i, other, j);
    StoresStays(events, e, k, id, slot);
  }

  /** A request stays exposed unless it commits itself: a row that appears is another request's. */
  lemma ExposedStays(events: seq<Event>, e: Event, slot: Slot, id: int)
    requires Exposed(events, slot, id) && !CommitsTwice(slot)
    requires slot in Run(events).store || slot !in Run(events + [e]).store
             || (e.Commit? && e.id != id && Commits(events + [e], |events|, e.id, slot))
    ensures Exposed(events + [e], slot, id)
  {
    LongerRun(events, e);
    var i :| FindsNothing(events, i, id, slot);
    assert FindsNothing(events + [e], i, id, slot);
    if slot in Run(events).store {
      var first, other, j :| Overtaken(events, slot, id, first, other, j);
      OvertakenStays(events, e, slot, id, first, other, j);
    } else if slot in Run(events + [e]).store {
      assert Overtaken(events + [e], slot, id, i, e.id, |events|);
    }
  }

  lemma EffectsGrow(s: System, e: Event)
    ensures s.effects <= Step(s, e).effects
    ensures !(e.Commit? && e.id in s.calls) ==> Step(s, e).store == s.store && Step(s, e).effects == s.effects
  {
  }

  lemma CommittedStays(s: System, e: Event, slot: Slot, record: Record)
    requires Committed(s.effects, slot, record)
    ensures Committed(Step(s, e).effects, slot, record)
  {
    EffectsGrow(s, e);
    var i :| 0 <= i < |s.effects| && s.effects[i] == Effect(slot, record.hash, record.response);
    assert Step(s, e).effects[i] == s.effects[i];
  }

  // ---- one step ----

  /** A one-commit request that commits its effect stores its key with it. */
  lemma CommitWrites(s: System, id: int)
    requires id in s.calls && s.calls[id].phase.Staged?
    ensures var r, c := CommitStep(s, id), s.calls[id];
      if !c.phase.overwrite && c.slot in s.store then r.store == s.store && r.effects == s.effects
      else
        && r.store == s.store[c.slot := Record(c.hash, c.phase.response)]
        && r.effects == s.effects + [Effect(c.slot, c.hash, c.phase.response)]
        && r.calls == s.calls[id := c.(phase := Finished(c.phase.response))]
  {
  }

  /** A step that is not a commit of the slot leaves its row and its effects alone. */
  predicate Untouched(s: System, r: System, slot: Slot) {
    && (slot in r.store <==> slot in s.store) && (slot in s.store ==> r.store[slot] == s.store[slot])
    && Count(r.effects, slot) == Count(s.effects, slot) && LastEffect(r.effects, slot) == LastEffect(s.effects, slot)
  }

  lemma CommitTouches(s: System, id: int, slot: Slot)
    requires id in s.calls && !CommitsTwice(slot)
    requires s.calls[id].slot == slot ==> !s.calls[id].phase.Tail?
    ensures var r, c := CommitStep(s, id), s.calls[id];
      Untouched(s, r, slot) || (c.slot == slot && c.phase.Staged? && r.effects != s.effects)
  {
    var r, c := CommitStep(s, id), s.calls[id];
    match c.phase
    case Acted(response) => OneMoreEffect(s.effects, Effect(c.slot, c.hash, response));
    case Staged(response, _) => OneMoreEffect(s.effects, Effect(c.slot, c.hash, response));
    case _ =>
  }

  /** A request of a one-commit scope is never between two commits. */
  ghost predicate NoTail(s: System, slot: Slot) {
    forall id :: id in s.calls && s.calls[id].slot == slot ==> !s.calls[id].phase.Halfway? && !s.calls[id].phase.Tail?
  }

  lemma OneCommitHasNoTail(events: seq<Event>, slot: Slot)
    requires OneCommitInv(events) && !CommitsTwice(slot)
    ensures NoTail(Run(events), slot)
  {
    forall id | id in Run(events).calls && Run(events).calls[id].slot == slot
      ensures !Run(events).calls[id].phase.Halfway? && !Run(events).calls[id].phase.Tail?
    {
      assert PhaseExplained(events, id);
    }
  }

  lemma TouchedByCommit(events: seq<Event>, e: Event, slot: Slot)
    requires NoTail(Run(events), slot) && !CommitsTwice(slot)
    ensures Untouched(Run(events), Step(Run(events), e), slot)
         || (e.Commit? && Commits(events + [e], |events|, e.id, slot))
  {
    var s := Run(events);
    EffectsGrow(s, e);
    if e.Commit? && e.id in s.calls {
      CommitTouches(s, e.id, slot);
      if !Untouched(s, CommitStep(s, e.id), slot) { CommitsHere(events, e.id, slot); }
    }
  }

  lemma CommitsHere(events: seq<Event>, id: int, slot: Slot)
    requires id in Run(events).calls && Run(events).calls[id].slot == slot && Run(events).calls[id].phase.Staged?
    requires CommitStep(Run(events), id).effects != Run(events).effects
    ensures Commits(events + [Commit(id)], |events|, id, slot)
  {
    LongerRun(events, Commit(id));
    assert (events + [Commit(id)])[..|events| + 1] == events + [Commit(id)];
  }

  lemma OverlapFound(events: seq<Event>, e: Event, slot: Slot)
    requires StoredLate(events, slot, e.id) && Commits(events + [e], |events|, e.id, slot)
    ensures Overlaps(events + [e], slot)
  {
    var i, other, j, k :| Overtaken(events, slot, e.id, i, other, j) && j < k && Stores(events, k, e.id, slot);
    OvertakenStays(events, e, slot, e.id, i, other, j);
    StoresStays(events, e, k, e.id, slot);
    assert Overlap(events + [e], slot, e.id, i, other, j, k, |events|);
  }

  lemma CommitKeepsRow(s: System, id: int)
    requires id in s.calls && s.calls[id].phase.Staged? && CommitStep(s, id).effects != s.effects
    requires RowIsLast(s, s.calls[id].slot)
    ensures RowIsLast(CommitStep(s, id), s.calls[id].slot)
    ensures !s.calls[id].phase.overwrite ==> Count(CommitStep(s, id).effects, s.calls[id].slot) == 1
  {
    var c, r := s.calls[id], CommitStep(s, id);
    CommitWrites(s, id);
    OneMoreEffect(s.effects, Effect(c.slot, c.hash, c.phase.response));
    assert r.effects[|s.effects|] == Effect(c.slot, c.hash, c.phase.response);
  }

  lemma CommitExplains(events: seq<Event>, e: Event, slot: Slot)
    requires RowExplained(events, slot) && e.Commit? && Commits(events + [e], |events|, e.id, slot)
    requires Run(events).calls[e.id].phase.overwrite ==> Overlaps(events + [e], slot)
    ensures RowExplained(events + [e], slot)
  {
    LongerRun(events, e);
    assert (events + [e])[..|events| + 1] == events + [e];
    CommitKeepsRow(Run(events), e.id);
  }

  lemma StepExplainsRows(events: seq<Event>, e: Event, slot: Slot)
    requires OneCommitInv(events) && !CommitsTwice(slot)
    ensures RowExplained(events + [e], slot)
  {
    var s := Run(events);
    LongerRun(events, e);
    OneCommitHasNoTail(events, slot);
    TouchedByCommit(events, e, slot);
    assert RowExplained(events, slot);
    if !Untouched(s, Step(s, e), slot) {
      assert PhaseExplained(events, e.id);
      if s.calls[e.id].phase.overwrite { OverlapFound(events, e, slot); }
      CommitExplains(events, e, slot);
    } else {
      if slot in s.store { CommittedStays(s, e, slot, s.store[slot]); }
      if Overlaps(events, slot) { OverlapsStays(events, e, slot); }
    }
  }

  /** A request that does not take part in the step. */
  lemma BystanderExplained(events: seq<Event>, e: Event, id: int)
    requires OneCommitInv(events) && id in Run(events).calls && !CommitsTwice(Run(events).calls[id].slot)
    requires id in Run(events + [e]).calls && Run(events + [e]).calls[id] == Run(events).calls[id]
    requires e.id != id
    ensures PhaseExplained(events + [e], id)
  {
    var s, c := Run(events), Run(events).calls[id];
    LongerRun(events, e);
    assert PhaseExplained(events, id);
    match c.phase
    case Executing =>
      OneCommitHasNoTail(events, c.slot);
      TouchedByCommit(events, e, c.slot);
      ExposedStays(events, e, c.slot, id);
    case Acted(_) =>
      OneCommitHasNoTail(events, c.slot);
      TouchedByCommit(events, e, c.slot);
      ExposedStays(events, e, c.slot, id);
    case Staged(_, overwrite) => if overwrite { StoredLateStays(events, e, c.slot, id); }
    case Finished(response) => CommittedStays(s, e, c.slot, Record(c.hash, response));
    case Replayed(response) => CommittedStays(s, e, c.slot, Record(c.hash, response));
    case _ =>
  }

  /** The request that takes the step. */
  lemma ActorExplained(events: seq<Event>, e: Event)
    requires OneCommitInv(events) && e.id in Run(events).calls && !CommitsTwice(Run(events).calls[e.id].slot)
    ensures e.id in Run(events + [e]).calls && PhaseExplained(events + [e], e.id)
  {
    var s, c, n := Run(events), Run(events).calls[e.id], |events|;
    LongerRun(events, e);
    assert PhaseExplained(events, e.id) && RowExplained(events, c.slot);
    match e
    case Load(id) => if c.phase.Ready? { LoadExplained(events, id); } else { IdleExplained(events, e); }
    case Act(id, _) =>
      if c.phase.Executing? { ExposedStays(events, e, c.slot, id); } else { IdleExplained(events, e); }
    case Store(id) => if c.phase.Acted? { StoreExplained(events, id); } else { IdleExplained(events, e); }
    case Commit(id) => if c.phase.Staged? { CommitWrites(s, id); } else { IdleExplained(events, e); }
    case Crash(id) => if !Live(c.phase) { IdleExplained(events, e); }
    case Begin(id, _, _) => IdleExplained(events, e);
  }

  /** A step that changes nothing. */
  lemma IdleExplained(events: seq<Event>, e: Event)
    requires OneCommitInv(events) && e.id in Run(events).calls && !CommitsTwice(Run(events).calls[e.id].slot)
    requires Step(Run(events), e) == Run(events)
    ensures e.id in Run(events + [e]).calls && PhaseExplained(events + [e], e.id)
  {
    var c := Run(events).calls[e.id];
    LongerRun(events, e);
    assert PhaseExplained(events, e.id);
    match c.phase
    case Executing => ExposedStays(events, e, c.slot, e.id);
    case Acted(_) => ExposedStays(events, e, c.slot, e.id);
    case Staged(_, overwrite) => if overwrite { StoredLateStays(events, e, c.slot, e.id); }
    case _ =>
  }

  lemma LoadExplained(events: seq<Event>, id: int)
    requires OneCommitInv(events) && id in Run(events).calls && Run(events).calls[id].phase.Ready?
    requires !CommitsTwice(Run(events).calls[id].slot)
    ensures id in Run(events + [Load(id)]).calls && PhaseExplained(events + [Load(id)], id)
  {
    var s, c := Run(events), Run(events).calls[id];
    LongerRun(events, Load(id));
    assert RowExplained(events, c.slot);
    if c.slot !in s.store { assert FindsNothing(events + [Load(id)], |events|, id, c.slot); }
  }

  lemma StoreExplained(events: seq<Event>, id: int)
    requires OneCommitInv(events) && id in Run(events).calls && Run(events).calls[id].phase.Acted?
    requires !CommitsTwice(Run(events).calls[id].slot)
    ensures id in Run(events + [Store(id)]).calls && PhaseExplained(events + [Store(id)], id)
  {
    var s, c, e := Run(events), Run(events).calls[id], Store(id);
    LongerRun(events, e);
    assert PhaseExplained(events, id);
    if c.slot in s.store {
      var i, other, j :| Overtaken(events, c.slot, id, i, other, j);
      OvertakenStays(events, e, c.slot, id, i, other, j);
      assert Stores(events + [e], |events|, id, c.slot);
    }
  }

  lemma StepKeepsOneCommitInv(events: seq<Event>, e: Event)
    requires OneCommitInv(events)
    ensures OneCommitInv(events + [e])
  {
    var r := Run(events + [e]);
    forall slot | !CommitsTwice(slot) ensures RowExplained(events + [e], slot) { StepExplainsRows(events, e, slot); }
    forall id | id in r.calls && !CommitsTwice(r.calls[id].slot) ensures PhaseExplained(events + [e], id) {
      StepExplainsPhase(events, e, id);
    }
  }

  /** Only the request that takes the step changes phase. */
  lemma OneRequestMoves(s: System, e: Event, id: int)
    requires id in Step(s, e).calls
    ensures id !in s.calls ==> Step(s, e).calls[id].phase.Ready?
    ensures id in s.calls ==> Step(s, e).calls[id].(phase := s.calls[id].phase) == s.calls[id]
    ensures id in s.calls && id != e.id ==> Step(s, e).calls[id] == s.calls[id]
  {
  }

  lemma StepExplainsPhase(events: seq<Event>, e: Event, id: int)
    requires OneCommitInv(events) && id in Run(events + [e]).calls
    requires !CommitsTwice(Run(events + [e]).calls[id].slot)
    ensures PhaseExplained(events + [e], id)
  {
    var s := Run(events);
    LongerRun(events, e);
    OneRequestMoves(s, e, id);
    if id !in s.calls {
    } else if id == e.id {
      ActorExplained(events, e);
    } else {
      BystanderExplained(events, e, id);
    }
  }

  lemma {:induction false} RunKeepsOneCommitInv(events: seq<Event>)
    ensures OneCommitInv(events)
  {
    if events == [] {
    } else {
      var n := |events| - 1;
      RunKeepsOneCommitInv(events[..n]);
      StepKeepsOneCommitInv(events[..n], events[n]);
      assert events == events[..n] + [events[n]];
    }
  }

  // ---- at most once, exactly when ----

  lemma {:induction false} CountGrows(events: seq<Event>, slot: Slot, m: nat)
    requires m <= |events|
    ensures Count(Run(events[..m]).effects, slot) <= Count(Run(events).effects, slot)
  {
    var n := |events| - 1;
    if m == |events| {
      assert events[..m] == events;
    } else {
      var s, r := Run(events[..n]), Run(events);
      CountGrows(events[..n], slot, m);
      assert events[..n][..m] == events[..m];
      EffectsGrow(s, events[n]);
      if r.effects != s.effects { OneMoreEffect(s.effects, r.effects[|s.effects|]); }
    }
  }

  lemma CommitCounts(events: seq<Event>, i: int, id: int, slot: Slot)
    requires Commits(events, i, id, slot)
    ensures Count(Run(events[..i + 1]).effects, slot) == Count(Run(events[..i]).effects, slot) + 1
  {
    var s := Run(events[..i]);
    assert events[..i + 1] == events[..i] + [events[i]];
    LongerRun(events[..i], events[i]);
    CommitWrites(s, id);
    OneMoreEffect(s.effects, Effect(slot, s.calls[id].hash, s.calls[id].phase.response));
  }

  /** The event adds an effect of the slot. */
  ghost predicate AddsOne(events: seq<Event>, slot: Slot, i: int) {
    0 <= i < |events|
    && Count(Run(events[..i + 1]).effects, slot) == Count(Run(events[..i]).effects, slot) + 1
  }

  lemma LeavesOne(events: seq<Event>, slot: Slot, i: int)
    requires AddsOne(events, slot, i)
    ensures Count(Run(events).effects, slot) >= 1
  {
    CountGrows(events, slot, i + 1);
  }

  lemma EarlierOne(events: seq<Event>, slot: Slot, i: int, n: nat)
    requires AddsOne(events, slot, i) && i < n <= |events|
    ensures Count(Run(events[..n]).effects, slot) >= 1
  {
    assert events[..n][..i] == events[..i] && events[..n][..i + 1] == events[..i + 1];
    LeavesOne(events[..n], slot, i);
  }

  lemma SecondOne(events: seq<Event>, slot: Slot, l: int)
    requires AddsOne(events, slot, l) && Count(Run(events[..l]).effects, slot) >= 1
    ensures Count(Run(events).effects, slot) >= 2
  {
    CountGrows(events, slot, l + 1);
  }

  lemma OverlapCountsTwice(events: seq<Event>, slot: Slot)
    requires Overlaps(events, slot)
    ensures Count(Run(events).effects, slot) >= 2
  {
    var id, i, other, j, k, l :| Overlap(events, slot, id, i, other, j, k, l);
    CommitCounts(events, j, other, slot);
    CommitCounts(events, l, id, slot);
    EarlierOne(events, slot, j, l);
    SecondOne(events, slot, l);
  }

  predicate Succeeded(phase: Phase) { phase.Finished? || phase.Replayed? }

  /** For a one-commit scope, after any interleaving of requests and crashes, every success and every replay
      has the payload hash and the response of a committed effect, and the row those of the last one.  A
      key has at most one effect exactly when the schedule has no overlap: a load that finds nothing, then
      another request's commit of the key, then the first request's store and commit. */
  lemma AtMostOnceIff(events: seq<Event>, slot: Slot)
    requires !CommitsTwice(slot)
    ensures var s := Run(events);
            && (Count(s.effects, slot) <= 1 <==> !Overlaps(events, slot))
            && LastEffect(s.effects, slot) == (if slot in s.store then Some(s.store[slot]) else None)
            && forall id :: id in s.calls && s.calls[id].slot == slot && Succeeded(s.calls[id].phase) ==>
                 Committed(s.effects, slot, Record(s.calls[id].hash, s.calls[id].phase.response))
  {
    RunKeepsOneCommitInv(events);
    var s := Run(events);
    assert RowExplained(events, slot);
    if Overlaps(events, slot) { OverlapCountsTwice(events, slot); }
    forall id | id in s.calls && s.calls[id].slot == slot && Succeeded(s.calls[id].phase)
      ensures Committed(s.effects, slot, Record(s.calls[id].hash, s.calls[id].phase.response))
    {
      assert PhaseExplained(events, id);
    }
  }

  /** Without an overlap all requests on a key that succeed had one payload and got one response, those of
      its only effect. */
  lemma AllSuccessesAgree(events: seq<Event>, slot: Slot, id: int)
    requires !CommitsTwice(slot) && !Overlaps(events, slot)
    requires id in Run(events).calls && Run(events).calls[id].slot == slot && Succeeded(Run(events).calls[id].phase)
    ensures var s, c := Run(events), Run(events).calls[id];
            && Count(s.effects, slot) == 1 && slot in s.store
            && s.store[slot] == Record(c.hash, c.phase.response)
            && LastEffect(s.effects, slot) == Some(s.store[slot])
  {
    AtMostOnceIff(events, slot);
    var c := Run(events).calls[id];
    OnlyEffect(Run(events).effects, slot, Record(c.hash, c.phase.response));
  }

  // ---- the scope that commits twice, under any interleaving ----

  /** A request that has acted commits its effect, and not yet the key. */
  ghost predicate FirstCommits(events: seq<Event>, i: int, id: int, slot: Slot) {
    && 0 <= i < |events| && events[i] == Commit(id) && CallIs(events, i, id, slot)
    && Run(events[..i]).calls[id].phase.Acted?
  }

  /** A request finds nothing and later commits its effect; another one has committed its own before that. */
  ghost predicate Repeat(events: seq<Event>, slot: Slot, id: int, i: int, other: int, j: int, l: int) {
    && other != id && i < l && j < l && FindsNothing(events, i, id, slot)
    && FirstCommits(events, j, other, slot) && FirstCommits(events, l, id, slot)
  }

  ghost predicate Repeats(events: seq<Event>, slot: Slot) {
    exists id, i, other, j, l :: Repeat(events, slot, id, i, other, j, l)
  }

  predicate PastFirstCommit(phase: Phase) { phase.Halfway? || phase.Tail? || phase.Finished? || phase.Aborted? }

  /** What a phase says about the schedule and the effects so far. */
  ghost predicate PhaseTraced(events: seq<Event>, id: int)
    requires id in Run(events).calls
  {
    var s, c := Run(events), Run(events).calls[id];
    match c.phase
    case Executing => exists i :: FindsNothing(events, i, id, c.slot)
    case Acted(_) => exists i :: FindsNothing(events, i, id, c.slot)
    case Staged(_, _) => false
    case Halfway(response) => Committed(s.effects, c.slot, Record(c.hash, response))
    case Tail(response, _) => Committed(s.effects, c.slot, Record(c.hash, response))
    case Finished(response) => Committed(s.effects, c.slot, Record(c.hash, response))
    case Replayed(response) => Committed(s.effects, c.slot, Record(c.hash, response))
    case _ => true
  }

  ghost predicate EffectsTraced(events: seq<Event>, slot: Slot) {
    var s := Run(events);
    && (slot in s.store ==> Committed(s.effects, slot, s.store[slot]))
    && (Count(s.effects, slot) > 0 ==> exists j, other :: FirstCommits(events, j, other, slot))
    && (Count(s.effects, slot) > 1 ==> Repeats(events, slot))
  }

  /** A request commits its effect once. */
  ghost predicate FirstCommitsPast(events: seq<Event>, slot: Slot) {
    forall j, id :: FirstCommits(events, j, id, slot) ==>
      id in Run(events).calls && Run(events).calls[id].slot == slot && PastFirstCommit(Run(events).calls[id].phase)
  }

  ghost predicate TwoCommitInv(events: seq<Event>, slot: Slot) {
    && EffectsTraced(events, slot) && FirstCommitsPast(events, slot)
    && (forall id :: id in Run(events).calls && Run(events).calls[id].slot == slot ==> PhaseTraced(events, id))
  }

  lemma FirstCommitsStays(events: seq<Event>, e: Event, j: int, id: int, slot: Slot)
    requires FirstCommits(events, j, id, slot)
    ensures FirstCommits(events + [e], j, id, slot)
  {
    LongerRun(events, e);
  }

  lemma FindsNothingStays(events: seq<Event>, e: Event, i: int, id: int, slot: Slot)
    requires FindsNothing(events, i, id, slot)
    ensures FindsNothing(events + [e], i, id, slot)
  {
    LongerRun(events, e);
  }

  lemma RepeatsStays(events: seq<Event>, e: Event, slot: Slot)
    requires Repeats(events, slot)
    ensures Repeats(events + [e], slot)
  {
    var id, i, other, j, l :| Repeat(events, slot, id, i, other, j, l);
    FindsNothingStays(events, e, i, id, slot);
    FirstCommitsStays(events, e, j, other, slot);
    FirstCommitsStays(events, e, l, id, slot);
    assert Repeat(events + [e], slot, id, i, other, j, l);
  }

  /** What a step may do to a slot of this scope. */
  lemma SlotStep(s: System, e: Event, slot: Slot)
    requires CommitsTwice(slot)
    requires e.id in s.calls && s.calls[e.id].slot == slot ==> !s.calls[e.id].phase.Staged?
    ensures var r := Step(s, e);
      if e.Commit? && e.id in s.calls && s.calls[e.id].slot == slot && s.calls[e.id].phase.Acted? then
        && Count(r.effects, slot) == Count(s.effects, slot) + 1
        && (slot in r.store <==> slot in s.store) && (slot in s.store ==> r.store[slot] == s.store[slot])
      else
        && Count(r.effects, slot) == Count(s.effects, slot)
        && (slot !in r.store || (slot in s.store && r.store[slot] == s.store[slot])
            || (e.id in s.calls && s.calls[e.id].slot == slot && s.calls[e.id].phase.Tail?
                && r.store[slot] == Record(s.calls[e.id].hash, s.calls[e.id].phase.response)))
  {
    EffectsGrow(s, e);
    if e.Commit? && e.id in s.calls {
      var r := Step(s, e);
      if r.effects != s.effects { OneMoreEffect(s.effects, r.effects[|s.effects|]); }
    }
  }

  /** The first commit of a request adds an effect; a second one of the slot is a repeat. */
  lemma FirstCommitTraced(events: seq<Event>, id: int, slot: Slot)
    requires TwoCommitInv(events, slot) && CommitsTwice(slot)
    requires id in Run(events).calls && Run(events).calls[id].slot == slot && Run(events).calls[id].phase.Acted?
    ensures FirstCommits(events + [Commit(id)], |events|, id, slot)
    ensures Count(Run(events).effects, slot) > 0 ==> Repeats(events + [Commit(id)], slot)
  {
    var e := Commit(id);
    LongerRun(events, e);
    assert PhaseTraced(events, id);
    if Count(Run(events).effects, slot) > 0 {
      var i :| FindsNothing(events, i, id, slot);
      var j, other :| FirstCommits(events, j, other, slot);
      FindsNothingStays(events, e, i, id, slot);
      FirstCommitsStays(events, e, j, other, slot);
      assert Repeat(events + [e], slot, id, i, other, j, |events|);
    }
  }

  lemma StepTracesEffects(events: seq<Event>, e: Event, slot: Slot)
    requires TwoCommitInv(events, slot) && CommitsTwice(slot)
    ensures EffectsTraced(events + [e], slot)
  {
    var s, r := Run(events), Run(events + [e]);
    LongerRun(events, e);
    if e.id in s.calls && s.calls[e.id].slot == slot { assert PhaseTraced(events, e.id); }
    SlotStep(s, e, slot);
    RowTraced(events, e, slot);
    if e.Commit? && e.id in s.calls && s.calls[e.id].slot == slot && s.calls[e.id].phase.Acted? {
      FirstCommitTraced(events, e.id, slot);
    } else if Count(s.effects, slot) > 0 {
      var j, other :| FirstCommits(events, j, other, slot);
      FirstCommitsStays(events, e, j, other, slot);
      if Count(s.effects, slot) > 1 { RepeatsStays(events, e, slot); }
    }
  }

  lemma RowTraced(events: seq<Event>, e: Event, slot: Slot)
    requires TwoCommitInv(events, slot) && CommitsTwice(slot)
    ensures var r := Run(events + [e]);
            slot in r.store ==> Committed(r.effects, slot, r.store[slot])
  {
    var s, r := Run(events), Run(events + [e]);
    LongerRun(events, e);
    if e.id in s.calls && s.calls[e.id].slot == slot { assert PhaseTraced(events, e.id); }
    SlotStep(s, e, slot);
    if slot in r.store {
      if slot in s.store && r.store[slot] == s.store[slot] {
        CommittedStays(s, e, slot, s.store[slot]);
      } else {
        CommittedStays(s, e, slot, Record(s.calls[e.id].hash, s.calls[e.id].phase.response));
      }
    }
  }

  lemma PastStaysPast(s: System, e: Event, id: int)
    requires id in s.calls && PastFirstCommit(s.calls[id].phase)
    ensures id in Step(s, e).calls && Step(s, e).calls[id].slot == s.calls[id].slot
    ensures PastFirstCommit(Step(s, e).calls[id].phase)
  {
  }

  lemma StepKeepsFirstCommitsPast(events: seq<Event>, e: Event, slot: Slot)
    requires FirstCommitsPast(events, slot) && CommitsTwice(slot)
    ensures FirstCommitsPast(events + [e], slot)
  {
    var s, r := Run(events), Run(events + [e]);
    LongerRun(events, e);
    forall j, id | FirstCommits(events + [e], j, id, slot)
      ensures id in r.calls && r.calls[id].slot == slot && PastFirstCommit(r.calls[id].phase)
    {
      if j < |events| {
        assert FirstCommits(events, j, id, slot);
        PastStaysPast(s, e, id);
      }
    }
  }

  lemma TracedStays(events: seq<Event>, e: Event, id: int)
    requires id in Run(events).calls && PhaseTraced(events, id)
    requires id in Run(events + [e]).calls && Run(events + [e]).calls[id] == Run(events).calls[id]
    ensures PhaseTraced(events + [e], id)
  {
    var s, c := Run(events), Run(events).calls[id];
    LongerRun(events, e);
    match c.phase
    case Executing =>
      var i :| FindsNothing(events, i, id, c.slot);
      FindsNothingStays(events, e, i, id, c.slot);
    case Acted(_) =>
      var i :| FindsNothing(events, i, id, c.slot);
      FindsNothingStays(events, e, i, id, c.slot);
    case Halfway(response) => CommittedStays(s, e, c.slot, Record(c.hash, response));
    case Tail(response, _) => CommittedStays(s, e, c.slot, Record(c.hash, response));
    case Finished(response) => CommittedStays(s, e, c.slot, Record(c.hash, response));
    case Replayed(response) => CommittedStays(s, e, c.slot, Record(c.hash, response));
    case _ =>
  }

  lemma ActorTraced(events: seq<Event>, e: Event, slot: Slot)
    requires TwoCommitInv(events, slot) && CommitsTwice(slot)
    requires e.id in Run(events).calls && Run(events).calls[e.id].slot == slot
    ensures e.id in Run(events + [e]).calls && PhaseTraced(events + [e], e.id)
  {
    var s, c, r := Run(events), Run(events).calls[e.id], Run(events + [e]);
    LongerRun(events, e);
    assert PhaseTraced(events, e.id);
    if r.calls[e.id] == c {
      TracedStays(events, e, e.id);
    } else {
      match e
      case Load(id) =>
        if slot in s.store { CommittedStays(s, e, slot, s.store[slot]); }
        else { assert FindsNothing(events + [e], |events|, id, slot); }
      case Act(id, _) =>
        var i :| FindsNothing(events, i, id, slot);
        FindsNothingStays(events, e, i, id, slot);
      case Store(id) => CommittedStays(s, e, slot, Record(c.hash, c.phase.response));
      case Commit(id) =>
        if c.phase.Acted? { assert r.effects[|s.effects|] == Effect(slot, c.hash, c.phase.response); }
        else { CommittedStays(s, e, slot, Record(c.hash, c.phase.response)); }
      case Crash(_) =>
    }
  }

  lemma StepTracesPhase(events: seq<Event>, e: Event, slot: Slot, id: int)
    requires TwoCommitInv(events, slot) && CommitsTwice(slot)
    requires id in Run(events + [e]).calls && Run(events + [e]).calls[id].slot == slot
    ensures PhaseTraced(events + [e], id)
  {
    var s := Run(events);
    LongerRun(events, e);
    OneRequestMoves(s, e, id);
    if id !in s.calls {
    } else if id == e.id {
      ActorTraced(events, e, slot);
    } else {
      TracedStays(events, e, id);
    }
  }

  lemma {:induction false} RunKeepsTwoCommitInv(events: seq<Event>, slot: Slot)
    requires CommitsTwice(slot)
    ensures TwoCommitInv(events, slot)
  {
    if events == [] {
    } else {
      var n := |events| - 1;
      var prefix, e := events[..n], events[n];
      assert events == prefix + [e];
      RunKeepsTwoCommitInv(prefix, slot);
      StepTracesEffects(prefix, e, slot);
      StepKeepsFirstCommitsPast(prefix, e, slot);
      forall id | id in Run(events).calls && Run(events).calls[id].slot == slot ensures PhaseTraced(events, id) {
        StepTracesPhase(prefix, e, slot, id);
      }
    }
  }

  lemma FirstCommitCounts(events: seq<Event>, i: int, id: int, slot: Slot)
    requires FirstCommits(events, i, id, slot) && CommitsTwice(slot)
    ensures AddsOne(events, slot, i)
  {
    var s := Run(events[..i]);
    assert events[..i + 1] == events[..i] + [events[i]];
    LongerRun(events[..i], events[i]);
    SlotStep(s, events[i], slot);
  }

  lemma RepeatCountsTwice(events: seq<Event>, slot: Slot)
    requires Repeats(events, slot) && CommitsTwice(slot)
    ensures Count(Run(events).effects, slot) >= 2
  {
    var id, i, other, j, l :| Repeat(events, slot, id, i, other, j, l);
    FirstCommitCounts(events, j, other, slot);
    FirstCommitCounts(events, l, id, slot);
    EarlierOne(events, slot, j, l);
    SecondOne(events, slot, l);
  }

  /** For the scope that commits twice, after any interleaving of requests and crashes: a key has at most one effect
      exactly when no request that found nothing commits its effect after another one has; and every success and
      every replay has the payload hash and the response of a committed effect. */
  lemma AtMostOnceOfTwoCommits(events: seq<Event>, slot: Slot)
    requires CommitsTwice(slot)
    ensures var s := Run(events);
            && (Count(s.effects, slot) <= 1 <==> !Repeats(events, slot))
            && forall id :: id in s.calls && s.calls[id].slot == slot && Succeeded(s.calls[id].phase) ==>
                 Committed(s.effects, slot, Record(s.calls[id].hash, s.calls[id].phase.response))
  {
    RunKeepsTwoCommitInv(events, slot);
    var s := Run(events);
    if Repeats(events, slot) { RepeatCountsTwice(events, slot); }
    forall id | id in s.calls && s.calls[id].slot == slot && Succeeded(s.calls[id].phase)
      ensures Committed(s.effects, slot, Record(s.calls[id].hash, s.calls[id].phase.response))
    {
      assert PhaseTraced(events, id);
    }
  }

  // ---- two ways in which a key takes effect twice ----

  function Exec(s: System, events: seq<Event>): System
    decreases events
  {
    if events == [] then s else Exec(Step(s, events[0]), events[1..])
  }

  lemma {:induction false} ExecIsRun(before: seq<Event>, events: seq<Event>)
    ensures Exec(Run(before), events) == Run(before + events)
    decreases events
  {
    if events == [] {
      assert before + events == before;
    } else {
      assert (before + [events[0]])[..|before|] == before;
      assert before + events == before + [events[0]] + events[1..];
      ExecIsRun(before + [events[0]], events[1..]);
    }
  }

  /** A request that finds no row runs to its end undisturbed. */
  lemma UndisturbedRun(s: System, id: int, slot: Slot, hash: string, response: string)
    requires !CommitsTwice(slot) && id in s.calls && s.calls[id] == Call(slot, hash, Executing)
    ensures var r := Exec(s, [Act(id, response), Store(id), Commit(id)]);
            && r.store == s.store[slot := Record(hash, response)]
            && r.effects == s.effects + [Effect(slot, hash, response)]
            && r.calls == s.calls[id := Call(slot, hash, Finished(response))]
  {
    var acted := Step(s, Act(id, response));
    var staged := Step(acted, Store(id));
    var done := Step(staged, Commit(id));
    var events := [Act(id, response), Store(id), Commit(id)];
    assert events[1..] == [Store(id), Commit(id)] && events[1..][1..] == [Commit(id)] && events[1..][1..][1..] == [];
    assert Exec(done, []) == done;
    assert Exec(staged, [Commit(id)]) == done;
    assert Exec(acted, events[1..]) == done;
  }

  lemma {:induction false} ExecConcat(s: System, a: seq<Event>, b: seq<Event>)
    ensures Exec(s, a + b) == Exec(Exec(s, a), b)
    decreases a
  {
    if a == [] {
      assert a + b == b;
    } else {
      ExecConcat(Step(s, a[0]), a[1..], b);
      assert (a + b)[1..] == a[1..] + b;
    }
  }

  /** Both requests load the key; then each acts, stores the key and commits. */
  function Loads(slot: Slot, hash1: string, hash2: string): seq<Event> {
    [Begin(1, slot, hash1), Begin(2, slot, hash2), Load(1), Load(2)]
  }

  function Finish(id: int, response: string): seq<Event> { [Act(id, response), Store(id), Commit(id)] }

  /** Two requests that both load a key before either has stored it. */
  lemma BothLoad(slot: Slot, hash1: string, hash2: string)
    ensures Exec(START, Loads(slot, hash1, hash2))
         == System(map[], [], map[1 := Call(slot, hash1, Executing), 2 := Call(slot, hash2, Executing)])
  {
    var events := Loads(slot, hash1, hash2);
    var s1 := Step(START, events[0]);
    var s2 := Step(s1, events[1]);
    var s3 := Step(s2, events[2]);
    var s4 := Step(s3, events[3]);
    assert events[1..] == [events[1], events[2], events[3]] && events[1..][1..] == [events[2], events[3]];
    assert [events[2], events[3]][1..] == [events[3]] && [events[3]][1..] == [];
    assert Exec(s3, [events[3]]) == s4 && Exec(s2, [events[2], events[3]]) == s4;
    assert Exec(s1, events[1..]) == s4;
  }

  lemma BothFinish(slot: Slot, hash1: string, hash2: string, response1: string, response2: string)
    requires !CommitsTwice(slot)
    ensures Exec(Exec(Exec(START, Loads(slot, hash1, hash2)), Finish(1, response1)), Finish(2, response2))
         == System(map[slot := Record(hash2, response2)],
                   [Effect(slot, hash1, response1), Effect(slot, hash2, response2)],
                   map[1 := Call(slot, hash1, Finished(response1)), 2 := Call(slot, hash2, Finished(response2))])
  {
    BothLoad(slot, hash1, hash2);
    var s4 := Exec(START, Loads(slot, hash1, hash2));
    UndisturbedRun(s4, 1, slot, hash1, response1);
    UndisturbedRun(Exec(s4, Finish(1, response1)), 2, slot, hash2, response2);
  }

  /** Overlapping requests with one key both take effect, whatever their payloads: the second finds the
      first one's row when it stores its own, and overwrites it. */
  lemma OverlapRepeats(slot: Slot, hash1: string, hash2: string, response1: string, response2: string)
    requires !CommitsTwice(slot)
    ensures var s := Run(Loads(slot, hash1, hash2) + Finish(1, response1) + Finish(2, response2));
            && Count(s.effects, slot) == 2 && s.store == map[slot := Record(hash2, response2)]
            && s.calls == map[1 := Call(slot, hash1, Finished(response1)), 2 := Call(slot, hash2, Finished(response2))]
  {
    ThreeParts(Loads(slot, hash1, hash2), Finish(1, response1), Finish(2, response2));
    BothFinish(slot, hash1, hash2, response1, response2);
    CountTwo(slot, hash1, hash2, response1, response2);
  }

  lemma ThreeParts(a: seq<Event>, b: seq<Event>, c: seq<Event>)
    ensures Run(a + b + c) == Exec(Exec(Exec(START, a), b), c)
  {
    ExecConcat(START, a, b);
    ExecConcat(START, a + b, c);
    ExecIsRun([], a + b + c);
    assert [] + (a + b + c) == a + b + c;
  }

  lemma CountTwo(slot: Slot, hash1: string, hash2: string, response1: string, response2: string)
    ensures Count([Effect(slot, hash1, response1), Effect(slot, hash2, response2)], slot) == 2
  {
    var e1, e2 := Effect(slot, hash1, response1), Effect(slot, hash2, response2);
    assert [e1, e2][..1] == [e1] && [e1][..0] == [];
    assert Count([e1], slot) == 1;
  }

  /** A first request that dies between its two commits leaves its effect and no row. */
  lemma DiesHalfway(slot: Slot, hash: string, response: string) returns (r: System)
    requires CommitsTwice(slot)
    ensures r == Exec(START, UpToFirstCommit(1, slot, hash, response) + [Crash(1)])
    ensures r.store == map[] && r.effects == [Effect(slot, hash, response)] && r.calls.Keys == {1}
  {
    var halfway := FirstCommit(START, 1, slot, hash, response);
    r := Step(halfway, Crash(1));
    ExecConcat(START, UpToFirstCommit(1, slot, hash, response), [Crash(1)]);
    assert Exec(r, []) == r && [Crash(1)][1..] == [];
    assert Exec(halfway, [Crash(1)]) == r;
  }

  /** A request up to its first commit. */
  function UpToFirstCommit(id: int, slot: Slot, hash: string, response: string): seq<Event> {
    [Begin(id, slot, hash), Load(id), Act(id, response), Commit(id)]
  }

  /** For a scope that commits twice, a crash between the two commits is enough: the retry with the
      same key and payload takes effect again. */
  lemma CrashRepeats(slot: Slot, hash: string, response1: string, response2: string)
    requires CommitsTwice(slot)
    ensures var s := Run(UpToFirstCommit(1, slot, hash, response1) + [Crash(1)]
                         + UpToFirstCommit(2, slot, hash, response2));
            && s.effects == [Effect(slot, hash, response1), Effect(slot, hash, response2)]
            && Count(s.effects, slot) == 2
            && s.calls.Keys == {1, 2} && s.calls[2] == Call(slot, hash, Halfway(response2))
  {
    var one, two := UpToFirstCommit(1, slot, hash, response1) + [Crash(1)], UpToFirstCommit(2, slot, hash, response2);
    var crashed := DiesHalfway(slot, hash, response1);
    var s := FirstCommit(crashed, 2, slot, hash, response2);
    ExecConcat(START, one, two);
    ExecIsRun([], one + two);
    assert [] + (one + two) == one + two;
    CountTwo(slot, hash, hash, response1, response2);
    assert Run(one + two) == s;
  }

  /** A new request on a key without a row, up to its first commit. */
  lemma FirstCommit(s: System, id: int, slot: Slot, hash: string, response: string) returns (r: System)
    requires CommitsTwice(slot) && id !in s.calls && slot !in s.store
    ensures r == Exec(s, UpToFirstCommit(id, slot, hash, response))
    ensures r.store == s.store && r.effects == s.effects + [Effect(slot, hash, response)]
    ensures r.calls == s.calls[id := Call(slot, hash, Halfway(response))]
  {
    var events := UpToFirstCommit(id, slot, hash, response);
    var s1 := Step(s, events[0]);
    var s2 := Step(s1, events[1]);
    var s3 := Step(s2, events[2]);
    r := Step(s3, events[3]);
    assert events[1..] == [events[1], events[2], events[3]] && events[1..][1..] == [events[2], events[3]];
    assert [events[2], events[3]][1..] == [events[3]] && [events[3]][1..] == [];
    assert Exec(r, []) == r && Exec(s3, [events[3]]) == r && Exec(s2, [events[2], events[3]]) == r;
    assert Exec(s1, events[1..]) == r;
  }

  // ---- both kinds of scope, when one request at a time works on a key ----

  /** A request loads a key only while no other request is working on it. */
  ghost predicate Exclusive(events: seq<Event>) {
    forall i :: 0 <= i < |events| ==> events[i].Load? ==> AloneOn(Run(events[..i]), events[i].id)
  }

  ghost predicate AloneOn(s: System, id: int) {
    id in s.calls ==>
      forall q :: q in s.calls && q != id && s.calls[q].slot == s.calls[id].slot ==> !Live(s.calls[q].phase)
  }

  predicate InBetween(phase: Phase) { phase.Halfway? || phase.Tail? }

  /** The event is the crash of a request on the slot between its two commits. */
  predicate LosesKey(s: System, e: Event, slot: Slot) {
    e.Crash? && e.id in s.calls && s.calls[e.id].slot == slot && InBetween(s.calls[e.id].phase)
  }

  /** How many requests on the slot have died between their two commits. */
  function Lost(events: seq<Event>, slot: Slot): nat {
    if events == [] then 0
    else
      var prefix := events[..|events| - 1];
      Lost(prefix, slot) + (if LosesKey(Run(prefix), events[|events| - 1], slot) then 1 else 0)
  }

  /** What a request's phase says about its key, when so many effects have been lost. */
  ghost predicate PhaseFits(s: System, c: Call, lost: nat) {
    match c.phase
    case Executing => c.slot !in s.store && Count(s.effects, c.slot) == lost
    case Acted(_) => c.slot !in s.store && Count(s.effects, c.slot) == lost
    case Staged(_, overwrite) => c.slot !in s.store && Count(s.effects, c.slot) == lost && !overwrite
    case Halfway(response) => EffectOnly(s, c.slot, Record(c.hash, response), lost)
    case Tail(response, overwrite) => EffectOnly(s, c.slot, Record(c.hash, response), lost) && !overwrite
    case Finished(response) => c.slot in s.store && s.store[c.slot] == Record(c.hash, response)
    case Replayed(response) => c.slot in s.store && s.store[c.slot] == Record(c.hash, response)
    case _ => true
  }

  /** The effect is there, its row not yet. */
  ghost predicate EffectOnly(s: System, slot: Slot, record: Record, lost: nat) {
    slot !in s.store && Count(s.effects, slot) == lost + 1 && LastEffect(s.effects, slot) == Some(record)
  }

  /** Some request on the slot has committed its effect and not yet its key. */
  ghost predicate Unfinished(s: System, slot: Slot) {
    exists id :: id in s.calls && s.calls[id].slot == slot && InBetween(s.calls[id].phase)
  }

  ghost predicate SlotFits(s: System, slot: Slot, lost: nat) {
    if slot in s.store then Count(s.effects, slot) == lost + 1 && LastEffect(s.effects, slot) == Some(s.store[slot])
    else Count(s.effects, slot) == lost + if Unfinished(s, slot) then 1 else 0
  }

  ghost predicate OneAtATime(s: System, slot: Slot) {
    forall p, q :: p in s.calls && q in s.calls && p != q && s.calls[p].slot == s.calls[q].slot == slot ==>
      !(Live(s.calls[p].phase) && Live(s.calls[q].phase))
  }

  /** The state of one key: its requests one at a time, their phases, its row and its effects. */
  ghost predicate SlotInv(s: System, slot: Slot, lost: nat) {
    && OneAtATime(s, slot) && SlotFits(s, slot, lost)
    && (forall id :: id in s.calls && s.calls[id].slot == slot ==> PhaseFits(s, s.calls[id], lost))
  }

  /** A step of a request on another key. */
  lemma ElsewhereKeeps(s: System, e: Event, slot: Slot, lost: nat)
    requires SlotInv(s, slot, lost)
    requires !e.Begin? ==> e.id in s.calls ==> s.calls[e.id].slot != slot
    ensures SlotInv(Step(s, e), slot, lost)
  {
    var r := Step(s, e);
    OtherKeyUntouched(s, e, slot);
    forall id | id in r.calls ensures r.calls[id].slot == slot ==>
      (id in s.calls && r.calls[id] == s.calls[id]) || r.calls[id].phase.Ready? { OneRequestMoves(s, e, id); }
    SameKeyKeeps(s, r, slot, lost);
  }

  lemma OtherKeyUntouched(s: System, e: Event, slot: Slot)
    requires !e.Begin? ==> e.id in s.calls ==> s.calls[e.id].slot != slot
    ensures Untouched(s, Step(s, e), slot)
    ensures forall id :: id in s.calls && s.calls[id].slot == slot ==>
              id in Step(s, e).calls && Step(s, e).calls[id] == s.calls[id]
  {
    EffectsGrow(s, e);
    if e.Commit? && e.id in s.calls { OtherKeyCommitted(s, e.id, slot); }
  }

  lemma OtherKeyCommitted(s: System, id: int, slot: Slot)
    requires id in s.calls && s.calls[id].slot != slot
    ensures Untouched(s, CommitStep(s, id), slot)
  {
    var c := s.calls[id];
    match c.phase
    case Acted(response) => OneMoreEffect(s.effects, Effect(c.slot, c.hash, response));
    case Staged(response, _) => OneMoreEffect(s.effects, Effect(c.slot, c.hash, response));
    case _ =>
  }

  /** Nothing about the key changed, except for requests that have just begun. */
  lemma SameKeyKeeps(s: System, r: System, slot: Slot, lost: nat)
    requires SlotInv(s, slot, lost) && Untouched(s, r, slot)
    requires forall id :: id in s.calls && s.calls[id].slot == slot ==> id in r.calls && r.calls[id] == s.calls[id]
    requires forall id :: id in r.calls && r.calls[id].slot == slot ==>
               (id in s.calls && r.calls[id] == s.calls[id]) || r.calls[id].phase.Ready?
    ensures SlotInv(r, slot, lost)
  {
    forall id | id in r.calls && r.calls[id].slot == slot ensures PhaseFits(r, r.calls[id], lost) {
      if id in s.calls { assert PhaseFits(s, s.calls[id], lost) || r.calls[id].phase.Ready?; }
    }
    if Unfinished(s, slot) {
      var id :| id in s.calls && s.calls[id].slot == slot && InBetween(s.calls[id].phase);
      assert id in r.calls && r.calls[id] == s.calls[id];
    }
    if Unfinished(r, slot) {
      var id :| id in r.calls && r.calls[id].slot == slot && InBetween(r.calls[id].phase);
      assert id in s.calls && r.calls[id] == s.calls[id];
    }
  }

  /** A request that is alone on its key takes a step: its new phase and the key's new state must fit. */
  lemma ActorKeeps(s: System, id: int, r: System, lost: nat, now: nat)
    requires id in s.calls && SlotInv(s, s.calls[id].slot, lost) && AloneOn(s, id)
    requires id in r.calls && r.calls == s.calls[id := r.calls[id]] && r.calls[id].slot == s.calls[id].slot
    requires PhaseFits(r, r.calls[id], now)
    requires var slot := s.calls[id].slot;
      && (slot in s.store ==> slot in r.store && r.store[slot] == s.store[slot])
      && (if slot in r.store then
            Count(r.effects, slot) == now + 1 && LastEffect(r.effects, slot) == Some(r.store[slot])
          else Count(r.effects, slot) == now + if InBetween(r.calls[id].phase) then 1 else 0)
    ensures SlotInv(r, s.calls[id].slot, now)
  {
    var slot := s.calls[id].slot;
    forall q | q in r.calls && r.calls[q].slot == slot ensures PhaseFits(r, r.calls[q], now) {
      if q != id { assert PhaseFits(s, s.calls[q], lost) && !Live(s.calls[q].phase); }
    }
    if InBetween(r.calls[id].phase) { assert Unfinished(r, slot); }
    if Unfinished(r, slot) {
      var q :| q in r.calls && r.calls[q].slot == slot && InBetween(r.calls[q].phase);
      assert q == id || !Live(s.calls[q].phase);
    }
  }

  lemma LiveIsAlone(s: System, id: int, lost: nat)
    requires id in s.calls && SlotInv(s, s.calls[id].slot, lost) && Live(s.calls[id].phase)
    ensures AloneOn(s, id)
    ensures Unfinished(s, s.calls[id].slot) <==> InBetween(s.calls[id].phase)
  {
  }

  /** A step on the key: a crash between two commits loses one effect, nothing else does. */
  lemma StepKeepsSlot(s: System, e: Event, slot: Slot, lost: nat)
    requires SlotInv(s, slot, lost) && (e.Load? ==> AloneOn(s, e.id))
    ensures SlotInv(Step(s, e), slot, lost + if LosesKey(s, e, slot) then 1 else 0)
  {
    var r := Step(s, e);
    if e.Begin? || e.id !in s.calls || s.calls[e.id].slot != slot {
      ElsewhereKeeps(s, e, slot, lost);
    } else if r != s {
      var phase, now := s.calls[e.id].phase, lost + if LosesKey(s, e, slot) then 1 else 0;
      if Live(phase) { LiveIsAlone(s, e.id, lost); } else { ReadyIsIdle(s, e.id, lost); }
      ActorFits(s, e, lost, now);
      ActorKeeps(s, e.id, r, lost, now);
    }
  }

  /** The new phase of the request that takes the step fits, and so do the row and the effects of its key. */
  lemma ActorFits(s: System, e: Event, lost: nat, now: nat)
    requires !e.Begin? && e.id in s.calls && Step(s, e) != s
    requires PhaseFits(s, s.calls[e.id], lost) && SlotFits(s, s.calls[e.id].slot, lost)
    requires Unfinished(s, s.calls[e.id].slot) <==> InBetween(s.calls[e.id].phase)
    requires now == lost + if LosesKey(s, e, s.calls[e.id].slot) then 1 else 0
    ensures var r, c := Step(s, e), s.calls[e.id];
      && e.id in r.calls && r.calls == s.calls[e.id := r.calls[e.id]] && r.calls[e.id].slot == c.slot
      && PhaseFits(r, r.calls[e.id], now)
      && (c.slot in s.store ==> c.slot in r.store && r.store[c.slot] == s.store[c.slot])
      && (if c.slot in r.store then
            Count(r.effects, c.slot) == now + 1 && LastEffect(r.effects, c.slot) == Some(r.store[c.slot])
          else Count(r.effects, c.slot) == now + if InBetween(r.calls[e.id].phase) then 1 else 0)
  {
    var r, c := Step(s, e), s.calls[e.id];
    if r.effects != s.effects { OneMoreEffect(s.effects, Effect(c.slot, c.hash, c.phase.response)); }
  }

  /** While no request works on the key, none is between two commits. */
  lemma ReadyIsIdle(s: System, id: int, lost: nat)
    requires id in s.calls && SlotInv(s, s.calls[id].slot, lost)
    requires AloneOn(s, id) && !Live(s.calls[id].phase)
    ensures !Unfinished(s, s.calls[id].slot)
  {
  }

  lemma {:induction false} RunKeepsSlot(events: seq<Event>, slot: Slot)
    requires Exclusive(events)
    ensures SlotInv(Run(events), slot, Lost(events, slot))
  {
    if events == [] {
    } else {
      var n := |events| - 1;
      var prefix := events[..n];
      forall i | 0 <= i < n ensures prefix[..i] == events[..i] && prefix[i] == events[i] {}
      RunKeepsSlot(prefix, slot);
      StepKeepsSlot(Run(prefix), events[n], slot, Lost(prefix, slot));
    }
  }

  /** With one request at a time on a key, in either kind of scope, its committed effects are exactly those of the
      requests that died between their two commits, and one more if there is a row or one is on its way; all
      requests that succeed, the first one and every replay, had the same payload hash and got the same
      response, those of the last effect. */
  lemma EffectsWhenExclusive(events: seq<Event>, slot: Slot)
    requires Exclusive(events)
    ensures var s := Run(events);
            && Count(s.effects, slot) == Lost(events, slot) + (if slot in s.store || Unfinished(s, slot) then 1 else 0)
            && forall id :: id in s.calls && s.calls[id].slot == slot && Succeeded(s.calls[id].phase) ==>
                 LastEffect(s.effects, slot) == Some(Record(s.calls[id].hash, s.calls[id].phase.response))
  {
    RunKeepsSlot(events, slot);
    var s := Run(events);
    forall id | id in s.calls && s.calls[id].slot == slot && Succeeded(s.calls[id].phase)
      ensures LastEffect(s.effects, slot) == Some(Record(s.calls[id].hash, s.calls[id].phase.response))
    {
      assert PhaseFits(s, s.calls[id], Lost(events, slot));
    }
  }

  /** So a key takes effect at most once exactly when no request on it died between its two commits, or only
      one did and no other has committed its effect since. */
  lemma AtMostOnceWhenExclusive(events: seq<Event>, slot: Slot)
    requires Exclusive(events)
    ensures var s := Run(events);
            Count(s.effects, slot) <= 1 <==>
              Lost(events, slot) == 0 || (Lost(events, slot) == 1 && slot !in s.store && !Unfinished(s, slot))
    ensures !CommitsTwice(slot) ==> Lost(events, slot) == 0
  {
    EffectsWhenExclusive(events, slot);
    if !CommitsTwice(slot) { OneCommitLosesNothing(events, slot); }
  }

  lemma {:induction false} OneCommitLosesNothing(events: seq<Event>, slot: Slot)
    requires !CommitsTwice(slot)
    ensures Lost(events, slot) == 0
  {
    if events == [] {
    } else {
      var prefix := events[..|events| - 1];
      OneCommitLosesNothing(prefix, slot);
      RunKeepsOneCommitInv(prefix);
      OneCommitHasNoTail(prefix, slot);
    }
  }

  // ---- what a load answers ----

  /** After any schedule, in either kind of scope, a request that loads is given the stored response exactly when the
      stored payload hash is its own; it is refused exactly when the hashes differ, and goes on to act exactly when
      there is no row.  Nothing else changes. */
  lemma LoadDecides(events: seq<Event>, id: int)
    requires id in Run(events).calls && Run(events).calls[id].phase.Ready?
    ensures var s, r, c := Run(events), Run(events + [Load(id)]), Run(events).calls[id];
      && r.store == s.store && r.effects == s.effects && r.calls.Keys == s.calls.Keys
      && (forall q :: q in s.calls && q != id ==> r.calls[q] == s.calls[q])
      && r.calls[id].slot == c.slot && r.calls[id].hash == c.hash
      && (forall response :: r.calls[id].phase == Replayed(response)
            <==> c.slot in s.store && s.store[c.slot] == Record(c.hash, response))
      && (r.calls[id].phase == Refused <==> c.slot in s.store && s.store[c.slot].hash != c.hash)
      && (r.calls[id].phase == Executing <==> c.slot !in s.store)
  {
    LongerRun(events, Load(id));
  }

  /** Storing the key notes whether there is a row to overwrite at that moment, and writes nothing yet; it follows the
      act in one kind of scope and the first commit in the other. */
  lemma StoreDecides(events: seq<Event>, id: int)
    requires id in Run(events).calls
    ensures var s, r, c := Run(events), Run(events + [Store(id)]), Run(events).calls[id];
      && r.store == s.store && r.effects == s.effects && r.calls.Keys == s.calls.Keys
      && (forall q :: q in s.calls && q != id ==> r.calls[q] == s.calls[q])
      && (if c.phase.Acted? && c.slot.scope != "holding_transaction.create" then
            r.calls[id] == Call(c.slot, c.hash, Staged(c.phase.response, c.slot in s.store))
          else if c.phase.Halfway? then r.calls[id] == Call(c.slot, c.hash, Tail(c.phase.response, c.slot in s.store))
          else r.calls[id] == c)
  {
    LongerRun(events, Store(id));
  }

  /** Committing a stored key fails exactly when there was no row to overwrite and there is one now; otherwise the row
      is the request's, and so is one more effect, unless that was committed before. */
  lemma CommitDecides(events: seq<Event>, id: int)
    requires id in Run(events).calls && (Run(events).calls[id].phase.Staged? || Run(events).calls[id].phase.Tail?)
    ensures var s, r, c := Run(events), Run(events + [Commit(id)]), Run(events).calls[id];
      && r.calls.Keys == s.calls.Keys && (forall q :: q in s.calls && q != id ==> r.calls[q] == s.calls[q])
      && (if c.slot in s.store && !c.phase.overwrite then
            r.calls[id].phase == Aborted && r.store == s.store && r.effects == s.effects
          else
            && r.calls[id].phase == Finished(c.phase.response)
            && r.store == s.store[c.slot := Record(c.hash, c.phase.response)]
            && r.effects == s.effects + if c.phase.Staged? then [Effect(c.slot, c.hash, c.phase.response)] else [])
  {
    LongerRun(events, Commit(id));
  }

  predicate Final(phase: Phase) { Succeeded(phase) || phase.Refused? || phase.Aborted? }

  /** A request that has ended stays as it ended. */
  lemma {:induction false} FinalStays(events: seq<Event>, m: nat, id: int)
    requires m <= |events| && id in Run(events[..m]).calls && Final(Run(events[..m]).calls[id].phase)
    ensures id in Run(events).calls && Run(events).calls[id] == Run(events[..m]).calls[id]
  {
    if m == |events| {
      assert events[..m] == events;
    } else {
      var n := |events| - 1;
      assert events[..n][..m] == events[..m];
      FinalStays(events[..n], m, id);
      OneStepKeepsFinal(Run(events[..n]), events[n], id);
    }
  }

  lemma OneStepKeepsFinal(s: System, e: Event, id: int)
    requires id in s.calls && Final(s.calls[id].phase)
    ensures id in Step(s, e).calls && Step(s, e).calls[id] == s.calls[id]
  {
  }

  /** Every success has a row. */
  ghost predicate SuccessesHaveRows(s: System) {
    forall id :: id in s.calls && Succeeded(s.calls[id].phase) ==> s.calls[id].slot in s.store
  }

  lemma {:induction false} RunHasRows(events: seq<Event>)
    ensures SuccessesHaveRows(Run(events))
  {
    if events == [] {
    } else {
      var n := |events| - 1;
      RunHasRows(events[..n]);
      StepKeepsRows(Run(events[..n]), events[n]);
    }
  }

  lemma StepKeepsRows(s: System, e: Event)
    requires SuccessesHaveRows(s)
    ensures SuccessesHaveRows(Step(s, e))
  {
    var r := Step(s, e);
    assert s.store.Keys <= r.store.Keys;
    forall id | id in r.calls && Succeeded(r.calls[id].phase) ensures r.calls[id].slot in r.store {
      OneRequestMoves(s, e, id);
    }
  }

  /** The key has taken effect twice, as far as the schedule of its scope can tell. */
  ghost predicate TakesEffectTwice(events: seq<Event>, slot: Slot) {
    if CommitsTwice(slot) then Repeats(events, slot) else Overlaps(events, slot)
  }

  /** A success leaves its hash and its response in the row, unless the key takes effect twice under an interleaving. */
  lemma SuccessIsInRow(events: seq<Event>, slot: Slot, id: int)
    requires Exclusive(events) || !TakesEffectTwice(events, slot)
    requires id in Run(events).calls && Run(events).calls[id].slot == slot && Succeeded(Run(events).calls[id].phase)
    ensures var s, c := Run(events), Run(events).calls[id];
            slot in s.store && s.store[slot] == Record(c.hash, c.phase.response)
  {
    var s, c := Run(events), Run(events).calls[id];
    RunHasRows(events);
    if Exclusive(events) {
      RunKeepsSlot(events, slot);
      assert PhaseFits(s, c, Lost(events, slot));
    } else if CommitsTwice(slot) {
      AtMostOnceOfTwoCommits(events, slot);
      RunKeepsTwoCommitInv(events, slot);
      OnlyEffect(s.effects, slot, Record(c.hash, c.phase.response));
      OnlyEffect(s.effects, slot, s.store[slot]);
    } else {
      AllSuccessesAgree(events, slot, id);
    }
  }

  /** Once a request has succeeded on a key, and one at a time or without the key taking effect twice, every later load
      with the same payload hash is given that response, and every later load with another one is refused; both for
      good, whatever comes after. */
  lemma LaterLoadsAreAnswered(events: seq<Event>, m: nat, first: int, id: int, more: seq<Event>)
    requires m <= |events| && first in Run(events[..m]).calls && Succeeded(Run(events[..m]).calls[first].phase)
    requires Exclusive(events) || !TakesEffectTwice(events, Run(events[..m]).calls[first].slot)
    requires id in Run(events).calls && Run(events).calls[id].phase.Ready?
    requires Run(events).calls[id].slot == Run(events[..m]).calls[first].slot
    ensures var won, c := Run(events[..m]).calls[first], Run(events).calls[id];
            var r := Run(events + [Load(id)] + more);
      && id in r.calls
      && r.calls[id].phase == if c.hash == won.hash then Replayed(won.phase.response) else Refused
  {
    var loaded := events + [Load(id)];
    FinalStays(events, m, first);
    SuccessIsInRow(events, Run(events).calls[id].slot, first);
    LoadDecides(events, id);
    assert (loaded + more)[..|loaded|] == loaded;
    FinalStays(loaded + more, |loaded|, id);
  }
}

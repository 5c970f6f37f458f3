/**
  `MessageService` with its operations cut at their awaits: event writes, messages being persisted, history pages and
  loads of the event list run beside each other.  Ids of events are unique.
*/
module MessageRaces {
  import opened Common
  import opened Projection
  import opened MessageStore

  /** An operation in flight: it holds a base message, then a projection being saved, then one that was saved. */
  datatype Op = Based(message: Message, save: bool) | Saving(message: Message) | Saved(message: Message)

  datatype Step =
    | EventSaved(e: Event)
    | EventPushed(e: Event)
    | BeginEvent(op: nat, e: Event)
    | BeginLoad(load: nat)
    | ListLoaded(load: nat)
    | BeginPersist(op: nat, id: Id)
    | BeginHistory(op: nat, id: Id)
    | Compute(op: nat)
    | Stored(op: nat)
    | Cached(op: nat)
    | Reset

  /**
    `loads` are the tables that `loadLocalChatEvents` has read and not yet delivered; an event that `persistEventNow` has
    saved is in `unpushed` until it is in the list, and then in `pushed` until its message is looked up.
  */
  datatype State = State(service: Service, loads: map<nat, seq<Event>>, unpushed: set<Event>, pushed: set<Event>, ops: map<nat, Op>)

  const START := State(EMPTY, map[], {}, {}, map[])

  /** The events of `table` whose ids the list does not have. */
  function Unknown(list: seq<Event>, table: seq<Event>): (r: seq<Event>)
    ensures forall e :: e in r <==> e in table && !HasId(list, e.id)
  {
    if table == [] then []
    else Unknown(list, table[..|table| - 1]) + (if HasId(list, table[|table| - 1].id) then [] else [table[|table| - 1]])
  }

  /** `loadProjectionEvents` after its await: what others loaded meanwhile is merged. */
  function MergeList(s: Service, table: seq<Event>): Service {
    s.(list := Some(if s.list.Some? then Sort(s.list.value + Unknown(s.list.value, table)) else table))
  }

  function IdOf(op: Op): Id { op.message.signed.id }

  function SetOp(s: State, op: nat, v: Op): State { s.(ops := s.ops[op := v]) }

  function ComputeOp(s: State, op: nat): State {
    var v := s.service;
    if !(op in s.ops && s.ops[op].Based?) || v.list.None? then s
    else
      var p := Project(s.ops[op].message, v.list.value);
      if s.ops[op].save then SetOp(s, op, Saving(p))
      else s.(service := v.(cache := v.cache[p.signed.id := p]), ops := s.ops - {op})
  }

  function StoreOp(s: State, op: nat): State {
    if !(op in s.ops && s.ops[op].Saving?) then s
    else SetOp(s, op, Saved(s.ops[op].message)).(service := s.service.(stored := Upsert(s.service.stored, s.ops[op].message)))
  }

  function CacheOp(s: State, op: nat): State {
    if !(op in s.ops && s.ops[op].Saved?) then s
    else s.(service := s.service.(cache := s.service.cache[IdOf(s.ops[op]) := s.ops[op].message]), ops := s.ops - {op})
  }

  /** An id that is taken by another event is not saved again. */
  predicate Clashes(s: State, e: Event) { HasId(s.service.events, e.id) && e !in s.service.events }

  function SaveNow(s: State, e: Event): State {
    if Clashes(s, e) then s else s.(service := SaveEvent(s.service, e), unpushed := s.unpushed + {e})
  }

  function PushNow(s: State, e: Event): State {
    if e !in s.unpushed || s.service.list.None? then s
    else s.(service := PushEvent(s.service, e), unpushed := s.unpushed - {e}, pushed := s.pushed + {e})
  }

  function LookUp(s: State, op: nat, e: Event): State {
    if e !in s.pushed || op in s.ops then s
    else
      var m := Existing(s.service, e.target);
      var s' := s.(pushed := s.pushed - {e});
      if m.None? then s' else SetOp(s', op, Based(m.value, true))
  }

  function Next(o: Originals, s: State, step: Step): State {
    var v := s.service;
    match step
    case EventSaved(e) => SaveNow(s, e)
    case EventPushed(e) => PushNow(s, e)
    case BeginEvent(op, e) => LookUp(s, op, e)
    case BeginLoad(l) => if l in s.loads || v.list.Some? then s else s.(loads := s.loads[l := v.events])
    case ListLoaded(l) => if l in s.loads then s.(service := MergeList(v, s.loads[l]), loads := s.loads - {l}) else s
    case BeginPersist(op, id) =>
      var m := Existing(v, id);
      if op in s.ops then s else SetOp(s, op, Based(if m.Some? then m.value.(signed := o(id).signed) else o(id), true))
    case BeginHistory(op, id) => if op in s.ops || id !in v.stored then s else SetOp(s, op, Based(v.stored[id], false))
    case Compute(op) => ComputeOp(s, op)
    case Stored(op) => StoreOp(s, op)
    case Cached(op) => CacheOp(s, op)
    case Reset => s.(service := v.(list := None, cache := map[]))
  }

  function Execute(o: Originals, s: State, steps: seq<Step>): State
    decreases |steps|
  {
    if steps == [] then s else Execute(o, Next(o, s, steps[0]), steps[1..])
  }

  // ---- What every interleaving keeps ----

  /** `m` is its original with some of the saved events projected onto it. */
  ghost predicate Partial(o: Originals, events: seq<Event>, m: Message) {
    exists some: seq<Event> :: Includes(events, some) && m == Project(o(m.signed.id), some)
  }

  ghost predicate ListsSound(s: State) {
    var v := s.service;
    && UniqueIds(v.events) && (v.list.Some? ==> Includes(v.events, v.list.value))
    && (forall l | l in s.loads :: Includes(v.events, s.loads[l]))
    && (forall e | e in s.unpushed || e in s.pushed :: e in v.events)
  }

  ghost predicate MessagesSound(o: Originals, s: State) {
    var v := s.service;
    && (forall id | id in v.stored :: v.stored[id].signed.id == id && Partial(o, v.events, v.stored[id]))
    && (forall id | id in v.cache :: v.cache[id].signed.id == id && Partial(o, v.events, v.cache[id]))
    && (forall k | k in s.ops :: Partial(o, v.events, s.ops[k].message))
  }

  ghost predicate Sound(o: Originals, s: State) { ValidOriginals(o) && ListsSound(s) && MessagesSound(o, s) }

  lemma PartialSigned(o: Originals, events: seq<Event>, m: Message)
    requires Partial(o, events, m)
    ensures m.signed == o(m.signed.id).signed
  {
    var some: seq<Event> :| Includes(events, some) && m == Project(o(m.signed.id), some);
    KeepsSigned(o(m.signed.id), some);
  }

  lemma PartialGrows(o: Originals, events: seq<Event>, more: seq<Event>, m: Message)
    requires Partial(o, events, m) && Includes(more, events)
    ensures Partial(o, more, m)
  {
    hide Project;
    var some: seq<Event> :| Includes(events, some) && m == Project(o(m.signed.id), some);
    assert Includes(more, some);
  }

  lemma OriginalIsPartial(o: Originals, events: seq<Event>, id: Id)
    requires ValidOriginals(o)
    ensures Partial(o, events, o(id))
  {
    hide Project;
    assert Includes(events, []) && o(id) == Project(o(o(id).signed.id), []);
  }

  lemma ReprojectionIsPartial(o: Originals, events: seq<Event>, m: Message, list: seq<Event>)
    requires UniqueIds(events) && Partial(o, events, m) && Includes(events, list)
    ensures Partial(o, events, Project(m, list)) && Project(m, list).signed == m.signed
  {
    hide Project, Remaining;
    var some: seq<Event> :| Includes(events, some) && m == Project(o(m.signed.id), some);
    assert Keyed(some + list);
    AnyTwoCompose(o(m.signed.id), some, list);
    KeepsSigned(m, list);
    assert Includes(events, Remaining(o(m.signed.id).signed, some, list) + list);
  }

  lemma ListStepKeepsLists(o: Originals, s: State, step: Step)
    requires ListsSound(s) && (step.EventSaved? || step.EventPushed? || step.BeginLoad? || step.ListLoaded?)
    ensures ListsSound(Next(o, s, step)) && Includes(Next(o, s, step).service.events, s.service.events)
  {
    hide Sort, Unknown;
    var v := s.service;
    if step.EventPushed? && v.list.Some? { SortKeeps(v.list.value + [step.e]); }
    if step.ListLoaded? && step.load in s.loads && v.list.Some? { SortKeeps(v.list.value + Unknown(v.list.value, s.loads[step.load])); }
  }

  lemma ListStepFrame(o: Originals, s: State, step: Step)
    requires step.EventSaved? || step.EventPushed? || step.BeginLoad? || step.ListLoaded?
    ensures var s' := Next(o, s, step); s'.ops == s.ops && s'.service.stored == s.service.stored && s'.service.cache == s.service.cache
  {
    hide Sort, Unknown;
  }

  lemma ListStepKeepsSound(o: Originals, s: State, step: Step)
    requires Sound(o, s) && (step.EventSaved? || step.EventPushed? || step.BeginLoad? || step.ListLoaded?)
    ensures Sound(o, Next(o, s, step))
  {
    hide Partial, Next, ListsSound;
    ListStepKeepsLists(o, s, step);
    ListStepFrame(o, s, step);
    var v, v' := s.service, Next(o, s, step).service;
    forall id | id in v.stored ensures Partial(o, v'.events, v.stored[id]) { PartialGrows(o, v.events, v'.events, v.stored[id]); }
    forall id | id in v.cache ensures Partial(o, v'.events, v.cache[id]) { PartialGrows(o, v.events, v'.events, v.cache[id]); }
    forall k | k in s.ops ensures Partial(o, v'.events, s.ops[k].message) { PartialGrows(o, v.events, v'.events, s.ops[k].message); }
  }

  lemma BeginKeepsSound(o: Originals, s: State, step: Step)
    requires Sound(o, s) && (step.BeginEvent? || step.BeginPersist? || step.BeginHistory? || step.Reset?)
    ensures Sound(o, Next(o, s, step))
  {
    hide Partial, Project;
    var v := s.service;
    if step.BeginPersist? {
      OriginalIsPartial(o, v.events, step.id);
      var m := Existing(v, step.id);
      if m.Some? { PartialSigned(o, v.events, m.value); }
    }
  }

  lemma ComputeKeepsSound(o: Originals, s: State, op: nat)
    requires Sound(o, s)
    ensures Sound(o, Next(o, s, Compute(op)))
  {
    hide Partial, Project;
    if op in s.ops && s.ops[op].Based? && s.service.list.Some? {
      ReprojectionIsPartial(o, s.service.events, s.ops[op].message, s.service.list.value);
    }
  }

  lemma SaveStepKeepsSound(o: Originals, s: State, step: Step)
    requires Sound(o, s) && (step.Stored? || step.Cached?)
    ensures Sound(o, Next(o, s, step))
  {
    hide Partial, Project;
    if step.op in s.ops {
      var p := s.ops[step.op].message;
      PartialSigned(o, s.service.events, p);
      if p.signed.id in s.service.stored { PartialSigned(o, s.service.events, s.service.stored[p.signed.id]); }
    }
  }

  lemma StepKeepsSound(o: Originals, s: State, step: Step)
    requires Sound(o, s)
    ensures Sound(o, Next(o, s, step))
  {
    hide Sound, Next;
    if step.EventSaved? || step.EventPushed? || step.BeginLoad? || step.ListLoaded? { ListStepKeepsSound(o, s, step); }
    else if step.Compute? { ComputeKeepsSound(o, s, step.op); }
    else if step.Stored? || step.Cached? { SaveStepKeepsSound(o, s, step); }
    else { BeginKeepsSound(o, s, step); }
  }

  lemma {:induction false} ExecuteKeepsSound(o: Originals, s: State, steps: seq<Step>)
    requires Sound(o, s)
    ensures Sound(o, Execute(o, s, steps))
    decreases |steps|
  {
    hide Sound, Next;
    if steps != [] {
      StepKeepsSound(o, s, steps[0]);
      ExecuteKeepsSound(o, Next(o, s, steps[0]), steps[1..]);
    }
  }

  /** At every interleaving a stored or cached message is its original with a subset of the saved events, never anything else. */
  lemma {:induction false} InterleavedIsPartial(o: Originals, steps: seq<Step>)
    requires ValidOriginals(o)
    ensures var v := Execute(o, START, steps).service;
      && (forall id | id in v.stored :: v.stored[id].signed == o(id).signed && Partial(o, v.events, v.stored[id]))
      && (forall id | id in v.cache :: v.cache[id].signed == o(id).signed && Partial(o, v.events, v.cache[id]))
  {
    ExecuteKeepsSound(o, START, steps);
    var v := Execute(o, START, steps).service;
    hide Partial, Execute;
    forall id | id in v.stored ensures v.stored[id].signed == o(id).signed { PartialSigned(o, v.events, v.stored[id]); }
    forall id | id in v.cache ensures v.cache[id].signed == o(id).signed { PartialSigned(o, v.events, v.cache[id]); }
  }

  /** Whatever happened before, reading a message through `history` with a complete list restores the full replay. */
  lemma HistoryHeals(o: Originals, s: State, op: nat, id: Id)
    requires Sound(o, s) && id in s.service.stored && op !in s.ops
    requires s.service.list.Some? && forall e | e in s.service.events && e.target == id :: e in s.service.list.value
    ensures var v := Next(o, Next(o, s, BeginHistory(op, id)), Compute(op)).service;
      id in v.cache && v.cache[id] == Project(o(id), s.service.events)
  {
    hide Project;
    var v := s.service;
    var some: seq<Event> :| Includes(v.events, some) && v.stored[id] == Project(o(id), some);
    UniqueIdsAreKeys(v.events);
    CompleteListReplays(o(id), some, v.list.value, v.events);
    KeepsSigned(o(id), v.events);
  }

  // ---- When stored and cached messages are exact ----

  predicate Holds(op: Op, id: Id) { IdOf(op) == id && (op.Saving? || op.Saved?) }

  /** Load `l` has read the table without `e`, which is saved and will not be pushed again. */
  predicate IsStale(s: State, l: nat, e: Event) { l in s.loads && e in s.service.events && e !in s.loads[l] && e !in s.unpushed }

  /**
    The steps that can lose an event: it is saved while a projection of its message is on its way to store and cache, a message
    is projected while an event for it is saved and not in the list yet, or the session is reset while a load is under way that
    has read the table before an event that is listed by now.
  */
  ghost predicate Misses(s: State, step: Step) {
    match step
    case EventSaved(e) => e !in s.service.events && exists k :: k in s.ops && Holds(s.ops[k], e.target)
    case Compute(op) => op in s.ops && s.ops[op].Based? && exists e :: e in s.unpushed && e.target == IdOf(s.ops[op])
    case Reset => exists l, e :: IsStale(s, l, e)
    case _ => false
  }

  ghost predicate NeverMisses(o: Originals, s: State, steps: seq<Step>)
    decreases |steps|
  {
    steps != [] ==> !Misses(s, steps[0]) && NeverMisses(o, Next(o, s, steps[0]), steps[1..])
  }

  /** No event of the message is in hand. */
  ghost predicate EventsDone(s: State, id: Id) { forall e | e in s.unpushed || e in s.pushed :: e.target != id }

  /** Nothing in flight will still store the message; nothing will still cache it. */
  ghost predicate StoresDone(s: State, id: Id) {
    EventsDone(s, id) && forall k | k in s.ops && IdOf(s.ops[k]) == id :: !s.ops[k].Saving? && !(s.ops[k].Based? && s.ops[k].save)
  }

  ghost predicate CachesDone(s: State, id: Id) { StoresDone(s, id) && forall k | k in s.ops && IdOf(s.ops[k]) == id :: !s.ops[k].Saved? }

  /** Every saved event is in the list, or on its way there. */
  ghost predicate ListComplete(s: State) {
    var v := s.service;
    && (v.list.Some? ==> forall e | e in v.events :: e in v.list.value || e in s.unpushed)
    && (v.list.None? ==> forall l, e | l in s.loads && e in v.events :: e in s.loads[l] || e in s.unpushed)
  }

  ghost predicate OpsExact(o: Originals, s: State) {
    forall k | k in s.ops && (s.ops[k].Saving? || s.ops[k].Saved?) :: s.ops[k].message == Project(o(IdOf(s.ops[k])), s.service.events)
  }

  ghost predicate StoreExact(o: Originals, s: State, id: Id) {
    id in s.service.stored && StoresDone(s, id) ==> s.service.stored[id] == Project(o(id), s.service.events)
  }

  ghost predicate CacheExact(o: Originals, s: State, id: Id) {
    id in s.service.cache && CachesDone(s, id) ==> s.service.cache[id] == Project(o(id), s.service.events)
  }

  ghost predicate AllExact(o: Originals, s: State) { OpsExact(o, s) && forall id :: StoreExact(o, s, id) && CacheExact(o, s, id) }

  ghost predicate Faithful(o: Originals, s: State) { Sound(o, s) && ListComplete(s) && AllExact(o, s) }

  /** What is in hand for a message is still in hand. */
  ghost predicate Keeps(s: State, s': State, id: Id) {
    && (forall e | (e in s.unpushed || e in s.pushed) && e.target == id :: e in s'.unpushed || e in s'.pushed)
    && (forall k | k in s.ops && IdOf(s.ops[k]) == id :: k in s'.ops && s'.ops[k] == s.ops[k])
  }

  lemma DoneBefore(s: State, s': State, id: Id)
    requires Keeps(s, s', id)
    ensures StoresDone(s', id) ==> StoresDone(s, id)
    ensures CachesDone(s', id) ==> CachesDone(s, id)
  {
  }

  /** A step that neither touches a message nor its projection keeps it exact. */
  lemma UntouchedStaysExact(o: Originals, s: State, s': State, id: Id)
    requires StoreExact(o, s, id) && CacheExact(o, s, id) && Keeps(s, s', id)
    requires Project(o(id), s'.service.events) == Project(o(id), s.service.events)
    requires id in s'.service.stored ==> id in s.service.stored && s'.service.stored[id] == s.service.stored[id]
    requires id in s'.service.cache ==> id in s.service.cache && s'.service.cache[id] == s.service.cache[id]
    ensures StoreExact(o, s', id) && CacheExact(o, s', id)
  {
    hide Project, StoresDone, CachesDone, Keeps;
    DoneBefore(s, s', id);
  }

  lemma StepKeepsComplete(o: Originals, s: State, step: Step)
    requires ListsSound(s) && ListComplete(s) && !Misses(s, step)
    ensures ListComplete(Next(o, s, step))
  {
    hide Sort, Unknown, Project, Upsert;
    var v := s.service;
    if step.EventPushed? && v.list.Some? { SortKeeps(v.list.value + [step.e]); }
    if step.ListLoaded? && step.load in s.loads && v.list.Some? { SortKeeps(v.list.value + Unknown(v.list.value, s.loads[step.load])); }
    if step.Reset? { ResetSpoilsExactlyWhen(o, s); }
  }

  /** A reset leaves the list, or what will become of it, complete exactly when no load is stale. */
  lemma ResetSpoilsExactlyWhen(o: Originals, s: State)
    requires ListComplete(s)
    ensures ListComplete(Next(o, s, Reset)) <==> !Misses(s, Reset)
  {
    if !ListComplete(Next(o, s, Reset)) {
      var l, e :| l in s.loads && e in s.service.events && !(e in s.loads[l] || e in s.unpushed);
      assert IsStale(s, l, e);
    }
  }

  /** Saving an event leaves the projections of other messages as they are. */
  lemma OtherProjections(s: State, e: Event, m: Message)
    requires ListsSound(s) && m.signed.id != e.target
    ensures Project(m, SaveNow(s, e).service.events) == Project(m, s.service.events)
  {
    hide Project;
    var v := s.service;
    if !Clashes(s, e) && !HasId(v.events, e.id) {
      var events := v.events + [e];
      assert UniqueIds(events);
      UniqueIdsAreKeys(events);
      IdleEvent(m, v.events, e);
    }
  }

  lemma EventSavedKeepsExact(o: Originals, s: State, e: Event)
    requires Sound(o, s) && AllExact(o, s) && !Misses(s, EventSaved(e))
    ensures AllExact(o, Next(o, s, EventSaved(e)))
  {
    hide Project, MessagesSound, StoreExact, CacheExact;
    var s' := Next(o, s, EventSaved(e));
    if e in s.service.events || Clashes(s, e) {
      assert s'.service == s.service by { if e in s.service.events { assert HasId(s.service.events, e.id); } }
      forall id ensures StoreExact(o, s', id) && CacheExact(o, s', id) { UntouchedStaysExact(o, s, s', id); }
    } else {
      forall id: Id | id != e.target ensures Project(o(id), s'.service.events) == Project(o(id), s.service.events) { OtherProjections(s, e, o(id)); }
      forall id ensures StoreExact(o, s', id) && CacheExact(o, s', id) {
        if id == e.target { InHand(o, s', e); } else { UntouchedStaysExact(o, s, s', id); }
      }
      assert forall k | k in s.ops && IdOf(s.ops[k]) == e.target :: !Holds(s.ops[k], e.target);
    }
  }

  lemma InHand(o: Originals, s: State, e: Event)
    requires e in s.unpushed || e in s.pushed
    ensures StoreExact(o, s, e.target) && CacheExact(o, s, e.target)
  {
    assert !EventsDone(s, e.target);
  }

  lemma ListStepKeepsExact(o: Originals, s: State, step: Step)
    requires AllExact(o, s) && (step.EventPushed? || step.BeginLoad? || step.ListLoaded?)
    ensures AllExact(o, Next(o, s, step))
  {
    hide Project, Next, StoreExact, CacheExact;
    ListStepFrame(o, s, step);
    PushFrame(o, s, step);
    var s' := Next(o, s, step);
    forall id ensures StoreExact(o, s', id) && CacheExact(o, s', id) { UntouchedStaysExact(o, s, s', id); }
  }

  lemma PushFrame(o: Originals, s: State, step: Step)
    requires step.EventPushed? || step.BeginLoad? || step.ListLoaded?
    ensures var s' := Next(o, s, step); s'.service.events == s.service.events && forall e :: e in s'.unpushed || e in s'.pushed <==> e in s.unpushed || e in s.pushed
  {
    hide Sort, Unknown;
  }

  lemma BeginKeepsExact(o: Originals, s: State, step: Step)
    requires AllExact(o, s) && (step.BeginPersist? || step.BeginHistory?)
    ensures AllExact(o, Next(o, s, step))
  {
    hide Project, StoreExact, CacheExact;
    var s' := Next(o, s, step);
    forall id ensures StoreExact(o, s', id) && CacheExact(o, s', id) { UntouchedStaysExact(o, s, s', id); }
  }

  /** The step concerns one message only. */
  ghost predicate OnlyTouches(s: State, s': State, mine: Id) {
    && s'.service.events == s.service.events
    && forall id | id != mine ::
        && Keeps(s, s', id)
        && (id in s'.service.stored ==> id in s.service.stored && s'.service.stored[id] == s.service.stored[id])
        && (id in s'.service.cache ==> id in s.service.cache && s'.service.cache[id] == s.service.cache[id])
  }

  lemma OthersStayExact(o: Originals, s: State, s': State, mine: Id)
    requires AllExact(o, s) && OnlyTouches(s, s', mine) && OpsExact(o, s') && StoreExact(o, s', mine) && CacheExact(o, s', mine)
    ensures AllExact(o, s')
  {
    hide Project, StoreExact, CacheExact, OpsExact, Keeps;
    forall id ensures StoreExact(o, s', id) && CacheExact(o, s', id) {
      if id != mine { UntouchedStaysExact(o, s, s', id); }
    }
  }

  lemma FoundIsMine(o: Originals, s: State, id: Id)
    requires Sound(o, s) && Existing(s.service, id).Some?
    ensures Existing(s.service, id).value.signed.id == id
  {
  }

  lemma LookUpTouches(o: Originals, s: State, op: nat, e: Event)
    requires e in s.pushed && op !in s.ops && (Existing(s.service, e.target).Some? ==> Existing(s.service, e.target).value.signed.id == e.target)
    ensures OnlyTouches(s, LookUp(s, op, e), e.target)
    ensures var s', m := LookUp(s, op, e), Existing(s.service, e.target);
      if m.Some? then op in s'.ops && s'.ops[op] == Based(m.value, true) else e.target !in s'.service.stored && e.target !in s'.service.cache
  {
  }

  lemma LookUpKeepsOps(o: Originals, s: State, op: nat, e: Event)
    requires OpsExact(o, s)
    ensures OpsExact(o, LookUp(s, op, e))
  {
    hide Project;
  }

  lemma LookUpKeepsExact(o: Originals, s: State, op: nat, e: Event)
    requires Sound(o, s) && AllExact(o, s)
    ensures AllExact(o, Next(o, s, BeginEvent(op, e)))
  {
    if e in s.pushed && op !in s.ops {
      if Existing(s.service, e.target).Some? { FoundIsMine(o, s, e.target); }
      LookUpTouches(o, s, op, e);
      LookUpKeepsOps(o, s, op, e);
      hide LookUp, Project, StoreExact, CacheExact, Sound, OnlyTouches, OpsExact;
      var s', m := LookUp(s, op, e), Existing(s.service, e.target);
      if m.Some? { ToBeSaved(o, s', op); } else { NotThere(o, s', e.target); }
      OthersStayExact(o, s, s', e.target);
    }
  }

  lemma ToBeSaved(o: Originals, s: State, op: nat)
    requires op in s.ops && ((s.ops[op].Based? && s.ops[op].save) || s.ops[op].Saving?)
    ensures StoreExact(o, s, IdOf(s.ops[op])) && CacheExact(o, s, IdOf(s.ops[op]))
  {
    assert !StoresDone(s, IdOf(s.ops[op]));
  }

  lemma NotThere(o: Originals, s: State, id: Id)
    requires id !in s.service.stored && id !in s.service.cache
    ensures StoreExact(o, s, id) && CacheExact(o, s, id)
  {
  }

  /** The projection an operation computes is exact when no event of its message is outside the list. */
  lemma ComputedIsExact(o: Originals, s: State, op: nat)
    requires Sound(o, s) && ListComplete(s) && !Misses(s, Compute(op)) && op in s.ops && s.ops[op].Based? && s.service.list.Some?
    ensures Project(s.ops[op].message, s.service.list.value) == Project(o(IdOf(s.ops[op])), s.service.events)
    ensures Project(s.ops[op].message, s.service.list.value).signed.id == IdOf(s.ops[op])
  {
    hide Project;
    var v, m := s.service, s.ops[op].message;
    assert Partial(o, v.events, m);
    var some: seq<Event> :| Includes(v.events, some) && m == Project(o(m.signed.id), some);
    UniqueIdsAreKeys(v.events);
    CompleteListReplays(o(m.signed.id), some, v.list.value, v.events);
    KeepsSigned(m, v.list.value);
  }

  lemma ComputeTouches(s: State, op: nat, p: Message)
    requires op in s.ops && s.ops[op].Based? && s.service.list.Some? && p == Project(s.ops[op].message, s.service.list.value) && p.signed.id == IdOf(s.ops[op])
    ensures OnlyTouches(s, ComputeOp(s, op), IdOf(s.ops[op]))
    ensures ComputeOp(s, op) == if s.ops[op].save then SetOp(s, op, Saving(p))
      else s.(service := s.service.(cache := s.service.cache[IdOf(s.ops[op]) := p]), ops := s.ops - {op})
  {
    hide Project;
  }

  lemma ComputeKeepsExact(o: Originals, s: State, op: nat)
    requires Sound(o, s) && ListComplete(s) && AllExact(o, s) && !Misses(s, Compute(op))
    ensures AllExact(o, Next(o, s, Compute(op)))
  {
    if op in s.ops && s.ops[op].Based? && s.service.list.Some? {
      ComputedIsExact(o, s, op);
      var p, mine := Project(s.ops[op].message, s.service.list.value), IdOf(s.ops[op]);
      ComputeTouches(s, op, p);
      hide ComputeOp, Project, StoreExact, CacheExact, Sound, ListComplete, Misses, OnlyTouches;
      var s' := ComputeOp(s, op);
      if s.ops[op].save { ToBeSaved(o, s', op); } else { CachedNow(o, s, s', op); }
      assert OpsExact(o, s');
      OthersStayExact(o, s, s', mine);
    }
  }

  /** An operation that ends by caching an exact message. */
  lemma CachedNow(o: Originals, s: State, s': State, op: nat)
    requires op in s.ops && (s.ops[op].Saved? || (s.ops[op].Based? && !s.ops[op].save)) && s' == s.(service := s'.service, ops := s.ops - {op})
    requires s'.service.stored == s.service.stored && s'.service.events == s.service.events
    requires var id := IdOf(s.ops[op]); StoreExact(o, s, id) && id in s'.service.cache && s'.service.cache[id] == Project(o(id), s.service.events)
    ensures StoreExact(o, s', IdOf(s.ops[op])) && CacheExact(o, s', IdOf(s.ops[op]))
  {
    hide Project;
    var id := IdOf(s.ops[op]);
    if StoresDone(s', id) {
      forall k | k in s.ops && IdOf(s.ops[k]) == id ensures !s.ops[k].Saving? && !(s.ops[k].Based? && s.ops[k].save) {
        if k != op { assert k in s'.ops && s'.ops[k] == s.ops[k]; }
      }
      assert StoresDone(s, id);
    }
  }

  lemma StoreTouches(o: Originals, s: State, op: nat)
    requires Sound(o, s) && op in s.ops && s.ops[op].Saving?
    ensures var s', mine := StoreOp(s, op), IdOf(s.ops[op]);
      && OnlyTouches(s, s', mine) && (OpsExact(o, s) ==> OpsExact(o, s'))
      && op in s'.ops && s'.ops[op] == Saved(s.ops[op].message) && mine in s'.service.stored && s'.service.stored[mine] == s.ops[op].message
  {
    hide Project;
    var p, mine := s.ops[op].message, IdOf(s.ops[op]);
    assert Partial(o, s.service.events, p);
    PartialSigned(o, s.service.events, p);
    if mine in s.service.stored { PartialSigned(o, s.service.events, s.service.stored[mine]); }
    hide Sound, Partial;
  }

  lemma StoredMine(o: Originals, s: State, op: nat)
    requires Sound(o, s) && OpsExact(o, s) && op in s.ops && s.ops[op].Saving?
    ensures StoreExact(o, StoreOp(s, op), IdOf(s.ops[op])) && CacheExact(o, StoreOp(s, op), IdOf(s.ops[op]))
  {
    assert s.ops[op].message == Project(o(IdOf(s.ops[op])), s.service.events);
    StoreTouches(o, s, op);
    hide StoreOp, Project, StoreExact, CacheExact, Sound, OpsExact, Keeps;
    StoredNow(o, StoreOp(s, op), op);
  }

  lemma StoredKeepsExact(o: Originals, s: State, op: nat)
    requires Sound(o, s) && AllExact(o, s)
    ensures AllExact(o, Next(o, s, Stored(op)))
  {
    hide Project, StoreExact, CacheExact, Sound, OnlyTouches, OpsExact;
    if op in s.ops && s.ops[op].Saving? {
      StoreTouches(o, s, op);
      StoredMine(o, s, op);
      hide StoreOp;
      OthersStayExact(o, s, StoreOp(s, op), IdOf(s.ops[op]));
    }
  }

  lemma StoredNow(o: Originals, s: State, op: nat)
    requires op in s.ops && s.ops[op].Saved? && IdOf(s.ops[op]) in s.service.stored
    requires s.service.stored[IdOf(s.ops[op])] == Project(o(IdOf(s.ops[op])), s.service.events)
    ensures StoreExact(o, s, IdOf(s.ops[op])) && CacheExact(o, s, IdOf(s.ops[op]))
  {
    hide Project;
    assert !CachesDone(s, IdOf(s.ops[op]));
  }

  lemma CacheTouches(o: Originals, s: State, op: nat)
    requires op in s.ops && s.ops[op].Saved?
    ensures OnlyTouches(s, CacheOp(s, op), IdOf(s.ops[op])) && (OpsExact(o, s) ==> OpsExact(o, CacheOp(s, op)))
  {
    hide Project;
  }

  lemma CachedKeepsExact(o: Originals, s: State, op: nat)
    requires AllExact(o, s)
    ensures AllExact(o, Next(o, s, Cached(op)))
  {
    if op in s.ops && s.ops[op].Saved? {
      CacheTouches(o, s, op);
      hide Project, StoreExact, CacheExact, OnlyTouches;
      CachedNow(o, s, CacheOp(s, op), op);
      hide OpsExact;
      OthersStayExact(o, s, CacheOp(s, op), IdOf(s.ops[op]));
    }
  }

  lemma ResetKeepsExact(o: Originals, s: State)
    requires AllExact(o, s)
    ensures AllExact(o, Next(o, s, Reset))
  {
    hide Project, StoreExact, CacheExact;
    var s' := Next(o, s, Reset);
    forall id ensures StoreExact(o, s', id) && CacheExact(o, s', id) { UntouchedStaysExact(o, s, s', id); }
  }

  lemma StepKeepsFaithful(o: Originals, s: State, step: Step)
    requires Faithful(o, s) && !Misses(s, step)
    ensures Faithful(o, Next(o, s, step))
  {
    assert ListsSound(s);
    hide Sound, AllExact, Misses, Next, ListComplete, ListsSound;
    StepKeepsSound(o, s, step);
    StepKeepsComplete(o, s, step);
    match step
    case EventSaved(e) => EventSavedKeepsExact(o, s, e);
    case BeginEvent(op, e) => LookUpKeepsExact(o, s, op, e);
    case BeginPersist(_, _) => BeginKeepsExact(o, s, step);
    case BeginHistory(_, _) => BeginKeepsExact(o, s, step);
    case Compute(op) => ComputeKeepsExact(o, s, op);
    case Stored(op) => StoredKeepsExact(o, s, op);
    case Cached(op) => CachedKeepsExact(o, s, op);
    case Reset => ResetKeepsExact(o, s);
    case _ => ListStepKeepsExact(o, s, step);
  }

  lemma {:induction false} ExecuteKeepsFaithful(o: Originals, s: State, steps: seq<Step>)
    requires Faithful(o, s) && NeverMisses(o, s, steps)
    ensures Faithful(o, Execute(o, s, steps))
    decreases |steps|
  {
    hide Faithful, Misses, Next;
    if steps != [] {
      StepKeepsFaithful(o, s, steps[0]);
      ExecuteKeepsFaithful(o, Next(o, s, steps[0]), steps[1..]);
    }
  }

  /**
    In every interleaving without such a step, a message for which nothing is in flight any more is the full replay of all saved
    events, in the store and in the cache.
  */
  lemma {:induction false} ExactUnlessMissed(o: Originals, steps: seq<Step>, id: Id)
    requires ValidOriginals(o) && NeverMisses(o, START, steps)
    ensures var s := Execute(o, START, steps); var v := s.service;
      && (id in v.stored && StoresDone(s, id) ==> v.stored[id] == Project(o(id), v.events))
      && (id in v.cache && CachesDone(s, id) ==> v.cache[id] == Project(o(id), v.events))
  {
    ExecuteKeepsFaithful(o, START, steps);
    assert StoreExact(o, Execute(o, START, steps), id) && CacheExact(o, Execute(o, START, steps), id);
  }

  // ---- What a missed event costs ----

  /** An event is saved, listed, looked up and projected while a projection of its message waits to be saved. */
  function OvertakenRun(k: nat, j: nat, e: Event): seq<Step> {
    [EventSaved(e), EventPushed(e), BeginEvent(j, e), Compute(j), Stored(j), Cached(j), Stored(k), Cached(k)]
  }

  lemma ExecuteStep(o: Originals, s: State, steps: seq<Step>, k: nat)
    requires k < |steps|
    ensures Execute(o, s, steps[k..]) == Execute(o, Next(o, s, steps[k]), steps[k + 1..])
  {
    assert steps[k..][1..] == steps[k + 1..];
  }

  lemma ExecuteEight(o: Originals, s: State, t: seq<Step>)
    requires |t| == 8
    ensures var s3 := Next(o, Next(o, Next(o, s, t[0]), t[1]), t[2]); var s6 := Next(o, Next(o, Next(o, s3, t[3]), t[4]), t[5]);
      Execute(o, s, t) == Next(o, Next(o, s6, t[6]), t[7])
  {
    var s3 := Next(o, Next(o, Next(o, s, t[0]), t[1]), t[2]);
    var s6 := Next(o, Next(o, Next(o, s3, t[3]), t[4]), t[5]);
    assert t[0..] == t && t[8..] == [];
    var end := Next(o, Next(o, s6, t[6]), t[7]);
    assert Execute(o, end, t[8..]) == end;
    hide Next, Execute;
    ExecuteStep(o, s, t, 0);
    ExecuteStep(o, Next(o, s, t[0]), t, 1);
    ExecuteStep(o, Next(o, Next(o, s, t[0]), t[1]), t, 2);
    ExecuteStep(o, s3, t, 3);
    ExecuteStep(o, Next(o, s3, t[3]), t, 4);
    ExecuteStep(o, Next(o, Next(o, s3, t[3]), t[4]), t, 5);
    ExecuteStep(o, s6, t, 6);
    ExecuteStep(o, Next(o, s6, t[6]), t, 7);
  }

  /** Steps of an operation leave the saved events and the other operations alone. */
  lemma OpStepFrame(o: Originals, s: State, step: Step, k: nat)
    requires (step.EventPushed? || step.BeginEvent? || step.Compute? || step.Stored? || step.Cached?) && k in s.ops
    requires step.EventPushed? || step.op != k
    ensures var s' := Next(o, s, step); s'.service.events == s.service.events && k in s'.ops && s'.ops[k] == s.ops[k]
  {
    hide Project, Upsert, PushEvent;
    if step.EventPushed? { PushEventFrame(s.service, step.e); }
  }

  lemma PushEventFrame(v: Service, e: Event)
    ensures PushEvent(v, e).events == v.events
  {
  }

  /** The last two steps write what operation `k` holds; if it has stored it already, only the cache. */
  lemma LastWriteWins(o: Originals, s: State, k: nat)
    requires Sound(o, s) && k in s.ops && (s.ops[k].Saving? || s.ops[k].Saved?)
    ensures var p := s.ops[k].message; var v := Next(o, Next(o, s, Stored(k)), Cached(k)).service;
      && v.events == s.service.events && p.signed.id in v.cache && v.cache[p.signed.id] == p
      && (s.ops[k].Saving? ==> p.signed.id in v.stored && v.stored[p.signed.id] == p)
  {
    hide Project;
    var p := s.ops[k].message;
    assert Partial(o, s.service.events, p);
    PartialSigned(o, s.service.events, p);
    if p.signed.id in s.service.stored { PartialSigned(o, s.service.events, s.service.stored[p.signed.id]); }
    hide Partial;
  }

  /** Whatever the event's own operation does, operation `k` writes last. */
  lemma OvertakenTail(o: Originals, s: State, k: nat, j: nat, e: Event)
    requires Sound(o, s) && k in s.ops && (s.ops[k].Saving? || s.ops[k].Saved?) && j != k
    ensures var s2 := Next(o, Next(o, s, EventPushed(e)), BeginEvent(j, e)); var s5 := Next(o, Next(o, Next(o, s2, Compute(j)), Stored(j)), Cached(j));
      var v := Next(o, Next(o, s5, Stored(k)), Cached(k)).service; var p := s.ops[k].message;
      && v.events == s.service.events && p.signed.id in v.cache && v.cache[p.signed.id] == p
      && (s.ops[k].Saving? ==> p.signed.id in v.stored && v.stored[p.signed.id] == p)
  {
    hide Next, Sound;
    OpStepFrame(o, s, EventPushed(e), k);
    StepKeepsSound(o, s, EventPushed(e));
    var s1 := Next(o, s, EventPushed(e));
    OpStepFrame(o, s1, BeginEvent(j, e), k);
    StepKeepsSound(o, s1, BeginEvent(j, e));
    var s2 := Next(o, s1, BeginEvent(j, e));
    OpStepFrame(o, s2, Compute(j), k);
    StepKeepsSound(o, s2, Compute(j));
    var s3 := Next(o, s2, Compute(j));
    OpStepFrame(o, s3, Stored(j), k);
    StepKeepsSound(o, s3, Stored(j));
    var s4 := Next(o, s3, Stored(j));
    OpStepFrame(o, s4, Cached(j), k);
    StepKeepsSound(o, s4, Cached(j));
    LastWriteWins(o, Next(o, s4, Cached(j)), k);
  }

  /**
    The converse, from every sound state in which an exact projection of a message waits to be saved, or was saved and waits to
    be cached: an event for it that is saved now can be overtaken.  The cache then misses it, and so does the store if the
    projection was still to be saved; they are wrong exactly when the event would have shown.
  */
  lemma {:induction false} LateEventIsLost(o: Originals, s: State, k: nat, j: nat, e: Event)
    requires Sound(o, s) && k in s.ops && Holds(s.ops[k], e.target) && j !in s.ops && !HasId(s.service.events, e.id)
    requires s.ops[k].message == Project(o(e.target), s.service.events)
    ensures Misses(s, EventSaved(e))
    ensures var v := Execute(o, s, OvertakenRun(k, j, e)).service; var id, p := e.target, s.ops[k].message;
      && v.events == s.service.events + [e]
      && id in v.cache && v.cache[id] == p && (s.ops[k].Saving? ==> id in v.stored && v.stored[id] == p)
      && (p == Project(o(id), v.events) <==>
          !Applies(o(id).signed, e) || Overwritten(o(id).signed, s.service.events, e) || Read(p, RegisterOf(e)) == Written(e))
  {
    hide Next, Execute, Project, Sound, Applies, Overwritten, Read;
    assert Holds(s.ops[k], e.target) && e !in s.service.events;
    var s1 := Next(o, s, EventSaved(e));
    NewEventSaved(o, s, e);
    ExecuteEight(o, s, OvertakenRun(k, j, e));
    StepKeepsSound(o, s, EventSaved(e));
    NewEventKeyed(o, s, e);
    OvertakenTail(o, s1, k, j, e);
    MissedEventIsHarmlessExactlyWhen(o(e.target), s.service.events, e);
  }

  lemma NewEventSaved(o: Originals, s: State, e: Event)
    requires !HasId(s.service.events, e.id)
    ensures Next(o, s, EventSaved(e)).service.events == s.service.events + [e] && Next(o, s, EventSaved(e)).ops == s.ops
  {
  }

  lemma NewEventKeyed(o: Originals, s: State, e: Event)
    requires Sound(o, s) && !HasId(s.service.events, e.id)
    ensures Keyed(s.service.events + [e])
  {
    assert UniqueIds(s.service.events + [e]);
    UniqueIdsAreKeys(s.service.events + [e]);
  }

  /** A message is projected while an event for it is saved but not listed; the event is then handled, and overtaken. */
  function EarlyRun(k: nat, j: nat, e: Event): seq<Step> {
    [Compute(k), EventPushed(e), BeginEvent(j, e), Compute(j), Stored(j), Cached(j), Stored(k), Cached(k)]
  }

  lemma EarlyProjection(o: Originals, s: State, k: nat)
    requires Sound(o, s) && k in s.ops && s.ops[k].Based? && s.ops[k].save && s.service.list.Some?
    ensures var p := Project(s.ops[k].message, s.service.list.value); var s1 := Next(o, s, Compute(k));
      && s1.service == s.service && s1.ops == s.ops[k := Saving(p)]
      && UniqueIds(s.service.events) && Partial(o, s.service.events, p) && p.signed.id == IdOf(s.ops[k])
  {
    ReprojectionIsPartial(o, s.service.events, s.ops[k].message, s.service.list.value);
    hide Partial, UniqueIds;
  }

  /** Exactly when a register then lacks its last write, store and cache are wrong. */
  lemma {:induction false} EarlyProjectionIsLost(o: Originals, s: State, k: nat, j: nat, e: Event)
    requires Sound(o, s) && k in s.ops && s.ops[k].Based? && s.ops[k].save && s.service.list.Some? && j !in s.ops
    requires e in s.unpushed && e.target == IdOf(s.ops[k])
    ensures Misses(s, Compute(k))
    ensures var v := Execute(o, s, EarlyRun(k, j, e)).service; var id, p := e.target, Project(s.ops[k].message, s.service.list.value);
      && v.events == s.service.events
      && id in v.stored && v.stored[id] == p && id in v.cache && v.cache[id] == p
      && (p == Project(o(id), v.events) <==> forall r, last | IsLast(o(id).signed, v.events, r, last) :: Read(p, r) == Written(last))
  {
    hide Next, Execute, Project, Sound, Read, IsLast, Partial, UniqueIds;
    EarlyProjection(o, s, k);
    ExecuteEight(o, s, EarlyRun(k, j, e));
    StepKeepsSound(o, s, Compute(k));
    OvertakenTail(o, Next(o, s, Compute(k)), k, j, e);
    PartialIsExactWhen(o, s.service.events, Project(s.ops[k].message, s.service.list.value));
  }

  lemma PartialIsExactWhen(o: Originals, events: seq<Event>, p: Message)
    requires UniqueIds(events) && Partial(o, events, p)
    ensures var id := p.signed.id;
      p == Project(o(id), events) <==> forall r, last | IsLast(o(id).signed, events, r, last) :: Read(p, r) == Written(last)
  {
    hide Project, Read, IsLast;
    var some: seq<Event> :| Includes(events, some) && p == Project(o(p.signed.id), some);
    UniqueIdsAreKeys(events);
    PartialIsFullExactlyWhen(o(p.signed.id), some, events);
  }

  // ---- What a reset under a stale load costs ----

  lemma SecondLoadIsBehind(o: Originals)
    ensures Next(o, Next(o, Next(o, START, BeginLoad(0)), BeginLoad(1)), ListLoaded(0)) == START.(service := EMPTY.(list := Some([])), loads := map[1 := []])
  {
    var s2 := Next(o, Next(o, START, BeginLoad(0)), BeginLoad(1));
    assert s2 == START.(loads := map[0 := [], 1 := []]);
    assert s2.loads - {0} == map[1 := []];
  }

  lemma LoadBecomesStale(o: Originals, e: Event)
    ensures var s := START.(service := EMPTY.(list := Some([])), loads := map[1 := []]);
      IsStale(Next(o, Next(o, s, EventSaved(e)), EventPushed(e)), 1, e)
  {
    var s := START.(service := EMPTY.(list := Some([])), loads := map[1 := []]);
    var s' := Next(o, s, EventSaved(e));
    assert s'.service.events == [e] && s'.unpushed == {e} && s'.service.list == Some([]) && s'.loads == s.loads;
    var s'' := Next(o, s', EventPushed(e));
    assert s''.service.events == [e] && s''.unpushed == {} && s''.loads == s.loads;
  }

  /** Two operations load at once; the first list gets a new event, the second table was read before it. */
  lemma StaleLoadIsReachable(o: Originals, e: Event)
    ensures IsStale(Execute(o, START, [BeginLoad(0), BeginLoad(1), ListLoaded(0), EventSaved(e), EventPushed(e)]), 1, e)
  {
    hide Next, IsStale;
    var steps := [BeginLoad(0), BeginLoad(1), ListLoaded(0), EventSaved(e), EventPushed(e)];
    SecondLoadIsBehind(o);
    LoadBecomesStale(o, e);
    var s1 := Next(o, START, steps[0]);
    var s2 := Next(o, s1, steps[1]);
    var s3 := Next(o, s2, steps[2]);
    var s4 := Next(o, s3, steps[3]);
    var s5 := Next(o, s4, steps[4]);
    assert steps[5..] == [] && Execute(o, s5, steps[5..]) == s5 && steps[0..] == steps;
    ExecuteStep(o, s4, steps, 4);
    ExecuteStep(o, s3, steps, 3);
    ExecuteStep(o, s2, steps, 2);
    ExecuteStep(o, s1, steps, 1);
    ExecuteStep(o, START, steps, 0);
  }

  /** The session is reset, the stale load installs its table, and a new event for the message arrives. */
  function ForgetfulRun(l: nat, k: nat, d: Event): seq<Step> {
    [Reset, ListLoaded(l), EventSaved(d), EventPushed(d), BeginEvent(k, d), Compute(k), Stored(k), Cached(k)]
  }

  lemma StaleTableIsInstalled(o: Originals, s: State, l: nat, d: Event)
    requires ListsSound(s) && l in s.loads && !HasId(s.service.events, d.id)
    ensures var s' := StaleState(o, s, l, d);
      && s'.service == s.service.(events := s.service.events + [d], list := Some(Sort(s.loads[l] + [d])), cache := map[])
      && d in s'.pushed && s'.ops == s.ops && s'.unpushed == s.unpushed - {d}
  {
    hide Sort;
    var s2 := Next(o, Next(o, s, Reset), ListLoaded(l));
    assert s2 == s.(service := s.service.(list := Some(s.loads[l]), cache := map[]), loads := s.loads - {l});
    var s3 := Next(o, s2, EventSaved(d));
    assert s3 == s2.(service := s2.service.(events := s.service.events + [d]), unpushed := s.unpushed + {d});
    assert !HasId(s.loads[l], d.id);
  }

  lemma LooksUpStored(o: Originals, s: State, k: nat, d: Event)
    requires Sound(o, s) && d in s.pushed && k !in s.ops && s.service.cache == map[] && d.target in s.service.stored
    ensures s.service.stored[d.target].signed.id == d.target
    ensures Next(o, s, BeginEvent(k, d)) == s.(pushed := s.pushed - {d}, ops := s.ops[k := Based(s.service.stored[d.target], true)])
  {
    hide Partial, ListsSound;
  }

  lemma WritesKeepList(o: Originals, s: State, k: nat)
    ensures Next(o, Next(o, s, Stored(k)), Cached(k)).service.list == s.service.list
  {
    hide Upsert;
  }

  lemma StaleProjection(o: Originals, s: State, k: nat, d: Event, list: seq<Event>)
    requires Sound(o, s) && d in s.pushed && k !in s.ops && s.service.list == Some(list) && s.service.cache == map[] && d.target in s.service.stored
    ensures var v := Next(o, Next(o, Next(o, Next(o, s, BeginEvent(k, d)), Compute(k)), Stored(k)), Cached(k)).service;
      var id, p := d.target, Project(s.service.stored[d.target], list);
      && v.events == s.service.events && v.list == s.service.list && p.signed.id == id && Partial(o, v.events, p) && UniqueIds(v.events)
      && id in v.stored && v.stored[id] == p && id in v.cache && v.cache[id] == p
  {
    hide Next, Project, Sound, Partial, UniqueIds;
    LooksUpStored(o, s, k, d);
    StepKeepsSound(o, s, BeginEvent(k, d));
    var s1 := Next(o, s, BeginEvent(k, d));
    EarlyProjection(o, s1, k);
    StepKeepsSound(o, s1, Compute(k));
    LastWriteWins(o, Next(o, s1, Compute(k)), k);
    WritesKeepList(o, Next(o, s1, Compute(k)), k);
  }

  function StaleState(o: Originals, s: State, l: nat, d: Event): State {
    Next(o, Next(o, Next(o, Next(o, s, Reset), ListLoaded(l)), EventSaved(d)), EventPushed(d))
  }

  lemma ForgetfulSteps(o: Originals, s: State, l: nat, k: nat, d: Event)
    ensures var s4 := StaleState(o, s, l, d);
      Execute(o, s, ForgetfulRun(l, k, d)) == Next(o, Next(o, Next(o, Next(o, s4, BeginEvent(k, d)), Compute(k)), Stored(k)), Cached(k))
  {
    hide Next, Execute;
    ExecuteEight(o, s, ForgetfulRun(l, k, d));
  }

  lemma StaleTableIsSound(o: Originals, s: State, l: nat, d: Event)
    requires Sound(o, s)
    ensures Sound(o, StaleState(o, s, l, d))
  {
    hide Sound, Next;
    StepKeepsSound(o, s, Reset);
    StepKeepsSound(o, Next(o, s, Reset), ListLoaded(l));
    StepKeepsSound(o, Next(o, Next(o, s, Reset), ListLoaded(l)), EventSaved(d));
    StepKeepsSound(o, Next(o, Next(o, Next(o, s, Reset), ListLoaded(l)), EventSaved(d)), EventPushed(d));
  }

  lemma StaleTable(s: State, l: nat, e: Event, d: Event)
    requires ListsSound(s) && IsStale(s, l, e) && !HasId(s.service.events, d.id)
    ensures var list := Sort(s.loads[l] + [d]); e in s.service.events && e !in list && Keyed(list)
  {
    SortKeeps(s.loads[l] + [d]);
    assert HasId(s.service.events, e.id);
    var list := Sort(s.loads[l] + [d]);
    hide Sort;
    assert UniqueIds(s.service.events + [d]);
    UniqueIdsAreKeys(s.service.events + [d]);
    assert Includes(s.service.events + [d], list);
  }

  lemma {:induction false} ForgetfulOutcome(o: Originals, s: State, l: nat, k: nat, d: Event)
    requires Sound(o, s) && l in s.loads && k !in s.ops && !HasId(s.service.events, d.id) && d.target in s.service.stored
    ensures var v := Execute(o, s, ForgetfulRun(l, k, d)).service;
      var id, list := d.target, Sort(s.loads[l] + [d]); var p := Project(s.service.stored[id], list);
      && v.events == s.service.events + [d] && v.list == Some(list)
      && id in v.stored && v.stored[id] == p && id in v.cache && v.cache[id] == p
      && p.signed.id == id && Partial(o, v.events, p) && UniqueIds(v.events)
  {
    assert ListsSound(s);
    hide Sort, Next, Execute, StaleState, Project, Partial, UniqueIds, Sound, ListsSound;
    StaleTableIsInstalled(o, s, l, d);
    StaleTableIsSound(o, s, l, d);
    StaleProjection(o, StaleState(o, s, l, d), k, d, Sort(s.loads[l] + [d]));
    ForgetfulSteps(o, s, l, k, d);
  }

  /**
    Such a reset loses an event for good: the list lacks it from then on, what is projected with it is wrong exactly when a
    register lacks its last write, and `history` does not heal it.
  */
  lemma {:induction false} ResetForgetsAnEvent(o: Originals, s: State, l: nat, k: nat, e: Event, d: Event)
    requires Sound(o, s) && IsStale(s, l, e) && k !in s.ops && !HasId(s.service.events, d.id) && d.target in s.service.stored
    ensures Misses(s, Reset)
    ensures var v := Execute(o, s, ForgetfulRun(l, k, d)).service;
      var id, list := d.target, Sort(s.loads[l] + [d]); var p := Project(s.service.stored[id], list);
      && v.events == s.service.events + [d] && v.list == Some(list) && e in v.events && e !in list
      && id in v.stored && v.stored[id] == p && id in v.cache && v.cache[id] == p && Project(p, list) == p
      && (p == Project(o(id), v.events) <==> forall r, last | IsLast(o(id).signed, v.events, r, last) :: Read(p, r) == Written(last))
  {
    assert ListsSound(s) && l in s.loads && Misses(s, Reset);
    hide *;
    StaleTable(s, l, e, d);
    ForgetfulOutcome(o, s, l, k, d);
    var list := Sort(s.loads[l] + [d]);
    ProjectedTwice(s.service.stored[d.target], list);
    PartialIsExactWhen(o, s.service.events + [d], Project(s.service.stored[d.target], list));
  }

  lemma ProjectedTwice(m: Message, list: seq<Event>)
    requires Keyed(list)
    ensures Project(Project(m, list), list) == Project(m, list)
  {
    SupersetAbsorbs(m, list, list);
  }

  /** And it shows: an older event for the same register takes the place of the one that was forgotten. */
  lemma OlderEventWins(m: Message, list: seq<Event>, events: seq<Event>, r: Register, d: Event, e: Event)
    requires Keyed(events) && Keyed(list) && IsLast(m.signed, list, r, d) && IsLast(m.signed, events, r, e) && Written(d) != Written(e)
    ensures Project(m, list) != Project(m, events) && Read(Project(m, list), r) == Written(d)
  {
    hide Project, Read, Precedes;
    ProjectIsLastWriter(m, list, r);
    ProjectIsLastWriter(m, events, r);
    assert IsValue(m, list, r, Written(d)) && IsValue(m, events, r, Written(e));
    ValueIsUnique(m, list, r, Read(Project(m, list), r), Written(d));
    ValueIsUnique(m, events, r, Read(Project(m, events), r), Written(e));
  }

  // ---- What an operation that is left alone achieves ----

  lemma ComputeIs(o: Originals, s: State, op: nat)
    requires op in s.ops && s.ops[op].Based? && s.service.list.Some?
    ensures var p := Project(s.ops[op].message, s.service.list.value);
      Next(o, s, Compute(op)) == if s.ops[op].save then s.(ops := s.ops[op := Saving(p)])
        else s.(service := s.service.(cache := s.service.cache[p.signed.id := p]), ops := s.ops - {op})
  {
    hide Project;
  }

  /** The table is read only while there is no list, and a load holds what it read until it ends. */
  lemma LoadsExactlyWhen(o: Originals, s: State, step: Step, l: nat)
    ensures var loads := Next(o, s, step).loads;
      && (l in loads <==> if l in s.loads then step != ListLoaded(l) else step == BeginLoad(l) && s.service.list.None?)
      && (l in loads ==> loads[l] == if l in s.loads then s.loads[l] else s.service.events)
  {
    hide Project, MergeList, Existing;
  }

  /**
    A message that is persisted is stored and cached, with the listed events projected over what was found of it: what an
    earlier projection had taken in is kept even if the list lacks it.
  */
  lemma PersistStores(o: Originals, s: State, k: nat, id: Id)
    requires Sound(o, s) && k !in s.ops && s.service.list.Some?
    ensures var found := Existing(s.service, id); var base := if found.Some? then found.value else o(id);
      var p := Project(base, s.service.list.value);
      var v := Next(o, Next(o, Next(o, Next(o, s, BeginPersist(k, id)), Compute(k)), Stored(k)), Cached(k)).service;
      id in v.stored && v.stored[id] == p && id in v.cache && v.cache[id] == p && v.events == s.service.events
  {
    var found := Existing(s.service, id);
    var base := if found.Some? then found.value else o(id);
    BaseIsMine(o, s, id);
    hide Project;
    var s1 := Next(o, s, BeginPersist(k, id));
    assert s1 == s.(ops := s.ops[k := Based(base, true)]);
    StepKeepsSound(o, s, BeginPersist(k, id));
    ComputeIs(o, s1, k);
    StepKeepsSound(o, s1, Compute(k));
    KeepsSigned(base, s.service.list.value);
    hide Next, Sound, Existing;
    LastWriteWins(o, Next(o, s1, Compute(k)), k);
  }

  lemma BaseIsMine(o: Originals, s: State, id: Id)
    requires Sound(o, s)
    ensures o(id).signed.id == id && (Existing(s.service, id).Some? ==>
      Existing(s.service, id).value.signed.id == id && Existing(s.service, id).value.signed == o(id).signed)
  {
    hide Project;
    if Existing(s.service, id).Some? { PartialSigned(o, s.service.events, Existing(s.service, id).value); }
  }
}

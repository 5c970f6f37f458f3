/**
  `MessageService` for one channel: already projected messages are stored, cached and projected again.
  `o` gives the signed original of each message id.
*/
module MessageStore {
  import opened Common
  import opened Projection

  type Originals = Id -> Message

  ghost predicate ValidOriginals(o: Originals) { forall id :: o(id).signed.id == id && o(id) == Project(o(id), []) }

  predicate HasId(events: seq<Event>, id: Id) { exists e | e in events :: e.id == id }

  predicate UniqueIds(events: seq<Event>) {
    forall e, f | e in events && f in events && e.id == f.id :: e == f
  }

  /** `events`, `stored` are the database; `list`, `cache` the service's own. */
  datatype Service = Service(events: seq<Event>, list: Option<seq<Event>>, stored: map<Id, Message>, cache: map<Id, Message>)

  function SaveEvent(s: Service, e: Event): Service {
    if HasId(s.events, e.id) then s else s.(events := s.events + [e])
  }

  function PushEvent(s: Service, e: Event): Service {
    if s.list.None? || HasId(s.list.value, e.id) then s else s.(list := Some(Sort(s.list.value + [e])))
  }

  /** `loadProjectionEvents` when nothing runs beside it. */
  function EnsureList(s: Service): (r: Service)
    ensures r.list.Some?
  {
    if s.list.Some? then s else s.(list := Some(s.events))
  }

  function Existing(s: Service, id: Id): Option<Message> {
    if id in s.cache then Some(s.cache[id]) else if id in s.stored then Some(s.stored[id]) else None
  }

  /** The upsert of `save_message`: a row that exists keeps its signed columns. */
  function Upsert(stored: map<Id, Message>, p: Message): map<Id, Message> {
    var id := p.signed.id;
    stored[id := if id in stored then p.(signed := stored[id].signed) else p]
  }

  function SaveProjection(s: Service, p: Message): Service {
    s.(stored := Upsert(s.stored, p), cache := s.cache[p.signed.id := p])
  }

  // ---- One operation after the other ----

  datatype Operation = PersistEvent(e: Event) | Persist(id: Id) | History(id: Id) | Find(id: Id) | ResetSession

  function Perform(o: Originals, s: Service, op: Operation): Service {
    match op
    case PersistEvent(e) =>
      var s' := PushEvent(EnsureList(SaveEvent(s, e)), e);
      var m := Existing(s', e.target);
      if m.None? then s' else SaveProjection(s', Project(m.value, s'.list.value))
    case Persist(id) =>
      var s' := EnsureList(s);
      var m := Existing(s', id);
      var base := if m.Some? then m.value.(signed := o(id).signed) else o(id);
      SaveProjection(s', Project(base, s'.list.value))
    case History(id) =>
      var s' := EnsureList(s);
      if id !in s'.stored then s' else s'.(cache := s'.cache[id := Project(s'.stored[id], s'.list.value)])
    case Find(id) =>
      if id in s.cache || id !in s.stored then s
      else
        var s' := EnsureList(s);
        s'.(cache := s'.cache[id := Project(s'.stored[id], s'.list.value)])
    case ResetSession => s.(list := None, cache := map[])
  }

  function PerformAll(o: Originals, s: Service, ops: seq<Operation>): Service {
    if ops == [] then s else Perform(o, PerformAll(o, s, ops[..|ops| - 1]), ops[|ops| - 1])
  }

  const EMPTY := Service([], None, map[], map[])

  /** Every stored or cached message is the full replay of its original. */
  ghost predicate Exact(o: Originals, s: Service) {
    && ValidOriginals(o) && UniqueIds(s.events)
    && (s.list.Some? ==> Includes(s.list.value, s.events) && Includes(s.events, s.list.value))
    && (forall id | id in s.stored :: s.stored[id] == Project(o(id), s.events))
    && (forall id | id in s.cache :: id in s.stored && s.cache[id] == s.stored[id])
  }

  lemma UniqueIdsAreKeys(events: seq<Event>)
    requires UniqueIds(events)
    ensures Keyed(events)
  {
  }

  lemma ReprojectionIsReplay(o: Originals, id: Id, small: seq<Event>, list: seq<Event>, events: seq<Event>)
    requires UniqueIds(events) && Includes(events, small) && Includes(list, events) && Includes(events, list)
    ensures Project(Project(o(id), small), list) == Project(o(id), events)
  {
    hide Project;
    UniqueIdsAreKeys(events);
    UniqueIdsAreKeys(list);
    SupersetAbsorbs(o(id), small, list);
    OrderIsIrrelevant(o(id), events, list);
  }

  lemma KeepsSigned(m: Message, events: seq<Event>)
    ensures Project(m, events).signed == m.signed
  {
    ProjectIsLastWriter(m, events, ReplyTo);
  }

  lemma SaveExactProjection(o: Originals, s: Service, id: Id)
    requires Exact(o, s)
    ensures Exact(o, SaveProjection(s, Project(o(id), s.events)))
  {
    hide Project;
    KeepsSigned(o(id), s.events);
  }

  /** Saving an event leaves the messages it does not target exact. */
  lemma SaveEventKeepsOthers(o: Originals, s: Service, e: Event)
    requires Exact(o, s)
    ensures var s' := SaveEvent(s, e);
      && UniqueIds(s'.events) && Includes(s'.events, s.events)
      && forall id | id in s.stored && id != e.target :: s.stored[id] == Project(o(id), s'.events)
  {
    hide Project;
    if !HasId(s.events, e.id) {
      var events := s.events + [e];
      assert UniqueIds(events);
      UniqueIdsAreKeys(events);
      forall id | id in s.stored && id != e.target ensures s.stored[id] == Project(o(id), events) {
        IdleEvent(o(id), s.events, e);
      }
    }
  }

  lemma ListFollows(s: Service, e: Event)
    requires UniqueIds(s.events) && (s.list.Some? ==> Includes(s.list.value, s.events) && Includes(s.events, s.list.value))
    ensures var s' := PushEvent(EnsureList(SaveEvent(s, e)), e);
      && s' == SaveEvent(s, e).(list := s'.list) && s'.list.Some?
      && Includes(s'.list.value, s'.events) && Includes(s'.events, s'.list.value)
  {
    hide Sort;
    var saved := SaveEvent(s, e);
    var s1 := EnsureList(saved);
    SortKeeps(s1.list.value + [e]);
    assert s.list.Some? ==> (HasId(s.list.value, e.id) <==> HasId(s.events, e.id));
  }

  /** `Exact`, but perhaps for the message `id`. */
  ghost predicate ExactBut(o: Originals, s: Service, id: Id) {
    && ValidOriginals(o) && UniqueIds(s.events)
    && s.list.Some? && Includes(s.list.value, s.events) && Includes(s.events, s.list.value)
    && (forall i | i in s.stored && i != id :: s.stored[i] == Project(o(i), s.events))
    && (forall i | i in s.cache && i != id :: i in s.stored && s.cache[i] == s.stored[i])
    && (id in s.stored ==> s.stored[id].signed == o(id).signed)
  }

  lemma SavedIsExact(o: Originals, s: Service, id: Id, p: Message)
    requires ExactBut(o, s, id) && p == Project(o(id), s.events)
    ensures Exact(o, SaveProjection(s, p))
  {
    KeepsSigned(o(id), s.events);
    hide Project;
  }

  lemma EventReadied(o: Originals, s: Service, e: Event)
    requires Exact(o, s)
    ensures var s' := PushEvent(EnsureList(SaveEvent(s, e)), e);
      && ExactBut(o, s', e.target) && Existing(s', e.target) == Existing(s, e.target) && Includes(s'.events, s.events)
      && (Existing(s, e.target).None? ==> Exact(o, s'))
  {
    hide Project, SaveEvent, PushEvent, EnsureList;
    SaveEventKeepsOthers(o, s, e);
    ListFollows(s, e);
    SaveEventFrame(s, e);
    KeepsSigned(o(e.target), s.events);
  }

  lemma PersistEventKeepsExact(o: Originals, s: Service, e: Event)
    requires Exact(o, s)
    ensures Exact(o, Perform(o, s, PersistEvent(e)))
  {
    EventReadied(o, s, e);
    var s' := PushEvent(EnsureList(SaveEvent(s, e)), e);
    hide SaveEvent, PushEvent, EnsureList, SaveProjection;
    var m := Existing(s', e.target);
    if m.Some? {
      assert m.value == Project(o(e.target), s.events);
      hide Project;
      ReprojectionIsReplay(o, e.target, s.events, s'.list.value, s'.events);
      SavedIsExact(o, s', e.target, Project(m.value, s'.list.value));
    }
    hide Exact, ExactBut;
  }

  lemma SaveEventFrame(s: Service, e: Event)
    ensures SaveEvent(s, e).stored == s.stored && SaveEvent(s, e).cache == s.cache && SaveEvent(s, e).list == s.list
  {
  }

  lemma PersistKeepsExact(o: Originals, s: Service, id: Id)
    requires Exact(o, s)
    ensures Exact(o, Perform(o, s, Persist(id)))
  {
    hide Project;
    var s' := EnsureList(s);
    var m := Existing(s', id);
    if m.Some? {
      KeepsSigned(o(id), s.events);
      assert m.value == Project(o(id), s.events) && m.value.(signed := o(id).signed) == m.value;
      ReprojectionIsReplay(o, id, s.events, s'.list.value, s.events);
    } else {
      ReprojectionIsReplay(o, id, [], s'.list.value, s.events);
    }
    SaveExactProjection(o, s', id);
  }

  lemma PerformKeepsExact(o: Originals, s: Service, op: Operation)
    requires Exact(o, s)
    ensures Exact(o, Perform(o, s, op))
  {
    hide Project;
    match op
    case PersistEvent(e) => PersistEventKeepsExact(o, s, e);
    case Persist(id) => PersistKeepsExact(o, s, id);
    case History(id) => ReprojectionIsReplay(o, id, s.events, EnsureList(s).list.value, s.events);
    case Find(id) => ReprojectionIsReplay(o, id, s.events, EnsureList(s).list.value, s.events);
    case ResetSession =>
  }

  /** Incremental projection equals full replay, for every arrival order of messages and events. */
  lemma {:induction false} IncrementalIsReplay(o: Originals, ops: seq<Operation>)
    requires ValidOriginals(o)
    ensures var s := PerformAll(o, EMPTY, ops);
      && (forall id | id in s.stored :: s.stored[id] == Project(o(id), s.events))
      && (forall id | id in s.cache :: id in s.stored && s.cache[id] == Project(o(id), s.events))
  {
    PerformAllKeepsExact(o, ops);
  }

  /** And nothing is forgotten: every message that was persisted is stored, and every event's id is known. */
  lemma {:induction false} NothingIsForgotten(o: Originals, ops: seq<Operation>)
    requires ValidOriginals(o)
    ensures var s := PerformAll(o, EMPTY, ops);
      && (forall k | 0 <= k < |ops| && ops[k].Persist? :: ops[k].id in s.stored)
      && (forall k | 0 <= k < |ops| && ops[k].PersistEvent? :: HasId(s.events, ops[k].e.id))
  {
    hide Perform, HasId, Project;
    if ops != [] {
      var front := ops[..|ops| - 1];
      NothingIsForgotten(o, front);
      OperationKeeps(o, PerformAll(o, EMPTY, front), ops[|ops| - 1]);
      assert forall k | 0 <= k < |front| :: front[k] == ops[k];
    }
  }

  lemma OperationKeeps(o: Originals, s: Service, op: Operation)
    requires ValidOriginals(o)
    ensures var s' := Perform(o, s, op);
      && s.stored.Keys <= s'.stored.Keys && (op.Persist? ==> op.id in s'.stored)
      && (forall id | HasId(s.events, id) :: HasId(s'.events, id)) && (op.PersistEvent? ==> HasId(s'.events, op.e.id))
  {
    hide Project, Sort;
    match op
    case PersistEvent(e) =>
      var saved := SaveEvent(s, e);
      assert e in saved.events || HasId(s.events, e.id);
      forall id | HasId(s.events, id) ensures HasId(saved.events, id) {
        var f :| f in s.events && f.id == id;
        assert f in saved.events;
      }
    case Persist(id) =>
      var s' := EnsureList(s);
      var m := Existing(s', id);
      KeepsSigned(if m.Some? then m.value.(signed := o(id).signed) else o(id), s'.list.value);
    case _ =>
  }

  lemma {:induction false} PerformAllKeepsExact(o: Originals, ops: seq<Operation>)
    requires ValidOriginals(o)
    ensures Exact(o, PerformAll(o, EMPTY, ops))
  {
    if ops != [] {
      PerformAllKeepsExact(o, ops[..|ops| - 1]);
      PerformKeepsExact(o, PerformAll(o, EMPTY, ops[..|ops| - 1]), ops[|ops| - 1]);
    }
  }

  // ---- The class ----

  // ---- What is where after each operation ----

  predicate IsFound(s: Service, id: Id) { id in s.cache || id in s.stored }

  lemma EventFrame(s: Service, e: Event)
    ensures var s' := PushEvent(EnsureList(SaveEvent(s, e)), e); s'.stored == s.stored && s'.cache == s.cache
  {
    hide Sort;
  }

  lemma SaveKeys()
    ensures forall v: Service, p: Message ::
      SaveProjection(v, p).stored.Keys == v.stored.Keys + {p.signed.id} && SaveProjection(v, p).cache.Keys == v.cache.Keys + {p.signed.id}
  {
  }

  lemma FoundHasId(o: Originals, s: Service, id: Id)
    requires Exact(o, s)
    ensures Existing(s, id).Some? ==> Existing(s, id).value.signed.id == id
    ensures forall m: Message, events :: Project(m, events).signed == m.signed
  {
    forall m: Message, events ensures Project(m, events).signed == m.signed { KeepsSigned(m, events); }
    hide Project;
    if Existing(s, id).Some? { assert s.stored[id] == Project(o(id), s.events); }
  }

  lemma KeysAfterEvent(o: Originals, s: Service, e: Event)
    requires Exact(o, s)
    ensures var v, mine := Perform(o, s, PersistEvent(e)), if IsFound(s, e.target) then {e.target} else {};
      v.stored.Keys == s.stored.Keys + mine && v.cache.Keys == s.cache.Keys + mine
  {
    FoundHasId(o, s, e.target);
    EventFrame(s, e);
    SaveKeys();
    var s' := PushEvent(EnsureList(SaveEvent(s, e)), e);
    hide Project, SaveProjection, Exact, PushEvent, SaveEvent, EnsureList;
    assert Existing(s', e.target) == Existing(s, e.target);
    assert Perform(o, s, PersistEvent(e)) == if Existing(s, e.target).None? then s' else SaveProjection(s', Project(Existing(s, e.target).value, s'.list.value));
  }

  lemma KeysAfterPersist(o: Originals, s: Service, id: Id)
    requires Exact(o, s)
    ensures var v := Perform(o, s, Persist(id)); v.stored.Keys == s.stored.Keys + {id} && v.cache.Keys == s.cache.Keys + {id}
  {
    FoundHasId(o, s, id);
    SaveKeys();
    hide Project, Sort, SaveProjection;
  }

  lemma StoredExactlyWhen(o: Originals, s: Service, op: Operation, id: Id)
    requires Exact(o, s)
    ensures id in Perform(o, s, op).stored <==> id in s.stored || op == Persist(id) || (op.PersistEvent? && op.e.target == id && IsFound(s, id))
  {
    match op
    case PersistEvent(e) => KeysAfterEvent(o, s, e); hide Perform;
    case Persist(i) => KeysAfterPersist(o, s, i); hide Perform;
    case _ => hide Project;
  }

  /** Whatever was asked for is in the cache afterwards, until the session is reset. */
  lemma CachedExactlyWhen(o: Originals, s: Service, op: Operation, id: Id)
    requires Exact(o, s)
    ensures id in Perform(o, s, op).cache
       <==> || (id in s.cache && !op.ResetSession?) || op == Persist(id) || (op.PersistEvent? && op.e.target == id && IsFound(s, id))
            || ((op == History(id) || op == Find(id)) && id in s.stored)
  {
    match op
    case PersistEvent(e) => KeysAfterEvent(o, s, e); hide Perform;
    case Persist(i) => KeysAfterPersist(o, s, i); hide Perform;
    case _ => hide Project;
  }

  /** The table of events grows by new ones only; the list is read once in a session and follows it. */
  lemma EventsExactly(o: Originals, s: Service, op: Operation)
    ensures Perform(o, s, op).events == if op.PersistEvent? && !HasId(s.events, op.e.id) then s.events + [op.e] else s.events
    ensures op.ResetSession? ==> Perform(o, s, op).list.None? && Perform(o, s, op).stored == s.stored
    ensures s.list.Some? && !op.ResetSession? && !op.PersistEvent? ==> Perform(o, s, op).list == s.list
  {
    hide Project;
  }

  /** A row that exists keeps its signed columns, whatever is saved over it, and takes the other ones. */
  lemma SignedColumnsStay(stored: map<Id, Message>, p: Message)
    requires p.signed.id in stored
    ensures var row := Upsert(stored, p)[p.signed.id]; row.signed == stored[p.signed.id].signed && row == p.(signed := row.signed)
  {
  }

  /** The service with nothing in flight; `savedEvents` and `savedMessages` stand for the database. */
  class MessageService {
    ghost const o: Originals
    var savedEvents: seq<Event>
    var savedMessages: map<Id, Message>
    var projectionEvents: Option<seq<Event>>
    var messageCache: map<Id, Message>

    constructor (ghost o: Originals)
      requires ValidOriginals(o)
      ensures Valid() && this.o == o && View() == EMPTY
    {
      this.o := o;
      savedEvents, savedMessages, projectionEvents, messageCache := [], map[], None, map[];
    }

    ghost function View(): Service
      reads this
    {
      Service(savedEvents, projectionEvents, savedMessages, messageCache)
    }

    ghost predicate Valid()
      reads this
    {
      Exact(o, View())
    }

    method LoadProjectionEvents() returns (list: seq<Event>)
      requires Valid()
      modifies this`projectionEvents
      ensures Valid() && View() == EnsureList(old(View())) && projectionEvents == Some(list) && Keyed(list)
    {
      if projectionEvents.None? { projectionEvents := Some(savedEvents); }
      list := projectionEvents.value;
      UniqueIdsAreKeys(list);
    }

    method PersistEventNow(e: Event)
      requires Valid()
      modifies this
      ensures Valid() && View() == Perform(o, old(View()), PersistEvent(e))
      ensures e.target in savedMessages ==> savedMessages[e.target] == Project(o(e.target), savedEvents)
    {
      hide Project, Sort;
      ghost var before := View();
      PersistEventKeepsExact(o, before, e);
      SaveEventKeepsOthers(o, before, e);
      ListFollows(before, e);
      if !HasId(savedEvents, e.id) { savedEvents := savedEvents + [e]; }
      var list := if projectionEvents.Some? then projectionEvents.value else savedEvents;
      if !HasId(list, e.id) { list := SortEvents(list + [e]); }
      projectionEvents := Some(list);
      assert View() == PushEvent(EnsureList(SaveEvent(before, e)), e);
      UniqueIdsAreKeys(list);
      if e.target !in messageCache && e.target !in savedMessages { return; }
      var message := if e.target in messageCache then messageCache[e.target] else savedMessages[e.target];
      var projected := ProjectMessage(message, list);
      savedMessages := Upsert(savedMessages, projected);
      messageCache := messageCache[projected.signed.id := projected];
    }

    /** `original` is the signed message that arrived. */
    method PersistMessage(original: Message) returns (projected: Message)
      requires Valid() && original == o(original.signed.id)
      modifies this
      ensures Valid() && View() == Perform(o, old(View()), Persist(original.signed.id))
      ensures projected == Project(original, savedEvents)
    {
      hide Project;
      ghost var before := View();
      var id := original.signed.id;
      PersistKeepsExact(o, before, id);
      var base := original;
      if id in messageCache || id in savedMessages {
        var existing := if id in messageCache then messageCache[id] else savedMessages[id];
        base := Message(original.signed, existing.replyTo, existing.editedContent, existing.editedAt, existing.deletedAt,
                        existing.pinnedAt, existing.pinnedBy, existing.reactions);
      }
      var list := LoadProjectionEvents();
      projected := ProjectMessage(base, list);
      savedMessages := Upsert(savedMessages, projected);
      messageCache := messageCache[projected.signed.id := projected];
      KeepsSigned(base, list);
      assert View() == Perform(o, before, Persist(id));
      assert messageCache[id] == projected;
    }

    method FindMessage(id: Id) returns (found: Option<Message>)
      requires Valid()
      modifies this
      ensures Valid() && View() == Perform(o, old(View()), Find(id))
      ensures found == if id in savedMessages then Some(Project(o(id), savedEvents)) else None
    {
      hide Project;
      PerformKeepsExact(o, View(), Find(id));
      if id in messageCache { return Some(messageCache[id]); }
      if id !in savedMessages { return None; }
      var list := LoadProjectionEvents();
      var projected := ProjectMessage(savedMessages[id], list);
      messageCache := messageCache[id := projected];
      found := Some(projected);
      assert messageCache[id] == projected;
    }
  }
}

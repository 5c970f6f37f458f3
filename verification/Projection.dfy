/** `projectMessage`: signed events folded over a stored message. */
module Projection {
  import opened Common

  type Peer = nat
  type Id = nat
  type Emoji = nat
  type Text = seq<nat>

  /** A `Date` keeps whole milliseconds: it cuts the fraction off. */
  function Clip(timestamp: real): int {
    if timestamp >= 0.0 then timestamp.Floor else -((-timestamp).Floor)
  }

  datatype Action =
    | Reply(reference: Option<Id>)
    | Edit(content: Option<Text>)
    | Delete
    | Pin
    | Unpin
    | React(emoji: Emoji)
    | Unreact(emoji: Emoji)

  datatype Event = Event(timestamp: real, id: Id, target: Id, actor: Peer, action: Action)

  /** The signed part of a message is fixed; the other fields are projected.  Absent and null are the same. */
  datatype Message = Message(
    signed: Signed,
    replyTo: Option<Id>,
    editedContent: Option<Text>,
    editedAt: Option<int>,
    deletedAt: Option<int>,
    pinnedAt: Option<int>,
    pinnedBy: Option<Peer>,
    reactions: map<Emoji, set<Peer>>)

  datatype Signed = Signed(channel: Id, id: Id, author: Text, content: Text, createdAt: int, authorPeer: Option<Peer>, signature: Option<Text>)

  // ---- The fold ----

  predicate Precedes(a: Event, b: Event) { a.timestamp < b.timestamp || (a.timestamp == b.timestamp && a.id < b.id) }

  /** Whether the event takes effect on this message at all. */
  predicate Applies(s: Signed, e: Event) {
    && e.target == s.id
    && (e.action.Reply? || e.action.Edit? || e.action.Delete? ==> s.authorPeer == Some(e.actor))
  }

  function ReactionsOf(m: Message, emoji: Emoji): set<Peer> { if emoji in m.reactions then m.reactions[emoji] else {} }

  /** One turn of the loop; events of other messages were filtered out before it. */
  function Step(m: Message, e: Event): Message {
    if !Applies(m.signed, e) then m
    else
      var at := Some(Clip(e.timestamp));
      match e.action
      case Reply(reference) => m.(replyTo := reference)
      case Edit(content) => m.(editedContent := content, editedAt := at)
      case Delete => m.(deletedAt := at)
      case Pin => m.(pinnedAt := at, pinnedBy := Some(e.actor))
      case Unpin => m.(pinnedAt := None, pinnedBy := None)
      case React(emoji) => m.(reactions := m.reactions[emoji := ReactionsOf(m, emoji) + {e.actor}])
      case Unreact(emoji) => if emoji in m.reactions then m.(reactions := m.reactions[emoji := m.reactions[emoji] - {e.actor}]) else m
  }

  function Replay(m: Message, events: seq<Event>): Message {
    if events == [] then m else Step(Replay(m, events[..|events| - 1]), events[|events| - 1])
  }

  /** `sort(compareEvents)`. */
  function Insert(s: seq<Event>, e: Event): seq<Event> {
    if s == [] || !Precedes(e, s[|s| - 1]) then s + [e] else Insert(s[..|s| - 1], e) + [s[|s| - 1]]
  }

  function Sort(s: seq<Event>): seq<Event> { if s == [] then [] else Insert(Sort(s[..|s| - 1]), s[|s| - 1]) }

  /** Emojis without peers are dropped. */
  function Tidy(m: Message): Message { m.(reactions := map k | k in m.reactions && m.reactions[k] != {} :: m.reactions[k]) }

  function Project(m: Message, events: seq<Event>): Message { Tidy(Replay(m, Sort(events))) }

  // ---- Sorting ----

  predicate Ascending(s: seq<Event>) { forall j, k | 0 <= j < k < |s| :: !Precedes(s[k], s[j]) }

  lemma NotAfterIsTransitive(a: Event, b: Event, c: Event)
    ensures !Precedes(b, a) && !Precedes(c, b) ==> !Precedes(c, a)
    ensures !Precedes(a, a)
  {
  }

  lemma {:induction false} InsertKeeps(s: seq<Event>, e: Event)
    ensures multiset(Insert(s, e)) == multiset(s) + multiset{e}
  {
    hide Precedes;
    if s != [] && Precedes(e, s[|s| - 1]) {
      InsertKeeps(s[..|s| - 1], e);
      assert s == s[..|s| - 1] + [s[|s| - 1]];
    }
  }

  lemma AppendAscends(s: seq<Event>, e: Event)
    requires Ascending(s) && forall k | 0 <= k < |s| :: !Precedes(e, s[k])
    ensures Ascending(s + [e])
  {
  }

  lemma {:induction false} InsertSorts(s: seq<Event>, e: Event)
    requires Ascending(s)
    ensures Ascending(Insert(s, e))
  {
    hide Precedes;
    if s != [] && Precedes(e, s[|s| - 1]) {
      var front, last := s[..|s| - 1], s[|s| - 1];
      InsertSorts(front, e);
      InsertKeeps(front, e);
      PrecedesIsAsymmetric(e, last);
      var r := Insert(front, e);
      forall k | 0 <= k < |r| ensures !Precedes(last, r[k]) {
        assert r[k] in multiset(r);
        assert r[k] in front || r[k] == e;
      }
      AppendAscends(r, last);
    } else {
      forall k | 0 <= k < |s| ensures !Precedes(e, s[k]) { NotAfterIsTransitive(s[k], s[|s| - 1], e); }
      AppendAscends(s, e);
    }
  }

  lemma {:induction false} SortSorts(s: seq<Event>)
    ensures Ascending(Sort(s)) && multiset(Sort(s)) == multiset(s)
  {
    if s != [] {
      SortSorts(s[..|s| - 1]);
      InsertSorts(Sort(s[..|s| - 1]), s[|s| - 1]);
      InsertKeeps(Sort(s[..|s| - 1]), s[|s| - 1]);
      assert s == s[..|s| - 1] + [s[|s| - 1]];
    }
  }

  lemma SortKeeps(s: seq<Event>)
    ensures Ascending(Sort(s)) && forall e :: e in Sort(s) <==> e in s
  {
    SortSorts(s);
    assert forall e :: e in Sort(s) <==> e in multiset(Sort(s));
  }

  // ---- The reference: last-writer-wins registers ----

  /** What an event can write.  Each event writes exactly one register. */
  datatype Register = ReplyTo | Edited | Deleted | Pinned | Reaction(emoji: Emoji, peer: Peer)

  datatype Value =
    | ReplyValue(to: Option<Id>)
    | EditValue(content: Option<Text>, at: Option<int>)
    | DeleteValue(at: Option<int>)
    | PinValue(at: Option<int>, pinner: Option<Peer>)
    | Reacted(on: bool)

  function RegisterOf(e: Event): Register {
    match e.action
    case Reply(_) => ReplyTo
    case Edit(_) => Edited
    case Delete => Deleted
    case Pin => Pinned
    case Unpin => Pinned
    case React(emoji) => Reaction(emoji, e.actor)
    case Unreact(emoji) => Reaction(emoji, e.actor)
  }

  function Written(e: Event): Value {
    match e.action
    case Reply(reference) => ReplyValue(reference)
    case Edit(content) => EditValue(content, Some(Clip(e.timestamp)))
    case Delete => DeleteValue(Some(Clip(e.timestamp)))
    case Pin => PinValue(Some(Clip(e.timestamp)), Some(e.actor))
    case Unpin => PinValue(None, None)
    case React(_) => Reacted(true)
    case Unreact(_) => Reacted(false)
  }

  function Read(m: Message, r: Register): Value {
    match r
    case ReplyTo => ReplyValue(m.replyTo)
    case Edited => EditValue(m.editedContent, m.editedAt)
    case Deleted => DeleteValue(m.deletedAt)
    case Pinned => PinValue(m.pinnedAt, m.pinnedBy)
    case Reaction(emoji, peer) => Reacted(peer in ReactionsOf(m, emoji))
  }

  predicate Writes(s: Signed, e: Event, r: Register) { Applies(s, e) && RegisterOf(e) == r }

  /** No write to `r` in `events` comes after `e`. */
  ghost predicate IsLast(s: Signed, events: seq<Event>, r: Register, e: Event) {
    e in events && Writes(s, e, r) && forall f | f in events && Writes(s, f, r) :: !Precedes(e, f)
  }

  ghost predicate NoWrite(s: Signed, events: seq<Event>, r: Register) { forall f | f in events :: !Writes(s, f, r) }

  /** The value of register `r` after `events`: that of the last write, or the initial one. */
  ghost predicate IsValue(m: Message, events: seq<Event>, r: Register, v: Value) {
    || (NoWrite(m.signed, events, r) && v == Read(m, r))
    || exists e :: IsLast(m.signed, events, r, e) && v == Written(e)
  }

  /** One event id, one event. */
  predicate Keyed(events: seq<Event>) {
    forall e, f | e in events && f in events && e.timestamp == f.timestamp && e.id == f.id :: e == f
  }

  lemma StepWrites(m: Message, e: Event, r: Register)
    ensures Step(m, e).signed == m.signed
    ensures Read(Step(m, e), r) == if Writes(m.signed, e, r) then Written(e) else Read(m, r)
  {
  }

  lemma {:induction false} ReplayIsLastWriter(m: Message, events: seq<Event>, r: Register)
    requires Ascending(events)
    ensures Replay(m, events).signed == m.signed && IsValue(m, events, r, Read(Replay(m, events), r))
  {
    if events != [] {
      var front, last := events[..|events| - 1], events[|events| - 1];
      assert events == front + [last];
      ReplayIsLastWriter(m, front, r);
      StepWrites(Replay(m, front), last, r);
      var v := Read(Replay(m, front), r);
      if Writes(m.signed, last, r) {
        assert IsLast(m.signed, events, r, last);
      } else if !NoWrite(m.signed, front, r) {
        var e :| IsLast(m.signed, front, r, e) && v == Written(e);
        assert IsLast(m.signed, events, r, e);
      }
    }
  }

  lemma TidyReads(m: Message, r: Register)
    ensures Read(Tidy(m), r) == Read(m, r)
  {
  }

  /** `projectMessage` computes last-writer-wins registers, whatever the order of its event list. */
  lemma ProjectIsLastWriter(m: Message, events: seq<Event>, r: Register)
    ensures Project(m, events).signed == m.signed && IsValue(m, events, r, Read(Project(m, events), r))
  {
    hide Sort, Tidy, Read;
    SortKeeps(events);
    ReplayIsLastWriter(m, Sort(events), r);
    TidyReads(Replay(m, Sort(events)), r);
    assert Tidy(Replay(m, Sort(events))).signed == Replay(m, Sort(events)).signed by { TidyKeepsSigned(Replay(m, Sort(events))); }
    var v := Read(Project(m, events), r);
    assert IsValue(m, Sort(events), r, v);
    if !NoWrite(m.signed, Sort(events), r) {
      var e :| IsLast(m.signed, Sort(events), r, e) && v == Written(e);
      assert IsLast(m.signed, events, r, e);
    }
  }

  lemma TidyKeepsSigned(m: Message)
    ensures Tidy(m).signed == m.signed
  {
  }

  predicate IsTidy(m: Message) { forall k | k in m.reactions :: m.reactions[k] != {} }

  /** Tidy messages with equal registers are equal. */
  lemma RegistersDetermine(a: Message, b: Message)
    requires a.signed == b.signed && IsTidy(a) && IsTidy(b)
    requires forall r :: Read(a, r) == Read(b, r)
    ensures a == b
  {
    assert Read(a, ReplyTo) == Read(b, ReplyTo) && Read(a, Edited) == Read(b, Edited);
    assert Read(a, Deleted) == Read(b, Deleted) && Read(a, Pinned) == Read(b, Pinned);
    forall k: Emoji
      ensures ReactionsOf(a, k) == ReactionsOf(b, k)
    {
      forall p: Peer
        ensures p in ReactionsOf(a, k) <==> p in ReactionsOf(b, k)
      {
        assert Read(a, Reaction(k, p)) == Read(b, Reaction(k, p));
      }
    }
    forall k: Emoji
      ensures k in a.reactions <==> k in b.reactions
      ensures k in a.reactions ==> a.reactions[k] == b.reactions[k]
    {
      assert ReactionsOf(a, k) == ReactionsOf(b, k);
    }
    assert a.reactions == b.reactions;
  }

  lemma ValueIsUnique(m: Message, events: seq<Event>, r: Register, v: Value, w: Value)
    requires Keyed(events) && IsValue(m, events, r, v) && IsValue(m, events, r, w)
    ensures v == w
  {
    if !NoWrite(m.signed, events, r) {
      var e :| IsLast(m.signed, events, r, e) && v == Written(e);
      var f :| IsLast(m.signed, events, r, f) && w == Written(f);
    }
  }

  // ---- Confluence ----

  predicate Includes(big: seq<Event>, small: seq<Event>) { forall e | e in small :: e in big }

  lemma ProjectTidy(m: Message, events: seq<Event>)
    ensures IsTidy(Project(m, events))
  {
  }

  /** A projection is determined by its register values. */
  lemma ProjectionsMeet(m: Message, events: seq<Event>, other: Message)
    requires Keyed(events) && other.signed == m.signed && IsTidy(other)
    requires forall r :: IsValue(m, events, r, Read(other, r))
    ensures Project(m, events) == other
  {
    hide Project, Read, IsValue, Keyed, IsTidy;
    ProjectTidy(m, events);
    forall r ensures Read(Project(m, events), r) == Read(other, r) {
      ProjectIsLastWriter(m, events, r);
      ValueIsUnique(m, events, r, Read(Project(m, events), r), Read(other, r));
    }
    ProjectIsLastWriter(m, events, ReplyTo);
    RegistersDetermine(Project(m, events), other);
  }

  /** Values of a second projection over a first one. */
  lemma SecondValue(m: Message, a: seq<Event>, b: seq<Event>, union: seq<Event>, r: Register)
    requires Includes(union, a) && Includes(union, b) && (forall e | e in union :: e in a || e in b)
    requires Keyed(union) && forall e, f | e in a && e !in b && f in b :: Precedes(e, f)
    ensures IsValue(m, union, r, Read(Project(Project(m, a), b), r))
  {
    hide Project, Read, Precedes;
    var first := Project(m, a);
    var v := Read(Project(first, b), r);
    ProjectIsLastWriter(m, a, r);
    ProjectIsLastWriter(first, b, r);
    if NoWrite(m.signed, b, r) {
      if NoWrite(m.signed, a, r) {
        assert NoWrite(m.signed, union, r);
      } else {
        var e :| IsLast(m.signed, a, r, e) && v == Written(e);
        assert IsLast(m.signed, union, r, e);
      }
    } else {
      var e :| IsLast(m.signed, b, r, e) && v == Written(e);
      forall f | f in union && Writes(m.signed, f, r) ensures !Precedes(e, f) {
        if f !in b { PrecedesIsAsymmetric(f, e); }
      }
      assert IsLast(m.signed, union, r, e);
    }
  }

  lemma PrecedesIsAsymmetric(a: Event, b: Event)
    ensures !(Precedes(a, b) && Precedes(b, a))
  {
  }

  /** Projecting with A and then B is projecting with both, when what B lacks is older than B. */
  lemma LaterEventsCompose(m: Message, a: seq<Event>, b: seq<Event>)
    requires Keyed(a + b) && forall e, f | e in a && e !in b && f in b :: Precedes(e, f)
    ensures Project(Project(m, a), b) == Project(m, a + b)
  {
    hide Project, Read, Precedes, IsValue;
    forall r ensures IsValue(m, a + b, r, Read(Project(Project(m, a), b), r)) { SecondValue(m, a, b, a + b, r); }
    Finish(m, a, b, a + b);
  }

  /** A stored projection re-projected with a larger list is the full replay. */
  lemma SupersetAbsorbs(m: Message, a: seq<Event>, b: seq<Event>)
    requires Keyed(b) && Includes(b, a)
    ensures Project(Project(m, a), b) == Project(m, b)
  {
    hide Project, Read, Precedes, IsValue;
    forall r ensures IsValue(m, b, r, Read(Project(Project(m, a), b), r)) { SecondValue(m, a, b, b, r); }
    Finish(m, a, b, b);
  }

  lemma Finish(m: Message, a: seq<Event>, b: seq<Event>, union: seq<Event>)
    requires Keyed(union) && forall r :: IsValue(m, union, r, Read(Project(Project(m, a), b), r))
    ensures Project(m, union) == Project(Project(m, a), b)
  {
    hide Project, Read, IsValue, Keyed;
    ProjectTidy(Project(m, a), b);
    ProjectIsLastWriter(m, a, ReplyTo);
    ProjectIsLastWriter(Project(m, a), b, ReplyTo);
    ProjectionsMeet(m, union, Project(Project(m, a), b));
  }

  /** Only the set of events matters. */
  lemma OrderIsIrrelevant(m: Message, a: seq<Event>, b: seq<Event>)
    requires Keyed(a) && Includes(a, b) && Includes(b, a)
    ensures Project(m, a) == Project(m, b)
  {
    hide Project, Read, Precedes;
    forall r ensures IsValue(m, a, r, Read(Project(m, b), r)) {
      ProjectIsLastWriter(m, b, r);
      if !NoWrite(m.signed, b, r) {
        var e :| IsLast(m.signed, b, r, e) && Read(Project(m, b), r) == Written(e);
        assert IsLast(m.signed, a, r, e);
      }
    }
    ProjectTidy(m, b);
    ProjectIsLastWriter(m, b, ReplyTo);
    ProjectionsMeet(m, a, Project(m, b));
  }

  // ---- Single events ----

  /** An event for another message, or by the wrong author, changes nothing. */
  lemma IdleEvent(m: Message, events: seq<Event>, e: Event)
    requires Keyed(events + [e]) && !Applies(m.signed, e)
    ensures Project(m, events + [e]) == Project(m, events)
  {
    hide Project, Read, Precedes;
    forall r ensures IsValue(m, events + [e], r, Read(Project(m, events), r)) {
      ProjectIsLastWriter(m, events, r);
      if !NoWrite(m.signed, events, r) {
        var f :| IsLast(m.signed, events, r, f) && Read(Project(m, events), r) == Written(f);
        assert IsLast(m.signed, events + [e], r, f);
      }
    }
    ProjectTidy(m, events);
    ProjectIsLastWriter(m, events, ReplyTo);
    ProjectionsMeet(m, events + [e], Project(m, events));
  }

  ghost predicate Overwritten(s: Signed, events: seq<Event>, e: Event) {
    exists f :: f in events && Writes(s, f, RegisterOf(e)) && Precedes(e, f)
  }

  lemma NewValue(m: Message, events: seq<Event>, e: Event)
    requires Keyed(events + [e]) && Applies(m.signed, e)
    ensures var r := RegisterOf(e);
      Read(Project(m, events + [e]), r) == if Overwritten(m.signed, events, e) then Read(Project(m, events), r) else Written(e)
  {
    hide Project, Read;
    var r := RegisterOf(e);
    var v := Read(Project(m, events), r);
    ProjectIsLastWriter(m, events + [e], r);
    ProjectIsLastWriter(m, events, r);
    if Overwritten(m.signed, events, e) {
      var f :| IsLast(m.signed, events, r, f) && v == Written(f);
      var g :| g in events && Writes(m.signed, g, r) && Precedes(e, g);
      assert IsLast(m.signed, events + [e], r, f);
      assert IsValue(m, events + [e], r, v);
      ValueIsUnique(m, events + [e], r, v, Read(Project(m, events + [e]), r));
    } else {
      assert IsLast(m.signed, events + [e], r, e);
      assert IsValue(m, events + [e], r, Written(e));
      ValueIsUnique(m, events + [e], r, Written(e), Read(Project(m, events + [e]), r));
    }
  }

  lemma OtherValues(m: Message, events: seq<Event>, e: Event, r: Register)
    requires Keyed(events + [e]) && r != RegisterOf(e)
    ensures Read(Project(m, events + [e]), r) == Read(Project(m, events), r)
  {
    hide Project, Read, Precedes;
    var v := Read(Project(m, events), r);
    ProjectIsLastWriter(m, events, r);
    ProjectIsLastWriter(m, events + [e], r);
    if !NoWrite(m.signed, events, r) {
      var f :| IsLast(m.signed, events, r, f) && v == Written(f);
      assert IsLast(m.signed, events + [e], r, f);
    }
    ValueIsUnique(m, events + [e], r, v, Read(Project(m, events + [e]), r));
  }

  /** Missing one event shows exactly when it applies, no later write hides it, and it changes its register. */
  lemma MissedEventIsHarmlessExactlyWhen(m: Message, events: seq<Event>, e: Event)
    requires Keyed(events + [e])
    ensures Project(m, events + [e]) == Project(m, events) <==>
      || !Applies(m.signed, e)
      || Overwritten(m.signed, events, e)
      || Read(Project(m, events), RegisterOf(e)) == Written(e)
  {
    hide Project, Read, Overwritten, Keyed;
    if !Applies(m.signed, e) {
      IdleEvent(m, events, e);
    } else {
      NewValue(m, events, e);
      var r := RegisterOf(e);
      if Overwritten(m.signed, events, e) || Read(Project(m, events), r) == Written(e) {
        forall q ensures Read(Project(m, events + [e]), q) == Read(Project(m, events), q) {
          if q != r { OtherValues(m, events, e, q); }
        }
        ProjectTidy(m, events);
        ProjectTidy(m, events + [e]);
        ProjectIsLastWriter(m, events, r);
        ProjectIsLastWriter(m, events + [e], r);
        RegistersDetermine(Project(m, events + [e]), Project(m, events));
      }
    }
  }

  /**
    A projection of some of the events is the full one exactly when every register already reads what the last write among
    all of them put there.
  */
  lemma PartialIsFullExactlyWhen(m: Message, some: seq<Event>, all: seq<Event>)
    requires Keyed(all) && Includes(all, some)
    ensures Project(m, some) == Project(m, all) <==>
      forall r, e | IsLast(m.signed, all, r, e) :: Read(Project(m, some), r) == Written(e)
  {
    hide Project, Read, Precedes;
    if Project(m, some) == Project(m, all) {
      forall r, e | IsLast(m.signed, all, r, e) ensures Read(Project(m, some), r) == Written(e) {
        ProjectIsLastWriter(m, all, r);
        assert IsValue(m, all, r, Written(e));
        ValueIsUnique(m, all, r, Read(Project(m, all), r), Written(e));
      }
    }
    if forall r, e | IsLast(m.signed, all, r, e) :: Read(Project(m, some), r) == Written(e) {
      forall r ensures IsValue(m, all, r, Read(Project(m, some), r)) {
        ProjectIsLastWriter(m, all, r);
        ProjectIsLastWriter(m, some, r);
        if NoWrite(m.signed, all, r) {
          assert NoWrite(m.signed, some, r);
        } else {
          var e :| IsLast(m.signed, all, r, e) && Read(Project(m, all), r) == Written(e);
        }
      }
      ProjectTidy(m, some);
      ProjectIsLastWriter(m, some, ReplyTo);
      ProjectionsMeet(m, all, Project(m, some));
    }
  }

  // ---- Events of one message ----

  function Own(events: seq<Event>, id: Id): (mine: seq<Event>)
    ensures forall e :: e in mine <==> e in events && e.target == id
  {
    if events == [] then []
    else Own(events[..|events| - 1], id) + (if events[|events| - 1].target == id then [events[|events| - 1]] else [])
  }

  /** Lists that hold the same events for a message project it alike. */
  lemma SameOwnEvents(m: Message, a: seq<Event>, b: seq<Event>)
    requires Keyed(a) && Keyed(b) && forall e: Event | e.target == m.signed.id :: e in a <==> e in b
    ensures Project(m, a) == Project(m, b)
  {
    hide Project, Own;
    OwnEventsSuffice(m, a, Own(a, m.signed.id));
    OwnEventsSuffice(m, b, Own(b, m.signed.id));
    OrderIsIrrelevant(m, Own(a, m.signed.id), Own(b, m.signed.id));
  }

  /** A stored projection, projected again with a list that is complete for its message, is the full replay. */
  lemma CompleteListReplays(m: Message, some: seq<Event>, list: seq<Event>, all: seq<Event>)
    requires Keyed(all) && Includes(all, some) && Includes(all, list) && forall e | e in all && e.target == m.signed.id :: e in list
    ensures Project(Project(m, some), list) == Project(m, all)
  {
    hide Project, Own;
    var mine := Own(some, m.signed.id);
    assert Keyed(some) && Keyed(list);
    OwnEventsSuffice(m, some, mine);
    SupersetAbsorbs(m, mine, list);
    SameOwnEvents(m, list, all);
  }

  /** What remains of `a` after `b` has overwritten its registers. */
  ghost function Remaining(s: Signed, a: seq<Event>, b: seq<Event>): (rest: seq<Event>)
    ensures forall e :: e in rest <==> e in a && NoWrite(s, b, RegisterOf(e))
  {
    if a == [] then []
    else Remaining(s, a[..|a| - 1], b) + (if NoWrite(s, b, RegisterOf(a[|a| - 1])) then [a[|a| - 1]] else [])
  }

  /** Two projections in any order are always the projection of some of their events. */
  lemma AnyTwoCompose(m: Message, a: seq<Event>, b: seq<Event>)
    requires Keyed(a + b)
    ensures Project(Project(m, a), b) == Project(m, Remaining(m.signed, a, b) + b)
  {
    hide Project, Read, Precedes, Remaining;
    var c := Remaining(m.signed, a, b) + b;
    var first := Project(m, a);
    assert Keyed(c);
    forall r ensures IsValue(m, c, r, Read(Project(first, b), r)) {
      ProjectIsLastWriter(m, a, r);
      ProjectIsLastWriter(first, b, r);
      var v := Read(Project(first, b), r);
      if !NoWrite(m.signed, b, r) {
        var e :| IsLast(m.signed, b, r, e) && v == Written(e);
        assert IsLast(m.signed, c, r, e);
      } else if !NoWrite(m.signed, a, r) {
        var e :| IsLast(m.signed, a, r, e) && v == Written(e);
        assert IsLast(m.signed, c, r, e);
      }
    }
    Finish(m, a, b, c);
  }

  // ---- Field by field ----

  /** No event of that kind comes after `e`: later means a greater timestamp, or the same one and a greater id. */
  ghost predicate Latest(e: Event, events: seq<Event>, kind: Event -> bool) {
    && e in events && kind(e)
    && forall f | f in events && kind(f) :: f.timestamp < e.timestamp || (f.timestamp == e.timestamp && f.id <= e.id)
  }

  ghost predicate Never(events: seq<Event>, kind: Event -> bool) { forall e | e in events :: !kind(e) }

  /** An act on this message by the peer that signed it. */
  predicate ByAuthor(s: Signed, e: Event) { e.target == s.id && s.authorPeer.Some? && e.actor == s.authorPeer.value }

  lemma FieldValue(m: Message, events: seq<Event>, r: Register, kind: Event -> bool)
    requires Keyed(events) && forall e | e in events :: kind(e) <==> Writes(m.signed, e, r)
    ensures Never(events, kind) ==> Read(Project(m, events), r) == Read(m, r)
    ensures forall e | Latest(e, events, kind) :: Read(Project(m, events), r) == Written(e)
  {
    ProjectIsLastWriter(m, events, r);
    var v := Read(Project(m, events), r);
    forall e | Latest(e, events, kind) ensures v == Written(e) {
      var f :| IsLast(m.signed, events, r, f) && v == Written(f);
      assert f.timestamp == e.timestamp && f.id == e.id;
    }
    hide Project, Read, Written;
  }

  /** A message is deleted by its author and by nobody else, at the time of the latest such event. */
  lemma DeletedMeans(m: Message, events: seq<Event>)
    requires Keyed(events)
    ensures var deletes := (e: Event) => ByAuthor(m.signed, e) && e.action.Delete?; var p := Project(m, events);
      && (Never(events, deletes) ==> p.deletedAt == m.deletedAt)
      && forall e | Latest(e, events, deletes) :: p.deletedAt == Some(Clip(e.timestamp))
  {
    FieldValue(m, events, Deleted, (e: Event) => ByAuthor(m.signed, e) && e.action.Delete?);
  }

  /** So it is edited. */
  lemma EditedMeans(m: Message, events: seq<Event>)
    requires Keyed(events)
    ensures var edits := (e: Event) => ByAuthor(m.signed, e) && e.action.Edit?; var p := Project(m, events);
      && (Never(events, edits) ==> p.editedContent == m.editedContent && p.editedAt == m.editedAt)
      && forall e | Latest(e, events, edits) :: p.editedContent == e.action.content && p.editedAt == Some(Clip(e.timestamp))
  {
    FieldValue(m, events, Edited, (e: Event) => ByAuthor(m.signed, e) && e.action.Edit?);
  }

  /** And so it is made a reply. */
  lemma ReplyMeans(m: Message, events: seq<Event>)
    requires Keyed(events)
    ensures var replies := (e: Event) => ByAuthor(m.signed, e) && e.action.Reply?; var p := Project(m, events);
      && (Never(events, replies) ==> p.replyTo == m.replyTo)
      && forall e | Latest(e, events, replies) :: p.replyTo == e.action.reference
  {
    FieldValue(m, events, ReplyTo, (e: Event) => ByAuthor(m.signed, e) && e.action.Reply?);
  }

  /** Anybody pins and unpins; the latest of both decides. */
  lemma PinnedMeans(m: Message, events: seq<Event>)
    requires Keyed(events)
    ensures var pins := (e: Event) => e.target == m.signed.id && (e.action.Pin? || e.action.Unpin?); var p := Project(m, events);
      && (Never(events, pins) ==> p.pinnedAt == m.pinnedAt && p.pinnedBy == m.pinnedBy)
      && forall e | Latest(e, events, pins) ::
           if e.action.Pin? then p.pinnedAt == Some(Clip(e.timestamp)) && p.pinnedBy == Some(e.actor) else p.pinnedAt.None? && p.pinnedBy.None?
  {
    FieldValue(m, events, Pinned, (e: Event) => e.target == m.signed.id && (e.action.Pin? || e.action.Unpin?));
  }

  /** Everybody has one vote per emoji, and changes only that one. */
  lemma ReactionMeans(m: Message, events: seq<Event>, emoji: Emoji, peer: Peer)
    requires Keyed(events)
    ensures var votes := (e: Event) => e.target == m.signed.id && e.actor == peer && (e.action == React(emoji) || e.action == Unreact(emoji));
      var reacts := emoji in Project(m, events).reactions && peer in Project(m, events).reactions[emoji];
      && (Never(events, votes) ==> (reacts <==> emoji in m.reactions && peer in m.reactions[emoji]))
      && forall e | Latest(e, events, votes) :: reacts <==> e.action == React(emoji)
  {
    FieldValue(m, events, Reaction(emoji, peer),
      (e: Event) => e.target == m.signed.id && e.actor == peer && (e.action == React(emoji) || e.action == Unreact(emoji)));
  }

  /** The clipped time is the nearest whole millisecond towards zero. */
  lemma ClipMeans(timestamp: real)
    ensures timestamp >= 0.0 ==> 0 <= Clip(timestamp) && Clip(timestamp) as real <= timestamp < Clip(timestamp) as real + 1.0
    ensures timestamp < 0.0 ==> Clip(timestamp) <= 0 && Clip(timestamp) as real - 1.0 < timestamp <= Clip(timestamp) as real
  {
  }

  // ---- The loop ----

  /** The filter, the sort and the loop of `projectMessage`. */
  method ProjectMessage(m: Message, events: seq<Event>) returns (projected: Message)
    requires Keyed(events)
    ensures projected == Project(m, events)
  {
    var mine: seq<Event> := [];
    for k := 0 to |events|
      invariant forall e :: e in mine <==> e in events[..k] && e.target == m.signed.id
    {
      if events[k].target == m.signed.id { mine := mine + [events[k]]; }
    }
    assert events[..|events|] == events;
    var sorted := SortEvents(mine);
    projected := m;
    var reactions: map<Emoji, set<Peer>> := m.reactions;
    for k := 0 to |sorted|
      invariant projected.(reactions := reactions) == Replay(m, sorted[..k]) && projected.signed == m.signed
    {
      var e := sorted[k];
      assert sorted[..k + 1][..k] == sorted[..k];
      SortKeeps(mine);
      assert e in mine;
      var authored := e.action.Reply? || e.action.Edit? || e.action.Delete?;
      if authored && m.signed.authorPeer != Some(e.actor) { continue; }
      var at := Some(Clip(e.timestamp));
      match e.action {
        case Reply(reference) => projected := projected.(replyTo := reference);
        case Edit(content) => projected := projected.(editedContent := content, editedAt := at);
        case Delete => projected := projected.(deletedAt := at);
        case Pin => projected := projected.(pinnedAt := at, pinnedBy := Some(e.actor));
        case Unpin => projected := projected.(pinnedAt := None, pinnedBy := None);
        case React(emoji) =>
          var peers := if emoji in reactions then reactions[emoji] else {};
          reactions := reactions[emoji := peers + {e.actor}];
        case Unreact(emoji) =>
          if emoji in reactions { reactions := reactions[emoji := reactions[emoji] - {e.actor}]; }
      }
    }
    assert sorted[..|sorted|] == sorted;
    projected := projected.(reactions := map k | k in reactions && reactions[k] != {} :: reactions[k]);
    assert projected == Project(m, mine);
    OwnEventsSuffice(m, events, mine);
  }

  lemma OwnEventsSuffice(m: Message, events: seq<Event>, mine: seq<Event>)
    requires Keyed(events) && forall e :: e in mine <==> e in events && e.target == m.signed.id
    ensures Project(m, mine) == Project(m, events)
  {
    hide Project, Read, Precedes;
    forall r ensures IsValue(m, events, r, Read(Project(m, mine), r)) {
      ProjectIsLastWriter(m, mine, r);
      if !NoWrite(m.signed, mine, r) {
        var e :| IsLast(m.signed, mine, r, e) && Read(Project(m, mine), r) == Written(e);
        assert IsLast(m.signed, events, r, e);
      }
    }
    ProjectTidy(m, mine);
    ProjectIsLastWriter(m, mine, ReplyTo);
    ProjectionsMeet(m, events, Project(m, mine));
  }

  method SortEvents(s: seq<Event>) returns (sorted: seq<Event>)
    ensures sorted == Sort(s)
  {
    sorted := [];
    for k := 0 to |s|
      invariant sorted == Sort(s[..k])
    {
      assert s[..k + 1][..k] == s[..k];
      sorted := Insert(sorted, s[k]);
    }
    assert s[..|s|] == s;
  }
}

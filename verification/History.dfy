/** Cursor pagination of messages and events between two peers. */
module History {
  import opened Common
  import opened CursorOrder

  /** A stored row: its place in the order and whether it carries a signature. */
  datatype Item = Item(at: Cursor, signed: bool)

  const PAGE_SIZE := 200
  const MESSAGE_STAMPS := Limits(64, 0x1_0000)
  const EVENT_STAMPS := Limits(1, 0x20_0000_0000_0000)
  const IDS := Limits(128, 0x1_0000)

  // ---- The pages the storage serves ----

  predicate Sorted(rows: seq<Item>) { forall j, k | 0 <= j < k < |rows| :: Before(rows[j].at, rows[k].at) }

  predicate IsBelow(x: Item, before: Option<Cursor>) { before.None? || Before(x.at, before.value) }

  function Below(rows: seq<Item>, before: Option<Cursor>): seq<Item> {
    if rows == [] then [] else (if IsBelow(rows[0], before) then [rows[0]] else []) + Below(rows[1..], before)
  }

  /** The newest rows below the cursor, oldest first. */
  function Page(rows: seq<Item>, before: Option<Cursor>): seq<Item> {
    var below := Below(rows, before);
    if |below| <= PAGE_SIZE then below else below[|below| - PAGE_SIZE..]
  }

  lemma {:induction false} BelowIsExact(rows: seq<Item>, before: Option<Cursor>)
    requires Sorted(rows)
    ensures Sorted(Below(rows, before))
    ensures forall x :: x in Below(rows, before) <==> x in rows && IsBelow(x, before)
  {
    if rows != [] {
      assert forall j, k | 0 <= j < k < |rows| - 1 :: rows[1..][j] == rows[j + 1] && rows[1..][k] == rows[k + 1];
      BelowIsExact(rows[1..], before);
      var rest := Below(rows[1..], before);
      forall k | 0 <= k < |rest| ensures Before(rows[0].at, rest[k].at) { assert rest[k] in rows[1..]; }
    }
  }

  /** A page holds rows below the cursor; a row it leaves out is older than all of a full page. */
  lemma PageIsNewest(rows: seq<Item>, before: Option<Cursor>)
    requires Sorted(rows)
    ensures var page := Page(rows, before);
      && |page| <= PAGE_SIZE && Sorted(page)
      && (forall x | x in page :: x in rows && IsBelow(x, before))
      && (forall x | x in rows && IsBelow(x, before) && x !in page :: |page| == PAGE_SIZE && Before(x.at, page[0].at))
  {
    BelowIsExact(rows, before);
    hide Below;
    var below, page := Below(rows, before), Page(rows, before);
    if |below| > PAGE_SIZE {
      var older := below[..|below| - PAGE_SIZE];
      assert below == older + page;
      forall x | x in older ensures Before(x.at, page[0].at) {
        var k :| 0 <= k < |older| && older[k] == x;
        assert below[k] == x && below[|older|] == page[0];
      }
    }
  }

  // ---- One stream of rows: messages or events ----

  datatype Stream = Stream(before: Option<Cursor>, done: bool)

  function Serve(rows: seq<Item>, s: Stream): seq<Item> { if s.done then [] else Page(rows, s.before) }

  /** The cursor `chat.history.complete` carries: the oldest row of a full page. */
  function NextCursor(page: seq<Item>): Option<Cursor> { if |page| == PAGE_SIZE then Some(page[0].at) else None }

  predicate CursorAdvances(s: Stream, next: Option<Cursor>) {
    next.None? || s.before.None? || Before(next.value, s.before.value)
  }

  function Advance(s: Stream, next: Option<Cursor>): Stream {
    Stream(if next.Some? then next else s.before, s.done || next.None?)
  }

  /** The rows a responder puts into its chunks. */
  function Sendable(page: seq<Item>, known: set<Text>): seq<Item>
    decreases |page|
  {
    if page == [] then []
    else (if page[0].signed && page[0].at.id !in known then [page[0]] else []) + Sendable(page[1..], known)
  }

  lemma {:induction false} SendableIsExact(page: seq<Item>, known: set<Text>)
    ensures forall x :: x in Sendable(page, known) <==> x in page && x.signed && x.at.id !in known
    decreases |page|
  {
    if page != [] { SendableIsExact(page[1..], known); }
  }

  /** What the requester keeps of them: those that verify. */
  function Accept(held: set<Text>, rows: seq<Item>, verifies: Item -> bool): set<Text> {
    held + set x | x in rows && verifies(x) :: x.at.id
  }

  /** A row is safe when it is held already or still lies ahead of the cursor. */
  predicate Covered(s: Stream, held: set<Text>, x: Item) { x.at.id in held || (!s.done && IsBelow(x, s.before)) }

  lemma ServedStreamCovers(rows: seq<Item>, s: Stream, known: set<Text>, held: set<Text>, verifies: Item -> bool, x: Item)
    requires Sorted(rows) && x in rows && x.signed && verifies(x)
    requires known <= held && Covered(s, held, x)
    ensures var page := Serve(rows, s);
      Covered(Advance(s, NextCursor(page)), Accept(held, Sendable(page, known), verifies), x)
  {
    var page := Serve(rows, s);
    SendableIsExact(page, known);
    if x.at.id !in held {
      PageIsNewest(rows, s.before);
    }
  }

  lemma ServedCursorAdvances(rows: seq<Item>, s: Stream, stamps: Limits)
    requires Sorted(rows) && RowsWithin(rows, stamps)
    ensures var next := NextCursor(Serve(rows, s));
      CursorAdvances(s, next) && (next.Some? ==> CursorWithin(next.value, stamps, IDS))
  {
    if !s.done {
      PageIsNewest(rows, s.before);
      var page := Serve(rows, s);
      if |page| == PAGE_SIZE { assert page[0] in page; }
    }
  }

  predicate RowsWithin(rows: seq<Item>, stamps: Limits) {
    forall x | x in rows :: CursorWithin(x.at, stamps, IDS)
  }

  // ---- The requester ----

  datatype Request = Request(messages: Stream, events: Stream, known: set<Text>, knownEvents: set<Text>)

  datatype Complete = Complete(nextMessage: Option<Cursor>, nextEvent: Option<Cursor>)

  function FirstRequest(includeEvents: bool, known: set<Text>, knownEvents: set<Text>): Request {
    Request(Stream(None, false), Stream(None, !includeEvents), known, knownEvents)
  }

  /** `acceptComplete`: the request it sends next, if any. */
  function AcceptComplete(r: Request, c: Complete): Option<Request> {
    if !CursorAdvances(r.messages, c.nextMessage) || !CursorAdvances(r.events, c.nextEvent) then None
    else
      var next := Request(Advance(r.messages, c.nextMessage), Advance(r.events, c.nextEvent), {}, {});
      if next.messages.done && next.events.done then None else Some(next)
  }

  predicate StreamWithin(s: Stream, stamps: Limits) { s.before.Some? ==> CursorWithin(s.before.value, stamps, IDS) }

  predicate ValidRequest(r: Request) { StreamWithin(r.messages, MESSAGE_STAMPS) && StreamWithin(r.events, EVENT_STAMPS) }

  /** What the validators of `chat.history.complete` let through. */
  predicate ValidComplete(c: Complete) {
    && (c.nextMessage.Some? ==> CursorWithin(c.nextMessage.value, MESSAGE_STAMPS, IDS))
    && (c.nextEvent.Some? ==> CursorWithin(c.nextEvent.value, EVENT_STAMPS, IDS))
  }

  function Measure(r: Request): nat
    requires ValidRequest(r)
  {
    Height(r.messages.before, MESSAGE_STAMPS, IDS) + Height(r.events.before, EVENT_STAMPS, IDS)
  }

  /** Every `chat.history.complete` that leads to a new request lowers the measure, whoever sent it. */
  lemma AcceptedCompleteLowersMeasure(r: Request, c: Complete)
    requires ValidRequest(r) && ValidComplete(c) && AcceptComplete(r, c).Some?
    ensures var next := AcceptComplete(r, c).value; ValidRequest(next) && Measure(next) < Measure(r)
  {
    hide CursorWithin, Before, Height;
    if c.nextMessage.Some? { AdvanceLowersHeight(r.messages.before, c.nextMessage.value, MESSAGE_STAMPS, IDS); }
    if c.nextEvent.Some? { AdvanceLowersHeight(r.events.before, c.nextEvent.value, EVENT_STAMPS, IDS); }
  }

  /** All replies lead to a further request. */
  ghost predicate AllAccepted(r: Request, replies: seq<Complete>)
    decreases |replies|
  {
    replies != [] ==>
      && ValidComplete(replies[0]) && AcceptComplete(r, replies[0]).Some?
      && AllAccepted(AcceptComplete(r, replies[0]).value, replies[1..])
  }

  /** Termination for any responder: no chain of replies keeps the requester asking for ever. */
  lemma {:induction false} RequestsAreFinite(r: Request, replies: seq<Complete>)
    requires ValidRequest(r) && AllAccepted(r, replies)
    ensures |replies| <= Measure(r)
    decreases |replies|
  {
    hide Measure;
    if replies != [] {
      AcceptedCompleteLowersMeasure(r, replies[0]);
      RequestsAreFinite(AcceptComplete(r, replies[0]).value, replies[1..]);
    }
  }

  // ---- A whole exchange ----

  /** A responder whose storage may change between requests; index k is its state at the k-th request. */
  datatype Peer = Peer(messages: nat -> seq<Item>, events: nat -> seq<Item>, verifies: Item -> bool, verifiesEvent: Item -> bool)

  ghost predicate ValidPeer(p: Peer) {
    forall k: nat ::
      && Sorted(p.messages(k)) && RowsWithin(p.messages(k), MESSAGE_STAMPS)
      && Sorted(p.events(k)) && RowsWithin(p.events(k), EVENT_STAMPS)
  }

  datatype Held = Held(messages: set<Text>, events: set<Text>)

  function CompleteFor(p: Peer, r: Request, k: nat): Complete {
    Complete(NextCursor(Serve(p.messages(k), r.messages)), NextCursor(Serve(p.events(k), r.events)))
  }

  function AcceptReply(p: Peer, held: Held, r: Request, k: nat): Held {
    Held(Accept(held.messages, Sendable(Serve(p.messages(k), r.messages), r.known), p.verifies),
         Accept(held.events, Sendable(Serve(p.events(k), r.events), r.knownEvents), p.verifiesEvent))
  }

  lemma HonestReply(p: Peer, r: Request, k: nat)
    requires ValidPeer(p) && ValidRequest(r)
    ensures var c := CompleteFor(p, r, k);
      ValidComplete(c) && CursorAdvances(r.messages, c.nextMessage) && CursorAdvances(r.events, c.nextEvent)
  {
    hide Serve, NextCursor, CursorWithin;
    ServedCursorAdvances(p.messages(k), r.messages, MESSAGE_STAMPS);
    ServedCursorAdvances(p.events(k), r.events, EVENT_STAMPS);
  }

  /** Request, chunks, complete, and so on until the requester has nothing more to ask. */
  ghost function Exchange(p: Peer, held: Held, r: Request, k: nat): Held
    requires ValidPeer(p) && ValidRequest(r)
    decreases Measure(r)
  {
    var held' := AcceptReply(p, held, r, k);
    HonestReply(p, r, k);
    var next := AcceptComplete(r, CompleteFor(p, r, k));
    if next.None? then held'
    else
      AcceptedCompleteLowersMeasure(r, CompleteFor(p, r, k));
      Exchange(p, held', next.value, k + 1)
  }

  /** A row the responder held throughout, signed, and verifying at the requester. */
  ghost predicate Due(rows: nat -> seq<Item>, verifies: Item -> bool, x: Item) {
    x.signed && verifies(x) && forall k: nat :: x in rows(k)
  }

  ghost predicate StillComing(p: Peer, held: Held, r: Request, withEvents: bool) {
    && (forall x | Due(p.messages, p.verifies, x) :: Covered(r.messages, held.messages, x))
    && (withEvents ==> forall x | Due(p.events, p.verifiesEvent, x) :: Covered(r.events, held.events, x))
    && r.known <= held.messages && r.knownEvents <= held.events
  }

  lemma ReplyKeepsCovered(p: Peer, held: Held, r: Request, k: nat, withEvents: bool)
    requires ValidPeer(p) && ValidRequest(r) && StillComing(p, held, r, withEvents)
    ensures var c := CompleteFor(p, r, k); var held' := AcceptReply(p, held, r, k);
      && (forall x | Due(p.messages, p.verifies, x) :: Covered(Advance(r.messages, c.nextMessage), held'.messages, x))
      && (withEvents ==> forall x | Due(p.events, p.verifiesEvent, x) :: Covered(Advance(r.events, c.nextEvent), held'.events, x))
  {
    hide Covered, Serve, NextCursor, Sendable, Accept;
    forall x | Due(p.messages, p.verifies, x)
      ensures Covered(Advance(r.messages, CompleteFor(p, r, k).nextMessage), AcceptReply(p, held, r, k).messages, x)
    {
      ServedStreamCovers(p.messages(k), r.messages, r.known, held.messages, p.verifies, x);
    }
    forall x | withEvents && Due(p.events, p.verifiesEvent, x)
      ensures Covered(Advance(r.events, CompleteFor(p, r, k).nextEvent), AcceptReply(p, held, r, k).events, x)
    {
      ServedStreamCovers(p.events(k), r.events, r.knownEvents, held.events, p.verifiesEvent, x);
    }
  }

  lemma {:induction false} ExchangeDelivers(p: Peer, held: Held, r: Request, k: nat, withEvents: bool)
    requires ValidPeer(p) && ValidRequest(r) && StillComing(p, held, r, withEvents)
    ensures var end := Exchange(p, held, r, k);
      && (forall x | Due(p.messages, p.verifies, x) :: x.at.id in end.messages)
      && (withEvents ==> forall x | Due(p.events, p.verifiesEvent, x) :: x.at.id in end.events)
    decreases Measure(r)
  {
    hide Serve, Measure, Due, AcceptReply;
    HonestReply(p, r, k);
    ReplyKeepsCovered(p, held, r, k, withEvents);
    var c := CompleteFor(p, r, k);
    var next := AcceptComplete(r, c);
    if next.Some? {
      AcceptedCompleteLowersMeasure(r, c);
      ExchangeDelivers(p, AcceptReply(p, held, r, k), next.value, k + 1, withEvents);
    }
  }

  /**
    Completeness: whatever the requester knew, however the page boundaries fall and whatever was added
    meanwhile, it ends up with every verifying row the responder held.
  */
  lemma {:induction false} HistoryIsComplete(p: Peer, held: Held, includeEvents: bool, known: set<Text>, knownEvents: set<Text>)
    requires ValidPeer(p) && known <= held.messages && knownEvents <= held.events
    ensures var end := Exchange(p, held, FirstRequest(includeEvents, known, knownEvents), 0);
      && (forall x | Due(p.messages, p.verifies, x) :: x.at.id in end.messages)
      && (includeEvents ==> forall x | Due(p.events, p.verifiesEvent, x) :: x.at.id in end.events)
  {
    ExchangeDelivers(p, held, FirstRequest(includeEvents, known, knownEvents), 0, includeEvents);
  }

  /** The id of a signed row that the responder had at one of its replies and that verifies. */
  ghost predicate Vouched(rows: nat -> seq<Item>, verifies: Item -> bool, id: Text) {
    exists k: nat, x :: x in rows(k) && x.signed && verifies(x) && x.at.id == id
  }

  lemma ServedIsVouched(rows: nat -> seq<Item>, k: nat, s: Stream, known: set<Text>, held: set<Text>, verifies: Item -> bool, id: Text)
    requires Sorted(rows(k)) && id in Accept(held, Sendable(Serve(rows(k), s), known), verifies)
    ensures id in held || Vouched(rows, verifies, id)
  {
    if id !in held {
      var x :| x in Sendable(Serve(rows(k), s), known) && verifies(x) && x.at.id == id;
      SendableIsExact(Serve(rows(k), s), known);
      PageIsNewest(rows(k), s.before);
      assert x in rows(k);
    }
  }

  lemma {:induction false} ExchangeVouches(p: Peer, held: Held, r: Request, k: nat, id: Text)
    requires ValidPeer(p) && ValidRequest(r)
    ensures id in Exchange(p, held, r, k).messages ==> id in held.messages || Vouched(p.messages, p.verifies, id)
    ensures id in Exchange(p, held, r, k).events ==> id in held.events || Vouched(p.events, p.verifiesEvent, id)
    decreases Measure(r)
  {
    var held' := AcceptReply(p, held, r, k);
    if id in held'.messages { ServedIsVouched(p.messages, k, r.messages, r.known, held.messages, p.verifies, id); }
    if id in held'.events { ServedIsVouched(p.events, k, r.events, r.knownEvents, held.events, p.verifiesEvent, id); }
    hide Serve, Measure, Vouched, AcceptReply;
    HonestReply(p, r, k);
    var c := CompleteFor(p, r, k);
    if AcceptComplete(r, c).Some? {
      AcceptedCompleteLowersMeasure(r, c);
      ExchangeVouches(p, held', AcceptComplete(r, c).value, k + 1, id);
    }
  }

  /** And nothing else: whatever the requester holds at the end it held before, or it is a signed row that verifies. */
  lemma {:induction false} HistoryIsVouched(p: Peer, held: Held, includeEvents: bool, known: set<Text>, knownEvents: set<Text>)
    requires ValidPeer(p)
    ensures var end := Exchange(p, held, FirstRequest(includeEvents, known, knownEvents), 0);
      && (forall id | id in end.messages :: id in held.messages || Vouched(p.messages, p.verifies, id))
      && (forall id | id in end.events :: id in held.events || Vouched(p.events, p.verifiesEvent, id))
  {
    hide Exchange, Vouched;
    var r := FirstRequest(includeEvents, known, knownEvents);
    var end := Exchange(p, held, r, 0);
    forall id | id in end.messages ensures id in held.messages || Vouched(p.messages, p.verifies, id) { ExchangeVouches(p, held, r, 0, id); }
    forall id | id in end.events ensures id in held.events || Vouched(p.events, p.verifiesEvent, id) { ExchangeVouches(p, held, r, 0, id); }
  }

  // ---- The service ----

  function Concat<T>(frames: seq<seq<T>>): seq<T> {
    if frames == [] then [] else Concat(frames[..|frames| - 1]) + frames[|frames| - 1]
  }

  /** The slicing loops of `respond`: the chunks, in order, hold the rows and nothing else. */
  method SendInChunks(rows: seq<Item>, size: nat) returns (frames: seq<seq<Item>>)
    requires size > 0
    ensures Concat(frames) == rows
    ensures forall k | 0 <= k < |frames| :: 0 < |frames[k]| <= size
  {
    frames := [];
    var index := 0;
    while index < |rows|
      invariant 0 <= index
      invariant Concat(frames) == rows[..Min(index, |rows|)]
      invariant forall k | 0 <= k < |frames| :: 0 < |frames[k]| <= size
    {
      var frame := rows[index..Min(index + size, |rows|)];
      assert (frames + [frame])[..|frames|] == frames;
      frames := frames + [frame];
      index := index + size;
    }
  }

  /** The loop of `acceptChunk` over one list; `processed` ids were persisted before. */
  method AcceptChunk(held: set<Text>, processed: set<Text>, rows: seq<Item>, verifies: Item -> bool) returns (held': set<Text>)
    requires processed <= held
    ensures held' == Accept(held, rows, verifies)
    ensures forall id :: id in held' <==> id in held || exists x :: x in rows && verifies(x) && x.at.id == id
  {
    held' := held;
    var done := processed;
    for k := 0 to |rows|
      invariant done <= held' == Accept(held, rows[..k], verifies)
    {
      if rows[k].at.id !in done && verifies(rows[k]) {
        held', done := held' + {rows[k].at.id}, done + {rows[k].at.id};
      }
      assert rows[..k + 1] == rows[..k] + [rows[k]];
    }
    assert rows[..|rows|] == rows;
  }

  type PeerId = nat
  datatype Pending = Pending(requestId: nat, request: Request)

  /** The `requests` map; `sent` tells whether the channel is active and took the request. */
  class HistoryService {
    var requests: map<PeerId, Pending>

    constructor ()
      ensures requests == map[]
    {
      requests := map[];
    }

    ghost predicate Valid()
      reads this
    {
      forall p | p in requests :: ValidRequest(requests[p].request)
    }

    method Issue(peer: PeerId, pending: Pending, sent: bool)
      modifies this
      ensures requests == if sent then old(requests)[peer := pending] else old(requests) - {peer}
    {
      requests := requests[peer := pending];
      if !sent { requests := requests - {peer}; }
    }

    /** `request` up to the reading of the known ids. */
    method BeginRequest(peer: PeerId) returns (begins: bool)
      ensures begins <==> peer !in requests
    {
      begins := peer !in requests;
    }

    /**
      The rest of `request`, when the ids have been read.  A request for the same peer that began meanwhile
      is replaced, or dropped when this one cannot be sent; its replies then change nothing.
    */
    method IssueFirst(peer: PeerId, id: nat, includeEvents: bool, known: set<Text>, knownEvents: set<Text>, active: bool, sent: bool)
      requires Valid()
      modifies this
      ensures Valid()
      ensures !active ==> requests == old(requests)
      ensures active && sent ==> requests == old(requests)[peer := Pending(id, FirstRequest(includeEvents, known, knownEvents))]
      ensures active && !sent ==> requests == old(requests) - {peer}
    {
      if !active { return; }
      Issue(peer, Pending(id, Request(Stream(None, false), Stream(None, !includeEvents), known, knownEvents)), sent);
    }

    /** A reply to another request id changes nothing; one that asks for more lowers the measure of its peer. */
    method CompleteArrived(peer: PeerId, requestId: nat, c: Complete, nextId: nat, sent: bool)
      requires Valid() && ValidComplete(c)
      modifies this
      ensures Valid()
      ensures peer !in old(requests) || old(requests)[peer].requestId != requestId ==> requests == old(requests)
      ensures peer in old(requests) && old(requests)[peer].requestId == requestId ==>
        var next := AcceptComplete(old(requests)[peer].request, c);
        requests == if next.Some? && sent then old(requests)[peer := Pending(nextId, next.value)] else old(requests) - {peer}
      ensures peer in old(requests) && old(requests)[peer].requestId == requestId && peer in requests ==>
        Measure(requests[peer].request) < old(Measure(requests[peer].request))
    {
      hide Height, CursorWithin, Before;
      if peer !in requests || requests[peer].requestId != requestId { return; }
      var r := requests[peer].request;
      if AcceptComplete(r, c).Some? { AcceptedCompleteLowersMeasure(r, c); }
      if !CursorAdvances(r.messages, c.nextMessage) || !CursorAdvances(r.events, c.nextEvent) {
        requests := requests - {peer};
        return;
      }
      var messages := Stream(if c.nextMessage.Some? then c.nextMessage else r.messages.before, r.messages.done || c.nextMessage.None?);
      var events := Stream(if c.nextEvent.Some? then c.nextEvent else r.events.before, r.events.done || c.nextEvent.None?);
      if messages.done && events.done {
        requests := requests - {peer};
        return;
      }
      Issue(peer, Pending(nextId, Request(messages, events, {}, {})), sent);
    }

    method ForgetPeer(peer: PeerId)
      requires Valid()
      modifies this
      ensures Valid() && requests == old(requests) - {peer}
    {
      requests := requests - {peer};
    }
  }
}

/**
  The sender and stream tables of the mesh transport.  `replacePublishedTrack` is cut at its awaits; every other
  operation changes the tables in one step.
*/
module MeshTables {
  import opened Common

  type Peer = nat
  type Track = nat
  type Stream = nat
  type Senders = multiset<Track>

  /** The sender a replacement has listed for a connection: not swapped yet, or swapped.  A removed track leaves it empty. */
  datatype Listed = NotListed | Todo(track: Option<Track>) | Done(track: Option<Track>)

  /** One connection: the tracks of its other senders, and its listed sender. */
  datatype Link = Link(others: Senders, listed: Listed)

  /** A replacement in flight; `lost` when the connection of a listed sender was closed before its turn. */
  datatype Replacement = Replacement(previous: Track, next: Track, lost: bool)

  /**
    Streams are kept as (peer, stream) pairs; `enabled` holds those whose tracks are switched on, whether or not a table
    still lists them, and `seen` all that ever arrived.
  */
  datatype Mesh = Mesh(
    maxRemotePeers: nat,
    required: bool,
    authorized: set<Peer>,
    tracks: set<Track>,
    peers: map<Peer, Link>,
    replacing: Option<Replacement>,
    pending: set<(Peer, Stream)>,
    active: set<(Peer, Stream)>,
    enabled: set<(Peer, Stream)>,
    seen: set<(Peer, Stream)>)

  datatype Event =
    | RequireAuthorization
    | Connect(peer: Peer)
    | Authorize(peer: Peer)
    | Revoke(peer: Peer)
    | Publish(track: Track)
    | Unpublish(track: Track)
    | BeginReplace(previous: Track, next: Track)
    | SwapSender(peer: Peer)
    | FailReplace
    | FinishReplace
    | Recreate(peer: Peer)
    | Disconnect(peer: Peer)
    | TrackArrived(peer: Peer, stream: Stream)

  // ---- Links ----

  function One(t: Option<Track>): Senders { if t.Some? then multiset{t.value} else multiset{} }

  function ListedTrack(l: Listed): Senders { if l.NotListed? then multiset{} else One(l.track) }

  /** What the connection sends. */
  function Carried(l: Link): Senders { l.others + ListedTrack(l.listed) }

  function Fresh(senders: Senders): Link { Link(senders, NotListed) }

  /** `addTrack` takes a sender of its own. */
  function AddTo(l: Link, t: Track): Link { if t in Carried(l) then l else l.(others := l.others + multiset{t}) }

  function AddMissing(l: Link, tracks: set<Track>): Link {
    l.(others := l.others + multiset(set t | t in tracks && t !in Carried(l)))
  }

  function Vacate(l: Listed): Listed { if l.NotListed? then l else l.(track := None) }

  function Emptied(l: Link): Link { Link(multiset{}, Vacate(l.listed)) }

  /** The first sender of the track loses it. */
  function Without(l: Link, t: Track): Link {
    if t in ListedTrack(l.listed) then l.(listed := Vacate(l.listed)) else l.(others := l.others - multiset{t})
  }

  // ---- The operations ----

  predicate Allowed(m: Mesh, p: Peer) { !m.required || p in m.authorized }

  function StreamsOf(p: Peer, streams: set<(Peer, Stream)>): set<(Peer, Stream)> { set s | s in streams && s.0 == p }

  function CreatePeer(m: Mesh, p: Peer): Mesh {
    if p in m.peers || |m.peers| >= m.maxRemotePeers then m
    else m.(peers := m.peers[p := Fresh(if Allowed(m, p) then multiset(m.tracks) else multiset{})])
  }

  function AuthorizePeer(m: Mesh, p: Peer): Mesh {
    var m' := m.(authorized := m.authorized + {p});
    if p !in m.peers then m'
    else
      var waiting := StreamsOf(p, m.pending);
      m'.(pending := m.pending - waiting, active := m.active + waiting, enabled := m.enabled + waiting,
          peers := m.peers[p := AddMissing(m.peers[p], m.tracks)])
  }

  function RevokePeer(m: Mesh, p: Peer): Mesh {
    var off := StreamsOf(p, m.pending) + StreamsOf(p, m.active);
    m.(authorized := m.authorized - {p}, pending := m.pending - StreamsOf(p, m.pending), enabled := m.enabled - off,
       peers := if p in m.peers then m.peers[p := Emptied(m.peers[p])] else m.peers)
  }

  function PublishTo(m: Mesh, p: Peer, l: Link, t: Track): Link { if Allowed(m, p) then AddTo(l, t) else l }

  function PublishTrack(m: Mesh, t: Track): Mesh {
    m.(tracks := m.tracks + {t}, peers := map p | p in m.peers :: PublishTo(m, p, m.peers[p], t))
  }

  function UnpublishTrack(m: Mesh, t: Track): Mesh {
    m.(tracks := m.tracks - {t}, peers := map p | p in m.peers :: Without(m.peers[p], t))
  }

  /** A closed connection cannot swap any more: if its sender was still to be swapped, the replacement is lost. */
  function LoseSender(m: Mesh, p: Peer): Option<Replacement> {
    if m.replacing.Some? && p in m.peers && m.peers[p].listed.Todo? then Some(m.replacing.value.(lost := true)) else m.replacing
  }

  /** `disposePeerEntry`. */
  function Dispose(m: Mesh, p: Peer): Mesh {
    var off := StreamsOf(p, m.pending) + StreamsOf(p, m.active);
    m.(peers := m.peers - {p}, authorized := m.authorized - {p}, enabled := m.enabled - off, replacing := LoseSender(m, p),
       pending := m.pending - StreamsOf(p, m.pending), active := m.active - StreamsOf(p, m.active))
  }

  /** `disconnect`: unlike `disposePeerEntry` it leaves the tracks of active streams switched on. */
  function DisconnectPeer(m: Mesh, p: Peer): Mesh {
    if p !in m.peers then m
    else
      m.(peers := m.peers - {p}, authorized := m.authorized - {p}, enabled := m.enabled - StreamsOf(p, m.pending), replacing := LoseSender(m, p),
         pending := m.pending - StreamsOf(p, m.pending), active := m.active - StreamsOf(p, m.active))
  }

  /** `ontrack`: a new stream is on; it is switched off when its peer is not authorised, and otherwise left as it is. */
  function ReceiveStream(m: Mesh, p: Peer, s: Stream): Mesh {
    if p !in m.peers then m
    else if Allowed(m, p) then
      m.(active := m.active + {(p, s)}, seen := m.seen + {(p, s)}, enabled := if (p, s) in m.seen then m.enabled else m.enabled + {(p, s)})
    else m.(pending := m.pending + {(p, s)}, seen := m.seen + {(p, s)}, enabled := m.enabled - {(p, s)})
  }

  // ---- A replacement ----

  function List(l: Link, previous: Track): Link {
    if previous in l.others then Link(l.others - multiset{previous}, Todo(Some(previous))) else Link(l.others, NotListed)
  }

  /** The senders that carry the old track are listed. */
  function StartReplacing(m: Mesh, previous: Track, next: Track): Mesh {
    if previous !in m.tracks || m.replacing.Some? then m
    else m.(replacing := Some(Replacement(previous, next, false)), peers := map p | p in m.peers :: List(m.peers[p], previous))
  }

  function Swap(m: Mesh, p: Peer): Mesh {
    if m.replacing.None? || p !in m.peers || !m.peers[p].listed.Todo? then m
    else m.(peers := m.peers[p := m.peers[p].(listed := Done(Some(m.replacing.value.next)))])
  }

  /** What a link carries when its listed sender has been swapped, and when it has been rolled back. */
  function IfFinished(l: Link, next: Track): Senders { l.others + (if l.listed.Todo? then multiset{next} else ListedTrack(l.listed)) }

  function IfRolledBack(l: Link, previous: Track): Senders { l.others + (if l.listed.Done? then multiset{previous} else ListedTrack(l.listed)) }

  /** The tracks that are published when the replacement has finished. */
  function Future(m: Mesh, r: Replacement): set<Track> { m.tracks - {r.previous} + {r.next} }

  function FinishNow(m: Mesh, r: Replacement): Mesh {
    m.(replacing := None, tracks := Future(m, r), peers := map p | p in m.peers :: Fresh(IfFinished(m.peers[p], r.next)))
  }

  function RollBackNow(m: Mesh, r: Replacement): Mesh {
    m.(replacing := None, peers := map p | p in m.peers :: Fresh(IfRolledBack(m.peers[p], r.previous)))
  }

  predicate AllSwapped(m: Mesh) { forall p | p in m.peers :: !m.peers[p].listed.Todo? }

  function Apply(m: Mesh, ev: Event): Mesh {
    match ev
    case RequireAuthorization => if m.peers == map[] then m.(required := true) else m
    case Connect(p) => CreatePeer(m, p)
    case Authorize(p) => AuthorizePeer(m, p)
    case Revoke(p) => RevokePeer(m, p)
    case Publish(t) => PublishTrack(m, t)
    case Unpublish(t) => UnpublishTrack(m, t)
    case BeginReplace(previous, next) => StartReplacing(m, previous, next)
    case SwapSender(p) => Swap(m, p)
    case FailReplace => if m.replacing.Some? then RollBackNow(m, m.replacing.value) else m
    case FinishReplace => if m.replacing.Some? && !m.replacing.value.lost && AllSwapped(m) then FinishNow(m, m.replacing.value) else m
    case Recreate(p) => if p !in m.peers then m else CreatePeer(Dispose(m, p), p)
    case Disconnect(p) => DisconnectPeer(m, p)
    case TrackArrived(p, s) => ReceiveStream(m, p, s)
  }

  /** The streams handed to the user interface in this step. */
  function Delivered(m: Mesh, ev: Event): set<(Peer, Stream)> {
    match ev
    case Authorize(p) => if p in m.peers then StreamsOf(p, m.pending) else {}
    case TrackArrived(p, s) => if p in m.peers && Allowed(m, p) then {(p, s)} else {}
    case _ => {}
  }

  function Run(m: Mesh, evs: seq<Event>): Mesh
    decreases |evs|
  {
    if evs == [] then m else Run(Apply(m, evs[0]), evs[1..])
  }

  function Start(maxRemotePeers: nat): Mesh { Mesh(maxRemotePeers, false, {}, {}, map[], None, {}, {}, {}, {}) }

  // ---- The simple description ----

  /** What a peer should be sent. */
  function Expected(m: Mesh, p: Peer): Senders { if Allowed(m, p) then multiset(m.tracks) else multiset{} }

  predicate Agrees(m: Mesh) { forall p | p in m.peers :: Carried(m.peers[p]) == Expected(m, p) }

  /** What it should be sent when the replacement has finished. */
  function Target(m: Mesh, r: Replacement, p: Peer): Senders { if Allowed(m, p) then multiset(Future(m, r)) else multiset{} }

  /** A replacement in flight that would end in agreement if it finished now, or if it failed now. */
  predicate OnCourse(m: Mesh) {
    m.replacing.Some? && forall p | p in m.peers :: IfFinished(m.peers[p], m.replacing.value.next) == Target(m, m.replacing.value, p)
  }

  predicate Restorable(m: Mesh) {
    m.replacing.Some? && forall p | p in m.peers :: IfRolledBack(m.peers[p], m.replacing.value.previous) == Expected(m, p)
  }

  lemma FreshCarries(senders: Senders)
    ensures Carried(Fresh(senders)) == senders
  {
  }

  lemma FinishMeans(m: Mesh)
    requires m.replacing.Some?
    ensures OnCourse(m) <==> Agrees(FinishNow(m, m.replacing.value))
  {
    hide IfFinished, Carried, Fresh;
    var r := m.replacing.value;
    var f := FinishNow(m, r);
    assert f.peers.Keys == m.peers.Keys;
    forall p | p in m.peers ensures p in f.peers && Carried(f.peers[p]) == IfFinished(m.peers[p], r.next) { FreshCarries(IfFinished(m.peers[p], r.next)); }
    assert forall p | p in f.peers :: p in m.peers;
  }

  lemma RollBackMeans(m: Mesh)
    requires m.replacing.Some?
    ensures Restorable(m) <==> Agrees(RollBackNow(m, m.replacing.value))
  {
    hide IfRolledBack, Carried, Fresh;
    var r := m.replacing.value;
    var b := RollBackNow(m, r);
    assert b.peers.Keys == m.peers.Keys;
    forall p | p in m.peers ensures p in b.peers && Carried(b.peers[p]) == IfRolledBack(m.peers[p], r.previous) { FreshCarries(IfRolledBack(m.peers[p], r.previous)); }
    assert forall p | p in b.peers :: p in m.peers;
  }

  /** Without a replacement nothing is listed; with one, listed senders carry what the replacement put there, or nothing. */
  predicate LinkShaped(r: Option<Replacement>, l: Link) {
    match l.listed
    case NotListed => true
    case Todo(t) => r.Some? && (t.None? || t == Some(r.value.previous))
    case Done(t) => r.Some? && (t.None? || t == Some(r.value.next))
  }

  predicate Shaped(m: Mesh) { forall p | p in m.peers :: LinkShaped(m.replacing, m.peers[p]) }

  lemma LinkOperationsKeepShape(r: Option<Replacement>, l: Link, t: Track, tracks: set<Track>)
    requires LinkShaped(r, l)
    ensures LinkShaped(r, AddTo(l, t)) && LinkShaped(r, AddMissing(l, tracks)) && LinkShaped(r, Emptied(l)) && LinkShaped(r, Without(l, t))
  {
    hide Carried, ListedTrack;
  }

  lemma FreshIsShaped(r: Option<Replacement>, senders: Senders)
    ensures LinkShaped(r, Fresh(senders))
  {
  }

  lemma CreateKeepsShape(m: Mesh, p: Peer)
    requires Shaped(m)
    ensures Shaped(CreatePeer(m, p))
  {
    FreshIsShaped(m.replacing, multiset(m.tracks));
    FreshIsShaped(m.replacing, multiset{});
    hide Fresh, LinkShaped;
  }

  lemma CloseKeepsShape(m: Mesh, p: Peer)
    requires Shaped(m)
    ensures Shaped(Dispose(m, p)) && Shaped(DisconnectPeer(m, p))
  {
  }

  lemma LinkStepKeepsShape(m: Mesh, ev: Event)
    requires Shaped(m) && (ev.Authorize? || ev.Revoke? || ev.SwapSender?)
    ensures Shaped(Apply(m, ev))
  {
    hide AddMissing, Emptied;
    if ev.peer in m.peers { LinkOperationsKeepShape(m.replacing, m.peers[ev.peer], 0, m.tracks); }
  }

  lemma PeerStepKeepsShape(m: Mesh, ev: Event)
    requires Shaped(m) && (ev.Connect? || ev.Recreate? || ev.Disconnect?)
    ensures Shaped(Apply(m, ev))
  {
    CreateKeepsShape(m, ev.peer);
    CloseKeepsShape(m, ev.peer);
    CreateKeepsShape(Dispose(m, ev.peer), ev.peer);
    hide Shaped, CreatePeer, Dispose, DisconnectPeer;
  }

  lemma TrackStepKeepsShape(m: Mesh, ev: Event)
    requires Shaped(m) && (ev.Publish? || ev.Unpublish?)
    ensures Shaped(Apply(m, ev))
  {
    hide AddTo, Without;
    forall p | p in m.peers
      ensures LinkShaped(m.replacing, AddTo(m.peers[p], ev.track)) && LinkShaped(m.replacing, Without(m.peers[p], ev.track))
    {
      LinkOperationsKeepShape(m.replacing, m.peers[p], ev.track, {});
    }
  }

  lemma EndStepKeepsShape(m: Mesh, ev: Event)
    requires Shaped(m) && (ev.FailReplace? || ev.FinishReplace?)
    ensures Shaped(Apply(m, ev))
  {
    hide IfFinished, IfRolledBack;
  }

  lemma OtherStepKeepsShape(m: Mesh, ev: Event)
    requires Shaped(m) && (ev.RequireAuthorization? || ev.BeginReplace? || ev.TrackArrived?)
    ensures Shaped(Apply(m, ev))
  {
  }

  lemma StepKeepsShape(m: Mesh, ev: Event)
    requires Shaped(m)
    ensures Shaped(Apply(m, ev))
  {
    hide Apply, Shaped;
    if ev.Publish? || ev.Unpublish? { TrackStepKeepsShape(m, ev); }
    else if ev.FailReplace? || ev.FinishReplace? { EndStepKeepsShape(m, ev); }
    else if ev.RequireAuthorization? || ev.BeginReplace? || ev.TrackArrived? { OtherStepKeepsShape(m, ev); }
    else if ev.Authorize? || ev.Revoke? || ev.SwapSender? { LinkStepKeepsShape(m, ev); }
    else { PeerStepKeepsShape(m, ev); }
  }

  // ---- What spoils a replacement ----

  predicate Lacks(m: Mesh, p: Peer, t: Track) { p in m.peers && Allowed(m, p) && t !in Carried(m.peers[p]) }

  predicate Has(m: Mesh, p: Peer, t: Track) { p in m.peers && Allowed(m, p) && t in Carried(m.peers[p]) }

  /** Unpublishing takes the track from a sender that the replacement will not overwrite. */
  predicate Loses(l: Link, t: Track) { if t in ListedTrack(l.listed) then l.listed.Done? else t in l.others }

  predicate Keeps(m: Mesh, p: Peer, t: Track) { p in m.peers && Loses(m.peers[p], t) }

  predicate IsDone(m: Mesh, p: Peer) { p in m.peers && m.peers[p].listed.Done? }

  predicate HasRoom(m: Mesh, p: Peer) { p !in m.peers && |m.peers| < m.maxRemotePeers }

  /** The steps after which a replacement that finishes leaves the wrong senders. */
  ghost predicate SpoilsFinish(m: Mesh, r: Replacement, ev: Event) {
    match ev
    case Connect(p) => HasRoom(m, p) && Allowed(m, p) && m.tracks != Future(m, r)
    case Authorize(p) => p in m.peers && (if Allowed(m, p) then exists t :: t in m.tracks && Lacks(m, p, t) else m.tracks != Future(m, r))
    case Revoke(p) => p in m.peers && (if m.required then m.peers[p].listed.Todo? else !(m.peers[p].listed.Todo? && Future(m, r) == {r.next}))
    case Publish(t) => (t == r.previous || t in Future(m, r)) && exists p :: Lacks(m, p, t)
    case Unpublish(t) => t == r.next && exists p :: Keeps(m, p, t)
    case Recreate(p) => p in m.peers && !m.required && HasRoom(Dispose(m, p), p) && m.tracks != Future(m, r)
    case _ => false
  }

  /** The steps after which a replacement that fails leaves the wrong senders. */
  ghost predicate SpoilsRollBack(m: Mesh, r: Replacement, ev: Event) {
    match ev
    case Authorize(p) => exists t :: t in m.tracks && Lacks(m, p, t)
    case Revoke(p) =>
      p in m.peers && (if m.required then IsDone(m, p) else m.tracks != if IsDone(m, p) then {r.previous} else {})
    case Publish(t) => if t in m.tracks then exists p :: Lacks(m, p, t) else exists p :: Has(m, p, t)
    case Unpublish(t) => t in m.tracks && exists p :: IsDone(m, p) && (t == r.previous || m.peers[p].listed.track == Some(t))
    case SwapSender(p) => p in m.peers && m.peers[p].listed == Todo(None)
    case _ => false
  }

  predicate EndsReplacement(ev: Event) { ev.FailReplace? || ev.FinishReplace? }

  // ---- Single links ----

  lemma AddToEffect(l: Link, t: Track, previous: Track, next: Track)
    ensures var extra := if t in Carried(l) then multiset{} else multiset{t};
      && Carried(AddTo(l, t)) == Carried(l) + extra
      && IfFinished(AddTo(l, t), next) == IfFinished(l, next) + extra && IfRolledBack(AddTo(l, t), previous) == IfRolledBack(l, previous) + extra
  {
    LinkExtra(l, multiset{t}, previous, next);
    hide Carried, IfFinished, IfRolledBack;
  }

  function Missing(l: Link, tracks: set<Track>): set<Track> { set t | t in tracks && t !in Carried(l) }

  lemma AddMissingEffect(l: Link, tracks: set<Track>, previous: Track, next: Track)
    ensures var extra := multiset(Missing(l, tracks)); var l' := AddMissing(l, tracks);
      && Carried(l') == Carried(l) + extra
      && IfFinished(l', next) == IfFinished(l, next) + extra && IfRolledBack(l', previous) == IfRolledBack(l, previous) + extra
  {
    assert (set t | t in tracks && t !in Carried(l)) == Missing(l, tracks);
    hide Carried;
    assert AddMissing(l, tracks) == l.(others := l.others + multiset(Missing(l, tracks)));
    LinkExtra(l, multiset(Missing(l, tracks)), previous, next);
  }

  lemma LinkExtra(l: Link, extra: Senders, previous: Track, next: Track)
    ensures var l' := l.(others := l.others + extra);
      && Carried(l') == Carried(l) + extra
      && IfFinished(l', next) == IfFinished(l, next) + extra && IfRolledBack(l', previous) == IfRolledBack(l, previous) + extra
  {
  }

  lemma EmptiedEffect(l: Link, previous: Track, next: Track)
    ensures Carried(Emptied(l)) == multiset{}
    ensures IfFinished(Emptied(l), next) == if l.listed.Todo? then multiset{next} else multiset{}
    ensures IfRolledBack(Emptied(l), previous) == if l.listed.Done? then multiset{previous} else multiset{}
  {
  }

  lemma ExtraChangesNothing(a: Senders, extra: Senders)
    ensures a + extra == a <==> extra == multiset{}
  {
    if t :| t in extra {
      assert (a + extra)[t] == a[t] + extra[t];
      assert extra[t] > 0;
    } else {
      assert extra == multiset{};
    }
  }

  lemma EmptySet(tracks: set<Track>)
    ensures multiset(tracks) == multiset{} <==> tracks == {}
  {
    if t :| t in tracks { assert t in multiset(tracks); }
  }

  lemma SameSets(a: set<Track>, b: set<Track>)
    ensures multiset(a) == multiset(b) <==> a == b
  {
    if multiset(a) == multiset(b) {
      forall t ensures t in a <==> t in b { assert t in multiset(a) <==> t in a; assert t in multiset(b) <==> t in b; }
    }
  }

  lemma FreshFinished(senders: Senders, t: Track)
    ensures IfFinished(Fresh(senders), t) == senders && IfRolledBack(Fresh(senders), t) == senders
  {
  }

  // ---- Exactly which steps spoil a replacement that finishes ----

  /** When only the link of `p` changes, it alone decides. */
  lemma OneLinkDecides(m: Mesh, m': Mesh, p: Peer)
    requires OnCourse(m) && m'.replacing == m.replacing && p in m'.peers && (forall q | q in m'.peers :: q == p || q in m.peers)
    requires forall q | q in m.peers && q != p :: q in m'.peers && m'.peers[q] == m.peers[q] && Target(m', m.replacing.value, q) == Target(m, m.replacing.value, q)
    ensures OnCourse(m') <==> IfFinished(m'.peers[p], m.replacing.value.next) == Target(m', m.replacing.value, p)
  {
    hide IfFinished, Target;
  }

  lemma ConnectSpoilsFinish(m: Mesh, p: Peer)
    requires OnCourse(m)
    ensures OnCourse(CreatePeer(m, p)) <==> !SpoilsFinish(m, m.replacing.value, Connect(p))
  {
    var r := m.replacing.value;
    if HasRoom(m, p) {
      var m' := CreatePeer(m, p);
      FreshFinished(multiset(m.tracks), r.next);
      FreshFinished(multiset{}, r.next);
      SameSets(m.tracks, Future(m, r));
      hide IfFinished, Fresh, OnCourse;
      OneLinkDecides(m, m', p);
    }
  }

  lemma UnallowedCarriesNothing(m: Mesh, p: Peer)
    requires OnCourse(m) && p in m.peers && !Allowed(m, p)
    ensures Carried(m.peers[p]) == multiset{} && !m.peers[p].listed.Todo? && IfFinished(m.peers[p], m.replacing.value.next) == multiset{}
  {
    var l, next := m.peers[p], m.replacing.value.next;
    assert IfFinished(l, next)[next] == 0;
  }

  lemma MissingMeans(l: Link, tracks: set<Track>)
    ensures Missing(l, tracks) == {} <==> forall t | t in tracks :: t in Carried(l)
    ensures Carried(l) == multiset{} ==> Missing(l, tracks) == tracks
  {
    hide Carried;
    if Missing(l, tracks) == {} {
      forall t | t in tracks ensures t in Carried(l) { assert t !in Missing(l, tracks); }
    }
  }

  /** What authorising adds to one link. */
  lemma AuthorizedLink(m: Mesh, p: Peer)
    requires OnCourse(m) && p in m.peers
    ensures var r := m.replacing.value;
      IfFinished(AddMissing(m.peers[p], m.tracks), r.next) == multiset(Future(m, r)) <==> !SpoilsFinish(m, r, Authorize(p))
  {
    var r, l := m.replacing.value, m.peers[p];
    AddMissingEffect(l, m.tracks, r.previous, r.next);
    MissingMeans(l, m.tracks);
    var extra := Missing(l, m.tracks);
    if Allowed(m, p) {
      hide AddMissing, IfFinished, Carried, Missing, Future;
      ExtraChangesNothing(IfFinished(l, r.next), multiset(extra));
      EmptySet(extra);
    } else {
      UnallowedCarriesNothing(m, p);
      hide AddMissing, IfFinished, Carried, Missing, Future;
      SameSets(m.tracks, Future(m, r));
      assert multiset{} + multiset(m.tracks) == multiset(m.tracks);
    }
  }

  lemma AuthorizeSpoilsFinish(m: Mesh, p: Peer)
    requires OnCourse(m)
    ensures OnCourse(AuthorizePeer(m, p)) <==> !SpoilsFinish(m, m.replacing.value, Authorize(p))
  {
    var m' := AuthorizePeer(m, p);
    hide IfFinished, AddMissing;
    if p in m.peers {
      AuthorizedLink(m, p);
      OneLinkDecides(m, m', p);
    }
  }

  lemma RevokedLink(m: Mesh, p: Peer)
    requires OnCourse(m) && p in m.peers
    ensures var r, m' := m.replacing.value, RevokePeer(m, p);
      IfFinished(Emptied(m.peers[p]), r.next) == Target(m', r, p) <==> !SpoilsFinish(m, r, Revoke(p))
  {
    var r := m.replacing.value;
    EmptiedEffect(m.peers[p], r.previous, r.next);
    assert multiset({r.next}) == multiset{r.next};
    SameSets({r.next}, Future(m, r));
    EmptySet(Future(m, r));
    assert r.next in Future(m, r) && multiset{r.next}[r.next] == 1;
    hide IfFinished, Emptied;
    assert Future(RevokePeer(m, p), r) == Future(m, r) && (Allowed(RevokePeer(m, p), p) <==> !m.required);
  }

  lemma RevokeSpoilsFinish(m: Mesh, p: Peer)
    requires OnCourse(m)
    ensures OnCourse(RevokePeer(m, p)) <==> !SpoilsFinish(m, m.replacing.value, Revoke(p))
  {
    var m' := RevokePeer(m, p);
    hide IfFinished, Emptied;
    if p in m.peers {
      RevokedLink(m, p);
      OneLinkDecides(m, m', p);
    }
  }

  lemma PublishedFuture(m: Mesh, r: Replacement, t: Track)
    ensures var m' := PublishTrack(m, t);
      && (forall p :: Allowed(m', p) <==> Allowed(m, p))
      && Future(m', r) == if t == r.previous || t in Future(m, r) then Future(m, r) else Future(m, r) + {t}
  {
  }

  lemma PublishedLink(m: Mesh, p: Peer, t: Track)
    requires OnCourse(m) && Shaped(m) && p in m.peers
    ensures var r, m' := m.replacing.value, PublishTrack(m, t);
      IfFinished(PublishTo(m, p, m.peers[p], t), r.next) == Target(m', r, p) <==> !((t == r.previous || t in Future(m, r)) && Lacks(m, p, t))
  {
    var r, l := m.replacing.value, m.peers[p];
    PublishedFuture(m, r, t);
    if Allowed(m, p) {
      var f, future := IfFinished(l, r.next), Future(m, r);
      AddToEffect(l, t, r.previous, r.next);
      if t == r.previous || t in future {
        PublishKnown(f, t);
      } else {
        NewTrackIsNew(m, p, t);
        OneMoreTrack(future, t);
      }
      hide AddTo, IfFinished, Carried, Future;
    } else {
      hide AddTo, IfFinished, Carried, Future;
    }
  }

  lemma PublishKnown(f: Senders, t: Track)
    ensures f + multiset{t} != f && f + multiset{} == f
  {
    assert (f + multiset{t})[t] == f[t] + 1;
  }

  lemma OneMoreTrack(tracks: set<Track>, t: Track)
    requires t !in tracks
    ensures multiset(tracks + {t}) == multiset(tracks) + multiset{t}
  {
  }

  lemma OneTrackLess(tracks: set<Track>, t: Track)
    ensures multiset(tracks - {t}) == multiset(tracks) - multiset{t}
  {
  }

  lemma NewTrackIsNew(m: Mesh, p: Peer, t: Track)
    requires OnCourse(m) && Shaped(m) && p in m.peers && Allowed(m, p) && t != m.replacing.value.previous && t !in Future(m, m.replacing.value)
    ensures t !in Carried(m.peers[p])
  {
    var r, l := m.replacing.value, m.peers[p];
    assert LinkShaped(m.replacing, l);
    assert IfFinished(l, r.next)[t] == multiset(Future(m, r))[t] == 0;
    assert r.next in Future(m, r);
  }

  lemma PublishSpoilsFinish(m: Mesh, t: Track)
    requires OnCourse(m) && Shaped(m)
    ensures OnCourse(PublishTrack(m, t)) <==> !SpoilsFinish(m, m.replacing.value, Publish(t))
  {
    hide IfFinished, Target, Future, PublishTo, Shaped, Carried;
    var r, m' := m.replacing.value, PublishTrack(m, t);
    forall p | p in m.peers
      ensures p in m'.peers && (IfFinished(m'.peers[p], r.next) == Target(m', r, p) <==> !((t == r.previous || t in Future(m, r)) && Lacks(m, p, t)))
    {
      PublishedLink(m, p, t);
    }
    assert forall p | p in m'.peers :: p in m.peers;
  }

  lemma UnpublishedFuture(m: Mesh, r: Replacement, t: Track)
    ensures var m' := UnpublishTrack(m, t);
      && (forall p :: Allowed(m', p) <==> Allowed(m, p))
      && Future(m', r) == if t == r.previous || t == r.next then Future(m, r) else Future(m, r) - {t}
  {
  }

  /** What is left of the outcome of one link, in numbers. */
  lemma UnpublishedOutcome(f: Senders, future: set<Track>, allowed: bool, taken: bool, special: bool, t: Track)
    requires f == (if allowed then multiset(future) else multiset{}) && (taken ==> t in f) && (!taken && !special ==> t !in f)
    ensures (if taken then f - multiset{t} else f) == (if allowed then multiset(if special then future else future - {t}) else multiset{})
      <==> !(taken && special)
  {
    if taken { TakenFrom(f, t); }
    if allowed { LessOrSame(future, t); }
  }

  lemma PreviousIsGone(m: Mesh, r: Replacement, p: Peer)
    ensures r.previous != r.next ==> r.previous !in Target(m, r, p)
  {
  }

  lemma UnpublishedLink(m: Mesh, p: Peer, t: Track)
    requires OnCourse(m) && Shaped(m) && p in m.peers
    ensures var r, m' := m.replacing.value, UnpublishTrack(m, t);
      IfFinished(Without(m.peers[p], t), r.next) == Target(m', r, p) <==> !(t == r.next && Keeps(m, p, t))
  {
    var r, l := m.replacing.value, m.peers[p];
    var f, future := IfFinished(l, r.next), Future(m, r);
    UnpublishedFuture(m, r, t);
    WithoutFinished(l, r.next, t);
    LosesMeans(l, r.next, t);
    assert LinkShaped(m.replacing, l) && f == Target(m, r, p);
    PreviousIsGone(m, r, p);
    var taken, special := Loses(l, t), t == r.previous || t == r.next;
    hide Without, IfFinished, Future, Loses;
    UnpublishedOutcome(f, future, Allowed(m, p), taken, special, t);
  }

  lemma LessOrSame(tracks: set<Track>, t: Track)
    ensures multiset(tracks - {t}) == if t in tracks then multiset(tracks) - multiset{t} else multiset(tracks)
  {
    if t !in tracks { assert tracks - {t} == tracks; }
  }

  lemma TakenFrom(f: Senders, t: Track)
    requires t in f
    ensures f - multiset{t} != f
  {
    assert (f - multiset{t})[t] == f[t] - 1;
  }

  /** Removing a track takes it from the outcome too, unless it sat on a sender that will be overwritten anyway. */
  lemma WithoutFinished(l: Link, next: Track, t: Track)
    ensures var f := IfFinished(l, next); IfFinished(Without(l, t), next) == (if Loses(l, t) then f - multiset{t} else f)
  {
    if t in ListedTrack(l.listed) {
      assert l.others + multiset{t} - multiset{t} == l.others;
      assert l.others + multiset{} == l.others;
    } else if t in l.others {
      OthersLess(l.others, if l.listed.Todo? then multiset{next} else ListedTrack(l.listed), t);
    } else {
      assert l.others - multiset{t} == l.others;
    }
  }

  lemma LosesMeans(l: Link, next: Track, t: Track)
    ensures var f := IfFinished(l, next);
      (Loses(l, t) ==> t in f) && (t != next && t in f ==> Loses(l, t) || l.listed == Todo(Some(t)))
  {
    var f := IfFinished(l, next);
    assert f[t] == l.others[t] + (if l.listed.Todo? then (if t == next then 1 else 0) else if l.listed.Done? && l.listed.track == Some(t) then 1 else 0);
    hide IfFinished;
  }

  lemma OthersLess(others: Senders, rest: Senders, t: Track)
    requires t in others
    ensures others - multiset{t} + rest == others + rest - multiset{t}
  {
  }

  lemma UnpublishSpoilsFinish(m: Mesh, t: Track)
    requires OnCourse(m) && Shaped(m)
    ensures OnCourse(UnpublishTrack(m, t)) <==> !SpoilsFinish(m, m.replacing.value, Unpublish(t))
  {
    hide IfFinished, Target, Future, Without, Loses, Shaped;
    var r, m' := m.replacing.value, UnpublishTrack(m, t);
    forall p | p in m.peers
      ensures p in m'.peers && (IfFinished(m'.peers[p], r.next) == Target(m', r, p) <==> !(t == r.next && Keeps(m, p, t)))
    {
      UnpublishedLink(m, p, t);
    }
    assert forall p | p in m'.peers :: p in m.peers;
  }

  lemma CloseSpoilsFinish(m: Mesh, p: Peer)
    requires OnCourse(m)
    ensures OnCourse(Dispose(m, p)) && OnCourse(DisconnectPeer(m, p))
  {
    hide IfFinished;
  }

  lemma RecreateSpoilsFinish(m: Mesh, p: Peer)
    requires OnCourse(m) && p in m.peers
    ensures OnCourse(CreatePeer(Dispose(m, p), p)) <==> !SpoilsFinish(m, m.replacing.value, Recreate(p))
  {
    assert m.replacing.Some?;
    DisposeFrame(m, p);
    hide OnCourse, CreatePeer, Dispose, Future;
    CloseSpoilsFinish(m, p);
    ConnectSpoilsFinish(Dispose(m, p), p);
  }

  lemma DisposeFrame(m: Mesh, p: Peer)
    requires m.replacing.Some?
    ensures var d := Dispose(m, p);
      && d.replacing.Some? && d.tracks == m.tracks && (Allowed(d, p) <==> !m.required)
      && Future(d, d.replacing.value) == Future(m, m.replacing.value)
  {
  }

  lemma SwapSpoilsFinish(m: Mesh, p: Peer)
    requires OnCourse(m)
    ensures OnCourse(Swap(m, p))
  {
    if p in m.peers && m.peers[p].listed.Todo? {
      SwappedLink(m.peers[p], m.replacing.value.next);
      hide IfFinished;
      OneLinkDecides(m, Swap(m, p), p);
    }
  }

  lemma SwappedLink(l: Link, next: Track)
    requires l.listed.Todo?
    ensures IfFinished(l.(listed := Done(Some(next))), next) == IfFinished(l, next)
  {
  }

  lemma QuietSpoilsFinish(m: Mesh, ev: Event)
    requires OnCourse(m) && (ev.RequireAuthorization? || ev.BeginReplace? || ev.TrackArrived?)
    ensures OnCourse(Apply(m, ev))
  {
    hide IfFinished;
  }

  /** A replacement stays on course exactly until one of these steps. */
  lemma FinishSpoiledExactlyWhen(m: Mesh, ev: Event)
    requires OnCourse(m) && Shaped(m) && !EndsReplacement(ev)
    ensures OnCourse(Apply(m, ev)) <==> !SpoilsFinish(m, m.replacing.value, ev)
  {
    hide OnCourse, Shaped, CreatePeer, AuthorizePeer, RevokePeer, PublishTrack, UnpublishTrack, Swap, Dispose, DisconnectPeer;
    match ev
    case Connect(p) => ConnectSpoilsFinish(m, p);
    case Authorize(p) => AuthorizeSpoilsFinish(m, p);
    case Revoke(p) => RevokeSpoilsFinish(m, p);
    case Publish(t) => PublishSpoilsFinish(m, t);
    case Unpublish(t) => UnpublishSpoilsFinish(m, t);
    case SwapSender(p) => SwapSpoilsFinish(m, p);
    case Recreate(p) => if p in m.peers { RecreateSpoilsFinish(m, p); }
    case Disconnect(p) => CloseSpoilsFinish(m, p);
    case _ => QuietSpoilsFinish(m, ev);
  }

  // ---- Exactly which steps spoil a replacement that fails ----

  lemma OneLinkRestores(m: Mesh, m': Mesh, p: Peer)
    requires Restorable(m) && m'.replacing == m.replacing && p in m'.peers && (forall q | q in m'.peers :: q == p || q in m.peers)
    requires forall q | q in m.peers && q != p :: q in m'.peers && m'.peers[q] == m.peers[q] && Expected(m', q) == Expected(m, q)
    ensures Restorable(m') <==> IfRolledBack(m'.peers[p], m.replacing.value.previous) == Expected(m', p)
  {
    hide IfRolledBack, Expected;
  }

  lemma ConnectSpoilsRollBack(m: Mesh, p: Peer)
    requires Restorable(m)
    ensures Restorable(CreatePeer(m, p))
  {
    if HasRoom(m, p) {
      FreshFinished(multiset(m.tracks), m.replacing.value.previous);
      FreshFinished(multiset{}, m.replacing.value.previous);
      hide IfRolledBack, Fresh, Restorable;
      OneLinkRestores(m, CreatePeer(m, p), p);
    }
  }

  lemma CloseSpoilsRollBack(m: Mesh, p: Peer)
    requires Restorable(m)
    ensures Restorable(Dispose(m, p)) && Restorable(DisconnectPeer(m, p))
  {
    hide IfRolledBack;
  }

  lemma UnallowedIsEmpty(m: Mesh, p: Peer)
    requires Restorable(m) && p in m.peers && !Allowed(m, p)
    ensures Carried(m.peers[p]) == multiset{} && !m.peers[p].listed.Done? && IfRolledBack(m.peers[p], m.replacing.value.previous) == multiset{}
  {
    var l, previous := m.peers[p], m.replacing.value.previous;
    assert IfRolledBack(l, previous)[previous] == 0;
  }

  lemma ReauthorizedLink(m: Mesh, p: Peer)
    requires Restorable(m) && p in m.peers
    ensures var r := m.replacing.value;
      IfRolledBack(AddMissing(m.peers[p], m.tracks), r.previous) == multiset(m.tracks) <==> !SpoilsRollBack(m, r, Authorize(p))
  {
    var r, l := m.replacing.value, m.peers[p];
    AddMissingEffect(l, m.tracks, r.previous, r.next);
    MissingMeans(l, m.tracks);
    var extra := Missing(l, m.tracks);
    if Allowed(m, p) {
      hide AddMissing, IfRolledBack, Carried, Missing;
      ExtraChangesNothing(IfRolledBack(l, r.previous), multiset(extra));
      EmptySet(extra);
    } else {
      UnallowedIsEmpty(m, p);
      hide AddMissing, IfRolledBack, Carried, Missing;
      assert multiset{} + multiset(m.tracks) == multiset(m.tracks);
    }
  }

  lemma AuthorizeSpoilsRollBack(m: Mesh, p: Peer)
    requires Restorable(m)
    ensures Restorable(AuthorizePeer(m, p)) <==> !SpoilsRollBack(m, m.replacing.value, Authorize(p))
  {
    hide IfRolledBack, AddMissing;
    if p in m.peers {
      ReauthorizedLink(m, p);
      OneLinkRestores(m, AuthorizePeer(m, p), p);
    }
  }

  lemma RerevokedLink(m: Mesh, p: Peer)
    requires Restorable(m) && p in m.peers
    ensures var r := m.replacing.value;
      IfRolledBack(Emptied(m.peers[p]), r.previous) == Expected(RevokePeer(m, p), p) <==> !SpoilsRollBack(m, r, Revoke(p))
  {
    var r := m.replacing.value;
    EmptiedEffect(m.peers[p], r.previous, r.next);
    assert multiset({r.previous}) == multiset{r.previous};
    SameSets({r.previous}, m.tracks);
    EmptySet(m.tracks);
    assert multiset{r.previous}[r.previous] == 1;
    hide IfRolledBack, Emptied;
    assert Allowed(RevokePeer(m, p), p) <==> !m.required;
  }

  lemma RevokeSpoilsRollBack(m: Mesh, p: Peer)
    requires Restorable(m)
    ensures Restorable(RevokePeer(m, p)) <==> !SpoilsRollBack(m, m.replacing.value, Revoke(p))
  {
    hide IfRolledBack, Emptied;
    if p in m.peers {
      RerevokedLink(m, p);
      OneLinkRestores(m, RevokePeer(m, p), p);
    }
  }

  lemma RepublishedLink(m: Mesh, p: Peer, t: Track)
    requires Restorable(m) && p in m.peers
    ensures IfRolledBack(PublishTo(m, p, m.peers[p], t), m.replacing.value.previous) == Expected(PublishTrack(m, t), p)
      <==> !(if t in m.tracks then Lacks(m, p, t) else Has(m, p, t))
  {
    var r, l := m.replacing.value, m.peers[p];
    var b := IfRolledBack(l, r.previous);
    if Allowed(m, p) {
      AddToEffect(l, t, r.previous, r.next);
      PublishKnown(b, t);
      if t in m.tracks { assert m.tracks + {t} == m.tracks; } else { OneMoreTrack(m.tracks, t); }
    }
    hide AddTo, IfRolledBack, Carried;
    assert Allowed(PublishTrack(m, t), p) <==> Allowed(m, p);
  }

  lemma PublishSpoilsRollBack(m: Mesh, t: Track)
    requires Restorable(m)
    ensures Restorable(PublishTrack(m, t)) <==> !SpoilsRollBack(m, m.replacing.value, Publish(t))
  {
    hide IfRolledBack, Expected, PublishTo;
    var r, m' := m.replacing.value, PublishTrack(m, t);
    forall p | p in m.peers
      ensures p in m'.peers && (IfRolledBack(m'.peers[p], r.previous) == Expected(m', p) <==> !(if t in m.tracks then Lacks(m, p, t) else Has(m, p, t)))
    {
      RepublishedLink(m, p, t);
    }
    assert forall p | p in m'.peers :: p in m.peers;
    hide Carried;
  }

  /** Unpublishing takes the track from the outcome of a rollback. */
  predicate Frees(l: Link, t: Track) { if t in ListedTrack(l.listed) then l.listed.Todo? else t in l.others }

  lemma WithoutRolledBack(l: Link, previous: Track, t: Track)
    ensures var b := IfRolledBack(l, previous); IfRolledBack(Without(l, t), previous) == (if Frees(l, t) then b - multiset{t} else b)
  {
    if t in ListedTrack(l.listed) {
      assert l.others + multiset{t} - multiset{t} == l.others;
      assert l.others + multiset{} == l.others;
    } else if t in l.others {
      OthersLess(l.others, if l.listed.Done? then multiset{previous} else ListedTrack(l.listed), t);
    } else {
      assert l.others - multiset{t} == l.others;
    }
  }

  /** Which tracks of the outcome are not taken: those of a swapped sender. */
  lemma FreesMeans(l: Link, previous: Track, t: Track)
    ensures var b := IfRolledBack(l, previous);
      && (Frees(l, t) ==> t in b)
      && (!Frees(l, t) && t in b ==> l.listed.Done? && (t == previous || l.listed.track == Some(t)))
      && (l.listed.Done? && l.listed.track == Some(t) ==> !Frees(l, t))
      && (l.listed.Done? && t == previous && b[t] == 1 ==> !Frees(l, t))
  {
    var b := IfRolledBack(l, previous);
    assert b[t] == l.others[t] + (if l.listed.Done? then (if t == previous then 1 else 0) else if l.listed.Todo? && l.listed.track == Some(t) then 1 else 0);
    hide IfRolledBack;
  }

  lemma WithdrawnLink(m: Mesh, p: Peer, t: Track)
    requires Restorable(m) && p in m.peers
    ensures IfRolledBack(Without(m.peers[p], t), m.replacing.value.previous) == Expected(UnpublishTrack(m, t), p)
      <==> !(t in m.tracks && IsDone(m, p) && (t == m.replacing.value.previous || m.peers[p].listed.track == Some(t)))
  {
    var r, l := m.replacing.value, m.peers[p];
    var b := IfRolledBack(l, r.previous);
    WithoutRolledBack(l, r.previous, t);
    FreesMeans(l, r.previous, t);
    assert b == Expected(m, p) && (Allowed(UnpublishTrack(m, t), p) <==> Allowed(m, p));
    LessOrSame(m.tracks, t);
    if !Allowed(m, p) { UnallowedIsEmpty(m, p); }
    hide Without, IfRolledBack, Frees, Carried;
    if Allowed(m, p) {
      assert b[t] == (if t in m.tracks then 1 else 0);
      if t in m.tracks { TakenFrom(b, t); }
    }
  }

  lemma UnpublishSpoilsRollBack(m: Mesh, t: Track)
    requires Restorable(m)
    ensures Restorable(UnpublishTrack(m, t)) <==> !SpoilsRollBack(m, m.replacing.value, Unpublish(t))
  {
    hide IfRolledBack, Expected, Without;
    var r, m' := m.replacing.value, UnpublishTrack(m, t);
    forall p | p in m.peers
      ensures p in m'.peers && (IfRolledBack(m'.peers[p], r.previous) == Expected(m', p)
        <==> !(t in m.tracks && IsDone(m, p) && (t == r.previous || m.peers[p].listed.track == Some(t))))
    {
      WithdrawnLink(m, p, t);
    }
    assert forall p | p in m'.peers :: p in m.peers;
  }

  lemma SwappedBack(l: Link, previous: Track, next: Track)
    requires l.listed.Todo? && (l.listed.track.None? || l.listed.track == Some(previous))
    ensures IfRolledBack(l.(listed := Done(Some(next))), previous) == IfRolledBack(l, previous) <==> l.listed.track.Some?
  {
    PublishKnown(l.others, previous);
  }

  lemma SwapSpoilsRollBack(m: Mesh, p: Peer)
    requires Restorable(m) && Shaped(m)
    ensures Restorable(Swap(m, p)) <==> !SpoilsRollBack(m, m.replacing.value, SwapSender(p))
  {
    hide IfRolledBack, Expected;
    if p in m.peers && m.peers[p].listed.Todo? {
      assert LinkShaped(m.replacing, m.peers[p]);
      SwappedBack(m.peers[p], m.replacing.value.previous, m.replacing.value.next);
      SwapFrame(m, p);
      OneLinkRestores(m, Swap(m, p), p);
      hide Restorable;
    }
  }

  lemma SwapFrame(m: Mesh, p: Peer)
    ensures forall q :: Expected(Swap(m, p), q) == Expected(m, q)
  {
  }

  lemma QuietSpoilsRollBack(m: Mesh, ev: Event)
    requires Restorable(m) && (ev.RequireAuthorization? || ev.BeginReplace? || ev.TrackArrived?)
    ensures Restorable(Apply(m, ev))
  {
    hide IfRolledBack;
  }

  /** A replacement can be rolled back cleanly exactly until one of these steps. */
  lemma RollBackSpoiledExactlyWhen(m: Mesh, ev: Event)
    requires Restorable(m) && Shaped(m) && !EndsReplacement(ev)
    ensures Restorable(Apply(m, ev)) <==> !SpoilsRollBack(m, m.replacing.value, ev)
  {
    hide Restorable, Shaped, CreatePeer, AuthorizePeer, RevokePeer, PublishTrack, UnpublishTrack, Swap, Dispose, DisconnectPeer;
    match ev
    case Connect(p) => ConnectSpoilsRollBack(m, p);
    case Authorize(p) => AuthorizeSpoilsRollBack(m, p);
    case Revoke(p) => RevokeSpoilsRollBack(m, p);
    case Publish(t) => PublishSpoilsRollBack(m, t);
    case Unpublish(t) => UnpublishSpoilsRollBack(m, t);
    case SwapSender(p) => SwapSpoilsRollBack(m, p);
    case Recreate(p) => if p in m.peers { CloseSpoilsRollBack(m, p); ConnectSpoilsRollBack(Dispose(m, p), p); }
    case Disconnect(p) => CloseSpoilsRollBack(m, p);
    case _ => QuietSpoilsRollBack(m, ev);
  }

  // ---- Without a replacement ----

  predicate IsReplaceStep(ev: Event) { ev.BeginReplace? || ev.SwapSender? || EndsReplacement(ev) }

  /** A mesh without a replacement, seen as one whose replacement has listed nothing. */
  function Imagined(m: Mesh): Mesh { m.(replacing := Some(Replacement(0, 0, false))) }

  lemma PlainLink(l: Link)
    requires l.listed.NotListed?
    ensures IfRolledBack(l, 0) == Carried(l)
  {
  }

  lemma ImaginedAgrees(m: Mesh)
    requires Shaped(m) && m.replacing.None?
    ensures Agrees(m) <==> Restorable(Imagined(m))
    ensures Shaped(Imagined(m)) && forall p | p in m.peers :: m.peers[p].listed.NotListed?
  {
    hide IfRolledBack, Carried, Expected;
    forall p | p in m.peers
      ensures m.peers[p].listed.NotListed? && IfRolledBack(m.peers[p], 0) == Carried(m.peers[p]) && Expected(Imagined(m), p) == Expected(m, p)
    {
      assert LinkShaped(m.replacing, m.peers[p]);
      PlainLink(m.peers[p]);
      ImaginedExpects(m, p);
    }
  }

  lemma ImaginedExpects(m: Mesh, p: Peer)
    ensures Expected(Imagined(m), p) == Expected(m, p)
  {
  }

  lemma ImaginedStep(m: Mesh, ev: Event)
    requires !IsReplaceStep(ev) && m.replacing.None? && forall p | p in m.peers :: m.peers[p].listed.NotListed?
    ensures Apply(Imagined(m), ev) == Imagined(Apply(m, ev)) && Apply(m, ev).replacing.None?
  {
    hide AddMissing, AddTo, Without, Emptied, Fresh, StreamsOf;
    if ev.Publish? || ev.Unpublish? { ImaginedTrackStep(m, ev); }
    else if ev.Recreate? || ev.Disconnect? { ImaginedClose(m, ev); }
  }

  lemma ImaginedTrackStep(m: Mesh, ev: Event)
    requires m.replacing.None? && (ev.Publish? || ev.Unpublish?)
    ensures Apply(Imagined(m), ev) == Imagined(Apply(m, ev)) && Apply(m, ev).replacing.None?
  {
    hide AddTo, Without;
    assert Apply(Imagined(m), ev).peers == Apply(m, ev).peers;
  }

  lemma ImaginedClose(m: Mesh, ev: Event)
    requires m.replacing.None? && (forall p | p in m.peers :: m.peers[p].listed.NotListed?) && (ev.Recreate? || ev.Disconnect?)
    ensures Apply(Imagined(m), ev) == Imagined(Apply(m, ev)) && Apply(m, ev).replacing.None?
  {
    hide Fresh, StreamsOf;
  }

  lemma AgreeingLacksNothing(m: Mesh, p: Peer, t: Track)
    requires Agrees(m)
    ensures t in m.tracks ==> !Lacks(m, p, t)
    ensures t !in m.tracks ==> !Has(m, p, t)
  {
    hide Carried;
    if p in m.peers { assert Carried(m.peers[p]) == Expected(m, p); }
  }

  lemma ImaginedSpoils(m: Mesh, ev: Event)
    requires Agrees(m) && (forall p | p in m.peers :: m.peers[p].listed.NotListed?) && !IsReplaceStep(ev)
    ensures SpoilsRollBack(Imagined(m), Replacement(0, 0, false), ev) <==> ev.Revoke? && ev.peer in m.peers && !m.required && m.tracks != {}
  {
    var g := Imagined(m);
    forall p: Peer, t: Track ensures (t in m.tracks ==> !Lacks(g, p, t)) && (t !in m.tracks ==> !Has(g, p, t)) {
      AgreeingLacksNothing(m, p, t);
      hide Carried;
    }
    hide Lacks, Has, Agrees;
  }

  /** Outside a replacement only revoking where nothing is required breaks the agreement. */
  lemma AgreesExactlyWhen(m: Mesh, ev: Event)
    requires Agrees(m) && Shaped(m) && m.replacing.None? && !IsReplaceStep(ev)
    ensures Agrees(Apply(m, ev)) <==> !(ev.Revoke? && ev.peer in m.peers && !m.required && m.tracks != {})
  {
    hide Apply, Agrees, Restorable, Shaped, SpoilsRollBack;
    ImaginedAgrees(m);
    ImaginedStep(m, ev);
    StepKeepsShape(m, ev);
    ImaginedAgrees(Apply(m, ev));
    RollBackSpoiledExactlyWhen(Imagined(m), ev);
    ImaginedSpoils(m, ev);
  }

  // ---- Beginning and ending ----

  lemma ListedLink(l: Link, want: Senders, previous: Track, next: Track)
    requires l.listed.NotListed? && Carried(l) == want
    ensures IfRolledBack(List(l, previous), previous) == want
    ensures IfFinished(List(l, previous), next) == if previous in want then want - multiset{previous} + multiset{next} else want
  {
    assert l.others == want;
    assert previous in want ==> want - multiset{previous} + multiset{previous} == want;
  }

  lemma ReplacedTracks(tracks: set<Track>, previous: Track, next: Track)
    requires previous in tracks
    ensures multiset(tracks) - multiset{previous} + multiset{next} == multiset(tracks - {previous} + {next}) <==> previous == next || next !in tracks
  {
    var a, b := multiset(tracks) - multiset{previous} + multiset{next}, multiset(tracks - {previous} + {next});
    OneTrackLess(tracks, previous);
    if next in tracks && next != previous {
      assert a[next] == 2 && b[next] == 1;
    } else {
      OneMoreTrack(tracks - {previous}, next);
    }
  }

  lemma BegunLink(m: Mesh, previous: Track, next: Track, p: Peer)
    requires Agrees(m) && Shaped(m) && m.replacing.None? && previous in m.tracks && p in m.peers
    ensures var m' := StartReplacing(m, previous, next); var r := m'.replacing.value;
      && p in m'.peers && IfRolledBack(m'.peers[p], previous) == Expected(m', p)
      && (IfFinished(m'.peers[p], next) == Target(m', r, p) <==> !Allowed(m, p) || previous == next || next !in m.tracks)
  {
    var m' := StartReplacing(m, previous, next);
    assert LinkShaped(m.replacing, m.peers[p]) && m'.peers[p] == List(m.peers[p], previous) && (Allowed(m', p) <==> Allowed(m, p));
    ListedLink(m.peers[p], Expected(m, p), previous, next);
    ReplacedTracks(m.tracks, previous, next);
    assert previous in multiset(m.tracks);
    hide List, IfRolledBack, IfFinished, Carried, Agrees, Shaped;
  }

  /** A replacement can always be rolled back when it begins, and is on course exactly when the new track is not published yet. */
  lemma BeginsExactlyWhen(m: Mesh, previous: Track, next: Track)
    requires Agrees(m) && Shaped(m) && m.replacing.None? && previous in m.tracks
    ensures var m' := Apply(m, BeginReplace(previous, next));
      && Restorable(m')
      && (OnCourse(m') <==> previous == next || next !in m.tracks || forall p | p in m.peers :: !Allowed(m, p))
  {
    hide List, IfRolledBack, IfFinished, Target, Expected, Agrees, Shaped;
    var m' := StartReplacing(m, previous, next);
    forall p | p in m.peers
      ensures p in m'.peers && IfRolledBack(m'.peers[p], previous) == Expected(m', p)
      ensures IfFinished(m'.peers[p], next) == Target(m', m'.replacing.value, p) <==> !Allowed(m, p) || previous == next || next !in m.tracks
    {
      BegunLink(m, previous, next, p);
    }
    assert forall p | p in m'.peers :: p in m.peers;
  }

  /** A replacement that ends, ends in agreement exactly when it was on course, or could be rolled back. */
  lemma EndsExactlyWhen(m: Mesh, ev: Event)
    requires m.replacing.Some? && Apply(m, ev).replacing.None? && EndsReplacement(ev)
    ensures Agrees(Apply(m, ev)) <==> if ev.FinishReplace? then OnCourse(m) else Restorable(m)
  {
    hide Agrees, OnCourse, Restorable, FinishNow, RollBackNow;
    FinishMeans(m);
    RollBackMeans(m);
  }

  // ---- Whole runs ----

  /** The steps that keep the tables right, whichever way a replacement ends. */
  ghost predicate Clean(m: Mesh, ev: Event) {
    if m.replacing.Some? then !SpoilsRollBack(m, m.replacing.value, ev) && (m.replacing.value.lost || !SpoilsFinish(m, m.replacing.value, ev))
    else
      && (ev.Revoke? && ev.peer in m.peers ==> m.required || m.tracks == {})
      && (ev.BeginReplace? && ev.previous in m.tracks ==> ev.previous == ev.next || ev.next !in m.tracks || forall p | p in m.peers :: !Allowed(m, p))
  }

  /** Senders are right, or will be when the replacement in flight has ended. */
  ghost predicate SendersRight(m: Mesh) {
    && Shaped(m)
    && (if m.replacing.None? then Agrees(m) else Restorable(m) && (m.replacing.value.lost || OnCourse(m)))
  }

  lemma PlainStepKeepsSenders(m: Mesh, ev: Event)
    requires SendersRight(m) && Clean(m, ev) && m.replacing.None? && !IsReplaceStep(ev)
    ensures SendersRight(Apply(m, ev))
  {
    hide Apply, Agrees, Shaped, Restorable, OnCourse;
    StepKeepsShape(m, ev);
    ImaginedAgrees(m);
    ImaginedStep(m, ev);
    AgreesExactlyWhen(m, ev);
  }

  lemma FirstStepKeepsSenders(m: Mesh, ev: Event)
    requires SendersRight(m) && Clean(m, ev) && m.replacing.None? && IsReplaceStep(ev)
    ensures SendersRight(Apply(m, ev))
  {
    hide Agrees, Shaped, Restorable, OnCourse, StartReplacing;
    StepKeepsShape(m, ev);
    if ev.BeginReplace? && ev.previous in m.tracks {
      BeginsExactlyWhen(m, ev.previous, ev.next);
      BeginFrame(m, ev.previous, ev.next);
    } else {
      IdleReplaceStep(m, ev);
    }
  }

  lemma IdleReplaceStep(m: Mesh, ev: Event)
    requires m.replacing.None? && IsReplaceStep(ev) && (ev.BeginReplace? ==> ev.previous !in m.tracks)
    ensures Apply(m, ev) == m
  {
  }

  lemma BeginFrame(m: Mesh, previous: Track, next: Track)
    requires m.replacing.None? && previous in m.tracks
    ensures StartReplacing(m, previous, next).replacing == Some(Replacement(previous, next, false))
  {
  }

  lemma LoseFrame(m: Mesh, p: Peer)
    requires m.replacing.Some?
    ensures LoseSender(m, p).Some? && (m.replacing.value.lost ==> LoseSender(m, p).value.lost)
  {
  }

  lemma ReplacingFrame(m: Mesh, ev: Event)
    requires m.replacing.Some? && !EndsReplacement(ev)
    ensures var r' := Apply(m, ev).replacing; r'.Some? && (m.replacing.value.lost ==> r'.value.lost)
  {
    hide LoseSender, AddMissing, PublishTo, Without, Emptied, Fresh, StreamsOf, List;
    if ev.Recreate? || ev.Disconnect? { LoseFrame(m, ev.peer); }
  }

  lemma BusyStepKeepsSenders(m: Mesh, ev: Event)
    requires SendersRight(m) && Clean(m, ev) && m.replacing.Some? && !EndsReplacement(ev)
    ensures SendersRight(Apply(m, ev))
  {
    StepKeepsShape(m, ev);
    ReplacingFrame(m, ev);
    RollBackSpoiledExactlyWhen(m, ev);
    if !m.replacing.value.lost { FinishSpoiledExactlyWhen(m, ev); }
    hide Apply, Restorable, OnCourse, Shaped, SpoilsRollBack, SpoilsFinish;
  }

  lemma EndStepKeepsSenders(m: Mesh, ev: Event)
    requires SendersRight(m) && m.replacing.Some? && EndsReplacement(ev)
    ensures SendersRight(Apply(m, ev))
  {
    StepKeepsShape(m, ev);
    if Apply(m, ev).replacing.None? {
      EndsExactlyWhen(m, ev);
      hide Agrees, Restorable, OnCourse, Shaped, FinishNow, RollBackNow;
    }
  }

  lemma StepKeepsSenders(m: Mesh, ev: Event)
    requires SendersRight(m) && Clean(m, ev)
    ensures SendersRight(Apply(m, ev))
  {
    hide SendersRight, Clean, Apply;
    if m.replacing.None? && IsReplaceStep(ev) { FirstStepKeepsSenders(m, ev); }
    else if m.replacing.None? { PlainStepKeepsSenders(m, ev); }
    else if EndsReplacement(ev) { EndStepKeepsSenders(m, ev); }
    else { BusyStepKeepsSenders(m, ev); }
  }

  // ---- Streams and the peer limit ----

  predicate IsLive(m: Mesh, s: (Peer, Stream)) { s.0 in m.peers }

  /** Tables list live peers only, waiting streams are off, and so is everything from a peer that is not authorised. */
  predicate StreamsHeld(m: Mesh) {
    && (forall s | s in m.pending :: IsLive(m, s))
    && (forall s | s in m.active :: IsLive(m, s))
    && m.pending !! m.enabled && m.enabled <= m.seen
    && (forall s | s in m.pending :: !Allowed(m, s.0) && s in m.seen)
    && (forall s | s in m.active && !Allowed(m, s.0) :: s !in m.enabled)
  }

  predicate WithinLimit(m: Mesh) { |m.peers| <= m.maxRemotePeers }

  /** Equal but for links, published tracks and the replacement. */
  predicate SameStreams(m: Mesh, n: Mesh) {
    n == m.(tracks := n.tracks, peers := n.peers, replacing := n.replacing) && n.peers.Keys == m.peers.Keys
  }

  lemma LinksDoNotMatter(m: Mesh, n: Mesh)
    requires StreamsHeld(m) && SameStreams(m, n)
    ensures StreamsHeld(n)
  {
    assert forall p :: p in n.peers <==> p in m.peers;
  }

  lemma TrackStepFrame(m: Mesh, ev: Event)
    requires ev.Publish? || ev.Unpublish? || IsReplaceStep(ev)
    ensures SameStreams(m, Apply(m, ev))
  {
    hide AddTo, Without, IfFinished, IfRolledBack, List, Future;
    assert Apply(m, ev).peers.Keys == m.peers.Keys;
  }

  lemma CreateKeepsStreams(m: Mesh, p: Peer)
    requires StreamsHeld(m)
    ensures StreamsHeld(CreatePeer(m, p))
  {
  }

  lemma AuthorizeKeepsStreams(m: Mesh, p: Peer)
    requires StreamsHeld(m)
    ensures StreamsHeld(AuthorizePeer(m, p))
  {
    hide AddMissing;
  }

  lemma RevokeKeepsStreams(m: Mesh, p: Peer)
    requires StreamsHeld(m)
    ensures StreamsHeld(RevokePeer(m, p))
  {
  }

  lemma CloseKeepsStreams(m: Mesh, p: Peer)
    requires StreamsHeld(m)
    ensures StreamsHeld(Dispose(m, p)) && StreamsHeld(DisconnectPeer(m, p))
  {
  }

  lemma ReceiveKeepsStreams(m: Mesh, p: Peer, s: Stream)
    requires StreamsHeld(m)
    ensures StreamsHeld(ReceiveStream(m, p, s))
  {
  }

  lemma RequireKeepsStreams(m: Mesh)
    requires StreamsHeld(m)
    ensures StreamsHeld(Apply(m, RequireAuthorization))
  {
    if m.peers == map[] {
      assert forall s | s in m.active :: IsLive(m, s);
    }
  }

  lemma StepKeepsStreams(m: Mesh, ev: Event)
    requires StreamsHeld(m)
    ensures StreamsHeld(Apply(m, ev))
  {
    if ev.Publish? || ev.Unpublish? || IsReplaceStep(ev) {
      TrackStepFrame(m, ev);
      LinksDoNotMatter(m, Apply(m, ev));
    } else {
      hide StreamsHeld, CreatePeer, AuthorizePeer, RevokePeer, Dispose, DisconnectPeer, ReceiveStream;
      match ev
      case RequireAuthorization => RequireKeepsStreams(m);
      case Connect(p) => CreateKeepsStreams(m, p);
      case Authorize(p) => AuthorizeKeepsStreams(m, p);
      case Revoke(p) => RevokeKeepsStreams(m, p);
      case Recreate(p) => CloseKeepsStreams(m, p); CreateKeepsStreams(Dispose(m, p), p);
      case Disconnect(p) => CloseKeepsStreams(m, p);
      case TrackArrived(p, s) => ReceiveKeepsStreams(m, p, s);
    }
  }

  lemma CreateKeepsLimit(m: Mesh, p: Peer)
    requires WithinLimit(m)
    ensures WithinLimit(CreatePeer(m, p)) && CreatePeer(m, p).maxRemotePeers == m.maxRemotePeers
  {
    if p !in m.peers { assert CreatePeer(m, p).peers.Keys <= m.peers.Keys + {p}; }
  }

  lemma CloseLowers(m: Mesh, p: Peer)
    requires p in m.peers
    ensures |Dispose(m, p).peers| == |DisconnectPeer(m, p).peers| == |m.peers| - 1
    ensures Dispose(m, p).maxRemotePeers == DisconnectPeer(m, p).maxRemotePeers == m.maxRemotePeers
  {
    assert m.peers.Keys == (m.peers - {p}).Keys + {p};
  }

  lemma LinkStepKeepsLimit(m: Mesh, ev: Event)
    requires WithinLimit(m) && (ev.Authorize? || ev.Revoke?)
    ensures WithinLimit(Apply(m, ev)) && Apply(m, ev).maxRemotePeers == m.maxRemotePeers
  {
    hide AddMissing, Emptied;
    assert Apply(m, ev).peers.Keys == m.peers.Keys;
  }

  lemma StepKeepsLimit(m: Mesh, ev: Event)
    requires WithinLimit(m)
    ensures WithinLimit(Apply(m, ev)) && Apply(m, ev).maxRemotePeers == m.maxRemotePeers
  {
    if ev.Publish? || ev.Unpublish? || IsReplaceStep(ev) {
      TrackStepFrame(m, ev);
      hide Apply;
    } else if ev.Authorize? || ev.Revoke? {
      LinkStepKeepsLimit(m, ev);
    } else {
      hide CreatePeer, Dispose;
      match ev
      case Connect(p) => CreateKeepsLimit(m, p);
      case Recreate(p) => if p in m.peers { CloseLowers(m, p); CreateKeepsLimit(Dispose(m, p), p); }
      case Disconnect(p) => if p in m.peers { CloseLowers(m, p); }
      case _ =>
    }
  }

  ghost predicate AllClean(m: Mesh, evs: seq<Event>)
    decreases |evs|
  {
    evs != [] ==> Clean(m, evs[0]) && AllClean(Apply(m, evs[0]), evs[1..])
  }

  lemma {:induction false} RunKeepsTables(m: Mesh, evs: seq<Event>)
    requires SendersRight(m) && StreamsHeld(m) && WithinLimit(m) && AllClean(m, evs)
    ensures SendersRight(Run(m, evs)) && StreamsHeld(Run(m, evs)) && WithinLimit(Run(m, evs)) && Run(m, evs).maxRemotePeers == m.maxRemotePeers
    decreases |evs|
  {
    hide SendersRight, StreamsHeld, WithinLimit, Apply, Clean;
    if evs != [] {
      StepKeepsSenders(m, evs[0]);
      StepKeepsStreams(m, evs[0]);
      StepKeepsLimit(m, evs[0]);
      RunKeepsTables(Apply(m, evs[0]), evs[1..]);
    }
  }

  /**
    After every sequence of clean steps, replacements included, each live peer's senders are the published tracks if it is
    authorised and nothing otherwise, listed streams of others are off, and the limit holds.
  */
  lemma {:induction false} TablesAgree(maxRemotePeers: nat, evs: seq<Event>)
    requires AllClean(Start(maxRemotePeers), evs)
    ensures var m := Run(Start(maxRemotePeers), evs);
      && (m.replacing.None? ==> forall p | p in m.peers :: Carried(m.peers[p]) == if !m.required || p in m.authorized then multiset(m.tracks) else multiset{})
      && (forall s | s in m.pending + m.active && m.required && s.0 !in m.authorized :: s !in m.enabled)
      && |m.peers| <= maxRemotePeers
  {
    RunKeepsTables(Start(maxRemotePeers), evs);
    hide Carried;
  }

  // ---- What the spoiling steps do ----

  /** A peer that is revoked while its sender is listed gets the new track all the same. */
  lemma RevokedPeerGetsTheTrack(m: Mesh, p: Peer)
    requires m.required && m.replacing.Some? && p in m.peers && m.peers[p].listed.Todo?
    ensures var m' := Apply(Apply(m, Revoke(p)), SwapSender(p));
      !Allowed(m', p) && p in m'.peers && Carried(m'.peers[p]) == multiset{m.replacing.value.next}
  {
    var m1 := RevokePeer(m, p);
    assert m1.peers[p] == Emptied(m.peers[p]);
  }

  /** One that is revoked after its swap gets the old track back when the replacement fails. */
  lemma RevokedPeerGetsItBack(m: Mesh, p: Peer)
    requires m.required && m.replacing.Some? && p in m.peers && m.peers[p].listed.Done?
    ensures var m' := Apply(Apply(m, Revoke(p)), FailReplace);
      !Allowed(m', p) && p in m'.peers && Carried(m'.peers[p]) == multiset{m.replacing.value.previous}
  {
    var m1 := RevokePeer(m, p);
    assert m1.peers[p] == Emptied(m.peers[p]);
    EmptiedEffect(m.peers[p], m.replacing.value.previous, m.replacing.value.next);
    FreshCarries(IfRolledBack(m1.peers[p], m.replacing.value.previous));
  }

  // ---- What is heard ----

  /** A stream is delivered only from an authorised peer, and it is on unless it arrived before and was switched off. */
  lemma DeliversOnlyAuthorised(m: Mesh, ev: Event, s: (Peer, Stream))
    requires s in Delivered(m, ev)
    ensures var m' := Apply(m, ev); Allowed(m', s.0) && s in m'.active && (s !in m'.enabled ==> ev.TrackArrived? && s in m.seen && s !in m.enabled)
  {
    hide AddMissing;
  }

  /** Every active stream of an authorised peer is on. */
  predicate AllHeard(m: Mesh) { forall s | s in m.active && Allowed(m, s.0) :: s in m.enabled }

  lemma AuthorizeHeard(m: Mesh, p: Peer)
    requires AllHeard(m) && StreamsHeld(m)
    ensures AllHeard(AuthorizePeer(m, p)) <==> !exists s :: s in m.active - m.pending && s.0 == p && s !in m.enabled
  {
    hide AddMissing;
  }

  lemma RevokeHeard(m: Mesh, p: Peer)
    requires AllHeard(m) && StreamsHeld(m)
    ensures AllHeard(RevokePeer(m, p)) <==> !(!m.required && exists s :: s in m.active && s.0 == p)
  {
    hide Emptied;
    var m' := RevokePeer(m, p);
    if !m.required {
      if s :| s in m.active && s.0 == p { assert s in m'.active && s !in m'.enabled; }
    }
  }

  lemma CloseHeard(m: Mesh, p: Peer)
    requires AllHeard(m) && StreamsHeld(m)
    ensures AllHeard(Dispose(m, p)) && AllHeard(DisconnectPeer(m, p)) && AllHeard(CreatePeer(m, p))
  {
    hide Fresh;
  }

  lemma ReceiveHeard(m: Mesh, p: Peer, s: Stream)
    requires AllHeard(m) && StreamsHeld(m)
    ensures AllHeard(ReceiveStream(m, p, s)) <==> !(p in m.peers && Allowed(m, p) && (p, s) in m.seen && (p, s) !in m.enabled)
  {
  }

  /**
    This holds exactly until a revoked peer with active streams is authorised again, a stream that was switched off arrives
    again, or a peer with active streams is revoked where nothing is required.
  */
  lemma HeardExactlyWhen(m: Mesh, ev: Event)
    requires AllHeard(m) && StreamsHeld(m)
    ensures AllHeard(Apply(m, ev)) <==>
      && !(ev.Authorize? && exists s :: s in m.active - m.pending && s.0 == ev.peer && s !in m.enabled)
      && !(ev.Revoke? && !m.required && exists s :: s in m.active && s.0 == ev.peer)
      && !(ev.TrackArrived? && ev.peer in m.peers && Allowed(m, ev.peer) && (ev.peer, ev.stream) in m.seen && (ev.peer, ev.stream) !in m.enabled)
  {
    if ev.Publish? || ev.Unpublish? || IsReplaceStep(ev) {
      TrackStepFrame(m, ev);
      hide Apply;
    } else if ev.RequireAuthorization? {
      assert m.peers == map[] ==> forall s | s in m.active :: IsLive(m, s);
    } else {
      hide AllHeard, StreamsHeld, CreatePeer, AuthorizePeer, RevokePeer, Dispose, DisconnectPeer, ReceiveStream;
      match ev
      case Connect(p) => CloseHeard(m, p);
      case Authorize(p) => AuthorizeHeard(m, p);
      case Revoke(p) => RevokeHeard(m, p);
      case Recreate(p) => CloseHeard(m, p); CloseKeepsStreams(m, p); CloseHeard(Dispose(m, p), p);
      case Disconnect(p) => CloseHeard(m, p);
      case TrackArrived(p, s) => ReceiveHeard(m, p, s);
    }
  }

  /** Every stream that is switched on is listed as active and comes from an authorised peer. */
  predicate OnlyListedStreamsPlay(m: Mesh) { forall s | s in m.enabled :: s in m.active && Allowed(m, s.0) }

  /** This holds exactly until a peer with a playing stream is disconnected. */
  lemma PlaysListedExactlyWhen(m: Mesh, ev: Event)
    requires StreamsHeld(m) && m.required && OnlyListedStreamsPlay(m)
    ensures OnlyListedStreamsPlay(Apply(m, ev)) <==>
      !(ev.Disconnect? && ev.peer in m.peers && exists s :: s in m.enabled && s.0 == ev.peer)
  {
    if ev.Publish? || ev.Unpublish? || IsReplaceStep(ev) {
      TrackStepFrame(m, ev);
    } else {
      hide AddMissing, Emptied, Fresh;
    }
  }

  // ---- The class ----

  function AddedToAll(peers: map<Peer, Link>, to: set<Peer>, t: Track): map<Peer, Link> {
    map p | p in peers :: if p in to then AddTo(peers[p], t) else peers[p]
  }

  /** The loop of `publishTrack`; `to` are the peers that may receive media. */
  method AddToAll(peers: map<Peer, Link>, to: set<Peer>, t: Track) returns (r: map<Peer, Link>)
    ensures r == AddedToAll(peers, to, t)
  {
    hide AddTo;
    r := map[];
    var rest := peers.Keys;
    while rest != {}
      invariant forall p :: p in peers <==> p in rest || p in r
      invariant forall p | p in r :: r[p] == if p in to then AddTo(peers[p], t) else peers[p]
      decreases |rest|
    {
      var p :| p in rest;
      rest := rest - {p};
      var link := peers[p];
      if p in to { link := AddTo(link, t); }
      r := r[p := link];
    }
  }

  function Receivers(m: Mesh): set<Peer> { set p | p in m.peers && Allowed(m, p) }

  lemma PublishIsAddToAll(m: Mesh, t: Track)
    ensures Apply(m, Publish(t)) == m.(tracks := m.tracks + {t}, peers := AddedToAll(m.peers, Receivers(m), t))
  {
    hide AddTo;
    assert PublishTrack(m, t).peers == AddedToAll(m.peers, Receivers(m), t);
  }

  function RemovedFromAll(peers: map<Peer, Link>, t: Track): map<Peer, Link> { map p | p in peers :: Without(peers[p], t) }

  /** The loop of `unpublishTrack`. */
  method RemoveFromAll(peers: map<Peer, Link>, t: Track) returns (r: map<Peer, Link>)
    ensures r == RemovedFromAll(peers, t)
  {
    hide Without;
    r := map[];
    var rest := peers.Keys;
    while rest != {}
      invariant forall p :: p in peers <==> p in rest || p in r
      invariant forall p | p in r :: r[p] == Without(peers[p], t)
      decreases |rest|
    {
      var p :| p in rest;
      rest := rest - {p};
      r := r[p := Without(peers[p], t)];
    }
  }

  function AllListed(peers: map<Peer, Link>, previous: Track): map<Peer, Link> { map p | p in peers :: List(peers[p], previous) }

  function AllFinished(peers: map<Peer, Link>, next: Track): map<Peer, Link> { map p | p in peers :: Fresh(IfFinished(peers[p], next)) }

  lemma BeginIsAllListed(m: Mesh, previous: Track, next: Track)
    requires m.replacing.None? && previous in m.tracks
    ensures Apply(m, BeginReplace(previous, next)) == m.(replacing := Some(Replacement(previous, next, false)), peers := AllListed(m.peers, previous))
  {
    hide List;
  }

  lemma FinishIsAllFinished(m: Mesh)
    requires m.replacing.Some? && !m.replacing.value.lost && AllSwapped(m)
    ensures Apply(m, FinishReplace) == m.(replacing := None, tracks := Future(m, m.replacing.value), peers := AllFinished(m.peers, m.replacing.value.next))
  {
    hide IfFinished, Fresh;
  }

  /** The list `replacePublishedTrack` makes of the senders that carry the old track. */
  method ListSenders(peers: map<Peer, Link>, previous: Track) returns (r: map<Peer, Link>)
    ensures r == AllListed(peers, previous)
  {
    hide List;
    r := map[];
    var rest := peers.Keys;
    while rest != {}
      invariant forall p :: p in peers <==> p in rest || p in r
      invariant forall p | p in r :: r[p] == List(peers[p], previous)
      decreases |rest|
    {
      var p :| p in rest;
      rest := rest - {p};
      r := r[p := List(peers[p], previous)];
    }
  }

  lemma NothingToReplace(m: Mesh, previous: Track, next: Track)
    requires previous !in m.tracks
    ensures Apply(m, BeginReplace(previous, next)) == m
  {
  }

  /** The loop of `authorizePeerMedia` over the published tracks. */
  method AddTracks(l: Link, tracks: set<Track>) returns (r: Link)
    ensures r == AddMissing(l, tracks)
  {
    var rest, others := tracks, l.others;
    ghost var added: set<Track> := {};
    while rest != {}
      invariant rest <= tracks && added == set t | t in tracks - rest && t !in Carried(l)
      invariant others == l.others + multiset(added)
      decreases |rest|
    {
      var t :| t in rest;
      if t !in Carried(l) {
        OneMoreTrack(added, t);
        others, added := others + multiset{t}, added + {t};
      }
      rest := rest - {t};
    }
    assert added == set t | t in tracks && t !in Carried(l);
    r := l.(others := others);
  }

  /** The listed senders rejoin the others. */
  method FinishAll(peers: map<Peer, Link>, next: Track) returns (r: map<Peer, Link>)
    ensures r == AllFinished(peers, next)
  {
    hide IfFinished, Fresh;
    r := map p | p in peers :: Fresh(IfFinished(peers[p], next));
  }

  /** The tables as fields, with the loops over all peers. */
  class MeshTransport {
    const maxRemotePeers: nat
    var required: bool
    var authorized: set<Peer>
    var tracks: set<Track>
    var peers: map<Peer, Link>
    var replacing: Option<Replacement>
    var pending: set<(Peer, Stream)>
    var active: set<(Peer, Stream)>
    var enabled: set<(Peer, Stream)>
    ghost var seen: set<(Peer, Stream)>

    constructor (maxRemotePeers: nat)
      ensures View() == Start(maxRemotePeers)
    {
      this.maxRemotePeers := maxRemotePeers;
      required, authorized, tracks, peers, replacing := false, {}, {}, map[], None;
      pending, active, enabled, seen := {}, {}, {}, {};
    }

    ghost function View(): Mesh
      reads this
    {
      Mesh(maxRemotePeers, required, authorized, tracks, peers, replacing, pending, active, enabled, seen)
    }

    method ConnectPeer(p: Peer) returns (ok: bool)
      modifies this`peers
      ensures View() == Apply(old(View()), Connect(p)) && ok == (p in peers)
    {
      if p in peers { return true; }
      if |peers| >= maxRemotePeers { return false; }
      peers := peers[p := Fresh(multiset{})];
      if !required || p in authorized { peers := peers[p := Fresh(multiset(tracks))]; }
      ok := true;
    }

    method PublishLocal(t: Track)
      modifies this`tracks, this`peers
      ensures View() == Apply(old(View()), Publish(t))
    {
      hide AddedToAll, Apply;
      PublishIsAddToAll(View(), t);
      var to := set p | p in peers && (!required || p in authorized);
      assert to == Receivers(View());
      peers := AddToAll(peers, to, t);
      tracks := tracks + {t};
    }

    method UnpublishLocal(t: Track)
      modifies this`tracks, this`peers
      ensures View() == Apply(old(View()), Unpublish(t))
    {
      hide Without;
      peers := RemoveFromAll(peers, t);
      tracks := tracks - {t};
    }

    method AuthorizeMedia(p: Peer)
      modifies this
      ensures View() == Apply(old(View()), Authorize(p))
    {
      hide AddMissing;
      authorized := authorized + {p};
      if p !in peers { return; }
      var waiting := set s | s in pending && s.0 == p;
      pending, active, enabled := pending - waiting, active + waiting, enabled + waiting;
      var link := AddTracks(peers[p], tracks);
      peers := peers[p := link];
    }

    method RevokeMedia(p: Peer)
      modifies this
      ensures View() == Apply(old(View()), Revoke(p))
    {
      hide Emptied;
      authorized := authorized - {p};
      var off := set s | s in pending + active && s.0 == p;
      enabled := enabled - off;
      pending := set s | s in pending && s.0 != p;
      if p in peers { peers := peers[p := Emptied(peers[p])]; }
      assert off == StreamsOf(p, old(pending)) + StreamsOf(p, active);
    }

    /** `replacePublishedTrack` up to its first await; `ok` is false when the old track is not published. */
    method StartReplacement(previous: Track, next: Track) returns (ok: bool)
      requires replacing.None?
      modifies this`peers, this`replacing
      ensures View() == Apply(old(View()), BeginReplace(previous, next)) && ok == (previous in tracks)
    {
      hide Apply, AllListed;
      ok := previous in tracks;
      if !ok {
        NothingToReplace(View(), previous, next);
        return;
      }
      BeginIsAllListed(View(), previous, next);
      peers := ListSenders(peers, previous);
      replacing := Some(Replacement(previous, next, false));
    }

    /** After one awaited `replaceTrack` has succeeded. */
    method SenderSwapped(p: Peer)
      requires replacing.Some? && p in peers && peers[p].listed.Todo?
      modifies this`peers
      ensures View() == Apply(old(View()), SwapSender(p))
    {
      peers := peers[p := peers[p].(listed := Done(Some(replacing.value.next)))];
    }

    /** After the last one. */
    method FinishReplacement()
      requires replacing.Some? && !replacing.value.lost && AllSwapped(View())
      modifies this`peers, this`tracks, this`replacing
      ensures View() == Apply(old(View()), FinishReplace)
    {
      hide Apply, AllFinished, AllSwapped;
      var r := replacing.value;
      FinishIsAllFinished(View());
      peers := FinishAll(peers, r.next);
      tracks := tracks - {r.previous};
      tracks := tracks + {r.next};
      replacing := None;
    }
  }
}

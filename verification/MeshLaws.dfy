/** What each call may change in the tables of the mesh, table by table, and what becomes of a stream that comes too early. */
module MeshLaws {
  import opened Common
  import opened MeshTables

  /** The connection of `p` is closed, for good or to be built anew. */
  predicate Closes(m: Mesh, ev: Event, p: Peer) { p in m.peers && (ev == Disconnect(p) || ev == Recreate(p)) }

  /** The replacement that ends here, if it succeeds. */
  predicate Replaces(m: Mesh, ev: Event) { ev.FinishReplace? && m.replacing.Some? && !m.replacing.value.lost && AllSwapped(m) }

  function Of(p: Peer, streams: set<(Peer, Stream)>): set<(Peer, Stream)> { set s | s in streams && s.0 == p }

  /** The streams that are switched off when `p` is closed: `disconnect` forgets the active ones. */
  function SwitchedOff(m: Mesh, ev: Event, p: Peer): set<(Peer, Stream)> {
    Of(p, m.pending) + if ev.Disconnect? then {} else Of(p, m.active)
  }

  lemma CreateLeaves(m: Mesh, p: Peer)
    ensures CreatePeer(m, p) == m.(peers := CreatePeer(m, p).peers)
  {
    hide Fresh;
  }

  /** The sets after a step that is not about tracks. */
  lemma StreamFields(m: Mesh, ev: Event)
    requires !ev.Publish? && !ev.Unpublish? && !IsReplaceStep(ev)
    ensures var n := Apply(m, ev);
      match ev
      case RequireAuthorization => n == m.(required := n.required) && n.required == (m.required || m.peers == map[])
      case Connect(_) => n == m.(peers := n.peers)
      case Authorize(p) =>
        && n.required == m.required && n.authorized == m.authorized + {p} && n.seen == m.seen
        && (if p in m.peers then n.pending == m.pending - Of(p, m.pending) && n.active == m.active + Of(p, m.pending) && n.enabled == m.enabled + Of(p, m.pending)
            else n.pending == m.pending && n.active == m.active && n.enabled == m.enabled)
      case Revoke(p) =>
        && n.required == m.required && n.authorized == m.authorized - {p} && n.seen == m.seen
        && n.pending == m.pending - Of(p, m.pending) && n.active == m.active && n.enabled == m.enabled - Of(p, m.pending) - Of(p, m.active)
      case TrackArrived(p, s) =>
        && n.required == m.required && n.authorized == m.authorized
        && (p !in m.peers ==> n == m)
        && (p in m.peers && Allowed(m, p) ==>
              n.pending == m.pending && n.active == m.active + {(p, s)} && n.enabled == m.enabled + if (p, s) in m.seen then {} else {(p, s)})
        && (p in m.peers && !Allowed(m, p) ==>
              n.pending == m.pending + {(p, s)} && n.active == m.active && n.enabled == m.enabled - {(p, s)})
      case _ =>
        && n.required == m.required && n.seen == m.seen
        && (if ev.peer in m.peers then
              && n.authorized == m.authorized - {ev.peer} && n.pending == m.pending - Of(ev.peer, m.pending)
              && n.active == m.active - Of(ev.peer, m.active) && n.enabled == m.enabled - SwitchedOff(m, ev, ev.peer)
            else n == m)
  {
    hide Fresh, AddMissing, Emptied, LoseSender;
    if ev.Recreate? {
      CreateLeaves(Dispose(m, ev.peer), ev.peer);
      hide CreatePeer;
    }
    assert forall p, streams :: Of(p, streams) == StreamsOf(p, streams);
  }

  lemma LiveExactlyWhen(m: Mesh, ev: Event, p: Peer)
    requires |m.peers| <= m.maxRemotePeers
    ensures p in Apply(m, ev).peers <==> (p in m.peers && ev != Disconnect(p)) || (ev == Connect(p) && |m.peers| < m.maxRemotePeers)
  {
    if ev.Publish? || ev.Unpublish? || IsReplaceStep(ev) {
      TrackStepFrame(m, ev);
      hide Apply;
    }
    hide Fresh, AddMissing, Emptied, Without, AddTo, List, PublishTrack, UnpublishTrack, StartReplacing, Swap, FinishNow, RollBackNow, LoseSender;
    if ev.Recreate? && ev.peer in m.peers {
      assert (m.peers - {ev.peer}).Keys + {ev.peer} == m.peers.Keys;
      assert |(m.peers - {ev.peer}).Keys| < |m.peers.Keys|;
    }
  }

  lemma AuthorizedExactlyWhen(m: Mesh, ev: Event, p: Peer)
    ensures p in Apply(m, ev).authorized <==> ev == Authorize(p) || (p in m.authorized && ev != Revoke(p) && !Closes(m, ev, p))
    ensures Apply(m, ev).required <==> m.required || (ev.RequireAuthorization? && m.peers == map[])
  {
    hide Apply, AllSwapped;
    if ev.Publish? || ev.Unpublish? || IsReplaceStep(ev) { TrackStepFrame(m, ev); } else { StreamFields(m, ev); }
  }

  lemma PublishedExactlyWhen(m: Mesh, ev: Event, t: Track)
    ensures t in Apply(m, ev).tracks
       <==> || ev == Publish(t) || (Replaces(m, ev) && t == m.replacing.value.next)
            || (t in m.tracks && ev != Unpublish(t) && !(Replaces(m, ev) && t == m.replacing.value.previous))
  {
    hide Fresh, AddMissing, Emptied, Without, AddTo, List, AllSwapped;
  }

  /** A stream of a peer that is not authorised waits until the peer is authorised, revoked or closed. */
  lemma PendingExactlyWhen(m: Mesh, ev: Event, p: Peer, s: Stream)
    ensures (p, s) in Apply(m, ev).pending
       <==> || (ev == TrackArrived(p, s) && p in m.peers && m.required && p !in m.authorized)
            || ((p, s) in m.pending && !(ev == Authorize(p) && p in m.peers) && ev != Revoke(p) && !Closes(m, ev, p))
  {
    hide Apply, AllSwapped;
    if ev.Publish? || ev.Unpublish? || IsReplaceStep(ev) { TrackStepFrame(m, ev); } else { StreamFields(m, ev); }
  }

  /** A stream becomes active when it arrives from an authorised peer or its peer is authorised, and stays so until the peer is closed. */
  lemma ActiveExactlyWhen(m: Mesh, ev: Event, p: Peer, s: Stream)
    ensures (p, s) in Apply(m, ev).active
       <==> || (ev == TrackArrived(p, s) && p in m.peers && (!m.required || p in m.authorized))
            || (ev == Authorize(p) && p in m.peers && (p, s) in m.pending)
            || ((p, s) in m.active && !Closes(m, ev, p))
  {
    hide Apply, AllSwapped;
    if ev.Publish? || ev.Unpublish? || IsReplaceStep(ev) { TrackStepFrame(m, ev); } else { StreamFields(m, ev); }
  }

  /** What switches a stream on, and what switches it off. */
  lemma EnabledExactlyWhen(m: Mesh, ev: Event, p: Peer, s: Stream)
    ensures (p, s) in Apply(m, ev).enabled
       <==> || (ev == Authorize(p) && p in m.peers && (p, s) in m.pending)
            || (ev == TrackArrived(p, s) && p in m.peers && (!m.required || p in m.authorized) && (p, s) !in m.seen)
            || ((p, s) in m.enabled
                && !(ev == Revoke(p) && ((p, s) in m.pending || (p, s) in m.active))
                && !(Closes(m, ev, p) && ((p, s) in m.pending || (ev.Recreate? && (p, s) in m.active)))
                && !(ev == TrackArrived(p, s) && p in m.peers && m.required && p !in m.authorized))
  {
    hide Apply, AllSwapped;
    if ev.Publish? || ev.Unpublish? || IsReplaceStep(ev) { TrackStepFrame(m, ev); } else { StreamFields(m, ev); }
  }

  /** What is handed over: what has been waiting for its authorisation, and what comes from an authorised peer. */
  lemma DeliveredExactlyWhen(m: Mesh, ev: Event, p: Peer, s: Stream)
    ensures (p, s) in Delivered(m, ev)
       <==> p in m.peers && ((ev == Authorize(p) && (p, s) in m.pending) || (ev == TrackArrived(p, s) && (!m.required || p in m.authorized)))
    ensures (p, s) in Apply(m, ev).active && (p, s) !in m.active ==> (p, s) in Delivered(m, ev)
  {
    ActiveExactlyWhen(m, ev, p, s);
    hide Apply;
  }

  /** Authorising a peer delivers every stream of it that has been waiting, and switches it on. */
  lemma AuthorizingDelivers(m: Mesh, p: Peer, s: Stream)
    requires (p, s) in m.pending && p in m.peers
    ensures (p, s) in Delivered(m, Authorize(p)) && (p, s) in Apply(m, Authorize(p)).active && (p, s) in Apply(m, Authorize(p)).enabled
  {
    ActiveExactlyWhen(m, Authorize(p), p, s);
    EnabledExactlyWhen(m, Authorize(p), p, s);
  }

  predicate Concerns(ev: Event, p: Peer) {
    (ev.Authorize? || ev.Revoke? || ev.Recreate? || ev.Disconnect? || ev.TrackArrived?) && ev.peer == p
  }

  /**
    A stream that arrives before its peer is authorised is not lost: whatever happens to others meanwhile it is kept back,
    switched off and undelivered, and the authorisation delivers it.
  */
  lemma {:induction false} EarlyStreamIsDelivered(m: Mesh, p: Peer, s: Stream, evs: seq<Event>)
    requires p in m.peers && m.required && p !in m.authorized && |m.peers| <= m.maxRemotePeers
    requires forall k | 0 <= k < |evs| :: !Concerns(evs[k], p)
    ensures var later := Run(Apply(m, TrackArrived(p, s)), evs);
      && p in later.peers && (p, s) in later.pending && (p, s) !in later.enabled
      && (p, s) in Delivered(later, Authorize(p)) && (p, s) in Apply(later, Authorize(p)).enabled
  {
    var m1 := Apply(m, TrackArrived(p, s));
    StaysPending(m1, p, s, evs);
    AuthorizingDelivers(Run(m1, evs), p, s);
  }

  lemma {:induction false} StaysPending(m: Mesh, p: Peer, s: Stream, evs: seq<Event>)
    requires p in m.peers && |m.peers| <= m.maxRemotePeers && (p, s) in m.pending && (p, s) !in m.enabled
    requires forall k | 0 <= k < |evs| :: !Concerns(evs[k], p)
    ensures var later := Run(m, evs); p in later.peers && (p, s) in later.pending && (p, s) !in later.enabled
    decreases |evs|
  {
    if evs != [] {
      LiveExactlyWhen(m, evs[0], p);
      PendingExactlyWhen(m, evs[0], p, s);
      EnabledExactlyWhen(m, evs[0], p, s);
      StepKeepsLimit(m, evs[0]);
      hide Apply;
      assert forall k | 0 <= k < |evs| - 1 :: evs[1..][k] == evs[k + 1];
      StaysPending(Apply(m, evs[0]), p, s, evs[1..]);
    }
  }

  // ---- A replacement ----

  /** The connection whose sender was next is closed under the replacement. */
  predicate Strips(m: Mesh, ev: Event) {
    (ev.Disconnect? || ev.Recreate?) && ev.peer in m.peers && m.replacing.Some? && m.peers[ev.peer].listed.Todo?
  }

  /** A replacement is in flight from its call to its failure or its last swap; it is lost when a connection is closed before its turn. */
  lemma ReplacingExactly(m: Mesh, ev: Event)
    ensures Apply(m, ev).replacing ==
      if ev.BeginReplace? && ev.previous in m.tracks && m.replacing.None? then Some(Replacement(ev.previous, ev.next, false))
      else if ev.FailReplace? || Replaces(m, ev) then None
      else if Strips(m, ev) then Some(m.replacing.value.(lost := true))
      else m.replacing
  {
    hide Fresh, AddMissing, Emptied, Without, AddTo, List, AllSwapped;
    if ev.Recreate? && ev.peer in m.peers { CreateLeaves(Dispose(m, ev.peer), ev.peer); }
  }

  /** A lost replacement cannot finish, and neither can one that has a sender left to swap. */
  lemma FinishesOnlyWhole(m: Mesh)
    requires m.replacing.Some? && (m.replacing.value.lost || exists p :: p in m.peers && m.peers[p].listed.Todo?)
    ensures Apply(m, FinishReplace) == m
  {
  }

  /** Each awaited swap puts the new track on one listed sender and touches nothing else. */
  lemma SwapsOne(m: Mesh, p: Peer)
    ensures m.replacing.Some? && p in m.peers && m.peers[p].listed.Todo? ==>
      Apply(m, SwapSender(p)) == m.(peers := m.peers[p := Link(m.peers[p].others, Done(Some(m.replacing.value.next)))])
    ensures !(m.replacing.Some? && p in m.peers && m.peers[p].listed.Todo?) ==> Apply(m, SwapSender(p)) == m
  {
  }
}

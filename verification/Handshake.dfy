/**
  The peer sets of a chat session while identity proofs are being checked: `SyncService`, the peer tables of
  `GroupChatService` and the sets of `ChatController`.  Only authenticated sessions are covered.
*/
module Handshake {
  import opened Common

  type Peer = nat

  /** A signature check in flight: a handshake proof or a profile update. */
  datatype Check = ProofCheck(session: nat, peer: Peer, nonce: nat) | ProfileCheck(peer: Peer)

  /**
    `members` is the list installed last, `since` and `provenBy` record for each peer the next nonce when its
    channel opened and the nonce it proved; the program keeps none of the three.
  */
  datatype State = State(
    local: Peer,
    session: Option<nat>,
    sessions: nat,
    data: set<Peer>,
    open: set<Peer>,
    revocationOnly: set<Peer>,
    pending: map<Peer, nat>,
    failed: set<Peer>,
    trusted: set<Peer>,
    revoked: set<Peer>,
    nonces: nat,
    checks: map<nat, Check>,
    members: set<Peer>,
    since: map<Peer, nat>,
    provenBy: map<Peer, nat>)

  datatype Event =
    | Connect(active: set<Peer>, removed: set<Peer>)
    | Disconnect
    | ChannelOpen(peer: Peer)
    | ChannelLost(peer: Peer)
    | Retry(peer: Peer)
    | Timeout(peer: Peer)
    | ChallengeAnswered(peer: Peer)
    | ProofArrives(check: nat, peer: Peer, nonce: nat)
    | ProofChecked(check: nat, valid: bool)
    | Install(active: set<Peer>, removed: set<Peer>)
    | ProfileArrives(check: nat, peer: Peer)
    | ProfileChecked(check: nat, valid: bool)

  predicate IsAllowed(s: State, p: Peer) { p != s.local && (p in s.trusted || p in s.revoked) }

  /** `SyncService.begin`; nonces are numbered in the order they are drawn. */
  function Begin(s: State, p: Peer): State {
    if s.session.None? || p !in s.data || !IsAllowed(s, p) || p in s.open || p in s.failed || p in s.pending then s
    else s.(pending := s.pending[p := s.nonces], nonces := s.nonces + 1)
  }

  /** `SyncService.forgetPeer`. */
  function ForgetHandshake(s: State, p: Peer): State { s.(pending := s.pending - {p}, failed := s.failed - {p}) }

  /** `ChatController.forgetPeerConnection`. */
  function Forget(s: State, p: Peer): State {
    ForgetHandshake(s, p).(data := s.data - {p}, open := s.open - {p}, revocationOnly := s.revocationOnly - {p})
  }

  function Fail(s: State, p: Peer): State { s.(pending := s.pending - {p}, failed := s.failed + {p}) }

  function MarkRevoked(s: State, p: Peer): State {
    if p !in s.data || p in s.revocationOnly then s
    else ForgetHandshake(s, p).(open := s.open - {p}, revocationOnly := s.revocationOnly + {p})
  }

  function MarkReady(s: State, p: Peer, nonce: nat): State {
    if p !in s.data || p in s.open then s
    else if p in s.revoked then MarkRevoked(s, p)
    else if s.session.None? then s
    else s.(open := s.open + {p}, provenBy := s.provenBy[p := nonce])
  }

  /** `SyncService.accept` after the signature check. */
  function FinishProof(s: State, c: Check, valid: bool): State
    requires c.ProofCheck?
  {
    var p := c.peer;
    if s.session != Some(c.session) || p !in s.pending || s.pending[p] != c.nonce then s
    else if !valid then Fail(s, p)
    else
      var s' := s.(pending := s.pending - {p}, failed := s.failed - {p});
      if p in s.revoked then MarkRevoked(s', p) else MarkReady(s', p, c.nonce)
  }

  /** `installGroupPeers`: the tables are replaced, then every connected peer that is revoked or unknown is handled. */
  function InstallPeers(s: State, active: set<Peer>, removed: set<Peer>): State {
    var revoked := removed - active;
    var nowRevoked, unknown := s.data * revoked, s.data - revoked - active;
    var handled := (nowRevoked - s.revocationOnly) + unknown;
    s.(trusted := active, revoked := revoked, members := active,
       data := s.data - unknown,
       open := s.open - nowRevoked - unknown,
       revocationOnly := s.revocationOnly + nowRevoked - unknown,
       pending := s.pending - handled,
       failed := s.failed - handled)
  }

  /** `disconnect`; checks stay in flight. */
  function Clear(s: State): State {
    s.(session := None, data := {}, open := {}, revocationOnly := {}, pending := map[], failed := {}, trusted := {}, revoked := {}, members := {})
  }

  function Apply(s: State, ev: Event): State {
    match ev
    case Connect(active, removed) =>
      var members := active + {s.local};
      Clear(s).(session := Some(s.sessions), sessions := s.sessions + 1, trusted := members, revoked := removed - members, members := members)
    case Disconnect => Clear(s)
    case ChannelOpen(p) =>
      if s.session.None? then s
      else
        var since := if p in s.data then s.since else s.since[p := s.nonces];
        Begin(s.(data := s.data + {p}, failed := s.failed - {p}, since := since), p)
    case ChannelLost(p) => if s.session.None? then s else Forget(s, p)
    case Retry(p) => if p !in s.data || p in s.open then s else Begin(s, p)
    case Timeout(p) => if p !in s.data || p in s.open then s else Fail(s, p)
    case ChallengeAnswered(p) =>
      if s.session.None? || p !in s.data || p in s.open || p in s.pending || p in s.failed then s else Begin(s, p)
    case ProofArrives(c, p, nonce) =>
      if s.session.None? || !IsAllowed(s, p) || p !in s.pending || s.pending[p] != nonce || c in s.checks then s
      else s.(checks := s.checks[c := ProofCheck(s.session.value, p, nonce)])
    case ProofChecked(c, valid) =>
      if !(c in s.checks && s.checks[c].ProofCheck?) then s
      else FinishProof(s.(checks := s.checks - {c}), s.checks[c], valid)
    case Install(active, removed) => InstallPeers(s, active, removed)
    case ProfileArrives(c, p) =>
      if p !in s.open || p in s.revocationOnly || !IsAllowed(s, p) || c in s.checks then s
      else s.(checks := s.checks[c := ProfileCheck(p)])
    case ProfileChecked(c, valid) =>
      if !(c in s.checks && s.checks[c].ProfileCheck?) then s
      else
        var s' := s.(checks := s.checks - {c});
        if valid then s'.(trusted := s'.trusted + {s.checks[c].peer}) else s'
  }

  function Run(s: State, evs: seq<Event>): State
    decreases |evs|
  {
    if evs == [] then s else Run(Apply(s, evs[0]), evs[1..])
  }

  function Start(local: Peer): State {
    State(local, None, 0, {}, {}, {}, map[], {}, {}, {}, 0, map[], {}, map[], map[])
  }

  // ---- The invariant ----

  ghost predicate Inv(s: State) {
    && s.open <= s.data * s.trusted && s.open !! s.revoked && s.local !in s.open
    && s.revocationOnly <= s.data && s.failed <= s.data
    && (forall p | p in s.pending :: p in s.data && IsAllowed(s, p) && p !in s.open)
    && (forall p | p in s.data :: p in s.since && s.since[p] <= s.nonces)
    && (forall p | p in s.pending :: s.since[p] <= s.pending[p] < s.nonces)
    && (forall p | p in s.open :: p in s.provenBy && s.since[p] <= s.provenBy[p] < s.nonces)
    && (s.session.None? ==> s.data == {})
  }

  lemma MarkKeepsInv(s: State, p: Peer, nonce: nat)
    requires Inv(s)
    ensures Inv(MarkRevoked(s, p))
    ensures p in s.data && p !in s.revoked && p in s.trusted && p != s.local && p !in s.pending && s.since[p] <= nonce < s.nonces
        ==> Inv(MarkReady(s, p, nonce))
  {
  }

  lemma FinishProofKeepsInv(s: State, c: Check, valid: bool)
    requires Inv(s) && c.ProofCheck?
    ensures Inv(FinishProof(s, c, valid))
  {
    var p := c.peer;
    if s.session == Some(c.session) && p in s.pending && s.pending[p] == c.nonce {
      ForgetKeepsInv(s, p);
      var s' := s.(pending := s.pending - {p}, failed := s.failed - {p});
      assert Inv(s');
      hide Inv, MarkRevoked, MarkReady;
      MarkKeepsInv(s', p, c.nonce);
    }
  }

  lemma InstallKeepsInv(s: State, active: set<Peer>, removed: set<Peer>)
    requires Inv(s)
    ensures Inv(InstallPeers(s, active, removed))
  {
  }

  lemma BeginKeepsInv(s: State, p: Peer)
    requires Inv(s)
    ensures Inv(Begin(s, p))
  {
  }

  lemma OpenKeepsInv(s: State, p: Peer)
    requires Inv(s) && s.session.Some?
    ensures var since := if p in s.data then s.since else s.since[p := s.nonces];
      Inv(s.(data := s.data + {p}, failed := s.failed - {p}, since := since))
  {
  }

  lemma ForgetKeepsInv(s: State, p: Peer)
    requires Inv(s)
    ensures Inv(Forget(s, p)) && (p in s.data ==> Inv(Fail(s, p)))
  {
  }

  lemma ConnectKeepsInv(s: State, active: set<Peer>, removed: set<Peer>)
    requires Inv(s)
    ensures Inv(Apply(s, Connect(active, removed))) && Inv(Clear(s))
  {
  }

  lemma ProfileKeepsInv(s: State, c: nat, valid: bool)
    requires Inv(s)
    ensures Inv(Apply(s, ProfileChecked(c, valid)))
  {
  }

  lemma StepKeepsInv(s: State, ev: Event)
    requires Inv(s)
    ensures Inv(Apply(s, ev))
  {
    match ev
    case Connect(active, removed) => ConnectKeepsInv(s, active, removed);
    case ProfileChecked(c, valid) => ProfileKeepsInv(s, c, valid);
    case Disconnect => ConnectKeepsInv(s, {}, {});
    case _ => ChannelStepKeepsInv(s, ev);
  }

  lemma ChannelStepKeepsInv(s: State, ev: Event)
    requires Inv(s) && !ev.Connect? && !ev.Disconnect? && !ev.ProfileChecked?
    ensures Inv(Apply(s, ev))
  {
    hide Begin, Forget, Fail, Clear, InstallPeers, FinishProof, Inv;
    match ev
    case ChannelOpen(p) =>
      if s.session.Some? {
        OpenKeepsInv(s, p);
        var since := if p in s.data then s.since else s.since[p := s.nonces];
        BeginKeepsInv(s.(data := s.data + {p}, failed := s.failed - {p}, since := since), p);
      }
    case ChannelLost(p) => ForgetKeepsInv(s, p);
    case Retry(p) => BeginKeepsInv(s, p);
    case Timeout(p) => ForgetKeepsInv(s, p);
    case ChallengeAnswered(p) => BeginKeepsInv(s, p);
    case ProofChecked(c, valid) =>
      if c in s.checks && s.checks[c].ProofCheck? {
        ChecksKeepInv(s, s.checks - {c});
        FinishProofKeepsInv(s.(checks := s.checks - {c}), s.checks[c], valid);
      }
    case Install(active, removed) => InstallKeepsInv(s, active, removed);
    case ProofArrives(c, p, nonce) =>
      if s.session.Some? { ChecksKeepInv(s, s.checks[c := ProofCheck(s.session.value, p, nonce)]); }
    case ProfileArrives(c, p) => ChecksKeepInv(s, s.checks[c := ProfileCheck(p)]);
  }

  lemma ChecksKeepInv(s: State, checks: map<nat, Check>)
    requires Inv(s)
    ensures Inv(s.(checks := checks))
  {
  }

  lemma {:induction false} RunKeepsInv(s: State, evs: seq<Event>)
    requires Inv(s)
    ensures Inv(Run(s, evs))
    decreases |evs|
  {
    if evs != [] {
      StepKeepsInv(s, evs[0]);
      RunKeepsInv(Apply(s, evs[0]), evs[1..]);
    }
  }

  // ---- Main results ----

  /**
    In every reachable state of an authenticated session the open peers have a channel, are in the trusted table and are
    not revoked, and each has proved its identity with a nonce drawn after its present channel was opened.
  */
  lemma {:induction false} OpenPeersAreTrusted(local: Peer, evs: seq<Event>)
    ensures var s := Run(Start(local), evs);
      && s.open <= s.data * s.trusted && s.open !! s.revoked && local !in s.open
      && forall p | p in s.open :: p in s.since && p in s.provenBy && s.since[p] <= s.provenBy[p] < s.nonces
  {
    RunKeepsInv(Start(local), evs);
    RunKeepsLocal(Start(local), evs);
  }

  lemma {:induction false} RunKeepsLocal(s: State, evs: seq<Event>)
    ensures Run(s, evs).local == s.local
    decreases |evs|
  {
    if evs != [] { RunKeepsLocal(Apply(s, evs[0]), evs[1..]); }
  }

  /** An invalid proof opens nobody: it fails the peer whose challenge it was meant to answer, or changes nothing. */
  lemma InvalidProofFails(s: State, c: nat)
    requires c in s.checks && s.checks[c].ProofCheck?
    ensures var s', p := Apply(s, ProofChecked(c, false)), s.checks[c].peer;
      if Awaited(s, s.checks[c]) then s' == s.(checks := s.checks - {c}, pending := s.pending - {p}, failed := s.failed + {p})
      else s' == s.(checks := s.checks - {c})
  {
  }

  /** What forgets the failure of a peer: its channel opening or closing, a new peer list, or the end of the session. */
  predicate ForgivesAt(ev: Event, p: Peer) {
    ev.Connect? || ev.Disconnect? || ev.Install? || ((ev.ChannelOpen? || ev.ChannelLost?) && ev.peer == p)
  }

  lemma FailedStays(s: State, ev: Event, p: Peer)
    requires p in s.failed && p !in s.pending && p !in s.open && !ForgivesAt(ev, p)
    ensures var s' := Apply(s, ev); p in s'.failed && p !in s'.pending && p !in s'.open
  {
  }

  /** After an invalid proof a peer is neither asked again nor opened until its failure is forgotten. */
  lemma {:induction false} FailedIsNotAsked(s: State, evs: seq<Event>, p: Peer)
    requires p in s.failed && p !in s.pending && p !in s.open && forall k | 0 <= k < |evs| :: !ForgivesAt(evs[k], p)
    ensures var s' := Run(s, evs); p in s'.failed && p !in s'.pending && p !in s'.open
    decreases |evs|
  {
    if evs != [] {
      FailedStays(s, evs[0], p);
      hide Apply;
      assert forall k | 0 <= k < |evs| - 1 :: evs[1..][k] == evs[k + 1];
      FailedIsNotAsked(Apply(s, evs[0]), evs[1..], p);
    }
  }

  /** A step opens a peer only if it is the valid check of a proof of that peer's pending nonce, which is recorded. */
  lemma OpensOnlyWhen(s: State, ev: Event, p: Peer)
    requires p in Apply(s, ev).open
    ensures var s' := Apply(s, ev);
      || (p in s.open && (p in s.provenBy ==> p in s'.provenBy && s'.provenBy[p] == s.provenBy[p]))
      || (ev.ProofChecked? && ev.valid && ev.check in s.checks && s.checks[ev.check].ProofCheck?
          && s.checks[ev.check].peer == p && p in s.pending && s.pending[p] == s.checks[ev.check].nonce
          && p in s'.provenBy && s'.provenBy[p] == s.pending[p])
  {
  }

  lemma {:induction false} RunThenStep(s: State, evs: seq<Event>, ev: Event)
    ensures Run(s, evs + [ev]) == Apply(Run(s, evs), ev)
    decreases |evs|
  {
    hide Apply;
    if evs == [] {
      assert ([] + [ev])[1..] == [] && ([] + [ev])[0] == ev;
    } else {
      assert (evs + [ev])[1..] == evs[1..] + [ev];
      RunThenStep(Apply(s, evs[0]), evs[1..], ev);
    }
  }

  /** A proof of `nonce` by `p` arrived, and its check ended. */
  ghost predicate Arrived(evs: seq<Event>, c: nat, p: Peer, nonce: nat) { ProofArrives(c, p, nonce) in evs }

  ghost predicate Proved(evs: seq<Event>, p: Peer, nonce: nat) {
    exists k, c :: 0 <= k < |evs| && evs[k] == ProofChecked(c, true) && Arrived(evs[..k], c, p, nonce)
  }

  lemma HistoryGrows(evs: seq<Event>, ev: Event, c: nat, p: Peer, nonce: nat)
    ensures Arrived(evs, c, p, nonce) ==> Arrived(evs + [ev], c, p, nonce)
    ensures ev == ProofArrives(c, p, nonce) ==> Arrived(evs + [ev], c, p, nonce)
    ensures Proved(evs, p, nonce) ==> Proved(evs + [ev], p, nonce)
    ensures ev == ProofChecked(c, true) && Arrived(evs, c, p, nonce) ==> Proved(evs + [ev], p, nonce)
  {
    var all := evs + [ev];
    assert all[|evs|] == ev && all[..|evs|] == evs;
    if Proved(evs, p, nonce) {
      var k, c' :| 0 <= k < |evs| && evs[k] == ProofChecked(c', true) && Arrived(evs[..k], c', p, nonce);
      assert all[k] == ProofChecked(c', true) && all[..k] == evs[..k];
    }
  }

  ghost predicate AllProved(evs: seq<Event>, s: State) {
    && (forall c | c in s.checks && s.checks[c].ProofCheck? :: Arrived(evs, c, s.checks[c].peer, s.checks[c].nonce))
    && (forall p | p in s.open :: p in s.provenBy && Proved(evs, p, s.provenBy[p]))
  }

  /** A check in flight was there before, or its proof has just arrived. */
  lemma ChecksArrive(s: State, ev: Event, c: nat)
    requires c in Apply(s, ev).checks && Apply(s, ev).checks[c].ProofCheck?
    ensures var check := Apply(s, ev).checks[c];
      (c in s.checks && s.checks[c] == check) || ev == ProofArrives(c, check.peer, check.nonce)
  {
  }

  lemma StepKeepsProved(evs: seq<Event>, s: State, ev: Event)
    requires AllProved(evs, s)
    ensures AllProved(evs + [ev], Apply(s, ev))
  {
    hide Apply, Arrived, Proved;
    var s' := Apply(s, ev);
    forall c | c in s'.checks && s'.checks[c].ProofCheck? ensures Arrived(evs + [ev], c, s'.checks[c].peer, s'.checks[c].nonce) {
      ChecksArrive(s, ev, c);
      HistoryGrows(evs, ev, c, s'.checks[c].peer, s'.checks[c].nonce);
    }
    forall p | p in s'.open ensures p in s'.provenBy && Proved(evs + [ev], p, s'.provenBy[p]) {
      OpensOnlyWhen(s, ev, p);
      var c := if ev.ProofChecked? then ev.check else 0;
      HistoryGrows(evs, ev, c, p, s'.provenBy[p]);
    }
  }

  /** In every run, each open peer got there by a valid check of a proof that had arrived with the nonce it counts as having proved. */
  lemma {:induction false} OpenPeersProved(local: Peer, evs: seq<Event>)
    ensures var s := Run(Start(local), evs); forall p | p in s.open :: p in s.provenBy && Proved(evs, p, s.provenBy[p])
  {
    ProvedAlong(local, evs);
  }

  lemma {:induction false} ProvedAlong(local: Peer, evs: seq<Event>)
    ensures AllProved(evs, Run(Start(local), evs))
    decreases |evs|
  {
    if evs != [] {
      var front, last := evs[..|evs| - 1], evs[|evs| - 1];
      assert front + [last] == evs;
      ProvedAlong(local, front);
      hide AllProved, Run, Apply;
      StepKeepsProved(front, Run(Start(local), front), last);
      RunThenStep(Start(local), front, last);
    }
  }

  /** A valid proof of a pending challenge opens the peer, or marks it as one to be told of its revocation. */
  lemma ValidProofOpens(s: State, c: nat, p: Peer)
    requires Inv(s) && s.session.Some? && p in s.pending && c !in s.checks
    ensures var s' := Apply(Apply(s, ProofArrives(c, p, s.pending[p])), ProofChecked(c, true));
      && p !in s'.pending && s'.checks == s.checks
      && (if p in s.revoked then p in s'.revocationOnly && p !in s'.open else p in s'.open && s'.provenBy[p] == s.pending[p])
  {
    var s1 := Apply(s, ProofArrives(c, p, s.pending[p]));
    assert s1.checks - {c} == s.checks;
  }

  /** The challenge of a proof check in flight is still the pending one. */
  predicate Awaited(s: State, c: Check)
    requires c.ProofCheck?
  {
    s.session == Some(c.session) && c.peer in s.pending && s.pending[c.peer] == c.nonce
  }

  /**
    A check that was started before its peer was revoked, dropped or forgotten opens nobody.  It changes nothing but
    itself, unless the peer was revocation-only already and is revoked again: then its challenge survives and is settled.
  */
  lemma StaleProofIsIgnored(s: State, c: nat, valid: bool, p: Peer, active: set<Peer>, removed: set<Peer>)
    requires Inv(s) && c in s.checks && s.checks[c].ProofCheck? && s.checks[c].peer == p && p !in active
    ensures var gone := Apply(s, Install(active, removed)); var after := Apply(gone, ProofChecked(c, valid));
      && p !in after.open
      && after == gone.(checks := s.checks - {c}, pending := after.pending, failed := after.failed)
      && after.pending - {p} == gone.pending - {p} && after.failed - {p} == gone.failed - {p}
      && (after == gone.(checks := s.checks - {c}) <==> !(p in removed && p in s.revocationOnly && Awaited(s, s.checks[c])))
    ensures s.session.Some? ==> var lost := Apply(s, ChannelLost(p)); Apply(lost, ProofChecked(c, valid)) == lost.(checks := s.checks - {c})
  {
    var gone := Apply(s, Install(active, removed));
    var after := Apply(gone, ProofChecked(c, valid));
    if p in removed && p in s.revocationOnly && Awaited(s, s.checks[c]) {
      assert p in gone.pending && p !in after.pending;
      assert after.failed - {p} == gone.failed - {p};
    } else {
      assert !(p in gone.pending && Awaited(s, s.checks[c]));
    }
  }

  // ---- Who is where, and since which event ----

  /** The valid or invalid end of the check of `p`'s pending challenge. */
  predicate Settles(s: State, ev: Event, p: Peer) {
    ev.ProofChecked? && ev.check in s.checks && s.checks[ev.check].ProofCheck? && s.checks[ev.check].peer == p && Awaited(s, s.checks[ev.check])
  }

  /** The channel of `p` is forgotten: it closes, the session begins or ends, or `p` is on neither list. */
  predicate LosesChannel(ev: Event, p: Peer) {
    ev.Connect? || ev.Disconnect? || ev == ChannelLost(p) || (ev.Install? && p !in ev.active && p !in ev.removed)
  }

  /** `p` is connected and has just been put on the list of the removed. */
  predicate IsRemoved(s: State, ev: Event, p: Peer) { ev.Install? && p in s.data && p in ev.removed && p !in ev.active }

  lemma ConnectedExactlyWhen(s: State, ev: Event, p: Peer)
    requires Inv(s)
    ensures p in Apply(s, ev).data <==> (p in s.data && !LosesChannel(ev, p)) || (ev == ChannelOpen(p) && s.session.Some?)
  {
  }

  lemma OpenExactlyWhen(s: State, ev: Event, p: Peer)
    requires Inv(s)
    ensures p in Apply(s, ev).open
       <==> || (p in s.open && !LosesChannel(ev, p) && !IsRemoved(s, ev, p))
            || (Settles(s, ev, p) && ev.valid && p !in s.revoked)
  {
  }

  lemma RevocationOnlyExactlyWhen(s: State, ev: Event, p: Peer)
    requires Inv(s)
    ensures p in Apply(s, ev).revocationOnly
       <==> || (p in s.revocationOnly && !LosesChannel(ev, p)) || IsRemoved(s, ev, p)
            || (Settles(s, ev, p) && ev.valid && p in s.revoked)
  {
  }

  /** A challenge is drawn for a connected peer that may take part, is not open, has not failed and has none yet. */
  predicate Draws(s: State, ev: Event, p: Peer) {
    && s.session.Some? && IsAllowed(s, p) && p !in s.open && p !in s.pending
    && (ev == ChannelOpen(p) || ((ev == Retry(p) || ev == ChallengeAnswered(p)) && p in s.data && p !in s.failed))
  }

  lemma PendingWhenChecked(s: State, ev: Event, p: Peer)
    requires Inv(s) && ev.ProofChecked?
    ensures p in Apply(s, ev).pending <==> p in s.pending && !Settles(s, ev, p)
  {
  }

  lemma PendingWhenBegun(s: State, ev: Event, p: Peer)
    requires Inv(s) && (ev.ChannelOpen? || ev.Retry? || ev.ChallengeAnswered?)
    ensures p in Apply(s, ev).pending <==> Draws(s, ev, p) || p in s.pending
  {
  }

  lemma PendingExactlyWhen(s: State, ev: Event, p: Peer)
    requires Inv(s)
    ensures p in Apply(s, ev).pending
       <==> || Draws(s, ev, p)
            || (p in s.pending && !LosesChannel(ev, p) && !Settles(s, ev, p) && ev != Timeout(p)
                && !(IsRemoved(s, ev, p) && p !in s.revocationOnly))
  {
    if ev.ProofChecked? { PendingWhenChecked(s, ev, p); hide Apply; }
    else if ev.ChannelOpen? || ev.Retry? || ev.ChallengeAnswered? { PendingWhenBegun(s, ev, p); hide Apply; }
  }

  /** A challenge keeps its nonce, and each is drawn once. */
  lemma NonceIsFresh(s: State, ev: Event, p: Peer)
    requires Inv(s) && p in Apply(s, ev).pending
    ensures Apply(s, ev).pending[p] == if p in s.pending then s.pending[p] else s.nonces
    ensures p !in s.pending ==> Apply(s, ev).nonces == s.nonces + 1
  {
  }

  lemma FailedWhenChecked(s: State, ev: Event, p: Peer)
    requires Inv(s) && ev.ProofChecked?
    ensures p in Apply(s, ev).failed <==> (Settles(s, ev, p) && !ev.valid) || (p in s.failed && !(Settles(s, ev, p) && ev.valid))
  {
  }

  lemma FailedExactlyWhen(s: State, ev: Event, p: Peer)
    requires Inv(s)
    ensures p in Apply(s, ev).failed
       <==> || (ev == Timeout(p) && p in s.data && p !in s.open) || (Settles(s, ev, p) && !ev.valid)
            || (p in s.failed && p in s.data && !LosesChannel(ev, p) && ev != ChannelOpen(p)
                && !(Settles(s, ev, p) && ev.valid) && !(IsRemoved(s, ev, p) && p !in s.revocationOnly))
  {
    if ev.ProofChecked? { FailedWhenChecked(s, ev, p); hide Apply; }
  }

  /** The lists come from the session and from nowhere else, but for profile updates. */
  lemma ListsExactly(s: State, ev: Event)
    ensures Apply(s, ev).trusted ==
      (if ev.Connect? then ev.active + {s.local} else if ev.Disconnect? then {} else if ev.Install? then ev.active
       else if ev.ProfileChecked? && ev.valid && ev.check in s.checks && s.checks[ev.check].ProfileCheck? then s.trusted + {s.checks[ev.check].peer}
       else s.trusted)
    ensures Apply(s, ev).revoked ==
      (if ev.Connect? then ev.removed - ev.active - {s.local} else if ev.Disconnect? then {} else if ev.Install? then ev.removed - ev.active
       else s.revoked)
    ensures Apply(s, ev).session == (if ev.Connect? then Some(s.sessions) else if ev.Disconnect? then None else s.session)
    ensures Apply(s, ev).sessions == if ev.Connect? then s.sessions + 1 else s.sessions
  {
  }

  /** A check runs from the arrival that started it to its own end. */
  lemma ChecksExactlyWhen(s: State, ev: Event, c: nat, check: Check)
    ensures c in Apply(s, ev).checks && Apply(s, ev).checks[c] == check
       <==> || (c in s.checks && s.checks[c] == check
                && !(ev.ProofChecked? && ev.check == c && check.ProofCheck?) && !(ev.ProfileChecked? && ev.check == c && check.ProfileCheck?))
            || (c !in s.checks && check.ProofCheck? && ev == ProofArrives(c, check.peer, check.nonce) && s.session == Some(check.session)
                && IsAllowed(s, check.peer) && check.peer in s.pending && s.pending[check.peer] == check.nonce)
            || (c !in s.checks && check.ProfileCheck? && ev == ProfileArrives(c, check.peer)
                && check.peer in s.open && check.peer !in s.revocationOnly && IsAllowed(s, check.peer))
  {
  }

  /** The event opens a peer that is still marked as one to be told of its revocation. */
  predicate OpensRevocationOnly(s: State, ev: Event) {
    ev.ProofChecked? && ev.valid && ev.check in s.checks && s.checks[ev.check].ProofCheck?
    && var c := s.checks[ev.check];
    s.session == Some(c.session) && c.peer in s.pending && s.pending[c.peer] == c.nonce && c.peer in s.revocationOnly && c.peer !in s.revoked
  }

  /** Open and revocation-only peers stay apart exactly until a peer that was revoked and admitted again proves its identity. */
  lemma StaysApartExactlyWhen(s: State, ev: Event)
    requires Inv(s) && s.open !! s.revocationOnly
    ensures Apply(s, ev).open !! Apply(s, ev).revocationOnly <==> !OpensRevocationOnly(s, ev)
  {
  }

  /** The trusted table is the installed member list exactly until a profile update of a former member completes. */
  lemma TrustedIsMembersExactlyWhen(s: State, ev: Event)
    requires s.trusted == s.members
    ensures Apply(s, ev).trusted == Apply(s, ev).members <==>
      !(ev.ProfileChecked? && ev.valid && ev.check in s.checks && s.checks[ev.check].ProfileCheck? && s.checks[ev.check].peer !in s.members)
  {
  }

  // ---- Both do happen ----

  /** A session with one member `p` whose channel has just opened. */
  function Waiting(p: Peer): State {
    State(p + 1, Some(0), 1, {p}, {}, {}, map[p := 0], {}, {p, p + 1}, {}, 1, map[], {p, p + 1}, map[p := 0], map[])
  }

  lemma ReachesWaiting(p: Peer)
    ensures Apply(Apply(Start(p + 1), Connect({p}, {})), ChannelOpen(p)) == Waiting(p)
  {
    var s := Apply(Start(p + 1), Connect({p}, {}));
    assert s.trusted == {p, p + 1} && s.revoked == {};
  }

  /** The same peer after it was revoked and has asked for a new handshake. */
  function Told(p: Peer): State {
    Waiting(p).(trusted := {}, members := {}, revoked := {p}, revocationOnly := {p}, pending := map[p := 1], nonces := 2)
  }

  lemma ReachesTold(p: Peer)
    ensures Apply(Apply(Waiting(p), Install({}, {p})), ChallengeAnswered(p)) == Told(p)
  {
    var s := Apply(Waiting(p), Install({}, {p}));
    assert s == Waiting(p).(trusted := {}, members := {}, revoked := {p}, revocationOnly := {p}, pending := map[]);
  }

  lemma ReadmittedOpens(p: Peer)
    ensures var s := Apply(Apply(Apply(Told(p), Install({p}, {})), ProofArrives(0, p, 1)), ProofChecked(0, true));
      p in s.open && p in s.revocationOnly
  {
    var s := Apply(Told(p), Install({p}, {}));
    assert s == Told(p).(trusted := {p}, members := {p}, revoked := {});
    assert Apply(s, ProofArrives(0, p, 1)) == s.(checks := map[0 := ProofCheck(0, p, 1)]);
  }

  lemma {:induction false} ReadmittedPeerIsOpenAndRevocationOnly(p: Peer)
    ensures var s := Run(Start(p + 1), [Connect({p}, {}), ChannelOpen(p), Install({}, {p}), ChallengeAnswered(p), Install({p}, {}),
                                        ProofArrives(0, p, 1), ProofChecked(0, true)]);
      p in s.open && p in s.revocationOnly
  {
    hide *;
    RunOfSeven(Start(p + 1), [Connect({p}, {}), ChannelOpen(p), Install({}, {p}), ChallengeAnswered(p), Install({p}, {}),
                              ProofArrives(0, p, 1), ProofChecked(0, true)]);
    ReachesWaiting(p);
    ReachesTold(p);
    ReadmittedOpens(p);
  }

  lemma ReachesOpen(p: Peer)
    ensures Apply(Apply(Waiting(p), ProofArrives(0, p, 0)), ProofChecked(0, true))
         == Waiting(p).(pending := map[], open := {p}, provenBy := map[p := 0])
  {
    assert Apply(Waiting(p), ProofArrives(0, p, 0)) == Waiting(p).(checks := map[0 := ProofCheck(0, p, 0)]);
  }

  lemma DroppedReturns(p: Peer)
    ensures var s0 := Waiting(p).(pending := map[], open := {p}, provenBy := map[p := 0]);
      var s := Apply(Apply(Apply(s0, ProfileArrives(1, p)), Install({}, {})), ProfileChecked(1, true));
      p in s.trusted && p !in s.members
  {
    var s0 := Waiting(p).(pending := map[], open := {p}, provenBy := map[p := 0]);
    var s1 := s0.(checks := map[1 := ProfileCheck(p)]);
    assert Apply(s0, ProfileArrives(1, p)) == s1;
  }

  lemma {:induction false} DroppedPeerIsTrustedAgain(p: Peer)
    ensures var s := Run(Start(p + 1), [Connect({p}, {}), ChannelOpen(p), ProofArrives(0, p, 0), ProofChecked(0, true), ProfileArrives(1, p),
                                        Install({}, {}), ProfileChecked(1, true)]);
      p in s.trusted && p !in s.members
  {
    hide *;
    RunOfSeven(Start(p + 1), [Connect({p}, {}), ChannelOpen(p), ProofArrives(0, p, 0), ProofChecked(0, true), ProfileArrives(1, p),
                              Install({}, {}), ProfileChecked(1, true)]);
    ReachesWaiting(p);
    ReachesOpen(p);
    DroppedReturns(p);
  }

  lemma RunStep(s: State, e: seq<Event>, k: nat)
    requires k < |e|
    ensures Run(s, e[k..]) == Run(Apply(s, e[k]), e[k + 1..])
  {
    assert e[k..][1..] == e[k + 1..];
  }

  lemma RunOfSeven(s: State, e: seq<Event>)
    requires |e| == 7
    ensures Run(s, e) == Apply(Apply(Apply(Apply(Apply(Apply(Apply(s, e[0]), e[1]), e[2]), e[3]), e[4]), e[5]), e[6])
  {
    hide Apply;
    var s4 := Apply(Apply(Apply(Apply(s, e[0]), e[1]), e[2]), e[3]);
    RunStep(s, e, 0);
    RunStep(Apply(s, e[0]), e, 1);
    RunStep(Apply(Apply(s, e[0]), e[1]), e, 2);
    RunStep(Apply(Apply(Apply(s, e[0]), e[1]), e[2]), e, 3);
    RunStep(s4, e, 4);
    RunStep(Apply(s4, e[4]), e, 5);
    RunStep(Apply(Apply(s4, e[4]), e[5]), e, 6);
    assert e[0..] == e && e[7..] == [];
  }

  // ---- The class ----

  function AfterRevoked(s: State, done: set<Peer>): State {
    s.(open := s.open - done, revocationOnly := s.revocationOnly + done,
       pending := s.pending - (done - s.revocationOnly), failed := s.failed - (done - s.revocationOnly))
  }

  function AfterForgotten(s: State, done: set<Peer>): State {
    s.(data := s.data - done, open := s.open - done, revocationOnly := s.revocationOnly - done,
       pending := s.pending - done, failed := s.failed - done)
  }

  lemma NothingDone(s: State)
    ensures AfterRevoked(s, {}) == s && AfterForgotten(s, {}) == s
  {
    assert AfterRevoked(s, {}).pending == s.pending && AfterForgotten(s, {}).pending == s.pending;
  }

  lemma RevokedStep(s: State, done: set<Peer>, p: Peer)
    requires p in s.data && p !in done
    ensures var t := AfterRevoked(s, done); MarkRevoked(t.(open := t.open - {p}), p) == AfterRevoked(s, done + {p})
  {
    var t := AfterRevoked(s, done);
    var r := MarkRevoked(t.(open := t.open - {p}), p);
    var e := AfterRevoked(s, done + {p});
    assert r.open == e.open && r.revocationOnly == e.revocationOnly && r.failed == e.failed;
    assert r.pending == e.pending;
  }

  lemma ForgottenStep(s: State, done: set<Peer>, p: Peer)
    ensures Forget(AfterForgotten(s, done), p) == AfterForgotten(s, done + {p})
  {
    var r, e := Forget(AfterForgotten(s, done), p), AfterForgotten(s, done + {p});
    assert r.data == e.data && r.open == e.open && r.revocationOnly == e.revocationOnly && r.failed == e.failed;
    assert r.pending == e.pending;
  }

  lemma InstallIsBothLoops(s: State, active: set<Peer>, removed: set<Peer>)
    ensures var t := s.(trusted := active, revoked := removed - active, members := active);
      AfterForgotten(AfterRevoked(t, t.data * t.revoked), t.data - t.revoked - t.trusted) == InstallPeers(s, active, removed)
  {
    var t := s.(trusted := active, revoked := removed - active, members := active);
    var r, e := AfterForgotten(AfterRevoked(t, t.data * t.revoked), t.data - t.revoked - t.trusted), InstallPeers(s, active, removed);
    assert r.open == e.open && r.revocationOnly == e.revocationOnly && r.failed == e.failed;
    assert r.pending == e.pending;
  }

  /** The sets of `ChatController` with the handshake state and the peer tables it owns. */
  class ChatPeers {
    const local: Peer
    var session: Option<nat>
    var sessions: nat
    var data: set<Peer>
    var open: set<Peer>
    var revocationOnly: set<Peer>
    var pending: map<Peer, nat>
    var failed: set<Peer>
    var trusted: set<Peer>
    var revoked: set<Peer>
    var nonces: nat
    var checks: map<nat, Check>
    ghost var members: set<Peer>
    ghost var since: map<Peer, nat>
    ghost var provenBy: map<Peer, nat>

    constructor (local: Peer)
      ensures View() == Start(local)
    {
      this.local := local;
      session, sessions, data, open, revocationOnly, pending, failed := None, 0, {}, {}, {}, map[], {};
      trusted, revoked, nonces, checks, members, since, provenBy := {}, {}, 0, map[], {}, map[], map[];
    }

    ghost function View(): State
      reads this
    {
      State(local, session, sessions, data, open, revocationOnly, pending, failed, trusted, revoked, nonces, checks, members, since, provenBy)
    }

    method BeginHandshake(p: Peer)
      modifies this
      ensures View() == Begin(old(View()), p)
    {
      if session.None? || p !in data || p == local || !(p in trusted || p in revoked) || p in open || p in failed { return; }
      if p !in pending {
        pending := pending[p := nonces];
        nonces := nonces + 1;
      }
    }

    method ForgetPeerConnection(p: Peer)
      modifies this
      ensures View() == Forget(old(View()), p)
    {
      pending, failed := pending - {p}, failed - {p};
      data := data - {p};
      open := open - {p};
      revocationOnly := revocationOnly - {p};
    }

    method MarkRevokedPeerReady(p: Peer)
      modifies this
      ensures View() == MarkRevoked(old(View()), p)
    {
      if p !in data || p in revocationOnly { return; }
      pending, failed := pending - {p}, failed - {p};
      open := open - {p};
      revocationOnly := revocationOnly + {p};
    }

    method MarkPeerReady(p: Peer, ghost nonce: nat)
      modifies this
      ensures View() == MarkReady(old(View()), p, nonce)
    {
      if p !in data || p in open { return; }
      if p in revoked {
        MarkRevokedPeerReady(p);
        return;
      }
      if session.None? { return; }
      open := open + {p};
      provenBy := provenBy[p := nonce];
    }

    method OnDataOpen(p: Peer)
      modifies this
      ensures View() == Apply(old(View()), ChannelOpen(p))
    {
      if session.None? { return; }
      if p !in data { since := since[p := nonces]; }
      data := data + {p};
      failed := failed - {p};
      BeginHandshake(p);
    }

    /** `accept` after its signature check. */
    method AcceptProof(c: nat, valid: bool)
      requires c in checks && checks[c].ProofCheck?
      modifies this
      ensures View() == Apply(old(View()), ProofChecked(c, valid))
    {
      var check := checks[c];
      var p := check.peer;
      checks := checks - {c};
      if session != Some(check.session) || p !in pending || pending[p] != check.nonce { return; }
      if !valid {
        pending, failed := pending - {p}, failed + {p};
        return;
      }
      pending, failed := pending - {p}, failed - {p};
      if p in revoked { MarkRevokedPeerReady(p); } else { MarkPeerReady(p, check.nonce); }
    }

    method MarkAllRevoked(peers: set<Peer>)
      requires peers <= data
      modifies this
      ensures View() == AfterRevoked(old(View()), peers)
    {
      hide AfterRevoked, MarkRevoked;
      ghost var done: set<Peer> := {};
      var rest := peers;
      NothingDone(View());
      while rest != {}
        invariant done == peers - rest && rest <= peers && View() == AfterRevoked(old(View()), done)
        decreases |rest|
      {
        var p :| p in rest;
        RevokedStep(old(View()), done, p);
        open := open - {p};
        MarkRevokedPeerReady(p);
        rest, done := rest - {p}, done + {p};
      }
      assert done == peers;
    }

    method ForgetAll(peers: set<Peer>)
      modifies this
      ensures View() == AfterForgotten(old(View()), peers)
    {
      hide AfterForgotten, Forget;
      ghost var done: set<Peer> := {};
      var rest := peers;
      NothingDone(View());
      while rest != {}
        invariant done == peers - rest && rest <= peers && View() == AfterForgotten(old(View()), done)
        decreases |rest|
      {
        var p :| p in rest;
        ForgottenStep(old(View()), done, p);
        ForgetPeerConnection(p);
        rest, done := rest - {p}, done + {p};
      }
      assert done == peers;
    }

    /** `installGroupPeers`: its two loops over the connected peers amount to the set operations of `InstallPeers`. */
    method InstallGroupPeers(active: set<Peer>, removed: set<Peer>)
      modifies this
      ensures View() == InstallPeers(old(View()), active, removed)
    {
      InstallIsBothLoops(View(), active, removed);
      trusted, revoked, members := active, removed - active, active;
      var nowRevoked, unknown := data * revoked, data - revoked - trusted;
      MarkAllRevoked(nowRevoked);
      ForgetAll(unknown);
    }
  }
}

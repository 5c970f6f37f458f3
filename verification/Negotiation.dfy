/**
  WebRTC "perfect negotiation" between two mesh endpoints.

  Two endpoints are joined by two reliable FIFO signalling queues.  The endpoint whose peer id
  is the greater one is polite.  Every step ends where the TypeScript code awaits: the code of
  `negotiate` is split at `createOffer`, the code of `acceptDescriptionNow` at `createAnswer`.
  A browser rejection inside `negotiate` is an ordinary step (`OfferReady` with `ok == false`).
*/
module Negotiation {

  /** The signalling states of section 3.2 of RFC 8829 that this code can reach; offers carry an identity. */
  datatype Signaling = Stable | HaveLocalOffer(local: nat) | HaveRemoteOffer(remote: nat)

  datatype Description = Offer(id: nat) | Answer(id: nat)

  /** What `negotiateIfNeeded` remembers across `createOffer`, to restore it when nothing was sent. */
  datatype Making = Idle | Creating(savedNeeds: bool, savedRestart: bool)

  datatype Endpoint = Endpoint(
    sig: Signaling,
    making: Making,
    needsNegotiation: bool,
    needsIceRestart: bool,
    canNegotiate: bool,
    ignoreOffer: bool)

  /** `negotiateIfNeeded` up to the await of `createOffer`. */
  function NegotiateIfNeeded(e: Endpoint): Endpoint {
    if (!e.needsNegotiation && !e.needsIceRestart) || !e.canNegotiate || !e.making.Idle? || !e.sig.Stable? then e
    else e.(making := Creating(e.needsNegotiation, e.needsIceRestart), needsNegotiation := false, needsIceRestart := false)
  }

  predicate ReadyForOffer(e: Endpoint) {
    e.making.Idle? && e.sig.Stable?
  }

  predicate Collides(e: Endpoint, d: Description) {
    d.Offer? && !ReadyForOffer(e)
  }

  /** The branch of `acceptDescriptionNow` that rolls the local offer back. */
  predicate RollsBack(e: Endpoint, polite: bool, d: Description) {
    polite && Collides(e, d) && !e.sig.Stable?
  }

  /** An answer can only be applied over a pending local offer; anything else is an exception, swallowed by the chain. */
  predicate Applicable(e: Endpoint, d: Description) {
    d.Answer? ==> e.sig.HaveLocalOffer?
  }

  /** `acceptDescriptionNow` up to `createAnswer` for an offer, and to its end for an answer. */
  function AcceptDescription(e: Endpoint, polite: bool, d: Description): Endpoint {
    if !polite && Collides(e, d) then e.(ignoreOffer := true)
    else
      var accepted := e.(ignoreOffer := false);
      match d
      case Offer(id) => accepted.(sig := HaveRemoteOffer(id), canNegotiate := true, needsNegotiation := false)
      case Answer(id) =>
        if !Applicable(e, d) then accepted
        else NegotiateIfNeeded(accepted.(sig := Stable, canNegotiate := true))
  }

  predicate SendsOffer(e: Endpoint, ok: bool) {
    e.making.Creating? && ok && e.sig.Stable?
  }

  /** The rest of `negotiate` and of `negotiateIfNeeded`, once `createOffer` has settled. */
  function OfferReady(e: Endpoint, ok: bool, offerId: nat): Endpoint {
    match e.making
    case Idle => e
    case Creating(needs, restart) =>
      if SendsOffer(e, ok) then e.(making := Idle, sig := HaveLocalOffer(offerId))
      else e.(making := Idle,
              needsNegotiation := e.needsNegotiation || needs,
              needsIceRestart := e.needsIceRestart || restart)
  }

  /** The rest of `acceptDescriptionNow` for an offer: the answer is applied and sent. */
  function AnswerReady(e: Endpoint): Endpoint {
    if e.sig.HaveRemoteOffer? then e.(sig := Stable) else e
  }

  /** The entry of one peer, updated in place by the transport. */
  class PeerEntry {
    var signalingState: Signaling
    var making: Making
    var needsNegotiation: bool
    var needsIceRestart: bool
    var canNegotiate: bool
    var ignoreOffer: bool
    var settingRemoteAnswer: bool
    const polite: bool

    ghost function View(): Endpoint
      reads this
    {
      Endpoint(signalingState, making, needsNegotiation, needsIceRestart, canNegotiate, ignoreOffer)
    }

    constructor (polite: bool)
      ensures View() == Endpoint(Stable, Idle, false, false, false, false)
      ensures !settingRemoteAnswer && this.polite == polite
    {
      this.polite := polite;
      signalingState, making := Stable, Idle;
      needsNegotiation, needsIceRestart, canNegotiate := false, false, false;
      ignoreOffer, settingRemoteAnswer := false, false;
    }

    method BeginNegotiation()
      modifies this
      ensures View() == NegotiateIfNeeded(old(View()))
      ensures settingRemoteAnswer == old(settingRemoteAnswer)
    {
      if (!needsNegotiation && !needsIceRestart) || !canNegotiate || making.Creating? || signalingState != Stable {
        return;
      }
      making := Creating(needsNegotiation, needsIceRestart);
      needsNegotiation := false;
      needsIceRestart := false;
    }

    method FinishOffer(ok: bool, offerId: nat) returns (sent: seq<Description>)
      modifies this
      ensures View() == OfferReady(old(View()), ok, offerId)
      ensures sent == if SendsOffer(old(View()), ok) then [Offer(offerId)] else []
      ensures settingRemoteAnswer == old(settingRemoteAnswer)
    {
      sent := [];
      match making {
        case Idle =>
        case Creating(needs, restart) =>
          if ok && signalingState == Stable {
            signalingState := HaveLocalOffer(offerId);
            sent := [Offer(offerId)];
          } else {
            needsNegotiation := needsNegotiation || needs;
            needsIceRestart := needsIceRestart || restart;
          }
          making := Idle;
      }
    }

    /** `descriptionChain` runs one of these at a time, so `settingRemoteAnswer` is false on entry. */
    method AcceptDescriptionNow(d: Description)
      requires !settingRemoteAnswer
      modifies this
      ensures View() == AcceptDescription(old(View()), polite, d)
      ensures !settingRemoteAnswer
    {
      var readyForOffer := making.Idle? && (signalingState == Stable || settingRemoteAnswer);
      var offerCollision := d.Offer? && !readyForOffer;
      ignoreOffer := !polite && offerCollision;
      if ignoreOffer { return; }
      settingRemoteAnswer := d.Answer?;
      match d {
        case Offer(id) =>
          if offerCollision && signalingState != Stable { signalingState := Stable; }
          signalingState := HaveRemoteOffer(id);
          settingRemoteAnswer := false;
          canNegotiate := true;
          needsNegotiation := false;
        case Answer(id) =>
          if !signalingState.HaveLocalOffer? {
            settingRemoteAnswer := false;
            return;
          }
          signalingState := Stable;
          settingRemoteAnswer := false;
          canNegotiate := true;
          BeginNegotiation();
      }
    }

    method FinishAnswer() returns (sent: seq<Description>)
      modifies this
      ensures View() == AnswerReady(old(View()))
      ensures sent == if old(View()).sig.HaveRemoteOffer? then [Answer(old(View()).sig.remote)] else []
      ensures settingRemoteAnswer == old(settingRemoteAnswer)
    {
      sent := [];
      if signalingState.HaveRemoteOffer? {
        sent := [Answer(signalingState.remote)];
        signalingState := Stable;
      }
    }
  }

  // ---- The pair of endpoints ----

  datatype Side = Polite | Impolite

  /** `toPolite` and `toImpolite` are the descriptions under way; `next` numbers the offers. */
  datatype Link = Link(
    polite: Endpoint, impolite: Endpoint,
    toPolite: seq<Description>, toImpolite: seq<Description>,
    next: nat)

  function End(s: Link, side: Side): Endpoint {
    if side == Polite then s.polite else s.impolite
  }

  function Inbox(s: Link, side: Side): seq<Description> {
    if side == Polite then s.toPolite else s.toImpolite
  }

  function Emit(s: Link, side: Side, e: Endpoint, sent: seq<Description>): Link {
    if side == Polite then s.(polite := e, toImpolite := s.toImpolite + sent)
    else s.(impolite := e, toPolite := s.toPolite + sent)
  }

  function Pop(s: Link, side: Side, e: Endpoint): Link
    requires Inbox(s, side) != []
  {
    if side == Polite then s.(polite := e, toPolite := s.toPolite[1..])
    else s.(impolite := e, toImpolite := s.toImpolite[1..])
  }

  /** `Need` is the environment: a track change, a restart or `negotiationneeded`; the rest are the code's own steps. */
  datatype Event =
    | Need(side: Side, restart: bool, initiator: bool)
    | OfferSettled(side: Side, ok: bool)
    | Receive(side: Side)
    | AnswerSettled(side: Side)

  predicate Enabled(s: Link, ev: Event) {
    match ev
    case Need(_, _, _) => true
    case OfferSettled(side, _) => End(s, side).making.Creating?
    case Receive(side) => Inbox(s, side) != [] && !End(s, side).sig.HaveRemoteOffer?
    case AnswerSettled(side) => End(s, side).sig.HaveRemoteOffer?
  }

  function Apply(s: Link, ev: Event): Link {
    if !Enabled(s, ev) then s
    else match ev
      case Need(side, restart, initiator) =>
        var e := End(s, side);
        var flagged := e.(canNegotiate := e.canNegotiate || initiator);
        var needing := if restart then flagged.(needsIceRestart := true) else flagged.(needsNegotiation := true);
        Emit(s, side, NegotiateIfNeeded(needing), [])
      case OfferSettled(side, ok) =>
        var e := End(s, side);
        Emit(s, side, OfferReady(e, ok, s.next), if SendsOffer(e, ok) then [Offer(s.next)] else []).(next := s.next + 1)
      case Receive(side) =>
        Pop(s, side, AcceptDescription(End(s, side), side == Polite, Inbox(s, side)[0]))
      case AnswerSettled(side) =>
        var e := End(s, side);
        Emit(s, side, AnswerReady(e), [Answer(e.sig.remote)])
  }

  function Run(s: Link, evs: seq<Event>): Link
    decreases |evs|
  {
    if evs == [] then s else Run(Apply(s, evs[0]), evs[1..])
  }

  predicate Fresh(e: Endpoint) {
    e.sig.Stable? && e.making.Idle? && !e.ignoreOffer
  }

  predicate Initial(s: Link) {
    Fresh(s.polite) && Fresh(s.impolite) && s.toPolite == [] && s.toImpolite == []
  }

  /**
    The one step that can strand the polite side: the browser rejects the impolite side's offer
    after that side has dropped an offer because it was making its own.
  */
  predicate Strands(s: Link, ev: Event) {
    ev == OfferSettled(Impolite, false) && s.impolite.making.Creating? && s.impolite.ignoreOffer
  }

  ghost predicate NeverStrands(s: Link, evs: seq<Event>)
    decreases |evs|
  {
    evs != [] ==> !Strands(s, evs[0]) && NeverStrands(Apply(s, evs[0]), evs[1..])
  }

  // ---- The inductive invariant ----

  predicate IsOffer(q: seq<Description>) { |q| == 1 && q[0].Offer? }

  /** A rolled-back offer of the polite side may still be in front of the answer that follows it. */
  predicate AtMostStale(q: seq<Description>) { q == [] || IsOffer(q) }

  /** The impolite side's offer `b` has not been read by the polite side yet. */
  predicate OfferUnderWay(s: Link, b: nat) {
    match s.polite.sig
    case Stable => s.toPolite == [Offer(b)] && s.toImpolite == []
    case HaveLocalOffer(a) =>
      || (s.toPolite == [Offer(b)] && (s.toImpolite == [] || s.toImpolite == [Offer(a)]))
      || (s.toPolite == [Answer(a), Offer(b)] && s.toImpolite == [])
    case HaveRemoteOffer(_) => false
  }

  /** The answer to the impolite side's offer `b` is under way. */
  predicate AnswerUnderWay(s: Link, b: nat) {
    && s.toPolite == []
    && match s.polite.sig
       case Stable => |s.toImpolite| >= 1 && AtMostStale(s.toImpolite[..|s.toImpolite| - 1])
                      && s.toImpolite[|s.toImpolite| - 1] == Answer(b)
       case HaveLocalOffer(a) => |s.toImpolite| >= 2 && AtMostStale(s.toImpolite[..|s.toImpolite| - 2])
                      && s.toImpolite[|s.toImpolite| - 2] == Answer(b)
                      && s.toImpolite[|s.toImpolite| - 1] == Offer(a)
       case HaveRemoteOffer(_) => false
  }

  predicate Starved(s: Link) {
    s.impolite.making.Creating? && s.impolite.ignoreOffer
    && s.polite.sig.HaveLocalOffer? && s.toPolite == [] && s.toImpolite == []
  }

  predicate Inv(s: Link) {
    && (s.polite.making.Creating? ==> !s.polite.sig.HaveLocalOffer?)
    && (s.impolite.making.Creating? ==> s.impolite.sig.Stable?)
    && (s.impolite.ignoreOffer && !s.impolite.sig.HaveLocalOffer? ==> Starved(s))
    && match s.impolite.sig
       case HaveLocalOffer(b) =>
         || OfferUnderWay(s, b)
         || (s.polite.sig == HaveRemoteOffer(b) && s.toPolite == [] && AtMostStale(s.toImpolite))
         || AnswerUnderWay(s, b)
       case HaveRemoteOffer(a) =>
         s.polite.sig == HaveLocalOffer(a) && s.toPolite == [] && s.toImpolite == []
       case Stable =>
         match s.polite.sig
         case Stable => s.toPolite == [] && s.toImpolite == []
         case HaveLocalOffer(a) =>
           || (s.toImpolite == [Offer(a)] && s.toPolite == [])
           || (s.toImpolite == [] && s.toPolite == [Answer(a)])
           || Starved(s)
         case HaveRemoteOffer(_) => false
  }

  lemma NeedKeepsInv(s: Link, side: Side, restart: bool, initiator: bool)
    requires Inv(s)
    ensures Inv(Apply(s, Need(side, restart, initiator)))
  {
    var s' := Apply(s, Need(side, restart, initiator));
    assert s'.toPolite == s.toPolite && s'.toImpolite == s.toImpolite;
  }

  /** The polite side sends a new offer behind its answer. */
  lemma OfferBehindAnswer(s: Link, s': Link, b: nat, a: nat)
    requires AnswerUnderWay(s, b) && s.polite.sig.Stable?
    requires s'.polite.sig == HaveLocalOffer(a) && s'.toPolite == s.toPolite && s'.toImpolite == s.toImpolite + [Offer(a)]
    ensures AnswerUnderWay(s', b)
  {
    assert s'.toImpolite[..|s'.toImpolite| - 2] == s.toImpolite[..|s.toImpolite| - 1];
  }

  /** The polite side ends its offer without sending it. */
  lemma UnsentKeepsInv(s: Link, s': Link)
    requires Inv(s) && s'.polite.making.Idle? && s'.polite.sig == s.polite.sig
    requires s'.impolite == s.impolite && s'.toPolite == s.toPolite && s'.toImpolite == s.toImpolite
    ensures Inv(s')
  {
  }

  /** The polite side, stable, sends its offer `a`. */
  lemma SentKeepsInv(s: Link, s': Link, a: nat)
    requires Inv(s) && s.polite.sig.Stable? && s'.polite.making.Idle? && s'.polite.sig == HaveLocalOffer(a)
    requires s'.impolite == s.impolite && s'.toPolite == s.toPolite && s'.toImpolite == s.toImpolite + [Offer(a)]
    ensures Inv(s')
  {
    if s.impolite.sig.HaveLocalOffer? {
      var b := s.impolite.sig.local;
      if AnswerUnderWay(s, b) {
        OfferBehindAnswer(s, s', b, a);
      } else {
        assert OfferUnderWay(s', b);
      }
    } else {
      assert s'.toImpolite == [Offer(a)];
    }
    hide OfferUnderWay, AnswerUnderWay;
  }

  lemma PoliteOfferKeepsInv(s: Link, ok: bool)
    requires Inv(s) && s.polite.making.Creating?
    ensures Inv(Apply(s, OfferSettled(Polite, ok)))
  {
    hide Inv;
    var s' := Apply(s, OfferSettled(Polite, ok));
    if SendsOffer(s.polite, ok) {
      SentKeepsInv(s, s', s.next);
    } else {
      UnsentKeepsInv(s, s');
    }
  }

  lemma ImpoliteOfferKeepsInv(s: Link, ok: bool)
    requires Inv(s) && s.impolite.making.Creating? && (ok || !s.impolite.ignoreOffer)
    ensures Inv(Apply(s, OfferSettled(Impolite, ok)))
  {
    var s' := Apply(s, OfferSettled(Impolite, ok));
    assert s'.toImpolite == s.toImpolite && s'.polite == s.polite;
    assert s'.toPolite == s.toPolite + if ok then [Offer(s.next)] else [];
  }

  lemma OfferSettledKeepsInv(s: Link, side: Side, ok: bool)
    requires Inv(s) && !Strands(s, OfferSettled(side, ok))
    ensures Inv(Apply(s, OfferSettled(side, ok)))
  {
    hide Inv;
    if Enabled(s, OfferSettled(side, ok)) {
      match side
      case Polite => PoliteOfferKeepsInv(s, ok);
      case Impolite => ImpoliteOfferKeepsInv(s, ok);
    }
  }

  lemma ReceiveKeepsInv(s: Link, side: Side)
    requires Inv(s)
    ensures Inv(Apply(s, Receive(side)))
  {
    var s' := Apply(s, Receive(side));
    if side == Impolite && Enabled(s, Receive(side)) && s.impolite.sig.HaveLocalOffer? {
      var b := s.impolite.sig.local;
      if AnswerUnderWay(s, b) {
        var q := s.toImpolite;
        if q[0].Offer? {
          assert q[1..][..|q| - 2] == q[1..|q| - 1];
          assert |q| >= 3 ==> q[1..][..|q| - 3] == q[1..|q| - 2];
        }
      }
    }
  }

  lemma AnswerSettledKeepsInv(s: Link, side: Side)
    requires Inv(s)
    ensures Inv(Apply(s, AnswerSettled(side)))
  {
    var s' := Apply(s, AnswerSettled(side));
    if side == Polite && Enabled(s, AnswerSettled(side)) {
      assert s'.toImpolite[..|s'.toImpolite| - 1] == s.toImpolite;
    }
  }

  lemma StepKeepsInv(s: Link, ev: Event)
    requires Inv(s) && !Strands(s, ev)
    ensures Inv(Apply(s, ev))
  {
    match ev
    case Need(side, restart, initiator) => NeedKeepsInv(s, side, restart, initiator);
    case OfferSettled(side, ok) => OfferSettledKeepsInv(s, side, ok);
    case Receive(side) => ReceiveKeepsInv(s, side);
    case AnswerSettled(side) => AnswerSettledKeepsInv(s, side);
  }

  lemma {:induction false} RunKeepsInv(s: Link, evs: seq<Event>)
    requires Inv(s) && NeverStrands(s, evs)
    ensures Inv(Run(s, evs))
    decreases |evs|
  {
    if evs != [] {
      StepKeepsInv(s, evs[0]);
      RunKeepsInv(Apply(s, evs[0]), evs[1..]);
    }
  }

  // ---- Main results ----

  /** No step of the code is left: nothing under way, no offer being made, no description being applied. */
  predicate Quiescent(s: Link) {
    && s.toPolite == [] && s.toImpolite == []
    && s.polite.making.Idle? && s.impolite.making.Idle?
    && !s.polite.sig.HaveRemoteOffer? && !s.impolite.sig.HaveRemoteOffer?
  }

  /** What is at the head of a side's queue while that side is free to read it. */
  predicate Delivers(s: Link, side: Side, d: Description) {
    Inbox(s, side) != [] && Inbox(s, side)[0] == d && !End(s, side).sig.HaveRemoteOffer?
  }

  /**
    Safety of every run: an answer always meets the very offer that is pending, and once nothing is
    left to do both sides are stable.
  */
  lemma {:induction false} NegotiationSafety(s0: Link, evs: seq<Event>)
    requires Initial(s0) && NeverStrands(s0, evs)
    ensures forall side, id :: Delivers(Run(s0, evs), side, Answer(id)) ==> End(Run(s0, evs), side).sig == HaveLocalOffer(id)
    ensures Quiescent(Run(s0, evs)) ==> Run(s0, evs).polite.sig.Stable? && Run(s0, evs).impolite.sig.Stable?
  {
    RunKeepsInv(s0, evs);
  }

  lemma ImpoliteOfferFate(s: Link, ev: Event, id: nat)
    requires Inv(s) && s.impolite.sig == HaveLocalOffer(id) && Apply(s, ev).impolite.sig != HaveLocalOffer(id)
    ensures ev == Receive(Impolite) && Delivers(s, Impolite, Answer(id)) && Apply(s, ev).impolite.sig == Stable
  {
    assert Enabled(s, ev);
    assert ev == Receive(Impolite);
  }

  lemma PoliteOfferFate(s: Link, ev: Event, id: nat)
    requires Inv(s) && s.polite.sig == HaveLocalOffer(id) && Apply(s, ev).polite.sig != HaveLocalOffer(id)
    ensures ev == Receive(Polite) && (Delivers(s, Polite, Answer(id))
          || (s.impolite.sig.HaveLocalOffer? && Delivers(s, Polite, Offer(s.impolite.sig.local))
              && RollsBack(s.polite, true, s.toPolite[0])))
  {
    assert Enabled(s, ev);
    assert ev == Receive(Polite);
  }

  /**
    Glare is resolved one way only.  Whatever step follows whatever run, the impolite side gives up a
    pending offer for nothing but its answer, and the polite side for nothing but its answer or the
    offer the impolite side is holding.
  */
  lemma {:induction false} PendingOfferFate(s0: Link, evs: seq<Event>, ev: Event, id: nat)
    requires Initial(s0) && NeverStrands(s0, evs)
    ensures var s := Run(s0, evs);
      s.impolite.sig == HaveLocalOffer(id) && Apply(s, ev).impolite.sig != HaveLocalOffer(id)
      ==> ev == Receive(Impolite) && Delivers(s, Impolite, Answer(id)) && Apply(s, ev).impolite.sig == Stable
    ensures var s := Run(s0, evs);
      s.polite.sig == HaveLocalOffer(id) && Apply(s, ev).polite.sig != HaveLocalOffer(id)
      ==> ev == Receive(Polite) && (Delivers(s, Polite, Answer(id))
          || (s.impolite.sig.HaveLocalOffer? && Delivers(s, Polite, Offer(s.impolite.sig.local))
              && RollsBack(s.polite, true, s.toPolite[0])))
  {
    RunKeepsInv(s0, evs);
    var s := Run(s0, evs);
    hide Run, Apply, Inv;
    if s.impolite.sig == HaveLocalOffer(id) && Apply(s, ev).impolite.sig != HaveLocalOffer(id) {
      ImpoliteOfferFate(s, ev, id);
    }
    if s.polite.sig == HaveLocalOffer(id) && Apply(s, ev).polite.sig != HaveLocalOffer(id) {
      PoliteOfferFate(s, ev, id);
    }
  }

  /** Steps the code owes: everything that is enabled and is not a new need. */
  predicate Internal(s: Link, ev: Event) {
    !ev.Need? && Enabled(s, ev)
  }

  lemma NotQuiescentHasStep(s: Link)
    ensures !Quiescent(s) <==> exists ev :: Internal(s, ev)
  {
    if !Quiescent(s) {
      if s.polite.making.Creating? { assert Internal(s, OfferSettled(Polite, true)); }
      else if s.impolite.making.Creating? { assert Internal(s, OfferSettled(Impolite, true)); }
      else if s.polite.sig.HaveRemoteOffer? { assert Internal(s, AnswerSettled(Polite)); }
      else if s.impolite.sig.HaveRemoteOffer? { assert Internal(s, AnswerSettled(Impolite)); }
      else if s.toPolite != [] { assert Internal(s, Receive(Polite)); }
      else { assert Internal(s, Receive(Impolite)); }
    }
  }

  function QueueWork(q: seq<Description>): nat {
    if q == [] then 0 else (if q[0].Offer? then 4 else 2) + QueueWork(q[1..])
  }

  lemma {:induction false} QueueWorkAppend(q: seq<Description>, d: Description)
    ensures QueueWork(q + [d]) == QueueWork(q) + (if d.Offer? then 4 else 2)
  {
    if q == [] {
      assert q + [d] == [d];
    } else {
      assert (q + [d])[1..] == q[1..] + [d];
      QueueWorkAppend(q[1..], d);
    }
  }

  function EndWork(e: Endpoint): nat {
    (if e.making.Creating? then 5 else 0)
    + (if e.needsNegotiation || e.needsIceRestart then 4 else 0)
    + (if e.sig.HaveRemoteOffer? then 3 else 0)
  }

  function Work(s: Link): nat {
    EndWork(s.polite) + EndWork(s.impolite) + QueueWork(s.toPolite) + QueueWork(s.toImpolite)
  }

  /** What one side does adds up: its own work, its inbox and what it sends. */
  lemma EmitWork(s: Link, side: Side, e: Endpoint, sent: seq<Description>)
    requires |sent| <= 1
    ensures Work(Emit(s, side, e, sent)) + EndWork(End(s, side)) == Work(s) + EndWork(e) + QueueWork(sent)
  {
    if |sent| == 1 {
      assert sent == [sent[0]];
      QueueWorkAppend(s.toPolite, sent[0]);
      QueueWorkAppend(s.toImpolite, sent[0]);
    } else {
      assert s.toPolite + sent == s.toPolite && s.toImpolite + sent == s.toImpolite;
    }
  }

  lemma ReceiveLowersWork(s: Link, side: Side)
    requires Enabled(s, Receive(side))
    ensures Work(Apply(s, Receive(side))) < Work(s)
  {
    var d := Inbox(s, side)[0];
    assert EndWork(AcceptDescription(End(s, side), side == Polite, d)) <= EndWork(End(s, side)) + if d.Offer? then 3 else 1;
    hide AcceptDescription;
  }

  lemma InternalStepLowersWork(s: Link, ev: Event)
    requires Internal(s, ev)
    ensures Work(Apply(s, ev)) < Work(s)
  {
    match ev
    case OfferSettled(side, ok) =>
      var e := End(s, side);
      var sent := if SendsOffer(e, ok) then [Offer(s.next)] else [];
      hide Work;
      EmitWork(s, side, OfferReady(e, ok, s.next), sent);
      NumberIsNoWork(Emit(s, side, OfferReady(e, ok, s.next), sent), s.next + 1);
    case Receive(side) => ReceiveLowersWork(s, side);
    case AnswerSettled(side) =>
      var e := End(s, side);
      hide Work;
      EmitWork(s, side, AnswerReady(e), [Answer(e.sig.remote)]);
  }

  lemma NumberIsNoWork(s: Link, next: nat)
    ensures Work(s.(next := next)) == Work(s)
  {
  }

  ghost predicate AllInternal(s: Link, evs: seq<Event>)
    decreases |evs|
  {
    evs != [] ==> Internal(s, evs[0]) && AllInternal(Apply(s, evs[0]), evs[1..])
  }

  /** Without a new need, any way of carrying on stops within `Work(s)` steps. */
  lemma {:induction false} SettlesInBoundedSteps(s: Link, evs: seq<Event>)
    requires AllInternal(s, evs)
    ensures |evs| + Work(Run(s, evs)) <= Work(s)
    decreases |evs|
  {
    if evs != [] {
      InternalStepLowersWork(s, evs[0]);
      SettlesInBoundedSteps(Apply(s, evs[0]), evs[1..]);
    }
  }

  /**
    No deadlock and no livelock: after any run, every continuation by the code's own steps is finite,
    and one that cannot be prolonged has left both sides stable.
  */
  lemma {:induction false} NegotiationSettles(s0: Link, before: seq<Event>, after: seq<Event>)
    requires Initial(s0) && NeverStrands(s0, before)
    requires AllInternal(Run(s0, before), after) && NeverStrands(Run(s0, before), after)
    ensures |after| <= Work(Run(s0, before))
    ensures (forall ev :: !Internal(Run(Run(s0, before), after), ev))
        ==> Run(Run(s0, before), after).polite.sig.Stable? && Run(Run(s0, before), after).impolite.sig.Stable?
  {
    RunKeepsInv(s0, before);
    RunKeepsInv(Run(s0, before), after);
    SettlesInBoundedSteps(Run(s0, before), after);
    NotQuiescentHasStep(Run(Run(s0, before), after));
  }

  /** The excluded step is excluded for a reason: taken from any good state it leaves a deadlock. */
  lemma StrandingDeadlocks(s: Link, ev: Event)
    requires Inv(s)
    ensures Strands(s, ev) <==> Enabled(s, ev) && Quiescent(Apply(s, ev)) && Apply(s, ev).polite.sig.HaveLocalOffer?
  {
    if !Strands(s, ev) {
      StepKeepsInv(s, ev);
    } else {
      assert Starved(s);
      assert Apply(s, ev).toPolite == s.toPolite + [];
    }
  }

  lemma RunStep(s: Link, ev: Event, rest: seq<Event>)
    ensures Run(s, [ev] + rest) == Run(Apply(s, ev), rest)
    ensures NeverStrands(s, [ev] + rest) <==> !Strands(s, ev) && NeverStrands(Apply(s, ev), rest)
  {
    hide Apply, Strands;
    assert ([ev] + rest)[1..] == rest;
  }

  /** Both sides have started an offer and the polite one was dropped; `idle` is a side at rest. */
  function Collision(idle: Endpoint): Link {
    var making := idle.(making := Creating(true, false));
    Link(idle.(sig := HaveLocalOffer(0)), making.(ignoreOffer := true), [], [], 1)
  }

  lemma CollisionIsReached(idle: Endpoint)
    requires idle == Endpoint(Stable, Idle, false, false, true, false)
    ensures var s2 := Apply(Apply(Link(idle, idle, [], [], 0), Need(Polite, false, false)), Need(Impolite, false, false));
      Apply(Apply(s2, OfferSettled(Polite, true)), Receive(Impolite)) == Collision(idle)
  {
    var making := idle.(making := Creating(true, false));
    var s1 := Apply(Link(idle, idle, [], [], 0), Need(Polite, false, false));
    assert s1 == Link(making, idle, [], [], 0);
    var s2 := Apply(s1, Need(Impolite, false, false));
    assert s2 == Link(making, making, [], [], 0);
    var s3 := Apply(s2, OfferSettled(Polite, true));
    assert s3 == Link(idle.(sig := HaveLocalOffer(0)), making, [], [Offer(0)], 1);
  }

  /** A concrete run that strands: both sides start an offer, the polite one is dropped, the browser rejects the other. */
  lemma StrandingIsReachable()
    ensures exists s0: Link, evs: seq<Event> ::
      Initial(s0) && !NeverStrands(s0, evs) && Quiescent(Run(s0, evs)) && !Run(s0, evs).polite.sig.Stable?
  {
    var idle := Endpoint(Stable, Idle, false, false, true, false);
    var s0 := Link(idle, idle, [], [], 0);
    var e5 := OfferSettled(Impolite, false);
    CollisionIsReached(idle);
    assert Strands(Collision(idle), e5);
    StrandingDeadlocks(Collision(idle), e5);
    assert Initial(s0);
    hide Apply, Strands, Quiescent, Initial, Collision, Starved;
    RunStep(Collision(idle), e5, []);
    var s1 := Apply(s0, Need(Polite, false, false));
    var s2 := Apply(s1, Need(Impolite, false, false));
    var s3 := Apply(s2, OfferSettled(Polite, true));
    RunStep(s3, Receive(Impolite), [e5] + []);
    RunStep(s2, OfferSettled(Polite, true), [Receive(Impolite)] + ([e5] + []));
    var tail := [OfferSettled(Polite, true)] + ([Receive(Impolite)] + ([e5] + []));
    RunStep(s1, Need(Impolite, false, false), tail);
    RunStep(s0, Need(Polite, false, false), [Need(Impolite, false, false)] + tail);
  }

  function Other(side: Side): Side { if side == Polite then Impolite else Polite }

  /** `side` waits for the answer to `id`, the other side is as it was, and `d` is all that is under way, to `receiver`. */
  predicate Waits(s: Link, side: Side, id: nat, receiver: Side, d: Description) {
    && Inbox(s, receiver) == [d] && Inbox(s, Other(receiver)) == []
    && End(s, Other(side)).sig.Stable? && End(s, Other(side)).making.Idle?
    && End(s, side).sig == HaveLocalOffer(id) && End(s, side).making.Idle?
    && !End(s, side).needsNegotiation && !End(s, side).needsIceRestart
  }

  /** `side` has begun an offer for all it needs, and nothing else is going on. */
  predicate Begins(s: Link, side: Side) {
    && s.toPolite == [] && s.toImpolite == []
    && End(s, Other(side)).sig.Stable? && End(s, Other(side)).making.Idle?
    && End(s, side).sig.Stable? && End(s, side).making.Creating?
    && !End(s, side).needsNegotiation && !End(s, side).needsIceRestart
  }

  lemma NeedBegins(s: Link, side: Side, restart: bool, initiator: bool)
    requires Quiescent(s) && s.polite.sig.Stable? && s.impolite.sig.Stable?
    requires End(s, side).canNegotiate || initiator
    ensures Begins(Apply(s, Need(side, restart, initiator)), side) && Apply(s, Need(side, restart, initiator)).next == s.next
  {
    assert s.toPolite + [] == [] && s.toImpolite + [] == [];
  }

  lemma BegunIsSent(s: Link, side: Side)
    requires Begins(s, side)
    ensures Waits(Apply(s, OfferSettled(side, true)), side, s.next, Other(side), Offer(s.next))
  {
    assert [] + [Offer(s.next)] == [Offer(s.next)];
  }

  lemma OfferIsAnswered(s: Link, side: Side, id: nat)
    requires Waits(s, side, id, Other(side), Offer(id))
    ensures Waits(Apply(Apply(s, Receive(Other(side))), AnswerSettled(Other(side))), side, id, side, Answer(id))
  {
    var s1 := Apply(s, Receive(Other(side)));
    assert End(s1, Other(side)).sig == HaveRemoteOffer(id) && s1.toPolite == [] && s1.toImpolite == [];
    assert [] + [Answer(id)] == [Answer(id)];
  }

  /** A need that arises while nothing is under way is served: an offer is sent, answered, and the need is gone. */
  lemma NeedIsServed(s: Link, side: Side, restart: bool, initiator: bool)
    requires Quiescent(s) && s.polite.sig.Stable? && s.impolite.sig.Stable?
    requires End(s, side).canNegotiate || initiator
    ensures var offered := Apply(Apply(s, Need(side, restart, initiator)), OfferSettled(side, true));
      var answered := Apply(Apply(offered, Receive(Other(side))), AnswerSettled(Other(side)));
      var done := Apply(answered, Receive(side));
      && Inbox(offered, Other(side)) == [Offer(s.next)] && Inbox(answered, side) == [Answer(s.next)]
      && Quiescent(done) && done.polite.sig.Stable? && done.impolite.sig.Stable?
      && !End(done, side).needsNegotiation && !End(done, side).needsIceRestart
  {
    hide Apply, Quiescent;
    NeedBegins(s, side, restart, initiator);
    BegunIsSent(Apply(s, Need(side, restart, initiator)), side);
    var offered := Apply(Apply(s, Need(side, restart, initiator)), OfferSettled(side, true));
    OfferIsAnswered(offered, side, s.next);
    AnswerSettles(Apply(Apply(offered, Receive(Other(side))), AnswerSettled(Other(side))), side, s.next);
  }

  lemma AnswerSettles(s: Link, side: Side, id: nat)
    requires Waits(s, side, id, side, Answer(id))
    ensures var done := Apply(s, Receive(side));
      && Quiescent(done) && done.polite.sig.Stable? && done.impolite.sig.Stable?
      && !End(done, side).needsNegotiation && !End(done, side).needsIceRestart
  {
  }

  // ---- Needs that are left over ----

  predicate Needs(e: Endpoint) { e.needsNegotiation || e.needsIceRestart }

  /** The endpoint could make an offer, has a need for one, and is not making it. */
  predicate LeftOver(e: Endpoint) { ReadyForOffer(e) && e.canNegotiate && Needs(e) }

  /** An offer under way remembers a need, and an endpoint with a description may negotiate. */
  predicate Remembers(e: Endpoint) {
    && (e.making.Creating? ==> e.canNegotiate && (e.making.savedNeeds || e.making.savedRestart))
    && (!e.sig.Stable? ==> e.canNegotiate)
  }

  /** The browser rejects an offer over a stable connection, or an answer is sent with a need on record. */
  predicate Leaves(s: Link, ev: Event, side: Side) {
    var e := End(s, side);
    || (ev == OfferSettled(side, false) && e.making.Creating? && e.sig.Stable?)
    || (ev == AnswerSettled(side) && e.sig.HaveRemoteOffer? && e.making.Idle? && Needs(e))
  }

  /** A new need, or an offer of the other side. */
  predicate Wakes(s: Link, ev: Event, side: Side) {
    || (ev.Need? && ev.side == side)
    || (ev == Receive(side) && Inbox(s, side) != [] && Inbox(s, side)[0].Offer?)
  }

  lemma RemembersAlong(s: Link, ev: Event, side: Side)
    requires Remembers(End(s, side))
    ensures Remembers(End(Apply(s, ev), side))
  {
  }

  /** Which steps leave a need over, and which take it up again: exactly these, whatever the state of the link. */
  lemma LeftOverExactlyWhen(s: Link, ev: Event, side: Side)
    requires Remembers(End(s, side))
    ensures LeftOver(End(Apply(s, ev), side))
       <==> (if LeftOver(End(s, side)) then !Wakes(s, ev, side) else Leaves(s, ev, side))
  {
  }

  ghost predicate NeverLeaves(s: Link, evs: seq<Event>, side: Side)
    decreases |evs|
  {
    evs != [] ==> !Leaves(s, evs[0], side) && NeverLeaves(Apply(s, evs[0]), evs[1..], side)
  }

  lemma {:induction false} NothingLeftOver(s: Link, evs: seq<Event>, side: Side)
    requires Remembers(End(s, side)) && !LeftOver(End(s, side)) && NeverLeaves(s, evs, side)
    ensures !LeftOver(End(Run(s, evs), side))
    decreases |evs|
  {
    hide Apply, Remembers, LeftOver, Leaves, End;
    if evs != [] {
      RemembersAlong(s, evs[0], side);
      LeftOverExactlyWhen(s, evs[0], side);
      NothingLeftOver(Apply(s, evs[0]), evs[1..], side);
    }
  }

  /**
    Every need is taken up, in every interleaving of both sides: when a run without those two steps
    comes to rest, a side that may negotiate needs nothing any more.
  */
  lemma {:induction false} NeedsAreServed(s0: Link, evs: seq<Event>, side: Side)
    requires Initial(s0) && !LeftOver(End(s0, side))
    requires NeverStrands(s0, evs) && NeverLeaves(s0, evs, side)
    ensures Quiescent(Run(s0, evs)) && End(Run(s0, evs), side).canNegotiate ==> !Needs(End(Run(s0, evs), side))
  {
    NegotiationSafety(s0, evs);
    assert Remembers(End(s0, side));
    NothingLeftOver(s0, evs, side);
  }

  /** The side of a collision that gives way is left with its need: both make an offer and the polite side answers. */
  lemma GivingWayLeavesTheNeed(s: Link, restart: bool, otherRestart: bool)
    requires Quiescent(s) && s.polite.sig.Stable? && s.impolite.sig.Stable?
    requires s.polite.canNegotiate && s.impolite.canNegotiate
    ensures var both := Apply(Apply(s, Need(Polite, restart, false)), Need(Impolite, otherRestart, false));
      var taken := Apply(Apply(both, OfferSettled(Impolite, true)), Receive(Polite));
      var answered := Apply(Apply(taken, OfferSettled(Polite, true)), AnswerSettled(Polite));
      var done := Apply(answered, Receive(Impolite));
      Quiescent(done) && LeftOver(done.polite) && !Needs(done.impolite)
  {
    var both := Apply(Apply(s, Need(Polite, restart, false)), Need(Impolite, otherRestart, false));
    assert both.toPolite == [] && both.toImpolite == [] && both.polite.making.Creating? && Remembers(both.polite);
    assert both.impolite.making.Creating? && !Needs(both.impolite) && both.polite.sig.Stable? && both.impolite.sig.Stable?;
    AfterCollision(both);
  }

  lemma AfterCollision(both: Link)
    requires both.toPolite == [] && both.toImpolite == [] && both.polite.sig.Stable? && both.impolite.sig.Stable?
    requires both.polite.making.Creating? && Remembers(both.polite) && both.impolite.making.Creating? && !Needs(both.impolite)
    ensures var taken := Apply(Apply(both, OfferSettled(Impolite, true)), Receive(Polite));
      var answered := Apply(Apply(taken, OfferSettled(Polite, true)), AnswerSettled(Polite));
      var done := Apply(answered, Receive(Impolite));
      Quiescent(done) && LeftOver(done.polite) && !Needs(done.impolite)
  {
    var offered := Apply(both, OfferSettled(Impolite, true));
    assert offered.toPolite == [Offer(both.next)] && offered.toImpolite == [];
    var taken := Apply(offered, Receive(Polite));
    assert taken.toPolite == [] && taken.toImpolite == [] && taken.polite.sig == HaveRemoteOffer(both.next);
    var restored := Apply(taken, OfferSettled(Polite, true));
    assert restored.toPolite == [] && restored.toImpolite == [] && restored.polite.sig == HaveRemoteOffer(both.next);
    assert restored.polite.making.Idle? && Needs(restored.polite) && restored.polite.canNegotiate;
    var answered := Apply(restored, AnswerSettled(Polite));
    assert answered.toImpolite == [Answer(both.next)] && answered.toPolite == [];
  }

  // ---- What becomes of each request ----

  /** A restart was asked for and no offer has carried it yet. */
  predicate OwesRestart(e: Endpoint) { e.needsIceRestart || (e.making.Creating? && e.making.savedRestart) }

  /** Tracks have changed and no offer has carried that yet. */
  predicate OwesOffer(e: Endpoint) { e.needsNegotiation || (e.making.Creating? && e.making.savedNeeds) }

  /** The offer under way is sent; it carries what was saved when it was begun. */
  predicate SendsNow(s: Link, ev: Event, side: Side) {
    ev == OfferSettled(side, true) && End(s, side).making.Creating? && End(s, side).sig.Stable?
  }

  /** The other side's offer is accepted; its answer will carry the tracks of this side as they are. */
  predicate TakesOffer(s: Link, ev: Event, side: Side) {
    && ev == Receive(side) && Inbox(s, side) != [] && Inbox(s, side)[0].Offer? && !End(s, side).sig.HaveRemoteOffer?
    && (side == Polite || (End(s, side).making.Idle? && End(s, side).sig.Stable?))
  }

  /** A restart is owed from its request until an offer that carries it is sent, and a description never settles it. */
  lemma RestartIsOwedExactlyWhen(s: Link, ev: Event, side: Side)
    ensures OwesRestart(End(Apply(s, ev), side))
       <==> || (ev.Need? && ev.side == side && ev.restart)
            || (OwesRestart(End(s, side)) && !(SendsNow(s, ev, side) && !End(s, side).needsIceRestart))
  {
  }

  /** A track change is owed until an offer that carries it is sent, or the other side's offer is accepted before one was begun for it. */
  lemma OfferIsOwedExactlyWhen(s: Link, ev: Event, side: Side)
    ensures OwesOffer(End(Apply(s, ev), side))
       <==> || (ev.Need? && ev.side == side && !ev.restart)
            || (OwesOffer(End(s, side))
                && !(SendsNow(s, ev, side) && !End(s, side).needsNegotiation)
                && !(TakesOffer(s, ev, side) && !(End(s, side).making.Creating? && End(s, side).making.savedNeeds)))
  {
  }

  /** The other side's answer is applied. */
  predicate TakesAnswer(s: Link, ev: Event, side: Side) {
    ev == Receive(side) && Inbox(s, side) != [] && Inbox(s, side)[0].Answer? && End(s, side).sig.HaveLocalOffer?
  }

  lemma ReceiveAllows(s: Link, side: Side)
    ensures End(Apply(s, Receive(side)), side).canNegotiate
       <==> End(s, side).canNegotiate || TakesOffer(s, Receive(side), side) || TakesAnswer(s, Receive(side), side)
  {
  }

  /** A side may make offers from the moment it is the initiator or has taken a description, and for ever after. */
  lemma MayNegotiateExactlyWhen(s: Link, ev: Event, side: Side)
    ensures End(Apply(s, ev), side).canNegotiate
       <==> || End(s, side).canNegotiate || (ev.Need? && ev.side == side && ev.initiator)
            || TakesOffer(s, ev, side) || TakesAnswer(s, ev, side)
  {
    if ev == Receive(side) {
      ReceiveAllows(s, side);
    } else {
      OtherStepsAllow(s, ev, side);
    }
    hide Apply;
  }

  lemma OtherStepsAllow(s: Link, ev: Event, side: Side)
    requires ev != Receive(side)
    ensures End(Apply(s, ev), side).canNegotiate <==> End(s, side).canNegotiate || (ev.Need? && ev.side == side && ev.initiator)
  {
    hide AcceptDescription;
  }

  /** Some step of the run sends an offer that carries a restart of this side. */
  ghost predicate SendsRestart(s: Link, evs: seq<Event>, side: Side)
    decreases |evs|
  {
    evs != [] && ((SendsNow(s, evs[0], side) && End(s, side).making.savedRestart) || SendsRestart(Apply(s, evs[0]), evs[1..], side))
  }

  /** No restart is lost: whatever glare, rollbacks and rejections come in between, it is sent or still owed. */
  lemma {:induction false} NoRestartIsLost(s: Link, evs: seq<Event>, side: Side)
    requires OwesRestart(End(s, side))
    ensures OwesRestart(End(Run(s, evs), side)) || SendsRestart(s, evs, side)
    decreases |evs|
  {
    if evs != [] {
      RestartIsOwedExactlyWhen(s, evs[0], side);
      hide Apply;
      if OwesRestart(End(Apply(s, evs[0]), side)) { NoRestartIsLost(Apply(s, evs[0]), evs[1..], side); }
    }
  }

  /** The side reads the description at the head of its queue. */
  predicate Reads(s: Link, ev: Event, side: Side) {
    ev == Receive(side) && Inbox(s, side) != [] && !End(s, side).sig.HaveRemoteOffer?
  }

  predicate Answers(s: Link, ev: Event, side: Side) { ev == AnswerSettled(side) && End(s, side).sig.HaveRemoteOffer? }

  /** The signalling state follows what is sent and taken, and nothing else. */
  lemma SignalingFollows(s: Link, ev: Event, side: Side)
    ensures End(Apply(s, ev), side).sig ==
      if SendsNow(s, ev, side) then HaveLocalOffer(s.next)
      else if TakesOffer(s, ev, side) then HaveRemoteOffer(Inbox(s, side)[0].id)
      else if TakesAnswer(s, ev, side) || Answers(s, ev, side) then Stable
      else End(s, side).sig
  {
  }

  /** A queue loses what its side reads and gains the offers and answers of the other side. */
  lemma QueuesFollow(s: Link, ev: Event, side: Side)
    ensures Inbox(Apply(s, ev), side) ==
      (if Reads(s, ev, side) then Inbox(s, side)[1..] else Inbox(s, side))
      + (if SendsNow(s, ev, Other(side)) then [Offer(s.next)]
         else if Answers(s, ev, Other(side)) then [Answer(End(s, Other(side)).sig.remote)]
         else [])
  {
  }

  /** An offer is ignored by the impolite side alone, while it makes or has sent its own; the next description settles it anew. */
  lemma IgnoresExactlyWhen(s: Link, ev: Event, side: Side)
    ensures End(Apply(s, ev), side).ignoreOffer
       <==> if Reads(s, ev, side) then side == Impolite && Inbox(s, side)[0].Offer? && !(End(s, side).making.Idle? && End(s, side).sig.Stable?)
            else End(s, side).ignoreOffer
  {
  }

  /** An offer is under way from a need, or an answer that finds one on record, over a stable connection, until it has settled. */
  lemma MakingExactlyWhen(s: Link, ev: Event, side: Side)
    ensures var e := End(s, side); var e' := End(Apply(s, ev), side);
      && (e.making.Idle? ==>
            (e'.making.Creating? <==>
               && e'.canNegotiate && e'.sig.Stable?
               && ((ev.Need? && ev.side == side) || (TakesAnswer(s, ev, side) && (e.needsNegotiation || e.needsIceRestart)))))
      && (e.making.Creating? ==> e'.making == if ev.OfferSettled? && ev.side == side then Idle else e.making)
  {
  }

  /** An offer is begun only for something owed, over a stable connection, by a side that may, and one at a time. */
  lemma BeginsOnlyWhen(s: Link, ev: Event, side: Side)
    ensures End(s, side).making.Idle? && End(Apply(s, ev), side).making.Creating?
       ==> && End(Apply(s, ev), side).sig.Stable? && End(Apply(s, ev), side).canNegotiate
           && (OwesOffer(End(Apply(s, ev), side)) || OwesRestart(End(Apply(s, ev), side)))
           && ((ev.Need? && ev.side == side) || (ev == Receive(side) && Inbox(s, side) != [] && Inbox(s, side)[0].Answer?))
  {
  }
}

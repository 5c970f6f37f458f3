/**
  What sender, receiver and storage achieve together: honest frames give the source bytes, the repair rounds of
  `file.need` end, and which states of the receiver can never finish.
*/
module TransferProtocol {
  import opened Common
  import opened ChunkGeometry
  import opened Receiver
  import opened TransferBooks
  import opened FinalizeRace
  import Sender
  import ChunkStore
  import Sha256Spec

  // ---- Honest frames ----

  predicate CarriesSource(m: Manifest, source: seq<Byte>, i: nat, body: seq<Byte>)
    requires m.Valid() && |source| == m.layout.size
  {
    i < m.layout.Count() ==> body == Slice(m.layout, source, i)
  }

  predicate HonestEvent(m: Manifest, source: seq<Byte>, ev: Event)
    requires m.Valid() && |source| == m.layout.size
  {
    ev.Chunk? ==> CarriesSource(m, source, ev.index, ev.body)
  }

  predicate Agree(g: Layout, a: seq<Byte>, b: seq<Byte>, i: nat)
    requires g.Valid() && |a| == |b| == g.size
  {
    forall k | 0 <= k < g.size && g.Offset(i) <= k < g.End(i) :: a[k] == b[k]
  }

  /** Every stored chunk holds the bytes of the source. */
  ghost predicate StoreHonest(m: Manifest, source: seq<Byte>, s: Sink)
    requires m.Valid() && |source| == m.layout.size
  {
    s.Valid() && (s.payload.Some? ==>
      && |s.files[s.payload.value]| == m.layout.size
      && forall i | i in s.stored :: Agree(m.layout, s.files[s.payload.value], source, i))
  }

  /** Whatever file a call has opened is the source, also after it was renamed or replaced. */
  predicate CallHonest(source: seq<Byte>, s: Sink, call: Call) {
    match call
    case Reading(_, f, hashed) => f < |s.files| && s.files[f] == source && hashed <= source
    case Checked(_, f) => f < |s.files| && s.files[f] == source
    case Removed(_, f) => f < |s.files| && s.files[f] == source
    case _ => true
  }

  ghost predicate Honest(m: Manifest, source: seq<Byte>, t: Transfer)
    requires m.Valid()
  {
    && |source| == m.layout.size && StoreHonest(m, source, t.sink)
    && (forall i | i in t.processing :: CarriesSource(m, source, i, t.processing[i].body))
    && (forall c | c in t.calls :: CallHonest(source, t.sink, t.calls[c]))
  }

  lemma AgreeEverywhere(g: Layout, a: seq<Byte>, b: seq<Byte>)
    requires g.Valid() && |a| == |b| == g.size
    requires forall i: nat | i < g.Count() :: Agree(g, a, b, i)
    ensures a == b
  {
    forall at | 0 <= at < g.size
      ensures a[at] == b[at]
    {
      HolderHolds(g, at);
      assert Agree(g, a, b, Holder(g, at));
    }
  }

  /** When every chunk is stored, the payload is the source. */
  lemma FullStoreIsSource(m: Manifest, source: seq<Byte>, s: Sink)
    requires m.Valid() && |source| == m.layout.size && StoreHonest(m, source, s) && s.payload.Some? && m.Indices() <= s.stored
    ensures s.files[s.payload.value] == source
  {
    forall i: nat | i < m.layout.Count()
      ensures Agree(m.layout, s.files[s.payload.value], source, i)
    {
      assert m.Has(i) && i in m.Indices();
    }
    AgreeEverywhere(m.layout, s.files[s.payload.value], source);
  }

  lemma PutByteKeepsHonest(m: Manifest, source: seq<Byte>, t: Transfer, i: nat, at: nat)
    requires m.Valid() && |source| == m.layout.size && StoreHonest(m, source, t.sink)
    requires i in t.processing ==> CarriesSource(m, source, i, t.processing[i].body)
    ensures StoreHonest(m, source, PutOneByte(m, t, i, at).sink)
  {
    if Storable(m, t, i) && at < m.layout.Length(i) {
      ChunkInside(m.layout, i);
      assert Slice(m.layout, source, i)[at] == source[m.layout.Offset(i) + at];
    }
  }

  lemma SpliceAgrees(g: Layout, p: seq<Byte>, source: seq<Byte>, i: nat)
    requires g.Valid() && |source| == |p| == g.size && i < g.Count() && g.End(i) <= g.size
    ensures var p' := Splice(p, g.Offset(i), Slice(g, source, i));
      Agree(g, p', source, i) && forall j | Agree(g, p, source, j) :: Agree(g, p', source, j)
  {
    var body := Slice(g, source, i);
    var p' := Splice(p, g.Offset(i), body);
    forall k | 0 <= k < g.size
      ensures p'[k] == if g.Offset(i) <= k < g.End(i) then source[k] else p[k]
    {
    }
  }

  lemma WriteKeepsHonest(m: Manifest, source: seq<Byte>, t: Transfer, i: nat)
    requires m.Valid() && |source| == m.layout.size && StoreHonest(m, source, t.sink)
    requires Storable(m, t, i) && CarriesSource(m, source, i, t.processing[i].body)
    ensures StoreHonest(m, source, WrittenSink(m, t, i))
  {
    ChunkInside(m.layout, i);
    SpliceAgrees(m.layout, t.sink.files[t.sink.payload.value], source, i);
  }

  /** An honest write leaves every file as it is that is the source already. */
  lemma WriteKeepsCall(m: Manifest, source: seq<Byte>, t: Transfer, i: nat, call: Call)
    requires m.Valid() && Honest(m, source, t) && Storable(m, t, i) && CallHonest(source, t.sink, call)
    ensures CallHonest(source, WrittenSink(m, t, i), call)
    ensures forall at :: CallHonest(source, PutOneByte(m, t, i, at).sink, call)
  {
    if t.sink.files[t.sink.payload.value] == source {
      SameBytes(m, t, i);
    }
    hide Splice;
  }

  lemma WroteKeepsHonest(m: Manifest, source: seq<Byte>, t: Transfer, i: nat, ok: bool)
    requires m.Valid() && Honest(m, source, t)
    ensures Honest(m, source, Apply(m, t, Wrote(i, ok)))
  {
    if ok && Storable(m, t, i) {
      WriteKeepsHonest(m, source, t, i);
      forall c | c in t.calls ensures CallHonest(source, WrittenSink(m, t, i), t.calls[c]) { WriteKeepsCall(m, source, t, i, t.calls[c]); }
      DiscardKeepsHonest(m, source, WrittenSink(m, t, i));
      hide StoreHonest, WrittenSink;
    }
  }

  lemma DiscardKeepsHonest(m: Manifest, source: seq<Byte>, s: Sink)
    requires m.Valid() && |source| == m.layout.size && StoreHonest(m, source, s)
    ensures StoreHonest(m, source, s.Discarded()) && forall call :: CallHonest(source, s, call) <==> CallHonest(source, s.Discarded(), call)
  {
  }

  lemma ChunkStepCarries(m: Manifest, source: seq<Byte>, t: Transfer, ev: Event)
    requires m.Valid() && |source| == m.layout.size && HonestEvent(m, source, ev) && IsQueueStep(ev)
    requires forall i | i in t.processing :: CarriesSource(m, source, i, t.processing[i].body)
    ensures var t' := Apply(m, t, ev); forall i | i in t'.processing :: CarriesSource(m, source, i, t'.processing[i].body)
  {
    hide CarriesSource;
  }

  lemma ChunkStepKeepsHonest(m: Manifest, source: seq<Byte>, t: Transfer, ev: Event)
    requires m.Valid() && Honest(m, source, t) && HonestEvent(m, source, ev) && IsQueueStep(ev)
    ensures Honest(m, source, Apply(m, t, ev))
  {
    QueueStepFrame(m, t, ev);
    ChunkStepCarries(m, source, t, ev);
    hide StoreHonest, CallHonest, Apply, CarriesSource;
  }

  lemma WritingByteKeepsHonest(m: Manifest, source: seq<Byte>, t: Transfer, i: nat, at: nat)
    requires m.Valid() && Honest(m, source, t)
    ensures Honest(m, source, Apply(m, t, PutByte(i, at)))
  {
    PutByteKeepsHonest(m, source, t, i, at);
    if Storable(m, t, i) {
      var t' := PutOneByte(m, t, i, at);
      forall c | c in t.calls ensures CallHonest(source, t'.sink, t.calls[c]) { WriteKeepsCall(m, source, t, i, t.calls[c]); }
    }
    hide StoreHonest, CallHonest;
  }

  lemma StateStepKeepsHonest(m: Manifest, source: seq<Byte>, t: Transfer, ev: Event)
    requires m.Valid() && Honest(m, source, t) && IsStateStep(ev)
    ensures Honest(m, source, Apply(m, t, ev))
  {
    DiscardKeepsHonest(m, source, t.sink);
    hide StoreHonest;
  }

  lemma ListStepKeepsHonest(m: Manifest, source: seq<Byte>, t: Transfer, ev: Event)
    requires m.Valid() && Honest(m, source, t) && IsListStep(ev)
    ensures Honest(m, source, Apply(m, t, ev))
  {
    hide StoreHonest;
  }

  lemma OpenKeepsHonest(m: Manifest, source: seq<Byte>, t: Transfer, c: nat)
    requires m.Valid() && Honest(m, source, t)
    ensures Honest(m, source, Apply(m, t, Open(c)))
  {
    var s' := Prepared(m, t.sink);
    assert StoreHonest(m, source, s');
    if m.Indices() <= s'.stored { FullStoreIsSource(m, source, s'); }
    hide StoreHonest;
  }

  lemma HashBufferKeepsHonest(m: Manifest, source: seq<Byte>, t: Transfer, c: nat, length: nat)
    requires m.Valid() && Honest(m, source, t)
    ensures Honest(m, source, Apply(m, t, HashBuffer(c, length)))
  {
    hide StoreHonest;
    if Calling(t, c) && t.calls[c].Reading? {
      var Reading(_, f, done) := t.calls[c];
      var upTo := Min(|source|, |done| + length);
      if upTo > |done| { assert done + source[|done|..upTo] == source[..upTo]; }
    }
  }

  lemma CallStepKeepsHonest(m: Manifest, source: seq<Byte>, t: Transfer, ev: Event)
    requires m.Valid() && Honest(m, source, t) && (ev.CheckHash? || ev.Break? || ev.Report?)
    ensures Honest(m, source, Apply(m, t, ev))
  {
    hide StoreHonest;
  }

  lemma NameStepKeepsHonest(m: Manifest, source: seq<Byte>, t: Transfer, ev: Event)
    requires m.Valid() && Honest(m, source, t) && (ev.RemoveOld? || ev.Rename?)
    ensures Honest(m, source, Apply(m, t, ev))
  {
    hide Agree;
  }

  lemma EndStepKeepsHonest(m: Manifest, source: seq<Byte>, t: Transfer, ev: Event)
    requires m.Valid() && Honest(m, source, t) && (ev.CleanUp? || ev.Return?)
    ensures Honest(m, source, Apply(m, t, ev))
  {
    DiscardKeepsHonest(m, source, t.sink);
    hide StoreHonest;
  }

  lemma StepKeepsHonest(m: Manifest, source: seq<Byte>, t: Transfer, ev: Event)
    requires m.Valid() && Honest(m, source, t) && HonestEvent(m, source, ev)
    ensures Honest(m, source, Apply(m, t, ev))
  {
    hide Apply, StoreHonest, CallHonest;
    match ev
    case Wrote(i, ok) => WroteKeepsHonest(m, source, t, i, ok);
    case PutByte(i, at) => WritingByteKeepsHonest(m, source, t, i, at);
    case Open(c) => OpenKeepsHonest(m, source, t, c);
    case HashBuffer(c, length) => HashBufferKeepsHonest(m, source, t, c, length);
    case RemoveOld(_) => NameStepKeepsHonest(m, source, t, ev);
    case Rename(_) => NameStepKeepsHonest(m, source, t, ev);
    case CleanUp(_, _) => EndStepKeepsHonest(m, source, t, ev);
    case Return(_) => EndStepKeepsHonest(m, source, t, ev);
    case CheckHash(_) => CallStepKeepsHonest(m, source, t, ev);
    case Break(_) => CallStepKeepsHonest(m, source, t, ev);
    case Report(_, _) => CallStepKeepsHonest(m, source, t, ev);
    case _ =>
      if IsQueueStep(ev) { ChunkStepKeepsHonest(m, source, t, ev); }
      else if IsListStep(ev) { ListStepKeepsHonest(m, source, t, ev); }
      else { StateStepKeepsHonest(m, source, t, ev); }
  }

  ghost predicate HonestRun(m: Manifest, source: seq<Byte>, evs: seq<Event>)
    requires m.Valid() && |source| == m.layout.size
  {
    forall k | 0 <= k < |evs| :: HonestEvent(m, source, evs[k])
  }

  lemma RestIsHonest(m: Manifest, source: seq<Byte>, evs: seq<Event>)
    requires m.Valid() && |source| == m.layout.size && HonestRun(m, source, evs) && evs != []
    ensures HonestEvent(m, source, evs[0]) && HonestRun(m, source, evs[1..])
  {
    forall k | 0 <= k < |evs| - 1 ensures HonestEvent(m, source, evs[1..][k]) { assert evs[1..][k] == evs[k + 1]; }
  }

  lemma {:induction false} RunKeepsHonest(m: Manifest, source: seq<Byte>, t: Transfer, evs: seq<Event>)
    requires m.Valid() && Honest(m, source, t) && HonestRun(m, source, evs)
    ensures Honest(m, source, Run(m, t, evs))
    decreases |evs|
  {
    if evs != [] {
      assert |source| == m.layout.size;
      hide Honest, Apply, HonestRun, HonestEvent;
      RestIsHonest(m, source, evs);
      StepKeepsHonest(m, source, t, evs[0]);
      RunKeepsHonest(m, source, Apply(m, t, evs[0]), evs[1..]);
    }
  }

  function TheSource(source: seq<Byte>): Wanted { (b: seq<Byte>) => b == source }

  lemma HonestIsHarmless(m: Manifest, source: seq<Byte>, t: Transfer, ev: Event)
    requires m.Valid() && Honest(m, source, t)
    ensures Harmless(m, TheSource(source), t, ev)
  {
    if (ev.PutByte? || ev.Wrote?) && Storable(m, t, ev.index) {
      if c :| c in t.calls && HasOpen(t.calls[c], t.sink.payload) { assert CallHonest(source, t.sink, t.calls[c]); }
    }
    if ev.CheckHash? && ev.call in t.calls && t.calls[ev.call].Reading? { assert CallHonest(source, t.sink, t.calls[ev.call]); }
  }

  lemma {:induction false} RunKeepsPublished(m: Manifest, source: seq<Byte>, t: Transfer, evs: seq<Event>)
    requires m.Valid() && Honest(m, source, t) && HonestRun(m, source, evs) && Intact(m, TheSource(source), t) && NeverDoubled(m, t, evs)
    ensures Intact(m, TheSource(source), Run(m, t, evs))
    decreases |evs|
  {
    if evs != [] {
      assert |source| == m.layout.size;
      hide Honest, Apply, HonestRun, HonestEvent, Intact, Harmless;
      RestIsHonest(m, source, evs);
      HonestIsHarmless(m, source, t, evs[0]);
      StepKeepsIntact(m, TheSource(source), t, evs[0]);
      StepKeepsHonest(m, source, t, evs[0]);
      RunKeepsPublished(m, source, Apply(m, t, evs[0]), evs[1..]);
    }
  }

  /** `accept` ran on a store whose chunks, if any, are those of the source. */
  ghost predicate HonestStart(m: Manifest, source: seq<Byte>, t: Transfer)
    requires m.Valid()
  {
    JustAccepted(m, t) && |source| == m.layout.size && m.hash(source) == m.contentHash && StoreHonest(m, source, t.sink)
  }

  predicate Publishes(s: Sink, bytes: seq<Byte>) { s.content.Some? && s.content.value < |s.files| && s.files[s.content.value] == bytes }

  /**
    With honest frames, lost, repeated or interleaved in any way, and whatever the control messages were, verification finds the
    source bytes: every call that has read its file to the end passes the check.  While finalize calls stay apart, a call that
    has come to its end has published the source, and so has a completed transfer.
  */
  lemma {:induction false} HonestTransferCompletes(m: Manifest, source: seq<Byte>, t0: Transfer, evs: seq<Event>)
    requires m.Valid() && HonestStart(m, source, t0) && HonestRun(m, source, evs)
    ensures var t := Run(m, t0, evs);
      && (forall c | c in t.calls && t.calls[c].Reading? ::
            var Reading(announced, f, hashed) := t.calls[c];
            f < |t.sink.files| && hashed <= source == t.sink.files[f] &&
            (hashed == source ==> var t' := Apply(m, t, CheckHash(c)); c in t'.calls && t'.calls[c] == Checked(announced, f)))
      && (NeverDoubled(m, t0, evs) ==>
            && (t.phase.Completed? ==> Publishes(t.sink, source))
            && forall c | c in t.calls && Published(t.calls[c]) :: Publishes(t.sink, source))
      && (forall c | c in t.calls && t.calls[c] == Finished(m.contentHash, true) && t.listed && t.phase.Verifying? ::
            var done := Apply(m, t, Return(c));
            done.phase.Completed? && done.bytes == m.layout.size && (NeverDoubled(m, t0, evs) ==> Publishes(done.sink, source)))
  {
    RunKeepsHonest(m, source, t0, evs);
    var t := Run(m, t0, evs);
    forall c | c in t.calls && t.calls[c].Reading?
      ensures var Reading(announced, f, hashed) := t.calls[c];
        f < |t.sink.files| && hashed <= source == t.sink.files[f] &&
        (hashed == source ==> var t' := Apply(m, t, CheckHash(c)); c in t'.calls && t'.calls[c] == Checked(announced, f))
    {
      assert CallHonest(source, t.sink, t.calls[c]);
    }
    forall c | c in t.calls && t.calls[c] == Finished(m.contentHash, true) && t.listed && t.phase.Verifying?
      ensures var done := Apply(m, t, Return(c)); done.phase.Completed? && done.bytes == m.layout.size && done.sink == t.sink
    {
    }
    if NeverDoubled(m, t0, evs) {
      assert Intact(m, TheSource(source), t0);
      RunKeepsPublished(m, source, t0, evs);
      hide Run, Honest;
      forall c | c in t.calls && Published(t.calls[c]) ensures Publishes(t.sink, source) {
        assert CallIntact(m, TheSource(source), t.sink, t.calls[c]);
      }
    }
  }

  /** Whatever the frames were, a completed transfer is the source if no other bytes share its hash. */
  lemma {:induction false} CompletedIsSource(m: Manifest, source: seq<Byte>, t0: Transfer, evs: seq<Event>)
    requires m.Valid() && JustAccepted(m, t0) && NeverDoubled(m, t0, evs) && (NeverPremature(m, t0, evs) || NeverRevives(m, t0, evs))
    requires m.hash(source) == m.contentHash && forall b: seq<Byte> | m.hash(b) == m.hash(source) :: b == source
    ensures var t := Run(m, t0, evs); t.phase.Completed? ==> Publishes(t.sink, source)
  {
    CompletedHasIntegrity(m, t0, evs);
  }

  // ---- One system of sender, reliable channel and receiver ----

  /** `MAX_MISSING_CHUNKS_PER_REQUEST`. */
  const MAX_REQUEST := 2048

  function Elements(s: seq<nat>): set<nat> { set i | i in s }

  /** The list `requestMissing` sends: the first 2048 missing indices. */
  function Need(m: Manifest, missing: set<nat>): seq<nat>
    requires m.Valid()
  {
    var all := Sender.Selected(m.layout.Count(), Some(missing));
    all[..Min(MAX_REQUEST, |all|)]
  }

  /** The loop of `getMissingChunks`; `stored` answers `hasChunk`. */
  method GetMissingChunks(count: nat, received: set<nat>, stored: set<nat>) returns (missing: seq<nat>)
    ensures forall i: nat :: i in missing <==> i < count && i !in received && i !in stored
    ensures forall j, k | 0 <= j < k < |missing| :: missing[j] < missing[k]
  {
    missing := [];
    for index := 0 to count
      invariant forall i: nat :: i in missing <==> i < index && i !in received && i !in stored
      invariant forall j, k | 0 <= j < k < |missing| :: missing[j] < missing[k]
    {
      if index in received || index in stored { continue; }
      assert forall k | 0 <= k < |missing| :: missing[k] in missing;
      missing := missing + [index];
    }
  }

  /** One chunk frame, handled to the end before the next message. */
  function Handled(m: Manifest, source: seq<Byte>, i: nat): seq<Event>
    requires m.Valid() && |source| == m.layout.size && i < m.layout.Count()
  {
    [Chunk(i, Slice(m.layout, source, i)), Begin(i, true), Hashed(i, true), Wrote(i, true)]
  }

  /** What the receiver does with one message of the sender. */
  function Receives(m: Manifest, source: seq<Byte>, t: Transfer, out: Sender.Output): Transfer
    requires m.Valid() && |source| == m.layout.size
  {
    match out
    case ChunkOut(_, i) => if i < m.layout.Count() then Run(m, t, Handled(m, source, i)) else t
    case CompleteOut(_) => Apply(m, Apply(m, t, Complete(0, m.contentHash)), Proceed(0))
    case ManifestOut(_) => t
    case ErrorOut(_) => t
  }

  function ReceivesAll(m: Manifest, source: seq<Byte>, t: Transfer, outs: seq<Sender.Output>): Transfer
    requires m.Valid() && |source| == m.layout.size
    decreases |outs|
  {
    if outs == [] then t else ReceivesAll(m, source, Receives(m, source, t, outs[0]), outs[1..])
  }

  /** The number of sender steps that serve a list of `n` indices. */
  function ServingSteps(n: nat): nat { 5 * n + 4 }

  datatype System = System(sender: Sender.State, receiver: Transfer)

  /** One round: `file.accept` or `file.need` reaches the sender, and all it sends reaches the receiver in order. */
  function Round(m: Manifest, source: seq<Byte>, sys: System, id: Sender.Id, only: Option<set<nat>>): System
    requires m.Valid() && |source| == m.layout.size
  {
    var started := Sender.Apply(sys.sender, Sender.AcceptAndStart(id, only));
    var r, n := sys.sender.nextRun, ServingSteps(|Sender.Selected(m.layout.Count(), only)|);
    System(Sender.Advances(started, r, n), ReceivesAll(m, source, sys.receiver, Sender.OutputsAlong(started, r, n)))
  }

  /** The receiver between two rounds. */
  predicate Idle(m: Manifest, t: Transfer)
    requires m.Valid()
  {
    && t.phase.Transferring? && t.listed && t.accept.Returned? && t.processing == map[] && t.calls == map[]
    && t.missing.Some? && t.missing.value <= m.Indices() && t.received !! t.missing.value
    && t.sink.Valid() && t.sink.directory && t.sink.payload.Some? && |t.sink.files[t.sink.payload.value]| == m.layout.size
  }

  /** Both ends between two rounds. */
  predicate Paired(m: Manifest, sys: System, id: Sender.Id)
    requires m.Valid()
  {
    Idle(m, sys.receiver) && Sender.Serves(sys.sender, id) && sys.sender.transfers[id].chunkCount == m.layout.Count()
  }

  lemma RunOfFour(m: Manifest, t: Transfer, e: seq<Event>)
    requires m.Valid() && |e| == 4
    ensures Run(m, t, e) == Apply(m, Apply(m, Apply(m, Apply(m, t, e[0]), e[1]), e[2]), e[3])
  {
    hide Apply;
    RunStep(m, t, e, 0);
    RunStep(m, Apply(m, t, e[0]), e, 1);
    RunStep(m, Apply(m, Apply(m, t, e[0]), e[1]), e, 2);
    RunStep(m, Apply(m, Apply(m, Apply(m, t, e[0]), e[1]), e[2]), e, 3);
    assert e[0..] == e && e[4..] == [];
  }

  lemma HandleMissing(m: Manifest, t: Transfer, i: nat, body: seq<Byte>)
    requires m.Valid() && i < m.layout.Count() && Idle(m, t) && i in t.missing.value && |body| == m.layout.Length(i)
    ensures var t' := Apply(m, Apply(m, Apply(m, Apply(m, t, Chunk(i, body)), Begin(i, true)), Hashed(i, true)), Wrote(i, true));
      Idle(m, t') && t'.missing.value == t.missing.value - {i}
  {
    var t1 := Apply(m, t, Chunk(i, body));
    assert t1 == t.(processing := map[i := Queued(body)]);
    var t2 := Apply(m, t1, Begin(i, true));
    assert t2 == t.(processing := map[i := Hashing(body)]);
    var t3 := Apply(m, t2, Hashed(i, true));
    assert t3 == t.(processing := map[i := Writing(body)]);
    assert Storable(m, t3, i);
    var t4 := Apply(m, t3, Wrote(i, true));
    hide Splice;
    assert t4.processing == map[];
  }

  lemma HandleOther(m: Manifest, t: Transfer, i: nat, body: seq<Byte>)
    requires m.Valid() && i < m.layout.Count() && Idle(m, t) && i !in t.missing.value
    ensures var t' := Apply(m, Apply(m, Apply(m, Apply(m, t, Chunk(i, body)), Begin(i, true)), Hashed(i, true)), Wrote(i, true));
      Idle(m, t') && t'.missing.value == t.missing.value - {i}
  {
    assert t.missing.value - {i} == t.missing.value;
    var t1 := Apply(m, t, Chunk(i, body));
    if i in t.received {
      assert t1 == t;
    } else {
      assert t1 == t.(processing := map[i := Queued(body)]);
      var t2 := Apply(m, t1, Begin(i, true));
      assert t2 == t.(processing := map[i := Hashing(body)]);
      var t3 := Apply(m, t2, Hashed(i, true));
      assert t3 == t.(processing := map[], received := t.received + {i});
    }
  }

  lemma HandleOne(m: Manifest, source: seq<Byte>, t: Transfer, i: nat)
    requires m.Valid() && |source| == m.layout.size && i < m.layout.Count() && Idle(m, t)
    ensures var t' := Run(m, t, Handled(m, source, i)); Idle(m, t') && t'.missing.value == t.missing.value - {i}
  {
    ChunkInside(m.layout, i);
    var body := Slice(m.layout, source, i);
    RunOfFour(m, t, Handled(m, source, i));
    hide Apply, Idle;
    if i in t.missing.value { HandleMissing(m, t, i, body); } else { HandleOther(m, t, i, body); }
  }

  predicate Within(m: Manifest, frames: seq<nat>)
    requires m.Valid()
  {
    forall k | 0 <= k < |frames| :: frames[k] < m.layout.Count()
  }

  /** `d` is the receiver when it has handled the chunks and `last` is still to come. */
  lemma {:induction false} ChunksRemove(m: Manifest, source: seq<Byte>, t: Transfer, id: Sender.Id, frames: seq<nat>, last: seq<Sender.Output>)
    returns (d: Transfer)
    requires m.Valid() && |source| == m.layout.size && Idle(m, t) && Within(m, frames)
    ensures Idle(m, d) && d.missing.value == t.missing.value - Elements(frames)
    ensures ReceivesAll(m, source, t, Sender.Chunks(id, frames) + last) == ReceivesAll(m, source, d, last)
    decreases |frames|
  {
    var outs := Sender.Chunks(id, frames) + last;
    if frames == [] {
      d := t;
      assert outs == last;
    } else {
      HandleOne(m, source, t, frames[0]);
      hide Run, Apply;
      d := ChunksRemove(m, source, Run(m, t, Handled(m, source, frames[0])), id, frames[1..], last);
      assert outs[0] == Sender.ChunkOut(id, frames[0]);
      assert outs[1..] == Sender.Chunks(id, frames[1..]) + last;
      assert Elements(frames) == {frames[0]} + Elements(frames[1..]);
    }
  }

  lemma CompleteRound(m: Manifest, source: seq<Byte>, t: Transfer, id: Sender.Id)
    requires m.Valid() && |source| == m.layout.size && Idle(m, t)
    ensures var t' := ReceivesAll(m, source, t, [Sender.CompleteOut(id)]);
      && t'.missing == t.missing
      && (if t.missing.value == {} then t'.phase.Verifying? && t'.listed && t'.calls == map[0 := Starting(m.contentHash)] else Idle(m, t'))
  {
    var t1 := Apply(m, t, Complete(0, m.contentHash));
    assert t1 == t.(calls := map[0 := Waiting(m.contentHash)]);
    var t2 := Apply(m, t1, Proceed(0));
    assert t.missing.value != {} ==> t2 == t by { assert t1.calls - {0} == map[]; }
    assert [Sender.CompleteOut(id)][1..] == [];
    assert ReceivesAll(m, source, t, [Sender.CompleteOut(id)]) == t2;
  }

  lemma SelectedInside(m: Manifest, only: Option<set<nat>>)
    requires m.Valid()
    ensures var all := Sender.Selected(m.layout.Count(), only); Within(m, all) && forall i: nat :: i in Elements(all) <==> i < m.layout.Count() && (only.None? || i in only.value)
  {
    var all := Sender.Selected(m.layout.Count(), only);
    Sender.SelectedIsExact(m.layout.Count(), only);
    assert forall k | 0 <= k < |all| :: all[k] in all;
  }

  lemma ReceiverRound(m: Manifest, source: seq<Byte>, t: Transfer, id: Sender.Id, only: Option<set<nat>>)
    requires m.Valid() && |source| == m.layout.size && Idle(m, t)
    ensures var t' := ReceivesAll(m, source, t, Sender.Chunks(id, Sender.Selected(m.layout.Count(), only)) + [Sender.CompleteOut(id)]);
      && t'.missing == Some(if only.None? then {} else t.missing.value - only.value)
      && (if t'.missing == Some({}) then t'.phase.Verifying? && t'.listed else Idle(m, t'))
  {
    hide Sender.Selected, ReceivesAll;
    var frames := Sender.Selected(m.layout.Count(), only);
    SelectedInside(m, only);
    var d := ChunksRemove(m, source, t, id, frames, [Sender.CompleteOut(id)]);
    CompleteRound(m, source, d, id);
    assert forall i | i in t.missing.value :: m.Has(i);
    assert t.missing.value - Elements(frames) == if only.None? then {} else t.missing.value - only.value;
    hide Idle, Elements;
  }

  /** A round removes exactly what was asked for and starts verification when nothing is left; otherwise both ends are ready again. */
  lemma {:induction false} RoundEffect(m: Manifest, source: seq<Byte>, sys: System, id: Sender.Id, only: Option<set<nat>>)
    requires m.Valid() && |source| == m.layout.size && Paired(m, sys, id)
    ensures var sys' := Round(m, source, sys, id, only); var t, t' := sys.receiver, sys'.receiver;
      && t'.missing == Some(if only.None? then {} else t.missing.value - only.value)
      && (if t'.missing == Some({}) then t'.phase.Verifying? && t'.listed else Paired(m, sys', id))
  {
    IdleHasList(m, sys.receiver);
    hide Sender.Selected, Sender.Advances, Sender.OutputsAlong, Sender.Apply, Idle, ReceivesAll, Sender.Chunks, Sender.Serves;
    Sender.ServesRound(sys.sender, id, only);
    ReceiverRound(m, source, sys.receiver, id, only);
  }

  lemma IdleHasList(m: Manifest, t: Transfer)
    requires m.Valid() && Idle(m, t)
    ensures t.missing.Some? && t.missing.value <= m.Indices()
  {
  }

  // ---- Repair rounds ----

  lemma {:induction false} DistinctSize(s: seq<nat>)
    requires forall j, k | 0 <= j < k < |s| :: s[j] < s[k]
    ensures |Elements(s)| == |s|
  {
    if s != [] {
      var front, last := s[..|s| - 1], s[|s| - 1];
      DistinctSize(front);
      assert s == front + [last];
      assert Elements(s) == Elements(front) + {last};
      assert last !in Elements(front);
    }
  }

  lemma SelectedCovers(m: Manifest, missing: set<nat>)
    requires m.Valid() && missing <= m.Indices()
    ensures var all := Sender.Selected(m.layout.Count(), Some(missing)); Elements(all) == missing && |all| == |missing|
  {
    Sender.SelectedIsExact(m.layout.Count(), Some(missing));
    var all := Sender.Selected(m.layout.Count(), Some(missing));
    DistinctSize(all);
    assert forall i | i in missing :: m.Has(i);
    assert Elements(all) == missing;
  }

  lemma PrefixHas(s: seq<nat>, n: nat, k: nat)
    requires n <= |s| && k < |s|
    ensures k < n ==> s[k] in Elements(s[..n])
  {
    if k < n { assert s[..n][k] == s[k]; }
  }

  lemma SizeOfRest<T>(s: set<T>, part: set<T>)
    requires part <= s
    ensures |s - part| == |s| - |part|
  {
    assert s == part + (s - part);
  }

  /** In an ascending list, what comes first is smaller than all the rest. */
  lemma PrefixIsLeast(all: seq<nat>, n: nat, i: nat, j: nat)
    requires n <= |all| && (forall a, b | 0 <= a < b < |all| :: all[a] < all[b])
    requires i in Elements(all[..n]) && j in Elements(all) && j !in Elements(all[..n])
    ensures i < j
  {
    var a :| 0 <= a < n && all[..n][a] == i;
    var b :| 0 <= b < |all| && all[b] == j;
    PrefixHas(all, n, b);
  }

  /** A need list is the least 2048 missing indices, or all of them. */
  lemma NeedSize(m: Manifest, missing: set<nat>)
    requires m.Valid() && missing <= m.Indices()
    ensures var need := Elements(Need(m, missing));
      need <= missing && |need| == Min(MAX_REQUEST, |missing|) && |missing - need| == |missing| - |need|
    ensures forall i, j | i in Elements(Need(m, missing)) && j in missing - Elements(Need(m, missing)) :: i < j
  {
    var all, need := Sender.Selected(m.layout.Count(), Some(missing)), Need(m, missing);
    Sender.SelectedIsExact(m.layout.Count(), Some(missing));
    SelectedCovers(m, missing);
    hide Sender.Selected;
    DistinctSize(need);
    forall i | i in Elements(need) ensures i in missing { assert i in Elements(all); }
    SizeOfRest(missing, Elements(need));
    forall i, j | i in Elements(need) && j in missing - Elements(need) ensures i < j { PrefixIsLeast(all, |need|, i, j); }
  }

  lemma OneRound(m: Manifest, source: seq<Byte>, sys: System, id: Sender.Id)
    requires m.Valid() && |source| == m.layout.size && Paired(m, sys, id)
    ensures var t := sys.receiver; var sys' := Round(m, source, sys, id, Some(Elements(Need(m, t.missing.value)))); var n := |t.missing.value|;
      var t' := sys'.receiver;
      && t'.missing.Some? && t'.missing.value <= t.missing.value
      && (forall i, j | i in t.missing.value - t'.missing.value && j in t'.missing.value :: i < j)
      && |t'.missing.value| == (if n <= MAX_REQUEST then 0 else n - MAX_REQUEST)
      && (if n <= MAX_REQUEST then t'.phase.Verifying? && t'.listed else Paired(m, sys', id))
  {
    IdleHasList(m, sys.receiver);
    NeedSize(m, sys.receiver.missing.value);
    RoundEffect(m, source, sys, id, Some(Elements(Need(m, sys.receiver.missing.value))));
    hide Round, Need, Elements, Idle, Sender.Serves;
  }

  /** The system after `k` rounds, each asking for what `file.need` lists. */
  function AfterRounds(m: Manifest, source: seq<Byte>, sys: System, id: Sender.Id, k: nat): System
    requires m.Valid() && |source| == m.layout.size
  {
    if k == 0 then sys
    else
      var sys' := AfterRounds(m, source, sys, id, k - 1);
      if sys'.receiver.phase.Verifying? || sys'.receiver.missing.None? then sys'
      else Round(m, source, sys', id, Some(Elements(Need(m, sys'.receiver.missing.value))))
  }

  /**
    Each complete/need round of the two ends stores the next 2048 missing chunks: after k rounds exactly the larger ones are
    still missing, and verification is reached in round max(1, ceil(missing / 2048)) and not before.
  */
  lemma {:induction false} RepairRoundsEnd(m: Manifest, source: seq<Byte>, sys: System, id: Sender.Id, k: nat)
    requires m.Valid() && |source| == m.layout.size && Paired(m, sys, id)
    ensures var sys' := AfterRounds(m, source, sys, id, k); var t, t' := sys.receiver, sys'.receiver; var n := |t.missing.value|;
      && t'.missing.Some? && t'.missing.value <= t.missing.value
      && (forall i, j | i in t.missing.value - t'.missing.value && j in t'.missing.value :: i < j)
      && |t'.missing.value| == (if n <= MAX_REQUEST * k then 0 else n - MAX_REQUEST * k)
      && (if k > 0 && n <= MAX_REQUEST * k then t'.phase.Verifying? && t'.listed else Paired(m, sys', id))
  {
    hide Round, Need, Elements, Sender.Serves;
    if k > 0 {
      RepairRoundsEnd(m, source, sys, id, k - 1);
      var before := AfterRounds(m, source, sys, id, k - 1);
      if !before.receiver.phase.Verifying? {
        OneRound(m, source, before, id);
        var after := AfterRounds(m, source, sys, id, k);
        forall i, j | i in sys.receiver.missing.value - after.receiver.missing.value && j in after.receiver.missing.value ensures i < j {
          assert i in before.receiver.missing.value - after.receiver.missing.value || i in sys.receiver.missing.value - before.receiver.missing.value;
          assert j in before.receiver.missing.value;
        }
        assert MAX_REQUEST * k == MAX_REQUEST * (k - 1) + MAX_REQUEST;
      }
    }
  }

  /** When nothing was stored, `file.accept` asks for everything and one round is enough. */
  lemma FullRoundEnds(m: Manifest, source: seq<Byte>, sys: System, id: Sender.Id)
    requires m.Valid() && |source| == m.layout.size && Paired(m, sys, id)
    ensures var t' := Round(m, source, sys, id, None).receiver; t'.phase.Verifying? && t'.listed && t'.missing == Some({})
  {
    RoundEffect(m, source, sys, id, None);
    hide Round;
  }

  // ---- A receiver that can never finish ----

  /** An index that is both missing and received is dropped by `handleChunk` for ever. */
  ghost predicate Stuck(t: Transfer, i: nat) {
    && t.missing.Some? && i in t.missing.value && i in t.received && i !in t.processing && !t.accept.Listing?
    && forall c | c in t.calls :: !t.calls[c].Asked?
  }

  lemma ChunkStepStuck(m: Manifest, t: Transfer, ev: Event, i: nat)
    requires m.Valid() && Stuck(t, i) && IsChunkStep(ev)
    ensures Stuck(Apply(m, t, ev), i)
  {
    hide Splice;
  }

  lemma StuckStays(m: Manifest, t: Transfer, ev: Event, i: nat)
    requires m.Valid() && Stuck(t, i)
    ensures Stuck(Apply(m, t, ev), i) && !StartsFinalize(t, ev)
  {
    if IsChunkStep(ev) {
      ChunkStepStuck(m, t, ev, i);
    } else if IsFileStep(ev) {
      FileStepFrame(m, t, ev);
      hide Apply;
    } else {
      OtherStepStuck(m, t, ev, i);
    }
  }

  lemma OtherStepStuck(m: Manifest, t: Transfer, ev: Event, i: nat)
    requires m.Valid() && Stuck(t, i) && (IsListStep(ev) || IsStateStep(ev))
    ensures Stuck(Apply(m, t, ev), i)
  {
  }

  lemma {:induction false} StuckNeverFinalizes(m: Manifest, t: Transfer, evs: seq<Event>, i: nat)
    requires m.Valid() && Stuck(t, i)
    ensures Stuck(Run(m, t, evs), i) && forall ev :: !StartsFinalize(Run(m, t, evs), ev)
    decreases |evs|
  {
    if evs != [] {
      StuckStays(m, t, evs[0], i);
      hide Apply;
      StuckNeverFinalizes(m, Apply(m, t, evs[0]), evs[1..], i);
    }
  }

  /** The events that make up what the receiver does with a list of chunks. */
  lemma {:induction false} ChunksAreRun(m: Manifest, source: seq<Byte>, t: Transfer, frames: seq<nat>) returns (evs: seq<Event>)
    requires m.Valid() && |source| == m.layout.size && Idle(m, t) && Within(m, frames)
    ensures Idle(m, Run(m, t, evs)) && Run(m, t, evs).missing.value == t.missing.value - Elements(frames)
    decreases |frames|
  {
    if frames == [] {
      evs := [];
    } else {
      HandleOne(m, source, t, frames[0]);
      hide Idle, Apply;
      var rest := ChunksAreRun(m, source, Run(m, t, Handled(m, source, frames[0])), frames[1..]);
      evs := Handled(m, source, frames[0]) + rest;
      RunAppend(m, t, Handled(m, source, frames[0]), rest);
      assert Elements(frames) == {frames[0]} + Elements(frames[1..]);
      hide Run;
    }
  }

  /** The state when `accept` has returned, whether or not chunks were stored while its list was on its way. */
  predicate Settled(m: Manifest, t: Transfer)
    requires m.Valid()
  {
    Idle(m, t.(received := {}))
  }

  lemma Finishes(m: Manifest, source: seq<Byte>, t: Transfer)
    requires m.Valid() && |source| == m.layout.size && Idle(m, t)
    ensures exists evs :: StartsFinalize(Run(m, t, evs), Proceed(0))
  {
    var frames := Sender.Selected(m.layout.Count(), None);
    SelectedInside(m, None);
    var evs := ChunksAreRun(m, source, t, frames);
    var d := Run(m, t, evs);
    assert forall i | i in t.missing.value :: m.Has(i) && i in Elements(frames);
    assert d.missing.value == {};
    var done := Apply(m, d, Complete(0, []));
    assert done == d.(calls := map[0 := Waiting([])]);
    RunAppend(m, t, evs, [Complete(0, [])]);
    assert Run(m, d, [Complete(0, [])]) == done by { assert [Complete(0, [])][1..] == []; }
    assert StartsFinalize(Run(m, t, evs + [Complete(0, [])]), Proceed(0));
  }

  /** Verification can still be reached exactly when no listed index has been received already. */
  lemma {:induction false} CanFinishExactlyWhen(m: Manifest, source: seq<Byte>, t: Transfer)
    requires m.Valid() && |source| == m.layout.size && Settled(m, t)
    ensures t.received !! t.missing.value <==> exists evs :: StartsFinalize(Run(m, t, evs), Proceed(0))
  {
    if t.received !! t.missing.value {
      Finishes(m, source, t);
    } else {
      var i :| i in t.received && i in t.missing.value;
      assert Stuck(t, i);
      forall evs ensures !StartsFinalize(Run(m, t, evs), Proceed(0)) { StuckNeverFinalizes(m, t, evs, i); }
    }
  }

  /**
    So, for every undisturbed run of `accept` with nothing in hand when its list arrives: the transfer can finish exactly when
    no listed chunk was stored since the list was read.
  */
  lemma {:induction false} ListingRaceStrands(m: Manifest, source: seq<Byte>, t0: Transfer, evs: seq<Event>)
    requires m.Valid() && |source| == m.layout.size && JustAccepted(m, t0) && Undisturbed(m, t0, evs)
    requires var t := Run(m, t0, evs);
      IsReceiving(t) && t.accept.Listing? && t.accept.snapshot.Some? && t.processing == map[] && t.calls == map[]
    ensures var t := Run(m, t0, evs); var t' := Apply(m, Apply(m, t, Install), AcceptReturns(true));
      (exists after :: StartsFinalize(Run(m, t', after), Proceed(0))) <==> t.accept.snapshot.value !! t.sink.stored
  {
    AcceptedHasInv(m, t0);
    RunKeepsInv(m, t0.sink.stored, t0, evs);
    var t := Run(m, t0, evs);
    assert StoreTrue(m, t0.sink.stored, t);
    var t' := Apply(m, Apply(m, t, Install), AcceptReturns(true));
    assert t' == t.(accept := Returned, phase := Transferring, missing := t.accept.snapshot);
    CanFinishExactlyWhen(m, source, t');
    assert forall i | i in t.accept.snapshot.value :: i in t.received <==> i in t.sink.stored;
  }

  /** And that happens: a chunk that arrives between the reading of the list and its installation. */
  function RaceRun(i: nat, body: seq<Byte>): seq<Event> {
    [ListRead, Chunk(i, body), Begin(i, true), Hashed(i, true), Answered(i), Wrote(i, true)]
  }

  lemma ChunkDuringListing(m: Manifest, t: Transfer, i: nat, body: seq<Byte>)
    requires m.Valid() && JustAccepted(m, t) && i < m.layout.Count() && i !in t.sink.stored && |body| == m.layout.Length(i)
    ensures var t' := Run(m, t, RaceRun(i, body));
      && IsReceiving(t') && t'.accept == Listing(Some(m.Indices() - t.sink.stored)) && t'.processing == map[] && t'.calls == map[]
      && i in t'.sink.stored && i in t'.received
  {
    var t1 := Apply(m, t, ListRead);
    assert t1 == t.(accept := Listing(Some(m.Indices() - t.sink.stored)));
    var t2 := Apply(m, t1, Chunk(i, body));
    assert t2 == t1.(processing := map[i := Queued(body)]);
    var t3 := Apply(m, t2, Begin(i, true));
    assert t3 == t1.(processing := map[i := Hashing(body)]);
    var t4 := Apply(m, t3, Hashed(i, true));
    assert t4 == t1.(processing := map[i := Asking(body)]);
    var t5 := Apply(m, t4, Answered(i));
    assert t5 == t1.(processing := map[i := Writing(body)]);
    assert Storable(m, t5, i);
    var t6 := Apply(m, t5, Wrote(i, true));
    assert t6.processing == map[];
    hide Apply;
    RunOfSix(m, t, RaceRun(i, body));
  }

  lemma {:induction false} ListingRaceHappens(m: Manifest, t: Transfer, i: nat, body: seq<Byte>)
    requires m.Valid() && JustAccepted(m, t) && i < m.layout.Count() && i !in t.sink.stored && |body| == m.layout.Length(i)
    ensures var t' := Apply(m, Apply(m, Run(m, t, RaceRun(i, body)), Install), AcceptReturns(true));
      forall evs, ev :: !StartsFinalize(Run(m, t', evs), ev)
  {
    ChunkDuringListing(m, t, i, body);
    hide Run;
    var t1 := Run(m, t, RaceRun(i, body));
    var t' := Apply(m, Apply(m, t1, Install), AcceptReturns(true));
    assert m.Has(i) && i in m.Indices();
    assert Stuck(t', i);
    forall evs, ev ensures !StartsFinalize(Run(m, t', evs), ev) { StuckNeverFinalizes(m, t', evs, i); }
  }

  // ---- The receiver on the real directory ----

  /** The directory on disk is what the receiver takes its sink to be. */
  ghost predicate Represents(g: Layout, d: ChunkStore.Directory, s: Sink)
    requires g.Valid()
  {
    && ChunkStore.Believed(d) && s.Valid() && s.directory && s.payload.Some? && d.payload.value == s.files[s.payload.value]
    && |d.payload.value| == g.size && |d.chunkMap.value| == g.Count()
    && forall i: nat | i < g.Count() :: ChunkStore.Marked(d.chunkMap.value, i) <==> i in s.stored
  }

  lemma SpliceIs(p: seq<Byte>, q: seq<Byte>, at: nat, body: seq<Byte>)
    requires at + |body| <= |p| == |q| && q[at..at + |body|] == body
    requires forall k | 0 <= k < |p| && !(at <= k < at + |body|) :: q[k] == p[k]
    ensures q == Splice(p, at, body)
  {
    forall k | at <= k < at + |body| ensures q[k] == body[k - at] { assert q[at..at + |body|][k - at] == body[k - at]; }
  }

  /** `processChunk` from the write on, with the backend's `write_chunk` behind it. */
  method StoreFrame(dir: ChunkStore.TransferDirectory, t: IncomingTransfer, i: nat)
    requires t.m.Valid() && dir.layout == t.m.layout && Represents(dir.layout, dir.View(), t.sink) && t.listed
    requires i in t.processing && t.processing[i].Writing?
    modifies dir, t
    ensures t.View() == Apply(t.m, old(t.View()), Wrote(i, true)) && Represents(dir.layout, dir.View(), t.sink)
  {
    var body := t.processing[i].body;
    ghost var before := dir.View();
    if i < dir.layout.Count() { ChunkInside(dir.layout, i); }
    var ok := dir.WriteChunk(i, body);
    if ok { SpliceIs(before.payload.value, dir.payload.value, dir.layout.Offset(i), body); }
    hide Splice;
    t.AfterWrite(i, true);
  }

  /** `finalize_transfer` from its start to its end with nothing in between. */
  function Uninterrupted(m: Manifest, c: nat): seq<Event> {
    [Open(c), HashBuffer(c, m.layout.size), CheckHash(c), RemoveOld(c), Rename(c), CleanUp(c, true)]
  }

  lemma UninterruptedSucceeds(m: Manifest, t: Transfer, c: nat, f: nat)
    requires m.Valid() && c in t.calls && t.calls[c] == Starting(m.contentHash) && t.sink.directory && t.sink.payload == Some(f) && f < |t.sink.files|
    requires m.Indices() <= t.sink.stored && m.Good(t.sink.files[f])
    ensures Run(m, t, Uninterrupted(m, c))
         == t.(calls := t.calls[c := Finished(m.contentHash, true)], sink := t.sink.(content := Some(f)).Discarded())
  {
    hide Apply;
    var h := m.contentHash;
    CallOpens(m, t, c, f);
    var t1 := t.(calls := t.calls[c := Reading(h, f, [])]);
    CallReads(m, t1, c, f);
    var t3 := t.(calls := t.calls[c := Checked(h, f)]);
    assert t1.calls[c := Checked(h, f)] == t3.calls;
    CallPublishes(m, t3, c);
    var t5 := t.(calls := t.calls[c := Renamed(h)], sink := t.sink.(content := Some(f), payload := None));
    assert t3.calls[c := Renamed(h)] == t5.calls;
    CallCleansUp(m, t5, c);
    assert t5.calls[c := Finished(h, true)] == t.calls[c := Finished(h, true)];
    RunOfSix(m, t, Uninterrupted(m, c));
  }

  lemma FailedStays(m: Manifest, t: Transfer, c: nat)
    requires m.Valid() && c in t.calls && t.calls[c].Finished?
    ensures Apply(m, t, HashBuffer(c, m.layout.size)) == Apply(m, t, CheckHash(c)) == t
    ensures Apply(m, t, RemoveOld(c)) == Apply(m, t, Rename(c)) == Apply(m, t, CleanUp(c, true)) == t
  {
  }

  lemma ReadsAll(m: Manifest, t: Transfer, c: nat, f: nat)
    requires m.Valid() && c in t.calls && t.calls[c] == Reading(m.contentHash, f, []) && f < |t.sink.files|
    requires |t.sink.files[f]| == m.layout.size && !m.Good(t.sink.files[f])
    ensures Apply(m, Apply(m, t, HashBuffer(c, m.layout.size)), CheckHash(c)) == t.(calls := t.calls[c := Finished(m.contentHash, false)])
  {
    var bytes := t.sink.files[f];
    assert [] + bytes[0..|bytes|] == bytes;
    var t1 := Apply(m, t, HashBuffer(c, m.layout.size));
    assert t1 == t.(calls := t.calls[c := Reading(m.contentHash, f, bytes)]);
    assert t1.calls[c := Finished(m.contentHash, false)] == t.calls[c := Finished(m.contentHash, false)];
  }

  lemma UninterruptedFails(m: Manifest, t: Transfer, c: nat, f: nat)
    requires m.Valid() && c in t.calls && t.calls[c] == Starting(m.contentHash) && t.sink.directory && t.sink.payload == Some(f) && f < |t.sink.files|
    requires |t.sink.files[f]| == m.layout.size && !(m.Indices() <= t.sink.stored && m.Good(t.sink.files[f]))
    ensures Run(m, t, Uninterrupted(m, c)) == t.(calls := t.calls[c := Finished(m.contentHash, false)])
  {
    var end := t.(calls := t.calls[c := Finished(m.contentHash, false)]);
    FailedStays(m, end, c);
    if m.Indices() <= t.sink.stored {
      CallOpens(m, t, c, f);
      var t1 := t.(calls := t.calls[c := Reading(m.contentHash, f, [])]);
      ReadsAll(m, t1, c, f);
      assert t1.calls[c := Finished(m.contentHash, false)] == end.calls;
    } else {
      assert Apply(m, t, Open(c)) == end;
    }
    hide Apply;
    RunOfSix(m, t, Uninterrupted(m, c));
  }

  /** What the backend's check of the map means for the receiver. */
  lemma AllMarkedIsStored(m: Manifest, d: ChunkStore.Directory, s: Sink)
    requires m.Valid() && Represents(m.layout, d, s)
    ensures m.Indices() <= s.stored <==> forall i: nat | i < m.layout.Count() :: ChunkStore.Marked(d.chunkMap.value, i)
  {
    if m.Indices() <= s.stored {
      forall i: nat | i < m.layout.Count() ensures ChunkStore.Marked(d.chunkMap.value, i) { assert m.Has(i) && i in m.Indices(); }
    }
  }

  /** `sink.finalize` with the backend's `finalize_transfer` behind it: it succeeds exactly when the payload is what the manifest says. */
  method FinalizeInBackend(dir: ChunkStore.TransferDirectory, t: IncomingTransfer, c: nat) returns (ok: bool)
    requires t.m.Valid() && dir.layout == t.m.layout && Represents(dir.layout, dir.View(), t.sink)
    requires forall b: seq<Byte> :: t.m.hash(b) == Sha256Spec.Sha256(b)
    requires c in t.calls && t.calls[c] == Starting(t.m.contentHash)
    modifies dir, t
    ensures t.View() == Run(t.m, old(t.View()), Uninterrupted(t.m, c))
    ensures ok <==> t.m.Indices() <= old(t.sink).stored && Sha256Spec.Sha256(old(dir.payload).value) == t.m.contentHash
    ensures ok ==> dir.payload.None? && t.sink.content.Some? && t.sink.content.value < |t.sink.files|
                   && t.sink.files[t.sink.content.value] == old(dir.payload).value
    ensures t.calls == old(t.calls)[c := Finished(t.m.contentHash, ok)]
  {
    hide Sha256Spec.Sha256, Apply, Run, Uninterrupted;
    ghost var before, f := t.View(), t.sink.payload.value;
    AllMarkedIsStored(t.m, dir.View(), t.sink);
    var content := dir.FinalizeTransfer(t.m.contentHash, 1024 * 1024);
    ok := content.Some?;
    if ok {
      UninterruptedSucceeds(t.m, before, c, f);
      t.sink := t.sink.(content := t.sink.payload).Discarded();
    } else {
      UninterruptedFails(t.m, before, c, f);
    }
    t.calls := t.calls[c := Finished(t.m.contentHash, ok)];
  }
}

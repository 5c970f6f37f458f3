/**
  What the books of an incoming transfer say at every interleaving: how progress follows the list of missing chunks, and what
  is in the storage when a finalize starts.  Pauses, resumes, cancels and the end of `accept` may fall anywhere.
*/
module TransferBooks {
  import opened Common
  import opened ChunkGeometry
  import opened Receiver

  // ---- Runs ----

  /** No `file.complete` is handled before a list is there. */
  ghost predicate NeverPremature(m: Manifest, t: Transfer, evs: seq<Event>)
    requires m.Valid()
    decreases |evs|
  {
    evs != [] ==> !Premature(t, evs[0]) && NeverPremature(m, Apply(m, t, evs[0]), evs[1..])
  }

  /** A handler writes the state of a transfer that is being cancelled. */
  predicate Revives(t: Transfer, ev: Event) {
    t.cancelling && (Overwrites(t, ev) || (ev.OwnListUsed? && StartsFinalize(t, ev)))
  }

  ghost predicate NeverRevives(m: Manifest, t: Transfer, evs: seq<Event>)
    requires m.Valid()
    decreases |evs|
  {
    evs != [] ==> !Revives(t, evs[0]) && NeverRevives(m, Apply(m, t, evs[0]), evs[1..])
  }

  /** A call goes on while a chunk still waits for the answer of `hasChunk`; `waitForInFlightWrites` rules that out. */
  predicate Hasty(t: Transfer, ev: Event) {
    ev.Proceed? && exists i :: i in t.processing && t.processing[i].Asking?
  }

  ghost predicate NeverHasty(m: Manifest, t: Transfer, evs: seq<Event>)
    requires m.Valid()
    decreases |evs|
  {
    evs != [] ==> !Hasty(t, evs[0]) && NeverHasty(m, Apply(m, t, evs[0]), evs[1..])
  }

  // ---- What each kind of step leaves alone ----

  predicate IsQueueStep(ev: Event) { ev.Chunk? || ev.Begin? || ev.Hashed? || ev.Answered? }

  predicate IsChunkStep(ev: Event) { IsQueueStep(ev) || ev.PutByte? || ev.Wrote? }

  predicate IsFileStep(ev: Event) {
    ev.Open? || ev.HashBuffer? || ev.CheckHash? || ev.RemoveOld? || ev.Rename? || ev.CleanUp? || ev.Break? || ev.Return? || ev.Report?
  }

  /** Steps of chunks that do not write change only the books about chunks. */
  lemma QueueStepFrame(m: Manifest, t: Transfer, ev: Event)
    requires m.Valid() && IsQueueStep(ev)
    ensures var t' := Apply(m, t, ev); t' == t.(processing := t'.processing, received := t'.received)
  {
  }

  /** The steps of `finalize` and what follows it. */
  ghost predicate FileFrame(t: Transfer, t': Transfer) {
    && t'.processing == t.processing && t'.received == t.received && t'.missing == t.missing
    && t'.accept == t.accept && t'.cancelling == t.cancelling
    && (t'.listed ==> t.listed) && (t'.sink.directory ==> t.sink.directory) && t'.sink.stored <= t.sink.stored
    && |t.sink.files| <= |t'.sink.files|
    && (t'.sink.payload.Some? && t'.sink.payload.value < |t.sink.files| ==> t'.sink.payload == t.sink.payload && t'.sink.stored == t.sink.stored)
    && (t.phase.Cancelled? ==> t'.phase.Cancelled?)
    && (forall c | c in t'.calls :: c in t.calls && CallFollows(t.calls[c], t'.calls[c], t'.sink))
  }

  /** A call whose `finalize` has renamed the payload, and has not failed since. */
  predicate Published(call: Call) { call.Renamed? || (call.Finished? && call.ok) }

  predicate CallFollows(call: Call, call': Call, s': Sink) {
    && call'.announced == call.announced && (call'.Asked? ==> call' == call) && (Busy(call') ==> Busy(call))
    && (Published(call') ==> Published(call) || s'.payload.None?)
  }

  lemma HashStepFrame(m: Manifest, t: Transfer, ev: Event)
    requires m.Valid() && (ev.HashBuffer? || ev.CheckHash?)
    ensures FileFrame(t, Apply(m, t, ev))
  {
  }

  lemma BreakFrame(m: Manifest, t: Transfer, c: nat)
    requires m.Valid()
    ensures FileFrame(t, Apply(m, t, Break(c)))
  {
  }

  lemma OpenFrame(m: Manifest, t: Transfer, c: nat)
    requires m.Valid()
    ensures FileFrame(t, Apply(m, t, Open(c)))
  {
  }

  lemma NameStepFrame(m: Manifest, t: Transfer, ev: Event)
    requires m.Valid() && (ev.RemoveOld? || ev.Rename?)
    ensures FileFrame(t, Apply(m, t, ev))
  {
  }

  lemma CleanUpFrame(m: Manifest, t: Transfer, c: nat, removed: bool)
    requires m.Valid()
    ensures FileFrame(t, Apply(m, t, CleanUp(c, removed)))
  {
  }

  lemma ReturnFrame(m: Manifest, t: Transfer, ev: Event)
    requires m.Valid() && (ev.Return? || ev.Report?)
    ensures FileFrame(t, Apply(m, t, ev))
  {
  }

  lemma FileStepFrame(m: Manifest, t: Transfer, ev: Event)
    requires m.Valid() && IsFileStep(ev)
    ensures FileFrame(t, Apply(m, t, ev))
  {
    hide Apply, FileFrame;
    if ev.Open? { OpenFrame(m, t, ev.call); }
    else if ev.RemoveOld? || ev.Rename? { NameStepFrame(m, t, ev); }
    else if ev.Break? { BreakFrame(m, t, ev.call); }
    else if ev.CleanUp? { CleanUpFrame(m, t, ev.call, ev.removed); }
    else if ev.Return? || ev.Report? { ReturnFrame(m, t, ev); }
    else { HashStepFrame(m, t, ev); }
  }

  // ---- Lists and the storage, in every run ----

  predicate IsListStep(ev: Event) { ev.ListRead? || ev.Install? || ev.OwnListRead? || ev.OwnListUsed? }

  predicate IsStateStep(ev: Event) {
    ev.AcceptReturns? || ev.Pause? || ev.Resume? || ev.Cancel? || ev.Discard? || ev.Unlist? || ev.Complete? || ev.Proceed?
  }

  /** `list` is one the transfer has: installed, read by `accept`, or read by a call. */
  ghost predicate HasList(t: Transfer, list: set<nat>) {
    || t.missing == Some(list)
    || (t.accept.Listing? && t.accept.snapshot == Some(list))
    || exists c :: c in t.calls && t.calls[c].Asked? && t.calls[c].list == Some(list)
  }

  /** While the payload is the file `f` that `accept` prepared, whatever a list leaves out is stored. */
  ghost predicate Covers(m: Manifest, f: nat, t: Transfer)
    requires m.Valid()
  {
    && t.sink.Valid() && f < |t.sink.files| && (!t.sink.directory ==> t.sink.payload.None?)
    && (t.sink.payload == Some(f) ==> forall list | HasList(t, list) :: m.Indices() - list <= t.sink.stored)
  }

  lemma QueueStepKeepsLists(m: Manifest, t: Transfer, ev: Event, list: set<nat>)
    requires m.Valid() && IsQueueStep(ev)
    ensures HasList(Apply(m, t, ev), list) <==> HasList(t, list)
  {
    QueueStepFrame(m, t, ev);
    hide Apply;
  }

  lemma FileStepKeepsLists(m: Manifest, t: Transfer, ev: Event, list: set<nat>)
    requires m.Valid() && IsFileStep(ev) && HasList(Apply(m, t, ev), list)
    ensures HasList(t, list)
  {
    FileStepFrame(m, t, ev);
    hide Apply;
  }

  lemma StateStepKeepsLists(m: Manifest, t: Transfer, ev: Event, list: set<nat>)
    requires m.Valid() && IsStateStep(ev) && HasList(Apply(m, t, ev), list)
    ensures HasList(t, list)
  {
  }

  lemma ListStepKeepsLists(m: Manifest, t: Transfer, ev: Event, list: set<nat>)
    requires m.Valid() && IsListStep(ev) && HasList(Apply(m, t, ev), list)
    ensures HasList(t, list) || list == Unstored(m, t)
  {
  }

  lemma FileStepKeepsSink(m: Manifest, t: Transfer, ev: Event)
    requires m.Valid() && IsFileStep(ev) && t.sink.Valid() && (!t.sink.directory ==> t.sink.payload.None?)
    ensures var s' := Apply(m, t, ev).sink; s'.Valid() && (!s'.directory ==> s'.payload.None?)
  {
  }

  lemma FileStepKeepsCovers(m: Manifest, f: nat, t: Transfer, ev: Event)
    requires m.Valid() && Covers(m, f, t) && IsFileStep(ev)
    ensures Covers(m, f, Apply(m, t, ev))
  {
    FileStepFrame(m, t, ev);
    FileStepKeepsSink(m, t, ev);
    hide Apply, HasList;
    forall list | HasList(Apply(m, t, ev), list) ensures HasList(t, list) { FileStepKeepsLists(m, t, ev, list); }
  }

  lemma QueueStepKeepsCovers(m: Manifest, f: nat, t: Transfer, ev: Event)
    requires m.Valid() && Covers(m, f, t) && IsQueueStep(ev)
    ensures Covers(m, f, Apply(m, t, ev))
  {
    QueueStepFrame(m, t, ev);
    hide Apply, HasList;
    forall list | HasList(Apply(m, t, ev), list) ensures HasList(t, list) { QueueStepKeepsLists(m, t, ev, list); }
  }

  lemma StateStepKeepsCovers(m: Manifest, f: nat, t: Transfer, ev: Event)
    requires m.Valid() && Covers(m, f, t) && IsStateStep(ev)
    ensures Covers(m, f, Apply(m, t, ev))
  {
    forall list | HasList(Apply(m, t, ev), list) ensures HasList(t, list) { StateStepKeepsLists(m, t, ev, list); }
    hide HasList;
  }

  lemma ListStepKeepsCovers(m: Manifest, f: nat, t: Transfer, ev: Event)
    requires m.Valid() && Covers(m, f, t) && IsListStep(ev)
    ensures Covers(m, f, Apply(m, t, ev))
  {
    forall list | HasList(Apply(m, t, ev), list) ensures HasList(t, list) || list == Unstored(m, t) { ListStepKeepsLists(m, t, ev, list); }
    hide HasList;
  }

  lemma PutByteKeepsCovers(m: Manifest, f: nat, t: Transfer, i: nat, at: nat)
    requires m.Valid() && Covers(m, f, t)
    ensures Covers(m, f, Apply(m, t, PutByte(i, at)))
  {
    assert forall list :: HasList(Apply(m, t, PutByte(i, at)), list) <==> HasList(t, list);
  }

  /** A write takes its index from the installed list, and leaves the others as they are. */
  lemma WroteKeepsLists(m: Manifest, t: Transfer, i: nat, ok: bool, list: set<nat>)
    requires m.Valid() && HasList(Apply(m, t, Wrote(i, ok)), list)
    ensures HasList(t, list) || (Storable(m, t, i) && ok && t.missing.Some? && list == t.missing.value - {i})
  {
    hide Splice;
  }

  lemma WroteKeepsCovers(m: Manifest, f: nat, t: Transfer, i: nat, ok: bool)
    requires m.Valid() && Covers(m, f, t)
    ensures Covers(m, f, Apply(m, t, Wrote(i, ok)))
  {
    var t' := Apply(m, t, Wrote(i, ok));
    if t'.sink.payload == Some(f) {
      forall list | HasList(t', list) ensures m.Indices() - list <= t'.sink.stored {
        WroteKeepsLists(m, t, i, ok, list);
        if !HasList(t, list) { assert HasList(t, t.missing.value); }
      }
    }
    hide HasList, Splice;
  }

  lemma StepKeepsCovers(m: Manifest, f: nat, t: Transfer, ev: Event)
    requires m.Valid() && Covers(m, f, t)
    ensures Covers(m, f, Apply(m, t, ev))
  {
    hide Covers, Apply;
    if IsQueueStep(ev) { QueueStepKeepsCovers(m, f, t, ev); }
    else if ev.PutByte? { PutByteKeepsCovers(m, f, t, ev.index, ev.at); }
    else if ev.Wrote? { WroteKeepsCovers(m, f, t, ev.index, ev.ok); }
    else if IsFileStep(ev) { FileStepKeepsCovers(m, f, t, ev); }
    else if IsListStep(ev) { ListStepKeepsCovers(m, f, t, ev); }
    else { StateStepKeepsCovers(m, f, t, ev); }
  }

  lemma {:induction false} RunKeepsCovers(m: Manifest, f: nat, t: Transfer, evs: seq<Event>)
    requires m.Valid() && Covers(m, f, t)
    ensures Covers(m, f, Run(m, t, evs))
    decreases |evs|
  {
    hide Covers, Apply;
    if evs != [] {
      StepKeepsCovers(m, f, t, evs[0]);
      RunKeepsCovers(m, f, Apply(m, t, evs[0]), evs[1..]);
    }
  }

  // ---- Runs that never revive a cancelled transfer ----

  /** A chunk being written is not stored, and a stored chunk that a list still names has been received. */
  ghost predicate Books(m: Manifest, t: Transfer)
    requires m.Valid()
  {
    && (t.cancelling <==> t.phase.Cancelled?)
    && (forall i | i in t.processing :: i < m.layout.Count() && i !in t.received)
    && (forall i | i in t.processing && t.processing[i].Writing? && t.sink.directory :: i !in t.sink.stored)
    && (t.listed && !t.cancelling && t.sink.directory ==> forall list | HasList(t, list) :: list * t.sink.stored <= t.received)
  }

  lemma QueueStepKeepsBooks(m: Manifest, t: Transfer, ev: Event)
    requires m.Valid() && Books(m, t) && IsQueueStep(ev)
    ensures Books(m, Apply(m, t, ev))
  {
    var t' := Apply(m, t, ev);
    QueueStepFrame(m, t, ev);
    forall list | HasList(t', list) ensures HasList(t, list) { QueueStepKeepsLists(m, t, ev, list); }
    if t.missing.Some? { assert HasList(t, t.missing.value); }
    hide HasList;
    assert t.received <= t'.received;
  }

  lemma PutByteKeepsBooks(m: Manifest, t: Transfer, i: nat, at: nat)
    requires m.Valid() && Books(m, t)
    ensures Books(m, Apply(m, t, PutByte(i, at)))
  {
    assert forall list :: HasList(Apply(m, t, PutByte(i, at)), list) <==> HasList(t, list);
    hide HasList;
  }

  lemma WroteKeepsBooks(m: Manifest, t: Transfer, i: nat, ok: bool)
    requires m.Valid() && Books(m, t)
    ensures Books(m, Apply(m, t, Wrote(i, ok)))
  {
    var t' := Apply(m, t, Wrote(i, ok));
    if t'.listed && !t'.cancelling && t'.sink.directory {
      forall list | HasList(t', list) ensures list * t'.sink.stored <= t'.received {
        WroteKeepsLists(m, t, i, ok, list);
        if !HasList(t, list) { assert HasList(t, t.missing.value); }
      }
    }
    hide HasList, Splice;
  }

  lemma FileStepKeepsBooks(m: Manifest, t: Transfer, ev: Event)
    requires m.Valid() && Books(m, t) && IsFileStep(ev)
    ensures Books(m, Apply(m, t, ev))
  {
    var t' := Apply(m, t, ev);
    FileStepFrame(m, t, ev);
    forall list | HasList(t', list) ensures HasList(t, list) { FileStepKeepsLists(m, t, ev, list); }
    FileStepKeepsCancelled(m, t, ev);
    hide HasList, Apply;
  }

  lemma FileStepKeepsCancelled(m: Manifest, t: Transfer, ev: Event)
    requires m.Valid() && IsFileStep(ev)
    ensures Apply(m, t, ev).phase.Cancelled? <==> t.phase.Cancelled?
  {
  }

  lemma ListStepKeepsBooks(m: Manifest, t: Transfer, ev: Event)
    requires m.Valid() && Books(m, t) && IsListStep(ev) && !Revives(t, ev)
    ensures Books(m, Apply(m, t, ev))
  {
    forall list | HasList(Apply(m, t, ev), list) ensures HasList(t, list) || list == Unstored(m, t) { ListStepKeepsLists(m, t, ev, list); }
    hide HasList;
  }

  lemma StateStepKeepsBooks(m: Manifest, t: Transfer, ev: Event)
    requires m.Valid() && Books(m, t) && IsStateStep(ev) && !Revives(t, ev)
    ensures Books(m, Apply(m, t, ev))
  {
    forall list | HasList(Apply(m, t, ev), list) ensures HasList(t, list) { StateStepKeepsLists(m, t, ev, list); }
    hide HasList;
  }

  lemma StepKeepsBooks(m: Manifest, t: Transfer, ev: Event)
    requires m.Valid() && Books(m, t) && !Revives(t, ev)
    ensures Books(m, Apply(m, t, ev))
  {
    hide Books, Apply, Revives;
    if IsQueueStep(ev) { QueueStepKeepsBooks(m, t, ev); }
    else if ev.PutByte? { PutByteKeepsBooks(m, t, ev.index, ev.at); }
    else if ev.Wrote? { WroteKeepsBooks(m, t, ev.index, ev.ok); }
    else if IsFileStep(ev) { FileStepKeepsBooks(m, t, ev); }
    else if IsListStep(ev) { ListStepKeepsBooks(m, t, ev); }
    else { StateStepKeepsBooks(m, t, ev); }
  }

  // ---- Progress ----

  function SizeOf(g: Layout, s: set<nat>, n: nat): nat {
    if n == 0 then 0 else SizeOf(g, s, n - 1) + (if n - 1 in s then g.Length(n - 1) else 0)
  }

  lemma {:induction false} SizeOfAdd(g: Layout, s: set<nat>, i: nat, n: nat)
    requires i !in s
    ensures SizeOf(g, s + {i}, n) == SizeOf(g, s, n) + (if i < n then g.Length(i) else 0)
  {
    if n > 0 { SizeOfAdd(g, s, i, n - 1); }
  }

  lemma {:induction false} NothingCounted(g: Layout, s: set<nat>, n: nat)
    requires s == {}
    ensures SizeOf(g, s, n) == 0
  {
    if n > 0 { NothingCounted(g, s, n - 1); }
  }

  /** The file `f` is the payload of a transfer that is alive. */
  predicate Holds(t: Transfer, f: nat) { t.listed && !t.cancelling && t.sink.payload == Some(f) }

  /** Progress is the size of what was stored into `f` after `first`. */
  ghost predicate Tallied(m: Manifest, first: set<nat>, f: nat, t: Transfer)
    requires m.Valid()
  {
    && f < |t.sink.files|
    && (Holds(t, f) ==> first <= t.sink.stored && t.bytes == SizeOf(m.layout, t.sink.stored - first, m.layout.Count()))
    && (forall c | c in t.calls && Published(t.calls[c]) :: t.sink.payload != Some(f))
  }

  lemma WroteKeepsTally(m: Manifest, first: set<nat>, f: nat, t: Transfer, i: nat, ok: bool)
    requires m.Valid() && Books(m, t) && Tallied(m, first, f, t)
    ensures Tallied(m, first, f, Apply(m, t, Wrote(i, ok)))
  {
    hide SizeOf, Splice, HasList;
    if ok && Storable(m, t, i) && Holds(t, f) {
      SizeOfAdd(m.layout, t.sink.stored - first, i, m.layout.Count());
      assert t.sink.stored + {i} - first == t.sink.stored - first + {i};
    }
  }

  lemma FileStepCounts(m: Manifest, t: Transfer, ev: Event)
    requires m.Valid() && IsFileStep(ev)
    ensures Apply(m, t, ev).bytes == t.bytes || (ev.Return? && ev.call in t.calls && Published(t.calls[ev.call]) && Apply(m, t, ev).bytes == m.layout.size)
  {
  }

  lemma FileStepKeepsTally(m: Manifest, first: set<nat>, f: nat, t: Transfer, ev: Event)
    requires m.Valid() && Tallied(m, first, f, t) && IsFileStep(ev)
    ensures Tallied(m, first, f, Apply(m, t, ev))
  {
    var t' := Apply(m, t, ev);
    FileStepFrame(m, t, ev);
    FileStepCounts(m, t, ev);
    hide SizeOf, Apply;
  }

  lemma OtherStepKeepsTally(m: Manifest, first: set<nat>, f: nat, t: Transfer, ev: Event)
    requires m.Valid() && Tallied(m, first, f, t) && !IsFileStep(ev) && !ev.Wrote?
    ensures Tallied(m, first, f, Apply(m, t, ev))
  {
    hide SizeOf;
  }

  lemma {:induction false} RunKeepsBooks(m: Manifest, first: set<nat>, f: nat, t: Transfer, evs: seq<Event>)
    requires m.Valid() && Books(m, t) && Tallied(m, first, f, t) && NeverRevives(m, t, evs)
    ensures Books(m, Run(m, t, evs)) && Tallied(m, first, f, Run(m, t, evs))
    decreases |evs|
  {
    hide Books, Tallied, Apply;
    if evs != [] {
      StepKeepsBooks(m, t, evs[0]);
      if evs[0].Wrote? { WroteKeepsTally(m, first, f, t, evs[0].index, evs[0].ok); }
      else if IsFileStep(evs[0]) { FileStepKeepsTally(m, first, f, t, evs[0]); }
      else { OtherStepKeepsTally(m, first, f, t, evs[0]); }
      RunKeepsBooks(m, first, f, Apply(m, t, evs[0]), evs[1..]);
    }
  }

  lemma AcceptedHasBooks(m: Manifest, t: Transfer)
    requires m.Valid() && JustAccepted(m, t)
    ensures Books(m, t) && Tallied(m, t.sink.stored, t.sink.payload.value, t) && Covers(m, t.sink.payload.value, t)
  {
    NothingCounted(m.layout, t.sink.stored - t.sink.stored, m.layout.Count());
  }

  lemma StepKeepsCancelling(m: Manifest, t: Transfer, ev: Event)
    requires m.Valid() && t.cancelling
    ensures Apply(m, t, ev).cancelling
  {
    if IsFileStep(ev) {
      FileStepFrame(m, t, ev);
      hide Apply;
    }
  }

  lemma {:induction false} CancelledStays(m: Manifest, t: Transfer, evs: seq<Event>)
    requires m.Valid() && t.cancelling
    ensures Run(m, t, evs).cancelling
    decreases |evs|
  {
    hide Apply;
    if evs != [] {
      StepKeepsCancelling(m, t, evs[0]);
      CancelledStays(m, Apply(m, t, evs[0]), evs[1..]);
    }
  }

  lemma {:induction false} AliveIsNotRevived(m: Manifest, t: Transfer, evs: seq<Event>)
    requires m.Valid() && !Run(m, t, evs).cancelling
    ensures NeverRevives(m, t, evs)
    decreases |evs|
  {
    hide Apply;
    if evs != [] {
      if t.cancelling { CancelledStays(m, t, evs); }
      AliveIsNotRevived(m, Apply(m, t, evs[0]), evs[1..]);
    }
  }

  lemma StepKeepsFull(m: Manifest, t: Transfer, ev: Event)
    requires m.Valid() && (t.phase.Completed? ==> t.bytes == m.layout.size)
    ensures var t' := Apply(m, t, ev); t'.phase.Completed? ==> t'.bytes == m.layout.size
  {
    if IsQueueStep(ev) {
      QueueStepFrame(m, t, ev);
      hide Apply;
    }
  }

  lemma {:induction false} CompletedIsFull(m: Manifest, t: Transfer, evs: seq<Event>)
    requires m.Valid() && (t.phase.Completed? ==> t.bytes == m.layout.size)
    ensures var t' := Run(m, t, evs); t'.phase.Completed? ==> t'.bytes == m.layout.size
    decreases |evs|
  {
    hide Apply;
    if evs != [] {
      StepKeepsFull(m, t, evs[0]);
      CompletedIsFull(m, Apply(m, t, evs[0]), evs[1..]);
    }
  }

  /**
    Each stored chunk is counted exactly once, in every run: while a transfer that was not cancelled writes to the payload that
    `accept` prepared, progress is the total size of the chunks stored since.  A completed transfer has counted the whole file.
  */
  lemma {:induction false} BytesAreConserved(m: Manifest, t0: Transfer, evs: seq<Event>)
    requires m.Valid() && JustAccepted(m, t0)
    ensures var t := Run(m, t0, evs);
      && (t.listed && !t.cancelling && t.sink.payload == t0.sink.payload ==>
            t0.sink.stored <= t.sink.stored && t.bytes == SizeOf(m.layout, t.sink.stored - t0.sink.stored, m.layout.Count()))
      && (t.phase.Completed? ==> t.bytes == m.layout.size)
  {
    CompletedIsFull(m, t0, evs);
    if !Run(m, t0, evs).cancelling {
      AliveIsNotRevived(m, t0, evs);
      AcceptedHasBooks(m, t0);
      RunKeepsBooks(m, t0.sink.stored, t0.sink.payload.value, t0, evs);
    }
  }

  // ---- Runs without a premature complete ----

  ghost predicate NoneBusy(t: Transfer) { forall c | c in t.calls :: !Busy(t.calls[c]) }

  /** Calls go by the installed list, and a chunk being written is not stored or is on it. */
  ghost predicate Paced(m: Manifest, t: Transfer)
    requires m.Valid()
  {
    && (t.missing.None? <==> t.accept.Listing?)
    && (forall c | c in t.calls :: !t.calls[c].Asked? && (Busy(t.calls[c]) ==> t.missing == Some({})))
    && (forall i | i in t.processing :: i < m.layout.Count())
    && (forall i | i in t.processing && t.processing[i].Writing? && t.sink.directory ::
          i !in t.sink.stored || (t.missing.Some? && i in t.missing.value))
  }

  lemma QueueStepKeepsPaced(m: Manifest, t: Transfer, ev: Event)
    requires m.Valid() && Paced(m, t) && IsQueueStep(ev)
    ensures Paced(m, Apply(m, t, ev))
  {
    QueueStepFrame(m, t, ev);
  }

  lemma FileStepKeepsPaced(m: Manifest, t: Transfer, ev: Event)
    requires m.Valid() && Paced(m, t) && IsFileStep(ev)
    ensures Paced(m, Apply(m, t, ev))
  {
    FileStepFrame(m, t, ev);
    hide Apply;
  }

  lemma WriteStepKeepsPaced(m: Manifest, t: Transfer, ev: Event)
    requires m.Valid() && Paced(m, t) && (ev.PutByte? || ev.Wrote?)
    ensures Paced(m, Apply(m, t, ev))
  {
    hide Splice;
    assert ev.Wrote? && t.missing == Some({}) ==> t.missing.value - {ev.index} == {};
  }

  lemma ListStepKeepsPaced(m: Manifest, t: Transfer, ev: Event)
    requires m.Valid() && Paced(m, t) && IsListStep(ev)
    ensures Paced(m, Apply(m, t, ev))
  {
  }

  lemma StateStepKeepsPaced(m: Manifest, t: Transfer, ev: Event)
    requires m.Valid() && Paced(m, t) && IsStateStep(ev) && !Premature(t, ev)
    ensures Paced(m, Apply(m, t, ev))
  {
  }

  lemma StepKeepsPaced(m: Manifest, t: Transfer, ev: Event)
    requires m.Valid() && Paced(m, t) && !Premature(t, ev)
    ensures Paced(m, Apply(m, t, ev))
  {
    hide Paced, Apply, Premature;
    if IsQueueStep(ev) { QueueStepKeepsPaced(m, t, ev); }
    else if ev.PutByte? || ev.Wrote? { WriteStepKeepsPaced(m, t, ev); }
    else if IsFileStep(ev) { FileStepKeepsPaced(m, t, ev); }
    else if IsListStep(ev) { ListStepKeepsPaced(m, t, ev); }
    else { StateStepKeepsPaced(m, t, ev); }
  }

  /**
    The installed list is followed: a chunk is written only if it is on the list, and one that asks is on it or will be told that
    it is stored.  Before, nothing has touched the payload `f`.
  */
  ghost predicate Follows(m: Manifest, f: nat, t: Transfer)
    requires m.Valid()
  {
    && Paced(m, t)
    && (t.missing.None? && t.sink.directory ==> t.sink.payload == Some(f))
    && (t.missing.Some? && t.sink.directory ==> forall i | i in t.processing ::
          && (t.processing[i].Writing? ==> i in t.missing.value)
          && (t.processing[i].Asking? ==> i in t.missing.value || (i in t.sink.stored && t.sink.payload.Some? && NoneBusy(t))))
  }

  lemma QueueStepFollows(m: Manifest, f: nat, t: Transfer, ev: Event)
    requires m.Valid() && Follows(m, f, t) && IsQueueStep(ev)
    ensures Follows(m, f, Apply(m, t, ev))
  {
    QueueStepFrame(m, t, ev);
    QueueStepKeepsPaced(m, t, ev);
    hide Paced;
  }

  lemma FileStepBusy(m: Manifest, t: Transfer, ev: Event)
    requires m.Valid() && IsFileStep(ev) && NoneBusy(t)
    ensures Apply(m, t, ev) == t
  {
  }

  lemma FileStepFollows(m: Manifest, f: nat, t: Transfer, ev: Event)
    requires m.Valid() && Follows(m, f, t) && IsFileStep(ev)
    ensures Follows(m, f, Apply(m, t, ev))
  {
    if NoneBusy(t) {
      FileStepBusy(m, t, ev);
    } else {
      FileStepFrame(m, t, ev);
      FileStepKeepsPaced(m, t, ev);
    }
    hide Apply;
  }

  lemma WriteStepFollows(m: Manifest, f: nat, t: Transfer, ev: Event)
    requires m.Valid() && Follows(m, f, t) && (ev.PutByte? || ev.Wrote?)
    ensures Follows(m, f, Apply(m, t, ev))
  {
    WriteStepKeepsPaced(m, t, ev);
    hide Paced, Splice;
  }

  lemma InstallFollows(m: Manifest, f: nat, t: Transfer)
    requires m.Valid() && Follows(m, f, t) && (t.missing.None? ==> Covers(m, f, t))
    ensures Follows(m, f, Apply(m, t, Install))
  {
    ListStepKeepsPaced(m, t, Install);
    if t.accept.Listing? && t.accept.snapshot.Some? {
      assert HasList(t, t.accept.snapshot.value);
      forall i | i in t.processing ensures i in m.Indices() { assert m.Has(i); }
    }
  }

  lemma ListStepFollows(m: Manifest, f: nat, t: Transfer, ev: Event)
    requires m.Valid() && Follows(m, f, t) && IsListStep(ev) && !ev.Install?
    ensures Follows(m, f, Apply(m, t, ev))
  {
    ListStepKeepsPaced(m, t, ev);
    assert ev.ListRead? || Apply(m, t, ev) == t;
  }

  lemma StateStepFollows(m: Manifest, f: nat, t: Transfer, ev: Event)
    requires m.Valid() && Follows(m, f, t) && IsStateStep(ev) && !Premature(t, ev) && !Hasty(t, ev)
    ensures Follows(m, f, Apply(m, t, ev))
  {
    StateStepKeepsPaced(m, t, ev);
    assert Apply(m, t, ev).missing == t.missing && Apply(m, t, ev).processing == t.processing;
  }

  lemma StepFollows(m: Manifest, f: nat, t: Transfer, ev: Event)
    requires m.Valid() && Follows(m, f, t) && (t.missing.None? ==> Covers(m, f, t)) && !Premature(t, ev) && !Hasty(t, ev)
    ensures Follows(m, f, Apply(m, t, ev))
  {
    hide Follows, Covers, Apply, Premature, Hasty;
    if IsQueueStep(ev) { QueueStepFollows(m, f, t, ev); }
    else if ev.PutByte? || ev.Wrote? { WriteStepFollows(m, f, t, ev); }
    else if IsFileStep(ev) { FileStepFollows(m, f, t, ev); }
    else if ev.Install? { InstallFollows(m, f, t); }
    else if IsListStep(ev) { ListStepFollows(m, f, t, ev); }
    else { StateStepFollows(m, f, t, ev); }
  }

  /** What has left the list that was `start` when `base` bytes were counted; or everything has, and the whole file was counted. */
  ghost predicate Counted(m: Manifest, start: set<nat>, base: nat, t: Transfer)
    requires m.Valid()
  {
    && t.missing.Some? && t.missing.value <= start
    && (|| t.bytes == base + SizeOf(m.layout, start - t.missing.value, m.layout.Count())
        || (t.missing.value == {} && t.bytes == m.layout.size))
  }

  lemma WroteCounts(m: Manifest, f: nat, start: set<nat>, base: nat, t: Transfer, i: nat, ok: bool)
    requires m.Valid() && Follows(m, f, t) && Counted(m, start, base, t)
    ensures Counted(m, start, base, Apply(m, t, Wrote(i, ok)))
  {
    hide SizeOf, Splice, Paced;
    if ok && Storable(m, t, i) {
      assert i in t.missing.value;
      SizeOfAdd(m.layout, start - t.missing.value, i, m.layout.Count());
      assert start - (t.missing.value - {i}) == start - t.missing.value + {i};
    }
  }

  lemma OtherStepCounts(m: Manifest, start: set<nat>, base: nat, t: Transfer, ev: Event)
    requires m.Valid() && Paced(m, t) && Counted(m, start, base, t) && !ev.Wrote?
    ensures Counted(m, start, base, Apply(m, t, ev))
  {
    hide SizeOf;
    if IsQueueStep(ev) {
      QueueStepFrame(m, t, ev);
      hide Apply;
    } else if IsFileStep(ev) {
      FileStepFrame(m, t, ev);
      FileStepCounts(m, t, ev);
      hide Apply;
    } else {
      assert Apply(m, t, ev).missing == t.missing && Apply(m, t, ev).bytes == t.bytes;
    }
  }

  lemma {:induction false} RunCounts(m: Manifest, f: nat, start: set<nat>, base: nat, t: Transfer, evs: seq<Event>)
    requires m.Valid() && Follows(m, f, t) && Counted(m, start, base, t) && NeverPremature(m, t, evs) && NeverHasty(m, t, evs)
    ensures Counted(m, start, base, Run(m, t, evs)) && Follows(m, f, Run(m, t, evs))
    decreases |evs|
  {
    hide Apply, SizeOf;
    if evs != [] {
      var ev := evs[0];
      if ev.Wrote? { WroteCounts(m, f, start, base, t, ev.index, ev.ok); } else { OtherStepCounts(m, start, base, t, ev); }
      StepFollows(m, f, t, ev);
      hide Follows, Counted;
      RunCounts(m, f, start, base, Apply(m, t, ev), evs[1..]);
    }
  }

  lemma {:induction false} RunFollows(m: Manifest, f: nat, t: Transfer, evs: seq<Event>)
    requires m.Valid() && Follows(m, f, t) && Covers(m, f, t) && NeverPremature(m, t, evs) && NeverHasty(m, t, evs)
    ensures Follows(m, f, Run(m, t, evs))
    decreases |evs|
  {
    hide Follows, Covers, Apply;
    if evs != [] {
      StepFollows(m, f, t, evs[0]);
      StepKeepsCovers(m, f, t, evs[0]);
      RunFollows(m, f, Apply(m, t, evs[0]), evs[1..]);
    }
  }

  lemma CountingBegins(m: Manifest, t: Transfer)
    requires m.Valid() && t.missing.Some?
    ensures Counted(m, t.missing.value, t.bytes, t)
  {
    NothingCounted(m.layout, t.missing.value - t.missing.value, m.layout.Count());
  }

  /**
    Once `accept` has installed its list, with chunks in hand or not and whatever pauses, resumes and cancels follow, progress
    grows by the size of exactly the chunks that leave the list, until the list is empty and the whole file is counted.
  */
  lemma {:induction false} BytesFollowTheList(m: Manifest, t0: Transfer, before: seq<Event>, after: seq<Event>)
    requires m.Valid() && JustAccepted(m, t0) && Run(m, t0, before).missing.Some?
    requires NeverPremature(m, t0, before) && NeverHasty(m, t0, before)
    requires NeverHasty(m, Run(m, t0, before), after)
    ensures var t1, t2 := Run(m, t0, before), Run(m, Run(m, t0, before), after);
      && t2.missing.Some? && t2.missing.value <= t1.missing.value
      && (|| t2.bytes == t1.bytes + SizeOf(m.layout, t1.missing.value - t2.missing.value, m.layout.Count())
          || (t2.missing.value == {} && t2.bytes == m.layout.size))
  {
    var f, t1 := t0.sink.payload.value, Run(m, t0, before);
    AcceptedHasBooks(m, t0);
    RunFollows(m, f, t0, before);
    CountingBegins(m, t1);
    ListedIsNeverPremature(m, f, t1, after);
    RunCounts(m, f, t1.missing.value, t1.bytes, t1, after);
    hide SizeOf, Run;
  }

  lemma {:induction false} ListedIsNeverPremature(m: Manifest, f: nat, t: Transfer, evs: seq<Event>)
    requires m.Valid() && Follows(m, f, t) && t.missing.Some? && NeverHasty(m, t, evs)
    ensures NeverPremature(m, t, evs)
    decreases |evs|
  {
    if evs != [] {
      StepFollows(m, f, t, evs[0]);
      StepKeepsMissing(m, t, evs[0]);
      hide Apply, Follows;
      ListedIsNeverPremature(m, f, Apply(m, t, evs[0]), evs[1..]);
    }
  }

  lemma StepKeepsMissing(m: Manifest, t: Transfer, ev: Event)
    requires m.Valid() && t.missing.Some? && !t.accept.Listing?
    ensures var t' := Apply(m, t, ev); t'.missing.Some? && !t'.accept.Listing? && (!ev.Wrote? ==> t'.missing == t.missing)
  {
    if IsQueueStep(ev) {
      QueueStepFrame(m, t, ev);
      hide Apply;
    } else if IsFileStep(ev) {
      FileStepFrame(m, t, ev);
      hide Apply;
    }
  }

  // ---- From any state with an installed list ----

  /** The list is installed and the chunks in hand go by it. */
  ghost predicate Listed(t: Transfer) {
    && t.missing.Some?
    && forall i | i in t.processing :: !t.processing[i].Asking? && (t.processing[i].Writing? && t.sink.directory ==> i in t.missing.value)
  }

  lemma StepKeepsListed(m: Manifest, t: Transfer, ev: Event)
    requires m.Valid() && Listed(t) && !t.accept.Listing?
    ensures Listed(Apply(m, t, ev)) && !Apply(m, t, ev).accept.Listing?
  {
    hide Splice;
    StepKeepsMissing(m, t, ev);
    if IsQueueStep(ev) {
      QueueStepFrame(m, t, ev);
    } else if IsFileStep(ev) {
      FileStepFrame(m, t, ev);
      hide Apply;
    }
  }

  lemma {:induction false} ListedIsNeverHasty(m: Manifest, t: Transfer, evs: seq<Event>)
    requires m.Valid() && Listed(t) && !t.accept.Listing?
    ensures NeverHasty(m, t, evs)
    decreases |evs|
  {
    if evs != [] {
      StepKeepsListed(m, t, evs[0]);
      hide Apply, Listed;
      ListedIsNeverHasty(m, Apply(m, t, evs[0]), evs[1..]);
    }
  }

  /** The same from any state in which chunks and calls go by an installed list, in every run whatsoever; and no write is in flight when a finalize starts. */
  lemma {:induction false} ListIsFollowed(m: Manifest, t: Transfer, evs: seq<Event>)
    requires m.Valid() && Listed(t) && Paced(m, t)
    ensures var t' := Run(m, t, evs);
      && t'.missing.Some? && t'.missing.value <= t.missing.value
      && (|| t'.bytes == t.bytes + SizeOf(m.layout, t.missing.value - t'.missing.value, m.layout.Count())
          || (t'.missing.value == {} && t'.bytes == m.layout.size))
      && (forall ev, i | StartsFinalize(t', ev) && t'.sink.directory && i in t'.processing :: !t'.processing[i].Writing?)
  {
    assert Follows(m, 0, t);
    CountingBegins(m, t);
    ListedIsNeverHasty(m, t, evs);
    ListedIsNeverPremature(m, 0, t, evs);
    RunCounts(m, 0, t.missing.value, t.bytes, t, evs);
    hide SizeOf, Run;
  }

  // ---- When a finalize starts ----

  lemma {:induction false} RunKeepsPaced(m: Manifest, t: Transfer, evs: seq<Event>)
    requires m.Valid() && Paced(m, t) && NeverPremature(m, t, evs)
    ensures Paced(m, Run(m, t, evs))
    decreases |evs|
  {
    hide Paced, Apply;
    if evs != [] {
      StepKeepsPaced(m, t, evs[0]);
      RunKeepsPaced(m, Apply(m, t, evs[0]), evs[1..]);
    }
  }

  /** Everything is stored and nothing is being written. */
  ghost predicate AtRest(m: Manifest, t: Transfer)
    requires m.Valid()
  {
    m.Indices() <= t.sink.stored && forall i | i in t.processing :: !t.processing[i].Writing?
  }

  /**
    In every run, `sink.finalize` over the payload that `accept` prepared starts only when every index is stored; and no write
    is in flight then, unless a call asked before the list was there and a cancelled transfer was revived.
  */
  lemma {:induction false} FinalizeIsSafe(m: Manifest, t0: Transfer, evs: seq<Event>, ev: Event)
    requires m.Valid() && JustAccepted(m, t0)
    ensures var t := Run(m, t0, evs);
      StartsFinalize(t, ev) && t.sink.payload == t0.sink.payload ==>
        m.Indices() <= t.sink.stored && (NeverPremature(m, t0, evs) || NeverRevives(m, t0, evs) ==> AtRest(m, t))
  {
    var f, t := t0.sink.payload.value, Run(m, t0, evs);
    AcceptedHasBooks(m, t0);
    RunKeepsCovers(m, f, t0, evs);
    if StartsFinalize(t, ev) && t.sink.payload == t0.sink.payload {
      assert HasList(t, {});
      assert m.Indices() - {} == m.Indices();
      if NeverPremature(m, t0, evs) {
        RunKeepsPaced(m, t0, evs);
        PacedIsAtRest(m, t, ev);
      }
      if NeverRevives(m, t0, evs) {
        RunKeepsBooks(m, t0.sink.stored, f, t0, evs);
        BooksAreAtRest(m, t);
      }
    }
  }

  lemma PacedIsAtRest(m: Manifest, t: Transfer, ev: Event)
    requires m.Valid() && Paced(m, t) && StartsFinalize(t, ev) && m.Indices() <= t.sink.stored && t.sink.directory
    ensures AtRest(m, t)
  {
    forall i | i in t.processing ensures !t.processing[i].Writing? { assert m.Has(i) && i in m.Indices(); }
  }

  lemma BooksAreAtRest(m: Manifest, t: Transfer)
    requires m.Valid() && Books(m, t) && m.Indices() <= t.sink.stored && t.sink.directory
    ensures AtRest(m, t)
  {
    forall i | i in t.processing ensures !t.processing[i].Writing? { assert m.Has(i) && i in m.Indices(); }
  }

  // ---- Whose hash completes a transfer ----

  lemma CompletesExactlyWhen(m: Manifest, t: Transfer, ev: Event)
    requires m.Valid() && !t.phase.Completed?
    ensures Apply(m, t, ev).phase.Completed?
       <==> ev.Return? && ev.call in t.calls && t.calls[ev.call] == Finished(m.contentHash, true) && t.listed && t.phase.Verifying?
  {
    if IsQueueStep(ev) {
      QueueStepFrame(m, t, ev);
      hide Apply;
    }
  }

  /** A file that passed the check under a `file.complete` with another hash fails the transfer. */
  lemma OtherHashFails(m: Manifest, t: Transfer, c: nat, announced: seq<Byte>)
    requires m.Valid() && c in t.calls && t.calls[c] == Finished(announced, true) && t.listed && t.phase.Verifying? && announced != m.contentHash
    ensures Apply(m, t, Return(c)) == t.(phase := Failed, calls := t.calls - {c})
  {
  }

  lemma StepKeepsAnnounced(m: Manifest, t: Transfer, ev: Event, c: nat)
    requires m.Valid() && c in Apply(m, t, ev).calls
    ensures (c in t.calls && Apply(m, t, ev).calls[c].announced == t.calls[c].announced) || ev == Complete(c, Apply(m, t, ev).calls[c].announced)
  {
    if IsQueueStep(ev) {
      QueueStepFrame(m, t, ev);
      hide Apply;
    } else if IsFileStep(ev) {
      FileStepFrame(m, t, ev);
      hide Apply;
    }
  }

  lemma {:induction false} CompletionIsAnnounced(m: Manifest, t: Transfer, evs: seq<Event>)
    requires m.Valid() && !t.phase.Completed? && Run(m, t, evs).phase.Completed?
    ensures exists c :: (c in t.calls && t.calls[c].announced == m.contentHash) || Complete(c, m.contentHash) in evs
    decreases |evs|
  {
    var t1 := Apply(m, t, evs[0]);
    CompletesExactlyWhen(m, t, evs[0]);
    if !t1.phase.Completed? {
      CompletionIsAnnounced(m, t1, evs[1..]);
      var c :| (c in t1.calls && t1.calls[c].announced == m.contentHash) || Complete(c, m.contentHash) in evs[1..];
      if c in t1.calls { StepKeepsAnnounced(m, t, evs[0], c); }
      hide Apply, Run;
    }
  }

  /** Every completed transfer was announced as complete with the hash of its manifest. */
  lemma {:induction false} CompletedWasAnnounced(m: Manifest, t0: Transfer, evs: seq<Event>)
    requires m.Valid() && JustAccepted(m, t0) && Run(m, t0, evs).phase.Completed?
    ensures exists c :: Complete(c, m.contentHash) in evs
  {
    CompletionIsAnnounced(m, t0, evs);
  }

  // ---- Which chunks are written ----

  /** The chunk came with these bytes. */
  ghost predicate Came(evs: seq<Event>, i: nat, body: seq<Byte>) { Chunk(i, body) in evs }

  /** Then its hash was that of the manifest. */
  ghost predicate Matched(evs: seq<Event>, i: nat, body: seq<Byte>) {
    exists k :: 0 <= k < |evs| && evs[k] == Begin(i, true) && Came(evs[..k], i, body)
  }

  /** And then its bytes had that hash. */
  ghost predicate Verified(evs: seq<Event>, i: nat, body: seq<Byte>) {
    exists k :: 0 <= k < |evs| && evs[k] == Hashed(i, true) && Matched(evs[..k], i, body)
  }

  lemma HistoryGrows(evs: seq<Event>, ev: Event, i: nat, body: seq<Byte>)
    ensures Came(evs, i, body) ==> Came(evs + [ev], i, body)
    ensures Matched(evs, i, body) ==> Matched(evs + [ev], i, body)
    ensures Verified(evs, i, body) ==> Verified(evs + [ev], i, body)
    ensures ev == Chunk(i, body) ==> Came(evs + [ev], i, body)
    ensures ev == Begin(i, true) && Came(evs, i, body) ==> Matched(evs + [ev], i, body)
    ensures ev == Hashed(i, true) && Matched(evs, i, body) ==> Verified(evs + [ev], i, body)
  {
    var all := evs + [ev];
    assert all[|evs|] == ev && all[..|evs|] == evs;
    forall k | 0 <= k < |evs| ensures all[k] == evs[k] && all[..k] == evs[..k] { }
    if Matched(evs, i, body) {
      var k :| 0 <= k < |evs| && evs[k] == Begin(i, true) && Came(evs[..k], i, body);
      assert all[k] == Begin(i, true) && Came(all[..k], i, body);
    }
    if Verified(evs, i, body) {
      var k :| 0 <= k < |evs| && evs[k] == Hashed(i, true) && Matched(evs[..k], i, body);
      assert all[k] == Hashed(i, true) && Matched(all[..k], i, body);
    }
  }

  /** How far a chunk in hand has come. */
  ghost predicate Earned(evs: seq<Event>, i: nat, op: Op) {
    match op
    case Queued(body) => Came(evs, i, body)
    case Hashing(body) => Matched(evs, i, body)
    case Asking(body) => Verified(evs, i, body)
    case Writing(body) => Verified(evs, i, body)
  }

  ghost predicate AllEarned(t0: Transfer, evs: seq<Event>, t: Transfer) {
    && (forall i | i in t.processing :: Earned(evs, i, t.processing[i]))
    && (forall i | i in t.received || i in t.sink.stored - t0.sink.stored :: exists body :: Verified(evs, i, body))
  }

  lemma OtherStepFrame(m: Manifest, t: Transfer, ev: Event)
    requires m.Valid() && !IsChunkStep(ev)
    ensures var t' := Apply(m, t, ev); t'.processing == t.processing && t'.received == t.received && t'.sink.stored <= t.sink.stored
  {
    if IsFileStep(ev) {
      FileStepFrame(m, t, ev);
      hide Apply;
    }
  }

  /** What a step leaves in hand, it left there or moved on by the right event. */
  lemma StepEarns(m: Manifest, t: Transfer, ev: Event, i: nat)
    requires m.Valid() && i in Apply(m, t, ev).processing
    ensures var op' := Apply(m, t, ev).processing[i];
      || (i in t.processing && t.processing[i] == op')
      || (ev == Chunk(i, op'.body) && op'.Queued?)
      || (ev == Begin(i, true) && i in t.processing && t.processing[i] == Queued(op'.body) && op'.Hashing?)
      || (ev == Hashed(i, true) && i in t.processing && t.processing[i] == Hashing(op'.body) && (op'.Asking? || op'.Writing?))
      || (ev == Answered(i) && i in t.processing && t.processing[i] == Asking(op'.body) && op'.Writing?)
  {
    if !IsChunkStep(ev) {
      OtherStepFrame(m, t, ev);
      hide Apply;
    }
  }

  /** What is received or stored anew was verified before. */
  lemma StepStores(m: Manifest, t: Transfer, ev: Event, i: nat)
    requires m.Valid() && (i in Apply(m, t, ev).received - t.received || i in Apply(m, t, ev).sink.stored - t.sink.stored)
    ensures i in t.processing
    ensures (t.processing[i].Hashing? && ev == Hashed(i, true)) || t.processing[i].Asking? || t.processing[i].Writing?
  {
    hide Splice;
    if !IsChunkStep(ev) {
      OtherStepFrame(m, t, ev);
      hide Apply;
    }
  }

  lemma StepKeepsEarned(m: Manifest, t0: Transfer, evs: seq<Event>, t: Transfer, ev: Event)
    requires m.Valid() && AllEarned(t0, evs, t)
    ensures AllEarned(t0, evs + [ev], Apply(m, t, ev))
  {
    hide Apply, Came, Matched, Verified;
    var t' := Apply(m, t, ev);
    forall i | i in t'.processing ensures Earned(evs + [ev], i, t'.processing[i]) {
      StepEarns(m, t, ev, i);
      HistoryGrows(evs, ev, i, t'.processing[i].body);
    }
    forall i | i in t'.received || i in t'.sink.stored - t0.sink.stored ensures exists body :: Verified(evs + [ev], i, body) {
      if i in t.received || i in t.sink.stored - t0.sink.stored {
        var body :| Verified(evs, i, body);
        HistoryGrows(evs, ev, i, body);
      } else {
        StepStores(m, t, ev, i);
        HistoryGrows(evs, ev, i, t.processing[i].body);
      }
    }
  }

  lemma {:induction false} RunThenStep(m: Manifest, t: Transfer, evs: seq<Event>, ev: Event)
    requires m.Valid()
    ensures Run(m, t, evs + [ev]) == Apply(m, Run(m, t, evs), ev)
    decreases |evs|
  {
    hide Apply;
    if evs == [] {
      assert ([] + [ev])[1..] == [] && ([] + [ev])[0] == ev;
    } else {
      assert (evs + [ev])[1..] == evs[1..] + [ev];
      RunThenStep(m, Apply(m, t, evs[0]), evs[1..], ev);
    }
  }

  /**
    Nothing is written, stored or recorded that was not verified: in every run, a chunk that is being written, was stored since
    the transfer was accepted or counts as received came with bytes whose hash was found to be the manifest's and then to be theirs.
  */
  lemma {:induction false} OnlyVerifiedChunks(m: Manifest, t0: Transfer, evs: seq<Event>)
    requires m.Valid() && JustAccepted(m, t0)
    ensures var t := Run(m, t0, evs);
      && (forall i | i in t.processing && t.processing[i].Writing? :: Verified(evs, i, t.processing[i].body))
      && (forall i | i in t.received || i in t.sink.stored - t0.sink.stored :: exists body :: Verified(evs, i, body))
  {
    EarnedAlong(m, t0, evs);
    hide Run, Verified;
  }

  lemma {:induction false} EarnedAlong(m: Manifest, t0: Transfer, evs: seq<Event>)
    requires m.Valid() && JustAccepted(m, t0)
    ensures AllEarned(t0, evs, Run(m, t0, evs))
    decreases |evs|
  {
    if evs != [] {
      var front, last := evs[..|evs| - 1], evs[|evs| - 1];
      assert front + [last] == evs;
      EarnedAlong(m, t0, front);
      hide AllEarned, Run, Apply;
      StepKeepsEarned(m, t0, front, Run(m, t0, front), last);
      RunThenStep(m, t0, front, last);
    }
  }

  /** Chunks move on only while the transfer is receiving; what is already being written may end at any time. */
  lemma OnlyWhileReceiving(m: Manifest, t: Transfer, ev: Event, i: nat)
    requires m.Valid() && !IsReceiving(t) && i in Apply(m, t, ev).processing
    ensures i in t.processing && Apply(m, t, ev).processing[i] == t.processing[i]
  {
    if !IsChunkStep(ev) {
      OtherStepFrame(m, t, ev);
      hide Apply;
    }
  }
}

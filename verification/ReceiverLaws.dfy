/**
  The incoming transfer field by field: for every step of every handler, what may set the state, the list, the progress,
  the storage and the stages of a chunk and of a `complete`, and what leaves them as they are.
*/
module ReceiverLaws {
  import opened Common
  import opened ChunkGeometry
  import opened Receiver
  import opened TransferBooks

  // ---- The outcomes of a step ----

  /** A chunk is written and counted. */
  predicate Counts(m: Manifest, t: Transfer, ev: Event)
    requires m.Valid()
  {
    ev.Wrote? && ev.ok && Storable(m, t, ev.index) && t.listed && !t.phase.Cancelled?
  }

  /** The file is published and is the one that was announced. */
  predicate Completes(m: Manifest, t: Transfer, ev: Event) {
    && ev.Return? && ev.call in t.calls && t.calls[ev.call].Finished? && t.calls[ev.call].ok
    && t.calls[ev.call].announced == m.contentHash && t.listed && t.phase.Verifying?
  }

  /** A finalize that failed or found another file than the announced one, or a report that could not be sent. */
  predicate FailsNow(m: Manifest, t: Transfer, ev: Event) {
    && (ev.Return? || ev.Report?) && ev.call in t.calls && t.listed && !t.phase.Cancelled?
    && (ev.Return? ==> t.calls[ev.call].Finished? && (t.calls[ev.call].ok ==> t.phase.Verifying? && t.calls[ev.call].announced != m.contentHash))
    && (ev.Report? ==> t.calls[ev.call].Reporting? && !ev.ok)
  }

  /** The steps that throw the transfer's directory away. */
  predicate Discards(m: Manifest, t: Transfer, ev: Event)
    requires m.Valid()
  {
    || (ev.Discard? && t.cancelling)
    || (ev.Wrote? && ev.ok && Storable(m, t, ev.index) && !t.listed)
    || (ev.CleanUp? && ev.removed && ev.call in t.calls && t.calls[ev.call].Renamed?)
    || (ev.Return? && ev.call in t.calls && t.calls[ev.call].Finished? && t.calls[ev.call].ok && !(t.listed && t.phase.Verifying?))
  }

  /** `finalize` opens a directory that has lost its payload. */
  predicate Recreates(t: Transfer, ev: Event) {
    ev.Open? && ev.call in t.calls && t.calls[ev.call].Starting? && t.sink.directory && t.sink.payload.None?
  }

  predicate Publishes(t: Transfer, ev: Event) {
    ev.Rename? && ev.call in t.calls && t.calls[ev.call].Removed? && t.sink.payload.Some?
  }

  // ---- Which fields a step may touch ----

  predicate IsQuiet(ev: Event) {
    ev.Open? || ev.HashBuffer? || ev.CheckHash? || ev.RemoveOld? || ev.Rename? || ev.CleanUp? || ev.Break?
  }

  predicate IsAsking(ev: Event) {
    ev.ListRead? || ev.Install? || ev.OwnListRead? || ev.OwnListUsed? || ev.Complete? || ev.Proceed?
  }

  lemma QuietFrame(m: Manifest, t: Transfer, ev: Event)
    requires m.Valid() && IsQuiet(ev)
    ensures var t' := Apply(m, t, ev); t' == t.(calls := t'.calls, sink := t'.sink)
  {
    hide Prepared;
  }

  lemma EndFrame(m: Manifest, t: Transfer, ev: Event)
    requires m.Valid() && (ev.Return? || ev.Report?)
    ensures var t' := Apply(m, t, ev); t' == t.(phase := t'.phase, listed := t'.listed, bytes := t'.bytes, calls := t'.calls, sink := t'.sink)
  {
  }

  lemma AskingFrame(m: Manifest, t: Transfer, ev: Event)
    requires m.Valid() && IsAsking(ev)
    ensures var t' := Apply(m, t, ev); t' == t.(accept := t'.accept, missing := t'.missing, calls := t'.calls, phase := t'.phase)
  {
  }

  ghost predicate Frame(t: Transfer, ev: Event, t': Transfer) {
    && (IsQueueStep(ev) ==> t' == t.(processing := t'.processing, received := t'.received))
    && (ev.PutByte? ==> t' == t.(sink := t.sink.(files := t'.sink.files)))
    && (ev.Wrote? ==>
          t' == t.(processing := t'.processing, received := t'.received, missing := t'.missing, bytes := t'.bytes, phase := t'.phase, sink := t'.sink))
    && (IsQuiet(ev) ==> t' == t.(calls := t'.calls, sink := t'.sink))
    && (ev.Return? || ev.Report? ==>
          t' == t.(phase := t'.phase, listed := t'.listed, bytes := t'.bytes, calls := t'.calls, sink := t'.sink))
    && (IsAsking(ev) ==> t' == t.(accept := t'.accept, missing := t'.missing, calls := t'.calls, phase := t'.phase))
  }

  /** What each kind of step leaves alone. */
  lemma StepFrame(m: Manifest, t: Transfer, ev: Event)
    requires m.Valid()
    ensures Frame(t, ev, Apply(m, t, ev))
  {
    hide Splice, OpenPayload, HashMore, CompareHash, RemoveContent, RenamePayload, CleanDirectory, BreakOff, FinalizeReturns, ReportSent,
         ProceedComplete, UseOwnList, ReadOwnList, ReadList, InstallList, HandleChunk, BeginChunk, ChunkHashed, ChunkAnswered;
    if IsQueueStep(ev) { QueueStepFrame(m, t, ev); }
    else if IsQuiet(ev) { QuietFrame(m, t, ev); }
    else if IsAsking(ev) { AskingFrame(m, t, ev); }
    else if ev.Return? || ev.Report? { EndFrame(m, t, ev); }
  }

  // ---- State, list and progress ----

  lemma PhaseFollows(m: Manifest, t: Transfer, ev: Event)
    requires m.Valid()
    ensures Apply(m, t, ev).phase ==
      if Completes(m, t, ev) then Completed
      else if FailsNow(m, t, ev) then Failed
      else if StartsFinalize(t, ev) then Verifying
      else if ev.Cancel? && t.listed then Cancelled
      else if ev.Pause? && t.listed then Paused
      else if (ev.Resume? && t.listed) || (ev.AcceptReturns? && ev.ok && t.accept.Sending?) then Transferring
      else if Counts(m, t, ev) && !t.phase.Paused? then Transferring
      else t.phase
  {
    StepFrame(m, t, ev);
    hide HandleChunk, BeginChunk, ChunkHashed, ChunkAnswered, PutOneByte, ReadList, InstallList, ReadOwnList, OpenPayload,
         HashMore, CompareHash, RemoveContent, RenamePayload, CleanDirectory, BreakOff, Splice;
  }

  lemma ListedExactlyWhen(m: Manifest, t: Transfer, ev: Event)
    requires m.Valid()
    ensures Apply(m, t, ev).listed <==>
      t.listed && !(ev.Unlist? && t.cancelling) && !(ev.Report? && ev.ok && ev.call in t.calls && t.calls[ev.call].Reporting?)
    ensures Apply(m, t, ev).cancelling <==> t.cancelling || (ev.Cancel? && t.listed)
  {
    StepFrame(m, t, ev);
    hide HandleChunk, BeginChunk, ChunkHashed, ChunkAnswered, PutOneByte, ChunkWritten, ReadList, InstallList, FinishAccept,
         ProceedComplete, ReadOwnList, UseOwnList, OpenPayload, HashMore, CompareHash, RemoveContent, RenamePayload,
         CleanDirectory, BreakOff, Splice;
  }

  lemma MissingFollows(m: Manifest, t: Transfer, ev: Event)
    requires m.Valid()
    ensures Apply(m, t, ev).missing ==
      if ev.Install? && t.accept.Listing? && t.accept.snapshot.Some? then t.accept.snapshot
      else if ev.OwnListUsed? && t.missing.None? && ev.call in t.calls && t.calls[ev.call].Asked? && t.calls[ev.call].list.Some? then t.calls[ev.call].list
      else if Counts(m, t, ev) && t.missing.Some? then Some(t.missing.value - {ev.index})
      else t.missing
  {
    StepFrame(m, t, ev);
    hide HandleChunk, BeginChunk, ChunkHashed, ChunkAnswered, PutOneByte, ReadList, FinishAccept, ProceedComplete, ReadOwnList,
         OpenPayload, HashMore, CompareHash, RemoveContent, RenamePayload, CleanDirectory, BreakOff, FinalizeReturns,
         ReportSent, Splice;
  }

  lemma ReceivedExactlyWhen(m: Manifest, t: Transfer, ev: Event, i: nat)
    requires m.Valid()
    ensures i in Apply(m, t, ev).received <==>
      || i in t.received
      || (Counts(m, t, ev) && ev.index == i)
      || (ev == Hashed(i, true) && i in t.processing && t.processing[i].Hashing? && IsReceiving(t) && t.missing.Some? && i !in t.missing.value)
      || (ev == Answered(i) && i in t.processing && t.processing[i].Asking? && IsReceiving(t) && t.sink.directory && i in t.sink.stored)
  {
    StepFrame(m, t, ev);
    hide PutOneByte, ReadList, InstallList, FinishAccept, ProceedComplete, ReadOwnList, UseOwnList, OpenPayload, HashMore,
         CompareHash, RemoveContent, RenamePayload, CleanDirectory, BreakOff, FinalizeReturns, ReportSent, Splice;
  }

  lemma BytesFollow(m: Manifest, t: Transfer, ev: Event)
    requires m.Valid()
    ensures Apply(m, t, ev).bytes ==
      if Completes(m, t, ev) then m.layout.size else if Counts(m, t, ev) then t.bytes + m.layout.Length(ev.index) else t.bytes
  {
    StepFrame(m, t, ev);
    hide HandleChunk, BeginChunk, ChunkHashed, ChunkAnswered, PutOneByte, ReadList, InstallList, FinishAccept, ProceedComplete,
         ReadOwnList, UseOwnList, OpenPayload, HashMore, CompareHash, RemoveContent, RenamePayload, CleanDirectory, BreakOff,
         Splice;
  }

  lemma AcceptFollows(m: Manifest, t: Transfer, ev: Event)
    requires m.Valid()
    ensures Apply(m, t, ev).accept ==
      if ev.ListRead? && t.accept == Listing(None) && t.sink.directory then Listing(Some(m.Indices() - t.sink.stored))
      else if ev.Install? && t.accept.Listing? && t.accept.snapshot.Some? then Sending
      else if ev.AcceptReturns? && t.accept.Sending? then Returned
      else t.accept
  {
    StepFrame(m, t, ev);
    hide HandleChunk, BeginChunk, ChunkHashed, ChunkAnswered, PutOneByte, ChunkWritten, ProceedComplete, ReadOwnList,
         UseOwnList, OpenPayload, HashMore, CompareHash, RemoveContent, RenamePayload, CleanDirectory, BreakOff,
         FinalizeReturns, ReportSent, Splice;
  }

  // ---- The storage ----

  lemma DirectoryExactlyWhen(m: Manifest, t: Transfer, ev: Event)
    requires m.Valid()
    ensures Apply(m, t, ev).sink.directory <==> t.sink.directory && !Discards(m, t, ev)
  {
    StepFrame(m, t, ev);
    hide HandleChunk, BeginChunk, ChunkHashed, ChunkAnswered, PutOneByte, ReadList, InstallList, FinishAccept, ProceedComplete,
         ReadOwnList, UseOwnList, Splice;
  }

  lemma StoredExactlyWhen(m: Manifest, t: Transfer, ev: Event, i: nat)
    requires m.Valid()
    ensures i in Apply(m, t, ev).sink.stored <==>
      !Discards(m, t, ev) && !Recreates(t, ev) && (i in t.sink.stored || (ev == Wrote(i, true) && Storable(m, t, i)))
  {
    StepFrame(m, t, ev);
    hide HandleChunk, BeginChunk, ChunkHashed, ChunkAnswered, PutOneByte, ReadList, InstallList, FinishAccept, ProceedComplete,
         ReadOwnList, UseOwnList, Splice;
  }

  /** A published file goes away only for the next one, and what is published is the payload of that moment. */
  lemma ContentFollows(m: Manifest, t: Transfer, ev: Event)
    requires m.Valid()
    ensures Apply(m, t, ev).sink.content ==
      if Publishes(t, ev) then t.sink.payload
      else if ev.RemoveOld? && ev.call in t.calls && t.calls[ev.call].Checked? then None
      else t.sink.content
  {
    StepFrame(m, t, ev);
    hide HandleChunk, BeginChunk, ChunkHashed, ChunkAnswered, PutOneByte, ReadList, InstallList, FinishAccept, ProceedComplete,
         ReadOwnList, UseOwnList, Splice;
  }

  lemma PayloadFollows(m: Manifest, t: Transfer, ev: Event)
    requires m.Valid()
    ensures Apply(m, t, ev).sink.payload ==
      if Publishes(t, ev) || Discards(m, t, ev) then None else if Recreates(t, ev) then Some(|t.sink.files|) else t.sink.payload
  {
    StepFrame(m, t, ev);
    hide HandleChunk, BeginChunk, ChunkHashed, ChunkAnswered, PutOneByte, ReadList, InstallList, FinishAccept, ProceedComplete,
         ReadOwnList, UseOwnList, Splice;
  }

  /** Only chunks write into files; a recreated payload is a new file of zeros. */
  lemma FilesFollow(m: Manifest, t: Transfer, ev: Event)
    requires m.Valid() && !ev.PutByte? && !ev.Wrote?
    ensures Apply(m, t, ev).sink.files == if Recreates(t, ev) then t.sink.files + [seq(m.layout.size, _ => 0)] else t.sink.files
  {
    StepFrame(m, t, ev);
    hide HandleChunk, BeginChunk, ChunkHashed, ChunkAnswered, ReadList, InstallList, FinishAccept, ProceedComplete, ReadOwnList,
         UseOwnList, Splice;
  }

  /** A step writes into no file but the payload, and there only into the chunk that it has in hand. */
  lemma BytesOfFiles(m: Manifest, t: Transfer, ev: Event, f: nat, k: nat)
    requires m.Valid() && f < |t.sink.files| && k < |t.sink.files[f]|
    ensures var s' := Apply(m, t, ev).sink; f < |s'.files| && |s'.files[f]| == |t.sink.files[f]|
    ensures Apply(m, t, ev).sink.files[f][k] ==
      if (ev.PutByte? || (ev.Wrote? && ev.ok)) && Storable(m, t, ev.index) && t.sink.payload == Some(f)
         && m.layout.Offset(ev.index) <= k < m.layout.Offset(ev.index) + m.layout.Length(ev.index)
         && (ev.PutByte? ==> ev.at == k - m.layout.Offset(ev.index))
      then t.processing[ev.index].body[k - m.layout.Offset(ev.index)]
      else t.sink.files[f][k]
  {
    hide OpenPayload, HashMore, CompareHash, RemoveContent, RenamePayload, CleanDirectory, BreakOff, FinalizeReturns, ReportSent;
    hide HandleChunk, BeginChunk, ChunkHashed, ChunkAnswered, ProceedComplete, ReadOwnList, UseOwnList;
    if ev.PutByte? || ev.Wrote? {
      if Storable(m, t, ev.index) { ChunkInside(m.layout, ev.index); }
    } else {
      FilesFollow(m, t, ev);
    }
  }

  // ---- Chunks in hand ----

  /** Whether a chunk goes on or is dropped, at each stage. */
  lemma ChunkMoves(m: Manifest, t: Transfer, ev: Event, i: nat)
    requires m.Valid()
    ensures var ops := Apply(m, t, ev).processing;
      if i !in t.processing then
        (i in ops <==> ev.Chunk? && ev.index == i && IsReceiving(t) && i < m.layout.Count() && i !in t.received)
        && (i in ops ==> ops[i] == Queued(ev.body))
      else
        var op := t.processing[i];
        if ev.Begin? && ev.index == i && op.Queued? then
          (i in ops <==> IsReceiving(t) && ev.hashMatches) && (i in ops ==> ops[i] == Hashing(op.body))
        else if ev.Hashed? && ev.index == i && op.Hashing? then
          (i in ops <==> IsReceiving(t) && ev.valid && (t.missing.None? || i in t.missing.value))
          && (i in ops ==> ops[i] == if t.missing.None? then Asking(op.body) else Writing(op.body))
        else if ev.Answered? && ev.index == i && op.Asking? then
          (i in ops <==> IsReceiving(t) && t.sink.directory && i !in t.sink.stored) && (i in ops ==> ops[i] == Writing(op.body))
        else if ev.Wrote? && ev.index == i && op.Writing? then i !in ops
        else i in ops && ops[i] == op
  {
    StepFrame(m, t, ev);
    hide PutOneByte, ReadList, InstallList, FinishAccept, ProceedComplete, ReadOwnList, UseOwnList, OpenPayload, HashMore,
         CompareHash, RemoveContent, RenamePayload, CleanDirectory, BreakOff, FinalizeReturns, ReportSent, Splice;
  }

  // ---- Completes in hand ----

  predicate Mine(ev: Event, c: nat) {
    match ev
    case Complete(d, _) => c == d
    case Proceed(d) => c == d
    case OwnListRead(d) => c == d
    case OwnListUsed(d) => c == d
    case Open(d) => c == d
    case HashBuffer(d, _) => c == d
    case CheckHash(d) => c == d
    case RemoveOld(d) => c == d
    case Rename(d) => c == d
    case CleanUp(d, _) => c == d
    case Break(d) => c == d
    case Return(d) => c == d
    case Report(d, _) => c == d
    case _ => false
  }

  lemma ReadingCallsStay(m: Manifest, t: Transfer, ev: Event, c: nat)
    requires m.Valid() && !Mine(ev, c) && (ev.Open? || ev.HashBuffer? || ev.CheckHash?)
    ensures var calls := Apply(m, t, ev).calls; (c in calls <==> c in t.calls) && (c in calls ==> calls[c] == t.calls[c])
  {
    hide Prepared, Min;
  }

  lemma PublishingCallsStay(m: Manifest, t: Transfer, ev: Event, c: nat)
    requires m.Valid() && !Mine(ev, c) && (ev.RemoveOld? || ev.Rename? || ev.CleanUp? || ev.Break?)
    ensures var calls := Apply(m, t, ev).calls; (c in calls <==> c in t.calls) && (c in calls ==> calls[c] == t.calls[c])
  {
  }

  /** Another's step does not touch a call. */
  lemma OtherCallsStay(m: Manifest, t: Transfer, ev: Event, c: nat)
    requires m.Valid() && !Mine(ev, c)
    ensures var calls := Apply(m, t, ev).calls; (c in calls <==> c in t.calls) && (c in calls ==> calls[c] == t.calls[c])
  {
    StepFrame(m, t, ev);
    hide HandleChunk, BeginChunk, ChunkHashed, ChunkAnswered, PutOneByte, ChunkWritten, ReadList, InstallList, FinishAccept, Splice,
         OpenPayload, HashMore, CompareHash, RemoveContent, RenamePayload, CleanDirectory, BreakOff;
    if ev.Open? || ev.HashBuffer? || ev.CheckHash? { ReadingCallsStay(m, t, ev, c); }
    else if IsQuiet(ev) { PublishingCallsStay(m, t, ev, c); }
  }

  /** A call keeps the hash that was announced, and only `file.complete` starts one. */
  lemma AnnouncedStays(m: Manifest, t: Transfer, ev: Event, c: nat)
    requires m.Valid() && c in Apply(m, t, ev).calls
    ensures var call := Apply(m, t, ev).calls[c];
      if c in t.calls then call.announced == t.calls[c].announced
      else ev == Complete(c, call.announced) && call.Waiting? && IsReceiving(t)
  {
    StepFrame(m, t, ev);
    if IsFileStep(ev) { FileStepFrame(m, t, ev); }
    hide HandleChunk, BeginChunk, ChunkHashed, ChunkAnswered, PutOneByte, ChunkWritten, ReadList, InstallList, FinishAccept, Splice,
         OpenPayload, HashMore, CompareHash, RemoveContent, RenamePayload, CleanDirectory, BreakOff, FinalizeReturns, ReportSent;
  }

  /** `complete` up to the finalize: when it goes on, when it asks for a list of its own, and when it gives up. */
  lemma CompleteMoves(m: Manifest, t: Transfer, ev: Event, c: nat)
    requires m.Valid() && c in t.calls && Mine(ev, c) && (t.calls[c].Waiting? || t.calls[c].Asked?)
    ensures var calls := Apply(m, t, ev).calls; var call := t.calls[c];
      && (StartsFinalize(t, ev) <==> c in calls && calls[c].Starting?)
      && (ev.Proceed? && call.Waiting? && t.missing.None? && IsReceiving(t) <==> c in calls && calls[c] == Asked(call.announced, None) != call)
      && (ev.OwnListRead? && call == Asked(call.announced, None) && t.sink.directory
          <==> c in calls && calls[c] == Asked(call.announced, Some(m.Indices() - t.sink.stored)) && call == Asked(call.announced, None))
      && (c !in calls <==>
           || (ev.Proceed? && call.Waiting? && (!IsReceiving(t) || (t.missing.Some? && t.missing.value != {})))
           || (ev.OwnListRead? && call == Asked(call.announced, None) && !t.sink.directory)
           || (ev.OwnListUsed? && call.Asked? && call.list.Some? && call.list.value != {}))
  {
  }

  /** `finalize_transfer` opens the payload exactly when every chunk is stored; without a directory or a chunk it fails. */
  lemma OpensExactlyWhen(m: Manifest, t: Transfer, c: nat)
    requires m.Valid() && c in t.calls && t.calls[c].Starting?
    ensures var t' := Apply(m, t, Open(c));
      && c in t'.calls && (t'.calls[c].Reading? || t'.calls[c] == Finished(t.calls[c].announced, false))
      && (t'.calls[c].Reading? <==> t.sink.directory && (if t.sink.payload.Some? then m.Indices() <= t.sink.stored else m.layout.Count() == 0))
      && (t'.calls[c].Reading? ==> t'.calls[c].hashed == [] && t'.sink.payload == Some(t'.calls[c].file))
  {
    if m.layout.Count() > 0 { assert m.Has(0) && 0 in m.Indices(); }
  }

  /** Hashing takes the bytes of the open file in order, whole, and as they are when they are read. */
  lemma HashingReads(m: Manifest, t: Transfer, c: nat, length: nat)
    requires m.Valid() && c in t.calls && t.calls[c].Reading? && t.calls[c].file < |t.sink.files|
    ensures var t' := Apply(m, t, HashBuffer(c, length)); var before := t.calls[c].hashed; var bytes := t.sink.files[t.calls[c].file];
      && c in t'.calls && t'.calls[c].Reading? && t'.calls[c].file == t.calls[c].file
      && |t'.calls[c].hashed| == (if |before| >= |bytes| then |before| else Min(|bytes|, |before| + length))
      && (forall k :: 0 <= k < |t'.calls[c].hashed| ==> t'.calls[c].hashed[k] == if k < |before| then before[k] else bytes[k])
  {
  }

  /** The check passes exactly for a whole file of the size and hash in the manifest. */
  lemma CheckPassesExactlyWhen(m: Manifest, t: Transfer, c: nat)
    requires m.Valid() && c in t.calls && t.calls[c].Reading? && t.calls[c].file < |t.sink.files|
    ensures var t' := Apply(m, t, CheckHash(c)); var call := t.calls[c];
      && c in t'.calls
      && (t'.calls[c] == Checked(call.announced, call.file) <==>
          |call.hashed| >= |t.sink.files[call.file]| && |call.hashed| == m.layout.size && m.hash(call.hashed) == m.contentHash)
      && (t'.calls[c].Checked? || t'.calls[c] == call || t'.calls[c] == Finished(call.announced, false))
      && (t'.calls[c] == call <==> |call.hashed| < |t.sink.files[call.file]|)
  {
  }

  /** After the check: remove the old file, rename, clean up.  The first failure ends it, and only the end succeeds. */
  lemma PublishingMoves(m: Manifest, t: Transfer, ev: Event, c: nat)
    requires m.Valid() && c in t.calls && Mine(ev, c) && (t.calls[c].Checked? || t.calls[c].Removed? || t.calls[c].Renamed?)
    ensures var calls := Apply(m, t, ev).calls; var call := t.calls[c];
      && c in calls
      && calls[c] == if call.Checked? && ev.RemoveOld? then Removed(call.announced, call.file)
                     else if call.Removed? && Publishes(t, ev) then Renamed(call.announced)
                     else if call.Renamed? && ev.CleanUp? then Finished(call.announced, true)
                     else if ev.Break? || (ev.Rename? && call.Removed?) then Finished(call.announced, false)
                     else call
  {
  }

  /** The end of `complete`: a completed transfer is reported, everything else ends the call. */
  lemma EndingMoves(m: Manifest, t: Transfer, ev: Event, c: nat)
    requires m.Valid() && c in t.calls && Mine(ev, c) && (t.calls[c].Finished? || t.calls[c].Reporting?)
    ensures var calls := Apply(m, t, ev).calls; var call := t.calls[c];
      && (Completes(m, t, ev) <==> c in calls && calls[c] == Reporting(call.announced) && call.Finished?)
      && (c !in calls <==> (ev.Return? && call.Finished? && !Completes(m, t, ev)) || (ev.Report? && call.Reporting?))
      && (c in calls && !Completes(m, t, ev) ==> calls[c] == call)
  {
  }

  /** A file operation that fails ends the finalize and nothing else. */
  lemma BreakingFails(m: Manifest, t: Transfer, c: nat)
    requires m.Valid() && c in t.calls
    ensures var t' := Apply(m, t, Break(c)); var call := t.calls[c];
      && t' == t.(calls := t'.calls) && c in t'.calls
      && t'.calls[c] == (if call.Starting? || call.Reading? || call.Checked? || call.Removed? || call.Renamed? then Finished(call.announced, false) else call)
  {
  }
}

/**
  One incoming attachment transfer, from the moment `accept` sets its state to "accepted", together with the
  storage it writes to.  Each event is the code between two awaits of `AttachmentTransferReceiver`, one byte of a
  chunk write, or one file operation of `finalize_transfer`; events interleave freely, and any number of
  `file.complete` messages may be in hand at once.
*/
module Receiver {
  import opened Common
  import opened ChunkGeometry

  datatype Phase = Accepted | Transferring | Paused | Verifying | Completed | Failed | Cancelled

  /** How far `accept` is: waiting for the list of missing chunks, for its own message to be sent, or done. */
  datatype Accept = Listing(snapshot: Option<set<nat>>) | Sending | Returned

  /** A chunk on its way through `processChunk`. */
  datatype Op =
    | Queued(body: seq<Byte>)
    | Hashing(body: seq<Byte>)
    | Asking(body: seq<Byte>)
    | Writing(body: seq<Byte>)

  /**
    A `complete` in hand.  It waits for writes, asks for its own list if there is none yet, runs `finalize` in the
    storage step by step, and reports.  `file` is the file it has opened.
  */
  datatype Call =
    | Waiting(announced: seq<Byte>)
    | Asked(announced: seq<Byte>, list: Option<set<nat>>)
    | Starting(announced: seq<Byte>)
    | Reading(announced: seq<Byte>, file: nat, hashed: seq<Byte>)
    | Checked(announced: seq<Byte>, file: nat)
    | Removed(announced: seq<Byte>, file: nat)
    | Renamed(announced: seq<Byte>)
    | Finished(announced: seq<Byte>, ok: bool)
    | Reporting(announced: seq<Byte>)

  /**
    The storage.  Files keep their bytes while somebody has them open, so they are numbered; `payload` and
    `content` are the names of the transfer's payload and of the published file.  `stored` are the marked chunks.
  */
  datatype Sink = Sink(directory: bool, files: seq<seq<Byte>>, payload: Option<nat>, stored: set<nat>, content: Option<nat>) {
    predicate Valid() { (payload.Some? ==> payload.value < |files|) && (content.Some? ==> content.value < |files|) }

    function Discarded(): Sink { this.(directory := false, payload := None, stored := {}) }
  }

  datatype Transfer = Transfer(
    phase: Phase,
    listed: bool,
    accept: Accept,
    received: set<nat>,
    missing: Option<set<nat>>,
    bytes: nat,
    processing: map<nat, Op>,
    calls: map<nat, Call>,
    cancelling: bool,
    sink: Sink)

  /** The manifest: chunk layout and content hash; `hash` stands for SHA-256. */
  datatype Manifest = Manifest(layout: Layout, contentHash: seq<Byte>, hash: seq<Byte> -> seq<Byte>) {
    predicate Valid() { layout.Valid() }
    predicate Has(i: int) requires Valid() { 0 <= i < layout.Count() }
    function Indices(): set<nat> requires Valid() { set i | 0 <= i < layout.Count() && Has(i) }
    predicate Good(bytes: seq<Byte>) { |bytes| == layout.size && hash(bytes) == contentHash }
  }

  predicate IsReceiving(t: Transfer) { t.listed && (t.phase.Accepted? || t.phase.Transferring?) }

  datatype Event =
    | Chunk(index: nat, body: seq<Byte>)
    | Begin(index: nat, hashMatches: bool)
    | Hashed(index: nat, valid: bool)
    | Answered(index: nat)
    | PutByte(index: nat, at: nat)
    | Wrote(index: nat, ok: bool)
    | ListRead
    | Install
    | AcceptReturns(ok: bool)
    | Pause
    | Resume
    | Complete(call: nat, announced: seq<Byte>)
    | Proceed(call: nat)
    | OwnListRead(call: nat)
    | OwnListUsed(call: nat)
    | Open(call: nat)
    | HashBuffer(call: nat, length: nat)
    | CheckHash(call: nat)
    | RemoveOld(call: nat)
    | Rename(call: nat)
    | CleanUp(call: nat, removed: bool)
    | Break(call: nat)
    | Return(call: nat)
    | Report(call: nat, ok: bool)
    | Cancel
    | Discard
    | Unlist

  // ---- Chunks ----

  function DropOp(t: Transfer, i: nat): Transfer { t.(processing := t.processing - {i}) }

  function SetOp(t: Transfer, i: nat, op: Op): Transfer { t.(processing := t.processing[i := op]) }

  predicate Doing(t: Transfer, i: nat) { i in t.processing }

  /** `handleChunk` up to the semaphore. */
  function HandleChunk(m: Manifest, t: Transfer, i: nat, body: seq<Byte>): Transfer
    requires m.Valid()
  {
    if !IsReceiving(t) || i >= m.layout.Count() || i in t.received || i in t.processing then t
    else SetOp(t, i, Queued(body))
  }

  /** `processChunk` up to the hash; `hashMatches` is false when the frame hash contradicts the manifest. */
  function BeginChunk(t: Transfer, i: nat, hashMatches: bool): Transfer {
    if !(Doing(t, i) && t.processing[i].Queued?) then t
    else if !IsReceiving(t) || !hashMatches then DropOp(t, i)
    else SetOp(t, i, Hashing(t.processing[i].body))
  }

  /** From the hash to the write, or to the question `hasChunk` while there is no list. */
  function ChunkHashed(t: Transfer, i: nat, valid: bool): Transfer {
    if !(Doing(t, i) && t.processing[i].Hashing?) then t
    else if !valid || !IsReceiving(t) then DropOp(t, i)
    else if t.missing.None? then SetOp(t, i, Asking(t.processing[i].body))
    else if i !in t.missing.value then DropOp(t, i).(received := t.received + {i})
    else SetOp(t, i, Writing(t.processing[i].body))
  }

  /** The answer of `hasChunk`; without a directory it is an error. */
  function ChunkAnswered(t: Transfer, i: nat): Transfer {
    if !(Doing(t, i) && t.processing[i].Asking?) then t
    else if !t.sink.directory || !IsReceiving(t) then DropOp(t, i)
    else if i in t.sink.stored then DropOp(t, i).(received := t.received + {i})
    else SetOp(t, i, Writing(t.processing[i].body))
  }

  function Splice(p: seq<Byte>, at: nat, body: seq<Byte>): (r: seq<Byte>)
    requires at + |body| <= |p|
    ensures |r| == |p|
  {
    p[..at] + body + p[at + |body|..]
  }

  /** The storage takes a body only when it has the expected size. */
  predicate Storable(m: Manifest, t: Transfer, i: nat)
    requires m.Valid()
  {
    && Doing(t, i) && t.processing[i].Writing? && i < m.layout.Count() && |t.processing[i].body| == m.layout.Length(i)
    && t.sink.Valid() && t.sink.directory && t.sink.payload.Some? && |t.sink.files[t.sink.payload.value]| == m.layout.size
  }

  function PutOneByte(m: Manifest, t: Transfer, i: nat, at: nat): Transfer
    requires m.Valid()
  {
    if !Storable(m, t, i) || at >= m.layout.Length(i) then t
    else
      ChunkInside(m.layout, i);
      var p := t.sink.payload.value;
      var bytes := t.sink.files[p][m.layout.Offset(i) + at := t.processing[i].body[at]];
      t.(sink := t.sink.(files := t.sink.files[p := bytes]))
  }

  /** What a completed write leaves in the storage. */
  function WrittenSink(m: Manifest, t: Transfer, i: nat): Sink
    requires m.Valid() && Storable(m, t, i)
  {
    ChunkInside(m.layout, i);
    var p := t.sink.payload.value;
    var bytes := Splice(t.sink.files[p], m.layout.Offset(i), t.processing[i].body);
    t.sink.(files := t.sink.files[p := bytes], stored := t.sink.stored + {i})
  }

  /** `processChunk` after the write. */
  function ChunkWritten(m: Manifest, t: Transfer, i: nat, ok: bool): Transfer
    requires m.Valid()
  {
    if !(Doing(t, i) && t.processing[i].Writing?) then t
    else if !ok || !Storable(m, t, i) then DropOp(t, i)
    else
      var t' := DropOp(t, i).(sink := WrittenSink(m, t, i));
      if !t.listed then t'.(sink := t'.sink.Discarded())
      else if t.phase.Cancelled? then t'
      else t'.(received := t.received + {i},
               missing := if t.missing.Some? then Some(t.missing.value - {i}) else None,
               bytes := t.bytes + |t.processing[i].body|,
               phase := if t.phase.Paused? then Paused else Transferring)
  }

  // ---- Accepting ----

  function Unstored(m: Manifest, t: Transfer): set<nat>
    requires m.Valid()
  {
    m.Indices() - t.sink.stored
  }

  /** The storage answers `listMissingChunks` of `accept`. */
  function ReadList(m: Manifest, t: Transfer): Transfer
    requires m.Valid()
  {
    if t.accept == Listing(None) && t.sink.directory then t.(accept := Listing(Some(Unstored(m, t)))) else t
  }

  function InstallList(t: Transfer): Transfer {
    if t.accept.Listing? && t.accept.snapshot.Some? then t.(accept := Sending, missing := t.accept.snapshot) else t
  }

  /** The end of `accept`: it overwrites whatever state there is. */
  function FinishAccept(t: Transfer, ok: bool): Transfer {
    if !t.accept.Sending? then t
    else t.(accept := Returned, phase := if ok then Transferring else t.phase)
  }

  // ---- Completing ----

  function DropCall(t: Transfer, c: nat): Transfer { t.(calls := t.calls - {c}) }

  function SetCall(t: Transfer, c: nat, call: Call): Transfer { t.(calls := t.calls[c := call]) }

  predicate Calling(t: Transfer, c: nat) { c in t.calls }

  function StartFinalize(t: Transfer, c: nat, announced: seq<Byte>): Transfer {
    SetCall(t, c, Starting(announced)).(phase := Verifying)
  }

  /** `complete` after `waitForInFlightWrites`. */
  function ProceedComplete(t: Transfer, c: nat): Transfer {
    if !(Calling(t, c) && t.calls[c].Waiting?) then t
    else if !IsReceiving(t) then DropCall(t, c)
    else if t.missing.None? then SetCall(t, c, Asked(t.calls[c].announced, None))
    else if t.missing.value != {} then DropCall(t, c)
    else StartFinalize(t, c, t.calls[c].announced)
  }

  function ReadOwnList(m: Manifest, t: Transfer, c: nat): Transfer
    requires m.Valid()
  {
    if !(Calling(t, c) && t.calls[c].Asked? && t.calls[c].list.None?) then t
    else if !t.sink.directory then DropCall(t, c)
    else SetCall(t, c, Asked(t.calls[c].announced, Some(Unstored(m, t))))
  }

  /** `complete` after its own list has come; the state is not looked at again. */
  function UseOwnList(t: Transfer, c: nat): Transfer {
    if !(Calling(t, c) && t.calls[c].Asked? && t.calls[c].list.Some?) then t
    else
      var list := t.calls[c].list.value;
      var t' := t.(missing := if t.missing.None? then Some(list) else t.missing);
      if list != {} then DropCall(t', c) else StartFinalize(t', c, t.calls[c].announced)
  }

  /** The step at which `sink.finalize` is called. */
  predicate StartsFinalize(t: Transfer, ev: Event) {
    || (ev.Proceed? && Calling(t, ev.call) && t.calls[ev.call].Waiting? && IsReceiving(t) && t.missing == Some({}))
    || (ev.OwnListUsed? && Calling(t, ev.call) && t.calls[ev.call].Asked? && t.calls[ev.call].list == Some({}))
  }

  // ---- `finalize_transfer` ----

  function Fails(t: Transfer, c: nat): Transfer
    requires Calling(t, c)
  {
    SetCall(t, c, Finished(t.calls[c].announced, false))
  }

  /** `prepare_chunk_storage` when the payload is missing: a new empty one, and no marks. */
  function Prepared(m: Manifest, s: Sink): Sink {
    if s.payload.Some? then s else s.(files := s.files + [seq(m.layout.size, _ => 0)], payload := Some(|s.files|), stored := {})
  }

  function OpenPayload(m: Manifest, t: Transfer, c: nat): Transfer
    requires m.Valid()
  {
    if !(Calling(t, c) && t.calls[c].Starting?) then t
    else if !t.sink.directory then Fails(t, c)
    else
      var t' := t.(sink := Prepared(m, t.sink));
      if m.Indices() <= t'.sink.stored then SetCall(t', c, Reading(t.calls[c].announced, t'.sink.payload.value, [])) else Fails(t', c)
  }

  function HashMore(t: Transfer, c: nat, length: nat): Transfer {
    if !(Calling(t, c) && t.calls[c].Reading? && t.calls[c].file < |t.sink.files|) then t
    else
      var Reading(announced, file, done) := t.calls[c];
      var bytes := t.sink.files[file];
      var upTo := Min(|bytes|, |done| + length);
      if upTo <= |done| then t else SetCall(t, c, Reading(announced, file, done + bytes[|done|..upTo]))
  }

  /** The comparisons after the last buffer. */
  function CompareHash(m: Manifest, t: Transfer, c: nat): Transfer {
    if !(Calling(t, c) && t.calls[c].Reading? && t.calls[c].file < |t.sink.files|) then t
    else
      var Reading(announced, file, done) := t.calls[c];
      if |done| < |t.sink.files[file]| then t
      else if m.Good(done) then SetCall(t, c, Checked(announced, file))
      else Fails(t, c)
  }

  function RemoveContent(t: Transfer, c: nat): Transfer {
    if !(Calling(t, c) && t.calls[c].Checked?) then t
    else SetCall(t, c, Removed(t.calls[c].announced, t.calls[c].file)).(sink := t.sink.(content := None))
  }

  /** The rename goes by name: it moves whatever file the payload name stands for. */
  function RenamePayload(t: Transfer, c: nat): Transfer {
    if !(Calling(t, c) && t.calls[c].Removed?) then t
    else if t.sink.payload.None? then Fails(t, c)
    else SetCall(t, c, Renamed(t.calls[c].announced)).(sink := t.sink.(content := t.sink.payload, payload := None))
  }

  /** The manifest is written and the directory removed; a failure of the removal is ignored. */
  function CleanDirectory(t: Transfer, c: nat, removed: bool): Transfer {
    if !(Calling(t, c) && t.calls[c].Renamed?) then t
    else
      var t' := SetCall(t, c, Finished(t.calls[c].announced, true));
      if removed then t'.(sink := t.sink.Discarded()) else t'
  }

  predicate Finalizing(call: Call) {
    call.Starting? || call.Reading? || call.Checked? || call.Removed? || call.Renamed? || call.Finished?
  }

  /** Any file operation may fail. */
  function BreakOff(t: Transfer, c: nat): Transfer {
    if !(Calling(t, c) && Finalizing(t.calls[c]) && !t.calls[c].Finished?) then t else Fails(t, c)
  }

  /** `complete` after `sink.finalize`. */
  function FinalizeReturns(m: Manifest, t: Transfer, c: nat): Transfer {
    if !(Calling(t, c) && t.calls[c].Finished?) then t
    else
      var Finished(announced, ok) := t.calls[c];
      if ok && (!t.listed || !t.phase.Verifying?) then DropCall(t, c).(sink := t.sink.Discarded())
      else if ok && announced == m.contentHash then SetCall(t, c, Reporting(announced)).(phase := Completed, bytes := m.layout.size)
      else if !t.listed || t.phase.Cancelled? then DropCall(t, c)
      else DropCall(t, c).(phase := Failed)
  }

  /** `complete` after its own message was sent, or could not be sent. */
  function ReportSent(t: Transfer, c: nat, ok: bool): Transfer {
    if !(Calling(t, c) && t.calls[c].Reporting?) then t
    else if ok then DropCall(t, c).(listed := false)
    else if !t.listed || t.phase.Cancelled? then DropCall(t, c)
    else DropCall(t, c).(phase := Failed)
  }

  // ---- The machine ----

  function Apply(m: Manifest, t: Transfer, ev: Event): Transfer
    requires m.Valid()
  {
    match ev
    case Chunk(i, body) => HandleChunk(m, t, i, body)
    case Begin(i, hashMatches) => BeginChunk(t, i, hashMatches)
    case Hashed(i, valid) => ChunkHashed(t, i, valid)
    case Answered(i) => ChunkAnswered(t, i)
    case PutByte(i, at) => PutOneByte(m, t, i, at)
    case Wrote(i, ok) => ChunkWritten(m, t, i, ok)
    case ListRead => ReadList(m, t)
    case Install => InstallList(t)
    case AcceptReturns(ok) => FinishAccept(t, ok)
    case Pause => if t.listed then t.(phase := Paused) else t
    case Resume => if t.listed then t.(phase := Transferring) else t
    case Complete(c, announced) => if IsReceiving(t) && c !in t.calls then SetCall(t, c, Waiting(announced)) else t
    case Proceed(c) => ProceedComplete(t, c)
    case OwnListRead(c) => ReadOwnList(m, t, c)
    case OwnListUsed(c) => UseOwnList(t, c)
    case Open(c) => OpenPayload(m, t, c)
    case HashBuffer(c, length) => HashMore(t, c, length)
    case CheckHash(c) => CompareHash(m, t, c)
    case RemoveOld(c) => RemoveContent(t, c)
    case Rename(c) => RenamePayload(t, c)
    case CleanUp(c, removed) => CleanDirectory(t, c, removed)
    case Break(c) => BreakOff(t, c)
    case Return(c) => FinalizeReturns(m, t, c)
    case Report(c, ok) => ReportSent(t, c, ok)
    case Cancel => if t.listed then t.(phase := Cancelled, cancelling := true) else t
    case Discard => if t.cancelling then t.(sink := t.sink.Discarded()) else t
    case Unlist => if t.cancelling then t.(listed := false) else t
  }

  function Run(m: Manifest, t: Transfer, evs: seq<Event>): Transfer
    requires m.Valid()
    decreases |evs|
  {
    if evs == [] then t else Run(m, Apply(m, t, evs[0]), evs[1..])
  }

  /** `accept` has prepared the storage and set the state; nothing else has happened. */
  predicate JustAccepted(m: Manifest, t: Transfer)
    requires m.Valid()
  {
    && t.phase.Accepted? && t.listed && t.accept == Listing(None) && t.received == {} && t.missing.None? && t.bytes == 0
    && t.processing == map[] && t.calls == map[] && !t.cancelling
    && t.sink.Valid() && t.sink.directory && t.sink.payload.Some? && |t.sink.files[t.sink.payload.value]| == m.layout.size
    && t.sink.content != t.sink.payload
  }

  // ---- Which runs are covered ----

  /** `complete` and `cancel` have settled the transfer, or a failed `complete` has already moved the payload away. */
  predicate Closed(t: Transfer) {
    t.phase.Verifying? || t.phase.Completed? || t.phase.Cancelled? || (t.phase.Failed? && t.sink.payload.None?)
  }

  /** The three handlers that write the state without looking at it. */
  predicate Overwrites(t: Transfer, ev: Event) {
    ((ev.Pause? || ev.Resume?) && t.listed) || (ev.AcceptReturns? && ev.ok && t.accept.Sending?)
  }

  /** A `file.complete` that is handled before `accept` has its list. */
  predicate Premature(t: Transfer, ev: Event) {
    ev.Proceed? && Calling(t, ev.call) && t.calls[ev.call].Waiting? && IsReceiving(t) && t.missing.None?
  }

  predicate Disturbs(t: Transfer, ev: Event) { (Overwrites(t, ev) && Closed(t)) || Premature(t, ev) }

  ghost predicate Undisturbed(m: Manifest, t: Transfer, evs: seq<Event>)
    requires m.Valid()
    decreases |evs|
  {
    evs != [] ==> !Disturbs(t, evs[0]) && Undisturbed(m, Apply(m, t, evs[0]), evs[1..])
  }

  // ---- The invariant of undisturbed runs ----

  /** A call that has begun to finalize and has not come to its end. */
  predicate Busy(call: Call) { Finalizing(call) || call.Reporting? }

  /** At most one call is busy, and it agrees with the list, the state and the files. */
  ghost predicate OneBusy(t: Transfer) {
    && (forall c, d | c in t.calls && d in t.calls && Busy(t.calls[c]) && Busy(t.calls[d]) :: c == d)
    && (forall c | c in t.calls :: CallTrue(t, t.calls[c]))
  }

  predicate CallTrue(t: Transfer, call: Call) {
    && !call.Asked?
    && (Busy(call) ==> t.missing == Some({}))
    && (Finalizing(call) ==> t.phase.Verifying? || t.phase.Cancelled?)
    && (call.Reporting? ==> t.phase.Completed? || t.phase.Cancelled?)
    && (call.Starting? && t.phase.Verifying? ==> t.sink.payload.Some?)
    && (call.Renamed? || (call.Finished? && call.ok) || call.Reporting? ==> t.sink.payload.None?)
  }

  /** What the chunks in hand may be. */
  ghost predicate OpsTrue(m: Manifest, t: Transfer)
    requires m.Valid()
  {
    forall i | i in t.processing :: OpTrue(m, t, i, t.processing[i])
  }

  predicate OpTrue(m: Manifest, t: Transfer, i: nat, op: Op)
    requires m.Valid()
  {
    && i < m.layout.Count() && i !in t.received
    && (op.Writing? && Kept(t) ==> i !in t.sink.stored && (t.missing.Some? ==> i in t.missing.value))
  }

  /** The transfer is alive and its payload is where it was. */
  predicate Kept(t: Transfer) { t.listed && !t.phase.Cancelled? && !t.phase.Completed? && t.sink.payload.Some? }

  /** The list `accept` has, installed or not. */
  function Known(t: Transfer): Option<set<nat>> { if t.missing.Some? then t.missing else if t.accept.Listing? then t.accept.snapshot else None }

  /** `first` are the chunks that were stored when the run began. */
  ghost predicate StoreTrue(m: Manifest, first: set<nat>, t: Transfer)
    requires m.Valid() && t.sink.payload.Some?
  {
    && t.sink.Valid() && t.sink.directory && |t.sink.files[t.sink.payload.value]| == m.layout.size
    && first <= t.sink.stored && t.sink.stored - first <= t.received
    && (t.missing.None? ==> t.received <= t.sink.stored)
    && (Known(t).Some? ==> Known(t).value <= m.Indices() && Known(t).value !! first && m.Indices() - Known(t).value <= t.sink.stored)
  }

  ghost predicate Inv(m: Manifest, first: set<nat>, t: Transfer)
    requires m.Valid()
  {
    && OneBusy(t) && OpsTrue(m, t) && t.sink.Valid() && (!t.sink.directory ==> t.sink.payload.None?)
    && (Kept(t) ==> t.sink.payload.Some? && StoreTrue(m, first, t))
    && (t.listed && (t.phase.Accepted? || t.phase.Transferring? || t.phase.Paused?) ==> t.sink.payload.Some?)
    && (t.missing.Some? <==> !t.accept.Listing?)
    && (t.cancelling ==> t.phase.Cancelled?)
    && (t.phase.Verifying? ==> t.missing == Some({}))
    && (t.phase.Completed? ==> t.missing == Some({}) && t.sink.payload.None?)
    && (!t.listed ==> t.phase.Cancelled? || t.phase.Completed?)
  }

  lemma WrittenKeepsInv(m: Manifest, first: set<nat>, t: Transfer, i: nat, ok: bool)
    requires m.Valid() && Inv(m, first, t)
    ensures Inv(m, first, Apply(m, t, Wrote(i, ok)))
  {
    hide Splice;
    if Doing(t, i) && t.processing[i].Writing? && ok && Storable(m, t, i) && Kept(t) {
      assert OpTrue(m, t, i, t.processing[i]);
    }
  }

  lemma PutByteKeepsInv(m: Manifest, first: set<nat>, t: Transfer, i: nat, at: nat)
    requires m.Valid() && Inv(m, first, t)
    ensures Inv(m, first, Apply(m, t, PutByte(i, at)))
  {
  }

  lemma QueueStepKeepsInv(m: Manifest, first: set<nat>, t: Transfer, ev: Event)
    requires m.Valid() && Inv(m, first, t) && (ev.Chunk? || ev.Begin?)
    ensures Inv(m, first, Apply(m, t, ev))
  {
  }

  lemma HashedKeepsInv(m: Manifest, first: set<nat>, t: Transfer, i: nat, valid: bool)
    requires m.Valid() && Inv(m, first, t)
    ensures Inv(m, first, Apply(m, t, Hashed(i, valid)))
  {
  }

  lemma AnsweredKeepsInv(m: Manifest, first: set<nat>, t: Transfer, i: nat)
    requires m.Valid() && Inv(m, first, t)
    ensures Inv(m, first, Apply(m, t, Answered(i)))
  {
  }

  lemma AcceptStepKeepsInv(m: Manifest, first: set<nat>, t: Transfer, ev: Event)
    requires m.Valid() && Inv(m, first, t) && !Disturbs(t, ev)
    requires ev.ListRead? || ev.Install? || ev.AcceptReturns? || ev.Pause? || ev.Resume? || ev.Cancel? || ev.Discard? || ev.Unlist?
    ensures Inv(m, first, Apply(m, t, ev))
  {
  }

  lemma CompleteStepKeepsInv(m: Manifest, first: set<nat>, t: Transfer, ev: Event)
    requires m.Valid() && Inv(m, first, t) && !Disturbs(t, ev)
    requires ev.Complete? || ev.Proceed? || ev.OwnListRead? || ev.OwnListUsed?
    ensures Inv(m, first, Apply(m, t, ev))
  {
  }

  lemma OpenKeepsInv(m: Manifest, first: set<nat>, t: Transfer, c: nat)
    requires m.Valid() && Inv(m, first, t)
    ensures Inv(m, first, Apply(m, t, Open(c)))
  {
    hide OpsTrue;
    OpsFrame(m, t, Apply(m, t, Open(c)));
  }

  lemma HashBufferKeepsInv(m: Manifest, first: set<nat>, t: Transfer, c: nat, length: nat)
    requires m.Valid() && Inv(m, first, t)
    ensures Inv(m, first, Apply(m, t, HashBuffer(c, length)))
  {
    hide OpsTrue;
    OpsFrame(m, t, Apply(m, t, HashBuffer(c, length)));
  }

  lemma CheckHashKeepsInv(m: Manifest, first: set<nat>, t: Transfer, c: nat)
    requires m.Valid() && Inv(m, first, t)
    ensures Inv(m, first, Apply(m, t, CheckHash(c)))
  {
    hide OpsTrue;
    OpsFrame(m, t, Apply(m, t, CheckHash(c)));
  }

  lemma BreakKeepsInv(m: Manifest, first: set<nat>, t: Transfer, c: nat)
    requires m.Valid() && Inv(m, first, t)
    ensures Inv(m, first, Apply(m, t, Break(c)))
  {
    hide OpsTrue;
    OpsFrame(m, t, Apply(m, t, Break(c)));
  }

  lemma OpsFrame(m: Manifest, t: Transfer, t': Transfer)
    requires m.Valid() && OpsTrue(m, t) && t'.processing == t.processing && t'.received == t.received && t'.missing == t.missing
    requires Kept(t') ==> Kept(t) && t'.sink.stored <= t.sink.stored
    ensures OpsTrue(m, t')
  {
  }

  lemma RemoveOldKeepsInv(m: Manifest, first: set<nat>, t: Transfer, ev: Event)
    requires m.Valid() && Inv(m, first, t) && ev.RemoveOld?
    ensures Inv(m, first, Apply(m, t, ev))
  {
  }

  lemma RenameKeepsInv(m: Manifest, first: set<nat>, t: Transfer, ev: Event)
    requires m.Valid() && Inv(m, first, t) && ev.Rename?
    ensures Inv(m, first, Apply(m, t, ev))
  {
  }

  lemma CleanUpKeepsInv(m: Manifest, first: set<nat>, t: Transfer, ev: Event)
    requires m.Valid() && Inv(m, first, t) && ev.CleanUp?
    ensures Inv(m, first, Apply(m, t, ev))
  {
  }

  lemma ReturnKeepsInv(m: Manifest, first: set<nat>, t: Transfer, ev: Event)
    requires m.Valid() && Inv(m, first, t) && ev.Return?
    ensures Inv(m, first, Apply(m, t, ev))
  {
    hide OpsTrue;
    OpsFrame(m, t, Apply(m, t, ev));
  }

  lemma ReportKeepsInv(m: Manifest, first: set<nat>, t: Transfer, ev: Event)
    requires m.Valid() && Inv(m, first, t) && ev.Report?
    ensures Inv(m, first, Apply(m, t, ev))
  {
  }

  lemma StepKeepsInv(m: Manifest, first: set<nat>, t: Transfer, ev: Event)
    requires m.Valid() && Inv(m, first, t) && !Disturbs(t, ev)
    ensures Inv(m, first, Apply(m, t, ev))
  {
    hide Inv, Apply, Disturbs;
    match ev
    case Wrote(i, ok) => WrittenKeepsInv(m, first, t, i, ok);
    case PutByte(i, at) => PutByteKeepsInv(m, first, t, i, at);
    case Chunk(_, _) => QueueStepKeepsInv(m, first, t, ev);
    case Begin(_, _) => QueueStepKeepsInv(m, first, t, ev);
    case Hashed(i, valid) => HashedKeepsInv(m, first, t, i, valid);
    case Answered(i) => AnsweredKeepsInv(m, first, t, i);
    case Complete(_, _) => CompleteStepKeepsInv(m, first, t, ev);
    case Proceed(_) => CompleteStepKeepsInv(m, first, t, ev);
    case OwnListRead(_) => CompleteStepKeepsInv(m, first, t, ev);
    case OwnListUsed(_) => CompleteStepKeepsInv(m, first, t, ev);
    case Open(c) => OpenKeepsInv(m, first, t, c);
    case HashBuffer(c, length) => HashBufferKeepsInv(m, first, t, c, length);
    case CheckHash(c) => CheckHashKeepsInv(m, first, t, c);
    case Break(c) => BreakKeepsInv(m, first, t, c);
    case RemoveOld(_) => RemoveOldKeepsInv(m, first, t, ev);
    case Rename(_) => RenameKeepsInv(m, first, t, ev);
    case CleanUp(_, _) => CleanUpKeepsInv(m, first, t, ev);
    case Return(_) => ReturnKeepsInv(m, first, t, ev);
    case Report(_, _) => ReportKeepsInv(m, first, t, ev);
    case _ => AcceptStepKeepsInv(m, first, t, ev);
  }

  lemma {:induction false} RunKeepsInv(m: Manifest, first: set<nat>, t: Transfer, evs: seq<Event>)
    requires m.Valid() && Inv(m, first, t) && Undisturbed(m, t, evs)
    ensures Inv(m, first, Run(m, t, evs))
    decreases |evs|
  {
    hide Inv, Apply;
    if evs != [] {
      StepKeepsInv(m, first, t, evs[0]);
      RunKeepsInv(m, first, Apply(m, t, evs[0]), evs[1..]);
    }
  }

  lemma AcceptedHasInv(m: Manifest, t: Transfer)
    requires m.Valid() && JustAccepted(m, t)
    ensures Inv(m, t.sink.stored, t)
  {
  }

  /** While no handler overwrites a settled state, `sink.finalize` starts only when no other finalize is in flight. */
  lemma {:induction false} FinalizeIsAlone(m: Manifest, t0: Transfer, evs: seq<Event>, ev: Event)
    requires m.Valid() && JustAccepted(m, t0) && Undisturbed(m, t0, evs)
    ensures var t := Run(m, t0, evs); StartsFinalize(t, ev) ==> forall c | c in t.calls :: !Busy(t.calls[c])
  {
    AcceptedHasInv(m, t0);
    RunKeepsInv(m, t0.sink.stored, t0, evs);
    var t := Run(m, t0, evs);
    if StartsFinalize(t, ev) {
      forall c | c in t.calls ensures !Busy(t.calls[c]) { assert CallTrue(t, t.calls[c]); }
    }
  }

  // ---- The record the receiver keeps ----

  /** `IncomingTransfer` with the handlers that change it, each cut at its awaits. */
  class IncomingTransfer {
    const m: Manifest
    var phase: Phase
    var listed: bool
    var accept: Accept
    var received: set<nat>
    var missing: Option<set<nat>>
    var bytes: nat
    var processing: map<nat, Op>
    var calls: map<nat, Call>
    var cancelling: bool
    var sink: Sink

    /** As `accept` has it when the storage is prepared. */
    constructor (m: Manifest, sink: Sink)
      requires m.Valid() && sink.Valid() && sink.directory && sink.payload.Some? && sink.content != sink.payload
      requires |sink.files[sink.payload.value]| == m.layout.size
      ensures this.m == m && JustAccepted(m, View())
    {
      this.m, this.sink := m, sink;
      phase, listed, accept, received, missing, bytes := Accepted, true, Listing(None), {}, None, 0;
      processing, calls, cancelling := map[], map[], false;
    }

    function View(): Transfer
      reads this
    {
      Transfer(phase, listed, accept, received, missing, bytes, processing, calls, cancelling, sink)
    }

    method HandleFrame(i: nat, body: seq<Byte>)
      requires m.Valid()
      modifies this`processing
      ensures View() == Apply(m, old(View()), Chunk(i, body))
    {
      if !listed { return; }
      if !phase.Accepted? && !phase.Transferring? { return; }
      if i >= m.layout.Count() { return; }
      if i in received || i in processing { return; }
      processing := processing[i := Queued(body)];
    }

    method StartProcessing(i: nat, hashMatches: bool)
      requires m.Valid() && i in processing && processing[i].Queued?
      modifies this`processing
      ensures View() == Apply(m, old(View()), Begin(i, hashMatches))
    {
      if !listed || !(phase.Accepted? || phase.Transferring?) || !hashMatches {
        processing := processing - {i};
        return;
      }
      processing := processing[i := Hashing(processing[i].body)];
    }

    method AfterHash(i: nat, valid: bool)
      requires m.Valid() && i in processing && processing[i].Hashing?
      modifies this`processing, this`received
      ensures View() == Apply(m, old(View()), Hashed(i, valid))
    {
      if valid && listed && (phase.Accepted? || phase.Transferring?) {
        if missing.None? {
          processing := processing[i := Asking(processing[i].body)];
          return;
        }
        if i in missing.value {
          processing := processing[i := Writing(processing[i].body)];
          return;
        }
        received := received + {i};
      }
      processing := processing - {i};
    }

    /** `alreadyStored` is what `hasChunk` said. */
    method AfterAnswer(i: nat, alreadyStored: bool)
      requires m.Valid() && i in processing && processing[i].Asking? && sink.directory && alreadyStored == (i in sink.stored)
      modifies this`processing, this`received
      ensures View() == Apply(m, old(View()), Answered(i))
    {
      if listed && (phase.Accepted? || phase.Transferring?) {
        if !alreadyStored {
          processing := processing[i := Writing(processing[i].body)];
          return;
        }
        received := received + {i};
      }
      processing := processing - {i};
    }

    method AfterWrite(i: nat, ok: bool)
      requires m.Valid() && i in processing && processing[i].Writing?
      modifies this
      ensures View() == Apply(m, old(View()), Wrote(i, ok))
    {
      var body := processing[i].body;
      var stored := ok && Storable(m, View(), i);
      var written := if stored then WrittenSink(m, View(), i) else sink;
      processing := processing - {i};
      if !stored { return; }
      sink := written;
      if !listed {
        sink := sink.Discarded();
        return;
      }
      if phase.Cancelled? { return; }
      received := received + {i};
      if missing.Some? { missing := Some(missing.value - {i}); }
      bytes := bytes + |body|;
      if !phase.Paused? { phase := Transferring; }
    }

    /** `accept` once the list has come. */
    method InstallMissing()
      requires m.Valid() && accept.Listing? && accept.snapshot.Some?
      modifies this
      ensures View() == Apply(m, old(View()), Install)
    {
      missing := accept.snapshot;
      accept := Sending;
    }

    method AcceptReturned()
      requires m.Valid() && accept.Sending?
      modifies this
      ensures View() == Apply(m, old(View()), AcceptReturns(true))
    {
      phase := Transferring;
      accept := Returned;
    }

    method UpdateState(to: Phase)
      requires m.Valid() && (to.Paused? || to.Transferring?)
      modifies this`phase
      ensures View() == Apply(m, old(View()), if to.Paused? then Pause else Resume)
    {
      if !listed { return; }
      phase := to;
    }

    /** `complete` before its wait; `proceed` is false when it returns at once. */
    method BeginComplete(c: nat, announced: seq<Byte>) returns (proceed: bool)
      requires m.Valid() && c !in calls
      modifies this`calls
      ensures View() == Apply(m, old(View()), Complete(c, announced)) && proceed == IsReceiving(old(View()))
    {
      proceed := listed && (phase.Accepted? || phase.Transferring?);
      if proceed { calls := calls[c := Waiting(announced)]; }
    }

    /** `complete` after its wait; `finalizing` tells whether it calls `sink.finalize`. */
    method AfterWait(c: nat) returns (finalizing: bool)
      requires m.Valid() && c in calls && calls[c].Waiting?
      modifies this
      ensures View() == Apply(m, old(View()), Proceed(c)) && finalizing == StartsFinalize(old(View()), Proceed(c))
    {
      finalizing := false;
      if !listed || !(phase.Accepted? || phase.Transferring?) || (missing.Some? && missing.value != {}) {
        calls := calls - {c};
        return;
      }
      if missing.None? {
        calls := calls[c := Asked(calls[c].announced, None)];
        return;
      }
      phase := Verifying;
      calls := calls[c := Starting(calls[c].announced)];
      finalizing := true;
    }

    /** `complete` once its own list has come: the state is not checked again. */
    method AfterOwnList(c: nat) returns (finalizing: bool)
      requires m.Valid() && c in calls && calls[c].Asked? && calls[c].list.Some?
      modifies this
      ensures View() == Apply(m, old(View()), OwnListUsed(c)) && finalizing == StartsFinalize(old(View()), OwnListUsed(c))
    {
      var list := calls[c].list.value;
      if missing.None? { missing := Some(list); }
      finalizing := list == {};
      if !finalizing {
        calls := calls - {c};
        return;
      }
      phase := Verifying;
      calls := calls[c := Starting(calls[c].announced)];
    }

    /** `complete` after `sink.finalize` has returned or thrown. */
    method AfterFinalize(c: nat)
      requires m.Valid() && c in calls && calls[c].Finished?
      modifies this
      ensures View() == Apply(m, old(View()), Return(c))
    {
      var call := calls[c];
      if call.ok {
        if !listed || !phase.Verifying? {
          sink := sink.Discarded();
          calls := calls - {c};
          return;
        }
        if call.announced == m.contentHash {
          bytes := m.layout.size;
          phase := Completed;
          calls := calls[c := Reporting(call.announced)];
          return;
        }
      }
      calls := calls - {c};
      if !listed || phase.Cancelled? { return; }
      phase := Failed;
    }

    /** `complete` after its message was sent, or could not be. */
    method AfterReport(c: nat, ok: bool)
      requires m.Valid() && c in calls && calls[c].Reporting?
      modifies this
      ensures View() == Apply(m, old(View()), Report(c, ok))
    {
      calls := calls - {c};
      if ok {
        listed := false;
        return;
      }
      if !listed || phase.Cancelled? { return; }
      phase := Failed;
    }
  }
}

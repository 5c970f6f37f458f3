/**
  The transfer directory of the desktop backend: `payload.risk-part`, `chunks.map` and the legacy
  one-file-per-chunk parts, changed step by step by any number of handlers at once.  The process may
  stop between any two steps; what was handed to the operating system stays.
*/
module ChunkStore {
  import opened Common
  import opened ChunkGeometry
  import Sha256Spec

  /** The attachment a directory belongs to: every body sent for an index is that slice of `content`. */
  datatype Attachment = Attachment(layout: Layout, content: seq<Byte>) {
    predicate Valid() { layout.Valid() && |content| == layout.size }
  }

  datatype Directory = Directory(
    payload: Option<seq<Byte>>,
    chunkMap: Option<seq<Byte>>,
    parts: map<nat, seq<Byte>>)

  /** `prepare_chunk_storage` returns at once, and every handler believes the map, when both files exist. */
  predicate Believed(d: Directory) { d.payload.Some? && d.chunkMap.Some? }

  // ---- File primitives ----

  function SetLen(file: seq<Byte>, n: nat): seq<Byte> {
    if n <= |file| then file[..n] else file + Zeros(n - |file|)
  }

  /** Seek and write one byte; a gap behind the end of the file reads as zeros. */
  function PutByte(file: seq<Byte>, at: nat, b: Byte): seq<Byte> {
    if at < |file| then file[at := b] else file + Zeros(at - |file|) + [b]
  }

  // ---- What is on disk ----

  predicate Written(a: Attachment, file: seq<Byte>, lo: nat, hi: nat)
    requires a.Valid()
  {
    lo <= hi <= |file| && hi <= |a.content| && file[lo..hi] == a.content[lo..hi]
  }

  predicate SliceWritten(a: Attachment, d: Directory, i: nat)
    requires a.Valid()
  {
    d.payload.Some? && Written(a, d.payload.value, a.layout.Offset(i), a.layout.End(i))
  }

  predicate Marked(markers: seq<Byte>, i: nat) { i < |markers| && markers[i] == 1 }

  /** Marker 1 means that the slice is completely in the payload. */
  ghost predicate Truthful(a: Attachment, d: Directory)
    requires a.Valid()
  {
    Believed(d) ==> forall i | 0 <= i < a.layout.Count() && Marked(d.chunkMap.value, i) :: SliceWritten(a, d, i)
  }

  /** The guard that decides whether recovery may start here: no payload is left behind by a marked map. */
  ghost predicate Recoverable(a: Attachment, d: Directory)
    requires a.Valid()
  {
    d.payload.None? && d.chunkMap.Some? ==> forall i | 0 <= i < a.layout.Count() :: !Marked(d.chunkMap.value, i)
  }

  // ---- Handlers in flight ----

  datatype Op =
    /** `write_chunk` after it opened the payload: `done` bytes of the body are out. */
    | Writer(index: nat, done: nat)
    /** `prepare_chunk_storage` after it saw that a file is missing. */
    | Checked
    | Opened
    /** Migrating legacy parts; `copying` is the part being copied. */
    | Migrating(markers: seq<Byte>, copying: Option<(nat, nat)>)
    /** Writing the map: `published` markers are out. */
    | Publishing(markers: seq<Byte>, published: nat)

  datatype Store = Store(dir: Directory, ops: map<nat, Op>)

  datatype Event =
    | StartWrite(id: nat, index: nat)
    | WriteByte(id: nat)
    | PublishMarker(id: nat)
    | StartRecovery(id: nat)
    | OpenPayload(id: nat)
    | ExtendPayload(id: nat)
    | StartPart(id: nat, index: nat)
    | CopyByte(id: nat)
    | FinishPart(id: nat, removed: bool)
    | TruncateMap(id: nat)
    | PublishByte(id: nat)
    | FinishRecovery(id: nat)
    /** `finalize_transfer` moves the payload of a complete map away, and then removes the rest piece by piece. */
    | Rename
    | RemoveMap
    | RemovePart(index: nat)
    | Stop

  predicate IsPart(a: Attachment, d: Directory, i: nat)
    requires a.Valid()
  {
    i in d.parts && i < a.layout.Count() && |d.parts[i]| == a.layout.Length(i)
  }

  predicate Enabled(a: Attachment, s: Store, ev: Event)
    requires a.Valid()
  {
    match ev
    case StartWrite(id, i) => id !in s.ops && Believed(s.dir) && i < a.layout.Count()
    case WriteByte(id) => id in s.ops && s.ops[id].Writer? && s.dir.payload.Some?
        && s.ops[id].index < a.layout.Count() && s.ops[id].done < a.layout.Length(s.ops[id].index)
    case PublishMarker(id) => id in s.ops && s.ops[id].Writer? && s.dir.chunkMap.Some?
        && s.ops[id].done == a.layout.Length(s.ops[id].index)
    case StartRecovery(id) => id !in s.ops && !Believed(s.dir)
    case OpenPayload(id) => id in s.ops && s.ops[id].Checked?
    case ExtendPayload(id) => id in s.ops && s.ops[id].Opened? && s.dir.payload.Some?
    case StartPart(id, i) => id in s.ops && s.ops[id].Migrating? && s.ops[id].copying.None? && IsPart(a, s.dir, i)
    case CopyByte(id) => id in s.ops && s.ops[id].Migrating? && s.ops[id].copying.Some? && s.dir.payload.Some?
        && s.ops[id].copying.value.0 < a.layout.Count()
        && s.ops[id].copying.value.1 < a.layout.Length(s.ops[id].copying.value.0)
    case FinishPart(id, _) => id in s.ops && s.ops[id].Migrating? && s.ops[id].copying.Some?
        && s.ops[id].copying.value.0 < |s.ops[id].markers|
        && s.ops[id].copying.value.1 == a.layout.Length(s.ops[id].copying.value.0)
    case TruncateMap(id) => id in s.ops && s.ops[id].Migrating? && s.ops[id].copying.None?
    case PublishByte(id) => id in s.ops && s.ops[id].Publishing? && s.dir.chunkMap.Some?
        && s.ops[id].published < |s.ops[id].markers|
    case FinishRecovery(id) => id in s.ops && s.ops[id].Publishing? && s.ops[id].published == |s.ops[id].markers|
    case Rename => s.ops == map[] && Believed(s.dir) && Full(a, s.dir)
    case RemoveMap => s.dir.payload.None? && s.dir.chunkMap.Some?
    case RemovePart(_) => s.dir.payload.None?
    case Stop => true
  }

  /** The map is complete. */
  predicate Full(a: Attachment, d: Directory)
    requires a.Valid()
  {
    d.chunkMap.Some? && |d.chunkMap.value| == a.layout.Count() && forall i | 0 <= i < a.layout.Count() :: Marked(d.chunkMap.value, i)
  }

  function SetPayload(s: Store, p: seq<Byte>): Store { s.(dir := s.dir.(payload := Some(p))) }
  function SetMap(s: Store, m: seq<Byte>): Store { s.(dir := s.dir.(chunkMap := Some(m))) }
  function SetOp(s: Store, id: nat, op: Op): Store { s.(ops := s.ops[id := op]) }
  function DropOp(s: Store, id: nat): Store { s.(ops := s.ops - {id}) }

  /** The byte that belongs at `done` inside chunk `i`. */
  function BodyByte(a: Attachment, i: nat, done: nat): Byte
    requires a.Valid() && i < a.layout.Count() && done < a.layout.Length(i)
  {
    ChunkInside(a.layout, i);
    a.content[a.layout.Offset(i) + done]
  }

  function Apply(a: Attachment, s: Store, ev: Event): Store
    requires a.Valid()
  {
    if !Enabled(a, s, ev) then s
    else match ev
      case StartWrite(id, i) => SetOp(s, id, Writer(i, 0))
      case WriteByte(id) =>
        var op := s.ops[id];
        SetOp(SetPayload(s, PutByte(s.dir.payload.value, a.layout.Offset(op.index) + op.done, BodyByte(a, op.index, op.done))),
              id, op.(done := op.done + 1))
      case PublishMarker(id) => DropOp(SetMap(s, PutByte(s.dir.chunkMap.value, s.ops[id].index, 1)), id)
      case StartRecovery(id) => SetOp(s, id, Checked)
      case OpenPayload(id) => SetOp(if s.dir.payload.None? then SetPayload(s, []) else s, id, Opened)
      case ExtendPayload(id) =>
        SetOp(SetPayload(s, SetLen(s.dir.payload.value, a.layout.size)), id, Migrating(Zeros(a.layout.Count()), None))
      case StartPart(id, i) => SetOp(s, id, s.ops[id].(copying := Some((i, 0))))
      case CopyByte(id) =>
        var (i, done) := s.ops[id].copying.value;
        SetOp(SetPayload(s, PutByte(s.dir.payload.value, a.layout.Offset(i) + done, BodyByte(a, i, done))),
              id, s.ops[id].(copying := Some((i, done + 1))))
      case FinishPart(id, removed) =>
        var i := s.ops[id].copying.value.0;
        SetOp(if removed then s.(dir := s.dir.(parts := s.dir.parts - {i})) else s,
              id, Migrating(s.ops[id].markers[i := 1], None))
      case TruncateMap(id) => SetOp(SetMap(s, []), id, Publishing(s.ops[id].markers, 0))
      case PublishByte(id) =>
        var op := s.ops[id];
        SetOp(SetMap(s, PutByte(s.dir.chunkMap.value, op.published, op.markers[op.published])),
              id, op.(published := op.published + 1))
      case FinishRecovery(id) => DropOp(s, id)
      case Rename => s.(dir := s.dir.(payload := None))
      case RemoveMap => s.(dir := s.dir.(chunkMap := None))
      case RemovePart(i) => s.(dir := s.dir.(parts := s.dir.parts - {i}))
      case Stop => s.(ops := map[])
  }

  function Run(a: Attachment, s: Store, evs: seq<Event>): Store
    requires a.Valid()
    decreases |evs|
  {
    if evs == [] then s else Run(a, Apply(a, s, evs[0]), evs[1..])
  }

  // ---- The invariant ----

  ghost predicate MarkersTrue(a: Attachment, d: Directory, markers: seq<Byte>)
    requires a.Valid()
  {
    forall i | 0 <= i < a.layout.Count() && Marked(markers, i) :: SliceWritten(a, d, i)
  }

  ghost predicate PrefixTrue(a: Attachment, d: Directory, i: nat, done: nat)
    requires a.Valid()
  {
    && i < a.layout.Count() && done <= a.layout.Length(i) && d.payload.Some?
    && (done > 0 ==> Written(a, d.payload.value, a.layout.Offset(i), a.layout.Offset(i) + done))
  }

  ghost predicate OpTrue(a: Attachment, d: Directory, op: Op)
    requires a.Valid()
  {
    match op
    case Writer(i, done) => PrefixTrue(a, d, i, done)
    case Checked => true
    case Opened => d.payload.Some?
    case Migrating(markers, copying) =>
      && d.payload.Some? && |markers| == a.layout.Count() && MarkersTrue(a, d, markers)
      && (copying.Some? ==> PrefixTrue(a, d, copying.value.0, copying.value.1))
    case Publishing(markers, published) =>
      && d.payload.Some? && |markers| == a.layout.Count() && MarkersTrue(a, d, markers)
  }

  ghost predicate Inv(a: Attachment, s: Store)
    requires a.Valid()
  {
    && (s.dir.payload.Some? ==> |s.dir.payload.value| <= a.layout.size)
    && (Believed(s.dir) ==> MarkersTrue(a, s.dir, s.dir.chunkMap.value))
    && (forall id | id in s.ops :: OpTrue(a, s.dir, s.ops[id]))
  }

  /** Nothing that was correctly on disk is lost: the payload only improves. */
  ghost predicate Improves(a: Attachment, d: Directory, d': Directory)
    requires a.Valid()
  {
    d.payload.Some? ==>
      && d'.payload.Some?
      && forall lo: nat, hi: nat | lo < hi :: Written(a, d.payload.value, lo, hi) ==> Written(a, d'.payload.value, lo, hi)
  }

  lemma ImprovesKeeps(a: Attachment, d: Directory, d': Directory, op: Op)
    requires a.Valid() && Improves(a, d, d') && OpTrue(a, d, op)
    ensures OpTrue(a, d', op)
  {
    match op
    case Migrating(markers, _) => ImprovesKeepsMarkers(a, d, d', markers);
    case Publishing(markers, _) => ImprovesKeepsMarkers(a, d, d', markers);
    case _ =>
  }

  lemma ImprovesKeepsMarkers(a: Attachment, d: Directory, d': Directory, markers: seq<Byte>)
    requires a.Valid() && Improves(a, d, d') && MarkersTrue(a, d, markers)
    ensures MarkersTrue(a, d', markers)
  {
    forall i | 0 <= i < a.layout.Count() && Marked(markers, i)
      ensures SliceWritten(a, d', i)
    {
      assert SliceWritten(a, d, i);
      ChunkInside(a.layout, i);
    }
  }

  /** Putting the right byte somewhere keeps everything and extends a written prefix by one. */
  lemma PutBodyByte(a: Attachment, d: Directory, i: nat, done: nat)
    requires a.Valid() && d.payload.Some? && |d.payload.value| <= a.layout.size
    requires i < a.layout.Count() && done < a.layout.Length(i) && PrefixTrue(a, d, i, done)
    ensures var d' := d.(payload := Some(PutByte(d.payload.value, a.layout.Offset(i) + done, BodyByte(a, i, done))));
      Improves(a, d, d') && PrefixTrue(a, d', i, done + 1) && |d'.payload.value| <= a.layout.size
  {
    ChunkInside(a.layout, i);
    var at := a.layout.Offset(i) + done;
    var p := d.payload.value;
    var p' := PutByte(p, at, BodyByte(a, i, done));
    var d' := d.(payload := Some(p'));
    forall lo: nat, hi: nat | lo < hi && Written(a, p, lo, hi)
      ensures Written(a, p', lo, hi)
    {
      PutKeeps(a, p, at, lo, hi);
    }
    var lo, hi := a.layout.Offset(i), at + 1;
    assert p'[at] == a.content[at];
    if done > 0 {
      assert Written(a, p', lo, at);
      assert p'[lo..hi] == p'[lo..at] + [p'[at]];
      assert a.content[lo..hi] == a.content[lo..at] + [a.content[at]];
    } else {
      assert p'[lo..hi] == [p'[at]] && a.content[lo..hi] == [a.content[at]];
    }
  }

  lemma PutKeeps(a: Attachment, p: seq<Byte>, at: nat, lo: nat, hi: nat)
    requires a.Valid() && at < |a.content| && lo < hi && Written(a, p, lo, hi)
    ensures Written(a, PutByte(p, at, a.content[at]), lo, hi)
  {
    var p' := PutByte(p, at, a.content[at]);
    forall k | lo <= k < hi
      ensures p'[k] == a.content[k]
    {
      assert p[lo..hi][k - lo] == a.content[lo..hi][k - lo];
    }
    assert p'[lo..hi] == a.content[lo..hi];
  }

  lemma ExtendKeeps(a: Attachment, d: Directory)
    requires a.Valid() && d.payload.Some? && |d.payload.value| <= a.layout.size
    ensures Improves(a, d, d.(payload := Some(SetLen(d.payload.value, a.layout.size))))
  {
    var p := d.payload.value;
    var p' := SetLen(p, a.layout.size);
    forall lo: nat, hi: nat | lo < hi && Written(a, p, lo, hi)
      ensures Written(a, p', lo, hi)
    {
      assert p'[lo..hi] == p[lo..hi];
    }
  }

  /** A step that only improves the payload, and touches one handler and maybe the map, keeps the invariant. */
  lemma KeepsInv(a: Attachment, s: Store, s': Store, id: nat)
    requires a.Valid() && Inv(a, s) && Improves(a, s.dir, s'.dir)
    requires s'.dir.payload.Some? ==> |s'.dir.payload.value| <= a.layout.size
    requires (s'.dir.chunkMap == s.dir.chunkMap && s.dir.payload.Some?)
          || (Believed(s'.dir) ==> MarkersTrue(a, s'.dir, s'.dir.chunkMap.value))
    requires forall o | o in s'.ops && o != id :: o in s.ops && s'.ops[o] == s.ops[o]
    requires id in s'.ops ==> OpTrue(a, s'.dir, s'.ops[id])
    ensures Inv(a, s')
  {
    forall o | o in s'.ops
      ensures OpTrue(a, s'.dir, s'.ops[o])
    {
      if o != id { ImprovesKeeps(a, s.dir, s'.dir, s.ops[o]); }
    }
    if s'.dir.chunkMap == s.dir.chunkMap && Believed(s.dir) {
      ImprovesKeepsMarkers(a, s.dir, s'.dir, s.dir.chunkMap.value);
    }
  }

  lemma WriteByteKeepsInv(a: Attachment, s: Store, id: nat)
    requires a.Valid() && Inv(a, s) && Enabled(a, s, WriteByte(id))
    ensures Inv(a, Apply(a, s, WriteByte(id)))
  {
    hide Written, PrefixTrue, MarkersTrue, Improves, PutByte, BodyByte;
    assert OpTrue(a, s.dir, s.ops[id]);
    PutBodyByte(a, s.dir, s.ops[id].index, s.ops[id].done);
    KeepsInv(a, s, Apply(a, s, WriteByte(id)), id);
  }

  lemma CopyByteKeepsInv(a: Attachment, s: Store, id: nat)
    requires a.Valid() && Inv(a, s) && Enabled(a, s, CopyByte(id))
    ensures Inv(a, Apply(a, s, CopyByte(id)))
  {
    hide Written, PrefixTrue, MarkersTrue, Improves, PutByte, BodyByte;
    var s' := Apply(a, s, CopyByte(id));
    assert OpTrue(a, s.dir, s.ops[id]);
    PutBodyByte(a, s.dir, s.ops[id].copying.value.0, s.ops[id].copying.value.1);
    ImprovesKeepsMarkers(a, s.dir, s'.dir, s.ops[id].markers);
    KeepsInv(a, s, s', id);
  }

  lemma OpenPayloadKeepsInv(a: Attachment, s: Store, id: nat)
    requires a.Valid() && Inv(a, s) && Enabled(a, s, OpenPayload(id)) && Recoverable(a, s.dir)
    ensures Inv(a, Apply(a, s, OpenPayload(id)))
  {
    KeepsInv(a, s, Apply(a, s, OpenPayload(id)), id);
  }

  lemma ExtendPayloadKeepsInv(a: Attachment, s: Store, id: nat)
    requires a.Valid() && Inv(a, s) && Enabled(a, s, ExtendPayload(id))
    ensures Inv(a, Apply(a, s, ExtendPayload(id)))
  {
    ExtendKeeps(a, s.dir);
    KeepsInv(a, s, Apply(a, s, ExtendPayload(id)), id);
  }

  lemma MapStepKeepsInv(a: Attachment, s: Store, ev: Event)
    requires a.Valid() && Inv(a, s) && Enabled(a, s, ev)
    requires ev.PublishMarker? || ev.TruncateMap? || ev.PublishByte?
    ensures Inv(a, Apply(a, s, ev))
  {
    var s' := Apply(a, s, ev);
    assert OpTrue(a, s.dir, s.ops[ev.id]);
    if ev.PublishMarker? { ChunkInside(a.layout, s.ops[ev.id].index); }
    assert s'.dir.payload == s.dir.payload;
    forall i | 0 <= i < a.layout.Count() && Marked(s'.dir.chunkMap.value, i)
      ensures SliceWritten(a, s'.dir, i)
    {
      assert SliceWritten(a, s.dir, i);
    }
    KeepsInv(a, s, s', ev.id);
  }

  /** Without a payload no handler depends on the rest. */
  lemma RemovalKeepsInv(a: Attachment, s: Store, s': Store)
    requires a.Valid() && Inv(a, s) && s.dir.payload.None? && s'.dir.payload.None? && s'.ops == s.ops
    ensures Inv(a, s')
  {
    forall id | id in s.ops ensures OpTrue(a, s'.dir, s.ops[id]) { assert OpTrue(a, s.dir, s.ops[id]); }
  }

  /** Recovery creates a payload while a marked map has lost its own. */
  ghost predicate Endangers(a: Attachment, s: Store, ev: Event)
    requires a.Valid()
  {
    ev.OpenPayload? && Enabled(a, s, ev) && !Recoverable(a, s.dir)
  }

  lemma StepKeepsInv(a: Attachment, s: Store, ev: Event)
    requires a.Valid() && Inv(a, s) && !Endangers(a, s, ev)
    ensures Inv(a, Apply(a, s, ev))
  {
    if Enabled(a, s, ev) {
      var s' := Apply(a, s, ev);
      match ev
      case WriteByte(id) => WriteByteKeepsInv(a, s, id);
      case CopyByte(id) => CopyByteKeepsInv(a, s, id);
      case OpenPayload(id) => OpenPayloadKeepsInv(a, s, id);
      case ExtendPayload(id) => ExtendPayloadKeepsInv(a, s, id);
      case PublishMarker(_) => MapStepKeepsInv(a, s, ev);
      case TruncateMap(_) => MapStepKeepsInv(a, s, ev);
      case PublishByte(_) => MapStepKeepsInv(a, s, ev);
      case StartWrite(id, i) => KeepsInv(a, s, s', id);
      case StartRecovery(id) => KeepsInv(a, s, s', id);
      case StartPart(id, i) => KeepsInv(a, s, s', id);
      case FinishPart(id, removed) =>
        var (i, done) := s.ops[id].copying.value;
        assert OpTrue(a, s.dir, s.ops[id]);
        ChunkInside(a.layout, i);
        forall k | 0 <= k < a.layout.Count() && Marked(s'.ops[id].markers, k)
          ensures SliceWritten(a, s'.dir, k)
        {
          assert SliceWritten(a, s.dir, k);
        }
        KeepsInv(a, s, s', id);
      case FinishRecovery(id) => KeepsInv(a, s, s', id);
      case Rename =>
      case RemoveMap => RemovalKeepsInv(a, s, s');
      case RemovePart(_) => RemovalKeepsInv(a, s, s');
      case Stop =>
    }
  }

  ghost predicate NeverEndangers(a: Attachment, s: Store, evs: seq<Event>)
    requires a.Valid()
    decreases |evs|
  {
    evs != [] ==> !Endangers(a, s, evs[0]) && NeverEndangers(a, Apply(a, s, evs[0]), evs[1..])
  }

  /** Every believed map on the way tells the truth. */
  ghost predicate AllTruthful(a: Attachment, s: Store, evs: seq<Event>)
    requires a.Valid()
    decreases |evs|
  {
    Truthful(a, s.dir) && (evs != [] ==> AllTruthful(a, Apply(a, s, evs[0]), evs[1..]))
  }

  // ---- Main results ----

  /** The one step that makes the map lie. */
  lemma TruthIsLostExactlyWhen(a: Attachment, s: Store, ev: Event)
    requires a.Valid() && Inv(a, s)
    ensures Truthful(a, Apply(a, s, ev).dir) <==> !Endangers(a, s, ev)
  {
    if Endangers(a, s, ev) {
      var i :| 0 <= i < a.layout.Count() && Marked(s.dir.chunkMap.value, i);
      ChunkInside(a.layout, i);
      assert !SliceWritten(a, Apply(a, s, ev).dir, i);
    } else {
      StepKeepsInv(a, s, ev);
      hide Apply;
    }
  }

  lemma {:induction false} TruthfulExactlyWhen(a: Attachment, s: Store, evs: seq<Event>)
    requires a.Valid() && Inv(a, s)
    ensures AllTruthful(a, s, evs) <==> NeverEndangers(a, s, evs)
    ensures NeverEndangers(a, s, evs) ==> Inv(a, Run(a, s, evs))
    decreases |evs|
  {
    assert Truthful(a, s.dir);
    hide Inv, Apply, Truthful, Endangers;
    if evs != [] {
      TruthIsLostExactlyWhen(a, s, evs[0]);
      if !Endangers(a, s, evs[0]) {
        StepKeepsInv(a, s, evs[0]);
        TruthfulExactlyWhen(a, Apply(a, s, evs[0]), evs[1..]);
      } else {
        assert !Truthful(a, Apply(a, s, evs[0]).dir);
      }
    }
  }

  ghost predicate Sound(a: Attachment, d: Directory)
    requires a.Valid()
  {
    Truthful(a, d) && Recoverable(a, d) && (d.payload.Some? ==> |d.payload.value| <= a.layout.size)
  }

  /**
    In every interleaving of writers, recoveries and finalize steps, with stops anywhere, marker 1 means a completely written
    slice, exactly as long as no recovery creates a payload while a marked map has lost its own.
  */
  lemma {:induction false} CrashSafety(a: Attachment, d: Directory, evs: seq<Event>)
    requires a.Valid() && Sound(a, d)
    ensures AllTruthful(a, Store(d, map[]), evs) <==> NeverEndangers(a, Store(d, map[]), evs)
  {
    TruthfulExactlyWhen(a, Store(d, map[]), evs);
  }

  predicate WithoutRename(evs: seq<Event>) { forall k | 0 <= k < |evs| :: !evs[k].Rename? }

  /** Only a rename can bring that about. */
  lemma RecoverableStays(a: Attachment, s: Store, ev: Event)
    requires a.Valid() && Inv(a, s) && Recoverable(a, s.dir) && !ev.Rename?
    ensures Inv(a, Apply(a, s, ev)) && Recoverable(a, Apply(a, s, ev).dir)
  {
    StepKeepsInv(a, s, ev);
    hide Inv;
    if Enabled(a, s, ev) && ev.RemoveMap? { assert Apply(a, s, ev).dir.chunkMap.None?; }
  }

  /** Without a finalize, a sound directory stays sound in every interleaving, with stops at any step. */
  lemma {:induction false} SoundUntilRename(a: Attachment, s: Store, evs: seq<Event>)
    requires a.Valid() && Inv(a, s) && Recoverable(a, s.dir) && WithoutRename(evs)
    ensures Inv(a, Run(a, s, evs)) && Sound(a, Run(a, s, evs).dir)
    decreases |evs|
  {
    hide Apply, Recoverable;
    if evs != [] {
      RecoverableStays(a, s, evs[0]);
      assert forall k | 0 <= k < |evs| - 1 :: evs[1..][k] == evs[k + 1];
      hide Inv;
      SoundUntilRename(a, Apply(a, s, evs[0]), evs[1..]);
    }
  }

  lemma RunThree(a: Attachment, s: Store, e1: Event, e2: Event, e3: Event)
    requires a.Valid()
    ensures Run(a, s, [e1, e2, e3]) == Apply(a, Apply(a, Apply(a, s, e1), e2), e3)
  {
    assert [e1, e2, e3][1..] == [e2, e3] && [e2, e3][1..] == [e3] && [e3][1..] == [];
    assert Run(a, Apply(a, Apply(a, s, e1), e2), [e3]) == Apply(a, Apply(a, Apply(a, s, e1), e2), e3);
  }

  /** Recovery stopped right after it created the payload. */
  const STOPPED_RECOVERY: seq<Event> := [StartRecovery(0), OpenPayload(0), Stop]

  /** Recovery over a marked map without a payload, stopped there, leaves a map that lies. */
  lemma StoppedRecoveryLies(a: Attachment, d: Directory)
    requires a.Valid() && !Recoverable(a, d)
    ensures var d' := Run(a, Store(d, map[]), STOPPED_RECOVERY).dir;
      Believed(d') && d'.chunkMap == d.chunkMap && !Truthful(a, d') && forall i | 0 <= i < a.layout.Count() :: !SliceWritten(a, d', i)
  {
    RunThree(a, Store(d, map[]), StartRecovery(0), OpenPayload(0), Stop);
    var d' := Run(a, Store(d, map[]), STOPPED_RECOVERY).dir;
    assert d'.payload == Some([]);
    forall i | 0 <= i < a.layout.Count()
      ensures !SliceWritten(a, d', i)
    {
      ChunkInside(a.layout, i);
    }
  }

  /** Exactly when recovery is safe: it never produces a lying map iff it is not started on a marked map without a payload. */
  lemma {:induction false} RecoveryIsSafeExactlyWhen(a: Attachment, d: Directory)
    requires a.Valid() && Truthful(a, d) && (d.payload.Some? ==> |d.payload.value| <= a.layout.size)
    ensures (forall evs | WithoutRename(evs) :: Truthful(a, Run(a, Store(d, map[]), evs).dir)) <==> Recoverable(a, d)
  {
    if Recoverable(a, d) {
      forall evs | WithoutRename(evs) ensures Truthful(a, Run(a, Store(d, map[]), evs).dir) { SoundUntilRename(a, Store(d, map[]), evs); }
    } else {
      StoppedRecoveryLies(a, d);
    }
  }

  /** `finalize_transfer` moves the payload away before it removes the directory. */
  function AfterRename(d: Directory): Directory { d.(payload := None) }

  /** A stop between those two steps of finalize leaves just such a directory, for every non-empty attachment. */
  lemma StopInFinalizeIsNotRecoverable(a: Attachment, d: Directory)
    requires a.Valid() && a.layout.size > 0 && d.chunkMap.Some?
    requires forall i | 0 <= i < a.layout.Count() :: Marked(d.chunkMap.value, i)
    ensures !Recoverable(a, AfterRename(d))
  {
    CountBounds(a.layout);
    assert Marked(d.chunkMap.value, 0);
  }

  /** What a finalize of `d` can leave when it stops: nothing done, or the payload moved and any of the rest removed. */
  predicate FinalizeLeaves(d: Directory, d': Directory) {
    || d' == d
    || (d'.payload.None? && (d'.chunkMap.None? || d'.chunkMap == d.chunkMap) && d'.parts.Keys <= d.parts.Keys)
  }

  /** After a finalize that stopped anywhere, later runs are truthful exactly if the map did not outlive the payload. */
  lemma {:induction false} StoppedFinalizeIsSafeExactlyWhen(a: Attachment, d: Directory, d': Directory)
    requires a.Valid() && Sound(a, d) && Believed(d) && FinalizeLeaves(d, d')
    requires forall i | 0 <= i < a.layout.Count() :: Marked(d.chunkMap.value, i)
    ensures (forall evs | WithoutRename(evs) :: Truthful(a, Run(a, Store(d', map[]), evs).dir))
       <==> d'.payload.Some? || d'.chunkMap.None? || a.layout.size == 0
  {
    hide Run, SliceWritten;
    CountBounds(a.layout);
    assert Truthful(a, d');
    hide Truthful;
    RecoveryIsSafeExactlyWhen(a, d');
    if d'.payload.None? && d'.chunkMap.Some? && a.layout.size > 0 {
      assert Marked(d'.chunkMap.value, 0);
    }
  }

  ghost predicate OnlyWriters(s: Store) { forall id | id in s.ops :: s.ops[id].Writer? }

  /** Resuming keeps what is there: once the map is believed, no run of writers and stops loses a marker. */
  lemma {:induction false} MarkersSurvive(a: Attachment, s: Store, evs: seq<Event>, i: nat)
    requires a.Valid() && Believed(s.dir) && OnlyWriters(s) && Marked(s.dir.chunkMap.value, i) && WithoutRename(evs)
    ensures Believed(Run(a, s, evs).dir) && Marked(Run(a, s, evs).dir.chunkMap.value, i)
    decreases |evs|
  {
    if evs != [] {
      assert forall k | 0 <= k < |evs| - 1 :: evs[1..][k] == evs[k + 1];
      MarkersSurvive(a, Apply(a, s, evs[0]), evs[1..], i);
    }
  }

  // ---- What each handler does next ----

  /** The steps of a handler, in the order in which it takes them; None is its end. */
  ghost predicate Follows(a: Attachment, d: Directory, op: Op, next: Option<Op>)
    requires a.Valid()
  {
    match op
    case Writer(i, done) => if next.None? then done == a.layout.Length(i) else done < a.layout.Length(i) && next == Some(Writer(i, done + 1))
    case Checked => next == Some(Opened)
    case Opened => next == Some(Migrating(Zeros(a.layout.Count()), None))
    case Migrating(markers, None) =>
      || next == Some(Publishing(markers, 0))
      || exists i :: i in d.parts && i < a.layout.Count() && |d.parts[i]| == a.layout.Length(i) && next == Some(Migrating(markers, Some((i, 0))))
    case Migrating(markers, Some((i, done))) =>
      if done < a.layout.Length(i) then next == Some(Migrating(markers, Some((i, done + 1))))
      else done == a.layout.Length(i) && i < |markers| && next == Some(Migrating(markers[i := 1], None))
    case Publishing(markers, published) =>
      if next.None? then published == |markers| else published < |markers| && next == Some(Publishing(markers, published + 1))
  }

  /** A handler takes its steps in order, ends only after the last one, and copies only legacy parts that have the size of their chunk. */
  lemma HandlersKeepTheirOrder(a: Attachment, s: Store, ev: Event, id: nat)
    requires a.Valid() && id in s.ops && !ev.Stop?
    ensures var s' := Apply(a, s, ev);
      (id in s'.ops && s'.ops[id] == s.ops[id]) || Follows(a, s.dir, s.ops[id], if id in s'.ops then Some(s'.ops[id]) else None)
  {
    hide PutByte, SetLen, BodyByte, Full;
  }

  /** A handler begins as a write over a believed map, for an index there is, or as a recovery where a file is missing. */
  lemma HandlersBegin(a: Attachment, s: Store, ev: Event, id: nat)
    requires a.Valid() && id !in s.ops && id in Apply(a, s, ev).ops
    ensures || (ev.StartWrite? && ev.id == id && Apply(a, s, ev).ops[id] == Writer(ev.index, 0)
                && s.dir.payload.Some? && s.dir.chunkMap.Some? && ev.index < a.layout.Count())
            || (ev == StartRecovery(id) && Apply(a, s, ev).ops[id] == Checked && (s.dir.payload.None? || s.dir.chunkMap.None?))
  {
    hide PutByte, SetLen, BodyByte, Full;
  }

  /** What becomes of the legacy parts: one goes when it has been copied, all may go after a rename. */
  lemma PartsExactlyWhen(a: Attachment, s: Store, ev: Event, i: nat)
    requires a.Valid() && i in s.dir.parts && i !in Apply(a, s, ev).dir.parts
    ensures || (ev.FinishPart? && ev.removed && ev.id in s.ops && s.ops[ev.id].Migrating? && s.ops[ev.id].copying == Some((i, a.layout.Length(i))))
            || (ev == RemovePart(i) && s.dir.payload.None?)
  {
    hide PutByte, SetLen, BodyByte, Full;
  }

  // ---- The handlers without interruption ----

  /** The parts in `seen` that have the expected size are in the payload, and these alone are marked. */
  ghost predicate Migrated(g: Layout, p: seq<Byte>, markers: seq<Byte>, parts: map<nat, seq<Byte>>, seen: set<nat>)
    requires g.Valid()
  {
    && |p| == g.size && |markers| == g.Count()
    && forall i: nat | i < g.Count() ::
         && (Marked(markers, i) <==> i in seen && i in parts && |parts[i]| == g.Length(i))
         && (Marked(markers, i) ==> Holds(g, p, i, parts[i]))
  }

  ghost predicate Holds(g: Layout, p: seq<Byte>, i: nat, body: seq<Byte>) {
    g.End(i) <= |p| && p[g.Offset(i)..g.End(i)] == body
  }

  lemma OtherSliceKept(g: Layout, p: seq<Byte>, p': seq<Byte>, i: nat, index: nat, body: seq<Byte>)
    requires g.Valid() && i != index && |p'| == |p| && Holds(g, p, i, body)
    requires forall k | 0 <= k < |p| && !(g.Offset(index) <= k < g.End(index)) :: p'[k] == p[k]
    ensures Holds(g, p', i, body)
  {
    if i < index { OrderedChunksAreApart(g, i, index); } else { OrderedChunksAreApart(g, index, i); }
    assert p'[g.Offset(i)..g.End(i)] == p[g.Offset(i)..g.End(i)];
  }

  lemma MigrateOne(g: Layout, p: seq<Byte>, p': seq<Byte>, markers: seq<Byte>, parts: map<nat, seq<Byte>>, seen: set<nat>, index: nat)
    requires g.Valid() && Migrated(g, p, markers, parts, seen) && index < g.Count()
    requires index in parts && |parts[index]| == g.Length(index)
    requires |p'| == |p| && Holds(g, p', index, parts[index])
    requires forall k | 0 <= k < |p| && !(g.Offset(index) <= k < g.End(index)) :: p'[k] == p[k]
    ensures Migrated(g, p', markers[index := 1], parts, seen + {index})
  {
    var markers' := markers[index := 1];
    forall i: nat | i < g.Count()
      ensures Marked(markers', i) <==> i in seen + {index} && i in parts && |parts[i]| == g.Length(i)
      ensures Marked(markers', i) ==> Holds(g, p', i, parts[i])
    {
      hide Holds;
      if i != index {
        assert Marked(markers', i) <==> Marked(markers, i);
        if Marked(markers, i) { OtherSliceKept(g, p, p', i, index, parts[i]); }
      }
    }
  }

  class TransferDirectory {
    const layout: Layout
    var payload: Option<seq<Byte>>
    var chunkMap: Option<seq<Byte>>
    var parts: map<nat, seq<Byte>>

    ghost function View(): Directory
      reads this
    {
      Directory(payload, chunkMap, parts)
    }

    constructor (layout: Layout)
      ensures View() == Directory(None, None, map[]) && this.layout == layout
    {
      this.layout := layout;
      payload, chunkMap, parts := None, None, map[];
    }

    /** Copies `body` to `at`, byte by byte; a short file grows. */
    method WriteAll(at: nat, body: seq<Byte>)
      requires payload.Some? && (body == [] ==> at <= |payload.value|)
      modifies this`payload
      ensures payload.Some? && |payload.value| == Max(|old(payload).value|, at + |body|)
      ensures payload.value[at..at + |body|] == body
      ensures forall k | 0 <= k < |payload.value| && !(at <= k < at + |body|) ::
                payload.value[k] == if k < |old(payload).value| then old(payload).value[k] else 0
    {
      for done := 0 to |body|
        invariant payload.Some?
        invariant |payload.value| == if done == 0 then |old(payload).value| else Max(|old(payload).value|, at + done)
        invariant forall k | 0 <= k < done :: payload.value[at + k] == body[k]
        invariant forall k | 0 <= k < |payload.value| && !(at <= k < at + done) ::
                    payload.value[k] == if k < |old(payload).value| then old(payload).value[k] else 0
      {
        payload := Some(PutByte(payload.value, at + done, body[done]));
      }
      assert payload.value[at..at + |body|] == body;
    }

    /** `entries` is the order in which the directory is read. */
    method PrepareChunkStorage(entries: seq<nat>)
      requires layout.Valid() && forall i: nat :: i in parts <==> i in entries
      requires forall j, k | 0 <= j < k < |entries| :: entries[j] != entries[k]
      modifies this
      ensures Believed(View())
      ensures Believed(old(View())) ==> View() == old(View())
      ensures !Believed(old(View())) ==> Migrated(layout, payload.value, chunkMap.value, old(parts), old(parts).Keys)
    {
      if payload.Some? && chunkMap.Some? { return; }
      payload := Some(SetLen(if payload.Some? then payload.value else [], layout.size));
      var markers := Zeros(layout.Count());
      ghost var seen: set<nat> := {};
      for n := 0 to |entries|
        invariant payload.Some? && Migrated(layout, payload.value, markers, old(parts), seen)
        invariant forall k | n <= k < |entries| :: entries[k] in parts && parts[entries[k]] == old(parts)[entries[k]]
        invariant forall i :: i in seen <==> i in entries[..n]
        invariant forall i | i in entries :: i in old(parts)
      {
        var index := entries[n];
        assert entries[..n + 1] == entries[..n] + [index];
        if index < layout.Count() && |parts[index]| == layout.Length(index) {
          ghost var before := payload.value;
          ChunkInside(layout, index);
          WriteAll(layout.Offset(index), parts[index]);
          MigrateOne(layout, before, payload.value, markers, old(parts), seen, index);
          markers := markers[index := 1];
          parts := parts - {index};
        }
        seen := seen + {index};
      }
      assert entries[..|entries|] == entries;
      assert seen == old(parts).Keys;
      chunkMap := Some(markers);
    }

    /** `write_chunk` once the files are there; `ok` is false for a wrong index or size. */
    method WriteChunk(index: nat, body: seq<Byte>) returns (ok: bool)
      requires layout.Valid() && Believed(View())
      modifies this
      ensures Believed(View()) && parts == old(parts)
      ensures ok <==> index < layout.Count() && |body| == layout.Length(index)
      ensures !ok ==> View() == old(View())
      ensures ok ==> |payload.value| == Max(|old(payload).value|, layout.End(index))
      ensures ok ==> payload.value[layout.Offset(index)..layout.End(index)] == body
      ensures ok ==> forall k | 0 <= k < |payload.value| && !(layout.Offset(index) <= k < layout.End(index)) ::
                payload.value[k] == if k < |old(payload).value| then old(payload).value[k] else 0
      ensures ok ==> forall i: nat :: Marked(chunkMap.value, i) <==> i == index || Marked(old(chunkMap).value, i)
      ensures index < |old(chunkMap).value| ==> |chunkMap.value| == |old(chunkMap).value|
    {
      ok := index < layout.Count() && |body| == layout.Length(index);
      if !ok { return; }
      ChunkInside(layout, index);
      WriteAll(layout.Offset(index), body);
      chunkMap := Some(PutByte(chunkMap.value, index, 1));
    }

    /** `list_missing_chunks`: the unmarked indices, in ascending order. */
    method ListMissing() returns (missing: seq<nat>)
      requires layout.Valid() && chunkMap.Some?
      ensures forall i: nat :: i in missing <==> i < layout.Count() && !Marked(chunkMap.value, i)
      ensures forall j, k | 0 <= j < k < |missing| :: missing[j] < missing[k]
    {
      missing := [];
      for index := 0 to layout.Count()
        invariant forall i: nat :: i in missing <==> i < index && !Marked(chunkMap.value, i)
        invariant forall j | 0 <= j < |missing| :: missing[j] < index
        invariant forall j, k | 0 <= j < k < |missing| :: missing[j] < missing[k]
      {
        if !(index < |chunkMap.value| && chunkMap.value[index] == 1) {
          missing := missing + [index];
        }
      }
    }

    /**
      `finalize_transfer` up to the rename: the payload is read in buffers, counted and hashed, and becomes the content
      exactly when the map is complete, the length is right and the SHA-256 value is the announced one.
    */
    method FinalizeTransfer(contentHash: seq<Byte>, bufferBytes: nat) returns (content: Option<seq<Byte>>)
      requires layout.Valid() && Believed(View()) && bufferBytes > 0
      modifies this`payload
      ensures content.Some? <==>
        && |chunkMap.value| == layout.Count() && (forall i: nat | i < layout.Count() :: Marked(chunkMap.value, i))
        && |old(payload).value| == layout.size && Sha256Spec.Sha256(old(payload).value) == contentHash
      ensures View() == if content.Some? then AfterRename(old(View())) else old(View())
      ensures content.Some? ==> content == old(payload)
    {
      hide Sha256Spec.Sha256;
      content := None;
      var complete := AllMarked(chunkMap.value);
      if |chunkMap.value| != layout.Count() || !complete { return; }
      var hashed := ReadInBuffers(payload.value, bufferBytes);
      if |hashed| != layout.size { return; }
      if Sha256Spec.Sha256(hashed) != contentHash { return; }
      content := payload;
      payload := None;
    }
  }

  method AllMarked(markers: seq<Byte>) returns (all: bool)
    ensures all <==> forall i: nat | i < |markers| :: Marked(markers, i)
  {
    for k := 0 to |markers|
      invariant forall i: nat | i < k :: Marked(markers, i)
    {
      if markers[k] != 1 {
        assert !Marked(markers, k);
        return false;
      }
    }
    all := true;
  }

  /** What the hash loop reads, buffer by buffer. */
  method ReadInBuffers(file: seq<Byte>, bufferBytes: nat) returns (bytes: seq<Byte>)
    requires bufferBytes > 0
    ensures bytes == file
  {
    bytes := [];
    while |bytes| < |file|
      invariant bytes <= file
      decreases |file| - |bytes|
    {
      var read := Min(bufferBytes, |file| - |bytes|);
      bytes := bytes + file[|bytes|..|bytes| + read];
    }
  }
}

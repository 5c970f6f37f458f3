/** What the handlers of the transfer directory achieve when nothing interrupts them, step by step. */
module ChunkRuns {
  import opened Common
  import opened ChunkGeometry
  import opened ChunkStore

  function Repeat(ev: Event, n: nat): seq<Event> { if n == 0 then [] else [ev] + Repeat(ev, n - 1) }

  lemma {:induction false} RunAppend(a: Attachment, s: Store, x: seq<Event>, y: seq<Event>)
    requires a.Valid()
    ensures Run(a, s, x + y) == Run(a, Run(a, s, x), y)
    decreases |x|
  {
    hide Apply;
    if x == [] {
      assert x + y == y;
    } else {
      assert (x + y)[1..] == x[1..] + y;
      RunAppend(a, Apply(a, s, x[0]), x[1..], y);
    }
  }

  lemma RunOne(a: Attachment, s: Store, ev: Event)
    requires a.Valid()
    ensures Run(a, s, [ev]) == Apply(a, s, ev)
  {
    assert [ev][1..] == [];
  }

  /** `p` with its bytes from `at` on replaced by those of the attachment, up to `to`. */
  function Filled(a: Attachment, p: seq<Byte>, at: nat, to: nat): seq<Byte>
    requires at <= to <= |p| <= |a.content|
  {
    p[..at] + a.content[at..to] + p[to..]
  }

  lemma FillOne(a: Attachment, p: seq<Byte>, at: nat, to: nat)
    requires at <= to < |p| <= |a.content|
    ensures PutByte(Filled(a, p, at, to), to, a.content[to]) == Filled(a, p, at, to + 1)
  {
  }

  // ---- A write ----

  function WriteRun(a: Attachment, id: nat, i: nat): seq<Event>
    requires a.Valid()
  {
    [StartWrite(id, i)] + (Repeat(WriteByte(id), a.layout.Length(i)) + [PublishMarker(id)])
  }

  lemma OneByteWritten(a: Attachment, s: Store, p: seq<Byte>, id: nat, i: nat, done: nat)
    requires a.Valid() && i < a.layout.Count() && done < a.layout.Length(i) && a.layout.End(i) <= |p| == a.layout.size
    requires id in s.ops && s.ops[id] == Writer(i, done)
    requires s.dir.payload == Some(Filled(a, p, a.layout.Offset(i), a.layout.Offset(i) + done))
    ensures Apply(a, s, WriteByte(id))
         == s.(dir := s.dir.(payload := Some(Filled(a, p, a.layout.Offset(i), a.layout.Offset(i) + done + 1))), ops := s.ops[id := Writer(i, done + 1)])
  {
    ChunkInside(a.layout, i);
    FillOne(a, p, a.layout.Offset(i), a.layout.Offset(i) + done);
    hide Filled, PutByte;
  }

  lemma RepeatStep(a: Attachment, s: Store, ev: Event, n: nat)
    requires a.Valid() && n > 0
    ensures Run(a, s, Repeat(ev, n)) == Run(a, Apply(a, s, ev), Repeat(ev, n - 1))
  {
    hide Apply;
    assert Repeat(ev, n)[1..] == Repeat(ev, n - 1);
  }

  lemma {:induction false} BytesAreWritten(a: Attachment, s: Store, p: seq<Byte>, id: nat, i: nat, done: nat)
    requires a.Valid() && i < a.layout.Count() && done <= a.layout.Length(i) && a.layout.End(i) <= |p| == a.layout.size
    requires id in s.ops && s.ops[id] == Writer(i, done)
    requires s.dir.payload == Some(Filled(a, p, a.layout.Offset(i), a.layout.Offset(i) + done))
    ensures Run(a, s, Repeat(WriteByte(id), a.layout.Length(i) - done))
         == s.(dir := s.dir.(payload := Some(Filled(a, p, a.layout.Offset(i), a.layout.End(i)))), ops := s.ops[id := Writer(i, a.layout.Length(i))])
    decreases a.layout.Length(i) - done
  {
    hide Apply, Filled;
    if done < a.layout.Length(i) {
      OneByteWritten(a, s, p, id, i, done);
      var s1 := Apply(a, s, WriteByte(id));
      RepeatStep(a, s, WriteByte(id), a.layout.Length(i) - done);
      BytesAreWritten(a, s1, p, id, i, done + 1);
      assert s1.ops[id := Writer(i, a.layout.Length(i))] == s.ops[id := Writer(i, a.layout.Length(i))];
    } else {
      assert s.ops[id := Writer(i, done)] == s.ops;
    }
  }

  /** A write that is left alone puts exactly its slice and its marker there. */
  lemma {:induction false} WriteIsDone(a: Attachment, s: Store, id: nat, i: nat)
    requires a.Valid() && i < a.layout.Count() && id !in s.ops && Believed(s.dir) && |s.dir.payload.value| == a.layout.size
    ensures a.layout.Offset(i) <= a.layout.End(i) <= a.layout.size
    ensures Run(a, s, WriteRun(a, id, i))
         == s.(dir := s.dir.(payload := Some(Filled(a, s.dir.payload.value, a.layout.Offset(i), a.layout.End(i))),
                             chunkMap := Some(PutByte(s.dir.chunkMap.value, i, 1))))
  {
    ChunkInside(a.layout, i);
    var p := s.dir.payload.value;
    var s1 := Apply(a, s, StartWrite(id, i));
    assert s1 == s.(ops := s.ops[id := Writer(i, 0)]);
    assert Filled(a, p, a.layout.Offset(i), a.layout.Offset(i) + 0) == p;
    BytesAreWritten(a, s1, p, id, i, 0);
    var bytes := Repeat(WriteByte(id), a.layout.Length(i));
    var s2 := Run(a, s1, bytes);
    var s3 := Apply(a, s2, PublishMarker(id));
    assert s2.ops - {id} == s.ops;
    hide Apply, Filled, PutByte;
    RunOne(a, s, StartWrite(id, i));
    RunOne(a, s2, PublishMarker(id));
    RunAppend(a, s1, bytes, [PublishMarker(id)]);
    RunAppend(a, s, [StartWrite(id, i)], bytes + [PublishMarker(id)]);
  }

  // ---- A recovery ----

  function PartRun(a: Attachment, id: nat, i: nat): seq<Event>
    requires a.Valid()
  {
    [StartPart(id, i)] + (Repeat(CopyByte(id), a.layout.Length(i)) + [FinishPart(id, true)])
  }

  lemma OneByteCopied(a: Attachment, s: Store, p: seq<Byte>, id: nat, markers: seq<Byte>, i: nat, done: nat)
    requires a.Valid() && i < a.layout.Count() && done < a.layout.Length(i) && a.layout.End(i) <= |p| == a.layout.size
    requires id in s.ops && s.ops[id] == Migrating(markers, Some((i, done)))
    requires s.dir.payload == Some(Filled(a, p, a.layout.Offset(i), a.layout.Offset(i) + done))
    ensures Apply(a, s, CopyByte(id))
         == s.(dir := s.dir.(payload := Some(Filled(a, p, a.layout.Offset(i), a.layout.Offset(i) + done + 1))),
               ops := s.ops[id := Migrating(markers, Some((i, done + 1)))])
  {
    ChunkInside(a.layout, i);
    FillOne(a, p, a.layout.Offset(i), a.layout.Offset(i) + done);
    hide Filled, PutByte;
  }

  lemma {:induction false} BytesAreCopied(a: Attachment, s: Store, p: seq<Byte>, id: nat, markers: seq<Byte>, i: nat, done: nat)
    requires a.Valid() && i < a.layout.Count() && done <= a.layout.Length(i) && a.layout.End(i) <= |p| == a.layout.size
    requires id in s.ops && s.ops[id] == Migrating(markers, Some((i, done)))
    requires s.dir.payload == Some(Filled(a, p, a.layout.Offset(i), a.layout.Offset(i) + done))
    ensures Run(a, s, Repeat(CopyByte(id), a.layout.Length(i) - done))
         == s.(dir := s.dir.(payload := Some(Filled(a, p, a.layout.Offset(i), a.layout.End(i)))),
               ops := s.ops[id := Migrating(markers, Some((i, a.layout.Length(i))))])
    decreases a.layout.Length(i) - done
  {
    hide Apply, Filled;
    if done < a.layout.Length(i) {
      OneByteCopied(a, s, p, id, markers, i, done);
      var s1 := Apply(a, s, CopyByte(id));
      RepeatStep(a, s, CopyByte(id), a.layout.Length(i) - done);
      BytesAreCopied(a, s1, p, id, markers, i, done + 1);
      var end := Migrating(markers, Some((i, a.layout.Length(i))));
      assert s1.ops[id := end] == s.ops[id := end];
    } else {
      assert s.ops[id := s.ops[id]] == s.ops;
    }
  }

  /** A legacy part of the right size is copied into its slice, marked and removed. */
  lemma {:induction false} PartIsMigrated(a: Attachment, s: Store, id: nat, markers: seq<Byte>, i: nat)
    requires a.Valid() && id in s.ops && s.ops[id] == Migrating(markers, None) && |markers| == a.layout.Count()
    requires s.dir.payload.Some? && |s.dir.payload.value| == a.layout.size && IsPart(a, s.dir, i)
    ensures a.layout.Offset(i) <= a.layout.End(i) <= a.layout.size
    ensures Run(a, s, PartRun(a, id, i))
         == s.(dir := s.dir.(payload := Some(Filled(a, s.dir.payload.value, a.layout.Offset(i), a.layout.End(i))), parts := s.dir.parts - {i}),
               ops := s.ops[id := Migrating(markers[i := 1], None)])
  {
    ChunkInside(a.layout, i);
    var p := s.dir.payload.value;
    var s1 := Apply(a, s, StartPart(id, i));
    assert s1 == s.(ops := s.ops[id := Migrating(markers, Some((i, 0)))]);
    assert Filled(a, p, a.layout.Offset(i), a.layout.Offset(i) + 0) == p;
    BytesAreCopied(a, s1, p, id, markers, i, 0);
    var bytes := Repeat(CopyByte(id), a.layout.Length(i));
    var s2 := Run(a, s1, bytes);
    FinishesPart(a, s2, id, markers, i);
    hide Apply, Filled;
    var s3 := Apply(a, s2, FinishPart(id, true));
    var end := Migrating(markers[i := 1], None);
    assert s3.ops == s.ops[id := end];
    RunOne(a, s, StartPart(id, i));
    RunOne(a, s2, FinishPart(id, true));
    RunAppend(a, s1, bytes, [FinishPart(id, true)]);
    RunAppend(a, s, [StartPart(id, i)], bytes + [FinishPart(id, true)]);
  }

  lemma FinishesPart(a: Attachment, s: Store, id: nat, markers: seq<Byte>, i: nat)
    requires a.Valid() && id in s.ops && s.ops[id] == Migrating(markers, Some((i, a.layout.Length(i)))) && i < |markers|
    ensures Apply(a, s, FinishPart(id, true)) == s.(dir := s.dir.(parts := s.dir.parts - {i}), ops := s.ops[id := Migrating(markers[i := 1], None)])
  {
  }

  lemma {:induction false} MapIsPublished(a: Attachment, s: Store, id: nat, markers: seq<Byte>, published: nat)
    requires a.Valid() && id in s.ops && s.ops[id] == Publishing(markers, published) && published <= |markers|
    requires s.dir.chunkMap == Some(markers[..published])
    ensures Run(a, s, Repeat(PublishByte(id), |markers| - published))
         == s.(dir := s.dir.(chunkMap := Some(markers)), ops := s.ops[id := Publishing(markers, |markers|)])
    decreases |markers| - published
  {
    if published < |markers| {
      var s1 := Apply(a, s, PublishByte(id));
      assert PutByte(markers[..published], published, markers[published]) == markers[..published + 1];
      RepeatStep(a, s, PublishByte(id), |markers| - published);
      MapIsPublished(a, s1, id, markers, published + 1);
      assert s1.ops[id := Publishing(markers, |markers|)] == s.ops[id := Publishing(markers, |markers|)];
    } else {
      assert markers[..published] == markers;
      assert s.ops[id := s.ops[id]] == s.ops;
    }
    hide Apply;
  }

  /** The parts in `order` are migrated one after the other. */
  function PartsRun(a: Attachment, id: nat, order: seq<nat>): seq<Event>
    requires a.Valid()
  {
    if order == [] then [] else PartRun(a, id, order[0]) + PartsRun(a, id, order[1..])
  }

  ghost predicate AllParts(a: Attachment, d: Directory, order: seq<nat>)
    requires a.Valid()
  {
    && (forall k | 0 <= k < |order| :: IsPart(a, d, order[k]))
    && forall j, k | 0 <= j < k < |order| :: order[j] != order[k]
  }

  function FilledAll(a: Attachment, p: seq<Byte>, order: seq<nat>): (r: seq<Byte>)
    requires a.Valid() && |p| == a.layout.size && forall k | 0 <= k < |order| :: order[k] < a.layout.Count()
    ensures |r| == |p|
    decreases |order|
  {
    if order == [] then p
    else
      ChunkInside(a.layout, order[0]);
      FilledAll(a, Filled(a, p, a.layout.Offset(order[0]), a.layout.End(order[0])), order[1..])
  }

  function MarkedAll(markers: seq<Byte>, order: seq<nat>): (r: seq<Byte>)
    requires forall k | 0 <= k < |order| :: order[k] < |markers|
    ensures |r| == |markers|
    ensures forall i | 0 <= i < |markers| :: r[i] == if i in order then 1 else markers[i]
    decreases |order|
  {
    if order == [] then markers else MarkedAll(markers[order[0] := 1], order[1..])
  }

  lemma RestAreParts(a: Attachment, d: Directory, d': Directory, order: seq<nat>)
    requires a.Valid() && order != [] && AllParts(a, d, order) && d'.parts == d.parts - {order[0]}
    ensures IsPart(a, d, order[0]) && AllParts(a, d', order[1..])
  {
    forall k | 0 <= k < |order| - 1 ensures IsPart(a, d', order[1..][k]) { assert IsPart(a, d, order[k + 1]) && order[k + 1] != order[0]; }
  }

  lemma SamePartsRemain(a: Attachment, d: Directory, d': Directory, order: seq<nat>)
    requires a.Valid() && AllParts(a, d, order) && d'.parts == d.parts
    ensures AllParts(a, d', order) && forall k | 0 <= k < |order| :: order[k] < a.layout.Count()
  {
    forall k | 0 <= k < |order| ensures IsPart(a, d', order[k]) && order[k] < a.layout.Count() { assert IsPart(a, d, order[k]); }
  }

  lemma RunNothing(a: Attachment, s: Store)
    requires a.Valid()
    ensures Run(a, s, []) == s
  {
  }

  lemma TakenAway(parts: map<nat, seq<Byte>>, order: seq<nat>)
    ensures order == [] ==> parts - (set i | i in order) == parts
    ensures order != [] ==> parts - {order[0]} - (set i | i in order[1..]) == parts - set i | i in order
  {
    if order != [] { assert (set i | i in order) == {order[0]} + set i | i in order[1..]; }
  }

  lemma {:induction false} PartsAreMigrated(a: Attachment, s: Store, id: nat, markers: seq<Byte>, order: seq<nat>)
    requires a.Valid() && id in s.ops && s.ops[id] == Migrating(markers, None) && |markers| == a.layout.Count()
    requires s.dir.payload.Some? && |s.dir.payload.value| == a.layout.size && AllParts(a, s.dir, order)
    ensures Run(a, s, PartsRun(a, id, order))
         == s.(dir := s.dir.(payload := Some(FilledAll(a, s.dir.payload.value, order)), parts := s.dir.parts - set i | i in order),
               ops := s.ops[id := Migrating(MarkedAll(markers, order), None)])
    decreases |order|
  {
    TakenAway(s.dir.parts, order);
    if order == [] {
      RunNothing(a, s);
      assert s.ops[id := s.ops[id]] == s.ops;
    } else {
      var i, rest := order[0], order[1..];
      SamePartsRemain(a, s.dir, s.dir, order);
      RestAreParts(a, s.dir, s.dir.(parts := s.dir.parts - {i}), order);
      PartIsMigrated(a, s, id, markers, i);
      var s1 := Run(a, s, PartRun(a, id, i));
      RunAppend(a, s, PartRun(a, id, i), PartsRun(a, id, rest));
      SamePartsRemain(a, s.dir.(parts := s.dir.parts - {i}), s1.dir, rest);
      hide Run, PartRun, Filled, AllParts, IsPart, Apply;
      PartsAreMigrated(a, s1, id, markers[i := 1], rest);
      var end := Migrating(MarkedAll(markers, order), None);
      assert s1.ops[id := end] == s.ops[id := end];
    }
  }

  function RecoveryRun(a: Attachment, id: nat, order: seq<nat>): seq<Event>
    requires a.Valid()
  {
    [StartRecovery(id)] + ([OpenPayload(id)] + ([ExtendPayload(id)] + (PartsRun(a, id, order)
    + ([TruncateMap(id)] + (Repeat(PublishByte(id), a.layout.Count()) + [FinishRecovery(id)])))))
  }

  /** What a recovery finds of the payload, brought to the size of the file. */
  function Sized(a: Attachment, d: Directory): (p: seq<Byte>)
    requires a.Valid()
    ensures |p| == a.layout.size
  {
    SetLen(if d.payload.Some? then d.payload.value else [], a.layout.size)
  }

  /** The directory that a recovery of the parts in `order` leaves. */
  function Recovered(a: Attachment, d: Directory, order: seq<nat>): Directory
    requires a.Valid() && forall k | 0 <= k < |order| :: order[k] < a.layout.Count()
  {
    Directory(Some(FilledAll(a, Sized(a, d), order)), Some(MarkedAll(Zeros(a.layout.Count()), order)), d.parts - set i | i in order)
  }

  /** The second half of a recovery: the map is written and the handler ends. */
  lemma {:induction false} MapIsDone(a: Attachment, s: Store, id: nat, markers: seq<Byte>)
    requires a.Valid() && id in s.ops && s.ops[id] == Migrating(markers, None)
    ensures Run(a, s, [TruncateMap(id)] + (Repeat(PublishByte(id), |markers|) + [FinishRecovery(id)]))
         == s.(dir := s.dir.(chunkMap := Some(markers)), ops := s.ops - {id})
  {
    TruncatesMap(a, s, id, markers);
    var s1 := Apply(a, s, TruncateMap(id));
    MapIsPublished(a, s1, id, markers, 0);
    var bytes := Repeat(PublishByte(id), |markers|);
    var s2 := Run(a, s1, bytes);
    FinishesRecovery(a, s2, id, markers);
    hide Apply;
    assert s2.ops - {id} == s.ops - {id};
    RunOne(a, s2, FinishRecovery(id));
    RunAppend(a, s1, bytes, [FinishRecovery(id)]);
    RunOne(a, s, TruncateMap(id));
    RunAppend(a, s, [TruncateMap(id)], bytes + [FinishRecovery(id)]);
  }

  /**
    A recovery that is left alone makes payload and map anew: the payload has the size of the file, the parts it was given are in
    their slices and gone, and these alone are marked.
  */
  lemma {:induction false} RecoveryIsDone(a: Attachment, s: Store, id: nat, order: seq<nat>)
    requires a.Valid() && id !in s.ops && !Believed(s.dir) && AllParts(a, s.dir, order)
    ensures forall k | 0 <= k < |order| :: order[k] < a.layout.Count()
    ensures Run(a, s, RecoveryRun(a, id, order)) == s.(dir := Recovered(a, s.dir, order))
  {
    hide Apply, FilledAll, SetLen, AllParts, Run, PartsRun, Repeat;
    var zeros := Zeros(a.layout.Count());
    RecoveryBegins(a, s, id);
    var s3 := Apply(a, Apply(a, Apply(a, s, StartRecovery(id)), OpenPayload(id)), ExtendPayload(id));
    SamePartsRemain(a, s.dir, s3.dir, order);
    var markers := MarkedAll(zeros, order);
    PartsAreMigrated(a, s3, id, zeros, order);
    var s4 := Run(a, s3, PartsRun(a, id, order));
    MapIsDone(a, s4, id, markers);
    assert s4.ops - {id} == s.ops;
    var tail := [TruncateMap(id)] + (Repeat(PublishByte(id), a.layout.Count()) + [FinishRecovery(id)]);
    RunAppend(a, s3, PartsRun(a, id, order), tail);
    ThreeSteps(a, s, StartRecovery(id), OpenPayload(id), ExtendPayload(id), PartsRun(a, id, order) + tail);
  }

  lemma ThreeSteps(a: Attachment, s: Store, x: Event, y: Event, z: Event, rest: seq<Event>)
    requires a.Valid()
    ensures Run(a, s, [x] + ([y] + ([z] + rest))) == Run(a, Apply(a, Apply(a, Apply(a, s, x), y), z), rest)
  {
    hide Apply;
    RunOne(a, s, x);
    RunAppend(a, s, [x], [y] + ([z] + rest));
    var s1 := Apply(a, s, x);
    RunOne(a, s1, y);
    RunAppend(a, s1, [y], [z] + rest);
    var s2 := Apply(a, s1, y);
    RunOne(a, s2, z);
    RunAppend(a, s2, [z], rest);
  }

  lemma RecoveryBegins(a: Attachment, s: Store, id: nat)
    requires a.Valid() && id !in s.ops && !Believed(s.dir)
    ensures Apply(a, Apply(a, Apply(a, s, StartRecovery(id)), OpenPayload(id)), ExtendPayload(id))
         == s.(dir := s.dir.(payload := Some(Sized(a, s.dir))), ops := s.ops[id := Migrating(Zeros(a.layout.Count()), None)])
  {
    var s1 := Apply(a, s, StartRecovery(id));
    assert s1 == s.(ops := s.ops[id := Checked]);
    var s2 := Apply(a, s1, OpenPayload(id));
    assert s2.ops == s.ops[id := Opened];
  }

  lemma TruncatesMap(a: Attachment, s: Store, id: nat, markers: seq<Byte>)
    requires a.Valid() && id in s.ops && s.ops[id] == Migrating(markers, None)
    ensures Apply(a, s, TruncateMap(id)) == s.(dir := s.dir.(chunkMap := Some(markers[..0])), ops := s.ops[id := Publishing(markers, 0)])
  {
  }

  lemma FinishesRecovery(a: Attachment, s: Store, id: nat, markers: seq<Byte>)
    requires a.Valid() && id in s.ops && s.ops[id] == Publishing(markers, |markers|)
    ensures Apply(a, s, FinishRecovery(id)) == s.(ops := s.ops - {id})
  {
  }

  // ---- A finalize ----

  /** The payload is moved away exactly when no handler is in flight, both files are there and every chunk is marked. */
  lemma RenamesExactlyWhen(a: Attachment, s: Store)
    requires a.Valid()
    ensures Apply(a, s, Rename) != s <==>
      && s.ops == map[] && s.dir.payload.Some? && s.dir.chunkMap.Some?
      && |s.dir.chunkMap.value| == a.layout.Count() && forall i | 0 <= i < |s.dir.chunkMap.value| :: s.dir.chunkMap.value[i] == 1
    ensures Apply(a, s, Rename) != s ==> Apply(a, s, Rename) == s.(dir := s.dir.(payload := None))
  {
    if s.ops == map[] && Believed(s.dir) && |s.dir.chunkMap.value| == a.layout.Count() {
      var markers := s.dir.chunkMap.value;
      assert Full(a, s.dir) <==> forall i | 0 <= i < |markers| :: markers[i] == 1 by {
        forall i | 0 <= i < |markers| ensures Marked(markers, i) <==> markers[i] == 1 { }
      }
    }
  }

  function RemovalRun(order: seq<nat>): seq<Event> { if order == [] then [] else [RemovePart(order[0])] + RemovalRun(order[1..]) }

  lemma {:induction false} PartsAreRemoved(a: Attachment, s: Store, order: seq<nat>)
    requires a.Valid() && s.dir.payload.None?
    ensures Run(a, s, RemovalRun(order)) == s.(dir := s.dir.(parts := s.dir.parts - set i | i in order))
    decreases |order|
  {
    if order == [] {
      assert s.dir.parts - {} == s.dir.parts;
    } else {
      var s1 := Apply(a, s, RemovePart(order[0]));
      assert RemovalRun(order)[1..] == RemovalRun(order[1..]);
      PartsAreRemoved(a, s1, order[1..]);
      assert (set x | x in order) == {order[0]} + set x | x in order[1..];
    }
    hide Apply;
  }

  /** The process can stop at any moment: every handler is gone and the files stay as they are. */
  lemma StopKeepsFiles(a: Attachment, s: Store)
    requires a.Valid()
    ensures Apply(a, s, Stop) == Store(s.dir, map[])
  {
  }

  /** A finalize that is left alone moves the payload away and empties the directory. */
  lemma {:induction false} FinalizeIsDone(a: Attachment, s: Store, order: seq<nat>)
    requires a.Valid() && Apply(a, s, Rename) != s && forall i | i in s.dir.parts :: i in order
    ensures Run(a, s, [Rename] + ([RemoveMap] + RemovalRun(order))) == s.(dir := Directory(None, None, map[]))
  {
    RenamesExactlyWhen(a, s);
    var s1 := Apply(a, s, Rename);
    var s2 := Apply(a, s1, RemoveMap);
    assert s2.dir == s.dir.(payload := None, chunkMap := None);
    PartsAreRemoved(a, s2, order);
    assert s2.dir.parts - (set i | i in order) == map[];
    hide Apply;
    RunOne(a, s, Rename);
    RunOne(a, s1, RemoveMap);
    RunAppend(a, s1, [RemoveMap], RemovalRun(order));
    RunAppend(a, s, [Rename], [RemoveMap] + RemovalRun(order));
  }
}

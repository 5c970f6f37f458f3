/**
  What two finalize calls can do to each other: integrity while they stay apart, the run that loses the file, and the
  exact steps that let a second call start beside a first one.
*/
module FinalizeRace {
  import opened Common
  import opened ChunkGeometry
  import opened Receiver
  import opened TransferBooks

  ghost predicate Doubled(t: Transfer) {
    exists c, d :: c in t.calls && d in t.calls && c != d && Finalizing(t.calls[c]) && Finalizing(t.calls[d])
  }

  /** No two finalize calls are ever in flight together. */
  ghost predicate NeverDoubled(m: Manifest, t: Transfer, evs: seq<Event>)
    requires m.Valid()
    decreases |evs|
  {
    evs != [] ==> !Doubled(Apply(m, t, evs[0])) && NeverDoubled(m, Apply(m, t, evs[0]), evs[1..])
  }

  // ---- Integrity ----

  type Wanted = seq<Byte> -> bool

  predicate GoodContent(want: Wanted, s: Sink) { s.Valid() && s.content.Some? && want(s.files[s.content.value]) }

  /** The opened file is the payload, or the payload is gone; and while the directory is there all chunks are marked. */
  predicate Opened(m: Manifest, s: Sink, f: nat)
    requires m.Valid()
  {
    f < |s.files| && (s.payload.None? || s.payload == Some(f)) && (s.directory ==> m.Indices() <= s.stored)
  }

  /** What a finalize call may rely on, when only files that `want` accepts pass its check. */
  predicate CallIntact(m: Manifest, want: Wanted, s: Sink, call: Call)
    requires m.Valid()
  {
    match call
    case Reading(_, f, hashed) => Opened(m, s, f) && hashed <= s.files[f]
    case Checked(_, f) => Opened(m, s, f) && want(s.files[f])
    case Removed(_, f) => Opened(m, s, f) && want(s.files[f])
    case Renamed(_) => GoodContent(want, s)
    case Finished(_, ok) => ok ==> GoodContent(want, s)
    case _ => true
  }

  ghost predicate Intact(m: Manifest, want: Wanted, t: Transfer)
    requires m.Valid()
  {
    && t.sink.Valid() && !Doubled(t)
    && (forall c | c in t.calls :: CallIntact(m, want, t.sink, t.calls[c]) && (Finalizing(t.calls[c]) ==> !t.phase.Completed?))
    && (!t.sink.directory ==> t.sink.payload.None?) && (t.sink.content.Some? ==> t.sink.content != t.sink.payload)
    && (t.phase.Completed? ==> GoodContent(want, t.sink))
  }

  /** A call has the file open that `name` stands for. */
  predicate HasOpen(call: Call, name: Option<nat>) {
    (call.Reading? || call.Checked? || call.Removed?) && name == Some(call.file)
  }

  /** Writing this chunk changes no file that a finalize call has open. */
  ghost predicate Spares(m: Manifest, t: Transfer, i: nat)
    requires m.Valid()
  {
    Storable(m, t, i) ==>
      || (forall c | c in t.calls :: !HasOpen(t.calls[c], t.sink.payload))
      || Slice(m.layout, t.sink.files[t.sink.payload.value], i) == t.processing[i].body
  }

  /** The step does not write into an open file, and a file that passes the check is wanted. */
  ghost predicate Harmless(m: Manifest, want: Wanted, t: Transfer, ev: Event)
    requires m.Valid()
  {
    match ev
    case PutByte(i, _) => Spares(m, t, i)
    case Wrote(i, _) => Spares(m, t, i)
    case CheckHash(c) => c in t.calls && t.calls[c].Reading? && m.Good(t.calls[c].hashed) ==> want(t.calls[c].hashed)
    case _ => true
  }

  lemma QueueStepKeepsIntact(m: Manifest, want: Wanted, t: Transfer, ev: Event)
    requires m.Valid() && Intact(m, want, t) && IsQueueStep(ev)
    ensures Intact(m, want, Apply(m, t, ev))
  {
    QueueStepFrame(m, t, ev);
    hide Apply, CallIntact, GoodContent;
  }

  /** Putting bytes where they already are changes nothing. */
  lemma SpliceSame(p: seq<Byte>, at: nat, body: seq<Byte>)
    requires at + |body| <= |p| && p[at..at + |body|] == body
    ensures Splice(p, at, body) == p
    ensures forall k: nat | k < |body| :: p[at + k := body[k]] == p
  {
    forall k: nat | k < |body| ensures p[at + k := body[k]] == p { assert p[at..at + |body|][k] == p[at + k]; }
  }

  lemma SameBytes(m: Manifest, t: Transfer, i: nat)
    requires m.Valid() && Storable(m, t, i) && Slice(m.layout, t.sink.files[t.sink.payload.value], i) == t.processing[i].body
    ensures WrittenSink(m, t, i) == t.sink.(stored := t.sink.stored + {i})
    ensures forall at :: PutOneByte(m, t, i, at) == t
  {
    ChunkInside(m.layout, i);
    var p, body := t.sink.files[t.sink.payload.value], t.processing[i].body;
    SpliceSame(p, m.layout.Offset(i), body);
    hide Splice;
    assert t.sink.files[t.sink.payload.value := p] == t.sink.files;
  }

  /** A sink whose payload alone has other bytes. */
  predicate OtherPayload(s: Sink, s': Sink) {
    && s.Valid() && s.payload.Some? && |s'.files| == |s.files| && s' == s.(files := s'.files, stored := s'.stored) && s.stored <= s'.stored
    && forall f | 0 <= f < |s.files| && s.payload != Some(f) :: s'.files[f] == s.files[f]
  }

  lemma OtherPayloadKeepsCall(m: Manifest, want: Wanted, s: Sink, s': Sink, call: Call)
    requires m.Valid() && OtherPayload(s, s') && CallIntact(m, want, s, call) && !HasOpen(call, s.payload)
    requires s.content.Some? ==> s.content != s.payload
    ensures CallIntact(m, want, s', call)
  {
  }

  lemma OtherPayloadKeepsIntact(m: Manifest, want: Wanted, t: Transfer, s': Sink)
    requires m.Valid() && Intact(m, want, t) && OtherPayload(t.sink, s') && forall c | c in t.calls :: !HasOpen(t.calls[c], t.sink.payload)
    ensures Intact(m, want, t.(sink := s'))
  {
    forall c | c in t.calls ensures CallIntact(m, want, s', t.calls[c]) { OtherPayloadKeepsCall(m, want, t.sink, s', t.calls[c]); }
    hide CallIntact;
  }

  lemma MoreStoredKeepsIntact(m: Manifest, want: Wanted, t: Transfer, stored: set<nat>)
    requires m.Valid() && Intact(m, want, t) && t.sink.stored <= stored
    ensures Intact(m, want, t.(sink := t.sink.(stored := stored)))
  {
  }

  lemma PutByteKeepsIntact(m: Manifest, want: Wanted, t: Transfer, i: nat, at: nat)
    requires m.Valid() && Intact(m, want, t) && Spares(m, t, i)
    ensures Intact(m, want, Apply(m, t, PutByte(i, at)))
  {
    hide Intact, CallIntact;
    if Storable(m, t, i) {
      var t' := PutOneByte(m, t, i, at);
      if Slice(m.layout, t.sink.files[t.sink.payload.value], i) == t.processing[i].body { SameBytes(m, t, i); }
      else { OtherPayloadKeepsIntact(m, want, t, t'.sink); }
    }
  }

  lemma WrittenSinkKeepsIntact(m: Manifest, want: Wanted, t: Transfer, i: nat)
    requires m.Valid() && Intact(m, want, t) && Spares(m, t, i) && Storable(m, t, i)
    ensures Intact(m, want, t.(sink := WrittenSink(m, t, i)))
  {
    hide Intact, CallIntact, Splice;
    if Slice(m.layout, t.sink.files[t.sink.payload.value], i) == t.processing[i].body {
      SameBytes(m, t, i);
      MoreStoredKeepsIntact(m, want, t, t.sink.stored + {i});
    } else {
      OtherPayloadKeepsIntact(m, want, t, WrittenSink(m, t, i));
    }
  }

  lemma DiscardKeepsIntact(m: Manifest, want: Wanted, t: Transfer)
    requires m.Valid() && Intact(m, want, t)
    ensures Intact(m, want, t.(sink := t.sink.Discarded()))
  {
  }

  lemma WroteKeepsIntact(m: Manifest, want: Wanted, t: Transfer, i: nat, ok: bool)
    requires m.Valid() && Intact(m, want, t) && Spares(m, t, i)
    ensures Intact(m, want, Apply(m, t, Wrote(i, ok)))
  {
    hide CallIntact, GoodContent;
    if Storable(m, t, i) && ok {
      WrittenSinkKeepsIntact(m, want, t, i);
      var t1 := t.(sink := WrittenSink(m, t, i));
      DiscardKeepsIntact(m, want, t1);
      hide WrittenSink;
    }
  }

  lemma StateStepKeepsIntact(m: Manifest, want: Wanted, t: Transfer, ev: Event)
    requires m.Valid() && Intact(m, want, t) && IsStateStep(ev) && !Doubled(Apply(m, t, ev))
    ensures Intact(m, want, Apply(m, t, ev))
  {
    DiscardKeepsIntact(m, want, t);
    hide CallIntact, GoodContent;
  }

  lemma ListStepKeepsIntact(m: Manifest, want: Wanted, t: Transfer, ev: Event)
    requires m.Valid() && Intact(m, want, t) && IsListStep(ev) && !Doubled(Apply(m, t, ev))
    ensures Intact(m, want, Apply(m, t, ev))
  {
    hide GoodContent;
  }

  lemma HashBufferKeepsIntact(m: Manifest, want: Wanted, t: Transfer, c: nat, length: nat)
    requires m.Valid() && Intact(m, want, t) && !Doubled(Apply(m, t, HashBuffer(c, length)))
    ensures Intact(m, want, Apply(m, t, HashBuffer(c, length)))
  {
    hide GoodContent;
    if Calling(t, c) && t.calls[c].Reading? {
      var Reading(_, f, done) := t.calls[c];
      var bytes := t.sink.files[f];
      var upTo := Min(|bytes|, |done| + length);
      if upTo > |done| { assert done + bytes[|done|..upTo] == bytes[..upTo]; }
    }
  }

  lemma CheckHashKeepsIntact(m: Manifest, want: Wanted, t: Transfer, c: nat)
    requires m.Valid() && Intact(m, want, t) && !Doubled(Apply(m, t, CheckHash(c))) && Harmless(m, want, t, CheckHash(c))
    ensures Intact(m, want, Apply(m, t, CheckHash(c)))
  {
    hide GoodContent;
    if Calling(t, c) && t.calls[c].Reading? {
      var Reading(_, f, done) := t.calls[c];
      if |done| >= |t.sink.files[f]| { assert done == t.sink.files[f]; }
    }
  }

  /** Two calls of which only one may be finalizing. */
  lemma OnlyOne(t: Transfer, c: nat)
    requires !Doubled(t) && c in t.calls && Finalizing(t.calls[c])
    ensures forall d | d in t.calls && d != c :: !Finalizing(t.calls[d])
  {
  }

  lemma PreparedKeepsContent(m: Manifest, want: Wanted, s: Sink)
    requires s.Valid() && (s.content.Some? ==> s.content != s.payload)
    ensures var s' := Prepared(m, s); s'.Valid() && s'.content == s.content && (s.content.Some? ==> s'.content != s'.payload)
    ensures GoodContent(want, s) <==> GoodContent(want, Prepared(m, s))
  {
  }

  lemma OpenKeepsIntact(m: Manifest, want: Wanted, t: Transfer, c: nat)
    requires m.Valid() && Intact(m, want, t) && !Doubled(Apply(m, t, Open(c)))
    ensures Intact(m, want, Apply(m, t, Open(c)))
  {
    if Calling(t, c) && t.calls[c].Starting? {
      OnlyOne(t, c);
      PreparedKeepsContent(m, want, t.sink);
      hide GoodContent;
    }
  }

  lemma RemoveOldKeepsIntact(m: Manifest, want: Wanted, t: Transfer, c: nat)
    requires m.Valid() && Intact(m, want, t) && !Doubled(Apply(m, t, RemoveOld(c)))
    ensures Intact(m, want, Apply(m, t, RemoveOld(c)))
  {
    if Calling(t, c) && Finalizing(t.calls[c]) { OnlyOne(t, c); }
  }

  lemma RenameKeepsIntact(m: Manifest, want: Wanted, t: Transfer, c: nat)
    requires m.Valid() && Intact(m, want, t) && !Doubled(Apply(m, t, Rename(c)))
    ensures Intact(m, want, Apply(m, t, Rename(c)))
  {
    if Calling(t, c) && Finalizing(t.calls[c]) { OnlyOne(t, c); }
  }

  lemma CleanUpKeepsIntact(m: Manifest, want: Wanted, t: Transfer, c: nat, removed: bool)
    requires m.Valid() && Intact(m, want, t) && !Doubled(Apply(m, t, CleanUp(c, removed)))
    ensures Intact(m, want, Apply(m, t, CleanUp(c, removed)))
  {
    if Calling(t, c) && Finalizing(t.calls[c]) { OnlyOne(t, c); }
  }

  lemma BreakKeepsIntact(m: Manifest, want: Wanted, t: Transfer, c: nat)
    requires m.Valid() && Intact(m, want, t) && !Doubled(Apply(m, t, Break(c)))
    ensures Intact(m, want, Apply(m, t, Break(c)))
  {
    if Calling(t, c) && Finalizing(t.calls[c]) { OnlyOne(t, c); }
  }

  lemma ReturnKeepsIntact(m: Manifest, want: Wanted, t: Transfer, c: nat)
    requires m.Valid() && Intact(m, want, t) && !Doubled(Apply(m, t, Return(c)))
    ensures Intact(m, want, Apply(m, t, Return(c)))
  {
    if Calling(t, c) && Finalizing(t.calls[c]) { OnlyOne(t, c); }
  }

  lemma ReportKeepsIntact(m: Manifest, want: Wanted, t: Transfer, c: nat, ok: bool)
    requires m.Valid() && Intact(m, want, t) && !Doubled(Apply(m, t, Report(c, ok)))
    ensures Intact(m, want, Apply(m, t, Report(c, ok)))
  {
    if Calling(t, c) && Finalizing(t.calls[c]) { OnlyOne(t, c); }
  }

  lemma StepKeepsIntact(m: Manifest, want: Wanted, t: Transfer, ev: Event)
    requires m.Valid() && Intact(m, want, t) && !Doubled(Apply(m, t, ev)) && Harmless(m, want, t, ev)
    ensures Intact(m, want, Apply(m, t, ev))
  {
    hide Intact, Apply, Doubled;
    match ev
    case Wrote(i, ok) => WroteKeepsIntact(m, want, t, i, ok);
    case PutByte(i, at) => PutByteKeepsIntact(m, want, t, i, at);
    case HashBuffer(c, length) => HashBufferKeepsIntact(m, want, t, c, length);
    case CheckHash(c) => CheckHashKeepsIntact(m, want, t, c);
    case Open(c) => OpenKeepsIntact(m, want, t, c);
    case Break(c) => BreakKeepsIntact(m, want, t, c);
    case RemoveOld(c) => RemoveOldKeepsIntact(m, want, t, c);
    case Rename(c) => RenameKeepsIntact(m, want, t, c);
    case CleanUp(c, removed) => CleanUpKeepsIntact(m, want, t, c, removed);
    case Return(c) => ReturnKeepsIntact(m, want, t, c);
    case Report(c, ok) => ReportKeepsIntact(m, want, t, c, ok);
    case _ =>
      if IsQueueStep(ev) { QueueStepKeepsIntact(m, want, t, ev); }
      else if IsListStep(ev) { ListStepKeepsIntact(m, want, t, ev); }
      else { StateStepKeepsIntact(m, want, t, ev); }
  }

  /** A chunk whose index is not marked is not written into a file that is being finalized. */
  lemma UnmarkedSpares(m: Manifest, want: Wanted, t: Transfer, i: nat)
    requires m.Valid() && Intact(m, want, t) && (Storable(m, t, i) ==> i !in t.sink.stored)
    ensures Spares(m, t, i)
  {
    if Storable(m, t, i) {
      assert m.Has(i) && i in m.Indices();
      forall c | c in t.calls ensures !HasOpen(t.calls[c], t.sink.payload) { assert CallIntact(m, want, t.sink, t.calls[c]); }
    }
  }

  /** Nor is one that is still on the installed list, when calls go by that list. */
  lemma PacedSpares(m: Manifest, want: Wanted, t: Transfer, i: nat)
    requires m.Valid() && Intact(m, want, t) && Paced(m, t)
    ensures Spares(m, t, i)
  {
    if Storable(m, t, i) && i in t.sink.stored {
      forall c | c in t.calls ensures !HasOpen(t.calls[c], t.sink.payload) { }
    } else {
      UnmarkedSpares(m, want, t, i);
    }
  }

  function WhatItSays(m: Manifest): Wanted { (b: seq<Byte>) => m.Good(b) }

  /** No step of the run writes into a file that a finalize call has open. */
  ghost predicate AllSpared(m: Manifest, t: Transfer, evs: seq<Event>)
    requires m.Valid()
    decreases |evs|
  {
    evs != [] ==> (evs[0].PutByte? || evs[0].Wrote? ==> Spares(m, t, evs[0].index)) && AllSpared(m, Apply(m, t, evs[0]), evs[1..])
  }

  lemma {:induction false} SparedKeepsIntact(m: Manifest, t: Transfer, evs: seq<Event>)
    requires m.Valid() && Intact(m, WhatItSays(m), t) && NeverDoubled(m, t, evs) && AllSpared(m, t, evs)
    ensures Intact(m, WhatItSays(m), Run(m, t, evs))
    decreases |evs|
  {
    hide Intact, Apply, Spares;
    if evs != [] {
      StepKeepsIntact(m, WhatItSays(m), t, evs[0]);
      SparedKeepsIntact(m, Apply(m, t, evs[0]), evs[1..]);
    }
  }

  /** While finalize calls stay apart and no file changes under them, "completed" means that what is published is as the manifest says. */
  lemma {:induction false} SparedHasIntegrity(m: Manifest, t0: Transfer, evs: seq<Event>)
    requires m.Valid() && JustAccepted(m, t0) && NeverDoubled(m, t0, evs) && AllSpared(m, t0, evs)
    ensures var t := Run(m, t0, evs);
      t.phase.Completed? ==>
        && t.sink.content.Some? && t.sink.content.value < |t.sink.files|
        && |t.sink.files[t.sink.content.value]| == m.layout.size && m.hash(t.sink.files[t.sink.content.value]) == m.contentHash
  {
    assert Intact(m, WhatItSays(m), t0);
    SparedKeepsIntact(m, t0, evs);
  }

  lemma {:induction false} PacedIsSpared(m: Manifest, t: Transfer, evs: seq<Event>)
    requires m.Valid() && Intact(m, WhatItSays(m), t) && Paced(m, t) && NeverDoubled(m, t, evs) && NeverPremature(m, t, evs)
    ensures AllSpared(m, t, evs)
    decreases |evs|
  {
    hide Intact, Paced, Apply, Spares;
    if evs != [] {
      if evs[0].PutByte? || evs[0].Wrote? { PacedSpares(m, WhatItSays(m), t, evs[0].index); }
      StepKeepsIntact(m, WhatItSays(m), t, evs[0]);
      StepKeepsPaced(m, t, evs[0]);
      PacedIsSpared(m, Apply(m, t, evs[0]), evs[1..]);
    }
  }

  lemma BooksSpare(m: Manifest, t: Transfer, i: nat)
    requires m.Valid() && Intact(m, WhatItSays(m), t) && Books(m, t)
    ensures Spares(m, t, i)
  {
    UnmarkedSpares(m, WhatItSays(m), t, i);
  }

  lemma {:induction false} UnrevivedIsSpared(m: Manifest, t: Transfer, evs: seq<Event>)
    requires m.Valid() && Intact(m, WhatItSays(m), t) && Books(m, t) && NeverDoubled(m, t, evs) && NeverRevives(m, t, evs)
    ensures AllSpared(m, t, evs)
    decreases |evs|
  {
    hide Intact, Books, Apply, Spares;
    if evs != [] {
      if evs[0].PutByte? || evs[0].Wrote? { BooksSpare(m, t, evs[0].index); }
      StepKeepsIntact(m, WhatItSays(m), t, evs[0]);
      StepKeepsBooks(m, t, evs[0]);
      UnrevivedIsSpared(m, Apply(m, t, evs[0]), evs[1..]);
    }
  }

  /**
    End-to-end integrity, whatever the frames and the control messages were: while finalize calls stay apart, "completed" means
    that the published file exists and has the size and hash of the manifest; unless a `file.complete` was handled before the
    list was there and a cancelled transfer was revived.
  */
  lemma {:induction false} CompletedHasIntegrity(m: Manifest, t0: Transfer, evs: seq<Event>)
    requires m.Valid() && JustAccepted(m, t0) && NeverDoubled(m, t0, evs)
    requires NeverPremature(m, t0, evs) || NeverRevives(m, t0, evs)
    ensures var t := Run(m, t0, evs);
      t.phase.Completed? ==>
        && t.sink.content.Some? && t.sink.content.value < |t.sink.files|
        && |t.sink.files[t.sink.content.value]| == m.layout.size && m.hash(t.sink.files[t.sink.content.value]) == m.contentHash
  {
    assert Intact(m, WhatItSays(m), t0);
    if NeverPremature(m, t0, evs) {
      PacedIsSpared(m, t0, evs);
    } else {
      AcceptedHasBooks(m, t0);
      UnrevivedIsSpared(m, t0, evs);
    }
    SparedHasIntegrity(m, t0, evs);
  }

  /** In runs in which no handler overwrites a settled state the calls stay apart. */
  lemma {:induction false} UndisturbedIsOrderly(m: Manifest, first: set<nat>, t: Transfer, evs: seq<Event>)
    requires m.Valid() && Inv(m, first, t) && Undisturbed(m, t, evs)
    ensures NeverDoubled(m, t, evs) && NeverPremature(m, t, evs) && NeverRevives(m, t, evs)
    decreases |evs|
  {
    hide Apply;
    if evs != [] {
      StepKeepsInv(m, first, t, evs[0]);
      UndisturbedIsOrderly(m, first, Apply(m, t, evs[0]), evs[1..]);
    }
  }

  // ---- The run that loses the file ----

  /** `a` has found the payload `f` to be good and is about to publish it; everything is stored. */
  predicate AboutToPublish(m: Manifest, t: Transfer, a: nat, f: nat)
    requires m.Valid()
  {
    && t.listed && t.phase.Verifying? && t.missing == Some({}) && t.processing == map[] && t.calls == map[a := Checked(m.contentHash, f)]
    && t.sink.directory && t.sink.payload == Some(f) && f < |t.sink.files| && m.Good(t.sink.files[f]) && m.Indices() <= t.sink.stored
  }

  /** `file.resume` lets a second `file.complete` come as far as the first. */
  function SecondCall(m: Manifest, b: nat): seq<Event> {
    [Resume, Complete(b, m.contentHash), Proceed(b), Open(b), HashBuffer(b, m.layout.size), CheckHash(b)]
  }

  /** The first publishes, the second removes what was published and fails, the first reports success. */
  function Collide(a: nat, b: nat): seq<Event> {
    [RemoveOld(a), Rename(a), RemoveOld(b), Rename(b), CleanUp(a, true), Return(a)]
  }

  lemma RunStep(m: Manifest, t: Transfer, e: seq<Event>, k: nat)
    requires m.Valid() && k < |e|
    ensures Run(m, t, e[k..]) == Run(m, Apply(m, t, e[k]), e[k + 1..])
  {
    assert e[k..][1..] == e[k + 1..];
  }

  lemma RunOfSix(m: Manifest, t: Transfer, e: seq<Event>)
    requires m.Valid() && |e| == 6
    ensures Run(m, t, e) == Apply(m, Apply(m, Apply(m, Apply(m, Apply(m, Apply(m, t, e[0]), e[1]), e[2]), e[3]), e[4]), e[5])
  {
    hide Apply;
    var t3 := Apply(m, Apply(m, Apply(m, t, e[0]), e[1]), e[2]);
    RunStep(m, t, e, 0);
    RunStep(m, Apply(m, t, e[0]), e, 1);
    RunStep(m, Apply(m, Apply(m, t, e[0]), e[1]), e, 2);
    RunStep(m, t3, e, 3);
    RunStep(m, Apply(m, t3, e[3]), e, 4);
    RunStep(m, Apply(m, Apply(m, t3, e[3]), e[4]), e, 5);
    assert e[0..] == e && e[6..] == [];
  }

  lemma {:induction false} RunAppend(m: Manifest, t: Transfer, a: seq<Event>, b: seq<Event>)
    requires m.Valid()
    ensures Run(m, t, a + b) == Run(m, Run(m, t, a), b)
    decreases |a|
  {
    hide Apply;
    if a == [] {
      assert a + b == b;
    } else {
      assert (a + b)[1..] == a[1..] + b;
      RunAppend(m, Apply(m, t, a[0]), a[1..], b);
    }
  }

  lemma SecondStarts(m: Manifest, t: Transfer, a: nat, b: nat, f: nat)
    requires m.Valid() && AboutToPublish(m, t, a, f) && b != a
    ensures Apply(m, Apply(m, Apply(m, t, Resume), Complete(b, m.contentHash)), Proceed(b))
         == t.(calls := map[a := Checked(m.contentHash, f), b := Starting(m.contentHash)])
  {
    var t1 := Apply(m, t, Resume);
    assert t1 == t.(phase := Transferring);
    var t2 := Apply(m, t1, Complete(b, m.contentHash));
    assert t2 == t1.(calls := map[a := Checked(m.contentHash, f), b := Waiting(m.contentHash)]);
  }

  lemma CallOpens(m: Manifest, t: Transfer, c: nat, f: nat)
    requires m.Valid() && c in t.calls && t.calls[c].Starting? && t.sink.directory && t.sink.payload == Some(f) && m.Indices() <= t.sink.stored
    ensures Apply(m, t, Open(c)) == t.(calls := t.calls[c := Reading(t.calls[c].announced, f, [])])
  {
  }

  lemma CallReads(m: Manifest, t: Transfer, c: nat, f: nat)
    requires m.Valid() && c in t.calls && t.calls[c] == Reading(m.contentHash, f, []) && f < |t.sink.files| && m.Good(t.sink.files[f])
    ensures Apply(m, Apply(m, t, HashBuffer(c, m.layout.size)), CheckHash(c)) == t.(calls := t.calls[c := Checked(m.contentHash, f)])
  {
    var bytes := t.sink.files[f];
    assert [] + bytes[0..|bytes|] == bytes;
    var t1 := Apply(m, t, HashBuffer(c, m.layout.size));
    assert t1 == t.(calls := t.calls[c := Reading(m.contentHash, f, bytes)]);
    assert t1.calls[c := Checked(m.contentHash, f)] == t.calls[c := Checked(m.contentHash, f)];
  }

  lemma SecondCallCatchesUp(m: Manifest, t: Transfer, a: nat, b: nat, f: nat)
    requires m.Valid() && AboutToPublish(m, t, a, f) && b != a
    ensures Run(m, t, SecondCall(m, b)) == t.(calls := map[a := Checked(m.contentHash, f), b := Checked(m.contentHash, f)])
  {
    hide Apply;
    var h := m.contentHash;
    SecondStarts(m, t, a, b, f);
    var t3 := t.(calls := map[a := Checked(h, f), b := Starting(h)]);
    CallOpens(m, t3, b, f);
    var t4 := t.(calls := map[a := Checked(h, f), b := Reading(h, f, [])]);
    assert t3.calls[b := Reading(h, f, [])] == t4.calls;
    CallReads(m, t4, b, f);
    assert t4.calls[b := Checked(h, f)] == map[a := Checked(h, f), b := Checked(h, f)];
    RunOfSix(m, t, SecondCall(m, b));
  }

  lemma CallPublishes(m: Manifest, t: Transfer, c: nat)
    requires m.Valid() && c in t.calls && t.calls[c].Checked?
    ensures var h := t.calls[c].announced;
      Apply(m, Apply(m, t, RemoveOld(c)), Rename(c))
      == if t.sink.payload.Some? then t.(calls := t.calls[c := Renamed(h)], sink := t.sink.(content := t.sink.payload, payload := None))
         else t.(calls := t.calls[c := Finished(h, false)], sink := t.sink.(content := None))
  {
    var Checked(h, g) := t.calls[c];
    var t1 := Apply(m, t, RemoveOld(c));
    assert t1 == t.(calls := t.calls[c := Removed(h, g)], sink := t.sink.(content := None));
    assert t1.calls[c := Renamed(h)] == t.calls[c := Renamed(h)] && t1.calls[c := Finished(h, false)] == t.calls[c := Finished(h, false)];
  }

  lemma CallCleansUp(m: Manifest, t: Transfer, c: nat)
    requires m.Valid() && c in t.calls && t.calls[c].Renamed?
    ensures Apply(m, t, CleanUp(c, true)) == t.(calls := t.calls[c := Finished(t.calls[c].announced, true)], sink := t.sink.Discarded())
  {
  }

  lemma CallCompletes(m: Manifest, t: Transfer, c: nat)
    requires m.Valid() && c in t.calls && t.calls[c] == Renamed(m.contentHash) && t.listed && t.phase.Verifying?
    ensures var t' := Apply(m, Apply(m, t, CleanUp(c, true)), Return(c)); t'.phase.Completed? && t'.sink == t.sink.Discarded() && t'.missing == t.missing && t'.bytes == m.layout.size
  {
  }

  lemma CollisionLoses(m: Manifest, t: Transfer, a: nat, b: nat, f: nat)
    requires m.Valid() && a != b && t.listed && t.phase.Verifying? && t.sink.payload == Some(f)
    requires t.calls == map[a := Checked(m.contentHash, f), b := Checked(m.contentHash, f)]
    ensures var t' := Run(m, t, Collide(a, b)); t'.phase.Completed? && t'.sink.content.None? && t'.sink.payload.None?
  {
    hide Apply;
    CallPublishes(m, t, a);
    var t2 := Apply(m, Apply(m, t, RemoveOld(a)), Rename(a));
    CallPublishes(m, t2, b);
    var t4 := Apply(m, Apply(m, t2, RemoveOld(b)), Rename(b));
    CallCompletes(m, t4, a);
    RunOfSix(m, t, Collide(a, b));
  }

  /** From every such state: "completed" is reported and the file is gone. */
  lemma {:induction false} ResumeCanLoseTheFile(m: Manifest, t: Transfer, a: nat, b: nat, f: nat)
    requires m.Valid() && AboutToPublish(m, t, a, f) && b != a
    ensures Disturbs(t, Resume)
    ensures var t' := Run(m, t, SecondCall(m, b) + Collide(a, b)); t'.phase.Completed? && t'.sink.content.None?
  {
    RunAppend(m, t, SecondCall(m, b), Collide(a, b));
    SecondCallCatchesUp(m, t, a, b, f);
    hide Apply, Run;
    CollisionLoses(m, Run(m, t, SecondCall(m, b)), a, b, f);
  }

  /** A resumed transfer that lacks nothing gets there. */
  lemma {:induction false} LosingIsReachable(m: Manifest, t0: Transfer)
    requires m.Valid() && JustAccepted(m, t0) && m.Indices() <= t0.sink.stored && m.Good(t0.sink.files[t0.sink.payload.value])
    ensures exists evs :: var t := Run(m, t0, evs); t.phase.Completed? && t.sink.content.None?
  {
    var f, h := t0.sink.payload.value, m.contentHash;
    var opening := [ListRead, Install, AcceptReturns(true), Complete(0, h), Proceed(0), Open(0)];
    var t3 := Apply(m, Apply(m, Apply(m, t0, ListRead), Install), AcceptReturns(true));
    assert m.Indices() - t0.sink.stored == {};
    assert t3 == t0.(accept := Returned, missing := Some({}), phase := Transferring);
    var t5 := Apply(m, Apply(m, t3, Complete(0, h)), Proceed(0));
    assert t5 == t3.(phase := Verifying, calls := map[0 := Starting(h)]);
    CallOpens(m, t5, 0, f);
    var t6 := t3.(phase := Verifying, calls := map[0 := Reading(h, f, [])]);
    assert t5.calls[0 := Reading(h, f, [])] == t6.calls;
    CallReads(m, t6, 0, f);
    var t8 := t3.(phase := Verifying, calls := map[0 := Checked(h, f)]);
    assert t6.calls[0 := Checked(h, f)] == t8.calls;
    assert AboutToPublish(m, t8, 0, f);
    var last := [HashBuffer(0, m.layout.size), CheckHash(0)];
    assert Run(m, t6, last) == t8 by { RunStep(m, t6, last, 0); RunStep(m, Apply(m, t6, last[0]), last, 1); assert last[0..] == last && last[2..] == []; }
    hide Apply, JustAccepted;
    RunOfSix(m, t0, opening);
    RunAppend(m, t0, opening, last);
    RunAppend(m, t0, opening + last, SecondCall(m, 1) + Collide(0, 1));
    ResumeCanLoseTheFile(m, t8, 0, 1, f);
    var evs := opening + last + (SecondCall(m, 1) + Collide(0, 1));
    assert Run(m, t0, evs).phase.Completed? && Run(m, t0, evs).sink.content.None?;
  }

  // ---- Which steps let a second finalize start beside a first one ----

  /** `complete` goes on only when no chunk is in hand, as `waitForInFlightWrites` has it. */
  ghost predicate Patient(m: Manifest, t: Transfer, evs: seq<Event>)
    requires m.Valid()
    decreases |evs|
  {
    evs != [] ==> (evs[0].Proceed? ==> t.processing == map[]) && Patient(m, Apply(m, t, evs[0]), evs[1..])
  }

  /** Left to handlers that respect a settled state, the transfer can still come to two finalize calls at once. */
  ghost predicate WayOpen(m: Manifest, t: Transfer)
    requires m.Valid()
  {
    exists evs :: Undisturbed(m, t, evs) && Patient(m, t, evs) && Doubled(Run(m, t, evs))
  }

  /** A finalize call is in flight, or one has succeeded, could not remove its directory and is still reporting. */
  ghost predicate InFlight(t: Transfer) {
    exists c :: c in t.calls && (Finalizing(t.calls[c]) || (t.calls[c].Reporting? && t.sink.directory))
  }

  ghost predicate NoneFinalizing(t: Transfer) { forall c | c in t.calls :: !Finalizing(t.calls[c]) }

  /** The invariant that keeps finalize calls apart. */
  ghost predicate Apart(t: Transfer) {
    && Listed(t) && !t.accept.Listing? && !Doubled(t) && (!t.sink.directory ==> t.sink.payload.None?)
    && (forall c | c in t.calls :: !t.calls[c].Asked? && (Busy(t.calls[c]) ==> t.missing == Some({})))
    && (NoneFinalizing(t) || !t.listed || t.phase.Verifying? || t.phase.Cancelled? || (t.phase.Failed? && !t.sink.directory))
    && (forall c | c in t.calls && t.calls[c].Reporting? && t.sink.directory ::
          NoneFinalizing(t) && (t.listed ==> t.phase.Completed? || t.phase.Cancelled?))
    && (forall c, d | c in t.calls && d in t.calls && t.calls[c].Reporting? && t.calls[d].Reporting? && t.sink.directory :: c == d)
  }

  lemma QueueStepKeepsApart(m: Manifest, t: Transfer, ev: Event)
    requires m.Valid() && Apart(t) && (ev.Chunk? || ev.Begin? || ev.Hashed? || ev.Answered?)
    ensures Apart(Apply(m, t, ev))
  {
    StepKeepsListed(m, t, ev);
    QueueStepFrame(m, t, ev);
    hide Listed, Apply;
  }

  lemma WriteStepKeepsApart(m: Manifest, t: Transfer, ev: Event)
    requires m.Valid() && Apart(t) && (ev.PutByte? || ev.Wrote?)
    ensures Apart(Apply(m, t, ev))
  {
    StepKeepsListed(m, t, ev);
    if ev.Wrote? && Storable(m, t, ev.index) { ListedWrite(t, ev.index); }
    hide Listed, Splice;
  }

  lemma ListedWrite(t: Transfer, i: nat)
    requires Listed(t) && i in t.processing && t.processing[i].Writing? && t.sink.directory
    ensures i in t.missing.value
  {
  }

  lemma StateStepKeepsApart(m: Manifest, t: Transfer, ev: Event)
    requires m.Valid() && Apart(t) && !Disturbs(t, ev)
    requires ev.ListRead? || ev.Install? || ev.AcceptReturns? || ev.Pause? || ev.Resume? || ev.Cancel? || ev.Discard? || ev.Unlist?
    ensures Apart(Apply(m, t, ev))
  {
    StepKeepsListed(m, t, ev);
    hide Listed;
  }

  lemma CompleteStepKeepsApart(m: Manifest, t: Transfer, ev: Event)
    requires m.Valid() && Apart(t) && !Disturbs(t, ev) && (ev.Complete? || ev.Proceed? || ev.OwnListRead? || ev.OwnListUsed?)
    ensures Apart(Apply(m, t, ev))
  {
    StepKeepsListed(m, t, ev);
    hide Listed;
  }

  lemma OpenKeepsApart(m: Manifest, t: Transfer, c: nat)
    requires m.Valid() && Apart(t)
    ensures Apart(Apply(m, t, Open(c)))
  {
    StepKeepsListed(m, t, Open(c));
    hide Listed;
  }

  lemma HashStepKeepsApart(m: Manifest, t: Transfer, ev: Event)
    requires m.Valid() && Apart(t) && (ev.HashBuffer? || ev.CheckHash?)
    ensures Apart(Apply(m, t, ev))
  {
    StepKeepsListed(m, t, ev);
    hide Listed;
  }

  lemma BreakKeepsApart(m: Manifest, t: Transfer, c: nat)
    requires m.Valid() && Apart(t)
    ensures Apart(Apply(m, t, Break(c)))
  {
    StepKeepsListed(m, t, Break(c));
    hide Listed;
  }

  lemma RemoveOldKeepsApart(m: Manifest, t: Transfer, ev: Event)
    requires m.Valid() && Apart(t) && ev.RemoveOld?
    ensures Apart(Apply(m, t, ev))
  {
    StepKeepsListed(m, t, ev);
    hide Listed;
  }

  lemma RenameKeepsApart(m: Manifest, t: Transfer, ev: Event)
    requires m.Valid() && Apart(t) && ev.Rename?
    ensures Apart(Apply(m, t, ev))
  {
    StepKeepsListed(m, t, ev);
    hide Listed;
  }

  lemma CleanUpKeepsApart(m: Manifest, t: Transfer, ev: Event)
    requires m.Valid() && Apart(t) && ev.CleanUp?
    ensures Apart(Apply(m, t, ev))
  {
    StepKeepsListed(m, t, ev);
    hide Listed;
  }

  lemma ReturnKeepsApart(m: Manifest, t: Transfer, c: nat)
    requires m.Valid() && Apart(t)
    ensures Apart(Apply(m, t, Return(c)))
  {
    StepKeepsListed(m, t, Return(c));
    hide Listed;
    if Calling(t, c) && Finalizing(t.calls[c]) { OnlyOne(t, c); }
  }

  lemma ReportKeepsApart(m: Manifest, t: Transfer, c: nat, ok: bool)
    requires m.Valid() && Apart(t)
    ensures Apart(Apply(m, t, Report(c, ok)))
  {
    StepKeepsListed(m, t, Report(c, ok));
    hide Listed;
  }

  lemma StepKeepsApart(m: Manifest, t: Transfer, ev: Event)
    requires m.Valid() && Apart(t) && !Disturbs(t, ev)
    ensures Apart(Apply(m, t, ev))
  {
    hide Apart, Apply, Disturbs;
    match ev
    case Chunk(_, _) => QueueStepKeepsApart(m, t, ev);
    case Begin(_, _) => QueueStepKeepsApart(m, t, ev);
    case Hashed(_, _) => QueueStepKeepsApart(m, t, ev);
    case Answered(_) => QueueStepKeepsApart(m, t, ev);
    case PutByte(_, _) => WriteStepKeepsApart(m, t, ev);
    case Wrote(_, _) => WriteStepKeepsApart(m, t, ev);
    case Complete(_, _) => CompleteStepKeepsApart(m, t, ev);
    case Proceed(_) => CompleteStepKeepsApart(m, t, ev);
    case OwnListRead(_) => CompleteStepKeepsApart(m, t, ev);
    case OwnListUsed(_) => CompleteStepKeepsApart(m, t, ev);
    case Open(c) => OpenKeepsApart(m, t, c);
    case HashBuffer(_, _) => HashStepKeepsApart(m, t, ev);
    case CheckHash(_) => HashStepKeepsApart(m, t, ev);
    case Break(c) => BreakKeepsApart(m, t, c);
    case RemoveOld(_) => RemoveOldKeepsApart(m, t, ev);
    case Rename(_) => RenameKeepsApart(m, t, ev);
    case CleanUp(_, _) => CleanUpKeepsApart(m, t, ev);
    case Return(c) => ReturnKeepsApart(m, t, c);
    case Report(c, ok) => ReportKeepsApart(m, t, c, ok);
    case _ => StateStepKeepsApart(m, t, ev);
  }

  lemma {:induction false} RunKeepsApart(m: Manifest, t: Transfer, evs: seq<Event>)
    requires m.Valid() && Apart(t) && Undisturbed(m, t, evs)
    ensures Apart(Run(m, t, evs)) && !Doubled(Run(m, t, evs))
    decreases |evs|
  {
    hide Apply;
    if evs != [] {
      StepKeepsApart(m, t, evs[0]);
      RunKeepsApart(m, Apply(m, t, evs[0]), evs[1..]);
    }
  }

  lemma WayBack(m: Manifest, t: Transfer, ev: Event)
    requires m.Valid() && !Disturbs(t, ev) && (ev.Proceed? ==> t.processing == map[]) && WayOpen(m, Apply(m, t, ev))
    ensures WayOpen(m, t)
  {
    hide Apply, Disturbs, Doubled;
    var evs :| Undisturbed(m, Apply(m, t, ev), evs) && Patient(m, Apply(m, t, ev), evs) && Doubled(Run(m, Apply(m, t, ev), evs));
    var all := [ev] + evs;
    assert all[1..] == evs;
    assert Undisturbed(m, t, all) && Patient(m, t, all) && Run(m, t, all) == Run(m, Apply(m, t, ev), evs);
  }

  ghost predicate NoneAsking(t: Transfer) { forall i | i in t.processing :: !t.processing[i].Asking? }

  /** A chunk in hand may fail. */
  function Drop(i: nat, op: Op): Event {
    if op.Queued? then Begin(i, false) else if op.Hashing? then Hashed(i, false) else Wrote(i, false)
  }

  lemma ChunkFails(m: Manifest, t: Transfer, i: nat)
    requires m.Valid() && NoneAsking(t) && i in t.processing
    ensures Apply(m, t, Drop(i, t.processing[i])) == DropOp(t, i) && !Disturbs(t, Drop(i, t.processing[i])) && NoneAsking(DropOp(t, i))
  {
  }

  lemma {:induction false} FreshCall(used: set<nat>) returns (c: nat)
    ensures forall x | x in used :: x < c
    decreases |used|
  {
    c := 0;
    if used != {} {
      var a :| a in used;
      var rest := used - {a};
      c := FreshCall(rest);
      assert forall x | x in used :: x == a || x in rest;
      if c <= a { c := a + 1; }
    }
  }

  /** A receiving transfer that lacks nothing while some call is still finalizing. */
  lemma {:induction false} CompleteDoubles(m: Manifest, t: Transfer, c: nat)
    requires m.Valid() && t.listed && t.phase.Transferring? && t.missing == Some({}) && NoneAsking(t) && c in t.calls && Finalizing(t.calls[c])
    ensures WayOpen(m, t)
    decreases |t.processing|
  {
    if t.processing == map[] {
      AtOnceDoubles(m, t, c);
    } else {
      var i :| i in t.processing;
      ChunkFails(m, t, i);
      hide WayOpen, Apply;
      FewerInHand(t, i);
      CompleteDoubles(m, DropOp(t, i), c);
      WayBack(m, t, Drop(i, t.processing[i]));
    }
  }

  lemma FewerInHand(t: Transfer, i: nat)
    requires i in t.processing
    ensures |DropOp(t, i).processing| < |t.processing|
  {
    assert t.processing.Keys == DropOp(t, i).processing.Keys + {i};
  }

  lemma AtOnceDoubles(m: Manifest, t: Transfer, c: nat)
    requires m.Valid() && t.listed && t.phase.Transferring? && t.missing == Some({}) && t.processing == map[] && c in t.calls && Finalizing(t.calls[c])
    ensures WayOpen(m, t)
  {
    var d := FreshCall(t.calls.Keys);
    var t1 := Apply(m, t, Complete(d, []));
    assert t1 == t.(calls := t.calls[d := Waiting([])]);
    var t2 := Apply(m, t1, Proceed(d));
    assert t2.calls[c] == t.calls[c] && t2.calls[d].Starting?;
    assert Doubled(t2);
    assert Undisturbed(m, t2, []) && Patient(m, t2, []) && Run(m, t2, []) == t2;
    WayBack(m, t1, Proceed(d));
    WayBack(m, t, Complete(d, []));
  }

  lemma FailedReportDoubles(m: Manifest, t: Transfer, c: nat, d: nat)
    requires m.Valid() && t.listed && t.phase.Verifying? && t.missing == Some({}) && t.sink.payload.Some? && NoneAsking(t) && c != d
    requires c in t.calls && t.calls[c].Reporting? && d in t.calls && Finalizing(t.calls[d])
    ensures WayOpen(m, t)
  {
    var t1 := Apply(m, t, Report(c, false));
    assert t1 == t.(phase := Failed, calls := t.calls - {c});
    var t2 := Apply(m, t1, Resume);
    assert t2 == t1.(phase := Transferring);
    hide WayOpen;
    CompleteDoubles(m, t2, d);
    WayBack(m, t1, Resume);
    WayBack(m, t, Report(c, false));
  }

  /** The same while one is still reporting over a directory that is still there. */
  lemma {:induction false} ReportDoubles(m: Manifest, t: Transfer, c: nat)
    requires m.Valid() && t.listed && t.phase.Transferring? && t.missing == Some({}) && NoneAsking(t) && c in t.calls && t.calls[c].Reporting?
    requires t.sink.directory && t.sink.payload.None?
    ensures WayOpen(m, t)
    decreases |t.processing|
  {
    if t.processing == map[] {
      ReportDoublesAtOnce(m, t, c);
    } else {
      var i :| i in t.processing;
      ChunkFails(m, t, i);
      hide WayOpen, Apply;
      FewerInHand(t, i);
      ReportDoubles(m, DropOp(t, i), c);
      WayBack(m, t, Drop(i, t.processing[i]));
    }
  }

  lemma ReportDoublesAtOnce(m: Manifest, t: Transfer, c: nat)
    requires m.Valid() && t.listed && t.phase.Transferring? && t.missing == Some({}) && t.processing == map[] && c in t.calls && t.calls[c].Reporting?
    requires t.sink.directory && t.sink.payload.None?
    ensures WayOpen(m, t)
  {
    var d := FreshCall(t.calls.Keys);
    var t1 := Apply(m, t, Complete(d, []));
    assert t1 == t.(calls := t.calls[d := Waiting([])]);
    var t2 := Apply(m, t1, Proceed(d));
    assert t2 == t.(phase := Verifying, calls := t.calls[d := Starting([])]);
    assert !Disturbs(t, Complete(d, [])) && !Disturbs(t1, Proceed(d));
    hide WayOpen, Apply;
    OpenDoubles(m, t2, c, d);
    WayBack(m, t1, Proceed(d));
    WayBack(m, t, Complete(d, []));
  }

  lemma OpenDoubles(m: Manifest, t: Transfer, c: nat, d: nat)
    requires m.Valid() && t.listed && t.phase.Verifying? && t.missing == Some({}) && t.sink.directory && t.sink.payload.None? && NoneAsking(t) && c != d
    requires c in t.calls && t.calls[c].Reporting? && d in t.calls && t.calls[d].Starting?
    ensures WayOpen(m, t)
  {
    var t1 := Apply(m, t, Open(d));
    assert t1.sink.payload.Some? && d in t1.calls && Finalizing(t1.calls[d]) && c in t1.calls && t1.calls[c] == t.calls[c];
    hide WayOpen;
    FailedReportDoubles(m, t1, c, d);
    WayBack(m, t, Open(d));
  }

  /** Back in "transferring" while a call of an undisturbed run is still in flight. */
  lemma ReopenedDoubles(m: Manifest, first: set<nat>, t: Transfer, t': Transfer)
    requires m.Valid() && Inv(m, first, t) && t.listed && InFlight(t) && Listed(t)
    requires t' == t.(accept := t'.accept, phase := Transferring)
    ensures WayOpen(m, t')
  {
    var c :| c in t.calls && (Finalizing(t.calls[c]) || (t.calls[c].Reporting? && t.sink.directory));
    assert CallTrue(t, t.calls[c]) && NoneAsking(t');
    hide Inv;
    if Finalizing(t.calls[c]) { CompleteDoubles(m, t', c); } else { ReportDoubles(m, t', c); }
  }

  lemma OverwritingOpens(m: Manifest, first: set<nat>, t: Transfer, ev: Event)
    requires m.Valid() && Inv(m, first, t) && Listed(t) && Overwrites(t, ev) && t.listed && InFlight(t)
    ensures WayOpen(m, Apply(m, t, ev))
  {
    hide Inv, InFlight, WayOpen;
    var t1 := Apply(m, t, ev);
    var t2 := if ev.Pause? then Apply(m, t1, Resume) else t1;
    ReopenedDoubles(m, first, t, t2);
    if ev.Pause? { WayBack(m, t1, Resume); }
  }

  lemma OverwritingKeepsApart(m: Manifest, t: Transfer, ev: Event)
    requires m.Valid() && Apart(t) && Overwrites(t, ev) && !(t.listed && InFlight(t))
    ensures Apart(Apply(m, t, ev))
  {
    StepKeepsListed(m, t, ev);
    var t' := Apply(m, t, ev);
    assert t' == t.(phase := t'.phase, accept := t'.accept) && !t'.accept.Listing?;
    hide Listed, Apply, Overwrites;
  }

  lemma OthersKeepApart(m: Manifest, first: set<nat>, t: Transfer, ev: Event)
    requires m.Valid() && Inv(m, first, t) && Listed(t) && !(Overwrites(t, ev) && t.listed && InFlight(t))
    ensures Apart(Apply(m, t, ev))
  {
    InvIsApart(m, first, t);
    if Disturbs(t, ev) {
      assert Overwrites(t, ev);
      hide Inv, Apart, InFlight, Apply, Overwrites;
      OverwritingKeepsApart(m, t, ev);
    } else {
      hide Inv, Apart, InFlight, Apply;
      StepKeepsApart(m, t, ev);
    }
  }

  lemma InvIsApart(m: Manifest, first: set<nat>, t: Transfer)
    requires m.Valid() && Inv(m, first, t) && Listed(t)
    ensures Apart(t)
  {
    assert t.missing.Some?;
    hide Listed, StoreTrue, OpsTrue;
  }

  /**
    The exact condition: from any state of an undisturbed run whose list is installed, a step opens the way to two finalize
    calls at once if and only if it overwrites the state of a listed transfer while a finalize is in flight.
  */
  lemma SecondFinalizeExactlyWhen(m: Manifest, first: set<nat>, t: Transfer, ev: Event)
    requires m.Valid() && Inv(m, first, t) && Listed(t)
    ensures WayOpen(m, Apply(m, t, ev)) <==> Overwrites(t, ev) && t.listed && InFlight(t)
  {
    if Overwrites(t, ev) && t.listed && InFlight(t) {
      OverwritingOpens(m, first, t, ev);
    } else {
      OthersKeepApart(m, first, t, ev);
      forall evs | Undisturbed(m, Apply(m, t, ev), evs) ensures !Doubled(Run(m, Apply(m, t, ev), evs)) {
        RunKeepsApart(m, Apply(m, t, ev), evs);
      }
    }
  }

  lemma AsksForList(m: Manifest, t: Transfer, c: nat)
    requires m.Valid() && IsReceiving(t) && t.missing.None? && c in t.calls && t.calls[c] == Waiting([])
    ensures Apply(m, t, Proceed(c)) == t.(calls := t.calls[c := Asked([], None)])
  {
  }

  lemma ReadsEmptyList(m: Manifest, t: Transfer, c: nat)
    requires m.Valid() && t.sink.directory && m.Indices() <= t.sink.stored && c in t.calls && t.calls[c] == Asked([], None)
    ensures Apply(m, t, OwnListRead(c)) == t.(calls := t.calls[c := Asked([], Some({}))])
  {
    assert Unstored(m, t) == {};
  }

  lemma StartsOnEmptyList(m: Manifest, t: Transfer, c: nat)
    requires m.Valid() && c in t.calls && t.calls[c] == Asked([], Some({}))
    ensures Apply(m, t, OwnListUsed(c)).calls == t.calls[c := Starting([])]
  {
  }

  /** Before the list is there, two `file.complete` messages are enough when nothing is missing. */
  lemma PrematureCompletesFinalizeTwice(m: Manifest, t: Transfer, c: nat, d: nat)
    requires m.Valid() && IsReceiving(t) && t.missing.None? && t.processing == map[] && t.sink.directory && m.Indices() <= t.sink.stored
    requires c != d && c in t.calls && d in t.calls && t.calls[c] == Waiting([]) && t.calls[d] == Waiting([])
    ensures Premature(t, Proceed(c))
    ensures var asked := Apply(m, Apply(m, t, Proceed(c)), Proceed(d));
      var told := Apply(m, Apply(m, asked, OwnListRead(c)), OwnListRead(d));
      Doubled(Apply(m, Apply(m, told, OwnListUsed(c)), OwnListUsed(d)))
  {
    hide Apply;
    AsksForList(m, t, c);
    var t1 := Apply(m, t, Proceed(c));
    AsksForList(m, t1, d);
    var asked := Apply(m, t1, Proceed(d));
    ReadsEmptyList(m, asked, c);
    var t2 := Apply(m, asked, OwnListRead(c));
    ReadsEmptyList(m, t2, d);
    var told := Apply(m, t2, OwnListRead(d));
    StartsOnEmptyList(m, told, c);
    var t3 := Apply(m, told, OwnListUsed(c));
    StartsOnEmptyList(m, t3, d);
    var t4 := Apply(m, t3, OwnListUsed(d));
    assert Finalizing(t4.calls[c]) && Finalizing(t4.calls[d]);
  }

  // ---- Why a premature `file.complete` is excluded ----

  /** A call found its own list empty, and the list installed since names a chunk that is stored but not received. */
  predicate Overtaken(m: Manifest, t: Transfer, c: nat, i: nat, f: nat)
    requires m.Valid()
  {
    && IsReceiving(t) && c in t.calls && t.calls[c] == Asked(m.contentHash, Some({}))
    && i < m.layout.Count() && t.missing.Some? && i in t.missing.value && i !in t.received && i !in t.processing
    && t.sink.Valid() && t.sink.directory && t.sink.payload == Some(f) && m.Indices() <= t.sink.stored && m.Good(t.sink.files[f])
  }

  /** The chunk comes again while the call starts and reads the file. */
  function ChunkAgain(m: Manifest, c: nat, i: nat, body: seq<Byte>): seq<Event> {
    [Chunk(i, body), Begin(i, true), Hashed(i, true), OwnListUsed(c), Open(c), HashBuffer(c, m.layout.size)]
  }

  /** The file is checked, the first byte of the chunk is written, and the file is published. */
  function LateByte(c: nat, i: nat): seq<Event> {
    [CheckHash(c), PutByte(i, 0), RemoveOld(c), Rename(c), CleanUp(c, true), Return(c)]
  }

  lemma ChunkGoesToWrite(m: Manifest, t: Transfer, i: nat, body: seq<Byte>)
    requires m.Valid() && IsReceiving(t) && i < m.layout.Count() && t.missing.Some? && i in t.missing.value && i !in t.received && i !in t.processing
    ensures Apply(m, Apply(m, Apply(m, t, Chunk(i, body)), Begin(i, true)), Hashed(i, true)) == t.(processing := t.processing[i := Writing(body)])
  {
    var t1 := Apply(m, t, Chunk(i, body));
    assert t1 == t.(processing := t.processing[i := Queued(body)]);
    var t2 := Apply(m, t1, Begin(i, true));
    assert t2 == t.(processing := t.processing[i := Hashing(body)]);
  }

  lemma OwnListStarts(m: Manifest, t: Transfer, c: nat, f: nat)
    requires m.Valid() && c in t.calls && t.calls[c] == Asked(m.contentHash, Some({})) && t.missing.Some?
    requires t.sink.directory && t.sink.payload == Some(f) && m.Indices() <= t.sink.stored
    ensures Apply(m, Apply(m, t, OwnListUsed(c)), Open(c)) == t.(phase := Verifying, calls := t.calls[c := Reading(m.contentHash, f, [])])
  {
    var t1 := Apply(m, t, OwnListUsed(c));
    assert t1 == t.(phase := Verifying, calls := t.calls[c := Starting(m.contentHash)]);
    CallOpens(m, t1, c, f);
    assert t1.calls[c := Reading(m.contentHash, f, [])] == t.calls[c := Reading(m.contentHash, f, [])];
  }

  lemma FirstByteIsPut(m: Manifest, t: Transfer, i: nat, f: nat)
    requires m.Valid() && Storable(m, t, i) && t.sink.payload == Some(f)
    ensures |t.processing[i].body| > 0 && m.layout.Offset(i) < m.layout.size
    ensures var bytes := t.sink.files[f][m.layout.Offset(i) := t.processing[i].body[0]];
      Apply(m, t, PutByte(i, 0)) == t.(sink := t.sink.(files := t.sink.files[f := bytes]))
  {
    ChunkInside(m.layout, i);
  }

  /** Whatever is written into a file that has been checked can be published: `LateByte` needs no other step. */
  lemma {:induction false} LateByteIsPublished(m: Manifest, t: Transfer, c: nat, i: nat, f: nat)
    requires m.Valid() && t.listed && t.phase.Verifying? && Storable(m, t, i) && t.sink.payload == Some(f)
    requires c in t.calls && t.calls[c] == Checked(m.contentHash, f)
    ensures |t.processing[i].body| > 0 && m.layout.Offset(i) < m.layout.size
    ensures var t' := Run(m, t, LateByte(c, i));
      && t'.phase.Completed? && t'.sink.content == Some(f) && f < |t'.sink.files|
      && t'.sink.files[f] == t.sink.files[f][m.layout.Offset(i) := t.processing[i].body[0]]
  {
    assert Apply(m, t, CheckHash(c)) == t;
    hide Apply;
    FirstByteIsPut(m, t, i, f);
    var t1 := Apply(m, t, PutByte(i, 0));
    CallPublishes(m, t1, c);
    CallCompletes(m, Apply(m, Apply(m, t1, RemoveOld(c)), Rename(c)), c);
    RunOfSix(m, t, LateByte(c, i));
  }

  /** One call is enough: from every such state "completed" can be reported over a file that changed after its check. */
  lemma {:induction false} PrematureCanPublishOtherBytes(m: Manifest, t: Transfer, c: nat, i: nat, f: nat, body: seq<Byte>)
    requires m.Valid() && Overtaken(m, t, c, i, f) && |body| == m.layout.Length(i) > 0 && m.layout.Offset(i) < m.layout.size
    ensures var t' := Run(m, t, ChunkAgain(m, c, i, body) + LateByte(c, i));
      && t'.phase.Completed? && t'.sink.content == Some(f) && f < |t'.sink.files|
      && t'.sink.files[f] == t.sink.files[f][m.layout.Offset(i) := body[0]]
  {
    hide Apply;
    var h := m.contentHash;
    ChunkGoesToWrite(m, t, i, body);
    var t3 := t.(processing := t.processing[i := Writing(body)]);
    OwnListStarts(m, t3, c, f);
    var t5 := t3.(phase := Verifying, calls := t.calls[c := Reading(h, f, [])]);
    CallReads(m, t5, c, f);
    var t7 := t5.(calls := t5.calls[c := Checked(h, f)]);
    FirstByteIsPut(m, t7, i, f);
    var t8 := Apply(m, t7, PutByte(i, 0));
    CallPublishes(m, t8, c);
    CallCompletes(m, Apply(m, Apply(m, t8, RemoveOld(c)), Rename(c)), c);
    RunOfSix(m, t, ChunkAgain(m, c, i, body));
    RunOfSix(m, Run(m, t, ChunkAgain(m, c, i, body)), LateByte(c, i));
    RunAppend(m, t, ChunkAgain(m, c, i, body), LateByte(c, i));
  }

  /** A write that ends while the transfer is cancelled is stored and not received. */
  function CancelledWrite(i: nat, body: seq<Byte>): seq<Event> {
    [ListRead, Chunk(i, body), Begin(i, true), Hashed(i, true), Answered(i), Cancel]
  }

  function ResumedEarly(m: Manifest, c: nat, i: nat): seq<Event> {
    [Wrote(i, true), Resume, Complete(c, m.contentHash), Proceed(c), OwnListRead(c), Install]
  }

  lemma WriteIsCancelled(m: Manifest, t: Transfer, i: nat, body: seq<Byte>)
    requires m.Valid() && JustAccepted(m, t) && i < m.layout.Count() && i !in t.sink.stored
    ensures var list := m.Indices() - t.sink.stored;
      Run(m, t, CancelledWrite(i, body))
      == t.(accept := Listing(Some(list)), processing := map[i := Writing(body)], phase := Cancelled, cancelling := true)
  {
    var t1 := Apply(m, t, ListRead);
    assert t1 == t.(accept := Listing(Some(m.Indices() - t.sink.stored)));
    var t2 := Apply(m, t1, Chunk(i, body));
    assert t2 == t1.(processing := map[i := Queued(body)]);
    var t3 := Apply(m, t2, Begin(i, true));
    assert t3 == t1.(processing := map[i := Hashing(body)]);
    var t4 := Apply(m, t3, Hashed(i, true));
    assert t4 == t1.(processing := map[i := Asking(body)]);
    var t5 := Apply(m, t4, Answered(i));
    assert t5 == t1.(processing := map[i := Writing(body)]);
    hide JustAccepted;
    RunOfSix(m, t, CancelledWrite(i, body));
  }

  lemma CancelledIsStored(m: Manifest, t: Transfer, i: nat, body: seq<Byte>)
    requires m.Valid() && Storable(m, t, i) && t.processing == map[i := Writing(body)] && t.listed && t.phase.Cancelled?
    ensures Apply(m, Apply(m, t, Wrote(i, true)), Resume) == t.(processing := map[], sink := WrittenSink(m, t, i), phase := Transferring)
  {
    hide WrittenSink;
    assert t.processing - {i} == map[];
  }

  lemma AsksAndFindsNothing(m: Manifest, t: Transfer, c: nat, list: set<nat>)
    requires m.Valid() && IsReceiving(t) && t.missing.None? && t.calls == map[] && t.sink.directory && m.Indices() <= t.sink.stored
    requires t.accept == Listing(Some(list))
    ensures var h := m.contentHash;
      Apply(m, Apply(m, Apply(m, Apply(m, t, Complete(c, h)), Proceed(c)), OwnListRead(c)), Install)
      == t.(calls := map[c := Asked(h, Some({}))], accept := Sending, missing := Some(list))
  {
    var h := m.contentHash;
    var t1 := Apply(m, t, Complete(c, h));
    assert t1 == t.(calls := map[c := Waiting(h)]);
    var t2 := Apply(m, t1, Proceed(c));
    assert t2 == t.(calls := map[c := Asked(h, None)]);
    assert Unstored(m, t2) == {};
    var t3 := Apply(m, t2, OwnListRead(c));
    assert t3 == t.(calls := map[c := Asked(h, Some({}))]);
  }

  /** Such a state is reached from every accepted transfer whose last missing chunk is the one that completes the file. */
  lemma {:induction false} OvertakenIsReachable(m: Manifest, t: Transfer, c: nat, i: nat, body: seq<Byte>)
    requires m.Valid() && JustAccepted(m, t) && i < m.layout.Count() && i !in t.sink.stored && m.Indices() - {i} <= t.sink.stored
    requires |body| == m.layout.Length(i) && m.layout.End(i) <= m.layout.size
    requires m.Good(Splice(t.sink.files[t.sink.payload.value], m.layout.Offset(i), body))
    ensures Overtaken(m, Run(m, t, CancelledWrite(i, body) + ResumedEarly(m, c, i)), c, i, t.sink.payload.value)
  {
    WriteIsCancelled(m, t, i, body);
    var t6 := Run(m, t, CancelledWrite(i, body));
    assert Storable(m, t6, i);
    CancelledIsStored(m, t6, i, body);
    var t8 := Apply(m, Apply(m, t6, Wrote(i, true)), Resume);
    assert m.Indices() <= t8.sink.stored;
    var list := m.Indices() - t.sink.stored;
    assert m.Has(i) && i in list;
    hide Apply, JustAccepted;
    AsksAndFindsNothing(m, t8, c, list);
    RunOfSix(m, t6, ResumedEarly(m, c, i));
    RunAppend(m, t, CancelledWrite(i, body), ResumedEarly(m, c, i));
  }

  function AsksEarly(m: Manifest, c: nat): seq<Event> {
    [Complete(c, m.contentHash), Proceed(c), OwnListRead(c), Install, OwnListUsed(c), Open(c)]
  }

  function PublishesAlone(m: Manifest, c: nat): seq<Event> {
    [HashBuffer(c, m.layout.size), CheckHash(c), RemoveOld(c), Rename(c), CleanUp(c, true), Return(c)]
  }

  /** A premature call also outruns the list: it counts the whole file while the list that was installed meanwhile stays as it is. */
  lemma {:induction false} PrematureOutrunsTheList(m: Manifest, t: Transfer, c: nat, f: nat, list: set<nat>)
    requires m.Valid() && IsReceiving(t) && t.missing.None? && t.calls == map[] && t.processing == map[] && t.accept == Listing(Some(list))
    requires t.sink.Valid() && t.sink.directory && t.sink.payload == Some(f) && m.Indices() <= t.sink.stored && m.Good(t.sink.files[f])
    ensures var t' := Run(m, t, AsksEarly(m, c) + PublishesAlone(m, c));
      t'.phase.Completed? && t'.missing == Some(list) && t'.bytes == m.layout.size
  {
    hide Apply;
    var h := m.contentHash;
    AsksAndFindsNothing(m, t, c, list);
    var t4 := t.(calls := map[c := Asked(h, Some({}))], accept := Sending, missing := Some(list));
    OwnListStarts(m, t4, c, f);
    var t6 := t4.(phase := Verifying, calls := t4.calls[c := Reading(h, f, [])]);
    CallReads(m, t6, c, f);
    var t8 := t6.(calls := t6.calls[c := Checked(h, f)]);
    CallPublishes(m, t8, c);
    CallCompletes(m, Apply(m, Apply(m, t8, RemoveOld(c)), Rename(c)), c);
    RunOfSix(m, t, AsksEarly(m, c));
    RunOfSix(m, Run(m, t, AsksEarly(m, c)), PublishesAlone(m, c));
    RunAppend(m, t, AsksEarly(m, c), PublishesAlone(m, c));
  }
}

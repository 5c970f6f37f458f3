/**
  `AttachmentTransferSender`: the queue, the pump and the runs it starts.  A run is cut at its
  awaits; any control call may come between two of its steps.
*/
module Sender {
  import opened Common
  import opened ChunkGeometry

  /** `iterateAttachmentChunks`: the indices below `count` that are asked for, in order. */
  function Selected(count: nat, only: Option<set<nat>>): seq<nat> {
    if count == 0 then []
    else Selected(count - 1, only) + (if only.None? || count - 1 in only.value then [count - 1] else [])
  }

  /** Each requested index exactly once, in ascending order, and nothing else. */
  lemma {:induction false} SelectedIsExact(count: nat, only: Option<set<nat>>)
    ensures forall i: nat :: i in Selected(count, only) <==> i < count && (only.None? || i in only.value)
    ensures forall j, k | 0 <= j < k < |Selected(count, only)| :: Selected(count, only)[j] < Selected(count, only)[k]
  {
    if count > 0 {
      SelectedIsExact(count - 1, only);
      var before := Selected(count - 1, only);
      forall k | 0 <= k < |before| ensures before[k] < count - 1 { assert before[k] in before; }
    }
  }

  type Id = nat

  datatype Transfer = Transfer(
    chunkCount: nat,
    missing: Option<set<nat>>,
    paused: bool,
    cancelled: bool,
    awaitingVerification: bool,
    retryCount: nat)

  /** Where a run is waiting.  `Frame` points hold the frame that is being sent. */
  datatype Point =
    | SendingManifest
    | ReadingFrame
    | PausedBefore
    | Backpressure
    | Ready
    | SendingChunk
    | RetryDelay
    | Draining
    | SendingComplete
    | SendingError

  /**
    `asked` is the need list and `chunkCount` the bound the iterator was started with, `plan` what it yields,
    `next` the frame in hand and `delivered` the record of successful `sendChunk` calls.
  */
  datatype Run = Run(id: Id, at: Point, chunkCount: nat, asked: Option<set<nat>>, plan: seq<nat>, next: nat, delivered: seq<nat>)

  datatype Output = ManifestOut(id: Id) | ChunkOut(id: Id, index: nat) | CompleteOut(id: Id) | ErrorOut(id: Id)

  datatype State = State(
    maxConcurrent: nat,
    retryLimit: nat,
    queue: seq<Id>,
    transfers: map<Id, Transfer>,
    active: set<Id>,
    runs: map<nat, Run>,
    nextRun: nat)

  datatype Event =
    | Offer(id: Id, chunkCount: nat)
    | AcceptAndStart(id: Id, missing: Option<set<nat>>)
    | PauseTransfer(id: Id)
    | ResumeTransfer(id: Id, missing: Option<set<nat>>)
    | CancelTransfer(id: Id)
    | Confirm(id: Id)
    | Advance(run: nat, ok: bool)

  // ---- The pump ----

  predicate Eligible(s: State, id: Id) {
    id in s.transfers && !s.transfers[id].cancelled && !s.transfers[id].paused
    && !s.transfers[id].awaitingVerification && id !in s.active
  }

  /** `queue.find`: the first eligible position, or the length of the queue. */
  function FirstEligible(s: State, from: nat): (k: nat)
    requires from <= |s.queue|
    ensures from <= k <= |s.queue|
    ensures k < |s.queue| ==> Eligible(s, s.queue[k])
    ensures forall j | from <= j < k :: !Eligible(s, s.queue[j])
    decreases |s.queue| - from
  {
    if from == |s.queue| || Eligible(s, s.queue[from]) then from else FirstEligible(s, from + 1)
  }

  function StartRun(s: State, id: Id): State {
    s.(active := s.active + {id},
       runs := s.runs[s.nextRun := Run(id, SendingManifest, 0, None, [], 0, [])],
       nextRun := s.nextRun + 1)
  }

  function Pump(s: State): State
    decreases s.maxConcurrent - |s.active|
  {
    if |s.active| >= s.maxConcurrent then s
    else
      var k := FirstEligible(s, 0);
      if k == |s.queue| then s else Pump(StartRun(s, s.queue[k]))
  }

  lemma PumpStep(s: State)
    ensures var k := FirstEligible(s, 0);
      Pump(s) == if |s.active| < s.maxConcurrent && k < |s.queue| then Pump(StartRun(s, s.queue[k])) else s
  {
  }

  /** The pump stops only when all slots are taken or nothing in the queue is eligible. */
  lemma {:induction false} PumpIsMaximal(s: State)
    ensures Pump(s).queue == s.queue
    ensures |Pump(s).active| < s.maxConcurrent ==> forall id | id in s.queue :: !Eligible(Pump(s), id)
    decreases s.maxConcurrent - |s.active|
  {
    PumpStep(s);
    var k := FirstEligible(s, 0);
    if |s.active| < s.maxConcurrent && k < |s.queue| { PumpIsMaximal(StartRun(s, s.queue[k])); }
  }

  function Remove(queue: seq<Id>, id: Id): seq<Id> {
    if queue == [] then [] else if queue[0] == id then queue[1..] else [queue[0]] + Remove(queue[1..], id)
  }

  function Update(s: State, id: Id, t: Transfer): State { s.(transfers := s.transfers[id := t]) }

  /** The `finally` of a run. */
  function EndRun(s: State, r: nat): State
    requires r in s.runs
  {
    var id := s.runs[r].id;
    var s' := s.(runs := s.runs - {r}, active := s.active - {id});
    Pump(if id in s.transfers && s.transfers[id].cancelled then s'.(queue := Remove(s'.queue, id)) else s')
  }

  function Move(s: State, r: nat, run: Run): State { s.(runs := s.runs[r := run]) }

  /** How a run goes on: it waits, it ends, or it reaches its next await having updated its transfer. */
  datatype Next = Wait | End | To(run: Run, transfer: Transfer)

  /** The `catch` of a run. */
  function Failed(run: Run, t: Transfer): Next { To(run.(at := SendingError), t.(awaitingVerification := false)) }

  /** One continuation of `run`; `ok` says whether the awaited call succeeded. */
  function Decide(run: Run, t: Transfer, retryLimit: nat, ok: bool): Next {
    match run.at
    case SendingManifest =>
      if t.cancelled || !ok then End
      else To(run.(at := ReadingFrame, chunkCount := t.chunkCount, asked := t.missing,
                   plan := Selected(t.chunkCount, t.missing), next := 0, delivered := []), t)
    case ReadingFrame =>
      if run.next >= |run.plan| then (if t.cancelled then End else To(run.(at := Draining), t))
      else if !ok then Failed(run, t)
      else if t.cancelled then End
      else To(run.(at := PausedBefore), t)
    case PausedBefore =>
      if t.paused then Wait
      else if t.cancelled then End
      else To(run.(at := Backpressure), t)
    case Backpressure =>
      if !ok then Failed(run, t)
      else if t.cancelled then End
      else To(run.(at := Ready), t)
    case Ready =>
      if t.cancelled then End
      else if t.paused || run.next >= |run.plan| then Wait
      else To(run.(at := SendingChunk), t)
    case SendingChunk =>
      if ok then
        if t.cancelled then End
        else To(run.(at := ReadingFrame, next := run.next + 1,
                     delivered := run.delivered + (if run.next < |run.plan| then [run.plan[run.next]] else [])), t)
      else
        var t' := t.(retryCount := t.retryCount + 1);
        if t'.retryCount > retryLimit then Failed(run, t') else To(run.(at := RetryDelay), t')
    case RetryDelay => if t.cancelled then End else To(run.(at := Ready), t)
    case Draining =>
      if !ok then Failed(run, t)
      else if t.cancelled then End
      else To(run.(at := SendingComplete), t.(awaitingVerification := true))
    case SendingComplete =>
      if ok then End else Failed(run, t)
    case SendingError => End
  }

  /** What the continuation starts to send: a chunk, `file.complete`, or `file.error` from the `catch`. */
  function Sends(run: Run, t: Transfer, retryLimit: nat, ok: bool): seq<Output> {
    var next := Decide(run, t, retryLimit, ok);
    if !next.To? then []
    else if next.run.at.SendingError? then [ErrorOut(run.id)]
    else if run.at.Ready? && run.next < |run.plan| then [ChunkOut(run.id, run.plan[run.next])]
    else if run.at.Draining? then [CompleteOut(run.id)]
    else []
  }

  predicate Live(s: State, r: nat) { r in s.runs && s.runs[r].id in s.transfers }

  function Continue(s: State, r: nat, ok: bool): State {
    if !Live(s, r) then s
    else match Decide(s.runs[r], s.transfers[s.runs[r].id], s.retryLimit, ok)
      case Wait => s
      case End => EndRun(s, r)
      case To(run, t) => Move(Update(s, run.id, t), r, run)
  }

  predicate Known(s: State, id: Id) { id in s.transfers && (id in s.queue || id in s.active) }

  function Apply(s: State, ev: Event): State {
    match ev
    case Offer(id, count) =>
      if id in s.transfers then s
      else Update(s.(queue := s.queue + [id]), id, Transfer(count, None, false, false, false, 0))
    case AcceptAndStart(id, missing) =>
      if !Known(s, id) then s
      else Pump(Update(s, id, s.transfers[id].(missing := missing, paused := false, awaitingVerification := false)))
    case PauseTransfer(id) =>
      if !Known(s, id) then s else Update(s, id, s.transfers[id].(paused := true))
    case ResumeTransfer(id, missing) =>
      if !Known(s, id) then s
      else Pump(Update(s, id, s.transfers[id].(paused := false, awaitingVerification := false,
                                                missing := if missing.Some? then missing else s.transfers[id].missing)))
    case CancelTransfer(id) =>
      if !Known(s, id) then s
      else
        var s' := Update(s, id, s.transfers[id].(cancelled := true, paused := false, awaitingVerification := false));
        if id in s.active then s' else s'.(queue := Remove(s'.queue, id))
    case Confirm(id) =>
      if !Known(s, id) then s
      else Update(s, id, s.transfers[id].(awaitingVerification := false)).(queue := Remove(s.queue, id))
    case Advance(r, ok) => Continue(s, r, ok)
  }

  /** Every run begins by sending the manifest; `from` is the first run that is new. */
  function Manifests(s: State, from: nat): seq<Output>
    decreases s.nextRun - from
  {
    if from >= s.nextRun then []
    else (if from in s.runs then [ManifestOut(s.runs[from].id)] else []) + Manifests(s, from + 1)
  }

  function Outputs(s: State, ev: Event): seq<Output> {
    (if ev.Advance? && Live(s, ev.run) then Sends(s.runs[ev.run], s.transfers[s.runs[ev.run].id], s.retryLimit, ev.ok) else [])
    + Manifests(Apply(s, ev), s.nextRun)
  }

  function RunAll(s: State, evs: seq<Event>): State
    decreases |evs|
  {
    if evs == [] then s else RunAll(Apply(s, evs[0]), evs[1..])
  }

  /** Everything sent along a run of events. */
  function Trace(s: State, evs: seq<Event>): seq<Output>
    decreases |evs|
  {
    if evs == [] then [] else Outputs(s, evs[0]) + Trace(Apply(s, evs[0]), evs[1..])
  }

  predicate Initial(s: State) {
    s.queue == [] && s.transfers == map[] && s.active == {} && s.runs == map[]
  }

  // ---- The invariant ----

  /** What a run has delivered is the part of its plan before the frame in hand. */
  predicate Consistent(run: Run) {
    && (!run.at.SendingManifest? ==> run.plan == Selected(run.chunkCount, run.asked))
    && run.next <= |run.plan| && run.delivered == run.plan[..run.next]
    && (run.at.Draining? || run.at.SendingComplete? ==> run.next == |run.plan|)
    && (run.at.SendingChunk? ==> run.next < |run.plan|)
  }

  lemma DecideKeepsConsistent(run: Run, t: Transfer, retryLimit: nat, ok: bool)
    requires Consistent(run)
    ensures var n := Decide(run, t, retryLimit, ok); n.To? ==> n.run.id == run.id && Consistent(n.run)
  {
    hide Selected;
    if run.at.SendingChunk? && ok {
      assert run.plan[..run.next] + [run.plan[run.next]] == run.plan[..run.next + 1];
    }
  }

  ghost predicate Bounded(s: State) { |s.active| <= s.maxConcurrent && |s.runs.Keys| == |s.active| }

  ghost predicate RunsTrue(s: State) {
    && (forall r | r in s.runs :: r < s.nextRun && s.runs[r].id in s.active && s.runs[r].id in s.transfers)
    && (forall r, q | r in s.runs && q in s.runs && r != q :: s.runs[r].id != s.runs[q].id)
    && (forall r | r in s.runs :: Consistent(s.runs[r]))
  }

  ghost predicate Inv(s: State) {
    Bounded(s) && RunsTrue(s) && forall id | id in s.queue :: id in s.transfers
  }

  lemma OneMore<T>(s: set<T>, x: T)
    requires x !in s
    ensures |s + {x}| == |s| + 1
  {
  }

  lemma StartRunBounded(s: State, id: Id)
    requires Bounded(s) && |s.active| < s.maxConcurrent && id !in s.active && s.nextRun !in s.runs
    ensures Bounded(StartRun(s, id))
  {
    assert StartRun(s, id).runs.Keys == s.runs.Keys + {s.nextRun};
    OneMore(s.runs.Keys, s.nextRun);
    OneMore(s.active, id);
  }

  lemma StartRunTrue(s: State, id: Id)
    requires RunsTrue(s) && id in s.transfers && id !in s.active
    ensures RunsTrue(StartRun(s, id))
  {
    var run := Run(id, SendingManifest, 0, None, [], 0, []);
    assert Consistent(run);
    hide Consistent;
    var s' := StartRun(s, id);
    assert s'.runs == s.runs[s.nextRun := run];
  }

  lemma StartRunKeepsInv(s: State, id: Id)
    requires Inv(s) && |s.active| < s.maxConcurrent && Eligible(s, id)
    ensures Inv(StartRun(s, id))
  {
    assert s.nextRun !in s.runs;
    StartRunBounded(s, id);
    StartRunTrue(s, id);
    hide Bounded, RunsTrue;
  }

  lemma {:induction false} PumpKeepsInv(s: State)
    requires Inv(s)
    ensures Inv(Pump(s)) && Pump(s).transfers == s.transfers && Pump(s).maxConcurrent == s.maxConcurrent
    decreases s.maxConcurrent - |s.active|
  {
    if |s.active| < s.maxConcurrent {
      var k := FirstEligible(s, 0);
      if k < |s.queue| {
        StartRunKeepsInv(s, s.queue[k]);
        PumpKeepsInv(StartRun(s, s.queue[k]));
      }
    }
  }

  lemma {:induction false} RemoveShrinks(queue: seq<Id>, id: Id)
    ensures forall x | x in Remove(queue, id) :: x in queue
  {
    if queue != [] && queue[0] != id { RemoveShrinks(queue[1..], id); }
  }

  function Ended(s: State, r: nat): State
    requires r in s.runs
  {
    s.(runs := s.runs - {r}, active := s.active - {s.runs[r].id})
  }

  lemma EndedBounded(s: State, r: nat)
    requires Bounded(s) && r in s.runs && s.runs[r].id in s.active
    ensures Bounded(Ended(s, r))
  {
    var s', id := Ended(s, r), s.runs[r].id;
    assert s.runs.Keys == s'.runs.Keys + {r} && s.active == s'.active + {id};
    OneMore(s'.runs.Keys, r);
    OneMore(s'.active, id);
  }

  lemma EndedTrue(s: State, r: nat)
    requires RunsTrue(s) && r in s.runs
    ensures RunsTrue(Ended(s, r))
  {
    hide Consistent;
  }

  lemma EndRunKeepsInv(s: State, r: nat)
    requires Inv(s) && r in s.runs
    ensures Inv(EndRun(s, r)) && EndRun(s, r).transfers == s.transfers
  {
    var s', id := Ended(s, r), s.runs[r].id;
    EndedBounded(s, r);
    EndedTrue(s, r);
    RemoveShrinks(s'.queue, id);
    var s'' := if id in s.transfers && s.transfers[id].cancelled then s'.(queue := Remove(s'.queue, id)) else s';
    assert Bounded(s'') && RunsTrue(s'');
    hide Bounded, RunsTrue, Remove, Pump;
    PumpKeepsInv(s'');
  }

  lemma MoveKeepsInv(s: State, r: nat, run: Run, t: Transfer)
    requires Inv(s) && r in s.runs && run.id == s.runs[r].id && Consistent(run)
    ensures Inv(Move(Update(s, run.id, t), r, run))
  {
    assert s.runs[r := run].Keys == s.runs.Keys;
  }

  lemma StepKeepsInv(s: State, ev: Event)
    requires Inv(s)
    ensures Inv(Apply(s, ev))
  {
    match ev
    case Offer(id, _) =>
    case AcceptAndStart(id, missing) =>
      if Known(s, id) { PumpKeepsInv(Update(s, id, s.transfers[id].(missing := missing, paused := false, awaitingVerification := false))); }
    case PauseTransfer(id) =>
    case ResumeTransfer(id, missing) =>
      if Known(s, id) {
        PumpKeepsInv(Update(s, id, s.transfers[id].(paused := false, awaitingVerification := false,
                                                     missing := if missing.Some? then missing else s.transfers[id].missing)));
      }
    case CancelTransfer(id) => RemoveShrinks(s.queue, id);
    case Confirm(id) => RemoveShrinks(s.queue, id);
    case Advance(r, ok) => ContinueKeepsInv(s, r, ok);
  }

  lemma ContinueKeepsInv(s: State, r: nat, ok: bool)
    requires Inv(s)
    ensures Inv(Continue(s, r, ok))
  {
    if Live(s, r) {
      var next := Decide(s.runs[r], s.transfers[s.runs[r].id], s.retryLimit, ok);
      DecideKeepsConsistent(s.runs[r], s.transfers[s.runs[r].id], s.retryLimit, ok);
      match next
      case Wait =>
      case End => EndRunKeepsInv(s, r);
      case To(run, t) => MoveKeepsInv(s, r, run, t);
    }
  }

  lemma {:induction false} RunKeepsInv(s: State, evs: seq<Event>)
    requires Inv(s)
    ensures Inv(RunAll(s, evs))
    decreases |evs|
  {
    if evs != [] {
      StepKeepsInv(s, evs[0]);
      RunKeepsInv(Apply(s, evs[0]), evs[1..]);
    }
  }

  // ---- Main results ----

  /** At most `maxConcurrent` runs at once, never two of one transfer. */
  lemma {:induction false} RunsAreBounded(s0: State, evs: seq<Event>)
    requires Initial(s0)
    ensures var s := RunAll(s0, evs);
      |s.runs| <= s.maxConcurrent && forall r, q | r in s.runs && q in s.runs && r != q :: s.runs[r].id != s.runs[q].id
  {
    RunKeepsInv(s0, evs);
  }

  lemma {:induction false} ManifestsOnly(s: State, from: nat)
    ensures forall out | out in Manifests(s, from) :: out.ManifestOut? && exists k: nat :: from <= k < s.nextRun && k in s.runs && s.runs[k].id == out.id
    decreases s.nextRun - from
  {
    if from < s.nextRun { ManifestsOnly(s, from + 1); }
  }

  /** The pump leaves running runs alone and starts only transfers that are neither cancelled nor paused. */
  lemma {:induction false} PumpStarts(s: State)
    ensures Pump(s).nextRun >= s.nextRun && Pump(s).transfers == s.transfers
    ensures forall k: nat | k < s.nextRun && k in s.runs :: k in Pump(s).runs && Pump(s).runs[k] == s.runs[k]
    ensures forall k: nat | s.nextRun <= k < Pump(s).nextRun && k in Pump(s).runs :: Starts(s, Pump(s).runs[k].id)
    decreases s.maxConcurrent - |s.active|
  {
    PumpStep(s);
    var k := FirstEligible(s, 0);
    if |s.active| < s.maxConcurrent && k < |s.queue| {
      var s' := StartRun(s, s.queue[k]);
      assert Starts(s, s.queue[k]);
      PumpStarts(s') by { hide Pump; }
      hide Pump;
      assert s'.nextRun == s.nextRun + 1 && s'.runs[s.nextRun].id == s.queue[k];
      forall q: nat | s.nextRun <= q < Pump(s).nextRun && q in Pump(s).runs ensures Starts(s, Pump(s).runs[q].id) {
        if q > s.nextRun { assert Starts(s', Pump(s').runs[q].id); }
      }
    }
  }

  predicate Starts(s: State, id: Id) { id in s.transfers && !s.transfers[id].cancelled && !s.transfers[id].paused }

  /** The state a step pumps from, if it pumps. */
  lemma NewRunsStart(s: State, ev: Event, k: nat)
    requires s.nextRun <= k < Apply(s, ev).nextRun && k in Apply(s, ev).runs
    ensures Starts(Apply(s, ev), Apply(s, ev).runs[k].id)
  {
    hide Pump, FirstEligible, Remove, Selected;
    match ev
    case AcceptAndStart(x, missing) =>
      if Known(s, x) { PumpStarts(Update(s, x, s.transfers[x].(missing := missing, paused := false, awaitingVerification := false))); }
    case ResumeTransfer(x, missing) =>
      if Known(s, x) {
        PumpStarts(Update(s, x, s.transfers[x].(paused := false, awaitingVerification := false,
                                                 missing := if missing.Some? then missing else s.transfers[x].missing)));
      }
    case Advance(r, ok) =>
      if Live(s, r) {
        var x := s.runs[r].id;
        var s' := s.(runs := s.runs - {r}, active := s.active - {x});
        PumpStarts(if x in s.transfers && s.transfers[x].cancelled then s'.(queue := Remove(s'.queue, x)) else s');
      }
    case _ =>
  }

  lemma ManifestsAreLegal(s: State, ev: Event, out: Output)
    requires out in Manifests(Apply(s, ev), s.nextRun)
    ensures out.ManifestOut? && Starts(Apply(s, ev), out.id)
  {
    ManifestsOnly(Apply(s, ev), s.nextRun);
    var k: nat :| s.nextRun <= k < Apply(s, ev).nextRun && k in Apply(s, ev).runs && Apply(s, ev).runs[k].id == out.id;
    NewRunsStart(s, ev, k);
  }

  lemma SendsAreLegal(run: Run, t: Transfer, retryLimit: nat, ok: bool, out: Output)
    requires out in Sends(run, t, retryLimit, ok)
    ensures out.id == run.id && !out.ManifestOut? && (out.ErrorOut? || (!t.cancelled && (out.ChunkOut? ==> !t.paused)))
    ensures out.ChunkOut? ==> run.at.Ready? && run.next < |run.plan| && out.index == run.plan[run.next]
    ensures out.CompleteOut? ==> run.at.Draining?
  {
    hide Selected;
  }

  /**
    A chunk or `file.complete` is sent only while its transfer is not cancelled, a chunk only while it is not paused, and a
    run starts with its manifest only for a transfer that is neither.
  */
  lemma StepSendsLegally(s: State, ev: Event, out: Output)
    requires out in Outputs(s, ev)
    ensures out.ChunkOut? || out.CompleteOut? ==> out.id in s.transfers && !s.transfers[out.id].cancelled
    ensures out.ChunkOut? ==> !s.transfers[out.id].paused
    ensures out.ManifestOut? ==> Starts(Apply(s, ev), out.id)
  {
    hide Apply, Manifests, Sends;
    if out in Manifests(Apply(s, ev), s.nextRun) {
      ManifestsAreLegal(s, ev, out);
    } else {
      SendsAreLegal(s.runs[ev.run], s.transfers[s.runs[ev.run].id], s.retryLimit, ev.ok, out);
    }
  }

  /** `file.error` is the one message that can follow a cancel: exactly when a call that was in flight then fails for good. */
  lemma ErrorExactlyWhen(s: State, r: nat, ok: bool)
    requires Live(s, r)
    ensures var run, t := s.runs[r], s.transfers[s.runs[r].id];
      ErrorOut(run.id) in Outputs(s, Advance(r, ok)) <==>
        && !ok
        && ((run.at.ReadingFrame? && run.next < |run.plan|) || run.at.Backpressure? || run.at.Draining? || run.at.SendingComplete?
            || (run.at.SendingChunk? && t.retryCount >= s.retryLimit))
  {
    ManifestsOnly(Apply(s, Advance(r, ok)), s.nextRun);
    hide Selected, Apply, Manifests;
  }

  /** A chunk send that succeeds is recorded under the index that was sent. */
  lemma SentIsRecorded(s: State, r: nat, ok: bool, out: Output)
    requires Live(s, r) && out.ChunkOut? && out in Outputs(s, Advance(r, ok))
    ensures var sending := Apply(s, Advance(r, ok)); var done := Apply(sending, Advance(r, true));
      && r in done.runs && done.runs[r].id == out.id
      && done.runs[r].delivered == s.runs[r].delivered + [out.index]
  {
    ManifestsOnly(Apply(s, Advance(r, ok)), s.nextRun);
    SendsAreLegal(s.runs[r], s.transfers[s.runs[r].id], s.retryLimit, ok, out);
    hide Pump, Selected, Manifests;
    var sending := Apply(s, Advance(r, ok));
    assert sending.runs[r] == s.runs[r].(at := SendingChunk);
  }

  predicate Dead(s: State, id: Id) { id in s.transfers && s.transfers[id].cancelled }

  lemma {:induction false} PumpKeepsTransfers(s: State)
    ensures Pump(s).transfers == s.transfers
    decreases s.maxConcurrent - |s.active|
  {
    if |s.active| < s.maxConcurrent {
      var k := FirstEligible(s, 0);
      if k < |s.queue| { PumpKeepsTransfers(StartRun(s, s.queue[k])); }
    }
  }

  /** Cancelling is final. */
  lemma StepKeepsDead(s: State, ev: Event, id: Id)
    requires Dead(s, id)
    ensures Dead(Apply(s, ev), id)
  {
    hide Pump, FirstEligible, Remove, Selected;
    match ev
    case AcceptAndStart(x, missing) =>
      if Known(s, x) { PumpKeepsTransfers(Update(s, x, s.transfers[x].(missing := missing, paused := false, awaitingVerification := false))); }
    case ResumeTransfer(x, missing) =>
      if Known(s, x) {
        PumpKeepsTransfers(Update(s, x, s.transfers[x].(paused := false, awaitingVerification := false,
                                                         missing := if missing.Some? then missing else s.transfers[x].missing)));
      }
    case Advance(r, ok) =>
      if Live(s, r) {
        var x := s.runs[r].id;
        var s' := s.(runs := s.runs - {r}, active := s.active - {x});
        PumpKeepsTransfers(if x in s.transfers && s.transfers[x].cancelled then s'.(queue := Remove(s'.queue, x)) else s');
      }
    case _ =>
  }

  /** After a cancel neither a chunk nor `file.complete` nor a manifest is ever sent again for that transfer. */
  lemma {:induction false} NothingAfterCancel(s: State, id: Id, evs: seq<Event>)
    requires Known(s, id)
    ensures forall out | out in Trace(Apply(s, CancelTransfer(id)), evs) && out.id == id :: out.ErrorOut?
  {
    SilentWhenDead(Apply(s, CancelTransfer(id)), id, evs);
  }

  lemma {:induction false} SilentWhenDead(s: State, id: Id, evs: seq<Event>)
    requires Dead(s, id)
    ensures forall out | out in Trace(s, evs) && out.id == id :: out.ErrorOut?
    decreases |evs|
  {
    if evs != [] {
      StepKeepsDead(s, evs[0], id);
      hide Apply, Outputs;
      forall out | out in Outputs(s, evs[0]) && out.id == id ensures out.ErrorOut? { StepSendsLegally(s, evs[0], out); }
      SilentWhenDead(Apply(s, evs[0]), id, evs[1..]);
    }
  }

  /**
    When `file.complete` is sent, the run has delivered exactly the requested indices, each once and in
    ascending order, whatever pauses, retries and replaced need lists came in between.
  */
  lemma {:induction false} CompleteMeansDelivered(s0: State, evs: seq<Event>, r: nat, ok: bool)
    requires Initial(s0)
    requires Live(RunAll(s0, evs), r) && CompleteOut(RunAll(s0, evs).runs[r].id) in Outputs(RunAll(s0, evs), Advance(r, ok))
    ensures var run := RunAll(s0, evs).runs[r];
      && (forall i: nat :: i in run.delivered <==> i < run.chunkCount && (run.asked.None? || i in run.asked.value))
      && (forall j, k | 0 <= j < k < |run.delivered| :: run.delivered[j] < run.delivered[k])
  {
    RunKeepsInv(s0, evs);
    var s := RunAll(s0, evs);
    var run := s.runs[r];
    ManifestsOnly(Apply(s, Advance(r, ok)), s.nextRun);
    SendsAreLegal(run, s.transfers[run.id], s.retryLimit, ok, CompleteOut(run.id));
    assert Consistent(run);
    SelectedIsExact(run.chunkCount, run.asked);
    assert run.plan[..|run.plan|] == run.plan;
  }

  // ---- Progress ----

  /** `n` steps of run `r` in which every awaited call succeeds. */
  function Advances(s: State, r: nat, n: nat): State { if n == 0 then s else Apply(Advances(s, r, n - 1), Advance(r, true)) }

  /** What is sent along these steps. */
  function OutputsAlong(s: State, r: nat, n: nat): seq<Output> {
    if n == 0 then [] else OutputsAlong(s, r, n - 1) + Outputs(Advances(s, r, n - 1), Advance(r, true))
  }

  function Chunks(id: Id, plan: seq<nat>): seq<Output> { seq(|plan|, k requires 0 <= k < |plan| => ChunkOut(id, plan[k])) }

  predicate Undisturbed(s: State, r: nat) {
    Live(s, r) && !s.transfers[s.runs[r].id].paused && !s.transfers[s.runs[r].id].cancelled
  }

  /** One step of a run, seen from the state `s` it started in. */
  lemma StepMoves(s: State, r: nat, now: Run, next: Run)
    requires Undisturbed(s, r) && now.id == next.id == s.runs[r].id
    requires Decide(now, s.transfers[now.id], s.retryLimit, true) == To(next, s.transfers[now.id])
    ensures Apply(Move(s, r, now), Advance(r, true)) == Move(s, r, next)
    ensures Outputs(Move(s, r, now), Advance(r, true)) == Sends(now, s.transfers[now.id], s.retryLimit, true)
  {
    hide Decide, Sends;
    assert s.transfers[next.id := s.transfers[next.id]] == s.transfers;
    assert s.runs[r := now][r := next] == s.runs[r := next];
  }

  lemma MoveNothing(s: State, r: nat)
    requires r in s.runs
    ensures Move(s, r, s.runs[r]) == s
  {
    assert s.runs[r := s.runs[r]] == s.runs;
  }

  /** The successive stands of a run that delivers the frame in hand. */
  lemma FrameDecisions(run: Run, t: Transfer, retryLimit: nat)
    requires run.at.ReadingFrame? && run.next < |run.plan| && !t.paused && !t.cancelled
    ensures Decide(run, t, retryLimit, true) == To(run.(at := PausedBefore), t)
    ensures Decide(run.(at := PausedBefore), t, retryLimit, true) == To(run.(at := Backpressure), t)
    ensures Decide(run.(at := Backpressure), t, retryLimit, true) == To(run.(at := Ready), t)
    ensures Decide(run.(at := Ready), t, retryLimit, true) == To(run.(at := SendingChunk), t)
    ensures Decide(run.(at := SendingChunk), t, retryLimit, true)
         == To(run.(next := run.next + 1, delivered := run.delivered + [run.plan[run.next]]), t)
    ensures Sends(run, t, retryLimit, true) == Sends(run.(at := PausedBefore), t, retryLimit, true) == []
    ensures Sends(run.(at := Backpressure), t, retryLimit, true) == Sends(run.(at := SendingChunk), t, retryLimit, true) == []
    ensures Sends(run.(at := Ready), t, retryLimit, true) == [ChunkOut(run.id, run.plan[run.next])]
  {
    hide Selected;
  }

  lemma AdvancesFive(s: State, r: nat)
    ensures var a := Advance(r, true); Advances(s, r, 5) == Apply(Apply(Apply(Apply(Apply(s, a), a), a), a), a)
    ensures var a := Advance(r, true); var s1 := Apply(s, a); var s2 := Apply(s1, a); var s3 := Apply(s2, a); var s4 := Apply(s3, a);
      OutputsAlong(s, r, 5) == Outputs(s, a) + Outputs(s1, a) + Outputs(s2, a) + Outputs(s3, a) + Outputs(s4, a)
  {
    hide Apply, Outputs;
    assert OutputsAlong(s, r, 1) == Outputs(s, Advance(r, true));
    assert OutputsAlong(s, r, 3) == OutputsAlong(s, r, 2) + Outputs(Advances(s, r, 2), Advance(r, true));
    assert Advances(s, r, 1) == Apply(Advances(s, r, 0), Advance(r, true));
    assert Advances(s, r, 3) == Apply(Advances(s, r, 2), Advance(r, true));
  }

  /** Five steps deliver the frame in hand and fetch the next one. */
  lemma FrameIsDelivered(s: State, r: nat)
    requires Undisturbed(s, r) && s.runs[r].at.ReadingFrame? && s.runs[r].next < |s.runs[r].plan|
    ensures var run := s.runs[r];
      && Advances(s, r, 5) == Move(s, r, run.(next := run.next + 1, delivered := run.delivered + [run.plan[run.next]]))
      && OutputsAlong(s, r, 5) == [ChunkOut(run.id, run.plan[run.next])]
  {
    hide Apply, Decide, Move, Advances, Selected, Consistent, Sends, Outputs, OutputsAlong;
    var run := s.runs[r];
    FrameDecisions(run, s.transfers[run.id], s.retryLimit);
    AdvancesFive(s, r);
    MoveNothing(s, r);
    StepMoves(s, r, run, run.(at := PausedBefore));
    StepMoves(s, r, run.(at := PausedBefore), run.(at := Backpressure));
    StepMoves(s, r, run.(at := Backpressure), run.(at := Ready));
    StepMoves(s, r, run.(at := Ready), run.(at := SendingChunk));
    StepMoves(s, r, run.(at := SendingChunk), run.(next := run.next + 1, delivered := run.delivered + [run.plan[run.next]]));
  }

  lemma {:induction false} AdvancesAdd(s: State, r: nat, m: nat, n: nat)
    ensures Advances(Advances(s, r, m), r, n) == Advances(s, r, m + n)
  {
    hide Apply;
    if n > 0 { AdvancesAdd(s, r, m, n - 1); }
  }

  lemma {:induction false} OutputsAdd(s: State, r: nat, m: nat, n: nat)
    ensures OutputsAlong(s, r, m + n) == OutputsAlong(s, r, m) + OutputsAlong(Advances(s, r, m), r, n)
  {
    hide Apply, Outputs;
    if n > 0 {
      OutputsAdd(s, r, m, n - 1);
      AdvancesAdd(s, r, m, n - 1);
    }
  }

  lemma {:induction false} PlanIsDelivered(s: State, r: nat)
    requires Undisturbed(s, r) && s.runs[r].at.ReadingFrame? && Consistent(s.runs[r])
    ensures var run := s.runs[r]; var n := 5 * (|run.plan| - run.next);
      && Advances(s, r, n) == Move(s, r, run.(next := |run.plan|, delivered := run.plan))
      && OutputsAlong(s, r, n) == Chunks(run.id, run.plan[run.next..])
    decreases |s.runs[r].plan| - s.runs[r].next
  {
    hide Selected, Apply, Outputs;
    var run := s.runs[r];
    var rest := run.plan[run.next..];
    if run.next < |run.plan| {
      FrameIsDelivered(s, r);
      var next := run.(next := run.next + 1, delivered := run.delivered + [run.plan[run.next]]);
      assert next.delivered == run.plan[..run.next + 1];
      var s' := Move(s, r, next);
      PlanIsDelivered(s', r);
      AdvancesAdd(s, r, 5, 5 * (|run.plan| - run.next - 1));
      OutputsAdd(s, r, 5, 5 * (|run.plan| - run.next - 1));
      assert Chunks(run.id, rest) == [ChunkOut(run.id, run.plan[run.next])] + Chunks(run.id, run.plan[run.next + 1..]);
      assert Move(s', r, run.(next := |run.plan|, delivered := run.plan)) == Move(s, r, run.(next := |run.plan|, delivered := run.plan));
    } else {
      assert run.plan[..|run.plan|] == run.plan && rest == [];
      assert Move(s, r, run) == s;
    }
  }

  /**
    A run that has just sent its manifest and is left alone sends every requested chunk, in order, delivers it, and then
    sends `file.complete`.
  */
  lemma {:induction false} UndisturbedRunCompletes(s: State, r: nat)
    requires Undisturbed(s, r) && s.runs[r].at.SendingManifest?
    ensures var id, t := s.runs[r].id, s.transfers[s.runs[r].id]; var plan := Selected(t.chunkCount, t.missing);
      var end := Advances(s, r, 5 * |plan| + 3);
      && OutputsAlong(s, r, 5 * |plan| + 3) == Chunks(id, plan) + [CompleteOut(id)]
      && r in end.runs && end.runs[r].id == id && end.runs[r].delivered == plan && end.runs[r].at.SendingComplete?
      && end == Move(Update(s, id, t.(awaitingVerification := true)), r, end.runs[r])
  {
    hide Apply, Decide, Move, Advances, Outputs, OutputsAlong, Selected, Consistent, Begun, Drained, Sends;
    var run, t := s.runs[r], s.transfers[s.runs[r].id];
    var n := 5 * |Selected(t.chunkCount, t.missing)|;
    BeginsAndDrains(run, t, s.retryLimit);
    MoveNothing(s, r);
    DrainedSends(s, r);
    PlanFromBegun(s, r);
    StepMoves(s, r, run, Begun(run, t));
    AdvancesNext(s, r, 0);
    AdvancesAdd(s, r, 1, n);
    OutputsAdd(s, r, 1, n);
    StepMoves(s, r, Drained(run, t).(at := ReadingFrame), Drained(run, t));
    AdvancesNext(s, r, n + 1);
    AdvancesNext(s, r, n + 2);
  }

  lemma PlanFromBegun(s: State, r: nat)
    requires Undisturbed(s, r) && s.runs[r].at.SendingManifest?
    ensures var run, t := s.runs[r], s.transfers[s.runs[r].id]; var plan := Selected(t.chunkCount, t.missing);
      && Advances(Move(s, r, Begun(run, t)), r, 5 * |plan|) == Move(s, r, Drained(run, t).(at := ReadingFrame))
      && OutputsAlong(Move(s, r, Begun(run, t)), r, 5 * |plan|) == Chunks(run.id, plan)
      && Begun(run, t).id == Drained(run, t).id == run.id && Drained(run, t).delivered == plan
  {
    hide Selected, Advances, Apply, Decide, Outputs;
    var run, t := s.runs[r], s.transfers[s.runs[r].id];
    var begun, full := Begun(run, t), Drained(run, t).(at := ReadingFrame);
    BeginsAndDrains(run, t, s.retryLimit);
    PlanIsDelivered(Move(s, r, begun), r);
    assert begun.plan[0..] == begun.plan;
    assert s.runs[r := begun][r := full] == s.runs[r := full];
  }

  lemma AdvancesNext(s: State, r: nat, n: nat)
    ensures Advances(s, r, 0) == s && Advances(s, r, n + 1) == Apply(Advances(s, r, n), Advance(r, true))
    ensures OutputsAlong(s, r, 0) == [] && OutputsAlong(s, r, n + 1) == OutputsAlong(s, r, n) + Outputs(Advances(s, r, n), Advance(r, true))
  {
    hide Apply, Outputs;
  }

  /** The run when it has fetched its plan, and when it has delivered all of it. */
  function Begun(run: Run, t: Transfer): Run {
    run.(at := ReadingFrame, chunkCount := t.chunkCount, asked := t.missing, plan := Selected(t.chunkCount, t.missing), next := 0, delivered := [])
  }

  function Drained(run: Run, t: Transfer): Run {
    var begun := Begun(run, t);
    begun.(at := Draining, next := |begun.plan|, delivered := begun.plan)
  }

  lemma BeginsAndDrains(run: Run, t: Transfer, retryLimit: nat)
    requires run.at.SendingManifest? && !t.cancelled
    ensures Decide(run, t, retryLimit, true) == To(Begun(run, t), t) && Consistent(Begun(run, t)) && Sends(run, t, retryLimit, true) == []
    ensures var full := Drained(run, t).(at := ReadingFrame);
      Decide(full, t, retryLimit, true) == To(Drained(run, t), t) && Sends(full, t, retryLimit, true) == []
    ensures Begun(run, t).id == Drained(run, t).id == run.id
  {
    hide Selected;
    assert Begun(run, t).plan[..0] == [];
  }

  lemma DrainedSends(s: State, r: nat)
    requires Undisturbed(s, r)
    ensures var id, t := s.runs[r].id, s.transfers[s.runs[r].id]; var drained := Drained(s.runs[r], t); var end := Move(s, r, drained);
      && Outputs(end, Advance(r, true)) == [CompleteOut(id)]
      && Apply(end, Advance(r, true)) == Move(Update(s, id, t.(awaitingVerification := true)), r, drained.(at := SendingComplete))
      && var last := Move(Update(s, id, t.(awaitingVerification := true)), r, drained.(at := SendingComplete));
         r in last.runs && last.runs[r] == drained.(at := SendingComplete)
  {
    hide Selected;
    var drained := Drained(s.runs[r], s.transfers[s.runs[r].id]);
    assert s.runs[r := drained][r := drained.(at := SendingComplete)] == s.runs[r := drained.(at := SendingComplete)];
  }

  /** The sender of one transfer between two runs. */
  predicate Serves(s: State, id: Id) {
    && s.queue == [id] && id in s.transfers && !s.transfers[id].cancelled
    && s.active == {} && s.runs == map[] && s.maxConcurrent > 0
  }

  lemma PumpOne(s: State, id: Id)
    requires s.queue == [id] && s.active == {} && s.maxConcurrent > 0
    ensures Pump(s) == if Eligible(s, id) then StartRun(s, id) else s
  {
    PumpStep(s);
    assert s.queue[0] == id;
    if Eligible(s, id) {
      var s' := StartRun(s, id);
      PumpStep(s');
      assert s'.queue[0] == id && !Eligible(s', id);
    }
  }

  lemma StartsServing(s: State, id: Id, only: Option<set<nat>>)
    requires Serves(s, id)
    ensures var s1 := Apply(s, AcceptAndStart(id, only)); var t := s.transfers[id].(missing := only, paused := false, awaitingVerification := false);
      && s1 == s.(transfers := s.transfers[id := t], active := {id}, nextRun := s.nextRun + 1,
                  runs := map[s.nextRun := Run(id, SendingManifest, 0, None, [], 0, [])])
  {
    var s0 := Update(s, id, s.transfers[id].(missing := only, paused := false, awaitingVerification := false));
    PumpOne(s0, id);
    hide Pump;
  }

  lemma EndsServing(s: State, r: nat, id: Id)
    requires s.queue == [id] && s.maxConcurrent > 0 && id in s.transfers && !s.transfers[id].cancelled && s.transfers[id].awaitingVerification
    requires s.active == {id} && s.runs.Keys == {r} && s.runs[r].id == id && s.runs[r].at.SendingComplete?
    ensures Serves(Apply(s, Advance(r, true)), id) && Apply(s, Advance(r, true)).transfers == s.transfers
    ensures Outputs(s, Advance(r, true)) == []
  {
    var s' := s.(runs := s.runs - {r}, active := s.active - {id});
    assert s'.runs == map[] && s'.active == {};
    PumpOne(s', id);
    hide Pump;
  }

  /** One acceptance or need list, served to its end: the manifest, the requested chunks in order, and `file.complete`. */
  lemma {:induction false} ServesRound(s: State, id: Id, only: Option<set<nat>>)
    requires Serves(s, id)
    ensures var s1, r, plan := Apply(s, AcceptAndStart(id, only)), s.nextRun, Selected(s.transfers[id].chunkCount, only);
      var end := Advances(s1, r, 5 * |plan| + 4);
      && OutputsAlong(s1, r, 5 * |plan| + 4) == Chunks(id, plan) + [CompleteOut(id)]
      && Serves(end, id) && end.transfers[id].chunkCount == s.transfers[id].chunkCount
  {
    hide Selected, Advances, OutputsAlong, Apply, Outputs;
    StartsServing(s, id, only);
    var s1, r := Apply(s, AcceptAndStart(id, only)), s.nextRun;
    var plan := Selected(s.transfers[id].chunkCount, only);
    UndisturbedRunCompletes(s1, r);
    var end := Advances(s1, r, 5 * |plan| + 3);
    assert end.runs.Keys == {r};
    EndsServing(end, r, id);
    AdvancesNext(s1, r, 5 * |plan| + 3);
  }

  // ---- The class ----

  datatype Frame = Frame(index: nat, offset: nat, payload: seq<Byte>)

  /** The loop of `iterateAttachmentChunks`, with every frame it yields. */
  method IterateAttachmentChunks(g: Layout, source: seq<Byte>, only: Option<set<nat>>) returns (frames: seq<Frame>)
    requires g.Valid() && |source| == g.size
    ensures |frames| == |Selected(g.Count(), only)|
    ensures forall k | 0 <= k < |frames| ::
      var index := Selected(g.Count(), only)[k];
      index < g.Count() && frames[k] == Frame(index, g.Offset(index), Slice(g, source, index))
  {
    frames := [];
    for index := 0 to g.Count()
      invariant |frames| == |Selected(index, only)|
      invariant forall k | 0 <= k < |frames| ::
        var at := Selected(index, only)[k];
        at < index && frames[k] == Frame(at, g.Offset(at), Slice(g, source, at))
    {
      if only.None? || index in only.value {
        ChunkInside(g, index);
        var offset := index * g.chunkSize;
        frames := frames + [Frame(index, offset, source[offset..Min(g.size, offset + g.chunkSize)])];
      }
    }
  }

  /** `AttachmentTransferSender`, with the runs it has in flight. */
  class TransferSender {
    const maxConcurrent: nat
    const retryLimit: nat
    var queue: seq<Id>
    var transfers: map<Id, Transfer>
    var active: set<Id>
    var runs: map<nat, Run>
    var nextRun: nat

    constructor (maxConcurrent: nat, retryLimit: nat)
      ensures Initial(View()) && this.maxConcurrent == maxConcurrent && this.retryLimit == retryLimit
    {
      this.maxConcurrent, this.retryLimit := maxConcurrent, retryLimit;
      queue, transfers, active, runs, nextRun := [], map[], {}, map[], 0;
    }

    ghost function View(): State
      reads this
    {
      State(maxConcurrent, retryLimit, queue, transfers, active, runs, nextRun)
    }

    method FindEligible() returns (k: nat)
      ensures k == FirstEligible(View(), 0)
    {
      k := 0;
      while k < |queue| && !(queue[k] in transfers && !transfers[queue[k]].cancelled && !transfers[queue[k]].paused
                             && !transfers[queue[k]].awaitingVerification && queue[k] !in active)
        invariant k <= |queue| && FirstEligible(View(), 0) == FirstEligible(View(), k)
      {
        k := k + 1;
      }
    }

    method PumpQueue()
      modifies this
      ensures View() == Pump(old(View()))
    {
      hide Pump;
      while |active| < maxConcurrent
        invariant Pump(View()) == Pump(old(View()))
        decreases maxConcurrent - |active|
      {
        ghost var before := View();
        PumpStep(before);
        var k := FindEligible();
        if k == |queue| { break; }
        assert Eligible(before, queue[k]);
        OneMore(active, queue[k]);
        runs := runs[nextRun := Run(queue[k], SendingManifest, 0, None, [], 0, [])];
        active, nextRun := active + {queue[k]}, nextRun + 1;
        assert View() == StartRun(before, queue[k]);
      }
      PumpStep(View());
    }

    method RemoveTransfer(id: Id)
      modifies this`queue
      ensures queue == Remove(old(queue), id)
    {
      var k := 0;
      while k < |queue| && queue[k] != id
        invariant k <= |queue| && queue == old(queue)
        invariant Remove(queue, id) == queue[..k] + Remove(queue[k..], id)
      {
        k := k + 1;
      }
      if k < |queue| { queue := queue[..k] + queue[k + 1..]; } else { assert queue[k..] == []; }
    }

    method StartOffer(id: Id, chunkCount: nat)
      requires id !in transfers
      modifies this
      ensures View() == Apply(old(View()), Offer(id, chunkCount))
    {
      queue := queue + [id];
      transfers := transfers[id := Transfer(chunkCount, None, false, false, false, 0)];
    }

    method Accept(id: Id, missing: Option<set<nat>>) returns (found: bool)
      modifies this
      ensures found == Known(old(View()), id) && View() == Apply(old(View()), AcceptAndStart(id, missing))
    {
      found := id in transfers && (id in queue || id in active);
      if !found { return; }
      transfers := transfers[id := transfers[id].(missing := missing, paused := false, awaitingVerification := false)];
      PumpQueue();
    }

    method Resume(id: Id, missing: Option<set<nat>>) returns (found: bool)
      modifies this
      ensures found == Known(old(View()), id) && View() == Apply(old(View()), ResumeTransfer(id, missing))
    {
      found := id in transfers && (id in queue || id in active);
      if !found { return; }
      var need := if missing.Some? then missing else transfers[id].missing;
      transfers := transfers[id := transfers[id].(paused := false, awaitingVerification := false, missing := need)];
      PumpQueue();
    }

    method CancelRun(id: Id) returns (found: bool)
      modifies this
      ensures found == Known(old(View()), id) && View() == Apply(old(View()), CancelTransfer(id))
    {
      found := id in transfers && (id in queue || id in active);
      if !found { return; }
      transfers := transfers[id := transfers[id].(cancelled := true, paused := false, awaitingVerification := false)];
      if id !in active { RemoveTransfer(id); }
    }

    /** The `finally` attached to run `r`. */
    method Finish(r: nat)
      requires r in runs
      modifies this
      ensures View() == EndRun(old(View()), r)
    {
      var id := runs[r].id;
      active, runs := active - {id}, runs - {r};
      if id in transfers && transfers[id].cancelled { RemoveTransfer(id); }
      PumpQueue();
    }
  }
}

/** What each call and each continuation may change in the outgoing queue, field by field over all of them. */
module SenderLaws {
  import opened Common
  import opened Sender

  // ---- The queue ----

  /** The first occurrence goes, and nothing else. */
  lemma {:induction false} RemoveMeans(queue: seq<Id>, id: Id) returns (before: seq<Id>, after: seq<Id>)
    ensures id !in queue ==> Remove(queue, id) == queue
    ensures id in queue ==> queue == before + [id] + after && id !in before && Remove(queue, id) == before + after
    decreases |queue|
  {
    before, after := [], queue;
    if queue != [] && queue[0] == id {
      after := queue[1..];
    } else if queue != [] {
      before, after := RemoveMeans(queue[1..], id);
      assert queue == [queue[0]] + queue[1..];
      before := [queue[0]] + before;
    }
  }

  lemma {:induction false} PumpLeaves(s: State)
    ensures Pump(s).queue == s.queue && Pump(s).transfers == s.transfers && s.active <= Pump(s).active
    ensures forall r | r in s.runs && r < s.nextRun :: r in Pump(s).runs && Pump(s).runs[r] == s.runs[r]
    decreases s.maxConcurrent - |s.active|
  {
    PumpStep(s);
    var k := FirstEligible(s, 0);
    if |s.active| < s.maxConcurrent && k < |s.queue| { PumpLeaves(StartRun(s, s.queue[k])); }
  }

  /** A call finds its transfer: it is queued or running. */
  predicate Found(s: State, id: Id) { id in s.transfers && (id in s.queue || id in s.active) }

  /** The run of a transfer that a continuation belongs to. */
  predicate Continues(s: State, ev: Event, id: Id) { ev.Advance? && ev.run in s.runs && s.runs[ev.run].id == id && id in s.transfers }

  /** The continuation ends a call with an error that ends the run. */
  predicate Breaks(s: State, ev: Event, id: Id) {
    && Continues(s, ev, id) && !ev.ok
    && var run := s.runs[ev.run];
       || (run.at.ReadingFrame? && run.next < |run.plan|) || run.at.Backpressure? || run.at.Draining? || run.at.SendingComplete?
       || (run.at.SendingChunk? && s.transfers[id].retryCount >= s.retryLimit)
  }

  lemma AdvanceLeaves(s: State, r: nat, ok: bool, id: Id)
    requires id in s.transfers && !Continues(s, Advance(r, ok), id)
    ensures id in Apply(s, Advance(r, ok)).transfers && Apply(s, Advance(r, ok)).transfers[id] == s.transfers[id]
  {
    hide Selected, Pump;
    if Live(s, r) && Decide(s.runs[r], s.transfers[s.runs[r].id], s.retryLimit, ok).End? { EndLeaves(s, r); }
  }

  lemma EndLeaves(s: State, r: nat)
    requires r in s.runs
    ensures EndRun(s, r).transfers == s.transfers
  {
    var id := s.runs[r].id;
    var s' := s.(runs := s.runs - {r}, active := s.active - {id});
    PumpLeaves(if id in s.transfers && s.transfers[id].cancelled then s'.(queue := Remove(s'.queue, id)) else s');
    hide Pump, Remove;
  }

  /** What a continuation does to its own transfer: it counts a failed send, and marks what waits for verification. */
  lemma AdvanceUpdates(s: State, r: nat, ok: bool, id: Id)
    requires Continues(s, Advance(r, ok), id)
    ensures var t, at := s.transfers[id], s.runs[r].at;
      && id in Apply(s, Advance(r, ok)).transfers
      && Apply(s, Advance(r, ok)).transfers[id] == t.(
           retryCount := t.retryCount + (if at.SendingChunk? && !ok then 1 else 0),
           awaitingVerification :=
             if at.Draining? && ok && !t.cancelled then true else if Breaks(s, Advance(r, ok), id) then false else t.awaitingVerification)
  {
    hide Selected, Pump;
    if Decide(s.runs[r], s.transfers[id], s.retryLimit, ok).End? { EndLeaves(s, r); }
  }

  /** A transfer is paused from the call until it is accepted, resumed or cancelled. */
  lemma PausedExactlyWhen(s: State, ev: Event, id: Id)
    requires id in s.transfers
    ensures id in Apply(s, ev).transfers
    ensures Apply(s, ev).transfers[id].paused
       <==> || (ev == PauseTransfer(id) && (id in s.queue || id in s.active))
            || (s.transfers[id].paused && !((ev.AcceptAndStart? || ev.ResumeTransfer? || ev.CancelTransfer?) && ev.id == id && (id in s.queue || id in s.active)))
  {
    CallUpdates(s, ev, id);
  }

  /** Every call, seen from one transfer. */
  lemma CallUpdates(s: State, ev: Event, id: Id)
    requires id in s.transfers
    ensures id in Apply(s, ev).transfers
    ensures !ev.Advance? && !(ev.id == id && (id in s.queue || id in s.active)) ==> Apply(s, ev).transfers[id] == s.transfers[id]
    ensures (id in s.queue || id in s.active) ==> var t, t' := s.transfers[id], Apply(s, ev).transfers[id];
      && (ev.AcceptAndStart? && ev.id == id ==> t' == t.(missing := ev.missing, paused := false, awaitingVerification := false))
      && (ev.ResumeTransfer? && ev.id == id ==>
            t' == t.(missing := if ev.missing.None? then t.missing else ev.missing, paused := false, awaitingVerification := false))
      && (ev == PauseTransfer(id) ==> t' == t.(paused := true))
      && (ev == CancelTransfer(id) ==> t' == t.(cancelled := true, paused := false, awaitingVerification := false))
      && (ev == Confirm(id) ==> t' == t.(awaitingVerification := false))
      && (ev.Offer? ==> t' == t)
    ensures ev.Advance? ==> Apply(s, ev).transfers[id].paused == s.transfers[id].paused && Apply(s, ev).transfers[id].cancelled == s.transfers[id].cancelled
  {
    hide Pump, Remove, Selected, Decide;
    if ev.Advance? {
      if Continues(s, ev, id) { AdvanceUpdates(s, ev.run, ev.ok, id); } else { AdvanceLeaves(s, ev.run, ev.ok, id); }
      hide Apply;
    } else if ev.AcceptAndStart? && Known(s, ev.id) {
      PumpLeaves(Update(s, ev.id, s.transfers[ev.id].(missing := ev.missing, paused := false, awaitingVerification := false)));
    } else if ev.ResumeTransfer? && Known(s, ev.id) {
      PumpLeaves(Update(s, ev.id, s.transfers[ev.id].(paused := false, awaitingVerification := false,
                                                       missing := if ev.missing.Some? then ev.missing else s.transfers[ev.id].missing)));
    }
  }

  lemma CancelledExactlyWhen(s: State, ev: Event, id: Id)
    requires id in s.transfers
    ensures id in Apply(s, ev).transfers
    ensures Apply(s, ev).transfers[id].cancelled <==> s.transfers[id].cancelled || (ev == CancelTransfer(id) && (id in s.queue || id in s.active))
  {
    CallUpdates(s, ev, id);
  }

  /** A transfer waits for verification from the end of its data until it is asked for more, confirmed, cancelled or broken off. */
  lemma AwaitingExactlyWhen(s: State, ev: Event, id: Id)
    requires id in s.transfers
    ensures id in Apply(s, ev).transfers
    ensures Apply(s, ev).transfers[id].awaitingVerification
       <==> || (Continues(s, ev, id) && s.runs[ev.run].at.Draining? && ev.ok && !s.transfers[id].cancelled)
            || (s.transfers[id].awaitingVerification && !Breaks(s, ev, id)
                && !((ev.AcceptAndStart? || ev.ResumeTransfer? || ev.CancelTransfer? || ev.Confirm?) && ev.id == id && (id in s.queue || id in s.active)))
  {
    CallUpdates(s, ev, id);
    if ev.Advance? {
      if Continues(s, ev, id) { AdvanceUpdates(s, ev.run, ev.ok, id); } else { AdvanceLeaves(s, ev.run, ev.ok, id); }
    }
    hide Apply;
  }

  // ---- Quiet while paused ----

  predicate Unpauses(ev: Event, id: Id) { (ev.AcceptAndStart? || ev.ResumeTransfer? || ev.CancelTransfer?) && ev.id == id }

  /** From a pause to the next acceptance or resume no chunk of the transfer is sent, by whatever run. */
  lemma {:induction false} NothingWhilePaused(s: State, id: Id, evs: seq<Event>)
    requires id in s.transfers && s.transfers[id].paused && forall k | 0 <= k < |evs| :: !Unpauses(evs[k], id)
    ensures forall out | out in Trace(s, evs) && out.id == id :: !out.ChunkOut?
    decreases |evs|
  {
    if evs != [] {
      PausedExactlyWhen(s, evs[0], id);
      forall out | out in Outputs(s, evs[0]) && out.id == id ensures !out.ChunkOut? { StepSendsLegally(s, evs[0], out); }
      assert forall k | 0 <= k < |evs| - 1 :: evs[1..][k] == evs[k + 1];
      hide Apply, Outputs;
      NothingWhilePaused(Apply(s, evs[0]), id, evs[1..]);
    }
  }

  // ---- Runs ----

  /** A run ends when its manifest fails, after its last message, or at its first look at the cancelled flag. */
  lemma EndsExactlyWhen(run: Run, t: Transfer, retryLimit: nat, ok: bool)
    ensures Decide(run, t, retryLimit, ok).End?
       <==> || (run.at.SendingManifest? && (!ok || t.cancelled)) || run.at.SendingError? || (run.at.SendingComplete? && ok)
            || (t.cancelled && (|| (run.at.ReadingFrame? && (ok || run.next >= |run.plan|)) || (run.at.PausedBefore? && !t.paused)
                                || ((run.at.Backpressure? || run.at.Draining? || run.at.SendingChunk?) && ok)
                                || run.at.Ready? || run.at.RetryDelay?))
  {
    hide Selected;
  }

  /** It waits only for the end of a pause. */
  lemma WaitsExactlyWhen(run: Run, t: Transfer, retryLimit: nat, ok: bool)
    requires Consistent(run) && (run.at.Ready? ==> run.next < |run.plan|)
    ensures Decide(run, t, retryLimit, ok).Wait? <==> t.paused && (run.at.PausedBefore? || (run.at.Ready? && !t.cancelled))
  {
    hide Selected;
  }

  /** A run is sending a chunk exactly from the moment the chunk goes out: nothing is recorded that was not sent. */
  lemma SendingMeansSent(run: Run, t: Transfer, retryLimit: nat, ok: bool)
    requires Consistent(run) && (run.at.Ready? ==> run.next < |run.plan|)
    ensures var n := Decide(run, t, retryLimit, ok);
      && (n.To? && n.run.at.SendingChunk? <==> run.at.Ready? && !t.cancelled && !t.paused)
      && (n.To? && n.run.at.SendingChunk? ==> Sends(run, t, retryLimit, ok) == [ChunkOut(run.id, run.plan[run.next])])
      && (n.To? && n.run.delivered != run.delivered && !run.at.SendingManifest? ==>
            run.at.SendingChunk? && ok && n.run.delivered == run.delivered + [run.plan[run.next]])
  {
    hide Selected;
  }

  /** A chunk that could not be sent is counted and, below the limit, sent again after looking at pause and cancel anew. */
  lemma RetriesUntilTheLimit(run: Run, t: Transfer, retryLimit: nat)
    requires Consistent(run) && run.at.SendingChunk? && t.retryCount < retryLimit && !t.cancelled
    ensures var n := Decide(run, t, retryLimit, false);
      && n == To(run.(at := RetryDelay), t.(retryCount := t.retryCount + 1))
      && Decide(n.run, n.transfer, retryLimit, true) == To(run.(at := Ready), n.transfer)
      && (!t.paused ==> Sends(run.(at := Ready), n.transfer, retryLimit, true) == [ChunkOut(run.id, run.plan[run.next])])
      && (t.paused ==> Decide(run.(at := Ready), n.transfer, retryLimit, true).Wait?)
  {
  }

  // ---- Who is queued ----

  /** The run ends and its transfer has been cancelled. */
  predicate EndsCancelled(s: State, r: nat, ok: bool) {
    && r in s.runs && s.runs[r].id in s.transfers && s.transfers[s.runs[r].id].cancelled
    && Decide(s.runs[r], s.transfers[s.runs[r].id], s.retryLimit, ok).End?
  }

  /** An offer is queued at the end, with nothing set; nothing else adds a transfer. */
  lemma QueuedExactlyWhen(s: State, ev: Event)
    ensures ev.Offer? && ev.id !in s.transfers ==>
      && Apply(s, ev).queue == s.queue + [ev.id] && Apply(s, ev).active == s.active && Apply(s, ev).runs == s.runs
      && Apply(s, ev).transfers == s.transfers[ev.id := Transfer(ev.chunkCount, None, false, false, false, 0)]
    ensures ev.Offer? && ev.id in s.transfers ==> Apply(s, ev) == s
    ensures ev.AcceptAndStart? || ev.ResumeTransfer? || ev.PauseTransfer? ==> Apply(s, ev).queue == s.queue
    ensures ev.Confirm? && Found(s, ev.id) ==> Apply(s, ev).queue == Remove(s.queue, ev.id)
    ensures ev.CancelTransfer? && Found(s, ev.id) ==> Apply(s, ev).queue == if ev.id in s.active then s.queue else Remove(s.queue, ev.id)
    ensures ev.Advance? ==> Apply(s, ev).queue == if EndsCancelled(s, ev.run, ev.ok) then Remove(s.queue, s.runs[ev.run].id) else s.queue
  {
    hide Pump, Selected, Decide;
    match ev
    case AcceptAndStart(id, missing) =>
      if Known(s, id) { PumpLeaves(Update(s, id, s.transfers[id].(missing := missing, paused := false, awaitingVerification := false))); }
    case ResumeTransfer(id, missing) =>
      if Known(s, id) {
        PumpLeaves(Update(s, id, s.transfers[id].(paused := false, awaitingVerification := false,
                                                  missing := if missing.Some? then missing else s.transfers[id].missing)));
      }
    case Advance(r, ok) => if Live(s, r) { EndQueue(s, r); }
    case _ =>
  }

  lemma EndQueue(s: State, r: nat)
    requires r in s.runs
    ensures var id := s.runs[r].id;
      EndRun(s, r).queue == if id in s.transfers && s.transfers[id].cancelled then Remove(s.queue, id) else s.queue
  {
    var id := s.runs[r].id;
    var s' := s.(runs := s.runs - {r}, active := s.active - {id});
    PumpLeaves(if id in s.transfers && s.transfers[id].cancelled then s'.(queue := Remove(s'.queue, id)) else s');
    hide Pump, Remove;
  }

  /** No free slot is left beside a queued transfer that could start, after every call that lets one start and every end of a run. */
  lemma SlotsAreUsed(s: State, ev: Event)
    requires ((ev.AcceptAndStart? || ev.ResumeTransfer?) && Found(s, ev.id))
          || (ev.Advance? && Live(s, ev.run) && Decide(s.runs[ev.run], s.transfers[s.runs[ev.run].id], s.retryLimit, ev.ok).End?)
    ensures var s' := Apply(s, ev); |s'.active| < s.maxConcurrent ==> forall id | id in s'.queue :: !Eligible(s', id)
  {
    hide Pump, Selected, Decide, Eligible;
    match ev
    case AcceptAndStart(id, missing) =>
      PumpIsMaximal(Update(s, id, s.transfers[id].(missing := missing, paused := false, awaitingVerification := false)));
    case ResumeTransfer(id, missing) =>
      PumpIsMaximal(Update(s, id, s.transfers[id].(paused := false, awaitingVerification := false,
                                                   missing := if missing.Some? then missing else s.transfers[id].missing)));
    case Advance(r, ok) =>
      var id := s.runs[r].id;
      var s' := s.(runs := s.runs - {r}, active := s.active - {id});
      PumpIsMaximal(if id in s.transfers && s.transfers[id].cancelled then s'.(queue := Remove(s'.queue, id)) else s');
  }

  /** A slot is given back exactly when a run ends. */
  lemma SlotIsFreed(s: State, r: nat, ok: bool)
    requires Live(s, r) && s.runs[r].id in s.active
    ensures Decide(s.runs[r], s.transfers[s.runs[r].id], s.retryLimit, ok).End? ==>
      var s1 := s.(runs := s.runs - {r}, active := s.active - {s.runs[r].id});
      exists queue :: Apply(s, Advance(r, ok)) == Pump(s1.(queue := queue))
    ensures !Decide(s.runs[r], s.transfers[s.runs[r].id], s.retryLimit, ok).End? ==> Apply(s, Advance(r, ok)).active == s.active
  {
    hide Pump, Selected, Decide, Remove;
    var id := s.runs[r].id;
    var s1 := s.(runs := s.runs - {r}, active := s.active - {id});
    if Decide(s.runs[r], s.transfers[id], s.retryLimit, ok).End? {
      var queue := if s.transfers[id].cancelled then Remove(s.queue, id) else s.queue;
      assert Apply(s, Advance(r, ok)) == Pump(s1.(queue := queue));
    }
  }

  lemma {:induction false} ManifestsHave(s: State, from: nat, r: nat)
    requires from <= r < s.nextRun && r in s.runs
    ensures ManifestOut(s.runs[r].id) in Manifests(s, from)
    decreases s.nextRun - from
  {
    if from < r { ManifestsHave(s, from + 1, r); }
  }

  /** Every run that starts begins by sending its manifest. */
  lemma StartedRunsSendManifests(s: State, ev: Event, r: nat)
    requires s.nextRun <= r < Apply(s, ev).nextRun && r in Apply(s, ev).runs
    ensures ManifestOut(Apply(s, ev).runs[r].id) in Outputs(s, ev)
  {
    ManifestsHave(Apply(s, ev), s.nextRun, r);
    hide Apply, Manifests;
  }
}

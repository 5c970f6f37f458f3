/** The storage quota of attachments: content on disk plus reservations of open transfers. */
module Quota {
  import opened Common
  import opened ManifestText

  type TransferId = nat

  const MAX_U64 := 0xffff_ffff_ffff_ffff
  const METADATA_RESERVATION := 64 * 1024

  // ---- Usage ----

  /** The reservation for metadata covers every manifest that passes validation. */
  lemma ManifestFitsReservation(m: Manifest)
    requires ValidManifest(m)
    ensures EncodedLength(m) < METADATA_RESERVATION
  {
    ValidManifestIsShort(m);
  }

  /** `prepare` in hand: it holds the quota lock, has measured the content, and then the reservations. */
  datatype Prepare = Idle | ContentMeasured(id: TransferId, manifest: Manifest, content: nat)
    | Measured(id: TransferId, manifest: Manifest, content: nat, reserved: nat)

  datatype Store = Store(quota: nat, content: map<Text, Manifest>, transfers: map<TransferId, Manifest>, prepare: Prepare)

  function Reservation(m: Manifest): nat { m.size + METADATA_RESERVATION }

  function ContentBytes(m: Manifest): nat { m.size + EncodedLength(m) }

  /** The sum of `weight` over a table. */
  ghost function Sum<K>(table: map<K, Manifest>, weight: Manifest -> nat): nat
    decreases |table|
  {
    if table == map[] then 0
    else
      var k :| k in table;
      assert table.Keys == (table - {k}).Keys + {k};
      weight(table[k]) + Sum(table - {k}, weight)
  }

  /** The order of summation is irrelevant. */
  lemma {:induction false} SumRemove<K>(table: map<K, Manifest>, weight: Manifest -> nat, k: K)
    requires k in table
    ensures Sum(table, weight) == weight(table[k]) + Sum(table - {k}, weight)
    decreases |table|
  {
    var j :| j in table && Sum(table, weight) == weight(table[j]) + Sum(table - {j}, weight);
    assert table.Keys == (table - {j}).Keys + {j};
    if j != k {
      SumRemove(table - {j}, weight, k);
      assert table - {j} - {k} == table - {k} - {j};
      assert table.Keys == (table - {k}).Keys + {k};
      SumRemove(table - {k}, weight, j);
    }
  }

  lemma SumAdd<K>(table: map<K, Manifest>, weight: Manifest -> nat, k: K, m: Manifest)
    ensures Sum(table[k := m], weight) == Sum(table - {k}, weight) + weight(m)
  {
    SumRemove(table[k := m], weight, k);
    assert table[k := m] - {k} == table - {k};
  }

  lemma SumInsert<K>(table: map<K, Manifest>, weight: Manifest -> nat, k: K, m: Manifest)
    requires k !in table
    ensures Sum(table[k := m], weight) == Sum(table, weight) + weight(m)
  {
    SumAdd(table, weight, k, m);
    assert table - {k} == table;
  }

  lemma SumShrinks<K>(table: map<K, Manifest>, weight: Manifest -> nat, k: K)
    ensures Sum(table - {k}, weight) <= Sum(table, weight)
  {
    if k in table { SumRemove(table, weight, k); } else { assert table - {k} == table; }
  }

  lemma {:induction false} SumOfPart<K>(table: map<K, Manifest>, gone: set<K>, weight: Manifest -> nat)
    ensures Sum(table - gone, weight) <= Sum(table, weight)
    decreases |gone|
  {
    if gone == {} {
      assert table - gone == table;
    } else {
      var k :| k in gone;
      SumOfPart(table, gone - {k}, weight);
      assert table - gone == table - (gone - {k}) - {k};
      SumShrinks(table - (gone - {k}), weight, k);
    }
  }

  ghost function ContentSum(s: Store): nat { Sum(s.content, ContentBytes) }

  ghost function ReservedSum(s: Store): nat { Sum(s.transfers, Reservation) }

  /** `attachment_storage_usage`, before saturation. */
  ghost function Usage(s: Store): nat { ContentSum(s) + ReservedSum(s) }

  // ---- Operations ----

  /** `prepare` is cut between its two measurements; whatever does not take the lock may come in between. */
  datatype Operation =
    | BeginPrepare(id: TransferId, manifest: Manifest)
    | MeasureTransfers
    | Admit
    | WriteChunk(id: TransferId)
    | Finalize(id: TransferId, accepted: bool, cleaned: bool)
    | Discard(id: TransferId)
    | DiscardContent(attachment: Text)
    | Purge(ids: set<TransferId>)

  /** The 64-bit saturating sums of the code. */
  predicate Fits(s: Store, content: nat, reserved: nat, m: Manifest) {
    Min(Min(content + reserved, MAX_U64) + Reservation(m), MAX_U64) <= s.quota
  }

  ghost function Apply(s: Store, op: Operation): Store {
    match op
    case BeginPrepare(id, m) =>
      if !s.prepare.Idle? || !ValidManifest(m) || id in s.transfers then s else s.(prepare := ContentMeasured(id, m, ContentSum(s)))
    case MeasureTransfers =>
      if !s.prepare.ContentMeasured? then s
      else s.(prepare := Measured(s.prepare.id, s.prepare.manifest, s.prepare.content, ReservedSum(s)))
    case Admit =>
      if !s.prepare.Measured? then s
      else
        var Measured(id, m, content, reserved) := s.prepare;
        s.(prepare := Idle, transfers := if Fits(s, content, reserved, m) then s.transfers[id := m] else s.transfers)
    case WriteChunk(_) => s
    case Finalize(id, accepted, cleaned) =>
      if id !in s.transfers || !accepted then s
      else
        var m := s.transfers[id];
        s.(content := s.content[m.attachmentId := m], transfers := if cleaned then s.transfers - {id} else s.transfers)
    case Discard(id) => s.(transfers := s.transfers - {id})
    case DiscardContent(a) => s.(content := s.content - {a})
    case Purge(ids) => s.(transfers := s.transfers - ids)
  }

  ghost function Run(s: Store, ops: seq<Operation>): Store
    decreases |ops|
  {
    if ops == [] then s else Run(Apply(s, ops[0]), ops[1..])
  }

  // ---- The invariant ----

  /** What was measured is not less than what there is. */
  ghost predicate MeasureHolds(s: Store) {
    match s.prepare
    case Idle => true
    case ContentMeasured(id, m, content) => ValidManifest(m) && id !in s.transfers && ContentSum(s) <= content
    case Measured(id, m, content, reserved) => ValidManifest(m) && id !in s.transfers && Usage(s) <= content + reserved
  }

  ghost predicate Inv(s: Store) {
    Min(Usage(s), MAX_U64) <= s.quota && MeasureHolds(s) && forall id | id in s.transfers :: ValidManifest(s.transfers[id])
  }

  /** A finalize that publishes a file after `prepare` has measured the content and before it measures the reservations. */
  predicate Straddles(s: Store, op: Operation) { op.Finalize? && op.accepted && op.id in s.transfers && s.prepare.ContentMeasured? }

  predicate Clean(s: Store, op: Operation) { !Straddles(s, op) && (op.Finalize? && op.accepted ==> op.cleaned) }

  /** What publishing a transfer adds to the content: an attachment that is there already is replaced. */
  function Grown(s: Store, id: TransferId): int
    requires id in s.transfers
  {
    var m := s.transfers[id];
    ContentBytes(m) - (if m.attachmentId in s.content then ContentBytes(s.content[m.attachmentId]) else 0)
  }

  lemma ContentGrows(s: Store, id: TransferId, cleaned: bool)
    requires id in s.transfers
    ensures ContentSum(Apply(s, Finalize(id, true, cleaned))) == ContentSum(s) + Grown(s, id)
  {
    hide EncodedLength;
    var m := s.transfers[id];
    SumAdd(s.content, ContentBytes, m.attachmentId, m);
    if m.attachmentId in s.content { SumRemove(s.content, ContentBytes, m.attachmentId); }
    else { assert s.content - {m.attachmentId} == s.content; }
  }

  lemma FinalizeEffect(s: Store, id: TransferId)
    requires id in s.transfers
    ensures var s', m := Apply(s, Finalize(id, true, true)), s.transfers[id];
      ReservedSum(s') == ReservedSum(s) - Reservation(m) && ContentSum(s') == ContentSum(s) + Grown(s, id)
  {
    SumRemove(s.transfers, Reservation, id);
    ContentGrows(s, id, true);
  }

  /** Replacing a reservation by content and manifest never raises the usage. */
  lemma FinalizeLowersUsage(s: Store, id: TransferId)
    requires id in s.transfers && ValidManifest(s.transfers[id])
    ensures Usage(Apply(s, Finalize(id, true, true))) <= Usage(s)
  {
    FinalizeEffect(s, id);
    ManifestFitsReservation(s.transfers[id]);
  }

  lemma PrepareStepKeepsInv(s: Store, op: Operation)
    requires Inv(s) && (op.BeginPrepare? || op.MeasureTransfers? || op.Admit?)
    ensures Inv(Apply(s, op)) && Apply(s, op).quota == s.quota
  {
    hide ValidManifest, EncodedLength;
    if op.Admit? && s.prepare.Measured? { SumInsert(s.transfers, Reservation, s.prepare.id, s.prepare.manifest); }
  }

  lemma RemovalKeepsInv(s: Store, op: Operation)
    requires Inv(s) && (op.WriteChunk? || op.Discard? || op.DiscardContent? || op.Purge?)
    ensures Inv(Apply(s, op)) && Apply(s, op).quota == s.quota
  {
    hide ValidManifest, EncodedLength;
    match op
    case Discard(id) => SumShrinks(s.transfers, Reservation, id);
    case DiscardContent(a) => SumShrinks(s.content, ContentBytes, a);
    case Purge(ids) => SumOfPart(s.transfers, ids, Reservation);
    case _ =>
  }

  lemma FinalizeKeepsInv(s: Store, op: Operation)
    requires Inv(s) && Clean(s, op) && op.Finalize?
    ensures Inv(Apply(s, op)) && Apply(s, op).quota == s.quota
  {
    if op.id in s.transfers && op.accepted { FinalizeLowersUsage(s, op.id); }
  }

  lemma StepKeepsQuota(s: Store, op: Operation)
    requires Inv(s) && Clean(s, op)
    ensures Inv(Apply(s, op)) && Apply(s, op).quota == s.quota
  {
    hide Inv, Apply, Clean;
    if op.Finalize? { FinalizeKeepsInv(s, op); }
    else if op.BeginPrepare? || op.MeasureTransfers? || op.Admit? { PrepareStepKeepsInv(s, op); }
    else { RemovalKeepsInv(s, op); }
  }

  ghost predicate AllClean(s: Store, ops: seq<Operation>)
    decreases |ops|
  {
    ops != [] ==> Clean(s, ops[0]) && AllClean(Apply(s, ops[0]), ops[1..])
  }

  lemma {:induction false} RunKeepsInv(s: Store, ops: seq<Operation>)
    requires Inv(s) && AllClean(s, ops)
    ensures Inv(Run(s, ops)) && Run(s, ops).quota == s.quota
    decreases |ops|
  {
    hide Inv, Apply, Clean;
    if ops != [] {
      StepKeepsQuota(s, ops[0]);
      RunKeepsInv(Apply(s, ops[0]), ops[1..]);
    }
  }

  /** Content and reservations stay within the quota in every interleaving without a straddling finalize and with every directory removed. */
  lemma {:induction false} QuotaIsKept(quota: nat, ops: seq<Operation>)
    requires AllClean(Store(quota, map[], map[], Idle), ops)
    ensures var s := Run(Store(quota, map[], map[], Idle), ops);
      s.quota == quota && Min(Usage(s), MAX_U64) <= quota && (quota < MAX_U64 ==> Usage(s) <= quota)
  {
    RunKeepsInv(Store(quota, map[], map[], Idle), ops);
  }

  /** A new valid transfer is admitted exactly when there is room for its reservation; saturation matters only at the largest quota. */
  lemma AdmitsExactlyWhen(s: Store, id: TransferId, m: Manifest)
    requires ValidManifest(m) && id !in s.transfers && s.prepare.Idle? && s.quota < MAX_U64
    ensures var s' := Apply(Apply(Apply(s, BeginPrepare(id, m)), MeasureTransfers), Admit);
      && (id in s'.transfers <==> Usage(s) + Reservation(m) <= s.quota)
      && (id in s'.transfers ==> Usage(s') == Usage(s) + Reservation(m))
  {
    SumInsert(s.transfers, Reservation, id, m);
  }

  // ---- What the two exceptions cost ----

  /** Without the cleanup a finalized transfer is counted twice: usage grows by all that its content adds. */
  lemma UncleanFinalizeGrows(s: Store, id: TransferId)
    requires id in s.transfers
    ensures var s' := Apply(s, Finalize(id, true, false)); s'.quota == s.quota && Usage(s') == Usage(s) + Grown(s, id)
  {
    ContentGrows(s, id, false);
  }

  /** The second measurement and the decision, over whatever the first one saw. */
  lemma AdmissionEffect(s: Store)
    requires s.prepare.ContentMeasured? && s.quota < MAX_U64 && s.prepare.id !in s.transfers
    ensures var s' := Apply(Apply(s, MeasureTransfers), Admit);
      var seen := s.prepare.content + ReservedSum(s) + Reservation(s.prepare.manifest);
      Usage(s') == Usage(s) + if seen <= s.quota then Reservation(s.prepare.manifest) else 0
  {
    SumInsert(s.transfers, Reservation, s.prepare.id, s.prepare.manifest);
  }

  /**
    A finalize between the two measurements hides its file from both; the admission that follows keeps the quota exactly when
    it is refused, or there was room for the hidden file as well.
  */
  lemma StraddlingKeepsQuotaExactlyWhen(s: Store, other: TransferId)
    requires Inv(s) && s.quota < MAX_U64 && s.prepare.ContentMeasured? && s.prepare.content == ContentSum(s) && other in s.transfers
    ensures var s' := Apply(Apply(Apply(s, Finalize(other, true, true)), MeasureTransfers), Admit);
      var seen := Usage(s) - Reservation(s.transfers[other]) + Reservation(s.prepare.manifest);
      Usage(s') <= s.quota <==> seen > s.quota || seen + Grown(s, other) <= s.quota
  {
    hide ContentSum, ReservedSum, EncodedLength, ValidManifest;
    FinalizeEffect(s, other);
    FinalizeLowersUsage(s, other);
    AdmissionEffect(Apply(s, Finalize(other, true, true)));
  }

  /** And it can be exceeded: two files of which only one fits. */
  function OverAdmission(m: Manifest, n: Manifest): seq<Operation> {
    [BeginPrepare(1, m), MeasureTransfers, Admit, BeginPrepare(2, n), Finalize(1, true, true), MeasureTransfers, Admit]
  }

  lemma RunStep(s: Store, e: seq<Operation>, k: nat)
    requires k < |e|
    ensures Run(s, e[k..]) == Run(Apply(s, e[k]), e[k + 1..])
  {
    assert e[k..][1..] == e[k + 1..];
  }

  lemma RunOfSeven(s: Store, e: seq<Operation>)
    requires |e| == 7
    ensures Run(s, e) == Apply(Apply(Apply(Apply(Apply(Apply(Apply(s, e[0]), e[1]), e[2]), e[3]), e[4]), e[5]), e[6])
  {
    hide Apply;
    var s4 := Apply(Apply(Apply(Apply(s, e[0]), e[1]), e[2]), e[3]);
    RunStep(s, e, 0);
    RunStep(Apply(s, e[0]), e, 1);
    RunStep(Apply(Apply(s, e[0]), e[1]), e, 2);
    RunStep(Apply(Apply(Apply(s, e[0]), e[1]), e[2]), e, 3);
    RunStep(s4, e, 4);
    RunStep(Apply(s4, e[4]), e, 5);
    RunStep(Apply(Apply(s4, e[4]), e[5]), e, 6);
    assert e[0..] == e && e[7..] == [];
  }

  lemma {:induction false} QuotaCanBeExceeded(m: Manifest, n: Manifest)
    requires ValidManifest(m) && ValidManifest(n) && n.size <= m.size
    ensures var quota := Reservation(m); var s := Run(Store(quota, map[], map[], Idle), OverAdmission(m, n)); Usage(s) > quota == s.quota
  {
    var quota := Reservation(m);
    var s0 := Store(quota, map[], map[], Idle);
    var s3 := Apply(Apply(Apply(s0, BeginPrepare(1, m)), MeasureTransfers), Admit);
    assert s3 == s0.(transfers := map[1 := m]);
    SumInsert(s0.transfers, Reservation, 1, m);
    var s4 := Apply(s3, BeginPrepare(2, n));
    assert s4 == s3.(prepare := ContentMeasured(2, n, 0));
    assert Inv(s4);
    StraddlingKeepsQuotaExactlyWhen(s4, 1);
    RunOfSeven(s0, OverAdmission(m, n));
    QuotaFrame(s4, 1);
  }

  lemma QuotaFrame(s: Store, other: TransferId)
    ensures Apply(Apply(Apply(s, Finalize(other, true, true)), MeasureTransfers), Admit).quota == s.quota
  {
  }

  // ---- What is there after each operation ----

  /** The transfer `prepare` is about to admit, and does. */
  predicate Admits(s: Store, op: Operation, id: TransferId) {
    op.Admit? && s.prepare.Measured? && s.prepare.id == id
    && Min(Min(s.prepare.content + s.prepare.reserved, MAX_U64) + s.prepare.manifest.size + METADATA_RESERVATION, MAX_U64) <= s.quota
  }

  /** A transfer is there from its admission until it is discarded, purged or finalized with its directory removed. */
  lemma OpenExactlyWhen(s: Store, op: Operation, id: TransferId)
    ensures id in Apply(s, op).transfers
       <==> || Admits(s, op, id)
            || (id in s.transfers && op != Discard(id) && !(op.Purge? && id in op.ids) && op != Finalize(id, true, true))
    ensures id in s.transfers && id in Apply(s, op).transfers && !Admits(s, op, id) ==> Apply(s, op).transfers[id] == s.transfers[id]
    ensures Admits(s, op, id) ==> Apply(s, op).transfers[id] == s.prepare.manifest
  {
    hide ContentSum, ReservedSum, ValidManifest;
  }

  /** Content is there from an accepted finalize until it is discarded; a later finalize of the same attachment replaces it. */
  lemma PublishedExactlyWhen(s: Store, op: Operation, a: Text)
    ensures var published := op.Finalize? && op.accepted && op.id in s.transfers && s.transfers[op.id].attachmentId == a;
      && (a in Apply(s, op).content <==> published || (a in s.content && op != DiscardContent(a)))
      && (published ==> Apply(s, op).content[a] == s.transfers[op.id])
      && (!published && a in Apply(s, op).content ==> Apply(s, op).content[a] == s.content[a])
  {
    hide ContentSum, ReservedSum, ValidManifest;
  }

  /** One `prepare` at a time, for a valid manifest and a transfer that is not there yet; its three steps follow each other. */
  lemma PreparesExactlyWhen(s: Store, op: Operation)
    ensures var p := Apply(s, op).prepare;
      if op.BeginPrepare? && s.prepare.Idle? && ValidManifest(op.manifest) && op.id !in s.transfers
        then p == ContentMeasured(op.id, op.manifest, ContentSum(s))
      else if op.MeasureTransfers? && s.prepare.ContentMeasured?
        then p == Measured(s.prepare.id, s.prepare.manifest, s.prepare.content, ReservedSum(s))
      else if op.Admit? && s.prepare.Measured? then p == Idle
      else p == s.prepare
  {
    hide ContentSum, ReservedSum, ValidManifest;
  }

  /** Discarding a transfer gives its whole reservation back, discarding content its bytes. */
  lemma DiscardFrees(s: Store, id: TransferId, a: Text)
    ensures id in s.transfers ==> Usage(Apply(s, Discard(id))) == Usage(s) - s.transfers[id].size - METADATA_RESERVATION
    ensures a in s.content ==> Usage(Apply(s, DiscardContent(a))) == Usage(s) - s.content[a].size - EncodedLength(s.content[a])
  {
    if id in s.transfers { SumRemove(s.transfers, Reservation, id); }
    if a in s.content { SumRemove(s.content, ContentBytes, a); }
    hide EncodedLength;
  }
}

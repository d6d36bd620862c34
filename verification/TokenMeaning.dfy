/** What each row of a token report and each reduced record adds up, number by number. */
module TokenMeaning {
  import opened Collections
  import opened Sorting
  import opened Sublists
  import opened SnapshotStore
  import opened TokenAggregation

  // ---------- Sums over some of the records ----------

  /** The sum of `amount` over the records that `counts` holds of. */
  function SumOver(records: seq<TokenRecord>, counts: TokenRecord -> bool, amount: Usage -> nat): nat {
    if records == [] then 0
    else
      var last := records[|records| - 1];
      SumOver(records[..|records| - 1], counts, amount) + if counts(last) then amount(last.usage) else 0
  }

  lemma SumOverSnoc(records: seq<TokenRecord>, r: TokenRecord, counts: TokenRecord -> bool, amount: Usage -> nat)
    ensures SumOver([], counts, amount) == 0
    ensures SumOver(records + [r], counts, amount) ==
            SumOver(records, counts, amount) + if counts(r) then amount(r.usage) else 0
  {
    assert (records + [r])[..|records|] == records;
  }

  function InputOf(u: Usage): nat { u.inputTokens }

  function OutputOf(u: Usage): nat { u.outputTokens }

  function TotalOf(u: Usage): nat { u.totalTokens }

  function CachedOf(u: Usage): nat { if u.cachedTokens.Some? then u.cachedTokens.value else 0 }

  /** The totals are those of the records that `counts` holds of; cached tokens are there exactly if each of these
      records has them. */
  ghost predicate TotalsSay(t: Totals, records: seq<TokenRecord>, counts: TokenRecord -> bool) {
    && t.inputTokens == SumOver(records, counts, InputOf)
    && t.outputTokens == SumOver(records, counts, OutputOf)
    && t.totalTokens == SumOver(records, counts, TotalOf)
    && t.trials == |Places(records, counts)|
    && (t.cachedTokens.Some? <==> forall r | r in records && counts(r) :: r.usage.cachedTokens.Some?)
    && (t.cachedTokens.Some? ==> t.cachedTokens.value == SumOver(records, counts, CachedOf))
  }

  ghost predicate AccumulatorSays(a: Accumulator, records: seq<TokenRecord>, counts: TokenRecord -> bool) {
    && a.inputTokens == SumOver(records, counts, InputOf)
    && a.outputTokens == SumOver(records, counts, OutputOf)
    && a.totalTokens == SumOver(records, counts, TotalOf)
    && a.trials == |Places(records, counts)|
    && (a.everyRecordHasCachedTokens <==> forall r | r in records && counts(r) :: r.usage.cachedTokens.Some?)
    && a.cachedTokensTotal == SumOver(records, counts, CachedOf)
  }

  lemma NothingSaid(counts: TokenRecord -> bool)
    ensures AccumulatorSays(ZERO, [], counts)
  {
    NoPlaces(counts);
  }

  lemma AccumulatorNext(a: Accumulator, records: seq<TokenRecord>, r: TokenRecord, counts: TokenRecord -> bool)
    requires AccumulatorSays(a, records, counts)
    ensures AccumulatorSays(if counts(r) then Accumulate(a, r.usage) else a, records + [r], counts)
  {
    SumOverSnoc(records, r, counts, InputOf);
    SumOverSnoc(records, r, counts, OutputOf);
    SumOverSnoc(records, r, counts, TotalOf);
    SumOverSnoc(records, r, counts, CachedOf);
    PlacesSnoc(records, r, counts);
    CachedNext(records, r, counts);
  }

  lemma CachedNext(records: seq<TokenRecord>, r: TokenRecord, counts: TokenRecord -> bool)
    ensures (forall x | x in records + [r] && counts(x) :: x.usage.cachedTokens.Some?) <==>
            (forall x | x in records && counts(x) :: x.usage.cachedTokens.Some?) &&
            (counts(r) ==> r.usage.cachedTokens.Some?)
  {
    if forall x | x in records + [r] && counts(x) :: x.usage.cachedTokens.Some? {
      assert r in records + [r];
      forall x | x in records && counts(x)
        ensures x.usage.cachedTokens.Some?
      {
        assert x in records + [r];
      }
    }
  }

  /** What is gathered under a key is said of the records with that key. */
  lemma {:induction false} GatherKeyReads<K>(records: seq<TokenRecord>, keyOf: TokenRecord -> K, k: K,
                                             counts: TokenRecord -> bool)
    requires forall r :: counts(r) <==> keyOf(r) == k
    ensures TotalsSay(Emit(GatherKey(records, keyOf, k)), records, counts)
    ensures AccumulatorSays(GatherKey(records, keyOf, k), records, counts)
  {
    if records == [] {
      NothingSaid(counts);
    } else {
      var init, last := records[..|records| - 1], records[|records| - 1];
      assert records == init + [last];
      GatherKeyReads(init, keyOf, k, counts);
      AccumulatorNext(GatherKey(init, keyOf, k), init, last, counts);
    }
  }

  // ---------- The report ----------

  function Any(r: TokenRecord): bool { true }

  function InLane(lane: string): TokenRecord -> bool {
    (r: TokenRecord) => r.lane == lane
  }

  function InCase(key: CaseKey): TokenRecord -> bool {
    (r: TokenRecord) => r.lane == key.lane && r.caseId == key.caseId && r.condition == key.condition
  }

  function UnderKey(key: SnapshotKey): TokenRecord -> bool {
    (r: TokenRecord) =>
      && r.provider == key.provider && r.model == key.model && r.lane == key.logical.lane
      && r.caseId == key.logical.caseId && r.condition == key.logical.condition
      && r.caseFingerprint == key.logical.caseFingerprint
  }

  /** The grand total is that of all records. */
  lemma GrandTotalReads(records: seq<TokenRecord>, laneOrder: seq<string>, le: (CaseKey, CaseKey) -> bool)
    ensures TotalsSay(ReportOf(records, laneOrder, le).grandTotal, records, Any)
  {
    GatherIsOneKey(records);
    GatherKeyReads(records, Same, (), Any);
  }

  lemma {:induction false} LaneRowsRead(records: seq<TokenRecord>, lanes: seq<string>)
    ensures forall i | 0 <= i < |lanes| ::
              var row := LaneRows(records, lanes)[i];
              row.lane == lanes[i] && TotalsSay(row.totals, records, InLane(lanes[i]))
  {
    if lanes != [] {
      var last := lanes[|lanes| - 1];
      LaneRowsRead(records, lanes[..|lanes| - 1]);
      GatherKeyReads(records, LaneOf, last, InLane(last));
    }
  }

  lemma {:induction false} CaseRowsRead(records: seq<TokenRecord>, keys: seq<CaseKey>)
    ensures forall i | 0 <= i < |keys| ::
              var row := CaseRows(records, keys)[i];
              row.key == keys[i] && TotalsSay(row.totals, records, InCase(keys[i]))
  {
    if keys != [] {
      var last := keys[|keys| - 1];
      CaseRowsRead(records, keys[..|keys| - 1]);
      GatherKeyReads(records, CaseKeyOf, last, InCase(last));
    }
  }

  lemma {:induction false} SnapshotRowsRead(records: seq<TokenRecord>, keys: seq<SnapshotKey>)
    ensures forall i | 0 <= i < |keys| ::
              var row := SnapshotRows(records, keys)[i];
              row.key == keys[i] && TotalsSay(row.totals, records, UnderKey(keys[i]))
  {
    if keys != [] {
      var last := keys[|keys| - 1];
      SnapshotRowsRead(records, keys[..|keys| - 1]);
      GatherKeyReads(records, SnapshotKeyOf, last, UnderKey(last));
    }
  }

  function Occurs(records: seq<TokenRecord>): string -> bool {
    (lane: string) => exists r | r in records :: r.lane == lane
  }

  /** One row per lane of the order that occurs, in that order, each with the totals of its lane. */
  lemma LanesRead(records: seq<TokenRecord>, laneOrder: seq<string>, le: (CaseKey, CaseKey) -> bool)
    returns (lanes: seq<string>)
    ensures Listed(lanes, laneOrder, Occurs(records))
    ensures
      var rows := ReportOf(records, laneOrder, le).perLane;
      && |rows| == |lanes|
      && forall i | 0 <= i < |rows| :: rows[i].lane == lanes[i] && TotalsSay(rows[i].totals, records, InLane(lanes[i]))
  {
    lanes := InOrder(laneOrder, LaneSet(records));
    InOrderListed(laneOrder, LaneSet(records), Occurs(records));
    LaneRowsRead(records, lanes);
  }

  /** One row per case and condition that occur, in order, each with the totals of its records. */
  lemma CasesRead(records: seq<TokenRecord>, laneOrder: seq<string>, le: (CaseKey, CaseKey) -> bool)
    returns (keys: seq<CaseKey>)
    ensures Distinct(keys) && (Preorder(le) ==> Sorted(keys, le))
    ensures forall k :: k in keys <==> exists r :: r in records && InCase(k)(r)
    ensures
      var rows := ReportOf(records, laneOrder, le).perCase;
      && |rows| == |keys|
      && forall i | 0 <= i < |rows| :: rows[i].key == keys[i] && TotalsSay(rows[i].totals, records, InCase(keys[i]))
  {
    keys := Sort(KeysIn(records, CaseKeyOf), le);
    KeysInFacts(records, CaseKeyOf);
    SortedKeysFacts(KeysIn(records, CaseKeyOf), le);
    if Preorder(le) {
      SortSorted(KeysIn(records, CaseKeyOf), le);
    }
    CaseKeysOccur(records);
    CaseRowsRead(records, keys);
  }

  lemma CaseKeysOccur(records: seq<TokenRecord>)
    ensures forall k :: k in KeysIn(records, CaseKeyOf) <==> exists r :: r in records && InCase(k)(r)
  {
    KeysInFacts(records, CaseKeyOf);
    forall k
      ensures k in KeysIn(records, CaseKeyOf) <==> exists r :: r in records && InCase(k)(r)
    {
      if r :| r in records && InCase(k)(r) {
        assert CaseKeyOf(r) == k;
      }
      if k in KeysIn(records, CaseKeyOf) {
        var r :| r in records && CaseKeyOf(r) == k;
        assert InCase(k)(r);
      }
    }
  }

  /** One reduced record per provider, model and logical key that occur, in order, each with the totals of its raw
      records. */
  lemma ReducedReads(records: seq<TokenRecord>, le: (SnapshotKey, SnapshotKey) -> bool)
    returns (keys: seq<SnapshotKey>)
    ensures Distinct(keys) && (Preorder(le) ==> Sorted(keys, le))
    ensures forall k :: k in keys <==> exists r :: r in records && UnderKey(k)(r)
    ensures
      var rows := Reduced(records, le);
      && |rows| == |keys|
      && forall i | 0 <= i < |rows| :: rows[i].key == keys[i] && TotalsSay(rows[i].totals, records, UnderKey(keys[i]))
  {
    keys := Sort(KeysIn(records, SnapshotKeyOf), le);
    KeysInFacts(records, SnapshotKeyOf);
    SortedKeysFacts(KeysIn(records, SnapshotKeyOf), le);
    if Preorder(le) {
      SortSorted(KeysIn(records, SnapshotKeyOf), le);
    }
    SnapshotKeysOccur(records);
    SnapshotRowsRead(records, keys);
  }

  lemma SnapshotKeysOccur(records: seq<TokenRecord>)
    ensures forall k :: k in KeysIn(records, SnapshotKeyOf) <==> exists r :: r in records && UnderKey(k)(r)
  {
    KeysInFacts(records, SnapshotKeyOf);
    forall k
      ensures k in KeysIn(records, SnapshotKeyOf) <==> exists r :: r in records && UnderKey(k)(r)
    {
      if r :| r in records && UnderKey(k)(r) {
        assert SnapshotKeyOf(r) == k;
      }
      if k in KeysIn(records, SnapshotKeyOf) {
        var r :| r in records && SnapshotKeyOf(r) == k;
        assert UnderKey(k)(r);
      }
    }
  }

  // ---------- Refused input ----------

  /** Lane `i` is the first that is empty or occurs before, and the error says which of the two. */
  ghost predicate LaneRefused(laneOrder: seq<string>, error: AggregateError, i: nat) {
    && i < |laneOrder| && Distinct(laneOrder[..i]) && "" !in laneOrder[..i]
    && match error
       case EmptyLane => laneOrder[i] == ""
       case DuplicateLane(lane) => lane == laneOrder[i] && lane in laneOrder[..i]
       case _ => false
  }

  /** Record `i` is the first without a case id or of a lane that the order does not have. */
  ghost predicate RecordRefused(records: seq<TokenRecord>, laneOrder: seq<string>, error: AggregateError, i: nat) {
    && i < |records| && (forall j | 0 <= j < i :: records[j].caseId != "" && records[j].lane in laneOrder)
    && match error
       case EmptyCaseId => records[i].caseId == ""
       case UnknownLane(lane) => records[i].caseId != "" && lane == records[i].lane && lane !in laneOrder
       case _ => false
  }

  lemma {:induction false} LaneErrorReads(laneOrder: seq<string>) returns (i: nat)
    requires LaneOrderError(laneOrder).Some?
    ensures LaneRefused(laneOrder, LaneOrderError(laneOrder).value, i)
  {
    var n := |laneOrder| - 1;
    if LaneOrderError(laneOrder[..n]).Some? {
      i := LaneErrorReads(laneOrder[..n]);
      assert laneOrder[..n][..i] == laneOrder[..i];
    } else {
      i := n;
      LaneOrderErrorIff(laneOrder[..n]);
    }
  }

  lemma {:induction false} RecordErrorReads(records: seq<TokenRecord>, laneOrder: seq<string>) returns (i: nat)
    requires RecordError(records, laneOrder).Some?
    ensures RecordRefused(records, laneOrder, RecordError(records, laneOrder).value, i)
  {
    var n := |records| - 1;
    if RecordError(records[..n], laneOrder).Some? {
      i := RecordErrorReads(records[..n], laneOrder);
    } else {
      i := n;
      RecordErrorIff(records[..n], laneOrder);
      assert forall j | 0 <= j < n :: records[j] == records[..n][j] && records[..n][j] in records[..n];
    }
  }

  /** The error names the first lane that cannot be used, or else the first record. */
  lemma FirstErrorReads(records: seq<TokenRecord>, laneOrder: seq<string>) returns (i: nat)
    requires FirstError(records, laneOrder).Some?
    ensures
      var error := FirstError(records, laneOrder).value;
      if error.EmptyLane? || error.DuplicateLane? then LaneRefused(laneOrder, error, i)
      else Distinct(laneOrder) && "" !in laneOrder && RecordRefused(records, laneOrder, error, i)
  {
    LaneOrderErrorIff(laneOrder);
    if LaneOrderError(laneOrder).Some? {
      i := LaneErrorReads(laneOrder);
    } else {
      i := RecordErrorReads(records, laneOrder);
    }
  }
}

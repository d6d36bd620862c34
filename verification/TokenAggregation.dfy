/** Token usage summed per lane, per case and overall, and reduced to snapshot records. */
module TokenAggregation {
  import opened Collections
  import opened SnapshotStore
  import opened Sorting

  datatype Usage = Usage(inputTokens: nat, outputTokens: nat, totalTokens: nat, cachedTokens: Option<nat>)

  datatype TokenRecord = TokenRecord(provider: string, model: string, lane: string, caseId: string, condition: string,
                                     caseFingerprint: string, usage: Usage)

  datatype Accumulator = Accumulator(inputTokens: nat, outputTokens: nat, totalTokens: nat, cachedTokensTotal: nat,
                                     everyRecordHasCachedTokens: bool, trials: nat)

  /** The emitted totals: cached tokens only if every counted record had them. */
  datatype Totals = Totals(inputTokens: nat, outputTokens: nat, totalTokens: nat, cachedTokens: Option<nat>,
                           trials: nat)

  datatype CaseKey = CaseKey(lane: string, caseId: string, condition: string)

  datatype LaneRow = LaneRow(lane: string, totals: Totals)
  datatype CaseRow = CaseRow(key: CaseKey, totals: Totals)
  /** A reduced snapshot record. */
  datatype SnapshotRow = SnapshotRow(key: SnapshotKey, totals: Totals)

  datatype TokenReport = TokenReport(grandTotal: Totals, perLane: seq<LaneRow>, perCase: seq<CaseRow>)

  datatype AggregateError = EmptyLane | DuplicateLane(lane: string) | EmptyCaseId | UnknownLane(lane: string)

  const ZERO := Accumulator(0, 0, 0, 0, true, 0)

  function Accumulate(a: Accumulator, u: Usage): Accumulator {
    Accumulator(a.inputTokens + u.inputTokens, a.outputTokens + u.outputTokens, a.totalTokens + u.totalTokens,
                if u.cachedTokens.None? then a.cachedTokensTotal else a.cachedTokensTotal + u.cachedTokens.value,
                a.everyRecordHasCachedTokens && u.cachedTokens.Some?, a.trials + 1)
  }

  function Emit(a: Accumulator): Totals {
    Totals(a.inputTokens, a.outputTokens, a.totalTokens,
           if a.everyRecordHasCachedTokens then Some(a.cachedTokensTotal) else None, a.trials)
  }

  function CaseKeyOf(r: TokenRecord): CaseKey {
    CaseKey(r.lane, r.caseId, r.condition)
  }

  function SnapshotKeyOf(r: TokenRecord): SnapshotKey {
    SnapshotKey(r.provider, r.model, LogicalKey(r.lane, r.caseId, r.condition, r.caseFingerprint))
  }

  function CaseOf(k: SnapshotKey): CaseKey {
    CaseKey(k.logical.lane, k.logical.caseId, k.logical.condition)
  }

  // ---------- Sums ----------

  function Plus(a: Totals, b: Totals): Totals {
    Totals(a.inputTokens + b.inputTokens, a.outputTokens + b.outputTokens, a.totalTokens + b.totalTokens,
           if a.cachedTokens.Some? &&
             b.cachedTokens.Some? then Some(a.cachedTokens.value + b.cachedTokens.value) else None,
           a.trials + b.trials)
  }

  const NOTHING := Totals(0, 0, 0, Some(0), 0)

  function Sum(rows: seq<Totals>): Totals {
    if rows == [] then NOTHING else Plus(Sum(rows[..|rows| - 1]), rows[|rows| - 1])
  }

  /** The accumulated usage of all records, in their order. */
  function Gather(records: seq<TokenRecord>): Accumulator {
    if records == [] then ZERO else Accumulate(Gather(records[..|records| - 1]), records[|records| - 1].usage)
  }

  /** The accumulated usage of the records with key `k`. */
  function GatherKey<K(==)>(records: seq<TokenRecord>, keyOf: TokenRecord -> K, k: K): Accumulator {
    if records == [] then ZERO
    else
      var before, last := GatherKey(records[..|records| - 1], keyOf, k), records[|records| - 1];
      if keyOf(last) == k then Accumulate(before, last.usage) else before
  }

  /** The keys in order of first appearance. */
  function KeysIn<K(==)>(records: seq<TokenRecord>, keyOf: TokenRecord -> K): seq<K> {
    Uniq(Map(keyOf, records))
  }

  /** One row of totals per key. */
  function Rows<K(==)>(records: seq<TokenRecord>, keyOf: TokenRecord -> K, keys: seq<K>): (rows: seq<Totals>)
    ensures |rows| == |keys|
  {
    if keys == [] then []
    else Rows(records, keyOf, keys[..|keys| - 1]) + [Emit(GatherKey(records, keyOf, keys[|keys| - 1]))]
  }

  ghost function GatherIn<K>(records: seq<TokenRecord>, keyOf: TokenRecord -> K, keys: seq<K>): Accumulator {
    if records == [] then ZERO
    else
      var before, last := GatherIn(records[..|records| - 1], keyOf, keys), records[|records| - 1];
      if keyOf(last) in keys then Accumulate(before, last.usage) else before
  }

  function One(u: Usage): Totals {
    Totals(u.inputTokens, u.outputTokens, u.totalTokens, u.cachedTokens, 1)
  }

  /** Emitting is additive. */
  lemma EmitAccumulates(a: Accumulator, u: Usage)
    ensures Emit(Accumulate(a, u)) == Plus(Emit(a), One(u))
  {
  }

  lemma PlusMoves(a: Totals, b: Totals, c: Totals)
    ensures Plus(Plus(a, b), c) == Plus(Plus(a, c), b) == Plus(a, Plus(b, c))
  {
  }

  lemma {:induction false} GatherInSnoc<K>(records: seq<TokenRecord>, keyOf: TokenRecord -> K, keys: seq<K>, k: K)
    requires k !in keys
    ensures Emit(GatherIn(records, keyOf, keys + [k])) ==
            Plus(Emit(GatherIn(records, keyOf, keys)), Emit(GatherKey(records, keyOf, k)))
  {
    if records != [] {
      var init, last := records[..|records| - 1], records[|records| - 1];
      GatherInSnoc(init, keyOf, keys, k);
      EmitAccumulates(GatherIn(init, keyOf, keys + [k]), last.usage);
      EmitAccumulates(GatherIn(init, keyOf, keys), last.usage);
      EmitAccumulates(GatherKey(init, keyOf, k), last.usage);
      PlusMoves(Emit(GatherIn(init, keyOf, keys)), Emit(GatherKey(init, keyOf, k)), One(last.usage));
      assert keyOf(last) in keys + [k] <==> keyOf(last) in keys || keyOf(last) == k;
    }
  }

  /** Rows over distinct keys add up to the records that have one of the keys. */
  lemma {:induction false} RowsAddUp<K>(records: seq<TokenRecord>, keyOf: TokenRecord -> K, keys: seq<K>)
    requires Distinct(keys)
    ensures Sum(Rows(records, keyOf, keys)) == Emit(GatherIn(records, keyOf, keys))
    decreases |keys|
  {
    if keys == [] {
      NoKeys(records, keyOf);
    } else {
      var init, last := keys[..|keys| - 1], keys[|keys| - 1];
      RowsAddUp(records, keyOf, init);
      GatherInSnoc(records, keyOf, init, last);
      assert keys == init + [last];
      assert Rows(records, keyOf, keys)[..|init|] == Rows(records, keyOf, init);
    }
  }

  lemma {:induction false} NoKeys<K>(records: seq<TokenRecord>, keyOf: TokenRecord -> K)
    ensures GatherIn(records, keyOf, []) == ZERO
  {
    if records != [] {
      NoKeys(records[..|records| - 1], keyOf);
    }
  }

  lemma {:induction false} GatherInAll<K>(records: seq<TokenRecord>, keyOf: TokenRecord -> K, keys: seq<K>)
    requires forall r | r in records :: keyOf(r) in keys
    ensures GatherIn(records, keyOf, keys) == Gather(records)
  {
    if records != [] {
      assert records[|records| - 1] in records;
      GatherInAll(records[..|records| - 1], keyOf, keys);
    }
  }

  lemma KeysInFacts<K>(records: seq<TokenRecord>, keyOf: TokenRecord -> K)
    ensures Distinct(KeysIn(records, keyOf))
    ensures forall r | r in records :: keyOf(r) in KeysIn(records, keyOf)
    ensures forall k | k in KeysIn(records, keyOf) :: exists r :: r in records && keyOf(r) == k
  {
    var all := Map(keyOf, records);
    assert KeysIn(records, keyOf) == Uniq(all);
    UniqFacts(all);
    UniqMembers(all);
    forall r | r in records
      ensures keyOf(r) in all
    {
      var i :| 0 <= i < |records| && records[i] == r;
      assert all[i] == keyOf(r);
    }
    forall k | k in KeysIn(records, keyOf)
      ensures exists r :: r in records && keyOf(r) == k
    {
      UniqMember(all, k);
      var i :| 0 <= i < |all| && all[i] == k;
      assert records[i] in records && keyOf(records[i]) == k;
    }
  }

  /** Conservation: the rows of any complete list of distinct keys add up to the grand total, cached tokens included
      (they appear in the total exactly if they appear in every row). */
  lemma Conservation<K>(records: seq<TokenRecord>, keyOf: TokenRecord -> K, keys: seq<K>)
    requires Distinct(keys) && forall r | r in records :: keyOf(r) in keys
    ensures Sum(Rows(records, keyOf, keys)) == Emit(Gather(records))
  {
    RowsAddUp(records, keyOf, keys);
    GatherInAll(records, keyOf, keys);
  }

  lemma {:induction false} CachedInEveryRow(rows: seq<Totals>)
    ensures Sum(rows).cachedTokens.Some? <==> forall r | r in rows :: r.cachedTokens.Some?
  {
    if rows != [] {
      var init, last := rows[..|rows| - 1], rows[|rows| - 1];
      CachedInEveryRow(init);
      assert rows == init + [last];
    }
  }

  // ---------- The report ----------

  function LaneOf(r: TokenRecord): string { r.lane }

  function LaneRows(records: seq<TokenRecord>, lanes: seq<string>): (rows: seq<LaneRow>)
    ensures |rows| == |lanes|
  {
    if lanes == [] then []
    else
      var last := lanes[|lanes| - 1];
      LaneRows(records, lanes[..|lanes| - 1]) + [LaneRow(last, Emit(GatherKey(records, LaneOf, last)))]
  }

  function CaseRows(records: seq<TokenRecord>, keys: seq<CaseKey>): (rows: seq<CaseRow>)
    ensures |rows| == |keys|
  {
    if keys == [] then []
    else
      var last := keys[|keys| - 1];
      CaseRows(records, keys[..|keys| - 1]) + [CaseRow(last, Emit(GatherKey(records, CaseKeyOf, last)))]
  }

  function LaneSet(records: seq<TokenRecord>): set<string> {
    set r | r in records :: r.lane
  }

  function ReportOf(records: seq<TokenRecord>, laneOrder: seq<string>, le: (CaseKey, CaseKey) -> bool): TokenReport {
    TokenReport(Emit(Gather(records)),
           LaneRows(records, InOrder(laneOrder, LaneSet(records))),
           CaseRows(records, Sort(KeysIn(records, CaseKeyOf), le)))
  }

  function LaneTotals(rows: seq<LaneRow>): seq<Totals> { Map((r: LaneRow) => r.totals, rows) }
  function CaseTotals(rows: seq<CaseRow>): seq<Totals> { Map((r: CaseRow) => r.totals, rows) }

  lemma {:induction false} LaneRowsTotals(records: seq<TokenRecord>, lanes: seq<string>)
    ensures LaneTotals(LaneRows(records, lanes)) == Rows(records, LaneOf, lanes)
  {
    if lanes != [] {
      LaneRowsTotals(records, lanes[..|lanes| - 1]);
    }
  }

  lemma {:induction false} CaseRowsTotals(records: seq<TokenRecord>, keys: seq<CaseKey>)
    ensures CaseTotals(CaseRows(records, keys)) == Rows(records, CaseKeyOf, keys)
  {
    if keys != [] {
      CaseRowsTotals(records, keys[..|keys| - 1]);
    }
  }

  /** Per field: per-lane sum = per-case sum = grand total; cached tokens in the total iff in every lane row iff in
      every case row. */
  lemma TokensConserved(records: seq<TokenRecord>, laneOrder: seq<string>, le: (CaseKey, CaseKey) -> bool)
    requires Distinct(laneOrder) && forall r | r in records :: r.lane in laneOrder
    ensures
      var report := ReportOf(records, laneOrder, le);
      && Sum(LaneTotals(report.perLane)) == report.grandTotal == Sum(CaseTotals(report.perCase))
      && report.grandTotal.trials == |records|
      && (report.grandTotal.cachedTokens.Some? <==> forall r | r in LaneTotals(report.perLane) :: r.cachedTokens.Some?)
      && (report.grandTotal.cachedTokens.Some? <==> forall r | r in CaseTotals(report.perCase) :: r.cachedTokens.Some?)
  {
    var lanes, keys := InOrder(laneOrder, LaneSet(records)), KeysIn(records, CaseKeyOf);
    InOrderMembers(laneOrder, LaneSet(records));
    InOrderDistinct(laneOrder, LaneSet(records));
    forall r | r in records
      ensures LaneOf(r) in lanes
    {
      assert r.lane in LaneSet(records);
    }
    LaneRowsTotals(records, lanes);
    Conservation(records, LaneOf, lanes);
    CachedInEveryRow(Rows(records, LaneOf, lanes));
    KeysInFacts(records, CaseKeyOf);
    SortedKeysFacts(keys, le);
    CaseRowsTotals(records, Sort(keys, le));
    Conservation(records, CaseKeyOf, Sort(keys, le));
    CachedInEveryRow(Rows(records, CaseKeyOf, Sort(keys, le)));
    GatherTrials(records);
  }

  lemma {:induction false} GatherTrials(records: seq<TokenRecord>)
    ensures Gather(records).trials == |records|
  {
    if records != [] {
      GatherTrials(records[..|records| - 1]);
    }
  }

  // ---------- Order of the records ----------

  lemma {:induction false} GatherKeyRemove<K>(records: seq<TokenRecord>, keyOf: TokenRecord -> K, k: K, i: nat)
    requires i < |records|
    ensures
      var rest := GatherKey(records[..i] + records[i + 1..], keyOf, k);
      GatherKey(records, keyOf, k) == if keyOf(records[i]) == k then Accumulate(rest, records[i].usage) else rest
    decreases |records|
  {
    var n := |records| - 1;
    if i == n {
      assert records[..i] + records[i + 1..] == records[..n];
    } else {
      GatherKeyRemove(records[..n], keyOf, k, i);
      var rest := records[..i] + records[i + 1..];
      assert records[..n][..i] + records[..n][i + 1..] == rest[..|rest| - 1];
    }
  }

  lemma {:induction false} GatherKeyPermutes<K>(s: seq<TokenRecord>, t: seq<TokenRecord>, keyOf: TokenRecord -> K, k: K)
    requires multiset(s) == multiset(t)
    ensures GatherKey(s, keyOf, k) == GatherKey(t, keyOf, k)
    decreases |s|
  {
    if s == [] {
      assert |multiset(t)| == |t| == 0;
    } else {
      var j := PositionOf(s, t);
      GatherKeyRemove(s, keyOf, k, 0);
      GatherKeyRemove(t, keyOf, k, j);
      GatherKeyPermutes(s[..0] + s[1..], t[..j] + t[j + 1..], keyOf, k);
    }
  }

  lemma {:induction false} LaneRowsPermute(s: seq<TokenRecord>, t: seq<TokenRecord>, lanes: seq<string>)
    requires multiset(s) == multiset(t)
    ensures LaneRows(s, lanes) == LaneRows(t, lanes)
    decreases |lanes|
  {
    if lanes != [] {
      GatherKeyPermutes(s, t, LaneOf, lanes[|lanes| - 1]);
      LaneRowsPermute(s, t, lanes[..|lanes| - 1]);
    }
  }

  lemma {:induction false} CaseRowsPermute(s: seq<TokenRecord>, t: seq<TokenRecord>, keys: seq<CaseKey>)
    requires multiset(s) == multiset(t)
    ensures CaseRows(s, keys) == CaseRows(t, keys)
    decreases |keys|
  {
    if keys != [] {
      GatherKeyPermutes(s, t, CaseKeyOf, keys[|keys| - 1]);
      CaseRowsPermute(s, t, keys[..|keys| - 1]);
    }
  }

  function Same(r: TokenRecord): () { () }

  lemma {:induction false} GatherIsOneKey(records: seq<TokenRecord>)
    ensures Gather(records) == GatherKey(records, Same, ())
  {
    if records != [] {
      GatherIsOneKey(records[..|records| - 1]);
    }
  }

  lemma KeysPermute<K>(s: seq<TokenRecord>, t: seq<TokenRecord>, keyOf: TokenRecord -> K)
    requires multiset(s) == multiset(t)
    ensures multiset(KeysIn(s, keyOf)) == multiset(KeysIn(t, keyOf))
  {
    Permuted(s, t);
    KeysInFacts(s, keyOf);
    KeysInFacts(t, keyOf);
    forall k
      ensures k in KeysIn(s, keyOf) <==> k in KeysIn(t, keyOf)
    {
    }
    DistinctSameMembers(KeysIn(s, keyOf), KeysIn(t, keyOf));
  }

  /** The report does not depend on the order in which the records arrive. */
  lemma ReportPermutes(s: seq<TokenRecord>, t: seq<TokenRecord>, laneOrder: seq<string>, le: (CaseKey, CaseKey) -> bool)
    requires multiset(s) == multiset(t) && TotalOrder(le)
    ensures ReportOf(s, laneOrder, le) == ReportOf(t, laneOrder, le)
  {
    GatherIsOneKey(s);
    GatherIsOneKey(t);
    GatherKeyPermutes(s, t, Same, ());
    Permuted(s, t);
    assert LaneSet(s) == LaneSet(t);
    LaneRowsPermute(s, t, InOrder(laneOrder, LaneSet(s)));
    KeysPermute(s, t, CaseKeyOf);
    SortCanonical(KeysIn(s, CaseKeyOf), KeysIn(t, CaseKeyOf), le);
    CaseRowsPermute(s, t, Sort(KeysIn(s, CaseKeyOf), le));
  }

  // ---------- Reduced snapshot records ----------

  function SnapshotRows(records: seq<TokenRecord>, keys: seq<SnapshotKey>): (rows: seq<SnapshotRow>)
    ensures |rows| == |keys|
  {
    if keys == [] then []
    else
      var last := keys[|keys| - 1];
      SnapshotRows(records, keys[..|keys| - 1]) + [SnapshotRow(last, Emit(GatherKey(records, SnapshotKeyOf, last)))]
  }

  function Reduced(records: seq<TokenRecord>, le: (SnapshotKey, SnapshotKey) -> bool): seq<SnapshotRow> {
    SnapshotRows(records, Sort(KeysIn(records, SnapshotKeyOf), le))
  }

  /** The totals of the reduced records of one case. */
  function TotalsOfCase(rows: seq<SnapshotRow>, c: CaseKey): seq<Totals> {
    if rows == [] then []
    else
      var last := rows[|rows| - 1];
      TotalsOfCase(rows[..|rows| - 1], c) + if CaseOf(last.key) == c then [last.totals] else []
  }

  function OfCase(records: seq<TokenRecord>, c: CaseKey): seq<TokenRecord> {
    if records == [] then []
    else
      var last := records[|records| - 1];
      OfCase(records[..|records| - 1], c) + if CaseKeyOf(last) == c then [last] else []
  }

  function KeysOfCase(keys: seq<SnapshotKey>, c: CaseKey): seq<SnapshotKey> {
    if keys == [] then []
    else KeysOfCase(keys[..|keys| - 1], c) + if CaseOf(keys[|keys| - 1]) == c then [keys[|keys| - 1]] else []
  }

  lemma {:induction false} OfCaseFacts(records: seq<TokenRecord>, c: CaseKey)
    ensures Gather(OfCase(records, c)) == GatherKey(records, CaseKeyOf, c)
    ensures forall r | r in OfCase(records, c) :: r in records && CaseKeyOf(r) == c
  {
    if records != [] {
      var init, last := records[..|records| - 1], records[|records| - 1];
      OfCaseFacts(init, c);
      if CaseKeyOf(last) == c {
        assert OfCase(records, c)[..|OfCase(init, c)|] == OfCase(init, c);
      } else {
        assert OfCase(records, c) == OfCase(init, c);
      }
    }
  }

  lemma {:induction false} SameGather(records: seq<TokenRecord>, c: CaseKey, k: SnapshotKey)
    requires CaseOf(k) == c
    ensures GatherKey(OfCase(records, c), SnapshotKeyOf, k) == GatherKey(records, SnapshotKeyOf, k)
  {
    if records != [] {
      var init, last := records[..|records| - 1], records[|records| - 1];
      SameGather(init, c, k);
      if CaseKeyOf(last) == c {
        assert OfCase(records, c)[..|OfCase(init, c)|] == OfCase(init, c);
      } else {
        assert OfCase(records, c) == OfCase(init, c);
      }
    }
  }

  lemma {:induction false} KeysOfCaseFacts(keys: seq<SnapshotKey>, c: CaseKey)
    requires Distinct(keys)
    ensures Distinct(KeysOfCase(keys, c))
    ensures forall k :: k in KeysOfCase(keys, c) <==> k in keys && CaseOf(k) == c
  {
    if keys != [] {
      var init, last := keys[..|keys| - 1], keys[|keys| - 1];
      KeysOfCaseFacts(init, c);
      assert keys == init + [last];
    }
  }

  lemma {:induction false} CaseTotalsAreRows(records: seq<TokenRecord>, keys: seq<SnapshotKey>, c: CaseKey)
    ensures TotalsOfCase(SnapshotRows(records, keys), c) == Rows(OfCase(records, c), SnapshotKeyOf, KeysOfCase(keys, c))
    decreases |keys|
  {
    if keys != [] {
      var init, last := keys[..|keys| - 1], keys[|keys| - 1];
      CaseTotalsAreRows(records, init, c);
      assert SnapshotRows(records, keys)[..|init|] == SnapshotRows(records, init);
      if CaseOf(last) == c {
        SameGather(records, c, last);
        assert KeysOfCase(keys, c)[..|KeysOfCase(init, c)|] == KeysOfCase(init, c);
      } else {
        assert KeysOfCase(keys, c) == KeysOfCase(init, c);
      }
    }
  }

  /** The reduced records of a case, over all its models and fingerprints, regroup to the case's row. */
  lemma ReducedRegroups(records: seq<TokenRecord>, le: (SnapshotKey, SnapshotKey) -> bool, c: CaseKey)
    ensures Sum(TotalsOfCase(Reduced(records, le), c)) == Emit(GatherKey(records, CaseKeyOf, c))
    ensures forall i, j | 0 <= i < j < |Reduced(records, le)| ::
              Reduced(records, le)[i].key != Reduced(records, le)[j].key
  {
    var keys := Sort(KeysIn(records, SnapshotKeyOf), le);
    KeysInFacts(records, SnapshotKeyOf);
    SortedKeysFacts(KeysIn(records, SnapshotKeyOf), le);
    KeysOfCaseFacts(keys, c);
    OfCaseFacts(records, c);
    CaseTotalsAreRows(records, keys, c);
    Conservation(OfCase(records, c), SnapshotKeyOf, KeysOfCase(keys, c));
    SnapshotRowKeys(records, keys);
  }

  lemma {:induction false} SnapshotRowKeys(records: seq<TokenRecord>, keys: seq<SnapshotKey>)
    ensures forall i | 0 <= i < |keys| :: SnapshotRows(records, keys)[i].key == keys[i]
    decreases |keys|
  {
    if keys != [] {
      SnapshotRowKeys(records, keys[..|keys| - 1]);
    }
  }

  // ---------- The loops ----------

  /** One keyed table of accumulators after some records: its keys in order of appearance, and its entries. */
  ghost predicate Tabulates<K(!new)>(records: seq<TokenRecord>, keyOf: TokenRecord -> K, keys: seq<K>, table: map<K,
                                     Accumulator>)
  {
    && keys == KeysIn(records, keyOf)
    && (forall k :: k in table <==> k in keys)
    && forall k | k in table :: table[k] == GatherKey(records, keyOf, k)
  }

  lemma {:induction false} AbsentGathersNothing<K>(records: seq<TokenRecord>, keyOf: TokenRecord -> K, k: K)
    requires forall r | r in records :: keyOf(r) != k
    ensures GatherKey(records, keyOf, k) == ZERO
  {
    if records != [] {
      assert records[|records| - 1] in records;
      AbsentGathersNothing(records[..|records| - 1], keyOf, k);
    }
  }

  lemma KeysInAppend<K>(records: seq<TokenRecord>, keyOf: TokenRecord -> K, r: TokenRecord)
    ensures KeysIn(records + [r], keyOf) ==
            if keyOf(r) in KeysIn(records, keyOf) then KeysIn(records, keyOf) else KeysIn(records, keyOf) + [keyOf(r)]
  {
    var keys := Map(keyOf, records);
    assert Map(keyOf, records + [r]) == keys + [keyOf(r)];
    assert (keys + [keyOf(r)])[..|keys|] == keys;
    UniqMember(keys, keyOf(r));
  }

  lemma GatherAppend<K>(records: seq<TokenRecord>, keyOf: TokenRecord -> K, r: TokenRecord, k: K)
    ensures GatherKey(records + [r], keyOf, k) ==
            if keyOf(r) == k then Accumulate(GatherKey(records, keyOf, k), r.usage) else GatherKey(records, keyOf, k)
  {
    assert (records + [r])[..|records|] == records;
  }

  lemma NewKeyGathersNothing<K>(records: seq<TokenRecord>, keyOf: TokenRecord -> K, k: K)
    requires k !in KeysIn(records, keyOf)
    ensures GatherKey(records, keyOf, k) == ZERO
  {
    KeysInFacts(records, keyOf);
    AbsentGathersNothing(records, keyOf, k);
  }

  /** Adding a record updates its key's accumulator, or opens a new one. */
  method Tally<K(==, !new)>(ghost records: seq<TokenRecord>, keyOf: TokenRecord -> K, keys: seq<K>,
                            table: map<K, Accumulator>, r: TokenRecord)
    returns (keys': seq<K>, table': map<K, Accumulator>)
    requires Tabulates(records, keyOf, keys, table)
    ensures Tabulates(records + [r], keyOf, keys', table')
  {
    var k := keyOf(r);
    KeysInAppend(records, keyOf, r);
    if k in table {
      keys', table' := keys, table[k := Accumulate(table[k], r.usage)];
    } else {
      NewKeyGathersNothing(records, keyOf, k);
      keys', table' := keys + [k], table[k := Accumulate(ZERO, r.usage)];
    }
    forall other | other in table'
      ensures table'[other] == GatherKey(records + [r], keyOf, other)
    {
      GatherAppend(records, keyOf, r, other);
    }
  }

  // ---------- Refused inputs ----------

  ghost predicate Acceptable(records: seq<TokenRecord>, laneOrder: seq<string>) {
    && Distinct(laneOrder) && "" !in laneOrder
    && forall r | r in records :: r.caseId != "" && r.lane in laneOrder
  }

  /** The first lane that is empty or repeats an earlier one. */
  function LaneOrderError(laneOrder: seq<string>): Option<AggregateError> {
    if laneOrder == [] then None
    else
      var init, last := laneOrder[..|laneOrder| - 1], laneOrder[|laneOrder| - 1];
      if LaneOrderError(init).Some? then LaneOrderError(init)
      else if last == "" then Some(EmptyLane)
      else if last in init then Some(DuplicateLane(last))
      else None
  }

  /** The first record without a case id or of a lane outside the order. */
  function RecordError(records: seq<TokenRecord>, laneOrder: seq<string>): Option<AggregateError> {
    if records == [] then None
    else
      var init, last := records[..|records| - 1], records[|records| - 1];
      if RecordError(init, laneOrder).Some? then RecordError(init, laneOrder)
      else if last.caseId == "" then Some(EmptyCaseId)
      else if last.lane !in laneOrder then Some(UnknownLane(last.lane))
      else None
  }

  /** The lane order is read first, then the records in order. */
  function FirstError(records: seq<TokenRecord>, laneOrder: seq<string>): Option<AggregateError> {
    if LaneOrderError(laneOrder).Some? then LaneOrderError(laneOrder) else RecordError(records, laneOrder)
  }

  lemma {:induction false} LaneOrderErrorIff(laneOrder: seq<string>)
    ensures LaneOrderError(laneOrder).None? <==> Distinct(laneOrder) && "" !in laneOrder
  {
    if laneOrder != [] {
      var init, last := laneOrder[..|laneOrder| - 1], laneOrder[|laneOrder| - 1];
      LaneOrderErrorIff(init);
      assert laneOrder == init + [last];
      if last in init {
        var i :| 0 <= i < |init| && init[i] == last;
        assert laneOrder[i] == laneOrder[|laneOrder| - 1];
      } else if Distinct(init) {
        DistinctSnoc(init, last);
      }
    }
  }

  lemma {:induction false} RecordErrorIff(records: seq<TokenRecord>, laneOrder: seq<string>)
    ensures RecordError(records, laneOrder).None? <==> forall r | r in records :: r.caseId != "" && r.lane in laneOrder
  {
    if records != [] {
      var init, last := records[..|records| - 1], records[|records| - 1];
      RecordErrorIff(init, laneOrder);
      assert records == init + [last];
    }
  }

  /** Exactly the acceptable inputs have no first error. */
  lemma FirstErrorIff(records: seq<TokenRecord>, laneOrder: seq<string>)
    ensures FirstError(records, laneOrder).None? <==> Acceptable(records, laneOrder)
  {
    LaneOrderErrorIff(laneOrder);
    RecordErrorIff(records, laneOrder);
  }

  lemma {:induction false} LaneErrorStays(laneOrder: seq<string>, n: nat)
    requires n <= |laneOrder| && LaneOrderError(laneOrder[..n]).Some?
    ensures LaneOrderError(laneOrder) == LaneOrderError(laneOrder[..n])
    decreases |laneOrder|
  {
    if n == |laneOrder| {
      assert laneOrder[..n] == laneOrder;
    } else {
      assert laneOrder[..|laneOrder| - 1][..n] == laneOrder[..n];
      LaneErrorStays(laneOrder[..|laneOrder| - 1], n);
    }
  }

  lemma {:induction false} RecordErrorStays(records: seq<TokenRecord>, laneOrder: seq<string>, n: nat)
    requires n <= |records| && RecordError(records[..n], laneOrder).Some?
    ensures RecordError(records, laneOrder) == RecordError(records[..n], laneOrder)
    decreases |records|
  {
    if n == |records| {
      assert records[..n] == records;
    } else {
      assert records[..|records| - 1][..n] == records[..n];
      RecordErrorStays(records[..|records| - 1], laneOrder, n);
    }
  }

  method CheckLaneOrder(laneOrder: seq<string>) returns (error: Option<AggregateError>)
    ensures error == LaneOrderError(laneOrder)
  {
    for i := 0 to |laneOrder|
      invariant LaneOrderError(laneOrder[..i]).None?
    {
      assert laneOrder[..i + 1][..i] == laneOrder[..i];
      if laneOrder[i] == "" {
        LaneErrorStays(laneOrder, i + 1);
        return Some(EmptyLane);
      }
      if laneOrder[i] in laneOrder[..i] {
        LaneErrorStays(laneOrder, i + 1);
        return Some(DuplicateLane(laneOrder[i]));
      }
    }
    assert laneOrder[..|laneOrder|] == laneOrder;
    error := None;
  }

  /** The token report; nothing to report for no records, whatever the lane order. */
  method AggregateTokenRecords(records: seq<TokenRecord>, laneOrder: seq<string>, le: (CaseKey, CaseKey) -> bool)
    returns (r: Result<Option<TokenReport>, AggregateError>)
    ensures records == [] ==> r == Ok(None)
    ensures records != [] && r.Ok? ==> FirstError(records, laneOrder).None?
    ensures r.Err? ==> FirstError(records, laneOrder) == Some(r.error)
    ensures records != [] && r.Ok? ==> r.value == Some(ReportOf(records, laneOrder, le))
  {
    if |records| == 0 {
      return Ok(None);
    }
    var error := CheckLaneOrder(laneOrder);
    if error.Some? {
      return Err(error.value);
    }
    var grandTotal := ZERO;
    var lanes: seq<string>, laneTable: map<string, Accumulator> := [], map[];
    var cases: seq<CaseKey>, caseTable: map<CaseKey, Accumulator> := [], map[];
    for i := 0 to |records|
      invariant LaneOrderError(laneOrder).None? && RecordError(records[..i], laneOrder).None?
      invariant grandTotal == Gather(records[..i])
      invariant Tabulates(records[..i], LaneOf, lanes, laneTable)
      invariant Tabulates(records[..i], CaseKeyOf, cases, caseTable)
    {
      var x := records[i];
      assert records[..i + 1] == records[..i] + [x] && records[..i + 1][..i] == records[..i];
      if x.caseId == "" {
        RecordErrorStays(records, laneOrder, i + 1);
        return Err(EmptyCaseId);
      }
      if x.lane !in laneOrder {
        RecordErrorStays(records, laneOrder, i + 1);
        return Err(UnknownLane(x.lane));
      }
      grandTotal := Accumulate(grandTotal, x.usage);
      lanes, laneTable := Tally(records[..i], LaneOf, lanes, laneTable, x);
      cases, caseTable := Tally(records[..i], CaseKeyOf, cases, caseTable, x);
    }
    assert records[..|records|] == records;
    var perLane := EmitLanes(records, laneOrder, lanes, laneTable);
    var perCase := EmitCases(records, cases, caseTable, le);
    r := Ok(Some(TokenReport(Emit(grandTotal), perLane, perCase)));
  }

  method EmitLanes(ghost records: seq<TokenRecord>, laneOrder: seq<string>, ghost lanes: seq<string>,
                   table: map<string, Accumulator>)
    returns (rows: seq<LaneRow>)
    requires Tabulates(records, LaneOf, lanes, table)
    ensures rows == LaneRows(records, InOrder(laneOrder, LaneSet(records)))
  {
    rows := [];
    KeysInFacts(records, LaneOf);
    for i := 0 to |laneOrder|
      invariant rows == LaneRows(records, InOrder(laneOrder[..i], LaneSet(records)))
    {
      var lane := laneOrder[i];
      assert laneOrder[..i + 1][..i] == laneOrder[..i];
      ghost var before := InOrder(laneOrder[..i], LaneSet(records));
      assert lane in table <==> lane in LaneSet(records);
      if lane in table {
        assert (before + [lane])[..|before|] == before;
        rows := rows + [LaneRow(lane, Emit(table[lane]))];
      } else {
        assert InOrder(laneOrder[..i + 1], LaneSet(records)) == before;
      }
    }
    assert laneOrder[..|laneOrder|] == laneOrder;
  }

  method EmitCases(ghost records: seq<TokenRecord>, cases: seq<CaseKey>, table: map<CaseKey, Accumulator>,
                   le: (CaseKey, CaseKey) -> bool)
    returns (rows: seq<CaseRow>)
    requires Tabulates(records, CaseKeyOf, cases, table)
    ensures rows == CaseRows(records, Sort(KeysIn(records, CaseKeyOf), le))
  {
    var sorted := Sort(cases, le);
    KeysInFacts(records, CaseKeyOf);
    SortedKeysFacts(cases, le);
    rows := [];
    for i := 0 to |sorted|
      invariant rows == CaseRows(records, sorted[..i])
    {
      assert sorted[..i + 1][..i] == sorted[..i];
      assert sorted[i] in sorted;
      rows := rows + [CaseRow(sorted[i], Emit(table[sorted[i]]))];
    }
    assert sorted[..|sorted|] == sorted;
  }

  method ReduceSnapshotTokenRecords(records: seq<TokenRecord>, le: (SnapshotKey, SnapshotKey) -> bool)
    returns (rows: seq<SnapshotRow>)
    ensures rows == Reduced(records, le)
  {
    var keys: seq<SnapshotKey>, table: map<SnapshotKey, Accumulator> := [], map[];
    for i := 0 to |records|
      invariant Tabulates(records[..i], SnapshotKeyOf, keys, table)
    {
      assert records[..i + 1] == records[..i] + [records[i]];
      keys, table := Tally(records[..i], SnapshotKeyOf, keys, table, records[i]);
    }
    assert records[..|records|] == records;
    var sorted := Sort(keys, le);
    KeysInFacts(records, SnapshotKeyOf);
    SortedKeysFacts(keys, le);
    rows := [];
    for i := 0 to |sorted|
      invariant rows == SnapshotRows(records, sorted[..i])
    {
      assert sorted[..i + 1][..i] == sorted[..i];
      assert sorted[i] in sorted;
      rows := rows + [SnapshotRow(sorted[i], Emit(table[sorted[i]]))];
    }
    assert sorted[..|sorted|] == sorted;
  }
}

/** The token snapshot file: one entry per line, merged on update, loaded for a check. */
module SnapshotStore {
  import opened Collections

  /** The identity of an entry inside its file. */
  datatype LogicalKey = LogicalKey(lane: string, caseId: string, condition: string, caseFingerprint: string)

  /** The identity of a record across files. */
  datatype SnapshotKey = SnapshotKey(provider: string, model: string, logical: LogicalKey)

  datatype Entry = Entry(provider: string, model: string, key: LogicalKey, inputTokens: nat, outputTokens: nat,
                         totalTokens: nat, cachedTokens: Option<nat>, createdAtMs: nat)

  datatype WriteError = ProviderMismatch(entry: Entry) | ModelMismatch(entry: Entry) | DuplicateKey(key: LogicalKey)

  // ---------- Merging ----------

  function KeysOf(entries: seq<Entry>): (keys: seq<LogicalKey>)
    ensures |keys| == |entries|
  {
    if entries == [] then [] else KeysOf(entries[..|entries| - 1]) + [entries[|entries| - 1].key]
  }

  /** The entries as a map: the first occurrence of a key counts. */
  function FirstByKey(entries: seq<Entry>): map<LogicalKey, Entry> {
    if entries == [] then map[]
    else
      var m, last := FirstByKey(entries[..|entries| - 1]), entries[|entries| - 1];
      if last.key in m then m else m[last.key := last]
  }

  /** The merge as a map: incoming entries override stored ones. */
  function Override(existing: seq<Entry>, incoming: seq<Entry>): map<LogicalKey, Entry> {
    FirstByKey(existing) + FirstByKey(incoming)
  }

  function Pick(keys: seq<LogicalKey>, m: map<LogicalKey, Entry>): seq<Entry> {
    if keys == [] then []
    else Pick(keys[..|keys| - 1], m) + if keys[|keys| - 1] in m then [m[keys[|keys| - 1]]] else []
  }

  /** The merge as a list: stored keys keep their order, new keys follow in input order. */
  function Merge(existing: seq<Entry>, incoming: seq<Entry>): seq<Entry> {
    Pick(Uniq(KeysOf(existing) + KeysOf(incoming)), Override(existing, incoming))
  }

  ghost predicate DistinctKeys(entries: seq<Entry>) {
    Distinct(KeysOf(entries))
  }

  ghost predicate ForFile(entries: seq<Entry>, provider: string, model: string) {
    forall e | e in entries :: e.provider == provider && e.model == model
  }

  lemma {:induction false} KeyAt(entries: seq<Entry>, i: nat)
    requires i < |entries|
    ensures KeysOf(entries)[i] == entries[i].key
    decreases |entries|
  {
    if i < |entries| - 1 {
      KeyAt(entries[..|entries| - 1], i);
    }
  }

  lemma {:induction false} KeysSplit(a: seq<Entry>, b: seq<Entry>)
    ensures KeysOf(a + b) == KeysOf(a) + KeysOf(b)
    decreases |b|
  {
    if b == [] {
      assert a + b == a;
    } else {
      assert (a + b)[..|a + b| - 1] == a + b[..|b| - 1];
      KeysSplit(a, b[..|b| - 1]);
    }
  }

  lemma {:induction false} FirstKeys(entries: seq<Entry>)
    ensures FirstByKey(entries).Keys == SetOf(KeysOf(entries))
  {
    if entries != [] {
      var init, last := entries[..|entries| - 1], entries[|entries| - 1];
      FirstKeys(init);
      assert SetOf(KeysOf(entries)) == SetOf(KeysOf(init)) + {last.key};
    }
  }

  /** A key's first occurrence is what the map holds, however the list goes on. */
  lemma {:induction false} FirstStays(entries: seq<Entry>, i: nat)
    requires i < |entries| && entries[i].key !in KeysOf(entries[..i])
    ensures entries[i].key in FirstByKey(entries) && FirstByKey(entries)[entries[i].key] == entries[i]
    decreases |entries|
  {
    var init := entries[..|entries| - 1];
    FirstKeys(init);
    if i < |init| {
      assert init[..i] == entries[..i];
      FirstStays(init, i);
    }
  }

  lemma DistinctPrefixFresh(entries: seq<Entry>, i: nat)
    requires DistinctKeys(entries) && i < |entries|
    ensures entries[i].key !in KeysOf(entries[..i])
  {
    if entries[i].key in KeysOf(entries[..i]) {
      var j :| 0 <= j < i && KeysOf(entries[..i])[j] == entries[i].key;
      KeyAt(entries[..i], j);
      KeyAt(entries, j);
      KeyAt(entries, i);
      assert false;
    }
  }

  lemma RepeatedKey(entries: seq<Entry>, i: nat)
    requires i < |entries| && entries[i].key in KeysOf(entries[..i])
    ensures !DistinctKeys(entries)
  {
    if DistinctKeys(entries) {
      DistinctPrefixFresh(entries, i);
    }
  }

  /** The first pass over the request: the incoming entries by key, or why the request is refused. */
  method IndexIncoming(provider: string, model: string, incoming: seq<Entry>)
    returns (r: Result<map<LogicalKey, Entry>, WriteError>)
    ensures r.Ok? <==> ForFile(incoming, provider, model) && DistinctKeys(incoming)
    ensures r.Ok? ==> r.value == FirstByKey(incoming)
  {
    var byKey: map<LogicalKey, Entry> := map[];
    for i := 0 to |incoming|
      invariant ForFile(incoming[..i], provider, model) && DistinctKeys(incoming[..i])
      invariant byKey == FirstByKey(incoming[..i])
    {
      var e := incoming[i];
      assert incoming[..i + 1][..i] == incoming[..i] && incoming[..i + 1] == incoming[..i] + [e];
      FirstKeys(incoming[..i]);
      if e.provider != provider {
        assert e in incoming;
        return Err(ProviderMismatch(e));
      }
      if e.model != model {
        assert e in incoming;
        return Err(ModelMismatch(e));
      }
      if e.key in byKey {
        RepeatedKey(incoming, i);
        return Err(DuplicateKey(e.key));
      }
      DistinctSnoc(KeysOf(incoming[..i]), e.key);
      byKey := byKey[e.key := e];
    }
    assert incoming[..|incoming|] == incoming;
    r := Ok(byKey);
  }

  lemma OverrideAtStored(existing: seq<Entry>, incoming: seq<Entry>, i: nat)
    requires i < |existing| && existing[i].key !in KeysOf(existing[..i])
    ensures
      var e, m := existing[i], Override(existing, incoming);
      e.key in m && m[e.key] == if e.key in FirstByKey(incoming) then FirstByKey(incoming)[e.key] else e
  {
    FirstStays(existing, i);
  }

  lemma Without(m: map<LogicalKey, Entry>, gone: set<LogicalKey>, k: LogicalKey)
    ensures m - gone - {k} == m - (gone + {k})
    ensures k !in m - gone ==> m - (gone + {k}) == m - gone
  {
  }

  lemma KeySetSnoc(entries: seq<Entry>, i: nat)
    requires i < |entries|
    ensures entries[..i + 1][..i] == entries[..i]
    ensures KeysOf(entries[..i + 1]) == KeysOf(entries[..i]) + [entries[i].key]
    ensures SetOf(KeysOf(entries[..i + 1])) == SetOf(KeysOf(entries[..i])) + {entries[i].key}
  {
    assert entries[..i + 1][..i] == entries[..i];
  }

  lemma PickNext(keys: seq<LogicalKey>, k: LogicalKey, m: map<LogicalKey, Entry>)
    requires k in m
    ensures Pick(Uniq(keys + [k]), m) == if k in keys then Pick(Uniq(keys), m) else Pick(Uniq(keys), m) + [m[k]]
  {
    assert (keys + [k])[..|keys|] == keys;
    assert (Uniq(keys) + [k])[..|Uniq(keys)|] == Uniq(keys);
  }

  /** The stored half of the merge: replaced in place, or kept. `rest` holds the incoming entries not used. */
  method MergeStored(existing: seq<Entry>, incoming: seq<Entry>, byKey: map<LogicalKey, Entry>)
    returns (merged: seq<Entry>, rest: map<LogicalKey, Entry>)
    requires byKey == FirstByKey(incoming)
    ensures merged == Pick(Uniq(KeysOf(existing)), Override(existing, incoming))
    ensures rest == byKey - SetOf(KeysOf(existing))
  {
    merged, rest := [], byKey;
    var seen: set<LogicalKey> := {};
    ghost var m := Override(existing, incoming);
    for i := 0 to |existing|
      invariant merged == Pick(Uniq(KeysOf(existing[..i])), m)
      invariant seen == SetOf(KeysOf(existing[..i]))
      invariant rest == byKey - seen
    {
      var e := existing[i];
      KeySetSnoc(existing, i);
      Without(byKey, seen, e.key);
      if e.key in seen {
        assert e.key in KeysOf(existing[..i]);
        StoredKeyOverridden(existing, incoming, i);
        PickNext(KeysOf(existing[..i]), e.key, m);
        assert seen + {e.key} == seen;
        continue;
      }
      OverrideAtStored(existing, incoming, i);
      PickNext(KeysOf(existing[..i]), e.key, m);
      seen := seen + {e.key};
      if e.key !in rest {
        merged := merged + [e];
        continue;
      }
      merged := merged + [rest[e.key]];
      rest := rest - {e.key};
    }
    assert existing[..|existing|] == existing;
  }

  lemma StoredKeyOverridden(existing: seq<Entry>, incoming: seq<Entry>, i: nat)
    requires i < |existing|
    ensures existing[i].key in Override(existing, incoming)
  {
    FirstKeys(existing);
    KeyAt(existing, i);
    assert existing[i].key in SetOf(KeysOf(existing));
  }

  /** The new half: incoming entries whose key was not stored, in request order. */
  method MergeNew(existing: seq<Entry>, incoming: seq<Entry>, kept: seq<Entry>, unused: map<LogicalKey, Entry>)
    returns (merged: seq<Entry>)
    requires DistinctKeys(incoming)
    requires kept == Pick(Uniq(KeysOf(existing)), Override(existing, incoming))
    requires unused == FirstByKey(incoming) - SetOf(KeysOf(existing))
    ensures merged == Merge(existing, incoming)
  {
    merged := kept;
    var rest := unused;
    assert KeysOf(existing) + KeysOf(incoming[..0]) == KeysOf(existing);
    for i := 0 to |incoming|
      invariant NewSoFar(existing, incoming, i, merged, rest)
    {
      NewStep(existing, incoming, i, merged, rest);
      var e := incoming[i];
      if e.key in rest {
        merged := merged + [e];
        rest := rest - {e.key};
      }
    }
    assert incoming[..|incoming|] == incoming;
  }

  ghost predicate NewSoFar(existing: seq<Entry>, incoming: seq<Entry>, i: nat, merged: seq<Entry>,
                           rest: map<LogicalKey, Entry>)
  {
    && i <= |incoming|
    && var requested := KeysOf(existing) + KeysOf(incoming[..i]);
       && merged == Pick(Uniq(requested), Override(existing, incoming))
       && rest == FirstByKey(incoming) - SetOf(requested)
  }

  lemma NewStep(existing: seq<Entry>, incoming: seq<Entry>, i: nat, merged: seq<Entry>, rest: map<LogicalKey, Entry>)
    requires DistinctKeys(incoming) && i < |incoming| && NewSoFar(existing, incoming, i, merged, rest)
    ensures
      var e := incoming[i];
      if e.key in rest then NewSoFar(existing, incoming, i + 1, merged + [e], rest - {e.key})
      else NewSoFar(existing, incoming, i + 1, merged, rest)
  {
    var e, requested := incoming[i], KeysOf(existing) + KeysOf(incoming[..i]);
    KeySetSnoc(incoming, i);
    IncomingStep(existing, incoming, i);
    assert KeysOf(existing) + (KeysOf(incoming[..i]) + [e.key]) == requested + [e.key];
    RequestOne(requested, e, merged, rest, Override(existing, incoming), FirstByKey(incoming));
  }

  lemma RequestOne(requested: seq<LogicalKey>, e: Entry, merged: seq<Entry>, rest: map<LogicalKey, Entry>,
                   m: map<LogicalKey, Entry>, byKey: map<LogicalKey, Entry>)
    requires merged == Pick(Uniq(requested), m) && rest == byKey - SetOf(requested)
    requires e.key in m && m[e.key] == e && e.key in byKey
    ensures
      if e.key in rest then
        merged + [e] == Pick(Uniq(requested + [e.key]), m) && rest - {e.key} == byKey - SetOf(requested + [e.key])
      else
        merged == Pick(Uniq(requested + [e.key]), m) && rest == byKey - SetOf(requested + [e.key])
  {
    PickNext(requested, e.key, m);
    Without(byKey, SetOf(requested), e.key);
    assert SetOf(requested + [e.key]) == SetOf(requested) + {e.key};
  }

  /** With distinct keys an incoming entry is the one its key stands for. */
  lemma IncomingStep(existing: seq<Entry>, incoming: seq<Entry>, i: nat)
    requires DistinctKeys(incoming) && i < |incoming|
    ensures
      var e, m := incoming[i], Override(existing, incoming);
      && e.key in m && m[e.key] == e && e.key in FirstByKey(incoming)
  {
    DistinctPrefixFresh(incoming, i);
    FirstStays(incoming, i);
  }

  /** What `writeSnapshotFile` writes back. */
  method MergeEntries(existing: seq<Entry>, provider: string, model: string, incoming: seq<Entry>)
    returns (r: Result<seq<Entry>, WriteError>)
    ensures r.Ok? <==> ForFile(incoming, provider, model) && DistinctKeys(incoming)
    ensures r.Ok? ==> r.value == Merge(existing, incoming)
  {
    var indexed := IndexIncoming(provider, model, incoming);
    if indexed.Err? {
      return Err(indexed.error);
    }
    var kept, unused := MergeStored(existing, incoming, indexed.value);
    var merged := MergeNew(existing, incoming, kept, unused);
    r := Ok(merged);
  }

  // ---------- What the merge means ----------

  /** Picking distinct, present, well-keyed entries: the list and the map it came from say the same. */
  lemma {:induction false} PickKeys(keys: seq<LogicalKey>, m: map<LogicalKey, Entry>)
    requires forall k | k in m :: m[k].key == k
    requires forall k | k in keys :: k in m
    ensures KeysOf(Pick(keys, m)) == keys
    decreases |keys|
  {
    if keys != [] {
      var init, last := keys[..|keys| - 1], keys[|keys| - 1];
      PickKeys(init, m);
      assert last in keys;
      assert Pick(keys, m)[..|Pick(keys, m)| - 1] == Pick(init, m);
    }
  }

  lemma {:induction false} PickLookup(keys: seq<LogicalKey>, m: map<LogicalKey, Entry>, k: LogicalKey)
    requires forall k | k in m :: m[k].key == k
    requires forall k | k in keys :: k in m
    requires k in keys
    ensures k in FirstByKey(Pick(keys, m)) && FirstByKey(Pick(keys, m))[k] == m[k]
    decreases |keys|
  {
    var init, last := keys[..|keys| - 1], keys[|keys| - 1];
    assert keys == init + [last];
    assert last in keys;
    assert Pick(keys, m)[..|Pick(keys, m)| - 1] == Pick(init, m);
    if k in init {
      PickLookup(init, m, k);
    } else {
      FirstKeys(Pick(init, m));
      PickKeys(init, m);
    }
  }

  lemma {:induction false} FirstWellKeyed(entries: seq<Entry>)
    ensures forall k | k in FirstByKey(entries) :: FirstByKey(entries)[k].key == k && FirstByKey(entries)[k] in entries
  {
    if entries != [] {
      FirstWellKeyed(entries[..|entries| - 1]);
    }
  }

  /** The merged list is map override with distinct keys; stored keys come first and in their stored order. */
  lemma MergeRefinesOverride(existing: seq<Entry>, incoming: seq<Entry>)
    ensures DistinctKeys(Merge(existing, incoming))
    ensures KeysOf(Merge(existing, incoming)) == Uniq(KeysOf(existing) + KeysOf(incoming))
    ensures FirstByKey(Merge(existing, incoming)) == Override(existing, incoming)
    ensures Uniq(KeysOf(existing)) <= KeysOf(Merge(existing, incoming))
  {
    var all, m := KeysOf(existing) + KeysOf(incoming), Override(existing, incoming);
    OverrideFacts(existing, incoming);
    UniqFacts(all);
    UniqMembers(all);
    PickKeys(Uniq(all), m);
    PickWhole(Uniq(all), m);
    UniqPrefix(KeysOf(existing), KeysOf(incoming));
  }

  lemma PickWhole(keys: seq<LogicalKey>, m: map<LogicalKey, Entry>)
    requires forall k | k in m :: m[k].key == k
    requires forall k :: k in keys <==> k in m
    ensures FirstByKey(Pick(keys, m)) == m
  {
    var picked := FirstByKey(Pick(keys, m));
    PickedKeys(keys, m);
    forall k | k in m
      ensures picked[k] == m[k]
    {
      PickLookup(keys, m, k);
    }
    SameMap(picked, m);
  }

  lemma PickedKeys(keys: seq<LogicalKey>, m: map<LogicalKey, Entry>)
    requires forall k | k in m :: m[k].key == k
    requires forall k :: k in keys <==> k in m
    ensures forall k :: k in FirstByKey(Pick(keys, m)) <==> k in m
  {
    PickKeys(keys, m);
    FirstKeys(Pick(keys, m));
  }

  lemma SameMap<K, V>(a: map<K, V>, b: map<K, V>)
    requires (forall k :: k in a <==> k in b) && forall k | k in b :: a[k] == b[k]
    ensures a == b
  {
  }

  lemma OverrideFacts(existing: seq<Entry>, incoming: seq<Entry>)
    ensures forall k :: k in Override(existing, incoming) <==> k in KeysOf(existing) + KeysOf(incoming)
    ensures forall k | k in Override(existing, incoming) :: Override(existing, incoming)[k].key == k
  {
    FirstKeys(existing);
    FirstKeys(incoming);
    FirstWellKeyed(existing);
    FirstWellKeyed(incoming);
    forall k
      ensures k in Override(existing, incoming) <==> k in KeysOf(existing) + KeysOf(incoming)
    {
      assert k in FirstByKey(existing).Keys <==> k in KeysOf(existing);
      assert k in FirstByKey(incoming).Keys <==> k in KeysOf(incoming);
    }
  }

  /** Writing the same request twice changes nothing the second time. */
  lemma MergeIdempotent(existing: seq<Entry>, incoming: seq<Entry>)
    ensures Merge(Merge(existing, incoming), incoming) == Merge(existing, incoming)
  {
    var once, all := Merge(existing, incoming), KeysOf(existing) + KeysOf(incoming);
    MergeRefinesOverride(existing, incoming);
    assert Override(once, incoming) == Override(existing, incoming);
    UniqMembers(all);
    UniqAbsorbs(KeysOf(once), KeysOf(incoming));
    UniqOfDistinct(KeysOf(once));
  }

  // ---------- The file format ----------

  /** JSON encoding of entries, of which only this matters: no encoding holds a newline and decoding inverts it. */
  datatype Codec = Codec(encode: Entry -> string, decode: string -> Option<Entry>)

  ghost predicate Faithful(codec: Codec) {
    && (forall e :: '\n' !in codec.encode(e))
    && (forall e :: codec.decode(codec.encode(e)) == Some(e))
  }

  function JoinLines(lines: seq<string>): string {
    if |lines| == 0 then "" else if |lines| == 1 then lines[0] else lines[0] + "\n" + JoinLines(lines[1..])
  }

  function Serialize(entries: seq<Entry>, codec: Codec): string {
    if |entries| == 0 then "" else JoinLines(Map(codec.encode, entries)) + "\n"
  }

  function SplitLines(s: string): (lines: seq<string>)
    ensures |lines| > 0
  {
    if s == "" then [""]
    else
      var rest := SplitLines(s[1..]);
      if s[0] == '\n' then [""] + rest else [[s[0]] + rest[0]] + rest[1..]
  }

  /** The lines of a file without the empty piece after a final newline. */
  function FileLines(contents: string): seq<string> {
    var lines := SplitLines(contents);
    if lines[|lines| - 1] == "" then lines[..|lines| - 1] else lines
  }

  datatype Diagnostic = Malformed(lineNumber: nat) | Stale(lineNumber: nat, key: LogicalKey)

  function Admits(valid: Option<set<LogicalKey>>, key: LogicalKey): bool {
    valid.None? || key in valid.value
  }

  function LoadedEntries(lines: seq<string>, codec: Codec, valid: Option<set<LogicalKey>>): seq<Entry> {
    if lines == [] then []
    else
      var line := codec.decode(lines[|lines| - 1]);
      LoadedEntries(lines[..|lines| - 1], codec, valid) +
        (if line.Some? && Admits(valid, line.value.key) then [line.value] else [])
  }

  function LoadDiagnostics(lines: seq<string>, codec: Codec, valid: Option<set<LogicalKey>>): seq<Diagnostic> {
    if lines == [] then []
    else
      var line := codec.decode(lines[|lines| - 1]);
      LoadDiagnostics(lines[..|lines| - 1], codec, valid) +
        (if line.None? then [Malformed(|lines|)]
         else if !Admits(valid, line.value.key) then [Stale(|lines|, line.value.key)] else [])
  }

  /** Loading a file; `None` contents is a missing one, which counts as empty. */
  method LoadSnapshotFile(contents: Option<string>, codec: Codec, valid: Option<set<LogicalKey>>)
    returns (entries: seq<Entry>, diagnostics: seq<Diagnostic>)
    ensures contents.None? ==> entries == [] && diagnostics == []
    ensures contents.Some? ==> entries == LoadedEntries(FileLines(contents.value), codec, valid)
    ensures contents.Some? ==> diagnostics == LoadDiagnostics(FileLines(contents.value), codec, valid)
  {
    entries, diagnostics := [], [];
    if contents.None? {
      return;
    }
    var lines := FileLines(contents.value);
    for i := 0 to |lines|
      invariant entries == LoadedEntries(lines[..i], codec, valid)
      invariant diagnostics == LoadDiagnostics(lines[..i], codec, valid)
    {
      assert lines[..i + 1][..i] == lines[..i];
      var parsed := codec.decode(lines[i]);
      if parsed.None? {
        diagnostics := diagnostics + [Malformed(i + 1)];
        continue;
      }
      if valid.Some? && parsed.value.key !in valid.value {
        diagnostics := diagnostics + [Stale(i + 1, parsed.value.key)];
        continue;
      }
      entries := entries + [parsed.value];
    }
    assert lines[..|lines|] == lines;
  }

  lemma {:induction false} SplitLine(line: string, rest: string)
    requires '\n' !in line
    ensures SplitLines(line + "\n" + rest) == [line] + SplitLines(rest)
  {
    var whole := line + "\n" + rest;
    if line == "" {
      assert whole[1..] == rest;
    } else {
      assert line == [line[0]] + line[1..];
      assert whole[1..] == line[1..] + "\n" + rest;
      SplitLine(line[1..], rest);
    }
  }

  lemma {:induction false} SplitJoined(lines: seq<string>)
    requires lines != [] && forall l | l in lines :: '\n' !in l
    ensures SplitLines(JoinLines(lines) + "\n") == lines + [""]
    decreases |lines|
  {
    if |lines| == 1 {
      SplitLine(lines[0], "");
      assert lines[0] + "\n" + "" == JoinLines(lines) + "\n";
    } else {
      SplitJoined(lines[1..]);
      JoinedTail(lines[0], JoinLines(lines[1..]));
      assert lines + [""] == [lines[0]] + (lines[1..] + [""]);
    }
  }

  lemma JoinedTail(line: string, rest: string)
    requires '\n' !in line
    ensures SplitLines(line + "\n" + rest + "\n") == [line] + SplitLines(rest + "\n")
  {
    SplitLine(line, rest + "\n");
    assert line + "\n" + rest + "\n" == line + "\n" + (rest + "\n");
  }

  /** Splitting any text cuts it at its newlines and loses nothing. */
  lemma {:induction false} JoinedSplit(s: string)
    ensures JoinLines(SplitLines(s)) == s
    ensures forall l | l in SplitLines(s) :: '\n' !in l
  {
    if s != "" {
      JoinedSplit(s[1..]);
      var rest := SplitLines(s[1..]);
      assert s == [s[0]] + s[1..];
      if s[0] == '\n' {
        assert ([""] + rest)[1..] == rest;
      } else {
        JoinHead(s[0], rest);
      }
    }
  }

  lemma JoinHead(c: char, lines: seq<string>)
    requires lines != []
    ensures JoinLines([[c] + lines[0]] + lines[1..]) == [c] + JoinLines(lines)
  {
    var longer := [[c] + lines[0]] + lines[1..];
    assert longer[1..] == lines[1..];
    if |lines| > 1 {
      assert [c] + lines[0] + "\n" + JoinLines(lines[1..]) == [c] + (lines[0] + "\n" + JoinLines(lines[1..]));
    }
  }

  /** The entries a check admits, in file order. */
  function Admitted(entries: seq<Entry>, valid: Option<set<LogicalKey>>): (r: seq<Entry>) {
    if entries == [] then []
    else
      var last := entries[|entries| - 1];
      Admitted(entries[..|entries| - 1], valid) + if Admits(valid, last.key) then [last] else []
  }

  lemma {:induction false} AdmittedMembers(entries: seq<Entry>, valid: Option<set<LogicalKey>>)
    ensures forall e :: e in Admitted(entries, valid) <==> e in entries && Admits(valid, e.key)
  {
    if entries != [] {
      var init, last := entries[..|entries| - 1], entries[|entries| - 1];
      AdmittedMembers(init, valid);
      assert entries == init + [last];
    }
  }

  lemma {:induction false} AllAdmitted(entries: seq<Entry>)
    ensures Admitted(entries, None) == entries
  {
    if entries != [] {
      AllAdmitted(entries[..|entries| - 1]);
    }
  }

  lemma LoadOneMore(lines: seq<string>, line: string, codec: Codec, valid: Option<set<LogicalKey>>)
    ensures
      var entry := codec.decode(line);
      LoadedEntries(lines + [line], codec, valid) ==
      LoadedEntries(lines, codec, valid) + if entry.Some? && Admits(valid, entry.value.key) then [entry.value] else []
    ensures codec.decode(line).Some? && valid.None? ==>
              LoadDiagnostics(lines + [line], codec, valid) == LoadDiagnostics(lines, codec, valid)
  {
    assert (lines + [line])[..|lines|] == lines;
  }

  lemma {:induction false} LoadEncoded(entries: seq<Entry>, codec: Codec, valid: Option<set<LogicalKey>>)
    requires Faithful(codec)
    ensures LoadedEntries(Map(codec.encode, entries), codec, valid) == Admitted(entries, valid)
    ensures valid.None? ==> LoadDiagnostics(Map(codec.encode, entries), codec, valid) == []
  {
    if entries != [] {
      var init, last := entries[..|entries| - 1], entries[|entries| - 1];
      LoadEncoded(init, codec, valid);
      LoadOneMore(Map(codec.encode, init), codec.encode(last), codec, valid);
      assert Map(codec.encode, entries) == Map(codec.encode, init) + [codec.encode(last)];
    }
  }

  /** Loading what was written gives the written entries back, every line readable. */
  lemma LoadInvertsSerialize(entries: seq<Entry>, codec: Codec, valid: Option<set<LogicalKey>>)
    requires Faithful(codec)
    ensures LoadedEntries(FileLines(Serialize(entries, codec)), codec, valid) == Admitted(entries, valid)
    ensures valid.None? ==> LoadedEntries(FileLines(Serialize(entries, codec)), codec, valid) == entries
    ensures valid.None? ==> LoadDiagnostics(FileLines(Serialize(entries, codec)), codec, valid) == []
  {
    var lines := Map(codec.encode, entries);
    if entries != [] {
      SplitJoined(lines);
    }
    assert FileLines(Serialize(entries, codec)) == lines;
    LoadEncoded(entries, codec, valid);
    AllAdmitted(entries);
  }
}

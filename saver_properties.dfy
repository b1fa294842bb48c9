/** What `JSONSaver` guarantees about the file, proved about the functions the
    methods of `Saver.JsonSaver` are verified against. */
module SaverProperties {
  import opened JsonValues
  import HhClass
  import opened Saver

  /** Every entry has a (title, url) key that can go into a set. */
  ghost predicate KeyedEntries(entries: seq<Json>)
  {
    forall j :: 0 <= j < |entries| ==> EntryKey(entries[j]).Ok?
  }

  /** No two entries share a (title, url) key. */
  ghost predicate UniqueKeys(entries: seq<Json>)
  {
    && KeyedEntries(entries)
    && forall j, l :: 0 <= j < l < |entries| ==> EntryKey(entries[j]).value != EntryKey(entries[l]).value
  }

  /** The entries appended by the merge, each with a key outside `seen` and all
      keys distinct. */
  ghost predicate FreshEntries(entries: seq<Json>, seen: set<Key>)
  {
    && UniqueKeys(entries)
    && forall j :: 0 <= j < |entries| ==> EntryKey(entries[j]).value !in seen
  }

  /** The detail view of the vacancy built from a posting, if it converts. */
  ghost function DetailOf(item: Json): Option<Json>
  {
    if ToVacancy(item).Ok? then Some(HhClass.GetVacancyData(ToVacancy(item).value)) else None
  }

  /** `idx` picks, in increasing order, the elements of `items` whose views
      make up `picked`. */
  ghost predicate Picks(idx: seq<int>, picked: seq<Json>, items: seq<Json>, view: Json -> Option<Json>)
  {
    && |idx| == |picked|
    && (forall j :: 0 <= j < |idx| ==> 0 <= idx[j] < |items| && view(items[idx[j]]) == Some(picked[j]))
    && (forall j, l :: 0 <= j < l < |idx| ==> idx[j] < idx[l])
  }

  /** `idx` picks, in increasing order, the postings of `items` whose detail
      views make up `entries`. */
  ghost predicate InBatchOrder(idx: seq<int>, entries: seq<Json>, items: seq<Json>)
  {
    Picks(idx, entries, items, DetailOf)
  }

  /** The (title, url) key of a posting that converts. */
  ghost function PostingKey(item: Json): Key
    requires ToVacancy(item).Ok?
  {
    VacancyKey(ToVacancy(item).value)
  }

  /** Each posting `idx` picks has a key outside `seen` that no earlier posting
      of the batch has: it is the first posting of the batch with that key. */
  ghost predicate FirstOfKey(idx: seq<int>, items: seq<Json>, seen: set<Key>)
  {
    forall j :: 0 <= j < |idx| ==>
      && 0 <= idx[j] < |items| && ToVacancy(items[idx[j]]).Ok?
      && PostingKey(items[idx[j]]) !in seen
      && forall i :: 0 <= i < idx[j] ==>
           ToVacancy(items[i]).Ok? && PostingKey(items[i]) != PostingKey(items[idx[j]])
  }

  /** Every posting of the batch converts, and its key is in `keys`. */
  ghost predicate BatchKeysIn(items: seq<Json>, keys: set<Key>)
  {
    forall i :: 0 <= i < |items| ==>
      ToVacancy(items[i]).Ok?
      && Hashable(VacancyKey(ToVacancy(items[i]).value).0)
      && Hashable(VacancyKey(ToVacancy(items[i]).value).1)
      && VacancyKey(ToVacancy(items[i]).value) in keys
  }

  /** The entries of the document `save_to_file` starts from. */
  function BaseEntries(file: FileState): seq<Json>
  {
    var stored := BaseDocument(file).fields["vacancies"];
    if stored.JArr? then stored.elems else []
  }

  /** A detail view is stored under the key of the vacancy it shows. */
  lemma DetailEntryKey(v: HhClass.Vacancy)
    requires Hashable(v.title) && Hashable(v.vacancyUrl)
    ensures EntryKey(HhClass.GetVacancyData(v)) == Ok(VacancyKey(v))
  {
  }

  /** The key set holds the key of every stored entry. */
  lemma {:induction false} ExistingKeysHoldEntries(entries: seq<Json>)
    requires ExistingKeys(entries).Ok?
    ensures KeyedEntries(entries)
    ensures forall j :: 0 <= j < |entries| ==> EntryKey(entries[j]).value in ExistingKeys(entries).value
  {
    if entries != [] {
      ExistingKeysHoldEntries(entries[1..]);
      forall j | 0 < j < |entries|
        ensures EntryKey(entries[j]).Ok? && EntryKey(entries[j]).value in ExistingKeys(entries).value
      {
        assert entries[j] == entries[1..][j - 1];
      }
    }
  }

  /** The key set of two runs of entries is the union of their key sets. */
  lemma {:induction false} ExistingKeysAppend(front: seq<Json>, back: seq<Json>)
    requires ExistingKeys(front).Ok? && ExistingKeys(back).Ok?
    ensures ExistingKeys(front + back) == Ok(ExistingKeys(front).value + ExistingKeys(back).value)
  {
    if front == [] {
      assert front + back == back;
      assert ExistingKeys(front).value + ExistingKeys(back).value == ExistingKeys(back).value;
    } else {
      assert (front + back)[0] == front[0];
      assert (front + back)[1..] == front[1..] + back;
      ExistingKeysAppend(front[1..], back);
      var k := EntryKey(front[0]).value;
      assert ExistingKeys(front) == Ok({k} + ExistingKeys(front[1..]).value);
      assert ExistingKeys(front + back) == Ok({k} + ExistingKeys(front[1..] + back).value);
      assert {k} + (ExistingKeys(front[1..]).value + ExistingKeys(back).value)
          == ({k} + ExistingKeys(front[1..]).value) + ExistingKeys(back).value;
    }
  }

  /** The merge appends entries whose keys are new and pairwise distinct. */
  lemma {:induction false} MergeBatchIsFresh(seen: set<Key>, items: seq<Json>)
    requires MergeBatch(seen, items).Ok?
    ensures FreshEntries(MergeBatch(seen, items).value, seen)
    decreases |items|
  {
    if items != [] {
      var v := ToVacancy(items[0]).value;
      var key := VacancyKey(v);
      if key in seen {
        MergeBatchIsFresh(seen, items[1..]);
      } else {
        MergeBatchIsFresh(seen + {key}, items[1..]);
        DetailEntryKey(v);
        var rest := MergeBatch(seen + {key}, items[1..]).value;
        var app := [HhClass.GetVacancyData(v)] + rest;
        assert MergeBatch(seen, items).value == app;
        forall j | 0 < j < |app|
          ensures app[j] == rest[j - 1]
        {
        }
      }
    }
  }

  function Shift(idx: seq<int>): (r: seq<int>)
    ensures |r| == |idx| && forall j :: 0 <= j < |idx| ==> r[j] == idx[j] + 1
  {
    seq(|idx|, j requires 0 <= j < |idx| => idx[j] + 1)
  }

  /** A pick from the tail of a list is one from the list. */
  lemma PicksShift(idx: seq<int>, picked: seq<Json>, items: seq<Json>, view: Json -> Option<Json>)
    requires |items| > 0 && Picks(idx, picked, items[1..], view)
    ensures Picks(Shift(idx), picked, items, view)
  {
    var s := Shift(idx);
    forall j | 0 <= j < |s|
      ensures 0 <= s[j] < |items| && view(items[s[j]]) == Some(picked[j])
    {
      assert items[s[j]] == items[1..][idx[j]];
    }
  }

  /** The first element of a list can go in front of a pick that avoids it. */
  lemma PicksCons(t: seq<int>, picked: seq<Json>, items: seq<Json>, view: Json -> Option<Json>, first: Json)
    requires |items| > 0 && Picks(t, picked, items, view)
    requires (forall j :: 0 <= j < |t| ==> t[j] > 0) && view(items[0]) == Some(first)
    ensures Picks([0] + t, [first] + picked, items, view)
  {
    var s := [0] + t;
    var e := [first] + picked;
    forall j | 0 <= j < |s|
      ensures 0 <= s[j] < |items| && view(items[s[j]]) == Some(e[j])
    {
      if j > 0 {
        assert s[j] == t[j - 1] && e[j] == picked[j - 1];
      }
    }
    forall j, l | 0 <= j < l < |s|
      ensures s[j] < s[l]
    {
      assert s[l] == t[l - 1];
      if j > 0 {
        assert s[j] == t[j - 1];
      }
    }
  }

  /** Skipping the first posting of a batch keeps the first occurrences of the
      tail first occurrences, once the first posting's key is known. */
  lemma FirstOfKeyShift(idx: seq<int>, items: seq<Json>, seen: set<Key>, seen': set<Key>)
    requires |items| > 0 && ToVacancy(items[0]).Ok? && PostingKey(items[0]) in seen'
    requires seen <= seen' && FirstOfKey(idx, items[1..], seen')
    ensures FirstOfKey(Shift(idx), items, seen)
  {
    var s := Shift(idx);
    forall j | 0 <= j < |s|
      ensures 0 <= s[j] < |items| && ToVacancy(items[s[j]]).Ok? && PostingKey(items[s[j]]) !in seen
      ensures forall i :: 0 <= i < s[j] ==>
        ToVacancy(items[i]).Ok? && PostingKey(items[i]) != PostingKey(items[s[j]])
    {
      assert items[s[j]] == items[1..][idx[j]];
      forall i | 0 < i < s[j]
        ensures ToVacancy(items[i]).Ok? && PostingKey(items[i]) != PostingKey(items[s[j]])
      {
        assert items[i] == items[1..][i - 1];
      }
    }
  }

  /** A first posting with a new key is the first occurrence of that key. */
  lemma FirstOfKeyCons(idx: seq<int>, items: seq<Json>, seen: set<Key>)
    requires |items| > 0 && ToVacancy(items[0]).Ok? && PostingKey(items[0]) !in seen
    requires FirstOfKey(Shift(idx), items, seen)
    ensures FirstOfKey([0] + Shift(idx), items, seen)
  {
    var s := [0] + Shift(idx);
    forall j | 0 < j < |s|
      ensures s[j] == Shift(idx)[j - 1]
    {
    }
  }

  /** The merge appends the detail views of some of the postings, in batch
      order, and each is the first posting of the batch with its key. */
  lemma {:induction false} MergeBatchInBatchOrder(seen: set<Key>, items: seq<Json>)
    requires MergeBatch(seen, items).Ok?
    ensures exists idx ::
      InBatchOrder(idx, MergeBatch(seen, items).value, items) && FirstOfKey(idx, items, seen)
    decreases |items|
  {
    if items == [] {
      assert InBatchOrder([], MergeBatch(seen, items).value, items) && FirstOfKey([], items, seen);
    } else {
      var v := ToVacancy(items[0]).value;
      var key := VacancyKey(v);
      var seen' := if key in seen then seen else seen + {key};
      MergeBatchInBatchOrder(seen', items[1..]);
      var rest := MergeBatch(seen', items[1..]).value;
      var idx :| InBatchOrder(idx, rest, items[1..]) && FirstOfKey(idx, items[1..], seen');
      PicksShift(idx, rest, items, DetailOf);
      FirstOfKeyShift(idx, items, seen, seen');
      if key in seen {
        assert InBatchOrder(Shift(idx), MergeBatch(seen, items).value, items);
      } else {
        var first := HhClass.GetVacancyData(v);
        assert MergeBatch(seen, items).value == [first] + rest;
        PicksCons(Shift(idx), rest, items, DetailOf, first);
        FirstOfKeyCons(idx, items, seen);
      }
    }
  }

  /** After the merge, the key of every posting of the batch is either one seen
      before or the key of an appended entry. */
  lemma {:induction false} MergeBatchCovers(seen: set<Key>, items: seq<Json>)
    requires MergeBatch(seen, items).Ok?
    ensures ExistingKeys(MergeBatch(seen, items).value).Ok?
    ensures BatchKeysIn(items, seen + ExistingKeys(MergeBatch(seen, items).value).value)
    decreases |items|
  {
    if items != [] {
      var v := ToVacancy(items[0]).value;
      var key := VacancyKey(v);
      var seen' := if key in seen then seen else seen + {key};
      MergeBatchCovers(seen', items[1..]);
      var rest := MergeBatch(seen', items[1..]).value;
      var restKeys := ExistingKeys(rest).value;
      var all := seen + ExistingKeys(MergeBatch(seen, items).value).value;
      if key !in seen {
        DetailEntryKey(v);
        var app := [HhClass.GetVacancyData(v)] + rest;
        assert app[1..] == rest;
        assert MergeBatch(seen, items).value == app;
        assert ExistingKeys(app) == Ok({key} + restKeys);
      }
      assert seen' + restKeys <= all;
      forall i | 0 <= i < |items|
        ensures ToVacancy(items[i]).Ok? && VacancyKey(ToVacancy(items[i]).value) in all
      {
        if i > 0 {
          assert items[i] == items[1..][i - 1];
        }
      }
    }
  }

  /** A batch whose keys are all known appends nothing. */
  lemma {:induction false} MergeBatchOfKnownKeys(seen: set<Key>, items: seq<Json>)
    requires BatchKeysIn(items, seen)
    ensures MergeBatch(seen, items) == Ok([])
    decreases |items|
  {
    if items != [] {
      assert BatchKeysIn(items[1..], seen) by {
        forall i | 0 <= i < |items[1..]|
          ensures items[1..][i] == items[i + 1]
        {
        }
      }
      MergeBatchOfKnownKeys(seen, items[1..]);
    }
  }

  /** `save_to_file` never modifies, removes or reorders what is stored and
      touches no other key of the document: it only appends at the end. */
  lemma SaveOnlyAppends(file: FileState, vacanciesData: Json)
    requires SaveDocument(file, vacanciesData).Ok?
    ensures var base := BaseDocument(file);
      var d := SaveDocument(file, vacanciesData).value;
      && base.fields["vacancies"].JArr?
      && d.JObj? && d.fields.Keys == base.fields.Keys
      && (forall k :: k in base.fields && k != "vacancies" ==> d.fields[k] == base.fields[k])
      && d.fields["vacancies"].JArr?
      && BaseEntries(file) <= d.fields["vacancies"].elems
  {
  }

  /** A stored dict with "vacancies" is what `save_to_file` merges into: its
      other keys and its stored entries survive the save unchanged. */
  lemma SaveKeepsStoredDocument(doc: Json, vacanciesData: Json)
    requires doc.JObj? && "vacancies" in doc.fields && SaveDocument(Holds(doc), vacanciesData).Ok?
    ensures var d := SaveDocument(Holds(doc), vacanciesData).value;
      && doc.fields["vacancies"].JArr? && d.JObj? && d.fields.Keys == doc.fields.Keys
      && (forall k :: k in doc.fields && k != "vacancies" ==> d.fields[k] == doc.fields[k])
      && doc.fields["vacancies"].elems <= d.fields["vacancies"].elems
  {
    SaveOnlyAppends(Holds(doc), vacanciesData);
  }

  /** The entries `save_to_file` appends are the detail views of postings of the
      batch, in batch order, each the first posting of the batch with its key;
      none shares a key with a stored entry or with another appended one, and
      every posting's key ends up stored; so a store without duplicate keys
      keeps none. */
  lemma SaveAppendsNewKeysInOrder(file: FileState, vacanciesData: Json)
    requires SaveDocument(file, vacanciesData).Ok?
    ensures var all := SaveDocument(file, vacanciesData).value.fields["vacancies"].elems;
      var appended := all[|BaseEntries(file)|..];
      var seen := ExistingKeys(BaseEntries(file)).value;
      var items := BatchItems(vacanciesData).value;
      && FreshEntries(appended, seen)
      && (exists idx :: InBatchOrder(idx, appended, items) && FirstOfKey(idx, items, seen))
      && ExistingKeys(appended).Ok?
      && BatchKeysIn(items, seen + ExistingKeys(appended).value)
      && (UniqueKeys(BaseEntries(file)) ==> UniqueKeys(all))
  {
    var entries := BaseEntries(file);
    var seen := ExistingKeys(entries).value;
    var items := BatchItems(vacanciesData).value;
    var appended := MergeBatch(seen, items).value;
    var all := entries + appended;
    assert SaveDocument(file, vacanciesData).value.fields["vacancies"].elems == all;
    assert all[|entries|..] == appended;
    MergeBatchIsFresh(seen, items);
    MergeBatchInBatchOrder(seen, items);
    MergeBatchCovers(seen, items);
    if UniqueKeys(entries) {
      ExistingKeysHoldEntries(entries);
      forall j, l | 0 <= j < l < |all|
        ensures EntryKey(all[j]).Ok? && EntryKey(all[l]).Ok?
        ensures EntryKey(all[j]).value != EntryKey(all[l]).value
      {
        if l >= |entries| {
          assert all[l] == appended[l - |entries|];
          if j >= |entries| {
            assert all[j] == appended[j - |entries|];
          }
        }
      }
    }
  }

  /** Saving the same batch twice leaves the same file as saving it once. */
  lemma SaveIdempotent(file: FileState, vacanciesData: Json)
    ensures SaveFile(SaveFile(file, vacanciesData), vacanciesData) == SaveFile(file, vacanciesData)
  {
    if SaveDocument(file, vacanciesData).Ok? {
      var d := SaveDocument(file, vacanciesData).value;
      var entries := BaseEntries(file);
      var seen := ExistingKeys(entries).value;
      var items := BatchItems(vacanciesData).value;
      var appended := MergeBatch(seen, items).value;
      assert d.fields["vacancies"] == JArr(entries + appended);
      MergeBatchCovers(seen, items);
      MergeBatchIsFresh(seen, items);
      ExistingKeysAppend(entries, appended);
      var seen2 := seen + ExistingKeys(appended).value;
      assert BaseDocument(Holds(d)) == d;
      assert StoredKeys(d.fields["vacancies"]) == Ok(seen2);
      MergeBatchOfKnownKeys(seen2, items);
      assert (entries + appended) + [] == entries + appended;
      assert d.fields["vacancies" := JArr(entries + appended)] == d.fields;
      assert SaveDocument(Holds(d), vacanciesData) == Ok(d);
    }
  }

  /** A missing file, an unparsable one, a document that is not a dict and one
      without "vacancies" are all merged into as the empty form. */
  lemma SaveTreatsNonDocumentsAsEmpty(doc: Json, vacanciesData: Json)
    requires !doc.JObj? || "vacancies" !in doc.fields
    ensures SaveDocument(Holds(doc), vacanciesData) == SaveDocument(Missing, vacanciesData)
    ensures SaveDocument(Unparsable, vacanciesData) == SaveDocument(Missing, vacanciesData)
    ensures SaveDocument(Holds(EmptyDocument), vacanciesData) == SaveDocument(Missing, vacanciesData)
  {
    assert BaseDocument(Holds(doc)) == EmptyDocument;
    assert BaseDocument(Unparsable) == EmptyDocument;
    assert BaseDocument(Holds(EmptyDocument)) == EmptyDocument == BaseDocument(Missing);
  }

  /** The salary bounds of the vacancy built from a posting: each is 0 unless
      it is a positive integer (or `true`), which is kept. A missing or `None`
      salary, or a missing or `None` bound, gives 0. */
  lemma ToVacancyFields(item: Json, bound: string)
    requires ToVacancy(item).Ok?
    requires bound == "from" || bound == "to"
    ensures var v := ToVacancy(item).value;
      var salary := v.minSalary;
      var salaryTo := v.maxSalary;
      var raw := Get(item.fields, "salary", JNull);
      var value := if raw.JObj? then Get(raw.fields, bound, JNull) else JNull;
      var picked := if bound == "from" then salary else salaryTo;
      && (value.JInt? && value.i > 0 ==> picked == value.i)
      && (!(value.JInt? && value.i > 0) && value != JBool(true) ==> picked == 0)
  {
  }

  /** Finding, as written: a posting with `"salary": null` (what the search API
      sends for a posting without a salary) makes `save_to_file` raise before
      anything is written. */
  lemma NullSalaryRaisesAsWritten()
    ensures SalaryBoundAsWritten(map["name" := JStr("Python Dev"), "salary" := JNull], "from")
         == Raised(AttributeError)
  {
  }

  /** Finding, corrected: `"salary": null` reads as no salary, exactly like a
      posting without the key, and differs from the code as written nowhere
      else. */
  lemma NullSalaryMeansNoSalary(vacancy: map<string, Json>, bound: string)
    ensures SalaryBound(vacancy["salary" := JNull], bound) == Ok(JInt(0))
    ensures SalaryBound(vacancy - {"salary"}, bound) == Ok(JInt(0))
    ensures Get(vacancy, "salary", JObj(map[])) != JNull ==>
              SalaryBound(vacancy, bound) == SalaryBoundAsWritten(vacancy, bound)
  {
  }

  /** After `clear_file`, `read_file` gives the same empty form as for a missing
      or unparsable file. */
  lemma ClearThenRead()
    ensures ReadDocument(Missing) == ReadDocument(Unparsable) == ReadDocument(Holds(EmptyDocument))
  {
  }

  /** `add_vacancy` with a dict: the stored list afterwards is the old one, with
      the dict appended at the end unless an equal dict was already there. */
  lemma AddAppendsUnlessEqualPresent(file: FileState, vacancyData: Json)
    requires vacancyData.JObj? && AddVacancyFile(file, vacancyData).Ok?
    ensures var before := ReadDocument(file);
      var after := ReadDocument(AddVacancyFile(file, vacancyData).value);
      && before.JObj? && "vacancies" in before.fields && before.fields["vacancies"].JArr?
      && after.JObj? && after.fields.Keys == before.fields.Keys
      && (forall k :: k in before.fields && k != "vacancies" ==> after.fields[k] == before.fields[k])
      && after.fields["vacancies"]
         == if vacancyData in before.fields["vacancies"].elems then before.fields["vacancies"]
            else JArr(before.fields["vacancies"].elems + [vacancyData])
  {
  }

  /** A stored document without "vacancies" makes `add_vacancy` raise, where
      `save_to_file` would start from the empty form. */
  lemma AddNeedsVacanciesKey(doc: Json, vacancyData: Json)
    requires vacancyData.JObj? && doc.JObj? && "vacancies" !in doc.fields
    ensures AddVacancyFile(Holds(doc), vacancyData) == Raised(KeyError)
    ensures BaseDocument(Holds(doc)) == EmptyDocument
  {
  }

  /** Adding the same record twice leaves the same file as adding it once. */
  lemma AddIdempotent(file: FileState, vacancyData: Json)
    requires AddVacancyFile(file, vacancyData).Ok?
    ensures var once := AddVacancyFile(file, vacancyData).value;
      AddVacancyFile(once, vacancyData) == Ok(once)
  {
    if vacancyData.JObj? {
      var data := ReadDocument(file);
      var entries := data.fields["vacancies"].elems;
      if vacancyData !in entries {
        var after := JObj(data.fields["vacancies" := JArr(entries + [vacancyData])]);
        assert (entries + [vacancyData])[|entries|] == vacancyData;
        assert after.fields["vacancies"].elems == entries + [vacancyData];
      }
    }
  }

  /** `add_vacancy` compares whole records, not keys: a record with the key of
      a stored one but another salary is appended, leaving two entries with one
      key. */
  lemma AddComparesWholeRecords()
    ensures var stored := JObj(map["title" := JStr("T"), "url" := JStr("U"), "min_salary" := JInt(1)]);
      var other := JObj(map["title" := JStr("T"), "url" := JStr("U"), "min_salary" := JInt(2)]);
      var file := Holds(JObj(map["vacancies" := JArr([stored])]));
      && AddVacancyFile(file, other) == Ok(Holds(JObj(map["vacancies" := JArr([stored, other])])))
      && EntryKey(stored) == EntryKey(other)
  {
    var stored := JObj(map["title" := JStr("T"), "url" := JStr("U"), "min_salary" := JInt(1)]);
    var other := JObj(map["title" := JStr("T"), "url" := JStr("U"), "min_salary" := JInt(2)]);
    assert stored.fields["min_salary"] != other.fields["min_salary"];
    assert [stored] + [other] == [stored, other];
    assert EntryKey(stored) == EntryKey(other);
    var doc := map["vacancies" := JArr([stored])];
    assert doc["vacancies" := JArr([stored, other])] == map["vacancies" := JArr([stored, other])];
  }

  // A batch of two postings: one without a salary, one with a lower bound only.
  const PythonPosting: Json := JObj(map["name" := JStr("Python Dev"), "alternate_url" := JStr("u1"),
    "salary" := JNull, "snippet" := JObj(map["requirement" := JStr("Python")])])
  const JavaPosting: Json := JObj(map["name" := JStr("Java Dev"), "alternate_url" := JStr("u2"),
    "salary" := JObj(map["from" := JInt(100000)]), "snippet" := JObj(map[])])
  const PythonEntry: Json := JObj(map["title" := JStr("Python Dev"), "url" := JStr("u1"),
    "min_salary" := JInt(0), "max_salary" := JInt(0), "requirements" := JStr("Python")])
  const JavaEntry: Json := JObj(map["title" := JStr("Java Dev"), "url" := JStr("u2"),
    "min_salary" := JInt(100000), "max_salary" := JInt(0), "requirements" := JStr("")])

  /** The postings of the example batch become their entries; the `None`
      salary gives 0 and a missing requirement `""`. */
  lemma ExamplePostingsConvert()
    ensures ToVacancy(PythonPosting) == Ok(HhClass.Vacancy(JStr("Python Dev"), JStr("u1"), 0, 0, JStr("Python")))
    ensures ToVacancy(JavaPosting) == Ok(HhClass.Vacancy(JStr("Java Dev"), JStr("u2"), 100000, 0, JStr("")))
  {
    assert SalaryBound(PythonPosting.fields, "from") == Ok(JInt(0));
    assert SalaryBound(PythonPosting.fields, "to") == Ok(JInt(0));
    assert SalaryBound(JavaPosting.fields, "from") == Ok(JInt(100000));
    assert SalaryBound(JavaPosting.fields, "to") == Ok(JInt(0));
  }

  /** The example batch merged into an empty store keeps both postings, in order. */
  lemma MergeExampleBatch()
    ensures MergeBatch({}, [PythonPosting, JavaPosting]) == Ok([PythonEntry, JavaEntry])
  {
    ExamplePostingsConvert();
    var p := ToVacancy(PythonPosting).value;
    var j := ToVacancy(JavaPosting).value;
    assert HhClass.GetVacancyData(p) == PythonEntry;
    assert HhClass.GetVacancyData(j) == JavaEntry;
    var seen := {VacancyKey(p)};
    assert VacancyKey(j) !in seen;
    assert MergeBatch(seen + {VacancyKey(j)}, []) == Ok([]);
    assert [JavaEntry] + [] == [JavaEntry];
    MergeBatchStep(seen, [JavaPosting], 0);
    assert [JavaPosting][0..] == [JavaPosting] && [JavaPosting][1..] == [];
    assert MergeBatch(seen, [JavaPosting]) == Ok([JavaEntry]);
    MergeBatchStep({}, [PythonPosting, JavaPosting], 0);
    assert [PythonPosting, JavaPosting][0..] == [PythonPosting, JavaPosting];
    assert [PythonPosting, JavaPosting][1..] == [JavaPosting];
    assert {} + {VacancyKey(p)} == seen;
    assert [PythonEntry] + [JavaEntry] == [PythonEntry, JavaEntry];
  }

  /** The example batch saved into a cleared file gives exactly its two detail
      views. */
  lemma SaveExampleBatch(batch: Json)
    requires batch == JObj(map["items" := JArr([PythonPosting, JavaPosting])])
    ensures SaveDocument(Holds(EmptyDocument), batch) == Ok(JObj(map["vacancies" := JArr([PythonEntry, JavaEntry])]))
  {
    MergeExampleBatch();
    SaveIntoEmpty(batch, [PythonPosting, JavaPosting], [PythonEntry, JavaEntry]);
  }

  /** Saving into a cleared file stores exactly what the merge appends. */
  lemma SaveIntoEmpty(batch: Json, items: seq<Json>, appended: seq<Json>)
    requires batch == JObj(map["items" := JArr(items)]) && MergeBatch({}, items) == Ok(appended)
    ensures SaveDocument(Holds(EmptyDocument), batch) == Ok(JObj(map["vacancies" := JArr(appended)]))
  {
    assert BaseDocument(Holds(EmptyDocument)) == EmptyDocument;
    assert StoredKeys(JArr([])) == Ok({});
    assert BatchItems(batch) == Ok(items);
    assert [] + appended == appended;
    assert EmptyDocument.fields["vacancies" := JArr(appended)] == map["vacancies" := JArr(appended)];
  }

  /** Saving the example batch again into that file changes nothing. */
  lemma SaveExampleBatchTwice(batch: Json)
    requires batch == JObj(map["items" := JArr([PythonPosting, JavaPosting])])
    ensures var once := SaveFile(Holds(EmptyDocument), batch);
      && once == Holds(JObj(map["vacancies" := JArr([PythonEntry, JavaEntry])]))
      && SaveFile(once, batch) == once
  {
    SaveExampleBatch(batch);
    SaveIdempotent(Holds(EmptyDocument), batch);
  }
}

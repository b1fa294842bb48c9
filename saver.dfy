/** `JSONSaver` of src/saver_class.py: a JSON file holding
    `{"vacancies": [...]}` that the saver merges a batch of postings into,
    clears, or appends one record to. The file is a field of the object: it
    is missing, holds text that does not parse, or holds a JSON document.
    Every operation that writes replaces the whole document. An exception
    raised before the write leaves the file as it was. */
module Saver {
  import opened JsonValues
  import opened SalaryInputs
  import HhClass

  datatype FileState = Missing | Unparsable | Holds(doc: Json)

  /** What an operation did: returned normally, or let an exception escape. */
  datatype Outcome = Done | Failed(error: PyError)

  const EmptyDocument: Json := JObj(map["vacancies" := JArr([])])

  /** `read_file`: the parsed document, or the empty form when the file is
      missing or does not parse. */
  function ReadDocument(file: FileState): (d: Json)
    ensures file.Holds? ==> d == file.doc
    ensures !file.Holds? ==> d == EmptyDocument
  {
    match file
    case Holds(doc) => doc
    case _ => EmptyDocument
  }

  /** The identity of a posting: title and URL. */
  type Key = (Json, Json)

  /** `(item.get("title"), item.get("url"))` for one stored entry: an entry that
      is not a dict has no `.get`, and a list or dict cannot go into a set. */
  function EntryKey(entry: Json): (r: Result<Key>)
    ensures r.Ok? <==>
      entry.JObj? && Hashable(Get(entry.fields, "title", JNull)) && Hashable(Get(entry.fields, "url", JNull))
    ensures r.Ok? ==> r.value == (Get(entry.fields, "title", JNull), Get(entry.fields, "url", JNull))
  {
    if !entry.JObj? then Raised(AttributeError)
    else
      var key := (Get(entry.fields, "title", JNull), Get(entry.fields, "url", JNull));
      if Hashable(key.0) && Hashable(key.1) then Ok(key) else Raised(TypeError)
  }

  /** The set comprehension over the stored entries, first failure first. */
  function ExistingKeys(entries: seq<Json>): Result<set<Key>>
  {
    if entries == [] then Ok({})
    else
      match EntryKey(entries[0])
      case Raised(e) => Raised(e)
      case Ok(key) =>
        match ExistingKeys(entries[1..])
        case Raised(e) => Raised(e)
        case Ok(keys) => Ok({key} + keys)
  }

  /** The key set built from `existing_data['vacancies']`, whatever it holds: a
      dict is iterated by its string keys and a string by its characters, and
      neither has `.get`; anything else is not iterable. */
  function StoredKeys(stored: Json): (r: Result<set<Key>>)
    ensures stored.JArr? ==> r == ExistingKeys(stored.elems)
    ensures !stored.JArr? ==>
      r == if stored == JObj(map[]) || stored == JStr("") then Ok({})
           else if stored.JObj? || stored.JStr? then Raised(AttributeError)
           else Raised(TypeError)
  {
    match stored
    case JArr(entries) => ExistingKeys(entries)
    case JObj(m) => if m == map[] then Ok({}) else Raised(AttributeError)
    case JStr(s) => if s == "" then Ok({}) else Raised(AttributeError)
    case _ => Raised(TypeError)
  }

  /** The postings `self.vacancies_data["items"]` iterates over. */
  function BatchItems(vacanciesData: Json): (r: Result<seq<Json>>)
    ensures r.Ok? ==> vacanciesData.JObj? && "items" in vacanciesData.fields
    ensures r.Ok? <==>
      && vacanciesData.JObj? && "items" in vacanciesData.fields
      && (|| vacanciesData.fields["items"].JArr? || vacanciesData.fields["items"] == JObj(map[])
          || vacanciesData.fields["items"] == JStr(""))
    ensures r.Ok? ==>
      r.value == if vacanciesData.fields["items"].JArr? then vacanciesData.fields["items"].elems else []
  {
    if !vacanciesData.JObj? then Raised(TypeError)
    else if "items" !in vacanciesData.fields then Raised(KeyError)
    else
      match vacanciesData.fields["items"]
      case JArr(a) => Ok(a)
      case JObj(m) => if m == map[] then Ok([]) else Raised(AttributeError)
      case JStr(s) => if s == "" then Ok([]) else Raised(AttributeError)
      case _ => Raised(TypeError)
  }

  /** `vacancy.get("salary", {}).get(bound, 0) or 0` exactly as written: a
      posting whose `salary` is `None` makes the second `.get` raise. */
  function SalaryBoundAsWritten(vacancy: map<string, Json>, bound: string): (r: Result<Json>)
    ensures r.Ok? <==> Get(vacancy, "salary", JObj(map[])).JObj?
    ensures r.Ok? ==> Truthy(r.value) || r.value == JInt(0)
  {
    var salary := Get(vacancy, "salary", JObj(map[]));
    if !salary.JObj? then Raised(AttributeError)
    else
      var value := Get(salary.fields, bound, JInt(0));
      Ok(if Truthy(value) then value else JInt(0))
  }

  /** The salary bound as evidently intended: a `salary` of `None` means no
      salary, like a missing one. Used by the rest of the model. */
  function SalaryBound(vacancy: map<string, Json>, bound: string): (r: Result<Json>)
    ensures r.Ok? <==> Get(vacancy, "salary", JObj(map[])) == JNull || Get(vacancy, "salary", JObj(map[])).JObj?
    ensures r.Ok? ==> Truthy(r.value) || r.value == JInt(0)
  {
    if Get(vacancy, "salary", JObj(map[])) == JNull then Ok(JInt(0))
    else SalaryBoundAsWritten(vacancy, bound)
  }

  /** The `Vacancy` object built from one raw posting, in the order Python
      evaluates the pieces. */
  function ToVacancy(item: Json): (r: Result<HhClass.Vacancy>)
    ensures r.Ok? <==>
      && item.JObj?
      && "name" in item.fields && "alternate_url" in item.fields
      && "snippet" in item.fields && item.fields["snippet"].JObj?
      && ("salary" in item.fields ==> item.fields["salary"].JNull? || item.fields["salary"].JObj?)
    ensures r.Ok? ==>
      && r.value.title == item.fields["name"] && r.value.vacancyUrl == item.fields["alternate_url"]
      && r.value.description == Get(item.fields["snippet"].fields, "requirement", JStr(""))
  {
    if !item.JObj? then Raised(AttributeError)
    else
      var m := item.fields;
      match SalaryBound(m, "from")
      case Raised(e) => Raised(e)
      case Ok(salaryFrom) =>
        match SalaryBound(m, "to")
        case Raised(e) => Raised(e)
        case Ok(salaryTo) =>
          if "name" !in m || "alternate_url" !in m || "snippet" !in m then Raised(KeyError)
          else if !m["snippet"].JObj? then Raised(AttributeError)
          else Ok(HhClass.New(m["name"], m["alternate_url"], FromJson(salaryFrom), FromJson(salaryTo),
                              Get(m["snippet"].fields, "requirement", JStr(""))))
  }

  /** A posting the loop gets past: it converts, and its key can be hashed. */
  predicate Convertible(item: Json)
  {
    ToVacancy(item).Ok? && Hashable(VacancyKey(ToVacancy(item).value).0)
    && Hashable(VacancyKey(ToVacancy(item).value).1)
  }

  /** Every posting of the batch gets through the loop. */
  predicate AllConvertible(items: seq<Json>)
  {
    forall i :: 0 <= i < |items| ==> Convertible(items[i])
  }

  function VacancyKey(v: HhClass.Vacancy): Key
  {
    (v.title, v.vacancyUrl)
  }

  function Prepend(prefix: seq<Json>, r: Result<seq<Json>>): Result<seq<Json>>
  {
    match r
    case Ok(rest) => Ok(prefix + rest)
    case Raised(e) => Raised(e)
  }

  /** The entries the loop of `save_to_file` collects in `new_vacancies` when
      `seen` holds the keys met so far. */
  function MergeBatch(seen: set<Key>, items: seq<Json>): (r: Result<seq<Json>>)
    ensures r.Ok? <==> AllConvertible(items)
    ensures r.Ok? ==> |r.value| <= |items|
    decreases |items|
  {
    if items == [] then Ok([])
    else
      match ToVacancy(items[0])
      case Raised(e) => Raised(e)
      case Ok(v) =>
        var key := VacancyKey(v);
        if !Hashable(key.0) || !Hashable(key.1) then Raised(TypeError)
        else if key in seen then MergeBatch(seen, items[1..])
        else Prepend([HhClass.GetVacancyData(v)], MergeBatch(seen + {key}, items[1..]))
  }

  /** The document `save_to_file` starts from: a parsed document that is not a
      dict, or has no "vacancies", is replaced by the empty form. */
  function BaseDocument(file: FileState): (d: Json)
    ensures d.JObj? && "vacancies" in d.fields
    ensures ReadDocument(file).JObj? && "vacancies" in ReadDocument(file).fields ==> d == ReadDocument(file)
    ensures !(ReadDocument(file).JObj? && "vacancies" in ReadDocument(file).fields) ==> d == EmptyDocument
  {
    var existing := ReadDocument(file);
    if existing.JObj? && "vacancies" in existing.fields then existing else EmptyDocument
  }

  /** The document `save_to_file` writes, or the exception it raises first. */
  function SaveDocument(file: FileState, vacanciesData: Json): (r: Result<Json>)
    ensures var stored := BaseDocument(file).fields["vacancies"];
      r.Ok? <==>
        && StoredKeys(stored).Ok? && BatchItems(vacanciesData).Ok?
        && AllConvertible(BatchItems(vacanciesData).value)
        && stored.JArr?
    ensures r.Ok? ==>
      && r.value.JObj? && r.value.fields.Keys == BaseDocument(file).fields.Keys
      && r.value.fields["vacancies"].JArr?
      && BaseDocument(file).fields["vacancies"].elems <= r.value.fields["vacancies"].elems
  {
    var base := BaseDocument(file);
    var stored := base.fields["vacancies"];
    match StoredKeys(stored)
    case Raised(e) => Raised(e)
    case Ok(seen) =>
      match BatchItems(vacanciesData)
      case Raised(e) => Raised(e)
      case Ok(items) =>
        match MergeBatch(seen, items)
        case Raised(e) => Raised(e)
        case Ok(appended) =>
          // `.extend` exists on a list only
          if stored.JArr? then Ok(JObj(base.fields["vacancies" := JArr(stored.elems + appended)]))
          else Raised(AttributeError)
  }

  /** The file after `save_to_file`. */
  function SaveFile(file: FileState, vacanciesData: Json): FileState
  {
    match SaveDocument(file, vacanciesData)
    case Ok(d) => Holds(d)
    case Raised(_) => file
  }

  /** The file after `add_vacancy(vacancy_data)`, or the exception it raises. */
  function AddVacancyFile(file: FileState, vacancyData: Json): (r: Result<FileState>)
    ensures !vacancyData.JObj? ==> r == Ok(file)
    ensures r.Ok? <==>
      || !vacancyData.JObj?
      || (&& ReadDocument(file).JObj? && "vacancies" in ReadDocument(file).fields
          && ReadDocument(file).fields["vacancies"].JArr?)
    ensures r.Ok? && vacancyData.JObj? ==>
      && r.value.Holds? && r.value.doc.JObj? && "vacancies" in r.value.doc.fields
      && r.value.doc.fields["vacancies"].JArr? && vacancyData in r.value.doc.fields["vacancies"].elems
  {
    if !vacancyData.JObj? then Ok(file)
    else
      var data := ReadDocument(file);
      if !data.JObj? then Raised(TypeError)
      else if "vacancies" !in data.fields then Raised(KeyError)
      else
        match data.fields["vacancies"]
        case JArr(entries) =>
          Ok(Holds(if vacancyData in entries then data
                   else JObj(data.fields["vacancies" := JArr(entries + [vacancyData])])))
        // no key or character equals a dict, and `.append` exists on a list only
        case JObj(_) => Raised(AttributeError)
        case JStr(_) => Raised(AttributeError)
        case _ => Raised(TypeError)
  }

  function OutcomeOf<T>(r: Result<T>): Outcome
  {
    match r
    case Ok(_) => Done
    case Raised(e) => Failed(e)
  }

  lemma PrependNothing(r: Result<seq<Json>>)
    ensures Prepend([], r) == r
  {
    if r.Ok? {
      assert [] + r.value == r.value;
    }
  }

  lemma PrependTwice(a: seq<Json>, b: seq<Json>, r: Result<seq<Json>>)
    ensures Prepend(a, Prepend(b, r)) == Prepend(a + b, r)
  {
    if r.Ok? {
      assert a + (b + r.value) == (a + b) + r.value;
    }
  }

  /** One turn of the loop of `save_to_file` on a posting that does not raise. */
  lemma MergeBatchStep(seen: set<Key>, items: seq<Json>, i: nat)
    requires i < |items| && ToVacancy(items[i]).Ok?
    requires var key := VacancyKey(ToVacancy(items[i]).value); Hashable(key.0) && Hashable(key.1)
    ensures var v := ToVacancy(items[i]).value;
      MergeBatch(seen, items[i..])
      == if VacancyKey(v) in seen then MergeBatch(seen, items[i + 1..])
         else Prepend([HhClass.GetVacancyData(v)], MergeBatch(seen + {VacancyKey(v)}, items[i + 1..]))
  {
    assert items[i..][0] == items[i] && items[i..][1..] == items[i + 1..];
  }

  /** A posting that cannot be turned into a vacancy, or whose key cannot be
      hashed, aborts the loop with its exception. */
  lemma MergeBatchRaises(seen: set<Key>, items: seq<Json>, i: nat)
    requires i < |items|
    ensures ToVacancy(items[i]).Raised? ==> MergeBatch(seen, items[i..]) == Raised(ToVacancy(items[i]).error)
    ensures ToVacancy(items[i]).Ok? ==>
      var key := VacancyKey(ToVacancy(items[i]).value);
      !(Hashable(key.0) && Hashable(key.1)) ==> MergeBatch(seen, items[i..]) == Raised(TypeError)
  {
    assert items[i..][0] == items[i];
  }

  class JsonSaver {
    /** `self.vacancies_data`: the search response whose "items" are saved. */
    var vacanciesData: Json
    /** `self.__filename`: the base name of the file under the data directory. */
    const filename: string
    /** The file `data/<filename>.json`. */
    var file: FileState

    /** `JSONSaver(vacancies_data, filename="vacancies")`; `file` is what is on disk. */
    constructor (vacanciesData: Json, file: FileState, filename: string := "vacancies")
      ensures this.vacanciesData == vacanciesData && this.filename == filename && this.file == file
    {
      this.vacanciesData := vacanciesData;
      this.filename := filename;
      this.file := file;
    }

    /** `read_file`. */
    function ReadFile(): (d: Json)
      reads this
      ensures d == ReadDocument(file)
    {
      ReadDocument(file)
    }

    /** `save_to_file`: merges the batch into the file, skipping postings whose
        (title, url) is already stored or was added earlier in the batch. */
    method SaveToFile() returns (outcome: Outcome)
      modifies this`file
      ensures file == SaveFile(old(file), vacanciesData)
      ensures outcome == OutcomeOf(SaveDocument(old(file), vacanciesData))
    {
      var existingData := ReadFile();
      if !existingData.JObj? || "vacancies" !in existingData.fields {
        existingData := EmptyDocument;
      }
      assert existingData == BaseDocument(file);
      var stored := existingData.fields["vacancies"];
      var keys := StoredKeys(stored);
      if keys.Raised? {
        return Failed(keys.error);
      }
      var existingVacancies := keys.value;
      var batch := BatchItems(vacanciesData);
      if batch.Raised? {
        return Failed(batch.error);
      }
      var items := batch.value;
      ghost var merged := MergeBatch(existingVacancies, items);
      assert SaveDocument(file, vacanciesData) == (match merged
        case Raised(e) => Raised(e)
        case Ok(appended) =>
          if stored.JArr? then Ok(JObj(existingData.fields["vacancies" := JArr(stored.elems + appended)]))
          else Raised(AttributeError));
      var newVacancies: seq<Json> := [];
      PrependNothing(MergeBatch(existingVacancies, items[0..]));
      assert items[0..] == items;
      for i := 0 to |items|
        invariant Prepend(newVacancies, MergeBatch(existingVacancies, items[i..])) == merged
        invariant file == old(file)
      {
        var vacancyObj := ToVacancy(items[i]);
        if vacancyObj.Raised? {
          MergeBatchRaises(existingVacancies, items, i);
          return Failed(vacancyObj.error);
        }
        var vacancyKey := VacancyKey(vacancyObj.value);
        if !Hashable(vacancyKey.0) || !Hashable(vacancyKey.1) {
          MergeBatchRaises(existingVacancies, items, i);
          return Failed(TypeError);
        }
        MergeBatchStep(existingVacancies, items, i);
        if vacancyKey !in existingVacancies {
          PrependTwice(newVacancies, [HhClass.GetVacancyData(vacancyObj.value)],
                       MergeBatch(existingVacancies + {vacancyKey}, items[i + 1..]));
          newVacancies := newVacancies + [HhClass.GetVacancyData(vacancyObj.value)];
          existingVacancies := existingVacancies + {vacancyKey};
        }
      }
      assert items[|items|..] == [];
      assert merged == Ok(newVacancies + []);
      assert newVacancies + [] == newVacancies;
      if !stored.JArr? {
        return Failed(AttributeError);
      }
      file := Holds(JObj(existingData.fields["vacancies" := JArr(stored.elems + newVacancies)]));
      return Done;
    }

    /** `clear_file`: the file holds exactly the empty form afterwards. */
    method ClearFile()
      modifies this`file
      ensures file == Holds(EmptyDocument)
    {
      file := Holds(EmptyDocument);
    }

    /** `add_vacancy`: appends one dict unless an equal dict is already stored;
        anything that is not a dict is refused without touching the file. */
    method AddVacancy(vacancyData: Json) returns (outcome: Outcome)
      modifies this`file
      ensures AddVacancyFile(old(file), vacancyData).Ok? ==> file == AddVacancyFile(old(file), vacancyData).value
      ensures AddVacancyFile(old(file), vacancyData).Raised? ==> file == old(file)
      ensures outcome == OutcomeOf(AddVacancyFile(old(file), vacancyData))
    {
      if !vacancyData.JObj? {
        return Done;
      }
      var data := ReadDocument(file);
      if !data.JObj? {
        return Failed(TypeError);
      }
      if "vacancies" !in data.fields {
        return Failed(KeyError);
      }
      var vacancies := data.fields["vacancies"];
      if vacancies.JObj? || vacancies.JStr? {
        return Failed(AttributeError);
      }
      if !vacancies.JArr? {
        return Failed(TypeError);
      }
      if vacancyData !in vacancies.elems {
        data := JObj(data.fields["vacancies" := JArr(vacancies.elems + [vacancyData])]);
      }
      file := Holds(data);
      return Done;
    }
  }
}

# hh.ru vacancy tools: keyword filter, JSON store and vacancy records

A Dafny model of the core of a small command-line program that fetches job
postings from the hh.ru search API, filters them by keywords and keeps them in a
JSON file. Three parts are modelled:

- **The keyword filter** (`filter_vacancies`, `filter.dfy`). It keeps the
  postings whose `snippet.requirement` contains some keyword as a whole word,
  ignoring case. The regular expression `\b(?:k1|k2|...)\b` is modelled by what
  it means. Some keyword occurs at some position of the requirement, compared
  letter by letter after case folding, with a word boundary on both sides.
  `Filter.Search` is a recursive search that is proved equivalent to this
  existential definition. `Filter.FilterVacancies` is the loop of the source,
  with its `continue`s. It is proved to return exactly `Filter.FilterResponse`,
  which is built on `Filter.Filtered`. Lemmas about `Filter.Filtered` prove
  which postings are kept and in what order.
- **The JSON store** (`JSONSaver`, `saver.dfy` and `saver_properties.dfy`). It is
  a class whose `file` field is the file on disk. The file is missing, holds
  text that does not parse, or holds a JSON document. `SaveToFile`, `ClearFile`
  and `AddVacancy` are methods that change `file`. `SaveToFile` keeps the loop of
  the source, with its growing key set and list of new entries. Each method is
  proved to leave exactly the file that a specification function computes
  (`Saver.SaveFile`, `Saver.AddVacancyFile`). The lemmas in `SaverProperties`
  then prove what the store promises about those functions. The `KeyError`,
  `TypeError` and `AttributeError` that the code raises on malformed
  documents and postings are `Raised` results. A raised exception leaves the
  file as it was. Errors of the filesystem and of decoding are not modelled
  (see Left out).
- **Three `Vacancy` records** (`external_api.dfy`, `hh_class.dfy`,
  `test_vacancy.dfy`). Each variant has its own datatype. Each one validates its
  salaries on construction, gives one or two dictionary views, and compares on a
  single salary field. The variant in `hh_class.dfy` is the one the store builds.

JSON values are the datatype `JsonValues.Json`. Python's truthiness, `dict.get`
and hashability are written out in `json.dfy`. The argument of a salary
validator is the tagged value `SalaryInputs.SalaryInput`: an integer, a bool, a
string, `None`, or anything else.

Two facts about the store shape the model:
- `save_to_file` appends the detail view of each new vacancy (`title`, `url`,
  `min_salary`, `max_salary`, `requirements`), not its wire view
  (src/saver_class.py:77).
- `save_to_file` reads the salary bounds from the nested `salary` object of a
  posting and ignores top-level `salary_from`/`salary_to` keys
  (src/saver_class.py:64-65).

## Model

| member | source | states |
|---|---|---|
| Filter.Search | src/filter.py:19-20 | the search succeeds exactly when some keyword occurs in the text as a whole word, ignoring case; keywords are compared literally |
| Filter.SearchFrom | src/filter.py:19-20 | trying the pattern from position `i` on succeeds exactly when a whole-word occurrence starts at some position `j >= i` |
| Filter.AnyKeywordAt | src/filter.py:19-20 | trying every alternative at one position succeeds exactly when some keyword occurs there as a whole word |
| Filter.RequirementOf | src/filter.py:13-23 | the lookup `vacancy["snippet"]["requirement"]` fails, and the posting is skipped, exactly when the posting or its snippet is not a dict or lacks the key; otherwise it gives the stored requirement |
| Filter.Kept | src/filter.py:12-23 | a posting is kept exactly when its `snippet.requirement` is a non-empty string in which some keyword occurs as a whole word |
| Filter.Filtered | src/filter.py:12-23 | the kept postings are no more than the items, and each of them is kept |
| Filter.FilterResponse | src/filter.py:5-25 | the call succeeds exactly for a dict with "items" whose items can be iterated (any value when there are no keywords); with keywords the result is a list of kept postings |
| Filter.FilterVacancies | src/filter.py:5-25 | the loop returns exactly the filter's result: `TypeError` for a non-dict argument, `KeyError` without "items", the items unchanged for no keywords, and otherwise the list of postings that are kept |
| Filter.FilteredIsSubsequence | src/filter.py:12-21 | the output is the items at an increasing list of positions, and a position is in that list exactly when its posting is kept, so repeated postings are all kept |
| Filter.FilteredMembership | src/filter.py:12-23 | a posting is in the output exactly when it is in the input and its requirement is a non-empty string in which a keyword is found |
| Filter.FilterKeepsWholeWordMatches | src/filter.py:9-25 | with keywords and a list of items, a posting is in the output exactly when it is an item whose requirement is a non-empty string with a whole-word, case-insensitive occurrence of some keyword |
| Filter.EmptyKeywordsReturnItems | src/filter.py:9-10 | with no keywords the items come back unchanged: same elements, same length and order |
| Filter.MissingRequirementNeverKept | src/filter.py:13-16 | a posting without `snippet.requirement`, or with `None` or `""` there, is never kept, whatever the keywords |
| Filter.FilterIdempotent | src/filter.py:12-21 | filtering the kept postings again keeps all of them |
| Filter.FilterResponseIdempotent | src/filter.py:5-25 | re-filtering the output with the same keywords returns it unchanged |
| Filter.OccurrenceStartsWithKeyword | src/filter.py:19-20 | a whole-word occurrence begins with the keyword's first letter, up to case |
| Filter.JavaIsNotWordOfJavaScript | test/test_filter.py:55-59 | "java" is not found in "JavaScript, React", because the word goes on after it |
| Filter.JavaIsWordOfJavaAndSpring | test/test_filter.py:55-59 | "java" is found as a whole word in "Java and Spring experience" |
| Filter.UpperCaseKeywordMatches | test/test_filter.py:61-65 | "PYTHON" is found in "Experience with Python and Django": case is ignored |
| Filter.LowerCaseKeywordMatches | test/test_filter.py:67-71 | "react" is found in "JavaScript, React" |
| Filter.KeywordCharsAreLiteral | src/filter.py:19 | wherever a keyword occurs, each of its non-letter characters (`.`, `*`, `+`, digits, ...) stands for exactly itself, never for pattern syntax |
| Filter.KeywordsAreLiteral | src/filter.py:19 | example: the keyword "." is not found in "a b", where an unescaped `.` would match a letter |
| Saver.JsonSaver.constructor | src/saver_class.py:34-36 | the saver keeps the batch and the file name it is given, "vacancies" by default |
| Saver.JsonSaver.ReadFile | src/saver_class.py:38-48 | `read_file` returns the parsed document, or `{"vacancies": []}` when the file is missing or does not parse |
| Saver.JsonSaver.SaveToFile | src/saver_class.py:50-84 | after `save_to_file` the file is the stored document with the new postings merged in, or unchanged when an exception escapes; the outcome names that exception |
| Saver.JsonSaver.ClearFile | src/saver_class.py:86-94 | after `clear_file` the file holds exactly `{"vacancies": []}` |
| Saver.JsonSaver.AddVacancy | src/saver_class.py:96-117 | after `add_vacancy` the file has the record appended unless an equal record is stored, is untouched for a non-dict, and is unchanged when an exception escapes |
| Saver.ReadDocument | src/saver_class.py:44-48 | a missing or unparsable file reads as `{"vacancies": []}` |
| Saver.BaseDocument | src/saver_class.py:56-58 | the document merged into is always a dict with "vacancies": the stored document itself when it is one, the empty form otherwise |
| Saver.EntryKey | src/saver_class.py:60 | a stored entry has a key exactly when it is a dict whose `title` and `url` can be hashed; the key is those two values, `None` when absent |
| Saver.StoredKeys | src/saver_class.py:60 | a stored list gives the key set of its entries; an empty dict or empty string gives no keys; another dict or string raises `AttributeError` on its first element, and `None`, a bool or a number raises `TypeError` |
| Saver.BatchItems | src/saver_class.py:63 | iterating the batch succeeds exactly for a dict with "items" holding a list, an empty dict or an empty string; a list comes back as it is, the empty ones give no postings |
| Saver.SalaryBoundAsWritten | src/saver_class.py:64-65 | as written, reading a bound succeeds exactly when the salary is a dict or absent, and gives a truthy value or 0 |
| Saver.SalaryBound | src/saver_class.py:64-65 | corrected, reading a bound succeeds exactly when the salary is a dict, `None` or absent, and gives a truthy value or 0 |
| Saver.ToVacancy | src/saver_class.py:63-73 | a posting becomes a vacancy exactly when it is a dict with `name`, `alternate_url` and a dict `snippet`, and its `salary` is a dict, `None` or absent; the vacancy keeps the name, URL and requirement (default `""`) |
| Saver.MergeBatch | src/saver_class.py:60-78 | the merge loop gets through the batch exactly when every posting converts and has a hashable key, and appends at most one entry per posting |
| Saver.SaveDocument | src/saver_class.py:56-80 | the save succeeds exactly when the stored list and the batch can be iterated and every posting converts; it then keeps the document's keys and extends the stored list |
| Saver.AddVacancyFile | src/saver_class.py:96-117 | a non-dict leaves the file as it is; a dict is added exactly when the file reads as a dict with a "vacancies" list, and is then in that list |
| SaverProperties.ClearThenRead | src/saver_class.py:38-48 | after clearing, reading gives the same document as reading a missing or unparsable file |
| SaverProperties.SaveTreatsNonDocumentsAsEmpty | src/saver_class.py:56-58 | a document that is not a dict or lacks "vacancies" is merged into exactly like a missing file |
| SaverProperties.SaveOnlyAppends | src/saver_class.py:56-80 | a successful save keeps every other key of the document, and keeps the stored entries as an unchanged prefix of the new list |
| SaverProperties.SaveKeepsStoredDocument | src/saver_class.py:56-80 | a stored dict with "vacancies" is the document merged into: after a successful save its other keys are unchanged and its stored entries are an unchanged prefix of the new list |
| SaverProperties.SaveAppendsNewKeysInOrder | src/saver_class.py:60-80 | the appended entries are detail views of postings in batch order, each of the first posting of the batch with its key; none has a key already stored or shared with another appended entry; every posting's key ends up stored; a store with unique keys keeps them unique |
| SaverProperties.SaveIdempotent | src/saver_class.py:60-84 | saving the same batch twice leaves the same file as saving it once |
| SaverProperties.MergeBatchIsFresh | src/saver_class.py:60-78 | the merge loop appends entries whose keys are new and pairwise distinct |
| SaverProperties.MergeBatchInBatchOrder | src/saver_class.py:63-78 | the merge loop appends detail views of postings of the batch, in increasing batch position, each of the first posting with its key, a key not seen before |
| SaverProperties.MergeBatchCovers | src/saver_class.py:60-78 | after the merge loop, the key of every posting of the batch is either stored or the key of an appended entry |
| SaverProperties.MergeBatchOfKnownKeys | src/saver_class.py:75-78 | a batch whose keys are all stored appends nothing |
| SaverProperties.ExistingKeysHoldEntries | src/saver_class.py:60 | the key set holds the key of every stored entry |
| SaverProperties.ExistingKeysAppend | src/saver_class.py:60-80 | the key set of a list extended by more entries is the union of the two key sets |
| SaverProperties.DetailEntryKey | src/hh_class.py:23-31 | a stored detail view is found again under the (title, url) key of its vacancy |
| SaverProperties.ToVacancyFields | src/saver_class.py:64-73 | a salary bound of the vacancy is kept when positive and is 0 when the salary or the bound is missing, `None`, zero, negative or not a number |
| SaverProperties.NullSalaryRaisesAsWritten | src/saver_class.py:64 | as written, a posting with `"salary": null` raises `AttributeError` |
| SaverProperties.NullSalaryMeansNoSalary | src/saver_class.py:64-65 | corrected, `"salary": null` reads as no salary, like a missing key, and nothing else changes |
| SaverProperties.AddAppendsUnlessEqualPresent | src/saver_class.py:106-117 | with a dict, the stored list afterwards is the old one, with the record appended at the end unless an equal record is stored; nothing else in the document changes |
| SaverProperties.AddNeedsVacanciesKey | src/saver_class.py:106-113 | a stored dict without "vacancies" makes `add_vacancy` raise `KeyError`, where `save_to_file` starts from the empty form |
| SaverProperties.AddIdempotent | src/saver_class.py:112-113 | adding the same record twice leaves the same file as adding it once |
| SaverProperties.AddComparesWholeRecords | src/saver_class.py:112 | a record with a stored key but another salary is appended, so dedup is by equality, not by key |
| SaverProperties.ExamplePostingsConvert | src/saver_class.py:63-73 | a posting with a `None` salary gets salaries 0, one without a requirement gets `""` |
| SaverProperties.MergeExampleBatch | src/saver_class.py:60-80 | two postings with different keys, one with a `None` salary, both become entries, in order |
| SaverProperties.SaveIntoEmpty | src/saver_class.py:56-80 | saving into a cleared file stores exactly the entries the merge loop appends |
| SaverProperties.SaveExampleBatch | src/saver_class.py:50-84 | the example batch saved into a cleared file gives exactly its two detail views |
| SaverProperties.SaveExampleBatchTwice | src/saver_class.py:50-94 | that batch saved into a cleared file gives exactly two entries, and saving it again still two |
| ExternalApi.ValidateSalary | src/external_api.py:22-26 | the result is positive exactly for a positive number (or `True`); a positive integer is kept; strings, `None` and other values give 0 |
| ExternalApi.New | src/external_api.py:6-11 | the constructor stores title, URL and description unchanged and both salaries validated |
| ExternalApi.GetVacancyData | src/external_api.py:28-36 | the detail view has exactly the keys title, url, min_salary, max_salary, requirements |
| ExternalApi.MainData | src/external_api.py:38-46 | the wire view has exactly the keys name, alternate_url, salary_from, salary_to, snippet, with the requirement nested under snippet |
| ExternalApi.Name | src/external_api.py:13-16 | `name` is the same value as `title` |
| ExternalApi.Title | src/external_api.py:18-20 | `title` is the value both views show as the title (`title` in the detail view, `name` in the wire view) |
| ExternalApi.NameIsTitle | src/external_api.py:6-20 | `name` and `title` both return the constructor's title |
| ExternalApi.ViewsRoundTrip | src/external_api.py:28-46 | each view reads back as the vacancy it came from |
| ExternalApi.ViewsCarrySameValues | src/external_api.py:28-46 | the two views carry the same five values under detail and wire names |
| ExternalApi.ComparisonsSeeOnlySalaryFrom | src/external_api.py:60-76 | replacing an operand by one with the same `salary_from` changes no comparison |
| ExternalApi.Eq | src/external_api.py:60-61 | equal exactly when the shown `salary_from` is equal |
| ExternalApi.Ne | src/external_api.py:63-64 | `!=` is the negation of `==` |
| ExternalApi.Lt | src/external_api.py:66-67 | `<` orders by the shown `salary_from`, and never holds between equal vacancies |
| ExternalApi.Gt | src/external_api.py:69-70 | `a > b` is `b < a` |
| ExternalApi.Le | src/external_api.py:72-73 | `<=` is `<` or `==` |
| ExternalApi.Ge | src/external_api.py:75-76 | `a >= b` is `b <= a` |
| ExternalApi.ComparisonsConsistent | src/external_api.py:60-76 | `!=` is `not ==`, `<=` is `<` or `==`, `>` and `>=` are `<` and `<=` swapped, and any two vacancies compare |
| HhClass.ValidateSalary | src/hh_class.py:17-21 | the result is positive exactly for a positive number (or `True`); a positive integer is returned unchanged; anything else gives 0 |
| HhClass.New | src/hh_class.py:6-11 | the constructor stores title, URL and description unchanged and both salaries validated |
| HhClass.GetVacancyData | src/hh_class.py:23-31 | the detail view has exactly the five detail keys and non-negative integer salaries |
| HhClass.Title | src/hh_class.py:13-15 | `title` is the value the detail view shows as `title` |
| HhClass.TitleFixedAtConstruction | src/hh_class.py:7-15 | `title` returns the title given to the constructor |
| HhClass.DetailViewRoundTrip | src/hh_class.py:6-31 | the detail view holds the title, URL, validated salaries and description as constructed |
| HhClass.DetailViewReadsBack | src/hh_class.py:23-31 | the detail view reads back as the vacancy it came from |
| HhClass.ComparisonsSeeOnlyMinSalary | src/hh_class.py:45-61 | replacing an operand by one with the same `min_salary` changes no comparison |
| HhClass.Eq | src/hh_class.py:45-46 | equal exactly when the shown `min_salary` is equal |
| HhClass.Ne | src/hh_class.py:48-49 | `!=` is the negation of `==` |
| HhClass.Lt | src/hh_class.py:51-52 | `<` orders by the shown `min_salary`, and never holds between equal vacancies |
| HhClass.Gt | src/hh_class.py:54-55 | `a > b` is `b < a` |
| HhClass.Le | src/hh_class.py:57-58 | `<=` is `<` or `==` |
| HhClass.Ge | src/hh_class.py:60-61 | `a >= b` is `b <= a` |
| HhClass.ComparisonsConsistent | src/hh_class.py:45-61 | the six operators agree with one another, and `<=` is total and transitive, as is `<` |
| HhClass.SalaryChain | test/test_hh_class.py:15-28 | 80000 < 100000 < 120000 holds for `<`, `>`, `<=` and `>=`, and a vacancy with another title but equal minimum salary compares `==` |
| TestVacancy.ValidateSalary | test/test_saver_class.py:11-17 | a positive `int(x)` is returned and a zero or negative one gives 0, for integers, for every string `int()` reads and for `True`/`False` (1 and 0); a string `int()` rejects (one of more than 4300 digits included), `None` or another value gives 0 |
| TestVacancy.ParseInt | test/test_saver_class.py:14 | a string is read exactly when, after an optional `+` or `-`, it is a run of 1 to 4300 decimal digits (so `"1x"`, `""`, a lone sign and a 4301-digit number are rejected); its value is that of the digits, negated after `-` |
| TestVacancy.TooManyDigitsIsZero | test/test_saver_class.py:13-17 | a string of more than 4300 digits, signed or not, is rejected by `int()`, so its salary is 0 |
| TestVacancy.NonCanonicalStrings | test/test_saver_class.py:13-15 | `"+5"`, `"007"` and `"-0"` are read like `int()` reads them, and validate to 5, 7 and 0 |
| TestVacancy.DecimalString | test/test_saver_class.py:14 | the decimal form of a number is a non-empty string of digits |
| TestVacancy.DigitsOfDecimalString | test/test_saver_class.py:14 | the digits of a number's decimal form read back as the number |
| TestVacancy.ParseIntString | test/test_saver_class.py:14 | `int(str(i)) == i` for every integer whose decimal form has at most 4300 digits, which is every integer `str()` can write |
| TestVacancy.ValidateSalaryOfString | test/test_saver_class.py:11-17 | a salary given as the decimal string of a number (at most 4300 digits) validates like the number |
| TestVacancy.InvalidSalariesAreZero | test/test_hh_class.py:41-45 | `"abc"` and `None` both validate to 0 |
| TestVacancy.New | test/test_saver_class.py:4-9 | the constructor stores name, URL and requirement unchanged and both salaries validated |
| TestVacancy.MainData | test/test_saver_class.py:19-27 | the wire view has exactly the five wire keys, and `snippet` is exactly `{"requirement": requirement}` |
| TestVacancy.MainDataRoundTrip | test/test_saver_class.py:19-27 | the wire view reads back as the vacancy it came from |
| TestVacancy.MainDataExample | test/test_hh_class.py:48-57 | the wire view of the tests' first vacancy is the expected dict |
| TestVacancy.ComparisonsSeeOnlySalaryFrom | test/test_saver_class.py:41-69 | replacing an operand by one with the same `salary_from` changes no comparison |
| TestVacancy.Eq | test/test_saver_class.py:41-44 | equal exactly when the shown `salary_from` is equal |
| TestVacancy.Ne | test/test_saver_class.py:46-49 | `!=` is the negation of `==` |
| TestVacancy.Lt | test/test_saver_class.py:51-54 | `<` orders by the shown `salary_from`, and never holds between equal vacancies |
| TestVacancy.Gt | test/test_saver_class.py:56-59 | `a > b` is `b < a` |
| TestVacancy.Le | test/test_saver_class.py:61-64 | `<=` is `<` or `==` |
| TestVacancy.Ge | test/test_saver_class.py:66-69 | `a >= b` is `b <= a` |
| TestVacancy.ComparisonsConsistent | test/test_saver_class.py:41-69 | the six operators agree with one another |
| TestVacancy.ConstructorAndEquality | test/test_hh_class.py:26-45 | the constructor keeps the test's fields, equal `salary_from` means `==` with different names, and invalid salaries become 0 |

## Left out

- Floating-point salaries are not modelled. `int(float)` truncation in src/external_api.py:25 and floats kept as they are in src/hh_class.py:20 are outside the model. JSON numbers are integers.
- TestVacancy.ParseInt: reads an optional sign followed by ASCII decimal digits only. Python's `int()` also accepts surrounding whitespace, `_` separators and non-ASCII digits. The 4300-digit limit is CPython's default (`sys.set_int_max_str_digits` can change it, and releases before 3.11 and the 2022 security releases have none); the model counts every digit, leading zeros included.
- HhClass.ValidateSalary: returns `True` unchanged, and it would be stored as JSON `true`. The model keeps it as the number 1.
- Filter.Search: word characters are the ASCII `[A-Za-z0-9_]` and case folding is ASCII only. Python's `\b` and `re.IGNORECASE` on `str` use Unicode, so Cyrillic letters count as word characters there.
- Python's cross-type equality (`1 == True`, `1 == 1.0`) is not modelled. `add_vacancy` compares records by `Json` equality (src/saver_class.py:112), and the key set of `save_to_file` keeps `(1, u)` and `(True, u)` as two keys, where Python's set holds one (src/saver_class.py:60 and 76).
- Comparing a vacancy with something that is not one is not modelled. The types rule it out. The test variant returns `NotImplemented` there, and the other two variants raise.
- The filesystem is outside the model: the path built from the file name, `os.makedirs`, JSON encoding, indentation and `ensure_ascii`. The file is the `file` field, and parse errors are the `Unparsable` state. `filename` is kept but not used.
- Errors that escape from the filesystem and from decoding are not modelled: an `OSError` from `open` or `os.makedirs`, and a `UnicodeDecodeError` for a file that is not UTF-8 (src/saver_class.py:45-47). Such content is read as the `Unparsable` state, that is as `{"vacancies": []}`, where the program raises.
- The `print` diagnostic of `add_vacancy` and the `__str__` renderings are display only.
- The abstract base class `BaseSaver` has no behaviour.
- Fetching postings over the network is outside the model, and so is the interactive `main.py`. The batch is a parameter of the saver.
- Saver.ToVacancy: uses the corrected salary reading (see Findings). A posting with `"salary": null` is stored with salaries 0 rather than raising `AttributeError`.

## Findings

| source | as written | input that shows it | evidently intended | confidence | as-written member | corrected member |
|---|---|---|---|---|---|---|
| src/saver_class.py:64-65 | `vacancy.get("salary", {}).get("from", 0) or 0` calls `.get` on `None` when the posting has `"salary": null` | a posting `{"name": "Python Dev", "salary": null, ...}`; the hh.ru search API sends `null` for postings without a salary, and main.py:22-24 guards against it | a `null` salary means no salary, so both bounds are 0, as for a missing key | not executed | SaverProperties.NullSalaryRaisesAsWritten (about Saver.SalaryBoundAsWritten) | SaverProperties.NullSalaryMeansNoSalary (about Saver.SalaryBound) |

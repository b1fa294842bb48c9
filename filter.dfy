/** `filter_vacancies` of src/filter.py: keeps the postings whose
    `snippet.requirement` contains one of the keywords as a whole word, ignoring
    case. The regular expression `\b(?:k1|k2|...)\b` the source builds is
    modelled by its meaning: some keyword, compared letter by letter after
    ASCII case folding, occurs at some position with a word boundary on both
    sides. Word characters are the ASCII ones, `[A-Za-z0-9_]`. */
module Filter {
  import opened JsonValues

  predicate IsWordChar(c: char)
  {
    'A' <= c <= 'Z' || 'a' <= c <= 'z' || '0' <= c <= '9' || c == '_'
  }

  /** ASCII case folding. */
  function Lower(c: char): char
  {
    if 'A' <= c <= 'Z' then (c as int + 32) as char else c
  }

  function LowerStr(s: string): string
  {
    seq(|s|, j requires 0 <= j < |s| => Lower(s[j]))
  }

  /** Position `p` of `s` holds a word character (positions outside do not). */
  predicate WordAt(s: string, p: int)
  {
    0 <= p < |s| && IsWordChar(s[p])
  }

  /** `\b` at position `p`: exactly one of its two neighbours is a word character. */
  predicate BoundaryAt(s: string, p: int)
  {
    WordAt(s, p - 1) != WordAt(s, p)
  }

  /** Keyword `k` matches `s` at position `i` as a whole word, ignoring case;
      the keyword's characters are compared literally, never as pattern syntax. */
  predicate OccursAt(s: string, k: string, i: int)
  {
    0 <= i && i + |k| <= |s|
    && LowerStr(s[i..i + |k|]) == LowerStr(k)
    && BoundaryAt(s, i) && BoundaryAt(s, i + |k|)
  }

  /** What `re.search(r'\b(?:k1|...)\b', s, re.IGNORECASE)` succeeds on: the
      engine tries every alternative at every start position, so a match exists
      exactly when some keyword occurs somewhere as a whole word. */
  ghost predicate WholeWordMatch(s: string, keywords: seq<string>)
  {
    exists i, k :: k in keywords && OccursAt(s, k, i)
  }

  /** Tries each alternative of the pattern at position `i`. */
  function AnyKeywordAt(s: string, keywords: seq<string>, i: int): (found: bool)
    ensures found <==> exists k :: k in keywords && OccursAt(s, k, i)
  {
    if keywords == [] then false
    else OccursAt(s, keywords[0], i) || AnyKeywordAt(s, keywords[1..], i)
  }

  /** Tries the pattern at every position from `i` on. */
  function SearchFrom(s: string, keywords: seq<string>, i: nat): (found: bool)
    requires i <= |s|
    ensures found <==> exists j, k :: i <= j && k in keywords && OccursAt(s, k, j)
    decreases |s| - i
  {
    AnyKeywordAt(s, keywords, i) || (i < |s| && SearchFrom(s, keywords, i + 1))
  }

  /** `re.search(...)` is truthy. */
  function Search(s: string, keywords: seq<string>): (found: bool)
    ensures found <==> WholeWordMatch(s, keywords)
  {
    SearchFrom(s, keywords, 0)
  }

  /** `vacancy["snippet"]["requirement"]`, or `None` where that lookup raises
      `KeyError` (a missing key) or `TypeError` (something that is not a dict). */
  function RequirementOf(vacancy: Json): (r: Option<Json>)
    ensures r.None? <==>
      || !vacancy.JObj? || "snippet" !in vacancy.fields
      || !vacancy.fields["snippet"].JObj? || "requirement" !in vacancy.fields["snippet"].fields
    ensures r.Some? ==> r.value == vacancy.fields["snippet"].fields["requirement"]
  {
    if vacancy.JObj? && "snippet" in vacancy.fields
       && vacancy.fields["snippet"].JObj? && "requirement" in vacancy.fields["snippet"].fields
    then Some(vacancy.fields["snippet"].fields["requirement"])
    else None
  }

  /** One turn of the loop keeps the posting: the requirement is a non-empty
      string and the pattern finds a keyword in it. A requirement that is
      missing, `None` or empty is skipped; any other non-string value makes
      `re.search` raise `TypeError`, which is caught and skips it too. */
  predicate Kept(vacancy: Json, keywords: seq<string>)
    ensures Kept(vacancy, keywords) <==>
      && RequirementOf(vacancy).Some? && RequirementOf(vacancy).value.JStr?
      && RequirementOf(vacancy).value.s != ""
      && WholeWordMatch(RequirementOf(vacancy).value.s, keywords)
  {
    match RequirementOf(vacancy)
    case Some(JStr(s)) => s != "" && Search(s, keywords)
    case _ => false
  }

  /** The list the loop builds from `items`. */
  function Filtered(items: seq<Json>, keywords: seq<string>): (r: seq<Json>)
    ensures |r| <= |items|
    ensures forall j :: 0 <= j < |r| ==> Kept(r[j], keywords)
  {
    if items == [] then []
    else
      var last := items[|items| - 1];
      Filtered(items[..|items| - 1], keywords) + (if Kept(last, keywords) then [last] else [])
  }

  /** The whole of `filter_vacancies(vacancies_data, filter_words)`. */
  function FilterResponse(vacanciesData: Json, filterWords: seq<string>): (r: Result<Json>)
    ensures r.Ok? <==>
      && vacanciesData.JObj? && "items" in vacanciesData.fields
      && (|| filterWords == []
          || vacanciesData.fields["items"].JArr?
          || vacanciesData.fields["items"].JObj?
          || vacanciesData.fields["items"].JStr?)
    ensures r.Ok? && filterWords != [] ==>
      r.value.JArr? && forall j :: 0 <= j < |r.value.elems| ==> Kept(r.value.elems[j], filterWords)
  {
    if !vacanciesData.JObj? then Raised(TypeError)
    else if "items" !in vacanciesData.fields then Raised(KeyError)
    else
      var items := vacanciesData.fields["items"];
      if filterWords == [] then Ok(items)
      else
        match items
        case JArr(a) => Ok(JArr(Filtered(a, filterWords)))
        // a dict is iterated by its string keys, a string by its characters:
        // subscripting either with "snippet" raises TypeError, caught per item
        case JObj(_) => Ok(JArr([]))
        case JStr(_) => Ok(JArr([]))
        // None, a number or a bool is not iterable: the TypeError escapes
        case _ => Raised(TypeError)
  }

  method FilterVacancies(vacanciesData: Json, filterWords: seq<string>) returns (result: Result<Json>)
    ensures result == FilterResponse(vacanciesData, filterWords)
  {
    if !vacanciesData.JObj? {
      return Raised(TypeError);
    }
    if "items" !in vacanciesData.fields {
      return Raised(KeyError);
    }
    var items := vacanciesData.fields["items"];
    if filterWords == [] {
      return Ok(items);
    }
    if items.JObj? || items.JStr? {
      return Ok(JArr([]));
    }
    if !items.JArr? {
      return Raised(TypeError);
    }
    var filteredVacancies: seq<Json> := [];
    for i := 0 to |items.elems|
      invariant filteredVacancies == Filtered(items.elems[..i], filterWords)
    {
      var vacancy := items.elems[i];
      assert items.elems[..i + 1][..i] == items.elems[..i];
      var requirements := RequirementOf(vacancy);
      if requirements.None? || !Truthy(requirements.value) {
        continue;
      }
      if !requirements.value.JStr? {
        continue;
      }
      if Search(requirements.value.s, filterWords) {
        filteredVacancies := filteredVacancies + [vacancy];
      }
    }
    assert items.elems[..|items.elems|] == items.elems;
    return Ok(JArr(filteredVacancies));
  }

  /** `idx` lists, in increasing order, the positions of `b` that `a` is made of. */
  ghost predicate Embeds(idx: seq<int>, a: seq<Json>, b: seq<Json>)
  {
    && |idx| == |a|
    && (forall j :: 0 <= j < |idx| ==> 0 <= idx[j] < |b| && a[j] == b[idx[j]])
    && (forall j, l :: 0 <= j < l < |idx| ==> idx[j] < idx[l])
  }

  /** `idx` holds exactly the positions of `items` whose posting is kept. */
  ghost predicate SelectsKept(idx: seq<int>, items: seq<Json>, keywords: seq<string>)
  {
    forall p :: 0 <= p < |items| ==> (p in idx <==> Kept(items[p], keywords))
  }

  /** An embedding into a prefix is one into the whole list, and the next
      position may be appended to it. */
  lemma EmbedsSnoc(idx: seq<int>, a: seq<Json>, items: seq<Json>)
    requires |items| > 0 && Embeds(idx, a, items[..|items| - 1])
    ensures Embeds(idx, a, items)
    ensures Embeds(idx + [|items| - 1], a + [items[|items| - 1]], items)
    ensures |items| - 1 !in idx
  {
  }

  /** The kept positions of a prefix, with the last position added when its
      posting is kept, are the kept positions of the whole list. */
  lemma SelectsKeptSnoc(idx: seq<int>, items: seq<Json>, keywords: seq<string>)
    requires |items| > 0 && SelectsKept(idx, items[..|items| - 1], keywords)
    requires |items| - 1 !in idx
    ensures var n := |items| - 1;
      SelectsKept(if Kept(items[n], keywords) then idx + [n] else idx, items, keywords)
  {
    var n := |items| - 1;
    var idx' := if Kept(items[n], keywords) then idx + [n] else idx;
    forall p | 0 <= p < |items|
      ensures p in idx' <==> Kept(items[p], keywords)
    {
      if p < n {
        assert items[p] == items[..n][p];
      }
    }
  }

  /** The output is the subsequence of the input made of every kept position,
      in order: repeated postings are kept as often as they occur. */
  lemma {:induction false} FilteredIsSubsequence(items: seq<Json>, keywords: seq<string>)
    ensures exists idx :: Embeds(idx, Filtered(items, keywords), items) && SelectsKept(idx, items, keywords)
  {
    if items == [] {
      assert Embeds([], Filtered(items, keywords), items) && SelectsKept([], items, keywords);
    } else {
      var n := |items| - 1;
      var init := items[..n];
      FilteredIsSubsequence(init, keywords);
      var idx :| Embeds(idx, Filtered(init, keywords), init) && SelectsKept(idx, init, keywords);
      EmbedsSnoc(idx, Filtered(init, keywords), items);
      SelectsKeptSnoc(idx, items, keywords);
      if Kept(items[n], keywords) {
        assert Embeds(idx + [n], Filtered(items, keywords), items);
      } else {
        assert Embeds(idx, Filtered(items, keywords), items);
      }
    }
  }

  /** A posting is in the output exactly when it is in the input and kept. */
  lemma {:induction false} FilteredMembership(items: seq<Json>, keywords: seq<string>, x: Json)
    ensures x in Filtered(items, keywords) <==> x in items && Kept(x, keywords)
  {
    if items != [] {
      var init := items[..|items| - 1];
      FilteredMembership(init, keywords, x);
      assert items == init + [items[|items| - 1]];
    }
  }

  /** Filtering what was kept keeps all of it. */
  lemma {:induction false} FilterIdempotent(items: seq<Json>, keywords: seq<string>)
    ensures Filtered(Filtered(items, keywords), keywords) == Filtered(items, keywords)
  {
    if items != [] {
      var init := items[..|items| - 1];
      var last := items[|items| - 1];
      FilterIdempotent(init, keywords);
      var f := Filtered(init, keywords);
      if Kept(last, keywords) {
        var g := f + [last];
        assert g[..|g| - 1] == f && g[|g| - 1] == last;
        assert Filtered(g, keywords) == Filtered(f, keywords) + [last];
      } else {
        assert Filtered(items, keywords) == f;
      }
    }
  }

  /** With keywords, a posting survives exactly when its requirement is a
      non-empty string in which some keyword occurs as a whole word. */
  lemma FilterKeepsWholeWordMatches(vacanciesData: Json, filterWords: seq<string>, x: Json)
    requires vacanciesData.JObj? && "items" in vacanciesData.fields
    requires vacanciesData.fields["items"].JArr? && filterWords != []
    ensures FilterResponse(vacanciesData, filterWords).Ok?
    ensures var out := FilterResponse(vacanciesData, filterWords).value;
      out.JArr? &&
      (x in out.elems <==>
         x in vacanciesData.fields["items"].elems
         && RequirementOf(x).Some? && RequirementOf(x).value.JStr?
         && RequirementOf(x).value.s != ""
         && WholeWordMatch(RequirementOf(x).value.s, filterWords))
  {
    FilteredMembership(vacanciesData.fields["items"].elems, filterWords, x);
  }

  /** With no keywords the items come back unchanged, whatever they hold. */
  lemma EmptyKeywordsReturnItems(vacanciesData: Json)
    requires vacanciesData.JObj? && "items" in vacanciesData.fields
    ensures FilterResponse(vacanciesData, []) == Ok(vacanciesData.fields["items"])
  {
  }

  /** A posting without a requirement, or with `None` or `""` there, is never
      kept, whatever the keywords. */
  lemma MissingRequirementNeverKept(items: seq<Json>, keywords: seq<string>, x: Json)
    requires RequirementOf(x) == None || RequirementOf(x) == Some(JNull) || RequirementOf(x) == Some(JStr(""))
    ensures x !in Filtered(items, keywords)
  {
    FilteredMembership(items, keywords, x);
  }

  /** Filtering the result again with the same keywords returns it unchanged. */
  lemma FilterResponseIdempotent(vacanciesData: Json, filterWords: seq<string>)
    requires FilterResponse(vacanciesData, filterWords).Ok?
    ensures var out := FilterResponse(vacanciesData, filterWords).value;
      FilterResponse(JObj(map["items" := out]), filterWords) == Ok(out)
  {
    if filterWords != [] && vacanciesData.fields["items"].JArr? {
      FilterIdempotent(vacanciesData.fields["items"].elems, filterWords);
    }
  }

  /** A whole-word occurrence starts with the keyword's first letter, up to case. */
  lemma OccurrenceStartsWithKeyword(s: string, k: string, i: int)
    requires OccursAt(s, k, i) && |k| > 0
    ensures Lower(s[i]) == Lower(k[0])
  {
    assert LowerStr(s[i..i + |k|])[0] == LowerStr(k)[0];
  }

  lemma OnlyFirstLetterIsJ(s: string, i: int)
    requires s == "JavaScript, React" && 0 <= i < |s| && Lower(s[i]) == 'j'
    ensures i == 0
  {
  }

  /** "java" is not a whole word of "JavaScript, React": its one occurrence is
      followed by the word character 'S'. */
  lemma JavaIsNotWordOfJavaScript(s: string)
    requires s == "JavaScript, React"
    ensures !Search(s, ["java"])
  {
    assert !BoundaryAt(s, 4) by {
      assert IsWordChar(s[3]) && IsWordChar(s[4]);
    }
    forall i, k | k in ["java"] && OccursAt(s, k, i)
      ensures false
    {
      assert k == "java";
      OccurrenceStartsWithKeyword(s, k, i);
      OnlyFirstLetterIsJ(s, i);
    }
  }

  /** "java" is a whole word of "Java and Spring experience". */
  lemma JavaIsWordOfJavaAndSpring()
    ensures Search("Java and Spring experience", ["java"])
  {
    var s := "Java and Spring experience";
    assert s[0..4] == "Java";
    assert LowerStr("Java") == LowerStr("java");
    assert OccursAt(s, "java", 0);
  }

  /** "PYTHON" is a whole word of "Experience with Python and Django": matching
      ignores case. */
  lemma UpperCaseKeywordMatches()
    ensures Search("Experience with Python and Django", ["PYTHON"])
  {
    var t := "Experience with Python and Django";
    assert t[16..22] == "Python";
    assert LowerStr("Python") == LowerStr("PYTHON");
    assert OccursAt(t, "PYTHON", 16);
  }

  /** "react" is a whole word of "JavaScript, React". */
  lemma LowerCaseKeywordMatches()
    ensures Search("JavaScript, React", ["react"])
  {
    var r := "JavaScript, React";
    assert r[12..17] == "React";
    assert LowerStr("React") == LowerStr("react");
    assert OccursAt(r, "react", 12);
  }

  /** The keyword "." is matched literally: "a b" has no dot, although the
      pattern `\b.\b` would match its blank. */
  lemma KeywordsAreLiteral()
    ensures !Search("a b", ["."])
  {
    var s := "a b";
    forall i, k | k in ["."] && OccursAt(s, k, i)
      ensures false
    {
      assert k == ".";
      KeywordCharsAreLiteral(s, k, i, 0);
    }
  }

  /** A keyword character that is not a letter (`.`, `*`, `+`, a digit, ...)
      matches only itself: keywords are escaped, never read as pattern syntax. */
  lemma KeywordCharsAreLiteral(s: string, k: string, i: int, j: int)
    requires OccursAt(s, k, i) && 0 <= j < |k| && !('A' <= k[j] <= 'Z' || 'a' <= k[j] <= 'z')
    ensures s[i + j] == k[j]
  {
    assert s[i..i + |k|][j] == s[i + j];
    assert LowerStr(s[i..i + |k|])[j] == LowerStr(k)[j];
  }
}

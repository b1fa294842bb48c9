/** The `Vacancy` value class of src/hh_class.py, the one the JSON store builds
    from each raw posting. Its title, URL and description are stored as given:
    the store passes the raw JSON values of a posting straight in, so they are
    kept here as JSON values rather than strings. */
module HhClass {
  import opened JsonValues
  import opened SalaryInputs

  datatype Vacancy = Vacancy(
    title: Json,
    vacancyUrl: Json,
    minSalary: nat,
    maxSalary: nat,
    description: Json)

  /** `_validate_salary`: a positive number is returned as it is, anything else
      becomes 0. (`True` is a positive int to Python; it is kept as the number 1.) */
  function ValidateSalary(value: SalaryInput): (r: nat)
    ensures r > 0 <==> (value.Int? && value.i > 0) || value == Bool(true)
    ensures value.Int? && value.i > 0 ==> r == value.i
    ensures value.Str? || value.Null? || value.Other? ==> r == 0
  {
    match value
    case Int(i) => if i > 0 then i else 0
    case Bool(b) => if b then 1 else 0
    case _ => 0
  }

  /** `Vacancy(title, vacancy_url, min_salary, max_salary, description)`. */
  function New(title: Json, vacancyUrl: Json, minSalary: SalaryInput, maxSalary: SalaryInput,
               description: Json): (v: Vacancy)
    ensures v.title == title && v.vacancyUrl == vacancyUrl && v.description == description
    ensures v.minSalary == ValidateSalary(minSalary) && v.maxSalary == ValidateSalary(maxSalary)
  {
    Vacancy(title, vacancyUrl, ValidateSalary(minSalary), ValidateSalary(maxSalary), description)
  }

  /** The read-only `title` property: the title the detail view carries. */
  function Title(v: Vacancy): (r: Json)
    ensures GetVacancyData(v).fields["title"] == r
  {
    v.title
  }

  const DetailKeys: set<string> := {"title", "url", "min_salary", "max_salary", "requirements"}

  /** `get_vacancy_data`: the flat detail view, the shape the store appends. */
  function GetVacancyData(v: Vacancy): (j: Json)
    ensures j.JObj? && j.fields.Keys == DetailKeys
    ensures j.fields["min_salary"].JInt? && j.fields["min_salary"].i >= 0
    ensures j.fields["max_salary"].JInt? && j.fields["max_salary"].i >= 0
  {
    JObj(map[
      "title" := v.title,
      "url" := v.vacancyUrl,
      "min_salary" := JInt(v.minSalary),
      "max_salary" := JInt(v.maxSalary),
      "requirements" := v.description])
  }

  /** Reads a detail view back; `None` for a dict that is not one. */
  function FromDetail(j: Json): Option<Vacancy>
  {
    if j.JObj? && j.fields.Keys == DetailKeys
       && j.fields["min_salary"].JInt? && j.fields["min_salary"].i >= 0
       && j.fields["max_salary"].JInt? && j.fields["max_salary"].i >= 0
    then Some(Vacancy(j.fields["title"], j.fields["url"], j.fields["min_salary"].i,
                      j.fields["max_salary"].i, j.fields["requirements"]))
    else None
  }

  // The six operators of the class; each compares `min_salary` only.
  /** Equal exactly when the `min_salary` shown in the detail view is equal. */
  predicate Eq(a: Vacancy, b: Vacancy)
    ensures Eq(a, b) <==> GetVacancyData(a).fields["min_salary"] == GetVacancyData(b).fields["min_salary"]
  {
    a.minSalary == b.minSalary
  }

  predicate Ne(a: Vacancy, b: Vacancy)
    ensures Ne(a, b) <==> !Eq(a, b)
  {
    a.minSalary != b.minSalary
  }

  /** Ordered by the `min_salary` shown in the detail view. */
  predicate Lt(a: Vacancy, b: Vacancy)
    ensures Lt(a, b) <==>
      GetVacancyData(a).fields["min_salary"].JInt? && GetVacancyData(b).fields["min_salary"].JInt?
      && GetVacancyData(a).fields["min_salary"].i < GetVacancyData(b).fields["min_salary"].i
    ensures Lt(a, b) ==> !Eq(a, b)
  {
    a.minSalary < b.minSalary
  }

  predicate Gt(a: Vacancy, b: Vacancy)
    ensures Gt(a, b) <==> Lt(b, a)
  {
    a.minSalary > b.minSalary
  }

  predicate Le(a: Vacancy, b: Vacancy)
    ensures Le(a, b) <==> Lt(a, b) || Eq(a, b)
  {
    a.minSalary <= b.minSalary
  }

  predicate Ge(a: Vacancy, b: Vacancy)
    ensures Ge(a, b) <==> Le(b, a)
  {
    a.minSalary >= b.minSalary
  }

  /** The title is the one given to the constructor, whatever else is passed. */
  lemma TitleFixedAtConstruction(title: Json, vacancyUrl: Json, minSalary: SalaryInput,
                                 maxSalary: SalaryInput, description: Json)
    ensures Title(New(title, vacancyUrl, minSalary, maxSalary, description)) == title
  {
  }

  /** The detail view carries title, URL, both validated salaries and the
      description exactly as constructed. */
  lemma DetailViewRoundTrip(title: Json, vacancyUrl: Json, minSalary: SalaryInput,
                            maxSalary: SalaryInput, description: Json)
    ensures var d := GetVacancyData(New(title, vacancyUrl, minSalary, maxSalary, description));
      && d.fields["title"] == title && d.fields["url"] == vacancyUrl
      && d.fields["min_salary"] == JInt(ValidateSalary(minSalary))
      && d.fields["max_salary"] == JInt(ValidateSalary(maxSalary))
      && d.fields["requirements"] == description
  {
  }

  /** The detail view reads back as the vacancy it came from. */
  lemma DetailViewReadsBack(v: Vacancy)
    ensures FromDetail(GetVacancyData(v)) == Some(v)
  {
  }

  /** The operators see nothing but `min_salary`. */
  lemma ComparisonsSeeOnlyMinSalary(a: Vacancy, a': Vacancy, b: Vacancy, b': Vacancy)
    requires a.minSalary == a'.minSalary && b.minSalary == b'.minSalary
    ensures Eq(a, b) == Eq(a', b') && Ne(a, b) == Ne(a', b')
    ensures Lt(a, b) == Lt(a', b') && Gt(a, b) == Gt(a', b')
    ensures Le(a, b) == Le(a', b') && Ge(a, b) == Ge(a', b')
  {
  }

  /** The six operators agree with one another, and `<=` is a total preorder. */
  lemma ComparisonsConsistent(a: Vacancy, b: Vacancy, c: Vacancy)
    ensures Ne(a, b) == !Eq(a, b)
    ensures Le(a, b) == (Lt(a, b) || Eq(a, b))
    ensures Gt(a, b) == Lt(b, a) && Ge(a, b) == Le(b, a)
    ensures Le(a, b) || Le(b, a)
    ensures Le(a, b) && Le(b, c) ==> Le(a, c)
    ensures Lt(a, b) && Lt(b, c) ==> Lt(a, c)
  {
  }

  /** The comparison chain of the class's tests: 80000 < 100000 < 120000, and a
      vacancy with another title but the same minimum salary compares equal. */
  lemma SalaryChain()
    ensures var python := New(JStr("Python Developer"), JStr("https://hh.ru/vacancy/1"),
                              Int(100000), Int(150000), JStr("Python experience"));
            var java := New(JStr("Java Developer"), JStr("https://hh.ru/vacancy/2"),
                            Int(120000), Int(180000), JStr("Java experience"));
            var junior := New(JStr("Junior Python"), JStr("https://hh.ru/vacancy/3"),
                              Int(80000), Int(120000), JStr("Basic Python"));
            var copy := New(JStr("Python Copy"), JStr("https://hh.ru/vacancy/1c"),
                            Int(100000), Int(155000), JStr("Python"));
            && Lt(junior, python) && Lt(python, java) && Lt(junior, java)
            && Gt(java, python) && Gt(python, junior) && Gt(java, junior)
            && Le(junior, python) && Le(python, java)
            && Ge(java, python) && Ge(python, junior)
            && Eq(python, copy) && Ne(python, java)
  {
  }
}

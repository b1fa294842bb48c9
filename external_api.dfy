/** The `Vacancy` value class of src/external_api.py: a job posting whose two
    salary fields are validated on construction, with a detail view and a wire
    view, and six comparison operators that look at `salary_from` only. */
module ExternalApi {
  import opened JsonValues
  import opened SalaryInputs

  /** The five slots of the class; salaries are never negative once built. */
  datatype Vacancy = Vacancy(
    title: string,
    vacancyUrl: string,
    salaryFrom: nat,
    salaryTo: nat,
    description: string)

  /** `_validate_salary`: a positive number is kept (as an int), anything else
      becomes 0. */
  function ValidateSalary(value: SalaryInput): (r: nat)
    ensures r > 0 <==> (value.Int? && value.i > 0) || value == Bool(true)
    ensures value.Int? && value.i > 0 ==> r == value.i
    ensures value.Str? || value.Null? || value.Other? ==> r == 0
  {
    match value
    case Int(i) => if i > 0 then i else 0
    case Bool(b) => if b then 1 else 0
    case _ => 0
  }

  /** `Vacancy(title, vacancy_url, salary_from, salary_to, description)`. */
  function New(title: string, vacancyUrl: string, salaryFrom: SalaryInput, salaryTo: SalaryInput,
               description: string): (v: Vacancy)
    ensures v.title == title && v.vacancyUrl == vacancyUrl && v.description == description
    ensures v.salaryFrom == ValidateSalary(salaryFrom) && v.salaryTo == ValidateSalary(salaryTo)
  {
    Vacancy(title, vacancyUrl, ValidateSalary(salaryFrom), ValidateSalary(salaryTo), description)
  }

  /** The `name` property, kept as an alias of `title`. */
  function Name(v: Vacancy): (r: string)
    ensures r == Title(v)
  {
    v.title
  }

  /** The `title` property: the title both views carry. */
  function Title(v: Vacancy): (r: string)
    ensures GetVacancyData(v).fields["title"] == JStr(r) && MainData(v).fields["name"] == JStr(r)
  {
    v.title
  }

  const DetailKeys: set<string> := {"title", "url", "min_salary", "max_salary", "requirements"}
  const WireKeys: set<string> := {"name", "alternate_url", "salary_from", "salary_to", "snippet"}

  /** `get_vacancy_data`: the flat detail view. */
  function GetVacancyData(v: Vacancy): (j: Json)
    ensures j.JObj? && j.fields.Keys == DetailKeys
  {
    JObj(map[
      "title" := JStr(v.title),
      "url" := JStr(v.vacancyUrl),
      "min_salary" := JInt(v.salaryFrom),
      "max_salary" := JInt(v.salaryTo),
      "requirements" := JStr(v.description)])
  }

  /** `main_data`: the wire view, with the requirement nested under `snippet`. */
  function MainData(v: Vacancy): (j: Json)
    ensures j.JObj? && j.fields.Keys == WireKeys
    ensures j.fields["snippet"] == JObj(map["requirement" := JStr(v.description)])
  {
    JObj(map[
      "name" := JStr(v.title),
      "alternate_url" := JStr(v.vacancyUrl),
      "salary_from" := JInt(v.salaryFrom),
      "salary_to" := JInt(v.salaryTo),
      "snippet" := JObj(map["requirement" := JStr(v.description)])])
  }

  /** Reads a detail view back; `None` for a dict that is not one. */
  function FromDetail(j: Json): Option<Vacancy>
  {
    if j.JObj? && j.fields.Keys == DetailKeys
       && j.fields["title"].JStr? && j.fields["url"].JStr?
       && j.fields["min_salary"].JInt? && j.fields["min_salary"].i >= 0
       && j.fields["max_salary"].JInt? && j.fields["max_salary"].i >= 0
       && j.fields["requirements"].JStr?
    then Some(Vacancy(j.fields["title"].s, j.fields["url"].s, j.fields["min_salary"].i,
                      j.fields["max_salary"].i, j.fields["requirements"].s))
    else None
  }

  /** Reads a wire view back; `None` for a dict that is not one. */
  function FromWire(j: Json): Option<Vacancy>
  {
    if j.JObj? && j.fields.Keys == WireKeys
       && j.fields["name"].JStr? && j.fields["alternate_url"].JStr?
       && j.fields["salary_from"].JInt? && j.fields["salary_from"].i >= 0
       && j.fields["salary_to"].JInt? && j.fields["salary_to"].i >= 0
       && j.fields["snippet"].JObj? && j.fields["snippet"].fields.Keys == {"requirement"}
       && j.fields["snippet"].fields["requirement"].JStr?
    then Some(Vacancy(j.fields["name"].s, j.fields["alternate_url"].s, j.fields["salary_from"].i,
                      j.fields["salary_to"].i, j.fields["snippet"].fields["requirement"].s))
    else None
  }

  // The six operators of the class; each compares `salary_from` only.
  /** Equal exactly when the `salary_from` shown in the wire view is equal. */
  predicate Eq(a: Vacancy, b: Vacancy)
    ensures Eq(a, b) <==> MainData(a).fields["salary_from"] == MainData(b).fields["salary_from"]
  {
    a.salaryFrom == b.salaryFrom
  }

  predicate Ne(a: Vacancy, b: Vacancy)
    ensures Ne(a, b) <==> !Eq(a, b)
  {
    a.salaryFrom != b.salaryFrom
  }

  /** Ordered by the `salary_from` shown in the wire view. */
  predicate Lt(a: Vacancy, b: Vacancy)
    ensures Lt(a, b) <==>
      MainData(a).fields["salary_from"].JInt? && MainData(b).fields["salary_from"].JInt?
      && MainData(a).fields["salary_from"].i < MainData(b).fields["salary_from"].i
    ensures Lt(a, b) ==> !Eq(a, b)
  {
    a.salaryFrom < b.salaryFrom
  }

  predicate Gt(a: Vacancy, b: Vacancy)
    ensures Gt(a, b) <==> Lt(b, a)
  {
    a.salaryFrom > b.salaryFrom
  }

  predicate Le(a: Vacancy, b: Vacancy)
    ensures Le(a, b) <==> Lt(a, b) || Eq(a, b)
  {
    a.salaryFrom <= b.salaryFrom
  }

  predicate Ge(a: Vacancy, b: Vacancy)
    ensures Ge(a, b) <==> Le(b, a)
  {
    a.salaryFrom >= b.salaryFrom
  }

  /** `name` and `title` both give the title passed to the constructor. */
  lemma NameIsTitle(title: string, vacancyUrl: string, salaryFrom: SalaryInput, salaryTo: SalaryInput,
                    description: string)
    ensures Name(New(title, vacancyUrl, salaryFrom, salaryTo, description)) == title
    ensures Title(New(title, vacancyUrl, salaryFrom, salaryTo, description)) == title
  {
  }

  /** Both views are lossless: each reads back as the vacancy it came from. */
  lemma ViewsRoundTrip(v: Vacancy)
    ensures FromDetail(GetVacancyData(v)) == Some(v)
    ensures FromWire(MainData(v)) == Some(v)
  {
  }

  /** The two views carry the same five values under different key names. */
  lemma ViewsCarrySameValues(v: Vacancy)
    ensures GetVacancyData(v).fields["title"] == MainData(v).fields["name"]
    ensures GetVacancyData(v).fields["url"] == MainData(v).fields["alternate_url"]
    ensures GetVacancyData(v).fields["min_salary"] == MainData(v).fields["salary_from"]
    ensures GetVacancyData(v).fields["max_salary"] == MainData(v).fields["salary_to"]
    ensures MainData(v).fields["snippet"] == JObj(map["requirement" := GetVacancyData(v).fields["requirements"]])
    ensures FromDetail(GetVacancyData(v)) == FromWire(MainData(v))
  {
    ViewsRoundTrip(v);
  }

  /** The operators see nothing but `salary_from`: replacing either operand by one
      with the same `salary_from` changes no answer. */
  lemma ComparisonsSeeOnlySalaryFrom(a: Vacancy, a': Vacancy, b: Vacancy, b': Vacancy)
    requires a.salaryFrom == a'.salaryFrom && b.salaryFrom == b'.salaryFrom
    ensures Eq(a, b) == Eq(a', b') && Ne(a, b) == Ne(a', b')
    ensures Lt(a, b) == Lt(a', b') && Gt(a, b) == Gt(a', b')
    ensures Le(a, b) == Le(a', b') && Ge(a, b) == Ge(a', b')
  {
  }

  /** The six operators agree with one another. */
  lemma ComparisonsConsistent(a: Vacancy, b: Vacancy)
    ensures Ne(a, b) == !Eq(a, b)
    ensures Le(a, b) == (Lt(a, b) || Eq(a, b))
    ensures Gt(a, b) == Lt(b, a)
    ensures Ge(a, b) == Le(b, a)
    ensures Lt(a, b) || Eq(a, b) || Gt(a, b)
  {
  }
}

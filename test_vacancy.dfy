/** The `Vacancy` class defined in test/test_saver_class.py: fields named as in
    the wire format, salaries validated through Python's `int()`, a wire view,
    and six operators on `salary_from` that refuse non-vacancy operands
    (here ruled out by the types). */
module TestVacancy {
  import opened JsonValues
  import opened SalaryInputs

  datatype Vacancy = Vacancy(
    name: string,
    alternateUrl: string,
    salaryFrom: nat,
    salaryTo: nat,
    requirement: string)

  predicate IsDigit(c: char)
  {
    '0' <= c <= '9'
  }

  predicate AllDigits(s: string)
  {
    forall j :: 0 <= j < |s| ==> IsDigit(s[j])
  }

  /** The number a string of decimal digits denotes. */
  function DigitsValue(s: string): nat
    requires AllDigits(s)
  {
    if s == [] then 0 else DigitsValue(s[..|s| - 1]) * 10 + (s[|s| - 1] as int - '0' as int)
  }

  /** CPython's default limit on the number of digits `int()` reads from, and
      `str()` writes to, a decimal string; beyond it both raise `ValueError`. */
  const MaxStrDigits := 4300

  /** `int(s)` on a string: an optional sign followed by one to `MaxStrDigits`
      decimal digits; `None` where Python raises `ValueError`. */
  function ParseInt(s: string): (r: Option<int>)
    ensures 0 < |s| <= MaxStrDigits && AllDigits(s) ==> r == Some(DigitsValue(s))
    ensures r.Some? ==> |s| > 0 && (IsDigit(s[0]) || s[0] == '-' || s[0] == '+')
    ensures r.Some? && r.value < 0 ==> s[0] == '-'
    ensures s == [] || s == "-" || s == "+" ==> r.None?
    ensures var d := if |s| > 0 && (s[0] == '-' || s[0] == '+') then s[1..] else s;
      && (r.Some? <==> d != [] && |d| <= MaxStrDigits && AllDigits(d))
      && (r.Some? ==> r.value == if s[0] == '-' then -(DigitsValue(d) as int) else DigitsValue(d) as int)
  {
    var signed := |s| > 0 && (s[0] == '-' || s[0] == '+');
    var digits := if signed then s[1..] else s;
    if digits != [] && |digits| <= MaxStrDigits && AllDigits(digits) then
      var n: int := DigitsValue(digits);
      Some(if signed && s[0] == '-' then -n else n)
    else
      None
  }

  /** `str(n)` for a natural number: its decimal digits, most significant first. */
  function DecimalString(n: nat): (s: string)
    ensures |s| > 0 && AllDigits(s)
  {
    if n < 10 then [('0' as int + n) as char]
    else DecimalString(n / 10) + [('0' as int + n % 10) as char]
  }

  /** `str(i)` for any integer. */
  function IntString(i: int): string
  {
    if i < 0 then "-" + DecimalString(-i) else DecimalString(i)
  }

  lemma {:induction false} DigitsOfDecimalString(n: nat)
    ensures DigitsValue(DecimalString(n)) == n
  {
    if n >= 10 {
      var s := DecimalString(n);
      assert s[..|s| - 1] == DecimalString(n / 10);
      DigitsOfDecimalString(n / 10);
    }
  }

  /** `int(str(i)) == i`: the parser reads back the decimal form of every
      integer that `str()` can write. */
  lemma ParseIntString(i: int)
    requires |DecimalString(if i < 0 then -i else i)| <= MaxStrDigits
    ensures ParseInt(IntString(i)) == Some(i)
  {
    var n := if i < 0 then -i else i;
    DigitsOfDecimalString(n);
    var d := DecimalString(n);
    var s := IntString(i);
    assert IsDigit(d[0]) && d != [] && |d| <= MaxStrDigits && AllDigits(d);
    if i < 0 {
      assert s == "-" + d && s[0] == '-' && s[1..] == d;
    } else {
      assert s == d && s[0] != '-' && s[0] != '+';
    }
  }

  /** `_validate_salary`: `int(x)` when the conversion succeeds and is positive,
      0 when it is not positive or when `int()` raises. */
  function ValidateSalary(value: SalaryInput): (r: nat)
    ensures value.Int? && value.i > 0 ==> r == value.i
    ensures value.Int? && value.i <= 0 ==> r == 0
    ensures value.Str? && ParseInt(value.s).None? ==> r == 0
    ensures value.Str? && ParseInt(value.s).Some? ==>
      r == (if ParseInt(value.s).value > 0 then ParseInt(value.s).value else 0)
    ensures value.Bool? ==> r == (if value.b then 1 else 0)
    ensures value.Null? || value.Other? ==> r == 0
  {
    match value
    case Int(i) => if i > 0 then i else 0
    case Bool(b) => if b then 1 else 0
    case Str(s) =>
      (match ParseInt(s)
       case Some(i) => if i > 0 then i else 0
       case None => 0)
    case Null => 0
    case Other => 0
  }

  /** A salary written as the decimal string of a number validates exactly as
      the number itself. */
  lemma ValidateSalaryOfString(i: int)
    requires |DecimalString(if i < 0 then -i else i)| <= MaxStrDigits
    ensures ValidateSalary(Str(IntString(i))) == ValidateSalary(Int(i))
  {
    ParseIntString(i);
  }

  /** `int()` also accepts a plus sign, leading zeros and a negative zero. */
  lemma NonCanonicalStrings(plus: string, padded: string, negZero: string)
    requires plus == "+5" && padded == "007" && negZero == "-0"
    ensures ParseInt(plus) == Some(5) && ValidateSalary(Str(plus)) == 5
    ensures ParseInt(padded) == Some(7) && ValidateSalary(Str(padded)) == 7
    ensures ParseInt(negZero) == Some(0) && ValidateSalary(Str(negZero)) == 0
  {
    assert plus[1..] == "5" && negZero[1..] == "0";
    assert "5"[..0] == [] && "0"[..0] == [];
    assert DigitsValue("5") == 5 && DigitsValue("0") == 0;
    assert padded[..2] == "00" && "00"[..1] == "0";
    assert DigitsValue("00") == 0;
    assert DigitsValue(padded) == 7;
  }

  /** A string of more than `MaxStrDigits` digits makes `int()` raise, so the
      salary is 0 however large the number it spells. */
  lemma TooManyDigitsIsZero(s: string)
    requires AllDigits(s) && |s| > MaxStrDigits
    ensures ParseInt(s).None? && ValidateSalary(Str(s)) == 0
    ensures ParseInt("-" + s).None? && ParseInt("+" + s).None?
  {
    assert ("-" + s)[1..] == s && ("+" + s)[1..] == s;
  }

  /** The invalid salaries of the tests: `"abc"` and `None` both give 0. */
  lemma InvalidSalariesAreZero()
    ensures ValidateSalary(Str("abc")) == 0
    ensures ValidateSalary(Null) == 0
  {
    assert !IsDigit("abc"[0]);
  }

  /** `Vacancy(name, alternate_url, salary_from, salary_to, requirement)`. */
  function New(name: string, alternateUrl: string, salaryFrom: SalaryInput, salaryTo: SalaryInput,
               requirement: string): (v: Vacancy)
    ensures v.name == name && v.alternateUrl == alternateUrl && v.requirement == requirement
    ensures v.salaryFrom == ValidateSalary(salaryFrom) && v.salaryTo == ValidateSalary(salaryTo)
  {
    Vacancy(name, alternateUrl, ValidateSalary(salaryFrom), ValidateSalary(salaryTo), requirement)
  }

  const WireKeys: set<string> := {"name", "alternate_url", "salary_from", "salary_to", "snippet"}

  /** `main_data`: the wire view, requirement nested under `snippet`. */
  function MainData(v: Vacancy): (j: Json)
    ensures j.JObj? && j.fields.Keys == WireKeys
    ensures j.fields["snippet"] == JObj(map["requirement" := JStr(v.requirement)])
  {
    JObj(map[
      "name" := JStr(v.name),
      "alternate_url" := JStr(v.alternateUrl),
      "salary_from" := JInt(v.salaryFrom),
      "salary_to" := JInt(v.salaryTo),
      "snippet" := JObj(map["requirement" := JStr(v.requirement)])])
  }

  /** Reads a wire view back; `None` for a dict that is not one. */
  function FromWire(j: Json): Option<Vacancy>
  {
    if j.JObj? && j.fields.Keys == WireKeys
       && j.fields["name"].JStr? && j.fields["alternate_url"].JStr?
       && j.fields["salary_from"].JInt? && j.fields["salary_from"].i >= 0
       && j.fields["salary_to"].JInt? && j.fields["salary_to"].i >= 0
       && j.fields["snippet"].JObj? && j.fields["snippet"].fields.Keys == {"requirement"}
       && j.fields["snippet"].fields["requirement"].JStr?
    then Some(Vacancy(j.fields["name"].s, j.fields["alternate_url"].s, j.fields["salary_from"].i,
                      j.fields["salary_to"].i, j.fields["snippet"].fields["requirement"].s))
    else None
  }

  /** The wire view loses nothing. */
  lemma MainDataRoundTrip(v: Vacancy)
    ensures FromWire(MainData(v)) == Some(v)
  {
  }

  /** The wire view of the tests' first vacancy, key by key. */
  lemma MainDataExample()
    ensures MainData(New("Python Developer", "https://hh.ru/vacancy/1", Int(100000), Int(150000),
                         "Python experience"))
         == JObj(map[
              "name" := JStr("Python Developer"),
              "alternate_url" := JStr("https://hh.ru/vacancy/1"),
              "salary_from" := JInt(100000),
              "salary_to" := JInt(150000),
              "snippet" := JObj(map["requirement" := JStr("Python experience")])])
  {
  }

  // The six operators of the class; each compares `salary_from` only.
  /** Equal exactly when the `salary_from` shown in the wire view is equal. */
  predicate Eq(a: Vacancy, b: Vacancy)
    ensures Eq(a, b) <==> MainData(a).fields["salary_from"] == MainData(b).fields["salary_from"]
  {
    a.salaryFrom == b.salaryFrom
  }

  predicate Ne(a: Vacancy, b: Vacancy)
    ensures Ne(a, b) <==> !Eq(a, b)
  {
    a.salaryFrom != b.salaryFrom
  }

  /** Ordered by the `salary_from` shown in the wire view. */
  predicate Lt(a: Vacancy, b: Vacancy)
    ensures Lt(a, b) <==>
      MainData(a).fields["salary_from"].JInt? && MainData(b).fields["salary_from"].JInt?
      && MainData(a).fields["salary_from"].i < MainData(b).fields["salary_from"].i
    ensures Lt(a, b) ==> !Eq(a, b)
  {
    a.salaryFrom < b.salaryFrom
  }

  predicate Gt(a: Vacancy, b: Vacancy)
    ensures Gt(a, b) <==> Lt(b, a)
  {
    a.salaryFrom > b.salaryFrom
  }

  predicate Le(a: Vacancy, b: Vacancy)
    ensures Le(a, b) <==> Lt(a, b) || Eq(a, b)
  {
    a.salaryFrom <= b.salaryFrom
  }

  predicate Ge(a: Vacancy, b: Vacancy)
    ensures Ge(a, b) <==> Le(b, a)
  {
    a.salaryFrom >= b.salaryFrom
  }

  /** The operators see nothing but `salary_from`. */
  lemma ComparisonsSeeOnlySalaryFrom(a: Vacancy, a': Vacancy, b: Vacancy, b': Vacancy)
    requires a.salaryFrom == a'.salaryFrom && b.salaryFrom == b'.salaryFrom
    ensures Eq(a, b) == Eq(a', b') && Ne(a, b) == Ne(a', b')
    ensures Lt(a, b) == Lt(a', b') && Gt(a, b) == Gt(a', b')
    ensures Le(a, b) == Le(a', b') && Ge(a, b) == Ge(a', b')
  {
  }

  /** The six operators agree with one another. */
  lemma ComparisonsConsistent(a: Vacancy, b: Vacancy)
    ensures Ne(a, b) == !Eq(a, b)
    ensures Le(a, b) == (Lt(a, b) || Eq(a, b))
    ensures Gt(a, b) == Lt(b, a) && Ge(a, b) == Le(b, a)
  {
  }

  /** The constructor keeps the text fields, and equal `salary_from` means `==`
      even when the names differ. */
  lemma ConstructorAndEquality()
    ensures var python := New("Python Developer", "https://hh.ru/vacancy/1", Int(100000), Int(150000),
                              "Python experience");
            var copy := New("Python Copy", "https://hh.ru/vacancy/1c", Int(100000), Int(155000), "Python");
            var invalid := New("Invalid", "url", Str("abc"), Null, "desc");
            && python.name == "Python Developer" && python.alternateUrl == "https://hh.ru/vacancy/1"
            && python.salaryFrom == 100000 && python.salaryTo == 150000
            && python.requirement == "Python experience"
            && Eq(python, copy) && python.name != copy.name
            && invalid.salaryFrom == 0 && invalid.salaryTo == 0
  {
    InvalidSalariesAreZero();
  }
}

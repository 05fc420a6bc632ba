/**
 * The synthetic vacancy generator of scrapy.py (`generate_realistic_vacancies`,
 * scrapy.py:36-92) and the record it produces.
 *
 * Every random draw of the source (`np.random.choice`, `np.random.randint`)
 * is an arbitrary choice (`:|`) within the range the call can return, so the
 * generator's contract holds for every outcome of the random source. The
 * probability weights are not modelled.
 */
module ScrapyGenerator {
  import opened Text
  import opened Wrappers
  import SalaryRegex

  /** One vacancy dictionary; the `description` and `timestamp` entries are
      not modelled. */
  datatype Vacancy = Vacancy(
    id: int,
    title: string,
    company: string,
    salary: string,
    experience: string,
    employment: string,
    skills: seq<string>)

  /** `TECHNOLOGIES` (scrapy.py:16-27): technology name and its keywords. */
  const Technologies: seq<(string, seq<string>)> := [
    ("Python", ["python", "django", "flask"]),
    ("JavaScript", ["javascript", "js", "node.js"]),
    ("TypeScript", ["typescript", "ts"]),
    ("Java", ["java", "spring"]),
    ("C#", [".net", "c#"]),
    ("Go", ["go", "golang"]),
    ("React", ["react", "react.js"]),
    ("Angular", ["angular"]),
    ("Vue", ["vue", "vue.js"]),
    ("Docker", ["docker"])
  ]

  /** `list(TECHNOLOGIES.keys())`. */
  function AllTechs(): (r: seq<string>)
    ensures |r| == |Technologies|
  {
    seq(|Technologies|, i requires 0 <= i < |Technologies| => Technologies[i].0)
  }

  const Positions: seq<string> := [
    "Python разработчик", "Java разработчик", "Frontend разработчик",
    "Backend разработчик", "DevOps инженер", "Data Scientist",
    "QA инженер", "Системный администратор", "Аналитик данных"
  ]

  const Companies: seq<string> := ["Яндекс", "Сбер", "Тинькофф", "ВК", "Озон", "МТС"]

  const EmploymentTypes: seq<string> :=
    ["Полная занятость", "Удаленная работа", "Частичная занятость", "Проектная работа"]

  /** `exp_options`, in increasing order of seniority. */
  const ExperienceOptions: seq<string> := ["Без опыта", "1-3 года", "3-6 лет", "Более 6 лет"]

  /** The bounds of the two `randint` calls of one salary branch:
      lowerMin <= L < lowerMax and upperMin <= U < upperMax. */
  datatype Band = Band(lowerMin: nat, lowerMax: nat, upperMin: nat, upperMax: nat)

  /** The if/elif chain of scrapy.py:62-69; every other label takes the last branch. */
  function SalaryBand(experience: string): (b: Band)
    ensures 0 < b.lowerMin < b.lowerMax <= b.upperMin < b.upperMax
  {
    if experience == "Без опыта" then Band(60000, 90000, 100000, 130000)
    else if experience == "1-3 года" then Band(100000, 150000, 180000, 250000)
    else if experience == "3-6 лет" then Band(180000, 250000, 300000, 400000)
    else Band(300000, 400000, 500000, 700000)
  }

  predicate InBand(b: Band, lower: nat, upper: nat) {
    b.lowerMin <= lower < b.lowerMax && b.upperMin <= upper < b.upperMax
  }

  /** `f"{L}-{U} руб."`. */
  function SalaryText(lower: nat, upper: nat): string {
    NatToString(lower) + "-" + NatToString(upper) + " руб."
  }

  /** The aggregator's regex reads back exactly the two bounds of a generated
      salary text. */
  lemma {:induction false} SalaryTextRoundTrip(lower: nat, upper: nat)
    ensures SalaryRegex.ExtractSalary(SalaryText(lower, upper)) == Some((lower, upper))
  {
    DecimalRoundTrip(lower);
    DecimalRoundTrip(upper);
    var a := NatToString(lower);
    assert [] + a == a;
    SalaryRegex.ExtractTwoRuns([], a, "-", NatToString(upper), " руб.");
  }

  predicate Distinct(s: seq<string>) {
    forall i, j :: 0 <= i < j < |s| ==> s[i] != s[j]
  }

  /** The salary text of v reads back as bounds drawn from its level's band,
      and is exactly the text those bounds render to. */
  predicate SalaryFromBand(v: Vacancy) {
    match SalaryRegex.ExtractSalary(v.salary)
    case None => false
    case Some((lower, upper)) =>
      InBand(SalaryBand(v.experience), lower, upper) && v.salary == SalaryText(lower, upper)
  }

  /** Everything the generator guarantees about one record. */
  predicate WellFormed(v: Vacancy) {
    && v.experience in ExperienceOptions
    && v.employment in EmploymentTypes
    && v.title in Positions
    && v.company in Companies
    && 3 <= |v.skills| <= 6
    && Distinct(v.skills)
    && (forall t :: t in v.skills ==> t in AllTechs())
    && SalaryFromBand(v)
  }

  lemma TechnologyNamesDistinct()
    ensures Distinct(AllTechs())
  {
    var t := AllTechs();
    assert t == ["Python", "JavaScript", "TypeScript", "Java", "C#", "Go", "React", "Angular", "Vue", "Docker"];
  }

  /** `np.random.choice(all_techs, size=n, replace=False)` can return n
      distinct technologies for every n the generator asks for. */
  lemma SelectionPossible(n: nat)
    requires n <= |Technologies|
    ensures Distinct(AllTechs()[..n]) && |AllTechs()[..n]| == n
    ensures forall t :: t in AllTechs()[..n] ==> t in AllTechs()
  {
    TechnologyNamesDistinct();
  }

  /** A record assembled from draws within the generator's ranges is well formed. */
  lemma DrawnRecordWellFormed(v: Vacancy, lower: nat, upper: nat)
    requires v.experience in ExperienceOptions && v.employment in EmploymentTypes
    requires v.title in Positions && v.company in Companies
    requires 3 <= |v.skills| < 7 && Distinct(v.skills) && forall t :: t in v.skills ==> t in AllTechs()
    requires InBand(SalaryBand(v.experience), lower, upper) && v.salary == SalaryText(lower, upper)
    ensures WellFormed(v)
  {
    SalaryTextRoundTrip(lower, upper);
  }

  /** One iteration of the generator's loop: the draws for record `id`. */
  method DrawVacancy(id: nat, allTechs: seq<string>) returns (vacancy: Vacancy)
    requires allTechs == AllTechs()
    ensures vacancy.id == id && WellFormed(vacancy)
  {
    assert ExperienceOptions[1] in ExperienceOptions;
    var experience :| experience in ExperienceOptions;
    var band := SalaryBand(experience);
    var lower :| band.lowerMin <= lower < band.lowerMax;
    var upper :| band.upperMin <= upper < band.upperMax;
    var salary := SalaryText(lower, upper);

    var numTechs :| 3 <= numTechs < 7;
    SelectionPossible(numTechs);
    ghost var prefix := allTechs[..numTechs];
    assert |prefix| == numTechs && Distinct(prefix) && forall t :: t in prefix ==> t in allTechs;
    var selected :| |selected| == numTechs && Distinct(selected)
      && forall t :: t in selected ==> t in allTechs;

    assert Positions[0] in Positions;
    var title :| title in Positions;
    assert Companies[0] in Companies;
    var company :| company in Companies;
    assert EmploymentTypes[0] in EmploymentTypes;
    var employment :| employment in EmploymentTypes;

    vacancy := Vacancy(id, title, company, salary, experience, employment, selected);
    DrawnRecordWellFormed(vacancy, lower, upper);
  }

  /** One more well-formed record with the next id keeps the list numbered
      and well formed. */
  lemma AppendWellFormed(vs: seq<Vacancy>, v: Vacancy)
    requires forall k :: 0 <= k < |vs| ==> vs[k].id == k + 1 && WellFormed(vs[k])
    requires v.id == |vs| + 1 && WellFormed(v)
    ensures forall k :: 0 <= k < |vs + [v]| ==> (vs + [v])[k].id == k + 1 && WellFormed((vs + [v])[k])
  {
    assert forall k :: 0 <= k < |vs| ==> (vs + [v])[k] == vs[k];
  }

  /** `generate_realistic_vacancies(count)`: count records (none when
      count <= 0), ids 1..count in order, each one well formed. */
  method GenerateRealisticVacancies(count: int := 150) returns (vacancies: seq<Vacancy>)
    ensures |vacancies| == if count <= 0 then 0 else count
    ensures forall i :: 0 <= i < |vacancies| ==> vacancies[i].id == i + 1
    ensures forall i :: 0 <= i < |vacancies| ==> WellFormed(vacancies[i])
  {
    vacancies := [];
    var allTechs := AllTechs();
    var i := 0;
    while i < count
      invariant 0 <= i && (count <= 0 ==> i == 0) && (count > 0 ==> i <= count)
      invariant |vacancies| == i
      invariant forall k :: 0 <= k < i ==> vacancies[k].id == k + 1 && WellFormed(vacancies[k])
    {
      var vacancy := DrawVacancy(i + 1, allTechs);
      AppendWellFormed(vacancies, vacancy);
      vacancies := vacancies + [vacancy];
      i := i + 1;
    }
  }

  /** The position of a label in `exp_options`, 0 for the most junior. */
  function LevelRank(experience: string): nat {
    if experience == "Без опыта" then 0
    else if experience == "1-3 года" then 1
    else if experience == "3-6 лет" then 2
    else 3
  }

  /** Each band has L < U for every draw, and both bounds are positive. */
  lemma BandBoundsOrdered(experience: string, lower: nat, upper: nat)
    requires InBand(SalaryBand(experience), lower, upper)
    ensures 0 < lower < upper
  {
  }

  /** A record of a higher level has both a strictly higher lower bound and a
      strictly higher upper bound than any record of a lower level. */
  lemma BandsIncreaseWithLevel(e1: string, l1: nat, u1: nat, e2: string, l2: nat, u2: nat)
    requires InBand(SalaryBand(e1), l1, u1) && InBand(SalaryBand(e2), l2, u2)
    requires LevelRank(e1) < LevelRank(e2)
    ensures l1 < l2 && u1 < u2
  {
  }

}

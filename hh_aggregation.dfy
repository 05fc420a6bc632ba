/**
 * The aggregation side of htmlAgilityPack.cs: the `techKeywords` table
 * (14-43), `AnalyzeTechnologies` (283-302) and the per-vacancy body of
 * `Main` (70-93), which update three dictionaries in place: technology
 * counts, employment-type counts and the lower salary bounds per experience
 * level.
 *
 * The dictionaries are the fields of an `HHTables` object. Each method is
 * proved against specification functions (`CountAll` from `Counters`,
 * `TechHits`, `EmploymentKeys`, `RecordAll`), and the lemmas state what
 * those promise per key.
 */
module HHAggregation {
  import opened Text
  import opened Wrappers
  import opened Counters
  import opened HHParser

  /** The `Vacancy` class as the page parser fills it; a string property that
      was never set is `None` (C#'s null). */
  datatype HHVacancy = HHVacancy(
    title: Option<string>,
    company: Option<string>,
    location: Option<string>,
    salaryFrom: int,
    salaryTo: int,
    experience: Option<string>,
    employmentType: Option<string>,
    description: Option<string>,
    url: Option<string>)

  /** `!string.IsNullOrEmpty(s)`. */
  predicate HasText(s: Option<string>) {
    s.Some? && s.value != []
  }

  /** `salariesByExperience`: experience level to its `SalaryFrom` values in
      arrival order. */
  type SalaryTable = map<string, seq<int>>

  // ---------------------------------------------------------------------------
  // Technologies

  /** `techKeywords` (htmlAgilityPack.cs:14-43), in declaration order. */
  const TechKeywords: seq<(string, seq<string>)> := [
    ("C#", ["c#", ".net", "asp.net", "entity framework"]),
    ("Python", ["python", "django", "flask", "fastapi"]),
    ("Java", ["java", "spring", "hibernate", "j2ee"]),
    ("JavaScript", ["javascript", "js", "ecmascript", "vanilla js"]),
    ("TypeScript", ["typescript", "ts"]),
    ("PHP", ["php", "laravel", "symfony"]),
    ("Go", ["go", "golang"]),
    ("SQL", ["sql", "postgresql", "mysql", "mssql", "oracle"]),
    ("NoSQL", ["mongodb", "redis", "cassandra", "elasticsearch"]),
    ("React", ["react", "react.js", "redux"]),
    ("Angular", ["angular", "angular.js"]),
    ("Vue", ["vue", "vue.js", "vuex"]),
    ("Docker", ["docker", "container"]),
    ("Kubernetes", ["kubernetes", "k8s"]),
    ("AWS", ["aws", "amazon web services", "s3", "ec2"]),
    ("Azure", ["azure"]),
    ("Linux", ["linux", "ubuntu", "centos"]),
    ("Git", ["git", "github", "gitlab"]),
    ("CI/CD", ["jenkins", "gitlab ci", "github actions", "teamcity"]),
    ("Terraform", ["terraform", "iac"]),
    ("Kafka", ["kafka"]),
    ("RabbitMQ", ["rabbitmq"]),
    ("Grafana", ["grafana"]),
    ("Prometheus", ["prometheus"]),
    ("Tableau", ["tableau", "power bi"]),
    ("Spark", ["spark", "apache spark"]),
    ("Hadoop", ["hadoop", "hdfs"])
  ]

  /** Some keyword of the list is a substring of the description. */
  predicate AnyKeywordIn(description: string, keywords: seq<string>) {
    exists kw :: kw in keywords && Contains(description, kw)
  }

  /** The technologies of the table, in table order, that have a keyword in
      the description. */
  function HitNames(description: string, table: seq<(string, seq<string>)>): seq<string>
    decreases |table|
  {
    if table == [] then []
    else
      var last := table[|table| - 1];
      HitNames(description, table[..|table| - 1]) + (if AnyKeywordIn(description, last.1) then [last.0] else [])
  }

  /** Technology k of the table has a keyword in the description. */
  predicate Hit(description: string, table: seq<(string, seq<string>)>, k: string) {
    exists i :: 0 <= i < |table| && table[i].0 == k && AnyKeywordIn(description, table[i].1)
  }

  predicate DistinctNames(table: seq<(string, seq<string>)>) {
    forall i, j :: 0 <= i < j < |table| ==> table[i].0 != table[j].0
  }

  /** The names the technology count is bumped for while reading one
      description: none for a null or empty one. */
  function TechHitsOf(description: Option<string>): seq<string> {
    if HasText(description) then HitNames(description.value, TechKeywords) else []
  }

  /** With distinct names, each technology is listed once if it has a
      keyword in the description, and not at all otherwise. */
  lemma {:induction false} HitNamesCount(description: string, table: seq<(string, seq<string>)>, k: string)
    requires DistinctNames(table)
    ensures multiset(HitNames(description, table))[k] == if Hit(description, table, k) then 1 else 0
    decreases |table|
  {
    if table != [] {
      var init := table[..|table| - 1];
      var last := table[|table| - 1];
      HitNamesCount(description, init, k);
      HitSnoc(description, table, k);
      var tail := if AnyKeywordIn(description, last.1) then [last.0] else [];
      assert multiset(HitNames(description, table)) == multiset(HitNames(description, init)) + multiset(tail);
      if Hit(description, init, k) {
        var i :| 0 <= i < |init| && init[i].0 == k && AnyKeywordIn(description, init[i].1);
        assert table[i] == init[i];
      }
    }
  }

  /** A technology is hit in a table exactly when it is hit before the last
      entry or is the last entry and hit there. */
  lemma HitSnoc(description: string, table: seq<(string, seq<string>)>, k: string)
    requires table != []
    ensures Hit(description, table, k) <==>
      (Hit(description, table[..|table| - 1], k)
        || (table[|table| - 1].0 == k && AnyKeywordIn(description, table[|table| - 1].1)))
  {
    var init := table[..|table| - 1];
    if Hit(description, table, k) {
      var i :| 0 <= i < |table| && table[i].0 == k && AnyKeywordIn(description, table[i].1);
      if i < |init| {
        assert init[i] == table[i];
      }
    }
    if Hit(description, init, k) {
      var i :| 0 <= i < |init| && init[i].0 == k && AnyKeywordIn(description, init[i].1);
      assert table[i] == init[i];
    }
  }

  /** A name's length and first character, as one number; these tell the
      technology names apart. Distinct codes are a cheaper proof that the
      27 names differ than comparing the strings pair by pair. */
  function NameCode(s: string): int {
    if s == [] then 0 else |s| * 0x1_0000 + s[0] as int
  }

  /** The codes of the technology names, in table order. */
  const NameCodes: seq<int> := [
      131139, 393296, 262218, 655434, 655444, 196688, 131143, 196691, 327758,
      327762, 458817, 196694, 393284, 655435, 196673, 327745, 327756, 196679,
      327747, 589908, 327755, 524370, 458823, 655440, 458836, 327763, 393288
    ]

  /** Each technology name has the code listed at its position. */
  lemma TechNameCodes()
    ensures |NameCodes| == |TechKeywords|
    ensures forall i :: 0 <= i < |TechKeywords| ==> NameCode(TechKeywords[i].0) == NameCodes[i]
  {
  }

  /** No code is listed twice, so no two technology names coincide. */
  lemma NameCodesDistinct()
    ensures forall i, j :: 0 <= i < j < |NameCodes| ==> NameCodes[i] != NameCodes[j]
  {
  }

  lemma TechKeywordNamesDistinct()
    ensures DistinctNames(TechKeywords)
  {
    TechNameCodes();
    NameCodesDistinct();
  }

  /** `AnalyzeTechnologies` on one description, per key: a technology's
      count rises by exactly 1 when one of its keywords occurs and is
      otherwise unchanged, a key is added (at 1) only for such a technology,
      and a null or empty description changes nothing. */
  lemma TechCountAt(c: Counter, description: Option<string>, k: string)
    ensures Get(CountAll(c, TechHitsOf(description)), k)
      == Get(c, k) + if HasText(description) && Hit(description.value, TechKeywords, k) then 1 else 0
    ensures k in CountAll(c, TechHitsOf(description))
      <==> k in c || (HasText(description) && Hit(description.value, TechKeywords, k))
  {
    CountAllAt(c, TechHitsOf(description), k);
    if HasText(description) {
      TechKeywordNamesDistinct();
      HitNamesCount(description.value, TechKeywords, k);
    }
  }

  /** Keys that are not technology names are never touched. */
  lemma NonTechnologyKeysUntouched(c: Counter, description: Option<string>, k: string)
    requires forall i :: 0 <= i < |TechKeywords| ==> TechKeywords[i].0 != k
    ensures Get(CountAll(c, TechHitsOf(description)), k) == Get(c, k)
    ensures k in CountAll(c, TechHitsOf(description)) <==> k in c
  {
    TechCountAt(c, description, k);
  }

  lemma HitNamesPrefixStep(description: string, table: seq<(string, seq<string>)>, k: nat)
    requires k < |table|
    ensures HitNames(description, table[..k + 1])
      == HitNames(description, table[..k]) + (if AnyKeywordIn(description, table[k].1) then [table[k].0] else [])
  {
    assert table[..k + 1][..k] == table[..k];
  }

  // ---------------------------------------------------------------------------
  // Employment types and salaries per experience

  /** Step 2 of the loop body: the keys the employment count is bumped for. */
  function EmploymentKeys(vs: seq<HHVacancy>): seq<string>
    decreases |vs|
  {
    if vs == [] then []
    else
      var v := vs[|vs| - 1];
      EmploymentKeys(vs[..|vs| - 1]) + (if HasText(v.employmentType) then [v.employmentType.value] else [])
  }

  /** The names the technology count is bumped for across the records. */
  function TechHits(vs: seq<HHVacancy>): seq<string>
    decreases |vs|
  {
    if vs == [] then [] else TechHits(vs[..|vs| - 1]) + TechHitsOf(vs[|vs| - 1].description)
  }

  /** The number of records whose description names technology k. */
  function TechRecords(vs: seq<HHVacancy>, k: string): nat
    decreases |vs|
  {
    if vs == [] then 0
    else
      var d := vs[|vs| - 1].description;
      TechRecords(vs[..|vs| - 1], k) + if HasText(d) && Hit(d.value, TechKeywords, k) then 1 else 0
  }

  lemma {:induction false} TechHitsMultiset(vs: seq<HHVacancy>, k: string)
    ensures multiset(TechHits(vs))[k] == TechRecords(vs, k)
    decreases |vs|
  {
    if vs != [] {
      var d := vs[|vs| - 1].description;
      TechHitsMultiset(vs[..|vs| - 1], k);
      assert multiset(TechHits(vs)) == multiset(TechHits(vs[..|vs| - 1])) + multiset(TechHitsOf(d));
      if HasText(d) {
        TechKeywordNamesDistinct();
        HitNamesCount(d.value, TechKeywords, k);
      }
    }
  }

  /** Over a page, each technology's count grows by the number of records
      whose description names it, and a key is present afterwards exactly
      when it was before or some description named it. */
  lemma TechHitsAt(c: Counter, vs: seq<HHVacancy>, k: string)
    ensures Get(CountAll(c, TechHits(vs)), k) == Get(c, k) + TechRecords(vs, k)
    ensures k in CountAll(c, TechHits(vs)) <==> k in c || TechRecords(vs, k) > 0
  {
    CountAllAt(c, TechHits(vs), k);
    TechHitsMultiset(vs, k);
  }

  /** Step 3 of the loop body for one record: a positive `SalaryFrom` of a
      record with an experience text, keyed by its level; otherwise nothing. */
  function Entry(v: HHVacancy): seq<(string, int)> {
    if v.salaryFrom > 0 && HasText(v.experience) then [(GetExperienceLevel(v.experience.value), v.salaryFrom)]
    else []
  }

  /** Step 3 applied to the table: the value is appended under its level,
      the list being created on first use. */
  function Record(t: SalaryTable, v: HHVacancy): SalaryTable {
    AppendAll(t, Entry(v))
  }

  /** Step 3 over a page, record by record. */
  function RecordAll(t: SalaryTable, vs: seq<HHVacancy>): SalaryTable {
    AppendAll(t, Collect(Entry, vs))
  }

  /** The number of records with employment type k. */
  function EmploymentCount(vs: seq<HHVacancy>, k: string): nat
    decreases |vs|
  {
    if vs == [] then 0
    else EmploymentCount(vs[..|vs| - 1], k) + if vs[|vs| - 1].employmentType == Some(k) then 1 else 0
  }

  /** Employment counting per key: a non-empty type k grows by the number of
      records of type k; the empty key is never added. */
  lemma {:induction false} EmploymentKeysAt(c: Counter, vs: seq<HHVacancy>, k: string)
    ensures k != [] ==> Get(CountAll(c, EmploymentKeys(vs)), k) == Get(c, k) + EmploymentCount(vs, k)
    ensures k in CountAll(c, EmploymentKeys(vs)) ==> k in c || k != []
    decreases |vs|
  {
    CountAllAt(c, EmploymentKeys(vs), k);
    if vs != [] {
      var init := vs[..|vs| - 1];
      var v := vs[|vs| - 1];
      var tail := if HasText(v.employmentType) then [v.employmentType.value] else [];
      EmploymentKeysAt(c, init, k);
      CountAllAt(c, EmploymentKeys(init), k);
      assert multiset(EmploymentKeys(vs)) == multiset(EmploymentKeys(init)) + multiset(tail);
    }
  }

  /** Each level's list is its old list followed by the values of the page
      under that level, and a level is present exactly when it was before or
      received a value: lists only grow at their end, other levels are
      untouched. */
  lemma RecordAllAt(t: SalaryTable, vs: seq<HHVacancy>, e: string)
    ensures GetList(RecordAll(t, vs), e) == GetList(t, e) + ValuesFor(Collect(Entry, vs), e)
    ensures e in RecordAll(t, vs) <==> e in t || |ValuesFor(Collect(Entry, vs), e)| > 0
  {
    AppendAllAt(t, Collect(Entry, vs), e);
  }

  /** A page of one more record is the page followed by step 3 for it. */
  lemma RecordAllSnoc(t: SalaryTable, vs: seq<HHVacancy>, v: HHVacancy)
    ensures RecordAll(t, vs + [v]) == Record(RecordAll(t, vs), v)
  {
    CollectAppendAllSnoc(Entry, t, vs, v);
  }

  /** What the salary table holds between records: levels are among the six
      labels, every list is non-empty, and every value is positive. */
  predicate GoodSalaries(t: SalaryTable) {
    && NoEmptyLists(t)
    && (forall e :: e in t ==> e in ExperienceLevels)
    && (forall e, i :: e in t && 0 <= i < |t[e]| ==> t[e][i] > 0)
  }

  lemma RecordKeepsGood(t: SalaryTable, v: HHVacancy)
    requires GoodSalaries(t)
    ensures GoodSalaries(Record(t, v))
  {
    if Entry(v) != [] {
      AppendAllOne(t, GetExperienceLevel(v.experience.value), v.salaryFrom);
    }
  }

  lemma {:induction false} RecordAllKeepsGood(t: SalaryTable, vs: seq<HHVacancy>)
    requires GoodSalaries(t)
    ensures GoodSalaries(RecordAll(t, vs))
    decreases |vs|
  {
    if vs != [] {
      var init, v := vs[..|vs| - 1], vs[|vs| - 1];
      RecordAllKeepsGood(t, init);
      RecordKeepsGood(RecordAll(t, init), v);
      assert vs == init + [v];
      RecordAllSnoc(t, init, v);
    } else {
      assert Collect(Entry, vs) == [];
    }
  }

  /** No employment key is the empty string. */
  predicate GoodEmployment(c: Counter) {
    PositiveCounts(c) && [] !in c
  }

  lemma PrefixSnoc(t: SalaryTable, vs: seq<HHVacancy>, i: nat)
    requires i < |vs|
    ensures TechHits(vs[..i + 1]) == TechHits(vs[..i]) + TechHitsOf(vs[i].description)
    ensures EmploymentKeys(vs[..i + 1])
      == EmploymentKeys(vs[..i]) + (if HasText(vs[i].employmentType) then [vs[i].employmentType.value] else [])
    ensures RecordAll(t, vs[..i + 1]) == Record(RecordAll(t, vs[..i]), vs[i])
  {
    assert vs[..i + 1][..i] == vs[..i];
    assert vs[..i + 1] == vs[..i] + [vs[i]];
    RecordAllSnoc(t, vs[..i], vs[i]);
  }

  // ---------------------------------------------------------------------------
  // The dictionaries of `Main`

  class HHTables {
    var technologies: Counter
    var employmentTypes: Counter
    var salariesByExperience: SalaryTable

    ghost predicate Valid()
      reads this
    {
      PositiveCounts(technologies) && GoodEmployment(employmentTypes) && GoodSalaries(salariesByExperience)
    }

    /** The three dictionaries as `Main` creates them, empty. */
    constructor ()
      ensures Valid()
      ensures technologies == map[] && employmentTypes == map[] && salariesByExperience == map[]
    {
      technologies := map[];
      employmentTypes := map[];
      salariesByExperience := map[];
    }

    /** The inner loop of `AnalyzeTechnologies` for one technology: the
        first keyword found bumps the count, and the loop stops there. */
    method CountTechnology(text: string, tech: string, keywords: seq<string>)
      requires PositiveCounts(technologies)
      modifies this`technologies
      ensures PositiveCounts(technologies)
      ensures technologies == if AnyKeywordIn(text, keywords) then Bump(old(technologies), tech) else old(technologies)
    {
      var w := 0;
      ghost var found := false;
      while w < |keywords|
        invariant 0 <= w <= |keywords|
        invariant technologies == old(technologies) && !found
        invariant forall u :: 0 <= u < w ==> !Contains(text, keywords[u])
      {
        if Contains(text, keywords[w]) {
          if tech in technologies {
            technologies := technologies[tech := technologies[tech] + 1];
          } else {
            technologies := technologies[tech := 1];
          }
          found := true;
          break;
        }
        w := w + 1;
      }
      if found {
        assert keywords[w] in keywords;
      } else {
        assert !AnyKeywordIn(text, keywords) by {
          forall kw | kw in keywords ensures !Contains(text, kw) {
            var u :| 0 <= u < |keywords| && keywords[u] == kw;
          }
        }
      }
    }

    /** The loop over the keyword table: each technology with a keyword in
        the text is counted once, in table order. */
    method CountTable(text: string, table: seq<(string, seq<string>)>)
      requires PositiveCounts(technologies)
      modifies this`technologies
      ensures PositiveCounts(technologies)
      ensures technologies == CountAll(old(technologies), HitNames(text, table))
    {
      var k := 0;
      while k < |table|
        invariant 0 <= k <= |table|
        invariant PositiveCounts(technologies)
        invariant technologies == CountAll(old(technologies), HitNames(text, table[..k]))
      {
        var (tech, keywords) := table[k];
        ghost var hits := HitNames(text, table[..k]);
        HitNamesPrefixStep(text, table, k);
        CountAllSnoc(old(technologies), hits, tech);
        assert hits + [] == hits;
        CountTechnology(text, tech, keywords);
        k := k + 1;
      }
      assert table[..k] == table;
    }

    /** `AnalyzeTechnologies(description, technologies)`: every technology
        with a keyword in a non-empty description is counted once. */
    method AnalyzeTechnologies(description: Option<string>)
      requires PositiveCounts(technologies)
      modifies this`technologies
      ensures PositiveCounts(technologies)
      ensures technologies == CountAll(old(technologies), TechHitsOf(description))
    {
      if !HasText(description) {
        return;
      }
      CountTable(description.value, TechKeywords);
    }

    /** Step 2 of the loop body: count a non-empty employment type. */
    method CountEmploymentType(vacancy: HHVacancy)
      requires GoodEmployment(employmentTypes)
      modifies this`employmentTypes
      ensures GoodEmployment(employmentTypes)
      ensures employmentTypes == CountAll(old(employmentTypes),
        if HasText(vacancy.employmentType) then [vacancy.employmentType.value] else [])
    {
      if HasText(vacancy.employmentType) {
        var employmentType := vacancy.employmentType.value;
        if employmentType in employmentTypes {
          employmentTypes := employmentTypes[employmentType := employmentTypes[employmentType] + 1];
        } else {
          employmentTypes := employmentTypes[employmentType := 1];
        }
        assert employmentTypes == Bump(old(employmentTypes), employmentType);
        assert GoodEmployment(employmentTypes);
        CountAllOne(old(employmentTypes), employmentType);
      } else {
        assert CountAll(old(employmentTypes), []) == old(employmentTypes);
      }
    }

    /** Step 3 of the loop body: record a positive `SalaryFrom` under the
        experience level, creating the list on first use. */
    method RecordSalary(vacancy: HHVacancy)
      requires GoodSalaries(salariesByExperience)
      modifies this`salariesByExperience
      ensures GoodSalaries(salariesByExperience)
      ensures salariesByExperience == Record(old(salariesByExperience), vacancy)
    {
      if vacancy.salaryFrom > 0 && HasText(vacancy.experience) {
        var expKey := GetExperienceLevel(vacancy.experience.value);
        ghost var list := GetList(salariesByExperience, expKey);
        if expKey !in salariesByExperience {
          salariesByExperience := salariesByExperience[expKey := []];
        }
        assert salariesByExperience[expKey] == list;
        salariesByExperience := salariesByExperience[expKey := salariesByExperience[expKey] + [vacancy.salaryFrom]];
        assert salariesByExperience == old(salariesByExperience)[expKey := list + [vacancy.salaryFrom]];
        AppendAllOne(old(salariesByExperience), expKey, vacancy.salaryFrom);
      }
      RecordKeepsGood(old(salariesByExperience), vacancy);
    }

    /** Steps 1-3 of the loop body for one vacancy; nothing else changes. */
    method ProcessVacancy(vacancy: HHVacancy)
      requires Valid()
      modifies this
      ensures Valid()
      ensures technologies == CountAll(old(technologies), TechHitsOf(vacancy.description))
      ensures employmentTypes == CountAll(old(employmentTypes),
        if HasText(vacancy.employmentType) then [vacancy.employmentType.value] else [])
      ensures salariesByExperience == Record(old(salariesByExperience), vacancy)
    {
      AnalyzeTechnologies(vacancy.description);
      CountEmploymentType(vacancy);
      RecordSalary(vacancy);
    }

    /** `foreach (var vacancy in vacancies)` over one page of results. */
    method ProcessVacancies(vacancies: seq<HHVacancy>)
      requires Valid()
      modifies this
      ensures Valid()
      ensures technologies == CountAll(old(technologies), TechHits(vacancies))
      ensures employmentTypes == CountAll(old(employmentTypes), EmploymentKeys(vacancies))
      ensures salariesByExperience == RecordAll(old(salariesByExperience), vacancies)
    {
      var i := 0;
      while i < |vacancies|
        invariant 0 <= i <= |vacancies|
        invariant Valid()
        invariant technologies == CountAll(old(technologies), TechHits(vacancies[..i]))
        invariant employmentTypes == CountAll(old(employmentTypes), EmploymentKeys(vacancies[..i]))
        invariant salariesByExperience == RecordAll(old(salariesByExperience), vacancies[..i])
      {
        var vacancy := vacancies[i];
        PrefixSnoc(old(salariesByExperience), vacancies, i);
        CountAllAppend(old(technologies), TechHits(vacancies[..i]), TechHitsOf(vacancy.description));
        CountAllAppend(old(employmentTypes), EmploymentKeys(vacancies[..i]),
          if HasText(vacancy.employmentType) then [vacancy.employmentType.value] else []);
        ProcessVacancy(vacancy);
        i := i + 1;
      }
      assert vacancies[..i] == vacancies;
    }
  }

}

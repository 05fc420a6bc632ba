/**
 * The aggregator of scrapy.py (`analyze_vacancy_data`, scrapy.py:95-117) and
 * the three module-level tables it updates (scrapy.py:31-33).
 *
 * The tables are the fields of a `Tables` object, because the source keeps
 * them as globals that every call updates in place and that accumulate
 * across calls. The method is proved against the specification functions
 * `CountAll` and `RecordAll`; the lemmas state what those promise.
 */
module ScrapyAnalysis {
  import opened Wrappers
  import opened Text
  import opened SalaryRegex
  import opened ScrapyGenerator
  import opened Counters

  /** `salaries_by_exp`: experience label to its salary averages in arrival order. */
  type SalaryTable = map<string, seq<real>>

  /** Every skill entry of the records, in order. */
  function AllSkills(vs: seq<Vacancy>): seq<string>
    decreases |vs|
  {
    if vs == [] then [] else AllSkills(vs[..|vs| - 1]) + vs[|vs| - 1].skills
  }

  /** The number of skill entries across the records. */
  function SkillEntries(vs: seq<Vacancy>): nat
    decreases |vs|
  {
    if vs == [] then 0 else SkillEntries(vs[..|vs| - 1]) + |vs[|vs| - 1].skills|
  }

  /** The employment label of every record, in order. */
  function Employments(vs: seq<Vacancy>): (r: seq<string>)
    ensures |r| == |vs|
    decreases |vs|
  {
    if vs == [] then [] else Employments(vs[..|vs| - 1]) + [vs[|vs| - 1].employment]
  }

  /** Step 3 of the loop body for one record: when the regex matches, the
      average keyed by the record's experience label; otherwise nothing. */
  function Entry(v: Vacancy): seq<(string, real)> {
    match ExtractSalary(v.salary)
    case None => []
    case Some((lower, upper)) => [(v.experience, Average(lower, upper))]
  }

  /** Step 3 applied to the table: the average is appended under its label,
      the list being created on first use. */
  function Record(t: SalaryTable, v: Vacancy): SalaryTable {
    AppendAll(t, Entry(v))
  }

  /** Step 3 over a pass, record by record. */
  function RecordAll(t: SalaryTable, vs: seq<Vacancy>): SalaryTable {
    AppendAll(t, Collect(Entry, vs))
  }

  // ---------------------------------------------------------------------------
  // Counters

  lemma {:induction false} AllSkillsLength(vs: seq<Vacancy>)
    ensures |AllSkills(vs)| == SkillEntries(vs)
    decreases |vs|
  {
    if vs != [] {
      AllSkillsLength(vs[..|vs| - 1]);
    }
  }

  /** After a pass over vs, the employment total has grown by |vs| and the
      technology total by the number of skill entries. */
  lemma AnalysisTotals(tech: Counter, employment: Counter, vs: seq<Vacancy>)
    ensures Total(CountAll(employment, Employments(vs))) == Total(employment) + |vs|
    ensures Total(CountAll(tech, AllSkills(vs))) == Total(tech) + SkillEntries(vs)
  {
    CountAllTotal(employment, Employments(vs));
    CountAllTotal(tech, AllSkills(vs));
    AllSkillsLength(vs);
  }

  // ---------------------------------------------------------------------------
  // Salary table

  /** Each label's list is its old list followed by the averages of the
      pass under that label, and a label is present exactly when it was
      before or received an average: lists only grow at their end, other
      labels are untouched. */
  lemma RecordAllAt(t: SalaryTable, vs: seq<Vacancy>, e: string)
    ensures GetList(RecordAll(t, vs), e) == GetList(t, e) + ValuesFor(Collect(Entry, vs), e)
    ensures e in RecordAll(t, vs) <==> e in t || |ValuesFor(Collect(Entry, vs), e)| > 0
  {
    AppendAllAt(t, Collect(Entry, vs), e);
  }

  /** A label is created only together with its first average, so no list
      is ever empty. */
  lemma RecordAllKeepsNonEmpty(t: SalaryTable, vs: seq<Vacancy>)
    requires NoEmptyLists(t)
    ensures NoEmptyLists(RecordAll(t, vs))
  {
    AppendAllKeepsNonEmpty(t, Collect(Entry, vs));
  }

  /** Recording a then b is recording a + b. */
  lemma RecordAllAppend(t: SalaryTable, a: seq<Vacancy>, b: seq<Vacancy>)
    ensures RecordAll(RecordAll(t, a), b) == RecordAll(t, a + b)
  {
    CollectAppendAll(Entry, t, a, b);
  }

  /** A pass of one more record is the pass followed by step 3 for it. */
  lemma RecordAllSnoc(t: SalaryTable, vs: seq<Vacancy>, v: Vacancy)
    ensures RecordAll(t, vs + [v]) == Record(RecordAll(t, vs), v)
  {
    CollectAppendAllSnoc(Entry, t, vs, v);
  }

  /** The number of records with experience label e. */
  function LevelCount(vs: seq<Vacancy>, e: string): nat
    decreases |vs|
  {
    if vs == [] then 0
    else LevelCount(vs[..|vs| - 1], e) + (if vs[|vs| - 1].experience == e then 1 else 0)
  }

  /** The averages a band allows: (lowerMin + upperMin) / 2 up to
      (lowerMax - 1 + upperMax - 1) / 2. */
  predicate AverageInBand(b: Band, x: real) {
    (b.lowerMin + b.upperMin) as real / 2.0 <= x <= (b.lowerMax - 1 + b.upperMax - 1) as real / 2.0
  }

  /** Generated records always parse: each adds exactly one observation to its
      level, and that observation lies within the level's band. */
  lemma {:induction false} GeneratedObservations(vs: seq<Vacancy>, e: string)
    requires forall i :: 0 <= i < |vs| ==> WellFormed(vs[i])
    ensures |ValuesFor(Collect(Entry, vs), e)| == LevelCount(vs, e)
    ensures forall i :: 0 <= i < |ValuesFor(Collect(Entry, vs), e)| ==>
      AverageInBand(SalaryBand(e), ValuesFor(Collect(Entry, vs), e)[i])
    decreases |vs|
  {
    if vs != [] {
      var init, v := vs[..|vs| - 1], vs[|vs| - 1];
      GeneratedObservations(init, e);
      assert WellFormed(v);
      var lower := ExtractSalary(v.salary).value.0;
      var upper := ExtractSalary(v.salary).value.1;
      assert InBand(SalaryBand(v.experience), lower, upper);
      ValuesForAppend(Collect(Entry, init), Entry(v), e);
      assert Entry(v)[..0] == [];
      if v.experience == e {
        assert AverageInBand(SalaryBand(e), Average(lower, upper));
      }
    }
  }

  /** For every generated salary text "L-U руб.", the record adds exactly
      one observation, (L + U) / 2, under its own label, and nothing else. */
  lemma GeneratedRecordAverage(t: SalaryTable, v: Vacancy, lower: nat, upper: nat)
    requires v.salary == SalaryText(lower, upper)
    ensures RecordAll(t, [v]) == t[v.experience := GetList(t, v.experience) + [Average(lower, upper)]]
  {
    SalaryTextRoundTrip(lower, upper);
    CollectOne(Entry, v);
    AppendAllOne(t, v.experience, Average(lower, upper));
  }

  /** The example of the aggregator's contract: "100000-200000 руб." adds
      150000.0 under the record's label and nothing else. */
  lemma RangeTextAddsAverage(t: SalaryTable, v: Vacancy)
    requires v.salary == SalaryText(100000, 200000)
    ensures RecordAll(t, [v]) == t[v.experience := GetList(t, v.experience) + [150000.0]]
  {
    GeneratedRecordAverage(t, v, 100000, 200000);
    assert Average(100000, 200000) == 150000.0;
  }

  /** The text of that example. */
  lemma RangeTextExample()
    ensures SalaryText(100000, 200000) == "100000-200000 руб."
  {
    NatToStringExamples();
  }

  /** A record whose salary text has fewer than two digits adds no salary
      observation, yet is still counted for employment and technologies. */
  lemma UnparsedRecordStillCounted(tech: Counter, employment: Counter, t: SalaryTable, v: Vacancy)
    requires !HasTwoDigits(v.salary)
    ensures RecordAll(t, [v]) == t
    ensures Get(CountAll(employment, Employments([v])), v.employment) == Get(employment, v.employment) + 1
    ensures Total(CountAll(tech, AllSkills([v]))) == Total(tech) + |v.skills|
  {
    SearchIffTwoDigits(v.salary);
    assert [v][..0] == [];
    CollectOne(Entry, v);
    AnalysisTotals(tech, employment, [v]);
  }

  // ---------------------------------------------------------------------------
  // One more record

  lemma PrefixSnoc(t: SalaryTable, vs: seq<Vacancy>, i: nat)
    requires i < |vs|
    ensures AllSkills(vs[..i + 1]) == AllSkills(vs[..i]) + vs[i].skills
    ensures Employments(vs[..i + 1]) == Employments(vs[..i]) + [vs[i].employment]
    ensures RecordAll(t, vs[..i + 1]) == Record(RecordAll(t, vs[..i]), vs[i])
  {
    assert vs[..i + 1][..i] == vs[..i];
    assert vs[..i + 1] == vs[..i] + [vs[i]];
    RecordAllSnoc(t, vs[..i], vs[i]);
  }

  lemma RecordKeepsNonEmpty(t: SalaryTable, v: Vacancy)
    requires NoEmptyLists(t)
    ensures NoEmptyLists(Record(t, v))
  {
    AppendAllKeepsNonEmpty(t, Entry(v));
  }

  // ---------------------------------------------------------------------------
  // The global tables

  /** `technologies_counter`, `employment_counter` and `salaries_by_exp`. */
  class Tables {
    var technologiesCounter: Counter
    var employmentCounter: Counter
    var salariesByExp: SalaryTable

    /** Every counted key has count at least 1 and every salary list holds at
        least one observation. */
    ghost predicate Valid()
      reads this
    {
      PositiveCounts(technologiesCounter) && PositiveCounts(employmentCounter) && NoEmptyLists(salariesByExp)
    }

    /** The tables as the module creates them: `Counter()`, `Counter()`, `{}`. */
    constructor ()
      ensures Valid()
      ensures technologiesCounter == map[] && employmentCounter == map[] && salariesByExp == map[]
    {
      technologiesCounter := map[];
      employmentCounter := map[];
      salariesByExp := map[];
    }

    /** Step 1 of the loop body: `technologies_counter[tech] += 1` for every skill. */
    method CountTechnologies(skills: seq<string>)
      requires PositiveCounts(technologiesCounter)
      modifies this`technologiesCounter
      ensures PositiveCounts(technologiesCounter)
      ensures technologiesCounter == CountAll(old(technologiesCounter), skills)
    {
      var j := 0;
      while j < |skills|
        invariant 0 <= j <= |skills|
        invariant PositiveCounts(technologiesCounter)
        invariant technologiesCounter == CountAll(old(technologiesCounter), skills[..j])
      {
        var tech := skills[j];
        CountAllPrefixStep(old(technologiesCounter), skills, j);
        technologiesCounter := technologiesCounter[tech := Get(technologiesCounter, tech) + 1];
        j := j + 1;
      }
      CountAllWhole(old(technologiesCounter), skills, j);
    }

    /** Step 3 of the loop body: when the regex matches, append the average
        under the record's experience label, creating the list on first use. */
    method RecordSalary(vacancy: Vacancy)
      requires NoEmptyLists(salariesByExp)
      modifies this`salariesByExp
      ensures NoEmptyLists(salariesByExp)
      ensures salariesByExp == Record(old(salariesByExp), vacancy)
    {
      var salaryMatch := ExtractSalary(vacancy.salary);
      if salaryMatch.Some? {
        var (salaryFrom, salaryTo) := salaryMatch.value;
        var avgSalary := Average(salaryFrom, salaryTo);
        var expLevel := vacancy.experience;
        ghost var list := GetList(salariesByExp, expLevel);
        if expLevel !in salariesByExp {
          salariesByExp := salariesByExp[expLevel := []];
        }
        assert salariesByExp[expLevel] == list;
        salariesByExp := salariesByExp[expLevel := salariesByExp[expLevel] + [avgSalary]];
        assert salariesByExp == old(salariesByExp)[expLevel := list + [avgSalary]];
        AppendAllOne(old(salariesByExp), expLevel, avgSalary);
      }
      RecordKeepsNonEmpty(old(salariesByExp), vacancy);
    }

    /** The body of the loop over records: steps 1, 2 and 3 for one record. */
    method ProcessVacancy(vacancy: Vacancy)
      requires Valid()
      modifies this
      ensures Valid()
      ensures technologiesCounter == CountAll(old(technologiesCounter), vacancy.skills)
      ensures employmentCounter == Bump(old(employmentCounter), vacancy.employment)
      ensures salariesByExp == Record(old(salariesByExp), vacancy)
    {
      CountTechnologies(vacancy.skills);
      employmentCounter := employmentCounter[vacancy.employment := Get(employmentCounter, vacancy.employment) + 1];
      assert employmentCounter == Bump(old(employmentCounter), vacancy.employment);
      assert PositiveCounts(employmentCounter);
      RecordSalary(vacancy);
    }

    /** `analyze_vacancy_data(vacancies)`: one forward pass that counts every
        skill and employment label and records every parsable salary. */
    method AnalyzeVacancyData(vacancies: seq<Vacancy>)
      requires Valid()
      modifies this
      ensures Valid()
      ensures technologiesCounter == CountAll(old(technologiesCounter), AllSkills(vacancies))
      ensures employmentCounter == CountAll(old(employmentCounter), Employments(vacancies))
      ensures salariesByExp == RecordAll(old(salariesByExp), vacancies)
    {
      var i := 0;
      while i < |vacancies|
        invariant 0 <= i <= |vacancies|
        invariant Valid()
        invariant technologiesCounter == CountAll(old(technologiesCounter), AllSkills(vacancies[..i]))
        invariant employmentCounter == CountAll(old(employmentCounter), Employments(vacancies[..i]))
        invariant salariesByExp == RecordAll(old(salariesByExp), vacancies[..i])
      {
        PrefixSnoc(old(salariesByExp), vacancies, i);
        CountAllAppend(old(technologiesCounter), AllSkills(vacancies[..i]), vacancies[i].skills);
        CountAllSnoc(old(employmentCounter), Employments(vacancies[..i]), vacancies[i].employment);
        ProcessVacancy(vacancies[i]);
        i := i + 1;
      }
      assert vacancies[..i] == vacancies;
    }
  }

}

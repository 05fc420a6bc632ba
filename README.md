# Vacancy statistics pipelines, modelled in Dafny

Two small programs turn job-posting records into frequency tables and
salary groups.

- **scrapy.py**, the Python program:
  - generates synthetic vacancies (`generate_realistic_vacancies`). Each has an experience label, a salary text `"L-U руб."` whose bounds come from a band fixed per level, an employment type and three to six distinct technologies.
  - aggregates them (`analyze_vacancy_data`) into three module-level tables: a technology `Counter`, an employment `Counter` and a dictionary of salary averages per experience label. The salary comes out of the text through the regular expression `(\d+)[^\d]*(\d+)`.
- **htmlAgilityPack.cs**, the C# program:
  - reads vacancy cards from hh.ru, parses salary texts (`ParseSalary`) and classifies experience texts into six levels (`GetExperienceLevel`);
  - counts technologies by keyword (`AnalyzeTechnologies` over the `techKeywords` table) and employment types, and collects the lower salary bound per level (the per-vacancy body of `Main`).

## Modules

- **`Wrappers`**: `Option`.
- **`Text`**: ASCII digits, rendering and reading of decimal numbers, ordinal substring search, `Replace(pat, "")`, and lower-casing.
- **`Counters`**: Python's `Counter` and C#'s increment-or-insert dictionary, which behave the same. The counting specification `CountAll` lives here, with its per-key and total laws. So does the specification `AppendAll` of the dictionaries of lists that both programs fill ("create the list on first use, then append"), with its per-key law.
- **`SalaryRegex`**: the Python regular expression, as a direct search over digit runs. Lemmas prove that this search returns the match Python's engine reports: leftmost, and first in greedy order.
- **`ScrapyGenerator`**: the generator. It is a loop whose random draws are arbitrary choices (`:|`), so its contract holds for every outcome.
- **`ScrapyAnalysis`**: the three globals as the fields of class `Tables`, with the aggregation method. The method is proved against specification functions, and lemmas state what those functions promise.
- **`HHParser`**: `ParseSalary` and `GetExperienceLevel`, as pure functions.
- **`HHAggregation`**: the `techKeywords` table, and the three dictionaries of `Main` as the fields of class `HHTables`. `AnalyzeTechnologies` and the per-vacancy steps are methods proved against specification functions.

## Model

| member | source | states |
|---|---|---|
| Text.DecimalRoundTrip | scrapy.py:110-111 | `int()` of the decimal rendering of any n is n, so the f-string and the regex groups agree |
| Text.DecimalValue | scrapy.py:110-111 | `int()` of a digit string; it reads back every rendering (`Text.DecimalRoundTrip`) |
| Text.NatToString | scrapy.py:63-69 | the decimal rendering of a bound in the f-strings; `int()` reads it back (`Text.DecimalRoundTrip`) |
| Text.Digits | htmlAgilityPack.cs:247 | `Where(char.IsDigit)`: the digits of a text, in order; cleaning does not change them (`HHParser.CleanKeepsDigits`) |
| Text.Contains | htmlAgilityPack.cs:241 | ordinal `string.Contains`; it holds exactly when the substring occurs at some index (`Text.ContainsIffOccurs`) |
| Text.RemoveAll | htmlAgilityPack.cs:238 | `Replace(pat, "")`; it keeps the digits (`Text.RemoveAllKeepsDigits`) and adds no character (`Text.RemoveAllChars`) |
| Text.ToLower | htmlAgilityPack.cs:306 | `ToLower()`; the classification does not change when the text is lower-cased first (`HHParser.ExperienceLevelIgnoresCase`) |
| Text.RemoveAllKeepsDigits | htmlAgilityPack.cs:238 | deleting a digit-free pattern keeps every digit of the text, in order |
| Text.ContainsIffOccurs | htmlAgilityPack.cs:241 | `Contains` holds exactly when the substring occurs at some index |
| Text.RemoveAllChars | htmlAgilityPack.cs:238 | `Replace(pat, "")` never introduces a character |
| Counters.Bump | scrapy.py:102 | `counter[k] += 1`: a missing key reads as 0 and is inserted at 1, other keys are untouched; its per-key law is `Counters.CountAllAt` |
| Counters.CountAll | htmlAgilityPack.cs:78-81 | counting each key of a sequence in order; what that means per key is `Counters.CountAllAt`, for the total `Counters.CountAllTotal` |
| Counters.CountAllAt | scrapy.py:101-105 | after counting a sequence of keys, each key has grown by its number of occurrences, and a key is present exactly when it was before or was counted |
| Counters.CountAllTotal | scrapy.py:101-105 | counting n keys grows the sum of all counts by exactly n |
| Counters.TotalBump | scrapy.py:102 | one `+= 1` grows the sum of all counts by one |
| Counters.CountAllAppend | scrapy.py:31-33 | counting a then b equals counting a + b, so the global counters accumulate across calls |
| Counters.CountAllKeepsPositive | htmlAgilityPack.cs:78-81 | counting never leaves a key at 0: a new key starts at 1 |
| Counters.AppendAllAt | scrapy.py:114-117 | after appending keyed values in order, each key's list is its old list followed by the values under that key, in order; a key is present exactly when it was before or received a value, so other keys are untouched |
| Counters.AppendAllKeepsNonEmpty | htmlAgilityPack.cs:88-91 | a list is created only together with its first value, so no list is ever empty |
| Counters.CollectAppendAllSnoc | scrapy.py:99-117 | recording one more record appends that record's entries after those of the earlier records |
| Counters.AppendAllAppend | scrapy.py:31-33 | appending a then b equals appending a + b, so a table of lists accumulates across calls |
| SalaryRegex.Search | scrapy.py:108 | a found span is a match of `(\d+)[^\d]*(\d+)`: digits, then non-digits, then digits |
| SalaryRegex.SearchIsReported | scrapy.py:108 | the found span is the one `re.search` reports: no match starts further left, and at that start none comes first in greedy order |
| SalaryRegex.SearchNoneMeansNoMatch | scrapy.py:108-109 | when the search fails, the pattern matches nowhere in the text |
| SalaryRegex.SearchIffTwoDigits | scrapy.py:108-109 | the pattern matches exactly when the text holds at least two digits |
| SalaryRegex.ExtractSalary | scrapy.py:108-111 | `int()` of the two groups of the reported match; there is a match exactly when the text holds at least two digits (`SalaryRegex.SearchIffTwoDigits`), and for "A", separator, "B"... the groups are A and B (`SalaryRegex.ExtractTwoRuns`) |
| SalaryRegex.ExtractTwoRuns | scrapy.py:108-111 | after any digit-free prefix, digits A, a digit-free gap of any length ≥ 1 and digits B, then anything not starting with a digit, give the values of A and B: the first two digit runs are the groups |
| SalaryRegex.ExtractOneRun | scrapy.py:108-111 | a text with a single digit run of length ≥ 2 gives that run without its last digit and that last digit, as the backtracking engine splits it |
| SalaryRegex.Average | scrapy.py:112 | `(salary_from + salary_to) / 2`; a generated record's observation is exactly (L + U) / 2 of its bounds (`ScrapyAnalysis.GeneratedRecordAverage`) |
| ScrapyGenerator.AllTechs | scrapy.py:51 | `list(TECHNOLOGIES.keys())` has one name per table entry |
| ScrapyGenerator.TechnologyNamesDistinct | scrapy.py:16-27 | the technology names are pairwise distinct |
| ScrapyGenerator.SelectionPossible | scrapy.py:72-73 | a draw of 3 to 6 distinct technologies without replacement always exists |
| ScrapyGenerator.SalaryBand | scrapy.py:62-69 | the if/elif chain's bounds; in every band 0 < lowest L < highest L <= lowest U < highest U |
| ScrapyGenerator.SalaryText | scrapy.py:62-69 | the f-string `"{L}-{U} руб."`; the regex reads back exactly L and U from it (`ScrapyGenerator.SalaryTextRoundTrip`) |
| ScrapyGenerator.SalaryTextRoundTrip | scrapy.py:62-69 | the regex reads back exactly the two drawn bounds from "L-U руб." |
| ScrapyGenerator.DrawnRecordWellFormed | scrapy.py:78-88 | a record built from draws within the generator's ranges is well formed: labels from their lists, 3 to 6 distinct known skills, salary from its level's band |
| ScrapyGenerator.DrawVacancy | scrapy.py:54-90 | one loop iteration yields a well-formed record with the given id, whatever the draws return |
| ScrapyGenerator.GenerateRealisticVacancies | scrapy.py:36-92 | returns max(count, 0) records (150 by default) with ids 1..count in order, every one well formed, for every outcome of the random draws |
| ScrapyGenerator.BandBoundsOrdered | scrapy.py:62-69 | in every band 0 < L < U (the `randint` upper bounds are exclusive) |
| ScrapyGenerator.BandsIncreaseWithLevel | scrapy.py:62-69 | a more senior level has strictly higher lower and upper bounds than any more junior one |
| ScrapyAnalysis.Tables.constructor | scrapy.py:31-33 | the three tables start empty |
| ScrapyAnalysis.Tables.CountTechnologies | scrapy.py:101-102 | the technology counter becomes the old one with every skill counted |
| ScrapyAnalysis.Tables.RecordSalary | scrapy.py:108-117 | the salary table gains the average under the record's label when the regex matches, and is unchanged otherwise |
| ScrapyAnalysis.Tables.ProcessVacancy | scrapy.py:99-117 | one record counts its skills, bumps its employment label by one and records its salary as `Record` says |
| ScrapyAnalysis.Tables.AnalyzeVacancyData | scrapy.py:95-117 | the three tables become the old ones updated by every record in order (`CountAll`, `RecordAll`), and the invariant holds: counts ≥ 1, no empty list |
| ScrapyAnalysis.AnalysisTotals | scrapy.py:99-105 | the employment total grows by the number of records, the technology total by the number of skill entries |
| ScrapyAnalysis.Record | scrapy.py:108-117 | step 3 for one record: the average, when the regex matches, appended under the record's label; per label this is `ScrapyAnalysis.RecordAllAt` |
| ScrapyAnalysis.RecordAllAt | scrapy.py:114-117 | each label's list is its old list followed by that pass's averages for the label; other labels are untouched, and a label appears only with an average |
| ScrapyAnalysis.RecordAllSnoc | scrapy.py:99-117 | a pass over one more record is the earlier pass followed by step 3 for that record |
| ScrapyAnalysis.RecordAllKeepsNonEmpty | scrapy.py:115-117 | no salary list is ever empty |
| ScrapyAnalysis.RecordAllAppend | scrapy.py:31-33 | recording a then b equals recording a + b, so the salary table accumulates across calls |
| ScrapyAnalysis.GeneratedObservations | scrapy.py:108-117 | generated records each add exactly one observation to their level, and it lies inside that level's band |
| ScrapyAnalysis.GeneratedRecordAverage | scrapy.py:108-117 | for every generated salary text "L-U руб.", the record appends exactly (L + U) / 2 under its label and changes nothing else |
| ScrapyAnalysis.RangeTextAddsAverage | scrapy.py:108-117 | a record with salary "100000-200000 руб." appends 150000.0 under its label and changes nothing else |
| ScrapyAnalysis.RangeTextExample | scrapy.py:63-69 | the rendered text of (100000, 200000) is "100000-200000 руб." |
| ScrapyAnalysis.UnparsedRecordStillCounted | scrapy.py:99-112 | a salary with fewer than two digits adds no observation, but the record is still counted for employment and technologies |
| HHParser.TryParseDigits | htmlAgilityPack.cs:247-250 | a successful parse of a digit string lies in 0..Int32.MaxValue |
| HHParser.ParseSalary | htmlAgilityPack.cs:230-281 | both bounds lie in 0..Int32.MaxValue |
| HHParser.ParsedOrZero | htmlAgilityPack.cs:247-250 | a failed `int.TryParse` leaves the bound at 0, a successful one sets it; a digit run above `Int32.MaxValue` gives 0 (`HHParser.FromUpToOverflow`) |
| HHParser.ParseCleaned | htmlAgilityPack.cs:241-275 | the if/else chain on the cleaned text: dash first, then "от", then "до", then a bare amount; what each branch reads is `HHParser.DashRange` and `HHParser.NonDashBranches` |
| HHParser.DashCase | htmlAgilityPack.cs:241-251 | the dash branch: the digits of the first two non-empty pieces (`HHParser.DashRange`) |
| HHParser.FromCase | htmlAgilityPack.cs:253-259 | the "от" branch: only the lower bound, from all digits (`HHParser.NonDashBranches`) |
| HHParser.UpToCase | htmlAgilityPack.cs:260-266 | the "до" branch: only the upper bound, from all digits (`HHParser.NonDashBranches`) |
| HHParser.AmountCase | htmlAgilityPack.cs:267-275 | the last branch: both bounds the same amount, or both 0 when it does not parse (`HHParser.NonDashBranches`) |
| HHParser.NonDashBranches | htmlAgilityPack.cs:253-274 | without a dash, the number read comes from all digits of the original text. "от" sets only the lower bound; "до" without "от" sets only the upper bound; otherwise both bounds are that amount |
| HHParser.CleanSalaryText | htmlAgilityPack.cs:238 | the three `Replace` calls; they keep every digit in order (`HHParser.CleanKeepsDigits`) and never add a character (`HHParser.CleanChars`) |
| HHParser.CleanKeepsDigits | htmlAgilityPack.cs:238 | cleaning keeps every digit of the text, in order |
| HHParser.CleanChars | htmlAgilityPack.cs:238 | every character of the cleaned text occurs in the original |
| HHParser.SplitOnDashes | htmlAgilityPack.cs:244 | `Split` on both dashes, empty pieces included: always at least one piece |
| HHParser.NonEmpty | htmlAgilityPack.cs:244 | `RemoveEmptyEntries`: no piece kept is empty |
| HHParser.DashParts | htmlAgilityPack.cs:244 | the pieces kept; a run of dashes contributes no piece (`HHParser.DashRunDropped`), and the first two pieces are read as in `HHParser.DashRange` |
| HHParser.DashRunDropped | htmlAgilityPack.cs:244 | dashes in front of a text, of either kind and any number, change nothing in the pieces kept |
| HHParser.DashRange | htmlAgilityPack.cs:241-251 | after any leading dashes, two non-empty dash-free pieces separated by one or more dashes of either kind give (digits of the first, digits of the second); a further dash and whatever follows it are ignored |
| HHParser.DashRangeExample | htmlAgilityPack.cs:241-251 | "100–200–300" reads as (100, 200): the en dash splits too, and the third piece is ignored |
| HHParser.RangeParts | htmlAgilityPack.cs:244 | "A-B" with dash-free, non-empty A and B contains the dash and splits into exactly [A, B] |
| HHParser.ParseSalaryRangeRoundTrip | htmlAgilityPack.cs:241-251 | "L-U руб." reads back as (L, U) whenever both bounds fit an `int` |
| HHParser.DashBeforeFrom | htmlAgilityPack.cs:241-253 | the dash test takes priority: "от L-U" reads as (L, U) |
| HHParser.FromBranch | htmlAgilityPack.cs:253-259 | a dash-free text starting with "от" gives (digits of the rest, 0) |
| HHParser.UpToBranch | htmlAgilityPack.cs:260-266 | a dash-free text starting with "до" whose cleaned form contains no "от" gives (0, digits of the rest) |
| HHParser.FromAmount | htmlAgilityPack.cs:253-259 | "от N" reads as (N, 0) |
| HHParser.UpToAmount | htmlAgilityPack.cs:260-266 | "до N" reads as (0, N) |
| HHParser.PlainAmount | htmlAgilityPack.cs:267-274 | a bare amount N reads as (N, N) |
| HHParser.FromUpToConcatenates | htmlAgilityPack.cs:253-258 | "от A до B" takes the "от" branch and reads the digits of A and B run together as the lower bound; the upper bound stays 0 |
| HHParser.FromUpToOverflow | htmlAgilityPack.cs:256-257 | when the joined digits, whose value is A * 10^(digits of B) + B, exceed `Int32.MaxValue`, both bounds stay 0 |
| HHParser.FromUpToExample | htmlAgilityPack.cs:253-258 | "от 100000 до 200000" reads as (0, 0), because 100000200000 overflows |
| HHParser.GetExperienceLevel | htmlAgilityPack.cs:304-323 | the result is always one of the six level labels |
| HHParser.ExperienceLevelIsFirstHit | htmlAgilityPack.cs:306-320 | level i is chosen exactly when one of its markers occurs in the lower-cased text and no marker of an earlier level does, so the first matching branch wins |
| HHParser.ExperienceLevelOther | htmlAgilityPack.cs:321-322 | "Другой" is chosen exactly when no marker of any level occurs |
| HHParser.ExperienceLevelIgnoresCase | htmlAgilityPack.cs:306 | lower-casing the input first does not change the level |
| HHAggregation.TechKeywordNamesDistinct | htmlAgilityPack.cs:14-43 | the 27 technology names of `techKeywords` are pairwise distinct |
| HHAggregation.HitNamesCount | htmlAgilityPack.cs:288-301 | with distinct names, one description lists a technology once if one of its keywords occurs, and not at all otherwise |
| HHAggregation.TechCountAt | htmlAgilityPack.cs:283-302 | one description raises a technology's count by exactly 1 if and only if one of its keywords is a substring; a new key starts at 1; a null or empty description changes nothing |
| HHAggregation.NonTechnologyKeysUntouched | htmlAgilityPack.cs:288-301 | keys that are not technology names are never changed |
| HHAggregation.TechHitsAt | htmlAgilityPack.cs:70-73 | over a page, each technology's count grows by the number of descriptions that name it |
| HHAggregation.EmploymentKeysAt | htmlAgilityPack.cs:76-82 | over a page, a non-empty employment type's count grows by the number of records of that type; the empty type is never added |
| HHAggregation.Record | htmlAgilityPack.cs:85-92 | step 3 for one record: a positive `SalaryFrom` with an experience text appended under its level; per level this is `HHAggregation.RecordAllAt` |
| HHAggregation.RecordAllAt | htmlAgilityPack.cs:85-92 | each level's list is its old list followed by the page's positive `SalaryFrom` values for that level; other levels are untouched |
| HHAggregation.RecordAllSnoc | htmlAgilityPack.cs:70-92 | a page of one more record is the earlier page followed by step 3 for that record |
| HHAggregation.RecordKeepsGood | htmlAgilityPack.cs:85-92 | one record keeps the salary table good: keys among the six labels, no empty list, every value positive |
| HHAggregation.RecordAllKeepsGood | htmlAgilityPack.cs:85-92 | the same holds after any number of records |
| HHAggregation.HHTables.constructor | htmlAgilityPack.cs:57-59 | the three dictionaries start empty |
| HHAggregation.HHTables.CountTechnology | htmlAgilityPack.cs:290-299 | the inner keyword loop bumps the technology once if some keyword occurs, and otherwise changes nothing |
| HHAggregation.HHTables.CountTable | htmlAgilityPack.cs:288-301 | the outer loop over the table counts exactly the technologies with a keyword in the text, in table order |
| HHAggregation.HHTables.AnalyzeTechnologies | htmlAgilityPack.cs:283-302 | the dictionary becomes the old one with every hit technology counted once |
| HHAggregation.HHTables.CountEmploymentType | htmlAgilityPack.cs:76-82 | a non-empty employment type is counted once, and nothing else changes |
| HHAggregation.HHTables.RecordSalary | htmlAgilityPack.cs:85-92 | a positive `SalaryFrom` with an experience text is appended under its level, and nothing else changes |
| HHAggregation.HHTables.ProcessVacancy | htmlAgilityPack.cs:72-92 | the three steps for one vacancy, each dictionary as its specification says, with the invariant kept |
| HHAggregation.HHTables.ProcessVacancies | htmlAgilityPack.cs:70-93 | the foreach over a page leaves each dictionary as its specification over all the page's records says |

## Left out

- `np.random`: the probability weights of the experience, employment and technology draws are not modelled. A random draw is an arbitrary choice within the range the call can return, and no seed or sequence of values is modelled.
- The `description` and `timestamp` entries of a generated record are not modelled. The description is free text with no stated behaviour, and the timestamp comes from the clock.
- `vacancies_data` (scrapy.py:30): only `main` writes to it.
- `create_performance_data`, the `plot_graph_*` functions, `save_results` and `main` of scrapy.py: plotting, numerical signals, file output and sleeps.
- ParseHHPage, ParseVacancyCard and GetVacancyDescription: the C# network and HTML layer (HTTP requests, XPath queries, delays). Records enter the model as values of `HHVacancy`.
- The page loop and try/catch of `Main`, and the display and save functions: console and file I/O.
- `Text.IsDigit`: Python's `\d` and C#'s `char.IsDigit` also accept non-ASCII decimal digits; the model accepts only '0'..'9'.
- `Text.LowerChar`: only ASCII and the basic Cyrillic capitals are lower-cased. Culture-specific rules of C#'s `ToLower` are not modelled.
- `SalaryRegex.Average`: the average is an exact real and never fails. Python's float division is exact for these integer sizes (below 2^53), but larger sums would round. Past the float range, `(salary_from + salary_to) / 2` (scrapy.py:112) raises `OverflowError`. That aborts `analyze_vacancy_data` mid-pass, after that record's skills and employment have already been counted. The model instead appends an average for the record and goes on.
- `SalaryRegex.ExtractSalary`: the model never fails. From Python 3.11, `int()` (scrapy.py:110-111) raises `ValueError` on a digit group longer than 4300 digits. That aborts the pass in the same way, after the record's skills and employment have been counted, whereas the model appends an average.
- `HHAggregation.HHTables.AnalyzeTechnologies`: counts are unbounded, whereas C#'s `int` would wrap after 2^31 - 1 increments.
- `HHAggregation.HHTables.CountEmploymentType`: counts are unbounded, whereas C#'s `int` would wrap after 2^31 - 1 increments.
- `HHParser.ParseSalary`: the text is non-null, as it is at its only call site. The try/catch is not modelled, because nothing in the body throws for a non-null text.
- `HHAggregation.TechKeywordNamesDistinct`: `Dictionary` enumeration order is taken to be the declaration order. Because the names are distinct, the final counts do not depend on that order.

/**
 * The job-list filter of the jobs page: the effect that recomputes the
 * shown jobs from all jobs and the searched query, and the empty-result
 * message. A query naming one of four salary bands keeps the jobs whose
 * salary lies in the band; any other non-empty query keeps the jobs whose
 * title, description or location contains it, ignoring case.
 */
module JobsFilter {
  import opened Wrappers
  import opened JsStrings

  /** The job fields the filter reads; `salary` is the text `parseInt` receives. */
  datatype Job = Job(title: string, description: string, location: string, salary: string)

  /** A salary band, both ends inclusive; `max == None` is the `Infinity` upper bound. */
  datatype SalaryRange = SalaryRange(min: int, max: Option<int>)

  /** The `salaryRanges` table. */
  const SALARY_RANGES: map<string, SalaryRange> := map[
    "0-30k" := SalaryRange(0, Some(30000)),
    "30-60k" := SalaryRange(30000, Some(60000)),
    "60k-1LPA" := SalaryRange(60000, Some(100000)),
    "1LPA above" := SalaryRange(100000, None)]

  /** `salary >= min && salary <= max`; a `NaN` salary (None) is in no band. */
  predicate InRange(salary: Option<int>, range: SalaryRange) {
    salary.Some? && range.min <= salary.value && (range.max.None? || salary.value <= range.max.value)
  }

  predicate SalaryMatches(job: Job, range: SalaryRange) {
    InRange(ParseInt(job.salary), range)
  }

  /** The query, lower-cased, occurs in the lower-cased title, description or location. */
  predicate TextMatches(job: Job, query: string) {
    var q := ToLower(query);
    Includes(ToLower(job.title), q) || Includes(ToLower(job.description), q) ||
    Includes(ToLower(job.location), q)
  }

  /** `s.filter(keep)`: every copy of a kept job stays, every copy of another goes. */
  function Filter(s: seq<Job>, keep: Job -> bool): (r: seq<Job>)
    ensures |r| <= |s|
    ensures forall x :: multiset(r)[x] == if keep(x) then multiset(s)[x] else 0
    ensures forall x :: x in r <==> x in s && keep(x)
    decreases |s|
  {
    if |s| == 0 then []
    else
      assert s == [s[0]] + s[1..];
      if keep(s[0]) then [s[0]] + Filter(s[1..], keep)
      else Filter(s[1..], keep)
  }

  /** `a` is `b` with some elements left out, the rest in their order. */
  predicate IsSubsequence(a: seq<Job>, b: seq<Job>)
    decreases |b|
  {
    if |a| == 0 then true
    else if |b| == 0 then false
    else if a[0] == b[0] then IsSubsequence(a[1..], b[1..])
    else IsSubsequence(a, b[1..])
  }

  lemma {:induction false} FilterIsSubsequence(s: seq<Job>, keep: Job -> bool)
    ensures IsSubsequence(Filter(s, keep), s)
    decreases |s|
  {
    if |s| > 0 {
      FilterIsSubsequence(s[1..], keep);
      if keep(s[0]) {
        assert ([s[0]] + Filter(s[1..], keep))[1..] == Filter(s[1..], keep);
      } else {
        var r := Filter(s[1..], keep);
        assert |r| > 0 ==> r[0] in r && r[0] != s[0];
      }
    }
  }

  /** Filtering a filtered sequence again with the same test changes nothing. */
  lemma {:induction false} FilterIdempotent(s: seq<Job>, keep: Job -> bool)
    ensures Filter(Filter(s, keep), keep) == Filter(s, keep)
    decreases |s|
  {
    if |s| > 0 {
      FilterIdempotent(s[1..], keep);
      if keep(s[0]) {
        var r := [s[0]] + Filter(s[1..], keep);
        assert r[0] == s[0] && r[1..] == Filter(s[1..], keep);
      }
    }
  }

  /**
   * The jobs the effect publishes. The salary-range test is an own-key test
   * of the `salaryRanges` table (see `FilterEffectAsWritten` for
   * JavaScript's `in`, which also sees inherited names).
   */
  function FilterJobs(allJobs: seq<Job>, searchedQuery: Option<string>): (r: seq<Job>)
    ensures IsSubsequence(r, allJobs)
    ensures !Truthy(searchedQuery) ==> r == allJobs
    ensures Truthy(searchedQuery) && searchedQuery.value in SALARY_RANGES ==>
      forall job :: job in r <==> job in allJobs && SalaryMatches(job, SALARY_RANGES[searchedQuery.value])
    ensures Truthy(searchedQuery) && searchedQuery.value !in SALARY_RANGES ==>
      forall job :: job in r <==> job in allJobs && TextMatches(job, searchedQuery.value)
    // duplicate postings are kept as often as they are listed
    ensures Truthy(searchedQuery) && searchedQuery.value in SALARY_RANGES ==>
      forall job :: multiset(r)[job] ==
        if SalaryMatches(job, SALARY_RANGES[searchedQuery.value]) then multiset(allJobs)[job] else 0
    ensures Truthy(searchedQuery) && searchedQuery.value !in SALARY_RANGES ==>
      forall job :: multiset(r)[job] == if TextMatches(job, searchedQuery.value) then multiset(allJobs)[job] else 0
  {
    if Truthy(searchedQuery) then
      var query := searchedQuery.value;
      if query in SALARY_RANGES then
        var range := SALARY_RANGES[query];
        FilterIsSubsequence(allJobs, job => SalaryMatches(job, range));
        Filter(allJobs, job => SalaryMatches(job, range))
      else
        FilterIsSubsequence(allJobs, job => TextMatches(job, query));
        Filter(allJobs, job => TextMatches(job, query))
    else
      SubsequenceOfItself(allJobs);
      allJobs
  }

  lemma {:induction false} SubsequenceOfItself(s: seq<Job>)
    ensures IsSubsequence(s, s)
    decreases |s|
  {
    if |s| > 0 {
      SubsequenceOfItself(s[1..]);
    }
  }

  /** Filtering the filtered jobs again with the same query gives them back. */
  lemma FilterJobsIdempotent(allJobs: seq<Job>, searchedQuery: Option<string>)
    ensures FilterJobs(FilterJobs(allJobs, searchedQuery), searchedQuery) == FilterJobs(allJobs, searchedQuery)
  {
    if Truthy(searchedQuery) {
      var query := searchedQuery.value;
      if query in SALARY_RANGES {
        var range := SALARY_RANGES[query];
        FilterIdempotent(allJobs, job => SalaryMatches(job, range));
      } else {
        FilterIdempotent(allJobs, job => TextMatches(job, query));
      }
    }
  }

  /** A salary that does not parse (`NaN`) keeps a job out of every band. */
  lemma UnparsableSalaryInNoBand(allJobs: seq<Job>, key: string, job: Job)
    requires key in SALARY_RANGES
    requires ParseInt(job.salary).None?
    ensures job !in FilterJobs(allJobs, Some(key))
  {
  }

  /** A listed job whose salary lies in a band is kept when that band is searched. */
  lemma KeptByBand(allJobs: seq<Job>, job: Job, key: string)
    requires key in SALARY_RANGES && job in allJobs
    requires SalaryMatches(job, SALARY_RANGES[key])
    ensures job in FilterJobs(allJobs, Some(key))
  {
  }

  /** The band boundaries belong to both adjacent bands. */
  lemma BoundariesInTwoBands(allJobs: seq<Job>, job: Job)
    requires job in allJobs
    ensures ParseInt(job.salary) == Some(30000) ==>
      job in FilterJobs(allJobs, Some("0-30k")) && job in FilterJobs(allJobs, Some("30-60k"))
    ensures ParseInt(job.salary) == Some(60000) ==>
      job in FilterJobs(allJobs, Some("30-60k")) && job in FilterJobs(allJobs, Some("60k-1LPA"))
    ensures ParseInt(job.salary) == Some(100000) ==>
      job in FilterJobs(allJobs, Some("60k-1LPA")) && job in FilterJobs(allJobs, Some("1LPA above"))
  {
    var salary := ParseInt(job.salary);
    SalaryRangesTable();
    if salary == Some(30000) {
      KeptByTwoBands(allJobs, job, "0-30k", "30-60k", 30000);
    } else if salary == Some(60000) {
      KeptByTwoBands(allJobs, job, "30-60k", "60k-1LPA", 60000);
    } else if salary == Some(100000) {
      KeptByTwoBands(allJobs, job, "60k-1LPA", "1LPA above", 100000);
    }
  }

  /** The four rows of the `salaryRanges` table. */
  lemma SalaryRangesTable()
    ensures "0-30k" in SALARY_RANGES && SALARY_RANGES["0-30k"] == SalaryRange(0, Some(30000))
    ensures "30-60k" in SALARY_RANGES && SALARY_RANGES["30-60k"] == SalaryRange(30000, Some(60000))
    ensures "60k-1LPA" in SALARY_RANGES && SALARY_RANGES["60k-1LPA"] == SalaryRange(60000, Some(100000))
    ensures "1LPA above" in SALARY_RANGES && SALARY_RANGES["1LPA above"] == SalaryRange(100000, None)
  {
  }

  lemma KeptByTwoBands(allJobs: seq<Job>, job: Job, lower: string, upper: string, salary: int)
    requires lower in SALARY_RANGES && upper in SALARY_RANGES && job in allJobs
    requires ParseInt(job.salary) == Some(salary)
    requires InRange(Some(salary), SALARY_RANGES[lower]) && InRange(Some(salary), SALARY_RANGES[upper])
    ensures job in FilterJobs(allJobs, Some(lower)) && job in FilterJobs(allJobs, Some(upper))
  {
    KeptByBand(allJobs, job, lower);
    KeptByBand(allJobs, job, upper);
  }

  /** "1LPA above" has no upper bound. */
  lemma TopBandUnbounded(allJobs: seq<Job>, job: Job, salary: int)
    requires job in allJobs && salary >= 100000
    requires ParseInt(job.salary) == Some(salary)
    ensures job in FilterJobs(allJobs, Some("1LPA above"))
  {
    KeptByBand(allJobs, job, "1LPA above");
  }

  /** A job whose salary text is the rendering of a salary in a band is kept by that band. */
  lemma RenderedSalaryInBand(allJobs: seq<Job>, job: Job, key: string, salary: int)
    requires key in SALARY_RANGES && job in allJobs
    requires job.salary == IntToString(salary) && InRange(Some(salary), SALARY_RANGES[key])
    ensures job in FilterJobs(allJobs, Some(key))
  {
    ParseIntOfIntToString(salary, "");
    assert job.salary + "" == job.salary;
    assert SalaryMatches(job, SALARY_RANGES[key]);
  }

  /** "Job not found" is shown exactly when no job is left. */
  function ShowsJobNotFound(filterJobs: seq<Job>): (r: bool)
    ensures r <==> filterJobs == []
  {
    |filterJobs| <= 0
  }

  // ---------------------------------------------------------------------------
  // The effect as written: `searchedQuery in salaryRanges`

  /** The property names every object literal inherits from `Object.prototype`. */
  const OBJECT_PROTOTYPE_NAMES: set<string> := {
    "constructor", "hasOwnProperty", "isPrototypeOf", "propertyIsEnumerable",
    "toLocaleString", "toString", "valueOf", "__proto__",
    "__defineGetter__", "__defineSetter__", "__lookupGetter__", "__lookupSetter__"}

  /** JavaScript's `q in salaryRanges`: an own key or an inherited name. */
  predicate InOperator(q: string) {
    q in SALARY_RANGES || q in OBJECT_PROTOTYPE_NAMES
  }

  /** What the effect does: publish a list, or throw. */
  datatype EffectResult = Published(jobs: seq<Job>) | Threw

  /**
   * The effect as written in the jobs page. For an inherited name the lookup
   * `salaryRanges[searchedQuery]` yields a function or `Object.prototype`,
   * and `const [minSalary, maxSalary] = …` throws a TypeError, since
   * neither is iterable.
   */
  function FilterEffectAsWritten(allJobs: seq<Job>, searchedQuery: Option<string>): (r: EffectResult)
    ensures r == Threw <==> Truthy(searchedQuery) && searchedQuery.value in OBJECT_PROTOTYPE_NAMES
    ensures !Truthy(searchedQuery) ==> r == Published(allJobs)
    ensures r.Published? ==> IsSubsequence(r.jobs, allJobs)
  {
    if Truthy(searchedQuery) then
      var query := searchedQuery.value;
      if InOperator(query) then
        if query in SALARY_RANGES then
          BandsAreNotInherited(query);
          var range := SALARY_RANGES[query];
          FilterIsSubsequence(allJobs, job => SalaryMatches(job, range));
          Published(Filter(allJobs, job => SalaryMatches(job, range)))
        else Threw
      else
        FilterIsSubsequence(allJobs, job => TextMatches(job, query));
        Published(Filter(allJobs, job => TextMatches(job, query)))
    else
      SubsequenceOfItself(allJobs);
      Published(allJobs)
  }

  /** Searching for "constructor" makes the effect as written throw instead of searching. */
  lemma AsWrittenThrowsOnInheritedName(allJobs: seq<Job>)
    ensures FilterEffectAsWritten(allJobs, Some("constructor")) == Threw
  {
  }

  lemma InheritedNamesAreNoBands(query: string)
    requires query in OBJECT_PROTOTYPE_NAMES
    ensures query !in SALARY_RANGES
  {
    assert SALARY_RANGES.Keys == {"0-30k", "30-60k", "60k-1LPA", "1LPA above"};
  }

  /** No salary-band key is a name inherited from `Object.prototype`. */
  lemma BandsAreNotInherited(query: string)
    requires query in SALARY_RANGES
    ensures query !in OBJECT_PROTOTYPE_NAMES
  {
    assert SALARY_RANGES.Keys == {"0-30k", "30-60k", "60k-1LPA", "1LPA above"};
  }

  /** The corrected filter treats an inherited name like any other text. */
  lemma InheritedNameIsSearchedAsText(allJobs: seq<Job>, query: string, job: Job)
    requires query in OBJECT_PROTOTYPE_NAMES
    ensures job in FilterJobs(allJobs, Some(query)) <==> job in allJobs && TextMatches(job, query)
  {
    InheritedNamesAreNoBands(query);
  }

  /** Away from the inherited names, the corrected filter is the effect as written. */
  lemma AsWrittenAgreesElsewhere(allJobs: seq<Job>, searchedQuery: Option<string>)
    requires !Truthy(searchedQuery) || searchedQuery.value !in OBJECT_PROTOTYPE_NAMES
    ensures FilterEffectAsWritten(allJobs, searchedQuery) == Published(FilterJobs(allJobs, searchedQuery))
  {
  }
}

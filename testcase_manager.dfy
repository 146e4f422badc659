/** The test-case manager of `core/testcase_manager.py`: the record check,
    creation with its argument and duplicate checks, lookup, update,
    deletion and the sorted listing over the in-memory store, and the
    report counts and old-report selection of `save_test_report`. Files
    are not modelled: whether a record's file is found, and the parsed
    files of a module, are parameters. */
module TestCases {
  import opened Wrappers
  import opened Json
  import opened Records
  import Text
  import Sorting

  /** `_validate_test_case`: the five required keys are present. */
  predicate ValidTestCase(o: Object) {
    HasKey(o, "name") && HasKey(o, "description") && HasKey(o, "module") && HasKey(o, "steps") && HasKey(o, "assertions")
  }

  /** The keys of the record `create_test_case` stores, in insertion order. */
  const TestCaseKeys: seq<string> :=
    ["name", "description", "module", "steps", "assertions", "created_at", "updated_at", "status"]

  /** The record `create_test_case` stores. */
  function NewTestCase(moduleName: string, name: string, description: string, steps: Value, assertions: Value,
                       now: string): (o: Object)
    ensures Named(o, name)
  {
    var vals := [Str(name), Str(description), Str(moduleName), steps, assertions, Str(now), Str(now), Str("active")];
    ZipAt(TestCaseKeys, vals, 0);
    Zip(TestCaseKeys, vals)
  }

  /** The new record passes the record check, has each key once, and is
      'active' as of `now`. */
  lemma NewTestCaseSpec(moduleName: string, name: string, description: string, steps: Value, assertions: Value,
                        now: string)
    ensures var o := NewTestCase(moduleName, name, description, steps, assertions, now);
      && KeysUnique(o) && ValidTestCase(o)
      && Lookup(o, "status") == Some(Str("active")) && Lookup(o, "updated_at") == Some(Str(now))
  {
    var vals := [Str(name), Str(description), Str(moduleName), steps, assertions, Str(now), Str(now), Str("active")];
    ZipUnique(TestCaseKeys, vals);
    ZipHasKey(TestCaseKeys, vals, "description");
    ZipHasKey(TestCaseKeys, vals, "module");
    ZipHasKey(TestCaseKeys, vals, "steps");
    ZipHasKey(TestCaseKeys, vals, "assertions");
    ZipUniqueAt(TestCaseKeys, vals, 6);
    ZipUniqueAt(TestCaseKeys, vals, 7);
  }

  class TestCaseManager {
    const store: Store

    ghost predicate Valid()
      reads this, store
    {
      store.Valid()
    }

    constructor ()
      ensures Valid() && fresh(store) && store.records == map[] && store.modules == []
    {
      store := new Store();
    }

    /** The loading loop of `load_test_cases` for one module directory. */
    method LoadModule(moduleName: string, parsed: seq<Option<Object>>)
      requires Valid()
      modifies store
      ensures Valid()
      ensures store.records == old(store.records)[moduleName := Loaded(parsed, ValidTestCase)]
      ensures store.modules == (if moduleName in old(store.records) then old(store.modules) else old(store.modules) + [moduleName])
    {
      store.LoadModule(moduleName, parsed, ValidTestCase);
    }

    /** `create_test_case`: every argument must be truthy and the name new
        in its module; the new record, with status 'active', is appended to
        the module's list, which is created when missing. */
    method Create(moduleName: string, name: string, description: string, steps: Value, assertions: Value,
                  now: string) returns (ok: bool)
      requires Valid()
      modifies store
      ensures Valid()
      ensures ok <==>
        && moduleName != "" && name != "" && description != "" && Truthy(steps) && Truthy(assertions)
        && old(store.Find(moduleName, name)).None?
      ensures ok ==>
        store.records == old(store.records)[moduleName :=
          (if moduleName in old(store.records) then old(store.records)[moduleName] else []) +
          [NewTestCase(moduleName, name, description, steps, assertions, now)]]
      ensures ok ==>
        store.modules == (if moduleName in old(store.records) then old(store.modules) else old(store.modules) + [moduleName])
      ensures !ok ==> store.records == old(store.records) && store.modules == old(store.modules)
    {
      if moduleName == "" || name == "" || description == "" || !Truthy(steps) || !Truthy(assertions) {
        return false;
      }
      if store.Find(moduleName, name).Some? {
        return false;
      }
      var o := NewTestCase(moduleName, name, description, steps, assertions, now);
      HasKeyExists(o, "name");
      store.Append(moduleName, o);
      ok := true;
    }

    /** `get_test_case` */
    function Get(moduleName: string, name: string): Option<Object>
      reads this, store
    {
      store.Find(moduleName, name)
    }

    /** `update_test_case` */
    method Update(moduleName: string, name: string, updates: Object, fileFound: bool, now: string)
      returns (ok: bool)
      requires Valid() && KeysUnique(updates)
      modifies store
      ensures Valid() && store.modules == old(store.modules)
      ensures ok <==> old(store.Find(moduleName, name)).Some? && AllKnown(old(store.Find(moduleName, name)).value, updates) && fileFound
      ensures old(store.Find(moduleName, name)).None? || !AllKnown(old(store.Find(moduleName, name)).value, updates) ==>
        store.records == old(store.records)
      ensures old(store.Find(moduleName, name)).Some? && AllKnown(old(store.Find(moduleName, name)).value, updates) ==>
        var rs, i := old(store.records)[moduleName], FindNamed(old(store.records)[moduleName], name).value;
        var u := Updated(rs[i], updates, now);
        store.records == old(store.records)[moduleName := if fileFound then ReplaceFirstNamed(rs[i := u], name, u) else rs[i := u]]
    {
      ok := store.UpdateNamed(moduleName, name, updates, fileFound, now);
    }

    /** `delete_test_case` */
    method Delete(moduleName: string, name: string, fileFound: bool) returns (ok: bool)
      requires Valid()
      modifies store
      ensures Valid() && store.modules == old(store.modules)
      ensures ok <==> old(store.Find(moduleName, name)).Some? && fileFound
      ensures ok ==> store.records == old(store.records)[moduleName := DropNamed(old(store.records)[moduleName], name)]
      ensures !ok ==> store.records == old(store.records)
    {
      ok := store.DeleteNamed(moduleName, name, fileFound);
    }

    /** `get_test_cases` */
    function List(moduleName: Option<string>, status: Option<string>): seq<Object>
      reads this, store
    {
      store.List(moduleName, status)
    }
  }

  /* ------------------------------------------------------------ reports */

  /** The counts of `save_test_report`. */
  datatype ReportCounts = ReportCounts(total: nat, passed: nat, failed: nat, duration: int)

  /** The number of results whose status is `status`. */
  function CountStatus(results: seq<Object>, status: string): nat {
    if results == [] then 0
    else (if Lookup(results[0], "status") == Some(Str(status)) then 1 else 0) + CountStatus(results[1..], status)
  }

  /** A value `sum` adds: a number (`bool` counts as 0 or 1). */
  predicate Numeric(v: Value) {
    v.Int? || v.Bool?
  }

  function NumberOf(v: Value): int
    requires Numeric(v)
  {
    match v
    case Int(i) => i
    case Bool(b) => if b then 1 else 0
  }

  /** `sum(r['duration'] for r in results)` */
  function TotalDuration(results: seq<Object>): int
    requires forall i :: 0 <= i < |results| ==> Numeric(Get(results[i], "duration"))
  {
    if results == [] then 0
    else NumberOf(Get(results[0], "duration")) + TotalDuration(results[1..])
  }

  /** The counts and the total duration of a report, or `None` when a
      result lacks the `status` or `duration` key, or has a duration that
      is not a number, and building the report raises. */
  function Summarize(results: seq<Object>): (r: Option<ReportCounts>)
    ensures r.Some? <==> forall i :: 0 <= i < |results| ==>
      HasKey(results[i], "status") && HasKey(results[i], "duration") && Numeric(Get(results[i], "duration"))
    ensures r.Some? ==> r.value.total == |results|
  {
    if forall i :: 0 <= i < |results| ==>
         HasKey(results[i], "status") && HasKey(results[i], "duration") && Numeric(Get(results[i], "duration"))
    then Some(ReportCounts(|results|, CountStatus(results, "passed"), CountStatus(results, "failed"), TotalDuration(results)))
    else None
  }

  /** When every duration lies between 0 and `most`, so does each
      result's share of the total. */
  lemma {:induction false} DurationBounded(results: seq<Object>, most: int)
    requires forall i :: 0 <= i < |results| ==> Numeric(Get(results[i], "duration"))
    requires forall i :: 0 <= i < |results| ==> 0 <= NumberOf(Get(results[i], "duration")) <= most
    ensures 0 <= TotalDuration(results) <= most * |results|
  {
    if results != [] {
      DurationBounded(results[1..], most);
    }
  }

  /** No result is counted both passed and failed: together they never
      exceed the total. */
  lemma {:induction false} CountsBounded(results: seq<Object>)
    ensures CountStatus(results, "passed") + CountStatus(results, "failed") <= |results|
  {
    if results != [] {
      CountsBounded(results[1..]);
    }
  }

  lemma SummaryBounded(results: seq<Object>)
    requires Summarize(results).Some?
    ensures Summarize(results).value.passed + Summarize(results).value.failed <= Summarize(results).value.total
  {
    CountsBounded(results);
  }

  /** A file of the report directory and its modification time. */
  datatype ReportFile = ReportFile(name: string, mtime: int)

  predicate IsReport(f: ReportFile) {
    Text.StartsWith(f.name, "report_") && Text.EndsWith(f.name, ".json")
  }

  function Reports(files: seq<ReportFile>): (r: seq<ReportFile>)
    ensures forall f :: f in r <==> f in files && IsReport(f)
  {
    if files == [] then []
    else
      assert forall f :: f in files[1..] ==> f in files;
      (if IsReport(files[0]) then [files[0]] else []) + Reports(files[1..])
  }

  function MTime(f: ReportFile): int { f.mtime }

  predicate IntLe(a: int, b: int) { a <= b }

  /** The reports newest first. */
  function Newest(files: seq<ReportFile>): seq<ReportFile> {
    Sorting.SortDescending(Reports(files), MTime, IntLe)
  }

  /** `_clean_old_reports`: the reports after the `keepCount` newest. */
  function OldReports(files: seq<ReportFile>, keepCount: nat): seq<ReportFile> {
    var sorted := Newest(files);
    if keepCount >= |sorted| then [] else sorted[keepCount..]
  }

  /** Only reports are removed, all but the `keepCount` newest of them, and
      none of them is newer than a report that is kept. */
  lemma OldReportsSpec(files: seq<ReportFile>, keepCount: nat)
    ensures forall f :: f in OldReports(files, keepCount) ==> f in files && IsReport(f)
    ensures |OldReports(files, keepCount)| == if keepCount >= |Reports(files)| then 0 else |Reports(files)| - keepCount
    ensures var sorted := Newest(files);
      forall i, j :: 0 <= i < keepCount && keepCount <= j < |sorted| ==> sorted[j].mtime <= sorted[i].mtime
    ensures multiset(Newest(files)) == multiset(Reports(files))
  {
    var sorted := Newest(files);
    assert Sorting.TotalPreorder(IntLe);
    Sorting.SortSorted(Reports(files), MTime, IntLe);
    Sorting.SortPermutes(Reports(files), MTime, IntLe);
    forall f | f in OldReports(files, keepCount) ensures f in files && IsReport(f) {
      assert f in sorted;
      assert f in multiset(Reports(files));
    }
  }
}

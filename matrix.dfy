/** Matrix expansion: one gtest registration per (engine, test case) pair,
    engines in the order the runtime lists them, tests in suite order. */
module Matrix {
  import opened Suite

  const SuitePrefix := "HttpTest_"

  /** The registration for one engine and one test: gtest suite
      "HttpTest_<engine>", the test's own name, and a fixture bound to the
      engine, the suite's runtime and the test. */
  function Entry(engine: string, test: TestCase, runtime: Runtime): Registration
  {
    Registration(SuitePrefix + engine, test.name, DynamicTest(engine, runtime, test))
  }

  /** The registrations of one engine, in suite order. */
  function Row(engine: string, tests: seq<TestCase>, runtime: Runtime): (r: seq<Registration>)
    ensures |r| == |tests|
    decreases |tests|
  {
    if tests == [] then []
    else Row(engine, tests[..|tests| - 1], runtime) + [Entry(engine, tests[|tests| - 1], runtime)]
  }

  /** One registration per test, in suite order: entry k of an engine's row
      is that engine's registration of test k. */
  lemma {:induction false} RowAt(engine: string, tests: seq<TestCase>, runtime: Runtime)
    ensures forall k :: 0 <= k < |tests| ==> Row(engine, tests, runtime)[k] == Entry(engine, tests[k], runtime)
    decreases |tests|
  {
    if tests != [] {
      var front := tests[..|tests| - 1];
      RowAt(engine, front, runtime);
      assert Row(engine, tests, runtime) == Row(engine, front, runtime) + [Entry(engine, tests[|tests| - 1], runtime)];
    }
  }

  /** The whole matrix: the rows of the engines, one after the other. */
  function Expand(engines: seq<string>, tests: seq<TestCase>, runtime: Runtime): seq<Registration>
    decreases |engines|
  {
    if engines == [] then []
    else Expand(engines[..|engines| - 1], tests, runtime) + Row(engines[|engines| - 1], tests, runtime)
  }

  lemma {:induction false} ExpandLength(engines: seq<string>, tests: seq<TestCase>, runtime: Runtime)
    ensures |Expand(engines, tests, runtime)| == |engines| * |tests|
    decreases |engines|
  {
    if engines != [] {
      var m, n := |engines|, |tests|;
      ExpandLength(engines[..m - 1], tests, runtime);
      assert (m - 1) * n + n == m * n;
    }
  }

  /** Engine-major, test-minor order: the entry at i * |tests| + j belongs to
      engine i and test j. */
  lemma {:induction false} ExpandAt(engines: seq<string>, tests: seq<TestCase>, runtime: Runtime, i: nat, j: nat)
    requires i < |engines| && j < |tests|
    ensures i * |tests| + j < |Expand(engines, tests, runtime)|
    ensures Expand(engines, tests, runtime)[i * |tests| + j] == Entry(engines[i], tests[j], runtime)
    decreases |engines|
  {
    var m, n := |engines|, |tests|;
    var prefix := engines[..m - 1];
    var front, row := Expand(prefix, tests, runtime), Row(engines[m - 1], tests, runtime);
    assert Expand(engines, tests, runtime) == front + row;
    ExpandLength(prefix, tests, runtime);
    var k := i * n + j;
    if i < m - 1 {
      ExpandAt(prefix, tests, runtime, i, j);
      assert k < |front|;
      assert (front + row)[k] == front[k];
    } else {
      assert k == |front| + j;
      RowAt(engines[m - 1], tests, runtime);
      assert (front + row)[k] == row[j];
    }
  }

  /** Position i * |tests| + j of `regs` exists and holds engine i's registration of test j. */
  predicate EntryAt(regs: seq<Registration>, engines: seq<string>, tests: seq<TestCase>, runtime: Runtime, i: nat, j: nat)
    requires i < |engines| && j < |tests|
  {
    var k := i * |tests| + j;
    k < |regs| && regs[k] == Entry(engines[i], tests[j], runtime)
  }

  /** ExpandAt for every engine and test at once: no engine gets only part of the tests. */
  lemma ExpandAllAt(engines: seq<string>, tests: seq<TestCase>, runtime: Runtime)
    ensures forall i: nat, j: nat | i < |engines| && j < |tests| ::
              EntryAt(Expand(engines, tests, runtime), engines, tests, runtime, i, j)
  {
    forall i: nat, j: nat | i < |engines| && j < |tests|
      ensures EntryAt(Expand(engines, tests, runtime), engines, tests, runtime, i, j)
    {
      ExpandAt(engines, tests, runtime, i, j);
    }
  }

  /** Nothing outside the cross product: every entry is the registration of
      one listed engine with one listed test. */
  lemma {:induction false} ExpandOrigin(engines: seq<string>, tests: seq<TestCase>, runtime: Runtime)
    ensures forall r <- Expand(engines, tests, runtime) ::
              r.fixture.engine in engines && r.fixture.test in tests &&
              r == Entry(r.fixture.engine, r.fixture.test, runtime)
    decreases |engines|
  {
    if engines != [] {
      var prefix := engines[..|engines| - 1];
      ExpandOrigin(prefix, tests, runtime);
      RowAt(engines[|engines| - 1], tests, runtime);
      forall r <- Expand(engines, tests, runtime)
        ensures r.fixture.engine in engines && r.fixture.test in tests
        ensures r == Entry(r.fixture.engine, r.fixture.test, runtime)
      {
        if r in Expand(prefix, tests, runtime) {
          assert r.fixture.engine in prefix;
        }
      }
    }
  }

  lemma SuiteNameInjective(e: string, f: string)
    requires SuitePrefix + e == SuitePrefix + f
    ensures e == f
  {
    assert e == (SuitePrefix + e)[|SuitePrefix|..];
    assert f == (SuitePrefix + f)[|SuitePrefix|..];
  }

  predicate Distinct<T(==)>(s: seq<T>)
  {
    forall p, q :: 0 <= p < q < |s| ==> s[p] != s[q]
  }

  function Names(tests: seq<TestCase>): (names: seq<string>)
    ensures |names| == |tests|
  {
    seq(|tests|, k requires 0 <= k < |tests| => tests[k].name)
  }

  /** No two registrations share both the gtest suite name and the test name. */
  predicate IdsDistinct(regs: seq<Registration>)
  {
    forall p, q :: 0 <= p < q < |regs| ==>
      regs[p].suiteName != regs[q].suiteName || regs[p].testName != regs[q].testName
  }

  lemma RowIdsDistinct(engine: string, tests: seq<TestCase>, runtime: Runtime)
    requires Distinct(Names(tests))
    ensures IdsDistinct(Row(engine, tests, runtime))
  {
    var row := Row(engine, tests, runtime);
    RowAt(engine, tests, runtime);
    forall p, q | 0 <= p < q < |row|
      ensures row[p].suiteName != row[q].suiteName || row[p].testName != row[q].testName
    {
      assert Names(tests)[p] != Names(tests)[q];
    }
  }

  lemma AppendIdsDistinct(front: seq<Registration>, back: seq<Registration>)
    requires IdsDistinct(front) && IdsDistinct(back)
    requires forall r <- front, s <- back :: r.suiteName != s.suiteName
    ensures IdsDistinct(front + back)
  {
    var x := front + back;
    forall p, q | 0 <= p < q < |x|
      ensures x[p].suiteName != x[q].suiteName || x[p].testName != x[q].testName
    {
      if q < |front| {
        assert x[p] == front[p] && x[q] == front[q];
      } else if p >= |front| {
        assert x[p] == back[p - |front|] && x[q] == back[q - |front|];
      } else {
        assert x[p] == front[p] && x[q] == back[q - |front|];
      }
    }
  }

  /** Distinct engines and distinct test names give distinct
      (suite name, test name) pairs, so every registration is attributable. */
  lemma {:induction false} ExpandIdsDistinct(engines: seq<string>, tests: seq<TestCase>, runtime: Runtime)
    requires Distinct(engines) && Distinct(Names(tests))
    ensures IdsDistinct(Expand(engines, tests, runtime))
    decreases |engines|
  {
    if engines != [] {
      var m := |engines|;
      var prefix, last := engines[..m - 1], engines[m - 1];
      var front, row := Expand(prefix, tests, runtime), Row(last, tests, runtime);
      ExpandIdsDistinct(prefix, tests, runtime);
      RowIdsDistinct(last, tests, runtime);
      RowAt(last, tests, runtime);
      ExpandOrigin(prefix, tests, runtime);
      forall r <- front, s <- row
        ensures r.suiteName != s.suiteName
      {
        var e := r.fixture.engine;
        var t :| 0 <= t < |prefix| && prefix[t] == e;
        assert engines[t] != engines[m - 1];
        if r.suiteName == s.suiteName {
          SuiteNameInjective(e, last);
        }
      }
      AppendIdsDistinct(front, row);
    }
  }

  lemma RowSnoc(engine: string, tests: seq<TestCase>, runtime: Runtime, j: nat)
    requires j < |tests|
    ensures Row(engine, tests[..j + 1], runtime) == Row(engine, tests[..j], runtime) + [Entry(engine, tests[j], runtime)]
  {
    assert tests[..j + 1][..j] == tests[..j];
  }

  lemma ExpandSnoc(engines: seq<string>, tests: seq<TestCase>, runtime: Runtime, i: nat)
    requires i < |engines|
    ensures Expand(engines[..i + 1], tests, runtime) == Expand(engines[..i], tests, runtime) + Row(engines[i], tests, runtime)
  {
    assert engines[..i + 1][..i] == engines[..i];
  }

  /** The registration loop of RunTests: for each engine, for each test,
      register one test. What it registers is the matrix `Expand`, whose size
      and order ExpandLength and ExpandAllAt give. */
  method RegisterTests(engines: seq<string>, cfg: TestSuite) returns (regs: seq<Registration>)
    ensures regs == Expand(engines, cfg.tests, cfg.runtime)
  {
    regs := [];
    for i := 0 to |engines|
      invariant regs == Expand(engines[..i], cfg.tests, cfg.runtime)
    {
      var engine := engines[i];
      ghost var before := regs;
      for j := 0 to |cfg.tests|
        invariant regs == before + Row(engine, cfg.tests[..j], cfg.runtime)
      {
        RowSnoc(engine, cfg.tests, cfg.runtime, j);
        regs := regs + [Entry(engine, cfg.tests[j], cfg.runtime)];
      }
      assert cfg.tests[..|cfg.tests|] == cfg.tests;
      ExpandSnoc(engines, cfg.tests, cfg.runtime, i);
    }
    assert engines[..|engines|] == engines;
  }
}

/**
 * The categorised pass/fail report (`format_scan_to_categorized_report` in
 * backend/app/utils/report_formatter.py): every alert row is filed under the first of
 * four vulnerability categories it matches, by CWE id or by a name pattern, or left
 * uncategorised; each category becomes a test that passes when it has no high and no
 * medium rows; the active tests (SQL injection, XSS) are only run by a full scan; the
 * overall verdict passes when every test that ran passed.
 */
module ReportCategories {
  import opened Wrappers
  import opened Text
  import opened ScanModel
  import opened ScanIngest
  import opened ReportFormatter

  /** The four categories, in the order they are tried. */
  datatype Category = Sqli | Xss | Headers | Redirects

  function Order(c: Category): nat {
    match c
    case Sqli => 0
    case Xss => 1
    case Headers => 2
    case Redirects => 3
  }

  function CweIds(c: Category): seq<string> {
    match c
    case Sqli => ["89"]
    case Xss => ["79", "80"]
    case Headers => ["16", "693", "1021"]
    case Redirects => ["601"]
  }

  function Patterns(c: Category): seq<string> {
    match c
    case Sqli => ["sql injection", "sql", "database", "blind sql"]
    case Xss => ["cross site scripting", "xss", "cross-site scripting", "script injection"]
    case Headers => ["header", "content security policy", "csp", "x-frame-options", "x-content-type-options",
                     "strict-transport-security", "hsts", "x-xss-protection", "permissions policy", "referrer-policy"]
    case Redirects => ["redirect", "open redirect", "unvalidated redirect"]
  }

  /** SQL injection and XSS need active testing, which only a full scan does. */
  predicate RequiresActive(c: Category) {
    c == Sqli || c == Xss
  }

  /** `alert.cwe_id or ""`. */
  function CweOf(a: ScanAlert): string {
    OrDefault(a.cweId, "")
  }

  /** Some pattern occurs in the (lowered) name. */
  predicate NameMatches(name: string, patterns: seq<string>) {
    exists i :: 0 <= i < |patterns| && Contains(name, patterns[i])
  }

  /** A row matches a category by its CWE id or by a pattern in its lowered name. */
  predicate Matches(a: ScanAlert, c: Category) {
    CweOf(a) in CweIds(c) || NameMatches(Lower(a.alertName), Patterns(c))
  }

  /** The category a row is filed under: the first one, in order, that it matches. */
  function CategoryOf(a: ScanAlert): Option<Category> {
    if Matches(a, Sqli) then Some(Sqli)
    else if Matches(a, Xss) then Some(Xss)
    else if Matches(a, Headers) then Some(Headers)
    else if Matches(a, Redirects) then Some(Redirects)
    else None
  }

  /** A row is filed under a category it matches, and matches none tried before it; it is left out only when it matches none. */
  lemma CategoryOfFirst(a: ScanAlert)
    ensures CategoryOf(a).Some? ==> Matches(a, CategoryOf(a).value)
    ensures CategoryOf(a).Some? ==> forall d :: Order(d) < Order(CategoryOf(a).value) ==> !Matches(a, d)
    ensures CategoryOf(a).None? <==> forall c :: !Matches(a, c)
  {
    if CategoryOf(a).None? {
      forall c
        ensures !Matches(a, c)
      {
        match c
        case Sqli =>
        case Xss =>
        case Headers =>
        case Redirects =>
      }
    }
  }

  /** A row without a CWE id can only match by name. */
  lemma NoCweMatchesByName(a: ScanAlert, c: Category)
    requires a.cweId.None?
    ensures Matches(a, c) <==> NameMatches(Lower(a.alertName), Patterns(c))
  {
    assert CweOf(a) == "";
  }

  /**
   * The "x-xss-protection" header pattern never decides: a name containing it also
   * contains "xss", and the XSS category is tried before the headers category.
   */
  lemma XssProtectionNotAHeader(a: ScanAlert)
    requires Contains(Lower(a.alertName), "x-xss-protection")
    ensures CategoryOf(a) == Some(Sqli) || CategoryOf(a) == Some(Xss)
  {
    ContainsPart(Lower(a.alertName), "x-xss-protection", 2, 5);
    assert "x-xss-protection"[2..5] == Patterns(Xss)[1];
    assert Matches(a, Xss);
  }

  /** The rows filed under category `c`, in input order. */
  function InCategory(alerts: seq<ScanAlert>, c: Category): seq<ScanAlert> {
    if alerts == [] then []
    else
      var last := alerts[|alerts| - 1];
      InCategory(alerts[..|alerts| - 1], c) + (if CategoryOf(last) == Some(c) then [last] else [])
  }

  /** The rows no category matches, in input order. */
  function Uncategorized(alerts: seq<ScanAlert>): seq<ScanAlert> {
    if alerts == [] then []
    else
      var last := alerts[|alerts| - 1];
      Uncategorized(alerts[..|alerts| - 1]) + (if CategoryOf(last).None? then [last] else [])
  }

  /** A category's list holds exactly the rows filed under it. */
  lemma {:induction false} InCategoryIn(alerts: seq<ScanAlert>, c: Category)
    ensures forall a :: a in InCategory(alerts, c) <==> a in alerts && CategoryOf(a) == Some(c)
  {
    if alerts != [] {
      var prefix := alerts[..|alerts| - 1];
      InCategoryIn(prefix, c);
      assert alerts == prefix + [alerts[|alerts| - 1]];
    }
  }

  /** The uncategorised list holds exactly the rows filed under no category, which by `CategoryOfFirst` are the rows no category matches. */
  lemma {:induction false} UncategorizedIn(alerts: seq<ScanAlert>)
    ensures forall a :: a in Uncategorized(alerts) <==> a in alerts && CategoryOf(a).None?
  {
    if alerts != [] {
      var prefix := alerts[..|alerts| - 1];
      UncategorizedIn(prefix);
      assert alerts == prefix + [alerts[|alerts| - 1]];
    }
  }

  /** A row is filed in exactly one of the five lists. */
  lemma FiledOnce(o: Option<Category>)
    ensures (if o == Some(Sqli) then 1 else 0) + (if o == Some(Xss) then 1 else 0) + (if o == Some(Headers) then 1 else 0)
            + (if o == Some(Redirects) then 1 else 0) + (if o.None? then 1 else 0) == 1
  {
    match o
    case None =>
    case Some(c) =>
      match c
      case Sqli =>
      case Xss =>
      case Headers =>
      case Redirects =>
  }

  /** Every row lands in exactly one list, so the five lists together are as long as the input. */
  lemma {:induction false} PartitionSizes(alerts: seq<ScanAlert>)
    ensures |InCategory(alerts, Sqli)| + |InCategory(alerts, Xss)| + |InCategory(alerts, Headers)|
            + |InCategory(alerts, Redirects)| + |Uncategorized(alerts)| == |alerts|
  {
    if alerts != [] {
      var prefix, last := alerts[..|alerts| - 1], alerts[|alerts| - 1];
      PartitionSizes(prefix);
      SplitLast(alerts);
      CategorizeStep(prefix, last);
      FiledOnce(CategoryOf(last));
    }
  }

  /** The four category lists. */
  datatype Buckets = Buckets(sqli: seq<ScanAlert>, xss: seq<ScanAlert>, headers: seq<ScanAlert>, redirects: seq<ScanAlert>) {
    function At(c: Category): seq<ScanAlert> {
      match c
      case Sqli => sqli
      case Xss => xss
      case Headers => headers
      case Redirects => redirects
    }

    /** `category["alerts"].append(alert)`. */
    function Add(c: Category, a: ScanAlert): (r: Buckets)
      ensures r.At(c) == At(c) + [a]
      ensures forall d :: d != c ==> r.At(d) == At(d)
    {
      match c
      case Sqli => this.(sqli := sqli + [a])
      case Xss => this.(xss := xss + [a])
      case Headers => this.(headers := headers + [a])
      case Redirects => this.(redirects := redirects + [a])
    }
  }

  /** The category lists of a whole batch. */
  function Categorized(alerts: seq<ScanAlert>): Buckets {
    Buckets(InCategory(alerts, Sqli), InCategory(alerts, Xss), InCategory(alerts, Headers), InCategory(alerts, Redirects))
  }

  /** One more row extends the list of its category, or the uncategorised list, and nothing else. */
  lemma CategorizeStep(alerts: seq<ScanAlert>, a: ScanAlert)
    ensures forall c :: InCategory(alerts + [a], c) == InCategory(alerts, c) + (if CategoryOf(a) == Some(c) then [a] else [])
    ensures Uncategorized(alerts + [a]) == Uncategorized(alerts) + (if CategoryOf(a).None? then [a] else [])
  {
    var next := alerts + [a];
    assert next[..|next| - 1] == alerts && next[|next| - 1] == a;
  }

  /** `buckets` and `uncategorized` are the lists of `alerts`. */
  ghost predicate Filed(alerts: seq<ScanAlert>, buckets: Buckets, uncategorized: seq<ScanAlert>) {
    && (forall c :: buckets.At(c) == InCategory(alerts, c))
    && uncategorized == Uncategorized(alerts)
  }

  /** Filing one more row under its category, or as uncategorised, keeps the lists those of the longer batch. */
  lemma FileStep(alerts: seq<ScanAlert>, a: ScanAlert, buckets: Buckets, uncategorized: seq<ScanAlert>)
    requires Filed(alerts, buckets, uncategorized)
    ensures CategoryOf(a).Some? ==> Filed(alerts + [a], buckets.Add(CategoryOf(a).value, a), uncategorized)
    ensures CategoryOf(a).None? ==> Filed(alerts + [a], buckets, uncategorized + [a])
  {
    CategorizeStep(alerts, a);
  }

  /** The categorisation loop: each row goes to the first category it matches, or to the uncategorised list. */
  method CategorizeAlerts(alerts: seq<ScanAlert>) returns (buckets: Buckets, uncategorized: seq<ScanAlert>)
    ensures forall c :: buckets.At(c) == InCategory(alerts, c)
    ensures uncategorized == Uncategorized(alerts)
  {
    buckets := Buckets([], [], [], []);
    uncategorized := [];
    var i := 0;
    while i < |alerts|
      invariant 0 <= i <= |alerts|
      invariant Filed(alerts[..i], buckets, uncategorized)
    {
      var alert := alerts[i];
      PrefixStep(alerts, i);
      FileStep(alerts[..i], alert, buckets, uncategorized);
      match CategoryOf(alert) {
        case Some(c) =>
          buckets := buckets.Add(c, alert);
        case None =>
          uncategorized := uncategorized + [alert];
      }
      i := i + 1;
    }
    assert alerts[..i] == alerts;
  }

  /** No row of `rows` is at level `l` exactly when none is counted at `l`. */
  lemma {:induction false} CountAtZero(rows: seq<ScanAlert>, l: RiskLevel)
    ensures CountAt(rows, l) == 0 <==> forall a :: a in rows ==> a.riskLevel != l
  {
    if rows != [] {
      var prefix := rows[..|rows| - 1];
      CountAtZero(prefix, l);
      assert rows == prefix + [rows[|rows| - 1]];
    }
  }

  /** One category's test: whether it ran, its verdict, its counters and its rows. */
  datatype TestResult = TestResult(
    status: string,
    passed: Option<bool>,
    tested: bool,
    totalIssues: nat,
    highRisk: nat,
    mediumRisk: nat,
    lowRisk: nat,
    informational: nat,
    issues: seq<ScanAlert>)

  /**
   * The test of category `c` over its rows. An active test on a scan that is not full
   * did not run: "not_tested", no verdict, zero counters and no rows. Otherwise it
   * fails on any high or medium row.
   */
  function TestOf(c: Category, rows: seq<ScanAlert>, isFull: bool): (r: TestResult)
    ensures RequiresActive(c) && !isFull ==> r == TestResult("not_tested", None, false, 0, 0, 0, 0, 0, [])
    ensures !RequiresActive(c) || isFull ==> r.tested && r.passed.Some? && r.issues == rows && r.totalIssues == |rows|
  {
    if RequiresActive(c) && !isFull then
      TestResult("not_tested", None, false, 0, 0, 0, 0, 0, [])
    else
      var high, medium := CountAt(rows, High), CountAt(rows, Medium);
      var passed := high == 0 && medium == 0;
      TestResult(if passed then "passed" else "failed", Some(passed), true, |rows|,
                 high, medium, CountAt(rows, Low), CountAt(rows, Informational), rows)
  }

  /**
   * A test that ran counts each of its rows under exactly one level, and passes, with
   * status "passed", exactly when none of its rows is high or medium.
   */
  lemma TestVerdict(c: Category, rows: seq<ScanAlert>, isFull: bool)
    requires Runs(c, isFull)
    ensures var r := TestOf(c, rows, isFull);
      && r.highRisk + r.mediumRisk + r.lowRisk + r.informational == r.totalIssues
      && (r.passed.value <==> NoHighOrMedium(rows))
      && r.status == (if r.passed.value then "passed" else "failed")
  {
    TallyTotal(rows);
    CountAtZero(rows, High);
    CountAtZero(rows, Medium);
  }

  /** The four tests, in category order. */
  function TestsOf(b: Buckets, isFull: bool): seq<TestResult> {
    [TestOf(Sqli, b.sqli, isFull), TestOf(Xss, b.xss, isFull), TestOf(Headers, b.headers, isFull),
     TestOf(Redirects, b.redirects, isFull)]
  }

  /** The overall verdict. */
  datatype Overall = Overall(passed: bool, status: string, criticalIssues: nat, message: string)

  /** `all(test["passed"] for the tests that ran, when the verdict is not None)`. */
  predicate AllTestedPassed(tests: seq<TestResult>) {
    forall i :: 0 <= i < |tests| && tests[i].tested && tests[i].passed.Some? ==> tests[i].passed.value
  }

  /** The sum of the high counters of all tests. */
  function SumHigh(tests: seq<TestResult>): nat {
    if tests == [] then 0 else SumHigh(tests[..|tests| - 1]) + tests[|tests| - 1].highRisk
  }

  const PassedMessage := "All security tests passed! Your website is secure."

  function FailedMessage(critical: nat): string {
    "Security issues detected! Found " + NatToString(critical) + " critical vulnerabilities."
  }

  /** The overall block: passed when every test that ran passed, with the high rows of all tests as critical issues. */
  function OverallOf(tests: seq<TestResult>): (r: Overall)
    ensures r.passed == AllTestedPassed(tests)
    ensures r.status == (if r.passed then "passed" else "failed")
    ensures r.message == (if r.passed then PassedMessage else FailedMessage(r.criticalIssues))
    ensures r.criticalIssues == SumHigh(tests)
  {
    var passed := AllTestedPassed(tests);
    var critical := SumHigh(tests);
    Overall(passed, if passed then "passed" else "failed", critical,
            if passed then PassedMessage else FailedMessage(critical))
  }

  /** The categories whose test runs on a scan of this kind. */
  predicate Runs(c: Category, isFull: bool) {
    !RequiresActive(c) || isFull
  }

  /** No row is high or medium. */
  predicate NoHighOrMedium(rows: seq<ScanAlert>) {
    forall a :: a in rows ==> a.riskLevel != High && a.riskLevel != Medium
  }

  /** The tests that ran all passed exactly when each category that runs has no high or medium row. */
  lemma TestsPassedIff(b: Buckets, isFull: bool)
    ensures AllTestedPassed(TestsOf(b, isFull)) <==> forall c :: Runs(c, isFull) ==> NoHighOrMedium(b.At(c))
  {
    var tests := TestsOf(b, isFull);
    if AllTestedPassed(tests) {
      forall c | Runs(c, isFull)
        ensures NoHighOrMedium(b.At(c))
      {
        TestAt(b, isFull, c);
        TestVerdict(c, b.At(c), isFull);
      }
    } else {
      var i :| 0 <= i < |tests| && tests[i].tested && tests[i].passed.Some? && !tests[i].passed.value;
      var c := CategoryAt(i);
      TestAt(b, isFull, c);
      TestVerdict(c, b.At(c), isFull);
    }
  }

  /** The category whose test is at position `i`. */
  function CategoryAt(i: nat): (c: Category)
    requires i < 4
    ensures Order(c) == i
  {
    if i == 0 then Sqli else if i == 1 then Xss else if i == 2 then Headers else Redirects
  }

  /** Each category's test sits at the category's position. */
  lemma TestAt(b: Buckets, isFull: bool, c: Category)
    ensures Order(c) < 4 && TestsOf(b, isFull)[Order(c)] == TestOf(c, b.At(c), isFull)
  {
    match c
    case Sqli =>
    case Xss =>
    case Headers =>
    case Redirects =>
  }

  /** No row filed under `c` is high or medium. */
  predicate FiledClean(alerts: seq<ScanAlert>, c: Category) {
    forall a :: a in alerts && CategoryOf(a) == Some(c) ==> a.riskLevel != High && a.riskLevel != Medium
  }

  /** A category's rows have no high or medium row exactly when no row filed under it is high or medium. */
  lemma NoHighOrMediumIn(alerts: seq<ScanAlert>, c: Category)
    ensures NoHighOrMedium(Categorized(alerts).At(c)) <==> FiledClean(alerts, c)
  {
    assert Categorized(alerts).At(c) == InCategory(alerts, c) by {
      match c
      case Sqli =>
      case Xss =>
      case Headers =>
      case Redirects =>
    }
    InCategoryIn(alerts, c);
  }

  /** Every category that runs is clean exactly when no row filed under a category that runs is high or medium. */
  lemma CleanIff(alerts: seq<ScanAlert>, isFull: bool)
    ensures (forall c :: Runs(c, isFull) ==> FiledClean(alerts, c)) <==>
      forall a :: a in alerts && CategoryOf(a).Some? && Runs(CategoryOf(a).value, isFull) ==>
        a.riskLevel != High && a.riskLevel != Medium
  {
    if forall c :: Runs(c, isFull) ==> FiledClean(alerts, c) {
      forall a | a in alerts && CategoryOf(a).Some? && Runs(CategoryOf(a).value, isFull)
        ensures a.riskLevel != High && a.riskLevel != Medium
      {
        assert FiledClean(alerts, CategoryOf(a).value);
      }
    }
  }

  /**
   * The overall verdict passes exactly when no row filed under a category whose test
   * ran is high or medium.
   */
  lemma OverallPassedIff(alerts: seq<ScanAlert>, isFull: bool)
    ensures OverallOf(TestsOf(Categorized(alerts), isFull)).passed <==>
      forall a :: a in alerts && CategoryOf(a).Some? && Runs(CategoryOf(a).value, isFull) ==>
        a.riskLevel != High && a.riskLevel != Medium
  {
    var b := Categorized(alerts);
    TestsPassedIff(b, isFull);
    forall c
      ensures NoHighOrMedium(b.At(c)) <==> FiledClean(alerts, c)
    {
      NoHighOrMediumIn(alerts, c);
    }
    CleanIff(alerts, isFull);
  }

  /** The rows counted by a test that ran: those filed under a category that runs on this kind of scan. */
  function Reported(alerts: seq<ScanAlert>, isFull: bool): seq<ScanAlert> {
    if alerts == [] then []
    else
      var last := alerts[|alerts| - 1];
      Reported(alerts[..|alerts| - 1], isFull)
      + (if CategoryOf(last).Some? && Runs(CategoryOf(last).value, isFull) then [last] else [])
  }

  /** The high rows of category `c`'s list when its test runs, none otherwise. */
  function HighIfRun(alerts: seq<ScanAlert>, c: Category, isFull: bool): nat {
    if Runs(c, isFull) then CountAt(InCategory(alerts, c), High) else 0
  }

  /** The sum of the high counters of the four tests, category by category. */
  lemma SumHighOfTests(alerts: seq<ScanAlert>, isFull: bool)
    ensures SumHigh(TestsOf(Categorized(alerts), isFull)) ==
      HighIfRun(alerts, Sqli, isFull) + HighIfRun(alerts, Xss, isFull)
      + HighIfRun(alerts, Headers, isFull) + HighIfRun(alerts, Redirects, isFull)
  {
    var b := Categorized(alerts);
    var t := TestsOf(b, isFull);
    assert SumHigh(t[..1]) == t[0].highRisk by { assert t[..1][..0] == []; }
    assert SumHigh(t[..2]) == SumHigh(t[..1]) + t[1].highRisk by { assert t[..2][..1] == t[..1]; }
    assert SumHigh(t[..3]) == SumHigh(t[..2]) + t[2].highRisk by { assert t[..3][..2] == t[..2]; }
    assert SumHigh(t) == SumHigh(t[..3]) + t[3].highRisk;
    assert t[0].highRisk == HighIfRun(alerts, Sqli, isFull);
    assert t[1].highRisk == HighIfRun(alerts, Xss, isFull);
    assert t[2].highRisk == HighIfRun(alerts, Headers, isFull);
    assert t[3].highRisk == HighIfRun(alerts, Redirects, isFull);
  }

  /** One more row adds one high row to its category's count when its test runs and it is high. */
  lemma HighIfRunStep(alerts: seq<ScanAlert>, a: ScanAlert, c: Category, isFull: bool)
    ensures HighIfRun(alerts + [a], c, isFull) ==
      HighIfRun(alerts, c, isFull) + (if Runs(c, isFull) && CategoryOf(a) == Some(c) && a.riskLevel == High then 1 else 0)
  {
    CategorizeStep(alerts, a);
    CountAtAppend(InCategory(alerts, c), if CategoryOf(a) == Some(c) then [a] else [], High);
  }

  /** One more row adds one high reported row when its category's test runs and it is high. */
  lemma ReportedHighStep(alerts: seq<ScanAlert>, a: ScanAlert, isFull: bool)
    ensures CountAt(Reported(alerts + [a], isFull), High) ==
      CountAt(Reported(alerts, isFull), High)
      + (if CategoryOf(a).Some? && Runs(CategoryOf(a).value, isFull) && a.riskLevel == High then 1 else 0)
  {
    var next := alerts + [a];
    assert next[..|next| - 1] == alerts && next[|next| - 1] == a;
    var extra := if CategoryOf(a).Some? && Runs(CategoryOf(a).value, isFull) then [a] else [];
    assert Reported(next, isFull) == Reported(alerts, isFull) + extra;
    CountAtAppend(Reported(alerts, isFull), extra, High);
  }

  /** A reported high row is counted by exactly the test of its own category. */
  lemma HighOnce(o: Option<Category>, high: bool, isFull: bool)
    ensures (if o.Some? && Runs(o.value, isFull) && high then 1 else 0) ==
      (if Runs(Sqli, isFull) && o == Some(Sqli) && high then 1 else 0)
      + (if Runs(Xss, isFull) && o == Some(Xss) && high then 1 else 0)
      + (if Runs(Headers, isFull) && o == Some(Headers) && high then 1 else 0)
      + (if Runs(Redirects, isFull) && o == Some(Redirects) && high then 1 else 0)
  {
    match o
    case None =>
    case Some(c) =>
      match c
      case Sqli =>
      case Xss =>
      case Headers =>
      case Redirects =>
  }

  /** The high rows among the rows of the tests that ran, category by category. */
  lemma {:induction false} ReportedHighSplit(alerts: seq<ScanAlert>, isFull: bool)
    ensures CountAt(Reported(alerts, isFull), High) ==
      HighIfRun(alerts, Sqli, isFull) + HighIfRun(alerts, Xss, isFull)
      + HighIfRun(alerts, Headers, isFull) + HighIfRun(alerts, Redirects, isFull)
  {
    if alerts != [] {
      var prefix := alerts[..|alerts| - 1];
      var last := alerts[|alerts| - 1];
      assert alerts == prefix + [last];
      ReportedHighSplit(prefix, isFull);
      ReportedHighStep(prefix, last, isFull);
      HighIfRunStep(prefix, last, Sqli, isFull);
      HighIfRunStep(prefix, last, Xss, isFull);
      HighIfRunStep(prefix, last, Headers, isFull);
      HighIfRunStep(prefix, last, Redirects, isFull);
      HighOnce(CategoryOf(last), last.riskLevel == High, isFull);
    }
  }

  /** The critical issues are the high rows among the rows of the tests that ran. */
  lemma CriticalIsReportedHigh(alerts: seq<ScanAlert>, isFull: bool)
    ensures OverallOf(TestsOf(Categorized(alerts), isFull)).criticalIssues == CountAt(Reported(alerts, isFull), High)
  {
    SumHighOfTests(alerts, isFull);
    ReportedHighSplit(alerts, isFull);
  }

  lemma CountAtAppend(rows: seq<ScanAlert>, extra: seq<ScanAlert>, l: RiskLevel)
    requires |extra| <= 1
    ensures CountAt(rows + extra, l) == CountAt(rows, l) + (if extra != [] && extra[0].riskLevel == l then 1 else 0)
  {
    if extra != [] {
      assert (rows + extra)[..|rows|] == rows;
    } else {
      assert rows + extra == rows;
    }
  }

  /** The block of uncategorised rows. */
  datatype OtherVulnerabilities = OtherVulnerabilities(totalIssues: nat, highRisk: nat, mediumRisk: nat, lowRisk: nat,
                                                       informational: nat, issues: seq<ScanAlert>)

  /** The uncategorised rows and their counters, counted one row at a time; the last branch catches everything else. */
  method CountOthers(uncategorized: seq<ScanAlert>) returns (other: OtherVulnerabilities)
    ensures other.issues == uncategorized && other.totalIssues == |uncategorized|
    ensures other.highRisk == CountAt(uncategorized, High) && other.mediumRisk == CountAt(uncategorized, Medium)
    ensures other.lowRisk == CountAt(uncategorized, Low) && other.informational == CountAt(uncategorized, Informational)
    ensures other.highRisk + other.mediumRisk + other.lowRisk + other.informational == other.totalIssues
  {
    var issues: seq<ScanAlert> := [];
    var high, medium, low, info := 0, 0, 0, 0;
    var i := 0;
    while i < |uncategorized|
      invariant 0 <= i <= |uncategorized|
      invariant issues == uncategorized[..i]
      invariant high == CountAt(issues, High) && medium == CountAt(issues, Medium)
      invariant low == CountAt(issues, Low) && info == CountAt(issues, Informational)
    {
      var alert := uncategorized[i];
      assert (issues + [alert])[..|issues|] == issues;
      issues := issues + [alert];
      if alert.riskLevel == High {
        high := high + 1;
      } else if alert.riskLevel == Medium {
        medium := medium + 1;
      } else if alert.riskLevel == Low {
        low := low + 1;
      } else {
        info := info + 1;
      }
      i := i + 1;
    }
    assert issues == uncategorized;
    TallyTotal(issues);
    other := OtherVulnerabilities(|issues|, high, medium, low, info, issues);
  }

  /** The categorised report, without its scan header, summary and site blocks. */
  datatype CategorizedReport = CategorizedReport(tests: seq<TestResult>, overall: Overall, other: OtherVulnerabilities)

  /** Builds the categorised report of a scan of kind `kind` from its rows. */
  method FormatCategorized(alerts: seq<ScanAlert>, kind: ScanType) returns (report: CategorizedReport)
    ensures report.tests == TestsOf(Categorized(alerts), kind == Full)
    ensures report.overall == OverallOf(report.tests)
    ensures report.other.issues == Uncategorized(alerts)
    ensures report.other.totalIssues == |Uncategorized(alerts)|
    ensures report.other.highRisk == CountAt(Uncategorized(alerts), High)
    ensures report.other.mediumRisk == CountAt(Uncategorized(alerts), Medium)
    ensures report.other.lowRisk == CountAt(Uncategorized(alerts), Low)
    ensures report.other.informational == CountAt(Uncategorized(alerts), Informational)
    ensures report.other.totalIssues + report.tests[0].totalIssues + report.tests[1].totalIssues
            + report.tests[2].totalIssues + report.tests[3].totalIssues <= |alerts|
  {
    var isFull := TypeValue(kind) == TypeValue(Full);
    assert isFull == (kind == Full) by {
      match kind
      case Basic =>
      case Full =>
    }
    var buckets, uncategorized := CategorizeAlerts(alerts);
    assert buckets == Categorized(alerts) by {
      assert buckets.At(Sqli) == InCategory(alerts, Sqli);
      assert buckets.At(Xss) == InCategory(alerts, Xss);
      assert buckets.At(Headers) == InCategory(alerts, Headers);
      assert buckets.At(Redirects) == InCategory(alerts, Redirects);
    }
    var tests := TestsOf(buckets, isFull);
    var other := CountOthers(uncategorized);
    PartitionSizes(alerts);
    report := CategorizedReport(tests, OverallOf(tests), other);
  }
}

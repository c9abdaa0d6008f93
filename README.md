# Hack-Your-Own-Web scan ledger and domain ownership, in Dafny

This project models the core of the Hack-Your-Own-Web backend and proves properties of the model. The backend is a web service. A user registers a domain and proves ownership of it through a DNS TXT record. The user then queues OWASP ZAP scans of a target URL; a worker runs each scan and stores the alerts it finds. The backend renders those alerts into reports.

The model is made of these modules, one for each source component:

- **Scan records (`ScanModel`, `ScanSchemas`).** The `scans` and `scan_alerts` rows, their status, type and risk enumerations, and the column defaults. Also the create and update request bodies with their checks.
- **Result ingestion (`ScanIngest`).** Raw engine alerts become one row each, and the rows are tallied by risk level.
- **Scan ledger (`ScanLedger.Ledger`).** A class that holds the scans as a map from id to row and the alert rows as a sequence. Its methods are:
  - admission under the per-user quota of five pending or running scans;
  - lookup with an ownership check;
  - filtered, newest-first, paged listing;
  - partial update;
  - deletion with the alert cascade;
  - cancel requests;
  - per-user statistics.
- **Worker transitions (`ScanTasks`).**
  - A run marks the scan in progress and calls the scanner.
  - On success it stores the batch and its counters, cleans up the scanner context, and completes the scan.
  - If the context clean-up raises after the batch is stored, it fails the scan with that message, keeping the batch.
  - If the scanner raises, it fails the scan with the message.
  - A cancel applies only to a pending or running scan.
- **Report shaping.**
  - `ReportFormatter`: the risk and confidence code tables, grouping by (name, risk, confidence), and the sort by risk rank and then name. The sort is an insertion sort under any total preorder, proved sorted, a permutation and stable. Also the grouping by risk level and name.
  - `ReportCategories`: filing each alert under the first of four vulnerability categories it matches, the pass/fail verdict of each category, the overall verdict and the block of uncategorised alerts.
- **Metrics (`Metrics.MetricsCollector`).** The active-scan table, plus the completed history capped at 1000 entries with oldest-first eviction. Also the integer parts of the summary.
- **Domains.**
  - `DomainUtils`: domain normalisation and the subdomain test.
  - `SiteSchema`: the domain-format regular expression, as a predicate over strings.
  - `TxtToken`: the TXT record token rule.
  - `SiteTable.SiteTable`: the `sites` table with registration, status and verification requests.
  - `DomainVerification`: the verification task.
  - `SiteOwnership`: the ownership check that the test-scan endpoint `POST /test` awaits.
  - `DomainMaintenance`: the periodic maintenance pass.
- **Accounts (`UserRegistry`).** Sign-up, including its replace-unverified rule.

Shared helpers sit in `Text` (ASCII lowering, stripping, substring search, lexicographic order) and `Wrappers` (`Option`, `Result`).

The following are parameters of the operations rather than calls the model makes:

- time: an integer `now`, in seconds;
- the scanner: a function from scan type and URL to either alerts or an exception message;
- the outcome of the scanner-context clean-up: nothing, or the message of the exception it raised;
- the URL type's parser of a create request: a function from the submitted text to its serialised URL, or nothing when the text is not a URL;
- the DNS answer for a domain: a `TxtAnswer`, which is records, no answer, no such domain, or another resolver failure;
- the re-verification resolver of the maintenance pass: a function from domain to `TxtAnswer`;
- the generated tokens, the drawn code digits and the password hash.

Queued Celery tasks are sequences of ids or requests on the table objects. Sent mails are appended to an outbox.

The source has no table constraint that keeps one site row per (domain, user). The model's `Consistent` invariant asks for more: at most one row per (domain, user), and a verified domain has no other row. Every table operation is proved to keep this invariant. Rows that arrive by other routes are not modelled.

## Model

| member | source | states |
|---|---|---|
| ScanModel.ParseStatus | backend/app/models/scan.py:12-17 | a stored status value is read back exactly when it is one of the five values, and it is read as the status that has that value |
| ScanModel.StatusRoundTrip | backend/app/models/scan.py:12-17 | every status's stored value reads back as that status |
| ScanModel.ParseScanType | backend/app/models/scan.py:20-22 | exactly "basic" and "full" are scan types, and each reads as the type with that value |
| ScanModel.ScanTypeRoundTrip | backend/app/models/scan.py:20-22 | every scan type's value reads back as that type |
| ScanModel.ParseRisk | backend/app/models/scan.py:70-74 | exactly the four risk values are risk levels, and each reads as its level |
| ScanModel.RiskRoundTrip | backend/app/models/scan.py:70-74 | every risk level's value reads back as that level |
| ScanModel.NewScan | backend/app/models/scan.py:25-58 | a new row is pending, with progress 0, all counters 0 (so consistent), no step, no task id, no error and no start or completion time; created and updated at `now` |
| ScanModel.WithoutScan | backend/app/models/scan.py:62-67 | the cascade keeps exactly the alert rows of other scans |
| ScanSchemas.ValidateUrl | backend/app/schemas/scan.py:15-20 | a URL is accepted exactly when it starts with "http://" or "https://", and is returned unchanged; otherwise the validator's message |
| ScanSchemas.MakeScanCreate | backend/app/schemas/scan.py:7-20 | text that does not parse as a URL is refused with the URL type's message; a kind other than "basic" or "full" is refused with the enum's message; a create request exists exactly when the text parses, the parsed URL is accepted and the kind, when given, is a scan type; it holds the parsed URL and a valid kind, the kind defaults to basic, and the config is kept |
| ScanSchemas.ParsedUrlPassesValidator | backend/app/schemas/scan.py:8-20 | when the parsed URL has a web scheme, as an http or https URL does, a create request exists exactly when the text parses and the kind is accepted: the validator then refuses nothing |
| ScanSchemas.MakeScanUpdate | backend/app/schemas/scan.py:32-36 | an update exists exactly when a given progress lies in 0..100; every field is kept as given |
| ScanSchemas.EmptyUpdate | backend/app/schemas/scan.py:32-36 | every update field defaults to None, which satisfies the bound |
| ScanIngest.RiskFromRaw | backend/app/tasks/scan_tasks.py:167-182 | "3"/"High" give high, "2"/"Medium" medium, "1"/"Low" low, and every other string informational; each in both directions, case-sensitively |
| ScanIngest.GetTruthy | backend/app/tasks/scan_tasks.py:196-197 | the CWE and WASC ids are present exactly when the key is present and its value is non-empty |
| ScanIngest.RiskOf | backend/app/tasks/scan_tasks.py:181-182 | an alert without a risk is informational |
| ScanIngest.BuildAlert | backend/app/tasks/scan_tasks.py:188-205 | the row belongs to the scan and has the alert's risk; name, confidence and URL default to "Unknown Alert", "Unknown" and "" |
| ScanIngest.BuildAlerts | backend/app/tasks/scan_tasks.py:179-206 | one row per raw alert, in input order, each belonging to the scan |
| ScanIngest.RiskCounts.Bump | backend/app/tasks/scan_tasks.py:185 | counting one alert raises its own level's counter and the total by one and leaves the other levels as they were |
| ScanIngest.TallyTotal | backend/app/tasks/scan_tasks.py:159-185 | the four counters of a batch add up to the number of rows |
| ScanIngest.ProcessAlerts | backend/app/tasks/scan_tasks.py:153-218 | the loop builds exactly the batch's rows and their tally, whose total is the number of raw alerts |
| ScanTasks.Started | backend/app/tasks/scan_tasks.py:69-74 | starting sets in progress, the start time and the Celery task id whatever the earlier status, and keeps the row's identity and results |
| ScanTasks.Tallied | backend/app/tasks/scan_tasks.py:104-106 | the row with the batch's counters stored, which add up to the total; status, progress, times and identity unchanged |
| ScanTasks.Finished | backend/app/tasks/scan_tasks.py:113-118 | a finished row is completed at progress 100 with step "Completed", and its counters are the batch's, which add up to the total |
| ScanTasks.Aborted | backend/app/tasks/scan_tasks.py:143-148 | a failed row carries the exception's message and completion time and keeps its earlier counters and progress |
| ScanTasks.CancelledRow | backend/app/tasks/scan_tasks.py:265-269 | a cancelled row has status cancelled, the fixed message and completion and update times; nothing else changes |
| ScanTasks.CompleteRun | backend/app/tasks/scan_tasks.py:102-150 | the batch's rows are appended after the existing rows; when the clean-up returns the scan is finished with their tally and the summary reports those counts; when it raises the scan keeps the tally and is failed with the clean-up's message |
| ScanTasks.RunScan | backend/app/tasks/scan_tasks.py:48-150 | a missing scan changes nothing; otherwise the scan is started and then either completed with the batch appended, or, when the clean-up raises, failed with the batch and its tally kept; or, when the scanner raises, failed with the message and no rows added |
| ScanTasks.CancelScan | backend/app/tasks/scan_tasks.py:244-279 | a missing scan changes nothing; a scan that is not active is not cancellable and stays unchanged; an active scan is cancelled and its task, if any, revoked |
| ScanLedger.InsertNewestFirst | backend/app/crud/scan.py:160 | insertion keeps newest-first order and keeps every element |
| ScanLedger.InsertKeepsDistinct | backend/app/crud/scan.py:160 | inserting a row with a new id keeps the ids distinct |
| ScanLedger.SumCountersConsistent | backend/app/crud/scan.py:344-356 | sums over rows with consistent counters are consistent |
| ScanLedger.ActiveAfterInsert | backend/app/crud/scan.py:31-38 | storing a new active scan adds exactly its id to the user's active ids |
| ScanLedger.Ledger.CreateScan | backend/app/crud/scan.py:13-86 | an unknown type gives 400 and no change; a user at 5 active scans gives 429 and no change; otherwise one pending scan owned by the user is added with the Celery task id, its run is queued, and the active count grows by one and stays at most 5 |
| ScanLedger.Ledger.PutScan | backend/app/tasks/scan_tasks.py:73-74 | writing a row back changes only that row |
| ScanLedger.Ledger.AddAlerts | backend/app/tasks/scan_tasks.py:209-210 | a batch is appended after the existing alert rows |
| ScanLedger.Ledger.FindScan | backend/app/crud/scan.py:96-125 | a scan is found exactly when both its id and its owner match |
| ScanLedger.Ledger.ListScans | backend/app/crud/scan.py:132-167 | total counts every matching row of the user; the page is the slice at offset (page-1)*size of the newest-first ordering of exactly those rows; a negative offset or limit gives ([], 0) |
| ScanLedger.Ledger.UpdateScan | backend/app/crud/scan.py:174-213 | a scan not found gives 404 and no change; otherwise only that row changes, to the partial update; any status change is accepted, with no transition rule and no quota check |
| ScanLedger.ApplyUpdate | backend/app/crud/scan.py:192-202 | each given field is written and the others kept, the update time is refreshed, and a well-formed row stays well-formed |
| ScanLedger.Ledger.DeleteScan | backend/app/crud/scan.py:223-262 | a scan not found gives 404 and a running scan 400, both with no change; otherwise the row and exactly its alert rows are removed |
| ScanLedger.Ledger.RequestCancel | backend/app/crud/scan.py:272-311 | a scan not found gives 404 and an inactive scan 400, both with nothing queued; otherwise 200 and one cancel task for the scan is queued |
| ScanLedger.Ledger.StatsPartition | backend/app/crud/scan.py:329-341 | the five status counts partition the user's scans |
| ScanLedger.Ledger.Stats | backend/app/crud/scan.py:321-368 | the total is the number of the user's scans and the four reported status counts add up to at most it; on a valid ledger the high, medium and low sums over completed scans are at most the alert total |
| ReportFormatter.RiskCode | backend/app/utils/report_formatter.py:140-148 | "3", "2" and "1" exactly for high, medium and low under any letter case; "0" for everything else |
| ReportFormatter.RiskCodeRoundTrip | backend/app/utils/report_formatter.py:140-148 | the ingestion's risk table reads every code back as the level it came from |
| ReportFormatter.ConfidenceCode | backend/app/utils/report_formatter.py:151-161 | "high" anywhere in the lowered text gives "3"; otherwise "medium" gives "2"; otherwise "low" gives "1"; with none of them, "2" |
| ReportFormatter.CodesIgnoreCase | backend/app/utils/report_formatter.py:148-153 | both code tables give the same code for a string and for its lowered form |
| ReportFormatter.RiskWord | backend/app/utils/report_formatter.py:166-182 | "High", "Medium" and "Low" exactly for those levels under any letter case; every other value is shown as "Informational" |
| ReportFormatter.ConfidenceWord | backend/app/utils/report_formatter.py:173-183 | the words and digits map to High, Medium and Low under any case; any other confidence is echoed unchanged |
| ReportFormatter.RiskDesc | backend/app/utils/report_formatter.py:164-185 | the description is the risk word, " (", the confidence word and ")" |
| ReportFormatter.RankOfDescIsLevelRank | backend/app/utils/report_formatter.py:132-134 | the rank read back from an entry's description is the rank of its risk level |
| ReportFormatter.OrDefault | backend/app/utils/report_formatter.py:91-96 | `x or default` keeps a present non-empty value and otherwise gives the default |
| ReportFormatter.MembersIn | backend/app/utils/report_formatter.py:71-75 | a group holds exactly the rows with its key |
| ReportFormatter.GroupKeysSpec | backend/app/utils/report_formatter.py:69-75 | the group keys are distinct and are exactly the keys of the rows |
| ReportFormatter.GroupSizesSum | backend/app/utils/report_formatter.py:68-105 | the group sizes add up to the number of alerts |
| ReportFormatter.InstancesOf | backend/app/utils/report_formatter.py:88-105 | one instance per row of the group, in order |
| ReportFormatter.InstanceOf | backend/app/utils/report_formatter.py:90-104 | the method defaults to "GET", and the request and response fields are empty |
| ReportFormatter.EntryOf | backend/app/utils/report_formatter.py:107-127 | name, codes and description come from the key; the CWE id comes from the first row, with "0" as default; count is the number of instances; the source id is "3" |
| ReportFormatter.Entries | backend/app/utils/report_formatter.py:80-129 | one entry per key, in key order |
| ReportFormatter.EntryOrderTotal | backend/app/utils/report_formatter.py:131-135 | the sort key, rank then name, is a total preorder |
| ReportFormatter.InsertByPermutes | backend/app/utils/report_formatter.py:133-135 | an insertion adds the element and loses none |
| ReportFormatter.InsertBySorted | backend/app/utils/report_formatter.py:133-135 | inserting into a sorted sequence keeps it sorted |
| ReportFormatter.SortBySorted | backend/app/utils/report_formatter.py:133-135 | the sort returns a sorted permutation of its input |
| ReportFormatter.CollectGroups | backend/app/utils/report_formatter.py:69-75 | the loop yields the keys in first-occurrence order, each with its rows in input order |
| ReportFormatter.BuildInstances | backend/app/utils/report_formatter.py:88-105 | the instance loop yields one instance per row, in order |
| ReportFormatter.FormatEntries | backend/app/utils/report_formatter.py:80-129 | the formatting loop yields exactly one entry per key, in key order |
| ReportFormatter.SortByStable | backend/app/utils/report_formatter.py:133-135 | the sort is stable: the elements that tie with any given one keep their input order |
| ReportFormatter.GroupAlerts | backend/app/utils/report_formatter.py:63-137 | the result is a permutation of the group entries in first-seen key order, sorted by rank and then name, with ties kept in that order, and one entry per distinct key |
| ReportFormatter.NamedIn | backend/app/utils/report_formatter.py:303-307 | a name's list holds exactly the rows of that level and name |
| ReportFormatter.NamesAtIn | backend/app/utils/report_formatter.py:303-307 | the names at a level are exactly the names of that level's rows |
| ReportFormatter.FileKeepsGrouped | backend/app/utils/report_formatter.py:303-307 | filing a row under its level and name keeps the grouping of all four levels |
| ReportFormatter.GroupAlertsByRisk | backend/app/utils/report_formatter.py:287-309 | the map has the four levels, and each maps every name of its rows to exactly those rows, in order |
| ReportCategories.CategoryOfFirst | backend/app/utils/report_formatter.py:403-426 | a row is filed under a category it matches, and matches none tried earlier; it is uncategorised exactly when it matches none |
| ReportCategories.NoCweMatchesByName | backend/app/utils/report_formatter.py:405-419 | a row without a CWE id matches only through a pattern in its lowered name |
| ReportCategories.XssProtectionNotAHeader | backend/app/utils/report_formatter.py:354-380 | an alert whose name contains "x-xss-protection" is filed under sqli or xss and never under headers, because the sqli and xss patterns are tried first |
| ReportCategories.InCategoryIn | backend/app/utils/report_formatter.py:408-419 | a category's list holds exactly the rows filed under it |
| ReportCategories.UncategorizedIn | backend/app/utils/report_formatter.py:425-426 | the uncategorised list holds exactly the rows filed nowhere |
| ReportCategories.PartitionSizes | backend/app/utils/report_formatter.py:403-426 | the five lists together are as long as the input |
| ReportCategories.Buckets.Add | backend/app/utils/report_formatter.py:411 | appending extends exactly one category's list |
| ReportCategories.CategorizeAlerts | backend/app/utils/report_formatter.py:400-426 | the loop leaves each category list and the uncategorised list as defined by first match |
| ReportCategories.CountAtZero | backend/app/utils/report_formatter.py:462-481 | a zero count at a level means no row at that level, in both directions |
| ReportCategories.TestOf | backend/app/utils/report_formatter.py:431-518 | sqli and xss on a non-full scan are "not_tested" with passed None and zero counts; any other test ran, with its rows as issues and their count as the total |
| ReportCategories.TestVerdict | backend/app/utils/report_formatter.py:459-482 | a test that ran passes exactly when none of its rows is high or medium, its status says so, and its four level counters add up to its issue total |
| ReportCategories.OverallOf | backend/app/utils/report_formatter.py:557-579 | passed exactly when every test that ran passed; critical issues are the sum of the high counts; the status and message follow |
| ReportCategories.TestsPassedIff | backend/app/utils/report_formatter.py:558-559 | every test that ran passed exactly when each category that runs has no high or medium row |
| ReportCategories.OverallPassedIff | backend/app/utils/report_formatter.py:403-559 | the report passes exactly when no alert filed under a category that runs is high or medium |
| ReportCategories.CriticalIsReportedHigh | backend/app/utils/report_formatter.py:437-560 | critical issues are exactly the high alerts filed under categories whose tests ran |
| ReportCategories.ReportedHighSplit | backend/app/utils/report_formatter.py:437-560 | the high alerts of the tests that ran split by category |
| ReportCategories.CountOthers | backend/app/utils/report_formatter.py:520-555 | the uncategorised block lists those rows, and its four counters are their counts per level, adding up to the total |
| ReportCategories.FormatCategorized | backend/app/utils/report_formatter.py:312-613 | the tests, the overall verdict and the uncategorised block are those of the categorisation; the block counts the uncategorised alerts in total and per risk level; with the uncategorised issues, the issue totals are at most the number of alerts |
| Metrics.StartedMetrics | backend/app/services/metrics.py:19-31 | a fresh record is in progress, started now, with no counts and no error |
| Metrics.CompletedMetrics | backend/app/services/metrics.py:86-94 | completion records the time, the counts, the status and the error and keeps the start |
| Metrics.Appended | backend/app/services/metrics.py:96-99 | the history gains the record at its end and drops its oldest entry only when it would exceed 1000 |
| Metrics.SuccessAndFailureBounded | backend/app/services/metrics.py:132-134 | successful and failed counts together are at most the history length |
| Metrics.CountStatusZero | backend/app/services/metrics.py:133-134 | a status counts zero exactly when no record has it |
| Metrics.AppendedCounts | backend/app/services/metrics.py:96-99 | with room left, completion adds one to the history and to its status's count |
| Metrics.AppendedEvictsOldest | backend/app/services/metrics.py:97-99 | once full, completion drops exactly the oldest record |
| Metrics.MetricsCollector.StartScan | backend/app/services/metrics.py:58-64 | the id is recorded as a fresh in-progress record, replacing any earlier one; the history is unchanged |
| Metrics.MetricsCollector.CompleteScan | backend/app/services/metrics.py:70-102 | an inactive id changes nothing; otherwise its completed record moves to the end of the bounded history and the id is no longer active |
| Metrics.MetricsCollector.GetActiveScans | backend/app/services/metrics.py:118-121 | a copy of the active table, each entry under its own id |
| Metrics.MetricsCollector.GetSummary | backend/app/services/metrics.py:123-172 | active and queue size are the active count; completed is the history length, at most 1000; successes and failures are counts by status, with their sum at most completed; the alert, high, medium and low totals are sums over the history |
| DomainUtils.NormalizeDomain | backend/app/utils/domain_utils.py:47-82 | normalisation never lengthens a domain |
| DomainUtils.IsSubdomainOf | backend/app/utils/domain_utils.py:85-112 | names equal after normalisation are subdomains of each other, and a name whose normal form ends with a dot and the parent's is accepted; a proper subdomain's normalised name is longer than the parent's |
| DomainUtils.DropWww | backend/app/utils/domain_utils.py:67-68 | one leading "www." is removed when present |
| DomainUtils.CutScheme | backend/app/utils/domain_utils.py:71-72 | the part after "://" is a suffix of the input, and an input without ":" is kept |
| DomainUtils.CutAt | backend/app/utils/domain_utils.py:75-80 | the part before the first separator contains none, and is the whole input when it had none |
| DomainUtils.NormalizeDomainClean | backend/app/utils/domain_utils.py:47-82 | a normalised domain has no "/", no ":" and no capital letter |
| DomainUtils.NormalizeOfTrimmed | backend/app/utils/domain_utils.py:63-80 | on trimmed lower-case input, normalisation drops "www." and then cuts the scheme, the path and the port, in that order |
| DomainUtils.NormalizeOfPlain | backend/app/utils/domain_utils.py:63-80 | a plain host name is only stripped of a leading "www." |
| DomainUtils.NormalizeOfRaw | backend/app/utils/domain_utils.py:63-64 | any input normalises as its trimmed, lowered form does |
| DomainUtils.NormalizeOfPaddedHost | backend/app/utils/domain_utils.py:47-82 | input that is a host name apart from capitals and surrounding space (the docstring's "WWW.Example.COM", "  Sub.Example.com  ") normalises to its trimmed, lowered form without a leading "www." |
| DomainUtils.NormalizeDomainNotIdempotent | backend/app/utils/domain_utils.py:67-68 | "www.www.x" normalises to "www.x" and then to "x" |
| DomainUtils.NormalizeKeepsWwwAfterScheme | backend/app/utils/domain_utils.py:67-72 | "scheme://www.host" keeps "www.", because "www." is tested before the scheme is cut |
| DomainUtils.SubdomainReflexive | backend/app/utils/domain_utils.py:104-109 | every name is a subdomain of itself |
| DomainUtils.SubdomainEndsWithParent | backend/app/utils/domain_utils.py:104-112 | a subdomain's normalised name ends with the parent's, and with a dot and the parent's when the two differ |
| DomainUtils.DottedSuffixIsSubdomain | backend/app/utils/domain_utils.py:111-112 | a normalised name ending with a dot and the parent's normalised name is a subdomain |
| DomainUtils.ProperSubdomainAccepted | backend/app/utils/domain_utils.py:85-112 | a dot-free label other than "www" in front of a host name makes a proper subdomain of it, as "api.example.com" is of "example.com" |
| DomainUtils.SubdomainTransitive | backend/app/utils/domain_utils.py:85-112 | the subdomain relation is transitive |
| DomainUtils.ExtractDomainFromUrl | backend/app/utils/domain_utils.py:29-40 | None exactly when there is no hostname; otherwise the lowered hostname with one "www." removed |
| DomainUtils.ExtractDropsWww | backend/app/utils/domain_utils.py:36-40 | a lower-case hostname with "www." in front comes back without it |
| DomainUtils.ExtractAgreesWithNormalize | backend/app/utils/domain_utils.py:29-82 | for a non-empty hostname in normal form, the URL's domain is the normalised hostname |
| SiteSchema.ValidateDomain | backend/app/schemas/site.py:8-14 | an accepted value matches the pattern and is returned unchanged; a rejected one does not match and raises "Invalid domain format" |
| SiteSchema.DottedLabelsIff | backend/app/schemas/site.py:11 | the repeated "label." part is exactly a string ending in "." whose dots separate non-empty labels |
| SiteSchema.FullMatchShape | backend/app/schemas/site.py:11 | a full match has a dot, does not start with one, ends in two letters, uses only label characters and dots, and never has two dots in a row |
| SiteSchema.SingleLabelRejected | backend/app/schemas/site.py:11 | a name without a dot is rejected |
| SiteSchema.DigitEndRejected | backend/app/schemas/site.py:11 | a name ending in a digit is rejected, IPv4 literals among them |
| SiteSchema.ShortLastLabelRejected | backend/app/schemas/site.py:11 | a one-character last label is rejected, even with a trailing newline |
| SiteSchema.LeadingDotRejected | backend/app/schemas/site.py:11 | a leading dot is rejected |
| SiteSchema.DoubleDotRejected | backend/app/schemas/site.py:11 | an empty label is rejected |
| SiteSchema.TwoLabelsAccepted | backend/app/schemas/site.py:11 | a label, a dot and two or more letters are accepted |
| SiteSchema.SubdomainAccepted | backend/app/schemas/site.py:11 | a label and a dot in front of an accepted name is accepted |
| SiteSchema.TrailingNewlineAccepted | backend/app/schemas/site.py:11-12 | one trailing newline is accepted exactly when the rest matches in full |
| SiteSchema.TwoNewlinesRejected | backend/app/schemas/site.py:11-12 | two trailing newlines are rejected |
| TxtToken.FirstMatch | backend/app/tasks/domain_verification.py:36-45 | the search finds a match exactly when some record offers the token, and stops at the first that does |
| TxtToken.CandidateOfText | backend/app/tasks/domain_verification.py:38-42 | a record offers its trimmed, unquoted text, without one leading prefix when it has one |
| TxtToken.PublishedRecordMatches | backend/app/crud/site.py:10 | the text the registration hands out, prefix followed by token, offers the token |
| TxtToken.QuotedRecordMatches | backend/app/tasks/domain_verification.py:38-42 | the same text in double quotes offers the token too |
| TxtToken.PublishedTokenFound | backend/app/tasks/domain_verification.py:36-45 | any record that carries the published text makes the search succeed |
| TxtToken.BareTokenMatches | backend/app/tasks/domain_verification.py:40-42 | a bare token without the prefix is accepted too |
| SiteTable.VerifiedDomainHasOneOwner | backend/app/tasks/domain_verification.py:53-60 | in a consistent table a verified domain has exactly one row |
| SiteTable.FilterMembers | backend/app/tasks/domain_verification.py:54-60 | a bulk delete keeps exactly the rows that pass its test |
| SiteTable.DeleteIdRemovesOne | backend/app/crud/site.py:40 | deleting by id removes exactly that row |
| SiteTable.RegisteredConsistent | backend/app/crud/site.py:12-60 | registration keeps the table consistent and every id below the next id |
| SiteTable.RegisteredKeepsOthers | backend/app/crud/site.py:15-53 | registration never touches another user's row or another domain's row |
| SiteTable.RegisteredOwnRow | backend/app/crud/site.py:37-60 | a successful registration leaves exactly one row for the user and domain: new, unverified and carrying the token, placed after every other row |
| SiteTable.StaleRemovedLeavesNoOwnRow | backend/app/crud/site.py:37-41 | once the user's unverified row is deleted, the user has no row for the domain |
| SiteTable.SiteTable.Register | backend/app/crud/site.py:12-67 | the reply and the new table are those of the registration rule: 400 while the user or another user has the domain verified; otherwise the user's stale row is removed and, unless the token is taken (500), a new unverified row is added; the table stays consistent and the next id is used only on 201 |
| SiteTable.SiteTable.Delete | backend/app/tasks/domain_verification_scheduled.py:31-32 | removing a row keeps the table consistent |
| SiteTable.SiteTable.Status | backend/app/crud/site.py:70-100 | 403 without a row for the domain and user; otherwise 200 with that row's flag, which is true exactly when the user has the domain verified |
| SiteTable.SiteTable.RequestVerification | backend/app/crud/site.py:103-135 | 403 without a row and nothing queued; otherwise a verification task is queued and 202 returned, even for a verified domain |
| SiteTable.OwnRowUnique | backend/app/crud/site.py:73-79 | the user's first row for a domain is their only one |
| DomainVerification.VerifiedConsistent | backend/app/tasks/domain_verification.py:10-80 | the verification task keeps the table consistent and never adds a row |
| DomainVerification.VerifiedSucceedsIff | backend/app/tasks/domain_verification.py:24-64 | the verification task succeeds exactly when the resolver answered, the user has a row and some record offers its token; the row is then verified and is the domain's only row |
| DomainVerification.ConfirmLeavesSoleHolder | backend/app/tasks/domain_verification.py:47-61 | after a success the user's verified row is the only row for the domain |
| DomainVerification.VerifiedFailureKeepsRows | backend/app/tasks/domain_verification.py:32-34 | a failure changes at most the flag of the user's row, and changes nothing when the resolver failed or there is no row |
| DomainVerification.RecheckOfVerifiedRow | backend/app/tasks/domain_verification.py:36-80 | re-checking a verified row keeps it when its token is still published, and otherwise unmarks it or, on a resolver error, leaves it |
| DomainVerification.VerifyDomainTask | backend/app/tasks/domain_verification.py:10-80 | the verification task's result and table are those of the verification rule, and the table stays consistent |
| SiteOwnership.OwnershipCheck | backend/app/middleware/site_middleware.py:10-48 | without a verified row it refuses with 403 before the answer is looked at; it confirms exactly when there is a verified row and the records hold that row's token; with a verified row, no answer is a 400, other resolver failures propagate, and records without the token are a 403 |
| SiteOwnership.OwnedMeansSoleHolder | backend/app/middleware/site_middleware.py:13-42 | a confirmed owner holds the only row for the domain, and it is verified |
| SiteOwnership.OwnershipAgreesWithTask | backend/app/middleware/site_middleware.py:34-42 | for a verified owner with records, the check confirms exactly when the verification task would succeed |
| DomainMaintenance.ScheduledMaintenance | backend/app/tasks/domain_verification_scheduled.py:13-46 | the pass deletes exactly the unverified rows older than 24 hours and the verified rows whose re-verification fails |
| DomainMaintenance.MaintenanceResult | backend/app/tasks/domain_verification_scheduled.py:25-42 | afterwards no unverified row is older than 24 hours, every verified row's token is published, and a second pass deletes nothing |
| DomainMaintenance.MaintenanceKeeps | backend/app/tasks/domain_verification_scheduled.py:27-42 | recent unverified rows and verified rows whose token is published are never deleted |
| DomainMaintenance.FilterIdempotent | backend/app/tasks/domain_verification_scheduled.py:25-42 | applying the same deletion rule twice is applying it once |
| UserRegistry.CodeOfDigits | backend/app/crud/user.py:27 | the code's characters are decimal digits, and they read back as the drawn digits |
| UserRegistry.CodeIsSixDigits | backend/app/crud/user.py:27 | six drawn digits give a six-digit code, and different draws give different codes |
| UserRegistry.DisplayName | backend/app/crud/user.py:41 | "first last" when a last name is given, otherwise the first name |
| UserRegistry.FirstWithEmail | backend/app/crud/user.py:14 | the first account with the email, or none when no account has it |
| UserRegistry.WithoutEmailDistinct | backend/app/crud/user.py:22-25 | deleting the unverified account leaves distinct accounts, none with the email |
| UserRegistry.SignedUpDistinct | backend/app/crud/user.py:11-51 | sign-up keeps ids and emails distinct; a new account is the only one with its email, unverified, with the code expiring three minutes after creation |
| UserRegistry.SignedUpKeepsOthers | backend/app/crud/user.py:14-39 | sign-up never touches an account with another email |
| UserRegistry.SignedUpRefusesVerified | backend/app/crud/user.py:15-21 | a verified account's email gets 400, with nothing changed and no mail sent |
| UserRegistry.UserTable.RegisterUser | backend/app/crud/user.py:11-51 | the reply and accounts are those of the sign-up rule for the drawn code; the verification mail goes to the outbox; the next id is used only on 201 |

## Left out

- The scanner and its manager (`get_scanner`, `cleanup_scan_context`, the ZAP client): the scanner is a function from scan type and target URL to the alerts or an exception message, and the clean-up is its outcome, nothing or an exception message. The progress log is not modelled.
- ScanTasks.RunScan: as written, the worker calls `scanner_manager.get_scanner(scan_id)`, but `get_scanner` (backend/app/services/scanner_manager.py:21-30) takes no argument, so the call raises a TypeError and every run fails; and `cleanup_scan_context`, called at backend/app/tasks/scan_tasks.py:110, is not defined on the manager, so the success path would raise there. The model keeps both outcomes as parameters: a scanner that raises covers the first, a clean-up that raises covers the second.
- ScanTasks.RunScan: the invalid-scan-type branches of the worker cannot be reached. A `ScanType` is always basic or full. Ingestion itself cannot raise in the model, so only scanner exceptions lead to the failure path.
- ScanLedger.Ledger.CreateScan: the scan kind arrives as its wire value so that the 400 branch is reachable. A request built by `MakeScanCreate` always carries a valid kind, so that branch is reached only by requests built otherwise.
- Python dict key order of a JSON response, HTML wrapping of descriptions and solutions, the tags field, the report's scan, summary and site blocks, the unique-URL count, `generatedAt` and the duration: these are presentation and do not bear on the properties stated.
- Floating point and the clock: metric averages, success rate and durations, `_format_datetime`, and ISO timestamps. Times are integer seconds supplied by the caller.
- URL parsing: `urlparse` and pydantic's `HttpUrl` are not modelled. `ExtractDomainFromUrl` takes the parsed hostname as input, and `MakeScanCreate` takes the URL parser as a function.
- Concurrency: the count-then-insert admission race, the race between a revoke and a running task, the metrics locks and the singleton. Every operation is one sequential step.
- DNS resolution: the resolver's answer is an input. `TxtAnswer` separates records, no answer, no such domain and other failures.
- JWT, argon2, random draws and email sending: tokens, the password hash and the code digits are inputs, and a sent mail is an outbox entry.
- The 500 branches that come from unexpected exceptions in the CRUD functions, the getter's exception branch that returns None, and the listing's exception branch. The exception is that the database's refusal of a negative offset or limit is modelled as the listing's ([], 0). So is the registration's 500 when a token is already in use.
- DomainMaintenance.ScheduledMaintenance: an exception in the middle of the pass, which aborts it and leaves the rows deleted so far, is not modelled.
- DomainVerification.VerifyDomainTask: the fallback block after the `except` clauses cannot be reached and is not modelled. The `verified_at` column is commented out in the source and is not modelled.
- Text handling is ASCII: `strip()`, `lower()` and the regular expression's `\d` are modelled on ASCII characters, and `split()` on the first word is modelled as the text before the first space.
- TxtToken.Prefix: backend/app/core/config.py defines no `AppConfig.DOMAIN_VERIFICATION_TOKEN_PREFIX`, which the verification task, the ownership check and the maintenance pass use as their default. The prefix is therefore a parameter of all three. The site endpoints pass their constant "hackyourownweb-verify=" (backend/app/crud/site.py:10).
- The domain verification token generator is not part of this model: the token is an input of registration.
- UserRegistry.SignedUp: the `users` email column is not declared unique in the database. The model keeps emails distinct as an invariant that sign-up preserves.
- SiteTable.Registered: the row's creation time is the caller's `now`.
- The docstring examples of `normalize_domain` and `is_subdomain_of` on literal strings are not stated as lemmas. `NormalizeOfPaddedHost` covers the shape of the normalisation examples, and `ProperSubdomainAccepted` and `SubdomainReflexive` cover the two accepted subdomain examples.
- `get_prometheus_metrics` and `_get_zap_version`: text rendering and a network call.

/**
 * The ZAP-style JSON report of a scan (backend/app/utils/report_formatter.py): the
 * risk and confidence code tables, the grouping of alert rows into one entry per
 * (name, risk, confidence) with its instances, the ordering of the entries by risk
 * rank and name, and the grouping of rows by risk level and name.
 */
module ReportFormatter {
  import opened Wrappers
  import opened Text
  import opened ScanModel
  import opened ScanIngest

  /** `_get_risk_code`: the ZAP numeric code of a risk level's value, case-insensitively; "0" otherwise. */
  function RiskCode(riskLevel: string): (r: string)
    ensures r == "3" <==> Lower(riskLevel) == "high"
    ensures r == "2" <==> Lower(riskLevel) == "medium"
    ensures r == "1" <==> Lower(riskLevel) == "low"
    ensures r == "0" <==> Lower(riskLevel) !in {"high", "medium", "low"}
  {
    var l := Lower(riskLevel);
    if l == "high" then "3"
    else if l == "medium" then "2"
    else if l == "low" then "1"
    else "0"
  }

  /** The ingestion's risk table reads every code this table writes back as the level it came from. */
  lemma RiskCodeRoundTrip(l: RiskLevel)
    ensures RiskFromRaw(RiskCode(RiskValue(l))) == l
  {
    RiskValueLowered(l);
  }

  /** A risk level's value has no capitals, so lowering keeps it. */
  lemma RiskValueLowered(l: RiskLevel)
    ensures Lower(RiskValue(l)) == RiskValue(l)
  {
    LowerOfLowered(RiskValue(l));
  }

  /** `_get_confidence_code`: the first of "high", "medium", "low" found in the lowered text decides; "2" by default. */
  function ConfidenceCode(confidence: string): (r: string)
    ensures r in {"3", "2", "1"}
    ensures r == "3" <==> Contains(Lower(confidence), "high")
    ensures r == "1" <==> !Contains(Lower(confidence), "high") && !Contains(Lower(confidence), "medium")
                          && Contains(Lower(confidence), "low")
  {
    var l := Lower(confidence);
    if Contains(l, "high") then "3"
    else if Contains(l, "medium") then "2"
    else if Contains(l, "low") then "1"
    else "2"
  }

  /** Both code tables ignore letter case. */
  lemma CodesIgnoreCase(s: string)
    ensures RiskCode(Lower(s)) == RiskCode(s)
    ensures ConfidenceCode(Lower(s)) == ConfidenceCode(s)
  {
    LowerIdempotent(s);
  }

  /** The word a risk level's value is shown as; an unknown value reads as "Informational". */
  function RiskWord(riskLevel: string): (r: string)
    ensures r in {"High", "Medium", "Low", "Informational"}
    ensures r == "High" <==> Lower(riskLevel) == "high"
    ensures r == "Medium" <==> Lower(riskLevel) == "medium"
    ensures r == "Low" <==> Lower(riskLevel) == "low"
  {
    var l := Lower(riskLevel);
    if l == "high" then "High"
    else if l == "medium" then "Medium"
    else if l == "low" then "Low"
    else "Informational"
  }

  /** The word a confidence is shown as; a value outside the table is echoed unchanged. */
  function ConfidenceWord(confidence: string): (r: string)
    ensures Lower(confidence) !in {"high", "medium", "low", "1", "2", "3"} ==> r == confidence
    ensures Lower(confidence) in {"high", "3"} ==> r == "High"
    ensures Lower(confidence) in {"medium", "2"} ==> r == "Medium"
    ensures Lower(confidence) in {"low", "1"} ==> r == "Low"
  {
    var l := Lower(confidence);
    if l == "high" || l == "3" then "High"
    else if l == "medium" || l == "2" then "Medium"
    else if l == "low" || l == "1" then "Low"
    else confidence
  }

  /** `_get_risk_desc`: "Risk (Confidence)". */
  function RiskDesc(riskLevel: string, confidence: string): (r: string)
    ensures StartsWith(r, RiskWord(riskLevel) + " (") && EndsWith(r, ConfidenceWord(confidence) + ")")
    ensures |r| == |RiskWord(riskLevel)| + |ConfidenceWord(confidence)| + 3
  {
    var w, c := RiskWord(riskLevel), ConfidenceWord(confidence);
    var r := w + " (" + c + ")";
    assert r[..|w + " ("|] == w + " (";
    assert r[|r| - |c + ")"|..] == c + ")";
    r
  }

  /** The sort's rank of a risk word: high, medium, low, informational first to last, anything else after them. */
  function RankOfWord(word: string): (r: nat)
    ensures r <= 4
  {
    var l := Lower(word);
    if l == "high" then 0
    else if l == "medium" then 1
    else if l == "low" then 2
    else if l == "informational" then 3
    else 4
  }

  function LevelRank(l: RiskLevel): nat {
    match l
    case High => 0
    case Medium => 1
    case Low => 2
    case Informational => 3
  }

  /** The sort key's first part: the rank of the description's first word. */
  function RankOfDesc(riskDesc: string): nat {
    RankOfWord(Before(riskDesc, " "))
  }

  /** The rank read back from an entry's description is the rank of the risk level it was made from. */
  lemma RankOfDescIsLevelRank(l: RiskLevel, confidence: string)
    ensures RankOfDesc(RiskDesc(RiskValue(l), confidence)) == LevelRank(l)
  {
    var w := RiskWord(RiskValue(l));
    RiskWordOfValue(l);
    RankOfLevelWord(l);
    FirstWordOfDesc(w, ConfidenceWord(confidence));
  }

  /** The word a level is shown as: its value with a capital first letter. */
  function LevelWord(l: RiskLevel): string {
    match l
    case High => "High"
    case Medium => "Medium"
    case Low => "Low"
    case Informational => "Informational"
  }

  lemma RiskWordOfValue(l: RiskLevel)
    ensures RiskWord(RiskValue(l)) == LevelWord(l)
    ensures forall j :: 0 <= j < |LevelWord(l)| ==> LevelWord(l)[j] != ' '
  {
    RiskValueLowered(l);
  }

  lemma RankOfLevelWord(l: RiskLevel)
    ensures RankOfWord(LevelWord(l)) == LevelRank(l)
  {
    LowerOfLevelWord(l);
    RankOfLowered(LevelWord(l), RiskValue(l));
    RiskValueLowered(l);
  }

  /** Lowering the word a level is shown as gives the level's value. */
  lemma LowerOfLevelWord(l: RiskLevel)
    ensures Lower(LevelWord(l)) == RiskValue(l)
  {
    var w, v := LevelWord(l), RiskValue(l);
    assert |w| == |v| && LowerChar(w[0]) == v[0] && w[1..] == v[1..];
    assert forall i :: 1 <= i < |w| ==> LowerChar(w[i]) == w[i];
  }

  /** A word ranks as its lowered form reads. */
  lemma RankOfLowered(w: string, v: string)
    requires Lower(w) == v
    ensures RankOfWord(w) == RankOfWord(v)
  {
    LowerOfLowered(v);
  }

  /** A word without spaces is what comes before the first space of "word (conf)". */
  lemma FirstWordOfDesc(w: string, c: string)
    requires forall j :: 0 <= j < |w| ==> w[j] != ' '
    ensures Before(w + " (" + c + ")", " ") == w
  {
    var d := w + " (" + c + ")";
    assert d[|w|..|w| + 1] == " ";
    assert OccursAt(d, " ", |w|);
    forall j | 0 <= j < |w|
      ensures !OccursAt(d, " ", j)
    {
      assert d[j] == w[j];
    }
    assert d[..|w|] == w;
  }

  /** `alert.x or default`: the value when present and non-empty, the default otherwise. */
  function OrDefault(v: Option<string>, default: string): (r: string)
    ensures v.Some? && v.value != "" ==> r == v.value
    ensures v.None? || v.value == "" ==> r == default
  {
    if v.Some? && v.value != "" then v.value else default
  }

  /** What rows are grouped by: name, risk level and confidence. */
  datatype GroupKey = GroupKey(name: string, risk: RiskLevel, confidence: string)

  function KeyOf(a: ScanAlert): GroupKey {
    GroupKey(a.alertName, a.riskLevel, a.confidence)
  }

  /** The rows of `alerts` with key `k`, in input order. */
  function Members(alerts: seq<ScanAlert>, k: GroupKey): (r: seq<ScanAlert>)
    ensures |r| <= |alerts|
  {
    if alerts == [] then []
    else Members(alerts[..|alerts| - 1], k) + (if KeyOf(alerts[|alerts| - 1]) == k then [alerts[|alerts| - 1]] else [])
  }

  /** A group holds exactly the rows with its key. */
  lemma {:induction false} MembersIn(alerts: seq<ScanAlert>, k: GroupKey)
    ensures forall a :: a in Members(alerts, k) <==> a in alerts && KeyOf(a) == k
  {
    if alerts != [] {
      var prefix := alerts[..|alerts| - 1];
      MembersIn(prefix, k);
      assert alerts == prefix + [alerts[|alerts| - 1]];
    }
  }

  /** A key no row has has no members. */
  lemma {:induction false} NoMembers(alerts: seq<ScanAlert>, k: GroupKey)
    requires forall a :: a in alerts ==> KeyOf(a) != k
    ensures Members(alerts, k) == []
  {
    if alerts != [] {
      NoMembers(alerts[..|alerts| - 1], k);
    }
  }

  /** The distinct keys of `alerts` in order of first occurrence (a dict's insertion order). */
  function GroupKeys(alerts: seq<ScanAlert>): (r: seq<GroupKey>)
    ensures |r| <= |alerts|
  {
    if alerts == [] then []
    else
      var keys := GroupKeys(alerts[..|alerts| - 1]);
      var k := KeyOf(alerts[|alerts| - 1]);
      if k in keys then keys else keys + [k]
  }

  /** The keys are distinct, and they are exactly the keys of the rows. */
  lemma {:induction false} GroupKeysSpec(alerts: seq<ScanAlert>)
    ensures forall i, j :: 0 <= i < j < |GroupKeys(alerts)| ==> GroupKeys(alerts)[i] != GroupKeys(alerts)[j]
    ensures forall k :: k in GroupKeys(alerts) <==> exists a :: a in alerts && KeyOf(a) == k
  {
    if alerts != [] {
      var prefix := alerts[..|alerts| - 1];
      var last := alerts[|alerts| - 1];
      GroupKeysSpec(prefix);
      assert alerts == prefix + [last];
      assert forall a :: a in alerts <==> a in prefix || a == last;
    }
  }

  /** One instance of a grouped entry: where it was seen, with ZAP's defaults for missing fields. */
  datatype Instance = Instance(
    uri: string, httpMethod: string, param: string, attack: string, evidence: string, otherInfo: string,
    requestHeader: string, requestBody: string, responseHeader: string, responseBody: string)

  function InstanceOf(a: ScanAlert): (r: Instance)
    ensures r.httpMethod == OrDefault(a.httpMethod, "GET") && r.uri == a.url
    ensures r.requestHeader == r.requestBody == r.responseHeader == r.responseBody == ""
  {
    Instance(a.url, OrDefault(a.httpMethod, "GET"), OrDefault(a.param, ""), OrDefault(a.attack, ""),
             OrDefault(a.evidence, ""), OrDefault(a.otherInfo, ""), "", "", "", "")
  }

  /** The instances of a list of rows, one per row in order. */
  function InstancesOf(rows: seq<ScanAlert>): (r: seq<Instance>)
    ensures |r| == |rows| && forall i :: 0 <= i < |rows| ==> r[i] == InstanceOf(rows[i])
  {
    if rows == [] then [] else InstancesOf(rows[..|rows| - 1]) + [InstanceOf(rows[|rows| - 1])]
  }

  /** One entry of the report's alert list. */
  datatype AlertEntry = AlertEntry(
    pluginId: string, alertRef: string, alert: string, name: string, riskCode: string, confidence: string,
    riskDesc: string, desc: string, instances: seq<Instance>, count: string, solution: string,
    otherInfo: string, reference: string, cweId: string, wascId: string, sourceId: string)

  /** The entry of one group: the shared fields come from its first row, `count` is the number of instances. */
  function EntryOf(k: GroupKey, rows: seq<ScanAlert>, instances: seq<Instance>): (r: AlertEntry)
    requires rows != []
    ensures r.alert == r.name == k.name && r.riskCode == RiskCode(RiskValue(k.risk))
    ensures r.confidence == ConfidenceCode(k.confidence) && r.riskDesc == RiskDesc(RiskValue(k.risk), k.confidence)
    ensures r.instances == instances && r.count == NatToString(|instances|)
    ensures r.cweId == r.pluginId == OrDefault(rows[0].cweId, "0")
    ensures r.alertRef == r.cweId + "-" + r.count && r.sourceId == "3"
  {
    var first := rows[0];
    var cwe := OrDefault(first.cweId, "0");
    AlertEntry(cwe, cwe + "-" + NatToString(|instances|), k.name, k.name, RiskCode(RiskValue(k.risk)),
               ConfidenceCode(k.confidence), RiskDesc(RiskValue(k.risk), k.confidence),
               "<p>" + OrDefault(first.description, "No description available") + "</p>",
               instances, NatToString(|instances|),
               "<p>" + OrDefault(first.solution, "No solution available") + "</p>",
               OrDefault(first.otherInfo, ""), OrDefault(first.reference, ""), cwe,
               OrDefault(first.wascId, "0"), "3")
  }

  /** The entries in group order, before sorting: one per key, from the key's rows in `groups`. */
  function Entries(keys: seq<GroupKey>, groups: map<GroupKey, seq<ScanAlert>>): (r: seq<AlertEntry>)
    requires forall k :: k in keys ==> k in groups && groups[k] != []
    ensures |r| == |keys|
  {
    if keys == [] then []
    else
      var k := keys[|keys| - 1];
      Entries(keys[..|keys| - 1], groups) + [EntryOf(k, groups[k], InstancesOf(groups[k]))]
  }

  /** Each key of the rows with the rows that have it. */
  function GroupsOf(alerts: seq<ScanAlert>): map<GroupKey, seq<ScanAlert>> {
    map k | k in GroupKeys(alerts) :: Members(alerts, k)
  }

  /** Every key that occurs has at least one member. */
  lemma KeysHaveMembers(alerts: seq<ScanAlert>)
    ensures forall k :: k in GroupKeys(alerts) ==> Members(alerts, k) != []
  {
    GroupKeysSpec(alerts);
    forall k | k in GroupKeys(alerts)
      ensures Members(alerts, k) != []
    {
      var a :| a in alerts && KeyOf(a) == k;
      MembersIn(alerts, k);
      assert a in Members(alerts, k);
    }
  }

  /** The entries of every group, in first-occurrence order. */
  function Grouped(alerts: seq<ScanAlert>): seq<AlertEntry> {
    KeysHaveMembers(alerts);
    Entries(GroupKeys(alerts), GroupsOf(alerts))
  }

  /** The number of rows over the groups `keys`. */
  function MemberTotal(alerts: seq<ScanAlert>, keys: seq<GroupKey>): nat {
    if keys == [] then 0 else MemberTotal(alerts, keys[..|keys| - 1]) + |Members(alerts, keys[|keys| - 1])|
  }

  /** One more row adds one to the total of the groups when its key is among them, nothing otherwise. */
  lemma {:induction false} MemberTotalAppend(alerts: seq<ScanAlert>, a: ScanAlert, keys: seq<GroupKey>)
    requires forall i, j :: 0 <= i < j < |keys| ==> keys[i] != keys[j]
    ensures MemberTotal(alerts + [a], keys) == MemberTotal(alerts, keys) + (if KeyOf(a) in keys then 1 else 0)
  {
    assert (alerts + [a])[..|alerts|] == alerts;
    if keys != [] {
      var init := keys[..|keys| - 1];
      assert forall i, j :: 0 <= i < j < |init| ==> init[i] != init[j];
      MemberTotalAppend(alerts, a, init);
      assert KeyOf(a) in keys <==> KeyOf(a) in init || KeyOf(a) == keys[|keys| - 1];
      assert KeyOf(a) == keys[|keys| - 1] ==> KeyOf(a) !in init;
    }
  }

  /** The groups hold every row exactly once: their sizes add up to the number of rows. */
  lemma {:induction false} GroupSizesSum(alerts: seq<ScanAlert>)
    ensures MemberTotal(alerts, GroupKeys(alerts)) == |alerts|
  {
    if alerts != [] {
      var prefix := alerts[..|alerts| - 1];
      var last := alerts[|alerts| - 1];
      assert alerts == prefix + [last];
      GroupSizesSum(prefix);
      GroupKeysSpec(prefix);
      var keys := GroupKeys(prefix);
      MemberTotalAppend(prefix, last, keys);
      if KeyOf(last) !in keys {
        NoMembers(prefix, KeyOf(last));
        assert (keys + [KeyOf(last)])[..|keys|] == keys;
      }
    }
  }

  /** The order the entries are sorted into: by rank read from the description, then by alert name. */
  predicate EntryLessEq(x: AlertEntry, y: AlertEntry) {
    RankOfDesc(x.riskDesc) < RankOfDesc(y.riskDesc)
    || (RankOfDesc(x.riskDesc) == RankOfDesc(y.riskDesc) && LexLessEq(x.alert, y.alert))
  }

  /** The sort's comparison as a value, so that the insertion sort below can be stated for any order. */
  function EntryOrder(): (AlertEntry, AlertEntry) -> bool {
    (x: AlertEntry, y: AlertEntry) => EntryLessEq(x, y)
  }

  /** `le` is total and transitive. */
  ghost predicate TotalPreorder<T(!new)>(le: (T, T) -> bool) {
    && (forall x, y :: le(x, y) || le(y, x))
    && (forall x, y, z :: le(x, y) && le(y, z) ==> le(x, z))
  }

  /** The entry order is a total preorder: ties in rank fall to the names, which compare totally. */
  lemma EntryOrderTotal()
    ensures TotalPreorder(EntryOrder())
  {
    var le := EntryOrder();
    forall x, y
      ensures le(x, y) || le(y, x)
    {
      LexTotal(x.alert, y.alert);
    }
    forall x, y, z | le(x, y) && le(y, z)
      ensures le(x, z)
    {
      if RankOfDesc(x.riskDesc) == RankOfDesc(y.riskDesc) == RankOfDesc(z.riskDesc) {
        LexTransitive(x.alert, y.alert, z.alert);
      }
    }
  }

  predicate SortedBy<T>(s: seq<T>, le: (T, T) -> bool) {
    forall i, j :: 0 <= i < j < |s| ==> le(s[i], s[j])
  }

  /** Places `e` after every element not above it: a stable insertion. */
  function InsertBy<T>(s: seq<T>, e: T, le: (T, T) -> bool): (r: seq<T>)
    ensures |r| == |s| + 1
  {
    if s == [] then [e]
    else if !le(s[0], e) then [e] + s
    else [s[0]] + InsertBy(s[1..], e, le)
  }

  /** Insertion adds the element and loses none. */
  lemma {:induction false} InsertByPermutes<T>(s: seq<T>, e: T, le: (T, T) -> bool)
    ensures multiset(InsertBy(s, e, le)) == multiset(s) + multiset{e}
  {
    if s != [] && le(s[0], e) {
      InsertByPermutes(s[1..], e, le);
      assert s == [s[0]] + s[1..];
    }
  }

  /** Inserting into a sorted sequence keeps it sorted. */
  lemma {:induction false} InsertBySorted<T(!new)>(s: seq<T>, e: T, le: (T, T) -> bool)
    requires TotalPreorder(le) && SortedBy(s, le)
    ensures SortedBy(InsertBy(s, e, le), le)
  {
    if s != [] && le(s[0], e) {
      InsertBySorted(s[1..], e, le);
      InsertByPermutes(s[1..], e, le);
      var rest := InsertBy(s[1..], e, le);
      forall y | y in rest
        ensures le(s[0], y)
      {
        assert y in multiset(rest);
        if y != e {
          assert y in multiset(s[1..]);
        }
      }
    }
  }

  /** `list.sort(key=...)` as an insertion sort under `le`; `SortByStable` shows it is stable. */
  function SortBy<T>(s: seq<T>, le: (T, T) -> bool): (r: seq<T>)
    ensures |r| == |s|
  {
    if s == [] then []
    else InsertBy(SortBy(s[..|s| - 1], le), s[|s| - 1], le)
  }

  /** The sort orders the elements and keeps exactly the elements it was given. */
  lemma {:induction false} SortBySorted<T(!new)>(s: seq<T>, le: (T, T) -> bool)
    requires TotalPreorder(le)
    ensures SortedBy(SortBy(s, le), le)
    ensures multiset(SortBy(s, le)) == multiset(s)
  {
    if s != [] {
      SortBySorted(s[..|s| - 1], le);
      InsertBySorted(SortBy(s[..|s| - 1], le), s[|s| - 1], le);
      InsertByPermutes(SortBy(s[..|s| - 1], le), s[|s| - 1], le);
      assert s == s[..|s| - 1] + [s[|s| - 1]];
    }
  }

  /** The elements of `s` that tie with `k` under `le` (each is below and above it), in their order in `s`. */
  function TiesWith<T>(s: seq<T>, k: T, le: (T, T) -> bool): (r: seq<T>)
    ensures |r| <= |s|
  {
    if s == [] then []
    else (if le(s[0], k) && le(k, s[0]) then [s[0]] else []) + TiesWith(s[1..], k, le)
  }

  /** Picking the ties of a concatenation picks them part by part. */
  lemma {:induction false} TiesWithAppend<T>(a: seq<T>, b: seq<T>, k: T, le: (T, T) -> bool)
    ensures TiesWith(a + b, k, le) == TiesWith(a, k, le) + TiesWith(b, k, le)
  {
    if a != [] {
      var head := if le(a[0], k) && le(k, a[0]) then [a[0]] else [];
      calc {
        TiesWith(a + b, k, le);
        { assert (a + b)[0] == a[0]; }
        head + TiesWith((a + b)[1..], k, le);
        { assert (a + b)[1..] == a[1..] + b; }
        head + TiesWith(a[1..] + b, k, le);
        { TiesWithAppend(a[1..], b, k, le); }
        head + (TiesWith(a[1..], k, le) + TiesWith(b, k, le));
        (head + TiesWith(a[1..], k, le)) + TiesWith(b, k, le);
      }
    } else {
      assert a + b == b;
    }
  }

  /** A sequence with no element tying with `k` has no ties with it. */
  lemma {:induction false} TiesWithNone<T>(s: seq<T>, k: T, le: (T, T) -> bool)
    requires forall i :: 0 <= i < |s| ==> !(le(s[i], k) && le(k, s[i]))
    ensures TiesWith(s, k, le) == []
  {
    if s != [] {
      TiesWithNone(s[1..], k, le);
    }
  }

  /** Insertion into a sorted sequence puts the new element after every element it ties with. */
  lemma {:induction false} InsertByTies<T(!new)>(t: seq<T>, e: T, le: (T, T) -> bool, k: T)
    requires TotalPreorder(le) && SortedBy(t, le)
    ensures TiesWith(InsertBy(t, e, le), k, le) == TiesWith(t, k, le) + (if le(e, k) && le(k, e) then [e] else [])
  {
    if t == [] {
      assert TiesWith([e], k, le) == (if le(e, k) && le(k, e) then [e] else []) + TiesWith([e][1..], k, le);
    } else if !le(t[0], e) {
      if le(e, k) && le(k, e) {
        forall i | 0 <= i < |t|
          ensures !(le(t[i], k) && le(k, t[i]))
        {
          if i > 0 {
            assert le(t[0], t[i]);
          }
        }
        TiesWithNone(t, k, le);
      }
      assert ([e] + t)[0] == e && ([e] + t)[1..] == t;
    } else {
      InsertByTies(t[1..], e, le, k);
      assert ([t[0]] + InsertBy(t[1..], e, le))[1..] == InsertBy(t[1..], e, le);
    }
  }

  /** The sort is stable: the elements tying with any `k` come out in the order they went in. */
  lemma {:induction false} SortByStable<T(!new)>(s: seq<T>, le: (T, T) -> bool, k: T)
    requires TotalPreorder(le)
    ensures TiesWith(SortBy(s, le), k, le) == TiesWith(s, k, le)
  {
    if s != [] {
      var init, last := s[..|s| - 1], s[|s| - 1];
      var tie := if le(last, k) && le(k, last) then [last] else [];
      calc {
        TiesWith(SortBy(s, le), k, le);
        TiesWith(InsertBy(SortBy(init, le), last, le), k, le);
        { SortBySorted(init, le); InsertByTies(SortBy(init, le), last, le, k); }
        TiesWith(SortBy(init, le), k, le) + tie;
        { SortByStable(init, le, k); }
        TiesWith(init, k, le) + tie;
        { assert TiesWith([last], k, le) == tie + TiesWith([last][1..], k, le); }
        TiesWith(init, k, le) + TiesWith([last], k, le);
        { TiesWithAppend(init, [last], k, le); assert s == init + [last]; }
        TiesWith(s, k, le);
      }
    }
  }

  /** One more row: its key joins the keys if new, and the row joins its key's group. */
  lemma GroupStep(prefix: seq<ScanAlert>, a: ScanAlert)
    ensures GroupKeys(prefix + [a]) == if KeyOf(a) in GroupKeys(prefix) then GroupKeys(prefix) else GroupKeys(prefix) + [KeyOf(a)]
    ensures forall k :: Members(prefix + [a], k) == Members(prefix, k) + (if KeyOf(a) == k then [a] else [])
  {
    var next := prefix + [a];
    assert next[..|next| - 1] == prefix && next[|next| - 1] == a;
  }

  /** `keys` and `groups` are the grouping of `alerts`: its keys in order, each with its rows. */
  ghost predicate Collected(alerts: seq<ScanAlert>, keys: seq<GroupKey>, groups: map<GroupKey, seq<ScanAlert>>) {
    && keys == GroupKeys(alerts)
    && (forall k :: k in groups <==> k in keys)
    && (forall k :: k in groups ==> groups[k] == Members(alerts, k))
  }

  /** Filing one more row under its key (created empty when new) keeps the grouping. */
  lemma CollectStep(prefix: seq<ScanAlert>, a: ScanAlert, keys: seq<GroupKey>, groups: map<GroupKey, seq<ScanAlert>>)
    requires Collected(prefix, keys, groups)
    ensures var key := KeyOf(a);
      var base := if key in groups then groups[key] else [];
      Collected(prefix + [a], if key in groups then keys else keys + [key], groups[key := base + [a]])
  {
    var key := KeyOf(a);
    GroupStep(prefix, a);
    if key !in groups {
      GroupKeysSpec(prefix);
      NoMembers(prefix, key);
    }
  }

  /** The grouping loop: the keys in first-occurrence order, and each key's rows in input order. */
  method CollectGroups(alerts: seq<ScanAlert>) returns (keys: seq<GroupKey>, groups: map<GroupKey, seq<ScanAlert>>)
    ensures keys == GroupKeys(alerts)
    ensures forall k :: k in groups <==> k in keys
    ensures forall k :: k in groups ==> groups[k] == Members(alerts, k)
  {
    keys := [];
    groups := map[];
    var i := 0;
    while i < |alerts|
      invariant 0 <= i <= |alerts|
      invariant Collected(alerts[..i], keys, groups)
    {
      var alert := alerts[i];
      var key := KeyOf(alert);
      PrefixStep(alerts, i);
      CollectStep(alerts[..i], alert, keys, groups);
      var base := if key in groups then groups[key] else [];
      if key !in groups {
        keys := keys + [key];
      }
      groups := groups[key := base + [alert]];
      i := i + 1;
    }
    assert alerts[..i] == alerts;
  }

  /** The instance loop: one instance per row, in order. */
  method BuildInstances(rows: seq<ScanAlert>) returns (instances: seq<Instance>)
    ensures instances == InstancesOf(rows)
  {
    instances := [];
    var t := 0;
    while t < |rows|
      invariant 0 <= t <= |rows|
      invariant instances == InstancesOf(rows[..t])
    {
      assert rows[..t + 1][..t] == rows[..t];
      instances := instances + [InstanceOf(rows[t])];
      t := t + 1;
    }
    assert rows[..t] == rows;
  }

  /** The entries of the first `j + 1` keys extend those of the first `j` by the entry of key `j`. */
  lemma EntriesStep(keys: seq<GroupKey>, groups: map<GroupKey, seq<ScanAlert>>, j: nat)
    requires j < |keys| && forall k :: k in keys ==> k in groups && groups[k] != []
    ensures forall k :: k in keys[..j + 1] ==> k in groups && groups[k] != []
    ensures var g := groups[keys[j]];
      Entries(keys[..j + 1], groups) == Entries(keys[..j], groups) + [EntryOf(keys[j], g, InstancesOf(g))]
  {
    assert keys[..j + 1][..j] == keys[..j];
  }

  /** The formatting loop: one entry per key, in key order, built from the key's rows. */
  method FormatEntries(keys: seq<GroupKey>, groups: map<GroupKey, seq<ScanAlert>>) returns (formatted: seq<AlertEntry>)
    requires forall k :: k in keys ==> k in groups && groups[k] != []
    ensures formatted == Entries(keys, groups)
  {
    formatted := [];
    var j := 0;
    while j < |keys|
      invariant 0 <= j <= |keys|
      invariant formatted == Entries(keys[..j], groups)
    {
      var key := keys[j];
      var rows := groups[key];
      var instances := BuildInstances(rows);
      EntriesStep(keys, groups, j);
      formatted := formatted + [EntryOf(key, rows, instances)];
      j := j + 1;
    }
    assert keys[..j] == keys;
  }

  /**
   * `_group_alerts`: one entry per distinct (name, risk, confidence), each with the
   * instances of its rows in input order and the count of those instances, ordered by
   * risk rank and then name.
   */
  method GroupAlerts(alerts: seq<ScanAlert>) returns (entries: seq<AlertEntry>)
    ensures multiset(entries) == multiset(Grouped(alerts))
    ensures SortedBy(entries, EntryOrder())
    ensures forall k :: TiesWith(entries, k, EntryOrder()) == TiesWith(Grouped(alerts), k, EntryOrder())
    ensures |entries| == |GroupKeys(alerts)|
  {
    var keys, groups := CollectGroups(alerts);
    KeysHaveMembers(alerts);
    assert groups == GroupsOf(alerts);
    var formatted := FormatEntries(keys, groups);
    entries := SortBy(formatted, EntryOrder());
    EntryOrderTotal();
    SortBySorted(formatted, EntryOrder());
    forall k {
      SortByStable(formatted, EntryOrder(), k);
    }
  }

  /** The rows of risk level `l` named `n`, in input order. */
  function Named(alerts: seq<ScanAlert>, l: RiskLevel, n: string): (r: seq<ScanAlert>)
    ensures |r| <= |alerts|
  {
    if alerts == [] then []
    else
      var last := alerts[|alerts| - 1];
      Named(alerts[..|alerts| - 1], l, n) + (if last.riskLevel == l && last.alertName == n then [last] else [])
  }

  /** A name's list holds exactly the rows of that level and name. */
  lemma {:induction false} NamedIn(alerts: seq<ScanAlert>, l: RiskLevel, n: string)
    ensures forall a :: a in Named(alerts, l, n) <==> a in alerts && a.riskLevel == l && a.alertName == n
  {
    if alerts != [] {
      var prefix := alerts[..|alerts| - 1];
      NamedIn(prefix, l, n);
      assert alerts == prefix + [alerts[|alerts| - 1]];
    }
  }

  /** A level and name no row has has an empty list. */
  lemma {:induction false} NoneNamed(alerts: seq<ScanAlert>, l: RiskLevel, n: string)
    requires n !in NamesAt(alerts, l)
    ensures Named(alerts, l, n) == []
  {
    if alerts != [] {
      NoneNamed(alerts[..|alerts| - 1], l, n);
    }
  }

  /** The names of the rows of risk level `l`. */
  function NamesAt(alerts: seq<ScanAlert>, l: RiskLevel): set<string> {
    if alerts == [] then {}
    else
      var last := alerts[|alerts| - 1];
      NamesAt(alerts[..|alerts| - 1], l) + (if last.riskLevel == l then {last.alertName} else {})
  }

  /** The names at a level are exactly the names of the rows of that level. */
  lemma {:induction false} NamesAtIn(alerts: seq<ScanAlert>, l: RiskLevel)
    ensures forall n :: n in NamesAt(alerts, l) <==> exists a :: a in alerts && a.riskLevel == l && a.alertName == n
  {
    if alerts != [] {
      var prefix := alerts[..|alerts| - 1];
      NamesAtIn(prefix, l);
      assert alerts == prefix + [alerts[|alerts| - 1]];
      assert forall a :: a in alerts <==> a in prefix || a == alerts[|alerts| - 1];
    }
  }

  /** `byName` groups the rows of level `l` by name: its names are theirs, each with its rows in order. */
  predicate GroupedAt(byName: map<string, seq<ScanAlert>>, alerts: seq<ScanAlert>, l: RiskLevel) {
    byName.Keys == NamesAt(alerts, l) && forall n :: n in byName ==> byName[n] == Named(alerts, l, n)
  }

  /** Appending a row to the name's list (created empty when new) keeps the grouping of its level. */
  lemma AppendKeepsGrouped(byName: map<string, seq<ScanAlert>>, alerts: seq<ScanAlert>, a: ScanAlert, l: RiskLevel)
    requires GroupedAt(byName, alerts, l)
    ensures a.riskLevel == l ==>
      var base := if a.alertName in byName then byName[a.alertName] else [];
      GroupedAt(byName[a.alertName := base + [a]], alerts + [a], l)
    ensures a.riskLevel != l ==> GroupedAt(byName, alerts + [a], l)
  {
    NamedStep(alerts, a, l);
    if a.alertName !in byName {
      NoneNamed(alerts, l, a.alertName);
    }
  }

  /** One more row joins the names and the list of its own level and name only. */
  lemma NamedStep(alerts: seq<ScanAlert>, a: ScanAlert, l: RiskLevel)
    ensures NamesAt(alerts + [a], l) == NamesAt(alerts, l) + (if a.riskLevel == l then {a.alertName} else {})
    ensures forall n :: (Named(alerts + [a], l, n) ==
      Named(alerts, l, n) + (if a.riskLevel == l && a.alertName == n then [a] else []))
  {
    var next := alerts + [a];
    assert next[..|next| - 1] == alerts && next[|next| - 1] == a;
  }

  /** The four levels of the outer map, each grouping `alerts` at its level. */
  predicate GroupedByRisk(grouped: map<RiskLevel, map<string, seq<ScanAlert>>>, alerts: seq<ScanAlert>) {
    && grouped.Keys == {High, Medium, Low, Informational}
    && forall l :: l in grouped ==> GroupedAt(grouped[l], alerts, l)
  }

  /** Filing one more row under its level and name keeps the whole map grouped. */
  lemma FileKeepsGrouped(grouped: map<RiskLevel, map<string, seq<ScanAlert>>>, alerts: seq<ScanAlert>, a: ScanAlert)
    requires GroupedByRisk(grouped, alerts)
    ensures a.riskLevel in grouped
    ensures
      var byName := grouped[a.riskLevel];
      var base := if a.alertName in byName then byName[a.alertName] else [];
      GroupedByRisk(grouped[a.riskLevel := byName[a.alertName := base + [a]]], alerts + [a])
  {
    assert a.riskLevel in grouped by {
      match a.riskLevel
      case High =>
      case Medium =>
      case Low =>
      case Informational =>
    }
    var byName := grouped[a.riskLevel];
    var base := if a.alertName in byName then byName[a.alertName] else [];
    var next := grouped[a.riskLevel := byName[a.alertName := base + [a]]];
    forall l | l in next
      ensures GroupedAt(next[l], alerts + [a], l)
    {
      AppendKeepsGrouped(grouped[l], alerts, a, l);
    }
  }

  /**
   * `_group_alerts_by_risk`: for each of the four levels, the names of its rows, each
   * with that level's rows of that name in input order.
   */
  method GroupAlertsByRisk(alerts: seq<ScanAlert>) returns (grouped: map<RiskLevel, map<string, seq<ScanAlert>>>)
    ensures GroupedByRisk(grouped, alerts)
  {
    grouped := map[High := map[], Medium := map[], Low := map[], Informational := map[]];
    var i := 0;
    while i < |alerts|
      invariant 0 <= i <= |alerts|
      invariant GroupedByRisk(grouped, alerts[..i])
    {
      var alert := alerts[i];
      PrefixStep(alerts, i);
      FileKeepsGrouped(grouped, alerts[..i], alert);
      var byName := grouped[alert.riskLevel];
      var base := if alert.alertName in byName then byName[alert.alertName] else [];
      grouped := grouped[alert.riskLevel := byName[alert.alertName := base + [alert]]];
      i := i + 1;
    }
    assert alerts[..i] == alerts;
  }
}

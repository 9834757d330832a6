/** The dashboard statistics (backend/routes/analytics.js): count
    dictionaries initialised to zero and overwritten by the grouped query
    rows, the status-to-category mapping, and the monthly series. */
module Analytics {
  import opened Js

  /** One grouped result row: a status (or category) and `parseInt(count)`. */
  datatype CountRow = CountRow(key: string, count: nat)

  /** The position of the last row for `key`, if any row has it. */
  function LastIndex(rows: seq<CountRow>, key: string): (r: Option<nat>)
    ensures r.None? <==> forall i :: 0 <= i < |rows| ==> rows[i].key != key
    ensures r.Some? ==>
      && r.value < |rows| && rows[r.value].key == key
      && forall j :: r.value < j < |rows| ==> rows[j].key != key
  {
    if rows == [] then None
    else if rows[|rows| - 1].key == key then Some(|rows| - 1)
    else LastIndex(rows[..|rows| - 1], key)
  }

  /** The count the last row for `key` carries, if any row has it. */
  function LastCount(rows: seq<CountRow>, key: string): Option<nat> {
    match LastIndex(rows, key)
    case None => None
    case Some(i) => Some(rows[i].count)
  }

  function CountOrZero(c: Option<nat>): nat {
    if c.Some? then c.value else 0
  }

  function Keys(rows: seq<CountRow>): set<string> {
    set i | 0 <= i < |rows| :: rows[i].key
  }

  /** One more row adds its key. */
  lemma KeysAppend(rows: seq<CountRow>, i: nat)
    requires i < |rows|
    ensures Keys(rows[..i + 1]) == Keys(rows[..i]) + {rows[i].key}
  {
    var e, p := rows[..i + 1], rows[..i];
    forall k | k in Keys(e) ensures k in Keys(p) + {rows[i].key} {
      var j :| 0 <= j < |e| && e[j].key == k;
      if j < i {
        assert p[j] == e[j];
      }
    }
    forall k | k in Keys(p) ensures k in Keys(e) {
      var j :| 0 <= j < |p| && p[j].key == k;
      assert e[j] == p[j];
    }
    assert e[i] == rows[i];
  }

  /** One more row decides the last count of its key and of no other. */
  lemma LastCountAppend(rows: seq<CountRow>, i: nat, s: string)
    requires i < |rows|
    ensures LastCount(rows[..i + 1], s) == if s == rows[i].key then Some(rows[i].count) else LastCount(rows[..i], s)
  {
    var e := rows[..i + 1];
    assert e[..|e| - 1] == rows[..i];
  }

  /** The statuses the overview always reports. */
  const BreakdownStatuses: set<string> := {"new", "in-process", "pending", "approved", "rejected"}

  /** The overview's `applicationStatusBreakdown`: every status of the five
      starts at 0 and each row then overwrites the entry for its status. */
  method StatusBreakdown(rows: seq<CountRow>) returns (breakdown: map<string, nat>)
    ensures breakdown.Keys == BreakdownStatuses + Keys(rows)
    ensures forall s | s in breakdown :: breakdown[s] == CountOrZero(LastCount(rows, s))
  {
    breakdown := map["new" := 0, "in-process" := 0, "pending" := 0, "approved" := 0, "rejected" := 0];
    var i := 0;
    while i < |rows|
      invariant 0 <= i <= |rows|
      invariant breakdown.Keys == BreakdownStatuses + Keys(rows[..i])
      invariant forall s | s in breakdown :: breakdown[s] == CountOrZero(LastCount(rows[..i], s))
    {
      var row := rows[i];
      KeysAppend(rows, i);
      var next := breakdown[row.key := row.count];
      forall s | s in next ensures next[s] == CountOrZero(LastCount(rows[..i + 1], s)) {
        LastCountAppend(rows, i, s);
      }
      breakdown := next;
      i := i + 1;
    }
    assert rows[..i] == rows;
  }

  /** With the query's rows (distinct statuses, all among the five) the
      breakdown has exactly the five keys, each the count of its row or 0. */
  lemma GroupedBreakdown(rows: seq<CountRow>, breakdown: map<string, nat>)
    requires forall i :: 0 <= i < |rows| ==> rows[i].key in BreakdownStatuses
    requires forall i, j :: 0 <= i < j < |rows| ==> rows[i].key != rows[j].key
    requires breakdown.Keys == BreakdownStatuses + Keys(rows)
    requires forall s | s in breakdown :: breakdown[s] == CountOrZero(LastCount(rows, s))
    ensures breakdown.Keys == BreakdownStatuses
    ensures forall i :: 0 <= i < |rows| ==> breakdown[rows[i].key] == rows[i].count
    ensures forall s | s in BreakdownStatuses && (forall i :: 0 <= i < |rows| ==> rows[i].key != s) :: breakdown[s] == 0
  {
    forall i | 0 <= i < |rows| ensures breakdown[rows[i].key] == rows[i].count {
      var j := LastIndex(rows, rows[i].key).value;
      if j != i {
        assert false;
      }
    }
  }

  /** The `CASE` of the distribution query. */
  function StatusCategory(status: string): (c: string)
    ensures c == "resigned" <==> status == "resigned"
    ensures c == "active" <==> status == "approved"
    ensures c in {"resigned", "active", "other"}
  {
    if status == "resigned" then "resigned"
    else if status == "approved" then "active"
    else "other"
  }

  /** Only the statuses the distribution query keeps map to a counted
      category. */
  lemma CountedCategories(status: string)
    ensures StatusCategory(status) in {"active", "resigned"} <==> status in {"approved", "resigned"}
  {
  }

  /** `/doctor-status-distribution`: `active` and `resigned` start at 0;
      rows of those two categories overwrite them and any other row is
      ignored. */
  method Distribution(rows: seq<CountRow>) returns (distribution: map<string, nat>)
    ensures distribution.Keys == {"active", "resigned"}
    ensures forall s | s in distribution :: distribution[s] == CountOrZero(LastCount(rows, s))
  {
    distribution := map["active" := 0, "resigned" := 0];
    var i := 0;
    while i < |rows|
      invariant 0 <= i <= |rows|
      invariant distribution.Keys == {"active", "resigned"}
      invariant forall s | s in distribution :: distribution[s] == CountOrZero(LastCount(rows[..i], s))
    {
      var row := rows[i];
      var next := if row.key == "active" || row.key == "resigned" then distribution[row.key := row.count]
                  else distribution;
      forall s | s in next ensures next[s] == CountOrZero(LastCount(rows[..i + 1], s)) {
        LastCountAppend(rows, i, s);
      }
      distribution := next;
      i := i + 1;
    }
    assert rows[..i] == rows;
  }

  /** A row whose category is neither counted key leaves the
      distribution as it was. */
  lemma OtherCategoryIgnored(rows: seq<CountRow>, count: nat)
    ensures forall s | s in {"active", "resigned"} ::
      LastCount(rows + [CountRow("other", count)], s) == LastCount(rows, s)
  {
    var extended := rows + [CountRow("other", count)];
    assert extended[..|extended| - 1] == rows;
  }

  /** A raw monthly row: `TO_CHAR(created_at, 'Mon')` and `COUNT(*)`, which
      the database driver hands over as text (a bigint). */
  datatype MonthRow = MonthRow(month: string, count: string)

  datatype MonthPoint = MonthPoint(month: string, count: nat)

  /** `result.rows.map(row => ({ month, count: parseInt(count) }))`. */
  function MonthlySeries(rows: seq<MonthRow>): (r: seq<MonthPoint>)
    ensures |r| == |rows|
  {
    seq(|rows|, i requires 0 <= i < |rows| => MonthPoint(rows[i].month, DecimalValue(rows[i].count)))
  }

  /** The rows of counts the query produced: month `months[i]` counted
      `counts[i]` records, written in decimal. */
  function CountedRows(months: seq<string>, counts: seq<nat>): (rows: seq<MonthRow>)
    requires |months| == |counts|
    ensures |rows| == |months|
  {
    seq(|months|, i requires 0 <= i < |months| => MonthRow(months[i], DecimalString(counts[i])))
  }

  /** The series reports every month's count as the query computed it,
      month by month in the query's order. */
  lemma MonthlySeriesReadsCounts(months: seq<string>, counts: seq<nat>)
    requires |months| == |counts|
    ensures forall i :: 0 <= i < |months| ==>
      MonthlySeries(CountedRows(months, counts))[i] == MonthPoint(months[i], counts[i])
  {
    var rows := CountedRows(months, counts);
    forall i | 0 <= i < |months| ensures MonthlySeries(rows)[i] == MonthPoint(months[i], counts[i]) {
      DecimalRoundTrip(counts[i]);
    }
  }

  /** The series keeps the query's month order: consecutive rows give
      consecutive points. */
  lemma MonthlySeriesAppend(a: seq<MonthRow>, b: seq<MonthRow>)
    ensures MonthlySeries(a + b) == MonthlySeries(a) + MonthlySeries(b)
  {
  }
}

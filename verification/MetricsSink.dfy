/** Per-class totals and the bounded tail of recent fetches, measured against everything ever emitted. */
module Metrics {
  import opened Wrappers
  import opened Blake
  import opened AssetClasses

  const RECENT_CAP: nat := 256

  /** One row on the wire. */
  datatype FetchMetric = FetchMetric(timestampSecs: nat, nodeId: string, peerClass: string, className: string,
                                     blake3: string, tierSource: string, bytesServed: nat, peerId: Option<string>,
                                     durationMs: nat)

  datatype ClassTotals = ClassTotals(fetches: nat, hits: nat, bytesServed: nat)
  {
    function Plus(t: ClassTotals): ClassTotals {
      ClassTotals(fetches + t.fetches, hits + t.hits, bytesServed + t.bytesServed)
    }
  }

  /** What the counters see of a report. */
  predicate RowFits(row: FetchMetric, report: FetchReport) {
    && row.className == report.className && row.bytesServed == report.bytesServed
    && (row.tierSource == "miss" <==> report.tier.None?)
  }

  ghost predicate RowsFit(rows: seq<FetchMetric>, reports: seq<FetchReport>) {
    |rows| == |reports| && forall i :: 0 <= i < |rows| ==> RowFits(rows[i], reports[i])
  }

  const ZERO: ClassTotals := ClassTotals(0, 0, 0)

  function RowTotals(row: FetchMetric): ClassTotals {
    ClassTotals(1, if row.tierSource != "miss" then 1 else 0, row.bytesServed)
  }

  // ---------------------------------------------------------------- the whole history

  function OfClass(rows: seq<FetchMetric>, className: string): seq<FetchMetric> {
    if rows == [] then []
    else
      OfClass(rows[..|rows| - 1], className)
      + if rows[|rows| - 1].className == className then [rows[|rows| - 1]] else []
  }

  function Sum(rows: seq<FetchMetric>): ClassTotals {
    if rows == [] then ZERO else Sum(rows[..|rows| - 1]).Plus(RowTotals(rows[|rows| - 1]))
  }

  function Tail<T>(s: seq<T>, n: nat): seq<T> {
    if |s| <= n then s else s[|s| - n..]
  }

  function Get(totals: map<string, ClassTotals>, className: string): ClassTotals {
    if className in totals then totals[className] else ZERO
  }

  class MetricsSink {
    const nodeId: string
    const peerClass: string
    var rows: seq<FetchMetric>
    var totals: map<string, ClassTotals>
    ghost var history: seq<FetchMetric>

    /** The counters and the tail are what the full history says they are. */
    ghost predicate Valid()
      reads this
    {
      && rows == Tail(history, RECENT_CAP)
      && (forall c :: Get(totals, c) == Sum(OfClass(history, c)))
    }

    constructor (nodeId: string, peerClass: string)
      ensures Valid() && history == []
      ensures this.nodeId == nodeId && this.peerClass == peerClass
    {
      this.nodeId, this.peerClass := nodeId, peerClass;
      rows, totals, history := [], map[], [];
    }

    function ToMetric(report: FetchReport, now: nat): (row: FetchMetric)
      ensures RowFits(row, report)
      ensures FromHex(row.blake3) == Some(report.hash) && row.tierSource == report.TierLabel()
      ensures row.timestampSecs == now && row.nodeId == nodeId && row.peerClass == peerClass
      ensures row.peerId == report.peerId && row.durationMs == report.durationMs
    {
      LabelNamesTier(report);
      HexRoundTrip(report.hash);
      FetchMetric(now, nodeId, peerClass, report.className, ToHex(report.hash), report.TierLabel(),
                  report.bytesServed, report.peerId, report.durationMs)
    }

    method Emit(report: FetchReport, now: nat)
      requires Valid()
      modifies this`rows, this`totals, this`history
      ensures Valid() && history == old(history) + [ToMetric(report, now)]
    {
      hide Sum, OfClass, Tail, ToHex, FromHex;
      var metric := ToMetric(report, now);
      var t := if metric.className in totals then totals[metric.className] else ClassTotals(0, 0, 0);
      var fetches := t.fetches + 1;
      var hits := if metric.tierSource != "miss" then t.hits + 1 else t.hits;
      ghost var before := totals;
      totals := totals[metric.className := ClassTotals(fetches, hits, t.bytesServed + metric.bytesServed)];
      if |rows| == RECENT_CAP {
        rows := rows[1..];
      }
      rows := rows + [metric];
      EmitKeepsTotals(history, metric, before, totals);
      TailStep(history, metric, RECENT_CAP);
      history := history + [metric];
    }

    /** The observer that a node registers with its classes: it emits every report, whenever it comes. */
    method Observe(reports: seq<FetchReport>, times: seq<nat>)
      requires Valid() && |times| == |reports|
      modifies this`rows, this`totals, this`history
      ensures Valid() && |history| == |old(history)| + |reports| && old(history) <= history
      ensures RowsFit(history[|old(history)|..], reports)
    {
      for i := 0 to |reports|
        invariant Valid() && |history| == |old(history)| + i && old(history) <= history
        invariant forall k :: 0 <= k < i ==> RowFits(history[|old(history)| + k], reports[k])
      {
        Emit(reports[i], times[i]);
      }
    }

    method TotalsFor(className: string) returns (t: ClassTotals)
      requires Valid()
      ensures t == Sum(OfClass(history, className))
    {
      t := if className in totals then totals[className] else ClassTotals(0, 0, 0);
      assert t == Get(totals, className);
    }

    /** The last `limit` of the class's rows that are still in the tail, oldest first. */
    method RecentFor(className: string, limit: nat) returns (recent: seq<FetchMetric>)
      requires Valid()
      ensures recent == Tail(OfClass(Tail(history, 256), className), limit)
    {
      var matching := [];
      for i := 0 to |rows|
        invariant matching == OfClass(rows[..i], className)
      {
        assert rows[..i + 1][..i] == rows[..i];
        if rows[i].className == className {
          matching := matching + [rows[i]];
        }
      }
      assert rows[..|rows|] == rows;
      var skip := if |matching| >= limit then |matching| - limit else 0;
      recent := matching[skip..];
    }
  }

  /** The last `n` elements, or all there are. */
  lemma TailIs<T>(s: seq<T>, n: nat)
    ensures |Tail(s, n)| == if |s| < n then |s| else n
    ensures exists older :: s == older + Tail(s, n)
  {
    assert s == s[..|s| - |Tail(s, n)|] + Tail(s, n);
  }

  lemma TailStep<T>(s: seq<T>, x: T, n: nat)
    requires n > 0
    ensures |Tail(s, n)| <= n
    ensures Tail(s + [x], n) == (if |Tail(s, n)| == n then Tail(s, n)[1..] else Tail(s, n)) + [x]
  {
  }

  lemma OfClassSnoc(rows: seq<FetchMetric>, row: FetchMetric, c: string)
    ensures OfClass(rows + [row], c) == OfClass(rows, c) + if row.className == c then [row] else []
  {
  }

  lemma SumSnoc(rows: seq<FetchMetric>, row: FetchMetric)
    ensures Sum(rows + [row]) == Sum(rows).Plus(RowTotals(row))
  {
  }

  lemma EmitKeepsTotals(history: seq<FetchMetric>, row: FetchMetric, before: map<string, ClassTotals>,
                        after: map<string, ClassTotals>)
    requires forall c :: Get(before, c) == Sum(OfClass(history, c))
    requires after == before[row.className := Get(before, row.className).Plus(RowTotals(row))]
    ensures forall c :: Get(after, c) == Sum(OfClass(history + [row], c))
  {
    forall c ensures Get(after, c) == Sum(OfClass(history + [row], c)) {
      hide Sum, OfClass;
      OneMore(history, row, c);
    }
  }

  // ---------------------------------------------------------------- totals against counts

  ghost function HitsAmong(rows: seq<FetchMetric>): set<nat> {
    set i | 0 <= i < |rows| && rows[i].tierSource != "miss"
  }

  /** The counters of two histories in a row add up, and those of one row are its own. */
  lemma {:induction false} SumConcat(s: seq<FetchMetric>, t: seq<FetchMetric>)
    ensures Sum(s + t).fetches == Sum(s).fetches + Sum(t).fetches
    ensures Sum(s + t).hits == Sum(s).hits + Sum(t).hits
    ensures Sum(s + t).bytesServed == Sum(s).bytesServed + Sum(t).bytesServed
  {
    if t == [] {
      assert s + t == s;
    } else {
      assert (s + t)[..|s + t| - 1] == s + t[..|t| - 1];
      SumConcat(s, t[..|t| - 1]);
    }
  }

  lemma SumOne(row: FetchMetric)
    ensures Sum([row]) == ClassTotals(1, if row.tierSource == "miss" then 0 else 1, row.bytesServed)
  {
    assert [row][..0] == [];
  }

  /** A class's fetch counter is the number of its rows, its hit counter the number of those that are not misses. */
  lemma {:induction false} SumCounts(rows: seq<FetchMetric>)
    ensures Sum(rows).fetches == |rows|
    ensures Sum(rows).hits == |HitsAmong(rows)|
  {
    if rows != [] {
      var n := |rows| - 1;
      SumCounts(rows[..n]);
      assert HitsAmong(rows) == HitsAmong(rows[..n]) + if rows[n].tierSource != "miss" then {n} else {};
    }
  }

  /** A row belongs to a class's history exactly when it was emitted for that class. */
  lemma {:induction false} OfClassMeans(rows: seq<FetchMetric>, c: string, row: FetchMetric)
    ensures row in OfClass(rows, c) <==> row in rows && row.className == c
  {
    if rows != [] {
      OfClassMeans(rows[..|rows| - 1], c, row);
      assert rows == rows[..|rows| - 1] + [rows[|rows| - 1]];
    }
  }

  ghost function PlacesOf(rows: seq<FetchMetric>, c: string): set<nat> {
    set i | 0 <= i < |rows| && rows[i].className == c
  }

  /** So with `SumCounts`, a class's fetch counter is the number of rows ever emitted for it. */
  lemma {:induction false} OfClassCounts(rows: seq<FetchMetric>, c: string)
    ensures |OfClass(rows, c)| == |PlacesOf(rows, c)|
  {
    if rows != [] {
      var n := |rows| - 1;
      OfClassCounts(rows[..n], c);
      assert PlacesOf(rows, c) == PlacesOf(rows[..n], c) + if rows[n].className == c then {n} else {};
    }
  }

  /** The totals of the classes in `classes`, added up. */
  function SumOver(rows: seq<FetchMetric>, classes: seq<string>): ClassTotals {
    if |classes| == 0 then ZERO
    else SumOver(rows, classes[..|classes| - 1]).Plus(Sum(OfClass(rows, classes[|classes| - 1])))
  }

  predicate Distinct(classes: seq<string>) {
    forall i, j :: 0 <= i < j < |classes| ==> classes[i] != classes[j]
  }

  lemma OneMore(rows: seq<FetchMetric>, row: FetchMetric, c: string)
    ensures Sum(OfClass(rows + [row], c))
         == Sum(OfClass(rows, c)).Plus(if row.className == c then RowTotals(row) else ZERO)
  {
    hide *;
    var mine := OfClass(rows, c);
    OfClassSnoc(rows, row, c);
    if row.className == c {
      SumSnoc(mine, row);
    } else {
      assert mine + [] == mine;
      PlusZero(Sum(mine));
    }
  }

  lemma PlusZero(t: ClassTotals)
    ensures t.Plus(ZERO) == t
  {
  }

  lemma PlusSwap(a: ClassTotals, b: ClassTotals, x: ClassTotals, y: ClassTotals)
    requires x == ZERO || y == ZERO
    ensures a.Plus(x).Plus(b.Plus(y)) == a.Plus(b).Plus(if x == ZERO then y else x)
  {
  }

  function Share(row: FetchMetric, classes: seq<string>): ClassTotals {
    if row.className in classes then RowTotals(row) else ZERO
  }

  lemma ShareSplits(row: FetchMetric, init: seq<string>, c: string)
    requires Distinct(init + [c])
    ensures Distinct(init)
    ensures var x, y := Share(row, init), if row.className == c then RowTotals(row) else ZERO;
      && (x == ZERO || y == ZERO)
      && Share(row, init + [c]) == if x == ZERO then y else x
  {
    var classes := init + [c];
    assert forall i, j :: 0 <= i < j < |init| ==> classes[i] == init[i] && classes[j] == init[j];
    assert c !in init by {
      forall i | 0 <= i < |init| ensures init[i] != c { assert classes[i] != classes[|init|]; }
    }
  }

  lemma SumOverSnocStep(rows: seq<FetchMetric>, row: FetchMetric, init: seq<string>, c: string)
    requires Distinct(init + [c])
    requires SumOver(rows + [row], init) == SumOver(rows, init).Plus(Share(row, init))
    ensures SumOver(rows + [row], init + [c]) == SumOver(rows, init + [c]).Plus(Share(row, init + [c]))
  {
    hide *;
    var more := rows + [row];
    var y := if row.className == c then RowTotals(row) else ZERO;
    ShareSplits(row, init, c);
    OneMore(rows, row, c);
    SumOverStep(rows, init, c);
    SumOverStep(more, init, c);
    PlusSwap(SumOver(rows, init), Sum(OfClass(rows, c)), Share(row, init), y);
  }

  lemma {:induction false} SumOverSnoc(rows: seq<FetchMetric>, row: FetchMetric, classes: seq<string>)
    requires Distinct(classes)
    ensures SumOver(rows + [row], classes) == SumOver(rows, classes).Plus(Share(row, classes))
    decreases |classes|
  {
    hide *;
    if |classes| == 0 {
      assert classes == [];
      SumOverNone(rows);
      SumOverNone(rows + [row]);
      ShareOfNone(row);
      PlusZero(ZERO);
    } else {
      var init, c := classes[..|classes| - 1], classes[|classes| - 1];
      assert classes == init + [c];
      ShareSplits(row, init, c);
      SumOverSnoc(rows, row, init);
      SumOverSnocStep(rows, row, init, c);
    }
  }

  lemma SumOverNone(rows: seq<FetchMetric>)
    ensures SumOver(rows, []) == ZERO
  {
    hide Sum, OfClass;
  }

  lemma ShareOfNone(row: FetchMetric)
    ensures Share(row, []) == ZERO
  {
    hide RowTotals;
  }

  lemma SumOverStep(rows: seq<FetchMetric>, init: seq<string>, c: string)
    ensures SumOver(rows, init + [c]) == SumOver(rows, init).Plus(Sum(OfClass(rows, c)))
  {
  }

  lemma {:induction false} SumOverNothing(classes: seq<string>)
    ensures SumOver([], classes) == ZERO
    decreases |classes|
  {
    hide *;
    if |classes| == 0 {
      assert classes == [];
      SumOverNone([]);
    } else {
      var init, c := classes[..|classes| - 1], classes[|classes| - 1];
      assert classes == init + [c];
      SumOverNothing(init);
      SumOverStep([], init, c);
      OfNobody(c);
      PlusZero(ZERO);
    }
  }

  /** Added over any list of distinct classes that misses nobody, the per-class totals are the totals of everything. */
  lemma {:induction false} ClassesAddUp(rows: seq<FetchMetric>, classes: seq<string>)
    requires Distinct(classes)
    requires forall i :: 0 <= i < |rows| ==> rows[i].className in classes
    ensures SumOver(rows, classes) == Sum(rows)
  {
    if rows == [] {
      SumOverNothing(classes);
    } else {
      var init, row := rows[..|rows| - 1], rows[|rows| - 1];
      assert rows == init + [row];
      forall i | 0 <= i < |init| ensures init[i].className in classes { assert init[i] == rows[i]; }
      ClassesAddUp(init, classes);
      SumOverSnoc(init, row, classes);
      SumSnoc(init, row);
    }
  }

  /** The tail that a class sees is a tail of that class's own history. */
  lemma {:induction false} RecentIsTailOfClass(history: seq<FetchMetric>, c: string, cap: nat, limit: nat)
    ensures exists n: nat :: n <= limit && Tail(OfClass(Tail(history, cap), c), limit) == Tail(OfClass(history, c), n)
  {
    var recent := Tail(history, cap);
    var lead := history[..|history| - |recent|];
    assert history == lead + recent;
    OfClassConcat(lead, recent, c);
    var all, some := OfClass(history, c), OfClass(recent, c);
    var n := if |some| < limit then |some| else limit;
    assert Tail(some, limit) == Tail(all, n);
  }

  lemma {:induction false} OfClassConcat(s: seq<FetchMetric>, t: seq<FetchMetric>, c: string)
    ensures OfClass(s + t, c) == OfClass(s, c) + OfClass(t, c)
  {
    if t == [] {
      assert s + t == s;
    } else {
      assert (s + t)[..|s + t| - 1] == s + t[..|t| - 1];
      OfClassConcat(s, t[..|t| - 1], c);
    }
  }

  // ---------------------------------------------------------------- metrics of a run of fetches

  function ReturnedOne(result: FetchResult): ClassTotals {
    match result case Ok(bytes) => ClassTotals(1, 1, |bytes|) case FetchFailed(_) => ClassTotals(1, 0, 0)
  }

  /** What a run returned to its callers: how many fetches came back, how many with bytes, and how many bytes. */
  function Returned(results: seq<(Hash, FetchResult)>): ClassTotals {
    if results == [] then ZERO
    else Returned(results[..|results| - 1]).Plus(ReturnedOne(results[|results| - 1].1))
  }

  lemma RowOfResult(name: string, result: (Hash, FetchResult), report: FetchReport, row: FetchMetric)
    requires RowFits(row, report) && ReportFits(name, result.0, result.1, report)
    ensures row.className == name && RowTotals(row) == ReturnedOne(result.1)
  {
  }

  lemma {:induction false} RowsOfResults(name: string, results: seq<(Hash, FetchResult)>, reports: seq<FetchReport>,
                                         rows: seq<FetchMetric>)
    requires RowsFit(rows, reports) && |results| == |reports|
    requires forall i :: 0 <= i < |results| ==> ReportFits(name, results[i].0, results[i].1, reports[i])
    ensures Sum(OfClass(rows, name)) == Returned(results)
  {
    hide OfClass, Sum, RowTotals, ReturnedOne, RowFits, ReportFits, Returned;
    if results == [] {
      OfNobody(name);
      ReturnedNothing();
      assert rows == [] && results == [];
    } else {
      var n := |results| - 1;
      RowsOfResults(name, results[..n], reports[..n], rows[..n]);
      assert rows == rows[..n] + [rows[n]];
      RowOfResult(name, results[n], reports[n], rows[n]);
      ReturnedMore(results);
      OneMore(rows[..n], rows[n], name);
    }
  }

  lemma OfNobody(name: string)
    ensures Sum(OfClass([], name)) == ZERO
  {
  }

  lemma ReturnedNothing()
    ensures Returned([]) == ZERO
  {
  }

  lemma ReturnedMore(results: seq<(Hash, FetchResult)>)
    requires results != []
    ensures Returned(results) == Returned(results[..|results| - 1]).Plus(ReturnedOne(results[|results| - 1].1))
  {
  }

  /**
    The counters an operator reads are the fetches, the successes and the bytes that the run handed out, when the sink
    has observed the reports of the run.
   */
  lemma TotalsAreTheRun(blake: Blob -> Hash, name: string, start: State, events: seq<Event>, rows: seq<FetchMetric>)
    requires Sound(blake, start.cache) && RowsFit(rows, Run(blake, name, start, events).reports)
    ensures Sum(OfClass(rows, name)) == Returned(Run(blake, name, start, events).results)
  {
    RunIsSound(blake, name, start, events);
    var t := Run(blake, name, start, events);
    RowsOfResults(name, t.results, t.reports, rows);
  }
}

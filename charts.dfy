/** The data behind the four charts generate_visualizations draws from the
    store: three scatter plots of one attribute against another, coloured by
    cluster, and the number of customers in each cluster. */
module Charts {
  import opened Ledger

  datatype Attribute = Age | Income | Score

  function Value(r: Record, a: Attribute): int
  {
    match a
    case Age => r.age
    case Income => r.income
    case Score => r.score
  }

  /** One dot of a scatter plot, with the cluster that colours it. */
  datatype Point = Point(x: int, y: int, cluster: nat)

  /** The dots of the scatter plot of attribute x against attribute y: one per
      record, in store order. */
  function Scatter(records: seq<Record>, x: Attribute, y: Attribute): (points: seq<Point>)
    ensures |points| == |records|
    ensures forall i :: 0 <= i < |records| ==>
      points[i] == Point(Value(records[i], x), Value(records[i], y), records[i].cluster)
  {
    if records == [] then []
    else [Point(Value(records[0], x), Value(records[0], y), records[0].cluster)] + Scatter(records[1..], x, y)
  }

  /** The three scatter plots of the page. */
  function IncomeVsScore(records: seq<Record>): seq<Point> { Scatter(records, Income, Score) }
  function AgeVsScore(records: seq<Record>): seq<Point> { Scatter(records, Age, Score) }
  function AgeVsIncome(records: seq<Record>): seq<Point> { Scatter(records, Age, Income) }

  /** The height of the bar for cluster c in the cluster-distribution chart. */
  function CountOf(records: seq<Record>, c: nat): nat
  {
    if records == [] then 0
    else (if records[0].cluster == c then 1 else 0) + CountOf(records[1..], c)
  }

  /** The bars of clusters 0..k-1 added up. */
  function SumCounts(records: seq<Record>, k: nat): nat
  {
    if k == 0 then 0 else SumCounts(records, k - 1) + CountOf(records, k - 1)
  }

  /** Every dot of every chart drawn from a store that keeps its invariant lies
      within the axes the charts are labelled with: positive age and income, a
      score in 1..100. */
  lemma {:induction false} ChartsWithinAxes(records: seq<Record>, i: nat)
    requires forall j :: 0 <= j < |records| ==> AdmissibleRecord(records[j])
    requires i < |records|
    ensures IncomeVsScore(records)[i].x > 0 && 0 < IncomeVsScore(records)[i].y <= MaxScore
    ensures AgeVsScore(records)[i].x > 0 && 0 < AgeVsScore(records)[i].y <= MaxScore
    ensures AgeVsIncome(records)[i].x > 0 && AgeVsIncome(records)[i].y > 0
  {
    assert AdmissibleRecord(records[i]);
  }

  /** Appending a record adds one dot at the end of each scatter plot and
      leaves the earlier dots as they were. */
  lemma ScatterAppend(records: seq<Record>, r: Record, x: Attribute, y: Attribute)
    ensures Scatter(records + [r], x, y) == Scatter(records, x, y) + [Point(Value(r, x), Value(r, y), r.cluster)]
  {
    var lhs := Scatter(records + [r], x, y);
    var rhs := Scatter(records, x, y) + [Point(Value(r, x), Value(r, y), r.cluster)];
    assert |lhs| == |rhs|;
    forall i | 0 <= i < |lhs| ensures lhs[i] == rhs[i] {
      if i < |records| {
        assert (records + [r])[i] == records[i];
      }
    }
  }

  /** A bar counts at most every record, and a cluster has a bar exactly when
      some record was assigned to it. */
  lemma {:induction false} CountOfMeaning(records: seq<Record>, c: nat)
    ensures CountOf(records, c) <= |records|
    ensures CountOf(records, c) > 0 <==> exists i :: 0 <= i < |records| && records[i].cluster == c
  {
    if records != [] {
      CountOfMeaning(records[1..], c);
      if CountOf(records[1..], c) > 0 {
        var i :| 0 <= i < |records[1..]| && records[1..][i].cluster == c;
        assert records[i + 1].cluster == c;
      }
      if exists i :: 0 <= i < |records| && records[i].cluster == c {
        var i :| 0 <= i < |records| && records[i].cluster == c;
        if i > 0 {
          assert records[1..][i - 1].cluster == c;
        }
      }
    }
  }

  /** Appending a record raises the bar of its cluster by one and leaves every
      other bar unchanged. */
  lemma {:induction false} CountOfAppend(records: seq<Record>, r: Record, c: nat)
    ensures CountOf(records + [r], c) == CountOf(records, c) + (if r.cluster == c then 1 else 0)
  {
    if records != [] {
      assert (records + [r])[1..] == records[1..] + [r];
      CountOfAppend(records[1..], r, c);
    }
  }

  lemma {:induction false} SumCountsCons(r: Record, records: seq<Record>, k: nat)
    ensures SumCounts([r] + records, k) == SumCounts(records, k) + (if r.cluster < k then 1 else 0)
  {
    if k > 0 {
      SumCountsCons(r, records, k - 1);
      assert ([r] + records)[1..] == records;
    }
  }

  /** When every cluster label is below k (a model with k clusters), the bars
      of the distribution chart add up to the number of records. */
  lemma {:induction false} CountsSumToSize(records: seq<Record>, k: nat)
    requires forall i :: 0 <= i < |records| ==> records[i].cluster < k
    ensures SumCounts(records, k) == |records|
  {
    if records == [] {
      EmptySum(k);
    } else {
      assert records == [records[0]] + records[1..];
      SumCountsCons(records[0], records[1..], k);
      CountsSumToSize(records[1..], k);
    }
  }

  lemma {:induction false} EmptySum(k: nat)
    ensures SumCounts([], k) == 0
  {
    if k > 0 { EmptySum(k - 1); }
  }
}

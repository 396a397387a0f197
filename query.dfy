/**
 * One query of the lookup page: nothing happens for an empty keyword;
 * otherwise the table is filtered, the usage column added, and the numbered
 * detail view and the numbered by-name summary computed, in the script's order.
 */
module Query {
  import opened Wrappers
  import opened Text
  import opened Rounding
  import opened RecordFilter
  import opened Views

  /** The two tables shown for a query. */
  datatype QueryViews = QueryViews(detail: seq<DetailRow>, summary: seq<SummaryRow>)

  method Run(table: seq<Record>, keyword: string) returns (views: Option<QueryViews>)
    ensures views.None? <==> keyword == []
    ensures views.Some? ==>
      var matched := Filter(table, keyword);
      var detail := views.value.detail;
      && |detail| == |matched|
      && forall i :: 0 <= i < |detail| ==>
        && detail[i].seqNo == i + 1
        && detail[i].code == matched[i].code
        && detail[i].name == matched[i].name
        && detail[i].usage == Round1(matched[i].quantity)
    ensures views.Some? ==>
      var matched := Filter(table, keyword);
      var summary := views.value.summary;
      && (forall i, j :: 0 <= i < j < |summary| ==> Below(summary[i].name, summary[j].name))
      && (set s | s in summary :: s.name) == (set r | r in matched && r.name.Some? :: r.name.value)
      && forall i :: 0 <= i < |summary| ==>
        && summary[i].seqNo == i + 1
        && summary[i].total == UsageOf(WithUsage(matched), summary[i].name)
    ensures views.Some? ==>
      Sum(Column(views.value.summary, SummaryTotal)) == Sum(Column(views.value.detail, DetailUsage))
  {
    if keyword == [] {
      return None;
    }
    var result := Filter(table, keyword);
    var withUsage := WithUsage(result);
    var detail := DetailView(withUsage);
    var groups := GroupByName(withUsage);
    var summary := SummaryView(groups);

    RollupNames(result);
    SummaryTotalsExact(result);
    RollupConserves(result);
    assert (set s | s in summary :: s.name) == Names(groups) by {
      forall k | k in Names(groups)
        ensures exists s :: s in summary && s.name == k
      {
        var g :| g in groups && g.name == k;
        var i :| 0 <= i < |groups| && groups[i] == g;
        assert summary[i] in summary;
      }
    }
    views := Some(QueryViews(detail, summary));
  }
}

/**
 * The two views computed from the matched rows: the numbered detail view
 * (one row per matched record) and the by-name rollup (one row per distinct
 * drug name, ascending, with the summed usage).
 */
module Views {
  import opened Wrappers
  import opened Text
  import opened Rounding
  import opened RecordFilter

  /** A matched record once the usage column has been added to it. */
  datatype UsageRow = UsageRow(code: string, name: Option<string>, quantity: real, usage: real)

  /** A row of the detail view: sequence number, drug code, drug name, usage. */
  datatype DetailRow = DetailRow(seqNo: nat, code: string, name: Option<string>, usage: real)

  /** One group of the rollup before numbering: a drug name and its summed usage. */
  datatype Group = Group(name: string, total: real)

  /** A row of the summary view: sequence number, drug name, cumulative total. */
  datatype SummaryRow = SummaryRow(seqNo: nat, name: string, total: real)

  /** Adds the usage column: each quantity rounded to one decimal place; the other columns are kept. */
  function WithUsage(rows: seq<Record>): (result: seq<UsageRow>)
    ensures |result| == |rows|
    ensures forall i :: 0 <= i < |rows| ==>
      && result[i].code == rows[i].code
      && result[i].name == rows[i].name
      && result[i].quantity == rows[i].quantity
      && OnTenths(result[i].usage)
      && rows[i].quantity - 0.05 <= result[i].usage <= rows[i].quantity + 0.05
  {
    seq(|rows|, i requires 0 <= i < |rows| =>
      UsageRow(rows[i].code, rows[i].name, rows[i].quantity, Round1(rows[i].quantity)))
  }

  /** Projects to (code, name, usage) and numbers the rows 1, 2, ... in order. */
  function DetailView(rows: seq<UsageRow>): (detail: seq<DetailRow>)
    ensures |detail| == |rows|
    ensures forall i :: 0 <= i < |rows| ==>
      && detail[i].seqNo == i + 1
      && detail[i].code == rows[i].code
      && detail[i].name == rows[i].name
      && detail[i].usage == rows[i].usage
  {
    seq(|rows|, i requires 0 <= i < |rows| =>
      DetailRow(i + 1, rows[i].code, rows[i].name, rows[i].usage))
  }

  // ---------------------------------------------------------------------
  // Sums over the rows

  function Sum(xs: seq<real>): real {
    if xs == [] then 0.0 else xs[0] + Sum(xs[1..])
  }

  /** One numeric column of a table, read off every row in order. */
  function Column<T>(rows: seq<T>, field: T -> real): (xs: seq<real>)
    ensures |xs| == |rows| && forall i :: 0 <= i < |rows| ==> xs[i] == field(rows[i])
  {
    seq(|rows|, i requires 0 <= i < |rows| => field(rows[i]))
  }

  function GroupTotal(g: Group): real { g.total }

  function DetailUsage(d: DetailRow): real { d.usage }

  function SummaryTotal(s: SummaryRow): real { s.total }

  /** Total usage of the rows named `name`. */
  function UsageOf(rows: seq<UsageRow>, name: string): real {
    if rows == [] then 0.0
    else (if rows[0].name == Some(name) then rows[0].usage else 0.0) + UsageOf(rows[1..], name)
  }

  /** Total usage of the rows that have a name at all. */
  function NamedUsage(rows: seq<UsageRow>): real {
    if rows == [] then 0.0
    else (if rows[0].name.Some? then rows[0].usage else 0.0) + NamedUsage(rows[1..])
  }

  /** The drug names present among the rows. */
  function NameSet(rows: seq<UsageRow>): set<string> {
    set r | r in rows && r.name.Some? :: r.name.value
  }

  // ---------------------------------------------------------------------
  // Groups as a sorted association list

  function Names(groups: seq<Group>): set<string> {
    set g | g in groups :: g.name
  }

  /** Sum of the totals of the groups named `name` (at most one in a well-formed rollup). */
  function KeyTotal(groups: seq<Group>, name: string): real {
    if groups == [] then 0.0
    else (if groups[0].name == name then groups[0].total else 0.0) + KeyTotal(groups[1..], name)
  }

  /** Group names strictly ascend, so no name appears twice. */
  predicate Ascending(groups: seq<Group>) {
    forall i, j :: 0 <= i < j < |groups| ==> Below(groups[i].name, groups[j].name)
  }

  /** Adds `usage` to the group `name`, creating it at its sorted place when it is new. */
  function Accumulate(groups: seq<Group>, name: string, usage: real): seq<Group>
  {
    if groups == [] then [Group(name, usage)]
    else if groups[0].name == name then [Group(name, groups[0].total + usage)] + groups[1..]
    else if Below(name, groups[0].name) then [Group(name, usage)] + groups
    else [groups[0]] + Accumulate(groups[1..], name, usage)
  }

  lemma ConsNames(g: Group, groups: seq<Group>)
    ensures Names([g] + groups) == {g.name} + Names(groups)
  {
  }

  lemma ConsKeyTotal(g: Group, groups: seq<Group>)
    ensures forall k :: KeyTotal([g] + groups, k) == (if g.name == k then g.total else 0.0) + KeyTotal(groups, k)
  {
  }

  lemma ConsSum(g: Group, groups: seq<Group>)
    ensures Sum(Column([g] + groups, GroupTotal)) == g.total + Sum(Column(groups, GroupTotal))
  {
    assert Column([g] + groups, GroupTotal)[1..] == Column(groups, GroupTotal);
  }

  /** Accumulating adds `name` to the group names and nothing else. */
  lemma {:induction false} AccumulateNames(groups: seq<Group>, name: string, usage: real)
    ensures Names(Accumulate(groups, name, usage)) == Names(groups) + {name}
  {
    if groups != [] {
      var g := groups[0];
      assert groups == [g] + groups[1..];
      ConsNames(g, groups[1..]);
      if g.name == name {
        ConsNames(Group(name, g.total + usage), groups[1..]);
      } else if Below(name, g.name) {
        ConsNames(Group(name, usage), groups);
      } else {
        AccumulateNames(groups[1..], name, usage);
        ConsNames(g, Accumulate(groups[1..], name, usage));
      }
    }
  }

  /** Accumulating adds `usage` to the group `name` and leaves every other group's total alone. */
  lemma {:induction false} AccumulateKeyTotal(groups: seq<Group>, name: string, usage: real)
    ensures forall k :: KeyTotal(Accumulate(groups, name, usage), k) == KeyTotal(groups, k) + (if k == name then usage else 0.0)
  {
    if groups != [] {
      var g := groups[0];
      assert groups == [g] + groups[1..];
      ConsKeyTotal(g, groups[1..]);
      if g.name == name {
        ConsKeyTotal(Group(name, g.total + usage), groups[1..]);
      } else if Below(name, g.name) {
        ConsKeyTotal(Group(name, usage), groups);
      } else {
        AccumulateKeyTotal(groups[1..], name, usage);
        ConsKeyTotal(g, Accumulate(groups[1..], name, usage));
      }
    }
  }

  /** Accumulating raises the sum of all totals by exactly `usage`. */
  lemma {:induction false} AccumulateSum(groups: seq<Group>, name: string, usage: real)
    ensures Sum(Column(Accumulate(groups, name, usage), GroupTotal)) == Sum(Column(groups, GroupTotal)) + usage
  {
    if groups != [] {
      var g := groups[0];
      assert groups == [g] + groups[1..];
      ConsSum(g, groups[1..]);
      if g.name == name {
        ConsSum(Group(name, g.total + usage), groups[1..]);
      } else if Below(name, g.name) {
        ConsSum(Group(name, usage), groups);
      } else {
        AccumulateSum(groups[1..], name, usage);
        ConsSum(g, Accumulate(groups[1..], name, usage));
      }
    }
  }

  /** Accumulating into an ascending list keeps it ascending. */
  lemma {:induction false} AccumulateAscending(groups: seq<Group>, name: string, usage: real)
    requires Ascending(groups)
    ensures Ascending(Accumulate(groups, name, usage))
  {
    if groups != [] {
      var g := groups[0];
      if g.name == name {
      } else if Below(name, g.name) {
        var result := Accumulate(groups, name, usage);
        forall i, j | 0 <= i < j < |result|
          ensures Below(result[i].name, result[j].name)
        {
          if i == 0 && j > 1 {
            BelowTransitive(name, g.name, result[j].name);
          }
        }
      } else {
        BelowTotal(name, g.name);
        AccumulateAscending(groups[1..], name, usage);
        AccumulateNames(groups[1..], name, usage);
        var rest := Accumulate(groups[1..], name, usage);
        var result := [g] + rest;
        forall j | 0 < j < |result|
          ensures Below(g.name, result[j].name)
        {
          assert result[j] == rest[j - 1];
          assert result[j].name in Names(rest);
          if result[j].name != name {
            var h :| h in groups[1..] && h.name == result[j].name;
            var m :| 0 <= m < |groups[1..]| && groups[1..][m] == h;
            assert groups[m + 1] == h;
          }
        }
      }
    }
  }

  // ---------------------------------------------------------------------
  // The by-name rollup

  /**
   * `groupby(name)[usage].sum()`: one group per distinct name, names ascending;
   * rows without a name belong to no group.
   */
  function GroupByName(rows: seq<UsageRow>): (groups: seq<Group>)
    ensures Ascending(groups)
    ensures Names(groups) == NameSet(rows)
    ensures forall k :: KeyTotal(groups, k) == UsageOf(rows, k)
    ensures Sum(Column(groups, GroupTotal)) == NamedUsage(rows)
  {
    if rows == [] then []
    else
      var rest := GroupByName(rows[1..]);
      NameSetUnfold(rows);
      if rows[0].name.Some? then
        var name, usage := rows[0].name.value, rows[0].usage;
        AccumulateAscending(rest, name, usage);
        AccumulateNames(rest, name, usage);
        AccumulateKeyTotal(rest, name, usage);
        AccumulateSum(rest, name, usage);
        Accumulate(rest, name, usage)
      else
        rest
  }

  lemma NameSetUnfold(rows: seq<UsageRow>)
    requires rows != []
    ensures NameSet(rows) == NameSet(rows[1..]) + (if rows[0].name.Some? then {rows[0].name.value} else {})
  {
  }

  /** A name absent from the groups has total zero. */
  lemma {:induction false} KeyTotalAbsent(groups: seq<Group>, k: string)
    requires k !in Names(groups)
    ensures KeyTotal(groups, k) == 0.0
  {
    if groups != [] {
      assert groups[0] in groups;
      assert Names(groups[1..]) <= Names(groups);
      KeyTotalAbsent(groups[1..], k);
    }
  }

  /** In an ascending rollup each group's total is the whole total recorded for its name. */
  lemma {:induction false} KeyTotalOfGroup(groups: seq<Group>, i: nat)
    requires Ascending(groups)
    requires i < |groups|
    ensures KeyTotal(groups, groups[i].name) == groups[i].total
  {
    var k := groups[i].name;
    if i == 0 {
      forall g | g in groups[1..]
        ensures g.name != k
      {
        var m :| 0 <= m < |groups[1..]| && groups[1..][m] == g;
        assert groups[m + 1] == g;
      }
      KeyTotalAbsent(groups[1..], k);
    } else {
      assert groups[1..][i - 1] == groups[i];
      KeyTotalOfGroup(groups[1..], i - 1);
    }
  }

  /** No drug name labels two groups. */
  lemma NamesDistinct(groups: seq<Group>)
    requires Ascending(groups)
    ensures forall i, j :: 0 <= i < |groups| && 0 <= j < |groups| && i != j ==> groups[i].name != groups[j].name
  {
  }

  /** Each rollup group's total is the total usage of the rows with that group's name. */
  lemma GroupTotals(rows: seq<UsageRow>)
    ensures forall i :: 0 <= i < |GroupByName(rows)| ==>
      GroupByName(rows)[i].total == UsageOf(rows, GroupByName(rows)[i].name)
  {
    var groups := GroupByName(rows);
    forall i | 0 <= i < |groups|
      ensures groups[i].total == UsageOf(rows, groups[i].name)
    {
      KeyTotalOfGroup(groups, i);
    }
  }

  /** Usage sums of whole tenths are whole tenths. */
  lemma {:induction false} UsageOfOnTenths(rows: seq<UsageRow>, k: string)
    requires forall r :: r in rows ==> OnTenths(r.usage)
    ensures OnTenths(UsageOf(rows, k))
  {
    if rows != [] {
      UsageOfOnTenths(rows[1..], k);
      OnTenthsAdd(if rows[0].name == Some(k) then rows[0].usage else 0.0, UsageOf(rows[1..], k));
    }
  }

  /** When every name is present, the named usage is the usage of all rows. */
  lemma {:induction false} NamedUsageAll(rows: seq<UsageRow>)
    requires forall r :: r in rows ==> r.name.Some?
    ensures NamedUsage(rows) == Sum(Column(DetailView(rows), DetailUsage))
  {
    if rows != [] {
      NamedUsageAll(rows[1..]);
      assert Column(DetailView(rows), DetailUsage)[1..] == Column(DetailView(rows[1..]), DetailUsage);
    }
  }

  // ---------------------------------------------------------------------
  // The summary view

  /** Renames the summed column, rounds it to one decimal place and numbers the groups 1, 2, ... */
  function SummaryView(groups: seq<Group>): (summary: seq<SummaryRow>)
    ensures |summary| == |groups|
    ensures forall i :: 0 <= i < |groups| ==>
      && summary[i].seqNo == i + 1
      && summary[i].name == groups[i].name
      && OnTenths(summary[i].total)
      && groups[i].total - 0.05 <= summary[i].total <= groups[i].total + 0.05
  {
    seq(|groups|, i requires 0 <= i < |groups| =>
      SummaryRow(i + 1, groups[i].name, Round1(groups[i].total)))
  }

  // ---------------------------------------------------------------------
  // The two views of one set of matched records

  /** The names in the rollup of `rows` are exactly the drug names present in `rows`. */
  lemma RollupNames(rows: seq<Record>)
    ensures Ascending(GroupByName(WithUsage(rows)))
    ensures Names(GroupByName(WithUsage(rows))) == set r | r in rows && r.name.Some? :: r.name.value
  {
  }

  /**
   * The second rounding is exact: each summary total is the summed usage of
   * the records with that name, and every summary row is numbered by its place.
   */
  lemma SummaryTotalsExact(rows: seq<Record>)
    ensures forall i :: 0 <= i < |SummaryView(GroupByName(WithUsage(rows)))| ==>
      && SummaryView(GroupByName(WithUsage(rows)))[i].total == GroupByName(WithUsage(rows))[i].total
      && SummaryView(GroupByName(WithUsage(rows)))[i].total ==
           UsageOf(WithUsage(rows), SummaryView(GroupByName(WithUsage(rows)))[i].name)
  {
    var withUsage := WithUsage(rows);
    var groups := GroupByName(withUsage);
    GroupTotals(withUsage);
    forall i | 0 <= i < |groups|
      ensures Round1(groups[i].total) == groups[i].total
    {
      UsageOfOnTenths(withUsage, groups[i].name);
      Round1Fixed(groups[i].total);
    }
  }

  /**
   * Conservation: when every record has a name (as after the filter), the
   * summary totals add up to the detail usages.
   */
  lemma RollupConserves(rows: seq<Record>)
    requires forall r :: r in rows ==> r.name.Some?
    ensures Sum(Column(SummaryView(GroupByName(WithUsage(rows))), SummaryTotal)) ==
            Sum(Column(DetailView(WithUsage(rows)), DetailUsage))
  {
    var withUsage := WithUsage(rows);
    var groups := GroupByName(withUsage);
    SummaryTotalsExact(rows);
    assert Column(SummaryView(groups), SummaryTotal) == Column(groups, GroupTotal);
    forall u | u in withUsage
      ensures u.name.Some?
    {
      var i :| 0 <= i < |withUsage| && withUsage[i] == u;
      assert rows[i] in rows;
    }
    NamedUsageAll(withUsage);
  }

  /** Two "Aspirin 100mg" rows with quantities 10.0 and 20.5 roll up to one row totalling 30.5. */
  lemma AspirinRollup()
    ensures SummaryView(GroupByName(WithUsage([
      Record("A1", Some("Aspirin 100mg"), 10.0),
      Record("A2", Some("Aspirin 100mg"), 20.5)]))) == [SummaryRow(1, "Aspirin 100mg", 30.5)]
  {
  }
}

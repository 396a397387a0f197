/**
 * The record filter: keep every drug record whose name contains the keyword,
 * ignoring case; a record without a name never matches.
 */
module RecordFilter {
  import opened Wrappers
  import opened Text

  /** One row of the reimbursement table: drug code, drug name (possibly missing) and quantity. */
  datatype Record = Record(code: string, name: Option<string>, quantity: real)

  /** The mask of the filter for one row: a present name containing the keyword, case ignored. */
  predicate Matches(r: Record, keyword: string): (b: bool)
    ensures b <==> r.name.Some? && exists i :: OccursAt(Lower(r.name.value), Lower(keyword), i)
  {
    r.name.Some? && Contains(Lower(r.name.value), Lower(keyword))
  }

  /** The rows of `table` whose name contains `keyword`, in table order. */
  function Filter(table: seq<Record>, keyword: string): (result: seq<Record>)
    ensures |result| <= |table|
    ensures forall r :: r in result ==> r in table && Matches(r, keyword)
    ensures forall r :: r in table && Matches(r, keyword) ==> r in result
    ensures forall r :: r in result ==> r.name.Some?
  {
    if table == [] then []
    else (if Matches(table[0], keyword) then [table[0]] else []) + Filter(table[1..], keyword)
  }

  /** Adds one to every position. */
  function Shift(positions: seq<nat>): (r: seq<nat>)
    ensures |r| == |positions|
    ensures forall j :: 0 <= j < |r| ==> r[j] == positions[j] + 1
  {
    seq(|positions|, j requires 0 <= j < |positions| => positions[j] + 1)
  }

  lemma ShiftedMember(positions: seq<nat>, i: nat)
    ensures i in positions <==> i + 1 in Shift(positions)
  {
  }

  /** The positions in `table` of the rows that match `keyword`, in increasing order. */
  ghost function MatchPositions(table: seq<Record>, keyword: string): seq<nat>
  {
    if table == [] then []
    else (if Matches(table[0], keyword) then [0] else []) + Shift(MatchPositions(table[1..], keyword))
  }

  /** The positions are strictly increasing and each lies inside the table. */
  lemma {:induction false} MatchPositionsInTable(table: seq<Record>, keyword: string)
    ensures forall j, k :: 0 <= j < k < |MatchPositions(table, keyword)| ==>
      MatchPositions(table, keyword)[j] < MatchPositions(table, keyword)[k]
    ensures forall j :: 0 <= j < |MatchPositions(table, keyword)| ==> MatchPositions(table, keyword)[j] < |table|
  {
    if table != [] {
      MatchPositionsInTable(table[1..], keyword);
    }
  }

  /** The positions mark exactly the rows whose name contains the keyword. */
  lemma {:induction false} MatchPositionsExact(table: seq<Record>, keyword: string)
    ensures forall i :: 0 <= i < |table| ==> (Matches(table[i], keyword) <==> i in MatchPositions(table, keyword))
  {
    if table != [] {
      MatchPositionsExact(table[1..], keyword);
      var rest := MatchPositions(table[1..], keyword);
      forall i | 0 < i < |table|
        ensures Matches(table[i], keyword) <==> i in MatchPositions(table, keyword)
      {
        assert table[i] == table[1..][i - 1];
        ShiftedMember(rest, i - 1);
      }
    }
  }

  /** `rows` is `table` read at `positions`, one row per position. */
  predicate ReadAt(rows: seq<Record>, table: seq<Record>, positions: seq<nat>) {
    && |rows| == |positions|
    && forall j :: 0 <= j < |rows| ==> positions[j] < |table| && rows[j] == table[positions[j]]
  }

  /** Reading the tail of a table at some positions is reading the table one place later; the head may be put in front. */
  lemma ReadAtTail(rows: seq<Record>, table: seq<Record>, positions: seq<nat>, keepHead: bool)
    requires table != []
    requires ReadAt(rows, table[1..], positions)
    ensures ReadAt((if keepHead then [table[0]] else []) + rows, table, (if keepHead then [0] else []) + Shift(positions))
  {
  }

  /** The filter result is the table read at the matching positions, in order. */
  lemma {:induction false} FilterAtPositions(table: seq<Record>, keyword: string)
    ensures ReadAt(Filter(table, keyword), table, MatchPositions(table, keyword))
  {
    if table != [] {
      FilterAtPositions(table[1..], keyword);
      ReadAtTail(Filter(table[1..], keyword), table, MatchPositions(table[1..], keyword), Matches(table[0], keyword));
    }
  }

  /**
   * The filter result is exactly the matching rows of the table, each taken
   * once and in table order: `idx` lists their positions, strictly increasing.
   */
  lemma FilterKeepsOrder(table: seq<Record>, keyword: string) returns (idx: seq<nat>)
    ensures |idx| == |Filter(table, keyword)|
    ensures forall j :: 0 <= j < |idx| ==> idx[j] < |table| && Filter(table, keyword)[j] == table[idx[j]]
    ensures forall j, k :: 0 <= j < k < |idx| ==> idx[j] < idx[k]
    ensures forall i :: 0 <= i < |table| ==> (Matches(table[i], keyword) <==> i in idx)
  {
    idx := MatchPositions(table, keyword);
    MatchPositionsInTable(table, keyword);
    MatchPositionsExact(table, keyword);
    FilterAtPositions(table, keyword);
  }

  /** Filtering a concatenation filters each part; rows never move across the seam. */
  lemma {:induction false} FilterAppend(a: seq<Record>, b: seq<Record>, keyword: string)
    ensures Filter(a + b, keyword) == Filter(a, keyword) + Filter(b, keyword)
  {
    if a == [] {
      assert a + b == b;
    } else {
      assert (a + b)[1..] == a[1..] + b;
      FilterAppend(a[1..], b, keyword);
    }
  }

  /** The keyword's case does not matter. */
  lemma MatchesIgnoresKeywordCase(r: Record, k1: string, k2: string)
    requires Lower(k1) == Lower(k2)
    ensures Matches(r, k1) == Matches(r, k2)
  {
  }

  /** The case of the drug name does not matter either. */
  lemma MatchesIgnoresNameCase(code: string, n1: string, n2: string, quantity: real, keyword: string)
    requires Lower(n1) == Lower(n2)
    ensures Matches(Record(code, Some(n1), quantity), keyword) == Matches(Record(code, Some(n2), quantity), keyword)
  {
  }

  /** "Ibuprofen 400mg" matches the keyword "PROFEN". */
  lemma IbuprofenMatchesProfen()
    ensures Matches(Record("A000", Some("Ibuprofen 400mg"), 1.0), "PROFEN")
  {
    var name := Lower("Ibuprofen 400mg");
    assert Lower("PROFEN") == "profen";
    assert name[3..9] == "profen";
    assert OccursAt(name, Lower("PROFEN"), 3);
  }
}

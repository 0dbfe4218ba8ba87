/** Two small computations of a consumption record's summary: the y-axis ceiling of its line
    chart, and the per-store breakdown of a record spanning several stores. */
module RecordSummary {
  import opened Records
  import opened JsString

  const AxisStep := 1000
  const StoreSeparator := '、'

  /** `Math.ceil(x / 1000) * 1000` for an integer `x`, negative values included. */
  function CeilThousand(x: int): (r: int)
    ensures r % AxisStep == 0
    ensures x <= r < x + AxisStep
  {
    -((-x) / AxisStep) * AxisStep
  }

  /** The largest amount: `Math.max(...amounts)`. */
  function MaxAmount(amounts: seq<int>): (m: int)
    requires |amounts| > 0
    ensures m in amounts
    ensures forall i :: 0 <= i < |amounts| ==> amounts[i] <= m
  {
    if |amounts| == 1 then amounts[0]
    else
      var rest := MaxAmount(amounts[1..]);
      if amounts[0] >= rest then amounts[0] else rest
  }

  /** A chart series, replaced by the built-in sample series when it is empty. */
  function WithDefault(points: seq<int>, defaults: seq<int>): (r: seq<int>)
    requires |defaults| > 0
    ensures |r| > 0
    ensures |points| == 0 ==> r == defaults
    ensures |points| > 0 ==> r == points
  {
    if |points| == 0 then defaults else points
  }

  /** The y-axis maximum of the record's line chart: the largest amount of both (defaulted)
      series, rounded up to a whole thousand. */
  function YAxisMax(series1: seq<int>, series2: seq<int>): (top: int)
    requires |series1| > 0
    ensures top % AxisStep == 0
    ensures forall i :: 0 <= i < |series1 + series2| ==> (series1 + series2)[i] <= top
    ensures exists i :: 0 <= i < |series1 + series2| && top - AxisStep < (series1 + series2)[i]
  {
    var all := series1 + series2;
    var m := MaxAmount(all);
    var i :| 0 <= i < |all| && all[i] == m;
    CeilThousand(m)
  }

  /** A peak of exactly 8000 puts the axis top at 8000. */
  lemma YAxisAtExactThousand()
    ensures YAxisMax([7000, 8000], []) == 8000
  {
    assert MaxAmount([7000, 8000]) == 8000;
    assert [7000, 8000] + [] == [7000, 8000];
  }

  /** A peak of 8001 in either series needs an axis up to 9000. */
  lemma YAxisRoundsUp()
    ensures YAxisMax([8001], [5500]) == 9000
  {
    assert MaxAmount([8001, 5500]) == 8001;
  }

  /** A series of refunds keeps the axis at or below zero. */
  lemma YAxisOfRefunds()
    ensures YAxisMax([-1500, -2500], []) == -1000
  {
    assert MaxAmount([-1500, -2500]) == -1500;
    assert [-1500, -2500] + [] == [-1500, -2500];
  }

  /** One row of the multi-store breakdown. */
  datatype StoreSummary = StoreSummary(name: string, count: nat, amount: int)

  /** The details whose store name contains `name`, in order. */
  function Matching(ds: seq<Detail>, name: string): (r: seq<Detail>)
    ensures |r| <= |ds|
  {
    if |ds| == 0 then []
    else Matching(ds[..|ds| - 1], name) + (if Includes(ds[|ds| - 1].store, name) then [ds[|ds| - 1]] else [])
  }

  lemma {:induction false} MatchingMembers(ds: seq<Detail>, name: string)
    ensures forall d :: d in Matching(ds, name) <==> d in ds && Includes(d.store, name)
  {
    if |ds| > 0 {
      MatchingMembers(ds[..|ds| - 1], name);
      assert ds == ds[..|ds| - 1] + [ds[|ds| - 1]];
    }
  }

  /** The positions of the details whose store name contains `name`. */
  function MatchingPositions(ds: seq<Detail>, name: string): set<int> {
    set i | 0 <= i < |ds| && Includes(ds[i].store, name)
  }

  /** The filter keeps one detail per matching position. */
  lemma {:induction false} MatchingCount(ds: seq<Detail>, name: string)
    ensures |Matching(ds, name)| == |MatchingPositions(ds, name)|
  {
    if |ds| == 0 {
      assert MatchingPositions(ds, name) == {};
    } else {
      MatchingCount(ds[..|ds| - 1], name);
      PositionsStep(ds, name);
    }
  }

  /** Appending a detail adds its position exactly when its store contains the name. */
  lemma PositionsStep(ds: seq<Detail>, name: string)
    requires |ds| > 0
    ensures var prefix, last := ds[..|ds| - 1], |ds| - 1;
      |MatchingPositions(ds, name)| ==
        |MatchingPositions(prefix, name)| + (if Includes(ds[last].store, name) then 1 else 0)
  {
    var prefix, last := ds[..|ds| - 1], |ds| - 1;
    var before := MatchingPositions(prefix, name);
    assert forall i :: 0 <= i < last ==> ds[i] == prefix[i];
    if Includes(ds[last].store, name) {
      assert MatchingPositions(ds, name) == before + {last};
      assert last !in before;
    } else {
      assert MatchingPositions(ds, name) == before;
    }
  }

  /** The breakdown: one row per '、'-separated store name, counting and summing the details
      whose store contains that name. */
  function StoreBreakdown(storeName: string, ds: seq<Detail>): (rows: seq<StoreSummary>)
    ensures |rows| == |Split(storeName, StoreSeparator)|
    ensures forall k :: 0 <= k < |rows| ==>
              && rows[k].name == Split(storeName, StoreSeparator)[k]
              && rows[k].count == |Matching(ds, rows[k].name)|
              && rows[k].amount == SumAmounts(Matching(ds, rows[k].name))
  {
    var names := Split(storeName, StoreSeparator);
    seq(|names|, k requires 0 <= k < |names| =>
      var m := Matching(ds, names[k]);
      StoreSummary(names[k], |m|, SumAmounts(m)))
  }

  /** The row names, joined back with '、', give the record's store name; each row counts exactly
      the details whose store contains its name. */
  lemma BreakdownRows(storeName: string, ds: seq<Detail>)
    ensures var rows := StoreBreakdown(storeName, ds);
      Join(seq(|rows|, k requires 0 <= k < |rows| => rows[k].name), StoreSeparator) == storeName
    ensures var rows := StoreBreakdown(storeName, ds);
      forall k :: 0 <= k < |rows| ==>
        && rows[k].count == |MatchingPositions(ds, rows[k].name)|
        && forall d :: d in Matching(ds, rows[k].name) <==> d in ds && Includes(d.store, rows[k].name)
  {
    var rows := StoreBreakdown(storeName, ds);
    var names := Split(storeName, StoreSeparator);
    assert seq(|rows|, k requires 0 <= k < |rows| => rows[k].name) == names;
    JoinSplit(storeName, StoreSeparator);
    forall k | 0 <= k < |rows|
      ensures rows[k].count == |MatchingPositions(ds, rows[k].name)|
      ensures forall d :: d in Matching(ds, rows[k].name) <==> d in ds && Includes(d.store, rows[k].name)
    {
      MatchingCount(ds, rows[k].name);
      MatchingMembers(ds, rows[k].name);
    }
  }

  /** A trailing '、' produces an empty store name, and an empty name is contained in every store:
      that row counts every detail. */
  lemma EmptyNameCountsEverything(storeName: string, ds: seq<Detail>)
    requires |storeName| > 0 && storeName[|storeName| - 1] == StoreSeparator
    ensures var rows := StoreBreakdown(storeName, ds);
      rows[|rows| - 1].name == "" && rows[|rows| - 1].count == |ds| && rows[|rows| - 1].amount == SumAmounts(ds)
  {
    LastFieldAfterTrailingSeparator(storeName);
    EmptyMatchesAll(ds);
  }

  lemma {:induction false} LastFieldAfterTrailingSeparator(s: string)
    requires |s| > 0 && s[|s| - 1] == StoreSeparator
    ensures var parts := Split(s, StoreSeparator); parts[|parts| - 1] == ""
    decreases |s|
  {
    var k := FieldLength(s, StoreSeparator);
    var rest := s[k + 1..];
    assert Split(s, StoreSeparator) == [s[..k]] + Split(rest, StoreSeparator);
    if |rest| > 0 {
      assert rest[|rest| - 1] == StoreSeparator;
      LastFieldAfterTrailingSeparator(rest);
    } else {
      assert Split(rest, StoreSeparator) == [""];
    }
  }

  lemma {:induction false} EmptyMatchesAll(ds: seq<Detail>)
    ensures Matching(ds, "") == ds
  {
    if |ds| > 0 {
      EmptyMatchesAll(ds[..|ds| - 1]);
      IncludesAt(ds[|ds| - 1].store, "", 0);
      assert ds == ds[..|ds| - 1] + [ds[|ds| - 1]];
    }
  }

  /** Substring matching can count one detail under two rows: when one store name contains the
      other (as "全聯福利中心" contains "全聯"), a purchase at the longer store appears in both rows,
      so the rows' totals add up to more than was spent. */
  lemma OverlappingNamesCountTwice(short: string, long: string, d: Detail)
    requires forall i :: 0 <= i < |short| ==> short[i] != StoreSeparator
    requires forall i :: 0 <= i < |long| ==> long[i] != StoreSeparator
    requires Includes(long, short) && d.store == long
    ensures var rows := StoreBreakdown(short + [StoreSeparator] + long, [d]);
      && |rows| == 2
      && rows[0].count == 1 && rows[1].count == 1
      && rows[0].amount == d.amount && rows[1].amount == d.amount
  {
    SplitTwo(short, long, StoreSeparator);
    assert Includes(d.store, long) by {
      IncludesAt(long, long, 0);
    }
    SingleMatch(d, short);
    SingleMatch(d, long);
  }

  /** A lone detail whose store contains the name is matched. */
  lemma SingleMatch(d: Detail, name: string)
    requires Includes(d.store, name)
    ensures Matching([d], name) == [d] && SumAmounts([d]) == d.amount
  {
    assert [d][..0] == [];
  }
}

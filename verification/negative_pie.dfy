/** The categories of a negative-pie record (refunds exceed spending): details grouped by their
    category, each group's amount the sum of its details, groups ordered by absolute amount
    (largest first, ties in first-occurrence order, as JavaScript's stable sort leaves them),
    and a closing "更多" ("more") group with no details. */
module NegativePie {
  import opened Records

  const GroupColor := "#BDBDBD"
  const MoreName := "更多"

  /** The closing group: amount 0, shown as 100 %, no details. */
  const MoreGroup := Category(MoreName, 0, Fixed(100), GroupColor, [], false)

  function Abs(x: int): nat { if x < 0 then -x else x }

  /** No name occurs twice. */
  predicate Distinct(keys: seq<string>) {
    forall a, b :: 0 <= a < b < |keys| ==> keys[a] != keys[b]
  }

  /** The key order of the grouping object: each category once, in order of first occurrence. */
  function Keys(ds: seq<Detail>): (keys: seq<string>)
    ensures Distinct(keys)
  {
    if |ds| == 0 then []
    else
      var keys := Keys(ds[..|ds| - 1]);
      var c := ds[|ds| - 1].category;
      if c in keys then keys else keys + [c]
  }

  /** The keys are exactly the categories that occur. */
  lemma {:induction false} KeysMembers(ds: seq<Detail>, c: string)
    ensures c in Keys(ds) <==> exists i :: 0 <= i < |ds| && ds[i].category == c
  {
    if |ds| > 0 {
      var prefix := ds[..|ds| - 1];
      KeysMembers(prefix, c);
      if exists i :: 0 <= i < |prefix| && prefix[i].category == c {
        var i :| 0 <= i < |prefix| && prefix[i].category == c;
        assert ds[i].category == c;
      }
      if exists i :: 0 <= i < |ds| && ds[i].category == c {
        var i :| 0 <= i < |ds| && ds[i].category == c;
        if i < |prefix| {
          assert prefix[i].category == c;
        }
      }
    }
  }

  /** The details of one category, in list order (the group's array after the pushes). */
  function OfCategory(ds: seq<Detail>, c: string): seq<Detail> {
    if |ds| == 0 then []
    else OfCategory(ds[..|ds| - 1], c) + (if ds[|ds| - 1].category == c then [ds[|ds| - 1]] else [])
  }

  lemma {:induction false} OfCategoryMembers(ds: seq<Detail>, c: string)
    ensures forall d :: d in OfCategory(ds, c) <==> d in ds && d.category == c
  {
    if |ds| > 0 {
      OfCategoryMembers(ds[..|ds| - 1], c);
      assert ds == ds[..|ds| - 1] + [ds[|ds| - 1]];
    }
  }

  /** One group: its name, summed amount, symbolic percentage of the record total, and details. */
  function Group(ds: seq<Detail>, total: nat, name: string): Category {
    var members := OfCategory(ds, name);
    var amount := SumAmounts(members);
    Category(name, amount, Ratio(Abs(amount), total), GroupColor, members, false)
  }

  /** The groups in key order, before sorting. */
  function Groups(ds: seq<Detail>, total: nat): (gs: seq<Category>)
    ensures |gs| == |Keys(ds)|
    ensures forall k :: 0 <= k < |gs| ==> gs[k] == Group(ds, total, Keys(ds)[k])
  {
    var keys := Keys(ds);
    seq(|keys|, k requires 0 <= k < |keys| => Group(ds, total, keys[k]))
  }

  /** Total size of the groups of the given keys. */
  function GroupSizes(ds: seq<Detail>, keys: seq<string>): nat {
    if |keys| == 0 then 0 else GroupSizes(ds, keys[..|keys| - 1]) + |OfCategory(ds, keys[|keys| - 1])|
  }

  /** Sum of the amounts of the groups of the given keys. */
  function GroupAmounts(ds: seq<Detail>, keys: seq<string>): int {
    if |keys| == 0 then 0 else GroupAmounts(ds, keys[..|keys| - 1]) + SumAmounts(OfCategory(ds, keys[|keys| - 1]))
  }

  /** Appending one detail grows exactly the group of its category. */
  lemma {:induction false} GroupsGrow(ds: seq<Detail>, d: Detail, keys: seq<string>)
    requires Distinct(keys)
    ensures GroupSizes(ds + [d], keys) == GroupSizes(ds, keys) + (if d.category in keys then 1 else 0)
    ensures GroupAmounts(ds + [d], keys) == GroupAmounts(ds, keys) + (if d.category in keys then d.amount else 0)
  {
    if |keys| > 0 {
      var init := keys[..|keys| - 1];
      var last := keys[|keys| - 1];
      GroupsGrow(ds, d, init);
      assert (ds + [d])[..|ds + [d]| - 1] == ds;
      SumAmountsAppend(OfCategory(ds, last), if d.category == last then [d] else []);
      assert d.category in keys <==> d.category in init || d.category == last;
      assert d.category == last ==> d.category !in init;
    }
  }

  /** A category absent from the list has no details. */
  lemma {:induction false} OfAbsentCategory(ds: seq<Detail>, c: string)
    requires forall i :: 0 <= i < |ds| ==> ds[i].category != c
    ensures OfCategory(ds, c) == []
  {
    if |ds| > 0 {
      OfAbsentCategory(ds[..|ds| - 1], c);
    }
  }

  /** Every detail lands in exactly one group: the group sizes add up to the number of details and
      the group amounts to the total amount. */
  lemma {:induction false} GroupsPartition(ds: seq<Detail>)
    ensures GroupSizes(ds, Keys(ds)) == |ds|
    ensures GroupAmounts(ds, Keys(ds)) == SumAmounts(ds)
  {
    if |ds| > 0 {
      var prefix := ds[..|ds| - 1];
      assert ds == prefix + [ds[|ds| - 1]];
      GroupsPartition(prefix);
      GroupsPartitionStep(prefix, ds[|ds| - 1]);
    }
  }

  /** The induction step of the partition: one more detail. */
  lemma GroupsPartitionStep(prefix: seq<Detail>, d: Detail)
    requires GroupSizes(prefix, Keys(prefix)) == |prefix|
    requires GroupAmounts(prefix, Keys(prefix)) == SumAmounts(prefix)
    ensures GroupSizes(prefix + [d], Keys(prefix + [d])) == |prefix| + 1
    ensures GroupAmounts(prefix + [d], Keys(prefix + [d])) == SumAmounts(prefix) + d.amount
  {
    if d.category in Keys(prefix) {
      KnownCategoryStep(prefix, d);
    } else {
      NewCategoryStep(prefix, d);
    }
  }

  /** A detail of a known category grows that category's group. */
  lemma KnownCategoryStep(prefix: seq<Detail>, d: Detail)
    requires d.category in Keys(prefix)
    requires GroupSizes(prefix, Keys(prefix)) == |prefix|
    requires GroupAmounts(prefix, Keys(prefix)) == SumAmounts(prefix)
    ensures GroupSizes(prefix + [d], Keys(prefix + [d])) == |prefix| + 1
    ensures GroupAmounts(prefix + [d], Keys(prefix + [d])) == SumAmounts(prefix) + d.amount
  {
    assert Keys(prefix + [d]) == Keys(prefix) by {
      assert (prefix + [d])[..|prefix|] == prefix;
    }
    GroupsGrow(prefix, d, Keys(prefix));
  }

  /** A detail of a new category adds a key and a group. */
  lemma NewCategoryStep(prefix: seq<Detail>, d: Detail)
    requires d.category !in Keys(prefix)
    requires GroupSizes(prefix, Keys(prefix)) == |prefix|
    requires GroupAmounts(prefix, Keys(prefix)) == SumAmounts(prefix)
    ensures GroupSizes(prefix + [d], Keys(prefix + [d])) == |prefix| + 1
    ensures GroupAmounts(prefix + [d], Keys(prefix + [d])) == SumAmounts(prefix) + d.amount
  {
    assert Keys(prefix + [d]) == Keys(prefix) + [d.category] by {
      assert (prefix + [d])[..|prefix|] == prefix;
    }
    GroupsGrow(prefix, d, Keys(prefix));
    NewKeyStep(prefix, d);
  }

  /** A detail of a new category adds a group holding just that detail. */
  lemma NewKeyStep(prefix: seq<Detail>, d: Detail)
    requires d.category !in Keys(prefix)
    ensures GroupSizes(prefix + [d], Keys(prefix) + [d.category]) == GroupSizes(prefix + [d], Keys(prefix)) + 1
    ensures GroupAmounts(prefix + [d], Keys(prefix) + [d.category]) == GroupAmounts(prefix + [d], Keys(prefix)) + d.amount
  {
    GroupsExtend(prefix + [d], Keys(prefix), d.category);
    NewCategoryGroup(prefix, d);
    assert SumAmounts([d]) == d.amount by {
      assert [d][..0] == [];
    }
  }

  /** One more key adds its group's size and amount. */
  lemma GroupsExtend(ds: seq<Detail>, keys: seq<string>, c: string)
    ensures GroupSizes(ds, keys + [c]) == GroupSizes(ds, keys) + |OfCategory(ds, c)|
    ensures GroupAmounts(ds, keys + [c]) == GroupAmounts(ds, keys) + SumAmounts(OfCategory(ds, c))
  {
    assert (keys + [c])[..|keys|] == keys;
  }

  /** A detail whose category is new forms a group of its own. */
  lemma NewCategoryGroup(prefix: seq<Detail>, d: Detail)
    requires d.category !in Keys(prefix)
    ensures OfCategory(prefix + [d], d.category) == [d]
  {
    KeysMembers(prefix, d.category);
    OfAbsentCategory(prefix, d.category);
    assert (prefix + [d])[..|prefix|] == prefix;
  }

  /** Each detail is in the group named by its category, and in no other group. */
  lemma DetailInItsGroup(ds: seq<Detail>, total: nat, i: nat)
    requires i < |ds|
    ensures var gs := Groups(ds, total);
      exists k :: 0 <= k < |gs| && gs[k].name == ds[i].category && ds[i] in gs[k].details
    ensures var gs := Groups(ds, total);
      forall k :: 0 <= k < |gs| && ds[i] in gs[k].details ==> gs[k].name == ds[i].category
  {
    var gs := Groups(ds, total);
    var c := ds[i].category;
    KeysMembers(ds, c);
    var k :| 0 <= k < |Keys(ds)| && Keys(ds)[k] == c;
    OfCategoryMembers(ds, c);
    forall k' | 0 <= k' < |gs|
      ensures ds[i] in gs[k'].details ==> gs[k'].name == c
    {
      OfCategoryMembers(ds, Keys(ds)[k']);
    }
  }

  /** The sort key: the absolute amount. */
  function Magnitude(c: Category): nat { Abs(c.amount) }

  predicate SortedByMagnitude(s: seq<Category>) {
    forall i, j :: 0 <= i < j < |s| ==> Magnitude(s[i]) >= Magnitude(s[j])
  }

  /** Places `x` after every element at least as large, as a stable sort does with a later element. */
  function Insert(s: seq<Category>, x: Category): (r: seq<Category>)
    ensures |r| == |s| + 1
  {
    if |s| == 0 then [x]
    else if Magnitude(s[0]) < Magnitude(x) then [x] + s
    else [s[0]] + Insert(s[1..], x)
  }

  /** `sort((a, b) => Math.abs(b.amount) - Math.abs(a.amount))`, as a stable insertion sort. */
  function SortByMagnitude(s: seq<Category>): (r: seq<Category>)
    ensures |r| == |s|
  {
    if |s| == 0 then [] else Insert(SortByMagnitude(s[..|s| - 1]), s[|s| - 1])
  }

  /** The elements of a given magnitude, in order. */
  function OfMagnitude(s: seq<Category>, m: nat): seq<Category> {
    if |s| == 0 then [] else (if Magnitude(s[0]) == m then [s[0]] else []) + OfMagnitude(s[1..], m)
  }

  lemma {:induction false} OfMagnitudeAppend(a: seq<Category>, b: seq<Category>, m: nat)
    ensures OfMagnitude(a + b, m) == OfMagnitude(a, m) + OfMagnitude(b, m)
  {
    if |a| == 0 {
      assert a + b == b;
    } else {
      var ab, tail := a + b, a[1..];
      var head := if Magnitude(a[0]) == m then [a[0]] else [];
      assert ab[0] == a[0] && ab[1..] == tail + b;
      OfMagnitudeAppend(tail, b, m);
      var x, y := OfMagnitude(tail, m), OfMagnitude(b, m);
      assert OfMagnitude(ab, m) == head + (x + y);
      assert OfMagnitude(a, m) == head + x;
      assert head + (x + y) == (head + x) + y;
    }
  }

  lemma {:induction false} OfMagnitudeNone(s: seq<Category>, m: nat)
    requires forall i :: 0 <= i < |s| ==> Magnitude(s[i]) < m
    ensures OfMagnitude(s, m) == []
  {
    if |s| > 0 {
      OfMagnitudeNone(s[1..], m);
    }
  }

  lemma {:induction false} InsertPermutes(s: seq<Category>, x: Category)
    ensures multiset(Insert(s, x)) == multiset(s) + multiset{x}
  {
    if |s| > 0 && Magnitude(s[0]) >= Magnitude(x) {
      InsertPermutes(s[1..], x);
      assert s == [s[0]] + s[1..];
    }
  }

  lemma {:induction false} InsertSorted(s: seq<Category>, x: Category)
    requires SortedByMagnitude(s)
    ensures SortedByMagnitude(Insert(s, x))
  {
    if |s| > 0 && Magnitude(s[0]) >= Magnitude(x) {
      var r := Insert(s[1..], x);
      InsertSorted(s[1..], x);
      InsertPermutes(s[1..], x);
      forall j | 0 <= j < |r|
        ensures Magnitude(s[0]) >= Magnitude(r[j])
      {
        assert r[j] in multiset(r);
        assert r[j] in multiset(s[1..]) + multiset{x};
        if r[j] != x {
          var k :| 0 <= k < |s[1..]| && s[1..][k] == r[j];
          assert s[k + 1] == r[j];
        }
      }
      assert Insert(s, x) == [s[0]] + r;
    }
  }

  lemma {:induction false} InsertStable(s: seq<Category>, x: Category, m: nat)
    requires SortedByMagnitude(s)
    ensures OfMagnitude(Insert(s, x), m) == OfMagnitude(s, m) + (if Magnitude(x) == m then [x] else [])
  {
    if |s| == 0 {
      assert OfMagnitude([x], m) == (if Magnitude(x) == m then [x] else []) + OfMagnitude([], m);
    } else if Magnitude(s[0]) < Magnitude(x) {
      assert ([x] + s)[1..] == s;
      if Magnitude(x) == m {
        OfMagnitudeNone(s, m);
      }
    } else {
      var r := Insert(s[1..], x);
      InsertStable(s[1..], x, m);
      assert ([s[0]] + r)[1..] == r;
    }
  }

  /** The sort orders by magnitude, keeps every group (a permutation), and is stable: the groups of
      any one magnitude appear in their original order. */
  lemma SortProperties(s: seq<Category>)
    ensures SortedByMagnitude(SortByMagnitude(s))
    ensures multiset(SortByMagnitude(s)) == multiset(s)
    ensures forall m: nat :: OfMagnitude(SortByMagnitude(s), m) == OfMagnitude(s, m)
  {
    SortSorted(s);
    SortPermutes(s);
    forall m: nat
      ensures OfMagnitude(SortByMagnitude(s), m) == OfMagnitude(s, m)
    {
      SortStable(s, m);
    }
  }

  lemma {:induction false} SortSorted(s: seq<Category>)
    ensures SortedByMagnitude(SortByMagnitude(s))
  {
    if |s| > 0 {
      var prefix := s[..|s| - 1];
      SortSorted(prefix);
      InsertSorted(SortByMagnitude(prefix), s[|s| - 1]);
    }
  }

  lemma {:induction false} SortPermutes(s: seq<Category>)
    ensures multiset(SortByMagnitude(s)) == multiset(s)
  {
    if |s| > 0 {
      var prefix := s[..|s| - 1];
      var x := s[|s| - 1];
      SortPermutes(prefix);
      InsertPermutes(SortByMagnitude(prefix), x);
      MultisetOfLast(s);
    }
  }

  lemma MultisetOfLast(s: seq<Category>)
    requires |s| > 0
    ensures multiset(s) == multiset(s[..|s| - 1]) + multiset{s[|s| - 1]}
  {
    assert s == s[..|s| - 1] + [s[|s| - 1]];
  }

  lemma {:induction false} SortStable(s: seq<Category>, m: nat)
    ensures OfMagnitude(SortByMagnitude(s), m) == OfMagnitude(s, m)
  {
    if |s| > 0 {
      var prefix := s[..|s| - 1];
      var x := s[|s| - 1];
      SortStable(prefix, m);
      SortSorted(prefix);
      assert s == prefix + [x];
      InsertStable(SortByMagnitude(prefix), x, m);
      OfMagnitudeAppend(prefix, [x], m);
      assert OfMagnitude([x], m) == (if Magnitude(x) == m then [x] else []) + OfMagnitude([], m);
    }
  }

  /** The category list of a negative-pie record whose own amount is `recordAmount`. */
  function NegativePieCategories(details: seq<Detail>, recordAmount: int): (cs: seq<Category>)
    ensures |cs| == |Keys(details)| + 1
    ensures cs[|cs| - 1] == MoreGroup
  {
    SortByMagnitude(Groups(details, Abs(recordAmount))) + [MoreGroup]
  }

  /** The negative-pie list: the sorted groups (a permutation of the grouping), then "更多". */
  lemma NegativePieShape(details: seq<Detail>, recordAmount: int)
    ensures var cs := NegativePieCategories(details, recordAmount);
      && |cs| == |Keys(details)| + 1
      && cs[|cs| - 1] == MoreGroup
      && SortedByMagnitude(cs[..|cs| - 1])
      && multiset(cs[..|cs| - 1]) == multiset(Groups(details, Abs(recordAmount)))
  {
    var cs := NegativePieCategories(details, recordAmount);
    SortProperties(Groups(details, Abs(recordAmount)));
    assert cs[..|cs| - 1] == SortByMagnitude(Groups(details, Abs(recordAmount)));
  }

  /** Sorting keeps exactly the same groups. */
  lemma SortKeepsMembers(s: seq<Category>)
    ensures forall c :: c in SortByMagnitude(s) <==> c in s
  {
    SortPermutes(s);
    forall c
      ensures c in SortByMagnitude(s) <==> c in s
    {
      assert c in SortByMagnitude(s) <==> c in multiset(SortByMagnitude(s));
      assert c in s <==> c in multiset(s);
    }
  }

  /** Every detail's group is listed, and no listed group starts expanded or has another colour. */
  lemma NegativePieCoversDetails(details: seq<Detail>, recordAmount: int)
    ensures var cs := NegativePieCategories(details, recordAmount);
      forall i :: 0 <= i < |details| ==> Group(details, Abs(recordAmount), details[i].category) in cs
    ensures var cs := NegativePieCategories(details, recordAmount);
      forall k :: 0 <= k < |cs| ==> !cs[k].isExpanded && cs[k].color == GroupColor
  {
    var gs := Groups(details, Abs(recordAmount));
    var sorted := SortByMagnitude(gs);
    var cs := NegativePieCategories(details, recordAmount);
    assert cs == sorted + [MoreGroup];
    SortKeepsMembers(gs);
    forall i | 0 <= i < |details|
      ensures Group(details, Abs(recordAmount), details[i].category) in cs
    {
      KeysMembers(details, details[i].category);
      var k :| 0 <= k < |Keys(details)| && Keys(details)[k] == details[i].category;
      assert gs[k] in sorted;
    }
    forall k | 0 <= k < |cs|
      ensures !cs[k].isExpanded && cs[k].color == GroupColor
    {
      if k < |sorted| {
        assert cs[k] in gs;
      }
    }
  }
}

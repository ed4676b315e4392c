/** The categories screen: per-category expense totals, split into the ESSENTIAL and
    NON_ESSENTIAL buckets, each bucket's items sorted by total (largest first), and
    each row's share of the screen's total and its icon. */
module Categories {
  import opened Text
  import opened Dates
  import opened Types
  import opened Dashboard

  /** The summed amount of the expenses filed under the category id. */
  function CategoryTotal(ts: seq<Transaction>, id: string): int
  {
    if ts == [] then 0
    else
      var t := ts[|ts| - 1];
      CategoryTotal(ts[..|ts| - 1], id) + (if t.kind == Expense && t.categoryId == id then t.amount else 0)
  }

  /** A listed category with its total (`{...cat, total}`). */
  datatype CategoryItem = CategoryItem(category: Category, total: int)

  datatype Bucket = Bucket(total: int, items: seq<CategoryItem>)

  datatype SpendingData = SpendingData(essential: Bucket, nonEssential: Bucket)

  function SumTotals(items: seq<CategoryItem>): int
  {
    if items == [] then 0 else SumTotals(items[..|items| - 1]) + items[|items| - 1].total
  }

  /** The items a bucket collects before sorting: its categories with a positive total, in definition order. */
  function Listed(ts: seq<Transaction>, categories: seq<Category>, kind: CategoryType): seq<CategoryItem>
  {
    if categories == [] then []
    else
      var c := categories[|categories| - 1];
      var total := CategoryTotal(ts, c.id);
      Listed(ts, categories[..|categories| - 1], kind)
        + (if c.kind == kind && total > 0 then [CategoryItem(c, total)] else [])
  }

  /** A category is listed in its own bucket exactly when its total is strictly positive. */
  lemma {:induction false} ListedMembers(ts: seq<Transaction>, categories: seq<Category>, kind: CategoryType)
    ensures forall it :: it in Listed(ts, categories, kind) <==>
      it.category in categories && it.category.kind == kind
      && it.total == CategoryTotal(ts, it.category.id) && it.total > 0
  {
    if categories != [] {
      var init := categories[..|categories| - 1];
      ListedMembers(ts, init, kind);
      assert forall c :: c in categories <==> c in init || c == categories[|categories| - 1];
    }
  }

  // ---- the descending sort -----------------------------------------------------

  predicate SortedDesc(s: seq<CategoryItem>)
  {
    forall i, j :: 0 <= i < j < |s| ==> s[i].total >= s[j].total
  }

  /** The items whose total is `v`, in order. */
  function WithTotal(s: seq<CategoryItem>, v: int): seq<CategoryItem>
  {
    if s == [] then []
    else WithTotal(s[..|s| - 1], v) + (if s[|s| - 1].total == v then [s[|s| - 1]] else [])
  }

  /** Places `x` after every element whose total is not smaller than its own. */
  function Insert(x: CategoryItem, s: seq<CategoryItem>): seq<CategoryItem>
  {
    if s == [] then [x]
    else if s[|s| - 1].total < x.total then Insert(x, s[..|s| - 1]) + [s[|s| - 1]]
    else s + [x]
  }

  /** `items.sort((a, b) => b.total - a.total)`, a stable sort, as an insertion sort. */
  function SortByTotalDesc(s: seq<CategoryItem>): seq<CategoryItem>
  {
    if s == [] then [] else Insert(s[|s| - 1], SortByTotalDesc(s[..|s| - 1]))
  }

  lemma {:induction false} InsertMultiset(x: CategoryItem, s: seq<CategoryItem>)
    ensures multiset(Insert(x, s)) == multiset(s) + multiset{x}
  {
    if s != [] && s[|s| - 1].total < x.total {
      InsertMultiset(x, s[..|s| - 1]);
      assert s == s[..|s| - 1] + [s[|s| - 1]];
    }
  }

  lemma {:induction false} InsertSorted(x: CategoryItem, s: seq<CategoryItem>)
    requires SortedDesc(s)
    ensures SortedDesc(Insert(x, s))
  {
    if s != [] {
      var last := s[|s| - 1];
      var init := s[..|s| - 1];
      if last.total < x.total {
        InsertSorted(x, init);
        InsertMultiset(x, init);
        var r := Insert(x, init);
        forall y | y in r ensures y.total >= last.total {
          assert y in multiset(r);
          if y != x {
            assert y in init;
          }
        }
        assert forall i :: 0 <= i < |r| ==> r[i] in r;
      }
    }
  }

  lemma WithTotalAppend(a: seq<CategoryItem>, y: CategoryItem, v: int)
    ensures WithTotal(a + [y], v) == WithTotal(a, v) + (if y.total == v then [y] else [])
  {
    assert (a + [y])[..|a + [y]| - 1] == a;
  }

  /** Inserting keeps every equal-total run in order and puts `x` at the end of its own. */
  lemma {:induction false} InsertWithTotal(x: CategoryItem, s: seq<CategoryItem>, v: int)
    ensures WithTotal(Insert(x, s), v) == WithTotal(s, v) + (if x.total == v then [x] else [])
  {
    if s == [] {
      WithTotalAppend([], x, v);
    } else {
      var last := s[|s| - 1];
      var init := s[..|s| - 1];
      if last.total < x.total {
        InsertWithTotal(x, init, v);
        WithTotalAppend(Insert(x, init), last, v);
      } else {
        WithTotalAppend(s, x, v);
      }
    }
  }

  lemma {:induction false} InsertSum(x: CategoryItem, s: seq<CategoryItem>)
    ensures SumTotals(Insert(x, s)) == SumTotals(s) + x.total
  {
    if s != [] && s[|s| - 1].total < x.total {
      InsertSum(x, s[..|s| - 1]);
      var r := Insert(x, s[..|s| - 1]);
      assert (r + [s[|s| - 1]])[..|r|] == r;
    } else if s != [] {
      assert (s + [x])[..|s|] == s;
    }
  }

  lemma {:induction false} SortSorted(s: seq<CategoryItem>)
    ensures SortedDesc(SortByTotalDesc(s))
  {
    if s != [] {
      SortSorted(s[..|s| - 1]);
      InsertSorted(s[|s| - 1], SortByTotalDesc(s[..|s| - 1]));
    }
  }

  lemma {:induction false} SortMultiset(s: seq<CategoryItem>)
    ensures multiset(SortByTotalDesc(s)) == multiset(s)
  {
    if s != [] {
      var init, last := s[..|s| - 1], s[|s| - 1];
      SortMultiset(init);
      InsertMultiset(last, SortByTotalDesc(init));
      assert s == init + [last];
    }
  }

  lemma {:induction false} SortStable(s: seq<CategoryItem>, v: int)
    ensures WithTotal(SortByTotalDesc(s), v) == WithTotal(s, v)
  {
    if s != [] {
      var init, last := s[..|s| - 1], s[|s| - 1];
      SortStable(init, v);
      InsertWithTotal(last, SortByTotalDesc(init), v);
    }
  }

  lemma {:induction false} SortSum(s: seq<CategoryItem>)
    ensures SumTotals(SortByTotalDesc(s)) == SumTotals(s)
  {
    if s != [] {
      var init, last := s[..|s| - 1], s[|s| - 1];
      SortSum(init);
      InsertSum(last, SortByTotalDesc(init));
    }
  }

  /** The sort orders by total, largest first; it is a permutation; items with equal totals keep
      their relative order (so ties stay in category-definition order); and the sum is kept. */
  lemma SortSpec(s: seq<CategoryItem>)
    ensures SortedDesc(SortByTotalDesc(s))
    ensures multiset(SortByTotalDesc(s)) == multiset(s)
    ensures forall v :: WithTotal(SortByTotalDesc(s), v) == WithTotal(s, v)
    ensures SumTotals(SortByTotalDesc(s)) == SumTotals(s)
  {
    SortSorted(s);
    SortMultiset(s);
    SortSum(s);
    forall v ensures WithTotal(SortByTotalDesc(s), v) == WithTotal(s, v) {
      SortStable(s, v);
    }
  }

  // ---- spendingData -------------------------------------------------------------

  /** Listing one more category appends at most its own item. */
  lemma ListedStep(ts: seq<Transaction>, categories: seq<Category>, i: int, kind: CategoryType)
    requires 0 <= i < |categories|
    ensures Listed(ts, categories[..i + 1], kind) == Listed(ts, categories[..i], kind)
      + (if categories[i].kind == kind && CategoryTotal(ts, categories[i].id) > 0
         then [CategoryItem(categories[i], CategoryTotal(ts, categories[i].id))] else [])
  {
    assert categories[..i + 1][..i] == categories[..i];
  }

  lemma SumTotalsAppend(items: seq<CategoryItem>, item: CategoryItem)
    ensures SumTotals(items + [item]) == SumTotals(items) + item.total
  {
    assert (items + [item])[..|items|] == items;
  }

  /** A bucket as the screen shows it: the listed items of that type, sorted, with their sum. */
  lemma BucketSpec(ts: seq<Transaction>, categories: seq<Category>, kind: CategoryType)
    ensures SortedDesc(SortByTotalDesc(Listed(ts, categories, kind)))
    ensures SumTotals(SortByTotalDesc(Listed(ts, categories, kind))) == SumTotals(Listed(ts, categories, kind))
    ensures forall it :: it in SortByTotalDesc(Listed(ts, categories, kind)) <==>
      it.category in categories && it.category.kind == kind
      && it.total == CategoryTotal(ts, it.category.id) && it.total > 0
  {
    var l := Listed(ts, categories, kind);
    SortSpec(l);
    ListedMembers(ts, categories, kind);
    assert forall it :: it in SortByTotalDesc(l) <==> it in multiset(SortByTotalDesc(l));
    assert forall it :: it in l <==> it in multiset(l);
  }

  /** The `forEach` over the categories: each one with a positive total is pushed onto its
      bucket's items and added to its bucket's total. */
  method CollectBuckets(ts: seq<Transaction>, categories: seq<Category>) returns (essential: Bucket, nonEssential: Bucket)
    ensures essential.items == Listed(ts, categories, Essential)
    ensures nonEssential.items == Listed(ts, categories, NonEssential)
    ensures essential.total == SumTotals(essential.items)
    ensures nonEssential.total == SumTotals(nonEssential.items)
  {
    essential, nonEssential := Bucket(0, []), Bucket(0, []);
    var i := 0;
    while i < |categories|
      invariant 0 <= i <= |categories|
      invariant essential.items == Listed(ts, categories[..i], Essential)
      invariant nonEssential.items == Listed(ts, categories[..i], NonEssential)
      invariant essential.total == SumTotals(essential.items)
      invariant nonEssential.total == SumTotals(nonEssential.items)
    {
      var c := categories[i];
      var total := CategoryTotal(ts, c.id);
      ListedStep(ts, categories, i, Essential);
      ListedStep(ts, categories, i, NonEssential);
      if total > 0 {
        var item := CategoryItem(c, total);
        if c.kind == Essential {
          SumTotalsAppend(essential.items, item);
          essential := Bucket(essential.total + total, essential.items + [item]);
        } else {
          SumTotalsAppend(nonEssential.items, item);
          nonEssential := Bucket(nonEssential.total + total, nonEssential.items + [item]);
        }
      }
      i := i + 1;
    }
    assert categories[..|categories|] == categories;
  }

  /** spendingData: both buckets filled, then each bucket's items sorted by total, largest first. */
  method ComputeSpendingData(ts: seq<Transaction>, categories: seq<Category>) returns (data: SpendingData)
    ensures data.essential.items == SortByTotalDesc(Listed(ts, categories, Essential))
    ensures data.nonEssential.items == SortByTotalDesc(Listed(ts, categories, NonEssential))
    ensures data.essential.total == SumTotals(data.essential.items)
    ensures data.nonEssential.total == SumTotals(data.nonEssential.items)
    ensures SortedDesc(data.essential.items) && SortedDesc(data.nonEssential.items)
    ensures forall it :: it in data.essential.items <==>
      it.category in categories && it.category.kind == Essential
      && it.total == CategoryTotal(ts, it.category.id) && it.total > 0
    ensures forall it :: it in data.nonEssential.items <==>
      it.category in categories && it.category.kind == NonEssential
      && it.total == CategoryTotal(ts, it.category.id) && it.total > 0
  {
    var essential, nonEssential := CollectBuckets(ts, categories);
    BucketSpec(ts, categories, Essential);
    BucketSpec(ts, categories, NonEssential);
    data := SpendingData(
      Bucket(essential.total, SortByTotalDesc(essential.items)),
      Bucket(nonEssential.total, SortByTotalDesc(nonEssential.items)));
  }

  // ---- the screen's total against the dashboard's --------------------------------

  function CategoryIds(categories: seq<Category>): set<string>
  {
    set i | 0 <= i < |categories| :: categories[i].id
  }

  /** Expenses filed under an id none of the categories carries. */
  function OrphanSpent(ts: seq<Transaction>, ids: set<string>): int
  {
    if ts == [] then 0
    else
      var t := ts[|ts| - 1];
      OrphanSpent(ts[..|ts| - 1], ids) + (if t.kind == Expense && t.categoryId !in ids then t.amount else 0)
  }

  /** Expenses filed under one of the ids. */
  function SpentIn(ts: seq<Transaction>, ids: set<string>): int
  {
    if ts == [] then 0
    else
      var t := ts[|ts| - 1];
      SpentIn(ts[..|ts| - 1], ids) + (if t.kind == Expense && t.categoryId in ids then t.amount else 0)
  }

  lemma {:induction false} SpentInOrOrphan(ts: seq<Transaction>, ids: set<string>)
    ensures SpentIn(ts, ids) + OrphanSpent(ts, ids) == TotalSpent(ts)
  {
    if ts != [] {
      SpentInOrOrphan(ts[..|ts| - 1], ids);
    }
  }

  lemma {:induction false} SpentInNoIds(ts: seq<Transaction>)
    ensures SpentIn(ts, {}) == 0
  {
    if ts != [] {
      SpentInNoIds(ts[..|ts| - 1]);
    }
  }

  lemma {:induction false} SpentInAddId(ts: seq<Transaction>, ids: set<string>, id: string)
    requires id !in ids
    ensures SpentIn(ts, ids + {id}) == SpentIn(ts, ids) + CategoryTotal(ts, id)
  {
    if ts != [] {
      SpentInAddId(ts[..|ts| - 1], ids, id);
    }
  }

  lemma {:induction false} CategoryTotalNonNegative(ts: seq<Transaction>, id: string)
    requires forall i :: 0 <= i < |ts| ==> ts[i].amount >= 0
    ensures CategoryTotal(ts, id) >= 0
  {
    if ts != [] {
      CategoryTotalNonNegative(ts[..|ts| - 1], id);
    }
  }

  lemma {:induction false} OrphanSpentNonNegative(ts: seq<Transaction>, ids: set<string>)
    requires forall i :: 0 <= i < |ts| ==> ts[i].amount >= 0
    ensures OrphanSpent(ts, ids) >= 0
  {
    if ts != [] {
      OrphanSpentNonNegative(ts[..|ts| - 1], ids);
    }
  }

  /** Both buckets together hold exactly the spending filed under known categories. */
  lemma {:induction false} BucketsCoverKnownCategories(ts: seq<Transaction>, categories: seq<Category>)
    requires DistinctCategoryIds(categories)
    requires forall i :: 0 <= i < |ts| ==> ts[i].amount >= 0
    ensures SumTotals(Listed(ts, categories, Essential)) + SumTotals(Listed(ts, categories, NonEssential))
      == SpentIn(ts, CategoryIds(categories))
  {
    if categories == [] {
      assert CategoryIds(categories) == {};
      SpentInNoIds(ts);
    } else {
      var init := categories[..|categories| - 1];
      var c := categories[|categories| - 1];
      BucketsCoverKnownCategories(ts, init);
      CategoryIdsStep(categories);
      SpentInAddId(ts, CategoryIds(init), c.id);
      CategoryTotalNonNegative(ts, c.id);
      BucketsStep(ts, categories);
    }
  }

  /** The ids of a non-empty list are those of all but the last, plus the last's own, which is new. */
  lemma CategoryIdsStep(categories: seq<Category>)
    requires DistinctCategoryIds(categories) && categories != []
    ensures var init, c := categories[..|categories| - 1], categories[|categories| - 1];
      CategoryIds(categories) == CategoryIds(init) + {c.id} && c.id !in CategoryIds(init)
  {
    var init, c := categories[..|categories| - 1], categories[|categories| - 1];
    assert CategoryIds(categories) == CategoryIds(init) + {c.id};
  }

  /** The last category adds its positive total to exactly one bucket, and nothing otherwise. */
  lemma BucketsStep(ts: seq<Transaction>, categories: seq<Category>)
    requires categories != []
    ensures var init, c := categories[..|categories| - 1], categories[|categories| - 1];
      var total := CategoryTotal(ts, c.id);
      SumTotals(Listed(ts, categories, Essential)) + SumTotals(Listed(ts, categories, NonEssential))
      == SumTotals(Listed(ts, init, Essential)) + SumTotals(Listed(ts, init, NonEssential)) + (if total > 0 then total else 0)
  {
    var init, c := categories[..|categories| - 1], categories[|categories| - 1];
    var total := CategoryTotal(ts, c.id);
    var item := CategoryItem(c, total);
    var e, n := Listed(ts, init, Essential), Listed(ts, init, NonEssential);
    if total > 0 && c.kind == Essential {
      SumTotalsAppend(e, item);
      assert Listed(ts, categories, Essential) == e + [item];
      assert Listed(ts, categories, NonEssential) == n;
    } else if total > 0 {
      SumTotalsAppend(n, item);
      assert Listed(ts, categories, NonEssential) == n + [item];
      assert Listed(ts, categories, Essential) == e;
    } else {
      assert Listed(ts, categories, Essential) == e;
      assert Listed(ts, categories, NonEssential) == n;
    }
  }

  /** The screen's total leaves out expenses whose category id is unknown, so it equals the
      dashboard's total spent less that spending, and never exceeds it (for non-negative amounts). */
  lemma ScreenTotalAgainstDashboard(ts: seq<Transaction>, categories: seq<Category>)
    requires DistinctCategoryIds(categories)
    requires forall i :: 0 <= i < |ts| ==> ts[i].amount >= 0
    ensures SumTotals(Listed(ts, categories, Essential)) + SumTotals(Listed(ts, categories, NonEssential))
      == TotalSpent(ts) - OrphanSpent(ts, CategoryIds(categories))
    ensures SumTotals(Listed(ts, categories, Essential)) + SumTotals(Listed(ts, categories, NonEssential))
      <= TotalSpent(ts)
  {
    BucketsCoverKnownCategories(ts, categories);
    SpentInOrOrphan(ts, CategoryIds(categories));
    OrphanSpentNonNegative(ts, CategoryIds(categories));
  }

  // ---- CategoryRow ---------------------------------------------------------------

  /** `Math.round(total / totalSpent * 100)` (halves round up), or 0 when nothing was spent. */
  function Percentage(total: int, totalSpent: int): (p: int)
    ensures totalSpent <= 0 ==> p == 0
    ensures totalSpent > 0 ==> 2 * totalSpent * p - totalSpent <= 200 * total < 2 * totalSpent * p + totalSpent
  {
    if totalSpent > 0 then (200 * total + totalSpent) / (2 * totalSpent) else 0
  }

  /** A row's share lies between 0 and 100 when its total is part of the screen's total. */
  lemma PercentageBounds(total: int, totalSpent: int)
    requires 0 <= total <= totalSpent
    ensures 0 <= Percentage(total, totalSpent) <= 100
  {
    var p := Percentage(total, totalSpent);
    if totalSpent > 0 {
      MulAtLeast(totalSpent, p - 100);
      MulAtLeast(totalSpent, -p);
      assert totalSpent * (p - 100) == totalSpent * p - 100 * totalSpent;
      assert totalSpent * -p == -(totalSpent * p);
      assert 2 * totalSpent * p == 2 * (totalSpent * p);
    }
  }

  /** At least one copy of `x`, taken `y` times, is at least `x`. */
  lemma {:induction false} MulAtLeast(x: nat, y: int)
    ensures y >= 1 ==> x * y >= x
  {
    if x > 0 && y >= 1 {
      MulAtLeast(x - 1, y);
      assert x * y == (x - 1) * y + y;
    }
  }

  datatype Icon = FoodIcon | TransportIcon | SchoolIcon | HeartIcon | OtherIcon | Letter(text: string)

  /** The keywords in the order they are tried, and the icon each selects. */
  const Keywords: seq<string> := ["food", "transport", "university", "passion", "other"]
  const KeywordIcons: seq<Icon> := [FoodIcon, TransportIcon, SchoolIcon, HeartIcon, OtherIcon]

  /** The first keyword, from position `k` on, that occurs in `n`. */
  function FirstKeyword(n: string, k: nat): (r: Option<nat>)
    requires k <= |Keywords|
    ensures r.None? ==> forall j :: k <= j < |Keywords| ==> !Contains(n, Keywords[j])
    ensures r.Some? ==> (k <= r.value < |Keywords| && Contains(n, Keywords[r.value])
      && forall j :: k <= j < r.value ==> !Contains(n, Keywords[j]))
    decreases |Keywords| - k
  {
    if k == |Keywords| then None
    else if Contains(n, Keywords[k]) then Some(k)
    else FirstKeyword(n, k + 1)
  }

  /** getIcon: the name lower-cased, then tested for each keyword in turn; failing all, its first character. */
  function CategoryIcon(name: string): Icon
  {
    var n := ToLower(name);
    if Contains(n, "food") then FoodIcon
    else if Contains(n, "transport") then TransportIcon
    else if Contains(n, "university") then SchoolIcon
    else if Contains(n, "passion") then HeartIcon
    else if Contains(n, "other") then OtherIcon
    else Letter(name[..if name == [] then 0 else 1])
  }

  /** The icon is the one of the first keyword in the list that occurs in the lower-cased
      name; only when none occurs is the first character (or nothing, for an empty name) shown. */
  lemma CategoryIconByKeywords(name: string)
    ensures CategoryIcon(name) == match FirstKeyword(ToLower(name), 0)
      case Some(k) => KeywordIcons[k]
      case None => Letter(if name == [] then "" else [name[0]])
  {
    var n := ToLower(name);
    assert FirstKeyword(n, 0) == if Contains(n, "food") then Some(0) else FirstKeyword(n, 1);
    assert FirstKeyword(n, 1) == if Contains(n, "transport") then Some(1) else FirstKeyword(n, 2);
    assert FirstKeyword(n, 2) == if Contains(n, "university") then Some(2) else FirstKeyword(n, 3);
    assert FirstKeyword(n, 3) == if Contains(n, "passion") then Some(3) else FirstKeyword(n, 4);
    assert FirstKeyword(n, 4) == if Contains(n, "other") then Some(4) else FirstKeyword(n, 5);
  }
}

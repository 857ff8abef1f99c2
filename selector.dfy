/** The meal selector: restriction parsing, the substring filter over the catalog,
    the goal-dependent ordering of each slot and the seven-day cycling. */
module Selector {
  import opened Text
  import opened Catalog

  // ---------------------------------------------------------------------
  // Restrictions
  // ---------------------------------------------------------------------

  /** The five tags the filter recognises; the i-th one switches on the i-th exclusion word. */
  const RestrictionTags: seq<string> := ["Vegetarian", "Vegan", "Gluten-Free", "Dairy-Free", "Nut-Free"]

  /** The tag list of a restriction string: no tags for exactly "None", otherwise the pieces
      between commas, neither trimmed nor filtered. */
  function ParseRestrictions(restrictions: string): (tags: seq<string>)
    ensures restrictions == "None" ==> tags == []
    ensures restrictions != "None" ==> |tags| >= 1 && Join(tags, ',') == restrictions
    ensures forall t :: t in tags ==> ',' !in t
  {
    if restrictions == "None" then []
    else
      JoinSplit(restrictions, ',');
      SplitPiecesLackSeparator(restrictions, ',');
      Split(restrictions, ',')
  }

  /** A comma-joined list of comma-free tags (other than the single tag "None") parses back
      into exactly that list. */
  lemma ParseJoinedTags(tags: seq<string>)
    requires |tags| >= 1 && forall t :: t in tags ==> ',' !in t
    requires Join(tags, ',') != "None"
    ensures ParseRestrictions(Join(tags, ',')) == tags
  {
    SplitJoin(tags, ',');
  }

  /** Tags are matched without trimming: after a comma and a blank, the blank stays part of
      the next tag, so "Vegan, Gluten-Free" carries " Gluten-Free" and not "Gluten-Free". */
  lemma BlankAfterCommaKept(first: string, second: string)
    requires ',' !in first && ',' !in second
    ensures ParseRestrictions(first + ", " + second) == [first, " " + second]
    ensures " " + second !in RestrictionTags
  {
    CommaBlankSplit(first, second);
    CommaNotNone(first + ", " + second, |first|);
    BlankStartNoTag(" " + second);
  }

  lemma CommaBlankSplit(first: string, second: string)
    requires ',' !in first && ',' !in second
    ensures Split(first + ", " + second, ',') == [first, " " + second]
  {
    assert first + ", " + second == first + [','] + (" " + second);
    assert ',' !in " " + second by {
      forall c | c in " " + second ensures c != ',' {
        if c in second {
        }
      }
    }
    SplitAtFirstSeparator(first, " " + second, ',');
    SplitWithoutSeparator(" " + second, ',');
  }

  /** A string with a comma is not "None", so it is split. */
  lemma CommaNotNone(s: string, i: nat)
    requires i < |s| && s[i] == ','
    ensures s != "None" && ParseRestrictions(s) == Split(s, ',')
  {
    assert ',' !in "None";
  }

  /** No tag begins with a blank. */
  lemma BlankStartNoTag(t: string)
    requires |t| > 0 && t[0] == ' '
    ensures t !in RestrictionTags
  {
    forall k | 0 <= k < 5 ensures RestrictionTags[k] != t {
      assert RestrictionTags[k][0] != ' ';
    }
  }

  /** Whether all five tags are present, which is what keeps any meal in the filter. */
  predicate AllActive(tags: seq<string>) {
    forall i :: 0 <= i < 5 ==> RestrictionTags[i] in tags
  }

  /** Two tags can never be all five. */
  lemma TwoTagsNotAllActive(first: string, second: string)
    ensures !AllActive([first, second])
  {
    var tags := [first, second];
    if RestrictionTags[0] in tags && RestrictionTags[1] in tags {
      assert |RestrictionTags[0]| == 10 && |RestrictionTags[1]| == 5 && |RestrictionTags[2]| == 11;
      assert RestrictionTags[2] !in tags;
    }
  }

  /** The five strings the filter looks for: the exclusion word of each present tag, and
      the empty string for each absent one. */
  function Exclusions(tags: seq<string>): (words: seq<string>)
    ensures |words| == 5
    ensures forall i :: 0 <= i < 5 ==> (words[i] == ExclusionWords[i] <==> RestrictionTags[i] in tags)
    ensures forall i :: 0 <= i < 5 ==> (words[i] == "" <==> RestrictionTags[i] !in tags)
    ensures "" in words <==> !AllActive(tags)
    ensures AllActive(tags) ==> words == ExclusionWords
  {
    [ if "Vegetarian" in tags then "Meat" else "",
      if "Vegan" in tags then "Animal" else "",
      if "Gluten-Free" in tags then "Gluten" else "",
      if "Dairy-Free" in tags then "Dairy" else "",
      if "Nut-Free" in tags then "Nut" else "" ]
  }

  // ---------------------------------------------------------------------
  // Filtering
  // ---------------------------------------------------------------------

  /** A meal survives the filter when none of the exclusion strings occurs in its name. */
  predicate Keeps(m: Meal, words: seq<string>) {
    forall w :: w in words ==> !Contains(m.name, w)
  }

  /** `a` is `b` with some elements left out, the rest in their original order. */
  predicate IsSubsequence(a: seq<Meal>, b: seq<Meal>)
    decreases |b|
  {
    a == [] || (b != [] && ((a[0] == b[0] && IsSubsequence(a[1..], b[1..])) || IsSubsequence(a, b[1..])))
  }

  /** The meals of `meals` that the filter keeps, in catalog order. */
  function FilterMeals(meals: seq<Meal>, words: seq<string>): (kept: seq<Meal>)
    ensures forall m :: m in kept <==> m in meals && Keeps(m, words)
    ensures IsSubsequence(kept, meals)
    ensures (forall m :: m in meals ==> Keeps(m, words)) ==> kept == meals
    decreases |meals|
  {
    if meals == [] then []
    else
      var rest := FilterMeals(meals[1..], words);
      assert meals == [meals[0]] + meals[1..];
      if Keeps(meals[0], words) then [meals[0]] + rest else rest
  }

  /** An empty exclusion string occurs in every name, so it empties any list. */
  lemma EmptyWordRemovesAll(meals: seq<Meal>, words: seq<string>)
    requires "" in words
    ensures FilterMeals(meals, words) == []
  {
    forall m | m in meals ensures !Keeps(m, words) {
      EmptyOccursEverywhere(m.name);
    }
  }

  /** A slot keeps its whole catalog when all five tags are present, and nothing otherwise. */
  lemma FilterAllOrNothing(tags: seq<string>, slot: Slot)
    ensures FilterMeals(MealsFor(slot), Exclusions(tags)) == (if AllActive(tags) then MealsFor(slot) else [])
  {
    if AllActive(tags) {
      CatalogFreeOfExclusionWords(slot);
      forall m | m in MealsFor(slot) ensures Keeps(m, ExclusionWords) {
        var k :| 0 <= k < 5 && MealsFor(slot)[k] == m;
      }
    } else {
      EmptyWordRemovesAll(MealsFor(slot), Exclusions(tags));
    }
  }

  // ---------------------------------------------------------------------
  // Ordering
  // ---------------------------------------------------------------------

  predicate Ascending(s: seq<Meal>) {
    forall i, j :: 0 <= i < j < |s| ==> s[i].calories <= s[j].calories
  }

  predicate Descending(s: seq<Meal>) {
    forall i, j :: 0 <= i < j < |s| ==> s[i].calories >= s[j].calories
  }

  /** The meals of `s` with exactly `c` calories, in their order in `s`. */
  function WithCalories(s: seq<Meal>, c: int): (r: seq<Meal>)
    ensures forall m :: m in r <==> m in s && m.calories == c
    decreases |s|
  {
    if s == [] then []
    else (if s[0].calories == c then [s[0]] else []) + WithCalories(s[1..], c)
  }

  /** `m` placed just before the first meal of `s` with at least as many calories. */
  function Insert(m: Meal, s: seq<Meal>): (r: seq<Meal>)
    ensures multiset(r) == multiset(s) + multiset{m}
    ensures forall x :: x in r <==> x in s || x == m
    decreases |s|
  {
    if s == [] || m.calories <= s[0].calories then [m] + s
    else
      assert s == [s[0]] + s[1..];
      [s[0]] + Insert(m, s[1..])
  }

  /** Inserting into an ascending list keeps it ascending. */
  lemma {:induction false} InsertAscending(m: Meal, s: seq<Meal>)
    requires Ascending(s)
    ensures Ascending(Insert(m, s))
    decreases |s|
  {
    if s != [] && m.calories > s[0].calories {
      InsertAscending(m, s[1..]);
      var rest := Insert(m, s[1..]);
      var r := [s[0]] + rest;
      forall i, j | 0 <= i < j < |r| ensures r[i].calories <= r[j].calories {
        if i == 0 {
          assert r[j] in rest;
          if r[j] in s[1..] {
            var k :| 0 <= k < |s[1..]| && s[1..][k] == r[j];
            assert s[k + 1] == r[j];
          }
        } else {
          assert r[i] == rest[i - 1] && r[j] == rest[j - 1];
        }
      }
    }
  }

  /** Among the meals with any one calorie count, the inserted meal comes first and the
      others keep their order: the insertion is stable. */
  lemma {:induction false} InsertStable(m: Meal, s: seq<Meal>, c: int)
    ensures WithCalories(Insert(m, s), c) == (if m.calories == c then [m] else []) + WithCalories(s, c)
    decreases |s|
  {
    var own := if m.calories == c then [m] else [];
    if s == [] || m.calories <= s[0].calories {
      assert ([m] + s)[0] == m && ([m] + s)[1..] == s;
    } else {
      var head := if s[0].calories == c then [s[0]] else [];
      var rest := Insert(m, s[1..]);
      InsertStable(m, s[1..], c);
      assert ([s[0]] + rest)[0] == s[0] && ([s[0]] + rest)[1..] == rest;
      assert WithCalories(s, c) == head + WithCalories(s[1..], c);
      assert head == [] || own == [];
      assert WithCalories([s[0]] + rest, c) == head + (own + WithCalories(s[1..], c));
    }
  }

  /** Python's `sorted(pool, key=calories)`: a stable sort, written as an insertion sort. */
  function SortByCalories(pool: seq<Meal>): (sorted: seq<Meal>)
    ensures Ascending(sorted)
    ensures multiset(sorted) == multiset(pool)
    decreases |pool|
  {
    if pool == [] then []
    else
      assert pool == [pool[0]] + pool[1..];
      InsertAscending(pool[0], SortByCalories(pool[1..]));
      Insert(pool[0], SortByCalories(pool[1..]))
  }

  /** The sort is stable: the meals with any one calorie count keep their relative order. */
  lemma {:induction false} SortStable(pool: seq<Meal>, c: int)
    ensures WithCalories(SortByCalories(pool), c) == WithCalories(pool, c)
    decreases |pool|
  {
    if pool != [] {
      SortStable(pool[1..], c);
      InsertStable(pool[0], SortByCalories(pool[1..]), c);
    }
  }

  /** `s` back to front, as Python's `list(reversed(s))`. */
  function Reverse(s: seq<Meal>): (r: seq<Meal>)
    ensures |r| == |s| && forall i :: 0 <= i < |s| ==> r[i] == s[|s| - 1 - i]
    ensures multiset(r) == multiset(s)
    decreases |s|
  {
    if s == [] then []
    else
      assert s == [s[0]] + s[1..];
      Reverse(s[1..]) + [s[0]]
  }

  /** The order in which a slot's sorted pool is served over the week: highest calories first
      for "Muscle Gain", lowest first for "Weight Loss", and for any other goal the upper half
      of the sorted pool followed by the lower half. */
  function OrderPool(goal: string, sorted: seq<Meal>): (ordered: seq<Meal>)
    ensures |ordered| == |sorted| && multiset(ordered) == multiset(sorted)
  {
    if goal == "Muscle Gain" then Reverse(sorted)
    else if goal == "Weight Loss" then sorted
    else Rotate(sorted)
  }

  /** `sorted[mid:] + sorted[:mid]` with `mid` half the length, rounded down. */
  function Rotate(sorted: seq<Meal>): (rotated: seq<Meal>)
    ensures |rotated| == |sorted| && multiset(rotated) == multiset(sorted)
  {
    var mid := |sorted| / 2;
    assert sorted == sorted[..mid] + sorted[mid..];
    sorted[mid..] + sorted[..mid]
  }

  /** "Weight Loss" serves the pool in non-decreasing calories. */
  lemma WeightLossAscending(sorted: seq<Meal>)
    requires Ascending(sorted)
    ensures OrderPool("Weight Loss", sorted) == sorted && Ascending(OrderPool("Weight Loss", sorted))
  {
  }

  /** "Muscle Gain" serves the pool in non-increasing calories, as the sorted pool reversed. */
  lemma MuscleGainDescending(sorted: seq<Meal>)
    requires Ascending(sorted)
    ensures Descending(OrderPool("Muscle Gain", sorted))
  {
    var r := OrderPool("Muscle Gain", sorted);
    forall i, j | 0 <= i < j < |r| ensures r[i].calories >= r[j].calories {
      assert r[i] == sorted[|sorted| - 1 - i] && r[j] == sorted[|sorted| - 1 - j];
    }
  }

  /** Any other goal rotates the sorted pool left by half its length (rounded down), so the
      first meal served is the sorted pool's middle one. */
  lemma OtherGoalRotates(goal: string, sorted: seq<Meal>)
    requires goal != "Muscle Gain" && goal != "Weight Loss"
    ensures var n := |sorted|; var ordered := OrderPool(goal, sorted);
      forall i :: 0 <= i < n ==> ordered[i] == sorted[(i + n / 2) % n]
    ensures |sorted| > 0 ==> OrderPool(goal, sorted)[0] == sorted[|sorted| / 2]
  {
    RotateIndex(sorted);
  }

  lemma RotateIndex(sorted: seq<Meal>)
    ensures var n := |sorted|; forall i :: 0 <= i < n ==> Rotate(sorted)[i] == sorted[(i + n / 2) % n]
    ensures |sorted| > 0 ==> Rotate(sorted)[0] == sorted[|sorted| / 2]
  {
    var n := |sorted|;
    Half(n);
    forall i | 0 <= i < n ensures Rotate(sorted)[i] == sorted[(i + n / 2) % n] {
      RotatedAt(sorted, n / 2, i);
    }
    if n > 0 {
      RotatedAt(sorted, n / 2, 0);
      ModBelow(n / 2, n);
    }
  }

  /** Index `i` of `s` rotated left by `k` is index `(i + k) % |s|` of `s`. */
  lemma RotatedAt(s: seq<Meal>, k: nat, i: nat)
    requires k <= |s| && i < |s|
    ensures (s[k..] + s[..k])[i] == s[(i + k) % |s|]
  {
    var n := |s|;
    if i < n - k {
      assert (s[k..] + s[..k])[i] == s[k..][i];
      ModBelow(i + k, n);
    } else {
      assert (s[k..] + s[..k])[i] == s[..k][i - (n - k)];
      ModWrap(i + k, n);
    }
  }

  lemma Half(n: nat)
    ensures 0 <= n / 2 <= n && (n > 0 ==> n / 2 < n) && n - n / 2 <= n
  {
  }

  lemma ModBelow(x: int, n: int)
    requires 0 <= x < n
    ensures x % n == x
  {
  }

  lemma ModWrap(x: int, n: int)
    requires 0 < n <= x < 2 * n
    ensures x % n == x - n
  {
    assert x == 1 * n + (x - n);
  }

  // ---------------------------------------------------------------------
  // The week
  // ---------------------------------------------------------------------

  /** Seven days of a non-empty ordered pool, starting over at its beginning whenever it runs out. */
  function WeekList(ordered: seq<Meal>): (week: seq<Meal>)
    requires |ordered| > 0
    ensures |week| == 7
  {
    seq(7, i requires 0 <= i < 7 => ordered[i % |ordered|])
  }

  /** Day i serves the pool's entry at i modulo the pool's length, so the week repeats with
      the pool's length as its period. */
  lemma WeekListPeriodic(ordered: seq<Meal>)
    requires |ordered| > 0
    ensures forall i :: 0 <= i < 7 ==> WeekList(ordered)[i] == ordered[i % |ordered|]
    ensures var week := WeekList(ordered); var n := |ordered|;
      forall i :: 0 <= i && i + n < 7 ==> week[i] == week[i + n]
  {
    var n := |ordered|;
    forall i | 0 <= i && i + n < 7 ensures WeekList(ordered)[i] == WeekList(ordered)[i + n] {
      ShiftByPeriod(i, n);
    }
  }

  /** Within one week the period is at most six, so each case divides by a constant. */
  lemma ShiftByPeriod(i: nat, n: nat)
    requires 0 < n && i + n < 7
    ensures (i + n) % n == i % n
  {
    if n == 1 {
    } else if n == 2 {
      assert (i + 2) % 2 == i % 2;
    } else if n == 3 {
      assert (i + 3) % 3 == i % 3;
    } else if n == 4 {
      assert (i + 4) % 4 == i % 4;
    } else if n == 5 {
      assert (i + 5) % 5 == i % 5;
    } else {
      assert n == 6 && i == 0;
    }
  }

  /** The week opens with the pool itself, as far as seven days go. */
  lemma WeekListStartsWithPool(ordered: seq<Meal>)
    requires |ordered| > 0
    ensures var k := if |ordered| < 7 then |ordered| else 7;
      WeekList(ordered)[..k] == ordered[..k]
  {
  }

  /** Every day serves a meal of the pool, and a pool of at most seven meals is served in full. */
  lemma WeekListCoversPool(ordered: seq<Meal>)
    requires |ordered| > 0
    ensures forall m :: m in WeekList(ordered) ==> m in ordered
    ensures |ordered| <= 7 ==> forall m :: m in ordered ==> m in WeekList(ordered)
  {
    var week := WeekList(ordered);
    forall m | m in week ensures m in ordered {
      var i :| 0 <= i < 7 && week[i] == m;
    }
    if |ordered| <= 7 {
      forall m | m in ordered ensures m in week {
        var i :| 0 <= i < |ordered| && ordered[i] == m;
        assert week[i] == m;
      }
    }
  }

  /** What one slot serves over the week: nothing when the filtered pool is empty, otherwise
      the sorted pool in the goal's order, cycled over seven days. */
  function SlotWeek(goal: string, available: seq<Meal>): (week: seq<Meal>)
    ensures available == [] ==> week == []
    ensures available != [] ==> |week| == 7 && forall m :: m in week ==> m in available
  {
    if available == [] then []
    else
      var ordered := OrderPool(goal, SortByCalories(available));
      assert forall m :: m in ordered ==> m in available by {
        forall m | m in ordered ensures m in available {
          assert multiset(ordered)[m] > 0;
        }
      }
      WeekListCoversPool(ordered);
      WeekList(ordered)
  }

  /** A pool of at most seven meals is served in full over the week. */
  lemma SlotWeekServesAll(goal: string, available: seq<Meal>)
    requires 0 < |available| <= 7
    ensures forall m :: m in available ==> m in SlotWeek(goal, available)
  {
    var ordered := OrderPool(goal, SortByCalories(available));
    forall m | m in available ensures m in ordered {
      assert multiset(available)[m] > 0;
    }
    WeekListCoversPool(ordered);
  }

  /** What the selector serves in one slot for a goal and a restriction string. */
  function SlotSelection(goal: string, restrictions: string, slot: Slot): seq<Meal> {
    SlotWeek(goal, FilterMeals(MealsFor(slot), Exclusions(ParseRestrictions(restrictions))))
  }

  /** The selector's whole result, keyed by the four slots. */
  function Recommendations(goal: string, restrictions: string): map<Slot, seq<Meal>> {
    map slot | slot in AllSlots :: SlotSelection(goal, restrictions, slot)
  }

  /** The result has exactly the four slot keys. */
  lemma RecommendationsKeys(goal: string, restrictions: string)
    ensures Recommendations(goal, restrictions).Keys == AllSlots
  {
  }

  /** Every slot is a key of the result, bound to that slot's selection. */
  lemma RecommendationsAt(goal: string, restrictions: string, slot: Slot)
    ensures slot in Recommendations(goal, restrictions)
    ensures Recommendations(goal, restrictions)[slot] == SlotSelection(goal, restrictions, slot)
  {
    assert slot in AllSlots;
  }

  /** Unless all five tags are present, every slot is empty: there is no fallback to the
      unfiltered catalog. */
  lemma EmptyUnlessAllActive(goal: string, restrictions: string, slot: Slot)
    requires !AllActive(ParseRestrictions(restrictions))
    ensures SlotSelection(goal, restrictions, slot) == []
  {
    FilterAllOrNothing(ParseRestrictions(restrictions), slot);
  }

  /** With all five tags present, each slot serves its whole catalog in the goal's order, so
      every one of its five meals appears during the week. */
  lemma FullCatalogWhenAllActive(goal: string, restrictions: string, slot: Slot)
    requires AllActive(ParseRestrictions(restrictions))
    ensures SlotSelection(goal, restrictions, slot) == WeekList(OrderPool(goal, SortByCalories(MealsFor(slot))))
    ensures forall m :: m in MealsFor(slot) <==> m in SlotSelection(goal, restrictions, slot)
  {
    var pool := MealsFor(slot);
    FilterAllOrNothing(ParseRestrictions(restrictions), slot);
    assert SlotSelection(goal, restrictions, slot) == SlotWeek(goal, pool);
    SlotWeekServesAll(goal, pool);
  }

  /** Each slot serves seven meals when all five tags are present and none otherwise. */
  lemma SelectionLength(goal: string, restrictions: string, slot: Slot)
    ensures |SlotSelection(goal, restrictions, slot)| == if AllActive(ParseRestrictions(restrictions)) then 7 else 0
  {
    FilterAllOrNothing(ParseRestrictions(restrictions), slot);
  }

  /** The slots the program's loops have visited after `j` rounds. */
  function SlotsBefore(j: nat): set<Slot>
    requires j <= |SlotOrder|
  {
    set k | 0 <= k < j :: SlotOrder[k]
  }

  lemma SlotsBeforeStep(j: nat)
    requires j < |SlotOrder|
    ensures SlotsBefore(j + 1) == SlotsBefore(j) + {SlotOrder[j]}
  {
  }

  lemma SlotsBeforeAll()
    ensures SlotsBefore(|SlotOrder|) == AllSlots
  {
    assert SlotOrder[0] == Breakfast && SlotOrder[1] == Lunch && SlotOrder[2] == Snack && SlotOrder[3] == Dinner;
  }

  /** The program's first loop: each slot's catalog list, filtered by the exclusion words. */
  method FilterCatalog(words: seq<string>) returns (filtered: map<Slot, seq<Meal>>)
    ensures filtered.Keys == AllSlots
    ensures forall slot :: slot in filtered ==> filtered[slot] == FilterMeals(MealsFor(slot), words)
  {
    filtered := map[];
    for j := 0 to |SlotOrder|
      invariant filtered.Keys == SlotsBefore(j)
      invariant forall slot :: slot in filtered ==> filtered[slot] == FilterMeals(MealsFor(slot), words)
    {
      var slot := SlotOrder[j];
      SlotsBeforeStep(j);
      filtered := filtered[slot := FilterMeals(MealsFor(slot), words)];
    }
    SlotsBeforeAll();
  }

  /** The program's second loop: for each slot, an empty pool stays empty, otherwise the pool
      is sorted, put in the goal's order and cycled over the week. */
  method SelectWeeks(goal: string, filtered: map<Slot, seq<Meal>>) returns (selected: map<Slot, seq<Meal>>)
    requires filtered.Keys == AllSlots
    ensures selected.Keys == AllSlots
    ensures forall slot :: slot in selected ==> selected[slot] == SlotWeek(goal, filtered[slot])
  {
    selected := map[];
    for j := 0 to |SlotOrder|
      invariant selected.Keys == SlotsBefore(j)
      invariant forall slot :: slot in selected ==> selected[slot] == SlotWeek(goal, filtered[slot])
    {
      var slot := SlotOrder[j];
      SlotsBeforeStep(j);
      var available := if slot in filtered then filtered[slot] else MealsFor(slot);
      if available == [] {
        selected := selected[slot := []];
        continue;
      }
      var sorted := SortByCalories(available);
      var ordered := OrderPool(goal, sorted);
      selected := selected[slot := WeekList(ordered)];
    }
    SlotsBeforeAll();
  }

  /** The selector as the program runs it: one loop fills the filtered lists slot by slot,
      a second builds each slot's week from them. */
  method GetMealRecommendations(goal: string, restrictions: string) returns (selected: map<Slot, seq<Meal>>)
    ensures selected == Recommendations(goal, restrictions)
  {
    var tags := ParseRestrictions(restrictions);
    var words := Exclusions(tags);
    var filtered := FilterCatalog(words);
    selected := SelectWeeks(goal, filtered);
    ghost var expected := Recommendations(goal, restrictions);
    RecommendationsKeys(goal, restrictions);
    forall slot | slot in expected ensures selected[slot] == expected[slot] {
      RecommendationsAt(goal, restrictions, slot);
    }
    MapsAgree(selected, expected);
  }

  lemma MapsAgree(a: map<Slot, seq<Meal>>, b: map<Slot, seq<Meal>>)
    requires a.Keys == b.Keys
    requires forall slot :: slot in b ==> a[slot] == b[slot]
    ensures a == b
  {
  }
}

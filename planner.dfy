/** The weekly plan assembler (`generate_weekly_plan`): it classifies the diet from the
    restriction string, then builds one row per day from the per-slot day lists, filling
    each gap with the diet's fallback meal, and adds up the calories of every row. */
module Planner {
  import opened Text
  import opened Catalog

  datatype Option<T> = None | Some(value: T)

  /** One element of a day list as the planner reads it: a dictionary that may lack its
      "name" or its "calories" key. */
  datatype Entry = Entry(name: Option<string>, calories: Option<int>)

  /** One row of the weekly plan: the day, the four rendered cells and the day's total. */
  datatype Row = Row(day: string, breakfast: string, lunch: string, snack: string, dinner: string,
                     totalCalories: int)

  const Days: seq<string> := ["Sunday", "Monday", "Tuesday", "Wednesday", "Thursday", "Friday", "Saturday"]

  // ---------------------------------------------------------------------
  // Diet classification
  // ---------------------------------------------------------------------

  /** The comma-separated pieces, stripped and lower-cased, with the blank ones dropped. */
  function Tokens(pieces: seq<string>): (tokens: seq<string>)
    ensures |tokens| <= |pieces|
    ensures forall t :: t in tokens <==> exists p :: p in pieces && Strip(p) != "" && t == Lower(Strip(p))
  {
    if pieces == [] then []
    else
      var rest := Tokens(pieces[1..]);
      assert forall p :: p in pieces <==> p == pieces[0] || p in pieces[1..];
      if Strip(pieces[0]) != "" then [Lower(Strip(pieces[0]))] + rest else rest
  }

  /** Some comma-separated piece of `restrictions` reads `word` once stripped and lower-cased. */
  predicate Mentions(restrictions: string, word: string) {
    exists p :: p in Split(restrictions, ',') && Lower(Strip(p)) == word
  }

  /** The diet that picks the fallback meals. "vegan" beats "vegetarian", which beats the three
      spellings of non-vegetarian; a missing or empty string, or anything else, is vegetarian. */
  function ClassifyDiet(restrictions: Option<string>): Diet {
    if restrictions.None? || restrictions.value == "" then Vegetarian
    else
      var parts := Tokens(Split(restrictions.value, ','));
      if "vegan" in parts then Vegan
      else if "vegetarian" in parts then Vegetarian
      else if "non-vegetarian" in parts || "nonveg" in parts || "non veg" in parts then NonVegetarian
      else Vegetarian
  }

  /** A non-empty word is a token exactly when some piece reads it once stripped and lower-cased. */
  lemma TokenMentioned(restrictions: string, word: string)
    requires word != ""
    ensures word in Tokens(Split(restrictions, ',')) <==> Mentions(restrictions, word)
  {
    var pieces := Split(restrictions, ',');
    if Mentions(restrictions, word) {
      var p :| p in pieces && Lower(Strip(p)) == word;
      assert |Lower(Strip(p))| == |Strip(p)|;
    }
  }

  /** The empty string mentions nothing. */
  lemma EmptyMentionsNothing(word: string)
    requires word != ""
    ensures !Mentions("", word)
  {
    SplitWithoutSeparator("", ',');
    StripAllSpace("");
  }

  /** The classification in terms of the words the restriction string mentions. */
  lemma ClassifyDietByMentions(restrictions: Option<string>)
    ensures ClassifyDiet(restrictions) == Vegan
      <==> restrictions.Some? && Mentions(restrictions.value, "vegan")
    ensures ClassifyDiet(restrictions) == NonVegetarian
      <==> restrictions.Some? && !Mentions(restrictions.value, "vegan") && !Mentions(restrictions.value, "vegetarian")
           && (Mentions(restrictions.value, "non-vegetarian") || Mentions(restrictions.value, "nonveg")
               || Mentions(restrictions.value, "non veg"))
  {
    if restrictions.Some? {
      var r := restrictions.value;
      if r == "" {
        EmptyMentionsNothing("vegan");
        EmptyMentionsNothing("vegetarian");
        EmptyMentionsNothing("non-vegetarian");
        EmptyMentionsNothing("nonveg");
        EmptyMentionsNothing("non veg");
      } else {
        TokenMentioned(r, "vegan");
        TokenMentioned(r, "vegetarian");
        TokenMentioned(r, "non-vegetarian");
        TokenMentioned(r, "nonveg");
        TokenMentioned(r, "non veg");
      }
    }
  }

  // ---------------------------------------------------------------------
  // Cells
  // ---------------------------------------------------------------------

  /** `entry.get("name", "N/A")` */
  function EntryName(entry: Entry): string {
    match entry.name
    case Some(name) => name
    case None => "N/A"
  }

  /** `entry.get("calories", 0)` */
  function EntryCalories(entry: Entry): int {
    match entry.calories
    case Some(calories) => calories
    case None => 0
  }

  /** `daily_meals.get(key, [])` for the key of a slot. */
  function DayList(daily: map<string, seq<Entry>>, slot: Slot): seq<Entry> {
    if SlotKey(slot) in daily then daily[SlotKey(slot)] else []
  }

  /** The name shown for day `i` of a slot: the list's entry when there is one, otherwise the
      diet's fallback. */
  function UsedName(list: seq<Entry>, diet: Diet, slot: Slot, i: nat): string {
    if i < |list| then EntryName(list[i]) else DefaultFor(diet, slot).name
  }

  /** The calories counted for day `i` of a slot, chosen the same way as the name. */
  function UsedCalories(list: seq<Entry>, diet: Diet, slot: Slot, i: nat): int {
    if i < |list| then EntryCalories(list[i]) else DefaultFor(diet, slot).calories
  }

  /** `f"{name} ({calories} cal)"` */
  function Render(name: string, calories: int): (cell: string)
    ensures |cell| > |name| + 7 && cell[..|name|] == name && cell[|cell| - 5..] == " cal)"
  {
    name + " (" + IntToString(calories) + " cal)"
  }

  /** What a cell shows: the name and the calories. */
  datatype Shown = Shown(name: string, calories: int)

  /** Reads a cell back from its end: the suffix " cal)", the digits with an optional minus sign,
      and the " (" that separates them from the name (which may itself contain parentheses). */
  function ParseCell(cell: string): Option<Shown> {
    if |cell| < 5 || cell[|cell| - 5..] != " cal)" then None
    else
      var body := cell[..|cell| - 5];
      var k := TrailingDigits(body);
      var rest := body[..|body| - k];
      var value: int := ParseNat(body[|body| - k..]);
      if k == 0 then None
      else if |rest| >= 3 && rest[|rest| - 3..] == " (-" then Some(Shown(rest[..|rest| - 3], -value))
      else if |rest| >= 2 && rest[|rest| - 2..] == " (" then Some(Shown(rest[..|rest| - 2], value))
      else None
  }

  /** Every rendered cell reads back as the name and calories it was made from. */
  lemma ParseRender(name: string, calories: int)
    ensures ParseCell(Render(name, calories)) == Some(Shown(name, calories))
  {
    var n: nat := if calories < 0 then -calories else calories;
    var head := if calories < 0 then name + " (-" else name + " (";
    RenderFramed(name, calories);
    ParseFramed(head, NatToString(n));
    ParseNatToString(n);
    if calories < 0 {
      assert head[|head| - 3..] == " (-" && head[..|head| - 3] == name;
    } else {
      assert head[|head| - 1] == '(';
      assert |head| >= 3 ==> head[|head| - 3..][2] == head[|head| - 1];
      assert head[|head| - 2..] == " (" && head[..|head| - 2] == name;
    }
  }

  /** A rendered cell is a head ending in " (" or " (-", the digits and " cal)". */
  lemma RenderFramed(name: string, calories: int)
    ensures calories < 0 ==> Render(name, calories) == (name + " (-") + NatToString(-calories) + " cal)"
    ensures calories >= 0 ==> Render(name, calories) == (name + " (") + NatToString(calories) + " cal)"
  {
    if calories < 0 {
      assert name + " (" + ("-" + NatToString(-calories)) == (name + " (-") + NatToString(-calories);
    }
  }

  /** What `ParseCell` makes of digits framed by a head that ends in a non-digit and " cal)". */
  lemma ParseFramed(head: string, digits: string)
    requires |head| > 0 && !IsDigit(head[|head| - 1])
    requires |digits| > 0 && AllDigits(digits)
    ensures ParseCell(head + digits + " cal)")
      == if |head| >= 3 && head[|head| - 3..] == " (-" then Some(Shown(head[..|head| - 3], -(ParseNat(digits) as int)))
         else if |head| >= 2 && head[|head| - 2..] == " (" then Some(Shown(head[..|head| - 2], ParseNat(digits)))
         else None
  {
    FramedBody(head, digits);
  }

  /** The pieces `ParseCell` finds in such a cell: the suffix, the trailing digits and the head. */
  lemma FramedBody(head: string, digits: string)
    requires |head| > 0 && !IsDigit(head[|head| - 1])
    requires |digits| > 0 && AllDigits(digits)
    ensures var cell := head + digits + " cal)"; var body := cell[..|cell| - 5];
      |cell| >= 5 && cell[|cell| - 5..] == " cal)" && body == head + digits
      && TrailingDigits(body) == |digits| && body[..|body| - |digits|] == head && body[|body| - |digits|..] == digits
  {
    var cell := head + digits + " cal)";
    assert cell[|cell| - 5..] == " cal)";
    var body := cell[..|cell| - 5];
    assert body == head + digits;
    TrailingDigitsAfter(head, digits);
    assert body[..|body| - |digits|] == head;
    assert body[|body| - |digits|..] == digits;
  }

  /** The calories a cell shows, or 0 when it cannot be read. */
  function ShownCalories(cell: string): int {
    match ParseCell(cell)
    case Some(shown) => shown.calories
    case None => 0
  }

  // ---------------------------------------------------------------------
  // Rows and the week
  // ---------------------------------------------------------------------

  /** The cell of day `i` for one slot. */
  function Cell(daily: map<string, seq<Entry>>, diet: Diet, slot: Slot, i: nat): string {
    Render(UsedName(DayList(daily, slot), diet, slot, i), UsedCalories(DayList(daily, slot), diet, slot, i))
  }

  /** The calories counted for day `i` over the given slots, in order. */
  function SumUsed(daily: map<string, seq<Entry>>, diet: Diet, i: nat, slots: seq<Slot>): int
    decreases |slots|
  {
    if slots == [] then 0
    else
      var last := slots[|slots| - 1];
      SumUsed(daily, diet, i, slots[..|slots| - 1]) + UsedCalories(DayList(daily, last), diet, last, i)
  }

  /** Row `i` of the plan for a classified diet. */
  function PlanRow(daily: map<string, seq<Entry>>, diet: Diet, i: nat): Row
    requires i < |Days|
  {
    Row(Days[i], Cell(daily, diet, Breakfast, i), Cell(daily, diet, Lunch, i), Cell(daily, diet, Snack, i),
        Cell(daily, diet, Dinner, i), SumUsed(daily, diet, i, SlotOrder))
  }

  /** The cell of a row for a slot. */
  function CellOf(row: Row, slot: Slot): string {
    match slot
    case Breakfast => row.breakfast
    case Lunch => row.lunch
    case Snack => row.snack
    case Dinner => row.dinner
  }

  /** The whole plan: seven rows, Sunday to Saturday. */
  function WeeklyPlan(daily: map<string, seq<Entry>>, restrictions: Option<string>): (plan: seq<Row>)
    ensures |plan| == 7
    ensures forall i :: 0 <= i < 7 ==> plan[i].day == Days[i]
  {
    var diet := ClassifyDiet(restrictions);
    seq(7, i requires 0 <= i < 7 => PlanRow(daily, diet, i))
  }

  /** A cell reads back as the name and the calories used for it. */
  lemma CellShows(daily: map<string, seq<Entry>>, diet: Diet, slot: Slot, i: nat)
    ensures ParseCell(Cell(daily, diet, slot, i))
            == Some(Shown(UsedName(DayList(daily, slot), diet, slot, i), UsedCalories(DayList(daily, slot), diet, slot, i)))
    ensures ShownCalories(Cell(daily, diet, slot, i)) == UsedCalories(DayList(daily, slot), diet, slot, i)
  {
    var list := DayList(daily, slot);
    ParseRender(UsedName(list, diet, slot, i), UsedCalories(list, diet, slot, i));
  }

  /** Each cell shows the list's entry for that day when the list is long enough ("N/A" and 0
      standing in for a missing name or calorie count), otherwise the diet's fallback meal. */
  lemma RowCell(daily: map<string, seq<Entry>>, diet: Diet, i: nat, slot: Slot)
    requires i < |Days|
    ensures var list := DayList(daily, slot); var shown := ParseCell(CellOf(PlanRow(daily, diet, i), slot));
      if i < |list| then shown == Some(Shown(EntryName(list[i]), EntryCalories(list[i])))
      else shown == Some(Shown(DefaultFor(diet, slot).name, DefaultFor(diet, slot).calories))
  {
    CellShows(daily, diet, slot, i);
    assert CellOf(PlanRow(daily, diet, i), slot) == Cell(daily, diet, slot, i);
  }

  /** The four slots in program order. */
  lemma SumUsedSlots(daily: map<string, seq<Entry>>, diet: Diet, i: nat)
    ensures SumUsed(daily, diet, i, SlotOrder)
      == UsedCalories(DayList(daily, Breakfast), diet, Breakfast, i) + UsedCalories(DayList(daily, Lunch), diet, Lunch, i)
         + UsedCalories(DayList(daily, Snack), diet, Snack, i) + UsedCalories(DayList(daily, Dinner), diet, Dinner, i)
  {
    var used := (slot: Slot) => UsedCalories(DayList(daily, slot), diet, slot, i);
    assert SlotOrder == [Breakfast, Lunch, Snack, Dinner];
    assert [Breakfast, Lunch, Snack, Dinner][..3] == [Breakfast, Lunch, Snack];
    assert [Breakfast, Lunch, Snack][..2] == [Breakfast, Lunch];
    assert [Breakfast, Lunch][..1] == [Breakfast];
    assert [Breakfast][..0] == [];
    assert SumUsed(daily, diet, i, [Breakfast]) == used(Breakfast);
    assert SumUsed(daily, diet, i, [Breakfast, Lunch]) == used(Breakfast) + used(Lunch);
    assert SumUsed(daily, diet, i, [Breakfast, Lunch, Snack]) == used(Breakfast) + used(Lunch) + used(Snack);
  }

  /** A row's total is the sum of the calories its four cells show. */
  lemma RowTotalMatchesCells(daily: map<string, seq<Entry>>, diet: Diet, i: nat)
    requires i < |Days|
    ensures var row := PlanRow(daily, diet, i);
      row.totalCalories
      == ShownCalories(row.breakfast) + ShownCalories(row.lunch) + ShownCalories(row.snack) + ShownCalories(row.dinner)
  {
    CellShows(daily, diet, Breakfast, i);
    CellShows(daily, diet, Lunch, i);
    CellShows(daily, diet, Snack, i);
    CellShows(daily, diet, Dinner, i);
    SumUsedSlots(daily, diet, i);
  }

  /** A day past the end of every list is made of the diet's fallback meals alone, so it totals
      1360 (vegetarian), 1430 (vegan) or 1490 (non-vegetarian) calories. */
  lemma FallbackRow(daily: map<string, seq<Entry>>, diet: Diet, i: nat)
    requires i < |Days|
    requires forall slot :: |DayList(daily, slot)| <= i
    ensures forall slot :: ParseCell(CellOf(PlanRow(daily, diet, i), slot))
                           == Some(Shown(DefaultFor(diet, slot).name, DefaultFor(diet, slot).calories))
    ensures PlanRow(daily, diet, i).totalCalories == FallbackDayCalories(diet)
  {
    forall slot ensures ParseCell(CellOf(PlanRow(daily, diet, i), slot))
                        == Some(Shown(DefaultFor(diet, slot).name, DefaultFor(diet, slot).calories)) {
      RowCell(daily, diet, i, slot);
    }
    assert |DayList(daily, Breakfast)| <= i && |DayList(daily, Lunch)| <= i;
    assert |DayList(daily, Snack)| <= i && |DayList(daily, Dinner)| <= i;
    SumUsedSlots(daily, diet, i);
  }

  /** With four empty lists every row of the week is made of fallback meals. */
  lemma EmptyListsFallBack(daily: map<string, seq<Entry>>, restrictions: Option<string>)
    requires forall slot :: DayList(daily, slot) == []
    ensures forall i :: 0 <= i < 7 ==> WeeklyPlan(daily, restrictions)[i].totalCalories
                                         == FallbackDayCalories(ClassifyDiet(restrictions))
  {
    var plan := WeeklyPlan(daily, restrictions);
    forall i | 0 <= i < 7
      ensures plan[i].totalCalories == FallbackDayCalories(ClassifyDiet(restrictions)) {
      FallbackRow(daily, ClassifyDiet(restrictions), i);
    }
  }

  // ---------------------------------------------------------------------
  // The program
  // ---------------------------------------------------------------------

  /** The planner as the program runs it: one pass per day appends a row whose total is
      accumulated slot by slot. */
  method GenerateWeeklyPlan(daily: map<string, seq<Entry>>, restrictions: Option<string>)
    returns (weekly: seq<Row>)
    ensures weekly == WeeklyPlan(daily, restrictions)
  {
    var diet := ClassifyDiet(restrictions);
    ghost var plan := WeeklyPlan(daily, restrictions);
    weekly := [];
    for i := 0 to |Days|
      invariant weekly == plan[..i]
    {
      var row := DayRow(daily, diet, i);
      PrefixStep(plan, i);
      weekly := weekly + [row];
    }
    assert plan[..|Days|] == plan;
  }

  lemma PrefixStep<T>(s: seq<T>, i: nat)
    requires i < |s|
    ensures s[..i + 1] == s[..i] + [s[i]]
    ensures s[..i + 1][..i] == s[..i] && s[..i + 1][i] == s[i]
  {
  }

  /** The body of the program's loop over the days: the four cells, each from the list's entry
      or the diet's fallback, and the day's total. */
  method DayRow(daily: map<string, seq<Entry>>, diet: Diet, i: nat) returns (row: Row)
    requires i < |Days|
    ensures row == PlanRow(daily, diet, i)
  {
    var b := Cell(daily, diet, Breakfast, i);
    var l := Cell(daily, diet, Lunch, i);
    var s := Cell(daily, diet, Snack, i);
    var d := Cell(daily, diet, Dinner, i);
    var total := DayTotal(daily, diet, i);
    row := Row(Days[i], b, l, s, d, total);
  }

  /** The program's inner loop: the calories of day `i`, slot by slot, from the list's entry
      when there is one, otherwise from the diet's fallback meal. */
  method DayTotal(daily: map<string, seq<Entry>>, diet: Diet, i: nat) returns (total: int)
    ensures total == SumUsed(daily, diet, i, SlotOrder)
  {
    total := 0;
    for j := 0 to |SlotOrder|
      invariant total == SumUsed(daily, diet, i, SlotOrder[..j])
    {
      var slot := SlotOrder[j];
      var list := DayList(daily, slot);
      if i < |list| {
        total := total + EntryCalories(list[i]);
      } else {
        total := total + DefaultFor(diet, slot).calories;
      }
      PrefixStep(SlotOrder, j);
    }
    assert SlotOrder[..|SlotOrder|] == SlotOrder;
  }
}

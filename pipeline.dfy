/** The two halves joined as the web route joins them: the selector's result, keyed by slot,
    is handed to the planner together with the same restriction string. */
module Pipeline {
  import opened Text
  import opened Catalog
  import opened Selector
  import opened Planner

  /** A selected meal as the planner reads it: a dictionary with both "name" and "calories". */
  function Entries(meals: seq<Meal>): (entries: seq<Entry>)
    ensures |entries| == |meals|
    ensures forall i :: 0 <= i < |meals| ==> EntryName(entries[i]) == meals[i].name
    ensures forall i :: 0 <= i < |meals| ==> EntryCalories(entries[i]) == meals[i].calories
  {
    seq(|meals|, i requires 0 <= i < |meals| => Entry(Some(meals[i].name), Some(meals[i].calories)))
  }

  /** The selector's result under the slot keys "breakfast", "lunch", "snack" and "dinner". */
  function AsDaily(selected: map<Slot, seq<Meal>>): map<string, seq<Entry>> {
    map slot | slot in selected :: SlotKey(slot) := Entries(selected[slot])
  }

  lemma SlotKeyInjective(a: Slot, b: Slot)
    ensures SlotKey(a) == SlotKey(b) ==> a == b
  {
    if a != b {
      assert SlotKey(a)[0] != SlotKey(b)[0] || |SlotKey(a)| != |SlotKey(b)|;
    }
  }

  /** The planner finds each selected slot's meals under that slot's key. */
  lemma DayListOfSelection(selected: map<Slot, seq<Meal>>, slot: Slot)
    requires slot in selected
    ensures DayList(AsDaily(selected), slot) == Entries(selected[slot])
  {
    var daily := AsDaily(selected);
    assert SlotKey(slot) in daily;
    var other :| other in selected && SlotKey(other) == SlotKey(slot) && daily[SlotKey(slot)] == Entries(selected[other]);
    SlotKeyInjective(other, slot);
  }

  /** The weekly plan the web route builds for a goal and a restriction string. */
  function Plan(goal: string, restrictions: string): (plan: seq<Row>)
    ensures |plan| == 7 && forall i :: 0 <= i < 7 ==> plan[i].day == Days[i]
  {
    WeeklyPlan(AsDaily(Recommendations(goal, restrictions)), Some(restrictions))
  }

  lemma SelectedLists(goal: string, restrictions: string, slot: Slot)
    ensures DayList(AsDaily(Recommendations(goal, restrictions)), slot) == Entries(SlotSelection(goal, restrictions, slot))
  {
    RecommendationsAt(goal, restrictions, slot);
    DayListOfSelection(Recommendations(goal, restrictions), slot);
  }

  /** Unless all five tags are present, the selector serves nothing and every day of the plan is
      made of the classified diet's fallback meals, for 1360, 1430 or 1490 calories a day. */
  lemma PlanFallsBack(goal: string, restrictions: string)
    requires !AllActive(ParseRestrictions(restrictions))
    ensures var diet := ClassifyDiet(Some(restrictions));
      forall i, slot :: 0 <= i < 7 ==>
        ParseCell(CellOf(Plan(goal, restrictions)[i], slot)) == Some(Shown(DefaultFor(diet, slot).name, DefaultFor(diet, slot).calories))
    ensures forall i :: 0 <= i < 7 ==> Plan(goal, restrictions)[i].totalCalories == FallbackDayCalories(ClassifyDiet(Some(restrictions)))
  {
    var daily := AsDaily(Recommendations(goal, restrictions));
    var diet := ClassifyDiet(Some(restrictions));
    forall slot ensures DayList(daily, slot) == [] {
      SelectedLists(goal, restrictions, slot);
      EmptyUnlessAllActive(goal, restrictions, slot);
    }
    forall i | 0 <= i < 7 ensures Plan(goal, restrictions)[i] == PlanRow(daily, diet, i) {
    }
    forall i | 0 <= i < 7 ensures PlanRow(daily, diet, i).totalCalories == FallbackDayCalories(diet)
      && forall slot :: ParseCell(CellOf(PlanRow(daily, diet, i), slot)) == Some(Shown(DefaultFor(diet, slot).name, DefaultFor(diet, slot).calories)) {
      FallbackRow(daily, diet, i);
    }
  }

  /** A day that every slot's selected list covers shows the selected meals, and its total is
      their calories. */
  lemma SelectedRow(selected: map<Slot, seq<Meal>>, diet: Diet, i: nat)
    requires i < 7
    requires forall slot :: slot in selected && i < |selected[slot]|
    ensures forall slot :: ParseCell(CellOf(PlanRow(AsDaily(selected), diet, i), slot))
                           == Some(Shown(selected[slot][i].name, selected[slot][i].calories))
    ensures PlanRow(AsDaily(selected), diet, i).totalCalories
      == selected[Breakfast][i].calories + selected[Lunch][i].calories + selected[Snack][i].calories
         + selected[Dinner][i].calories
  {
    var daily := AsDaily(selected);
    forall slot ensures DayList(daily, slot) == Entries(selected[slot]) {
      DayListOfSelection(selected, slot);
    }
    forall slot ensures ParseCell(CellOf(PlanRow(daily, diet, i), slot))
                        == Some(Shown(selected[slot][i].name, selected[slot][i].calories)) {
      RowCell(daily, diet, i, slot);
    }
    assert |DayList(daily, Breakfast)| > i && |DayList(daily, Lunch)| > i;
    assert |DayList(daily, Snack)| > i && |DayList(daily, Dinner)| > i;
    SumUsedSlots(daily, diet, i);
  }

  /** With all five tags present, every slot of every day shows the meal the selector chose for
      that day, and the day's total is the calories of those four meals. */
  lemma PlanServesSelection(goal: string, restrictions: string, i: nat)
    requires AllActive(ParseRestrictions(restrictions)) && i < 7
    ensures forall slot :: |SlotSelection(goal, restrictions, slot)| == 7
    ensures forall slot ::
      ParseCell(CellOf(Plan(goal, restrictions)[i], slot)) == Some(Shown(SlotSelection(goal, restrictions, slot)[i].name, SlotSelection(goal, restrictions, slot)[i].calories))
    ensures Plan(goal, restrictions)[i].totalCalories
      == SlotSelection(goal, restrictions, Breakfast)[i].calories + SlotSelection(goal, restrictions, Lunch)[i].calories
         + SlotSelection(goal, restrictions, Snack)[i].calories + SlotSelection(goal, restrictions, Dinner)[i].calories
  {
    var selected := Recommendations(goal, restrictions);
    forall slot ensures slot in selected && selected[slot] == SlotSelection(goal, restrictions, slot)
      && |SlotSelection(goal, restrictions, slot)| == 7 {
      RecommendationsAt(goal, restrictions, slot);
      SelectionLength(goal, restrictions, slot);
    }
    SelectedRow(selected, ClassifyDiet(Some(restrictions)), i);
  }

  /** All five tags present include "Vegan", so the planner classifies the diet as vegan. */
  lemma AllActiveIsVegan(restrictions: string)
    requires AllActive(ParseRestrictions(restrictions))
    ensures ClassifyDiet(Some(restrictions)) == Vegan
  {
    VeganTagPresent(restrictions);
    VeganReadsVegan();
    ClassifyDietByMentions(Some(restrictions));
  }

  /** All five tags present means the piece "Vegan" is among the comma-separated pieces. */
  lemma VeganTagPresent(restrictions: string)
    requires AllActive(ParseRestrictions(restrictions))
    ensures "Vegan" in Split(restrictions, ',')
  {
    assert RestrictionTags[1] == "Vegan";
    assert RestrictionTags[1] in ParseRestrictions(restrictions);
  }

  /** Stripped and lower-cased, the piece "Vegan" reads "vegan". */
  lemma VeganReadsVegan()
    ensures Lower(Strip("Vegan")) == "vegan"
  {
    assert "Vegan"[0] == 'V' && "Vegan"[4] == 'n';
    StripUnpadded("Vegan");
    LowerVegan();
  }

  lemma LowerVegan()
    ensures Lower("Vegan") == "vegan"
  {
    var l := Lower("Vegan");
    assert l[0] == LowerChar('V') == 'v';
    assert l[1] == 'e' && l[2] == 'g' && l[3] == 'a' && l[4] == 'n';
  }

  /** Stripped and lower-cased, the piece " Vegan" reads "vegan". */
  lemma BlankVeganReadsVegan()
    ensures Lower(Strip(" Vegan")) == "vegan"
  {
    assert " Vegan"[1..] == "Vegan";
    StripLeadingSpace(" Vegan");
    VeganReadsVegan();
  }

  /** Both halves split "<first>, Vegan" at the comma into `first` and " Vegan". */
  lemma BlankVeganPieces(first: string)
    requires ',' !in first
    ensures ParseRestrictions(first + ", " + "Vegan") == [first, " Vegan"]
    ensures Split(first + ", " + "Vegan", ',') == [first, " Vegan"]
  {
    BlankAfterCommaKept(first, "Vegan");
    CommaBlankSplit(first, "Vegan");
    assert " " + "Vegan" == " Vegan";
  }

  /** The planner reads "<first>, Vegan" as a vegan diet, whatever `first` says. */
  lemma BlankVeganIsVegan(first: string)
    requires ',' !in first
    ensures ClassifyDiet(Some(first + ", " + "Vegan")) == Vegan
  {
    var r := first + ", " + "Vegan";
    BlankVeganPieces(first);
    BlankVeganReadsVegan();
    assert " Vegan" in Split(r, ',');
    ClassifyDietByMentions(Some(r));
  }

  /** A restriction string whose last tag follows a comma and a blank, as in "Gluten-Free, Vegan":
      the blank hides "Vegan" from the selector, which then serves nothing, while the planner
      strips the blank, reads a vegan diet and fills every day with the vegan fallbacks,
      1430 calories a day. */
  lemma BlankBeforeVegan(goal: string, first: string)
    requires ',' !in first
    ensures forall slot :: SlotSelection(goal, first + ", " + "Vegan", slot) == []
    ensures forall i :: 0 <= i < 7 ==> Plan(goal, first + ", " + "Vegan")[i].totalCalories == 1430
  {
    var r := first + ", " + "Vegan";
    BlankVeganPieces(first);
    TwoTagsNotAllActive(first, " Vegan");
    forall slot ensures SlotSelection(goal, r, slot) == [] {
      EmptyUnlessAllActive(goal, r, slot);
    }
    BlankVeganIsVegan(first);
    PlanFallsBack(goal, r);
  }
}

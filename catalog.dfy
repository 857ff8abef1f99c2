/** The static data of the recommendation engine: the four-slot meal catalog
    and the per-diet fallback meals of the weekly plan. */
module Catalog {
  import opened Text

  /** A candidate meal of the catalog (a `{"name", "calories", "protein"}` record). */
  datatype Meal = Meal(name: string, calories: int, protein: int)

  /** The four meal slots, the keys "breakfast", "lunch", "snack" and "dinner". */
  datatype Slot = Breakfast | Lunch | Snack | Dinner

  /** The slots in the order in which the engine's dictionaries list them. */
  const SlotOrder: seq<Slot> := [Breakfast, Lunch, Snack, Dinner]

  const AllSlots: set<Slot> := {Breakfast, Lunch, Snack, Dinner}

  /** The dictionary key of a slot. */
  function SlotKey(slot: Slot): string {
    match slot
    case Breakfast => "breakfast"
    case Lunch => "lunch"
    case Snack => "snack"
    case Dinner => "dinner"
  }

  /** The catalog entries of one slot, in catalog order. */
  function MealsFor(slot: Slot): (meals: seq<Meal>)
    ensures |meals| == 5
  {
    match slot
    case Breakfast => [
      Meal("Idli with Sambar & Coconut Chutney", 300, 10),
      Meal("Masala Dosa with Coconut Chutney", 420, 8),
      Meal("Pongal with Pepper & Ghee ", 380, 12),
      Meal("Ragi Malt  with Jaggery", 320, 6),
      Meal("Upma with Vegetables and Peanuts", 350, 10)]
    case Lunch => [
      Meal("Sambar Rice with Vegetables and Rasam", 600, 18),
      Meal("Curd Rice with Cucumber and lemon pickle", 520, 12),
      Meal("Millet Khichdi with Vegetables", 550, 16),
      Meal("Grilled Fish  with Steamed Rice", 560, 42),
      Meal("Egg Curry with Brown Rice", 580, 36)]
    case Snack => [
      Meal("Fresh Banana with Coconut Pieces", 120, 1),
      Meal("Tender Coconut Water and Flesh", 110, 2),
      Meal("Sprouted Moong Salad with Lemon", 160, 12),
      Meal("Roasted Chickpeas", 150, 8),
      Meal("Buttermilk  with Curry Leaves", 80, 3)]
    case Dinner => [
      Meal("Grilled Paneer Tikka with Mixed Vegetables", 480, 30),
      Meal("Fish Curry with Rice", 520, 40),
      Meal("Mixed Vegetable Pulav with Raita", 450, 12),
      Meal("Masoor Dal with Millet Rotis", 420, 22),
      Meal("Vegetable Kurma with Ragi Rotis", 400, 10)]
  }

  /** The diet classes of the weekly plan. */
  datatype Diet = Vegetarian | Vegan | NonVegetarian

  /** A fallback meal of the weekly plan (name and calories only). */
  datatype Fallback = Fallback(name: string, calories: int)

  /** The fallback meal of a slot for a diet. */
  function DefaultFor(diet: Diet, slot: Slot): Fallback {
    match diet
    case Vegetarian => (
      match slot
      case Breakfast => Fallback("Idli with Sambar", 300)
      case Lunch => Fallback("Millet Khichdi with Vegetables", 520)
      case Snack => Fallback("Fresh Fruit (Seasonal)", 120)
      case Dinner => Fallback("Masoor Dal with Millet Rotis", 420))
    case Vegan => (
      match slot
      case Breakfast => Fallback("Ragi Malt (Vegan)", 320)
      case Lunch => Fallback("Millet Khichdi (Vegan)", 550)
      case Snack => Fallback("Sprouted Moong Salad", 160)
      case Dinner => Fallback("Vegetable Kurma with Ragi Rotis", 400))
    case NonVegetarian => (
      match slot
      case Breakfast => Fallback("Idli with Sambar", 300)
      case Lunch => Fallback("Grilled Fish with Steamed Rice", 560)
      case Snack => Fallback("Tender Coconut Water and Flesh", 110)
      case Dinner => Fallback("Fish Curry with Rice", 520))
  }

  /** The calories of a whole day made of one diet's fallback meals. */
  function FallbackDayCalories(diet: Diet): (total: int)
    ensures total == (match diet case Vegetarian => 1360 case Vegan => 1430 case NonVegetarian => 1490)
  {
    DefaultFor(diet, Breakfast).calories + DefaultFor(diet, Lunch).calories
    + DefaultFor(diet, Snack).calories + DefaultFor(diet, Dinner).calories
  }

  // ---------------------------------------------------------------------
  // Facts about the catalog
  // ---------------------------------------------------------------------

  /** The five words the restriction filter looks for. */
  const ExclusionWords: seq<string> := ["Meat", "Animal", "Gluten", "Dairy", "Nut"]

  /** No word of the restriction filter occurs in `name` (case-sensitive). */
  predicate FreeOfExclusionWords(name: string) {
    forall w :: w in ExclusionWords ==> !Contains(name, w)
  }

  /** The names of the catalog never contain "Meat", "Animal", "Gluten", "Dairy" or "Nut"
      ("Coconut" and "Peanuts" contain only the lower-case "nut"). */
  lemma CatalogFreeOfExclusionWords(slot: Slot)
    ensures forall k :: 0 <= k < 5 ==> FreeOfExclusionWords(MealsFor(slot)[k].name)
  {
    match slot {
      case Breakfast => BreakfastNamesFree();
      case Lunch => LunchNamesFree();
      case Snack => SnackNamesFree();
      case Dinner => DinnerNamesFree();
    }
  }

  lemma BreakfastNamesFree()
    ensures forall k :: 0 <= k < 5 ==> FreeOfExclusionWords(MealsFor(Breakfast)[k].name)
  {
    Breakfast0Free(); Breakfast1Free(); Breakfast2Free(); Breakfast3Free(); Breakfast4Free();
  }

  lemma LunchNamesFree()
    ensures forall k :: 0 <= k < 5 ==> FreeOfExclusionWords(MealsFor(Lunch)[k].name)
  {
    Lunch0Free(); Lunch1Free(); Lunch2Free(); Lunch3Free(); Lunch4Free();
  }

  lemma SnackNamesFree()
    ensures forall k :: 0 <= k < 5 ==> FreeOfExclusionWords(MealsFor(Snack)[k].name)
  {
    Snack0Free(); Snack1Free(); Snack2Free(); Snack3Free(); Snack4Free();
  }

  lemma DinnerNamesFree()
    ensures forall k :: 0 <= k < 5 ==> FreeOfExclusionWords(MealsFor(Dinner)[k].name)
  {
    Dinner0Free(); Dinner1Free(); Dinner2Free(); Dinner3Free(); Dinner4Free();
  }

  // The names are checked piece by piece. Stating `Contains` on a whole name literal leaves
  // the solver to unfold every position of a long string at once and runs out of resource,
  // so each name is written as a concatenation of short pieces (`<Slot><k>Spelled`), each
  // piece is shown to be made of lower-case letters other than `missing`, blanks, '&' and the
  // capitals in `caps` (`<Slot><k>Pieces`), and the two are combined (`<Slot><k>Free`).

  predicate Plain(c: char, missing: char, caps: set<char>) {
    ('a' <= c <= 'z' && c != missing) || c == ' ' || c == '&' || c in caps
  }

  predicate Within(h: string, missing: char, caps: set<char>) {
    forall c :: c in h ==> Plain(c, missing, caps)
  }

  /** Letters that leave out 'A', 'N' and 'M', leave out 'u' when they admit 'G' and
      leave out 'r' or 'y' when they admit 'D'. */
  predicate Clean(missing: char, caps: set<char>) {
    'A' !in caps && 'N' !in caps && 'M' !in caps && missing !in caps
    && ('G' in caps ==> missing == 'u')
    && ('D' in caps ==> missing == 'r' || missing == 'y')
  }

  lemma WithinAppend(a: string, b: string, missing: char, caps: set<char>)
    requires Within(a, missing, caps) && Within(b, missing, caps)
    ensures Within(a + b, missing, caps)
  {
  }

  /** A name made of admissible letters plus 'M's, and without "Meat", is free of all five words. */
  lemma FreeOfWords(h: string, missing: char, caps: set<char>)
    requires Clean(missing, caps) && Within(h, missing, caps + {'M'}) && !Contains(h, "Meat")
    ensures FreeOfExclusionWords(h)
  {
    CharAbsent(h, "Animal", 0);
    CharAbsent(h, "Nut", 0);
    if 'G' in caps {
      CharAbsent(h, "Gluten", 2);
    } else {
      CharAbsent(h, "Gluten", 0);
    }
    if 'D' !in caps {
      CharAbsent(h, "Dairy", 0);
    } else if missing == 'r' {
      CharAbsent(h, "Dairy", 3);
    } else {
      CharAbsent(h, "Dairy", 4);
    }
  }

  /** A piece of admissible letters has no 'M', hence no "Meat". */
  lemma NoM(h: string, missing: char, caps: set<char>)
    requires Clean(missing, caps) && Within(h, missing, caps)
    ensures !Contains(h, "Meat") && Within(h, missing, caps + {'M'})
  {
    CharAbsent(h, "Meat", 0);
  }

  /** An 'M' followed by a letter other than 'e' or 'M', between a piece without 'M' and a
      piece without "Meat", starts no "Meat". */
  lemma NoMeatAcross(a: string, n: char, b: string, missing: char, caps: set<char>)
    requires Clean(missing, caps) && Within(a, missing, caps) && Plain(n, missing, caps) && n != 'e'
    requires Within(b, missing, caps + {'M'}) && !Contains(b, "Meat")
    ensures !Contains(a + ['M', n] + b, "Meat") && Within(a + ['M', n] + b, missing, caps + {'M'})
  {
    var h := a + ['M', n] + b;
    forall i | 0 <= i <= |h| - 4 ensures !OccursAt(h, "Meat", i) {
      assert h[i..i + 4][0] == h[i] && h[i..i + 4][1] == h[i + 1];
      if i < |a| {
        assert h[i] == a[i] && a[i] in a;
      } else if i == |a| {
        assert h[i + 1] == n;
      } else if i == |a| + 1 {
        assert h[i] == n;
      } else {
        assert h[i..i + 4] == b[i - |a| - 2..i - |a| + 2];
        assert !OccursAt(b, "Meat", i - |a| - 2);
      }
    }
  }

  lemma Breakfast0Pieces()
    ensures FreeOfExclusionWords("Idli with " + "Sambar & " + "Coconut Chutney")
  {
    WithinAppend("Idli with ", "Sambar & ", ' ', {'I', 'S', 'C'});
    WithinAppend("Idli with " + "Sambar & ", "Coconut Chutney", ' ', {'I', 'S', 'C'});
    NoM("Idli with " + "Sambar & " + "Coconut Chutney", ' ', {'I', 'S', 'C'});
    FreeOfWords("Idli with " + "Sambar & " + "Coconut Chutney", ' ', {'I', 'S', 'C'});
  }

  lemma Breakfast0Spelled()
    ensures "Idli with Sambar & Coconut Chutney" == "Idli with " + "Sambar & " + "Coconut Chutney"
  {
  }

  lemma Breakfast0Free()
    ensures FreeOfExclusionWords(MealsFor(Breakfast)[0].name)
  {
    Breakfast0Pieces();
    Breakfast0Spelled();
    assert MealsFor(Breakfast)[0].name == "Idli with Sambar & Coconut Chutney";
  }

  lemma Breakfast1Pieces()
    ensures FreeOfExclusionWords("" + ['M', 'a'] + ("sala Dosa " + "with Coconut " + "Chutney"))
  {
    WithinAppend("sala Dosa ", "with Coconut ", 'r', {'D', 'C'});
    WithinAppend("sala Dosa " + "with Coconut ", "Chutney", 'r', {'D', 'C'});
    NoM("sala Dosa " + "with Coconut " + "Chutney", 'r', {'D', 'C'});
    NoMeatAcross("", 'a', "sala Dosa " + "with Coconut " + "Chutney", 'r', {'D', 'C'});
    FreeOfWords("" + ['M', 'a'] + ("sala Dosa " + "with Coconut " + "Chutney"), 'r', {'D', 'C'});
  }

  lemma Breakfast1Spelled()
    ensures "Masala Dosa with Coconut Chutney" == "" + ['M', 'a'] + ("sala Dosa " + "with Coconut " + "Chutney")
  {
  }

  lemma Breakfast1Free()
    ensures FreeOfExclusionWords(MealsFor(Breakfast)[1].name)
  {
    Breakfast1Pieces();
    Breakfast1Spelled();
    assert MealsFor(Breakfast)[1].name == "Masala Dosa with Coconut Chutney";
  }

  lemma Breakfast2Pieces()
    ensures FreeOfExclusionWords("Pongal with " + "Pepper & Ghee ")
  {
    WithinAppend("Pongal with ", "Pepper & Ghee ", 'u', {'P', 'G'});
    NoM("Pongal with " + "Pepper & Ghee ", 'u', {'P', 'G'});
    FreeOfWords("Pongal with " + "Pepper & Ghee ", 'u', {'P', 'G'});
  }

  lemma Breakfast2Spelled()
    ensures "Pongal with Pepper & Ghee " == "Pongal with " + "Pepper & Ghee "
  {
  }

  lemma Breakfast2Free()
    ensures FreeOfExclusionWords(MealsFor(Breakfast)[2].name)
  {
    Breakfast2Pieces();
    Breakfast2Spelled();
    assert MealsFor(Breakfast)[2].name == "Pongal with Pepper & Ghee ";
  }

  lemma Breakfast3Pieces()
    ensures FreeOfExclusionWords("Ragi " + ['M', 'a'] + ("lt  with " + "Jaggery"))
  {
    WithinAppend("lt  with ", "Jaggery", ' ', {'R', 'J'});
    NoM("lt  with " + "Jaggery", ' ', {'R', 'J'});
    NoMeatAcross("Ragi ", 'a', "lt  with " + "Jaggery", ' ', {'R', 'J'});
    FreeOfWords("Ragi " + ['M', 'a'] + ("lt  with " + "Jaggery"), ' ', {'R', 'J'});
  }

  lemma Breakfast3Spelled()
    ensures "Ragi Malt  with Jaggery" == "Ragi " + ['M', 'a'] + ("lt  with " + "Jaggery")
  {
  }

  lemma Breakfast3Free()
    ensures FreeOfExclusionWords(MealsFor(Breakfast)[3].name)
  {
    Breakfast3Pieces();
    Breakfast3Spelled();
    assert MealsFor(Breakfast)[3].name == "Ragi Malt  with Jaggery";
  }

  lemma Breakfast4Pieces()
    ensures FreeOfExclusionWords("Upma with " + "Vegetables " + "and Peanuts")
  {
    WithinAppend("Upma with ", "Vegetables ", ' ', {'U', 'V', 'P'});
    WithinAppend("Upma with " + "Vegetables ", "and Peanuts", ' ', {'U', 'V', 'P'});
    NoM("Upma with " + "Vegetables " + "and Peanuts", ' ', {'U', 'V', 'P'});
    FreeOfWords("Upma with " + "Vegetables " + "and Peanuts", ' ', {'U', 'V', 'P'});
  }

  lemma Breakfast4Spelled()
    ensures "Upma with Vegetables and Peanuts" == "Upma with " + "Vegetables " + "and Peanuts"
  {
  }

  lemma Breakfast4Free()
    ensures FreeOfExclusionWords(MealsFor(Breakfast)[4].name)
  {
    Breakfast4Pieces();
    Breakfast4Spelled();
    assert MealsFor(Breakfast)[4].name == "Upma with Vegetables and Peanuts";
  }

  lemma Lunch0Pieces()
    ensures FreeOfExclusionWords("Sambar Rice " + "with Vegetables " + "and Rasam")
  {
    WithinAppend("Sambar Rice ", "with Vegetables ", ' ', {'S', 'R', 'V'});
    WithinAppend("Sambar Rice " + "with Vegetables ", "and Rasam", ' ', {'S', 'R', 'V'});
    NoM("Sambar Rice " + "with Vegetables " + "and Rasam", ' ', {'S', 'R', 'V'});
    FreeOfWords("Sambar Rice " + "with Vegetables " + "and Rasam", ' ', {'S', 'R', 'V'});
  }

  lemma Lunch0Spelled()
    ensures "Sambar Rice with Vegetables and Rasam" == "Sambar Rice " + "with Vegetables " + "and Rasam"
  {
  }

  lemma Lunch0Free()
    ensures FreeOfExclusionWords(MealsFor(Lunch)[0].name)
  {
    Lunch0Pieces();
    Lunch0Spelled();
    assert MealsFor(Lunch)[0].name == "Sambar Rice with Vegetables and Rasam";
  }

  lemma Lunch1Pieces()
    ensures FreeOfExclusionWords("Curd Rice " + "with Cucumber " + "and lemon pickle")
  {
    WithinAppend("Curd Rice ", "with Cucumber ", ' ', {'C', 'R'});
    WithinAppend("Curd Rice " + "with Cucumber ", "and lemon pickle", ' ', {'C', 'R'});
    NoM("Curd Rice " + "with Cucumber " + "and lemon pickle", ' ', {'C', 'R'});
    FreeOfWords("Curd Rice " + "with Cucumber " + "and lemon pickle", ' ', {'C', 'R'});
  }

  lemma Lunch1Spelled()
    ensures "Curd Rice with Cucumber and lemon pickle" == "Curd Rice " + "with Cucumber " + "and lemon pickle"
  {
  }

  lemma Lunch1Free()
    ensures FreeOfExclusionWords(MealsFor(Lunch)[1].name)
  {
    Lunch1Pieces();
    Lunch1Spelled();
    assert MealsFor(Lunch)[1].name == "Curd Rice with Cucumber and lemon pickle";
  }

  lemma Lunch2Pieces()
    ensures FreeOfExclusionWords("" + ['M', 'i'] + ("llet Khichdi " + "with Vegetables"))
  {
    WithinAppend("llet Khichdi ", "with Vegetables", ' ', {'K', 'V'});
    NoM("llet Khichdi " + "with Vegetables", ' ', {'K', 'V'});
    NoMeatAcross("", 'i', "llet Khichdi " + "with Vegetables", ' ', {'K', 'V'});
    FreeOfWords("" + ['M', 'i'] + ("llet Khichdi " + "with Vegetables"), ' ', {'K', 'V'});
  }

  lemma Lunch2Spelled()
    ensures "Millet Khichdi with Vegetables" == "" + ['M', 'i'] + ("llet Khichdi " + "with Vegetables")
  {
  }

  lemma Lunch2Free()
    ensures FreeOfExclusionWords(MealsFor(Lunch)[2].name)
  {
    Lunch2Pieces();
    Lunch2Spelled();
    assert MealsFor(Lunch)[2].name == "Millet Khichdi with Vegetables";
  }

  lemma Lunch3Pieces()
    ensures FreeOfExclusionWords("Grilled Fish  " + "with Steamed Rice")
  {
    WithinAppend("Grilled Fish  ", "with Steamed Rice", 'u', {'G', 'F', 'S', 'R'});
    NoM("Grilled Fish  " + "with Steamed Rice", 'u', {'G', 'F', 'S', 'R'});
    FreeOfWords("Grilled Fish  " + "with Steamed Rice", 'u', {'G', 'F', 'S', 'R'});
  }

  lemma Lunch3Spelled()
    ensures "Grilled Fish  with Steamed Rice" == "Grilled Fish  " + "with Steamed Rice"
  {
  }

  lemma Lunch3Free()
    ensures FreeOfExclusionWords(MealsFor(Lunch)[3].name)
  {
    Lunch3Pieces();
    Lunch3Spelled();
    assert MealsFor(Lunch)[3].name == "Grilled Fish  with Steamed Rice";
  }

  lemma Lunch4Pieces()
    ensures FreeOfExclusionWords("Egg Curry " + "with Brown Rice")
  {
    WithinAppend("Egg Curry ", "with Brown Rice", ' ', {'E', 'C', 'B', 'R'});
    NoM("Egg Curry " + "with Brown Rice", ' ', {'E', 'C', 'B', 'R'});
    FreeOfWords("Egg Curry " + "with Brown Rice", ' ', {'E', 'C', 'B', 'R'});
  }

  lemma Lunch4Spelled()
    ensures "Egg Curry with Brown Rice" == "Egg Curry " + "with Brown Rice"
  {
  }

  lemma Lunch4Free()
    ensures FreeOfExclusionWords(MealsFor(Lunch)[4].name)
  {
    Lunch4Pieces();
    Lunch4Spelled();
    assert MealsFor(Lunch)[4].name == "Egg Curry with Brown Rice";
  }

  lemma Snack0Pieces()
    ensures FreeOfExclusionWords("Fresh Banana " + "with Coconut " + "Pieces")
  {
    WithinAppend("Fresh Banana ", "with Coconut ", ' ', {'F', 'B', 'C', 'P'});
    WithinAppend("Fresh Banana " + "with Coconut ", "Pieces", ' ', {'F', 'B', 'C', 'P'});
    NoM("Fresh Banana " + "with Coconut " + "Pieces", ' ', {'F', 'B', 'C', 'P'});
    FreeOfWords("Fresh Banana " + "with Coconut " + "Pieces", ' ', {'F', 'B', 'C', 'P'});
  }

  lemma Snack0Spelled()
    ensures "Fresh Banana with Coconut Pieces" == "Fresh Banana " + "with Coconut " + "Pieces"
  {
  }

  lemma Snack0Free()
    ensures FreeOfExclusionWords(MealsFor(Snack)[0].name)
  {
    Snack0Pieces();
    Snack0Spelled();
    assert MealsFor(Snack)[0].name == "Fresh Banana with Coconut Pieces";
  }

  lemma Snack1Pieces()
    ensures FreeOfExclusionWords("Tender Coconut " + "Water and Flesh")
  {
    WithinAppend("Tender Coconut ", "Water and Flesh", ' ', {'T', 'C', 'W', 'F'});
    NoM("Tender Coconut " + "Water and Flesh", ' ', {'T', 'C', 'W', 'F'});
    FreeOfWords("Tender Coconut " + "Water and Flesh", ' ', {'T', 'C', 'W', 'F'});
  }

  lemma Snack1Spelled()
    ensures "Tender Coconut Water and Flesh" == "Tender Coconut " + "Water and Flesh"
  {
  }

  lemma Snack1Free()
    ensures FreeOfExclusionWords(MealsFor(Snack)[1].name)
  {
    Snack1Pieces();
    Snack1Spelled();
    assert MealsFor(Snack)[1].name == "Tender Coconut Water and Flesh";
  }

  lemma Snack2Pieces()
    ensures FreeOfExclusionWords("Sprouted " + ['M', 'o'] + ("ong Salad " + "with Lemon"))
  {
    WithinAppend("ong Salad ", "with Lemon", ' ', {'S', 'L'});
    NoM("ong Salad " + "with Lemon", ' ', {'S', 'L'});
    NoMeatAcross("Sprouted ", 'o', "ong Salad " + "with Lemon", ' ', {'S', 'L'});
    FreeOfWords("Sprouted " + ['M', 'o'] + ("ong Salad " + "with Lemon"), ' ', {'S', 'L'});
  }

  lemma Snack2Spelled()
    ensures "Sprouted Moong Salad with Lemon" == "Sprouted " + ['M', 'o'] + ("ong Salad " + "with Lemon")
  {
  }

  lemma Snack2Free()
    ensures FreeOfExclusionWords(MealsFor(Snack)[2].name)
  {
    Snack2Pieces();
    Snack2Spelled();
    assert MealsFor(Snack)[2].name == "Sprouted Moong Salad with Lemon";
  }

  lemma Snack3Pieces()
    ensures FreeOfExclusionWords("Roasted " + "Chickpeas")
  {
    WithinAppend("Roasted ", "Chickpeas", ' ', {'R', 'C'});
    NoM("Roasted " + "Chickpeas", ' ', {'R', 'C'});
    FreeOfWords("Roasted " + "Chickpeas", ' ', {'R', 'C'});
  }

  lemma Snack3Spelled()
    ensures "Roasted Chickpeas" == "Roasted " + "Chickpeas"
  {
  }

  lemma Snack3Free()
    ensures FreeOfExclusionWords(MealsFor(Snack)[3].name)
  {
    Snack3Pieces();
    Snack3Spelled();
    assert MealsFor(Snack)[3].name == "Roasted Chickpeas";
  }

  lemma Snack4Pieces()
    ensures FreeOfExclusionWords("Buttermilk  " + "with Curry Leaves")
  {
    WithinAppend("Buttermilk  ", "with Curry Leaves", ' ', {'B', 'C', 'L'});
    NoM("Buttermilk  " + "with Curry Leaves", ' ', {'B', 'C', 'L'});
    FreeOfWords("Buttermilk  " + "with Curry Leaves", ' ', {'B', 'C', 'L'});
  }

  lemma Snack4Spelled()
    ensures "Buttermilk  with Curry Leaves" == "Buttermilk  " + "with Curry Leaves"
  {
  }

  lemma Snack4Free()
    ensures FreeOfExclusionWords(MealsFor(Snack)[4].name)
  {
    Snack4Pieces();
    Snack4Spelled();
    assert MealsFor(Snack)[4].name == "Buttermilk  with Curry Leaves";
  }

  lemma Dinner0Pieces()
    ensures FreeOfExclusionWords(("Grilled Paneer " + "Tikka with ") + ['M', 'i'] + ("xed " + "Vegetables"))
  {
    WithinAppend("Grilled Paneer ", "Tikka with ", 'u', {'G', 'P', 'T', 'V'});
    WithinAppend("xed ", "Vegetables", 'u', {'G', 'P', 'T', 'V'});
    NoM("xed " + "Vegetables", 'u', {'G', 'P', 'T', 'V'});
    NoMeatAcross("Grilled Paneer " + "Tikka with ", 'i', "xed " + "Vegetables", 'u', {'G', 'P', 'T', 'V'});
    FreeOfWords(("Grilled Paneer " + "Tikka with ") + ['M', 'i'] + ("xed " + "Vegetables"), 'u', {'G', 'P', 'T', 'V'});
  }

  lemma Dinner0Spelled()
    ensures "Grilled Paneer Tikka with Mixed Vegetables" == ("Grilled Paneer " + "Tikka with ") + ['M', 'i'] + ("xed " + "Vegetables")
  {
  }

  lemma Dinner0Free()
    ensures FreeOfExclusionWords(MealsFor(Dinner)[0].name)
  {
    Dinner0Pieces();
    Dinner0Spelled();
    assert MealsFor(Dinner)[0].name == "Grilled Paneer Tikka with Mixed Vegetables";
  }

  lemma Dinner1Pieces()
    ensures FreeOfExclusionWords("Fish Curry " + "with Rice")
  {
    WithinAppend("Fish Curry ", "with Rice", ' ', {'F', 'C', 'R'});
    NoM("Fish Curry " + "with Rice", ' ', {'F', 'C', 'R'});
    FreeOfWords("Fish Curry " + "with Rice", ' ', {'F', 'C', 'R'});
  }

  lemma Dinner1Spelled()
    ensures "Fish Curry with Rice" == "Fish Curry " + "with Rice"
  {
  }

  lemma Dinner1Free()
    ensures FreeOfExclusionWords(MealsFor(Dinner)[1].name)
  {
    Dinner1Pieces();
    Dinner1Spelled();
    assert MealsFor(Dinner)[1].name == "Fish Curry with Rice";
  }

  lemma Dinner2Pieces()
    ensures FreeOfExclusionWords("" + ['M', 'i'] + ("xed Vegetable " + "Pulav with Raita"))
  {
    WithinAppend("xed Vegetable ", "Pulav with Raita", ' ', {'V', 'P', 'R'});
    NoM("xed Vegetable " + "Pulav with Raita", ' ', {'V', 'P', 'R'});
    NoMeatAcross("", 'i', "xed Vegetable " + "Pulav with Raita", ' ', {'V', 'P', 'R'});
    FreeOfWords("" + ['M', 'i'] + ("xed Vegetable " + "Pulav with Raita"), ' ', {'V', 'P', 'R'});
  }

  lemma Dinner2Spelled()
    ensures "Mixed Vegetable Pulav with Raita" == "" + ['M', 'i'] + ("xed Vegetable " + "Pulav with Raita")
  {
  }

  lemma Dinner2Free()
    ensures FreeOfExclusionWords(MealsFor(Dinner)[2].name)
  {
    Dinner2Pieces();
    Dinner2Spelled();
    assert MealsFor(Dinner)[2].name == "Mixed Vegetable Pulav with Raita";
  }

  lemma Dinner3Pieces()
    ensures FreeOfExclusionWords("" + ['M', 'a'] + ("soor Dal with " + ['M', 'i'] + "llet Rotis"))
  {
    NoM("llet Rotis", 'y', {'D', 'R'});
    NoMeatAcross("soor Dal with ", 'i', "llet Rotis", 'y', {'D', 'R'});
    NoMeatAcross("", 'a', ("soor Dal with " + ['M', 'i'] + "llet Rotis"), 'y', {'D', 'R'});
    FreeOfWords("" + ['M', 'a'] + ("soor Dal with " + ['M', 'i'] + "llet Rotis"), 'y', {'D', 'R'});
  }

  lemma Dinner3Spelled()
    ensures "Masoor Dal with Millet Rotis" == "" + ['M', 'a'] + ("soor Dal with " + ['M', 'i'] + "llet Rotis")
  {
  }

  lemma Dinner3Free()
    ensures FreeOfExclusionWords(MealsFor(Dinner)[3].name)
  {
    Dinner3Pieces();
    Dinner3Spelled();
    assert MealsFor(Dinner)[3].name == "Masoor Dal with Millet Rotis";
  }

  lemma Dinner4Pieces()
    ensures FreeOfExclusionWords("Vegetable Kurma " + "with Ragi Rotis")
  {
    WithinAppend("Vegetable Kurma ", "with Ragi Rotis", ' ', {'V', 'K', 'R'});
    NoM("Vegetable Kurma " + "with Ragi Rotis", ' ', {'V', 'K', 'R'});
    FreeOfWords("Vegetable Kurma " + "with Ragi Rotis", ' ', {'V', 'K', 'R'});
  }

  lemma Dinner4Spelled()
    ensures "Vegetable Kurma with Ragi Rotis" == "Vegetable Kurma " + "with Ragi Rotis"
  {
  }

  lemma Dinner4Free()
    ensures FreeOfExclusionWords(MealsFor(Dinner)[4].name)
  {
    Dinner4Pieces();
    Dinner4Spelled();
    assert MealsFor(Dinner)[4].name == "Vegetable Kurma with Ragi Rotis";
  }
}

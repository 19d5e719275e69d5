/**
 * Energy from macronutrients and PHP's `round($x, 2)`, over the reals.
 * Gram values are `real`; floating-point error is not modelled.
 */
module Nutrition {

  /** `calculateKcal`: the Atwater factors, 4 kcal per gram of protein and carbohydrate, 9 per gram of fat. */
  function Kcal(protein: real, carbs: real, fat: real): (r: real)
    ensures protein >= 0.0 && carbs >= 0.0 && fat >= 0.0 ==>
              4.0 * (protein + carbs + fat) <= r <= 9.0 * (protein + carbs + fat)
  {
    (protein * 4.0) + (carbs * 4.0) + (fat * 9.0)
  }

  /** Energy is linear in the macros: the kcal of summed macros is the sum of the kcals. */
  lemma KcalAdditive(p1: real, c1: real, f1: real, p2: real, c2: real, f2: real)
    ensures Kcal(p1 + p2, c1 + c2, f1 + f2) == Kcal(p1, c1, f1) + Kcal(p2, c2, f2)
  {
  }

  /** The catalogue's seed meals: Oatmeal (10, 50, 5) is 285 kcal and Chicken Salad (30, 15, 18) is 342 kcal. */
  lemma SeedMealsKcal()
    ensures Kcal(10.0, 50.0, 5.0) == 285.0
    ensures Kcal(30.0, 15.0, 18.0) == 342.0
  {
  }

  /** A whole number of hundredths: the values `round($x, 2)` produces. */
  predicate IsCents(x: real) {
    (x * 100.0).Floor as real == x * 100.0
  }

  /** `round($x, 2)`: to the nearest hundredth, halves away from zero. */
  function Round2(x: real): (r: real)
    ensures IsCents(r)
    ensures x - 0.005 <= r <= x + 0.005
    ensures x >= 0.0 ==> x - 0.005 < r
    ensures x < 0.0 ==> r < x + 0.005
    ensures x >= 0.0 ==> r >= 0.0
    ensures x <= 0.0 ==> r <= 0.0
    ensures IsCents(x) ==> r == x
  {
    if x >= 0.0 then RoundUp(x)
    else
      var u := RoundUp(-x);
      CentsNeg(u);
      if IsCents(x) then CentsNeg(x); -u else -u
  }

  // The non-negative half of Round2.
  function RoundUp(x: real): (r: real)
    requires x >= 0.0
    ensures IsCents(r) && r >= 0.0
    ensures x - 0.005 < r <= x + 0.005
    ensures IsCents(x) ==> r == x
  {
    var n := (x * 100.0 + 0.5).Floor;
    RoundUpFacts(x, n);
    n as real / 100.0
  }

  lemma RoundUpFacts(x: real, n: int)
    requires x >= 0.0 && n == (x * 100.0 + 0.5).Floor
    ensures var r := n as real / 100.0;
      IsCents(r) && r >= 0.0 && x - 0.005 < r <= x + 0.005 && (IsCents(x) ==> r == x)
  {
    var y := x * 100.0 + 0.5;
    assert n as real <= y < n as real + 1.0;
    var r := n as real / 100.0;
    assert r * 100.0 == n as real;
    assert (n as real).Floor == n;
    assert IsCents(r);
    if IsCents(x) {
      var m := (x * 100.0).Floor;
      assert m as real == x * 100.0;
      assert m as real <= y < m as real + 1.0;
      assert n == m;
    }
  }

  /** Hundredths are closed under negation. */
  lemma CentsNeg(x: real)
    requires IsCents(x)
    ensures IsCents(-x)
  {
    var m := (x * 100.0).Floor;
    assert m as real == x * 100.0;
    var y := (-x) * 100.0;
    assert y == (-m) as real;
    assert y.Floor == -m;
  }

  /** Hundredths are closed under addition, so a sum of rounded values needs no further rounding. */
  lemma CentsAdd(a: real, b: real)
    requires IsCents(a) && IsCents(b)
    ensures IsCents(a + b)
  {
    var m := (a * 100.0).Floor;
    var n := (b * 100.0).Floor;
    assert (a + b) * 100.0 == (m + n) as real;
  }

  /** Zero is a whole number of hundredths. */
  lemma CentsZero()
    ensures IsCents(0.0) && Round2(0.0) == 0.0
  {
    assert (0.0 * 100.0).Floor == 0;
  }

  /** Energy and macro totals of a day, a week or a single entry. */
  datatype Totals = Totals(kcal: real, protein: real, carbs: real, fat: real)

  const Zero := Totals(0.0, 0.0, 0.0, 0.0)

  /** Field-wise `+=`. */
  function Plus(a: Totals, b: Totals): Totals {
    Totals(a.kcal + b.kcal, a.protein + b.protein, a.carbs + b.carbs, a.fat + b.fat)
  }

  /** Each field rounded with `round(..., 2)`. */
  function RoundTotals(t: Totals): (r: Totals)
    ensures AllCents(r)
    ensures AllCents(t) ==> r == t
  {
    Totals(Round2(t.kcal), Round2(t.protein), Round2(t.carbs), Round2(t.fat))
  }

  /** Each field divided by a positive count. */
  function DivideBy(t: Totals, n: nat): Totals
    requires n > 0
  {
    Totals(t.kcal / n as real, t.protein / n as real, t.carbs / n as real, t.fat / n as real)
  }

  predicate AllCents(t: Totals) {
    IsCents(t.kcal) && IsCents(t.protein) && IsCents(t.carbs) && IsCents(t.fat)
  }

  /** Adding two rounded totals gives a rounded total. */
  lemma AllCentsPlus(a: Totals, b: Totals)
    requires AllCents(a) && AllCents(b)
    ensures AllCents(Plus(a, b))
  {
    CentsAdd(a.kcal, b.kcal);
    CentsAdd(a.protein, b.protein);
    CentsAdd(a.carbs, b.carbs);
    CentsAdd(a.fat, b.fat);
  }

  lemma AllCentsZero()
    ensures AllCents(Zero) && RoundTotals(Zero) == Zero
  {
    CentsZero();
  }
}

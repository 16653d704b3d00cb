/** Macro targets from a calorie total, and the score of a meal against them. */
module Nutrition {
  import opened Foods

  /** Kilocalories per gram of protein, carbohydrate and fat. */
  const ProteinKcalPerGram: real := 4.0
  const CarbsKcalPerGram: real := 4.0
  const FatKcalPerGram: real := 9.0

  /** Daily gram targets. */
  datatype Macros = Macros(proteinG: real, carbsG: real, fatG: real)

  /** `macro_targets`: grams of each macro whose energy is its share of `totalKcal`. */
  function MacroTargets(totalKcal: real, proteinPct: real, carbsPct: real, fatPct: real): (m: Macros)
    ensures m.proteinG * ProteinKcalPerGram == totalKcal * proteinPct
    ensures m.carbsG * CarbsKcalPerGram == totalKcal * carbsPct
    ensures m.fatG * FatKcalPerGram == totalKcal * fatPct
    ensures m.proteinG * 4.0 + m.carbsG * 4.0 + m.fatG * 9.0 == totalKcal * (proteinPct + carbsPct + fatPct)
  {
    var proteinKcal := totalKcal * proteinPct;
    var carbsKcal := totalKcal * carbsPct;
    var fatKcal := totalKcal * fatPct;
    Macros(proteinKcal / ProteinKcalPerGram, carbsKcal / CarbsKcalPerGram, fatKcal / FatKcalPerGram)
  }

  /** With a split that adds up to one, the targets carry exactly the calorie total. */
  lemma MacrosCarryTotal(totalKcal: real, proteinPct: real, carbsPct: real, fatPct: real)
    requires proteinPct + carbsPct + fatPct == 1.0
    ensures var m := MacroTargets(totalKcal, proteinPct, carbsPct, fatPct);
      m.proteinG * 4.0 + m.carbsG * 4.0 + m.fatG * 9.0 == totalKcal
  {
  }

  /** Non-negative calories and shares give non-negative gram targets. */
  lemma MacrosNonNegative(totalKcal: real, proteinPct: real, carbsPct: real, fatPct: real)
    requires totalKcal >= 0.0 && proteinPct >= 0.0 && carbsPct >= 0.0 && fatPct >= 0.0
    ensures var m := MacroTargets(totalKcal, proteinPct, carbsPct, fatPct);
      m.proteinG >= 0.0 && m.carbsG >= 0.0 && m.fatG >= 0.0
  {
  }

  /** 2000 kcal split 30/40/30 gives 150 g protein, 200 g carbs and 66.7 g fat. */
  lemma MacroTargetsExample()
    ensures MacroTargets(2000.0, 0.30, 0.40, 0.30) == Macros(150.0, 200.0, 600.0 / 9.0)
  {
  }

  /** The targets dictionary the composer scores against: daily macros, the
      calorie target of one meal, and the number of meals a day. */
  datatype Targets = Targets(macros: Macros, kcalMeal: real, meals: nat)

  /** Summed kcal, protein, carbs and fat. */
  datatype Nutrients = Nutrients(kcal: real, protein: real, carbs: real, fat: real)

  function Add(a: Nutrients, b: Nutrients): Nutrients
  {
    Nutrients(a.kcal + b.kcal, a.protein + b.protein, a.carbs + b.carbs, a.fat + b.fat)
  }

  function Of(x: Food): Nutrients
  {
    Nutrients(x.kcal, x.protein, x.carbs, x.fat)
  }

  /** The four sums over a meal's items. */
  function Totals(meal: seq<Food>): Nutrients
  {
    if meal == [] then Nutrients(0.0, 0.0, 0.0, 0.0) else Add(Of(meal[0]), Totals(meal[1..]))
  }

  /** What one meal should carry: the meal calorie target and each daily macro
      divided by the number of meals. */
  function PerMeal(tg: Targets): Nutrients
    requires tg.meals > 0
  {
    var n := tg.meals as real;
    Nutrients(tg.kcalMeal, tg.macros.proteinG / n, tg.macros.carbsG / n, tg.macros.fatG / n)
  }

  function Abs(x: real): real
  {
    if x < 0.0 then -x else x
  }

  /** `score_meal`: a weighted L1 distance between the meal's sums and the per-meal
      targets, protein and fat counting double. It is never negative and is zero
      exactly when the meal hits all four targets. */
  function Score(meal: seq<Food>, tg: Targets): (r: real)
    requires tg.meals > 0
    ensures r >= 0.0
    ensures r == 0.0 <==> Totals(meal) == PerMeal(tg)
  {
    var sums := Totals(meal);
    var want := PerMeal(tg);
    var kcalDiff := Abs(sums.kcal - want.kcal);
    var pDiff := Abs(sums.protein - want.protein);
    var cDiff := Abs(sums.carbs - want.carbs);
    var fDiff := Abs(sums.fat - want.fat);
    kcalDiff + pDiff * 2.0 + cDiff + fDiff * 2.0
  }

  lemma {:induction false} TotalsConcat(a: seq<Food>, b: seq<Food>)
    ensures Totals(a + b) == Add(Totals(a), Totals(b))
    decreases |a|
  {
    if a == [] {
      assert a + b == b;
    } else {
      TotalsConcat(a[1..], b);
      assert (a + b)[1..] == a[1..] + b;
    }
  }

  /** Taking one item out of a meal subtracts exactly its nutrients. */
  lemma {:induction false} TotalsRemove(b: seq<Food>, i: nat)
    requires i < |b|
    ensures Totals(b) == Add(Of(b[i]), Totals(b[..i] + b[i + 1..]))
  {
    var front, back := b[..i], b[i + 1..];
    var tail := [b[i]] + back;
    assert b == front + tail;
    TotalsConcat(front, tail);
    TotalsConcat(front, back);
    assert tail[1..] == back;
    assert Totals(tail) == Add(Of(b[i]), Totals(back));
  }

  lemma {:induction false} MultisetRemove(b: seq<Food>, i: nat)
    requires i < |b|
    ensures multiset(b[..i] + b[i + 1..]) == multiset(b) - multiset{b[i]}
  {
    assert b == b[..i] + [b[i]] + b[i + 1..];
  }

  /** The sums do not depend on the order of the items. */
  lemma {:induction false} TotalsPermutation(a: seq<Food>, b: seq<Food>)
    requires multiset(a) == multiset(b)
    ensures Totals(a) == Totals(b)
    decreases |a|
  {
    if a == [] {
      assert |b| == |multiset(b)| == 0;
    } else {
      var x := a[0];
      assert x in multiset(b);
      var i :| 0 <= i < |b| && b[i] == x;
      var rest := b[..i] + b[i + 1..];
      MultisetRemove(b, i);
      assert a == [x] + a[1..];
      assert multiset(a[1..]) == multiset(a) - multiset{x};
      TotalsPermutation(a[1..], rest);
      TotalsRemove(b, i);
    }
  }

  /** Reordering a meal's items leaves its score unchanged. */
  lemma ScorePermutation(a: seq<Food>, b: seq<Food>, tg: Targets)
    requires tg.meals > 0
    requires multiset(a) == multiset(b)
    ensures Score(a, tg) == Score(b, tg)
  {
    TotalsPermutation(a, b);
  }
}

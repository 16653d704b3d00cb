/** `build_day`: a randomized multi-restart search for a day of meals. Every
    random draw is an input, so the search is a deterministic loop. */
module Composer {
  import opened Results
  import opened Seqs
  import opened Foods
  import opened Nutrition

  /** Number of restarts of the day search. */
  const Trials: nat := 500

  /** Initial best score: a day is kept only if it scores strictly below it. */
  const ScoreCap: real := 1000000000.0

  /** The meals of one day; each meal is the list of its items. */
  type Day = seq<seq<Food>>

  /** The random draws one meal consumes:
      - `kRaw`: `int(random.gauss(2.5, 0.6))`, before clamping;
      - `readmit(i)`: whether `random.random() < 0.4` lets the `i`-th food back in
        although its name was used earlier that day;
      - `pick(j)`: the `j`-th draw of `random.sample`, reduced modulo the number of
        positions not drawn yet;
      - `addBonus`: whether `random.random() < 0.35` adds a bonus item;
      - `bonusPick`: the draw of `random.choice` for it, reduced modulo the number
        of candidates. */
  datatype MealDraw = MealDraw(kRaw: int, readmit: nat -> bool, pick: nat -> nat, addBonus: bool, bonusPick: nat)

  /** `min(max_items_per_meal, max(2, kRaw))`. */
  function ClampK(kRaw: int, maxItems: int): (k: int)
    ensures k <= maxItems
    ensures k >= 2 || k == maxItems
    ensures 2 <= kRaw <= maxItems ==> k == kRaw
    ensures kRaw >= maxItems ==> k == maxItems
    ensures kRaw <= 2 ==> k == (if maxItems < 2 then maxItems else 2)
  {
    var atLeastTwo := if kRaw < 2 then 2 else kRaw;
    if maxItems < atLeastTwo then maxItems else atLeastTwo
  }

  /** The candidate list of one meal: the foods whose name was not used earlier
      that day, and those the draw readmits, in catalog order. */
  function Candidates(foods: seq<Food>, used: set<string>, readmit: nat -> bool): (r: seq<Food>)
    ensures IsSubseq(r, foods)
    ensures |r| <= |foods|
    ensures forall i :: 0 <= i < |foods| && (foods[i].name !in used || readmit(i)) ==> foods[i] in r
    ensures forall x :: x in r ==> Admitted(foods, used, readmit, x)
    decreases |foods|
  {
    if foods == [] then []
    else
      var later := (j: nat) => readmit(j + 1);
      var rest := Candidates(foods[1..], used, later);
      assert forall i :: 1 <= i < |foods| ==> foods[i] == foods[1..][i - 1] && readmit(i) == later(i - 1);
      AdmittedShift(foods, used, readmit, rest);
      if foods[0].name !in used || readmit(0) then
        assert ([foods[0]] + rest)[1..] == rest;
        assert Admitted(foods, used, readmit, foods[0]) by {
          assert foods[0] == foods[0] && (foods[0].name !in used || readmit(0));
        }
        [foods[0]] + rest
      else rest
  }

  /** Food `x` sits at some position of `foods` where its name is unused or the
      readmission draw succeeds. */
  ghost predicate Admitted(foods: seq<Food>, used: set<string>, readmit: nat -> bool, x: Food)
  {
    exists i :: 0 <= i < |foods| && foods[i] == x && (x.name !in used || readmit(i))
  }

  /** Admission among the later foods, with the draws shifted by one, is
      admission among all the foods. */
  lemma AdmittedShift(foods: seq<Food>, used: set<string>, readmit: nat -> bool, rest: seq<Food>)
    requires foods != []
    requires forall x :: x in rest ==> Admitted(foods[1..], used, (j: nat) => readmit(j + 1), x)
    ensures forall x :: x in rest ==> Admitted(foods, used, readmit, x)
  {
    var later := (j: nat) => readmit(j + 1);
    forall x | x in rest ensures Admitted(foods, used, readmit, x) {
      var i :| 0 <= i < |foods[1..]| && foods[1..][i] == x && (x.name !in used || later(i));
      assert foods[i + 1] == x && (x.name !in used || readmit(i + 1));
    }
  }

  /** A candidate list is soft only through the readmission draws: without them
      it holds no food whose name was used earlier that day. */
  lemma {:induction false} CandidatesAvoidUsed(foods: seq<Food>, used: set<string>, readmit: nat -> bool)
    requires forall i :: 0 <= i < |foods| ==> !readmit(i)
    ensures forall x :: x in Candidates(foods, used, readmit) ==> x.name !in used
    decreases |foods|
  {
    if foods != [] {
      var later := (j: nat) => readmit(j + 1);
      assert forall i :: 0 <= i < |foods| - 1 ==> !later(i) by {
        forall i | 0 <= i < |foods| - 1 ensures !later(i) { assert !readmit(i + 1); }
      }
      CandidatesAvoidUsed(foods[1..], used, later);
    }
  }

  /** `k` draws without replacement from `remaining`: the `j`-th draw takes the
      item at position `pick(j) % |remaining|` among those left. */
  function DrawWithoutReplacement(remaining: seq<Food>, k: nat, pick: nat -> nat, j: nat): (r: seq<Food>)
    requires k <= |remaining|
    ensures |r| == k
    ensures multiset(r) <= multiset(remaining)
    decreases k
  {
    if k == 0 then []
    else
      var p := pick(j) % |remaining|;
      var left := remaining[..p] + remaining[p + 1..];
      MultisetRemove(remaining, p);
      var rest := DrawWithoutReplacement(left, k - 1, pick, j + 1);
      [remaining[p]] + rest
  }

  /** `random.sample(cands, k)`: `k` items drawn without replacement, so no item
      is taken more often than `cands` holds it. */
  function Sample(cands: seq<Food>, k: nat, pick: nat -> nat): (r: seq<Food>)
    requires k <= |cands|
    ensures |r| == k
    ensures multiset(r) <= multiset(cands)
    ensures forall x :: x in r ==> x in cands
    ensures Distinct(cands) ==> Distinct(r)
  {
    var r := DrawWithoutReplacement(cands, k, pick, 0);
    assert forall x :: x in r ==> x in cands by {
      forall x | x in r ensures x in cands {
        assert x in multiset(r);
      }
    }
    assert Distinct(cands) ==> Distinct(r) by {
      if Distinct(cands) {
        SubMultisetDistinct(r, cands);
      }
    }
    r
  }

  /** A meal of `k` sampled items, perhaps followed by one bonus item, all from
      `foods`; the sampled ones take no food more often than `foods` holds it,
      so they are pairwise different when the catalog is. */
  ghost predicate MealFits(items: seq<Food>, foods: seq<Food>, k: int)
  {
    && 0 <= k <= |items| <= k + 1
    && (forall x :: x in items ==> x in foods)
    && multiset(items[..k]) <= multiset(foods)
    && (Distinct(foods) ==> Distinct(items[..k]))
  }

  /** The draw's `k` makes `random.sample` raise `ValueError`. */
  predicate SampleRaises(d: MealDraw, maxItems: int, n: nat)
  {
    var k := ClampK(d.kRaw, maxItems);
    k < 0 || k > n
  }

  /** The list the meal is drawn from (lines 103-107): the candidates, or all of
      `foods` when there are fewer candidates than the clamped `k`. */
  function MealPool(foods: seq<Food>, used: set<string>, d: MealDraw, maxItems: int): (r: seq<Food>)
    ensures IsSubseq(r, foods)
    ensures ClampK(d.kRaw, maxItems) <= |Candidates(foods, used, d.readmit)| ==> r == Candidates(foods, used, d.readmit)
    ensures ClampK(d.kRaw, maxItems) > |Candidates(foods, used, d.readmit)| ==> r == foods
  {
    var offered := Candidates(foods, used, d.readmit);
    SubseqRefl(foods);
    if |offered| < ClampK(d.kRaw, maxItems) then foods else offered
  }

  /** A meal drawn from `pool`: every item, the bonus included, comes from it,
      the first `k` without replacement, and the bonus is there exactly when it
      was drawn and `pool` is not empty. */
  ghost predicate DrawnFrom(meal: seq<Food>, pool: seq<Food>, k: int, addBonus: bool)
  {
    && 0 <= k <= |meal|
    && (forall x :: x in meal ==> x in pool)
    && multiset(meal[..k]) <= multiset(pool)
    && |meal| == (if addBonus && pool != [] then k + 1 else k)
  }

  /** One meal of `build_day` (lines 103-110): candidates, clamped `k`, fallback to
      all foods when the candidates are too few, the sample, the bonus item.
      `None` stands for the `ValueError` of `random.sample`. */
  function ComposeMeal(foods: seq<Food>, used: set<string>, d: MealDraw, maxItems: int): (r: Option<seq<Food>>)
    ensures r.None? <==> SampleRaises(d, maxItems, |foods|)
    ensures r.Some? ==> MealFits(r.value, foods, ClampK(d.kRaw, maxItems))
    ensures r.Some? ==> DrawnFrom(r.value, MealPool(foods, used, d, maxItems), ClampK(d.kRaw, maxItems), d.addBonus)
  {
    var k := ClampK(d.kRaw, maxItems);
    var cands := MealPool(foods, used, d, maxItems);
    if k < 0 || k > |cands| then None
    else Some(TakeMeal(cands, foods, k, d))
  }

  /** Lines 108-110: `k` items sampled from `cands`, then one more item chosen
      from `cands` when the draw asks for a bonus and `cands` is not empty. */
  function TakeMeal(cands: seq<Food>, foods: seq<Food>, k: nat, d: MealDraw): (meal: seq<Food>)
    requires k <= |cands| && IsSubseq(cands, foods)
    ensures MealFits(meal, foods, k)
    ensures DrawnFrom(meal, cands, k, d.addBonus)
  {
    SubseqMembers(cands, foods);
    SubseqMultiset(cands, foods);
    var picked := Sample(cands, k, d.pick);
    assert multiset(picked) <= multiset(foods);
    assert Distinct(foods) ==> Distinct(picked) by {
      if Distinct(foods) {
        SubMultisetDistinct(picked, foods);
      }
    }
    if d.addBonus && |cands| > 0 then
      var meal := picked + [cands[d.bonusPick % |cands|]];
      assert meal[..k] == picked;
      meal
    else
      assert picked[..k] == picked;
      picked
  }

  /** The names of a list of items. */
  function NameSet(items: seq<Food>): (r: set<string>)
    ensures forall x :: x in items ==> x.name in r
    ensures forall n :: n in r ==> exists x :: x in items && x.name == n
  {
    if items == [] then {}
    else
      var front := items[..|items| - 1];
      assert forall x :: x in front ==> x in items;
      NameSet(front) + {items[|items| - 1].name}
  }

  /** The names the meals of `day` have used, meal after meal (line 112). */
  ghost function UsedBy(day: Day): set<string>
    decreases |day|
  {
    if day == [] then {} else UsedBy(day[..|day| - 1]) + NameSet(day[|day| - 1])
  }

  /** The used names are exactly the names of the day's items. */
  lemma {:induction false} UsedByNames(day: Day)
    ensures forall i, x :: 0 <= i < |day| && x in day[i] ==> x.name in UsedBy(day)
    ensures forall n :: n in UsedBy(day) ==> exists i, x :: 0 <= i < |day| && x in day[i] && x.name == n
    decreases |day|
  {
    if day != [] {
      var front := day[..|day| - 1];
      UsedByNames(front);
      assert forall i :: 0 <= i < |front| ==> front[i] == day[i];
    }
  }

  /** One more meal adds its names to those used. */
  lemma UsedBySnoc(day: Day, meal: seq<Food>)
    ensures UsedBy(day + [meal]) == UsedBy(day) + NameSet(meal)
  {
    assert (day + [meal])[..|day|] == day;
  }

  /** What a trial comes to: it raised, or it built a day with a total score. */
  datatype TrialResult = TrialRaised | TrialDone(day: Day, score: real)

  /** The draws of meal `i` make `random.sample` raise. */
  predicate RaisesAt(dr: nat -> MealDraw, i: nat, maxItems: int, n: nat)
  {
    SampleRaises(dr(i), maxItems, n)
  }

  /** `meal` is what lines 103-110 draw with `d` after the meals `before`: it
      fits its `k`, and it comes from the list drawn from once `before` has used
      its names. */
  ghost predicate DrawnAfter(meal: seq<Food>, before: Day, foods: seq<Food>, maxItems: int, d: MealDraw)
  {
    && MealFits(meal, foods, ClampK(d.kRaw, maxItems))
    && DrawnFrom(meal, MealPool(foods, UsedBy(before), d, maxItems), ClampK(d.kRaw, maxItems), d.addBonus)
  }

  /** Every meal of `day` is drawn as its position's draws say, after the
      meals before it. */
  ghost predicate MealsFit(day: Day, foods: seq<Food>, maxItems: int, dr: nat -> MealDraw)
  {
    forall i :: 0 <= i < |day| ==> DrawnAfter(day[i], day[..i], foods, maxItems, dr(i))
  }

  /** One meal per slot, each drawn as its position's draws say. */
  ghost predicate DayShape(day: Day, foods: seq<Food>, meals: nat, maxItems: int, dr: nat -> MealDraw)
  {
    |day| == meals && MealsFit(day, foods, maxItems, dr)
  }

  /** The day has the shape one of the trials' draws gives it. */
  ghost predicate ShapedByTrial(day: Day, foods: seq<Food>, meals: nat, maxItems: int, draws: nat -> nat -> MealDraw)
  {
    exists b :: 0 <= b < Trials && DayShape(day, foods, meals, maxItems, draws(b))
  }

  /** The total score of a day: the scores of its meals summed in order. */
  function DayScore(day: Day, tg: Targets): (r: real)
    requires tg.meals > 0
    ensures r >= 0.0
    decreases |day|
  {
    if day == [] then 0.0 else DayScore(day[..|day| - 1], tg) + Score(day[|day| - 1], tg)
  }

  /** Meals `m` to `meals - 1` of one trial, after the earlier meals built `day`
      and used the names `used`; a finished trial carries its total score. */
  function RunMeals(foods: seq<Food>, tg: Targets, maxItems: int, dr: nat -> MealDraw,
                    m: nat, meals: nat, used: set<string>, day: Day): (r: TrialResult)
    requires tg.meals > 0
    requires m <= meals
    ensures r.TrialRaised? <==> exists i :: m <= i < meals && RaisesAt(dr, i, maxItems, |foods|)
    ensures r.TrialDone? ==> r.score == DayScore(r.day, tg)
    decreases meals - m
  {
    if m == meals then TrialDone(day, DayScore(day, tg))
    else
      var c := ComposeMeal(foods, used, dr(m), maxItems);
      RaisesShift(dr, m, meals, maxItems, |foods|);
      if c.None? then TrialRaised
      else RunMeals(foods, tg, maxItems, dr, m + 1, meals, used + NameSet(c.value), day + [c.value])
  }

  /** Some meal from `m` on raises iff meal `m` does or some later one does. */
  lemma RaisesShift(dr: nat -> MealDraw, m: nat, meals: nat, maxItems: int, n: nat)
    requires m < meals
    ensures (exists i :: m <= i < meals && RaisesAt(dr, i, maxItems, n))
        <==> RaisesAt(dr, m, maxItems, n) || exists i :: m + 1 <= i < meals && RaisesAt(dr, i, maxItems, n)
  {
  }

  /** One step of a trial: meal `m` composed, then the rest of the trial. */
  lemma RunMealsStep(foods: seq<Food>, tg: Targets, maxItems: int, dr: nat -> MealDraw,
                     m: nat, meals: nat, used: set<string>, day: Day)
    requires tg.meals > 0
    requires m < meals
    ensures var c := ComposeMeal(foods, used, dr(m), maxItems);
      RunMeals(foods, tg, maxItems, dr, m, meals, used, day)
      == if c.None? then TrialRaised
         else RunMeals(foods, tg, maxItems, dr, m + 1, meals, used + NameSet(c.value), day + [c.value])
  {
  }

  /** A finished trial holds one meal per slot, each drawn as its draws say,
      provided `used` holds the names of the meals already on the day. */
  lemma {:induction false} RunMealsShape(foods: seq<Food>, tg: Targets, maxItems: int, dr: nat -> MealDraw,
                                         m: nat, meals: nat, used: set<string>, day: Day)
    requires tg.meals > 0
    requires m <= meals && |day| == m
    requires used == UsedBy(day)
    requires MealsFit(day, foods, maxItems, dr)
    requires RunMeals(foods, tg, maxItems, dr, m, meals, used, day).TrialDone?
    ensures |RunMeals(foods, tg, maxItems, dr, m, meals, used, day).day| == meals
    ensures MealsFit(RunMeals(foods, tg, maxItems, dr, m, meals, used, day).day, foods, maxItems, dr)
    decreases meals - m
  {
    if m < meals {
      var c := ComposeMeal(foods, used, dr(m), maxItems);
      RunMealsStep(foods, tg, maxItems, dr, m, meals, used, day);
      assert c.Some?;
      assert DrawnAfter(c.value, day, foods, maxItems, dr(m));
      MealsFitSnoc(day, foods, maxItems, dr, c.value);
      UsedBySnoc(day, c.value);
      RunMealsShape(foods, tg, maxItems, dr, m + 1, meals, used + NameSet(c.value), day + [c.value]);
    }
  }

  /** A meal drawn as the next position's draws say, from the list left by the
      names the day has used, extends a day of such meals. */
  lemma MealsFitSnoc(day: Day, foods: seq<Food>, maxItems: int, dr: nat -> MealDraw, meal: seq<Food>)
    requires MealsFit(day, foods, maxItems, dr)
    requires DrawnAfter(meal, day, foods, maxItems, dr(|day|))
    ensures MealsFit(day + [meal], foods, maxItems, dr)
  {
    var day' := day + [meal];
    forall i | 0 <= i < |day'| ensures DrawnAfter(day'[i], day'[..i], foods, maxItems, dr(i)) {
      SnocAt(day, meal, i);
    }
  }

  /** The soft avoidance of lines 103 and 112 across a day: when no readmission
      draw of meal `i` succeeds and there are at least `k` candidates, meal `i`
      shares no name with any earlier meal of the day. */
  lemma NoRepeatWithoutReadmission(day: Day, foods: seq<Food>, maxItems: int, dr: nat -> MealDraw, i: nat)
    requires MealsFit(day, foods, maxItems, dr)
    requires i < |day|
    requires forall j :: 0 <= j < |foods| ==> !dr(i).readmit(j)
    requires ClampK(dr(i).kRaw, maxItems) <= |Candidates(foods, UsedBy(day[..i]), dr(i).readmit)|
    ensures forall j, x, y :: 0 <= j < i && x in day[i] && y in day[j] ==> x.name != y.name
  {
    var before := day[..i];
    assert DrawnAfter(day[i], before, foods, maxItems, dr(i));
    CandidatesAvoidUsed(foods, UsedBy(before), dr(i).readmit);
    UsedByNames(before);
    forall j, x, y | 0 <= j < i && x in day[i] && y in day[j] ensures x.name != y.name {
      assert y in before[j];
    }
  }

  /** Position `i` of `day + [meal]` holds the meal of `day` there, or `meal`
      at the end, with the same meals before it. */
  lemma SnocAt(day: Day, meal: seq<Food>, i: nat)
    requires i <= |day|
    ensures i < |day| ==> (day + [meal])[i] == day[i] && (day + [meal])[..i] == day[..i]
    ensures i == |day| ==> (day + [meal])[i] == meal && (day + [meal])[..i] == day
  {
  }

  /** One whole trial with the draws `dr` of its meals. */
  function RunTrial(foods: seq<Food>, tg: Targets, meals: nat, maxItems: int, dr: nat -> MealDraw): TrialResult
    requires tg.meals > 0
  {
    RunMeals(foods, tg, maxItems, dr, 0, meals, {}, [])
  }

  /** Trial number `t`. */
  function TrialAt(foods: seq<Food>, tg: Targets, meals: nat, maxItems: int,
                   draws: nat -> nat -> MealDraw, t: nat): TrialResult
    requires tg.meals > 0
  {
    RunTrial(foods, tg, meals, maxItems, draws(t))
  }

  /** The trials of one search, by trial number. */
  function TrialFn(foods: seq<Food>, tg: Targets, meals: nat, maxItems: int,
                   draws: nat -> nat -> MealDraw): nat -> TrialResult
    requires tg.meals > 0
  {
    (u: nat) => TrialAt(foods, tg, meals, maxItems, draws, u)
  }

  /** The results of the first `n` trials, in order. */
  ghost function History(trial: nat -> TrialResult, n: nat): (h: seq<TrialResult>)
    ensures |h| == n
    ensures forall u :: 0 <= u < n ==> h[u] == trial(u)
  {
    seq(n, u requires 0 <= u < n => trial(u))
  }

  /** Every trial of `hs` built a day. */
  ghost predicate AllDone(hs: seq<TrialResult>)
  {
    forall u :: 0 <= u < |hs| ==> hs[u].TrialDone?
  }

  /** Trial `b` of `hs` built `d`, scored below the cap, no worse than any trial
      of `hs` and strictly better than every trial before it. */
  ghost predicate IsFirstBest(hs: seq<TrialResult>, b: nat, d: Day)
    requires AllDone(hs)
  {
    && b < |hs|
    && hs[b].day == d
    && hs[b].score < ScoreCap
    && (forall u :: 0 <= u < |hs| ==> hs[b].score <= hs[u].score)
    && (forall u :: 0 <= u < b ==> hs[u].score > hs[b].score)
  }

  /** What a search over the trials `hs` returns: it raises if some trial raises;
      otherwise, the day of the first trial with the lowest total score when that
      score is below the cap, and `None` when no trial gets below it. */
  ghost predicate IsBestOf(r: Outcome<Option<Day>>, hs: seq<TrialResult>)
  {
    match r
    case Raised => exists u :: 0 <= u < |hs| && hs[u].TrialRaised?
    case Returned(None) => forall u :: 0 <= u < |hs| ==> hs[u].TrialDone? && hs[u].score >= ScoreCap
    case Returned(Some(d)) => AllDone(hs) && exists b :: 0 <= b < |hs| && IsFirstBest(hs, b, d)
  }

  /** What `build_day` returns for these draws. */
  ghost predicate IsBestDay(r: Outcome<Option<Day>>, foods: seq<Food>, tg: Targets, meals: nat,
                            maxItems: int, draws: nat -> nat -> MealDraw)
    requires tg.meals > 0
  {
    IsBestOf(r, History(TrialFn(foods, tg, meals, maxItems, draws), Trials))
  }

  /** The names of `items` added to `used`, one at a time. */
  method AddNames(used: set<string>, items: seq<Food>) returns (r: set<string>)
    ensures r == used + NameSet(items)
  {
    r := used;
    var i := 0;
    while i < |items|
      invariant i <= |items|
      invariant r == used + NameSet(items[..i])
    {
      NameSetStep(items, i);
      assert used + NameSet(items[..i + 1]) == r + {items[i].name};
      r := r + {items[i].name};
      i := i + 1;
    }
    assert items[..|items|] == items;
  }

  /** One more item adds its name to the names of the items before it. */
  lemma NameSetStep(items: seq<Food>, i: nat)
    requires i < |items|
    ensures NameSet(items[..i + 1]) == NameSet(items[..i]) + {items[i].name}
  {
    assert items[..i + 1][..i] == items[..i];
  }

  /** A meal composed at position `m` moves the trial on to position `m + 1`,
      with its names used, the meal appended and its score added. */
  lemma TrialLoopStep(foods: seq<Food>, tg: Targets, maxItems: int, dr: nat -> MealDraw,
                      m: nat, meals: nat, used: set<string>, day: Day, items: seq<Food>)
    requires tg.meals > 0
    requires m < meals
    requires ComposeMeal(foods, used, dr(m), maxItems) == Some(items)
    ensures RunMeals(foods, tg, maxItems, dr, m, meals, used, day)
      == RunMeals(foods, tg, maxItems, dr, m + 1, meals, used + NameSet(items), day + [items])
    ensures DayScore(day + [items], tg) == DayScore(day, tg) + Score(items, tg)
  {
    RunMealsStep(foods, tg, maxItems, dr, m, meals, used, day);
    assert (day + [items])[..|day|] == day;
  }

  /** One trial of `build_day` (lines 101-113): the meals of the day in order, each
      meal's score added to the total, its names to those used, the meal to the day. */
  method RunTrialLoop(foods: seq<Food>, tg: Targets, meals: nat, maxItems: int, dr: nat -> MealDraw)
    returns (res: TrialResult)
    requires tg.meals > 0
    ensures res == RunTrial(foods, tg, meals, maxItems, dr)
  {
    var day: Day := [];
    var total: real := 0.0;
    var used: set<string> := {};
    var m: nat := 0;
    while m < meals
      invariant m <= meals
      invariant RunTrial(foods, tg, meals, maxItems, dr) == RunMeals(foods, tg, maxItems, dr, m, meals, used, day)
      invariant total == DayScore(day, tg)
    {
      var composed := ComposeMeal(foods, used, dr(m), maxItems);
      if composed.None? {
        RunMealsStep(foods, tg, maxItems, dr, m, meals, used, day);
        return TrialRaised;
      }
      var items := composed.value;
      TrialLoopStep(foods, tg, maxItems, dr, m, meals, used, day, items);
      total := total + Score(items, tg);
      used := AddNames(used, items);
      day := day + [items];
      m := m + 1;
    }
    res := TrialDone(day, total);
  }

  /** What the search keeps after the trials `hs`: the best day so far, its score
      (the cap while there is none) and, as a ghost, the trial that built it. */
  ghost predicate Selected(hs: seq<TrialResult>, bestDay: Option<Day>, bestScore: real, bestTrial: nat)
  {
    && AllDone(hs)
    && (bestDay.None? ==> bestScore == ScoreCap && forall u :: 0 <= u < |hs| ==> hs[u].score >= ScoreCap)
    && (bestDay.Some? ==> IsFirstBest(hs, bestTrial, bestDay.value) && bestScore == hs[bestTrial].score)
  }

  /** One more finished trial: it replaces the best day only when it scores
      strictly lower, so ties keep the earlier day. */
  lemma SelectStep(hs: seq<TrialResult>, res: TrialResult, bestDay: Option<Day>, bestScore: real, bestTrial: nat)
    requires Selected(hs, bestDay, bestScore, bestTrial)
    requires res.TrialDone?
    ensures res.score < bestScore ==> Selected(hs + [res], Some(res.day), res.score, |hs|)
    ensures res.score >= bestScore ==> Selected(hs + [res], bestDay, bestScore, bestTrial)
  {
    var hs' := hs + [res];
    assert forall u :: 0 <= u < |hs| ==> hs'[u] == hs[u];
    assert hs'[|hs|] == res;
  }

  /** When no trial raised, what the search keeps is what `build_day` returns. */
  lemma SelectDone(hs: seq<TrialResult>, bestDay: Option<Day>, bestScore: real, bestTrial: nat)
    requires Selected(hs, bestDay, bestScore, bestTrial)
    ensures IsBestOf(Returned(bestDay), hs)
    ensures bestDay.Some? ==> bestTrial < |hs| && hs[bestTrial].day == bestDay.value
  {
  }

  /** `build_day(foods, targets, meals, max_items_per_meal)` with the draws supplied. */
  method BuildDay(foods: seq<Food>, tg: Targets, meals: nat, maxItems: int, draws: nat -> nat -> MealDraw)
    returns (r: Outcome<Option<Day>>)
    requires tg.meals > 0
    ensures IsBestDay(r, foods, tg, meals, maxItems, draws)
    ensures r.Returned? && r.value.Some? ==> ShapedByTrial(r.value.value, foods, meals, maxItems, draws)
    ensures 0 <= maxItems <= |foods| ==> r.Returned?
  {
    ghost var hs: seq<TrialResult> := [];
    var bestDay: Option<Day> := None;
    var bestScore := ScoreCap;
    ghost var bestTrial: nat := 0;
    var t: nat := 0;
    while t < Trials
      invariant t <= Trials
      invariant Searched(TrialFn(foods, tg, meals, maxItems, draws), t, hs, bestDay, bestScore, bestTrial)
    {
      var raised;
      raised, bestDay, bestScore, bestTrial, hs := SearchTrial(foods, tg, meals, maxItems, draws, t, hs, bestDay, bestScore, bestTrial);
      if raised {
        return Raised;
      }
      t := t + 1;
    }
    SearchDone(foods, tg, meals, maxItems, draws, hs, bestDay, bestScore, bestTrial);
    r := Returned(bestDay);
  }

  /** The state of the search after the first `t` trials: their results `hs`,
      and what the search keeps of them. */
  ghost predicate Searched(trial: nat -> TrialResult, t: nat, hs: seq<TrialResult>,
                           bestDay: Option<Day>, bestScore: real, bestTrial: nat)
  {
    && hs == History(trial, t)
    && Selected(hs, bestDay, bestScore, bestTrial)
  }

  /** Trial `t` of the search: it raises, or the search takes it in. */
  method SearchTrial(foods: seq<Food>, tg: Targets, meals: nat, maxItems: int,
                     draws: nat -> nat -> MealDraw, t: nat, ghost hs: seq<TrialResult>,
                     bestDay: Option<Day>, bestScore: real, ghost bestTrial: nat)
    returns (raised: bool, day': Option<Day>, score': real, ghost trial': nat, ghost hs': seq<TrialResult>)
    requires tg.meals > 0
    requires t < Trials
    requires Searched(TrialFn(foods, tg, meals, maxItems, draws), t, hs, bestDay, bestScore, bestTrial)
    ensures raised ==> IsBestDay(Raised, foods, tg, meals, maxItems, draws) && !(0 <= maxItems <= |foods|)
    ensures !raised ==> Searched(TrialFn(foods, tg, meals, maxItems, draws), t + 1, hs', day', score', trial')
  {
    ghost var trial := TrialFn(foods, tg, meals, maxItems, draws);
    var res := RunTrialLoop(foods, tg, meals, maxItems, draws(t));
    assert res == trial(t);
    if res.TrialRaised? {
      RaisedTrial(trial, t);
      NeverRaises(foods, tg, meals, maxItems, draws, t);
      return true, bestDay, bestScore, bestTrial, hs;
    }
    var keep := res.score >= bestScore;
    day' := if keep then bestDay else Some(res.day);
    score' := if keep then bestScore else res.score;
    trial' := if keep then bestTrial else t;
    SearchStep(trial, t, hs, res, bestDay, bestScore, bestTrial, day', score', trial');
    raised, hs' := false, hs + [res];
  }

  /** One finished trial `t` taken into the search: the history grows by it and
      the kept day is replaced exactly when the trial scores strictly lower. */
  lemma SearchStep(trial: nat -> TrialResult, t: nat, hs: seq<TrialResult>, res: TrialResult,
                   bestDay: Option<Day>, bestScore: real, bestTrial: nat,
                   day': Option<Day>, score': real, trial': nat)
    requires Searched(trial, t, hs, bestDay, bestScore, bestTrial)
    requires res == trial(t) && res.TrialDone?
    requires res.score >= bestScore ==> day' == bestDay && score' == bestScore && trial' == bestTrial
    requires res.score < bestScore ==> day' == Some(res.day) && score' == res.score && trial' == t
    ensures Searched(trial, t + 1, hs + [res], day', score', trial')
  {
    SelectStep(hs, res, bestDay, bestScore, bestTrial);
  }

  /** A raising trial makes the whole search raise. */
  lemma RaisedTrial(trial: nat -> TrialResult, t: nat)
    requires t < Trials
    requires trial(t).TrialRaised?
    ensures IsBestOf(Raised, History(trial, Trials))
  {
    assert History(trial, Trials)[t] == trial(t);
  }

  /** After all trials, the kept day is what `build_day` returns, and it has the
      shape of the trial that built it. */
  lemma SearchDone(foods: seq<Food>, tg: Targets, meals: nat, maxItems: int,
                   draws: nat -> nat -> MealDraw, hs: seq<TrialResult>,
                   bestDay: Option<Day>, bestScore: real, bestTrial: nat)
    requires tg.meals > 0
    requires Searched(TrialFn(foods, tg, meals, maxItems, draws), Trials, hs, bestDay, bestScore, bestTrial)
    ensures IsBestDay(Returned(bestDay), foods, tg, meals, maxItems, draws)
    ensures bestDay.Some? ==> ShapedByTrial(bestDay.value, foods, meals, maxItems, draws)
  {
    SelectDone(hs, bestDay, bestScore, bestTrial);
    if bestDay.Some? {
      assert hs[bestTrial] == TrialAt(foods, tg, meals, maxItems, draws, bestTrial);
      TrialShape(foods, tg, meals, maxItems, draws, bestTrial);
    }
  }

  /** Every meal of a finished trial fits the `k` of its own draw. */
  lemma TrialShape(foods: seq<Food>, tg: Targets, meals: nat, maxItems: int, draws: nat -> nat -> MealDraw, b: nat)
    requires tg.meals > 0
    requires TrialAt(foods, tg, meals, maxItems, draws, b).TrialDone?
    ensures DayShape(TrialAt(foods, tg, meals, maxItems, draws, b).day, foods, meals, maxItems, draws(b))
  {
    var dr := draws(b);
    RunMealsShape(foods, tg, maxItems, dr, 0, meals, {}, []);
  }

  /** The search is deterministic: the draws fix the outcome. */
  lemma BestDayUnique(r1: Outcome<Option<Day>>, r2: Outcome<Option<Day>>, foods: seq<Food>, tg: Targets,
                      meals: nat, maxItems: int, draws: nat -> nat -> MealDraw)
    requires tg.meals > 0
    requires IsBestDay(r1, foods, tg, meals, maxItems, draws)
    requires IsBestDay(r2, foods, tg, meals, maxItems, draws)
    ensures r1 == r2
  {
    if r1.Returned? && r2.Returned? && r1.value.Some? && r2.value.Some? {
      var hs := History(TrialFn(foods, tg, meals, maxItems, draws), Trials);
      var b1 :| 0 <= b1 < |hs| && IsFirstBest(hs, b1, r1.value.value);
      var b2 :| 0 <= b2 < |hs| && IsFirstBest(hs, b2, r2.value.value);
      assert b1 == b2;
    }
  }

  /** With `0 <= max_items <= len(foods)`, `random.sample` never raises. */
  lemma NeverRaises(foods: seq<Food>, tg: Targets, meals: nat, maxItems: int, draws: nat -> nat -> MealDraw, t: nat)
    requires tg.meals > 0
    ensures 0 <= maxItems <= |foods| ==> TrialAt(foods, tg, meals, maxItems, draws, t).TrialDone?
  {
    var dr := draws(t);
    if 0 <= maxItems <= |foods| {
      forall i | 0 <= i < meals ensures !RaisesAt(dr, i, maxItems, |foods|) {
      var k := ClampK(dr(i).kRaw, maxItems);
      assert 0 <= k <= |foods|;
      }
    }
  }
}

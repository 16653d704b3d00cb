/** `generate_plan`: the targets, the food pool after the diet and the
    exclusion filters (with the fallback when too few foods remain) and one
    `build_day` per requested day. */
module Plan {
  import opened Results
  import opened Seqs
  import opened Text
  import opened Foods
  import opened Nutrition
  import opened Composer

  /** Fewer foods than this after the exclusions bring back the diet-only pool. */
  const MinPool: nat := 5

  /** The preferences `generate_plan` reads. */
  datatype Prefs = Prefs(
    effectiveKcal: real,
    meals: nat,
    proteinPct: real,
    carbsPct: real,
    fatPct: real,
    diet: string,
    maxItems: int,
    excludeTags: seq<string>,
    excludeGroups: seq<string>,
    dislikes: string)

  /** A generated plan: one entry per day (`None` where `build_day` found no day
      under the cap) and the targets it was built for. */
  datatype MealPlan = MealPlan(days: seq<Option<Day>>, targets: Targets)

  /** The targets dictionary of lines 178-180. */
  function TargetsOf(prefs: Prefs): (tg: Targets)
    requires prefs.meals > 0
    ensures tg.meals == prefs.meals
    ensures tg.kcalMeal * (prefs.meals as real) == prefs.effectiveKcal
    ensures tg.macros.proteinG * 4.0 == prefs.effectiveKcal * prefs.proteinPct
    ensures tg.macros.carbsG * 4.0 == prefs.effectiveKcal * prefs.carbsPct
    ensures tg.macros.fatG * 9.0 == prefs.effectiveKcal * prefs.fatPct
    ensures tg.macros.proteinG * 4.0 + tg.macros.carbsG * 4.0 + tg.macros.fatG * 9.0
         == prefs.effectiveKcal * (prefs.proteinPct + prefs.carbsPct + prefs.fatPct)
  {
    Targets(MacroTargets(prefs.effectiveKcal, prefs.proteinPct, prefs.carbsPct, prefs.fatPct),
            prefs.effectiveKcal / (prefs.meals as real), prefs.meals)
  }

  /** `any(tag in f.get("tags", []) for tag in excluded)`. */
  predicate HasExcludedTag(f: Food, excluded: seq<string>)
  {
    exists tag :: tag in excluded && tag in f.tags
  }

  /** The tag exclusion step: the foods carrying none of the excluded tags, in order. */
  function ExcludeTags(pool: seq<Food>, excluded: seq<string>): (r: seq<Food>)
    ensures IsSubseq(r, pool)
    ensures forall f :: f in r ==> f in pool && !HasExcludedTag(f, excluded)
    ensures forall f :: f in pool && !HasExcludedTag(f, excluded) ==> f in r
    ensures multiset(r) <= multiset(pool)
    ensures forall f :: f in pool && !HasExcludedTag(f, excluded) ==> multiset(r)[f] == multiset(pool)[f]
  {
    Filter(pool, (f: Food) => !HasExcludedTag(f, excluded))
  }

  /** The group exclusion step: the foods outside the excluded groups, in order. */
  function ExcludeGroups(pool: seq<Food>, groups: seq<string>): (r: seq<Food>)
    ensures IsSubseq(r, pool)
    ensures forall f :: f in r ==> f in pool && f.group !in groups
    ensures forall f :: f in pool && f.group !in groups ==> f in r
    ensures multiset(r) <= multiset(pool)
    ensures forall f :: f in pool && f.group !in groups ==> multiset(r)[f] == multiset(pool)[f]
  {
    Filter(pool, (f: Food) => f.group !in groups)
  }

  /** `[x.strip().lower() for x in pieces if x.strip()]`. */
  function CleanTokens(pieces: seq<string>): (r: seq<string>)
    ensures |r| <= |pieces|
    ensures forall p :: p in pieces && Strip(p) != [] ==> Lower(Strip(p)) in r
    ensures forall t :: t in r ==> exists p :: p in pieces && Strip(p) != [] && t == Lower(Strip(p))
  {
    if pieces == [] then []
    else
      var rest := CleanTokens(pieces[1..]);
      assert forall p :: p in pieces ==> p == pieces[0] || p in pieces[1..];
      if Strip(pieces[0]) != [] then [Lower(Strip(pieces[0]))] + rest else rest
  }

  /** The dislike tokens of line 189: the comma-separated pieces of `dislikes`,
      stripped and lower-cased, blank ones dropped. */
  function DislikeTokens(dislikes: string): (r: seq<string>)
    ensures forall t :: t in r ==> exists p :: p in Split(dislikes, ',') && Strip(p) != [] && t == Lower(Strip(p))
    ensures forall p :: p in Split(dislikes, ',') && Strip(p) != [] ==> Lower(Strip(p)) in r
  {
    CleanTokens(Split(dislikes, ','))
  }

  /** A dislike token: non-empty, no whitespace at either end, no comma and no
      upper-case letter. */
  predicate IsToken(t: string)
  {
    && t != []
    && !IsSpace(t[0]) && !IsSpace(t[|t| - 1])
    && ',' !in t
    && forall i :: 0 <= i < |t| ==> !IsUpper(t[i])
  }

  /** A comma-free piece that is not blank cleans to a token. */
  lemma CleanTokenShape(p: string)
    requires ',' !in p
    requires Strip(p) != []
    ensures IsToken(Lower(Strip(p)))
  {
    var s := Strip(p);
    assert ',' !in s by {
      var i, j :| 0 <= i <= j <= |p| && s == p[i..j];
      forall k | 0 <= k < |s| ensures s[k] != ',' {
        assert s[k] == p[i + k];
      }
    }
    var t := Lower(s);
    forall k | 0 <= k < |t| ensures t[k] != ',' {
      assert t[k] == LowerChar(s[k]);
    }
  }

  /** Every dislike token is a token. */
  lemma DislikeTokensShape(dislikes: string)
    ensures forall t :: t in DislikeTokens(dislikes) ==> IsToken(t)
  {
    var pieces := Split(dislikes, ',');
    forall t | t in DislikeTokens(dislikes) ensures IsToken(t) {
      var p :| p in pieces && Strip(p) != [] && t == Lower(Strip(p));
      CleanTokenShape(p);
    }
  }

  /** An empty dislike string yields no tokens. */
  lemma NoDislikesNoTokens()
    ensures DislikeTokens([]) == []
  {
    assert Split([], ',') == [[]];
    assert Strip([]) == [];
  }

  /** `any(tok in f["name"].lower() for tok in tokens)`. */
  predicate Disliked(f: Food, tokens: seq<string>)
  {
    exists tok :: tok in tokens && Contains(Lower(f.name), tok)
  }

  /** The dislike exclusion step: the foods whose name contains no token, in order. */
  function ExcludeDislikes(pool: seq<Food>, tokens: seq<string>): (r: seq<Food>)
    ensures IsSubseq(r, pool)
    ensures forall f :: f in r ==> f in pool && !Disliked(f, tokens)
    ensures forall f :: f in pool && !Disliked(f, tokens) ==> f in r
    ensures multiset(r) <= multiset(pool)
    ensures forall f :: f in pool && !Disliked(f, tokens) ==> multiset(r)[f] == multiset(pool)[f]
  {
    Filter(pool, (f: Food) => !Disliked(f, tokens))
  }

  /** What the food must pass besides the diet: none of the excluded tags, no
      excluded group, no dislike token in its name. */
  predicate PassesExclusions(f: Food, prefs: Prefs)
  {
    && !HasExcludedTag(f, prefs.excludeTags)
    && f.group !in prefs.excludeGroups
    && !Disliked(f, DislikeTokens(prefs.dislikes))
  }

  /** Line 184: the tag step, applied only when tags are excluded. */
  function TagStep(pool: seq<Food>, prefs: Prefs): (r: seq<Food>)
    ensures IsSubseq(r, pool)
    ensures forall f :: f in r <==> f in pool && !HasExcludedTag(f, prefs.excludeTags)
    ensures multiset(r) <= multiset(pool)
    ensures forall f :: f in pool && !HasExcludedTag(f, prefs.excludeTags) ==> multiset(r)[f] == multiset(pool)[f]
  {
    if prefs.excludeTags != [] then ExcludeTags(pool, prefs.excludeTags)
    else SubseqRefl(pool); pool
  }

  /** Line 186: the group step, applied only when groups are excluded. */
  function GroupStep(pool: seq<Food>, prefs: Prefs): (r: seq<Food>)
    ensures IsSubseq(r, pool)
    ensures forall f :: f in r <==> f in pool && f.group !in prefs.excludeGroups
    ensures multiset(r) <= multiset(pool)
    ensures forall f :: f in pool && f.group !in prefs.excludeGroups ==> multiset(r)[f] == multiset(pool)[f]
  {
    if prefs.excludeGroups != [] then ExcludeGroups(pool, prefs.excludeGroups)
    else SubseqRefl(pool); pool
  }

  /** Lines 187-191: the dislike step, applied only when the dislike string
      and its token list are non-empty. */
  function DislikeStep(pool: seq<Food>, prefs: Prefs): (r: seq<Food>)
    ensures IsSubseq(r, pool)
    ensures forall f :: f in r <==> f in pool && !Disliked(f, DislikeTokens(prefs.dislikes))
    ensures multiset(r) <= multiset(pool)
    ensures forall f :: f in pool && !Disliked(f, DislikeTokens(prefs.dislikes)) ==> multiset(r)[f] == multiset(pool)[f]
  {
    if prefs.dislikes != [] && DislikeTokens(prefs.dislikes) != [] then
      ExcludeDislikes(pool, DislikeTokens(prefs.dislikes))
    else
      assert DislikeTokens(prefs.dislikes) == [] by {
        if prefs.dislikes == [] {
          NoDislikesNoTokens();
        }
      }
      SubseqRefl(pool);
      pool
  }

  /** The pool after the diet filter and the three exclusion steps of lines 181-191.
      It keeps exactly the foods that pass the diet and the exclusions, in
      catalog order. */
  function StrictPool(foods: seq<Food>, prefs: Prefs): (r: seq<Food>)
    ensures IsSubseq(r, FilterByDiet(foods, prefs.diet))
    ensures forall f :: f in r <==> f in foods && KeptByDiet(f, prefs.diet) && PassesExclusions(f, prefs)
    ensures multiset(r) <= multiset(foods)
    ensures forall f :: f in foods && KeptByDiet(f, prefs.diet) && PassesExclusions(f, prefs) ==>
      multiset(r)[f] == multiset(foods)[f]
  {
    var p0 := FilterByDiet(foods, prefs.diet);
    var p1 := TagStep(p0, prefs);
    var p2 := GroupStep(p1, prefs);
    var p3 := DislikeStep(p2, prefs);
    SubseqTrans(p2, p1, p0);
    SubseqTrans(p3, p2, p0);
    p3
  }

  /** The pool `build_day` draws from: the strict pool, or the diet-only pool
      when fewer than `MinPool` foods survive the exclusions (line 192). */
  function PlanPool(foods: seq<Food>, prefs: Prefs): (r: seq<Food>)
    ensures IsSubseq(r, FilterByDiet(foods, prefs.diet))
  {
    var strict := StrictPool(foods, prefs);
    if |strict| < MinPool then
      SubseqRefl(FilterByDiet(foods, prefs.diet));
      FilterByDiet(foods, prefs.diet)
    else strict
  }

  /** The fallback: too few foods left brings back exactly the diet-only pool;
      otherwise the pool holds at least `MinPool` foods, all passing the
      exclusions. */
  lemma PoolFallback(foods: seq<Food>, prefs: Prefs)
    ensures |StrictPool(foods, prefs)| < MinPool ==> PlanPool(foods, prefs) == FilterByDiet(foods, prefs.diet)
    ensures |StrictPool(foods, prefs)| >= MinPool ==>
      |PlanPool(foods, prefs)| >= MinPool && forall f :: f in PlanPool(foods, prefs) ==> PassesExclusions(f, prefs)
  {
  }

  /** No exclusion step grows the pool. */
  lemma PoolShrinks(foods: seq<Food>, prefs: Prefs)
    ensures |PlanPool(foods, prefs)| <= |FilterByDiet(foods, prefs.diet)| <= |foods|
  {
    SubseqLength(PlanPool(foods, prefs), FilterByDiet(foods, prefs.diet));
    SubseqLength(FilterByDiet(foods, prefs.diet), foods);
  }

  /** `range(days)` holds `max(days, 0)` elements. */
  function DayCount(days: int): nat
  {
    if days < 0 then 0 else days
  }

  /** What the day loop of lines 196-199 returns for these draws (`draws(d)` are
      the draws of day `d`): it raises if the `build_day` of some day raises;
      otherwise, it holds one entry per day, each what `build_day` returns. */
  ghost predicate IsDays(r: Outcome<seq<Option<Day>>>, pool: seq<Food>, tg: Targets, meals: nat,
                         maxItems: int, days: int, draws: nat -> nat -> nat -> MealDraw)
    requires tg.meals > 0
  {
    match r
    case Raised =>
      exists d :: 0 <= d < DayCount(days) && IsBestDay(Raised, pool, tg, meals, maxItems, draws(d))
    case Returned(plan) =>
      && |plan| == DayCount(days)
      && forall d :: 0 <= d < |plan| ==> IsBestDay(Returned(plan[d]), pool, tg, meals, maxItems, draws(d))
  }

  /** What `generate_plan` returns for these draws: the days built on the plan's
      pool, and the targets of the preferences. */
  ghost predicate IsPlan(r: Outcome<MealPlan>, foods: seq<Food>, days: int, prefs: Prefs,
                         draws: nat -> nat -> nat -> MealDraw)
    requires prefs.meals > 0
  {
    var pool := PlanPool(foods, prefs);
    var tg := TargetsOf(prefs);
    match r
    case Raised => IsDays(Raised, pool, tg, prefs.meals, prefs.maxItems, days, draws)
    case Returned(p) =>
      p.targets == tg && IsDays(Returned(p.days), pool, tg, prefs.meals, prefs.maxItems, days, draws)
  }

  /** Lines 181-194: the pool, reassigned step by step, and whether the warning
      fires. */
  method SelectPool(foods: seq<Food>, prefs: Prefs) returns (pool: seq<Food>, warned: bool)
    ensures pool == PlanPool(foods, prefs)
    ensures warned == (|StrictPool(foods, prefs)| < MinPool)
  {
    pool := FilterByDiet(foods, prefs.diet);
    ghost var p0 := pool;
    if prefs.excludeTags != [] {
      pool := ExcludeTags(pool, prefs.excludeTags);
    }
    assert pool == TagStep(p0, prefs);
    ghost var p1 := pool;
    if prefs.excludeGroups != [] {
      pool := ExcludeGroups(pool, prefs.excludeGroups);
    }
    assert pool == GroupStep(p1, prefs);
    ghost var p2 := pool;
    if prefs.dislikes != [] {
      var lowers := DislikeTokens(prefs.dislikes);
      if lowers != [] {
        pool := ExcludeDislikes(pool, lowers);
      }
    }
    assert pool == DislikeStep(p2, prefs);
    warned := false;
    if |pool| < MinPool {
      warned := true;
      pool := FilterByDiet(foods, prefs.diet);
    }
  }

  /** Lines 196-199: one `build_day` per day. */
  method BuildDays(pool: seq<Food>, tg: Targets, meals: nat, maxItems: int, days: int,
                   draws: nat -> nat -> nat -> MealDraw)
    returns (r: Outcome<seq<Option<Day>>>)
    requires tg.meals > 0
    ensures IsDays(r, pool, tg, meals, maxItems, days, draws)
    ensures 0 <= maxItems <= |pool| ==> r.Returned?
  {
    var plan: seq<Option<Day>> := [];
    var d: nat := 0;
    while d < days
      invariant d <= DayCount(days)
      invariant |plan| == d
      invariant forall e :: 0 <= e < d ==> IsBestDay(Returned(plan[e]), pool, tg, meals, maxItems, draws(e))
    {
      var day := BuildDay(pool, tg, meals, maxItems, draws(d));
      if day.Raised? {
        return Raised;
      }
      DaysStep(plan, day.value, pool, tg, meals, maxItems, draws);
      plan := plan + [day.value];
      d := d + 1;
    }
    r := Returned(plan);
  }

  /** One more day that is what `build_day` returns on its own draws. */
  lemma DaysStep(plan: seq<Option<Day>>, next: Option<Day>, pool: seq<Food>, tg: Targets, meals: nat,
                 maxItems: int, draws: nat -> nat -> nat -> MealDraw)
    requires tg.meals > 0
    requires forall e :: 0 <= e < |plan| ==> IsBestDay(Returned(plan[e]), pool, tg, meals, maxItems, draws(e))
    requires IsBestDay(Returned(next), pool, tg, meals, maxItems, draws(|plan|))
    ensures forall e :: 0 <= e < |plan| + 1 ==>
      IsBestDay(Returned((plan + [next])[e]), pool, tg, meals, maxItems, draws(e))
  {
    forall e | 0 <= e < |plan| + 1
      ensures IsBestDay(Returned((plan + [next])[e]), pool, tg, meals, maxItems, draws(e))
    {
      if e < |plan| {
        assert (plan + [next])[e] == plan[e];
      } else {
        assert (plan + [next])[e] == next;
      }
    }
  }

  /** `generate_plan(foods, days, prefs)` with the draws supplied. `warned` stands
      for the `st.warning` of line 193; `Raised` for the division by zero of
      line 179 and for a `ValueError` of `random.sample`. */
  method GeneratePlan(foods: seq<Food>, days: int, prefs: Prefs, draws: nat -> nat -> nat -> MealDraw)
    returns (r: Outcome<MealPlan>, warned: bool)
    ensures prefs.meals == 0 ==> r.Raised? && !warned
    ensures prefs.meals > 0 ==> warned == (|StrictPool(foods, prefs)| < MinPool)
    ensures prefs.meals > 0 ==> IsPlan(r, foods, days, prefs, draws)
    ensures prefs.meals > 0 && 0 <= prefs.maxItems <= |PlanPool(foods, prefs)| ==> r.Returned?
  {
    if prefs.meals == 0 {
      return Raised, false;
    }
    var tg := TargetsOf(prefs);
    var pool;
    pool, warned := SelectPool(foods, prefs);
    var plan := BuildDays(pool, tg, prefs.meals, prefs.maxItems, days, draws);
    if plan.Raised? {
      return Raised, warned;
    }
    r := Returned(MealPlan(plan.value, tg));
  }

  /** Without the warning, a per-meal limit of at most `MinPool` items never
      makes `random.sample` raise. */
  lemma NoWarningNoRaise(foods: seq<Food>, days: int, prefs: Prefs, draws: nat -> nat -> nat -> MealDraw,
                         r: Outcome<MealPlan>)
    requires prefs.meals > 0
    requires |StrictPool(foods, prefs)| >= MinPool
    requires 0 <= prefs.maxItems <= MinPool
    requires IsPlan(r, foods, days, prefs, draws)
    ensures r.Returned?
  {
    PoolFallback(foods, prefs);
  }
}

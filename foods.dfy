/** Food catalog entries and the diet filter. */
module Foods {
  import opened Seqs

  /** One catalog entry; a missing `tags` list is the empty list. */
  datatype Food = Food(
    name: string,
    group: string,
    tags: seq<string>,
    kcal: real,
    protein: real,
    carbs: real,
    fat: real,
    portionG: real)

  /** Groups a vegan or vegetarian diet keeps whatever the tags say. */
  const PlantGroups: seq<string> := ["grains", "fruit", "vegetables", "nuts", "legumes", "fat"]

  /** Groups a gluten-free diet keeps whatever the tags say. */
  const GlutenFreeGroups: seq<string> := ["protein", "fruit", "vegetables", "nuts", "legumes", "fat", "dairy"]

  predicate IsVeganFood(x: Food)
  {
    "vegan" in x.tags || x.group in PlantGroups
  }

  predicate IsVegetarianFood(x: Food)
  {
    "vegan" in x.tags || "vegetarian" in x.tags || x.group in PlantGroups
  }

  predicate IsGlutenFreeFood(x: Food)
  {
    "gluten-free" in x.tags || x.group in GlutenFreeGroups
  }

  /** The rule a diet applies to one item; every other diet keeps everything. */
  predicate KeptByDiet(x: Food, diet: string)
  {
    if diet == "vegetarian" then IsVegetarianFood(x)
    else if diet == "vegan" then IsVeganFood(x)
    else if diet == "gluten-free" then IsGlutenFreeFood(x)
    else true
  }

  /** The diets that remove anything. */
  const RestrictiveDiets: set<string> := {"vegetarian", "vegan", "gluten-free"}

  /** `filter_by_diet`: the items the diet keeps, in catalog order. */
  function FilterByDiet(foods: seq<Food>, diet: string): (r: seq<Food>)
    ensures IsSubseq(r, foods)
    ensures forall x :: x in r ==> x in foods && KeptByDiet(x, diet)
    ensures forall x :: x in foods && KeptByDiet(x, diet) ==> x in r
    ensures multiset(r) <= multiset(foods)
    ensures forall x :: x in foods && KeptByDiet(x, diet) ==> multiset(r)[x] == multiset(foods)[x]
    ensures diet !in RestrictiveDiets ==> r == foods
    ensures Distinct(foods) ==> Distinct(r)
  {
    if diet == "omnivore" then SubseqRefl(foods); foods
    else if diet == "vegetarian" then Filter(foods, IsVegetarianFood)
    else if diet == "vegan" then Filter(foods, IsVeganFood)
    else if diet == "gluten-free" then Filter(foods, IsGlutenFreeFood)
    else SubseqRefl(foods); foods
  }

  /** The vegetarian rule is the vegan rule widened by the "vegetarian" tag. */
  lemma VegetarianIsVeganOrTagged(x: Food)
    ensures IsVegetarianFood(x) <==> IsVeganFood(x) || "vegetarian" in x.tags
  {
  }

  /** Everything the vegan filter keeps the vegetarian filter keeps too, in the same order. */
  lemma VeganWithinVegetarian(foods: seq<Food>)
    ensures IsSubseq(FilterByDiet(foods, "vegan"), FilterByDiet(foods, "vegetarian"))
  {
    FilterMonotone(foods, IsVeganFood, IsVegetarianFood);
  }
}

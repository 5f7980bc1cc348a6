/** The Spoonacular recipe record as the ETL reads it, and the defensive field mapping of
    upsert_recipe and upsert_nutrition: defaults, fallbacks, the ingredient text chain,
    the nutrient lookup by normalised name, and str() of the record id. */
module Payload {
  import opened Wrappers
  import opened Text

  // ---------- the record ----------

  /** A JSON member that is absent, explicitly null, or present. */
  datatype Field<+T> = Missing | Null | Present(value: T)

  /** One entry of extendedIngredients. `original` and `originalName` are read with
      plain get(), which does not tell an absent key from a null one. */
  datatype ExtIngredient = ExtIngredient(
    original: Option<string>,
    originalName: Option<string>,
    name: Field<string>,
    amount: Option<real>,
    unit: Option<string>)

  /** One entry of nutrition.nutrients; an absent and a null name both normalise to "". */
  datatype Nutrient = Nutrient(name: Option<string>, amount: Option<real>)

  datatype NutritionInfo = NutritionInfo(nutrients: Option<seq<Nutrient>>)

  /** The members of a search result that the ETL reads. */
  datatype SourceRecipe = SourceRecipe(
    id: Option<int>,
    title: Option<string>,
    summary: Option<string>,
    instructions: Option<string>,
    servings: Option<int>,
    readyInMinutes: Option<int>,
    image: Option<string>,
    cuisines: Option<seq<string>>,
    diets: Option<seq<string>>,
    extendedIngredients: Option<seq<ExtIngredient>>,
    nutrition: Option<NutritionInfo>)

  // ---------- truthiness ----------

  /** Python truthiness of an optional string: None and "" are false. */
  predicate Truthy(s: Option<string>) {
    s.Some? && s.value != ""
  }

  /** `a or b` on optional strings. */
  function Or(a: Option<string>, b: Option<string>): Option<string> {
    if Truthy(a) then a else b
  }

  /** ing.get("name", default): the default for an absent key, None for a null. */
  function GetDefault(f: Field<string>, default: string): Option<string> {
    match f
    case Missing => Some(default)
    case Null => None
    case Present(v) => Some(v)
  }

  // ---------- ingredients ----------

  /** The ingredient line that is hashed and chunked:
      `original or originalName or get("name", "")`. */
  function IngredientText(ing: ExtIngredient): Option<string> {
    Or(ing.original, Or(ing.originalName, GetDefault(ing.name, "")))
  }

  /** The text is the first non-empty one of original, originalName and name, in that
      order; it is None exactly when the first two are empty or missing and the name is
      an explicit null, and "" when all three are empty or missing. */
  lemma IngredientTextFallback(ing: ExtIngredient)
    ensures Truthy(ing.original) ==> IngredientText(ing) == ing.original
    ensures !Truthy(ing.original) && Truthy(ing.originalName) ==> IngredientText(ing) == ing.originalName
    ensures !Truthy(ing.original) && !Truthy(ing.originalName) && ing.name.Present?
      ==> IngredientText(ing) == Some(ing.name.value)
    ensures IngredientText(ing) == None
      <==> !Truthy(ing.original) && !Truthy(ing.originalName) && ing.name == Null
    ensures Truthy(IngredientText(ing))
      <==> Truthy(ing.original) || Truthy(ing.originalName) || (ing.name.Present? && ing.name.value != "")
  {
  }

  /** The structured ingredient of upsert_recipe. */
  datatype IngredientItem = IngredientItem(
    name: string,
    amount: Option<real>,
    unit: Option<string>,
    grams: Option<real>,
    note: string)

  /** `get("name") or ""` */
  function NameOrEmpty(f: Field<string>): (r: string)
    ensures f.Present? ==> r == f.value
    ensures !f.Present? ==> r == ""
  {
    match f
    case Present(v) => v
    case _ => ""
  }

  function ItemOf(ing: ExtIngredient): IngredientItem {
    IngredientItem(NameOrEmpty(ing.name), ing.amount, ing.unit, None, "")
  }

  /** `extendedIngredients or []` */
  function IngredientsOf(r: SourceRecipe): seq<ExtIngredient> {
    r.extendedIngredients.GetOr([])
  }

  /** The loop of upsert_recipe over extendedIngredients: one text and one item per
      entry, in order; every item has no grams and an empty note. */
  method CollectIngredients(ings: seq<ExtIngredient>)
    returns (texts: seq<Option<string>>, items: seq<IngredientItem>)
    ensures |texts| == |ings| == |items|
    ensures forall i | 0 <= i < |ings| :: texts[i] == IngredientText(ings[i])
    ensures forall i | 0 <= i < |ings| :: items[i].name == NameOrEmpty(ings[i].name)
    ensures forall i | 0 <= i < |ings| :: items[i].amount == ings[i].amount && items[i].unit == ings[i].unit
    ensures forall i | 0 <= i < |ings| :: items[i].grams == None && items[i].note == ""
    ensures texts == MapSeq(IngredientText, ings) && items == MapSeq(ItemOf, ings)
  {
    texts, items := [], [];
    var i := 0;
    while i < |ings|
      invariant 0 <= i <= |ings|
      invariant texts == MapSeq(IngredientText, ings[..i])
      invariant items == MapSeq(ItemOf, ings[..i])
    {
      var ing := ings[i];
      texts := texts + [Or(ing.original, Or(ing.originalName, GetDefault(ing.name, "")))];
      items := items + [IngredientItem(NameOrEmpty(ing.name), ing.amount, ing.unit, None, "")];
      MapConcat(IngredientText, ings[..i], [ing]);
      MapConcat(ItemOf, ings[..i], [ing]);
      assert ings[..i + 1] == ings[..i] + [ing];
      i := i + 1;
    }
    assert ings[..i] == ings;
  }

  // ---------- the recipe row's fields ----------

  /** The columns upsert_recipe writes besides the keys, the timestamp and the
      signature. */
  datatype RecipeFields = RecipeFields(
    title: string,
    summary: Option<string>,
    instructionsRaw: Option<string>,
    instructionsPlain: Option<string>,
    servings: Option<int>,
    totalTimeMinutes: Option<int>,
    imageUrl: Option<string>,
    cuisine: seq<string>,
    diets: seq<string>,
    intolerances: seq<string>,
    lang: string,
    isSoup: bool)

  const DefaultTitle := "Untitled"
  const Lang := "de"

  /** `title or "Untitled"` */
  function TitleOf(r: SourceRecipe): string {
    if Truthy(r.title) then r.title.value else DefaultTitle
  }

  function FieldsOf(r: SourceRecipe): RecipeFields {
    var instr := Or(r.instructions, r.summary);
    RecipeFields(TitleOf(r), r.summary, instr, instr, r.servings, r.readyInMinutes, r.image,
                 r.cuisines.GetOr([]), r.diets.GetOr([]), [], Lang, true)
  }

  /** The stored title is never empty and defaults to "Untitled"; raw and plain
      instructions are the same text, the instructions when non-empty and the summary
      otherwise; absent lists become empty; intolerances are always empty, the language
      is "de" and the row is a soup. */
  lemma FieldsMapping(r: SourceRecipe)
    ensures var f := FieldsOf(r);
      && f.title != ""
      && (f.title == DefaultTitle <==> !Truthy(r.title) || r.title == Some(DefaultTitle))
      && (Truthy(r.title) ==> f.title == r.title.value)
      && f.instructionsRaw == f.instructionsPlain
      && (Truthy(r.instructions) ==> f.instructionsPlain == r.instructions)
      && (!Truthy(r.instructions) ==> f.instructionsPlain == r.summary)
      && f.summary == r.summary
      && (r.cuisines == None ==> f.cuisine == []) && (r.diets == None ==> f.diets == [])
      && f.intolerances == [] && f.lang == "de" && f.isSoup
  {
  }

  // ---------- str(id) ----------

  function DigitChar(d: nat): (c: char)
    requires d < 10
    ensures '0' <= c <= '9'
  {
    ('0' as int + d) as char
  }

  /** The decimal digits of n. */
  function NatText(n: nat): (s: string)
    ensures |s| >= 1
    ensures n < 10 <==> |s| == 1
    ensures '0' <= s[0] <= '9'
    decreases n
  {
    if n < 10 then [DigitChar(n)] else NatText(n / 10) + [DigitChar(n % 10)]
  }

  /** str(i) for an integer. */
  function IntText(i: int): (s: string)
    ensures s != [] && (s[0] == '-' <==> i < 0)
    ensures s[0] != 'N'
  {
    if i < 0 then "-" + NatText(-i) else NatText(i)
  }

  /** str(src_recipe.get("id")): "None" when the id is missing or null. */
  function IdText(id: Option<int>): string {
    match id
    case None => "None"
    case Some(i) => IntText(i)
  }

  lemma {:induction false} NatTextInjective(a: nat, b: nat)
    requires NatText(a) == NatText(b)
    ensures a == b
    decreases a
  {
    var s := NatText(a);
    if a >= 10 {
      assert b >= 10;
      assert NatText(a / 10) == s[..|s| - 1] == NatText(b / 10);
      NatTextInjective(a / 10, b / 10);
      assert DigitChar(a % 10) == s[|s| - 1] == DigitChar(b % 10);
    } else {
      assert DigitChar(a) == s[0] == DigitChar(b);
    }
  }

  lemma IntTextInjective(x: int, y: int)
    requires IntText(x) == IntText(y)
    ensures x == y
  {
    var s := IntText(x);
    if x < 0 {
      assert s[1..] == NatText(-x) == NatText(-y);
      NatTextInjective(-x, -y);
    } else {
      NatTextInjective(x, y);
    }
  }

  /** Different record ids are stored under different source_recipe_id strings, and
      none of them collides with the text of a missing id. */
  lemma IdTextInjective(a: Option<int>, b: Option<int>)
    ensures IdText(a) == IdText(b) <==> a == b
  {
    if IdText(a) == IdText(b) && a.Some? && b.Some? {
      IntTextInjective(a.value, b.value);
    }
  }

  // ---------- nutrients ----------

  /** `(src_recipe.get("nutrition") or {}).get("nutrients") or []` */
  function NutrientsOf(r: SourceRecipe): seq<Nutrient> {
    match r.nutrition
    case None => []
    case Some(info) => info.nutrients.GetOr([])
  }

  function NutrientKey(n: Nutrient): string {
    NormOrEmpty(n.name)
  }

  /** {key(x): x for x in xs}: a later entry with the same key replaces an earlier one. */
  function IndexBy<T, K>(key: T -> K, xs: seq<T>): map<K, T>
    decreases |xs|
  {
    if xs == [] then map[]
    else IndexBy(key, xs[..|xs| - 1])[key(xs[|xs| - 1]) := xs[|xs| - 1]]
  }

  /** The index of the last entry whose key is k, if any. */
  function LastWithKey<T, K(==)>(key: T -> K, xs: seq<T>, k: K): (r: Option<nat>)
    ensures r.Some? ==> r.value < |xs| && key(xs[r.value]) == k
    ensures r.Some? ==> forall i | r.value < i < |xs| :: key(xs[i]) != k
    ensures r.None? ==> forall i | 0 <= i < |xs| :: key(xs[i]) != k
    decreases |xs|
  {
    if xs == [] then None
    else if key(xs[|xs| - 1]) == k then Some(|xs| - 1)
    else LastWithKey(key, xs[..|xs| - 1], k)
  }

  /** A string is a key of the index exactly when some entry has it as its key, and it
      maps to the last such entry. */
  lemma {:induction false} IndexByLastWins<T, K>(key: T -> K, xs: seq<T>, k: K)
    ensures k in IndexBy(key, xs) <==> LastWithKey(key, xs, k).Some?
    ensures k in IndexBy(key, xs) ==> IndexBy(key, xs)[k] == xs[LastWithKey(key, xs, k).value]
    decreases |xs|
  {
    if xs != [] {
      var pre := xs[..|xs| - 1];
      IndexByLastWins(key, pre, k);
      if key(xs[|xs| - 1]) != k {
        var r := LastWithKey(key, pre, k);
        if r.Some? {
          assert xs[r.value] == pre[r.value];
        }
      }
    }
  }

  /** {norm(n.get("name", "")): n for n in nutrients} */
  function ByName(ns: seq<Nutrient>): map<string, Nutrient> {
    IndexBy(NutrientKey, ns)
  }

  /** `(byname.get(k) or {}).get("amount")`; a stored nutrient is never an empty dict. */
  function AmountOf(byname: map<string, Nutrient>, k: string): Option<real> {
    if k in byname then byname[k].amount else None
  }

  /** The nutrition row's values. */
  datatype NutritionFacts = NutritionFacts(
    kcal: Option<real>,
    protein: Option<real>,
    carbs: Option<real>,
    fat: Option<real>,
    fiber: Option<real>,
    sugar: Option<real>,
    sodium: Option<real>)

  function FactsOf(r: SourceRecipe): NutritionFacts {
    var byname := ByName(NutrientsOf(r));
    var carbs := if "carbohydrates" in byname then AmountOf(byname, "carbohydrates")
                 else AmountOf(byname, "carbs");
    NutritionFacts(AmountOf(byname, "calories"), AmountOf(byname, "protein"), carbs,
                   AmountOf(byname, "fat"), AmountOf(byname, "fiber"),
                   AmountOf(byname, "sugar"), AmountOf(byname, "sodium"))
  }

  /** The amount recorded for a normalised nutrient name: that of the last nutrient
      with that name, or None when there is none. */
  function Lookup(ns: seq<Nutrient>, k: string): Option<real> {
    match LastWithKey(NutrientKey, ns, k)
    case None => None
    case Some(i) => ns[i].amount
  }

  /** Each value is the amount of the last nutrient whose normalised name matches, and
      None when no nutrient matches; for carbs, "carbohydrates" is looked up first and
      "carbs" only when no nutrient is called "carbohydrates". */
  lemma FactsLookup(r: SourceRecipe)
    ensures var f := FactsOf(r);
      var ns := NutrientsOf(r);
      && f.kcal == Lookup(ns, "calories")
      && f.protein == Lookup(ns, "protein")
      && f.fat == Lookup(ns, "fat")
      && f.fiber == Lookup(ns, "fiber")
      && f.sugar == Lookup(ns, "sugar")
      && f.sodium == Lookup(ns, "sodium")
      && f.carbs == (if LastWithKey(NutrientKey, ns, "carbohydrates").Some? then Lookup(ns, "carbohydrates")
                     else Lookup(ns, "carbs"))
  {
    var ns := NutrientsOf(r);
    IndexByLastWins(NutrientKey, ns, "calories");
    IndexByLastWins(NutrientKey, ns, "protein");
    IndexByLastWins(NutrientKey, ns, "carbohydrates");
    IndexByLastWins(NutrientKey, ns, "carbs");
    IndexByLastWins(NutrientKey, ns, "fat");
    IndexByLastWins(NutrientKey, ns, "fiber");
    IndexByLastWins(NutrientKey, ns, "sugar");
    IndexByLastWins(NutrientKey, ns, "sodium");
  }

  /** A nutrient is found under the normal form of its name, whatever the case and
      spacing of the name as sent. */
  lemma LookupByNormalForm(ns: seq<Nutrient>, i: nat, spelled: string)
    requires i < |ns| && ns[i].name.Some? && Norm(ns[i].name.value) == Norm(spelled)
    ensures LastWithKey(NutrientKey, ns, Norm(spelled)).Some?
    ensures i <= LastWithKey(NutrientKey, ns, Norm(spelled)).value
  {
    assert NutrientKey(ns[i]) == Norm(spelled);
  }
}

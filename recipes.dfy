/** `app/data/recipes.py`: the crafting recipes.  Ingredient and result maps keep their
    literal order and name items by key (an item's identity); item descriptions come from
    item definitions that are not part of this model, so the table takes them as `describe`. */
module Recipes {

  import opened Common

  /** `dict[Item, int]` in insertion order, keyed by item key. */
  type Counts = seq<(string, int)>

  datatype Recipe = Recipe(
    key: string,
    name: string,
    description: string,
    price: int,
    ingredients: Counts,
    result: Counts)

  /** Distinct keys, as in a dict. */
  predicate DistinctKeys(m: Counts)
  {
    forall i, j :: 0 <= i < j < |m| ==> m[i].0 != m[j].0
  }

  /** The recipe attributes of `Recipes`, in `dir()` (alphabetical) order. */
  function RecipeTable(describe: string -> string): Collection<Recipe>
  {
    [ ("diamond_pickaxe", Recipe("diamond_pickaxe", "Diamond Pickaxe", describe("diamond_pickaxe"),
                                 100_000, [("pickaxe", 3), ("diamond", 3)], [("diamond_pickaxe", 1)])),
      ("durable_pickaxe", Recipe("durable_pickaxe", "Durable Pickaxe", describe("durable_pickaxe"),
                                 10_000, [("pickaxe", 3), ("iron", 3)], [("durable_pickaxe", 1)])),
      ("durable_shovel", Recipe("durable_shovel", "Durable Shovel", describe("durable_shovel"),
                                10_000, [("shovel", 3), ("iron", 3)], [("durable_shovel", 1)])),
      ("fish_bait", Recipe("fish_bait", "Fish Bait", describe("fish_bait"),
                           50, [("worm", 3)], [("fish_bait", 1)])) ]
  }

  /** The shape every recipe has and the crafting code relies on: a positive price, a
      non-empty ingredient map with positive quantities and distinct items, and a single
      result of one unit whose description is the recipe's. */
  predicate WellFormed(r: Recipe, describe: string -> string)
  {
    r.price > 0
    && |r.ingredients| > 0 && DistinctKeys(r.ingredients)
    && (forall i :: 0 <= i < |r.ingredients| ==> r.ingredients[i].1 > 0)
    && |r.result| == 1 && r.result[0].1 == 1
    && r.description == describe(r.result[0].0)
  }

  /** Every entry of the table is well formed and sits under an attribute named by its key. */
  lemma TableWellFormed(describe: string -> string)
    ensures forall i :: 0 <= i < |RecipeTable(describe)| ==>
      RecipeTable(describe)[i].0 == RecipeTable(describe)[i].1.key
      && WellFormed(RecipeTable(describe)[i].1, describe)
      && Public(RecipeTable(describe)[i].0)
  {
    var t := RecipeTable(describe);
    forall i | 0 <= i < |t|
      ensures t[i].0 == t[i].1.key && WellFormed(t[i].1, describe) && Public(t[i].0)
    {
      PublicByFirst(t[i].0);
    }
  }

  /** The four recipes have four distinct keys. */
  lemma TableKeysDistinct(describe: string -> string)
    ensures forall i, j :: 0 <= i < j < |RecipeTable(describe)| ==>
      RecipeTable(describe)[i].1.key != RecipeTable(describe)[j].1.key
  {
  }

  function KeyOf(r: Recipe): Results.Option<string> { Results.Some(r.key) }

  /** The recipe whose key is `key`, if any (crafting is by recipe key). */
  function RecipeByKey(describe: string -> string, key: string): Results.Option<Recipe>
  {
    GetByKey(RecipeTable(describe), KeyOf, key)
  }

  /** Looking up by key finds a recipe exactly when one of the table's recipes has that
      key, and what it finds is that recipe: well formed and under its own key. */
  lemma RecipeByKeySpec(describe: string -> string, key: string)
    ensures RecipeByKey(describe, key).Some? <==>
      exists i :: 0 <= i < |RecipeTable(describe)| && RecipeTable(describe)[i].1.key == key
    ensures RecipeByKey(describe, key).Some? ==>
      var r := RecipeByKey(describe, key).value;
      r.key == key && WellFormed(r, describe)
      && exists i :: 0 <= i < |RecipeTable(describe)| && RecipeTable(describe)[i].1 == r
  {
    var t := RecipeTable(describe);
    TableWellFormed(describe);
    GetByKeySpec(t, KeyOf, key);
    if RecipeByKey(describe, key).Some? {
      var i :| FirstKeyed(t, KeyOf, key, i) && RecipeByKey(describe, key).value == t[i].1;
    } else {
      forall i | 0 <= i < |t| ensures t[i].1.key != key {
        assert !(Public(t[i].0) && KeyOf(t[i].1) == Results.Some(key));
      }
    }
  }
}

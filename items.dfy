/** `app/data/items.py`: the item dataclass, its construction-time defaults and its
    phrasing helpers.  An item is built once, when the `Items` class body runs, and is
    used as an immutable value from then on, so it is a datatype here and the
    `__post_init__` defaults are applied by the constructor function `NewItem`. */
module Items {

  import opened Results
  import opened Numeric
  import opened Text
  import opened Common

  datatype ItemType = Tool

  /** An item after `__post_init__`.  A callback is named by an identifier (`None` when
      unset); the callback bodies themselves are not part of this model. */
  datatype Item = Item(
    itemType: ItemType,
    key: string,
    name: string,
    emoji: string,
    description: string,
    price: int,
    sell: int,
    buyable: bool,
    sellable: bool,
    giftable: bool,
    dispose: bool,
    singular: string,
    plural: string,
    usageCallback: Option<string>,
    removalCallback: Option<string>)

  /** Python truthiness of an optional string or integer field. */
  predicate TruthyStr(s: Option<string>) { s.Some? && s.value != [] }
  predicate TruthyInt(n: Option<int>) { n.Some? && n.value != 0 }

  /** `name.lower().startswith(tuple('aeiou'))`: lower-casing goes character by
      character, so only the first character's lower case matters. */
  predicate StartsWithVowel(name: string)
  {
    name != [] && LowerChar(name[0]) in "aeiou"
  }

  /** The `sell` default: `round(price / 2.7)`, computed exactly as `round(price * 10 / 27)`. */
  function DefaultSell(price: int): (s: int)
    ensures (price as real) * 10.0 / 27.0 - 0.5 <= s as real <= (price as real) * 10.0 / 27.0 + 0.5
  {
    Round(price as real * 10.0 / 27.0)
  }

  /** The dataclass constructor followed by `__post_init__`: a falsy `singular` becomes
      `an`/`a` by the first letter, a falsy `sell` half-ish the price, a falsy `plural`
      the name plus `s`. */
  function NewItem(itemType: ItemType, key: string, name: string, emoji: string, description: string,
                   price: int, sell: Option<int>, buyable: bool, sellable: bool, giftable: bool,
                   dispose: bool, singular: Option<string>, plural: Option<string>): (item: Item)
    ensures item.key == key && item.name == name && item.price == price
    ensures item.singular == (if TruthyStr(singular) then singular.value
                              else if StartsWithVowel(name) then "an" else "a")
    ensures item.sell == (if TruthyInt(sell) then sell.value else DefaultSell(price))
    ensures item.plural == (if TruthyStr(plural) then plural.value else name + "s")
    ensures item.usageCallback.None? && item.removalCallback.None?
  {
    Item(itemType, key, name, emoji, description, price,
         if TruthyInt(sell) then sell.value else DefaultSell(price),
         buyable, sellable, giftable, dispose,
         if TruthyStr(singular) then singular.value else if StartsWithVowel(name) then "an" else "a",
         if TruthyStr(plural) then plural.value else name + "s",
         None, None)
  }

  /** Running the defaults again on a finished item changes nothing: the filled-in
      `singular` and `plural` are never empty, and a zero `sell` is recomputed to zero. */
  lemma PostInitIdempotent(itemType: ItemType, key: string, name: string, emoji: string, description: string,
                           price: int, sell: Option<int>, buyable: bool, sellable: bool, giftable: bool,
                           dispose: bool, singular: Option<string>, plural: Option<string>)
    ensures var item := NewItem(itemType, key, name, emoji, description, price, sell, buyable, sellable,
                                giftable, dispose, singular, plural);
      item.singular != [] && item.plural != []
      && NewItem(itemType, key, name, emoji, description, price, Some(item.sell), buyable, sellable,
                 giftable, dispose, Some(item.singular), Some(item.plural)) == item
  {
  }

  /** The dataclass field defaults: no `sell`, not buyable, sellable, giftable, not disposed. */
  function NewItemWithDefaults(itemType: ItemType, key: string, name: string, emoji: string,
                               description: string, price: int, buyable: bool): Item
  {
    NewItem(itemType, key, name, emoji, description, price, None, buyable, true, true, false, None, None)
  }

  /** `__hash__` and `__str__`: both are the key and nothing else. */
  function Str(item: Item): (s: string)
    ensures s == item.key
  {
    item.key
  }

  predicate Usable(item: Item) { item.usageCallback.Some? }
  predicate Removable(item: Item) { item.removalCallback.Some? }

  /** `to_use` / `to_remove`: register a callback. */
  function ToUse(item: Item, callback: string): (r: Item)
    ensures Usable(r) && r.removalCallback == item.removalCallback
    ensures r.(usageCallback := item.usageCallback) == item
  {
    item.(usageCallback := Some(callback))
  }

  function ToRemove(item: Item, callback: string): (r: Item)
    ensures Removable(r) && r.usageCallback == item.usageCallback
    ensures r.(removalCallback := item.removalCallback) == item
  {
    item.(removalCallback := Some(callback))
  }

  /** `'{} **{}**'` or `'{} {}'` formatted with emoji and a name, then stripped. */
  function Middle(emoji: string, name: string, bold: bool): string
  {
    Strip(emoji + " " + (if bold then "**" + name + "**" else name))
  }

  /** `get_display_name`. */
  function DisplayName(item: Item, bold: bool): string
  {
    Middle(item.emoji, item.name, bold)
  }

  /** `get_sentence_chunk`: the article and the name for exactly one, otherwise the
      number and the plural. */
  function SentenceChunk(item: Item, quantity: int, bold: bool): string
  {
    var quantifier := if quantity != 1 then DecimalString(quantity) else item.singular;
    quantifier + " " + Middle(item.emoji, if quantity == 1 then item.name else item.plural, bold)
  }

  /** With an emoji that has no surrounding whitespace, the bold middle part is
      "<emoji> **<word>**"; with the emoji empty the strip drops the separating space. */
  lemma MiddleBold(emoji: string, word: string)
    requires emoji == [] || (!IsSpace(emoji[0]) && !IsSpace(emoji[|emoji| - 1]))
    ensures Middle(emoji, word, true) == (if emoji == [] then "" else emoji + " ") + ("**" + word + "**")
  {
    var tail := "**" + word + "**";
    var whole := emoji + " " + tail;
    if emoji == [] {
      assert whole == " " + tail;
      StripOneLeadingSpace(tail);
    } else {
      assert whole[0] == emoji[0];
      assert whole[|whole| - 1] == '*';
      StripUnpadded(whole);
    }
  }

  /** The bold sentence chunk reads "<article> <emoji> **<name>**" for one item and
      "<count> <emoji> **<plural>**" for any other quantity. */
  lemma SentenceChunkBold(item: Item, quantity: int)
    requires item.emoji == [] || (!IsSpace(item.emoji[0]) && !IsSpace(item.emoji[|item.emoji| - 1]))
    ensures var word := if quantity == 1 then item.name else item.plural;
      var quantifier := if quantity == 1 then item.singular else DecimalString(quantity);
      SentenceChunk(item, quantity, true)
      == quantifier + " " + ((if item.emoji == [] then "" else item.emoji + " ") + ("**" + word + "**"))
  {
    var word := if quantity == 1 then item.name else item.plural;
    MiddleBold(item.emoji, word);
  }

  /** The display name of an item with a tidy emoji: "<emoji> <name>" (bold: "**<name>**"). */
  lemma DisplayNameShape(item: Item, bold: bool)
    requires item.emoji != [] && !IsSpace(item.emoji[0])
    requires bold || (item.name != [] && !IsSpace(item.name[|item.name| - 1]))
    ensures DisplayName(item, bold) == item.emoji + " " + (if bold then "**" + item.name + "**" else item.name)
  {
    var whole := item.emoji + " " + (if bold then "**" + item.name + "**" else item.name);
    assert whole[0] == item.emoji[0];
    assert whole[|whole| - 1] == (if bold then '*' else item.name[|item.name| - 1]);
    StripUnpadded(whole);
  }

  // ---- the catalog ----

  /** `Items.lifesaver`, the one item whose definition is part of this model. */
  const Lifesaver: Item := NewItemWithDefaults(Tool, "lifesaver", "Lifesaver",
    "<:lifesaver:934608079947964447>", "These quite literally save your life.", 4200, true)

  /** The `Items` class as seen by `dir()`: the visible `lifesaver` plus whatever other
      items a deployment defines, given as a parameter wherever the catalog is needed. */
  function KeyOf(item: Item): Option<string> { Some(item.key) }

  /** `get_by_key(Items, key)`. */
  function ItemByKey(catalog: Collection<Item>, key: string): (r: Option<Item>)
    ensures r.Some? ==> r.value.key == key
  {
    GetByKeySpec(catalog, KeyOf, key);
    GetByKey(catalog, KeyOf, key)
  }

  /** A catalog in which every public attribute holds an item with a distinct key. */
  predicate KeysDistinct(catalog: Collection<Item>)
  {
    forall i, j :: 0 <= i < j < |catalog| && Public(catalog[i].0) && Public(catalog[j].0)
      ==> catalog[i].1.key != catalog[j].1.key
  }

  /** In a catalog with distinct keys, looking an item up by its own key finds it. */
  lemma ItemByOwnKey(catalog: Collection<Item>, i: nat)
    requires KeysDistinct(catalog) && i < |catalog| && Public(catalog[i].0)
    ensures ItemByKey(catalog, catalog[i].1.key) == Some(catalog[i].1)
  {
    var key := catalog[i].1.key;
    GetByKeySpec(catalog, KeyOf, key);
    var r := GetByKey(catalog, KeyOf, key);
    assert KeyOf(catalog[i].1) == Some(key);
    var k :| FirstKeyed(catalog, KeyOf, key, k) && r.value == catalog[k].1;
    assert k == i;
  }
}

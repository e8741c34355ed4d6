/** `app/extensions/transactions.py`: the commands that move coins and items between a
    user's wallet, bank and inventory, or between two users, and the recipe engine.
    The command framework runs a command's argument converter before the command body,
    so the bank commands are modelled together with their converter, and the item
    commands receive the converted value under a precondition (`Converted`,
    `EntityConverted`) that lemmas prove every accepted value meets.  Confirmation
    prompts, button clicks and the random bonus draws are parameters. */
module Transactions {

  import opened Results
  import opened Numeric
  import opened Text
  import opened Common
  import opened Items
  import opened Recipes
  import C = Converters
  import opened Database

  /** How a command ends: it went through, it answered with a refusal, or one of its
      converters rejected the argument (several for a union of converters). */
  datatype Outcome = Done | Refused(message: string) | Failed(errors: seq<C.ConversionError>)

  // ---- random bonuses ----

  /** The item commands draw their bonuses between 10 and 15. */
  predicate ValidDraw(d: Draw) { DrawnWithin(d, 10, 15) }

  /** The two bonus draws that buy, sell and use begin with. */
  method Bonuses(record: UserRecord, exp: Draw, space: Draw)
    requires record.Fetched() && ValidDraw(exp) && ValidDraw(space)
    modifies record`data
    ensures record.Fetched()
    ensures record.data == Bonused(old(record.data), exp, space)
  {
    var _ := record.AddRandomExp(exp.lucky, exp.amount, 10, 15);
    var _ := record.AddRandomBankSpace(space.lucky, space.amount, 10, 15);
  }

  // ---- the bank ----

  /** The body of withdraw and deposit: `add(wallet=..., bank=...)` moving `amount`. */
  method Transfer(record: UserRecord, from: Field, to: Field, amount: int)
    requires record.Fetched() && from != to
    modifies record`data
    ensures record.Fetched()
    ensures record.data == Transferred(old(record.data), from, to, amount)
  {
    AddToTransferred(record.data, from, to, amount);
    record.Add(map[from := -amount, to := amount]);
  }

  /** `withdraw`: the amount `BankTransaction(WITHDRAW)` converts moves from the bank into
      the wallet; a rejected argument changes nothing. */
  method Withdraw(record: UserRecord, arg: string) returns (r: Result<int, C.ConversionError>)
    requires record.Fetched()
    modifies record`data
    ensures record.Fetched()
    ensures r == C.BankTransaction(C.Withdraw, old(record.data[Wallet]), old(record.data[Bank]), old(record.data[MaxBank]), arg)
    ensures r.Err? ==> record.data == old(record.data)
    ensures r.Ok? ==> record.data == Transferred(old(record.data), Bank, Wallet, r.value)
    ensures record.TotalCoins() == old(record.TotalCoins())
  {
    r := C.BankTransaction(C.Withdraw, record.data[Wallet], record.data[Bank], record.data[MaxBank], arg);
    if r.Ok? {
      TransferKeepsCoins(record.data, Bank, Wallet, r.value);
      Transfer(record, Bank, Wallet, r.value);
    }
  }

  /** `deposit`: the amount `BankTransaction(DEPOSIT)` converts moves from the wallet
      into the bank. */
  method Deposit(record: UserRecord, arg: string) returns (r: Result<int, C.ConversionError>)
    requires record.Fetched()
    modifies record`data
    ensures record.Fetched()
    ensures r == C.BankTransaction(C.Deposit, old(record.data[Wallet]), old(record.data[Bank]), old(record.data[MaxBank]), arg)
    ensures r.Err? ==> record.data == old(record.data)
    ensures r.Ok? ==> record.data == Transferred(old(record.data), Wallet, Bank, r.value)
    ensures record.TotalCoins() == old(record.TotalCoins())
  {
    r := C.BankTransaction(C.Deposit, record.data[Wallet], record.data[Bank], record.data[MaxBank], arg);
    if r.Ok? {
      TransferKeepsCoins(record.data, Wallet, Bank, r.value);
      Transfer(record, Wallet, Bank, r.value);
    }
  }

  /** A withdrawal or deposit keeps the user's total coins and keeps a sound account
      sound: a deposit never overfills the bank, neither ever overdraws. */
  lemma BankTransactionSound(kind: C.BankMethod, d: map<Field, int>, arg: string)
    requires Complete(d)
    requires C.BankTransaction(kind, d[Wallet], d[Bank], d[MaxBank], arg).Ok?
    ensures var v := C.BankTransaction(kind, d[Wallet], d[Bank], d[MaxBank], arg).value;
      var (from, to) := if kind == C.Withdraw then (Bank, Wallet) else (Wallet, Bank);
      var after := Transferred(d, from, to, v);
      after[Wallet] + after[Bank] == d[Wallet] + d[Bank]
      && (SolventRow(d) ==> SolventRow(after))
  {
    var v := C.BankTransaction(kind, d[Wallet], d[Bank], d[MaxBank], arg).value;
    if kind == C.Withdraw {
      assert 0 < v <= d[Bank];
      if SolventRow(d) {
        TransferredSolvent(d, Bank, Wallet, v);
      }
    } else {
      assert 0 < v <= d[Wallet] && d[Bank] + v <= d[MaxBank];
      if SolventRow(d) {
        TransferredSolvent(d, Wallet, Bank, v);
      }
    }
  }

  // ---- items resolved by the converters come from the catalog ----

  lemma QueriedFromCatalog(catalog: Collection<Item>, similar: (string, string) -> bool, query: string)
    ensures C.TryQueryItem(catalog, similar, query).Some? ==>
      C.TryQueryItem(catalog, similar, query).value in WalkCollection(catalog, C.AnyItem)
  {
    QueryResultSound(WalkCollection(catalog, C.AnyItem), C.ItemName, query, similar);
  }

  lemma ResolvedFromCatalog(catalog: Collection<Item>, similar: (string, string) -> bool, argument: string)
    ensures C.ResolveItem(catalog, similar, argument).0.Some? ==>
      C.ResolveItem(catalog, similar, argument).0.value in WalkCollection(catalog, C.AnyItem)
  {
    var r := C.ResolveItem(catalog, similar, argument).0;
    var words := Split(argument);
    if C.TryQueryItem(catalog, similar, argument).Some? {
      assert r == C.TryQueryItem(catalog, similar, argument);
      QueriedFromCatalog(catalog, similar, argument);
    } else if |words| > 1 {
      var last := Join(words[..|words| - 1], " ");
      var first := Join(words[1..], " ");
      C.ResolveLastThenFirst(catalog, similar, argument);
      assert r == C.TryQueryItem(catalog, similar, last) || r == C.TryQueryItem(catalog, similar, first);
      QueriedFromCatalog(catalog, similar, last);
      QueriedFromCatalog(catalog, similar, first);
    } else {
      assert r == None;
    }
  }

  /** An item walked from the catalog is found again by its key. */
  lemma CatalogItemKnown(catalog: Collection<Item>, item: Item)
    requires item in WalkCollection(catalog, C.AnyItem)
    ensures Known(catalog, item.key)
  {
    WalkCollectionMembers(catalog, C.AnyItem, item);
    var i :| 0 <= i < |catalog| && catalog[i].1 == item && Public(catalog[i].0);
    GetByKeySpec(catalog, Items.KeyOf, item.key);
    assert Items.KeyOf(catalog[i].1) == Some(item.key);
  }

  /** The item a converter hands to a command is a catalog item, so the inventory
      caches it. */
  lemma ConvertedItemKnown(kind: C.ItemMethod, catalog: Collection<Item>, similar: (string, string) -> bool,
                           wallet: int, cached: map<string, int>, argument: string)
    requires C.ItemAndQuantityConvert(kind, catalog, similar, wallet, cached, argument).Ok?
    ensures Known(catalog, C.ItemAndQuantityConvert(kind, catalog, similar, wallet, cached, argument).value.item.key)
  {
    ResolvedFromCatalog(catalog, similar, argument);
    CatalogItemKnown(catalog, C.ItemAndQuantityConvert(kind, catalog, similar, wallet, cached, argument).value.item);
  }

  /** What `ItemAndQuantityConverter(kind)` guarantees of the item and quantity it hands
      to a command: a catalog item carrying the flag the kind needs and at least one of
      it; for a purchase a non-zero price whose total the wallet pays when positive, for
      every other kind no more than the author holds. */
  predicate Converted(kind: C.ItemMethod, catalog: Collection<Item>, wallet: int, cached: map<string, int>,
                      c: C.ItemAndQuantity)
  {
    Known(catalog, c.item.key) && C.Allowed(kind, c.item) && c.quantity >= 1
    && (kind == C.Buy ==> c.item.price != 0 && (c.item.price > 0 ==> c.item.price * c.quantity <= wallet))
    && (kind != C.Buy ==> c.quantity <= Count(cached, c.item.key))
  }

  /** Every value the item converter accepts meets `Converted`. */
  lemma ConvertItemSound(kind: C.ItemMethod, catalog: Collection<Item>, similar: (string, string) -> bool,
                         wallet: int, cached: map<string, int>, argument: string)
    requires C.ItemAndQuantityConvert(kind, catalog, similar, wallet, cached, argument).Ok?
    ensures Converted(kind, catalog, wallet, cached, C.ItemAndQuantityConvert(kind, catalog, similar, wallet, cached, argument).value)
  {
    C.ItemAndQuantityBounds(kind, catalog, similar, wallet, cached, argument);
    ConvertedItemKnown(kind, catalog, similar, wallet, cached, argument);
  }

  // ---- buy, sell, use ----

  /** The record after the two bonus draws and a change of the wallet. */
  function Settled(d: map<Field, int>, exp: Draw, space: Draw, wallet: int): (r: map<Field, int>)
    requires Complete(d)
    ensures Complete(r) && r.Keys == d.Keys
    ensures r[Wallet] == d[Wallet] + wallet && r[Bank] == d[Bank]
    ensures r[Exp] == d[Exp] + Gain(exp) && r[MaxBank] == d[MaxBank] + Gain(space)
    ensures forall f :: f in d && f !in {Wallet, Exp, MaxBank} ==> r[f] == d[f]
  {
    d[Exp := d[Exp] + Gain(exp)][MaxBank := d[MaxBank] + Gain(space)][Wallet := d[Wallet] + wallet]
  }

  /** The cached counts after `add_item(key, delta)` on a catalog item: its count moves
      by `delta`, and no other entry changes. */
  predicate Shifted(before: map<string, int>, after: map<string, int>, key: string, delta: int)
  {
    after == before[key := Count(before, key) + delta]
  }

  /** The body of buy and sell: the bonuses, `add(wallet=...)`, then `add_item`. */
  method Settle(record: UserRecord, exp: Draw, space: Draw, wallet: int, key: string, delta: int)
    requires record.Valid() && ValidDraw(exp) && ValidDraw(space) && Known(record.inventory.catalog, key)
    modifies record`data, record.inventory
    ensures record.Valid()
    ensures record.data == Settled(old(record.data), exp, space, wallet)
    ensures Shifted(old(record.inventory.cached), record.inventory.cached, key, delta)
  {
    Bonuses(record, exp, space);
    record.Add(map[Wallet := wallet]);
    record.inventory.AddItem(ByItem(key), delta);
  }

  /** `buy`, given what the converter accepted: after confirmation, the bonuses are drawn,
      the price of the whole quantity leaves the wallet and the items enter the inventory. */
  method Buy(record: UserRecord, c: C.ItemAndQuantity, confirmed: bool, exp: Draw, space: Draw) returns (o: Outcome)
    requires record.Valid() && ValidDraw(exp) && ValidDraw(space)
    requires Converted(C.Buy, record.inventory.catalog, record.data[Wallet], record.inventory.cached, c)
    modifies record`data, record.inventory
    ensures record.Valid()
    ensures !confirmed ==>
      o == Refused("Cancelled purchase.")
      && record.data == old(record.data) && record.inventory.cached == old(record.inventory.cached)
    ensures confirmed ==>
      o == Done
      && record.data == Settled(old(record.data), exp, space, -(c.item.price * c.quantity))
      && Shifted(old(record.inventory.cached), record.inventory.cached, c.item.key, c.quantity)
  {
    if !confirmed {
      return Refused("Cancelled purchase.");
    }
    Settle(record, exp, space, -(c.item.price * c.quantity), c.item.key, c.quantity);
    o := Done;
  }

  /** A purchase never overdraws the wallet, and leaves a sound account sound. */
  lemma BuyKeepsSolvent(catalog: Collection<Item>, d: map<Field, int>, cached: map<string, int>,
                        c: C.ItemAndQuantity, exp: Draw, space: Draw)
    requires Complete(d) && SolventRow(d) && ValidDraw(exp) && ValidDraw(space)
    requires Converted(C.Buy, catalog, d[Wallet], cached, c)
    ensures SolventRow(Settled(d, exp, space, -(c.item.price * c.quantity)))
  {
    if c.item.price < 0 {
      assert c.item.price * c.quantity <= c.item.price * 1;
    }
  }

  /** `sell`, given what the converter accepted: after confirmation, the bonuses are
      drawn, the sale value of the whole quantity enters the wallet and the items leave
      the inventory. */
  method Sell(record: UserRecord, c: C.ItemAndQuantity, confirmed: bool, exp: Draw, space: Draw) returns (o: Outcome)
    requires record.Valid() && ValidDraw(exp) && ValidDraw(space)
    requires Converted(C.Sell, record.inventory.catalog, record.data[Wallet], record.inventory.cached, c)
    modifies record`data, record.inventory
    ensures record.Valid()
    ensures !confirmed ==>
      o == Refused("Cancelled transaction.")
      && record.data == old(record.data) && record.inventory.cached == old(record.inventory.cached)
    ensures confirmed ==>
      o == Done
      && record.data == Settled(old(record.data), exp, space, c.item.sell * c.quantity)
      && Shifted(old(record.inventory.cached), record.inventory.cached, c.item.key, -c.quantity)
  {
    if !confirmed {
      return Refused("Cancelled transaction.");
    }
    Settle(record, exp, space, c.item.sell * c.quantity, c.item.key, -c.quantity);
    o := Done;
  }

  /** A sale leaves a non-negative count of the item, strictly below the one before. */
  lemma SellKeepsCount(catalog: Collection<Item>, wallet: int, cached: map<string, int>,
                       c: C.ItemAndQuantity, after: map<string, int>)
    requires Converted(C.Sell, catalog, wallet, cached, c) && Shifted(cached, after, c.item.key, -c.quantity)
    ensures 0 <= Count(after, c.item.key) < Count(cached, c.item.key)
  {
  }

  /** `Item.use` as written: the usage callback is awaited and nothing is returned. */
  function ItemUseAsWritten(item: Item, quantity: int): (r: Option<int>)
    ensures r.None?
  {
    None
  }

  /** `use` as written: the bonuses are drawn, then comparing `Item.use`'s result with
      zero raises a TypeError, so a disposable item is never taken out of the inventory. */
  method UseAsWritten(record: UserRecord, c: C.ItemAndQuantity, exp: Draw, space: Draw) returns (o: Outcome)
    requires record.Valid() && ValidDraw(exp) && ValidDraw(space)
    requires Converted(C.Use, record.inventory.catalog, record.data[Wallet], record.inventory.cached, c)
    modifies record`data
    ensures record.Valid()
    ensures o == Failed([C.Unhandled("TypeError")])
    ensures record.data == Settled(old(record.data), exp, space, 0)
    ensures record.inventory.cached == old(record.inventory.cached)
  {
    Bonuses(record, exp, space);
    var used := ItemUseAsWritten(c.item, c.quantity);
    // `used > 0` is evaluated before `add_item` could be reached
    o := if used.None? then Failed([C.Unhandled("TypeError")]) else Done;
  }

  /** `use` with `Item.use` returning the count its callback reports as used (`used`):
      the bonuses are drawn, and a disposable item loses exactly that many when it is
      positive. */
  method Use(record: UserRecord, c: C.ItemAndQuantity, exp: Draw, space: Draw, used: int) returns (o: Outcome)
    requires record.Valid() && ValidDraw(exp) && ValidDraw(space)
    requires Converted(C.Use, record.inventory.catalog, record.data[Wallet], record.inventory.cached, c)
    modifies record`data, record.inventory
    ensures record.Valid() && o == Done
    ensures record.data == Settled(old(record.data), exp, space, 0)
    ensures used > 0 && c.item.dispose ==> Shifted(old(record.inventory.cached), record.inventory.cached, c.item.key, -used)
    ensures !(used > 0 && c.item.dispose) ==> record.inventory.cached == old(record.inventory.cached)
  {
    Bonuses(record, exp, space);
    if used > 0 && c.item.dispose {
      record.inventory.AddItem(ByItem(c.item.key), -used);
    }
    o := Done;
  }

  // ---- share and drop ----

  /** What share and drop move: coins, or a quantity of an item. */
  datatype Entity = Coins(amount: int) | Goods(item: Item, quantity: int)

  function Size(e: Entity): int
  {
    match e
    case Coins(n) => n
    case Goods(_, q) => q
  }

  /** `DropAmount | ItemAndQuantityConverter(DROP)`: coins when the argument is an amount,
      otherwise an item and quantity; when both reject it, both errors are reported. */
  function ConvertEntity(catalog: Collection<Item>, similar: (string, string) -> bool,
                         wallet: int, cached: map<string, int>, argument: string): Result<Entity, seq<C.ConversionError>>
  {
    var coins := C.DropAmount(wallet, argument);
    if coins.Ok? then Ok(Coins(coins.value))
    else
      var goods := C.ItemAndQuantityConvert(C.Drop, catalog, similar, wallet, cached, argument);
      if goods.Ok? then Ok(Goods(goods.value.item, goods.value.quantity))
      else Err([coins.error, goods.error])
  }

  /** What the union converter guarantees: at least one unit, no more coins than the
      wallet holds, or a giftable catalog item no more than the author holds. */
  predicate EntityConverted(catalog: Collection<Item>, wallet: int, cached: map<string, int>, e: Entity)
  {
    match e
    case Coins(n) => 1 <= n <= wallet
    case Goods(item, q) => Converted(C.Drop, catalog, wallet, cached, C.ItemAndQuantity(item, q))
  }

  /** Every entity the union converter accepts meets `EntityConverted`, and a rejection
      names both converters' errors. */
  lemma ConvertEntitySound(catalog: Collection<Item>, similar: (string, string) -> bool,
                           wallet: int, cached: map<string, int>, argument: string)
    ensures var r := ConvertEntity(catalog, similar, wallet, cached, argument);
      (r.Ok? ==> EntityConverted(catalog, wallet, cached, r.value) && 1 <= Size(r.value))
      && (r.Err? ==> |r.error| == 2)
  {
    C.DropAmountBounds(wallet, argument);
    if C.DropAmount(wallet, argument).Err? && C.ItemAndQuantityConvert(C.Drop, catalog, similar, wallet, cached, argument).Ok? {
      ConvertItemSound(C.Drop, catalog, similar, wallet, cached, argument);
    }
  }

  /** How the entity is named in messages. */
  function EntityHuman(e: Entity, coin: string): string
  {
    match e
    case Coins(n) => coin + " **" + Grouped(n) + "**"
    case Goods(item, q) => SentenceChunk(item, q, true)
  }

  /** How many of the entity the record holds: its wallet for coins, its count of the item. */
  function Holding(record: UserRecord, e: Entity): int
    reads record, record.inventory
    requires record.Fetched()
  {
    match e
    case Coins(_) => record.data[Wallet]
    case Goods(item, _) => Count(record.inventory.cached, item.key)
  }

  /** The user row after crediting `amount` of the entity: coins move the wallet, items
      leave the row alone. */
  function CreditData(d: map<Field, int>, e: Entity, amount: int): (r: map<Field, int>)
    requires Complete(d)
    ensures Complete(r) && r[Wallet] == d[Wallet] + (if e.Coins? then amount else 0)
  {
    if e.Coins? then d[Wallet := d[Wallet] + amount] else d
  }

  /** The cached item counts after crediting `amount` of the entity: an item's count
      moves as `Shifted` says, coins leave the counts alone. */
  function CreditCache(cached: map<string, int>, e: Entity, amount: int): (r: map<string, int>)
    ensures e.Goods? ==> Shifted(cached, r, e.item.key, amount)
    ensures e.Coins? ==> r == cached
  {
    if e.Goods? then cached[e.item.key := Count(cached, e.item.key) + amount] else cached
  }

  /** Crediting an amount back after taking it out restores the row and the counts, when
      the item was listed to begin with. */
  lemma CreditUndone(d: map<Field, int>, cached: map<string, int>, e: Entity, amount: int)
    requires Complete(d) && (e.Goods? ==> e.item.key in cached)
    ensures CreditData(CreditData(d, e, -amount), e, amount) == d
    ensures CreditCache(CreditCache(cached, e, -amount), e, amount) == cached
  {
  }

  /** Moves `amount` of the entity into (or, negative, out of) the record. */
  method Credit(record: UserRecord, e: Entity, amount: int)
    requires record.Valid() && (e.Goods? ==> Known(record.inventory.catalog, e.item.key))
    modifies record`data, record.inventory
    ensures record.Valid()
    ensures Holding(record, e) == old(Holding(record, e)) + amount
    ensures record.data == CreditData(old(record.data), e, amount)
    ensures record.inventory.cached == CreditCache(old(record.inventory.cached), e, amount)
  {
    if e.Coins? {
      record.Add(map[Wallet := amount]);
    } else {
      record.inventory.AddItem(ByItem(e.item.key), amount);
    }
  }

  /** The recipient's row after crediting the entity and one more unread notification. */
  function ReceivedData(d: map<Field, int>, e: Entity): (r: map<Field, int>)
    requires Complete(d)
    ensures Complete(r) && r[UnreadNotifications] == d[UnreadNotifications] + 1
  {
    var c := CreditData(d, e, Size(e));
    c[UnreadNotifications := c[UnreadNotifications] + 1]
  }

  /** The body of share: the entity leaves the author, reaches the recipient, and the
      recipient gets one notification. */
  method Hand(record: UserRecord, their: UserRecord, e: Entity, title: string, content: string, now: int)
    requires record.Valid() && their.Valid() && Separate(record, their)
    requires e.Goods? ==> Known(record.inventory.catalog, e.item.key) && Known(their.inventory.catalog, e.item.key)
    modifies record`data, record.inventory, their`data, their.inventory, their.notifications
    ensures record.Valid() && their.Valid()
    ensures Holding(record, e) == old(Holding(record, e)) - Size(e)
    ensures Holding(their, e) == old(Holding(their, e)) + Size(e)
    ensures their.notifications.cached == [Notification(now, title, content)] + old(their.notifications.cached)
    ensures record.data == CreditData(old(record.data), e, -Size(e))
    ensures record.inventory.cached == CreditCache(old(record.inventory.cached), e, -Size(e))
    ensures their.data == ReceivedData(old(their.data), e)
    ensures their.inventory.cached == CreditCache(old(their.inventory.cached), e, Size(e))
  {
    Credit(record, e, -Size(e));
    ghost var data, cached := record.data, record.inventory.cached;
    Credit(their, e, Size(e));
    ghost var theirCached := their.inventory.cached;
    assert record.data == data && record.inventory.cached == cached;
    their.notifications.AddNotification(their, title, content, now);
    assert record.data == data && record.inventory.cached == cached;
    assert their.inventory.cached == theirCached;
  }

  const BotShareMessage := "You cannot share with bots."
  const SelfShareMessage := "Sharing with yourself, that sounds kinda funny"

  /** `share`, given what the union converter accepted: bots and the author themself are
      turned away and the author confirms; then the entity moves from the author to the
      recipient, who gets one notification. */
  method Share(record: UserRecord, their: UserRecord, recipientIsBot: bool, e: Entity,
               confirmed: bool, coin: string, mention: string, now: int) returns (o: Outcome)
    requires record.Valid() && their.Valid() && record.inventory.catalog == their.inventory.catalog
    requires record.userId != their.userId ==> Separate(record, their)
    requires EntityConverted(record.inventory.catalog, record.data[Wallet], record.inventory.cached, e)
    modifies record`data, record.inventory, their`data, their.inventory, their.notifications
    ensures record.Valid() && their.Valid()
    ensures recipientIsBot ==> o == Refused(BotShareMessage)
    ensures !recipientIsBot && record.userId == their.userId ==> o == Refused(SelfShareMessage)
    ensures !recipientIsBot && record.userId != their.userId && !confirmed ==> o == Refused("Cancelled transaction.")
    ensures o == Done <==> !recipientIsBot && record.userId != their.userId && confirmed
    ensures o != Done ==>
      record.data == old(record.data) && record.inventory.cached == old(record.inventory.cached)
      && their.data == old(their.data) && their.inventory.cached == old(their.inventory.cached)
      && their.notifications.cached == old(their.notifications.cached)
    ensures o == Done ==>
      Holding(record, e) == old(Holding(record, e)) - Size(e) >= 0
      && Holding(their, e) == old(Holding(their, e)) + Size(e)
      && their.notifications.cached
         == [Notification(now, if e.Coins? then "You got coins!" else "You got items!",
                          mention + " gave you " + EntityHuman(e, coin) + ".")]
            + old(their.notifications.cached)
      && record.data == CreditData(old(record.data), e, -Size(e))
      && record.inventory.cached == CreditCache(old(record.inventory.cached), e, -Size(e))
      && their.data == ReceivedData(old(their.data), e)
      && their.inventory.cached == CreditCache(old(their.inventory.cached), e, Size(e))
  {
    if recipientIsBot {
      return Refused(BotShareMessage);
    }
    if record.userId == their.userId {
      return Refused(SelfShareMessage);
    }
    if !confirmed {
      return Refused("Cancelled transaction.");
    }
    var title := if e.Coins? then "You got coins!" else "You got items!";
    Hand(record, their, e, title, mention + " gave you " + EntityHuman(e, coin) + ".", now);
    o := Done;
  }

  /** The first user other than the author in a sequence of clicks. */
  function FirstOther(clicks: seq<int>, author: int): (r: Option<int>)
    ensures r.Some? ==> r.value != author
  {
    if clicks == [] then None
    else if clicks[0] != author then Some(clicks[0])
    else FirstOther(clicks[1..], author)
  }

  /** The winner is one of the clicks, and there is none exactly when every click was the
      author's. */
  lemma {:induction false} FirstOtherSpec(clicks: seq<int>, author: int)
    ensures FirstOther(clicks, author).Some? ==> FirstOther(clicks, author).value in clicks
    ensures FirstOther(clicks, author).None? <==> forall i :: 0 <= i < |clicks| ==> clicks[i] == author
  {
    if clicks != [] && clicks[0] == author {
      var rest := clicks[1..];
      FirstOtherSpec(rest, author);
      assert forall i :: 1 <= i < |clicks| ==> clicks[i] == rest[i - 1];
    }
  }

  /** `DropView`: the claim button of a drop. */
  class DropView {
    const author: int
    var winner: Option<int>
    var claimDisabled: bool
    var stopped: bool

    /** The author can never be the winner of their own drop. */
    ghost predicate Valid()
      reads this
    {
      (winner.Some? ==> winner.value != author) && (stopped <==> winner.Some?)
    }

    constructor (author: int)
      ensures this.author == author && winner == None && !claimDisabled && !stopped && Valid()
    {
      this.author := author;
      winner := None;
      claimDisabled := false;
      stopped := false;
    }

    /** A click on the claim button: `interaction_check` turns the author away; anyone
        else becomes the winner, the button is disabled and the view stops. */
    method Click(user: int) returns (accepted: bool)
      requires Valid()
      modifies this
      ensures Valid()
      ensures accepted <==> user != author
      ensures accepted ==> winner == Some(user) && claimDisabled && stopped
      ensures !accepted ==> winner == old(winner) && claimDisabled == old(claimDisabled) && stopped == old(stopped)
    {
      if user == author {
        return false;
      }
      winner := Some(user);
      claimDisabled := true;
      stopped := true;
      accepted := true;
    }

    /** `on_timeout`: the claim button is disabled; the winner stays as it is. */
    method Timeout()
      requires Valid()
      modifies this`claimDisabled
      ensures Valid() && claimDisabled
    {
      claimDisabled := true;
    }
  }

  /** The clicks a drop receives, one at a time, until the view stops. */
  method Listen(view: DropView, clicks: seq<int>)
    requires view.Valid() && view.winner.None?
    modifies view
    ensures view.Valid() && view.winner == FirstOther(clicks, view.author)
  {
    var i := 0;
    while i < |clicks| && !view.stopped
      invariant 0 <= i <= |clicks| && view.Valid()
      invariant view.winner.None? ==> FirstOther(clicks, view.author) == FirstOther(clicks[i..], view.author)
      invariant view.winner.Some? ==> view.winner == FirstOther(clicks, view.author)
      decreases |clicks| - i
    {
      var accepted := view.Click(clicks[i]);
      if !accepted {
        assert clicks[i..][1..] == clicks[i + 1..];
      }
      i := i + 1;
    }
  }

  /** `drop`, given what the union converter accepted: the entity is taken from the author
      up front; the first other user to click receives it, and with no such click it goes
      back to the author. */
  method Drop(record: UserRecord, winnerRecord: UserRecord, e: Entity, clicks: seq<int>) returns (view: DropView)
    requires record.Valid() && winnerRecord.Valid() && Separate(record, winnerRecord)
    requires record.inventory.catalog == winnerRecord.inventory.catalog
    requires EntityConverted(record.inventory.catalog, record.data[Wallet], record.inventory.cached, e)
    requires FirstOther(clicks, record.userId).Some? ==> winnerRecord.userId == FirstOther(clicks, record.userId).value
    modifies record`data, record.inventory, winnerRecord`data, winnerRecord.inventory
    ensures record.Valid() && winnerRecord.Valid()
    ensures fresh(view) && view.author == record.userId && view.winner == FirstOther(clicks, record.userId)
    ensures view.winner.None? ==>
      record.data == old(record.data) && record.inventory.cached == old(record.inventory.cached)
      && winnerRecord.data == old(winnerRecord.data) && winnerRecord.inventory.cached == old(winnerRecord.inventory.cached)
    ensures view.winner.Some? ==>
      Holding(record, e) == old(Holding(record, e)) - Size(e) >= 0
      && Holding(winnerRecord, e) == old(Holding(winnerRecord, e)) + Size(e)
      && winnerRecord.userId != record.userId
      && record.data == CreditData(old(record.data), e, -Size(e))
      && record.inventory.cached == CreditCache(old(record.inventory.cached), e, -Size(e))
      && winnerRecord.data == CreditData(old(winnerRecord.data), e, Size(e))
      && winnerRecord.inventory.cached == CreditCache(old(winnerRecord.inventory.cached), e, Size(e))
  {
    ghost var data, cached := record.data, record.inventory.cached;
    ghost var won := Holding(winnerRecord, e);
    Credit(record, e, -Size(e));
    view := new DropView(record.userId);
    Listen(view, clicks);
    assert Holding(winnerRecord, e) == won;
    Deliver(record, winnerRecord, e, view.winner.None?);
    if view.winner.None? {
      CreditUndone(data, cached, e, Size(e));
    }
  }

  /** The end of a drop: the entity goes back to the author when nobody else claimed it,
      otherwise to the winner. */
  method Deliver(record: UserRecord, winnerRecord: UserRecord, e: Entity, unclaimed: bool)
    requires record.Valid() && winnerRecord.Valid() && Separate(record, winnerRecord)
    requires record.inventory.catalog == winnerRecord.inventory.catalog
    requires e.Goods? ==> Known(record.inventory.catalog, e.item.key)
    modifies record`data, record.inventory, winnerRecord`data, winnerRecord.inventory
    ensures record.Valid() && winnerRecord.Valid()
    ensures unclaimed ==>
      record.data == CreditData(old(record.data), e, Size(e))
      && record.inventory.cached == CreditCache(old(record.inventory.cached), e, Size(e))
      && winnerRecord.data == old(winnerRecord.data) && winnerRecord.inventory.cached == old(winnerRecord.inventory.cached)
    ensures !unclaimed ==>
      record.data == old(record.data) && record.inventory.cached == old(record.inventory.cached)
      && Holding(record, e) == old(Holding(record, e))
      && Holding(winnerRecord, e) == old(Holding(winnerRecord, e)) + Size(e)
      && winnerRecord.data == CreditData(old(winnerRecord.data), e, Size(e))
      && winnerRecord.inventory.cached == CreditCache(old(winnerRecord.inventory.cached), e, Size(e))
  {
    if unclaimed {
      Credit(record, e, Size(e));
    } else {
      Credit(winnerRecord, e, Size(e));
    }
  }

  // ---- recipes ----

  /** What the crafting code needs of a recipe. */
  predicate Craftable(r: Recipe)
  {
    r.price > 0 && |r.ingredients| > 0 && forall i :: 0 <= i < |r.ingredients| ==> r.ingredients[i].1 > 0
  }

  /** Every recipe of the table can be crafted. */
  lemma TableCraftable(describe: string -> string)
    ensures forall i :: 0 <= i < |RecipeTable(describe)| ==> Craftable(RecipeTable(describe)[i].1)
  {
    TableWellFormed(describe);
  }

  /** How many of an item `counts` lists: the sum of the quantities listed under `key`. */
  function QuantityIn(counts: Counts, key: string): int
  {
    if counts == [] then 0
    else QuantityIn(counts[..|counts| - 1], key) + (if counts[|counts| - 1].0 == key then counts[|counts| - 1].1 else 0)
  }

  /** With distinct keys, an entry's key gives that entry's quantity. */
  lemma {:induction false} QuantityInDistinct(counts: Counts, i: nat)
    requires DistinctKeys(counts) && i < |counts|
    ensures QuantityIn(counts, counts[i].0) == counts[i].1
  {
    var n := |counts| - 1;
    assert DistinctKeys(counts[..n]);
    if i < n {
      QuantityInDistinct(counts[..n], i);
      assert counts[..n][i] == counts[i];
    } else {
      QuantityInAbsent(counts[..n], counts[i].0);
    }
  }

  /** A key `counts` does not list has quantity zero. */
  lemma {:induction false} QuantityInAbsent(counts: Counts, key: string)
    requires forall j :: 0 <= j < |counts| ==> counts[j].0 != key
    ensures QuantityIn(counts, key) == 0
  {
    if counts != [] {
      QuantityInAbsent(counts[..|counts| - 1], key);
    }
  }

  function Min(a: int, b: int): int { if a <= b then a else b }

  /** `min(quantity_of(item) // quantity for item, quantity in ingredients)`. */
  function IngredientMax(ingredients: Counts, cached: map<string, int>): int
    requires |ingredients| > 0 && forall i :: 0 <= i < |ingredients| ==> ingredients[i].1 > 0
  {
    var here := FloorDiv(Count(cached, ingredients[0].0), ingredients[0].1);
    if |ingredients| == 1 then here else Min(here, IngredientMax(ingredients[1..], cached))
  }

  /** `_get_max`: the ingredient bound further capped by what the wallet pays for. */
  function GetMax(r: Recipe, wallet: int, cached: map<string, int>): int
    requires Craftable(r)
  {
    Min(IngredientMax(r.ingredients, cached), FloorDiv(wallet, r.price))
  }

  /** No ingredient is short for `n` units: the negation of `_craft`'s `any(...)`. */
  predicate IngredientsCover(ingredients: Counts, cached: map<string, int>, n: int)
  {
    forall i :: 0 <= i < |ingredients| ==> Count(cached, ingredients[i].0) >= ingredients[i].1 * n
  }

  lemma {:induction false} IngredientMaxSpec(ingredients: Counts, cached: map<string, int>, n: int)
    requires |ingredients| > 0 && forall i :: 0 <= i < |ingredients| ==> ingredients[i].1 > 0
    ensures n <= IngredientMax(ingredients, cached) <==> IngredientsCover(ingredients, cached, n)
  {
    FloorDivBound(Count(cached, ingredients[0].0), ingredients[0].1, n);
    if |ingredients| > 1 {
      IngredientMaxSpec(ingredients[1..], cached, n);
      if IngredientsCover(ingredients[1..], cached, n) && Count(cached, ingredients[0].0) >= ingredients[0].1 * n {
        forall i | 0 <= i < |ingredients| ensures Count(cached, ingredients[i].0) >= ingredients[i].1 * n {
          if i > 0 {
            assert ingredients[i] == ingredients[1..][i - 1];
          }
        }
      }
      if IngredientsCover(ingredients, cached, n) {
        forall i | 0 <= i < |ingredients[1..]| ensures Count(cached, ingredients[1..][i].0) >= ingredients[1..][i].1 * n {
          assert ingredients[1..][i] == ingredients[i + 1];
        }
      }
    }
  }

  /** `_get_max` is the largest amount that both the wallet and every ingredient cover. */
  lemma GetMaxSpec(r: Recipe, wallet: int, cached: map<string, int>, n: int)
    requires Craftable(r)
    ensures n <= GetMax(r, wallet, cached) <==> r.price * n <= wallet && IngredientsCover(r.ingredients, cached, n)
  {
    IngredientMaxSpec(r.ingredients, cached, n);
    FloorDivBound(wallet, r.price, n);
  }

  /** Every item a list of counts names is a catalog item. */
  predicate ItemsKnown(catalog: Collection<Item>, counts: Counts)
  {
    forall i :: 0 <= i < |counts| ==> Known(catalog, counts[i].0)
  }

  /** The `for item, quantity in ...: add_item(item, quantity * factor)` loops. */
  method AddCounts(inventory: InventoryManager, counts: Counts, factor: int)
    requires inventory.Valid() && ItemsKnown(inventory.catalog, counts)
    modifies inventory`stored, inventory`cached
    ensures inventory.Valid()
    ensures forall k :: Count(inventory.cached, k) == Count(old(inventory.cached), k) + factor * QuantityIn(counts, k)
  {
    var i := 0;
    while i < |counts|
      invariant 0 <= i <= |counts| && inventory.Valid()
      invariant forall k :: Count(inventory.cached, k) == Count(old(inventory.cached), k) + factor * QuantityIn(counts[..i], k)
    {
      inventory.AddItem(ByItem(counts[i].0), counts[i].1 * factor);
      forall k
        ensures Count(inventory.cached, k) == Count(old(inventory.cached), k) + factor * QuantityIn(counts[..i + 1], k)
      {
        QuantityInStep(counts, i, k, factor);
      }
      i := i + 1;
    }
    assert counts[..i] == counts;
  }

  /** One more entry of `counts` adds its own quantity, scaled, under its own key. */
  lemma QuantityInStep(counts: Counts, i: nat, k: string, factor: int)
    requires i < |counts|
    ensures factor * QuantityIn(counts[..i + 1], k)
         == factor * QuantityIn(counts[..i], k) + (if counts[i].0 == k then counts[i].1 * factor else 0)
  {
    var c := counts[..i + 1];
    assert c[..|c| - 1] == counts[..i] && c[|c| - 1] == counts[i];
    var q := QuantityIn(counts[..i], k);
    assert factor * (q + counts[i].1) == factor * q + counts[i].1 * factor;
  }

  /** The counts after crafting `amount` units: the ingredients consumed, the results added. */
  ghost predicate Crafted(before: map<string, int>, after: map<string, int>, r: Recipe, amount: int)
  {
    forall k :: Count(after, k) == Count(before, k) + -amount * QuantityIn(r.ingredients, k) + amount * QuantityIn(r.result, k)
  }

  /** The user row after paying for `amount` units at `price` each: only the wallet moves. */
  function Charged(d: map<Field, int>, price: int, amount: int): (r: map<Field, int>)
    requires Complete(d)
    ensures Complete(r) && r[Wallet] == d[Wallet] - price * amount
  {
    d[Wallet := d[Wallet] + -price * amount]
  }

  /** The ledger block of `_craft` and `craft`: the price of the units, then each
      ingredient, then each result. */
  method Produce(record: UserRecord, r: Recipe, amount: int)
    requires record.Valid() && ItemsKnown(record.inventory.catalog, r.ingredients) && ItemsKnown(record.inventory.catalog, r.result)
    modifies record`data, record.inventory
    ensures record.Valid()
    ensures record.data == Charged(old(record.data), r.price, amount)
    ensures Crafted(old(record.inventory.cached), record.inventory.cached, r, amount)
  {
    record.Add(map[Wallet := -r.price * amount]);
    AddCounts(record.inventory, r.ingredients, -amount);
    AddCounts(record.inventory, r.result, amount);
  }

  /** With distinct ingredients and a single result, crafting takes exactly
      `quantity * amount` of each ingredient and adds `amount` of the result. */
  lemma CraftedEach(before: map<string, int>, after: map<string, int>, r: Recipe, amount: int, describe: string -> string)
    requires WellFormed(r, describe) && Crafted(before, after, r, amount)
    ensures forall i :: 0 <= i < |r.ingredients| && r.ingredients[i].0 != r.result[0].0 ==>
      Count(after, r.ingredients[i].0) == Count(before, r.ingredients[i].0) - r.ingredients[i].1 * amount
    ensures (forall i :: 0 <= i < |r.ingredients| ==> r.ingredients[i].0 != r.result[0].0) ==>
      Count(after, r.result[0].0) == Count(before, r.result[0].0) + amount
  {
    forall i | 0 <= i < |r.ingredients| && r.ingredients[i].0 != r.result[0].0
      ensures Count(after, r.ingredients[i].0) == Count(before, r.ingredients[i].0) - r.ingredients[i].1 * amount
    {
      QuantityInDistinct(r.ingredients, i);
      QuantityInAbsent(r.result, r.ingredients[i].0);
    }
    if forall i :: 0 <= i < |r.ingredients| ==> r.ingredients[i].0 != r.result[0].0 {
      QuantityInAbsent(r.ingredients, r.result[0].0);
      QuantityInDistinct(r.result, 0);
    }
  }

  /** The insufficient-funds refusal of `_craft`. */
  function FundsMessage(price: int, amount: int, wallet: int, coin: string): string
  {
    var extra := if amount > 1 then " (" + coin + " **" + Grouped(price * amount) + "** for " + DecimalString(amount) + ")" else "";
    "Insufficient funds: Crafting one of this item costs " + coin + " **" + Grouped(price) + "**" + extra
    + ", you only have " + coin + " **" + Grouped(wallet) + "**."
  }

  function ShortMessage(amount: int): string
  {
    "You don't have enough of the required ingredients to craft this recipe"
    + (if amount > 1 then ", maybe try a lower amount?" else "")
  }

  const UndiscoveredMessage := "You have not discovered this recipe yet!"

  /** `RecipeView`: the recipe browser with its craft buttons. */
  class RecipeView {
    const record: UserRecord
    var current: Recipe
    var buttonsDisabled: bool
    var primaryStyle: bool
    var craftMaxLabel: string

    ghost predicate Valid()
      reads this, record, record.inventory
    {
      record.Valid() && Craftable(current) && ItemsKnown(record.inventory.catalog, current.ingredients)
      && ItemsKnown(record.inventory.catalog, current.result)
    }

    /** `discovered`. */
    predicate Discovered()
      reads this, record
    {
      current.key in record.discoveredRecipes
    }

    function MaxCraftable(): int
      reads this, record, record.inventory
      requires Valid()
    {
      GetMax(current, record.data[Wallet], record.inventory.cached)
    }

    constructor (record: UserRecord, current: Recipe)
      requires record.Valid() && Craftable(current)
      requires ItemsKnown(record.inventory.catalog, current.ingredients) && ItemsKnown(record.inventory.catalog, current.result)
      ensures this.record == record && this.current == current && Valid()
      ensures buttonsDisabled <==> !(Discovered() && MaxCraftable() > 0)
    {
      this.record := record;
      this.current := current;
      new;
      Update();
    }

    /** `update`: the craft buttons are enabled exactly when the recipe is discovered and
        at least one unit can be crafted; the max button shows that amount once discovered. */
    method Update()
      requires Valid()
      modifies this`buttonsDisabled, this`primaryStyle, this`craftMaxLabel
      ensures Valid()
      ensures buttonsDisabled <==> !(Discovered() && MaxCraftable() > 0)
      ensures primaryStyle <==> Discovered()
      ensures craftMaxLabel == if Discovered() then "Craft Max (" + Grouped(MaxCraftable()) + ")" else "Craft Max"
    {
      var amount := GetMax(current, record.data[Wallet], record.inventory.cached);
      var toggle := Discovered() && amount > 0;
      buttonsDisabled := !toggle;
      primaryStyle := Discovered();
      if Discovered() {
        craftMaxLabel := "Craft Max (" + Grouped(amount) + ")";
      } else {
        craftMaxLabel := "Craft Max";
      }
    }

    /** `_craft(amount)`: refused, with nothing changed, unless the recipe is discovered,
        the wallet pays for `amount` units and no ingredient is short; otherwise the
        ledger block runs for `amount` units. */
    method Craft(amount: int, coin: string) returns (o: Outcome)
      requires Valid()
      modifies record`data, record.inventory
      ensures Valid()
      ensures !Discovered() ==> o == Refused(UndiscoveredMessage)
      ensures Discovered() && old(record.data[Wallet]) < current.price * amount ==>
        o == Refused(FundsMessage(current.price, amount, old(record.data[Wallet]), coin))
      ensures Discovered() && old(record.data[Wallet]) >= current.price * amount
              && !IngredientsCover(current.ingredients, old(record.inventory.cached), amount) ==>
        o == Refused(ShortMessage(amount))
      ensures o == Done <==>
        Discovered() && old(record.data[Wallet]) >= current.price * amount
        && IngredientsCover(current.ingredients, old(record.inventory.cached), amount)
      ensures o != Done ==> record.data == old(record.data) && record.inventory.cached == old(record.inventory.cached)
      ensures o == Done ==>
        record.data == Charged(old(record.data), current.price, amount)
        && Crafted(old(record.inventory.cached), record.inventory.cached, current, amount)
    {
      if !Discovered() {
        return Refused(UndiscoveredMessage);
      }
      if record.data[Wallet] < current.price * amount {
        return Refused(FundsMessage(current.price, amount, record.data[Wallet], coin));
      }
      if !IngredientsCover(current.ingredients, record.inventory.cached, amount) {
        return Refused(ShortMessage(amount));
      }
      Produce(record, current, amount);
      o := Done;
    }
  }

  /** `craft_max` and `craft_custom` ask for no more than `_get_max`, so a discovered
      recipe then always crafts. */
  lemma CraftWithinMax(r: Recipe, wallet: int, cached: map<string, int>, amount: int)
    requires Craftable(r) && amount <= GetMax(r, wallet, cached)
    ensures wallet >= r.price * amount && IngredientsCover(r.ingredients, cached, amount)
  {
    GetMaxSpec(r, wallet, cached, amount);
  }

  /** The amount `craft_custom` reads, with `_get_max` as both total and maximum. */
  function CustomAmount(maximum: int, response: string): (r: Result<int, C.AmountError>)
    ensures r == C.GetAmount(maximum, 1, maximum, response)
    ensures r.Ok? ==> 1 <= r.value <= maximum
  {
    var g := C.GetAmount(maximum, 1, maximum, response);
    if g.Ok? then
      C.GetAmountBounds(maximum, 1, maximum, response);
      g
    else g
  }

  const TimeoutReply := "You took too long to respond, cancelling."

  /** `craft_custom`: no reply in time cancels; a quantity `get_amount` rejects is
      reported by its exception's name; any other is crafted as `CraftUpToMax` says.
      Only a craft changes anything. */
  method CraftCustom(view: RecipeView, response: Option<string>, coin: string) returns (o: Outcome)
    requires view.Valid()
    modifies view.record`data, view.record.inventory
    ensures view.Valid()
    ensures response.None? ==> o == Refused(TimeoutReply)
    ensures response.Some? ==> var g := CustomAmount(old(view.MaxCraftable()), response.value);
      && (g.Err? ==> o == Refused("Error: " + AmountErrorName(g.error)))
      && (g.Ok? ==> (o == Done <==> view.Discovered()))
      && (g.Ok? && o == Done ==>
            view.record.data == Charged(old(view.record.data), view.current.price, g.value)
            && Crafted(old(view.record.inventory.cached), view.record.inventory.cached, view.current, g.value))
    ensures o != Done ==>
      view.record.data == old(view.record.data) && view.record.inventory.cached == old(view.record.inventory.cached)
  {
    if response.None? {
      return Refused(TimeoutReply);
    }
    var g := CustomAmount(view.MaxCraftable(), response.value);
    o := CraftAmount(view, g, coin);
  }

  /** The end of `craft_custom` once `get_amount` has answered: its error is reported by
      name, and an amount is crafted as `CraftUpToMax` says. */
  method CraftAmount(view: RecipeView, g: Result<int, C.AmountError>, coin: string) returns (o: Outcome)
    requires view.Valid() && (g.Ok? ==> g.value <= view.MaxCraftable())
    modifies view.record`data, view.record.inventory
    ensures view.Valid()
    ensures g.Err? ==> o == Refused("Error: " + AmountErrorName(g.error))
    ensures g.Ok? ==> (o == Done <==> view.Discovered())
    ensures g.Ok? && o == Done ==>
      view.record.data == Charged(old(view.record.data), view.current.price, g.value)
      && Crafted(old(view.record.inventory.cached), view.record.inventory.cached, view.current, g.value)
    ensures o != Done ==>
      view.record.data == old(view.record.data) && view.record.inventory.cached == old(view.record.inventory.cached)
  {
    if g.Err? {
      return Refused("Error: " + AmountErrorName(g.error));
    }
    o := CraftUpToMax(view, g.value, coin);
  }

  /** `craft_max`: `_craft` with `_get_max` units. */
  method CraftMax(view: RecipeView, coin: string) returns (o: Outcome)
    requires view.Valid()
    modifies view.record`data, view.record.inventory
    ensures view.Valid()
    ensures o == Done <==> view.Discovered()
    ensures o != Done ==>
      o == Refused(UndiscoveredMessage)
      && view.record.data == old(view.record.data) && view.record.inventory.cached == old(view.record.inventory.cached)
    ensures o == Done ==>
      view.record.data == Charged(old(view.record.data), view.current.price, old(view.MaxCraftable()))
      && Crafted(old(view.record.inventory.cached), view.record.inventory.cached, view.current, old(view.MaxCraftable()))
  {
    o := CraftUpToMax(view, view.MaxCraftable(), coin);
  }

  /** `_craft` with an amount within `_get_max`: only an undiscovered recipe refuses it,
      and otherwise the price leaves the wallet and the units are crafted. */
  method CraftUpToMax(view: RecipeView, amount: int, coin: string) returns (o: Outcome)
    requires view.Valid() && amount <= view.MaxCraftable()
    modifies view.record`data, view.record.inventory
    ensures view.Valid()
    ensures o == Done <==> view.Discovered()
    ensures o != Done ==>
      o == Refused(UndiscoveredMessage)
      && view.record.data == old(view.record.data) && view.record.inventory.cached == old(view.record.inventory.cached)
    ensures o == Done ==>
      view.record.data == Charged(old(view.record.data), view.current.price, amount)
      && Crafted(old(view.record.inventory.cached), view.record.inventory.cached, view.current, amount)
  {
    CraftWithinMax(view.current, view.record.data[Wallet], view.record.inventory.cached, amount);
    o := view.Craft(amount, coin);
  }

  /** The exception class named in `craft_custom`'s error reply. */
  function AmountErrorName(e: C.AmountError): string
  {
    match e
    case NotAnInteger => "NotAnInteger"
    case NotEnough => "NotEnough"
    case PastMinimum => "PastMinimum"
    case ZeroDivision => "ZeroDivisionError"
  }

  const MissingItemsMessage := "That's a valid recipe, but you don't have the required items in order to craft it."

  function CraftCoinsMessage(coin: string, price: int): string
  {
    "That's a valid recipe, but you don't have enough coins (" + coin + " " + Grouped(price) + ") to craft it."
  }

  /** `craft`: refused, with nothing changed, when an ingredient is short for one unit or
      the wallet is short of the price; otherwise the recipe is recorded as discovered
      (once) before one unit is crafted. */
  method Craft(record: UserRecord, recipe: Recipe, coin: string) returns (o: Outcome, newlyDiscovered: bool)
    requires record.Valid() && Craftable(recipe)
    requires ItemsKnown(record.inventory.catalog, recipe.ingredients) && ItemsKnown(record.inventory.catalog, recipe.result)
    modifies record`data, record`discoveredRecipes, record.inventory
    ensures record.Valid()
    ensures !IngredientsCover(recipe.ingredients, old(record.inventory.cached), 1) ==>
      o == Refused(MissingItemsMessage)
    ensures IngredientsCover(recipe.ingredients, old(record.inventory.cached), 1) && old(record.data[Wallet]) < recipe.price ==>
      o == Refused(CraftCoinsMessage(coin, recipe.price))
    ensures o == Done <==> IngredientsCover(recipe.ingredients, old(record.inventory.cached), 1) && old(record.data[Wallet]) >= recipe.price
    ensures o != Done ==> record.data == old(record.data) && record.inventory.cached == old(record.inventory.cached)
                          && record.discoveredRecipes == old(record.discoveredRecipes) && !newlyDiscovered
    ensures o == Done ==>
      newlyDiscovered == (recipe.key !in old(record.discoveredRecipes))
      && record.discoveredRecipes == old(record.discoveredRecipes) + (if newlyDiscovered then [recipe.key] else [])
      && record.data == old(record.data)[Wallet := old(record.data[Wallet]) + -recipe.price * 1]
      && Crafted(old(record.inventory.cached), record.inventory.cached, recipe, 1)
    ensures recipe.key in record.discoveredRecipes <==> recipe.key in old(record.discoveredRecipes) || o == Done
  {
    if !IngredientsCover(recipe.ingredients, record.inventory.cached, 1) {
      return Refused(MissingItemsMessage), false;
    }
    if record.data[Wallet] < recipe.price {
      return Refused(CraftCoinsMessage(coin, recipe.price)), false;
    }
    newlyDiscovered := recipe.key !in record.discoveredRecipes;
    if newlyDiscovered {
      record.discoveredRecipes := record.discoveredRecipes + [recipe.key];
    }
    Produce(record, recipe, 1);
    o := Done;
  }
}

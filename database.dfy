/** `app/database/__init__.py`: the in-memory side of the account store.  The SQL
    round trips become updates of the fields below; where a row comes back from the
    database (`RETURNING *`) it is the row the update itself describes, so the cache and
    the table agree after every call.  A row the database hands over on a first fetch is a
    parameter. */
module Database {

  import opened Results
  import opened Numeric
  import opened Text
  import opened Common
  import opened Items

  // ---- the users table ----

  /** The integer columns of a user row that the economy reads and writes. */
  datatype Field = Wallet | Bank | MaxBank | Exp | UnreadNotifications | DailyStreak | WeeklyStreak

  /** Every column has a value. */
  predicate Complete(m: map<Field, int>)
  {
    Wallet in m && Bank in m && MaxBank in m && Exp in m && UnreadNotifications in m
    && DailyStreak in m && WeeklyStreak in m
  }

  /** Overwriting a single column is a map update. */
  lemma UpdateOne(m: map<Field, int>, f: Field, v: int)
    ensures m + map[f := v] == m[f := v]
  {
  }

  /** A complete row holds every column any update can name. */
  lemma CompleteCovers(m: map<Field, int>, other: map<Field, int>)
    requires Complete(m)
    ensures other.Keys <= m.Keys
  {
    forall f | f in other ensures f in m {
      match f
      case Wallet => case Bank => case MaxBank => case Exp =>
      case UnreadNotifications => case DailyStreak => case WeeklyStreak =>
    }
  }

  /** A complete row has a value for each column. */
  lemma InComplete(m: map<Field, int>, f: Field)
    requires Complete(m)
    ensures f in m
  {
    match f
    case Wallet => case Bank => case MaxBank => case Exp =>
    case UnreadNotifications => case DailyStreak => case WeeklyStreak =>
  }

  /** A row as `RETURNING *` hands it back: every column present. */
  type Row = m: map<Field, int> | Complete(m)
    witness map[Wallet := 0, Bank := 0, MaxBank := 0, Exp := 0, UnreadNotifications := 0,
                DailyStreak := 0, WeeklyStreak := 0]

  /** The balances the economy keeps sound: nothing negative, the bank within its space. */
  predicate SolventRow(d: map<Field, int>)
    requires Complete(d)
  {
    d[Wallet] >= 0 && 0 <= d[Bank] <= d[MaxBank]
  }

  /** `amount` moved from one column to another: the two together keep their sum and
      no other column changes. */
  function Transferred(d: map<Field, int>, from: Field, to: Field, amount: int): (r: map<Field, int>)
    requires Complete(d) && from != to
    ensures Complete(r) && r.Keys == d.Keys
    ensures from in d && to in d && r[from] == d[from] - amount && r[to] == d[to] + amount
    ensures r[from] + r[to] == d[from] + d[to]
    ensures forall f :: f in d && f != from && f != to ==> r[f] == d[f]
  {
    InComplete(d, from);
    InComplete(d, to);
    d[from := d[from] - amount][to := d[to] + amount]
  }

  /** A row's coins: wallet and bank together. */
  function Coins(d: map<Field, int>): int
    requires Complete(d)
  {
    d[Wallet] + d[Bank]
  }

  /** Moving coins between wallet and bank, either way, keeps the total; moving any
      other column keeps it too, and so do the two bonus draws. */
  lemma TransferKeepsCoins(d: map<Field, int>, from: Field, to: Field, amount: int)
    requires Complete(d) && from != to
    requires (from == Wallet || from == Bank) == (to == Wallet || to == Bank)
    ensures Coins(Transferred(d, from, to, amount)) == Coins(d)
  {
    var r := Transferred(d, from, to, amount);
    if from != Wallet && from != Bank {
      assert r[Wallet] == d[Wallet] && r[Bank] == d[Bank];
    }
  }

  /** Adding `-amount` to one column and `amount` to another is the transfer between them. */
  lemma AddToTransferred(d: map<Field, int>, from: Field, to: Field, amount: int)
    requires Complete(d) && from != to
    ensures AddTo(d, map[from := -amount, to := amount]) == Transferred(d, from, to, amount)
  {
    var deltas := map[from := -amount, to := amount];
    CompleteCovers(d, deltas);
    var a := AddTo(d, deltas);
    assert a[from] == d[from] - amount && a[to] == d[to] + amount;
    forall f | f in d && f != from && f != to ensures a[f] == d[f] {
      assert f !in deltas;
    }
    IsTransferred(d, a, from, to, amount);
  }

  /** A row that agrees with a transfer on every column is that transfer. */
  lemma IsTransferred(d: map<Field, int>, a: map<Field, int>, from: Field, to: Field, amount: int)
    requires Complete(d) && from != to && a.Keys == d.Keys
    requires a[from] == d[from] - amount && a[to] == d[to] + amount
    requires forall f :: f in d && f != from && f != to ==> a[f] == d[f]
    ensures a == Transferred(d, from, to, amount)
  {
  }

  /** Moving a positive amount that the source column holds, between wallet and bank and
      without filling the bank past its space, keeps a sound row sound. */
  lemma TransferredSolvent(d: map<Field, int>, from: Field, to: Field, amount: int)
    requires Complete(d) && SolventRow(d)
    requires (from == Wallet && to == Bank) || (from == Bank && to == Wallet)
    requires 0 < amount <= d[from]
    requires to == Bank ==> d[Bank] + amount <= d[MaxBank]
    ensures SolventRow(Transferred(d, from, to, amount))
  {
  }

  /** `UserRecord.add`: each given delta added to its column, the other columns untouched. */
  function AddTo(data: map<Field, int>, deltas: map<Field, int>): (r: map<Field, int>)
    requires deltas.Keys <= data.Keys
    ensures r.Keys == data.Keys
    ensures forall f :: f in deltas ==> r[f] == data[f] + deltas[f]
    ensures forall f :: f in data && f !in deltas ==> r[f] == data[f]
  {
    map f | f in data :: if f in deltas then data[f] + deltas[f] else data[f]
  }

  /** Adding deltas in two steps is adding their sums once. */
  lemma AddToTwice(data: map<Field, int>, a: map<Field, int>, b: map<Field, int>)
    requires a.Keys <= data.Keys && b.Keys <= data.Keys
    ensures AddTo(AddTo(data, a), b)
      == AddTo(data, map f | f in a.Keys + b.Keys :: (if f in a then a[f] else 0) + (if f in b then b[f] else 0))
  {
  }

  /** The `LEVELING_CURVE` of `UserRecord`. */
  const LevelBase := 100
  const LevelFactor: real := 1.26

  /** `UserRecord.level`: the level `calculate_level` reaches from the total experience. */
  function LevelOf(totalExp: int): nat
  {
    LevelFrom(totalExp, 0, LevelBase, LevelFactor).0
  }

  /** Starting from a level, the levelling loop never ends below it. */
  lemma {:induction false} LevelFromAtLeast(exp: int, level: nat)
    ensures LevelFrom(exp, level, LevelBase, LevelFactor).0 >= level
    decreases exp
  {
    var req := LevelRequirementFor(level, LevelBase, LevelFactor);
    RequirementAtLeast100(level, LevelBase, LevelFactor);
    if exp > req {
      LevelFromAtLeast(exp - req, level + 1);
    }
  }

  /** More experience never means a lower level. */
  lemma {:induction false} LevelFromMonotone(e1: int, e2: int, level: nat)
    requires e1 <= e2
    ensures LevelFrom(e1, level, LevelBase, LevelFactor).0 <= LevelFrom(e2, level, LevelBase, LevelFactor).0
    decreases e1
  {
    var req := LevelRequirementFor(level, LevelBase, LevelFactor);
    RequirementAtLeast100(level, LevelBase, LevelFactor);
    if e1 > req {
      LevelFromMonotone(e1 - req, e2 - req, level + 1);
    } else {
      LevelFromAtLeast(e2, level);
    }
  }

  // ---- the items table and its cache ----

  /** How an item is passed to the inventory: as an `Item` object (whose hash and string
      form are its key) or as a key string, which is resolved through the catalog. */
  datatype ItemRef = ByItem(key: string) | ByKey(key: string)

  datatype InventoryError = UnknownItem  // the RuntimeError of `InventoryMapping.__getitem__`

  /** A key string names a catalog item. */
  predicate Known(catalog: Collection<Item>, key: string)
  {
    ItemByKey(catalog, key).Some?
  }

  /** The count the cache holds under `key`, zero when it holds none. */
  function Count(cached: map<string, int>, key: string): int
  {
    if key in cached then cached[key] else 0
  }

  /** `InventoryMapping.quantity_of`: the stored count, zero for an item never stored; a key
      string naming no item makes `__getitem__` raise, which `quantity_of` does not catch. */
  function QuantityOf(catalog: Collection<Item>, cached: map<string, int>, item: ItemRef): (r: Result<int, InventoryError>)
    ensures r.Err? <==> item.ByKey? && !Known(catalog, item.key)
    ensures r.Ok? ==> r.value == (if item.key in cached then cached[item.key] else 0)
  {
    if item.ByKey? && !Known(catalog, item.key) then Err(UnknownItem)
    else Ok(Count(cached, item.key))
  }

  /** `InventoryMapping.__setitem__`: a key string naming no item is silently ignored. */
  function SetCached(catalog: Collection<Item>, cached: map<string, int>, item: ItemRef, value: int): (r: map<string, int>)
    ensures item.ByKey? && !Known(catalog, item.key) ==> r == cached
    ensures !(item.ByKey? && !Known(catalog, item.key)) ==> r == cached[item.key := value]
  {
    if item.ByKey? && !Known(catalog, item.key) then cached else cached[item.key := value]
  }

  /** `InventoryMapping.__contains__`. */
  function Contains(catalog: Collection<Item>, cached: map<string, int>, item: ItemRef): (r: bool)
    ensures r <==> (item.ByItem? || Known(catalog, item.key)) && item.key in cached
  {
    if item.ByKey? && !Known(catalog, item.key) then false else item.key in cached
  }

  /** An item the mapping accepts reads back what was last set for it, and setting it
      leaves every other item's count alone; a key string naming no item is neither
      read nor written. */
  lemma SetThenQuantity(catalog: Collection<Item>, cached: map<string, int>, item: ItemRef, value: int, other: ItemRef)
    ensures var after := SetCached(catalog, cached, item, value);
      && (item.ByItem? || Known(catalog, item.key) ==> QuantityOf(catalog, after, item) == Ok(value))
      && (other.key != item.key ==> QuantityOf(catalog, after, other) == QuantityOf(catalog, cached, other))
      && (item.ByKey? && !Known(catalog, item.key) ==> after == cached && QuantityOf(catalog, after, item).Err?)
  {
  }

  /** `in` holds exactly when `quantity_of` reads an entry the cache holds, so an item
      not in the mapping has a count of zero; once set, an accepted item is in it. */
  lemma ContainsMeansStored(catalog: Collection<Item>, cached: map<string, int>, item: ItemRef, value: int)
    ensures Contains(catalog, cached, item) <==> QuantityOf(catalog, cached, item).Ok? && item.key in cached
    ensures QuantityOf(catalog, cached, item).Ok? && !Contains(catalog, cached, item) ==>
      QuantityOf(catalog, cached, item).value == 0
    ensures item.ByItem? || Known(catalog, item.key) ==> Contains(catalog, SetCached(catalog, cached, item, value), item)
  {
  }

  /** The table rows as a map; a later row for the same key would win, as the loop's would. */
  function RowsMap(rows: seq<(string, int)>): map<string, int>
  {
    if rows == [] then map[] else RowsMap(rows[..|rows| - 1])[rows[|rows| - 1].0 := rows[|rows| - 1].1]
  }

  /** What `fetch_items` leaves in the cache after the first `|rows|` rows. */
  function FetchedCache(catalog: Collection<Item>, base: map<string, int>, rows: seq<(string, int)>): map<string, int>
  {
    if rows == [] then base
    else SetCached(catalog, FetchedCache(catalog, base, rows[..|rows| - 1]), ByKey(rows[|rows| - 1].0), rows[|rows| - 1].1)
  }

  /** From an empty cache, fetching caches exactly the rows whose key names an item, each
      with its table count. */
  lemma {:induction false} FetchedCacheSpec(catalog: Collection<Item>, rows: seq<(string, int)>)
    ensures forall k :: k in FetchedCache(catalog, map[], rows) <==> k in RowsMap(rows) && Known(catalog, k)
    ensures forall k :: k in FetchedCache(catalog, map[], rows) ==> FetchedCache(catalog, map[], rows)[k] == RowsMap(rows)[k]
  {
    if rows != [] {
      FetchedCacheSpec(catalog, rows[..|rows| - 1]);
    }
  }

  lemma FetchedCacheSnoc(catalog: Collection<Item>, base: map<string, int>, rows: seq<(string, int)>, i: nat)
    requires i < |rows|
    ensures FetchedCache(catalog, base, rows[..i + 1])
      == SetCached(catalog, FetchedCache(catalog, base, rows[..i]), ByKey(rows[i].0), rows[i].1)
  {
    assert rows[..i + 1][..i] == rows[..i];
  }

  /** The cache agrees with the table: every cached count is the stored one, and every
      stored row that names an item is cached. */
  predicate Consistent(catalog: Collection<Item>, stored: map<string, int>, cached: map<string, int>)
  {
    (forall k :: k in cached ==> Known(catalog, k) && k in stored && cached[k] == stored[k])
    && (forall k :: k in stored && Known(catalog, k) ==> k in cached)
  }

  /** For an item the catalog knows, the cached count is the stored one. */
  lemma KnownCount(catalog: Collection<Item>, stored: map<string, int>, cached: map<string, int>, key: string)
    requires Consistent(catalog, stored, cached) && Known(catalog, key)
    ensures Count(cached, key) == Count(stored, key)
  {
  }

  /** `InventoryManager`: the user's rows of the items table and their cache. */
  class InventoryManager {
    const catalog: Collection<Item>
    var stored: map<string, int>
    var cached: map<string, int>

    ghost predicate Valid()
      reads this
    {
      Consistent(catalog, stored, cached)
    }

    /** The manager is created and `fetch_items` runs over the user's rows. */
    constructor (catalog: Collection<Item>, rows: seq<(string, int)>)
      ensures this.catalog == catalog && stored == RowsMap(rows)
      ensures cached == FetchedCache(catalog, map[], rows)
      ensures Valid()
    {
      this.catalog := catalog;
      stored := RowsMap(rows);
      cached := map[];
      new;
      FetchItems(rows);
      FetchedCacheSpec(catalog, rows);
    }

    /** `fetch_items`: every row is written into the cache through `__setitem__`. */
    method FetchItems(rows: seq<(string, int)>)
      modifies this`cached
      ensures cached == FetchedCache(catalog, old(cached), rows)
    {
      var i := 0;
      while i < |rows|
        invariant 0 <= i <= |rows|
        invariant cached == FetchedCache(catalog, old(cached), rows[..i])
      {
        FetchedCacheSnoc(catalog, old(cached), rows, i);
        cached := SetCached(catalog, cached, ByKey(rows[i].0), rows[i].1);
        i := i + 1;
      }
      assert rows[..i] == rows;
    }

    /** `add_item`: an upsert of `count + amount` keyed by `str(item)`, whose returned
        count is written back into the cache. */
    method AddItem(item: ItemRef, amount: int)
      requires Valid() && (item.ByItem? ==> Known(catalog, item.key))
      modifies this`stored, this`cached
      ensures Valid()
      ensures stored == old(stored)[item.key := Count(old(stored), item.key) + amount]
      ensures cached == SetCached(catalog, old(cached), item, stored[item.key])
      ensures Known(catalog, item.key) ==>
        Count(cached, item.key) == Count(old(cached), item.key) + amount
        && forall k :: k != item.key ==> Count(cached, k) == Count(old(cached), k)
    {
      if Known(catalog, item.key) {
        KnownCount(catalog, stored, cached, item.key);
      }
      var count := Count(stored, item.key) + amount;
      stored := stored[item.key := count];
      cached := SetCached(catalog, cached, item, count);
    }

    /** The count of an item as the cache reports it. */
    function Held(item: ItemRef): Result<int, InventoryError>
      reads this
    {
      QuantityOf(catalog, cached, item)
    }
  }

  // ---- notifications ----

  /** `Notification`; the creation time is a timestamp passed in by the caller. */
  datatype Notification = Notification(createdAt: int, title: string, content: string)

  /** `NotificationsManager`: the cached notifications, newest first. */
  class NotificationsManager {
    var cached: seq<Notification>

    /** The manager is created and `fetch_notifications` loads the newest rows. */
    constructor (rows: seq<Notification>)
      ensures cached == rows
    {
      cached := rows;
    }

    /** `add_notification`: the row is inserted, the owner's unread counter goes up by one
        and the notification is put in front of the cache. */
    method AddNotification(record: UserRecord, title: string, content: string, now: int)
      requires record.Fetched()
      modifies this, record`data
      ensures cached == [Notification(now, title, content)] + old(cached)
      ensures record.data == old(record.data)[UnreadNotifications := old(record.data)[UnreadNotifications] + 1]
      ensures record.Fetched()
    {
      record.Add(map[UnreadNotifications := 1]);
      cached := [Notification(now, title, content)] + cached;
    }
  }

  // ---- the user record ----

  /** One `add_random_exp` / `add_random_bank_space` draw: whether it fell within the
      chance, and the amount drawn. */
  datatype Draw = Draw(lucky: bool, amount: int)

  predicate DrawnWithin(d: Draw, minimum: int, maximum: int) { minimum <= d.amount <= maximum }

  /** What the draw adds: its amount when lucky, nothing otherwise. */
  function Gain(d: Draw): int { if d.lucky then d.amount else 0 }

  /** A row after an experience draw and a bank-space draw: only those two columns move. */
  function Bonused(d: map<Field, int>, exp: Draw, space: Draw): (r: map<Field, int>)
    requires Complete(d)
    ensures Complete(r) && r.Keys == d.Keys
    ensures r[Wallet] == d[Wallet] && r[Bank] == d[Bank]
    ensures r[Exp] == d[Exp] + Gain(exp) && r[MaxBank] == d[MaxBank] + Gain(space)
  {
    d[Exp := d[Exp] + Gain(exp)][MaxBank := d[MaxBank] + Gain(space)]
  }

  /** The row after `make_dead`: a held lifesaver keeps the wallet, and without one the
      wallet is emptied; either way one more notification is unread. */
  function DeathRow(d: map<Field, int>, cached: map<string, int>): (r: map<Field, int>)
    requires Complete(d)
    ensures Complete(r) && r[UnreadNotifications] == d[UnreadNotifications] + 1
    ensures r[Wallet] == (if Count(cached, "lifesaver") != 0 then d[Wallet] else 0)
  {
    if Count(cached, "lifesaver") != 0 then d[UnreadNotifications := d[UnreadNotifications] + 1]
    else d[Wallet := 0][UnreadNotifications := d[UnreadNotifications] + 1]
  }

  /** The inventory after `make_dead`: one lifesaver used when one is held, otherwise the
      picked stack (if any) removed entirely. */
  function DeathCache(cached: map<string, int>, pick: Option<Item>): map<string, int>
  {
    if Count(cached, "lifesaver") != 0 then cached["lifesaver" := Count(cached, "lifesaver") - 1]
    else if pick.Some? then cached[pick.value.key := 0]
    else cached
  }

  /** The notification `make_dead` adds: "You almost died!" when a lifesaver is held,
      otherwise "You died!" naming the wallet and the picked stack that were lost. */
  function DeathNote(d: map<Field, int>, cached: map<string, int>, pick: Option<Item>,
                     reason: string, coin: string, now: int): (n: Notification)
    requires Complete(d)
    ensures n.createdAt == now
    ensures n.title == (if Count(cached, "lifesaver") != 0 then "You almost died!" else "You died!")
  {
    if Count(cached, "lifesaver") != 0 then Notification(now, "You almost died!", LifesaverMessage(reason))
    else Notification(now, "You died!",
           DeathMessage(reason, coin, d[Wallet], pick, Count(cached, if pick.Some? then pick.value.key else "")))
  }

  /** The per-user records the economy writes to: `UserRecord` with its two managers.
      `data` is the cached users row (empty until fetched); `padlockActive` and
      `discoveredRecipes` are the row's non-integer columns. */
  class UserRecord {
    const userId: int
    var data: map<Field, int>
    var padlockActive: bool
    var discoveredRecipes: seq<string>
    const inventory: InventoryManager
    const notifications: NotificationsManager

    /** The users row has been fetched into `data`. */
    predicate Fetched()
      reads this
    {
      Complete(data)
    }

    ghost predicate Valid()
      reads this, inventory
    {
      Fetched() && inventory.Valid()
    }

    /** A record as `UserRecord(user_id, db=...)` creates it: nothing fetched yet.  The
        managers' first fetches are given their rows here. */
    constructor (userId: int, catalog: Collection<Item>, itemRows: seq<(string, int)>, notificationRows: seq<Notification>)
      ensures this.userId == userId && data == map[] && !Fetched()
      ensures !padlockActive && discoveredRecipes == []
      ensures fresh(inventory) && fresh(notifications) && inventory.Valid() && inventory.catalog == catalog
      ensures inventory.stored == RowsMap(itemRows) && notifications.cached == notificationRows
    {
      this.userId := userId;
      data := map[];
      padlockActive := false;
      discoveredRecipes := [];
      inventory := new InventoryManager(catalog, itemRows);
      notifications := new NotificationsManager(notificationRows);
    }

    predicate Solvent()
      reads this
      requires Fetched()
    {
      SolventRow(data)
    }

    /** `total_coins`: what the user owns in coins, wallet and bank together. */
    function TotalCoins(): int
      reads this
      requires Fetched()
    {
      Coins(data)
    }

    function Level(): nat reads this requires Fetched() { LevelOf(data[Exp]) }

    /** `fetch_if_necessary`: the row is fetched only when nothing is cached yet. */
    method FetchIfNecessary(row: Row)
      modifies this`data
      ensures old(|data|) == 0 ==> data == row
      ensures old(|data|) != 0 ==> data == old(data)
    {
      if |data| == 0 {
        data := data + row;
      }
    }

    /** `update`: each given column overwritten, the others untouched. */
    method Update(values: map<Field, int>)
      requires Fetched()
      modifies this`data
      ensures Fetched()
      ensures data == old(data) + values
      ensures forall f :: f in values ==> data[f] == values[f]
      ensures forall f :: f in data && f !in values ==> data[f] == old(data)[f]
    {
      CompleteCovers(data, values);
      data := data + values;
    }

    /** `add`: each given delta added to its column, the others untouched. */
    method Add(deltas: map<Field, int>)
      requires Fetched()
      modifies this`data
      ensures Fetched()
      ensures deltas.Keys <= old(data).Keys && data == AddTo(old(data), deltas)
    {
      CompleteCovers(data, deltas);
      data := AddTo(data, deltas);
    }

    /** `add_coins`: the wallet goes up by exactly `coins`, which is returned. */
    method AddCoins(coins: int) returns (added: int)
      requires Fetched()
      modifies this`data
      ensures Fetched() && added == coins
      ensures data == old(data)[Wallet := old(data)[Wallet] + coins]
    {
      Add(map[Wallet := coins]);
      added := coins;
    }

    /** `add_exp`: whether the experience added moved the user up a level. */
    method AddExp(exp: int) returns (leveledUp: bool)
      requires Fetched()
      modifies this`data
      ensures Fetched()
      ensures data == old(data)[Exp := old(data)[Exp] + exp]
      ensures leveledUp <==> LevelOf(data[Exp]) > LevelOf(old(data)[Exp])
      ensures exp >= 0 ==> LevelOf(data[Exp]) >= LevelOf(old(data)[Exp])
    {
      var before := Level();
      Add(map[Exp := exp]);
      leveledUp := Level() > before;
      if exp >= 0 {
        LevelFromMonotone(old(data)[Exp], data[Exp], 0);
      }
    }

    /** `add_random_bank_space`: `lucky` is whether the draw was within the chance and
        `amount` the drawn size; nothing changes on an unlucky draw. */
    method AddRandomBankSpace(lucky: bool, amount: int, minimum: int, maximum: int) returns (added: int)
      requires Fetched() && minimum <= amount <= maximum
      modifies this`data
      ensures Fetched()
      ensures added == (if lucky then amount else 0)
      ensures data == old(data)[MaxBank := old(data)[MaxBank] + added]
    {
      if !lucky {
        return 0;
      }
      Add(map[MaxBank := amount]);
      added := amount;
    }

    /** `add_random_exp`, with the draw given as for the bank space. */
    method AddRandomExp(lucky: bool, amount: int, minimum: int, maximum: int) returns (added: int)
      requires Fetched() && minimum <= amount <= maximum
      modifies this`data
      ensures Fetched()
      ensures added == (if lucky then amount else 0)
      ensures data == old(data)[Exp := old(data)[Exp] + added]
    {
      if !lucky {
        return 0;
      }
      var _ := AddExp(amount);
      added := amount;
    }

    /** `make_dead`.  With a lifesaver one is consumed and nothing else is lost; without,
        the wallet is emptied and one non-empty stack (the random choice, given as `pick`)
        is removed entirely.  Either way one notification is recorded. */
    method MakeDead(reason: string, pick: Option<Item>, coin: string, now: int)
      requires Valid() && Known(inventory.catalog, "lifesaver")
      requires pick.Some? ==> Count(inventory.cached, pick.value.key) != 0
      requires pick.None? ==> forall k :: k in inventory.cached ==> inventory.cached[k] == 0
      modifies this`data, inventory`stored, inventory`cached, notifications
      ensures Valid()
      ensures |notifications.cached| == |old(notifications.cached)| + 1
      ensures notifications.cached == [DeathNote(old(data), old(inventory.cached), pick, reason, coin, now)] + old(notifications.cached)
      ensures data == DeathRow(old(data), old(inventory.cached)) && inventory.cached == DeathCache(old(inventory.cached), pick)
      ensures Count(old(inventory.cached), "lifesaver") != 0 ==>
        data == old(data)[UnreadNotifications := old(data)[UnreadNotifications] + 1]
        && inventory.cached == old(inventory.cached)["lifesaver" := old(inventory.cached)["lifesaver"] - 1]
        && notifications.cached[0].title == "You almost died!"
      ensures Count(old(inventory.cached), "lifesaver") == 0 ==>
        data == old(data)[Wallet := 0][UnreadNotifications := old(data)[UnreadNotifications] + 1]
        && (pick.None? ==> inventory.cached == old(inventory.cached))
        && (pick.Some? ==> inventory.cached == old(inventory.cached)[pick.value.key := 0])
        && notifications.cached[0] == Notification(now, "You died!",
             DeathMessage(reason, coin, old(data)[Wallet], pick, Count(old(inventory.cached), if pick.Some? then pick.value.key else "")))
    {
      var held := inventory.Held(ByKey("lifesaver"));
      assert held == Ok(Count(inventory.cached, "lifesaver"));
      if held.value != 0 {
        Survive(reason, now);
      } else {
        Die(reason, pick, coin, now);
      }
    }

    /** The part of `make_dead` with a lifesaver: one is consumed. */
    method Survive(reason: string, now: int)
      requires Valid() && Known(inventory.catalog, "lifesaver")
      modifies this`data, inventory`stored, inventory`cached, notifications
      ensures Valid()
      ensures notifications.cached == [Notification(now, "You almost died!", LifesaverMessage(reason))] + old(notifications.cached)
      ensures data == old(data)[UnreadNotifications := old(data)[UnreadNotifications] + 1]
      ensures inventory.cached == old(inventory.cached)["lifesaver" := Count(old(inventory.cached), "lifesaver") - 1]
    {
      inventory.AddItem(ByKey("lifesaver"), -1);
      notifications.AddNotification(this, "You almost died!", LifesaverMessage(reason), now);
    }

    /** The part of `make_dead` without a lifesaver. */
    method Die(reason: string, pick: Option<Item>, coin: string, now: int)
      requires Valid()
      requires pick.Some? ==> Count(inventory.cached, pick.value.key) != 0
      modifies this`data, inventory`stored, inventory`cached, notifications
      ensures Valid()
      ensures notifications.cached == [Notification(now, "You died!",
                DeathMessage(reason, coin, old(data)[Wallet], pick, Count(old(inventory.cached), if pick.Some? then pick.value.key else "")))]
              + old(notifications.cached)
      ensures data == old(data)[Wallet := 0][UnreadNotifications := old(data)[UnreadNotifications] + 1]
      ensures pick.None? ==> inventory.cached == old(inventory.cached)
      ensures pick.Some? ==> inventory.cached == old(inventory.cached)[pick.value.key := 0]
    {
      var old_ := data[Wallet];
      UpdateOne(data, Wallet, 0);
      Update(map[Wallet := 0]);
      var quantity := 0;
      if pick.Some? {
        quantity := Count(inventory.cached, pick.value.key);
        inventory.AddItem(ByItem(pick.value.key), -quantity);
      }
      notifications.AddNotification(this, "You died!", DeathMessage(reason, coin, old_, pick, quantity), now);
    }
  }

  /** `random.choice` over the non-empty stacks, given as `pick`: one of them, or none
      when every stack is empty. */
  predicate ValidPick(cached: map<string, int>, pick: Option<Item>)
  {
    (pick.Some? ==> Count(cached, pick.value.key) != 0)
    && (pick.None? ==> forall k :: k in cached ==> cached[k] == 0)
  }

  /** `' due to ' + reason if reason else ''`. */
  function DueTo(reason: string): string
  {
    if reason != [] then " due to " + reason else ""
  }

  const AlmostDied := "You almost died"
  const LifesaverConsumed := ", but you had a lifesaver in your inventory, which is now consumed."

  /** The content of the "You almost died!" notification. */
  function LifesaverMessage(reason: string): string
  {
    AlmostDied + DueTo(reason) + LifesaverConsumed
  }

  const YouDied := "You died"
  const YouLost := ". You lost "

  /** The content of the "You died!" notification. */
  function DeathMessage(reason: string, coin: string, lost: int, item: Option<Item>, quantity: int): string
  {
    YouDied + DueTo(reason) + YouLost + coin + " **" + Grouped(lost) + "**"
    + (if item.Some? then " and " + SentenceChunk(item.value, quantity, true) else "") + "."
  }

  // ---- the record cache ----

  /** `Database`: the cache of user records, keyed by user id. */
  class Database {
    const catalog: Collection<Item>
    var userRecords: map<int, UserRecord>

    /** Every cached record sits under its own id, and records of different users share
        no manager. */
    ghost predicate Valid()
      reads this
    {
      (forall id :: id in userRecords ==> userRecords[id].userId == id)
      && (forall a, b :: a in userRecords && b in userRecords && a != b ==>
            userRecords[a].inventory != userRecords[b].inventory
            && userRecords[a].notifications != userRecords[b].notifications)
    }

    constructor (catalog: Collection<Item>)
      ensures this.catalog == catalog && userRecords == map[] && Valid()
    {
      this.catalog := catalog;
      userRecords := map[];
    }

    /** `get_user_record`: the cached record for the id, created on first use, and (with
        `fetch`) fetched if it has never been.  The database's answers on first use are
        `row`, `itemRows` and `notificationRows`. */
    method GetUserRecord(userId: int, fetch: bool, row: Row, itemRows: seq<(string, int)>,
                         notificationRows: seq<Notification>) returns (record: UserRecord)
      requires Valid()
      modifies this, userRecords.Values
      ensures Valid()
      ensures record.userId == userId && userId in userRecords && userRecords[userId] == record
      ensures userId in old(userRecords) ==> userRecords == old(userRecords) && record == old(userRecords[userId])
      ensures userId !in old(userRecords) ==>
        fresh(record) && userRecords == old(userRecords)[userId := record]
        && record.inventory.Valid() && record.inventory.stored == RowsMap(itemRows)
      ensures forall id :: id in old(userRecords) && id != userId ==> unchanged(old(userRecords)[id])
      ensures fetch ==> (old(userId in userRecords && |userRecords[userId].data| > 0) ==> unchanged(record))
      ensures fetch ==> record.Fetched() || old(userId in userRecords && |userRecords[userId].data| > 0)
      ensures !fetch ==> userId in old(userRecords) ==> unchanged(record)
    {
      if userId in userRecords {
        record := userRecords[userId];
      } else {
        record := new UserRecord(userId, catalog, itemRows, notificationRows);
        userRecords := userRecords[userId := record];
      }
      if fetch {
        record.FetchIfNecessary(row);
      }
    }
  }

  /** Two records that share no object, so that updating one leaves the other alone. */
  ghost predicate Separate(a: UserRecord, b: UserRecord)
  {
    a != b && a.inventory != b.inventory && a.notifications != b.notifications
  }

  /** Two records of the cache for different users are different objects with separate
      managers, so a transfer between them can update both. */
  lemma CachedRecordsSeparate(db: Database, a: int, b: int)
    requires db.Valid() && a in db.userRecords && b in db.userRecords && a != b
    ensures Separate(db.userRecords[a], db.userRecords[b])
  {
  }
}

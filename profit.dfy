/** `app/extensions/profit.py`: the commands that earn coins — the daily and weekly
    rewards with their streaks, robbing another user, fishing — and the robbing keypad.
    Random draws, the skill points of both users, the confirmation prompt, the keypad's
    result and chat replies are parameters; only the balance and inventory effects and
    the replies that decide them are modelled. */
module Profit {

  import opened Results
  import opened Numeric
  import opened Text
  import opened Items
  import opened Database

  /** `_capitalize_first`: the first character upper-cased, the rest as it was. */
  function CapitalizeFirst(s: string): (r: string)
    ensures |r| == |s|
    ensures s != [] ==> !('a' <= r[0] <= 'z') && r[1..] == s[1..]
    ensures s != [] && !('a' <= s[0] <= 'z') ==> r == s
  {
    if |s| == 0 then s else [UpperChar(s[0])] + s[1..]
  }

  /** Capitalising twice is capitalising once. */
  lemma CapitalizeFirstIdempotent(s: string)
    ensures CapitalizeFirst(CapitalizeFirst(s)) == CapitalizeFirst(s)
  {
    if s != [] {
      var r := CapitalizeFirst(s);
      assert !('a' <= r[0] <= 'z');
    }
  }

  // ---- daily and weekly ----

  const Day := 86400

  /** A periodic reward: how long after the previous claim's expiry the streak survives,
      the base payout, the bonus per streak step, and the column holding the streak. */
  datatype Reward = Reward(window: int, base: int, perStreak: int, streak: Field, name: string)

  const DailyReward := Reward(Day, 5000, 250, DailyStreak, "daily")
  const WeeklyReward := Reward(2 * Day, 20000, 2000, WeeklyStreak, "weekly")

  /** The streak goes on when there is a previous expiry and now is within the window of it. */
  predicate Continues(previous: Option<int>, now: int, window: int)
  {
    previous.Some? && now - previous.value <= window
  }

  /** The payout for a streak: the base plus the bonus per step. */
  function Payout(reward: Reward, streak: int): int
  {
    reward.base + streak * reward.perStreak
  }

  /** The reply to a claim. */
  function ClaimMessage(reward: Reward, coin: string, profit: int): string
  {
    "You claimed your " + reward.name + " reward of " + coin + " **" + Grouped(profit) + "**."
  }

  /** The streak column: one more when the streak goes on, zero when it starts over. */
  method Step(record: UserRecord, field: Field, continues: bool)
    requires record.Fetched() && (field == DailyStreak || field == WeeklyStreak)
    modifies record`data
    ensures record.Fetched()
    ensures record.data == old(record.data)[field := if continues then old(record.data[field]) + 1 else 0]
  {
    if continues {
      record.Add(map[field := 1]);
    } else {
      record.Update(map[field := 0]);
    }
  }

  /** `daily` / `weekly`: the streak grows by one when the previous claim is recent
      enough and starts over at zero otherwise; the wallet then gains the payout for the
      new streak.  `previous` is the previous cooldown expiry, `None` when there is none. */
  method Claim(record: UserRecord, reward: Reward, previous: Option<int>, now: int, coin: string)
    returns (profit: int, streakBenefit: int, description: string)
    requires record.Fetched() && (reward.streak == DailyStreak || reward.streak == WeeklyStreak)
    modifies record`data
    ensures record.Fetched()
    ensures var streak := if Continues(previous, now, reward.window) then old(record.data[reward.streak]) + 1 else 0;
      && record.data == old(record.data)[reward.streak := streak][Wallet := old(record.data[Wallet]) + profit]
      && streakBenefit == streak * reward.perStreak
      && profit == Payout(reward, streak)
    ensures description == ClaimMessage(reward, coin, profit)
  {
    Step(record, reward.streak, Continues(previous, now, reward.window));
    streakBenefit := record.data[reward.streak] * reward.perStreak;
    profit := reward.base + streakBenefit;
    var _ := record.AddCoins(profit);
    description := ClaimMessage(reward, coin, profit);
  }

  /** A streak that never went below zero stays so, and its payout is at least the base
      and grows with every step. */
  lemma PayoutGrows(reward: Reward, streak: int, previous: Option<int>, now: int)
    requires streak >= 0 && reward.perStreak > 0
    ensures var next := if Continues(previous, now, reward.window) then streak + 1 else 0;
      next >= 0 && Payout(reward, next) >= reward.base
      && (Continues(previous, now, reward.window) ==> Payout(reward, next) == Payout(reward, streak) + reward.perStreak)
  {
  }

  /** The daily payout is 5000 plus 250 per streak step; the weekly one 20000 plus 2000. */
  lemma RewardAmounts(streak: int)
    ensures Payout(DailyReward, streak) == 5000 + 250 * streak
    ensures Payout(WeeklyReward, streak) == 20000 + 2000 * streak
    ensures DailyReward.window == 86400 && WeeklyReward.window == 172800
  {
  }

  // ---- rob ----

  const RobMinimum := 500

  /** The refusals of `rob`, in the order it checks them: robbing oneself, a bot, a victim
      with less than 500 in the wallet, then a robber with less than 500. */
  function RobRefusal(isSelf: bool, isBot: bool, theirWallet: int, wallet: int, coin: string): (r: Option<string>)
    ensures r.None? <==> !isSelf && !isBot && theirWallet >= RobMinimum && wallet >= RobMinimum
    ensures isSelf ==> r == Some("What are you trying to do? Rob yourself? Sounds kinda dumb to me.")
  {
    if isSelf then Some("What are you trying to do? Rob yourself? Sounds kinda dumb to me.")
    else if isBot then Some("You cannot rob bot accounts.")
    else if theirWallet < RobMinimum then
      Some("The person you're trying to rob is pretty poor, try robbing people with more than " + coin + " 500 next time.")
    else if wallet < RobMinimum then Some("You must have " + coin + " 500 in your wallet in order to rob someone.")
    else None
  }

  /** The success chance in percent: 50, plus the robber's points, minus the victim's
      defence, but never below 2. */
  function SuccessChance(robPoints: int, defensePoints: int): (r: int)
    ensures r >= 2 && r >= 50 + robPoints - defensePoints
    ensures r == 2 || r == 50 + robPoints - defensePoints
  {
    var c := 50 + robPoints - defensePoints;
    if c > 2 then c else 2
  }

  /** The death chance, as a fraction: 10 percent, less half the robber's points, plus
      half the victim's defence, never negative. */
  function DeathChance(robPoints: int, defensePoints: int): (r: real)
    ensures r >= 0.0
  {
    var c := 10.0 - robPoints as real / 2.0 + defensePoints as real / 2.0;
    (if c > 0.0 then c else 0.0) / 100.0
  }

  /** A fine: the drawn share of the wallet, rounded, but at least 500. */
  function Fine(wallet: int, share: real): (r: int)
    ensures r >= RobMinimum
  {
    var f := Round(wallet as real * share);
    if f > RobMinimum then f else RobMinimum
  }

  /** A robber with at least 500 never pays more than the wallet holds. */
  lemma FineWithinWallet(wallet: int, share: real)
    requires wallet >= RobMinimum && 0.0 <= share <= 1.0
    ensures RobMinimum <= Fine(wallet, share) <= wallet
  {
    RoundShare(wallet, share);
  }

  /** The share of the victim's wallet taken: the draw plus 2 percent per rob point (at
      most 50 percent), capped at the whole wallet. */
  function PayoutShare(draw: real, robPoints: int): (r: real)
    ensures r <= 1.0
    ensures robPoints >= 0 ==> r >= (if draw <= 1.0 then draw else 1.0)
  {
    var bonus := robPoints as real * 0.02;
    var bonus' := if bonus < 0.5 then bonus else 0.5;
    var share := draw + bonus';
    if share < 1.0 then share else 1.0
  }

  /** What a successful rob takes: the share of the victim's wallet, rounded. */
  function Loot(theirWallet: int, share: real): int
  {
    Round(theirWallet as real * share)
  }

  /** A successful rob never takes more than the victim has, nor a negative amount. */
  lemma LootWithinWallet(theirWallet: int, share: real)
    requires theirWallet >= 0 && 0.0 <= share <= 1.0
    ensures 0 <= Loot(theirWallet, share) <= theirWallet
  {
    RoundShare(theirWallet, share);
  }

  /** How the keypad phase ended: time ran out, the victim pressed CATCH!, or the robber
      pressed Submit!. */
  datatype Keypad = TimedOut | CaughtOut | Submitted

  /** The random draws of one robbery: the bonuses, the four fine shares, the success
      and death rolls and the payout share. */
  datatype RobDraws = RobDraws(space: Draw, exp: Draw, padlockFine: real, timeoutFine: real,
                               caughtFine: real, policeFine: real, success: real, death: real, payout: real)

  predicate ValidRobDraws(d: RobDraws)
  {
    DrawnWithin(d.space, 10, 15) && DrawnWithin(d.exp, 12, 17)
    && 0.05 <= d.padlockFine <= 0.25 && 0.1 <= d.timeoutFine <= 0.5
    && 0.2 <= d.caughtFine <= 0.6 && 0.2 <= d.policeFine <= 0.7
    && 0.0 <= d.success < 1.0 && 0.0 <= d.death < 1.0 && 0.3 <= d.payout <= 0.8
  }

  datatype RobOutcome =
    | RobRefused(message: string)
    | Declined
    | PadlockFine(fine: int)
    | TimeoutFine(fine: int)
    | CaughtFine(fine: int)
    | Stolen(payout: int)
    | Shot
    | PoliceFine(fine: int)

  /** The outcome of a confirmed robbery: a padlock catches the robber at once; then the
      keypad can time out or be caught; then the success roll, the death roll, and
      otherwise a fine paid to the victim. */
  function RobResult(wallet: int, theirWallet: int, padlock: bool, keypad: Keypad,
                     robPoints: int, defensePoints: int, d: RobDraws): RobOutcome
  {
    if padlock then PadlockFine(Fine(wallet, d.padlockFine))
    else if keypad == TimedOut then TimeoutFine(Fine(wallet, d.timeoutFine))
    else if keypad == CaughtOut then CaughtFine(Fine(wallet, d.caughtFine))
    else if d.success < SuccessChance(robPoints, defensePoints) as real / 100.0 then
      Stolen(Loot(theirWallet, PayoutShare(d.payout, robPoints)))
    else if d.death < DeathChance(robPoints, defensePoints) then Shot
    else PoliceFine(Fine(wallet, d.policeFine))
  }

  /** Whatever a confirmed robbery between two users with at least 500 each comes to,
      every fine lies between 500 and the robber's wallet and every payout between zero
      and the victim's wallet, so neither wallet goes negative. */
  lemma RobResultBounded(wallet: int, theirWallet: int, padlock: bool, keypad: Keypad,
                         robPoints: int, defensePoints: int, d: RobDraws)
    requires wallet >= RobMinimum && theirWallet >= RobMinimum && robPoints >= 0 && ValidRobDraws(d)
    ensures var o := RobResult(wallet, theirWallet, padlock, keypad, robPoints, defensePoints, d);
      (o.PadlockFine? || o.TimeoutFine? || o.CaughtFine? || o.PoliceFine? ==> RobMinimum <= o.fine <= wallet)
      && (o.Stolen? ==> 0 <= o.payout <= theirWallet)
      && (padlock ==> o.PadlockFine?)
  {
    if padlock {
      FineWithinWallet(wallet, d.padlockFine);
    } else if keypad == TimedOut {
      FineWithinWallet(wallet, d.timeoutFine);
    } else if keypad == CaughtOut {
      FineWithinWallet(wallet, d.caughtFine);
    } else if d.success < SuccessChance(robPoints, defensePoints) as real / 100.0 {
      LootWithinWallet(theirWallet, PayoutShare(d.payout, robPoints));
    } else if d.death >= DeathChance(robPoints, defensePoints) {
      FineWithinWallet(wallet, d.policeFine);
    }
  }

  /** `add(wallet=-fine)`. */
  method Penalize(record: UserRecord, fine: int)
    requires record.Fetched()
    modifies record`data
    ensures record.Fetched() && record.data == old(record.data)[Wallet := old(record.data[Wallet]) - fine]
  {
    record.Add(map[Wallet := -fine]);
  }

  /** `amount` coins from one wallet to another: what the two hold together is kept. */
  method MoveCoins(from: UserRecord, to: UserRecord, amount: int)
    requires from.Fetched() && to.Fetched() && from != to
    modifies from`data, to`data
    ensures from.Fetched() && to.Fetched()
    ensures from.data == old(from.data)[Wallet := old(from.data[Wallet]) - amount]
    ensures to.data == old(to.data)[Wallet := old(to.data[Wallet]) + amount]
    ensures from.data[Wallet] + to.data[Wallet] == old(from.data[Wallet]) + old(to.data[Wallet])
  {
    from.Add(map[Wallet := -amount]);
    to.Add(map[Wallet := amount]);
  }

  /** How much a robber's wallet moves with each ending: down by a fine, up by a payout. */
  function RobberDelta(o: RobOutcome): int
  {
    match o
    case PadlockFine(f) => -f
    case TimeoutFine(f) => -f
    case CaughtFine(f) => -f
    case PoliceFine(f) => -f
    case Stolen(p) => p
    case _ => 0
  }

  /** The robber's row after an ending other than death: only the wallet moves, by
      `RobberDelta`. */
  function RobberAfter(m: map<Field, int>, o: RobOutcome): (r: map<Field, int>)
    requires Complete(m)
    ensures Complete(r) && r[Wallet] == m[Wallet] + RobberDelta(o)
  {
    m[Wallet := m[Wallet] + RobberDelta(o)]
  }

  /** The victim's row after an ending: a theft or a police fine moves its wallet the
      other way from the robber's; every other ending leaves it alone. */
  function VictimAfter(m: map<Field, int>, o: RobOutcome): (r: map<Field, int>)
    requires Complete(m)
    ensures Complete(r)
    ensures o.Stolen? || o.PoliceFine? ==> r[Wallet] == m[Wallet] - RobberDelta(o)
    ensures !o.Stolen? && !o.PoliceFine? ==> r == m
  {
    if o.Stolen? || o.PoliceFine? then m[Wallet := m[Wallet] - RobberDelta(o)] else m
  }

  /** `rob`'s two bonuses, before the confirmation. */
  method Bonus(record: UserRecord, space: Draw, exp: Draw)
    requires record.Fetched() && DrawnWithin(space, 10, 15) && DrawnWithin(exp, 12, 17)
    modifies record`data
    ensures record.Fetched() && record.data == Bonused(old(record.data), exp, space)
  {
    var _ := record.AddRandomBankSpace(space.lucky, space.amount, 10, 15);
    var _ := record.AddRandomExp(exp.lucky, exp.amount, 12, 17);
  }

  /** The robbery once confirmed, ending as `RobResult` says: a padlock fine also
      switches the victim's padlock off, a theft moves the payout from the victim to the
      robber, the police fine moves the fine the other way, the other fines only leave
      the robber's wallet, and a shot robber dies. */
  method Attempt(record: UserRecord, their: UserRecord, keypad: Keypad, robPoints: int, defensePoints: int,
                 d: RobDraws, pick: Option<Item>, coin: string, now: int)
    returns (o: RobOutcome)
    requires record.Valid() && their.Valid() && Separate(record, their) && ValidRobDraws(d)
    requires Known(record.inventory.catalog, "lifesaver") && ValidPick(record.inventory.cached, pick)
    modifies record`data, record.inventory, record.notifications, their`data, their`padlockActive
    ensures record.Valid() && their.Valid()
    ensures o == RobResult(old(record.data[Wallet]), old(their.data[Wallet]), old(their.padlockActive),
                           keypad, robPoints, defensePoints, d)
    ensures !o.Shot? ==>
      record.data == RobberAfter(old(record.data), o) && record.inventory.cached == old(record.inventory.cached)
      && record.notifications.cached == old(record.notifications.cached)
    ensures o.Shot? ==>
      record.data == DeathRow(old(record.data), old(record.inventory.cached))
      && record.inventory.cached == DeathCache(old(record.inventory.cached), pick)
      && record.notifications.cached
         == [DeathNote(old(record.data), old(record.inventory.cached), pick, "", coin, now)] + old(record.notifications.cached)
    ensures their.data == VictimAfter(old(their.data), o)
    ensures their.padlockActive == (old(their.padlockActive) && !o.PadlockFine?)
  {
    o := RobResult(record.data[Wallet], their.data[Wallet], their.padlockActive, keypad, robPoints, defensePoints, d);
    if o.Shot? {
      record.MakeDead("", pick, coin, now);
    } else {
      Collect(record, their, o);
    }
  }

  /** The wallet effects of every ending but death: a fine leaves the robber's wallet
      (and goes to the victim when the police hand it over), a padlock fine also
      switches the padlock off, and a theft moves the payout to the robber. */
  method Collect(record: UserRecord, their: UserRecord, o: RobOutcome)
    requires record.Fetched() && their.Fetched() && record != their
    requires o.PadlockFine? || o.TimeoutFine? || o.CaughtFine? || o.Stolen? || o.PoliceFine?
    modifies record`data, their`data, their`padlockActive
    ensures record.Fetched() && their.Fetched()
    ensures record.data == RobberAfter(old(record.data), o)
    ensures their.data == VictimAfter(old(their.data), o)
    ensures their.padlockActive == (old(their.padlockActive) && !o.PadlockFine?)
  {
    match o
    case PadlockFine(fine) =>
      Penalize(record, fine);
      their.padlockActive := false;
    case TimeoutFine(fine) =>
      Penalize(record, fine);
    case CaughtFine(fine) =>
      Penalize(record, fine);
    case Stolen(payout) =>
      MoveCoins(their, record, payout);
    case PoliceFine(fine) =>
      MoveCoins(record, their, fine);
  }

  /** `rob` past its refusals: the robber gets the two bonuses, and a robbery that is
      confirmed goes as in `Attempt`. */
  method Proceed(record: UserRecord, their: UserRecord, robPoints: int, defensePoints: int,
                 confirmed: bool, keypad: Keypad, d: RobDraws, pick: Option<Item>, coin: string, now: int)
    returns (o: RobOutcome)
    requires record.Valid() && their.Valid() && Separate(record, their) && ValidRobDraws(d)
    requires Known(record.inventory.catalog, "lifesaver") && ValidPick(record.inventory.cached, pick)
    modifies record`data, record.inventory, record.notifications, their`data, their`padlockActive
    ensures record.Valid() && their.Valid()
    ensures !confirmed ==> o == Declined && record.data == Bonused(old(record.data), d.exp, d.space)
    ensures confirmed ==>
      o == RobResult(old(record.data[Wallet]), old(their.data[Wallet]), old(their.padlockActive),
                     keypad, robPoints, defensePoints, d)
    ensures confirmed && !o.Shot? ==> record.data == RobberAfter(Bonused(old(record.data), d.exp, d.space), o)
    ensures !o.Shot? ==>
      record.inventory.cached == old(record.inventory.cached)
      && record.notifications.cached == old(record.notifications.cached)
    ensures o.Shot? ==>
      record.data == DeathRow(Bonused(old(record.data), d.exp, d.space), old(record.inventory.cached))
      && record.inventory.cached == DeathCache(old(record.inventory.cached), pick)
      && record.notifications.cached
         == [DeathNote(Bonused(old(record.data), d.exp, d.space), old(record.inventory.cached), pick, "", coin, now)]
            + old(record.notifications.cached)
    ensures their.data == VictimAfter(old(their.data), o)
    ensures their.padlockActive == (old(their.padlockActive) && !o.PadlockFine?)
  {
    Bonus(record, d.space, d.exp);
    if !confirmed {
      return Declined;
    }
    o := Attempt(record, their, keypad, robPoints, defensePoints, d, pick, coin, now);
  }

  /** `rob`: refused, with nothing changed, as `RobRefusal` says; otherwise as in
      `Proceed`. */
  method Rob(record: UserRecord, their: UserRecord, isBot: bool, robPoints: int, defensePoints: int,
             confirmed: bool, keypad: Keypad, d: RobDraws, pick: Option<Item>, coin: string, now: int)
    returns (o: RobOutcome)
    requires record.Valid() && their.Valid() && ValidRobDraws(d)
    requires record.userId != their.userId ==> Separate(record, their)
    requires Known(record.inventory.catalog, "lifesaver") && ValidPick(record.inventory.cached, pick)
    modifies record`data, record.inventory, record.notifications, their`data, their`padlockActive
    ensures record.Valid() && their.Valid()
    ensures var refusal := RobRefusal(record.userId == their.userId, isBot, old(their.data[Wallet]), old(record.data[Wallet]), coin);
      && (refusal.Some? ==> o == RobRefused(refusal.value) && record.data == old(record.data)
                            && their.data == old(their.data) && their.padlockActive == old(their.padlockActive))
      && (refusal.None? && !confirmed ==> o == Declined && record.data == Bonused(old(record.data), d.exp, d.space))
      && (refusal.None? && confirmed ==>
            o == RobResult(old(record.data[Wallet]), old(their.data[Wallet]), old(their.padlockActive),
                           keypad, robPoints, defensePoints, d)
            && (!o.Shot? ==> record.data == RobberAfter(Bonused(old(record.data), d.exp, d.space), o))
            && (o.Shot? ==>
                  record.data == DeathRow(Bonused(old(record.data), d.exp, d.space), old(record.inventory.cached))
                  && record.inventory.cached == DeathCache(old(record.inventory.cached), pick)
                  && record.notifications.cached
                     == [DeathNote(Bonused(old(record.data), d.exp, d.space), old(record.inventory.cached), pick, "", coin, now)]
                        + old(record.notifications.cached))
            && their.data == VictimAfter(old(their.data), o))
    ensures !o.Shot? ==>
      record.inventory.cached == old(record.inventory.cached)
      && record.notifications.cached == old(record.notifications.cached)
  {
    var refusal := RobRefusal(record.userId == their.userId, isBot, their.data[Wallet], record.data[Wallet], coin);
    if refusal.Some? {
      return RobRefused(refusal.value);
    }
    o := Proceed(record, their, robPoints, defensePoints, confirmed, keypad, d, pick, coin, now);
  }

  /** `RobbingKeypad`: the robber may clear and submit, only the victim may catch. */
  class RobbingKeypad {
    const author: int
    const opponent: int
    const code: int
    var entered: string
    var caught: bool
    var stopped: bool

    /** The view is caught only by stopping. */
    ghost predicate Valid()
      reads this
    {
      caught ==> stopped
    }

    constructor (author: int, opponent: int, code: int)
      ensures this.author == author && this.opponent == opponent && this.code == code
      ensures entered == "" && !caught && !stopped && Valid()
    {
      this.author := author;
      this.opponent := opponent;
      this.code := code;
      entered := "";
      caught := false;
      stopped := false;
    }

    /** Clear: anyone but the robber is told "nope"; the robber empties the entry. */
    method Clear(user: int) returns (reply: Option<string>)
      requires Valid()
      modifies this`entered
      ensures Valid()
      ensures user != author ==> reply == Some("nope") && entered == old(entered)
      ensures user == author ==> reply.None? && entered == ""
    {
      if user != author {
        return Some("nope");
      }
      entered := "";
      reply := None;
    }

    /** Submit!: anyone but the robber is told "nope"; the robber ends the keypad phase. */
    method Submit(user: int) returns (reply: Option<string>)
      requires Valid()
      modifies this`stopped
      ensures Valid()
      ensures user != author ==> reply == Some("nope") && stopped == old(stopped)
      ensures user == author ==> reply.None? && stopped
    {
      if user != author {
        return Some("nope");
      }
      stopped := true;
      reply := None;
    }

    /** CATCH!: anyone but the victim is turned away; the victim catches the robber and
        ends the keypad phase. */
    method Catch(user: int, mention: string) returns (reply: Option<string>)
      requires Valid()
      modifies this`caught, this`stopped
      ensures Valid()
      ensures user != opponent ==> reply == Some("Only " + mention + " can use this button.")
                                   && caught == old(caught) && stopped == old(stopped)
      ensures user == opponent ==> reply.None? && caught && stopped
    {
      if user != opponent {
        return Some("Only " + mention + " can use this button.");
      }
      caught := true;
      stopped := true;
      reply := None;
    }
  }

  /** How the keypad phase looks to `rob` once the view has stopped (or not). */
  function KeypadResult(view: RobbingKeypad): Keypad
    reads view
  {
    if !view.stopped then TimedOut else if view.caught then CaughtOut else Submitted
  }

  // ---- fish ----

  const FishingPole := "fishing_pole"
  const FishBait := "fish_bait"

  /** The fish that make the catch heavy. */
  const RareFish: set<string> := {"octopus", "dolphin", "shark", "whale", "axolotl", "vibe_fish"}

  /** The keys of `FISH_CHANCES` and `FISH_CHANCES_WITH_BAIT`, which list the same draws
      in the same order; `None` is the empty draw. */
  const FishDraws: seq<Option<string>> :=
    [None, Some("fish"), Some("sardine"), Some("angel_fish"), Some("blowfish"), Some("crab"), Some("lobster"),
     Some("octopus"), Some("dolphin"), Some("shark"), Some("whale"), Some("axolotl"), Some("vibe_fish")]

  /** The weight `FISH_CHANCES` gives to draw `i` of `FishDraws`. */
  function FishWeight(i: int): real
  {
    match i
    case 0 => 1.0 case 1 => 0.4 case 2 => 0.25 case 3 => 0.175 case 4 => 0.125 case 5 => 0.075
    case 6 => 0.04 case 7 => 0.02 case 8 => 0.0075 case 9 => 0.004 case 10 => 0.0015 case 11 => 0.0005
    case 12 => 0.00025 case _ => 0.0
  }

  /** The weight `FISH_CHANCES_WITH_BAIT` gives to draw `i` of `FishDraws`. */
  function BaitWeight(i: int): real
  {
    match i
    case 0 => 1.0 case 1 => 0.4 case 2 => 0.25 case 3 => 0.2 case 4 => 0.2 case 5 => 0.125
    case 6 => 0.055 case 7 => 0.03 case 8 => 0.015 case 9 => 0.0085 case 10 => 0.0035 case 11 => 0.0015
    case 12 => 0.00075 case _ => 0.0
  }

  /** The weight `fish` draws `i` with: the bait table exactly when a bait was used. */
  function WeightFor(baited: bool, i: int): real
  {
    if baited then BaitWeight(i) else FishWeight(i)
  }

  /** Every draw has a positive weight in both tables, and a bait never makes a draw less
      likely; it makes every draw from the angel fish on strictly likelier. */
  lemma BaitRaisesOdds(i: int)
    requires 0 <= i < |FishDraws|
    ensures 0.0 < WeightFor(false, i) <= WeightFor(true, i)
    ensures i >= 3 ==> WeightFor(false, i) < WeightFor(true, i)
  {
  }

  /** `{item: fish.count(item) for item in set(fish) if item is not None}`: how many of
      each fish the draws hold, the empty draws left out. */
  function Tally(draws: seq<Option<string>>): (r: multiset<string>)
    ensures forall k :: r[k] == multiset(draws)[Some(k)]
    ensures |r| <= |draws|
  {
    if draws == [] then multiset{}
    else
      var rest := draws[..|draws| - 1];
      var last := draws[|draws| - 1];
      assert draws == rest + [last];
      var t := Tally(rest);
      if last.Some? then t + multiset{last.value} else t
  }

  /** Five draws never tally more than five fish. */
  lemma TallyAtMostFive(draws: seq<Option<string>>)
    requires |draws| == 5
    ensures |Tally(draws)| <= 5
    ensures forall k :: k in Tally(draws) <==> Some(k) in draws
  {
    forall k ensures k in Tally(draws) <==> Some(k) in draws {
      assert Tally(draws)[k] == multiset(draws)[Some(k)];
    }
  }

  /** The cache after the bait, if any is held, is used up. */
  function AfterBait(cached: map<string, int>): map<string, int>
  {
    if Count(cached, FishBait) != 0 then cached[FishBait := Count(cached, FishBait) - 1] else cached
  }

  /** The cache after the fishing pole snaps. */
  function Snapped(cached: map<string, int>): map<string, int>
  {
    cached[FishingPole := Count(cached, FishingPole) - 1]
  }

  /** The reply typed to wind up the pole matches the prompt, ignoring case; a timeout
      (`None`) never does. */
  predicate WoundUp(prompt: string, response: Option<string>)
  {
    response.Some? && Lower(response.value) == prompt
  }

  datatype FishOutcome = NeedPole(message: string) | NothingCaught | PoleSnapped(message: string)
                       | BittenOff(message: string) | Landed(fish: multiset<string>)

  /** The catch loop: each tallied fish added in its count, in any order. */
  method Land(inventory: InventoryManager, fish: multiset<string>)
    requires inventory.Valid() && forall k :: k in fish ==> Known(inventory.catalog, k)
    modifies inventory`stored, inventory`cached
    ensures inventory.Valid()
    ensures forall k :: Count(inventory.cached, k) == Count(old(inventory.cached), k) + fish[k]
  {
    var remaining := fish;
    while remaining != multiset{}
      invariant inventory.Valid()
      invariant forall k :: remaining[k] == 0 || remaining[k] == fish[k]
      invariant forall k :: Count(inventory.cached, k) == Count(old(inventory.cached), k) + fish[k] - remaining[k]
      decreases |remaining|
    {
      var k :| k in remaining;
      inventory.AddItem(ByItem(k), remaining[k]);
      remaining := remaining[k := 0];
    }
  }

  /** A bait, if one is held, is used up. */
  method UseBait(inventory: InventoryManager) returns (baited: bool)
    requires inventory.Valid() && Known(inventory.catalog, FishBait)
    modifies inventory`stored, inventory`cached
    ensures inventory.Valid()
    ensures baited == (Count(old(inventory.cached), FishBait) != 0)
    ensures inventory.cached == AfterBait(old(inventory.cached))
  {
    baited := Count(inventory.cached, FishBait) != 0;
    if baited {
      inventory.AddItem(ByKey(FishBait), -1);
    }
  }

  const FailedWindUp := "You failed to wind up your fishing pole"
  const SlowWindUp := "You couldn't wind up your fishing pole in time"
  const BitOffTail := ", and the fish jumped out of the water and bit your head off. You died, and also lost your fishing pole."
  const SnappedTail := ", and your fishing pole snapped in half. Nice one."

  /** The start of the reply when a heavy catch was not wound up: a wrong reply, or none
      in time. */
  function Initial(response: Option<string>): string
  {
    if response.Some? then FailedWindUp else SlowWindUp
  }

  const BitOffReason := "a fish biting your head off"

  /** A heavy catch that was not wound up: the pole is lost, and one roll in 0.15 the
      fish bites the fisher's head off. */
  method Snap(record: UserRecord, response: Option<string>, deathRoll: real, pick: Option<Item>, coin: string, now: int)
    returns (o: FishOutcome)
    requires record.Valid() && Known(record.inventory.catalog, FishingPole) && Known(record.inventory.catalog, "lifesaver")
    requires ValidPick(Snapped(record.inventory.cached), pick)
    modifies record`data, record.inventory, record.notifications
    ensures record.Valid()
    ensures deathRoll < 0.15 ==>
      o == BittenOff(Initial(response) + BitOffTail)
      && record.data == DeathRow(old(record.data), Snapped(old(record.inventory.cached)))
      && record.inventory.cached == DeathCache(Snapped(old(record.inventory.cached)), pick)
      && record.notifications.cached
         == [DeathNote(old(record.data), Snapped(old(record.inventory.cached)), pick, BitOffReason, coin, now)]
            + old(record.notifications.cached)
    ensures deathRoll >= 0.15 ==>
      o == PoleSnapped(Initial(response) + SnappedTail)
      && record.data == old(record.data) && record.inventory.cached == Snapped(old(record.inventory.cached))
      && record.notifications.cached == old(record.notifications.cached)
  {
    record.inventory.AddItem(ByKey(FishingPole), -1);
    if deathRoll < 0.15 {
      record.MakeDead(BitOffReason, pick, coin, now);
      return BittenOff(Initial(response) + BitOffTail);
    }
    o := PoleSnapped(Initial(response) + SnappedTail);
  }

  /** Whether a tally holds one of the heavy fish. */
  predicate Heavy(fish: multiset<string>)
  {
    exists k :: k in fish && k in RareFish
  }

  /** A non-empty tally: a heavy catch that was not wound up ends as in `Snap`; otherwise
      every tallied fish is added. */
  method Reel(record: UserRecord, fish: multiset<string>, prompt: string, response: Option<string>,
              deathRoll: real, pick: Option<Item>, coin: string, now: int)
    returns (o: FishOutcome)
    requires record.Valid() && Known(record.inventory.catalog, FishingPole) && Known(record.inventory.catalog, "lifesaver")
    requires forall k :: k in fish ==> Known(record.inventory.catalog, k)
    requires ValidPick(Snapped(record.inventory.cached), pick)
    modifies record`data, record.inventory, record.notifications
    ensures record.Valid()
    ensures o.PoleSnapped? || o.BittenOff? <==> Heavy(fish) && !WoundUp(prompt, response)
    ensures !(o.PoleSnapped? || o.BittenOff?) ==> o == Landed(fish)
    ensures o.PoleSnapped? ==> record.inventory.cached == Snapped(old(record.inventory.cached))
    ensures o.BittenOff? ==>
      deathRoll < 0.15
      && record.data == DeathRow(old(record.data), Snapped(old(record.inventory.cached)))
      && record.inventory.cached == DeathCache(Snapped(old(record.inventory.cached)), pick)
      && record.notifications.cached
         == [DeathNote(old(record.data), Snapped(old(record.inventory.cached)), pick, BitOffReason, coin, now)]
            + old(record.notifications.cached)
    ensures o.Landed? ==>
      forall k :: Count(record.inventory.cached, k) == Count(old(record.inventory.cached), k) + fish[k]
    ensures !o.BittenOff? ==>
      record.data == old(record.data) && record.notifications.cached == old(record.notifications.cached)
  {
    if Heavy(fish) && !WoundUp(prompt, response) {
      o := Snap(record, response, deathRoll, pick, coin, now);
      return;
    }
    Land(record.inventory, fish);
    o := Landed(fish);
  }

  /** `fish`: without a fishing pole nothing happens; otherwise a bait, if held, is used
      up; an empty tally catches nothing; a heavy catch must be wound up by typing the
      prompt, or it ends as in `Snap`; otherwise every tallied fish is added. */
  method Fish(record: UserRecord, draws: seq<Option<string>>, prompt: string, response: Option<string>,
              deathRoll: real, pick: Option<Item>, coin: string, now: int)
    returns (o: FishOutcome, baited: bool)
    requires record.Valid() && |draws| == 5
    requires Known(record.inventory.catalog, FishingPole) && Known(record.inventory.catalog, FishBait)
    requires Known(record.inventory.catalog, "lifesaver")
    requires forall i :: 0 <= i < |draws| ==> draws[i] in FishDraws
    requires forall k :: k in Tally(draws) ==> Known(record.inventory.catalog, k)
    requires ValidPick(Snapped(AfterBait(record.inventory.cached)), pick)
    modifies record`data, record.inventory, record.notifications
    ensures record.Valid()
    ensures Count(old(record.inventory.cached), FishingPole) == 0 ==>
      o == NeedPole("You need " + SentenceChunk(ItemByKey(record.inventory.catalog, FishingPole).value, 1, true) + " to fish.")
      && record.inventory.cached == old(record.inventory.cached) && !baited
    ensures Count(old(record.inventory.cached), FishingPole) != 0 ==>
      baited == (Count(old(record.inventory.cached), FishBait) != 0)
    ensures o.NothingCaught? <==> Count(old(record.inventory.cached), FishingPole) != 0 && Tally(draws) == multiset{}
    ensures o.NothingCaught? ==> record.inventory.cached == AfterBait(old(record.inventory.cached))
    ensures o.PoleSnapped? || o.BittenOff? <==>
      Count(old(record.inventory.cached), FishingPole) != 0 && Heavy(Tally(draws)) && !WoundUp(prompt, response)
    ensures o.PoleSnapped? ==> record.inventory.cached == Snapped(AfterBait(old(record.inventory.cached)))
    ensures o.BittenOff? ==>
      deathRoll < 0.15
      && record.data == DeathRow(old(record.data), Snapped(AfterBait(old(record.inventory.cached))))
      && record.inventory.cached == DeathCache(Snapped(AfterBait(old(record.inventory.cached))), pick)
      && record.notifications.cached
         == [DeathNote(old(record.data), Snapped(AfterBait(old(record.inventory.cached))), pick, BitOffReason, coin, now)]
            + old(record.notifications.cached)
    ensures o.Landed? ==>
      o.fish == Tally(draws)
      && forall k :: Count(record.inventory.cached, k) == Count(AfterBait(old(record.inventory.cached)), k) + o.fish[k]
    ensures !o.BittenOff? ==>
      record.data == old(record.data) && record.notifications.cached == old(record.notifications.cached)
  {
    if Count(record.inventory.cached, FishingPole) == 0 {
      return NeedPole("You need " + SentenceChunk(ItemByKey(record.inventory.catalog, FishingPole).value, 1, true) + " to fish."), false;
    }
    baited := UseBait(record.inventory);
    var fish := Tally(draws);
    if fish == multiset{} {
      return NothingCaught, baited;
    }
    o := Reel(record, fish, prompt, response, deathRoll, pick, coin, now);
  }
}

/** `app/extensions/casino.py`: the dice game.  The player and the bot each roll two
    dice; the higher sum wins.  The dice, the bonus draws and the winning multiplier are
    parameters; the bet arrives already converted by `CasinoBet`. */
module Casino {

  import opened Results
  import opened Numeric
  import opened Text
  import opened Database
  import C = Converters

  /** A die shows one of `range(1, 6)`. */
  predicate Die(d: int) { 1 <= d <= 5 }

  /** A roll: two dice. */
  predicate ValidRoll(roll: seq<int>)
  {
    |roll| == 2 && Die(roll[0]) && Die(roll[1])
  }

  function Sum(roll: seq<int>): int
  {
    if roll == [] then 0 else roll[0] + Sum(roll[1..])
  }

  datatype RollError = AssertionError | IndexError

  /** Python indexing into a list of faces: negative indices count from the end. */
  function Face(faces: seq<string>, i: int): (r: Option<string>)
    ensures 0 <= i < |faces| ==> r == Some(faces[i])
    ensures r.Some? <==> -|faces| <= i < |faces|
  {
    if 0 <= i < |faces| then Some(faces[i])
    else if -|faces| <= i < 0 then Some(faces[i + |faces|])
    else None
  }

  /** `_format_roll`: exactly two dice, shown as their two faces with a space between. */
  function FormatRoll(faces: seq<string>, roll: seq<int>): (r: Result<string, RollError>)
    ensures |roll| != 2 ==> r == Err(AssertionError)
    ensures ValidRoll(roll) && |faces| == 6 ==> r == Ok(faces[roll[0]] + " " + faces[roll[1]])
  {
    if |roll| != 2 then Err(AssertionError)
    else
      var first := Face(faces, roll[0]);
      var second := Face(faces, roll[1]);
      if first.None? || second.None? then Err(IndexError)
      else Ok(first.value + " " + second.value)
  }

  datatype Verdict = Win | Tie | Loss

  /** The player's sum against the bot's. */
  function Judge(yours: int, mine: int): Verdict
  {
    if yours > mine then Win else if yours == mine then Tie else Loss
  }

  /** The verdict is exactly one of the three, and swapping the two rolls swaps a win
      for a loss and keeps a tie. */
  lemma JudgeSwap(yours: int, mine: int)
    ensures Judge(yours, mine) == Win <==> yours > mine
    ensures Judge(yours, mine) == Tie <==> yours == mine
    ensures Judge(yours, mine) == Loss <==> yours < mine
    ensures Judge(yours, mine) == Win <==> Judge(mine, yours) == Loss
    ensures Judge(yours, mine) == Tie <==> Judge(mine, yours) == Tie
  {
  }

  /** What a win pays: the bet times the drawn multiplier, rounded. */
  function Winnings(bet: int, multiplier: real): int
  {
    Round(bet as real * multiplier)
  }

  /** With a multiplier between 0.55 and 0.95, a win pays at least half the bet and
      never more than the bet. */
  lemma WinningsBounds(bet: int, multiplier: real)
    requires bet >= 0 && 0.55 <= multiplier <= 0.95
    ensures bet / 2 <= Winnings(bet, multiplier) <= bet
  {
    var x := bet as real * multiplier;
    assert bet as real * 0.5 <= x <= bet as real by {
      assert x - bet as real * 0.5 == bet as real * (multiplier - 0.5);
      assert bet as real - x == bet as real * (1.0 - multiplier);
    }
    assert 2 * (bet / 2) <= bet;
    RoundBetween(x, bet / 2, bet);
  }

  /** The two bonus draws of `roll`, experience first. */
  method RollBonuses(record: UserRecord, exp: Draw, space: Draw)
    requires record.Fetched() && DrawnWithin(exp, 10, 15) && DrawnWithin(space, 10, 15)
    modifies record`data
    ensures record.Fetched() && record.data == Bonused(old(record.data), exp, space)
  {
    var _ := record.AddRandomExp(exp.lucky, exp.amount, 10, 15);
    var _ := record.AddRandomBankSpace(space.lucky, space.amount, 10, 15);
  }

  /** `roll`: after the bonuses, a win adds the winnings to the wallet, a tie changes
      nothing, and a loss takes exactly the bet; a bet the converter accepted never
      leaves the wallet negative. */
  method Roll(record: UserRecord, bet: int, exp: Draw, space: Draw, yours: seq<int>, mine: seq<int>, multiplier: real)
    returns (v: Verdict, profit: int)
    requires record.Fetched() && DrawnWithin(exp, 10, 15) && DrawnWithin(space, 10, 15)
    requires C.BetMinimum <= bet <= C.BetMaximum && bet <= record.data[Wallet]
    requires ValidRoll(yours) && ValidRoll(mine) && 0.55 <= multiplier <= 0.95
    modifies record`data
    ensures record.Fetched()
    ensures v == Judge(Sum(yours), Sum(mine))
    ensures v == Win ==>
      profit == Winnings(bet, multiplier) && 0 < profit <= bet
      && record.data == Bonused(old(record.data), exp, space)[Wallet := old(record.data[Wallet]) + profit]
    ensures v == Tie ==> profit == 0 && record.data == Bonused(old(record.data), exp, space)
    ensures v == Loss ==>
      profit == -bet && record.data == Bonused(old(record.data), exp, space)[Wallet := old(record.data[Wallet]) - bet]
    ensures record.data[Wallet] >= 0
  {
    RollBonuses(record, exp, space);
    v := Judge(Sum(yours), Sum(mine));
    if v == Win {
      WinningsBounds(bet, multiplier);
      profit := record.AddCoins(Winnings(bet, multiplier));
    } else if v == Tie {
      profit := 0;
    } else {
      record.Add(map[Wallet := -bet]);
      profit := -bet;
    }
  }
}

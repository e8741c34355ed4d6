/** `app/extensions/stats.py`: the balance card and the guild leaderboard.  The
    leaderboard reads the record cache as a sequence of candidates in the cache's order;
    member display names arrive already escaped. */
module Stats {

  import opened Results
  import opened Text
  import opened Database
  import opened Pagination

  // ---- balance ----

  /** The "Total" line of the balance card: wallet and bank together. */
  function TotalLine(coin: string, wallet: int, bank: int): string
  {
    "Total: " + coin + " **" + Grouped(wallet + bank) + "**"
  }

  /** Moving coins between wallet and bank, either way, leaves the total shown as it was. */
  lemma TransfersKeepTotal(d: map<Field, int>, amount: int, coin: string)
    requires Complete(d)
    ensures var w := Transferred(d, Wallet, Bank, amount);
      TotalLine(coin, w[Wallet], w[Bank]) == TotalLine(coin, d[Wallet], d[Bank])
    ensures var w := Transferred(d, Bank, Wallet, amount);
      TotalLine(coin, w[Wallet], w[Bank]) == TotalLine(coin, d[Wallet], d[Bank])
  {
    var w := Transferred(d, Wallet, Bank, amount);
    assert w[Wallet] + w[Bank] == d[Wallet] + d[Bank];
    var w' := Transferred(d, Bank, Wallet, amount);
    assert w'[Wallet] + w'[Bank] == d[Wallet] + d[Bank];
  }

  // ---- leaderboard ----

  /** A cached record as the leaderboard sees it: the user, the member's display name
      and the wallet. */
  datatype Candidate = Candidate(userId: int, name: string, wallet: int)

  /** The generator's filter: the user is a member of the guild and the wallet is not zero. */
  predicate Listed(c: Candidate, members: set<int>)
  {
    c.userId in members && c.wallet != 0
  }

  function Eligible(cands: seq<Candidate>, members: set<int>): (r: seq<Candidate>)
    ensures forall c :: c in r <==> c in cands && Listed(c, members)
    ensures |r| <= |cands|
  {
    if cands == [] then []
    else
      var rest := Eligible(cands[1..], members);
      if Listed(cands[0], members) then [cands[0]] + rest else rest
  }

  /** Richest first. */
  predicate Descending(s: seq<Candidate>)
  {
    forall i, j :: 0 <= i < j < |s| ==> s[i].wallet >= s[j].wallet
  }

  /** `x` placed after every entry with at least as much, so equal wallets keep the
      order in which they came, as Python's stable `sorted(..., reverse=True)` does. */
  function Insert(x: Candidate, s: seq<Candidate>): seq<Candidate>
  {
    if s == [] then [x]
    else if s[0].wallet >= x.wallet then [s[0]] + Insert(x, s[1..])
    else [x] + s
  }

  /** `sorted(records, key=wallet, reverse=True)`. */
  function SortByWallet(s: seq<Candidate>): seq<Candidate>
  {
    if s == [] then [] else Insert(s[|s| - 1], SortByWallet(s[..|s| - 1]))
  }

  lemma {:induction false} InsertSpec(x: Candidate, s: seq<Candidate>)
    requires Descending(s)
    ensures Descending(Insert(x, s))
    ensures multiset(Insert(x, s)) == multiset(s) + multiset{x}
    ensures |Insert(x, s)| == |s| + 1
  {
    InsertDescending(x, s);
    InsertCounts(x, s);
  }

  lemma {:induction false} InsertCounts(x: Candidate, s: seq<Candidate>)
    ensures multiset(Insert(x, s)) == multiset(s) + multiset{x}
    ensures |Insert(x, s)| == |s| + 1
  {
    if s != [] && s[0].wallet >= x.wallet {
      InsertCounts(x, s[1..]);
      assert s == [s[0]] + s[1..];
    }
  }

  lemma {:induction false} InsertDescending(x: Candidate, s: seq<Candidate>)
    requires Descending(s)
    ensures Descending(Insert(x, s))
    ensures Insert(x, s)[0] == x || Insert(x, s)[0] == s[0]
  {
    if s != [] && s[0].wallet >= x.wallet {
      var rest := s[1..];
      InsertDescending(x, rest);
      var r := Insert(x, rest);
      var t := [s[0]] + r;
      assert Insert(x, s) == t;
      // `r` starts with `x` or with `rest[0]`, both at most `s[0]`
      assert r[0].wallet <= s[0].wallet;
      forall i, j | 0 <= i < j < |t|
        ensures t[i].wallet >= t[j].wallet
      {
        if i == 0 {
          assert t[j] == r[j - 1];
        } else {
          assert t[i] == r[i - 1] && t[j] == r[j - 1];
        }
      }
    }
  }

  /** The leaderboard order is richest first and holds exactly the records it was given. */
  lemma {:induction false} SortByWalletSpec(s: seq<Candidate>)
    ensures Descending(SortByWallet(s))
    ensures multiset(SortByWallet(s)) == multiset(s)
  {
    if s != [] {
      var init := s[..|s| - 1];
      SortByWalletSpec(init);
      InsertSpec(s[|s| - 1], SortByWallet(init));
      assert s == init + [s[|s| - 1]];
    }
  }

  /** The records with wallet `w`, in the order given. */
  function WithWallet(s: seq<Candidate>, w: int): seq<Candidate>
  {
    if s == [] then []
    else (if s[0].wallet == w then [s[0]] else []) + WithWallet(s[1..], w)
  }

  /** `c` alone when its wallet is `w`, otherwise nothing. */
  function Keep(c: Candidate, w: int): seq<Candidate>
  {
    if c.wallet == w then [c] else []
  }

  lemma WithWalletCons(c: Candidate, s: seq<Candidate>, w: int)
    ensures WithWallet([c] + s, w) == Keep(c, w) + WithWallet(s, w)
  {
    assert ([c] + s)[1..] == s;
  }

  lemma {:induction false} WithWalletAppend(a: seq<Candidate>, b: seq<Candidate>, w: int)
    ensures WithWallet(a + b, w) == WithWallet(a, w) + WithWallet(b, w)
  {
    if a == [] {
      assert a + b == b;
    } else {
      var t := a[1..];
      calc {
        WithWallet(a + b, w);
        { assert a + b == [a[0]] + (t + b); }
        WithWallet([a[0]] + (t + b), w);
        { WithWalletCons(a[0], t + b, w); }
        Keep(a[0], w) + WithWallet(t + b, w);
        { WithWalletAppend(t, b, w); }
        Keep(a[0], w) + WithWallet(t, w) + WithWallet(b, w);
        { WithWalletCons(a[0], t, w); assert a == [a[0]] + t; }
        WithWallet(a, w) + WithWallet(b, w);
      }
    }
  }

  lemma {:induction false} WithWalletNone(s: seq<Candidate>, w: int)
    requires forall c :: c in s ==> c.wallet != w
    ensures WithWallet(s, w) == []
  {
    if s != [] {
      assert s[0] in s;
      WithWalletNone(s[1..], w);
    }
  }

  /** Inserting `x` puts it after every record with the same wallet. */
  lemma {:induction false} InsertStable(x: Candidate, s: seq<Candidate>, w: int)
    requires Descending(s)
    ensures WithWallet(Insert(x, s), w) == WithWallet(s, w) + Keep(x, w)
  {
    if s == [] {
      WithWalletCons(x, [], w);
    } else if s[0].wallet >= x.wallet {
      var rest := s[1..];
      assert Descending(rest);
      InsertStable(x, rest, w);
      WithWalletCons(s[0], Insert(x, rest), w);
      WithWalletCons(s[0], rest, w);
      assert s == [s[0]] + rest;
    } else {
      WithWalletCons(x, s, w);
      if x.wallet == w {
        // every record in `s` has at most `s[0].wallet`, which is below `w`
        forall c | c in s ensures c.wallet != w {
          var i :| 0 <= i < |s| && s[i] == c;
          assert i == 0 || s[0].wallet >= s[i].wallet;
        }
        WithWalletNone(s, w);
      }
    }
  }

  /** The leaderboard sort is stable: records with equal wallets keep the order they
      had in the cache. */
  lemma {:induction false} SortByWalletStable(s: seq<Candidate>, w: int)
    ensures WithWallet(SortByWallet(s), w) == WithWallet(s, w)
  {
    if s != [] {
      var init, last := s[..|s| - 1], s[|s| - 1];
      assert s == init + [last];
      SortByWalletStable(init, w);
      assert Descending(SortByWallet(init)) by {
        SortByWalletSpec(init);
      }
      InsertStable(last, SortByWallet(init), w);
      WithWalletAppend(init, [last], w);
      WithWalletCons(last, [], w);
    }
  }

  const NobodyMessage := "I don't see anyone in the cache that's in this server."

  /** What `leaderboard` answers: a message when nobody qualifies, otherwise a paginator
      over the sorted records, ten to a page. */
  datatype Board = Nobody(message: string) | Paged(formatter: Formatter<Candidate>)

  function Leaderboard(cands: seq<Candidate>, members: set<int>): (r: Board)
    ensures r.Nobody? <==> forall c :: c in cands ==> !Listed(c, members)
    ensures r.Nobody? ==> r.message == NobodyMessage
    ensures r.Paged? ==>
      r.formatter.perPage == 10 && r.formatter.entries == SortByWallet(Eligible(cands, members))
      && Descending(r.formatter.entries)
      && multiset(r.formatter.entries) == multiset(Eligible(cands, members))
      && forall c :: c in r.formatter.entries <==> c in cands && Listed(c, members)
  {
    var records := SortByWallet(Eligible(cands, members));
    SortByWalletSpec(Eligible(cands, members));
    assert forall c :: c in records <==> c in Eligible(cands, members) by {
      forall c ensures c in records <==> c in Eligible(cands, members) {
        assert c in records <==> c in multiset(records);
      }
    }
    assert records != [] ==> records[0] in records;
    if records == [] then Nobody(NobodyMessage) else Paged(Formatter(records, 10))
  }

  // ---- rank labels ----

  /** The marker before an entry at absolute index `i`: a trophy, silver and bronze
      medals for the first three, then `"{i + 1}."`. */
  function RankLabel(i: int): string
  {
    match i
    case 0 => "\U{1F3C6}"
    case 1 => "\U{1F948}"
    case 2 => "\U{1F949}"
    case _ => DecimalString(i + 1) + "."
  }

  /** No two places share a label. */
  lemma RankLabelsDistinct(i: int, j: int)
    requires 0 <= i < j
    ensures RankLabel(i) != RankLabel(j)
  {
    if i >= 3 {
      var a := DecimalString(i + 1);
      var b := DecimalString(j + 1);
      if a + "." == b + "." {
        assert a == (a + ".")[..|a|] == (b + ".")[..|b|] == b;
        DecimalStringRoundTrip(i + 1);
        DecimalStringRoundTrip(j + 1);
      }
    } else if j >= 3 {
      var b := DecimalString(j + 1);
      assert (b + ".")[0] == b[0] && IsDigit(b[0]);
    }
  }

  /** One line of a leaderboard page. */
  function EntryLine(i: int, c: Candidate, coin: string): string
  {
    RankLabel(i) + " **" + c.name + "** — " + coin + " " + Grouped(c.wallet)
  }

  /** `format_page`: the lines of a page, numbered from `page * 10`. */
  function FormatPage(page: int, entries: seq<Candidate>, coin: string): (r: seq<string>)
    ensures |r| == |entries|
    ensures forall j :: 0 <= j < |entries| ==> r[j] == EntryLine(page * 10 + j, entries[j], coin)
  {
    seq(|entries|, j requires 0 <= j < |entries| => EntryLine(page * 10 + j, entries[j], coin))
  }

  /** On every page of the leaderboard, the label of each line is that record's place
      in the whole board: line `j` of page `p` shows entry `10 * p + j`. */
  lemma PageRanks(f: Formatter<Candidate>, page: int, coin: string, j: int)
    requires f.perPage == 10 && 0 <= page && 0 <= j < |GetPage(f, page).value.entries|
    ensures page * 10 + j < |f.entries|
    ensures GetPage(f, page).value.entries[j] == f.entries[page * 10 + j]
    ensures FormatPage(page, GetPage(f, page).value.entries, coin)[j]
            == EntryLine(page * 10 + j, f.entries[page * 10 + j], coin)
  {
    var start := f.perPage * page;
    var slice := GetPage(f, page).value.entries;
    assert slice == PySlice(f.entries, start, start + f.perPage);
    SliceAt(f.entries, start, f.perPage, j);
    assert slice[j] == f.entries[page * 10 + j];
  }
}

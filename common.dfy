/** `app/util/common.py`: the levelling curve, the custom-emoji URL rule and lookups in
    an attribute collection (`Items`, `Recipes`), whose `dir()` listing is modelled as an
    explicit sequence of (attribute name, object) pairs in `dir()` order. */
module Common {

  import opened Results
  import opened Numeric
  import opened Text

  // ---- levelling ----

  /** `level_requirement_for`: `base * factor ** level`, rounded up to a multiple of 100. */
  function LevelRequirementFor(level: nat, base: int, factor: real): (r: int)
    ensures r % 100 == 0
    ensures base as real * Pow(factor, level) <= r as real < base as real * Pow(factor, level) + 100.0
  {
    Ceil(base as real * Pow(factor, level) / 100.0) * 100
  }

  /** With a positive base and factor every level costs at least 100 experience. */
  lemma RequirementAtLeast100(level: nat, base: int, factor: real)
    requires base > 0 && factor > 0.0
    ensures LevelRequirementFor(level, base, factor) >= 100
  {
    PowPositive(factor, level);
    assert base as real * Pow(factor, level) > 0.0;
  }

  /** The experience needed to go from level 0 up to `level`. */
  function Cumulative(level: nat, base: int, factor: real): int
  {
    if level == 0 then 0
    else Cumulative(level - 1, base, factor) + LevelRequirementFor(level - 1, base, factor)
  }

  /** The result of `calculate_level` started at `level` with `exp` still to spend. */
  function LevelFrom(exp: int, level: nat, base: int, factor: real): (nat, int, int)
    requires base > 0 && factor > 0.0
    decreases exp
  {
    var req := LevelRequirementFor(level, base, factor);
    RequirementAtLeast100(level, base, factor);
    if exp > req then LevelFrom(exp - req, level + 1, base, factor) else (level, exp, req)
  }

  /** `calculate_level`: subtract each level's requirement while more than it remains. */
  method CalculateLevel(exp: int, base: int, factor: real) returns (level: nat, rest: int, requirement: int)
    requires base > 0 && factor > 0.0
    ensures (level, rest, requirement) == LevelFrom(exp, 0, base, factor)
    ensures rest <= requirement == LevelRequirementFor(level, base, factor)
    ensures Cumulative(level, base, factor) + rest == exp
  {
    level, rest := 0, exp;
    requirement := LevelRequirementFor(level, base, factor);
    while rest > requirement
      invariant requirement == LevelRequirementFor(level, base, factor)
      invariant LevelFrom(rest, level, base, factor) == LevelFrom(exp, 0, base, factor)
      invariant Cumulative(level, base, factor) + rest == exp
      decreases rest
    {
      RequirementAtLeast100(level, base, factor);
      rest := rest - requirement;
      level := level + 1;
      requirement := LevelRequirementFor(level, base, factor);
    }
  }

  /** What the levelling loop promises, for every starting amount: the leftover experience
      is at most that level's requirement, it is positive once a level has been gained, and
      the levels passed plus the leftover account for all the experience. */
  lemma {:induction false} LevelFromSpec(exp: int, level: nat, base: int, factor: real)
    requires base > 0 && factor > 0.0
    requires level > 0 ==> exp > 0
    ensures var (l, rest, req) := LevelFrom(exp, level, base, factor);
      l >= level && rest <= req && req == LevelRequirementFor(l, base, factor)
      && (l > 0 ==> rest > 0)
      && Cumulative(l, base, factor) + rest == Cumulative(level, base, factor) + exp
    decreases exp
  {
    var req := LevelRequirementFor(level, base, factor);
    RequirementAtLeast100(level, base, factor);
    if exp > req {
      RequirementAtLeast100(level, base, factor);
      LevelFromSpec(exp - req, level + 1, base, factor);
    }
  }

  lemma CalculateLevelSpec(exp: int, base: int, factor: real)
    requires base > 0 && factor > 0.0
    ensures var (l, rest, req) := LevelFrom(exp, 0, base, factor);
      rest <= req && req == LevelRequirementFor(l, base, factor)
      && (l > 0 ==> rest > 0) && Cumulative(l, base, factor) + rest == exp
  {
    LevelFromSpec(exp, 0, base, factor);
  }

  // ---- emoji URLs ----

  /** The maximal leading run of characters satisfying `p`. */
  function TakeWhileDigit(s: string): (r: string)
    ensures |r| <= |s| && r == s[..|r|] && AllDigits(r)
    ensures |r| == |s| || !IsDigit(s[|r|])
  {
    if s == [] || !IsDigit(s[0]) then [] else [s[0]] + TakeWhileDigit(s[1..])
  }

  function TakeWhileWord(s: string): (r: string)
    ensures |r| <= |s| && r == s[..|r|]
    ensures forall i :: 0 <= i < |r| ==> IsWordChar(r[i])
    ensures |r| == |s| || !IsWordChar(s[|r|])
  {
    if s == [] || !IsWordChar(s[0]) then [] else [s[0]] + TakeWhileWord(s[1..])
  }

  datatype CustomEmoji = CustomEmoji(animated: bool, name: string, id: string)

  /** From the name onwards: `([a-zA-Z0-9_]{2,32}):([0-9]{17,25})>`.  The name class
      excludes `:` and the id class excludes `>`, so the only way to match is with the
      maximal runs, and nothing after the `>` matters (`re.match` anchors only the start). */
  function ParseNameAndId(s: string, animated: bool): Option<CustomEmoji>
  {
    var name := TakeWhileWord(s);
    var rest := s[|name|..];
    if 2 <= |name| <= 32 && rest != [] && rest[0] == ':' then
      var id := TakeWhileDigit(rest[1..]);
      var tail := rest[1..][|id|..];
      if 17 <= |id| <= 25 && tail != [] && tail[0] == '>' then Some(CustomEmoji(animated, name, id))
      else None
    else None
  }

  /** `EMOJI_REGEX.match(s)`, `<(a)?:([a-zA-Z0-9_]{2,32}):([0-9]{17,25})>`.  Backtracking
      over the optional `a` cannot help: without it, `:` would have to be the `a`. */
  function ParseCustomEmoji(s: string): Option<CustomEmoji>
  {
    if |s| >= 3 && s[0] == '<' && s[1] == 'a' && s[2] == ':' then ParseNameAndId(s[3..], true)
    else if |s| >= 2 && s[0] == '<' && s[1] == ':' then ParseNameAndId(s[2..], false)
    else None
  }

  /** The text of a custom emoji: the opening, then its name and id. */
  function RenderCustomEmoji(e: CustomEmoji): string
  {
    (if e.animated then "<a:" else "<:") + NameAndId(e)
  }

  function NameAndId(e: CustomEmoji): string
  {
    e.name + ":" + e.id + ">"
  }

  predicate WellFormedEmoji(e: CustomEmoji)
  {
    2 <= |e.name| <= 32 && (forall i :: 0 <= i < |e.name| ==> IsWordChar(e.name[i]))
    && 17 <= |e.id| <= 25 && AllDigits(e.id)
  }

  lemma {:induction false} TakeWhileWordExact(w: string, rest: string)
    requires forall i :: 0 <= i < |w| ==> IsWordChar(w[i])
    requires rest == [] || !IsWordChar(rest[0])
    ensures TakeWhileWord(w + rest) == w
  {
    if w != [] {
      assert (w + rest)[1..] == w[1..] + rest;
      TakeWhileWordExact(w[1..], rest);
    } else {
      assert w + rest == rest;
    }
  }

  lemma {:induction false} TakeWhileDigitExact(w: string, rest: string)
    requires AllDigits(w)
    requires rest == [] || !IsDigit(rest[0])
    ensures TakeWhileDigit(w + rest) == w
  {
    if w != [] {
      assert (w + rest)[1..] == w[1..] + rest;
      TakeWhileDigitExact(w[1..], rest);
    } else {
      assert w + rest == rest;
    }
  }

  /** `ParseNameAndId` accepts `name:id>` once each piece is known to be read as such. */
  lemma ParseNameAndIdOf(name: string, afterName: string, id: string, closing: string, animated: bool)
    requires TakeWhileWord(name + afterName) == name && afterName == [':'] + (id + closing)
    requires TakeWhileDigit(id + closing) == id && closing != [] && closing[0] == '>'
    requires 2 <= |name| <= 32 && 17 <= |id| <= 25
    ensures ParseNameAndId(name + afterName, animated) == Some(CustomEmoji(animated, name, id))
  {
    assert (name + afterName)[|name|..] == afterName;
    assert afterName[1..] == id + closing;
    assert (id + closing)[|id|..] == closing;
  }

  lemma NameAndIdRoundTrip(e: CustomEmoji, trailer: string)
    requires WellFormedEmoji(e)
    ensures ParseNameAndId(NameAndId(e) + trailer, e.animated) == Some(e)
  {
    var closing := ">" + trailer;
    var afterName := [':'] + (e.id + closing);
    assert NameAndId(e) + trailer == e.name + afterName;
    TakeWhileWordExact(e.name, afterName);
    TakeWhileDigitExact(e.id, closing);
    ParseNameAndIdOf(e.name, afterName, e.id, closing, e.animated);
  }

  /** The opening decides the animation flag, and the rest is read as name and id. */
  lemma ParseAfterOpening(animated: bool, body: string)
    ensures ParseCustomEmoji((if animated then "<a:" else "<:") + body) == ParseNameAndId(body, animated)
  {
    var s := (if animated then "<a:" else "<:") + body;
    if animated {
      assert s[3..] == body;
    } else {
      assert s[2..] == body;
    }
  }

  /** A well-formed custom emoji, followed by anything, parses back to itself. */
  lemma ParseRenderedEmoji(e: CustomEmoji, trailer: string)
    requires WellFormedEmoji(e)
    ensures ParseCustomEmoji(RenderCustomEmoji(e) + trailer) == Some(e)
  {
    var body := NameAndId(e) + trailer;
    var opening := if e.animated then "<a:" else "<:";
    assert RenderCustomEmoji(e) + trailer == opening + body;
    ParseAfterOpening(e.animated, body);
    NameAndIdRoundTrip(e, trailer);
  }

  const CdnPrefix := "https://cdn.discordapp.com/emojis/"
  const TwemojiPrefix := "https://twemoji.maxcdn.com/v/latest/72x72/"

  datatype EmojiError = EmptyEmoji  // `emoji[0]` on an empty string raises IndexError

  /** `image_url_from_emoji`. */
  function ImageUrlFromEmoji(emoji: string): (r: Result<string, EmojiError>)
    ensures r.Err? <==> emoji == []
    ensures ParseCustomEmoji(emoji).Some? ==> r == Ok(CdnPrefix + ParseCustomEmoji(emoji).value.id
      + (if ParseCustomEmoji(emoji).value.animated then ".gif" else ".png") + "?v=1")
    ensures ParseCustomEmoji(emoji).None? && emoji != [] ==>
      r == Ok(TwemojiPrefix + LowerHex(emoji[0] as int) + ".png")
  {
    match ParseCustomEmoji(emoji)
    case Some(e) => Ok(CdnPrefix + e.id + (if e.animated then ".gif" else ".png") + "?v=1")
    case None =>
      if emoji == [] then Err(EmptyEmoji)
      else Ok(TwemojiPrefix + LowerHex(emoji[0] as int) + ".png")
  }

  /** A custom emoji's URL names its id, with `.gif` exactly when it is animated. */
  lemma CustomEmojiUrl(e: CustomEmoji, trailer: string)
    requires WellFormedEmoji(e)
    ensures ImageUrlFromEmoji(RenderCustomEmoji(e) + trailer)
      == Ok(CdnPrefix + e.id + (if e.animated then ".gif" else ".png") + "?v=1")
  {
    ParseRenderedEmoji(e, trailer);
  }

  /** The twemoji code in the URL is the hexadecimal code point of the first character. */
  lemma TwemojiCode(emoji: string)
    requires emoji != [] && ParseCustomEmoji(emoji).None?
    ensures exists code :: (ImageUrlFromEmoji(emoji) == Ok(TwemojiPrefix + code + ".png")
      && (forall i :: 0 <= i < |code| ==> IsHexDigit(code[i])) && HexValue(code) == emoji[0] as int)
  {
    LowerHexValue(emoji[0] as int);
  }

  // ---- attribute collections ----

  /** `dir(collection)` as (attribute name, value) pairs, in `dir()` order. */
  type Collection<T> = seq<(string, T)>

  predicate Public(attr: string)
  {
    !StartsWith(attr, "_")
  }

  lemma PublicByFirst(attr: string)
    requires attr != [] && attr[0] != '_'
    ensures Public(attr)
  {
    assert attr[..1] == [attr[0]];
  }

  /** `walk_collection`: the public attributes that are instances of the class, in order. */
  function WalkCollection<T>(collection: Collection<T>, isInstance: T -> bool): (r: seq<T>)
    ensures |r| <= |collection|
  {
    if collection == [] then []
    else
      var (attr, obj) := collection[0];
      (if Public(attr) && isInstance(obj) then [obj] else []) + WalkCollection(collection[1..], isInstance)
  }

  /** An object is walked exactly when some public attribute holds it and it is an instance. */
  lemma {:induction false} WalkCollectionMembers<T>(collection: Collection<T>, isInstance: T -> bool, x: T)
    ensures x in WalkCollection(collection, isInstance) <==>
      exists i :: 0 <= i < |collection| && collection[i].1 == x && Public(collection[i].0) && isInstance(x)
  {
    if collection != [] {
      WalkCollectionMembers(collection[1..], isInstance, x);
      if x in WalkCollection(collection[1..], isInstance) {
        var i :| 0 <= i < |collection[1..]| && collection[1..][i].1 == x && Public(collection[1..][i].0) && isInstance(x);
        assert collection[i + 1] == collection[1..][i];
      }
      if exists i :: 0 <= i < |collection| && collection[i].1 == x && Public(collection[i].0) && isInstance(x) {
        var i :| 0 <= i < |collection| && collection[i].1 == x && Public(collection[i].0) && isInstance(x);
        if i > 0 {
          assert collection[1..][i - 1] == collection[i];
        }
      }
    }
  }

  /** `get_by_key`: the first public attribute whose value has a `key` equal to `key`.
      `keyOf` is `None` for a value with no `key` attribute. */
  function GetByKey<T>(collection: Collection<T>, keyOf: T -> Option<string>, key: string): (r: Option<T>)
  {
    if collection == [] then None
    else
      var (attr, obj) := collection[0];
      if Public(attr) && keyOf(obj) == Some(key) then Some(obj)
      else GetByKey(collection[1..], keyOf, key)
  }

  /** The index of the attribute `get_by_key` stops at. */
  predicate FirstKeyed<T>(collection: Collection<T>, keyOf: T -> Option<string>, key: string, i: int)
  {
    0 <= i < |collection| && Public(collection[i].0) && keyOf(collection[i].1) == Some(key)
    && forall j :: 0 <= j < i ==> !(Public(collection[j].0) && keyOf(collection[j].1) == Some(key))
  }

  /** `get_by_key` returns the value at the first matching attribute, or `None` when there is none. */
  lemma {:induction false} GetByKeySpec<T>(collection: Collection<T>, keyOf: T -> Option<string>, key: string)
    ensures GetByKey(collection, keyOf, key).None? <==>
      forall j :: 0 <= j < |collection| ==> !(Public(collection[j].0) && keyOf(collection[j].1) == Some(key))
    ensures GetByKey(collection, keyOf, key).Some? ==>
      exists i :: FirstKeyed(collection, keyOf, key, i) && GetByKey(collection, keyOf, key).value == collection[i].1
  {
    if collection != [] {
      GetByKeySpec(collection[1..], keyOf, key);
      var (attr, obj) := collection[0];
      if !(Public(attr) && keyOf(obj) == Some(key)) {
        if GetByKey(collection[1..], keyOf, key).Some? {
          var i :| FirstKeyed(collection[1..], keyOf, key, i) && GetByKey(collection[1..], keyOf, key).value == collection[1..][i].1;
          assert FirstKeyed(collection, keyOf, key, i + 1);
        }
        forall j | 0 <= j < |collection| && Public(collection[j].0) && keyOf(collection[j].1) == Some(key)
          ensures GetByKey(collection, keyOf, key).Some?
        {
          assert collection[1..][j - 1] == collection[j];
        }
      } else {
        assert FirstKeyed(collection, keyOf, key, 0);
      }
    }
  }

  /** `get_by_key` stops at the first matching attribute. */
  lemma GetByKeyAt<T>(collection: Collection<T>, keyOf: T -> Option<string>, key: string, i: int)
    requires FirstKeyed(collection, keyOf, key, i)
    ensures GetByKey(collection, keyOf, key) == Some(collection[i].1)
  {
    GetByKeySpec(collection, keyOf, key);
    var k :| FirstKeyed(collection, keyOf, key, k) && GetByKey(collection, keyOf, key).value == collection[k].1;
    assert k == i;
  }

  /** Whether `query_collection` queues `name` as a candidate for the (lowered) `query`:
      a substring match for queries of three or more characters, or a similarity ratio
      above 0.85 (`similar`, an oracle for difflib's `SequenceMatcher`). */
  predicate Candidate(query: string, name: string, similar: (string, string) -> bool)
  {
    (|query| >= 3 && Contains(name, query)) || similar(query, name)
  }

  /** What `query_collection` returns: the first object whose lowered name equals the
      lowered query, else the first candidate, else `None`. */
  function QueryResult<T>(objs: seq<T>, nameOf: T -> string, query: string, similar: (string, string) -> bool): Option<T>
  {
    var q := Lower(query);
    match FirstWhere(objs, ExactName(nameOf, q))
    case Some(o) => Some(o)
    case None => FirstWhere(objs, CandidateName(nameOf, q, similar))
  }

  /** An object whose lowered name is the lowered query. */
  function ExactName<T>(nameOf: T -> string, q: string): T -> bool
  {
    (o: T) => Lower(nameOf(o)) == q
  }

  /** An object whose lowered name makes it a candidate for the lowered query. */
  function CandidateName<T>(nameOf: T -> string, q: string, similar: (string, string) -> bool): T -> bool
  {
    (o: T) => Candidate(q, Lower(nameOf(o)), similar)
  }

  function FirstWhere<T>(xs: seq<T>, p: T -> bool): (r: Option<T>)
    ensures r.Some? ==> r.value in xs && p(r.value)
    ensures r.None? <==> forall i :: 0 <= i < |xs| ==> !p(xs[i])
  {
    if xs == [] then None else if p(xs[0]) then Some(xs[0]) else FirstWhere(xs[1..], p)
  }

  /** `query_collection`: one pass over the walked objects, returning on an exact match and
      queueing candidates otherwise. */
  method QueryCollection<T>(collection: Collection<T>, isInstance: T -> bool, nameOf: T -> string,
                            query: string, similar: (string, string) -> bool) returns (r: Option<T>)
    ensures r == QueryResult(WalkCollection(collection, isInstance), nameOf, query, similar)
  {
    var objs := WalkCollection(collection, isInstance);
    var q := Lower(query);
    ghost var exact, candidate := ExactName(nameOf, q), CandidateName(nameOf, q, similar);
    var queued: seq<T> := [];
    var i := 0;
    while i < |objs|
      invariant 0 <= i <= |objs|
      invariant FirstWhere(objs[..i], exact).None?
      invariant queued == [] <==> FirstWhere(objs[..i], candidate).None?
      invariant queued != [] ==> Some(queued[0]) == FirstWhere(objs[..i], candidate)
    {
      var name := Lower(nameOf(objs[i]));
      FirstWhereSnoc(objs[..i], objs[i], exact);
      FirstWhereSnoc(objs[..i], objs[i], candidate);
      assert objs[..i + 1] == objs[..i] + [objs[i]];
      assert exact(objs[i]) == (q == name) && candidate(objs[i]) == Candidate(q, name, similar);
      if q == name {
        FirstWhereFromPrefix(objs, i, exact);
        return Some(objs[i]);
      }
      ghost var before := queued;
      if |q| >= 3 && Contains(name, q) {
        queued := queued + [objs[i]];
      }
      if similar(q, name) {
        queued := queued + [objs[i]];
      }
      assert queued == [] <==> before == [] && !candidate(objs[i]);
      assert queued != [] ==> queued[0] == if before != [] then before[0] else objs[i];
      i := i + 1;
    }
    assert objs[..i] == objs;
    if queued != [] {
      return Some(queued[0]);
    }
    return None;
  }

  lemma {:induction false} FirstWhereSnoc<T>(xs: seq<T>, x: T, p: T -> bool)
    ensures FirstWhere(xs + [x], p) == if FirstWhere(xs, p).Some? then FirstWhere(xs, p)
                                      else if p(x) then Some(x) else None
  {
    if xs != [] {
      assert (xs + [x])[1..] == xs[1..] + [x];
      FirstWhereSnoc(xs[1..], x, p);
    } else {
      assert xs + [x] == [x];
    }
  }

  lemma {:induction false} FirstWhereFromPrefix<T>(xs: seq<T>, i: nat, p: T -> bool)
    requires i < |xs| && FirstWhere(xs[..i], p).None? && p(xs[i])
    ensures FirstWhere(xs, p) == Some(xs[i])
  {
    if i > 0 {
      assert !p(xs[..i][0]);
      assert xs[1..][..i - 1] == xs[..i][1..];
      FirstWhereFromPrefix(xs[1..], i - 1, p);
    }
  }

  /** An exact (case-insensitive) name match wins over any earlier candidate. */
  lemma QueryPrefersExact<T>(objs: seq<T>, nameOf: T -> string, query: string, similar: (string, string) -> bool, k: nat)
    requires k < |objs| && Lower(nameOf(objs[k])) == Lower(query)
    requires forall j :: 0 <= j < k ==> Lower(nameOf(objs[j])) != Lower(query)
    ensures QueryResult(objs, nameOf, query, similar) == Some(objs[k])
  {
    var q := Lower(query);
    var p := ExactName(nameOf, q);
    assert forall j :: 0 <= j < k ==> !p(objs[..k][j]);
    FirstWhereFromPrefix(objs, k, p);
  }

  /** A query returns something only from the collection, and `None` only when nothing
      matches exactly and nothing is a candidate. */
  lemma QueryResultSound<T>(objs: seq<T>, nameOf: T -> string, query: string, similar: (string, string) -> bool)
    ensures QueryResult(objs, nameOf, query, similar).Some? ==> QueryResult(objs, nameOf, query, similar).value in objs
    ensures QueryResult(objs, nameOf, query, similar).None? <==>
      forall i :: 0 <= i < |objs| ==> (Lower(nameOf(objs[i])) != Lower(query)
        && !Candidate(Lower(query), Lower(nameOf(objs[i])), similar))
  {
  }
}

/** `app/core/models.py`: the command context (`send`'s keyword handling and the cleaned
    prefix) and the coloured command signature with the caret offsets that point at one
    parameter.  Keyword arguments are a map from names to a small universe of values;
    Discord itself (sending, editing) is not modelled: `send` says which message it
    would edit or send and with what. */
module Models {

  import opened Results
  import opened Text

  // ---- keyword arguments ----

  /** A keyword argument's value: a string, a flag, `None`, a Discord object (an embed,
      a file, a message, a view) named by an id, or a list. */
  datatype Value = Str(s: string) | Bool(b: bool) | NoneValue | Obj(id: int) | List(items: seq<Value>)

  /** Python truthiness; every Discord object counts as true. */
  predicate Truthy(v: Value)
  {
    match v
    case Str(s) => s != []
    case Bool(b) => b
    case NoneValue => false
    case Obj(_) => true
    case List(items) => items != []
  }

  /** `kwargs.get(key)`. */
  function Get(k: map<string, Value>, key: string): Value
  {
    if key in k then k[key] else NoneValue
  }

  /** `append` on a value that is not a list raises. */
  datatype KwargsError = NotAList(key: string)

  /** `send`'s first two steps: a truthy `one` (`embed`, `file`) given together with a
      `many` (`embeds`, `files`) that is not `None` is appended to it and deleted. */
  function FoldSingle(k: map<string, Value>, one: string, many: string): (r: Result<map<string, Value>, KwargsError>)
    requires one != many
    ensures !(Truthy(Get(k, one)) && Get(k, many) != NoneValue) ==> r == Ok(k)
    ensures Truthy(Get(k, one)) && Get(k, many).List? ==>
      r.Ok? && r.value.Keys == k.Keys - {one}
      && r.value[many] == List(k[many].items + [k[one]])
      && forall key :: key in r.value && key != many ==> r.value[key] == k[key]
    ensures Truthy(Get(k, one)) && Get(k, many) != NoneValue && !Get(k, many).List? ==> r == Err(NotAList(many))
  {
    if Truthy(Get(k, one)) && Get(k, many) != NoneValue then
      if k[many].List? then Ok((k - {one})[many := List(k[many].items + [k[one]])])
      else Err(NotAList(many))
    else Ok(k)
  }

  /** Both folds: `embed` into `embeds`, then `file` into `files`. */
  function FoldAttachments(k: map<string, Value>): Result<map<string, Value>, KwargsError>
  {
    match FoldSingle(k, "embed", "embeds")
    case Ok(k') => FoldSingle(k', "file", "files")
    case Err(e) => Err(e)
  }

  /** What `send` does with the message: edit the one it sent last, or send a new one. */
  datatype Delivery =
    | Edited(messageId: int, content: Option<string>, kwargs: map<string, Value>)
    | Sent(messageId: int, content: Option<string>, kwargs: map<string, Value>)

  /** `clean_prefix`: no prefix gives the empty string; otherwise both forms of a
      mention of the bot are shown as `@name`. */
  function CleanPrefix(prefix: Option<string>, botId: nat, botName: string): (r: string)
    ensures prefix.None? ==> r == ""
  {
    if prefix.None? then ""
    else
      Replace(Replace(prefix.value, "<@" + DecimalString(botId) + ">", "@" + botName),
              "<@!" + DecimalString(botId) + ">", "@" + botName)
  }

  /** A string without `<` contains no mention. */
  lemma {:induction false} NoMentionWithout(s: string, pat: string)
    requires pat != [] && pat[0] == '<' && '<' !in s
    ensures !Contains(s, pat)
    decreases |s|
  {
    assert !StartsWith(s, pat) by {
      if |pat| <= |s| {
        assert s[..|pat|][0] == s[0];
      }
    }
    if |s| > 0 {
      NoMentionWithout(s[1..], pat);
    }
  }

  /** Replacing a whole string that is the pattern gives the replacement. */
  lemma ReplaceWhole(pat: string, rep: string)
    requires pat != []
    ensures Replace(pat, pat, rep) == rep
  {
    assert pat[..|pat|] == pat;
    assert pat[|pat|..] == [];
  }

  /** A prefix that is a mention of the bot, in either form, reads `@name` (when the
      name itself holds no `<`); a prefix without `<` is kept as it is. */
  lemma CleanPrefixMentions(botId: nat, botName: string, prefix: string)
    requires '<' !in botName
    ensures CleanPrefix(Some("<@" + DecimalString(botId) + ">"), botId, botName) == "@" + botName
    ensures CleanPrefix(Some("<@!" + DecimalString(botId) + ">"), botId, botName) == "@" + botName
    ensures '<' !in prefix ==> CleanPrefix(Some(prefix), botId, botName) == prefix
  {
    var d := DecimalString(botId);
    var plain := "<@" + d + ">";
    var nick := "<@!" + d + ">";
    var rep := "@" + botName;
    assert '<' !in rep;
    assert '<' !in d by {
      assert AllDigits(d);
    }
    // a plain mention
    ReplaceWhole(plain, rep);
    NoMentionWithout(rep, nick);
    ReplaceAbsent(rep, nick, rep);
    // a nickname mention: the plain pattern fails at the `!` and finds no other `<`
    assert !Contains(nick, plain) by {
      assert nick[2] == '!' && plain[2] == d[0] && IsDigit(d[0]);
      assert !StartsWith(nick, plain);
      assert '<' !in nick[1..];
      NoMentionWithout(nick[1..], plain);
    }
    ReplaceAbsent(nick, plain, rep);
    ReplaceWhole(nick, rep);
    if '<' !in prefix {
      NoMentionWithout(prefix, plain);
      ReplaceAbsent(prefix, plain, rep);
      NoMentionWithout(prefix, nick);
      ReplaceAbsent(prefix, nick, rep);
    }
  }

  /** `Context`: the last message it sent, and the prefix it was invoked with. */
  class Context {
    const prefix: Option<string>
    const botId: nat
    const botName: string
    var lastMessage: Option<int>

    constructor (prefix: Option<string>, botId: nat, botName: string)
      ensures this.prefix == prefix && this.botId == botId && this.botName == botName
      ensures lastMessage.None?
    {
      this.prefix := prefix;
      this.botId := botId;
      this.botName := botName;
      lastMessage := None;
    }

    /** `send`: the attachments are folded; the `edit` flag is always removed, and when
        it was set and a message was sent before, that message is edited without files
        or a reply reference; otherwise a new message (`newId`) is sent and remembered. */
    method Send(content: Option<string>, kwargs: map<string, Value>, newId: int)
      returns (r: Result<Delivery, KwargsError>)
      modifies this`lastMessage
      ensures var folded := FoldAttachments(kwargs);
        && (folded.Err? ==> r == Err(folded.error) && lastMessage == old(lastMessage))
        && (folded.Ok? && Truthy(Get(folded.value, "edit")) && old(lastMessage).Some? ==>
              r == Ok(Edited(old(lastMessage).value, content, folded.value - {"edit", "files", "reference"}))
              && lastMessage == old(lastMessage))
        && (folded.Ok? && !(Truthy(Get(folded.value, "edit")) && old(lastMessage).Some?) ==>
              r == Ok(Sent(newId, content, folded.value - {"edit"})) && lastMessage == Some(newId))
      ensures r.Ok? ==> "edit" !in r.value.kwargs
      ensures r.Ok? && r.value.Edited? ==> "files" !in r.value.kwargs && "reference" !in r.value.kwargs
    {
      var folded := FoldSingle(kwargs, "embed", "embeds");
      if folded.Err? {
        return Err(folded.error);
      }
      folded := FoldSingle(folded.value, "file", "files");
      if folded.Err? {
        return Err(folded.error);
      }
      var k := folded.value;
      var edit := Truthy(Get(k, "edit"));
      if edit && lastMessage.Some? {
        return Ok(Edited(lastMessage.value, content, k - {"edit", "files", "reference"}));
      }
      k := k - {"edit"};
      lastMessage := Some(newId);
      r := Ok(Sent(newId, content, k));
    }
  }

  /** A single embed given with a list of embeds ends up last in that list. */
  lemma EmbedJoinsList(kwargs: map<string, Value>)
    requires Truthy(Get(kwargs, "embed")) && Get(kwargs, "embeds").List?
    requires !(Truthy(Get(kwargs, "file")) && Get(kwargs, "files") != NoneValue)
    ensures FoldAttachments(kwargs).Ok?
    ensures var k := FoldAttachments(kwargs).value;
      "embed" !in k && k["embeds"] == List(kwargs["embeds"].items + [kwargs["embed"]])
  {
    var k1 := FoldSingle(kwargs, "embed", "embeds").value;
    assert Get(k1, "file") == Get(kwargs, "file") && Get(k1, "files") == Get(kwargs, "files");
  }

  // ---- the command signature ----

  /** A value of a `Literal[...]` annotation: a string (shown quoted) or anything else
      (shown as `str` shows it). */
  datatype LiteralValue = LitStr(s: string) | LitOther(shown: string)

  /** The shape of an annotation as the signature looks at it. */
  datatype Annotation =
    | Plain
    | LiteralOf(values: seq<LiteralValue>)
    | UnionOf(args: seq<Annotation>)
    | NoneType
    | GreedyOf(converter: Annotation)

  /** A parameter's default: none at all, `None`, a string, or any other value as `str`
      shows it. */
  datatype Default = NoDefault | DefaultNone | DefaultStr(s: string) | DefaultOther(shown: string)

  datatype Param = Param(name: string, annotation: Annotation, default: Default, varPositional: bool)

  function ShowLiteral(v: LiteralValue): string
  {
    match v
    case LitStr(s) => "\"" + s + "\""
    case LitOther(shown) => shown
  }

  /** `'|'.join(...)` over the literal's values. */
  function LiteralName(values: seq<LiteralValue>): string
  {
    Join(seq(|values|, i requires 0 <= i < |values| => ShowLiteral(values[i])), "|")
  }

  /** The values can be read back from the name when none of them shows a `|`. */
  lemma LiteralNameSplits(values: seq<LiteralValue>)
    requires values != [] && forall i :: 0 <= i < |values| ==> '|' !in ShowLiteral(values[i])
    ensures SplitOn(LiteralName(values), '|') == seq(|values|, i requires 0 <= i < |values| => ShowLiteral(values[i]))
  {
    SplitOnJoined(seq(|values|, i requires 0 <= i < |values| => ShowLiteral(values[i])), '|');
  }

  /** Whether the parameter is greedy, whether it is `Optional`, and the annotation left
      once `Greedy[...]` and a two-way `Optional[...]` are unwrapped. */
  function Unwrap(a: Annotation): (bool, bool, Annotation)
  {
    if a.GreedyOf? then (true, false, a.converter)
    else if a.UnionOf? then
      var optional := |a.args| > 0 && a.args[|a.args| - 1] == NoneType;
      (false, optional, if |a.args| == 2 && optional then a.args[0] else a)
    else (false, false, a)
  }

  /** The name the signature shows: a literal's values, or the parameter's name. */
  function ShownName(p: Param): string
  {
    var (_, _, a) := Unwrap(p.annotation);
    if a.LiteralOf? then LiteralName(a.values) else p.name
  }

  /** A default worth showing: a non-empty string, or anything but `None`. */
  predicate ShowsDefault(d: Default)
  {
    match d
    case NoDefault => false
    case DefaultNone => false
    case DefaultStr(s) => s != []
    case DefaultOther(_) => true
  }

  function DefaultText(d: Default): string
  {
    match d
    case DefaultStr(s) => s
    case DefaultOther(shown) => shown
    case _ => ""
  }

  const Blue := "\U{1B}[34;1m"
  const Yellow := "\U{1B}[33;1m"

  /** A parameter's token: its colour code and the text a reader sees. */
  datatype Token = Token(colour: string, text: string)

  /** The token of one parameter, by the rules of the signature: a shown default as
      `[name=default]`, an optional parameter as `[name]`, a required one as `<name>`,
      greedy and variadic ones with `...`. */
  function TokenOf(p: Param, requireVarPositional: bool): (t: Token)
    ensures |t.colour| == 7 && |t.text| >= 2
  {
    var (greedy, optional, _) := Unwrap(p.annotation);
    var name := ShownName(p);
    if p.default != NoDefault then
      if ShowsDefault(p.default) then
        Token(Blue, "[" + name + "=" + DefaultText(p.default) + "]" + (if greedy then "..." else ""))
      else Token(Blue, "[" + name + "]")
    else if p.varPositional then
      if requireVarPositional then Token(Yellow, "<" + name + "...>") else Token(Blue, "[" + name + "...]")
    else if greedy then Token(Blue, "[" + name + "]...")
    else if optional then Token(Blue, "[" + name + "]")
    else Token(Yellow, "<" + name + ">")
  }

  function Coloured(ps: seq<Param>, rvp: bool): (r: seq<string>)
    ensures |r| == |ps|
    ensures forall i :: 0 <= i < |ps| ==> r[i] == TokenOf(ps[i], rvp).colour + TokenOf(ps[i], rvp).text
  {
    seq(|ps|, i requires 0 <= i < |ps| => TokenOf(ps[i], rvp).colour + TokenOf(ps[i], rvp).text)
  }

  /** The tokens as a reader sees them, without colour codes. */
  function Shown(ps: seq<Param>, rvp: bool): (r: seq<string>)
    ensures |r| == |ps|
    ensures forall i :: 0 <= i < |ps| ==> r[i] == TokenOf(ps[i], rvp).text
  {
    seq(|ps|, i requires 0 <= i < |ps| => TokenOf(ps[i], rvp).text)
  }

  /** The position of the first parameter shown under the name `until`, or the number of
      parameters when there is none. */
  function FirstNamed(ps: seq<Param>, until: string): (k: nat)
    ensures k <= |ps|
    ensures forall j :: 0 <= j < k ==> ShownName(ps[j]) != until
    ensures k < |ps| ==> ShownName(ps[k]) == until
  {
    if ps == [] then 0
    else if ShownName(ps[0]) == until then 0
    else 1 + FirstNamed(ps[1..], until)
  }

  /** How wide a run of tokens is with a space after each. */
  function Width(texts: seq<string>): nat
  {
    if texts == [] then 0 else Width(texts[..|texts| - 1]) + |texts[|texts| - 1]| + 1
  }

  /** One parameter's token as `ansi_signature_until` builds it, with how far it moves
      the caret's offset (the token and its space) and how wide the caret under it is. */
  method Piece(p: Param, requireVarPositional: bool) returns (token: Token, name: string, step: int, size: int)
    ensures token == TokenOf(p, requireVarPositional)
    ensures name == ShownName(p)
    ensures step == |TokenOf(p, requireVarPositional).text| + 1
    ensures size == |TokenOf(p, requireVarPositional).text|
  {
    var (greedy, optional, annotation) := Unwrap(p.annotation);
    name := if annotation.LiteralOf? then LiteralName(annotation.values) else p.name;
    if p.default != NoDefault {
      if ShowsDefault(p.default) {
        token := Token(Blue, "[" + name + "=" + DefaultText(p.default) + "]" + (if greedy then "..." else ""));
        step, size := |token.colour + token.text| - 6, |token.colour + token.text| - 7;
      } else {
        token := Token(Blue, "[" + name + "]");
        step, size := |name| + 3, |name| + 2;
      }
    } else if p.varPositional {
      if requireVarPositional {
        token := Token(Yellow, "<" + name + "...>");
      } else {
        token := Token(Blue, "[" + name + "...]");
      }
      step, size := |name| + 6, |name| + 5;
    } else if greedy {
      token := Token(Blue, "[" + name + "]...");
      step, size := |name| + 6, |name| + 5;
    } else if optional {
      token := Token(Blue, "[" + name + "]");
      step, size := |name| + 3, |name| + 2;
    } else {
      token := Token(Yellow, "<" + name + ">");
      step, size := |name| + 3, |name| + 2;
    }
  }

  /** One parameter's turn: until the parameter shown as `until` is met, the offset grows
      by the token and its space; from then on the width is that parameter's token. */
  method Advance(p: Param, until: string, requireVarPositional: bool, got: bool, count: int, length: int)
    returns (token: string, got': bool, count': int, length': int)
    requires got ==> length > 0
    requires !got ==> length == 0
    ensures token == TokenOf(p, requireVarPositional).colour + TokenOf(p, requireVarPositional).text
    ensures got' <==> got || ShownName(p) == until
    ensures !got' ==> count' == count + |TokenOf(p, requireVarPositional).text| + 1 && length' == length
    ensures got' ==> count' == count
    ensures got ==> length' == length
    ensures got' && !got ==> length' == |TokenOf(p, requireVarPositional).text|
  {
    var t, name, step, size := Piece(p, requireVarPositional);
    token := t.colour + t.text;
    got', count', length' := got, count, length;
    if name == until || got {
      if length == 0 {
        length' := size;
      }
      got' := true;
    } else {
      count' := count + step;
    }
  }

  /** `ansi_signature_until`: the coloured tokens joined by spaces; `count` is how far
      into the signature the parameter shown as `until` starts and `length` how wide it
      is (both zero when there is no such parameter). */
  method AnsiSignatureUntil(params: seq<Param>, until: string, requireVarPositional: bool)
    returns (signature: string, count: int, length: int)
    ensures signature == Join(Coloured(params, requireVarPositional), " ")
    ensures count == Width(Shown(params, requireVarPositional)[..FirstNamed(params, until)])
    ensures FirstNamed(params, until) < |params| ==>
      length == |TokenOf(params[FirstNamed(params, until)], requireVarPositional).text|
    ensures FirstNamed(params, until) == |params| ==> length == 0
    ensures params == [] ==> signature == "" && count == 0 && length == 0
  {
    if params == [] {
      return "", 0, 0;
    }
    var k := FirstNamed(params, until);
    ghost var shown := Shown(params, requireVarPositional);
    ghost var coloured := Coloured(params, requireVarPositional);
    var result: seq<string> := [];
    count, length := 0, 0;
    var got := false;
    var i := 0;
    while i < |params|
      invariant 0 <= i <= |params|
      invariant result == coloured[..i]
      invariant got <==> k < i
      invariant (count, length) == CaretAt(shown, k, i)
    {
      CaretStep(shown, k, i);
      assert i < k ==> ShownName(params[i]) != until;
      var token;
      token, got, count, length := Advance(params[i], until, requireVarPositional, got, count, length);
      PrefixExtend(coloured, i);
      result := result + [token];
      i := i + 1;
    }
    assert coloured[..i] == coloured;
    signature := Join(result, " ");
  }

  /** Where the caret stands after the first `i` tokens, when it belongs under token `k`:
      its offset, and its width once token `k` has been passed. */
  ghost function CaretAt(texts: seq<string>, k: nat, i: nat): (int, int)
    requires i <= |texts| && k <= |texts|
  {
    if i <= k then (Width(texts[..i]), 0) else (Width(texts[..k]), |texts[k]|)
  }

  lemma CaretStep(texts: seq<string>, k: nat, i: nat)
    requires i < |texts| && k <= |texts|
    ensures i < k ==> CaretAt(texts, k, i + 1) == (CaretAt(texts, k, i).0 + |texts[i]| + 1, 0)
    ensures i == k ==> CaretAt(texts, k, i + 1) == (CaretAt(texts, k, i).0, |texts[i]|)
    ensures k < i ==> CaretAt(texts, k, i + 1) == CaretAt(texts, k, i)
  {
    WidthExtend(texts, i);
  }

  lemma WidthExtend(texts: seq<string>, i: nat)
    requires i < |texts|
    ensures Width(texts[..i + 1]) == Width(texts[..i]) + |texts[i]| + 1
  {
    assert texts[..i + 1][..i] == texts[..i];
  }

  lemma PrefixExtend<T>(s: seq<T>, i: nat)
    requires i < |s|
    ensures s[..i + 1] == s[..i] + [s[i]]
  {
  }

  /** `ansi_signature`: the whole signature (no parameter is shown as `$`). */
  method AnsiSignature(params: seq<Param>, requireVarPositional: bool) returns (signature: string)
    ensures signature == Join(Coloured(params, requireVarPositional), " ")
  {
    var count, length;
    signature, count, length := AnsiSignatureUntil(params, "$", requireVarPositional);
  }

  /** A run of tokens is as wide as their text joined by spaces, plus one. */
  lemma {:induction false} WidthJoined(texts: seq<string>)
    requires texts != []
    ensures Width(texts) == |Join(texts, " ")| + 1
  {
    if |texts| > 1 {
      var init := texts[..|texts| - 1];
      WidthJoined(init);
      JoinAppend(init, [texts[|texts| - 1]], " ");
      assert init + [texts[|texts| - 1]] == texts;
    }
  }

  /** The joined tokens start with the first token. */
  lemma JoinStarts(texts: seq<string>)
    requires texts != []
    ensures |texts[0]| <= |Join(texts, " ")| && Join(texts, " ")[..|texts[0]|] == texts[0]
  {
  }

  /** The caret: in the signature as a reader sees it, the `length` characters from
      `count` on are exactly the token of the parameter shown as `until`. */
  lemma CaretMarksToken(texts: seq<string>, k: nat)
    requires k < |texts|
    ensures var shown := Join(texts, " ");
      Width(texts[..k]) + |texts[k]| <= |shown|
      && shown[Width(texts[..k])..Width(texts[..k]) + |texts[k]|] == texts[k]
  {
    var rest := texts[k..];
    var tail := Join(rest, " ");
    JoinStarts(rest);
    if k == 0 {
      assert rest == texts;
      assert texts[..0] == [];
    } else {
      var before := texts[..k];
      JoinAppend(before, rest, " ");
      assert before + rest == texts;
      WidthJoined(before);
      var head := Join(before, " ") + " ";
      assert Join(texts, " ") == head + tail;
      assert |head| == Width(before);
    }
  }
}

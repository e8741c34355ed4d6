/** `app/core/helpers.py`: how the value a command yields (its payload) becomes the
    keyword arguments of one message, the unread-notification line added to currency
    commands, where the message goes, and the keyword arguments of the `command` and
    `group` decorators.  Sending itself is not modelled; the outcome says what would be
    sent and through which route. */
module Helpers {

  import opened Results
  import opened Text
  import opened Models

  // ---- payloads ----

  /** One part of a payload: a marker (`REPLY`, `EDIT`, `BAD_ARGUMENT`, `NO_EXTRA`), an
      embed, a file, a view or a paginator (each named by an id), a `dict` of keyword
      arguments, `None`, or anything else, which is shown as its `str`. */
  datatype Part =
    | ReplyMark
    | EditMark
    | BadArgumentMark
    | NoExtraMark
    | EmbedPart(id: int)
    | FilePart(id: int)
    | ViewPart(id: int)
    | PaginatorPart(id: int)
    | DictPart(entries: map<string, Value>)
    | NonePart
    | TextPart(text: string)

  /** A payload: `None`, a set, tuple or list of parts (a set in its iteration order),
      or a single part, which is read as a list of one. */
  datatype Payload = NoPayload | Collection(parts: seq<Part>) | Single(part: Part)

  /** What folding the parts can raise: `BadArgument` with the content so far, a
      `KeyError` when there is no content yet, or an `append` on a value a `dict` part
      put in place of a list. */
  datatype ProcessError = BadArgument(content: Value) | KeyError(key: string) | NotAppendable(key: string)

  /** The fold's state: the keyword arguments, the last paginator, whether the extra
      notification line is allowed, and whether the message edits the previous one. */
  datatype FoldState = FoldState(kwargs: map<string, Value>, paginator: Option<int>, extra: bool, edit: bool)

  /** Before any part: empty lists of embeds and files, extra allowed, no edit. */
  const Initial := FoldState(map["embeds" := List([]), "files" := List([])], None, true, false)

  /** `kwargs[key].append(v)`. */
  function Append(s: FoldState, key: string, v: Value): (r: Result<FoldState, ProcessError>)
    ensures key in s.kwargs && s.kwargs[key].List? ==>
      r == Ok(s.(kwargs := s.kwargs[key := List(s.kwargs[key].items + [v])]))
    ensures key !in s.kwargs ==> r == Err(KeyError(key))
    ensures key in s.kwargs && !s.kwargs[key].List? ==> r == Err(NotAppendable(key))
  {
    if key !in s.kwargs then Err(KeyError(key))
    else if s.kwargs[key].List? then Ok(s.(kwargs := s.kwargs[key := List(s.kwargs[key].items + [v])]))
    else Err(NotAppendable(key))
  }

  /** The effect of one part; `message` is the invoking message a reply refers to. */
  function Step(s: FoldState, part: Part, message: int): Result<FoldState, ProcessError>
  {
    match part
    case ReplyMark => Ok(s.(kwargs := s.kwargs["reference" := Obj(message)]))
    case EditMark => Ok(s.(kwargs := s.kwargs["edit" := Bool(true)], edit := true))
    case BadArgumentMark =>
      if "content" in s.kwargs then Err(BadArgument(s.kwargs["content"])) else Err(KeyError("content"))
    case NoExtraMark => Ok(s.(extra := false))
    case EmbedPart(id) => Append(s, "embeds", Obj(id))
    case FilePart(id) => Append(s, "files", Obj(id))
    case ViewPart(id) => Ok(s.(kwargs := s.kwargs["view" := Obj(id)]))
    case PaginatorPart(id) => Ok(s.(paginator := Some(id)))
    case DictPart(entries) => Ok(s.(kwargs := s.kwargs + entries))
    case NonePart => Ok(s)
    case TextPart(text) => Ok(s.(kwargs := s.kwargs["content" := Str(text)]))
  }

  /** The parts folded left to right from `Initial`; the first error stops the fold. */
  function Fold(parts: seq<Part>, message: int): Result<FoldState, ProcessError>
  {
    if parts == [] then Ok(Initial)
    else
      match Fold(parts[..|parts| - 1], message)
      case Err(e) => Err(e)
      case Ok(s) => Step(s, parts[|parts| - 1], message)
  }

  /** The loop of `process_message` over the parts. */
  method ProcessParts(parts: seq<Part>, message: int) returns (r: Result<FoldState, ProcessError>)
    ensures r == Fold(parts, message)
  {
    var kwargs: map<string, Value> := map["embeds" := List([]), "files" := List([])];
    var paginator: Option<int> := None;
    var extra := true;
    var edit := false;
    var i := 0;
    while i < |parts|
      invariant 0 <= i <= |parts|
      invariant Fold(parts[..i], message) == Ok(FoldState(kwargs, paginator, extra, edit))
    {
      var part := parts[i];
      assert parts[..i + 1][..i] == parts[..i];
      match part {
        case ReplyMark =>
          kwargs := kwargs["reference" := Obj(message)];
        case EditMark =>
          kwargs := kwargs["edit" := Bool(true)];
          edit := true;
        case BadArgumentMark =>
          if "content" !in kwargs {
            r := Err(KeyError("content"));
          } else {
            r := Err(BadArgument(kwargs["content"]));
          }
          StopsAt(parts, i, message);
          return;
        case NoExtraMark =>
          extra := false;
        case EmbedPart(id) =>
          if "embeds" !in kwargs {
            r := Err(KeyError("embeds"));
            StopsAt(parts, i, message);
            return;
          } else if !kwargs["embeds"].List? {
            r := Err(NotAppendable("embeds"));
            StopsAt(parts, i, message);
            return;
          }
          kwargs := kwargs["embeds" := List(kwargs["embeds"].items + [Obj(id)])];
        case FilePart(id) =>
          if "files" !in kwargs {
            r := Err(KeyError("files"));
            StopsAt(parts, i, message);
            return;
          } else if !kwargs["files"].List? {
            r := Err(NotAppendable("files"));
            StopsAt(parts, i, message);
            return;
          }
          kwargs := kwargs["files" := List(kwargs["files"].items + [Obj(id)])];
        case ViewPart(id) =>
          kwargs := kwargs["view" := Obj(id)];
        case PaginatorPart(id) =>
          paginator := Some(id);
        case DictPart(entries) =>
          kwargs := kwargs + entries;
        case NonePart =>
        case TextPart(text) =>
          kwargs := kwargs["content" := Str(text)];
      }
      i := i + 1;
    }
    assert parts[..i] == parts;
    r := Ok(FoldState(kwargs, paginator, extra, edit));
  }

  // ---- what the fold gathers ----

  predicate NoDict(parts: seq<Part>)
  {
    forall i :: 0 <= i < |parts| ==> !parts[i].DictPart?
  }

  /** The embeds among the parts, in order. */
  function Embeds(parts: seq<Part>): seq<Value>
  {
    if parts == [] then []
    else Embeds(parts[..|parts| - 1]) + (if parts[|parts| - 1].EmbedPart? then [Obj(parts[|parts| - 1].id)] else [])
  }

  /** The files among the parts, in order. */
  function Files(parts: seq<Part>): seq<Value>
  {
    if parts == [] then []
    else Files(parts[..|parts| - 1]) + (if parts[|parts| - 1].FilePart? then [Obj(parts[|parts| - 1].id)] else [])
  }

  /** The last text part's text, or `None` when there is none. */
  function LastText(parts: seq<Part>): Value
  {
    if parts == [] then NoneValue
    else if parts[|parts| - 1].TextPart? then Str(parts[|parts| - 1].text)
    else LastText(parts[..|parts| - 1])
  }

  /** The last paginator among the parts. */
  function LastPaginator(parts: seq<Part>): Option<int>
  {
    if parts == [] then None
    else if parts[|parts| - 1].PaginatorPart? then Some(parts[|parts| - 1].id)
    else LastPaginator(parts[..|parts| - 1])
  }

  /** Once the fold has raised, later parts change nothing. */
  lemma {:induction false} FoldStopsAtError(a: seq<Part>, b: seq<Part>, message: int)
    requires Fold(a, message).Err?
    ensures Fold(a + b, message) == Fold(a, message)
    decreases |b|
  {
    if b != [] {
      var init := b[..|b| - 1];
      FoldStopsAtError(a, init, message);
      assert (a + b)[..|a + b| - 1] == a + init;
      assert Fold(a + init, message).Err?;
    } else {
      assert a + b == a;
    }
  }

  /** An error at part `i` is the outcome of the whole fold. */
  lemma StopsAt(parts: seq<Part>, i: nat, message: int)
    requires i < |parts| && Fold(parts[..i + 1], message).Err?
    ensures Fold(parts, message) == Fold(parts[..i + 1], message)
  {
    FoldStopsAtError(parts[..i + 1], parts[i + 1..], message);
    assert parts[..i + 1] + parts[i + 1..] == parts;
  }

  /** A step over a part that is neither a `dict` nor `BAD_ARGUMENT`, from a state whose
      embeds and files are lists, succeeds and appends the part to the right list. */
  lemma StepAttachments(s: FoldState, part: Part, message: int)
    requires !part.DictPart? && part != BadArgumentMark
    requires "embeds" in s.kwargs && "files" in s.kwargs && s.kwargs["embeds"].List? && s.kwargs["files"].List?
    ensures Step(s, part, message).Ok?
    ensures var t := Step(s, part, message).value;
      "embeds" in t.kwargs && "files" in t.kwargs
      && t.kwargs["embeds"] == List(s.kwargs["embeds"].items + (if part.EmbedPart? then [Obj(part.id)] else []))
      && t.kwargs["files"] == List(s.kwargs["files"].items + (if part.FilePart? then [Obj(part.id)] else []))
  {
    assert s.kwargs["embeds"].items + [] == s.kwargs["embeds"].items;
    assert s.kwargs["files"].items + [] == s.kwargs["files"].items;
  }

  /** Such a step sets the content exactly for a text part and the reference exactly for
      `REPLY`, and leaves both alone otherwise. */
  lemma StepContent(s: FoldState, part: Part, message: int)
    requires !part.DictPart? && part != BadArgumentMark && Step(s, part, message).Ok?
    ensures var t := Step(s, part, message).value;
      && (part.TextPart? ==> "content" in t.kwargs && t.kwargs["content"] == Str(part.text))
      && (!part.TextPart? ==> ("content" in t.kwargs <==> "content" in s.kwargs)
                              && Get(t.kwargs, "content") == Get(s.kwargs, "content"))
      && ("reference" in t.kwargs <==> "reference" in s.kwargs || part == ReplyMark)
      && (part == ReplyMark ==> t.kwargs["reference"] == Obj(message))
      && (part != ReplyMark && "reference" in s.kwargs ==> t.kwargs["reference"] == s.kwargs["reference"])
  {
  }

  /** Such a step turns editing on exactly for `EDIT`, the extra line off exactly for
      `NO_EXTRA`, and moves the paginator exactly for a paginator part. */
  lemma StepFlags(s: FoldState, part: Part, message: int)
    requires !part.DictPart? && part != BadArgumentMark && Step(s, part, message).Ok?
    ensures var t := Step(s, part, message).value;
      && t.edit == (s.edit || part == EditMark)
      && ("edit" in t.kwargs <==> "edit" in s.kwargs || part == EditMark)
      && t.extra == (s.extra && part != NoExtraMark)
      && t.paginator == if part.PaginatorPart? then Some(part.id) else s.paginator
  {
  }

  /** Without `dict` parts and `BAD_ARGUMENT`, the fold succeeds and the message carries
      every embed and every file, in order. */
  lemma {:induction false} FoldGathersAttachments(parts: seq<Part>, message: int)
    requires NoDict(parts) && BadArgumentMark !in parts
    ensures Fold(parts, message).Ok?
    ensures "embeds" in Fold(parts, message).value.kwargs && "files" in Fold(parts, message).value.kwargs
    ensures Fold(parts, message).value.kwargs["embeds"] == List(Embeds(parts))
    ensures Fold(parts, message).value.kwargs["files"] == List(Files(parts))
  {
    if parts != [] {
      var init := parts[..|parts| - 1];
      assert NoDict(init) && BadArgumentMark !in init by {
        assert forall p :: p in init ==> p in parts;
      }
      FoldGathersAttachments(init, message);
      StepAttachments(Fold(init, message).value, parts[|parts| - 1], message);
    }
  }

  /** Without `dict` parts and `BAD_ARGUMENT`, the content is the last text part's (none
      when there is none), and the message replies to the invoking one exactly when
      `REPLY` was given. */
  lemma {:induction false} FoldGathersContent(parts: seq<Part>, message: int)
    requires NoDict(parts) && BadArgumentMark !in parts
    ensures Fold(parts, message).Ok?
    ensures var s := Fold(parts, message).value;
      && Get(s.kwargs, "content") == LastText(parts)
      && ("content" in s.kwargs <==> LastText(parts).Str?)
      && ("reference" in s.kwargs <==> ReplyMark in parts)
      && ("reference" in s.kwargs ==> s.kwargs["reference"] == Obj(message))
  {
    FoldGathersAttachments(parts, message);
    if parts != [] {
      var init := parts[..|parts| - 1];
      var last := parts[|parts| - 1];
      assert parts == init + [last];
      assert NoDict(init) && BadArgumentMark !in init;
      FoldGathersContent(init, message);
      StepContent(Fold(init, message).value, last, message);
      assert ReplyMark in parts <==> ReplyMark in init || last == ReplyMark;
    }
  }

  /** Without `dict` parts and `BAD_ARGUMENT`, the message edits exactly when `EDIT` was
      given, may carry the extra line unless `NO_EXTRA` was given, and goes to the last
      paginator given. */
  lemma {:induction false} FoldGathersFlags(parts: seq<Part>, message: int)
    requires NoDict(parts) && BadArgumentMark !in parts
    ensures Fold(parts, message).Ok?
    ensures var s := Fold(parts, message).value;
      && (s.edit <==> EditMark in parts)
      && ("edit" in s.kwargs <==> EditMark in parts)
      && (s.extra <==> NoExtraMark !in parts)
      && s.paginator == LastPaginator(parts)
  {
    FoldGathersAttachments(parts, message);
    if parts != [] {
      var init := parts[..|parts| - 1];
      var last := parts[|parts| - 1];
      assert parts == init + [last];
      assert NoDict(init) && BadArgumentMark !in init;
      FoldGathersFlags(init, message);
      StepFlags(Fold(init, message).value, last, message);
      assert EditMark in parts <==> EditMark in init || last == EditMark;
      assert NoExtraMark in parts <==> NoExtraMark in init || last == NoExtraMark;
    }
  }

  /** `BAD_ARGUMENT` raises with the content gathered before it, or a `KeyError` when
      there is none, whatever follows. */
  lemma BadArgumentRaises(before: seq<Part>, after: seq<Part>, message: int)
    requires NoDict(before) && BadArgumentMark !in before
    ensures Fold(before + [BadArgumentMark] + after, message)
            == Err(if LastText(before).Str? then BadArgument(LastText(before)) else KeyError("content"))
  {
    FoldGathersContent(before, message);
    var upTo := before + [BadArgumentMark];
    assert upTo[..|upTo| - 1] == before;
    FoldStopsAtError(upTo, after, message);
  }

  // ---- the unread-notification line ----

  /** The extensions whose messages may carry the notification line. */
  const CurrencyCogs: set<string> := {"Casino", "Profit", "Stats", "Transactions"}

  const Bell := "\U{1F514}"

  /** The line telling the user how many notifications are unread: the count with
      thousands separators, then "notification" for exactly one and "notifications"
      otherwise. */
  function Notice(count: nat, prefix: string): string
  {
    Bell + " You have " + Grouped(count) + " " + NoticeTail(count, prefix)
  }

  function NoticeTail(count: nat, prefix: string): string
  {
    "unread notification" + (if count != 1 then "s" else "") + ". Run `" + prefix + "notifications` to view them."
  }

  /** A grouped numeral holds digits and commas only, so no whitespace. */
  lemma {:induction false} GroupedNoSpace(n: nat)
    ensures forall i :: 0 <= i < |GroupedNat(n)| ==> !IsSpace(GroupedNat(n)[i])
  {
    if n < 1000 {
      assert AllDigits(NatString(n));
    } else {
      GroupedNoSpace(n / 1000);
      assert AllDigits(Pad3(n % 1000));
    }
  }

  /** The leading word of `a + " " + x` is `a` when `a` holds no whitespace. */
  lemma {:induction false} TakeWordBeforeSpace(a: string, x: string)
    requires forall i :: 0 <= i < |a| ==> !IsSpace(a[i])
    ensures TakeWord(a + " " + x) == a
  {
    if a != [] {
      TakeWordBeforeSpace(a[1..], x);
      assert (a + " " + x)[1..] == a[1..] + " " + x;
    }
  }

  /** Two whitespace-free words followed by a space at the same position are the same word. */
  lemma WordBeforeSpace(head: string, a: string, b: string, x: string, y: string)
    requires forall i :: 0 <= i < |a| ==> !IsSpace(a[i])
    requires forall i :: 0 <= i < |b| ==> !IsSpace(b[i])
    requires head + a + " " + x == head + b + " " + y
    ensures a == b
  {
    assert (head + a + " " + x)[|head|..] == a + " " + x;
    assert (head + b + " " + y)[|head|..] == b + " " + y;
    TakeWordBeforeSpace(a, x);
    TakeWordBeforeSpace(b, y);
  }

  /** The line shows the count: different counts give different lines. */
  lemma NoticeShowsCount(c1: nat, c2: nat, prefix: string)
    requires c1 != c2
    ensures Notice(c1, prefix) != Notice(c2, prefix)
  {
    if Notice(c1, prefix) == Notice(c2, prefix) {
      GroupedNoSpace(c1);
      GroupedNoSpace(c2);
      WordBeforeSpace(Bell + " You have ", Grouped(c1), Grouped(c2), NoticeTail(c1, prefix), NoticeTail(c2, prefix));
      GroupedUngroups(c1);
      GroupedUngroups(c2);
      NatStringRoundTrip(c1);
      NatStringRoundTrip(c2);
    }
  }

  /** One notification is spoken of in the singular, any other count in the plural. */
  lemma NoticeGrammar(count: nat, prefix: string)
    ensures StartsWith(NoticeTail(count, prefix), "unread notifications") <==> count != 1
  {
    var t := NoticeTail(count, prefix);
    if count == 1 {
      assert t[19] == '.';
    } else {
      assert t[..20] == "unread notifications";
    }
  }

  // ---- where the message goes ----

  /** `clean_interaction_kwargs`: no reply reference and no files. */
  function CleanInteraction(k: map<string, Value>): (r: map<string, Value>)
    ensures r.Keys == k.Keys - {"reference", "file", "files"}
    ensures forall key :: key in r ==> r[key] == k[key]
  {
    k - {"reference", "file", "files"}
  }

  /** What `process_message` does with a payload. */
  datatype Outcome =
    | NothingSent
    | Raised(error: ProcessError)
    | StartPaginator(paginator: int, kwargs: map<string, Value>)
    | InteractionReply(kwargs: map<string, Value>)
    | ContextSend(kwargs: map<string, Value>)

  /** Whether the notification line is added: extra allowed, a currency extension, no
      content yet, not an edit, and something unread. */
  predicate Notifies(s: FoldState, cog: string, unread: nat)
  {
    s.extra && cog in CurrencyCogs && !Truthy(Get(s.kwargs, "content")) && !s.edit && unread != 0
  }

  /** `process_message`: `None` sends nothing; otherwise the parts are folded, an error
      is raised before anything is sent, the notification line may become the content,
      and the message goes to a paginator (without reply reference or files), to the
      interaction, or to the channel, in that order of preference.  `unread` is the
      user's unread count and `prefix` the cleaned prefix. */
  method ProcessMessage(payload: Payload, message: int, cog: string, unread: nat, prefix: string, interaction: bool)
    returns (o: Outcome)
    requires payload != Single(NonePart)
    ensures payload.NoPayload? ==> o == NothingSent
    ensures !payload.NoPayload? ==>
      var parts := if payload.Single? then [payload.part] else payload.parts;
      match Fold(parts, message)
      case Err(e) => o == Raised(e)
      case Ok(s) =>
        var k := if Notifies(s, cog, unread) then s.kwargs["content" := Str(Notice(unread, prefix))] else s.kwargs;
        && (s.paginator.Some? ==> o == StartPaginator(s.paginator.value, CleanInteraction(k)))
        && (s.paginator.None? && interaction ==> o == InteractionReply(k))
        && (s.paginator.None? && !interaction ==> o == ContextSend(k))
  {
    if payload.NoPayload? {
      return NothingSent;
    }
    var parts := if payload.Single? then [payload.part] else payload.parts;
    var folded := ProcessParts(parts, message);
    if folded.Err? {
      return Raised(folded.error);
    }
    var s := folded.value;
    var kwargs := s.kwargs;
    if s.extra && cog in CurrencyCogs && !Truthy(Get(kwargs, "content")) && !s.edit {
      if unread != 0 {
        kwargs := kwargs["content" := Str(Notice(unread, prefix))];
      }
    }
    if s.paginator.Some? {
      return StartPaginator(s.paginator.value, CleanInteraction(kwargs));
    }
    if interaction {
      return InteractionReply(kwargs);
    }
    o := ContextSend(kwargs);
  }

  /** The notification line fills the content, so a message that has received it never
      qualifies for a second one, and every other keyword is left as it was. */
  lemma NoticeOnce(s: FoldState, cog: string, unread: nat, prefix: string)
    ensures var t := s.(kwargs := s.kwargs["content" := Str(Notice(unread, prefix))]);
      && !Notifies(t, cog, unread)
      && Truthy(Get(t.kwargs, "content"))
      && forall key :: key in s.kwargs && key != "content" ==> Get(t.kwargs, key) == s.kwargs[key]
  {
    assert Notice(unread, prefix)[0] == Bell[0];
  }

  // ---- decorator keyword arguments ----

  /** A keyword argument of `commands.command`: the command class, a string, or a
      tuple of aliases. */
  datatype CommandArg = ClassArg(name: string) | StringArg(s: string) | AliasesArg(names: seq<string>)

  /** The keyword names `_resolve_command_kwargs` can fill in. */
  datatype CommandKey = Cls | Name | Aliases | Usage | Brief | Help

  /** The keyword as it is spelled in the call. */
  function KeyName(k: CommandKey): string
  {
    match k
    case Cls => "cls"
    case Name => "name"
    case Aliases => "aliases"
    case Usage => "usage"
    case Brief => "brief"
    case Help => "help"
  }

  /** `TypeError('cannot have alias and aliases kwarg filled')`. */
  datatype AliasConflict = AliasConflict

  /** `_resolve_command_kwargs`: the class, then only the arguments that were given;
      `alias` and `aliases` together are refused. */
  function ResolveCommandKwargs(cls: string, name: Option<string>, alias: Option<string>, aliases: Option<seq<string>>,
                                usage: Option<string>, brief: Option<string>, help: Option<string>)
    : (r: Result<map<CommandKey, CommandArg>, AliasConflict>)
    ensures r.Err? <==> alias.Some? && aliases.Some?
    ensures r.Ok? ==>
      && Cls in r.value && r.value[Cls] == ClassArg(cls)
      && (Name in r.value <==> name.Some?) && (name.Some? ==> r.value[Name] == StringArg(name.value))
      && (Aliases in r.value <==> alias.Some? || aliases.Some?)
      && (alias.Some? ==> r.value[Aliases] == AliasesArg([alias.value]))
      && (aliases.Some? ==> r.value[Aliases] == AliasesArg(aliases.value))
      && (Usage in r.value <==> usage.Some?) && (usage.Some? ==> r.value[Usage] == StringArg(usage.value))
      && (Brief in r.value <==> brief.Some?) && (brief.Some? ==> r.value[Brief] == StringArg(brief.value))
      && (Help in r.value <==> help.Some?) && (help.Some? ==> r.value[Help] == StringArg(help.value))
  {
    if alias.Some? && aliases.Some? then Err(AliasConflict)
    else
      var k := map[Cls := ClassArg(cls)];
      var k := if name.Some? then k[Name := StringArg(name.value)] else k;
      var k := if alias.Some? then k[Aliases := AliasesArg([alias.value])] else k;
      var k := if aliases.Some? then k[Aliases := AliasesArg(aliases.value)] else k;
      var k := if usage.Some? then k[Usage := StringArg(usage.value)] else k;
      var k := if brief.Some? then k[Brief := StringArg(brief.value)] else k;
      var k := if help.Some? then k[Help := StringArg(help.value)] else k;
      Ok(k)
  }
}

/** Handler guards, authorization, argument binding and command discovery
    (`MessageHandler`, `PatternMessageHandler`, `BotRequestHandler` in both
    asynctelebot/telebot.py and pytelegram_async/bot.py, which agree on all
    of it except the built-in `get_version` command of the latter). */
module Handlers {
  import opened Values
  import Names

  /** A compiled regular expression. `matchesAtStart` is `re.match`: true
      when the pattern matches a prefix of the text (not necessarily all
      of it). Regex semantics are supplied, not re-implemented. */
  datatype Pattern = Pattern(source: string, matchesAtStart: string -> bool)

  /** A pattern that matches exactly the texts starting with `literal`
      (as `"/private( .*)?"` does with literal `"/private"`). */
  function LiteralPattern(source: string, literal: string): (p: Pattern)
    ensures p.source == source
    ensures forall t :: p.matchesAtStart(t) <==> |literal| <= |t| && t[..|literal|] == literal
  {
    Pattern(source, t => |literal| <= |t| && t[..|literal|] == literal)
  }

  /** `MessageHandler(message_type)` or `PatternMessageHandler(pattern)`,
      the latter always requiring the `text` field. */
  datatype Guard = FieldGuard(messageType: string) | PatternGuard(pattern: Pattern)

  function RequiredField(g: Guard): string {
    match g
    case FieldGuard(t) => t
    case PatternGuard(_) => "text"
  }

  /** What a handler can read of its owning `BotRequestHandler` instance:
      the `str()` of its `version` attribute, if it has one, and `this.bot`:
      the admin list of the bot it was last assigned to, as that list stands
      when the handler is called, or None while it has no bot. */
  datatype OwnerState = OwnerState(version: Option<string>, bot: Option<seq<int>>)

  /** One positional argument passed to a handler function. Python's None
      is `ValueArg(Null)`. */
  datatype Arg = SelfArg(owner: OwnerState) | MessageArg(message: Message) | ValueArg(v: Value)

  /** A decorated handler function: its guard, its `authorized` flag, the
      positional parameter names `inspect.getargspec` reports, and the
      function body, which returns a value whose truth is all that matters,
      or raises. */
  datatype Handler = Handler(guard: Guard, authorized: bool, argNames: seq<string>, action: seq<Arg> -> Outcome<bool>)

  /** `MessageHandler.pre_process` with the admin list read for this call:
      the required field must be present; an authorized handler then
      requires `message['from'].get('id')` to be in `admins`. Reading
      `message['from']` raises KeyError when it is missing and
      AttributeError when it is not a dict. */
  function CheckAccess(messageType: string, authorized: bool, admins: seq<int>, m: Message): Outcome<bool> {
    if messageType !in m then Ok(false)
    else if !authorized then Ok(true)
    else if "from" !in m then Raise(KeyError)
    else if !m["from"].Obj? then Raise(AttributeError)
    else Ok(InIntList(Get(m["from"].fields, "id"), admins))
  }

  /** `pre_process` of either handler class. The pattern variant first runs
      the base check, then `re.match` against `message['text']`, which
      raises TypeError when the text is not a string. */
  function PreProcess(h: Handler, admins: seq<int>, m: Message): (r: Outcome<bool>)
    ensures RequiredField(h.guard) !in m ==> r == Ok(false)
    ensures r == Ok(true) ==> RequiredField(h.guard) in m
    ensures r == Ok(true) && h.authorized ==>
      "from" in m && m["from"].Obj? && InIntList(Get(m["from"].fields, "id"), admins)
  {
    match h.guard
    case FieldGuard(t) => CheckAccess(t, h.authorized, admins, m)
    case PatternGuard(p) =>
      var base := CheckAccess("text", h.authorized, admins, m);
      if base != Ok(true) then base
      else if !m["text"].Str? then Raise(TypeError)
      else Ok(p.matchesAtStart(m["text"].s))
  }

  /** The binding loop of `wrapped` for one parameter name. */
  function BindOne(name: string, owner: OwnerState, m: Message): Arg {
    if name == "self" then SelfArg(owner)
    else if name == "message" then MessageArg(m)
    else if name in m then ValueArg(m[name])
    else ValueArg(Null)
  }

  /** The arguments `wrapped` passes: one per declared parameter, in order. */
  function Bind(names: seq<string>, owner: OwnerState, m: Message): (args: seq<Arg>)
    ensures |args| == |names|
    ensures forall i :: 0 <= i < |names| ==> args[i] == BindOne(names[i], owner, m)
  {
    if names == [] then []
    else [BindOne(names[0], owner, m)] + Bind(names[1..], owner, m)
  }

  /** Calling a bound handler (`wrapped(this, message)`): the admin list is
      re-read at every call from the owner's own bot, the one it was last
      assigned to, whichever bot is dispatching the message (`[]` when the
      owner has no bot); a rejected message yields False without running the body. A
      True answer comes only from the body, run on a message that holds the
      required field, was sent by an admin when the handler is authorized,
      and whose text matches when it is a pattern handler. An exception is
      either the guard's KeyError, AttributeError or TypeError, or the
      body's own. A sender who is not an admin, or a string text the
      pattern does not match, gets False without an exception. */
  function Invoke(h: Handler, owner: OwnerState, m: Message): (r: Outcome<bool>)
    ensures RequiredField(h.guard) !in m ==> r == Ok(false)
    ensures r == Ok(true) ==> RequiredField(h.guard) in m && h.action(Bind(h.argNames, owner, m)) == Ok(true)
    ensures r == Ok(true) && h.authorized ==>
      "from" in m && m["from"].Obj? && InIntList(Get(m["from"].fields, "id"), AdminsOf(owner.bot))
    ensures r == Ok(true) && h.guard.PatternGuard? ==>
      "text" in m && m["text"].Str? && h.guard.pattern.matchesAtStart(m["text"].s)
    ensures r.Raise? ==> r.exc in {KeyError, AttributeError, TypeError} || r == h.action(Bind(h.argNames, owner, m))
    ensures h.authorized && "from" in m && m["from"].Obj? && !InIntList(Get(m["from"].fields, "id"), AdminsOf(owner.bot))
      ==> r == Ok(false)
    ensures (&& h.guard.PatternGuard? && "text" in m
             && CheckAccess("text", h.authorized, AdminsOf(owner.bot), m) == Ok(true)
             && m["text"].Str? && !h.guard.pattern.matchesAtStart(m["text"].s))
      ==> r == Ok(false)
  {
    var pre := PreProcess(h, AdminsOf(owner.bot), m);
    if pre != Ok(true) then pre
    else h.action(Bind(h.argNames, owner, m))
  }

  /** `this.bot.admins if this.bot is not None else []`. */
  function AdminsOf(botAdmins: Option<seq<int>>): seq<int> {
    match botAdmins
    case Some(a) => a
    case None => []
  }

  /** A class attribute as `dir()`/`getattr` sees it: a decorated handler
      (callable and marked `is_handler`) or anything else. */
  datatype Attr = HandlerAttr(handler: Handler) | OtherAttr

  /** A handler in the commands list, with the attribute name it was found under. */
  datatype Command = Command(name: string, handler: Handler)

  /** A `BotRequestHandler` instance: what handlers read of it, its
      attributes by name, and the `_commands` cache. */
  datatype Owner = Owner(state: OwnerState, attrs: map<string, Attr>, cache: Option<seq<Command>>)

  /** The built-in `get_version` of pytelegram_async: an authorized
      `/version` pattern command taking `(self, chat)`. */
  function GetVersion(): Handler {
    Handler(PatternGuard(LiteralPattern("/version", "/version")), true, ["self", "chat"], GetVersionBody)
  }

  /** The body of `get_version`: False when the owner has no `version`
      attribute (so dispatch goes on); otherwise it sends `str(version)` to
      `chat['id']` and returns True. Indexing a missing chat raises
      TypeError, a chat without `id` KeyError, and a version text over 4096
      characters makes `send_message` raise ValueError. */
  function GetVersionBody(args: seq<Arg>): Outcome<bool> {
    if |args| != 2 || !args[0].SelfArg? then Raise(TypeError)
    else match args[0].owner.version
      case None => Ok(false)
      case Some(text) =>
        var chat := ChatFields(args[1]);
        if chat.None? then Raise(TypeError)
        else if "id" !in chat.value then Raise(KeyError)
        else if |text| > 4096 then Raise(ValueError)
        else Ok(true)
  }

  /** The dict an argument denotes, if it is one. */
  function ChatFields(a: Arg): Option<map<string, Value>> {
    match a
    case MessageArg(m) => Some(m)
    case ValueArg(Obj(f)) => Some(f)
    case _ => None
  }

  /** The attributes `dir()` finds on an owner: its own, plus (in
      pytelegram_async) the inherited `get_version` unless the owner's class
      redefines that name. */
  function ClassAttrs(lib: Library, o: Owner): map<string, Attr> {
    match lib
    case AsyncTelebot => o.attrs
    case PytelegramAsync =>
      if "get_version" in o.attrs then o.attrs else o.attrs["get_version" := HandlerAttr(GetVersion())]
  }

  /** The attribute names of a commands list, in order. */
  function NamesOf(cs: seq<Command>): (ns: seq<string>)
    ensures |ns| == |cs|
    ensures forall i :: 0 <= i < |cs| ==> ns[i] == cs[i].name
  {
    seq(|cs|, i requires 0 <= i < |cs| => cs[i].name)
  }

  /** The handlers among `names`, in the order of `names`. */
  function HandlersAmong(names: seq<string>, attrs: map<string, Attr>): (r: seq<Command>)
    ensures |r| <= |names|
  {
    if names == [] then []
    else
      var rest := HandlersAmong(names[1..], attrs);
      if names[0] in attrs && attrs[names[0]].HandlerAttr? then [Command(names[0], attrs[names[0]].handler)] + rest
      else rest
  }

  /** What `HandlersAmong` keeps: exactly the names bound to a handler, each
      with its own handler, in the order of `names`. */
  lemma HandlersAmongFacts(names: seq<string>, attrs: map<string, Attr>)
    ensures var r := HandlersAmong(names, attrs);
      && (forall i :: 0 <= i < |r| ==> r[i].name in names && r[i].name in attrs && attrs[r[i].name] == HandlerAttr(r[i].handler))
      && (forall n :: n in NamesOf(r) <==> n in names && n in attrs && attrs[n].HandlerAttr?)
      && (Names.StrictlySorted(names) ==> Names.StrictlySorted(NamesOf(r)))
  {
    AmongElements(names, attrs);
    AmongNames(names, attrs);
    if Names.StrictlySorted(names) {
      AmongSorted(names, attrs);
    }
  }

  /** Every command of `r` is a handler attribute found under one of `names`. */
  ghost predicate FoundAmong(r: seq<Command>, names: seq<string>, attrs: map<string, Attr>) {
    forall i :: 0 <= i < |r| ==> r[i].name in names && r[i].name in attrs && attrs[r[i].name] == HandlerAttr(r[i].handler)
  }

  lemma {:induction false} AmongElements(names: seq<string>, attrs: map<string, Attr>)
    ensures FoundAmong(HandlersAmong(names, attrs), names, attrs)
  {
    if names != [] {
      var tail := names[1..];
      AmongElements(tail, attrs);
      var rest := HandlersAmong(tail, attrs);
      var r := HandlersAmong(names, attrs);
      assert names == [names[0]] + tail;
      forall i | 0 <= i < |r|
        ensures r[i].name in names && r[i].name in attrs && attrs[r[i].name] == HandlerAttr(r[i].handler)
      {
        if names[0] in attrs && attrs[names[0]].HandlerAttr? {
          var h := attrs[names[0]].handler;
          assert r == [Command(names[0], h)] + rest;
          if i > 0 {
            assert r[i] == rest[i - 1];
            assert rest[i - 1].name in tail;
          } else {
            assert attrs[names[0]] == HandlerAttr(h);
          }
        } else {
          assert r == rest;
          assert rest[i].name in tail;
        }
      }
    }
  }

  lemma {:induction false} AmongNames(names: seq<string>, attrs: map<string, Attr>)
    ensures var r := HandlersAmong(names, attrs);
      forall n :: n in NamesOf(r) <==> n in names && n in attrs && attrs[n].HandlerAttr?
  {
    if names != [] {
      AmongNames(names[1..], attrs);
      var rest := HandlersAmong(names[1..], attrs);
      assert names == [names[0]] + names[1..];
      if names[0] in attrs && attrs[names[0]].HandlerAttr? {
        var r := [Command(names[0], attrs[names[0]].handler)] + rest;
        assert NamesOf(r) == [names[0]] + NamesOf(rest);
      }
    }
  }

  lemma {:induction false} AmongSorted(names: seq<string>, attrs: map<string, Attr>)
    requires Names.StrictlySorted(names)
    ensures Names.StrictlySorted(NamesOf(HandlersAmong(names, attrs)))
  {
    if names != [] {
      var tail := names[1..];
      forall i, j | 0 <= i < j < |tail|
        ensures Names.Below(tail[i], tail[j])
      {
        assert tail[i] == names[i + 1] && tail[j] == names[j + 1];
      }
      AmongSorted(tail, attrs);
      var rest := HandlersAmong(tail, attrs);
      if names[0] in attrs && attrs[names[0]].HandlerAttr? {
        AmongNames(tail, attrs);
        var ns := NamesOf(rest);
        var r := [Command(names[0], attrs[names[0]].handler)] + rest;
        assert NamesOf(r) == [names[0]] + ns;
        forall j | 0 <= j < |ns|
          ensures Names.Below(names[0], ns[j])
        {
          assert ns[j] in NamesOf(rest);
          var k :| 0 <= k < |tail| && tail[k] == ns[j];
          assert names[k + 1] == ns[j];
        }
      }
    }
  }

  /** The commands list `dir()` yields: the handler attributes among the
      attribute names in ascending order. */
  function Discover(attrs: map<string, Attr>): seq<Command> {
    HandlersAmong(Names.Sorted(attrs.Keys), attrs)
  }

  /** `Discover` lists every handler attribute, once, in ascending name
      order, and nothing else. */
  lemma DiscoverFacts(attrs: map<string, Attr>)
    ensures var r := Discover(attrs);
      && (forall i :: 0 <= i < |r| ==> r[i].name in attrs && attrs[r[i].name] == HandlerAttr(r[i].handler))
      && (forall n :: n in NamesOf(r) <==> n in attrs && attrs[n].HandlerAttr?)
      && Names.StrictlySorted(NamesOf(r))
  {
    HandlersAmongFacts(Names.Sorted(attrs.Keys), attrs);
  }

  /** The `commands` property: the cached list when there is one, otherwise
      the discovered list, which is also stored in the cache. */
  function Commands(lib: Library, o: Owner): (r: (seq<Command>, Owner))
    ensures r.1.cache == Some(r.0)
    ensures o.cache.Some? ==> r == (o.cache.value, o)
    ensures o.cache.None? ==> r.0 == Discover(ClassAttrs(lib, o))
    ensures r.1.state == o.state && r.1.attrs == o.attrs
  {
    match o.cache
    case Some(c) => (c, o)
    case None =>
      var c := Discover(ClassAttrs(lib, o));
      (c, o.(cache := Some(c)))
  }

  /** Setting an attribute on an owner (it does not touch the cache). */
  function SetAttr(o: Owner, name: string, a: Attr): Owner {
    o.(attrs := o.attrs[name := a])
  }

  /** `assign_to(bot)`: the owner now answers to that bot's admin list; its
      attributes and cached commands are kept. */
  function AssignTo(o: Owner, admins: seq<int>): (r: Owner)
    ensures r.state.bot == Some(admins) && r.state.version == o.state.version
    ensures r.attrs == o.attrs && r.cache == o.cache
  {
    Owner(o.state.(bot := Some(admins)), o.attrs, o.cache)
  }

  /** A handler never accepts a message lacking its required field, whether
      or not it is authorized, and its body is not run. */
  lemma MissingFieldRejects(h: Handler, owner: OwnerState, m: Message)
    requires RequiredField(h.guard) !in m
    ensures Invoke(h, owner, m) == Ok(false)
  {
  }

  /** A plain handler that is not authorized accepts every message holding
      its field. */
  lemma OpenHandlerAccepts(h: Handler, admins: seq<int>, m: Message)
    requires h.guard.FieldGuard? && !h.authorized && h.guard.messageType in m
    ensures PreProcess(h, admins, m) == Ok(true)
  {
  }

  /** An authorized plain handler accepts a message holding its field iff
      the sender's id is in the admin list passed for this call. */
  lemma AuthorizedIffAdmin(h: Handler, admins: seq<int>, m: Message)
    requires h.guard.FieldGuard? && h.authorized && h.guard.messageType in m
    requires "from" in m && m["from"].Obj?
    ensures PreProcess(h, admins, m) == Ok(true) <==> InIntList(Get(m["from"].fields, "id"), admins)
    ensures PreProcess(h, admins, m).Ok?
  {
  }

  /** The admin list is read when the handler is called, not when it is
      registered: two lists that agree on the sender give the same outcome,
      and removing the sender from the list revokes acceptance. */
  lemma AdminsReadAtCallTime(h: Handler, a1: seq<int>, a2: seq<int>, m: Message)
    requires h.authorized && "from" in m && m["from"].Obj?
    ensures InIntList(Get(m["from"].fields, "id"), a1) == InIntList(Get(m["from"].fields, "id"), a2) ==>
      PreProcess(h, a1, m) == PreProcess(h, a2, m)
    ensures !InIntList(Get(m["from"].fields, "id"), a2) ==> PreProcess(h, a2, m) != Ok(true)
  {
  }

  /** An authorized handler whose owner has no bot sees an empty admin list
      and never runs its body. */
  lemma NoBotRejects(h: Handler, owner: OwnerState, m: Message)
    requires h.authorized && owner.bot.None?
    ensures Invoke(h, owner, m).Ok? ==> Invoke(h, owner, m) == Ok(false)
    ensures Invoke(h, owner, m) == PreProcess(h, [], m)
    ensures Invoke(h, owner, m).Raise? ==> Invoke(h, owner, m).exc in {KeyError, AttributeError}
  {
  }

  /** `wrapped` consults the guard before anything else: an accepted
      message gets the body's outcome, and any other outcome of the guard,
      False or the guard's own exception, is the answer, the body never
      being run. */
  lemma GuardBeforeBody(h: Handler, owner: OwnerState, m: Message)
    ensures var pre := PreProcess(h, AdminsOf(owner.bot), m);
      && (pre == Ok(true) ==> Invoke(h, owner, m) == h.action(Bind(h.argNames, owner, m)))
      && (pre != Ok(true) ==> Invoke(h, owner, m) == pre)
      && (pre.Raise? ==> pre.exc in {KeyError, AttributeError, TypeError})
  {
  }

  /** A pattern handler accepts iff the base check passes, `text` is a
      string and the pattern matches at its start. */
  lemma PatternAnchored(h: Handler, admins: seq<int>, m: Message)
    requires h.guard.PatternGuard?
    ensures PreProcess(h, admins, m) == Ok(true) <==>
      && CheckAccess("text", h.authorized, admins, m) == Ok(true)
      && m["text"].Str?
      && h.guard.pattern.matchesAtStart(m["text"].s)
  {
  }

  /** Binding never fails and follows the name rules: `self` is the owner,
      `message` the whole message, a name present in the message its value,
      any other name None. */
  lemma BindingRules(names: seq<string>, owner: OwnerState, m: Message)
    ensures |Bind(names, owner, m)| == |names|
    ensures forall i :: 0 <= i < |names| && names[i] == "self" ==> Bind(names, owner, m)[i] == SelfArg(owner)
    ensures forall i :: 0 <= i < |names| && names[i] == "message" ==> Bind(names, owner, m)[i] == MessageArg(m)
    ensures forall i :: 0 <= i < |names| && names[i] != "self" && names[i] != "message" && names[i] in m ==>
      Bind(names, owner, m)[i] == ValueArg(m[names[i]])
    ensures forall i :: 0 <= i < |names| && names[i] != "self" && names[i] != "message" && names[i] !in m ==>
      Bind(names, owner, m)[i] == ValueArg(Null)
  {
  }

  /** Binding reads only the declared names: two messages that agree on
      them bind identically (unless the whole message is asked for). */
  lemma {:induction false} BindReadsOnlyNames(names: seq<string>, owner: OwnerState, m1: Message, m2: Message)
    requires "message" !in names
    requires forall n :: n in names ==> (n in m1 <==> n in m2) && (n in m1 ==> m1[n] == m2[n])
    ensures Bind(names, owner, m1) == Bind(names, owner, m2)
  {
    if names != [] {
      BindReadsOnlyNames(names[1..], owner, m1, m2);
    }
  }

  /** `commands` is computed once: after the first access the same list is
      returned, even if attributes are added to the owner afterwards. */
  lemma CommandsComputedOnce(lib: Library, o: Owner, name: string, a: Attr)
    ensures Commands(lib, Commands(lib, o).1).0 == Commands(lib, o).0
    ensures Commands(lib, SetAttr(Commands(lib, o).1, name, a)).0 == Commands(lib, o).0
  {
  }

  /** `get_version` declines (returns False, so dispatch goes on) when the
      owner has no `version`; it can accept only an admin's `/version`. */
  lemma GetVersionContract(owner: OwnerState, m: Message)
    ensures owner.version.None? && Invoke(GetVersion(), owner, m).Ok? ==>
      Invoke(GetVersion(), owner, m) == Ok(false)
    ensures Invoke(GetVersion(), owner, m) == Ok(true) ==>
      && "text" in m && m["text"].Str? && |"/version"| <= |m["text"].s| && m["text"].s[..8] == "/version"
      && "from" in m && m["from"].Obj? && InIntList(Get(m["from"].fields, "id"), AdminsOf(owner.bot))
      && owner.version.Some?
  {
  }
}

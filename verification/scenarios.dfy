/** The cases of tests/test_handler.py and a few concrete requests, worked
    through the model: the `DummyHandler` of the tests, registered on a bot
    whose admins are `[1, 2, 3, 999]`. */
module Scenarios {
  import opened Values
  import Names
  import opened Handlers
  import opened Dispatch
  import Entities
  import Multipart
  import Sender

  const Admins: seq<int> := [1, 2, 3, 999]

  /** `@PatternMessageHandler("/private( .*)?", authorized=True)`. The
      optional group makes `re.match` succeed exactly on texts starting
      with `/private`. */
  function Private(): Handler {
    Handler(PatternGuard(LiteralPattern("/private( .*)?", "/private")), true, ["self", "message", "text"], args => Ok(true))
  }

  /** `@PatternMessageHandler("/public( .*)?")`. */
  function Public(): Handler {
    Handler(PatternGuard(LiteralPattern("/public( .*)?", "/public")), false, ["self", "message", "text"], args => Ok(true))
  }

  /** `@PatternMessageHandler("/params")` on `parameters(self, text)`, whose
      body asserts `text == "/params"`. */
  function Parameters(): Handler {
    Handler(PatternGuard(LiteralPattern("/params", "/params")), false, ["self", "text"],
            args => if |args| == 2 && args[1] == ValueArg(Str("/params")) then Ok(true) else Raise(HandlerError))
  }

  /** `@MessageHandler(message_type='contact')` on `on_contact(self, contact)`,
      whose body asserts `contact is not None`. */
  function OnContact(): Handler {
    Handler(FieldGuard("contact"), false, ["self", "contact"],
            args => if |args| == 2 && args[1] != ValueArg(Null) then Ok(true) else Raise(HandlerError))
  }

  /** The attributes `dir()` finds on a `DummyHandler`-shaped instance:
      the instance's `bot` and `_commands`, the class's `__doc__` and
      `__module__`, the inherited `__init__`, `assign_to` and `commands`,
      and four handlers. Only the handlers are callables marked
      `is_handler`. */
  function DummyAttrs(priv: Handler, pub: Handler, par: Handler, con: Handler): map<string, Attr> {
    map["__doc__" := OtherAttr, "__init__" := OtherAttr, "__module__" := OtherAttr,
        "_commands" := OtherAttr, "assign_to" := OtherAttr, "bot" := OtherAttr,
        "commands" := OtherAttr, "on_contact" := HandlerAttr(con),
        "parameters" := HandlerAttr(par), "private" := HandlerAttr(priv),
        "public" := HandlerAttr(pub)]
  }

  /** The `DummyHandler` instance of the tests, as created: no `version`
      and no bot yet. */
  function Dummy(): Owner {
    Owner(OwnerState(None, None), DummyAttrs(Private(), Public(), Parameters(), OnContact()), None)
  }

  /** The `handler` fixture: the instance added to the test bot, whose
      admins are `Admins`. */
  function TestBot(): seq<Owner> {
    AddHandler(Admins, [], Some(Dummy()))
  }

  /** The instance's state once the test bot has added it. */
  const Registered := OwnerState(None, Some(Admins))

  /** The attribute names that are not handlers, in `dir()` order. */
  const NonHandlerNames: seq<string> := ["__doc__", "__init__", "__module__", "_commands", "assign_to", "bot", "commands"]

  /** The handler names, in `dir()` order. */
  const HandlerNames: seq<string> := ["on_contact", "parameters", "private", "public"]

  /** `dir()` of such an instance, in order: the underscore names first
      (`_` sorts below every lower-case letter), and the handlers last. */
  lemma DummyListing(priv: Handler, pub: Handler, par: Handler, con: Handler)
    ensures Names.Sorted(DummyAttrs(priv, pub, par, con).Keys) == NonHandlerNames + HandlerNames
  {
    DummyNamesAscend();
    DummyKeys(priv, pub, par, con);
    Names.SortedUnique(NonHandlerNames + HandlerNames, DummyAttrs(priv, pub, par, con).Keys);
  }

  lemma DummyNamesAscend()
    ensures Names.StrictlySorted(NonHandlerNames + HandlerNames)
  {
    Names.BelowAt("__doc__", "__init__", 2);
    Names.BelowAt("__init__", "__module__", 2);
    Names.BelowAt("__module__", "_commands", 1);
    Names.BelowAt("_commands", "assign_to", 0);
    Names.BelowAt("assign_to", "bot", 0);
    Names.BelowAt("bot", "commands", 0);
    Names.BelowAt("commands", "on_contact", 0);
    Names.BelowAt("on_contact", "parameters", 0);
    Names.BelowAt("parameters", "private", 1);
    Names.BelowAt("private", "public", 1);
    Names.ChainSorted(NonHandlerNames + HandlerNames);
  }

  lemma DummyKeys(priv: Handler, pub: Handler, par: Handler, con: Handler)
    ensures forall x :: x in NonHandlerNames + HandlerNames <==> x in DummyAttrs(priv, pub, par, con).Keys
  {
    var xs := NonHandlerNames + HandlerNames;
    assert xs == ["__doc__", "__init__", "__module__", "_commands", "assign_to", "bot", "commands",
                  "on_contact", "parameters", "private", "public"];
  }

  /** Names bound to something other than a handler contribute nothing. */
  lemma {:induction false} AmongSkips(pre: seq<string>, rest: seq<string>, attrs: map<string, Attr>)
    requires forall i :: 0 <= i < |pre| ==> pre[i] in attrs && attrs[pre[i]].OtherAttr?
    ensures HandlersAmong(pre + rest, attrs) == HandlersAmong(rest, attrs)
    decreases |pre|
  {
    if pre != [] {
      assert (pre + rest)[0] == pre[0];
      assert (pre + rest)[1..] == pre[1..] + rest;
      forall i | 0 <= i < |pre[1..]|
        ensures pre[1..][i] in attrs && attrs[pre[1..][i]].OtherAttr?
      {
        assert pre[1..][i] == pre[i + 1];
      }
      AmongSkips(pre[1..], rest, attrs);
    } else {
      assert pre + rest == rest;
    }
  }

  /** One step of `HandlersAmong`: the head name, kept when it is a handler. */
  lemma AmongStep(names: seq<string>, attrs: map<string, Attr>)
    requires names != []
    ensures HandlersAmong(names, attrs) ==
      (if names[0] in attrs && attrs[names[0]].HandlerAttr? then [Command(names[0], attrs[names[0]].handler)] else []) + HandlersAmong(names[1..], attrs)
  {
  }

  /** Four names bound to handlers yield those four, in the listed order. */
  lemma AmongFour(n1: string, n2: string, n3: string, n4: string, h1: Handler, h2: Handler, h3: Handler, h4: Handler,
                  attrs: map<string, Attr>)
    requires n1 in attrs && attrs[n1] == HandlerAttr(h1) && n2 in attrs && attrs[n2] == HandlerAttr(h2)
    requires n3 in attrs && attrs[n3] == HandlerAttr(h3) && n4 in attrs && attrs[n4] == HandlerAttr(h4)
    ensures HandlersAmong([n1, n2, n3, n4], attrs) == [Command(n1, h1), Command(n2, h2), Command(n3, h3), Command(n4, h4)]
  {
    var xs := [n1, n2, n3, n4];
    AmongStep(xs, attrs);
    AmongStep(xs[1..], attrs);
    AmongStep(xs[2..], attrs);
    AmongStep(xs[3..], attrs);
    assert xs[4..] == [];
  }

  /** The names that are not handlers are bound to other attributes. */
  lemma DummyOthers(priv: Handler, pub: Handler, par: Handler, con: Handler)
    ensures forall i :: 0 <= i < |NonHandlerNames| ==>
      NonHandlerNames[i] in DummyAttrs(priv, pub, par, con) && DummyAttrs(priv, pub, par, con)[NonHandlerNames[i]].OtherAttr?
  {
  }

  /** The handler names are bound to their handlers. */
  lemma DummyHandlers(priv: Handler, pub: Handler, par: Handler, con: Handler)
    ensures var attrs := DummyAttrs(priv, pub, par, con);
      && "on_contact" in attrs && attrs["on_contact"] == HandlerAttr(con)
      && "parameters" in attrs && attrs["parameters"] == HandlerAttr(par)
      && "private" in attrs && attrs["private"] == HandlerAttr(priv)
      && "public" in attrs && attrs["public"] == HandlerAttr(pub)
  {
  }

  /** The commands of such an instance: its handlers in name order. */
  lemma DummyCommands(st: OwnerState, priv: Handler, pub: Handler, par: Handler, con: Handler)
    ensures Commands(AsyncTelebot, Owner(st, DummyAttrs(priv, pub, par, con), None)).0 ==
      [Command("on_contact", con), Command("parameters", par), Command("private", priv), Command("public", pub)]
  {
    var attrs := DummyAttrs(priv, pub, par, con);
    DummyListing(priv, pub, par, con);
    assert Commands(AsyncTelebot, Owner(st, attrs, None)).0 == HandlersAmong(NonHandlerNames + HandlerNames, attrs);
    DummyOthers(priv, pub, par, con);
    AmongSkips(NonHandlerNames, HandlerNames, attrs);
    DummyHandlers(priv, pub, par, con);
    AmongFour("on_contact", "parameters", "private", "public", con, par, priv, pub, attrs);
  }

  /** test_count_commands: such an instance has four commands, tried in the
      order `on_contact`, `parameters`, `private`, `public`. */
  lemma CountCommands(st: OwnerState, priv: Handler, pub: Handler, par: Handler, con: Handler)
    ensures var cs := Commands(AsyncTelebot, Owner(st, DummyAttrs(priv, pub, par, con), None)).0;
      |cs| == 4 && NamesOf(cs) == ["on_contact", "parameters", "private", "public"]
  {
    DummyCommands(st, priv, pub, par, con);
    NamesOfFour(Command("on_contact", con), Command("parameters", par), Command("private", priv), Command("public", pub));
  }

  lemma NamesOfFour(a: Command, b: Command, c: Command, d: Command)
    ensures NamesOf([a, b, c, d]) == [a.name, b.name, c.name, d.name]
  {
  }

  /** A bot with one owner of four commands tries those four, in order. */
  lemma CandidatesOfFour(lib: Library, o: Owner)
    requires |Commands(lib, o).0| == 4
    ensures var cs := Commands(lib, o).0;
      Candidates(lib, [o]) ==
        [Call(o.state, cs[0].handler), Call(o.state, cs[1].handler), Call(o.state, cs[2].handler), Call(o.state, cs[3].handler)]
  {
    CandidatesSingle(lib, o);
    var cs := Commands(lib, o).0;
    var calls := CallsOf(lib, o);
    assert |calls| == 4;
    assert calls[0] == Call(o.state, cs[0].handler) && calls[1] == Call(o.state, cs[1].handler);
    assert calls[2] == Call(o.state, cs[2].handler) && calls[3] == Call(o.state, cs[3].handler);
  }

  /** The bot tries the instance's commands in that order. */
  lemma DummyCandidates(st: OwnerState, priv: Handler, pub: Handler, par: Handler, con: Handler)
    ensures Candidates(AsyncTelebot, [Owner(st, DummyAttrs(priv, pub, par, con), None)]) ==
      [Call(st, con), Call(st, par), Call(st, priv), Call(st, pub)]
  {
    DummyCommands(st, priv, pub, par, con);
    CandidatesOfFour(AsyncTelebot, Owner(st, DummyAttrs(priv, pub, par, con), None));
  }

  /** A scan whose head is known. */
  lemma ScanCons(c: Call, rest: seq<Call>, m: Message)
    ensures Scan([c] + rest, m) ==
      if Run(c, m) != Ok(false) then Run(c, m) else Scan(rest, m)
  {
    assert ([c] + rest)[0] == c;
    assert ([c] + rest)[1..] == rest;
  }

  /** Scanning four calls, spelled out. */
  lemma ScanFour(c1: Call, c2: Call, c3: Call, c4: Call, m: Message)
    ensures Scan([c1, c2, c3, c4], m) ==
      if Run(c1, m) != Ok(false) then Run(c1, m)
      else if Run(c2, m) != Ok(false) then Run(c2, m)
      else if Run(c3, m) != Ok(false) then Run(c3, m)
      else Run(c4, m)
  {
    assert [c1, c2, c3, c4] == [c1] + [c2, c3, c4];
    assert [c2, c3, c4] == [c2] + [c3, c4];
    assert [c3, c4] == [c3] + [c4];
    assert [c4] == [c4] + [];
    ScanCons(c1, [c2, c3, c4], m);
    ScanCons(c2, [c3, c4], m);
    ScanCons(c3, [c4], m);
    ScanCons(c4, [], m);
  }

  /** Dispatch on a bot holding one such instance: the first of its four
      commands, in order, that does not return False decides. */
  lemma DummyDispatch(st: OwnerState, priv: Handler, pub: Handler, par: Handler, con: Handler, m: Message)
    ensures ExecCommand(AsyncTelebot, [Owner(st, DummyAttrs(priv, pub, par, con), None)], m) ==
      if Run(Call(st, con), m) != Ok(false) then Run(Call(st, con), m)
      else if Run(Call(st, par), m) != Ok(false) then Run(Call(st, par), m)
      else if Run(Call(st, priv), m) != Ok(false) then Run(Call(st, priv), m)
      else Run(Call(st, pub), m)
  {
    DummyCandidates(st, priv, pub, par, con);
    ScanFour(Call(st, con), Call(st, par), Call(st, priv), Call(st, pub), m);
  }

  function From(id: int): Value {
    Obj(map["id" := Int(id)])
  }

  function Text(t: string, id: int): Message {
    map["text" := Str(t), "from" := From(id)]
  }

  /** The test bot's dispatch, with the instance's own handlers. */
  lemma DummyOnBot(m: Message)
    ensures var st := Registered;
      ExecCommand(AsyncTelebot, TestBot(), m) ==
        if Run(Call(st, OnContact()), m) != Ok(false) then Run(Call(st, OnContact()), m)
        else if Run(Call(st, Parameters()), m) != Ok(false) then Run(Call(st, Parameters()), m)
        else if Run(Call(st, Private()), m) != Ok(false) then Run(Call(st, Private()), m)
        else Run(Call(st, Public()), m)
  {
    assert TestBot() == [Owner(Registered, DummyAttrs(Private(), Public(), Parameters(), OnContact()), None)];
    DummyDispatch(Registered, Private(), Public(), Parameters(), OnContact(), m);
  }

  /** A pattern handler with a literal prefix, on a text message from `id`:
      an authorized handler rejects non-admins; otherwise the body runs iff
      the text starts with the prefix. */
  lemma TextRun(st: OwnerState, h: Handler, lit: string, t: string, id: int)
    requires h.guard.PatternGuard? && h.guard.pattern == LiteralPattern(h.guard.pattern.source, lit)
    ensures Run(Call(st, h), Text(t, id)) ==
      if h.authorized && id !in AdminsOf(st.bot) then Ok(false)
      else if |lit| <= |t| && t[..|lit|] == lit then h.action(Bind(h.argNames, st, Text(t, id)))
      else Ok(false)
  {
    var m := Text(t, id);
    assert "text" in m && m["text"] == Str(t);
    assert "from" in m && m["from"] == From(id);
    assert Get(m["from"].fields, "id") == Int(id);
  }

  /** `on_contact` ignores every text message. */
  lemma ContactIgnoresText(st: OwnerState, t: string, id: int)
    ensures Run(Call(st, OnContact()), Text(t, id)) == Ok(false)
  {
    assert "contact" !in Text(t, id);
  }

  /** A text the prefix of `/params` does not start is ignored by `parameters`. */
  lemma ParamsIgnores(st: OwnerState, t: string, id: int)
    requires |t| >= 7 && t[2] != 'a'
    ensures Run(Call(st, Parameters()), Text(t, id)) == Ok(false)
  {
    NotPrefix(t, "/params", 2);
    TextRun(st, Parameters(), "/params", t, id);
  }

  /** A text that differs from `lit` at position `i` does not start with it. */
  lemma NotPrefix(t: string, lit: string, i: nat)
    requires i < |lit| <= |t| && t[i] != lit[i]
    ensures t[..|lit|] != lit
  {
    assert t[..|lit|][i] == t[i];
  }

  /** How each of the four handlers of an instance in state `st` answers
      `/private` from `id`. */
  lemma PrivateRuns(st: OwnerState, id: int)
    ensures var m := Text("/private", id);
      && Run(Call(st, OnContact()), m) == Ok(false)
      && Run(Call(st, Parameters()), m) == Ok(false)
      && Run(Call(st, Private()), m) == Ok(id in AdminsOf(st.bot))
      && Run(Call(st, Public()), m) == Ok(false)
  {
    var t := "/private";
    ContactIgnoresText(st, t, id);
    ParamsIgnores(st, t, id);
    PrivateOnPrivate(st, id);
    PublicIgnores(st, t, id);
  }

  lemma PrivateOnPrivate(st: OwnerState, id: int)
    ensures Run(Call(st, Private()), Text("/private", id)) == Ok(id in AdminsOf(st.bot))
  {
    var t := "/private";
    assert t[..8] == "/private";
    TextRun(st, Private(), "/private", t, id);
  }

  /** A text the prefix of `/public` does not start is ignored by `public`. */
  lemma PublicIgnores(st: OwnerState, t: string, id: int)
    requires |t| >= 7 && t[2] != 'u'
    ensures Run(Call(st, Public()), Text(t, id)) == Ok(false)
  {
    NotPrefix(t, "/public", 2);
    TextRun(st, Public(), "/public", t, id);
  }

  /** test_private_auth_user and test_private_nonauth_user: `/private`
      succeeds exactly for the bot's admins (so for 2 and not for 15). */
  lemma PrivateCommand(id: int)
    ensures ExecCommand(AsyncTelebot, TestBot(), Text("/private", id)) == Ok(id in Admins)
  {
    DummyOnBot(Text("/private", id));
    PrivateRuns(Registered, id);
  }

  /** One instance added first to a bot A with admins `adminsA` and then to
      a bot B with admins `adminsB`. A's handler list holds that same
      instance, now assigned to B, so A answers `/private` by B's admin
      list: the dispatching bot's own admins play no part. */
  lemma SharedOwnerUsesLastBot(adminsA: seq<int>, adminsB: seq<int>, id: int)
    ensures var onA := AddHandler(adminsA, [], Some(Dummy()));
      && ExecCommand(AsyncTelebot, onA, Text("/private", id)) == Ok(id in adminsA)
      && ExecCommand(AsyncTelebot, [AssignTo(onA[0], adminsB)], Text("/private", id)) == Ok(id in adminsB)
  {
    var onA := OwnerState(None, Some(adminsA));
    var onB := OwnerState(None, Some(adminsB));
    assert AddHandler(adminsA, [], Some(Dummy())) == [DummyIn(onA)];
    assert AssignTo(DummyIn(onA), adminsB) == DummyIn(onB);
    PrivateOnDummy(onA, id);
    PrivateOnDummy(onB, id);
  }

  /** The `DummyHandler` instance in state `st`. */
  function DummyIn(st: OwnerState): Owner {
    Owner(st, DummyAttrs(Private(), Public(), Parameters(), OnContact()), None)
  }

  /** `/private` on a bot holding one `DummyHandler` instance in state `st`
      succeeds exactly for the admins of the instance's own bot. */
  lemma PrivateOnDummy(st: OwnerState, id: int)
    ensures ExecCommand(AsyncTelebot, [DummyIn(st)], Text("/private", id)) == Ok(id in AdminsOf(st.bot))
  {
    DummyDispatch(st, Private(), Public(), Parameters(), OnContact(), Text("/private", id));
    PrivateRuns(st, id);
  }

  /** How each of the four handlers answers `/public` from `id`. */
  lemma PublicRuns(id: int)
    ensures var st := Registered;
      var m := Text("/public", id);
      && Run(Call(st, OnContact()), m) == Ok(false)
      && Run(Call(st, Parameters()), m) == Ok(false)
      && Run(Call(st, Private()), m) == Ok(false)
      && Run(Call(st, Public()), m) == Ok(true)
  {
    var t := "/public";
    ContactIgnoresText(Registered, t, id);
    ParamsIgnores(Registered, t, id);
    PrivateOnPublic(id);
    PublicOnPublic(id);
  }

  lemma PrivateOnPublic(id: int)
    ensures Run(Call(Registered, Private()), Text("/public", id)) == Ok(false)
  {
    TextRun(Registered, Private(), "/private", "/public", id);
  }

  lemma PublicOnPublic(id: int)
    ensures Run(Call(Registered, Public()), Text("/public", id)) == Ok(true)
  {
    var t := "/public";
    assert t[..7] == "/public";
    TextRun(Registered, Public(), "/public", t, id);
  }

  /** test_public_nonauth_user and test_public_auth_user: `/public`
      succeeds for every sender, admin or not (87 and 999). */
  lemma PublicCommand(id: int)
    ensures ExecCommand(AsyncTelebot, TestBot(), Text("/public", id)) == Ok(true)
  {
    DummyOnBot(Text("/public", id));
    PublicRuns(id);
  }

  /** `/params` passes over `on_contact` and reaches `parameters` with
      `text` bound to `"/params"`. */
  lemma ParamsRuns(id: int)
    ensures var st := Registered;
      var m := Text("/params", id);
      && Run(Call(st, OnContact()), m) == Ok(false)
      && Run(Call(st, Parameters()), m) == Ok(true)
  {
    var st := Registered;
    var t := "/params";
    var m := Text(t, id);
    assert t[..7] == "/params";
    ContactIgnoresText(Registered, t, id);
    assert Bind(["self", "text"], st, m) == [SelfArg(st), ValueArg(Str("/params"))];
    TextRun(st, Parameters(), "/params", t, id);
  }

  /** test_params_mapping: `text` is bound to `"/params"`, so the body's
      assertion holds and the command succeeds. */
  lemma ParamsMapping(id: int)
    ensures ExecCommand(AsyncTelebot, TestBot(), Text("/params", id)) == Ok(true)
  {
    DummyOnBot(Text("/params", id));
    ParamsRuns(id);
  }

  /** A message with a contact, from `id`. */
  function ContactFrom(id: int): Message {
    map["contact" := Obj(map["phone_number" := Str("secret")]), "from" := From(id)]
  }

  /** `on_contact` gets the contact, not None. */
  lemma ContactRuns(id: int)
    ensures Run(Call(Registered, OnContact()), ContactFrom(id)) == Ok(true)
  {
    var st := Registered;
    var m := ContactFrom(id);
    assert Bind(["self", "contact"], st, m) == [SelfArg(st), ValueArg(m["contact"])];
  }

  /** test_contact_message: `contact` is bound to the message's contact,
      not None, so the body's assertion holds. */
  lemma ContactMessage(id: int)
    ensures ExecCommand(AsyncTelebot, TestBot(), ContactFrom(id)) == Ok(true)
  {
    DummyOnBot(ContactFrom(id));
    ContactRuns(id);
  }

  /** One ASCII field makes one chunk. */
  lemma OneField(b: seq<byte>, k: string, v: string)
    requires Multipart.IsAscii(k) && Multipart.IsAscii(v)
    ensures Multipart.FieldChunks(b, [(k, v)]) ==
      Multipart.Emission([Multipart.Delimiter(b) + Multipart.FieldHeaders(Multipart.Ascii(k)) + Multipart.CRLF() + Multipart.Ascii(v) + Multipart.CRLF()], None)
  {
    assert [(k, v)][1..] == [];
  }

  /** One file with ASCII names makes its header chunk, its data chunks and
      a CRLF chunk. */
  lemma OneFile(b: seq<byte>, fk: string, f: Entities.FileTriple)
    requires Multipart.IsAscii(fk) && Multipart.IsAscii(f.name) && Multipart.IsAscii(f.mime)
    ensures Multipart.FileChunks(b, [(fk, Multipart.Upload(f))]) ==
      Multipart.Emission([Multipart.Delimiter(b) + Multipart.FileHeaders(Multipart.Ascii(fk), Multipart.Ascii(f.name), Multipart.Ascii(f.mime)) + Multipart.CRLF()]
                         + Multipart.ChunkData(f.data) + [Multipart.CRLF()], None)
  {
    assert [(fk, Multipart.Upload(f))][1..] == [];
    var head := Multipart.Delimiter(b) + Multipart.FileHeaders(Multipart.Ascii(fk), Multipart.Ascii(f.name), Multipart.Ascii(f.mime)) + Multipart.CRLF();
    var body := [head] + Multipart.ChunkData(f.data) + [Multipart.CRLF()];
    assert Multipart.FileChunks(b, []).chunks == [];
    assert body + [] == body;
  }

  /** The producer over one ASCII field and one file with ASCII names: the
      field chunk, the file's header chunk, its data chunks, the CRLF after
      them and the closing delimiter. */
  lemma OneFieldOneFile(boundary: string, k: string, v: string, fk: string, f: Entities.FileTriple)
    requires Multipart.IsAscii(boundary) && Multipart.IsAscii(k) && Multipart.IsAscii(v)
    requires Multipart.IsAscii(fk) && Multipart.IsAscii(f.name) && Multipart.IsAscii(f.mime)
    ensures var b := Multipart.Ascii(boundary);
      var e := Multipart.ProduceParts(boundary, [(k, v)], [(fk, Multipart.Upload(f))]);
      && e.error.None?
      && e.chunks == Multipart.FieldChunks(b, [(k, v)]).chunks + Multipart.FileChunks(b, [(fk, Multipart.Upload(f))]).chunks + [Multipart.Closer(b)]
  {
    var b := Multipart.Ascii(boundary);
    OneField(b, k, v);
    OneFile(b, fk, f);
  }

  /** The params and files of the upload, in iteration order. */
  lemma PhotoParts(codec: Codec, photo: Entities.FileTriple)
    requires codec.str(Int(42)) == "42"
    ensures Multipart.FieldsOf(codec.str, map["chat_id" := Int(42)]) == [("chat_id", "42")]
    ensures Multipart.FilesOf(map["photo" := Multipart.Upload(photo)]) == [("photo", Multipart.Upload(photo))]
  {
    var fields := Multipart.FieldsOf(codec.str, map["chat_id" := Int(42)]);
    var files := Multipart.FilesOf(map["photo" := Multipart.Upload(photo)]);
    assert |fields| == 1 && fields[0].0 == "chat_id";
    assert |files| == 1 && files[0].0 == "photo";
  }

  /** The literals of the upload are ASCII. */
  lemma PhotoAscii()
    ensures Multipart.IsAscii("b0undary") && Multipart.IsAscii("chat_id") && Multipart.IsAscii("42")
    ensures Multipart.IsAscii("photo") && Multipart.IsAscii("p.png") && Multipart.IsAscii("image/png")
  {
  }

  /** The multipart body for `chat_id=42` and a `photo` file: one field
      chunk, the file's header, its four bytes in one read, the CRLF after
      them and the closing delimiter; two parts in all, and the file part's
      content is the file. */
  lemma PhotoUpload(codec: Codec, baseUrl: string)
    requires codec.str(Int(42)) == "42"
    ensures var photo := Entities.File("p.png", [0x89, 0x50, 0x4E, 0x47], "image/png");
      var r := Sender.Request(Sender.SendEntity(Entities.Photo), map["chat_id" := Int(42)], map["photo" := Multipart.Upload(photo)]);
      var h := Sender.SendRequest(codec, baseUrl, "b0undary", r);
      && h.MultipartPost?
      && h.contentType == "multipart/form-data; boundary=" + "b0undary"
      && Sender.Emitted(codec, h).error.None?
      && |Sender.Emitted(codec, h).chunks| == 5
      && Sender.Emitted(codec, h).chunks[2] == photo.data
      && Sender.Emitted(codec, h).chunks[4] == Multipart.Closer(Multipart.Ascii("b0undary"))
  {
    var photo := Entities.File("p.png", [0x89, 0x50, 0x4E, 0x47], "image/png");
    var r := Sender.Request(Sender.SendEntity(Entities.Photo), map["chat_id" := Int(42)], map["photo" := Multipart.Upload(photo)]);
    var h := Sender.SendRequest(codec, baseUrl, "b0undary", r);
    assert |r.files| == 1;
    PhotoParts(codec, photo);
    assert Sender.Emitted(codec, h) == Multipart.ProduceParts("b0undary", [("chat_id", "42")], [("photo", Multipart.Upload(photo))]);
    PhotoEmission(photo);
  }

  /** The producer's output for the upload's field and file. */
  lemma PhotoEmission(photo: Entities.FileTriple)
    requires photo == Entities.File("p.png", [0x89, 0x50, 0x4E, 0x47], "image/png")
    ensures var e := Multipart.ProduceParts("b0undary", [("chat_id", "42")], [("photo", Multipart.Upload(photo))]);
      && e.error.None?
      && |e.chunks| == 5
      && e.chunks[2] == photo.data
      && e.chunks[4] == Multipart.Closer(Multipart.Ascii("b0undary"))
  {
    PhotoAscii();
    var b := Multipart.Ascii("b0undary");
    OneFieldOneFile("b0undary", "chat_id", "42", "photo", photo);
    OneField(b, "chat_id", "42");
    OneFile(b, "photo", photo);
    Multipart.FileDataReassembles(photo.data);
    assert Multipart.ChunkData(photo.data) == [photo.data];
  }

  /** A photo passed as the file id `"BQAD"` is taken apart character by
      character: the header names the file `B` with type `A` (items 0 and
      2), and reading item 1 as a file then raises AttributeError. */
  lemma FileIdPhoto(b: seq<byte>)
    ensures Multipart.RawChunks(b, "photo", Str("BQAD")) == Multipart.Emission(
      [Multipart.Delimiter(b) + Multipart.FileHeaders(Multipart.Ascii("photo"), Multipart.Ascii("B"), Multipart.Ascii("A")) + Multipart.CRLF()],
      Some(AttributeError))
  {
    assert Multipart.IsAscii("BQAD"[..3]);
  }

  /** A 4097-character text is refused before any request exists; 4096
      characters are sent. */
  lemma TextLimitBoundary(codec: Codec, to: Value)
    ensures Sender.PytelegramSendMessage(codec, to, Sender.TextMsg(seq(4097, i => 'a')), Null, map[]) == Raise(ValueError)
    ensures Sender.PytelegramSendMessage(codec, to, Sender.TextMsg(seq(4096, i => 'a')), Null, map[]).Ok?
  {
  }
}

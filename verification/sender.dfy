/** Outgoing requests: `send_message` and `edit_message` (asynctelebot),
    `send_message` and `edit_message_text` (pytelegram_async), and the
    `send_request` choice between a JSON body and a multipart body. */
module Sender {
  import opened Values
  import opened Entities
  import Multipart

  /** The longest text pytelegram_async's length guards let through. */
  const MaxText: nat := 4096

  /** The Bot API method a request is posted to: `send` followed by an
      entity class name, `sendMessage`, or `editMessageText`. */
  datatype Endpoint = SendEntity(kind: Kind) | SendMessage | EditMessageText

  /** The path appended to the bot's base URL. */
  function Path(e: Endpoint): string {
    match e
    case SendEntity(k) => "/send" + ClassName(k)
    case SendMessage => "/sendMessage"
    case EditMessageText => "/editMessageText"
  }

  /** What a sender hands to `send_request`: the method, the body dict and
      the files dict (`None` and `{}` alike are modelled as the empty map). */
  datatype Request = Request(endpoint: Endpoint, params: map<string, Value>, files: map<string, Multipart.Media>)

  /** The HTTP request `send_request` builds: a JSON post, or a multipart
      post whose body producer is the multipart producer bound to a
      boundary, the params and the files (it runs when the request is
      fetched; `Emitted` is what it writes). */
  datatype HttpRequest =
    | JsonPost(url: string, contentType: string, body: string)
    | MultipartPost(url: string, contentType: string, boundary: string,
                    params: map<string, Value>, files: map<string, Multipart.Media>)

  /** What the body producer of a multipart request writes. */
  function Emitted(codec: Codec, h: HttpRequest): Multipart.Emission
    requires h.MultipartPost?
  {
    Multipart.Produce(h.boundary, codec.str, h.params, h.files)
  }

  /** `send_request`: multipart with the given boundary exactly when there
      are files, JSON otherwise. */
  function SendRequest(codec: Codec, baseUrl: string, boundary: string, r: Request): (h: HttpRequest)
    ensures h.url == baseUrl + Path(r.endpoint)
    ensures h.MultipartPost? <==> |r.files| > 0
    ensures h.JsonPost? ==> h.contentType == "application/json" && h.body == codec.dumps(Obj(r.params))
    ensures h.MultipartPost? ==> h.contentType == "multipart/form-data; boundary=" + boundary
    ensures h.MultipartPost? ==> h.boundary == boundary && h.params == r.params && h.files == r.files
  {
    var url := baseUrl + Path(r.endpoint);
    if |r.files| == 0 then JsonPost(url, "application/json", codec.dumps(Obj(r.params)))
    else MultipartPost(url, "multipart/form-data; boundary=" + boundary, boundary, r.params, r.files)
  }

  /** A multipart request's body is the producer's output for the request's
      params and files, in key order: it holds at least one part (the files
      are not empty), and when everything is ASCII it is the RFC 2046 body
      of the params followed by the files. */
  lemma MultipartBody(codec: Codec, baseUrl: string, boundary: string, r: Request)
    requires |r.files| > 0
    ensures var fields := Multipart.FieldsOf(codec.str, r.params);
      var files := Multipart.FilesOf(r.files);
      var h := SendRequest(codec, baseUrl, boundary, r);
      && h.MultipartPost?
      && Emitted(codec, h) == Multipart.ProduceParts(boundary, fields, files)
      && (Multipart.Encodable(boundary, fields, files) ==>
            && Emitted(codec, h).error.None?
            && Multipart.Flatten(Emitted(codec, h).chunks)
               == Multipart.RfcBody(Multipart.Ascii(boundary), Multipart.FieldSpecs(fields) + Multipart.FileSpecs(files)))
  {
    var fields := Multipart.FieldsOf(codec.str, r.params);
    var files := Multipart.FilesOf(r.files);
    if Multipart.Encodable(boundary, fields, files) {
      Multipart.BodyFollowsRfc2046(boundary, fields, files);
    }
  }

  /** Setting `reply_markup` to the JSON text of the markup when one is given. */
  function WithMarkup(codec: Codec, params: map<string, Value>, markup: Value): map<string, Value> {
    if markup != Null then params["reply_markup" := Str(codec.dumps(markup))] else params
  }

  /** The params both edit calls start from. */
  function EditParams(to: Value, messageId: Value, text: Value): map<string, Value> {
    map["chat_id" := to, "message_id" := messageId, "text" := text]
  }

  /** The params of an edit once the markup is set and `extra` merged last:
      exactly the three edit keys, `reply_markup` when a markup is given and
      the keys of `extra`; `extra` wins every clash, and otherwise each key
      holds the value passed for it. */
  lemma EditParamsMerged(codec: Codec, to: Value, messageId: Value, text: Value, markup: Value, extra: map<string, Value>)
    ensures var p := WithMarkup(codec, EditParams(to, messageId, text), markup) + extra;
      && p.Keys == {"chat_id", "message_id", "text"} + (if markup != Null then {"reply_markup"} else {}) + extra.Keys
      && ("text" !in extra ==> p["text"] == text)
      && ("message_id" !in extra ==> p["message_id"] == messageId)
      && ("chat_id" !in extra ==> p["chat_id"] == to)
      && (markup != Null && "reply_markup" !in extra ==> p["reply_markup"] == Str(codec.dumps(markup)))
      && (forall k :: k in extra ==> p[k] == extra[k])
  {
    var e := EditParams(to, messageId, text);
    assert e.Keys == {"chat_id", "message_id", "text"};
    var w := WithMarkup(codec, e, markup);
    assert w.Keys == e.Keys + (if markup != Null then {"reply_markup"} else {});
    assert w["text"] == text && w["message_id"] == messageId && w["chat_id"] == to;
  }

  /* --------------------------------------------------------- asynctelebot */

  /** A media argument that is not None. */
  predicate Given(m: Multipart.Media) {
    m != Multipart.Raw(Null)
  }

  /** The keyword arguments of asynctelebot's `send_message`; `None` is
      `Null`, or `Raw(Null)` for a media argument, which takes any value. */
  datatype SendArgs = SendArgs(
    to: Value, text: Value,
    photo: Multipart.Media, video: Multipart.Media, audio: Multipart.Media,
    voice: Multipart.Media, document: Multipart.Media,
    markup: Value, latitude: Value, longitude: Value, replyToId: Value,
    extra: Option<map<string, Value>>)

  /** The method, the initial params and the files chosen by the `if/elif`
      chain of asynctelebot's `send_message`. */
  function Choose(a: SendArgs): (Endpoint, map<string, Value>, map<string, Multipart.Media>) {
    var base := map["chat_id" := a.to];
    if Given(a.photo) then (SendEntity(Photo), base, map["photo" := a.photo])
    else if Given(a.voice) then (SendEntity(Voice), base, map["voice" := a.voice])
    else if Given(a.audio) then (SendEntity(Audio), base, map["audio" := a.audio])
    else if Given(a.video) then (SendEntity(Video), base, map["video" := a.video])
    else if Given(a.document) then (SendEntity(Document), base, map["document" := a.document])
    else if a.latitude != Null then (SendEntity(Location), base["latitude" := a.latitude]["longitude" := a.longitude], map[])
    else (SendMessage, base["text" := a.text], map[])
  }

  /** `extra` merged last, its entries overriding. */
  function Merge(params: map<string, Value>, extra: Option<map<string, Value>>): (r: map<string, Value>)
    ensures r.Keys == params.Keys + (if extra.Some? then extra.value.Keys else {})
    ensures extra.Some? ==> forall k :: k in extra.value ==> r[k] == extra.value[k]
    ensures forall k :: k in params && (extra.None? || k !in extra.value) ==> r[k] == params[k]
  {
    if extra.Some? then params + extra.value else params
  }

  /** asynctelebot's `send_message`: the request it passes to `send_request`. */
  function TelebotSendMessage(codec: Codec, a: SendArgs): Request {
    var (endpoint, params, files) := Choose(a);
    var withMarkup := WithMarkup(codec, params, a.markup);
    var withReply := if a.replyToId != Null then withMarkup["reply_to_message_id" := a.replyToId] else withMarkup;
    Request(endpoint, Merge(withReply, a.extra), files)
  }

  /** asynctelebot's `edit_message`: no length check on the text. */
  function TelebotEditMessage(codec: Codec, to: Value, messageId: Value, text: Value,
                              markup: Value, extra: Option<map<string, Value>>): Request {
    Request(EditMessageText, Merge(WithMarkup(codec, EditParams(to, messageId, text), markup), extra), map[])
  }

  /** The method priority photo > voice > audio > video > document >
      location > text, stated case by case as the method each choice yields. */
  lemma TelebotMethodPriority(codec: Codec, a: SendArgs)
    ensures var e := TelebotSendMessage(codec, a).endpoint;
      && (e == SendEntity(Photo) <==> Given(a.photo))
      && (e == SendEntity(Voice) <==> !Given(a.photo) && Given(a.voice))
      && (e == SendEntity(Audio) <==> !Given(a.photo) && !Given(a.voice) && Given(a.audio))
      && (e == SendEntity(Video) <==> !Given(a.photo) && !Given(a.voice) && !Given(a.audio) && Given(a.video))
      && (e == SendEntity(Document) <==>
            !Given(a.photo) && !Given(a.voice) && !Given(a.audio) && !Given(a.video) && Given(a.document))
      && (e == SendEntity(Location) <==>
            !Given(a.photo) && !Given(a.voice) && !Given(a.audio) && !Given(a.video) && !Given(a.document) && a.latitude != Null)
      && (e == SendMessage <==>
            !Given(a.photo) && !Given(a.voice) && !Given(a.audio) && !Given(a.video) && !Given(a.document) && a.latitude == Null)
  {
  }

  /** The path of each entity method is `/send` and the class name. */
  lemma EntityPaths()
    ensures Path(SendEntity(Photo)) == "/sendPhoto" && Path(SendEntity(Voice)) == "/sendVoice"
    ensures Path(SendEntity(Audio)) == "/sendAudio" && Path(SendEntity(Video)) == "/sendVideo"
    ensures Path(SendEntity(Document)) == "/sendDocument" && Path(SendEntity(Location)) == "/sendLocation"
  {
  }

  /** asynctelebot sends multipart exactly when a photo, voice, audio, video
      or document is given, whatever its value, and then the only file is
      the chosen one. */
  lemma TelebotMultipartIffFile(codec: Codec, baseUrl: string, boundary: string, a: SendArgs)
    ensures var r := TelebotSendMessage(codec, a);
      && (SendRequest(codec, baseUrl, boundary, r).MultipartPost? <==>
            Given(a.photo) || Given(a.voice) || Given(a.audio) || Given(a.video) || Given(a.document))
      && |r.files| <= 1
      && (Given(a.photo) ==> r.files == map["photo" := a.photo])
  {
  }

  /** A photo that is not an uploaded file (a file id string, say) is still
      sent as multipart, and the body producer never completes: it raises
      before the closing delimiter. With an ASCII boundary and params, a
      string of fewer than three characters fails on `value[2]` with
      IndexError, and a longer ASCII one gets its header written and then
      fails on `f.read` with AttributeError. */
  lemma TelebotRawPhotoFails(codec: Codec, baseUrl: string, boundary: string, a: SendArgs)
    requires a.photo.Raw? && a.photo.v != Null
    ensures var h := SendRequest(codec, baseUrl, boundary, TelebotSendMessage(codec, a));
      && h.MultipartPost?
      && Emitted(codec, h).error.Some?
      && (var fields := Multipart.FieldsOf(codec.str, h.params);
          Multipart.IsAscii(boundary) && Multipart.AllAsciiFields(fields) && a.photo.v.Str? ==>
            && (|a.photo.v.s| < 3 ==> Emitted(codec, h).error == Some(IndexError))
            && (|a.photo.v.s| >= 3 && Multipart.IsAscii(a.photo.v.s[..3]) ==> Emitted(codec, h).error == Some(AttributeError)))
  {
    PhotoFiles(codec, a);
    RawFileRequest(codec, baseUrl, boundary, TelebotSendMessage(codec, a), "photo", a.photo.v);
  }

  /** A request whose only file is a value other than an upload. */
  lemma RawFileRequest(codec: Codec, baseUrl: string, boundary: string, r: Request, key: string, v: Value)
    requires r.files == map[key := Multipart.Raw(v)] && Multipart.IsAscii(key)
    ensures var h := SendRequest(codec, baseUrl, boundary, r);
      && h.MultipartPost?
      && Emitted(codec, h).error.Some?
      && (var fields := Multipart.FieldsOf(codec.str, h.params);
          Multipart.IsAscii(boundary) && Multipart.AllAsciiFields(fields) && v.Str? ==>
            && (|v.s| < 3 ==> Emitted(codec, h).error == Some(IndexError))
            && (|v.s| >= 3 && Multipart.IsAscii(v.s[..3]) ==> Emitted(codec, h).error == Some(AttributeError)))
  {
    var h := SendRequest(codec, baseUrl, boundary, r);
    EmittedRawFile(codec, h, key, v);
    var fields := Multipart.FieldsOf(codec.str, h.params);
    Multipart.RawFileStops(boundary, fields, key, v);
    if Multipart.IsAscii(boundary) && Multipart.AllAsciiFields(fields) && v.Str? {
      Multipart.RawStringStops(boundary, fields, key, v.s);
    }
  }

  /** The body of a multipart request whose only file is not an upload. */
  lemma EmittedRawFile(codec: Codec, h: HttpRequest, key: string, v: Value)
    requires h.MultipartPost? && h.files == map[key := Multipart.Raw(v)]
    ensures Emitted(codec, h) ==
      Multipart.ProduceParts(h.boundary, Multipart.FieldsOf(codec.str, h.params), [(key, Multipart.Raw(v))])
  {
    Multipart.FilesOfSingle(key, Multipart.Raw(v));
  }

  /** A given photo is the request's only file. */
  lemma PhotoFiles(codec: Codec, a: SendArgs)
    requires Given(a.photo)
    ensures TelebotSendMessage(codec, a).files == map["photo" := a.photo]
  {
  }


  /** `chat_id` is always sent, as `to`, unless `extra` replaces it; every
      `extra` entry is sent as given; `reply_markup` is the JSON text of the
      markup unless `extra` replaces it. */
  lemma TelebotParams(codec: Codec, a: SendArgs)
    ensures var p := TelebotSendMessage(codec, a).params;
      && "chat_id" in p
      && (a.extra.None? || "chat_id" !in a.extra.value ==> p["chat_id"] == a.to)
      && (a.extra.Some? ==> forall k :: k in a.extra.value ==> k in p && p[k] == a.extra.value[k])
      && (a.markup != Null && (a.extra.None? || "reply_markup" !in a.extra.value) ==>
            p["reply_markup"] == Str(codec.dumps(a.markup)))
  {
  }

  /** With nothing else given, the text is sent even when it is `None`. */
  lemma TelebotTextAlwaysSet(codec: Codec, a: SendArgs)
    requires !Given(a.photo) && !Given(a.voice) && !Given(a.audio) && !Given(a.video) && !Given(a.document) && a.latitude == Null
    requires a.extra.None? || "text" !in a.extra.value
    ensures "text" in TelebotSendMessage(codec, a).params
    ensures TelebotSendMessage(codec, a).params["text"] == a.text
  {
  }

  /** asynctelebot's `edit_message` accepts text of any length and always
      posts JSON to `editMessageText`. */
  lemma TelebotEditAnyLength(codec: Codec, baseUrl: string, boundary: string, to: Value, messageId: Value,
                             text: Value, markup: Value, extra: Option<map<string, Value>>)
    ensures var r := TelebotEditMessage(codec, to, messageId, text, markup, extra);
      && r.endpoint == EditMessageText
      && SendRequest(codec, baseUrl, boundary, r).JsonPost?
      && r.params.Keys == {"chat_id", "message_id", "text"} + (if markup != Null then {"reply_markup"} else {})
                          + (if extra.Some? then extra.value.Keys else {})
      && (extra.None? || "text" !in extra.value ==> r.params["text"] == text)
      && (extra.None? || "message_id" !in extra.value ==> r.params["message_id"] == messageId)
      && (extra.None? || "chat_id" !in extra.value ==> r.params["chat_id"] == to)
      && (markup != Null && (extra.None? || "reply_markup" !in extra.value) ==>
            r.params["reply_markup"] == Str(codec.dumps(markup)))
      && (extra.Some? ==> forall k :: k in extra.value ==> r.params[k] == extra.value[k])
  {
    TelebotEditMerged(codec, to, messageId, text, markup, extra);
    EditParamsMerged(codec, to, messageId, text, markup, if extra.Some? then extra.value else map[]);
  }

  /** asynctelebot's edit request with `extra` absent read as an empty dict. */
  lemma TelebotEditMerged(codec: Codec, to: Value, messageId: Value, text: Value,
                          markup: Value, extra: Option<map<string, Value>>)
    ensures var r := TelebotEditMessage(codec, to, messageId, text, markup, extra);
      && r.endpoint == EditMessageText && r.files == map[]
      && r.params == WithMarkup(codec, EditParams(to, messageId, text), markup) + (if extra.Some? then extra.value else map[])
  {
    var w := WithMarkup(codec, EditParams(to, messageId, text), markup);
    assert w + map[] == w;
  }

  /* ----------------------------------------------------- pytelegram_async */

  /** The `message` argument of pytelegram_async's `send_message`: a `str`
      or `unicode` text, an `Entity` instance, or any other value, which is
      never a string (a string is always a `TextMsg`). */
  datatype Payload = TextMsg(text: string) | EntityMsg(entity: Entity) | OtherMsg(value: NonText)

  /** A plain value that is not a `str` or `unicode`. */
  type NonText = v: Value | !v.Str? witness Null

  /** The payload a plain value is: a string is a text, anything else is
      neither a text nor an entity. */
  function PayloadOf(v: Value): (r: Payload)
    ensures r.TextMsg? <==> v.Str?
    ensures r.TextMsg? ==> Str(r.text) == v
    ensures r.OtherMsg? ==> r.value == v
    ensures !r.EntityMsg?
  {
    if v.Str? then TextMsg(v.s) else OtherMsg(v)
  }

  /** The entity fields that are not `File` instances. */
  function PlainFields(d: map<string, Field>): (r: map<string, Value>)
    ensures forall k :: k in r <==> k in d && d[k].Plain?
    ensures forall k :: k in r ==> r[k] == d[k].v
  {
    map k | k in d && d[k].Plain? :: d[k].v
  }

  /** The entity fields that are `File` instances, each uploaded as the
      triple `list(value)` gives. */
  function FileFields(d: map<string, Field>): (r: map<string, Multipart.Media>)
    ensures forall k :: k in r <==> k in d && d[k].Attachment?
    ensures forall k :: k in r ==> r[k] == Multipart.Upload(d[k].file)
  {
    map k | k in d && d[k].Attachment? :: Multipart.Upload(d[k].file)
  }

  /** Splitting an entity's fields loses nothing and duplicates nothing:
      every field goes to exactly one side, and each field can be rebuilt
      from the side it went to. */
  lemma FieldsPartition(d: map<string, Field>)
    ensures PlainFields(d).Keys !! FileFields(d).Keys
    ensures PlainFields(d).Keys + FileFields(d).Keys == d.Keys
    ensures forall k :: k in d ==>
      d[k] == (if k in PlainFields(d) then Plain(PlainFields(d)[k]) else Attachment(FileFields(d)[k].file))
  {
  }

  /** pytelegram_async's `send_message`: a `ValueError` for a text over
      4096 characters or a payload of the wrong type, otherwise the request
      passed to `send_request`. `**extra` is always a dict. */
  function PytelegramSendMessage(codec: Codec, to: Value, message: Payload,
                                 replyMarkup: Value, extra: map<string, Value>): (r: Outcome<Request>)
    ensures r.Raise? ==> r.exc == ValueError
    ensures r.Ok? <==> !message.OtherMsg? && (message.TextMsg? ==> |message.text| <= MaxText)
  {
    match message
    case OtherMsg(_) => Raise(ValueError)
    case TextMsg(s) =>
      if |s| > MaxText then Raise(ValueError)
      else
        var params := map["chat_id" := to, "text" := Str(s)];
        Ok(Request(SendMessage, WithMarkup(codec, params, replyMarkup) + extra, map[]))
    case EntityMsg(e) =>
      var d := ToDict(e);
      var params := map["chat_id" := to] + PlainFields(d);
      Ok(Request(SendEntity(e.kind), WithMarkup(codec, params, replyMarkup) + extra, FileFields(d)))
  }

  /** pytelegram_async's `edit_message_text`: the length guard comes before
      any request is built. It takes `len` of whatever `text` is, so a value
      with no length raises TypeError, and a list or dict of at most 4096
      items is sent as it is. */
  function PytelegramEditMessageText(codec: Codec, to: Value, messageId: Value, text: Value,
                                     replyMarkup: Value, extra: map<string, Value>): (r: Outcome<Request>)
    ensures r.Ok? <==> Len(text).Some? && Len(text).value <= MaxText
    ensures r.Raise? ==> (r.exc == TypeError <==> Len(text).None?)
    ensures r.Raise? ==> r.exc == TypeError || r.exc == ValueError
  {
    match Len(text)
    case None => Raise(TypeError)
    case Some(n) =>
      if n > MaxText then Raise(ValueError)
      else
        Ok(Request(EditMessageText, WithMarkup(codec, EditParams(to, messageId, text), replyMarkup) + extra, map[]))
  }

  /** A text is sent iff it has at most 4096 characters; it then goes to
      `sendMessage` as `text`, as JSON, unless `extra` replaces it. */
  lemma PytelegramTextLimit(codec: Codec, baseUrl: string, boundary: string, to: Value, s: string,
                            replyMarkup: Value, extra: map<string, Value>)
    ensures var r := PytelegramSendMessage(codec, to, TextMsg(s), replyMarkup, extra);
      && (r.Ok? <==> |s| <= MaxText)
      && (r.Ok? ==> r.value.endpoint == SendMessage && SendRequest(codec, baseUrl, boundary, r.value).JsonPost?)
      && (r.Ok? && "text" !in extra ==> r.value.params["text"] == Str(s))
      && (r.Ok? && "chat_id" !in extra ==> r.value.params["chat_id"] == to)
  {
    var r := PytelegramSendMessage(codec, to, TextMsg(s), replyMarkup, extra);
    if |s| <= MaxText {
      var params := map["chat_id" := to, "text" := Str(s)];
      var w := WithMarkup(codec, params, replyMarkup);
      assert r.value == Request(SendMessage, w + extra, map[]);
      assert |r.value.files| == 0;
      assert "text" in w && w["text"] == Str(s);
      assert "chat_id" in w && w["chat_id"] == to;
    }
  }

  /** A payload that is neither text nor an entity is refused. */
  lemma PytelegramRejectsOther(codec: Codec, to: Value, v: NonText, replyMarkup: Value, extra: map<string, Value>)
    ensures PytelegramSendMessage(codec, to, OtherMsg(v), replyMarkup, extra) == Raise(ValueError)
  {
  }

  /** Of the plain values, exactly the strings of at most 4096 characters
      are sent, as the request's `text`; every other value, a longer string
      included, is refused with ValueError. */
  lemma PytelegramPlainValue(codec: Codec, to: Value, v: Value, replyMarkup: Value, extra: map<string, Value>)
    ensures var r := PytelegramSendMessage(codec, to, PayloadOf(v), replyMarkup, extra);
      && (r.Ok? <==> v.Str? && |v.s| <= MaxText)
      && (r.Raise? ==> r.exc == ValueError)
      && (r.Ok? && "text" !in extra ==> r.value.params["text"] == v)
  {
    if v.Str? {
      PytelegramTextLimit(codec, [], [], to, v.s, replyMarkup, extra);
    }
  }

  /** For an entity, the method is `send` + its class name, and its
      `to_dict` entries are partitioned: `File` values go to the files, every
      other value to the params, none to both; nothing else is a file. */
  lemma PytelegramEntityPartition(codec: Codec, to: Value, e: Entity, replyMarkup: Value, extra: map<string, Value>)
    ensures var r := PytelegramSendMessage(codec, to, EntityMsg(e), replyMarkup, extra);
      && r.Ok?
      && r.value.endpoint == SendEntity(e.kind)
      && (forall k :: k in r.value.files <==> k in ToDict(e) && ToDict(e)[k].Attachment?)
      && (forall k :: k in ToDict(e) && ToDict(e)[k].Plain? ==> k in r.value.params)
      && (forall k :: k in ToDict(e) && ToDict(e)[k].Plain? && k !in extra ==> r.value.params[k] == ToDict(e)[k].v)
      && (forall k :: k in r.value.files && k !in extra ==> k !in r.value.params)
      && ("chat_id" !in extra ==> r.value.params["chat_id"] == to)
  {
    NoReservedSlot(e.kind);
    ToDictKeys(e);
    var d := ToDict(e);
    assert "chat_id" !in d && "reply_markup" !in d;
    var params := map["chat_id" := to] + PlainFields(d);
    var w := WithMarkup(codec, params, replyMarkup);
    assert PytelegramSendMessage(codec, to, EntityMsg(e), replyMarkup, extra)
        == Ok(Request(SendEntity(e.kind), w + extra, FileFields(d)));
    assert forall k :: k in d && d[k].Plain? ==> k in w && w[k] == d[k].v;
    assert forall k :: k in FileFields(d) ==> k !in w;
    assert w["chat_id"] == to;
  }

  /** `reply_markup` becomes one string param, the JSON text of the markup,
      unless `extra` replaces it; without a markup it is only sent when
      `extra` holds one. */
  lemma PytelegramMarkup(codec: Codec, to: Value, message: Payload, replyMarkup: Value, extra: map<string, Value>)
    ensures var r := PytelegramSendMessage(codec, to, message, replyMarkup, extra);
      && (r.Ok? && replyMarkup != Null && "reply_markup" !in extra ==>
            r.value.params["reply_markup"] == Str(codec.dumps(replyMarkup)))
      && (r.Ok? && replyMarkup == Null ==> ("reply_markup" in r.value.params <==> "reply_markup" in extra))
  {
    if message.EntityMsg? {
      NoReservedSlot(message.entity.kind);
      ToDictKeys(message.entity);
    }
  }

  /** The edit guard: a string text is refused iff it is over 4096
      characters, a text without a length always raises TypeError, and a
      list or dict passes when it has at most 4096 items; what passes is
      posted as JSON to `editMessageText` with the text as given. */
  lemma PytelegramEditLimit(codec: Codec, baseUrl: string, boundary: string, to: Value, messageId: Value,
                            text: Value, replyMarkup: Value, extra: map<string, Value>)
    ensures var r := PytelegramEditMessageText(codec, to, messageId, text, replyMarkup, extra);
      && (text.Str? ==> (r.Raise? <==> |text.s| > MaxText))
      && (text.Null? || text.Bool? || text.Int? ==> r == Raise(TypeError))
      && (text.List? ==> (r.Ok? <==> |text.items| <= MaxText))
      && (text.Obj? ==> (r.Ok? <==> |text.fields| <= MaxText))
      && (r.Ok? ==> r.value.endpoint == EditMessageText && SendRequest(codec, baseUrl, boundary, r.value).JsonPost?)
      && (r.Ok? && "text" !in extra ==> r.value.params["text"] == text)
      && (r.Ok? ==>
            r.value.params.Keys == {"chat_id", "message_id", "text"} + (if replyMarkup != Null then {"reply_markup"} else {}) + extra.Keys)
      && (r.Ok? && "message_id" !in extra ==> r.value.params["message_id"] == messageId)
      && (r.Ok? && "chat_id" !in extra ==> r.value.params["chat_id"] == to)
      && (r.Ok? && replyMarkup != Null && "reply_markup" !in extra ==>
            r.value.params["reply_markup"] == Str(codec.dumps(replyMarkup)))
      && (r.Ok? ==> forall k :: k in extra ==> r.value.params[k] == extra[k])
  {
    if PytelegramEditMessageText(codec, to, messageId, text, replyMarkup, extra).Ok? {
      EditRequestShape(codec, baseUrl, boundary, to, messageId, text, replyMarkup, extra);
    }
  }

  /** The request an accepted edit builds. */
  lemma EditRequestShape(codec: Codec, baseUrl: string, boundary: string, to: Value, messageId: Value,
                         text: Value, replyMarkup: Value, extra: map<string, Value>)
    requires PytelegramEditMessageText(codec, to, messageId, text, replyMarkup, extra).Ok?
    ensures var q := PytelegramEditMessageText(codec, to, messageId, text, replyMarkup, extra).value;
      && q.endpoint == EditMessageText
      && SendRequest(codec, baseUrl, boundary, q).JsonPost?
      && ("text" !in extra ==> q.params["text"] == text)
      && q.params.Keys == {"chat_id", "message_id", "text"} + (if replyMarkup != Null then {"reply_markup"} else {}) + extra.Keys
      && ("message_id" !in extra ==> q.params["message_id"] == messageId)
      && ("chat_id" !in extra ==> q.params["chat_id"] == to)
      && (replyMarkup != Null && "reply_markup" !in extra ==> q.params["reply_markup"] == Str(codec.dumps(replyMarkup)))
      && (forall k :: k in extra ==> q.params[k] == extra[k])
  {
    var q := PytelegramEditMessageText(codec, to, messageId, text, replyMarkup, extra).value;
    assert q == Request(EditMessageText, WithMarkup(codec, EditParams(to, messageId, text), replyMarkup) + extra, map[]);
    assert |q.files| == 0;
    EditParamsMerged(codec, to, messageId, text, replyMarkup, extra);
  }

  /** `__files__` is never read: a `Document` whose `document` field is a
      plain file id is sent as a param, as JSON. */
  lemma DeclaredFilesIgnored(codec: Codec, baseUrl: string, boundary: string, to: Value, fileId: string)
    ensures var e := Construct(Document, map["document" := Plain(Str(fileId))]);
      var r := PytelegramSendMessage(codec, to, EntityMsg(e), Null, map[]);
      && "document" in DeclaredFiles(Document)
      && r.Ok?
      && r.value.files == map[]
      && "document" in r.value.params && r.value.params["document"] == Str(fileId)
      && SendRequest(codec, baseUrl, boundary, r.value).JsonPost?
  {
    var kwargs := map["document" := Plain(Str(fileId))];
    RoundTrip(Document, kwargs);
    assert ToDict(Construct(Document, kwargs)) == kwargs;
    assert FileFields(kwargs) == map[];
  }
}

/** The update pump and the poll loop (`process_updates`, `_on_updates_ready`,
    `loop_start`, `request_loop` of both libraries). Network I/O becomes the
    `Response` input of one step; scheduling becomes the `Schedule` output. */
module Updates {
  import opened Values
  import opened Handlers
  import Dispatch
  import Names

  /** The bot as the pump sees it: which library, and its bound
      `exec_command` method. */
  datatype Bot = Bot(lib: Library, exec: Message -> Outcome<bool>)

  /** The bot whose `exec_command` tries these handler owners (in
      `add_handler` order). */
  function BotFor(lib: Library, owners: seq<Owner>): Bot {
    Bot(lib, m => Dispatch.ExecCommand(lib, owners, m))
  }

  /** What the pump does, in order: acknowledge a callback query (a
      fire-and-forget `answerCallbackQuery` request), or hand a message to
      `exec_command` and get its outcome back. */
  datatype Event = Acked(callbackId: Value) | Dispatched(message: Message, outcome: Outcome<bool>)

  /** The cursor and poll tuning of `self.params`. */
  datatype Cursor = Cursor(offset: int, timeout: int, limit: int)

  /** `self.params` as the bot constructor sets it. */
  const InitialCursor := Cursor(0, 60, 5)

  /** The state `process_updates` leaves behind: the cursor offset, the
      events so far, and the exception that stopped it, if any. */
  datatype Pumped = Pumped(offset: int, events: seq<Event>, error: Option<Exc>)

  /** The message a callback query is turned into: its `message` dict with
      `from` and `text` replaced by the callback's sender and data, and (in
      pytelegram_async only) `is_callback` set to True. The right-hand side
      `callback['from']` is read before the item assignment into `message`,
      so a missing key wins over a non-dict message. */
  function NormalizeCallback(lib: Library, cb: map<string, Value>): (r: Outcome<Message>)
    ensures r.Ok? <==> "message" in cb && "from" in cb && cb["message"].Obj? && "data" in cb
    ensures r.Raise? ==> r.exc == KeyError || r.exc == TypeError
    ensures r.Ok? ==> "from" in r.value && r.value["from"] == cb["from"]
    ensures r.Ok? ==> "text" in r.value && r.value["text"] == cb["data"]
    ensures r.Ok? && lib == PytelegramAsync ==> "is_callback" in r.value && r.value["is_callback"] == Bool(true)
    ensures r.Ok? ==> forall k :: k in cb["message"].fields && k != "from" && k != "text" ==>
      k in r.value && (lib == AsyncTelebot || k != "is_callback" ==> r.value[k] == cb["message"].fields[k])
    ensures r.Ok? ==> forall k :: k in r.value ==>
      k in cb["message"].fields || k == "from" || k == "text" || (lib == PytelegramAsync && k == "is_callback")
  {
    if "message" !in cb then Raise(KeyError)
    else if "from" !in cb then Raise(KeyError)
    else if !cb["message"].Obj? then Raise(TypeError)
    else if "data" !in cb then Raise(KeyError)
    else
      var m := cb["message"].fields["from" := cb["from"]]["text" := cb["data"]];
      Ok(if lib == PytelegramAsync then m["is_callback" := Bool(true)] else m)
  }

  /** The update dict after the callback step: a callback query is
      acknowledged and its normalized message stored under `message`. */
  function Prepare(lib: Library, u: map<string, Value>): (r: (seq<Event>, Outcome<map<string, Value>>))
  {
    if "callback_query" !in u then ([], Ok(u))
    else
      var cb := u["callback_query"];
      if !cb.Obj? then ([], Raise(TypeError))
      else if "id" !in cb.fields then ([], Raise(KeyError))
      else
        var ack := [Acked(cb.fields["id"])];
        match NormalizeCallback(lib, cb.fields)
        case Raise(e) => (ack, Raise(e))
        case Ok(m) => (ack, Ok(u["message" := Obj(m)]))
  }

  /** The dispatch step for a prepared update: a `message` that has a
      `from` goes to `exec_command`, whose exceptions are swallowed. The log
      line before the call reads `from.get('id')`, which raises
      AttributeError when `from` is not a dict. For a `message` that is not
      a dict, `'from' in message` tests a list's elements or a string's
      substrings (and raises TypeError for any other type); when it holds,
      `message['from']` raises TypeError. */
  function Deliver(bot: Bot, u: map<string, Value>): (r: Outcome<seq<Event>>)
  {
    if "message" !in u then Ok([])
    else
      match u["message"]
      case Obj(m) =>
        if "from" !in m then Ok([])
        else if !m["from"].Obj? then Raise(AttributeError)
        else Ok([Dispatched(m, bot.exec(m))])
      case List(items) => if Str("from") in items then Raise(TypeError) else Ok([])
      case Str(s) => if Infix("from", s) then Raise(TypeError) else Ok([])
      case _ => Raise(TypeError)
  }

  /** One iteration of the `process_updates` loop: callback step, dispatch
      step, then `offset = update['update_id'] + 1`. */
  function PumpOne(bot: Bot, offset: int, update: Value): Pumped {
    if !update.Obj? then Pumped(offset, [], Some(TypeError))
    else
      var (acks, prepared) := Prepare(bot.lib, update.fields);
      match prepared
      case Raise(e) => Pumped(offset, acks, Some(e))
      case Ok(u) =>
        match Deliver(bot, u)
        case Raise(e) => Pumped(offset, acks, Some(e))
        case Ok(sent) => Advance(offset, acks + sent, u)
  }

  /** The last statement of an iteration, `offset = update['update_id'] + 1`,
      after the events `evs` have happened. */
  function Advance(offset: int, evs: seq<Event>, u: map<string, Value>): Pumped {
    if "update_id" !in u then Pumped(offset, evs, Some(KeyError))
    else if AsInt(u["update_id"]).None? then Pumped(offset, evs, Some(TypeError))
    else Pumped(AsInt(u["update_id"]).value + 1, evs, None)
  }

  /** `process_updates(updates)`: every update in order; an exception that
      escapes one update ends the loop with the offset already reached. */
  function ProcessUpdates(bot: Bot, offset: int, updates: seq<Value>): Pumped
    decreases |updates|
  {
    if updates == [] then Pumped(offset, [], None)
    else
      var first := PumpOne(bot, offset, updates[0]);
      if first.error.Some? then first
      else
        var rest := ProcessUpdates(bot, first.offset, updates[1..]);
        Pumped(rest.offset, first.events + rest.events, rest.error)
  }

  /** A dict update with an integer `update_id`. */
  predicate HasId(update: Value) {
    update.Obj? && "update_id" in update.fields && update.fields["update_id"].Int?
  }

  function IdOf(update: Value): int
    requires HasId(update)
  {
    update.fields["update_id"].i
  }

  /** The messages handed to `exec_command`, in order. */
  function Dispatches(evs: seq<Event>): (ms: seq<Message>)
    ensures |ms| <= |evs|
  {
    if evs == [] then []
    else (if evs[0].Dispatched? then [evs[0].message] else []) + Dispatches(evs[1..])
  }

  lemma {:induction false} DispatchesAppend(a: seq<Event>, b: seq<Event>)
    ensures Dispatches(a + b) == Dispatches(a) + Dispatches(b)
  {
    if a == [] {
      assert a + b == b;
    } else {
      assert (a + b)[0] == a[0];
      assert (a + b)[1..] == a[1..] + b;
      DispatchesAppend(a[1..], b);
      var h := if a[0].Dispatched? then [a[0].message] else [];
      assert Dispatches(a + b) == h + Dispatches(a[1..] + b);
      assert Dispatches(a) == h + Dispatches(a[1..]);
    }
  }

  /** An update the pump gets through without raising: a dict with an
      integer `update_id`, a well-formed callback query if any, and a dict
      `message` whose `from`, if present, is a dict. */
  predicate WellFormed(lib: Library, update: Value) {
    && HasId(update)
    && ("callback_query" in update.fields ==> WellFormedCallback(update.fields["callback_query"]))
    && ("message" in update.fields ==>
          && update.fields["message"].Obj?
          && var m := update.fields["message"].fields;
          "from" in m ==> m["from"].Obj?)
  }

  /** A callback query the pump can normalize: a dict with `id`,
      `message` (a dict), `from` (a dict) and `data`. */
  predicate WellFormedCallback(cb: Value) {
    && cb.Obj?
    && "id" in cb.fields && "message" in cb.fields && "from" in cb.fields && "data" in cb.fields
    && cb.fields["message"].Obj? && cb.fields["from"].Obj?
  }

  /** The message a well-formed update yields, and whether it is dispatched. */
  function MessageOf(lib: Library, u: map<string, Value>): Option<Message>
  {
    if "callback_query" in u && u["callback_query"].Obj? then
      match NormalizeCallback(lib, u["callback_query"].fields)
      case Ok(m) => Some(m)
      case Raise(_) => None
    else if "message" in u && u["message"].Obj? then Some(u["message"].fields)
    else None
  }

  /** A well-formed update passes the callback step: no exception, only
      acknowledgements, the same `update_id`, and a `message` entry that
      is exactly the update's (normalized) message. */
  lemma PrepareWellFormed(lib: Library, update: Value)
    requires WellFormed(lib, update)
    ensures var (acks, prepared) := Prepare(lib, update.fields);
      && Dispatches(acks) == []
      && prepared.Ok?
      && "update_id" in prepared.value && prepared.value["update_id"] == update.fields["update_id"]
      && ("message" in prepared.value ==>
            prepared.value["message"].Obj? && MessageOf(lib, update.fields) == Some(prepared.value["message"].fields))
      && ("message" !in prepared.value ==> MessageOf(lib, update.fields) == None)
  {
    var u := update.fields;
    if "callback_query" in u {
      var cb := u["callback_query"].fields;
      var acks := [Acked(cb["id"])];
      assert NormalizeCallback(lib, cb).Ok?;
      assert Prepare(lib, u) == (acks, Ok(u["message" := Obj(NormalizeCallback(lib, cb).value)]));
      assert acks[1..] == [];
    }
  }

  /** The dispatch step on a prepared update whose `from`, if any, is a dict. */
  lemma DeliverSends(bot: Bot, v: map<string, Value>)
    requires "message" in v ==> v["message"].Obj? && ("from" in v["message"].fields ==> v["message"].fields["from"].Obj?)
    ensures Deliver(bot, v).Ok?
    ensures Dispatches(Deliver(bot, v).value) ==
      if "message" in v && "from" in v["message"].fields then [v["message"].fields] else []
  {
    var sent := Deliver(bot, v).value;
    assert sent != [] ==> sent[1..] == [];
  }

  /** A `message` that is not a dict is never dispatched: the membership
      test either fails quietly or ends in TypeError, which escapes the
      pump. */
  lemma DeliverNonDict(bot: Bot, u: map<string, Value>)
    requires "message" in u && !u["message"].Obj?
    ensures Deliver(bot, u) == Ok([]) || Deliver(bot, u) == Raise(TypeError)
    ensures u["message"].List? ==> (Deliver(bot, u).Raise? <==> Str("from") in u["message"].items)
    ensures u["message"].Str? ==> (Deliver(bot, u).Raise? <==> Infix("from", u["message"].s))
    ensures u["message"].Null? || u["message"].Int? || u["message"].Bool? ==> Deliver(bot, u) == Raise(TypeError)
  {
  }

  /** On the bot built from handler owners, the message goes to
      `exec_command` and its outcome is the first-truthy scan's. */
  lemma DeliverRunsExecCommand(lib: Library, owners: seq<Owner>, u: map<string, Value>)
    requires "message" in u && u["message"].Obj?
    requires "from" in u["message"].fields && u["message"].fields["from"].Obj?
    ensures var m := u["message"].fields;
      Deliver(BotFor(lib, owners), u) == Ok([Dispatched(m, Dispatch.ExecCommand(lib, owners, m))])
  {
  }

  /** A well-formed update moves the offset to `update_id + 1` and hands
      its message to `exec_command` exactly when the message has a `from`. */
  lemma PumpOneWellFormed(bot: Bot, offset: int, update: Value)
    requires WellFormed(bot.lib, update)
    ensures PumpOne(bot, offset, update).error == None
    ensures PumpOne(bot, offset, update).offset == IdOf(update) + 1
    ensures Dispatches(PumpOne(bot, offset, update).events) == Sent(bot.lib, update)
  {
    var u := update.fields;
    var (acks, prepared) := Prepare(bot.lib, u);
    PrepareWellFormed(bot.lib, update);
    var v := prepared.value;
    assert "message" in v ==> v["message"].Obj? && ("from" in v["message"].fields ==> v["message"].fields["from"].Obj?) by {
      if "message" in v && "callback_query" !in u {
        assert v == u;
      }
    }
    DeliverSends(bot, v);
    var sent := Deliver(bot, v).value;
    assert PumpOne(bot, offset, update).events == acks + sent;
    DispatchesAppend(acks, sent);
  }

  /** The messages a well-formed update sends to `exec_command`: its
      (normalized) message, when that has a `from`. */
  function Sent(lib: Library, update: Value): seq<Message>
    requires WellFormed(lib, update)
  {
    match MessageOf(lib, update.fields)
    case Some(m) => if "from" in m then [m] else []
    case None => []
  }

  /** Every dispatched event's message carries `from`. */
  predicate SendersPresent(evs: seq<Event>) {
    forall k :: 0 <= k < |evs| ==> evs[k].Dispatched? ==> "from" in evs[k].message
  }

  lemma SendersAppend(a: seq<Event>, b: seq<Event>)
    requires SendersPresent(a) && SendersPresent(b)
    ensures SendersPresent(a + b)
  {
    forall k | 0 <= k < |a + b| && (a + b)[k].Dispatched?
      ensures "from" in (a + b)[k].message
    {
      if k < |a| { assert (a + b)[k] == a[k]; } else { assert (a + b)[k] == b[k - |a|]; }
    }
  }

  /** One update dispatches only messages with a `from`. */
  lemma PumpOneSenders(bot: Bot, offset: int, update: Value)
    ensures SendersPresent(PumpOne(bot, offset, update).events)
  {
    if update.Obj? {
      var (acks, prepared) := Prepare(bot.lib, update.fields);
      PrepareOnlyAcks(bot.lib, update.fields);
      if prepared.Ok? {
        var u := prepared.value;
        var d := Deliver(bot, u);
        DeliverSenders(bot, u);
        if d.Ok? {
          SendersAppend(acks, d.value);
          assert PumpOne(bot, offset, update) == Advance(offset, acks + d.value, u);
        }
      }
    }
  }

  lemma PrepareOnlyAcks(lib: Library, u: map<string, Value>)
    ensures SendersPresent(Prepare(lib, u).0)
  {
  }

  lemma DeliverSenders(bot: Bot, u: map<string, Value>)
    ensures Deliver(bot, u).Ok? ==> SendersPresent(Deliver(bot, u).value)
  {
  }

  /** Only messages that carry `from` reach `exec_command`. */
  lemma {:induction false} DispatchedHaveSender(bot: Bot, offset: int, updates: seq<Value>)
    ensures SendersPresent(ProcessUpdates(bot, offset, updates).events)
    decreases |updates|
  {
    if updates != [] {
      var first := PumpOne(bot, offset, updates[0]);
      PumpOneSenders(bot, offset, updates[0]);
      if first.error.None? {
        var rest := ProcessUpdates(bot, first.offset, updates[1..]);
        DispatchedHaveSender(bot, first.offset, updates[1..]);
        SendersAppend(first.events, rest.events);
        assert ProcessUpdates(bot, offset, updates).events == first.events + rest.events;
      }
    }
  }

  /** After a batch processed without error the offset is the last
      update's `update_id + 1`; an empty batch leaves it unchanged. */
  lemma {:induction false} OffsetAfterBatch(bot: Bot, offset: int, updates: seq<Value>)
    requires forall k :: 0 <= k < |updates| ==> WellFormed(bot.lib, updates[k])
    ensures ProcessUpdates(bot, offset, updates).error == None
    ensures updates == [] ==> ProcessUpdates(bot, offset, updates).offset == offset
    ensures updates != [] ==>
      HasId(updates[|updates| - 1]) && ProcessUpdates(bot, offset, updates).offset == IdOf(updates[|updates| - 1]) + 1
    decreases |updates|
  {
    if updates != [] {
      PumpOneWellFormed(bot, offset, updates[0]);
      OffsetAfterBatch(bot, PumpOne(bot, offset, updates[0]).offset, updates[1..]);
    }
  }


  /** The identifiers of a batch of well-formed updates. */
  function Ids(lib: Library, updates: seq<Value>): (ids: seq<int>)
    requires forall k :: 0 <= k < |updates| ==> WellFormed(lib, updates[k])
    ensures |ids| == |updates|
    ensures forall k :: 0 <= k < |updates| ==> HasId(updates[k]) && ids[k] == IdOf(updates[k])
  {
    AllHaveIds(lib, updates);
    seq(|updates|, k requires 0 <= k < |updates| => IdOf(updates[k]))
  }

  lemma AllHaveIds(lib: Library, updates: seq<Value>)
    requires forall k :: 0 <= k < |updates| ==> WellFormed(lib, updates[k])
    ensures forall k :: 0 <= k < |updates| ==> HasId(updates[k])
  {
    forall k | 0 <= k < |updates|
      ensures HasId(updates[k])
    {
      assert WellFormed(lib, updates[k]);
    }
  }

  predicate Increasing(ids: seq<int>) {
    forall i, j :: 0 <= i < j < |ids| ==> ids[i] < ids[j]
  }

  /** With increasing identifiers the offset after a batch is one past the
      highest identifier seen, as the long-poll protocol expects. */
  lemma OffsetPastHighest(bot: Bot, offset: int, updates: seq<Value>)
    requires updates != []
    requires forall k :: 0 <= k < |updates| ==> WellFormed(bot.lib, updates[k])
    requires Increasing(Ids(bot.lib, updates))
    ensures forall k :: 0 <= k < |updates| ==>
      HasId(updates[k]) && IdOf(updates[k]) < ProcessUpdates(bot, offset, updates).offset
    ensures exists k ::
      0 <= k < |updates| && HasId(updates[k]) && ProcessUpdates(bot, offset, updates).offset == IdOf(updates[k]) + 1
  {
    OffsetAfterBatch(bot, offset, updates);
    var ids := Ids(bot.lib, updates);
    var last := |updates| - 1;
    var next := ProcessUpdates(bot, offset, updates).offset;
    assert next == ids[last] + 1;
    LastIsHighest(ids);
    forall k | 0 <= k < |updates|
      ensures HasId(updates[k]) && IdOf(updates[k]) < next
    {
      assert ids[k] == IdOf(updates[k]);
    }
    assert HasId(updates[last]) && next == IdOf(updates[last]) + 1;
  }

  lemma LastIsHighest(ids: seq<int>)
    requires ids != [] && Increasing(ids)
    ensures forall k :: 0 <= k < |ids| ==> ids[k] <= ids[|ids| - 1]
  {
    forall k | 0 <= k < |ids|
      ensures ids[k] <= ids[|ids| - 1]
    {
      if k < |ids| - 1 {
        assert ids[k] < ids[|ids| - 1];
      }
    }
  }

  /** How the handlers answer does not move the cursor: an exception inside
      `exec_command` does not stop the advance. Two bots of the same library
      reach the same offset and error, whatever their handlers do. */
  lemma {:induction false} OffsetIgnoresHandlers(b1: Bot, b2: Bot, offset: int, updates: seq<Value>)
    requires b1.lib == b2.lib
    ensures ProcessUpdates(b1, offset, updates).offset == ProcessUpdates(b2, offset, updates).offset
    ensures ProcessUpdates(b1, offset, updates).error == ProcessUpdates(b2, offset, updates).error
    decreases |updates|
  {
    if updates != [] {
      var p1 := PumpOne(b1, offset, updates[0]);
      var p2 := PumpOne(b2, offset, updates[0]);
      PumpOneIgnoresHandlers(b1, b2, offset, updates[0]);
      if p1.error.None? {
        OffsetIgnoresHandlers(b1, b2, p1.offset, updates[1..]);
        var r1 := ProcessUpdates(b1, p1.offset, updates[1..]);
        var r2 := ProcessUpdates(b2, p1.offset, updates[1..]);
        assert ProcessUpdates(b1, offset, updates).offset == r1.offset;
        assert ProcessUpdates(b2, offset, updates).offset == r2.offset;
      }
    }
  }

  /** One update: the offset and error do not depend on the handlers. */
  lemma PumpOneIgnoresHandlers(b1: Bot, b2: Bot, offset: int, update: Value)
    requires b1.lib == b2.lib
    ensures PumpOne(b1, offset, update).offset == PumpOne(b2, offset, update).offset
    ensures PumpOne(b1, offset, update).error == PumpOne(b2, offset, update).error
  {
    if update.Obj? {
      var (acks, prepared) := Prepare(b1.lib, update.fields);
      if prepared.Ok? {
        var u := prepared.value;
        DeliverIgnoresHandlers(b1, b2, u);
        var d1, d2 := Deliver(b1, u), Deliver(b2, u);
        if d1.Ok? {
          assert PumpOne(b1, offset, update) == Advance(offset, acks + d1.value, u);
          assert PumpOne(b2, offset, update) == Advance(offset, acks + d2.value, u);
        }
      }
    }
  }

  lemma DeliverIgnoresHandlers(b1: Bot, b2: Bot, u: map<string, Value>)
    requires b1.lib == b2.lib
    ensures Deliver(b1, u).Ok? == Deliver(b2, u).Ok?
    ensures Deliver(b1, u).Raise? ==> Deliver(b1, u).exc == Deliver(b2, u).exc
  {
  }

  /** The decoded body of a `getUpdates` response, or the failure before it. */
  datatype Response =
    | TransportFailure(exc: Exc)  // `response.rethrow()` raises: HTTPError, or a raw transport error
    | Undecodable                 // `json.loads` raises ValueError
    | Decoded(result: Value)

  /** When the next `request_loop` runs: at once, after a timeout, or never
      (an exception escaped the callback and nothing rescheduled the loop). */
  datatype Schedule = Immediate | After(seconds: int) | Halted

  /** `loop_start(delay)`: any positive delay waits 15 seconds, whatever its
      value; otherwise the next poll is queued at once. */
  function LoopStart(delay: int): (s: Schedule)
    ensures delay > 0 ==> s == After(15)
    ensures delay <= 0 ==> s == Immediate
  {
    if delay > 0 then After(15) else Immediate
  }

  /** The long-poll request `request_loop` sends: `getUpdates` with the
      cursor as JSON body and a client timeout 5 seconds past the server-side
      wait. */
  datatype PollRequest = PollRequest(apiMethod: string, body: map<string, Value>, requestTimeout: int)

  function RequestLoop(c: Cursor): (r: PollRequest)
    ensures r.requestTimeout == c.timeout + 5 && r.requestTimeout > c.timeout
    ensures r.body.Keys == {"offset", "timeout", "limit"}
    ensures r.body["offset"] == Int(c.offset)
  {
    PollRequest("getUpdates", map["timeout" := Int(c.timeout), "offset" := Int(c.offset), "limit" := Int(c.limit)], c.timeout + 5)
  }

  /** The result of one `_on_updates_ready` callback. */
  datatype Step = Step(cursor: Cursor, events: seq<Event>, next: Schedule)

  /** The exception classes pytelegram_async's callback catches. */
  predicate CaughtByPytelegram(e: Exc) {
    e == HttpError || e == ValueError
  }

  /** What happens to an exception raised inside the callback's `try`:
      asynctelebot catches every exception and retries after the timeout;
      pytelegram_async catches only HTTPError and ValueError, and any other
      exception escapes, so nothing schedules the next poll. */
  function OnError(lib: Library, e: Exc): Schedule {
    if lib == AsyncTelebot || CaughtByPytelegram(e) then LoopStart(10) else Halted
  }

  /** `for update in updates`: a list yields its items, a string its
      one-character strings and a dict its keys (every one of which the pump
      rejects, so their order does not matter; the model takes them sorted);
      a value with no items raises TypeError at the loop header. */
  function Iterate(v: Value): (r: Outcome<seq<Value>>)
    ensures r.Raise? <==> Len(v).None?
    ensures r.Raise? ==> r.exc == TypeError
    ensures r.Ok? ==> Len(v) == Some(|r.value|)
    ensures v.List? ==> r == Ok(v.items)
    ensures !v.List? && r.Ok? ==> forall i :: 0 <= i < |r.value| ==> r.value[i].Str?
  {
    match v
    case List(xs) => Ok(xs)
    case Str(s) => Ok(seq(|s|, i requires 0 <= i < |s| => Str([s[i]])))
    case Obj(m) =>
      var ks := Names.Sorted(m.Keys);
      assert |ks| == |m|;
      Ok(seq(|ks|, i requires 0 <= i < |ks| => Str(ks[i])))
    case _ => Raise(TypeError)
  }

  /** `_on_updates_ready(response)`. */
  function OnUpdatesReady(bot: Bot, c: Cursor, resp: Response): (s: Step) {
    match resp
    case TransportFailure(e) => Step(c, [], OnError(bot.lib, e))
    case Undecodable => Step(c, [], OnError(bot.lib, ValueError))
    case Decoded(result) =>
      if !result.Obj? then Step(c, [], OnError(bot.lib, TypeError))
      else if "ok" !in result.fields then Step(c, [], OnError(bot.lib, KeyError))
      else if !Truthy(result.fields["ok"]) then Step(c, [], LoopStart(0))
      else if "result" !in result.fields then Step(c, [], OnError(bot.lib, KeyError))
      else
        var p := match Iterate(result.fields["result"])
          case Raise(e) => Pumped(c.offset, [], Some(e))
          case Ok(updates) => ProcessUpdates(bot, c.offset, updates);
        var c' := c.(offset := p.offset);
        match p.error
        case None => Step(c', p.events, LoopStart(0))
        // asynctelebot wraps process_updates in its own try and carries on
        case Some(e) => Step(c', p.events, if bot.lib == AsyncTelebot then LoopStart(0) else OnError(bot.lib, e))
  }

  /** A failed fetch or an undecodable body leaves the cursor alone and
      dispatches nothing. asynctelebot always retries after 15 seconds;
      pytelegram_async does so after HTTPError or ValueError, and any other
      transport exception escapes its callback and stops the loop. */
  lemma FailureBacksOff(bot: Bot, c: Cursor, resp: Response)
    requires resp.TransportFailure? || resp.Undecodable?
    ensures OnUpdatesReady(bot, c, resp).cursor == c
    ensures OnUpdatesReady(bot, c, resp).events == []
    ensures bot.lib == AsyncTelebot || resp.Undecodable? || resp == TransportFailure(HttpError) ==>
      OnUpdatesReady(bot, c, resp).next == After(15)
    ensures bot.lib == PytelegramAsync && resp.TransportFailure? && !CaughtByPytelegram(resp.exc) ==>
      OnUpdatesReady(bot, c, resp).next == Halted
  {
  }

  /** Both an `ok` and a not-`ok` envelope poll again at once; a not-`ok`
      one leaves the cursor unchanged. */
  lemma EnvelopeReschedulesAtOnce(bot: Bot, c: Cursor, result: map<string, Value>)
    requires "ok" in result
    requires Truthy(result["ok"]) ==>
      && "result" in result && result["result"].List?
      && forall k :: 0 <= k < |result["result"].items| ==> WellFormed(bot.lib, result["result"].items[k])
    ensures OnUpdatesReady(bot, c, Decoded(Obj(result))).next == Immediate
    ensures !Truthy(result["ok"]) ==> OnUpdatesReady(bot, c, Decoded(Obj(result))).cursor == c
  {
    if Truthy(result["ok"]) {
      OffsetAfterBatch(bot, c.offset, result["result"].items);
    }
  }

  /** A `result` that is not a list is iterated the way Python iterates it.
      A value with no items fails at the loop header; a string or dict
      yields strings, and the pump rejects the first of them at
      `update['update_id']`. Either way nothing is dispatched and the cursor
      stays. An empty string or dict polls again at once in both libraries;
      otherwise asynctelebot swallows the TypeError and polls again at once,
      while pytelegram_async lets it escape and stops. */
  lemma NonListResult(bot: Bot, c: Cursor, result: map<string, Value>)
    requires "ok" in result && Truthy(result["ok"])
    requires "result" in result && !result["result"].List?
    ensures OnUpdatesReady(bot, c, Decoded(Obj(result))).cursor == c
    ensures OnUpdatesReady(bot, c, Decoded(Obj(result))).events == []
    ensures bot.lib == AsyncTelebot ==> OnUpdatesReady(bot, c, Decoded(Obj(result))).next == Immediate
    ensures bot.lib == PytelegramAsync ==>
      (OnUpdatesReady(bot, c, Decoded(Obj(result))).next == Immediate <==> Len(result["result"]) == Some(0))
    ensures bot.lib == PytelegramAsync && Len(result["result"]) != Some(0) ==>
      OnUpdatesReady(bot, c, Decoded(Obj(result))).next == Halted
  {
    var it := Iterate(result["result"]);
    if it.Ok? && it.value != [] {
      assert it.value[0].Str?;
      assert ProcessUpdates(bot, c.offset, it.value) == Pumped(c.offset, [], Some(TypeError));
    }
  }

  /** asynctelebot never stops polling; pytelegram_async waits 15 seconds
      exactly after an HTTPError or ValueError, which the pump never raises,
      so only a caught transport failure or an undecodable body. */
  lemma ScheduleByLibrary(bot: Bot, c: Cursor, resp: Response)
    ensures bot.lib == AsyncTelebot ==> OnUpdatesReady(bot, c, resp).next != Halted
    ensures bot.lib == PytelegramAsync ==>
      (OnUpdatesReady(bot, c, resp).next == After(15) <==>
        (resp.TransportFailure? && CaughtByPytelegram(resp.exc)) || resp.Undecodable?)
    ensures OnUpdatesReady(bot, c, resp).next.After? ==> OnUpdatesReady(bot, c, resp).next == After(15)
  {
    if resp.Decoded? && resp.result.Obj? && "ok" in resp.result.fields && Truthy(resp.result.fields["ok"])
       && "result" in resp.result.fields && Iterate(resp.result.fields["result"]).Ok? {
      PumpErrors(bot, c.offset, Iterate(resp.result.fields["result"]).value);
    }
  }

  /** The poll after an `ok` batch asks for what the pump has not reached:
      `request_loop` sends the offset `process_updates` left in
      `self.params`, one past the last update it got through, and the same
      server-side wait and limit as before. After a batch the pump gets
      all the way through, that is one past the last update's id, so the
      server does not send those updates again. */
  lemma NextPollResumes(bot: Bot, c: Cursor, result: map<string, Value>)
    requires "ok" in result && Truthy(result["ok"])
    requires "result" in result && result["result"].List?
    ensures var items := result["result"].items;
      var next := RequestLoop(OnUpdatesReady(bot, c, Decoded(Obj(result))).cursor);
      && next.body["offset"] == Int(ProcessUpdates(bot, c.offset, items).offset)
      && next.body["timeout"] == Int(c.timeout) && next.body["limit"] == Int(c.limit)
      && next.requestTimeout == c.timeout + 5
      && (items == [] ==> next == RequestLoop(c))
      && ((forall k :: 0 <= k < |items| ==> WellFormed(bot.lib, items[k])) && items != [] ==>
            next.body["offset"] == Int(IdOf(items[|items| - 1]) + 1))
  {
    var items := result["result"].items;
    if forall k :: 0 <= k < |items| ==> WellFormed(bot.lib, items[k]) {
      OffsetAfterBatch(bot, c.offset, items);
    }
  }

  /** The exceptions the pump itself can raise. */
  predicate PumpExc(e: Option<Exc>) {
    e.Some? ==> e.value == KeyError || e.value == TypeError || e.value == AttributeError
  }

  lemma PumpOneErrors(bot: Bot, offset: int, update: Value)
    ensures PumpExc(PumpOne(bot, offset, update).error)
  {
    if update.Obj? {
      PrepareErrors(bot.lib, update.fields);
      var (acks, prepared) := Prepare(bot.lib, update.fields);
      if prepared.Ok? {
        var u := prepared.value;
        var d := Deliver(bot, u);
        DeliverErrors(bot, u);
        if d.Ok? {
          assert PumpOne(bot, offset, update) == Advance(offset, acks + d.value, u);
        }
      }
    }
  }

  lemma PrepareErrors(lib: Library, u: map<string, Value>)
    ensures Prepare(lib, u).1.Raise? ==> Prepare(lib, u).1.exc == KeyError || Prepare(lib, u).1.exc == TypeError
  {
  }

  lemma DeliverErrors(bot: Bot, u: map<string, Value>)
    ensures Deliver(bot, u).Raise? ==> Deliver(bot, u).exc == TypeError || Deliver(bot, u).exc == AttributeError
  {
  }

  /** The pump itself only raises KeyError, TypeError or AttributeError. */
  lemma {:induction false} PumpErrors(bot: Bot, offset: int, updates: seq<Value>)
    ensures PumpExc(ProcessUpdates(bot, offset, updates).error)
    decreases |updates|
  {
    if updates != [] {
      var first := PumpOne(bot, offset, updates[0]);
      PumpOneErrors(bot, offset, updates[0]);
      if first.error.None? {
        PumpErrors(bot, first.offset, updates[1..]);
        assert ProcessUpdates(bot, offset, updates).error == ProcessUpdates(bot, first.offset, updates[1..]).error;
      }
    }
  }

  /** The poll loop driven by a sequence of responses, stopping when it halts. */
  function RunLoop(bot: Bot, c: Cursor, responses: seq<Response>): (r: (Cursor, seq<Schedule>))
    ensures |r.1| <= |responses|
    decreases |responses|
  {
    if responses == [] then (c, [])
    else
      var s := OnUpdatesReady(bot, c, responses[0]);
      if s.next == Halted then (s.cursor, [Halted])
      else
        var rest := RunLoop(bot, s.cursor, responses[1..]);
        (rest.0, [s.next] + rest.1)
  }

  /** Every transport failure is one the callback catches: always in
      asynctelebot, HTTPError only in pytelegram_async. */
  predicate AllCaught(lib: Library, responses: seq<Response>) {
    forall k :: 0 <= k < |responses| ==>
      responses[k].TransportFailure? && (lib == AsyncTelebot || CaughtByPytelegram(responses[k].exc))
  }

  /** Any run of transport failures keeps the offset where it was; when
      the callback catches every one of them, each retry waits the
      15-second backoff and the loop never stops. */
  lemma {:induction false} FailuresKeepCursor(bot: Bot, c: Cursor, responses: seq<Response>)
    requires forall k :: 0 <= k < |responses| ==> responses[k].TransportFailure?
    ensures RunLoop(bot, c, responses).0 == c
    ensures AllCaught(bot.lib, responses) ==> RunLoop(bot, c, responses).1 == seq(|responses|, k => After(15))
    decreases |responses|
  {
    if responses != [] {
      FailureBacksOff(bot, c, responses[0]);
      FailuresKeepCursor(bot, c, responses[1..]);
      if AllCaught(bot.lib, responses) {
        assert AllCaught(bot.lib, responses[1..]) by {
          forall k | 0 <= k < |responses[1..]|
            ensures responses[1..][k] == responses[k + 1]
          {
          }
        }
      }
    }
  }

  /** In pytelegram_async a transport exception other than HTTPError stops
      the loop for good, whatever responses would have followed. */
  lemma UncaughtTransportHalts(bot: Bot, c: Cursor, e: Exc, rest: seq<Response>)
    requires bot.lib == PytelegramAsync && !CaughtByPytelegram(e)
    ensures RunLoop(bot, c, [TransportFailure(e)] + rest) == (c, [Halted])
  {
  }
}

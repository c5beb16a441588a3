/** `Bot.exec_command`: try every command of every registered handler
    owner, owners in `add_handler` order and each owner's commands in
    `commands` order, and stop at the first that returns a truthy value.
    An exception from a command propagates to the caller. */
module Dispatch {
  import opened Values
  import opened Handlers

  /** One command bound to the owner it was found on. */
  datatype Call = Call(owner: OwnerState, handler: Handler)

  /** Running one bound command on a message; the guard reads the admins
      of the owner's own bot. */
  function Run(c: Call, m: Message): Outcome<bool> {
    Invoke(c.handler, c.owner, m)
  }

  /** The calls an owner contributes, in its `commands` order. */
  function CallsOf(lib: Library, o: Owner): (r: seq<Call>)
    ensures |r| == |Commands(lib, o).0|
    ensures forall k :: 0 <= k < |r| ==> r[k] == Call(o.state, Commands(lib, o).0[k].handler)
  {
    var cs := Commands(lib, o).0;
    seq(|cs|, k requires 0 <= k < |cs| => Call(o.state, cs[k].handler))
  }

  /** Every command the bot will try, in the order it tries them. */
  function Candidates(lib: Library, owners: seq<Owner>): seq<Call> {
    if owners == [] then [] else CallsOf(lib, owners[0]) + Candidates(lib, owners[1..])
  }

  /** The first-truthy scan: a call that returns False passes the message on,
      a call that returns True or raises ends the scan with that outcome. */
  function Scan(calls: seq<Call>, m: Message): Outcome<bool> {
    if calls == [] then Ok(false)
    else
      var o := Run(calls[0], m);
      if o != Ok(false) then o else Scan(calls[1..], m)
  }

  /** `exec_command(message)` on a bot with these handler owners. The bot's
      own admin list is not read here: each guard reads its owner's bot. */
  function ExecCommand(lib: Library, owners: seq<Owner>, m: Message): Outcome<bool> {
    Scan(Candidates(lib, owners), m)
  }

  /** `add_handler(handler)` on a bot whose admin list is `admins` and whose
      handler owners are `owners`: a handler that is not None is assigned to
      this bot and appended. */
  function AddHandler(admins: seq<int>, owners: seq<Owner>, handler: Option<Owner>): (r: seq<Owner>)
    ensures handler.None? ==> r == owners
    ensures handler.Some? ==> |r| == |owners| + 1 && r[..|owners|] == owners
    ensures handler.Some? ==> r[|owners|].state.bot == Some(admins) && r[|owners|].attrs == handler.value.attrs
  {
    if handler.Some? then owners + [AssignTo(handler.value, admins)] else owners
  }

  /** Every one of `calls` returns False. */
  predicate AllDecline(calls: seq<Call>, m: Message) {
    forall k :: 0 <= k < |calls| ==> Run(calls[k], m) == Ok(false)
  }

  /** Call `k` is the first of `calls` that does not return False. */
  predicate FirstDecides(calls: seq<Call>, k: int, m: Message) {
    && 0 <= k < |calls|
    && Run(calls[k], m) != Ok(false)
    && AllDecline(calls[..k], m)
  }

  /** The scan returns False exactly when every call returns False. */
  lemma {:induction false} ScanDeclines(calls: seq<Call>, m: Message)
    ensures Scan(calls, m) == Ok(false) <==> AllDecline(calls, m)
  {
    if calls != [] {
      ScanDeclines(calls[1..], m);
      if Run(calls[0], m) == Ok(false) {
        if AllDecline(calls[1..], m) {
          forall k | 0 <= k < |calls|
            ensures Run(calls[k], m) == Ok(false)
          {
            if k > 0 {
              assert calls[k] == calls[1..][k - 1];
            }
          }
        }
        if AllDecline(calls, m) {
          forall k | 0 <= k < |calls[1..]|
            ensures Run(calls[1..][k], m) == Ok(false)
          {
            assert calls[1..][k] == calls[k + 1];
          }
        }
      }
    }
  }

  /** The scan's outcome is that of the first call that does not return
      False. */
  lemma {:induction false} ScanFirstDecides(calls: seq<Call>, k: int, m: Message)
    requires FirstDecides(calls, k, m)
    ensures Scan(calls, m) == Run(calls[k], m)
  {
    if k > 0 {
      assert Run(calls[0], m) == Ok(false) by {
        assert calls[..k][0] == calls[0];
      }
      assert FirstDecides(calls[1..], k - 1, m) by {
        assert calls[1..][k - 1] == calls[k];
        var pre, tail := calls[..k], calls[1..][..k - 1];
        forall j | 0 <= j < |tail|
          ensures Run(tail[j], m) == Ok(false)
        {
          assert tail[j] == pre[j + 1];
        }
      }
      ScanFirstDecides(calls[1..], k - 1, m);
    }
  }

  /** When the scan does not return False, some call decides it. */
  lemma {:induction false} FirstDecisiveExists(calls: seq<Call>, m: Message)
    requires Scan(calls, m) != Ok(false)
    ensures exists k :: FirstDecides(calls, k, m)
  {
    if Run(calls[0], m) == Ok(false) {
      FirstDecisiveExists(calls[1..], m);
      var k :| FirstDecides(calls[1..], k, m);
      assert calls[k + 1] == calls[1..][k];
      var pre, tail := calls[..k + 1], calls[1..][..k];
      forall j | 0 <= j < |pre|
        ensures Run(pre[j], m) == Ok(false)
      {
        if j > 0 {
          assert pre[j] == tail[j - 1];
        }
      }
      assert FirstDecides(calls, k + 1, m);
    } else {
      assert calls[..0] == [];
      assert FirstDecides(calls, 0, m);
    }
  }

  /** `exec_command` returns False (the message is unhandled) iff every
      command returns False. */
  lemma ExecCommandDeclines(lib: Library, owners: seq<Owner>, m: Message)
    ensures ExecCommand(lib, owners, m) == Ok(false) <==> AllDecline(Candidates(lib, owners), m)
  {
    ScanDeclines(Candidates(lib, owners), m);
  }

  /** Some call returns True and every call before it returned False. */
  predicate Accepted(calls: seq<Call>, m: Message) {
    exists k :: 0 <= k < |calls| && FirstDecides(calls, k, m) && Run(calls[k], m) == Ok(true)
  }

  /** The scan returns True iff some call returns True and every call
      before it returned False. */
  lemma ScanAccepts(calls: seq<Call>, m: Message)
    ensures Scan(calls, m) == Ok(true) <==> Accepted(calls, m)
  {
    if Scan(calls, m) == Ok(true) {
      FirstDecisiveExists(calls, m);
      var k :| FirstDecides(calls, k, m);
      ScanFirstDecides(calls, k, m);
      assert FirstDecides(calls, k, m) && Run(calls[k], m) == Ok(true);
    }
    if exists k :: FirstDecides(calls, k, m) && Run(calls[k], m) == Ok(true) {
      var k :| FirstDecides(calls, k, m) && Run(calls[k], m) == Ok(true);
      ScanFirstDecides(calls, k, m);
    }
  }

  /** `exec_command` returns True iff some command returns True and every
      command tried before it returned False. */
  lemma ExecCommandAccepts(lib: Library, owners: seq<Owner>, m: Message)
    ensures ExecCommand(lib, owners, m) == Ok(true) <==> Accepted(Candidates(lib, owners), m)
  {
    ScanAccepts(Candidates(lib, owners), m);
  }

  /** `exec_command` raises iff the first command that does not return False
      raises; that exception is what propagates. */
  lemma ExecCommandRaises(lib: Library, owners: seq<Owner>, m: Message, k: int)
    requires FirstDecides(Candidates(lib, owners), k, m)
    ensures ExecCommand(lib, owners, m) == Run(Candidates(lib, owners)[k], m)
  {
    ScanFirstDecides(Candidates(lib, owners), k, m);
  }

  /** A matched command that returns False does not stop the scan. */
  lemma DeclineContinues(calls: seq<Call>, m: Message)
    requires calls != [] && Run(calls[0], m) == Ok(false)
    ensures Scan(calls, m) == Scan(calls[1..], m)
  {
  }

  lemma {:induction false} ScanAppend(a: seq<Call>, b: seq<Call>, m: Message)
    ensures Scan(a, m) == Ok(false) ==> Scan(a + b, m) == Scan(b, m)
    ensures Scan(a, m) != Ok(false) ==> Scan(a + b, m) == Scan(a, m)
  {
    if a != [] {
      assert (a + b)[0] == a[0];
      assert (a + b)[1..] == a[1..] + b;
      ScanAppend(a[1..], b, m);
    } else {
      assert a + b == b;
    }
  }

  lemma {:induction false} CandidatesAppend(lib: Library, xs: seq<Owner>, ys: seq<Owner>)
    ensures Candidates(lib, xs + ys) == Candidates(lib, xs) + Candidates(lib, ys)
  {
    if xs == [] {
      assert xs + ys == ys;
    } else {
      assert (xs + ys)[0] == xs[0];
      assert (xs + ys)[1..] == xs[1..] + ys;
      CandidatesAppend(lib, xs[1..], ys);
    }
  }

  /** The bot tries every command of every owner and nothing else: a call
      is a candidate iff it is some owner's command bound to that owner. */
  lemma {:induction false} CandidatesCover(lib: Library, owners: seq<Owner>)
    ensures forall c :: c in Candidates(lib, owners) <==>
      exists i, k :: 0 <= i < |owners| && 0 <= k < |Commands(lib, owners[i]).0| &&
        c == Call(owners[i].state, Commands(lib, owners[i]).0[k].handler)
  {
    if owners != [] {
      var o, rest := owners[0], owners[1..];
      CandidatesCover(lib, rest);
      forall c
        ensures c in Candidates(lib, owners) <==>
          exists i, k :: 0 <= i < |owners| && 0 <= k < |Commands(lib, owners[i]).0| &&
            c == Call(owners[i].state, Commands(lib, owners[i]).0[k].handler)
      {
        if c in CallsOf(lib, o) {
          var k :| 0 <= k < |CallsOf(lib, o)| && CallsOf(lib, o)[k] == c;
          assert owners[0] == o;
        } else if c in Candidates(lib, rest) {
          var i, k :| 0 <= i < |rest| && 0 <= k < |Commands(lib, rest[i]).0| &&
            c == Call(rest[i].state, Commands(lib, rest[i]).0[k].handler);
          assert rest[i] == owners[i + 1];
        }
        if exists i, k :: 0 <= i < |owners| && 0 <= k < |Commands(lib, owners[i]).0| &&
            c == Call(owners[i].state, Commands(lib, owners[i]).0[k].handler) {
          var i, k :| 0 <= i < |owners| && 0 <= k < |Commands(lib, owners[i]).0| &&
            c == Call(owners[i].state, Commands(lib, owners[i]).0[k].handler);
          if i == 0 {
            assert CallsOf(lib, o)[k] == c;
          } else {
            assert owners[i] == rest[i - 1];
            assert c in Candidates(lib, rest);
          }
        }
      }
    }
  }

  /** An added handler is tried only when every owner added before it
      declines, and each of its commands answers to the adding bot's admins. */
  lemma AddHandlerTriedLast(lib: Library, admins: seq<int>, owners: seq<Owner>, o: Owner, m: Message)
    ensures var added := AssignTo(o, admins);
      ExecCommand(lib, AddHandler(admins, owners, Some(o)), m) ==
        if ExecCommand(lib, owners, m) != Ok(false) then ExecCommand(lib, owners, m)
        else Scan(CallsOf(lib, added), m)
    ensures forall c :: c in CallsOf(lib, AssignTo(o, admins)) ==> c.owner.bot == Some(admins)
  {
    var added := AssignTo(o, admins);
    CandidatesAppend(lib, owners, [added]);
    CandidatesSingle(lib, added);
    ScanAppend(Candidates(lib, owners), CallsOf(lib, added), m);
  }

  lemma CandidatesSingle(lib: Library, o: Owner)
    ensures Candidates(lib, [o]) == CallsOf(lib, o)
  {
    assert [o][1..] == [];
  }

  /** `exec_command` as the nested loops of the source; it computes the
      first-truthy scan. */
  method ExecCommandLoop(lib: Library, owners: seq<Owner>, m: Message) returns (r: Outcome<bool>)
    ensures r == ExecCommand(lib, owners, m)
  {
    ghost var lists := PerOwner(lib, owners);
    var i := 0;
    while i < |owners|
      invariant 0 <= i <= |owners|
      invariant Scan(Flat(lists[..i]), m) == Ok(false)
    {
      ghost var pre := Flat(lists[..i]);
      var calls := CallsOf(lib, owners[i]);
      assert calls == lists[i];
      r := TryCommands(calls, m, pre);
      FlatSplit(lists, i);
      if r != Ok(false) {
        ScanAppend(pre + calls, Flat(lists[i + 1..]), m);
        CandidatesFlat(lib, owners);
        return;
      }
      i := i + 1;
    }
    assert lists[..i] == lists;
    CandidatesFlat(lib, owners);
    r := Ok(false);
  }

  /** The calls of each owner, one list per owner. */
  ghost function PerOwner(lib: Library, owners: seq<Owner>): (ls: seq<seq<Call>>)
    ensures |ls| == |owners|
  {
    seq(|owners|, i requires 0 <= i < |owners| => CallsOf(lib, owners[i]))
  }

  /** The lists of `ls` one after the other. */
  function Flat(ls: seq<seq<Call>>): seq<Call> {
    if ls == [] then [] else ls[0] + Flat(ls[1..])
  }

  lemma {:induction false} FlatAppend(a: seq<seq<Call>>, b: seq<seq<Call>>)
    ensures Flat(a + b) == Flat(a) + Flat(b)
  {
    if a == [] {
      assert a + b == b;
    } else {
      assert (a + b)[0] == a[0];
      assert (a + b)[1..] == a[1..] + b;
      FlatAppend(a[1..], b);
    }
  }

  lemma FlatSingle(x: seq<Call>)
    ensures Flat([x]) == x
  {
    assert [x][1..] == [];
  }

  /** Cutting the lists at `i`: the prefix grows by list `i`, and the whole
      is prefix, list `i`, suffix. */
  lemma FlatSplit(ls: seq<seq<Call>>, i: nat)
    requires i < |ls|
    ensures Flat(ls[..i + 1]) == Flat(ls[..i]) + ls[i]
    ensures Flat(ls) == Flat(ls[..i]) + ls[i] + Flat(ls[i + 1..])
  {
    FlatGrow(ls, i);
    FlatCut(ls, i);
  }

  lemma FlatGrow(ls: seq<seq<Call>>, i: nat)
    requires i < |ls|
    ensures Flat(ls[..i + 1]) == Flat(ls[..i]) + ls[i]
  {
    var pre, x := ls[..i], ls[i];
    assert ls[..i + 1] == pre + [x];
    FlatSnoc(pre, x);
  }

  lemma FlatCut(ls: seq<seq<Call>>, i: nat)
    requires i < |ls|
    ensures Flat(ls) == Flat(ls[..i + 1]) + Flat(ls[i + 1..])
  {
    assert ls == ls[..i + 1] + ls[i + 1..];
    FlatAppend(ls[..i + 1], ls[i + 1..]);
  }

  lemma FlatSnoc(pre: seq<seq<Call>>, x: seq<Call>)
    ensures Flat(pre + [x]) == Flat(pre) + x
  {
    FlatAppend(pre, [x]);
    FlatSingle(x);
  }

  /** The candidates are the owners' call lists one after the other. */
  lemma {:induction false} CandidatesFlat(lib: Library, owners: seq<Owner>)
    ensures Candidates(lib, owners) == Flat(PerOwner(lib, owners))
  {
    if owners != [] {
      var ls := PerOwner(lib, owners);
      assert ls[0] == CallsOf(lib, owners[0]);
      assert ls[1..] == PerOwner(lib, owners[1..]);
      CandidatesFlat(lib, owners[1..]);
    }
  }

  /** The inner loop over one owner's commands, after the calls `pre` have
      all returned False. */
  method TryCommands(calls: seq<Call>, m: Message, ghost pre: seq<Call>) returns (r: Outcome<bool>)
    requires Scan(pre, m) == Ok(false)
    ensures r == Scan(pre + calls, m)
  {
    var j := 0;
    assert pre + calls[..j] == pre;
    while j < |calls|
      invariant 0 <= j <= |calls|
      invariant Scan(pre + calls[..j], m) == Ok(false)
    {
      var o := Run(calls[j], m);
      if o != Ok(false) {
        ScanHit(pre, calls, j, m);
        return o;
      }
      ScanStep(pre, calls, j, m);
      j := j + 1;
    }
    assert calls[..j] == calls;
    r := Ok(false);
  }

  lemma ScanStep(pre: seq<Call>, calls: seq<Call>, j: nat, m: Message)
    requires j < |calls|
    requires Scan(pre + calls[..j], m) == Ok(false)
    requires Run(calls[j], m) == Ok(false)
    ensures Scan(pre + calls[..j + 1], m) == Ok(false)
  {
    assert pre + calls[..j + 1] == (pre + calls[..j]) + [calls[j]];
    ScanAppend(pre + calls[..j], [calls[j]], m);
  }

  lemma ScanHit(pre: seq<Call>, calls: seq<Call>, j: nat, m: Message)
    requires j < |calls|
    requires Scan(pre + calls[..j], m) == Ok(false)
    requires Run(calls[j], m) != Ok(false)
    ensures Scan(pre + calls, m) == Run(calls[j], m)
  {
    assert pre + calls == (pre + calls[..j]) + calls[j..];
    ScanAppend(pre + calls[..j], calls[j..], m);
    assert calls[j..][0] == calls[j];
  }
}

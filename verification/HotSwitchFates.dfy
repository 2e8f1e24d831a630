/** What becomes of each request on the bridge: which event settles it, and how
    (src/codex/hotSwitchBridge.ts). */
module HotSwitchFates {
  import opened Wrappers
  import opened HotSwitchBridge

  /** What a request without a reply ends with: the three methods that change the runtime are uncertain, all others failed. */
  function Lost(m: Method): Outcome {
    match m
    case Switch => Uncertain
    case GatewayFallback => Uncertain
    case GatewaySwitch => Uncertain
    case OtherMethod(_) => Failed
  }

  predicate IsReplyTo(m: Message, id: string) {
    m.id == Some(id) && !m.hasMethod
  }

  /** What the first reply to a request among these lines says. */
  function FirstReply(lines: seq<string>, parse: string -> Message, id: string): Option<bool> {
    if lines == [] then None
    else if IsReplyTo(parse(lines[0]), id) then Some(parse(lines[0]).ok)
    else FirstReply(lines[1..], parse, id)
  }

  /** How an event settles a request that is in the table, if it does. */
  function FateOf(s: State, e: Event, parse: string -> Message, r: Entry): Option<Outcome> {
    match e
    case Receives(chunk) =>
      var reply := FirstReply(Lines(s.buffer + chunk), parse, r.id);
      if reply.Some? then Some(Replied(reply.value)) else None
    case TimesOut(id) => if id == r.id then Some(Lost(r.rpc)) else None
    case Closes(_) => Some(Lost(r.rpc))
    case Disposes => if s.disposed then None else Some(Lost(r.rpc))
    case _ => None
  }

  /** The request left the table with this outcome. */
  predicate SettledAs(s: State, id: string, outcome: Outcome) {
    Settlement(id, outcome) in s.settled && id !in EntryIds(s.pending)
  }

  // ---- One event ----

  lemma EntriesDiffer(s: State, i: nat, j: nat)
    requires Inv(s) && i < j < |s.pending|
    ensures s.pending[i].id != s.pending[j].id
  {
    var ids := EntryIds(s.pending);
    assert Occurrences(ids, ids[i]) + Occurrences(SettledIds(s.settled), ids[i]) <= 1;
    if ids[i] == ids[j] {
      OccursTwice(ids, i, j);
    }
  }

  lemma IndexOfEntry(s: State, r: Entry)
    requires Inv(s) && r in s.pending
    ensures IndexOf(s.pending, r.id) < |s.pending| && s.pending[IndexOf(s.pending, r.id)] == r
  {
    var k :| 0 <= k < |s.pending| && s.pending[k] == r;
    var i := IndexOf(s.pending, r.id);
    if i < k {
      EntriesDiffer(s, i, k);
    }
  }

  lemma TakenOut(s: State, i: nat)
    requires Inv(s) && i < |s.pending|
    ensures s.pending[i].id !in EntryIds(Without(s.pending, i))
  {
    var rest := Without(s.pending, i);
    forall k | 0 <= k < |rest|
      ensures rest[k].id != s.pending[i].id
    {
      if k < i {
        EntriesDiffer(s, k, i);
      } else {
        EntriesDiffer(s, i, k + 1);
      }
    }
  }

  lemma OthersStay(pending: seq<Entry>, i: nat)
    requires i < |pending|
    ensures forall other <- pending :: other != pending[i] ==> other in Without(pending, i)
  {
    forall other | other in pending && other != pending[i]
      ensures other in Without(pending, i)
    {
      var k :| 0 <= k < |pending| && pending[k] == other;
      assert Without(pending, i)[if k < i then k else k - 1] == other;
    }
  }

  lemma SettlingTakesOut(s: State, r: Entry, outcome: Outcome)
    requires Inv(s) && r in s.pending
    ensures var after := SettleAt(s, IndexOf(s.pending, r.id), outcome);
            && SettledAs(after, r.id, outcome) && after.settled == s.settled + [Settlement(r.id, outcome)]
            && forall other <- s.pending :: other != r ==> other in after.pending
  {
    IndexOfEntry(s, r);
    var i := IndexOf(s.pending, r.id);
    TakenOut(s, i);
    OthersStay(s.pending, i);
    assert SettleAt(s, i, outcome).settled[|s.settled|] == Settlement(r.id, outcome);
  }

  /** A message settles a request in the table exactly when it is a reply to it, and with what it says; every other
      request stays. */
  lemma MessageFate(s: State, m: Message, r: Entry)
    requires Inv(s) && r in s.pending
    ensures if IsReplyTo(m, r.id) then SettledAs(HandleMessage(s, m), r.id, Replied(m.ok)) else r in HandleMessage(s, m).pending
    ensures IsReplyTo(m, r.id) ==> HandleMessage(s, m).settled == s.settled + [Settlement(r.id, Replied(m.ok))]
    ensures s.settled <= HandleMessage(s, m).settled
  {
    if m.id.Some? && !m.hasMethod {
      var i := IndexOf(s.pending, m.id.value);
      var heard := s.(replies := s.replies + {(m.id.value, m.ok)});
      SideKeepsInv(s, heard);
      if i < |s.pending| {
        SettlingTakesOut(heard, s.pending[i], Replied(m.ok));
      }
    }
  }

  /** A request that was settled stays settled, with that outcome. */
  lemma {:induction false} LinesKeepSettled(s: State, lines: seq<string>, parse: string -> Message, id: string, outcome: Outcome)
    requires Inv(s) && SettledAs(s, id, outcome)
    ensures SettledAs(HandleLines(s, lines, parse), id, outcome)
    decreases |lines|
  {
    if lines == [] {
    } else {
      MessageKeepsSettled(s, parse(lines[0]), id, outcome);
      MessageKeepsInv(s, parse(lines[0]));
      LinesKeepSettled(HandleMessage(s, parse(lines[0])), lines[1..], parse, id, outcome);
    }
  }

  lemma MessageKeepsSettled(s: State, m: Message, id: string, outcome: Outcome)
    requires SettledAs(s, id, outcome)
    ensures SettledAs(HandleMessage(s, m), id, outcome)
  {
    var after := HandleMessage(s, m);
    forall k | 0 <= k < |after.pending|
      ensures after.pending[k].id != id
    {
      var i :| 0 <= i < |s.pending| && s.pending[i] == after.pending[k];
      assert EntryIds(s.pending)[i] in EntryIds(s.pending);
    }
  }

  lemma {:induction false} LinesFate(s: State, lines: seq<string>, parse: string -> Message, r: Entry)
    requires Inv(s) && r in s.pending
    ensures var reply := FirstReply(lines, parse, r.id);
            if reply.Some? then SettledAs(HandleLines(s, lines, parse), r.id, Replied(reply.value))
            else r in HandleLines(s, lines, parse).pending
    decreases |lines|
  {
    if lines == [] {
    } else {
      var m := parse(lines[0]);
      MessageFate(s, m, r);
      MessageKeepsInv(s, m);
      if IsReplyTo(m, r.id) {
        LinesKeepSettled(HandleMessage(s, m), lines[1..], parse, r.id, Replied(m.ok));
      } else {
        LinesFate(HandleMessage(s, m), lines[1..], parse, r);
      }
    }
  }

  lemma RejectingSettles(s: State, r: Entry)
    requires r in s.pending
    ensures SettledAs(RejectPending(s), r.id, Lost(r.rpc))
  {
    var i :| 0 <= i < |s.pending| && s.pending[i] == r;
    assert RejectPending(s).settled[|s.settled| + i] == Settlement(r.id, Lost(r.rpc));
  }

  lemma TimeoutFate(s: State, id: string, r: Entry)
    requires Inv(s) && r in s.pending
    ensures if id == r.id then SettledAs(Timeout(s, id), id, Lost(r.rpc)) else r in Timeout(s, id).pending
  {
    var i := IndexOf(s.pending, id);
    if id in s.timers && i < |s.pending| {
      SettlingTakesOut(s, s.pending[i], Lost(s.pending[i].rpc));
    }
    IndexOfEntry(s, r);
  }

  /** Every event either settles a request in the table with exactly its fate, or leaves it in the table as it is. */
  lemma StepFate(s: State, e: Event, parse: string -> Message, r: Entry)
    requires Inv(s) && r in s.pending
    ensures var fate := FateOf(s, e, parse, r);
            if fate.Some? then SettledAs(Step(s, e, parse), r.id, fate.value) else r in Step(s, e, parse).pending
  {
    match e
    case Receives(chunk) => LinesFate(s, Lines(s.buffer + chunk), parse, r);
    case TimesOut(id) => TimeoutFate(s, id, r);
    case Closes(socket) =>
      RejectingSettles(s.(socket := if s.socket == Some(socket) then None else s.socket, live := s.live - {socket}, buffer := ""), r);
    case Disposes =>
      if !s.disposed {
        RejectingSettles(s.(disposed := true, live := if s.socket.Some? then s.live - {s.socket.value} else s.live, socket := None), r);
      }
    case Requests(_) =>
    case FailsToConnect(_) =>
    case Connects(_) =>
    case Proceeds(i, socket) =>
  }

  // ---- Whole runs ----

  lemma ProceedKeepsSettled(s: State, i: nat, socket: nat, id: string, outcome: Outcome)
    requires Inv(s) && SettledAs(s, id, outcome) && id in s.sent
    ensures SettledAs(Proceed(s, i, socket), id, outcome) && id in Proceed(s, i, socket).sent
  {
    if i < |s.awaiting| {
      FreshIsDrawn(s.sent, s.sequence, s.awaiting[i]);
      FreshKeepsEntriesOut(s.pending, Entry(RequestId(s.sequence + 1), s.awaiting[i], socket), id);
    }
  }

  lemma StepKeepsSettled(s: State, e: Event, parse: string -> Message, id: string, outcome: Outcome)
    requires Inv(s) && SettledAs(s, id, outcome) && id in s.sent
    ensures SettledAs(Step(s, e, parse), id, outcome) && id in Step(s, e, parse).sent
  {
    match e
    case Receives(chunk) =>
      LinesKeepSettled(s, Lines(s.buffer + chunk), parse, id, outcome);
      HandleLinesSendsNothing(s, Lines(s.buffer + chunk), parse);
    case TimesOut(other) => TimeoutKeepsSettled(s, other, id, outcome);
    case Proceeds(i, socket) => ProceedKeepsSettled(s, i, socket, id, outcome);
    case Closes(_) => assert EntryIds([]) == [];
    case Disposes => assert EntryIds([]) == [];
    case Requests(_) =>
    case FailsToConnect(_) =>
    case Connects(_) =>
  }

  lemma FreshKeepsEntriesOut(pending: seq<Entry>, e: Entry, id: string)
    requires id !in EntryIds(pending) && e.id != id
    ensures id !in EntryIds(pending + [e])
  {
    assert EntryIds(pending + [e]) == EntryIds(pending) + [e.id];
  }

  lemma TimeoutKeepsSettled(s: State, other: string, id: string, outcome: Outcome)
    requires SettledAs(s, id, outcome)
    ensures SettledAs(Timeout(s, other), id, outcome)
  {
    var after := Timeout(s, other);
    forall k | 0 <= k < |after.pending|
      ensures after.pending[k].id != id
    {
      var i :| 0 <= i < |s.pending| && s.pending[i] == after.pending[k];
      assert EntryIds(s.pending)[i] in EntryIds(s.pending);
    }
  }

  /** No event up to here settles the request. */
  predicate Unsettled(s: State, events: seq<Event>, parse: string -> Message, r: Entry) {
    forall k :: 0 <= k < |events| ==> FateOf(RunFrom(s, events[..k], parse), events[k], parse, r) == None
  }

  lemma {:induction false} RunFromKeepsInv(s: State, events: seq<Event>, parse: string -> Message)
    requires Inv(s)
    ensures Inv(RunFrom(s, events, parse))
    decreases |events|
  {
    if events == [] {
    } else {
      RunFromKeepsInv(s, events[..|events| - 1], parse);
      StepKeepsInv(RunFrom(s, events[..|events| - 1], parse), events[|events| - 1], parse);
    }
  }

  lemma {:induction false} StaysInTable(s: State, events: seq<Event>, parse: string -> Message, r: Entry)
    requires Inv(s) && r in s.pending && Unsettled(s, events, parse, r)
    ensures r in RunFrom(s, events, parse).pending
    decreases |events|
  {
    if events == [] {
    } else {
      var init := events[..|events| - 1];
      assert forall k :: 0 <= k < |init| ==> events[..k] == init[..k];
      StaysInTable(s, init, parse, r);
      RunFromKeepsInv(s, init, parse);
      StepFate(RunFrom(s, init, parse), events[|events| - 1], parse, r);
    }
  }

  lemma {:induction false} RunKeepsSettled(s: State, events: seq<Event>, parse: string -> Message, id: string, outcome: Outcome)
    requires Inv(s) && SettledAs(s, id, outcome) && id in s.sent
    ensures SettledAs(RunFrom(s, events, parse), id, outcome)
    ensures id in RunFrom(s, events, parse).sent
    decreases |events|
  {
    if events == [] {
    } else {
      var init := events[..|events| - 1];
      RunKeepsSettled(s, init, parse, id, outcome);
      RunFromKeepsInv(s, init, parse);
      StepKeepsSettled(RunFrom(s, init, parse), events[|events| - 1], parse, id, outcome);
    }
  }

  lemma FateIsFinal(s: State, e: Event, rest: seq<Event>, parse: string -> Message, r: Entry)
    requires Inv(s) && r in s.pending && FateOf(s, e, parse, r).Some?
    ensures SettledAs(RunFrom(Step(s, e, parse), rest, parse), r.id, FateOf(s, e, parse, r).value)
  {
    StepFate(s, e, parse, r);
    StepKeepsInv(s, e, parse);
    InTableIsSent(s, r);
    StepKeepsSent(s, e, parse, r.id);
    RunKeepsSettled(Step(s, e, parse), rest, parse, r.id, FateOf(s, e, parse, r).value);
  }

  lemma RunAround(events: seq<Event>, more: seq<Event>, parse: string -> Message, k: nat)
    requires k < |more|
    ensures Run(events + more, parse) == RunFrom(Step(Run(events + more[..k], parse), more[k], parse), more[k + 1..], parse)
  {
    var before, e, rest := events + more[..k], more[k], more[k + 1..];
    assert (before + [e])[..|before|] == before;
    assert events + more == (before + [e]) + rest;
    RunContinues(before + [e], rest, parse);
  }

  /** In every run, the first event with a fate for a request in the table settles it for good with that outcome; until
      then it stays in the table. */
  lemma FirstFateSettles(events: seq<Event>, more: seq<Event>, parse: string -> Message, r: Entry, k: nat)
    requires r in Run(events, parse).pending && k < |more| && Unsettled(Run(events, parse), more[..k], parse, r)
    requires FateOf(Run(events + more[..k], parse), more[k], parse, r).Some?
    ensures r in Run(events + more[..k], parse).pending
    ensures SettledAs(Run(events + more, parse), r.id, FateOf(Run(events + more[..k], parse), more[k], parse, r).value)
  {
    WithoutFateStays(events, more[..k], parse, r);
    RunKeepsInv(events + more[..k], parse);
    RunAround(events, more, parse, k);
    FateIsFinal(Run(events + more[..k], parse), more[k], more[k + 1..], parse, r);
  }

  /** ... and without such an event it is still in the table. */
  lemma WithoutFateStays(events: seq<Event>, more: seq<Event>, parse: string -> Message, r: Entry)
    requires r in Run(events, parse).pending && Unsettled(Run(events, parse), more, parse, r)
    ensures r in Run(events + more, parse).pending
  {
    RunKeepsInv(events, parse);
    RunContinues(events, more, parse);
    StaysInTable(Run(events, parse), more, parse, r);
  }

  lemma InTableIsSent(s: State, r: Entry)
    requires Inv(s) && r in s.pending
    ensures r.id in s.sent && s.sent[r.id] == r.rpc
  {
    var i :| 0 <= i < |s.pending| && s.pending[i] == r;
  }

  lemma StepKeepsSent(s: State, e: Event, parse: string -> Message, id: string)
    requires id in s.sent
    ensures id in Step(s, e, parse).sent
  {
    if e.Receives? {
      HandleLinesSendsNothing(s, Lines(s.buffer + e.chunk), parse);
    }
  }

  lemma OneOutcome(s: State, id: string, a: Outcome, b: Outcome)
    requires Inv(s) && Settlement(id, a) in s.settled && Settlement(id, b) in s.settled
    ensures a == b
  {
    var i :| 0 <= i < |s.settled| && s.settled[i] == Settlement(id, a);
    var j :| 0 <= j < |s.settled| && s.settled[j] == Settlement(id, b);
    var ids := SettledIds(s.settled);
    assert Occurrences(EntryIds(s.pending), id) + Occurrences(ids, id) <= 1;
    if i < j {
      OccursTwice(ids, i, j);
    } else if j < i {
      OccursTwice(ids, j, i);
    }
  }

  /** A request that ends as uncertain or failed had no reply read while it was in the table. */
  lemma LostHadNoReply(events: seq<Event>, more: seq<Event>, parse: string -> Message, r: Entry, k: nat)
    requires r in Run(events, parse).pending && k < |more| && Unsettled(Run(events, parse), more[..k], parse, r)
    requires Settlement(r.id, Uncertain) in Run(events + more, parse).settled || Settlement(r.id, Failed) in Run(events + more, parse).settled
    requires more[k].Receives?
    ensures FirstReply(Lines(Run(events + more[..k], parse).buffer + more[k].chunk), parse, r.id) == None
  {
    var s := Run(events + more[..k], parse);
    if FirstReply(Lines(s.buffer + more[k].chunk), parse, r.id).Some? {
      FirstFateSettles(events, more, parse, r, k);
      RunKeepsInv(events + more, parse);
      var lost := if Settlement(r.id, Uncertain) in Run(events + more, parse).settled then Uncertain else Failed;
      OneOutcome(Run(events + more, parse), r.id, lost, FateOf(s, more[k], parse, r).value);
    }
  }

  // ---- What else an event changes ----

  /** A timer that fires cancels its request exactly when that changes the runtime and its own socket is still open. */
  lemma TimeoutCancelsExactlyWhen(s: State, r: Entry, parse: string -> Message)
    requires Inv(s) && r in s.pending
    ensures Step(s, TimesOut(r.id), parse).cancels
         == s.cancels + if r.rpc in {Switch, GatewayFallback, GatewaySwitch} && r.socket in s.live then [r.id] else []
  {
    IndexOfEntry(s, r);
  }

  /** A connected request is sent under the next identifier, on its own socket, and only it stops waiting. */
  lemma ProceedSends(s: State, i: nat, socket: nat, parse: string -> Message)
    requires Inv(s) && i < |s.awaiting|
    ensures var after := Step(s, Proceeds(i, socket), parse);
            && RequestId(s.sequence + 1) !in s.sent && after.sequence == s.sequence + 1
            && after.pending == s.pending + [Entry(RequestId(s.sequence + 1), s.awaiting[i], socket)]
            && after.sent == s.sent[RequestId(s.sequence + 1) := s.awaiting[i]] && after.settled == s.settled
            && |after.awaiting| == |s.awaiting| - 1 && after.awaiting[..i] == s.awaiting[..i] && after.awaiting[i..] == s.awaiting[i + 1..]
            && after.timers == s.timers + {RequestId(s.sequence + 1)}
  {
    FreshIsDrawn(s.sent, s.sequence, s.awaiting[i]);
  }

  /** A new request waits for a connection unless the bridge is disposed, and fails to connect without a trace. */
  lemma WaitingOutcome(s: State, rpc: Method, i: nat, parse: string -> Message)
    requires i < |s.awaiting|
    ensures Step(s, Requests(rpc), parse) == if s.disposed then s else s.(awaiting := s.awaiting + [rpc])
    ensures var after := Step(s, FailsToConnect(i), parse);
            && after == s.(awaiting := after.awaiting) && |after.awaiting| == |s.awaiting| - 1
            && after.awaiting[..i] == s.awaiting[..i] && after.awaiting[i..] == s.awaiting[i + 1..]
  {
  }

  /** A closed socket is forgotten together with the partial line; a disposal also closes the socket in use. */
  lemma ClosingOutcome(s: State, socket: nat, parse: string -> Message)
    ensures var after := Step(s, Closes(socket), parse);
            && after.pending == [] && after.buffer == "" && after.live == s.live - {socket} && after.disposed == s.disposed
            && after.socket == (if s.socket == Some(socket) then None else s.socket)
            && after.awaiting == s.awaiting && after.cancels == s.cancels
    ensures !s.disposed ==>
              var after := Step(s, Disposes, parse);
              && after.disposed && after.pending == [] && after.socket == None && after.buffer == s.buffer
              && after.live == s.live - (if s.socket.Some? then {s.socket.value} else {})
              && after.awaiting == s.awaiting && after.cancels == s.cancels
    ensures s.disposed ==> Step(s, Disposes, parse) == s
    ensures Step(s, Connects(socket), parse) == s.(socket := Some(socket), live := s.live + {socket})
  {
  }

  // ---- Lines ----

  /** What stays in the buffer is what follows the last newline. */
  lemma {:induction false} RestFollowsLastNewline(text: string)
    ensures '\n' !in Rest(text) && |Rest(text)| <= |text| && text[|text| - |Rest(text)|..] == Rest(text)
    ensures Rest(text) != text ==> |Rest(text)| < |text| && text[|text| - |Rest(text)| - 1] == '\n'
    decreases |text|
  {
    var i := NewlineAt(text);
    if i < |text| {
      RestFollowsLastNewline(text[i + 1..]);
    }
  }

  /** A line is read without one carriage return at its end, and not at all when nothing else is on it. */
  lemma LineOutcome(line: string)
    ensures line != "" && line[|line| - 1] != '\r' ==> Line(line) == [line]
    ensures line != "" ==> Line(line + "\r") == [line]
    ensures Line("") == [] && Line("\r") == []
  {
    assert (line + "\r")[..|line|] == line;
  }

  // ---- Identifiers ----

  /** The number a text of decimal digits stands for. */
  function NumberOf(text: string): int {
    if text == "" then 0 else 10 * NumberOf(text[..|text| - 1]) + (text[|text| - 1] as int - '0' as int)
  }

  lemma {:induction false} DigitsSpell(n: nat)
    ensures NumberOf(Digits(n)) == n && Digits(n) != ""
  {
    if n < 10 {
      assert Digits(n)[..0] == "";
    } else {
      DigitsSpell(n / 10);
      var last := Digits(n % 10);
      assert |last| == 1 && Digits(n)[..|Digits(n)| - 1] == Digits(n / 10) && Digits(n)[|Digits(n)| - 1] == last[0];
      assert last[0] as int - '0' as int == n % 10;
    }
  }

  /** The identifier of the n-th request is "manager:" and n in decimal. */
  lemma RequestIdSpells(n: nat)
    ensures |RequestId(n)| > 8 && RequestId(n)[..8] == "manager:" && NumberOf(RequestId(n)[8..]) == n
  {
    DigitsSpell(n);
    assert RequestId(n)[8..] == Digits(n);
  }
}

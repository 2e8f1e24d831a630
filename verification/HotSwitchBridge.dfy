/** The request table and line framing of the bridge to the hot-switch runtime (src/codex/hotSwitchBridge.ts).
    Sockets are numbered; what a line of text says is given by a parser. */
module HotSwitchBridge {
  import opened Wrappers

  datatype Method = Switch | GatewayFallback | GatewaySwitch | OtherMethod(name: string)

  /** Methods that change the runtime: without a reply their effect is unknown. */
  predicate Mutation(m: Method) {
    !m.OtherMethod?
  }

  datatype Outcome = Replied(ok: bool) | Uncertain | Failed

  datatype Entry = Entry(id: string, rpc: Method, socket: nat)

  datatype Settlement = Settlement(id: string, outcome: Outcome)

  /** A message with an identifier and no method is a reply. */
  datatype Message = Message(id: Option<string>, hasMethod: bool, ok: bool)

  /** `pending` is an insertion-ordered map and `awaiting` the requests still connecting; `sent`, `settled`, `replies`
      and `cancels` record what happened. */
  datatype State = State(disposed: bool, socket: Option<nat>, live: set<nat>, buffer: string, sequence: nat,
                         awaiting: seq<Method>, pending: seq<Entry>, timers: set<string>,
                         sent: map<string, Method>, settled: seq<Settlement>, replies: set<(string, bool)>, cancels: seq<string>)

  const Start := State(false, None, {}, "", 0, [], [], {}, map[], [], {}, [])

  // ---- Identifiers ----

  function Digits(n: nat): string {
    if n < 10 then [['0', '1', '2', '3', '4', '5', '6', '7', '8', '9'][n]] else Digits(n / 10) + Digits(n % 10)
  }

  function RequestId(n: nat): string {
    "manager:" + Digits(n)
  }

  lemma {:induction false} DigitsAreInjective(m: nat, n: nat)
    requires Digits(m) == Digits(n)
    ensures m == n
  {
    DigitsNonEmpty(m / 10);
    DigitsNonEmpty(n / 10);
    if m >= 10 && n >= 10 {
      var k := |Digits(m)| - 1;
      assert Digits(m)[..k] == Digits(m / 10) && Digits(n)[..k] == Digits(n / 10);
      assert Digits(m)[k] == Digits(m % 10)[0] && Digits(n)[k] == Digits(n % 10)[0];
      DigitsAreInjective(m / 10, n / 10);
    }
  }

  lemma {:induction false} DigitsNonEmpty(n: nat)
    ensures |Digits(n)| > 0
  {
    if n >= 10 {
      DigitsNonEmpty(n / 10);
    }
  }

  lemma RequestIdsAreInjective(m: nat, n: nat)
    requires RequestId(m) == RequestId(n)
    ensures m == n
  {
    assert RequestId(m)[8..] == Digits(m) && RequestId(n)[8..] == Digits(n);
    DigitsAreInjective(m, n);
  }

  // ---- The table ----

  function IndexOf(pending: seq<Entry>, id: string): (i: nat)
    ensures i <= |pending|
    ensures i < |pending| ==> pending[i].id == id
    ensures forall j | 0 <= j < i :: pending[j].id != id
  {
    if pending == [] || pending[0].id == id then 0 else IndexOf(pending[1..], id) + 1
  }

  function Without(pending: seq<Entry>, i: nat): seq<Entry>
    requires i < |pending|
  {
    pending[..i] + pending[i + 1..]
  }

  function LostOutcome(m: Method): Outcome {
    if Mutation(m) then Uncertain else Failed
  }

  /** The request at `i` leaves the table with an outcome. */
  function SettleAt(s: State, i: nat, outcome: Outcome): State
    requires i < |s.pending|
  {
    var e := s.pending[i];
    s.(pending := Without(s.pending, i), timers := s.timers - {e.id}, settled := s.settled + [Settlement(e.id, outcome)])
  }

  function RejectedAll(pending: seq<Entry>): seq<Settlement> {
    seq(|pending|, i requires 0 <= i < |pending| => Settlement(pending[i].id, LostOutcome(pending[i].rpc)))
  }

  function IdsOf(pending: seq<Entry>): set<string> {
    set e <- pending :: e.id
  }

  function RejectPending(s: State): State {
    s.(pending := [], timers := s.timers - IdsOf(s.pending), settled := s.settled + RejectedAll(s.pending))
  }

  // ---- Events ----

  /** A request on a disposed bridge fails at once; otherwise it waits for a connection. */
  function Request(s: State, m: Method): State {
    if s.disposed then s else s.(awaiting := s.awaiting + [m])
  }

  /** A waiting request has its connection: disposal is not checked again. */
  function Proceed(s: State, i: nat, socket: nat): State {
    if i >= |s.awaiting| then s
    else
      var m, id := s.awaiting[i], RequestId(s.sequence + 1);
      s.(awaiting := s.awaiting[..i] + s.awaiting[i + 1..], sequence := s.sequence + 1,
         pending := s.pending + [Entry(id, m, socket)], timers := s.timers + {id}, sent := s.sent[id := m])
  }

  function ConnectFails(s: State, i: nat): State {
    if i >= |s.awaiting| then s else s.(awaiting := s.awaiting[..i] + s.awaiting[i + 1..])
  }

  function Connected(s: State, socket: nat): State {
    s.(socket := Some(socket), live := s.live + {socket})
  }

  /** A timer fires only while it is armed; a mutation is cancelled on its own socket if that is still open. */
  function Timeout(s: State, id: string): State {
    var i := IndexOf(s.pending, id);
    if id !in s.timers || i == |s.pending| then s
    else
      var e := s.pending[i];
      var done := SettleAt(s, i, LostOutcome(e.rpc));
      if Mutation(e.rpc) && e.socket in s.live then done.(cancels := done.cancels + [id]) else done
  }

  function HandleMessage(s: State, m: Message): State {
    if m.id == None then s
    else
      var heard := if m.hasMethod then s else s.(replies := s.replies + {(m.id.value, m.ok)});
      var i := IndexOf(s.pending, m.id.value);
      if i < |s.pending| && !m.hasMethod then SettleAt(heard, i, Replied(m.ok)) else heard
  }

  function Closed(s: State, socket: nat): State {
    RejectPending(s.(socket := if s.socket == Some(socket) then None else s.socket, live := s.live - {socket}, buffer := ""))
  }

  function Dispose(s: State): State {
    if s.disposed then s
    else
      RejectPending(s.(disposed := true, live := if s.socket.Some? then s.live - {s.socket.value} else s.live, socket := None))
  }

  // ---- Lines ----

  function NewlineAt(text: string): (i: nat)
    ensures i <= |text|
    ensures i < |text| ==> text[i] == '\n'
    ensures forall j | 0 <= j < i :: text[j] != '\n'
  {
    if text == "" || text[0] == '\n' then 0 else NewlineAt(text[1..]) + 1
  }

  function TrimCr(line: string): string {
    if line != "" && line[|line| - 1] == '\r' then line[..|line| - 1] else line
  }

  /** One line without its line end, unless it is empty. */
  function Line(text: string): seq<string> {
    if TrimCr(text) == "" then [] else [TrimCr(text)]
  }

  /** The non-empty lines that are complete in a text, without their line ends. */
  function Lines(text: string): seq<string>
    decreases |text|
  {
    var i := NewlineAt(text);
    if i == |text| then []
    else Line(text[..i]) + Lines(text[i + 1..])
  }

  /** What is left after the last complete line. */
  function Rest(text: string): string
    decreases |text|
  {
    var i := NewlineAt(text);
    if i == |text| then text else Rest(text[i + 1..])
  }

  function HandleLines(s: State, lines: seq<string>, parse: string -> Message): State
    decreases |lines|
  {
    if lines == [] then s else HandleLines(HandleMessage(s, parse(lines[0])), lines[1..], parse)
  }

  function Data(s: State, chunk: string, parse: string -> Message): State {
    HandleLines(s, Lines(s.buffer + chunk), parse).(buffer := Rest(s.buffer + chunk))
  }

  // ---- Lines do not depend on how the text was cut into chunks ----

  lemma {:induction false} NewlineInPrefix(a: string, b: string)
    requires NewlineAt(a) < |a|
    ensures NewlineAt(a + b) == NewlineAt(a)
  {
    if a[0] != '\n' {
      NewlineInPrefix(a[1..], b);
      assert (a + b)[1..] == a[1..] + b;
    }
  }

  lemma FirstLine(text: string, i: nat, tail: string)
    requires i == NewlineAt(text) < |text| && tail == text[i + 1..]
    ensures Lines(text) == Line(text[..i]) + Lines(tail)
    ensures Rest(text) == Rest(tail)
  {
  }

  lemma NoLine(text: string)
    requires NewlineAt(text) == |text|
    ensures Lines(text) == [] && Rest(text) == text
  {
  }

  lemma SplitConcat(a: string, b: string, i: nat)
    requires i < |a|
    ensures (a + b)[..i] == a[..i] && (a + b)[i + 1..] == a[i + 1..] + b
  {
  }

  lemma Regroup<T>(x: seq<T>, y: seq<T>, z: seq<T>)
    ensures x + (y + z) == (x + y) + z
    ensures [] + z == z
  {
  }

  /** When the text after the first line splits as claimed, so does the whole text. */
  lemma LinesOfMoreStep(a: string, b: string, i: nat, rest: string, tail: string)
    requires i == NewlineAt(a) < |a| && tail == a[i + 1..]
    requires Lines(tail + b) == Lines(tail) + Lines(rest + b) && Rest(tail + b) == Rest(rest + b)
    ensures Lines(a + b) == Lines(a) + Lines(rest + b) && Rest(a + b) == Rest(rest + b)
  {
    FirstLine(a, i, tail);
    NewlineInPrefix(a, b);
    SplitConcat(a, b, i);
    FirstLine(a + b, i, tail + b);
    Regroup(Line(a[..i]), Lines(tail), Lines(rest + b));
  }

  lemma {:induction false} LinesOfMore(a: string, b: string, rest: string)
    requires rest == Rest(a)
    ensures Lines(a + b) == Lines(a) + Lines(rest + b)
    ensures Rest(a + b) == Rest(rest + b)
    decreases |a|
  {
    var i := NewlineAt(a);
    if i == |a| {
      NoLine(a);
      Regroup([], [], Lines(a + b));
    } else {
      FirstLine(a, i, a[i + 1..]);
      LinesOfMore(a[i + 1..], b, rest);
      LinesOfMoreStep(a, b, i, rest, a[i + 1..]);
    }
  }

  lemma {:induction false} RestHasNoLine(text: string)
    ensures NewlineAt(Rest(text)) == |Rest(text)|
    decreases |text|
  {
    if NewlineAt(text) < |text| {
      RestHasNoLine(text[NewlineAt(text) + 1..]);
    }
  }

  lemma {:induction false} HandleLinesIgnoresBuffer(s: State, lines: seq<string>, parse: string -> Message, buffer: string)
    ensures HandleLines(s.(buffer := buffer), lines, parse) == HandleLines(s, lines, parse).(buffer := buffer)
    decreases |lines|
  {
    if lines == [] {
    } else {
      HandleLinesIgnoresBuffer(HandleMessage(s, parse(lines[0])), lines[1..], parse, buffer);
    }
  }

  lemma {:induction false} HandleMoreLines(s: State, a: seq<string>, b: seq<string>, parse: string -> Message)
    ensures HandleLines(s, a + b, parse) == HandleLines(HandleLines(s, a, parse), b, parse)
    decreases |a|
  {
    if a == [] {
      assert a + b == b;
    } else {
      assert (a + b)[1..] == a[1..] + b;
      HandleMoreLines(HandleMessage(s, parse(a[0])), a[1..], b, parse);
    }
  }

  lemma TwoChunksAreOne(s: State, a: string, b: string, parse: string -> Message)
    ensures Data(Data(s, a, parse), b, parse) == Data(s, a + b, parse)
  {
    var text, rest, all := s.buffer + a, Rest(s.buffer + a), s.buffer + (a + b);
    assert all == text + b;
    LinesOfMore(text, b, rest);
    HandleMoreLines(s, Lines(text), Lines(rest + b), parse);
    DataAfter(s, HandleLines(s, Lines(text), parse), rest, b, parse);
  }

  lemma DataAfter(s: State, done: State, rest: string, b: string, parse: string -> Message)
    ensures Data(done.(buffer := rest), b, parse) == HandleLines(done, Lines(rest + b), parse).(buffer := Rest(rest + b))
  {
    HandleLinesIgnoresBuffer(done, Lines(rest + b), parse, rest);
  }

  function Feed(s: State, chunks: seq<string>, parse: string -> Message): State {
    if chunks == [] then s else Data(Feed(s, chunks[..|chunks| - 1], parse), chunks[|chunks| - 1], parse)
  }

  function Join(chunks: seq<string>): string {
    if chunks == [] then "" else Join(chunks[..|chunks| - 1]) + chunks[|chunks| - 1]
  }

  /** Any way of cutting a text into chunks has the effect of the whole text. */
  lemma {:induction false} ChunkingDoesNotMatter(s: State, chunks: seq<string>, parse: string -> Message)
    requires NewlineAt(s.buffer) == |s.buffer|
    ensures Feed(s, chunks, parse) == Data(s, Join(chunks), parse)
  {
    if chunks == [] {
      assert s.buffer + "" == s.buffer;
    } else {
      var init := chunks[..|chunks| - 1];
      ChunkingDoesNotMatter(s, init, parse);
      TwoChunksAreOne(s, Join(init), chunks[|chunks| - 1], parse);
    }
  }

  // ---- Invariant ----

  function Occurrences(ids: seq<string>, id: string): nat {
    if ids == [] then 0 else (if ids[0] == id then 1 else 0) + Occurrences(ids[1..], id)
  }

  function EntryIds(pending: seq<Entry>): seq<string> {
    seq(|pending|, i requires 0 <= i < |pending| => pending[i].id)
  }

  function SettledIds(settled: seq<Settlement>): seq<string> {
    seq(|settled|, i requires 0 <= i < |settled| => settled[i].id)
  }

  /** Every sent request is either in the table or settled, exactly once. */
  ghost predicate Accounted(pending: seq<string>, settled: seq<string>, sent: map<string, Method>) {
    forall id :: Occurrences(pending, id) + Occurrences(settled, id) == if id in sent then 1 else 0
  }

  /** Sent identifiers were drawn from the sequence. */
  ghost predicate Drawn(sent: map<string, Method>, sequence: nat) {
    forall id | id in sent :: exists n: nat :: n <= sequence && id == RequestId(n)
  }

  ghost predicate EntriesKnown(pending: seq<Entry>, sent: map<string, Method>) {
    forall i | 0 <= i < |pending| :: pending[i].id in sent && sent[pending[i].id] == pending[i].rpc
  }

  /** A request settles as replied only with a reply that came; otherwise a mutation is uncertain and anything else failed. */
  ghost predicate OutcomeFits(o: Settlement, sent: map<string, Method>, replies: set<(string, bool)>) {
    && o.id in sent
    && (o.outcome.Replied? ==> (o.id, o.outcome.ok) in replies)
    && (!o.outcome.Replied? ==> o.outcome == LostOutcome(sent[o.id]))
  }

  ghost predicate OutcomesFit(settled: seq<Settlement>, sent: map<string, Method>, replies: set<(string, bool)>) {
    forall i | 0 <= i < |settled| :: OutcomeFits(settled[i], sent, replies)
  }

  ghost predicate Inv(s: State) {
    && Accounted(EntryIds(s.pending), SettledIds(s.settled), s.sent)
    && Drawn(s.sent, s.sequence)
    && EntriesKnown(s.pending, s.sent)
    && OutcomesFit(s.settled, s.sent, s.replies)
    && s.timers == IdsOf(s.pending)
  }

  lemma {:induction false} OccurrencesConcat(a: seq<string>, b: seq<string>, id: string)
    ensures Occurrences(a + b, id) == Occurrences(a, id) + Occurrences(b, id)
  {
    if a == [] {
      assert a + b == b;
    } else {
      OccurrencesConcat(a[1..], b, id);
      assert (a + b)[1..] == a[1..] + b;
    }
  }

  lemma OccurrencesSnoc(ids: seq<string>, last: string, id: string)
    ensures Occurrences(ids + [last], id) == Occurrences(ids, id) + if last == id then 1 else 0
  {
    OccurrencesConcat(ids, [last], id);
  }

  lemma OccurrencesAround(a: seq<string>, middle: string, b: seq<string>, id: string)
    ensures Occurrences(a + [middle] + b, id) == Occurrences(a + b, id) + if middle == id then 1 else 0
  {
    OccurrencesConcat(a, b, id);
    OccurrencesSnoc(a, middle, id);
    OccurrencesConcat(a + [middle], b, id);
  }

  lemma {:induction false} OccursWhenMember(ids: seq<string>, id: string)
    ensures Occurrences(ids, id) > 0 <==> id in ids
  {
    if ids == [] {
    } else {
      OccursWhenMember(ids[1..], id);
      assert ids == [ids[0]] + ids[1..];
    }
  }

  lemma {:induction false} OccursTwice(ids: seq<string>, i: nat, j: nat)
    requires i < j < |ids| && ids[i] == ids[j]
    ensures Occurrences(ids, ids[i]) >= 2
  {
    if i == 0 {
      OccursWhenMember(ids[1..], ids[j]);
      assert ids[1..][j - 1] == ids[j];
    } else {
      OccursTwice(ids[1..], i - 1, j - 1);
    }
  }

  /** Moving one identifier from the table to the settled ones keeps the account. */
  lemma MovingOneKeepsAccount(pending: seq<string>, before: seq<string>, moved: string, after: seq<string>,
                              settled: seq<string>, sent: map<string, Method>)
    requires Accounted(pending, settled, sent) && pending == before + [moved] + after
    ensures Accounted(before + after, settled + [moved], sent)
    ensures moved !in before + after
  {
    forall id
      ensures Occurrences(before + after, id) + Occurrences(settled + [moved], id) == if id in sent then 1 else 0
    {
      OccurrencesAround(before, moved, after, id);
      OccurrencesSnoc(settled, moved, id);
      assert Occurrences(pending, id) + Occurrences(settled, id) == if id in sent then 1 else 0;
    }
    OccurrencesAround(before, moved, after, moved);
    OccursWhenMember(before + after, moved);
    assert Occurrences(pending, moved) <= 1;
  }

  lemma SettleKeepsInv(s: State, i: nat, outcome: Outcome)
    requires Inv(s) && i < |s.pending|
    requires OutcomeFits(Settlement(s.pending[i].id, outcome), s.sent, s.replies)
    ensures Inv(SettleAt(s, i, outcome))
  {
    var id, rest, ids := s.pending[i].id, Without(s.pending, i), EntryIds(s.pending);
    assert ids == ids[..i] + [id] + ids[i + 1..];
    MovingOneKeepsAccount(ids, ids[..i], id, ids[i + 1..], SettledIds(s.settled), s.sent);
    assert EntryIds(rest) == ids[..i] + ids[i + 1..];
    assert SettledIds(s.settled + [Settlement(id, outcome)]) == SettledIds(s.settled) + [id];
    TimersWithout(s.pending, i);
  }

  lemma TimersWithout(pending: seq<Entry>, i: nat)
    requires i < |pending|
    requires pending[i].id !in EntryIds(pending)[..i] + EntryIds(pending)[i + 1..]
    ensures IdsOf(Without(pending, i)) == IdsOf(pending) - {pending[i].id}
  {
    var rest := Without(pending, i);
    forall j | 0 <= j < |rest|
      ensures rest[j] in pending && rest[j].id != pending[i].id
    {
      assert rest[j].id == (EntryIds(pending)[..i] + EntryIds(pending)[i + 1..])[j];
    }
    forall j | 0 <= j < |pending| && j != i
      ensures pending[j] in rest
    {
      assert rest[if j < i then j else j - 1] == pending[j];
    }
  }

  lemma RejectKeepsInv(s: State)
    requires Inv(s)
    ensures Inv(RejectPending(s)) && RejectPending(s).pending == []
  {
    var lost := RejectedAll(s.pending);
    assert SettledIds(s.settled + lost) == SettledIds(s.settled) + EntryIds(s.pending);
    forall id
      ensures Occurrences([], id) + Occurrences(SettledIds(s.settled + lost), id) == if id in s.sent then 1 else 0
    {
      OccurrencesConcat(SettledIds(s.settled), EntryIds(s.pending), id);
      assert Occurrences(EntryIds(s.pending), id) + Occurrences(SettledIds(s.settled), id) == if id in s.sent then 1 else 0;
    }
    forall i | 0 <= i < |lost|
      ensures OutcomeFits(lost[i], s.sent, s.replies)
    {
    }
    assert EntryIds([]) == [];
  }

  /** Changing what the table does not depend on keeps the invariant. */
  lemma SideKeepsInv(s: State, t: State)
    requires Inv(s)
    requires t.pending == s.pending && t.timers == s.timers && t.sent == s.sent && t.settled == s.settled
    requires t.sequence == s.sequence && s.replies <= t.replies
    ensures Inv(t)
  {
    forall i | 0 <= i < |t.settled|
      ensures OutcomeFits(t.settled[i], t.sent, t.replies)
    {
      assert OutcomeFits(s.settled[i], s.sent, s.replies);
    }
  }

  lemma FreshKeepsAccount(pending: seq<string>, settled: seq<string>, sent: map<string, Method>, id: string, rpc: Method)
    requires Accounted(pending, settled, sent) && id !in sent
    ensures Accounted(pending + [id], settled, sent[id := rpc])
  {
    forall other
      ensures Occurrences(pending + [id], other) + Occurrences(settled, other) == if other in sent[id := rpc] then 1 else 0
    {
      OccurrencesSnoc(pending, id, other);
      assert Occurrences(pending, other) + Occurrences(settled, other) == if other in sent then 1 else 0;
    }
  }

  lemma FreshIsDrawn(sent: map<string, Method>, sequence: nat, rpc: Method)
    requires Drawn(sent, sequence)
    ensures Drawn(sent[RequestId(sequence + 1) := rpc], sequence + 1)
    ensures RequestId(sequence + 1) !in sent
  {
    var id := RequestId(sequence + 1);
    if id in sent {
      var n: nat :| n <= sequence && id == RequestId(n);
      RequestIdsAreInjective(n, sequence + 1);
    }
    forall other | other in sent
      ensures exists n: nat :: n <= sequence + 1 && other == RequestId(n)
    {
      var n: nat :| n <= sequence && other == RequestId(n);
    }
  }

  lemma FreshKeepsOutcomes(settled: seq<Settlement>, sent: map<string, Method>, replies: set<(string, bool)>, id: string, rpc: Method)
    requires OutcomesFit(settled, sent, replies) && id !in sent
    ensures OutcomesFit(settled, sent[id := rpc], replies)
  {
    forall j | 0 <= j < |settled|
      ensures OutcomeFits(settled[j], sent[id := rpc], replies)
    {
      assert OutcomeFits(settled[j], sent, replies);
    }
  }

  lemma FreshKeepsEntries(pending: seq<Entry>, sent: map<string, Method>, e: Entry)
    requires EntriesKnown(pending, sent) && e.id !in sent
    ensures EntriesKnown(pending + [e], sent[e.id := e.rpc])
    ensures EntryIds(pending + [e]) == EntryIds(pending) + [e.id]
    ensures IdsOf(pending + [e]) == IdsOf(pending) + {e.id}
  {
  }

  lemma ProceedKeepsInv(s: State, i: nat, socket: nat)
    requires Inv(s)
    ensures Inv(Proceed(s, i, socket))
  {
    if i < |s.awaiting| {
      var id, rpc := RequestId(s.sequence + 1), s.awaiting[i];
      FreshIsDrawn(s.sent, s.sequence, rpc);
      FreshKeepsAccount(EntryIds(s.pending), SettledIds(s.settled), s.sent, id, rpc);
      FreshKeepsOutcomes(s.settled, s.sent, s.replies, id, rpc);
      FreshKeepsEntries(s.pending, s.sent, Entry(id, rpc, socket));
    }
  }

  lemma TimeoutKeepsInv(s: State, id: string)
    requires Inv(s)
    ensures Inv(Timeout(s, id))
  {
    var i := IndexOf(s.pending, id);
    if id in s.timers && i < |s.pending| {
      SettleKeepsInv(s, i, LostOutcome(s.pending[i].rpc));
      SideKeepsInv(SettleAt(s, i, LostOutcome(s.pending[i].rpc)), Timeout(s, id));
    }
  }

  lemma MessageKeepsInv(s: State, m: Message)
    requires Inv(s)
    ensures Inv(HandleMessage(s, m))
  {
    if m.id.Some? && !m.hasMethod {
      var heard := s.(replies := s.replies + {(m.id.value, m.ok)});
      SideKeepsInv(s, heard);
      var i := IndexOf(s.pending, m.id.value);
      if i < |s.pending| {
        SettleKeepsInv(heard, i, Replied(m.ok));
      }
    }
  }

  lemma {:induction false} LinesKeepInv(s: State, lines: seq<string>, parse: string -> Message)
    requires Inv(s)
    ensures Inv(HandleLines(s, lines, parse))
    decreases |lines|
  {
    if lines == [] {
    } else {
      MessageKeepsInv(s, parse(lines[0]));
      LinesKeepInv(HandleMessage(s, parse(lines[0])), lines[1..], parse);
    }
  }

  datatype Event =
    | Requests(rpc: Method)
    | Proceeds(i: nat, socket: nat)
    | FailsToConnect(i: nat)
    | Connects(socket: nat)
    | TimesOut(id: string)
    | Receives(chunk: string)
    | Closes(socket: nat)
    | Disposes

  function Step(s: State, e: Event, parse: string -> Message): State {
    match e
    case Requests(rpc) => Request(s, rpc)
    case Proceeds(i, socket) => Proceed(s, i, socket)
    case FailsToConnect(i) => ConnectFails(s, i)
    case Connects(socket) => Connected(s, socket)
    case TimesOut(id) => Timeout(s, id)
    case Receives(chunk) => Data(s, chunk, parse)
    case Closes(socket) => Closed(s, socket)
    case Disposes => Dispose(s)
  }

  function Run(events: seq<Event>, parse: string -> Message): State {
    if events == [] then Start else Step(Run(events[..|events| - 1], parse), events[|events| - 1], parse)
  }

  lemma StepKeepsInv(s: State, e: Event, parse: string -> Message)
    requires Inv(s)
    ensures Inv(Step(s, e, parse))
  {
    match e
    case Requests(rpc) => SideKeepsInv(s, Request(s, rpc));
    case Proceeds(i, socket) => ProceedKeepsInv(s, i, socket);
    case FailsToConnect(i) => SideKeepsInv(s, ConnectFails(s, i));
    case Connects(socket) => SideKeepsInv(s, Connected(s, socket));
    case TimesOut(id) => TimeoutKeepsInv(s, id);
    case Receives(chunk) => DataKeepsInv(s, chunk, parse);
    case Closes(socket) => ClosedKeepsInv(s, socket);
    case Disposes => DisposeKeepsInv(s);
  }

  lemma DataKeepsInv(s: State, chunk: string, parse: string -> Message)
    requires Inv(s)
    ensures Inv(Data(s, chunk, parse))
  {
    var done := HandleLines(s, Lines(s.buffer + chunk), parse);
    LinesKeepInv(s, Lines(s.buffer + chunk), parse);
    SideKeepsInv(done, Data(s, chunk, parse));
  }

  lemma ClosedKeepsInv(s: State, socket: nat)
    requires Inv(s)
    ensures Inv(Closed(s, socket)) && Closed(s, socket).pending == []
  {
    var quiet := s.(socket := if s.socket == Some(socket) then None else s.socket, live := s.live - {socket}, buffer := "");
    SideKeepsInv(s, quiet);
    RejectKeepsInv(quiet);
  }

  lemma DisposeKeepsInv(s: State)
    requires Inv(s)
    ensures Inv(Dispose(s)) && (s.disposed || Dispose(s).pending == [])
  {
    if !s.disposed {
      var quiet := s.(disposed := true, live := if s.socket.Some? then s.live - {s.socket.value} else s.live, socket := None);
      SideKeepsInv(s, quiet);
      RejectKeepsInv(quiet);
    }
  }

  lemma {:induction false} RunKeepsInv(events: seq<Event>, parse: string -> Message)
    ensures Inv(Run(events, parse))
  {
    if events == [] {
      assert Start.sent.Keys == {};
    } else {
      RunKeepsInv(events[..|events| - 1], parse);
      StepKeepsInv(Run(events[..|events| - 1], parse), events[|events| - 1], parse);
    }
  }

  /** In every interleaving each sent request settles at most once, the table holds exactly the sent and unsettled ones,
      and each of those has its timer armed. */
  lemma EachSettlesOnce(events: seq<Event>, parse: string -> Message)
    ensures var s := Run(events, parse);
            && (forall i, j :: 0 <= i < j < |s.settled| ==> s.settled[i].id != s.settled[j].id)
            && (forall id :: id in IdsOf(s.pending) <==> id in s.sent && id !in SettledIds(s.settled))
            && s.timers == IdsOf(s.pending)
  {
    var s := Run(events, parse);
    var pending, settled := EntryIds(s.pending), SettledIds(s.settled);
    RunKeepsInv(events, parse);
    forall i, j | 0 <= i < j < |s.settled|
      ensures s.settled[i].id != s.settled[j].id
    {
      assert Occurrences(pending, settled[i]) + Occurrences(settled, settled[i]) <= 1;
      if settled[i] == settled[j] {
        OccursTwice(settled, i, j);
      }
    }
    forall id
      ensures id in IdsOf(s.pending) <==> id in s.sent && id !in settled
    {
      assert Occurrences(pending, id) + Occurrences(settled, id) == if id in s.sent then 1 else 0;
      OccursWhenMember(pending, id);
      OccursWhenMember(settled, id);
      MembersAreIds(s.pending, id);
    }
  }

  lemma MembersAreIds(pending: seq<Entry>, id: string)
    ensures id in EntryIds(pending) <==> id in IdsOf(pending)
  {
    if id in IdsOf(pending) {
      var e :| e in pending && e.id == id;
      var i :| 0 <= i < |pending| && pending[i] == e;
      assert EntryIds(pending)[i] == id;
    }
    if id in EntryIds(pending) {
      var i :| 0 <= i < |pending| && EntryIds(pending)[i] == id;
      assert pending[i] in pending;
    }
  }

  /** A request that changes the runtime and got no reply settles only as uncertain; a success or failure is claimed
      only on a reply that says so. */
  lemma UnansweredMutationIsUncertain(events: seq<Event>, parse: string -> Message, i: nat)
    requires i < |Run(events, parse).settled|
    ensures var s := Run(events, parse);
            var o := s.settled[i];
            && o.id in s.sent
            && (Mutation(s.sent[o.id]) && (o.id, true) !in s.replies && (o.id, false) !in s.replies ==> o.outcome == Uncertain)
            && (o.outcome.Replied? ==> (o.id, o.outcome.ok) in s.replies)
            && (o.outcome == Uncertain ==> Mutation(s.sent[o.id]))
  {
    RunKeepsInv(events, parse);
    assert OutcomeFits(Run(events, parse).settled[i], Run(events, parse).sent, Run(events, parse).replies);
  }

  // ---- After disposal ----

  function RunFrom(s: State, events: seq<Event>, parse: string -> Message): State {
    if events == [] then s else Step(RunFrom(s, events[..|events| - 1], parse), events[|events| - 1], parse)
  }

  lemma {:induction false} RunContinues(events: seq<Event>, more: seq<Event>, parse: string -> Message)
    ensures Run(events + more, parse) == RunFrom(Run(events, parse), more, parse)
    decreases |more|
  {
    if more == [] {
      assert events + more == events;
    } else {
      var init := more[..|more| - 1];
      assert (events + more)[..|events| + |more| - 1] == events + init;
      RunContinues(events, init, parse);
    }
  }

  lemma RunOne(s: State, e: Event, parse: string -> Message)
    ensures RunFrom(s, [e], parse) == Step(s, e, parse)
  {
    assert [e][..0] == [] && RunFrom(s, [], parse) == s;
  }

  /** Disposed, and no request is connecting any more. */
  predicate Quiet(s: State) {
    s.disposed && s.awaiting == []
  }

  lemma {:induction false} HandleLinesSendsNothing(s: State, lines: seq<string>, parse: string -> Message)
    ensures var after := HandleLines(s, lines, parse);
            after.disposed == s.disposed && after.awaiting == s.awaiting && after.sent == s.sent
    decreases |lines|
  {
    if lines == [] {
    } else {
      HandleLinesSendsNothing(HandleMessage(s, parse(lines[0])), lines[1..], parse);
    }
  }

  lemma StepStaysQuiet(s: State, e: Event, parse: string -> Message)
    requires Quiet(s)
    ensures Quiet(Step(s, e, parse)) && Step(s, e, parse).sent == s.sent
  {
    if e.Receives? {
      HandleLinesSendsNothing(s, Lines(s.buffer + e.chunk), parse);
    }
  }

  lemma {:induction false} RunStaysQuiet(s: State, events: seq<Event>, parse: string -> Message)
    requires Quiet(s)
    ensures Quiet(RunFrom(s, events, parse)) && RunFrom(s, events, parse).sent == s.sent
    decreases |events|
  {
    if events == [] {
    } else {
      RunStaysQuiet(s, events[..|events| - 1], parse);
      StepStaysQuiet(RunFrom(s, events[..|events| - 1], parse), events[|events| - 1], parse);
    }
  }

  /** Disposal is checked only before connecting: after any run that ends with a disposal, some continuation sends a
      request exactly when one was still connecting at that moment. */
  lemma SentAfterDisposalExactlyWhen(events: seq<Event>, parse: string -> Message)
    ensures var s := Run(events + [Disposes], parse);
            (exists more :: RunFrom(s, more, parse).sent != s.sent) <==> s.awaiting != []
    ensures !Run(events, parse).disposed ==> Run(events + [Disposes], parse).awaiting == Run(events, parse).awaiting
  {
    var s := Run(events + [Disposes], parse);
    RunContinues(events, [Disposes], parse);
    RunOne(Run(events, parse), Disposes, parse);
    if s.awaiting == [] {
      forall more
        ensures RunFrom(s, more, parse).sent == s.sent
      {
        RunStaysQuiet(s, more, parse);
      }
    } else {
      RunKeepsInv(events + [Disposes], parse);
      SendsOneWaiting(s, parse);
    }
  }

  lemma SendsOneWaiting(s: State, parse: string -> Message)
    requires Inv(s) && s.awaiting != []
    ensures RunFrom(s, [Connects(0), Proceeds(0, 0)], parse).sent != s.sent
  {
    FreshIsDrawn(s.sent, s.sequence, s.awaiting[0]);
    assert [Connects(0), Proceeds(0, 0)][..1] == [Connects(0)];
    RunOne(s, Connects(0), parse);
    assert RequestId(s.sequence + 1) in Proceed(Connected(s, 0), 0, 0).sent;
  }

  /** Such a run: a switch is requested, the bridge is disposed, and the switch is sent all the same. */
  lemma SentAfterDisposal(parse: string -> Message) returns (events: seq<Event>)
    ensures var s := Run(events, parse); s.disposed && s.pending != []
  {
    events := [Requests(Switch), Disposes, Connects(1), Proceeds(0, 1)];
    var e1, e2, e3 := events[..1], events[..2], events[..3];
    assert e1[..0] == [] && e2[..1] == e1 && e3[..2] == e2 && events[..3] == e3;
    assert Run(e1, parse) == Request(Start, Switch);
    assert Run(e2, parse).awaiting == [Switch] && Run(e2, parse).disposed;
    assert Run(e3, parse).awaiting == [Switch] && Run(e3, parse).disposed;
  }

  // ---- Chunks in a run ----

  lemma StepLeavesNoLine(s: State, e: Event, parse: string -> Message)
    requires NewlineAt(s.buffer) == |s.buffer|
    ensures NewlineAt(Step(s, e, parse).buffer) == |Step(s, e, parse).buffer|
  {
    if e.Receives? {
      RestHasNoLine(s.buffer + e.chunk);
    }
  }

  /** Between events the buffer never holds a complete line. */
  lemma {:induction false} RunLeavesNoLine(events: seq<Event>, parse: string -> Message)
    ensures NewlineAt(Run(events, parse).buffer) == |Run(events, parse).buffer|
  {
    if events == [] {
    } else {
      RunLeavesNoLine(events[..|events| - 1], parse);
      StepLeavesNoLine(Run(events[..|events| - 1], parse), events[|events| - 1], parse);
    }
  }

  function ReceivesEach(chunks: seq<string>): seq<Event> {
    seq(|chunks|, i requires 0 <= i < |chunks| => Receives(chunks[i]))
  }

  lemma {:induction false} ReceivingIsFeeding(s: State, chunks: seq<string>, parse: string -> Message)
    ensures RunFrom(s, ReceivesEach(chunks), parse) == Feed(s, chunks, parse)
  {
    if chunks == [] {
    } else {
      var events := ReceivesEach(chunks);
      assert events[..|events| - 1] == ReceivesEach(chunks[..|chunks| - 1]);
      ReceivingIsFeeding(s, chunks[..|chunks| - 1], parse);
    }
  }

  /** At any point of any run, a text has the same effect however the socket cuts it into chunks. */
  lemma ChunkingDoesNotMatterInAnyRun(events: seq<Event>, chunks: seq<string>, parse: string -> Message)
    ensures Run(events + ReceivesEach(chunks), parse) == Run(events + [Receives(Join(chunks))], parse)
  {
    var s := Run(events, parse);
    RunLeavesNoLine(events, parse);
    ReceivingIsFeeding(s, chunks, parse);
    ChunkingDoesNotMatter(s, chunks, parse);
    RunContinues(events, ReceivesEach(chunks), parse);
    RunContinues(events, [Receives(Join(chunks))], parse);
    RunOne(s, Receives(Join(chunks)), parse);
  }

  /** A cancellation is written only for a mutation that timed out and so is uncertain. */
  ghost predicate CancelsFit(s: State) {
    forall i | 0 <= i < |s.cancels| ::
      s.cancels[i] in s.sent && Mutation(s.sent[s.cancels[i]]) && Settlement(s.cancels[i], Uncertain) in s.settled
  }

  lemma {:induction false} HandleLinesCancelsNothing(s: State, lines: seq<string>, parse: string -> Message)
    ensures var after := HandleLines(s, lines, parse);
            after.cancels == s.cancels && after.sent == s.sent && forall x <- s.settled :: x in after.settled
    decreases |lines|
  {
    if lines == [] {
    } else {
      HandleLinesCancelsNothing(HandleMessage(s, parse(lines[0])), lines[1..], parse);
    }
  }

  lemma StepKeepsCancels(s: State, e: Event, parse: string -> Message)
    requires Inv(s) && CancelsFit(s)
    ensures CancelsFit(Step(s, e, parse))
  {
    match e
    case Receives(chunk) => HandleLinesCancelsNothing(s, Lines(s.buffer + chunk), parse);
    case TimesOut(id) => TimeoutKeepsCancels(s, id);
    case Requests(_) =>
    case Proceeds(_, _) => ProceedKeepsSent(s, e.i, e.socket);
    case FailsToConnect(_) =>
    case Connects(_) =>
    case Closes(_) =>
    case Disposes =>
  }

  lemma TimeoutKeepsCancels(s: State, id: string)
    requires Inv(s) && CancelsFit(s)
    ensures CancelsFit(Timeout(s, id))
  {
    var i := IndexOf(s.pending, id);
    if id in s.timers && i < |s.pending| && Mutation(s.pending[i].rpc) {
      assert s.sent[id] == s.pending[i].rpc;
      assert Timeout(s, id).settled[|s.settled|] == Settlement(id, Uncertain);
    }
  }

  lemma ProceedKeepsSent(s: State, i: nat, socket: nat)
    requires Inv(s)
    ensures var after := Proceed(s, i, socket);
            after.cancels == s.cancels && after.settled == s.settled
            && forall id | id in s.sent :: id in after.sent && after.sent[id] == s.sent[id]
  {
    FreshIsDrawn(s.sent, s.sequence, Switch);
  }

  lemma {:induction false} RunKeepsCancels(events: seq<Event>, parse: string -> Message)
    ensures CancelsFit(Run(events, parse))
  {
    if events == [] {
    } else {
      var init := events[..|events| - 1];
      RunKeepsCancels(init, parse);
      RunKeepsInv(init, parse);
      StepKeepsCancels(Run(init, parse), events[|events| - 1], parse);
    }
  }

  // ---- Written lines are read back ----

  /** Lines as the peer writes them, ended by a newline or by a carriage return and a newline. */
  function Written(lines: seq<string>, cr: bool): string {
    if lines == [] then "" else lines[0] + (if cr then "\r\n" else "\n") + Written(lines[1..], cr)
  }

  /** A line that can be framed: not empty, no newline inside, no carriage return at its end. */
  predicate Framed(line: string) {
    line != "" && '\n' !in line && line[|line| - 1] != '\r'
  }

  lemma {:induction false} NewlineAfter(line: string, rest: string)
    requires '\n' !in line
    ensures NewlineAt(line + "\n" + rest) == |line|
  {
    var text := line + "\n" + rest;
    assert text[|line|] == '\n';
    assert forall j | 0 <= j < |line| :: text[j] == line[j] && line[j] in line;
    var i := NewlineAt(text);
    assert i <= |line|;
  }

  /** One framed line, its line end, and what follows. */
  lemma OneLineIsRead(line: string, cr: bool, tail: string)
    requires Framed(line)
    ensures var text := line + (if cr then "\r\n" else "\n") + tail;
            Lines(text) == [line] + Lines(tail) && Rest(text) == Rest(tail)
  {
    var ended := if cr then line + "\r" else line;
    var text := ended + "\n" + tail;
    assert text == line + (if cr then "\r\n" else "\n") + tail;
    NewlineAfter(ended, tail);
    assert text[..|ended|] == ended && text[|ended| + 1..] == tail;
    FirstLine(text, |ended|, tail);
    TrimmedLine(line, cr);
  }

  /** Framed lines, written with either line end, are read back unchanged. */
  lemma {:induction false} WrittenLinesAreRead(lines: seq<string>, cr: bool)
    requires forall i | 0 <= i < |lines| :: Framed(lines[i])
    ensures Lines(Written(lines, cr)) == lines && Rest(Written(lines, cr)) == ""
  {
    if lines == [] {
      NoLine("");
    } else {
      WrittenLinesAreRead(lines[1..], cr);
      OneLineIsRead(lines[0], cr, Written(lines[1..], cr));
    }
  }

  lemma TrimmedLine(line: string, cr: bool)
    requires Framed(line)
    ensures Line(if cr then line + "\r" else line) == [line]
  {
    if cr {
      assert (line + "\r")[..|line|] == line;
    }
  }

  // ---- The bridge ----

  lemma RejectedPrefix(pending: seq<Entry>, i: nat)
    requires i < |pending|
    ensures RejectedAll(pending[..i + 1]) == RejectedAll(pending[..i]) + [Settlement(pending[i].id, LostOutcome(pending[i].rpc))]
    ensures IdsOf(pending[..i + 1]) == IdsOf(pending[..i]) + {pending[i].id}
  {
    assert pending[..i + 1] == pending[..i] + [pending[i]];
  }

  /** Handling every complete line of the buffer. */
  function Drained(s: State, parse: string -> Message): State {
    HandleLines(s, Lines(s.buffer), parse).(buffer := Rest(s.buffer))
  }

  lemma DataDrains(s: State, chunk: string, parse: string -> Message)
    ensures Data(s, chunk, parse) == Drained(s.(buffer := s.buffer + chunk), parse)
  {
    HandleLinesIgnoresBuffer(s, Lines(s.buffer + chunk), parse, s.buffer + chunk);
  }

  lemma DrainedWithoutLine(s: State, parse: string -> Message)
    requires NewlineAt(s.buffer) == |s.buffer|
    ensures Drained(s, parse) == s
  {
    NoLine(s.buffer);
  }

  /** The state after a line has left the buffer and, if it is not empty, was handled. */
  function AfterLine(s: State, line: string, tail: string, parse: string -> Message): State {
    if line == "" then s.(buffer := tail) else HandleMessage(s.(buffer := tail), parse(line))
  }

  lemma HandleOne(s: State, line: string, lines: seq<string>, parse: string -> Message)
    ensures HandleLines(s, [line] + lines, parse) == HandleLines(HandleMessage(s, parse(line)), lines, parse)
  {
    assert ([line] + lines)[1..] == lines;
  }

  lemma DrainPastEmpty(s: State, tail: string, parse: string -> Message)
    requires Lines(s.buffer) == Lines(tail) && Rest(s.buffer) == Rest(tail)
    ensures Drained(s.(buffer := tail), parse) == Drained(s, parse)
  {
    HandleLinesIgnoresBuffer(s, Lines(tail), parse, tail);
  }

  lemma DrainPastLine(s: State, line: string, tail: string, parse: string -> Message)
    requires Lines(s.buffer) == [line] + Lines(tail) && Rest(s.buffer) == Rest(tail)
    ensures Drained(HandleMessage(s.(buffer := tail), parse(line)), parse) == Drained(s, parse)
  {
    HandleOne(s, line, Lines(tail), parse);
    HandleLinesIgnoresBuffer(HandleMessage(s, parse(line)), Lines(tail), parse, tail);
    assert HandleMessage(s.(buffer := tail), parse(line)) == HandleMessage(s, parse(line)).(buffer := tail);
  }

  lemma HandleFirst(s: State, i: nat, line: string, tail: string, parse: string -> Message)
    requires i == NewlineAt(s.buffer) < |s.buffer|
    requires line == TrimCr(s.buffer[..i]) && tail == s.buffer[i + 1..]
    ensures Drained(AfterLine(s, line, tail, parse), parse) == Drained(s, parse)
  {
    FirstLine(s.buffer, i, tail);
    if line == "" {
      Regroup([], [], Lines(tail));
      DrainPastEmpty(s, tail, parse);
    } else {
      DrainPastLine(s, line, tail, parse);
    }
  }

  class Bridge {
    var disposed: bool
    var socket: Option<nat>
    var live: set<nat>
    var inputBuffer: string
    var requestSequence: nat
    var awaiting: seq<Method>
    var pending: seq<Entry>
    var timers: set<string>
    var sent: map<string, Method>
    var settled: seq<Settlement>
    var replies: set<(string, bool)>
    var cancels: seq<string>

    constructor ()
      ensures Contents() == Start && Inv(Contents())
    {
      disposed, socket, live, inputBuffer, requestSequence, awaiting := false, None, {}, "", 0, [];
      pending, timers, sent, settled, replies, cancels := [], {}, map[], [], {}, [];
      new;
      RunKeepsInv([], line => Message(None, false, false));
    }

    function Contents(): State
      reads this
    {
      State(disposed, socket, live, inputBuffer, requestSequence, awaiting, pending, timers, sent, settled, replies, cancels)
    }

    /** The part of a request after its connection is there. */
    method Send(i: nat, connected: nat) returns (id: string)
      requires i < |awaiting|
      modifies this
      ensures Contents() == Proceed(old(Contents()), i, connected)
      ensures id in timers && id == RequestId(requestSequence)
      ensures old(Inv(Contents())) ==> Inv(Contents())
    {
      ghost var before := Contents();
      if Inv(before) {
        ProceedKeepsInv(before, i, connected);
      }
      requestSequence := requestSequence + 1;
      id := RequestId(requestSequence);
      var rpc := awaiting[i];
      awaiting := awaiting[..i] + awaiting[i + 1..];
      timers := timers + {id};
      pending := pending + [Entry(id, rpc, connected)];
      sent := sent[id := rpc];
    }

    method OnTimeout(id: string)
      requires id in timers
      modifies this
      ensures Contents() == Timeout(old(Contents()), id)
      ensures old(Inv(Contents())) ==> Inv(Contents())
    {
      ghost var before := Contents();
      if Inv(before) {
        TimeoutKeepsInv(before, id);
      }
      var i := IndexOf(pending, id);
      if i == |pending| {
        return;
      }
      var e := pending[i];
      pending := Without(pending, i);
      timers := timers - {id};
      if e.socket in live && Mutation(e.rpc) {
        cancels := cancels + [id];
      }
      settled := settled + [Settlement(id, if Mutation(e.rpc) then Uncertain else Failed)];
    }

    method HandleLine(message: Message)
      modifies this
      ensures Contents() == HandleMessage(old(Contents()), message)
      ensures message.id.Some? && !message.hasMethod && message.id.value in EntryIds(old(pending)) ==>
                settled == old(settled) + [Settlement(message.id.value, Replied(message.ok))]
      ensures message.id == None || message.hasMethod || message.id.value !in EntryIds(old(pending)) ==>
                settled == old(settled) && pending == old(pending) && timers == old(timers)
    {
      if message.id == None {
        return;
      }
      var id := message.id.value;
      if !message.hasMethod {
        replies := replies + {(id, message.ok)};
      }
      var i := IndexOf(pending, id);
      assert i < |pending| ==> EntryIds(pending)[i] == id;
      if i < |pending| && !message.hasMethod {
        pending := Without(pending, i);
        timers := timers - {id};
        settled := settled + [Settlement(id, Replied(message.ok))];
      }
    }

    method ReadFirstLine(newline: nat, parse: string -> Message)
      requires newline == NewlineAt(inputBuffer) < |inputBuffer|
      modifies this
      ensures Contents() == AfterLine(old(Contents()), TrimCr(old(inputBuffer)[..newline]), old(inputBuffer)[newline + 1..], parse)
      ensures |inputBuffer| < |old(inputBuffer)|
    {
      var line := TrimCr(inputBuffer[..newline]);
      inputBuffer := inputBuffer[newline + 1..];
      if |line| > 0 {
        HandleLine(parse(line));
      }
    }

    method OnData(chunk: string, parse: string -> Message)
      modifies this
      ensures Contents() == Data(old(Contents()), chunk, parse)
      ensures old(Inv(Contents())) ==> Inv(Contents())
    {
      ghost var before := Contents();
      if Inv(before) {
        DataKeepsInv(before, chunk, parse);
      }
      DataDrains(before, chunk, parse);
      inputBuffer := inputBuffer + chunk;
      var newline := NewlineAt(inputBuffer);
      while newline < |inputBuffer|
        invariant newline == NewlineAt(inputBuffer)
        invariant Drained(Contents(), parse) == Data(before, chunk, parse)
        decreases |inputBuffer|
      {
        HandleFirst(Contents(), newline, TrimCr(inputBuffer[..newline]), inputBuffer[newline + 1..], parse);
        ReadFirstLine(newline, parse);
        newline := NewlineAt(inputBuffer);
      }
      DrainedWithoutLine(Contents(), parse);
    }

    method RejectAll()
      modifies this
      ensures Contents() == RejectPending(old(Contents()))
    {
      var i := 0;
      while i < |pending|
        invariant 0 <= i <= |pending|
        invariant settled == old(settled) + RejectedAll(pending[..i]) && timers == old(timers) - IdsOf(pending[..i])
        invariant unchanged(`disposed, `socket, `live, `inputBuffer, `requestSequence, `awaiting)
        invariant unchanged(`pending, `sent, `replies, `cancels)
      {
        RejectedPrefix(pending, i);
        var e := pending[i];
        timers := timers - {e.id};
        settled := settled + [Settlement(e.id, if Mutation(e.rpc) then Uncertain else Failed)];
        i := i + 1;
      }
      assert pending[..|pending|] == pending;
      pending := [];
    }

    method OnClose(closed: nat)
      modifies this
      ensures Contents() == Closed(old(Contents()), closed)
      ensures old(Inv(Contents())) ==> Inv(Contents()) && pending == []
    {
      ghost var before := Contents();
      if Inv(before) {
        ClosedKeepsInv(before, closed);
      }
      live := live - {closed};
      if socket == Some(closed) {
        socket := None;
      }
      inputBuffer := "";
      RejectAll();
    }

    method DisposeBridge()
      modifies this
      ensures Contents() == Dispose(old(Contents()))
      ensures disposed && (old(disposed) || pending == [])
      ensures old(Inv(Contents())) ==> Inv(Contents())
    {
      ghost var before := Contents();
      if Inv(before) {
        DisposeKeepsInv(before);
      }
      if disposed {
        return;
      }
      disposed := true;
      if socket.Some? {
        live := live - {socket.value};
      }
      socket := None;
      RejectAll();
    }
  }
}

/**
 What an agent run emits: messages, events, and the grammar of a run as a small
 automaton that reads the events one by one.
 */
module AgentEvents {

  import opened Common

  datatype ToolCall = ToolCall(id: string, name: string)

  datatype StopReason = Stop | ToolUse | Failed | Aborted

  /** `User` stands for user messages, `Custom` for the ones a host defines. */
  datatype Message =
    | User(text: string)
    | Custom(text: string)
    | Assistant(text: string, toolCalls: seq<ToolCall>, stopReason: StopReason)
    | ToolResult(callId: string, content: string, isError: bool)

  /** Messages that are prompted or queued; the assistant's come from the provider. */
  type Input = m: Message | !m.Assistant? witness User("")

  datatype ExecutionMode = Sequential | Parallel

  datatype Event =
    | AgentStart
    | TurnStart
    | MessageStart(message: Message)
    | MessageUpdate(message: Message)
    | MessageEnd(message: Message)
    | ToolExecutionStart(id: string)
    | ToolExecutionUpdate(id: string)
    | ToolExecutionEnd(id: string, terminate: bool)
    | TurnEnd(message: Message, toolResults: seq<Message>)
    | AgentEnd(messages: seq<Message>)

  /** An event together with what the agent and the loop held when it was emitted. */
  datatype Observation = Observation(
    event: Event,
    newMessages: seq<Message>,
    context: seq<Message>,
    transcript: seq<Message>,
    pending: set<string>,
    aborted: bool)

  /** How the agent executes tools. */
  datatype Setup = Setup(tools: map<string, ExecutionMode>, toolExecution: ExecutionMode) {
    /** Neither the agent nor a tool that is called wants one call at a time. */
    predicate MayOverlap(calls: seq<ToolCall>) {
      && toolExecution == Parallel
      && forall k :: 0 <= k < |calls| && calls[k].name in tools ==> tools[calls[k].name] == Parallel
    }

    /** Calls of tools that there are not have errors for results. */
    predicate FailsUnknown(calls: seq<ToolCall>, results: seq<Message>) {
      forall k :: 0 <= k < |calls| && k < |results| && calls[k].name !in tools ==>
                    results[k].ToolResult? && results[k].isError
    }
  }

  // ---- The grammar -----------------------------------------------------------------

  /**
   The tool calls of one assistant message: how many started, which are open, what came
   back, and whether every result so far asks for the run to end here.
   */
  datatype Batch = Batch(
    assistant: Message,
    started: nat,
    running: multiset<string>,
    results: seq<Message>,
    terminating: bool)

  function NewBatch(assistant: Message): Batch {
    Batch(assistant, 0, multiset{}, [], true)
  }

  /** Results came in that the model has to see. */
  predicate Owes(b: Batch) {
    b.started > 0 && !b.terminating
  }

  datatype Phase =
    | Before                                  // nothing emitted
    | Between(turns: nat, owes: bool)         // a turn may start, or the run end
    | Stopping(turns: nat)                    // an aborted or failed turn is the last
    | Messages(turns: nat)                    // in a turn, before the assistant speaks
    | InMessage(turns: nat, message: Message)
    | Streaming(turns: nat)
    | Tools(turns: nat, batch: Batch)
    | InResult(turns: nat, batch: Batch, result: Message)
    | Done(turns: nat, owes: bool)
    | Bad

  predicate Broken(m: Message) {
    m.Assistant? && (m.stopReason == Failed || m.stopReason == Aborted)
  }

  function Calls(m: Message): (calls: seq<ToolCall>) {
    if m.Assistant? then m.toolCalls else []
  }

  /** One event of: agent_start (turn_start messages assistant tools turn_end)+ agent_end. */
  function Step(p: Phase, e: Event, aborted: bool): Phase {
    match p
    case Before => if e.AgentStart? then Between(0, false) else Bad
    case Between(n, owes) =>
      if e.TurnStart? then Messages(n)
      else if e.AgentEnd? && 0 < n then Done(n, owes)
      else Bad
    case Stopping(n) => if e.AgentEnd? then Done(n, true) else Bad
    case Messages(n) =>
      if !e.MessageStart? then Bad
      else if e.message.Assistant? then Streaming(n)
      else InMessage(n, e.message)
    case InMessage(n, m) => if e == MessageEnd(m) then Messages(n) else Bad
    case Streaming(n) =>
      if e.MessageUpdate? then p
      else if e.MessageEnd? && e.message.Assistant? then Tools(n, NewBatch(e.message))
      else Bad
    case Tools(n, b) =>
      if e.TurnEnd? then
        if e.message == b.assistant && e.toolResults == b.results && |b.results| == b.started && b.running == multiset{}
        then (if aborted || Broken(e.message) then Stopping(n + 1) else Between(n + 1, Owes(b))) else Bad
      else if e.MessageStart? then
        if Answers(b, e.message) then InResult(n, b, e.message) else Bad
      else StepCall(n, b, e)
    case InResult(n, b, r) =>
      if e == MessageEnd(r) then Tools(n, b.(results := b.results + [r])) else Bad
    case Done(_, _) => Bad
    case Bad => Bad
  }

  /** Calls start in source order; only open calls report and end. */
  function StepCall(n: nat, b: Batch, e: Event): Phase {
    match e
    case ToolExecutionStart(id) =>
      if b.started < |Calls(b.assistant)| && Calls(b.assistant)[b.started].id == id && !Broken(b.assistant)
      then Tools(n, b.(started := b.started + 1, running := b.running + multiset{id})) else Bad
    case ToolExecutionUpdate(id) => if id in b.running then Tools(n, b) else Bad
    case ToolExecutionEnd(id, terminate) =>
      if id in b.running
      then Tools(n, b.(running := b.running - multiset{id}, terminating := b.terminating && terminate)) else Bad
    case _ => Bad
  }

  /** Results come in source order, once no call is open. */
  predicate Answers(b: Batch, r: Message) {
    && |b.results| < b.started <= |Calls(b.assistant)|
    && r.ToolResult? && r.callId == Calls(b.assistant)[|b.results|].id
    && b.running == multiset{}
  }

  function Running(p: Phase): multiset<string> {
    if p.Tools? || p.InResult? then p.batch.running else multiset{}
  }

  function PhaseOf(trace: seq<Observation>): Phase {
    if trace == [] then Before
    else Step(PhaseOf(trace[..|trace| - 1]), trace[|trace| - 1].event, trace[|trace| - 1].aborted)
  }

  /** The messages completed so far. */
  function Ended(trace: seq<Observation>): seq<Message> {
    if trace == [] then []
    else
      var e := trace[|trace| - 1].event;
      Ended(trace[..|trace| - 1]) + if e.MessageEnd? then [e.message] else []
  }

  /** What has a start and an end. */
  datatype Kind = ARun | ATurn | AMessage | AResponse

  predicate Opens(e: Event, kind: Kind) {
    match kind
    case ARun => e.AgentStart?
    case ATurn => e.TurnStart?
    case AMessage => e.MessageStart?
    case AResponse => e.MessageStart? && e.message.Assistant?
  }

  predicate Closes(e: Event, kind: Kind) {
    match kind
    case ARun => e.AgentEnd?
    case ATurn => e.TurnEnd?
    case AMessage => e.MessageEnd?
    case AResponse => e.MessageEnd? && e.message.Assistant?
  }

  function CountOpened(trace: seq<Observation>, kind: Kind): nat {
    if trace == [] then 0
    else CountOpened(trace[..|trace| - 1], kind) + if Opens(trace[|trace| - 1].event, kind) then 1 else 0
  }

  function CountClosed(trace: seq<Observation>, kind: Kind): nat {
    if trace == [] then 0
    else CountClosed(trace[..|trace| - 1], kind) + if Closes(trace[|trace| - 1].event, kind) then 1 else 0
  }

  /** A whole run. */
  predicate Accepted(trace: seq<Observation>) {
    PhaseOf(trace).Done?
  }

  // ---- What every turn's end shows ---------------------------------------------------------

  /**
   When a turn ends, the messages completed in this run (`ended`), the loop's new messages,
   its context and the agent's transcript agree; no call is pending; calls of unknown tools
   have failed; and results are missing only for a broken message, or where an abort stopped
   one-by-one execution.
   */
  predicate TurnAgrees(o: Observation, ended: seq<Message>, base: seq<Message>, setup: Setup) {
    o.event.TurnEnd? ==>
      && o.newMessages == ended
      && o.context == base + ended
      && o.transcript == base + ended
      && o.pending == {}
      && setup.FailsUnknown(Calls(o.event.message), o.event.toolResults)
      && (Broken(o.event.message) ==> o.event.toolResults == [])
      && (!Broken(o.event.message) && |o.event.toolResults| < |Calls(o.event.message)| ==>
            o.aborted && !setup.MayOverlap(Calls(o.event.message)))
  }

  /** A tool starts while another is open only where overlapping is allowed. */
  predicate StartsWell(p: Phase, e: Event, setup: Setup) {
    e.ToolExecutionStart? && Running(p) != multiset{} ==> setup.MayOverlap(Calls(p.batch.assistant))
  }

  predicate Agrees(trace: seq<Observation>, base: seq<Message>, setup: Setup) {
    trace == [] ||
    (var init := trace[..|trace| - 1];
     && Agrees(init, base, setup)
     && TurnAgrees(trace[|trace| - 1], Ended(init), base, setup)
     && StartsWell(PhaseOf(init), trace[|trace| - 1].event, setup))
  }

  lemma {:induction false} AgreesAtEveryTurn(trace: seq<Observation>, base: seq<Message>, setup: Setup, k: nat)
    requires Agrees(trace, base, setup) && k < |trace|
    ensures TurnAgrees(trace[k], Ended(trace[..k]), base, setup)
    ensures StartsWell(PhaseOf(trace[..k]), trace[k].event, setup)
    decreases |trace|
  {
    var init := trace[..|trace| - 1];
    if k < |init| {
      AgreesAtEveryTurn(init, base, setup, k);
      assert init[..k] == trace[..k];
    }
  }

  /** What one more event adds. */
  lemma Extend(trace: seq<Observation>, o: Observation, base: seq<Message>, setup: Setup)
    ensures PhaseOf(trace + [o]) == Step(PhaseOf(trace), o.event, o.aborted)
    ensures Ended(trace + [o]) == Ended(trace) + if o.event.MessageEnd? then [o.event.message] else []
    ensures CountClosed(trace + [o], ARun) == CountClosed(trace, ARun) + if o.event.AgentEnd? then 1 else 0
    ensures Agrees(trace + [o], base, setup) <==>
              && Agrees(trace, base, setup)
              && TurnAgrees(o, Ended(trace), base, setup)
              && StartsWell(PhaseOf(trace), o.event, setup)
  {
    assert (trace + [o])[..|trace|] == trace;
  }

  // ---- What acceptance means ------------------------------------------------------------

  lemma {:induction false} BadStaysBad(trace: seq<Observation>, k: nat)
    requires k <= |trace| && PhaseOf(trace) != Bad
    ensures PhaseOf(trace[..k]) != Bad
    decreases |trace|
  {
    if k < |trace| {
      var init := trace[..|trace| - 1];
      BadStaysBad(init, k);
      assert init[..k] == trace[..k];
    } else {
      assert trace[..k] == trace;
    }
  }

  lemma GoodStep(trace: seq<Observation>, k: nat)
    requires PhaseOf(trace) != Bad && k < |trace|
    ensures PhaseOf(trace[..k]) != Bad
    ensures Step(PhaseOf(trace[..k]), trace[k].event, trace[k].aborted) != Bad
  {
    BadStaysBad(trace, k);
    BadStaysBad(trace, k + 1);
    assert trace[..k + 1][..k] == trace[..k];
  }

  /** The run ends once, last, after at least one turn. */
  lemma {:induction false} EndsOnceAndLast(trace: seq<Observation>)
    requires PhaseOf(trace) != Bad
    ensures CountClosed(trace, ARun) == if Accepted(trace) then 1 else 0
    ensures Accepted(trace) ==> trace != [] && trace[|trace| - 1].event.AgentEnd? && 0 < PhaseOf(trace).turns
    ensures PhaseOf(trace).Stopping? ==> 0 < PhaseOf(trace).turns
    decreases |trace|
  {
    if trace != [] {
      EndsOnceAndLast(trace[..|trace| - 1]);
    }
  }

  /** A turn that was aborted or whose message is broken is followed by nothing but the end. */
  lemma AbortedTurnIsLast(trace: seq<Observation>, k: nat)
    requires PhaseOf(trace) != Bad && k + 1 < |trace| && trace[k].event.TurnEnd?
    requires trace[k].aborted || Broken(trace[k].event.message)
    ensures trace[k + 1].event.AgentEnd?
  {
    GoodStep(trace, k);
    GoodStep(trace, k + 1);
    assert trace[..k + 1][..k] == trace[..k];
  }

  // ---- Brackets ---------------------------------------------------------------------------

  predicate Inside(p: Phase, kind: Kind) {
    match kind
    case ARun => !p.Before? && !p.Done?
    case ATurn => p.Messages? || p.InMessage? || p.Streaming? || p.Tools? || p.InResult?
    case AMessage => p.InMessage? || p.Streaming? || p.InResult?
    case AResponse => p.Streaming?
  }

  function TurnsEnded(p: Phase): nat
    requires p != Bad
  {
    if p.Before? then 0 else p.turns
  }

  /** The response of the turn is there. */
  predicate Answered(p: Phase) { p.Tools? || p.InResult? }

  predicate OthersSpeak(p: Phase) {
    (p.InMessage? ==> !p.message.Assistant?) && (p.InResult? ==> !p.result.Assistant?)
  }

  lemma StepBrackets(p: Phase, e: Event, aborted: bool, kind: Kind)
    requires Step(p, e, aborted) != Bad && OthersSpeak(p)
    ensures var q := Step(p, e, aborted);
            && OthersSpeak(q)
            && (Opens(e, kind) ==> !Inside(p, kind) && Inside(q, kind))
            && (Closes(e, kind) ==> Inside(p, kind) && !Inside(q, kind))
            && (!Opens(e, kind) && !Closes(e, kind) ==> Inside(p, kind) == Inside(q, kind))
  {
    if p.Tools? && !e.TurnEnd? && !e.MessageStart? {
      assert Step(p, e, aborted) == StepCall(p.turns, p.batch, e);
    }
  }

  lemma StepCounts(p: Phase, e: Event, aborted: bool)
    requires Step(p, e, aborted) != Bad && OthersSpeak(p)
    ensures var q := Step(p, e, aborted);
            && TurnsEnded(q) == TurnsEnded(p) + (if Closes(e, ATurn) then 1 else 0)
            && Answered(q) == ((Answered(p) || Closes(e, AResponse)) && !Closes(e, ATurn))
            && (Closes(e, AResponse) ==> !Answered(p)) && (Closes(e, ATurn) ==> Answered(p))
  {
    if p.Tools? && !e.TurnEnd? && !e.MessageStart? {
      assert Step(p, e, aborted) == StepCall(p.turns, p.batch, e);
    }
  }

  /** At any point as many of a kind were opened as closed, but for one where one is open. */
  lemma {:induction false} Brackets(trace: seq<Observation>, kind: Kind)
    requires PhaseOf(trace) != Bad
    ensures CountOpened(trace, kind) == CountClosed(trace, kind) + if Inside(PhaseOf(trace), kind) then 1 else 0
    ensures OthersSpeak(PhaseOf(trace))
    decreases |trace|
  {
    if trace != [] {
      Brackets(trace[..|trace| - 1], kind);
      StepBrackets(PhaseOf(trace[..|trace| - 1]), trace[|trace| - 1].event, trace[|trace| - 1].aborted, kind);
    }
  }

  /** Starts and ends alternate: what starts was not open, and what ends was. */
  lemma BracketsAlternate(trace: seq<Observation>, k: nat, kind: Kind)
    requires PhaseOf(trace) != Bad && k < |trace|
    ensures Opens(trace[k].event, kind) ==> CountOpened(trace[..k], kind) == CountClosed(trace[..k], kind)
    ensures Closes(trace[k].event, kind) ==> CountOpened(trace[..k], kind) == CountClosed(trace[..k], kind) + 1
  {
    GoodStep(trace, k);
    Brackets(trace[..k], kind);
    StepBrackets(PhaseOf(trace[..k]), trace[k].event, trace[k].aborted, kind);
  }

  lemma IntoMessage(p: Phase, e: Event, aborted: bool)
    requires Step(p, e, aborted) != Bad
    ensures var q := Step(p, e, aborted);
            && (q.InMessage? ==> e == MessageStart(q.message))
            && (q.InResult? ==> e == MessageStart(q.result))
  {
    if p.Tools? && !e.TurnEnd? && !e.MessageStart? {
      assert Step(p, e, aborted) == StepCall(p.turns, p.batch, e);
    }
  }

  /** A message that is not the assistant's ends right after it starts. */
  lemma OthersEndAtOnce(trace: seq<Observation>, k: nat)
    requires PhaseOf(trace) != Bad && k < |trace|
    requires trace[k].event.MessageEnd? && !trace[k].event.message.Assistant?
    ensures 0 < k && trace[k - 1].event == MessageStart(trace[k].event.message)
  {
    GoodStep(trace, k);
    if 0 < k {
      GoodStep(trace, k - 1);
      assert trace[..k][..k - 1] == trace[..k - 1];
      IntoMessage(PhaseOf(trace[..k - 1]), trace[k - 1].event, trace[k - 1].aborted);
    }
  }

  lemma {:induction false} ResponsesCounted(trace: seq<Observation>)
    requires PhaseOf(trace) != Bad
    ensures CountClosed(trace, ATurn) == TurnsEnded(PhaseOf(trace))
    ensures CountClosed(trace, AResponse) == CountClosed(trace, ATurn) + if Answered(PhaseOf(trace)) then 1 else 0
    decreases |trace|
  {
    if trace != [] {
      var init, o := trace[..|trace| - 1], trace[|trace| - 1];
      ResponsesCounted(init);
      Brackets(init, AResponse);
      StepCounts(PhaseOf(init), o.event, o.aborted);
    }
  }

  /** Every turn has one response, which is there when the turn ends. */
  lemma OneResponseATurn(trace: seq<Observation>, k: nat)
    requires PhaseOf(trace) != Bad && k < |trace| && trace[k].event.TurnEnd?
    ensures CountClosed(trace[..k], AResponse) == CountClosed(trace[..k], ATurn) + 1
  {
    GoodStep(trace, k);
    ResponsesCounted(trace[..k]);
  }

  lemma {:induction false} RunStartsFirst(trace: seq<Observation>)
    requires PhaseOf(trace) != Bad && trace != []
    ensures trace[0].event.AgentStart? && CountOpened(trace, ARun) == 1 && !PhaseOf(trace).Before?
    decreases |trace|
  {
    var init, o := trace[..|trace| - 1], trace[|trace| - 1];
    if init == [] {
      assert trace[0] == o;
    } else {
      RunStartsFirst(init);
      Brackets(init, ARun);
      StepBrackets(PhaseOf(init), o.event, o.aborted, ARun);
    }
  }

  /** A whole run: agent_start comes first and once, what is started is ended, and turns and responses are as many. */
  lemma WholeRun(trace: seq<Observation>, kind: Kind)
    requires Accepted(trace)
    ensures trace != [] && trace[0].event.AgentStart? && CountOpened(trace, ARun) == 1
    ensures CountOpened(trace, kind) == CountClosed(trace, kind)
    ensures CountClosed(trace, AResponse) == CountClosed(trace, ATurn)
  {
    RunStartsFirst(trace);
    Brackets(trace, kind);
    ResponsesCounted(trace);
  }

  // ---- When the model is owed the results ----------------------------------------------------

  /** Every execution that ended in the last turn asks for the run to end. */
  predicate AskedToEnd(trace: seq<Observation>) {
    if trace == [] then true
    else
      var e := trace[|trace| - 1].event;
      e.TurnStart? || ((e.ToolExecutionEnd? ==> e.terminate) && AskedToEnd(trace[..|trace| - 1]))
  }

  /** What the grammar remembers of that. */
  predicate Remembers(p: Phase, asked: bool) {
    && (p.Messages? || p.InMessage? || p.Streaming? ==> asked)
    && (p.Tools? || p.InResult? ==> p.batch.terminating == asked)
  }

  lemma StepRemembers(p: Phase, e: Event, aborted: bool, asked: bool)
    requires Step(p, e, aborted) != Bad && Remembers(p, asked)
    ensures Remembers(Step(p, e, aborted), e.TurnStart? || ((e.ToolExecutionEnd? ==> e.terminate) && asked))
  {
    if p.Tools? && !e.TurnEnd? && !e.MessageStart? {
      assert Step(p, e, aborted) == StepCall(p.turns, p.batch, e);
    }
  }

  lemma {:induction false} BatchAsks(trace: seq<Observation>)
    requires PhaseOf(trace) != Bad
    ensures Remembers(PhaseOf(trace), AskedToEnd(trace))
    decreases |trace|
  {
    if trace != [] {
      var init, o := trace[..|trace| - 1], trace[|trace| - 1];
      BatchAsks(init);
      StepRemembers(PhaseOf(init), o.event, o.aborted, AskedToEnd(init));
    }
  }

  /** A turn owes the model its results exactly when there are some and not all executions asked for the end. */
  lemma OwesExactlyWhen(trace: seq<Observation>)
    requires trace != [] && trace[|trace| - 1].event.TurnEnd? && PhaseOf(trace).Between?
    ensures var init := trace[..|trace| - 1];
            PhaseOf(trace).owes <==> trace[|trace| - 1].event.toolResults != [] && !AskedToEnd(init)
  {
    BatchAsks(trace[..|trace| - 1]);
  }

  lemma IntoBetween(p: Phase, e: Event, aborted: bool)
    requires Step(p, e, aborted).Between? && Step(p, e, aborted).turns > 0
    ensures e.TurnEnd?
  {
  }

  lemma IntoDone(p: Phase, e: Event, aborted: bool)
    requires Step(p, e, aborted).Done? && !Step(p, e, aborted).owes
    ensures p.Between? && p.turns > 0 && !p.owes
  {
  }

  lemma AfterATurn(trace: seq<Observation>)
    requires PhaseOf(trace).Between? && PhaseOf(trace).turns > 0 && !PhaseOf(trace).owes
    ensures trace != [] && trace[|trace| - 1].event.TurnEnd?
    ensures trace[|trace| - 1].event.toolResults == [] || AskedToEnd(trace[..|trace| - 1])
  {
    var o := trace[|trace| - 1];
    IntoBetween(PhaseOf(trace[..|trace| - 1]), o.event, o.aborted);
    OwesExactlyWhen(trace);
  }

  /** A run that ends with nothing owed ends on a turn without results, or one whose executions all asked for it. */
  lemma EndsWithNothingOwed(trace: seq<Observation>)
    requires Accepted(trace) && !PhaseOf(trace).owes
    ensures |trace| >= 2 && trace[|trace| - 2].event.TurnEnd?
    ensures trace[|trace| - 2].event.toolResults == [] || AskedToEnd(trace[..|trace| - 2])
  {
    var init, o := trace[..|trace| - 1], trace[|trace| - 1];
    IntoDone(PhaseOf(init), o.event, o.aborted);
    AfterATurn(init);
    assert init[..|init| - 1] == trace[..|trace| - 2];
  }

  function Starts(trace: seq<Observation>, id: string): nat {
    if trace == [] then 0
    else Starts(trace[..|trace| - 1], id) + if trace[|trace| - 1].event == ToolExecutionStart(id) then 1 else 0
  }

  predicate EndsCall(e: Event, id: string) {
    e.ToolExecutionEnd? && e.id == id
  }

  function Ends(trace: seq<Observation>, id: string): nat {
    if trace == [] then 0
    else Ends(trace[..|trace| - 1], id) + if EndsCall(trace[|trace| - 1].event, id) then 1 else 0
  }

  lemma OneMore(m: multiset<string>, x: string, id: string)
    ensures (m + multiset{x})[id] == m[id] + (if x == id then 1 else 0)
  {
  }

  lemma OneLess(m: multiset<string>, x: string, id: string)
    requires x in m
    ensures (m - multiset{x})[id] + (if x == id then 1 else 0) == m[id]
  {
  }

  /** How one event changes what is running. */
  lemma StepRunning(p: Phase, e: Event, aborted: bool, id: string)
    requires Step(p, e, aborted) != Bad
    ensures Running(Step(p, e, aborted))[id] + (if EndsCall(e, id) then 1 else 0)
         == Running(p)[id] + (if e == ToolExecutionStart(id) then 1 else 0)
  {
    if p.Tools? && e.ToolExecutionStart? {
      assert Step(p, e, aborted) == StepCall(p.turns, p.batch, e);
      OneMore(p.batch.running, e.id, id);
    } else if p.Tools? && e.ToolExecutionEnd? {
      assert Step(p, e, aborted) == StepCall(p.turns, p.batch, e);
      OneLess(p.batch.running, e.id, id);
    }
  }

  /** At any point the running calls are those started and not yet ended. */
  lemma {:induction false} RunningIsStartedNotEnded(trace: seq<Observation>, id: string)
    requires PhaseOf(trace) != Bad
    ensures Starts(trace, id) == Ends(trace, id) + Running(PhaseOf(trace))[id]
    decreases |trace|
  {
    if trace != [] {
      var init, o := trace[..|trace| - 1], trace[|trace| - 1];
      RunningIsStartedNotEnded(init, id);
      StepRunning(PhaseOf(init), o.event, o.aborted, id);
    }
  }

  /** Every execution that starts ends: none is open when a turn ends, or when the run does. */
  lemma ExecutionsAreClosed(trace: seq<Observation>, k: nat, id: string)
    requires PhaseOf(trace) != Bad && k < |trace| && (trace[k].event.TurnEnd? || trace[k].event.AgentEnd?)
    ensures Starts(trace[..k], id) == Ends(trace[..k], id)
  {
    GoodStep(trace, k);
    RunningIsStartedNotEnded(trace[..k], id);
  }

  /**
   An execution starts while another is open only if the agent and every tool of the batch that
   is open allow it: a tool that is to run alone never overlaps another.
   */
  lemma OverlapIsAllowed(trace: seq<Observation>, base: seq<Message>, setup: Setup, k: nat, other: string)
    requires PhaseOf(trace) != Bad && Agrees(trace, base, setup) && k < |trace|
    requires trace[k].event.ToolExecutionStart? && Ends(trace[..k], other) < Starts(trace[..k], other)
    ensures PhaseOf(trace[..k]).Tools? && other in PhaseOf(trace[..k]).batch.running
    ensures setup.toolExecution == Parallel
    ensures var calls := Calls(PhaseOf(trace[..k]).batch.assistant);
            forall j :: 0 <= j < |calls| && calls[j].name in setup.tools ==> setup.tools[calls[j].name] == Parallel
  {
    GoodStep(trace, k);
    RunningIsStartedNotEnded(trace[..k], other);
    AgreesAtEveryTurn(trace, base, setup, k);
  }

  /** An update is only ever reported for an execution that is still open. */
  lemma NoUpdateAfterEnd(trace: seq<Observation>, k: nat, id: string)
    requires PhaseOf(trace) != Bad && k < |trace| && trace[k].event == ToolExecutionUpdate(id)
    ensures Ends(trace[..k], id) < Starts(trace[..k], id)
  {
    GoodStep(trace, k);
    RunningIsStartedNotEnded(trace[..k], id);
  }

  ghost predicate ResultsFor(results: seq<Message>, calls: seq<ToolCall>) {
    && |results| <= |calls|
    && forall j :: 0 <= j < |results| ==> results[j].ToolResult? && results[j].callId == calls[j].id
  }

  ghost predicate Orderly(p: Phase) {
    && (p.Tools? || p.InResult? ==> p.batch.started <= |Calls(p.batch.assistant)|
                                    && ResultsFor(p.batch.results, Calls(p.batch.assistant)))
    && (p.InResult? ==> |p.batch.results| < |Calls(p.batch.assistant)| && p.result.ToolResult?
                        && p.result.callId == Calls(p.batch.assistant)[|p.batch.results|].id)
  }

  lemma StepIsOrderly(p: Phase, e: Event, aborted: bool)
    requires Orderly(p)
    ensures Orderly(Step(p, e, aborted))
  {
    if p.Tools? && !e.TurnEnd? && !e.MessageStart? {
      assert Step(p, e, aborted) == StepCall(p.turns, p.batch, e);
    }
  }

  lemma {:induction false} ResultsFollowCalls(trace: seq<Observation>)
    ensures Orderly(PhaseOf(trace))
    decreases |trace|
  {
    if trace != [] {
      ResultsFollowCalls(trace[..|trace| - 1]);
      StepIsOrderly(PhaseOf(trace[..|trace| - 1]), trace[|trace| - 1].event, trace[|trace| - 1].aborted);
    }
  }

  /** The results of a turn answer its first tool calls, one each and in order. */
  lemma EndedTurnAnswers(p: Phase, e: Event, aborted: bool)
    requires Orderly(p) && e.TurnEnd? && Step(p, e, aborted) != Bad
    ensures ResultsFor(e.toolResults, Calls(e.message))
  {
  }

  lemma TurnResultsAnswerCalls(trace: seq<Observation>, k: nat)
    requires PhaseOf(trace) != Bad && k < |trace| && trace[k].event.TurnEnd?
    ensures ResultsFor(trace[k].event.toolResults, Calls(trace[k].event.message))
  {
    GoodStep(trace, k);
    ResultsFollowCalls(trace[..k]);
    EndedTurnAnswers(PhaseOf(trace[..k]), trace[k].event, trace[k].aborted);
  }

  /** A call of a tool there is not is answered with an error, in every turn that comes to answer it. */
  lemma UnknownToolsFail(trace: seq<Observation>, base: seq<Message>, setup: Setup, k: nat, j: nat)
    requires PhaseOf(trace) != Bad && Agrees(trace, base, setup) && k < |trace| && trace[k].event.TurnEnd?
    requires j < |trace[k].event.toolResults|
    ensures j < |Calls(trace[k].event.message)|
    ensures var call, result := Calls(trace[k].event.message)[j], trace[k].event.toolResults[j];
            result.ToolResult? && result.callId == call.id && (call.name !in setup.tools ==> result.isError)
  {
    TurnResultsAnswerCalls(trace, k);
    AgreesAtEveryTurn(trace, base, setup, k);
  }

  /** Every call of a turn is answered unless the message is broken or an abort cut one-by-one execution short. */
  lemma EveryCallAnswered(trace: seq<Observation>, base: seq<Message>, setup: Setup, k: nat)
    requires PhaseOf(trace) != Bad && Agrees(trace, base, setup) && k < |trace| && trace[k].event.TurnEnd?
    requires !Broken(trace[k].event.message)
    requires !trace[k].aborted || setup.MayOverlap(Calls(trace[k].event.message))
    ensures |trace[k].event.toolResults| == |Calls(trace[k].event.message)|
    ensures ResultsFor(trace[k].event.toolResults, Calls(trace[k].event.message))
  {
    TurnResultsAnswerCalls(trace, k);
    AgreesAtEveryTurn(trace, base, setup, k);
  }
}

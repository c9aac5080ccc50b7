/** The agent and its loop, with everything the code cannot see as a nondeterministic step. */
module AgentLoop {

  import opened Common
  import opened AgentEvents
  import opened AgentQueue

  // Nondeterministic are: what providers stream, what tools return and in which order they
  // finish, what hooks answer or throw, when somebody aborts, and what is queued meanwhile.

  /** How an awaited operation settles; `isAbort` tells abort errors from the others. */
  datatype Settled = Completed | Rejected(isAbort: bool)

  datatype Outcome<+T> = Returned(value: T) | Threw(isAbort: bool)

  datatype Finalized = Finalized(content: string, isError: bool, terminate: bool)

  datatype Entry = Executing | Executed(result: Finalized) | Closed(result: Finalized)

  /** Why the loop ended: a stop hook, a failed or aborted message, an abort, or nothing left to do. */
  datatype Ending = ByHook | ByMessage | ByAbort | Idle

  datatype Continued = Busy | NothingToContinue | Ran(outcome: Outcome<Ending>)

  function Last(messages: seq<Message>): Option<Message> {
    if messages == [] then None else Some(messages[|messages| - 1])
  }

  datatype Turned = Finished(why: Ending) | Next(hasMoreToolCalls: bool, pending: seq<Input>) | Failing(isAbort: bool)

  /** The record of a run: its events, and what the grammar makes of them. */
  datatype History = History(trace: seq<Observation>, phase: Phase, ended: seq<Message>, ends: nat) {
    ghost predicate Valid(base: seq<Message>, setup: Setup) {
      && phase == PhaseOf(trace)
      && ended == Ended(trace)
      && ends == CountClosed(trace, ARun)
      && Agrees(trace, base, setup)
    }

    ghost function Add(o: Observation): History {
      History(
        trace + [o],
        Step(phase, o.event, o.aborted),
        ended + if o.event.MessageEnd? then [o.event.message] else [],
        ends + if o.event.AgentEnd? then 1 else 0)
    }

    lemma AddKeepsValid(o: Observation, base: seq<Message>, setup: Setup)
      requires Recorded(this, base, setup) && TurnAgrees(o, ended, base, setup) && StartsWell(phase, o.event, setup)
      ensures Recorded(Add(o), base, setup)
    {
      assert Look(this);
      Extend(trace, o, base, setup);
    }
  }

  predicate Look(h: History) { true }

  /** A valid history; it is looked into only where that is asked for. */
  ghost predicate Recorded(h: History, base: seq<Message>, setup: Setup) {
    forall x {:trigger Look(x)} :: Look(x) && x == h ==> x.Valid(base, setup)
  }

  lemma WhatIsRecorded(h: History, base: seq<Message>, setup: Setup)
    requires Recorded(h, base, setup)
    ensures h.Valid(base, setup)
  {
    assert Look(h);
  }

  lemma NothingRecorded(base: seq<Message>, setup: Setup)
    ensures Recorded(History([], Before, [], 0), base, setup)
  {
  }

  lemma GrowsOn(a: seq<Message>, b: seq<Message>, c: seq<Message>)
    requires a <= b <= c
    ensures a <= c
  {
  }

  lemma ReplaceLast(base: seq<Message>, ended: seq<Message>, m: Message, final: Message)
    ensures (base + ended + [m])[|base + ended| := final] == base + (ended + [final])
    ensures (base + ended + [m])[|base + ended| := final] == base + ended + [final]
  {
  }

  ghost predicate AllRunning(pending: set<string>, p: Phase) {
    p == Bad || forall id :: id in pending ==> id in Running(p)
  }

  /** Reporting keeps the pending calls among the running ones. */
  lemma PendingStaysRunning(pending: set<string>, p: Phase, e: Event, aborted: bool)
    requires AllRunning(pending, p)
    ensures AllRunning(PendingAfter(pending, e), Step(p, e, aborted))
  {
    if Step(p, e, aborted) != Bad {
      forall id | id in PendingAfter(pending, e) ensures id in Running(Step(p, e, aborted)) {
        StepRunning(p, e, aborted, id);
      }
    }
  }

  function PendingAfter(pending: set<string>, e: Event): set<string> {
    if e.ToolExecutionStart? then pending + {e.id}
    else if e.ToolExecutionEnd? then pending - {e.id}
    else pending
  }

  function ToList(m: Option<Message>): seq<Message> {
    if m.Some? then [m.value] else []
  }

  /** The message that stands for an aborted response. */
  function AbortedMessage(partial: Option<Message>): (m: Message)
    ensures m.Assistant? && m.stopReason == Aborted
    ensures Calls(m) == if partial.Some? then Calls(partial.value) else []
    ensures m.text == if partial.Some? && partial.value.Assistant? then partial.value.text else ""
  {
    if partial.Some? && partial.value.Assistant?
    then Assistant(partial.value.text, partial.value.toolCalls, Aborted)
    else Assistant("", [], Aborted)
  }

  // ---- Tool calls of one batch ---------------------------------------------------------

  function OpenId(call: ToolCall, e: Entry): multiset<string> {
    if e.Closed? then multiset{} else multiset{call.id}
  }

  /** The ids still open among the first `n` calls. */
  function OpenUpTo(calls: seq<ToolCall>, entries: seq<Entry>, n: nat): multiset<string>
    requires n <= |entries| <= |calls|
  {
    if n == 0 then multiset{} else OpenUpTo(calls, entries, n - 1) + OpenId(calls[n - 1], entries[n - 1])
  }

  /** The ids still open among the calls entered so far. */
  function Open(calls: seq<ToolCall>, entries: seq<Entry>): multiset<string>
    requires |entries| <= |calls|
  {
    OpenUpTo(calls, entries, |entries|)
  }

  function OpenCount(calls: seq<ToolCall>, entries: seq<Entry>, n: nat, id: string): nat
    requires n <= |entries| <= |calls|
  {
    if n == 0 then 0
    else OpenCount(calls, entries, n - 1, id) + if !entries[n - 1].Closed? && calls[n - 1].id == id then 1 else 0
  }

  lemma CountOne(m: multiset<string>, call: ToolCall, e: Entry, id: string)
    ensures (m + OpenId(call, e))[id] == m[id] + if !e.Closed? && call.id == id then 1 else 0
  {
  }

  lemma {:induction false} OpenCounts(calls: seq<ToolCall>, entries: seq<Entry>, n: nat, id: string)
    requires n <= |entries| <= |calls|
    ensures OpenUpTo(calls, entries, n)[id] == OpenCount(calls, entries, n, id)
  {
    if n > 0 {
      OpenCounts(calls, entries, n - 1, id);
      CountOne(OpenUpTo(calls, entries, n - 1), calls[n - 1], entries[n - 1], id);
    }
  }

  lemma {:induction false} OpenIsCounted(calls: seq<ToolCall>, entries: seq<Entry>, n: nat, j: nat)
    requires j < n <= |entries| <= |calls| && !entries[j].Closed?
    ensures OpenCount(calls, entries, n, calls[j].id) > 0
  {
    if j < n - 1 {
      OpenIsCounted(calls, entries, n - 1, j);
    }
  }

  lemma OpenHas(calls: seq<ToolCall>, entries: seq<Entry>, n: nat, j: nat)
    requires j < n <= |entries| <= |calls| && !entries[j].Closed?
    ensures calls[j].id in OpenUpTo(calls, entries, n)
  {
    OpenIsCounted(calls, entries, n, j);
    OpenCounts(calls, entries, n, calls[j].id);
  }

  lemma {:induction false} SameOpen(calls: seq<ToolCall>, a: seq<Entry>, b: seq<Entry>, n: nat)
    requires n <= |a| <= |calls| && n <= |b| <= |calls| && forall k :: 0 <= k < n ==> a[k] == b[k]
    ensures OpenUpTo(calls, a, n) == OpenUpTo(calls, b, n)
  {
    if n > 0 {
      SameOpen(calls, a, b, n - 1);
    }
  }

  lemma {:induction false} CountAfter(calls: seq<ToolCall>, entries: seq<Entry>, after: seq<Entry>, n: nat, j: nat,
                                      id: string)
    requires n <= |entries| == |after| <= |calls| && j < |entries| && !entries[j].Closed?
    requires forall k :: 0 <= k < |entries| && k != j ==> after[k] == entries[k]
    ensures OpenCount(calls, entries, n, id) ==
            OpenCount(calls, after, n, id) + if after[j].Closed? && j < n && calls[j].id == id then 1 else 0
  {
    if n > 0 {
      CountAfter(calls, entries, after, n - 1, j, id);
    }
  }

  /** Closing a call takes its id out once; any other step leaves what is open. */
  lemma OpenAfter(calls: seq<ToolCall>, entries: seq<Entry>, after: seq<Entry>, j: nat)
    requires |entries| == |after| <= |calls| && j < |entries| && !entries[j].Closed?
    requires forall k :: 0 <= k < |entries| && k != j ==> after[k] == entries[k]
    ensures Open(calls, after) ==
            if after[j].Closed? then Open(calls, entries) - multiset{calls[j].id} else Open(calls, entries)
  {
    var n := |entries|;
    forall id
      ensures Open(calls, entries)[id] ==
              Open(calls, after)[id] + if after[j].Closed? && calls[j].id == id then 1 else 0
    {
      OpenCounts(calls, entries, n, id);
      OpenCounts(calls, after, n, id);
      CountAfter(calls, entries, after, n, j, id);
    }
    OneTakenOut(Open(calls, entries), Open(calls, after), calls[j].id, after[j].Closed?);
  }

  lemma OneTakenOut(before: multiset<string>, after: multiset<string>, id: string, closed: bool)
    requires forall x :: before[x] == after[x] + if closed && id == x then 1 else 0
    ensures after == if closed then before - multiset{id} else before
  {
  }

  lemma {:induction false} AllClosed(calls: seq<ToolCall>, entries: seq<Entry>, n: nat)
    requires n <= |entries| <= |calls| && forall j :: 0 <= j < |entries| ==> entries[j].Closed?
    ensures OpenUpTo(calls, entries, n) == multiset{}
  {
    if n > 0 {
      AllClosed(calls, entries, n - 1);
    }
  }

  lemma OpenAdds(calls: seq<ToolCall>, entries: seq<Entry>, e: Entry)
    requires |entries| < |calls|
    ensures Open(calls, entries + [e]) == Open(calls, entries) + OpenId(calls[|entries|], e)
  {
    SameOpen(calls, entries, entries + [e], |entries|);
  }

  /** Every call closed so far asks for the run to end. */
  predicate Terminating(entries: seq<Entry>) {
    forall k :: 0 <= k < |entries| && entries[k].Closed? ==> entries[k].result.terminate
  }

  lemma TerminatingAdds(entries: seq<Entry>, e: Entry)
    ensures Terminating(entries + [e]) <==> Terminating(entries) && (e.Closed? ==> e.result.terminate)
  {
    var all := entries + [e];
    assert all[|entries|] == e;
    assert forall k :: 0 <= k < |entries| ==> all[k] == entries[k];
  }

  lemma TerminatingAfter(entries: seq<Entry>, j: nat, e: Entry)
    requires j < |entries| && !entries[j].Closed?
    ensures Terminating(entries[j := e]) <==> Terminating(entries) && (e.Closed? ==> e.result.terminate)
  {
    var all := entries[j := e];
    assert all[j] == e;
    assert forall k :: 0 <= k < |entries| && k != j ==> all[k] == entries[k];
  }

  /** What the calls of a batch ended with. */
  function Outcomes(entries: seq<Entry>): (finalized: seq<Finalized>)
    requires forall j :: 0 <= j < |entries| ==> entries[j].Closed?
    ensures |finalized| == |entries|
    ensures forall j :: 0 <= j < |entries| ==> finalized[j] == entries[j].result
  {
    seq(|entries|, j requires 0 <= j < |entries| => entries[j].result)
  }

  lemma TerminatingIsAll(entries: seq<Entry>)
    requires forall j :: 0 <= j < |entries| ==> entries[j].Closed?
    ensures Terminating(entries) <==> AllTerminate(Outcomes(entries))
  {
    var finalized := Outcomes(entries);
    assert forall j :: 0 <= j < |entries| ==> finalized[j].terminate == entries[j].result.terminate;
  }

  function Work(entries: seq<Entry>): nat {
    if entries == [] then 0
    else
      var last := entries[|entries| - 1];
      Work(entries[..|entries| - 1]) + match last case Executing => 2 case Executed(_) => 1 case Closed(_) => 0
  }

  lemma {:induction false} WorkShrinks(entries: seq<Entry>, j: nat, e: Entry)
    requires j < |entries|
    requires (entries[j].Executing? && !e.Executing?) || (entries[j].Executed? && e.Closed?)
    ensures Work(entries[j := e]) < Work(entries)
  {
    var k := |entries| - 1;
    if j < k {
      WorkShrinks(entries[..k], j, e);
      assert entries[j := e][..k] == entries[..k][j := e];
    } else {
      assert entries[j := e][..k] == entries[..k];
    }
  }

  lemma Replaced(calls: seq<ToolCall>, entries: seq<Entry>, j: nat, e: Entry)
    requires |entries| <= |calls| && j < |entries| && !entries[j].Closed?
    requires e.Closed? || (entries[j].Executing? && e.Executed?)
    ensures Open(calls, entries[j := e]) ==
            if e.Closed? then Open(calls, entries) - multiset{calls[j].id} else Open(calls, entries)
    ensures Terminating(entries[j := e]) <==> Terminating(entries) && (e.Closed? ==> e.result.terminate)
    ensures Work(entries[j := e]) < Work(entries)
  {
    OpenAfter(calls, entries, entries[j := e], j);
    TerminatingAfter(entries, j, e);
    WorkShrinks(entries, j, e);
  }

  predicate AllTerminate(finalized: seq<Finalized>) {
    forall k :: 0 <= k < |finalized| ==> finalized[k].terminate
  }

  lemma AllTerminateAdds(finalized: seq<Finalized>, f: Finalized)
    ensures AllTerminate(finalized + [f]) <==> AllTerminate(finalized) && f.terminate
  {
    if AllTerminate(finalized + [f]) {
      assert (finalized + [f])[|finalized|] == f;
      forall k | 0 <= k < |finalized| ensures finalized[k].terminate {
        assert (finalized + [f])[k].terminate;
      }
    }
  }

  /** A batch asks the run to end when it is not empty and every result asks for it. */
  method ShouldTerminate(finalized: seq<Finalized>) returns (r: bool)
    ensures r <==> finalized != [] && AllTerminate(finalized)
  {
    r := |finalized| > 0 && AllTerminate(finalized);
  }

  function ResultMessage(call: ToolCall, f: Finalized): Message {
    ToolResult(call.id, f.content, f.isError)
  }

  /** The results answer the first calls. */
  predicate AnswersEach(calls: seq<ToolCall>, finalized: seq<Finalized>, results: seq<Message>) {
    && |results| <= |finalized| == |calls|
    && forall k :: 0 <= k < |results| ==> results[k] == ResultMessage(calls[k], finalized[k])
  }

  lemma AnswersNext(calls: seq<ToolCall>, finalized: seq<Finalized>, results: seq<Message>)
    requires AnswersEach(calls, finalized, results) && |results| < |calls|
    ensures AnswersEach(calls, finalized,
                        results + [ResultMessage(calls[|results|], finalized[|results|])])
  {
  }

  lemma OneMoreFails(setup: Setup, calls: seq<ToolCall>, results: seq<Message>, f: Finalized)
    requires |results| < |calls| && setup.FailsUnknown(calls, results)
    requires calls[|results|].name !in setup.tools ==> f.isError
    ensures setup.FailsUnknown(calls, results + [ResultMessage(calls[|results|], f)])
  {
  }

  /** Calls of tools that there are not are closed with an error. */
  predicate Refuses(setup: Setup, calls: seq<ToolCall>, entries: seq<Entry>) {
    forall k :: 0 <= k < |calls| && k < |entries| && calls[k].name !in setup.tools ==>
                  entries[k].Closed? && entries[k].result.isError
  }

  lemma RefusesAdds(setup: Setup, calls: seq<ToolCall>, entries: seq<Entry>, e: Entry)
    requires |entries| < |calls| && Refuses(setup, calls, entries)
    requires calls[|entries|].name !in setup.tools ==> e.Closed? && e.result.isError
    ensures Refuses(setup, calls, entries + [e])
  {
  }

  lemma RefusesStill(setup: Setup, calls: seq<ToolCall>, entries: seq<Entry>, j: nat, e: Entry)
    requires |entries| <= |calls| && j < |entries| && !entries[j].Closed? && Refuses(setup, calls, entries)
    ensures Refuses(setup, calls, entries[j := e])
  {
  }

  lemma RefusedFail(setup: Setup, calls: seq<ToolCall>, entries: seq<Entry>, results: seq<Message>)
    requires |results| == |entries| == |calls| && Refuses(setup, calls, entries)
    requires forall k :: 0 <= k < |entries| ==> entries[k].Closed?
    requires forall k :: 0 <= k < |entries| ==> results[k] == ResultMessage(calls[k], entries[k].result)
    ensures setup.FailsUnknown(calls, results)
  {
  }

  class Agent {
    const setup: Setup
    const steering: PendingMessageQueue
    const followUp: PendingMessageQueue

    var messages: seq<Message>
    var streamingMessage: Option<Message>
    var pendingToolCalls: set<string>
    var isStreaming: bool
    var activeRun: bool
    var aborted: bool

    // The lists and the flag the loop of the current run works on.
    var context: seq<Message>
    var newMessages: seq<Message>
    var skipSteeringPoll: bool

    ghost var base: seq<Message>         // the transcript when the run began
    ghost var run: History
    ghost var sources: seq<Source>       // where each new message came from
    ghost var start: seq<Source>         // where the first ones must come from
    ghost var polls: Polls
    ghost var since: nat                 // how many new messages there were when a queue was looked into last
    ghost var dropped: Lost              // drained, and not in the run when it ended
    ghost var steeringBase: seq<Message> // what had been drained before the run
    ghost var followUpBase: seq<Message>

    constructor (setup: Setup, steeringMode: Mode, followUpMode: Mode, messages: seq<Message>)
      ensures Ready() && !activeRun && !isStreaming && pendingToolCalls == {} && streamingMessage == None
      ensures this.setup == setup && this.messages == messages
      ensures steering.mode == steeringMode && followUp.mode == followUpMode
      ensures fresh(steering) && fresh(followUp)
    {
      this.setup := setup;
      steering := new PendingMessageQueue(steeringMode);
      followUp := new PendingMessageQueue(followUpMode);
      this.messages := messages;
      streamingMessage, pendingToolCalls, isStreaming, activeRun, aborted := None, {}, false, false, false;
      context, newMessages, skipSteeringPoll := [], [], false;
    }

    ghost predicate Ready()
      reads steering, followUp
    {
      && steering != followUp
      && steering.Valid() && followUp.Valid()
    }

    /** A run is under way and has not ended. */
    ghost predicate Live()
      reads this`activeRun, this`isStreaming, this`run, this`base, this`messages, this`pendingToolCalls,
            this`newMessages, this`sources
      reads steering, followUp
    {
      && Ready()
      && activeRun && isStreaming
      && Recorded(run, base, setup)
      && run.ends == 0
      && messages == base + run.ended
      && AllRunning(pendingToolCalls, run.phase)
      && |sources| == |newMessages|
    }

    /** The messages the run must begin with are in it. */
    ghost predicate Begun()
      reads this`sources, this`start
    {
      start <= sources
    }

    /** They are, or only a first response is missing. */
    ghost predicate Underway()
      reads this`sources, this`start
    {
      Begun() || start == sources + [Generated]
    }

    /** The transcripts agree, as they do outside a response. */
    ghost predicate Level()
      reads this
    {
      newMessages == run.ended && context == base + run.ended
    }

    ghost function Accounts(): Ledger
      reads this, steering, followUp
    {
      Ledger(steering.taken, followUp.taken, steeringBase, followUpBase, newMessages, sources)
    }

    /** Nothing drained is lost: it is in the run, or about to be. */
    ghost predicate Booked(pending: seq<Message>, source: Source)
      reads this, steering, followUp
    {
      Balances(Accounts(), pending, source)
    }

    /** What a queue gave is pending exactly when the last poll took it and nothing has joined the run since. */
    ghost predicate Held(pending: seq<Message>, source: Source)
      reads this
    {
      && since <= |newMessages|
      && (Holding(polls, since, |newMessages|) <==> pending != [] && source != Continuation)
    }

    ghost predicate Conserved(pending: seq<Message>, source: Source)
      reads this, steering, followUp
    {
      Booked(pending, source) && Held(pending, source)
    }

    /** Nothing drained is lost but what an abort made the run drop. */
    ghost predicate Accounted()
      reads this, steering, followUp
    {
      Conserved(dropped.messages, dropped.source) && (dropped.messages != [] ==> aborted)
    }

    function Observe(e: Event): Observation
      reads this
    {
      Observation(e, newMessages, context, messages, pendingToolCalls, aborted)
    }

    // ---- The outside ------------------------------------------------------------------

    /**
     Anything may happen while the loop waits: an abort, and on either queue messages queued,
     some removed, all cleared, or another mode, in any order.
     */
    method Await()
      requires Ready()
      modifies this`aborted
      modifies steering`mode, steering`batches, steering`enqueued, followUp`mode, followUp`batches, followUp`enqueued
      ensures Ready()
      ensures old(aborted) ==> aborted
    {
      if * {
        aborted := true;
      }
      var n: nat := *;
      while n > 0
        invariant Ready()
        invariant old(aborted) ==> aborted
        decreases n
      {
        if * {
          Touch(steering);
        } else {
          Touch(followUp);
        }
        n := n - 1;
      }
    }

    /** What somebody else does to a queue. */
    method Touch(queue: PendingMessageQueue)
      requires queue.Valid()
      modifies queue`mode, queue`batches, queue`enqueued
      ensures queue.Valid()
    {
      if * {
        var batch: seq<Input> := *;
        queue.Enqueue(batch);
      } else if * {
        var unwanted: set<Input> := *;
        var _ := queue.RemoveWhere(m => m in unwanted);
      } else if * {
        queue.Clear();
      } else {
        queue.mode := *;
      }
    }

    /**
     An operation raced against the abort signal: it is refused at once when that is already
     set, or throws whatever it throws before the race begins.
     */
    method Race() returns (s: Settled)
      requires Ready()
      modifies this`aborted
      modifies steering`mode, steering`batches, steering`enqueued, followUp`mode, followUp`batches, followUp`enqueued
      ensures Ready()
      ensures old(aborted) ==> aborted && s.Rejected?
    {
      if aborted {
        var isAbort: bool := *;
        return Rejected(isAbort);
      }
      Await();
      s := *;
    }

    /** The same for an operation that cannot fail by itself. */
    method RaceResolved() returns (s: Settled)
      requires Ready()
      modifies this`aborted
      modifies steering`mode, steering`batches, steering`enqueued, followUp`mode, followUp`batches, followUp`enqueued
      ensures Ready()
      ensures old(aborted) ==> aborted && s == Rejected(true)
      ensures s == Completed || (s == Rejected(true) && aborted)
    {
      if aborted {
        return Rejected(true);
      }
      Await();
      s := Completed;
      if aborted {
        if * {
          s := Rejected(true);
        }
      }
    }

    // ---- Events -------------------------------------------------------------------------

    /** The agent's own state after one event. */
    method Reduce(e: Event)
      modifies this`messages, this`streamingMessage, this`pendingToolCalls
      ensures messages == old(messages) + if e.MessageEnd? then [e.message] else []
      ensures pendingToolCalls == PendingAfter(old(pendingToolCalls), e)
      ensures e.AgentEnd? || e.MessageEnd? ==> streamingMessage == None
      ensures e.MessageStart? || e.MessageUpdate? ==> streamingMessage == Some(e.message)
    {
      match e
      case MessageStart(m) => streamingMessage := Some(m);
      case MessageUpdate(m) => streamingMessage := Some(m);
      case MessageEnd(m) =>
        streamingMessage := None;
        messages := messages + [m];
      case ToolExecutionStart(id) => pendingToolCalls := pendingToolCalls + {id};
      case ToolExecutionEnd(id, _) => pendingToolCalls := pendingToolCalls - {id};
      case AgentEnd(_) => streamingMessage := None;
      case _ =>
    }

    /** Reduces the state for one event, then lets the listeners run. */
    method ProcessEvents(e: Event)
      requires Ready() && activeRun
      requires Recorded(run, base, setup) && TurnAgrees(Observe(e), run.ended, base, setup)
      requires StartsWell(run.phase, e, setup)
      requires messages == base + run.ended && AllRunning(pendingToolCalls, run.phase)
      modifies this`messages, this`streamingMessage, this`pendingToolCalls, this`run, this`aborted
      modifies steering`mode, steering`batches, steering`enqueued, followUp`mode, followUp`batches, followUp`enqueued
      ensures Ready()
      ensures run == old(run.Add(Observe(e))) && Recorded(run, base, setup)
      ensures messages == base + run.ended && AllRunning(pendingToolCalls, run.phase)
      ensures e.AgentEnd? ==> streamingMessage == None
      ensures old(aborted) ==> aborted
    {
      run.AddKeepsValid(Observe(e), base, setup);
      PendingStaysRunning(pendingToolCalls, run.phase, e, aborted);
      run := run.Add(Observe(e));
      Reduce(e);
      Await();
    }

    /** Emits one event of a run under way. */
    method Emit(e: Event)
      requires Live() && !e.AgentEnd? && TurnAgrees(Observe(e), run.ended, base, setup)
      requires StartsWell(run.phase, e, setup)
      modifies this`messages, this`streamingMessage, this`pendingToolCalls, this`run, this`aborted
      modifies steering`mode, steering`batches, steering`enqueued, followUp`mode, followUp`batches, followUp`enqueued
      ensures Live()
      ensures run.phase == Step(old(run.phase), e, old(aborted))
      ensures run.ended == old(run.ended) + if e.MessageEnd? then [e.message] else []
      ensures old(aborted) ==> aborted
    {
      ProcessEvents(e);
    }

    /** A message that is complete from the start: injected, or the result of a tool. */
    method EmitMessage(m: Input, ghost before: Phase, ghost after: Phase)
      requires Live() && run.phase == before && before != Bad
      requires Step(before, MessageStart(m), aborted) != Bad
      requires Step(Step(before, MessageStart(m), aborted), MessageEnd(m), aborted) == after
      requires forall b :: Step(Step(before, MessageStart(m), aborted), MessageEnd(m), b) == after
      modifies this`messages, this`streamingMessage, this`pendingToolCalls, this`run, this`aborted
      modifies steering`mode, steering`batches, steering`enqueued, followUp`mode, followUp`batches, followUp`enqueued
      ensures Live() && run.phase == after && run.ended == old(run.ended) + [m]
      ensures old(aborted) ==> aborted
    {
      Emit(MessageStart(m));
      Emit(MessageEnd(m));
    }

    // ---- The response of the assistant -----------------------------------------------------

    ghost predicate Hearing(n: nat, partial: Option<Message>)
      reads this, steering, followUp
    {
      && Live()
      && run.phase == (if partial.Some? then Streaming(n) else Messages(n))
      && context == base + run.ended + ToList(partial)
    }

    /** Puts the final message in the place of the partial one, or adds it. */
    method FinishMessage(final: Message, partial: Option<Message>, ghost n: nat)
      requires Hearing(n, partial) && final.Assistant?
      modifies this`messages, this`streamingMessage, this`pendingToolCalls, this`run, this`aborted, this`context
      modifies steering`mode, steering`batches, steering`enqueued, followUp`mode, followUp`batches, followUp`enqueued
      ensures Live() && run.phase == Tools(n, NewBatch(final))
      ensures run.ended == old(run.ended) + [final] && context == base + run.ended
      ensures old(aborted) ==> aborted
    {
      if partial.Some? {
        ReplaceLast(base, run.ended, partial.value, final);
        context := context[|context| - 1 := final];
      } else {
        context := context + [final];
        Emit(MessageStart(final));
      }
      Emit(MessageEnd(final));
    }

    /** The stream's start event. */
    method HearStart(m: Message, ghost n: nat)
      requires Hearing(n, None) && m.Assistant?
      modifies this`messages, this`streamingMessage, this`pendingToolCalls, this`run, this`aborted, this`context
      modifies steering`mode, steering`batches, steering`enqueued, followUp`mode, followUp`batches, followUp`enqueued
      ensures Hearing(n, Some(m)) && run.ended == old(run.ended)
      ensures old(aborted) ==> aborted
    {
      context := context + [m];
      Emit(MessageStart(m));
    }

    /** An update replaces the partial message; without a start it is ignored. */
    method HearUpdate(m: Message, partial: Option<Message>, ghost n: nat) returns (next: Option<Message>)
      requires Hearing(n, partial) && m.Assistant?
      modifies this`messages, this`streamingMessage, this`pendingToolCalls, this`run, this`aborted, this`context
      modifies steering`mode, steering`batches, steering`enqueued, followUp`mode, followUp`batches, followUp`enqueued
      ensures Hearing(n, next) && run.ended == old(run.ended)
      ensures next == if partial.Some? then Some(m) else None
      ensures old(aborted) ==> aborted
    {
      next := partial;
      if partial.Some? {
        ReplaceLast(base, run.ended, partial.value, m);
        next := Some(m);
        context := context[|context| - 1 := m];
        Emit(MessageUpdate(m));
      }
    }

    /** A terminal event: the final result is awaited, or the event's own message taken if an abort comes first. */
    method HearEnd(m: Message, partial: Option<Message>, ghost n: nat) returns (o: Outcome<Message>)
      requires Hearing(n, partial) && m.Assistant?
      modifies this`messages, this`streamingMessage, this`pendingToolCalls, this`run, this`aborted, this`context
      modifies steering`mode, steering`batches, steering`enqueued, followUp`mode, followUp`batches, followUp`enqueued
      ensures Heard(o, old(run.ended), n)
      ensures o.Threw? ==> Hearing(n, partial) && run.ended == old(run.ended) && !(aborted && o.isAbort)
      ensures old(aborted) ==> aborted
    {
      var final := m;
      var result := Race();
      if result.Rejected? {
        if !aborted || !result.isAbort {
          return Threw(result.isAbort);
        }
      } else {
        final :| final.Assistant?;
      }
      FinishMessage(final, partial, n);
      o := Returned(final);
    }

    /** A response came: it ended a message, and its calls are next. */
    ghost predicate Heard(o: Outcome<Message>, ended: seq<Message>, n: nat)
      reads this, steering, followUp
    {
      o.Returned? ==>
        && o.value.Assistant?
        && Live()
        && run.phase == Tools(n, NewBatch(o.value))
        && run.ended == ended + [o.value]
        && context == base + run.ended
    }

    /**
     Calls the provider and follows its stream: at most one start, before any update,
     then a terminal event or the end of the stream. `responses` counts the calls it
     still answers.
     */
    method StreamResponse(responses: nat, ghost n: nat) returns (o: Outcome<Message>, partial: Option<Message>)
      requires Hearing(n, None)
      modifies this`messages, this`streamingMessage, this`pendingToolCalls, this`run, this`aborted, this`context
      modifies steering`mode, steering`batches, steering`enqueued, followUp`mode, followUp`batches, followUp`enqueued
      ensures old(aborted) ==> aborted
      ensures Heard(o, old(run.ended), n)
      ensures o.Returned? ==> responses > 0
      ensures o.Threw? ==> Hearing(n, partial) && run.ended == old(run.ended)
    {
      partial := None;
      if aborted {
        return Threw(true), partial;
      }
      // Context transform, conversion, API key, and the call itself.
      var call := Race();
      if call.Rejected? {
        return Threw(call.isAbort), partial;
      }
      if responses == 0 {
        return Threw(false), partial;
      }
      var length: nat := *;
      assert Assistant("", [], Stop).Assistant?;
      while length > 0
        invariant Hearing(n, partial) && run.ended == old(run.ended)
        invariant old(aborted) ==> aborted
        decreases length
      {
        var next := Race();
        if next.Rejected? {
          return Threw(next.isAbort), partial;
        }
        var m: Message :| m.Assistant?;
        var starts: bool, updates: bool := *, *;
        if partial == None && starts {
          HearStart(m, n);
          partial := Some(m);
        } else if updates {
          partial := HearUpdate(m, partial, n);
        } else {
          o := HearEnd(m, partial, n);
          return;
        }
        length := length - 1;
      }
      var result := Race();
      if result.Rejected? {
        return Threw(result.isAbort), partial;
      }
      var final: Message :| final.Assistant?;
      FinishMessage(final, partial, n);
      o := Returned(final);
    }

    /** A response that an abort cuts short still leaves one final message. */
    method StreamAssistantResponse(responses: nat, ghost n: nat) returns (o: Outcome<Message>)
      requires Hearing(n, None)
      modifies this`messages, this`streamingMessage, this`pendingToolCalls, this`run, this`aborted, this`context
      modifies steering`mode, steering`batches, steering`enqueued, followUp`mode, followUp`batches, followUp`enqueued
      ensures Live()
      ensures old(aborted) ==> aborted
      ensures Heard(o, old(run.ended), n)
      ensures o.Returned? && responses == 0 ==> o.value.stopReason == Aborted
      ensures o.Threw? ==> run.ended == old(run.ended) && !(aborted && o.isAbort)
    {
      var partial;
      o, partial := StreamResponse(responses, n);
      if o.Threw? && aborted && o.isAbort {
        var final := AbortedMessage(partial);
        FinishMessage(final, partial, n);
        o := Returned(final);
      }
    }

    // ---- Tools ------------------------------------------------------------------------------

    ghost predicate Acting(n: nat, b: Batch)
      reads this, steering, followUp
    {
      Live() && run.phase == Tools(n, b)
    }

    /** A batch is over: its results are in, in order, and `terminate` says whether to go on. */
    ghost predicate Answered(n: nat, message: Message, results: seq<Message>, terminate: bool)
      reads this, steering, followUp
    {
      exists allTerminate ::
        && Acting(n, Batch(message, |results|, multiset{}, results, allTerminate))
        && (terminate <==> results != [] && allTerminate)
    }

    method StartCall(call: ToolCall, ghost n: nat, ghost b: Batch)
      requires Acting(n, b) && !Broken(b.assistant)
      requires b.running != multiset{} ==> setup.MayOverlap(Calls(b.assistant))
      requires b.started < |Calls(b.assistant)| && Calls(b.assistant)[b.started] == call
      modifies this`messages, this`streamingMessage, this`pendingToolCalls, this`run, this`aborted
      modifies steering`mode, steering`batches, steering`enqueued, followUp`mode, followUp`batches, followUp`enqueued
      ensures Acting(n, b.(started := b.started + 1, running := b.running + multiset{call.id}))
      ensures run.ended == old(run.ended)
      ensures old(aborted) ==> aborted
    {
      Emit(ToolExecutionStart(call.id));
    }

    method EndCall(call: ToolCall, f: Finalized, ghost n: nat, ghost b: Batch)
      requires Acting(n, b) && call.id in b.running
      modifies this`messages, this`streamingMessage, this`pendingToolCalls, this`run, this`aborted
      modifies steering`mode, steering`batches, steering`enqueued, followUp`mode, followUp`batches, followUp`enqueued
      ensures Acting(n, b.(running := b.running - multiset{call.id}, terminating := b.terminating && f.terminate))
      ensures run.ended == old(run.ended)
      ensures old(aborted) ==> aborted
    {
      Emit(ToolExecutionEnd(call.id, f.terminate));
    }

    /** A tool reports progress; once aborted it is not listened to. */
    method UpdateCall(call: ToolCall, ghost n: nat, ghost b: Batch)
      requires Acting(n, b) && call.id in b.running
      modifies this`messages, this`streamingMessage, this`pendingToolCalls, this`run, this`aborted
      modifies steering`mode, steering`batches, steering`enqueued, followUp`mode, followUp`batches, followUp`enqueued
      ensures Acting(n, b) && run.ended == old(run.ended)
      ensures old(aborted) ==> aborted
    {
      if !aborted {
        Emit(ToolExecutionUpdate(call.id));
      }
    }

    method EmitResult(call: ToolCall, f: Finalized, ghost n: nat, ghost b: Batch)
      requires Acting(n, b) && Answers(b, ResultMessage(call, f))
      modifies this`messages, this`streamingMessage, this`pendingToolCalls, this`run, this`aborted
      modifies steering`mode, steering`batches, steering`enqueued, followUp`mode, followUp`batches, followUp`enqueued
      ensures Acting(n, b.(results := b.results + [ResultMessage(call, f)]))
      ensures run.ended == old(run.ended) + [ResultMessage(call, f)]
      ensures old(aborted) ==> aborted
    {
      EmitMessage(ResultMessage(call, f), Tools(n, b), Tools(n, b.(results := b.results + [ResultMessage(call, f)])));
    }

    /** An unknown tool, bad arguments, a blocking or a failing hook: the call gets an error result at once. */
    method PrepareToolCall(call: ToolCall) returns (immediate: Option<Finalized>)
      requires Ready()
      modifies this`aborted
      modifies steering`mode, steering`batches, steering`enqueued, followUp`mode, followUp`batches, followUp`enqueued
      ensures Ready()
      ensures old(aborted) ==> aborted
      ensures call.name !in setup.tools ==> immediate.Some?
      ensures immediate.Some? ==> immediate.value.isError && !immediate.value.terminate
    {
      if call.name !in setup.tools {
        return Some(Finalized("Tool " + call.name + " not found", true, false));
      }
      Await();
      immediate := None;
      if * {
        var reason: string := *;
        immediate := Some(Finalized(reason, true, false));
      }
    }

    /** Runs one tool by itself: some updates, then a result, whatever the tool and the hooks do. */
    method ExecuteAlone(call: ToolCall, ghost n: nat, ghost b: Batch) returns (f: Finalized)
      requires Acting(n, b) && call.id in b.running
      modifies this`messages, this`streamingMessage, this`pendingToolCalls, this`run, this`aborted
      modifies steering`mode, steering`batches, steering`enqueued, followUp`mode, followUp`batches, followUp`enqueued
      ensures Acting(n, b) && run.ended == old(run.ended)
      ensures old(aborted) ==> aborted
    {
      var updates: nat := *;
      while updates > 0
        invariant Acting(n, b) && run.ended == old(run.ended)
        invariant old(aborted) ==> aborted
        decreases updates
      {
        UpdateCall(call, n, b);
        updates := updates - 1;
      }
      Await();
      f := *;
    }

    /** One call of a sequential batch, from its start to its result message. */
    method ExecuteOne(call: ToolCall, ghost n: nat, ghost b: Batch) returns (f: Finalized)
      requires Acting(n, b) && !Broken(b.assistant) && b.running == multiset{} && |b.results| == b.started
      requires b.started < |Calls(b.assistant)| && Calls(b.assistant)[b.started] == call
      modifies this`messages, this`streamingMessage, this`pendingToolCalls, this`run, this`aborted
      modifies steering`mode, steering`batches, steering`enqueued, followUp`mode, followUp`batches, followUp`enqueued
      ensures Acting(n, Batch(b.assistant, b.started + 1, multiset{}, b.results + [ResultMessage(call, f)],
                              b.terminating && f.terminate))
      ensures run.ended == old(run.ended) + [ToolResult(call.id, f.content, f.isError)]
      ensures call.name !in setup.tools ==> f.isError && !f.terminate
      ensures old(aborted) ==> aborted
    {
      StartCall(call, n, b);
      ghost var open := b.(started := b.started + 1, running := b.running + multiset{call.id});
      var immediate := PrepareToolCall(call);
      if immediate.Some? {
        f := immediate.value;
      } else {
        f := ExecuteAlone(call, n, open);
      }
      EndCall(call, f, n, open);
      assert open.running - multiset{call.id} == multiset{};
      EmitResult(call, f, n, Batch(b.assistant, b.started + 1, multiset{}, b.results, b.terminating && f.terminate));
    }

    /** One by one; an abort leaves the results of the calls before it. */
    method ExecuteSequential(message: Message, ghost n: nat) returns (results: seq<Message>, terminate: bool)
      requires Acting(n, NewBatch(message)) && !Broken(message)
      modifies this`messages, this`streamingMessage, this`pendingToolCalls, this`run, this`aborted
      modifies steering`mode, steering`batches, steering`enqueued, followUp`mode, followUp`batches, followUp`enqueued
      ensures Answered(n, message, results, terminate)
      ensures run.ended == old(run.ended) + results
      ensures |results| <= |Calls(message)|
      ensures |results| < |Calls(message)| ==> aborted
      ensures setup.FailsUnknown(Calls(message), results)
      ensures old(aborted) ==> aborted && results == []
    {
      var calls := Calls(message);
      var finalized: seq<Finalized> := [];
      results := [];
      var i := 0;
      while i < |calls|
        invariant 0 <= i <= |calls| && |results| == |finalized| == i
        invariant Acting(n, Batch(message, i, multiset{}, results, AllTerminate(finalized)))
        invariant run.ended == old(run.ended) + results
        invariant setup.FailsUnknown(calls, results)
        invariant old(aborted) ==> aborted && i == 0
      {
        if aborted {
          break;
        }
        var f := ExecuteOne(calls[i], n, Batch(message, i, multiset{}, results, AllTerminate(finalized)));
        AllTerminateAdds(finalized, f);
        OneMoreFails(setup, calls, results, f);
        finalized := finalized + [f];
        results := results + [ResultMessage(calls[i], f)];
        i := i + 1;
        if aborted {
          break;
        }
      }
      terminate := ShouldTerminate(finalized);
    }

    // ---- Several tools at once -------------------------------------------------------------

    /** The calls entered so far have started, and exactly the open ones are running. */
    ghost predicate InFlight(n: nat, message: Message, entries: seq<Entry>)
      reads this, steering, followUp
    {
      && |entries| <= |Calls(message)|
      && Refuses(setup, Calls(message), entries)
      && Acting(n, Batch(message, |entries|, Open(Calls(message), entries), [], Terminating(entries)))
    }

    /** Starting a call and preparing it: the call is open, and may be known to have failed. */
    method StartPreparing(call: ToolCall, ghost n: nat, ghost b: Batch) returns (immediate: Option<Finalized>)
      requires Acting(n, b) && !Broken(b.assistant)
      requires b.running != multiset{} ==> setup.MayOverlap(Calls(b.assistant))
      requires b.started < |Calls(b.assistant)| && Calls(b.assistant)[b.started] == call
      modifies this`messages, this`streamingMessage, this`pendingToolCalls, this`run, this`aborted
      modifies steering`mode, steering`batches, steering`enqueued, followUp`mode, followUp`batches, followUp`enqueued
      ensures Acting(n, b.(started := b.started + 1, running := b.running + multiset{call.id}))
      ensures call.name !in setup.tools ==> immediate.Some?
      ensures immediate.Some? ==> immediate.value.isError && !immediate.value.terminate
      ensures run.ended == old(run.ended)
      ensures old(aborted) ==> aborted
    {
      StartCall(call, n, b);
      immediate := PrepareToolCall(call);
    }

    /** Starts the next call; it ends at once when it cannot be prepared. */
    method StartAndPrepare(call: ToolCall, ghost n: nat, ghost b: Batch) returns (e: Entry)
      requires Acting(n, b) && !Broken(b.assistant)
      requires b.running != multiset{} ==> setup.MayOverlap(Calls(b.assistant))
      requires b.started < |Calls(b.assistant)| && Calls(b.assistant)[b.started] == call
      modifies this`messages, this`streamingMessage, this`pendingToolCalls, this`run, this`aborted
      modifies steering`mode, steering`batches, steering`enqueued, followUp`mode, followUp`batches, followUp`enqueued
      ensures Acting(n, b.(started := b.started + 1,
                           running := b.running + OpenId(call, e),
                           terminating := b.terminating && (e.Closed? ==> e.result.terminate)))
      ensures call.name !in setup.tools ==> e.Closed?
      ensures e.Closed? ==> e.result.isError && !e.result.terminate
      ensures run.ended == old(run.ended)
      ensures old(aborted) ==> aborted
    {
      var immediate := StartPreparing(call, n, b);
      if immediate.Some? {
        EndCall(call, immediate.value, n, b.(started := b.started + 1, running := b.running + multiset{call.id}));
        assert b.running + multiset{call.id} - multiset{call.id} == b.running + multiset{};
        e := Closed(immediate.value);
      } else {
        e := Executing;
      }
    }

    method Launch(message: Message, entries: seq<Entry>, ghost n: nat) returns (e: Entry)
      requires InFlight(n, message, entries) && !Broken(message) && |entries| < |Calls(message)|
      requires setup.MayOverlap(Calls(message))
      modifies this`messages, this`streamingMessage, this`pendingToolCalls, this`run, this`aborted
      modifies steering`mode, steering`batches, steering`enqueued, followUp`mode, followUp`batches, followUp`enqueued
      ensures InFlight(n, message, entries + [e]) && run.ended == old(run.ended)
      ensures old(aborted) ==> aborted
    {
      e := StartAndPrepare(Calls(message)[|entries|], n,
                           Batch(message, |entries|, Open(Calls(message), entries), [], Terminating(entries)));
      OpenAdds(Calls(message), entries, e);
      TerminatingAdds(entries, e);
      RefusesAdds(setup, Calls(message), entries, e);
    }

    /** A call whose hook is done ends. */
    method CloseEntry(message: Message, entries: seq<Entry>, j: nat, f: Finalized, ghost n: nat)
      requires InFlight(n, message, entries) && j < |entries| && !entries[j].Closed?
      modifies this`messages, this`streamingMessage, this`pendingToolCalls, this`run, this`aborted
      modifies steering`mode, steering`batches, steering`enqueued, followUp`mode, followUp`batches, followUp`enqueued
      ensures InFlight(n, message, entries[j := Closed(f)]) && run.ended == old(run.ended)
      ensures old(aborted) ==> aborted
    {
      OpenHas(Calls(message), entries, |entries|, j);
      EndCall(Calls(message)[j], f, n,
              Batch(message, |entries|, Open(Calls(message), entries), [], Terminating(entries)));
      Replaced(Calls(message), entries, j, Closed(f));
      RefusesStill(setup, Calls(message), entries, j, Closed(f));
    }

    /** One step of one open call: its tool returns or fails, or its hook is done and the call ends. */
    method Advance(message: Message, entries: seq<Entry>, j: nat, ghost n: nat) returns (next: seq<Entry>)
      requires InFlight(n, message, entries) && j < |entries| && !entries[j].Closed?
      modifies this`messages, this`streamingMessage, this`pendingToolCalls, this`run, this`aborted
      modifies steering`mode, steering`batches, steering`enqueued, followUp`mode, followUp`batches, followUp`enqueued
      ensures InFlight(n, message, next) && run.ended == old(run.ended)
      ensures |next| == |entries| && Work(next) < Work(entries)
      ensures old(aborted) ==> aborted
    {
      var f: Finalized := *;
      if entries[j].Executing? {
        Await();
        Replaced(Calls(message), entries, j, Executed(f));
        RefusesStill(setup, Calls(message), entries, j, Executed(f));
        next := entries[j := Executed(f)];
      } else {
        CloseEntry(message, entries, j, f, n);
        WorkShrinks(entries, j, Closed(f));
        next := entries[j := Closed(f)];
      }
    }

    /** Runs the open calls to their end in any interleaving, with any updates. */
    method Settle(message: Message, started: seq<Entry>, ghost n: nat) returns (entries: seq<Entry>)
      requires InFlight(n, message, started)
      modifies this`messages, this`streamingMessage, this`pendingToolCalls, this`run, this`aborted
      modifies steering`mode, steering`batches, steering`enqueued, followUp`mode, followUp`batches, followUp`enqueued
      ensures InFlight(n, message, entries) && run.ended == old(run.ended)
      ensures |entries| == |started| && forall j :: 0 <= j < |entries| ==> entries[j].Closed?
      ensures old(aborted) ==> aborted
    {
      entries := started;
      var updates: nat := *;
      while exists j :: 0 <= j < |entries| && !entries[j].Closed?
        invariant InFlight(n, message, entries) && run.ended == old(run.ended)
        invariant |entries| == |started|
        invariant old(aborted) ==> aborted
        decreases updates + Work(entries)
      {
        var j :| 0 <= j < |entries| && !entries[j].Closed?;
        var update: bool := *;
        if update && updates > 0 && entries[j].Executing? {
          OpenHas(Calls(message), entries, |entries|, j);
          UpdateCall(Calls(message)[j], n,
                     Batch(message, |entries|, Open(Calls(message), entries), [], Terminating(entries)));
          updates := updates - 1;
        } else {
          entries := Advance(message, entries, j, n);
        }
      }
    }

    /** The result messages of a batch whose calls have all ended, in source order. */
    method EmitResults(message: Message, entries: seq<Entry>, ghost n: nat)
      returns (results: seq<Message>, terminate: bool)
      requires |entries| == |Calls(message)| && forall j :: 0 <= j < |entries| ==> entries[j].Closed?
      requires Acting(n, Batch(message, |entries|, multiset{}, [], Terminating(entries)))
      modifies this`messages, this`streamingMessage, this`pendingToolCalls, this`run, this`aborted
      modifies steering`mode, steering`batches, steering`enqueued, followUp`mode, followUp`batches, followUp`enqueued
      ensures Answered(n, message, results, terminate)
      ensures run.ended == old(run.ended) + results
      ensures |results| == |entries|
      ensures forall k :: 0 <= k < |entries| ==>
                var call, f := Calls(message)[k], entries[k].result;
                results[k] == ToolResult(call.id, f.content, f.isError)
      ensures old(aborted) ==> aborted
    {
      var finalized := Outcomes(entries);
      TerminatingIsAll(entries);
      results := EmitEach(message, finalized, n);
      terminate := ShouldTerminate(finalized);
    }

    method EmitEach(message: Message, finalized: seq<Finalized>, ghost n: nat) returns (results: seq<Message>)
      requires |finalized| == |Calls(message)|
      requires Acting(n, Batch(message, |finalized|, multiset{}, [], AllTerminate(finalized)))
      modifies this`messages, this`streamingMessage, this`pendingToolCalls, this`run, this`aborted
      modifies steering`mode, steering`batches, steering`enqueued, followUp`mode, followUp`batches, followUp`enqueued
      ensures Acting(n, Batch(message, |finalized|, multiset{}, results, AllTerminate(finalized)))
      ensures run.ended == old(run.ended) + results
      ensures |results| == |finalized|
      ensures forall k :: 0 <= k < |finalized| ==>
                results[k] == ToolResult(Calls(message)[k].id, finalized[k].content, finalized[k].isError)
      ensures old(aborted) ==> aborted
    {
      var calls := Calls(message);
      ghost var all := AllTerminate(finalized);
      results := [];
      var i := 0;
      while i < |calls|
        invariant 0 <= i <= |calls| && |results| == i
        invariant AnswersEach(calls, finalized, results)
        invariant Acting(n, Batch(message, |calls|, multiset{}, results, all))
        invariant run.ended == old(run.ended) + results
        invariant old(aborted) ==> aborted
      {
        EmitResult(calls[i], finalized[i], n, Batch(message, |calls|, multiset{}, results, all));
        AnswersNext(calls, finalized, results);
        results := results + [ResultMessage(calls[i], finalized[i])];
        i := i + 1;
      }
    }

    /** All at once; whatever the interleaving, every call gets one result, in source order. */
    method ExecuteParallel(message: Message, ghost n: nat) returns (results: seq<Message>, terminate: bool)
      requires Acting(n, NewBatch(message)) && !Broken(message) && setup.MayOverlap(Calls(message))
      modifies this`messages, this`streamingMessage, this`pendingToolCalls, this`run, this`aborted
      modifies steering`mode, steering`batches, steering`enqueued, followUp`mode, followUp`batches, followUp`enqueued
      ensures Answered(n, message, results, terminate)
      ensures run.ended == old(run.ended) + results
      ensures |results| == |Calls(message)|
      ensures setup.FailsUnknown(Calls(message), results)
      ensures old(aborted) ==> aborted
    {
      var calls := Calls(message);
      var entries: seq<Entry> := [];
      while |entries| < |calls|
        invariant InFlight(n, message, entries) && run.ended == old(run.ended)
        invariant old(aborted) ==> aborted
        decreases |calls| - |entries|
      {
        var e := Launch(message, entries, n);
        entries := entries + [e];
      }
      entries := Settle(message, entries, n);
      AllClosed(calls, entries, |entries|);
      results, terminate := EmitResults(message, entries, n);
      RefusedFail(setup, calls, entries, results);
    }

    /** Sequential when the agent is set so, or when one of the tools called demands it. */
    method ExecuteToolCalls(message: Message, ghost n: nat) returns (results: seq<Message>, terminate: bool)
      requires Acting(n, NewBatch(message)) && !Broken(message)
      modifies this`messages, this`streamingMessage, this`pendingToolCalls, this`run, this`aborted
      modifies steering`mode, steering`batches, steering`enqueued, followUp`mode, followUp`batches, followUp`enqueued
      ensures Answered(n, message, results, terminate)
      ensures run.ended == old(run.ended) + results
      ensures |results| <= |Calls(message)|
      ensures |results| < |Calls(message)| ==> aborted && !setup.MayOverlap(Calls(message))
      ensures setup.FailsUnknown(Calls(message), results)
      ensures old(aborted) ==> aborted
    {
      var toolCalls := Calls(message);
      var hasSequentialToolCall := exists k :: 0 <= k < |toolCalls| && toolCalls[k].name in setup.tools
                                               && setup.tools[toolCalls[k].name] == Sequential;
      if setup.toolExecution == Sequential || hasSequentialToolCall {
        results, terminate := ExecuteSequential(message, n);
      } else {
        results, terminate := ExecuteParallel(message, n);
      }
    }

    // ---- Turns ------------------------------------------------------------------------------

    /** Adds one message that was queued or came as a continuation. */
    method Inject(m: Input, ghost rest: seq<Message>, ghost source: Source, ghost n: nat)
      requires Live() && Level() && run.phase == Messages(n) && Booked([m] + rest, source) && Begun()
      modifies this`messages, this`streamingMessage, this`pendingToolCalls, this`run, this`aborted
      modifies this`context, this`newMessages, this`sources
      modifies steering`mode, steering`batches, steering`enqueued, followUp`mode, followUp`batches, followUp`enqueued
      ensures Live() && Level() && run.phase == Messages(n) && Booked(rest, source) && Begun()
      ensures newMessages == old(newMessages) + [m]
      ensures old(aborted) ==> aborted
    {
      EmitMessage(m, Messages(n), Messages(n));
      InjectBalances(Accounts(), m, rest, source);
      context := context + [m];
      newMessages := newMessages + [m];
      sources := sources + [source];
    }

    method InjectPending(pending: seq<Input>, ghost source: Source, ghost n: nat)
      requires Live() && Level() && run.phase == Messages(n) && Booked(pending, source)
      requires pending == [] || Begun()
      modifies this`messages, this`streamingMessage, this`pendingToolCalls, this`run, this`aborted
      modifies this`context, this`newMessages, this`sources
      modifies steering`mode, steering`batches, steering`enqueued, followUp`mode, followUp`batches, followUp`enqueued
      ensures Live() && Level() && run.phase == Messages(n) && Booked([], Steering)
      ensures newMessages == old(newMessages) + pending
      ensures if pending == [] then sources == old(sources) else Begun()
      ensures old(aborted) ==> aborted
    {
      var i := 0;
      while i < |pending|
        invariant 0 <= i <= |pending|
        invariant Live() && Level() && run.phase == Messages(n) && Booked(pending[i..], source)
        invariant if pending == [] then sources == old(sources) else Begun()
        invariant newMessages == old(newMessages) + pending[..i]
        invariant old(aborted) ==> aborted
      {
        assert pending[i..] == [pending[i]] + pending[i + 1..];
        Inject(pending[i], pending[i + 1..], source, n);
        i := i + 1;
      }
      assert pending[..i] == pending && pending[i..] == [];
    }

    /** Takes in what the turn produced. */
    method Produce(more: seq<Message>)
      requires Live() && Conserved([], Steering) && run.ended == newMessages + more && Underway()
      modifies this`newMessages, this`sources
      ensures Live() && Conserved([], Steering) && newMessages == run.ended
      ensures old(newMessages) <= newMessages
      ensures Underway() && (more != [] || old(Begun()) ==> Begun())
    {
      BeginsOn(start, sources, |more|);
      ProduceBalances(Accounts(), more);
      newMessages := newMessages + more;
      sources := sources + Repeat(Generated, |more|);
    }

    /** A turn's start, which the first one has had already, and what was pending. */
    method StartTurn(firstTurn: bool, pending: seq<Input>, ghost source: Source, ghost n: nat, ghost owes: bool)
      requires Live() && Level() && Conserved(pending, source) && Underway() && (pending == [] || Begun())
      requires run.phase == if firstTurn then Messages(n) else Between(n, owes)
      modifies this`messages, this`streamingMessage, this`pendingToolCalls, this`run, this`aborted
      modifies this`context, this`newMessages, this`sources
      modifies steering`mode, steering`batches, steering`enqueued, followUp`mode, followUp`batches, followUp`enqueued
      ensures Hearing(n, None) && newMessages == run.ended && Conserved([], Steering)
      ensures newMessages == old(newMessages) + pending
      ensures if pending == [] then sources == old(sources) else Begun()
      ensures old(aborted) ==> aborted
    {
      if !firstTurn {
        Emit(TurnStart);
      }
      InjectPending(pending, source, n);
    }

    /** The response, which joins the run. */
    method Respond(responses: nat, ghost n: nat) returns (o: Outcome<Message>)
      requires Hearing(n, None) && newMessages == run.ended && Conserved([], Steering) && Underway()
      modifies this`messages, this`streamingMessage, this`pendingToolCalls, this`run, this`aborted
      modifies this`context, this`newMessages, this`sources
      modifies steering`mode, steering`batches, steering`enqueued, followUp`mode, followUp`batches, followUp`enqueued
      ensures Live() && Conserved([], Steering) && newMessages == run.ended && Underway()
      ensures o.Returned? ==> Acting(n, NewBatch(o.value)) && context == base + run.ended && Begun()
      ensures o.Returned? && !Broken(o.value) ==> responses > 0
      ensures o.Threw? ==> !(aborted && o.isAbort)
      ensures old(aborted) ==> aborted
      ensures newMessages == old(newMessages) + if o.Returned? then [o.value] else []
    {
      o := StreamAssistantResponse(responses, n);
      if o.Returned? {
        Produce([o.value]);
      }
    }

    /** The first half of a turn: its start, what was pending, and the response. */
    method Speak(firstTurn: bool, pending: seq<Input>, ghost source: Source, responses: nat, ghost n: nat,
                 ghost owes: bool)
      returns (o: Outcome<Message>)
      requires Live() && Level() && Conserved(pending, source) && Underway() && (pending == [] || Begun())
      requires run.phase == if firstTurn then Messages(n) else Between(n, owes)
      modifies this`messages, this`streamingMessage, this`pendingToolCalls, this`run, this`aborted
      modifies this`context, this`newMessages, this`sources
      modifies steering`mode, steering`batches, steering`enqueued, followUp`mode, followUp`batches, followUp`enqueued
      ensures Live() && Conserved([], Steering) && newMessages == run.ended
      ensures o.Returned? ==> Acting(n, NewBatch(o.value)) && context == base + run.ended && Begun()
      ensures o.Returned? && !Broken(o.value) ==> responses > 0
      ensures o.Threw? ==> !(aborted && o.isAbort)
      ensures old(aborted) ==> aborted
      ensures newMessages == old(newMessages) + pending + (if o.Returned? then [o.value] else [])
      ensures Underway()
    {
      StartTurn(firstTurn, pending, source, n, owes);
      o := Respond(responses, n);
    }

    /** The run has emitted its end, with everything it added, and only then. */
    ghost predicate Complete()
      reads this, steering, followUp
    {
      && Ready()
      && activeRun && isStreaming
      && Recorded(run, base, setup)
      && messages == base + run.ended && newMessages == run.ended
      && run.ends == 1 && run.phase.Done?
      && run.trace != [] && run.trace[|run.trace| - 1].event == AgentEnd(newMessages)
      && |sources| == |newMessages| && Accounted()
    }

    /** The loop threw: nothing emitted is missing from the new messages, and nothing drained but what was dropped. */
    ghost predicate Broke()
      reads this, steering, followUp
    {
      Live() && newMessages == run.ended && Accounted()
    }

    /** The loop between two turns. */
    ghost predicate Resting(n: nat, owes: bool)
      reads this, steering, followUp
    {
      && Live() && Level()
      && run.phase == Between(n, owes) && n > 0
      && (aborted || !skipSteeringPoll)
    }

    /** The source polled last was found empty. */
    ghost predicate FoundEmpty(source: Source)
      reads this
    {
      polls != [] && polls[|polls| - 1] == Made(source, 0, 0)
    }

    /** The source polled last gave nothing; it was passed over only after an abort. */
    ghost predicate Passed(source: Source)
      reads this
    {
      && polls != [] && polls[|polls| - 1].GaveNothing(source)
      && (polls[|polls| - 1].Skipped? ==> aborted)
    }

    /** What the run will not come to any more. */
    ghost method Drop(lost: Lost)
      requires Live() && Conserved(lost.messages, lost.source) && (lost.messages != [] ==> aborted)
      modifies this`dropped
      ensures dropped == lost && newMessages == old(newMessages)
      ensures Live() && Accounted()
    {
      assert Recorded(run, base, setup);
      dropped := lost;
      assert Recorded(run, base, setup) && Ready();
    }

    method EmitEnd(ghost lost: Lost)
      requires Live() && Level()
      requires Conserved(lost.messages, lost.source) && (lost.messages != [] ==> aborted)
      requires run.phase.Stopping? || (run.phase.Between? && run.phase.turns > 0)
      modifies this`messages, this`streamingMessage, this`pendingToolCalls, this`run, this`aborted, this`dropped
      modifies steering`mode, steering`batches, steering`enqueued, followUp`mode, followUp`batches, followUp`enqueued
      ensures Complete()
      ensures old(run.phase.Between?) ==> run.phase.owes == old(run.phase.owes)
      ensures old(aborted) ==> aborted
    {
      dropped := lost;
      ProcessEvents(AgentEnd(newMessages));
    }

    /** Every call that started has its result. */
    ghost predicate Closing(message: Message, results: seq<Message>, n: nat)
      reads this
    {
      && run.phase.Tools? && run.phase.turns == n
      && run.phase.batch.assistant == message
      && run.phase.batch.running == multiset{}
      && run.phase.batch.results == results
      && run.phase.batch.started == |results|
    }

    /** The end of a turn, with the transcripts in agreement. */
    method EndTurn(message: Message, results: seq<Message>, ghost n: nat)
      requires Live() && Level() && Closing(message, results, n)
      requires Broken(message) ==> results == []
      requires !Broken(message) && |results| < |Calls(message)| ==> aborted && !setup.MayOverlap(Calls(message))
      requires setup.FailsUnknown(Calls(message), results)
      modifies this`messages, this`streamingMessage, this`pendingToolCalls, this`run, this`aborted
      modifies steering`mode, steering`batches, steering`enqueued, followUp`mode, followUp`batches, followUp`enqueued
      ensures Live() && Level()
      ensures run.phase == if old(aborted) || Broken(message) then Stopping(n + 1)
                           else Between(n + 1, old(Owes(run.phase.batch)))
      ensures old(aborted) ==> aborted
    {
      assert forall id :: id in pendingToolCalls ==> id in Running(run.phase);
      assert pendingToolCalls == {};
      Emit(TurnEnd(message, results));
    }

    /** The results of the tools join the context and the run. */
    method TakeResults(results: seq<Message>)
      requires Live() && Conserved([], Steering) && run.ended == newMessages + results && context == base + newMessages
      requires Begun()
      modifies this`context, this`newMessages, this`sources
      ensures Live() && Level() && Conserved([], Steering) && Begun()
      ensures old(newMessages) <= newMessages
    {
      assert Recorded(run, base, setup) && Ready();
      context := context + results;
      assert Recorded(run, base, setup) && Ready();
      Produce(results);
      assert base + (old(newMessages) + results) == base + old(newMessages) + results;
    }

    /** The tool calls of a response, if any: their results join the run. */
    method UseTools(message: Message, ghost n: nat) returns (results: seq<Message>, more: bool)
      requires Acting(n, NewBatch(message)) && newMessages == run.ended && context == base + run.ended
      requires !Broken(message) && Conserved([], Steering) && Begun()
      modifies this`messages, this`streamingMessage, this`pendingToolCalls, this`run, this`aborted
      modifies this`context, this`newMessages, this`sources
      modifies steering`mode, steering`batches, steering`enqueued, followUp`mode, followUp`batches, followUp`enqueued
      ensures Live() && Level() && Conserved([], Steering) && Begun()
      ensures Closing(message, results, n)
      ensures |results| < |Calls(message)| ==> aborted && !setup.MayOverlap(Calls(message))
      ensures setup.FailsUnknown(Calls(message), results)
      ensures !aborted ==> more == Owes(run.phase.batch)
      ensures old(aborted) ==> aborted
      ensures old(newMessages) <= newMessages
    {
      results, more := [], false;
      if |Calls(message)| > 0 {
        var terminate;
        results, terminate := ExecuteToolCalls(message, n);
        more := !terminate;
        TakeResults(results);
      }
    }

    /** The turn's end and, after an abort or a broken message, the run's. */
    method Close(message: Message, results: seq<Message>, ghost n: nat) returns (over: bool)
      requires Live() && Level() && Closing(message, results, n)
      requires Broken(message) ==> results == []
      requires !Broken(message) && |results| < |Calls(message)| ==> aborted && !setup.MayOverlap(Calls(message))
      requires setup.FailsUnknown(Calls(message), results)
      requires Conserved([], Steering)
      modifies this`messages, this`streamingMessage, this`pendingToolCalls, this`run, this`aborted, this`dropped
      modifies steering`mode, steering`batches, steering`enqueued, followUp`mode, followUp`batches, followUp`enqueued
      ensures over ==> Complete()
      ensures !over ==> Live() && Level() && Conserved([], Steering) && !aborted && !Broken(message)
      ensures !over ==> run.phase == Between(n + 1, old(Owes(run.phase.batch)))
      ensures over && !Broken(message) ==> aborted
      ensures old(aborted) ==> aborted
    {
      EndTurn(message, results, n);
      over := Broken(message) || aborted;
      if over {
        EmitEnd(NOTHING_LOST);
      }
    }

    /** The second half of a turn: the tools, and the turn's end. */
    method Act(message: Message, ghost n: nat) returns (t: Turned)
      requires Acting(n, NewBatch(message)) && newMessages == run.ended && context == base + run.ended
      requires Conserved([], Steering) && (aborted || !skipSteeringPoll) && Begun()
      modifies this`messages, this`streamingMessage, this`pendingToolCalls, this`run, this`aborted, this`dropped
      modifies this`context, this`newMessages, this`sources
      modifies steering`mode, steering`batches, steering`enqueued, followUp`mode, followUp`batches, followUp`enqueued
      ensures t.Finished? ==> Ends(t.why) && (t.why == if Broken(message) then ByMessage else ByAbort)
      ensures t.Next? ==> Resting(n + 1, t.hasMoreToolCalls) && Conserved([], Steering)
      ensures t.Next? ==> !aborted && t.pending == [] && !Broken(message)
      ensures !t.Failing? && Begun()
      ensures old(aborted) ==> aborted
      ensures old(newMessages) <= newMessages
    {
      var results, more := [], false;
      if !Broken(message) {
        results, more := UseTools(message, n);
      }
      var over := Close(message, results, n);
      if over {
        t := Finished(if Broken(message) then ByMessage else ByAbort);
      } else {
        t := Next(more, []);
      }
    }

    // ---- Between turns --------------------------------------------------------------------------

    /**
     Drains one of the queues unless the run is aborted. Only an abort can make it fail,
     and then what was drained may be lost; otherwise an empty answer means an empty queue.
     */
    method PollQueue(source: Source) returns (o: Outcome<seq<Input>>)
      requires source == Steering || source == FollowUp
      requires Live() && Conserved([], Steering)
      requires source == FollowUp ==> Passed(Steering)
      modifies this`aborted, this`polls, this`since, this`dropped, this`skipSteeringPoll
      modifies steering, followUp
      ensures Live() && run == old(run) && base == old(base)
      ensures newMessages == old(newMessages) && context == old(context)
      ensures o.Returned? ==> Conserved(o.value, source)
      ensures o.Returned? && o.value == [] && (old(aborted) || !old(skipSteeringPoll)) ==> Passed(source)
      ensures o.Returned? && source == Steering && old(skipSteeringPoll) ==> o.value == []
      ensures o.Threw? ==> aborted && o.isAbort && Accounted()
      ensures Noted(old(polls), source, old(aborted))
      ensures old(aborted) ==> aborted
      ensures aborted || !skipSteeringPoll || (source == FollowUp && old(skipSteeringPoll))
    {
      if aborted {
        PassOver(source, |(if source == Steering then steering else followUp).batches|);
        NothingPending(Accounts(), source);
        return Returned([]);
      }
      var got := LookInto(source);
      var s := RaceResolved();
      if s.Rejected? {
        Drop(Lost(got, source));
        return Threw(true);
      }
      o := Returned(got);
    }

    /** Drains a queue, except that the first look at steering may be left out. */
    method LookInto(source: Source) returns (got: seq<Input>)
      requires source == Steering || source == FollowUp
      requires Live() && Conserved([], Steering) && !aborted
      requires source == FollowUp ==> Passed(Steering)
      modifies this`polls, this`since, this`skipSteeringPoll, steering, followUp
      ensures Live() && Conserved(got, source)
      ensures Noted(old(polls), source, false)
      ensures got == [] && !old(skipSteeringPoll) ==> FoundEmpty(source)
      ensures source == Steering && old(skipSteeringPoll) ==> got == [] && polls == old(polls)
      ensures source == FollowUp && got == [] ==> FoundEmpty(source)
      ensures skipSteeringPoll == (source == FollowUp && old(skipSteeringPoll))
    {
      got := [];
      if source == FollowUp {
        got := Take(followUp, source);
      } else if skipSteeringPoll {
        skipSteeringPoll := false;
      } else {
        got := Take(steering, source);
      }
    }

    /** One more poll is on record, skipped exactly if that was called for; only the first look at steering is not. */
    ghost predicate Noted(before: seq<Poll>, source: Source, skipped: bool)
      reads this`polls
    {
      || (polls == before && !skipped && source == Steering)
      || (&& |polls| == |before| + 1 && before <= polls
          && polls[|before|].source == source && (polls[|before|].Skipped? <==> skipped))
    }

    /** An aborted run does not look into its queues any more. */
    ghost method PassOver(source: Source, left: nat)
      requires source == Steering || source == FollowUp
      requires Live() && aborted
      requires source == FollowUp ==> Passed(Steering)
      modifies this`polls
      ensures Live()
      ensures polls == old(polls) + [Skipped(source, left)]
    {
      assert Recorded(run, base, setup);
      PollInOrder(polls, Skipped(source, left));
      polls := polls + [Skipped(source, left)];
      assert Recorded(run, base, setup) && Ready();
    }

    ghost method Note(p: Poll)
      requires Due(polls, p)
      modifies this`polls, this`since
      ensures polls == old(polls) + [p] && since == |newMessages|
    {
      PollInOrder(polls, p);
      polls := polls + [p];
      since := |newMessages|;
    }

    method Take(queue: PendingMessageQueue, ghost source: Source) returns (got: seq<Input>)
      requires (source == Steering && queue == steering) || (source == FollowUp && queue == followUp)
      requires Live() && Conserved([], Steering) && !aborted
      requires source == FollowUp ==> FoundEmpty(Steering)
      modifies this`polls, this`since, queue`batches, queue`taken
      ensures Live() && Conserved(got, source)
      ensures Noted(old(polls), source, false)
      ensures got == [] ==> FoundEmpty(source)
    {
      ghost var before := Accounts();
      assert Recorded(run, base, setup);
      got := queue.Drain();
      DrainBalances(before, Accounts(), got, source);
      Note(Made(source, |got|, |queue.batches|));
      assert Recorded(run, base, setup) && Ready();
    }

    /** Nothing is left: the last turn owed nothing, and both queues and then the continuation were found empty. */
    ghost predicate NothingLeft()
      reads this
    {
      && run.phase.Done? && !run.phase.owes
      && FoundEmpty(Continuation) && BothFoundEmpty(polls[..|polls| - 1])
    }

    /** The host's hook, called as a plain function: it may abort or queue, and answers or throws anything. */
    method ShouldStopBeforeTurn() returns (o: Outcome<bool>)
      requires Ready()
      modifies this`aborted
      modifies steering`mode, steering`batches, steering`enqueued, followUp`mode, followUp`batches, followUp`enqueued
      ensures Ready()
      ensures old(aborted) ==> aborted
    {
      Await();
      if * {
        var stop: bool := *;
        o := Returned(stop);
      } else {
        var isAbort: bool := *;
        o := Threw(isAbort);
      }
    }

    /** The run is complete, and for the reason given. */
    ghost predicate Ends(why: Ending)
      reads this, steering, followUp
    {
      Complete() && (why == ByAbort ==> aborted) && (why == Idle ==> NothingLeft())
    }

    /** How the loop went: it ended the run, or threw. */
    ghost predicate Looped(o: Outcome<Ending>)
      reads this, steering, followUp
    {
      match o
      case Returned(why) => Ends(why)
      case Threw(_) => Broke()
    }

    /** A hook was refused: an abort ends the run, any other error leaves the loop. */
    method GiveUp(isAbort: bool, ghost n: nat, ghost owes: bool) returns (t: Turned)
      requires Resting(n, owes) && Conserved([], Steering)
      modifies this`messages, this`streamingMessage, this`pendingToolCalls, this`run, this`aborted, this`dropped
      modifies steering`mode, steering`batches, steering`enqueued, followUp`mode, followUp`batches, followUp`enqueued
      ensures t == if old(aborted) && isAbort then Finished(ByAbort) else Failing(isAbort)
      ensures t.Finished? ==> Ends(ByAbort)
      ensures t.Failing? ==> Broke()
      ensures old(aborted) ==> aborted
    {
      if !(aborted && isAbort) {
        Drop(NOTHING_LOST);
        return Failing(isAbort);
      }
      EmitEnd(NOTHING_LOST);
      t := Finished(ByAbort);
    }

    /** What a stop hook leaves: the run ended, the loop left, or neither. */
    ghost predicate Asked(t: Option<Turned>, n: nat, owes: bool)
      reads this, steering, followUp
    {
      match t
      case None => Resting(n, owes) && Conserved([], Steering)
      case Some(Finished(why)) => Ends(why) && (why == ByHook || why == ByAbort)
      case Some(Failing(_)) => Broke()
      case Some(Next(_, _)) => false
    }

    /** shouldStopBeforeTurn: it may end the run, or leave the loop by throwing. */
    method MayStopBeforeTurn(ghost n: nat, ghost owes: bool) returns (t: Option<Turned>)
      requires Resting(n, owes) && Conserved([], Steering)
      modifies this`messages, this`streamingMessage, this`pendingToolCalls, this`run, this`aborted, this`dropped
      modifies steering`mode, steering`batches, steering`enqueued, followUp`mode, followUp`batches, followUp`enqueued
      ensures Asked(t, n, owes)
      ensures old(aborted) ==> aborted
    {
      t := None;
      var o := ShouldStopBeforeTurn();
      if o.Threw? {
        Drop(NOTHING_LOST);
        t := Some(Failing(o.isAbort));
      } else if o.value {
        EmitEnd(NOTHING_LOST);
        t := Some(Finished(ByHook));
      }
    }

    /** shouldStopAfterTurn, which may also throw on the spot, and then shouldStopBeforeTurn. */
    method MayStopAfterTurn(ghost n: nat, ghost owes: bool) returns (t: Option<Turned>)
      requires Resting(n, owes) && Conserved([], Steering)
      modifies this`messages, this`streamingMessage, this`pendingToolCalls, this`run, this`aborted, this`dropped
      modifies steering`mode, steering`batches, steering`enqueued, followUp`mode, followUp`batches, followUp`enqueued
      ensures Asked(t, n, owes)
      ensures old(aborted) ==> aborted
    {
      var thrown: Option<bool> := *;
      if thrown.Some? {
        Drop(NOTHING_LOST);
        return Some(Failing(thrown.value));
      }
      var asked := Race();
      if asked.Rejected? {
        var given := GiveUp(asked.isAbort, n, owes);
        return Some(given);
      }
      var stop: bool := *;
      if stop {
        EmitEnd(NOTHING_LOST);
        return Some(Finished(ByHook));
      }
      t := MayStopBeforeTurn(n, owes);
    }

    /** A turn and the look at steering after it: no message is pending only if steering gave none. */
    ghost predicate Steered(t: Turned, n: nat)
      reads this, steering, followUp
    {
      match t
      case Finished(why) => Ends(why) && why != Idle
      case Failing(_) => Broke()
      case Next(more, pending) =>
        Resting(n, more) && Conserved(pending, Steering) && (pending == [] ==> Passed(Steering))
    }

    /** After a turn: may the run stop here, and what was steered meanwhile? */
    method AfterTurn(hasMoreToolCalls: bool, ghost n: nat) returns (t: Turned)
      requires Resting(n, hasMoreToolCalls) && Conserved([], Steering)
      modifies this`messages, this`streamingMessage, this`pendingToolCalls, this`run, this`aborted
      modifies this`polls, this`since, this`dropped, this`skipSteeringPoll
      modifies steering, followUp
      ensures Steered(t, n)
      ensures t.Next? ==> t.hasMoreToolCalls == hasMoreToolCalls
      ensures t.Finished? ==> t.why == ByHook || t.why == ByAbort
      ensures newMessages == old(newMessages)
      ensures old(aborted) ==> aborted
    {
      var stopped := MayStopAfterTurn(n, hasMoreToolCalls);
      if stopped.Some? {
        return stopped.value;
      }
      var polled := PollQueue(Steering);
      if polled.Threw? {
        EmitEnd(dropped);
        return Finished(ByAbort);
      }
      if |polled.value| == 0 {
        assert polled.value == [];
        stopped := MayStopBeforeTurn(n, hasMoreToolCalls);
        if stopped.Some? {
          return stopped.value;
        }
      }
      t := Next(hasMoreToolCalls, polled.value);
    }

    /** The host's hook for messages to go on with; it is called even when the run is aborted. */
    method CallContinuation(ghost n: nat) returns (got: seq<Input>)
      requires Resting(n, false) && Conserved([], Steering) && Passed(FollowUp)
      modifies this`polls
      ensures Resting(n, false) && Conserved([], Steering)
      ensures polls == old(polls) + [Made(Continuation, |got|, 0)]
      ensures !aborted ==> BothFoundEmpty(old(polls))
    {
      got := *;
      ghost var p := Made(Continuation, |got|, 0);
      PollInOrder(polls, p);
      polls := polls + [p];
      if !aborted {
        EmptyWhenMade(old(polls));
      }
    }

    /** Both queues and the continuation were found empty. */
    method RunDry(ghost n: nat) returns (t: Turned)
      requires Resting(n, false) && Conserved([], Steering)
      requires FoundEmpty(Continuation) && BothFoundEmpty(polls[..|polls| - 1])
      modifies this`messages, this`streamingMessage, this`pendingToolCalls, this`run, this`aborted, this`dropped
      modifies steering`mode, steering`batches, steering`enqueued, followUp`mode, followUp`batches, followUp`enqueued
      ensures t == Finished(Idle) && Ends(Idle)
      ensures old(aborted) ==> aborted
    {
      EmitEnd(NOTHING_LOST);
      t := Finished(Idle);
    }

    /** A look for more: an end, or something to go on with. */
    ghost predicate Found(t: Turned, source: Source, n: nat)
      reads this, steering, followUp
    {
      match t
      case Finished(why) => Ends(why) && why != ByMessage
      case Failing(_) => Broke()
      case Next(_, pending) => Resting(n, false) && Conserved(pending, source) && pending != []
    }

    /** Asks for a continuation; without one the run is over. */
    method AskContinuation(ghost n: nat) returns (t: Turned, ghost source: Source)
      requires Resting(n, false) && Conserved([], Steering) && Passed(FollowUp)
      modifies this`messages, this`streamingMessage, this`pendingToolCalls, this`run, this`aborted
      modifies this`polls, this`dropped
      modifies steering`mode, steering`batches, steering`enqueued, followUp`mode, followUp`batches, followUp`enqueued
      ensures Found(t, source, n)
      ensures t.Finished? ==> t.why == ByAbort || t.why == Idle
      ensures old(aborted) ==> aborted
    {
      source := Continuation;
      var got := CallContinuation(n);
      var asked := Race();
      if asked.Rejected? {
        t := GiveUp(asked.isAbort, n, false);
      } else if |got| > 0 {
        DrainBalances(Accounts(), Accounts(), got, Continuation);
        t := Next(true, got);
      } else {
        t := RunDry(n);
      }
    }

    /** Follow-ups first, then a continuation. */
    method PollForMore(ghost n: nat) returns (t: Turned, ghost source: Source)
      requires Resting(n, false) && Conserved([], Steering) && Passed(Steering)
      modifies this`messages, this`streamingMessage, this`pendingToolCalls, this`run, this`aborted
      modifies this`polls, this`since, this`dropped, this`skipSteeringPoll
      modifies steering, followUp
      ensures Found(t, source, n)
      ensures old(aborted) ==> aborted
    {
      source := FollowUp;
      var polled := PollQueue(FollowUp);
      if polled.Threw? {
        EmitEnd(dropped);
        t := Finished(ByAbort);
        return;
      }
      if |polled.value| > 0 {
        t := Next(true, polled.value);
        return;
      }
      var stopped := MayStopBeforeTurn(n, false);
      if stopped.Some? {
        t := stopped.value;
        return;
      }
      t, source := AskContinuation(n);
    }

    /** The loop would stop: follow-ups first, then a continuation, may give it more to do. */
    method FindMore(ghost n: nat) returns (t: Turned, ghost source: Source)
      requires Resting(n, false) && Conserved([], Steering) && Passed(Steering)
      modifies this`messages, this`streamingMessage, this`pendingToolCalls, this`run, this`aborted
      modifies this`polls, this`since, this`dropped, this`skipSteeringPoll
      modifies steering, followUp
      ensures Found(t, source, n)
      ensures old(aborted) ==> aborted
    {
      source := FollowUp;
      var stopped := MayStopBeforeTurn(n, false);
      if stopped.Some? {
        t := stopped.value;
        return;
      }
      t, source := PollForMore(n);
    }

    // ---- The loop ---------------------------------------------------------------------------------

    /** The loop is about to start a turn; the first one has been announced already. */
    ghost predicate AtTurn(firstTurn: bool, n: nat, owes: bool)
      reads this, steering, followUp
    {
      && Live() && Level()
      && run.phase == (if firstTurn then Messages(n) else Between(n, owes))
      && (firstTurn || n > 0)
      && (aborted || !skipSteeringPoll)
    }

    /** What is pending first is not steering that should have waited for a response. */
    ghost predicate Ordered(firstTurn: bool, pending: seq<Input>)
      reads this`sources, this`start
    {
      Underway() && (Begun() || (firstTurn && pending == []))
    }

    /** What follows the response: the tools, the turn's end, and the look at steering. */
    method FinishTurn(message: Message, ghost n: nat) returns (t: Turned)
      requires Acting(n, NewBatch(message)) && newMessages == run.ended && context == base + run.ended
      requires Conserved([], Steering) && (aborted || !skipSteeringPoll) && Begun()
      modifies this`messages, this`streamingMessage, this`pendingToolCalls, this`run, this`aborted
      modifies this`context, this`newMessages, this`sources, this`polls, this`since, this`dropped, this`skipSteeringPoll
      modifies steering, followUp
      ensures Steered(t, n + 1) && Begun()
      ensures t.Next? ==> !Broken(message)
      ensures old(aborted) ==> aborted
      ensures old(newMessages) <= newMessages
    {
      t := Act(message, n);
      if t.Next? {
        t := AfterTurn(t.hasMoreToolCalls, n + 1);
      }
    }

    /** One pass of the inner loop. */
    method RunTurn(firstTurn: bool, pending: seq<Input>, ghost source: Source, responses: nat, ghost n: nat,
                   ghost owes: bool)
      returns (t: Turned)
      requires AtTurn(firstTurn, n, owes) && Conserved(pending, source) && Ordered(firstTurn, pending)
      modifies this`messages, this`streamingMessage, this`pendingToolCalls, this`run, this`aborted
      modifies this`context, this`newMessages, this`sources, this`polls, this`since, this`dropped, this`skipSteeringPoll
      modifies steering, followUp
      ensures Steered(t, n + 1)
      ensures t.Next? ==> responses > 0
      ensures Underway() && (t.Next? ==> Begun())
      ensures old(aborted) ==> aborted
      ensures old(newMessages) <= newMessages
    {
      ghost var before := newMessages;
      var o := Speak(firstTurn, pending, source, responses, n, owes);
      ghost var spoken := newMessages;
      assert before <= spoken;
      if o.Threw? {
        Drop(NOTHING_LOST);
        return Failing(o.isAbort);
      }
      t := FinishTurn(o.value, n);
      GrowsOn(before, spoken, newMessages);
    }

    /** The inner loop: turns, as long as tool results or steering messages ask for another. */
    method RunTurns(first: bool, queued: seq<Input>, ghost from: Source, responses: nat, ghost turn: nat,
                    ghost owed: bool)
      returns (t: Turned, left: nat, ghost n: nat)
      requires AtTurn(first, turn, owed) && Conserved(queued, from) && Ordered(first, queued)
      modifies this`messages, this`streamingMessage, this`pendingToolCalls, this`run, this`aborted
      modifies this`context, this`newMessages, this`sources, this`polls, this`since, this`dropped, this`skipSteeringPoll
      modifies steering, followUp
      ensures Steered(t, n)
      ensures t.Next? ==> t == Next(false, []) && left < responses
      ensures Underway() && (t.Next? ==> Begun())
      ensures old(aborted) ==> aborted
      ensures old(newMessages) <= newMessages
    {
      left, n := responses, turn;
      var firstTurn, hasMoreToolCalls, pending := first, true, queued;
      ghost var source, owes := from, owed;
      while hasMoreToolCalls || |pending| > 0
        invariant AtTurn(firstTurn, n, owes) && Conserved(pending, source) && Ordered(firstTurn, pending)
        invariant left < responses || (left == responses && hasMoreToolCalls)
        invariant left < responses ==> !firstTurn && Begun() && owes == hasMoreToolCalls && source == Steering
        invariant left < responses && pending == [] ==> Passed(Steering)
        invariant old(newMessages) <= newMessages
        invariant old(aborted) ==> aborted
        decreases left
      {
        if aborted {
          Drop(Lost(pending, source));
          t := Failing(true);
          return;
        }
        t := RunTurn(firstTurn, pending, source, left, n, owes);
        if !t.Next? {
          return;
        }
        firstTurn, hasMoreToolCalls, pending := false, t.hasMoreToolCalls, t.pending;
        left := left - 1;
        source, owes, n := Steering, t.hasMoreToolCalls, n + 1;
      }
      t := Next(false, []);
    }

    /** One pass of the outer loop: turns, then a look for more. */
    method RunRound(first: bool, queued: seq<Input>, ghost from: Source, responses: nat, ghost turn: nat)
      returns (t: Turned, left: nat, ghost source: Source, ghost n: nat)
      requires AtTurn(first, turn, false) && Conserved(queued, from) && Ordered(first, queued)
      modifies this`messages, this`streamingMessage, this`pendingToolCalls, this`run, this`aborted
      modifies this`context, this`newMessages, this`sources, this`polls, this`since, this`dropped, this`skipSteeringPoll
      modifies steering, followUp
      ensures t.Finished? ==> Ends(t.why)
      ensures t.Failing? ==> Broke()
      ensures t.Next? ==> AtTurn(false, n, false) && Conserved(t.pending, source) && left < responses
      ensures Underway() && (t.Next? ==> Begun())
      ensures old(aborted) ==> aborted
      ensures old(newMessages) <= newMessages
    {
      source := from;
      t, left, n := RunTurns(first, queued, from, responses, turn, false);
      if t.Next? {
        t, source := FindMore(n);
      }
    }

    /** Rounds, until one ends the run or throws. */
    method RunRounds(first: bool, queued: seq<Input>, ghost from: Source, responses: nat) returns (o: Outcome<Ending>)
      requires AtTurn(first, 0, false) && Conserved(queued, from) && Ordered(first, queued)
      modifies this`messages, this`streamingMessage, this`pendingToolCalls, this`run, this`aborted
      modifies this`context, this`newMessages, this`sources, this`polls, this`since, this`dropped, this`skipSteeringPoll
      modifies steering, followUp
      ensures Looped(o) && Underway()
      ensures old(newMessages) <= newMessages
    {
      var firstTurn, left, pending := first, responses, queued;
      ghost var source, n := from, 0;
      while true
        invariant AtTurn(firstTurn, n, false) && Conserved(pending, source) && Ordered(firstTurn, pending)
        invariant old(newMessages) <= newMessages
        decreases left
      {
        if aborted {
          Drop(Lost(pending, source));
          return Threw(true);
        }
        var t;
        t, left, source, n := RunRound(firstTurn, pending, source, left, n);
        if t.Finished? {
          return Returned(t.why);
        } else if t.Failing? {
          return Threw(t.isAbort);
        }
        firstTurn, pending := false, t.pending;
      }
    }

    /** The loop of a run; it stops, or throws and leaves the ending to the agent. */
    method RunLoop(responses: nat) returns (o: Outcome<Ending>)
      requires Live() && Level() && run.phase == Messages(0) && Conserved([], Steering)
      requires Underway() && (skipSteeringPoll || Begun())
      modifies this`messages, this`streamingMessage, this`pendingToolCalls, this`run, this`aborted
      modifies this`context, this`newMessages, this`sources, this`polls, this`since, this`dropped, this`skipSteeringPoll
      modifies steering, followUp
      ensures Looped(o) && Underway()
      ensures old(newMessages) <= newMessages
      ensures base == old(base) && steeringBase == old(steeringBase) && followUpBase == old(followUpBase)
    {
      var polled := PollQueue(Steering);
      if polled.Threw? {
        return Threw(true);
      }
      o := RunRounds(true, polled.value, Steering, responses);
    }

    // ---- Runs --------------------------------------------------------------------------------------

    /** Between runs. */
    ghost predicate AtRest()
      reads this, steering, followUp
    {
      && Ready()
      && !activeRun && !isStreaming
      && pendingToolCalls == {} && streamingMessage == None
    }

    /** What a run leaves, whatever way it went. */
    ghost predicate Left(o: Outcome<Ending>)
      reads this, steering, followUp
    {
      && Ready()
      && Recorded(run, base, setup)
      && messages == base + run.ended
      && run.ends == 1 && run.trace != []
      && (o.Returned? ==> ReturnedWell(o.value))
      && (o.Threw? ==> LeftFailure())
      && Accounted()
    }

    ghost predicate Over(o: Outcome<Ending>)
      reads this, steering, followUp
    {
      AtRest() && Left(o)
    }

    ghost predicate ReturnedWell(why: Ending)
      requires run.trace != []
      reads this
    {
      && run.phase.Done?
      && messages == base + newMessages
      && run.trace[|run.trace| - 1].event == AgentEnd(newMessages)
      && (why == ByAbort ==> aborted)
      && (why == Idle ==> NothingLeft())
    }

    /**
     The run threw: one empty message follows what it had added, marked aborted or failed as the
     run was when it was reported, and is all its end reports.
     */
    ghost predicate LeftFailure()
      requires run.trace != []
      reads this
    {
      var reported := |run.trace| - 3;
      && 0 <= reported
      && var failure := Assistant("", [], if run.trace[reported].aborted then Aborted else Failed);
         && run.trace[reported].event == MessageStart(failure)
         && messages == base + newMessages + [failure]
         && run.trace[reported + 2].event == AgentEnd([failure])
    }

    /** What was drained for the prompts of a run is accounted to it. */
    ghost predicate Opening(prompts: seq<Input>, source: Source, steeringBefore: seq<Message>,
                            followUpBefore: seq<Message>)
      reads this, steering, followUp
    {
      && Flatten<Input>(steering.taken) == steeringBefore + (if source == Steering then prompts else [])
      && Flatten<Input>(followUp.taken) == followUpBefore + (if source == FollowUp then prompts else [])
    }

    /** The run began with some messages from one source; with `answered`, what came next was a response. */
    ghost predicate BeganWith(prompts: seq<Input>, source: Source, answered: bool)
      reads this
    {
      && prompts <= newMessages
      && |newMessages| == |sources| && Repeat(source, |prompts|) <= sources
      && (answered && |prompts| < |sources| ==> sources[|prompts|] == Generated)
    }

    /** A run that has set up the agent's side, and emitted nothing. */
    ghost predicate Fresh()
      reads this, steering, followUp
    {
      && Live() && run == History([], Before, [], 0) && polls == [] && since == 0
      && newMessages == [] && context == base && start == []
    }

    /** Sets up the agent's side of a run, with a snapshot of the transcript. */
    method Begin(skip: bool)
      requires AtRest()
      modifies this`activeRun, this`aborted, this`isStreaming, this`streamingMessage
      modifies this`skipSteeringPoll, this`context, this`newMessages
      ensures Ready() && activeRun && isStreaming && context == messages && newMessages == []
      ensures skipSteeringPoll == skip
    {
      activeRun, aborted, isStreaming := true, false, true;
      streamingMessage := None;
      skipSteeringPoll := skip;
      context, newMessages := messages, [];
    }

    /** Opens the record of a run. */
    ghost method Record(steeringBefore: seq<Message>, followUpBefore: seq<Message>)
      requires Ready() && activeRun && isStreaming && pendingToolCalls == {} && context == messages && newMessages == []
      modifies this`base, this`run, this`polls, this`since, this`dropped, this`sources, this`start
      modifies this`steeringBase, this`followUpBase
      ensures Fresh() && base == messages && steeringBase == steeringBefore && followUpBase == followUpBefore
    {
      assert Ready();
      NothingRecorded(messages, setup);
      base, sources, start, polls, since, dropped := messages, [], [], [], 0, NOTHING_LOST;
      run := History([], Before, [], 0);
      steeringBase, followUpBase := steeringBefore, followUpBefore;
      assert base + [] == base;
      assert Recorded(run, base, setup);
      assert Ready();
      assert Live();
    }

    method Start(skip: bool, ghost steeringBefore: seq<Message>, ghost followUpBefore: seq<Message>)
      requires AtRest()
      modifies this`activeRun, this`aborted, this`isStreaming, this`streamingMessage
      modifies this`skipSteeringPoll, this`context, this`newMessages
      modifies this`base, this`run, this`polls, this`since, this`dropped, this`sources, this`start
      modifies this`steeringBase, this`followUpBase
      ensures Fresh() && base == messages && steeringBase == steeringBefore && followUpBase == followUpBefore
      ensures skipSteeringPoll == skip
    {
      Begin(skip);
      Record(steeringBefore, followUpBefore);
    }

    /** The run's own start, its first turn's, and the prompts. */
    method EmitPrompts(prompts: seq<Input>)
      requires Live() && run.phase == Before && run.ended == []
      modifies this`messages, this`streamingMessage, this`pendingToolCalls, this`run, this`aborted
      modifies steering`mode, steering`batches, steering`enqueued, followUp`mode, followUp`batches, followUp`enqueued
      ensures Live() && run.phase == Messages(0) && run.ended == prompts
      ensures base == old(base) && steeringBase == old(steeringBase) && followUpBase == old(followUpBase)
    {
      Emit(AgentStart);
      Emit(TurnStart);
      var i := 0;
      while i < |prompts|
        invariant 0 <= i <= |prompts|
        invariant Live() && run.phase == Messages(0) && run.ended == prompts[..i]
      {
        EmitMessage(prompts[i], Messages(0), Messages(0));
        i := i + 1;
      }
      assert prompts[..i] == prompts;
    }

    /** The prompts join the run and the context before anything is emitted. */
    method OpenWith(prompts: seq<Input>, ghost source: Source)
      requires Fresh() && Opening(prompts, source, steeringBase, followUpBase)
      modifies this`context, this`newMessages, this`sources, this`start
      ensures Live() && run == old(run) && Conserved([], Steering)
      ensures newMessages == prompts && context == base + prompts
      ensures Underway() && (skipSteeringPoll || Begun())
      ensures start == Beginning(|prompts|, source, skipSteeringPoll)
    {
      newMessages := prompts;
      context := context + prompts;
      sources := Repeat(source, |prompts|);
      start := Beginning(|prompts|, source, skipSteeringPoll);
      OpenBalances(Accounts(), source);
      assert Recorded(run, base, setup) && Ready();
    }

    method RunAgentLoop(prompts: seq<Input>, ghost source: Source, responses: nat) returns (o: Outcome<Ending>)
      requires Fresh() && Opening(prompts, source, steeringBase, followUpBase) && source != Generated
      modifies this`messages, this`streamingMessage, this`pendingToolCalls, this`run, this`aborted
      modifies this`context, this`newMessages, this`sources, this`polls, this`since, this`dropped, this`skipSteeringPoll
      modifies this`start
      modifies steering, followUp
      ensures Looped(o)
      ensures BeganWith(prompts, source, old(skipSteeringPoll))
      ensures start == Beginning(|prompts|, source, old(skipSteeringPoll))
      ensures base == old(base) && steeringBase == old(steeringBase) && followUpBase == old(followUpBase)
    {
      OpenWith(prompts, source);
      EmitPrompts(prompts);
      o := RunLoop(responses);
      BeganAs(start, sources, |prompts|, source, old(skipSteeringPoll));
    }

    method RunAgentLoopContinue(responses: nat) returns (o: Outcome<Ending>)
      requires Fresh() && Opening([], Prompted, steeringBase, followUpBase) && !skipSteeringPoll
      modifies this`messages, this`streamingMessage, this`pendingToolCalls, this`run, this`aborted
      modifies this`context, this`newMessages, this`sources, this`polls, this`since, this`dropped, this`skipSteeringPoll
      modifies steering, followUp
      ensures Looped(o)
      ensures base == old(base) && steeringBase == old(steeringBase) && followUpBase == old(followUpBase)
      ensures start == []
    {
      assert sources == Repeat(Prompted, 0);
      OpenBalances(Accounts(), Prompted);
      if |context| == 0 || context[|context| - 1].Assistant? {
        Drop(NOTHING_LOST);
        return Threw(false);
      }
      EmitPrompts([]);
      o := RunLoop(responses);
    }

    /** The failure message, from its start to its end. */
    method ReportFailure(failure: Message)
      requires Live()
      modifies this`messages, this`streamingMessage, this`pendingToolCalls, this`run, this`aborted
      modifies steering`mode, steering`batches, steering`enqueued, followUp`mode, followUp`batches, followUp`enqueued
      ensures Live() && run.ended == old(run.ended) + [failure]
      ensures var n := |old(run.trace)|;
              |run.trace| == n + 2 && run.trace[n].event == MessageStart(failure) && run.trace[n].aborted == old(aborted)
      ensures old(aborted) ==> aborted
    {
      ProcessEvents(MessageStart(failure));
      ProcessEvents(MessageEnd(failure));
    }

    /** A run that threw still ends: with one failure message, and one end that reports only it. */
    method HandleRunFailure(wasAborted: bool, ghost o: Outcome<Ending>)
      requires Broke() && o.Threw? && wasAborted == aborted
      modifies this`messages, this`streamingMessage, this`pendingToolCalls, this`run, this`aborted
      modifies steering`mode, steering`batches, steering`enqueued, followUp`mode, followUp`batches, followUp`enqueued
      ensures Left(o)
      ensures base == old(base) && steeringBase == old(steeringBase) && followUpBase == old(followUpBase)
    {
      var failure := Assistant("", [], if wasAborted then Aborted else Failed);
      ReportFailure(failure);
      ProcessEvents(AgentEnd([failure]));
      assert messages == base + newMessages + [failure];
    }

    /** The agent is idle again. */
    method FinishRun(ghost o: Outcome<Ending>)
      requires Left(o)
      modifies this`isStreaming, this`streamingMessage, this`pendingToolCalls, this`activeRun
      ensures Over(o)
      ensures base == old(base) && steeringBase == old(steeringBase) && followUpBase == old(followUpBase)
    {
      assert Recorded(run, base, setup) && Accounted();
      isStreaming := false;
      streamingMessage := None;
      pendingToolCalls := {};
      activeRun := false;
      assert Recorded(run, base, setup) && Accounted() && Ready();
    }

    lemma EndIsLeft(why: Ending)
      requires Ends(why)
      ensures Left(Returned(why))
    {
    }

    /** However the loop went, the run is closed. */
    method Finish(o: Outcome<Ending>)
      requires Looped(o)
      modifies this`messages, this`streamingMessage, this`pendingToolCalls, this`run, this`aborted
      modifies this`isStreaming, this`activeRun
      modifies steering`mode, steering`batches, steering`enqueued, followUp`mode, followUp`batches, followUp`enqueued
      ensures Over(o)
      ensures base == old(base) && steeringBase == old(steeringBase) && followUpBase == old(followUpBase)
      ensures start == old(start)
    {
      if o.Threw? {
        HandleRunFailure(aborted, o);
      } else {
        EndIsLeft(o.value);
      }
      FinishRun(o);
    }

    /** A run from prompts: some given, or some just drained. */
    method RunPromptMessages(prompts: seq<Input>, skip: bool, responses: nat,
                             ghost source: Source, ghost steeringBefore: seq<Message>,
                             ghost followUpBefore: seq<Message>)
      returns (o: Outcome<Ending>)
      requires AtRest() && Opening(prompts, source, steeringBefore, followUpBefore) && source != Generated
      modifies this, steering, followUp
      ensures Over(o) && base == old(messages)
      ensures steeringBase == steeringBefore && followUpBase == followUpBefore
      ensures BeganWith(prompts, source, skip) && start == Beginning(|prompts|, source, skip)
    {
      Start(skip, steeringBefore, followUpBefore);
      o := RunAgentLoop(prompts, source, responses);
      Finish(o);
    }

    method RunContinuation(responses: nat) returns (o: Outcome<Ending>)
      requires AtRest()
      modifies this, steering, followUp
      ensures Over(o) && base == old(messages) && start == []
      ensures steeringBase == old(steering.Drained()) && followUpBase == old(followUp.Drained())
    {
      Start(false, steering.Drained(), followUp.Drained());
      assert steeringBase + [] == steeringBase && followUpBase + [] == followUpBase;
      o := RunAgentLoopContinue(responses);
      Finish(o);
    }

    /**
     Starts a run from some messages; refused while another is under way. `responses` is
     how often the provider still answers.
     */
    method Prompt(prompts: seq<Input>, responses: nat) returns (r: Option<Outcome<Ending>>)
      requires activeRun || AtRest()
      modifies this, steering, followUp
      ensures r == None <==> old(activeRun)
      ensures r == None ==> unchanged(this, steering, followUp)
      ensures r.Some? ==> Over(r.value) && base == old(messages)
      ensures r.Some? ==> steeringBase == old(steering.Drained()) && followUpBase == old(followUp.Drained())
      ensures r.Some? ==> BeganWith(prompts, Prompted, false)
    {
      if activeRun {
        return None;
      }
      var o := RunPromptMessages(prompts, false, responses, Prompted, steering.Drained(), followUp.Drained());
      r := Some(o);
    }

    /**
     A run from queued messages: it begins with steering as long as there is any, and then looks
     for more steering only after the first response; or else with follow-ups. In one mode that
     is everything that waited, in the other the oldest batch.
     */
    ghost predicate BeganFromQueues(steeringMode: Mode, steered: seq<seq<Input>>,
                                    followUpMode: Mode, followUps: seq<seq<Input>>)
      reads this
    {
      if steered != [] then
        BeganWith(if steeringMode == All then Flatten(steered) else steered[0], Steering, true)
      else
        followUps != []
        && BeganWith(if followUpMode == All then Flatten(followUps) else followUps[0], FollowUp, false)
    }

    /** A run from what is queued: steering if there is any, or else follow-ups. */
    method RunQueuedMessages(responses: nat) returns (r: Option<Outcome<Ending>>)
      requires AtRest()
      modifies this, steering, followUp
      ensures r == None <==> old(steering.taken == steering.enqueued && followUp.taken == followUp.enqueued)
      ensures r == None ==> AtRest() && unchanged(this)
      ensures r == None ==>
                steering.Drained() == old(steering.Drained()) && followUp.Drained() == old(followUp.Drained())
      ensures r.Some? ==> Over(r.value) && base == old(messages) && newMessages != []
      ensures r.Some? ==> steeringBase == old(steering.Drained()) && followUpBase == old(followUp.Drained())
      ensures r.Some? ==> start != []
      ensures r.Some? ==> BeganFromQueues(old(steering.mode), old(steering.batches),
                                          old(followUp.mode), old(followUp.batches))
    {
      ghost var steeringBefore, followUpBefore := steering.Drained(), followUp.Drained();
      var queuedSteering := steering.Drain();
      if |queuedSteering| > 0 {
        var o := RunPromptMessages(queuedSteering, true, responses, Steering, steeringBefore, followUpBefore);
        return Some(o);
      }
      var queuedFollowUps := followUp.Drain();
      if |queuedFollowUps| > 0 {
        var o := RunPromptMessages(queuedFollowUps, false, responses, FollowUp, steeringBefore, followUpBefore);
        return Some(o);
      }
      r := None;
    }

    /**
     Goes on from the transcript. After an assistant message, or without any, only queued
     messages can start a run; after a custom one they are preferred.
     */
    method Continue(responses: nat) returns (r: Continued)
      requires activeRun || AtRest()
      modifies this, steering, followUp
      ensures r == Busy <==> old(activeRun)
      ensures r == Busy ==> unchanged(this, steering, followUp)
      ensures r == NothingToContinue <==>
              old(!activeRun && (Last(messages) == None || Last(messages).value.Assistant?)
                  && steering.taken == steering.enqueued && followUp.taken == followUp.enqueued)
      ensures r == NothingToContinue ==> AtRest() && unchanged(this)
      ensures r.Ran? ==> Over(r.outcome) && base == old(messages)
      ensures r.Ran? ==> steeringBase == old(steering.Drained()) && followUpBase == old(followUp.Drained())
      ensures r.Ran? && old((Last(messages) == None || Last(messages).value.Assistant? || Last(messages).value.Custom?)
                            && (steering.batches != [] || followUp.batches != [])) ==>
                BeganFromQueues(old(steering.mode), old(steering.batches),
                                old(followUp.mode), old(followUp.batches))
      ensures r.Ran? && start != [] ==>
                old(Last(messages) == None || Last(messages).value.Assistant? || Last(messages).value.Custom?)
      ensures r.Ran? && start == [] ==> old(Last(messages).Some? && !Last(messages).value.Assistant?)
    {
      if activeRun {
        return Busy;
      }
      var lastMessage := Last(messages);
      if lastMessage == None || lastMessage.value.Assistant? || lastMessage.value.Custom? {
        var queued := RunQueuedMessages(responses);
        if queued.Some? {
          return Ran(queued.value);
        }
        if lastMessage == None || lastMessage.value.Assistant? {
          return NothingToContinue;
        }
      }
      var o := RunContinuation(responses);
      r := Ran(o);
    }
  }

  // ---- What a finished run means -----------------------------------------------------------------

  /**
   However a run went: exactly one agent_end, which is the last event; an idle agent with
   nothing pending; and turns whose transcripts agree.
   */
  lemma EveryRunEndsOnce(agent: Agent, o: Outcome<Ending>)
    requires agent.Over(o)
    ensures CountClosed(agent.run.trace, ARun) == 1
    ensures agent.run.trace[|agent.run.trace| - 1].event.AgentEnd?
    ensures !agent.isStreaming && !agent.activeRun && agent.pendingToolCalls == {}
    ensures agent.messages == agent.base + Ended(agent.run.trace)
    ensures Agrees(agent.run.trace, agent.base, agent.setup)
  {
    WhatIsRecorded(agent.run, agent.base, agent.setup);
  }

  /** A run whose loop returned follows the grammar, and the transcript grew by exactly its messages. */
  lemma ReturnedRunsAreAccepted(agent: Agent, o: Outcome<Ending>, k: nat)
    requires agent.Over(o) && o.Returned?
    ensures Accepted(agent.run.trace)
    ensures agent.messages == agent.base + agent.newMessages && agent.newMessages == Ended(agent.run.trace)
    ensures k < |agent.run.trace| && agent.run.trace[k].event.TurnEnd? ==>
              var turn := agent.run.trace[k];
              && turn.newMessages == Ended(agent.run.trace[..k])
              && turn.context == turn.transcript == agent.base + turn.newMessages
              && turn.pending == {}
              && ResultsFor(turn.event.toolResults, Calls(turn.event.message))
  {
    WhatIsRecorded(agent.run, agent.base, agent.setup);
    assert agent.messages[|agent.base|..] == agent.newMessages;
    if k < |agent.run.trace| && agent.run.trace[k].event.TurnEnd? {
      AgreesAtEveryTurn(agent.run.trace, agent.base, agent.setup, k);
      TurnResultsAnswerCalls(agent.run.trace, k);
    }
  }

  /**
   A run that ends by itself has nothing left to do: both queues and the continuation, asked for
   last, gave nothing, and the model is owed no result.
   */
  lemma IdleRunsAreDone(agent: Agent, o: Outcome<Ending>)
    requires agent.Over(o) && o == Returned(Idle)
    ensures var polls, n := agent.polls, |agent.polls|;
            n >= 3 && polls[n - 3..] == [Made(Steering, 0, 0), Made(FollowUp, 0, 0), Made(Continuation, 0, 0)]
    ensures var trace := agent.run.trace;
            var n := |trace|;
            && n >= 2 && trace[n - 2].event.TurnEnd?
            && (trace[n - 2].event.toolResults == [] || AskedToEnd(trace[..n - 2]))
  {
    WhatIsRecorded(agent.run, agent.base, agent.setup);
    EndsWithNothingOwed(agent.run.trace);
    LastThree(agent.polls);
  }

  lemma LastThree(polls: seq<Poll>)
    requires polls != [] && polls[|polls| - 1] == Made(Continuation, 0, 0) && BothFoundEmpty(polls[..|polls| - 1])
    ensures |polls| >= 3
    ensures polls[|polls| - 3..] == [Made(Steering, 0, 0), Made(FollowUp, 0, 0), Made(Continuation, 0, 0)]
  {
    var init := polls[..|polls| - 1];
    assert polls[|polls| - 3..] == init[|init| - 2..] + [polls[|polls| - 1]];
  }

  /**
   Whatever a run took from the queues is in its messages once and in order, but for what it
   dropped at its very end. That is something exactly when its last poll took something from a
   queue and no message joined the run since, and then it was aborted. What it did not take
   still waits, in order.
   */
  lemma QueuesAreConserved(agent: Agent, o: Outcome<Ending>)
    requires agent.Over(o)
    ensures |agent.sources| == |agent.newMessages|
    ensures agent.steering.Drained() ==
            agent.steeringBase + From(agent.newMessages, agent.sources, Steering)
            + (if agent.dropped.source == Steering then agent.dropped.messages else [])
    ensures agent.followUp.Drained() ==
            agent.followUpBase + From(agent.newMessages, agent.sources, FollowUp)
            + (if agent.dropped.source == FollowUp then agent.dropped.messages else [])
    ensures agent.dropped.messages != [] ==> agent.aborted
    ensures agent.dropped.messages != [] && agent.dropped.source != Continuation
            <==> Holding(agent.polls, agent.since, |agent.newMessages|)
    ensures agent.steering.enqueued == agent.steering.taken + agent.steering.batches
    ensures agent.followUp.enqueued == agent.followUp.taken + agent.followUp.batches
  {
    WhatBalances(agent.Accounts(), agent.dropped.messages, agent.dropped.source);
    WhatIsStored(agent.steering.enqueued, agent.steering.taken, agent.steering.batches);
    WhatIsStored(agent.followUp.enqueued, agent.followUp.taken, agent.followUp.batches);
  }
}

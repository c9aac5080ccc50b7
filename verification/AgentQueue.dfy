/**
 The queue of message batches an agent takes its steering and follow-up messages from,
 and where the messages of a run came from.
 */
module AgentQueue {

  import opened AgentEvents

  datatype Mode = All | OneAtATime

  function Flatten<T>(batches: seq<seq<T>>): seq<T> {
    if batches == [] then [] else Flatten(batches[..|batches| - 1]) + batches[|batches| - 1]
  }

  lemma {:induction false} FlattenAppends<T>(a: seq<seq<T>>, b: seq<seq<T>>)
    ensures Flatten(a + b) == Flatten(a) + Flatten(b)
    decreases |b|
  {
    if b == [] {
      assert a + b == a;
    } else {
      var init := b[..|b| - 1];
      FlattenAppends(a, init);
      assert (a + b)[..|a + b| - 1] == a + init;
      assert Flatten(a + b) == Flatten(a + init) + b[|b| - 1];
    }
  }

  ghost predicate NonEmpty<T>(batches: seq<seq<T>>) {
    forall k :: 0 <= k < |batches| ==> batches[k] != []
  }

  lemma {:induction false} FlattenOfNonEmpty<T>(a: seq<seq<T>>)
    requires NonEmpty(a)
    ensures Flatten(a) == [] <==> a == []
  {
    if a != [] {
      assert a[|a| - 1] != [];
      assert |Flatten(a)| == |Flatten(a[..|a| - 1])| + |a[|a| - 1]|;
    }
  }

  predicate Matches<T>(batch: seq<T>, drop: T -> bool) {
    exists k :: 0 <= k < |batch| && drop(batch[k])
  }

  function Keeping<T>(batches: seq<seq<T>>, drop: T -> bool): seq<seq<T>> {
    if batches == [] then []
    else
      var last := batches[|batches| - 1];
      Keeping(batches[..|batches| - 1], drop) + if Matches(last, drop) then [] else [last]
  }

  function Dropping<T>(batches: seq<seq<T>>, drop: T -> bool): seq<seq<T>> {
    if batches == [] then []
    else
      var last := batches[|batches| - 1];
      Dropping(batches[..|batches| - 1], drop) + if Matches(last, drop) then [last] else []
  }

  /** One more batch is looked at. */
  lemma RemovalStep<T>(batches: seq<seq<T>>, i: nat, drop: T -> bool)
    requires i < |batches|
    ensures Keeping(batches[..i + 1], drop)
            == Keeping(batches[..i], drop) + if Matches(batches[i], drop) then [] else [batches[i]]
    ensures Flatten(Dropping(batches[..i + 1], drop))
            == Flatten(Dropping(batches[..i], drop)) + if Matches(batches[i], drop) then batches[i] else []
  {
    assert batches[..i + 1][..i] == batches[..i];
    var dropped := Dropping(batches[..i], drop);
    if Matches(batches[i], drop) {
      assert (dropped + [batches[i]])[..|dropped|] == dropped;
    } else {
      assert dropped + [] == dropped;
    }
  }

  /** Conservation: what was enqueued is what was taken followed by what still waits. */
  ghost predicate Stored(enqueued: seq<seq<Input>>, taken: seq<seq<Input>>, batches: seq<seq<Input>>) {
    enqueued == taken + batches && NonEmpty(batches)
  }

  lemma WhatIsStored(enqueued: seq<seq<Input>>, taken: seq<seq<Input>>, batches: seq<seq<Input>>)
    requires Stored(enqueued, taken, batches)
    ensures enqueued == taken + batches && NonEmpty(batches)
  {
  }

  class PendingMessageQueue {
    var mode: Mode
    var batches: seq<seq<Input>>
    // Every batch that was enqueued and not removed by request, and those already drained.
    ghost var enqueued: seq<seq<Input>>
    ghost var taken: seq<seq<Input>>

    ghost predicate Valid()
      reads this
    {
      Stored(enqueued, taken, batches)
    }

    ghost function Drained(): seq<Input>
      reads this`taken
    {
      Flatten<Input>(taken)
    }

    constructor (mode: Mode)
      ensures Valid() && this.mode == mode && batches == [] && enqueued == []
    {
      this.mode := mode;
      batches, enqueued, taken := [], [], [];
    }

    method Enqueue(batch: seq<Input>)
      requires Valid()
      modifies this`batches, this`enqueued
      ensures Valid()
      ensures enqueued == old(enqueued) + if batch == [] then [] else [batch]
    {
      WhatIsStored(enqueued, taken, batches);
      if |batch| > 0 {
        batches := batches + [batch];
        enqueued := enqueued + [batch];
      }
    }

    method HasItems() returns (r: bool)
      requires Valid()
      ensures r <==> taken != enqueued
    {
      WhatIsStored(enqueued, taken, batches);
      r := |batches| > 0;
    }

    /** Takes the oldest batch, or all of them in order; an empty answer means nothing was waiting. */
    method Drain() returns (r: seq<Input>)
      requires Valid()
      modifies this`batches, this`taken
      ensures Valid()
      ensures Drained() == old(Drained()) + r
      ensures mode == All ==> taken == enqueued && r == Flatten(old(batches))
      ensures mode == OneAtATime && old(batches) != [] ==> r == old(batches)[0]
      ensures mode == OneAtATime && old(taken) != enqueued ==>
                |taken| == |old(taken)| + 1 && taken <= enqueued && r == taken[|old(taken)|]
      ensures r == [] <==> old(taken) == enqueued
      ensures r == [] ==> batches == []
    {
      WhatIsStored(enqueued, taken, batches);
      if mode == All {
        FlattenAppends(taken, batches);
        FlattenOfNonEmpty(batches);
        r := Flatten(batches);
        taken := taken + batches;
        batches := [];
      } else if |batches| == 0 {
        r := [];
      } else {
        r := batches[0];
        assert batches[0] in batches;
        assert (taken + [r])[..|taken|] == taken;
        taken := taken + [r];
        batches := batches[1..];
        assert enqueued == taken + batches;
      }
    }

    method Clear()
      requires Valid()
      modifies this`batches, this`enqueued
      ensures Valid() && batches == [] && enqueued == taken
    {
      batches := [];
      enqueued := taken;
    }

    /** Removes every batch holding a matching message, whole; the others keep their order. */
    method RemoveWhere(drop: Input -> bool) returns (removed: seq<Input>)
      requires Valid()
      modifies this`batches, this`enqueued
      ensures Valid()
      ensures batches == Keeping(old(batches), drop)
      ensures removed == Flatten(Dropping(old(batches), drop))
    {
      WhatIsStored(enqueued, taken, batches);
      removed := [];
      var retained: seq<seq<Input>> := [];
      var i := 0;
      while i < |batches|
        invariant 0 <= i <= |batches|
        invariant retained == Keeping(batches[..i], drop)
        invariant removed == Flatten(Dropping(batches[..i], drop))
        invariant NonEmpty(retained)
        modifies {}
      {
        RemovalStep(batches, i, drop);
        if Matches(batches[i], drop) {
          removed := removed + batches[i];
        } else {
          retained := retained + [batches[i]];
        }
        i := i + 1;
      }
      assert batches[..i] == batches;
      batches := retained;
      enqueued := taken + retained;
    }
  }

  lemma OneMoreCounts<T>(s: seq<T>, x: T, y: T)
    ensures multiset(s + [x])[y] == multiset(s)[y] + (if x == y then 1 else 0)
  {
  }

  /** Some of the batches are picked, either all like `b` or none. */
  predicate Picks<T(==)>(picked: seq<seq<T>>, batches: seq<seq<T>>, b: seq<T>, picksB: bool) {
    multiset(picked)[b] == if picksB then multiset(batches)[b] else 0
  }

  lemma OneMorePicked<T>(picked: seq<seq<T>>, batches: seq<seq<T>>, last: seq<T>, b: seq<T>, picksLast: bool,
                         picksB: bool)
    requires Picks(picked, batches, b, picksB)
    requires last == b ==> picksLast == picksB
    ensures Picks(picked + if picksLast then [last] else [], batches + [last], b, picksB)
  {
    OneMoreCounts(picked, last, b);
    OneMoreCounts(batches, last, b);
    assert picked + [] == picked;
  }

  lemma {:induction false} KeepingPicks<T>(batches: seq<seq<T>>, drop: T -> bool, b: seq<T>, matches: bool)
    requires matches == Matches(b, drop)
    ensures Picks(Keeping(batches, drop), batches, b, !matches)
  {
    if batches == [] {
      return;
    }
    var init, last := batches[..|batches| - 1], batches[|batches| - 1];
    KeepingPicks(init, drop, b, matches);
    OneMorePicked(Keeping(init, drop), init, last, b, !Matches(last, drop), !matches);
    assert batches == init + [last];
  }

  lemma {:induction false} DroppingPicks<T>(batches: seq<seq<T>>, drop: T -> bool, b: seq<T>, matches: bool)
    requires matches == Matches(b, drop)
    ensures Picks(Dropping(batches, drop), batches, b, matches)
  {
    if batches == [] {
      return;
    }
    var init, last := batches[..|batches| - 1], batches[|batches| - 1];
    DroppingPicks(init, drop, b, matches);
    OneMorePicked(Dropping(init, drop), init, last, b, Matches(last, drop), matches);
    assert batches == init + [last];
  }

  /** Removal goes batch by batch: what is kept and what is taken stay in order. */
  lemma {:induction false} RemovalIsInOrder<T>(a: seq<seq<T>>, b: seq<seq<T>>, drop: T -> bool)
    ensures Keeping(a + b, drop) == Keeping(a, drop) + Keeping(b, drop)
    ensures Dropping(a + b, drop) == Dropping(a, drop) + Dropping(b, drop)
    decreases |b|
  {
    if b == [] {
      assert a + b == a;
    } else {
      var init := b[..|b| - 1];
      RemovalIsInOrder(a, init, drop);
      assert (a + b)[..|a + b| - 1] == a + init && (a + b)[|a + b| - 1] == b[|b| - 1];
      assert Keeping(a, drop) + Keeping(b, drop) == Keeping(a + init, drop)
             + if Matches(b[|b| - 1], drop) then [] else [b[|b| - 1]];
      assert Dropping(a, drop) + Dropping(b, drop) == Dropping(a + init, drop)
             + if Matches(b[|b| - 1], drop) then [b[|b| - 1]] else [];
    }
  }

  /** Removal keeps every batch without a match, as often as it was there, and no other. */
  lemma RemovalKeepsTheRest<T>(batches: seq<seq<T>>, drop: T -> bool, b: seq<T>)
    ensures multiset(Keeping(batches, drop))[b] == if Matches(b, drop) then 0 else multiset(batches)[b]
  {
    KeepingPicks(batches, drop, b, Matches(b, drop));
  }

  /** Removal returns every batch with a match, as often as it was there, and no other. */
  lemma RemovalTakesMatches<T>(batches: seq<seq<T>>, drop: T -> bool, b: seq<T>)
    ensures multiset(Dropping(batches, drop))[b] == if Matches(b, drop) then multiset(batches)[b] else 0
  {
    DroppingPicks(batches, drop, b, Matches(b, drop));
  }

  // ---- Where the messages of a run came from ------------------------------------------------

  datatype Source = Prompted | Steering | FollowUp | Continuation | Generated

  /** The messages with one source, in order. */
  function From(messages: seq<Message>, sources: seq<Source>, source: Source): seq<Message>
    requires |messages| == |sources|
  {
    if messages == [] then []
    else
      var k := |messages| - 1;
      From(messages[..k], sources[..k], source) + if sources[k] == source then [messages[k]] else []
  }

  function Repeat(source: Source, n: nat): (r: seq<Source>)
    ensures |r| == n && forall k :: 0 <= k < n ==> r[k] == source
  {
    seq(n, _ => source)
  }

  /** What a run from `n` prompts begins with: those, and a response if it is not to look at steering before that. */
  function Beginning(n: nat, source: Source, skip: bool): seq<Source> {
    Repeat(source, n) + if skip then [Generated] else []
  }

  /** A response is where a run that lacked only that has begun as it should. */
  lemma BeginsOn(start: seq<Source>, sources: seq<Source>, n: nat)
    requires start <= sources || start == sources + [Generated]
    ensures var more := sources + Repeat(Generated, n);
            start <= more || (n == 0 && start == more + [Generated])
    ensures start <= sources ==> start <= sources + Repeat(Generated, n)
  {
  }

  lemma BeganAs(start: seq<Source>, sources: seq<Source>, n: nat, source: Source, skip: bool)
    requires start == Beginning(n, source, skip) && source != Generated
    requires start <= sources || start == sources + [Generated]
    ensures Repeat(source, n) <= sources
    ensures skip && n < |sources| ==> sources[n] == Generated
  {
    if start <= sources {
      assert start == sources[..|start|];
    } else {
      assert start[|start| - 1] == Generated && skip;
      assert Repeat(source, n) == start[..n] == sources;
    }
  }

  lemma {:induction false} FromAppends(messages: seq<Message>, sources: seq<Source>, more: seq<Message>,
                                       source: Source, which: Source)
    requires |messages| == |sources|
    ensures From(messages + more, sources + Repeat(source, |more|), which)
         == From(messages, sources, which) + if which == source then more else []
    decreases |more|
  {
    if more == [] {
      assert messages + more == messages && sources + Repeat(source, 0) == sources;
    } else {
      var k := |more| - 1;
      FromAppends(messages, sources, more[..k], source, which);
      assert (messages + more)[..|messages| + k] == messages + more[..k];
      assert (sources + Repeat(source, k + 1))[..|messages| + k] == sources + Repeat(source, k);
    }
  }

  /** What was taken from the two queues, what of it precedes the run, and the run's messages. */
  datatype Ledger = Ledger(
    steering: seq<seq<Input>>,
    followUp: seq<seq<Input>>,
    steeringBefore: seq<Message>,
    followUpBefore: seq<Message>,
    messages: seq<Message>,
    sources: seq<Source>)
  {
    /** Everything taken is in the run, exactly once and in order, or among the `pending` messages of a source. */
    ghost predicate Balanced(pending: seq<Message>, source: Source) {
      && |messages| == |sources|
      && Flatten<Input>(steering) == steeringBefore + From(messages, sources, Steering)
                              + (if source == Steering then pending else [])
      && Flatten<Input>(followUp) == followUpBefore + From(messages, sources, FollowUp)
                              + (if source == FollowUp then pending else [])
    }
  }

  /** What was drained and never joined the run. */
  datatype Lost = Lost(messages: seq<Message>, source: Source)

  const NOTHING_LOST := Lost([], Steering)

  predicate Consult(l: Ledger) { true }

  /** A balanced ledger; it is looked into only where that is asked for. */
  ghost predicate Balances(l: Ledger, pending: seq<Message>, source: Source) {
    forall x {:trigger Consult(x)} :: Consult(x) && x == l ==> x.Balanced(pending, source)
  }

  lemma WhatBalances(l: Ledger, pending: seq<Message>, source: Source)
    requires Balances(l, pending, source)
    ensures l.Balanced(pending, source)
  {
    assert Consult(l);
  }

  /** With nothing pending it does not matter where from. */
  lemma NothingPending(l: Ledger, source: Source)
    requires Balances(l, [], Steering)
    ensures Balances(l, [], source)
  {
    assert Consult(l);
  }

  lemma OpenSide(drained: seq<Message>, before: seq<Message>, messages: seq<Message>, source: Source, which: Source)
    requires drained == before + if source == which then messages else []
    ensures drained == before + From(messages, Repeat(source, |messages|), which)
  {
    FromAppends([], [], messages, source, which);
    assert [] + messages == messages && [] + Repeat(source, |messages|) == Repeat(source, |messages|);
  }

  /** A run that begins with messages just drained, or with none of them. */
  lemma OpenBalances(l: Ledger, source: Source)
    requires l.sources == Repeat(source, |l.messages|)
    requires Flatten<Input>(l.steering) == l.steeringBefore + if source == Steering then l.messages else []
    requires Flatten<Input>(l.followUp) == l.followUpBefore + if source == FollowUp then l.messages else []
    ensures Balances(l, [], Steering)
  {
    OpenSide(Flatten<Input>(l.steering), l.steeringBefore, l.messages, source, Steering);
    OpenSide(Flatten<Input>(l.followUp), l.followUpBefore, l.messages, source, FollowUp);
  }

  lemma FromOneMore(messages: seq<Message>, sources: seq<Source>, m: Message, source: Source, which: Source)
    requires |messages| == |sources|
    ensures From(messages + [m], sources + [source], which)
         == From(messages, sources, which) + if source == which then [m] else []
  {
    assert (messages + [m])[..|messages|] == messages;
    assert (sources + [source])[..|sources|] == sources;
  }

  /** What was pending first now comes last in the run. */
  lemma InjectSide(before: seq<Message>, x: seq<Message>, m: Message, rest: seq<Message>, here: bool)
    ensures before + x + (if here then [m] + rest else [])
         == before + (x + if here then [m] else []) + (if here then rest else [])
  {
  }

  /** A drained message that joins the run is still accounted for. */
  lemma InjectBalances(l: Ledger, m: Message, rest: seq<Message>, source: Source)
    requires Balances(l, [m] + rest, source)
    ensures Balances(l.(messages := l.messages + [m], sources := l.sources + [source]), rest, source)
  {
    WhatBalances(l, [m] + rest, source);
    FromOneMore(l.messages, l.sources, m, source, Steering);
    FromOneMore(l.messages, l.sources, m, source, FollowUp);
    InjectSide(l.steeringBefore, From(l.messages, l.sources, Steering), m, rest, source == Steering);
    InjectSide(l.followUpBefore, From(l.messages, l.sources, FollowUp), m, rest, source == FollowUp);
  }

  lemma ProduceBalances(l: Ledger, more: seq<Message>)
    requires Balances(l, [], Steering)
    ensures Balances(l.(messages := l.messages + more, sources := l.sources + Repeat(Generated, |more|)), [], Steering)
  {
    assert Consult(l);
    FromAppends(l.messages, l.sources, more, Generated, Steering);
    FromAppends(l.messages, l.sources, more, Generated, FollowUp);
  }

  /** What is drained next is pending. */
  lemma DrainBalances(l: Ledger, next: Ledger, pending: seq<Message>, source: Source)
    requires Balances(l, [], Steering) && source != Prompted && source != Generated
    requires next == l.(steering := next.steering, followUp := next.followUp)
    requires Flatten<Input>(next.steering) == Flatten<Input>(l.steering) + if source == Steering then pending else []
    requires Flatten<Input>(next.followUp) == Flatten<Input>(l.followUp) + if source == FollowUp then pending else []
    ensures Balances(next, pending, source)
  {
    assert Consult(l);
    var s, f := From(l.messages, l.sources, Steering), From(l.messages, l.sources, FollowUp);
    assert l.Balanced([], Steering);
    assert From(next.messages, next.sources, Steering) == s && From(next.messages, next.sources, FollowUp) == f;
    assert Flatten<Input>(l.steering) == l.steeringBefore + s;
    assert Flatten<Input>(l.followUp) == l.followUpBefore + f;
    assert Flatten<Input>(next.steering) == l.steeringBefore + s + (if source == Steering then pending else []);
    assert Flatten<Input>(next.followUp) == l.followUpBefore + f + (if source == FollowUp then pending else []);
  }

  /**
   A look at one source: how many messages it gave and how many batches it left; or, once the
   run was aborted, that a queue was passed over, with how many batches still waiting in it.
   */
  datatype Poll = Made(source: Source, got: nat, left: nat) | Skipped(source: Source, left: nat) {
    /** It took something from a queue. */
    predicate Took() {
      Made? && source != Continuation && got > 0
    }

    /** It gave nothing: there was nothing, or it was not looked for. */
    predicate GaveNothing(from: Source) {
      source == from && (Made? ==> got == 0 && left == 0)
    }
  }

  /** What the poll before must have found. */
  predicate Due(polls: seq<Poll>, p: Poll) {
    && (p.source == FollowUp ==>
          && polls != [] && polls[|polls| - 1].GaveNothing(Steering)
          && (p.Made? ==> polls[|polls| - 1].Made?))
    && (p.source == Continuation ==>
          && polls != [] && polls[|polls| - 1].GaveNothing(FollowUp))
  }

  /** Follow-ups are polled only after steering gave nothing, continuations only after follow-ups gave nothing. */
  predicate InOrder(polls: seq<Poll>) {
    polls == [] || (InOrder(polls[..|polls| - 1]) && Due(polls[..|polls| - 1], polls[|polls| - 1]))
  }

  /** The polls of a run, which are in order. */
  type Polls = polls: seq<Poll> | InOrder(polls)

  lemma PollInOrder(polls: seq<Poll>, p: Poll)
    requires InOrder(polls) && Due(polls, p)
    ensures InOrder(polls + [p])
  {
    assert (polls + [p])[..|polls|] == polls;
  }

  /**
   The last poll took something from a queue, when the run had `since` new messages, and no
   message has joined it since.
   */
  predicate Holding(polls: seq<Poll>, since: nat, messages: nat) {
    polls != [] && polls[|polls| - 1].Took() && since == messages
  }

  /** Both queues were looked into and found empty, follow-ups last. */
  predicate BothFoundEmpty(polls: seq<Poll>) {
    |polls| >= 2 && polls[|polls| - 2..] == [Made(Steering, 0, 0), Made(FollowUp, 0, 0)]
  }

  /** Follow-ups are taken only right after the steering queue was looked into and found empty. */
  lemma {:induction false} FollowUpsComeAfterSteering(polls: seq<Poll>, k: nat)
    requires InOrder(polls) && k < |polls| && polls[k].Made? && polls[k].source == FollowUp
    ensures k >= 1 && polls[k - 1] == Made(Steering, 0, 0)
    decreases |polls|
  {
    var init := polls[..|polls| - 1];
    if k < |init| {
      FollowUpsComeAfterSteering(init, k);
    }
  }

  /**
   A continuation is asked for right after polls of both queues, which found them empty if and
   only if the later one was not skipped; and that implies that neither was.
   */
  lemma {:induction false} ContinuationsComeLast(polls: seq<Poll>, k: nat)
    requires InOrder(polls) && k < |polls| && polls[k].source == Continuation
    ensures k >= 2 && polls[k - 2].source == Steering && polls[k - 1].source == FollowUp
    ensures BothFoundEmpty(polls[..k]) <==> polls[k - 2].Made? && polls[k - 1].Made?
    ensures polls[k - 2].Skipped? ==> polls[k - 1].Skipped?
    decreases |polls|
  {
    var init := polls[..|polls| - 1];
    if k < |init| {
      ContinuationsComeLast(init, k);
      assert init[..k] == polls[..k];
    } else {
      assert Due(init[..|init| - 1], init[|init| - 1]);
      assert polls[..k] == init;
    }
  }

  /**
   An abort while the steering queue is polled after a turn: the follow-ups are passed over, and
   the continuation is asked for with a batch still waiting among them.
   */
  lemma ContinuationBeforeFollowUps(got: nat)
    ensures var polls := [Made(Steering, 0, 0), Made(Steering, 0, 0), Skipped(FollowUp, 1), Made(Continuation, got, 0)];
            InOrder(polls) && !BothFoundEmpty(polls[..3])
  {
    var first, second, third := Made(Steering, 0, 0), Made(Steering, 0, 0), Skipped(FollowUp, 1);
    var last := Made(Continuation, got, 0);
    PollInOrder([], first);
    assert [] + [first] == [first];
    PollInOrder([first], second);
    assert [first] + [second] == [first, second];
    PollInOrder([first, second], third);
    assert [first, second] + [third] == [first, second, third];
    PollInOrder([first, second, third], last);
    assert [first, second, third] + [last] == [first, second, third, last];
    assert [first, second, third, last][..3][1..][1] == third;
  }

  /**
   An abort right after a steering message was taken: the queue no longer has it, and the
   run, which has one message so far, does not have it either.
   */
  lemma TakenAndNotInjected(prompt: Message, taken: Input) returns (l: Ledger, polls: Polls)
    ensures l.steering == [[taken]] && l.messages == [prompt] && l.sources == [Prompted]
    ensures polls == [Made(Steering, 0, 0), Made(Steering, 1, 0)] && Holding(polls, 1, |l.messages|)
    ensures l.Balanced([taken], Steering) && !l.Balanced([], Steering) && !l.Balanced([], FollowUp)
  {
    l := Ledger([[taken]], [], [], [], [prompt], [Prompted]);
    var first, second := Made(Steering, 0, 0), Made(Steering, 1, 0);
    PollInOrder([], first);
    assert [] + [first] == [first];
    PollInOrder([first], second);
    polls := [first] + [second];
    assert Flatten<Input>([[taken]][..0]) == [] && Flatten<Input>([[taken]]) == [taken];
    assert [] + [prompt] == [prompt] && [] + [Prompted] == [Prompted];
    FromOneMore([], [], prompt, Prompted, Steering);
    FromOneMore([], [], prompt, Prompted, FollowUp);
  }

  lemma EmptyWhenMade(polls: seq<Poll>)
    requires InOrder(polls) && polls != [] && polls[|polls| - 1] == Made(FollowUp, 0, 0)
    ensures BothFoundEmpty(polls)
  {
  }
}

/**
 The lite executor's scheduler loop, in the form the source gives it: a queue, an
 active list polled in place with `swap_remove`, a driving flag, and two guards
 that give the tasks back and clear the flag on every way out of `block_on`.

 The reference it is proved against is a plain sequence of rounds (`Rounds`): in
 each round every unfinished task is polled once.
 */
module LiteRuntime {
  import opened TaskForest
  import opened Vectors

  datatype Ending = Returns(value: int) | Panics

  /** The future given to `block_on`: it is pending after every turn but the last, and
      may spawn once more when it is dropped. */
  datatype Main = Main(turns: seq<Turn>, ending: Ending, dropped: seq<Task>)

  datatype BlockOnResult = AlreadyDriven | Finished(ending: Ending)

  // ----- The reference -----

  /** How often `block_on` polls its future. */
  function Polls(main: Main): nat {
    if main.turns == [] then 1 else |main.turns|
  }

  /** The tasks that reach the queue during iteration `i`: what the main future
      spawns, what other threads push, and in the end what its drop spawns. */
  function ArrivalsAt(main: Main, outside: seq<seq<Task>>, i: nat): seq<Task> {
    SpawnsAt(main, i) + PushedAt(outside, i) + if i + 1 == Polls(main) then main.dropped else []
  }

  function SpawnsAt(main: Main, i: nat): seq<Task> {
    if i < |main.turns| then main.turns[i].spawns else []
  }

  function PushedAt(outside: seq<seq<Task>>, i: nat): seq<Task> {
    if i < |outside| then outside[i] else []
  }

  function Arrivals(main: Main, outside: seq<seq<Task>>): (arrivals: seq<seq<Task>>)
    ensures |arrivals| == Polls(main)
    ensures forall i | 0 <= i < |arrivals| :: arrivals[i] == ArrivalsAt(main, outside, i)
  {
    seq(Polls(main), i requires 0 <= i => ArrivalsAt(main, outside, i))
  }

  /** The unfinished tasks after as many iterations as there are arrivals. The
      main future completes in the last one, before the tasks are polled. */
  function Rounds(ts: seq<Task>, arrivals: seq<seq<Task>>): seq<Task>
    decreases |arrivals|
  {
    if arrivals == [] then ts
    else if |arrivals| == 1 then ts + arrivals[0]
    else Rounds(Round(ts) + arrivals[0], arrivals[1..])
  }

  function ArrivalIds(arrivals: seq<seq<Task>>): multiset<nat> {
    if arrivals == [] then multiset{} else Ids(arrivals[0]) + ArrivalIds(arrivals[1..])
  }

  /** The ids that other threads push during the first `n` polls. */
  function OutsideIds(outside: seq<seq<Task>>, n: nat): multiset<nat> {
    if n == 0 then multiset{}
    else OutsideIds(outside, n - 1) + if n <= |outside| then Ids(outside[n - 1]) else multiset{}
  }

  /** What arrives in a turn: the spawns of that turn of the main future, what is pushed
      from outside meanwhile, and after the last one what the future's drop spawns. */
  lemma ArrivesInTurn(main: Main, outside: seq<seq<Task>>, i: nat)
    requires i < |main.turns| || i == |main.turns| == 0
    ensures i < |Arrivals(main, outside)|
    ensures Arrivals(main, outside)[i] ==
      (if i < |main.turns| then main.turns[i].spawns else [])
      + (if i < |outside| then outside[i] else [])
      + (if i + 1 >= |main.turns| then main.dropped else [])
  {
  }

  lemma {:induction false} ArrivalIdsConcat(a: seq<seq<Task>>, b: seq<seq<Task>>)
    ensures ArrivalIds(a + b) == ArrivalIds(a) + ArrivalIds(b)
  {
    if a == [] {
      assert a + b == b;
    } else {
      assert (a + b)[0] == a[0] && (a + b)[1..] == a[1..] + b;
      ArrivalIdsConcat(a[1..], b);
    }
  }

  /** The ids that arrive in a turn. */
  lemma IdsInTurn(main: Main, outside: seq<seq<Task>>, i: nat)
    requires i < Polls(main)
    ensures Ids(Arrivals(main, outside)[i]) ==
      (if i < |main.turns| then Ids(main.turns[i].spawns) else multiset{})
      + (if i < |outside| then Ids(outside[i]) else multiset{})
      + (if i + 1 == Polls(main) then Ids(main.dropped) else multiset{})
  {
    ArrivesInTurn(main, outside, i);
    var spawns := if i < |main.turns| then main.turns[i].spawns else [];
    var pushed := if i < |outside| then outside[i] else [];
    var dropped := if i + 1 == Polls(main) then main.dropped else [];
    assert Arrivals(main, outside)[i] == spawns + pushed + dropped;
    assert Ids([]) == multiset{};
    hide Arrivals, Ids, TurnIds;
    IdsConcat(spawns + pushed, dropped);
    IdsConcat(spawns, pushed);
  }

  /** The ids that arrive in the first `n + 1` turns. */
  lemma ArrivalIdsOn(arrivals: seq<seq<Task>>, n: nat)
    requires n < |arrivals|
    ensures ArrivalIds(arrivals[..n + 1]) == ArrivalIds(arrivals[..n]) + Ids(arrivals[n])
  {
    assert arrivals[..n + 1] == arrivals[..n] + [arrivals[n]];
    ArrivalIdsConcat(arrivals[..n], [arrivals[n]]);
    assert ArrivalIds([arrivals[n]]) == Ids(arrivals[n]) by {
      assert [arrivals[n]][1..] == [];
    }
  }

  lemma {:induction false} EarlierArrivals(main: Main, outside: seq<seq<Task>>, n: nat)
    requires n < Polls(main)
    ensures ArrivalIds(Arrivals(main, outside)[..n]) == TurnIds(main.turns[..n]) + OutsideIds(outside, n)
  {
    if n == 0 {
      assert ArrivalIds(Arrivals(main, outside)[..0]) == multiset{} && TurnIds(main.turns[..0]) == multiset{};
    } else {
      EarlierArrivals(main, outside, n - 1);
      ArrivalIdsOn(Arrivals(main, outside), n - 1);
      IdsInTurn(main, outside, n - 1);
      LastTurn(main.turns, n - 1);
      hide Arrivals, Ids, TurnIds, ArrivalIds, TurnWeight, Weight;
    }
  }

  /** All that arrives is what the main future, its drop and other threads spawn. */
  lemma AllArrivals(main: Main, outside: seq<seq<Task>>)
    ensures ArrivalIds(Arrivals(main, outside))
         == TurnIds(main.turns) + OutsideIds(outside, Polls(main)) + Ids(main.dropped)
  {
    var n := Polls(main) - 1;
    var arrivals := Arrivals(main, outside);
    EarlierArrivals(main, outside, n);
    ArrivalIdsOn(arrivals, n);
    IdsInTurn(main, outside, n);
    assert arrivals[..n + 1] == arrivals;
    AllTurns(main);
    hide *;
    SumUp(ArrivalIds(arrivals[..n]), TurnIds(main.turns[..n]), OutsideIds(outside, n),
          if n < |main.turns| then Ids(main.turns[n].spawns) else multiset{},
          if n < |outside| then Ids(outside[n]) else multiset{}, Ids(main.dropped));
    OutsideOn(outside, n);
  }

  lemma OutsideOn(outside: seq<seq<Task>>, n: nat)
    ensures OutsideIds(outside, n + 1) == OutsideIds(outside, n) + if n < |outside| then Ids(outside[n]) else multiset{}
  {
  }

  lemma AllTurns(main: Main)
    ensures var n := Polls(main) - 1;
      TurnIds(main.turns)
      == TurnIds(main.turns[..n]) + if n < |main.turns| then Ids(main.turns[n].spawns) else multiset{}
  {
    if main.turns == [] {
      assert TurnIds(main.turns) == TurnIds(main.turns[..0]) == multiset{};
    } else {
      LastTurn(main.turns, |main.turns| - 1);
      assert main.turns[..|main.turns|] == main.turns;
    }
  }

  lemma SumUp(early: multiset<nat>, turns: multiset<nat>, outside: multiset<nat>,
              spawns: multiset<nat>, pushed: multiset<nat>, dropped: multiset<nat>)
    requires early == turns + outside
    ensures early + (spawns + pushed + dropped) == (turns + spawns) + (outside + pushed) + dropped
  {
  }

  /** Polling `ts` neither finishes nor spawns anything. */
  ghost predicate Idle(ts: seq<Task>) {
    forall t | t in ts :: !Finishes(t) && Spawns(t) == []
  }

  /** The rounds among those `Rounds` goes through in which nothing happens, with
      or without counting the rounds that see an arrival. */
  ghost function IdleRounds(ts: seq<Task>, arrivals: seq<seq<Task>>, quiet: bool): nat
    decreases |arrivals|
  {
    if |arrivals| <= 1 then 0
    else (if Idle(ts) && (quiet ==> arrivals[0] == []) then 1 else 0)
         + IdleRounds(Round(ts) + arrivals[0], arrivals[1..], quiet)
  }

  lemma {:induction false} RoundsPermute(a: seq<Task>, b: seq<Task>, arrivals: seq<seq<Task>>)
    requires multiset(a) == multiset(b)
    ensures multiset(Rounds(a, arrivals)) == multiset(Rounds(b, arrivals))
    ensures forall quiet :: IdleRounds(a, arrivals, quiet) == IdleRounds(b, arrivals, quiet)
    decreases |arrivals|
  {
    if |arrivals| > 1 {
      RoundPermutes(a, b);
      IdlePermutes(a, b);
      RoundsPermute(Round(a) + arrivals[0], Round(b) + arrivals[0], arrivals[1..]);
    }
  }

  lemma IdlePermutes(a: seq<Task>, b: seq<Task>)
    requires multiset(a) == multiset(b)
    ensures Idle(a) <==> Idle(b)
  {
    assert forall t :: t in a <==> t in multiset(a);
    assert forall t :: t in b <==> t in multiset(b);
  }

  /** Every task is there early enough to be polled to its end, with everything it
      spawns, before the main future completes. */
  predicate OnTime(ts: seq<Task>, arrivals: seq<seq<Task>>) {
    && (ts == [] || Height(ts) < |arrivals|)
    && (forall i | 0 <= i < |arrivals| :: arrivals[i] == [] || i + 1 + Height(arrivals[i]) < |arrivals|)
  }

  /** `block_on` leaves the queue empty exactly when every task is on time. */
  lemma {:induction false} QueueEmptyIffOnTime(ts: seq<Task>, arrivals: seq<seq<Task>>)
    requires arrivals != []
    ensures Rounds(ts, arrivals) == [] <==> OnTime(ts, arrivals)
    decreases |arrivals|
  {
    RoundLowersHeight(ts);
    RoundLowersHeight(arrivals[0]);
    if |arrivals| > 1 {
      var next, rest := Round(ts) + arrivals[0], arrivals[1..];
      HeightConcat(Round(ts), arrivals[0]);
      RoundLowersHeight(next);
      QueueEmptyIffOnTime(next, rest);
      LaterOnTime(arrivals);
    }
  }

  lemma LaterOnTime(arrivals: seq<seq<Task>>)
    requires |arrivals| > 1
    ensures var rest := arrivals[1..];
            (forall i | 0 <= i < |rest| :: rest[i] == [] || i + 1 + Height(rest[i]) < |rest|)
            <==> forall i | 1 <= i < |arrivals| :: arrivals[i] == [] || i + 1 + Height(arrivals[i]) < |arrivals|
  {
    var rest := arrivals[1..];
    assert forall i | 1 <= i < |arrivals| :: arrivals[i] == rest[i - 1];
    assert forall i | 0 <= i < |rest| :: rest[i] == arrivals[i + 1];
  }

  // ----- One pass, halfway through -----

  /** `polled` have been polled: `pending` is what is left of them in the list, `waiting`
      is the part of the list not reached yet. */
  ghost predicate InPass(before: seq<Task>, active: seq<Task>, polled: seq<Task>,
                         pending: seq<Task>, waiting: seq<Task>, queued: seq<Task>)
  {
    && multiset(polled) + multiset(waiting) == multiset(active)
    && pending == Unfinished(polled) && queued == before + Spawned(polled)
  }

  /** The queue has grown exactly if one of the polled tasks spawned something. */
  ghost predicate Grown(before: seq<Task>, polled: seq<Task>, queued: seq<Task>) {
    && before <= queued
    && (queued == before <==> forall t | t in polled :: Spawns(t) == [])
  }

  lemma GrownByOne(before: seq<Task>, polled: seq<Task>, queued: seq<Task>, task: Task)
    requires Grown(before, polled, queued)
    ensures Grown(before, polled + [task], queued + Spawns(task))
  {
    assert forall t :: t in polled + [task] <==> t in polled || t == task;
    if queued + Spawns(task) == before {
      assert |queued| == |before|;
      assert queued == before;
    }
  }

  lemma PassPollsOne(before: seq<Task>, active: seq<Task>, polled: seq<Task>,
                     pending: seq<Task>, waiting: seq<Task>, queued: seq<Task>,
                     task: Task, pending': seq<Task>, waiting': seq<Task>)
    requires InPass(before, active, polled, pending, waiting, queued)
    requires multiset(waiting') + multiset{task} == multiset(waiting)
    requires pending' == pending + if Finishes(task) then [] else [Advance(task)]
    ensures InPass(before, active, polled + [task], pending', waiting', queued + Spawns(task))
  {
    hide Unfinished, Spawned;
    UnfinishedConcat(polled, [task]);
    SpawnedConcat(polled, [task]);
    PartsSingle(task);
    assert before + Spawned(polled) + Spawns(task) == before + (Spawned(polled) + Spawns(task));
  }

  lemma OneMoreFinishing(polled: seq<Task>, task: Task, done: seq<nat>, completed: seq<nat>)
    requires multiset(completed) == multiset(done) + Finishing(polled)
    ensures multiset(completed + if Finishes(task) then [task.id] else [])
         == multiset(done) + Finishing(polled + [task])
    ensures Finishing(polled + [task]) != multiset{} <==> Finishing(polled) != multiset{} || Finishes(task)
  {
    FinishingConcat(polled, [task]);
    assert Finishing([task]) == (if Finishes(task) then multiset{task.id} else multiset{}) + Finishing([]);
    assert Finishes(task) ==> task.id in Finishing(polled + [task]);
  }

  /** The polling loop's invariant: `list[..index]` is pending, `list[index..]` waits. */
  ghost predicate PassInv(before: seq<Task>, done: seq<nat>, active: seq<Task>, polled: seq<Task>,
                          list: seq<Task>, index: nat, queued: seq<Task>, completed: seq<nat>)
  {
    && index <= |list|
    && InPass(before, active, polled, list[..index], list[index..], queued)
    && Grown(before, polled, queued)
    && done <= completed
    && multiset(completed) == multiset(done) + Finishing(polled)
  }

  lemma PassEnds(before: seq<Task>, done: seq<nat>, active: seq<Task>, polled: seq<Task>,
                 rest: seq<Task>, queued: seq<Task>, completed: seq<nat>)
    requires PassInv(before, done, active, polled, rest, |rest|, queued, completed)
    ensures multiset(polled) == multiset(active)
    ensures rest == Unfinished(polled) && multiset(rest) == multiset(Unfinished(active))
    ensures queued == before + Spawned(polled)
    ensures |rest| + |completed| == |active| + |done|
    ensures done <= completed && multiset(completed) == multiset(done) + Finishing(polled)
    ensures before <= queued && (Idle(active) <==> Finishing(polled) == multiset{} && queued == before)
    ensures Finishing(polled) != multiset{} <==> exists t :: t in active && Finishes(t)
  {
    assert rest[..|rest|] == rest && rest[|rest|..] == [];
    SomeFinishing(polled);
    UnfinishedPermutes(polled, active);
    FinishingCount(polled);
    assert |multiset(polled)| == |multiset(active)| && |multiset(completed)| == |multiset(done)| + |Finishing(polled)|;
    assert forall t :: t in polled <==> t in multiset(polled);
    assert forall t :: t in active <==> t in multiset(active);
  }

  lemma PassInvStep(before: seq<Task>, done: seq<nat>, active: seq<Task>, polled: seq<Task>,
                    list: seq<Task>, index: nat, queued: seq<Task>, completed: seq<nat>,
                    rest: seq<Task>, next: nat)
    requires PassInv(before, done, active, polled, list, index, queued, completed) && index < |list|
    requires next <= |rest|
    requires rest[..next] == list[..index] + if Finishes(list[index]) then [] else [Advance(list[index])]
    requires multiset(rest[next..]) + multiset{list[index]} == multiset(list[index..])
    ensures PassInv(before, done, active, polled + [list[index]], rest, next, queued + Spawns(list[index]),
                    completed + if Finishes(list[index]) then [list[index].id] else [])
  {
    PassPollsOne(before, active, polled, list[..index], list[index..], queued, list[index], rest[..next], rest[next..]);
    GrownByOne(before, polled, queued, list[index]);
    OneMoreFinishing(polled, list[index], done, completed);
  }

  lemma PassEffect(tasks: seq<Task>, polled: seq<Task>, rest: seq<Task>, queued: seq<Task>,
                   spawns: seq<Task>, pushed: seq<Task>)
    requires multiset(polled) == multiset(tasks)
    requires rest == Unfinished(polled) && queued == spawns + Spawned(polled)
    ensures multiset(rest + queued + pushed) == multiset(Round(tasks) + (spawns + pushed))
    ensures Finishing(polled) == Finishing(tasks)
  {
    RoundParts(polled);
    RoundPermutes(polled, tasks);
    FinishingPermutes(polled, tasks);
  }

  // ----- A run, halfway through -----

  /** After `k` iterations of a run that started from `start`: `tasks` are the
      unfinished tasks, and the driver slept `slept` times. */
  ghost predicate InRun(start: seq<Task>, arrivals: seq<seq<Task>>, done: seq<nat>,
                        tasks: seq<Task>, k: nat, completed: seq<nat>, slept: int)
  {
    && k < |arrivals|
    && multiset(Rounds(tasks, arrivals[k..])) == multiset(Rounds(start, arrivals))
    && Ids(tasks) + ArrivalIds(arrivals[k..]) + multiset(completed)
       == Ids(start) + ArrivalIds(arrivals) + multiset(done)
    && IdleRounds(start, arrivals, true) <= slept + IdleRounds(tasks, arrivals[k..], true)
    && slept + IdleRounds(tasks, arrivals[k..], false) <= IdleRounds(start, arrivals, false)
  }

  lemma RunStep(start: seq<Task>, arrivals: seq<seq<Task>>, done: seq<nat>,
                tasks: seq<Task>, k: nat, completed: seq<nat>, slept: int,
                tasks': seq<Task>, completed': seq<nat>, slept': int)
    requires InRun(start, arrivals, done, tasks, k, completed, slept) && k + 1 < |arrivals|
    requires multiset(tasks') == multiset(Round(tasks) + arrivals[k])
    requires multiset(completed') == multiset(completed) + Finishing(tasks)
    requires slept' == slept || (slept' == slept + 1 && Idle(tasks))
    requires Idle(tasks) && arrivals[k] == [] ==> slept' == slept + 1
    ensures InRun(start, arrivals, done, tasks', k + 1, completed', slept')
  {
    var rest := arrivals[k..];
    assert rest[0] == arrivals[k] && rest[1..] == arrivals[k + 1..];
    RoundsPermute(tasks', Round(tasks) + rest[0], rest[1..]);
    IdsAfterRound(tasks, rest, tasks', completed, completed');
    SleepAfterRound(tasks, rest, tasks', slept' - slept);
  }

  lemma IdsAfterRound(tasks: seq<Task>, arrivals: seq<seq<Task>>, tasks': seq<Task>,
                      completed: seq<nat>, completed': seq<nat>)
    requires |arrivals| > 1 && multiset(tasks') == multiset(Round(tasks) + arrivals[0])
    requires multiset(completed') == multiset(completed) + Finishing(tasks)
    ensures Ids(tasks') + ArrivalIds(arrivals[1..]) + multiset(completed')
         == Ids(tasks) + ArrivalIds(arrivals) + multiset(completed)
  {
    IdsPermute(tasks', Round(tasks) + arrivals[0]);
    IdsConcat(Round(tasks), arrivals[0]);
    RoundKeepsIds(tasks);
  }

  lemma SleepAfterRound(tasks: seq<Task>, arrivals: seq<seq<Task>>, tasks': seq<Task>, slept: int)
    requires |arrivals| > 1 && multiset(tasks') == multiset(Round(tasks) + arrivals[0])
    requires slept == 0 || (slept == 1 && Idle(tasks))
    requires Idle(tasks) && arrivals[0] == [] ==> slept == 1
    ensures IdleRounds(tasks, arrivals, true) <= slept + IdleRounds(tasks', arrivals[1..], true)
    ensures slept + IdleRounds(tasks', arrivals[1..], false) <= IdleRounds(tasks, arrivals, false)
  {
    RoundsPermute(tasks', Round(tasks) + arrivals[0], arrivals[1..]);
  }

  /** The outcome of a whole run: the unfinished tasks are those the reference
      predicts and all of them are queued; every id is queued or completed, once;
      and the driver slept in the rounds in which it had nothing to do. */
  ghost predicate RunDone(start: seq<Task>, arrivals: seq<seq<Task>>, done: seq<nat>,
                          queued: seq<Task>, completed: seq<nat>, slept: int)
  {
    && multiset(queued) == multiset(Rounds(start, arrivals))
    && Ids(queued) + multiset(completed) == Ids(start) + ArrivalIds(arrivals) + multiset(done)
    && IdleRounds(start, arrivals, true) <= slept <= IdleRounds(start, arrivals, false)
  }

  /** What a run started from. */
  datatype RunStart = RunStart(start: seq<Task>, arrivals: seq<seq<Task>>, done: seq<nat>, parks: nat)

  ghost predicate Goes(run: RunStart, tasks: seq<Task>, k: nat, completed: seq<nat>, parks: nat) {
    InRun(run.start, run.arrivals, run.done, tasks, k, completed, parks - run.parks)
  }

  ghost predicate Done(run: RunStart, queued: seq<Task>, completed: seq<nat>, parks: nat) {
    RunDone(run.start, run.arrivals, run.done, queued, completed, parks - run.parks)
  }

  lemma GoesOn(run: RunStart, tasks: seq<Task>, k: nat, completed: seq<nat>, parks: nat, arrival: seq<Task>,
               tasks': seq<Task>, completed': seq<nat>, parks': nat)
    requires Goes(run, tasks, k, completed, parks) && k + 1 < |run.arrivals| && arrival == run.arrivals[k]
    requires multiset(tasks') == multiset(Round(tasks) + arrival)
    requires multiset(completed') == multiset(completed) + Finishing(tasks)
    requires parks' == parks || (parks' == parks + 1 && Idle(tasks))
    requires Idle(tasks) && arrival == [] ==> parks' == parks + 1
    ensures Goes(run, tasks', k + 1, completed', parks')
  {
    RunStep(run.start, run.arrivals, run.done, tasks, k, completed, parks - run.parks,
            tasks', completed', parks' - run.parks);
  }

  lemma RunKeepsIds(run: RunStart, queued: seq<Task>, completed: seq<nat>, parks: nat)
    requires Done(run, queued, completed, parks)
    ensures Ids(queued) + multiset(completed) == Ids(run.start) + multiset(run.done) + ArrivalIds(run.arrivals)
  {
  }

  lemma RunEnds(start: seq<Task>, arrivals: seq<seq<Task>>, done: seq<nat>,
                tasks: seq<Task>, k: nat, completed: seq<nat>, slept: int, queued: seq<Task>)
    requires k + 1 == |arrivals|
    requires InRun(start, arrivals, done, tasks, k, completed, slept)
    requires multiset(queued) == multiset(arrivals[k] + tasks)
    ensures RunDone(start, arrivals, done, queued, completed, slept)
  {
    IdsPermute(queued, arrivals[k] + tasks);
    assert arrivals[k..] == [arrivals[k]];
    IdsConcat(arrivals[k], tasks);
    assert ArrivalIds(arrivals[k..]) == Ids(arrivals[k]) + ArrivalIds([]);
  }

  /** The order in which the last tasks reach the queue does not matter. */
  lemma LastArrivals(spawns: seq<Task>, pushed: seq<Task>, dropped: seq<Task>, tasks: seq<Task>)
    ensures multiset(spawns + pushed + tasks + dropped) == multiset(spawns + pushed + dropped + tasks)
  {
  }

  lemma RunStarts(start: seq<Task>, arrivals: seq<seq<Task>>, done: seq<nat>)
    requires arrivals != []
    ensures InRun(start, arrivals, done, [] + start, 0, done, 0)
  {
    assert [] + start == start && arrivals[0..] == arrivals;
  }

  // ----- The runtime -----

  class LiteRuntime {
    var queued: seq<Task>
    var driving: bool
    var completed: seq<nat>  // ids in order of completion
    var parks: nat           // how often a driver went to sleep

    constructor ()
      ensures queued == [] && !driving && completed == [] && parks == 0
    {
      queued, driving, completed, parks := [], false, [], 0;
    }

    method Spawn(task: Task)
      modifies this`queued
      ensures queued == old(queued) + [task]
    {
      queued := queued + [task];
    }

    method SpawnAll(tasks: seq<Task>)
      modifies this`queued
      ensures queued == old(queued) + tasks
    {
      for i := 0 to |tasks|
        invariant queued == old(queued) + tasks[..i]
      {
        Spawn(tasks[i]);
      }
    }

    /** Appends the queue to the driver's list; false if there was nothing to take. */
    method TakeQueuedTasks(tasks: seq<Task>) returns (all: seq<Task>, taken: bool)
      modifies this`queued
      ensures all == tasks + old(queued) && queued == []
      ensures taken <==> old(queued) != []
    {
      if queued == [] {
        return tasks, false;
      }
      all, taken := tasks + queued, true;
      queued := [];
    }

    method PollTask(task: Task) returns (ready: bool, rest: Task)
      modifies this`queued
      ensures queued == old(queued) + Spawns(task)
      ensures ready <==> Finishes(task)
      ensures !ready ==> rest == Advance(task)
    {
      SpawnAll(Spawns(task));
      ready := |task.turns| <= 1;
      rest := if ready then task else Task(task.id, task.turns[1..]);
    }

    /** The body of the polling loop: `tasks[index]` is polled and either removed
        or stepped over. */
    method PollAt(tasks: seq<Task>, index: nat) returns (rest: seq<Task>, next: nat, ready: bool)
      requires index < |tasks|
      modifies this`queued, this`completed
      ensures next <= |rest| && |rest| - next == |tasks| - index - 1
      ensures rest[..next] == tasks[..index] + if Finishes(tasks[index]) then [] else [Advance(tasks[index])]
      ensures multiset(rest[next..]) + multiset{tasks[index]} == multiset(tasks[index..])
      ensures queued == old(queued) + Spawns(tasks[index])
      ensures completed == old(completed) + if Finishes(tasks[index]) then [tasks[index].id] else []
      ensures ready <==> Finishes(tasks[index])
    {
      var later;
      ready, later := PollTask(tasks[index]);
      if ready {
        rest, next := SwapRemove(tasks, index), index;
        completed := completed + [tasks[index].id];
      } else {
        rest, next := tasks[index := later], index + 1;
        assert tasks[index..] == [tasks[index]] + rest[next..];
      }
    }

    /** One pass over the active list. Removing a finished task moves the last one
        into its place, yet every task is polled exactly once. */
    method PollPass(active: seq<Task>) returns (rest: seq<Task>, progress: bool, ghost polled: seq<Task>)
      modifies this`queued, this`completed
      ensures multiset(polled) == multiset(active)
      ensures rest == Unfinished(polled) && multiset(rest) == multiset(Unfinished(active))
      ensures queued == old(queued) + Spawned(polled)
      ensures |rest| + |completed| == |active| + |old(completed)|
      ensures progress <==> exists t :: t in active && Finishes(t)
      ensures old(completed) <= completed
      ensures multiset(completed) == multiset(old(completed)) + Finishing(polled)
      ensures old(queued) <= queued && (Idle(active) <==> !progress && queued == old(queued))
    {
      rest, progress, polled := active, false, [];
      var index: nat := 0;
      while index < |rest|
        invariant PassInv(old(queued), old(completed), active, polled, rest, index, queued, completed)
        invariant progress <==> Finishing(polled) != multiset{}
        decreases |rest| - index
      {
        ghost var list, i, q, c := rest, index, queued, completed;
        OneMoreFinishing(polled, list[i], old(completed), completed);
        var ready;
        rest, index, ready := PollAt(rest, index);
        PassInvStep(old(queued), old(completed), active, polled, list, i, q, c, rest, index);
        if ready {
          progress := true;
        }
        polled := polled + [list[i]];
      }
      PassEnds(old(queued), old(completed), active, polled, rest, queued, completed);
    }

    /** Pushes by other threads, at whatever point they happen to run. */
    method OtherThreads(tasks: seq<Task>)
      modifies this`queued
      ensures queued == old(queued) + tasks
    {
      SpawnAll(tasks);
    }

    /** The drops of `ActiveTasks`, of the main future and of `DriveGuard`, in this order. */
    method LeaveBlockOn(active: seq<Task>, dropped: seq<Task>)
      modifies this`queued, this`driving
      ensures queued == old(queued) + active + dropped && !driving
    {
      queued := queued + active;
      SpawnAll(dropped);
      driving := false;
    }

    /** The locked sections after a pass, and the park if they find nothing to do.
        `pushed` are the tasks other threads push before any of these sections. */
    method CollectOrPark(rest: seq<Task>, progress: bool, pushed: seq<Task>) returns (active: seq<Task>)
      modifies this`queued, this`parks
      ensures active + queued == rest + old(queued) + pushed
      ensures parks == old(parks) || (parks == old(parks) + 1 && !progress && old(queued) == [])
      ensures !progress && old(queued) + pushed == [] ==> parks == old(parks) + 1
      ensures parks > old(parks) ==> active == rest
    {
      var taken;
      var first: nat :| first <= |pushed|;
      OtherThreads(pushed[..first]);
      active, taken := TakeQueuedTasks(rest);
      if taken || progress {
        OtherThreads(pushed[first..]);
        return;
      }
      var second: nat :| first <= second <= |pushed|;
      OtherThreads(pushed[first..second]);
      active, taken := TakeQueuedTasks(active);
      if !taken {
        parks := parks + 1;
      }
      OtherThreads(pushed[second..]);
    }

    /** An iteration whose poll of the main future is pending. */
    method Iterate(before: seq<Task>, spawns: seq<Task>, pushed: seq<Task>) returns (active: seq<Task>)
      modifies this`queued, this`completed, this`parks
      ensures multiset(active + queued) == multiset(Round(before + old(queued)) + (spawns + pushed))
      ensures old(completed) <= completed
      ensures multiset(completed) == multiset(old(completed)) + Finishing(before + old(queued))
      ensures parks == old(parks) || (parks == old(parks) + 1 && Idle(before + old(queued)))
      ensures Idle(before + old(queued)) && spawns + pushed == [] ==> parks == old(parks) + 1
      ensures parks > old(parks) ==> multiset(active) == multiset(Unfinished(before + old(queued)))
    {
      hide Unfinished, Spawned, Round, Finishing;
      var taken, progress;
      ghost var polled;
      active, taken := TakeQueuedTasks(before);
      ghost var tasks := active;
      SpawnAll(spawns);
      assert queued == spawns;
      active, progress, polled := PollPass(active);
      ghost var rest, children := active, queued;
      active := CollectOrPark(active, progress, pushed);
      assert active + queued == rest + children + pushed;
      PassEffect(tasks, polled, rest, children, spawns, pushed);
    }

    /** The iteration in which the main future completes or panics. */
    method LastIteration(before: seq<Task>, spawns: seq<Task>, pushed: seq<Task>, dropped: seq<Task>)
      modifies this`queued, this`driving
      ensures multiset(queued) == multiset(spawns + pushed + dropped + (before + old(queued))) && !driving
    {
      var active, taken := TakeQueuedTasks(before);
      SpawnAll(spawns);
      OtherThreads(pushed);
      ghost var tasks := active;
      LeaveBlockOn(active, dropped);
      LastArrivals(spawns, pushed, dropped, tasks);
    }

    /** Iteration `k` of a run, with the main future pending. */
    method PendingTurn(main: Main, outside: seq<seq<Task>>, k: nat, before: seq<Task>, ghost run: RunStart)
        returns (active: seq<Task>)
      requires k + 1 < |main.turns| && run.arrivals == Arrivals(main, outside)
      requires Goes(run, before + queued, k, completed, parks)
      modifies this`queued, this`completed, this`parks
      ensures old(completed) <= completed && Goes(run, active + queued, k + 1, completed, parks)
    {
      var spawns, pushed := SpawnsAt(main, k), PushedAt(outside, k);
      assert spawns + pushed == spawns + pushed + [] == run.arrivals[k];
      hide *;
      ghost var tasks, c, p := before + queued, completed, parks;
      active := Iterate(before, spawns, pushed);
      GoesOn(run, tasks, k, c, p, spawns + pushed, active + queued, completed, parks);
    }

    /** The last iteration of a run, in which the main future completes or panics. */
    method LastTurn(main: Main, outside: seq<seq<Task>>, k: nat, before: seq<Task>, ghost run: RunStart)
      requires k + 1 == Polls(main) && run.arrivals == Arrivals(main, outside)
      requires Goes(run, before + queued, k, completed, parks)
      modifies this`queued, this`driving
      ensures !driving && Done(run, queued, completed, parks)
    {
      hide InRun, RunDone, SpawnsAt, PushedAt;
      var spawns, pushed := SpawnsAt(main, k), PushedAt(outside, k);
      assert run.arrivals[k] == spawns + pushed + main.dropped;
      hide Arrivals, ArrivalsAt;
      ghost var tasks := before + queued;
      LastIteration(before, spawns, pushed, main.dropped);
      RunEnds(run.start, run.arrivals, run.done, tasks, k, completed, parks - run.parks, queued);
    }

    /** A driver's loop, once it has set the flag. */
    method DriveToEnd(main: Main, outside: seq<seq<Task>>, ghost run: RunStart)
      requires run == RunStart(queued, Arrivals(main, outside), completed, parks)
      modifies this
      ensures !driving && old(completed) <= completed && Done(run, queued, completed, parks)
    {
      var active, k := [], 0;
      RunStarts(queued, run.arrivals, completed);
      assert Goes(run, active + queued, k, completed, parks);
      hide Goes, Done, InRun, RunDone;
      while k + 1 < |main.turns|
        invariant k < Polls(main)
        invariant old(completed) <= completed && Goes(run, active + queued, k, completed, parks)
      {
        active := PendingTurn(main, outside, k, active, run);
        k := k + 1;
      }
      LastTurn(main, outside, k, active, run);
    }

    /** `outside[i]` are the tasks other threads push during iteration `i`. */
    method BlockOn(main: Main, outside: seq<seq<Task>>) returns (result: BlockOnResult)
      modifies this
      ensures old(driving) ==> result == AlreadyDriven && unchanged(this)
      ensures !old(driving) ==> result == Finished(main.ending) && !driving && old(completed) <= completed
      ensures !old(driving) ==>
                RunDone(old(queued), Arrivals(main, outside), old(completed), queued, completed, parks - old(parks))
      ensures !old(driving) ==>
                Ids(queued) + multiset(completed)
                == Ids(old(queued)) + multiset(old(completed))
                   + (TurnIds(main.turns) + OutsideIds(outside, Polls(main)) + Ids(main.dropped))
    {
      if driving {
        return AlreadyDriven;
      }
      driving := true;
      ghost var run := RunStart(queued, Arrivals(main, outside), completed, parks);
      DriveToEnd(main, outside, run);
      RunKeepsIds(run, queued, completed, parks);
      AllArrivals(main, outside);
      hide RunDone, Ids, TurnIds, Arrivals, ArrivalIds;
      return Finished(main.ending);
    }
  }
}

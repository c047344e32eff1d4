/**
 The cooperative scheduler behind `scope`: an inbox that tasks push to, and the
 set of active tasks that `drive_scope` polls.

 Which woken task is polled next, whether a pending task wakes itself, when the
 set yields early, and which tasks the outside world wakes between two polls of
 the scope are all left open, so every schedule is covered.
 */
module Scoped {
  import opened TaskForest

  /** A member of `FuturesUnordered`: it is polled only after its waker fired. */
  datatype Child = Child(task: Task, woken: bool)

  datatype Next = NextReady | NextNone | NextPending

  datatype Ending = Returns(value: int) | Panics

  /** The future of the closure given to `scope`. */
  datatype Closure = Closure(turns: seq<Turn>, ending: Ending)

  function Tasks(children: seq<Child>): seq<Task> {
    if children == [] then [] else [children[0].task] + Tasks(children[1..])
  }

  /** New members of the set count as woken. */
  function Wake(tasks: seq<Task>): (children: seq<Child>)
    ensures children == [] <==> tasks == []
    ensures children != [] ==> children[0].woken
  {
    if tasks == [] then [] else [Child(tasks[0], true)] + Wake(tasks[1..])
  }

  lemma {:induction false} TasksConcat(a: seq<Child>, b: seq<Child>)
    ensures Tasks(a + b) == Tasks(a) + Tasks(b)
  {
    if a == [] {
      assert a + b == b;
    } else {
      assert (a + b)[0] == a[0] && (a + b)[1..] == a[1..] + b;
      TasksConcat(a[1..], b);
    }
  }

  lemma {:induction false} TasksOfWake(tasks: seq<Task>)
    ensures Tasks(Wake(tasks)) == tasks
  {
    if tasks != [] {
      var rest := Wake(tasks[1..]);
      assert Wake(tasks)[0] == Child(tasks[0], true) && Wake(tasks)[1..] == rest;
      TasksOfWake(tasks[1..]);
    }
  }

  ghost predicate SomeWoken(children: seq<Child>) {
    exists i :: 0 <= i < |children| && children[i].woken
  }

  /** The ids of all tasks ever pushed, with those they spawn, and the number of
      polls they take in all. */
  datatype Books = Books(ids: multiset<nat>, work: nat)

  /** The books as the state of a run accounts for them: by what is unfinished,
      what has completed, and how many polls there were. */
  ghost function Account(inbox: seq<Task>, active: seq<Child>, completed: seq<nat>, polls: nat): Books {
    Books(Ids(inbox) + Ids(Tasks(active)) + multiset(completed),
          Weight(inbox) + Weight(Tasks(active)) + polls)
  }

  /** The member `i` has left the set, or has been replaced by what is left of it. */
  ghost predicate IsPolled(active: seq<Child>, i: nat, after: seq<Child>)
    requires i < |active|
  {
    var task := active[i].task;
    if Finishes(task) then after == active[..i] + active[i + 1..]
    else exists again :: after == active[i := Child(Advance(task), again)]
  }

  /** Puts `later` in the place of `active[i]`. */
  method Replace(active: seq<Child>, i: nat, later: seq<Child>) returns (rest: seq<Child>)
    requires i < |active|
    ensures rest == active[..i] + (later + active[i + 1..])
    ensures Ids(Tasks(rest)) + Ids([active[i].task]) == Ids(Tasks(active)) + Ids(Tasks(later))
    ensures Weight(Tasks(rest)) + Weight([active[i].task]) == Weight(Tasks(active)) + Weight(Tasks(later))
  {
    rest := active[..i] + (later + active[i + 1..]);
    var front, back := Tasks(active[..i]), Tasks(active[i + 1..]);
    assert active == active[..i] + ([active[i]] + active[i + 1..]);
    TasksConcat(active[..i], [active[i]] + active[i + 1..]);
    assert ([active[i]] + active[i + 1..])[1..] == active[i + 1..];
    TasksConcat(active[..i], later + active[i + 1..]);
    TasksConcat(later, active[i + 1..]);
    IdsConcat3(front, [active[i].task], back);
    IdsConcat3(front, Tasks(later), back);
    WeightConcat3(front, [active[i].task], back);
    WeightConcat3(front, Tasks(later), back);
  }

  /** Polling `t` keeps the accounts: `rest` is the active set afterwards, in which
      `later` has replaced `t`. */
  lemma PollKeepsAccount(inbox: seq<Task>, active: seq<Child>, completed: seq<nat>, polls: nat,
                         t: Task, later: seq<Child>, rest: seq<Child>, finished: seq<nat>)
    requires Finishes(t) ==> later == [] && finished == [t.id]
    requires !Finishes(t) ==> |later| == 1 && later[0].task == Advance(t) && finished == []
    requires Ids(Tasks(rest)) + Ids([t]) == Ids(Tasks(active)) + Ids(Tasks(later))
    requires Weight(Tasks(rest)) + Weight([t]) == Weight(Tasks(active)) + Weight(Tasks(later))
    ensures Account(inbox + Spawns(t), rest, completed + finished, polls + 1)
         == Account(inbox, active, completed, polls)
  {
    var kept := Tasks(later);
    assert kept == if Finishes(t) then [] else [Advance(t)];
    hide Ids, TurnIds, Weight, TurnWeight, Tasks;
    PollBooks(t, kept, finished);
    IdsConcat(inbox, Spawns(t));
    WeightConcat(inbox, Spawns(t));
    Regroup(Ids(inbox), Ids(Tasks(active)), Ids(Tasks(rest)), Ids(kept), Ids(Spawns(t)),
            multiset(finished), multiset(completed));
  }

  lemma PollBooks(t: Task, kept: seq<Task>, finished: seq<nat>)
    requires kept == if Finishes(t) then [] else [Advance(t)]
    requires finished == if Finishes(t) then [t.id] else []
    ensures Ids([t]) == Ids(kept) + Ids(Spawns(t)) + multiset(finished)
    ensures Weight([t]) == 1 + Weight(kept) + Weight(Spawns(t))
  {
    hide Ids, TurnIds, Weight, TurnWeight;
    assert Successors(t) == kept + Spawns(t);
    IdsConcat(kept, Spawns(t));
    SuccessorsKeepIds(t);
    WeightConcat(kept, Spawns(t));
    PollLowersWeight(t);
  }

  lemma Regroup(inbox: multiset<nat>, active: multiset<nat>, rest: multiset<nat>, kept: multiset<nat>,
                spawns: multiset<nat>, finished: multiset<nat>, completed: multiset<nat>)
    requires rest + (kept + spawns + finished) == active + kept
    ensures (inbox + spawns) + rest + (completed + finished) == inbox + active + completed
  {
    forall x
      ensures ((inbox + spawns) + rest + (completed + finished))[x] == (inbox + active + completed)[x]
    {
      assert (rest + (kept + spawns + finished))[x] == (active + kept)[x];
    }
  }

  lemma IdsConcat3(a: seq<Task>, b: seq<Task>, c: seq<Task>)
    ensures Ids(a + (b + c)) == Ids(a) + Ids(b) + Ids(c)
  {
    IdsConcat(b, c);
    IdsConcat(a, b + c);
  }

  lemma WeightConcat3(a: seq<Task>, b: seq<Task>, c: seq<Task>)
    ensures Weight(a + (b + c)) == Weight(a) + Weight(b) + Weight(c)
  {
    WeightConcat(b, c);
    WeightConcat(a, b + c);
  }

  /** Moving the inbox into the active set keeps the accounts. */
  lemma TakeKeepsAccount(inbox: seq<Task>, active: seq<Child>, completed: seq<nat>, polls: nat)
    ensures Account([], active + Wake(inbox), completed, polls) == Account(inbox, active, completed, polls)
  {
    assert Ids([]) == multiset{} && Weight([]) == 0;
    hide Ids, TurnIds, Weight, TurnWeight, Tasks;
    TasksConcat(active, Wake(inbox));
    TasksOfWake(inbox);
    IdsConcat(Tasks(active), inbox);
    WeightConcat(Tasks(active), inbox);
  }

  /** A waker that fires changes nothing in the books. */
  lemma WakeKeepsAccount(inbox: seq<Task>, active: seq<Child>, completed: seq<nat>, polls: nat, i: nat)
    requires i < |active|
    ensures Account(inbox, active[i := Child(active[i].task, true)], completed, polls)
         == Account(inbox, active, completed, polls)
  {
    TasksUpdate(active, i, Child(active[i].task, true));
  }

  lemma {:induction false} TasksUpdate(active: seq<Child>, i: nat, child: Child)
    requires i < |active| && child.task == active[i].task
    ensures Tasks(active[i := child]) == Tasks(active)
  {
    if i > 0 {
      assert active[i := child][1..] == active[1..][i - 1 := child];
      TasksUpdate(active[1..], i - 1, child);
    } else {
      assert active[i := child][1..] == active[1..];
    }
  }

  /** The weight of a script counts its own turns too. */
  lemma {:induction false} WeightAtLeastTurns(turns: seq<Turn>)
    ensures TurnWeight(turns) >= |turns|
  {
    if turns != [] {
      WeightAtLeastTurns(turns[1..]);
    }
  }

  /** The books of everything the closure spawned in its first `k` polls. */
  ghost function ClosureBooks(turns: seq<Turn>, k: nat): Books
    requires k <= |turns|
  {
    WeightAtLeastTurns(turns[..k]);
    Books(TurnIds(turns[..k]), TurnWeight(turns[..k]) - k)
  }

  lemma NothingSpawned(turns: seq<Turn>)
    ensures ClosureBooks(turns, 0) == Books(multiset{}, 0)
  {
    assert turns[..0] == [];
  }

  lemma PushKeepsAccount(inbox: seq<Task>, active: seq<Child>, completed: seq<nat>, polls: nat,
                         turns: seq<Turn>, k: nat)
    requires k < |turns| && Account(inbox, active, completed, polls) == ClosureBooks(turns, k)
    ensures Account(inbox + turns[k].spawns, active, completed, polls) == ClosureBooks(turns, k + 1)
  {
    hide Ids, TurnIds, Weight, TurnWeight, Tasks;
    IdsConcat(inbox, turns[k].spawns);
    WeightConcat(inbox, turns[k].spawns);
    LastTurn(turns, k);
  }

  // ----- Woken members get their poll -----

  function WokenTasks(children: seq<Child>): seq<Task> {
    if children == [] then []
    else (if children[0].woken then [children[0].task] else []) + WokenTasks(children[1..])
  }

  lemma {:induction false} WokenConcat(a: seq<Child>, b: seq<Child>)
    ensures WokenTasks(a + b) == WokenTasks(a) + WokenTasks(b)
  {
    if a == [] {
      assert a + b == b;
    } else {
      var ab := a + b;
      assert ab[0] == a[0] && ab[1..] == a[1..] + b;
      WokenConcat(a[1..], b);
      assert WokenTasks(a) == (if a[0].woken then [a[0].task] else []) + WokenTasks(a[1..]);
    }
  }

  lemma {:induction false} WokenOfWake(tasks: seq<Task>)
    ensures WokenTasks(Wake(tasks)) == tasks
  {
    if tasks != [] {
      assert Wake(tasks)[0] == Child(tasks[0], true) && Wake(tasks)[1..] == Wake(tasks[1..]);
      WokenOfWake(tasks[1..]);
    }
  }

  lemma {:induction false} NoneWoken(children: seq<Child>)
    requires !SomeWoken(children)
    ensures WokenTasks(children) == []
  {
    if children != [] {
      assert !children[0].woken;
      forall i | 0 <= i < |children| - 1 ensures !children[1..][i].woken {
        assert !children[i + 1].woken;
      }
      NoneWoken(children[1..]);
    }
  }

  /** The ids that have completed, and those that will once everything in the inbox or
      woken, and what it spawns, has been polled once. */
  ghost function Reach(inbox: seq<Task>, active: seq<Child>, completed: seq<nat>): multiset<nat> {
    multiset(completed) + FirstIds(inbox) + FirstIds(WokenTasks(active))
  }

  lemma TakeKeepsReach(inbox: seq<Task>, active: seq<Child>, completed: seq<nat>)
    ensures Reach([], active + Wake(inbox), completed) == Reach(inbox, active, completed)
  {
    WokenConcat(active, Wake(inbox));
    WokenOfWake(inbox);
    FirstIdsConcat(WokenTasks(active), inbox);
    assert FirstIds([]) == multiset{};
    hide FirstIds;
  }

  /** A poll of a woken member loses nothing of what is in reach. */
  lemma PollKeepsReach(inbox: seq<Task>, active: seq<Child>, completed: seq<nat>, i: nat, later: seq<Child>)
    requires i < |active| && active[i].woken
    ensures var t := active[i].task;
      Reach(inbox, active, completed) <=
      Reach(inbox + Spawns(t), active[..i] + (later + active[i + 1..]),
            completed + if Finishes(t) then [t.id] else [])
  {
    var t, front, back := active[i].task, active[..i], active[i + 1..];
    assert active == front + ([active[i]] + back);
    WokenConcat(front, [active[i]] + back);
    assert WokenTasks([active[i]] + back) == [t] + WokenTasks(back) by {
      assert ([active[i]] + back)[1..] == back;
    }
    WokenConcat(front, later + back);
    WokenConcat(later, back);
    FirstIdsSingle(t);
    hide FirstIds, WokenTasks, Finishes, Spawns;
    FirstIdsConcat(WokenTasks(front), [t] + WokenTasks(back));
    FirstIdsConcat([t], WokenTasks(back));
    FirstIdsConcat(WokenTasks(front), WokenTasks(later) + WokenTasks(back));
    FirstIdsConcat(WokenTasks(later), WokenTasks(back));
    FirstIdsConcat(inbox, Spawns(t));
  }

  lemma PolledKeepsReach(inbox: seq<Task>, active: seq<Child>, completed: seq<nat>, i: nat, after: seq<Child>)
    requires i < |active| && active[i].woken && IsPolled(active, i, after)
    ensures var t := active[i].task;
      Reach(inbox, active, completed) <=
      Reach(inbox + Spawns(t), after, completed + if Finishes(t) then [t.id] else [])
  {
    var t := active[i].task;
    if Finishes(t) {
      assert active[..i] + ([] + active[i + 1..]) == after;
      PollKeepsReach(inbox, active, completed, i, []);
    } else {
      var again :| after == active[i := Child(Advance(t), again)];
      assert active[..i] + ([Child(Advance(t), again)] + active[i + 1..]) == after;
      PollKeepsReach(inbox, active, completed, i, [Child(Advance(t), again)]);
    }
  }

  /** The ids in reach of one poll each among what the closure spawned in its first `k`
      polls. */
  function FirstDue(turns: seq<Turn>, k: nat): multiset<nat>
    requires k <= |turns|
  {
    if k == 0 then multiset{} else FirstDue(turns, k - 1) + FirstIds(turns[k - 1].spawns)
  }

  /** How many of the closure's first `k` polls pushed something. */
  function Pushes(turns: seq<Turn>, k: nat): nat
    requires k <= |turns|
  {
    if k == 0 then 0 else Pushes(turns, k - 1) + if turns[k - 1].spawns == [] then 0 else 1
  }

  class ScopeRun {
    var inbox: seq<Task>
    var registered: bool     // the scope's waker slot holds the driver's waker
    var driverWoken: bool    // that waker has fired since the driver last ran
    var active: seq<Child>
    var completed: seq<nat>  // ids in order of completion
    var polls: nat           // polls of tasks so far
    var earlyYields: nat     // how often the set has yielded early
    ghost var books: Books

    ghost predicate Valid()
      reads this
      ensures Valid() ==> polls <= books.work
    {
      Account(inbox, active, completed, polls) == books
    }

    ghost function InReach(): multiset<nat>
      reads this
    {
      Reach(inbox, active, completed)
    }

    constructor ()
      ensures Valid() && inbox == [] && active == [] && completed == [] && polls == 0
      ensures books == Books(multiset{}, 0) && earlyYields == 0
    {
      inbox, active, completed, polls, earlyYields := [], [], [], 0, 0;
      registered, driverWoken := false, false;
      books := Books(multiset{}, 0);
    }

    /** `Scope::push`: the wake takes the registered waker out of its slot. */
    method Push(task: Task)
      modifies this`inbox, this`registered, this`driverWoken
      ensures inbox == old(inbox) + [task]
      ensures !registered && (driverWoken <==> old(driverWoken || registered))
    {
      inbox := inbox + [task];
      if registered {
        registered, driverWoken := false, true;
      }
    }

    method PushAll(tasks: seq<Task>)
      modifies this`inbox, this`registered, this`driverWoken
      ensures inbox == old(inbox) + tasks
      ensures tasks == [] ==> registered == old(registered)
      ensures old(driverWoken) ==> driverWoken
    {
      for i := 0 to |tasks|
        invariant inbox == old(inbox) + tasks[..i]
        invariant i == 0 ==> registered == old(registered)
        invariant old(driverWoken) ==> driverWoken
      {
        Push(tasks[i]);
      }
    }

    /** Polls one woken member: it leaves the set when it completes, and otherwise
        stays, woken again only if it woke itself. */
    method PollChild(i: nat) returns (ready: bool)
      requires Valid() && i < |active| && active[i].woken
      modifies this`inbox, this`registered, this`driverWoken, this`active, this`completed, this`polls
      ensures Valid() && polls == old(polls) + 1
      ensures old(completed) <= completed && |completed| == |old(completed)| + if ready then 1 else 0
      ensures !ready ==> |active| == |old(active)|
      ensures var task := old(active[i].task);
              && (ready <==> Finishes(task))
              && inbox == old(inbox) + Spawns(task)
              && completed == old(completed) + (if ready then [task.id] else [])
              && IsPolled(old(active), i, active)
    {
      hide Account, Ids, TurnIds, Weight, TurnWeight, Tasks;
      var task := active[i].task;
      ghost var start := inbox;
      PushAll(Spawns(task));
      ready := |task.turns| <= 1;
      var later: seq<Child>, finished: seq<nat> := [], [];
      if ready {
        finished := [task.id];
      } else {
        var again: bool := *;
        later := [Child(Advance(task), again)];
      }
      var rest := Replace(active, i, later);
      PollKeepsAccount(start, active, completed, polls, task, later, rest, finished);
      assert ready ==> rest == active[..i] + active[i + 1..];
      assert !ready ==> rest == active[i := later[0]];
      active, completed, polls := rest, completed + finished, polls + 1;
    }

    /** Polls whichever woken member comes next. */
    method PollWoken() returns (ready: bool)
      requires Valid() && SomeWoken(active)
      modifies this`inbox, this`registered, this`driverWoken, this`active, this`completed, this`polls
      ensures Valid() && polls == old(polls) + 1
      ensures |completed| == |old(completed)| + (if ready then 1 else 0) && old(completed) <= completed
      ensures !ready ==> active != []
      ensures old(InReach()) <= InReach()
    {
      hide Account, Finishes, Spawns, IsPolled, Reach;
      var i: nat :| i < |active| && active[i].woken;
      ghost var inbox0, active0, completed0 := inbox, active, completed;
      ready := PollChild(i);
      PolledKeepsReach(inbox0, active0, completed0, i, active);
    }

    /** `FuturesUnordered::poll_next`: polls woken members until one completes, none
        is left, or the set yields early after waking its driver itself. */
    method PollNext() returns (next: Next)
      requires Valid()
      modifies this`inbox, this`registered, this`driverWoken, this`active, this`completed, this`polls, this`earlyYields
      ensures Valid() && old(completed) <= completed && polls >= old(polls)
      ensures old(InReach()) <= InReach() && earlyYields >= old(earlyYields)
      ensures next.NextPending? && earlyYields == old(earlyYields) ==> !SomeWoken(active)
      ensures polls == old(polls) ==> inbox == old(inbox) && active == old(active) && completed == old(completed)
      ensures old(SomeWoken(active)) <==> polls > old(polls)
      ensures next.NextReady? ==> |completed| == |old(completed)| + 1 && polls > old(polls)
      ensures !next.NextReady? ==> completed == old(completed)
      ensures next.NextNone? <==> old(active) == []
      ensures next.NextNone? ==> active == []
      ensures next.NextPending? ==> active != [] && (driverWoken || !SomeWoken(active))
    {
      hide Account, Ids, TurnIds, Weight, TurnWeight, Tasks, Reach;
      if active == [] {
        return NextNone;
      }
      if !SomeWokenNow() {
        return NextPending;
      }
      next := PollFirst();
    }

    /** The polls of `poll_next`, of which there is at least one. */
    method PollFirst() returns (next: Next)
      requires Valid() && SomeWoken(active)
      modifies this`inbox, this`registered, this`driverWoken, this`active, this`completed, this`polls, this`earlyYields
      ensures Valid() && old(completed) <= completed && polls > old(polls)
      ensures old(InReach()) <= InReach() && earlyYields >= old(earlyYields)
      ensures |completed| == |old(completed)| + if next.NextReady? then 1 else 0
      ensures !next.NextNone?
      ensures next.NextPending? ==> active != []
      ensures next.NextPending? && earlyYields == old(earlyYields) ==> !SomeWoken(active)
      ensures next.NextPending? ==> driverWoken || !SomeWoken(active)
    {
      hide Account, Ids, TurnIds, Weight, TurnWeight, Tasks, Reach;
      var ready := PollWoken();
      while !ready
        invariant Valid() && polls > old(polls) && earlyYields == old(earlyYields)
        invariant old(completed) <= completed && |completed| == |old(completed)| + if ready then 1 else 0
        invariant !ready ==> active != []
        invariant old(InReach()) <= InReach()
        decreases books.work - polls
      {
        var early: bool := *;
        if early {
          driverWoken, earlyYields := true, earlyYields + 1;
          return NextPending;
        }
        if !SomeWokenNow() {
          return NextPending;
        }
        ready := PollWoken();
      }
      return NextReady;
    }

    predicate SomeWokenNow()
      reads this`active
      ensures SomeWokenNow() <==> SomeWoken(active)
    {
      exists i :: 0 <= i < |active| && active[i].woken
    }

    /** `drive_scope`: absorbs the inbox and polls until nothing can move at once. */
    method DriveScope() returns (progress: bool, empty: bool)
      requires Valid()
      modifies this`inbox, this`registered, this`driverWoken, this`active, this`completed, this`polls, this`earlyYields
      ensures Valid() && old(completed) <= completed && polls >= old(polls)
      ensures old(InReach()) <= InReach() && earlyYields >= old(earlyYields)
      ensures earlyYields == old(earlyYields) ==> !SomeWoken(active)
      ensures registered && inbox == []
      ensures empty <==> active == []
      ensures progress <==> completed != old(completed)
      ensures driverWoken || !SomeWoken(active)
      ensures old(inbox != [] || SomeWoken(active)) <==> polls > old(polls)
      ensures polls == old(polls) ==> active == old(active) && completed == old(completed)
    {
      hide Account, Ids, TurnIds, Weight, TurnWeight, Tasks, Reach;
      progress := false;
      while true
        invariant Valid() && old(completed) <= completed && polls >= old(polls)
        invariant old(InReach()) <= InReach() && earlyYields >= old(earlyYields)
        invariant progress <==> |completed| > |old(completed)|
        invariant polls == old(polls) ==>
                    inbox == old(inbox) && active == old(active) && completed == old(completed)
        invariant old(inbox == [] && !SomeWoken(active)) ==> polls == old(polls)
        decreases books.work - polls
      {
        registered := true;
        TakeKeepsAccount(inbox, active, completed, polls);
        TakeKeepsReach(inbox, active, completed);
        assert inbox == [] ==> active + Wake(inbox) == active;
        assert inbox != [] ==> (active + Wake(inbox))[|active|].woken;
        assert forall i :: 0 <= i < |active| ==> (active + Wake(inbox))[i] == active[i];
        active, inbox := active + Wake(inbox), [];
        var next := PollNext();
        match next
        case NextReady =>
          progress := true;
        case NextNone =>
          registered := true;
          if inbox == [] {
            return progress, true;
          }
        case NextPending =>
          registered := true;
          if inbox == [] {
            return progress, false;
          }
      }
    }

    /** The world outside between two polls of the scope: it fires this many task
        wakers, of whichever tasks it likes. */
    method Outside(wakes: nat)
      requires Valid()
      modifies this`active, this`driverWoken
      ensures Valid()
      ensures active == [] <==> old(active) == []
      ensures wakes > 0 && active != [] ==> SomeWoken(active)
      ensures wakes == 0 ==> active == old(active)
    {
      hide Account, Ids, TurnIds, Weight, TurnWeight, Tasks;
      if active == [] {
        return;
      }
      for n := 0 to wakes
        invariant Valid() && active != []
        invariant n > 0 ==> SomeWoken(active)
        invariant n == 0 ==> active == old(active)
      {
        var i: nat :| i < |active|;
        WakeKeepsAccount(inbox, active, completed, polls, i);
        active := active[i := Child(active[i].task, true)];
        assert active[i].woken;
        driverWoken := true;
      }
    }

    /** The spawns of one poll of the closure's future. */
    method PollClosure(turns: seq<Turn>, k: nat)
      requires Valid() && k < |turns| && books == ClosureBooks(turns, k)
      modifies this
      ensures Valid() && books == ClosureBooks(turns, k + 1)
      ensures active == old(active) && completed == old(completed) && polls == old(polls)
      ensures inbox == old(inbox) + turns[k].spawns && earlyYields == old(earlyYields)
    {
      hide Account, ClosureBooks;
      PushKeepsAccount(inbox, active, completed, polls, turns, k);
      PushAll(turns[k].spawns);
      books := ClosureBooks(turns, k + 1);
    }

    /** The polls of the scope in which the closure is pending. */
    method DrivePending(closure: Closure)
      requires Valid() && books == ClosureBooks(closure.turns, 0) && inbox == [] && earlyYields == 0
      modifies this
      ensures Valid() && books == ClosureBooks(closure.turns, PendingTurns(closure)) && inbox == []
      ensures multiset(completed) <= TurnIds(closure.turns[..PendingTurns(closure)])
      ensures Pushes(closure.turns, PendingTurns(closure)) <= polls
      ensures earlyYields == 0 ==> FirstDue(closure.turns, PendingTurns(closure)) <= multiset(completed)
    {
      hide Account, Ids, TurnIds, Weight, TurnWeight, Tasks, Reach, FirstIds, FirstDue, Pushes, ClosureBooks;
      var k := 0;
      DueStarts(closure.turns);
      while k < PendingTurns(closure)
        invariant k <= PendingTurns(closure)
        invariant Valid() && books == ClosureBooks(closure.turns, k) && inbox == []
        invariant Pushes(closure.turns, k) <= polls
        invariant earlyYields == 0 ==> FirstDue(closure.turns, k) <= multiset(completed)
      {
        DriveTurn(closure.turns, k);
        k := k + 1;
      }
      CompletedSoFar(closure.turns, k, inbox, active, completed, polls);
    }

    /** One poll of the scope in which the closure is pending: it pushes, and then its tasks
        are driven. */
    method DriveTurn(turns: seq<Turn>, k: nat)
      requires k < |turns| && Valid() && books == ClosureBooks(turns, k) && inbox == []
      requires Pushes(turns, k) <= polls
      requires earlyYields == 0 ==> FirstDue(turns, k) <= multiset(completed)
      modifies this
      ensures Valid() && books == ClosureBooks(turns, k + 1) && inbox == []
      ensures Pushes(turns, k + 1) <= polls
      ensures earlyYields == 0 ==> FirstDue(turns, k + 1) <= multiset(completed)
    {
      hide Account, Ids, TurnIds, Weight, TurnWeight, Tasks, Reach, FirstIds;
      driverWoken := false;
      PollClosure(turns, k);
      InReachNow(turns, k, inbox, active, completed);
      var progress, empty := DriveScope();
      if earlyYields == 0 {
        AllReached(active, completed);
      }
      if !progress {
        var wakes: nat :| wakes >= 0;
        Outside(wakes);
      }
    }

    /** The polls of the scope after the closure has returned. */
    method Drain(turns: seq<Turn>)
      requires Valid() && books == ClosureBooks(turns, |turns|)
      modifies this`inbox, this`registered, this`driverWoken, this`active, this`completed, this`polls, this`earlyYields
      ensures Valid() && inbox == [] && active == []
      ensures old(completed) <= completed && polls >= old(polls) && earlyYields >= old(earlyYields)
      ensures multiset(old(completed)) <= multiset(completed)
    {
      hide Account, Ids, TurnIds, Weight, TurnWeight, Tasks, Reach, FirstIds;
      var progress, empty := DriveScope();
      var spurious: nat :| spurious >= 0;  // polls of the scope that nothing called for
      while !empty
        invariant Valid() && inbox == [] && (empty <==> active == [])
        invariant old(completed) <= completed && polls >= old(polls) && earlyYields >= old(earlyYields)
        decreases books.work - polls, spurious
      {
        var wakes: nat :| wakes >= 0;
        if wakes == 0 && !SomeWokenNow() {
          if spurious == 0 {
            wakes := 1;
          } else {
            spurious := spurious - 1;
          }
        }
        Outside(wakes);
        driverWoken := false;
        progress, empty := DriveScope();
      }
      PrefixElements(old(completed), completed);
    }
  }

  /** `scope`: drives the closure together with the tasks it pushes, then drains.
      If the closure panics, its frame unwinds and the unfinished tasks are dropped. */
  method RunScope(closure: Closure)
      returns (result: Ending, completed: seq<nat>, polls: nat, earlyYields: nat)
    ensures result == closure.ending
    ensures result.Returns? ==> multiset(completed) == TurnIds(closure.turns)
    ensures result.Returns? ==> polls + |closure.turns| == TurnWeight(closure.turns)
    ensures result.Panics? ==> multiset(completed) <= TurnIds(closure.turns[..PendingTurns(closure)])
    ensures Pushes(closure.turns, PendingTurns(closure)) <= polls
    ensures earlyYields == 0 ==> FirstDue(closure.turns, PendingTurns(closure)) <= multiset(completed)
  {
    var run := new ScopeRun();
    var turns := closure.turns;
    hide Account, Ids, TurnIds, Weight, TurnWeight, Tasks, Reach, FirstIds;
    NothingSpawned(turns);
    run.DrivePending(closure);
    if turns != [] {
      run.PollClosure(turns, |turns| - 1);
    }
    if closure.ending.Returns? {
      run.Drain(turns);
      RunDrained(turns, run.completed, run.polls);
    }
    return closure.ending, run.completed, run.polls, run.earlyYields;
  }

  /** How many polls of the closure leave it pending. */
  function PendingTurns(closure: Closure): (n: nat)
    ensures n <= |closure.turns|
  {
    if closure.turns == [] then 0 else |closure.turns| - 1
  }

  lemma DueStarts(turns: seq<Turn>)
    ensures Pushes(turns, 0) == 0 && FirstDue(turns, 0) == multiset{}
  {
  }

  lemma PrefixElements(a: seq<nat>, b: seq<nat>)
    requires a <= b
    ensures multiset(a) <= multiset(b)
  {
    assert b == a + b[|a|..];
  }

  lemma InReachNow(turns: seq<Turn>, k: nat, inbox: seq<Task>, active: seq<Child>, completed: seq<nat>)
    requires k < |turns| && inbox == turns[k].spawns
    ensures FirstDue(turns, k) <= multiset(completed) ==> FirstDue(turns, k + 1) <= Reach(inbox, active, completed)
  {
  }

  lemma AllReached(active: seq<Child>, completed: seq<nat>)
    requires !SomeWoken(active)
    ensures Reach([], active, completed) == multiset(completed)
  {
    NoneWoken(active);
    assert FirstIds([]) == multiset{};
  }

  lemma CompletedSoFar(turns: seq<Turn>, k: nat, inbox: seq<Task>, active: seq<Child>, completed: seq<nat>, polls: nat)
    requires k <= |turns| && Account(inbox, active, completed, polls) == ClosureBooks(turns, k)
    ensures multiset(completed) <= TurnIds(turns[..k])
  {
  }

  lemma RunDrained(turns: seq<Turn>, completed: seq<nat>, polls: nat)
    requires Account([], [], completed, polls) == ClosureBooks(turns, |turns|)
    ensures multiset(completed) == TurnIds(turns) && polls + |turns| == TurnWeight(turns)
  {
    assert turns[..|turns|] == turns;
  }
}

/**
 Tasks as finite scripts.

 A task is an opaque future to the executors, so all that matters of one poll is
 which further tasks it spawns and whether it leaves the task pending. A script
 lists those effects poll by poll; spawned tasks carry scripts of their own.
 */
module TaskForest {

  datatype Turn = Turn(spawns: seq<Task>)

  datatype Task = Task(id: nat, turns: seq<Turn>)

  /** A poll of `t` completes it: its last turn is due. */
  predicate Finishes(t: Task) {
    |t.turns| <= 1
  }

  /** What one poll of `t` spawns. */
  function Spawns(t: Task): seq<Task> {
    if t.turns == [] then [] else t.turns[0].spawns
  }

  /** `t` after a poll that left it pending. */
  function Advance(t: Task): Task
    requires !Finishes(t)
  {
    Task(t.id, t.turns[1..])
  }

  /** The tasks one poll of `t` leaves behind. */
  function Successors(t: Task): seq<Task> {
    (if Finishes(t) then [] else [Advance(t)]) + Spawns(t)
  }

  /** Every task of `ts` polled once. */
  function Round(ts: seq<Task>): seq<Task> {
    if ts == [] then [] else Successors(ts[0]) + Round(ts[1..])
  }

  // ----- Rounds depend on the tasks, not on their order -----

  lemma {:induction false} RoundConcat(a: seq<Task>, b: seq<Task>)
    ensures Round(a + b) == Round(a) + Round(b)
  {
    if a == [] {
      assert a + b == b;
    } else {
      var ab := a + b;
      assert ab[0] == a[0] && ab[1..] == a[1..] + b;
      RoundConcat(a[1..], b);
      assert Round(ab) == Successors(a[0]) + (Round(a[1..]) + Round(b));
    }
  }

  lemma RoundSingle(t: Task)
    ensures Round([t]) == Successors(t)
  {
    assert Round([]) == [];
  }

  /** The first element of `a` sits somewhere in any rearrangement `b` of `a`. */
  lemma FindFirst<T>(a: seq<T>, b: seq<T>) returns (k: nat)
    requires a != [] && multiset(a) == multiset(b)
    ensures k < |b| && b == b[..k] + ([a[0]] + b[k + 1..])
    ensures multiset(a[1..]) == multiset(b[..k] + b[k + 1..])
  {
    assert a[0] in multiset(b);
    k :| 0 <= k < |b| && b[k] == a[0];
    assert a == [a[0]] + a[1..];
    assert b == b[..k] + ([a[0]] + b[k + 1..]);
    assert multiset(b) == multiset(b[..k]) + (multiset{a[0]} + multiset(b[k + 1..]));
    assert multiset(a[1..]) == multiset(a) - multiset{a[0]};
    assert multiset(b[..k] + b[k + 1..]) == multiset(b) - multiset{a[0]};
  }

  lemma NoElements<T>(b: seq<T>)
    ensures multiset(b) == multiset{} <==> b == []
  {
    if b != [] {
      assert b[0] in multiset(b);
    }
  }

  lemma {:induction false} RoundPermutes(a: seq<Task>, b: seq<Task>)
    requires multiset(a) == multiset(b)
    ensures multiset(Round(a)) == multiset(Round(b))
    decreases |a|
  {
    if a == [] {
      NoElements(b);
    } else {
      var k := FindFirst(a, b);
      var front, back := b[..k], b[k + 1..];
      RoundPermutes(a[1..], front + back);
      RoundConcat(front, back);
      RoundConcat(front, [a[0]] + back);
      RoundConcat([a[0]], back);
      RoundSingle(a[0]);
    }
  }

  /** What a poll of each task leaves of the tasks themselves. */
  function Unfinished(ts: seq<Task>): seq<Task> {
    if ts == [] then [] else (if Finishes(ts[0]) then [] else [Advance(ts[0])]) + Unfinished(ts[1..])
  }

  /** What the tasks spawn when each is polled in turn. */
  function Spawned(ts: seq<Task>): seq<Task> {
    if ts == [] then [] else Spawns(ts[0]) + Spawned(ts[1..])
  }

  /** A round is what is left of the tasks, and what they spawn. */
  lemma {:induction false} RoundParts(ts: seq<Task>)
    ensures multiset(Round(ts)) == multiset(Unfinished(ts)) + multiset(Spawned(ts))
  {
    if ts != [] {
      RoundParts(ts[1..]);
    }
  }

  lemma {:induction false} UnfinishedConcat(a: seq<Task>, b: seq<Task>)
    ensures Unfinished(a + b) == Unfinished(a) + Unfinished(b)
  {
    if a == [] {
      assert a + b == b;
    } else {
      var ab := a + b;
      assert ab[0] == a[0] && ab[1..] == a[1..] + b;
      UnfinishedConcat(a[1..], b);
      var kept := if Finishes(a[0]) then [] else [Advance(a[0])];
      assert Unfinished(ab) == kept + (Unfinished(a[1..]) + Unfinished(b));
      assert Unfinished(a) == kept + Unfinished(a[1..]);
    }
  }

  lemma {:induction false} SpawnedConcat(a: seq<Task>, b: seq<Task>)
    ensures Spawned(a + b) == Spawned(a) + Spawned(b)
  {
    if a == [] {
      assert a + b == b;
    } else {
      var ab := a + b;
      assert ab[0] == a[0] && ab[1..] == a[1..] + b;
      SpawnedConcat(a[1..], b);
      assert Spawned(ab) == Spawns(a[0]) + (Spawned(a[1..]) + Spawned(b));
      assert Spawned(a) == Spawns(a[0]) + Spawned(a[1..]);
      hide Spawned;
    }
  }

  lemma PartsSingle(t: Task)
    ensures Unfinished([t]) == if Finishes(t) then [] else [Advance(t)]
    ensures Spawned([t]) == Spawns(t)
  {
    assert [t][1..] == [];
  }

  lemma {:induction false} UnfinishedPermutes(a: seq<Task>, b: seq<Task>)
    requires multiset(a) == multiset(b)
    ensures multiset(Unfinished(a)) == multiset(Unfinished(b))
    decreases |a|
  {
    if a == [] {
      NoElements(b);
    } else {
      var k := FindFirst(a, b);
      var front, back := b[..k], b[k + 1..];
      UnfinishedPermutes(a[1..], front + back);
      UnfinishedConcat(front, back);
      UnfinishedConcat(front, [a[0]] + back);
      UnfinishedConcat([a[0]], back);
      PartsSingle(a[0]);
      UnfinishedConcat([a[0]], a[1..]);
      assert a == [a[0]] + a[1..];
      hide Unfinished;
    }
  }

  // ----- Counting -----

  /** The ids of `ts` and of every task they will ever spawn. */
  function Ids(ts: seq<Task>): multiset<nat>
    decreases ts
  {
    if ts == [] then multiset{} else multiset{ts[0].id} + TurnIds(ts[0].turns) + Ids(ts[1..])
  }

  function TurnIds(turns: seq<Turn>): multiset<nat>
    decreases turns
  {
    if turns == [] then multiset{} else Ids(turns[0].spawns) + TurnIds(turns[1..])
  }

  lemma {:induction false} IdsConcat(a: seq<Task>, b: seq<Task>)
    ensures Ids(a + b) == Ids(a) + Ids(b)
  {
    if a == [] {
      assert a + b == b;
    } else {
      assert (a + b)[0] == a[0] && (a + b)[1..] == a[1..] + b;
      IdsConcat(a[1..], b);
    }
  }

  lemma {:induction false} IdsPermute(a: seq<Task>, b: seq<Task>)
    requires multiset(a) == multiset(b)
    ensures Ids(a) == Ids(b)
    decreases |a|
  {
    if a == [] {
      NoElements(b);
    } else {
      var k := FindFirst(a, b);
      var front, back := b[..k], b[k + 1..];
      IdsPermute(a[1..], front + back);
      IdsConcat(front, back);
      IdsConcat(front, [a[0]] + back);
      assert ([a[0]] + back)[1..] == back;
    }
  }

  lemma IdsSingle(t: Task)
    ensures Ids([t]) == multiset{t.id} + TurnIds(t.turns)
  {
    assert [t][1..] == [];
  }

  /** One poll of `t` accounts for every id below `t`: what it leaves behind, and
      `t` itself when it finishes. */
  lemma SuccessorsKeepIds(t: Task)
    ensures Ids([t]) == Ids(Successors(t)) + (if Finishes(t) then multiset{t.id} else multiset{})
  {
    IdsSingle(t);
    if t.turns == [] {
      assert Successors(t) == [];
    } else if Finishes(t) {
      assert TurnIds(t.turns) == Ids(Spawns(t)) + TurnIds([]);
      assert Successors(t) == Spawns(t);
    } else {
      IdsConcat([Advance(t)], Spawns(t));
      IdsSingle(Advance(t));
    }
  }

  /** The ids of the tasks that complete when all of `ts` are polled. */
  function Finishing(ts: seq<Task>): multiset<nat> {
    if ts == [] then multiset{}
    else (if Finishes(ts[0]) then multiset{ts[0].id} else multiset{}) + Finishing(ts[1..])
  }

  lemma {:induction false} FinishingConcat(a: seq<Task>, b: seq<Task>)
    ensures Finishing(a + b) == Finishing(a) + Finishing(b)
  {
    if a == [] {
      assert a + b == b;
    } else {
      assert (a + b)[0] == a[0] && (a + b)[1..] == a[1..] + b;
      FinishingConcat(a[1..], b);
    }
  }

  /** Each task either finishes or is left. */
  lemma {:induction false} FinishingCount(ts: seq<Task>)
    ensures |Unfinished(ts)| + |Finishing(ts)| == |ts|
  {
    if ts != [] {
      FinishingCount(ts[1..]);
    }
  }

  lemma FinishingPermutes(a: seq<Task>, b: seq<Task>)
    requires multiset(a) == multiset(b)
    ensures Finishing(a) == Finishing(b)
  {
    IdsPermute(a, b);
    RoundPermutes(a, b);
    IdsPermute(Round(a), Round(b));
    RoundKeepsIds(a);
    RoundKeepsIds(b);
    assert Finishing(a) == Ids(a) - Ids(Round(a)) && Finishing(b) == Ids(b) - Ids(Round(b));
  }

  /** A round completes some tasks, keeps the others, and creates no id. */
  lemma {:induction false} RoundKeepsIds(ts: seq<Task>)
    ensures Ids(ts) == Ids(Round(ts)) + Finishing(ts)
  {
    if ts != [] {
      var rest := ts[1..];
      RoundKeepsIds(rest);
      assert ts == [ts[0]] + rest;
      assert Round(ts) == Successors(ts[0]) + Round(rest);
      assert Finishing(ts) == (if Finishes(ts[0]) then multiset{ts[0].id} else multiset{}) + Finishing(rest);
      hide Ids, Round, Finishing, Successors;
      SuccessorsKeepIds(ts[0]);
      IdsConcat([ts[0]], rest);
      IdsConcat(Successors(ts[0]), Round(rest));
    }
  }

  lemma {:induction false} SomeFinishing(ts: seq<Task>)
    ensures Finishing(ts) != multiset{} <==> exists t :: t in ts && Finishes(t)
  {
    if ts != [] {
      SomeFinishing(ts[1..]);
      assert forall t :: t in ts <==> t == ts[0] || t in ts[1..];
    }
  }

  // ----- What one poll each is enough for -----

  /** The ids that complete when each task is polled once, and so is each task that these
      polls spawn. */
  function FirstIds(ts: seq<Task>): multiset<nat>
    decreases ts
  {
    if ts == [] then multiset{}
    else
      (if Finishes(ts[0]) then multiset{ts[0].id} else multiset{})
      + (if ts[0].turns == [] then multiset{} else FirstIds(ts[0].turns[0].spawns))
      + FirstIds(ts[1..])
  }

  lemma {:induction false} FirstIdsConcat(a: seq<Task>, b: seq<Task>)
    ensures FirstIds(a + b) == FirstIds(a) + FirstIds(b)
  {
    if a == [] {
      assert a + b == b;
    } else {
      assert (a + b)[0] == a[0] && (a + b)[1..] == a[1..] + b;
      FirstIdsConcat(a[1..], b);
    }
  }

  lemma FirstIdsSingle(t: Task)
    ensures FirstIds([t]) == (if Finishes(t) then multiset{t.id} else multiset{}) + FirstIds(Spawns(t))
  {
    assert [t][1..] == [];
  }

  // ----- How long a forest lives -----

  function Max(a: nat, b: nat): nat {
    if a < b then b else a
  }

  /** The number of rounds after which nothing of `ts` is left. */
  function Height(ts: seq<Task>): nat
    decreases ts
  {
    if ts == [] then 0 else Max(TaskHeight(ts[0].turns), Height(ts[1..]))
  }

  function TaskHeight(turns: seq<Turn>): nat
    decreases turns
  {
    if turns == [] then 1
    else if |turns| == 1 then 1 + Height(turns[0].spawns)
    else 1 + Max(TaskHeight(turns[1..]), Height(turns[0].spawns))
  }

  lemma {:induction false} HeightConcat(a: seq<Task>, b: seq<Task>)
    ensures Height(a + b) == Max(Height(a), Height(b))
  {
    if a == [] {
      assert a + b == b;
    } else {
      assert (a + b)[0] == a[0] && (a + b)[1..] == a[1..] + b;
      HeightConcat(a[1..], b);
    }
  }

  lemma SuccessorsHeight(t: Task)
    ensures Height([t]) == 1 + Height(Successors(t))
  {
    assert Height([t]) == TaskHeight(t.turns);
    if t.turns == [] {
      assert Successors(t) == [];
    } else if Finishes(t) {
      assert Successors(t) == Spawns(t);
    } else {
      HeightConcat([Advance(t)], Spawns(t));
      assert Height([Advance(t)]) == TaskHeight(t.turns[1..]);
    }
  }

  /** A round brings every task exactly one round closer to its end. */
  lemma {:induction false} RoundLowersHeight(ts: seq<Task>)
    ensures ts == [] <==> Height(ts) == 0
    ensures Height(Round(ts)) == if ts == [] then 0 else Height(ts) - 1
  {
    if ts != [] {
      SuccessorsHeight(ts[0]);
      assert Height([ts[0]]) == TaskHeight(ts[0].turns);
      RoundLowersHeight(ts[1..]);
      HeightConcat(Successors(ts[0]), Round(ts[1..]));
    }
  }

  // ----- How much work a forest is -----

  /** The number of polls it takes to complete `ts` and everything they spawn. */
  function Weight(ts: seq<Task>): nat
    decreases ts
  {
    if ts == [] then 0
    else (if ts[0].turns == [] then 1 else TurnWeight(ts[0].turns)) + Weight(ts[1..])
  }

  /** Likewise for a single task with these turns left. */
  function TurnWeight(turns: seq<Turn>): nat
    decreases turns
  {
    if turns == [] then 0 else 1 + Weight(turns[0].spawns) + TurnWeight(turns[1..])
  }

  lemma {:induction false} WeightConcat(a: seq<Task>, b: seq<Task>)
    ensures Weight(a + b) == Weight(a) + Weight(b)
  {
    if a == [] {
      assert a + b == b;
    } else {
      assert (a + b)[0] == a[0] && (a + b)[1..] == a[1..] + b;
      WeightConcat(a[1..], b);
    }
  }

  /** Every poll is one unit of progress. */
  lemma PollLowersWeight(t: Task)
    ensures Weight([t]) == 1 + Weight(Successors(t))
  {
    assert [t][1..] == [];
    if t.turns == [] {
      assert Successors(t) == [];
    } else if Finishes(t) {
      assert TurnWeight(t.turns) == 1 + Weight(Spawns(t)) + TurnWeight([]);
      assert Successors(t) == Spawns(t);
    } else {
      WeightConcat([Advance(t)], Spawns(t));
      assert [Advance(t)][1..] == [];
    }
  }

  lemma {:induction false} TurnsConcat(a: seq<Turn>, b: seq<Turn>)
    ensures TurnIds(a + b) == TurnIds(a) + TurnIds(b)
    ensures TurnWeight(a + b) == TurnWeight(a) + TurnWeight(b)
  {
    if a == [] {
      assert a + b == b;
    } else {
      assert (a + b)[0] == a[0] && (a + b)[1..] == a[1..] + b;
      TurnsConcat(a[1..], b);
    }
  }

  lemma LastTurn(turns: seq<Turn>, k: nat)
    requires k < |turns|
    ensures TurnIds(turns[..k + 1]) == TurnIds(turns[..k]) + Ids(turns[k].spawns)
    ensures TurnWeight(turns[..k + 1]) == TurnWeight(turns[..k]) + 1 + Weight(turns[k].spawns)
  {
    assert turns[..k + 1] == turns[..k] + [turns[k]];
    assert [turns[k]][1..] == [];
    TurnsConcat(turns[..k], [turns[k]]);
  }
}

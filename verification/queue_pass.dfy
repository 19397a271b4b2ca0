/** The node-local FIFO of tasks and one pass of the queue runner over it, with deferral and chains. */
module QueuePass {
  import opened Wrappers

  datatype Item = Item(number: nat, task: string, base: Option<string>)

  /** `Raised` is a GitError out of the loop: the item never ran. Code 4 is "its run lock is held". */
  datatype LoopResult = Returned(code: int) | Raised

  /** What a pass meets: which tasks have a reused worktree without their chain base, and how each
      task's loop ends. A task is handed over at most once in a pass, so one answer each suffices. */
  datatype Env = Env(stale: string -> bool, result: string -> LoopResult)

  /** The queue as listed: by number, one item per task. */
  predicate Sound(items: seq<Item>) {
    (forall i, j :: 0 <= i < j < |items| ==> items[i].number < items[j].number) &&
    (forall i, j :: 0 <= i < j < |items| ==> items[i].task != items[j].task)
  }

  // --- The pass, read off left to right ---------------------------------------------------------

  datatype Trace = Trace(handed: seq<Item>, kept: seq<Item>, removed: seq<Item>, blocked: set<string>)

  predicate Stopped(env: Env, blocked: set<string>, item: Item) {
    item.base.Some? && (item.base.value in blocked || env.stale(item.task))
  }

  function Visit(env: Env, t: Trace, item: Item): Trace {
    if Stopped(env, t.blocked, item) then
      t.(kept := t.kept + [item], blocked := t.blocked + {item.task})
    else if env.result(item.task) == Raised || env.result(item.task) == Returned(4) then
      t.(handed := t.handed + [item], kept := t.kept + [item], blocked := t.blocked + {item.task})
    else
      t.(handed := t.handed + [item], removed := t.removed + [item],
         blocked := if env.result(item.task) == Returned(0) then t.blocked else t.blocked + {item.task})
  }

  function Pass(env: Env, items: seq<Item>): Trace {
    if items == [] then Trace([], [], [], {})
    else Visit(env, Pass(env, items[..|items| - 1]), items[|items| - 1])
  }

  lemma PassSnoc(env: Env, items: seq<Item>, item: Item)
    ensures Pass(env, items + [item]) == Visit(env, Pass(env, items), item)
  {
    assert (items + [item])[..|items|] == items;
  }

  // --- The queue and its runner -----------------------------------------------------------------

  class TaskQueue {
    var items: seq<Item>

    constructor ()
      ensures items == []
    {
      items := [];
    }

    /** Refused for a queued task; otherwise one item at the end, with a number above all others. */
    method Enqueue(task: string, base: Option<string>) returns (ok: bool)
      requires Sound(items)
      modifies this`items
      ensures Sound(items)
      ensures ok <==> forall i :: 0 <= i < |old(items)| ==> old(items)[i].task != task
      ensures ok ==> |items| == |old(items)| + 1 && old(items) <= items &&
                     items[|old(items)|].task == task && items[|old(items)|].base == base
      ensures !ok ==> items == old(items)
    {
      var top: nat := 0;
      for i := 0 to |items|
        invariant forall j :: 0 <= j < i ==> items[j].task != task && items[j].number <= top
      {
        if items[i].task == task {
          return false;
        }
        top := if items[i].number > top then items[i].number else top;
      }
      items := items + [Item(top + 1, task, base)];
      return true;
    }

    method Remove(item: Item)
      modifies this`items
      ensures items == Without(old(items), item)
    {
      items := Without(items, item);
    }

    /** One item: left in the queue when its chain is stopped or its loop never ran, else removed. */
    method TakeUp(env: Env, item: Item, blocked: set<string>, handed: seq<Item>, ghost t: Trace)
      returns (nowBlocked: set<string>, nowHanded: seq<Item>, deferred: bool)
      requires t.blocked == blocked && t.handed == handed
      modifies this`items
      ensures items == if deferred then old(items) else Without(old(items), item)
      ensures Visit(env, t, item) == Trace(nowHanded, if deferred then t.kept + [item] else t.kept,
                                           if deferred then t.removed else t.removed + [item], nowBlocked)
    {
      nowBlocked, nowHanded := blocked, handed;
      if item.base.Some? && item.base.value in blocked {
        return blocked + {item.task}, handed, true;
      }
      if item.base.Some? && env.stale(item.task) {
        return blocked + {item.task}, handed, true;
      }
      nowHanded := handed + [item];
      var rc := env.result(item.task);
      if rc.Raised? || rc.code == 4 {
        return blocked + {item.task}, nowHanded, true;
      }
      if rc.code != 0 {
        nowBlocked := blocked + {item.task};
      }
      Remove(item);
      deferred := false;
    }

    /** The runner's loop: take the first item not deferred, until none is left; `handed` is what the
        loop was called with, in order. */
    method PhaseQueue(env: Env) returns (blocked: set<string>, handed: seq<Item>)
      requires Sound(items)
      modifies this`items
      ensures items == Pass(env, old(items)).kept
      ensures handed == Pass(env, old(items)).handed
      ensures blocked == Pass(env, old(items)).blocked
    {
      var deferred: set<string> := {};
      blocked, handed := {}, [];
      ghost var start, visited, t := items, [], Trace([], [], [], {});
      StartOfPass(env, start);
      var pending := Pending(items, deferred);
      while pending != []
        invariant start == visited + pending && Midway(env, visited, pending, t, items, deferred)
        invariant handed == t.handed && blocked == t.blocked
        decreases |pending|
      {
        var item := pending[0];
        ghost var before, next := items, Visit(env, t, item);
        var defer;
        blocked, handed, defer := TakeUp(env, item, blocked, handed, t);
        if defer {
          NextKept(env, visited, pending, t, items, deferred, next);
          deferred := deferred + {item.task};
        } else {
          NextRemoved(env, visited, pending, t, before, deferred, next);
        }
        t := next;
        visited := visited + [item];
        pending := Pending(items, deferred);
      }
      assert visited + [] == visited && t.kept + [] == t.kept;
    }
  }

  /** The pass has taken up the visited items: the queue holds those of them kept, and those to come. */
  ghost predicate Midway(env: Env, visited: seq<Item>, coming: seq<Item>, t: Trace, items: seq<Item>, deferred: set<string>) {
    Sound(visited + coming) && t == Pass(env, visited) && items == t.kept + coming && deferred == Tasks(t.kept)
  }

  function Pending(items: seq<Item>, deferred: set<string>): seq<Item> {
    if items == [] then []
    else if items[0].task in deferred then Pending(items[1..], deferred)
    else [items[0]] + Pending(items[1..], deferred)
  }

  function Without(items: seq<Item>, item: Item): seq<Item> {
    if items == [] then []
    else if items[|items| - 1] == item then Without(items[..|items| - 1], item)
    else Without(items[..|items| - 1], item) + [items[|items| - 1]]
  }

  function Tasks(items: seq<Item>): set<string> {
    set i | 0 <= i < |items| :: items[i].task
  }

  lemma TasksSnoc(items: seq<Item>, item: Item)
    ensures Tasks(items + [item]) == Tasks(items) + {item.task}
  {
    var all := items + [item];
    assert all[|items|] == item;
    assert forall i :: 0 <= i < |items| ==> all[i] == items[i];
    forall t | t in Tasks(items) + {item.task}
      ensures t in Tasks(all)
    {
      if t in Tasks(items) {
        var i :| 0 <= i < |items| && items[i].task == t;
        assert all[i].task == t;
      }
    }
  }

  /** Kept items come from the items visited. */
  lemma {:induction false} KeptAreVisited(env: Env, items: seq<Item>)
    ensures forall x :: x in Pass(env, items).kept ==> x in items
  {
    if items != [] {
      KeptAreVisited(env, items[..|items| - 1]);
    }
  }

  lemma {:induction false} PendingSkips(kept: seq<Item>, rest: seq<Item>, deferred: set<string>)
    requires forall x :: x in kept ==> x.task in deferred
    requires forall x :: x in rest ==> x.task !in deferred
    ensures Pending(kept + rest, deferred) == rest
  {
    var all := kept + rest;
    if kept != [] {
      assert all[1..] == kept[1..] + rest;
      PendingSkips(kept[1..], rest, deferred);
    } else if rest != [] {
      assert all == rest && [] + rest[1..] == rest[1..];
      PendingSkips([], rest[1..], deferred);
    }
  }

  /** What is not deferred is exactly what has not been visited, in order. */
  lemma PendingIsRest(env: Env, visited: seq<Item>, coming: seq<Item>)
    requires Sound(visited + coming)
    ensures var kept := Pass(env, visited).kept; Pending(kept + coming, Tasks(kept)) == coming
  {
    var all := visited + coming;
    var kept := Pass(env, visited).kept;
    KeptAreVisited(env, visited);
    forall x | x in coming
      ensures x.task !in Tasks(kept)
    {
      var j :| 0 <= j < |coming| && coming[j] == x;
      forall i | 0 <= i < |kept|
        ensures kept[i].task != x.task
      {
        assert kept[i] in visited;
        var k :| 0 <= k < |visited| && visited[k] == kept[i];
        assert all[k] == kept[i] && all[|visited| + j] == x;
      }
    }
    PendingSkips(kept, coming, Tasks(kept));
  }

  lemma StartOfPass(env: Env, start: seq<Item>)
    requires Sound(start)
    ensures Midway(env, [], start, Trace([], [], [], {}), start, {}) && Pending(start, {}) == start && start == [] + start
  {
    assert [] + start == start;
    assert Tasks([]) == {};
    PendingIsRest(env, [], start);
  }

  lemma Move(visited: seq<Item>, coming: seq<Item>)
    requires coming != []
    ensures (visited + [coming[0]]) + coming[1..] == visited + coming && coming == [coming[0]] + coming[1..]
  {
  }

  /** One visit on, with the item kept and deferred. */
  lemma NextKept(env: Env, visited: seq<Item>, coming: seq<Item>, t: Trace, items: seq<Item>, deferred: set<string>, next: Trace)
    requires Midway(env, visited, coming, t, items, deferred) && coming != []
    requires next == Visit(env, t, coming[0]) && next.kept == t.kept + [coming[0]]
    ensures Midway(env, visited + [coming[0]], coming[1..], next, items, deferred + {coming[0].task})
    ensures Pending(items, deferred + {coming[0].task}) == coming[1..] && (visited + [coming[0]]) + coming[1..] == visited + coming
  {
    Move(visited, coming);
    Move(t.kept, coming);
    PassSnoc(env, visited, coming[0]);
    TasksSnoc(t.kept, coming[0]);
    PendingIsRest(env, visited + [coming[0]], coming[1..]);
  }

  /** One visit on, with the item gone. */
  lemma NextRemoved(env: Env, visited: seq<Item>, coming: seq<Item>, t: Trace, items: seq<Item>, deferred: set<string>, next: Trace)
    requires Midway(env, visited, coming, t, items, deferred) && coming != []
    requires next == Visit(env, t, coming[0]) && next.kept == t.kept
    ensures Midway(env, visited + [coming[0]], coming[1..], next, Without(items, coming[0]), deferred)
    ensures Pending(Without(items, coming[0]), deferred) == coming[1..] && (visited + [coming[0]]) + coming[1..] == visited + coming
  {
    Move(visited, coming);
    PassSnoc(env, visited, coming[0]);
    WithoutFirstFree(env, visited, coming);
    PendingIsRest(env, visited + [coming[0]], coming[1..]);
  }

  lemma {:induction false} WithoutAbsent(items: seq<Item>, item: Item)
    requires item !in items
    ensures Without(items, item) == items
  {
    if items != [] {
      WithoutAbsent(items[..|items| - 1], item);
    }
  }

  lemma {:induction false} WithoutAt(a: seq<Item>, item: Item, b: seq<Item>)
    requires item !in a && item !in b
    ensures Without(a + [item] + b, item) == a + b
  {
    var all := a + [item] + b;
    if b == [] {
      assert all[..|all| - 1] == a && a + b == a;
      WithoutAbsent(a, item);
    } else {
      WithoutAt(a, item, b[..|b| - 1]);
      assert all[..|all| - 1] == a + [item] + b[..|b| - 1];
      assert a + b[..|b| - 1] + [b[|b| - 1]] == a + b;
    }
  }

  lemma WithoutFirstFree(env: Env, visited: seq<Item>, coming: seq<Item>)
    requires Sound(visited + coming) && coming != []
    ensures var kept := Pass(env, visited).kept;
            Without(kept + coming, coming[0]) == kept + coming[1..]
  {
    var all := visited + coming;
    var kept := Pass(env, visited).kept;
    KeptAreVisited(env, visited);
    assert all[|visited|] == coming[0];
    assert forall k :: 0 <= k < |visited| ==> all[k] == visited[k];
    assert forall j :: 0 <= j < |coming| ==> all[|visited| + j] == coming[j];
    assert coming[0] !in kept && coming[0] !in coming[1..];
    assert kept + coming == kept + [coming[0]] + coming[1..];
    WithoutAt(kept, coming[0], coming[1..]);
  }

  // --- Main results -----------------------------------------------------------------------------

  /** How one item fared: handed to the loop, and if so whether it succeeded. */
  predicate Handed(env: Env, items: seq<Item>, i: nat)
    requires i < |items|
  {
    !Stopped(env, Pass(env, items[..i]).blocked, items[i])
  }

  predicate Succeeded(env: Env, items: seq<Item>, i: nat)
    requires i < |items|
  {
    Handed(env, items, i) && env.result(items[i].task) == Returned(0)
  }

  predicate Removable(env: Env, item: Item) {
    env.result(item.task).Returned? && env.result(item.task).code != 4
  }

  /** The first n items, less those `keep` leaves out; order kept. */
  function Where(items: seq<Item>, n: nat, keep: nat -> bool): seq<Item>
    requires n <= |items|
  {
    if n == 0 then [] else Where(items, n - 1, keep) + (if keep(n - 1) then [items[n - 1]] else [])
  }

  function HandedAt(env: Env, items: seq<Item>): nat -> bool {
    (i: nat) => i < |items| && Handed(env, items, i)
  }

  function RemovedAt(env: Env, items: seq<Item>): nat -> bool {
    (i: nat) => i < |items| && Handed(env, items, i) && Removable(env, items[i])
  }

  function KeptAt(env: Env, items: seq<Item>): nat -> bool {
    (i: nat) => i < |items| && !(Handed(env, items, i) && Removable(env, items[i]))
  }

  lemma VisitParts(env: Env, t: Trace, item: Item)
    ensures var handed := !Stopped(env, t.blocked, item);
            var removed := handed && Removable(env, item);
            Visit(env, t, item).handed == t.handed + (if handed then [item] else []) &&
            Visit(env, t, item).removed == t.removed + (if removed then [item] else []) &&
            Visit(env, t, item).kept == t.kept + (if !removed then [item] else [])
  {
  }

  /** FIFO, once each, and nothing lost: the loop is called with exactly the items not stopped, in
      queue order; those whose loop returned a code other than 4 leave the queue; all others stay, in
      their order. */
  lemma {:induction false} PassConserves(env: Env, items: seq<Item>, n: nat)
    requires n <= |items|
    ensures Pass(env, items[..n]).handed == Where(items, n, HandedAt(env, items))
    ensures Pass(env, items[..n]).removed == Where(items, n, RemovedAt(env, items))
    ensures Pass(env, items[..n]).kept == Where(items, n, KeptAt(env, items))
  {
    if n > 0 {
      PassConserves(env, items, n - 1);
      assert items[..n] == items[..n - 1] + [items[n - 1]];
      PassSnoc(env, items[..n - 1], items[n - 1]);
      VisitParts(env, Pass(env, items[..n - 1]), items[n - 1]);
    }
  }

  lemma OthersStayBlocked(env: Env, items: seq<Item>, item: Item, task: string)
    requires task != item.task
    ensures task in Pass(env, items + [item]).blocked <==> task in Pass(env, items).blocked
  {
    PassSnoc(env, items, item);
  }

  lemma VisitBlocks(env: Env, items: seq<Item>, item: Item)
    requires item.task !in Pass(env, items).blocked
    ensures item.task in Pass(env, items + [item]).blocked <==>
            Stopped(env, Pass(env, items).blocked, item) || env.result(item.task) != Returned(0)
  {
    PassSnoc(env, items, item);
  }

  /** Which of the first n items are still in the queue afterwards: those whose loop was not called, raised, or answered 4. */
  lemma {:induction false} KeptSays(env: Env, items: seq<Item>, n: nat)
    requires Sound(items) && n <= |items|
    ensures forall i: nat :: i < n ==>
              (items[i] in Pass(env, items[..n]).kept <==>
               !Handed(env, items, i) || env.result(items[i].task) == Raised || env.result(items[i].task) == Returned(4))
    ensures forall x :: x in Pass(env, items[..n]).kept ==> x in items[..n]
  {
    if n > 0 {
      KeptSays(env, items, n - 1);
      assert items[..n] == items[..n - 1] + [items[n - 1]];
      PassSnoc(env, items[..n - 1], items[n - 1]);
      VisitParts(env, Pass(env, items[..n - 1]), items[n - 1]);
      assert forall i: nat :: i < n - 1 ==> items[i] != items[n - 1];
      assert items[n - 1] !in items[..n - 1];
    }
  }

  /** Which tasks are blocked: those visited that did not succeed. */
  lemma {:induction false} BlockedIsUnsuccessful(env: Env, items: seq<Item>, i: nat, all: seq<Item>)
    requires Sound(all) && items <= all && i < |items|
    ensures items[i].task in Pass(env, items).blocked <==> !Succeeded(env, all, i)
  {
    var init, item := items[..|items| - 1], items[|items| - 1];
    assert init + [item] == items && item == all[|init|];
    if i < |init| {
      assert init[i] == items[i] == all[i];
      BlockedIsUnsuccessful(env, init, i, all);
      OthersStayBlocked(env, init, item, items[i].task);
    } else {
      assert all[..i] == init;
      FreshIsUnblocked(env, init, item);
      VisitBlocks(env, init, item);
    }
  }

  lemma FreshIsUnblocked(env: Env, items: seq<Item>, item: Item)
    requires forall k :: 0 <= k < |items| ==> items[k].task != item.task
    ensures item.task !in Pass(env, items).blocked
  {
    if item.task in Pass(env, items).blocked {
      BlockedAreVisited(env, items, item.task);
    }
  }

  lemma {:induction false} BlockedAreVisited(env: Env, items: seq<Item>, task: string)
    requires task in Pass(env, items).blocked
    ensures exists i :: 0 <= i < |items| && items[i].task == task
  {
    var init := items[..|items| - 1];
    if items[|items| - 1].task != task {
      BlockedAreVisited(env, init, task);
      var i :| 0 <= i < |init| && init[i].task == task;
      assert items[i].task == task;
    }
  }

  /** Whether an item is handed over, read off its predecessor alone: it has none, or its worktree is not stale and no item of that
      name before it failed to succeed. */
  lemma HandedExactly(env: Env, items: seq<Item>, i: nat)
    requires Sound(items) && i < |items|
    ensures Handed(env, items, i) <==>
            items[i].base.None? ||
            (!env.stale(items[i].task) && forall k: nat :: k < i && items[k].task == items[i].base.value ==> Succeeded(env, items, k))
  {
    if items[i].base.Some? {
      var base := items[i].base.value;
      forall k: nat | k < i && items[k].task == base
        ensures Succeeded(env, items, k) <==> base !in Pass(env, items[..i]).blocked
      {
        assert items[..i][k] == items[k];
        BlockedIsUnsuccessful(env, items[..i], k, items);
      }
      if base in Pass(env, items[..i]).blocked {
        BlockedAreVisited(env, items[..i], base);
        var k :| 0 <= k < i && items[..i][k].task == base;
        assert items[k].task == base;
      }
    }
  }

  /** No item is handed over unless a predecessor standing before it in the queue succeeded. */
  lemma ChainStops(env: Env, items: seq<Item>, i: nat, j: nat)
    requires Sound(items) && j < i < |items| && items[i].base == Some(items[j].task)
    ensures Handed(env, items, i) ==> Succeeded(env, items, j)
  {
    HandedExactly(env, items, i);
  }

  // --- Chains: when they hold, and only then ----------------------------------------------------

  /** The task succeeded in this pass. A task that is not queued did not. */
  predicate SucceededTask(env: Env, items: seq<Item>, task: string) {
    exists k: nat :: k < |items| && items[k].task == task && Succeeded(env, items, k)
  }

  predicate Before(items: seq<Item>, task: string, i: nat)
    requires i <= |items|
  {
    exists k: nat :: k < i && items[k].task == task
  }

  /** The links from item p[0] up to the ancestor named t: each item's base is the next one's task, in whatever order the queue
      holds them, and the last one's base is t, queued or not. As an item has one base, the chain up to the first mention of t
      is the only one; hence t names none of the items in between. */
  predicate IsChain(items: seq<Item>, p: seq<nat>, t: string) {
    p != [] && (forall m :: 0 <= m < |p| ==> p[m] < |items|) &&
    (forall m :: 0 <= m < |p| - 1 ==> items[p[m]].base == Some(items[p[m + 1]].task)) &&
    items[p[|p| - 1]].base == Some(t) && forall m :: 1 <= m < |p| ==> items[p[m]].task != t
  }

  /** Every link points backwards in the queue. */
  predicate InOrder(items: seq<Item>, p: seq<nat>, t: string)
    requires IsChain(items, p, t)
  {
    (forall m :: 0 <= m < |p| - 1 ==> p[m + 1] < p[m]) && Before(items, t, p[|p| - 1])
  }

  /** Up a chain queued in its own order: if its first item is handed over, every item of the chain above it succeeded. */
  lemma ChainStopsTransitively(env: Env, items: seq<Item>, p: seq<nat>, t: string, m: nat)
    requires Sound(items) && IsChain(items, p, t) && InOrder(items, p, t) && m < |p| && Handed(env, items, p[0])
    ensures Handed(env, items, p[m]) && (m > 0 ==> Succeeded(env, items, p[m])) && SucceededTask(env, items, t)
  {
    AllHanded(env, items, p, t, m);
    AllHanded(env, items, p, t, |p| - 1);
    var last := p[|p| - 1];
    var k: nat :| k < last && items[k].task == t;
    ChainStops(env, items, last, k);
  }

  lemma {:induction false} AllHanded(env: Env, items: seq<Item>, p: seq<nat>, t: string, m: nat)
    requires Sound(items) && IsChain(items, p, t) && InOrder(items, p, t) && m < |p| && Handed(env, items, p[0])
    ensures Handed(env, items, p[m]) && (m > 0 ==> Succeeded(env, items, p[m]))
  {
    if m > 0 {
      AllHanded(env, items, p, t, m - 1);
      ChainStops(env, items, p[m - 1], p[m]);
    }
  }

  /** Nothing is stale and every task succeeds, but for one. */
  function OnlyFails(t: string): Env {
    Env(_ => false, task => Returned(if task == t then 1 else 0))
  }

  /** The link at m points to nothing before it: the item there, or at m = |p| - 1 the ancestor, comes later or is not queued. */
  predicate Loose(items: seq<Item>, p: seq<nat>, t: string, m: nat)
    requires IsChain(items, p, t) && m < |p|
  {
    if m < |p| - 1 then p[m + 1] >= p[m] else !Before(items, t, p[m])
  }

  /** Below a loose link the whole chain is handed over although its ancestor fails. */
  lemma {:induction false} LooseChainSlips(items: seq<Item>, p: seq<nat>, t: string, m: nat, n: nat)
    requires Sound(items) && IsChain(items, p, t) && n <= m < |p| && Loose(items, p, t, m)
    ensures Handed(OnlyFails(t), items, p[n])
    decreases m - n
  {
    var env := OnlyFails(t);
    HandedExactly(env, items, p[n]);
    if n < m {
      LooseChainSlips(items, p, t, m, n + 1);
      assert items[p[n + 1]].task != t;
      assert Succeeded(env, items, p[n + 1]);
      assert forall k: nat :: k < p[n] && items[k].task == items[p[n + 1]].task ==> k == p[n + 1];
    } else if n < |p| - 1 {
      assert forall k: nat :: k < p[n] ==> items[k].task != items[p[n + 1]].task;
    }
  }

  /** A chain holds - whatever the tasks do, its first item reaches the loop only after its ancestor succeeded in this pass -
      exactly when every link points backwards in the queue and the ancestor itself stands before the last of them. With p = [i]
      this is the direct predecessor: it guards item i exactly when it is queued before it. */
  lemma ChainHoldsExactly(items: seq<Item>, p: seq<nat>, t: string)
    requires Sound(items) && IsChain(items, p, t)
    ensures (forall env :: Handed(env, items, p[0]) ==> SucceededTask(env, items, t)) <==> InOrder(items, p, t)
  {
    if InOrder(items, p, t) {
      forall env | Handed(env, items, p[0]) ensures SucceededTask(env, items, t) {
        ChainStopsTransitively(env, items, p, t, 0);
      }
    } else {
      if forall m :: 0 <= m < |p| - 1 ==> p[m + 1] < p[m] {
        assert Loose(items, p, t, |p| - 1);
      } else {
        var n :| 0 <= n < |p| - 1 && p[n + 1] >= p[n];
        assert Loose(items, p, t, n);
      }
      var m: nat :| m < |p| && Loose(items, p, t, m);
      LooseChainSlips(items, p, t, m, 0);
      assert !SucceededTask(OnlyFails(t), items, t);
    }
  }

  /** The same for one link, by position: a predecessor at k guards item i exactly when it stands before it. */
  lemma PredecessorGuardsExactly(items: seq<Item>, i: nat, k: nat)
    requires Sound(items) && i < |items| && k < |items| && items[i].base == Some(items[k].task)
    ensures (forall env :: Handed(env, items, i) ==> Succeeded(env, items, k)) <==> k < i
  {
    var t := items[k].task;
    ChainHoldsExactly(items, [i], t);
    assert [i][0] == i;
    forall env ensures SucceededTask(env, items, t) <==> Succeeded(env, items, k) {
      assert forall n: nat :: n < |items| && items[n].task == t ==> n == k;
    }
    assert Before(items, t, i) <==> k < i;
  }

  /** A predecessor that is nowhere before its item does not guard it: some pass hands the item over with the predecessor failed,
      or, if it is not queued at all, never run. */
  lemma AbsentPredecessorRuns(items: seq<Item>, i: nat, t: string)
    requires Sound(items) && i < |items| && items[i].base == Some(t) && !Before(items, t, i)
    ensures Handed(OnlyFails(t), items, i) && !SucceededTask(OnlyFails(t), items, t)
  {
    LooseChainSlips(items, [i], t, 0, 0);
  }

  /** The order matters: a task queued before its predecessor is handed over although that predecessor
      is blocked later in the same pass. */
  lemma OutOfOrderChainRuns()
    ensures var env := Env(t => false, t => Returned(if t == "a" then 1 else 0));
            var items := [Item(1, "a", None), Item(2, "c", Some("b")), Item(3, "b", Some("a"))];
            Sound(items) && Handed(env, items, 1) && !Handed(env, items, 2)
  {
    var env := Env(t => false, t => Returned(if t == "a" then 1 else 0));
    var items := [Item(1, "a", None), Item(2, "c", Some("b")), Item(3, "b", Some("a"))];
    assert items[..1] == [] + [items[0]];
    PassSnoc(env, [], items[0]);
    assert Pass(env, items[..1]).blocked == {"a"};
    assert items[..2] == items[..1] + [items[1]];
    PassSnoc(env, items[..1], items[1]);
    assert "a" != "b";
  }
}

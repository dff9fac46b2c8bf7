/**
 The two statements that lock many fact rows at once, and the writers that lock
 one. Each takes its rows in ascending id order and keeps them to the end.
 */
module RowLocks {
  import opened Options

  /** Rows this statement locks, in its locking order, and how many it has so far. */
  datatype Worker = Worker(ids: seq<int>, held: nat, done: bool)

  datatype State = State(workers: seq<Worker>, owner: map<int, int>)

  datatype Action = Acquire(w: nat) | Finish(w: nat)

  ghost predicate Ascending(ids: seq<int>) {
    forall i, j | 0 <= i < j < |ids| :: ids[i] < ids[j]
  }

  /** Any number of batch lockers and single-row writers, none started. */
  ghost predicate Initial(s: State) {
    && s.owner == map[]
    && forall w | 0 <= w < |s.workers| ::
         !s.workers[w].done && s.workers[w].held == 0 && Ascending(s.workers[w].ids)
  }

  function Release(owner: map<int, int>, w: int): map<int, int> {
    map r | r in owner && owner[r] != w :: owner[r]
  }

  function Step(s: State, a: Action): Option<State> {
    if a.w >= |s.workers| || s.workers[a.w].done then None
    else
      var me := s.workers[a.w];
      match a
      case Acquire(w) =>
        if me.held < |me.ids| && me.ids[me.held] !in s.owner then
          Some(State(s.workers[w := me.(held := me.held + 1)], s.owner[me.ids[me.held] := w]))
        else None
      case Finish(w) =>
        if me.held == |me.ids| then
          Some(State(s.workers[w := me.(done := true)], Release(s.owner, w)))
        else None
  }

  function Run(s: State, actions: seq<Action>): Option<State> {
    if actions == [] then Some(s)
    else match Run(s, actions[..|actions| - 1])
      case None => None
      case Some(t) => Step(t, actions[|actions| - 1])
  }

  /** A row is owned by `w` exactly when `w` is running and has taken it. */
  ghost predicate Inv(s: State) {
    && (forall w | 0 <= w < |s.workers| ::
          s.workers[w].held <= |s.workers[w].ids| && Ascending(s.workers[w].ids))
    && (forall r | r in s.owner ::
          && 0 <= s.owner[r] < |s.workers|
          && !s.workers[s.owner[r]].done
          && r in s.workers[s.owner[r]].ids[..s.workers[s.owner[r]].held])
    && (forall w | 0 <= w < |s.workers| && !s.workers[w].done :: HoldsItsRows(s, w))
  }

  /** What a running statement has taken is its own. */
  ghost predicate HoldsItsRows(s: State, w: int)
    requires 0 <= w < |s.workers| && s.workers[w].held <= |s.workers[w].ids|
  {
    forall k | 0 <= k < s.workers[w].held :: s.workers[w].ids[k] in s.owner && s.owner[s.workers[w].ids[k]] == w
  }

  /** No two running statements have taken the same row. */
  ghost predicate NoRowIsShared(s: State) {
    forall v, w, i, j | 0 <= v < w < |s.workers| && !s.workers[v].done && !s.workers[w].done
                      && 0 <= i < s.workers[v].held <= |s.workers[v].ids|
                      && 0 <= j < s.workers[w].held <= |s.workers[w].ids| ::
      s.workers[v].ids[i] != s.workers[w].ids[j]
  }

  lemma StepKeepsInv(s: State, a: Action)
    requires Inv(s) && Step(s, a).Some?
    ensures Inv(Step(s, a).value)
  {
    var t := Step(s, a).value;
    OwnersHold(s, a);
    forall w | 0 <= w < |t.workers| && !t.workers[w].done ensures HoldsItsRows(t, w) {
      RowsStayHeld(s, a, w);
    }
    hide Step, HoldsItsRows;
  }

  /** An owner is running and has taken the row, before and after the step. */
  lemma OwnersHold(s: State, a: Action)
    requires Inv(s) && Step(s, a).Some?
    ensures var t := Step(s, a).value;
            && |t.workers| == |s.workers|
            && (forall w | 0 <= w < |t.workers| ::
                  t.workers[w].held <= |t.workers[w].ids| && Ascending(t.workers[w].ids))
            && (forall r | r in t.owner ::
                  && 0 <= t.owner[r] < |t.workers|
                  && !t.workers[t.owner[r]].done
                  && r in t.workers[t.owner[r]].ids[..t.workers[t.owner[r]].held])
  {
    hide HoldsItsRows;
    var me := s.workers[a.w];
    if a.Acquire? {
      var ids, n := me.ids, me.held;
      assert ids[..n + 1] == ids[..n] + [ids[n]];
    }
  }

  lemma RowsStayHeld(s: State, a: Action, w: int)
    requires Inv(s) && Step(s, a).Some?
    requires 0 <= w < |s.workers| && !Step(s, a).value.workers[w].done
    ensures Step(s, a).value.workers[w].held <= |Step(s, a).value.workers[w].ids|
    ensures HoldsItsRows(Step(s, a).value, w)
  {
    assert HoldsItsRows(s, w);
    hide Inv, Ascending;
  }

  lemma {:induction false} RunKeepsInv(s: State, actions: seq<Action>)
    requires Initial(s) && Run(s, actions).Some?
    ensures Inv(Run(s, actions).value)
    ensures NoRowIsShared(Run(s, actions).value)
  {
    hide Inv, Initial, NoRowIsShared, Step;
    if actions == [] {
      StartsWithInv(s);
    } else {
      var front := actions[..|actions| - 1];
      RunKeepsInv(s, front);
      StepKeepsInv(Run(s, front).value, actions[|actions| - 1]);
    }
    OwnedByOne(Run(s, actions).value);
  }

  lemma StartsWithInv(s: State)
    requires Initial(s)
    ensures Inv(s)
  {
  }

  lemma OwnedByOne(s: State)
    requires Inv(s)
    ensures NoRowIsShared(s)
  {
    hide HoldsItsRows, Ascending;
    forall v, w, i, j | 0 <= v < w < |s.workers| && !s.workers[v].done && !s.workers[w].done
                      && 0 <= i < s.workers[v].held <= |s.workers[v].ids|
                      && 0 <= j < s.workers[w].held <= |s.workers[w].ids|
      ensures s.workers[v].ids[i] != s.workers[w].ids[j]
    {
      IsOwner(s, v, i);
      IsOwner(s, w, j);
    }
  }

  lemma IsOwner(s: State, w: int, k: int)
    requires 0 <= w < |s.workers| && 0 <= k < s.workers[w].held <= |s.workers[w].ids| && HoldsItsRows(s, w)
    ensures s.workers[w].ids[k] in s.owner && s.owner[s.workers[w].ids[k]] == w
  {
  }

  // ----- who waits for whom -----

  predicate Waiting(s: State, w: int) {
    && 0 <= w < |s.workers| && !s.workers[w].done && s.workers[w].held < |s.workers[w].ids|
    && s.workers[w].ids[s.workers[w].held] in s.owner
  }

  function Want(s: State, w: int): int
    requires Waiting(s, w)
  {
    s.workers[w].ids[s.workers[w].held]
  }

  predicate WaitsFor(s: State, a: int, b: int) {
    Waiting(s, a) && s.owner[Want(s, a)] == b
  }

  ghost predicate WaitChain(s: State, p: seq<int>) {
    forall i | 0 <= i < |p| - 1 :: WaitsFor(s, p[i], p[i + 1])
  }

  lemma HeldIsBelowWant(s: State, a: int, b: int)
    requires Inv(s) && WaitsFor(s, a, b) && Waiting(s, b)
    ensures Want(s, a) < Want(s, b)
  {
    var them := s.workers[b];
    var k :| 0 <= k < them.held && them.ids[..them.held][k] == Want(s, a);
    assert them.ids[k] == Want(s, a);
  }

  /** Along a wait chain the wanted ids climb. */
  lemma {:induction false} WantsClimb(s: State, p: seq<int>)
    requires Inv(s) && WaitChain(s, p) && |p| >= 3
    ensures Waiting(s, p[0]) && Waiting(s, p[|p| - 2]) && Want(s, p[0]) < Want(s, p[|p| - 2])
  {
    assert WaitsFor(s, p[0], p[1]) && WaitsFor(s, p[1], p[2]);
    HeldIsBelowWant(s, p[0], p[1]);
    if |p| > 3 {
      var q := p[1..];
      forall i | 0 <= i < |q| - 1 ensures WaitsFor(s, q[i], q[i + 1]) {
        var k := i + 1;
        assert WaitsFor(s, p[k], p[k + 1]);
      }
      WantsClimb(s, q);
    }
  }

  /** Nobody waits for itself through others: the wait-for graph has no cycle. */
  lemma NoDeadlockCycle(s0: State, actions: seq<Action>, p: seq<int>)
    requires Initial(s0) && Run(s0, actions).Some?
    requires |p| >= 2 && WaitChain(Run(s0, actions).value, p)
    ensures p[0] != p[|p| - 1]
  {
    RunKeepsInv(s0, actions);
    var s := Run(s0, actions).value;
    var n := |p|;
    assert WaitsFor(s, p[n - 2], p[n - 1]);
    if p[0] == p[n - 1] {
      assert WaitsFor(s, p[0], p[1]);
      HeldIsBelowWant(s, p[n - 2], p[0]);
      if n >= 3 {
        WantsClimb(s, p);
      }
    }
  }

  // ----- progress -----

  predicate Unfinished(s: State, w: int) {
    0 <= w < |s.workers| && !s.workers[w].done
  }

  /** From any waiting worker the chain of holders leads to one that can step. */
  lemma {:induction false} SomeoneCanStep(s: State, w: int, bound: int)
    requires Inv(s) && Unfinished(s, w)
    requires forall x | Waiting(s, x) :: Want(s, x) < bound
    ensures exists a: Action :: Step(s, a).Some?
    decreases if Waiting(s, w) then bound - Want(s, w) else 0
  {
    if Waiting(s, w) {
      var holder := s.owner[Want(s, w)];
      if Waiting(s, holder) {
        HeldIsBelowWant(s, w, holder);
      }
      SomeoneCanStep(s, holder, bound);
    } else if s.workers[w].held == |s.workers[w].ids| {
      assert Step(s, Finish(w)).Some?;
    } else {
      assert Step(s, Acquire(w)).Some?;
    }
  }

  function MaxWant(s: State, n: nat): (m: int)
    requires n <= |s.workers|
    ensures forall x | 0 <= x < n && Waiting(s, x) :: Want(s, x) < m
  {
    if n == 0 then 0
    else
      var m := MaxWant(s, n - 1);
      if Waiting(s, n - 1) && Want(s, n - 1) >= m then Want(s, n - 1) + 1 else m
  }

  /** In every reachable state with work left, some statement can go on. */
  lemma NeverStuck(s0: State, actions: seq<Action>, w: int)
    requires Initial(s0) && Run(s0, actions).Some? && Unfinished(Run(s0, actions).value, w)
    ensures exists a: Action :: Step(Run(s0, actions).value, a).Some?
  {
    RunKeepsInv(s0, actions);
    var s := Run(s0, actions).value;
    SomeoneCanStep(s, w, MaxWant(s, |s.workers|));
  }

  // ----- everybody finishes -----

  function Left(w: Worker): nat {
    if w.done then 0 else if w.held <= |w.ids| then |w.ids| - w.held + 1 else 1
  }

  function TotalLeft(ws: seq<Worker>): nat {
    if ws == [] then 0 else Left(ws[0]) + TotalLeft(ws[1..])
  }

  lemma {:induction false} TotalLeftUpdate(ws: seq<Worker>, i: nat, w: Worker)
    requires i < |ws|
    ensures TotalLeft(ws[i := w]) == TotalLeft(ws) - Left(ws[i]) + Left(w)
  {
    if i > 0 {
      assert ws[i := w][1..] == ws[1..][i - 1 := w];
      TotalLeftUpdate(ws[1..], i - 1, w);
    } else {
      assert ws[i := w][1..] == ws[1..];
    }
  }

  /** Every step uses up one unit of the work there was: no run is longer than that. */
  lemma {:induction false} RunsAreBounded(s: State, actions: seq<Action>)
    requires Initial(s) && Run(s, actions).Some?
    ensures |actions| + TotalLeft(Run(s, actions).value.workers) == TotalLeft(s.workers)
  {
    if actions != [] {
      var front, a := actions[..|actions| - 1], actions[|actions| - 1];
      RunsAreBounded(s, front);
      RunKeepsInv(s, front);
      var t := Run(s, front).value;
      var after := Step(t, a).value;
      TotalLeftUpdate(t.workers, a.w, after.workers[a.w]);
    }
  }

  lemma {:induction false} WorkIsLeft(ws: seq<Worker>, w: nat)
    requires w < |ws| && !ws[w].done
    ensures TotalLeft(ws) > 0
  {
    if w > 0 {
      WorkIsLeft(ws[1..], w - 1);
    }
  }

  /** A run that has spent all its steps has finished everybody; any other can be continued. */
  lemma AllFinish(s: State, actions: seq<Action>)
    requires Initial(s) && Run(s, actions).Some?
    ensures |actions| <= TotalLeft(s.workers)
    ensures |actions| == TotalLeft(s.workers) ==> forall w :: !Unfinished(Run(s, actions).value, w)
    ensures |actions| < TotalLeft(s.workers) ==> exists a: Action :: Step(Run(s, actions).value, a).Some?
  {
    RunsAreBounded(s, actions);
    var t := Run(s, actions).value;
    hide *;
    if |actions| == TotalLeft(s.workers) {
      forall w ensures !Unfinished(t, w) { NobodyLeft(t, w); }
    } else {
      var w := SomebodyLeft(t);
      NeverStuck(s, actions, w);
    }
  }

  lemma NobodyLeft(t: State, w: int)
    requires TotalLeft(t.workers) == 0
    ensures !Unfinished(t, w)
  {
    if Unfinished(t, w) {
      WorkIsLeft(t.workers, w);
    }
  }

  lemma SomebodyLeft(t: State) returns (w: int)
    requires TotalLeft(t.workers) > 0
    ensures Unfinished(t, w)
  {
    if i :| 0 <= i < |t.workers| && !t.workers[i].done {
      w := i;
    } else {
      NothingLeft(t.workers);
      w := 0;
    }
  }

  lemma {:induction false} NothingLeft(ws: seq<Worker>)
    requires forall i | 0 <= i < |ws| :: ws[i].done
    ensures TotalLeft(ws) == 0
  {
    if ws != [] {
      NothingLeft(ws[1..]);
    }
  }

  /** The common order is what does it: two statements that disagree on it can block each other. */
  lemma OppositeOrdersCanDeadlock(x: int, y: int)
    requires x != y
    ensures var s := State([Worker([x, y], 0, false), Worker([y, x], 0, false)], map[]);
            var r := Run(s, [Acquire(0), Acquire(1)]);
            r.Some? && WaitsFor(r.value, 0, 1) && WaitsFor(r.value, 1, 0)
  {
    var s := State([Worker([x, y], 0, false), Worker([y, x], 0, false)], map[]);
    assert [Acquire(0), Acquire(1)][..1] == [Acquire(0)];
    assert [Acquire(0)][..0] == [];
    assert Run(s, []) == Some(s);
    var mid := State([Worker([x, y], 1, false), Worker([y, x], 0, false)], map[x := 0]);
    assert s.workers[0 := Worker([x, y], 1, false)] == mid.workers;
    assert s.owner[x := 0] == mid.owner;
    assert Step(s, Acquire(0)) == Some(mid);
  }
}

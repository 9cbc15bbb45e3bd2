/** Attributing engine steps to benchmark cells with one cursor that never moves back. */
module StepCursor {
  import opened Sorting

  /** One "Prefill batch" line: when it was logged and what the step did. */
  datatype Step = Step(ts: real, newSeqs: nat, newTokens: nat, queued: nat)

  /** One wave of a cell and the window of time its streams span. */
  datatype Cell = Cell(size: nat, conc: nat, wave: nat, lo: real, hi: real)

  predicate CellLe(a: Cell, b: Cell)
  {
    a.lo < b.lo || (a.lo == b.lo && a.hi <= b.hi)
  }

  predicate StepLe(a: Step, b: Step)
  {
    a.ts <= b.ts
  }

  predicate Inside(cell: Cell, ts: real)
  {
    cell.lo <= ts <= cell.hi
  }

  /** The earliest cell whose window contains the time; the number of cells if none does. */
  function Owner(cells: seq<Cell>, ts: real): nat
  {
    if cells == [] then 0
    else if Inside(cells[0], ts) then 0
    else 1 + Owner(cells[1..], ts)
  }

  /** The owner's window contains the time, no earlier window does, and without an owner none does. */
  lemma {:induction false} OwnerIsEarliest(cells: seq<Cell>, ts: real)
    ensures Owner(cells, ts) <= |cells|
    ensures Owner(cells, ts) < |cells| ==> cells[Owner(cells, ts)].lo <= ts <= cells[Owner(cells, ts)].hi
    ensures forall d :: 0 <= d < Owner(cells, ts) ==> ts < cells[d].lo || cells[d].hi < ts
  {
    if cells != [] && !Inside(cells[0], ts) {
      OwnerIsEarliest(cells[1..], ts);
    }
  }

  /** Of the first `k` steps those whose earliest containing cell is `c`, in their order. */
  function AssignedBy(steps: seq<Step>, cells: seq<Cell>, c: nat, k: nat): seq<Step>
    requires k <= |steps|
  {
    if k == 0 then []
    else AssignedBy(steps, cells, c, k - 1) + if Owner(cells, steps[k - 1].ts) == c then [steps[k - 1]] else []
  }

  function Assigned(steps: seq<Step>, cells: seq<Cell>, c: nat): seq<Step>
  {
    AssignedBy(steps, cells, c, |steps|)
  }

  /** Steps that `c` does not own do not change what is assigned to it. */
  lemma {:induction false} AssignedStays(steps: seq<Step>, cells: seq<Cell>, c: nat, from: nat, till: nat)
    requires from <= till <= |steps|
    requires forall i :: from <= i < till ==> Owner(cells, steps[i].ts) != c
    ensures AssignedBy(steps, cells, c, till) == AssignedBy(steps, cells, c, from)
    decreases till
  {
    if from < till {
      AssignedStays(steps, cells, c, from, till - 1);
    }
  }

  /** What the cursor has passed belongs to earlier cells or to none; what it has not reached lies past
      every earlier window. */
  ghost predicate Passed(steps: seq<Step>, cells: seq<Cell>, c: nat, cursor: nat)
  {
    && cursor <= |steps|
    && c <= |cells|
    && (forall i :: 0 <= i < cursor ==> Owner(cells, steps[i].ts) < c || Owner(cells, steps[i].ts) == |cells|)
    && (forall i, d :: cursor <= i < |steps| && 0 <= d < c ==> cells[d].hi < steps[i].ts)
  }

  /** A step that the cursor takes in cell `c` is owned by `c` or by no cell. */
  lemma TakenStep(steps: seq<Step>, cells: seq<Cell>, c: nat, k: nat)
    requires IsSorted(cells, CellLe) && c < |cells| && k < |steps| && steps[k].ts <= cells[c].hi
    requires forall d :: 0 <= d < c ==> cells[d].hi < steps[k].ts
    ensures Owner(cells, steps[k].ts) == if steps[k].ts >= cells[c].lo then c else |cells|
  {
    OwnerIsEarliest(cells, steps[k].ts);
    forall d | c < d < |cells|
      ensures cells[c].lo <= cells[d].lo
    {
      assert CellLe(cells[c], cells[d]);
    }
  }

  /** The steps before the cursor belong to cells up to `c` or to none. */
  ghost predicate Settled(steps: seq<Step>, cells: seq<Cell>, c: nat, cursor: nat)
  {
    && cursor <= |steps|
    && forall i :: 0 <= i < cursor ==> Owner(cells, steps[i].ts) <= c || Owner(cells, steps[i].ts) == |cells|
  }

  lemma TurnBegins(steps: seq<Step>, cells: seq<Cell>, c: nat, start: nat)
    requires c < |cells| && Passed(steps, cells, c, start)
    ensures Settled(steps, cells, c, start) && AssignedBy(steps, cells, c, start) == []
  {
    AssignedStays(steps, cells, c, 0, start);
  }

  lemma TurnContinues(steps: seq<Step>, cells: seq<Cell>, c: nat, start: nat, k: nat)
    requires IsSorted(cells, CellLe) && c < |cells| && Passed(steps, cells, c, start)
    requires start <= k < |steps| && steps[k].ts <= cells[c].hi && Settled(steps, cells, c, k)
    ensures Settled(steps, cells, c, k + 1)
    ensures AssignedBy(steps, cells, c, k + 1)
         == AssignedBy(steps, cells, c, k) + if steps[k].ts >= cells[c].lo then [steps[k]] else []
  {
    TakenStep(steps, cells, c, k);
  }

  /** Past a cell's window the next cell's turn can begin. */
  lemma Finished(steps: seq<Step>, cells: seq<Cell>, c: nat, start: nat, cursor: nat)
    requires IsSorted(steps, StepLe) && c < |cells|
    requires Passed(steps, cells, c, start) && start <= cursor <= |steps| && Settled(steps, cells, c, cursor)
    requires cursor < |steps| ==> cells[c].hi < steps[cursor].ts
    ensures Passed(steps, cells, c + 1, cursor)
    ensures Assigned(steps, cells, c) == AssignedBy(steps, cells, c, cursor)
  {
    forall i | cursor <= i < |steps|
      ensures cells[c].hi < steps[i].ts && Owner(cells, steps[i].ts) != c
    {
      assert i > cursor ==> StepLe(steps[cursor], steps[i]);
      OwnerIsEarliest(cells, steps[i].ts);
    }
    AssignedStays(steps, cells, c, cursor, |steps|);
  }

  /** One cell's turn: everything it owns is taken, in order, and the cursor moves past its window. */
  method Advance(steps: seq<Step>, cells: seq<Cell>, c: nat, start: nat) returns (sel: seq<Step>, cursor: nat)
    requires IsSorted(steps, StepLe) && IsSorted(cells, CellLe) && c < |cells|
    requires Passed(steps, cells, c, start)
    ensures sel == Assigned(steps, cells, c)
    ensures Passed(steps, cells, c + 1, cursor)
  {
    sel, cursor := [], start;
    TurnBegins(steps, cells, c, start);
    while cursor < |steps| && steps[cursor].ts <= cells[c].hi
      invariant start <= cursor <= |steps|
      invariant sel == AssignedBy(steps, cells, c, cursor)
      invariant Settled(steps, cells, c, cursor)
    {
      TurnContinues(steps, cells, c, start, cursor);
      if steps[cursor].ts >= cells[c].lo {
        sel := sel + [steps[cursor]];
      }
      cursor := cursor + 1;
    }
    Finished(steps, cells, c, start, cursor);
  }

  function Joined(sel: seq<seq<Step>>): seq<Step>
  {
    if sel == [] then [] else Joined(sel[..|sel| - 1]) + sel[|sel| - 1]
  }

  /** The whole pass: every cell gets exactly the steps whose earliest containing window is its own, however
      the windows overlap or nest. `keep` lists them cell by cell. */
  method Attribute(logged: seq<Step>, found: seq<Cell>)
    returns (steps: seq<Step>, cells: seq<Cell>, sel: seq<seq<Step>>, keep: seq<Step>)
    ensures steps == Sort(logged, StepLe) && cells == Sort(found, CellLe)
    ensures forall i, j :: 0 <= i < j < |steps| ==> steps[i].ts <= steps[j].ts
    ensures forall i, j :: 0 <= i < j < |cells| ==>
        cells[i].lo < cells[j].lo || (cells[i].lo == cells[j].lo && cells[i].hi <= cells[j].hi)
    ensures |sel| == |cells| && forall c :: 0 <= c < |cells| ==> sel[c] == Assigned(steps, cells, c)
    ensures keep == Joined(sel)
  {
    steps, cells := Sort(logged, StepLe), Sort(found, CellLe);
    SortIsSorted(logged, StepLe);
    SortIsSorted(found, CellLe);
    forall i, j | 0 <= i < j < |cells|
      ensures CellLe(cells[i], cells[j])
    {
    }
    forall i, j | 0 <= i < j < |steps|
      ensures StepLe(steps[i], steps[j])
    {
    }
    sel, keep := AttributeSorted(steps, cells);
  }

  method AttributeSorted(steps: seq<Step>, cells: seq<Cell>) returns (sel: seq<seq<Step>>, keep: seq<Step>)
    requires IsSorted(steps, StepLe) && IsSorted(cells, CellLe)
    ensures |sel| == |cells| && forall c :: 0 <= c < |cells| ==> sel[c] == Assigned(steps, cells, c)
    ensures keep == Joined(sel)
  {
    sel, keep := [], [];
    var cursor := 0;
    for c := 0 to |cells|
      invariant |sel| == c && forall d :: 0 <= d < c ==> sel[d] == Assigned(steps, cells, d)
      invariant Passed(steps, cells, c, cursor)
      invariant keep == Joined(sel)
    {
      var taken;
      taken, cursor := Advance(steps, cells, c, cursor);
      assert (sel + [taken])[..c] == sel;
      sel := sel + [taken];
      keep := keep + taken;
    }
  }

  /** Of the first `k` steps those owned by one of the first `n` cells, in log order. */
  function OwnedBy(steps: seq<Step>, cells: seq<Cell>, n: nat, k: nat): seq<Step>
    requires k <= |steps|
  {
    if k == 0 then []
    else OwnedBy(steps, cells, n, k - 1) + if Owner(cells, steps[k - 1].ts) < n then [steps[k - 1]] else []
  }

  lemma OneMore(both: seq<Step>, a: seq<Step>, b: seq<Step>, x: Step, inA: bool, inB: bool)
    requires multiset(both) == multiset(a) + multiset(b) && !(inA && inB)
    ensures multiset(both + if inA || inB then [x] else [])
         == multiset(a + if inA then [x] else []) + multiset(b + if inB then [x] else [])
  {
  }

  lemma {:induction false} OneMoreCell(steps: seq<Step>, cells: seq<Cell>, n: nat, k: nat)
    requires k <= |steps|
    ensures multiset(OwnedBy(steps, cells, n + 1, k))
         == multiset(OwnedBy(steps, cells, n, k)) + multiset(AssignedBy(steps, cells, n, k))
  {
    if k > 0 {
      OneMoreCell(steps, cells, n, k - 1);
      var below, of := OwnedBy(steps, cells, n, k - 1), AssignedBy(steps, cells, n, k - 1);
      var o := Owner(cells, steps[k - 1].ts);
      OneMore(OwnedBy(steps, cells, n + 1, k - 1), below, of, steps[k - 1], o < n, o == n);
    }
  }

  lemma {:induction false} NoneOwnedByNone(steps: seq<Step>, cells: seq<Cell>, k: nat)
    requires k <= |steps|
    ensures OwnedBy(steps, cells, 0, k) == []
  {
    if k > 0 {
      NoneOwnedByNone(steps, cells, k - 1);
    }
  }

  /** Nothing is claimed twice and nothing inside a window is lost: what the cells were given is, as a
      multiset, the steps that lie in some window. */
  lemma {:induction false} KeptOnce(steps: seq<Step>, cells: seq<Cell>, sel: seq<seq<Step>>)
    requires forall c :: 0 <= c < |sel| ==> sel[c] == Assigned(steps, cells, c)
    ensures multiset(Joined(sel)) == multiset(OwnedBy(steps, cells, |sel|, |steps|))
  {
    if sel == [] {
      NoneOwnedByNone(steps, cells, |steps|);
    } else {
      var n := |sel| - 1;
      KeptOnce(steps, cells, sel[..n]);
      OneMoreCell(steps, cells, n, |steps|);
    }
  }

  /** A step is owned by one of the cells exactly when some window contains it. */
  lemma OwnedIffInSomeWindow(cells: seq<Cell>, ts: real)
    ensures Owner(cells, ts) < |cells| <==> exists d :: 0 <= d < |cells| && cells[d].lo <= ts <= cells[d].hi
  {
    OwnerIsEarliest(cells, ts);
  }
}

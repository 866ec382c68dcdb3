/** The height-field generator `findVertices` of RandomlyGenerated/final.cpp.
    Heights are exact reals; the process-wide `rand()` is replaced by an injected
    stream `rs` of raw draws (each `rand()` result is a non-negative int). */
module HeightField {

  /** One perturbation `(rand() % 100 - 50) / 100`: never below -0.5 and never
      above 0.49, so the range is not symmetric. */
  function Perturb(r: nat): (p: real)
    ensures -0.5 <= p <= 0.49
  {
    ((r % 100) - 50) as real / 100.0
  }

  /** The draw consumed by cell (x, z): the loops run x outer, z inner, one draw per cell. */
  function DrawIndex(n: nat, x: nat, z: nat): (k: nat)
    requires x <= n && z <= n
    ensures k < (n + 1) * (n + 1)
  {
    assert x * (n + 1) <= n * (n + 1);
    x * (n + 1) + z
  }

  /** A grid of `n + 1` rows of `n + 1` samples, indexed `[x][z]`. */
  predicate IsGrid(g: seq<seq<real>>, n: nat)
  {
    |g| == n + 1 && forall x :: 0 <= x < |g| ==> |g[x]| == n + 1
  }

  /** The rule of one cell, given its perturbation and its three neighbours
      `(x, z-1)`, `(x-1, z-1)`, `(x-1, z)` (a neighbour outside the grid is unused). */
  function CellRule(x: nat, z: nat, p: real, prevZ: real, prevXZ: real, prevX: real): real
  {
    if x == 0 && z == 0 then p
    else if x == 0 then prevZ + p
    else if z == 0 then prevX + p
    else (prevZ + prevXZ + prevX) / 3.0 + p
  }

  /** The height the generator gives cell (x, z): the rule applied to the heights
      of the cells it depends on (a reference definition by recursion). */
  function Height(rs: seq<nat>, n: nat, x: nat, z: nat): real
    requires x <= n && z <= n && |rs| >= (n + 1) * (n + 1)
    decreases x + z
  {
    CellRule(x, z, Perturb(rs[DrawIndex(n, x, z)]),
             if z > 0 then Height(rs, n, x, z - 1) else 0.0,
             if x > 0 && z > 0 then Height(rs, n, x - 1, z - 1) else 0.0,
             if x > 0 then Height(rs, n, x - 1, z) else 0.0)
  }

  /** The whole grid the generator returns for size n and draws rs. */
  function HeightGrid(rs: seq<nat>, n: nat): (g: seq<seq<real>>)
    requires |rs| >= (n + 1) * (n + 1)
    ensures IsGrid(g, n)
  {
    seq(n + 1, x requires 0 <= x <= n => seq(n + 1, z requires 0 <= z <= n => Height(rs, n, x, z)))
  }

  /** Sample (x, z) of g obeys the cell rule, reading its neighbours from g itself. */
  ghost predicate ObeysRule(g: seq<seq<real>>, rs: seq<nat>, n: nat, x: nat, z: nat)
    requires IsGrid(g, n) && |rs| >= (n + 1) * (n + 1) && x <= n && z <= n
  {
    g[x][z] == CellRule(x, z, Perturb(rs[DrawIndex(n, x, z)]),
                        if z > 0 then g[x][z - 1] else 0.0,
                        if x > 0 && z > 0 then g[x - 1][z - 1] else 0.0,
                        if x > 0 then g[x - 1][z] else 0.0)
  }

  /** Every sample of g obeys the cell rule. */
  ghost predicate Recurrence(g: seq<seq<real>>, rs: seq<nat>, n: nat)
    requires IsGrid(g, n) && |rs| >= (n + 1) * (n + 1)
  {
    forall x: nat, z: nat :: x <= n && z <= n ==> ObeysRule(g, rs, n, x, z)
  }

  /** Cell (i, j) comes before the loop position (x, z) in x-outer, z-inner order. */
  predicate Visited(i: int, j: int, x: int, z: int)
  {
    i < x || (i == x && j < z)
  }

  /** `findVertices(n)`: fills an `(n+1) x (n+1)` grid in place, cell by cell, consuming
      one draw per cell. `writes` counts the writes to each cell. */
  method FindVertices(n: nat, rs: seq<nat>) returns (g: seq<seq<real>>, ghost writes: seq<seq<nat>>)
    requires |rs| >= (n + 1) * (n + 1)
    ensures IsGrid(g, n) && Recurrence(g, rs, n)
    ensures g == HeightGrid(rs, n)
    ensures |writes| == n + 1
    ensures forall x :: 0 <= x <= n ==> |writes[x]| == n + 1
    ensures forall x, z :: 0 <= x <= n && 0 <= z <= n ==> writes[x][z] == 1
  {
    var val := n + 1;
    g := seq(val, _ => seq(val, _ => 0.0));
    writes := seq(val, _ => seq(val, _ => 0));
    var next := 0;
    var x := 0;
    while x < val
      invariant 0 <= x <= val && next == x * val
      invariant Filled(g, rs, n, x, 0) && Counted(writes, n, x, 0)
    {
      var z := 0;
      while z < val
        invariant 0 <= z <= val && next == x * val + z
        invariant Filled(g, rs, n, x, z) && Counted(writes, n, x, z)
      {
        assert next == DrawIndex(n, x, z);
        var p := Perturb(rs[next]);
        next := next + 1;
        var v;
        if x == 0 && z == 0 {
          v := p;
        } else if x == 0 {
          assert writes[0][z - 1] == 1;
          v := g[0][z - 1] + p;
        } else if z == 0 {
          assert writes[x - 1][0] == 1;
          v := g[x - 1][0] + p;
        } else {
          assert writes[x][z - 1] == 1 && writes[x - 1][z - 1] == 1 && writes[x - 1][z] == 1;
          var avgHeight := (g[x][z - 1] + g[x - 1][z - 1] + g[x - 1][z]) / 3.0;
          v := avgHeight + p;
        }
        assert v == Height(rs, n, x, z);
        g := g[x := g[x][z := v]];
        writes := writes[x := writes[x][z := writes[x][z] + 1]];
        z := z + 1;
      }
      x := x + 1;
    }
    FilledIsHeightGrid(g, rs, n);
    HeightGridObeysRecurrence(rs, n);
  }

  /** The cells before loop position (x, z) hold their final heights. */
  ghost predicate Filled(g: seq<seq<real>>, rs: seq<nat>, n: nat, x: nat, z: nat)
    requires |rs| >= (n + 1) * (n + 1)
  {
    IsGrid(g, n) &&
    forall i, j :: 0 <= i <= n && 0 <= j <= n && Visited(i, j, x, z) ==> g[i][j] == Height(rs, n, i, j)
  }

  /** Each cell before loop position (x, z) was written once, every other cell never. */
  ghost predicate Counted(writes: seq<seq<nat>>, n: nat, x: nat, z: nat)
  {
    |writes| == n + 1 && (forall i :: 0 <= i <= n ==> |writes[i]| == n + 1) &&
    forall i, j :: 0 <= i <= n && 0 <= j <= n ==> writes[i][j] == if Visited(i, j, x, z) then 1 else 0
  }

  lemma FilledIsHeightGrid(g: seq<seq<real>>, rs: seq<nat>, n: nat)
    requires |rs| >= (n + 1) * (n + 1) && Filled(g, rs, n, n + 1, 0)
    ensures g == HeightGrid(rs, n)
  {
    forall x | 0 <= x <= n
      ensures g[x] == HeightGrid(rs, n)[x]
    {
    }
  }

  /** The reference grid satisfies the local recurrence. */
  lemma HeightGridObeysRecurrence(rs: seq<nat>, n: nat)
    requires |rs| >= (n + 1) * (n + 1)
    ensures Recurrence(HeightGrid(rs, n), rs, n)
  {
  }

  /** The local recurrence has exactly one solution: a grid obeys it if and only if
      it is the generator's grid. */
  lemma RecurrenceDeterminesGrid(g: seq<seq<real>>, rs: seq<nat>, n: nat)
    requires IsGrid(g, n) && |rs| >= (n + 1) * (n + 1)
    ensures Recurrence(g, rs, n) <==> g == HeightGrid(rs, n)
  {
    if Recurrence(g, rs, n) {
      forall x | 0 <= x <= n
        ensures g[x] == HeightGrid(rs, n)[x]
      {
        forall z | 0 <= z <= n
          ensures g[x][z] == HeightGrid(rs, n)[x][z]
        {
          RecurrenceCell(g, rs, n, x, z);
        }
      }
    }
    HeightGridObeysRecurrence(rs, n);
  }

  lemma {:induction false} RecurrenceCell(g: seq<seq<real>>, rs: seq<nat>, n: nat, x: nat, z: nat)
    requires IsGrid(g, n) && |rs| >= (n + 1) * (n + 1) && Recurrence(g, rs, n)
    requires x <= n && z <= n
    ensures g[x][z] == Height(rs, n, x, z)
    decreases x + z
  {
    assert ObeysRule(g, rs, n, x, z);
    if z > 0 { RecurrenceCell(g, rs, n, x, z - 1); }
    if x > 0 && z > 0 { RecurrenceCell(g, rs, n, x - 1, z - 1); }
    if x > 0 { RecurrenceCell(g, rs, n, x - 1, z); }
  }

  /** Distinct cells consume distinct draws, so every perturbation is a fresh one. */
  lemma DrawIndexInjective(n: nat, x: nat, z: nat, x': nat, z': nat)
    requires x <= n && z <= n && x' <= n && z' <= n
    ensures DrawIndex(n, x, z) == DrawIndex(n, x', z') <==> x == x' && z == z'
  {
    if x < x' {
      DrawIndexIncreasing(n, x, z, x', z');
    } else if x' < x {
      DrawIndexIncreasing(n, x', z', x, z);
    }
  }

  /** A later row of the loop consumes a later draw. */
  lemma DrawIndexIncreasing(n: nat, x: nat, z: nat, x': nat, z': nat)
    requires x < x' <= n && z <= n && z' <= n
    ensures DrawIndex(n, x, z) < DrawIndex(n, x', z')
  {
    var m := n + 1;
    assert (x + 1) * m == x * m + m;
    assert (x' - x - 1) * m >= 0;
    assert x' * m == (x + 1) * m + (x' - x - 1) * m;
  }

  /** The height bound: the heights of cell (x, z) lie in
      `[-(x+z+1)/2, 0.49 (x+z+1)]`, so `|h| <= (x+z+1)/2`. */
  lemma {:induction false} HeightBounds(rs: seq<nat>, n: nat, x: nat, z: nat)
    requires x <= n && z <= n && |rs| >= (n + 1) * (n + 1)
    ensures -((x + z + 1) as real) / 2.0 <= Height(rs, n, x, z) <= 0.49 * (x + z + 1) as real
    decreases x + z
  {
    if z > 0 { HeightBounds(rs, n, x, z - 1); }
    if x > 0 && z > 0 { HeightBounds(rs, n, x - 1, z - 1); }
    if x > 0 { HeightBounds(rs, n, x - 1, z); }
  }

  /** Sum of the perturbations of a sequence of draws. */
  function PerturbSum(ds: seq<nat>): real
  {
    if ds == [] then 0.0 else PerturbSum(ds[..|ds| - 1]) + Perturb(ds[|ds| - 1])
  }

  /** The first row is a running sum: `h[0][z]` adds up the perturbations of draws 0..z. */
  lemma {:induction false} FirstRowIsRunningSum(rs: seq<nat>, n: nat, z: nat)
    requires z <= n && |rs| >= (n + 1) * (n + 1)
    ensures Height(rs, n, 0, z) == PerturbSum(rs[..z + 1])
  {
    assert rs[..z + 1][..z] == rs[..z];
    if z > 0 {
      FirstRowIsRunningSum(rs, n, z - 1);
    } else {
      assert rs[..1][..0] == [];
    }
  }

  /** The draws that cells (0, 0), (1, 0), ..., (x, 0) of the first column consume. */
  function ColumnDraws(rs: seq<nat>, n: nat, x: nat): (ds: seq<nat>)
    requires x <= n && |rs| >= (n + 1) * (n + 1)
    ensures |ds| == x + 1
  {
    seq(x + 1, i requires 0 <= i <= x => rs[DrawIndex(n, i, 0)])
  }

  /** The first column is a running sum: `h[x][0]` adds up the perturbations of its cells. */
  lemma {:induction false} FirstColumnIsRunningSum(rs: seq<nat>, n: nat, x: nat)
    requires x <= n && |rs| >= (n + 1) * (n + 1)
    ensures Height(rs, n, x, 0) == PerturbSum(ColumnDraws(rs, n, x))
  {
    if x > 0 {
      FirstColumnIsRunningSum(rs, n, x - 1);
      assert ColumnDraws(rs, n, x)[..x] == ColumnDraws(rs, n, x - 1);
    } else {
      assert ColumnDraws(rs, n, 0)[..0] == [];
    }
  }
}

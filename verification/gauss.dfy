/** `#solveLinear` (frontend/perspective.js, frontend/perspective-gpu.js):
    Gauss-Jordan elimination with partial pivoting on the augmented matrix
    `[A | b]`, over the reals. Each step picks the first row at or below the
    diagonal whose entry in the current column has the largest magnitude,
    swaps it up, gives up with "Singular matrix" when that magnitude is below
    `1e-12`, scales the pivot row from the diagonal rightwards, and clears
    the current column in every other row. */
module Gauss {
  import opened Wrappers
  import opened Scalar

  /** The `eps` below which a pivot counts as zero. */
  const Eps: real := 0.000000000001

  type Row = seq<real>
  type Matrix = seq<Row>

  /** `n` rows of `n + 1` entries: a square system with its right-hand side
      as the last column. */
  ghost predicate Augmented(M: Matrix, n: nat) {
    |M| == n && forall r :: 0 <= r < n ==> |M[r]| == n + 1
  }

  /** `row[0]*x[0] + ... + row[k-1]*x[k-1]`. */
  function Sum(row: Row, x: seq<real>, k: nat): real
    requires k <= |row| && k <= |x|
  {
    if k == 0 then 0.0 else Sum(row, x, k - 1) + row[k - 1] * x[k - 1]
  }

  /** `x` satisfies every equation of the augmented system `M`. */
  ghost predicate Holds(M: Matrix, x: seq<real>, n: nat)
    requires Augmented(M, n) && |x| == n
  {
    forall r :: 0 <= r < n ==> Sum(M[r], x, n) == M[r][n]
  }

  /** The two augmented systems have the same solutions. */
  ghost predicate Equivalent(M1: Matrix, M2: Matrix, n: nat)
    requires Augmented(M1, n) && Augmented(M2, n)
  {
    forall x: seq<real> :: |x| == n ==> (Holds(M1, x, n) <==> Holds(M2, x, n))
  }

  /** Columns left of `i` already hold the identity. */
  ghost predicate Reduced(M: Matrix, n: nat, i: nat)
    requires Augmented(M, n) && i <= n
  {
    forall r, c :: 0 <= r < n && 0 <= c < i ==> M[r][c] == if r == c then 1.0 else 0.0
  }

  /** `A` is square and `b` has one entry per row. */
  ghost predicate SquareSystem(A: Matrix, b: seq<real>) {
    |b| == |A| && forall r :: 0 <= r < |A| ==> |A[r]| == |A|
  }

  /** `A x = b`. */
  ghost predicate Solves(A: Matrix, b: seq<real>, x: seq<real>)
    requires SquareSystem(A, b) && |x| == |A|
  {
    forall r :: 0 <= r < |A| ==> Sum(A[r], x, |A|) == b[r]
  }

  // ----- the operations -----

  /** `A.map((row, i) => [...row, b[i]])`. */
  function Augment(A: Matrix, b: seq<real>): (M: Matrix)
    requires SquareSystem(A, b)
    ensures Augmented(M, |A|)
    ensures forall r :: 0 <= r < |A| ==> M[r] == A[r] + [b[r]]
  {
    seq(|A|, r requires 0 <= r < |A| => A[r] + [b[r]])
  }

  /** The pivot search loop: `best` is the row chosen so far and `r` the next
      row to compare; a row replaces `best` only when strictly larger. */
  function PivotFrom(M: Matrix, n: nat, i: nat, r: nat, best: nat): (p: nat)
    requires Augmented(M, n) && i <= best < r && i < n && best < n
    requires forall q :: i <= q < r && q < n ==> Abs(M[q][i]) <= Abs(M[best][i])
    requires forall q :: i <= q < best ==> Abs(M[q][i]) < Abs(M[best][i])
    ensures i <= p < n
    ensures forall q :: i <= q < n ==> Abs(M[q][i]) <= Abs(M[p][i])
    ensures forall q :: i <= q < p ==> Abs(M[q][i]) < Abs(M[p][i])
    decreases n - r
  {
    if r >= n then best
    else if Abs(M[r][i]) > Abs(M[best][i]) then PivotFrom(M, n, i, r + 1, r)
    else PivotFrom(M, n, i, r + 1, best)
  }

  /** The row `maxRow` the solver swaps into position `i`: the first row at
      or below `i` whose entry in column `i` has the largest magnitude. */
  function Pivot(M: Matrix, n: nat, i: nat): (p: nat)
    requires Augmented(M, n) && i < n
    ensures i <= p < n
    ensures forall q :: i <= q < n ==> Abs(M[q][i]) <= Abs(M[p][i])
    ensures forall q :: i <= q < p ==> Abs(M[q][i]) < Abs(M[p][i])
  {
    PivotFrom(M, n, i, i + 1, i)
  }

  /** `[M[i], M[maxRow]] = [M[maxRow], M[i]]`. */
  function Swap(M: Matrix, i: nat, p: nat): (S: Matrix)
    requires i < |M| && p < |M|
    ensures |S| == |M| && S[i] == M[p] && S[p] == M[i]
    ensures forall r :: 0 <= r < |M| && r != i && r != p ==> S[r] == M[r]
  {
    M[i := M[p]][p := M[i]]
  }

  /** `for (j = i; j <= n; j++) M[i][j] /= diag`: entries left of `i` are
      left alone. */
  function NormalizeRow(row: Row, i: nat, diag: real): (r: Row)
    requires i <= |row| && diag != 0.0
    ensures |r| == |row|
    ensures forall c :: 0 <= c < i ==> r[c] == row[c]
    ensures forall c :: i <= c < |row| ==> r[c] == row[c] / diag
  {
    seq(|row|, c requires 0 <= c < |row| => if c < i then row[c] else row[c] / diag)
  }

  /** `f = M[r][i]; for (c = i; c <= n; c++) M[r][c] -= f * M[i][c]`. */
  function EliminateRow(row: Row, pivot: Row, i: nat): (r: Row)
    requires i < |row| == |pivot|
    ensures |r| == |row|
    ensures forall c :: 0 <= c < i ==> r[c] == row[c]
    ensures forall c :: i <= c < |row| ==> r[c] == row[c] - row[i] * pivot[c]
  {
    seq(|row|, c requires 0 <= c < |row| => if c < i then row[c] else row[c] - row[i] * pivot[c])
  }

  /** Every row but the pivot row has column `i` cleared. The rows are
      independent of each other, so the source's in-place row order does not
      matter. */
  function Eliminate(M: Matrix, n: nat, i: nat): (E: Matrix)
    requires Augmented(M, n) && i < n
    ensures Augmented(E, n) && E[i] == M[i]
    ensures forall r :: 0 <= r < n && r != i ==> E[r] == EliminateRow(M[r], M[i], i)
  {
    seq(n, r requires 0 <= r < n => if r == i then M[i] else EliminateRow(M[r], M[i], i))
  }

  /** One iteration of the outer loop, for column `i`. It fails exactly when
      every candidate pivot is below `Eps` in magnitude; otherwise the
      system keeps its solutions and gains one more identity column. */
  function Step(M: Matrix, n: nat, i: nat): (r: Result<Matrix>)
    requires Augmented(M, n) && i < n && Reduced(M, n, i)
    ensures r.Failure? <==> forall q :: i <= q < n ==> Abs(M[q][i]) < Eps
    ensures r.Failure? ==> r.error == SingularMatrix
    ensures r.Success? ==> Augmented(r.value, n) && Reduced(r.value, n, i + 1) && Equivalent(M, r.value, n)
  {
    var p := Pivot(M, n, i);
    var S := Swap(M, i, p);
    SwapEquivalent(M, n, i, p);
    if Abs(S[i][i]) < Eps then
      Failure(SingularMatrix)
    else
      var N := S[i := NormalizeRow(S[i], i, S[i][i])];
      NormalizeEquivalent(S, n, i);
      var E := Eliminate(N, n, i);
      EliminateEquivalent(N, n, i);
      EquivalentTransitive(M, S, N, n);
      EquivalentTransitive(M, N, E, n);
      EliminateReduces(N, n, i);
      Success(E)
  }

  /** The outer loop from column `i` on. */
  function SolveFrom(M: Matrix, n: nat, i: nat): (r: Result<Matrix>)
    requires Augmented(M, n) && i <= n && Reduced(M, n, i)
    ensures r.Failure? ==> r.error == SingularMatrix
    ensures r.Success? ==> Augmented(r.value, n) && Reduced(r.value, n, n) && Equivalent(M, r.value, n)
    decreases n - i
  {
    if i == n then
      EquivalentReflexive(M, n);
      Success(M)
    else
      match Step(M, n, i)
      case Failure(e) => Failure(e)
      case Success(M') =>
        var r := SolveFrom(M', n, i + 1);
        if r.Success? then EquivalentTransitive(M, M', r.value, n); r else r
  }

  /** `#solveLinear(A, b)`: the last column once elimination has run to the
      end. A returned vector is the one and only solution of `A x = b`. */
  function SolveLinear(A: Matrix, b: seq<real>): (r: Result<seq<real>>)
    requires SquareSystem(A, b)
    ensures r.Failure? ==> r.error == SingularMatrix
    ensures r.Success? ==> |r.value| == |A|
    ensures r.Success? ==> forall x: seq<real> :: |x| == |A| ==> (Solves(A, b, x) <==> x == r.value)
  {
    var n := |A|;
    var M := Augment(A, b);
    match SolveFrom(M, n, 0)
    case Failure(e) => Failure(e)
    case Success(F) =>
      var h := seq(n, r requires 0 <= r < n => F[r][n]);
      AugmentHolds(A, b);
      ReducedSolutions(F, n, h);
      Success(h)
  }

  // ----- why the steps keep the solutions -----

  /** The arithmetic of one summand of `SumCombine`, over plain reals. */
  lemma CombineStep(f: real, sr: real, sa: real, sb: real, sr1: real, sa1: real, sb1: real,
                    rk: real, ak: real, bk: real, xk: real)
    requires sr == sr1 + rk * xk && sa == sa1 + ak * xk && sb == sb1 + bk * xk
    requires sr1 == sa1 - f * sb1 && rk == ak - f * bk
    ensures sr == sa - f * sb
  {
  }

  /** Subtracting `f` times row `b` from row `a` subtracts `f` times its sum. */
  lemma {:induction false} SumCombine(r: Row, a: Row, b: Row, f: real, x: seq<real>, k: nat)
    requires k <= |r| && k <= |a| && k <= |b| && k <= |x|
    requires forall c :: 0 <= c < k ==> r[c] == a[c] - f * b[c]
    ensures Sum(r, x, k) == Sum(a, x, k) - f * Sum(b, x, k)
  {
    if k > 0 {
      SumCombine(r, a, b, f, x, k - 1);
      SumCombineStep(r, a, b, f, x, k);
    }
  }

  /** The inductive step of `SumCombine`. */
  lemma SumCombineStep(r: Row, a: Row, b: Row, f: real, x: seq<real>, k: nat)
    requires 0 < k <= |r| && k <= |a| && k <= |b| && k <= |x|
    requires Sum(r, x, k - 1) == Sum(a, x, k - 1) - f * Sum(b, x, k - 1)
    requires r[k - 1] == a[k - 1] - f * b[k - 1]
    ensures Sum(r, x, k) == Sum(a, x, k) - f * Sum(b, x, k)
  {
    CombineStep(f, Sum(r, x, k), Sum(a, x, k), Sum(b, x, k), Sum(r, x, k - 1), Sum(a, x, k - 1),
                Sum(b, x, k - 1), r[k - 1], a[k - 1], b[k - 1], x[k - 1]);
  }

  /** The arithmetic of one summand of `SumScale`, over plain reals. */
  lemma ScaleStep(d: real, sr: real, sa: real, sr1: real, sa1: real, rk: real, ak: real, xk: real)
    requires d != 0.0
    requires sr == sr1 + rk * xk && sa == sa1 + ak * xk
    requires sr1 == sa1 / d && rk == ak / d
    ensures sr == sa / d
  {
  }

  /** Dividing a row by `d` divides its sum by `d`. */
  lemma {:induction false} SumScale(r: Row, a: Row, d: real, x: seq<real>, k: nat)
    requires d != 0.0 && k <= |r| && k <= |a| && k <= |x|
    requires forall c :: 0 <= c < k ==> r[c] == a[c] / d
    ensures Sum(r, x, k) == Sum(a, x, k) / d
  {
    if k > 0 {
      SumScale(r, a, d, x, k - 1);
      SumScaleStep(r, a, d, x, k);
    }
  }

  /** The inductive step of `SumScale`. */
  lemma SumScaleStep(r: Row, a: Row, d: real, x: seq<real>, k: nat)
    requires d != 0.0 && 0 < k <= |r| && k <= |a| && k <= |x|
    requires Sum(r, x, k - 1) == Sum(a, x, k - 1) / d
    requires r[k - 1] == a[k - 1] / d
    ensures Sum(r, x, k) == Sum(a, x, k) / d
  {
    ScaleStep(d, Sum(r, x, k), Sum(a, x, k), Sum(r, x, k - 1), Sum(a, x, k - 1), r[k - 1], a[k - 1], x[k - 1]);
  }

  /** A sum reads only the first `k` entries of the row. */
  lemma {:induction false} SumPrefix(a: Row, b: Row, x: seq<real>, k: nat)
    requires k <= |a| && k <= |b| && k <= |x|
    requires forall c :: 0 <= c < k ==> a[c] == b[c]
    ensures Sum(a, x, k) == Sum(b, x, k)
  {
    if k > 0 {
      SumPrefix(a, b, x, k - 1);
    }
  }

  /** A row of the identity picks out one unknown. */
  lemma {:induction false} SumUnit(row: Row, x: seq<real>, k: nat, j: nat)
    requires k <= |row| && k <= |x|
    requires forall c :: 0 <= c < k ==> row[c] == if c == j then 1.0 else 0.0
    ensures Sum(row, x, k) == if j < k then x[j] else 0.0
  {
    if k > 0 {
      SumUnit(row, x, k - 1, j);
    }
  }

  lemma EquivalentReflexive(M: Matrix, n: nat)
    requires Augmented(M, n)
    ensures Equivalent(M, M, n)
  {
  }

  lemma EquivalentTransitive(M1: Matrix, M2: Matrix, M3: Matrix, n: nat)
    requires Augmented(M1, n) && Augmented(M2, n) && Augmented(M3, n)
    requires Equivalent(M1, M2, n) && Equivalent(M2, M3, n)
    ensures Equivalent(M1, M3, n)
  {
  }

  /** Exchanging two rows reorders the equations and keeps the solutions;
      it also keeps the identity columns when both rows are at or below
      the diagonal. */
  lemma SwapEquivalent(M: Matrix, n: nat, i: nat, p: nat)
    requires Augmented(M, n) && i <= p < n
    ensures Augmented(Swap(M, i, p), n) && Equivalent(M, Swap(M, i, p), n)
    ensures Reduced(M, n, i) ==> Reduced(Swap(M, i, p), n, i)
  {
    var S := Swap(M, i, p);
    forall x: seq<real> | |x| == n
      ensures Holds(M, x, n) <==> Holds(S, x, n)
    {
      if Holds(M, x, n) {
        forall r | 0 <= r < n ensures Sum(S[r], x, n) == S[r][n] {
          var q := if r == i then p else if r == p then i else r;
          assert S[r] == M[q];
        }
      }
      if Holds(S, x, n) {
        forall r | 0 <= r < n ensures Sum(M[r], x, n) == M[r][n] {
          var q := if r == i then p else if r == p then i else r;
          assert M[r] == S[q];
        }
      }
    }
  }

  /** Replacing one equation by an equivalent one keeps the solutions. */
  lemma ReplaceRowEquivalent(M: Matrix, n: nat, i: nat, row: Row)
    requires Augmented(M, n) && i < n && |row| == n + 1
    requires forall x: seq<real> :: |x| == n ==> (Sum(row, x, n) == row[n] <==> Sum(M[i], x, n) == M[i][n])
    ensures Augmented(M[i := row], n) && Equivalent(M, M[i := row], n)
  {
    var N := M[i := row];
    forall x: seq<real> | |x| == n
      ensures Holds(M, x, n) <==> Holds(N, x, n)
    {
      assert forall r :: 0 <= r < n && r != i ==> N[r] == M[r];
      if Holds(M, x, n) {
        assert Sum(M[i], x, n) == M[i][n];
      }
      if Holds(N, x, n) {
        assert Sum(N[i], x, n) == N[i][n];
      }
    }
  }

  /** With zeros left of the diagonal, the scaled row is the whole row
      divided by `diag`. */
  lemma NormalizeRowEntries(row: Row, i: nat, diag: real)
    requires i <= |row| && diag != 0.0
    requires forall c :: 0 <= c < i ==> row[c] == 0.0
    ensures var r := NormalizeRow(row, i, diag); forall c :: 0 <= c < |row| ==> r[c] == row[c] / diag
  {
  }

  /** The arithmetic of scaling one equation, over plain reals. */
  lemma ScaledEquation(d: real, s: real, t: real, s': real, t': real)
    requires d != 0.0 && s' == s / d && t' == t / d
    ensures s' == t' <==> s == t
  {
  }

  /** Scaling a row from the diagonal rightwards scales the whole equation
      when the entries left of the diagonal are zero. */
  lemma NormalizeRowEquation(row: Row, n: nat, i: nat, x: seq<real>)
    requires |row| == n + 1 && i < n && |x| == n && row[i] != 0.0
    requires forall c :: 0 <= c < i ==> row[c] == 0.0
    ensures var r := NormalizeRow(row, i, row[i]);
      Sum(r, x, n) == r[n] <==> Sum(row, x, n) == row[n]
  {
    var d := row[i];
    var r := NormalizeRow(row, i, d);
    NormalizeRowEntries(row, i, d);
    SumScale(r, row, d, x, n);
    ScaledEquation(d, Sum(row, x, n), row[n], Sum(r, x, n), r[n]);
  }

  /** Scaling the pivot row keeps the solutions and puts 1 on the diagonal. */
  lemma NormalizeEquivalent(M: Matrix, n: nat, i: nat)
    requires Augmented(M, n) && i < n && M[i][i] != 0.0
    requires forall c :: 0 <= c < i ==> M[i][c] == 0.0
    ensures var N := M[i := NormalizeRow(M[i], i, M[i][i])];
      Augmented(N, n) && Equivalent(M, N, n) && N[i][i] == 1.0
  {
    var row := NormalizeRow(M[i], i, M[i][i]);
    forall x: seq<real> | |x| == n
      ensures Sum(row, x, n) == row[n] <==> Sum(M[i], x, n) == M[i][n]
    {
      NormalizeRowEquation(M[i], n, i, x);
    }
    ReplaceRowEquivalent(M, n, i, row);
  }

  /** The arithmetic of subtracting a satisfied equation, over plain reals. */
  lemma CombinedEquation(f: real, s: real, t: real, p: real, q: real, s': real, t': real)
    requires p == q && s' == s - f * p && t' == t - f * q
    ensures s' == t' <==> s == t
  {
  }

  lemma ZeroProduct(f: real, p: real)
    requires p == 0.0
    ensures f * p == 0.0
  {
  }

  /** With zeros left of the pivot row's diagonal, the eliminated row is the
      whole row minus `row[i]` times the pivot row. */
  lemma EliminateRowEntries(row: Row, pivot: Row, i: nat)
    requires i < |row| == |pivot|
    requires forall c :: 0 <= c < i ==> pivot[c] == 0.0
    ensures var r := EliminateRow(row, pivot, i); forall c :: 0 <= c < |row| ==> r[c] == row[c] - row[i] * pivot[c]
  {
    var r := EliminateRow(row, pivot, i);
    forall c | 0 <= c < |row| ensures r[c] == row[c] - row[i] * pivot[c] {
      if c < i {
        ZeroProduct(row[i], pivot[c]);
      }
    }
  }

  /** The eliminated row's sum and right-hand side, in terms of the two
      rows it came from. */
  lemma EliminateRowSum(row: Row, pivot: Row, n: nat, i: nat, x: seq<real>)
    requires |row| == |pivot| == n + 1 && i < n && |x| == n
    requires forall c :: 0 <= c < i ==> pivot[c] == 0.0
    ensures var r := EliminateRow(row, pivot, i);
      Sum(r, x, n) == Sum(row, x, n) - row[i] * Sum(pivot, x, n) && r[n] == row[n] - row[i] * pivot[n]
  {
    EliminateRowEntries(row, pivot, i);
    SumCombine(EliminateRow(row, pivot, i), row, pivot, row[i], x, n);
  }

  /** Subtracting `f` times a satisfied pivot equation from an equation
      leaves it satisfied exactly when it was before. */
  lemma EliminateRowEquation(row: Row, pivot: Row, n: nat, i: nat, x: seq<real>)
    requires |row| == |pivot| == n + 1 && i < n && |x| == n
    requires forall c :: 0 <= c < i ==> pivot[c] == 0.0
    requires Sum(pivot, x, n) == pivot[n]
    ensures var r := EliminateRow(row, pivot, i);
      Sum(r, x, n) == r[n] <==> Sum(row, x, n) == row[n]
  {
    var r := EliminateRow(row, pivot, i);
    EliminateRowSum(row, pivot, n, i, x);
    CombinedEquation(row[i], Sum(row, x, n), row[n], Sum(pivot, x, n), pivot[n], Sum(r, x, n), r[n]);
  }

  /** Subtracting multiples of the pivot row from the other rows keeps the
      solutions, in both directions, because the pivot row itself stays. */
  lemma EliminateEquivalent(M: Matrix, n: nat, i: nat)
    requires Augmented(M, n) && i < n
    requires forall c :: 0 <= c < i ==> M[i][c] == 0.0
    ensures Equivalent(M, Eliminate(M, n, i), n)
  {
    var E := Eliminate(M, n, i);
    forall x: seq<real> | |x| == n
      ensures Holds(M, x, n) <==> Holds(E, x, n)
    {
      if Sum(M[i], x, n) == M[i][n] {
        forall r | 0 <= r < n && r != i
          ensures Sum(E[r], x, n) == E[r][n] <==> Sum(M[r], x, n) == M[r][n]
        {
          EliminateRowEquation(M[r], M[i], n, i, x);
        }
      }
    }
  }

  /** After scaling and clearing, column `i` is a unit column and the
      earlier identity columns are untouched. */
  lemma EliminateReduces(N: Matrix, n: nat, i: nat)
    requires Augmented(N, n) && i < n && N[i][i] == 1.0
    requires forall r, c :: 0 <= r < n && 0 <= c < i ==> N[r][c] == if r == c then 1.0 else 0.0
    ensures Reduced(Eliminate(N, n, i), n, i + 1)
  {
  }

  /** A fully reduced system `[I | h]` is solved by `h` and by nothing else. */
  lemma ReducedSolutions(F: Matrix, n: nat, h: seq<real>)
    requires Augmented(F, n) && Reduced(F, n, n)
    requires |h| == n && forall r :: 0 <= r < n ==> h[r] == F[r][n]
    ensures forall x: seq<real> :: |x| == n ==> (Holds(F, x, n) <==> x == h)
  {
    forall x: seq<real> | |x| == n
      ensures Holds(F, x, n) <==> x == h
    {
      forall r | 0 <= r < n ensures Sum(F[r], x, n) == x[r] {
        SumUnit(F[r], x, n, r);
      }
    }
  }

  /** The augmented system has exactly the solutions of `A x = b`. */
  lemma AugmentHolds(A: Matrix, b: seq<real>)
    requires SquareSystem(A, b)
    ensures forall x: seq<real> :: |x| == |A| ==> (Holds(Augment(A, b), x, |A|) <==> Solves(A, b, x))
  {
    var M := Augment(A, b);
    forall x: seq<real>, r | |x| == |A| && 0 <= r < |A|
      ensures Sum(M[r], x, |A|) == Sum(A[r], x, |A|) && M[r][|A|] == b[r]
    {
      SumPrefix(M[r], A[r], x, |A|);
    }
  }
}

/** Sums over rows, as the `reduce((acc, row) => acc + amount(row), 0)`
    calls compute them. Money and quantities are JavaScript numbers in the
    program; here they are exact reals. */
module Totals {

  /** The left fold `rows.reduce((acc, x) => acc + amount(x), 0)`. */
  function Total<T>(rows: seq<T>, amount: T -> real): (r: real)
    ensures rows == [] ==> r == 0.0
    ensures (forall i :: 0 <= i < |rows| ==> amount(rows[i]) >= 0.0) ==> r >= 0.0
  {
    if rows == [] then 0.0
    else Total(rows[..|rows| - 1], amount) + amount(rows[|rows| - 1])
  }

  /** The amount of each row, in row order (what a table shows per row). */
  function Amounts<T>(rows: seq<T>, amount: T -> real): (r: seq<real>)
    ensures |r| == |rows|
    ensures forall i :: 0 <= i < |rows| ==> r[i] == amount(rows[i])
  {
    if rows == [] then [] else [amount(rows[0])] + Amounts(rows[1..], amount)
  }

  /** The right fold of a list of numbers. */
  function Sum(xs: seq<real>): real
  {
    if xs == [] then 0.0 else xs[0] + Sum(xs[1..])
  }

  lemma {:induction false} SumAppend(xs: seq<real>, x: real)
    ensures Sum(xs + [x]) == Sum(xs) + x
  {
    if xs == [] {
      assert [x][1..] == [];
    } else {
      assert (xs + [x])[1..] == xs[1..] + [x];
      SumAppend(xs[1..], x);
    }
  }

  /** Adding a row raises the total by exactly that row's amount. */
  lemma TotalAppend<T>(rows: seq<T>, amount: T -> real, x: T)
    ensures Total(rows + [x], amount) == Total(rows, amount) + amount(x)
  {
    assert (rows + [x])[..|rows|] == rows;
  }

  /** The folded total equals the sum of the per-row amounts. */
  lemma {:induction false} TotalIsSumOfAmounts<T>(rows: seq<T>, amount: T -> real)
    ensures Total(rows, amount) == Sum(Amounts(rows, amount))
  {
    if rows != [] {
      var front := rows[..|rows| - 1];
      var last := rows[|rows| - 1];
      TotalIsSumOfAmounts(front, amount);
      assert rows == front + [last];
      assert Amounts(rows, amount) == Amounts(front, amount) + [amount(last)];
      SumAppend(Amounts(front, amount), amount(last));
    }
  }

  /** Totals of two row lists agree when their amounts agree row by row. */
  lemma {:induction false} TotalPointwise<T, U>(rows: seq<T>, amount: T -> real, other: seq<U>, amount': U -> real)
    requires |rows| == |other|
    requires forall i :: 0 <= i < |rows| ==> amount(rows[i]) == amount'(other[i])
    ensures Total(rows, amount) == Total(other, amount')
  {
    if rows != [] {
      TotalPointwise(rows[..|rows| - 1], amount, other[..|other| - 1], amount');
    }
  }
}

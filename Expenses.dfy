/** An expense as the list and the analytics panel receive it from the
    loader, and the running sum `reduce((sum, e) => sum + e.amount, 0)`. */
module Expenses {
  import opened Calendar
  import opened Seqs

  datatype Expense = Expense(id: int, description: string, amount: real, category: string, date: Moment)

  /** The sum of the amounts of `es`, added from the first to the last. */
  function AmountSum(es: seq<Expense>): real
    decreases |es|
  {
    if es == [] then 0.0 else AmountSum(es[..|es| - 1]) + es[|es| - 1].amount
  }

  lemma {:induction false} AmountSumAppend(a: seq<Expense>, b: seq<Expense>)
    ensures AmountSum(a + b) == AmountSum(a) + AmountSum(b)
    decreases |b|
  {
    if b == [] {
      assert a + b == a;
    } else {
      var b' := b[..|b| - 1];
      assert (a + b)[..|a + b| - 1] == a + b';
      AmountSumAppend(a, b');
    }
  }

  /** Dropping elements of non-negative amount never increases the sum. */
  lemma {:induction false} SubsequenceSumAtMost(a: seq<Expense>, b: seq<Expense>)
    requires IsSubsequence(a, b)
    requires forall k :: 0 <= k < |b| ==> b[k].amount >= 0.0
    ensures AmountSum(a) <= AmountSum(b)
    decreases |b|
  {
    if a == [] {
      NonNegativeSum(b);
    } else {
      assert b != [];
      assert b == [b[0]] + b[1..];
      AmountSumAppend([b[0]], b[1..]);
      assert AmountSum([b[0]]) == b[0].amount by {
        assert [b[0]][..0] == [];
      }
      if a[0] == b[0] && IsSubsequence(a[1..], b[1..]) {
        SubsequenceSumAtMost(a[1..], b[1..]);
        assert a == [a[0]] + a[1..];
        AmountSumAppend([a[0]], a[1..]);
        assert AmountSum([a[0]]) == a[0].amount by {
          assert [a[0]][..0] == [];
        }
      } else {
        SubsequenceSumAtMost(a, b[1..]);
      }
    }
  }

  lemma {:induction false} NonNegativeSum(s: seq<Expense>)
    requires forall k :: 0 <= k < |s| ==> s[k].amount >= 0.0
    ensures AmountSum(s) >= 0.0
    decreases |s|
  {
    if s != [] {
      NonNegativeSum(s[..|s| - 1]);
    }
  }
}

/** Numbers written as digit sequences, least-significant digit first, and the
    specification of carry-propagating addition on them.

    `AddCarry` is the reference definition of what the loop of
    `add_two_numbers` emits: one step per loop iteration, a missing digit read
    as 0, the digit `sum % 10` emitted and `sum // 10` carried, until both
    lists are used up and the carry is 0.  Elements are `nat`: on
    non-negative node values the loop always terminates, and for a
    non-negative sum and divisor 10 Dafny's `/` and `%` agree with the floor
    division `//` and the modulo `%` of Python.
 */
module DigitLists {

  predicate IsDigit(d: int) {
    0 <= d <= 9
  }

  predicate IsDigits(s: seq<nat>) {
    forall i :: 0 <= i < |s| ==> IsDigit(s[i])
  }

  function Max(x: int, y: int): int {
    if x >= y then x else y
  }

  function Pow10(n: nat): nat {
    if n == 0 then 1 else 10 * Pow10(n - 1)
  }

  /** The little-endian value of a digit sequence. */
  function Value(s: seq<nat>): nat {
    if s == [] then 0 else s[0] + 10 * Value(s[1..])
  }

  /** The current digit of a list, 0 once the list is used up. */
  function Head(s: seq<nat>): nat {
    if s == [] then 0 else s[0]
  }

  /** The list after one step; an exhausted list stays exhausted. */
  function Rest(s: seq<nat>): seq<nat> {
    if s == [] then [] else s[1..]
  }

  /** The part of `s` not yet read after `k` steps. */
  function Drop(s: seq<nat>, k: nat): seq<nat> {
    if k <= |s| then s[k..] else []
  }

  /** The digit read from `s` at step `k`: 0 past its end. */
  function DigitAt(s: seq<nat>, k: nat): nat {
    if k < |s| then s[k] else 0
  }

  function Zeros(k: nat): (r: seq<nat>)
    ensures |r| == k
    ensures forall i :: 0 <= i < k ==> r[i] == 0
  {
    if k == 0 then [] else [0] + Zeros(k - 1)
  }

  /** The digits emitted by the adder from lists `a` and `b` with incoming
      carry `carry`. */
  function AddCarry(a: seq<nat>, b: seq<nat>, carry: nat): seq<nat>
    decreases |a| + |b|, carry
  {
    if a == [] && b == [] && carry == 0 then []
    else
      var sum := Head(a) + Head(b) + carry;
      [sum % 10] + AddCarry(Rest(a), Rest(b), sum / 10)
  }

  /** The sum of two digit lists, as the adder produces it. */
  function Add(a: seq<nat>, b: seq<nat>): seq<nat> {
    AddCarry(a, b, 0)
  }

  /** One step of `AddCarry` while there is something left to add. */
  lemma {:induction false} AddCarryUnfold(a: seq<nat>, b: seq<nat>, carry: nat, sum: nat)
    requires a != [] || b != [] || carry != 0
    requires sum == Head(a) + Head(b) + carry
    ensures AddCarry(a, b, carry) == [sum % 10] + AddCarry(Rest(a), Rest(b), sum / 10)
  {
  }

  /** One step of the adder after `k` steps have read both lists: it emits
      the low digit of the step's sum and passes on its carry. */
  lemma {:induction false} AddCarryStep(a: seq<nat>, b: seq<nat>, k: nat, carry: nat)
    requires k < |a| || k < |b| || carry != 0
    ensures var sum := DigitAt(a, k) + DigitAt(b, k) + carry;
      AddCarry(Drop(a, k), Drop(b, k), carry)
      == [sum % 10] + AddCarry(Drop(a, k + 1), Drop(b, k + 1), sum / 10)
  {
    assert Head(Drop(a, k)) == DigitAt(a, k);
    assert Head(Drop(b, k)) == DigitAt(b, k);
    assert Rest(Drop(a, k)) == Drop(a, k + 1);
    assert Rest(Drop(b, k)) == Drop(b, k + 1);
  }

  /** The loop's own view of the same computation: what it emits from step
      `k` on, reading a missing digit as 0, with `carry` coming in. */
  function AddFrom(a: seq<nat>, b: seq<nat>, k: nat, carry: nat): seq<nat>
    decreases if k < |a| || k < |b| then Max(|a|, |b|) - k else 0, carry
  {
    if k >= |a| && k >= |b| && carry == 0 then []
    else
      var sum := DigitAt(a, k) + DigitAt(b, k) + carry;
      [sum % 10] + AddFrom(a, b, k + 1, sum / 10)
  }

  /** One loop step on the step-indexed view: with `sum` the step's digit
      sum, the step emits `sum % 10` and continues with carry `sum / 10`,
      which stays 0 or 1 when both inputs are digit lists. */
  lemma {:induction false} AddFromStep(a: seq<nat>, b: seq<nat>, k: nat, carry: nat, sum: nat)
    requires k < |a| || k < |b| || carry != 0
    requires sum == DigitAt(a, k) + DigitAt(b, k) + carry
    ensures AddFrom(a, b, k, carry) == [sum % 10] + AddFrom(a, b, k + 1, sum / 10)
    ensures IsDigits(a) && IsDigits(b) && carry <= 1 ==> sum / 10 <= 1
  {
  }

  /** The step-indexed definition agrees with the list-recursive one on the
      unread suffixes of the inputs. */
  lemma {:induction false} AddFromIsAddCarry(a: seq<nat>, b: seq<nat>, k: nat, carry: nat)
    ensures AddFrom(a, b, k, carry) == AddCarry(Drop(a, k), Drop(b, k), carry)
    decreases if k < |a| || k < |b| then Max(|a|, |b|) - k else 0, carry
  {
    if k >= |a| && k >= |b| && carry == 0 {
      assert Drop(a, k) == [] && Drop(b, k) == [];
    } else {
      var sum := DigitAt(a, k) + DigitAt(b, k) + carry;
      AddCarryStep(a, b, k, carry);
      AddFromIsAddCarry(a, b, k + 1, sum / 10);
    }
  }

  lemma {:induction false} AddFromStart(a: seq<nat>, b: seq<nat>)
    ensures AddFrom(a, b, 0, 0) == Add(a, b)
  {
    AddFromIsAddCarry(a, b, 0, 0);
    assert Drop(a, 0) == a && Drop(b, 0) == b;
  }

  /** Output digits are digits: each emitted element is a `sum % 10`. */
  lemma {:induction false} AddCarryDigits(a: seq<nat>, b: seq<nat>, carry: nat)
    ensures IsDigits(AddCarry(a, b, carry))
    decreases |a| + |b|, carry
  {
    if a == [] && b == [] && carry == 0 {
    } else {
      var sum := Head(a) + Head(b) + carry;
      AddCarryDigits(Rest(a), Rest(b), sum / 10);
      var t := AddCarry(Rest(a), Rest(b), sum / 10);
      var r := [sum % 10] + t;
      forall i | 0 <= i < |r| ensures IsDigit(r[i]) {
        if i > 0 { assert r[i] == t[i - 1]; }
      }
    }
  }

  lemma {:induction false} ValueUnfold(s: seq<nat>)
    ensures Value(s) == Head(s) + 10 * Value(Rest(s))
  {
  }

  /** The emitted digits are worth the two inputs plus the incoming carry. */
  lemma {:induction false} AddCarryValue(a: seq<nat>, b: seq<nat>, carry: nat)
    ensures Value(AddCarry(a, b, carry)) == Value(a) + Value(b) + carry
    decreases |a| + |b|, carry
  {
    if a == [] && b == [] && carry == 0 {
    } else {
      var sum := Head(a) + Head(b) + carry;
      var t := AddCarry(Rest(a), Rest(b), sum / 10);
      AddCarryValue(Rest(a), Rest(b), sum / 10);
      ValueUnfold(a);
      ValueUnfold(b);
      assert ([sum % 10] + t)[1..] == t;
      assert sum == sum % 10 + 10 * (sum / 10);
    }
  }

  /** Value preserved: the sum list is worth the sum of the two inputs. */
  lemma {:induction false} AddValue(a: seq<nat>, b: seq<nat>)
    ensures Value(Add(a, b)) == Value(a) + Value(b)
  {
    AddCarryValue(a, b, 0);
  }

  lemma {:induction false} RestKeepsDigits(s: seq<nat>)
    requires IsDigits(s)
    ensures IsDigits(Rest(s))
  {
    if s != [] {
      forall i | 0 <= i < |s| - 1 ensures IsDigit(s[1..][i]) {
        assert s[1..][i] == s[i + 1];
      }
    }
  }

  /** 10 * x + d, for a digit d, reaches 10^(m+1) exactly when x reaches 10^m. */
  lemma {:induction false} ScaleThreshold(x: nat, d: nat, m: nat)
    requires d <= 9
    ensures 10 * x + d >= Pow10(m + 1) <==> x >= Pow10(m)
  {
    if x >= Pow10(m) {
      assert 10 * x >= 10 * Pow10(m);
    } else {
      assert 10 * x <= 10 * Pow10(m) - 10;
    }
  }

  /** Length: with digit inputs and a carry of 0 or 1, the output has
      max(|a|, |b|) digits, plus one exactly when the sum needs an extra
      digit, and that extra digit is the final carry, a 1. */
  lemma {:induction false} AddCarryLength(a: seq<nat>, b: seq<nat>, carry: nat)
    requires IsDigits(a) && IsDigits(b) && carry <= 1
    ensures var r, m := AddCarry(a, b, carry), Max(|a|, |b|);
      && (|r| == m || |r| == m + 1)
      && (|r| == m + 1 <==> Value(a) + Value(b) + carry >= Pow10(m))
      && (|r| == m + 1 ==> r[m] == 1)
    decreases |a| + |b|
  {
    var r, m := AddCarry(a, b, carry), Max(|a|, |b|);
    if a == [] && b == [] {
      if carry == 1 {
        AddCarryUnfold(a, b, carry, 1);
        assert r == [1];
      }
    } else {
      var sum := Head(a) + Head(b) + carry;
      var ta, tb, c := Rest(a), Rest(b), sum / 10;
      RestKeepsDigits(a);
      RestKeepsDigits(b);
      assert Head(a) <= 9 && Head(b) <= 9;
      AddCarryLength(ta, tb, c);
      var t := AddCarry(ta, tb, c);
      AddCarryUnfold(a, b, carry, sum);
      assert Max(|ta|, |tb|) == m - 1;
      ValueUnfold(a);
      ValueUnfold(b);
      var x := Value(ta) + Value(tb) + c;
      assert Value(a) + Value(b) + carry == 10 * x + sum % 10;
      ScaleThreshold(x, sum % 10, m - 1);
      if |r| == m + 1 {
        assert r[m] == t[m - 1];
      }
    }
  }

  /** Output has max(|a|, |b|) or max(|a|, |b|) + 1 digits, and the longer
      length exactly when the sum does not fit in max(|a|, |b|) digits. */
  lemma {:induction false} AddLength(a: seq<nat>, b: seq<nat>)
    requires IsDigits(a) && IsDigits(b)
    ensures var r, m := Add(a, b), Max(|a|, |b|);
      && (|r| == m || |r| == m + 1)
      && (|r| == m + 1 <==> Value(a) + Value(b) >= Pow10(m))
      && (|r| == m + 1 ==> r[m] == 1)
  {
    AddCarryLength(a, b, 0);
  }

  /** Empty inputs give an empty result, and only they do. */
  lemma {:induction false} AddEmpty(a: seq<nat>, b: seq<nat>)
    ensures Add(a, b) == [] <==> a == [] && b == []
  {
  }

  /** Commutativity: each step is symmetric in the two digits, so swapping
      the inputs gives the same digit sequence. */
  lemma {:induction false} AddCarryCommutes(a: seq<nat>, b: seq<nat>, carry: nat)
    ensures AddCarry(a, b, carry) == AddCarry(b, a, carry)
    decreases |a| + |b|, carry
  {
    if a == [] && b == [] && carry == 0 {
    } else {
      var sum := Head(a) + Head(b) + carry;
      AddCarryCommutes(Rest(a), Rest(b), sum / 10);
    }
  }

  lemma {:induction false} AddCommutes(a: seq<nat>, b: seq<nat>)
    ensures Add(a, b) == Add(b, a)
  {
    AddCarryCommutes(a, b, 0);
  }

  /** A list padded with `k` zeros reads like the list itself, and after one
      step it is the rest of the list padded with one zero fewer once the
      list itself is used up. */
  lemma {:induction false} PaddedStep(b: seq<nat>, k: nat)
    ensures Head(b + Zeros(k)) == Head(b)
    ensures Rest(b + Zeros(k)) == Rest(b) + Zeros(if b == [] && k > 0 then k - 1 else k)
  {
    if b == [] {
      assert b + Zeros(k) == Zeros(k);
    } else {
      assert (b + Zeros(k))[1..] == b[1..] + Zeros(k);
    }
  }

  /** Short list padding: reading an exhausted list as zeros is the same as
      extending it with explicit zero digits up to the other list's length. */
  lemma {:induction false} AddCarryPadding(a: seq<nat>, b: seq<nat>, k: nat, carry: nat)
    requires |b| + k <= |a|
    ensures AddCarry(a, b + Zeros(k), carry) == AddCarry(a, b, carry)
    decreases |a|
  {
    if a == [] {
      assert b + Zeros(k) == b;
    } else {
      var sum := Head(a) + Head(b) + carry;
      PaddedStep(b, k);
      AddCarryPadding(Rest(a), Rest(b), if b == [] && k > 0 then k - 1 else k, sum / 10);
      AddCarryUnfold(a, b + Zeros(k), carry, sum);
      AddCarryUnfold(a, b, carry, sum);
    }
  }

  lemma {:induction false} AddPadding(a: seq<nat>, b: seq<nat>)
    requires |b| <= |a|
    ensures Add(a, b + Zeros(|a| - |b|)) == Add(a, b)
  {
    AddCarryPadding(a, b, |a| - |b|, 0);
  }
}

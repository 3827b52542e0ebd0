# Adding two numbers stored as digit lists

This project models `add_two_numbers(l1, l2)` from `Leetcode/add_two_numbers.py`.
The function adds two non-negative integers. Each one is stored as a singly
linked list of base-10 digits, least-significant digit first. It returns their
sum in the same form. The function walks both lists at once and reads a
list that has run out as the digit 0. At each turn it adds the two digits and
the carry. It appends a new node holding `sum % 10` behind a dummy head and
carries `sum // 10` on. It stops once both lists are used up and the carry is 0.

The project has two modules.

- `DigitLists` (`digit_lists.dfy`) is the reference model, on values. A number is
  a `seq<nat>` of digits. `Value` is its little-endian worth. `AddCarry` is
  the list-recursive reference definition of what the loop emits, and
  `Add(a, b)` is `AddCarry(a, b, 0)`. `AddFrom` is the same computation indexed
  by the turn number, the way the loop sees it. The lemmas state what the
  adder promises about the digits it emits: their value, that they are
  digits, their count, how a short list is padded, commutativity, and empty
  inputs.
- `LinkedAdd` (`add_two_numbers.dfy`) is the imperative model. `ListNode` is a
  class with a `val` and a mutable `next`. The ghost sequence `spine` names
  the nodes of a list in order (`IsList`). `Digits` reads the digits off a
  spine. `AddTwoNumbers` keeps the source's loop:
  - the dummy head, and `curr` advancing behind it;
  - `carry`;
  - the two list pointers, each advanced only while it is not `null`.

  Its contract ties the digits of the list it builds to `Add` of the digits of
  the inputs. The loop invariant keeps the carry at 0 or 1 for digit inputs.
  The method has no `modifies` clause. Dafny therefore guarantees that no node
  that existed before the call is changed by it: the inputs are only read.

`ListNode` is not defined in the source file, so the model gives it only the
two fields the adder uses. `val` is a `const`, because the adder never writes
it. `val` has type `nat` rather than Python's unbounded `int`: with a negative
value the source loop need not stop. A single node holding -1 gives
`sum_val = -1`. Then `carry = -1 // 10 = -1`, which keeps the loop condition
true forever, since Python's `//` rounds toward minus infinity. The adder
is meant for lists of digits 0..9. The model accepts any non-negative node
values, which includes every digit list. The claims that need
digit inputs carry an `IsDigits` premise: the carry bound and the length.
For a non-negative sum and divisor 10, Dafny's `/` and `%` agree with
Python's `//` and `%`. Python's `if l1:` is modelled as `l1 != null`: the
model assumes that `ListNode` defines neither `__bool__` nor `__len__`, so
every node is truthy.

## Model

| member | source | states |
|---|---|---|
| LinkedAdd.AddTwoNumbers | Leetcode/add_two_numbers.py:1-16 | For any two well-formed input lists, it returns a well-formed `null`-terminated list whose digits are exactly `Add` of the input digits. The result is `null` if and only if both inputs are `null`, and every node of the result is newly allocated, so the result shares no node with the inputs. The carry stays at 0 or 1 on digit inputs (a loop invariant). No input node is modified, because the method has no `modifies` clause. |
| LinkedAdd.Append | Leetcode/add_two_numbers.py:10-11 | Linking a new node behind `curr` extends the list hanging off the dummy head by exactly that node, and extends its digits by exactly the new value. |
| DigitLists.AddCarry | Leetcode/add_two_numbers.py:5-15 | Reference definition, with no contract of its own, of the digits the loop emits from two lists and an incoming carry. Each turn reads a missing digit as 0, emits `sum % 10` and carries `sum / 10`, until both lists are used up and the carry is 0. It is tied to the method by `AddTwoNumbers`' ensures through `Add`, and by `AddFromIsAddCarry`. Its properties are the lemmas below. |
| DigitLists.Add | Leetcode/add_two_numbers.py:1-16 | Definition, with no contract of its own, of the digits `add_two_numbers` returns: `AddCarry` started with carry 0. `AddTwoNumbers`' ensures is written against it, and `AddFromStart` ties it to the loop's view. `AddValue`, `AddCarryDigits`, `AddLength`, `AddPadding`, `AddCommutes` and `AddEmpty` prove what it promises. |
| DigitLists.AddFrom | Leetcode/add_two_numbers.py:5-15 | Definition, with no contract of its own, of the loop's turn-indexed view: what the loop emits from turn `k` on, with `carry` coming in. The invariant of `AddTwoNumbers` is written against it. `AddFromStep` gives its one-turn unfolding, and `AddFromIsAddCarry` and `AddFromStart` prove it equal to `AddCarry` and `Add`. |
| DigitLists.AddValue | Leetcode/add_two_numbers.py:5-11 | Value preserved: the little-endian value of the sum list is the value of `a` plus the value of `b`. |
| DigitLists.AddCarryValue | Leetcode/add_two_numbers.py:5-11 | With an incoming carry `c`, the emitted digits are worth `Value(a) + Value(b) + c`. |
| DigitLists.AddCarryDigits | Leetcode/add_two_numbers.py:10 | Every emitted element is a digit in 0..9, for any non-negative inputs and carry. |
| DigitLists.AddFromStep | Leetcode/add_two_numbers.py:6-9 | One turn at position `k` reads a missing digit as 0, emits `sum % 10`, and continues with carry `sum / 10`. That carry is at most 1 when both inputs are digit lists and the incoming carry is at most 1. |
| DigitLists.AddCarryLength | Leetcode/add_two_numbers.py:5-11 | For digit inputs and a carry of 0 or 1, the output has `max(|a|, |b|)` or `max(|a|, |b|) + 1` digits. It has the longer length exactly when `Value(a) + Value(b) + carry >= 10^max`, and the extra digit is then 1. |
| DigitLists.AddLength | Leetcode/add_two_numbers.py:5-11 | The same for the sum itself: one extra digit exactly when the sum does not fit in `max(|a|, |b|)` digits, and that digit is the final carry 1. |
| DigitLists.AddCarryPadding | Leetcode/add_two_numbers.py:6-7 | Short-list padding: adding `b` followed by `k` zeros (with `|b| + k <= |a|`) gives the same digits as adding `b`, at any carry. |
| DigitLists.AddPadding | Leetcode/add_two_numbers.py:6-7 | Padding the shorter list with zeros up to the longer one's length does not change the sum. |
| DigitLists.AddCarryCommutes | Leetcode/add_two_numbers.py:6-8 | Swapping the two lists gives the same digit sequence, at any carry. |
| DigitLists.AddCommutes | Leetcode/add_two_numbers.py:6-8 | Commutativity: `Add(a, b) == Add(b, a)`. |
| DigitLists.AddEmpty | Leetcode/add_two_numbers.py:5 | The sum is empty if and only if both inputs are empty. |
| DigitLists.AddFromIsAddCarry | Leetcode/add_two_numbers.py:5-15 | The turn-indexed computation the loop performs from position `k`, with pointers standing at position `k` of both lists, equals the list-recursive `AddCarry` on the unread parts of both lists. |
| DigitLists.AddFromStart | Leetcode/add_two_numbers.py:2-5 | Starting at position 0 with carry 0, as the function does, the loop computes `Add(a, b)`. |

## Left out

- `APIs/Api_kaggle_AIvsHumanDetection.py`: notebook glue with no logic of its own. It consists of shell commands for the download and unzip, filesystem checks, CSV reads through pandas, a scikit-learn train/validation split, `numpy.unique`, and printed floating-point percentages.
- `API BCRA/BCRA.py`, `API BCRA/gob_ar.py`, `API BCRA/indec.py`: HTTP requests to public statistics services, whose JSON answers go to pandas tables and printing. `BCRA.py` also sorts the table by date with pandas (line 22) and plots it with matplotlib (lines 27-37). `gob_ar.py` returns an empty table when the answer has no `"data"` key (lines 16-24). All of this is network I/O and library calls with no logic of its own to verify.
- `ListNode`: only `val` and `next` are modelled. The class is not defined in `Leetcode/add_two_numbers.py`, and the model claims nothing about its other behaviour. The model assumes that it defines neither `__bool__` nor `__len__`, so `if l1:` tests only for `None`.
- Negative node values: excluded by the type of `val`. The source loop need not terminate on them, as explained above.
- Cyclic input lists: excluded by `IsList`, which describes a list by a finite spine ending in `null`. The source loop never terminates on a cycle.
- AddTwoNumbers: the value, digit, length and commutativity properties of the result are not repeated in the method's contract. They follow from `Digits(out) == Add(Digits(s1), Digits(s2))` by the lemmas `AddValue`, `AddCarryDigits`, `AddLength` and `AddCommutes` about `Add`.

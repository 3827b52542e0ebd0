/** The linked-list adder of Leetcode/add_two_numbers.py.

    A number is a singly linked list of `ListNode`s, least-significant digit
    first.  A list is described by its spine, the sequence of its nodes from
    the head on; `Digits` reads the digits off a spine.
 */
module LinkedAdd {
  import opened DigitLists

  /** The minimal node the adder uses: a non-negative value, fixed once the
      node is built, and an optional successor that the adder links in place. */
  class ListNode {
    const val: nat
    var next: ListNode?

    constructor (v: nat)
      ensures val == v && next == null
    {
      val := v;
      next := null;
    }
  }

  /** `spine` lists, in order, the nodes reachable from `head`; the last one
      ends the list.  An empty spine is the empty list (`null`). */
  ghost predicate IsList(head: ListNode?, spine: seq<ListNode>)
    reads spine
  {
    && (if spine == [] then head == null else head == spine[0])
    && (forall i {:trigger spine[i].next} :: 0 <= i < |spine| - 1 ==> spine[i].next == spine[i + 1])
    && (spine != [] ==> spine[|spine| - 1].next == null)
  }

  /** The digits stored along a spine. */
  function Digits(spine: seq<ListNode>): (s: seq<nat>)
    ensures |s| == |spine|
    ensures forall i :: 0 <= i < |spine| ==> s[i] == spine[i].val
  {
    seq(|spine|, i requires 0 <= i < |spine| => spine[i].val)
  }

  /** Moving a freshly emitted digit from the pending part of the result to
      the part already built leaves the whole result as it was. */
  lemma {:induction false} ShiftDigit(done: seq<nat>, d: nat, rest: seq<nat>)
    ensures (done + [d]) + rest == done + ([d] + rest)
  {
  }

  /** Links a fresh node holding `v` behind `curr`, the last node of the list
      hanging off `dummy`. */
  method Append(dummy: ListNode, curr: ListNode, v: nat, ghost out: seq<ListNode>)
    returns (node: ListNode, ghost out': seq<ListNode>)
    requires IsList(dummy.next, out)
    requires curr == (if out == [] then dummy else out[|out| - 1])
    requires forall i :: 0 <= i < |out| ==> out[i] != dummy
    modifies curr
    ensures fresh(node) && node.val == v
    ensures out' == out + [node] && node == out'[|out'| - 1]
    ensures IsList(dummy.next, out')
    ensures Digits(out') == Digits(out) + [v]
    ensures forall i :: 0 <= i < |out'| ==> out'[i] != dummy
  {
    node := new ListNode(v);
    curr.next := node;
    out' := out + [node];
  }

  /** Adds the numbers held by `l1` and `l2`.  The loop walks both lists at
      once, reading a missing digit as 0, and appends one fresh node per step
      behind a dummy head until both lists are used up and the carry is 0.
      The method has no `modifies` clause: the input nodes are only read. */
  method AddTwoNumbers(l1: ListNode?, l2: ListNode?,
                       ghost s1: seq<ListNode>, ghost s2: seq<ListNode>)
    returns (r: ListNode?, ghost out: seq<ListNode>)
    requires IsList(l1, s1) && IsList(l2, s2)
    ensures IsList(r, out)
    ensures Digits(out) == Add(Digits(s1), Digits(s2))
    ensures r == null <==> l1 == null && l2 == null
    ensures forall n :: n in out ==> fresh(n)
  {
    ghost var a, b := Digits(s1), Digits(s2);
    var dummyHead := new ListNode(0);
    var curr := dummyHead;
    var carry: nat := 0;
    var p1, p2 := l1, l2;
    ghost var k: nat := 0;
    ghost var total := AddFrom(a, b, 0, 0);
    out := [];
    while p1 != null || p2 != null || carry != 0
      invariant p1 == (if k < |s1| then s1[k] else null)
      invariant p2 == (if k < |s2| then s2[k] else null)
      invariant IsDigits(a) && IsDigits(b) ==> carry <= 1
      invariant Digits(out) + AddFrom(a, b, k, carry) == total
      invariant fresh(curr)
      invariant forall n :: n in out ==> fresh(n)
      invariant curr == (if out == [] then dummyHead else out[|out| - 1])
      invariant IsList(dummyHead.next, out)
      invariant forall i :: 0 <= i < |out| ==> out[i] != dummyHead
      decreases if k < |a| || k < |b| then Max(|a|, |b|) - k else 0, carry
    {
      var val1 := if p1 != null then p1.val else 0;
      var val2 := if p2 != null then p2.val else 0;
      var sumVal := val1 + val2 + carry;
      AddFromStep(a, b, k, carry, sumVal);
      var digit: nat := sumVal % 10;
      ShiftDigit(Digits(out), digit, AddFrom(a, b, k + 1, sumVal / 10));
      carry := sumVal / 10;
      var node;
      node, out := Append(dummyHead, curr, digit, out);
      curr := node;
      if p1 != null {
        p1 := p1.next;
      }
      if p2 != null {
        p2 := p2.next;
      }
      k := k + 1;
    }
    r := dummyHead.next;
    AddFromStart(a, b);
  }
}

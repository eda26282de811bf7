/** The comparison of secrets in backend/src/auth.rs, which never stops early. */
module ConstantTime {
  type Byte = b: nat | b < 256

  /** Bitwise exclusive or, one binary digit at a time. */
  function Xor(a: nat, b: nat): nat
    decreases a + b
  {
    if a == 0 && b == 0 then 0 else 2 * Xor(a / 2, b / 2) + (if a % 2 == b % 2 then 0 else 1)
  }

  /** Bitwise or. */
  function Or(a: nat, b: nat): nat
    decreases a + b
  {
    if a == 0 && b == 0 then 0 else 2 * Or(a / 2, b / 2) + (if a % 2 == 0 && b % 2 == 0 then 0 else 1)
  }

  lemma {:induction false} XorIsZero(a: nat, b: nat)
    ensures Xor(a, b) == 0 <==> a == b
    decreases a + b
  {
    if a != 0 || b != 0 {
      XorIsZero(a / 2, b / 2);
      assert a == 2 * (a / 2) + a % 2 && b == 2 * (b / 2) + b % 2;
    }
  }

  lemma {:induction false} OrIsZero(a: nat, b: nat)
    ensures Or(a, b) == 0 <==> a == 0 && b == 0
    decreases a + b
  {
    if a != 0 || b != 0 {
      OrIsZero(a / 2, b / 2);
      assert a == 2 * (a / 2) + a % 2 && b == 2 * (b / 2) + b % 2;
    }
  }

  function ByteOrZero(bytes: seq<Byte>, index: nat): Byte {
    if index < |bytes| then bytes[index] else 0
  }

  /** True exactly on equal byte strings, also when one is the other followed by zeros. */
  method ConstantTimeEq(left: seq<Byte>, right: seq<Byte>) returns (r: bool)
    ensures r <==> left == right
  {
    var difference := Xor(|left|, |right|);
    XorIsZero(|left|, |right|);
    var length := if |left| < |right| then |right| else |left|;
    for index := 0 to length
      invariant difference == 0
                <==> |left| == |right| && forall k :: 0 <= k < index ==> ByteOrZero(left, k) == ByteOrZero(right, k)
    {
      var here := Xor(ByteOrZero(left, index), ByteOrZero(right, index));
      XorIsZero(ByteOrZero(left, index), ByteOrZero(right, index));
      OrIsZero(difference, here);
      difference := Or(difference, here);
    }
    assert difference == 0 ==>
             forall k :: 0 <= k < |left| ==>
               ByteOrZero(left, k) == left[k] && ByteOrZero(right, k) == right[k];
    r := difference == 0;
  }
}

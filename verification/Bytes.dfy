/** Octets, 256-bit keys and the exclusive or, shared by the authentication modules. */
module Bytes {

  /** The outcome of an operation that ereport(ERROR) can abandon. */
  datatype Result<+T> = Ok(value: T) | Err {
    predicate IsFailure() { Err? }
    function PropagateFailure<U>(): Result<U> requires Err? { Err }
    function Extract(): T requires Ok? { value }
  }

  datatype Option<+T> = None | Some(value: T)

  type byte = x: int | 0 <= x < 256

  const KEY_LEN := 32

  /** A SHA-256 digest: StoredKey, ServerKey, proofs and signatures all have this length. */
  type Key = k: seq<byte> | |k| == KEY_LEN witness seq(KEY_LEN, _ => 0)

  function ZeroKey(): (k: Key)
  {
    seq(KEY_LEN, i => 0)
  }

  /** Bit-by-bit exclusive or of the low `bits` bits. */
  function XorBits(a: nat, b: nat, bits: nat): (r: nat)
    decreases bits
  {
    if bits == 0 then 0
    else 2 * XorBits(a / 2, b / 2, bits - 1) + (if a % 2 == b % 2 then 0 else 1)
  }

  ghost function Pow2(n: nat): (r: nat)
    ensures r > 0
  {
    if n == 0 then 1 else 2 * Pow2(n - 1)
  }

  lemma {:induction false} XorBitsBound(a: nat, b: nat, bits: nat)
    ensures XorBits(a, b, bits) < Pow2(bits)
    decreases bits
  {
    if bits == 0 {
    } else {
      XorBitsBound(a / 2, b / 2, bits - 1);
    }
  }

  /** Applying the same mask twice gives the value back. */
  lemma {:induction false} XorBitsCancels(a: nat, b: nat, bits: nat)
    requires a < Pow2(bits)
    ensures XorBits(XorBits(a, b, bits), b, bits) == a
    decreases bits
  {
    if bits == 0 {
    } else {
      var low := if a % 2 == b % 2 then 0 else 1;
      assert XorBits(a, b, bits) / 2 == XorBits(a / 2, b / 2, bits - 1);
      assert XorBits(a, b, bits) % 2 == low;
      XorBitsCancels(a / 2, b / 2, bits - 1);
    }
  }

  lemma Pow2Of8()
    ensures Pow2(8) == 256
  {
    assert Pow2(4) == 16;
    assert Pow2(6) == 64;
  }

  function Xor(a: byte, b: byte): (r: byte)
  {
    XorBitsBound(a, b, 8);
    Pow2Of8();
    XorBits(a, b, 8)
  }

  lemma XorCancels(a: byte, b: byte)
    ensures Xor(Xor(a, b), b) == a
  {
    Pow2Of8();
    XorBitsCancels(a, b, 8);
  }

  function XorKey(a: Key, b: Key): (r: Key)
    ensures forall i :: 0 <= i < KEY_LEN ==> r[i] == Xor(a[i], b[i])
  {
    seq(KEY_LEN, i requires 0 <= i < KEY_LEN => Xor(a[i], b[i]))
  }

  /** Bit j of n, the lowest being bit 0. */
  function Bit(n: nat, j: nat): (b: nat)
    ensures b < 2
    decreases j
  {
    if j == 0 then n % 2 else Bit(n / 2, j - 1)
  }

  /** Each bit of the exclusive or is set exactly where the two operands differ. */
  lemma {:induction false} XorBitsAt(a: nat, b: nat, bits: nat, j: nat)
    requires j < bits
    ensures Bit(XorBits(a, b, bits), j) == 1 <==> Bit(a, j) != Bit(b, j)
    decreases bits
  {
    var low := if a % 2 == b % 2 then 0 else 1;
    assert XorBits(a, b, bits) / 2 == XorBits(a / 2, b / 2, bits - 1);
    assert XorBits(a, b, bits) % 2 == low;
    if j == 0 {
    } else {
      XorBitsAt(a / 2, b / 2, bits - 1, j - 1);
    }
  }

  /** Numbers of so many bits are equal if all their bits are. */
  lemma {:induction false} BitsDetermine(a: nat, b: nat, bits: nat)
    requires a < Pow2(bits) && b < Pow2(bits)
    requires forall j: nat :: j < bits ==> Bit(a, j) == Bit(b, j)
    ensures a == b
    decreases bits
  {
    if bits == 0 {
    } else {
      assert Bit(a, 0) == Bit(b, 0);
      forall j: nat | j < bits - 1
        ensures Bit(a / 2, j) == Bit(b / 2, j)
      {
        assert Bit(a, j + 1) == Bit(b, j + 1);
      }
      BitsDetermine(a / 2, b / 2, bits - 1);
    }
  }

  /** `key` is what remains of `proof` once `mask` is taken off: a bit is set exactly where those two differ. */
  ghost predicate Unmasks(key: Key, proof: Key, mask: Key)
  {
    forall i, j: nat :: 0 <= i < KEY_LEN && j < 8 ==> (Bit(key[i], j) == 1 <==> Bit(proof[i], j) != Bit(mask[i], j))
  }

  lemma XorAt(a: byte, b: byte, j: nat)
    requires j < 8
    ensures Bit(Xor(a, b), j) == 1 <==> Bit(a, j) != Bit(b, j)
  {
    XorBitsAt(a, b, 8, j);
  }

  lemma XorDetermined(a: byte, b: byte, r: byte)
    requires forall j: nat :: j < 8 ==> (Bit(r, j) == 1 <==> Bit(a, j) != Bit(b, j))
    ensures r == Xor(a, b)
  {
    hide Xor;
    Pow2Of8();
    forall j: nat | j < 8
      ensures Bit(r, j) == Bit(Xor(a, b), j)
    {
      XorAt(a, b, j);
    }
    BitsDetermine(r, Xor(a, b), 8);
  }

  /** One key and no other remains when a mask is taken off: the exclusive or of the two. */
  lemma XorKeyUnmasks(key: Key, proof: Key, mask: Key)
    ensures Unmasks(key, proof, mask) <==> key == XorKey(proof, mask)
  {
    hide Xor, Bit;
    if Unmasks(key, proof, mask) {
      forall i | 0 <= i < KEY_LEN
        ensures key[i] == XorKey(proof, mask)[i]
      {
        XorDetermined(proof[i], mask[i], key[i]);
      }
    }
    if key == XorKey(proof, mask) {
      forall i, j: nat | 0 <= i < KEY_LEN && j < 8
        ensures Bit(key[i], j) == 1 <==> Bit(proof[i], j) != Bit(mask[i], j)
      {
        XorAt(proof[i], mask[i], j);
      }
    }
  }

  /** The mask a proof was built with also removes it. */
  lemma XorKeyCancels(a: Key, b: Key)
    ensures XorKey(XorKey(a, b), b) == a
  {
    forall i | 0 <= i < KEY_LEN
      ensures XorKey(XorKey(a, b), b)[i] == a[i]
    {
      XorCancels(a[i], b[i]);
    }
  }

  /** The octets of a C string. */
  function Octets(s: string): (r: seq<byte>)
    ensures |r| == |s|
  {
    seq(|s|, i requires 0 <= i < |s| => (s[i] as int) % 256)
  }

  /** The index of the first occurrence of `c`, or the length if there is none. */
  function IndexOf(s: string, c: char): (k: nat)
    ensures k <= |s|
    ensures k < |s| ==> s[k] == c
    ensures forall i :: 0 <= i < k ==> s[i] != c
  {
    if s == "" then 0 else if s[0] == c then 0 else 1 + IndexOf(s[1..], c)
  }
}

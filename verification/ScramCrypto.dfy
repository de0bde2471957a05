/**
 * Key derivation for SCRAM-SHA-256 (section 3 of RFC 5802). The hash and the keyed hash are
 * parameters; everything built from them is written out.
 */
module ScramCrypto {
  import opened Bytes

  datatype Crypto = Crypto(H: seq<byte> -> Key, Hmac: (seq<byte>, seq<byte>) -> Key)

  const DEFAULT_ITERATIONS := 4096

  /** U_i of Hi() in section 2.2 of RFC 5802. */
  function U(c: Crypto, password: string, salt: seq<byte>, i: nat): (r: Key)
  {
    if i <= 1 then c.Hmac(Octets(password), salt + [0, 0, 0, 1])
    else c.Hmac(Octets(password), U(c, password, salt, i - 1))
  }

  /** U_1 XOR U_2 XOR ... XOR U_i. */
  function Hi(c: Crypto, password: string, salt: seq<byte>, i: int): (r: Key)
    decreases i
  {
    if i <= 1 then U(c, password, salt, 1)
    else XorKey(Hi(c, password, salt, i - 1), U(c, password, salt, i))
  }

  method XorInto(dst: array<byte>, mask: Key)
    requires dst.Length == KEY_LEN
    modifies dst
    ensures dst[..] == XorKey(old(dst[..]), mask)
  {
    hide Xor;
    for j := 0 to KEY_LEN
      invariant forall k :: 0 <= k < j ==> dst[k] == Xor(old(dst[k]), mask[k])
      invariant forall k :: j <= k < KEY_LEN ==> dst[k] == old(dst[k])
    {
      dst[j] := Xor(dst[j], mask[j]);
    }
  }

  method CopyKey(k: Key) returns (a: array<byte>)
    ensures fresh(a) && a.Length == KEY_LEN && a[..] == k
  {
    a := new byte[KEY_LEN](i requires 0 <= i < KEY_LEN => k[i]);
  }

  /** The iterated hash, accumulated in place. */
  method SaltedPassword(c: Crypto, password: string, salt: seq<byte>, iterations: int) returns (r: Key)
    ensures r == Hi(c, password, salt, iterations)
  {
    hide XorKey, Octets, Xor;
    var prev := c.Hmac(Octets(password), salt + [0, 0, 0, 1]);
    var result := CopyKey(prev);
    var i := 2;
    while i <= iterations
      invariant 2 <= i && (i <= iterations + 1 || i == 2)
      invariant prev == U(c, password, salt, i - 1)
      invariant result[..] == Hi(c, password, salt, i - 1)
    {
      prev := c.Hmac(Octets(password), prev);
      XorInto(result, prev);
      i := i + 1;
    }
    r := result[..];
  }

  function ClientKey(c: Crypto, salted: Key): (r: Key)
  {
    c.Hmac(salted, Octets("Client Key"))
  }

  function ServerKey(c: Crypto, salted: Key): (r: Key)
  {
    c.Hmac(salted, Octets("Server Key"))
  }

  function StoredKey(c: Crypto, salted: Key): (r: Key)
  {
    c.H(ClientKey(c, salted))
  }

  /** The text both ends sign. */
  function AuthMessage(clientFirstBare: string, serverFirst: string, withoutProof: string): (r: string)
  {
    clientFirstBare + "," + serverFirst + "," + withoutProof
  }

  function Signature(c: Crypto, key: Key, auth: string): (r: Key)
  {
    c.Hmac(key, Octets(auth))
  }

  function ClientProof(c: Crypto, salted: Key, auth: string): (r: Key)
  {
    XorKey(ClientKey(c, salted), Signature(c, StoredKey(c, salted), auth))
  }

  /** What the server tests: the proof, unmasked, must hash to the stored key. */
  predicate ProofAccepted(c: Crypto, stored: Key, auth: string, proof: Key)
  {
    c.H(XorKey(proof, Signature(c, stored, auth))) == stored
  }

  /** The proof of the password's owner unmasks to the client key, so it is accepted. */
  lemma OwnProofAccepted(c: Crypto, salted: Key, auth: string)
    ensures ProofAccepted(c, StoredKey(c, salted), auth, ClientProof(c, salted, auth))
  {
    XorKeyCancels(ClientKey(c, salted), Signature(c, StoredKey(c, salted), auth));
  }
}

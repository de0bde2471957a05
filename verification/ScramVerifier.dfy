/** The stored verifier string: how it is built from a password and read back with strtok. */
module ScramVerifier {
  import opened Bytes
  import opened Decimals
  import opened ScramCrypto
  import Base64

  const SCHEME := "SCRAM-SHA-256"

  datatype Verifier = Verifier(iterations: int, salt: string, storedKey: Key, serverKey: Key)

  function SkipChar(s: string, d: char): (r: string)
  {
    if s != "" && s[0] == d then SkipChar(s[1..], d) else s
  }

  /** strtok with one delimiter: leading delimiters are skipped, so a token is never empty. */
  function Token(s: string, d: char): (r: Option<(string, string)>)
    ensures r.Some? ==> r.value.0 != ""
  {
    var t := SkipChar(s, d);
    if t == "" then None
    else
      assert t[0] != d by { SkipCharStops(s, d); }
      var k := IndexOf(t, d);
      Some((t[..k], if k < |t| then t[k + 1..] else ""))
  }

  lemma {:induction false} SkipCharStops(s: string, d: char)
    ensures SkipChar(s, d) == "" || SkipChar(s, d)[0] != d
    decreases |s|
  {
    if s == "" || s[0] != d {
    } else {
      SkipCharStops(s[1..], d);
    }
  }

  function KeyOf(s: string): (r: Option<Key>)
  {
    match Base64.Decoded(s)
    case None => None
    case Some(k) => if |k| == KEY_LEN then Some(k) else None
  }

  /** The five fields of the verifier, cut by strtok at '$', ':', '$' and ':'. */
  datatype Fields = Fields(scheme: string, iterations: string, salt: string, storedKey: string, serverKey: string)

  function Split(v: string): (r: Option<Fields>)
  {
    match Token(v, '$')
    case None => None
    case Some((scheme, r1)) =>
      match Token(r1, ':')
      case None => None
      case Some((iterations, r2)) =>
        match Token(r2, '$')
        case None => None
        case Some((salt, r3)) =>
          match Token(r3, ':')
          case None => None
          case Some((storedKey, serverKey)) =>
            if serverKey == "" then None else Some(Fields(scheme, iterations, salt, storedKey, serverKey))
  }

  function Parse(v: string): (r: Option<Verifier>)
  {
    match Split(v)
    case None => None
    case Some(f) =>
      var n := Strtol(f.iterations);
      if f.scheme != SCHEME || n.rest != "" || n.overflow || Base64.Decoded(f.salt).None? then None
      else
        match (KeyOf(f.storedKey), KeyOf(f.serverKey))
        case (Some(storedKey), Some(serverKey)) => Some(Verifier(ToInt(n.value), f.salt, storedKey, serverKey))
        case _ => None
  }

  function Iterations(n: int): (r: int)
    ensures r > 0
  {
    if n <= 0 then DEFAULT_ITERATIONS else n
  }

  function Build(c: Crypto, password: string, salt: seq<byte>, iterations: int): (v: string)
  {
    var salted := Hi(c, password, salt, Iterations(iterations));
    Text(Iterations(iterations), salt, StoredKey(c, salted), ServerKey(c, salted))
  }

  function Text(iterations: nat, salt: seq<byte>, storedKey: Key, serverKey: Key): (v: string)
  {
    SCHEME + "$" + Decimal(iterations) + ":" + Base64.Encoded(salt) + "$"
    + Base64.Encoded(storedKey) + ":" + Base64.Encoded(serverKey)
  }

  predicate Free(s: string, d: char)
  {
    forall i :: 0 <= i < |s| ==> s[i] != d
  }

  lemma TokenPrinted(t: string, d: char, rest: string)
    requires t != "" && Free(t, d)
    ensures Token(t + [d] + rest, d) == Some((t, rest))
    ensures Token(t, d) == Some((t, ""))
  {
    var s := t + [d] + rest;
    assert s[0] == t[0] && s[|t|] == d;
    assert IndexOf(s, d) == |t|;
    assert s[..|t|] == t && s[|t| + 1..] == rest;
    assert IndexOf(t, d) == |t| && t[..|t|] == t;
  }

  lemma EncodedFree(s: seq<byte>)
    ensures Free(Base64.Encoded(s), '$') && Free(Base64.Encoded(s), ':')
    ensures s != [] ==> Base64.Encoded(s) != ""
  {
    Base64.EncodedShape(s);
    var e := Base64.Encoded(s);
    forall i | 0 <= i < |e|
      ensures e[i] != '$' && e[i] != ':'
    {
      assert e[i] in e;
    }
  }

  lemma DecimalFree(n: nat)
    ensures Free(Decimal(n), '$') && Free(Decimal(n), ':')
  {
    var e := Decimal(n);
    forall i | 0 <= i < |e|
      ensures e[i] != '$' && e[i] != ':'
    {
      assert e[i] in e;
    }
  }

  /** The text as strtok meets it, one field at a time. */
  lemma TextLayout(iterations: nat, salt: seq<byte>, storedKey: Key, serverKey: Key)
    ensures Text(iterations, salt, storedKey, serverKey)
         == SCHEME + ['$'] + (Decimal(iterations) + [':'] + (Base64.Encoded(salt) + ['$']
            + (Base64.Encoded(storedKey) + [':'] + Base64.Encoded(serverKey))))
  {
    hide Decimal, Base64.Encoded;
  }

  lemma SplitText(iterations: nat, salt: seq<byte>, storedKey: Key, serverKey: Key)
    ensures Split(Text(iterations, salt, storedKey, serverKey))
         == if salt == [] then None
            else Some(Fields(SCHEME, Decimal(iterations), Base64.Encoded(salt),
                             Base64.Encoded(storedKey), Base64.Encoded(serverKey)))
  {
    hide Token, Text, Decimal, Base64.Encoded;
    var n, a, b, d := Decimal(iterations), Base64.Encoded(salt), Base64.Encoded(storedKey), Base64.Encoded(serverKey);
    EncodedFree(salt);
    EncodedFree(storedKey);
    EncodedFree(serverKey);
    DecimalFree(iterations);
    TextLayout(iterations, salt, storedKey, serverKey);
    var r3 := b + [':'] + d;
    var r2 := a + ['$'] + r3;
    var r1 := n + [':'] + r2;
    assert Free(SCHEME, '$');
    TokenPrinted(SCHEME, '$', r1);
    TokenPrinted(n, ':', r2);
    if salt == [] {
      EmptySaltText(salt);
      EmptyToken(r3);
      assert Free(r3, '$');
      assert r2 == ['$'] + r3;
      TokenPrinted(r3, '$', "");
      EmptyRest();
    } else {
      TokenPrinted(a, '$', r3);
      TokenPrinted(b, ':', d);
    }
  }

  lemma EmptySaltText(salt: seq<byte>)
    requires salt == []
    ensures Base64.Encoded(salt) == ""
  {
  }

  /** With nothing between two delimiters strtok runs on to the next token. */
  lemma EmptyToken(rest: string)
    ensures Token(['$'] + rest, '$') == Token(rest, '$')
  {
    hide IndexOf;
    assert (['$'] + rest)[1..] == rest;
  }

  lemma EmptyRest()
    ensures Token("", ':') == None
  {
  }

  /**
   * A verifier is read back exactly when its salt is not empty: strtok skips the empty salt field,
   * takes the keys for the salt, and finds no key after them.
   */
  lemma ParseBuilt(c: Crypto, password: string, salt: seq<byte>, iterations: int)
    requires iterations <= INT_MAX
    ensures var n := Iterations(iterations);
            var salted := Hi(c, password, salt, n);
            Parse(Build(c, password, salt, iterations))
            == if salt == [] then None
               else Some(Verifier(n, Base64.Encoded(salt), StoredKey(c, salted), ServerKey(c, salted)))
  {
    hide Split, Text, Strtol, Decimal, Hi, Base64.Encoded, Base64.Decoded, StoredKey, ServerKey;
    var n := Iterations(iterations);
    var salted := Hi(c, password, salt, n);
    SplitText(n, salt, StoredKey(c, salted), ServerKey(c, salted));
    StrtolOfDecimal(n);
    Base64.RoundTrip(salt);
    Base64.RoundTrip(StoredKey(c, salted));
    Base64.RoundTrip(ServerKey(c, salted));
  }
}

/**
 * The four SCRAM messages (sections 5 and 7 of RFC 5802): the printers, the attribute readers
 * that cut their buffer in place, and the parsers built on them.
 */
module ScramMessages {
  import opened Bytes
  import opened Decimals
  import Base64

  predicate IsLetter(c: char)
  {
    'A' <= c <= 'Z' || 'a' <= c <= 'z'
  }

  /** Printable ASCII except the comma. */
  predicate Printable(s: string)
  {
    forall i :: 0 <= i < |s| ==> 0x21 as char <= s[i] <= 0x7E as char && s[i] != ','
  }

  /** One attribute taken off the front: its value up to the comma, and what follows the comma. */
  function TakeValue(s: string): (r: (string, string))
    ensures |r.0| + |r.1| <= |s|
  {
    var k := IndexOf(s, ',');
    (s[..k], if k < |s| then s[k + 1..] else "")
  }

  /** Reads `attr=value`; any other beginning is an error. */
  function ReadAttr(s: string, attr: char): (r: Result<(string, string)>)
    ensures r.Ok? ==> |r.value.1| < |s|
  {
    if |s| < 2 || s[0] != attr || s[1] != '=' then Err else Ok(TakeValue(s[2..]))
  }

  /** Reads an attribute of any letter. */
  function ReadAnyAttr(s: string): (r: Result<(char, string, string)>)
    ensures r.Ok? ==> |r.value.2| < |s|
  {
    if |s| < 2 || !IsLetter(s[0]) || s[1] != '=' then Err
    else var (v, rest) := TakeValue(s[2..]); Ok((s[0], v, rest))
  }

  /** Extensions after the known attributes are read and ignored. */
  function SkipAttrs(s: string): (r: Result<()>)
    decreases |s|
  {
    if s == "" then Ok(()) else
    var (_, _, rest) :- ReadAnyAttr(s);
    SkipAttrs(rest)
  }

  // ----- client-first-message

  datatype ClientFirst = ClientFirst(flag: char, bare: string, username: string, nonce: string)

  function ParseClientFirst(input: string): (r: Result<ClientFirst>)
  {
    if |input| < 3 then Err
    else if input[0] != 'n' && input[0] != 'y' then Err
    else if input[1] != ',' || input[2] != ',' then Err
    else
      var bare := input[3..];
      if bare != "" && bare[0] == 'm' then Err else
      var (username, r1) :- ReadAttr(bare, 'n');
      var (nonce, r2) :- ReadAttr(r1, 'r');
      if !Printable(nonce) then Err else
      var _ :- SkipAttrs(r2);
      Ok(ClientFirst(input[0], bare, username, nonce))
  }

  function PrintClientFirst(nonce: string): (s: string)
  {
    "n,,n=,r=" + nonce
  }

  // ----- server-first-message

  datatype ServerFirst = ServerFirst(nonce: string, salt: seq<byte>, iterations: int)

  function PrintServerFirst(clientNonce: string, serverNonce: string, salt: string, iterations: int): (s: string)
    requires -INT_MAX - 1 <= iterations <= INT_MAX
  {
    "r=" + clientNonce + serverNonce + ",s=" + salt + ",i=" + Unsigned(iterations)
  }

  /**
   * The client's reading. Trailing garbage only draws a warning, and a salt that does not decode
   * leaves a saltlen of -1 that nobody tests; the model reads such a salt as an error.
   */
  function ParseServerFirst(input: string, clientNonce: string): (r: Result<ServerFirst>)
  {
    var (nonce, r1) :- ReadAttr(input, 'r');
    if !(clientNonce <= nonce) then Err else
    var (encodedSalt, r2) :- ReadAttr(r1, 's');
    var (count, r3) :- ReadAttr(r2, 'i');
    var n := Strtol(count);
    if n.rest != "" || ToInt(n.value) < 1 then Err else
    match Base64.Decoded(encodedSalt)
    case None => Err
    case Some(salt) => Ok(ServerFirst(nonce, salt, ToInt(n.value)))
  }

  // ----- client-final-message

  datatype ClientFinal = ClientFinal(nonce: string, withoutProof: string, proof: Key)

  function PrintWithoutProof(nonce: string): (s: string)
  {
    "c=biws,r=" + nonce
  }

  function PrintClientFinal(nonce: string, proof: Key): (s: string)
  {
    PrintWithoutProof(nonce) + ",p=" + Base64.Encoded(proof)
  }

  /** The channel-binding attribute must encode the header the client opened with. */
  predicate BindingMatches(binding: string, flag: char)
  {
    (binding == "biws" && flag == 'n') || (binding == "eSws" && flag == 'y')
  }

  /** Skips extensions up to the proof: the text from the proof on, its value, and what follows. */
  function FindProof(s: string): (r: Result<(string, string, string)>)
    ensures r.Ok? ==> |r.value.0| <= |s| && s[|s| - |r.value.0|..] == r.value.0
    decreases |s|
  {
    var (attr, value, rest) :- ReadAnyAttr(s);
    if attr == 'p' then Ok((s, value, rest))
    else
      SuffixOfRest(s);
      var r := FindProof(rest);
      SuffixJoins(s, rest, if r.Ok? then r.value.0 else "");
      r
  }

  lemma SuffixJoins(s: string, rest: string, t: string)
    requires |rest| <= |s| && s[|s| - |rest|..] == rest
    requires |t| <= |rest| && rest[|rest| - |t|..] == t
    ensures s[|s| - |t|..] == t
  {
  }

  lemma SuffixOfRest(s: string)
    requires ReadAnyAttr(s).Ok?
    ensures var rest := ReadAnyAttr(s).value.2; s[|s| - |rest|..] == rest
  {
    var k := IndexOf(s[2..], ',');
    if k < |s[2..]| {
      assert s[2..][k + 1..] == s[2 + k + 1..];
    }
  }

  /** The channel binding and the nonce: the nonce and what follows it. */
  function FinalHeader(input: string, flag: char): (r: Result<(string, string)>)
    ensures r.Ok? ==> |r.value.1| + 1 < |input|
  {
    var (binding, rest) :- ReadAttr(input, 'c');
    if !BindingMatches(binding, flag) then Err else ReadAttr(rest, 'r')
  }

  /** The proof that ends the message: the text from it on, and its 32 octets. */
  function FinalProof(s: string): (r: Result<(string, Key)>)
    ensures r.Ok? ==> |r.value.0| <= |s|
  {
    var (from, value, rest) :- FindProof(s);
    match Base64.Decoded(value)
    case None => Err
    case Some(proof) => if |proof| != KEY_LEN || rest != "" then Err else Ok((from, proof))
  }

  function ParseClientFinal(input: string, flag: char): (r: Result<ClientFinal>)
  {
    var (nonce, rest) :- FinalHeader(input, flag);
    var (from, proof) :- FinalProof(rest);
    Ok(ClientFinal(nonce, input[..|input| - |from| - 1], proof))
  }

  // ----- server-final-message

  function PrintServerFinal(signature: Key): (s: string)
  {
    "v=" + Base64.Encoded(signature)
  }

  function ParseServerFinal(input: string): (r: Result<Key>)
  {
    var (value, _) :- ReadAttr(input, 'v');
    match Base64.Decoded(value)
    case None => Err
    case Some(signature) => if |signature| != KEY_LEN then Err else Ok(signature)
  }

  // ----- what an accepted message looks like

  /** Binding, nonce and skipped extensions, before the proof. */
  ghost predicate FinalLayout(withoutProof: string, nonce: string, flag: char)
  {
    exists binding, extensions ::
      BindingMatches(binding, flag) && withoutProof == HeaderText(binding, nonce) + extensions
  }

  lemma ReadAttrText(s: string, attr: char)
    requires ReadAttr(s, attr).Ok?
    ensures var (v, rest) := ReadAttr(s, attr).value;
            && CommaFree(v)
            && (s == [attr, '='] + v + "," + rest || (rest == "" && s == [attr, '='] + v))
  {
    var body := s[2..];
    assert s == [attr, '='] + body;
    var k := IndexOf(body, ',');
    if k < |body| {
      assert body == body[..k] + "," + body[k + 1..];
    }
  }

  lemma ReadAnyAttrText(s: string)
    requires ReadAnyAttr(s).Ok?
    ensures var (attr, v, rest) := ReadAnyAttr(s).value; ReadAttr(s, attr) == Ok((v, rest))
  {
  }

  lemma AnyAttrLayout(s: string)
    requires ReadAnyAttr(s).Ok?
    ensures var (attr, v, rest) := ReadAnyAttr(s).value;
            && (rest != "" ==> s == [attr, '='] + v + "," + rest)
            && (rest == "" ==> s == [attr, '='] + v || s == [attr, '='] + v + ",")
  {
    hide ReadAttr;
    ReadAnyAttrText(s);
    var (attr, v, rest) := ReadAnyAttr(s).value;
    ReadAttrText(s, attr);
    if rest == "" {
      assert [attr, '='] + v + "," + "" == [attr, '='] + v + ",";
    }
  }

  lemma {:induction false} FindProofText(s: string)
    requires FindProof(s).Ok?
    ensures var (from, value, rest) := FindProof(s).value;
            && (rest == "" ==> from == "p=" + value || from == "p=" + value + ",")
            && (|from| < |s| ==> s[|s| - |from| - 1] == ',')
    decreases |s|
  {
    hide ReadAnyAttr;
    var (attr, value, rest) := ReadAnyAttr(s).value;
    AnyAttrLayout(s);
    if attr == 'p' {
    } else {
      FindProofText(rest);
      FindProofNonEmpty(rest);
      CommaBefore(s, attr, value, rest, |FindProof(rest).value.0|);
    }
  }

  lemma FindProofNonEmpty(s: string)
    requires FindProof(s).Ok?
    ensures s != ""
  {
  }

  lemma CommaBefore(s: string, attr: char, value: string, rest: string, k: nat)
    requires s == [attr, '='] + value + "," + rest && k <= |rest|
    requires k < |rest| ==> rest[|rest| - k - 1] == ','
    ensures s[|s| - k - 1] == ','
  {
  }

  lemma FinalHeaderText(input: string, flag: char)
    requires FinalHeader(input, flag).Ok? && FinalHeader(input, flag).value.1 != ""
    ensures var (nonce, rest) := FinalHeader(input, flag).value;
            exists binding :: BindingMatches(binding, flag) && input == HeaderText(binding, nonce) + "," + rest
  {
    hide ReadAttr, BindingMatches;
    var (binding, r1) := ReadAttr(input, 'c').value;
    var (nonce, r2) := ReadAttr(r1, 'r').value;
    ReadAttrText(input, 'c');
    ReadAttrText(r1, 'r');
    assert input == HeaderText(binding, nonce) + "," + r2;
  }

  function HeaderText(binding: string, nonce: string): (s: string)
  {
    "c=" + binding + ",r=" + nonce
  }

  /** The proof as written: its octets in base64, and at most one comma after them. */
  ghost predicate ProofText(from: string, proof: Key)
  {
    exists value :: Base64.Decoded(value) == Some(proof) && (from == "p=" + value || from == "p=" + value + ",")
  }

  lemma FinalProofText(s: string)
    requires FinalProof(s).Ok?
    ensures var (from, proof) := FinalProof(s).value;
            && ProofText(from, proof)
            && s != ""
            && (|from| < |s| ==> s[|s| - |from| - 1] == ',')
            && s[|s| - |from|..] == from
  {
    hide FindProof, Base64.Decoded;
    FindProofText(s);
    FindProofNonEmpty(s);
  }

  /**
   * An accepted final message is its signed part, a comma, and the proof; the signed part opens
   * with the matching channel binding and the nonce.
   */
  lemma ClientFinalText(input: string, flag: char)
    requires ParseClientFinal(input, flag).Ok?
    ensures var m := ParseClientFinal(input, flag).value;
            && FinalLayout(m.withoutProof, m.nonce, flag)
            && exists from :: ProofText(from, m.proof) && input == m.withoutProof + "," + from
  {
    hide FinalHeader, FinalProof, BindingMatches, HeaderText, ProofText;
    var m := ParseClientFinal(input, flag).value;
    var (nonce, rest) := FinalHeader(input, flag).value;
    var (from, proof) := FinalProof(rest).value;
    FinalProofText(rest);
    FinalHeaderText(input, flag);
    var binding :| BindingMatches(binding, flag) && input == HeaderText(binding, nonce) + "," + rest;
    var extensions := SignedPrefix(HeaderText(binding, nonce), rest, from, input);
    assert m.withoutProof == HeaderText(binding, nonce) + extensions;
  }

  lemma SignedPrefix(head: string, rest: string, from: string, input: string) returns (extensions: string)
    requires input == head + "," + rest
    requires |from| <= |rest| && rest[|rest| - |from|..] == from
    requires |from| < |rest| ==> rest[|rest| - |from| - 1] == ','
    ensures input[..|input| - |from| - 1] == head + extensions
    ensures input == head + extensions + "," + from
  {
    extensions := ("," + rest)[..|rest| - |from|];
    assert "," + rest == extensions + "," + from;
  }

  // ----- each parser recovers what the other end printed

  predicate CommaFree(s: string)
  {
    forall i :: 0 <= i < |s| ==> s[i] != ','
  }

  lemma {:induction false} IndexOfComma(v: string, rest: string)
    requires CommaFree(v)
    ensures IndexOf(v, ',') == |v|
    ensures IndexOf(v + "," + rest, ',') == |v|
  {
    var s := v + "," + rest;
    if v == "" {
      assert s[0] == ',';
    } else {
      assert s[0] == v[0] && s[1..] == v[1..] + "," + rest;
      IndexOfComma(v[1..], rest);
    }
  }

  lemma TakeValuePrinted(v: string, rest: string)
    requires CommaFree(v)
    ensures TakeValue(v) == (v, "")
    ensures TakeValue(v + "," + rest) == (v, rest)
  {
    IndexOfComma(v, rest);
    var s := v + "," + rest;
    assert s[..|v|] == v && s[|v| + 1..] == rest;
    assert v[..|v|] == v;
  }

  lemma ReadAttrPrinted(attr: char, v: string, rest: string)
    requires CommaFree(v)
    ensures ReadAttr([attr] + "=" + v, attr) == Ok((v, ""))
    ensures ReadAttr([attr] + "=" + v + "," + rest, attr) == Ok((v, rest))
  {
    TakeValuePrinted(v, rest);
    assert ([attr] + "=" + v)[2..] == v;
    assert ([attr] + "=" + v + "," + rest)[2..] == v + "," + rest;
  }

  lemma Base64CommaFree(s: seq<byte>)
    ensures CommaFree(Base64.Encoded(s)) && Printable(Base64.Encoded(s))
  {
    Base64.EncodedShape(s);
    var e := Base64.Encoded(s);
    forall i | 0 <= i < |e|
      ensures 0x21 as char <= e[i] <= 0x7E as char && e[i] != ','
    {
      assert e[i] in e;
    }
  }

  lemma ClientFirstRoundTrip(nonce: string)
    requires Printable(nonce)
    ensures ParseClientFirst(PrintClientFirst(nonce)) == Ok(ClientFirst('n', "n=,r=" + nonce, "", nonce))
  {
    hide ReadAttr;
    var input := PrintClientFirst(nonce);
    var bare := "n=,r=" + nonce;
    assert input[3..] == bare;
    assert bare == ['n'] + "=" + "" + "," + ("r=" + nonce);
    ReadAttrPrinted('n', "", "r=" + nonce);
    assert "r=" + nonce == ['r'] + "=" + nonce;
    ReadAttrPrinted('r', nonce, "");
  }

  lemma ServerFirstText(clientNonce: string, serverNonce: string, salt: string, iterations: int)
    requires 1 <= iterations <= INT_MAX
    ensures PrintServerFirst(clientNonce, serverNonce, salt, iterations)
         == ['r'] + "=" + (clientNonce + serverNonce) + "," + (['s'] + "=" + salt + "," + (['i'] + "=" + Decimal(iterations)))
  {
    hide Decimal;
  }

  lemma ServerFirstRoundTrip(clientNonce: string, serverNonce: string, salt: seq<byte>, iterations: int)
    requires CommaFree(clientNonce) && CommaFree(serverNonce)
    requires 1 <= iterations <= INT_MAX
    ensures ParseServerFirst(PrintServerFirst(clientNonce, serverNonce, Base64.Encoded(salt), iterations), clientNonce)
         == Ok(ServerFirst(clientNonce + serverNonce, salt, iterations))
  {
    hide ReadAttr, Strtol, Base64.Encoded, Base64.Decoded, PrintServerFirst, Decimal;
    var s, n := Base64.Encoded(salt), Decimal(iterations);
    var nonce := clientNonce + serverNonce;
    var r2 := ['i'] + "=" + n;
    var r1 := ['s'] + "=" + s + "," + r2;
    ServerFirstText(clientNonce, serverNonce, s, iterations);
    ReadAttrPrinted('r', nonce, r1);
    Base64CommaFree(salt);
    ReadAttrPrinted('s', s, r2);
    assert CommaFree(n) by {
      forall i | 0 <= i < |n| ensures n[i] != ',' { assert n[i] in n; }
    }
    ReadAttrPrinted('i', n, "");
    StrtolOfDecimal(iterations);
    Base64.RoundTrip(salt);
    assert clientNonce <= nonce;
  }

  lemma PrintedFinalText(nonce: string, proof: Key)
    ensures var p := ['p'] + "=" + Base64.Encoded(proof);
            var input := PrintClientFinal(nonce, proof);
            && input == ['c'] + "=" + "biws" + "," + (['r'] + "=" + nonce + "," + p)
            && |p| + 1 <= |input| && input[..|input| - |p| - 1] == PrintWithoutProof(nonce)
  {
    hide Base64.Encoded;
  }

  lemma ClientFinalRoundTrip(nonce: string, proof: Key)
    requires CommaFree(nonce)
    ensures ParseClientFinal(PrintClientFinal(nonce, proof), 'n')
         == Ok(ClientFinal(nonce, PrintWithoutProof(nonce), proof))
  {
    hide ReadAttr, Base64.Encoded, Base64.Decoded, PrintClientFinal, PrintWithoutProof;
    var p := Base64.Encoded(proof);
    var r2 := ['p'] + "=" + p;
    var r1 := ['r'] + "=" + nonce + "," + r2;
    var input := PrintClientFinal(nonce, proof);
    assert CommaFree("biws");
    PrintedFinalText(nonce, proof);
    ReadAttrPrinted('c', "biws", r1);
    ReadAttrPrinted('r', nonce, r2);
    Base64CommaFree(proof);
    TakeValuePrinted(p, "");
    assert r2[2..] == p;
    assert FindProof(r2) == Ok((r2, p, ""));
    Base64.RoundTrip(proof);
  }

  lemma ServerFinalRoundTrip(signature: Key)
    ensures ParseServerFinal(PrintServerFinal(signature)) == Ok(signature)
  {
    hide ReadAttr;
    var v := Base64.Encoded(signature);
    Base64CommaFree(signature);
    ReadAttrPrinted('v', v, "");
    assert PrintServerFinal(signature) == ['v'] + "=" + v;
    Base64.RoundTrip(signature);
  }
}

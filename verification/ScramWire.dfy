/** The exchange in terms of the texts on the wire, the hash and the keyed hash, and nothing else. */
module ScramWire {
  import opened Bytes
  import opened Decimals
  import opened ScramCrypto
  import opened ScramMessages
  import ScramReaders
  import ScramVerifier
  import Server = ScramServer
  import Client = ScramClient
  import P = ScramProtocol
  import Runs = ScramClientRuns
  import Base64

  // ----- the iterated hash

  /** How many of the keys have bit j of octet i set. */
  function Ones(us: seq<Key>, i: nat, j: nat): (n: nat)
    requires i < KEY_LEN
  {
    if us == [] then 0 else Ones(us[..|us| - 1], i, j) + Bit(us[|us| - 1][i], j)
  }

  /** The chain of keyed hashes: salt and a block number first, then each the hash of the one before. */
  ghost predicate Chain(c: Crypto, password: string, salt: seq<byte>, us: seq<Key>)
  {
    && |us| > 0
    && us[0] == c.Hmac(Octets(password), salt + [0, 0, 0, 1])
    && forall k :: 0 < k < |us| ==> us[k] == c.Hmac(Octets(password), us[k - 1])
  }

  lemma {:induction false} ChainIsU(c: Crypto, password: string, salt: seq<byte>, us: seq<Key>, k: nat)
    requires Chain(c, password, salt, us) && k < |us|
    ensures us[k] == U(c, password, salt, k + 1)
  {
    if k == 0 {
    } else {
      ChainIsU(c, password, salt, us, k - 1);
    }
  }

  /** A bit of the salted password is set exactly when an odd number of the chain has it set. */
  lemma {:induction false} SaltedPasswordMeans(c: Crypto, password: string, salt: seq<byte>, us: seq<Key>, i: nat, j: nat)
    requires Chain(c, password, salt, us) && i < KEY_LEN && j < 8
    ensures Bit(Hi(c, password, salt, |us|)[i], j) == Ones(us, i, j) % 2
    decreases |us|
  {
    hide U, Bit, Xor;
    var n := |us|;
    ChainIsU(c, password, salt, us, n - 1);
    if n == 1 {
      assert us[..0] == [];
    } else {
      SaltedPasswordMeans(c, password, salt, us[..n - 1], i, j);
      XorAt(Hi(c, password, salt, n - 1)[i], U(c, password, salt, n)[i], j);
    }
  }

  // ----- the messages that are accepted

  /** Attributes one after the other, each a letter, an equals sign and a value without commas. */
  ghost predicate Attributes(s: string)
    decreases |s|
  {
    || s == ""
    || (|s| >= 2 && IsLetter(s[0]) && s[1] == '=' && CommaFree(s[2..]))
    || exists k :: 2 <= k < |s| && IsLetter(s[0]) && s[1] == '=' && s[k] == ',' && CommaFree(s[2..k]) && Attributes(s[k + 1..])
  }

  lemma AttributesFrom(s: string, k: nat)
    requires 2 <= k <= |s| && IsLetter(s[0]) && s[1] == '=' && CommaFree(s[2..k])
    requires k < |s| ==> s[k] == ',' && Attributes(s[k + 1..])
    ensures Attributes(s)
  {
    hide CommaFree, IsLetter;
    if k == |s| {
      assert s[2..k] == s[2..];
    }
  }

  lemma {:induction false} SkippedAttributes(s: string)
    requires SkipAttrs(s).Ok?
    ensures Attributes(s)
    decreases |s|
  {
    if s == "" {
    } else {
      hide Attributes;
      var k := IndexOf(s[2..], ',');
      assert s[2..k + 2] == s[2..][..k];
      if k < |s| - 2 {
        assert s[2..][k + 1..] == s[k + 3..];
        SkippedAttributes(s[k + 3..]);
      }
      AttributesFrom(s, k + 2);
    }
  }

  lemma {:induction false} AttributesSkipped(s: string)
    requires Attributes(s)
    ensures SkipAttrs(s).Ok?
    decreases |s|
  {
    hide ReadAnyAttr;
    if s == "" {
    } else if CommaFree(s[2..]) {
      LastAttribute(s);
      assert SkipAttrs("").Ok?;
    } else {
      var k :| 2 <= k < |s| && s[k] == ',' && CommaFree(s[2..k]) && Attributes(s[k + 1..]);
      FirstAttribute(s, k);
      AttributesSkipped(s[k + 1..]);
    }
  }

  lemma LastAttribute(s: string)
    requires |s| >= 2 && IsLetter(s[0]) && s[1] == '=' && CommaFree(s[2..])
    ensures ReadAnyAttr(s) == Ok((s[0], s[2..], ""))
  {
    TakeValuePrinted(s[2..], "");
  }

  lemma FirstAttribute(s: string, k: nat)
    requires 2 <= k < |s| && IsLetter(s[0]) && s[1] == '=' && s[k] == ',' && CommaFree(s[2..k])
    ensures ReadAnyAttr(s) == Ok((s[0], s[2..k], s[k + 1..]))
  {
    hide TakeValue;
    assert s[2..] == s[2..k] + "," + s[k + 1..];
    TakeValuePrinted(s[2..k], s[k + 1..]);
  }

  /** An accepted opening is a flag for no channel binding, the name, a printable nonce, and extensions. */
  lemma OpeningText(input: string)
    requires ParseClientFirst(input).Ok?
    ensures var m := ParseClientFirst(input).value;
            && (m.flag == 'n' || m.flag == 'y')
            && input == [m.flag] + ",," + m.bare
            && CommaFree(m.username) && Printable(m.nonce)
            && exists rest :: Attributes(rest)
                 && (m.bare == "n=" + m.username + ",r=" + m.nonce + "," + rest
                     || (rest == "" && m.bare == "n=" + m.username + ",r=" + m.nonce))
  {
    hide ReadAttr, SkipAttrs, Attributes;
    var m := ParseClientFirst(input).value;
    var (username, r1) := ReadAttr(m.bare, 'n').value;
    var (nonce, r2) := ReadAttr(r1, 'r').value;
    ReadAttrText(m.bare, 'n');
    ReadAttrText(r1, 'r');
    SkippedAttributes(r2);
    assert input == [m.flag] + ",," + m.bare;
    if r1 == ['r', '='] + nonce + "," + r2 {
      assert m.bare == "n=" + username + ",r=" + nonce + "," + r2;
    } else {
      assert m.bare == "n=" + username + ",r=" + nonce;
    }
  }

  /** Every such text is accepted, and its parts are what it is read as. */
  lemma OpeningAccepted(flag: char, username: string, nonce: string, rest: string, extended: bool)
    requires (flag == 'n' || flag == 'y') && CommaFree(username) && Printable(nonce) && Attributes(rest)
    requires !extended ==> rest == ""
    ensures var bare := "n=" + username + ",r=" + nonce + (if extended then "," + rest else "");
            ParseClientFirst([flag] + ",," + bare) == Ok(ClientFirst(flag, bare, username, nonce))
  {
    hide ReadAttr, SkipAttrs, Attributes;
    var tail := "r=" + nonce + (if extended then "," + rest else "");
    var bare := "n=" + username + ",r=" + nonce + (if extended then "," + rest else "");
    var input := [flag] + ",," + bare;
    assert input[3..] == bare;
    assert bare == ['n'] + "=" + username + "," + tail;
    ReadAttrPrinted('n', username, tail);
    assert tail == if extended then ['r'] + "=" + nonce + "," + rest else ['r'] + "=" + nonce;
    ReadAttrPrinted('r', nonce, rest);
    AttributesSkipped(rest);
  }

  /** An accepted challenge: a nonce that extends the client's, a salt that decodes, a count of at least one. */
  lemma ChallengeText(input: string, clientNonce: string)
    requires ParseServerFirst(input, clientNonce).Ok?
    ensures var m := ParseServerFirst(input, clientNonce).value;
            && clientNonce <= m.nonce && CommaFree(m.nonce)
            && m.iterations >= 1
            && exists salt, count, rest ::
                 && Base64.Decoded(salt) == Some(m.salt)
                 && Strtol(count).rest == "" && ToInt(Strtol(count).value) == m.iterations
                 && CommaFree(salt) && CommaFree(count)
                 && (input == "r=" + m.nonce + ",s=" + salt + ",i=" + count + "," + rest
                     || (rest == "" && input == "r=" + m.nonce + ",s=" + salt + ",i=" + count))
  {
    hide ReadAttr, Strtol, ToInt, Base64.Decoded;
    var (nonce, r1) := ReadAttr(input, 'r').value;
    var (salt, r2) := ReadAttr(r1, 's').value;
    var (count, r3) := ReadAttr(r2, 'i').value;
    ReadAttrText(input, 'r');
    ReadAttrText(r1, 's');
    ReadAttrText(r2, 'i');
    if r2 == ['i', '='] + count + "," + r3 {
      assert input == "r=" + nonce + ",s=" + salt + ",i=" + count + "," + r3;
    } else {
      assert input == "r=" + nonce + ",s=" + salt + ",i=" + count;
    }
  }

  /** Every such text is accepted as a challenge; what follows the count is not looked at. */
  lemma ChallengeAccepted(clientNonce: string, nonce: string, salt: string, count: string, rest: string, extended: bool)
    requires clientNonce <= nonce && CommaFree(nonce) && CommaFree(salt) && CommaFree(count) && Base64.Decoded(salt).Some?
    requires Strtol(count).rest == "" && ToInt(Strtol(count).value) >= 1
    ensures var input := "r=" + nonce + ",s=" + salt + ",i=" + count + (if extended then "," + rest else "");
            ParseServerFirst(input, clientNonce)
            == Ok(ServerFirst(nonce, Base64.Decoded(salt).value, ToInt(Strtol(count).value)))
  {
    hide ReadAttr, Strtol, ToInt, Base64.Decoded;
    var r2 := "i=" + count + (if extended then "," + rest else "");
    var r1 := "s=" + salt + "," + r2;
    var input := "r=" + nonce + ",s=" + salt + ",i=" + count + (if extended then "," + rest else "");
    assert input == ['r'] + "=" + nonce + "," + r1;
    ReadAttrPrinted('r', nonce, r1);
    assert r1 == ['s'] + "=" + salt + "," + r2;
    ReadAttrPrinted('s', salt, r2);
    assert r2 == if extended then ['i'] + "=" + count + "," + rest else ['i'] + "=" + count;
    ReadAttrPrinted('i', count, rest);
  }

  /** An accepted last message carries the 32 octets of the signature. */
  lemma ConclusionText(input: string)
    requires ParseServerFinal(input).Ok?
    ensures exists value, rest :: Base64.Decoded(value) == Some(ParseServerFinal(input).value) && CommaFree(value)
              && (input == "v=" + value + "," + rest || (rest == "" && input == "v=" + value))
  {
    hide ReadAttr, Base64.Decoded;
    var (value, rest) := ReadAttr(input, 'v').value;
    ReadAttrText(input, 'v');
    if input == ['v', '='] + value + "," + rest {
      assert input == "v=" + value + "," + rest;
    } else {
      assert input == "v=" + value;
    }
  }

  /** An accepted final message begins with the binding that its opening's flag calls for, and then the nonce. */
  lemma FinalBegins(input: string, flag: char)
    requires ParseClientFinal(input, flag).Ok?
    ensures var m := ParseClientFinal(input, flag).value;
            || (flag == 'n' && "c=biws,r=" + m.nonce <= m.withoutProof)
            || (flag == 'y' && "c=eSws,r=" + m.nonce <= m.withoutProof)
    ensures ParseClientFinal(input, flag).value.withoutProof + ",p=" <= input
  {
    hide ParseClientFinal, Base64.Decoded;
    var m := ParseClientFinal(input, flag).value;
    ClientFinalText(input, flag);
    var binding, extensions :| BindingMatches(binding, flag) && m.withoutProof == HeaderText(binding, m.nonce) + extensions;
    assert HeaderText(binding, m.nonce) == if flag == 'n' then "c=biws,r=" + m.nonce else "c=eSws,r=" + m.nonce;
    var from :| ProofText(from, m.proof) && input == m.withoutProof + "," + from;
    assert from[..2] == "p=";
    assert input[..|m.withoutProof| + 3] == m.withoutProof + ",p=";
  }

  /** For both flags the final message with its binding, nonce and proof is accepted. */
  lemma FinalAccepted(flag: char, nonce: string, proof: Key)
    requires (flag == 'n' || flag == 'y') && CommaFree(nonce)
    ensures var head := (if flag == 'n' then "c=biws,r=" else "c=eSws,r=") + nonce;
            ParseClientFinal(head + ",p=" + Base64.Encoded(proof), flag) == Ok(ClientFinal(nonce, head, proof))
  {
    hide ReadAttr, Base64.Encoded, Base64.Decoded, ParseClientFinal;
    var binding := if flag == 'n' then "biws" else "eSws";
    var p := Base64.Encoded(proof);
    var r2 := ['p'] + "=" + p;
    var r1 := ['r'] + "=" + nonce + "," + r2;
    var head := (if flag == 'n' then "c=biws,r=" else "c=eSws,r=") + nonce;
    FinalParts(flag, nonce, p);
    assert CommaFree(binding);
    ReadAttrPrinted('c', binding, r1);
    ReadAttrPrinted('r', nonce, r2);
    Base64CommaFree(proof);
    ProofFound(p);
    Base64.RoundTrip(proof);
    FinalRead(head + ",p=" + p, flag, binding, nonce, r1, r2, p, proof);
  }

  /** Reading one attribute after the other. */
  lemma FinalRead(input: string, flag: char, binding: string, nonce: string, r1: string, r2: string, p: string, proof: Key)
    requires BindingMatches(binding, flag) && ReadAttr(input, 'c') == Ok((binding, r1)) && ReadAttr(r1, 'r') == Ok((nonce, r2))
    requires FindProof(r2) == Ok((r2, p, "")) && Base64.Decoded(p) == Some(proof) && |r2| + 1 <= |input|
    ensures ParseClientFinal(input, flag) == Ok(ClientFinal(nonce, input[..|input| - |r2| - 1], proof))
  {
    hide ReadAttr, FindProof, Base64.Decoded, BindingMatches;
  }

  lemma FinalParts(flag: char, nonce: string, p: string)
    requires flag == 'n' || flag == 'y'
    ensures var head := (if flag == 'n' then "c=biws,r=" else "c=eSws,r=") + nonce;
            var input := head + ",p=" + p;
            var r2 := ['p'] + "=" + p;
            && input == ['c'] + "=" + (if flag == 'n' then "biws" else "eSws") + "," + (['r'] + "=" + nonce + "," + r2)
            && |r2| + 1 <= |input| && input[..|input| - |r2| - 1] == head
  {
  }

  lemma ProofFound(p: string)
    requires CommaFree(p)
    ensures FindProof(['p'] + "=" + p) == Ok((['p'] + "=" + p, p, ""))
  {
    hide ReadAttr;
    ReadAttrPrinted('p', p, "");
    ReadAnyIs(['p'] + "=" + p);
  }

  lemma ReadAnyIs(s: string)
    requires |s| >= 2 && s[0] == 'p' && s[1] == '='
    ensures ReadAttr(s, 'p').Ok? && ReadAnyAttr(s) == Ok(('p', ReadAttr(s, 'p').value.0, ReadAttr(s, 'p').value.1))
  {
  }

  // ----- the server

  lemma StaysInPhase(c: Crypto, st: Server.State, input: Option<string>, rawNonce: seq<byte>)
    requires Server.InIntRange(st.verifier) && st.phase.SaltSent?
    ensures var (st', v) := Server.Step(c, st, input, rawNonce); v.Success? || st' == st
  {
    hide ParseClientFinal, Server.JudgeFinal;
  }

  /** Once the challenge is out nothing changes before a success. */
  lemma {:induction false} AfterChallenge(c: Crypto, s0: Server.State, calls: seq<P.Call>, j: nat)
    requires Server.InIntRange(s0.verifier) && j < |calls| && P.After(c, s0, calls).Some?
    requires P.After(c, s0, calls[..j + 1]).Some? && P.After(c, s0, calls[..j + 1]).value.phase.SaltSent?
    requires forall i :: j < i < |calls| ==> var v := P.VerdictAt(c, s0, calls, i); v.Some? && !v.value.Success?
    ensures P.After(c, s0, calls) == P.After(c, s0, calls[..j + 1])
    decreases |calls|
  {
    hide Server.Step;
    if |calls| == j + 1 {
      assert calls[..j + 1] == calls;
    } else {
      var n := |calls| - 1;
      var shorter := calls[..n];
      P.AfterPrefix(c, s0, calls, n);
      assert shorter[..j + 1] == calls[..j + 1];
      forall i | j < i < n
        ensures var v := P.VerdictAt(c, s0, shorter, i); v.Some? && !v.value.Success?
      {
        assert shorter[..i] == calls[..i];
        assert P.VerdictAt(c, s0, calls, i) == P.VerdictAt(c, s0, shorter, i);
      }
      AfterChallenge(c, s0, shorter, j);
      StaysInPhase(c, P.After(c, s0, shorter).value, calls[n].input, calls[n].rawNonce);
      assert P.VerdictAt(c, s0, calls, n).Some?;
    }
  }

  /** The call that draws a challenge, and what the state holds after it. */
  lemma ChallengeDrawn(c: Crypto, st: Server.State, input: Option<string>, rawNonce: seq<byte>)
    requires Server.InIntRange(st.verifier)
    requires var v := Server.Step(c, st, input, rawNonce).1; v.Continue? && v.output != ""
    ensures st.phase.AwaitFirst? && input.Some? && ParseClientFirst(input.value).Ok?
    ensures var m := ParseClientFirst(input.value).value;
            var (st', v) := Server.Step(c, st, input, rawNonce);
            && st'.phase.SaltSent? && st'.verifier == st.verifier && st'.doomed == st.doomed
            && st'.flag == m.flag && st'.clientFirstBare == m.bare && st'.clientNonce == m.nonce
            && st'.serverNonce == Base64.Encoded(rawNonce) && st'.serverFirst == v.output
            && v.output == "r=" + m.nonce + Base64.Encoded(rawNonce) + ",s=" + st.verifier.salt + ",i=" + Unsigned(st.verifier.iterations)
  {
    hide ParseClientFirst, ParseClientFinal, Server.JudgeFinal, Base64.Encoded, Unsigned;
    if st.phase.SaltSent? && input.Some? {
      HandOver(c, st, input);
    }
  }

  /** The other verdicts are not challenges. */
  lemma HandOver(c: Crypto, st: Server.State, input: Option<string>)
    requires st.phase.SaltSent? && input.Some?
    ensures !Server.OnFinal(c, st, input.value).1.Continue?
  {
    hide ParseClientFinal, ProofAccepted, PrintServerFinal;
  }

  /** The judgement of a final message, given what the state holds. */
  lemma FinalJudged(c: Crypto, st: Server.State, input: string, rawNonce: seq<byte>, m: ClientFinal, key: Key)
    requires Server.InIntRange(st.verifier) && st.phase.SaltSent?
    requires input != "" && ScramReaders.NulFree(input) && ParseClientFinal(input, st.flag) == Ok(m)
    requires Unmasks(key, m.proof, c.Hmac(st.verifier.storedKey, Octets(st.clientFirstBare + "," + st.serverFirst + "," + m.withoutProof)))
    ensures var text := Octets(st.clientFirstBare + "," + st.serverFirst + "," + m.withoutProof);
            Server.Step(c, st, Some(input), rawNonce).1
            == if m.nonce != st.clientNonce + st.serverNonce then Server.Error
               else if c.H(key) == st.verifier.storedKey && !st.doomed
               then Server.Success("v=" + Base64.Encoded(c.Hmac(st.verifier.serverKey, text)))
               else Server.Failure
  {
    hide ParseClientFinal, ProofAccepted, PrintServerFinal, Signature, Server.Auth, Unmasks, ScramReaders.NulFree;
    P.ProofMeans(c, st.verifier.storedKey, st.clientFirstBare, st.serverFirst, m.withoutProof, m.proof, key);
    P.SuccessText(c, st, m);
    AuthText(st, m);
  }

  lemma AuthText(st: Server.State, m: ClientFinal)
    ensures Server.Auth(st, m) == AuthMessage(st.clientFirstBare, st.serverFirst, m.withoutProof)
  {
  }

  lemma NotAFinal(c: Crypto, st: Server.State, input: string, rawNonce: seq<byte>)
    requires Server.InIntRange(st.verifier) && st.phase.SaltSent?
    requires input == "" || !ScramReaders.NulFree(input) || ParseClientFinal(input, st.flag).Err?
    ensures Server.Step(c, st, Some(input), rawNonce).1 == Server.Error
  {
    hide ParseClientFinal, Server.JudgeFinal, ScramReaders.NulFree;
  }

  /**
   * What the server says to whatever follows its challenge, in every run against every peer. Call j drew
   * the challenge, nothing succeeded since, and call k brings a text. A text that is no final message for
   * that opening, or carries another nonce than the client's followed by the server's, is an error.
   * Otherwise let `key` be the proof with the keyed hash of the exchange taken off, bit by bit: the answer
   * is a success, with the server's own keyed hash, if the password's verifier is usable and `key` hashes
   * to its stored key, and a failure if not.
   */
  lemma VerdictOnFinal(c: Crypto, shadow: Option<string>, mockSalt: seq<byte>, calls: seq<P.Call>,
                       j: nat, k: nat, challenge: string, input: string, key: Key)
    requires j < k < |calls| && calls[k].input == Some(input) && challenge != ""
    requires P.VerdictAt(c, Server.Init(shadow, mockSalt), calls, j) == Some(Server.Continue(challenge))
    requires forall i :: j < i < k ==> var v := P.VerdictAt(c, Server.Init(shadow, mockSalt), calls, i); v.Some? && !v.value.Success?
    requires P.VerdictAt(c, Server.Init(shadow, mockSalt), calls, k).Some?
    ensures calls[j].input.Some? && ParseClientFirst(calls[j].input.value).Ok?
    ensures var opening := ParseClientFirst(calls[j].input.value).value;
            var serverNonce := Base64.Encoded(calls[j].rawNonce);
            var usable := Server.UsableVerifier(shadow);
            var v := if usable.Some? then usable.value
                     else ScramVerifier.Verifier(4096, Base64.Encoded(mockSalt), seq(KEY_LEN, _ => 0), seq(KEY_LEN, _ => 0));
            var verdict := P.VerdictAt(c, Server.Init(shadow, mockSalt), calls, k).value;
            var read := ParseClientFinal(input, opening.flag);
            && challenge == "r=" + opening.nonce + serverNonce + ",s=" + v.salt + ",i=" + Unsigned(v.iterations)
            && (input == "" || !ScramReaders.NulFree(input) || read.Err? ==> verdict == Server.Error)
            && (input != "" && ScramReaders.NulFree(input) && read.Ok? ==>
                var m := read.value;
                var text := Octets(opening.bare + "," + challenge + "," + m.withoutProof);
                Unmasks(key, m.proof, c.Hmac(v.storedKey, text)) ==>
                  verdict == if m.nonce != opening.nonce + serverNonce then Server.Error
                             else if c.H(key) == v.storedKey && usable.Some?
                             then Server.Success("v=" + Base64.Encoded(c.Hmac(v.serverKey, text)))
                             else Server.Failure)
  {
    hide ParseClientFirst, ParseClientFinal, Server.Step, Base64.Encoded, Unsigned, Unmasks, ScramReaders.NulFree, Server.UsableVerifier;
    var s0 := Server.Init(shadow, mockSalt);
    var prefix := calls[..k];
    var before := P.After(c, s0, calls[..j]).value;
    ChallengeDrawn(c, before, calls[j].input, calls[j].rawNonce);
    P.RunInvariant(c, s0, calls[..j]);
    var upTo := calls[..j + 1];
    assert upTo[..j] == calls[..j] && upTo[j] == calls[j] && prefix[..j + 1] == upTo;
    var st := P.After(c, s0, upTo).value;
    forall i | j < i < k
      ensures var v := P.VerdictAt(c, s0, prefix, i); v.Some? && !v.value.Success?
    {
      assert prefix[..i] == calls[..i];
      assert P.VerdictAt(c, s0, calls, i) == P.VerdictAt(c, s0, prefix, i);
    }
    AfterChallenge(c, s0, prefix, j);
    if input == "" || !ScramReaders.NulFree(input) || ParseClientFinal(input, st.flag).Err? {
      NotAFinal(c, st, input, calls[k].rawNonce);
    } else {
      var m := ParseClientFinal(input, st.flag).value;
      if Unmasks(key, m.proof, c.Hmac(st.verifier.storedKey, Octets(st.clientFirstBare + "," + st.serverFirst + "," + m.withoutProof))) {
        FinalJudged(c, st, input, calls[k].rawNonce, m, key);
      }
    }
  }

  // ----- the client

  /** The proof the client sends, and the signature it takes for the server's, written out. */
  lemma ClientSigns(c: Crypto, password: string, calls: seq<Runs.Call>)
    requires Runs.Challenged(calls)
    ensures var nonce := Base64.Encoded(calls[0].rawNonce);
            var m := ParseServerFirst(calls[1].input, nonce).value;
            var salted := Hi(c, password, m.salt, m.iterations);
            var text := Octets("n=,r=" + nonce + "," + calls[1].input + "," + "c=biws,r=" + m.nonce);
            var clientKey := c.Hmac(salted, Octets("Client Key"));
            && Runs.VerdictAt(c, password, calls, 0) == Some(Client.Send("n,,n=,r=" + nonce))
            && (exists proof: Key :: Unmasks(proof, clientKey, c.Hmac(c.H(clientKey), text))
                  && Runs.VerdictAt(c, password, calls, 1) == Some(Client.Send("c=biws,r=" + m.nonce + ",p=" + Base64.Encoded(proof))))
            && (|calls| >= 3 ==>
                  (Runs.VerdictAt(c, password, calls, 2) == Some(Client.Verified)
                   <==> calls[2].input != "" && ScramReaders.NulFree(calls[2].input)
                        && ParseServerFinal(calls[2].input) == Ok(c.Hmac(c.Hmac(salted, Octets("Server Key")), text))))
  {
    hide ParseServerFirst, ParseServerFinal, Hi, Base64.Encoded, ScramReaders.NulFree, Runs.VerdictAt, XorKey, Unmasks, Octets;
    var nonce := Base64.Encoded(calls[0].rawNonce);
    var m := ParseServerFirst(calls[1].input, nonce).value;
    var salted := Hi(c, password, m.salt, m.iterations);
    var clientKey := c.Hmac(salted, Octets("Client Key"));
    var text := Octets("n=,r=" + nonce + "," + calls[1].input + "," + "c=biws,r=" + m.nonce);
    assert "n=,r=" + nonce + "," + calls[1].input + "," + "c=biws,r=" + m.nonce
        == AuthMessage("n=,r=" + nonce, calls[1].input, PrintWithoutProof(m.nonce));
    var proof := XorKey(clientKey, c.Hmac(c.H(clientKey), text));
    XorKeyUnmasks(proof, clientKey, c.Hmac(c.H(clientKey), text));
    Runs.SentMessages(c, password, calls);
    if |calls| >= 3 {
      Runs.VerifiedExactly(c, password, calls, 2);
    }
  }

  // ----- the stored verifier

  /** Nothing but repetitions of one delimiter. */
  predicate Only(s: string, d: char)
  {
    forall i :: 0 <= i < |s| ==> s[i] == d
  }

  lemma {:induction false} SkippedOnly(s: string, d: char) returns (n: nat)
    ensures n <= |s| && ScramVerifier.SkipChar(s, d) == s[n..] && Only(s[..n], d)
    decreases |s|
  {
    if s == "" || s[0] != d {
      n := 0;
    } else {
      var m := SkippedOnly(s[1..], d);
      n := m + 1;
      assert s[1..][m..] == s[n..];
      forall i | 0 <= i < n
        ensures s[..n][i] == d
      {
        if i > 0 {
          assert s[1..][..m][i - 1] == s[i];
        }
      }
    }
  }

  /** A token with something after it, and the delimiters it was cut at. */
  lemma TokenText(s: string, d: char) returns (pad: string)
    requires ScramVerifier.Token(s, d).Some? && ScramVerifier.Token(s, d).value.1 != ""
    ensures var (t, rest) := ScramVerifier.Token(s, d).value;
            s == pad + t + [d] + rest && Only(pad, d)
  {
    hide ScramVerifier.SkipChar, IndexOf, Only;
    var n := SkippedOnly(s, d);
    var t := ScramVerifier.SkipChar(s, d);
    pad := s[..n];
    Rejoined(s, n, t, IndexOf(t, d), d);
  }

  lemma Rejoined(s: string, n: nat, t: string, k: nat, d: char)
    requires n <= |s| && t == s[n..] && k < |t| && t[k] == d
    ensures s == s[..n] + t[..k] + [d] + t[k + 1..]
  {
  }

  /** The parts of a usable verifier as they stand in the text. */
  datatype Parts = Parts(pad1: string, count: string, pad2: string, salt: string, pad3: string, stored: string, server: string) {
    function Join(): (s: string)
    {
      "SCRAM-SHA-256$" + (pad1 + count + [':'] + (pad2 + salt + ['$'] + (pad3 + stored + [':'] + server)))
    }
  }

  lemma SchemeFirst(text: string)
    requires ScramVerifier.SCHEME + "$" <= text
    ensures ScramVerifier.Token(text, '$') == Some((ScramVerifier.SCHEME, text[|ScramVerifier.SCHEME| + 1..]))
  {
    var rest := text[|ScramVerifier.SCHEME| + 1..];
    assert text == ScramVerifier.SCHEME + ['$'] + rest;
    ScramVerifier.TokenPrinted(ScramVerifier.SCHEME, '$', rest);
  }

  lemma TokenOfNothing(d: char)
    ensures ScramVerifier.Token("", d).None?
  {
  }

  /**
   * A stored password is usable only as SCRAM-SHA-256, count, salt and the two keys in this order, with
   * nothing between them but their delimiters, which may repeat. The count is a number that fits in a
   * long, the salt decodes, and the keys decode to 32 octets each.
   */
  lemma UsableText(text: string) returns (p: Parts)
    requires Server.UsableVerifier(Some(text)).Some?
    ensures var v := Server.UsableVerifier(Some(text)).value;
            var n := Strtol(p.count);
            && text == p.Join()
            && Only(p.pad1, ':') && Only(p.pad2, '$') && Only(p.pad3, ':')
            && n.rest == "" && !n.overflow && v.iterations == ToInt(n.value)
            && v.salt == p.salt && Base64.Decoded(p.salt).Some?
            && Base64.Decoded(p.stored) == Some(v.storedKey) && Base64.Decoded(p.server) == Some(v.serverKey)
  {
    hide ScramVerifier.Token, Base64.Decoded, Strtol, ToInt;
    SchemeFirst(text);
    TokenOfNothing('$');
    TokenOfNothing(':');
    var r1 := text[|ScramVerifier.SCHEME| + 1..];
    var (count, r2) := ScramVerifier.Token(r1, ':').value;
    var (salt, r3) := ScramVerifier.Token(r2, '$').value;
    var (stored, server) := ScramVerifier.Token(r3, ':').value;
    var pad1 := TokenText(r1, ':');
    var pad2 := TokenText(r2, '$');
    var pad3 := TokenText(r3, ':');
    p := Parts(pad1, count, pad2, salt, pad3, stored, server);
    assert text == "SCRAM-SHA-256$" + r1;
  }

  /** The verifier kept for a password, written out. */
  lemma VerifierText(c: Crypto, password: string, salt: seq<byte>, iterations: int)
    ensures var n := if iterations <= 0 then 4096 else iterations;
            var salted := Hi(c, password, salt, n);
            ScramVerifier.Build(c, password, salt, iterations)
            == "SCRAM-SHA-256$" + Decimal(n) + ":" + Base64.Encoded(salt) + "$"
               + Base64.Encoded(c.H(c.Hmac(salted, Octets("Client Key")))) + ":"
               + Base64.Encoded(c.Hmac(salted, Octets("Server Key")))
  {
    hide Hi, Base64.Encoded, Octets, Decimal;
  }
}

/** Client and server run against each other, and the server against anybody. */
module ScramProtocol {
  import opened Bytes
  import opened Decimals
  import opened ScramCrypto
  import opened ScramMessages
  import ScramReaders
  import ScramVerifier
  import Server = ScramServer
  import Client = ScramClient
  import Base64

  // ----- completeness

  /** What the two ends report when every message reaches the other end unchanged. */
  datatype Report = Report(server: Server.Verdict, client: Client.Verdict)

  function Handshake(c: Crypto, shadow: Option<string>, mockSalt: seq<byte>, password: string,
                     clientRaw: seq<byte>, serverRaw: seq<byte>): (r: Report)
  {
    var s0 := Server.Init(shadow, mockSalt);
    var (c1, m1) := Client.Step(c, Client.Init(password), "", clientRaw);
    if !m1.Send? then Report(Server.Error, m1) else
    var (s1, m2) := Server.Step(c, s0, Some(m1.output), serverRaw);
    if !m2.Continue? then Report(m2, Client.Error) else
    var (c2, m3) := Client.Step(c, c1, m2.output, []);
    if !m3.Send? then Report(Server.Error, m3) else
    var (s2, m4) := Server.Step(c, s1, Some(m3.output), []);
    if !m4.Success? then Report(m4, Client.Error) else
    var (c3, v) := Client.Step(c, c2, m4.output, []);
    Report(m4, v)
  }

  predicate BothSucceed(r: Report)
  {
    r.server.Success? && r.client.Verified?
  }

  lemma PrintableNulFree(s: string)
    requires Printable(s)
    ensures ScramReaders.NulFree(s) && CommaFree(s)
  {
  }

  lemma EncodedNulFree(s: seq<byte>)
    ensures ScramReaders.NulFree(Base64.Encoded(s))
  {
    hide Base64.Encoded, Printable;
    Base64CommaFree(s);
    PrintableNulFree(Base64.Encoded(s));
  }

  lemma DecimalNulFree(n: nat)
    ensures ScramReaders.NulFree(Decimal(n))
  {
    forall i | 0 <= i < |Decimal(n)|
      ensures Decimal(n)[i] != ScramReaders.NUL
    {
      assert Decimal(n)[i] in Decimal(n);
    }
  }

  /** Both ends of the opening: what the client remembers and what the server does. */
  lemma OpeningStep(c: Crypto, s0: Server.State, password: string, clientRaw: seq<byte>, serverRaw: seq<byte>)
    requires Server.InIntRange(s0.verifier) && s0.phase.AwaitFirst?
    ensures var nonce := Base64.Encoded(clientRaw);
            var (c1, m1) := Client.Step(c, Client.Init(password), "", clientRaw);
            && m1 == Client.Send(PrintClientFirst(nonce))
            && c1.phase.NonceSent? && c1.clientNonce == nonce && c1.clientFirstBare == "n=,r=" + nonce
            && c1.password == password
            && Server.Step(c, s0, Some(m1.output), serverRaw)
            == (var s1 := Server.AcceptFirst(s0, ClientFirst('n', "n=,r=" + nonce, "", nonce), serverRaw);
                (s1, Server.Continue(s1.serverFirst)))
  {
    hide Base64.Encoded, ParseClientFirst, Server.AcceptFirst;
    var nonce := Base64.Encoded(clientRaw);
    var first := PrintClientFirst(nonce);
    assert first[3..] == "n=,r=" + nonce;
    Base64CommaFree(clientRaw);
    EncodedNulFree(clientRaw);
    assert ScramReaders.NulFree("n,,n=,r=");
    assert ScramReaders.NulFree(first);
    ClientFirstRoundTrip(nonce);
  }

  lemma ServerFirstNulFree(clientNonce: string, serverNonce: string, salt: string, iterations: int)
    requires ScramReaders.NulFree(clientNonce) && ScramReaders.NulFree(serverNonce) && ScramReaders.NulFree(salt)
    requires 1 <= iterations <= INT_MAX
    ensures ScramReaders.NulFree(PrintServerFirst(clientNonce, serverNonce, salt, iterations))
    ensures PrintServerFirst(clientNonce, serverNonce, salt, iterations) != ""
  {
    hide Decimal;
    DecimalNulFree(iterations);
    assert ScramReaders.NulFree("r=") && ScramReaders.NulFree(",s=") && ScramReaders.NulFree(",i=");
  }

  /** The client's answer to a challenge built on its own nonce. */
  lemma ChallengeStep(c: Crypto, c1: Client.State, serverRaw: seq<byte>, salt: seq<byte>, iterations: int)
    requires c1.phase.NonceSent? && Printable(c1.clientNonce)
    requires 1 <= iterations <= INT_MAX
    ensures var serverNonce := Base64.Encoded(serverRaw);
            var nonce := c1.clientNonce + serverNonce;
            var challenge := PrintServerFirst(c1.clientNonce, serverNonce, Base64.Encoded(salt), iterations);
            var salted := Hi(c, c1.password, salt, iterations);
            var c2 := c1.(phase := Client.ProofSent, serverFirst := challenge,
                          withoutProof := PrintWithoutProof(nonce), salted := salted);
            Client.Step(c, c1, challenge, [])
            == (c2, Client.Send(PrintClientFinal(nonce, ClientProof(c, salted, Client.Auth(c2)))))
  {
    hide Base64.Encoded, PrintServerFirst, ParseServerFirst, Hi, ClientProof, PrintClientFinal, PrintWithoutProof, AuthMessage;
    var serverNonce := Base64.Encoded(serverRaw);
    PrintableNulFree(c1.clientNonce);
    Base64CommaFree(serverRaw);
    EncodedNulFree(serverRaw);
    EncodedNulFree(salt);
    ServerFirstNulFree(c1.clientNonce, serverNonce, Base64.Encoded(salt), iterations);
    ServerFirstRoundTrip(c1.clientNonce, serverNonce, salt, iterations);
  }

  lemma ClientFinalNulFree(nonce: string, proof: Key)
    requires ScramReaders.NulFree(nonce)
    ensures ScramReaders.NulFree(PrintClientFinal(nonce, proof)) && PrintClientFinal(nonce, proof) != ""
  {
    hide Base64.Encoded;
    EncodedNulFree(proof);
    assert ScramReaders.NulFree("c=biws,r=") && ScramReaders.NulFree(",p=");
  }

  /** The server's judgement of the final message made for its own challenge. */
  lemma FinalStep(c: Crypto, s1: Server.State, nonce: string, proof: Key)
    requires Server.InIntRange(s1.verifier) && s1.phase.SaltSent? && s1.flag == 'n'
    requires Printable(nonce) && nonce == s1.clientNonce + s1.serverNonce
    ensures var m := ClientFinal(nonce, PrintWithoutProof(nonce), proof);
            Server.Step(c, s1, Some(PrintClientFinal(nonce, proof)), []).1 == Server.JudgeFinal(c, s1, m)
  {
    hide ParseClientFinal, PrintClientFinal, PrintWithoutProof, Printable, Server.JudgeFinal;
    PrintableNulFree(nonce);
    ClientFinalNulFree(nonce, proof);
    ClientFinalRoundTrip(nonce, proof);
  }

  lemma ConcludeStep(c: Crypto, c2: Client.State)
    requires c2.phase.ProofSent?
    ensures Client.Step(c, c2, PrintServerFinal(Signature(c, ServerKey(c, c2.salted), Client.Auth(c2))), []).1 == Client.Verified
  {
    hide Base64.Encoded, ParseServerFinal, Signature, ServerKey, AuthMessage;
    var signature := Signature(c, ServerKey(c, c2.salted), Client.Auth(c2));
    EncodedNulFree(signature);
    assert ScramReaders.NulFree("v=");
    ServerFinalRoundTrip(signature);
  }

  /** The four messages of a handshake in which the server's challenge carries `salt` and `iterations`. */
  lemma HandshakeVerdict(c: Crypto, shadow: Option<string>, mockSalt: seq<byte>, password: string,
                         clientRaw: seq<byte>, serverRaw: seq<byte>, salt: seq<byte>, iterations: int)
    requires 1 <= iterations <= INT_MAX
    requires var v := Server.Init(shadow, mockSalt).verifier; v.iterations == iterations && v.salt == Base64.Encoded(salt)
    ensures var s0 := Server.Init(shadow, mockSalt);
            var salted := Hi(c, password, salt, iterations);
            var clientNonce := Base64.Encoded(clientRaw);
            var r := Handshake(c, shadow, mockSalt, password, clientRaw, serverRaw);
            && (s0.verifier.storedKey == StoredKey(c, salted) && s0.verifier.serverKey == ServerKey(c, salted) && !s0.doomed
                ==> BothSucceed(r))
            && (s0.doomed ==> r.server == Server.Failure)
  {
    hide Base64.Encoded, Hi, StoredKey, ServerKey, ClientProof, Server.Init, PrintServerFirst, PrintClientFinal,
      PrintWithoutProof, PrintServerFinal, Signature, AuthMessage, ProofAccepted, Client.Step, Server.Step, Printable, PrintClientFirst;
    var s0 := Server.Init(shadow, mockSalt);
    InitAwaits(shadow, mockSalt);
    OpeningStep(c, s0, password, clientRaw, serverRaw);
    var c1 := Client.Step(c, Client.Init(password), "", clientRaw).0;
    var clientNonce := Base64.Encoded(clientRaw);
    var s1 := Server.AcceptFirst(s0, ClientFirst('n', "n=,r=" + clientNonce, "", clientNonce), serverRaw);
    Base64CommaFree(clientRaw);
    Base64CommaFree(serverRaw);
    ChallengeStep(c, c1, serverRaw, salt, iterations);
    var c2 := Client.Step(c, c1, s1.serverFirst, []).0;
    var nonce := clientNonce + Base64.Encoded(serverRaw);
    PrintableJoin(clientNonce, Base64.Encoded(serverRaw));
    var salted := Hi(c, password, salt, iterations);
    var proof := ClientProof(c, salted, Client.Auth(c2));
    FinalStep(c, s1, nonce, proof);
    OwnProofAccepted(c, salted, Client.Auth(c2));
    ConcludeStep(c, c2);
  }

  lemma InitAwaits(shadow: Option<string>, mockSalt: seq<byte>)
    ensures Server.Init(shadow, mockSalt).phase.AwaitFirst?
  {
  }

  lemma PrintableJoin(a: string, b: string)
    requires Printable(a) && Printable(b)
    ensures Printable(a + b)
  {
  }

  lemma BuiltIsUsable(c: Crypto, password: string, salt: seq<byte>, iterations: int)
    ensures ScramVerifier.SCHEME + "$" <= ScramVerifier.Build(c, password, salt, iterations)
  {
    hide Decimal, Base64.Encoded, Hi;
  }

  /**
   * For every password, iteration count and pair of nonces, a handshake against the verifier built
   * from that password succeeds on both ends exactly when the salt is not empty.
   */
  lemma HandshakeCompletes(c: Crypto, password: string, salt: seq<byte>, iterations: int,
                           mockSalt: seq<byte>, clientRaw: seq<byte>, serverRaw: seq<byte>)
    requires iterations <= INT_MAX
    ensures var shadow := Some(ScramVerifier.Build(c, password, salt, iterations));
            BothSucceed(Handshake(c, shadow, mockSalt, password, clientRaw, serverRaw)) <==> salt != []
  {
    hide Handshake, ScramVerifier.Build, ScramVerifier.Parse, Hi, StoredKey, ServerKey, Base64.Encoded;
    var shadow := Some(ScramVerifier.Build(c, password, salt, iterations));
    BuiltIsUsable(c, password, salt, iterations);
    ScramVerifier.ParseBuilt(c, password, salt, iterations);
    var n := ScramVerifier.Iterations(iterations);
    if salt == [] {
      HandshakeVerdict(c, shadow, mockSalt, password, clientRaw, serverRaw, mockSalt, DEFAULT_ITERATIONS);
    } else {
      HandshakeVerdict(c, shadow, mockSalt, password, clientRaw, serverRaw, salt, n);
    }
  }

  // ----- safety against an arbitrary peer

  /** One call of the server: what arrived, and the random octets drawn for a nonce. */
  datatype Call = Call(input: Option<string>, rawNonce: seq<byte>)

  /** The server after a sequence of calls, or None once an error has ended the exchange. */
  function After(c: Crypto, s0: Server.State, calls: seq<Call>): (r: Option<Server.State>)
    requires Server.InIntRange(s0.verifier)
    ensures r.Some? ==> Server.InIntRange(r.value.verifier)
    decreases |calls|
  {
    if calls == [] then Some(s0)
    else
      var last := calls[|calls| - 1];
      match After(c, s0, calls[..|calls| - 1])
      case None => None
      case Some(st) =>
        var (st', v) := Server.Step(c, st, last.input, last.rawNonce);
        if v.Error? then None else Some(st')
  }

  /** What the k-th call of a run reports, if the run gets that far. */
  function VerdictAt(c: Crypto, s0: Server.State, calls: seq<Call>, k: nat): (r: Option<Server.Verdict>)
    requires Server.InIntRange(s0.verifier) && k < |calls|
  {
    match After(c, s0, calls[..k])
    case None => None
    case Some(st) => Some(Server.Step(c, st, calls[k].input, calls[k].rawNonce).1)
  }

  /** Call j brought an acceptable opening, answered by the challenge the state remembers. */
  ghost predicate OpenedAt(s0: Server.State, calls: seq<Call>, j: nat, st: Server.State)
    requires Server.InIntRange(s0.verifier)
  {
    && j < |calls|
    && calls[j].input.Some?
    && ParseClientFirst(calls[j].input.value).Ok?
    && var m := ParseClientFirst(calls[j].input.value).value;
       && st.flag == m.flag && st.clientFirstBare == m.bare && st.clientNonce == m.nonce
       && st.serverNonce == Base64.Encoded(calls[j].rawNonce)
       && st.serverFirst == PrintServerFirst(m.nonce, st.serverNonce, s0.verifier.salt, s0.verifier.iterations)
  }

  lemma AfterPrefix(c: Crypto, s0: Server.State, calls: seq<Call>, k: nat)
    requires Server.InIntRange(s0.verifier) && k <= |calls|
    requires After(c, s0, calls).Some?
    ensures After(c, s0, calls[..k]).Some?
    decreases |calls|
  {
    if k < |calls| {
      var shorter := calls[..|calls| - 1];
      AfterPrefix(c, s0, shorter, k);
      assert shorter[..k] == calls[..k];
    } else {
      assert calls[..k] == calls;
    }
  }

  /**
   * The invariant of every run: the verifier and the doom never change, and outside the first
   * phase some earlier call opened the exchange and drew the challenge on record.
   */
  lemma {:induction false} RunInvariant(c: Crypto, s0: Server.State, calls: seq<Call>)
    requires Server.InIntRange(s0.verifier) && s0.phase.AwaitFirst?
    requires After(c, s0, calls).Some?
    ensures var st := After(c, s0, calls).value;
            && st.verifier == s0.verifier && st.doomed == s0.doomed
            && (st.phase.AwaitFirst? || exists j: nat :: OpenedAt(s0, calls, j, st) && VerdictAt(c, s0, calls, j) == Some(Server.Continue(st.serverFirst)))
    decreases |calls|
  {
    hide ParseClientFirst, ParseClientFinal, PrintServerFirst, Base64.Encoded, Server.JudgeFinal;
    if calls == [] {
    } else {
      var n := |calls| - 1;
      var shorter := calls[..n];
      AfterPrefix(c, s0, calls, n);
      RunInvariant(c, s0, shorter);
      var st := After(c, s0, shorter).value;
      var (st', v) := Server.Step(c, st, calls[n].input, calls[n].rawNonce);
      if st.phase.AwaitFirst? {
        if !st'.phase.AwaitFirst? {
          assert VerdictAt(c, s0, calls, n) == Some(v);
          assert OpenedAt(s0, calls, n, st');
        }
      } else {
        var j: nat :| OpenedAt(s0, shorter, j, st) && VerdictAt(c, s0, shorter, j) == Some(Server.Continue(st.serverFirst));
        assert calls[..j] == shorter[..j];
        assert VerdictAt(c, s0, calls, j) == VerdictAt(c, s0, shorter, j);
        assert OpenedAt(s0, calls, j, st');
      }
    }
  }

  /**
   * Everything a success at call k rests on, in terms of what went over the wire: call j brought the
   * opening and drew the challenge, call k brought a final message whose nonce is the client's
   * followed by the server's and whose channel binding fits the opening, the stored verifier is a
   * real one, and the proof unmasks to a preimage of the stored key.
   */
  ghost predicate Justified(c: Crypto, shadow: Option<string>, calls: seq<Call>, j: nat, k: nat,
                            challenge: string, output: string)
  {
    && j < k < |calls|
    && calls[j].input.Some? && calls[k].input.Some?
    && ParseClientFirst(calls[j].input.value).Ok?
    && var opening := ParseClientFirst(calls[j].input.value).value;
       && ParseClientFinal(calls[k].input.value, opening.flag).Ok?
       && Server.UsableVerifier(shadow).Some?
       && var final := ParseClientFinal(calls[k].input.value, opening.flag).value;
          var v := Server.UsableVerifier(shadow).value;
          var serverNonce := Base64.Encoded(calls[j].rawNonce);
          var text := Octets(opening.bare + "," + challenge + "," + final.withoutProof);
          && challenge == PrintServerFirst(opening.nonce, serverNonce, v.salt, v.iterations)
          && final.nonce == opening.nonce + serverNonce
          && (exists key: Key :: Unmasks(key, final.proof, c.Hmac(v.storedKey, text)) && c.H(key) == v.storedKey)
          && output == "v=" + Base64.Encoded(c.Hmac(v.serverKey, text))
  }

  /** The proof test, in terms of the key that remains when the keyed hash of the exchange is taken off. */
  lemma ProofMeans(c: Crypto, stored: Key, bare: string, challenge: string, withoutProof: string, proof: Key, key: Key)
    requires Unmasks(key, proof, c.Hmac(stored, Octets(bare + "," + challenge + "," + withoutProof)))
    ensures ProofAccepted(c, stored, AuthMessage(bare, challenge, withoutProof), proof) <==> c.H(key) == stored
  {
    hide Unmasks, XorKey;
    XorKeyUnmasks(key, proof, c.Hmac(stored, Octets(bare + "," + challenge + "," + withoutProof)));
  }

  /** There is such a key for every proof. */
  lemma UnmaskedKey(proof: Key, mask: Key) returns (key: Key)
    ensures Unmasks(key, proof, mask)
  {
    key := XorKey(proof, mask);
    XorKeyUnmasks(key, proof, mask);
  }

  lemma StepSuccess(c: Crypto, st: Server.State, input: Option<string>, rawNonce: seq<byte>)
    requires Server.InIntRange(st.verifier)
    requires Server.Step(c, st, input, rawNonce).1.Success?
    ensures st.phase.SaltSent? && !st.doomed && input.Some?
    ensures Server.Step(c, st, input, rawNonce).0.phase.Finished?
    ensures ParseClientFinal(input.value, st.flag).Ok?
    ensures var m := ParseClientFinal(input.value, st.flag).value;
            && m.nonce == st.clientNonce + st.serverNonce
            && ProofAccepted(c, st.verifier.storedKey, Server.Auth(st, m), m.proof)
            && Server.Step(c, st, input, rawNonce).1
               == Server.Success(PrintServerFinal(Signature(c, st.verifier.serverKey, Server.Auth(st, m))))
  {
    hide ParseClientFirst, ParseClientFinal, PrintServerFinal, ProofAccepted, Signature, AuthMessage;
  }

  lemma SuccessPhases(c: Crypto, st: Server.State, input: Option<string>, rawNonce: seq<byte>)
    requires Server.InIntRange(st.verifier)
    requires Server.Step(c, st, input, rawNonce).1.Success?
    ensures st.phase.SaltSent? && Server.Step(c, st, input, rawNonce).0.phase.Finished?
  {
    hide Server.Step, ParseClientFinal, ProofAccepted, PrintServerFinal, Signature, Server.Auth;
    StepSuccess(c, st, input, rawNonce);
  }

  lemma SuccessText(c: Crypto, st: Server.State, m: ClientFinal)
    ensures PrintServerFinal(Signature(c, st.verifier.serverKey, Server.Auth(st, m)))
         == "v=" + Base64.Encoded(c.Hmac(st.verifier.serverKey, Octets(st.clientFirstBare + "," + st.serverFirst + "," + m.withoutProof)))
  {
    hide Base64.Encoded, Octets;
  }

  /** A success is always justified. */
  lemma SuccessIsJustified(c: Crypto, shadow: Option<string>, mockSalt: seq<byte>, calls: seq<Call>, k: nat)
    requires k < |calls|
    requires var r := VerdictAt(c, Server.Init(shadow, mockSalt), calls, k); r.Some? && r.value.Success?
    ensures var s0 := Server.Init(shadow, mockSalt);
            exists j: nat, challenge ::
              && Justified(c, shadow, calls, j, k, challenge, VerdictAt(c, s0, calls, k).value.output)
              && VerdictAt(c, s0, calls, j) == Some(Server.Continue(challenge))
  {
    hide Server.Step, ParseClientFirst, ParseClientFinal, PrintServerFirst, PrintServerFinal, ProofAccepted,
      Signature, AuthMessage, Base64.Encoded, Server.UsableVerifier, Unmasks;
    var s0 := Server.Init(shadow, mockSalt);
    var prefix := calls[..k];
    var st := After(c, s0, prefix).value;
    StepSuccess(c, st, calls[k].input, calls[k].rawNonce);
    RunInvariant(c, s0, prefix);
    var j: nat :| OpenedAt(s0, prefix, j, st) && VerdictAt(c, s0, prefix, j) == Some(Server.Continue(st.serverFirst));
    assert prefix[..j] == calls[..j];
    assert VerdictAt(c, s0, calls, j) == VerdictAt(c, s0, prefix, j);
    var m := ParseClientFinal(calls[k].input.value, st.flag).value;
    var key := UnmaskedKey(m.proof, c.Hmac(st.verifier.storedKey, Octets(st.clientFirstBare + "," + st.serverFirst + "," + m.withoutProof)));
    ProofMeans(c, st.verifier.storedKey, st.clientFirstBare, st.serverFirst, m.withoutProof, m.proof, key);
    SuccessText(c, st, m);
    assert Justified(c, shadow, calls, j, k, st.serverFirst, VerdictAt(c, s0, calls, k).value.output);
  }

  lemma {:induction false} FinishedStays(c: Crypto, s0: Server.State, calls: seq<Call>, k: nat)
    requires Server.InIntRange(s0.verifier) && k <= |calls|
    requires After(c, s0, calls).Some?
    requires After(c, s0, calls[..k]).Some? && After(c, s0, calls[..k]).value.phase.Finished?
    ensures After(c, s0, calls).value.phase.Finished?
    decreases |calls|
  {
    hide Server.OnFirst, Server.OnFinal;
    if k < |calls| {
      var shorter := calls[..|calls| - 1];
      assert shorter[..k] == calls[..k];
      AfterPrefix(c, s0, calls, |calls| - 1);
      FinishedStays(c, s0, shorter, k);
    } else {
      assert calls[..k] == calls;
    }
  }

  /** Success is reported at most once in any run. */
  lemma SuccessOnlyOnce(c: Crypto, s0: Server.State, calls: seq<Call>, j: nat, k: nat)
    requires Server.InIntRange(s0.verifier) && j < k < |calls|
    requires var r := VerdictAt(c, s0, calls, j); r.Some? && r.value.Success?
    ensures var r := VerdictAt(c, s0, calls, k); !(r.Some? && r.value.Success?)
  {
    hide Server.Step, Server.InIntRange;
    var st := After(c, s0, calls[..j]).value;
    SuccessPhases(c, st, calls[j].input, calls[j].rawNonce);
    var upTo := calls[..j + 1];
    assert upTo[..|upTo| - 1] == calls[..j] && upTo[|upTo| - 1] == calls[j];
    var r := After(c, s0, calls[..k]);
    if r.Some? && Server.Step(c, r.value, calls[k].input, calls[k].rawNonce).1.Success? {
      SuccessPhases(c, r.value, calls[k].input, calls[k].rawNonce);
      assert calls[..k][..j + 1] == upTo;
      FinishedStays(c, s0, calls[..k], j + 1);
    }
  }

  /** A peer whose verifier is missing or unreadable is never let in, whatever it sends. */
  lemma DoomedNeverSucceeds(c: Crypto, shadow: Option<string>, mockSalt: seq<byte>, calls: seq<Call>, k: nat)
    requires k < |calls| && Server.UsableVerifier(shadow).None?
    ensures var r := VerdictAt(c, Server.Init(shadow, mockSalt), calls, k); !(r.Some? && r.value.Success?)
  {
    var r := VerdictAt(c, Server.Init(shadow, mockSalt), calls, k);
    if r.Some? && r.value.Success? {
      SuccessIsJustified(c, shadow, mockSalt, calls, k);
    }
  }
}

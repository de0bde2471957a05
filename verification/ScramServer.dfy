/** The server's half of the exchange: what each call does, and the object that does it. */
module ScramServer {
  import opened Bytes
  import opened Decimals
  import opened ScramCrypto
  import opened ScramMessages
  import ScramReaders
  import ScramVerifier
  import Base64

  datatype Phase = AwaitFirst | SaltSent | Finished

  /** The status record; the fields of the client's first message are meaningful once it was read. */
  datatype State = State(
    phase: Phase,
    verifier: ScramVerifier.Verifier,
    doomed: bool,
    flag: char,
    clientFirstBare: string,
    clientNonce: string,
    serverNonce: string,
    serverFirst: string)

  datatype Verdict = Continue(output: string) | Success(output: string) | Failure | Error

  /** The verifier of a user who has none: the exchange goes through the motions and fails. */
  function MockVerifier(mockSalt: seq<byte>): (v: ScramVerifier.Verifier)
  {
    ScramVerifier.Verifier(DEFAULT_ITERATIONS, Base64.Encoded(mockSalt), ZeroKey(), ZeroKey())
  }

  predicate InIntRange(v: ScramVerifier.Verifier)
  {
    -INT_MAX - 1 <= v.iterations <= INT_MAX
  }

  /** The verifier to use for a stored password, if it is a SCRAM one that parses. */
  function UsableVerifier(shadow: Option<string>): (v: Option<ScramVerifier.Verifier>)
    ensures v.Some? ==> InIntRange(v.value)
  {
    if shadow.Some? && ScramVerifier.SCHEME + "$" <= shadow.value then ScramVerifier.Parse(shadow.value) else None
  }

  function Init(shadow: Option<string>, mockSalt: seq<byte>): (st: State)
    ensures InIntRange(st.verifier)
    ensures st.doomed <==> UsableVerifier(shadow).None?
  {
    var v := UsableVerifier(shadow);
    State(AwaitFirst, if v.Some? then v.value else MockVerifier(mockSalt), v.None?, ' ', "", "", "", "")
  }

  function AcceptFirst(st: State, m: ClientFirst, rawNonce: seq<byte>): (r: State)
    requires InIntRange(st.verifier)
  {
    var serverNonce := Base64.Encoded(rawNonce);
    st.(phase := SaltSent, flag := m.flag, clientFirstBare := m.bare, clientNonce := m.nonce,
        serverNonce := serverNonce,
        serverFirst := PrintServerFirst(m.nonce, serverNonce, st.verifier.salt, st.verifier.iterations))
  }

  function Auth(st: State, m: ClientFinal): (s: string)
  {
    AuthMessage(st.clientFirstBare, st.serverFirst, m.withoutProof)
  }

  function JudgeFinal(c: Crypto, st: State, m: ClientFinal): (v: Verdict)
  {
    if m.nonce != st.clientNonce + st.serverNonce then Error
    else if !ProofAccepted(c, st.verifier.storedKey, Auth(st, m), m.proof) || st.doomed then Failure
    else Success(PrintServerFinal(Signature(c, st.verifier.serverKey, Auth(st, m))))
  }

  function OnFirst(st: State, input: string, rawNonce: seq<byte>): (r: (State, Verdict))
    requires InIntRange(st.verifier)
    ensures r.0.verifier == st.verifier
  {
    match ParseClientFirst(input)
    case Err => (st, Error)
    case Ok(m) => var st' := AcceptFirst(st, m, rawNonce); (st', Continue(st'.serverFirst))
  }

  /** A refused proof leaves the phase alone; only success closes the exchange. */
  function OnFinal(c: Crypto, st: State, input: string): (r: (State, Verdict))
    ensures r.0.verifier == st.verifier
  {
    match ParseClientFinal(input, st.flag)
    case Err => (st, Error)
    case Ok(m) =>
      var v := JudgeFinal(c, st, m);
      (if v.Success? then st.(phase := Finished) else st, v)
  }

  /**
   * One call. No input at all draws an empty challenge; an empty input, or one with a NUL inside,
   * is an error, and an error abandons the exchange.
   */
  function Step(c: Crypto, st: State, input: Option<string>, rawNonce: seq<byte>): (r: (State, Verdict))
    requires InIntRange(st.verifier)
    ensures InIntRange(r.0.verifier)
  {
    if input.None? then (st, Continue(""))
    else if input.value == "" || !ScramReaders.NulFree(input.value) then (st, Error)
    else
      match st.phase
      case AwaitFirst => OnFirst(st, input.value, rawNonce)
      case SaltSent => OnFinal(c, st, input.value)
      case Finished => (st, Error)
  }

  /** The status record as the program keeps it, overwritten field by field. */
  class Exchange {
    var phase: Phase
    var iterations: int
    var salt: string
    var storedKey: Key
    var serverKey: Key
    var doomed: bool
    var flag: char
    var clientFirstBare: string
    var clientUsername: string
    var clientNonce: string
    var serverNonce: string
    var serverFirst: string
    var clientFinalNonce: string
    var withoutProof: string
    var clientProof: Key

    function View(): (st: State)
      reads this
    {
      State(phase, ScramVerifier.Verifier(iterations, salt, storedKey, serverKey), doomed, flag,
            clientFirstBare, clientNonce, serverNonce, serverFirst)
    }

    constructor (shadow: Option<string>, mockSalt: seq<byte>)
      ensures View() == Init(shadow, mockSalt)
    {
      var v := UsableVerifier(shadow);
      var w := if v.Some? then v.value else MockVerifier(mockSalt);
      phase, doomed, flag := AwaitFirst, v.None?, ' ';
      iterations, salt, storedKey, serverKey := w.iterations, w.salt, w.storedKey, w.serverKey;
      clientFirstBare, clientUsername, clientNonce, serverNonce, serverFirst := "", "", "", "", "";
      clientFinalNonce, withoutProof, clientProof := "", "", ZeroKey();
    }

    /** Length first, then the two halves, as the memcmp calls compare them. */
    method VerifyFinalNonce() returns (same: bool)
      ensures same <==> clientFinalNonce == clientNonce + serverNonce
    {
      if |clientFinalNonce| != |clientNonce| + |serverNonce| {
        return false;
      }
      if clientFinalNonce[..|clientNonce|] != clientNonce {
        assert (clientNonce + serverNonce)[..|clientNonce|] == clientNonce;
        return false;
      }
      if clientFinalNonce[|clientNonce|..] != serverNonce {
        assert (clientNonce + serverNonce)[|clientNonce|..] == serverNonce;
        return false;
      }
      assert clientFinalNonce == clientFinalNonce[..|clientNonce|] + clientFinalNonce[|clientNonce|..];
      return true;
    }

    /** Unmasks the proof octet by octet and compares its hash with the stored key. */
    method VerifyClientProof(c: Crypto) returns (ok: bool)
      ensures ok <==> ProofAccepted(c, storedKey, AuthMessage(clientFirstBare, serverFirst, withoutProof), clientProof)
      ensures forall key: Key :: Unmasks(key, clientProof, c.Hmac(storedKey, Octets(clientFirstBare + "," + serverFirst + "," + withoutProof)))
                ==> (ok <==> c.H(key) == storedKey)
    {
      hide XorKey, Unmasks;
      ghost var mask := c.Hmac(storedKey, Octets(clientFirstBare + "," + serverFirst + "," + withoutProof));
      forall key: Key
        ensures Unmasks(key, clientProof, mask) <==> key == XorKey(clientProof, mask)
      {
        XorKeyUnmasks(key, clientProof, mask);
      }
      var signature := Signature(c, storedKey, AuthMessage(clientFirstBare, serverFirst, withoutProof));
      var clientKey := CopyKey(clientProof);
      XorInto(clientKey, signature);
      return c.H(clientKey[..]) == storedKey;
    }

    method ReceiveFirst(input: string, rawNonce: seq<byte>) returns (v: Verdict)
      requires InIntRange(View().verifier) && ScramReaders.NulFree(input)
      modifies this
      ensures v == OnFirst(old(View()), input, rawNonce).1
      ensures v != Error ==> View() == OnFirst(old(View()), input, rawNonce).0
    {
      hide ParseClientFirst, PrintServerFirst, Base64.Encoded;
      var m := ScramReaders.ReadClientFirstMessage(input);
      if m.Err? {
        return Error;
      }
      flag, clientFirstBare := m.value.flag, m.value.bare;
      clientUsername, clientNonce := m.value.username, m.value.nonce;
      serverNonce := Base64.Encode(rawNonce);
      serverFirst := PrintServerFirst(clientNonce, serverNonce, salt, iterations);
      phase := SaltSent;
      return Continue(serverFirst);
    }

    method ReceiveFinal(c: Crypto, input: string) returns (v: Verdict)
      requires ScramReaders.NulFree(input)
      modifies this
      ensures v == OnFinal(c, old(View()), input).1
      ensures v != Error ==> View() == OnFinal(c, old(View()), input).0
    {
      hide ParseClientFinal, PrintServerFinal, ProofAccepted, AuthMessage, Signature;
      var m := ScramReaders.ReadClientFinalMessage(input, flag);
      if m.Err? {
        return Error;
      }
      clientFinalNonce, withoutProof, clientProof := m.value.nonce, m.value.withoutProof, m.value.proof;
      var same := VerifyFinalNonce();
      if !same {
        return Error;
      }
      var ok := VerifyClientProof(c);
      if !ok || doomed {
        return Failure;
      }
      var signature := Signature(c, serverKey, AuthMessage(clientFirstBare, serverFirst, withoutProof));
      phase := Finished;
      return Success(PrintServerFinal(signature));
    }

    method Call(c: Crypto, input: Option<string>, rawNonce: seq<byte>) returns (v: Verdict)
      requires InIntRange(View().verifier)
      modifies this
      ensures v == Step(c, old(View()), input, rawNonce).1
      ensures v != Error ==> View() == Step(c, old(View()), input, rawNonce).0
    {
      hide OnFirst, OnFinal;
      if input.None? {
        return Continue("");
      }
      if input.value == "" || !ScramReaders.NulFree(input.value) {
        return Error;
      }
      match phase
      case AwaitFirst =>
        v := ReceiveFirst(input.value, rawNonce);
      case SaltSent =>
        v := ReceiveFinal(c, input.value);
      case Finished =>
        return Error;
    }
  }
}

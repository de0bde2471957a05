/** The client's half of the exchange. */
module ScramClient {
  import opened Bytes
  import opened Decimals
  import opened ScramCrypto
  import opened ScramMessages
  import ScramReaders
  import Base64

  datatype Phase = Start | NonceSent | ProofSent | Finished

  datatype State = State(
    phase: Phase,
    password: string,
    clientNonce: string,
    clientFirstBare: string,
    serverFirst: string,
    withoutProof: string,
    salted: Key)

  /** A message to send on, or the end with the server's signature checked, or an error. */
  datatype Verdict = Send(output: string) | Verified | Error

  function Init(password: string): (st: State)
  {
    State(Start, password, "", "", "", "", ZeroKey())
  }

  function Auth(st: State): (s: string)
  {
    AuthMessage(st.clientFirstBare, st.serverFirst, st.withoutProof)
  }

  function OpenExchange(st: State, rawNonce: seq<byte>): (r: (State, Verdict))
  {
    var nonce := Base64.Encoded(rawNonce);
    var first := PrintClientFirst(nonce);
    (st.(phase := NonceSent, clientNonce := nonce, clientFirstBare := first[3..]), Send(first))
  }

  function Respond(c: Crypto, st: State, input: string): (r: (State, Verdict))
  {
    match ParseServerFirst(input, st.clientNonce)
    case Err => (st, Error)
    case Ok(m) =>
      var salted := Hi(c, st.password, m.salt, m.iterations);
      var st' := st.(phase := ProofSent, serverFirst := input, withoutProof := PrintWithoutProof(m.nonce), salted := salted);
      (st', Send(PrintClientFinal(m.nonce, ClientProof(c, salted, Auth(st')))))
  }

  /** An error reported by the server, or a signature that does not match, is an error here too. */
  function Conclude(c: Crypto, st: State, input: string): (r: (State, Verdict))
  {
    match ParseServerFinal(input)
    case Err => (st, Error)
    case Ok(signature) =>
      if signature != Signature(c, ServerKey(c, st.salted), Auth(st)) then (st, Error)
      else (st.(phase := Finished), Verified)
  }

  function Step(c: Crypto, st: State, input: string, rawNonce: seq<byte>): (r: (State, Verdict))
  {
    if st.phase.Start? then OpenExchange(st, rawNonce)
    else if input == "" || !ScramReaders.NulFree(input) then (st, Error)
    else
      match st.phase
      case NonceSent => Respond(c, st, input)
      case ProofSent => Conclude(c, st, input)
      case _ => (st, Error)
  }

  /** The status record as the program keeps it. */
  class Exchange {
    var phase: Phase
    var password: string
    var clientNonce: string
    var clientFirstBare: string
    var serverFirst: string
    var withoutProof: string
    var salted: Key

    function View(): (st: State)
      reads this
    {
      State(phase, password, clientNonce, clientFirstBare, serverFirst, withoutProof, salted)
    }

    constructor (password: string)
      ensures View() == Init(password)
    {
      phase, this.password := Start, password;
      clientNonce, clientFirstBare, serverFirst, withoutProof, salted := "", "", "", "", ZeroKey();
    }

    /** Derives the salted password, keeps it for the signature check, and masks the client key. */
    method CalculateProof(c: Crypto, salt: seq<byte>, iterations: int) returns (proof: Key)
      modifies this`salted
      ensures salted == Hi(c, password, salt, iterations)
      ensures proof == ClientProof(c, salted, AuthMessage(clientFirstBare, serverFirst, withoutProof))
    {
      hide XorKey, Hi, AuthMessage;
      salted := SaltedPassword(c, password, salt, iterations);
      var masked := CopyKey(ClientKey(c, salted));
      XorInto(masked, Signature(c, StoredKey(c, salted), AuthMessage(clientFirstBare, serverFirst, withoutProof)));
      proof := masked[..];
    }

    method Challenged(c: Crypto, input: string) returns (v: Verdict)
      requires ScramReaders.NulFree(input)
      modifies this
      ensures v == Respond(c, old(View()), input).1
      ensures v != Error ==> View() == Respond(c, old(View()), input).0
    {
      hide ParseServerFirst, Hi, ClientProof, AuthMessage, PrintWithoutProof, PrintClientFinal;
      var m := ScramReaders.ReadServerFirstMessage(input, clientNonce);
      if m.Err? {
        return Error;
      }
      serverFirst := input;
      withoutProof := PrintWithoutProof(m.value.nonce);
      var proof := CalculateProof(c, m.value.salt, m.value.iterations);
      phase := ProofSent;
      return Send(PrintClientFinal(m.value.nonce, proof));
    }

    method Call(c: Crypto, input: string, rawNonce: seq<byte>) returns (v: Verdict)
      modifies this
      ensures v == Step(c, old(View()), input, rawNonce).1
      ensures v != Error ==> View() == Step(c, old(View()), input, rawNonce).0
    {
      hide Respond, ParseServerFinal, PrintClientFirst, Signature, ServerKey, AuthMessage, Base64.Encoded;
      if phase.Start? {
        clientNonce := Base64.Encode(rawNonce);
        var first := PrintClientFirst(clientNonce);
        FirstIsLong(clientNonce);
        clientFirstBare := first[3..];
        phase := NonceSent;
        return Send(first);
      }
      if input == "" || !ScramReaders.NulFree(input) {
        return Error;
      }
      match phase
      case NonceSent =>
        v := Challenged(c, input);
      case ProofSent =>
        var signature := ScramReaders.ReadServerFinalMessage(input);
        if signature.Err? {
          return Error;
        }
        if signature.value != Signature(c, ServerKey(c, salted), AuthMessage(clientFirstBare, serverFirst, withoutProof)) {
          return Error;
        }
        phase := Finished;
        return Verified;
      case _ =>
        return Error;
    }
  }

  lemma FirstIsLong(nonce: string)
    ensures |PrintClientFirst(nonce)| >= 3
  {
  }
}

/** The client run against anything: what its one success means. */
module ScramClientRuns {
  import opened Bytes
  import opened ScramCrypto
  import opened ScramMessages
  import Client = ScramClient
  import ScramReaders
  import Base64

  /** One call of the client: what arrived, and the random octets drawn for a nonce. */
  datatype Call = Call(input: string, rawNonce: seq<byte>)

  /** The state after a run; None once a call has reported an error. */
  function After(c: Crypto, password: string, calls: seq<Call>): (r: Option<Client.State>)
    decreases |calls|
  {
    if calls == [] then Some(Client.Init(password))
    else
      var last := calls[|calls| - 1];
      match After(c, password, calls[..|calls| - 1])
      case None => None
      case Some(st) =>
        var (st', v) := Client.Step(c, st, last.input, last.rawNonce);
        if v.Error? then None else Some(st')
  }

  /** What the k-th call of a run reports, if the run gets that far. */
  function VerdictAt(c: Crypto, password: string, calls: seq<Call>, k: nat): (r: Option<Client.Verdict>)
    requires k < |calls|
  {
    match After(c, password, calls[..k])
    case None => None
    case Some(st) => Some(Client.Step(c, st, calls[k].input, calls[k].rawNonce).1)
  }

  predicate Text(input: string) { input != "" && ScramReaders.NulFree(input) }

  /** The nonce of the run, drawn by its first call. */
  function Nonce(calls: seq<Call>): (s: string)
    requires calls != []
  {
    Base64.Encoded(calls[0].rawNonce)
  }

  /** The second call brought a challenge on the client's own nonce. */
  predicate Challenged(calls: seq<Call>)
  {
    |calls| >= 2 && Text(calls[1].input) && ParseServerFirst(calls[1].input, Nonce(calls)).Ok?
  }

  /** The state the challenge leads to: everything in it is from the password or from the wire. */
  function Answered(c: Crypto, password: string, calls: seq<Call>): (st: Client.State)
    requires Challenged(calls)
  {
    var m := ParseServerFirst(calls[1].input, Nonce(calls)).value;
    Client.State(Client.ProofSent, password, Nonce(calls), "n=,r=" + Nonce(calls), calls[1].input,
                 PrintWithoutProof(m.nonce), Hi(c, password, m.salt, m.iterations))
  }

  /** The third call brought the signature of the key that the password and the challenge give. */
  predicate Signed(c: Crypto, password: string, calls: seq<Call>)
    requires Challenged(calls)
  {
    var m := ParseServerFirst(calls[1].input, Nonce(calls)).value;
    && |calls| >= 3 && Text(calls[2].input)
    && ParseServerFinal(calls[2].input) ==
         Ok(Signature(c, ServerKey(c, Hi(c, password, m.salt, m.iterations)),
                      AuthMessage("n=,r=" + Nonce(calls), calls[1].input, PrintWithoutProof(m.nonce))))
  }

  /**
   * The invariant of every run: its length gives the phase, and the state is made of the password, the
   * nonce drawn, and the challenge received.
   */
  lemma {:induction false} RunInvariant(c: Crypto, password: string, calls: seq<Call>)
    ensures var r := After(c, password, calls);
            && (|calls| == 0 ==> r == Some(Client.Init(password)))
            && (|calls| == 1 ==> r == Some(Client.Init(password).(phase := Client.NonceSent, clientNonce := Nonce(calls),
                                                                  clientFirstBare := "n=,r=" + Nonce(calls))))
            && (|calls| == 2 ==> r == if Challenged(calls) then Some(Answered(c, password, calls)) else None)
            && (|calls| == 3 ==> r == if Challenged(calls) && Signed(c, password, calls)
                                      then Some(Answered(c, password, calls).(phase := Client.Finished)) else None)
            && (|calls| > 3 ==> r.None?)
    decreases |calls|
  {
    hide ParseServerFirst, ParseServerFinal, PrintWithoutProof, PrintClientFinal, PrintClientFirst, Signature, ServerKey,
      AuthMessage, Hi, ClientProof, Base64.Encoded, ScramReaders.NulFree;
    if calls == [] {
    } else {
      var shorter := calls[..|calls| - 1];
      RunInvariant(c, password, shorter);
      assert forall i :: 0 <= i < |shorter| ==> shorter[i] == calls[i];
      Opening(Base64.Encoded(calls[0].rawNonce));
    }
  }

  lemma Opening(nonce: string)
    ensures |PrintClientFirst(nonce)| >= 3 && PrintClientFirst(nonce)[3..] == "n=,r=" + nonce
  {
  }

  /**
   * Over every sequence of inputs the client reports a verified server at its third call at the
   * earliest and the latest, and there exactly when the second brought a challenge on the client's own nonce and the
   * third the signature, over the messages exchanged, of the key its own password gives.
   */
  lemma VerifiedExactly(c: Crypto, password: string, calls: seq<Call>, k: nat)
    requires k < |calls|
    ensures VerdictAt(c, password, calls, k) == Some(Client.Verified)
       <==> k == 2 && Challenged(calls) && Signed(c, password, calls)
  {
    hide ParseServerFirst, ParseServerFinal, PrintWithoutProof, PrintClientFinal, PrintClientFirst, Signature, ServerKey,
      AuthMessage, Hi, ClientProof, Base64.Encoded, ScramReaders.NulFree, After;
    var prefix := calls[..k];
    RunInvariant(c, password, prefix);
    assert forall i :: 0 <= i < k ==> prefix[i] == calls[i];
  }

  /** What the client sends on the way: its nonce first, then the proof for the challenge. */
  lemma SentMessages(c: Crypto, password: string, calls: seq<Call>)
    requires Challenged(calls)
    ensures VerdictAt(c, password, calls, 0) == Some(Client.Send(PrintClientFirst(Nonce(calls))))
    ensures var m := ParseServerFirst(calls[1].input, Nonce(calls)).value;
            var st := Answered(c, password, calls);
            var reply := PrintClientFinal(m.nonce, ClientProof(c, st.salted, Client.Auth(st)));
            VerdictAt(c, password, calls, 1) == Some(Client.Send(reply))
  {
    hide ParseServerFirst, ParseServerFinal, PrintWithoutProof, PrintClientFinal, PrintClientFirst, Signature, ServerKey,
      AuthMessage, Hi, ClientProof, Base64.Encoded, ScramReaders.NulFree, After;
    RunInvariant(c, password, calls[..0]);
    RunInvariant(c, password, calls[..1]);
    assert calls[..1][0] == calls[0];
  }
}

/**
 * The readers as the program runs them: one NUL-terminated buffer, a cursor into it, and
 * attribute values returned as positions whose text ends where a comma was overwritten.
 */
module ScramReaders {
  import opened Bytes
  import opened Decimals
  import opened ScramMessages
  import Base64

  const NUL := '\0'

  predicate NulFree(s: string)
  {
    forall i :: 0 <= i < |s| ==> s[i] != NUL
  }

  /** The C string at a position: up to the first NUL, or to the end of the buffer. */
  function CString(buf: seq<char>, pos: nat): (r: string)
    requires pos <= |buf|
  {
    buf[pos..pos + IndexOf(buf[pos..], NUL)]
  }

  /** From `pos` on the buffer still holds the message and its terminator. */
  ghost predicate Intact(buf: seq<char>, input: string, pos: nat)
  {
    && NulFree(input)
    && |buf| == |input| + 1
    && pos <= |input|
    && buf[|input|] == NUL
    && forall i :: pos <= i < |input| ==> buf[i] == input[i]
  }

  /** The message text in a range is still there, closed by a NUL. */
  ghost predicate Closed(buf: seq<char>, input: string, begin: nat, end: nat)
  {
    && begin <= end <= |input| < |buf|
    && buf[end] == NUL
    && forall i :: begin <= i < end ==> buf[i] == input[i]
  }

  lemma CStringClosed(buf: seq<char>, input: string, begin: nat, end: nat)
    requires NulFree(input) && Closed(buf, input, begin, end)
    ensures CString(buf, begin) == input[begin..end]
  {
    var tail := buf[begin..];
    assert tail[end - begin] == NUL;
    assert forall i :: 0 <= i < end - begin ==> tail[i] == input[begin + i];
    assert IndexOf(tail, NUL) == end - begin;
    assert buf[begin..end] == input[begin..end];
  }

  lemma TakeValueIs(input: string, begin: nat, end: nat)
    requires begin <= end <= |input|
    requires forall i :: begin <= i < end ==> input[i] != ','
    requires end < |input| ==> input[end] == ','
    ensures TakeValue(input[begin..]) == (input[begin..end], if end < |input| then input[end + 1..] else input[end..])
  {
    var s := input[begin..];
    assert IndexOf(s, ',') == end - begin;
    assert s[..end - begin] == input[begin..end];
    if end < |input| {
      assert s[end - begin + 1..] == input[end + 1..];
    } else {
      assert input[end..] == "";
    }
  }

  /** Cuts the value that starts at `begin`: scan to a comma or the end, then overwrite the comma. */
  method CutValue(buf: array<char>, ghost input: string, begin: nat) returns (ghost end: nat, next: nat)
    requires Intact(buf[..], input, begin)
    modifies buf
    ensures begin <= end <= next <= |input| && next <= end + 1
    ensures buf[..] == old(buf[..])[end := NUL]
    ensures Intact(buf[..], input, next) && Closed(buf[..], input, begin, end)
    ensures TakeValue(input[begin..]) == (input[begin..end], input[next..])
  {
    hide TakeValue, NulFree;
    var e := ValueEnd(buf, input, begin);
    TakeValueIs(input, begin, e);
    end := e;
    if buf[e] != NUL {
      buf[e] := NUL;
      next := e + 1;
    } else {
      next := e;
    }
  }

  /** Scans to the comma or the terminator. */
  method ValueEnd(buf: array<char>, ghost input: string, begin: nat) returns (e: nat)
    requires Intact(buf[..], input, begin)
    ensures begin <= e <= |input| && e < buf.Length
    ensures forall i :: begin <= i < e ==> input[i] != ','
    ensures buf[e] == if e < |input| then ',' else NUL
    ensures e < |input| ==> input[e] == ','
  {
    e := begin;
    while buf[e] != NUL && buf[e] != ','
      invariant begin <= e <= |input|
      invariant forall i :: begin <= i < e ==> input[i] != ','
      decreases |input| - e
    {
      assert buf[..][e] == input[e];
      e := e + 1;
    }
    if e < |input| {
      assert buf[..][e] == input[e] && input[e] in input;
    }
  }

  lemma TailAt(input: string, pos: nat)
    requires pos <= |input|
    ensures |input[pos..]| == |input| - pos
    ensures forall i :: 0 <= i < |input| - pos ==> input[pos..][i] == input[pos + i]
    ensures pos + 2 <= |input| ==> input[pos..][2..] == input[pos + 2..]
  {
  }

  method ReadAttrValue(buf: array<char>, ghost input: string, pos: nat, attr: char)
    returns (ok: bool, begin: nat, ghost end: nat, next: nat)
    requires Intact(buf[..], input, pos) && attr != NUL
    modifies buf
    ensures ok <==> ReadAttr(input[pos..], attr).Ok?
    ensures ok ==> pos + 2 == begin <= end <= next <= |input| && next <= end + 1
    ensures ok ==> ReadAttr(input[pos..], attr) == Ok((input[begin..end], input[next..]))
    ensures ok ==> Intact(buf[..], input, next) && Closed(buf[..], input, begin, end)
    ensures buf[..] == if ok then old(buf[..])[end := NUL] else old(buf[..])
  {
    TailAt(input, pos);
    begin, end, next := pos, pos, pos;
    if buf[begin] != attr {
      return false, begin, end, next;
    }
    begin := begin + 1;
    if buf[begin] != '=' {
      return false, begin, end, next;
    }
    begin := begin + 1;
    end, next := CutValue(buf, input, begin);
    ok := true;
  }

  method ReadAnyAttrValue(buf: array<char>, ghost input: string, pos: nat)
    returns (ok: bool, attr: char, begin: nat, ghost end: nat, next: nat)
    requires Intact(buf[..], input, pos)
    modifies buf
    ensures ok <==> ReadAnyAttr(input[pos..]).Ok?
    ensures ok ==> pos + 2 == begin <= end <= next <= |input| && next <= end + 1
    ensures ok ==> ReadAnyAttr(input[pos..]) == Ok((attr, input[begin..end], input[next..]))
    ensures ok ==> Intact(buf[..], input, next) && Closed(buf[..], input, begin, end)
    ensures buf[..] == if ok then old(buf[..])[end := NUL] else old(buf[..])
  {
    TailAt(input, pos);
    begin, end, next := pos, pos, pos;
    attr := buf[begin];
    if !IsLetter(attr) {
      return false, attr, begin, end, next;
    }
    begin := begin + 1;
    if buf[begin] != '=' {
      return false, attr, begin, end, next;
    }
    begin := begin + 1;
    end, next := CutValue(buf, input, begin);
    ok := true;
  }

  method Duplicate(input: string) returns (buf: array<char>)
    requires NulFree(input)
    ensures fresh(buf) && Intact(buf[..], input, 0)
  {
    buf := new char[|input| + 1](i => if 0 <= i < |input| then input[i] else NUL);
  }

  /** Reads attributes until the terminator and forgets them. */
  method SkipExtensions(buf: array<char>, ghost input: string, start: nat) returns (ok: bool)
    requires Intact(buf[..], input, start)
    modifies buf
    ensures ok <==> SkipAttrs(input[start..]).Ok?
    ensures forall i :: 0 <= i <= start ==> buf[i] == old(buf[i])
  {
    hide ReadAnyAttr;
    var p := start;
    while buf[p] != NUL
      invariant start <= p && Intact(buf[..], input, p)
      invariant SkipAttrs(input[start..]) == SkipAttrs(input[p..])
      invariant forall i :: 0 <= i <= start ==> buf[i] == old(buf[i])
      decreases |input| - p
    {
      var attr: char, value: nat;
      ghost var end: nat;
      ghost var before := buf[..];
      ok, attr, value, end, p := ReadAnyAttrValue(buf, input, p);
      if !ok {
        return false;
      }
    }
    ok := true;
  }

  /** Reads attributes until a proof: where it starts, and the bounds of its value. */
  method ScanToProof(buf: array<char>, ghost input: string, start: nat)
    returns (ok: bool, from: nat, value: nat, ghost valueEnd: nat, next: nat)
    requires Intact(buf[..], input, start)
    modifies buf
    ensures ok <==> FindProof(input[start..]).Ok?
    ensures ok ==> start <= from <= value <= valueEnd <= next <= |input|
    ensures ok ==> FindProof(input[start..]) == Ok((input[from..], input[value..valueEnd], input[next..]))
    ensures ok ==> Intact(buf[..], input, next) && Closed(buf[..], input, value, valueEnd)
    ensures forall i :: 0 <= i <= start ==> buf[i] == old(buf[i])
  {
    hide ReadAnyAttr;
    from := start;
    var attr: char;
    ok, attr, value, valueEnd, next := ReadAnyAttrValue(buf, input, from);
    while ok && attr != 'p'
      invariant start <= from <= |input|
      invariant ok <==> ReadAnyAttr(input[from..]).Ok?
      invariant ok ==> from < value <= valueEnd <= next <= |input|
      invariant ok ==> Intact(buf[..], input, next) && Closed(buf[..], input, value, valueEnd)
      invariant ok ==> ReadAnyAttr(input[from..]) == Ok((attr, input[value..valueEnd], input[next..]))
      invariant FindProof(input[start..]) == FindProof(input[from..])
      invariant forall i :: 0 <= i <= start ==> buf[i] == old(buf[i])
      decreases ok, |input| - next
    {
      from := next;
      ok, attr, value, valueEnd, next := ReadAnyAttrValue(buf, input, from);
    }
  }

  /** The server's reading of the opening message. */
  method ReadClientFirstMessage(input: string) returns (r: Result<ClientFirst>)
    requires NulFree(input)
    ensures r == ParseClientFirst(input)
  {
    hide ReadAttr, SkipAttrs, CString, IndexOf, Printable;
    var buf := Duplicate(input);
    var flag := buf[0];
    if flag != 'n' && flag != 'y' {
      return Err;
    }
    if buf[1] != ',' {
      return Err;
    }
    if buf[2] != ',' {
      return Err;
    }
    CStringClosed(buf[..], input, 3, |input|);
    assert input[3..|input|] == input[3..];
    var bare := CString(buf[..], 3);
    if buf[3] == 'm' {
      return Err;
    }
    var ok, user, userEnd, p := ReadAttrValue(buf, input, 3, 'n');
    if !ok {
      return Err;
    }
    var nonce: nat;
    ghost var nonceEnd: nat;
    ok, nonce, nonceEnd, p := ReadAttrValue(buf, input, p, 'r');
    if !ok {
      return Err;
    }
    CStringClosed(buf[..], input, nonce, nonceEnd);
    if !Printable(CString(buf[..], nonce)) {
      return Err;
    }
    ok := SkipExtensions(buf, input, p);
    if !ok {
      return Err;
    }
    CStringClosed(buf[..], input, user, userEnd);
    CStringClosed(buf[..], input, nonce, nonceEnd);
    return Ok(ClientFirst(flag, bare, CString(buf[..], user), CString(buf[..], nonce)));
  }

  /** Reads the channel binding and the nonce of the final message. */
  method ReadBindingAndNonce(buf: array<char>, ghost input: string, flag: char)
    returns (ok: bool, nonce: nat, ghost nonceEnd: nat, next: nat)
    requires Intact(buf[..], input, 0)
    modifies buf
    ensures ok <==> FinalHeader(input, flag).Ok?
    ensures ok ==> nonce <= nonceEnd <= next <= |input|
    ensures ok ==> FinalHeader(input, flag) == Ok((input[nonce..nonceEnd], input[next..]))
    ensures ok ==> Intact(buf[..], input, next) && Closed(buf[..], input, nonce, nonceEnd)
    ensures ok ==> next <= nonceEnd + 1
  {
    hide ReadAttr, CString, IndexOf, BindingMatches;
    assert input[0..] == input;
    nonce, nonceEnd, next := 0, 0, 0;
    var binding: nat;
    ghost var bindingEnd: nat;
    ok, binding, bindingEnd, next := ReadAttrValue(buf, input, 0, 'c');
    if !ok {
      return false, nonce, nonceEnd, next;
    }
    CStringClosed(buf[..], input, binding, bindingEnd);
    if !BindingMatches(CString(buf[..], binding), flag) {
      return false, nonce, nonceEnd, next;
    }
    ok, nonce, nonceEnd, next := ReadAttrValue(buf, input, next, 'r');
  }

  /** Scans for the proof, decodes it, and insists that nothing follows. */
  method ReadProof(buf: array<char>, ghost input: string, start: nat) returns (r: Result<(nat, Key)>)
    requires Intact(buf[..], input, start)
    modifies buf
    ensures r.Ok? <==> FinalProof(input[start..]).Ok?
    ensures r.Ok? ==> start <= r.value.0 <= |input| && FinalProof(input[start..]) == Ok((input[r.value.0..], r.value.1))
    ensures forall i :: 0 <= i <= start ==> buf[i] == old(buf[i])
  {
    hide FindProof, Base64.Decoded, CString, IndexOf;
    var ok, from, value, valueEnd, p := ScanToProof(buf, input, start);
    if !ok {
      return Err;
    }
    CStringClosed(buf[..], input, value, valueEnd);
    var decoded := Base64.Decode(CString(buf[..], value));
    if decoded.None? || |decoded.value| != KEY_LEN {
      return Err;
    }
    if buf[p] != NUL {
      return Err;
    }
    return Ok((from, decoded.value));
  }

  /** The server's reading of the final message. */
  method ReadClientFinalMessage(input: string, flag: char) returns (r: Result<ClientFinal>)
    requires NulFree(input)
    ensures r == ParseClientFinal(input, flag)
  {
    hide FinalHeader, FinalProof, CString, IndexOf;
    var buf := Duplicate(input);
    var ok, nonce, nonceEnd, p := ReadBindingAndNonce(buf, input, flag);
    if !ok {
      return Err;
    }
    var proof := ReadProof(buf, input, p);
    if proof.Err? {
      return Err;
    }
    CStringClosed(buf[..], input, nonce, nonceEnd);
    return Ok(ClientFinal(CString(buf[..], nonce), input[..proof.value.0 - 1], proof.value.1));
  }

  /** The client's reading of the challenge: nonce, salt and iteration count. */
  method ReadServerFirstMessage(input: string, clientNonce: string) returns (r: Result<ServerFirst>)
    requires NulFree(input)
    ensures r == ParseServerFirst(input, clientNonce)
  {
    hide ReadAttr, Base64.Decoded, Strtol, ToInt, CString, IndexOf;
    var buf := Duplicate(input);
    assert input[0..] == input;
    var ok, nonce, nonceEnd, p := ReadAttrValue(buf, input, 0, 'r');
    if !ok {
      return Err;
    }
    CStringClosed(buf[..], input, nonce, nonceEnd);
    var text := CString(buf[..], nonce);
    if |text| < |clientNonce| || text[..|clientNonce|] != clientNonce {
      return Err;
    }
    var salt, count: nat;
    ghost var saltEnd, countEnd: nat;
    ok, salt, saltEnd, p := ReadAttrValue(buf, input, p, 's');
    if !ok {
      return Err;
    }
    CStringClosed(buf[..], input, salt, saltEnd);
    var decoded := Base64.Decode(CString(buf[..], salt));
    ok, count, countEnd, p := ReadAttrValue(buf, input, p, 'i');
    if !ok {
      return Err;
    }
    CStringClosed(buf[..], input, count, countEnd);
    var n := Strtol(CString(buf[..], count));
    if n.rest != "" || ToInt(n.value) < 1 || decoded.None? {
      return Err;
    }
    return Ok(ServerFirst(text, decoded.value, ToInt(n.value)));
  }

  method ReadServerFinalMessage(input: string) returns (r: Result<Key>)
    requires NulFree(input)
    ensures r == ParseServerFinal(input)
  {
    hide ReadAttr, Base64.Decoded, CString, IndexOf;
    var buf := Duplicate(input);
    assert input[0..] == input;
    var ok, value, valueEnd, p := ReadAttrValue(buf, input, 0, 'v');
    if !ok {
      return Err;
    }
    CStringClosed(buf[..], input, value, valueEnd);
    var decoded := Base64.Decode(CString(buf[..], value));
    if decoded.None? || |decoded.value| != KEY_LEN {
      return Err;
    }
    return Ok(decoded.value);
  }
}

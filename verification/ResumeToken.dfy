/** The bus's resume-id wire format "<streamID>:<seq>" (contracts/event/resume.go). */
module ResumeToken {
  import opened Wrappers
  import opened Decimal

  /** The place of the first colon, or |v|. */
  function FirstColon(v: string): (i: nat)
    ensures i <= |v| && (i < |v| ==> v[i] == ':')
    ensures forall k :: 0 <= k < i ==> v[k] != ':'
  {
    if v == "" || v[0] == ':' then 0 else 1 + FirstColon(v[1..])
  }

  function Encode(streamID: string, n: int): string {
    streamID + ":" + FormatInt(n)
  }

  function Parse(v: string): Option<(string, int)> {
    var i := FirstColon(v);
    if i == |v| then None
    else
      match ParseInt(v[i + 1..])
      case None => None
      case Some(n) => Some((v[..i], n))
  }

  /** The position read back is the one encoded exactly when the stream id has no colon and the number fits 64 bits. */
  lemma {:induction false} RoundTrip(streamID: string, n: int)
    ensures Parse(Encode(streamID, n)) == Some((streamID, n)) <==> ':' !in streamID && IsInt64(n)
    ensures ':' !in streamID && !IsInt64(n) ==> Parse(Encode(streamID, n)) == None
  {
    hide ParseInt, FormatInt, IsInt64;
    var v := Encode(streamID, n);
    var i := FirstColon(v);
    assert v[|streamID|] == ':';
    assert forall k :: 0 <= k < |streamID| ==> v[k] == streamID[k];
    if ':' !in streamID {
      assert i == |streamID|;
      assert v[..i] == streamID && v[i + 1..] == FormatInt(n);
      IntRoundTrip(n);
    } else {
      assert i < |streamID|;
      assert |v[..i]| == i;
    }
  }

  /** Two positions never share a token. */
  lemma {:induction false} TokensAreDistinct(a: string, m: int, b: string, n: int)
    requires ':' !in a && ':' !in b && IsInt64(m) && IsInt64(n)
    requires Encode(a, m) == Encode(b, n)
    ensures a == b && m == n
  {
    RoundTrip(a, m);
    RoundTrip(b, n);
  }
}

/** C strings as bytes: a buffer is read, as `CStr::from_ptr` and C's
    `strlen` read it, up to its first 0 byte. */
module CStrings {
  import opened Base

  predicate NulFree(b: seq<U8>)
  {
    forall i :: 0 <= i < |b| ==> b[i] != 0
  }

  /** The index of the first 0 byte, or `|b|` when there is none. */
  function FirstNul(b: seq<U8>): (k: nat)
    ensures k <= |b| && NulFree(b[..k])
    ensures k < |b| <==> !NulFree(b)
    ensures k < |b| ==> b[k] == 0
    decreases |b|
  {
    if |b| == 0 then 0
    else if b[0] == 0 then 0
    else
      var k := 1 + FirstNul(b[1..]);
      assert forall i :: 1 <= i < k ==> b[..k][i] == b[1..][..k - 1][i - 1];
      assert k < |b| ==> b[k] == b[1..][k - 1];
      assert NulFree(b) ==> NulFree(b[1..]) by {
        if NulFree(b) { forall i | 0 <= i < |b| - 1 ensures b[1..][i] != 0 { assert b[1..][i] == b[i + 1]; } }
      }
      k
  }

  /** `CStr::from_ptr` on a buffer: the bytes before the first 0, or nothing
      when the buffer has no 0 (the read would run past it). */
  function ReadCStr(buf: seq<U8>): (r: Option<seq<U8>>)
    ensures r.Some? <==> !NulFree(buf)
    ensures r.Some? ==> NulFree(r.value) && |r.value| < |buf| && r.value == buf[..|r.value|] && buf[|r.value|] == 0
  {
    var k := FirstNul(buf);
    if k < |buf| then Some(buf[..k]) else None
  }

  /** A 0 byte with none before it is the first one. */
  lemma {:induction false} FirstNulAt(b: seq<U8>, k: nat)
    requires k < |b| && b[k] == 0 && NulFree(b[..k])
    ensures FirstNul(b) == k
    decreases k
  {
    if k > 0 {
      assert b[0] == b[..k][0];
      assert b[1..][..k - 1] == b[..k][1..];
      FirstNulAt(b[1..], k - 1);
    }
  }

  /** A terminated buffer reads back as its bytes when they hold no 0, and as
      the bytes before the first embedded 0 otherwise. */
  lemma ReadTerminated(s: seq<U8>)
    ensures ReadCStr(s + [0]).Some?
    ensures NulFree(s) ==> ReadCStr(s + [0]) == Some(s)
    ensures !NulFree(s) ==> ReadCStr(s + [0]) == Some(s[..FirstNul(s)])
  {
    var b := s + [0];
    if NulFree(s) {
      assert b[..|s|] == s;
      FirstNulAt(b, |s|);
    } else {
      var j := FirstNul(s);
      assert b[..j] == s[..j];
      FirstNulAt(b, j);
    }
  }
}

/** NUL-terminated strings in fixed buffers. */
module CStrings {
  import opened Bits

  /** A NUL-terminated buffer seen as a C string: everything before the first NUL. */
  function CString(s: seq<byte>): (r: seq<byte>)
    ensures |r| <= |s|
  {
    s[..FirstNul(s, 0)]
  }

  /** The index of the first NUL at or after i, or the end. */
  function FirstNul(s: seq<byte>, i: nat): (n: nat)
    requires i <= |s|
    ensures i <= n <= |s|
    decreases |s| - i
  {
    if i == |s| || s[i] == 0 then i else FirstNul(s, i + 1)
  }

  lemma {:induction false} FirstNulMeaning(s: seq<byte>, i: nat)
    requires i <= |s|
    ensures forall k :: i <= k < FirstNul(s, i) ==> s[k] != 0
    ensures FirstNul(s, i) < |s| ==> s[FirstNul(s, i)] == 0
    decreases |s| - i
  {
    if i < |s| && s[i] != 0 {
      FirstNulMeaning(s, i + 1);
    }
  }

  predicate NulFree(s: seq<byte>) {
    forall i :: 0 <= i < |s| ==> s[i] != 0
  }

  lemma CStringUnchanged(s: seq<byte>)
    requires NulFree(s)
    ensures CString(s) == s
  {
    FirstNulMeaning(s, 0);
  }

  /** The buffer holds a terminator. */
  predicate Terminated(s: seq<byte>) {
    FirstNul(s, 0) < |s|
  }
}

/** Zero-filling the first bytes of a buffer in place, as RtlZeroMemory does,
 *  specified by a function on the buffer's contents. */
module ZeroFill {

  /** n zero bytes. */
  function Zeros(n: nat): (z: seq<bv8>)
    ensures |z| == n
    ensures forall i :: 0 <= i < n ==> z[i] == 0
  {
    if n == 0 then [] else Zeros(n - 1) + [0]
  }

  /** The contents s after zeroing its first n bytes. */
  function ZeroFilled(s: seq<bv8>, n: nat): (r: seq<bv8>)
    requires n <= |s|
    ensures |r| == |s|
    ensures forall i :: 0 <= i < n ==> r[i] == 0
    ensures forall i :: n <= i < |s| ==> r[i] == s[i]
  {
    Zeros(n) + s[n..]
  }

  /** Zero-filling is idempotent. */
  lemma ZeroFilledIdempotent(s: seq<bv8>, n: nat)
    requires n <= |s|
    ensures ZeroFilled(ZeroFilled(s, n), n) == ZeroFilled(s, n)
  {
  }

  /** Zero-filling leaves the contents as they are exactly when the first n
   *  bytes are already zero. */
  lemma ZeroFilledUnchangedIff(s: seq<bv8>, n: nat)
    requires n <= |s|
    ensures ZeroFilled(s, n) == s <==> forall i :: 0 <= i < n ==> s[i] == 0
  {
  }

  /** Zeroing no bytes changes nothing; zeroing all of them gives zeros. */
  lemma ZeroFilledBounds(s: seq<bv8>)
    ensures ZeroFilled(s, 0) == s
    ensures ZeroFilled(s, |s|) == Zeros(|s|)
  {
  }

  /** RtlZeroMemory: writes zero into the first `length` bytes of the buffer.
   *  The buffer must hold at least that many bytes. */
  method RtlZeroMemory(destination: array<bv8>, length: nat)
    requires length <= destination.Length
    modifies destination
    ensures destination[..] == ZeroFilled(old(destination[..]), length)
  {
    var i := 0;
    while i < length
      invariant i <= length
      invariant forall k :: 0 <= k < i ==> destination[k] == 0
      invariant forall k :: i <= k < destination.Length ==> destination[k] == old(destination[k])
    {
      destination[i] := 0;
      i := i + 1;
    }
    assert forall k :: 0 <= k < destination.Length ==>
      destination[..][k] == ZeroFilled(old(destination[..]), length)[k];
  }
}

/** Byte strings in UTF-8, and cutting one on a rune boundary as `preview` does. */
module Utf8 {
  import opened Common

  /** utf8.RuneStart: not a continuation byte. */
  predicate RuneStart(b: byte) { !(0x80 <= b <= 0xBF) }

  predicate Tail(b: byte) { 0x80 <= b <= 0xBF }

  /** The test as utf8.RuneStart makes it. */
  lemma RuneStartIff(b: byte)
    ensures RuneStart(b) <==> b & 0xC0 != 0x80
    ensures Tail(b) <==> b & 0xC0 == 0x80
  {}

  /** The length of the well-formed rune that s starts with, or 0: the syntax of section 4 of RFC 3629. */
  function RuneLen(s: seq<byte>): (n: nat)
    ensures n <= |s| && n <= 4
    ensures n > 0 ==> RuneStart(s[0]) && forall i :: 1 <= i < n ==> Tail(s[i])
  {
    if s == [] then 0
    else if s[0] <= 0x7F then 1
    else if |s| >= 2 && 0xC2 <= s[0] <= 0xDF && Tail(s[1]) then 2
    else if |s| >= 3 && Tail(s[2]) &&
            ( (s[0] == 0xE0 && 0xA0 <= s[1] <= 0xBF)
              || (0xE1 <= s[0] <= 0xEC && Tail(s[1]))
              || (s[0] == 0xED && 0x80 <= s[1] <= 0x9F)
              || (0xEE <= s[0] <= 0xEF && Tail(s[1]))) then 3
    else if |s| >= 4 && Tail(s[2]) && Tail(s[3]) &&
            ( (s[0] == 0xF0 && 0x90 <= s[1] <= 0xBF)
              || (0xF1 <= s[0] <= 0xF3 && Tail(s[1]))
              || (s[0] == 0xF4 && 0x80 <= s[1] <= 0x8F)) then 4
    else 0
  }

  predicate Valid(s: seq<byte>) {
    s == [] || (RuneLen(s) > 0 && Valid(s[RuneLen(s)..]))
  }

  /** A prefix that holds the first rune starts with that rune; a shorter one with none. */
  lemma RuneLenOfPrefix(s: seq<byte>, k: nat)
    requires k <= |s| && RuneLen(s) > 0
    ensures k >= RuneLen(s) ==> RuneLen(s[..k]) == RuneLen(s)
    ensures k < RuneLen(s) ==> RuneLen(s[..k]) == 0
  {}

  /** In valid UTF-8 the valid proper prefixes are exactly those that end before a rune start. */
  lemma {:induction false} ValidPrefixIffRuneStart(s: seq<byte>, k: nat)
    requires Valid(s) && k < |s|
    ensures Valid(s[..k]) <==> RuneStart(s[k])
    decreases |s|
  {
    var n := RuneLen(s);
    RuneLenOfPrefix(s, k);
    if k >= n && k > 0 {
      assert s[..k][n..] == s[n..][..k - n];
      ValidPrefixIffRuneStart(s[n..], k - n);
    }
  }

  /** A rune is at most four bytes long. */
  lemma {:induction false} RuneStartNearby(s: seq<byte>, k: nat)
    requires Valid(s) && k < |s|
    ensures exists j :: 0 <= j <= k <= j + 3 && RuneStart(s[j])
    decreases |s|
  {
    var n := RuneLen(s);
    if k < n {
      assert RuneStart(s[0]);
    } else {
      RuneStartNearby(s[n..], k - n);
      var j :| 0 <= j <= k - n <= j + 3 && RuneStart(s[n..][j]);
      assert RuneStart(s[j + n]);
    }
  }

  /** The loop of `preview`: the last position up to `limit` at which a rune may start. */
  method CutPoint(s: seq<byte>, limit: nat) returns (end: nat)
    requires limit < |s|
    ensures end <= limit && (end == 0 || RuneStart(s[end]))
    ensures forall k :: end < k <= limit ==> !RuneStart(s[k])
    ensures Valid(s) ==> limit <= end + 3 && Valid(s[..end])
    ensures Valid(s) ==> forall k :: end < k <= limit ==> !Valid(s[..k])
  {
    end := limit;
    while end > 0 && !RuneStart(s[end])
      invariant end <= limit
      invariant forall k :: end < k <= limit ==> !RuneStart(s[k])
    {
      end := end - 1;
    }
    if Valid(s) {
      RuneStartNearby(s, limit);
      ValidPrefixIffRuneStart(s, end);
      forall k | end < k <= limit ensures !Valid(s[..k]) { ValidPrefixIffRuneStart(s, k); }
    }
  }
}

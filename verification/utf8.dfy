/** Byte-level view of Rust `str` slicing: an index is a valid slice end only on a
    character boundary of the UTF-8 encoding. */
module Utf8 {
  import opened Types

  /** Bytes 0x80..0xBF continue a multi-byte character. */
  predicate IsContinuation(b: Byte) {
    0x80 <= b < 0xC0
  }

  /** `str::is_char_boundary`: index 0, the end, or any index whose byte starts a character. */
  predicate IsCharBoundary(s: seq<Byte>, i: nat) {
    i == 0 || i == |s| || (i < |s| && !IsContinuation(s[i]))
  }

  /** Number of bytes of the character whose first byte is `lead` (0 if it cannot lead). */
  function SequenceLength(lead: Byte): nat {
    if lead < 0x80 then 1
    else if 0xC2 <= lead < 0xE0 then 2
    else if 0xE0 <= lead < 0xF0 then 3
    else if 0xF0 <= lead < 0xF5 then 4
    else 0
  }

  /** The bytes split into whole characters: a lead byte followed by the right number of
      continuation bytes. Every string Rust can hold satisfies this. */
  predicate Wellformed(s: seq<Byte>)
    decreases |s|
  {
    if |s| == 0 then true
    else
      var n := SequenceLength(s[0]);
      && 0 < n <= |s|
      && (forall k :: 1 <= k < n ==> IsContinuation(s[k]))
      && Wellformed(s[n..])
  }

  /** In well-formed UTF-8, the byte right after an ASCII prefix starts a character. */
  lemma {:induction false} AsciiPrefixEndsOnBoundary(s: seq<Byte>, i: nat)
    requires Wellformed(s)
    requires i <= |s|
    requires forall k :: 0 <= k < i ==> s[k] < 0x80
    ensures IsCharBoundary(s, i)
    decreases i
  {
    if 0 < i < |s| {
      assert SequenceLength(s[0]) == 1;
      var rest := s[1..];
      AsciiPrefixEndsOnBoundary(rest, i - 1);
      assert rest[i - 1] == s[i];
    }
  }

  /** In well-formed UTF-8, a non-ASCII byte right after an ASCII prefix leads a multi-byte
      character, so the next byte exists and continues it. */
  lemma {:induction false} AsciiPrefixThenLead(s: seq<Byte>, i: nat)
    requires Wellformed(s)
    requires i < |s|
    requires forall k :: 0 <= k < i ==> s[k] < 0x80
    ensures 0x80 <= s[i] ==> i + 1 < |s| && IsContinuation(s[i + 1])
    decreases i
  {
    if 0 < i {
      assert SequenceLength(s[0]) == 1;
      var rest := s[1..];
      AsciiPrefixThenLead(rest, i - 1);
      assert rest[i - 1] == s[i];
      assert i < |rest| ==> rest[i] == s[i + 1];
    }
  }
}

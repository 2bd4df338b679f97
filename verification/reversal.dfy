/** The handler's reversal `words.split('').reverse().join('')`, one function
    per step, on UTF-16 code units. */
module Reversal {
  import opened Utf16

  /** `s.split('')`: an array holding one single-code-unit string per code
      unit of `s`, in order. */
  function Split(s: Utf16String): (parts: seq<Utf16String>)
    ensures |parts| == |s|
    ensures forall i :: 0 <= i < |s| ==> parts[i] == [s[i]]
  {
    if s == [] then [] else [[s[0]]] + Split(s[1..])
  }

  /** `a.reverse()`: the elements of `a` in the opposite order. */
  function Reverse<T>(a: seq<T>): (r: seq<T>)
    ensures |r| == |a|
    ensures forall i :: 0 <= i < |a| ==> r[i] == a[|a| - 1 - i]
  {
    if a == [] then [] else Reverse(a[1..]) + [a[0]]
  }

  /** True when every string of `parts` is one code unit long, as the
      strings `split('')` produces are. */
  predicate AllSingletons(parts: seq<Utf16String>) {
    forall i :: 0 <= i < |parts| ==> |parts[i]| == 1
  }

  /** `parts.join('')`: the concatenation of `parts` with an empty separator.
      Joining strings one code unit long each yields exactly those code
      units, in order. */
  function Join(parts: seq<Utf16String>): (r: Utf16String)
    ensures AllSingletons(parts) ==> |r| == |parts|
    ensures AllSingletons(parts) ==> forall i :: 0 <= i < |parts| ==> r[i] == parts[i][0]
  {
    if parts == [] then [] else parts[0] + Join(parts[1..])
  }

  /** `join('')` undoes `split('')`. */
  lemma {:induction false} JoinSplit(s: Utf16String)
    ensures Join(Split(s)) == s
  {
    if s != [] {
      JoinSplit(s[1..]);
      assert Split(s) == [[s[0]]] + Split(s[1..]);
      assert Split(s)[1..] == Split(s[1..]);
    }
  }

  /** The whole expression `s.split('').reverse().join('')`: the code units
      of `s` read backwards, so its length is that of `s`. */
  function ReverseUnits(s: Utf16String): (r: Utf16String)
    ensures |r| == |s|
    ensures forall i :: 0 <= i < |s| ==> r[i] == s[|s| - 1 - i]
  {
    Join(Reverse(Split(s)))
  }

  /** The three-step pipeline agrees with reversing the code units directly. */
  lemma ReverseUnitsIsReverse(s: Utf16String)
    ensures ReverseUnits(s) == Reverse(s)
  {
  }

  /** Reversal is an involution. */
  lemma ReverseInvolution<T>(a: seq<T>)
    ensures Reverse(Reverse(a)) == a
  {
  }

  /** Reversing the reversed words gives the original words back. */
  lemma ReverseUnitsInvolution(s: Utf16String)
    ensures ReverseUnits(ReverseUnits(s)) == s
  {
  }

  /** The empty string reverses to the empty string. */
  lemma ReverseUnitsEmpty()
    ensures ReverseUnits([]) == []
  {
  }

  /** The reversal works per code unit: a surrogate pair at `i` comes out as
      a low surrogate followed by a high one, which is no longer a pair, so a
      character outside the BMP is broken in two. */
  lemma SurrogatePairBroken(s: Utf16String, i: int)
    requires IsSurrogatePairAt(s, i)
    ensures var r := ReverseUnits(s);
      IsLowSurrogate(r[|s| - 2 - i]) && IsHighSurrogate(r[|s| - 1 - i]) &&
      !IsSurrogatePairAt(r, |s| - 2 - i)
  {
  }

  /** A combining mark after its base letter ends up before it: "e" followed
      by U+0301 COMBINING ACUTE ACCENT reverses to U+0301 followed by "e". */
  lemma CombiningMarkMovesFirst()
    ensures ReverseUnits([0x65, 0x301]) == [0x301, 0x65]
  {
  }
}

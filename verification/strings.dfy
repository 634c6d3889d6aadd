/** Model of source/monkey/string.c: duplicating and joining C strings.
    A C string is modelled as the `string` of its characters before the terminating NUL. */
module Strings {
  import opened LibC

  /** MonkeyStrdup: a copy of the C string `str`, which ends at its first NUL. */
  function Strdup(str: string): (r: string)
    ensures r <= str && '\0' !in r
    ensures '\0' !in str ==> r == str
  {
    str[..StrLen(str)]
  }

  /** MonkeyStrndup: exactly the first `n` characters of `str`; `memcpy` reads all `n` of them. */
  function Strndup(str: string, n: nat): (r: string)
    requires n <= |str|
    ensures |r| == n && r <= str
  {
    str[..n]
  }

  /** The concatenation of `strings` in order (the reference definition for joining). */
  function Concat(strings: seq<string>): string
  {
    if strings == [] then "" else Concat(strings[..|strings| - 1]) + strings[|strings| - 1]
  }

  /** The sum of the lengths of `strings`. */
  function TotalLength(strings: seq<string>): nat
  {
    if strings == [] then 0 else TotalLength(strings[..|strings| - 1]) + |strings[|strings| - 1]|
  }

  lemma {:induction false} ConcatLength(strings: seq<string>)
    ensures |Concat(strings)| == TotalLength(strings)
  {
    if strings != [] {
      ConcatLength(strings[..|strings| - 1]);
    }
  }

  /** Concatenation distributes over appending sequences of strings. */
  lemma {:induction false} ConcatAppend(a: seq<string>, b: seq<string>)
    ensures Concat(a + b) == Concat(a) + Concat(b)
    decreases |b|
  {
    if b == [] {
      assert a + b == a;
    } else {
      var b' := b[..|b| - 1];
      assert (a + b)[..|a + b| - 1] == a + b';
      ConcatAppend(a, b');
    }
  }

  /** The prefix of `strings` up to `i + 1` concatenates to the prefix up to `i` followed by `strings[i]`. */
  lemma ConcatPrefixStep(strings: seq<string>, i: nat)
    requires i < |strings|
    ensures Concat(strings[..i + 1]) == Concat(strings[..i]) + strings[i]
  {
    assert strings[..i + 1][..i] == strings[..i];
  }

  /** Copies `s` into `buffer` starting at `pos`, leaving the characters before `pos` alone. */
  method CopyInto(buffer: array<char>, pos: nat, s: string)
    requires pos + |s| <= buffer.Length
    modifies buffer
    ensures buffer[..pos] == old(buffer[..pos])
    ensures buffer[pos..pos + |s|] == s
  {
    var j := 0;
    while j < |s|
      invariant j <= |s|
      invariant buffer[..pos] == old(buffer[..pos])
      invariant buffer[pos..pos + j] == s[..j]
    {
      buffer[pos + j] := s[j];
      assert buffer[pos..pos + j + 1] == buffer[pos..pos + j] + [buffer[pos + j]];
      j := j + 1;
    }
  }

  /** The C strings the character buffers `strings` denote: each cut at its first NUL. */
  function CStrings(strings: seq<string>): (r: seq<string>)
    ensures |r| == |strings|
    ensures forall k | 0 <= k < |r| :: r[k] == CString(strings[k])
  {
    seq(|strings|, k requires 0 <= k < |strings| => CString(strings[k]))
  }

  /** Each C string is the first `strlen` characters of its buffer. */
  lemma PieceIsPrefix(strings: seq<string>, i: nat)
    requires i < |strings|
    ensures CStrings(strings)[i] == strings[i][..StrLen(strings[i])]
  {
  }

  /** A prefix of the pieces joins to no more than all of them. */
  lemma ConcatPrefixBound(strings: seq<string>, i: nat)
    requires i < |strings|
    ensures |Concat(strings[..i + 1])| <= |Concat(strings)|
  {
    ConcatAppend(strings[..i + 1], strings[i + 1..]);
    assert strings[..i + 1] + strings[i + 1..] == strings;
  }

  /** Buffers without a NUL denote themselves. */
  lemma CStringsNulFree(strings: seq<string>)
    ensures (forall k | 0 <= k < |strings| :: '\0' !in strings[k]) ==> CStrings(strings) == strings
  {
  }

  /** The first pass of MonkeyStringJoin: the `strlen` of every string, and their sum. */
  method MeasureLengths(strings: seq<string>) returns (lengths: seq<nat>, totalLength: nat)
    ensures |lengths| == |strings|
    ensures forall k | 0 <= k < |strings| :: lengths[k] == StrLen(strings[k])
    ensures totalLength == |Concat(CStrings(strings))|
  {
    var pieces := CStrings(strings);
    lengths := [];
    totalLength := 0;
    var i := 0;
    while i < |strings|
      invariant i <= |strings| && |lengths| == i
      invariant forall k | 0 <= k < i :: lengths[k] == StrLen(strings[k])
      invariant totalLength == TotalLength(pieces[..i])
    {
      assert pieces[..i + 1][..i] == pieces[..i];
      lengths := lengths + [StrLen(strings[i])];
      totalLength := totalLength + lengths[i];
      i := i + 1;
    }
    assert pieces[..|pieces|] == pieces;
    ConcatLength(pieces);
  }

  lemma SliceJoin(s: seq<char>, a: nat, b: nat)
    requires a <= b <= |s|
    ensures s[..b] == s[..a] + s[a..b]
  {
  }

  /** MonkeyStringJoin: a first pass records every `strlen` and the total, a second pass copies
      that many characters of each string behind the previous ones into a buffer of the total
      length plus a NUL terminator. The result is the C strings joined in order, and so exactly
      the strings joined when none holds a NUL. */
  method StringJoin(strings: seq<string>) returns (result: string)
    ensures result == Concat(CStrings(strings))
    ensures |result| == TotalLength(CStrings(strings))
    ensures (forall k | 0 <= k < |strings| :: '\0' !in strings[k]) ==> result == Concat(strings)
  {
    hide CStrings, StrLen;
    var pieces := CStrings(strings);
    var lengths, totalLength := MeasureLengths(strings);
    var buffer := new char[totalLength + 1];
    var currentPos := 0;
    var i := 0;
    while i < |strings|
      invariant i <= |strings|
      invariant currentPos == |Concat(pieces[..i])| <= totalLength
      invariant buffer[..currentPos] == Concat(pieces[..i])
    {
      ConcatPrefixStep(pieces, i);
      ConcatPrefixBound(pieces, i);
      PieceIsPrefix(strings, i);
      CopyInto(buffer, currentPos, strings[i][..lengths[i]]);
      SliceJoin(buffer[..], currentPos, currentPos + lengths[i]);
      currentPos := currentPos + lengths[i];
      i := i + 1;
    }
    assert pieces[..i] == pieces;
    ConcatLength(pieces);
    buffer[currentPos] := '\0';
    result := buffer[..currentPos];
    CStringsNulFree(strings);
  }

  /** The pieces of `strings` separated by `sep`, as the printers build parameter and argument lists. */
  function JoinWith(strings: seq<string>, sep: string): string
  {
    if strings == [] then ""
    else if |strings| == 1 then strings[0]
    else JoinWith(strings[..|strings| - 1], sep) + sep + strings[|strings| - 1]
  }

  /** Joining adds one separator between each pair of neighbouring pieces and nothing else. */
  lemma {:induction false} JoinWithLength(strings: seq<string>, sep: string)
    ensures |JoinWith(strings, sep)| == TotalLength(strings) + (if strings == [] then 0 else (|strings| - 1) * |sep|)
  {
    if |strings| > 1 {
      JoinWithLength(strings[..|strings| - 1], sep);
      var init := strings[..|strings| - 1];
      assert init[..|init| - 1] == strings[..|strings| - 2];
      assert TotalLength([strings[0]]) == |strings[0]| by {
        assert [strings[0]][..0] == [];
      }
    } else if |strings| == 1 {
      assert strings[..0] == [];
    }
  }
}

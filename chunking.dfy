/**
 * Splitting the percent-encoded payload into URL-sized parts:
 * `encodedUri.match(/.{1,1600}/g)`. The global match walks the string left
 * to right; where `.` cannot match (a line terminator) it moves one
 * character on, otherwise it takes the longest run of at most 1600
 * non-terminators.
 */
module Chunking {
  /** The longest part a beacon carries. */
  const MaxPart: nat := 1600

  /** The characters `.` does not match without the `s` flag. */
  predicate IsLineTerminator(c: char)
  {
    c == '\n' || c == '\r' || c == '\U{2028}' || c == '\U{2029}'
  }

  predicate NoLineTerminator(s: string)
  {
    forall i :: 0 <= i < |s| ==> !IsLineTerminator(s[i])
  }

  /** The length of the run of non-terminators at the start of `s`. */
  function Run(s: string): (n: nat)
    ensures n <= |s|
    ensures forall i :: 0 <= i < n ==> !IsLineTerminator(s[i])
    ensures n < |s| ==> IsLineTerminator(s[n])
    decreases |s|
  {
    if s == [] || IsLineTerminator(s[0]) then 0 else 1 + Run(s[1..])
  }

  /** The length of the greedy match of `.{1,1600}` at the start of `s`, or 0
    * where it does not match. */
  function MatchLength(s: string): (n: nat)
    ensures n <= |s| && n <= MaxPart
    ensures forall i :: 0 <= i < n ==> !IsLineTerminator(s[i])
    ensures n < |s| && n < MaxPart ==> IsLineTerminator(s[n])
    ensures s != [] && !IsLineTerminator(s[0]) ==> 1 <= n
  {
    var r := Run(s);
    if r < MaxPart then r else MaxPart
  }

  /** The matches of `s.match(/.{1,1600}/g)`, in order; `[]` where the
    * source's `match` gives `null`. */
  function MatchChunks(s: string): seq<string>
    decreases |s|
  {
    if s == [] then []
    else if IsLineTerminator(s[0]) then MatchChunks(s[1..])
    else
      var n := MatchLength(s);
      [s[..n]] + MatchChunks(s[n..])
  }

  /** The parts joined back together, in order. */
  function Concat(parts: seq<string>): string
    decreases |parts|
  {
    if parts == [] then [] else parts[0] + Concat(parts[1..])
  }

  /** `s` without its line terminators. */
  function Strip(s: string): string
    decreases |s|
  {
    if s == [] then []
    else if IsLineTerminator(s[0]) then Strip(s[1..])
    else [s[0]] + Strip(s[1..])
  }

  /** Every part is a non-empty run of at most 1600 non-terminators. */
  lemma {:induction false} MatchChunksParts(s: string)
    ensures forall i :: 0 <= i < |MatchChunks(s)| ==>
      1 <= |MatchChunks(s)[i]| <= MaxPart && NoLineTerminator(MatchChunks(s)[i])
    decreases |s|
  {
    if s != [] {
      if IsLineTerminator(s[0]) {
        MatchChunksParts(s[1..]);
      } else {
        var n := MatchLength(s);
        MatchChunksParts(s[n..]);
      }
    }
  }

  lemma {:induction false} StripPrefix(s: string, n: nat)
    requires n <= |s|
    requires forall i :: 0 <= i < n ==> !IsLineTerminator(s[i])
    ensures Strip(s) == s[..n] + Strip(s[n..])
    decreases n
  {
    if n > 0 {
      StripPrefix(s[1..], n - 1);
      assert s[1..][n - 1..] == s[n..];
      assert s[..n] == [s[0]] + s[1..][..n - 1];
    }
  }

  /** Joining the parts gives back everything `.` can match: the whole
    * string less its line terminators. */
  lemma {:induction false} MatchChunksConcat(s: string)
    ensures Concat(MatchChunks(s)) == Strip(s)
    decreases |s|
  {
    if s != [] {
      if IsLineTerminator(s[0]) {
        MatchChunksConcat(s[1..]);
      } else {
        var n := MatchLength(s);
        MatchChunksConcat(s[n..]);
        StripPrefix(s, n);
        assert MatchChunks(s)[1..] == MatchChunks(s[n..]);
      }
    }
  }

  lemma {:induction false} StripClean(s: string)
    requires NoLineTerminator(s)
    ensures Strip(s) == s
    decreases |s|
  {
    if s != [] {
      StripClean(s[1..]);
    }
  }

  /** `match` gives `null` exactly when nothing but line terminators is left. */
  lemma MatchChunksEmpty(s: string)
    ensures MatchChunks(s) == [] <==> Strip(s) == []
  {
    MatchChunksConcat(s);
    MatchChunksParts(s);
    if MatchChunks(s) != [] {
      assert |MatchChunks(s)[0]| >= 1;
    }
  }

  lemma {:induction false} RunClean(s: string)
    requires NoLineTerminator(s)
    ensures Run(s) == |s|
    decreases |s|
  {
    if s != [] {
      RunClean(s[1..]);
    }
  }

  lemma SliceOfSlice(s: string, a: nat, lo: nat, hi: nat)
    requires a <= |s| && lo <= hi <= |s| - a
    ensures s[a..][lo..hi] == s[a + lo..a + hi]
  {
  }

  /** Where part i starts in the payload. */
  function PartStart(i: nat): nat
  {
    if i == 0 then 0 else PartStart(i - 1) + MaxPart
  }

  /** Where part i ends in a payload of `len` characters. */
  function PartEnd(i: nat, len: nat): nat
  {
    if PartStart(i) + MaxPart <= len then PartStart(i) + MaxPart else len
  }

  /** Part i starts 1600*i characters in. */
  lemma {:induction false} PartStartIs(i: nat)
    ensures PartStart(i) == i * MaxPart
  {
    if i > 0 {
      PartStartIs(i - 1);
    }
  }

  /** The plain split into consecutive 1600-character slices, the last one
    * holding what remains. */
  function Slices(s: string): seq<string>
    decreases |s|
  {
    if s == [] then []
    else if |s| <= MaxPart then [s]
    else [s[..MaxPart]] + Slices(s[MaxPart..])
  }

  /** On a terminator-free string the global match is the plain split. */
  lemma {:induction false} MatchChunksAreSlices(s: string)
    requires NoLineTerminator(s)
    ensures MatchChunks(s) == Slices(s)
    decreases |s|
  {
    if s != [] {
      RunClean(s);
      if |s| <= MaxPart {
        assert s[..|s|] == s && s[|s|..] == [];
      } else {
        var rest := s[MaxPart..];
        assert NoLineTerminator(rest) by {
          forall i | 0 <= i < |rest|
            ensures !IsLineTerminator(rest[i])
          {
            assert rest[i] == s[MaxPart + i];
          }
        }
        MatchChunksAreSlices(rest);
      }
    }
  }

  /** The plain split of a non-empty string has ceil(L/1600) parts, all of
    * 1600 characters but the last, which holds the remaining 1..1600. */
  lemma {:induction false} SlicesCount(s: string)
    requires s != []
    ensures var parts := Slices(s); var n := |parts|;
      n == (|s| + MaxPart - 1) / MaxPart &&
      (forall i :: 0 <= i < n - 1 ==> |parts[i]| == MaxPart) &&
      1 <= |parts[n - 1]| <= MaxPart
    decreases |s|
  {
    if MaxPart < |s| {
      var rest := s[MaxPart..];
      SlicesCount(rest);
      assert Slices(s)[1..] == Slices(rest);
    }
  }

  /** Every part of the plain split starts inside the string. */
  lemma {:induction false} SlicesStart(s: string, i: nat)
    requires i < |Slices(s)|
    ensures PartStart(i) < |s|
    decreases i
  {
    if i > 0 {
      var rest := s[MaxPart..];
      SlicesStart(rest, i - 1);
    }
  }

  /** Part i of the plain split is the slice from 1600*i. */
  lemma {:induction false} SlicesAt(s: string, i: nat)
    requires i < |Slices(s)|
    ensures PartStart(i) < PartEnd(i, |s|) <= |s|
    ensures Slices(s)[i] == s[PartStart(i)..PartEnd(i, |s|)]
    decreases i
  {
    SlicesStart(s, i);
    if i > 0 {
      var rest := s[MaxPart..];
      SlicesAt(rest, i - 1);
      var lo, hi := PartStart(i - 1), PartEnd(i - 1, |rest|);
      assert Slices(s)[i] == Slices(rest)[i - 1] == rest[lo..hi];
      SliceOfSlice(s, MaxPart, lo, hi);
      assert MaxPart + lo == PartStart(i);
      assert MaxPart + hi == PartEnd(i, |s|);
    }
  }

  /** Joining the plain split gives the string back. */
  lemma {:induction false} SlicesConcat(s: string)
    ensures Concat(Slices(s)) == s
    decreases |s|
  {
    if MaxPart < |s| {
      var rest := s[MaxPart..];
      SlicesConcat(rest);
      assert Slices(s)[1..] == Slices(rest);
      assert s == s[..MaxPart] + rest;
    }
  }

  /** The plain split rebuilds the string, slice by slice, in ceil(L/1600)
    * parts. */
  ghost predicate SplitOf(s: string, parts: seq<string>)
  {
    var n := |parts|;
    n == (|s| + MaxPart - 1) / MaxPart &&
    (forall i :: 0 <= i < n ==>
       PartStart(i) < PartEnd(i, |s|) <= |s| && parts[i] == s[PartStart(i)..PartEnd(i, |s|)]) &&
    (forall i :: 0 <= i < n - 1 ==> |parts[i]| == MaxPart) &&
    1 <= n && 1 <= |parts[n - 1]| <= MaxPart &&
    Concat(parts) == s
  }

  lemma SlicesSplit(s: string)
    requires s != []
    ensures SplitOf(s, Slices(s))
  {
    SlicesCount(s);
    SlicesConcat(s);
    forall i | 0 <= i < |Slices(s)|
      ensures PartStart(i) < PartEnd(i, |s|) <= |s| && Slices(s)[i] == s[PartStart(i)..PartEnd(i, |s|)]
    {
      SlicesAt(s, i);
    }
  }

  /** Chunking: for a non-empty payload without line terminators, the parts
    * number ceil(L/1600); part i is the slice from `PartStart(i)` (that is,
    * 1600*i) of 1600 characters, the last part holding the remaining 1..1600;
    * joined in order they rebuild the payload. */
  lemma MatchChunksClean(s: string)
    requires s != [] && NoLineTerminator(s)
    ensures SplitOf(s, MatchChunks(s))
  {
    MatchChunksAreSlices(s);
    SlicesSplit(s);
  }

  /** The worked case: a 3199-character payload goes out as 1600 + 1599. */
  lemma ChunkExample(s: string)
    requires |s| == 3199 && NoLineTerminator(s)
    ensures |MatchChunks(s)| == 2
    ensures |MatchChunks(s)[0]| == 1600 && |MatchChunks(s)[1]| == 1599
  {
    MatchChunksClean(s);
  }
}

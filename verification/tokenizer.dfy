/**
  The splitting the shell performs with `strtok`: a line is cut into stages on
  runs of `|`, and a stage into arguments on runs of the space character. A
  token is a maximal run of characters other than the delimiter; runs of
  delimiters collapse, so no token is empty.

  Because `strtok` overwrites the delimiter that ends each token with a
  terminator, the buffer it was given reads afterwards as its text cut off at
  the end of the first token. `FirstTokenCut` states that effect.
 */
module Tokenizer {
  import opened Seqs

  /** Length of the leading run of non-delimiter characters of `s`. */
  function RunLength(s: string, d: char): (n: nat)
    ensures n <= |s|
    ensures forall i :: 0 <= i < n ==> s[i] != d
    ensures n == |s| || s[n] == d
  {
    if |s| == 0 || s[0] == d then 0 else 1 + RunLength(s[1..], d)
  }

  /** Length of the leading run of delimiters of `s` (what `strtok` skips). */
  function LeadingDelims(s: string, d: char): (n: nat)
    ensures n <= |s|
    ensures forall i :: 0 <= i < n ==> s[i] == d
    ensures n == |s| || s[n] != d
  {
    if |s| == 0 || s[0] != d then 0 else 1 + LeadingDelims(s[1..], d)
  }

  /** A well-formed token: non-empty and free of the delimiter. */
  predicate IsToken(t: string, d: char) {
    |t| > 0 && d !in t
  }

  /** The tokens of `s`: its maximal runs of non-delimiter characters, in order. */
  function Split(s: string, d: char): (ts: seq<string>)
    ensures forall k :: 0 <= k < |ts| ==> IsToken(ts[k], d)
    decreases |s|
  {
    if |s| == 0 then []
    else if s[0] == d then Split(s[1..], d)
    else
      var n := RunLength(s, d);
      [s[..n]] + Split(s[n..], d)
  }

  /** Tokens joined with exactly one delimiter between neighbours. */
  function Join(ts: seq<string>, d: char): (s: string)
  {
    if |ts| == 0 then []
    else if |ts| == 1 then ts[0]
    else ts[0] + [d] + Join(ts[1..], d)
  }

  /** All tokens concatenated without separators. */
  function Concat(ts: seq<string>): (s: string)
  {
    if |ts| == 0 then [] else ts[0] + Concat(ts[1..])
  }

  /** The characters of `s` other than the delimiter, in order. */
  function Strip(s: string, d: char): (t: string)
  {
    if |s| == 0 then []
    else if s[0] == d then Strip(s[1..], d)
    else [s[0]] + Strip(s[1..], d)
  }

  /** A run of non-delimiters followed by a delimiter is exactly one token. */
  lemma {:induction false} RunLengthExact(s: string, d: char, n: nat)
    requires n <= |s|
    requires forall i :: 0 <= i < n ==> s[i] != d
    requires n == |s| || s[n] == d
    ensures RunLength(s, d) == n
  {
  }

  /** Leading delimiters contribute no tokens. */
  lemma {:induction false} SplitSkipsDelims(s: string, d: char, k: nat)
    requires k <= |s|
    requires forall i :: 0 <= i < k ==> s[i] == d
    ensures Split(s, d) == Split(s[k..], d)
    decreases k
  {
    if k > 0 {
      assert s[1..][k - 1..] == s[k..];
      SplitSkipsDelims(s[1..], d, k - 1);
    }
  }

  /** Unfolding `Split` at a token that starts at `pos` and ends before `end`. */
  lemma SplitAtToken(s: string, d: char, pos: nat, end: nat)
    requires pos < end <= |s|
    requires forall i :: pos <= i < end ==> s[i] != d
    requires end == |s| || s[end] == d
    ensures Split(s[pos..], d) == [s[pos..end]] + Split(s[end..], d)
  {
    var t := s[pos..];
    RunLengthExact(t, d, end - pos);
    assert t[..end - pos] == s[pos..end];
    assert t[end - pos..] == s[end..];
  }

  /** A string has no tokens exactly when it consists of delimiters only. */
  lemma {:induction false} SplitEmptyIff(s: string, d: char)
    ensures Split(s, d) == [] <==> forall i :: 0 <= i < |s| ==> s[i] == d
  {
    var lead := LeadingDelims(s, d);
    SplitSkipsDelims(s, d, lead);
    if lead < |s| {
      assert s[lead] != d;
      assert s[lead..][0] == s[lead];
    }
  }

  /** Splitting undoes joining: tokens survive a round trip through `Join`. */
  lemma {:induction false} SplitJoin(ts: seq<string>, d: char)
    requires forall k :: 0 <= k < |ts| ==> IsToken(ts[k], d)
    ensures Split(Join(ts, d), d) == ts
  {
    if |ts| == 0 {
    } else if |ts| == 1 {
      var t := ts[0];
      assert forall i :: 0 <= i < |t| ==> t[i] != d;
      SplitAtToken(t, d, 0, |t|);
      assert t[0..] == t;
      assert t[0..|t|] == t;
      assert t[|t|..] == [];
    } else {
      var t := ts[0];
      var s := Join(ts, d);
      assert s == t + [d] + Join(ts[1..], d);
      assert forall i :: 0 <= i < |t| ==> s[i] == t[i] && t[i] != d;
      assert s[|t|] == d;
      SplitAtToken(s, d, 0, |t|);
      assert s[0..] == s;
      assert s[0..|t|] == t;
      assert s[|t|..][0] == d;
      assert s[|t|..][1..] == Join(ts[1..], d);
      SplitJoin(ts[1..], d);
    }
  }

  /** A trailing delimiter adds no token. */
  lemma {:induction false} SplitTrailingDelim(s: string, d: char)
    ensures Split(s + [d], d) == Split(s, d)
    decreases |s|
  {
    var s' := s + [d];
    if |s| == 0 {
      assert s'[1..] == [];
    } else if s[0] == d {
      assert s'[1..] == s[1..] + [d];
      SplitTrailingDelim(s[1..], d);
    } else {
      var n := RunLength(s, d);
      RunLengthExact(s', d, n);
      assert s'[..n] == s[..n];
      assert s'[n..] == s[n..] + [d];
      SplitTrailingDelim(s[n..], d);
    }
  }

  lemma {:induction false} StripAppend(a: string, b: string, d: char)
    ensures Strip(a + b, d) == Strip(a, d) + Strip(b, d)
    decreases |a|
  {
    if |a| > 0 {
      assert (a + b)[1..] == a[1..] + b;
      StripAppend(a[1..], b, d);
    } else {
      assert a + b == b;
    }
  }

  lemma {:induction false} StripDelimFree(a: string, d: char)
    requires forall i :: 0 <= i < |a| ==> a[i] != d
    ensures Strip(a, d) == a
    decreases |a|
  {
    if |a| > 0 {
      StripDelimFree(a[1..], d);
      assert a == [a[0]] + a[1..];
    }
  }

  /** No character other than a delimiter is lost or reordered by splitting. */
  lemma {:induction false} ConcatSplit(s: string, d: char)
    ensures Concat(Split(s, d)) == Strip(s, d)
    decreases |s|
  {
    if |s| == 0 {
    } else if s[0] == d {
      ConcatSplit(s[1..], d);
    } else {
      var n := RunLength(s, d);
      assert s == s[..n] + s[n..];
      StripAppend(s[..n], s[n..], d);
      StripDelimFree(s[..n], d);
      ConcatSplit(s[n..], d);
      assert Split(s, d)[1..] == Split(s[n..], d);
    }
  }

  /** `strtok`'s skip over delimiters, starting at `pos`. */
  method SkipDelims(s: string, d: char, pos: nat) returns (skip: nat)
    requires pos <= |s|
    ensures pos <= skip <= |s|
    ensures skip == |s| || s[skip] != d
    ensures Split(s[pos..], d) == Split(s[skip..], d)
  {
    skip := pos;
    while skip < |s| && s[skip] == d
      invariant pos <= skip <= |s|
      invariant forall i :: pos <= i < skip ==> s[i] == d
    {
      skip := skip + 1;
    }
    assert forall i :: 0 <= i < skip - pos ==> s[pos..][i] == d;
    SplitSkipsDelims(s[pos..], d, skip - pos);
    assert s[pos..][skip - pos..] == s[skip..];
  }

  /** `strtok`'s scan for the end of the token that starts at `pos`. */
  method TokenEnd(s: string, d: char, pos: nat) returns (end: nat)
    requires pos < |s| && s[pos] != d
    ensures pos < end <= |s|
    ensures Split(s[pos..], d) == [s[pos..end]] + Split(s[end..], d)
  {
    end := pos;
    while end < |s| && s[end] != d
      invariant pos <= end <= |s|
      invariant forall i :: pos <= i < end ==> s[i] != d
    {
      end := end + 1;
    }
    SplitAtToken(s, d, pos, end);
  }

  /**
    The `strtok` loop of shell.c: tokens are taken while there are any and
    fewer than `cap` have been taken, so the result is the first
    min(|Split(s, d)|, cap) tokens.
   */
  method Tokenize(s: string, d: char, cap: nat) returns (ts: seq<string>)
    ensures |ts| == if |Split(s, d)| < cap then |Split(s, d)| else cap
    ensures ts == Split(s, d)[..|ts|]
  {
    ts := [];
    var pos := SkipDelims(s, d, 0);
    assert s[0..] == s;
    while pos < |s| && |ts| < cap
      invariant 0 <= pos <= |s|
      invariant |ts| <= cap
      invariant pos < |s| ==> s[pos] != d
      invariant Split(s, d) == ts + Split(s[pos..], d)
      decreases |s| - pos
    {
      var end := TokenEnd(s, d, pos);
      var next := SkipDelims(s, d, end);
      Regroup(Split(s, d), ts, s[pos..end], Split(s[pos..], d), Split(s[next..], d));
      ts := ts + [s[pos..end]];
      pos := next;
    }
    TokenizeDone(s, d, cap, ts, pos);
  }


  lemma TokenizeDone(s: string, d: char, cap: nat, ts: seq<string>, pos: nat)
    requires pos <= |s| && |ts| <= cap
    requires pos == |s| || |ts| == cap
    requires Split(s, d) == ts + Split(s[pos..], d)
    ensures |ts| == if |Split(s, d)| < cap then |Split(s, d)| else cap
    ensures ts == Split(s, d)[..|ts|]
  {
    if pos == |s| {
      assert Split(s[pos..], d) == [];
    }
    assert Split(s, d)[..|ts|] == ts;
  }

  /**
    The buffer after `strtok` has tokenised it in place, read as a C string:
    its leading delimiters followed by its first token. A buffer with no
    token is left as it was.
   */
  function FirstTokenCut(s: string, d: char): (r: string)
    ensures |r| <= |s| && r == s[..|r|]
    ensures Split(s, d) == [] ==> r == s
    ensures Split(s, d) != [] ==> r == s[..LeadingDelims(s, d)] + Split(s, d)[0]
  {
    var lead := LeadingDelims(s, d);
    var n := RunLength(s[lead..], d);
    SplitSkipsDelims(s, d, lead);
    SplitEmptyIff(s, d);
    s[..lead + n]
  }

  /** Tokenising the cut text again yields only the first token. */
  lemma FirstTokenCutTokens(s: string, d: char)
    ensures Split(FirstTokenCut(s, d), d) == Split(s, d)[..if Split(s, d) == [] then 0 else 1]
  {
    var r := FirstTokenCut(s, d);
    if Split(s, d) != [] {
      var lead := LeadingDelims(s, d);
      var t := Split(s, d)[0];
      assert r == s[..lead] + t;
      assert forall i :: 0 <= i < lead ==> r[i] == d;
      SplitSkipsDelims(r, d, lead);
      assert r[lead..] == t;
      SplitJoin([t], d);
    }
  }
}

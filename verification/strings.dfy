/**
 * The header-only string class gma::String (Gamma/Sources/String.hpp) and the
 * std::string operations it is built on (find, find_last_of, substr).
 * Characters are Dafny chars; no encoding is modelled.
 */
module Strings {
  import opened Wrappers

  /** std::string::npos: the largest value of a 64-bit size_t. */
  const NPOS: nat := 0xFFFF_FFFF_FFFF_FFFF
  /** size_t arithmetic is modulo 2^64. */
  const SIZE_MODULUS: nat := 0x1_0000_0000_0000_0000

  function Min(a: nat, b: nat): nat { if a <= b then a else b }

  /** A size_t position: npos stands for "not found". */
  function SizeT(r: Option<nat>): nat { if r.None? then NPOS else r.value }

  /** `needle` occurs in `hay` starting at index `i`. */
  predicate OccursAt(hay: seq<char>, needle: seq<char>, i: nat)
  {
    i + |needle| <= |hay| && hay[i..i + |needle|] == needle
  }

  /**
   * std::string::find(needle, from): the first occurrence of `needle` at or
   * after `from`, or None (npos). A start past the end finds nothing, even for
   * an empty needle.
   */
  function Find(hay: seq<char>, needle: seq<char>, from: nat): (r: Option<nat>)
    ensures r.Some? ==> from <= r.value && OccursAt(hay, needle, r.value)
    ensures r.Some? ==> forall k: nat :: from <= k < r.value ==> !OccursAt(hay, needle, k)
    ensures r.None? ==> forall k: nat :: from <= k ==> !OccursAt(hay, needle, k)
    decreases |hay| - from
  {
    if from + |needle| > |hay| then None
    else if OccursAt(hay, needle, from) then Some(from)
    else Find(hay, needle, from + 1)
  }

  /** std::string::find_last_of(c): the index of the last `c`, or None (npos). */
  function FindLastOf(s: seq<char>, c: char): (r: Option<nat>)
    ensures r.None? <==> c !in s
    ensures r.Some? ==> r.value < |s| && s[r.value] == c && c !in s[r.value + 1..]
  {
    if |s| == 0 then None
    else if s[|s| - 1] == c then Some(|s| - 1)
    else
      var r := FindLastOf(s[..|s| - 1], c);
      assert r.Some? ==> s[r.value + 1..] == s[..|s| - 1][r.value + 1..] + [s[|s| - 1]];
      r
  }

  /**
   * std::string::substr(offset, count): None stands for the std::out_of_range
   * exception thrown when `offset` is past the end; otherwise at most `count`
   * characters starting at `offset`.
   */
  function Substring(s: seq<char>, offset: nat, count: nat): (r: Option<seq<char>>)
    ensures r.Some? <==> offset <= |s|
    ensures r.Some? ==> |r.value| == Min(count, |s| - offset)
    ensures r.Some? ==> forall i :: 0 <= i < |r.value| ==> r.value[i] == s[offset + i]
  {
    if offset > |s| then None
    else Some(s[offset..offset + Min(count, |s| - offset)])
  }

  // ---------------------------------------------------------------------------
  // Replace-all: reference definition

  /**
   * Every non-overlapping occurrence of `from`, found scanning left to right in
   * the ORIGINAL text, is replaced by `to`; inserted text is never rescanned.
   */
  function ReplaceAll(s: seq<char>, from: seq<char>, to: seq<char>): seq<char>
    requires |from| > 0
    decreases |s|
  {
    if |s| < |from| then s
    else if s[..|from|] == from then to + ReplaceAll(s[|from|..], from, to)
    else [s[0]] + ReplaceAll(s[1..], from, to)
  }

  lemma {:induction false} OccursAtShift(s: seq<char>, needle: seq<char>, k: nat)
    requires |s| > 0
    ensures OccursAt(s[1..], needle, k) <==> OccursAt(s, needle, k + 1)
  {
    if k + 1 + |needle| <= |s| {
      assert s[1..][k..k + |needle|] == s[k + 1..k + 1 + |needle|];
    }
  }

  /** Where no occurrence starts at the front, the first character is copied. */
  lemma {:induction false} ReplaceAllCopyFirst(s: seq<char>, from: seq<char>, to: seq<char>)
    requires |from| > 0 && |s| > 0 && !OccursAt(s, from, 0)
    ensures ReplaceAll(s, from, to) == [s[0]] + ReplaceAll(s[1..], from, to)
  {
    if |s| < |from| {
      assert ReplaceAll(s[1..], from, to) == s[1..];
      assert s == [s[0]] + s[1..];
    } else {
      assert s[0..|from|] == s[..|from|];
    }
  }

  /**
   * The replace loop with an empty `from`, as written: find("", startPos)
   * matches at startPos itself, the splice inserts `to` there, and startPos
   * moves past `to` only. The text still to scan is exactly as long as before,
   * so the loop makes no progress and never ends.
   */
  lemma {:induction false} ReplaceEmptyFromStalls(s: seq<char>, to: seq<char>, startPos: nat)
    requires startPos <= |s|
    ensures Find(s, [], startPos) == Some(startPos)
    ensures var next := s[..startPos] + to + s[startPos..];
      startPos + |to| <= |next| && |next| - (startPos + |to|) == |s| - startPos
      && Find(next, [], startPos + |to|) == Some(startPos + |to|)
  {
    assert OccursAt(s, [], startPos);
    var next := s[..startPos] + to + s[startPos..];
    assert OccursAt(next, [], startPos + |to|);
  }

  /** Text with no occurrence of `from` is left as it is. */
  lemma {:induction false} ReplaceAllNoMatch(s: seq<char>, from: seq<char>, to: seq<char>)
    requires |from| > 0
    requires forall k: nat :: !OccursAt(s, from, k)
    ensures ReplaceAll(s, from, to) == s
    decreases |s|
  {
    if |s| > 0 {
      ReplaceAllCopyFirst(s, from, to);
      forall k: nat | true ensures !OccursAt(s[1..], from, k) {
        OccursAtShift(s, from, k);
      }
      ReplaceAllNoMatch(s[1..], from, to);
      assert s == [s[0]] + s[1..];
    }
  }

  /** A prefix in which no occurrence of `from` starts is copied unchanged. */
  lemma {:induction false} ReplaceAllSkip(s: seq<char>, from: seq<char>, to: seq<char>, m: nat)
    requires |from| > 0 && m <= |s|
    requires forall k: nat :: k < m ==> !OccursAt(s, from, k)
    ensures ReplaceAll(s, from, to) == s[..m] + ReplaceAll(s[m..], from, to)
    decreases m
  {
    if m > 0 {
      ReplaceAllCopyFirst(s, from, to);
      forall k: nat | k < m - 1 ensures !OccursAt(s[1..], from, k) {
        OccursAtShift(s, from, k);
      }
      ReplaceAllSkip(s[1..], from, to, m - 1);
      assert s[1..][m - 1..] == s[m..];
      assert s[..m] == [s[0]] + s[1..][..m - 1];
    }
  }

  /** Replacing one character by another is a character-wise map. */
  lemma {:induction false} ReplaceAllCharwise(s: seq<char>, from: seq<char>, to: seq<char>)
    requires |from| == 1 && |to| == 1
    ensures |ReplaceAll(s, from, to)| == |s|
    ensures forall i :: 0 <= i < |s| ==>
      ReplaceAll(s, from, to)[i] == if s[i] == from[0] then to[0] else s[i]
    decreases |s|
  {
    if |s| >= 1 {
      ReplaceAllCharwise(s[1..], from, to);
      var r := ReplaceAll(s, from, to);
      if s[..1] == from {
        assert r == to + ReplaceAll(s[1..], from, to);
      } else {
        assert s[0] != from[0] by { assert s[..1] == [s[0]]; }
        assert r == [s[0]] + ReplaceAll(s[1..], from, to);
      }
      assert s[|from|..] == s[1..];
    }
  }

  /** Occurrences in a suffix are occurrences in the whole text, shifted. */
  lemma {:induction false} OccursInSuffix(s: seq<char>, needle: seq<char>, pos: nat, k: nat)
    requires pos <= |s|
    ensures OccursAt(s[pos..], needle, k) <==> OccursAt(s, needle, pos + k)
  {
    if pos + k + |needle| <= |s| {
      assert s[pos..][k..k + |needle|] == s[pos + k..pos + k + |needle|];
    }
  }

  /** An occurrence at the front is replaced, and scanning resumes after it. */
  lemma {:induction false} ReplaceAllAtFront(u: seq<char>, from: seq<char>, to: seq<char>)
    requires |from| > 0 && OccursAt(u, from, 0)
    ensures ReplaceAll(u, from, to) == to + ReplaceAll(u[|from|..], from, to)
  {
    assert u[..|from|] == u[0..|from|];
  }

  /** Text whose first occurrence of `from` is at `m`: copied up to `m`, then `to`, then the rest replaced. */
  lemma {:induction false} ReplaceAllFirstMatch(t: seq<char>, from: seq<char>, to: seq<char>, m: nat)
    requires |from| > 0 && OccursAt(t, from, m)
    requires forall k: nat :: k < m ==> !OccursAt(t, from, k)
    ensures ReplaceAll(t, from, to) == t[..m] + to + ReplaceAll(t[m + |from|..], from, to)
  {
    ReplaceAllSkip(t, from, to, m);
    var u := t[m..];
    OccursInSuffix(t, from, m, 0);
    ReplaceAllAtFront(u, from, to);
    assert u[|from|..] == t[m + |from|..];
    Regroup(ReplaceAll(t, from, to), t[..m], ReplaceAll(u, from, to), to, ReplaceAll(t[m + |from|..], from, to));
  }

  lemma {:induction false} Regroup(whole: seq<char>, head: seq<char>, mid: seq<char>, to: seq<char>, tail: seq<char>)
    requires whole == head + mid && mid == to + tail
    ensures whole == head + to + tail
  {
  }

  lemma {:induction false} SpliceSlices(s: seq<char>, to: seq<char>, pos: nat, p: nat, q: nat)
    requires pos <= p <= q <= |s|
    ensures var next := s[..p] + to + s[q..];
      && next[..p + |to|] == s[..pos] + s[pos..][..p - pos] + to
      && next[p + |to|..] == s[pos..][q - pos..]
  {
  }

  /**
   * One round of the replace loop: the first occurrence at or after `pos` is at
   * `p`; splicing `to` in there and resuming after it keeps the final result.
   */
  lemma {:induction false} ReplaceRound(s: seq<char>, from: seq<char>, to: seq<char>, pos: nat, p: nat)
    requires |from| > 0 && pos <= |s| && Find(s, from, pos) == Some(p)
    ensures var next := s[..p] + to + s[p + |from|..];
      && p + |to| <= |next|
      && next[..p + |to|] + ReplaceAll(next[p + |to|..], from, to) == s[..pos] + ReplaceAll(s[pos..], from, to)
  {
    var rest := s[pos..];
    var m := p - pos;
    forall k: nat | k < m ensures !OccursAt(rest, from, k) {
      OccursInSuffix(s, from, pos, k);
    }
    OccursInSuffix(s, from, pos, m);
    ReplaceAllFirstMatch(rest, from, to, m);
    SpliceSlices(s, to, pos, p, p + |from|);
    var next := s[..p] + to + s[p + |from|..];
    Recombine(next[..p + |to|], next[p + |to|..], s[..pos], rest, rest[..m], to, rest[m + |from|..], from);
  }

  lemma {:induction false} Recombine(a: seq<char>, b: seq<char>, done: seq<char>, rest: seq<char>, head: seq<char>, to: seq<char>,
                  tail: seq<char>, from: seq<char>)
    requires |from| > 0
    requires a == done + head + to && b == tail
    requires ReplaceAll(rest, from, to) == head + to + ReplaceAll(tail, from, to)
    ensures a + ReplaceAll(b, from, to) == done + ReplaceAll(rest, from, to)
  {
  }

  /** No occurrence at or after `pos`: the rest of the text is copied as it is. */
  lemma {:induction false} ReplaceFinal(s: seq<char>, from: seq<char>, to: seq<char>, pos: nat)
    requires |from| > 0 && pos <= |s| && Find(s, from, pos).None?
    ensures s[..pos] + ReplaceAll(s[pos..], from, to) == s
  {
    var rest := s[pos..];
    forall k: nat | true ensures !OccursAt(rest, from, k) {
      OccursInSuffix(s, from, pos, k);
    }
    ReplaceAllNoMatch(rest, from, to);
    assert s == s[..pos] + rest;
  }

  // ---------------------------------------------------------------------------
  // Unix paths

  /** The text of asUnixPath: every backslash becomes a slash. */
  function UnixPath(s: seq<char>): seq<char>
  {
    ReplaceAll(s, "\\", "/")
  }

  /** UnixPath keeps the length, turns each backslash into '/', and keeps every other character. */
  lemma {:induction false} UnixPathCharwise(s: seq<char>)
    ensures |UnixPath(s)| == |s|
    ensures forall i :: 0 <= i < |s| ==> UnixPath(s)[i] == if s[i] == '\\' then '/' else s[i]
    ensures '\\' !in UnixPath(s)
  {
    ReplaceAllCharwise(s, "\\", "/");
  }

  /** Text without backslashes is already a Unix path. */
  lemma {:induction false} UnixPathIdentity(s: seq<char>)
    requires '\\' !in s
    ensures UnixPath(s) == s
  {
    forall k: nat | true ensures !OccursAt(s, "\\", k) {
      if k + 1 <= |s| {
        assert s[k..k + 1] == [s[k]];
      }
    }
    ReplaceAllNoMatch(s, "\\", "/");
  }

  /** Converting twice gives the same text as converting once. */
  lemma {:induction false} UnixPathIdempotent(s: seq<char>)
    ensures UnixPath(UnixPath(s)) == UnixPath(s)
  {
    UnixPathCharwise(s);
    UnixPathIdentity(UnixPath(s));
  }

  // ---------------------------------------------------------------------------
  // Split: reference definition of the std::getline loop

  /** The first index of `c` in `s`, or |s| when there is none. */
  function IndexOf(s: seq<char>, c: char): (i: nat)
    ensures i <= |s| && c !in s[..i]
    ensures i < |s| ==> s[i] == c
  {
    if |s| == 0 then 0
    else if s[0] == c then 0
    else
      var i := 1 + IndexOf(s[1..], c);
      assert s[..i] == [s[0]] + s[1..][..i - 1];
      i
  }

  /**
   * The fields that repeated std::getline(stream, segment, c) extracts: each
   * delimiter ends a field, and a call at the end of the text extracts nothing,
   * so a trailing delimiter does not produce an empty last field.
   */
  function Fields(s: seq<char>, c: char): seq<seq<char>>
    decreases |s|
  {
    if s == [] then []
    else
      var i := IndexOf(s, c);
      if i == |s| then [s] else [s[..i]] + Fields(s[i + 1..], c)
  }

  /** The parts joined with `c` between consecutive parts. */
  function Join(parts: seq<seq<char>>, c: char): seq<char>
  {
    if parts == [] then []
    else if |parts| == 1 then parts[0]
    else parts[0] + [c] + Join(parts[1..], c)
  }

  /** `s` without its last character when that character is `c`. */
  function DropTrailing(s: seq<char>, c: char): seq<char>
  {
    if |s| > 0 && s[|s| - 1] == c then s[..|s| - 1] else s
  }

  /** No field contains the delimiter. */
  lemma {:induction false} FieldsHaveNoDelimiter(s: seq<char>, c: char)
    ensures forall k :: 0 <= k < |Fields(s, c)| ==> c !in Fields(s, c)[k]
    decreases |s|
  {
    if s != [] {
      var i := IndexOf(s, c);
      if i < |s| {
        FieldsHaveNoDelimiter(s[i + 1..], c);
      }
    }
  }

  lemma {:induction false} JoinCons(head: seq<char>, tail: seq<seq<char>>, c: char)
    requires tail != []
    ensures Join([head] + tail, c) == head + [c] + Join(tail, c)
  {
    assert ([head] + tail)[1..] == tail;
  }

  /** The fields of a text that holds a delimiter: the text before it, then the fields after it. */
  lemma {:induction false} FieldsAfterDelimiter(s: seq<char>, c: char)
    requires s != [] && IndexOf(s, c) < |s|
    ensures Fields(s, c) == [s[..IndexOf(s, c)]] + Fields(s[IndexOf(s, c) + 1..], c)
  {
  }

  lemma {:induction false} FieldsNonEmpty(s: seq<char>, c: char)
    requires s != []
    ensures Fields(s, c) != []
  {
  }

  /** Joining the fields with the delimiter gives the text back, less one trailing delimiter. */
  lemma {:induction false} JoinFields(s: seq<char>, c: char)
    ensures Join(Fields(s, c), c) == DropTrailing(s, c)
    decreases |s|
  {
    if s == [] {
    } else if IndexOf(s, c) == |s| {
      assert Fields(s, c) == [s];
      assert c !in s[..|s|];
      assert s[..|s|] == s;
    } else {
      var i := IndexOf(s, c);
      var rest := s[i + 1..];
      var head := s[..i];
      assert s == head + [c] + rest;
      FieldsAfterDelimiter(s, c);
      if rest == [] {
        assert Fields(s, c) == [head];
      } else {
        var tail := Fields(rest, c);
        FieldsNonEmpty(rest, c);
        JoinCons(head, tail, c);
        JoinFields(rest, c);
        DropTrailingAfter(s, head, rest, c);
      }
    }
  }

  /** Dropping a trailing delimiter only touches the part after the first one. */
  lemma {:induction false} DropTrailingAfter(s: seq<char>, head: seq<char>, rest: seq<char>, c: char)
    requires rest != [] && s == head + [c] + rest
    ensures DropTrailing(s, c) == head + [c] + DropTrailing(rest, c)
  {
    assert rest[|rest| - 1] == s[|s| - 1];
    if rest[|rest| - 1] == c {
      assert s[..|s| - 1] == head + [c] + rest[..|rest| - 1];
    }
  }

  /** One getline call: the field ends at the first delimiter `j`, or at the end of the text. */
  lemma {:induction false} FieldsStep(t: seq<char>, c: char, j: nat)
    requires t != [] && j <= |t| && c !in t[..j]
    requires j < |t| ==> t[j] == c
    ensures j < |t| ==> Fields(t, c) == [t[..j]] + Fields(t[j + 1..], c)
    ensures j == |t| ==> Fields(t, c) == [t]
  {
  }

  /**
   * One round of the getline loop over `s` from `pos`: the field runs to `end`
   * (the first delimiter, or the end of the text) and the next round starts
   * after the delimiter.
   */
  lemma {:induction false} SplitRound(s: seq<char>, c: char, pos: nat, end: nat)
    requires pos < |s| && pos <= end <= |s|
    requires forall k :: pos <= k < end ==> s[k] != c
    requires end < |s| ==> s[end] == c
    ensures var next := if end < |s| then end + 1 else end;
      [s[pos..end]] + Fields(s[next..], c) == Fields(s[pos..], c)
  {
    var t := s[pos..];
    assert t[..end - pos] == s[pos..end];
    FieldsStep(t, c, end - pos);
    if end < |s| {
      assert t[end - pos + 1..] == s[end + 1..];
    } else {
      assert s[pos..end] == t;
      assert s[end..] == [];
      assert Fields(s[end..], c) == [];
    }
  }

  // ---------------------------------------------------------------------------

  /** gma::String: a wrapper around one std::string, `str`. */
  class String {
    var str: seq<char>

    constructor (s: seq<char>)
      ensures str == s
    {
      str := s;
    }

    /** operator== (all three overloads compare the contents). */
    function Equals(s: seq<char>): (r: bool)
      reads this
      ensures r <==> |s| == |str| && forall i :: 0 <= i < |s| ==> s[i] == str[i]
    {
      str == s
    }

    /** substr(offset, count); count defaults to npos. None: std::out_of_range. */
    function Substr(offset: nat, count: nat := NPOS): (r: Option<seq<char>>)
      reads this
      ensures r.Some? <==> offset <= |str|
      ensures r.Some? ==> |r.value| == Min(count, |str| - offset)
      ensures r.Some? ==> str == str[..offset] + r.value + str[offset + |r.value|..]
    {
      var r := Substring(str, offset, count);
      assert r.Some? ==> r.value == str[offset..offset + |r.value|];
      r
    }

    /** contains(s): `s` occurs somewhere in the string; the empty string always does. */
    function Contains(s: seq<char>): (b: bool)
      reads this
      ensures b <==> exists i :: OccursAt(str, s, i)
      ensures |s| == 0 ==> b
    {
      assert |s| == 0 ==> OccursAt(str, s, 0);
      Find(str, s, 0).Some?
    }

    /** endsWith(end): false when `end` is longer; otherwise the string is some prefix followed by `end`. */
    function EndsWith(end: seq<char>): (b: bool)
      reads this
      ensures |end| > |str| ==> !b
      ensures b <==> exists p :: str == p + end
    {
      var len := |end|;
      if len > |str| then false
      else
        var tail := Substring(str, |str| - len, len).value;
        assert str == str[..|str| - len] + tail;
        end == tail
    }

    /** split(c): the fields std::getline extracts, pushed in order. */
    method Split(c: char) returns (parts: seq<seq<char>>)
      ensures parts == Fields(str, c)
      ensures forall k :: 0 <= k < |parts| ==> c !in parts[k]
      ensures Join(parts, c) == DropTrailing(str, c)
      ensures str == [] ==> parts == []
    {
      var s := str;
      parts := [];
      var pos := 0;
      while pos < |s|
        invariant pos <= |s|
        invariant parts + Fields(s[pos..], c) == Fields(s, c)
        decreases |s| - pos
      {
        var end := pos;
        while end < |s| && s[end] != c
          invariant pos <= end <= |s|
          invariant forall k :: pos <= k < end ==> s[k] != c
        {
          end := end + 1;
        }
        SplitRound(s, c, pos, end);
        parts := parts + [s[pos..end]];
        pos := if end < |s| then end + 1 else end;
      }
      FieldsHaveNoDelimiter(s, c);
      JoinFields(s, c);
    }

    /**
     * replace(from, to): scans with find from `startPos`, splices `to` in and
     * resumes after it. `from` must be non-empty: with an empty `from` the
     * source loop never ends.
     */
    method Replace(from: seq<char>, to: seq<char>)
      requires |from| > 0
      modifies this
      ensures str == ReplaceAll(old(str), from, to)
    {
      var s := str;
      var startPos: nat := 0;
      while true
        invariant startPos <= |s|
        invariant s[..startPos] + ReplaceAll(s[startPos..], from, to) == ReplaceAll(old(str), from, to)
        decreases |s| - startPos
      {
        var found := Find(s, from, startPos);
        if found.None? {
          ReplaceFinal(s, from, to, startPos);
          break;
        }
        var p := found.value;
        ReplaceRound(s, from, to, startPos, p);
        s := s[..p] + to + s[p + |from|..];
        startPos := p + |to|;
      }
      str := s;
    }

    /** asUnixPath(): a fresh copy with every backslash replaced by '/'; the receiver is unchanged. */
    method AsUnixPath() returns (copy: String)
      ensures fresh(copy) && copy.str == UnixPath(str)
      ensures |copy.str| == |str| && '\\' !in copy.str
    {
      copy := new String(str);
      copy.Replace("\\", "/");
      UnixPathCharwise(str);
    }
  }
}

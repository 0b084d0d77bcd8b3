/** Python string operations that the quiz table converters and the document
    section splitter rely on: `sep.join(parts)`, `s.split(sep)`, `str.isspace`
    and `s.strip()`. Strings are sequences of characters. */
module Strings {

  /** `sep.join(parts)`: the parts with one separator between neighbours. */
  function Join(parts: seq<string>, sep: string): (s: string)
    ensures |sep| > 0 ==> (s == "" <==> parts == [] || parts == [""])
  {
    if parts == [] then ""
    else if |parts| == 1 then parts[0]
    else parts[0] + sep + Join(parts[1..], sep)
  }

  /** The separator occurs in `s` starting at position `i`. */
  predicate SepAt(s: string, i: nat, sep: string)
  {
    i + |sep| <= |s| && s[i..i + |sep|] == sep
  }

  /** `s.split(sep)`: cut `s` at the leftmost occurrence of `sep`, then go on
      after that occurrence, so occurrences never overlap. A string without
      the separator (the empty string included) gives one piece. */
  function Split(s: string, sep: string): (parts: seq<string>)
    requires |sep| > 0
    ensures |parts| >= 1
    decreases |s|
  {
    if |s| < |sep| then [s]
    else if s[..|sep|] == sep then [""] + Split(s[|sep|..], sep)
    else
      var rest := Split(s[1..], sep);
      [[s[0]] + rest[0]] + rest[1..]
  }

  /** Putting a character in front of the first part puts it in front of the
      joined string. */
  lemma JoinConsFirst(c: char, parts: seq<string>, sep: string)
    requires parts != []
    ensures Join([[c] + parts[0]] + parts[1..], sep) == [c] + Join(parts, sep)
  {
    var moved := [[c] + parts[0]] + parts[1..];
    if |parts| > 1 {
      assert moved[1..] == parts[1..];
    }
  }

  /** Splitting and joining again gives back the string, for every string. */
  lemma {:induction false} SplitJoin(s: string, sep: string)
    requires |sep| > 0
    ensures Join(Split(s, sep), sep) == s
    decreases |s|
  {
    if |s| < |sep| {
    } else if s[..|sep|] == sep {
      var rest := Split(s[|sep|..], sep);
      assert Split(s, sep) == [""] + rest;
      SplitJoin(s[|sep|..], sep);
      assert Join([""] + rest, sep) == "" + sep + Join(rest, sep) by {
        assert ([""] + rest)[1..] == rest;
      }
      assert s == sep + s[|sep|..];
    } else {
      var rest := Split(s[1..], sep);
      assert Split(s, sep) == [[s[0]] + rest[0]] + rest[1..];
      SplitJoin(s[1..], sep);
      JoinConsFirst(s[0], rest, sep);
      assert s == [s[0]] + s[1..];
    }
  }

  /** No occurrence of `sep` starts inside `p`, even one that would run on into
      a separator placed right after `p`. */
  predicate NoSepWithin(p: string, sep: string)
  {
    forall i :: 0 <= i < |p| ==> !SepAt(p + sep, i, sep)
  }

  lemma {:induction false} NoSepWithinTail(p: string, sep: string)
    requires |p| > 0 && NoSepWithin(p, sep)
    ensures NoSepWithin(p[1..], sep)
  {
    forall i | 0 <= i < |p[1..]|
      ensures !SepAt(p[1..] + sep, i, sep)
    {
      assert !SepAt(p + sep, i + 1, sep);
      assert p + sep == [p[0]] + (p[1..] + sep);
      assert (p + sep)[i + 1..i + 1 + |sep|] == (p[1..] + sep)[i..i + |sep|];
    }
  }

  /** A part with no separator inside is one piece. */
  lemma {:induction false} SplitSingle(p: string, sep: string)
    requires |sep| > 0 && NoSepWithin(p, sep)
    ensures Split(p, sep) == [p]
    decreases |p|
  {
    if |p| >= |sep| {
      assert !SepAt(p + sep, 0, sep);
      assert (p + sep)[..|sep|] == p[..|sep|];
      NoSepWithinTail(p, sep);
      SplitSingle(p[1..], sep);
      assert [p[0]] + p[1..] == p;
    }
  }

  /** The first piece of `p + sep + rest` is `p` when no separator starts inside `p`. */
  lemma {:induction false} SplitAfterPart(p: string, sep: string, rest: string)
    requires |sep| > 0 && NoSepWithin(p, sep)
    ensures Split(p + sep + rest, sep) == [p] + Split(rest, sep)
    decreases |p|
  {
    var s := p + sep + rest;
    if p == "" {
      assert s[..|sep|] == sep;
      assert s[|sep|..] == rest;
    } else {
      assert !SepAt(p + sep, 0, sep);
      assert s[..|sep|] == (p + sep)[..|sep|];
      NoSepWithinTail(p, sep);
      SplitAfterPart(p[1..], sep, rest);
      assert s[1..] == p[1..] + sep + rest;
      assert [p[0]] + p[1..] == p;
    }
  }

  /** Joining parts in which no separator starts and splitting again gives
      back the parts. */
  lemma {:induction false} JoinSplit(parts: seq<string>, sep: string)
    requires |sep| > 0 && parts != []
    requires forall k :: 0 <= k < |parts| ==> NoSepWithin(parts[k], sep)
    ensures Split(Join(parts, sep), sep) == parts
    decreases |parts|
  {
    if |parts| == 1 {
      SplitSingle(parts[0], sep);
    } else {
      JoinSplit(parts[1..], sep);
      SplitAfterPart(parts[0], sep, Join(parts[1..], sep));
      assert [parts[0]] + parts[1..] == parts;
    }
  }

  /** A part without the character `c` has no separator starting inside it
      when `c` occurs in the separator and not before position `m` of it. */
  lemma NoSepWithinByChar(p: string, sep: string, c: char, m: nat)
    requires m < |sep| && sep[m] == c && c !in p
    requires forall k :: 0 <= k < m ==> sep[k] != c
    ensures NoSepWithin(p, sep)
  {
  }

  /** Python's `str.isspace`, which is also what the `\s` class of a `re`
      pattern on `str` matches. */
  predicate IsSpace(c: char)
  {
    c == ' ' || c == '\t' || c == '\n' || c == '\r' || c == '\U{000B}' || c == '\U{000C}'
    || ('\U{001C}' <= c <= '\U{001F}') || c == '\U{0085}' || c == '\U{00A0}' || c == '\U{1680}'
    || ('\U{2000}' <= c <= '\U{200A}') || c == '\U{2028}' || c == '\U{2029}' || c == '\U{202F}'
    || c == '\U{205F}' || c == '\U{3000}'
  }

  predicate AllSpace(s: string)
  {
    forall i :: 0 <= i < |s| ==> IsSpace(s[i])
  }

  /** End of the run of whitespace starting at `p` (what a greedy `\s*`
      consumes there). */
  function SkipSpace(s: string, p: nat): (n: nat)
    requires p <= |s|
    ensures p <= n <= |s| && forall i :: p <= i < n ==> IsSpace(s[i])
    ensures n < |s| ==> !IsSpace(s[n])
    decreases |s| - p
  {
    if p == |s| || !IsSpace(s[p]) then p else SkipSpace(s, p + 1)
  }

  /** A whitespace run from `p` that stops at a non-space at `i` is the one
      `SkipSpace` finds. */
  lemma SkipSpaceAt(s: string, p: nat, i: nat)
    requires p <= i < |s| && !IsSpace(s[i])
    requires forall k :: p <= k < i ==> IsSpace(s[k])
    ensures SkipSpace(s, p) == i
  {
  }

  /** Start of the run of whitespace that ends at `q`, going back no further
      than `lo`. */
  function SkipSpaceBack(s: string, q: nat, lo: nat): (n: nat)
    requires lo <= q <= |s|
    ensures lo <= n <= q && forall i :: n <= i < q ==> IsSpace(s[i])
    ensures lo < n ==> !IsSpace(s[n - 1])
    decreases q - lo
  {
    if q == lo || !IsSpace(s[q - 1]) then q else SkipSpaceBack(s, q - 1, lo)
  }

  /** The bounds `s.strip()` keeps: whitespace only outside them, and the
      kept part, when not empty, starts and ends with a non-space. */
  function StripBounds(s: string): (b: (nat, nat))
    ensures b.0 <= b.1 <= |s|
    ensures forall i :: 0 <= i < |s| && !(b.0 <= i < b.1) ==> IsSpace(s[i])
    ensures b.0 < b.1 ==> !IsSpace(s[b.0]) && !IsSpace(s[b.1 - 1])
  {
    var lo := SkipSpace(s, 0);
    (lo, SkipSpaceBack(s, |s|, lo))
  }

  /** `s.strip()`. */
  function Strip(s: string): (r: string)
    ensures r == "" <==> AllSpace(s)
    ensures r != "" ==> !IsSpace(r[0]) && !IsSpace(r[|r| - 1])
  {
    var b := StripBounds(s);
    s[b.0..b.1]
  }
}

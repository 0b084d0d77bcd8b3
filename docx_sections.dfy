/** The section splitter of app/utils/text_spillter.py. The paragraph texts of
    a document are joined with newlines, the text is split at every line that
    starts (after optional whitespace) with a `Video <token>` marker, as
    `re.split(r'^\s*Video\s+\S+', content, flags=re.MULTILINE)` does, and the
    pieces are stripped, empty ones dropped. Reading the document is an input:
    either its paragraph texts or the message of the exception it raised. */
module DocxSections {
  import opened Strings

  datatype Option<T> = None | Some(value: T)

  /** What reading the .docx file gave: its paragraph texts, or a failure. */
  datatype DocxInput = Paragraphs(texts: seq<string>) | Unreadable(message: string)

  /** What `read_docx` returns: the sections, or an error string. */
  datatype ReadOutcome = Sections(sections: seq<string>) | ErrorText(text: string)

  const ErrorPrefix: string := "Error reading .docx file: "
  const Keyword: string := "Video"

  /** `'\n'.join(full_text)`: empty exactly for no paragraphs or a single
      empty one. */
  function Combine(paragraphs: seq<string>): (content: string)
    ensures content == "" <==> paragraphs == [] || paragraphs == [""]
  {
    Join(paragraphs, "\n")
  }

  /** The combined content is the paragraph texts separated by single
      newlines: when no paragraph holds a newline itself, cutting the content
      at its newlines gives back exactly the paragraphs. */
  lemma CombineLines(paragraphs: seq<string>)
    requires paragraphs != []
    requires forall k :: 0 <= k < |paragraphs| ==> '\n' !in paragraphs[k]
    ensures Split(Combine(paragraphs), "\n") == paragraphs
  {
    forall k | 0 <= k < |paragraphs|
      ensures NoSepWithin(paragraphs[k], "\n")
    {
      NoSepWithinByChar(paragraphs[k], "\n", '\n', 0);
    }
    JoinSplit(paragraphs, "\n");
  }

  /** `^` under MULTILINE: the start of the text or just after a newline. */
  predicate LineStart(s: string, p: nat)
  {
    p == 0 || (p <= |s| && s[p - 1] == '\n')
  }

  /** End of the run of non-whitespace (`\S+`, greedy) starting at `p`. */
  function SkipNonSpace(s: string, p: nat): (q: nat)
    requires p <= |s|
    ensures p <= q <= |s|
    ensures forall i :: p <= i < q ==> !IsSpace(s[i])
    ensures q < |s| ==> IsSpace(s[q])
    decreases |s| - p
  {
    if p == |s| || IsSpace(s[p]) then p else SkipNonSpace(s, p + 1)
  }

  /** Where a match of `^\s*Video\s+\S+` that starts at `p` ends, if one
      does. The greedy runs never need to give characters back: what follows
      `\s*` must be the letter V, and what follows `\s+` a non-space. */
  function MarkerAt(s: string, p: nat): (e: Option<nat>)
    requires p <= |s|
    ensures e.Some? ==> p < e.value <= |s|
  {
    if !LineStart(s, p) then None
    else
      var i := SkipSpace(s, p);
      if i + |Keyword| > |s| || s[i..i + |Keyword|] != Keyword then None
      else
        var j := SkipSpace(s, i + |Keyword|);
        if j == i + |Keyword| then None
        else
          var k := SkipNonSpace(s, j);
          if k == j then None else Some(k)
  }

  /** `s[p..e]` is a match of `^\s*Video\s+\S+` with greedy runs: `p` starts a
      line, whitespace up to `i`, the keyword, at least one whitespace up to
      `j`, then non-whitespace from `j` up to `e`, which ends the run. */
  predicate MarkerMatch(s: string, p: nat, i: nat, j: nat, e: nat)
  {
    LineStart(s, p) && p <= i && i + |Keyword| < j < e <= |s| &&
    (forall k :: p <= k < i ==> IsSpace(s[k])) &&
    s[i..i + |Keyword|] == Keyword &&
    (forall k :: i + |Keyword| <= k < j ==> IsSpace(s[k])) &&
    (forall k :: j <= k < e ==> !IsSpace(s[k])) &&
    (e == |s| || IsSpace(s[e]))
  }

  lemma SkipNonSpaceAt(s: string, p: nat, e: nat)
    requires p <= e <= |s| && forall k :: p <= k < e ==> !IsSpace(s[k])
    requires e == |s| || IsSpace(s[e])
    ensures SkipNonSpace(s, p) == e
  {
  }

  /** `MarkerAt` finds a match exactly when there is one, and then reports
      where it ends. */
  lemma MarkerAtMatch(s: string, p: nat)
    requires p <= |s|
    ensures MarkerAt(s, p).Some? ==> exists i: nat, j: nat :: MarkerMatch(s, p, i, j, MarkerAt(s, p).value)
    ensures forall i: nat, j: nat, e: nat :: MarkerMatch(s, p, i, j, e) ==> MarkerAt(s, p) == Some(e)
    ensures MarkerAt(s, p).None? <==> forall i: nat, j: nat, e: nat :: !MarkerMatch(s, p, i, j, e)
  {
    if MarkerAt(s, p).Some? {
      var i := SkipSpace(s, p);
      var j := SkipSpace(s, i + |Keyword|);
      assert MarkerMatch(s, p, i, j, MarkerAt(s, p).value);
    }
    forall i: nat, j: nat, e: nat | MarkerMatch(s, p, i, j, e)
      ensures MarkerAt(s, p) == Some(e)
    {
      MarkerMatchFound(s, p, i, j, e);
    }
  }

  /** The greedy runs `MarkerAt` takes are the ones of any match. */
  lemma MarkerMatchFound(s: string, p: nat, i: nat, j: nat, e: nat)
    requires MarkerMatch(s, p, i, j, e)
    ensures MarkerAt(s, p) == Some(e)
  {
    assert s[i] == Keyword[0];
    SkipSpaceAt(s, p, i);
    SkipSpaceAt(s, i + |Keyword|, j);
    SkipNonSpaceAt(s, j, e);
  }

  /** The pieces `re.split` cuts out, as index pairs: the current piece began
      at `start` and positions from `pos` on are still to be tried; the
      leftmost match is taken and the search goes on after its end. */
  function Spans(s: string, start: nat, pos: nat): (spans: seq<(nat, nat)>)
    requires start <= pos <= |s|
    ensures |spans| >= 1 && spans[0].0 == start
    decreases |s| - pos
  {
    if pos == |s| then [(start, |s|)]
    else
      match MarkerAt(s, pos)
      case Some(e) => [(start, pos)] + Spans(s, e, e)
      case None => Spans(s, start, pos + 1)
  }

  /** Each entry of `m` is a match that `MarkerAt` finds at its begin, at or
      after `pos`. */
  predicate AllMatches(s: string, pos: nat, m: seq<(nat, nat)>)
  {
    forall k :: 0 <= k < |m| ==> pos <= m[k].0 < |s| && MarkerAt(s, m[k].0) == Some(m[k].1)
  }

  /** Each entry ends no later than the next one begins. */
  predicate InOrder(m: seq<(nat, nat)>)
  {
    forall k :: 0 <= k < |m| - 1 ==> m[k].1 <= m[k + 1].0
  }

  lemma AllMatchesCons(s: string, pos: nat, e: nat, rest: seq<(nat, nat)>)
    requires pos < e && pos < |s| && MarkerAt(s, pos) == Some(e) && AllMatches(s, e, rest)
    ensures AllMatches(s, pos, [(pos, e)] + rest)
  {
    var m := [(pos, e)] + rest;
    forall k | 0 <= k < |m|
      ensures pos <= m[k].0 < |s| && MarkerAt(s, m[k].0) == Some(m[k].1)
    {
      if k > 0 {
        assert m[k] == rest[k - 1];
      }
    }
  }

  lemma InOrderCons(b: (nat, nat), rest: seq<(nat, nat)>)
    requires InOrder(rest) && forall k :: 0 <= k < |rest| ==> b.1 <= rest[k].0
    ensures InOrder([b] + rest)
  {
    var m := [b] + rest;
    forall k | 0 <= k < |m| - 1
      ensures m[k].1 <= m[k + 1].0
    {
      assert m[k + 1] == rest[k];
      if k > 0 {
        assert m[k] == rest[k - 1];
      }
    }
  }

  /** The matches `re.split` uses, as (begin, end) pairs, from `pos` on: the
      leftmost match, then the leftmost one after it ends, and so on. */
  function Matches(s: string, pos: nat): (m: seq<(nat, nat)>)
    requires pos <= |s|
    ensures AllMatches(s, pos, m) && InOrder(m)
    decreases |s| - pos
  {
    if pos == |s| then []
    else
      match MarkerAt(s, pos)
      case Some(e) =>
        AllMatchesCons(s, pos, e, Matches(s, e));
        InOrderCons((pos, e), Matches(s, e));
        [(pos, e)] + Matches(s, e)
      case None => Matches(s, pos + 1)
  }

  /** The pieces are exactly what lies between the matches: one more piece
      than matches, and match k runs from the end of piece k to the start of
      piece k + 1. */
  lemma {:induction false} SpansMatches(s: string, start: nat, pos: nat)
    requires start <= pos <= |s|
    ensures var spans := Spans(s, start, pos); var m := Matches(s, pos);
      |spans| == |m| + 1 &&
      forall k :: 0 <= k < |m| ==> m[k] == (spans[k].1, spans[k + 1].0)
    decreases |s| - pos
  {
    if pos < |s| {
      match MarkerAt(s, pos)
      case Some(e) =>
        SpansMatches(s, e, e);
        var spans := Spans(s, start, pos);
        var m := Matches(s, pos);
        assert spans == [(start, pos)] + Spans(s, e, e);
        assert m == [(pos, e)] + Matches(s, e);
        forall k | 0 <= k < |m|
          ensures m[k] == (spans[k].1, spans[k + 1].0)
        {
          if k > 0 {
            assert m[k] == Matches(s, e)[k - 1];
            assert spans[k] == Spans(s, e, e)[k - 1];
          }
        }
      case None =>
        SpansMatches(s, start, pos + 1);
    }
  }

  function Slices(s: string, spans: seq<(nat, nat)>): (pieces: seq<string>)
    requires forall k :: 0 <= k < |spans| ==> spans[k].0 <= spans[k].1 <= |s|
    ensures |pieces| == |spans|
    ensures forall k :: 0 <= k < |spans| ==> pieces[k] == s[spans[k].0..spans[k].1]
  {
    if spans == [] then [] else [s[spans[0].0..spans[0].1]] + Slices(s, spans[1..])
  }

  /** `spans` is the way `re.split` cuts `s`: the pieces tile the text from
      `start` to its end; consecutive pieces are separated by exactly one
      marker match; and no match begins inside a piece. */
  predicate SplitsAs(s: string, start: nat, spans: seq<(nat, nat)>)
  {
    |spans| >= 1 && spans[0].0 == start && spans[|spans| - 1].1 == |s| &&
    (forall k :: 0 <= k < |spans| ==> spans[k].0 <= spans[k].1 <= |s|) &&
    (forall k :: 0 <= k < |spans| - 1 ==> MarkerAt(s, spans[k].1) == Some(spans[k + 1].0)) &&
    (forall k, p :: 0 <= k < |spans| && spans[k].0 <= p < spans[k].1 ==> MarkerAt(s, p) == None)
  }

  /** A piece that ends where a match begins, followed by a valid cut of the
      rest of the text, is a valid cut. */
  lemma SplitsAsCons(s: string, start: nat, pos: nat, e: nat, rest: seq<(nat, nat)>)
    requires start <= pos < |s| && MarkerAt(s, pos) == Some(e)
    requires forall p :: start <= p < pos ==> MarkerAt(s, p) == None
    requires SplitsAs(s, e, rest)
    ensures SplitsAs(s, start, [(start, pos)] + rest)
  {
    var spans := [(start, pos)] + rest;
    forall k | 0 <= k < |spans| - 1
      ensures MarkerAt(s, spans[k].1) == Some(spans[k + 1].0)
    {
      if k > 0 {
        assert spans[k] == rest[k - 1] && spans[k + 1] == rest[k];
      }
    }
    forall k, p | 0 <= k < |spans| && spans[k].0 <= p < spans[k].1
      ensures MarkerAt(s, p) == None
    {
      if k > 0 {
        assert spans[k] == rest[k - 1];
      }
    }
  }

  /** `Spans` cuts the text as `re.split` does: the leftmost match each time,
      never two overlapping ones, none missed. */
  lemma {:induction false} SpansSplit(s: string, start: nat, pos: nat)
    requires start <= pos <= |s|
    requires forall p :: start <= p < pos ==> MarkerAt(s, p) == None
    ensures SplitsAs(s, start, Spans(s, start, pos))
    decreases |s| - pos
  {
    if pos < |s| {
      var m := MarkerAt(s, pos);
      if m.Some? {
        SpansSplit(s, m.value, m.value);
        SplitsAsCons(s, start, pos, m.value, Spans(s, m.value, m.value));
      } else {
        SpansSplit(s, start, pos + 1);
      }
    }
  }

  /** `re.split(r'^\s*Video\s+\S+', content, flags=re.MULTILINE)`: one piece
      more than there are matches. */
  function SplitAtMarkers(content: string): (pieces: seq<string>)
    ensures |pieces| == |Matches(content, 0)| + 1
  {
    SpansSplit(content, 0, 0);
    SpansMatches(content, 0, 0);
    Slices(content, Spans(content, 0, 0))
  }

  /** `[s.strip() for s in sections if s.strip()]`. */
  function StripNonEmpty(pieces: seq<string>): (sections: seq<string>)
    ensures |sections| <= |pieces|
    ensures forall k :: 0 <= k < |sections| ==>
      sections[k] != "" && !IsSpace(sections[k][0]) && !IsSpace(sections[k][|sections[k]| - 1])
  {
    if pieces == [] then []
    else
      var first := Strip(pieces[0]);
      if first != "" then [first] + StripNonEmpty(pieces[1..]) else StripNonEmpty(pieces[1..])
  }

  /** Lines 16-22 of `read_docx`: join, split at the markers, strip, drop empties. */
  function SplitSections(paragraphs: seq<string>): (sections: seq<string>)
    ensures |sections| <= |Matches(Combine(paragraphs), 0)| + 1
    ensures forall k :: 0 <= k < |sections| ==>
      sections[k] != "" && !IsSpace(sections[k][0]) && !IsSpace(sections[k][|sections[k]| - 1])
  {
    StripNonEmpty(SplitAtMarkers(Combine(paragraphs)))
  }

  /** `read_docx`: the sections, or, when the document could not be read,
      an error string that starts with the fixed prefix. */
  function ReadDocx(input: DocxInput): (r: ReadOutcome)
    ensures r.ErrorText? <==> input.Unreadable?
    ensures r.ErrorText? ==>
      |ErrorPrefix| <= |r.text| && r.text[..|ErrorPrefix|] == ErrorPrefix && r.text[|ErrorPrefix|..] == input.message
    ensures r.Sections? ==> r.sections == SplitSections(input.texts)
  {
    match input
    case Paragraphs(texts) => Sections(SplitSections(texts))
    case Unreadable(message) => ErrorText(ErrorPrefix + message)
  }

  /** Without any marker the whole text is one piece. */
  lemma {:induction false} SpansWithoutMarker(s: string, start: nat, pos: nat)
    requires start <= pos <= |s|
    requires forall p :: pos <= p < |s| ==> MarkerAt(s, p) == None
    ensures Spans(s, start, pos) == [(start, |s|)]
    decreases |s| - pos
  {
    if pos < |s| {
      SpansWithoutMarker(s, start, pos + 1);
    }
  }

  /** If no line carries a marker, the result is the stripped content when
      that is non-empty and nothing otherwise. */
  lemma NoMarkerOneSection(paragraphs: seq<string>)
    requires var content := Combine(paragraphs);
      forall p :: 0 <= p < |content| ==> MarkerAt(content, p) == None
    ensures var content := Combine(paragraphs);
      SplitSections(paragraphs) == if Strip(content) != "" then [Strip(content)] else []
  {
    var content := Combine(paragraphs);
    SpansWithoutMarker(content, 0, 0);
    assert content[0..|content|] == content;
    assert SplitAtMarkers(content) == [content];
  }

  /** Spans that follow one another without overlapping, each well formed. */
  predicate Ordered(s: string, spans: seq<(nat, nat)>)
  {
    (forall k :: 0 <= k < |spans| ==> spans[k].0 <= spans[k].1 <= |s|) &&
    forall k :: 0 <= k < |spans| - 1 ==> spans[k].1 <= spans[k + 1].0
  }

  /** The part of `s[a..b]` that `strip()` keeps, as positions in `s`. */
  function TrimSpan(s: string, a: nat, b: nat): (t: (nat, nat))
    requires a <= b <= |s|
    ensures a <= t.0 <= t.1 <= b
  {
    var k := StripBounds(s[a..b]);
    (a + k.0, a + k.1)
  }

  /** Stripping a slice is slicing at its trimmed span. */
  lemma TrimSpanStrip(s: string, a: nat, b: nat)
    requires a <= b <= |s|
    ensures var t := TrimSpan(s, a, b); Strip(s[a..b]) == s[t.0..t.1]
  {
    var piece := s[a..b];
    var k := StripBounds(piece);
    assert Strip(piece) == piece[k.0..k.1];
    SliceOfSlice(s, a, b, k.0, k.1);
  }

  lemma SliceOfSlice(s: string, a: nat, b: nat, i: nat, j: nat)
    requires a <= b <= |s| && i <= j <= b - a
    ensures s[a..b][i..j] == s[a + i..a + j]
  {
    forall x | 0 <= x < j - i
      ensures s[a..b][i..j][x] == s[a + i..a + j][x]
    {
    }
  }

  /** Each span narrowed to what `strip()` keeps of it; spans that keep
      nothing are dropped. */
  function TrimSpans(s: string, spans: seq<(nat, nat)>): (r: seq<(nat, nat)>)
    requires forall k :: 0 <= k < |spans| ==> spans[k].0 <= spans[k].1 <= |s|
    ensures forall k :: 0 <= k < |r| ==> r[k].0 < r[k].1 <= |s|
  {
    if spans == [] then []
    else
      var t := TrimSpan(s, spans[0].0, spans[0].1);
      var rest := TrimSpans(s, spans[1..]);
      if t.0 < t.1 then [t] + rest else rest
  }

  /** Trimming ordered spans never moves a start before the first span's start. */
  lemma {:induction false} TrimSpansFrom(s: string, spans: seq<(nat, nat)>, lo: nat)
    requires Ordered(s, spans) && (spans != [] ==> lo <= spans[0].0)
    ensures forall k :: 0 <= k < |TrimSpans(s, spans)| ==> lo <= TrimSpans(s, spans)[k].0
  {
    if spans != [] {
      var t := TrimSpan(s, spans[0].0, spans[0].1);
      var rest := TrimSpans(s, spans[1..]);
      assert TrimSpans(s, spans) == if t.0 < t.1 then [t] + rest else rest;
      TrimSpansFrom(s, spans[1..], lo);
    }
  }

  /** Stripping the pieces and dropping the empty ones is slicing the
      content at the trimmed spans. */
  lemma {:induction false} TrimSpansSlices(s: string, spans: seq<(nat, nat)>)
    requires forall k :: 0 <= k < |spans| ==> spans[k].0 <= spans[k].1 <= |s|
    ensures StripNonEmpty(Slices(s, spans)) == Slices(s, TrimSpans(s, spans))
  {
    if spans != [] {
      TrimSpanStrip(s, spans[0].0, spans[0].1);
      TrimSpansSlices(s, spans[1..]);
      assert Slices(s, spans)[1..] == Slices(s, spans[1..]);
      assert Slices(s, spans)[0] == s[spans[0].0..spans[0].1];
    }
  }

  lemma OrderedTail(s: string, spans: seq<(nat, nat)>)
    requires spans != [] && Ordered(s, spans)
    ensures Ordered(s, spans[1..])
  {
    assert forall k :: 0 <= k < |spans| - 1 ==> spans[1..][k] == spans[k + 1];
  }

  lemma OrderedCons(s: string, t: (nat, nat), rest: seq<(nat, nat)>)
    requires t.0 <= t.1 <= |s| && Ordered(s, rest) && (rest != [] ==> t.1 <= rest[0].0)
    ensures Ordered(s, [t] + rest)
  {
    var r := [t] + rest;
    assert forall k :: 1 <= k < |r| ==> r[k] == rest[k - 1];
  }

  lemma {:induction false} TrimSpansOrdered(s: string, spans: seq<(nat, nat)>)
    requires Ordered(s, spans)
    ensures Ordered(s, TrimSpans(s, spans))
  {
    if spans != [] {
      var t := TrimSpan(s, spans[0].0, spans[0].1);
      var rest := TrimSpans(s, spans[1..]);
      OrderedTail(s, spans);
      TrimSpansOrdered(s, spans[1..]);
      if t.0 < t.1 {
        if |spans| > 1 {
          TrimSpansFrom(s, spans[1..], spans[1].0);
        }
        OrderedCons(s, t, rest);
      }
    }
  }

  /** Where each section lies in the combined content. */
  function SectionSpans(paragraphs: seq<string>): seq<(nat, nat)>
  {
    var content := Combine(paragraphs);
    SpansSplit(content, 0, 0);
    TrimSpans(content, Spans(content, 0, 0))
  }

  /** The sections are pieces of the combined content, in the order they
      occur there and without overlapping. */
  lemma SectionsInOrder(paragraphs: seq<string>)
    ensures var content := Combine(paragraphs);
      var sections := SplitSections(paragraphs);
      var spans := SectionSpans(paragraphs);
      |spans| == |sections| &&
      (forall k :: 0 <= k < |spans| ==>
        spans[k].0 < spans[k].1 <= |content| && sections[k] == content[spans[k].0..spans[k].1]) &&
      (forall k :: 0 <= k < |spans| - 1 ==> spans[k].1 <= spans[k + 1].0)
  {
    var content := Combine(paragraphs);
    var cut := Spans(content, 0, 0);
    SpansSplit(content, 0, 0);
    forall k | 0 <= k < |cut| - 1
      ensures cut[k].1 <= cut[k + 1].0
    {
      assert MarkerAt(content, cut[k].1) == Some(cut[k + 1].0);
    }
    TrimSpansOrdered(content, cut);
    TrimSpansSlices(content, cut);
  }
}

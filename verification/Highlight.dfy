/** The search highlighter of the log view (`highlight_matches` in logs.rs, `line_matches_search`). */
module Highlight {
  import opened Wrappers
  import opened Text

  datatype Span = Span(text: string, highlighted: bool)

  predicate MatchAt(s: string, query: string, i: nat) {
    i + |query| <= |s| && s[i..i + |query|] == query
  }

  /** `s[from..].find(query)`, as a position in `s`. */
  function FindFrom(s: string, query: string, from: nat): (r: Option<nat>)
    requires from <= |s|
    ensures r.Some? ==> from <= r.value && MatchAt(s, query, r.value)
                        && forall i :: from <= i < r.value ==> !MatchAt(s, query, i)
    ensures r.None? ==> forall i :: from <= i ==> !MatchAt(s, query, i)
    decreases |s| - from
  {
    if MatchAt(s, query, from) then Some(from)
    else if from == |s| then None
    else FindFrom(s, query, from + 1)
  }

  function Plain(text: string, from: nat, to: nat): seq<Span>
    requires from <= to <= |text|
  {
    if from == to then [] else [Span(text[from..to], false)]
  }

  function Hit(text: string, from: nat, to: nat): Span
    requires from <= to <= |text|
  {
    Span(text[from..to], true)
  }

  /** The spans from `cursor` on. */
  function SpansFrom(text: string, query: string, cursor: nat): seq<Span>
    requires query != "" && cursor <= |text|
    decreases |text| - cursor
  {
    match FindFrom(Lower(text), query, cursor)
    case Some(i) => Plain(text, cursor, i) + [Hit(text, i, i + |query|)]
                    + SpansFrom(text, query, i + |query|)
    case None => Plain(text, cursor, |text|)
  }

  function Spans(text: string, query: string): seq<Span> {
    if query == "" then [Span(text, false)] else SpansFrom(text, query, 0)
  }

  /** The highlighting loop: spans up to a cursor after which there is no further match. */
  method PushMatches(text: string, query: string) returns (spans: seq<Span>, cursor: nat)
    requires query != ""
    ensures cursor <= |text| && FindFrom(Lower(text), query, cursor) == None
    ensures spans + SpansFrom(text, query, cursor) == SpansFrom(text, query, 0)
  {
    hide *;
    var lower := Lower(text);
    spans, cursor := [], 0;
    var found := FindFrom(lower, query, cursor);
    while found.Some?
      invariant cursor <= |text| && found == FindFrom(lower, query, cursor)
      invariant spans + SpansFrom(text, query, cursor) == SpansFrom(text, query, 0)
      decreases |text| - cursor
    {
      var abs := found.value;
      FoundInRange(text, query, cursor, abs);
      SpansStep(spans, text, query, cursor, abs);
      spans := PushMatch(spans, text, cursor, abs, abs + |query|);
      cursor := abs + |query|;
      found := FindFrom(lower, query, cursor);
    }
  }

  /** `highlight_matches`. */
  method HighlightMatches(text: string, query: string) returns (spans: seq<Span>)
    ensures spans == Spans(text, query)
  {
    if query == "" {
      return [Span(text, false)];
    }
    var cursor;
    spans, cursor := PushMatches(text, query);
    hide SpansFrom, FindFrom;
    SpansEnd(spans, text, query, cursor);
    if cursor < |text| {
      spans := spans + [Span(text[cursor..], false)];
    }
  }

  /** The two pushes for one match: the text before it, if any, and the match itself. */
  method PushMatch(spans: seq<Span>, text: string, cursor: nat, abs: nat, end: nat) returns (r: seq<Span>)
    requires cursor <= abs <= end <= |text|
    ensures r == spans + Plain(text, cursor, abs) + [Hit(text, abs, end)]
  {
    r := spans;
    if abs > cursor {
      r := r + [Span(text[cursor..abs], false)];
    } else {
      assert spans + Plain(text, cursor, abs) == spans;
    }
    r := r + [Hit(text, abs, end)];
  }

  /** One match further, after the spans already pushed. */
  lemma SpansStep(done: seq<Span>, text: string, query: string, cursor: nat, i: nat)
    requires query != "" && cursor <= |text| && FindFrom(Lower(text), query, cursor) == Some(i)
    requires cursor <= i && i + |query| <= |text|
    ensures done + SpansFrom(text, query, cursor)
            == done + Plain(text, cursor, i) + [Hit(text, i, i + |query|)] + SpansFrom(text, query, i + |query|)
  {
    var plain, hit, rest := Plain(text, cursor, i), [Hit(text, i, i + |query|)], SpansFrom(text, query, i + |query|);
    assert SpansFrom(text, query, cursor) == plain + hit + rest;
    hide *;
    ConcatAssoc(done + plain, hit, rest);
    ConcatAssoc(done, plain, hit + rest);
    ConcatAssoc(plain, hit, rest);
  }

  lemma SpansEnd(done: seq<Span>, text: string, query: string, cursor: nat)
    requires query != "" && cursor <= |text| && FindFrom(Lower(text), query, cursor) == None
    ensures done + SpansFrom(text, query, cursor)
            == if cursor < |text| then done + [Span(text[cursor..], false)] else done
  {
    assert text[cursor..] == text[cursor..|text|];
  }

  /** `line_matches_search`. */
  predicate LineMatchesSearch(line: string, query: string) {
    query == "" || exists i :: 0 <= i <= |line| && MatchAt(Lower(line), query, i)
  }

  // ---- Reading the spans ----

  function Concat(spans: seq<Span>): string {
    if spans == [] then "" else spans[0].text + Concat(spans[1..])
  }

  /** Where the highlighted spans start, the first span starting at `at`. */
  function Starts(spans: seq<Span>, at: nat): seq<nat>
    decreases |spans|
  {
    if spans == [] then []
    else (if spans[0].highlighted then [at] else []) + Starts(spans[1..], at + |spans[0].text|)
  }

  /** The leftmost non-overlapping matches from `from` on, without reference to how they are found:
      each is a match, no match starts between the end of one and the start of the next, none after the
      last. */
  predicate LeftmostMatches(s: string, query: string, from: nat, starts: seq<nat>)
    requires query != ""
    decreases |starts|
  {
    if starts == [] then forall i :: from <= i <= |s| ==> !MatchAt(s, query, i)
    else
      && from <= starts[0] && MatchAt(s, query, starts[0])
      && (forall i :: from <= i < starts[0] ==> !MatchAt(s, query, i))
      && LeftmostMatches(s, query, starts[0] + |query|, starts[1..])
  }

  /** There is only one such list. */
  lemma {:induction false} LeftmostUnique(s: string, query: string, from: nat, a: seq<nat>, b: seq<nat>)
    requires query != "" && LeftmostMatches(s, query, from, a) && LeftmostMatches(s, query, from, b)
    ensures a == b
    decreases |a|
  {
    if a != [] && b != [] {
      assert a[0] == b[0];
      LeftmostUnique(s, query, a[0] + |query|, a[1..], b[1..]);
      assert a == [a[0]] + a[1..] && b == [b[0]] + b[1..];
    }
  }

  lemma {:induction false} ConcatAppend(a: seq<Span>, b: seq<Span>)
    ensures Concat(a + b) == Concat(a) + Concat(b)
  {
    if a == [] {
      assert a + b == b;
    } else {
      ConcatAppend(a[1..], b);
      assert (a + b)[0] == a[0] && (a + b)[1..] == a[1..] + b;
      ConcatAssoc(a[0].text, Concat(a[1..]), Concat(b));
    }
  }

  lemma {:induction false} StartsAppend(a: seq<Span>, b: seq<Span>, at: nat)
    ensures Starts(a + b, at) == Starts(a, at) + Starts(b, at + |Concat(a)|)
    decreases |a|
  {
    if a == [] {
      assert a + b == b;
    } else {
      StartsAppend(a[1..], b, at + |a[0].text|);
      assert (a + b)[0] == a[0] && (a + b)[1..] == a[1..] + b;
      ConcatAssoc(if a[0].highlighted then [at] else [], Starts(a[1..], at + |a[0].text|),
                  Starts(b, at + |Concat(a)|));
    }
  }

  lemma OneSpan(sp: Span, at: nat)
    ensures Concat([sp]) == sp.text && Starts([sp], at) == if sp.highlighted then [at] else []
  {
    assert [sp][1..] == [] && sp.text + "" == sp.text;
  }

  lemma PlainResult(text: string, from: nat, to: nat)
    requires from <= to <= |text|
    ensures Concat(Plain(text, from, to)) == text[from..to] && Starts(Plain(text, from, to), from) == []
    ensures forall sp :: sp in Plain(text, from, to) ==> sp.text != "" && !sp.highlighted
  {
    if from < to {
      OneSpan(Span(text[from..to], false), from);
    }
  }

  /** The spans for the text up to and including one match. */
  lemma HeadResult(text: string, cursor: nat, i: nat, next: nat)
    requires cursor <= i <= next <= |text|
    ensures var head := Plain(text, cursor, i) + [Hit(text, i, next)];
            Concat(head) == text[cursor..next] && Starts(head, cursor) == [i]
  {
    var hit := Hit(text, i, next);
    PlainResult(text, cursor, i);
    OneSpan(hit, i);
    hide Plain, Concat, Starts, Hit;
    ConcatAppend(Plain(text, cursor, i), [hit]);
    StartsAppend(Plain(text, cursor, i), [hit], cursor);
    assert text[cursor..i] + text[i..next] == text[cursor..next];
  }

  lemma FoundInRange(text: string, query: string, cursor: nat, i: nat)
    requires cursor <= |text| && FindFrom(Lower(text), query, cursor) == Some(i)
    ensures cursor <= i && i + |query| <= |text|
    ensures Lower(text[i..i + |query|]) == query
  {
    assert MatchAt(Lower(text), query, i);
    assert Lower(text[i..i + |query|]) == Lower(text)[i..i + |query|];
  }

  lemma {:induction false} SpansFromResult(text: string, query: string, cursor: nat)
    requires query != "" && cursor <= |text|
    ensures Concat(SpansFrom(text, query, cursor)) == text[cursor..]
    ensures LeftmostMatches(Lower(text), query, cursor, Starts(SpansFrom(text, query, cursor), cursor))
    decreases |text| - cursor
  {
    hide MatchAt, FindFrom;
    match FindFrom(Lower(text), query, cursor)
    case None => PlainResult(text, cursor, |text|);
    case Some(i) =>
      var next := i + |query|;
      assert next <= |text| by { FoundInRange(text, query, cursor, i); }
      var head := Plain(text, cursor, i) + [Hit(text, i, next)];
      var tail := SpansFrom(text, query, next);
      assert SpansFrom(text, query, cursor) == head + tail;
      SpansFromResult(text, query, next);
      hide *;
      HeadResult(text, cursor, i, next);
      JoinText(text, cursor, next, head, tail);
      JoinStarts(cursor, i, next, head, tail);
      LeftmostCons(Lower(text), query, cursor, i, Starts(tail, next));
  }

  lemma JoinText(text: string, cursor: nat, next: nat, head: seq<Span>, tail: seq<Span>)
    requires cursor <= next <= |text| && Concat(head) == text[cursor..next] && Concat(tail) == text[next..]
    ensures Concat(head + tail) == text[cursor..]
  {
    hide *;
    ConcatAppend(head, tail);
    CutAt(text, cursor, next);
  }

  lemma JoinStarts(cursor: nat, i: nat, next: nat, head: seq<Span>, tail: seq<Span>)
    requires Starts(head, cursor) == [i] && cursor + |Concat(head)| == next
    ensures Starts(head + tail, cursor) == [i] + Starts(tail, next)
  {
    hide *;
    StartsAppend(head, tail, cursor);
  }

  lemma CutAt(text: string, from: nat, mid: nat)
    requires from <= mid <= |text|
    ensures text[from..mid] + text[mid..] == text[from..]
  {
  }

  lemma LeftmostCons(s: string, query: string, from: nat, i: nat, rest: seq<nat>)
    requires query != "" && from <= |s| && FindFrom(s, query, from) == Some(i)
    requires LeftmostMatches(s, query, i + |query|, rest)
    ensures LeftmostMatches(s, query, from, [i] + rest)
  {
    assert ([i] + rest)[0] == i && ([i] + rest)[1..] == rest;
    hide MatchAt;
  }

  /** Every span shows something, and the highlighted ones the query itself up to case. */
  predicate GoodSpan(sp: Span, query: string) {
    sp.text != "" && (sp.highlighted ==> Lower(sp.text) == query)
  }

  lemma {:induction false} SpansFromGood(text: string, query: string, cursor: nat)
    requires query != "" && cursor <= |text|
    ensures forall sp :: sp in SpansFrom(text, query, cursor) ==> GoodSpan(sp, query)
    decreases |text| - cursor
  {
    hide FindFrom, MatchAt, Lower, Plain, Hit;
    match FindFrom(Lower(text), query, cursor)
    case None => PlainGood(text, cursor, |text|, query);
    case Some(i) =>
      FoundInRange(text, query, cursor, i);
      PlainGood(text, cursor, i, query);
      HitGood(text, i, query);
      SpansFromGood(text, query, i + |query|);
      hide GoodSpan;
  }

  lemma PlainGood(text: string, from: nat, to: nat, query: string)
    requires from <= to <= |text|
    ensures forall sp :: sp in Plain(text, from, to) ==> GoodSpan(sp, query)
  {
    PlainResult(text, from, to);
  }

  lemma HitGood(text: string, i: nat, query: string)
    requires query != "" && i + |query| <= |text| && Lower(text[i..i + |query|]) == query
    ensures GoodSpan(Hit(text, i, i + |query|), query)
  {
  }

  /** The spans join back to the text in its original casing, and the highlighted ones are exactly the
      leftmost non-overlapping matches of the query in the lower-cased text; an empty query marks nothing. */
  lemma HighlightsAreLeftmostMatches(text: string, query: string)
    ensures Concat(Spans(text, query)) == text
    ensures query == "" ==> Spans(text, query) != [] && Starts(Spans(text, query), 0) == []
    ensures query != "" ==> LeftmostMatches(Lower(text), query, 0, Starts(Spans(text, query), 0))
    ensures query != "" ==> forall sp :: sp in Spans(text, query) ==> GoodSpan(sp, query)
  {
    if query == "" {
      OneSpan(Span(text, false), 0);
    } else {
      SpansFromResult(text, query, 0);
      SpansFromGood(text, query, 0);
    }
  }

  /** A highlighted stretch of `n` characters overlaps the `n` characters at `i`. */
  predicate Marked(starts: seq<nat>, i: nat, n: nat) {
    exists k :: 0 <= k < |starts| && starts[k] < i + n && i < starts[k] + n
  }

  lemma {:induction false} MatchOverlaps(s: string, query: string, from: nat, starts: seq<nat>, i: nat)
    requires query != "" && LeftmostMatches(s, query, from, starts) && from <= i && MatchAt(s, query, i)
    ensures Marked(starts, i, |query|)
    decreases |starts|
  {
    assert starts != [];
    if i >= starts[0] + |query| {
      MatchOverlaps(s, query, starts[0] + |query|, starts[1..], i);
      var k :| 0 <= k < |starts[1..]| && starts[1..][k] < i + |query| && i < starts[1..][k] + |query|;
      assert starts[k + 1] == starts[1..][k];
    } else {
      assert starts[0] < i + |query|;
    }
  }

  /** Every occurrence of the query overlaps a highlighted span. */
  lemma EveryOccurrenceIsMarked(text: string, query: string, i: nat)
    requires query != "" && MatchAt(Lower(text), query, i)
    ensures Marked(Starts(Spans(text, query), 0), i, |query|)
  {
    HighlightsAreLeftmostMatches(text, query);
    hide *;
    MatchOverlaps(Lower(text), query, 0, Starts(Spans(text, query), 0), i);
  }

  predicate AnyHighlighted(spans: seq<Span>) {
    exists sp :: sp in spans && sp.highlighted
  }

  lemma {:induction false} StartsIffHighlighted(spans: seq<Span>, at: nat)
    ensures Starts(spans, at) != [] <==> AnyHighlighted(spans)
    decreases |spans|
  {
    if spans == [] {
    } else {
      StartsIffHighlighted(spans[1..], at + |spans[0].text|);
      assert forall sp :: sp in spans <==> sp == spans[0] || sp in spans[1..];
      assert AnyHighlighted(spans) <==> spans[0].highlighted || AnyHighlighted(spans[1..]);
    }
  }

  /** For a non-empty query, a line shows a highlight exactly when the search filter keeps it. */
  lemma HighlightIffLineMatches(text: string, query: string)
    requires query != ""
    ensures AnyHighlighted(Spans(text, query)) <==> LineMatchesSearch(text, query)
  {
    HighlightsAreLeftmostMatches(text, query);
    StartsIffHighlighted(Spans(text, query), 0);
    hide Starts, Spans, Lower;
    var starts := Starts(Spans(text, query), 0);
    if LineMatchesSearch(text, query) {
      var i :| 0 <= i <= |text| && MatchAt(Lower(text), query, i);
      EveryOccurrenceIsMarked(text, query, i);
      assert starts != [];
    }
    if starts != [] {
      var i := starts[0];
      assert MatchAt(Lower(text), query, i);
      assert 0 <= i <= |text|;
      assert LineMatchesSearch(text, query);
    }
  }
}

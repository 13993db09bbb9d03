/** The string operations of Rust's standard library that the program relies on:
    trimming, splitting on a character, splitting into lines, joining, ASCII
    lower-casing.  A `char` is a Unicode scalar value, as in Rust. */
module Text {

  lemma ConcatAssoc<T>(a: seq<T>, b: seq<T>, c: seq<T>)
    ensures a + b + c == a + (b + c)
  {
  }

  // ---- Characters ----

  /** The Unicode `White_Space` property, which `str::trim` uses. */
  predicate IsWhite(c: char) {
    || '\U{9}' <= c <= '\U{D}' || c == ' ' || c == '\U{85}' || c == '\U{A0}' || c == '\U{1680}'
    || '\U{2000}' <= c <= '\U{200A}' || c == '\U{2028}' || c == '\U{2029}' || c == '\U{202F}'
    || c == '\U{205F}' || c == '\U{3000}'
  }

  function LowerChar(c: char): char {
    if 'A' <= c <= 'Z' then (c as int + 32) as char else c
  }

  /** `to_ascii_lowercase`. */
  function Lower(s: string): (r: string)
    ensures |r| == |s|
    ensures forall i :: 0 <= i < |s| ==> r[i] == LowerChar(s[i])
  {
    seq(|s|, i requires 0 <= i < |s| => LowerChar(s[i]))
  }

  /** `str::len`: the length in UTF-8 bytes. */
  function Utf8Len(s: string): (n: nat)
    ensures n >= |s|
  {
    if s == "" then 0 else
      (if s[0] < '\U{80}' then 1 else if s[0] < '\U{800}' then 2 else if s[0] < '\U{10000}' then 3 else 4)
      + Utf8Len(s[1..])
  }

  // ---- Trimming ----

  function TrimStart(s: string): string {
    if s == "" || !IsWhite(s[0]) then s else TrimStart(s[1..])
  }

  function TrimEnd(s: string): string {
    if s == "" || !IsWhite(s[|s| - 1]) then s else TrimEnd(s[..|s| - 1])
  }

  /** `str::trim`. */
  function Trim(s: string): string {
    TrimEnd(TrimStart(s))
  }

  /** A string that `trim` leaves alone. */
  predicate Trimmed(s: string) {
    s == "" || (!IsWhite(s[0]) && !IsWhite(s[|s| - 1]))
  }

  predicate Lacks(s: string, c: char) {
    forall i :: 0 <= i < |s| ==> s[i] != c
  }

  lemma LacksAppend(a: string, b: string, c: char)
    requires Lacks(a, c) && Lacks(b, c)
    ensures Lacks(a + b, c)
  {
  }

  lemma {:induction false} TrimStartSlice(s: string)
    ensures exists i :: 0 <= i <= |s| && TrimStart(s) == s[i..]
    ensures TrimStart(s) == "" || !IsWhite(TrimStart(s)[0])
  {
    if s == "" || !IsWhite(s[0]) {
      assert TrimStart(s) == s[0..];
    } else {
      TrimStartSlice(s[1..]);
      var i :| 0 <= i <= |s[1..]| && TrimStart(s[1..]) == s[1..][i..];
      assert TrimStart(s) == s[i + 1..];
    }
  }

  lemma {:induction false} TrimEndSlice(s: string)
    ensures exists j :: 0 <= j <= |s| && TrimEnd(s) == s[..j]
    ensures TrimEnd(s) == "" || !IsWhite(TrimEnd(s)[|TrimEnd(s)| - 1])
  {
    if s == "" || !IsWhite(s[|s| - 1]) {
      assert TrimEnd(s) == s[..|s|];
    } else {
      TrimEndSlice(s[..|s| - 1]);
      var j :| 0 <= j <= |s[..|s| - 1]| && TrimEnd(s[..|s| - 1]) == s[..|s| - 1][..j];
      assert TrimEnd(s) == s[..j];
    }
  }

  lemma SliceLacks(s: string, i: nat, j: nat)
    requires i <= j <= |s|
    ensures forall c :: Lacks(s, c) ==> Lacks(s[i..j], c)
  {
  }

  lemma TrimPlace(s: string) returns (i: nat, j: nat)
    ensures i <= j <= |s| && Trim(s) == s[i..j] && Trimmed(s[i..j])
  {
    hide IsWhite, TrimStart, TrimEnd;
    TrimStartSlice(s);
    i :| 0 <= i <= |s| && TrimStart(s) == s[i..];
    var t := s[i..];
    TrimEndSlice(t);
    var n :| 0 <= n <= |t| && TrimEnd(t) == t[..n];
    j := i + n;
    assert t[..n] == s[i..j];
  }

  /** Trimming yields a contiguous part of the text with no white space at either end. */
  lemma TrimSlice(s: string)
    ensures Trimmed(Trim(s))
    ensures exists i, j :: 0 <= i <= j <= |s| && Trim(s) == s[i..j]
    ensures forall c :: Lacks(s, c) ==> Lacks(Trim(s), c)
  {
    hide Trim, Trimmed, Lacks;
    var i, j := TrimPlace(s);
    SliceLacks(s, i, j);
  }

  lemma TrimId(s: string)
    requires Trimmed(s)
    ensures Trim(s) == s
  {
  }

  lemma TrimLead(w: char, s: string)
    requires IsWhite(w)
    ensures Trim([w] + s) == Trim(s)
  {
    assert ([w] + s)[1..] == s;
  }

  lemma TrimEndTail(s: string, w: char)
    requires IsWhite(w)
    ensures TrimEnd(s + [w]) == TrimEnd(s)
  {
    assert (s + [w])[..|s|] == s;
  }

  lemma {:induction false} TrimTail(s: string, w: char)
    requires IsWhite(w)
    ensures Trim(s + [w]) == Trim(s)
  {
    if s == "" {
      assert s + [w] == [w] && TrimStart([w]) == "";
    } else if IsWhite(s[0]) {
      TrimTail(s[1..], w);
      assert (s + [w])[1..] == s[1..] + [w];
    } else {
      assert TrimStart(s + [w]) == s + [w];
      TrimEndTail(s, w);
    }
  }

  /** White space after a non-blank text is trimmed off as it would be on its own. */
  lemma {:induction false} TrimEndAfter(a: string, x: string)
    requires a != "" && !IsWhite(a[|a| - 1])
    ensures TrimEnd(a + x) == a + TrimEnd(x)
  {
    if x == "" {
      assert a + x == a;
    } else {
      assert (a + x)[..|a + x| - 1] == a + x[..|x| - 1];
      if IsWhite(x[|x| - 1]) {
        TrimEndAfter(a, x[..|x| - 1]);
      }
    }
  }

  lemma {:induction false} TrimOfTrimEnd(s: string)
    ensures Trim(TrimEnd(s)) == Trim(s)
  {
    if s != "" && IsWhite(s[|s| - 1]) {
      TrimOfTrimEnd(s[..|s| - 1]);
      TrimTail(s[..|s| - 1], s[|s| - 1]);
      assert s == s[..|s| - 1] + [s[|s| - 1]];
    }
  }

  // ---- Splitting on a character ----

  /** The first position of `c`, or the length when `c` does not occur. */
  function First(s: string, c: char): (n: nat)
    ensures n <= |s|
    ensures forall i :: 0 <= i < n ==> s[i] != c
    ensures n < |s| ==> s[n] == c
  {
    if s == "" || s[0] == c then 0 else 1 + First(s[1..], c)
  }

  lemma FirstAt(a: string, c: char, b: string)
    requires Lacks(a, c)
    ensures First(a + [c] + b, c) == |a|
  {
    var s := a + [c] + b;
    assert forall i :: 0 <= i < |a| ==> s[i] == a[i];
    assert s[|a|] == c;
  }

  lemma FirstNone(s: string, c: char)
    requires Lacks(s, c)
    ensures First(s, c) == |s|
  {
  }

  /** `str::split` on one character: always at least one part. */
  function Split(s: string, c: char): (r: seq<string>)
    ensures |r| > 0
    decreases |s|
  {
    var n := First(s, c);
    if n == |s| then [s] else [s[..n]] + Split(s[n + 1..], c)
  }

  lemma SplitCons(a: string, c: char, b: string)
    requires Lacks(a, c)
    ensures Split(a + [c] + b, c) == [a] + Split(b, c)
  {
    FirstAt(a, c, b);
    var s := a + [c] + b;
    assert s[..|a|] == a && s[|a| + 1..] == b;
  }

  lemma SplitLone(s: string, c: char)
    requires Lacks(s, c)
    ensures Split(s, c) == [s]
  {
    FirstNone(s, c);
  }

  /** Every part of a split lacks the separator, and every other character the whole lacks. */
  lemma {:induction false} SplitParts(s: string, c: char)
    ensures forall p :: p in Split(s, c) ==> Lacks(p, c)
    ensures forall p, d :: p in Split(s, c) && Lacks(s, d) ==> Lacks(p, d)
    decreases |s|
  {
    var n := First(s, c);
    if n == |s| {
    } else {
      SplitParts(s[n + 1..], c);
      assert forall d :: Lacks(s, d) ==> Lacks(s[..n], d) && Lacks(s[n + 1..], d);
    }
  }

  /** A character in none of the parts, other than the separator, is not in the whole. */
  lemma {:induction false} SplitWhole(s: string, c: char, d: char)
    requires d != c && forall p :: p in Split(s, c) ==> Lacks(p, d)
    ensures Lacks(s, d)
    decreases |s|
  {
    var n := First(s, c);
    if n == |s| {
      assert s in Split(s, c);
    } else {
      var rest := Split(s[n + 1..], c);
      assert s[..n] in Split(s, c) && forall p :: p in rest ==> p in Split(s, c);
      SplitWhole(s[n + 1..], c, d);
      LacksAppend(s[..n], [c], d);
      LacksAppend(s[..n] + [c], s[n + 1..], d);
      hide Lacks, Split, First;
      assert s == s[..n] + [c] + s[n + 1..];
    }
  }

  /** `split(c)` followed by `map(trim)`: the shape of every list value in the program. */
  function SplitTrim(s: string, c: char): seq<string> {
    TrimAll(Split(s, c))
  }

  function TrimAll(parts: seq<string>): (r: seq<string>)
    ensures |r| == |parts|
    ensures forall i :: 0 <= i < |parts| ==> r[i] == Trim(parts[i])
  {
    if parts == [] then [] else [Trim(parts[0])] + TrimAll(parts[1..])
  }

  /** A list item that survives `split(c).map(trim)`. */
  predicate Token(t: string, c: char) {
    Trimmed(t) && Lacks(t, c)
  }

  lemma SplitTrimTokens(s: string, c: char)
    ensures forall t :: t in SplitTrim(s, c) ==> Token(t, c)
    ensures forall t, d :: t in SplitTrim(s, c) && Lacks(s, d) ==> Lacks(t, d)
  {
    SplitParts(s, c);
    forall t | t in SplitTrim(s, c)
      ensures Token(t, c)
      ensures forall d :: Lacks(s, d) ==> Lacks(t, d)
    {
      var i :| 0 <= i < |Split(s, c)| && t == Trim(Split(s, c)[i]);
      TrimSlice(Split(s, c)[i]);
    }
  }

  lemma SplitTrimLead(w: char, s: string, c: char)
    requires IsWhite(w) && w != c
    ensures SplitTrim([w] + s, c) == SplitTrim(s, c)
  {
    var n := First(s, c);
    TrimLead(w, s[..n]);
    if n == |s| {
      SplitLone(s, c);
      SplitLone([w] + s, c);
      assert s[..n] == s;
    } else {
      assert s == s[..n] + [c] + s[n + 1..];
      assert [w] + s == ([w] + s[..n]) + [c] + s[n + 1..];
      SplitCons([w] + s[..n], c, s[n + 1..]);
      var rest := Split(s[n + 1..], c);
      assert ([[w] + s[..n]] + rest)[1..] == rest == ([s[..n]] + rest)[1..];
    }
  }

  lemma {:induction false} SplitTrimTail(s: string, w: char, c: char)
    requires IsWhite(w) && w != c
    ensures SplitTrim(s + [w], c) == SplitTrim(s, c)
    decreases |s|
  {
    var n := First(s, c);
    if n == |s| {
      SplitLone(s, c);
      SplitLone(s + [w], c);
      TrimTail(s, w);
    } else {
      var b := s[n + 1..];
      assert s + [w] == s[..n] + [c] + (b + [w]);
      SplitCons(s[..n], c, b + [w]);
      SplitTrimTail(b, w, c);
      assert ([s[..n]] + Split(b + [w], c))[1..] == Split(b + [w], c);
      assert ([s[..n]] + Split(b, c))[1..] == Split(b, c);
    }
  }

  lemma {:induction false} SplitTrimOfTrimStart(s: string, c: char)
    requires !IsWhite(c)
    ensures SplitTrim(TrimStart(s), c) == SplitTrim(s, c)
  {
    if s != "" && IsWhite(s[0]) {
      SplitTrimOfTrimStart(s[1..], c);
      SplitTrimLead(s[0], s[1..], c);
      assert s == [s[0]] + s[1..];
    }
  }

  lemma {:induction false} SplitTrimOfTrimEnd(s: string, c: char)
    requires !IsWhite(c)
    ensures SplitTrim(TrimEnd(s), c) == SplitTrim(s, c)
  {
    if s != "" && IsWhite(s[|s| - 1]) {
      SplitTrimOfTrimEnd(s[..|s| - 1], c);
      SplitTrimTail(s[..|s| - 1], s[|s| - 1], c);
      assert s == s[..|s| - 1] + [s[|s| - 1]];
    }
  }

  /** Trimming the whole value first does not change the list read from it. */
  lemma SplitTrimOfTrim(s: string, c: char)
    requires !IsWhite(c)
    ensures SplitTrim(Trim(s), c) == SplitTrim(s, c)
  {
    SplitTrimOfTrimStart(s, c);
    SplitTrimOfTrimEnd(TrimStart(s), c);
  }

  // ---- Joining ----

  /** `join(sep)`. */
  function Join(items: seq<string>, sep: string): string {
    if |items| == 0 then "" else if |items| == 1 then items[0] else items[0] + sep + Join(items[1..], sep)
  }

  /** The printer's `", "` list read back by the parser's split-and-trim. */
  lemma {:induction false} SplitTrimOfJoin(items: seq<string>)
    requires |items| > 0
    requires forall t :: t in items ==> Token(t, ',')
    ensures SplitTrim(Join(items, ", "), ',') == items
  {
    assert items[0] in items;
    TrimId(items[0]);
    if |items| == 1 {
      SplitLone(items[0], ',');
    } else {
      var rest := Join(items[1..], ", ");
      assert Join(items, ", ") == items[0] + [','] + ([' '] + rest);
      SplitCons(items[0], ',', [' '] + rest);
      SplitTrimLead(' ', rest, ',');
      SplitTrimOfJoin(items[1..]);
      assert ([items[0]] + Split([' '] + rest, ','))[1..] == Split([' '] + rest, ',');
    }
  }

  lemma {:induction false} SplitOfJoin(items: seq<string>, c: char)
    requires items != [] && forall t :: t in items ==> Lacks(t, c)
    ensures Split(Join(items, [c]), c) == items
  {
    assert items[0] in items;
    if |items| == 1 {
      SplitLone(items[0], c);
    } else {
      SplitOfJoin(items[1..], c);
      SplitCons(items[0], c, Join(items[1..], [c]));
    }
  }

  lemma {:induction false} JoinTrimmed(items: seq<string>, sep: string)
    requires items != [] && forall t :: t in items ==> t != "" && Trimmed(t)
    ensures Join(items, sep) != "" && Trimmed(Join(items, sep))
  {
    assert items[0] in items;
    if |items| <= 1 {
    } else {
      assert forall t :: t in items[1..] ==> t in items;
      JoinTrimmed(items[1..], sep);
      var rest := Join(items[1..], sep);
      assert Join(items, sep)[0] == items[0][0];
      assert Join(items, sep)[|Join(items, sep)| - 1] == rest[|rest| - 1];
    }
  }

  lemma {:induction false} JoinLacks(items: seq<string>, sep: string, c: char)
    requires Lacks(sep, c) && forall t :: t in items ==> Lacks(t, c)
    ensures Lacks(Join(items, sep), c)
  {
    if |items| <= 1 {
    } else {
      JoinLacks(items[1..], sep, c);
      assert Lacks(items[0], c);
    }
  }

  // ---- Lines ----

  function StripCr(s: string): string {
    if s != "" && s[|s| - 1] == '\r' then s[..|s| - 1] else s
  }

  /** `str::lines`: lines end in `\n` or `\r\n`; the last line ending is optional. */
  function Lines(s: string): seq<string>
    decreases |s|
  {
    if s == "" then [] else
    var n := First(s, '\n');
    if n == |s| then [s] else [StripCr(s[..n])] + Lines(s[n + 1..])
  }

  /** Each line followed by a newline, as `writeln!` appends them. */
  function Unlines(lines: seq<string>): string {
    if lines == [] then "" else lines[0] + "\n" + Unlines(lines[1..])
  }

  /** A line that `lines` gives back as it was written. */
  predicate PlainLine(s: string) {
    Lacks(s, '\n') && StripCr(s) == s
  }

  lemma LinesCons(a: string, b: string)
    requires Lacks(a, '\n')
    ensures Lines(a + "\n" + b) == [StripCr(a)] + Lines(b)
  {
    FirstAt(a, '\n', b);
    var s := a + "\n" + b;
    assert s == a + ['\n'] + b;
    assert s[..|a|] == a && s[|a| + 1..] == b;
  }

  lemma {:induction false} LinesUnlines(lines: seq<string>)
    requires forall l :: l in lines ==> PlainLine(l)
    ensures Lines(Unlines(lines)) == lines
  {
    if lines == [] {
    } else {
      assert lines[0] in lines;
      LinesUnlines(lines[1..]);
      LinesCons(lines[0], Unlines(lines[1..]));
    }
  }

  lemma {:induction false} UnlinesAppend(a: seq<string>, b: seq<string>)
    ensures Unlines(a + b) == Unlines(a) + Unlines(b)
  {
    if a == [] {
      assert a + b == b;
    } else {
      UnlinesAppend(a[1..], b);
      assert (a + b)[0] == a[0] && (a + b)[1..] == a[1..] + b;
      ConcatAssoc(a[0] + "\n", Unlines(a[1..]), Unlines(b));
    }
  }

  lemma {:induction false} LinesAreSingle(s: string)
    ensures forall l :: l in Lines(s) ==> Lacks(l, '\n')
    decreases |s|
  {
    if s == "" {
    } else {
      var n := First(s, '\n');
      if n < |s| {
        LinesAreSingle(s[n + 1..]);
      }
    }
  }

  /** A text that is empty or ends in a newline: the next character starts a new line. */
  predicate AtLineStart(s: string) {
    s == "" || s[|s| - 1] == '\n'
  }

  lemma FirstLine(a: string) returns (head: string, rest: string)
    requires a != "" && AtLineStart(a)
    ensures a == head + "\n" + rest && Lacks(head, '\n') && AtLineStart(rest) && |rest| < |a|
  {
    var n := First(a, '\n');
    head, rest := a[..n], a[n + 1..];
  }

  lemma {:induction false} LinesAppend(a: string, b: string)
    requires AtLineStart(a)
    ensures Lines(a + b) == Lines(a) + Lines(b)
    decreases |a|
  {
    if a == "" {
      assert a + b == b;
    } else {
      hide Lines, AtLineStart, Lacks, StripCr;
      var head, rest := FirstLine(a);
      var x := [StripCr(head)];
      calc {
        Lines(a + b);
        { ConcatAssoc(head + "\n", rest, b); }
        Lines(head + "\n" + (rest + b));
        { LinesCons(head, rest + b); }
        x + Lines(rest + b);
        { LinesAppend(rest, b); }
        x + (Lines(rest) + Lines(b));
        { ConcatAssoc(x, Lines(rest), Lines(b)); }
        x + Lines(rest) + Lines(b);
        { LinesCons(head, rest); }
        Lines(a) + Lines(b);
      }
    }
  }
}

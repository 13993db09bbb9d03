/** The scrolling connection bar (connection_bar.rs): which entries fit, and how wide the line is. */
module ConnectionBar {
  import opened Decimal

  const MAX_DISPLAY_NAME_LEN := 20
  const PREFIX := " Connections: "
  const LEFT_ARROW := "< "
  const RIGHT_ARROW := " >"
  const PREFIX_WIDTH := 14
  const RIGHT_INDICATOR_WIDTH := 2
  const MIN_USEFUL_WIDTH := 40

  // ---- Widths ----

  /** A name cut to 20 characters with an ellipsis, or the name itself. */
  function TruncateName(name: string): (r: string)
    ensures |r| <= MAX_DISPLAY_NAME_LEN + 1
    ensures |name| <= MAX_DISPLAY_NAME_LEN ==> r == name
  {
    if |name| > MAX_DISPLAY_NAME_LEN then name[..MAX_DISPLAY_NAME_LEN] + "\U{2026}" else name
  }

  /** The number of decimal digits, counted by repeated division: the length of the printed number. */
  method DigitCount(n: nat) returns (count: nat)
    ensures count == |ShowNat(n)|
  {
    if n == 0 {
      return 1;
    }
    count := 0;
    var m := n;
    while m > 0
      invariant if m > 0 then count + |ShowNat(m)| == |ShowNat(n)| else count == |ShowNat(n)|
    {
      count := count + 1;
      m := m / 10;
    }
  }

  /** `entry_width`, with the digit count as the printed length. */
  function EntryWidth(index: nat, displayName: string, selected: bool): nat {
    var labelWidth := 2 + |ShowNat(index + 1)|;
    if selected then labelWidth + 1 + |displayName| + 1 + 1 + 2 else labelWidth + 1 + 2
  }

  /** The characters drawn for one entry; the status indicator is one character. */
  function EntryText(index: nat, displayName: string, selected: bool, indicator: char): string {
    if selected then "[" + ShowNat(index + 1) + "] " + displayName + " " + [indicator] + "  "
    else "[" + ShowNat(index + 1) + "]" + [indicator] + "  "
  }

  // ---- Windows ----

  /** The total width of the entries from `lo` up to, not including, `hi`. */
  function Sum(ws: seq<nat>, lo: nat, hi: nat): nat
    requires lo <= hi <= |ws|
  {
    if lo == hi then 0 else Sum(ws, lo, hi - 1) + ws[hi - 1]
  }

  lemma {:induction false} SumFront(ws: seq<nat>, lo: nat, hi: nat)
    requires lo < hi <= |ws|
    ensures Sum(ws, lo, hi) == ws[lo] + Sum(ws, lo + 1, hi)
    decreases hi
  {
    if lo + 1 == hi {
    } else {
      SumFront(ws, lo, hi - 1);
    }
  }

  lemma {:induction false} SumGrows(ws: seq<nat>, lo: nat, lo': nat, hi: nat, hi': nat)
    requires lo' <= lo <= hi <= hi' <= |ws|
    ensures Sum(ws, lo, hi) <= Sum(ws, lo', hi')
    decreases hi' - hi, lo - lo'
  {
    if hi < hi' {
      SumGrows(ws, lo, lo', hi, hi' - 1);
    } else if lo' < lo {
      SumGrows(ws, lo, lo' + 1, hi, hi');
      SumFront(ws, lo', hi');
    }
  }

  /** The columns left for entries once the prefix and the right arrow are reserved. */
  function Budget(areaWidth: nat): nat {
    if areaWidth < PREFIX_WIDTH + RIGHT_INDICATOR_WIDTH then 0 else areaWidth - (PREFIX_WIDTH + RIGHT_INDICATOR_WIDTH)
  }

  predicate AllFit(ws: seq<nat>, areaWidth: nat) {
    Sum(ws, 0, |ws|) + PREFIX_WIDTH <= areaWidth
  }

  predicate CanGrowLeft(ws: seq<nat>, start: nat, used: nat, budget: nat)
    requires start <= |ws|
  {
    start > 0 && used + ws[start - 1] <= budget
  }

  predicate CanGrowRight(ws: seq<nat>, end: nat, used: nat, budget: nat) {
    end + 1 < |ws| && used + ws[end + 1] <= budget
  }

  /** Rounds of growth: one entry on the left if it fits, then one on the right if it still fits. */
  function Grow(ws: seq<nat>, start: nat, end: nat, used: nat, budget: nat): (nat, nat)
    requires start <= end < |ws|
    decreases start + |ws| - end
  {
    var left := CanGrowLeft(ws, start, used, budget);
    var start' := if left then start - 1 else start;
    var used' := if left then used + ws[start - 1] else used;
    var right := CanGrowRight(ws, end, used', budget);
    if !left && !right then (start, end)
    else Grow(ws, start', if right then end + 1 else end, if right then used' + ws[end + 1] else used', budget)
  }

  function ViewportOf(ws: seq<nat>, selected: nat, areaWidth: nat): (nat, nat)
    requires selected < |ws|
  {
    if AllFit(ws, areaWidth) then (0, |ws| - 1)
    else if ws[selected] > Budget(areaWidth) then (selected, selected)
    else Grow(ws, selected, selected, ws[selected], Budget(areaWidth))
  }

  /** The window loop. */
  method Viewport(ws: seq<nat>, selected: nat, areaWidth: nat) returns (start: nat, end: nat)
    requires selected < |ws|
    ensures (start, end) == ViewportOf(ws, selected, areaWidth)
    ensures start <= selected <= end < |ws|
  {
    var n := |ws|;
    var total := 0;
    for i := 0 to n
      invariant total == Sum(ws, 0, i)
    {
      total := total + ws[i];
    }
    if total + PREFIX_WIDTH <= areaWidth {
      return 0, n - 1;
    }
    var budget: nat := if areaWidth < PREFIX_WIDTH + RIGHT_INDICATOR_WIDTH then 0
                  else areaWidth - (PREFIX_WIDTH + RIGHT_INDICATOR_WIDTH);
    var selW: nat := ws[selected];
    if selW > budget {
      return selected, selected;
    }
    start, end := selected, selected;
    var used: nat := selW;
    var grew := true;
    while grew
      invariant start <= selected <= end < n
      invariant if grew then Grow(ws, start, end, used, budget) == Grow(ws, selected, selected, selW, budget)
                else (start, end) == Grow(ws, selected, selected, selW, budget)
      decreases grew, start + n - end
    {
      grew := false;
      if start > 0 {
        var w := ws[start - 1];
        if used + w <= budget {
          start, used, grew := start - 1, used + w, true;
        }
      }
      if end + 1 < n {
        var w := ws[end + 1];
        if used + w <= budget {
          end, used, grew := end + 1, used + w, true;
        }
      }
    }
  }

  /** The window contains where growth started, fits the budget, and neither neighbour fits any more. */
  lemma {:induction false} GrowResult(ws: seq<nat>, start: nat, end: nat, used: nat, budget: nat)
    requires start <= end < |ws| && used == Sum(ws, start, end + 1) <= budget
    ensures var (s, e) := Grow(ws, start, end, used, budget);
            && s <= start && end <= e < |ws|
            && Sum(ws, s, e + 1) <= budget
            && !CanGrowLeft(ws, s, Sum(ws, s, e + 1), budget)
            && !CanGrowRight(ws, e, Sum(ws, s, e + 1), budget)
    decreases start + |ws| - end
  {
    var left := CanGrowLeft(ws, start, used, budget);
    var start' := if left then start - 1 else start;
    var used' := if left then used + ws[start - 1] else used;
    if left {
      SumFront(ws, start', end + 1);
    }
    var right := CanGrowRight(ws, end, used', budget);
    if right {
      SumSnoc(ws, start', end + 1);
    }
    hide Sum;
    if left || right {
      GrowResult(ws, start', if right then end + 1 else end, if right then used' + ws[end + 1] else used', budget);
    }
  }

  /** In scrolled mode, when the selected entry fits the budget: the window shows it, stays within the
      budget, and no larger window around it would. */
  lemma ViewportIsMaximal(ws: seq<nat>, selected: nat, areaWidth: nat)
    requires selected < |ws| && !AllFit(ws, areaWidth) && ws[selected] <= Budget(areaWidth)
    ensures var (s, e) := ViewportOf(ws, selected, areaWidth);
            && s <= selected <= e < |ws|
            && Sum(ws, s, e + 1) <= Budget(areaWidth)
            && forall s', e' :: 0 <= s' <= s && e <= e' < |ws| && (s', e') != (s, e) ==>
                 Sum(ws, s', e' + 1) > Budget(areaWidth)
  {
    var budget := Budget(areaWidth);
    GrowResult(ws, selected, selected, ws[selected], budget);
    var (s, e) := ViewportOf(ws, selected, areaWidth);
    forall s', e' | 0 <= s' <= s && e <= e' < |ws| && (s', e') != (s, e)
      ensures Sum(ws, s', e' + 1) > budget
    {
      hide Grow, Sum;
      if s' < s {
        SumFront(ws, s - 1, e + 1);
        SumGrows(ws, s - 1, s', e + 1, e' + 1);
      } else {
        SumSnoc(ws, s, e + 1);
        SumGrows(ws, s, s', e + 2, e' + 1);
      }
    }
  }

  lemma SumSnoc(ws: seq<nat>, lo: nat, hi: nat)
    requires lo <= hi < |ws|
    ensures Sum(ws, lo, hi + 1) == Sum(ws, lo, hi) + ws[hi]
  {
  }

  lemma ViewportInRange(ws: seq<nat>, selected: nat, areaWidth: nat)
    requires selected < |ws|
    ensures var (s, e) := ViewportOf(ws, selected, areaWidth); s <= selected <= e < |ws|
  {
    if !AllFit(ws, areaWidth) && ws[selected] <= Budget(areaWidth) {
      ViewportIsMaximal(ws, selected, areaWidth);
    }
  }

  // ---- The drawn line ----

  function Widths(names: seq<string>, selected: nat): (ws: seq<nat>)
    ensures |ws| == |names|
    ensures forall i :: 0 <= i < |names| ==> ws[i] == EntryWidth(i, TruncateName(names[i]), i == selected)
  {
    seq(|names|, i requires 0 <= i < |names| => EntryWidth(i, TruncateName(names[i]), i == selected))
  }

  function Entries(names: seq<string>, indicators: seq<char>, selected: nat, lo: nat, hi: nat): string
    requires lo <= hi <= |names| == |indicators|
  {
    if lo == hi then ""
    else Entries(names, indicators, selected, lo, hi - 1)
         + EntryText(hi - 1, TruncateName(names[hi - 1]), hi - 1 == selected, indicators[hi - 1])
  }

  /** The line for a window: prefix or left arrow, the entries, the right arrow if any are hidden. */
  function WindowLine(names: seq<string>, indicators: seq<char>, selected: nat, s: nat, e: nat): string
    requires s <= e < |names| == |indicators|
  {
    (if s > 0 then LEFT_ARROW else PREFIX) + Entries(names, indicators, selected, s, e + 1)
    + (if e < |names| - 1 then RIGHT_ARROW else "")
  }

  /** The whole line. */
  function BarLine(names: seq<string>, indicators: seq<char>, selected: nat, areaWidth: nat): string
    requires selected < |names| == |indicators|
  {
    ViewportInRange(Widths(names, selected), selected, areaWidth);
    var (s, e) := ViewportOf(Widths(names, selected), selected, areaWidth);
    WindowLine(names, indicators, selected, s, e)
  }

  /** The loop over the entries in the window. */
  method DrawEntries(names: seq<string>, indicators: seq<char>, selected: nat, lo: nat, hi: nat) returns (text: string)
    requires lo <= hi <= |names| == |indicators|
    ensures text == Entries(names, indicators, selected, lo, hi)
  {
    text := "";
    for i := lo to hi
      invariant text == Entries(names, indicators, selected, lo, i)
    {
      text := text + EntryText(i, TruncateName(names[i]), i == selected, indicators[i]);
    }
  }

  /** What `render` draws: it always marks the first connection, and nothing for fewer than two. */
  method Render(names: seq<string>, indicators: seq<char>, areaWidth: nat) returns (line: string)
    requires |names| == |indicators|
    ensures |names| <= 1 || areaWidth == 0 ==> line == ""
    ensures |names| > 1 && areaWidth > 0 ==> line == BarLine(names, indicators, 0, areaWidth)
  {
    if |names| <= 1 || areaWidth == 0 {
      return "";
    }
    var viewStart, viewEnd := Viewport(Widths(names, 0), 0, areaWidth);
    var entries := DrawEntries(names, indicators, 0, viewStart, viewEnd + 1);
    hide ViewportOf, Entries, Widths;
    line := if viewStart > 0 then LEFT_ARROW else PREFIX;
    line := line + entries;
    if viewEnd < |names| - 1 {
      line := line + RIGHT_ARROW;
    } else {
      assert line + "" == line;
    }
  }

  /** `entry_width` is the real number of characters drawn. */
  lemma EntryWidthIsLength(index: nat, displayName: string, selected: bool, indicator: char)
    ensures EntryWidth(index, displayName, selected) == |EntryText(index, displayName, selected, indicator)|
  {
  }

  lemma {:induction false} EntriesLength(names: seq<string>, indicators: seq<char>, selected: nat, lo: nat, hi: nat)
    requires lo <= hi <= |names| == |indicators|
    ensures |Entries(names, indicators, selected, lo, hi)| == Sum(Widths(names, selected), lo, hi)
    decreases hi
  {
    if lo == hi {
    } else {
      EntriesLength(names, indicators, selected, lo, hi - 1);
      EntryWidthIsLength(hi - 1, TruncateName(names[hi - 1]), hi - 1 == selected, indicators[hi - 1]);
      var ws := Widths(names, selected);
      hide EntryWidth, EntryText, TruncateName, Widths;
      assert Sum(ws, lo, hi) == Sum(ws, lo, hi - 1) + ws[hi - 1];
    }
  }

  /** The whole drawn line stays within the area whenever everything fits or the selected entry fits the
      budget, whichever arrows are shown; and then nothing is drawn short: its length is exactly the parts. */
  lemma LineFitsArea(names: seq<string>, indicators: seq<char>, selected: nat, areaWidth: nat)
    requires selected < |names| == |indicators|
    ensures var ws := Widths(names, selected);
            var (s, e) := ViewportOf(ws, selected, areaWidth);
            && s <= e < |names|
            && |BarLine(names, indicators, selected, areaWidth)|
               == (if s > 0 then 2 else PREFIX_WIDTH) + Sum(ws, s, e + 1) + (if e < |names| - 1 then 2 else 0)
            && (AllFit(ws, areaWidth) || ws[selected] <= Budget(areaWidth) ==>
                  |BarLine(names, indicators, selected, areaWidth)| <= areaWidth)
  {
    var ws := Widths(names, selected);
    ViewportInRange(ws, selected, areaWidth);
    var (s, e) := ViewportOf(ws, selected, areaWidth);
    EntriesLength(names, indicators, selected, s, e + 1);
    assert |PREFIX| == PREFIX_WIDTH;
    if !AllFit(ws, areaWidth) && ws[selected] <= Budget(areaWidth) {
      ViewportIsMaximal(ws, selected, areaWidth);
      // an area too narrow for prefix and arrow has no budget, and every entry is wider than that
      assert ws[selected] > 0;
    }
  }

  /** A neighbour of the selected entry is shown exactly when everything fits or one of the two fits beside it. */
  lemma NeighbourShownIff(ws: seq<nat>, selected: nat, areaWidth: nat)
    requires selected < |ws| && |ws| >= 2
    ensures var (s, e) := ViewportOf(ws, selected, areaWidth);
            s < e <==>
              || AllFit(ws, areaWidth)
              || (selected > 0 && ws[selected - 1] + ws[selected] <= Budget(areaWidth))
              || (selected + 1 < |ws| && ws[selected] + ws[selected + 1] <= Budget(areaWidth))
  {
    if !AllFit(ws, areaWidth) && ws[selected] <= Budget(areaWidth) {
      ViewportIsMaximal(ws, selected, areaWidth);
      var (s, e) := ViewportOf(ws, selected, areaWidth);
      hide ViewportOf, Grow, AllFit, Budget;
      if selected > 0 {
        PairSum(ws, selected - 1);
      }
      if selected + 1 < |ws| {
        PairSum(ws, selected);
      }
      hide Sum;
      if s < selected {
        SumGrows(ws, selected - 1, s, selected + 1, e + 1);
      } else if selected < e {
        SumGrows(ws, selected, s, selected + 2, e + 1);
      } else {
        Neighbours(ws, s, Budget(areaWidth));
      }
    }
  }

  lemma PairSum(ws: seq<nat>, i: nat)
    requires i + 1 < |ws|
    ensures Sum(ws, i, i + 2) == ws[i] + ws[i + 1]
  {
    assert Sum(ws, i, i + 1) == ws[i];
  }

  /** A window of one entry that cannot be enlarged has no neighbour that fits. */
  lemma Neighbours(ws: seq<nat>, s: nat, budget: nat)
    requires s < |ws|
    requires forall s', e' :: 0 <= s' <= s && s <= e' < |ws| && (s', e') != (s, s) ==> Sum(ws, s', e' + 1) > budget
    ensures s > 0 ==> ws[s - 1] + ws[s] > budget
    ensures s + 1 < |ws| ==> ws[s] + ws[s + 1] > budget
  {
    if s > 0 {
      PairSum(ws, s - 1);
      var s', e' := s - 1, s;
      assert (s', e') != (s, s) && Sum(ws, s', e' + 1) > budget;
    }
    if s + 1 < |ws| {
      PairSum(ws, s);
      var s', e' := s, s + 1;
      assert (s', e') != (s, s) && Sum(ws, s', e' + 1) > budget;
    }
  }

  lemma {:induction false} DigitsGrow(a: nat, b: nat)
    requires a <= b
    ensures |ShowNat(a)| <= |ShowNat(b)|
  {
    if b < 10 {
    } else if a >= 10 {
      DigitsGrow(a / 10, b / 10);
    }
  }

  /** The number of a neighbour that takes the least room: the one before, or the second when the first
      entry is selected. */
  function NarrowNeighbour(selected: nat): nat {
    if selected > 0 then selected else 2
  }

  /** The documented use of the minimum width of 40 columns, "the selected entry and at least one
      neighbour", holds exactly for short names, whichever entry is selected: at most 12 characters with two
      connections, and with more of them 12 less the digits of the entry's number and of its neighbour's. */
  lemma MinUsefulWidthIff(names: seq<string>, selected: nat)
    requires |names| >= 2 && selected < |names|
    ensures var (s, e) := ViewportOf(Widths(names, selected), selected, MIN_USEFUL_WIDTH);
            s < e <==>
              |TruncateName(names[selected])|
              <= 12 - if |names| == 2 then 0
                      else |ShowNat(selected + 1)| + |ShowNat(NarrowNeighbour(selected))|
  {
    var ws := Widths(names, selected);
    var name := |TruncateName(names[selected])|;
    var nb := NarrowNeighbour(selected);
    assert ws[selected] == name + 7 + |ShowNat(selected + 1)|;
    assert forall i :: 0 <= i < |ws| && i != selected ==> ws[i] == 5 + |ShowNat(i + 1)|;
    assert |ShowNat(1)| == 1 && |ShowNat(2)| == 1;
    DigitsGrow(nb, selected + 2);
    assert Budget(MIN_USEFUL_WIDTH) == 24;
    NeighbourShownIff(ws, selected, MIN_USEFUL_WIDTH);
    hide EntryWidth, TruncateName, Widths, ShowNat, ViewportOf, Budget;
    TotalWidth(ws, selected, nb - 1);
  }

  /** The selected entry, its neighbour and, if there is one, a third entry are part of the total width. */
  lemma TotalWidth(ws: seq<nat>, selected: nat, neighbour: nat)
    requires selected < |ws| && neighbour < |ws| && (neighbour == selected - 1 || (selected == 0 && neighbour == 1))
    requires forall i :: 0 <= i < |ws| && i != selected ==> ws[i] >= 6
    ensures |ws| == 2 ==> Sum(ws, 0, |ws|) == ws[selected] + ws[neighbour]
    ensures |ws| > 2 ==> Sum(ws, 0, |ws|) >= ws[selected] + ws[neighbour] + 6
  {
    var lo := if selected == 0 then 0 else neighbour;
    PairSum(ws, lo);
    if |ws| > 2 {
      if lo + 2 < |ws| {
        SumGrows(ws, lo, 0, lo + 3, |ws|);
      } else {
        SumFront(ws, lo - 1, lo + 2);
        SumGrows(ws, lo - 1, 0, lo + 2, |ws|);
      }
    }
  }

  /** A concrete case: with a first name of 13 characters, 40 columns show one of two connections. */
  lemma MinUsefulWidthExample()
    ensures ViewportOf(Widths(["corp-vpn-east", "b"], 0), 0, MIN_USEFUL_WIDTH) == (0, 0)
  {
    var names := ["corp-vpn-east", "b"];
    assert |names[0]| == 13 && TruncateName(names[0]) == names[0];
    MinUsefulWidthIff(names, 0);
    ViewportInRange(Widths(names, 0), 0, MIN_USEFUL_WIDTH);
  }

  /** One entry more than the window around the first entry is over the budget. */
  lemma BeyondFirstWindow(ws: seq<nat>, areaWidth: nat, x: nat)
    requires |ws| > 0 && !AllFit(ws, areaWidth) && ViewportOf(ws, 0, areaWidth).1 < x < |ws|
    ensures Sum(ws, 0, x + 1) > Budget(areaWidth)
  {
    SumGrows(ws, 0, 0, 1, x + 1);
    assert Sum(ws, 0, 1) == ws[0];
    if ws[0] <= Budget(areaWidth) {
      ViewportIsMaximal(ws, 0, areaWidth);
      var (s, e) := ViewportOf(ws, 0, areaWidth);
      hide ViewportOf, Sum, AllFit;
      assert (s, x) != (s, e);
    }
  }

  /** "As many neighbours as possible": around the first entry, the one `render` selects, the window is the
      largest of all windows on it that fit the budget. */
  lemma FirstWindowIsLargest(ws: seq<nat>, areaWidth: nat, e': nat)
    requires !AllFit(ws, areaWidth) && e' < |ws| && Sum(ws, 0, e' + 1) <= Budget(areaWidth)
    ensures var (s, e) := ViewportOf(ws, 0, areaWidth); s == 0 && e' <= e
  {
    ViewportInRange(ws, 0, areaWidth);
    if ViewportOf(ws, 0, areaWidth).1 < e' {
      BeyondFirstWindow(ws, areaWidth, e');
    }
  }

  // ---- When everything is shown ----

  /** All connections are in the window exactly when all of them fit beside the full prefix. */
  lemma AllShownIff(ws: seq<nat>, selected: nat, areaWidth: nat)
    requires selected < |ws| && |ws| >= 2 && ws[selected] > 0
    ensures ViewportOf(ws, selected, areaWidth) == (0, |ws| - 1) <==> Sum(ws, 0, |ws|) + PREFIX_WIDTH <= areaWidth
  {
    if !AllFit(ws, areaWidth) {
      if ws[selected] <= Budget(areaWidth) {
        ViewportIsMaximal(ws, selected, areaWidth);
      }
      hide ViewportOf, Sum;
      if ws[selected] > Budget(areaWidth) {
        TooWideAlone(ws, selected, areaWidth);
      }
    }
  }

  /** An entry wider than the budget is shown alone, unless everything fits. */
  lemma TooWideAlone(ws: seq<nat>, selected: nat, areaWidth: nat)
    requires selected < |ws| && ws[selected] > Budget(areaWidth)
    ensures ViewportOf(ws, selected, areaWidth) == if AllFit(ws, areaWidth) then (0, |ws| - 1) else (selected, selected)
  {
  }

  /** When only one of two neighbours that would fit can be added, it is the left one. */
  lemma LeftNeighbourFirst(ws: seq<nat>, selected: nat, areaWidth: nat)
    requires 0 < selected < |ws| && ws[selected - 1] + ws[selected] <= Budget(areaWidth)
    ensures ViewportOf(ws, selected, areaWidth).0 < selected
  {
    if !AllFit(ws, areaWidth) {
      var budget := Budget(areaWidth);
      var used := ws[selected] + ws[selected - 1];
      PairSum(ws, selected - 1);
      var right := CanGrowRight(ws, selected, used, budget);
      var end := if right then selected + 1 else selected;
      if right {
        SumSnoc(ws, selected - 1, selected + 1);
      }
      GrowResult(ws, selected - 1, end, if right then used + ws[selected + 1] else used, budget);
    }
  }

  /** Growth takes both sides in turn. */
  lemma GrowthAlternates()
    ensures ViewportOf([6, 6, 6, 6, 6, 6, 6, 6, 6], 4, 49) == (2, 6)
    ensures ViewportOf([6, 6, 6, 6, 6, 6, 6, 6, 6], 4, 43) == (2, 5)
  {
    var ws: seq<nat> := [6, 6, 6, 6, 6, 6, 6, 6, 6];
    assert Sum(ws, 0, 9) == 54 by { SumOfSixes(ws, 9); }
    hide Sum;
    assert Grow(ws, 2, 6, 30, 33) == (2, 6);
    assert Grow(ws, 3, 5, 18, 33) == (2, 6);
    assert Grow(ws, 2, 5, 24, 27) == (2, 5);
    assert Grow(ws, 3, 5, 18, 27) == (2, 5);
  }

  lemma {:induction false} SumOfSixes(ws: seq<nat>, hi: nat)
    requires hi <= |ws| && forall i :: 0 <= i < |ws| ==> ws[i] == 6
    ensures Sum(ws, 0, hi) == 6 * hi
  {
    if hi == 0 {
    } else {
      SumOfSixes(ws, hi - 1);
    }
  }

  // ---- What is drawn ----

  /** A long name keeps its first 20 characters and gets an ellipsis; two names that are cut alike begin alike. */
  lemma TruncationKeepsTheFront(name: string)
    ensures if |name| <= 20 then TruncateName(name) == name
            else |TruncateName(name)| == 21 && TruncateName(name)[..20] == name[..20] && TruncateName(name)[20] == '\U{2026}'
  {
  }

  lemma LineParts(names: seq<string>, indicators: seq<char>, areaWidth: nat, e: nat)
    requires 2 <= |names| == |indicators|
    requires ViewportOf(Widths(names, 0), 0, areaWidth) == (0, e) && e < |names|
    ensures BarLine(names, indicators, 0, areaWidth) == WindowLine(names, indicators, 0, 0, e)
  {
    hide ViewportOf, WindowLine, Widths;
  }

  predicate TotalFits(names: seq<string>, areaWidth: nat) {
    Sum(Widths(names, 0), 0, |names|) + PREFIX_WIDTH <= areaWidth
  }

  lemma LastShown(names: seq<string>, areaWidth: nat) returns (e: nat)
    requires 2 <= |names|
    ensures ViewportOf(Widths(names, 0), 0, areaWidth) == (0, e) && e < |names|
    ensures e == |names| - 1 <==> TotalFits(names, areaWidth)
  {
    var ws := Widths(names, 0);
    assert ws[0] > 0;
    hide ViewportOf, Sum, Widths;
    AllShownIff(ws, 0, areaWidth);
    ViewportInRange(ws, 0, areaWidth);
    e := ViewportOf(ws, 0, areaWidth).1;
  }

  /** Every connection is drawn, under the full prefix and without arrows, exactly when all of them fit; otherwise
      the line ends in the right arrow after the first ones. */
  lemma AllDrawnIff(names: seq<string>, indicators: seq<char>, areaWidth: nat) returns (e: nat)
    requires 2 <= |names| == |indicators|
    ensures e < |names| && (e == |names| - 1 <==> TotalFits(names, areaWidth))
    ensures BarLine(names, indicators, 0, areaWidth)
            == PREFIX + Entries(names, indicators, 0, 0, e + 1) + if TotalFits(names, areaWidth) then "" else RIGHT_ARROW
  {
    hide BarLine, ViewportOf, Widths, Entries, TotalFits;
    e := LastShown(names, areaWidth);
    LineParts(names, indicators, areaWidth, e);
  }

  lemma ExampleWidths()
    ensures Sum(Widths(["hq", "b"], 0), 0, 2) == 16
  {
    var ws := Widths(["hq", "b"], 0);
    assert |ShowNat(1)| == 1 && |ShowNat(2)| == 1;
    assert ws[0] == 10 && ws[1] == 6;
    assert Sum(ws, 0, 1) == 10;
  }

  lemma ExampleEntries()
    ensures Entries(["hq", "b"], ['+', '-'], 0, 0, 2) == "[1] hq +  [2]-  "
  {
    assert ShowNat(1) == "1" && ShowNat(2) == "2";
    assert EntryText(0, "hq", true, '+') == "[1] hq +  " && EntryText(1, "b", false, '-') == "[2]-  ";
    hide EntryText;
    assert Entries(["hq", "b"], ['+', '-'], 0, 0, 1) == "" + "[1] hq +  ";
  }

  /** A whole line: the first entry with its name, the others with number and status only. */
  lemma LineExample()
    ensures BarLine(["hq", "b"], ['+', '-'], 0, 80) == " Connections: " + "[1] hq +  [2]-  "
  {
    ExampleWidths();
    ExampleEntries();
    hide BarLine, Entries, Sum, Widths;
    var e := AllDrawnIff(["hq", "b"], ['+', '-'], 80);
    var line := PREFIX + "[1] hq +  [2]-  ";
    assert line + "" == line;
  }
}

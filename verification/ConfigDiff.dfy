/** The line diff shown before saving (`config_diff`). */
module ConfigDiff {
  import opened Text

  datatype DiffLine = Removed(text: string) | Added(text: string) | Context(text: string)

  /** Position by position: equal lines are context, unequal ones a removal and an addition. */
  function DiffOf(before: seq<string>, after: seq<string>): seq<DiffLine>
    decreases |before| + |after|
  {
    if before == [] && after == [] then []
    else if before == [] then [Added(after[0])] + DiffOf(before, after[1..])
    else if after == [] then [Removed(before[0])] + DiffOf(before[1..], after)
    else PairDiff(before[0], after[0]) + DiffOf(before[1..], after[1..])
  }

  function OldPart(line: DiffLine): seq<string> {
    if line.Added? then [] else [line.text]
  }

  function NewPart(line: DiffLine): seq<string> {
    if line.Removed? then [] else [line.text]
  }

  /** The lines of the old text a diff shows, in order. */
  function OldSide(d: seq<DiffLine>): seq<string> {
    if d == [] then [] else OldPart(d[0]) + OldSide(d[1..])
  }

  function NewSide(d: seq<DiffLine>): seq<string> {
    if d == [] then [] else NewPart(d[0]) + NewSide(d[1..])
  }

  lemma {:induction false} SidesAppend(a: seq<DiffLine>, b: seq<DiffLine>)
    ensures OldSide(a + b) == OldSide(a) + OldSide(b)
    ensures NewSide(a + b) == NewSide(a) + NewSide(b)
  {
    if a == [] {
      assert a + b == b;
    } else {
      hide OldPart, NewPart;
      SidesAppend(a[1..], b);
      assert (a + b)[0] == a[0] && (a + b)[1..] == a[1..] + b;
      ConcatAssoc(OldPart(a[0]), OldSide(a[1..]), OldSide(b));
      ConcatAssoc(NewPart(a[0]), NewSide(a[1..]), NewSide(b));
    }
  }

  /** The part of the diff one aligned pair of lines contributes. */
  function PairDiff(b: string, a: string): seq<DiffLine> {
    if b == a then [Context(b)] else [Removed(b), Added(a)]
  }

  /** `config_diff`: two aligned cursors, then what is left of either text. */
  method ComputeDiff(oldText: string, newText: string) returns (diff: seq<DiffLine>)
    ensures diff == DiffOf(Lines(oldText), Lines(newText))
  {
    var before, after := Lines(oldText), Lines(newText);
    hide Lines, DiffOf;
    diff := [];
    assert before[0..] == before && after[0..] == after && diff + DiffOf(before, after) == DiffOf(before, after);
    var i, j := 0, 0;
    while i < |before| && j < |after|
      invariant i <= |before| && j <= |after|
      invariant diff + DiffOf(before[i..], after[j..]) == DiffOf(before, after)
    {
      DiffStep(diff, before, i, after, j);
      if before[i] == after[j] {
        diff := diff + [Context(before[i])];
      } else {
        ConcatAssoc(diff, [Removed(before[i])], [Added(after[j])]);
        diff := diff + [Removed(before[i])];
        diff := diff + [Added(after[j])];
      }
      i, j := i + 1, j + 1;
    }
    while i < |before|
      invariant i <= |before| && j <= |after| && (i < |before| ==> j == |after|)
      invariant diff + DiffOf(before[i..], after[j..]) == DiffOf(before, after)
    {
      DiffStep(diff, before, i, after, j);
      diff := diff + [Removed(before[i])];
      i := i + 1;
    }
    while j < |after|
      invariant j <= |after|
      invariant diff + DiffOf(before[i..], after[j..]) == DiffOf(before, after)
    {
      DiffStep(diff, before, i, after, j);
      diff := diff + [Added(after[j])];
      j := j + 1;
    }
    DiffEnd(diff, before, after);
  }

  lemma DiffEnd(done: seq<DiffLine>, before: seq<string>, after: seq<string>)
    ensures done + DiffOf(before[|before|..], after[|after|..]) == done
  {
    assert before[|before|..] == [] && after[|after|..] == [] && DiffOf([], []) == [];
  }

  /** Peeling one line off each remaining side, after a part that is already done. */
  lemma DiffStep(done: seq<DiffLine>, before: seq<string>, i: nat, after: seq<string>, j: nat)
    requires i <= |before| && j <= |after| && (i < |before| || j < |after|)
    ensures done + DiffOf(before[i..], after[j..]) ==
            if i == |before| then done + [Added(after[j])] + DiffOf(before[i..], after[j + 1..])
            else if j == |after| then done + [Removed(before[i])] + DiffOf(before[i + 1..], after[j..])
            else done + PairDiff(before[i], after[j]) + DiffOf(before[i + 1..], after[j + 1..])
  {
    if i == |before| {
      assert after[j..][1..] == after[j + 1..];
      ConcatAssoc(done, [Added(after[j])], DiffOf(before[i..], after[j + 1..]));
    } else if j == |after| {
      assert before[i..][1..] == before[i + 1..];
      ConcatAssoc(done, [Removed(before[i])], DiffOf(before[i + 1..], after[j..]));
    } else {
      assert before[i..][1..] == before[i + 1..] && after[j..][1..] == after[j + 1..];
      ConcatAssoc(done, PairDiff(before[i], after[j]), DiffOf(before[i + 1..], after[j + 1..]));
    }
  }

  /** Nothing is lost: the context and removed lines are the old text, the context and added lines
      the new one. */
  lemma {:induction false} DiffSides(before: seq<string>, after: seq<string>)
    ensures OldSide(DiffOf(before, after)) == before && NewSide(DiffOf(before, after)) == after
    decreases |before| + |after|
  {
    if before == [] && after == [] {
    } else if before == [] {
      DiffSides(before, after[1..]);
      SidesAppend([Added(after[0])], DiffOf(before, after[1..]));
    } else if after == [] {
      DiffSides(before[1..], after);
      SidesAppend([Removed(before[0])], DiffOf(before[1..], after));
    } else {
      DiffSides(before[1..], after[1..]);
      var head := PairDiff(before[0], after[0]);
      SidesAppend(head, DiffOf(before[1..], after[1..]));
      assert head[1..] == if before[0] == after[0] then [] else [Added(after[0])];
    }
  }

  predicate AllContext(d: seq<DiffLine>) {
    forall i :: 0 <= i < |d| ==> d[i].Context?
  }

  lemma {:induction false} ContextSidesAgree(d: seq<DiffLine>)
    requires AllContext(d)
    ensures OldSide(d) == NewSide(d)
  {
    if d == [] {
    } else {
      ContextSidesAgree(d[1..]);
    }
  }

  lemma {:induction false} SameLinesAllContext(lines: seq<string>)
    ensures AllContext(DiffOf(lines, lines))
  {
    if lines == [] {
    } else {
      SameLinesAllContext(lines[1..]);
    }
  }

  /** The preview shows no change exactly when the two texts have the same lines. */
  lemma AllContextIff(before: seq<string>, after: seq<string>)
    ensures AllContext(DiffOf(before, after)) <==> before == after
  {
    DiffSides(before, after);
    if AllContext(DiffOf(before, after)) {
      ContextSidesAgree(DiffOf(before, after));
    }
    if before == after {
      SameLinesAllContext(before);
    }
  }

  /** How many positions hold the same line in both texts. */
  function Unmoved(before: seq<string>, after: seq<string>): nat
    decreases |before|
  {
    if before == [] || after == [] then 0
    else (if before[0] == after[0] then 1 else 0) + Unmoved(before[1..], after[1..])
  }

  function Contexts(d: seq<DiffLine>): nat {
    if d == [] then 0 else (if d[0].Context? then 1 else 0) + Contexts(d[1..])
  }

  lemma ContextsCons(head: seq<DiffLine>, d: seq<DiffLine>)
    requires 1 <= |head| <= 2
    ensures Contexts(head + d) == Contexts(head) + Contexts(d)
  {
    assert (head + d)[1..] == head[1..] + d;
    if |head| == 2 {
      assert head[1..][1..] == [] && (head[1..] + d)[1..] == d;
    }
  }

  /** The lines kept are the ones at the same position, not those of a longest common subsequence. */
  lemma {:induction false} KeepsUnmovedLines(before: seq<string>, after: seq<string>)
    ensures Contexts(DiffOf(before, after)) == Unmoved(before, after)
    decreases |before| + |after|
  {
    if before == [] && after == [] {
    } else if before == [] {
      KeepsUnmovedLines(before, after[1..]);
      ContextsCons([Added(after[0])], DiffOf(before, after[1..]));
    } else if after == [] {
      KeepsUnmovedLines(before[1..], after);
      ContextsCons([Removed(before[0])], DiffOf(before[1..], after));
    } else {
      KeepsUnmovedLines(before[1..], after[1..]);
      ContextsCons(PairDiff(before[0], after[0]), DiffOf(before[1..], after[1..]));
      PairContexts(before[0], after[0]);
    }
  }

  lemma PairContexts(b: string, a: string)
    ensures Contexts(PairDiff(b, a)) == if b == a then 1 else 0
  {
    var d := PairDiff(b, a);
    if b == a {
      assert d[1..] == [];
    } else {
      assert d[1..] == [Added(a)] && d[1..][1..] == [];
      assert Contexts(d[1..]) == 0;
    }
  }

  /** A line inserted in front of an unchanged one: the common line is shown as removed and added. */
  lemma InsertionExample()
    ensures DiffOf(["a"], ["x", "a"]) == [Removed("a"), Added("x"), Added("a")]
  {
    var before, after := ["a"], ["x", "a"];
    assert before[1..] == [] && after[1..] == ["a"] && ["a"][1..] == [];
    assert before[0][0] != after[0][0];
    assert DiffOf([], ["a"]) == [Added("a")];
  }
}

/**
 * diff/diff.go, ComputeEdits and splitLines: the line operations between two texts as
 * LSP text edits on whole lines of the old text.
 */
module DiffText {
  import opened Wrappers
  import opened Text
  import opened Types
  import opened DiffGraph
  import opened DiffEdits

  /** splitLines: the text cut after every newline, without an empty last piece. */
  function SplitLines(text: string): seq<string> {
    var parts := SplitAfter(text, '\n');
    if parts[|parts| - 1] == "" then parts[..|parts| - 1] else parts
  }

  /** The line is not empty and its last character is sep. */
  predicate EndsWith(line: string, sep: char) {
    |line| > 0 && line[|line| - 1] == sep
  }

  /** The parts of strings.SplitAfter concatenate to the string, and all but the last end in the separator. */
  lemma SplitAfterParts(s: string, sep: char)
    ensures Concat(SplitAfter(s, sep)) == s
    ensures forall i :: 0 <= i < |SplitAfter(s, sep)| - 1 ==> EndsWith(SplitAfter(s, sep)[i], sep)
  {
    SplitAfterConcat(s, sep);
    SplitAfterEnds(s, sep);
  }

  lemma {:induction false} SplitAfterConcat(s: string, sep: char)
    ensures Concat(SplitAfter(s, sep)) == s
    decreases |s|
  {
    if |s| > 0 {
      var rest := SplitAfter(s[1..], sep);
      SplitAfterConcat(s[1..], sep);
      assert s == [s[0]] + s[1..];
      if s[0] == sep {
        assert ([[sep]] + rest)[1..] == rest;
      } else {
        var parts := [[s[0]] + rest[0]] + rest[1..];
        assert parts[1..] == rest[1..];
        assert Concat(rest) == rest[0] + Concat(rest[1..]);
      }
    }
  }

  lemma {:induction false} SplitAfterEnds(s: string, sep: char)
    ensures forall i :: 0 <= i < |SplitAfter(s, sep)| - 1 ==> EndsWith(SplitAfter(s, sep)[i], sep)
    decreases |s|
  {
    if |s| > 0 {
      var rest := SplitAfter(s[1..], sep);
      SplitAfterEnds(s[1..], sep);
      var parts := SplitAfter(s, sep);
      forall i | 0 <= i < |parts| - 1
        ensures EndsWith(parts[i], sep)
      {
        if s[0] == sep {
          if i > 0 {
            assert parts[i] == rest[i - 1];
          }
        } else if i > 0 {
          assert parts[i] == rest[i];
        } else {
          assert |rest| > 1 && parts[0] == [s[0]] + rest[0];
        }
      }
    }
  }

  /**
   * The lines of a text give the text back, none is empty, all but the last end in a
   * newline, and only the empty text has no lines.
   */
  lemma SplitLinesParts(text: string)
    ensures Concat(SplitLines(text)) == text
    ensures forall i :: 0 <= i < |SplitLines(text)| ==> SplitLines(text)[i] != ""
    ensures forall i :: 0 <= i < |SplitLines(text)| - 1 ==> EndsWith(SplitLines(text)[i], '\n')
    ensures text == "" <==> SplitLines(text) == []
  {
    var parts := SplitAfter(text, '\n');
    SplitAfterParts(text, '\n');
    if parts[|parts| - 1] == "" {
      var lines := parts[..|parts| - 1];
      assert parts == lines + [""];
      ConcatAppend(lines, [""]);
      assert Concat([""]) == "";
    }
  }

  /** Where the last edit ends: the first old line no edit has covered yet. */
  function EditCursor(edits: seq<TextEdit>): int {
    if |edits| == 0 then 0 else edits[|edits| - 1].range.end.line
  }

  /** Edits of whole lines, each starting at or after the end of the one before. */
  predicate LinesOrdered(edits: seq<TextEdit>)
    decreases |edits|
  {
    |edits| == 0 ||
    (var init, e := edits[..|edits| - 1], edits[|edits| - 1];
     LinesOrdered(init) && 0 <= EditCursor(init) <= e.range.start.line <= e.range.end.line &&
     e.range.start.character == 0 && e.range.end.character == 0)
  }

  /** The old lines up to the edits' cursor, with every edit's lines replaced by its text. */
  function LinesApplied(lines: seq<string>, edits: seq<TextEdit>): string
    requires LinesOrdered(edits) && EditCursor(edits) <= |lines|
    decreases |edits|
  {
    if |edits| == 0 then ""
    else
      var init, e := edits[..|edits| - 1], edits[|edits| - 1];
      LinesApplied(lines, init) + Concat(lines[EditCursor(init)..e.range.start.line]) + e.newText
  }

  /** The text a client gets by applying line edits to the old lines, all ranges taken in the old text. */
  function ApplyLineEdits(lines: seq<string>, edits: seq<TextEdit>): string
    requires LinesOrdered(edits) && EditCursor(edits) <= |lines|
  {
    LinesApplied(lines, edits) + Concat(lines[EditCursor(edits)..])
  }

  /** ComputeEdits' edit for one operation; an insert of nothing gives none. */
  function EditOf(op: Operation<string>): seq<TextEdit> {
    var r := Range(Position(op.i1, 0), Position(op.i2, 0));
    match op.kind
    case Delete => [TextEdit(r, "")]
    case Insert => if Concat(op.content) != "" then [TextEdit(r, Concat(op.content))] else []
  }

  function EditsOf(ops: seq<Operation<string>>): seq<TextEdit>
    decreases |ops|
  {
    if |ops| == 0 then [] else EditsOf(ops[..|ops| - 1]) + EditOf(ops[|ops| - 1])
  }

  /** A delete edit has no text and covers lines; an insert edit has text and an empty range. */
  predicate EditShaped(e: TextEdit) {
    (e.newText == "" ==> e.range.start.line < e.range.end.line) &&
    (e.newText != "" ==> e.range.start == e.range.end)
  }

  /**
   * ComputeEdits: the edits that turn before into after, line by line, in order of their
   * start lines; none when the two texts are equal.
   */
  method ComputeEdits(uri: DocumentURI, before: string, after: string) returns (edits: seq<TextEdit>)
    ensures LinesOrdered(edits) && EditCursor(edits) <= |SplitLines(before)|
    ensures forall i :: 0 <= i < |edits| ==> EditShaped(edits[i])
    ensures ApplyLineEdits(SplitLines(before), edits) == after
    ensures before == after ==> edits == []
  {
    var a, b := SplitLines(before), SplitLines(after);
    var ops := Operations(a, b);
    edits := [];
    for j := 0 to |ops|
      invariant edits == EditsOf(ops[..j])
    {
      assert ops[..j + 1][..j] == ops[..j];
      var op := ops[j];
      match op.kind {
        case Delete =>
          // Delete: a[i1..i2] is deleted.
          edits := edits + [TextEdit(Range(Position(op.i1, 0), Position(op.i2, 0)), "")];
        case Insert =>
          // Insert: b[j1..j2] is inserted at a[i1..i1].
          var content := Concat(op.content);
          if content != "" {
            edits := edits + [TextEdit(Range(Position(op.i1, 0), Position(op.i2, 0)), content)];
          }
      }
    }
    assert ops[..|ops|] == ops;
    EditsOrdered(b, ops);
    EditsApply(a, b, ops);
    SplitLinesParts(before);
    SplitLinesParts(after);
    if before == after {
      SameNoOps(a, ops);
    }
  }

  /**
   * The edits of a list of operations apply to the old lines as the operations do, and
   * keep their order and shapes.
   */
  lemma EditsApply(a: seq<string>, b: seq<string>, ops: seq<Operation<string>>)
    requires Ordered(ops) && Cursor(ops) <= |a| && AllShaped(b, ops)
    requires LinesOrdered(EditsOf(ops)) && 0 <= EditCursor(EditsOf(ops)) <= Cursor(ops)
    ensures ApplyLineEdits(a, EditsOf(ops)) == Concat(ApplyOps(a, ops))
  {
    EditsText(a, b, ops);
    var E, ec, c := EditsOf(ops), EditCursor(EditsOf(ops)), Cursor(ops);
    var L, X, Y := LinesApplied(a, E), Concat(a[ec..c]), Concat(a[c..]);
    ConcatTail(a, ec, c);
    assert Concat(ApplyOps(a, ops)) == Concat(Applied(a, ops)) + Y by {
      ConcatAppend(Applied(a, ops), a[c..]);
    }
    assert ApplyLineEdits(a, E) == L + (X + Y);
    JoinAssoc(L, X, Y, Concat(Applied(a, ops)));
  }

  lemma ConcatTail(a: seq<string>, i: int, j: int)
    requires 0 <= i <= j <= |a|
    ensures Concat(a[i..]) == Concat(a[i..j]) + Concat(a[j..])
  {
    ConcatSlices(a, i, j, |a|);
    assert a[i..|a|] == a[i..] && a[j..|a|] == a[j..];
  }

  lemma JoinAssoc(l: string, x: string, y: string, p: string)
    requires l + x == p
    ensures l + (x + y) == p + y
  {
    AppendAssoc(l, x, y);
  }

  lemma {:induction false} EditsOrdered(b: seq<string>, ops: seq<Operation<string>>)
    requires Ordered(ops) && AllShaped(b, ops)
    ensures LinesOrdered(EditsOf(ops)) && 0 <= EditCursor(EditsOf(ops)) <= Cursor(ops)
    ensures forall i :: 0 <= i < |EditsOf(ops)| ==> EditShaped(EditsOf(ops)[i])
    decreases |ops|
  {
    if |ops| > 0 {
      var init, o := ops[..|ops| - 1], ops[|ops| - 1];
      assert Shaped(b, o) && AllShaped(b, init);
      assert Ordered(init) && 0 <= Cursor(init) <= o.i1 <= o.i2 == Cursor(ops);
      EditsOrdered(b, init);
      var E := EditsOf(init);
      if EditOf(o) == [] {
        assert EditsOf(ops) == E;
      } else {
        var e := EditOf(o)[0];
        assert EditOf(o) == [e] && EditShaped(e);
        LinesSnoc(E, e);
      }
    }
  }

  /** Appending a whole-line edit that starts at or after the cursor. */
  lemma LinesSnoc(E: seq<TextEdit>, e: TextEdit)
    requires LinesOrdered(E) && 0 <= EditCursor(E) <= e.range.start.line <= e.range.end.line
    requires e.range.start.character == 0 && e.range.end.character == 0
    requires forall i :: 0 <= i < |E| ==> EditShaped(E[i])
    requires EditShaped(e)
    ensures LinesOrdered(E + [e]) && EditCursor(E + [e]) == e.range.end.line
    ensures forall i :: 0 <= i < |E + [e]| ==> EditShaped((E + [e])[i])
  {
    assert (E + [e])[..|E|] == E;
  }

  lemma {:induction false} EditsText(a: seq<string>, b: seq<string>, ops: seq<Operation<string>>)
    requires Ordered(ops) && Cursor(ops) <= |a| && AllShaped(b, ops)
    ensures LinesOrdered(EditsOf(ops)) && 0 <= EditCursor(EditsOf(ops)) <= Cursor(ops)
    ensures LinesApplied(a, EditsOf(ops)) + Concat(a[EditCursor(EditsOf(ops))..Cursor(ops)]) == Concat(Applied(a, ops))
    decreases |ops|
  {
    EditsOrdered(b, ops);
    if |ops| > 0 {
      var init, o := ops[..|ops| - 1], ops[|ops| - 1];
      var E := EditsOf(init);
      assert EditsOf(ops) == E + EditOf(o);
      assert Ordered(init) && 0 <= Cursor(init) <= o.i1 <= o.i2 == Cursor(ops) && AllShaped(b, init) by {
        assert forall i :: 0 <= i < |init| ==> init[i] == ops[i];
      }
      assert (o.kind == Delete ==> o.content == []) && (o.kind == Insert ==> o.i1 == o.i2) by {
        assert Shaped(b, ops[|ops| - 1]);
      }
      EditsText(a, b, init);
      EditStep(a, init, o, E);
    }
  }

  /** One operation more: its edit extends the text the edits so far make as the operation extends Applied. */
  lemma EditStep(a: seq<string>, init: seq<Operation<string>>, o: Operation<string>, E: seq<TextEdit>)
    requires Ordered(init) && 0 <= Cursor(init) <= o.i1 <= o.i2 <= |a|
    requires (o.kind == Delete ==> o.content == []) && (o.kind == Insert ==> o.i1 == o.i2)
    requires LinesOrdered(E) && 0 <= EditCursor(E) <= Cursor(init)
    requires LinesApplied(a, E) + Concat(a[EditCursor(E)..Cursor(init)]) == Concat(Applied(a, init))
    requires LinesOrdered(E + EditOf(o)) && 0 <= EditCursor(E + EditOf(o)) <= o.i2
    ensures Ordered(init + [o]) && Cursor(init + [o]) == o.i2
    ensures LinesApplied(a, E + EditOf(o)) + Concat(a[EditCursor(E + EditOf(o))..o.i2]) == Concat(Applied(a, init + [o]))
  {
    var ec, c := EditCursor(E), Cursor(init);
    var text: seq<string> := if o.kind == Insert then o.content else [];
    var LA, P, Q, T := LinesApplied(a, E), Concat(a[ec..c]), Concat(a[c..o.i1]), Concat(text);
    assert Ordered(init + [o]) && Cursor(init + [o]) == o.i2 &&
      Concat(Applied(a, init + [o])) == LA + Concat(a[ec..o.i1]) + T by {
      AppliedStep(a, init, o, text);
      ConcatSlices(a, ec, c, o.i1);
      Regroup(LA, P, Q, T, Concat(Applied(a, init)));
    }
    if EditOf(o) == [] {
      assert o.kind == Insert && o.i1 == o.i2 && T == "";
      assert E + EditOf(o) == E;
    } else {
      var e := EditOf(o)[0];
      assert EditOf(o) == [e];
      assert LinesApplied(a, E + EditOf(o)) == LA + Concat(a[ec..o.i1]) + T && EditCursor(E + EditOf(o)) == o.i2 by {
        assert e.newText == T && e.range.start.line == o.i1 && e.range.end.line == o.i2;
        LinesAppliedSnoc(a, E, e);
      }
      assert Concat(a[o.i2..o.i2]) == "" by {
        assert a[o.i2..o.i2] == [];
      }
    }
  }

  /** The text of Applied one operation on. */
  lemma AppliedStep(a: seq<string>, init: seq<Operation<string>>, o: Operation<string>, text: seq<string>)
    requires Ordered(init) && 0 <= Cursor(init) <= o.i1 <= o.i2 <= |a|
    requires text == if o.kind == Insert then o.content else []
    ensures Ordered(init + [o]) && Cursor(init + [o]) == o.i2
    ensures Concat(Applied(a, init + [o])) == Concat(Applied(a, init)) + Concat(a[Cursor(init)..o.i1]) + Concat(text)
  {
    Snoc(a, [], init, o);
    var A, K := Applied(a, init), a[Cursor(init)..o.i1];
    ConcatAppend(A + K, text);
    ConcatAppend(A, K);
  }

  /** The text of the line edits one edit on. */
  lemma LinesAppliedSnoc(a: seq<string>, E: seq<TextEdit>, e: TextEdit)
    requires LinesOrdered(E + [e]) && EditCursor(E + [e]) <= |a|
    ensures LinesOrdered(E) && EditCursor(E + [e]) == e.range.end.line
    ensures LinesApplied(a, E + [e]) == LinesApplied(a, E) + Concat(a[EditCursor(E)..e.range.start.line]) + e.newText
  {
    assert (E + [e])[..|E|] == E;
  }

  /** The lines from i to k are those from i to j and those from j to k. */
  lemma ConcatSlices(a: seq<string>, i: int, j: int, k: int)
    requires 0 <= i <= j <= k <= |a|
    ensures Concat(a[i..k]) == Concat(a[i..j]) + Concat(a[j..k])
  {
    assert a[i..k] == a[i..j] + a[j..k];
    ConcatAppend(a[i..j], a[j..k]);
  }

  /** Text regrouped: the old edits' text and the kept lines, then the new lines and the new text. */
  lemma Regroup(la: string, p: string, q: string, t: string, applied: string)
    requires la + p == applied
    ensures la + (p + q) + t == applied + q + t
  {
    AppendAssoc(la, p, q);
  }

  /** A shortest edit script of a text into itself is empty. */
  lemma SameNoOps(a: seq<string>, ops: seq<Operation<string>>)
    requires AllShaped(a, ops) && Shortest(a, a, Cost(ops))
    ensures ops == []
  {
    ReachSame(a, |a|);
    CostCounts(a, ops);
  }

  lemma {:induction false} ReachSame<T>(a: seq<T>, n: nat)
    requires n <= |a|
    ensures Reach(a, a, 0, n, n)
  {
    if n > 0 {
      ReachSame(a, n - 1);
    }
  }

  /** Every operation costs at least one line. */
  lemma {:induction false} CostCounts<T>(b: seq<T>, ops: seq<Operation<T>>)
    requires AllShaped(b, ops)
    ensures Cost(ops) >= |ops|
    decreases |ops|
  {
    if |ops| > 0 {
      assert Shaped(b, ops[|ops| - 1]);
      CostCounts(b, ops[..|ops| - 1]);
    }
  }
}

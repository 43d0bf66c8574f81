/**
 * How the edit dialog turns the `ingredients` and `instructions` lists into text and
 * back: `Array.prototype.join('\n')` when a recipe is opened for editing and
 * `String.prototype.split('\n')` when the dialog is submitted.
 */
module FormText {

  const Newline := '\n'

  /** The number of line breaks in `s`. */
  function NewlineCount(s: string): nat {
    if s == [] then 0 else (if s[0] == Newline then 1 else 0) + NewlineCount(s[1..])
  }

  /** `xs.join('\n')`: the pieces with a line break between each two; `[]` gives `""`. */
  function Join(xs: seq<string>): (r: string)
    ensures |xs| > 0 && (forall k :: 0 <= k < |xs| ==> Newline !in xs[k]) ==> NewlineCount(r) == |xs| - 1
  {
    if |xs| == 0 then ""
    else if |xs| == 1 then
      NewlineCountZero(xs[0]);
      xs[0]
    else
      var rest := Join(xs[1..]);
      assert (forall k :: 0 <= k < |xs| ==> Newline !in xs[k]) ==> forall k :: 0 <= k < |xs[1..]| ==> Newline !in xs[1..][k] by {
        if forall k :: 0 <= k < |xs| ==> Newline !in xs[k] {
          forall k | 0 <= k < |xs[1..]| ensures Newline !in xs[1..][k] {
            assert xs[1..][k] == xs[k + 1];
          }
        }
      }
      NewlineCountZero(xs[0]);
      NewlineCountAppend(xs[0], [Newline]);
      NewlineCountAppend(xs[0] + [Newline], rest);
      xs[0] + [Newline] + rest
  }


  /** The position of the first line break in `s`. */
  function FirstNewline(s: string): (i: nat)
    requires Newline in s
    ensures i < |s| && s[i] == Newline && Newline !in s[..i]
  {
    if s[0] == Newline then 0
    else
      var i := FirstNewline(s[1..]);
      assert s[..i + 1] == [s[0]] + s[1..][..i];
      i + 1
  }

  /**
   * `s.split('\n')`: the text up to the first line break, then the split of the rest.
   * Nothing is dropped: `""` gives `[""]`, and a leading, doubled or trailing line
   * break gives an empty piece.
   */
  function Split(s: string): (pieces: seq<string>)
    ensures |pieces| >= 1
    ensures Newline !in pieces[0]
    decreases |s|
  {
    if Newline !in s then [s]
    else
      var i := FirstNewline(s);
      [s[..i]] + Split(s[i + 1..])
  }

  /** Text without line breaks is one piece. */
  lemma SplitWithoutNewline(s: string)
    requires Newline !in s
    ensures Split(s) == [s]
  {
  }

  /** A line without a line break, then a line break, then the rest: the line is the first piece. */
  lemma SplitAfterLine(line: string, rest: string)
    requires Newline !in line
    ensures Split(line + [Newline] + rest) == [line] + Split(rest)
  {
    var s := line + [Newline] + rest;
    assert s[|line|] == Newline;
    var i := FirstNewline(s);
    assert forall j :: 0 <= j < |line| ==> s[j] == line[j];
    assert forall j :: 0 <= j < i ==> s[..i][j] == s[j];
    assert i == |line|;
    assert s[..i] == line;
    assert s[i + 1..] == rest;
  }

  /** No piece of a split contains a line break. */
  lemma {:induction false} SplitPiecesHaveNoNewline(s: string)
    ensures forall k :: 0 <= k < |Split(s)| ==> Newline !in Split(s)[k]
    decreases |s|
  {
    if Newline in s {
      var i := FirstNewline(s);
      SplitPiecesHaveNoNewline(s[i + 1..]);
      assert Split(s) == [s[..i]] + Split(s[i + 1..]);
    }
  }

  lemma {:induction false} NewlineCountAppend(a: string, b: string)
    ensures NewlineCount(a + b) == NewlineCount(a) + NewlineCount(b)
  {
    if a == [] {
      assert a + b == b;
    } else {
      assert (a + b)[1..] == a[1..] + b;
      NewlineCountAppend(a[1..], b);
    }
  }

  lemma {:induction false} NewlineCountZero(s: string)
    ensures Newline !in s ==> NewlineCount(s) == 0
  {
    if s != [] && Newline !in s {
      assert s[0] != Newline;
      NewlineCountZero(s[1..]);
    }
  }

  /** A split has one more piece than the text has line breaks. */
  lemma {:induction false} SplitCount(s: string)
    ensures |Split(s)| == NewlineCount(s) + 1
    decreases |s|
  {
    if Newline !in s {
      NewlineCountZero(s);
    } else {
      var i := FirstNewline(s);
      SplitCount(s[i + 1..]);
      assert s == s[..i] + ([Newline] + s[i + 1..]);
      NewlineCountAppend(s[..i], [Newline] + s[i + 1..]);
      NewlineCountZero(s[..i]);
      assert ([Newline] + s[i + 1..])[1..] == s[i + 1..];
    }
  }

  /** Every text comes back from splitting and re-joining unchanged. */
  lemma {:induction false} JoinSplit(s: string)
    ensures Join(Split(s)) == s
    decreases |s|
  {
    if Newline in s {
      var i := FirstNewline(s);
      var rest := Split(s[i + 1..]);
      JoinSplit(s[i + 1..]);
      assert Split(s) == [s[..i]] + rest;
      assert (Split(s))[1..] == rest;
      assert Join(Split(s)) == s[..i] + [Newline] + Join(rest);
      assert s[..i] + [Newline] + s[i + 1..] == s;
    }
  }

  /** A non-empty list of lines without line breaks comes back from joining and re-splitting unchanged. */
  lemma {:induction false} SplitJoin(xs: seq<string>)
    ensures |xs| > 0 && (forall k :: 0 <= k < |xs| ==> Newline !in xs[k]) ==> Split(Join(xs)) == xs
  {
    if |xs| > 0 && forall k :: 0 <= k < |xs| ==> Newline !in xs[k] {
      assert Newline !in xs[0];
      if |xs| == 1 {
        SplitWithoutNewline(xs[0]);
      } else {
        var rest := xs[1..];
        forall k | 0 <= k < |rest|
          ensures Newline !in rest[k]
        {
          assert rest[k] == xs[k + 1];
        }
        SplitJoin(rest);
        SplitJoinStep(xs[0], rest);
        assert [xs[0]] + rest == xs;
      }
    }
  }

  lemma SplitJoinStep(line: string, rest: seq<string>)
    requires Newline !in line && |rest| > 0
    requires Split(Join(rest)) == rest
    ensures Split(Join([line] + rest)) == [line] + rest
  {
    var xs := [line] + rest;
    assert xs[0] == line && xs[1..] == rest;
    assert Join(xs) == line + [Newline] + Join(rest);
    SplitAfterLine(line, Join(rest));
  }

  /** The empty list does not survive: joining gives `""`, which splits into one empty line. */
  lemma EmptyListBecomesOneEmptyLine()
    ensures Join([]) == "" && Split(Join([])) == [""]
  {
  }

  /** A trailing line break is kept as a trailing empty piece. */
  lemma TrailingNewlineKept(a: string, b: string)
    requires Newline !in a && Newline !in b
    ensures Split(a + [Newline] + b + [Newline]) == [a, b, ""]
  {
    var tail := b + [Newline];
    LineThenNewline(b);
    SplitAfterLine(a, tail);
    assert a + [Newline] + tail == a + [Newline] + b + [Newline];
  }

  lemma LineThenNewline(b: string)
    requires Newline !in b
    ensures Split(b + [Newline]) == [b, ""]
  {
    assert b + [Newline] == b + [Newline] + "";
    SplitAfterLine(b, "");
    SplitWithoutNewline("");
  }

  /** The ingredients text `"flour\nsugar\n"` is submitted as `["flour", "sugar", ""]`. */
  lemma FlourSugarExample()
    ensures Split("flour\nsugar\n") == ["flour", "sugar", ""]
  {
    TrailingNewlineKept("flour", "sugar");
    assert "flour" + [Newline] + "sugar" + [Newline] == "flour\nsugar\n";
  }
}

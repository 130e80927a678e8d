/** `_HierarchicalStringConvertible`: a description printed as lines, each
    indented two spaces per nesting level, and joined with newlines. */
module HierarchicalStrings {

  /** `String(indent: level)`; `String(repeating:count:)` traps on a
      negative count. */
  function Indent(level: nat): (s: string)
    ensures |s| == 2 * level
    ensures forall i :: 0 <= i < |s| ==> s[i] == ' '
  {
    if level == 0 then "" else Indent(level - 1) + "  "
  }

  /** Indents add up: nesting `a` levels inside `b` levels is `a + b` levels. */
  lemma {:induction false} IndentsAdd(a: nat, b: nat)
    ensures Indent(a) + Indent(b) == Indent(a + b)
    decreases b
  {
    if b == 0 {
      assert Indent(a) + "" == Indent(a);
    } else {
      IndentsAdd(a, b - 1);
      assert Indent(a) + (Indent(b - 1) + "  ") == (Indent(a) + Indent(b - 1)) + "  ";
    }
  }

  /** `lines.joined(separator: "\n")` */
  function Joined(lines: seq<string>): string {
    if lines == [] then ""
    else if |lines| == 1 then lines[0]
    else Joined(lines[..|lines| - 1]) + "\n" + lines[|lines| - 1]
  }

  /** `description`: the level-0 lines joined with newlines. */
  function Description(linesAtLevelZero: seq<string>): string {
    Joined(linesAtLevelZero)
  }

  function Count(s: string, c: char): nat {
    if s == [] then 0 else Count(s[..|s| - 1], c) + (if s[|s| - 1] == c then 1 else 0)
  }

  lemma {:induction false} CountAppend(a: string, b: string, c: char)
    ensures Count(a + b, c) == Count(a, c) + Count(b, c)
    decreases |b|
  {
    if b == [] {
      assert a + b == a;
    } else {
      var front := b[..|b| - 1];
      assert (a + b)[..|a + b| - 1] == a + front;
      CountAppend(a, front, c);
    }
  }

  /** Joining adds exactly one newline between consecutive lines. */
  lemma {:induction false} JoinedNewlines(lines: seq<string>)
    requires |lines| > 0
    ensures Count(Joined(lines), '\n') == |lines| - 1 + TotalNewlines(lines)
  {
    if |lines| > 1 {
      var front := lines[..|lines| - 1];
      JoinedNewlines(front);
      CountAppend(Joined(front) + "\n", lines[|lines| - 1], '\n');
      CountAppend(Joined(front), "\n", '\n');
      assert Count("\n", '\n') == 1 by {
        assert "\n"[..0] == "";
      }
    } else {
      assert lines[..0] == [];
    }
  }

  function TotalNewlines(lines: seq<string>): nat {
    if lines == [] then 0 else TotalNewlines(lines[..|lines| - 1]) + Count(lines[|lines| - 1], '\n')
  }

  /** A description of `k` single-line entries has `k - 1` newlines; one line
      gives that line and no newline at all. */
  lemma DescriptionNewlines(lines: seq<string>)
    requires |lines| > 0
    requires forall i :: 0 <= i < |lines| ==> '\n' !in lines[i]
    ensures Count(Description(lines), '\n') == |lines| - 1
    ensures |lines| == 1 ==> Description(lines) == lines[0] && '\n' !in Description(lines)
  {
    JoinedNewlines(lines);
    NoNewlinesTotal(lines);
  }

  lemma {:induction false} NoNewlinesTotal(lines: seq<string>)
    requires forall i :: 0 <= i < |lines| ==> '\n' !in lines[i]
    ensures TotalNewlines(lines) == 0
  {
    if lines != [] {
      NoNewlinesTotal(lines[..|lines| - 1]);
      NoNewlineNoCount(lines[|lines| - 1]);
    }
  }

  lemma {:induction false} NoNewlineNoCount(s: string)
    requires '\n' !in s
    ensures Count(s, '\n') == 0
  {
    if s != [] {
      NoNewlineNoCount(s[..|s| - 1]);
    }
  }
}

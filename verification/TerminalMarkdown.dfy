/**
 Rendering Markdown for a terminal, whole and as a stream. What one line becomes is a parameter: the
 theorems hold for every line renderer, and say exactly when the two ways of rendering agree.
 */
module TerminalMarkdown {

  type LineRenderer = string -> string

  /** The lines of a text with one more character in front. */
  function Prefixed(c: char, lines: seq<string>): seq<string>
    requires |lines| >= 1
  {
    if c == '\n' then [""] + lines else [[c] + lines[0]] + lines[1..]
  }

  /** Splitting at line feeds: one line more than there are line feeds. */
  function Split(text: string): (lines: seq<string>)
    ensures |lines| >= 1
  {
    if text == "" then [""] else Prefixed(text[0], Split(text[1..]))
  }

  function Join(lines: seq<string>): string
    requires |lines| >= 1
  {
    if |lines| == 1 then lines[0] else lines[0] + "\n" + Join(lines[1..])
  }

  function Complete(text: string): seq<string> {
    var lines := Split(text);
    lines[..|lines| - 1]
  }

  function LastLine(text: string): string {
    var lines := Split(text);
    lines[|lines| - 1]
  }

  function Each(render: LineRenderer, lines: seq<string>): (rendered: seq<string>)
    ensures |rendered| == |lines| && forall i | 0 <= i < |lines| :: rendered[i] == render(lines[i])
  {
    if lines == [] then [] else [render(lines[0])] + Each(render, lines[1..])
  }

  /** renderTerminalMarkdown. */
  function Render(render: LineRenderer, text: string): string {
    Join(Each(render, Split(text)))
  }

  /** What a stream shows for completed lines. */
  function Shown(render: LineRenderer, lines: seq<string>): seq<string> {
    if lines == [] then [] else [render(lines[0]) + "\n"] + Shown(render, lines[1..])
  }

  function Concat(texts: seq<string>): string {
    if texts == [] then "" else texts[0] + Concat(texts[1..])
  }

  // ---- lines ----------------------------------------------------------------------------------

  /** Splitting loses nothing and leaves no line feed inside a line. */
  lemma {:induction false} SplitJoins(text: string)
    ensures Join(Split(text)) == text
    ensures forall line | line in Split(text) :: '\n' !in line
  {
    if text != "" {
      var rest := Split(text[1..]);
      SplitJoins(text[1..]);
      if text[0] == '\n' {
        assert ([""] + rest)[1..] == rest;
      } else {
        var lines := Split(text);
        assert lines[1..] == rest[1..];
        forall line | line in lines
          ensures '\n' !in line
        {
          if line != lines[0] {
            assert line in rest[1..];
          }
        }
      }
    }
  }

  lemma {:induction false} WithoutFeedIsOneLine(line: string)
    requires '\n' !in line
    ensures Split(line) == [line]
  {
    if line != "" {
      WithoutFeedIsOneLine(line[1..]);
      assert [line[0]] + line[1..] == line;
    }
  }

  lemma {:induction false} SplitAfterFeed(line: string, text: string)
    requires '\n' !in line
    ensures Split(line + "\n" + text) == [line] + Split(text)
  {
    if line == "" {
      assert ("\n" + text)[1..] == text;
      assert line + "\n" + text == "\n" + text;
    } else {
      SplitAfterFeed(line[1..], text);
      assert (line + "\n" + text)[1..] == line[1..] + "\n" + text;
      assert [line[0]] + line[1..] == line;
    }
  }

  /** The lines are the only way to cut a text at its line feeds. */
  lemma {:induction false} JoinSplits(lines: seq<string>)
    requires |lines| >= 1 && forall line | line in lines :: '\n' !in line
    ensures Split(Join(lines)) == lines
  {
    if |lines| == 1 {
      WithoutFeedIsOneLine(lines[0]);
    } else {
      JoinSplits(lines[1..]);
      SplitAfterFeed(lines[0], Join(lines[1..]));
      assert [lines[0]] + lines[1..] == lines;
    }
  }

  lemma PrefixedFirst(c: char, lines: seq<string>, more: seq<string>)
    requires |lines| >= 1
    ensures Prefixed(c, lines + more) == Prefixed(c, lines) + more
  {
    assert (lines + more)[1..] == lines[1..] + more;
  }

  lemma CompleteAndLast(text: string)
    ensures Split(text) == Complete(text) + [LastLine(text)]
  {
  }

  /** More text completes lines behind those complete already, and continues the last line only. */
  lemma {:induction false} SplitExtends(text: string, more: string)
    ensures Split(text + more) == Complete(text) + Split(LastLine(text) + more)
  {
    if text == "" {
      assert text + more == more && LastLine(text) + more == more;
    } else {
      var c, rest := text[0], text[1..];
      SplitExtends(rest, more);
      assert (text + more)[1..] == rest + more;
      CompleteAndLast(rest);
      if Complete(rest) != [] {
        PrefixedFirst(c, Complete(rest), Split(LastLine(rest) + more));
        PrefixedFirst(c, Complete(rest), [LastLine(rest)]);
        assert Split(text) == Prefixed(c, Complete(rest)) + [LastLine(rest)];
      } else {
        assert [c] + rest == text && Split(rest) == [LastLine(rest)];
        SplitOne(c, rest, more);
      }
    }
  }

  lemma SplitOne(c: char, line: string, more: string)
    requires Split(line) == [LastLine(line)]
    requires Split(line + more) == Split(LastLine(line) + more)
    ensures Split([c] + line) == Prefixed(c, [LastLine(line)])
    ensures Split([c] + line + more) == Complete([c] + line) + Split(LastLine([c] + line) + more)
  {
    var last := LastLine(line);
    assert ([c] + line)[1..] == line && ([c] + line + more)[1..] == line + more;
    if c == '\n' {
      assert Split([c] + line) == ["", last];
    } else {
      assert Split([c] + line) == [[c] + last];
      assert ([c] + last + more)[1..] == last + more;
    }
  }

  lemma Progress(text: string, more: string)
    ensures Complete(text + more) == Complete(text) + Complete(LastLine(text) + more)
    ensures LastLine(text + more) == LastLine(LastLine(text) + more)
  {
    SplitExtends(text, more);
  }

  // ---- streams --------------------------------------------------------------------------------

  /** What one write shows and leaves pending. */
  function Written(render: LineRenderer, pending: string, delta: string): (seq<string>, string) {
    (Shown(render, Complete(pending + delta)), LastLine(pending + delta))
  }

  function Finished(render: LineRenderer, pending: string): seq<string> {
    if pending != "" then [Render(render, pending)] else []
  }

  /** All that is shown by writing the deltas in turn and finishing. */
  function Stream(render: LineRenderer, pending: string, deltas: seq<string>): seq<string>
    decreases |deltas|
  {
    if deltas == [] then Finished(render, pending)
    else
      var (shown, left) := Written(render, pending, deltas[0]);
      shown + Stream(render, left, deltas[1..])
  }

  lemma {:induction false} ShownAppends(render: LineRenderer, one: seq<string>, other: seq<string>)
    ensures Shown(render, one + other) == Shown(render, one) + Shown(render, other)
  {
    if one == [] {
      assert one + other == other;
    } else {
      ShownAppends(render, one[1..], other);
      assert (one + other)[1..] == one[1..] + other;
    }
  }

  /** What finishing after `text` shows of all of it. */
  function Everything(render: LineRenderer, text: string): seq<string> {
    Shown(render, Complete(text)) + Finished(render, LastLine(text))
  }

  lemma EverythingInSteps(render: LineRenderer, text: string, more: string)
    ensures Everything(render, text + more) == Shown(render, Complete(text)) + Everything(render, LastLine(text) + more)
  {
    Progress(text, more);
    ShownAppends(render, Complete(text), Complete(LastLine(text) + more));
  }

  lemma NothingMore(render: LineRenderer, pending: string)
    requires '\n' !in pending
    ensures Everything(render, pending) == Finished(render, pending)
  {
    WithoutFeedIsOneLine(pending);
    assert Complete(pending) == [];
  }

  lemma LastLineIsOne(text: string)
    ensures '\n' !in LastLine(text)
  {
    SplitJoins(text);
    assert LastLine(text) in Split(text);
  }

  lemma {:induction false} FirstWrite(render: LineRenderer, pending: string, deltas: seq<string>)
    requires deltas != []
    ensures Stream(render, pending, deltas)
         == Shown(render, Complete(pending + deltas[0])) + Stream(render, LastLine(pending + deltas[0]), deltas[1..])
    ensures pending + Concat(deltas) == pending + deltas[0] + Concat(deltas[1..])
  {
    var first, rest := deltas[0], Concat(deltas[1..]);
    assert pending + (first + rest) == pending + first + rest;
  }

  /** How a text is cut into deltas makes no difference to any single output. */
  lemma {:induction false} CutsDoNotMatter(render: LineRenderer, pending: string, deltas: seq<string>)
    requires '\n' !in pending
    ensures Stream(render, pending, deltas) == Everything(render, pending + Concat(deltas))
    decreases |deltas|
  {
    if deltas == [] {
      NothingMore(render, pending);
      assert pending + Concat(deltas) == pending;
    } else {
      var text, rest := pending + deltas[0], Concat(deltas[1..]);
      LastLineIsOne(text);
      CutsDoNotMatter(render, LastLine(text), deltas[1..]);
      FirstWrite(render, pending, deltas);
      EverythingInSteps(render, text, rest);
    }
  }

  /** A rendered text is its complete lines as a stream shows them, then its last line. */
  lemma {:induction false} JoinIsShown(render: LineRenderer, lines: seq<string>)
    requires |lines| >= 1
    ensures Join(Each(render, lines)) == Concat(Shown(render, lines[..|lines| - 1])) + render(lines[|lines| - 1])
  {
    if |lines| == 1 {
      assert lines[..0] == [];
    } else {
      JoinIsShown(render, lines[1..]);
      assert Each(render, lines)[1..] == Each(render, lines[1..]);
      assert lines[..|lines| - 1] == [lines[0]] + lines[1..][..|lines| - 2];
      assert Shown(render, lines[..|lines| - 1])
          == [render(lines[0]) + "\n"] + Shown(render, lines[1..][..|lines| - 2]);
    }
  }

  lemma {:induction false} ConcatAppends(one: seq<string>, other: seq<string>)
    ensures Concat(one + other) == Concat(one) + Concat(other)
  {
    if one == [] {
      assert one + other == other;
    } else {
      ConcatAppends(one[1..], other);
      assert (one + other)[1..] == one[1..] + other;
    }
  }

  /**
   For every way of cutting a text into deltas, the stream shows what rendering the whole text gives,
   exactly when the text does not end in an empty line or the renderer keeps the empty line empty.
   */
  lemma StreamingIsRendering(render: LineRenderer, deltas: seq<string>)
    ensures Concat(Stream(render, "", deltas)) == Render(render, Concat(deltas))
       <==> LastLine(Concat(deltas)) != "" || render("") == ""
  {
    var text := Concat(deltas);
    assert "" + text == text;
    CutsDoNotMatter(render, "", deltas);
    FinishedShows(render, text);
    JoinIsShown(render, Split(text));
    var shown, last := Concat(Shown(render, Complete(text))), render(LastLine(text));
    assert Render(render, text) == shown + last;
    if LastLine(text) == "" {
      assert |shown + last| == |shown| + |last|;
    }
  }

  /** All of it shown: the complete lines, and the last one unless it is empty. */
  lemma FinishedShows(render: LineRenderer, text: string)
    ensures Concat(Everything(render, text))
         == Concat(Shown(render, Complete(text))) + (if LastLine(text) == "" then "" else render(LastLine(text)))
  {
    ConcatAppends(Shown(render, Complete(text)), Finished(render, LastLine(text)));
    LastLineIsOne(text);
    WithoutFeedIsOneLine(LastLine(text));
    var last := LastLine(text);
    if last != "" {
      assert Each(render, [last]) == [render(last)];
      assert Finished(render, last) == [render(last)];
      assert Concat([render(last)]) == render(last) + Concat([]);
    }
  }

  /** The renderer keeps the empty line empty, as the program's does: no condition is left. */
  lemma StreamingRefinesRendering(render: LineRenderer, deltas: seq<string>)
    requires render("") == ""
    ensures Concat(Stream(render, "", deltas)) == Render(render, Concat(deltas))
  {
    StreamingIsRendering(render, deltas);
  }

  /** Buffers partial lines, so that Markdown delimiters are rendered only once they are complete. */
  class StreamingTerminalMarkdown {
    const render: LineRenderer
    var pending: string

    ghost predicate Valid()
      reads this
    {
      '\n' !in pending
    }

    constructor (render: LineRenderer)
      ensures Valid() && pending == "" && this.render == render
    {
      this.render := render;
      pending := "";
    }

    method Write(delta: string) returns (output: seq<string>)
      requires Valid()
      modifies this`pending
      ensures Valid()
      ensures output == Shown(render, Complete(old(pending) + delta)) && pending == LastLine(old(pending) + delta)
    {
      output := [];
      pending := pending + delta;
      ghost var whole := pending;
      var lines := Split(pending);
      SplitJoins(pending);
      assert lines[|lines| - 1] in Split(whole);
      pending := lines[|lines| - 1];
      assert Valid();
      lines := lines[..|lines| - 1];
      var i := 0;
      while i < |lines|
        invariant 0 <= i <= |lines|
        invariant output == Shown(render, lines[..i]) && Valid() && pending == LastLine(whole)
      {
        assert lines[i] in Split(whole);
        WithoutFeedIsOneLine(lines[i]);
        ShownAppends(render, lines[..i], [lines[i]]);
        assert lines[..i + 1] == lines[..i] + [lines[i]];
        output := output + [Render(render, lines[i]) + "\n"];
        i := i + 1;
      }
      assert lines[..i] == lines == Complete(whole);
    }

    method Finish() returns (output: seq<string>)
      requires Valid()
      modifies this`pending
      ensures Valid() && pending == ""
      ensures output == Finished(render, old(pending))
    {
      output := [];
      if pending != "" {
        output := [Render(render, pending)];
      }
      pending := "";
    }
  }
}

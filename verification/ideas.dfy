/**
  How the reply of the language model becomes the list of blog ideas:
  `[idea.strip() for idea in reply.split("\n") if idea.strip()]`. Every
  surviving line is an idea, whether or not it has the numbered shape the
  prompt asks for, and however many ideas the prompt asked for.
 */
module Ideas {
  import opened Text

  /** An idea as the parser hands it out: not empty, no whitespace at either
      end, and on one line. */
  predicate IsIdea(s: string) {
    s != [] && Stripped(s) && '\n' !in s
  }

  /** The list comprehension over the lines: each line stripped, the lines
      that strip to nothing dropped. */
  function KeepIdeas(lines: seq<string>): (ideas: seq<string>)
    ensures |ideas| <= |lines|
    ensures forall k :: 0 <= k < |ideas| ==> ideas[k] != [] && Stripped(ideas[k])
  {
    if lines == [] then []
    else
      var t := Strip(lines[0]);
      StripShape(lines[0]);
      (if IsBlank(lines[0]) then [] else [t]) + KeepIdeas(lines[1..])
  }

  /** The idea list parsed from a reply: each one a well-formed idea. */
  function ParseIdeas(reply: string): (ideas: seq<string>)
    ensures forall k :: 0 <= k < |ideas| ==> IsIdea(ideas[k])
  {
    var lines := Lines(reply);
    var ideas := KeepIdeas(lines);
    assert forall k :: 0 <= k < |ideas| ==> '\n' !in ideas[k] by {
      KeepIdeasNewlineFree(lines);
    }
    ideas
  }

  lemma {:induction false} KeepIdeasNewlineFree(lines: seq<string>)
    requires forall k :: 0 <= k < |lines| ==> '\n' !in lines[k]
    ensures forall k :: 0 <= k < |KeepIdeas(lines)| ==> '\n' !in KeepIdeas(lines)[k]
  {
    if lines != [] {
      StripShape(lines[0]);
      KeepIdeasNewlineFree(lines[1..]);
    }
  }

  /** The comprehension distributes over concatenation of the line lists. */
  lemma {:induction false} KeepIdeasAppend(a: seq<string>, b: seq<string>)
    ensures KeepIdeas(a + b) == KeepIdeas(a) + KeepIdeas(b)
    decreases |a|
  {
    if a == [] {
      assert a + b == b;
    } else {
      assert (a + b)[1..] == a[1..] + b;
      KeepIdeasAppend(a[1..], b);
    }
  }

  /** Each entry stripped, in order. */
  function StripEach(xs: seq<string>): (r: seq<string>)
    ensures |r| == |xs|
    ensures forall k :: 0 <= k < |xs| ==> r[k] == Strip(xs[k])
  {
    if xs == [] then [] else [Strip(xs[0])] + StripEach(xs[1..])
  }

  /** The comprehension is "filter, then strip": the ideas are the non-blank
      lines, in order, each stripped; so there are exactly as many ideas as
      non-blank lines. */
  lemma {:induction false} KeepIdeasIsStripOfNonBlank(lines: seq<string>)
    ensures KeepIdeas(lines) == StripEach(NonBlank(lines))
    ensures |KeepIdeas(lines)| == |NonBlank(lines)|
  {
    if lines != [] {
      KeepIdeasIsStripOfNonBlank(lines[1..]);
      if !IsBlank(lines[0]) {
        var nb := [lines[0]] + NonBlank(lines[1..]);
        assert nb[0] == lines[0] && nb[1..] == NonBlank(lines[1..]);
      }
    }
  }

  /** The ideas of a reply are its non-blank lines, stripped, in order. */
  lemma ParseIdeasCount(reply: string)
    ensures ParseIdeas(reply) == StripEach(NonBlank(Lines(reply)))
    ensures |ParseIdeas(reply)| == |NonBlank(Lines(reply))|
  {
    KeepIdeasIsStripOfNonBlank(Lines(reply));
  }

  /** What one line contributes: nothing when it is blank, otherwise the line
      with its surrounding whitespace removed. */
  lemma ParseIdeasOfLine(line: string)
    requires '\n' !in line
    ensures IsBlank(line) ==> ParseIdeas(line) == []
    ensures !IsBlank(line) ==> ParseIdeas(line) == [Strip(line)]
  {
    LinesOfLine(line);
    StripShape(line);
  }

  /** Parsing a reply is parsing its lines one by one and keeping the ideas in
      the order of the lines: the ideas of `a + "\n" + b` are the ideas of `a`
      followed by the ideas of `b`. With `ParseIdeasOfLine` this fixes the
      content, the order and the count of the ideas: one per non-blank line. */
  lemma ParseIdeasAround(a: string, b: string)
    ensures ParseIdeas(a + "\n" + b) == ParseIdeas(a) + ParseIdeas(b)
  {
    LinesAround(a, b);
    KeepIdeasAppend(Lines(a), Lines(b));
  }

  /** A list of well-formed ideas written one per line parses back to itself.
      The induction is in `KeepIdeasOfIdeas`; `{:induction false}` only keeps
      the verifier from trying one here. */
  lemma {:induction false} ParseIdeasOfJoinLines(ideas: seq<string>)
    requires forall k :: 0 <= k < |ideas| ==> IsIdea(ideas[k])
    ensures ParseIdeas(JoinLines(ideas)) == ideas
  {
    if ideas == [] {
      assert IsBlank("");
      ParseIdeasOfLine("");
    } else {
      var text := JoinLines(ideas);
      assert forall k :: 0 <= k < |ideas| ==> '\n' !in ideas[k];
      LinesOfJoinLines(ideas);
      KeepIdeasOfIdeas(ideas);
      assert ParseIdeas(text) == KeepIdeas(Lines(text));
    }
  }

  lemma {:induction false} KeepIdeasOfIdeas(ideas: seq<string>)
    requires forall k :: 0 <= k < |ideas| ==> IsIdea(ideas[k])
    ensures KeepIdeas(ideas) == ideas
  {
    if ideas != [] {
      StripFixesStripped(ideas[0]);
      KeepIdeasOfIdeas(ideas[1..]);
      assert ideas == [ideas[0]] + ideas[1..];
    }
  }

  /** A leading idea line contributes itself and nothing else. */
  lemma ParseIdeasIdeaLine(x: string, rest: string)
    requires IsIdea(x)
    ensures ParseIdeas(x + "\n" + rest) == [x] + ParseIdeas(rest)
  {
    ParseIdeasAround(x, rest);
    ParseIdeasOfLine(x);
    StripFixesStripped(x);
  }

  /** A leading empty line contributes nothing. */
  lemma ParseIdeasEmptyLine(rest: string)
    ensures ParseIdeas("\n" + rest) == ParseIdeas(rest)
  {
    var empty: string := [];
    assert empty + "\n" + rest == "\n" + rest;
    ParseIdeasAround(empty, rest);
    assert IsBlank(empty);
    ParseIdeasOfLine(empty);
  }

  /** Three ideas on three lines with an empty line before the last. */
  lemma ThreeIdeasWithGap(a: string, b: string, c: string)
    requires IsIdea(a) && IsIdea(b) && IsIdea(c)
    ensures ParseIdeas(a + "\n" + (b + "\n" + ("\n" + c))) == [a, b, c]
  {
    ParseIdeasOfLine(c);
    StripFixesStripped(c);
    var p3 := ParseIdeas(c);
    ParseIdeasEmptyLine(c);
    ParseIdeasIdeaLine(b, "\n" + c);
    var p2 := ParseIdeas(b + "\n" + ("\n" + c));
    assert p2 == [b] + p3;
    ParseIdeasIdeaLine(a, b + "\n" + ("\n" + c));
  }

  /** A numbered reply with an empty line between the second and third
      items gives one idea per item, in order, and nothing for the empty line. */
  lemma NumberedReplyExample()
    ensures
      var a, b, c := "1. Title A: Desc A", "2. Title B: Desc B", "3. Title C: Desc C";
      ParseIdeas(a + "\n" + (b + "\n" + ("\n" + c))) == [a, b, c]
  {
    var a, b, c := "1. Title A: Desc A", "2. Title B: Desc B", "3. Title C: Desc C";
    assert IsIdea(a) && IsIdea(b) && IsIdea(c);
    ThreeIdeasWithGap(a, b, c);
  }
}

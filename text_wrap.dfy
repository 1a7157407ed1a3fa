/**
 * `textwrap.wrap(text, width=55, break_on_hyphens=False)` on the name list.
 * The text is cut into words at its spaces, and the words are packed
 * greedily: a word joins the current line, after one space, when the line
 * then stays within the width; otherwise it starts the next line. Hyphens
 * are never break points, since only spaces separate words.
 */
module TextWrap {
  import opened PyStr

  /** Length of the line made of `g` set side by side with single spaces. */
  function LineLength(g: seq<string>): nat {
    |JoinWith(g, " ")|
  }

  /** The words of a list of lines, in order. */
  function Flatten(gs: seq<seq<string>>): seq<string> {
    if gs == [] then [] else gs[0] + Flatten(gs[1..])
  }

  predicate AllNonEmpty(gs: seq<seq<string>>) {
    forall i :: 0 <= i < |gs| ==> gs[i] != []
  }

  predicate SpaceFree(words: seq<string>) {
    forall k :: 0 <= k < |words| ==> ' ' !in words[k]
  }

  /**
   * Greedy packing: `cur` holds the words of the line being filled, `rest`
   * the words still to place. The result lists the words of each line.
   */
  function Pack(cur: seq<string>, rest: seq<string>, width: nat): (gs: seq<seq<string>>)
    requires cur != []
    ensures gs != [] && AllNonEmpty(gs)
    ensures Flatten(gs) == cur + rest
    decreases |rest|
  {
    if rest == [] then
      assert Flatten([cur]) == cur + Flatten([]);
      [cur]
    else if LineLength(cur) + 1 + |rest[0]| <= width then
      assert cur + rest == (cur + [rest[0]]) + rest[1..];
      Pack(cur + [rest[0]], rest[1..], width)
    else
      var tail := Pack([rest[0]], rest[1..], width);
      assert ([cur] + tail)[1..] == tail;
      assert rest == [rest[0]] + rest[1..];
      [cur] + tail
  }

  /** The text of each line: its words joined by single spaces. */
  function Lines(gs: seq<seq<string>>): (lines: seq<string>)
    ensures |lines| == |gs|
  {
    seq(|gs|, i requires 0 <= i < |gs| => JoinWith(gs[i], " "))
  }

  /** `textwrap.wrap(text, width)`, for text whose words are separated by single spaces. */
  function Wrap(text: string, width: nat): seq<string> {
    var words := SplitOn(text, ' ');
    Lines(Pack([words[0]], words[1..], width))
  }

  // ---------------------------------------------------------------------
  // Facts about packing
  // ---------------------------------------------------------------------

  lemma LineLengthAppend(g: seq<string>, w: string)
    requires g != []
    ensures LineLength(g + [w]) == LineLength(g) + 1 + |w|
  {
    JoinAppend(g, [w], " ");
  }

  /** A line fits the width, or is one word that is wider on its own. */
  predicate FitsOrSingle(g: seq<string>, width: nat) {
    LineLength(g) <= width || |g| == 1
  }

  /** Every packed line fits the width, unless it is a single over-wide word. */
  lemma {:induction false} PackFits(cur: seq<string>, rest: seq<string>, width: nat)
    requires cur != []
    requires FitsOrSingle(cur, width)
    ensures forall g :: g in Pack(cur, rest, width) ==> FitsOrSingle(g, width)
    decreases |rest|
  {
    if rest != [] {
      if LineLength(cur) + 1 + |rest[0]| <= width {
        LineLengthAppend(cur, rest[0]);
        PackFits(cur + [rest[0]], rest[1..], width);
      } else {
        var tail := Pack([rest[0]], rest[1..], width);
        PackFits([rest[0]], rest[1..], width);
        assert Pack(cur, rest, width) == [cur] + tail;
      }
    }
  }

  /** The next line's first word never fits at the end of the line before it. */
  lemma {:induction false} PackGreedy(cur: seq<string>, rest: seq<string>, width: nat, i: nat)
    requires cur != []
    requires i + 1 < |Pack(cur, rest, width)|
    ensures var gs := Pack(cur, rest, width); LineLength(gs[i]) + 1 + |gs[i + 1][0]| > width
    decreases |rest|
  {
    var gs := Pack(cur, rest, width);
    if rest != [] {
      if LineLength(cur) + 1 + |rest[0]| <= width {
        assert gs == Pack(cur + [rest[0]], rest[1..], width);
        PackGreedy(cur + [rest[0]], rest[1..], width, i);
      } else {
        var tail := Pack([rest[0]], rest[1..], width);
        assert gs == [cur] + tail;
        if i == 0 {
          FlattenEnds(tail);
        } else {
          PackGreedy([rest[0]], rest[1..], width, i - 1);
        }
      }
    }
  }

  lemma {:induction false} FlattenEnds(gs: seq<seq<string>>)
    requires gs != [] && AllNonEmpty(gs)
    ensures Flatten(gs) != []
    ensures Flatten(gs)[0] == gs[0][0]
    ensures Flatten(gs)[|Flatten(gs)| - 1] == gs[|gs| - 1][|gs[|gs| - 1]| - 1]
  {
    if |gs| > 1 {
      FlattenEnds(gs[1..]);
    }
  }

  lemma {:induction false} FlattenSpaceFree(gs: seq<seq<string>>)
    requires SpaceFree(Flatten(gs))
    ensures forall i :: 0 <= i < |gs| ==> SpaceFree(gs[i])
  {
    if gs != [] {
      var f := Flatten(gs);
      assert forall k :: 0 <= k < |gs[0]| ==> gs[0][k] == f[k];
      assert Flatten(gs[1..]) == f[|gs[0]|..];
      FlattenSpaceFree(gs[1..]);
      assert forall i :: 1 <= i < |gs| ==> gs[i] == gs[1..][i - 1];
    }
  }

  /** Joining the lines with spaces is joining all their words with spaces. */
  lemma {:induction false} JoinLines(gs: seq<seq<string>>)
    requires gs != [] && AllNonEmpty(gs)
    ensures JoinWith(Lines(gs), " ") == JoinWith(Flatten(gs), " ")
  {
    if |gs| == 1 {
      assert gs[1..] == [];
      assert Flatten(gs) == gs[0];
      assert Lines(gs) == [JoinWith(gs[0], " ")];
    } else {
      JoinLines(gs[1..]);
      assert Lines(gs)[1..] == Lines(gs[1..]);
      FlattenEnds(gs[1..]);
      JoinAppend(gs[0], Flatten(gs[1..]), " ");
    }
  }

  // ---------------------------------------------------------------------
  // Facts about Wrap
  // ---------------------------------------------------------------------

  /** Reading the lines in order, a space at each break, gives back the text. */
  lemma WrapRejoins(text: string, width: nat)
    ensures JoinWith(Wrap(text, width), " ") == text
  {
    var words := SplitOn(text, ' ');
    var gs := Pack([words[0]], words[1..], width);
    assert Wrap(text, width) == Lines(gs);
    JoinLines(gs);
    assert [words[0]] + words[1..] == words;
    JoinSplitOn(text, ' ');
  }

  lemma {:induction false} InFlatten(gs: seq<seq<string>>, i: nat, j: nat)
    requires i < |gs| && j < |gs[i]|
    ensures gs[i][j] in Flatten(gs)
  {
    if i > 0 {
      InFlatten(gs[1..], i - 1, j);
    }
  }

  /** Each line is at most `width` long, or is a single word of the text. */
  lemma WrapFits(text: string, width: nat)
    ensures forall line :: line in Wrap(text, width) ==> |line| <= width || line in SplitOn(text, ' ')
  {
    var words := SplitOn(text, ' ');
    var gs := Pack([words[0]], words[1..], width);
    var lines := Lines(gs);
    assert Wrap(text, width) == lines;
    assert [words[0]] + words[1..] == words;
    PackFits([words[0]], words[1..], width);
    forall i | 0 <= i < |lines| ensures |lines[i]| <= width || lines[i] in words {
      assert lines[i] == JoinWith(gs[i], " ");
      assert gs[i] in gs;
      if |gs[i]| == 1 {
        assert lines[i] == gs[i][0];
        InFlatten(gs, i, 0);
      }
    }
  }

  /** The first word of each line would not have fitted on the line before. */
  lemma WrapGreedy(text: string, width: nat)
    ensures var lines := Wrap(text, width);
      forall i :: 0 <= i < |lines| - 1 ==> |lines[i]| + 1 + |SplitOn(lines[i + 1], ' ')[0]| > width
  {
    var words := SplitOn(text, ' ');
    var gs := Pack([words[0]], words[1..], width);
    var lines := Lines(gs);
    assert Wrap(text, width) == lines;
    assert [words[0]] + words[1..] == words;
    FlattenSpaceFree(gs);
    forall i | 0 <= i < |lines| - 1
      ensures |lines[i]| + 1 + |SplitOn(lines[i + 1], ' ')[0]| > width
    {
      assert lines[i + 1] == JoinWith(gs[i + 1], " ");
      PackGreedy([words[0]], words[1..], width, i);
      SplitOnJoin(gs[i + 1], ' ');
    }
  }

  /** The lines start with the text's first word and end with its last. */
  lemma WrapEnds(text: string, width: nat)
    ensures var lines := Wrap(text, width); var words := SplitOn(text, ' ');
      && lines != []
      && StartsWith(lines[0], words[0])
      && EndsWith(lines[|lines| - 1], words[|words| - 1])
  {
    var words := SplitOn(text, ' ');
    var gs := Pack([words[0]], words[1..], width);
    var lines := Lines(gs);
    assert Wrap(text, width) == lines;
    assert [words[0]] + words[1..] == words;
    FlattenEnds(gs);
    JoinStarts(gs[0], " ");
    JoinEnds(gs[|gs| - 1], " ");
    assert lines[0] == JoinWith(gs[0], " ");
    assert lines[|lines| - 1] == JoinWith(gs[|gs| - 1], " ");
  }

  lemma {:induction false} JoinStarts(parts: seq<string>, sep: string)
    requires parts != []
    ensures StartsWith(JoinWith(parts, sep), parts[0])
  {
  }

  lemma {:induction false} JoinEnds(parts: seq<string>, sep: string)
    requires parts != []
    ensures EndsWith(JoinWith(parts, sep), parts[|parts| - 1])
  {
    if |parts| > 1 {
      JoinEnds(parts[1..], sep);
    }
  }
}

/**
 * `print_status(pkgs)`: the text the script writes for the panel. The
 * printing is replaced by returning the text: the count tag
 * `<txt>N</txt>`, then a `<tool>` block holding the header
 * `Need to upgrade N packages; X MB to download.`, a blank line, and the
 * sorted names joined with ", " and wrapped at 55 columns.
 */
module Status {
  import opened Results
  import opened PyStr
  import opened Sorting
  import opened TextWrap
  import opened Upgrades

  /** The `width=55` passed to `textwrap.wrap`. */
  const WrapWidth: nat := 55

  /** `1024**2`, the divisor that turns bytes into the MB shown. */
  const Mebi: nat := 1048576

  /** `n for n, s in pkgs`. */
  function Names(pkgs: seq<Record>): seq<string> {
    seq(|pkgs|, k requires 0 <= k < |pkgs| => pkgs[k].name)
  }

  /** `sum(s for n, s in pkgs)`: the download size in bytes. */
  function Total(pkgs: seq<Record>): (t: int)
    ensures (forall k :: 0 <= k < |pkgs| ==> pkgs[k].size >= 0) ==> t >= 0
  {
    if pkgs == [] then 0 else pkgs[0].size + Total(pkgs[1..])
  }

  function Abs(x: int): nat {
    if x < 0 then -x else x
  }

  /**
   * `%.1f` of `n / 1024**2`, counted in tenths: the tenths nearest to the
   * quotient, a tie going to the even count, as Python rounds.
   */
  function RoundedTenths(n: nat): (q: nat)
    ensures -(Mebi as int) <= 2 * (q * Mebi - 10 * n) <= Mebi
    ensures 2 * (q * Mebi - 10 * n) == Mebi || 2 * (10 * n - q * Mebi) == Mebi ==> q % 2 == 0
  {
    var q := 10 * n / Mebi;
    var r := 10 * n % Mebi;
    if 2 * r < Mebi then q
    else if 2 * r > Mebi then q + 1
    else if q % 2 == 0 then q
    else q + 1
  }

  /** `"%.1f" % (total / 1024**2)`. */
  function Megabytes(total: int): string {
    var q := RoundedTenths(Abs(total));
    (if total < 0 then "-" else "") + Decimal(q / 10) + "." + [DigitChar(q % 10)]
  }

  /** The digits of `q` tenths, `whole.tenth`, read back as `q`. */
  lemma TenthsReadBack(q: nat)
    ensures var body := Decimal(q / 10) + "." + [DigitChar(q % 10)];
      && |body| >= 3
      && body[|body| - 2] == '.'
      && ParseInt(body[..|body| - 2]) == Some(q / 10)
      && IsDigit(body[|body| - 1])
      && DigitValue(body[|body| - 1]) == q % 10
  {
    var whole := Decimal(q / 10);
    var body := whole + "." + [DigitChar(q % 10)];
    assert body[..|body| - 2] == whole;
    ParseIntOfString(q / 10);
    DigitCharValue(q % 10);
  }

  /**
   * The amount printed reads back as the rounded tenths: a minus sign
   * exactly when the total is negative, then the whole megabytes, which
   * `int` reads as `q / 10`, a point, and the digit `q % 10`.
   */
  lemma MegabytesReadsBack(total: int)
    ensures var q := RoundedTenths(Abs(total)); var s := Megabytes(total);
      && |s| >= 3
      && (total < 0 <==> s[0] == '-')
      && var body := if total < 0 then s[1..] else s;
      && |body| >= 3
      && body[|body| - 2] == '.'
      && ParseInt(body[..|body| - 2]) == Some(q / 10)
      && IsDigit(body[|body| - 1])
      && DigitValue(body[|body| - 1]) == q % 10
  {
    var q := RoundedTenths(Abs(total));
    var body := Decimal(q / 10) + "." + [DigitChar(q % 10)];
    TenthsReadBack(q);
    assert IsDigit(body[0]);
    if total < 0 {
      assert Megabytes(total) == "-" + body;
      assert ("-" + body)[1..] == body;
    } else {
      assert Megabytes(total) == body;
    }
  }

  /** `textwrap.wrap(', '.join(sorted(names)), break_on_hyphens=False, width=55)`. */
  function NameLines(pkgs: seq<Record>): seq<string> {
    Wrap(JoinWith(SortNames(Names(pkgs)), ", "), WrapWidth)
  }

  /**
   * Everything `print_status(pkgs)` writes, each `print` ending in a
   * newline. The header says "packages" whatever the count.
   */
  function Render(pkgs: seq<Record>): string {
    "<txt>" + Decimal(|pkgs|) + "</txt>\n<tool>Need to upgrade " + Decimal(|pkgs|) + " packages; "
    + Megabytes(Total(pkgs)) + " MB to download.\n\n"
    + JoinWith(NameLines(pkgs), "\n") + "</tool>\n"
  }

  // ---------------------------------------------------------------------
  // The count
  // ---------------------------------------------------------------------

  /**
   * The tag and the header both show the number of records, written in
   * decimal so that it reads back as that number.
   */
  lemma RenderReportsCount(pkgs: seq<Record>)
    ensures var d := Decimal(|pkgs|);
      && StartsWith(Render(pkgs), "<txt>" + d + "</txt>\n<tool>Need to upgrade " + d + " packages; ")
      && ParseInt(d) == Some(|pkgs|)
  {
    var d := Decimal(|pkgs|);
    var p := "<txt>" + d + "</txt>\n<tool>Need to upgrade " + d + " packages; ";
    var p1 := p + Megabytes(Total(pkgs));
    var p2 := p1 + " MB to download.\n\n";
    var p3 := p2 + JoinWith(NameLines(pkgs), "\n");
    PrefixOfConcat(p, Megabytes(Total(pkgs)));
    PrefixOfLonger(p1, p, " MB to download.\n\n");
    PrefixOfLonger(p2, p, JoinWith(NameLines(pkgs), "\n"));
    PrefixOfLonger(p3, p, "</tool>\n");
    ParseIntOfString(|pkgs|);
  }

  lemma PrefixOfConcat(x: string, y: string)
    ensures StartsWith(x + y, x)
  {
    assert (x + y)[..|x|] == x;
  }

  lemma PrefixOfLonger(s: string, p: string, y: string)
    requires StartsWith(s, p)
    ensures StartsWith(s + y, p)
  {
    assert (s + y)[..|p|] == s[..|p|];
  }

  // ---------------------------------------------------------------------
  // The total
  // ---------------------------------------------------------------------

  lemma {:induction false} TotalAppend(a: seq<Record>, b: seq<Record>)
    ensures Total(a + b) == Total(a) + Total(b)
  {
    if a == [] {
      assert a + b == b;
    } else {
      assert (a + b)[1..] == a[1..] + b;
      TotalAppend(a[1..], b);
    }
  }

  /** Taking out the record at `j` takes its size out of the total. */
  lemma {:induction false} TotalRemove(b: seq<Record>, j: nat)
    requires j < |b|
    ensures Total(b) == b[j].size + Total(b[..j] + b[j + 1..])
  {
    if j == 0 {
      assert b[..j] + b[j + 1..] == b[1..];
    } else {
      var t := b[1..];
      TotalRemove(t, j - 1);
      assert b[..j] + b[j + 1..] == [b[0]] + (t[..j - 1] + t[j..]);
    }
  }

  lemma RemoveOne<T>(b: seq<T>, j: nat)
    requires j < |b|
    ensures multiset(b[..j] + b[j + 1..]) == multiset(b) - multiset{b[j]}
    ensures multiset(b) == multiset(b[..j] + b[j + 1..]) + multiset{b[j]}
  {
    assert b == b[..j] + [b[j]] + b[j + 1..];
  }

  /** Where the first record of `a` sits in its rearrangement `b`, and what is left on each side. */
  lemma Match(a: seq<Record>, b: seq<Record>) returns (j: nat)
    requires a != [] && multiset(a) == multiset(b)
    ensures j < |b| && b[j] == a[0]
    ensures multiset(a[1..]) == multiset(b[..j] + b[j + 1..])
  {
    assert a[0] in multiset(b);
    j :| 0 <= j < |b| && b[j] == a[0];
    RemoveOne(b, j);
    assert a == [a[0]] + a[1..];
    assert multiset(a[1..]) == multiset(a) - multiset{a[0]};
  }

  /** Reordering the records does not change the total size. */
  lemma {:induction false} TotalReorder(a: seq<Record>, b: seq<Record>)
    requires multiset(a) == multiset(b)
    ensures Total(a) == Total(b)
    decreases |a|
  {
    if a == [] {
      assert b == [];
    } else {
      var j := Match(a, b);
      TotalReorder(a[1..], b[..j] + b[j + 1..]);
      TotalRemove(b, j);
      assert Total(a) == a[0].size + Total(a[1..]);
    }
  }

  /** Reordering the records does not change which names occur how often. */
  lemma {:induction false} NamesReorder(a: seq<Record>, b: seq<Record>)
    requires multiset(a) == multiset(b)
    ensures multiset(Names(a)) == multiset(Names(b))
    decreases |a|
  {
    if a == [] {
      assert b == [];
    } else {
      var j := Match(a, b);
      var b' := b[..j] + b[j + 1..];
      NamesReorder(a[1..], b');
      var nb := Names(b);
      assert Names(b') == nb[..j] + nb[j + 1..];
      RemoveOne(nb, j);
      var na := Names(a);
      assert na == [a[0].name] + Names(a[1..]);
    }
  }

  /** The text printed depends only on the records, not on their order. */
  lemma RenderReorder(a: seq<Record>, b: seq<Record>)
    requires multiset(a) == multiset(b)
    ensures Render(a) == Render(b)
  {
    TotalReorder(a, b);
    NamesReorder(a, b);
    assert |a| == |multiset(a)| == |b|;
    SortedUnique(SortNames(Names(a)), SortNames(Names(b)));
  }

  // ---------------------------------------------------------------------
  // The name list
  // ---------------------------------------------------------------------

  /** The names with the comma that `", ".join` puts after all but the last. */
  function WithCommas(names: seq<string>): seq<string> {
    seq(|names|, k requires 0 <= k < |names| => if k < |names| - 1 then names[k] + "," else names[k])
  }

  lemma {:induction false} CommaJoin(names: seq<string>)
    ensures JoinWith(names, ", ") == JoinWith(WithCommas(names), " ")
  {
    if |names| > 1 {
      CommaJoin(names[1..]);
      assert WithCommas(names)[1..] == WithCommas(names[1..]);
    }
  }

  /**
   * When no name holds a space, the words the wrapper breaks between are
   * the names themselves, each but the last with its comma.
   */
  lemma NameWords(names: seq<string>)
    requires names != []
    requires forall k :: 0 <= k < |names| ==> ' ' !in names[k]
    ensures SplitOn(JoinWith(names, ", "), ' ') == WithCommas(names)
  {
    CommaJoin(names);
    var w := WithCommas(names);
    forall k | 0 <= k < |w| ensures ' ' !in w[k] {
      if k < |names| - 1 {
        assert w[k] == names[k] + ",";
      }
    }
    SplitOnJoin(w, ' ');
  }

  /**
   * The name list, its lines read in order with a space at each break, is
   * the one sorted arrangement of the record names joined with ", ":
   * every name as often as it occurs, in ascending order.
   */
  lemma NameListIsSortedNames(pkgs: seq<Record>, sorted: seq<string>)
    requires IsSorted(sorted) && multiset(sorted) == multiset(Names(pkgs))
    ensures JoinWith(NameLines(pkgs), " ") == JoinWith(sorted, ", ")
  {
    SortedUnique(sorted, SortNames(Names(pkgs)));
    WrapRejoins(JoinWith(sorted, ", "), WrapWidth);
  }

  /** No line of the name list is wider than 55 when every name fits with its comma. */
  lemma NameLinesFit(pkgs: seq<Record>)
    requires forall k :: 0 <= k < |pkgs| ==> ' ' !in pkgs[k].name && |pkgs[k].name| < WrapWidth
    ensures forall line :: line in NameLines(pkgs) ==> |line| <= WrapWidth
  {
    var sorted := SortNames(Names(pkgs));
    var text := JoinWith(sorted, ", ");
    WrapFits(text, WrapWidth);
    if sorted != [] {
      forall k | 0 <= k < |sorted| ensures ' ' !in sorted[k] && |sorted[k]| < WrapWidth {
        assert sorted[k] in multiset(Names(pkgs));
        var j :| 0 <= j < |pkgs| && Names(pkgs)[j] == sorted[k];
      }
      NameWords(sorted);
    }
  }

  /**
   * With two or more names and none holding a space, the printed list
   * starts with the least name and its comma and ends with the greatest
   * name.
   */
  lemma NameListEnds(pkgs: seq<Record>)
    requires |pkgs| >= 2
    requires forall k :: 0 <= k < |pkgs| ==> ' ' !in pkgs[k].name
    ensures var sorted := SortNames(Names(pkgs)); var list := JoinWith(NameLines(pkgs), "\n");
      && StartsWith(list, sorted[0] + ",")
      && EndsWith(list, sorted[|sorted| - 1])
  {
    var sorted := SortNames(Names(pkgs));
    assert |sorted| == |multiset(Names(pkgs))| == |pkgs|;
    forall k | 0 <= k < |sorted| ensures ' ' !in sorted[k] {
      assert sorted[k] in multiset(Names(pkgs));
      var j :| 0 <= j < |pkgs| && Names(pkgs)[j] == sorted[k];
    }
    CommaListEnds(sorted);
  }

  lemma CommaListEnds(names: seq<string>)
    requires |names| >= 2
    requires forall k :: 0 <= k < |names| ==> ' ' !in names[k]
    ensures var list := JoinWith(Wrap(JoinWith(names, ", "), WrapWidth), "\n");
      && StartsWith(list, names[0] + ",")
      && EndsWith(list, names[|names| - 1])
  {
    var text := JoinWith(names, ", ");
    NameWords(names);
    var words := WithCommas(names);
    assert words[0] == names[0] + "," && words[|words| - 1] == names[|names| - 1];
    var lines := Wrap(text, WrapWidth);
    WrapEnds(text, WrapWidth);
    JoinStarts(lines, "\n");
    JoinEnds(lines, "\n");
    var list := JoinWith(lines, "\n");
    StartsWithTrans(list, lines[0], words[0]);
    EndsWithTrans(list, lines[|lines| - 1], words[|words| - 1]);
  }

  // ---------------------------------------------------------------------
  // The wording
  // ---------------------------------------------------------------------

  lemma OneNameLine(pkgs: seq<Record>)
    requires pkgs == [Record("wget", 0)]
    ensures NameLines(pkgs) == ["wget"]
  {
    assert Names(pkgs) == ["wget"];
    assert SortNames(["wget"]) == ["wget"];
    SplitOnNoSeparator("wget", ' ');
  }

  /** One record: the header still says "packages". */
  lemma OnePackage()
    ensures Render([Record("wget", 0)])
      == "<txt>" + "1" + "</txt>\n<tool>Need to upgrade " + "1" + " packages; "
         + "0.0" + " MB to download.\n\n" + "wget" + "</tool>\n"
  {
    var pkgs := [Record("wget", 0)];
    var mb := Megabytes(Total(pkgs));
    var list := JoinWith(NameLines(pkgs), "\n");
    assert Render(pkgs) == "<txt>" + Decimal(1) + "</txt>\n<tool>Need to upgrade " + Decimal(1) + " packages; "
                           + mb + " MB to download.\n\n" + list + "</tool>\n";
    assert list == "wget" by {
      OneNameLine(pkgs);
    }
    assert mb == "0.0" by {
      assert Total(pkgs) == 0;
    }
    assert Decimal(1) == "1";
  }

  /** No records: the count is 0 and the name list is empty. */
  lemma NoPackages()
    ensures Render([])
      == "<txt>" + "0" + "</txt>\n<tool>Need to upgrade " + "0" + " packages; "
         + "0.0" + " MB to download.\n\n" + "" + "</tool>\n"
  {
    assert Names([]) == [] && SortNames([]) == [];
    assert JoinWith([], ", ") == "";
    assert SplitOn("", ' ') == [""];
    assert NameLines([]) == [""];
    assert Megabytes(0) == "0.0";
    assert Decimal(0) == "0";
  }
}

/**
 * The doctest `test()`: 105 pending upgrades, all of size 0 except the
 * first. The script prints the count tag `<txt>105</txt>`, then
 * `<tool>Need to upgrade 105 packages; 59.8 MB to download.`, a blank
 * line, and a name list that starts with "accountsservice," and ends with
 * "xkeyboard-config</tool>".
 */
module Scenario {
  import opened PyStr
  import opened Sorting
  import opened TextWrap
  import opened Upgrades
  import opened Status

  // The names of the doctest, one constant per source line (lines 18-35),
  // in the order the doctest lists them.
  const Row1: seq<string> := ["openssl", "libldap", "krb5", "accountsservice", "apr-util", "apache", "avahi", "binutils"]
  const Row2: seq<string> := ["gnutls", "libdatrie", "libthai", "gtk2", "libssh2", "curl", "libetpan", "sqlite", "claws-mail"]
  const Row3: seq<string> := ["cups-pk-helper", "xkeyboard-config", "efl", "efl-docs", "freerdp", "python2"]
  const Row4: seq<string> := ["libmariadbclient", "postgresql-libs", "gdal", "gegl02", "geoclue2", "git"]
  const Row5: seq<string> := ["libimobiledevice", "mutter", "wpa_supplicant", "gnome-shell", "neon", "rtmpdump"]
  const Row6: seq<string> := ["gst-plugins-bad", "gstreamer0.10-bad", "gstreamer0.10-bad-plugins", "irssi", "ldns"]
  const Row7: seq<string> := ["lib32-openssl", "lib32-libssh2", "lib32-libldap", "lib32-krb5", "lib32-curl", "qt4"]
  const Row8: seq<string> := ["lib32-qt4", "libevent", "libgit2", "libpagemaker", "libshout", "lighttpd", "lynx"]
  const Row9: seq<string> := ["mariadb-clients", "mariadb", "mutt", "nmap", "nodejs", "openvpn", "php", "php-apache"]
  const Row10: seq<string> := ["postgresql", "ptlib", "pypy3", "python", "python-dbus-common", "python-dbus"]
  const Row11: seq<string> := ["python2-dbus", "python2-eyed3", "qca-qt4", "qt5-base", "qt5-xmlpatterns"]
  const Row12: seq<string> := ["qt5-declarative", "qt5-connectivity", "qt5-enginio", "qt5-graphicaleffects"]
  const Row13: seq<string> := ["qt5-imageformats", "qt5-location", "qt5-multimedia", "qt5-sensors", "qt5-webchannel"]
  const Row14: seq<string> := ["qt5-webkit", "qt5-script", "qt5-quick1", "qt5-quickcontrols", "qt5-serialport"]
  const Row15: seq<string> := ["qt5-svg", "qt5-translations", "qt5-tools", "qt5-websockets", "qt5-x11extras"]
  const Row16: seq<string> := ["rdesktop", "redland", "redland-storage-virtuoso", "ruby", "s-nail", "serf", "sg3_utils"]
  const Row17: seq<string> := ["spice-gtk3", "squid", "syslog-ng", "transmission-cli", "transmission-qt", "unbound"]
  const Row18: seq<string> := ["wget"]

  // The lemmas below about the doctest take the names or records as a
  // parameter pinned by `requires names == FixtureNames` (or
  // `pkgs == FixtureRecords()`) rather than naming the constant in their
  // contracts: applied directly to a constant, a recursive function such as
  // `SortNames` is unrolled over all 105 names, which makes the proofs too
  // costly.
  const FixtureNames: seq<string> :=
    Row1 + Row2 + Row3 + Row4 + Row5 + Row6 + Row7 + Row8 + Row9
    + Row10 + Row11 + Row12 + Row13 + Row14 + Row15 + Row16 + Row17 + Row18

  /**
   * The size of the first record. The doctest uses the float
   * `59.8 * 1024**2`; this is the nearest whole number of bytes, which
   * prints the same "59.8".
   */
  const FirstSize: int := 62704845

  /** `list(zip(pkgs, sizes))`. */
  function FixtureRecords(): (pkgs: seq<Record>)
    ensures |pkgs| == |FixtureNames|
  {
    seq(|FixtureNames|, k requires 0 <= k < |FixtureNames| => Record(FixtureNames[k], if k == 0 then FirstSize else 0))
  }

  const First: string := "accountsservice"
  const Last: string := "xkeyboard-config"

  /**
   * From index `i` on, every name of `s` lies between `lo` and `hi` and
   * holds no space; checked name by name.
   */
  predicate InRangeFrom(s: seq<string>, i: nat, lo: string, hi: string)
    decreases |s| - i
  {
    || i >= |s|
    || (&& (s[i] == lo || Below(lo, s[i]))
        && (s[i] == hi || Below(s[i], hi))
        && ' ' !in s[i]
        && InRangeFrom(s, i + 1, lo, hi))
  }

  /** Every name of `s` lies between `lo` and `hi` and holds no space. */
  predicate InRange(s: seq<string>, lo: string, hi: string) {
    forall k :: 0 <= k < |s| ==> Below(lo, s[k]) && Below(s[k], hi) && ' ' !in s[k]
  }

  lemma {:induction false} InRangeChecked(s: seq<string>, i: nat, lo: string, hi: string)
    requires InRangeFrom(s, i, lo, hi)
    ensures forall k :: i <= k < |s| ==> Below(lo, s[k]) && Below(s[k], hi) && ' ' !in s[k]
    decreases |s| - i
  {
    if i < |s| {
      BelowReflexive(s[i]);
      InRangeChecked(s, i + 1, lo, hi);
    }
  }

  lemma InRangeAppend(a: seq<string>, b: seq<string>, lo: string, hi: string)
    requires InRange(a, lo, hi) && InRange(b, lo, hi)
    ensures InRange(a + b, lo, hi)
  {
    forall k | 0 <= k < |a + b|
      ensures Below(lo, (a + b)[k]) && Below((a + b)[k], hi) && ' ' !in (a + b)[k]
    {
      if k >= |a| {
        assert (a + b)[k] == b[k - |a|];
      }
    }
  }

  // Each row is checked name by name, two names per step.
  lemma Row1InRange()
    ensures InRange(Row1, First, Last)
  {
    assert InRangeFrom(Row1, 6, First, Last);
    assert InRangeFrom(Row1, 4, First, Last);
    assert InRangeFrom(Row1, 2, First, Last);
    InRangeChecked(Row1, 0, First, Last);
  }

  lemma Row2InRange()
    ensures InRange(Row2, First, Last)
  {
    assert InRangeFrom(Row2, 7, First, Last);
    assert InRangeFrom(Row2, 5, First, Last);
    assert InRangeFrom(Row2, 3, First, Last);
    InRangeChecked(Row2, 0, First, Last);
  }

  lemma Row3InRange()
    ensures InRange(Row3, First, Last)
  {
    assert InRangeFrom(Row3, 4, First, Last);
    assert InRangeFrom(Row3, 2, First, Last);
    InRangeChecked(Row3, 0, First, Last);
  }

  lemma Row4InRange()
    ensures InRange(Row4, First, Last)
  {
    assert InRangeFrom(Row4, 4, First, Last);
    assert InRangeFrom(Row4, 2, First, Last);
    InRangeChecked(Row4, 0, First, Last);
  }

  lemma Row5InRange()
    ensures InRange(Row5, First, Last)
  {
    assert InRangeFrom(Row5, 4, First, Last);
    assert InRangeFrom(Row5, 2, First, Last);
    InRangeChecked(Row5, 0, First, Last);
  }

  lemma Row6InRange()
    ensures InRange(Row6, First, Last)
  {
    assert InRangeFrom(Row6, 3, First, Last);
    InRangeChecked(Row6, 0, First, Last);
  }

  lemma Row7InRange()
    ensures InRange(Row7, First, Last)
  {
    assert InRangeFrom(Row7, 4, First, Last);
    assert InRangeFrom(Row7, 2, First, Last);
    InRangeChecked(Row7, 0, First, Last);
  }

  lemma Row8InRange()
    ensures InRange(Row8, First, Last)
  {
    assert InRangeFrom(Row8, 5, First, Last);
    assert InRangeFrom(Row8, 3, First, Last);
    InRangeChecked(Row8, 0, First, Last);
  }

  lemma Row9InRange()
    ensures InRange(Row9, First, Last)
  {
    assert InRangeFrom(Row9, 6, First, Last);
    assert InRangeFrom(Row9, 4, First, Last);
    assert InRangeFrom(Row9, 2, First, Last);
    InRangeChecked(Row9, 0, First, Last);
  }

  lemma Row10InRange()
    ensures InRange(Row10, First, Last)
  {
    assert InRangeFrom(Row10, 4, First, Last);
    assert InRangeFrom(Row10, 2, First, Last);
    InRangeChecked(Row10, 0, First, Last);
  }

  lemma Row11InRange()
    ensures InRange(Row11, First, Last)
  {
    assert InRangeFrom(Row11, 3, First, Last);
    InRangeChecked(Row11, 0, First, Last);
  }

  lemma Row12InRange()
    ensures InRange(Row12, First, Last)
  {
    assert InRangeFrom(Row12, 2, First, Last);
    InRangeChecked(Row12, 0, First, Last);
  }

  lemma Row13InRange()
    ensures InRange(Row13, First, Last)
  {
    assert InRangeFrom(Row13, 3, First, Last);
    InRangeChecked(Row13, 0, First, Last);
  }

  lemma Row14InRange()
    ensures InRange(Row14, First, Last)
  {
    assert InRangeFrom(Row14, 3, First, Last);
    InRangeChecked(Row14, 0, First, Last);
  }

  lemma Row15InRange()
    ensures InRange(Row15, First, Last)
  {
    assert InRangeFrom(Row15, 3, First, Last);
    InRangeChecked(Row15, 0, First, Last);
  }

  lemma Row16InRange()
    ensures InRange(Row16, First, Last)
  {
    assert InRangeFrom(Row16, 5, First, Last);
    assert InRangeFrom(Row16, 3, First, Last);
    InRangeChecked(Row16, 0, First, Last);
  }

  lemma Row17InRange()
    ensures InRange(Row17, First, Last)
  {
    assert InRangeFrom(Row17, 4, First, Last);
    assert InRangeFrom(Row17, 2, First, Last);
    InRangeChecked(Row17, 0, First, Last);
  }

  lemma Row18InRange()
    ensures InRange(Row18, First, Last)
  {
    InRangeChecked(Row18, 0, First, Last);
  }

  /** Every name of the doctest lies between `First` and `Last` and holds no space. */
  lemma FixtureInRange(names: seq<string>)
    requires names == FixtureNames
    ensures InRange(names, First, Last)
  {
    Row1InRange();
    Row2InRange();
    Row3InRange();
    Row4InRange();
    Row5InRange();
    Row6InRange();
    Row7InRange();
    Row8InRange();
    Row9InRange();
    Row10InRange();
    Row11InRange();
    Row12InRange();
    Row13InRange();
    Row14InRange();
    Row15InRange();
    Row16InRange();
    Row17InRange();
    Row18InRange();
    InRangeAppend(Row1, Row2, First, Last);
    InRangeAppend(Row1 + Row2, Row3, First, Last);
    InRangeAppend(Row1 + Row2 + Row3, Row4, First, Last);
    InRangeAppend(Row1 + Row2 + Row3 + Row4, Row5, First, Last);
    InRangeAppend(Row1 + Row2 + Row3 + Row4 + Row5, Row6, First, Last);
    InRangeAppend(Row1 + Row2 + Row3 + Row4 + Row5 + Row6, Row7, First, Last);
    InRangeAppend(Row1 + Row2 + Row3 + Row4 + Row5 + Row6 + Row7, Row8, First, Last);
    InRangeAppend(Row1 + Row2 + Row3 + Row4 + Row5 + Row6 + Row7 + Row8, Row9, First, Last);
    InRangeAppend(Row1 + Row2 + Row3 + Row4 + Row5 + Row6 + Row7 + Row8 + Row9, Row10, First, Last);
    InRangeAppend(Row1 + Row2 + Row3 + Row4 + Row5 + Row6 + Row7 + Row8 + Row9 + Row10, Row11, First, Last);
    InRangeAppend(Row1 + Row2 + Row3 + Row4 + Row5 + Row6 + Row7 + Row8 + Row9 + Row10 + Row11, Row12, First, Last);
    InRangeAppend(Row1 + Row2 + Row3 + Row4 + Row5 + Row6 + Row7 + Row8 + Row9 + Row10 + Row11 + Row12, Row13, First, Last);
    InRangeAppend(Row1 + Row2 + Row3 + Row4 + Row5 + Row6 + Row7 + Row8 + Row9 + Row10 + Row11 + Row12 + Row13, Row14, First, Last);
    InRangeAppend(Row1 + Row2 + Row3 + Row4 + Row5 + Row6 + Row7 + Row8 + Row9 + Row10 + Row11 + Row12 + Row13 + Row14, Row15, First, Last);
    InRangeAppend(Row1 + Row2 + Row3 + Row4 + Row5 + Row6 + Row7 + Row8 + Row9 + Row10 + Row11 + Row12 + Row13 + Row14 + Row15, Row16, First, Last);
    InRangeAppend(Row1 + Row2 + Row3 + Row4 + Row5 + Row6 + Row7 + Row8 + Row9 + Row10 + Row11 + Row12 + Row13 + Row14 + Row15 + Row16, Row17, First, Last);
    InRangeAppend(Row1 + Row2 + Row3 + Row4 + Row5 + Row6 + Row7 + Row8 + Row9 + Row10 + Row11 + Row12 + Row13 + Row14 + Row15 + Row16 + Row17, Row18, First, Last);
  }

  lemma {:induction false} ZeroTotal(pkgs: seq<Record>)
    requires forall k :: 0 <= k < |pkgs| ==> pkgs[k].size == 0
    ensures Total(pkgs) == 0
  {
    if pkgs != [] {
      ZeroTotal(pkgs[1..]);
    }
  }

  lemma InRangeReorder(a: seq<string>, b: seq<string>, lo: string, hi: string)
    requires multiset(a) == multiset(b) && InRange(a, lo, hi)
    ensures InRange(b, lo, hi)
  {
    forall k | 0 <= k < |b|
      ensures Below(lo, b[k]) && Below(b[k], hi) && ' ' !in b[k]
    {
      assert b[k] in multiset(a);
      var m :| 0 <= m < |a| && a[m] == b[k];
    }
  }

  /**
   * Sorting names that all lie between two of them, `lo` at `i` and `hi`
   * at `j`, puts `lo` first and `hi` last.
   */
  lemma SortedBetween(names: seq<string>, i: nat, j: nat, lo: string, hi: string)
    requires i < |names| && j < |names| && names[i] == lo && names[j] == hi
    requires InRange(names, lo, hi)
    ensures var sorted := SortNames(names);
      && |sorted| == |names|
      && sorted[0] == lo
      && sorted[|names| - 1] == hi
      && forall k :: 0 <= k < |sorted| ==> ' ' !in sorted[k]
  {
    var sorted := SortNames(names);
    assert |sorted| == |multiset(names)| == |names|;
    assert names[i] in multiset(sorted) && names[j] in multiset(sorted);
    InRangeReorder(names, sorted, lo, hi);
    SortedHeadIsLeast(sorted, lo);
    SortedLastIsGreatest(sorted, hi);
    BelowAntisymmetric(sorted[0], lo);
    BelowAntisymmetric(sorted[|names| - 1], hi);
  }

  /** The doctest lists 105 names, "accountsservice" fourth and "xkeyboard-config" nineteenth. */
  lemma FixtureShape(names: seq<string>)
    requires names == FixtureNames
    ensures |names| == 105 && names[3] == First && names[18] == Last
  {
  }

  /** The sorted names run from "accountsservice" to "xkeyboard-config" and hold no space. */
  lemma SortedFixture(names: seq<string>)
    requires names == FixtureNames
    ensures var sorted := SortNames(names);
      && |sorted| == 105
      && sorted[0] == First
      && sorted[|sorted| - 1] == Last
      && forall k :: 0 <= k < |sorted| ==> ' ' !in sorted[k]
  {
    FixtureInRange(names);
    FixtureShape(names);
    SortedBetween(names, 3, 18, First, Last);
  }

  /**
   * What `test()` prints: the count 105 in the tag and in the header, a
   * total of 59.8 MB, and a name list from "accountsservice," to
   * "xkeyboard-config".
   */
  lemma ReferenceScenario(pkgs: seq<Record>)
    requires pkgs == FixtureRecords()
    ensures var list := JoinWith(NameLines(pkgs), "\n");
      && |pkgs| == 105
      && Render(pkgs) == "<txt>" + "105" + "</txt>\n<tool>Need to upgrade " + "105" + " packages; "
                         + "59.8" + " MB to download.\n\n" + list + "</tool>\n"
      && StartsWith(list, "accountsservice,")
      && EndsWith(list, "xkeyboard-config")
  {
    FixtureTotal(pkgs);
    assert Decimal(105) == "105";
    FixtureList(pkgs);
  }

  /** The sizes add up to the first one, which prints as 59.8 MB. */
  lemma FixtureTotal(pkgs: seq<Record>)
    requires pkgs == FixtureRecords()
    ensures Total(pkgs) == FirstSize
    ensures Megabytes(FirstSize) == "59.8"
  {
    ZeroTotal(pkgs[1..]);
    assert RoundedTenths(FirstSize) == 598;
    assert Decimal(59) == "59";
  }

  lemma FixtureRecordNames(pkgs: seq<Record>)
    requires pkgs == FixtureRecords()
    ensures Names(pkgs) == FixtureNames
  {
  }

  /** No name of the doctest's records holds a space. */
  lemma FixtureSpaceFree(pkgs: seq<Record>)
    requires pkgs == FixtureRecords()
    ensures forall k :: 0 <= k < |pkgs| ==> ' ' !in pkgs[k].name
  {
    var names := Names(pkgs);
    FixtureRecordNames(pkgs);
    FixtureInRange(names);
    forall k | 0 <= k < |pkgs| ensures ' ' !in pkgs[k].name {
      assert pkgs[k].name == names[k];
    }
  }

  lemma FixtureList(pkgs: seq<Record>)
    requires pkgs == FixtureRecords()
    ensures var list := JoinWith(NameLines(pkgs), "\n");
      StartsWith(list, "accountsservice,") && EndsWith(list, "xkeyboard-config")
  {
    FixtureRecordNames(pkgs);
    SortedFixture(Names(pkgs));
    FixtureSpaceFree(pkgs);
    ListFromFirstToLast(pkgs);
  }

  lemma ListFromFirstToLast(pkgs: seq<Record>)
    requires |pkgs| >= 2
    requires forall k :: 0 <= k < |pkgs| ==> ' ' !in pkgs[k].name
    requires var sorted := SortNames(Names(pkgs)); sorted[0] == First && sorted[|sorted| - 1] == Last
    ensures var list := JoinWith(NameLines(pkgs), "\n");
      StartsWith(list, "accountsservice,") && EndsWith(list, "xkeyboard-config")
  {
    NameListEnds(pkgs);
    assert First + "," == "accountsservice,";
  }
}

/**
 * The loop in `main` that reads the output of
 * `pacman -Sup --print-format 'PKG %n %s'`: it keeps the lines that start
 * with "PKG ", splits each on whitespace into "PKG", a name and a size, and
 * appends `(name, int(size))` to the list `pkgs`. A kept line with a wrong
 * number of fields, or a size `int` rejects, raises ValueError, which ends
 * the script before anything is printed.
 */
module Upgrades {
  import opened Results
  import opened PyStr

  /** One pending upgrade: the tuple `(name, int(size))`. */
  datatype Record = Record(name: string, size: int)

  /** Why a kept line raises ValueError. */
  datatype LineError =
    | WrongFieldCount(got: nat)     // `name, size = line.split()[1:]` found `got` values, not 2
    | NotAnInteger(text: string)    // `int(size)` rejected the size field

  /** The error the loop stops with, and the index of the line that raised it. */
  datatype ParseError = ParseError(line: nat, reason: LineError)

  /** `line.startswith("PKG ")`. */
  predicate IsPkgLine(line: string) {
    StartsWith(line, "PKG ")
  }

  /** What pacman prints for one pending upgrade under the format `PKG %n %s`. */
  function PacmanLine(r: Record): string {
    "PKG " + r.name + " " + IntToString(r.size)
  }

  lemma PkgLineFields(line: string)
    requires IsPkgLine(line)
    ensures Fields(line) != [] && Fields(line)[0] == "PKG"
  {
    assert line == "PKG" + line[3..];
    FieldsOfWord("PKG", line[3..]);
  }

  /** The body of the loop for one kept line. */
  function ParseLine(line: string): (r: Result<Record, LineError>)
    requires IsPkgLine(line)
    ensures r.Success? ==> IsWord(r.value.name)
  {
    PkgLineFields(line);
    var fields := Fields(line);
    if |fields| != 3 then Failure(WrongFieldCount(|fields| - 1))
    else
      match ParseInt(fields[2])
      case None => Failure(NotAnInteger(fields[2]))
      case Some(v) => Success(Record(fields[1], v))
  }

  /**
   * What the loop leaves behind after the lines `lines`: the list `pkgs`,
   * or the error raised at the first bad kept line.
   */
  function ParseOutput(lines: seq<string>): Result<seq<Record>, ParseError> {
    if lines == [] then Success([])
    else
      var last := |lines| - 1;
      match ParseOutput(lines[..last])
      case Failure(e) => Failure(e)
      case Success(pkgs) =>
        if !IsPkgLine(lines[last]) then Success(pkgs)
        else
          match ParseLine(lines[last])
          case Failure(reason) => Failure(ParseError(last, reason))
          case Success(r) => Success(pkgs + [r])
  }

  /** The lines the loop keeps, in input order. */
  function PkgLines(lines: seq<string>): seq<string> {
    if lines == [] then []
    else
      var last := |lines| - 1;
      if IsPkgLine(lines[last]) then PkgLines(lines[..last]) + [lines[last]] else PkgLines(lines[..last])
  }

  // ---------------------------------------------------------------------
  // The loop itself
  // ---------------------------------------------------------------------

  /** The `for line in output.splitlines()` loop of `main`. */
  method ParseUpgrades(lines: seq<string>) returns (result: Result<seq<Record>, ParseError>)
    ensures result == ParseOutput(lines)
  {
    var pkgs: seq<Record> := [];
    for i := 0 to |lines|
      invariant ParseOutput(lines[..i]) == Success(pkgs)
    {
      var line := lines[i];
      assert lines[..i + 1][..i] == lines[..i];
      if IsPkgLine(line) {
        match ParseLine(line)
        case Failure(reason) =>
          FailureStays(lines, i + 1);
          return Failure(ParseError(i, reason));
        case Success(r) =>
          pkgs := pkgs + [r];
      }
    }
    assert lines[..|lines|] == lines;
    result := Success(pkgs);
  }

  /** Once the loop has raised, later lines do not matter. */
  lemma {:induction false} FailureStays(lines: seq<string>, n: nat)
    requires n <= |lines|
    requires ParseOutput(lines[..n]).Failure?
    ensures ParseOutput(lines) == ParseOutput(lines[..n])
    decreases |lines| - n
  {
    if n < |lines| {
      var m := |lines| - 1;
      assert lines[..m][..n] == lines[..n];
      FailureStays(lines[..m], n);
    } else {
      assert lines[..n] == lines;
    }
  }

  // ---------------------------------------------------------------------
  // What the loop computes
  // ---------------------------------------------------------------------

  /** The kept lines are exactly the lines that start with "PKG ", in order. */
  lemma {:induction false} PkgLinesAppend(a: seq<string>, b: seq<string>)
    ensures PkgLines(a + b) == PkgLines(a) + PkgLines(b)
    decreases |b|
  {
    if b == [] {
      assert a + b == a;
    } else {
      var m := |b| - 1;
      assert (a + b)[..|a + b| - 1] == a + b[..m];
      PkgLinesAppend(a, b[..m]);
    }
  }

  /**
   * On success the records are the kept lines, each parsed, in order:
   * one record per line that starts with "PKG ", and none for any other line.
   */
  lemma {:induction false} ParsedRecords(lines: seq<string>)
    requires ParseOutput(lines).Success?
    ensures var pkgs := ParseOutput(lines).value; var kept := PkgLines(lines);
      && |pkgs| == |kept|
      && forall k :: 0 <= k < |kept| ==> IsPkgLine(kept[k]) && ParseLine(kept[k]) == Success(pkgs[k])
  {
    if lines != [] {
      ParsedRecords(lines[..|lines| - 1]);
    }
  }

  /** The loop finishes without raising exactly when every kept line parses. */
  lemma {:induction false} ParseSucceedsIff(lines: seq<string>)
    ensures ParseOutput(lines).Success? <==>
      forall i :: 0 <= i < |lines| && IsPkgLine(lines[i]) ==> ParseLine(lines[i]).Success?
  {
    if lines != [] {
      var m := |lines| - 1;
      ParseSucceedsIff(lines[..m]);
      assert forall i :: 0 <= i < m ==> lines[..m][i] == lines[i];
    }
  }

  /**
   * On failure the error names the first kept line that does not parse,
   * with the reason that line gives.
   */
  lemma {:induction false} ParseFailsAtFirstBadLine(lines: seq<string>)
    requires ParseOutput(lines).Failure?
    ensures var e := ParseOutput(lines).error;
      && e.line < |lines|
      && IsPkgLine(lines[e.line])
      && ParseLine(lines[e.line]) == Failure(e.reason)
      && forall i :: 0 <= i < e.line && IsPkgLine(lines[i]) ==> ParseLine(lines[i]).Success?
  {
    var m := |lines| - 1;
    if ParseOutput(lines[..m]).Failure? {
      ParseFailsAtFirstBadLine(lines[..m]);
      assert forall i :: 0 <= i < m ==> lines[..m][i] == lines[i];
    } else {
      ParseSucceedsIff(lines[..m]);
      assert forall i :: 0 <= i < m ==> lines[..m][i] == lines[i];
    }
  }

  // ---------------------------------------------------------------------
  // Round trip with pacman's output format
  // ---------------------------------------------------------------------

  /** A line printed by pacman for a record parses back to that record. */
  lemma ParsePacmanLine(r: Record)
    requires IsWord(r.name)
    ensures IsPkgLine(PacmanLine(r))
    ensures ParseLine(PacmanLine(r)) == Success(r)
  {
    var size := IntToString(r.size);
    var line := PacmanLine(r);
    assert JoinWith([r.name, size], " ") == r.name + " " + size;
    assert line == JoinWith(["PKG", r.name, size], " ");
    assert IsWord(size);
    FieldsOfJoin(["PKG", r.name, size]);
    ParseIntOfString(r.size);
    assert line[..4] == "PKG ";
  }

  /** What pacman prints for a list of upgrades: one line per record, in order. */
  function PacmanListing(records: seq<Record>): (lines: seq<string>)
    ensures |lines| == |records|
  {
    if records == [] then []
    else PacmanListing(records[..|records| - 1]) + [PacmanLine(records[|records| - 1])]
  }

  /** A kept line that parses adds its record to the end of the list. */
  lemma ParseOutputPush(lines: seq<string>, line: string, pkgs: seq<Record>, r: Record)
    requires ParseOutput(lines) == Success(pkgs)
    requires IsPkgLine(line) && ParseLine(line) == Success(r)
    ensures ParseOutput(lines + [line]) == Success(pkgs + [r])
  {
    assert (lines + [line])[..|lines|] == lines;
  }

  /** Parsing what pacman prints for a list of upgrades gives back that list. */
  lemma {:induction false} ParsePacmanListing(records: seq<Record>)
    requires forall k :: 0 <= k < |records| ==> IsWord(records[k].name)
    ensures ParseOutput(PacmanListing(records)) == Success(records)
  {
    if records != [] {
      var m := |records| - 1;
      var front := records[..m];
      ParsePacmanListing(front);
      ParsePacmanLine(records[m]);
      ParseOutputPush(PacmanListing(front), PacmanLine(records[m]), front, records[m]);
      assert front + [records[m]] == records;
    }
  }
}

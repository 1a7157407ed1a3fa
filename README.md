# genmon-pacman, modelled in Dafny

`genmon-pacman.py` is a panel plugin for the Xfce "genmon" monitor. It asks
pacman for the pending upgrades of an Arch Linux system and prints a short
status:

- a count tag `<txt>N</txt>`;
- a `<tool>` block with the header `Need to upgrade N packages; X MB to download.`;
- a blank line;
- the sorted package names, joined with ", " and wrapped at 55 columns.

This project models the two pieces of logic between pacman and the panel:

- **The upgrade-line parser** (`Upgrades`). This is the loop in `main` over
  the lines pacman prints under the format `PKG %n %s`.
  - It is specified by the function `ParseOutput`.
  - It is implemented by the method `ParseUpgrades`, which has a loop
    invariant tying the list it builds to the lines read so far.
  - A kept line whose unpacking or `int(size)` raises ValueError ends the
    script. The model returns this as a `Failure` that names the line and
    the reason.
- **The status formatter** (`Status`). This is `print_status` as a function
  `Render` that returns the text the prints write. It rests on these pieces:
  - `PyStr`: the Python string operations it uses.
  - `Sorting`: `sorted`, modelled by insertion sort.
  - `TextWrap`: the greedy `textwrap.wrap`.
  - `Status.RoundedTenths`: the exact `%.1f` of the total over 1024².

The doctest `test` becomes the lemma `Scenario.ReferenceScenario`.

## Model

| member | source | states |
|---|---|---|
| Upgrades.IsPkgLine | genmon-pacman.py:54 | a line is kept exactly when it starts with the four characters "PKG " |
| Upgrades.ParseLine | genmon-pacman.py:55-56 | a kept line gives a record whose name is a whitespace-free field; the record is the second field with the integer value of the third; any other field count, or a size `int` rejects, is an error |
| Upgrades.ParseUpgrades | genmon-pacman.py:52-56 | the loop returns exactly `ParseOutput(lines)`: the records of the kept lines in order, or the error of the first kept line that raises |
| Upgrades.FailureStays | genmon-pacman.py:53-56 | once a kept line has raised, the lines after it do not change the outcome |
| Upgrades.PkgLinesAppend | genmon-pacman.py:53-54 | the kept lines of two pieces of output are the kept lines of each, in order |
| Upgrades.ParsedRecords | genmon-pacman.py:52-56 | on success there is one record per line starting with "PKG ", in input order, each the parse of its line |
| Upgrades.ParseSucceedsIff | genmon-pacman.py:53-56 | the loop finishes without raising if and only if every kept line parses |
| Upgrades.ParseFailsAtFirstBadLine | genmon-pacman.py:53-56 | on failure the error names a kept line that does not parse, with its reason, and every kept line before it parses |
| Upgrades.ParsePacmanLine | genmon-pacman.py:48-56 | the line pacman prints for a record under `PKG %n %s` is kept and parses back to that record |
| Upgrades.ParsePacmanListing | genmon-pacman.py:48-56 | parsing pacman's listing of a list of records gives back that list |
| Upgrades.PkgLines | genmon-pacman.py:53-54 | the lines the loop keeps, in input order: those that start with "PKG " |
| Upgrades.ParseOutput | genmon-pacman.py:52-56 | what the loop leaves behind: `pkgs` after every line, or the error of the first kept line that raises; its meaning is pinned by `ParsedRecords`, `ParseSucceedsIff` and `ParseFailsAtFirstBadLine` |
| Upgrades.PacmanLine | genmon-pacman.py:49 | the line pacman prints for one upgrade under `PKG %n %s`; `ParsePacmanLine` proves it parses back |
| Upgrades.PacmanListing | genmon-pacman.py:49 | pacman's listing has one line per record, in order; `ParsePacmanListing` proves it parses back to the records |
| PyStr.ParseInt | genmon-pacman.py:56 | `int(size)`: an optional sign and ASCII digits with single underscores between digits, `None` where Python raises ValueError; `ParseIntOfString` is its inverse |
| PyStr.IntToString | genmon-pacman.py:49 | the decimal form of a size, as pacman's `%s` writes it; `ParseIntOfString` reads it back |
| PyStr.JoinWith | genmon-pacman.py:62 | `sep.join(parts)`; `JoinAppend` shows one separator between two joined pieces |
| PyStr.SplitOn | genmon-pacman.py:62-63 | how `textwrap.wrap` cuts the joined name list into words at its spaces: at least one piece and none holding the separator; `JoinSplitOn` and `SplitOnJoin` make it the inverse of joining with the separator |
| PyStr.Fields | genmon-pacman.py:55 | `line.split()` gives only non-empty, whitespace-free fields |
| PyStr.FieldsOfJoin | genmon-pacman.py:55 | `split()` of words joined by single spaces gives back the words |
| PyStr.ParseIntOfString | genmon-pacman.py:56 | `int(str(i)) == i` for every integer, signs included |
| PyStr.Decimal | genmon-pacman.py:61 | `%d` of a count is a non-empty string of decimal digits |
| PyStr.BelowTotal | genmon-pacman.py:62 | any two strings are ordered one way or the other by `<=` |
| PyStr.BelowAntisymmetric | genmon-pacman.py:62 | two strings that are each `<=` the other are equal |
| PyStr.BelowTransitive | genmon-pacman.py:62 | `<=` on strings is transitive |
| Sorting.Insert | genmon-pacman.py:62 | inserting into a sorted list keeps it sorted and adds exactly the one element |
| Sorting.SortNames | genmon-pacman.py:62 | `sorted` returns an ascending permutation of its input |
| Sorting.SortedUnique | genmon-pacman.py:62 | two ascending permutations of the same names are the same list, so any sort gives this result |
| TextWrap.Wrap | genmon-pacman.py:62-63 | `textwrap.wrap(text, width=55, break_on_hyphens=False)` as a greedy packing of the space-separated words; its lemmas `WrapRejoins`, `WrapFits`, `WrapGreedy` and `WrapEnds` state what it promises |
| TextWrap.Pack | genmon-pacman.py:62-63 | the greedy packing gives non-empty lines that hold all the words in their order |
| TextWrap.PackFits | genmon-pacman.py:62-63 | every packed line fits the width or is a single word |
| TextWrap.PackGreedy | genmon-pacman.py:62-63 | no line could also have taken the first word of the next |
| TextWrap.WrapRejoins | genmon-pacman.py:62-63 | the wrapped lines, joined with single spaces, give back the text: breaks only replace spaces |
| TextWrap.WrapFits | genmon-pacman.py:62-63 | every wrapped line is at most the width, unless it is one word of the text |
| TextWrap.WrapGreedy | genmon-pacman.py:62-63 | each line break is forced: the next line's first word would not fit after a space |
| TextWrap.WrapEnds | genmon-pacman.py:62-63 | there is at least one line; the first starts with the first word and the last ends with the last word |
| Status.Names | genmon-pacman.py:62 | `n for n, s in pkgs`: the names in record order; `NamesReorder` shows their multiset ignores record order |
| Status.Total | genmon-pacman.py:65 | `sum(s for n, s in pkgs)`: never negative when no size is; `TotalAppend` and `TotalReorder` make it an order-free sum |
| Status.Megabytes | genmon-pacman.py:65 | `"%.1f" % (total / 1024**2)`: `MegabytesReadsBack` proves it reads back as the rounded tenths of `RoundedTenths` |
| Status.NameLines | genmon-pacman.py:62-63 | the wrapped lines of the sorted names joined with ", "; `NameListIsSortedNames`, `NameLinesFit` and `NameListEnds` state what they hold |
| Status.Render | genmon-pacman.py:60-66 | everything `print_status` writes, as one string; `RenderReportsCount`, `RenderReorder` and the lemmas on its parts state what it promises |
| Status.RoundedTenths | genmon-pacman.py:65 | the tenths printed are the nearest to the byte count over 1024², ties going to the even tenth |
| Status.TenthsReadBack | genmon-pacman.py:65 | the printed `whole.tenth` reads back as the rounded tenths |
| Status.MegabytesReadsBack | genmon-pacman.py:65 | the printed amount has a minus sign exactly when the total is negative, then a whole part that `int` reads as the rounded tenths over ten, a point, and the last digit of the rounded tenths |
| Status.RenderReportsCount | genmon-pacman.py:61-64 | the output opens with the tag and the header, both showing the record count in decimal, and that count reads back as `len(pkgs)` |
| Status.TotalAppend | genmon-pacman.py:65 | the total of two lists is the sum of their totals |
| Status.TotalReorder | genmon-pacman.py:65 | reordering the records leaves the byte total unchanged |
| Status.NamesReorder | genmon-pacman.py:62 | reordering the records leaves the multiset of names unchanged |
| Status.RenderReorder | genmon-pacman.py:60-66 | the whole output depends only on the multiset of records, not on their order |
| Status.CommaJoin | genmon-pacman.py:62 | joining names with ", " is joining them, each but the last with its comma, with single spaces |
| Status.NameWords | genmon-pacman.py:62 | when no name holds a space, the wrapper's words are the names with their commas |
| Status.NameListIsSortedNames | genmon-pacman.py:62-63 | the name list, its lines rejoined, is the one ascending arrangement of the names, each as often as it occurs, joined with ", " |
| Status.NameLinesFit | genmon-pacman.py:62-63 | when every name is space-free and shorter than 55, no line of the list is wider than 55 |
| Status.NameListEnds | genmon-pacman.py:62-66 | with two or more space-free names, the list starts with the least name and its comma and ends with the greatest name |
| Status.CommaListEnds | genmon-pacman.py:62-63 | the wrapped ", "-joined list starts with its first name and a comma and ends with its last name |
| Status.OnePackage | genmon-pacman.py:60-66 | a single record still gives "Need to upgrade 1 packages" |
| Status.NoPackages | genmon-pacman.py:60-66 | no records give the count 0, "0.0 MB" and an empty list |
| Scenario.FixtureRecords | genmon-pacman.py:36-38 | the doctest's records pair each of its names with a size |
| Scenario.FixtureShape | genmon-pacman.py:17-35 | the doctest lists 105 names, "accountsservice" fourth and "xkeyboard-config" nineteenth |
| Scenario.FixtureInRange | genmon-pacman.py:17-35 | every doctest name lies between "accountsservice" and "xkeyboard-config" and holds no space |
| Scenario.SortedBetween | genmon-pacman.py:62 | sorting names that all lie between two of them puts the lower first and the upper last |
| Scenario.SortedFixture | genmon-pacman.py:17-35 | the doctest names, sorted, run from "accountsservice" to "xkeyboard-config" |
| Scenario.FixtureTotal | genmon-pacman.py:36-37 | the doctest's sizes add up to the first one, which prints as "59.8" |
| Scenario.FixtureList | genmon-pacman.py:14 | the doctest's name list starts with "accountsservice," and ends with "xkeyboard-config" |
| Scenario.ReferenceScenario | genmon-pacman.py:8-38 | the doctest prints `<txt>105</txt>`, then "Need to upgrade 105 packages; 59.8 MB to download.", a blank line, and a list from "accountsservice," to "xkeyboard-config" |

## Left out

- The `sudo pacman -Sy` and `pacman -Sup` calls (genmon-pacman.py:45-50) are process I/O. Their output is the parser's input.
- `output.splitlines()` (genmon-pacman.py:53) is not modelled. The parser takes the list of lines, so Python's set of line boundaries is not captured.
- `argparse` (genmon-pacman.py:42-43) takes no options, and the `__main__` guard (genmon-pacman.py:69-70) is plumbing. Neither is modelled.
- The `print` calls are not modelled. `Render` returns the text they write, one newline after each call.
- A raised ValueError becomes a `Failure` result. The traceback and the script's exit are not modelled.
- PyStr.ParseInt: accepts only ASCII digits, an optional sign and single underscores between digits. Python's `int` also accepts other Unicode decimal digits and surrounding whitespace, and it limits strings to 4300 digits. `split()` has already removed the whitespace.
- TextWrap.Wrap: a word longer than the width stays whole on a line of its own, whereas `textwrap` splits it (`break_long_words`). Package names are far shorter than 55.
- TextWrap.Wrap: breaks only at single spaces and keeps every space that is not a break. `textwrap` first turns tabs, newlines and the other ASCII whitespace into spaces, drops a whole run of whitespace at a break, and strips whitespace at the end of every line. `Render` accepts any record, so two records diverge here: a name holding whitespace (such as " cd"), and two or more names that are all empty. For two empty names the model's list is ", " where `textwrap` gives ",". Names that `line.split()` produces are non-empty and never hold whitespace, so the script's output is unaffected.
- TextWrap.Wrap: for an empty text it gives one empty line, where `textwrap.wrap` gives none. Both print the same empty list.
- Status.Megabytes: matches Python's `%.1f` of the true quotient only for totals below 2^53 in magnitude. Above that, Python first rounds `sum / 1024**2` to a double.
- Scenario.FixtureRecords: the doctest's first size is the float `59.8 * 1024**2`. The model uses the integer 62704845, the nearest whole number of bytes, which prints the same "59.8".
- Scenario.ReferenceScenario: states only the first and last names of the list. The doctest elides the middle with an ellipsis.

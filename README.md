# lxi-tools screenshot core, modelled in Dafny

This project models the screenshot core of lxi-tools (`src/screenshot.c`).
That core keeps a fixed-size table of screenshot plugins. Each plugin has a name, a description, an optional
instrument-matching pattern and a capture handler. The core:

- registers plugins into the first free slot;
- prints the aligned plugin listing;
- chooses the plugin for a capture, either by exact name or by autodetection;
- decides the file name a captured image is written to.

Autodetection queries the instrument's `*IDN?` reply and strips its trailing newline. It then splits every
plugin's pattern on spaces into fragments and counts how many fragments match
the reply. The plugin with the strictly highest count wins, and on a tie the earliest plugin wins.

Modules:

- `Wrappers`: `Option`, `Result`, and the `Failure` cases where the source prints an error and exits.
- `Tokenize`: what a `strtok(.., " ")` walk yields, as `Tokens`. `StrTok` is one `strtok` step over a buffer.
- `Matcher`: `regex_match` over an abstract regular-expression engine (`Engine`). `MatchCount` is the score of
  one pattern. `CountMatches` is the source's token walk, proved against `MatchCount`.
- `Plugins`: the plugin descriptor, how the registered plugins are read out of the table (a leading run of
  non-NULL slots), the winner rule (`IsWinner`), the name lookup (`IsLookup`), and the text of the listing
  (`Listing`).
- `Screenshot`: the plugin table as a class over a 50-slot array, plus the operations of `src/screenshot.c` as methods
  with loops: register, register the built-ins, list, autodetect, look up by name, and `screenshot()`'s
  selection logic.
- `Identity`: the newline strip of `get_device_id`, both as written and as intended (see Findings).
- `Naming`: the `date_time` stamp, the automatic file name `screenshot_<ip>_<date>.<format>`, and the
  override and `fopen` failure paths of `screenshot_file_dump`.

## Model

| member | source | states |
|---|---|---|
| Tokenize.StrTok | src/screenshot.c:241-256 | one `strtok(.., " ")` step. It skips leading spaces and either finds no token (the rest holds none) or returns the next token and the position after it. The tokens of the rest are that token followed by the tokens after it |
| Tokenize.TokensAreFragments | src/screenshot.c:239-256 | every fragment the walk yields is non-empty and contains no space |
| Tokenize.TokensJoinSpaces | src/screenshot.c:239-256 | joining non-empty, space-free fragments with single spaces and walking the result gives back exactly those fragments, in order |
| Tokenize.TokensSpace | src/screenshot.c:241-256 | a leading space never produces a token: the walk of `" " + s` equals the walk of `s` |
| Tokenize.SiglentSdm3000Fragments | src/plugins/screenshot_siglent-sdm3000.c:82-88 | the siglent-sdm3000 pattern splits into the five fragments `SIGLENT`, `TECHNOLOGIES`, `Siglent`, `Technologies`, `SDM3...` |
| Matcher.RegexMatch | src/screenshot.c:86-101 | `regex_match`: a pattern that `regcomp` rejects never matches, whatever the string; otherwise the engine's search decides (the engine is abstract) |
| Matcher.MatchCount | src/screenshot.c:239-257 | a plugin's match count never exceeds the number of fragments in its pattern |
| Matcher.MatchCountExtremes | src/screenshot.c:86-101 | a fragment that does not compile never matches, so a pattern whose fragments all fail to compile scores 0, and one whose fragments all match scores its fragment count |
| Matcher.MatchCountAppend | src/screenshot.c:241-256 | the count over two runs of fragments is the sum of their counts |
| Matcher.MatchCountPermutation | src/screenshot.c:239-257 | the score does not depend on the order of the fragments |
| Matcher.CountMatches | src/screenshot.c:239-257 | the strtok walk with its `token_found` flag computes exactly the number of fragments of the pattern that match the id |
| Plugins.RegisteredIsLeadingRun | src/screenshot.c:149-150 | the registered plugins are the slots before the first NULL, in slot order |
| Plugins.RegisteredOfRun | src/screenshot.c:168-173 | when the table is a run of plugins followed by NULLs only, the walk reads back exactly that run |
| Plugins.RegisteredIsAll | src/screenshot.c:148-159 | in a table of plugins followed only by NULLs, every slot after the registered plugins is empty |
| Plugins.Score | src/screenshot.c:232-257 | a plugin without a pattern scores 0, and otherwise at most its fragment count |
| Plugins.WinnerStep | src/screenshot.c:259-264 | one step of "replace the winner only on a strictly higher count" keeps the winner rule over the scores seen so far |
| Plugins.WinnerUnique | src/screenshot.c:259-276 | the winner rule picks at most one index for any scores |
| Plugins.TieGoesToFirst | src/screenshot.c:259-264 | when two plugins have the same count, the later one is never the winner |
| Plugins.LookupUnique | src/screenshot.c:284-293 | the name lookup gives at most one answer: the first plugin with that name, or none |
| Plugins.MaxNameLengthIsMax | src/screenshot.c:167-174 | `length_max` is at least every registered name's length and equals one of them (0 with no plugins) |
| Plugins.RowsAppend | src/screenshot.c:181-188 | the listing's rows for two runs of plugins are the rows of the first followed by those of the second |
| Plugins.ListingHeader | src/screenshot.c:176-180 | the listing starts with `length_max - 4` spaces (none when that is not positive) and `Name   Description` |
| Plugins.ListingRowAt | src/screenshot.c:181-188 | row k of the listing directly follows the header and the rows of the plugins before k |
| Plugins.RowLayout | src/screenshot.c:183-186 | a row is the name right-aligned to `length_max` columns, three spaces, the description and a newline |
| Plugins.ListingAligned | src/screenshot.c:162-189 | in the listing, every plugin's name ends in the same column (`length_max`) and is followed by three spaces and its description |
| Screenshot.Registry.constructor | src/screenshot.c:45-54 | the table starts with 50 empty slots and no plugins |
| Screenshot.Registry.Register | src/screenshot.c:144-160 | the plugin goes into the first empty slot and is appended to the registered plugins. If all 50 slots are taken, this fails with "plugin list full" and changes nothing |
| Screenshot.Registry.RegisterPlugins | src/screenshot.c:191-199 | the five built-in plugins are appended in source order. It succeeds exactly when they fit, and on failure as many of them as fit have been added |
| Screenshot.Registry.LongestNameLength | src/screenshot.c:167-174 | the first loop of the listing computes the longest registered name length |
| Screenshot.PrintHeader | src/screenshot.c:176-180 | the padding loop and header line produce the listing's header |
| Screenshot.PrintRow | src/screenshot.c:183-186 | the padding loop and two printfs append exactly one row of the listing |
| Screenshot.Registry.ListPlugins | src/screenshot.c:162-189 | the printed text is exactly `Listing` of the registered plugins |
| Screenshot.Registry.Autodetect | src/screenshot.c:229-270 | the loop returns the winner under the winner rule over every registered plugin's score: -1 when every score is 0, otherwise the first plugin with the highest score |
| Screenshot.Registry.FindByName | src/screenshot.c:284-293 | the loop returns the index of the first plugin whose name equals the requested one, or none if there is no such plugin |
| Screenshot.Registry.Screenshot | src/screenshot.c:201-300 | an empty address fails. With a name, the answer is the first plugin of that name, else "unknown plugin name". Without a name, a missing id reply fails. Otherwise the answer is the autodetection winner over the newline-stripped reply, else "could not autodetect" exactly when no plugin scores |
| Identity.StripNewline | src/screenshot.c:79-81 | one trailing newline is removed and nothing else changes. A reply without one is kept whole |
| Identity.StripNewlineAppended | src/screenshot.c:79-81 | stripping undoes appending one newline, and removes only one of two |
| Identity.CString | src/screenshot.c:94 | the string `regexec` reads from a buffer is its longest NUL-free prefix: it stops exactly at the first NUL, or at the end of the buffer |
| Identity.IdAsWritten | src/screenshot.c:72-81 | the id as the code leaves it in its buffer: undefined exactly for an empty reply, otherwise NUL-free and beginning with the whole reply except possibly its last character |
| Identity.IdAsWrittenWithNewline | src/screenshot.c:72-81 | as written, a non-empty reply ending in a newline yields the stripped reply |
| Identity.IdAsWrittenReadsOn | src/screenshot.c:72-81 | as written, a reply without a trailing newline is not terminated. The id read by `regexec` runs on into stale buffer bytes up to the first NUL |
| Identity.IdAsWrittenExample | src/screenshot.c:72-81 | a concrete reply `RIGOL` over a stale buffer `X\0` is read as `RIGOLX` |
| Identity.IdAsWrittenEmptyReply | src/screenshot.c:72-81 | as written, an empty reply has no defined id, because `id[length-1]` reads `id[-1]` |
| Naming.Decimal | src/screenshot.c:109-110 | `%d` of a natural number is a non-empty run of decimal digits with no leading zero (a leading `0` only for 0 itself) |
| Naming.DecimalRoundTrip | src/screenshot.c:109-110 | reading the digits of `%d` back gives the number |
| Naming.ZeroPad2RoundTrip | src/screenshot.c:109-110 | `%02d` of a number below 100 is exactly two decimal digits (zero-padded, never space- or sign-padded) that read back as that number |
| Naming.DateTime | src/screenshot.c:103-113 | `date_time()` starts with `%d` of tm_year+1900, and for any time `localtime` produces it is that year plus 15 characters (five separators and five two-character fields); `DateTimeFields` reads each field back |
| Naming.DateTimeLayout | src/screenshot.c:103-113 | the stamp is `year-MM-DD_hh:mm:ss`, with year = tm_year+1900 and month = tm_mon+1. The separators are at fixed offsets after the year |
| Naming.DateTimeFields | src/screenshot.c:103-113 | the year is all digits without a leading zero, each of the five other fields is exactly two digits, and each reads back as its `struct tm` value (year offset 1900, month offset 1) |
| Naming.DateTimeHasNoDot | src/screenshot.c:109-110 | the stamp contains no `.` |
| Naming.AutomaticFilename | src/screenshot.c:125 | the name is `screenshot_`, the address, `_`, the date-time, `.` and the format, 13 characters longer than its three parts; `AutomaticFilenameSplits` recovers the parts |
| Naming.AutomaticFilenameSplits | src/screenshot.c:123-126 | `screenshot_<ip>_<date>.<format>` can be split back into ip, date and format when the ip has no `_` and the format has no `.` |
| Naming.FileDump | src/screenshot.c:115-141 | a non-empty override name is used as given, and otherwise the automatic name. Either way the result is that name exactly when it can be opened, and "could not write" exactly when it cannot |

## Left out

- Screenshot.Registry.Screenshot: autodetection matches against the corrected id (`Identity.StripNewline` of the reply). For a reply without a trailing newline, or an empty reply, lines 80-81 leave a different string in `id` (`Identity.IdAsWritten`), and the model does not follow that.
- Plugin capture handlers (`plugin_list[i]->screenshot(address, timeout)`, line 303) are not modelled. `Screenshot.Registry.Screenshot` returns the selected slot's index rather than calling its handler.
- The LXI transport of `get_device_id` (connect, send `*IDN?`, receive) is not modelled. Its outcome is the parameter `idReply`, and `None` stands for a connect or receive failure. The `timeout != 0` argument at line 223 passes a truth value as the timeout. The model has no timeouts, so this is not captured.
- The regular-expression engine (`regcomp`/`regexec` with `REG_EXTENDED | REG_NOSUB`) is abstract. `Engine` says whether a fragment compiles and whether it matches the id.
- `time()` and `localtime()` are left out. The broken-down time is a parameter of type `Tm`.
- `fopen`/`fwrite`/`fclose` are left out. Whether the file can be opened is the parameter `canOpen`, and the image bytes are not modelled.
- `printf` messages on error and success are left out. Errors are `Failure` values instead of `exit(EXIT_FAILURE)`, and the listing is returned as a string rather than written to stdout.
- `Naming.FileDump`: the 1000-byte `automatic_filename` buffer and the 50-byte `date_time_string` are not modelled. Names are unbounded, so an over-long ip or format that overflows the buffer in the source is not captured.
- `Identity.StripNewline`: the reply is not bounded by `ID_LENGTH_MAX` (65536 bytes).
- The five built-in plugin descriptors (keysight-iv2000x, rigol-1000, rigol-2000, rs-hmo1000, tektronix-2000) are not part of this model. `Screenshot.Registry.RegisterPlugins` takes them as parameters.
- The siglent-sdm3000 plugin's capture routine is not modelled. Only its descriptor's pattern is used, as an example.
- Name uniqueness is not enforced, as in the source. The lookup takes the first match.
- Memory management (`strdup`/`free` of the pattern buffer) is left out. The walk works on an immutable copy.
- Integer widths are left out. Name lengths are unbounded naturals, and `length_max - strlen(name)` cannot go below zero because `length_max` is the longest name.
- Strings are C strings of the source's descriptors. Embedded NUL characters in names or patterns are not modelled, except in `Identity.CString`, which models the read of a NUL-terminated buffer.

## Findings

| source | as written | input that shows it | evidently intended | confidence | as-written member | corrected member |
|---|---|---|---|---|---|---|
| src/screenshot.c:72-81 | only a trailing newline is overwritten with NUL. A reply without one is left unterminated in `id`, so `regexec` reads on into stale bytes | reply `RIGOL` (no newline) over a buffer still holding `X\0` is matched as `RIGOLX` | the id is exactly the reply, minus one trailing newline | medium (depends on `lxi_receive` not terminating the buffer); not executed | Identity.IdAsWrittenReadsOn | Identity.StripNewline |
| src/screenshot.c:72-81 | `id[length-1]` is read with `length == 0` when the instrument replies with nothing | empty reply | an empty reply gives an empty id | medium (depends on `lxi_receive` returning 0 for an empty reply); not executed | Identity.IdAsWrittenEmptyReply | Identity.StripNewline |

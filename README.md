# chamosbot-v3 core in Dafny

This project models the text-producing core of the chamosbot-v3 chat bot. The bot answers
Hypixel, Splatoon 2 and Chess.com commands with text tables and sentences. The model covers:

- **hypixel.py:** the per-class formula rows and the stat map built from a scraped stats page
  (`get_stats` after the HTML extraction). It also covers `stat_table`, which plugs `^Sub.Field$`
  tokens into each formula, evaluates it and formats the cell, and `get_bedwars_table`, which
  chooses the player class, collects the lookup errors, sorts and renders the table.
- **tools.py:** `format_number`, `get_stat`, `sort_table`, `english_list`, `format_delta`,
  `clean_list` and `get_today_tomorrow`.
- **matrix.py:** the `Matrix` and `Table` list classes and their text rendering.
- **splatoon.py:**
  - `duration_remaining`, `combine_gamemodes`, `search_schedule` and `stages_notification`;
  - the `Stage`, `Weapon` and `Match` readers of the Splatoon 2 API's JSON;
  - `get_salmon_weapons` and `get_ranks`.
- **chess.py:** `get_elos`, `record_string` and the row-to-CSV conversion of
  `pogchamp_schedule_to_csv`.

Modules:

- `Wrappers`: `Result` and a stop-at-first-failure map (a comprehension that raises).
- `Strings`: `join`, `split(c)`, `split()`, `replace(c, '')`, `rstrip` and `str` of integers.
- `Seqs`: `filter`.
- `Sorting`: a stable insertion sort standing for `list.sort` and `sorted`.
- `JsonData`: decoded JSON, indexing it, and `str` of it.
- `Matrix`, `Tools`, `Hypixel`, `Splatoon` and `Chess`: one module per source file.

Python exceptions become `Failure` values, so every error path is a result and no operation
has a precondition that the source does not have. Code that loops and mutates locals is a
`method` with loop invariants. Each such method is proved equal to a specification function,
and the properties are proved about that function. `Matrix` and `Table`, which subclass
`list`, are classes whose `rows`/`cells` field the methods reassign.

## Model

| member | source | states |
|---|---|---|
| Matrix.Matrix.constructor | matrix.py:5-6 | `height` rows (none when negative), each `width` copies of `fill` (none when negative) |
| Matrix.FilledTextLength | matrix.py:8-9 | a filled matrix's text is `height * (width * len(fill)) + height - 1` characters long: the rows' characters plus one newline between rows |
| Matrix.FilledTextLines | matrix.py:8-9 | with a newline-free fill, splitting the text on newlines gives exactly `height` lines, each the fill repeated `width` times and so `width * len(fill)` long |
| Matrix.Table.constructor | matrix.py:13-17 | the table holds the given rows and keeps `just` and `sep` |
| Matrix.Table.Append | matrix.py:12 | appending adds exactly one row at the end and changes nothing else |
| Matrix.Table.ToString | matrix.py:22-33 | `str(table)` is the rendering of its rows, or the IndexError a row longer than the shortest row raises |
| Matrix.Columns | matrix.py:24 | the number of columns `zip(*rows)` yields is the length of the shortest row (0 with no rows) |
| Matrix.Width | matrix.py:24 | a column's width is at least every cell's length and equals some cell's length |
| Matrix.Pad | matrix.py:28-31 | `ljust`/`rjust`: the cell is kept at the left or right end and the rest, up to the width, is spaces |
| Matrix.RectangularRenders | matrix.py:22-33 | a table whose rows all have the same length always renders |
| Matrix.RenderLines | matrix.py:22-33 | the text splits on newlines into exactly one line per row, in row order, each the padded row joined by `sep` |
| Matrix.LineLength | matrix.py:24-31 | every line of a rectangular table is as long as the column widths plus one separator between neighbouring columns |
| Tools.FormatNumber | tools.py:23-31 | '-' passes through, an int is shown so that dropping its commas gives `str(n)` (for the ints a double holds exactly), any other string raises |
| Tools.FormatIntRoundTrip | tools.py:28 | removing the thousands separators from `'{:,}'.format(n)` gives back `str(n)` |
| Tools.GroupShape | tools.py:28 | the groups between commas have one to three digits first, then exactly three each, and together they are the digits |
| Tools.GroupedHasComma | tools.py:28 | a value of 1000 or more is printed with a comma |
| Tools.GetStat | tools.py:34-39 | the loop walks the dotted path key by key and returns the text without commas, or the first lookup error |
| Tools.WalkStops | tools.py:36-37 | once a key lookup fails, the rest of the path is not walked and that error is raised |
| Tools.StatTwoKeys | tools.py:34-39 | on a stat map, get_stat succeeds exactly for "Sub.Field" paths whose two keys exist, and gives that field's text without commas |
| Tools.DescendingIsPreorder | tools.py:43-53 | the sort key (a number, or +infinity when it does not parse) orders columns totally, largest first |
| Tools.Transpose | tools.py:52 | `zip(*rows)`: one column per cell of the shortest row, each as tall as the table |
| Tools.SortTableMethod | tools.py:42-60 | sort_table returns a fresh right-justified table holding the sorted columns turned back into rows, or IndexError |
| Tools.SortTableSucceeds | tools.py:52-57 | sort_table fails exactly when there is no column or no row `index` |
| Tools.SortTableIsPermutation | tools.py:52-58 | the result has as many rows as the input, each as long as the shortest input row, and its columns are a permutation of the input's |
| Tools.SortTableOrder | tools.py:43-53 | columns come out with non-increasing keys in row `index`, and columns with equal keys keep their input order |
| Tools.SortTableKeepsLabelFirst | tools.py:46-50 | when the first column's cell in row `index` is not a number, that column stays first |
| Tools.TransposeRows | tools.py:52-58 | rebuilding rows from columns and transposing again gives the columns back |
| Tools.GroupedCellIsInfinite | tools.py:43-50 | a count of 1000 or more, formatted with a comma, does not parse as a float and sorts as +infinity |
| Tools.EnglishList | tools.py:81-95 | 'None' for no item, the item itself for one, otherwise it starts with the first item and ends with " andor last" |
| Tools.EnglishListLengthTwo | tools.py:90-91 | two items are joined by " andor " |
| Tools.EnglishListLengthMore | tools.py:92-95 | for three or more items the text is as long as the items, ", " after each leading item, and "andor " before the last |
| Tools.EnglishListParts | tools.py:92-95 | for three or more items without commas, the text splits on ',' into the first item, each further leading item after a space, and " andor last": every item in order, ", " between leading items, ", andor " before the last |
| Tools.Upper | tools.py:117 | `upper()` keeps the length |
| Tools.UpperFinds | tools.py:117-131 | a unit letter is found in the upper-cased format whether it was written lower or upper case |
| Tools.FormatDeltaMethod | tools.py:115-136 | format_delta is the non-zero parts of the requested breakdown joined by spaces |
| Tools.Take | tools.py:119-134 | one step takes the requested unit's whole amount off the time and leaves the rest to the smaller units |
| Tools.Amounts | tools.py:116-134 | the four steps give the breakdown of the seconds into the requested units, largest first |
| Tools.BreakdownUnfold | tools.py:119-134 | a requested unit gets `time // size`, and the smaller units share `time % size` |
| Tools.DhmsDecomposition | tools.py:115-134 | with "dhms" any number of seconds is days, hours below 24, minutes and seconds below 60, and these add back up to it |
| Tools.BreakdownIgnoresOrder | tools.py:119-131 | only which unit letters the format holds matters, not their order or repetition |
| Tools.OmittedIffZero | tools.py:136 | a part is dropped exactly when its amount is zero |
| Tools.BreakdownLetters | tools.py:119-134 | no letter other than the units' appears in the breakdown |
| Tools.BreakdownTotal | tools.py:116-134 | the requested amounts, counted in seconds, plus what is left below the smallest requested unit equal the input |
| Tools.TagEnd | tools.py:155 | a tag opened by '<' ends at the first '>' after it unless a newline comes first |
| Tools.StripTags | tools.py:155 | stripping tags never makes a text longer |
| Tools.StripTagsNoTags | tools.py:155 | text without '<' is unchanged |
| Tools.StripTagsTagFree | tools.py:155 | after `re.sub(r'<.*?>', '', s)` no '<' is followed by a '>' on the same line |
| Tools.CleanListMethod | tools.py:150-157 | the loop keeps, in order, each entry not in the bad list with its tags stripped |
| Tools.CleanListKeeps | tools.py:150-157 | one output per input outside '', '\t', '\n', '<br/>'; no output has a tag; a tag-less good entry is kept as it is |
| Tools.CleanListFilterThenStrip | tools.py:150-157 | for every input, the result has one entry per kept input (not '', '\t', '\n' or '<br/>'), in order, and entry i is kept input i with its tags stripped, so a tags-only entry leaves an empty string |
| Tools.TodayTomorrow | tools.py:98-112 | 'today', 'tomorrow' or 'yesterday' exactly when the date falls on the same day as now, the next day or the previous day |
| Hypixel.SpecSplits | hypixel.py:45 | a spec with no '#' in its formula or caption splits back into the two |
| Hypixel.RowPairsHashFree | hypixel.py:154-223 | no built-in formula or caption holds a '#' |
| Hypixel.RowSpecsSplit | hypixel.py:154-223 | every built-in spec splits on '#' into exactly its formula and its caption |
| Hypixel.ClassOf | hypixel.py:150-223 | each class carries its own game and `rows()` |
| Hypixel.CleanTable | hypixel.py:174-175 | SkyWars keeps the scraped table; the BedWars classes drop its first row |
| Hypixel.Zip | hypixel.py:127 | `zip` pairs keys and cells up to the shorter of the two |
| Hypixel.ModeEntry | hypixel.py:127-128 | a row yields an entry exactly when it and the header both have a cell; the entry's sub-mode is the row's first cell |
| Hypixel.AddStats | hypixel.py:177-187 | SkyWars leaves the stats alone; BedWars sets Overall's Level and keeps Overall's other fields and every other sub-mode as they were; without an Overall row it raises KeyError |
| Hypixel.GetStats | hypixel.py:122-138 | get_stats is clean_table, then the header and the rows' stat map, then add_stats; an empty table raises IndexError |
| Hypixel.StatsOfRows | hypixel.py:124-136 | the row loop builds the stat map of the rows after the header, or raises IndexError on an empty row |
| Hypixel.FieldsOfRow | hypixel.py:129-134 | the inner loop stores the fields of the row's pairs after the first |
| Hypixel.FieldsBound | hypixel.py:130-134 | a sub-mode never has more fields than the pairs it came from |
| Hypixel.FieldsHasKeys | hypixel.py:130-134 | every key of the pairs becomes a field |
| Hypixel.FieldsKeysAll | hypixel.py:130-134 | the fields are only the keys and "Final " + key |
| Hypixel.FirstOccurrenceKept | hypixel.py:131-132 | the first occurrence of a key is stored under the key itself |
| Hypixel.LastDuplicateFinal | hypixel.py:133-134 | the last repeat of a key is stored under "Final " + key |
| Hypixel.ToMapLast | hypixel.py:136 | a later row with the same sub-mode replaces an earlier one |
| Hypixel.ToMapKeys | hypixel.py:136 | the sub-modes of the map are exactly the rows' sub-modes |
| Hypixel.BuildStatsSucceeds | hypixel.py:126-128 | the stat map is built exactly when the header and every row have a first cell |
| Hypixel.BuildStatsModes | hypixel.py:125-136 | the map's keys are exactly the rows' first cells |
| Hypixel.BuildStatsLastRow | hypixel.py:126-136 | a row is filed under its first cell, with its fields, unless a later row has the same first cell |
| Hypixel.BuildStatsFieldBound | hypixel.py:127-134 | no sub-mode has as many fields as the header has cells |
| Hypixel.StopFinds | hypixel.py:51 | the scan for the next '^' or '$' finds the first one, and none comes before it |
| Hypixel.TokenAtShape | hypixel.py:51 | a matched token runs from '^' to the first '$' after it, holds no other mark, and has a '.' with text on both sides |
| Hypixel.PlugPlain | hypixel.py:51 | a formula without '^' is not changed by the substitution |
| Hypixel.PlugToken | hypixel.py:51 | a `^path$` token is replaced by get_stat of its path, and the rest is substituted in turn; a failed lookup raises |
| Hypixel.PlugChar | hypixel.py:51 | a character that does not start a token is copied |
| Hypixel.OutcomeCells | hypixel.py:53-61 | ZeroDivisionError shows '-'; SyntaxError shows the text without '!'s and trailing blanks when it had a '!', else '-'; numbers go through format_number |
| Hypixel.PlayerList | hypixel.py:27-33 | one player becomes a list of one, a list is kept, anything else raises ValueError |
| Hypixel.StatTableMethod | hypixel.py:26-67 | stat_table returns a fresh right-justified table holding the specified rows, or the first error raised |
| Hypixel.PlayersTable | hypixel.py:35-67 | for a list of players, the table is the header and one row per spec of the first player's class |
| Hypixel.AppendSpecRows | hypixel.py:42-65 | the spec loop appends one row per spec in order and stops at the first error |
| Hypixel.AllStats | hypixel.py:35 | every player's stats, in order, or the first player's error |
| Hypixel.SpecRowMethod | hypixel.py:43-63 | one spec's row is its caption, then one cell per player |
| Hypixel.SpecRowCells | hypixel.py:45-63 | a row's first cell is the text between the first and the second '#' of its spec (`split('#')[1]`), and cell i + 1 is player i's cell |
| Hypixel.StatTableShape | hypixel.py:37-65 | the table has a header plus one row per spec, every row has one cell more than there are players, and row 0 is the header |
| Hypixel.StatTableCells | hypixel.py:42-63 | row k + 1 holds spec k's caption, and for player i the cell evaluated on player i's own stats |
| Hypixel.BuiltInCaptions | hypixel.py:45-51 | for the built-in classes, row k + 1's caption and formula are those written in the class |
| Hypixel.StatTableNoPlayers | hypixel.py:27-40 | an empty list raises IndexError at `players[0]`; a non-player raises ValueError |
| Hypixel.KindChoice | hypixel.py:291-304 | an explicit class wins; otherwise only the four gamemode names pick a one-mode class and anything else picks BedWars |
| Hypixel.Resolve | hypixel.py:289-309 | every id gives either a player or an error message |
| Hypixel.ResolveSplits | hypixel.py:289-309 | the players are the known ids', in order, of the chosen class, with the account's username and uuid and the page fetched for that uuid; the messages are the unknown ids', in order |
| Hypixel.Known | hypixel.py:291-304 | every id kept is one the lookup knows |
| Hypixel.Unknown | hypixel.py:306-309 | every id kept is one the lookup rejects |
| Hypixel.ResolveAll | hypixel.py:289-309 | the loop over usernames builds exactly the resolved players and messages |
| Hypixel.WithErrorsLines | hypixel.py:322-327 | the reply's lines are the table's lines, then an empty line and one line per error when there were errors |
| Hypixel.TableTextMethod | hypixel.py:319-322 | stat_table, then sort_table on row 1, then `str` |
| Hypixel.GetBedwarsTable | hypixel.py:286-327 | the reply is the sorted table of the resolved players followed by the errors |
| JsonData.FindFirst | splatoon.py:24 | `d[key]` succeeds exactly when the key is present, with the value of its first member; otherwise KeyError(key) |
| JsonData.FindAt | splatoon.py:24 | the member found is the first with that key |
| Splatoon.OtherKeysFirst | splatoon.py:53 | the kind key is the first key that is not a weapon field; there is none exactly when every key is a weapon field |
| Splatoon.OtherKeysExcluded | splatoon.py:53 | no kept key is one of 'image', 'id', 'name', 'thumbnail' |
| Splatoon.SalmonWeaponKey | splatoon.py:53-54 | a weapon is read from the value of the first non-field member; a dict with only field keys raises IndexError |
| Splatoon.SalmonWeapons | splatoon.py:50-56 | get_salmon_weapons converts every entry in order and stops at the first that raises |
| Splatoon.SalmonWeaponsOrder | splatoon.py:50-56 | the result is as long as the input and weapon i comes from entry i |
| Splatoon.MatchOf | splatoon.py:59-66 | the result is `my_team_result.key`, and the symbol is 'W' exactly for "victory", 'L' otherwise |
| Splatoon.RanksModes | splatoon.py:253-261 | get_ranks succeeds exactly when all four lookups do, and maps exactly the four display names to their modes' rank names |
| Splatoon.DurationRemaining | splatoon.py:87-94 | 'until start' before the start, 'remaining' until the end, 'ago' after both; the amount reaches the start, the end, or goes back to the end |
| Splatoon.CombineGamemodes | splatoon.py:155-160 | the loop concatenates the gamemodes' lists in dict order |
| Splatoon.FlattenLength | splatoon.py:155-160 | the combined list is as long as all lists together |
| Splatoon.FlattenAt | splatoon.py:155-160 | entry j of list i sits after all entries of the lists before it |
| Splatoon.ByStartIsPreorder | splatoon.py:166 | ordering by start time is a total preorder |
| Splatoon.SearchScheduleExact | splatoon.py:163-167 | the result holds every entry whose focus value is among args, as often as in the schedule and nothing else, by ascending start |
| Splatoon.SearchScheduleStable | splatoon.py:166 | entries that start together keep their schedule order |
| Splatoon.BlockPartsOrder | splatoon.py:200-208 | a block has one part per included item: ruleset, then "on " + stages joined by " and ", then "at " + start |
| Splatoon.NotificationGroupsAt | splatoon.py:189-212 | one group per gamemode that has blocks, in gamemode order, each of that gamemode's blocks in order |
| Splatoon.ModeGroupName | splatoon.py:196-212 | with the gamemode included, a group starts with its name and ": " |
| Splatoon.BlockTextMethod | splatoon.py:200-210 | one block's parts are appended one by one and joined by spaces |
| Splatoon.ModeGroupMethod | splatoon.py:195-212 | one gamemode's name, then its blocks' texts, joined by ": " |
| Splatoon.StagesNotification | splatoon.py:182-214 | the groups joined by ". " as a sentence, or the list of groups |
| Chess.GetElos | chess.py:20-27 | the loop gives the ratings of the document, or AttributeError for a non-dict |
| Chess.RatingsKeys | chess.py:23-25 | a title is in the result exactly when "chess_" + title is a rating key among the keys; its value is that key's value |
| Chess.ElosKeys | chess.py:20-27 | get_elos keeps exactly the document's `chess_\w` keys, without their prefix, each with its value |
| Chess.NoSlashInNumber | chess.py:31 | `str` of an integer holds no '/' |
| Chess.RecordStringSplit | chess.py:30-31 | a numeric record splits on '/' back into the win, loss and draw counts, in that order |
| Chess.Meridiem | chess.py:54-55 | "AM" exactly when the time starts with "11", "PM" otherwise |
| Chess.ScheduleCsvMethod | chess.py:40-59 | the loop and join give the CSV text of the listed rows, or the first row's error |
| Chess.ConvertStep | chess.py:44-57 | converting one more listed row appends its fields or ends with its error |
| Chess.RowFieldsSpec | chess.py:50-57 | a row converts exactly when it has eight cells and its day has a second word; then the five fields follow the format, each time followed by a space and its meridiem, which is AM exactly when the time starts with "11" |
| Chess.ScheduleCsvLines | chess.py:40-59 | without ',' or newlines in the cells, the text is the header line, then one line per row with no "-" cell, each splitting into that row's fields |
| Chess.FieldsClean | chess.py:51-57 | the fields hold no ',' or newline that the cells did not hold |
| Sorting.StableSortSorted | tools.py:53 | `list.sort`/`sorted` leave the sequence ordered by the key |
| Sorting.StableSortStable | tools.py:53 | elements with equal keys keep their input order |
| Sorting.FirstStaysFirst | tools.py:46-50 | an element that sorts no later than any other, and comes first, stays first |
| Wrappers.MapResultSucceeds | splatoon.py:52-54 | a comprehension succeeds exactly when the body succeeds on every element |
| Wrappers.MapResultStops | splatoon.py:52-54 | the first element that raises ends the whole comprehension with its error |
| Seqs.FilterCount | splatoon.py:166 | `filter` keeps every copy of an accepted element and none of a rejected one |
| Strings.SplitJoin | chess.py:59 | splitting joined parts on the separator gives the parts back when none holds it |

## Left out

- HTTP, files and HTML parsing are left out: `requests`, `grequests`, the Splatoon, Chess.com and Mojang APIs, `credentials.json`, the gamemodes JSON file, the pogchamps HTML page and BeautifulSoup. What they deliver is an input of the model: a page's non-empty table rows and level text, the decoded JSON, the gamemode list, and the CSV rows' cell texts.
- The Mojang name lookup and the page fetch are function parameters (`lookup`, `fetch`). So are Python's `eval` of a plugged formula (an `EvalOutcome`) and `float` as the sort key's parser (`parse`).
- The clock is a parameter: `datetime.now()` is `now`, and datetimes are whole microseconds (`get_today_tomorrow`, `duration_remaining`); `duration_remaining` returns the difference in microseconds instead of a `timedelta`.
- `strftime` is left out: `start_string` is a parameter `startString`, and the date fallback of get_today_tomorrow is the value `OnDate`.
- Floats are left out. A float result of `eval` carries the text `'{:,.2f}'` would print. The zero-seconds `timedelta` arithmetic is done on integers.
- Tools.DescendingIsPreorder: a sort key is a number or +inf; `float('nan')` is not modelled. In the source a NaN key compares false with everything, so `sort(reverse=True)` then depends on the input order, and neither this lemma nor `Tools.SortTableOrder` covers that case.
- Tools.FormatNumber: the float branch is not modelled, because a `Float` value carries its printed text. The model formats every int with `'{:,}'`; in the source an int that a double cannot hold exactly (such as 2**53 + 1) compares unequal to `float(num)` and is printed by the `'{:,.2f}'` branch with two decimals of its rounded double, and an int beyond the largest double (about 1.8e308) raises OverflowError in `float(num)`; neither is modelled, because the model has no binary floating point.
- Tools.UpperFinds: `str.upper` and the regular expression class `\w` cover ASCII only; Unicode case mapping and Unicode word characters are left out. Whitespace is not restricted: `Strings.IsSpace`, on which `str.split()` (`Words`) and `str.rstrip()` (`RStrip`) are built, is Python's `str.isspace` set, Unicode spaces and line separators included.
- Chess.RatingsKeys: `\w` is taken as ASCII letters, digits and '_'. Keys whose seventh character is another Unicode word character are not counted as rating keys.
- JSON numbers are integers. A decoded object is its members in document order, and lookup takes the first member with the key. `json.loads` keeps the last of duplicate member names, which the model does not reproduce; for distinct names the two agree.
- `repr` of a decoded string uses single quotes without escaping. Python's choice of double quotes and its escapes are left out.
- HypixelPlayer: page caching (`get_page`/`update_page`) is left out. The `add_stats` level scrape is an input, and its `0` default for a page without a level line is not modelled.
- `Game`, `get_recent_games` and `HystatsBedwarsPlayer` are not part of this model, and nor is `parse_monthly_data`.
- `ScheduleItem`, `SalmonScheduleItem` and their `__str__`/`time_range` are not modelled. A schedule item is given with its ruleset, gamemode, stage names and times.
- `get_matches`, `get_weapons`, `get_current_stages`, `get_schedule_objects` and `call_splatoon_api` are not modelled: they are list comprehensions over `Match` or HTTP.
- search_schedule with `schedule_=None` fetches the schedule over HTTP and is left out. The model takes `schedule_` as given.
- The pogchamps CSV is not written to a file, and `build_embed` (Discord embeds) is not modelled.
- Concurrency and the Discord bot loop are left out.
- Hypixel.ResolveSplits: a player's uuid is the one the `lookup` parameter returns. For an id longer than 16 characters the source keeps the id itself as the uuid (mojang.py:27-28) and only asks the API for the username; the model does not tie that uuid to the id.

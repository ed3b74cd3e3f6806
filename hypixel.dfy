/** hypixel.py: a player's scraped stat rows as a stat map, the formula rows of a stat
    table, and the BedWars table command that resolves, tabulates, sorts and renders. */
module Hypixel {
  import opened Wrappers
  import opened Strings
  import opened Tools
  import Matrix

  /** SkywarsPlayer, BedwarsPlayer and BedwarsPlayer's four one-mode subclasses. */
  datatype Archetype = SkyWars | BedWars | SoloBedWars | DoublesBedWars | ThreesBedWars | FoursBedWars

  /** The exceptions stat_table and get_bedwars_table let through: `players` of the wrong type, an index past
      the end of a list, a failed stat lookup, an unformattable value, and any other
      exception raised inside `eval`. */
  datatype Error = ValueError | IndexError | Lookup(lookup: LookupError) | Format(format: FormatError) | Raised

  // ---------------------------------------------------------------------------
  // rows(): the formula rows of each player class

  /** A `^Sub.Field$` token. */
  function Token(sub: string, field: string): string
  {
    "^" + sub + "." + field + "$"
  }

  /** A row spec: the formula, '#', then the caption. */
  function Spec(formula: string, caption: string): string
  {
    formula + "#" + caption
  }

  /** The seven rows of the one-mode BedWars classes, for sub-mode m. */
  function ModeRows(m: string): seq<(string, string)>
  {
    [(Token(m, "Wins") + " ", m + " Wins"),
     (Token(m, "Wins") + " / (" + Token(m, "Wins") + " + " + Token(m, "Losses") + ") ", "Win Rate"),
     (Token(m, "Kills") + " ", "Kills"),
     (Token(m, "K/D") + " ", "K/D"),
     (Token(m, "Final Kills") + " ", "Final Kills"),
     (Token(m, "Final K/D") + " ", "Final K/D"),
     (Token(m, "Kills") + " + " + Token(m, "Final Kills") + " ", "Total Kills")]
  }

  /** The BedWars class's own first seven rows: its level and the wins of each sub-mode;
      the rest are the overall rows of the one-mode classes after their first. */
  function BedWarsHead(): seq<(string, string)>
  {
    [(Token("Overall", "Level") + " ", "Bedwars Level"),
     (Token("Solo", "Wins") + " ", "Solo Wins"),
     (Token("Doubles", "Wins") + " ", "Doubles Wins"),
     (Token("3v3v3v3", "Wins") + " ", "3v3v3v3 Wins"),
     (Token("4v4v4v4", "Wins") + " ", "4v4v4v4 Wins"),
     (Token("4v4", "Wins") + " ", "4v4 Wins"),
     (Token("Overall", "Wins") + " ", "Total Wins")]
  }

  /** Each class's rows as (formula, caption) pairs. */
  function RowPairs(a: Archetype): seq<(string, string)>
  {
    match a
    case SkyWars =>
      [(Token("Solo Normal", "Wins") + " + " + Token("Solo Insane", "Wins") + " ", "Solo Wins"),
       (Token("Team Normal", "Wins") + " + " + Token("Team Insane", "Wins") + " ", "Team Wins")]
    case BedWars => BedWarsHead() + ModeRows("Overall")[1..]
    case SoloBedWars => ModeRows("Solo")
    case DoublesBedWars => ModeRows("Doubles")
    case ThreesBedWars => ModeRows("3v3v3v3")
    case FoursBedWars => ModeRows("4v4v4v4")
  }

  /** How many rows each class has: one per (formula, caption) pair of its `rows()`. */
  function RowCount(a: Archetype): (n: nat)
    ensures n == |RowPairs(a)|
  {
    match a
    case SkyWars => 2
    case BedWars => 13
    case _ => 7
  }

  /** The i-th (formula, caption) pair of a class. */
  function PairAt(a: Archetype, i: nat): (string, string)
    requires i < RowCount(a)
  {
    RowPairs(a)[i]
  }

  /** The i-th spec string of a class. */
  function SpecAt(a: Archetype, i: nat): string
    requires i < RowCount(a)
  {
    Spec(PairAt(a, i).0, PairAt(a, i).1)
  }

  /** `rows()`: the spec strings. */
  function RowSpecs(a: Archetype): seq<string>
  {
    seq(RowCount(a), i requires 0 <= i < RowCount(a) => SpecAt(a, i))
  }

  /** A spec whose formula and caption hold no '#' splits back into the two. */
  lemma SpecSplits(formula: string, caption: string)
    requires '#' !in formula && '#' !in caption
    ensures Split(Spec(formula, caption), '#') == [formula, caption]
  {
    assert [formula, caption][1..] == [caption];
    assert Join([formula, caption], "#") == Spec(formula, caption);
    SplitJoin([formula, caption], '#');
  }

  predicate HashFree(pairs: seq<(string, string)>)
  {
    forall i :: 0 <= i < |pairs| ==> '#' !in pairs[i].0 && '#' !in pairs[i].1
  }

  lemma TokenHashFree(sub: string, field: string)
    requires '#' !in sub && '#' !in field
    ensures '#' !in Token(sub, field)
  {
  }

  lemma ModeRowsHashFree(m: string)
    requires '#' !in m
    ensures HashFree(ModeRows(m))
  {
    TokenHashFree(m, "Wins");
    TokenHashFree(m, "Losses");
    TokenHashFree(m, "Kills");
    TokenHashFree(m, "K/D");
    TokenHashFree(m, "Final Kills");
    TokenHashFree(m, "Final K/D");
  }

  lemma SkyWarsHashFree()
    ensures HashFree(RowPairs(SkyWars))
  {
    TokenHashFree("Solo Normal", "Wins");
    TokenHashFree("Solo Insane", "Wins");
    TokenHashFree("Team Normal", "Wins");
    TokenHashFree("Team Insane", "Wins");
  }

  lemma BedWarsHeadHashFree()
    ensures HashFree(BedWarsHead())
  {
    TokenHashFree("Overall", "Level");
    TokenHashFree("Solo", "Wins");
    TokenHashFree("Doubles", "Wins");
    TokenHashFree("3v3v3v3", "Wins");
    TokenHashFree("4v4v4v4", "Wins");
    TokenHashFree("4v4", "Wins");
    TokenHashFree("Overall", "Wins");
  }

  lemma BedWarsHashFree()
    ensures HashFree(RowPairs(BedWars))
  {
    BedWarsHeadHashFree();
    ModeRowsHashFree("Overall");
  }

  /** No built-in row has a '#' in its formula or its caption. */
  lemma RowPairsHashFree(a: Archetype)
    ensures HashFree(RowPairs(a))
  {
    match a {
      case SkyWars => SkyWarsHashFree();
      case BedWars => BedWarsHashFree();
      case SoloBedWars => ModeRowsHashFree("Solo");
      case DoublesBedWars => ModeRowsHashFree("Doubles");
      case ThreesBedWars => ModeRowsHashFree("3v3v3v3");
      case FoursBedWars => ModeRowsHashFree("4v4v4v4");
    }
  }

  /** Every built-in spec has a caption: its formula is the text before the '#' and its caption
      the text after it, so stat_table's `split('#')[1]` never fails on them. */
  lemma RowSpecsSplit(a: Archetype)
    ensures |RowSpecs(a)| == RowCount(a)
    ensures forall i :: 0 <= i < RowCount(a) ==>
      Split(RowSpecs(a)[i], '#') == [PairAt(a, i).0, PairAt(a, i).1]
  {
    RowPairsHashFree(a);
    var pairs := RowPairs(a);
    forall i | 0 <= i < RowCount(a)
      ensures Split(RowSpecs(a)[i], '#') == [PairAt(a, i).0, PairAt(a, i).1]
    {
      SpecSplits(pairs[i].0, pairs[i].1);
    }
  }

  // ---------------------------------------------------------------------------
  // get_stats, after the HTML extraction

  /** What the scraping leaves for one player: the non-empty table rows of the game's stat
      panel, and the text of the BedWars "Level:" item. */
  datatype Page = Page(cells: seq<seq<string>>, level: string)

  /** A player class: the game whose page it scrapes and the spec strings its `rows()`
      method returns. */
  datatype PlayerClass = PlayerClass(kind: Archetype, rows: seq<string>)

  /** The classes of this module. */
  function ClassOf(a: Archetype): (c: PlayerClass)
    ensures c.kind == a && c.rows == RowSpecs(a)
  {
    PlayerClass(a, RowSpecs(a))
  }

  /** A resolved player of some class, with the page fetched for it. */
  datatype Player = Player(username: string, uuid: string, cls: PlayerClass, page: Page)

  /** `clean_table`: the BedWars classes drop the first row, SkyWars keeps the table. */
  function CleanTable(a: Archetype, table: seq<seq<string>>): (r: seq<seq<string>>)
    ensures a == SkyWars ==> r == table
    ensures a != SkyWars && |table| > 0 ==> [table[0]] + r == table
    ensures a != SkyWars && |table| == 0 ==> r == []
  {
    if a == SkyWars || |table| == 0 then table else table[1..]
  }

  /** `list(zip(keys, row))`. */
  function Zip(keys: seq<string>, row: seq<string>): (z: seq<(string, string)>)
    ensures |z| == if |keys| < |row| then |keys| else |row|
    ensures forall i :: 0 <= i < |z| ==> z[i] == (keys[i], row[i])
  {
    var n := if |keys| < |row| then |keys| else |row|;
    seq(n, i requires 0 <= i < n => (keys[i], row[i]))
  }

  /** The fields of one sub-mode: a key not seen yet is stored under itself, a key already
      present under "Final " + key. */
  function Fields(pairs: seq<(string, string)>): map<string, string>
  {
    if |pairs| == 0 then map[]
    else
      var current := Fields(pairs[..|pairs| - 1]);
      var (key, stat) := pairs[|pairs| - 1];
      if key !in current then current[key := stat] else current["Final " + key := stat]
  }

  /** One row's sub-mode and fields; an empty zip has no `zipped[0]`. */
  function ModeEntry(keys: seq<string>, row: seq<string>): (r: Result<(string, map<string, string>), Error>)
    ensures r.Success? <==> |keys| > 0 && |row| > 0
    ensures r.Success? ==> r.value.0 == row[0]
  {
    var zipped := Zip(keys, row);
    if |zipped| == 0 then Failure(Error.IndexError) else Success((zipped[0].1, Fields(zipped[1..])))
  }

  function EntryOf(keys: seq<string>): seq<string> -> Result<(string, map<string, string>), Error>
  {
    row => ModeEntry(keys, row)
  }

  /** The stat map of the entries, a later entry for the same sub-mode replacing an earlier one. */
  function ToMap(entries: seq<(string, map<string, string>)>): StatMap
  {
    if |entries| == 0 then map[]
    else ToMap(entries[..|entries| - 1])[entries[|entries| - 1].0 := entries[|entries| - 1].1]
  }

  /** The rows after the header, as a stat map. */
  function BuildStats(keys: seq<string>, rows: seq<seq<string>>): Result<StatMap, Error>
  {
    var entries :- MapResult(rows, EntryOf(keys));
    Success(ToMap(entries))
  }

  /** `add_stats` with the scraped level given: BedWars classes store it as Overall's
      "Level" field, which fails when there is no Overall row. */
  function AddStats(a: Archetype, stats: StatMap, level: string): (r: Result<StatMap, Error>)
    ensures a == SkyWars ==> r == Success(stats)
    ensures a != SkyWars ==> (r.Success? <==> "Overall" in stats)
    ensures a != SkyWars && r.Success? ==>
      r.value.Keys == stats.Keys && "Level" in r.value["Overall"] && r.value["Overall"]["Level"] == level
      && forall m :: m in stats && m != "Overall" ==> r.value[m] == stats[m]
    ensures a != SkyWars && r.Success? ==> r.value["Overall"] == stats["Overall"]["Level" := level]
  {
    if a == SkyWars then Success(stats)
    else if "Overall" !in stats then Failure(Lookup(KeyError("Overall")))
    else Success(stats["Overall" := stats["Overall"]["Level" := level]])
  }

  /** What `get_stats` returns for a player whose page has been scraped into rows. */
  function Stats(p: Player): Result<StatMap, Error>
  {
    var table := CleanTable(p.cls.kind, p.page.cells);
    if |table| == 0 then Failure(Error.IndexError)
    else
      var stats :- BuildStats(table[0], table[1..]);
      AddStats(p.cls.kind, stats, p.page.level)
  }

  /** HypixelPlayer.get_stats from the extracted rows on. */
  method GetStats(p: Player) returns (r: Result<StatMap, Error>)
    ensures r == Stats(p)
  {
    var table := CleanTable(p.cls.kind, p.page.cells);
    if |table| == 0 {
      return Failure(Error.IndexError);
    }
    var stats := StatsOfRows(table[0], table[1..]);
    if stats.Failure? {
      return Failure(stats.error);
    }
    r := AddStats(p.cls.kind, stats.value, p.page.level);
  }

  /** The loop of get_stats over the rows after the header. */
  method StatsOfRows(keys: seq<string>, rows: seq<seq<string>>) returns (r: Result<StatMap, Error>)
    ensures r == BuildStats(keys, rows)
  {
    var stats: StatMap := map[];
    ghost var entries: seq<(string, map<string, string>)> := [];
    var i := 0;
    while i < |rows|
      invariant 0 <= i <= |rows|
      invariant MapResult(rows[..i], EntryOf(keys)) == Success(entries)
      invariant stats == ToMap(entries)
    {
      MapResultStep(rows, EntryOf(keys), i);
      var zipped := Zip(keys, rows[i]);
      if |zipped| == 0 {
        assert EntryOf(keys)(rows[i]) == Failure(Error.IndexError);
        MapResultStops(rows, EntryOf(keys), i + 1);
        return Failure(Error.IndexError);
      }
      var gamemode := zipped[0].1;
      var current := FieldsOfRow(zipped);
      assert EntryOf(keys)(rows[i]) == Success((gamemode, current));
      entries := entries + [(gamemode, current)];
      assert entries[..|entries| - 1] == entries[..i];
      assert ToMap(entries) == stats[gamemode := current];
      stats := stats[gamemode := current];
      i := i + 1;
    }
    assert rows[..i] == rows;
    r := Success(stats);
  }

  /** The inner loop of get_stats: the fields of one row's pairs after the first. */
  method FieldsOfRow(zipped: seq<(string, string)>) returns (current: map<string, string>)
    requires |zipped| > 0
    ensures current == Fields(zipped[1..])
  {
    current := map[];
    var j := 1;
    while j < |zipped|
      invariant 1 <= j <= |zipped|
      invariant current == Fields(zipped[1..j])
    {
      var (key, stat) := zipped[j];
      assert zipped[1..j + 1][..j - 1] == zipped[1..j];
      if key !in current {
        current := current[key := stat];
      } else {
        current := current["Final " + key := stat];
      }
      j := j + 1;
    }
    assert zipped[1..j] == zipped[1..];
  }

  /** Zip truncation: a sub-mode never has more fields than the pairs it was built from. */
  lemma {:induction false} FieldsBound(pairs: seq<(string, string)>)
    ensures |Fields(pairs)| <= |pairs|
  {
    if |pairs| > 0 {
      var init := pairs[..|pairs| - 1];
      FieldsBound(init);
      var current := Fields(init);
      var key := pairs[|pairs| - 1].0;
      var k := if key !in current then key else "Final " + key;
      assert current[k := pairs[|pairs| - 1].1].Keys == current.Keys + {k};
    }
  }

  /** Every key of the pairs is a field. */
  lemma {:induction false} FieldsHasKeys(pairs: seq<(string, string)>)
    ensures forall i :: 0 <= i < |pairs| ==> pairs[i].0 in Fields(pairs)
  {
    if |pairs| > 0 {
      var init := pairs[..|pairs| - 1];
      FieldsHasKeys(init);
      forall i | 0 <= i < |pairs| - 1 ensures pairs[i].0 in Fields(pairs) {
        assert pairs[i] == init[i];
      }
    }
  }

  /** No key of the pairs starts with "Final " followed by another of their keys. */
  predicate NoFinalKeys(pairs: seq<(string, string)>)
  {
    forall i, j :: 0 <= i < |pairs| && 0 <= j < |pairs| ==> pairs[i].0 != "Final " + pairs[j].0
  }

  /** The fields hold only the keys and "Final " + key. */
  lemma {:induction false} FieldsKeys(pairs: seq<(string, string)>, x: string)
    requires x in Fields(pairs)
    ensures exists i :: 0 <= i < |pairs| && (x == pairs[i].0 || x == "Final " + pairs[i].0)
  {
    var init := pairs[..|pairs| - 1];
    var key := pairs[|pairs| - 1].0;
    if x != key && x != "Final " + key {
      FieldsKeys(init, x);
      var i :| 0 <= i < |init| && (x == init[i].0 || x == "Final " + init[i].0);
      assert init[i] == pairs[i];
    }
  }

  lemma FieldsKeysAll(pairs: seq<(string, string)>)
    ensures forall x :: x in Fields(pairs) ==>
      exists i :: 0 <= i < |pairs| && (x == pairs[i].0 || x == "Final " + pairs[i].0)
  {
    forall x | x in Fields(pairs)
      ensures exists i :: 0 <= i < |pairs| && (x == pairs[i].0 || x == "Final " + pairs[i].0)
    {
      FieldsKeys(pairs, x);
    }
  }

  /** The first occurrence of a key is stored under the key itself (when no key is
      "Final " + another key, which would collide with the renamed duplicates). */
  lemma {:induction false} FirstOccurrenceKept(pairs: seq<(string, string)>, i: nat)
    requires i < |pairs| && NoFinalKeys(pairs)
    requires forall j :: 0 <= j < i ==> pairs[j].0 != pairs[i].0
    ensures pairs[i].0 in Fields(pairs) && Fields(pairs)[pairs[i].0] == pairs[i].1
  {
    var n := |pairs|;
    var init := pairs[..n - 1];
    var k := pairs[i].0;
    assert NoFinalKeys(init) by {
      assert forall j :: 0 <= j < |init| ==> init[j] == pairs[j];
    }
    if i == n - 1 {
      FieldsKeysAll(init);
      assert k !in Fields(init);
    } else {
      FirstOccurrenceKept(init, i);
      assert init[i] == pairs[i];
      var last := pairs[n - 1].0;
      assert "Final " + last != k;
    }
  }

  /** A key that occurs more than once has its last occurrence under "Final " + key. */
  lemma {:induction false} LastDuplicateFinal(pairs: seq<(string, string)>, i: nat, j: nat)
    requires j < i < |pairs| && NoFinalKeys(pairs)
    requires pairs[j].0 == pairs[i].0
    requires forall l :: i < l < |pairs| ==> pairs[l].0 != pairs[i].0
    ensures "Final " + pairs[i].0 in Fields(pairs) && Fields(pairs)["Final " + pairs[i].0] == pairs[i].1
  {
    var n := |pairs|;
    var init := pairs[..n - 1];
    var k := pairs[i].0;
    if i == n - 1 {
      FieldsHasKeys(init);
      assert init[j] == pairs[j];
    } else {
      assert NoFinalKeys(init) by {
        assert forall l :: 0 <= l < |init| ==> init[l] == pairs[l];
      }
      LastDuplicateFinal(init, i, j);
      assert init[i] == pairs[i] && init[j] == pairs[j];
      var last := pairs[n - 1].0;
      assert last != "Final " + k;
      assert "Final " + last != "Final " + k by {
        assert ("Final " + last)[6..] == last;
        assert ("Final " + k)[6..] == k;
      }
    }
  }

  /** The sub-modes of the stat map are the entries' sub-modes, and the last entry for a
      sub-mode is the one kept. */
  lemma {:induction false} ToMapLast(entries: seq<(string, map<string, string>)>, i: nat)
    requires i < |entries|
    requires forall j :: i < j < |entries| ==> entries[j].0 != entries[i].0
    ensures entries[i].0 in ToMap(entries) && ToMap(entries)[entries[i].0] == entries[i].1
  {
    if i < |entries| - 1 {
      var init := entries[..|entries| - 1];
      ToMapLast(init, i);
      assert init[i] == entries[i];
    }
  }

  lemma {:induction false} ToMapKeys(entries: seq<(string, map<string, string>)>)
    ensures ToMap(entries).Keys == set i | 0 <= i < |entries| :: entries[i].0
  {
    if |entries| > 0 {
      var init := entries[..|entries| - 1];
      ToMapKeys(init);
      assert forall i :: 0 <= i < |init| ==> init[i] == entries[i];
      assert (set i | 0 <= i < |entries| :: entries[i].0)
        == (set i | 0 <= i < |init| :: init[i].0) + {entries[|entries| - 1].0};
    }
  }

  lemma {:induction false} ToMapBound(entries: seq<(string, map<string, string>)>, n: nat)
    requires forall i :: 0 <= i < |entries| ==> |entries[i].1| < n
    ensures forall m :: m in ToMap(entries) ==> |ToMap(entries)[m]| < n
  {
    if |entries| > 0 {
      ToMapBound(entries[..|entries| - 1], n);
    }
  }

  /** The entry of row i is its first cell and the fields of the rest. */
  lemma EntriesAt(keys: seq<string>, rows: seq<seq<string>>, i: nat)
    requires MapResult(rows, EntryOf(keys)).Success? && i < |rows|
    ensures |rows[i]| > 0
    ensures MapResult(rows, EntryOf(keys)).value[i] == (rows[i][0], Fields(Zip(keys, rows[i])[1..]))
  {
    MapResultAt(rows, EntryOf(keys), i);
  }

  /** get_stats succeeds on the rows after the header exactly when the header has a cell
      (or there is no row) and no row is empty. */
  lemma BuildStatsSucceeds(keys: seq<string>, rows: seq<seq<string>>)
    ensures BuildStats(keys, rows).Success? <==>
      (|rows| == 0 || |keys| > 0) && forall i :: 0 <= i < |rows| ==> |rows[i]| > 0
  {
    MapResultSucceeds(rows, EntryOf(keys));
    if |rows| > 0 && |keys| == 0 {
      assert !EntryOf(keys)(rows[0]).Success?;
    }
  }

  /** The sub-modes are the rows' first cells. */
  lemma BuildStatsModes(keys: seq<string>, rows: seq<seq<string>>)
    requires BuildStats(keys, rows).Success?
    ensures forall i :: 0 <= i < |rows| ==> |rows[i]| > 0
    ensures BuildStats(keys, rows).value.Keys == set i | 0 <= i < |rows| :: rows[i][0]
  {
    var entries := MapResult(rows, EntryOf(keys)).value;
    forall i | 0 <= i < |rows| ensures |rows[i]| > 0 && entries[i].0 == rows[i][0] {
      EntriesAt(keys, rows, i);
    }
    ToMapKeys(entries);
    assert (set i | 0 <= i < |entries| :: entries[i].0) == (set i | 0 <= i < |rows| :: rows[i][0]);
  }

  /** A row is filed under its first cell unless a later row has the same first cell. */
  lemma BuildStatsLastRow(keys: seq<string>, rows: seq<seq<string>>, i: nat)
    requires BuildStats(keys, rows).Success? && i < |rows| && |rows[i]| > 0
    requires forall j :: i < j < |rows| ==> |rows[j]| > 0 && rows[j][0] != rows[i][0]
    ensures rows[i][0] in BuildStats(keys, rows).value
    ensures BuildStats(keys, rows).value[rows[i][0]] == Fields(Zip(keys, rows[i])[1..])
  {
    var entries := MapResult(rows, EntryOf(keys)).value;
    forall j | i <= j < |rows| ensures |rows[j]| > 0 && entries[j].0 == rows[j][0] {
      EntriesAt(keys, rows, j);
    }
    EntriesAt(keys, rows, i);
    ToMapLast(entries, i);
  }

  /** Zip truncation: no sub-mode has more fields than the header has cells after the first. */
  lemma BuildStatsFieldBound(keys: seq<string>, rows: seq<seq<string>>)
    requires BuildStats(keys, rows).Success?
    ensures forall m :: m in BuildStats(keys, rows).value ==> |BuildStats(keys, rows).value[m]| < |keys|
  {
    var entries := MapResult(rows, EntryOf(keys)).value;
    forall i | 0 <= i < |entries| ensures |entries[i].1| < |keys| {
      EntriesAt(keys, rows, i);
      FieldsBound(Zip(keys, rows[i])[1..]);
    }
    ToMapBound(entries, |keys|);
  }

  // ---------------------------------------------------------------------------
  // stat_table

  predicate IsMark(ch: char)
  {
    ch == '^' || ch == '$'
  }

  /** The first '^' or '$' at or after j. */
  function Stop(s: string, j: nat): Option<nat>
    decreases |s| - j
  {
    if j >= |s| then None else if IsMark(s[j]) then Some(j) else Stop(s, j + 1)
  }

  /** Stop finds a mark, and no mark comes before it; without a mark there is none from j on. */
  lemma {:induction false} StopFinds(s: string, j: nat)
    ensures var r := Stop(s, j);
      && (r.Some? ==> j <= r.value < |s| && IsMark(s[r.value]))
      && forall k :: j <= k < (if r.Some? then r.value else |s|) ==> !IsMark(s[k])
    decreases |s| - j
  {
    if j < |s| && !IsMark(s[j]) {
      StopFinds(s, j + 1);
    }
  }

  /** A '.' with at least one character on each side. */
  predicate InnerDot(content: string)
  {
    exists p :: 0 < p < |content| - 1 && content[p] == '.'
  }

  /** Where the `\^[^^$]+\.[^^$]+\$` token at the start of s ends (the index of its '$'). */
  function TokenAt(s: string): Option<nat>
  {
    if |s| == 0 || s[0] != '^' then None
    else match Stop(s, 1)
      case None => None
      case Some(j) => if 1 <= j < |s| && s[j] == '$' && InnerDot(s[1..j]) then Some(j) else None
  }

  /** The first mark at or after j is the one at k when none comes between. */
  lemma {:induction false} StopAt(s: string, j: nat, k: nat)
    requires j <= k < |s| && IsMark(s[k])
    requires forall m :: j <= m < k ==> !IsMark(s[m])
    ensures Stop(s, j) == Some(k)
    decreases k - j
  {
    if j < k {
      StopAt(s, j + 1, k);
    }
  }

  /** A token found at the start runs from a '^' to the first '$' after it, with no other mark
      between, and has a '.' inside. */
  lemma TokenAtShape(s: string)
    ensures var r := TokenAt(s);
      r.Some? ==>
      && 0 < r.value < |s| && s[0] == '^' && s[r.value] == '$'
      && InnerDot(s[1..r.value])
      && forall k :: 0 <= k < r.value - 1 ==> !IsMark(s[1..r.value][k])
  {
    if |s| > 0 && s[0] == '^' {
      StopFinds(s, 1);
    }
  }

  /** `re.sub` of every token by get_stat on the path between '^' and '$', left to right:
      the first lookup that fails is the error. */
  function Plug(s: string, dataset: StatMap): Result<string, LookupError>
    decreases |s|
  {
    if |s| == 0 then Success("")
    else match TokenAt(s)
      case Some(j) =>
        TokenAtShape(s);
        var v :- Stat(dataset, s[1..j]);
        var rest :- Plug(s[j + 1..], dataset);
        Success(v + rest)
      case None =>
        var rest :- Plug(s[1..], dataset);
        Success([s[0]] + rest)
  }

  /** Text without '^' passes unchanged. */
  lemma {:induction false} PlugPlain(s: string, dataset: StatMap)
    requires '^' !in s
    ensures Plug(s, dataset) == Success(s)
    decreases |s|
  {
    if |s| > 0 {
      PlugPlain(s[1..], dataset);
      assert [s[0]] + s[1..] == s;
    }
  }

  /** A `^path$` token is replaced by get_stat on the path, the text after it is plugged
      in turn. */
  lemma PlugToken(path: string, rest: string, dataset: StatMap)
    requires forall k :: 0 <= k < |path| ==> !IsMark(path[k])
    requires InnerDot(path)
    ensures Plug("^" + path + "$" + rest, dataset) ==
      match Stat(dataset, path)
      case Failure(e) => Failure(e)
      case Success(v) => match Plug(rest, dataset) case Failure(e) => Failure(e) case Success(t) => Success(v + t)
  {
    var s := "^" + path + "$" + rest;
    var j := |path| + 1;
    assert s[1..j] == path;
    assert s[j + 1..] == rest;
    assert s[j] == '$';
    assert forall k :: 1 <= k < j ==> s[k] == path[k - 1];
    StopAt(s, 1, j);
  }

  /** A character that does not start a token is copied. */
  lemma PlugChar(c: char, rest: string, dataset: StatMap)
    requires TokenAt([c] + rest).None?
    ensures Plug([c] + rest, dataset) ==
      match Plug(rest, dataset) case Failure(e) => Failure(e) case Success(t) => Success([c] + t)
  {
    assert ([c] + rest)[1..] == rest;
  }

  /** What `eval` of the plugged formula does: a value, a ZeroDivisionError, a SyntaxError
      or any other exception. */
  datatype EvalOutcome = Value(v: PyValue) | ZeroDivision | Syntax | Other

  /** The cell for an evaluation outcome. */
  function Outcome(plugged: string, outcome: EvalOutcome): Result<string, Error>
  {
    match outcome
    case Value(v) =>
      (match FormatNumber(v)
       case Success(t) => Success(t)
       case Failure(e) => Failure(Format(e)))
    case ZeroDivision => Success("-")
    case Syntax => if '!' in plugged then Success(RStrip(RemoveAll(plugged, '!'))) else Success("-")
    case Other => Failure(Raised)
  }

  /** A division by zero shows '-'; a syntax error shows the plugged text without its '!'s and
      trailing blanks when it had a '!', '-' otherwise; an int is shown with separators, the
      string '-' as it is, any other string fails in format_number; anything else raised
      escapes. */
  lemma OutcomeCells(plugged: string, outcome: EvalOutcome)
    ensures var r := Outcome(plugged, outcome);
      && (outcome.ZeroDivision? ==> r == Success("-"))
      && (outcome.Syntax? && '!' !in plugged ==> r == Success("-"))
      && (outcome.Syntax? && '!' in plugged ==>
            r.Success? && '!' !in r.value && r.value <= RemoveAll(plugged, '!')
            && (|r.value| == 0 || !IsSpace(r.value[|r.value| - 1]))
            && forall i :: |r.value| <= i < |RemoveAll(plugged, '!')| ==> IsSpace(RemoveAll(plugged, '!')[i]))
      && (outcome.Value? && outcome.v.Int? ==> r.Success? && RemoveAll(r.value, ',') == IntToString(outcome.v.n))
      && (outcome.Value? && outcome.v == Str("-") ==> r == Success("-"))
      && (outcome.Value? && outcome.v.Str? && outcome.v.s != "-" ==> r == Failure(Format(FormatError.ValueError)))
      && (outcome.Other? ==> r == Failure(Raised))
  {
    if outcome.Syntax? && '!' in plugged {
      var stripped := RemoveAll(plugged, '!');
      var r := RStrip(stripped);
      assert forall i :: 0 <= i < |r| ==> r[i] == stripped[i];
    }
  }

  /** The formula of a spec: the text before its first '#'. */
  function Formula(spec: string): string
  {
    Split(spec, '#')[0]
  }

  /** One player's cell of a spec row. */
  function Cell(spec: string, dataset: StatMap, eval: string -> EvalOutcome): Result<string, Error>
  {
    match Plug(Formula(spec), dataset)
    case Failure(e) => Failure(Lookup(e))
    case Success(plugged) => Outcome(plugged, eval(plugged))
  }

  function CellOf(spec: string, eval: string -> EvalOutcome): StatMap -> Result<string, Error>
  {
    dataset => Cell(spec, dataset, eval)
  }

  /** One spec row: the caption, then one cell per player. */
  function SpecRow(spec: string, datasets: seq<StatMap>, eval: string -> EvalOutcome): Result<seq<string>, Error>
  {
    var parts := Split(spec, '#');
    if |parts| < 2 then Failure(Error.IndexError)
    else
      var cells :- MapResult(datasets, CellOf(spec, eval));
      Success([parts[1]] + cells)
  }

  function RowOf(datasets: seq<StatMap>, eval: string -> EvalOutcome): string -> Result<seq<string>, Error>
  {
    spec => SpecRow(spec, datasets, eval)
  }

  /** What stat_table accepts: one player, a list of players, or anything else. */
  datatype PlayersArg = One(player: Player) | Many(players: seq<Player>) | NotPlayers

  /** A single player is wrapped in a list; anything else is a ValueError. */
  function PlayerList(arg: PlayersArg): (r: Result<seq<Player>, Error>)
    ensures arg.One? ==> r == Success([arg.player])
    ensures arg.Many? ==> r == Success(arg.players)
    ensures arg.NotPlayers? ==> r == Failure(Error.ValueError)
  {
    match arg
    case One(p) => Success([p])
    case Many(ps) => Success(ps)
    case NotPlayers => Failure(Error.ValueError)
  }

  function StatsOf(): Player -> Result<StatMap, Error>
  {
    p => Stats(p)
  }

  /** The header row: an empty corner, then the usernames. */
  function Header(players: seq<Player>): seq<string>
  {
    [""] + seq(|players|, i requires 0 <= i < |players| => players[i].username)
  }

  /** stat_table's rows: the stats of every player first, then the header, then one row per
      spec of the first player's class; with no player there is no first player. */
  function StatTable(arg: PlayersArg, stats: Player -> Result<StatMap, Error>, eval: string -> EvalOutcome): Result<seq<seq<string>>, Error>
  {
    var players :- PlayerList(arg);
    var datasets :- MapResult(players, stats);
    if |players| == 0 then Failure(Error.IndexError)
    else SpecTable(Header(players), players[0].cls.rows, datasets, eval)
  }

  /** The header, then one row per spec. */
  function SpecTable(header: seq<string>, specs: seq<string>, datasets: seq<StatMap>, eval: string -> EvalOutcome)
    : Result<seq<seq<string>>, Error>
  {
    var rows :- MapResult(specs, RowOf(datasets, eval));
    Success([header] + rows)
  }

  /** hypixel.stat_table. */
  method StatTableMethod(arg: PlayersArg, stats: Player -> Result<StatMap, Error>, eval: string -> EvalOutcome) returns (r: Result<Matrix.Table, Error>)
    ensures r.Failure? ==> StatTable(arg, stats, eval) == Failure(r.error)
    ensures r.Success? ==> StatTable(arg, stats, eval) == Success(r.value.rows)
    ensures r.Success? ==> fresh(r.value) && r.value.just == "right" && r.value.sep == " "
  {
    var players: seq<Player>;
    match arg {
      case One(p) => players := [p];
      case Many(ps) => players := ps;
      case NotPlayers => return Failure(Error.ValueError);
    }
    assert PlayerList(arg) == Success(players) == PlayerList(Many(players));
    r := PlayersTable(players, stats, eval);
  }

  /** stat_table once `players` is a list. */
  method PlayersTable(players: seq<Player>, stats: Player -> Result<StatMap, Error>, eval: string -> EvalOutcome) returns (r: Result<Matrix.Table, Error>)
    ensures r.Failure? ==> StatTable(Many(players), stats, eval) == Failure(r.error)
    ensures r.Success? ==> StatTable(Many(players), stats, eval) == Success(r.value.rows)
    ensures r.Success? ==> fresh(r.value) && r.value.just == "right" && r.value.sep == " "
  {
    var computed := AllStats(players, stats);
    if computed.Failure? {
      return Failure(computed.error);
    }
    var datasets := computed.value;
    var result := new Matrix.Table([], "right");
    result.Append(Header(players));
    if |players| == 0 {
      return Failure(Error.IndexError);
    }
    var specs := players[0].cls.rows;
    assert StatTable(Many(players), stats, eval) == SpecTable(Header(players), specs, datasets, eval);
    var failed := AppendSpecRows(result, specs, datasets, eval);
    if failed.Some? {
      return Failure(failed.value);
    }
    var rows := MapResult(specs, RowOf(datasets, eval));
    assert rows.Success? && result.rows == [Header(players)] + rows.value;
    r := Success(result);
  }

  /** The loop of stat_table over the specs: each row is appended as it is made, and the
      first failing row ends the loop with its error. */
  method AppendSpecRows(result: Matrix.Table, specs: seq<string>, datasets: seq<StatMap>, eval: string -> EvalOutcome)
    returns (failed: Option<Error>)
    modifies result
    ensures failed.None? <==> MapResult(specs, RowOf(datasets, eval)).Success?
    ensures failed.Some? ==> failed.value == MapResult(specs, RowOf(datasets, eval)).error
    ensures failed.None? ==> result.rows == old(result.rows) + MapResult(specs, RowOf(datasets, eval)).value
    ensures result.just == old(result.just) && result.sep == old(result.sep)
  {
    var k := 0;
    ghost var built: seq<seq<string>> := [];
    assert MapResult(specs[..0], RowOf(datasets, eval)) == Success([]);
    while k < |specs|
      invariant 0 <= k <= |specs|
      invariant result.just == old(result.just) && result.sep == old(result.sep)
      invariant result.rows == old(result.rows) + built
      invariant MapResult(specs[..k], RowOf(datasets, eval)) == Success(built)
    {
      MapResultStep(specs, RowOf(datasets, eval), k);
      var row := SpecRowMethod(specs[k], datasets, eval);
      assert RowOf(datasets, eval)(specs[k]) == row;
      if row.Failure? {
        MapResultStops(specs, RowOf(datasets, eval), k + 1);
        return Some(row.error);
      }
      result.Append(row.value);
      built := built + [row.value];
      k := k + 1;
    }
    assert specs[..k] == specs;
    failed := None;
  }

  /** `[x.get_stats() for x in players]`. */
  method AllStats(players: seq<Player>, stats: Player -> Result<StatMap, Error>) returns (r: Result<seq<StatMap>, Error>)
    ensures r == MapResult(players, stats)
  {
    var datasets: seq<StatMap> := [];
    var i := 0;
    while i < |players|
      invariant 0 <= i <= |players|
      invariant MapResult(players[..i], stats) == Success(datasets)
    {
      MapResultStep(players, stats, i);
      var d := stats(players[i]);
      if d.Failure? {
        MapResultStops(players, stats, i + 1);
        return Failure(d.error);
      }
      datasets := datasets + [d.value];
      i := i + 1;
    }
    assert players[..i] == players;
    r := Success(datasets);
  }

  /** The inner loop of stat_table: one spec's caption, then one cell per player. */
  method SpecRowMethod(stat: string, datasets: seq<StatMap>, eval: string -> EvalOutcome)
    returns (r: Result<seq<string>, Error>)
    ensures r == SpecRow(stat, datasets, eval)
  {
    var parts := Split(stat, '#');
    if |parts| < 2 {
      return Failure(Error.IndexError);
    }
    var row := [parts[1]];
    var j := 0;
    assert MapResult(datasets[..0], CellOf(stat, eval)) == Success([]);
    assert row[1..] == [];
    while j < |datasets|
      invariant 0 <= j <= |datasets|
      invariant |row| > 0 && row[0] == parts[1]
      invariant MapResult(datasets[..j], CellOf(stat, eval)) == Success(row[1..])
    {
      MapResultStep(datasets, CellOf(stat, eval), j);
      var dataset := datasets[j];
      var plugged := Plug(parts[0], dataset);
      var value: Result<string, Error>;
      if plugged.Failure? {
        value := Failure(Lookup(plugged.error));
      } else {
        value := Outcome(plugged.value, eval(plugged.value));
      }
      assert CellOf(stat, eval)(datasets[j]) == value;
      if value.Failure? {
        MapResultStops(datasets, CellOf(stat, eval), j + 1);
        return Failure(value.error);
      }
      assert (row + [value.value])[1..] == row[1..] + [value.value];
      row := row + [value.value];
      j := j + 1;
    }
    assert datasets[..j] == datasets;
    assert row == [parts[1]] + row[1..];
    r := Success(row);
  }

  /** A spec row is its caption, then one cell per dataset, each the cell of that dataset. */
  lemma SpecRowCells(spec: string, datasets: seq<StatMap>, eval: string -> EvalOutcome, i: nat)
    requires SpecRow(spec, datasets, eval).Success? && i < |datasets|
    ensures var row := SpecRow(spec, datasets, eval).value;
      && |Split(spec, '#')| >= 2
      && |row| == 1 + |datasets|
      && row[0] == Split(spec, '#')[1]
      && Cell(spec, datasets[i], eval) == Success(row[i + 1])
  {
    MapResultAt(datasets, CellOf(spec, eval), i);
  }

  /** The header, then row k + 1 for spec k. */
  lemma SpecTableRows(header: seq<string>, specs: seq<string>, datasets: seq<StatMap>, eval: string -> EvalOutcome, k: nat)
    requires SpecTable(header, specs, datasets, eval).Success? && k < |specs|
    ensures var rows := SpecTable(header, specs, datasets, eval).value;
      && |rows| == 1 + |specs|
      && rows[0] == header
      && SpecRow(specs[k], datasets, eval) == Success(rows[k + 1])
  {
    MapResultAt(specs, RowOf(datasets, eval), k);
  }

  /** The table has a header row plus one row per spec of the first player's class, and
      every row has one cell more than there are players: the caption or the empty corner. */
  lemma StatTableShape(arg: PlayersArg, stats: Player -> Result<StatMap, Error>, eval: string -> EvalOutcome)
    requires StatTable(arg, stats, eval).Success?
    ensures var players := PlayerList(arg).value;
      var rows := StatTable(arg, stats, eval).value;
      && |players| > 0
      && |rows| == 1 + |players[0].cls.rows|
      && rows[0] == Header(players)
      && forall r :: 0 <= r < |rows| ==> |rows[r]| == 1 + |players|
  {
    var players := PlayerList(arg).value;
    var datasets := MapResult(players, stats).value;
    var specs := players[0].cls.rows;
    var header := Header(players);
    assert StatTable(arg, stats, eval) == SpecTable(header, specs, datasets, eval);
    var rows := StatTable(arg, stats, eval).value;
    assert |rows| == 1 + |specs| && rows[0] == header by {
      var table := MapResult(specs, RowOf(datasets, eval));
      assert rows == [header] + table.value;
    }
    forall r | 1 <= r < |rows| ensures |rows[r]| == 1 + |players| {
      SpecTableRows(header, specs, datasets, eval, r - 1);
      if |players| > 0 {
        SpecRowCells(specs[r - 1], datasets, eval, 0);
      }
    }
  }

  /** Row k + 1 holds the caption of spec k and, for each player i, the cell of player i's
      own stats. */
  lemma StatTableCells(arg: PlayersArg, stats: Player -> Result<StatMap, Error>, eval: string -> EvalOutcome, k: nat, i: nat)
    requires StatTable(arg, stats, eval).Success?
    requires var players := PlayerList(arg).value;
      |players| > 0 && k < |players[0].cls.rows| && i < |players|
    ensures var players := PlayerList(arg).value;
      var spec := players[0].cls.rows[k];
      var rows := StatTable(arg, stats, eval).value;
      && k + 1 < |rows|
      && |rows[k + 1]| == 1 + |players|
      && |Split(spec, '#')| >= 2
      && rows[k + 1][0] == Split(spec, '#')[1]
      && stats(players[i]).Success?
      && Cell(spec, stats(players[i]).value, eval) == Success(rows[k + 1][i + 1])
  {
    var players := PlayerList(arg).value;
    var datasets := MapResult(players, stats).value;
    var specs := players[0].cls.rows;
    var header := Header(players);
    assert StatTable(arg, stats, eval) == SpecTable(header, specs, datasets, eval);
    SpecTableRows(header, specs, datasets, eval, k);
    SpecRowCells(specs[k], datasets, eval, i);
    MapResultAt(players, stats, i);
  }

  /** For the classes of this module the caption of row k + 1 is the caption written in the
      class, and the cells evaluate the formula written there. */
  lemma BuiltInCaptions(a: Archetype, k: nat)
    requires k < RowCount(a)
    ensures var spec := ClassOf(a).rows[k];
      && Split(spec, '#') == [PairAt(a, k).0, PairAt(a, k).1]
      && Formula(spec) == PairAt(a, k).0
  {
    RowSpecsSplit(a);
  }

  /** With no player at all the table fails with IndexError (there is no players[0]), after
      the type check. */
  lemma StatTableNoPlayers(stats: Player -> Result<StatMap, Error>, eval: string -> EvalOutcome)
    ensures StatTable(Many([]), stats, eval) == Failure(Error.IndexError)
    ensures StatTable(NotPlayers, stats, eval) == Failure(Error.ValueError)
  {
  }

  // ---------------------------------------------------------------------------
  // get_bedwars_table

  /** The class get_bedwars_table builds: an explicit class wins, then the API's gamemode
      name picks a one-mode class, anything else the all-modes class. */
  function Kind(gamemode: Option<string>, statClass: Option<Archetype>): Archetype
  {
    if statClass.Some? then statClass.value
    else if gamemode == Some("eight_one") then SoloBedWars
    else if gamemode == Some("eight_two") then DoublesBedWars
    else if gamemode == Some("four_three") then ThreesBedWars
    else if gamemode == Some("four_four") then FoursBedWars
    else BedWars
  }

  /** The class is chosen from the gamemode only when no class is given, and only the
      four gamemode names select a one-mode class. */
  lemma KindChoice(gamemode: Option<string>, statClass: Option<Archetype>)
    ensures statClass.Some? ==> Kind(gamemode, statClass) == statClass.value
    ensures statClass.None? ==>
      (Kind(gamemode, statClass) == BedWars <==>
        gamemode !in {Some("eight_one"), Some("eight_two"), Some("four_three"), Some("four_four")})
    ensures statClass.None? ==> Kind(gamemode, statClass) != SkyWars
  {
  }

  /** A Minecraft account as the name lookup gives it back. */
  datatype Account = Account(username: string, uuid: string)

  /** The message for an id the lookup rejects: more than 16 characters is taken for a
      UUID, anything shorter for a username. */
  function ResolveMessage(id: string): string
  {
    if |id| > 16 then id + " is too long to be a username, and it is not a valid UUID."
    else id + " is not a valid Minecraft username."
  }

  /** The players that resolve, with their pages, and the messages for those that do not,
      both in input order. */
  function Resolve(ids: seq<string>, cls: PlayerClass, lookup: string -> Option<Account>, fetch: string -> Page)
    : (r: (seq<Player>, seq<string>))
    ensures |r.0| + |r.1| == |ids|
  {
    if |ids| == 0 then ([], [])
    else
      var (players, errors) := Resolve(ids[..|ids| - 1], cls, lookup, fetch);
      var id := ids[|ids| - 1];
      match lookup(id)
      case Some(a) => (players + [Player(a.username, a.uuid, cls, fetch(a.uuid))], errors)
      case None => (players, errors + [ResolveMessage(id)])
  }

  /** Each id gives a player of the chosen class when the lookup knows it and a message
      otherwise, in input order: the players are the known ids', the messages the others'. */
  lemma {:induction false} ResolveSplits(ids: seq<string>, cls: PlayerClass, lookup: string -> Option<Account>, fetch: string -> Page)
    ensures var (players, errors) := Resolve(ids, cls, lookup, fetch);
      && |players| == |Known(ids, lookup)|
      && (forall k :: 0 <= k < |players| ==>
            players[k].cls == cls && players[k].username == lookup(Known(ids, lookup)[k]).value.username
            && players[k].uuid == lookup(Known(ids, lookup)[k]).value.uuid
            && players[k].page == fetch(players[k].uuid))
      && errors == seq(|Unknown(ids, lookup)|, k requires 0 <= k < |Unknown(ids, lookup)| => ResolveMessage(Unknown(ids, lookup)[k]))
  {
    if |ids| > 0 {
      ResolveSplits(ids[..|ids| - 1], cls, lookup, fetch);
    }
  }

  /** The ids the lookup knows, in order. */
  function Known(ids: seq<string>, lookup: string -> Option<Account>): (r: seq<string>)
    ensures forall k :: 0 <= k < |r| ==> lookup(r[k]).Some?
  {
    if |ids| == 0 then []
    else Known(ids[..|ids| - 1], lookup) + (if lookup(ids[|ids| - 1]).Some? then [ids[|ids| - 1]] else [])
  }

  /** The ids the lookup rejects, in order. */
  function Unknown(ids: seq<string>, lookup: string -> Option<Account>): (r: seq<string>)
    ensures forall k :: 0 <= k < |r| ==> lookup(r[k]).None?
  {
    if |ids| == 0 then []
    else Unknown(ids[..|ids| - 1], lookup) + (if lookup(ids[|ids| - 1]).None? then [ids[|ids| - 1]] else [])
  }

  /** The sorted, rendered table of the players. */
  function TableText(players: seq<Player>, eval: string -> EvalOutcome, parse: string -> Option<real>): Result<string, Error>
  {
    var table :- StatTable(Many(players), StatsOf(), eval);
    match SortTable(table, 1, parse)
    case Failure(_) => Failure(Error.IndexError)
    case Success(sorted) =>
      match Matrix.Render(sorted, "right", " ")
      case Failure(_) => Failure(Error.IndexError)
      case Success(text) => Success(text)
  }

  /** The error lines go after a blank line, and only when there are any. */
  function WithErrors(text: string, errors: seq<string>): string
  {
    if |errors| > 0 then text + "\n\n" + Join(errors, "\n") else text
  }

  /** The lines of the reply are the table's lines, then, when some id failed, an empty line
      and one line per failed id. */
  lemma WithErrorsLines(text: string, errors: seq<string>)
    requires forall k :: 0 <= k < |errors| ==> '\n' !in errors[k]
    ensures Split(WithErrors(text, errors), '\n') ==
      Split(text, '\n') + (if |errors| > 0 then [""] + errors else [])
  {
    if |errors| > 0 {
      var rest := Join(errors, "\n");
      assert text + "\n\n" + rest == text + ['\n'] + ("" + ['\n'] + rest);
      SplitConcat(text, '\n', "" + ['\n'] + rest);
      SplitConcat("", '\n', rest);
      SplitJoin(errors, '\n');
    }
  }

  /** get_bedwars_table's reply. */
  function BedwarsTable(ids: seq<string>, gamemode: Option<string>, statClass: Option<Archetype>,
                        lookup: string -> Option<Account>, fetch: string -> Page,
                        eval: string -> EvalOutcome, parse: string -> Option<real>): Result<string, Error>
  {
    var (players, errors) := Resolve(ids, ClassOf(Kind(gamemode, statClass)), lookup, fetch);
    var text :- TableText(players, eval, parse);
    Success(WithErrors(text, errors))
  }

  /** The loop of get_bedwars_table that builds the players and collects the errors. */
  method ResolveAll(ids: seq<string>, cls: PlayerClass, lookup: string -> Option<Account>, fetch: string -> Page)
    returns (players: seq<Player>, errors: seq<string>)
    ensures (players, errors) == Resolve(ids, cls, lookup, fetch)
  {
    players, errors := [], [];
    var i := 0;
    while i < |ids|
      invariant 0 <= i <= |ids|
      invariant Resolve(ids[..i], cls, lookup, fetch) == (players, errors)
    {
      ResolveStep(ids, i, cls, lookup, fetch);
      var id := ids[i];
      var account := lookup(id);
      if account.Some? {
        players := players + [Player(account.value.username, account.value.uuid, cls, fetch(account.value.uuid))];
      } else {
        errors := errors + [ResolveMessage(id)];
      }
      i := i + 1;
    }
    assert ids[..i] == ids;
  }

  lemma ResolveStep(ids: seq<string>, i: nat, cls: PlayerClass, lookup: string -> Option<Account>, fetch: string -> Page)
    requires i < |ids|
    ensures var (players, errors) := Resolve(ids[..i], cls, lookup, fetch);
      Resolve(ids[..i + 1], cls, lookup, fetch) ==
        match lookup(ids[i])
        case Some(a) => (players + [Player(a.username, a.uuid, cls, fetch(a.uuid))], errors)
        case None => (players, errors + [ResolveMessage(ids[i])])
  {
    assert ids[..i + 1][..i] == ids[..i];
  }

  /** stat_table, sort_table on column 1, then `str` of the table. */
  method TableTextMethod(players: seq<Player>, eval: string -> EvalOutcome, parse: string -> Option<real>)
    returns (r: Result<string, Error>)
    ensures r == TableText(players, eval, parse)
  {
    var table := StatTableMethod(Many(players), StatsOf(), eval);
    if table.Failure? {
      return Failure(table.error);
    }
    var sorted := SortTableMethod(table.value, 1, parse);
    if sorted.Failure? {
      return Failure(Error.IndexError);
    }
    var text := sorted.value.ToString();
    if text.Failure? {
      return Failure(Error.IndexError);
    }
    r := Success(text.value);
  }

  /** hypixel.get_bedwars_table; the name lookup and the page fetch are parameters. */
  method GetBedwarsTable(ids: seq<string>, gamemode: Option<string>, statClass: Option<Archetype>,
                         lookup: string -> Option<Account>, fetch: string -> Page,
                         eval: string -> EvalOutcome, parse: string -> Option<real>)
    returns (r: Result<string, Error>)
    ensures r == BedwarsTable(ids, gamemode, statClass, lookup, fetch, eval, parse)
  {
    var cls := ClassOf(Kind(gamemode, statClass));
    var players, errors := ResolveAll(ids, cls, lookup, fetch);
    var text := TableTextMethod(players, eval, parse);
    if text.Failure? {
      return Failure(text.error);
    }
    var result := text.value;
    if |errors| > 0 {
      result := result + "\n\n" + Join(errors, "\n");
    }
    r := Success(result);
  }
}

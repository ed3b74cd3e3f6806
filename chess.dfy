/** chess.py: the ratings of a Chess.com stats document, a player's win/loss/draw record, and
    the conversion of the PogChamps schedule table's rows to CSV text. */
module Chess {
  import opened Wrappers
  import opened Strings
  import opened Seqs
  import opened JsonData

  // ---------------------------------------------------------------------------
  // get_elos

  /** `\w` on one character, for ASCII text: a letter, a digit or '_'. */
  predicate IsWordChar(ch: char)
  {
    ('a' <= ch <= 'z') || ('A' <= ch <= 'Z') || ('0' <= ch <= '9') || ch == '_'
  }

  /** `re.match(r'chess_\w+', key)`: the key starts with "chess_" and a word character. */
  predicate IsRatingKey(key: string)
  {
    |key| > 6 && key[..6] == "chess_" && IsWordChar(key[6])
  }

  /** The ratings gathered from the given keys, in order: each rating key's value is stored
      under the key without its first six characters. */
  function Ratings(members: seq<(string, Json)>, keys: seq<string>): map<string, Json>
  {
    if |keys| == 0 then map[]
    else
      var result := Ratings(members, keys[..|keys| - 1]);
      var key := keys[|keys| - 1];
      if IsRatingKey(key) then
        match Find(members, key)
        case Success(value) => result[key[6..] := value]
        case Failure(_) => result
      else result
  }

  /** get_elos: a document that is not a dict has no `.keys()`. */
  function Elos(userStats: Json): Result<map<string, Json>, JsonError>
  {
    match userStats
    case JObject(members) => Success(Ratings(members, Keys(members)))
    case _ => Failure(AttributeError)
  }

  /** chess.get_elos. */
  method GetElos(userStats: Json) returns (r: Result<map<string, Json>, JsonError>)
    ensures r == Elos(userStats)
  {
    if !userStats.JObject? {
      return Failure(AttributeError);
    }
    var members := userStats.members;
    var keys := Keys(members);
    var result: map<string, Json> := map[];
    var i := 0;
    while i < |keys|
      invariant 0 <= i <= |keys|
      invariant result == Ratings(members, keys[..i])
    {
      assert keys[..i + 1][..i] == keys[..i];
      var key := keys[i];
      if IsRatingKey(key) {
        FindFirst(members, key);
        var title := key[6..];
        result := result[title := Find(members, key).value];
      }
      i := i + 1;
    }
    assert keys[..i] == keys;
    r := Success(result);
  }

  /** A title t is in the ratings exactly when "chess_" + t is one of the keys and a rating
      key, and it holds that key's value; so no other key, such as "chess960_daily" or
      "tactics", ever shows up, and there are no more ratings than keys. */
  lemma {:induction false} RatingsKeys(members: seq<(string, Json)>, keys: seq<string>)
    requires forall i :: 0 <= i < |keys| ==> keys[i] in Keys(members)
    ensures var r := Ratings(members, keys);
      && (forall t :: t in r <==> "chess_" + t in keys && IsRatingKey("chess_" + t))
      && (forall t :: t in r ==> Find(members, "chess_" + t) == Success(r[t]))
      && |r| <= |keys|
  {
    if |keys| > 0 {
      var init := keys[..|keys| - 1];
      var key := keys[|keys| - 1];
      RatingsKeys(members, init);
      assert keys == init + [key];
      if IsRatingKey(key) {
        FindFirst(members, key);
        assert key == "chess_" + key[6..];
        forall t | "chess_" + t == key ensures t == key[6..] {
          assert t == ("chess_" + t)[6..];
        }
      }
    }
  }

  /** get_elos keeps exactly the rating keys of the document, each renamed and with its value. */
  lemma ElosKeys(members: seq<(string, Json)>)
    ensures var r := Elos(JObject(members)).value;
      && (forall t :: t in r <==> "chess_" + t in Keys(members) && IsRatingKey("chess_" + t))
      && (forall t :: t in r ==> Member(JObject(members), "chess_" + t) == Success(r[t]))
      && |r| <= |members|
  {
    RatingsKeys(members, Keys(members));
  }

  // ---------------------------------------------------------------------------
  // record_string

  /** chess.record_string: `str` of the win, loss and draw counts, joined by '/'. */
  function RecordString(data: Json): Result<string, JsonError>
  {
    var record :- Member(data, "record");
    var win :- Member(record, "win");
    var loss :- Member(record, "loss");
    var draw :- Member(record, "draw");
    Success(Join([Str(win), Str(loss), Str(draw)], "/"))
  }

  lemma NoSlashInNumber(n: int)
    ensures '/' !in IntToString(n)
  {
  }

  /** A record of three numbers splits on '/' back into the win, loss and draw counts, in that order. */
  lemma RecordStringSplit(data: Json, win: int, loss: int, draw: int)
    requires Path(data, ["record", "win"]) == Success(JNumber(win))
    requires Path(data, ["record", "loss"]) == Success(JNumber(loss))
    requires Path(data, ["record", "draw"]) == Success(JNumber(draw))
    ensures RecordString(data).Success?
    ensures Split(RecordString(data).value, '/') == [IntToString(win), IntToString(loss), IntToString(draw)]
  {
    NoSlashInNumber(win);
    NoSlashInNumber(loss);
    NoSlashInNumber(draw);
    SplitJoin([IntToString(win), IntToString(loss), IntToString(draw)], '/');
  }

  // ---------------------------------------------------------------------------
  // pogchamp_schedule_to_csv, from the rows' cell texts on

  /** Unpacking a row of the wrong length, and `day.split()[1]` of a day with one word. */
  datatype CsvError = ValueError | IndexError

  const Header: seq<string> := ["Subject", "Start Date", "Start Time", "End Time", "Description"]

  /** "AM" for a time whose first two characters are "11", "PM" for any other. */
  function Meridiem(time: string): (r: string)
    ensures r == "AM" <==> |time| >= 2 && time[0] == '1' && time[1] == '1'
    ensures r != "AM" ==> r == "PM"
  {
    if time[..if |time| < 2 then |time| else 2] == "11" then "AM" else "PM"
  }

  /** One schedule row's CSV fields: the players, the February date, the two times with their
      half of the day, and the group with the match number. */
  function RowFields(cells: seq<string>): Result<seq<string>, CsvError>
  {
    if |cells| != 8 then Failure(ValueError)
    else
      var day, start, end, group, mnum, p1, p2 := cells[0], cells[2], cells[3], cells[4], cells[5], cells[6], cells[7];
      var words := Words(day);
      if |words| < 2 then Failure(CsvError.IndexError)
      else
        Success([p1 + " vs " + p2, "02/" + words[1] + "/2021", start + " " + Meridiem(start),
                 end + " " + Meridiem(end), group + ": " + mnum])
  }

  function RowFieldsOf(): seq<string> -> Result<seq<string>, CsvError>
  {
    cells => RowFields(cells)
  }

  /** The rows that are not the pre-match event: no cell is exactly "-". */
  function Listed(): seq<string> -> bool
  {
    cells => "-" !in cells
  }

  function CsvLines(table: seq<seq<string>>): seq<string>
  {
    seq(|table|, i requires 0 <= i < |table| => Join(table[i], ","))
  }

  /** The CSV text: the header, then one line per listed row, fields joined by ',' with no
      quoting and lines by '\n'; the first listed row that does not convert raises. */
  function ScheduleCsv(rows: seq<seq<string>>): Result<string, CsvError>
  {
    var fields :- MapResult(Filter(rows, Listed()), RowFieldsOf());
    Success(Join(CsvLines([Header] + fields), "\n"))
  }

  /** The loop of pogchamp_schedule_to_csv over the extracted rows, and the final join. */
  method ScheduleCsvMethod(rows: seq<seq<string>>) returns (r: Result<string, CsvError>)
    ensures r == ScheduleCsv(rows)
  {
    var csv: seq<seq<string>> := [Header];
    ghost var listed: seq<seq<string>> := [];
    var i := 0;
    assert rows[..0] == [] && csv[1..] == [];
    while i < |rows|
      invariant 0 <= i <= |rows|
      invariant listed == Filter(rows[..i], Listed())
      invariant |csv| > 0 && csv[0] == Header
      invariant MapResult(listed, RowFieldsOf()) == Success(csv[1..])
    {
      FilterStep(rows, Listed(), i);
      var cells := rows[i];
      if "-" in cells {
        assert !Listed()(cells);
        i := i + 1;
        continue;
      }
      assert Listed()(cells);
      ghost var longer := listed + [cells];
      var row := RowFields(cells);
      ConvertStep(listed, cells, csv[1..]);
      if row.Failure? {
        FilterPrefix(rows, Listed(), i + 1);
        MapResultPrefixFails(Filter(rows, Listed()), longer, RowFieldsOf());
        return Failure(row.error);
      }
      assert (csv + [row.value])[1..] == csv[1..] + [row.value];
      listed := longer;
      csv := csv + [row.value];
      i := i + 1;
    }
    assert rows[..i] == rows;
    assert [Header] + csv[1..] == csv;
    r := Success(Join(CsvLines(csv), "\n"));
  }

  /** Converting one more listed row: its fields are appended, or its error ends the conversion. */
  lemma ConvertStep(listed: seq<seq<string>>, cells: seq<string>, done: seq<seq<string>>)
    requires MapResult(listed, RowFieldsOf()) == Success(done)
    ensures MapResult(listed + [cells], RowFieldsOf()) ==
      match RowFields(cells)
      case Success(fields) => Success(done + [fields])
      case Failure(e) => Failure(e)
  {
  }

  /** A row converts exactly when it has eight cells and its day has a second word; then the
      fields are "p1 vs p2", "02/<day>/2021", each time with "AM" when it starts with "11" and
      "PM" otherwise, and "group: match". */
  lemma RowFieldsSpec(cells: seq<string>)
    ensures RowFields(cells).Failure? <==> |cells| != 8 || |Words(cells[0])| < 2
    ensures RowFields(cells) == Failure(ValueError) <==> |cells| != 8
    ensures RowFields(cells).Success? ==>
      var f := RowFields(cells).value;
      && |f| == 5
      && f[0] == cells[6] + " vs " + cells[7]
      && f[1] == "02/" + Words(cells[0])[1] + "/2021"
      && f[2] == cells[2] + " " + Meridiem(cells[2])
      && f[3] == cells[3] + " " + Meridiem(cells[3])
      && (f[2] == cells[2] + " AM" <==> |cells[2]| >= 2 && cells[2][..2] == "11")
      && (f[3] == cells[3] + " AM" <==> |cells[3]| >= 2 && cells[3][..2] == "11")
      && f[4] == cells[4] + ": " + cells[5]
  {
    if RowFields(cells).Success? {
      TimeWithMeridiem(cells[2]);
      TimeWithMeridiem(cells[3]);
    }
  }

  /** A time followed by its meridiem ends in " AM" exactly when the time starts with "11". */
  lemma TimeWithMeridiem(time: string)
    ensures time + " " + Meridiem(time) == time + " AM" <==> |time| >= 2 && time[..2] == "11"
  {
    var t := time + " " + Meridiem(time);
    if t == time + " AM" {
      assert t[|time| + 1..] == "AM";
    }
  }

  /** When no cell holds a ',' or a newline, the CSV text has the header line, then one line
      per listed row, in order, and each line splits on ',' into that row's five fields. */
  lemma ScheduleCsvLines(rows: seq<seq<string>>)
    requires ScheduleCsv(rows).Success?
    requires forall r, c :: 0 <= r < |rows| && 0 <= c < |rows[r]| ==> ',' !in rows[r][c] && '\n' !in rows[r][c]
    ensures var lines := Split(ScheduleCsv(rows).value, '\n');
      var listed := Filter(rows, Listed());
      && |lines| == 1 + |listed|
      && Split(lines[0], ',') == Header
      && forall k :: 0 <= k < |listed| ==> RowFields(listed[k]) == Success(Split(lines[k + 1], ','))
  {
    var listed := Filter(rows, Listed());
    var fields := MapResult(listed, RowFieldsOf()).value;
    var table := [Header] + fields;
    var lines := CsvLines(table);
    assert lines[0] == Join(Header, ",");
    HeaderLine();
    forall t | 1 <= t < |table|
      ensures '\n' !in lines[t]
      ensures RowFields(listed[t - 1]) == Success(Split(lines[t], ','))
    {
      ListedLine(rows, t - 1);
    }
    SplitJoin(lines, '\n');
  }

  lemma CsvLineAt(head: seq<string>, fields: seq<seq<string>>, k: nat)
    requires k < |fields|
    ensures CsvLines([head] + fields)[k + 1] == Join(fields[k], ",")
  {
    assert ([head] + fields)[k + 1] == fields[k];
  }

  /** The header line holds no newline and splits on ',' into the five column names. */
  lemma HeaderLine()
    ensures '\n' !in Join(Header, ",")
    ensures Split(Join(Header, ","), ',') == Header
  {
    assert forall j :: 0 <= j < |Header| ==> ',' !in Header[j] && '\n' !in Header[j];
    JoinNoChar(Header, ",", '\n');
    SplitJoin(Header, ',');
  }

  /** The line of listed row k holds no newline and splits on ',' into the row's fields. */
  lemma ListedLine(rows: seq<seq<string>>, k: nat)
    requires ScheduleCsv(rows).Success? && k < |Filter(rows, Listed())|
    requires forall r, c :: 0 <= r < |rows| && 0 <= c < |rows[r]| ==> ',' !in rows[r][c] && '\n' !in rows[r][c]
    ensures var listed := Filter(rows, Listed());
      var line := CsvLines([Header] + MapResult(listed, RowFieldsOf()).value)[k + 1];
      && '\n' !in line
      && RowFields(listed[k]) == Success(Split(line, ','))
  {
    var listed := Filter(rows, Listed());
    var fields := MapResult(listed, RowFieldsOf()).value;
    CsvLineAt(Header, fields, k);
    MapResultAt(listed, RowFieldsOf(), k);
    FilterFrom(rows, Listed(), k);
    var cells := listed[k];
    var i :| 0 <= i < |rows| && rows[i] == cells;
    FieldsClean(cells, ',');
    FieldsClean(cells, '\n');
    JoinNoChar(fields[k], ",", '\n');
    SplitJoin(fields[k], ',');
  }

  /** A character that no cell holds, and that is neither a letter of the literals nor a
      space, is in no field. */
  lemma FieldsClean(cells: seq<string>, c: char)
    requires c == ',' || c == '\n'
    requires forall j :: 0 <= j < |cells| ==> c !in cells[j]
    requires RowFields(cells).Success?
    ensures forall j :: 0 <= j < |RowFields(cells).value| ==> c !in RowFields(cells).value[j]
  {
    WordsNoChar(cells[0], c);
  }
}

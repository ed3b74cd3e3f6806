/** tools.py: number and duration formatting, English lists, stat lookup, the column sort
    of stat tables, list cleaning and the today/tomorrow classification. */
module Tools {
  import opened Wrappers
  import opened Strings
  import opened Sorting
  import Matrix
  import Seqs

  // ---------------------------------------------------------------------------
  // format_number

  /** The Python values format_number receives: an int, a float, or a string. The text
      a float is printed as is not modelled: a float carries it. */
  datatype PyValue = Int(n: int) | Float(shown: string) | Str(s: string)

  datatype FormatError = ValueError

  /** `'{:,}'.format(d)` on the digits d of a non-negative integer: a comma before every
      group of three digits counted from the right. */
  function Group(d: string): string
  {
    if |d| <= 3 then d else Group(d[..|d| - 3]) + "," + d[|d| - 3..]
  }

  /** `'{:,}'.format(n)` for an integer n. */
  function FormatInt(n: int): string
  {
    if n < 0 then "-" + Group(NatToString(-n)) else Group(NatToString(n))
  }

  /** format_number: '-' is returned as it is, an int gets thousands separators; any other
      string makes `int(num)` raise ValueError. */
  function FormatNumber(v: PyValue): (r: Result<string, FormatError>)
    ensures v == Str("-") ==> r == Success("-")
    ensures v.Str? && v.s != "-" ==> r.Failure?
    ensures v.Int? ==> r.Success? && RemoveAll(r.value, ',') == IntToString(v.n)
  {
    match v
    case Str(s) => if s == "-" then Success("-") else Failure(ValueError)
    case Int(n) => FormatIntRoundTrip(n); Success(FormatInt(n))
    case Float(shown) => Success(shown)
  }

  lemma {:induction false} GroupRemoveCommas(d: string)
    requires ',' !in d
    ensures RemoveAll(Group(d), ',') == d
  {
    if |d| <= 3 {
      RemoveAllAbsent(d, ',');
    } else {
      var hi, lo := d[..|d| - 3], d[|d| - 3..];
      GroupSplit(d);
      GroupRemoveCommas(hi);
      RemoveAllAroundComma(Group(hi), lo);
      RemoveAllAbsent(lo, ',');
    }
  }

  /** A number of four digits or more is grouped as its leading digits, a comma, and its last three. */
  lemma {:induction false} GroupSplit(d: string)
    requires |d| > 3 && ',' !in d
    ensures Group(d) == Group(d[..|d| - 3]) + "," + d[|d| - 3..]
    ensures ',' !in d[..|d| - 3] && ',' !in d[|d| - 3..]
    ensures d[..|d| - 3] + d[|d| - 3..] == d
  {
    var hi, lo := d[..|d| - 3], d[|d| - 3..];
    assert forall i :: 0 <= i < |hi| ==> hi[i] == d[i];
    assert forall i :: 0 <= i < |lo| ==> lo[i] == d[|d| - 3 + i];
  }

  lemma {:induction false} RemoveAllAroundComma(a: string, b: string)
    ensures RemoveAll(a + "," + b, ',') == RemoveAll(a, ',') + RemoveAll(b, ',')
  {
    RemoveAllAppend(a + ",", b, ',');
    RemoveAllAppend(a, ",", ',');
    assert RemoveAll(",", ',') == "";
  }

  lemma NoCommaInDigits(d: string)
    requires forall i :: 0 <= i < |d| ==> IsDigit(d[i])
    ensures ',' !in d
  {
    forall i | 0 <= i < |d| ensures d[i] != ',' {
      assert IsDigit(d[i]);
    }
  }

  /** Removing the thousands separators (what get_stat does) gives back `str(n)`. */
  lemma FormatIntRoundTrip(n: int)
    ensures RemoveAll(FormatInt(n), ',') == IntToString(n)
  {
    var d := NatToString(if n < 0 then -n else n);
    NoCommaInDigits(d);
    GroupRemoveCommas(d);
    if n < 0 {
      RemoveAllAppend("-", Group(d), ',');
    }
  }

  lemma {:induction false} SplitBeforeLast(a: string, c: char, b: string)
    requires c !in b
    ensures Split(a + [c] + b, c) == Split(a, c) + [b]
  {
    var s := a + [c] + b;
    if |a| == 0 {
      assert s[1..] == b;
      SplitNoSeparator(b, c);
    } else {
      assert s[1..] == a[1..] + [c] + b;
      SplitBeforeLast(a[1..], c, b);
    }
  }

  /** The groups between separators: the first has one to three digits, every other exactly three,
      and together they are the digits. */
  lemma {:induction false} GroupShape(d: string)
    requires |d| > 0 && ',' !in d
    ensures var g := Split(Group(d), ',');
      && 1 <= |g[0]| <= 3
      && (forall i :: 1 <= i < |g| ==> |g[i]| == 3)
      && Join(g, "") == d
  {
    if |d| <= 3 {
      SplitNoSeparator(d, ',');
    } else {
      var hi, lo := d[..|d| - 3], d[|d| - 3..];
      assert ',' !in hi && ',' !in lo by {
        assert forall i :: 0 <= i < |hi| ==> hi[i] == d[i];
        assert forall i :: 0 <= i < |lo| ==> lo[i] == d[|d| - 3 + i];
      }
      GroupShape(hi);
      SplitBeforeLast(Group(hi), ',', lo);
      var gh := Split(Group(hi), ',');
      var g := gh + [lo];
      assert Split(Group(d), ',') == g;
      JoinAppendEmpty(gh, lo);
      assert hi + lo == d;
    }
  }

  lemma {:induction false} JoinAppendEmpty(parts: seq<string>, last: string)
    requires |parts| > 0
    ensures Join(parts + [last], "") == Join(parts, "") + last
  {
    if |parts| > 1 {
      JoinAppendEmpty(parts[1..], last);
      assert (parts + [last])[1..] == parts[1..] + [last];
    }
  }

  /** Values of at least 1000 are printed with a comma. */
  lemma GroupedHasComma(n: int)
    requires n >= 1000
    ensures ',' in FormatInt(n)
  {
    var d := NatToString(n);
    DigitsAtLeastFour(n);
    assert Group(d) == Group(d[..|d| - 3]) + "," + d[|d| - 3..];
    assert Group(d)[|Group(d[..|d| - 3])|] == ',';
  }

  lemma {:induction false} DigitsAtLeastFour(n: nat)
    requires n >= 1000
    ensures |NatToString(n)| >= 4
  {
    assert NatToString(n) == NatToString(n / 10) + [DigitChar(n % 10)];
    assert NatToString(n / 10) == NatToString(n / 100) + [DigitChar(n / 10 % 10)];
    assert NatToString(n / 100) == NatToString(n / 1000) + [DigitChar(n / 100 % 10)];
  }

  // ---------------------------------------------------------------------------
  // get_stat

  /** A stat table: sub-mode -> field -> raw text. */
  type StatMap = map<string, map<string, string>>

  /** What `data` holds while get_stat walks down: the whole table, one sub-mode's fields, or a text. */
  datatype Cursor = Modes(modes: StatMap) | Fields(fields: map<string, string>) | Text(text: string)

  /** KeyError for a missing key, TypeError for indexing a string by a key,
      AttributeError for calling `replace` on a dict. */
  datatype LookupError = KeyError(key: string) | TypeError | AttributeError

  /** `data[key]`. */
  function Step(c: Cursor, key: string): Result<Cursor, LookupError>
  {
    match c
    case Modes(m) => if key in m then Success(Fields(m[key])) else Failure(KeyError(key))
    case Fields(f) => if key in f then Success(Text(f[key])) else Failure(KeyError(key))
    case Text(_) => Failure(TypeError)
  }

  /** Following `keys` from c, stopping at the first error. */
  function Walk(c: Cursor, keys: seq<string>): Result<Cursor, LookupError>
  {
    if |keys| == 0 then Success(c)
    else
      var d :- Walk(c, keys[..|keys| - 1]);
      Step(d, keys[|keys| - 1])
  }

  /** get_stat's value: walk the dotted path, then drop every comma. */
  function Stat(dataset: StatMap, path: string): Result<string, LookupError>
  {
    var c :- Walk(Modes(dataset), Split(path, '.'));
    if c.Text? then Success(RemoveAll(c.text, ',')) else Failure(AttributeError)
  }

  /** tools.get_stat. */
  method GetStat(dataset: StatMap, stat: string) returns (r: Result<string, LookupError>)
    ensures r == Stat(dataset, stat)
  {
    var keys := Split(stat, '.');
    var data := Modes(dataset);
    var i := 0;
    while i < |keys|
      invariant 0 <= i <= |keys|
      invariant Walk(Modes(dataset), keys[..i]) == Success(data)
    {
      assert keys[..i + 1][..i] == keys[..i];
      var next := Step(data, keys[i]);
      if next.Failure? {
        WalkStops(Modes(dataset), keys, i + 1);
        return Failure(next.error);
      }
      data := next.value;
      i := i + 1;
    }
    assert keys[..i] == keys;
    if !data.Text? {
      return Failure(AttributeError);
    }
    r := Success(RemoveAll(data.text, ','));
  }

  /** Once the walk fails, it stays failed with the same error. */
  lemma {:induction false} WalkStops(c: Cursor, keys: seq<string>, n: nat)
    requires 0 < n <= |keys|
    requires Walk(c, keys[..n]).Failure?
    ensures Walk(c, keys) == Walk(c, keys[..n]).PropagateFailure()
  {
    if n < |keys| {
      assert keys[..|keys| - 1][..n] == keys[..n];
      WalkStops(c, keys[..|keys| - 1], n);
    } else {
      assert keys[..n] == keys;
    }
  }

  /** get_stat succeeds exactly on "Sub.Field" paths whose two keys exist, and then gives
      that field's text without commas. */
  lemma StatTwoKeys(dataset: StatMap, path: string)
    ensures var keys := Split(path, '.');
      Stat(dataset, path).Success? <==>
        |keys| == 2 && keys[0] in dataset && keys[1] in dataset[keys[0]]
    ensures var keys := Split(path, '.');
      Stat(dataset, path).Success? ==>
        Stat(dataset, path).value == RemoveAll(dataset[keys[0]][keys[1]], ',')
  {
    var keys := Split(path, '.');
    var start := Modes(dataset);
    if |keys| >= 2 {
      assert keys[..1][..0] == [] && keys[..2][..1] == keys[..1];
      assert Walk(start, keys[..1]) == Step(start, keys[0]);
      if keys[0] in dataset {
        assert Walk(start, keys[..2]) == Step(Fields(dataset[keys[0]]), keys[1]);
        if keys[1] in dataset[keys[0]] && |keys| > 2 {
          assert keys[..3][..2] == keys[..2];
          assert Walk(start, keys[..3]).Failure?;
          WalkStops(start, keys, 3);
        } else if keys[1] !in dataset[keys[0]] {
          WalkStops(start, keys, 2);
        } else {
          assert keys[..2] == keys;
        }
      } else {
        WalkStops(start, keys, 1);
      }
    } else {
      assert keys[..0] == [];
      assert Walk(start, keys) == Step(start, keys[0]);
    }
  }

  // ---------------------------------------------------------------------------
  // sort_table

  /** The sort key of a cell: its value as a number, or +infinity when it does not parse. */
  datatype SortKey = Finite(x: real) | Infinite

  function KeyOf(cell: string, parse: string -> Option<real>): SortKey
  {
    match parse(cell)
    case Some(x) => Finite(x)
    case None => Infinite
  }

  /** a >= b. */
  predicate AtLeast(a: SortKey, b: SortKey)
  {
    match (a, b)
    case (Infinite, _) => true
    case (Finite(_), Infinite) => false
    case (Finite(x), Finite(y)) => x >= y
  }

  function KeyAt(column: seq<string>, index: nat, parse: string -> Option<real>): SortKey
  {
    if index < |column| then KeyOf(column[index], parse) else Infinite
  }

  /** `sort(key=key, reverse=True)` lets column a come before column b when key(a) >= key(b). */
  function Descending(index: nat, parse: string -> Option<real>): (seq<string>, seq<string>) -> bool
  {
    (a: seq<string>, b: seq<string>) => AtLeast(KeyAt(a, index, parse), KeyAt(b, index, parse))
  }

  lemma DescendingIsPreorder(index: nat, parse: string -> Option<real>)
    ensures TotalPreorder(Descending(index, parse))
  {
  }

  /** `list(zip(*rows))`: column c holds the c-th cell of every row. */
  function Transpose(rows: seq<seq<string>>): (cols: seq<seq<string>>)
    ensures |cols| == Matrix.Columns(rows)
    ensures forall c :: 0 <= c < |cols| ==> |cols[c]| == |rows|
  {
    var n := Matrix.Columns(rows);
    seq(n, c requires 0 <= c < n => seq(|rows|, r requires 0 <= r < |rows| => rows[r][c]))
  }

  /** The rows rebuilt from the columns: row i holds the i-th cell of every column. */
  function Rows(cols: seq<seq<string>>, height: nat): seq<seq<string>>
    requires forall c :: 0 <= c < |cols| ==> |cols[c]| == height
  {
    seq(height, i requires 0 <= i < height => seq(|cols|, c requires 0 <= c < |cols| => cols[c][i]))
  }

  datatype SortError = IndexError

  lemma SortedColumnsHeight(cols: seq<seq<string>>, height: nat, le: (seq<string>, seq<string>) -> bool)
    requires forall c :: 0 <= c < |cols| ==> |cols[c]| == height
    ensures var s := StableSort(cols, le);
      |s| == |cols| && forall c :: 0 <= c < |s| ==> |s[c]| == height
  {
    var s := StableSort(cols, le);
    assert |multiset(s)| == |multiset(cols)|;
    forall c | 0 <= c < |s| ensures |s[c]| == height {
      assert s[c] in multiset(cols);
    }
  }

  /** sort_table's result: the columns, stably sorted by their cell in row `index`,
      largest first. No column at all, or a too large index, raises IndexError. */
  function SortTable(rows: seq<seq<string>>, index: nat, parse: string -> Option<real>): Result<seq<seq<string>>, SortError>
  {
    var cols := Transpose(rows);
    if |cols| == 0 || |rows| <= index then Failure(IndexError)
    else
      var sorted := StableSort(cols, Descending(index, parse));
      SortedColumnsHeight(cols, |rows|, Descending(index, parse));
      Success(Rows(sorted, |rows|))
  }

  /** tools.sort_table. */
  method SortTableMethod(table: Matrix.Table, index: nat, parse: string -> Option<real>)
    returns (r: Result<Matrix.Table, SortError>)
    ensures r.Success? == SortTable(table.rows, index, parse).Success?
    ensures r.Failure? ==> r.error == SortTable(table.rows, index, parse).error
    ensures r.Success? ==> fresh(r.value) && r.value.rows == SortTable(table.rows, index, parse).value
    ensures r.Success? ==> r.value.just == "right" && r.value.sep == " "
  {
    var zipped := Transpose(table.rows);
    if |zipped| == 0 || |table.rows| <= index {
      return Failure(IndexError);
    }
    var height := |table.rows|;
    SortedColumnsHeight(zipped, height, Descending(index, parse));
    zipped := StableSort(zipped, Descending(index, parse));
    var result := new Matrix.Table([], "right");
    ghost var target := Rows(zipped, height);
    var i := 0;
    while i < |zipped[0]|
      invariant 0 <= i <= height == |target|
      invariant result.rows == target[..i]
      invariant result.just == "right" && result.sep == " "
      invariant fresh(result)
    {
      var cells := seq(|zipped|, c requires 0 <= c < |zipped| => zipped[c][i]);
      assert cells == target[i];
      result.Append(cells);
      assert target[..i + 1] == target[..i] + [cells];
      i := i + 1;
    }
    assert target[..height] == target;
    r := Success(result);
  }

  lemma TransposeRows(cols: seq<seq<string>>, height: nat)
    requires |cols| > 0 && height > 0
    requires forall c :: 0 <= c < |cols| ==> |cols[c]| == height
    ensures Transpose(Rows(cols, height)) == cols
  {
    var rows := Rows(cols, height);
    assert Matrix.Columns(rows) == |cols| by {
      assert |rows[0]| == |cols|;
    }
    var t := Transpose(rows);
    forall c | 0 <= c < |cols| ensures t[c] == cols[c] {
      assert |t[c]| == height;
      forall i | 0 <= i < height ensures t[c][i] == cols[c][i] {
        assert t[c][i] == rows[i][c];
      }
    }
  }

  /** sort_table fails exactly when there is no column or no row `index`. */
  lemma SortTableSucceeds(rows: seq<seq<string>>, index: nat, parse: string -> Option<real>)
    ensures SortTable(rows, index, parse).Success? <==> Matrix.Columns(rows) > 0 && index < |rows|
  {
  }

  /** The result has as many rows as the input, each as long as the shortest input row,
      and its columns are the input columns, reordered, each with its cells intact. */
  lemma SortTableIsPermutation(rows: seq<seq<string>>, index: nat, parse: string -> Option<real>)
    requires SortTable(rows, index, parse).Success?
    ensures var out := SortTable(rows, index, parse).value;
      && |out| == |rows|
      && (forall i :: 0 <= i < |out| ==> |out[i]| == Matrix.Columns(rows))
      && multiset(Transpose(out)) == multiset(Transpose(rows))
  {
    var cols := Transpose(rows);
    var le := Descending(index, parse);
    SortedColumnsHeight(cols, |rows|, le);
    TransposeRows(StableSort(cols, le), |rows|);
  }

  /** Columns come out largest key first, and columns with equal keys keep their input order. */
  lemma SortTableOrder(rows: seq<seq<string>>, index: nat, parse: string -> Option<real>, k: seq<string>)
    requires SortTable(rows, index, parse).Success?
    ensures var out := SortTable(rows, index, parse).value;
      && (forall c1, c2 :: 0 <= c1 < c2 < |out[index]| ==>
            AtLeast(KeyOf(out[index][c1], parse), KeyOf(out[index][c2], parse)))
      && Ties(Transpose(out), k, Descending(index, parse)) == Ties(Transpose(rows), k, Descending(index, parse))
  {
    var cols := Transpose(rows);
    var le := Descending(index, parse);
    DescendingIsPreorder(index, parse);
    SortedColumnsHeight(cols, |rows|, le);
    var sorted := StableSort(cols, le);
    TransposeRows(sorted, |rows|);
    StableSortSorted(cols, le);
    StableSortStable(cols, k, le);
    var out := Rows(sorted, |rows|);
    forall c1, c2 | 0 <= c1 < c2 < |out[index]|
      ensures AtLeast(KeyOf(out[index][c1], parse), KeyOf(out[index][c2], parse))
    {
      assert le(sorted[c1], sorted[c2]);
      assert out[index][c1] == sorted[c1][index] && out[index][c2] == sorted[c2][index];
    }
  }

  /** When the first column's cell in row `index` is not a number (the label column),
      the first column stays first. */
  lemma SortTableKeepsLabelFirst(rows: seq<seq<string>>, index: nat, parse: string -> Option<real>)
    requires SortTable(rows, index, parse).Success?
    requires parse(rows[index][0]) == None
    ensures var out := SortTable(rows, index, parse).value;
      forall i :: 0 <= i < |rows| ==> out[i][0] == rows[i][0]
  {
    var cols := Transpose(rows);
    var le := Descending(index, parse);
    DescendingIsPreorder(index, parse);
    assert KeyAt(cols[0], index, parse) == Infinite;
    FirstStaysFirst(cols, le);
  }

  /** Python's float() rejects "1,234": every count of 1000 or more, as format_number
      prints it, sorts like a non-number. */
  lemma GroupedCellIsInfinite(n: int, parse: string -> Option<real>)
    requires n >= 1000
    requires forall s :: ',' in s ==> parse(s) == None
    ensures KeyOf(FormatInt(n), parse) == Infinite
  {
    GroupedHasComma(n);
  }

  // ---------------------------------------------------------------------------
  // english_list

  /** english_list: 'None', the item, "a andor b", or "a, b, andor c". */
  function EnglishList(items: seq<string>, andor: string := "and"): (r: string)
    ensures |items| == 0 ==> r == "None"
    ensures |items| == 1 ==> r == items[0]
    ensures |items| >= 2 ==> items[0] <= r && EndsWith(r, " " + andor + " " + items[|items| - 1])
  {
    var n := |items|;
    if n == 0 then "None"
    else if n == 1 then items[0]
    else if n == 2 then
      var sep := " " + andor + " ";
      assert items[1..] == [items[1]];
      assert Join(items[1..], sep) == items[1];
      items[0] + sep + items[1]
    else
      var body := Join(items[..n - 1], ", ");
      JoinStartsWith(items[..n - 1], ", ");
      body + ", " + andor + " " + items[n - 1]
  }

  predicate EndsWith(s: string, t: string)
  {
    |t| <= |s| && s[|s| - |t|..] == t
  }

  lemma {:induction false} JoinStartsWith(parts: seq<string>, sep: string)
    requires |parts| > 0
    ensures |Join(parts, sep)| >= |parts[0]| && Join(parts, sep)[..|parts[0]|] == parts[0]
  {
  }

  /** english_list's length for two items: both items and " andor " between them. */
  lemma EnglishListLengthTwo(items: seq<string>, andor: string)
    requires |items| == 2
    ensures |EnglishList(items, andor)| == |items[0]| + |items[1]| + |andor| + 2
  {
    assert EnglishList(items, andor) == items[0] + " " + andor + " " + items[1];
  }

  /** english_list's length for three or more items: the items, ", " after every leading item
      and "andor " before the last one. */
  lemma EnglishListLengthMore(items: seq<string>, andor: string)
    requires |items| >= 3
    ensures |EnglishList(items, andor)| == TotalLength(items) + 2 * (|items| - 1) + |andor| + 1
  {
    var n := |items|;
    var body := Join(items[..n - 1], ", ");
    TotalLengthSplit(items);
    JoinLength(items[..n - 1], ", ");
    assert |body| == TotalLength(items[..n - 1]) + 2 * (n - 2);
    assert EnglishList(items, andor) == body + ", " + andor + " " + items[n - 1];
  }

  /** For three or more items without commas, splitting the text on ',' gives every leading
      item back, each after the first with the space of its ", ", and then " andor last". */
  lemma EnglishListParts(items: seq<string>, andor: string)
    requires |items| >= 3
    requires ',' !in andor && forall i :: 0 <= i < |items| ==> ',' !in items[i]
    ensures var parts := Split(EnglishList(items, andor), ',');
      && |parts| == |items|
      && parts[0] == items[0]
      && (forall k :: 1 <= k < |items| - 1 ==> parts[k] == " " + items[k])
      && parts[|items| - 1] == " " + andor + " " + items[|items| - 1]
  {
    var n := |items|;
    var last := " " + andor + " " + items[n - 1];
    assert EnglishList(items, andor) == "" + Join(items[..n - 1], ", ") + "," + last;
    SplitCommaList("", items[..n - 1], last);
  }

  /** `pre + ", ".join(parts) + "," + t` splits on ',' into pre + the first part, each further
      part after a space, and t. */
  lemma {:induction false} SplitCommaList(pre: string, parts: seq<string>, t: string)
    requires |parts| > 0
    requires ',' !in pre && ',' !in t && forall i :: 0 <= i < |parts| ==> ',' !in parts[i]
    ensures Split(pre + Join(parts, ", ") + "," + t, ',') ==
      [pre + parts[0]] + seq(|parts| - 1, k requires 0 <= k < |parts| - 1 => " " + parts[k + 1]) + [t]
    decreases |parts|
  {
    var head := pre + parts[0];
    if |parts| == 1 {
      assert pre + Join(parts, ", ") + "," + t == head + [','] + t;
      SplitAfterPart(head, ',', t);
      SplitNoSeparator(t, ',');
    } else {
      var rest := " " + Join(parts[1..], ", ") + "," + t;
      assert pre + Join(parts, ", ") + "," + t == head + [','] + rest;
      SplitAfterPart(head, ',', rest);
      SplitCommaList(" ", parts[1..], t);
      var tail := seq(|parts| - 1, k requires 0 <= k < |parts| - 1 => " " + parts[k + 1]);
      var tail' := seq(|parts[1..]| - 1, k requires 0 <= k < |parts[1..]| - 1 => " " + parts[1..][k + 1]);
      assert tail == [" " + parts[1..][0]] + tail';
    }
  }

  lemma {:induction false} TotalLengthSplit(items: seq<string>)
    requires |items| > 0
    ensures TotalLength(items) == TotalLength(items[..|items| - 1]) + |items[|items| - 1]|
  {
    if |items| > 1 {
      TotalLengthSplit(items[1..]);
      assert items[1..][..|items[1..]| - 1] == items[..|items| - 1][1..];
    }
  }

  // ---------------------------------------------------------------------------
  // format_delta

  /** `str.upper()` on ASCII letters. */
  function Upper(s: string): (r: string)
    ensures |r| == |s|
  {
    seq(|s|, i requires 0 <= i < |s| => if 'a' <= s[i] <= 'z' then (s[i] as int - 32) as char else s[i])
  }

  /** A unit length in seconds; never zero, so it can be divided by. */
  type Positive = n: nat | n > 0 witness 1

  /** A requested unit: the letter format_delta looks for and the number of seconds it counts. */
  datatype Unit = Unit(letter: char, seconds: Positive)

  const Units: seq<Unit> := [Unit('D', 86400), Unit('H', 3600), Unit('M', 60), Unit('S', 1)]

  /** The amount of each requested unit, largest unit first; what a unit takes away is no longer
      there for the next one, and what an absent unit would have taken stays for the next. */
  function Breakdown(time: int, units: seq<Unit>, format: string): seq<(int, char)>
    decreases |units|
  {
    if |units| == 0 then []
    else if units[0].letter in format then
      [(time / units[0].seconds, units[0].letter)] + Breakdown(time % units[0].seconds, units[1..], format)
    else Breakdown(time, units[1..], format)
  }

  function Lower(letter: char): char
  {
    if 'A' <= letter <= 'Z' then (letter as int + 32) as char else letter
  }

  /** `'{}d'.format(days)` and the like. */
  function Part(amount: int, letter: char): string
  {
    IntToString(amount) + [Lower(letter)]
  }

  /** `re.match(r'^0[dhms]', x)`. */
  predicate Omitted(part: string)
  {
    |part| >= 2 && part[0] == '0' && part[1] in "dhms"
  }

  function Shown(b: seq<(int, char)>): seq<string>
  {
    if |b| == 0 then []
    else
      var p := Part(b[0].0, b[0].1);
      (if Omitted(p) then [] else [p]) + Shown(b[1..])
  }

  function FormatDelta(seconds: int, format: string): string
  {
    Join(Shown(Breakdown(seconds, Units, Upper(format))), " ")
  }

  /** tools.format_delta, for a duration of `seconds` whole seconds. */
  method FormatDeltaMethod(seconds: int, desiredFormat: string) returns (r: string)
    ensures r == FormatDelta(seconds, desiredFormat)
  {
    var format := Upper(desiredFormat);
    var result := Amounts(seconds, format);
    r := Join(Shown(result), " ");
  }

  /** One step of format_delta: when unit k is requested, its whole amount is taken off the
      time left; otherwise the time is left as it is. Either way what the step takes, followed
      by what the later steps take from the rest, is what all steps from k on take. */
  method Take(time: int, k: nat, format: string) returns (rest: int, taken: seq<(int, char)>)
    requires k < |Units|
    ensures taken + Breakdown(rest, Units[k + 1..], format) == Breakdown(time, Units[k..], format)
    ensures |taken| <= 1
  {
    BreakdownUnfold(time, k, format);
    var unit := Units[k];
    rest := time;
    taken := [];
    if unit.letter in format {
      var amount := time / unit.seconds;
      rest := time - amount * unit.seconds;
      taken := [(amount, unit.letter)];
    }
  }

  /** The four steps of format_delta (days, hours, minutes, seconds) that take the requested
      units off the duration. */
  method Amounts(seconds: int, format: string) returns (result: seq<(int, char)>)
    ensures result == Breakdown(seconds, Units, format)
  {
    var time, taken;
    assert Units[0..] == Units;
    time, result := Take(seconds, 0, format);
    time, taken := Take(time, 1, format);
    assert result + taken + Breakdown(time, Units[2..], format) == Breakdown(seconds, Units, format);
    result := result + taken;
    time, taken := Take(time, 2, format);
    assert result + taken + Breakdown(time, Units[3..], format) == Breakdown(seconds, Units, format);
    result := result + taken;
    time, taken := Take(time, 3, format);
    assert Units[4..] == [];
    result := result + taken;
  }


  lemma BreakdownUnfold(time: int, k: nat, format: string)
    requires k < 4
    ensures Breakdown(time, Units[k..], format) ==
      if Units[k].letter in format
      then [(time / Units[k].seconds, Units[k].letter)] + Breakdown(time % Units[k].seconds, Units[k + 1..], format)
      else Breakdown(time, Units[k + 1..], format)
  {
    assert Units[k..][1..] == Units[k + 1..];
  }

  /** "dhms" splits any number of seconds into days, hours below 24, minutes and seconds below 60. */
  lemma DhmsDecomposition(n: int)
    ensures var b := Breakdown(n, Units, "DHMS");
      && |b| == 4
      && b[0].1 == 'D' && b[1].1 == 'H' && b[2].1 == 'M' && b[3].1 == 'S'
      && b[0].0 * 86400 + b[1].0 * 3600 + b[2].0 * 60 + b[3].0 == n
      && 0 <= b[1].0 < 24 && 0 <= b[2].0 < 60 && 0 <= b[3].0 < 60
  {
    var t1 := n % 86400;
    var t2 := t1 % 3600;
    BreakdownUnfold(n, 0, "DHMS");
    BreakdownUnfold(t1, 1, "DHMS");
    BreakdownUnfold(t2, 2, "DHMS");
    BreakdownUnfold(t2 % 60, 3, "DHMS");
    assert Units[4..] == [];
    assert n == (n / 86400) * 86400 + t1;
    assert t1 == (t1 / 3600) * 3600 + t2;
    assert t2 == (t2 / 60) * 60 + t2 % 60;
  }

  /** The letters of the format are case-insensitive. */
  lemma UpperFinds(format: string, lower: char)
    requires 'a' <= lower <= 'z'
    ensures ((lower as int - 32) as char in Upper(format)) <==> (lower in format || (lower as int - 32) as char in format)
  {
    var up := (lower as int - 32) as char;
    if up in Upper(format) {
      var i :| 0 <= i < |format| && Upper(format)[i] == up;
      assert format[i] == lower || format[i] == up;
    }
    if lower in format {
      var i :| 0 <= i < |format| && format[i] == lower;
      assert Upper(format)[i] == up;
    }
    if up in format {
      var i :| 0 <= i < |format| && format[i] == up;
      assert Upper(format)[i] == up;
    }
  }

  /** Only which unit letters the format holds matters: not their order, not repetitions. */
  lemma {:induction false} BreakdownIgnoresOrder(time: int, units: seq<Unit>, f1: string, f2: string)
    requires forall i :: 0 <= i < |units| ==> (units[i].letter in f1 <==> units[i].letter in f2)
    ensures Breakdown(time, units, f1) == Breakdown(time, units, f2)
    decreases |units|
  {
    if |units| > 0 {
      BreakdownIgnoresOrder(time % units[0].seconds, units[1..], f1, f2);
      BreakdownIgnoresOrder(time, units[1..], f1, f2);
    }
  }

  /** A part is left out exactly when its amount is zero. */
  lemma OmittedIffZero(amount: int, letter: char)
    requires letter in "DHMS"
    ensures Omitted(Part(amount, letter)) <==> amount == 0
  {
    var s := IntToString(amount);
    if amount != 0 {
      assert Part(amount, letter)[0] == s[0];
    }
  }

  /** The seconds of unit `letter`. */
  function Size(units: seq<Unit>, letter: char): nat
  {
    if |units| == 0 then 0
    else if units[0].letter == letter then units[0].seconds
    else Size(units[1..], letter)
  }

  /** The seconds the amounts stand for. */
  function Value(b: seq<(int, char)>, units: seq<Unit>): int
  {
    if |b| == 0 then 0 else b[0].0 * Size(units, b[0].1) + Value(b[1..], units)
  }

  /** What is left below the smallest requested unit. */
  function Rest(time: int, units: seq<Unit>, format: string): int
    decreases |units|
  {
    if |units| == 0 then time
    else if units[0].letter in format then Rest(time % units[0].seconds, units[1..], format)
    else Rest(time, units[1..], format)
  }

  predicate DistinctLetters(units: seq<Unit>)
  {
    forall i, j :: 0 <= i < j < |units| ==> units[i].letter != units[j].letter
  }

  lemma {:induction false} ValueTail(b: seq<(int, char)>, units: seq<Unit>)
    requires |units| > 0
    requires forall i :: 0 <= i < |b| ==> b[i].1 != units[0].letter
    ensures Value(b, units) == Value(b, units[1..])
  {
    if |b| > 0 {
      ValueTail(b[1..], units);
    }
  }

  /** A letter no unit carries never shows up in the breakdown. */
  lemma {:induction false} BreakdownLetters(time: int, units: seq<Unit>, format: string, c: char)
    requires forall i :: 0 <= i < |units| ==> units[i].letter != c
    ensures forall i :: 0 <= i < |Breakdown(time, units, format)| ==> Breakdown(time, units, format)[i].1 != c
    decreases |units|
  {
    if |units| > 0 {
      var t := if units[0].letter in format then time % units[0].seconds else time;
      BreakdownLetters(t, units[1..], format, c);
      var tail := Breakdown(t, units[1..], format);
      if units[0].letter in format {
        var b := [(time / units[0].seconds, units[0].letter)] + tail;
        assert Breakdown(time, units, format) == b;
        forall i | 0 <= i < |b| ensures b[i].1 != c {
          if i > 0 { assert b[i] == tail[i - 1]; } else { assert units[0].letter != c; }
        }
      }
    }
  }

  /** The requested amounts, counted in seconds, plus what is left below the smallest requested
      unit, give back the duration: an absent larger unit is carried into the next requested one. */
  lemma {:induction false} BreakdownTotal(time: int, units: seq<Unit>, format: string)
    requires DistinctLetters(units)
    ensures Value(Breakdown(time, units, format), units) + Rest(time, units, format) == time
    decreases |units|
  {
    if |units| > 0 {
      var u := units[0];
      var t := if u.letter in format then time % u.seconds else time;
      var tail := Breakdown(t, units[1..], format);
      BreakdownTotal(t, units[1..], format);
      BreakdownLetters(t, units[1..], format, u.letter);
      ValueTail(tail, units);
      if u.letter in format {
        assert Breakdown(time, units, format) == [(time / u.seconds, u.letter)] + tail;
        assert ([(time / u.seconds, u.letter)] + tail)[1..] == tail;
        assert time == (time / u.seconds) * u.seconds + time % u.seconds;
      }
    }
  }

  // ---------------------------------------------------------------------------
  // clean_list

  const Bad: seq<string> := ["", "\t", "\n", "<br/>"]

  /** Where the tag opened at s[0] closes: the first '>' after it, unless a newline comes first
      (`.` in `<.*?>` does not match a newline). */
  function TagEnd(s: string, j: nat): (r: Option<nat>)
    requires 1 <= j <= |s|
    ensures r.Some? ==> j <= r.value < |s| && s[r.value] == '>'
    ensures r.Some? ==> forall k :: j <= k < r.value ==> s[k] != '>' && s[k] != '\n'
    ensures r.None? ==> forall k :: j <= k < |s| && s[k] == '>' ==> '\n' in s[j..k]
    decreases |s| - j
  {
    if j == |s| then None
    else if s[j] == '>' then Some(j)
    else if s[j] == '\n' then None
    else
      var r := TagEnd(s, j + 1);
      assert r.None? ==> forall k :: j + 1 <= k < |s| && s[k] == '>' ==> s[j + 1..k] <= s[j..k][1..];
      r
  }

  /** `re.sub(r'<.*?>', '', s)`. */
  function StripTags(s: string): (r: string)
    ensures |r| <= |s|
    decreases |s|
  {
    if |s| == 0 then ""
    else if s[0] == '<' && TagEnd(s, 1).Some? then StripTags(s[TagEnd(s, 1).value + 1..])
    else [s[0]] + StripTags(s[1..])
  }

  lemma {:induction false} StripTagsNoTags(s: string)
    requires '<' !in s
    ensures StripTags(s) == s
  {
    if |s| > 0 {
      StripTagsNoTags(s[1..]);
      assert [s[0]] + s[1..] == s;
    }
  }

  /** No '>' comes before the first newline. */
  predicate NoClose(t: string)
  {
    forall j :: 0 <= j < |t| && t[j] == '>' ==> '\n' in t[..j]
  }

  /** No '<' is followed by a '>' on the same line: no tag is left. */
  predicate TagFree(r: string)
  {
    forall i :: 0 <= i < |r| && r[i] == '<' ==> NoClose(r[i + 1..])
  }

  lemma {:induction false} StripTagsKeepsNoClose(t: string)
    requires NoClose(t)
    ensures NoClose(StripTags(t))
    decreases |t|
  {
    if |t| > 0 {
      if t[0] == '<' && TagEnd(t, 1).Some? {
        assert false;
      } else {
        var rest := t[1..];
        var r := StripTags(t);
        assert r == [t[0]] + StripTags(rest);
        if t[0] != '\n' {
          assert t[0] != '>' by {
            assert t[..0] == [];
          }
          forall j | 0 <= j < |rest| && rest[j] == '>' ensures '\n' in rest[..j] {
            assert t[j + 1] == '>';
            assert '\n' in t[..j + 1];
            assert t[..j + 1] == [t[0]] + rest[..j];
          }
          StripTagsKeepsNoClose(rest);
          forall j | 0 <= j < |r| && r[j] == '>' ensures '\n' in r[..j] {
            assert j > 0;
            var R := StripTags(rest);
            assert R[j - 1] == '>';
            assert '\n' in R[..j - 1];
            assert r[..j] == [t[0]] + R[..j - 1];
          }
        } else {
          forall j | 0 <= j < |r| && r[j] == '>' ensures '\n' in r[..j] {
            assert r[0] == '\n';
            assert j > 0;
            assert r[..j][0] == '\n';
          }
        }
      }
    }
  }

  /** After `re.sub(r'<.*?>', '', s)` no tag is left on any line. */
  lemma {:induction false} StripTagsTagFree(s: string)
    ensures TagFree(StripTags(s))
    decreases |s|
  {
    if |s| > 0 {
      if s[0] == '<' && TagEnd(s, 1).Some? {
        StripTagsTagFree(s[TagEnd(s, 1).value + 1..]);
      } else {
        var rest := s[1..];
        var R := StripTags(rest);
        var r := [s[0]] + R;
        StripTagsTagFree(rest);
        if s[0] == '<' {
          forall j | 0 <= j < |rest| && rest[j] == '>' ensures '\n' in rest[..j] {
            assert s[j + 1] == '>';
            assert '\n' in s[1..j + 1];
            assert s[1..j + 1] == rest[..j];
          }
          StripTagsKeepsNoClose(rest);
        }
        forall i | 0 <= i < |r| && r[i] == '<' ensures NoClose(r[i + 1..]) {
          if i > 0 {
            assert R[i - 1] == '<';
            assert r[i + 1..] == R[i..];
          } else {
            assert r[1..] == R;
          }
        }
      }
    }
  }

  function CleanList(cards: seq<string>): seq<string>
  {
    if |cards| == 0 then []
    else
      var last := cards[|cards| - 1];
      CleanList(cards[..|cards| - 1]) + (if last in Bad then [] else [StripTags(last)])
  }

  /** tools.clean_list. */
  method CleanListMethod(cards: seq<string>) returns (result: seq<string>)
    ensures result == CleanList(cards)
  {
    result := [];
    var i := 0;
    while i < |cards|
      invariant 0 <= i <= |cards|
      invariant result == CleanList(cards[..i])
    {
      assert cards[..i + 1][..i] == cards[..i];
      var text := cards[i];
      if text !in Bad {
        result := result + [StripTags(text)];
      }
      i := i + 1;
    }
    assert cards[..i] == cards;
  }

  function KeptCount(cards: seq<string>): nat
  {
    if |cards| == 0 then 0
    else KeptCount(cards[..|cards| - 1]) + (if cards[|cards| - 1] in Bad then 0 else 1)
  }

  /** clean_list keeps one entry per input that is not exactly '', '\t', '\n' or '<br/>', in order,
      each with its tags stripped and none left. */
  lemma {:induction false} CleanListKeeps(cards: seq<string>)
    ensures |CleanList(cards)| == KeptCount(cards)
    ensures forall i :: 0 <= i < |CleanList(cards)| ==> TagFree(CleanList(cards)[i])
    ensures forall i :: 0 <= i < |cards| && cards[i] !in Bad && '<' !in cards[i] ==> cards[i] in CleanList(cards)
  {
    if |cards| > 0 {
      var init, last := cards[..|cards| - 1], cards[|cards| - 1];
      CleanListKeeps(init);
      StripTagsTagFree(last);
      if last !in Bad && '<' !in last {
        StripTagsNoTags(last);
      }
      forall i | 0 <= i < |cards| - 1 ensures cards[i] == init[i] { }
    }
  }

  /** The test clean_list filters by: an entry is kept unless it is exactly '', '\t', '\n' or '<br/>'. */
  predicate Kept(card: string)
  {
    card !in Bad
  }

  /** clean_list filters first and strips afterwards: its result is the kept entries, in order,
      each with its tags stripped; so an entry made only of tags leaves an empty string. */
  lemma {:induction false} CleanListFilterThenStrip(cards: seq<string>)
    ensures |CleanList(cards)| == |Seqs.Filter(cards, Kept)|
    ensures forall i :: 0 <= i < |CleanList(cards)| ==>
      CleanList(cards)[i] == StripTags(Seqs.Filter(cards, Kept)[i])
  {
    if |cards| > 0 {
      CleanListFilterThenStrip(cards[..|cards| - 1]);
    }
  }

  // ---------------------------------------------------------------------------
  // get_today_tomorrow

  /** Naive datetimes as microseconds since a midnight; one day of them. */
  const Day: int := 86_400_000_000

  datatype RelativeDay = Today | Tomorrow | Yesterday | OnDate

  /** get_today_tomorrow with `now` given; OnDate stands for the strftime fallback. */
  function TodayTomorrow(date: int, now: int): (r: RelativeDay)
    ensures r == Today <==> date / Day == now / Day
    ensures r == Tomorrow <==> date / Day == now / Day + 1
    ensures r == Yesterday <==> date / Day == now / Day - 1
  {
    var today := now - now % Day;
    var tomorrow := today + Day;
    var twoDays := tomorrow + Day;
    if today <= date < tomorrow then Today
    else if tomorrow <= date < twoDays then Tomorrow
    else if date <= today && today - date <= Day then Yesterday
    else OnDate
  }
}

/**
 * A CSV table: a header row and data rows, with rules that rewrite cell values by pattern and a
 * grouping of the rows by one column. Pattern matching and substitution are parameters, standing
 * for the regular-expression engine.
 */
module Csv {
  import opened Wrappers
  import opened Strings
  import A = Aggregator

  /** A `RegExp` object: rules are keyed by the object, not by its text. */
  class Pattern {
    const source: string

    constructor(source: string)
      ensures this.source == source
    {
      this.source := source;
    }
  }

  /** The entries of a `Map<RegExp, string>`, in insertion order. */
  type Rules = seq<(Pattern, string)>

  function Keys(rules: Rules): seq<Pattern> {
    seq(|rules|, i requires 0 <= i < |rules| => rules[i].0)
  }

  /** The value stored under `pattern`, if any. */
  function Lookup(rules: Rules, pattern: Pattern): Option<string> {
    var i := A.IndexOf(Keys(rules), pattern);
    if i == -1 then None else Some(rules[i].1)
  }

  /** `Map.prototype.set`: a key already present keeps its place and takes the new value; a new key goes last. */
  function Put(rules: Rules, pattern: Pattern, value: string): Rules {
    var i := A.IndexOf(Keys(rules), pattern);
    if i == -1 then rules + [(pattern, value)] else rules[i := (pattern, value)]
  }

  /** After `Put`, the map is the old map with `pattern` set to `value`: keys stay distinct, the other entries stay. */
  lemma PutIsSet(rules: Rules, pattern: Pattern, value: string)
    requires A.Distinct(Keys(rules))
    ensures A.Distinct(Keys(Put(rules, pattern, value)))
    ensures Lookup(Put(rules, pattern, value), pattern) == Some(value)
    ensures forall q :: q != pattern ==> Lookup(Put(rules, pattern, value), q) == Lookup(rules, q)
    ensures Keys(Put(rules, pattern, value)) == if pattern in Keys(rules) then Keys(rules) else Keys(rules) + [pattern]
  {
    var r := Put(rules, pattern, value);
    if pattern in Keys(rules) {
      assert Keys(r) == Keys(rules);
    } else {
      assert Keys(r) == Keys(rules) + [pattern];
    }
    forall q | q != pattern
      ensures Lookup(r, q) == Lookup(rules, q)
    {
      var i, j := A.IndexOf(Keys(rules), q), A.IndexOf(Keys(r), q);
      assert i == j by {
        if i == -1 {
          assert q !in Keys(r);
        } else {
          assert Keys(r)[i] == q;
          assert Keys(r)[..i] == Keys(rules)[..i];
        }
      }
    }
  }

  /** The position of the first rule whose pattern matches `value`. */
  function FirstMatch(rules: Rules, value: string, matches: (Pattern, string) -> bool): (r: Option<nat>)
    ensures r.None? <==> forall i :: 0 <= i < |rules| ==> !matches(rules[i].0, value)
    ensures r.Some? ==> r.value < |rules| && matches(rules[r.value].0, value) &&
                        forall i :: 0 <= i < r.value ==> !matches(rules[i].0, value)
  {
    if |rules| == 0 then None
    else if matches(rules[0].0, value) then Some(0)
    else
      match FirstMatch(rules[1..], value, matches)
      case None => None
      case Some(i) => Some(i + 1)
  }

  /** What `replaceValue` gives: the first matching replacer's substitution, or the value as it is. */
  function Replaced(rules: Rules, value: string, matches: (Pattern, string) -> bool,
                    substitute: (Pattern, string, string) -> string): string
  {
    match FirstMatch(rules, value, matches)
    case None => value
    case Some(i) => substitute(rules[i].0, value, rules[i].1)
  }

  /** What `convertValue` gives: the first matching converter's value, or the value as it is. */
  function Converted(rules: Rules, value: string, matches: (Pattern, string) -> bool): string {
    match FirstMatch(rules, value, matches)
    case None => value
    case Some(i) => rules[i].1
  }

  /** The first matching converter decides: rules added after it never change the result. */
  lemma ConvertedByFirst(rules: Rules, more: Rules, i: nat, value: string, matches: (Pattern, string) -> bool)
    requires i < |rules| && matches(rules[i].0, value)
    requires forall k :: 0 <= k < i ==> !matches(rules[k].0, value)
    ensures Converted(rules, value, matches) == rules[i].1
    ensures Converted(rules + more, value, matches) == rules[i].1
  {
    var all := rules + more;
    assert all[i] == rules[i];
    assert forall k :: 0 <= k < i ==> all[k] == rules[k];
  }

  /** The key `aggregateBy` files a cell under: trimmed, then replaced, then converted. */
  function GroupKey(replacers: Rules, converters: Rules, cell: string, matches: (Pattern, string) -> bool,
                    substitute: (Pattern, string, string) -> string): string
  {
    Converted(converters, Replaced(replacers, Trim(cell), matches, substitute), matches)
  }

  /**
   * The additions `history` filed the first rows of `rows`, in order: each row under the key
   * of its cell at `index`, which it has.
   */
  ghost predicate Filed(history: seq<(string, A.Record)>, rows: seq<A.Record>, index: int, replacers: Rules,
                        converters: Rules, matches: (Pattern, string) -> bool,
                        substitute: (Pattern, string, string) -> string)
  {
    |history| <= |rows| &&
    forall k :: 0 <= k < |history| ==> FiledRow(history[k], rows[k], index, replacers, converters, matches, substitute)
  }

  /** One addition filed `row`: under the key of its cell at `index`, which it has. */
  ghost predicate FiledRow(entry: (string, A.Record), row: A.Record, index: int, replacers: Rules,
                           converters: Rules, matches: (Pattern, string) -> bool,
                           substitute: (Pattern, string, string) -> string)
  {
    0 <= index < |row| && entry == (GroupKey(replacers, converters, row[index], matches, substitute), row)
  }

  /** Every row has a cell at `index`. */
  predicate CellsAt(rows: seq<A.Record>, index: int) {
    forall i :: 0 <= i < |rows| ==> Has(rows[i], index)
  }

  /** A row has a cell at `index`. */
  predicate Has(row: A.Record, index: int) {
    0 <= index < |row|
  }

  /** Rows all filed have the cell their key was read from. */
  lemma FiledHasCells(history: seq<(string, A.Record)>, rows: seq<A.Record>, index: int, replacers: Rules,
                      converters: Rules, matches: (Pattern, string) -> bool,
                      substitute: (Pattern, string, string) -> string)
    requires Filed(history, rows, index, replacers, converters, matches, substitute) && |history| == |rows|
    ensures CellsAt(rows, index)
  {
    forall k | 0 <= k < |rows|
      ensures Has(rows[k], index)
    {
      assert FiledRow(history[k], rows[k], index, replacers, converters, matches, substitute);
    }
  }

  lemma FiledOneMore(history: seq<(string, A.Record)>, rows: seq<A.Record>, index: int, replacers: Rules,
                     converters: Rules, matches: (Pattern, string) -> bool,
                     substitute: (Pattern, string, string) -> string, key: string)
    requires Filed(history, rows, index, replacers, converters, matches, substitute)
    requires |history| < |rows| && 0 <= index < |rows[|history|]|
    requires key == GroupKey(replacers, converters, rows[|history|][index], matches, substitute)
    ensures Filed(history + [(key, rows[|history|])], rows, index, replacers, converters, matches, substitute)
  {
    var more := history + [(key, rows[|history|])];
    forall k | 0 <= k < |history|
      ensures more[k] == history[k]
    {
    }
  }

  class Csv {
    var header: seq<string>
    var rows: seq<A.Record>
    var replacers: Rules
    var converters: Rules

    ghost predicate Valid()
      reads this
    {
      A.Distinct(Keys(replacers)) && A.Distinct(Keys(converters))
    }

    constructor()
      ensures Valid() && header == [] && rows == [] && replacers == [] && converters == []
    {
      header := [];
      rows := [];
      replacers := [];
      converters := [];
    }

    /** The end of `fromText`: the first parsed row is the header, the rest are the data rows. */
    static method FromParsedRows(parsed: seq<A.Record>) returns (c: Csv)
      requires |parsed| > 0
      ensures fresh(c) && c.Valid() && c.replacers == [] && c.converters == []
      ensures [c.header] + c.rows == parsed
    {
      c := new Csv();
      c.SetData(parsed[0], parsed[1..]);
    }

    method SetData(header: seq<string>, rows: seq<A.Record>)
      modifies this`header, this`rows
      ensures this.header == header && this.rows == rows
      ensures ColumnCount() == |header| && RowCount() == |rows|
    {
      this.header := header;
      this.rows := rows;
    }

    function ColumnCount(): nat
      reads this
    {
      |header|
    }

    function RowCount(): nat
      reads this
    {
      |rows|
    }

    /** `replace` with a `RegExp`: sets the replacement for that object. */
    method Replace(pattern: Pattern, replacement: string)
      requires Valid()
      modifies this`replacers
      ensures Valid() && replacers == Put(old(replacers), pattern, replacement)
    {
      PutIsSet(replacers, pattern, replacement);
      replacers := Put(replacers, pattern, replacement);
    }

    /** `replace` with a string: a new `RegExp` is made from it, so the rule is always added last. */
    method ReplaceText(source: string, replacement: string) returns (pattern: Pattern)
      requires Valid()
      modifies this`replacers
      ensures fresh(pattern) && pattern.source == source
      ensures Valid() && replacers == old(replacers) + [(pattern, replacement)]
    {
      pattern := new Pattern(source);
      assert pattern !in Keys(replacers);
      Replace(pattern, replacement);
    }

    /** `convert` with a `RegExp`: sets the converted value for that object. */
    method Convert(pattern: Pattern, replacement: string)
      requires Valid()
      modifies this`converters
      ensures Valid() && converters == Put(old(converters), pattern, replacement)
    {
      PutIsSet(converters, pattern, replacement);
      converters := Put(converters, pattern, replacement);
    }

    /** `convert` with a string: a new `RegExp` is made from it, so the rule is always added last. */
    method ConvertText(source: string, replacement: string) returns (pattern: Pattern)
      requires Valid()
      modifies this`converters
      ensures fresh(pattern) && pattern.source == source
      ensures Valid() && converters == old(converters) + [(pattern, replacement)]
    {
      pattern := new Pattern(source);
      assert pattern !in Keys(converters);
      Convert(pattern, replacement);
    }

    /** `getColumnIndex`: the first column with that name, which fails when there is none. */
    function GetColumnIndex(columnName: string): (r: Result<nat, string>)
      reads this
      ensures r.Ok? <==> columnName in header
      ensures r.Ok? ==> r.value < |header| && header[r.value] == columnName && columnName !in header[..r.value]
      ensures r.Err? ==> r.error == "Column \"" + columnName + "\" not found"
    {
      var index := A.IndexOf(header, columnName);
      if index == -1 then Err("Column \"" + columnName + "\" not found") else Ok(index)
    }

    /**
     * `getRowValue`: the cell of a column in a row. An unknown column fails first, then a row
     * outside the table; a row shorter than the header gives `undefined`.
     */
    function GetRowValue(rowIndex: int, columnName: string): (r: Result<Option<string>, string>)
      reads this
      ensures columnName !in header ==> r == Err("Column \"" + columnName + "\" not found")
      ensures columnName in header && !(0 <= rowIndex < |rows|) ==> r == Err("Row #" + IntToString(rowIndex) + " not found")
      ensures columnName in header && 0 <= rowIndex < |rows| ==>
                r.Ok? && (r.value.Some? <==> A.IndexOf(header, columnName) < |rows[rowIndex]|) &&
                (r.value.Some? ==> r.value.value == rows[rowIndex][A.IndexOf(header, columnName)])
    {
      match GetColumnIndex(columnName)
      case Err(e) => Err(e)
      case Ok(index) =>
        if 0 <= rowIndex < |rows| then Ok(A.Cell(rows[rowIndex], index))
        else Err("Row #" + IntToString(rowIndex) + " not found")
    }

    /** `replaceValue`: the replacers are tried in insertion order and only the first match is applied. */
    method ReplaceValue(value: string, matches: (Pattern, string) -> bool,
                        substitute: (Pattern, string, string) -> string) returns (r: string)
      ensures r == Replaced(replacers, value, matches, substitute)
      ensures (forall i :: 0 <= i < |replacers| ==> !matches(replacers[i].0, value)) ==> r == value
    {
      for i := 0 to |replacers|
        invariant forall k :: 0 <= k < i ==> !matches(replacers[k].0, value)
      {
        var (pattern, replacement) := replacers[i];
        if matches(pattern, value) {
          return substitute(pattern, value, replacement);
        }
      }
      return value;
    }

    /** `convertValue`: the converters are tried in insertion order and the first match gives the value. */
    method ConvertValue(value: string, matches: (Pattern, string) -> bool) returns (r: string)
      ensures r == Converted(converters, value, matches)
      ensures (forall i :: 0 <= i < |converters| ==> !matches(converters[i].0, value)) ==> r == value
    {
      for i := 0 to |converters|
        invariant forall k :: 0 <= k < i ==> !matches(converters[k].0, value)
      {
        var (pattern, replacement) := converters[i];
        if matches(pattern, value) {
          return replacement;
        }
      }
      return value;
    }

    /**
     * `aggregateBy`: every row, in order, goes into a new aggregator under the key of its cell in
     * `column`. With rows present it fails on an unknown column, and on a row too short to have
     * the cell (trimming `undefined`).
     */
    method AggregateBy(column: string, matches: (Pattern, string) -> bool,
                       substitute: (Pattern, string, string) -> string) returns (r: Result<A.Aggregator, string>)
      ensures r.Ok? <==> |rows| == 0 || CellsAt(rows, A.IndexOf(header, column))
      ensures r.Err? && column !in header ==> r.error == "Column \"" + column + "\" not found"
      ensures r.Ok? ==> fresh(r.value) && r.value.Valid() && r.value.headers == header && |r.value.history| == |rows|
      ensures r.Ok? ==> Filed(r.value.history, rows, A.IndexOf(header, column), replacers, converters, matches, substitute)
      ensures r.Ok? ==> A.TotalSize(r.value.history, r.value.keys) == |rows|
    {
      var aggregator := new A.Aggregator(header);
      for i := 0 to |rows|
        invariant fresh(aggregator) && aggregator.Valid() && aggregator.headers == header
        invariant i > 0 ==> column in header
        invariant |aggregator.history| == i
        invariant Filed(aggregator.history, rows, A.IndexOf(header, column), replacers, converters, matches, substitute)
      {
        var failure := FileRow(aggregator, i, column, matches, substitute);
        if failure.Some? {
          return Err(failure.value);
        }
      }
      A.TotalSizeIsRowCount(aggregator.history);
      FiledHasCells(aggregator.history, rows, A.IndexOf(header, column), replacers, converters, matches, substitute);
      return Ok(aggregator);
    }

    /** One pass of the `aggregateBy` loop: the next row goes into `aggregator` under its key. */
    method FileRow(aggregator: A.Aggregator, i: nat, column: string, matches: (Pattern, string) -> bool,
                   substitute: (Pattern, string, string) -> string) returns (failure: Option<string>)
      requires aggregator.Valid() && |aggregator.history| == i < |rows|
      requires Filed(aggregator.history, rows, A.IndexOf(header, column), replacers, converters, matches, substitute)
      modifies aggregator`keys, aggregator`groups, aggregator`history
      ensures failure.None? ==> column in header && aggregator.Valid() && |aggregator.history| == old(|aggregator.history|) + 1
      ensures failure.None? ==> Filed(aggregator.history, rows, A.IndexOf(header, column), replacers, converters, matches, substitute)
      ensures failure.Some? ==> !CellsAt(rows, A.IndexOf(header, column))
      ensures failure.Some? && column !in header ==> failure.value == "Column \"" + column + "\" not found"
    {
      ghost var index := A.IndexOf(header, column);
      var key := RowKey(i, column, matches, substitute);
      if key.Err? {
        assert !Has(rows[i], index);
        return Some(key.error);
      }
      ghost var entry := (key.value, rows[i]);
      assert Filed(aggregator.history + [entry], rows, index, replacers, converters, matches, substitute) by {
        FiledOneMore(aggregator.history, rows, index, replacers, converters, matches, substitute, key.value);
      }
      aggregator.AddRecord(key.value, rows[i]);
      return None;
    }

    /** The key of row `i` in `aggregateBy`, or the error reading its cell raises. */
    method RowKey(i: nat, column: string, matches: (Pattern, string) -> bool,
                  substitute: (Pattern, string, string) -> string) returns (r: Result<string, string>)
      requires i < |rows|
      ensures column !in header ==> r == Err("Column \"" + column + "\" not found")
      ensures column in header ==> (r.Ok? <==> A.IndexOf(header, column) < |rows[i]|)
      ensures r.Ok? ==> r.value == GroupKey(replacers, converters, rows[i][A.IndexOf(header, column)], matches, substitute)
    {
      var cell := GetRowValue(i, column);
      if cell.Err? {
        return Err(cell.error);
      }
      if cell.value.None? {
        return Err("Cannot read properties of undefined (reading 'trim')");
      }
      var value := Trim(cell.value.value);
      value := ReplaceValue(value, matches, substitute);
      value := ConvertValue(value, matches);
      r := Ok(value);
    }
  }
}

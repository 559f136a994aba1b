/**
 * Grouping of rows by a key: an insertion-ordered map from each key to the rows added under it,
 * with lookups that fail on an unknown key or column.
 */
module Aggregator {
  import opened Wrappers

  type Record = seq<string>

  /** `AggregatedRecord`: the rows added under one key, named after it. */
  datatype Group = Group(columnName: string, records: seq<Record>) {
    /** The `size` getter. */
    function Size(): nat {
      |records|
    }
  }

  /** `indexOf`: the first position of `x` in `s`, or -1. */
  function IndexOf<T(==)>(s: seq<T>, x: T): (r: int)
    ensures -1 <= r < |s|
    ensures r == -1 <==> x !in s
    ensures 0 <= r ==> s[r] == x && x !in s[..r]
  {
    if |s| == 0 then -1
    else if s[0] == x then 0
    else
      var r := IndexOf(s[1..], x);
      assert r >= 0 ==> s[1..][..r] == s[1..r + 1];
      if r == -1 then -1 else r + 1
  }

  /** The cell at `index` of a row; reading past the end of a row gives `undefined`. */
  function Cell(record: Record, index: nat): Option<string> {
    if index < |record| then Some(record[index]) else None
  }

  /** The keys of a sequence of additions, in the order each was first added. */
  function KeysOf(history: seq<(string, Record)>): seq<string> {
    if |history| == 0 then []
    else
      var keys := KeysOf(history[..|history| - 1]);
      var key := history[|history| - 1].0;
      if key in keys then keys else keys + [key]
  }

  /** The rows added under `key`, in the order they were added. */
  function RecordsUnder(history: seq<(string, Record)>, key: string): seq<Record> {
    if |history| == 0 then []
    else
      var records := RecordsUnder(history[..|history| - 1], key);
      if history[|history| - 1].0 == key then records + [history[|history| - 1].1] else records
  }

  predicate Distinct<T(==)>(s: seq<T>) {
    forall i, j :: 0 <= i < j < |s| ==> s[i] != s[j]
  }

  /** A key was ever added. */
  predicate Added(history: seq<(string, Record)>, key: string) {
    exists i :: 0 <= i < |history| && history[i].0 == key
  }

  /** The keys are each added key once, and nothing else. */
  lemma {:induction false} KeysOfAdded(history: seq<(string, Record)>)
    ensures Distinct(KeysOf(history))
    ensures forall key :: key in KeysOf(history) <==> Added(history, key)
    decreases |history|
  {
    if |history| > 0 {
      var init := history[..|history| - 1];
      KeysOfAdded(init);
      forall key | Added(history, key)
        ensures key in KeysOf(history)
      {
        var i :| 0 <= i < |history| && history[i].0 == key;
        if i < |init| {
          assert init[i].0 == key;
        }
      }
      forall key | key in KeysOf(history)
        ensures Added(history, key)
      {
        if key in KeysOf(init) {
          var i :| 0 <= i < |init| && init[i].0 == key;
          assert history[i].0 == key;
        } else {
          assert history[|history| - 1].0 == key;
        }
      }
    }
  }

  /** The rows under a key are exactly the rows added with that key. */
  lemma {:induction false} RecordsUnderAdded(history: seq<(string, Record)>, key: string, record: Record)
    ensures record in RecordsUnder(history, key) <==> (key, record) in history
    decreases |history|
  {
    if |history| > 0 {
      var init := history[..|history| - 1];
      RecordsUnderAdded(init, key, record);
      assert history == init + [history[|history| - 1]];
    }
  }

  /** A key has rows under it exactly when it was added. */
  lemma {:induction false} RecordsUnderEmpty(history: seq<(string, Record)>, key: string)
    ensures RecordsUnder(history, key) == [] <==> !Added(history, key)
    decreases |history|
  {
    if |history| > 0 {
      var last := |history| - 1;
      if history[last].0 == key {
        assert Added(history, key);
      } else {
        RecordsUnderEmpty(history[..last], key);
        AddedBeforeLast(history, key);
      }
    }
  }

  lemma AddedBeforeLast(history: seq<(string, Record)>, key: string)
    requires |history| > 0 && history[|history| - 1].0 != key
    ensures Added(history, key) <==> Added(history[..|history| - 1], key)
  {
    var init := history[..|history| - 1];
    if Added(history, key) {
      var i :| 0 <= i < |history| && history[i].0 == key;
      assert init[i].0 == key;
    }
    if Added(init, key) {
      var i :| 0 <= i < |init| && init[i].0 == key;
      assert history[i].0 == key;
    }
  }

  /** The group sizes of a list of keys added up. */
  function TotalSize(history: seq<(string, Record)>, keys: seq<string>): nat {
    if |keys| == 0 then 0 else |RecordsUnder(history, keys[0])| + TotalSize(history, keys[1..])
  }

  lemma {:induction false} TotalSizeAppend(history: seq<(string, Record)>, keys: seq<string>, key: string)
    ensures TotalSize(history, keys + [key]) == TotalSize(history, keys) + |RecordsUnder(history, key)|
    decreases |keys|
  {
    if |keys| > 0 {
      TotalSizeAppend(history, keys[1..], key);
      assert (keys + [key])[1..] == keys[1..] + [key];
    }
  }

  /** One more row under `key`, a member of the distinct `keys`, adds one to their total. */
  lemma {:induction false} TotalSizeGrows(history: seq<(string, Record)>, entry: (string, Record), keys: seq<string>)
    requires Distinct(keys)
    ensures TotalSize(history + [entry], keys) == TotalSize(history, keys) + (if entry.0 in keys then 1 else 0)
    decreases |keys|
  {
    var h := history + [entry];
    assert h[..|h| - 1] == history;
    if |keys| > 0 {
      TotalSizeGrows(history, entry, keys[1..]);
      assert entry.0 in keys <==> entry.0 == keys[0] || entry.0 in keys[1..];
    }
  }

  /** Every row added is in exactly one group: the group sizes add up to the number of rows. */
  lemma {:induction false} TotalSizeIsRowCount(history: seq<(string, Record)>)
    ensures TotalSize(history, KeysOf(history)) == |history|
    decreases |history|
  {
    if |history| > 0 {
      var init := history[..|history| - 1];
      var entry := history[|history| - 1];
      assert history == init + [entry];
      TotalSizeIsRowCount(init);
      KeysOfAdded(init);
      TotalSizeGrows(init, entry, KeysOf(init));
      if entry.0 !in KeysOf(init) {
        TotalSizeAppend(history, KeysOf(init), entry.0);
        RecordsUnderEmpty(init, entry.0);
      }
    }
  }

  /**
   * The aggregator: `keys` is the insertion order of the source's `Map`, `groups` its entries.
   * The ghost `history` records every `addRecord` call, in order.
   */
  class Aggregator {
    const headers: seq<string>
    var keys: seq<string>
    var groups: map<string, Group>
    ghost var history: seq<(string, Record)>

    ghost predicate Valid()
      reads this
    {
      keys == KeysOf(history) &&
      (forall key :: key in groups <==> key in keys) &&
      forall key :: key in groups ==> groups[key] == Group(key, RecordsUnder(history, key))
    }

    constructor(headers: seq<string>)
      ensures Valid() && this.headers == headers && history == [] && keys == [] && groups == map[]
    {
      this.headers := headers;
      keys := [];
      groups := map[];
      history := [];
    }

    /** `hasRecord`: whether rows were ever added under `key`. */
    function HasRecord(key: string): (b: bool)
      reads this
      requires Valid()
      ensures b <==> Added(history, key)
    {
      KeysOfAdded(history);
      key in groups
    }

    /** `getRecord`: the group of `key`, which fails for a key never added. */
    function GetRecord(key: string): (r: Result<Group, string>)
      reads this
      requires Valid()
      ensures r.Ok? <==> Added(history, key)
      ensures r.Ok? ==> r.value.columnName == key && r.value.records == RecordsUnder(history, key) && r.value.Size() > 0
      ensures r.Err? ==> r.error == "Record with key \"" + key + "\" not found"
    {
      KeysOfAdded(history);
      RecordsUnderEmpty(history, key);
      if key !in groups then Err("Record with key \"" + key + "\" not found") else Ok(groups[key])
    }

    /** `addRecord`: a new key gets an empty group at the end of the order; the row goes last in its group. */
    method AddRecord(key: string, record: Record)
      requires Valid()
      modifies this`keys, this`groups, this`history
      ensures Valid() && history == old(history) + [(key, record)]
      ensures keys == if key in old(keys) then old(keys) else old(keys) + [key]
      ensures key in old(groups) ==> groups == old(groups)[key := old(groups)[key].(records := old(groups)[key].records + [record])]
      ensures key !in old(groups) ==> groups == old(groups)[key := Group(key, [record])]
    {
      KeysOfAdded(history);
      RecordsUnderEmpty(history, key);
      if key !in groups {
        groups := groups[key := Group(key, [])];
        keys := keys + [key];
      }
      assert key !in old(groups) ==> groups[key].records + [record] == [record];
      groups := groups[key := groups[key].(records := groups[key].records + [record])];
      history := history + [(key, record)];
      assert history[..|history| - 1] == old(history);
      forall k | k in groups
        ensures groups[k] == Group(k, RecordsUnder(history, k))
      {
        if k != key {
          assert groups[k] == old(groups)[k];
        }
      }
    }

    /** `forEach`: the groups in the order their keys were first added, each once. */
    method ForEach() returns (visited: seq<Group>)
      requires Valid()
      ensures |visited| == |KeysOf(history)| && Distinct(KeysOf(history))
      ensures forall i :: 0 <= i < |visited| ==>
                visited[i] == Group(KeysOf(history)[i], RecordsUnder(history, KeysOf(history)[i]))
    {
      KeysOfAdded(history);
      visited := [];
      for i := 0 to |keys|
        invariant |visited| == i
        invariant forall m :: 0 <= m < i ==> visited[m] == Group(keys[m], RecordsUnder(history, keys[m]))
      {
        visited := visited + [groups[keys[i]]];
      }
    }

    /** `collect`: the cell of column `columnName` of every row under `key`, in the order added. */
    method Collect(key: string, columnName: string) returns (r: Result<seq<Option<string>>, string>)
      requires Valid()
      ensures r.Err? <==> !Added(history, key) || columnName !in headers
      ensures !Added(history, key) ==> r == Err("Record with key \"" + key + "\" not found")
      ensures Added(history, key) && columnName !in headers ==> r == Err("Column \"" + columnName + "\" not found")
      ensures r.Ok? ==>
                var records, index := RecordsUnder(history, key), IndexOf(headers, columnName);
                index >= 0 && |r.value| == |records| &&
                forall i :: 0 <= i < |records| ==> r.value[i] == Cell(records[i], index)
    {
      var values: seq<Option<string>> := [];
      var group := GetRecord(key);
      if group.Err? {
        return Err(group.error);
      }
      var index := IndexOf(headers, columnName);
      if index == -1 {
        return Err("Column \"" + columnName + "\" not found");
      }
      var records := group.value.records;
      for i := 0 to |records|
        invariant |values| == i
        invariant forall m :: 0 <= m < i ==> values[m] == Cell(records[m], index)
      {
        values := values + [Cell(records[i], index)];
      }
      r := Ok(values);
    }
  }
}

/**
 The Materializer as it is stored: a row map, an order list whose deleted places become empty
 tombstones, an index into that list, and compaction once tombstones are the larger part of it.
 */
module Materializer {
  import opened Lists
  import opened Text
  import opened RowKey
  import T = ChangelogTable

  const COMPACT_ABOVE := 1024

  // ---- the stored shape, on values ----

  /** The entries Snapshot meets: the order list read front to back, places without a row skipped. */
  function Listed(order: seq<Bytes>, rows: map<Bytes, Row>): seq<T.Entry> {
    if order == [] then []
    else if order[0] in rows then [T.Entry(order[0], rows[order[0]])] + Listed(order[1..], rows)
    else Listed(order[1..], rows)
  }

  function NonBlank(order: seq<Bytes>): (kept: seq<Bytes>)
    ensures forall k :: k in kept <==> k in order && k != []
  {
    if order == [] then []
    else
      var last := order[|order| - 1];
      assert forall k :: k in order <==> k in order[..|order| - 1] || k == last;
      NonBlank(order[..|order| - 1]) + (if last == [] then [] else [last])
  }

  ghost predicate Indexed(order: seq<Bytes>, index: map<Bytes, int>) {
    && (forall k :: k in index ==> 0 <= index[k] < |order| && order[index[k]] == k)
    && (forall i :: 0 <= i < |order| && order[i] != [] ==> order[i] in index && index[order[i]] == i)
    && [] !in index
  }

  /** The three structures agree, and tombstones are either few or outnumbered by rows. */
  ghost predicate Stored(rows: map<Bytes, Row>, order: seq<Bytes>, index: map<Bytes, int>, tombstones: int) {
    && Indexed(order, index) && index.Keys == rows.Keys
    && |order| == |rows| + tombstones && |Listed(order, rows)| == |rows|
    && 0 <= tombstones && (tombstones <= COMPACT_ABOVE || tombstones <= |rows|)
  }

  lemma {:induction false} ListedFind(order: seq<Bytes>, rows: map<Bytes, Row>, key: Bytes)
    ensures T.Find(Listed(order, rows), key) == if key in order && key in rows then Some(rows[key]) else None
  {
    if order != [] {
      ListedFind(order[1..], rows, key);
      if order[0] in rows {
        assert Listed(order, rows)[1..] == Listed(order[1..], rows);
      }
    }
  }

  lemma {:induction false} ListedAppend(order: seq<Bytes>, rows: map<Bytes, Row>, key: Bytes, row: Row)
    requires key !in order
    ensures Listed(order + [key], rows[key := row]) == Listed(order, rows) + [T.Entry(key, row)]
  {
    if order != [] {
      assert (order + [key])[1..] == order[1..] + [key];
      ListedAppend(order[1..], rows, key, row);
    } else {
      assert (order + [key])[1..] == [];
    }
  }

  /** Rows that are not listed do not show. */
  lemma {:induction false} ListedIgnores(order: seq<Bytes>, rows: map<Bytes, Row>, other: map<Bytes, Row>)
    requires forall k :: k in order ==> (k in rows <==> k in other) && (k in rows ==> rows[k] == other[k])
    ensures Listed(order, rows) == Listed(order, other)
  {
    if order != [] {
      ListedIgnores(order[1..], rows, other);
    }
  }

  lemma {:induction false} ListedReplace(order: seq<Bytes>, rows: map<Bytes, Row>, key: Bytes, row: Row)
    requires key in rows && forall i, j :: 0 <= i < j < |order| && order[i] == order[j] ==> order[i] != key
    ensures Listed(order, rows[key := row]) == T.Replace(Listed(order, rows), key, row)
  {
    if order != [] {
      if order[0] == key {
        ListedIgnores(order[1..], rows, rows[key := row]);
        assert Listed(order, rows)[1..] == Listed(order[1..], rows);
      } else {
        ListedReplace(order[1..], rows, key, row);
        if order[0] in rows {
          assert Listed(order, rows)[1..] == Listed(order[1..], rows);
        }
      }
    }
  }

  lemma {:induction false} ListedRemove(order: seq<Bytes>, rows: map<Bytes, Row>, at: int)
    requires 0 <= at < |order| && order[at] in rows && [] !in rows
    requires forall i :: 0 <= i < |order| && i != at ==> order[i] != order[at]
    ensures Listed(order[at := []], rows - {order[at]}) == T.Remove(Listed(order, rows), order[at])
  {
    var key := order[at];
    if at == 0 {
      ListedIgnores(order[1..], rows, rows - {key});
      assert order[at := []][1..] == order[1..];
      assert Listed(order, rows)[1..] == Listed(order[1..], rows);
    } else {
      assert order[at := []][1..] == order[1..][at - 1 := []];
      ListedRemove(order[1..], rows, at - 1);
      if order[0] in rows {
        assert Listed(order, rows)[1..] == Listed(order[1..], rows);
      }
    }
  }

  lemma {:induction false} ListedSnoc(order: seq<Bytes>, rows: map<Bytes, Row>, key: Bytes)
    ensures Listed(order + [key], rows) == Listed(order, rows) + (if key in rows then [T.Entry(key, rows[key])] else [])
  {
    if order != [] {
      assert (order + [key])[1..] == order[1..] + [key];
      ListedSnoc(order[1..], rows, key);
    } else {
      assert (order + [key])[1..] == [];
    }
  }

  /** Dropping the tombstones does not show either. */
  lemma {:induction false} ListedCompact(order: seq<Bytes>, rows: map<Bytes, Row>)
    requires [] !in rows
    ensures Listed(NonBlank(order), rows) == Listed(order, rows)
  {
    if order != [] {
      var front, last := order[..|order| - 1], order[|order| - 1];
      ListedCompact(front, rows);
      ListedSnoc(front, rows, last);
      ListedSnoc(NonBlank(front), rows, last);
      assert order == front + [last];
      assert NonBlank(front) + [] == NonBlank(front);
    }
  }

  lemma {:induction false} ListedAll(order: seq<Bytes>, rows: map<Bytes, Row>)
    requires forall k :: k in order ==> k in rows
    ensures |Listed(order, rows)| == |order|
  {
    if order != [] {
      ListedAll(order[1..], rows);
    }
  }

  /** Every kept place points back at itself. */
  ghost predicate Reindexed(kept: seq<Bytes>, index: map<Bytes, int>) {
    forall j :: 0 <= j < |kept| ==> kept[j] in index && index[kept[j]] == j
  }

  lemma ReindexedNext(kept: seq<Bytes>, index: map<Bytes, int>, key: Bytes)
    requires Reindexed(kept, index) && key !in kept
    ensures Reindexed(kept + [key], index[key := |kept|])
  {
    forall j | 0 <= j < |kept| ensures kept[j] in index && kept[j] != key {
      assert kept[j] in kept;
    }
  }

  lemma NonBlankNext(order: seq<Bytes>, i: nat)
    requires i < |order|
    ensures NonBlank(order[..i + 1]) == NonBlank(order[..i]) + if order[i] == [] then [] else [order[i]]
  {
    assert order[..i + 1][..i] == order[..i];
  }

  lemma IndexedOnce(order: seq<Bytes>, index: map<Bytes, int>, i: int)
    requires Indexed(order, index) && 0 <= i < |order| && order[i] != []
    ensures order[i] in index && order[i] !in order[..i]
  {
  }

  lemma CompactedIsIndexed(order: seq<Bytes>, before: map<Bytes, int>, kept: seq<Bytes>, after: map<Bytes, int>)
    requires Indexed(order, before) && before.Keys == after.Keys
    requires kept == NonBlank(order) && Reindexed(kept, after)
    ensures Indexed(kept, after) && forall k :: k in kept ==> k in before
  {
    forall k | k in after ensures 0 <= after[k] < |kept| && kept[after[k]] == k {
      assert order[before[k]] == k && k in kept;
      var j :| 0 <= j < |kept| && kept[j] == k;
    }
  }

  lemma CompactedIsStored(rows: map<Bytes, Row>, order: seq<Bytes>, before: map<Bytes, int>, kept: seq<Bytes>,
      after: map<Bytes, int>)
    requires Indexed(order, before) && before.Keys == after.Keys == rows.Keys
    requires |Listed(order, rows)| == |rows|
    requires kept == NonBlank(order) && Reindexed(kept, after)
    ensures Stored(rows, kept, after, 0) && Listed(kept, rows) == Listed(order, rows)
  {
    CompactedIsIndexed(order, before, kept, after);
    ListedCompact(order, rows);
    ListedAll(kept, rows);
  }

  /** The space bound: a full table needs at most twice its rows or 1024 places more. */
  lemma OrderIsBounded(rows: map<Bytes, Row>, order: seq<Bytes>, index: map<Bytes, int>, tombstones: int, maxRows: int)
    requires Stored(rows, order, index, tombstones) && |rows| <= maxRows
    ensures |order| <= if maxRows > COMPACT_ABOVE then 2 * maxRows else maxRows + COMPACT_ABOVE
  {
  }

  lemma StoredFind(rows: map<Bytes, Row>, order: seq<Bytes>, index: map<Bytes, int>, tombstones: int, key: Bytes)
    requires Stored(rows, order, index, tombstones)
    ensures T.Find(Listed(order, rows), key) == if key in rows then Some(rows[key]) else None
  {
    ListedFind(order, rows, key);
    if key in rows {
      assert order[index[key]] == key;
    }
  }

  lemma StoredInsert(rows: map<Bytes, Row>, order: seq<Bytes>, index: map<Bytes, int>, tombstones: int, key: Bytes,
      row: Row)
    requires Stored(rows, order, index, tombstones) && key !in rows && key != []
    ensures Stored(rows[key := row], order + [key], index[key := |order|], tombstones)
    ensures Listed(order + [key], rows[key := row]) == Listed(order, rows) + [T.Entry(key, row)]
  {
    ListedAppend(order, rows, key, row);
  }

  lemma StoredReplace(rows: map<Bytes, Row>, order: seq<Bytes>, index: map<Bytes, int>, tombstones: int, key: Bytes,
      row: Row)
    requires Stored(rows, order, index, tombstones) && key in rows
    ensures Stored(rows[key := row], order, index, tombstones)
    ensures Listed(order, rows[key := row]) == T.Replace(Listed(order, rows), key, row)
  {
    ListedReplace(order, rows, key, row);
    T.ReplaceKeepsPlaces(Listed(order, rows), key, row);
    assert rows[key := row].Keys == rows.Keys;
    assert |rows[key := row]| == |rows[key := row].Keys| == |rows|;
  }

  /** The row of key is gone from the map, its place in the order list is not yet. */
  ghost predicate Dropping(rows: map<Bytes, Row>, order: seq<Bytes>, index: map<Bytes, int>, tombstones: int,
      key: Bytes)
  {
    && key in index && 0 <= index[key] < |order|
    && Indexed(order[index[key] := []], index - {key}) && (index - {key}).Keys == rows.Keys
    && |order| == |rows| + 1 + tombstones && |Listed(order[index[key] := []], rows)| == |rows|
    && 0 <= tombstones
  }

  lemma StoredDelete(rows: map<Bytes, Row>, order: seq<Bytes>, index: map<Bytes, int>, tombstones: int, key: Bytes)
    requires Stored(rows, order, index, tombstones) && key in rows
    ensures Dropping(rows - {key}, order, index, tombstones, key)
    ensures Listed(order[index[key] := []], rows - {key}) == T.Remove(Listed(order, rows), key)
  {
    ListedRemove(order, rows, index[key]);
    var p := RemoveFound(rows, order, index, tombstones, key);
    assert (rows - {key}).Keys == rows.Keys - {key};
    assert |rows - {key}| == |(rows - {key}).Keys|;
  }

  lemma RemoveFound(rows: map<Bytes, Row>, order: seq<Bytes>, index: map<Bytes, int>, tombstones: int, key: Bytes)
    returns (p: nat)
    requires Stored(rows, order, index, tombstones) && key in rows
    ensures |T.Remove(Listed(order, rows), key)| == |rows| - 1
  {
    StoredFind(rows, order, index, tombstones, key);
    p := T.RemoveAt(Listed(order, rows), key);
  }

  // ---- the object ----

  const DEFAULT_MAX_ROWS := 100_000

  /** The options of a new materializer; a later one of a kind replaces an earlier one. */
  datatype Setting = PrimaryKey(columns: seq<string>) | Columns(names: seq<string>) | MaxRows(limit: int) | Unset

  datatype Config = Config(primaryKey: seq<string>, columns: seq<string>, maxRows: int)

  predicate SettingOk(s: Setting) {
    match s
    case PrimaryKey(columns) => columns != [] && NoneBlank(columns) && NoRepeats(columns)
    case Columns(names) => names != []
    case MaxRows(limit) => limit > 0
    case Unset => true
  }

  function Configured(settings: seq<Setting>): Config {
    if settings == [] then Config([], [], DEFAULT_MAX_ROWS)
    else
      var before := Configured(settings[..|settings| - 1]);
      match settings[|settings| - 1]
      case PrimaryKey(columns) => before.(primaryKey := columns)
      case Columns(names) => before.(columns := names)
      case MaxRows(limit) => before.(maxRows := limit)
      case Unset => before
  }

  /** Settings of one kind. */
  predicate SameKind(a: Setting, b: Setting) {
    (a.PrimaryKey? && b.PrimaryKey?) || (a.Columns? && b.Columns?) || (a.MaxRows? && b.MaxRows?)
  }

  /** Of settings of one kind the last counts, wherever it stands among the others; without one the default does. */
  lemma {:induction false} LastSettingCounts(settings: seq<Setting>, setting: Setting)
    ensures (exists i :: LastOfKind(settings, setting, i)) ==>
              match setting
              case PrimaryKey(columns) => Configured(settings).primaryKey == columns
              case Columns(names) => Configured(settings).columns == names
              case MaxRows(limit) => Configured(settings).maxRows == limit
              case Unset => true
    ensures (forall i :: 0 <= i < |settings| ==> !SameKind(settings[i], setting)) ==>
              match setting
              case PrimaryKey(_) => Configured(settings).primaryKey == []
              case Columns(_) => Configured(settings).columns == []
              case MaxRows(_) => Configured(settings).maxRows == 100_000
              case Unset => true
  {
    if settings != [] {
      var front, last := settings[..|settings| - 1], settings[|settings| - 1];
      LastSettingCounts(front, setting);
      if i :| LastOfKind(settings, setting, i) && i < |front| {
        assert LastOfKind(front, setting, i);
      }
    }
  }

  predicate LastOfKind(settings: seq<Setting>, setting: Setting, i: int) {
    && 0 <= i < |settings| && settings[i] == setting
    && forall j :: i < j < |settings| ==> !SameKind(settings[j], setting)
  }

  /** A configuration that good options lead to. */
  predicate ConfigOk(c: Config) {
    c.maxRows > 0 && NoRepeats(c.primaryKey) && NoneBlank(c.primaryKey)
  }

  method CheckPrimaryKey(columns: seq<string>) returns (ok: bool)
    ensures ok <==> SettingOk(PrimaryKey(columns))
  {
    if columns == [] {
      return false;
    }
    var seen: set<string> := {};
    for i := 0 to |columns|
      invariant seen == set j | 0 <= j < i :: columns[j]
      invariant NoneBlank(columns[..i]) && NoRepeats(columns[..i])
    {
      NoRepeatsNext(columns, i);
      assert columns[..i + 1] == columns[..i] + [columns[i]];
      var blank := IsBlank(columns[i]);
      if blank {
        return false;
      }
      if columns[i] in seen {
        return false;
      }
      seen := seen + {columns[i]};
    }
    assert columns[..|columns|] == columns;
    return true;
  }

  predicate NoneBlank(columns: seq<string>) {
    forall c :: c in columns ==> !IsBlank(c)
  }

  lemma NoRepeatsNext(columns: seq<string>, n: nat)
    requires n < |columns| && NoRepeats(columns[..n])
    ensures columns[n] !in columns[..n] ==> NoRepeats(columns[..n + 1])
    ensures columns[n] in columns[..n] ==> !NoRepeats(columns)
  {
  }

  method Configure(settings: seq<Setting>) returns (r: Option<Config>)
    ensures r.Some? <==> forall i :: 0 <= i < |settings| ==> SettingOk(settings[i])
    ensures r.Some? ==> r.value == Configured(settings) && ConfigOk(r.value)
  {
    var config := Config([], [], DEFAULT_MAX_ROWS);
    for i := 0 to |settings|
      invariant forall j :: 0 <= j < i ==> SettingOk(settings[j])
      invariant config == Configured(settings[..i]) && ConfigOk(config)
    {
      assert settings[..i + 1][..i] == settings[..i];
      match settings[i] {
        case PrimaryKey(columns) =>
          var ok := CheckPrimaryKey(columns);
          if !ok {
            return None;
          }
          config := config.(primaryKey := columns);
        case Columns(names) =>
          if names == [] {
            return None;
          }
          config := config.(columns := names);
        case MaxRows(limit) =>
          if limit <= 0 {
            return None;
          }
          config := config.(maxRows := limit);
        case Unset =>
      }
    }
    assert settings[..|settings|] == settings;
    return Some(config);
  }

  predicate Contains(columns: seq<string>, keys: seq<string>) {
    forall k :: k in keys ==> k in columns
  }

  /** The library functions are those of lib; key and columns come from the options. */
  method NewMaterializer(settings: seq<Setting>, lib: Schema) returns (r: Option<Materializer>)
    ensures r.Some? <==>
            && (forall i :: 0 <= i < |settings| ==> SettingOk(settings[i]))
            && Configured(settings).primaryKey != [] && Configured(settings).columns != []
            && Contains(Configured(settings).columns, Configured(settings).primaryKey)
    ensures r.Some? ==> fresh(r.value) && r.value.Valid() && r.value.Table() == T.EMPTY
    ensures r.Some? ==> r.value.maxRows == Configured(settings).maxRows
                        && r.value.schema == lib.(primaryKey := Configured(settings).primaryKey,
                                                  columns := Configured(settings).columns)
  {
    var configured := Configure(settings);
    if configured.None? || configured.value.primaryKey == [] || configured.value.columns == [] {
      return None;
    }
    var config := configured.value;
    var found := FindColumns(config.columns, config.primaryKey);
    if !found {
      return None;
    }
    var m := new Materializer(lib.(primaryKey := config.primaryKey, columns := config.columns), config.maxRows);
    return Some(m);
  }

  method FindColumns(columns: seq<string>, keys: seq<string>) returns (all: bool)
    ensures all <==> Contains(columns, keys)
  {
    for i := 0 to |keys|
      invariant forall j :: 0 <= j < i ==> keys[j] in columns
    {
      var found := false;
      for j := 0 to |columns|
        invariant found <==> keys[i] in columns[..j]
      {
        if columns[j] == keys[i] {
          found := true;
          break;
        }
      }
      assert columns[..|columns|] == columns;
      if !found {
        return false;
      }
    }
    return true;
  }

  class Materializer {
    const schema: Schema
    const maxRows: int
    var rows: map<Bytes, Row>
    var order: seq<Bytes>
    var orderIndex: map<Bytes, int>
    var tombstones: int
    var pending: set<Bytes>
    /** Deletes accepted so far, and order places looked at by all compactions so far. */
    ghost var deletes: nat
    ghost var visited: nat

    ghost predicate Valid()
      reads this
    {
      && schema.primaryKey != []
      && Stored(rows, order, orderIndex, tombstones)
      && T.TableOk(schema, maxRows, Table())
      && visited + 2 * tombstones <= 2 * deletes
    }

    ghost function Table(): T.Table
      reads this
    {
      T.Table(Listed(order, rows), pending)
    }

    constructor (schema: Schema, maxRows: int)
      requires schema.primaryKey != [] && maxRows > 0
      ensures Valid() && Table() == T.EMPTY
      ensures this.schema == schema && this.maxRows == maxRows && deletes == 0
    {
      this.schema, this.maxRows := schema, maxRows;
      rows, order, orderIndex, tombstones, pending := map[], [], map[], 0, {};
      deletes, visited := 0, 0;
    }

    /** An accepted call moved the table as the specification says; a refused one changed no field at all. */
    twostate predicate Answered(new expected: Result<T.Table, T.Error>, new r: Option<T.Error>)
      reads this
    {
      match expected
      case Ok(t) => r == None && Table() == t
      case Err(e) => r == Some(e) && unchanged(this)
    }

    /** One event. */
    method Apply(row: Row) returns (r: Option<T.Error>)
      requires Valid()
      modifies this
      ensures Valid() && Answered(T.Apply(schema, maxRows, old(Table()), row), r)
      ensures deletes == old(deletes) + if row.kind == Delete && r == None then 1 else 0
    {
      var rowKey := RowKeyText(schema, row);
      if rowKey.None? {
        return Some(T.PrimaryKeyMissing);
      }
      match row.kind {
        case Insert => r := ApplyInsert(rowKey.value, row);
        case UpdateBefore => r := ApplyBefore(rowKey.value, row);
        case UpdateAfter => r := ApplyAfter(rowKey.value, row);
        case Delete => r := ApplyDelete(rowKey.value, row);
        case Unknown(_) => r := Some(T.UnsupportedRowKind);
      }
    }

    method ApplyInsert(key: Bytes, row: Row) returns (r: Option<T.Error>)
      requires Valid() && row.kind == Insert && KeyOf(schema, row) == Some(key)
      modifies this
      ensures Valid() && Answered(T.Apply(schema, maxRows, old(Table()), row), r)
      ensures deletes == old(deletes)
    {
      StoredFind(rows, order, orderIndex, tombstones, key);
      if key in rows || key in pending {
        return Some(T.DuplicateKey);
      }
      if |rows| >= maxRows {
        return Some(T.MaxRowsExceeded);
      }
      KeyIdentifiesRow(schema, row, row);
      T.ApplyKeepsTableOk(schema, maxRows, Table(), row);
      AddRow(key, row);
      return None;
    }

    method AddRow(key: Bytes, row: Row)
      requires Valid() && key !in rows && key != []
      requires T.TableOk(schema, maxRows, T.Table(Table().entries + [T.Entry(key, row)], pending))
      modifies `rows, `order, `orderIndex
      ensures Valid() && Table() == T.Table(old(Table()).entries + [T.Entry(key, row)], pending)
    {
      StoredInsert(rows, order, orderIndex, tombstones, key, row);
      rows := rows[key := row];
      orderIndex := orderIndex[key := |order|];
      order := order + [key];
    }

    method ApplyBefore(key: Bytes, row: Row) returns (r: Option<T.Error>)
      requires Valid() && row.kind == UpdateBefore && KeyOf(schema, row) == Some(key)
      modifies this
      ensures Valid() && Answered(T.Apply(schema, maxRows, old(Table()), row), r)
      ensures deletes == old(deletes)
    {
      StoredFind(rows, order, orderIndex, tombstones, key);
      if key !in rows {
        return Some(T.RowNotFound);
      }
      if key in pending {
        return Some(T.UpdateOrder);
      }
      var same := SameFields(rows[key], row);
      if !same {
        return Some(T.UpdateOrder);
      }
      T.ApplyKeepsTableOk(schema, maxRows, Table(), row);
      MarkPending(key);
      return None;
    }

    method MarkPending(key: Bytes)
      requires Valid() && T.TableOk(schema, maxRows, T.Table(Table().entries, pending + {key}))
      modifies `pending
      ensures Valid() && Table() == T.Table(old(Table()).entries, old(pending) + {key})
    {
      pending := pending + {key};
    }

    method ApplyAfter(key: Bytes, row: Row) returns (r: Option<T.Error>)
      requires Valid() && row.kind == UpdateAfter && KeyOf(schema, row) == Some(key)
      modifies this
      ensures Valid() && Answered(T.Apply(schema, maxRows, old(Table()), row), r)
      ensures deletes == old(deletes)
    {
      StoredFind(rows, order, orderIndex, tombstones, key);
      if key !in rows {
        return Some(T.RowNotFound);
      }
      if key !in pending {
        return Some(T.UpdateOrder);
      }
      T.ApplyKeepsTableOk(schema, maxRows, Table(), row);
      ReplaceRow(key, row, pending - {key});
      return None;
    }

    method ReplaceRow(key: Bytes, row: Row, left: set<Bytes>)
      requires Valid() && key in rows
      requires T.TableOk(schema, maxRows, T.Table(T.Replace(Table().entries, key, row), left))
      modifies `rows, `pending
      ensures Valid() && Table() == T.Table(T.Replace(old(Table()).entries, key, row), left)
    {
      StoredReplace(rows, order, orderIndex, tombstones, key, row);
      rows := rows[key := row];
      pending := left;
    }

    method ApplyDelete(key: Bytes, row: Row) returns (r: Option<T.Error>)
      requires Valid() && row.kind == Delete && KeyOf(schema, row) == Some(key)
      modifies this
      ensures Valid() && Answered(T.Apply(schema, maxRows, old(Table()), row), r)
      ensures deletes == old(deletes) + if r == None then 1 else 0
    {
      StoredFind(rows, order, orderIndex, tombstones, key);
      if key !in rows {
        return Some(T.RowNotFound);
      }
      if key in pending {
        return Some(T.UpdateOrder);
      }
      T.ApplyKeepsTableOk(schema, maxRows, Table(), row);
      DropRow(key);
      return None;
    }

    method DropRow(key: Bytes)
      requires Valid() && key in rows
      requires T.TableOk(schema, maxRows, T.Table(T.Remove(Table().entries, key), pending))
      modifies this
      ensures Valid() && Table() == T.Table(T.Remove(old(Table()).entries, key), old(pending))
      ensures deletes == old(deletes) + 1
    {
      StoredDelete(rows, order, orderIndex, tombstones, key);
      rows := rows - {key};
      deletes := deletes + 1;
      RemoveOrder(key);
    }

    /** Both halves at once, without the pending state in between. */
    method ApplyUpdate(before: Row, after: Row) returns (r: Option<T.Error>)
      requires Valid()
      modifies this
      ensures Valid() && Answered(T.ApplyUpdate(schema, old(Table()), before, after), r)
      ensures deletes == old(deletes)
    {
      if before.kind != UpdateBefore || after.kind != UpdateAfter {
        return Some(T.UpdateOrder);
      }
      var beforeKey := RowKeyText(schema, before);
      if beforeKey.None? {
        return Some(T.PrimaryKeyMissing);
      }
      var afterKey := RowKeyText(schema, after);
      if afterKey.None? {
        return Some(T.PrimaryKeyMissing);
      }
      if beforeKey != afterKey {
        return Some(T.UpdateOrder);
      }
      var key := beforeKey.value;
      StoredFind(rows, order, orderIndex, tombstones, key);
      if key !in rows {
        return Some(T.RowNotFound);
      }
      if key in pending {
        return Some(T.UpdateOrder);
      }
      var same := SameFields(rows[key], before);
      if !same {
        return Some(T.UpdateOrder);
      }
      T.ApplyUpdateKeepsTableOk(schema, maxRows, Table(), before, after);
      ReplaceRow(key, after, pending);
      return None;
    }

    method RollbackPending() returns (count: int)
      requires Valid()
      modifies this
      ensures Valid() && Table() == T.Rollback(old(Table())) && deletes == old(deletes)
      ensures count == |old(pending)|
    {
      count := |pending|;
      pending := {};
    }

    method Snapshot() returns (result: seq<Row>)
      requires Valid()
      ensures result == T.Rows(Table().entries)
    {
      result := [];
      for i := 0 to |order|
        invariant result == T.Rows(Listed(order[..i], rows))
      {
        ListedSnoc(order[..i], rows, order[i]);
        assert order[..i + 1] == order[..i] + [order[i]];
        if order[i] in rows {
          result := result + [rows[order[i]].(kind := Insert)];
        }
      }
      assert order[..|order|] == order;
    }

    method SameFields(left: Row, right: Row) returns (same: bool)
      ensures same == T.SameFields(schema, left, right)
    {
      if |left.fields| != |right.fields| {
        return false;
      }
      for i := 0 to |left.fields|
        invariant forall j :: 0 <= j < i ==> schema.trim(left.fields[j]) == schema.trim(right.fields[j])
      {
        if schema.trim(left.fields[i]) != schema.trim(right.fields[i]) {
          return false;
        }
      }
      return true;
    }

    /** Called with the row already gone; the bound on tombstones and the account of visits hold again after it. */
    method RemoveOrder(key: Bytes)
      requires Dropping(rows, order, orderIndex, tombstones, key)
      requires visited + 2 * (tombstones + 1) <= 2 * deletes
      modifies this
      ensures rows == old(rows) && pending == old(pending) && deletes == old(deletes)
      ensures Stored(rows, order, orderIndex, tombstones)
      ensures Listed(order, rows) == Listed(old(order[orderIndex[key] := []]), rows)
      ensures visited + 2 * tombstones <= 2 * deletes
    {
      var index := orderIndex[key];
      orderIndex := orderIndex - {key};
      order := order[index := []];
      tombstones := tombstones + 1;
      if tombstones > COMPACT_ABOVE && tombstones * 2 > |order| {
        CompactOrder();
      }
    }

    /** Rebuilds order and index without the tombstones, looking at every place once. */
    method CompactOrder()
      requires Indexed(order, orderIndex) && orderIndex.Keys == rows.Keys
      requires |Listed(order, rows)| == |rows|
      modifies this
      ensures rows == old(rows) && pending == old(pending) && deletes == old(deletes)
      ensures Stored(rows, order, orderIndex, tombstones) && tombstones == 0
      ensures Listed(order, rows) == old(Listed(order, rows))
      ensures visited == old(visited) + old(|order|)
    {
      ghost var before := orderIndex;
      var compacted := CompactedList();
      CompactedIsStored(rows, order, before, compacted, orderIndex);
      order := compacted;
      tombstones := 0;
    }

    /** The list without tombstones, its places entered in the index on the way. */
    method CompactedList() returns (compacted: seq<Bytes>)
      requires Indexed(order, orderIndex)
      modifies `orderIndex, `visited
      ensures compacted == NonBlank(order) && Reindexed(compacted, orderIndex)
              && orderIndex.Keys == old(orderIndex.Keys)
      ensures visited == old(visited) + |order|
    {
      compacted := [];
      for i := 0 to |order|
        invariant visited == old(visited) + i
        invariant orderIndex.Keys == old(orderIndex.Keys)
        invariant compacted == NonBlank(order[..i])
        invariant Reindexed(compacted, orderIndex)
      {
        visited := visited + 1;
        NonBlankNext(order, i);
        if order[i] != [] {
          IndexedOnce(order, old(orderIndex), i);
          ReindexedNext(compacted, orderIndex, order[i]);
          orderIndex := orderIndex[order[i] := |compacted|];
          compacted := compacted + [order[i]];
        }
      }
      assert order[..|order|] == order;
    }
  }

  // ---- whole runs ----

  function AcceptedDeletes(schema: Schema, maxRows: int, t: T.Table, calls: seq<T.Call>): nat
    decreases |calls|
  {
    if calls == [] then 0
    else
      (if calls[0].Event? && calls[0].row.kind == Delete && T.Apply(schema, maxRows, t, calls[0].row).Ok? then 1 else 0)
      + AcceptedDeletes(schema, maxRows, T.Step(schema, maxRows, t, calls[0]), calls[1..])
  }

  method Perform(m: Materializer, call: T.Call)
    requires m.Valid()
    modifies m
    ensures m.Valid() && m.Table() == T.Step(m.schema, m.maxRows, old(m.Table()), call)
    ensures m.deletes == old(m.deletes) + AcceptedDeletes(m.schema, m.maxRows, old(m.Table()), [call])
  {
    match call {
      case Event(row) => var r := m.Apply(row);
      case Update(before, after) => var r := m.ApplyUpdate(before, after);
      case RollbackPending => var n := m.RollbackPending();
    }
  }

  /**
   Any sequence of calls on a new materializer: the snapshot is the plain table's rows, the order list is no
   longer than its bound, and all compactions together have looked at no more than two places per delete.
   */
  method SnapshotAfter(schema: Schema, maxRows: int, calls: seq<T.Call>)
      returns (result: seq<Row>, places: nat, ghost visited: nat)
    requires schema.primaryKey != [] && maxRows > 0
    ensures result == T.Rows(T.Run(schema, maxRows, T.EMPTY, calls).entries)
    ensures forall i :: 0 <= i < |result| ==>
              result[i] == Row(Insert, T.Run(schema, maxRows, T.EMPTY, calls).entries[i].row.fields)
    ensures places <= if maxRows > COMPACT_ABOVE then 2 * maxRows else maxRows + COMPACT_ABOVE
    ensures visited <= 2 * AcceptedDeletes(schema, maxRows, T.EMPTY, calls)
  {
    var m := new Materializer(schema, maxRows);
    for i := 0 to |calls|
      invariant fresh(m) && m.Valid() && m.schema == schema && m.maxRows == maxRows
      invariant T.Run(schema, maxRows, T.EMPTY, calls) == T.Run(schema, maxRows, m.Table(), calls[i..])
      invariant AcceptedDeletes(schema, maxRows, T.EMPTY, calls) ==
                m.deletes + AcceptedDeletes(schema, maxRows, m.Table(), calls[i..])
    {
      assert calls[i..][0] == calls[i] && calls[i..][1..] == calls[i + 1..];
      Perform(m, calls[i]);
    }
    result := m.Snapshot();
    places, visited := |m.order|, m.visited;
  }
}

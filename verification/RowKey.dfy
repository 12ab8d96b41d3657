/**
 The internal key of a changelog row: the canonical JSON of each primary-key column, in primary-key
 order, each behind its own decimal length.
 */
module RowKey {
  import opened Text

  newtype byte = x: int | 0 <= x < 256
  type Bytes = seq<byte>

  const COLON: byte := 58
  const BAR: byte := 124

  datatype RowKind = Insert | UpdateBefore | UpdateAfter | Delete | Unknown(name: string)

  datatype Row = Row(kind: RowKind, fields: seq<Bytes>)

  /**
   What a Materializer knows about its rows. The last three fields stand for library functions
   (bytes.TrimSpace, json.Valid, canonicalJSON): every result below holds whatever they compute.
   */
  datatype Schema = Schema(
    primaryKey: seq<string>,
    columns: seq<string>,
    trim: Bytes -> Bytes,
    validJSON: Bytes -> bool,
    canonicalJSON: Bytes -> Option<Bytes>)

  const NULL: Bytes := [110, 117, 108, 108]

  /** Position of the first column with this name. */
  function ColumnIndex(columns: seq<string>, name: string): (i: Option<nat>)
    ensures i.None? <==> name !in columns
    ensures i.Some? ==> i.value < |columns| && columns[i.value] == name && name !in columns[..i.value]
  {
    if columns == [] then None
    else if columns[0] == name then Some(0)
    else
      match ColumnIndex(columns[1..], name)
      case None => None
      case Some(k) => assert columns[..k + 1] == [columns[0]] + columns[1..][..k]; Some(k + 1)
  }

  /** Canonical bytes of one key column, or None when it is absent, NULL or not valid JSON. */
  function KeyValue(schema: Schema, row: Row, column: string): Option<Bytes> {
    match ColumnIndex(schema.columns, column)
    case None => None
    case Some(i) =>
      if i >= |row.fields| then None
      else
        var raw := row.fields[i];
        var trimmed := schema.trim(raw);
        if trimmed == [] || !schema.validJSON(trimmed) || trimmed == NULL then None
        else schema.canonicalJSON(raw)
  }

  /** Canonical key values in primary-key order; None as soon as one of them is missing. */
  function KeyValues(schema: Schema, row: Row, columns: seq<string>): (values: Option<seq<Bytes>>)
    ensures values.Some? <==> forall c :: c in columns ==> KeyValue(schema, row, c).Some?
    ensures values.Some? ==> |values.value| == |columns|
    ensures values.Some? ==> forall i :: 0 <= i < |columns| ==>
              KeyValue(schema, row, columns[i]) == Some(values.value[i])
  {
    if columns == [] then Some([])
    else
      var front := KeyValues(schema, row, columns[..|columns| - 1]);
      var last := KeyValue(schema, row, columns[|columns| - 1]);
      assert forall c :: c in columns ==> c in columns[..|columns| - 1] || c == columns[|columns| - 1];
      if front.None? || last.None? then None else Some(front.value + [last.value])
  }

  function Digits(n: nat): (s: Bytes)
    ensures |s| > 0
    ensures forall i :: 0 <= i < |s| ==> 48 <= s[i] <= 57
  {
    if n < 10 then [(48 + n) as byte] else Digits(n / 10) + [(48 + n % 10) as byte]
  }

  function Segment(value: Bytes): Bytes {
    Digits(|value|) + [COLON] + value + [BAR]
  }

  /** The key text of a list of canonical values. */
  function Encode(values: seq<Bytes>): (key: Bytes)
    ensures values != [] ==> key != []
  {
    if values == [] then [] else Encode(values[..|values| - 1]) + Segment(values[|values| - 1])
  }

  function KeyOf(schema: Schema, row: Row): Option<Bytes> {
    match KeyValues(schema, row, schema.primaryKey)
    case None => None
    case Some(values) => Some(Encode(values))
  }

  lemma KeyValuesNext(schema: Schema, row: Row, columns: seq<string>, i: nat)
    requires i < |columns|
    ensures var front, last := KeyValues(schema, row, columns[..i]), KeyValue(schema, row, columns[i]);
            KeyValues(schema, row, columns[..i + 1]) ==
            if front.None? || last.None? then None else Some(front.value + [last.value])
  {
    assert columns[..i + 1][..i] == columns[..i];
  }

  lemma EncodeNext(values: seq<Bytes>, value: Bytes)
    ensures Encode(values + [value]) == Encode(values) + Digits(|value|) + [COLON] + value + [BAR]
  {
    assert (values + [value])[..|values|] == values;
    assert Encode(values) + Segment(value) == Encode(values) + Digits(|value|) + [COLON] + value + [BAR];
  }

  lemma {:induction false} NoValuesFromFewer(schema: Schema, row: Row, columns: seq<string>, i: nat)
    requires i <= |columns| && KeyValues(schema, row, columns[..i]).None?
    ensures KeyValues(schema, row, columns).None?
    decreases |columns| - i
  {
    if i == |columns| {
      assert columns[..i] == columns;
    } else {
      KeyValuesNext(schema, row, columns, i);
      NoValuesFromFewer(schema, row, columns, i + 1);
    }
  }

  /** The loop of rowKey: it stops at the first column without a usable value. */
  method RowKeyText(schema: Schema, row: Row) returns (key: Option<Bytes>)
    ensures key == KeyOf(schema, row)
  {
    var buffer: Bytes := [];
    ghost var values: seq<Bytes> := [];
    for i := 0 to |schema.primaryKey|
      invariant KeyValues(schema, row, schema.primaryKey[..i]) == Some(values)
      invariant buffer == Encode(values)
    {
      KeyValuesNext(schema, row, schema.primaryKey, i);
      var value := KeyValue(schema, row, schema.primaryKey[i]);
      if value.None? {
        NoValuesFromFewer(schema, row, schema.primaryKey, i + 1);
        return None;
      }
      EncodeNext(values, value.value);
      buffer := buffer + Digits(|value.value|);
      buffer := buffer + [COLON];
      buffer := buffer + value.value;
      buffer := buffer + [BAR];
      values := values + [value.value];
    }
    assert schema.primaryKey[..|schema.primaryKey|] == schema.primaryKey;
    return Some(buffer);
  }

  function DigitsValue(s: Bytes): int {
    if s == [] then 0 else DigitsValue(s[..|s| - 1]) * 10 + (s[|s| - 1] as int - 48)
  }

  lemma {:induction false} DigitsRoundTrip(n: nat)
    ensures DigitsValue(Digits(n)) == n
  {
    if n >= 10 {
      DigitsRoundTrip(n / 10);
      assert Digits(n)[..|Digits(n)| - 1] == Digits(n / 10);
    } else {
      assert Digits(n)[..0] == [];
    }
  }

  /** The same key values in front-to-back form, which is how a reader takes the text apart. */
  function EncodeFront(values: seq<Bytes>): Bytes {
    if values == [] then [] else Segment(values[0]) + EncodeFront(values[1..])
  }

  lemma Regrouped(a: Bytes, b: Bytes, c: Bytes)
    ensures a + (b + c) == (a + b) + c
  {
  }

  lemma {:induction false} EncodeFrontAppend(values: seq<Bytes>, last: Bytes)
    ensures EncodeFront(values + [last]) == EncodeFront(values) + Segment(last)
  {
    if values == [] {
      assert (values + [last])[1..] == [];
    } else {
      EncodeFrontAppend(values[1..], last);
      assert (values + [last])[1..] == values[1..] + [last];
      Regrouped(Segment(values[0]), EncodeFront(values[1..]), Segment(last));
    }
  }

  lemma {:induction false} EncodeBothWays(values: seq<Bytes>)
    ensures Encode(values) == EncodeFront(values)
  {
    if values != [] {
      var front, last := values[..|values| - 1], values[|values| - 1];
      EncodeBothWays(front);
      EncodeFrontAppend(front, last);
      assert front + [last] == values;
    }
  }

  /** A length prefix is readable: two texts that start with one agree on the length and on the rest. */
  lemma PrefixSplits(m: nat, x: Bytes, n: nat, y: Bytes)
    requires Digits(m) + [COLON] + x == Digits(n) + [COLON] + y
    ensures m == n && x == y
  {
    var left, right := Digits(m) + [COLON] + x, Digits(n) + [COLON] + y;
    assert left[|Digits(m)|] == COLON && right[|Digits(n)|] == COLON;
    assert |Digits(m)| == |Digits(n)|;
    assert Digits(m) == left[..|Digits(m)|] == right[..|Digits(n)|] == Digits(n);
    DigitsRoundTrip(m);
    DigitsRoundTrip(n);
    assert x == left[|Digits(m)| + 1..] && y == right[|Digits(n)| + 1..];
  }

  lemma {:induction false} EncodeFrontInjective(vs: seq<Bytes>, ws: seq<Bytes>)
    requires EncodeFront(vs) == EncodeFront(ws)
    ensures vs == ws
  {
    if vs == [] || ws == [] {
      return;
    }
    var v, w := vs[0], ws[0];
    var x, y := v + [BAR] + EncodeFront(vs[1..]), w + [BAR] + EncodeFront(ws[1..]);
    assert EncodeFront(vs) == Digits(|v|) + [COLON] + x;
    assert EncodeFront(ws) == Digits(|w|) + [COLON] + y;
    PrefixSplits(|v|, x, |w|, y);
    assert v == x[..|v|] && w == y[..|w|];
    assert EncodeFront(vs[1..]) == x[|v| + 1..] && EncodeFront(ws[1..]) == y[|w| + 1..];
    EncodeFrontInjective(vs[1..], ws[1..]);
  }

  /** No list of canonical values shares its key text with another one, of any length. */
  lemma EncodeInjective(vs: seq<Bytes>, ws: seq<Bytes>)
    ensures Encode(vs) == Encode(ws) <==> vs == ws
  {
    EncodeBothWays(vs);
    EncodeBothWays(ws);
    if Encode(vs) == Encode(ws) {
      EncodeFrontInjective(vs, ws);
    }
  }

  /**
   Two rows that have keys at all have the same key exactly when their canonical values agree
   column by column, and such a key is never the empty text that marks a tombstone.
   */
  lemma KeyIdentifiesRow(schema: Schema, a: Row, b: Row)
    requires KeyOf(schema, a).Some? && KeyOf(schema, b).Some?
    requires schema.primaryKey != []
    ensures KeyOf(schema, a).value != []
    ensures KeyOf(schema, a) == KeyOf(schema, b) <==>
            forall c :: c in schema.primaryKey ==> KeyValue(schema, a, c) == KeyValue(schema, b, c)
  {
    var vs := KeyValues(schema, a, schema.primaryKey).value;
    var ws := KeyValues(schema, b, schema.primaryKey).value;
    EncodeInjective(vs, ws);
    if forall c :: c in schema.primaryKey ==> KeyValue(schema, a, c) == KeyValue(schema, b, c) {
      forall i | 0 <= i < |vs| ensures vs[i] == ws[i] {
        assert schema.primaryKey[i] in schema.primaryKey;
      }
      assert vs == ws;
    }
  }

  // ---- keys in terms of fields ----

  /** Place i is where a key column of this name is read: the first column of the name, and the row reaches to it. */
  predicate ReadAt(schema: Schema, row: Row, column: string, i: int) {
    0 <= i < |schema.columns| && schema.columns[i] == column && column !in schema.columns[..i] && i < |row.fields|
  }

  /** A field that can be part of a key: not blank, valid JSON, not NULL, and with a canonical form. */
  predicate Usable(schema: Schema, field: Bytes) {
    && schema.trim(field) != [] && schema.validJSON(schema.trim(field)) && schema.trim(field) != NULL
    && schema.canonicalJSON(field).Some?
  }

  lemma ValueFromField(schema: Schema, row: Row, column: string)
    ensures KeyValue(schema, row, column).Some? <==>
            exists i :: ReadAt(schema, row, column, i) && Usable(schema, row.fields[i])
    ensures forall i :: ReadAt(schema, row, column, i) && KeyValue(schema, row, column).Some? ==>
              KeyValue(schema, row, column) == schema.canonicalJSON(row.fields[i])
  {
    var at := ColumnIndex(schema.columns, column);
    forall i | ReadAt(schema, row, column, i) ensures at == Some(i) {
    }
    if KeyValue(schema, row, column).Some? {
      assert ReadAt(schema, row, column, at.value) && Usable(schema, row.fields[at.value]);
    }
  }

  /** A row has a key exactly when each key column is read from a field that can be part of one. */
  lemma KeyFromFields(schema: Schema, row: Row)
    ensures KeyOf(schema, row).Some? <==>
            forall c :: c in schema.primaryKey ==>
              exists i :: ReadAt(schema, row, c, i) && Usable(schema, row.fields[i])
  {
    forall c ensures KeyValue(schema, row, c).Some? <==>
                     exists i :: ReadAt(schema, row, c, i) && Usable(schema, row.fields[i])
    {
      ValueFromField(schema, row, c);
    }
  }

  /** And two rows with keys share one exactly when they agree, in canonical form, in the fields of all key columns. */
  lemma SameKeyFromFields(schema: Schema, a: Row, b: Row)
    requires KeyOf(schema, a).Some? && KeyOf(schema, b).Some? && schema.primaryKey != []
    ensures KeyOf(schema, a) == KeyOf(schema, b) <==>
            forall c, i :: c in schema.primaryKey && ReadAt(schema, a, c, i) && ReadAt(schema, b, c, i) ==>
              schema.canonicalJSON(a.fields[i]) == schema.canonicalJSON(b.fields[i])
    ensures forall c, i :: c in schema.primaryKey ==> (ReadAt(schema, a, c, i) <==> ReadAt(schema, b, c, i))
  {
    KeyIdentifiesRow(schema, a, b);
    forall c | c in schema.primaryKey
      ensures exists i :: ReadAt(schema, a, c, i) && ReadAt(schema, b, c, i)
      ensures forall i :: ReadAt(schema, a, c, i) && ReadAt(schema, b, c, i) ==>
                && KeyValue(schema, a, c) == schema.canonicalJSON(a.fields[i])
                && KeyValue(schema, b, c) == schema.canonicalJSON(b.fields[i])
    {
      ValueFromField(schema, a, c);
      ValueFromField(schema, b, c);
    }
  }
}

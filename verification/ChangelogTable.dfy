/**
 What a materialized changelog means: a plain list of rows in insertion order, searched from the
 front, and the keys whose update is half done. No tombstones, no index, no compaction.
 */
module ChangelogTable {
  import opened Text
  import opened RowKey

  datatype Error =
    | PrimaryKeyMissing | DuplicateKey | RowNotFound | UpdateOrder | MaxRowsExceeded | UnsupportedRowKind

  datatype Entry = Entry(key: Bytes, row: Row)

  datatype Table = Table(entries: seq<Entry>, pending: set<Bytes>)

  const EMPTY := Table([], {})

  function Find(entries: seq<Entry>, key: Bytes): Option<Row> {
    if entries == [] then None
    else if entries[0].key == key then Some(entries[0].row)
    else Find(entries[1..], key)
  }

  /** The row of this key changes where it stands. */
  function Replace(entries: seq<Entry>, key: Bytes, row: Row): seq<Entry> {
    if entries == [] then []
    else if entries[0].key == key then [Entry(key, row)] + entries[1..]
    else [entries[0]] + Replace(entries[1..], key, row)
  }

  function Remove(entries: seq<Entry>, key: Bytes): seq<Entry> {
    if entries == [] then []
    else if entries[0].key == key then entries[1..]
    else [entries[0]] + Remove(entries[1..], key)
  }

  function Rows(entries: seq<Entry>): seq<Row> {
    seq(|entries|, i requires 0 <= i < |entries| => entries[i].row.(kind := Insert))
  }

  predicate SameFields(schema: Schema, left: Row, right: Row) {
    && |left.fields| == |right.fields|
    && forall i :: 0 <= i < |left.fields| ==> schema.trim(left.fields[i]) == schema.trim(right.fields[i])
  }

  /** One changelog event: the new table, or the reason it was refused, with no new table at all. */
  function Apply(schema: Schema, maxRows: int, t: Table, row: Row): Result<Table, Error> {
    var key := KeyOf(schema, row);
    if key.None? then Err(PrimaryKeyMissing)
    else
      var k := key.value;
      var current := Find(t.entries, k);
      match row.kind
      case Insert =>
        if current.Some? || k in t.pending then Err(DuplicateKey)
        else if |t.entries| >= maxRows then Err(MaxRowsExceeded)
        else Ok(t.(entries := t.entries + [Entry(k, row)]))
      case UpdateBefore =>
        if current.None? then Err(RowNotFound)
        else if k in t.pending || !SameFields(schema, current.value, row) then Err(UpdateOrder)
        else Ok(t.(pending := t.pending + {k}))
      case UpdateAfter =>
        if current.None? then Err(RowNotFound)
        else if k !in t.pending then Err(UpdateOrder)
        else Ok(Table(Replace(t.entries, k, row), t.pending - {k}))
      case Delete =>
        if current.None? then Err(RowNotFound)
        else if k in t.pending then Err(UpdateOrder)
        else Ok(t.(entries := Remove(t.entries, k)))
      case Unknown(_) => Err(UnsupportedRowKind)
  }

  function ApplyUpdate(schema: Schema, t: Table, before: Row, after: Row): Result<Table, Error> {
    if before.kind != UpdateBefore || after.kind != UpdateAfter then Err(UpdateOrder)
    else
      var beforeKey, afterKey := KeyOf(schema, before), KeyOf(schema, after);
      if beforeKey.None? || afterKey.None? then Err(PrimaryKeyMissing)
      else if beforeKey != afterKey then Err(UpdateOrder)
      else
        var k := beforeKey.value;
        var current := Find(t.entries, k);
        if current.None? then Err(RowNotFound)
        else if k in t.pending || !SameFields(schema, current.value, before) then Err(UpdateOrder)
        else Ok(t.(entries := Replace(t.entries, k, after)))
  }

  function Rollback(t: Table): Table {
    t.(pending := {})
  }

  /** What every table reached from the empty one satisfies. */
  ghost predicate TableOk(schema: Schema, maxRows: int, t: Table) {
    && (forall i, j :: 0 <= i < j < |t.entries| ==> t.entries[i].key != t.entries[j].key)
    && (forall i :: 0 <= i < |t.entries| ==> KeyOf(schema, t.entries[i].row) == Some(t.entries[i].key))
    && (forall k :: k in t.pending ==> Find(t.entries, k).Some?)
    && |t.entries| <= maxRows
  }

  /** A successful ApplyUpdate is the two single events one after the other, and it succeeds exactly when they do. */
  lemma ApplyUpdateIsBothHalves(schema: Schema, maxRows: int, t: Table, before: Row, after: Row)
    requires before.kind == UpdateBefore && after.kind == UpdateAfter
    requires KeyOf(schema, before) == KeyOf(schema, after)
    ensures ApplyUpdate(schema, t, before, after).Ok? <==>
            Apply(schema, maxRows, t, before).Ok?
            && Apply(schema, maxRows, Apply(schema, maxRows, t, before).value, after).Ok?
    ensures ApplyUpdate(schema, t, before, after).Ok? ==>
              ApplyUpdate(schema, t, before, after) ==
              Apply(schema, maxRows, Apply(schema, maxRows, t, before).value, after)
  {
    if ApplyUpdate(schema, t, before, after).Ok? {
      var k := KeyOf(schema, before).value;
      assert t.pending + {k} - {k} == t.pending;
    }
  }

  /** Half an update and giving it up leave the visible rows alone. */
  lemma HalfUpdateInvisible(schema: Schema, maxRows: int, t: Table, row: Row)
    requires row.kind == UpdateBefore && Apply(schema, maxRows, t, row).Ok?
    ensures Apply(schema, maxRows, t, row).value.entries == t.entries == Rollback(t).entries
    ensures t.pending == {} ==> Rollback(Apply(schema, maxRows, t, row).value) == t
  {
  }

  // ---- runs of calls ----

  datatype Call = Event(row: Row) | Update(before: Row, after: Row) | RollbackPending

  /** The table after a call; a refused call changes nothing. */
  function Step(schema: Schema, maxRows: int, t: Table, call: Call): Table {
    match call
    case Event(row) => (match Apply(schema, maxRows, t, row) case Ok(u) => u case Err(_) => t)
    case Update(before, after) => (match ApplyUpdate(schema, t, before, after) case Ok(u) => u case Err(_) => t)
    case RollbackPending => Rollback(t)
  }

  function Run(schema: Schema, maxRows: int, t: Table, calls: seq<Call>): Table
    decreases |calls|
  {
    if calls == [] then t else Run(schema, maxRows, Step(schema, maxRows, t, calls[0]), calls[1..])
  }

  lemma {:induction false} FindIsMembership(entries: seq<Entry>, key: Bytes)
    ensures Find(entries, key).Some? <==> exists i :: 0 <= i < |entries| && entries[i].key == key
  {
    if entries != [] {
      FindIsMembership(entries[1..], key);
      if Find(entries[1..], key).Some? {
        var i :| 0 <= i < |entries[1..]| && entries[1..][i].key == key;
        assert entries[i + 1].key == key;
      }
      if i :| 0 <= i < |entries| && entries[i].key == key && i > 0 {
        assert entries[1..][i - 1].key == key;
      }
    }
  }

  lemma {:induction false} ReplaceKeepsPlaces(entries: seq<Entry>, key: Bytes, row: Row)
    ensures |Replace(entries, key, row)| == |entries|
    ensures forall i :: 0 <= i < |entries| ==> Replace(entries, key, row)[i].key == entries[i].key
    ensures forall i :: 0 <= i < |entries| ==>
              Replace(entries, key, row)[i] == entries[i] || Replace(entries, key, row)[i] == Entry(key, row)
    ensures forall k :: Find(Replace(entries, key, row), k) ==
              if k == key && Find(entries, k).Some? then Some(row) else Find(entries, k)
  {
    if entries != [] && entries[0].key != key {
      ReplaceKeepsPlaces(entries[1..], key, row);
    }
  }

  ghost predicate DistinctKeys(entries: seq<Entry>) {
    forall i, j :: 0 <= i < j < |entries| ==> entries[i].key != entries[j].key
  }

  lemma {:induction false} RemoveAt(entries: seq<Entry>, key: Bytes) returns (p: nat)
    requires Find(entries, key).Some?
    ensures p < |entries| && entries[p].key == key
    ensures Remove(entries, key) == entries[..p] + entries[p + 1..]
  {
    if entries[0].key == key {
      p := 0;
    } else {
      p := RemoveAt(entries[1..], key);
      p := p + 1;
    }
  }

  lemma {:induction false} FindAfterRemove(entries: seq<Entry>, key: Bytes, k: Bytes)
    requires DistinctKeys(entries)
    ensures Find(Remove(entries, key), k) == if k == key then None else Find(entries, k)
  {
    if entries != [] {
      FindIsMembership(entries[1..], key);
      FindAfterRemove(entries[1..], key, k);
    }
  }

  lemma RemoveDropsOne(entries: seq<Entry>, key: Bytes)
    requires DistinctKeys(entries) && Find(entries, key).Some?
    ensures |Remove(entries, key)| == |entries| - 1
    ensures DistinctKeys(Remove(entries, key))
    ensures forall i :: 0 <= i < |Remove(entries, key)| ==> Remove(entries, key)[i] in entries
  {
    var p := RemoveAt(entries, key);
  }

  lemma {:induction false} FindAppended(entries: seq<Entry>, e: Entry, k: Bytes)
    ensures Find(entries + [e], k) == if Find(entries, k).Some? then Find(entries, k)
                                      else if e.key == k then Some(e.row)
                                      else None
  {
    if entries != [] {
      FindAppended(entries[1..], e, k);
      assert (entries + [e])[1..] == entries[1..] + [e];
    } else {
      assert (entries + [e])[1..] == [];
    }
  }

  lemma InsertKeepsTableOk(schema: Schema, maxRows: int, t: Table, e: Entry)
    requires TableOk(schema, maxRows, t) && Find(t.entries, e.key).None? && |t.entries| < maxRows
             && KeyOf(schema, e.row) == Some(e.key)
    ensures TableOk(schema, maxRows, t.(entries := t.entries + [e]))
  {
    FindIsMembership(t.entries, e.key);
    var all := t.entries + [e];
    forall i, j | 0 <= i < j < |all| ensures all[i].key != all[j].key {
      assert all[i] == t.entries[i];
    }
    forall p | p in t.pending ensures Find(t.entries + [e], p).Some? {
      FindAppended(t.entries, e, p);
    }
  }

  lemma ReplaceKeepsTableOk(schema: Schema, maxRows: int, t: Table, key: Bytes, row: Row)
    requires TableOk(schema, maxRows, t) && Find(t.entries, key).Some? && KeyOf(schema, row) == Some(key)
    ensures TableOk(schema, maxRows, Table(Replace(t.entries, key, row), t.pending - {key}))
  {
    ReplaceKeepsPlaces(t.entries, key, row);
  }

  lemma RemoveKeepsTableOk(schema: Schema, maxRows: int, t: Table, key: Bytes)
    requires TableOk(schema, maxRows, t) && Find(t.entries, key).Some? && key !in t.pending
    ensures TableOk(schema, maxRows, t.(entries := Remove(t.entries, key)))
  {
    RemoveDropsOne(t.entries, key);
    forall p | p in t.pending ensures Find(Remove(t.entries, key), p).Some? {
      FindAfterRemove(t.entries, key, p);
    }
  }

  lemma ApplyKeepsTableOk(schema: Schema, maxRows: int, t: Table, row: Row)
    requires TableOk(schema, maxRows, t) && Apply(schema, maxRows, t, row).Ok?
    ensures TableOk(schema, maxRows, Apply(schema, maxRows, t, row).value)
  {
    var k := KeyOf(schema, row).value;
    match row.kind {
      case Insert => InsertKeepsTableOk(schema, maxRows, t, Entry(k, row));
      case UpdateBefore =>
      case UpdateAfter => ReplaceKeepsTableOk(schema, maxRows, t, k, row);
      case Delete => RemoveKeepsTableOk(schema, maxRows, t, k);
      case Unknown(_) =>
    }
  }

  lemma ApplyUpdateKeepsTableOk(schema: Schema, maxRows: int, t: Table, before: Row, after: Row)
    requires TableOk(schema, maxRows, t) && ApplyUpdate(schema, t, before, after).Ok?
    ensures TableOk(schema, maxRows, ApplyUpdate(schema, t, before, after).value)
  {
    ReplaceKeepsPlaces(t.entries, KeyOf(schema, before).value, after);
  }

  /** Distinct keys, every row under its own key, pending keys present, at most maxRows rows: after any calls. */
  lemma {:induction false} RunKeepsTableOk(schema: Schema, maxRows: int, t: Table, calls: seq<Call>)
    requires TableOk(schema, maxRows, t)
    ensures TableOk(schema, maxRows, Run(schema, maxRows, t, calls))
    decreases |calls|
  {
    if calls != [] {
      match calls[0] {
        case Event(row) =>
          if Apply(schema, maxRows, t, row).Ok? {
            ApplyKeepsTableOk(schema, maxRows, t, row);
          }
        case Update(before, after) =>
          if ApplyUpdate(schema, t, before, after).Ok? {
            ApplyUpdateKeepsTableOk(schema, maxRows, t, before, after);
          }
        case RollbackPending =>
      }
      RunKeepsTableOk(schema, maxRows, Step(schema, maxRows, t, calls[0]), calls[1..]);
    }
  }

  // ---- the life of one key ----

  datatype Letter = Inserted | Before | After | RolledBack | Deleted

  /** What a call did to key k, as letters; a refused call and a call about other keys did nothing. */
  function Letters(schema: Schema, maxRows: int, t: Table, call: Call, k: Bytes): seq<Letter> {
    match call
    case Event(row) =>
      if Apply(schema, maxRows, t, row).Err? || KeyOf(schema, row) != Some(k) then []
      else (match row.kind
            case Insert => [Inserted]
            case UpdateBefore => [Before]
            case UpdateAfter => [After]
            case Delete => [Deleted]
            case Unknown(_) => [])
    case Update(before, after) =>
      if ApplyUpdate(schema, t, before, after).Err? || KeyOf(schema, before) != Some(k) then [] else [Before, After]
    case RollbackPending => if k in t.pending then [RolledBack] else []
  }

  function Life(schema: Schema, maxRows: int, t: Table, calls: seq<Call>, k: Bytes): seq<Letter>
    decreases |calls|
  {
    if calls == [] then []
    else
      Letters(schema, maxRows, t, calls[0], k)
      + Life(schema, maxRows, Step(schema, maxRows, t, calls[0]), calls[1..], k)
  }

  /*
   The regular language (Inserted (Before (After | RolledBack))* Deleted)*, prefixes included, read
   left to right: AbsentFrom is the whole language, PresentFrom what may follow a live row and
   PendingFrom what may follow half an update.
   */
  predicate AbsentFrom(w: seq<Letter>) decreases |w| {
    w == [] || (w[0] == Inserted && PresentFrom(w[1..]))
  }

  predicate PresentFrom(w: seq<Letter>) decreases |w| {
    w == [] || (w[0] == Before && PendingFrom(w[1..])) || (w[0] == Deleted && AbsentFrom(w[1..]))
  }

  predicate PendingFrom(w: seq<Letter>) decreases |w| {
    w == [] || ((w[0] == After || w[0] == RolledBack) && PresentFrom(w[1..]))
  }

  datatype Phase = Absent | Present | Pending

  function PhaseOf(t: Table, k: Bytes): Phase {
    if k in t.pending then Pending else if Find(t.entries, k).Some? then Present else Absent
  }

  predicate MayFollow(phase: Phase, w: seq<Letter>) {
    match phase
    case Absent => AbsentFrom(w)
    case Present => PresentFrom(w)
    case Pending => PendingFrom(w)
  }

  /** What the calls accept about one key is a word of the language, from any reachable table on. */
  lemma {:induction false} LifeOfAKey(schema: Schema, maxRows: int, t: Table, calls: seq<Call>, k: Bytes)
    requires TableOk(schema, maxRows, t)
    ensures MayFollow(PhaseOf(t, k), Life(schema, maxRows, t, calls, k))
    decreases |calls|
  {
    if calls != [] {
      var u := Step(schema, maxRows, t, calls[0]);
      RunKeepsTableOk(schema, maxRows, t, [calls[0]]);
      assert Run(schema, maxRows, t, [calls[0]]) == u;
      var rest := Life(schema, maxRows, u, calls[1..], k);
      LifeOfAKey(schema, maxRows, u, calls[1..], k);
      LettersFit(schema, maxRows, t, calls[0], k, rest);
    }
  }

  /** An accepted event moves the phase of its own key along one edge and no other key's. */
  lemma EventMovesPhase(schema: Schema, maxRows: int, t: Table, row: Row, k: Bytes)
    requires DistinctKeys(t.entries) && Apply(schema, maxRows, t, row).Ok?
    ensures var from, to := PhaseOf(t, k), PhaseOf(Apply(schema, maxRows, t, row).value, k);
            if KeyOf(schema, row) != Some(k) then from == to
            else (from, row.kind, to) in {(Absent, Insert, Present), (Present, UpdateBefore, Pending),
                                          (Pending, UpdateAfter, Present), (Present, Delete, Absent)}
  {
    var r := KeyOf(schema, row).value;
    match row.kind {
      case Insert => FindAppended(t.entries, Entry(r, row), k);
      case UpdateBefore =>
      case UpdateAfter => ReplaceKeepsPlaces(t.entries, r, row);
      case Delete => FindAfterRemove(t.entries, r, k);
      case Unknown(_) =>
    }
  }

  lemma EventFits(schema: Schema, maxRows: int, t: Table, row: Row, k: Bytes, rest: seq<Letter>)
    requires DistinctKeys(t.entries) && Apply(schema, maxRows, t, row).Ok?
    requires MayFollow(PhaseOf(Apply(schema, maxRows, t, row).value, k), rest)
    ensures MayFollow(PhaseOf(t, k), Letters(schema, maxRows, t, Event(row), k) + rest)
  {
    EventMovesPhase(schema, maxRows, t, row, k);
    if KeyOf(schema, row) == Some(k) {
      var letters := Letters(schema, maxRows, t, Event(row), k);
      assert |letters| == 1 && (letters + rest)[1..] == rest;
    } else {
      assert [] + rest == rest;
    }
  }

  lemma UpdateFits(schema: Schema, maxRows: int, t: Table, before: Row, after: Row, k: Bytes, rest: seq<Letter>)
    requires ApplyUpdate(schema, t, before, after).Ok?
    requires MayFollow(PhaseOf(ApplyUpdate(schema, t, before, after).value, k), rest)
    ensures MayFollow(PhaseOf(t, k), Letters(schema, maxRows, t, Update(before, after), k) + rest)
  {
    var r := KeyOf(schema, before).value;
    ReplaceKeepsPlaces(t.entries, r, after);
    if r == k {
      assert ([Before, After] + rest)[1..] == [After] + rest && ([After] + rest)[1..] == rest;
      assert PendingFrom([After] + rest);
    } else {
      assert [] + rest == rest;
    }
  }

  lemma LettersFit(schema: Schema, maxRows: int, t: Table, call: Call, k: Bytes, rest: seq<Letter>)
    requires TableOk(schema, maxRows, t)
    requires MayFollow(PhaseOf(Step(schema, maxRows, t, call), k), rest)
    ensures MayFollow(PhaseOf(t, k), Letters(schema, maxRows, t, call, k) + rest)
  {
    assert [] + rest == rest;
    match call {
      case Event(row) =>
        if Apply(schema, maxRows, t, row).Ok? {
          EventFits(schema, maxRows, t, row, k, rest);
        }
      case Update(before, after) =>
        if ApplyUpdate(schema, t, before, after).Ok? {
          UpdateFits(schema, maxRows, t, before, after, k, rest);
        }
      case RollbackPending =>
        assert ([RolledBack] + rest)[1..] == rest;
    }
  }

  // ---- what the table holds, in terms of what was accepted ----

  /** What an accepted call does to the visible rows. */
  datatype Change = Put(key: Bytes, row: Row) | Set(key: Bytes, row: Row) | Drop(key: Bytes)

  function ChangesOf(schema: Schema, maxRows: int, t: Table, call: Call): seq<Change> {
    match call
    case Event(row) =>
      if Apply(schema, maxRows, t, row).Err? then []
      else
        var k := KeyOf(schema, row).value;
        (match row.kind
         case Insert => [Put(k, row)]
         case UpdateAfter => [Set(k, row)]
         case Delete => [Drop(k)]
         case _ => [])
    case Update(before, after) =>
      if ApplyUpdate(schema, t, before, after).Err? then [] else [Set(KeyOf(schema, after).value, after)]
    case RollbackPending => []
  }

  function Changes(schema: Schema, maxRows: int, t: Table, calls: seq<Call>): seq<Change>
    decreases |calls|
  {
    if calls == [] then []
    else
      ChangesOf(schema, maxRows, t, calls[0])
      + Changes(schema, maxRows, Step(schema, maxRows, t, calls[0]), calls[1..])
  }

  /** The row last put or set under this key, unless it was dropped since. */
  function Standing(changes: seq<Change>, key: Bytes): Option<Row> {
    if changes == [] then None
    else
      var last := changes[|changes| - 1];
      if last.key != key then Standing(changes[..|changes| - 1], key)
      else if last.Drop? then None
      else Some(last.row)
  }

  /** The place of the change that put this key where it stands, -1 if it does not stand. */
  function PutAt(changes: seq<Change>, key: Bytes): (at: int)
    ensures -1 <= at < |changes|
  {
    if changes == [] then -1
    else
      var front, last := changes[..|changes| - 1], changes[|changes| - 1];
      if last.key != key || last.Set? then PutAt(front, key) else if last.Put? then |front| else -1
  }

  ghost predicate RowsStand(entries: seq<Entry>, changes: seq<Change>) {
    forall k :: Find(entries, k) == Standing(changes, k)
  }

  ghost predicate InPutOrder(entries: seq<Entry>, changes: seq<Change>) {
    && (forall i :: 0 <= i < |entries| ==> PutAt(changes, entries[i].key) >= 0)
    && (forall i, j :: 0 <= i < j < |entries| ==> PutAt(changes, entries[i].key) < PutAt(changes, entries[j].key))
  }

  /** Exactly the standing rows, in the order in which their keys were put. */
  ghost predicate Reflects(t: Table, changes: seq<Change>) {
    RowsStand(t.entries, changes) && InPutOrder(t.entries, changes)
  }

  lemma OneMoreChange(changes: seq<Change>, change: Change)
    ensures forall key :: Standing(changes + [change], key) ==
              if change.key != key then Standing(changes, key) else if change.Drop? then None else Some(change.row)
    ensures forall key :: PutAt(changes + [change], key) ==
              if change.key != key || change.Set? then PutAt(changes, key) else if change.Put? then |changes| else -1
  {
    assert (changes + [change])[..|changes|] == changes;
  }

  lemma PutReflects(t: Table, changes: seq<Change>, e: Entry)
    requires Reflects(t, changes) && Find(t.entries, e.key).None?
    ensures Reflects(t.(entries := t.entries + [e]), changes + [Put(e.key, e.row)])
  {
    FindIsMembership(t.entries, e.key);
    OneMoreChange(changes, Put(e.key, e.row));
    forall k ensures Find(t.entries + [e], k) == Standing(changes + [Put(e.key, e.row)], k) {
      FindAppended(t.entries, e, k);
    }
  }

  lemma SetReflects(t: Table, changes: seq<Change>, key: Bytes, row: Row, pending: set<Bytes>)
    requires Reflects(t, changes) && Find(t.entries, key).Some?
    ensures Reflects(Table(Replace(t.entries, key, row), pending), changes + [Set(key, row)])
  {
    ReplaceKeepsPlaces(t.entries, key, row);
    OneMoreChange(changes, Set(key, row));
  }

  lemma DropReflects(t: Table, changes: seq<Change>, key: Bytes)
    requires Reflects(t, changes) && DistinctKeys(t.entries) && Find(t.entries, key).Some?
    ensures Reflects(t.(entries := Remove(t.entries, key)), changes + [Drop(key)])
  {
    OneMoreChange(changes, Drop(key));
    forall k ensures Find(Remove(t.entries, key), k) == Standing(changes + [Drop(key)], k) {
      FindAfterRemove(t.entries, key, k);
    }
    DropKeepsOrder(t.entries, changes, key);
  }

  lemma DropKeepsOrder(entries: seq<Entry>, changes: seq<Change>, key: Bytes)
    requires InPutOrder(entries, changes) && DistinctKeys(entries) && Find(entries, key).Some?
    ensures InPutOrder(Remove(entries, key), changes + [Drop(key)])
  {
    var p := RemoveAt(entries, key);
    var rest := Remove(entries, key);
    OthersStay(entries, changes, p);
    forall i, j | 0 <= i < j < |rest|
      ensures PutAt(changes + [Drop(key)], rest[i].key) < PutAt(changes + [Drop(key)], rest[j].key)
    {
      var x, y := if i < p then i else i + 1, if j < p then j else j + 1;
      assert rest[i] == entries[x] && rest[j] == entries[y];
    }
    forall i | 0 <= i < |rest| ensures PutAt(changes + [Drop(key)], rest[i].key) >= 0 {
      assert rest[i] == entries[if i < p then i else i + 1];
    }
  }

  lemma OthersStay(entries: seq<Entry>, changes: seq<Change>, p: nat)
    requires p < |entries| && DistinctKeys(entries)
    ensures forall i :: 0 <= i < |entries| && i != p ==>
              PutAt(changes + [Drop(entries[p].key)], entries[i].key) == PutAt(changes, entries[i].key)
  {
    OneMoreChange(changes, Drop(entries[p].key));
  }

  lemma StepReflects(schema: Schema, maxRows: int, t: Table, changes: seq<Change>, call: Call)
    requires TableOk(schema, maxRows, t) && Reflects(t, changes)
    ensures Reflects(Step(schema, maxRows, t, call), changes + ChangesOf(schema, maxRows, t, call))
  {
    assert changes + [] == changes;
    match call {
      case Event(row) =>
        if Apply(schema, maxRows, t, row).Ok? {
          var k := KeyOf(schema, row).value;
          match row.kind {
            case Insert => PutReflects(t, changes, Entry(k, row));
            case UpdateAfter => SetReflects(t, changes, k, row, t.pending - {k});
            case Delete => DropReflects(t, changes, k);
            case _ =>
          }
        }
      case Update(before, after) =>
        if ApplyUpdate(schema, t, before, after).Ok? {
          SetReflects(t, changes, KeyOf(schema, after).value, after, t.pending);
        }
      case RollbackPending =>
    }
  }

  lemma StepKeepsTableOk(schema: Schema, maxRows: int, t: Table, call: Call)
    requires TableOk(schema, maxRows, t)
    ensures TableOk(schema, maxRows, Step(schema, maxRows, t, call))
  {
    RunKeepsTableOk(schema, maxRows, t, [call]);
    assert Run(schema, maxRows, t, [call]) == Step(schema, maxRows, t, call);
  }

  lemma Regrouped(a: seq<Change>, b: seq<Change>, c: seq<Change>)
    ensures a + b + c == a + (b + c) && [] + c == c
  {
  }

  lemma {:induction false} RunReflects(schema: Schema, maxRows: int, t: Table, changes: seq<Change>, calls: seq<Call>)
    requires TableOk(schema, maxRows, t) && Reflects(t, changes)
    ensures Reflects(Run(schema, maxRows, t, calls), changes + Changes(schema, maxRows, t, calls))
    decreases |calls|
  {
    if calls == [] {
      assert changes + [] == changes;
    } else {
      var u, more := Step(schema, maxRows, t, calls[0]), ChangesOf(schema, maxRows, t, calls[0]);
      StepReflects(schema, maxRows, t, changes, calls[0]);
      StepKeepsTableOk(schema, maxRows, t, calls[0]);
      RunReflects(schema, maxRows, u, changes + more, calls[1..]);
      Regrouped(changes, more, Changes(schema, maxRows, u, calls[1..]));
    }
  }

  lemma EmptyReflects(schema: Schema, maxRows: int)
    requires maxRows >= 0
    ensures TableOk(schema, maxRows, EMPTY) && Reflects(EMPTY, [])
  {
  }

  /**
   After any calls on an empty table its rows are exactly those last inserted or updated and not deleted since, in the
   order of the inserts: an update keeps a row's place, and a key inserted again goes to the end.
   */
  lemma TableTellsHistory(schema: Schema, maxRows: int, calls: seq<Call>)
    requires maxRows >= 0
    ensures Reflects(Run(schema, maxRows, EMPTY, calls), Changes(schema, maxRows, EMPTY, calls))
  {
    EmptyReflects(schema, maxRows);
    RunReflects(schema, maxRows, EMPTY, [], calls);
    Regrouped([], [], Changes(schema, maxRows, EMPTY, calls));
  }

  /** The first half of an update must repeat the row it is about: as many fields, each the same once trimmed. */
  predicate Repeats(schema: Schema, stored: Row, row: Row) {
    && |stored.fields| == |row.fields|
    && forall i :: 0 <= i < |row.fields| ==> schema.trim(stored.fields[i]) == schema.trim(row.fields[i])
  }

  /** Why an event about key k is refused, if it is, by where k is in its life. */
  function Refusal(schema: Schema, maxRows: int, t: Table, row: Row, k: Bytes): Option<Error> {
    if row.kind.Unknown? then Some(UnsupportedRowKind)
    else
      match PhaseOf(t, k)
      case Absent =>
        if row.kind != Insert then Some(RowNotFound)
        else if |t.entries| < maxRows then None
        else Some(MaxRowsExceeded)
      case Present =>
        if row.kind == Insert then Some(DuplicateKey)
        else if row.kind == Delete then None
        else if row.kind == UpdateBefore && Find(t.entries, k).Some?
                && Repeats(schema, Find(t.entries, k).value, row) then None
        else Some(UpdateOrder)
      case Pending =>
        if row.kind == Insert then Some(DuplicateKey)
        else if row.kind == UpdateAfter then None
        else Some(UpdateOrder)
  }

  ghost predicate RefusedRightly(schema: Schema, maxRows: int, t: Table, row: Row, k: Bytes) {
    match Refusal(schema, maxRows, t, row, k)
    case None => Apply(schema, maxRows, t, row).Ok?
    case Some(e) => Apply(schema, maxRows, t, row) == Err(e)
  }

  lemma PresentOrPending(schema: Schema, maxRows: int, t: Table, k: Bytes)
    requires TableOk(schema, maxRows, t)
    ensures PhaseOf(t, k) == Absent <==> Find(t.entries, k).None?
    ensures PhaseOf(t, k) == Pending <==> k in t.pending
  {
  }

  /** Every event is accepted, or refused for the reason that its key's life gives. */
  lemma WhyRefused(schema: Schema, maxRows: int, t: Table, row: Row, k: Bytes)
    requires TableOk(schema, maxRows, t) && KeyOf(schema, row) == Some(k)
    ensures RefusedRightly(schema, maxRows, t, row, k)
  {
    PresentOrPending(schema, maxRows, t, k);
    match row.kind {
      case Insert => FirstRefused(schema, maxRows, t, row, k);
      case Delete => FirstRefused(schema, maxRows, t, row, k);
      case UpdateBefore => HalfRefused(schema, maxRows, t, row, k);
      case UpdateAfter => HalfRefused(schema, maxRows, t, row, k);
      case Unknown(_) =>
    }
  }

  lemma FirstRefused(schema: Schema, maxRows: int, t: Table, row: Row, k: Bytes)
    requires KeyOf(schema, row) == Some(k) && (row.kind == Insert || row.kind == Delete)
    requires PhaseOf(t, k) == Absent <==> Find(t.entries, k).None?
    ensures RefusedRightly(schema, maxRows, t, row, k)
  {
  }

  lemma HalfRefused(schema: Schema, maxRows: int, t: Table, row: Row, k: Bytes)
    requires KeyOf(schema, row) == Some(k) && (row.kind == UpdateBefore || row.kind == UpdateAfter)
    requires PhaseOf(t, k) == Absent <==> Find(t.entries, k).None?
    ensures RefusedRightly(schema, maxRows, t, row, k)
  {
    if row.kind == UpdateBefore && Find(t.entries, k).Some? {
      var stored := Find(t.entries, k).value;
      assert SameFields(schema, stored, row) <==> Repeats(schema, stored, row);
    }
  }
}

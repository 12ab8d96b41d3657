/**
 Compiling a declarative setup plan into numbered statements: which plans are accepted, and what each step
 says when read back.
 */
module SetupCompile {
  import opened Counting
  import opened Lists
  import opened Text
  import opened SetupStatements

  const MAX_IDENTIFIER_BYTES := 1024

  datatype StepKind = CatalogStep | DatabaseStep | TableStep | UseCatalogStep | UseDatabaseStep

  datatype Identifier = Identifier(catalog: string, database: string, table: string)

  datatype Step = Step(index: nat, kind: StepKind, target: Identifier, statement: string, verify: bool)

  datatype CatalogSetup = CatalogSetup(name: string, ifNotExists: bool, options: map<string, string>,
      sensitiveKeys: seq<string>)

  datatype DatabaseSetup = DatabaseSetup(catalog: string, name: string, ifNotExists: bool, options: map<string, string>)

  datatype TableSetup = TableSetup(target: Identifier, statement: string, ifNotExists: bool, verify: bool)

  datatype Plan = Plan(
    catalogs: seq<CatalogSetup>,
    databases: seq<DatabaseSetup>,
    tables: seq<TableSetup>,
    currentCatalog: string,
    currentDatabase: string)

  /** strings.ToUpper, and whether compileSensitiveKeys accepts a key, which is about Unicode classes. */
  datatype Library = Library(upper: string -> string, sensitiveKeyOk: string -> bool)

  // ---- acceptance, declared ----

  predicate IsControl(c: char) {
    c <= '\U{1F}' || '\U{7F}' <= c <= '\U{9F}'
  }

  predicate ValidIdentifier(value: string) {
    && !IsBlank(value) && TextBytes(value) <= MAX_IDENTIFIER_BYTES
    && forall i :: 0 <= i < |value| ==> !IsControl(value[i])
  }

  ghost predicate OptionsOk(options: map<string, string>) {
    forall key :: key in options ==> !IsBlank(key)
  }

  ghost predicate CatalogOk(lib: Library, c: CatalogSetup) {
    && ValidIdentifier(c.name) && c.options != map[] && OptionsOk(c.options)
    && forall i :: 0 <= i < |c.sensitiveKeys| ==> lib.sensitiveKeyOk(c.sensitiveKeys[i])
  }

  ghost predicate DatabaseOk(d: DatabaseSetup) {
    ValidIdentifier(d.catalog) && ValidIdentifier(d.name) && OptionsOk(d.options)
  }

  /** The first word of a text that does not start with white space. */
  function FirstWord(s: string): string {
    if s == "" || IsSpace(s[0]) then "" else [s[0]] + FirstWord(s[1..])
  }

  predicate DefinitionOk(lib: Library, statement: string) {
    var definition := TrimSpace(statement);
    && definition != ""
    && (definition[0] == '('
        || lib.upper(FirstWord(definition)) in {"COMMENT", "PARTITIONED", "DISTRIBUTED", "WITH", "LIKE", "AS"})
  }

  predicate TableOk(lib: Library, t: TableSetup) {
    && ValidIdentifier(t.target.catalog) && ValidIdentifier(t.target.database) && ValidIdentifier(t.target.table)
    && DefinitionOk(lib, t.statement)
  }

  ghost function GoodCatalog(lib: Library): CatalogSetup -> bool {
    c => CatalogOk(lib, c)
  }

  ghost function GoodDatabase(): DatabaseSetup -> bool {
    d => DatabaseOk(d)
  }

  function GoodTable(lib: Library): TableSetup -> bool {
    t => TableOk(lib, t)
  }

  function CatalogTarget(): CatalogSetup -> string {
    (c: CatalogSetup) => c.name
  }

  function DatabaseTarget(): DatabaseSetup -> (string, string) {
    (d: DatabaseSetup) => (d.catalog, d.name)
  }

  function TableTarget(): TableSetup -> Identifier {
    (t: TableSetup) => t.target
  }

  predicate CurrentOk(plan: Plan) {
    && (plan.currentDatabase != "" ==> plan.currentCatalog != "" && ValidIdentifier(plan.currentDatabase))
    && (plan.currentCatalog != "" ==> ValidIdentifier(plan.currentCatalog))
  }

  /** Something to do, every part well formed, no target set up twice. */
  ghost predicate Accepted(lib: Library, plan: Plan) {
    && plan != Plan([], [], [], "", "")
    && EachOnce(GoodCatalog(lib), CatalogTarget(), plan.catalogs)
    && EachOnce(GoodDatabase(), DatabaseTarget(), plan.databases)
    && EachOnce(GoodTable(lib), TableTarget(), plan.tables)
    && CurrentOk(plan)
  }

  // ---- options in key order ----

  /** Byte order of UTF-8 texts, which is the order of their code points. */
  predicate Less(a: string, b: string) {
    b != "" && (a == "" || a[0] < b[0] || (a[0] == b[0] && Less(a[1..], b[1..])))
  }

  lemma {:induction false} LessIsStrict(a: string, b: string)
    ensures a == b ==> !Less(a, b)
    ensures !(Less(a, b) && Less(b, a))
    ensures a != b ==> Less(a, b) || Less(b, a)
  {
    if a != "" && b != "" {
      LessIsStrict(a[1..], b[1..]);
      if a[0] == b[0] && a[1..] == b[1..] {
        assert a == [a[0]] + a[1..] == b;
      }
    }
  }

  lemma {:induction false} LessTransitive(a: string, b: string, c: string)
    requires Less(a, b) && Less(b, c)
    ensures Less(a, c)
  {
    if a != "" && a[0] == b[0] == c[0] {
      LessTransitive(a[1..], b[1..], c[1..]);
    }
  }

  ghost predicate Ascending(keys: seq<string>) {
    forall i, j :: 0 <= i < j < |keys| ==> Less(keys[i], keys[j])
  }

  function Insert(keys: seq<string>, key: string): seq<string> {
    if keys == [] then [key] else if Less(key, keys[0]) then [key] + keys else [keys[0]] + Insert(keys[1..], key)
  }

  function Sorted(keys: seq<string>): seq<string> {
    if keys == [] then [] else Insert(Sorted(keys[..|keys| - 1]), keys[|keys| - 1])
  }

  lemma {:induction false} InsertSorts(keys: seq<string>, key: string)
    requires Ascending(keys) && key !in keys
    ensures Ascending(Insert(keys, key))
    ensures forall k :: k in Insert(keys, key) <==> k in keys || k == key
  {
    if keys != [] {
      assert forall k :: k in keys <==> k == keys[0] || k in keys[1..];
      LessIsStrict(key, keys[0]);
      if Less(key, keys[0]) {
        forall i | 0 <= i < |keys| ensures Less(key, keys[i]) {
          if i > 0 {
            LessTransitive(key, keys[0], keys[i]);
          }
        }
      } else {
        InsertSorts(keys[1..], key);
        var rest := Insert(keys[1..], key);
        forall i | 0 <= i < |rest| ensures Less(keys[0], rest[i]) {
          assert rest[i] in rest;
        }
      }
    }
  }

  lemma {:induction false} SortedSorts(keys: seq<string>)
    requires NoRepeats(keys)
    ensures Ascending(Sorted(keys)) && forall k :: k in Sorted(keys) <==> k in keys
  {
    if keys != [] {
      var front, last := keys[..|keys| - 1], keys[|keys| - 1];
      SortedSorts(front);
      InsertSorts(Sorted(front), last);
      assert forall k :: k in keys <==> k in front || k == last;
    }
  }

  /** There is only one ascending list of a set of keys, so the order a Go map is walked in cannot show. */
  lemma {:induction false} AscendingIsUnique(a: seq<string>, b: seq<string>)
    requires Ascending(a) && Ascending(b) && forall k :: k in a <==> k in b
    ensures a == b
  {
    if a != [] {
      assert a[0] in a;
    }
    if b != [] {
      assert b[0] in b;
    }
    if a != [] && b != [] {
      HeadIsLeast(a, b);
      HeadIsLeast(b, a);
      LessIsStrict(a[0], b[0]);
      forall k ensures k in a[1..] <==> k in b[1..] {
        LessIsStrict(k, k);
        assert k in a <==> k == a[0] || k in a[1..];
        assert k in b <==> k == b[0] || k in b[1..];
      }
      AscendingIsUnique(a[1..], b[1..]);
    }
  }

  lemma HeadIsLeast(a: seq<string>, b: seq<string>)
    requires Ascending(a) && a != [] && b != [] && b[0] in a
    ensures a[0] == b[0] || Less(a[0], b[0])
  {
  }

  function PairsOf(options: map<string, string>, keys: seq<string>): Pairs
    requires forall k :: k in keys ==> k in options
  {
    seq(|keys|, i requires 0 <= i < |keys| => (keys[i], options[keys[i]]))
  }

  ghost predicate SortedKeysOf(options: map<string, string>, keys: seq<string>) {
    Ascending(keys) && forall k :: k in keys <==> k in options
  }

  lemma {:induction false} SortedKeysExist(options: map<string, string>)
    ensures exists keys :: SortedKeysOf(options, keys)
    decreases |options|
  {
    if options == map[] {
      assert SortedKeysOf(options, []);
    } else {
      var k :| k in options;
      var fewer := options - {k};
      SortedKeysExist(fewer);
      var rest :| SortedKeysOf(fewer, rest);
      InsertSorts(rest, k);
      assert SortedKeysOf(options, Insert(rest, k));
    }
  }

  ghost function SortedKeys(options: map<string, string>): (keys: seq<string>)
    ensures SortedKeysOf(options, keys)
  {
    SortedKeysExist(options);
    var keys :| SortedKeysOf(options, keys);
    keys
  }

  /** The options as a list by ascending key. */
  ghost function SortedPairs(options: map<string, string>): Pairs {
    PairsOf(options, SortedKeys(options))
  }

  lemma SortedPairsAre(options: map<string, string>, keys: seq<string>)
    requires SortedKeysOf(options, keys)
    ensures SortedPairs(options) == PairsOf(options, keys)
  {
    AscendingIsUnique(SortedKeys(options), keys);
  }

  lemma NoOptionsNoText(options: map<string, string>)
    ensures SortedPairs(options) == [] <==> options == map[]
    ensures OptionsText(SortedPairs(options)) == "" <==> options == map[]
  {
    var keys, pairs := SortedKeys(options), SortedPairs(options);
    if options != map[] {
      var k :| k in options;
      assert k in keys;
    }
    if pairs != [] {
      assert keys[0] in options;
      assert Clauses(pairs)[0] == Clause(pairs[0]) != "";
    }
  }

  // ---- what a plan means ----

  datatype Planned = Planned(kind: StepKind, target: Identifier, statement: Statement, verify: bool)

  ghost function PlannedCatalog(c: CatalogSetup): Planned {
    Planned(CatalogStep, Identifier(c.name, "", ""),
            CreateCatalog(c.name, c.ifNotExists, SortedPairs(c.options)), false)
  }

  ghost function PlannedDatabase(d: DatabaseSetup): Planned {
    Planned(DatabaseStep, Identifier(d.catalog, d.name, ""),
            CreateDatabase(d.catalog, d.name, d.ifNotExists, SortedPairs(d.options)), false)
  }

  function PlannedTable(t: TableSetup): Planned {
    PlannedTableBy(TrimSpace, t)
  }

  function PlannedTableBy(trim: string -> string, t: TableSetup): Planned {
    Planned(TableStep, t.target,
            CreateTable(t.target.catalog, t.target.database, t.target.table, t.ifNotExists, trim(t.statement)),
            t.verify)
  }

  function PlannedUseCatalog(plan: Plan): seq<Planned> {
    if plan.currentCatalog == "" then []
    else [Planned(UseCatalogStep, Identifier(plan.currentCatalog, "", ""), UseCatalog(plan.currentCatalog), false)]
  }

  function PlannedUseDatabase(plan: Plan): seq<Planned> {
    if plan.currentDatabase == "" then []
    else [Planned(UseDatabaseStep, Identifier(plan.currentCatalog, plan.currentDatabase, ""),
                  UseDatabase(plan.currentDatabase), false)]
  }

  ghost function PlanCatalog(): CatalogSetup -> Planned {
    c => PlannedCatalog(c)
  }

  ghost function PlanDatabase(): DatabaseSetup -> Planned {
    d => PlannedDatabase(d)
  }

  function PlanTable(): TableSetup -> Planned {
    PlanTableBy(TrimSpace)
  }

  function PlanTableBy(trim: string -> string): TableSetup -> Planned {
    t => PlannedTableBy(trim, t)
  }

  ghost function PlannedSteps(plan: Plan): seq<Planned> {
    Mapped(PlanCatalog(), plan.catalogs) + Mapped(PlanDatabase(), plan.databases) + Mapped(PlanTable(), plan.tables)
    + PlannedUseCatalog(plan) + PlannedUseDatabase(plan)
  }

  /** The steps are the planned statements in print, numbered from 0. */
  ghost predicate Compiled(steps: seq<Step>, planned: seq<Planned>) {
    && |steps| == |planned|
    && forall i :: 0 <= i < |steps| ==>
         steps[i] == Step(i, planned[i].kind, planned[i].target, Print(planned[i].statement), planned[i].verify)
  }

  function AppendStep(steps: seq<Step>, kind: StepKind, target: Identifier, statement: string,
      verify: bool): seq<Step>
  {
    steps + [Step(|steps|, kind, target, statement, verify)]
  }

  lemma AppendCompiles(steps: seq<Step>, planned: seq<Planned>, next: Planned)
    requires Compiled(steps, planned)
    ensures Compiled(AppendStep(steps, next.kind, next.target, Print(next.statement), next.verify), planned + [next])
  {
  }

  lemma AppendMapped<T>(steps: seq<Step>, planned: seq<Planned>, f: T -> Planned, xs: seq<T>, n: nat)
    requires n < |xs| && Compiled(steps, planned + Mapped(f, xs[..n]))
    ensures var next := f(xs[n]);
            Compiled(AppendStep(steps, next.kind, next.target, Print(next.statement), next.verify),
                     planned + Mapped(f, xs[..n + 1]))
  {
    MappedOneMore(f, xs, n);
    AppendCompiles(steps, planned + Mapped(f, xs[..n]), f(xs[n]));
    assert planned + Mapped(f, xs[..n]) + [f(xs[n])] == planned + Mapped(f, xs[..n + 1]);
  }

  // ---- compiling ----

  method CompileOptions(options: map<string, string>) returns (text: Option<string>)
    ensures text.Some? <==> OptionsOk(options)
    ensures text.Some? ==> text.value == OptionsText(SortedPairs(options))
  {
    NoOptionsNoText(options);
    if options == map[] {
      return Some("");
    }
    var keys := KeysInSomeOrder(options);
    if exists k :: k in keys && IsBlank(k) {
      return None;
    }
    SortedSorts(keys);
    keys := Sorted(keys);
    SortedPairsAre(options, keys);
    var clauses := OptionClauses(options, keys);
    return Some(Join(clauses, ", "));
  }

  method OptionClauses(options: map<string, string>, keys: seq<string>) returns (clauses: seq<string>)
    requires forall k :: k in keys ==> k in options
    ensures clauses == Clauses(PairsOf(options, keys))
  {
    clauses := [];
    for i := 0 to |keys|
      invariant |clauses| == i && forall j :: 0 <= j < i ==> clauses[j] == Clause((keys[j], options[keys[j]]))
    {
      assert keys[i] in keys;
      clauses := clauses + [QuoteLiteral(keys[i]) + " = " + QuoteLiteral(options[keys[i]])];
    }
  }

  /** Ranging over a map: every key once, in any order. */
  method KeysInSomeOrder(options: map<string, string>) returns (keys: seq<string>)
    ensures forall k :: k in keys <==> k in options
    ensures NoRepeats(keys)
  {
    keys := [];
    var remaining := options.Keys;
    while remaining != {}
      invariant remaining <= options.Keys
      invariant forall k :: k in options <==> k in keys || k in remaining
      invariant forall k :: k in keys ==> k !in remaining
      invariant NoRepeats(keys)
    {
      var key :| key in remaining;
      keys := keys + [key];
      remaining := remaining - {key};
    }
  }

  function NonEmpty(parts: seq<string>): seq<string> {
    if parts == [] then [] else (if parts[0] == "" then [] else [parts[0]]) + NonEmpty(parts[1..])
  }

  lemma {:induction false} NonEmptyAppend(parts: seq<string>, part: string)
    ensures NonEmpty(parts + [part]) == NonEmpty(parts) + if part == "" then [] else [part]
  {
    if parts != [] {
      assert (parts + [part])[1..] == parts[1..] + [part];
      NonEmptyAppend(parts[1..], part);
    }
  }

  lemma {:induction false} NonEmptyPart(parts: seq<string>, i: nat)
    requires i < |parts| && parts[i] != ""
    ensures parts[i] in NonEmpty(parts)
  {
    if i > 0 {
      NonEmptyPart(parts[1..], i - 1);
    }
  }

  predicate AllValid(parts: seq<string>) {
    forall part :: part in parts ==> ValidIdentifier(part)
  }

  function Quotes(parts: seq<string>): seq<string> {
    seq(|parts|, i requires 0 <= i < |parts| => QuoteIdentifier(parts[i]))
  }

  /** The parts of a target that are set, quoted, with dots between them; refused if one of those is not valid. */
  method QualifiedTarget(values: seq<string>) returns (text: Option<string>)
    ensures text.Some? <==> AllValid(NonEmpty(values))
    ensures text.Some? ==> text.value == Qualified(NonEmpty(values))
  {
    var parts: seq<string> := [];
    ghost var kept: seq<string> := [];
    for i := 0 to |values|
      invariant kept == NonEmpty(values[..i])
      invariant parts == Quotes(kept)
      invariant AllValid(kept)
    {
      NextPart(values, i);
      if values[i] != "" {
        if !ValidIdentifier(values[i]) {
          NonEmptyPart(values, i);
          return None;
        }
        QuotesAppend(kept, values[i]);
        kept := kept + [values[i]];
        parts := parts + [QuoteIdentifier(values[i])];
      }
    }
    assert values[..|values|] == values;
    return Some(Join(parts, "."));
  }

  lemma NextPart(values: seq<string>, i: nat)
    requires i < |values|
    ensures NonEmpty(values[..i + 1]) == if values[i] == "" then NonEmpty(values[..i])
                                         else NonEmpty(values[..i]) + [values[i]]
  {
    assert values[..i + 1] == values[..i] + [values[i]];
    NonEmptyAppend(values[..i], values[i]);
  }

  lemma QuotesAppend(parts: seq<string>, part: string)
    requires AllValid(parts) && ValidIdentifier(part)
    ensures Quotes(parts + [part]) == Quotes(parts) + [QuoteIdentifier(part)] && AllValid(parts + [part])
  {
  }

  /** The targets of databases have two parts, those of tables three. */
  lemma TargetParts(catalog: string, database: string, table: string)
    requires catalog != "" && database != ""
    ensures NonEmpty([catalog, database, table]) == if table == "" then [catalog, database]
                                                    else [catalog, database, table]
  {
    assert NonEmpty([table]) == if table == "" then [] else [table];
    assert [database, table][1..] == [table];
    assert NonEmpty([database, table]) == [database] + NonEmpty([table]);
    assert [catalog, database, table][1..] == [database, table];
  }

  method Create(keywords: string, ifNotExists: bool) returns (statement: string)
    ensures statement == keywords + IfNotExists(ifNotExists)
  {
    statement := keywords;
    if ifNotExists {
      statement := statement + "IF NOT EXISTS ";
    }
  }

  method CatalogStatement(lib: Library, c: CatalogSetup) returns (r: Option<string>)
    ensures r.Some? <==> CatalogOk(lib, c)
    ensures r.Some? ==> r.value == Print(PlannedCatalog(c).statement)
  {
    if !ValidIdentifier(c.name) || c.options == map[]
       || exists i :: 0 <= i < |c.sensitiveKeys| && !lib.sensitiveKeyOk(c.sensitiveKeys[i]) {
      return None;
    }
    var options := CompileOptions(c.options);
    if options.None? {
      return None;
    }
    var statement := Create("CREATE CATALOG ", c.ifNotExists);
    return Some(statement + QuoteIdentifier(c.name) + (" WITH (" + options.value + ")"));
  }

  method CompileCatalogs(lib: Library, cs: seq<CatalogSetup>) returns (r: Option<seq<Step>>)
    ensures r.Some? <==> EachOnce(GoodCatalog(lib), CatalogTarget(), cs)
    ensures r.Some? ==> Compiled(r.value, Mapped(PlanCatalog(), cs))
  {
    var steps: seq<Step> := [];
    var seen: set<string> := {};
    for index := 0 to |cs|
      invariant forall k :: k in seen <==> k in Mapped(CatalogTarget(), cs[..index])
      invariant EachOnce(GoodCatalog(lib), CatalogTarget(), cs[..index])
      invariant Compiled(steps, Mapped(PlanCatalog(), cs[..index]))
    {
      var c := cs[index];
      EachOnceOneMore(GoodCatalog(lib), CatalogTarget(), cs, index);
      MappedOneMore(PlanCatalog(), cs, index);
      MappedOneMore(CatalogTarget(), cs, index);
      var statement := CatalogStatement(lib, c);
      if c.name in seen || statement.None? {
        return None;
      }
      seen := seen + {c.name};
      AppendCompiles(steps, Mapped(PlanCatalog(), cs[..index]), PlannedCatalog(c));
      steps := AppendStep(steps, CatalogStep, Identifier(c.name, "", ""), statement.value, false);
    }
    assert cs[..|cs|] == cs;
    return Some(steps);
  }

  const NUL: string := "\0"

  method DatabaseStatement(d: DatabaseSetup) returns (r: Option<string>)
    ensures r.Some? <==> DatabaseOk(d)
    ensures r.Some? ==> r.value == Print(PlannedDatabase(d).statement)
  {
    if !ValidIdentifier(d.catalog) || !ValidIdentifier(d.name) {
      return None;
    }
    var options := CompileOptions(d.options);
    if options.None? {
      return None;
    }
    var qualified := QualifiedTarget([d.catalog, d.name, ""]);
    TargetParts(d.catalog, d.name, "");
    var statement := DatabaseText(d, qualified.value, options.value);
    return Some(statement);
  }

  method DatabaseText(d: DatabaseSetup, qualified: string, options: string) returns (statement: string)
    requires qualified == Qualified([d.catalog, d.name]) && options == OptionsText(SortedPairs(d.options))
    ensures statement == Print(PlannedDatabase(d).statement)
  {
    NoOptionsNoText(d.options);
    statement := Create("CREATE DATABASE ", d.ifNotExists);
    statement := statement + qualified;
    if options != "" {
      statement := statement + (" WITH (" + options + ")");
    }
  }

  method CompileDatabases(ghost planned: seq<Planned>, before: seq<Step>, ds: seq<DatabaseSetup>)
      returns (r: Option<seq<Step>>)
    requires Compiled(before, planned)
    ensures r.Some? <==> EachOnce(GoodDatabase(), DatabaseTarget(), ds)
    ensures r.Some? ==> Compiled(r.value, planned + Mapped(PlanDatabase(), ds))
  {
    var steps := before;
    var seen: set<string> := {};
    assert planned + Mapped(PlanDatabase(), ds[..0]) == planned;
    for index := 0 to |ds|
      invariant forall k :: k in seen <==> k in Mapped(DatabaseKey(), ds[..index])
      invariant EachOnce(GoodDatabase(), DatabaseTarget(), ds[..index])
      invariant Compiled(steps, planned + Mapped(PlanDatabase(), ds[..index]))
    {
      var d := ds[index];
      EachOnceOneMore(GoodDatabase(), DatabaseTarget(), ds, index);
      MappedOneMore(DatabaseKey(), ds, index);
      var statement := DatabaseStatement(d);
      if statement.None? {
        return None;
      }
      SameDatabaseSameKey(ds[..index], d);
      if DatabaseKey()(d) in seen {
        return None;
      }
      seen := seen + {DatabaseKey()(d)};
      AppendMapped(steps, planned, PlanDatabase(), ds, index);
      steps := AppendStep(steps, DatabaseStep, Identifier(d.catalog, d.name, ""), statement.value, false);
    }
    assert ds[..|ds|] == ds;
    return Some(steps);
  }

  method TableStatement(lib: Library, t: TableSetup) returns (r: Option<string>)
    ensures r.Some? <==> TableOk(lib, t)
    ensures r.Some? ==> r.value == Print(PlannedTable(t).statement)
  {
    if !ValidIdentifier(t.target.catalog) || !ValidIdentifier(t.target.database) || !ValidIdentifier(t.target.table)
       || !DefinitionOk(lib, t.statement) {
      return None;
    }
    var qualified := QualifiedTable(t.target);
    var statement := TableText(t, qualified);
    return Some(statement);
  }

  method QualifiedTable(target: Identifier) returns (text: string)
    requires ValidIdentifier(target.catalog) && ValidIdentifier(target.database) && ValidIdentifier(target.table)
    ensures text == Qualified([target.catalog, target.database, target.table])
  {
    var qualified := QualifiedTarget([target.catalog, target.database, target.table]);
    TargetParts(target.catalog, target.database, target.table);
    return qualified.value;
  }

  method TableText(t: TableSetup, qualified: string) returns (statement: string)
    requires qualified == Qualified([t.target.catalog, t.target.database, t.target.table])
    ensures statement == Print(PlannedTable(t).statement)
  {
    var definition := TrimSpace(t.statement);
    statement := CreateTableText(t, qualified, definition);
  }

  method CreateTableText(t: TableSetup, qualified: string, definition: string) returns (statement: string)
    requires qualified == Qualified([t.target.catalog, t.target.database, t.target.table])
    ensures statement ==
            Print(CreateTable(t.target.catalog, t.target.database, t.target.table, t.ifNotExists, definition))
  {
    statement := Create("CREATE TABLE ", t.ifNotExists);
    statement := statement + qualified + " " + definition;
  }

  method CompileTables(lib: Library, ghost planned: seq<Planned>, before: seq<Step>, ts: seq<TableSetup>)
      returns (r: Option<seq<Step>>)
    requires Compiled(before, planned)
    ensures r.Some? <==> EachOnce(GoodTable(lib), TableTarget(), ts)
    ensures r.Some? ==> Compiled(r.value, planned + Mapped(PlanTable(), ts))
  {
    var steps := before;
    var seen: set<string> := {};
    assert planned + Mapped(PlanTable(), ts[..0]) == planned;
    for index := 0 to |ts|
      invariant forall k :: k in seen <==> k in Mapped(TableKey(), ts[..index])
      invariant EachOnce(GoodTable(lib), TableTarget(), ts[..index])
      invariant Compiled(steps, planned + Mapped(PlanTable(), ts[..index]))
    {
      var t := ts[index];
      EachOnceOneMore(GoodTable(lib), TableTarget(), ts, index);
      MappedOneMore(TableKey(), ts, index);
      var statement := TableStatement(lib, t);
      if statement.None? {
        return None;
      }
      SameTableSameKey(lib, ts[..index], t);
      if TableKey()(t) in seen {
        return None;
      }
      seen := seen + {TableKey()(t)};
      AppendMapped(steps, planned, PlanTable(), ts, index);
      steps := AppendStep(steps, TableStep, t.target, statement.value, t.verify);
    }
    assert ts[..|ts|] == ts;
    return Some(steps);
  }

  function DatabaseKey(): DatabaseSetup -> string {
    (d: DatabaseSetup) => d.catalog + NUL + d.name
  }

  function TableKey(): TableSetup -> string {
    (t: TableSetup) => t.target.catalog + NUL + (t.target.database + NUL + t.target.table)
  }

  /** Valid identifiers hold no NUL, so a NUL between them keeps them apart. */
  lemma NulJoined(a: string, b: string, c: string, d: string)
    requires '\0' !in a && '\0' !in c
    ensures a + NUL + b == c + NUL + d <==> a == c && b == d
  {
    if a + NUL + b == c + NUL + d {
      var s := a + NUL + b;
      FirstNul(a, b);
      FirstNul(c, d);
      assert a == s[..|a|] && c == s[..|c|] && b == s[|a| + 1..] && d == s[|c| + 1..];
    }
  }

  lemma FirstNul(a: string, b: string)
    requires '\0' !in a
    ensures (a + NUL + b)[|a|] == '\0' && forall i :: 0 <= i < |a| ==> (a + NUL + b)[i] != '\0'
  {
    assert forall i :: 0 <= i < |a| ==> (a + NUL + b)[i] == a[i];
  }

  /**
   Two databases, the first parts of whose names hold no NUL, have the same key exactly when they are the same
   database.
   */
  lemma DatabaseKeyInjective(d: DatabaseSetup, e: DatabaseSetup)
    requires '\0' !in d.catalog && '\0' !in e.catalog
    ensures DatabaseKey()(d) == DatabaseKey()(e) <==> DatabaseTarget()(d) == DatabaseTarget()(e)
  {
    NulJoined(d.catalog, d.name, e.catalog, e.name);
  }

  /** The same for tables. */
  lemma TableKeyInjective(t: TableSetup, u: TableSetup)
    requires '\0' !in t.target.catalog && '\0' !in t.target.database
    requires '\0' !in u.target.catalog && '\0' !in u.target.database
    ensures TableKey()(t) == TableKey()(u) <==> t.target == u.target
  {
    NulJoined(t.target.catalog, t.target.database + NUL + t.target.table,
              u.target.catalog, u.target.database + NUL + u.target.table);
    NulJoined(t.target.database, t.target.table, u.target.database, u.target.table);
  }

  lemma ValidHasNoNul(value: string)
    requires ValidIdentifier(value)
    ensures '\0' !in value
  {
    assert IsControl('\0');
  }

  lemma SameDatabaseSameKey(ds: seq<DatabaseSetup>, d: DatabaseSetup)
    requires EachOnce(GoodDatabase(), DatabaseTarget(), ds) && DatabaseOk(d)
    ensures DatabaseKey()(d) in Mapped(DatabaseKey(), ds) <==> DatabaseTarget()(d) in Mapped(DatabaseTarget(), ds)
  {
    ValidHasNoNul(d.catalog);
    forall i | 0 <= i < |ds|
      ensures DatabaseKey()(ds[i]) == DatabaseKey()(d) <==> DatabaseTarget()(ds[i]) == DatabaseTarget()(d)
    {
      assert GoodDatabase()(ds[i]);
      ValidHasNoNul(ds[i].catalog);
      DatabaseKeyInjective(ds[i], d);
    }
    SameMembership(DatabaseKey(), DatabaseTarget(), ds, d);
  }

  lemma SameTableSameKey(lib: Library, ts: seq<TableSetup>, t: TableSetup)
    requires EachOnce(GoodTable(lib), TableTarget(), ts) && TableOk(lib, t)
    ensures TableKey()(t) in Mapped(TableKey(), ts) <==> TableTarget()(t) in Mapped(TableTarget(), ts)
  {
    ValidHasNoNul(t.target.catalog);
    ValidHasNoNul(t.target.database);
    forall i | 0 <= i < |ts| ensures TableKey()(ts[i]) == TableKey()(t) <==> TableTarget()(ts[i]) == TableTarget()(t) {
      assert GoodTable(lib)(ts[i]);
      ValidHasNoNul(ts[i].target.catalog);
      ValidHasNoNul(ts[i].target.database);
      TableKeyInjective(ts[i], t);
    }
    SameMembership(TableKey(), TableTarget(), ts, t);
  }

  /** The whole compilation: a plan compiles exactly when it is acceptable, and to exactly what it plans. */
  method CompileSessionSetupPlan(lib: Library, plan: Plan) returns (r: Option<seq<Step>>)
    ensures r.Some? <==> Accepted(lib, plan)
    ensures r.Some? ==> Compiled(r.value, PlannedSteps(plan)) && SaysPlan(r.value, plan)
  {
    if plan.catalogs == [] && plan.databases == [] && plan.tables == []
       && plan.currentCatalog == "" && plan.currentDatabase == "" {
      return None;
    }
    var catalogs := CompileCatalogs(lib, plan.catalogs);
    if catalogs.None? {
      return None;
    }
    ghost var planned := Mapped(PlanCatalog(), plan.catalogs);
    var databases := CompileDatabases(planned, catalogs.value, plan.databases);
    if databases.None? {
      return None;
    }
    planned := planned + Mapped(PlanDatabase(), plan.databases);
    var tables := CompileTables(lib, planned, databases.value, plan.tables);
    if tables.None? {
      return None;
    }
    r := CompileUses(plan, planned + Mapped(PlanTable(), plan.tables), tables.value);
    if r.Some? {
      CompiledSaysPlan(lib, plan, r.value);
    }
  }

  method CompileUses(plan: Plan, ghost planned: seq<Planned>, before: seq<Step>) returns (r: Option<seq<Step>>)
    requires Compiled(before, planned)
    ensures r.Some? <==> CurrentOk(plan)
    ensures r.Some? ==> Compiled(r.value, planned + PlannedUseCatalog(plan) + PlannedUseDatabase(plan))
  {
    if plan.currentDatabase != "" && plan.currentCatalog == "" {
      return None;
    }
    if plan.currentCatalog != "" && !ValidIdentifier(plan.currentCatalog) {
      return None;
    }
    var steps := AddUseCatalog(plan, planned, before);
    if plan.currentDatabase != "" && !ValidIdentifier(plan.currentDatabase) {
      return None;
    }
    steps := AddUseDatabase(plan, planned + PlannedUseCatalog(plan), steps);
    return Some(steps);
  }

  method AddUseCatalog(plan: Plan, ghost planned: seq<Planned>, before: seq<Step>) returns (steps: seq<Step>)
    requires Compiled(before, planned)
    ensures Compiled(steps, planned + PlannedUseCatalog(plan))
  {
    steps := before;
    if plan.currentCatalog == "" {
      assert planned + PlannedUseCatalog(plan) == planned;
    } else {
      AppendCompiles(steps, planned, PlannedUseCatalog(plan)[0]);
      steps := AppendStep(steps, UseCatalogStep, Identifier(plan.currentCatalog, "", ""),
                          "USE CATALOG " + QuoteIdentifier(plan.currentCatalog), false);
    }
  }

  method AddUseDatabase(plan: Plan, ghost planned: seq<Planned>, before: seq<Step>) returns (steps: seq<Step>)
    requires Compiled(before, planned)
    ensures Compiled(steps, planned + PlannedUseDatabase(plan))
  {
    steps := before;
    if plan.currentDatabase == "" {
      assert planned + PlannedUseDatabase(plan) == planned;
    } else {
      AppendCompiles(steps, planned, PlannedUseDatabase(plan)[0]);
      steps := AppendStep(steps, UseDatabaseStep, Identifier(plan.currentCatalog, plan.currentDatabase, ""),
                          "USE " + QuoteIdentifier(plan.currentDatabase), false);
    }
  }

  function Rank(kind: StepKind): nat {
    match kind
    case CatalogStep => 0
    case DatabaseStep => 1
    case TableStep => 2
    case UseCatalogStep => 3
    case UseDatabaseStep => 4
  }

  /** What is printed reads back, and a definition holds no white space at its ends for a reader to drop. */
  predicate ReadsBack(s: Statement) {
    Printable(s) && (s.CreateTable? ==> TrimSpace(s.definition) == s.definition)
  }

  predicate AllPrintable(planned: seq<Planned>) {
    forall i :: 0 <= i < |planned| ==> ReadsBack(planned[i].statement)
  }

  lemma BothPrintable(planned: seq<Planned>, more: seq<Planned>)
    requires AllPrintable(planned) && AllPrintable(more)
    ensures AllPrintable(planned + more)
  {
  }

  lemma TablesArePrintable(ts: seq<TableSetup>)
    ensures AllPrintable(Mapped(PlanTable(), ts))
  {
    forall i | 0 <= i < |ts| ensures ReadsBack(Mapped(PlanTable(), ts)[i].statement) {
      TrimSpaceIdempotent(ts[i].statement);
    }
  }

  lemma DatabasesArePrintable(ds: seq<DatabaseSetup>)
    ensures AllPrintable(Mapped(PlanDatabase(), ds))
  {
  }

  lemma CatalogsArePrintable(lib: Library, cs: seq<CatalogSetup>)
    requires EachOnce(GoodCatalog(lib), CatalogTarget(), cs)
    ensures AllPrintable(Mapped(PlanCatalog(), cs))
  {
    forall i | 0 <= i < |cs| ensures ReadsBack(Mapped(PlanCatalog(), cs)[i].statement) {
      assert GoodCatalog(lib)(cs[i]);
      NoOptionsNoText(cs[i].options);
    }
  }

  lemma UsesArePrintable(plan: Plan)
    ensures AllPrintable(PlannedUseCatalog(plan)) && AllPrintable(PlannedUseDatabase(plan))
  {
  }

  lemma AllFivePrintable(a: seq<Planned>, b: seq<Planned>, c: seq<Planned>, d: seq<Planned>, e: seq<Planned>)
    requires AllPrintable(a) && AllPrintable(b) && AllPrintable(c) && AllPrintable(d) && AllPrintable(e)
    ensures AllPrintable(a + b + c + d + e)
  {
    BothPrintable(a, b);
    BothPrintable(a + b, c);
    BothPrintable(a + b + c, d);
    BothPrintable(a + b + c + d, e);
  }

  lemma PlannedArePrintable(lib: Library, plan: Plan)
    requires Accepted(lib, plan)
    ensures AllPrintable(PlannedSteps(plan))
  {
    CatalogsArePrintable(lib, plan.catalogs);
    DatabasesArePrintable(plan.databases);
    TablesArePrintable(plan.tables);
    UsesArePrintable(plan);
    AllFivePrintable(Mapped(PlanCatalog(), plan.catalogs), Mapped(PlanDatabase(), plan.databases),
                     Mapped(PlanTable(), plan.tables), PlannedUseCatalog(plan), PlannedUseDatabase(plan));
  }

  lemma PrintedReadsBack(steps: seq<Step>, planned: seq<Planned>)
    requires Compiled(steps, planned) && AllPrintable(planned)
    ensures forall i :: 0 <= i < |steps| ==>
              && steps[i].index == i && Parse(steps[i].statement) == Some(planned[i].statement)
              && ReadsBack(planned[i].statement)
  {
    forall i | 0 <= i < |steps| ensures steps[i].index == i && Parse(steps[i].statement) == Some(planned[i].statement) {
      PrintRoundTrip(planned[i].statement);
    }
  }

  predicate InOrder(planned: seq<Planned>) {
    forall i, j :: 0 <= i < j < |planned| ==> Rank(planned[i].kind) <= Rank(planned[j].kind)
  }

  predicate UpTo(planned: seq<Planned>, rank: nat) {
    InOrder(planned) && forall i :: 0 <= i < |planned| ==> Rank(planned[i].kind) <= rank
  }

  lemma NextKind(planned: seq<Planned>, more: seq<Planned>, rank: nat)
    requires UpTo(planned, rank) && forall i :: 0 <= i < |more| ==> Rank(more[i].kind) == rank
    ensures UpTo(planned + more, rank) && UpTo(planned + more, rank + 1)
  {
  }

  lemma KindsInOrder(plan: Plan)
    ensures InOrder(PlannedSteps(plan))
  {
    var catalogs, databases := Mapped(PlanCatalog(), plan.catalogs), Mapped(PlanDatabase(), plan.databases);
    var tables := Mapped(PlanTable(), plan.tables);
    assert [] + catalogs == catalogs;
    NextKind([], catalogs, 0);
    NextKind(catalogs, databases, 1);
    NextKind(catalogs + databases, tables, 2);
    NextKind(catalogs + databases + tables, PlannedUseCatalog(plan), 3);
    NextKind(catalogs + databases + tables + PlannedUseCatalog(plan), PlannedUseDatabase(plan), 4);
  }

  /**
   What an accepted plan's steps say: each is numbered by its place, its text reads back as the planned
   statement, definitions trimmed, and the kinds come in the order CATALOG, DATABASE, TABLE, USE_CATALOG, USE_DATABASE.
   */
  lemma CompiledReadsBack(lib: Library, plan: Plan, steps: seq<Step>)
    requires Accepted(lib, plan) && Compiled(steps, PlannedSteps(plan))
    ensures forall i :: 0 <= i < |steps| ==>
              && steps[i].index == i && Parse(steps[i].statement) == Some(PlannedSteps(plan)[i].statement)
              && ReadsBack(PlannedSteps(plan)[i].statement)
    ensures forall i, j :: 0 <= i < j < |steps| ==> Rank(steps[i].kind) <= Rank(steps[j].kind)
  {
    var planned := PlannedSteps(plan);
    PlannedArePrintable(lib, plan);
    PrintedReadsBack(steps, planned);
    KindsInOrder(plan);
  }

  // ---- what the steps say, in terms of the plan alone ----

  /** The pairs are the options, each once, by ascending key. */
  ghost predicate ListsOptions(pairs: Pairs, options: map<string, string>) {
    && (forall i, j :: 0 <= i < j < |pairs| ==> Less(pairs[i].0, pairs[j].0))
    && (forall i :: 0 <= i < |pairs| ==> pairs[i].0 in options && pairs[i].1 == options[pairs[i].0])
    && (forall k :: k in options ==> exists i :: 0 <= i < |pairs| && pairs[i].0 == k)
  }

  ghost predicate SaysCatalog(step: Step, c: CatalogSetup) {
    && step.kind == CatalogStep && step.target == Identifier(c.name, "", "") && !step.verify
    && var read := Parse(step.statement);
    && read.Some? && read.value.CreateCatalog?
    && read.value.name == c.name && read.value.ifNotExists == c.ifNotExists
    && ListsOptions(read.value.options, c.options)
  }

  ghost predicate SaysDatabase(step: Step, d: DatabaseSetup) {
    && step.kind == DatabaseStep && step.target == Identifier(d.catalog, d.name, "") && !step.verify
    && var read := Parse(step.statement);
    && read.Some? && read.value.CreateDatabase?
    && read.value.catalog == d.catalog && read.value.database == d.name && read.value.ifNotExists == d.ifNotExists
    && ListsOptions(read.value.options, d.options)
  }

  /** trim is TrimSpace, a parameter so that its steps stay out of the proofs. */
  predicate SaysTable(step: Step, t: TableSetup, trim: string -> string) {
    && step.kind == TableStep && step.target == t.target && step.verify == t.verify
    && Parse(step.statement) ==
       Some(CreateTable(t.target.catalog, t.target.database, t.target.table, t.ifNotExists, trim(t.statement)))
  }

  predicate SaysUseCatalog(step: Step, plan: Plan) {
    && step.kind == UseCatalogStep && step.target == Identifier(plan.currentCatalog, "", "") && !step.verify
    && Parse(step.statement) == Some(UseCatalog(plan.currentCatalog))
  }

  predicate SaysUseDatabase(step: Step, plan: Plan) {
    && step.kind == UseDatabaseStep && step.target == Identifier(plan.currentCatalog, plan.currentDatabase, "")
    && !step.verify
    && Parse(step.statement) == Some(UseDatabase(plan.currentDatabase))
  }

  /** One step for each catalog, each database and each table, in the plan's order, and one for each USE asked for. */
  ghost predicate SaysPlan(steps: seq<Step>, plan: Plan) {
    var c, d, t := |plan.catalogs|, |plan.databases|, |plan.tables|;
    && |steps| == c + d + t + One(plan.currentCatalog != "") + One(plan.currentDatabase != "")
    && (forall i :: 0 <= i < |steps| ==> steps[i].index == i)
    && (forall i :: 0 <= i < c ==> SaysCatalog(steps[i], plan.catalogs[i]))
    && (forall i :: c <= i < c + d ==> SaysDatabase(steps[i], plan.databases[i - c]))
    && (forall i :: c + d <= i < c + d + t ==> SaysTable(steps[i], plan.tables[i - c - d], TrimSpace))
    && (plan.currentCatalog != "" ==> SaysUseCatalog(steps[c + d + t], plan))
    && (plan.currentDatabase != "" ==> SaysUseDatabase(steps[|steps| - 1], plan))
  }

  lemma SortedPairsList(options: map<string, string>)
    ensures ListsOptions(SortedPairs(options), options)
  {
    var keys, pairs := SortedKeys(options), SortedPairs(options);
    forall k | k in options ensures exists i :: 0 <= i < |pairs| && pairs[i].0 == k {
      var i :| 0 <= i < |keys| && keys[i] == k;
      assert pairs[i].0 == k;
    }
    forall i | 0 <= i < |pairs| ensures pairs[i].0 in options && pairs[i].1 == options[pairs[i].0] {
      assert keys[i] in keys;
    }
  }

  /** The step prints what is planned. */
  function Printing(): (Step, Planned) -> bool {
    (step: Step, planned: Planned) =>
      && step.kind == planned.kind && step.target == planned.target && step.verify == planned.verify
      && step.statement == Print(planned.statement)
  }

  /** A step that prints what is planned for an entry says the entry. */
  lemma PrintedSaysCatalog(lib: Library, step: Step, c: CatalogSetup)
    ensures GoodCatalog(lib)(c) && Printing()(step, PlanCatalog()(c)) ==> SaysCatalog(step, c)
  {
    NoOptionsNoText(c.options);
    if c.options != map[] {
      PrintRoundTrip(PlannedCatalog(c).statement);
    }
    SortedPairsList(c.options);
  }

  lemma PrintedSaysDatabase(step: Step, d: DatabaseSetup)
    ensures Printing()(step, PlanDatabase()(d)) ==> SaysDatabase(step, d)
  {
    PrintRoundTrip(PlannedDatabase(d).statement);
    SortedPairsList(d.options);
  }

  lemma PrintedSaysTable(step: Step, t: TableSetup, trim: string -> string)
    ensures Printing()(step, PlanTableBy(trim)(t)) ==> SaysTable(step, t, trim)
  {
    PrintRoundTrip(PlannedTableBy(trim, t).statement);
  }

  ghost function SayingCatalog(): (Step, CatalogSetup) -> bool {
    (step: Step, c: CatalogSetup) => SaysCatalog(step, c)
  }

  ghost function SayingDatabase(): (Step, DatabaseSetup) -> bool {
    (step: Step, d: DatabaseSetup) => SaysDatabase(step, d)
  }

  function SayingTable(trim: string -> string): (Step, TableSetup) -> bool {
    (step: Step, t: TableSetup) => SaysTable(step, t, trim)
  }

  lemma CatalogsSay(lib: Library)
    ensures forall step, c :: GoodCatalog(lib)(c) && Printing()(step, PlanCatalog()(c)) ==> SayingCatalog()(step, c)
  {
    forall step, c | GoodCatalog(lib)(c) && Printing()(step, PlanCatalog()(c)) ensures SayingCatalog()(step, c) {
      PrintedSaysCatalog(lib, step, c);
    }
  }

  lemma DatabasesSay()
    ensures forall step, d :: Printing()(step, PlanDatabase()(d)) ==> SayingDatabase()(step, d)
  {
    forall step, d | Printing()(step, PlanDatabase()(d)) ensures SayingDatabase()(step, d) {
      PrintedSaysDatabase(step, d);
    }
  }

  lemma TablesSay(trim: string -> string)
    ensures forall step, t :: Printing()(step, PlanTableBy(trim)(t)) ==> SayingTable(trim)(step, t)
  {
    forall step, t | Printing()(step, PlanTableBy(trim)(t)) ensures SayingTable(trim)(step, t) {
      PrintedSaysTable(step, t, trim);
    }
  }

  lemma CompiledPrints(steps: seq<Step>, planned: seq<Planned>)
    requires Compiled(steps, planned)
    ensures |steps| == |planned| && forall i :: 0 <= i < |steps| ==>
              steps[i].index == i && Printing()(steps[i], planned[i])
  {
  }

  /**
   Steps for three lists of entries in a row: if a step that prints what an entry is made into says the entry, then
   the steps say the entries one by one. What follows behind them is printed too.
   */
  lemma EntryByEntry<A, B, C>(prints: (Step, Planned) -> bool, steps: seq<Step>, xs: seq<A>, f: A -> Planned,
      sayX: (Step, A) -> bool, ys: seq<B>, g: B -> Planned, sayY: (Step, B) -> bool, zs: seq<C>, h: C -> Planned,
      sayZ: (Step, C) -> bool, uses: seq<Planned>, last: seq<Planned>)
    requires |steps| == |xs| + |ys| + |zs| + |uses| + |last|
    requires forall i :: 0 <= i < |steps| ==>
               prints(steps[i], (Mapped(f, xs) + Mapped(g, ys) + Mapped(h, zs) + uses + last)[i])
    requires forall step, i :: 0 <= i < |xs| && prints(step, f(xs[i])) ==> sayX(step, xs[i])
    requires forall step, y :: prints(step, g(y)) ==> sayY(step, y)
    requires forall step, z :: prints(step, h(z)) ==> sayZ(step, z)
    ensures forall i :: 0 <= i < |xs| ==> sayX(steps[i], xs[i])
    ensures forall i :: |xs| <= i < |xs| + |ys| ==> sayY(steps[i], ys[i - |xs|])
    ensures forall i :: |xs| + |ys| <= i < |xs| + |ys| + |zs| ==> sayZ(steps[i], zs[i - |xs| - |ys|])
    ensures uses != [] ==> prints(steps[|xs| + |ys| + |zs|], uses[0])
    ensures |last| == 1 ==> prints(steps[|steps| - 1], last[0])
  {
    var all := Mapped(f, xs) + Mapped(g, ys) + Mapped(h, zs) + uses + last;
    forall i | 0 <= i < |xs| ensures sayX(steps[i], xs[i]) {
      assert all[i] == f(xs[i]);
    }
    forall i | |xs| <= i < |xs| + |ys| ensures sayY(steps[i], ys[i - |xs|]) {
      assert all[i] == g(ys[i - |xs|]);
    }
    forall i | |xs| + |ys| <= i < |xs| + |ys| + |zs| ensures sayZ(steps[i], zs[i - |xs| - |ys|]) {
      assert all[i] == h(zs[i - |xs| - |ys|]);
    }
  }

  lemma UsesSay(plan: Plan, step: Step)
    ensures plan.currentCatalog != "" && Printing()(step, PlannedUseCatalog(plan)[0]) ==> SaysUseCatalog(step, plan)
    ensures plan.currentDatabase != "" && Printing()(step, PlannedUseDatabase(plan)[0]) ==> SaysUseDatabase(step, plan)
  {
    PrintRoundTrip(UseCatalog(plan.currentCatalog));
    PrintRoundTrip(UseDatabase(plan.currentDatabase));
  }

  lemma EntriesSaid(lib: Library, plan: Plan, steps: seq<Step>)
    requires EachOnce(GoodCatalog(lib), CatalogTarget(), plan.catalogs) && |steps| == |PlannedSteps(plan)|
    requires forall i :: 0 <= i < |steps| ==> Printing()(steps[i], PlannedSteps(plan)[i])
    ensures var c, d, t := |plan.catalogs|, |plan.databases|, |plan.tables|;
            && |steps| == c + d + t + |PlannedUseCatalog(plan)| + |PlannedUseDatabase(plan)|
            && (forall i :: 0 <= i < c ==> SayingCatalog()(steps[i], plan.catalogs[i]))
            && (forall i :: c <= i < c + d ==> SayingDatabase()(steps[i], plan.databases[i - c]))
            && (forall i :: c + d <= i < c + d + t ==> SayingTable(TrimSpace)(steps[i], plan.tables[i - c - d]))
            && (plan.currentCatalog != "" ==> Printing()(steps[c + d + t], PlannedUseCatalog(plan)[0]))
            && (plan.currentDatabase != "" ==> Printing()(steps[|steps| - 1], PlannedUseDatabase(plan)[0]))
  {
    CatalogsSay(lib);
    DatabasesSay();
    TablesSay(TrimSpace);
    EntryByEntry(Printing(), steps, plan.catalogs, PlanCatalog(), SayingCatalog(), plan.databases, PlanDatabase(),
                 SayingDatabase(), plan.tables, PlanTable(), SayingTable(TrimSpace), PlannedUseCatalog(plan),
                 PlannedUseDatabase(plan));
  }

  /** The compiled steps of an accepted plan say the plan: its entries one by one, nothing else and nothing twice. */
  lemma CompiledSaysPlan(lib: Library, plan: Plan, steps: seq<Step>)
    requires Accepted(lib, plan) && Compiled(steps, PlannedSteps(plan))
    ensures SaysPlan(steps, plan)
  {
    CompiledPrints(steps, PlannedSteps(plan));
    EntriesSaid(lib, plan, steps);
    if plan.currentCatalog != "" {
      UsesSay(plan, steps[|plan.catalogs| + |plan.databases| + |plan.tables|]);
    }
    if plan.currentDatabase != "" {
      UsesSay(plan, steps[|steps| - 1]);
    }
  }
}

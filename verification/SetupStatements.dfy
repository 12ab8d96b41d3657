/**
 The SQL text of the setup statements: how it is printed and how a reader with Flink's quoting rules takes
 it apart again. Identifiers and literals may hold any characters, quotes and backticks included.
 */
module SetupStatements {
  import opened Text

  type Pairs = seq<(string, string)>

  datatype Statement =
    | CreateCatalog(name: string, ifNotExists: bool, options: Pairs)
    | CreateDatabase(catalog: string, database: string, ifNotExists: bool, options: Pairs)
    | CreateTable(catalog: string, database: string, table: string, ifNotExists: bool, definition: string)
    | UseCatalog(name: string)
    | UseDatabase(database: string)

  // ---- printing ----

  /** strings.ReplaceAll of one quote by two. */
  function Doubled(q: char, s: string): string {
    if s == "" then "" else if s[0] == q then [q, q] + Doubled(q, s[1..]) else [s[0]] + Doubled(q, s[1..])
  }

  function Quoted(q: char, s: string): string {
    [q] + Doubled(q, s) + [q]
  }

  function QuoteIdentifier(s: string): string {
    Quoted('`', s)
  }

  function QuoteLiteral(s: string): string {
    Quoted('\'', s)
  }

  function Clause(pair: (string, string)): string {
    QuoteLiteral(pair.0) + " = " + QuoteLiteral(pair.1)
  }

  function Clauses(pairs: Pairs): seq<string> {
    seq(|pairs|, i requires 0 <= i < |pairs| => Clause(pairs[i]))
  }

  function OptionsText(pairs: Pairs): string {
    Join(Clauses(pairs), ", ")
  }

  function With(pairs: Pairs): string {
    " WITH (" + OptionsText(pairs) + ")"
  }

  function Qualified(parts: seq<string>): string {
    Join(seq(|parts|, i requires 0 <= i < |parts| => QuoteIdentifier(parts[i])), ".")
  }

  function IfNotExists(b: bool): string {
    if b then "IF NOT EXISTS " else ""
  }

  function Print(s: Statement): string {
    match s
    case CreateCatalog(name, ine, options) =>
      "CREATE CATALOG " + IfNotExists(ine) + QuoteIdentifier(name) + With(options)
    case CreateDatabase(catalog, database, ine, options) =>
      "CREATE DATABASE " + IfNotExists(ine) + Qualified([catalog, database])
      + (if options == [] then "" else With(options))
    case CreateTable(catalog, database, table, ine, definition) =>
      "CREATE TABLE " + IfNotExists(ine) + Qualified([catalog, database, table]) + " " + definition
    case UseCatalog(name) => "USE CATALOG " + QuoteIdentifier(name)
    case UseDatabase(database) => "USE " + QuoteIdentifier(database)
  }

  // ---- reading ----

  /** What follows prefix in s. */
  function Strip(prefix: string, s: string): Option<string> {
    if prefix <= s then Some(s[|prefix|..]) else None
  }

  /** Behind an opening quote: the text up to the closing one, a doubled quote standing for itself, and the rest. */
  function ReadBody(q: char, s: string): Option<(string, string)> {
    if s == "" then None
    else if s[0] != q then Prepend(s[0], ReadBody(q, s[1..]))
    else if |s| > 1 && s[1] == q then Prepend(q, ReadBody(q, s[2..]))
    else Some(("", s[1..]))
  }

  function Prepend(c: char, read: Option<(string, string)>): Option<(string, string)> {
    if read.None? then None else Some(([c] + read.value.0, read.value.1))
  }

  function ReadQuoted(q: char, s: string): Option<(string, string)> {
    if s != "" && s[0] == q then ReadBody(q, s[1..]) else None
  }

  lemma {:induction false} BodyRoundTrip(q: char, s: string, rest: string)
    requires rest == "" || rest[0] != q
    ensures ReadBody(q, Doubled(q, s) + [q] + rest) == Some((s, rest))
  {
    var text := Doubled(q, s) + [q] + rest;
    if s == "" {
      assert text[1..] == rest;
    } else {
      BodyRoundTrip(q, s[1..], rest);
      if s[0] == q {
        assert text[2..] == Doubled(q, s[1..]) + [q] + rest;
      } else {
        assert text[1..] == Doubled(q, s[1..]) + [q] + rest;
      }
      assert [s[0]] + s[1..] == s;
    }
  }

  lemma QuotedRoundTrip(q: char, s: string, rest: string)
    requires rest == "" || rest[0] != q
    ensures ReadQuoted(q, Quoted(q, s) + rest) == Some((s, rest))
  {
    BodyRoundTrip(q, s, rest);
    assert (Quoted(q, s) + rest)[1..] == Doubled(q, s) + [q] + rest;
  }

  /** Quoted names with dots between them, as many as there are. */
  function ReadQualified(s: string): Option<(seq<string>, string)>
    decreases |s|
  {
    var name := ReadQuoted('`', s);
    if name.None? then None
    else if Strip(".", name.value.1).None? || |name.value.1| >= |s| then Some(([name.value.0], name.value.1))
    else
      var more := ReadQualified(name.value.1[1..]);
      if more.None? then None else Some(([name.value.0] + more.value.0, more.value.1))
  }

  lemma {:induction false} QualifiedRoundTrip(parts: seq<string>, rest: string)
    requires parts != [] && (rest == "" || (rest[0] != '`' && rest[0] != '.'))
    ensures ReadQualified(Qualified(parts) + rest) == Some((parts, rest))
  {
    var quoted := seq(|parts|, i requires 0 <= i < |parts| => QuoteIdentifier(parts[i]));
    if |parts| == 1 {
      assert Qualified(parts) == QuoteIdentifier(parts[0]) && [parts[0]] == parts;
      QuotedRoundTrip('`', parts[0], rest);
    } else {
      assert quoted[1..] == seq(|parts[1..]|, i requires 0 <= i < |parts[1..]| => QuoteIdentifier(parts[1..][i]));
      var tail := Qualified(parts[1..]) + rest;
      assert Qualified(parts) + rest == QuoteIdentifier(parts[0]) + ("." + tail);
      QuotedRoundTrip('`', parts[0], "." + tail);
      assert ("." + tail)[1..] == tail;
      QualifiedRoundTrip(parts[1..], rest);
      assert ReadQuoted('`', Qualified(parts) + rest) == Some((parts[0], "." + tail));
      assert [parts[0]] + parts[1..] == parts;
    }
  }

  function ReadClause(s: string): Option<((string, string), string)> {
    var key := ReadQuoted('\'', s);
    if key.None? || Strip(" = ", key.value.1).None? then None
    else
      var value := ReadQuoted('\'', Strip(" = ", key.value.1).value);
      if value.None? then None else Some(((key.value.0, value.value.0), value.value.1))
  }

  function ReadOptions(s: string): Option<(Pairs, string)>
    decreases |s|
  {
    var pair := ReadClause(s);
    if pair.None? then None
    else if Strip(", ", pair.value.1).None? || |pair.value.1| >= |s| then Some(([pair.value.0], pair.value.1))
    else
      var more := ReadOptions(pair.value.1[2..]);
      if more.None? then None else Some(([pair.value.0] + more.value.0, more.value.1))
  }

  lemma ClauseRoundTrip(pair: (string, string), rest: string)
    requires rest == "" || rest[0] != '\''
    ensures ReadClause(Clause(pair) + rest) == Some((pair, rest))
  {
    var tail := " = " + (QuoteLiteral(pair.1) + rest);
    assert Clause(pair) + rest == QuoteLiteral(pair.0) + tail;
    QuotedRoundTrip('\'', pair.0, tail);
    assert tail[3..] == QuoteLiteral(pair.1) + rest;
    QuotedRoundTrip('\'', pair.1, rest);
  }

  lemma OptionsSplit(pairs: Pairs, rest: string)
    requires |pairs| > 1
    ensures OptionsText(pairs) + rest == Clause(pairs[0]) + (", " + (OptionsText(pairs[1..]) + rest))
  {
    assert Clauses(pairs)[1..] == Clauses(pairs[1..]);
  }

  lemma {:induction false} OptionsRoundTrip(pairs: Pairs, rest: string)
    requires pairs != [] && (rest == "" || (rest[0] != '\'' && rest[0] != ','))
    ensures ReadOptions(OptionsText(pairs) + rest) == Some((pairs, rest))
  {
    if |pairs| == 1 {
      assert OptionsText(pairs) == Clause(pairs[0]) && [pairs[0]] == pairs;
      ClauseRoundTrip(pairs[0], rest);
    } else {
      var tail := OptionsText(pairs[1..]) + rest;
      OptionsSplit(pairs, rest);
      ClauseRoundTrip(pairs[0], ", " + tail);
      OptionsRoundTrip(pairs[1..], rest);
      MoreOptions(OptionsText(pairs) + rest, pairs[0], tail);
      assert [pairs[0]] + pairs[1..] == pairs;
    }
  }

  /** Reading on behind a comma. */
  lemma MoreOptions(text: string, first: (string, string), tail: string)
    requires text == Clause(first) + (", " + tail) && ReadClause(text) == Some((first, ", " + tail))
             && ReadOptions(tail).Some?
    ensures ReadOptions(text) == Some(([first] + ReadOptions(tail).value.0, ReadOptions(tail).value.1))
  {
    assert (", " + tail)[2..] == tail;
    assert |", " + tail| < |text|;
  }

  function ReadWith(s: string): Option<Pairs> {
    if Strip(" WITH (", s).None? then None
    else
      var options := ReadOptions(Strip(" WITH (", s).value);
      if options.Some? && options.value.1 == ")" then Some(options.value.0) else None
  }

  lemma WithRoundTrip(pairs: Pairs)
    requires pairs != []
    ensures ReadWith(With(pairs)) == Some(pairs)
  {
    assert With(pairs)[7..] == OptionsText(pairs) + ")";
    OptionsRoundTrip(pairs, ")");
  }

  function ReadIfNotExists(s: string): (bool, string) {
    if Strip("IF NOT EXISTS ", s).Some? then (true, Strip("IF NOT EXISTS ", s).value) else (false, s)
  }

  function ReadCatalog(s: string): Option<Statement> {
    var (ine, named) := ReadIfNotExists(s);
    var name := ReadQuoted('`', named);
    if name.None? || ReadWith(name.value.1).None? then None
    else Some(CreateCatalog(name.value.0, ine, ReadWith(name.value.1).value))
  }

  function ReadDatabase(s: string): Option<Statement> {
    var (ine, named) := ReadIfNotExists(s);
    var target := ReadQualified(named);
    if target.None? || |target.value.0| != 2 then None
    else
      var names, rest := target.value.0, target.value.1;
      if rest == "" then Some(CreateDatabase(names[0], names[1], ine, []))
      else if ReadWith(rest).None? then None
      else Some(CreateDatabase(names[0], names[1], ine, ReadWith(rest).value))
  }

  function ReadTable(s: string): Option<Statement> {
    var (ine, named) := ReadIfNotExists(s);
    var target := ReadQualified(named);
    if target.None? || |target.value.0| != 3 || Strip(" ", target.value.1).None? then None
    else
      var names := target.value.0;
      Some(CreateTable(names[0], names[1], names[2], ine, Strip(" ", target.value.1).value))
  }

  function ReadName(s: string): Option<string> {
    var name := ReadQuoted('`', s);
    if name.Some? && name.value.1 == "" then Some(name.value.0) else None
  }

  function Parse(text: string): Option<Statement> {
    if Strip("CREATE CATALOG ", text).Some? then ReadCatalog(Strip("CREATE CATALOG ", text).value)
    else if Strip("CREATE DATABASE ", text).Some? then ReadDatabase(Strip("CREATE DATABASE ", text).value)
    else if Strip("CREATE TABLE ", text).Some? then ReadTable(Strip("CREATE TABLE ", text).value)
    else if Strip("USE CATALOG ", text).Some? then
      match ReadName(Strip("USE CATALOG ", text).value) case None => None case Some(n) => Some(UseCatalog(n))
    else if Strip("USE ", text).Some? then
      match ReadName(Strip("USE ", text).value) case None => None case Some(n) => Some(UseDatabase(n))
    else None
  }

  lemma StripPrinted(prefix: string, rest: string)
    ensures Strip(prefix, prefix + rest) == Some(rest)
  {
  }

  /**
   What the statements with an IF NOT EXISTS flag print behind their keywords starts with the flag, then a backtick.
   */
  lemma FlagRoundTrip(ine: bool, rest: string)
    requires rest != "" && rest[0] == '`'
    ensures ReadIfNotExists(IfNotExists(ine) + rest) == (ine, rest)
  {
    if ine {
      StripPrinted("IF NOT EXISTS ", rest);
    } else {
      assert IfNotExists(ine) + rest == rest;
    }
  }

  lemma CatalogRoundTrip(name: string, ine: bool, options: Pairs)
    requires options != []
    ensures ReadCatalog(IfNotExists(ine) + QuoteIdentifier(name) + With(options)) ==
            Some(CreateCatalog(name, ine, options))
  {
    var rest := QuoteIdentifier(name) + With(options);
    assert IfNotExists(ine) + QuoteIdentifier(name) + With(options) == IfNotExists(ine) + rest;
    FlagRoundTrip(ine, rest);
    QuotedRoundTrip('`', name, With(options));
    WithRoundTrip(options);
  }

  lemma QualifiedStarts(parts: seq<string>, rest: string)
    requires parts != []
    ensures (Qualified(parts) + rest)[0] == '`'
  {
  }

  lemma DatabaseRoundTrip(catalog: string, database: string, ine: bool, options: Pairs)
    ensures ReadDatabase(IfNotExists(ine) + Qualified([catalog, database])
            + (if options == [] then "" else With(options)))
            == Some(CreateDatabase(catalog, database, ine, options))
  {
    var tail := if options == [] then "" else With(options);
    var rest := Qualified([catalog, database]) + tail;
    assert IfNotExists(ine) + Qualified([catalog, database]) + tail == IfNotExists(ine) + rest;
    QualifiedStarts([catalog, database], tail);
    FlagRoundTrip(ine, rest);
    QualifiedRoundTrip([catalog, database], tail);
    if options != [] {
      WithRoundTrip(options);
    }
  }

  lemma TableRoundTrip(catalog: string, database: string, table: string, ine: bool, definition: string)
    ensures ReadTable(IfNotExists(ine) + Qualified([catalog, database, table]) + " " + definition)
            == Some(CreateTable(catalog, database, table, ine, definition))
  {
    var tail := " " + definition;
    var rest := Qualified([catalog, database, table]) + tail;
    assert IfNotExists(ine) + Qualified([catalog, database, table]) + " " + definition == IfNotExists(ine) + rest;
    QualifiedStarts([catalog, database, table], tail);
    FlagRoundTrip(ine, rest);
    QualifiedRoundTrip([catalog, database, table], tail);
    StripPrinted(" ", definition);
  }

  lemma NameRoundTrip(name: string)
    ensures ReadName(QuoteIdentifier(name)) == Some(name)
  {
    QuotedRoundTrip('`', name, "");
    assert QuoteIdentifier(name) + "" == QuoteIdentifier(name);
  }

  /** Only a CREATE CATALOG must have options; the compiler never makes one without. */
  predicate Printable(s: Statement) {
    s.CreateCatalog? ==> s.options != []
  }

  /** The keywords tell the statements apart. */
  lemma Keywords(body: string)
    ensures Strip("CREATE CATALOG ", "CREATE CATALOG " + body) == Some(body)
    ensures Strip("CREATE CATALOG ", "CREATE DATABASE " + body).None?
    ensures Strip("CREATE CATALOG ", "CREATE TABLE " + body).None?
    ensures Strip("CREATE DATABASE ", "CREATE DATABASE " + body) == Some(body)
    ensures Strip("CREATE DATABASE ", "CREATE TABLE " + body).None?
    ensures Strip("CREATE TABLE ", "CREATE TABLE " + body) == Some(body)
  {
    assert ("CREATE DATABASE " + body)[7] == 'D' && ("CREATE TABLE " + body)[7] == 'T';
  }

  lemma ParsesByKeywords(body: string)
    ensures Parse("CREATE CATALOG " + body) == ReadCatalog(body)
    ensures Parse("CREATE DATABASE " + body) == ReadDatabase(body)
    ensures Parse("CREATE TABLE " + body) == ReadTable(body)
  {
    Keywords(body);
  }

  lemma Associates(a: string, b: string, c: string)
    ensures a + b + c == a + (b + c)
  {
  }

  lemma ParseCatalog(s: Statement)
    requires s.CreateCatalog? && s.options != []
    ensures Parse(Print(s)) == Some(s)
  {
    var flag, name, options := IfNotExists(s.ifNotExists), QuoteIdentifier(s.name), With(s.options);
    Associates("CREATE CATALOG ", flag, name);
    Associates("CREATE CATALOG ", flag + name, options);
    ParsesByKeywords(flag + name + options);
    CatalogRoundTrip(s.name, s.ifNotExists, s.options);
  }

  lemma ParseDatabase(s: Statement)
    requires s.CreateDatabase?
    ensures Parse(Print(s)) == Some(s)
  {
    var flag, name := IfNotExists(s.ifNotExists), Qualified([s.catalog, s.database]);
    var options := if s.options == [] then "" else With(s.options);
    Associates("CREATE DATABASE ", flag, name);
    Associates("CREATE DATABASE ", flag + name, options);
    ParsesByKeywords(flag + name + options);
    DatabaseRoundTrip(s.catalog, s.database, s.ifNotExists, s.options);
  }

  lemma ParseTable(s: Statement)
    requires s.CreateTable?
    ensures Parse(Print(s)) == Some(s)
  {
    var flag, name := IfNotExists(s.ifNotExists), Qualified([s.catalog, s.database, s.table]);
    Associates("CREATE TABLE ", flag, name);
    Associates("CREATE TABLE ", flag + name, " ");
    Associates("CREATE TABLE ", flag + name + " ", s.definition);
    ParsesByKeywords(flag + name + " " + s.definition);
    TableRoundTrip(s.catalog, s.database, s.table, s.ifNotExists, s.definition);
  }

  /** Every printed statement reads back as itself. */
  lemma PrintRoundTrip(s: Statement)
    requires Printable(s)
    ensures Parse(Print(s)) == Some(s)
  {
    match s {
      case UseCatalog(name) =>
        assert Print(s)[0] == 'U';
        StripPrinted("USE CATALOG ", QuoteIdentifier(name));
        NameRoundTrip(name);
      case UseDatabase(database) =>
        assert Print(s)[0] == 'U' && Print(s)[4] == '`';
        StripPrinted("USE ", QuoteIdentifier(database));
        NameRoundTrip(database);
      case CreateCatalog(_, _, _) => ParseCatalog(s);
      case CreateDatabase(_, _, _, _) => ParseDatabase(s);
      case CreateTable(_, _, _, _, _) => ParseTable(s);
    }
  }

  /** So no two different statements have the same text. */
  lemma PrintInjective(s: Statement, t: Statement)
    requires Printable(s) && Printable(t) && Print(s) == Print(t)
    ensures s == t
  {
    PrintRoundTrip(s);
    PrintRoundTrip(t);
  }
}

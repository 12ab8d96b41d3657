/**
 Which setup plans are accepted, in terms of their texts: of what characters, how many bytes in UTF-8 (section 3 of
 RFC 3629), and that no target occurs twice.
 */
module PlanRules {
  import opened ByteOrder
  import opened ErrorMessage
  import opened Lists
  import opened SetupCompile
  import opened Text

  ghost predicate HasText(s: string) {
    exists c :: c in s && !IsSpace(c)
  }

  /** Some character that is not white space, no control character, at most 1024 bytes. */
  ghost predicate IsName(s: string) {
    HasText(s) && |EncodeText(s)| <= 1024 && forall c :: c in s ==> !(c < ' ' || '\U{7F}' <= c < '\U{A0}')
  }

  /** From a to b stands the first word of s: white space in front of it, and behind it unless it is the last. */
  predicate IsFirstWord(s: string, a: int, b: int) {
    && 0 <= a < b <= |s|
    && (forall i :: 0 <= i < a ==> IsSpace(s[i])) && (forall i :: a <= i < b ==> !IsSpace(s[i]))
    && (b < |s| ==> IsSpace(s[b]))
  }

  predicate BeginsDefinition(lib: Library, s: string, a: int, b: int) {
    && IsFirstWord(s, a, b)
    && (s[a] == '(' || lib.upper(s[a..b]) in {"COMMENT", "PARTITIONED", "DISTRIBUTED", "WITH", "LIKE", "AS"})
  }

  /** A definition begins with a parenthesis or with a keyword in any case. */
  ghost predicate IsDefinition(lib: Library, s: string) {
    exists a, b :: BeginsDefinition(lib, s, a, b)
  }

  ghost predicate CatalogsRule(lib: Library, cs: seq<CatalogSetup>) {
    && (forall c :: c in cs ==>
          && IsName(c.name) && c.options != map[] && (forall key :: key in c.options ==> HasText(key))
          && forall key :: key in c.sensitiveKeys ==> lib.sensitiveKeyOk(key))
    && (forall i, j :: 0 <= i < j < |cs| ==> cs[i].name != cs[j].name)
  }

  ghost predicate DatabasesRule(ds: seq<DatabaseSetup>) {
    && (forall d :: d in ds ==>
          IsName(d.catalog) && IsName(d.name) && forall key :: key in d.options ==> HasText(key))
    && (forall i, j :: 0 <= i < j < |ds| ==> ds[i].catalog != ds[j].catalog || ds[i].name != ds[j].name)
  }

  ghost predicate TablesRule(lib: Library, ts: seq<TableSetup>) {
    && (forall t :: t in ts ==>
          && IsName(t.target.catalog) && IsName(t.target.database) && IsName(t.target.table)
          && IsDefinition(lib, t.statement))
    && (forall i, j :: 0 <= i < j < |ts| ==> ts[i].target != ts[j].target)
  }

  /** What is to be current is named, and a database only within a catalog. */
  ghost predicate CurrentRule(plan: Plan) {
    && (plan.currentCatalog != "" ==> IsName(plan.currentCatalog))
    && (plan.currentDatabase != "" ==> plan.currentCatalog != "" && IsName(plan.currentDatabase))
  }

  /** What a caller may check of a plan before compiling it. */
  ghost predicate Rules(lib: Library, plan: Plan) {
    && (plan.catalogs != [] || plan.databases != [] || plan.tables != [] || plan.currentCatalog != ""
        || plan.currentDatabase != "")
    && CatalogsRule(lib, plan.catalogs) && DatabasesRule(plan.databases) && TablesRule(lib, plan.tables)
    && CurrentRule(plan)
  }

  lemma NamesAreValid(s: string)
    ensures ValidIdentifier(s) <==> IsName(s)
    ensures IsBlank(s) <==> !HasText(s)
  {
    NamesInBytes(s);
    BlankIsAllSpace(s);
  }

  lemma {:induction false} FirstWordEnds(s: string, b: nat)
    requires b <= |s| && (forall i :: 0 <= i < b ==> !IsSpace(s[i])) && (b < |s| ==> IsSpace(s[b]))
    ensures FirstWord(s) == s[..b]
  {
    if b > 0 {
      FirstWordEnds(s[1..], b - 1);
      assert s[..b] == [s[0]] + s[1..][..b - 1];
    }
  }

  /** Where trimming leaves the first word: at the front. */
  lemma {:induction false} TrimmedFront(s: string, a: nat)
    requires a < |s| && (forall i :: 0 <= i < a ==> IsSpace(s[i])) && !IsSpace(s[a])
    ensures TrimLeft(s) == s[a..]
  {
    if a > 0 {
      TrimmedFront(s[1..], a - 1);
      assert s[1..][a - 1..] == s[a..];
    }
  }

  lemma {:induction false} TrimRightKeeps(s: string, b: nat)
    requires 0 < b <= |s| && !IsSpace(s[b - 1])
    ensures s[..b] <= TrimRight(s) && |TrimRight(s)| >= b
  {
    if IsSpace(s[|s| - 1]) {
      TrimRightKeeps(s[..|s| - 1], b);
      assert s[..|s| - 1][..b] == s[..b];
    }
  }

  lemma FrontWord(s: string, front: string, n: nat)
    requires front <= s && 0 < n <= |front| && (forall i :: 0 <= i < n ==> !IsSpace(s[i]))
    requires n < |s| ==> IsSpace(s[n])
    ensures front[0] == s[0] && FirstWord(front) == s[..n]
  {
    assert front == s[..|front|];
    assert front[..n] == s[..n];
    FirstWordEnds(front, n);
  }

  lemma FirstWordBehindSpace(s: string, a: int, b: int, trimmed: string)
    requires IsFirstWord(s, a, b) && trimmed == TrimRight(s[a..])
    ensures trimmed != "" && trimmed[0] == s[a] && FirstWord(trimmed) == s[a..b]
  {
    var rest := s[a..];
    TrimRightKeeps(rest, b - a);
    FrontWord(rest, trimmed, b - a);
    assert rest[..b - a] == s[a..b];
  }

  lemma TrimmedFirstWord(s: string, a: int, b: int)
    requires IsFirstWord(s, a, b)
    ensures var t := TrimSpace(s); t != "" && t[0] == s[a] && FirstWord(t) == s[a..b]
  {
    TrimmedFront(s, a);
    FirstWordBehindSpace(s, a, b, TrimSpace(s));
  }

  lemma {:induction false} WordEnd(s: string, a: nat) returns (b: nat)
    requires a <= |s|
    ensures a <= b <= |s| && (forall i :: a <= i < b ==> !IsSpace(s[i])) && (b < |s| ==> IsSpace(s[b]))
    decreases |s| - a
  {
    if a == |s| || IsSpace(s[a]) {
      b := a;
    } else {
      b := WordEnd(s, a + 1);
    }
  }

  lemma {:induction false} WordStart(s: string, from: nat) returns (a: nat)
    requires from <= |s| && (forall i :: 0 <= i < from ==> IsSpace(s[i])) && HasText(s)
    ensures a < |s| && !IsSpace(s[a]) && forall i :: 0 <= i < a ==> IsSpace(s[i])
    decreases |s| - from
  {
    if from == |s| {
      assert false;
    } else if IsSpace(s[from]) {
      a := WordStart(s, from + 1);
    } else {
      a := from;
    }
  }

  lemma SomeFirstWord(s: string) returns (a: nat, b: nat)
    requires TrimSpace(s) != ""
    ensures IsFirstWord(s, a, b)
  {
    NamesAreValid(s);
    a := WordStart(s, 0);
    b := WordEnd(s, a);
  }

  lemma DefinitionByFirstWord(lib: Library, s: string, a: int, b: int)
    requires IsFirstWord(s, a, b)
    ensures DefinitionOk(lib, s) <==> BeginsDefinition(lib, s, a, b)
  {
    TrimmedFirstWord(s, a, b);
  }

  lemma DefinitionsAreDefinitions(lib: Library, s: string)
    ensures DefinitionOk(lib, s) <==> IsDefinition(lib, s)
  {
    if DefinitionOk(lib, s) {
      var a, b := SomeFirstWord(s);
      DefinitionByFirstWord(lib, s, a, b);
    }
    if a, b :| BeginsDefinition(lib, s, a, b) {
      DefinitionByFirstWord(lib, s, a, b);
    }
  }

  lemma CatalogRule(lib: Library, c: CatalogSetup)
    ensures GoodCatalog(lib)(c) <==>
            && IsName(c.name) && c.options != map[] && (forall key :: key in c.options ==> HasText(key))
            && forall key :: key in c.sensitiveKeys ==> lib.sensitiveKeyOk(key)
  {
    NamesAreValid(c.name);
    forall key ensures IsBlank(key) <==> !HasText(key) {
      NamesAreValid(key);
    }
    if forall key :: key in c.sensitiveKeys ==> lib.sensitiveKeyOk(key) {
      assert forall i :: 0 <= i < |c.sensitiveKeys| ==> c.sensitiveKeys[i] in c.sensitiveKeys;
    }
  }

  lemma DatabaseRule(d: DatabaseSetup)
    ensures GoodDatabase()(d) <==>
            IsName(d.catalog) && IsName(d.name) && forall key :: key in d.options ==> HasText(key)
  {
    NamesAreValid(d.catalog);
    NamesAreValid(d.name);
    forall key ensures IsBlank(key) <==> !HasText(key) {
      NamesAreValid(key);
    }
  }

  lemma TableRule(lib: Library, t: TableSetup)
    ensures GoodTable(lib)(t) <==>
            && IsName(t.target.catalog) && IsName(t.target.database) && IsName(t.target.table)
            && IsDefinition(lib, t.statement)
  {
    NamesAreValid(t.target.catalog);
    NamesAreValid(t.target.database);
    NamesAreValid(t.target.table);
    DefinitionsAreDefinitions(lib, t.statement);
  }

  lemma CatalogsAccepted(lib: Library, cs: seq<CatalogSetup>)
    ensures EachOnce(GoodCatalog(lib), CatalogTarget(), cs) <==> CatalogsRule(lib, cs)
  {
    forall c {:trigger GoodCatalog(lib)(c)}
      ensures GoodCatalog(lib)(c) <==>
              && IsName(c.name) && c.options != map[] && (forall key :: key in c.options ==> HasText(key))
              && forall key :: key in c.sensitiveKeys ==> lib.sensitiveKeyOk(key)
    {
      CatalogRule(lib, c);
    }
    assert forall i :: 0 <= i < |cs| ==> cs[i] in cs && CatalogTarget()(cs[i]) == cs[i].name;
  }

  lemma DatabasesAccepted(ds: seq<DatabaseSetup>)
    ensures EachOnce(GoodDatabase(), DatabaseTarget(), ds) <==> DatabasesRule(ds)
  {
    forall d {:trigger GoodDatabase()(d)}
      ensures GoodDatabase()(d) <==>
              IsName(d.catalog) && IsName(d.name) && forall key :: key in d.options ==> HasText(key)
    {
      DatabaseRule(d);
    }
    assert forall i :: 0 <= i < |ds| ==> ds[i] in ds && DatabaseTarget()(ds[i]) == (ds[i].catalog, ds[i].name);
  }

  lemma TablesAccepted(lib: Library, ts: seq<TableSetup>)
    ensures EachOnce(GoodTable(lib), TableTarget(), ts) <==> TablesRule(lib, ts)
  {
    forall t {:trigger GoodTable(lib)(t)}
      ensures GoodTable(lib)(t) <==>
              && IsName(t.target.catalog) && IsName(t.target.database) && IsName(t.target.table)
              && IsDefinition(lib, t.statement)
    {
      TableRule(lib, t);
    }
    assert forall i :: 0 <= i < |ts| ==> ts[i] in ts && TableTarget()(ts[i]) == ts[i].target;
  }

  lemma CurrentAccepted(plan: Plan)
    ensures CurrentOk(plan) <==> CurrentRule(plan)
  {
    NamesAreValid(plan.currentCatalog);
    NamesAreValid(plan.currentDatabase);
  }

  /** A plan is accepted exactly when it keeps the rules. */
  lemma AcceptedByRules(lib: Library, plan: Plan)
    ensures Accepted(lib, plan) <==> Rules(lib, plan)
  {
    CatalogsAccepted(lib, plan.catalogs);
    DatabasesAccepted(plan.databases);
    TablesAccepted(lib, plan.tables);
    CurrentAccepted(plan);
  }
}

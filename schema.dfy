/**
 * The API configuration read from each YAML file (src/server/types.ts) and
 * the `CREATE TABLE` statement `initDatabaseFromConfig` derives from it. The
 * optional flags of the configuration are booleans here: a missing flag is
 * `false`.
 */
module Schema {
  import opened Wrappers
  import opened Strings

  datatype Field = Field(name: string, sqlType: string, primaryKey: bool, autoincrement: bool)

  datatype Model = Model(table: string, fields: seq<Field>)

  datatype RouteFlags = RouteFlags(create: bool, read: bool, readAll: bool, update: bool, delete: bool)

  datatype ApiConfig = ApiConfig(model: Model, routes: RouteFlags)

  /** The words of a column definition: name, type, then the optional
      `PRIMARY KEY` and `AUTOINCREMENT`, each added on its own flag
      (`ColumnWordsFlags`). */
  function ColumnWords(f: Field): (ws: seq<string>)
    ensures |ws| >= 2 && ws[0] == f.name && ws[1] == f.sqlType
  {
    [f.name, f.sqlType] + FlagWords(f.primaryKey, f.autoincrement)
  }

  /** After name and type come `PRIMARY KEY` exactly when the field is a
      primary key and `AUTOINCREMENT`, last, exactly when it is flagged so. */
  lemma ColumnWordsFlags(f: Field)
    ensures var ws := ColumnWords(f);
      && |ws| == 2 + (if f.primaryKey then 2 else 0) + (if f.autoincrement then 1 else 0)
      && (f.primaryKey <==> "PRIMARY" in ws[2..])
      && (f.primaryKey ==> ws[2..4] == ["PRIMARY", "KEY"])
      && (f.autoincrement <==> "AUTOINCREMENT" in ws[2..])
      && (f.autoincrement ==> ws[|ws| - 1] == "AUTOINCREMENT")
  {
    var ws := ColumnWords(f);
    assert ws[2..] == FlagWords(f.primaryKey, f.autoincrement);
  }

  function FlagWords(primaryKey: bool, autoincrement: bool): seq<string> {
    (if primaryKey then ["PRIMARY", "KEY"] else [])
    + (if autoincrement then ["AUTOINCREMENT"] else [])
  }

  /** `${name} ${type}` followed by ` PRIMARY KEY` and ` AUTOINCREMENT` as flagged. */
  function ColumnDef(f: Field): string {
    Join(ColumnWords(f), " ")
  }

  /** The column definitions joined with `, ` in declared order. */
  function ColumnDefs(fields: seq<Field>): string {
    Join(seq(|fields|, i requires 0 <= i < |fields| => ColumnDef(fields[i])), ", ")
  }

  const CreatePrefix := "CREATE TABLE IF NOT EXISTS "

  function CreateTableSql(m: Model): string {
    CreatePrefix + m.table + " (" + ColumnDefs(m.fields) + ");"
  }

  /** The definition as the source spells it out: name, a space, the type,
      then each suffix on its own flag, with no check of the combination. */
  lemma ColumnDefText(f: Field)
    ensures ColumnDef(f) == f.name + " " + f.sqlType
      + (if f.primaryKey then " PRIMARY KEY" else "")
      + (if f.autoincrement then " AUTOINCREMENT" else "")
  {
    var rest := [f.sqlType] + FlagWords(f.primaryKey, f.autoincrement);
    assert ColumnWords(f) == [f.name] + rest;
    JoinCons(f.name, rest, " ");
    TypeAndFlagsText(f.sqlType, f.primaryKey, f.autoincrement);
  }

  lemma TypeAndFlagsText(t: string, primaryKey: bool, autoincrement: bool)
    ensures Join([t] + FlagWords(primaryKey, autoincrement), " ")
         == t + (if primaryKey then " PRIMARY KEY" else "")
              + (if autoincrement then " AUTOINCREMENT" else "")
  {
    if !primaryKey && !autoincrement {
      assert [t] + FlagWords(primaryKey, autoincrement) == [t];
    } else {
      var sfx := (if primaryKey then " PRIMARY KEY" else "") + (if autoincrement then " AUTOINCREMENT" else "");
      if primaryKey && autoincrement {
        BothFlagsText();
      } else if primaryKey {
        PrimaryKeyText();
      } else {
        AutoincrementText();
      }
      FlagsAfterType(t, FlagWords(primaryKey, autoincrement), sfx);
      assert t + sfx == t + (if primaryKey then " PRIMARY KEY" else "") + (if autoincrement then " AUTOINCREMENT" else "");
    }
  }

  lemma FlagsAfterType(t: string, flags: seq<string>, sfx: string)
    requires flags != [] && " " + Join(flags, " ") == sfx
    ensures Join([t] + flags, " ") == t + sfx
  {
    JoinCons(t, flags, " ");
  }

  lemma AutoincrementText()
    ensures " " + Join(FlagWords(false, true), " ") == "" + " AUTOINCREMENT"
  {
    assert FlagWords(false, true) == ["AUTOINCREMENT"];
  }

  lemma BothFlagsText()
    ensures " " + Join(FlagWords(true, true), " ") == " PRIMARY KEY" + " AUTOINCREMENT"
  {
    assert FlagWords(true, true) == ["PRIMARY", "KEY", "AUTOINCREMENT"];
    JoinCons("PRIMARY", ["KEY", "AUTOINCREMENT"], " ");
    JoinCons("KEY", ["AUTOINCREMENT"], " ");
    Regroup(" ", "PRIMARY", "KEY", "AUTOINCREMENT");
    assert " " + "PRIMARY" + " " + "KEY" == " PRIMARY KEY";
    assert " " + "AUTOINCREMENT" == " AUTOINCREMENT";
  }

  lemma Regroup(s: string, p: string, k: string, a: string)
    ensures s + (p + s + (k + s + a)) == (s + p + s + k) + (s + a)
  {
  }

  lemma PrimaryKeyText()
    ensures " " + Join(FlagWords(true, false), " ") == " PRIMARY KEY" + ""
  {
    assert FlagWords(true, false) == ["PRIMARY", "KEY"];
    JoinCons("PRIMARY", ["KEY"], " ");
  }

  lemma JoinCons(x: string, xs: seq<string>, sep: string)
    requires xs != []
    ensures Join([x] + xs, sep) == x + sep + Join(xs, sep)
  {
    assert ([x] + xs)[1..] == xs;
  }

  /** Reads a column definition back. */
  function ParseColumnDef(d: string): Option<Field> {
    var ws := Split(d, " ");
    if |ws| < 2 then None
    else
      var rest := ws[2..];
      if rest == [] then Some(Field(ws[0], ws[1], false, false))
      else if rest == ["PRIMARY", "KEY"] then Some(Field(ws[0], ws[1], true, false))
      else if rest == ["AUTOINCREMENT"] then Some(Field(ws[0], ws[1], false, true))
      else if rest == ["PRIMARY", "KEY", "AUTOINCREMENT"] then Some(Field(ws[0], ws[1], true, true))
      else None
  }

  function ParseColumnDefs(ds: seq<string>): Option<seq<Field>> {
    if ds == [] then Some([])
    else match (ParseColumnDef(ds[0]), ParseColumnDefs(ds[1..]))
      case (Some(f), Some(fs)) => Some([f] + fs)
      case _ => None
  }

  /** Reads a `CREATE TABLE` statement back into table name and fields. */
  function ParseCreateTable(sql: string): Option<Model> {
    if StartsWith(sql, CreatePrefix) && |sql| >= |CreatePrefix| + 2 && EndsWith(sql, ");") then
      ParseTableAndDefs(sql[|CreatePrefix|..|sql| - 2])
    else None
  }

  /** `table (defs`: the table name runs up to the first ` (`. */
  function ParseTableAndDefs(inner: string): Option<Model> {
    match FindFirst(inner, [" ("])
    case None => None
    case Some((i, _)) =>
      assert OccursAt(inner, [" ("][0], i);
      match ParseDefs(inner[i + 2..])
      case None => None
      case Some(fs) => Some(Model(inner[..i], fs))
  }

  function ParseDefs(defs: string): Option<seq<Field>> {
    if defs == "" then Some([]) else ParseColumnDefs(Split(defs, ", "))
  }

  /** Names and types are single words without commas. */
  predicate PlainField(f: Field) {
    ' ' !in f.name && ' ' !in f.sqlType && ',' !in f.name && ',' !in f.sqlType
  }

  predicate PlainModel(m: Model) {
    ' ' !in m.table && forall i :: 0 <= i < |m.fields| ==> PlainField(m.fields[i])
  }

  lemma ColumnDefRoundTrip(f: Field)
    requires PlainField(f)
    ensures ParseColumnDef(ColumnDef(f)) == Some(f)
  {
    var ws := ColumnWords(f);
    forall i | 0 <= i < |ws| ensures " "[0] !in ws[i] { }
    SplitJoin(ws, " ");
    assert ws[2..] == FlagWords(f.primaryKey, f.autoincrement);
  }

  /** A column definition of a plain field contains no comma. */
  lemma ColumnDefNoComma(f: Field)
    requires PlainField(f)
    ensures ',' !in ColumnDef(f)
  {
    JoinAvoids(ColumnWords(f), " ", ',');
  }

  lemma {:induction false} JoinAvoids(xs: seq<string>, sep: string, c: char)
    requires c !in sep
    requires forall i :: 0 <= i < |xs| ==> c !in xs[i]
    ensures c !in Join(xs, sep)
  {
    if |xs| > 1 {
      forall i | 0 <= i < |xs[1..]| ensures c !in xs[1..][i] { assert xs[1..][i] == xs[i + 1]; }
      JoinAvoids(xs[1..], sep, c);
    }
  }

  lemma {:induction false} ParseColumnDefsRoundTrip(fields: seq<Field>)
    requires forall i :: 0 <= i < |fields| ==> PlainField(fields[i])
    ensures ParseColumnDefs(seq(|fields|, i requires 0 <= i < |fields| => ColumnDef(fields[i]))) == Some(fields)
  {
    var ds := seq(|fields|, i requires 0 <= i < |fields| => ColumnDef(fields[i]));
    if fields != [] {
      ColumnDefRoundTrip(fields[0]);
      ParseColumnDefsRoundTrip(fields[1..]);
      assert ds[1..] == seq(|fields[1..]|, i requires 0 <= i < |fields[1..]| => ColumnDef(fields[1..][i]));
      assert fields == [fields[0]] + fields[1..];
    }
  }

  /** The statement determines the configuration it came from: table name,
      and one column definition per field in declared order with exactly
      its flags. */
  lemma CreateTableRoundTrip(m: Model)
    requires PlainModel(m)
    ensures ParseCreateTable(CreateTableSql(m)) == Some(m)
  {
    var defs := ColumnDefs(m.fields);
    var sql := CreateTableSql(m);
    var inner := m.table + " (" + defs;
    assert sql == CreatePrefix + inner + ");";
    assert sql[..|CreatePrefix|] == CreatePrefix;
    assert sql[|sql| - 2..] == ");";
    assert sql[|CreatePrefix|..|sql| - 2] == inner;
    TableAndDefsRoundTrip(m.table, defs);
    DefsRoundTrip(m.fields);
  }

  lemma TableAndDefsRoundTrip(table: string, defs: string)
    requires ' ' !in table
    ensures ParseTableAndDefs(table + " (" + defs) == match ParseDefs(defs)
      case None => None
      case Some(fs) => Some(Model(table, fs))
  {
    var inner := table + " (" + defs;
    assert inner[..|table|] == table;
    NoOccurrenceBefore(inner, " (", |table|);
    assert OccursAt(inner, [" ("][0], |table|) by {
      assert inner[|table|..|table| + 2] == " (";
    }
    assert IsFirstOccurrence(inner, [" ("], |table|, 0);
    var r := FindFirst(inner, [" ("]);
    FirstOccurrenceUnique(inner, [" ("], r.value.0, r.value.1, |table|, 0);
    assert inner[|table| + 2..] == defs;
  }

  lemma DefsRoundTrip(fields: seq<Field>)
    requires forall i :: 0 <= i < |fields| ==> PlainField(fields[i])
    ensures ParseDefs(ColumnDefs(fields)) == Some(fields)
  {
    var ds := seq(|fields|, i requires 0 <= i < |fields| => ColumnDef(fields[i]));
    ParseColumnDefsRoundTrip(fields);
    if fields != [] {
      forall i | 0 <= i < |ds| ensures ", "[0] !in ds[i] {
        ColumnDefNoComma(fields[i]);
      }
      SplitJoin(ds, ", ");
      ColumnDefNonEmpty(fields[0]);
      JoinNonEmpty(ds, ", ");
    }
  }

  lemma ColumnDefNonEmpty(f: Field)
    ensures ColumnDef(f) != ""
  {
    var ws := ColumnWords(f);
    assert Join(ws, " ") == ws[0] + " " + Join(ws[1..], " ");
  }

  lemma JoinNonEmpty(xs: seq<string>, sep: string)
    requires xs != [] && xs[0] != ""
    ensures Join(xs, sep) != ""
  {
  }
}

/**
 * What `addIndexes` (lib/auto-generator.js:377-419) and `addTable`
 * (lib/auto-generator.js:134-195) write for one table, as functions of
 * the introspected data.
 */
module Tables {
  import opened Text
  import opened Schema
  import opened Fields

  /** `['UNIQUE', 'FULLTEXT', 'SPATIAL'].includes(idx.type)`: these are written as `type`, the rest as `using`. */
  predicate IsIndexKind(k: string) {
    k == "UNIQUE" || k == "FULLTEXT" || k == "SPATIAL"
  }

  /** One entry of an index's `fields` list; `ASC` is the default order and is not written. */
  function IndexFieldText(cfg: Config, ff: IndexField): string
    requires cfg.Valid()
  {
    var named := cfg.space[5] + "{ name: \"" + ff.attribute + "\"";
    var collated := if ff.collate != "" then named + ", collate: \"" + ff.collate + "\"" else named;
    var sized := if ff.length != 0 then collated + ", length: " + NatToString(ff.length) else collated;
    var ordered := if ff.order != "" && ff.order != "ASC" then sized + ", order: \"" + ff.order + "\"" else sized;
    ordered + " },\n"
  }

  function IndexFieldsText(cfg: Config, ffs: seq<IndexField>): string
    requires cfg.Valid()
  {
    if ffs == [] then "" else IndexFieldText(cfg, ffs[0]) + IndexFieldsText(cfg, ffs[1..])
  }

  /** The header lines of one index: name, unique flag and method, each only when set. */
  function IndexHead(cfg: Config, idx: Index): string
    requires cfg.Valid()
  {
    var sp := cfg.space;
    var start := sp[3] + "{\n";
    var named := if idx.name != "" then start + sp[4] + "name: \"" + idx.name + "\",\n" else start;
    var uniq := if idx.unique then named + sp[4] + "unique: true,\n" else named;
    var kinded := if idx.kind != "" then
        (if IsIndexKind(idx.kind) then uniq + sp[4] + "type: \"" + idx.kind + "\",\n"
         else uniq + sp[4] + "using: \"" + idx.kind + "\",\n")
      else uniq;
    kinded + sp[4] + "fields: [\n"
  }

  function IndexText(cfg: Config, idx: Index): string
    requires cfg.Valid()
  {
    IndexHead(cfg, idx) + IndexFieldsText(cfg, idx.fields) + cfg.space[4] + "]\n" + cfg.space[3] + "},\n"
  }

  function IndexListText(cfg: Config, idxs: seq<Index>): string
    requires cfg.Valid()
  {
    if idxs == [] then "" else IndexText(cfg, idxs[0]) + IndexListText(cfg, idxs[1..])
  }

  /** `addIndexes`: nothing for a table without indexes, otherwise the `indexes` list. */
  function IndexesText(cfg: Config, idxs: seq<Index>): string
    requires cfg.Valid()
  {
    if |idxs| == 0 then ""
    else cfg.space[2] + "indexes: [\n" + IndexListText(cfg, idxs) + cfg.space[2] + "],\n"
  }

  lemma {:induction false} IndexFieldsTextConcat(cfg: Config, a: seq<IndexField>, b: seq<IndexField>)
    requires cfg.Valid()
    ensures IndexFieldsText(cfg, a + b) == IndexFieldsText(cfg, a) + IndexFieldsText(cfg, b)
  {
    if a == [] {
      assert a + b == b;
      AppendEmpty(IndexFieldsText(cfg, b));
    } else {
      assert (a + b)[0] == a[0] && (a + b)[1..] == a[1..] + b;
      IndexFieldsTextConcat(cfg, a[1..], b);
      AppendAssoc(IndexFieldText(cfg, a[0]), IndexFieldsText(cfg, a[1..]), IndexFieldsText(cfg, b));
    }
  }

  lemma {:induction false} IndexListTextConcat(cfg: Config, a: seq<Index>, b: seq<Index>)
    requires cfg.Valid()
    ensures IndexListText(cfg, a + b) == IndexListText(cfg, a) + IndexListText(cfg, b)
  {
    if a == [] {
      assert a + b == b;
      AppendEmpty(IndexListText(cfg, b));
    } else {
      assert (a + b)[0] == a[0] && (a + b)[1..] == a[1..] + b;
      IndexListTextConcat(cfg, a[1..], b);
      AppendAssoc(IndexText(cfg, a[0]), IndexListText(cfg, a[1..]), IndexListText(cfg, b));
    }
  }

  /** Every index block, and so the whole list, closes with a comma and a newline. */
  lemma IndexesTextShape(cfg: Config, idxs: seq<Index>)
    requires cfg.Valid()
    ensures IndexesText(cfg, idxs) == "" <==> |idxs| == 0
    ensures |idxs| > 0 ==> EndsWith(IndexesText(cfg, idxs), ",\n")
  {
    if |idxs| > 0 {
      var r := IndexesText(cfg, idxs);
      assert r == (cfg.space[2] + "indexes: [\n" + IndexListText(cfg, idxs) + cfg.space[2] + "]") + ",\n";
    }
  }

  /** The foreign-key record the introspection holds for (table, field), if any. */
  function FkLookup(fks: map<string, map<string, ForeignKey>>, table: string, field: string): Option<ForeignKey> {
    if table in fks && field in fks[table] then Some(fks[table][field]) else None
  }

  /** Every column of the table can be written by `addField`. */
  ghost predicate TableReady(cfg: Config, fks: map<string, map<string, ForeignKey>>, table: string, t: Table) {
    && cfg.Valid()
    && t.Valid()
    && forall c :: c in t.fields && !Skipped(cfg, c) ==> FieldDefined(cfg, Attach(t.fields[c], FkLookup(fks, table, c)))
  }

  /** The concatenated `addField` output of the columns `cols`. */
  function FieldsText(cfg: Config, fks: map<string, map<string, ForeignKey>>, table: string, t: Table, cols: seq<string>): string
    requires TableReady(cfg, fks, table, t) && forall c :: c in cols ==> c in t.fields
  {
    if cols == [] then ""
    else FieldOut(cfg, cols[0], t.fields[cols[0]], FkLookup(fks, table, cols[0]))
         + FieldsText(cfg, fks, table, t, cols[1..])
  }

  lemma {:induction false} FieldsTextConcat(cfg: Config, fks: map<string, map<string, ForeignKey>>, table: string, t: Table, a: seq<string>, b: seq<string>)
    requires TableReady(cfg, fks, table, t) && (forall c :: c in a ==> c in t.fields) && (forall c :: c in b ==> c in t.fields)
    ensures FieldsText(cfg, fks, table, t, a + b) == FieldsText(cfg, fks, table, t, a) + FieldsText(cfg, fks, table, t, b)
  {
    if a == [] {
      assert a + b == b;
      AppendEmpty(FieldsText(cfg, fks, table, t, b));
    } else {
      assert (a + b)[0] == a[0] && (a + b)[1..] == a[1..] + b;
      FieldsTextConcat(cfg, fks, table, t, a[1..], b);
      AppendAssoc(FieldOut(cfg, a[0], t.fields[a[0]], FkLookup(fks, table, a[0])),
        FieldsText(cfg, fks, table, t, a[1..]), FieldsText(cfg, fks, table, t, b));
    }
  }

  /** `fieldObj.foreignKey = foreignKey` on the column `c` of `t`. */
  function AttachField(t: Table, c: string, fk: Option<ForeignKey>): (r: Table)
    requires t.Valid() && c in t.fields
    ensures r.Valid() && r.columns == t.columns && r.fields.Keys == t.fields.Keys
  {
    t.(fields := t.fields[c := Attach(t.fields[c], fk)])
  }

  /** What `addField(table, c)` leaves in the table: skipped columns are not touched. */
  function AttachStep(cfg: Config, fks: map<string, map<string, ForeignKey>>, table: string, t: Table, c: string): (r: Table)
    requires t.Valid() && c in t.fields
    ensures r.Valid() && r.columns == t.columns && r.fields.Keys == t.fields.Keys
  {
    if Skipped(cfg, c) then t else AttachField(t, c, FkLookup(fks, table, c))
  }

  /** The table after `addField` ran on each of `cols`, in order. */
  function AttachCols(cfg: Config, fks: map<string, map<string, ForeignKey>>, table: string, t: Table, cols: seq<string>): (r: Table)
    requires t.Valid() && forall c :: c in cols ==> c in t.fields
    ensures r.Valid() && r.columns == t.columns && r.fields.Keys == t.fields.Keys
  {
    if cols == [] then t
    else AttachStep(cfg, fks, table, AttachCols(cfg, fks, table, t, cols[..|cols| - 1]), cols[|cols| - 1])
  }

  /** The table after `addField` ran on its first `n` columns. */
  function AttachedUpTo(cfg: Config, fks: map<string, map<string, ForeignKey>>, table: string, t: Table, n: nat): (r: Table)
    requires t.Valid() && n <= |t.columns|
    ensures r.Valid() && r.columns == t.columns && r.fields.Keys == t.fields.Keys
  {
    AttachCols(cfg, fks, table, t, t.columns[..n])
  }

  /** The `addField` output of the first `n` columns. */
  function FieldsTextUpTo(cfg: Config, fks: map<string, map<string, ForeignKey>>, table: string, t: Table, n: nat): string
    requires TableReady(cfg, fks, table, t) && n <= |t.columns|
  {
    FieldsText(cfg, fks, table, t, t.columns[..n])
  }

  /** The table after `addTable`: every column that is written carries its foreign-key record. */
  function AttachAll(cfg: Config, fks: map<string, map<string, ForeignKey>>, table: string, t: Table): (r: Table)
    requires t.Valid()
    ensures r.Valid() && r.columns == t.columns && r.fields.Keys == t.fields.Keys
  {
    AttachCols(cfg, fks, table, t, t.columns)
  }

  /** Columns not yet visited keep their field object. */
  lemma {:induction false} AttachColsOthers(cfg: Config, fks: map<string, map<string, ForeignKey>>, table: string, t: Table, cols: seq<string>, c: string)
    requires t.Valid() && (forall x :: x in cols ==> x in t.fields) && c in t.fields && c !in cols
    ensures AttachCols(cfg, fks, table, t, cols).fields[c] == t.fields[c]
  {
    if cols != [] {
      AttachColsOthers(cfg, fks, table, t, cols[..|cols| - 1], c);
    }
  }

  /** `addField` on one column leaves every other column's object as it was. */
  lemma AttachStepOthers(cfg: Config, fks: map<string, map<string, ForeignKey>>, table: string, t: Table, c: string, d: string)
    requires t.Valid() && c in t.fields && d in t.fields && c != d
    ensures AttachStep(cfg, fks, table, t, c).fields[d] == t.fields[d]
  {
  }

  /** Each visited column ends up as `addField` leaves it, whatever else was visited. */
  lemma {:induction false} AttachColsVisited(cfg: Config, fks: map<string, map<string, ForeignKey>>, table: string, t: Table, cols: seq<string>, c: string)
    requires t.Valid() && (forall x :: x in cols ==> x in t.fields) && c in cols
    ensures AttachCols(cfg, fks, table, t, cols).fields[c]
      == (if Skipped(cfg, c) then t.fields[c] else Attach(t.fields[c], FkLookup(fks, table, c)))
    decreases |cols|, 1
  {
    var init := cols[..|cols| - 1];
    var last := cols[|cols| - 1];
    if c == last {
      AttachColsLast(cfg, fks, table, t, cols);
    } else {
      assert c in init by {
        var j :| 0 <= j < |cols| && cols[j] == c;
        assert init[j] == c;
      }
      AttachColsVisited(cfg, fks, table, t, init, c);
      AttachStepOthers(cfg, fks, table, AttachCols(cfg, fks, table, t, init), last, c);
    }
  }

  /** The last visited column ends up as `addField` leaves it, whether or not it was visited before. */
  lemma {:induction false} AttachColsLast(cfg: Config, fks: map<string, map<string, ForeignKey>>, table: string, t: Table, cols: seq<string>)
    requires t.Valid() && (forall x :: x in cols ==> x in t.fields) && cols != []
    ensures var c := cols[|cols| - 1];
      AttachCols(cfg, fks, table, t, cols).fields[c]
      == (if Skipped(cfg, c) then t.fields[c] else Attach(t.fields[c], FkLookup(fks, table, c)))
    decreases |cols|, 0
  {
    var init := cols[..|cols| - 1];
    var c := cols[|cols| - 1];
    if c in init {
      AttachColsVisited(cfg, fks, table, t, init, c);
      if !Skipped(cfg, c) { AttachIdempotent(t.fields[c], FkLookup(fks, table, c)); }
    } else {
      AttachColsOthers(cfg, fks, table, t, init, c);
    }
  }

  /** Attaching a column's record keeps the table writable. */
  lemma AttachKeepsReady(cfg: Config, fks: map<string, map<string, ForeignKey>>, table: string, t: Table, c: string)
    requires TableReady(cfg, fks, table, t) && c in t.fields
    ensures TableReady(cfg, fks, table, AttachField(t, c, FkLookup(fks, table, c)))
  {
    AttachIdempotent(t.fields[c], FkLookup(fks, table, c));
  }

  /** `timestamps || (timestamps = isTimestampField(field))` over the columns, from `additional.timestamps === true`. */
  predicate AnyTimestamp(cfg: Config, cols: seq<string>) {
    cols != [] && (AnyTimestamp(cfg, cols[..|cols| - 1]) || IsTimestampField(cfg, cols[|cols| - 1]))
  }

  predicate AnyParanoid(cfg: Config, cols: seq<string>) {
    cols != [] && (AnyParanoid(cfg, cols[..|cols| - 1]) || IsParanoidField(cfg, cols[|cols| - 1]))
  }

  /** Some column is a timestamp column exactly when the fold says so. */
  lemma {:induction false} AnyTimestampExists(cfg: Config, cols: seq<string>)
    ensures AnyTimestamp(cfg, cols) <==> exists c :: c in cols && IsTimestampField(cfg, c)
  {
    if cols != [] {
      var init := cols[..|cols| - 1];
      AnyTimestampExists(cfg, init);
      assert cols == init + [cols[|cols| - 1]];
    }
  }

  /** Some column is a paranoid column exactly when the fold says so. */
  lemma {:induction false} AnyParanoidExists(cfg: Config, cols: seq<string>)
    ensures AnyParanoid(cfg, cols) <==> exists c :: c in cols && IsParanoidField(cfg, c)
  {
    if cols != [] {
      var init := cols[..|cols| - 1];
      AnyParanoidExists(cfg, init);
      assert cols == init + [cols[|cols| - 1]];
    }
  }

  /** The fixed table options, from `sequelize` to `paranoid`. */
  function OptionsText(cfg: Config, table: string, hasTrigger: bool, timestamps: bool, paranoid: bool): (r: string)
    requires cfg.Valid()
    ensures EndsWith(r, ",\n")
  {
    var sp := cfg.space;
    var (schemaName, tableNameOrig) := cfg.naming.qNameSplit(table);
    var start := sp[1] + "}, {\n";
    var withSequelize := if !cfg.options.useDefine then start + sp[2] + "sequelize,\n" else start;
    var named := withSequelize + sp[2] + "tableName: '" + tableNameOrig + "',\n";
    var withSchema := if schemaName != "" && cfg.dialect.hasSchema then named + sp[2] + "schema: '" + schemaName + "',\n" else named;
    var modeled := withSchema + sp[2] + "modelName: '#TABLE#',\n";
    var withTrigger := if hasTrigger then modeled + sp[2] + "hasTrigger: true,\n" else modeled;
    var stamped := withTrigger + sp[2] + "timestamps: " + (if timestamps then "true" else "false") + ",\n";
    OptionsClose(withTrigger + sp[2] + "timestamps: " + (if timestamps then "true" else "false"), sp[2]);
    if paranoid then stamped + sp[2] + "paranoid: true,\n" else stamped
  }

  lemma OptionsClose(a: string, indent: string)
    ensures EndsWith(a + ",\n", ",\n")
    ensures EndsWith(a + ",\n" + indent + "paranoid: true,\n", ",\n")
  {
    var last := "paranoid: true,\n";
    assert EndsWith(last, ",\n") by { assert last[|last| - 2..] == ",\n"; }
    EndsWithAppend(a + ",\n" + indent, last, ",\n");
    EndsWithAppend(a, ",\n", ",\n");
  }

  /** One entry of `additional`: `name` keeps the table name, `timestamps` and `paranoid` were written already. */
  function AdditionalEntry(cfg: Config, table: string, key: string, value: JsValue): (r: string)
    requires cfg.Valid()
    ensures r == "" <==> key == "timestamps" || key == "paranoid"
    ensures r != "" ==> EndsWith(r, ",\n")
  {
    var sp := cfg.space;
    if key == "name" then
      var closing := "},\n";
      assert EndsWith(closing, ",\n") by { assert closing[|closing| - 2..] == ",\n"; }
      var r := sp[2] + "name: {\n" + sp[3] + "singular: '" + table + "',\n" + sp[3] + "plural: '" + table + "'\n" + sp[2];
      EndsWithAppend(r, closing, ",\n");
      r + closing
    else if key == "timestamps" || key == "paranoid" then ""
    else
      var shown := if value.Bool? then JsString(value) else "'" + JsString(value) + "'";
      (sp[2] + key + ": " + shown) + ",\n"
  }

  function AdditionalText(cfg: Config, table: string, keys: seq<string>): string
    requires cfg.Valid()
  {
    if keys == [] then ""
    else AdditionalEntry(cfg, table, keys[0], cfg.options.additional.Get(keys[0])) + AdditionalText(cfg, table, keys[1..])
  }

  lemma {:induction false} AdditionalTextConcat(cfg: Config, table: string, a: seq<string>, b: seq<string>)
    requires cfg.Valid()
    ensures AdditionalText(cfg, table, a + b) == AdditionalText(cfg, table, a) + AdditionalText(cfg, table, b)
  {
    if a == [] {
      assert a + b == b;
      AppendEmpty(AdditionalText(cfg, table, b));
    } else {
      assert (a + b)[0] == a[0] && (a + b)[1..] == a[1..] + b;
      AdditionalTextConcat(cfg, table, a[1..], b);
      AppendAssoc(AdditionalEntry(cfg, table, a[0], cfg.options.additional.Get(a[0])),
        AdditionalText(cfg, table, a[1..]), AdditionalText(cfg, table, b));
    }
  }

  /** The options block, the additional options and the indexes: it always ends with a comma and a newline. */
  function TableTail(cfg: Config, table: string, hasTrigger: bool, timestamps: bool, paranoid: bool, idxs: seq<Index>): (r: string)
    requires cfg.Valid()
    ensures EndsWith(r, ",\n")
  {
    TailEndsWithSeparator(cfg, table, OptionsText(cfg, table, hasTrigger, timestamps, paranoid), idxs, cfg.options.additional.keys);
    OptionsText(cfg, table, hasTrigger, timestamps, paranoid)
    + AdditionalText(cfg, table, cfg.options.additional.keys)
    + (if !cfg.options.noIndexes then IndexesText(cfg, idxs) else "")
  }

  /** The text `addTable` closes: everything after the fields, trimmed, minus its last character. */
  function CloseTable(cfg: Config, s: string): string
    requires cfg.Valid()
  {
    var u := cfg.space[2] + Trim(s);
    Substring(u, 0, |u| - 1) + "\n" + cfg.space[1] + "}"
  }

  /** The text `addTable` builds before its closing cut: fields without their last separator, then options, additional options and indexes. */
  function TableBody(cfg: Config, fks: map<string, map<string, ForeignKey>>, hasTrigger: bool, idxs: seq<Index>, table: string, t: Table): (r: string)
    requires TableReady(cfg, fks, table, t)
    ensures EndsWith(r, ",\n")
  {
    var timestamps := cfg.options.additional.Get("timestamps") == Bool(true) || AnyTimestamp(cfg, t.columns);
    var paranoid := cfg.options.additional.Get("paranoid") == Bool(true) || AnyParanoid(cfg, t.columns);
    var fields := FieldsText(cfg, fks, table, t, t.columns);
    var tail := TableTail(cfg, table, hasTrigger, timestamps, paranoid, idxs);
    SeparatorKept(Substring(fields, 0, |fields| - 2) + "\n", tail);
    Substring(fields, 0, |fields| - 2) + "\n" + tail
  }

  /** `addTable(table)` for the table `t`, its foreign keys, trigger flag and indexes. */
  function TableText(cfg: Config, fks: map<string, map<string, ForeignKey>>, hasTrigger: bool, idxs: seq<Index>, table: string, t: Table): string
    requires TableReady(cfg, fks, table, t)
  {
    CloseTable(cfg, TableBody(cfg, fks, hasTrigger, idxs, table, t))
  }

  lemma TailEndsWithSeparator(cfg: Config, table: string, o: string, idxs: seq<Index>, keys: seq<string>)
    requires cfg.Valid() && EndsWith(o, ",\n")
    ensures EndsWith(o + AdditionalText(cfg, table, keys) + (if !cfg.options.noIndexes then IndexesText(cfg, idxs) else ""), ",\n")
  {
    var ix := if !cfg.options.noIndexes then IndexesText(cfg, idxs) else "";
    IndexesTextShape(cfg, idxs);
    if ix == "" {
      AdditionalEndsWithSeparator(cfg, table, o, keys);
      assert o + AdditionalText(cfg, table, keys) + ix == o + AdditionalText(cfg, table, keys);
    } else {
      EndsWithAppend(o + AdditionalText(cfg, table, keys), ix, ",\n");
    }
  }

  /** Appending additional options to text that ends with a separator keeps that ending. */
  lemma {:induction false} AdditionalEndsWithSeparator(cfg: Config, table: string, o: string, keys: seq<string>)
    requires cfg.Valid() && EndsWith(o, ",\n")
    ensures EndsWith(o + AdditionalText(cfg, table, keys), ",\n")
    decreases |keys|
  {
    if keys != [] {
      var e := AdditionalEntry(cfg, table, keys[0], cfg.options.additional.Get(keys[0]));
      if e != "" {
        EndsWithAppend(o, e, ",\n");
      } else {
        AppendEmpty(o);
      }
      AdditionalEndsWithSeparator(cfg, table, o + e, keys[1..]);
      AppendAssoc(o, e, AdditionalText(cfg, table, keys[1..]));
    }
  }

  /** `trim` keeps a trailing run that starts with a visible character. */
  lemma {:induction false} TrimStartKeepsTail(s: string, tail: string)
    requires |tail| > 0 && !IsSpace(tail[0])
    ensures EndsWith(TrimStart(s + tail), tail)
    decreases |s|
  {
    if |s| > 0 && IsSpace(s[0]) {
      assert (s + tail)[1..] == s[1..] + tail;
      TrimStartKeepsTail(s[1..], tail);
    } else if |s| == 0 {
      assert s + tail == tail;
    } else {
      assert TrimStart(s + tail) == s + tail;
    }
  }

  /** Trimming text that ends in `,\n` leaves it ending in the comma. */
  lemma TrimKeepsComma(s: string)
    requires EndsWith(s, ",\n")
    ensures var t := Trim(s); |t| > 0 && t[|t| - 1] == ','
  {
    var pre := s[..|s| - 2];
    assert s == pre + ",\n";
    TrimStartKeepsTail(pre, ",\n");
    var u := TrimStart(s);
    assert u == u[..|u| - 2] + ",\n";
    assert TrimEnd(u) == TrimEnd(u[..|u| - 1]);
    assert u[..|u| - 1] == u[..|u| - 2] + ",";
  }

  /**
   * `addTable`'s closing cut removes exactly the separator of the last
   * option: the text ends with the last option's value, a newline and
   * the closing brace.
   */
  lemma CloseDropsComma(cfg: Config, s: string)
    requires cfg.Valid() && EndsWith(s, ",\n")
    ensures exists w :: cfg.space[2] + Trim(s) == w + "," && CloseTable(cfg, s) == w + "\n" + cfg.space[1] + "}"
  {
    TrimKeepsComma(s);
    var u := cfg.space[2] + Trim(s);
    var w := u[..|u| - 1];
    assert u == w + ",";
  }

  lemma SeparatorKept(s: string, tail: string)
    requires EndsWith(tail, ",\n")
    ensures EndsWith(s + tail, ",\n")
  {
    assert (s + tail)[|s + tail| - 2..] == tail[|tail| - 2..];
  }

  /** The table's last option loses exactly its comma, whatever options and indexes precede it. */
  lemma TableTextCloses(cfg: Config, fks: map<string, map<string, ForeignKey>>, hasTrigger: bool, idxs: seq<Index>, table: string, t: Table)
    requires TableReady(cfg, fks, table, t)
    ensures exists w: string ::
      && cfg.space[2] + Trim(TableBody(cfg, fks, hasTrigger, idxs, table, t)) == w + ","
      && TableText(cfg, fks, hasTrigger, idxs, table, t) == w + "\n" + cfg.space[1] + "}"
  {
    CloseDropsComma(cfg, TableBody(cfg, fks, hasTrigger, idxs, table, t));
  }

  /** A field's own text ends with its closing brace, comma and newline, so the first cut in `addTable` drops that separator. */
  lemma FieldsSeparator(cfg: Config, fks: map<string, map<string, ForeignKey>>, table: string, t: Table, cols: seq<string>)
    requires TableReady(cfg, fks, table, t) && forall c :: c in cols ==> c in t.fields
    ensures var f := FieldsText(cfg, fks, table, t, cols);
      f == "" || EndsWith(f, cfg.space[2] + "},\n")
    decreases |cols|
  {
    if cols != [] {
      var head := FieldOut(cfg, cols[0], t.fields[cols[0]], FkLookup(fks, table, cols[0]));
      var rest := FieldsText(cfg, fks, table, t, cols[1..]);
      FieldsSeparator(cfg, fks, table, t, cols[1..]);
      EmptyExactlyWhenSkipped(cfg, cols[0], t.fields[cols[0]], FkLookup(fks, table, cols[0]));
      assert FieldsText(cfg, fks, table, t, cols) == head + rest;
      if rest != [] {
        EndsWithAppend(head, rest, cfg.space[2] + "},\n");
      } else {
        AppendEmpty(head);
      }
    }
  }
}

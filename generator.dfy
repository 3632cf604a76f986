/**
 * The `AutoGenerator` class of lib/auto-generator.js: the introspected
 * tables (whose field objects `addField` updates in place), the options,
 * and the methods that build the model texts step by step. Each method is
 * proved equal to the function that states what it writes.
 */
module Generator {
  import opened Text
  import opened Schema
  import opened Quoting
  import opened FieldTypes
  import opened TsTypes
  import opened Defaults
  import opened Fields
  import opened Tables
  import opened Sorting
  import opened Associations
  import opened TypeScript
  import opened Generation

  /** `this.options.lang = this.options.lang || 'es5'`. */
  function WithLang(o: Options): (r: Options)
    ensures r.lang != ""
    ensures o.lang != "" ==> r == o
    ensures o.lang == "" ==> r == o.(lang := "es5")
  {
    if o.lang == "" then o.(lang := "es5") else o
  }

  /** Attaching a column's foreign-key record keeps its TypeScript type computable. */
  lemma AttachKeepsTsReady(cfg: Config, t: Table, c: string, fk: Option<ForeignKey>)
    requires TsReady(cfg, t) && c in t.fields
    ensures TsReady(cfg, AttachField(t, c, fk))
  {
    var o := t.fields[c];
    var o' := Attach(o, fk);
    assert o'.Get("type") == o.Get("type") && o'.Get("elementType") == o.Get("elementType");
    assert EnumValuesDefined(o') == EnumValuesDefined(o);
  }

  /** Every listed table is present, once, and can be written. */
  ghost predicate TablesReady(cfg: Config, fks: map<string, map<string, ForeignKey>>, names: seq<string>, tables: map<string, Table>) {
    && (forall t :: t in tables <==> t in names)
    && (forall t :: t in tables ==> ModelReady(cfg, fks, t, tables[t]))
  }

  /** `addField` keeps every table writable, and a column it writes is then fully defined. */
  lemma AttachKeepsTablesReady(cfg: Config, fks: map<string, map<string, ForeignKey>>, names: seq<string>,
                               tables: map<string, Table>, table: string, field: string)
    requires TablesReady(cfg, fks, names, tables) && table in tables && field in tables[table].fields
    ensures TablesReady(cfg, fks, names, tables[table := AttachStep(cfg, fks, table, tables[table], field)])
    ensures !Skipped(cfg, field) ==> FieldDefined(cfg, Attach(tables[table].fields[field], FkLookup(fks, table, field)))
  {
    AttachKeepsModelReady(cfg, fks, table, tables[table], field);
    ReplaceReady(cfg, fks, names, tables, table, AttachStep(cfg, fks, table, tables[table], field));
  }

  /** `addField` keeps its table writable, and a column it writes is then fully defined. */
  lemma AttachKeepsModelReady(cfg: Config, fks: map<string, map<string, ForeignKey>>, table: string, t: Table, field: string)
    requires ModelReady(cfg, fks, table, t) && field in t.fields
    ensures ModelReady(cfg, fks, table, AttachStep(cfg, fks, table, t, field))
    ensures !Skipped(cfg, field) ==> FieldDefined(cfg, Attach(t.fields[field], FkLookup(fks, table, field)))
  {
    if !Skipped(cfg, field) {
      AttachKeepsReady(cfg, fks, table, t, field);
      if cfg.options.lang == "ts" {
        AttachKeepsTsReady(cfg, t, field, FkLookup(fks, table, field));
      }
    }
  }

  /** Replacing one table by a writable one keeps every table writable. */
  lemma ReplaceReady(cfg: Config, fks: map<string, map<string, ForeignKey>>, names: seq<string>,
                     tables: map<string, Table>, table: string, t: Table)
    requires TablesReady(cfg, fks, names, tables) && table in tables && ModelReady(cfg, fks, table, t)
    ensures TablesReady(cfg, fks, names, tables[table := t])
  {
    var after := tables[table := t];
    forall u | u in after ensures ModelReady(cfg, fks, u, after[u]) {
      if u != table {
        assert after[u] == tables[u];
      }
    }
  }

  /** The loop over the keys from position `i`: one step, then the rest. */
  lemma EntriesStep(cfg: Config, obj: Obj, fk: Option<ForeignKey>, attrs: seq<string>, i: nat, wrote: bool)
    requires cfg.Valid() && FieldDefined(cfg, obj) && (forall a :: a in attrs ==> a in obj.vals) && i < |attrs|
    ensures var step := AttrStep(cfg, obj, fk, attrs[i], wrote);
      Entries(cfg, obj, fk, attrs[i..], wrote) == step.0 + Entries(cfg, obj, fk, attrs[i + 1..], step.1)
  {
    assert attrs[i..][1..] == attrs[i + 1..];
  }

  /** `addField`'s text is its body, trimmed and closed. */
  lemma FieldTextFrom(cfg: Config, field: string, obj: Obj, fk: Option<ForeignKey>, body: string)
    requires cfg.Valid() && FieldDefined(cfg, obj)
    requires body == FieldBody(cfg, field, obj, fk)
    ensures FieldText(cfg, field, obj, fk) == cfg.space[2] + (DropTrailing(Trim(body), ',') + "\n") + cfg.space[2] + "},\n"
  {
    AppendAssoc(cfg.space[2], DropTrailing(Trim(body), ','), "\n");
  }

  /** The body `addField` writes: the name, the attributes, the unique marker and the alias. */
  lemma FieldBodyFrom(cfg: Config, field: string, obj: Obj, fk: Option<ForeignKey>, attrs: string, tail: string)
    requires cfg.Valid() && FieldDefined(cfg, obj)
    requires attrs == RenderAll(cfg.space[3], Entries(cfg, obj, fk, obj.keys, false))
    requires tail == UniqueText(cfg, obj) + AliasText(cfg, field)
    ensures FieldBody(cfg, field, obj, fk) == QuoteName(cfg.PropName(field)) + ": {\n" + attrs + tail
  {
  }

  lemma IndexFieldsSnoc(cfg: Config, ffs: seq<IndexField>, m: nat)
    requires cfg.Valid() && m < |ffs|
    ensures IndexFieldsText(cfg, ffs[..m + 1]) == IndexFieldsText(cfg, ffs[..m]) + IndexFieldText(cfg, ffs[m])
  {
    assert ffs[..m + 1] == ffs[..m] + [ffs[m]];
    IndexFieldsTextConcat(cfg, ffs[..m], [ffs[m]]);
    assert [ffs[m]][1..] == [];
    AppendEmpty(IndexFieldText(cfg, ffs[m]));
  }

  lemma IndexListSnoc(cfg: Config, idxs: seq<Index>, k: nat)
    requires cfg.Valid() && k < |idxs|
    ensures IndexListText(cfg, idxs[..k + 1]) == IndexListText(cfg, idxs[..k]) + IndexText(cfg, idxs[k])
  {
    assert idxs[..k + 1] == idxs[..k] + [idxs[k]];
    IndexListTextConcat(cfg, idxs[..k], [idxs[k]]);
    assert [idxs[k]][1..] == [];
    AppendEmpty(IndexText(cfg, idxs[k]));
  }

  lemma AdditionalSnoc(cfg: Config, table: string, keys: seq<string>, j: nat)
    requires cfg.Valid() && j < |keys|
    ensures AdditionalText(cfg, table, keys[..j + 1])
      == AdditionalText(cfg, table, keys[..j]) + AdditionalEntry(cfg, table, keys[j], cfg.options.additional.Get(keys[j]))
  {
    assert keys[..j + 1] == keys[..j] + [keys[j]];
    AdditionalTextConcat(cfg, table, keys[..j], [keys[j]]);
    assert [keys[j]][1..] == [];
    AppendEmpty(AdditionalEntry(cfg, table, keys[j], cfg.options.additional.Get(keys[j])));
  }

  /** Writing the same key of a map twice leaves only the second write. */
  lemma UpdateTwice<K, V>(m: map<K, V>, k: K, a: V, b: V)
    ensures m[k := a][k := b] == m[k := b]
  {
  }

  /** In `addTable`'s loop, column `i` has not been visited yet, and visiting it is one more attach step. */
  lemma ColumnAttach(cfg: Config, fks: map<string, map<string, ForeignKey>>, table: string, t0: Table, i: nat)
    requires t0.Valid() && i < |t0.columns|
    ensures t0.columns[i] in t0.fields
    ensures AttachedUpTo(cfg, fks, table, t0, i).fields[t0.columns[i]] == t0.fields[t0.columns[i]]
    ensures AttachedUpTo(cfg, fks, table, t0, i + 1)
      == AttachStep(cfg, fks, table, AttachedUpTo(cfg, fks, table, t0, i), t0.columns[i])
  {
    var cols := t0.columns;
    var c := cols[i];
    var seen := cols[..i];
    var next := cols[..i + 1];
    assert c !in seen by {
      forall j | 0 <= j < i ensures seen[j] != c { assert seen[j] == cols[j]; }
    }
    AttachColsOthers(cfg, fks, table, t0, seen, c);
    assert next[..|next| - 1] == seen && next[|next| - 1] == c;
  }

  /** Column `i`'s text extends the fields text written so far. */
  lemma ColumnText(cfg: Config, fks: map<string, map<string, ForeignKey>>, table: string, t0: Table, i: nat)
    requires TableReady(cfg, fks, table, t0) && i < |t0.columns|
    ensures FieldsTextUpTo(cfg, fks, table, t0, i + 1)
      == FieldsTextUpTo(cfg, fks, table, t0, i)
         + FieldOut(cfg, t0.columns[i], t0.fields[t0.columns[i]], FkLookup(fks, table, t0.columns[i]))
  {
    var cols := t0.columns;
    var c := cols[i];
    assert cols[..i + 1] == cols[..i] + [c];
    FieldsTextConcat(cfg, fks, table, t0, cols[..i], [c]);
    assert [c][1..] == [];
    AppendEmpty(FieldOut(cfg, c, t0.fields[c], FkLookup(fks, table, c)));
  }

  /** The `timestamps` and `paranoid` flags of `addTable` grow by the tests of column `i`. */
  lemma ColumnFlags(cfg: Config, cols: seq<string>, i: nat)
    requires i < |cols|
    ensures AnyTimestamp(cfg, cols[..i + 1]) == (AnyTimestamp(cfg, cols[..i]) || IsTimestampField(cfg, cols[i]))
    ensures AnyParanoid(cfg, cols[..i + 1]) == (AnyParanoid(cfg, cols[..i]) || IsParanoidField(cfg, cols[i]))
  {
    assert cols[..i + 1][..i] == cols[..i];
  }

  lemma RenderOne(sp3: string, e: Entry)
    ensures RenderAll(sp3, [e]) == RenderEntry(sp3, e)
  {
    assert [e][1..] == [];
  }

  lemma TsFieldsSnoc(cfg: Config, t: Table, cols: seq<string>, i: nat, isInterface: bool)
    requires cfg.Valid() && TsReady(cfg, t) && i < |cols| && forall c :: c in cols ==> c in t.fields
    ensures TsFieldsText(cfg, t, cols[..i + 1], isInterface)
      == TsFieldsText(cfg, t, cols[..i], isInterface)
         + (if !IsIgnoredField(cfg, cols[i]) then TsFieldLine(cfg, t, cols[i], isInterface) else "")
  {
    assert cols[..i + 1] == cols[..i] + [cols[i]];
    TsFieldsConcat(cfg, t, cols[..i], [cols[i]], isInterface);
    assert [cols[i]][1..] == [];
    AppendEmpty(if !IsIgnoredField(cfg, cols[i]) then TsFieldLine(cfg, t, cols[i], isInterface) else "");
  }

  /** The import lines of the first `k` tables, followed by the next one. */
  lemma ImportsSnoc(cfg: Config, needed: Needed, keys: seq<string>, k: nat)
    requires k < |keys| && forall x :: x in keys ==> x in needed.sets
    ensures ImportsText(cfg, needed, keys[..k + 1]) == ImportsText(cfg, needed, keys[..k]) + ImportLine(cfg, keys[k], needed.sets[keys[k]])
  {
    assert keys[..k + 1] == keys[..k] + [keys[k]];
    ImportsConcat(cfg, needed, keys[..k], [keys[k]]);
    assert [keys[k]][1..] == [];
    AppendEmpty(ImportLine(cfg, keys[k], needed.sets[keys[k]]));
  }

  /** The mixin loop of `addTypeScriptAssociationMixins` goes on from where it is with the rest of the relations. */
  lemma RelsStep(cfg: Config, table: string, rels: seq<Relation>, i: nat, str: string, needed: Needed)
    requires cfg.Valid() && needed.Valid() && i < |rels|
    ensures RelsFrom(cfg, table, rels[i..], str, needed)
      == RelsFrom(cfg, table, rels[i + 1..], str + RelText(cfg, table, rels[i]), RelNeeded(table, rels[i], needed))
  {
    assert rels[i..][1..] == rels[i + 1..];
  }

  /**
   * `generateText`'s loop after the tables `done`: each has its expected
   * text, and exactly those tables carry their attached foreign keys.
   */
  ghost predicate Progress(done: seq<string>, tables0: map<string, Table>, attached: map<string, Table>,
                           cur: map<string, Table>, expected: map<string, string>, text: map<string, string>)
  {
    && cur.Keys == tables0.Keys
    && (forall t :: t in text <==> t in done)
    && (forall t :: t in text ==> t in expected && text[t] == expected[t])
    && (forall t :: t in cur ==> t in attached && cur[t] == if t in done then attached[t] else tables0[t])
  }

  lemma ProgressStep(done: seq<string>, table: string, tables0: map<string, Table>, attached: map<string, Table>,
                     cur: map<string, Table>, expected: map<string, string>, text: map<string, string>, str: string)
    requires Progress(done, tables0, attached, cur, expected, text)
    requires table in cur && table in expected && table !in done && str == expected[table]
    ensures Progress(done + [table], tables0, attached, cur[table := attached[table]], expected, text[table := str])
  {
  }

  /** The next table of the loop has not been visited, and visiting it extends the visited prefix. */
  lemma NextUnseen(names: seq<string>, i: nat)
    requires Distinct(names) && i < |names|
    ensures names[i] !in names[..i] && names[..i + 1] == names[..i] + [names[i]]
  {
    var seen := names[..i];
    forall j | 0 <= j < i ensures seen[j] != names[i] { assert seen[j] == names[j]; }
  }

  /** After every table, each has its expected text and carries its attached foreign keys. */
  lemma ProgressDone(names: seq<string>, tables0: map<string, Table>, attached: map<string, Table>,
                     cur: map<string, Table>, expected: map<string, string>, text: map<string, string>)
    requires Progress(names[..|names|], tables0, attached, cur, expected, text)
    requires forall t :: t in tables0 <==> t in names
    ensures text.Keys == tables0.Keys && cur.Keys == tables0.Keys
    ensures forall t :: t in text ==> t in expected && text[t] == expected[t]
    ensures forall t :: t in cur ==> t in attached && cur[t] == attached[t]
  {
    assert names[..|names|] == names;
  }

  class AutoGenerator {
    /** The introspected columns of each table; `addField` attaches foreign-key records to them. */
    var tables: map<string, Table>
    /** `_.keys(this.tables)`: the tables in the order they were read. */
    const tableNames: seq<string>
    const foreignKeys: map<string, map<string, ForeignKey>>
    const hasTriggerTables: set<string>
    const indexes: map<string, seq<Index>>
    const relations: seq<Relation>
    const cfg: Config

    /** Every table is listed once and can be written. */
    ghost predicate Valid()
      reads this
    {
      && cfg.Valid()
      && Distinct(tableNames)
      && TablesReady(cfg, foreignKeys, tableNames, tables)
    }

    /** `this.indexes[table]`, empty when there is none. */
    function IndexesOf(table: string): seq<Index>
    {
      if table in indexes then indexes[table] else []
    }

    /** The language defaults to `es5`; the indentation strings are given. */
    constructor (tableNames: seq<string>, tables: map<string, Table>,
                 foreignKeys: map<string, map<string, ForeignKey>>, hasTriggerTables: set<string>,
                 indexes: map<string, seq<Index>>, relations: seq<Relation>,
                 dialect: Dialect, options: Options, naming: Naming, space: seq<string>)
      requires |space| >= 6 && Distinct(tableNames) && (forall t :: t in tables <==> t in tableNames)
      requires forall t :: t in tables ==> ModelReady(Config(dialect, WithLang(options), naming, space), foreignKeys, t, tables[t])
      ensures Valid()
      ensures this.cfg == Config(dialect, WithLang(options), naming, space)
      ensures this.tables == tables && this.tableNames == tableNames && this.foreignKeys == foreignKeys
      ensures this.hasTriggerTables == hasTriggerTables && this.indexes == indexes && this.relations == relations
    {
      this.tables := tables;
      this.tableNames := tableNames;
      this.foreignKeys := foreignKeys;
      this.hasTriggerTables := hasTriggerTables;
      this.indexes := indexes;
      this.relations := relations;
      this.cfg := Config(dialect, WithLang(options), naming, space);
    }

    /**
     * The attribute's own branch in one turn of `addField`'s loop, after
     * the serial-key marker; `wrote` is `wroteAutoIncrement` at that point.
     */
    method WriteAttributeBody(fieldObj: Obj, foreignKey: Option<ForeignKey>, attr: string, isSerialKey: bool, wrote: bool)
      returns (text: string, wroteAfter: bool)
      requires cfg.Valid() && FieldDefined(cfg, fieldObj) && attr in fieldObj.vals
      requires isSerialKey == IsSerial(cfg, fieldObj)
      ensures text == RenderAll(cfg.space[3], AttrBody(cfg, fieldObj, foreignKey, attr, wrote).0)
      ensures wroteAfter == AttrBody(cfg, fieldObj, foreignKey, attr, wrote).1
    {
      var space := cfg.space;
      ghost var body := AttrBody(cfg, fieldObj, foreignKey, attr, wrote);
      text := "";
      wroteAfter := wrote;
      if attr == "foreignKey" {
        if foreignKey.Some? && foreignKey.value.isForeignKey {
          text := References(cfg, foreignKey.value);
        } else {
          return;
        }
      } else if attr == "references" {
        return;
      } else if attr == "primaryKey" {
        if fieldObj.Get(attr) == Bool(true) && (!("foreignKey" in fieldObj.vals) || FkIsPrimary(fieldObj.Get("foreignKey"))) {
          text := space[3] + "primaryKey: true";
        } else {
          return;
        }
      } else if attr == "autoIncrement" {
        if fieldObj.Get(attr) == Bool(true) && !wroteAfter {
          text := space[3] + "autoIncrement: true,\n";
          if IsIdentity(cfg, fieldObj) {
            text := text + space[3] + "autoIncrementIdentity: true,\n";
          }
          wroteAfter := true;
          RenderOne(space[3], AutoIncrement(IsIdentity(cfg, fieldObj)));
        }
        return;
      } else {
        text, wroteAfter := WriteValueAttribute(fieldObj, attr, isSerialKey, wrote);
        return;
      }
      assert body.0 == [Line(attr, text)];
      RenderOne(space[3], Line(attr, text));
      text := text + ",\n";
    }

    /** The branches of `addField`'s loop that print the attribute's value under its own name. */
    method WriteValueAttribute(fieldObj: Obj, attr: string, isSerialKey: bool, wrote: bool)
      returns (text: string, wroteAfter: bool)
      requires cfg.Valid() && FieldDefined(cfg, fieldObj) && attr in fieldObj.vals
      requires isSerialKey == IsSerial(cfg, fieldObj)
      requires attr != "foreignKey" && attr != "references" && attr != "primaryKey" && attr != "autoIncrement"
      ensures text == RenderAll(cfg.space[3], AttrBody(cfg, fieldObj, None, attr, wrote).0)
      ensures wroteAfter == wrote
    {
      var space := cfg.space;
      ghost var body := AttrBody(cfg, fieldObj, None, attr, wrote);
      text := "";
      wroteAfter := wrote;
      if attr == "allowNull" {
        text := space[3] + attr + ": " + JsString(fieldObj.Get(attr));
      } else if attr == "defaultValue" {
        var valText := TranslateDefault(cfg.dialect.name, isSerialKey, fieldObj.Get("type"),
                                        fieldObj.Get("elementType"), fieldObj.Get("defaultValue"));
        if valText.None? {
          return;
        }
        text := space[3] + attr + ": " + valText.value;
      } else if attr == "comment" && (!Truthy(fieldObj.Get(attr)) || cfg.dialect.name == "mssql") {
        return;
      } else {
        text := space[3] + attr + ": " + GenericValue(fieldObj, attr);
      }
      assert body.0 == [Line(attr, text)];
      RenderOne(space[3], Line(attr, text));
      text := text + ",\n";
    }

    /**
     * One turn of `addField`'s loop over the column's keys: the text it
     * appends and the new `wroteAutoIncrement`.
     */
    method WriteAttribute(fieldObj: Obj, foreignKey: Option<ForeignKey>, attr: string, isSerialKey: bool, wrote: bool)
      returns (text: string, wroteAfter: bool)
      requires cfg.Valid() && FieldDefined(cfg, fieldObj) && attr in fieldObj.vals
      requires isSerialKey == IsSerial(cfg, fieldObj)
      ensures text == RenderAll(cfg.space[3], AttrStep(cfg, fieldObj, foreignKey, attr, wrote).0)
      ensures wroteAfter == AttrStep(cfg, fieldObj, foreignKey, attr, wrote).1
    {
      var space := cfg.space;
      text := "";
      wroteAfter := wrote;
      if attr == "special" || attr == "elementType" || attr == "unique" {
        return;
      }
      ghost var pre: seq<Entry> := [];
      if isSerialKey && !wroteAfter {
        text := space[3] + "autoIncrement: true,\n";
        if IsIdentity(cfg, fieldObj) {
          text := text + space[3] + "autoIncrementIdentity: true,\n";
        }
        wroteAfter := true;
        pre := [AutoIncrement(IsIdentity(cfg, fieldObj))];
        RenderOne(space[3], pre[0]);
      }
      assert wroteAfter == (wrote || isSerialKey);
      ghost var body := AttrBody(cfg, fieldObj, foreignKey, attr, wroteAfter);
      assert AttrStep(cfg, fieldObj, foreignKey, attr, wrote) == (pre + body.0, body.1);
      var more, w := WriteAttributeBody(fieldObj, foreignKey, attr, isSerialKey, wroteAfter);
      RenderAllConcat(space[3], pre, body.0);
      assert text == RenderAll(space[3], pre);
      text := text + more;
      wroteAfter := w;
    }

    /** `fieldAttrs.forEach(...)` in `addField`: the text of the loop over the column's keys. */
    method WriteAttributes(fieldObj: Obj, foreignKey: Option<ForeignKey>) returns (str: string)
      requires cfg.Valid() && FieldDefined(cfg, fieldObj)
      ensures str == RenderAll(cfg.space[3], Entries(cfg, fieldObj, foreignKey, fieldObj.keys, false))
    {
      var space := cfg.space;
      var isSerialKey := IsSerial(cfg, fieldObj);
      var wroteAutoIncrement := false;
      var fieldAttrs := fieldObj.keys;
      ghost var all := Entries(cfg, fieldObj, foreignKey, fieldAttrs, false);
      assert forall a :: a in fieldAttrs ==> a in fieldObj.vals;
      str := "";
      var i := 0;
      while i < |fieldAttrs|
        invariant 0 <= i <= |fieldAttrs|
        invariant str + RenderAll(space[3], Entries(cfg, fieldObj, foreignKey, fieldAttrs[i..], wroteAutoIncrement))
          == RenderAll(space[3], all)
      {
        var attr := fieldAttrs[i];
        ghost var step := AttrStep(cfg, fieldObj, foreignKey, attr, wroteAutoIncrement);
        var text, w := WriteAttribute(fieldObj, foreignKey, attr, isSerialKey, wroteAutoIncrement);
        EntriesStep(cfg, fieldObj, foreignKey, fieldAttrs, i, wroteAutoIncrement);
        RenderAllConcat(space[3], step.0, Entries(cfg, fieldObj, foreignKey, fieldAttrs[i + 1..], step.1));
        AppendAssoc(str, text, RenderAll(space[3], Entries(cfg, fieldObj, foreignKey, fieldAttrs[i + 1..], step.1)));
        str := str + text;
        wroteAutoIncrement := w;
        i := i + 1;
      }
    }

    /**
     * The text `addField` builds for a column that is written, from the
     * field object with its foreign-key record already attached: the name,
     * the attributes, the unique marker and the alias, then the trim of the
     * last comma.
     */
    method WriteField(field: string, fieldObj: Obj, foreignKey: Option<ForeignKey>) returns (str: string)
      requires cfg.Valid() && FieldDefined(cfg, fieldObj)
      ensures str == FieldText(cfg, field, fieldObj, foreignKey)
    {
      var space := cfg.space;
      var fieldName := cfg.PropName(field);
      str := QuoteName(fieldName) + ": {\n";
      var unique := UniqueValue(fieldObj);
      var attrs := WriteAttributes(fieldObj, foreignKey);
      str := str + attrs;
      ghost var named := str;
      if Truthy(unique) {
        var uniq := UniqueShown(unique);
        str := str + (space[3] + "unique: " + uniq + ",\n");
      }
      ghost var uniqued := str;
      assert uniqued == named + UniqueText(cfg, fieldObj);
      if field != fieldName {
        str := str + (space[3] + "field: '" + field + "',\n");
      }
      assert str == uniqued + AliasText(cfg, field);
      FieldBodyFrom(cfg, field, fieldObj, foreignKey, attrs, UniqueText(cfg, fieldObj) + AliasText(cfg, field));
      FieldTextFrom(cfg, field, fieldObj, foreignKey, str);
      str := DropTrailing(Trim(str), ',') + "\n";
      str := space[2] + str + space[2] + "},\n";
    }

    /**
     * `addField(table, field)`: the text of one column, empty for skipped
     * columns; a column that is written gets its foreign-key record attached
     * in `this.tables`.
     */
    method AddField(table: string, field: string) returns (str: string)
      requires Valid() && table in tables && field in tables[table].fields
      modifies this
      ensures Valid()
      ensures str == FieldOut(cfg, field, old(tables)[table].fields[field], FkLookup(foreignKeys, table, field))
      ensures tables == old(tables)[table := AttachStep(cfg, foreignKeys, table, old(tables)[table], field)]
    {
      AttachKeepsTablesReady(cfg, foreignKeys, tableNames, tables, table, field);
      var additional := cfg.options.additional;
      if additional.Get("timestamps") != Bool(false) && (IsTimestampField(cfg, field) || IsParanoidField(cfg, field)) {
        return "";
      }
      if IsIgnoredField(cfg, field) {
        return "";
      }
      var foreignKey := FkLookup(foreignKeys, table, field);
      ghost var t0 := tables[table];
      var fieldObj := tables[table].fields[field];
      if foreignKey.Some? {
        fieldObj := fieldObj.Set("foreignKey", Fk(foreignKey.value));
        tables := tables[table := tables[table].(fields := tables[table].fields[field := fieldObj])];
      } else {
        assert t0.fields[field := t0.fields[field]] == t0.fields;
      }
      assert tables == old(tables)[table := AttachStep(cfg, foreignKeys, table, t0, field)];
      str := WriteField(field, fieldObj, foreignKey);
    }

    /** The header lines of one index in `addIndexes`: name, unique flag and method, each only when set. */
    method WriteIndexHead(idx: Index) returns (str: string)
      requires cfg.Valid()
      ensures str == IndexHead(cfg, idx)
    {
      var space := cfg.space;
      str := space[3] + "{\n";
      if idx.name != "" {
        str := str + space[4] + "name: \"" + idx.name + "\",\n";
      }
      if idx.unique {
        str := str + space[4] + "unique: true,\n";
      }
      if idx.kind != "" {
        if IsIndexKind(idx.kind) {
          str := str + space[4] + "type: \"" + idx.kind + "\",\n";
        } else {
          str := str + space[4] + "using: \"" + idx.kind + "\",\n";
        }
      }
      str := str + space[4] + "fields: [\n";
    }

    /** One entry of an index's `fields` list: the attribute, then collation, length and a non-default order. */
    method WriteIndexField(ff: IndexField) returns (entry: string)
      requires cfg.Valid()
      ensures entry == IndexFieldText(cfg, ff)
    {
      var space := cfg.space;
      entry := space[5] + "{ name: \"" + ff.attribute + "\"";
      if ff.collate != "" {
        entry := entry + ", collate: \"" + ff.collate + "\"";
      }
      if ff.length != 0 {
        entry := entry + ", length: " + NatToString(ff.length);
      }
      if ff.order != "" && ff.order != "ASC" {
        entry := entry + ", order: \"" + ff.order + "\"";
      }
      entry := entry + " },\n";
    }

    /** One index of `addIndexes`: its header lines, then the loop over its fields. */
    method WriteIndex(idx: Index) returns (str: string)
      requires cfg.Valid()
      ensures str == IndexText(cfg, idx)
    {
      var space := cfg.space;
      str := WriteIndexHead(idx);
      ghost var head := str;
      var m := 0;
      while m < |idx.fields|
        invariant 0 <= m <= |idx.fields|
        invariant str == head + IndexFieldsText(cfg, idx.fields[..m])
      {
        var entry := WriteIndexField(idx.fields[m]);
        IndexFieldsSnoc(cfg, idx.fields, m);
        AppendAssoc(head, IndexFieldsText(cfg, idx.fields[..m]), entry);
        str := str + entry;
        m := m + 1;
      }
      assert idx.fields[..m] == idx.fields;
      str := str + space[4] + "]\n";
      str := str + space[3] + "},\n";
    }

    /** The loop of `addIndexes` over a table's indexes. */
    method WriteIndexList(idxs: seq<Index>) returns (str: string)
      requires cfg.Valid()
      ensures str == IndexListText(cfg, idxs)
    {
      str := "";
      var k := 0;
      while k < |idxs|
        invariant 0 <= k <= |idxs|
        invariant str == IndexListText(cfg, idxs[..k])
      {
        var one := WriteIndex(idxs[k]);
        IndexListSnoc(cfg, idxs, k);
        str := str + one;
        k := k + 1;
      }
      assert idxs[..k] == idxs;
    }

    /** `addIndexes(table)`: nothing for a table without indexes, otherwise the `indexes` list. */
    method AddIndexes(table: string) returns (str: string)
      requires cfg.Valid()
      ensures str == IndexesText(cfg, IndexesOf(table))
    {
      var idxs := IndexesOf(table);
      var space := cfg.space;
      str := "";
      if |idxs| > 0 {
        var list := WriteIndexList(idxs);
        str := space[2] + "indexes: [\n" + list + space[2] + "],\n";
      }
    }

    /** The fixed table options `addTable` writes after the fields. */
    method WriteOptions(table: string, timestamps: bool, paranoid: bool) returns (str: string)
      requires cfg.Valid()
      ensures str == OptionsText(cfg, table, table in hasTriggerTables, timestamps, paranoid)
    {
      var space := cfg.space;
      var (schemaName, tableNameOrig) := cfg.naming.qNameSplit(table);
      str := space[1] + "}, {\n";
      if !cfg.options.useDefine {
        str := str + space[2] + "sequelize,\n";
      }
      str := str + space[2] + "tableName: '" + tableNameOrig + "',\n";
      if schemaName != "" && cfg.dialect.hasSchema {
        str := str + space[2] + "schema: '" + schemaName + "',\n";
      }
      str := str + space[2] + "modelName: '#TABLE#',\n";
      if table in hasTriggerTables {
        str := str + space[2] + "hasTrigger: true,\n";
      }
      str := str + space[2] + "timestamps: " + (if timestamps then "true" else "false") + ",\n";
      if paranoid {
        str := str + space[2] + "paranoid: true,\n";
      }
    }

    /** The loop over `options.additional` in `addTable`. */
    method WriteAdditional(table: string) returns (str: string)
      requires cfg.Valid()
      ensures str == AdditionalText(cfg, table, cfg.options.additional.keys)
    {
      var space := cfg.space;
      var additional := cfg.options.additional;
      var keys := additional.keys;
      str := "";
      var j := 0;
      while j < |keys|
        invariant 0 <= j <= |keys|
        invariant str == AdditionalText(cfg, table, keys[..j])
      {
        var key := keys[j];
        var value := additional.Get(key);
        var entry := "";
        if key == "name" {
          entry := space[2] + "name: {\n";
          entry := entry + space[3] + "singular: '" + table + "',\n";
          entry := entry + space[3] + "plural: '" + table + "'\n";
          entry := entry + space[2] + "},\n";
        } else if key == "timestamps" || key == "paranoid" {
        } else {
          var shown := if value.Bool? then JsString(value) else "'" + JsString(value) + "'";
          entry := space[2] + key + ": " + shown + ",\n";
        }
        AdditionalSnoc(cfg, table, keys, j);
        str := str + entry;
        j := j + 1;
      }
      assert keys[..j] == keys;
    }

    /**
     * The `forEach` callback of `addTable` for column `i`, without its two
     * flag updates: `addField` on the column, whose text extends the fields
     * text and whose attach step extends the attached table.
     */
    method AddColumn(table: string, ghost t0: Table, i: nat, field: string) returns (s: string)
      requires Valid() && table in tables && TableReady(cfg, foreignKeys, table, t0)
      requires i < |t0.columns| && field == t0.columns[i]
      requires tables[table] == AttachedUpTo(cfg, foreignKeys, table, t0, i)
      modifies this
      ensures Valid()
      ensures tables == old(tables)[table := AttachedUpTo(cfg, foreignKeys, table, t0, i + 1)]
      ensures FieldsTextUpTo(cfg, foreignKeys, table, t0, i + 1) == FieldsTextUpTo(cfg, foreignKeys, table, t0, i) + s
    {
      ColumnAttach(cfg, foreignKeys, table, t0, i);
      ColumnText(cfg, foreignKeys, table, t0, i);
      s := AddField(table, field);
    }

    /** The loop of `addTable` over the columns: each field's text, and the `timestamps` and `paranoid` flags it raises. */
    method AddFields(table: string) returns (str: string, timestamps: bool, paranoid: bool)
      requires Valid() && table in tables
      modifies this
      ensures Valid()
      ensures str == FieldsText(cfg, foreignKeys, table, old(tables)[table], old(tables)[table].columns)
      ensures timestamps == (cfg.options.additional.Get("timestamps") == Bool(true) || AnyTimestamp(cfg, old(tables)[table].columns))
      ensures paranoid == (cfg.options.additional.Get("paranoid") == Bool(true) || AnyParanoid(cfg, old(tables)[table].columns))
      ensures tables == old(tables)[table := AttachAll(cfg, foreignKeys, table, old(tables)[table])]
    {
      var timestampsOption := cfg.options.additional.Get("timestamps") == Bool(true);
      var paranoidOption := cfg.options.additional.Get("paranoid") == Bool(true);
      timestamps := timestampsOption;
      paranoid := paranoidOption;
      str := "";
      ghost var tables0 := tables;
      ghost var t0 := tables[table];
      assert TableReady(cfg, foreignKeys, table, t0);
      var fields := tables[table].columns;
      var i := 0;
      while i < |fields|
        invariant 0 <= i <= |fields|
        invariant Valid()
        invariant tables == tables0[table := AttachedUpTo(cfg, foreignKeys, table, t0, i)]
        invariant str == FieldsTextUpTo(cfg, foreignKeys, table, t0, i)
        invariant timestamps == (timestampsOption || AnyTimestamp(cfg, fields[..i]))
        invariant paranoid == (paranoidOption || AnyParanoid(cfg, fields[..i]))
      {
        var field := fields[i];
        timestamps := timestamps || IsTimestampField(cfg, field);
        paranoid := paranoid || IsParanoidField(cfg, field);
        ColumnFlags(cfg, fields, i);
        var s := AddColumn(table, t0, i, field);
        UpdateTwice(tables0, table, AttachedUpTo(cfg, foreignKeys, table, t0, i), AttachedUpTo(cfg, foreignKeys, table, t0, i + 1));
        str := str + s;
        i := i + 1;
      }
      assert fields[..i] == fields;
    }

    /** What `addTable` writes after the fields: options, additional options when there are any, and indexes unless they are switched off. */
    method WriteTail(table: string, timestamps: bool, paranoid: bool) returns (str: string)
      requires cfg.Valid()
      ensures str == TableTail(cfg, table, table in hasTriggerTables, timestamps, paranoid, IndexesOf(table))
    {
      var options := WriteOptions(table, timestamps, paranoid);
      var more := "";
      if |cfg.options.additional.keys| > 0 {
        more := WriteAdditional(table);
      } else {
        assert AdditionalText(cfg, table, cfg.options.additional.keys) == "";
      }
      var idxText := "";
      if !cfg.options.noIndexes {
        idxText := AddIndexes(table);
      }
      str := options + more + idxText;
    }

    /** `addTable(table)`: the fields, the tail, then the closing cut that drops the last comma. */
    method AddTable(table: string) returns (str: string)
      requires Valid() && table in tables
      modifies this
      ensures Valid()
      ensures str == TableText(cfg, foreignKeys, table in hasTriggerTables, IndexesOf(table), table, old(tables)[table])
      ensures tables == old(tables)[table := AttachAll(cfg, foreignKeys, table, old(tables)[table])]
    {
      assert TableReady(cfg, foreignKeys, table, tables[table]);
      var fieldsText, timestamps, paranoid := AddFields(table);
      str := CloseFields(table, fieldsText, timestamps, paranoid);
    }

    /** The rest of `addTable` once the fields are written: the separator cut, the tail, the trim and the closing brace. */
    method CloseFields(table: string, fieldsText: string, timestamps: bool, paranoid: bool) returns (str: string)
      requires cfg.Valid()
      ensures str == CloseTable(cfg, Substring(fieldsText, 0, |fieldsText| - 2) + "\n"
        + TableTail(cfg, table, table in hasTriggerTables, timestamps, paranoid, IndexesOf(table)))
    {
      var tail := WriteTail(table, timestamps, paranoid);
      str := Substring(fieldsText, 0, |fieldsText| - 2) + "\n" + tail;
      str := CloseTable(cfg, str);
    }

    /** One turn of the loop of `addTypeScriptAssociationMixins`: the accessors of `rel` and the types they need. */
    method WriteRelation(table: string, rel: Relation, needed0: Needed) returns (block: string, needed: Needed)
      requires cfg.Valid() && needed0.Valid()
      ensures block == RelText(cfg, table, rel) && needed == RelNeeded(table, rel, needed0)
    {
      var sp := cfg.space[1];
      needed := needed0;
      block := "";
      if !rel.isM2M {
        if rel.childTable == table {
          assert RoleOf(rel, table) == BelongsTo;
          block := BelongsToText(sp, rel);
          needed := needed.Ensure(rel.parentTable);
          needed := needed.Add(rel.parentTable, rel.parentModel);
          needed := needed.Add(rel.parentTable, rel.parentModel + "Id");
          assert needed == RelNeeded(table, rel, needed0);
        } else if rel.parentTable == table {
          needed := needed.Ensure(rel.childTable);
          if rel.isOne {
            assert RoleOf(rel, table) == HasOne;
            block := HasOneText(sp, rel);
            needed := needed.Add(rel.childTable, rel.childModel);
            needed := needed.Add(rel.childTable, rel.childModel + "Id");
            needed := needed.Add(rel.childTable, rel.childModel + "CreationAttributes");
            assert needed == RelNeeded(table, rel, needed0);
          } else {
            assert RoleOf(rel, table) == HasMany;
            block := HasManyText(cfg, sp, rel);
            needed := needed.Add(rel.childTable, rel.childModel);
            needed := needed.Add(rel.childTable, rel.childModel + "Id");
            assert needed == RelNeeded(table, rel, needed0);
          }
        } else {
          assert RoleOf(rel, table) == Unrelated;
        }
      } else if rel.parentTable == table {
        assert RoleOf(rel, table) == BelongsToMany;
        block := BelongsToManyText(cfg, sp, rel);
        needed := needed.Ensure(rel.childTable);
        needed := needed.Add(rel.childTable, rel.childModel);
        needed := needed.Add(rel.childTable, rel.childModel + "Id");
        assert needed == RelNeeded(table, rel, needed0);
      } else {
        assert RoleOf(rel, table) == Unrelated;
      }
    }

    /**
     * `addTypeScriptAssociationMixins(table)`: the accessor block each
     * relation gives the table's class, and the other tables to import
     * types from, without the table itself.
     */
    method AddTypeScriptAssociationMixins(table0: string) returns (needed: Needed, str: string)
      requires cfg.Valid()
      ensures (needed, str) == AssociationMixins(cfg, relations, table0)
    {
      needed := Needed([], map[]);
      str := "";
      var table := AddSchemaForRelations(cfg, relations, table0);
      var i := 0;
      while i < |relations|
        invariant 0 <= i <= |relations|
        invariant needed.Valid()
        invariant RelsFrom(cfg, table, relations[i..], str, needed) == RelsFrom(cfg, table, relations, "", Needed([], map[]))
      {
        RelsStep(cfg, table, relations, i, str, needed);
        var block, next := WriteRelation(table, relations[i], needed);
        str := str + block;
        needed := next;
        i := i + 1;
      }
      assert relations[i..] == [];
      if table in needed.sets {
        needed := needed.Delete(table);
      }
    }

    /** `addTypeScriptFields(table, isInterface)`: one attribute line per column that is not skipped, in column order. */
    method AddTypeScriptFields(table: string, isInterface: bool) returns (str: string)
      requires cfg.Valid() && table in tables && TsReady(cfg, tables[table])
      ensures str == TsFieldsText(cfg, tables[table], tables[table].columns, isInterface)
    {
      var t := tables[table];
      var sp := cfg.space[1];
      var fields := t.columns;
      var notNull := if isInterface then "" else "!";
      str := "";
      var i := 0;
      while i < |fields|
        invariant 0 <= i <= |fields|
        invariant str == TsFieldsText(cfg, t, fields[..i], isInterface)
      {
        var field := fields[i];
        TsFieldsSnoc(cfg, t, fields, i, isInterface);
        if !IsIgnoredField(cfg, field) {
          var f := t.fields[field];
          var name := QuoteName(cfg.PropName(field));
          var mark := if Truthy(f.Get("allowNull")) then "?" else notNull;
          var line := sp + name + mark + ": " + TsType(f.Get("type"), f) + ";\n";
          str := str + line;
        }
        i := i + 1;
      }
      assert fields[..i] == fields;
    }

    /** The import line for the table `fkTable`, naming the types `names` it provides. */
    method WriteImportLine(fkTable: string, names: seq<string>) returns (line: string)
      ensures line == ImportLine(cfg, fkTable, names)
    {
      var fkTableName := cfg.naming.qNameSplit(fkTable).1;
      var filename := cfg.naming.recase(cfg.options.caseFile, fkTableName, cfg.options.singularize);
      line := "import type { " + Join(Sort(names), ", ") + " } from './" + filename + "';\n";
    }

    /** The import lines `generateText` writes for the tables a `ts` model takes types from, in sorted order. */
    method WriteImports(needed: Needed) returns (str: string)
      requires needed.Valid()
      ensures str == ImportsText(cfg, needed, SortedTables(needed))
    {
      var keys := SortedTables(needed);
      str := "";
      var k := 0;
      while k < |keys|
        invariant 0 <= k <= |keys|
        invariant forall x :: x in keys ==> x in needed.sets
        invariant str == ImportsText(cfg, needed, keys[..k])
      {
        var line := WriteImportLine(keys[k], needed.sets[keys[k]]);
        ImportsSnoc(cfg, needed, keys, k);
        str := str + line;
        k := k + 1;
      }
      assert keys[..k] == keys;
    }

    /** What `generateText` writes between the header and `addTable` for the `ts` language. */
    method WriteTsPreamble(table: string) returns (str: string)
      requires cfg.Valid() && table in tables && TsReady(cfg, tables[table])
      ensures str == TsPreamble(cfg, relations, table, tables[table])
    {
      var t := tables[table];
      var space := cfg.space;
      var needed, mixins := AddTypeScriptAssociationMixins(table);
      str := WriteImports(needed);
      var attrs := AddTypeScriptFields(table, true);
      var pkPart := PkTypes(cfg, PrimaryKeys(t));
      var optPart := CreationTypes(cfg, CreationOptionalFields(cfg, t));
      var members := AddTypeScriptFields(table, false);
      var initPart := InitLine(cfg);
      str := TsPreambleLayout(str, attrs, pkPart, optPart, members, mixins, space[1], initPart);
    }

    /** What `generateText` writes before `addTable`: the header, then the `ts` preamble. */
    method WriteHead(table: string) returns (str: string)
      requires cfg.Valid() && table in tables && (cfg.options.lang == "ts" ==> TsReady(cfg, tables[table]))
      ensures str == ModelHead(cfg, relations, table, tables[table])
    {
      str := HeaderTemplate(cfg);
      if cfg.options.lang == "ts" {
        var preamble := WriteTsPreamble(table);
        str := str + preamble;
      }
    }

    /** The body of `generateText`'s loop for one table: header, `ts` preamble, `addTable`, footer, then the model name for `#TABLE#`. */
    method GenerateModel(table: string) returns (str: string)
      requires Valid() && table in tables
      modifies this
      ensures Valid()
      ensures ModelReady(cfg, foreignKeys, table, old(tables)[table])
      ensures str == ModelText(cfg, relations, foreignKeys, table in hasTriggerTables, IndexesOf(table), table, old(tables)[table])
      ensures tables == old(tables)[table := AttachAll(cfg, foreignKeys, table, old(tables)[table])]
    {
      ghost var t0 := tables[table];
      assert ModelReady(cfg, foreignKeys, table, t0);
      var tableName := ModelName(cfg, table);
      var head := WriteHead(table);
      var tableText := AddTable(table);
      str := head + tableText + Footer(cfg);
      ModelTextFrom(cfg, relations, foreignKeys, table in hasTriggerTables, IndexesOf(table), table, t0, head, tableText, str);
      str := ReplaceAll(str, Placeholder, tableName);
    }

    /**
     * `generateText()`: the model text of every table, keyed by table name.
     * Each text is built from the table as it was before `addTable`
     * attached its foreign keys, and afterwards every table carries them.
     */
    method GenerateText() returns (text: map<string, string>)
      requires Valid()
      modifies this
      ensures Valid()
      ensures text.Keys == old(tables).Keys
      ensures forall t :: t in text ==>
        ModelReady(cfg, foreignKeys, t, old(tables)[t])
        && text[t] == ModelText(cfg, relations, foreignKeys, t in hasTriggerTables, IndexesOf(t), t, old(tables)[t])
      ensures tables.Keys == old(tables).Keys
      ensures forall t :: t in tables ==> tables[t] == AttachAll(cfg, foreignKeys, t, old(tables)[t])
    {
      ghost var tables0 := tables;
      ghost var expected := map t | t in tables0 ::
        ModelText(cfg, relations, foreignKeys, t in hasTriggerTables, IndexesOf(t), t, tables0[t]);
      ghost var attached := map t | t in tables0 :: AttachAll(cfg, foreignKeys, t, tables0[t]);
      text := map[];
      var i := 0;
      while i < |tableNames|
        invariant 0 <= i <= |tableNames|
        invariant Valid()
        invariant TablesReady(cfg, foreignKeys, tableNames, tables0)
        invariant Progress(tableNames[..i], tables0, attached, tables, expected, text)
      {
        var table := tableNames[i];
        ghost var seen := tableNames[..i];
        NextUnseen(tableNames, i);
        ghost var before := tables;
        assert before[table] == tables0[table];
        var str := GenerateModel(table);
        ProgressStep(seen, table, tables0, attached, before, expected, text, str);
        text := text[table := str];
        i := i + 1;
      }
      ProgressDone(tableNames, tables0, attached, tables, expected, text);
    }
  }
}

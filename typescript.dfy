/**
 * The TypeScript parts of a model file: the attribute lines of
 * `addTypeScriptFields` (lib/auto-generator.js:665-678), the order-keeping
 * filters `getTypeScriptPrimaryKeys` and
 * `getTypeScriptCreationOptionalFields` (lib/auto-generator.js:545-559),
 * and the import lines and class preamble `generateText` writes for the
 * `ts` language (lib/auto-generator.js:67-103).
 */
module TypeScript {
  import opened Text
  import opened Schema
  import opened Quoting
  import opened Fields
  import opened TsTypes
  import opened Associations
  import opened Sorting

  /** `Array.prototype.filter`: the members that pass, in their order. */
  function Filter(xs: seq<string>, keep: string -> bool): (r: seq<string>)
    ensures forall x :: x in r <==> x in xs && keep(x)
    ensures |r| <= |xs|
  {
    if xs == [] then []
    else (if keep(xs[0]) then [xs[0]] else []) + Filter(xs[1..], keep)
  }

  /** Filtering distributes over concatenation, so it keeps the order of what it keeps. */
  lemma {:induction false} FilterConcat(a: seq<string>, b: seq<string>, keep: string -> bool)
    ensures Filter(a + b, keep) == Filter(a, keep) + Filter(b, keep)
  {
    if a == [] {
      assert a + b == b;
    } else {
      assert (a + b)[1..] == a[1..] + b;
      FilterConcat(a[1..], b, keep);
    }
  }

  /** A filter of a list without repeats has no repeats. */
  lemma {:induction false} FilterDistinct(xs: seq<string>, keep: string -> bool)
    requires Distinct(xs)
    ensures Distinct(Filter(xs, keep))
  {
    if xs != [] {
      assert Distinct(xs[1..]) by {
        forall i, j | 0 <= i < j < |xs[1..]| ensures xs[1..][i] != xs[1..][j] {
          assert xs[1..][i] == xs[i + 1] && xs[1..][j] == xs[j + 1];
        }
      }
      FilterDistinct(xs[1..], keep);
      var rest := Filter(xs[1..], keep);
      assert xs[0] !in xs[1..] by {
        forall j | 0 <= j < |xs[1..]| ensures xs[1..][j] != xs[0] { assert xs[1..][j] == xs[j + 1]; }
      }
      if keep(xs[0]) {
        var r := [xs[0]] + rest;
        forall i, j | 0 <= i < j < |r| ensures r[i] != r[j] {
          if i == 0 { assert r[j] == rest[j - 1]; assert rest[j - 1] in rest; }
          else { assert r[i] == rest[i - 1] && r[j] == rest[j - 1]; }
        }
      } else {
        assert Filter(xs, keep) == rest;
      }
    }
  }

  /** `fieldObj['primaryKey']` is truthy. */
  predicate IsPrimaryKey(t: Table, c: string) {
    c in t.fields && Truthy(t.fields[c].Get("primaryKey"))
  }

  /** `getTypeScriptPrimaryKeys`. */
  function PrimaryKeys(t: Table): seq<string> {
    Filter(t.columns, c => IsPrimaryKey(t, c))
  }

  /**
   * A column that may be left out on creation: nullable, with a default
   * (any truthy one, or the empty string), auto-incremented, or a
   * timestamp column.
   */
  predicate IsCreationOptional(cfg: Config, t: Table, c: string) {
    && c in t.fields
    && var f := t.fields[c];
       || Truthy(f.Get("allowNull"))
       || Truthy(f.Get("defaultValue")) || f.Get("defaultValue") == Str("")
       || Truthy(f.Get("autoIncrement"))
       || IsTimestampField(cfg, c)
  }

  /** `getTypeScriptCreationOptionalFields`. */
  function CreationOptionalFields(cfg: Config, t: Table): seq<string> {
    Filter(t.columns, c => IsCreationOptional(cfg, t, c))
  }

  /** Exactly the primary-key columns, each once, in column order. */
  lemma PrimaryKeysSpec(t: Table)
    requires t.Valid()
    ensures forall c :: c in PrimaryKeys(t) <==> c in t.columns && Truthy(t.fields[c].Get("primaryKey"))
    ensures Distinct(PrimaryKeys(t))
  {
    FilterDistinct(t.columns, c => IsPrimaryKey(t, c));
  }

  /**
   * A default of `0` or `false` does not make a column optional: only a
   * truthy default or the empty string does.
   */
  lemma FalsyDefaultNotOptional(cfg: Config, t: Table, c: string)
    requires t.Valid() && c in t.fields
    requires var f := t.fields[c];
      && !Truthy(f.Get("allowNull")) && !Truthy(f.Get("autoIncrement")) && !IsTimestampField(cfg, c)
      && (f.Get("defaultValue") == Num(0) || f.Get("defaultValue") == Bool(false))
    ensures c !in CreationOptionalFields(cfg, t)
  {
  }

  /** The type-checkable columns: a TypeScript type can be found for every column that is not skipped. */
  ghost predicate TsReady(cfg: Config, t: Table) {
    && t.Valid()
    && forall c :: c in t.fields && !IsIgnoredField(cfg, c) ==> TsTypeDefined(t.fields[c].Get("type"), t.fields[c])
  }

  /** One attribute line: optional when `allowNull` is truthy, otherwise definite in the class and plain in the interface. */
  function TsFieldLine(cfg: Config, t: Table, c: string, isInterface: bool): string
    requires cfg.Valid() && TsReady(cfg, t) && c in t.fields && !IsIgnoredField(cfg, c)
  {
    var f := t.fields[c];
    var mark := if Truthy(f.Get("allowNull")) then "?" else if isInterface then "" else "!";
    cfg.space[1] + QuoteName(cfg.PropName(c)) + mark + ": " + TsType(f.Get("type"), f) + ";\n"
  }

  /** `addTypeScriptFields` over the columns `cols`. */
  function TsFieldsText(cfg: Config, t: Table, cols: seq<string>, isInterface: bool): string
    requires cfg.Valid() && TsReady(cfg, t) && forall c :: c in cols ==> c in t.fields
  {
    if cols == [] then ""
    else (if !IsIgnoredField(cfg, cols[0]) then TsFieldLine(cfg, t, cols[0], isInterface) else "")
         + TsFieldsText(cfg, t, cols[1..], isInterface)
  }

  lemma {:induction false} TsFieldsConcat(cfg: Config, t: Table, a: seq<string>, b: seq<string>, isInterface: bool)
    requires cfg.Valid() && TsReady(cfg, t) && (forall c :: c in a ==> c in t.fields) && (forall c :: c in b ==> c in t.fields)
    ensures TsFieldsText(cfg, t, a + b, isInterface) == TsFieldsText(cfg, t, a, isInterface) + TsFieldsText(cfg, t, b, isInterface)
  {
    if a == [] {
      assert a + b == b;
      AppendEmpty(TsFieldsText(cfg, t, b, isInterface));
    } else {
      assert (a + b)[0] == a[0] && (a + b)[1..] == a[1..] + b;
      TsFieldsConcat(cfg, t, a[1..], b, isInterface);
      AppendAssoc(if !IsIgnoredField(cfg, a[0]) then TsFieldLine(cfg, t, a[0], isInterface) else "",
        TsFieldsText(cfg, t, a[1..], isInterface), TsFieldsText(cfg, t, b, isInterface));
    }
  }

  /** Ignored columns have no attribute line at all. */
  lemma {:induction false} IgnoredHaveNoLine(cfg: Config, t: Table, cols: seq<string>, isInterface: bool)
    requires cfg.Valid() && TsReady(cfg, t) && forall c :: c in cols ==> c in t.fields
    requires forall c :: c in cols ==> IsIgnoredField(cfg, c)
    ensures TsFieldsText(cfg, t, cols, isInterface) == ""
  {
    if cols != [] {
      IgnoredHaveNoLine(cfg, t, cols[1..], isInterface);
    }
  }

  /** Double-quoted property names joined by ` | `, as in the `Pk` and `OptionalAttributes` types. */
  function NameUnion(cfg: Config, cols: seq<string>): string {
    Join(Map(cols, c => "\"" + cfg.PropName(c) + "\""), " | ")
  }

  /** The import line for the types taken from one other table. */
  function ImportLine(cfg: Config, fkTable: string, names: seq<string>): string {
    var fkTableName := cfg.naming.qNameSplit(fkTable).1;
    var filename := cfg.naming.recase(cfg.options.caseFile, fkTableName, cfg.options.singularize);
    "import type { " + Join(Sort(names), ", ") + " } from './" + filename + "';\n"
  }

  /** The import lines for the tables `keys`, in that order. */
  function ImportsText(cfg: Config, needed: Needed, keys: seq<string>): string
    requires forall k :: k in keys ==> k in needed.sets
  {
    if keys == [] then ""
    else ImportLine(cfg, keys[0], needed.sets[keys[0]]) + ImportsText(cfg, needed, keys[1..])
  }

  lemma {:induction false} ImportsConcat(cfg: Config, needed: Needed, a: seq<string>, b: seq<string>)
    requires (forall k :: k in a ==> k in needed.sets) && (forall k :: k in b ==> k in needed.sets)
    ensures ImportsText(cfg, needed, a + b) == ImportsText(cfg, needed, a) + ImportsText(cfg, needed, b)
  {
    if a != [] {
      var ab := a + b;
      assert ab[0] == a[0] && ab[1..] == a[1..] + b;
      ImportsConcat(cfg, needed, a[1..], b);
      AppendAssoc(ImportLine(cfg, a[0], needed.sets[a[0]]), ImportsText(cfg, needed, a[1..]), ImportsText(cfg, needed, b));
      assert ImportsText(cfg, needed, ab) == ImportLine(cfg, a[0], needed.sets[a[0]]) + ImportsText(cfg, needed, a[1..] + b);
    } else {
      assert a + b == b;
      AppendEmpty(ImportsText(cfg, needed, b));
    }
  }

  /** The sorted tables to import from, each of which the map lists. */
  function SortedTables(needed: Needed): (r: seq<string>)
    requires needed.Valid()
    ensures forall k :: k in r <==> k in needed.sets
  {
    var r := Sort(needed.keys);
    assert forall k :: k in r <==> k in multiset(needed.keys);
    r
  }

  /** The `Pk` and `Id` types, only for a table with a primary key. */
  function PkTypes(cfg: Config, pks: seq<string>): string {
    if |pks| > 0 then "export type #TABLE#Pk = " + NameUnion(cfg, pks) + ";\n" + "export type #TABLE#Id = #TABLE#[#TABLE#Pk];\n"
    else ""
  }

  /** The creation-attributes type: `Optional<…>` over the optional columns when there are any. */
  function CreationTypes(cfg: Config, opt: seq<string>): string {
    if |opt| > 0 then
      "export type #TABLE#OptionalAttributes = " + NameUnion(cfg, opt) + ";\n"
      + "export type #TABLE#CreationAttributes = Optional<#TABLE#Attributes, #TABLE#OptionalAttributes>;\n\n"
    else "export type #TABLE#CreationAttributes = #TABLE#Attributes;\n\n"
  }

  /** The first line of `initModel`'s body, by `options.useDefine`. */
  function InitLine(cfg: Config): string
    requires cfg.Valid()
  {
    if cfg.options.useDefine then cfg.space[2] + "return sequelize.define('#TABLE#', {\n"
    else cfg.space[2] + "return #TABLE#.init({\n"
  }

  /**
   * The layout of the `ts` preamble: the imports, the attributes interface,
   * the key and creation types, the class with its members and association
   * mixins, and the opening of `initModel`.
   */
  function TsPreambleLayout(imports: string, attrs: string, pkPart: string, optPart: string, members: string,
                            mixins: string, sp: string, init: string): string
  {
    imports
    + "\nexport interface #TABLE#Attributes {\n" + attrs + "}\n\n"
    + pkPart + optPart
    + "export class #TABLE# extends Model<#TABLE#Attributes, #TABLE#CreationAttributes> implements #TABLE#Attributes {\n"
    + members
    + "\n" + mixins
    + "\n" + sp + "static initModel(sequelize: Sequelize.Sequelize): typeof #TABLE# {\n"
    + init
  }

  /** The part of a `ts` model between the header and the `addTable` text. */
  function TsPreamble(cfg: Config, rels: seq<Relation>, table: string, t: Table): string
    requires cfg.Valid() && TsReady(cfg, t)
  {
    var mixins := AssociationMixins(cfg, rels, table);
    TsPreambleLayout(ImportsText(cfg, mixins.0, SortedTables(mixins.0)), TsFieldsText(cfg, t, t.columns, true),
                     PkTypes(cfg, PrimaryKeys(t)), CreationTypes(cfg, CreationOptionalFields(cfg, t)),
                     TsFieldsText(cfg, t, t.columns, false), mixins.1, cfg.space[1], InitLine(cfg))
  }
}

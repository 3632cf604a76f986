/**
 * The text of one model file: `makeHeaderTemplate`
 * (lib/auto-generator.js:22-61), the per-table body of `generateText`
 * (lib/auto-generator.js:62-132) and its closing lines, and the final
 * replacement of the `#TABLE#` placeholder by the model name, through
 * `String.prototype.replace` and its `$` patterns.
 */
module Generation {
  import opened Text
  import opened Schema
  import opened Tables
  import opened TypeScript

  const Placeholder := "#TABLE#"

  /** The three class-based languages; anything else is the es5 `define` form. */
  predicate IsClassLang(lang: string) {
    lang == "es6" || lang == "esm" || lang == "ts"
  }

  /** `makeHeaderTemplate`, chosen by `options.lang` and `options.useDefine`. */
  function HeaderTemplate(cfg: Config): string
    requires cfg.Valid()
  {
    var sp := cfg.space[1];
    var init := if cfg.options.useDefine then sp + "return sequelize.define('#TABLE#', {\n" else sp + "return super.init({\n";
    if cfg.options.lang == "ts" then
      "import * as Sequelize from 'sequelize';\n"
      + "import { DataTypes, Model, Optional } from 'sequelize';\n"
    else if cfg.options.lang == "es6" then
      "const Sequelize = require('sequelize');\n"
      + "module.exports = (sequelize, DataTypes) => {\n"
      + sp + "return #TABLE#.init(sequelize, DataTypes);\n"
      + "}\n\n"
      + "class #TABLE# extends Sequelize.Model {\n"
      + sp + "static init(sequelize, DataTypes) {\n"
      + init
    else if cfg.options.lang == "esm" then
      "import _sequelize from 'sequelize';\n"
      + "const { Model, Sequelize } = _sequelize;\n\n"
      + "export default class #TABLE# extends Model {\n"
      + sp + "static init(sequelize, DataTypes) {\n"
      + init
    else
      Es5Head() + sp + "return sequelize.define('" + Placeholder + "', {\n"
  }

  /** The first two lines of an es5 model. */
  function Es5Head(): string {
    "const Sequelize = require('sequelize');\n" + "module.exports = " + "function(sequelize, DataTypes) {\n"
  }

  /** The lines after the `addTable` text. */
  function Footer(cfg: Config): string
    requires cfg.Valid()
  {
    (if cfg.options.lang == "ts" && cfg.options.useDefine then ") as typeof #TABLE#;\n" else ");\n")
    + (if IsClassLang(cfg.options.lang) then cfg.space[1] + "}\n}\n" else "};\n")
  }

  /** `makeTableName(caseModel, tableNameOrig, singularize, lang)`: the name that replaces `#TABLE#`. */
  function ModelName(cfg: Config, table: string): string {
    var (_, tableNameOrig) := cfg.naming.qNameSplit(table);
    cfg.naming.makeTableName(cfg.options.caseModel, tableNameOrig, cfg.options.singularize, cfg.options.lang)
  }

  /** Everything a table can be written from. */
  ghost predicate ModelReady(cfg: Config, fks: map<string, map<string, ForeignKey>>, table: string, t: Table) {
    && TableReady(cfg, fks, table, t)
    && (cfg.options.lang == "ts" ==> TsReady(cfg, t))
  }

  /** The header, the TypeScript preamble for `ts`, the `addTable` text and the footer. */
  function Assemble(cfg: Config, preamble: string, tableText: string): string
    requires cfg.Valid()
  {
    HeaderTemplate(cfg) + (if cfg.options.lang == "ts" then preamble else "") + tableText + Footer(cfg)
  }

  /** The model text before the placeholder is replaced. */
  function RawModelText(cfg: Config, rels: seq<Relation>, fks: map<string, map<string, ForeignKey>>,
                        hasTrigger: bool, idxs: seq<Index>, table: string, t: Table): string
    requires ModelReady(cfg, fks, table, t)
  {
    var preamble := if cfg.options.lang == "ts" then TsPreamble(cfg, rels, table, t) else "";
    Assemble(cfg, preamble, TableText(cfg, fks, hasTrigger, idxs, table, t))
  }

  /**
   * One entry of `generateText`'s result: the model text with every placeholder
   * replaced by the model name, as a replacement string whose `$` patterns are expanded.
   */
  function ModelText(cfg: Config, rels: seq<Relation>, fks: map<string, map<string, ForeignKey>>,
                     hasTrigger: bool, idxs: seq<Index>, table: string, t: Table): string
    requires ModelReady(cfg, fks, table, t)
  {
    ReplaceAll(RawModelText(cfg, rels, fks, hasTrigger, idxs, table, t), Placeholder, ModelName(cfg, table))
  }

  /** The header, then for `ts` the TypeScript preamble. */
  function ModelHead(cfg: Config, rels: seq<Relation>, table: string, t: Table): string
    requires cfg.Valid() && (cfg.options.lang == "ts" ==> TsReady(cfg, t))
  {
    HeaderTemplate(cfg) + if cfg.options.lang == "ts" then TsPreamble(cfg, rels, table, t) else ""
  }

  /** The model text from its pieces, each written on its own. */
  lemma ModelTextFrom(cfg: Config, rels: seq<Relation>, fks: map<string, map<string, ForeignKey>>,
                      hasTrigger: bool, idxs: seq<Index>, table: string, t: Table, head: string, tableText: string, whole: string)
    requires ModelReady(cfg, fks, table, t)
    requires head == ModelHead(cfg, rels, table, t)
    requires tableText == TableText(cfg, fks, hasTrigger, idxs, table, t)
    requires whole == head + tableText + Footer(cfg)
    ensures ModelText(cfg, rels, fks, hasTrigger, idxs, table, t) == ReplaceAll(whole, Placeholder, ModelName(cfg, table))
  {
  }

  /** A placeholder after clean text: the text, then the substitution of the name for that placeholder. */
  lemma SpliceAfterClean(a: string, rest: string, rep: string)
    requires '#' !in a
    ensures StartsWith(ReplaceAll(a + (Placeholder + rest), Placeholder, rep), a + Substitution(rep, Placeholder, a, rest))
  {
    var s := a + (Placeholder + rest);
    var j := |a| + |Placeholder|;
    assert s[0..|a|] == a && s[..|a|] == a && s[|a|..j] == Placeholder && s[j..] == rest;
    ReplaceFromClean(s, 0, |a|, Placeholder, rep);
    ReplaceFromMatch(s, |a|, Placeholder, rep);
    AppendAssoc(a, Substitution(rep, Placeholder, a, rest), ReplaceFrom(s, j, Placeholder, rep));
  }

  lemma Es5Assembled(cfg: Config, preamble: string, tableText: string)
    requires cfg.Valid() && !IsClassLang(cfg.options.lang)
    ensures Assemble(cfg, preamble, tableText) == Es5Define(cfg) + (Placeholder + ("', {\n" + tableText + Footer(cfg)))
  {
    var a := Es5Define(cfg);
    assert HeaderTemplate(cfg) == a + Placeholder + "', {\n";
  }

  lemma Es5HeadClean()
    ensures '#' !in Es5Head()
  {
    var h1 := "const Sequelize = require('sequelize');\n";
    var h2 := "module.exports = ";
    var h3 := "function(sequelize, DataTypes) {\n";
    forall i | 0 <= i < |h1| ensures h1[i] != '#' {}
    forall i | 0 <= i < |h2| ensures h2[i] != '#' {}
    forall i | 0 <= i < |h3| ensures h3[i] != '#' {}
  }

  lemma DefineClean()
    ensures '#' !in "return sequelize.define('"
  {
    var h := "return sequelize.define('";
    forall i | 0 <= i < |h| ensures h[i] != '#' {}
  }

  /** The es5 header up to the placeholder. */
  function Es5Define(cfg: Config): string
    requires cfg.Valid()
  {
    Es5Head() + cfg.space[1] + "return sequelize.define('"
  }

  lemma Es5Replaced(cfg: Config, tableText: string, name: string)
    requires cfg.Valid() && !IsClassLang(cfg.options.lang) && '#' !in cfg.space[1]
    ensures StartsWith(ReplaceAll(Assemble(cfg, "", tableText), Placeholder, name),
                       Es5Define(cfg) + Substitution(name, Placeholder, Es5Define(cfg), "', {\n" + tableText + Footer(cfg)))
  {
    var a := Es5Define(cfg);
    Es5Assembled(cfg, "", tableText);
    Es5HeadClean();
    DefineClean();
    assert '#' !in a;
    SpliceAfterClean(a, "', {\n" + tableText + Footer(cfg), name);
  }

  /**
   * An es5 model file starts with the `define` call that names the model:
   * the placeholder in the header is replaced by the model name, with the
   * `$` patterns of `String.prototype.replace` in the name expanded; a name
   * without `$` appears as it is.
   */
  lemma Es5DefinesModel(cfg: Config, rels: seq<Relation>, fks: map<string, map<string, ForeignKey>>,
                        hasTrigger: bool, idxs: seq<Index>, table: string, t: Table)
    requires ModelReady(cfg, fks, table, t)
    requires !IsClassLang(cfg.options.lang) && '#' !in cfg.space[1]
    ensures StartsWith(ModelText(cfg, rels, fks, hasTrigger, idxs, table, t),
                       Es5Define(cfg) + Substitution(ModelName(cfg, table), Placeholder, Es5Define(cfg),
                                                     "', {\n" + TableText(cfg, fks, hasTrigger, idxs, table, t) + Footer(cfg)))
    ensures '$' !in ModelName(cfg, table) ==>
      StartsWith(ModelText(cfg, rels, fks, hasTrigger, idxs, table, t), Es5Define(cfg) + ModelName(cfg, table))
  {
    var tt := TableText(cfg, fks, hasTrigger, idxs, table, t);
    var name := ModelName(cfg, table);
    assert RawModelText(cfg, rels, fks, hasTrigger, idxs, table, t) == Assemble(cfg, "", tt);
    Es5Replaced(cfg, tt, name);
    if '$' !in name {
      SubstitutionPlain(name, Placeholder, Es5Define(cfg), "', {\n" + tt + Footer(cfg));
    }
  }

  /** Every language's file ends with the closing of the module function or class: `};` or two braces. */
  lemma FooterCloses(cfg: Config)
    requires cfg.Valid()
    ensures IsClassLang(cfg.options.lang) ==> EndsWith(Footer(cfg), "}\n}\n")
    ensures !IsClassLang(cfg.options.lang) ==> Footer(cfg) == ");\n};\n"
    ensures cfg.options.lang == "ts" && cfg.options.useDefine ==> StartsWith(Footer(cfg), ") as typeof #TABLE#;\n")
  {
    var f := Footer(cfg);
    if IsClassLang(cfg.options.lang) {
      var h := if cfg.options.lang == "ts" && cfg.options.useDefine then ") as typeof #TABLE#;\n" else ");\n";
      assert f == (h + cfg.space[1]) + "}\n}\n";
    }
  }
}

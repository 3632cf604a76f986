/**
 * The TypeScript association mixins of `addTypeScriptAssociationMixins`
 * and `addSchemaForRelations` (lib/auto-generator.js:561-664): the
 * accessor block each relation contributes to a table's class, and the
 * `needed` map from other tables to the type names to import from them.
 */
module Associations {
  import opened Text
  import opened Schema

  /** lodash `upperFirst`. */
  function UpperFirst(s: string): (r: string)
    ensures |r| == |s| && (|s| > 0 ==> r[0] == UpperChar(s[0]) && r[1..] == s[1..])
  {
    if s == [] then [] else [UpperChar(s[0])] + s[1..]
  }

  /** The first relation with a non-empty child table (`relations.find(rel => !!rel.childTable)`). */
  function FirstWithChild(rels: seq<Relation>): (r: Option<Relation>)
    ensures r.Some? ==> r.value in rels && r.value.childTable != ""
    ensures r.None? ==> forall k :: 0 <= k < |rels| ==> rels[k].childTable == ""
    ensures r.Some? ==> exists i :: 0 <= i < |rels| && rels[i] == r.value && forall k :: 0 <= k < i ==> rels[k].childTable == ""
  {
    if rels == [] then None
    else if rels[0].childTable != "" then Some(rels[0])
    else FirstWithChild(rels[1..])
  }

  /**
   * `addSchemaForRelations`: a table name without a schema that no relation
   * names as child takes the schema of the first relation with a child table,
   * when that child table has one; every other name comes back unchanged.
   */
  function AddSchemaForRelations(cfg: Config, rels: seq<Relation>, table: string): (r: string)
    ensures '.' in table || (exists k :: 0 <= k < |rels| && rels[k].childTable == table) ==> r == table
    ensures FirstWithChild(rels).None? ==> r == table
    ensures ('.' !in table && !(exists k :: 0 <= k < |rels| && rels[k].childTable == table)
             && FirstWithChild(rels).Some?) ==>
      var schemaName := cfg.naming.qNameSplit(FirstWithChild(rels).value.childTable).0;
      r == if schemaName != "" then cfg.naming.qNameJoin(schemaName, table) else table
  {
    if '.' !in table && !(exists k :: 0 <= k < |rels| && rels[k].childTable == table) then
      match FirstWithChild(rels)
      case None => table
      case Some(first) =>
        var (schemaName, _) := cfg.naming.qNameSplit(first.childTable);
        if schemaName != "" then cfg.naming.qNameJoin(schemaName, table) else table
    else table
  }

  /**
   * The `needed` map: tables in the order they were first added, each with
   * its type names in the order they were first added, as JavaScript keeps
   * object keys and `Set` members.
   */
  datatype Needed = Needed(keys: seq<string>, sets: map<string, seq<string>>) {
    ghost predicate Valid() {
      && (forall i, j :: 0 <= i < j < |keys| ==> keys[i] != keys[j])
      && (forall k :: k in sets <==> k in keys)
      && (forall k :: k in sets ==> forall i, j :: 0 <= i < j < |sets[k]| ==> sets[k][i] != sets[k][j])
    }

    /** The names listed under `k`, as a set. */
    function Names(k: string): set<string> {
      if k in sets then set x | x in sets[k] else {}
    }

    /** `needed[k] ??= new Set()`. */
    function Ensure(k: string): (n: Needed)
      requires Valid()
      ensures n.Valid() && k in n.sets
      ensures forall k' :: n.Names(k') == Names(k')
      ensures n.sets.Keys == sets.Keys + {k}
    {
      if k in sets then this else Needed(keys + [k], sets[k := []])
    }

    /** `needed[k].add(x)`. */
    function Add(k: string, x: string): (n: Needed)
      requires Valid() && k in sets
      ensures n.Valid() && n.keys == keys && n.sets.Keys == sets.Keys
      ensures n.Names(k) == Names(k) + {x}
      ensures forall k' :: k' != k ==> n.Names(k') == Names(k')
    {
      if x in sets[k] then this
      else
        var n := Needed(keys, sets[k := sets[k] + [x]]);
        assert n.Names(k) == Names(k) + {x};
        n
    }

    /** `delete needed[k]`. */
    function Delete(k: string): (n: Needed)
      requires Valid()
      ensures n.Valid() && k !in n.sets
      ensures forall k' :: k' != k ==> n.Names(k') == Names(k') && (k' in n.sets <==> k' in sets)
    {
      var ks := Without(keys, k);
      Needed(ks, sets - {k})
    }
  }

  /** The keys without `k`, in their order. */
  function Without(xs: seq<string>, k: string): (r: seq<string>)
    requires forall i, j :: 0 <= i < j < |xs| ==> xs[i] != xs[j]
    ensures forall x :: x in r <==> x in xs && x != k
    ensures forall i, j :: 0 <= i < j < |r| ==> r[i] != r[j]
  {
    if xs == [] then []
    else if xs[0] == k then Without(xs[1..], k)
    else
      var rest := Without(xs[1..], k);
      assert xs[0] !in xs[1..] by {
        forall j | 0 <= j < |xs[1..]| ensures xs[1..][j] != xs[0] { assert xs[1..][j] == xs[j + 1]; }
      }
      [xs[0]] + rest
  }

  /** The comment and accessors of a child that belongs to its parent. */
  function BelongsToText(sp: string, rel: Relation): string {
    var pparent := UpperFirst(rel.parentProp);
    sp + "// " + rel.childModel + " belongsTo " + rel.parentModel + " via " + rel.parentId + "\n"
    + sp + rel.parentProp + "!: " + rel.parentModel + ";\n"
    + sp + "get" + pparent + "!: Sequelize.BelongsToGetAssociationMixin<" + rel.parentModel + ">;\n"
    + sp + "set" + pparent + "!: Sequelize.BelongsToSetAssociationMixin<" + rel.parentModel + ", " + rel.parentModel + "Id>;\n"
    + sp + "create" + pparent + "!: Sequelize.BelongsToCreateAssociationMixin<" + rel.parentModel + ">;\n"
  }

  function HasOneText(sp: string, rel: Relation): string {
    var pchild := UpperFirst(rel.childProp);
    sp + "// " + rel.parentModel + " hasOne " + rel.childModel + " via " + rel.parentId + "\n"
    + sp + rel.childProp + "!: " + rel.childModel + ";\n"
    + sp + "get" + pchild + "!: Sequelize.HasOneGetAssociationMixin<" + rel.childModel + ">;\n"
    + sp + "set" + pchild + "!: Sequelize.HasOneSetAssociationMixin<" + rel.childModel + ", " + rel.childModel + "Id>;\n"
    + sp + "create" + pchild + "!: Sequelize.HasOneCreateAssociationMixin<" + rel.childModel + ">;\n"
  }

  /** The twelve accessor lines shared by hasMany and belongsToMany, with `kind` one of the two. */
  function ManyAccessors(sp: string, kind: string, model: string, sing: string, lur: string, plur: string): string {
    var m := model + ", " + model + "Id>;\n";
    sp + lur + "!: " + model + "[];\n"
    + sp + "get" + plur + "!: Sequelize." + kind + "GetAssociationsMixin<" + model + ">;\n"
    + sp + "set" + plur + "!: Sequelize." + kind + "SetAssociationsMixin<" + m
    + sp + "add" + sing + "!: Sequelize." + kind + "AddAssociationMixin<" + m
    + sp + "add" + plur + "!: Sequelize." + kind + "AddAssociationsMixin<" + m
    + sp + "create" + sing + "!: Sequelize." + kind + "CreateAssociationMixin<" + model + ">;\n"
    + sp + "remove" + sing + "!: Sequelize." + kind + "RemoveAssociationMixin<" + m
    + sp + "remove" + plur + "!: Sequelize." + kind + "RemoveAssociationsMixin<" + m
    + sp + "has" + sing + "!: Sequelize." + kind + "HasAssociationMixin<" + m
    + sp + "has" + plur + "!: Sequelize." + kind + "HasAssociationsMixin<" + m
    + sp + "count" + plur + "!: Sequelize." + kind + "CountAssociationsMixin;\n"
  }

  function HasManyText(cfg: Config, sp: string, rel: Relation): string {
    var sing := UpperFirst(cfg.naming.singularize(rel.childProp));
    var lur := cfg.naming.pluralize(rel.childProp);
    sp + "// " + rel.parentModel + " hasMany " + rel.childModel + " via " + rel.parentId + "\n"
    + ManyAccessors(sp, "HasMany", rel.childModel, sing, lur, UpperFirst(lur))
  }

  /** belongsToMany, written only from the parent's side, so the other model is always the child. */
  function BelongsToManyText(cfg: Config, sp: string, rel: Relation): string {
    var sing := UpperFirst(cfg.naming.singularize(rel.childProp));
    var lur := cfg.naming.pluralize(rel.childProp);
    sp + "// " + rel.parentModel + " belongsToMany " + rel.childModel + " via " + rel.parentId + " and " + rel.childId + "\n"
    + ManyAccessors(sp, "BelongsToMany", rel.childModel, sing, lur, UpperFirst(lur))
  }

  /** The kind of association a relation gives `table`, in the order the source tests them. */
  datatype Role = BelongsTo | HasOne | HasMany | BelongsToMany | Unrelated

  function RoleOf(rel: Relation, table: string): (r: Role)
    ensures r == BelongsToMany ==> rel.isM2M && rel.parentTable == table
    ensures r == BelongsTo ==> !rel.isM2M && rel.childTable == table
    ensures (r == HasOne || r == HasMany) ==> !rel.isM2M && rel.childTable != table && rel.parentTable == table
  {
    if !rel.isM2M then
      if rel.childTable == table then BelongsTo
      else if rel.parentTable == table then (if rel.isOne then HasOne else HasMany)
      else Unrelated
    else if rel.parentTable == table then BelongsToMany
    else Unrelated
  }

  /** The accessor block one relation adds to the class of `table`. */
  function RelText(cfg: Config, table: string, rel: Relation): (r: string)
    requires cfg.Valid()
    ensures r == "" <==> RoleOf(rel, table) == Unrelated
  {
    var sp := cfg.space[1];
    match RoleOf(rel, table)
    case BelongsTo => BelongsToText(sp, rel)
    case HasOne => HasOneText(sp, rel)
    case HasMany => HasManyText(cfg, sp, rel)
    case BelongsToMany => BelongsToManyText(cfg, sp, rel)
    case Unrelated => ""
  }

  /** The type names one relation adds to `needed`. */
  function RelNeeded(table: string, rel: Relation, needed: Needed): (r: Needed)
    requires needed.Valid()
    ensures r.Valid()
  {
    match RoleOf(rel, table)
    case BelongsTo =>
      needed.Ensure(rel.parentTable).Add(rel.parentTable, rel.parentModel).Add(rel.parentTable, rel.parentModel + "Id")
    case HasOne =>
      needed.Ensure(rel.childTable).Add(rel.childTable, rel.childModel).Add(rel.childTable, rel.childModel + "Id")
        .Add(rel.childTable, rel.childModel + "CreationAttributes")
    case HasMany =>
      needed.Ensure(rel.childTable).Add(rel.childTable, rel.childModel).Add(rel.childTable, rel.childModel + "Id")
    case BelongsToMany =>
      needed.Ensure(rel.childTable).Add(rel.childTable, rel.childModel).Add(rel.childTable, rel.childModel + "Id")
    case Unrelated => needed
  }

  /** One iteration of the loop over the relations: the text it adds and the new `needed`. */
  function RelStep(cfg: Config, table: string, rel: Relation, needed: Needed): (r: (string, Needed))
    requires cfg.Valid() && needed.Valid()
    ensures r.1.Valid()
  {
    (RelText(cfg, table, rel), RelNeeded(table, rel, needed))
  }

  /** The loop over `rels`, from the accumulated text and map. */
  function RelsFrom(cfg: Config, table: string, rels: seq<Relation>, str: string, needed: Needed): (r: (string, Needed))
    requires cfg.Valid() && needed.Valid()
    ensures r.1.Valid()
    decreases |rels|
  {
    if rels == [] then (str, needed)
    else
      var step := RelStep(cfg, table, rels[0], needed);
      RelsFrom(cfg, table, rels[1..], str + step.0, step.1)
  }

  /** `addTypeScriptAssociationMixins(table)`: the `needed` map and the accessor text. */
  function AssociationMixins(cfg: Config, rels: seq<Relation>, table0: string): (r: (Needed, string))
    requires cfg.Valid()
    ensures r.0.Valid()
  {
    var table := AddSchemaForRelations(cfg, rels, table0);
    var acc := RelsFrom(cfg, table, rels, "", Needed([], map[]));
    (if table in acc.1.sets then acc.1.Delete(table) else acc.1, acc.0)
  }

  /** The current table never imports from itself. */
  lemma NoSelfImport(cfg: Config, rels: seq<Relation>, table0: string)
    requires cfg.Valid()
    ensures AddSchemaForRelations(cfg, rels, table0) !in AssociationMixins(cfg, rels, table0).0.sets
  {
  }

  /** A many-to-many relation where the table is not the parent adds nothing. */
  lemma M2MOnlyFromParent(cfg: Config, table: string, rel: Relation, needed: Needed)
    requires cfg.Valid() && needed.Valid()
    requires rel.isM2M && rel.parentTable != table
    ensures RelStep(cfg, table, rel, needed) == ("", needed)
  {
  }

  /** A belongsTo relation adds exactly the parent model and its `Id` type under the parent table. */
  lemma BelongsToNeeds(table: string, rel: Relation, needed: Needed)
    requires needed.Valid()
    requires !rel.isM2M && rel.childTable == table
    ensures var n := RelNeeded(table, rel, needed);
      && n.sets.Keys == needed.sets.Keys + {rel.parentTable}
      && n.Names(rel.parentTable) == needed.Names(rel.parentTable) + {rel.parentModel, rel.parentModel + "Id"}
      && forall k :: k != rel.parentTable ==> n.Names(k) == needed.Names(k)
  {
    var n0 := needed.Ensure(rel.parentTable);
    var n1 := n0.Add(rel.parentTable, rel.parentModel);
    assert RelNeeded(table, rel, needed) == n1.Add(rel.parentTable, rel.parentModel + "Id");
    UnionOfPair(needed.Names(rel.parentTable), rel.parentModel, rel.parentModel + "Id");
  }

  lemma UnionOfPair(a: set<string>, x: string, y: string)
    ensures a + {x} + {y} == a + {x, y}
  {
  }

  lemma UnionOfThree(a: set<string>, x: string, y: string, z: string)
    ensures a + {x} + {y} + {z} == a + {x, y, z}
  {
  }

  /** A hasOne relation adds the child model, its `Id` and its `CreationAttributes` types under the child table. */
  lemma HasOneNeeds(table: string, rel: Relation, needed: Needed)
    requires needed.Valid()
    requires !rel.isM2M && rel.childTable != table && rel.parentTable == table && rel.isOne
    ensures var n := RelNeeded(table, rel, needed);
      && n.sets.Keys == needed.sets.Keys + {rel.childTable}
      && n.Names(rel.childTable) == needed.Names(rel.childTable) + {rel.childModel, rel.childModel + "Id", rel.childModel + "CreationAttributes"}
      && forall k :: k != rel.childTable ==> n.Names(k) == needed.Names(k)
  {
    var c := rel.childTable;
    var n0 := needed.Ensure(c);
    var n1 := n0.Add(c, rel.childModel);
    var n2 := n1.Add(c, rel.childModel + "Id");
    var n3 := n2.Add(c, rel.childModel + "CreationAttributes");
    assert RelNeeded(table, rel, needed) == n3;
    UnionOfThree(needed.Names(c), rel.childModel, rel.childModel + "Id", rel.childModel + "CreationAttributes");
  }

  /** hasMany and belongsToMany add the child model and its `Id` type under the child table. */
  lemma ManyNeeds(table: string, rel: Relation, needed: Needed)
    requires needed.Valid()
    requires RoleOf(rel, table) == HasMany || RoleOf(rel, table) == BelongsToMany
    ensures var n := RelNeeded(table, rel, needed);
      && n.sets.Keys == needed.sets.Keys + {rel.childTable}
      && n.Names(rel.childTable) == needed.Names(rel.childTable) + {rel.childModel, rel.childModel + "Id"}
      && forall k :: k != rel.childTable ==> n.Names(k) == needed.Names(k)
  {
    var n0 := needed.Ensure(rel.childTable);
    var n1 := n0.Add(rel.childTable, rel.childModel);
    var n2 := n1.Add(rel.childTable, rel.childModel + "Id");
    if RoleOf(rel, table) == HasMany {
      assert RelNeeded(table, rel, needed) == n2;
    } else {
      assert RelNeeded(table, rel, needed) == n2;
    }
    UnionOfPair(needed.Names(rel.childTable), rel.childModel, rel.childModel + "Id");
  }

  /** Every listed table has at least one name. */
  predicate AllNonEmpty(n: Needed) {
    forall k :: k in n.sets ==> n.Names(k) != {}
  }

  /** `b` lists every table `a` does, with at least the same names. */
  predicate Grows(a: Needed, b: Needed) {
    forall k :: k in a.sets ==> k in b.sets && a.Names(k) <= b.Names(k)
  }

  /** Adding names under one table, `m` among them, keeps every table's names non-empty and only adds names. */
  lemma AddedUnder(needed: Needed, n: Needed, k0: string, m: string)
    requires AllNonEmpty(needed) && m in n.Names(k0)
    requires n.sets.Keys == needed.sets.Keys + {k0}
    requires needed.Names(k0) <= n.Names(k0)
    requires forall k :: k != k0 ==> n.Names(k) == needed.Names(k)
    ensures AllNonEmpty(n) && Grows(needed, n)
  {
    forall k | k in n.sets ensures n.Names(k) != {} {
      if k == k0 { assert m in n.Names(k); }
    }
  }

  /** One relation keeps every listed table's names non-empty, and only adds names. */
  lemma StepKeepsNames(table: string, rel: Relation, needed: Needed)
    requires needed.Valid() && AllNonEmpty(needed)
    ensures AllNonEmpty(RelNeeded(table, rel, needed)) && Grows(needed, RelNeeded(table, rel, needed))
  {
    var n := RelNeeded(table, rel, needed);
    var role := RoleOf(rel, table);
    if role == BelongsTo {
      BelongsToNeeds(table, rel, needed);
      AddedUnder(needed, n, rel.parentTable, rel.parentModel);
    } else if role == HasOne {
      HasOneNeeds(table, rel, needed);
      AddedUnder(needed, n, rel.childTable, rel.childModel);
    } else if role == HasMany || role == BelongsToMany {
      ManyNeeds(table, rel, needed);
      AddedUnder(needed, n, rel.childTable, rel.childModel);
    } else {
      assert n == needed;
    }
  }

  lemma GrowsTransitive(a: Needed, b: Needed, c: Needed)
    requires Grows(a, b) && Grows(b, c)
    ensures Grows(a, c)
  {
  }

  /** Every table the map lists has at least one type name to import, and the map only grows. */
  lemma {:induction false} NeededNonEmpty(cfg: Config, table: string, rels: seq<Relation>, str: string, needed: Needed)
    requires cfg.Valid() && needed.Valid() && AllNonEmpty(needed)
    ensures AllNonEmpty(RelsFrom(cfg, table, rels, str, needed).1)
    ensures Grows(needed, RelsFrom(cfg, table, rels, str, needed).1)
    decreases |rels|
  {
    if rels != [] {
      var step := RelStep(cfg, table, rels[0], needed);
      StepKeepsNames(table, rels[0], needed);
      NeededNonEmpty(cfg, table, rels[1..], str + step.0, step.1);
      GrowsTransitive(needed, step.1, RelsFrom(cfg, table, rels, str, needed).1);
    }
  }
}

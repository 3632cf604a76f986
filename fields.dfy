/**
 * What `addField` (lib/auto-generator.js:197-376) writes for one column,
 * stated as functions: the skip rules of `isTimestampField`,
 * `isParanoidField` and `isIgnoredField` (lib/auto-generator.js:730-747),
 * the entries the attribute loop emits, and the text they make.
 */
module Fields {
  import opened Text
  import opened Schema
  import opened Quoting
  import opened FieldTypes
  import opened SqTypes
  import opened Defaults

  /** `isTimestampField`: the created-at or updated-at column, by option or by name. */
  predicate IsTimestampField(cfg: Config, field: string) {
    var a := cfg.options.additional;
    if a.Get("timestamps") == Bool(false) then false
    else
      || (!Truthy(a.Get("createdAt")) && cfg.naming.recase("c", field, false) == "createdAt")
      || a.Get("createdAt") == Str(field)
      || (!Truthy(a.Get("updatedAt")) && cfg.naming.recase("c", field, false) == "updatedAt")
      || a.Get("updatedAt") == Str(field)
  }

  /** `isParanoidField`: the deleted-at column, unless timestamps or paranoid are switched off. */
  predicate IsParanoidField(cfg: Config, field: string) {
    var a := cfg.options.additional;
    if a.Get("timestamps") == Bool(false) || a.Get("paranoid") == Bool(false) then false
    else
      || (!Truthy(a.Get("deletedAt")) && cfg.naming.recase("c", field, false) == "deletedAt")
      || a.Get("deletedAt") == Str(field)
  }

  /** `isIgnoredField`: listed in `skipFields`. */
  predicate IsIgnoredField(cfg: Config, field: string) {
    field in cfg.options.skipFields
  }

  /** The two early returns of `addField`. */
  predicate Skipped(cfg: Config, field: string) {
    || (cfg.options.additional.Get("timestamps") != Bool(false) && (IsTimestampField(cfg, field) || IsParanoidField(cfg, field)))
    || IsIgnoredField(cfg, field)
  }

  /** `fieldObj.foreignKey = foreignKey` when the introspection has one for this column. */
  function Attach(obj: Obj, fk: Option<ForeignKey>): (r: Obj)
    requires obj.Valid()
    ensures r.Valid()
    ensures fk.Some? ==> r.Get("foreignKey") == Fk(fk.value)
    ensures forall k :: k != "foreignKey" ==> r.Get(k) == obj.Get(k)
  {
    if fk.Some? then obj.Set("foreignKey", Fk(fk.value)) else obj
  }

  /** Attaching the same record again changes nothing. */
  lemma AttachIdempotent(obj: Obj, fk: Option<ForeignKey>)
    requires obj.Valid()
    ensures Attach(Attach(obj, fk), fk) == Attach(obj, fk)
  {
    if fk.Some? {
      var o1 := obj.Set("foreignKey", Fk(fk.value));
      assert o1.Set("foreignKey", Fk(fk.value)).vals == o1.vals;
    }
  }

  /** `isSerialKey`: the foreign-key record says so, or the dialect's test does. */
  predicate IsSerial(cfg: Config, obj: Obj) {
    (obj.Get("foreignKey").Fk? && obj.Get("foreignKey").fk.isSerialKey) || cfg.dialect.isSerialKey(obj)
  }

  /** Postgres identity columns get `autoIncrementIdentity` as well. */
  predicate IsIdentity(cfg: Config, obj: Obj) {
    && cfg.dialect.name == "postgres"
    && obj.Get("foreignKey").Fk?
    && obj.Get("foreignKey").fk.isPrimaryKey
    && (obj.Get("foreignKey").fk.generation == "ALWAYS" || obj.Get("foreignKey").fk.generation == "BY DEFAULT")
  }

  /** `!!fieldObj.foreignKey.isPrimaryKey` for a present, non-null value. */
  predicate FkIsPrimary(v: JsValue) {
    v.Fk? && v.fk.isPrimaryKey
  }

  /** What one step of the attribute loop emits: the auto-increment marker, or an attribute line named by its key. */
  datatype Entry =
    | AutoIncrement(identity: bool)
    | Line(attr: string, text: string)

  function RenderEntry(sp3: string, e: Entry): string {
    match e
    case AutoIncrement(identity) =>
      sp3 + "autoIncrement: true,\n" + (if identity then sp3 + "autoIncrementIdentity: true,\n" else "")
    case Line(_, text) => text + ",\n"
  }

  function RenderAll(sp3: string, es: seq<Entry>): string {
    if es == [] then "" else RenderEntry(sp3, es[0]) + RenderAll(sp3, es[1..])
  }

  lemma {:induction false} RenderAllConcat(sp3: string, a: seq<Entry>, b: seq<Entry>)
    ensures RenderAll(sp3, a + b) == RenderAll(sp3, a) + RenderAll(sp3, b)
  {
    if a != [] {
      assert (a + b)[0] == a[0] && (a + b)[1..] == a[1..] + b;
      RenderAllConcat(sp3, a[1..], b);
      AppendAssoc(RenderEntry(sp3, a[0]), RenderAll(sp3, a[1..]), RenderAll(sp3, b));
    } else {
      assert a + b == b;
      AppendEmpty(RenderAll(sp3, b));
    }
  }

  /**
   * The column's attributes the loop can render: a `true` primary key next
   * to a `foreignKey` key has a non-null record, the type has a mapping,
   * and the default can be translated.
   */
  ghost predicate FieldDefined(cfg: Config, obj: Obj) {
    && obj.Valid()
    && (obj.Get("primaryKey") == Bool(true) && "foreignKey" in obj.vals ==> !IsNullish(obj.Get("foreignKey")))
    && ("type" in obj.vals ==> SqTypeDefined(obj.Get("type"), obj))
    && ("defaultValue" in obj.vals ==>
          DefaultDefined(cfg.dialect.name, IsSerial(cfg, obj), obj.Get("type"), obj.Get("defaultValue")))
  }

  function References(cfg: Config, fk: ForeignKey): string
    requires cfg.Valid()
  {
    cfg.space[3] + "references: {\n"
    + cfg.space[4] + "model: '" + fk.targetTable + "',\n"
    + cfg.space[4] + "key: '" + fk.targetColumn + "'\n"
    + cfg.space[3] + "}"
  }

  /** The generic branch: the mapped type for `type`, otherwise the raw value, quoted and escaped when a string. */
  function GenericValue(obj: Obj, attr: string): string
    requires attr == "type" ==> SqTypeDefined(obj.Get("type"), obj)
  {
    var sq := if attr == "type" then SqType(obj.Get("type"), obj) else Null;
    if !IsNullish(sq) then JsString(sq)
    else if obj.Get(attr).Str? then Quoted(EscapeSpecial(obj.Get(attr).s))
    else JsString(obj.Get(attr))
  }

  /** The attribute's own branch, after the serial-key marker; `wrote` is `wroteAutoIncrement`. */
  function AttrBody(cfg: Config, obj: Obj, fk: Option<ForeignKey>, attr: string, wrote: bool): (r: (seq<Entry>, bool))
    requires cfg.Valid() && FieldDefined(cfg, obj) && attr in obj.vals
    ensures r.1 == (wrote || (attr == "autoIncrement" && obj.Get("autoIncrement") == Bool(true)))
    ensures |r.0| <= 1
  {
    var sp3 := cfg.space[3];
    if attr == "foreignKey" then
      if fk.Some? && fk.value.isForeignKey then ([Line(attr, References(cfg, fk.value))], wrote) else ([], wrote)
    else if attr == "references" then ([], wrote)
    else if attr == "primaryKey" then
      if obj.Get("primaryKey") == Bool(true) && (!("foreignKey" in obj.vals) || FkIsPrimary(obj.Get("foreignKey")))
      then ([Line(attr, sp3 + "primaryKey: true")], wrote)
      else ([], wrote)
    else if attr == "autoIncrement" then
      if obj.Get("autoIncrement") == Bool(true) && !wrote then ([AutoIncrement(IsIdentity(cfg, obj))], true)
      else ([], wrote || obj.Get("autoIncrement") == Bool(true))
    else if attr == "allowNull" then ([Line(attr, sp3 + attr + ": " + JsString(obj.Get(attr)))], wrote)
    else if attr == "defaultValue" then
      match DefaultText(cfg.dialect.name, IsSerial(cfg, obj), obj.Get("type"), obj.Get("elementType"), obj.Get("defaultValue"))
      case None => ([], wrote)
      case Some(v) => ([Line(attr, sp3 + attr + ": " + v)], wrote)
    else if attr == "comment" && (!Truthy(obj.Get("comment")) || cfg.dialect.name == "mssql") then ([], wrote)
    else ([Line(attr, sp3 + attr + ": " + GenericValue(obj, attr))], wrote)
  }

  /** One step of the loop over the column's keys. */
  function AttrStep(cfg: Config, obj: Obj, fk: Option<ForeignKey>, attr: string, wrote: bool): (r: (seq<Entry>, bool))
    requires cfg.Valid() && FieldDefined(cfg, obj) && attr in obj.vals
  {
    if attr in {"special", "elementType", "unique"} then ([], wrote)
    else
      var serial := IsSerial(cfg, obj);
      var pre := if serial && !wrote then [AutoIncrement(IsIdentity(cfg, obj))] else [];
      var body := AttrBody(cfg, obj, fk, attr, wrote || serial);
      (pre + body.0, body.1)
  }

  /** The entries of the loop over `attrs`, starting with `wroteAutoIncrement` equal to `wrote`. */
  function Entries(cfg: Config, obj: Obj, fk: Option<ForeignKey>, attrs: seq<string>, wrote: bool): seq<Entry>
    requires cfg.Valid() && FieldDefined(cfg, obj) && forall a :: a in attrs ==> a in obj.vals
  {
    if attrs == [] then []
    else
      var step := AttrStep(cfg, obj, fk, attrs[0], wrote);
      step.0 + Entries(cfg, obj, fk, attrs[1..], step.1)
  }

  /** `unique = fieldObj.unique || fieldObj.foreignKey && fieldObj.foreignKey.isUnique`. */
  function UniqueValue(obj: Obj): JsValue {
    var u := obj.Get("unique");
    var f := obj.Get("foreignKey");
    if Truthy(u) then u
    else if !Truthy(f) then f
    else if f.Fk? then Bool(f.fk.isUnique)
    else Undefined
  }

  /** How the unique value is written: a string double-quoted with its double quotes escaped, anything else as JavaScript prints it. */
  function UniqueShown(u: JsValue): string {
    if u.Str? then Quoted(ReplaceChar(u.s, '"', "\\\"")) else JsString(u)
  }

  function UniqueText(cfg: Config, obj: Obj): (r: string)
    requires cfg.Valid()
    ensures r != "" <==> Truthy(UniqueValue(obj))
  {
    var u := UniqueValue(obj);
    if !Truthy(u) then ""
    else
      cfg.space[3] + "unique: " + UniqueShown(u) + ",\n"
  }

  function AliasText(cfg: Config, field: string): (r: string)
    requires cfg.Valid()
    ensures r != "" <==> field != cfg.PropName(field)
  {
    if field != cfg.PropName(field) then cfg.space[3] + "field: '" + field + "',\n" else ""
  }

  /** The text before the closing trim: name, attribute entries, unique marker and field alias. */
  function FieldBody(cfg: Config, field: string, obj: Obj, fk: Option<ForeignKey>): string
    requires cfg.Valid() && FieldDefined(cfg, obj)
  {
    QuoteName(cfg.PropName(field)) + ": {\n"
    + RenderAll(cfg.space[3], Entries(cfg, obj, fk, obj.keys, false))
    + UniqueText(cfg, obj) + AliasText(cfg, field)
  }

  /** `addField` for a column that is not skipped, with the foreign key already attached. */
  function FieldText(cfg: Config, field: string, obj: Obj, fk: Option<ForeignKey>): (r: string)
    requires cfg.Valid() && FieldDefined(cfg, obj)
  {
    cfg.space[2] + DropTrailing(Trim(FieldBody(cfg, field, obj, fk)), ',') + "\n" + cfg.space[2] + "},\n"
  }

  /** `addField(table, field)` for the column object `obj` and the foreign key the introspection found. */
  function FieldOut(cfg: Config, field: string, obj: Obj, fk: Option<ForeignKey>): (r: string)
    requires cfg.Valid() && obj.Valid() && (!Skipped(cfg, field) ==> FieldDefined(cfg, Attach(obj, fk)))
  {
    if Skipped(cfg, field) then "" else FieldText(cfg, field, Attach(obj, fk), fk)
  }

  /** A column writes nothing exactly when it is a timestamp, paranoid or ignored column. */
  lemma EmptyExactlyWhenSkipped(cfg: Config, field: string, obj: Obj, fk: Option<ForeignKey>)
    requires cfg.Valid() && obj.Valid() && (!Skipped(cfg, field) ==> FieldDefined(cfg, Attach(obj, fk)))
    ensures FieldOut(cfg, field, obj, fk) == "" <==> Skipped(cfg, field)
    ensures !Skipped(cfg, field) ==> EndsWith(FieldOut(cfg, field, obj, fk), cfg.space[2] + "},\n")
  {
    if !Skipped(cfg, field) {
      var o := Attach(obj, fk);
      var head := cfg.space[2] + DropTrailing(Trim(FieldBody(cfg, field, o, fk)), ',') + "\n";
      var close := cfg.space[2] + "},\n";
      AppendAssoc(head, cfg.space[2], "},\n");
      EndsWithSuffix(head, close);
    }
  }

  /** Number of auto-increment markers among the entries. */
  function CountAuto(es: seq<Entry>): nat {
    if es == [] then 0 else (if es[0].AutoIncrement? then 1 else 0) + CountAuto(es[1..])
  }

  lemma {:induction false} CountAutoConcat(a: seq<Entry>, b: seq<Entry>)
    ensures CountAuto(a + b) == CountAuto(a) + CountAuto(b)
  {
    if a != [] {
      assert (a + b)[1..] == a[1..] + b;
      CountAutoConcat(a[1..], b);
    } else {
      assert a + b == b;
    }
  }

  /** One step writes the marker at most once, and only when it was not written yet, after which it counts as written. */
  lemma StepAuto(cfg: Config, obj: Obj, fk: Option<ForeignKey>, attr: string, wrote: bool)
    requires cfg.Valid() && FieldDefined(cfg, obj) && attr in obj.vals
    ensures var r := AttrStep(cfg, obj, fk, attr, wrote);
      && CountAuto(r.0) <= (if wrote then 0 else 1)
      && (CountAuto(r.0) == 1 ==> r.1)
      && (wrote ==> r.1)
  {
    var r := AttrStep(cfg, obj, fk, attr, wrote);
    if !(attr in {"special", "elementType", "unique"}) {
      var serial := IsSerial(cfg, obj);
      var pre: seq<Entry> := if serial && !wrote then [AutoIncrement(IsIdentity(cfg, obj))] else [];
      var body := AttrBody(cfg, obj, fk, attr, wrote || serial);
      CountAutoConcat(pre, body.0);
      assert CountAuto(pre) == (if serial && !wrote then 1 else 0);
      if |body.0| == 1 {
        assert CountAuto(body.0) == (if body.0[0].AutoIncrement? then 1 else 0);
        assert body.0[0].AutoIncrement? ==> attr == "autoIncrement" && !(wrote || serial);
      }
    }
  }

  /** `autoIncrement: true` is written at most once per column, whichever keys ask for it. */
  lemma {:induction false} AutoIncrementAtMostOnce(cfg: Config, obj: Obj, fk: Option<ForeignKey>, attrs: seq<string>, wrote: bool)
    requires cfg.Valid() && FieldDefined(cfg, obj) && forall a :: a in attrs ==> a in obj.vals
    ensures CountAuto(Entries(cfg, obj, fk, attrs, wrote)) <= (if wrote then 0 else 1)
  {
    if attrs != [] {
      var step := AttrStep(cfg, obj, fk, attrs[0], wrote);
      StepAuto(cfg, obj, fk, attrs[0], wrote);
      AutoIncrementAtMostOnce(cfg, obj, fk, attrs[1..], step.1);
      CountAutoConcat(step.0, Entries(cfg, obj, fk, attrs[1..], step.1));
    }
  }

  /** A serial key gets the marker exactly once as soon as it has one key outside `special`, `elementType` and `unique`. */
  lemma {:induction false} SerialWritesAutoIncrement(cfg: Config, obj: Obj, fk: Option<ForeignKey>, attrs: seq<string>)
    requires cfg.Valid() && FieldDefined(cfg, obj) && forall a :: a in attrs ==> a in obj.vals
    requires IsSerial(cfg, obj)
    requires exists i :: 0 <= i < |attrs| && attrs[i] !in {"special", "elementType", "unique"}
    ensures CountAuto(Entries(cfg, obj, fk, attrs, false)) == 1
  {
    if attrs[0] in {"special", "elementType", "unique"} {
      var i :| 0 <= i < |attrs| && attrs[i] !in {"special", "elementType", "unique"};
      assert attrs[1..][i - 1] == attrs[i];
      SerialWritesAutoIncrement(cfg, obj, fk, attrs[1..]);
      CountAutoConcat([], Entries(cfg, obj, fk, attrs[1..], false));
    } else {
      SerialFirstWrites(cfg, obj, fk, attrs);
    }
  }

  /** The first written key of a serial column carries the marker, and no later key repeats it. */
  lemma SerialFirstWrites(cfg: Config, obj: Obj, fk: Option<ForeignKey>, attrs: seq<string>)
    requires cfg.Valid() && FieldDefined(cfg, obj) && forall a :: a in attrs ==> a in obj.vals
    requires IsSerial(cfg, obj) && attrs != [] && attrs[0] !in {"special", "elementType", "unique"}
    ensures CountAuto(Entries(cfg, obj, fk, attrs, false)) == 1
  {
    var step := AttrStep(cfg, obj, fk, attrs[0], false);
    CountAutoConcat(step.0, Entries(cfg, obj, fk, attrs[1..], step.1));
    var body := AttrBody(cfg, obj, fk, attrs[0], true);
    CountAutoConcat([AutoIncrement(IsIdentity(cfg, obj))], body.0);
    if |body.0| == 1 {
      assert !body.0[0].AutoIncrement?;
    }
    AutoIncrementAtMostOnce(cfg, obj, fk, attrs[1..], true);
  }

  /**
   * The primary-key line appears exactly when the column has a `primaryKey`
   * key set to `true` and either no `foreignKey` key or a foreign-key record
   * marking it primary.
   */
  lemma PrimaryKeyRule(cfg: Config, obj: Obj, fk: Option<ForeignKey>, attrs: seq<string>, wrote: bool)
    requires cfg.Valid() && FieldDefined(cfg, obj) && forall a :: a in attrs ==> a in obj.vals
    ensures (exists e :: e in Entries(cfg, obj, fk, attrs, wrote) && e.Line? && e.attr == "primaryKey") ==>
      && "primaryKey" in attrs
      && obj.Get("primaryKey") == Bool(true)
      && (!("foreignKey" in obj.vals) || FkIsPrimary(obj.Get("foreignKey")))
    ensures ("primaryKey" in attrs && obj.Get("primaryKey") == Bool(true)
             && (!("foreignKey" in obj.vals) || FkIsPrimary(obj.Get("foreignKey")))) ==>
      Line("primaryKey", cfg.space[3] + "primaryKey: true") in Entries(cfg, obj, fk, attrs, wrote)
  {
    PrimaryKeyOnlyIf(cfg, obj, fk, attrs, wrote);
    if "primaryKey" in attrs && obj.Get("primaryKey") == Bool(true)
       && (!("foreignKey" in obj.vals) || FkIsPrimary(obj.Get("foreignKey"))) {
      KeyLineWritten(cfg, obj, fk, attrs, wrote, "primaryKey", cfg.space[3] + "primaryKey: true");
    }
  }

  lemma {:induction false} PrimaryKeyOnlyIf(cfg: Config, obj: Obj, fk: Option<ForeignKey>, attrs: seq<string>, wrote: bool)
    requires cfg.Valid() && FieldDefined(cfg, obj) && forall a :: a in attrs ==> a in obj.vals
    ensures (exists e :: e in Entries(cfg, obj, fk, attrs, wrote) && e.Line? && e.attr == "primaryKey") ==>
      && "primaryKey" in attrs
      && obj.Get("primaryKey") == Bool(true)
      && (!("foreignKey" in obj.vals) || FkIsPrimary(obj.Get("foreignKey")))
  {
    if attrs != [] {
      var step := AttrStep(cfg, obj, fk, attrs[0], wrote);
      var rest := Entries(cfg, obj, fk, attrs[1..], step.1);
      assert Entries(cfg, obj, fk, attrs, wrote) == step.0 + rest;
      StepLines(cfg, obj, fk, attrs[0], wrote);
      PrimaryKeyOnlyIf(cfg, obj, fk, attrs[1..], step.1);
    }
  }

  /** A step writes lines only under its own key, and the two guarded keys only when their guard holds. */
  lemma StepLines(cfg: Config, obj: Obj, fk: Option<ForeignKey>, attr: string, wrote: bool)
    requires cfg.Valid() && FieldDefined(cfg, obj) && attr in obj.vals
    ensures forall e :: e in AttrStep(cfg, obj, fk, attr, wrote).0 && e.Line? ==>
      && e.attr == attr
      && (attr == "primaryKey" ==>
            obj.Get("primaryKey") == Bool(true) && (!("foreignKey" in obj.vals) || FkIsPrimary(obj.Get("foreignKey"))))
      && (attr == "foreignKey" ==> fk.Some? && fk.value.isForeignKey)
  {
  }

  /** A key whose own step writes a line writes it wherever it stands in the list. */
  lemma {:induction false} KeyLineWritten(cfg: Config, obj: Obj, fk: Option<ForeignKey>, attrs: seq<string>, wrote: bool,
                                          attr: string, text: string)
    requires cfg.Valid() && FieldDefined(cfg, obj) && forall a :: a in attrs ==> a in obj.vals
    requires attr in attrs && (attr == "primaryKey" || attr == "foreignKey")
    requires forall w :: Line(attr, text) in AttrBody(cfg, obj, fk, attr, w).0
    ensures Line(attr, text) in Entries(cfg, obj, fk, attrs, wrote)
  {
    var step := AttrStep(cfg, obj, fk, attrs[0], wrote);
    var rest := Entries(cfg, obj, fk, attrs[1..], step.1);
    assert Entries(cfg, obj, fk, attrs, wrote) == step.0 + rest;
    if attrs[0] == attr {
      assert Line(attr, text) in AttrBody(cfg, obj, fk, attr, wrote || IsSerial(cfg, obj)).0;
      assert Line(attr, text) in step.0;
    } else {
      KeyLineWritten(cfg, obj, fk, attrs[1..], step.1, attr, text);
    }
  }

  /**
   * The `references` block appears exactly when the column has a `foreignKey`
   * key and the introspection's record is a real foreign key.
   */
  lemma ReferencesRule(cfg: Config, obj: Obj, fk: Option<ForeignKey>, attrs: seq<string>, wrote: bool)
    requires cfg.Valid() && FieldDefined(cfg, obj) && forall a :: a in attrs ==> a in obj.vals
    ensures (exists e :: e in Entries(cfg, obj, fk, attrs, wrote) && e.Line? && e.attr == "foreignKey") ==>
      "foreignKey" in attrs && fk.Some? && fk.value.isForeignKey
    ensures "foreignKey" in attrs && fk.Some? && fk.value.isForeignKey ==>
      Line("foreignKey", References(cfg, fk.value)) in Entries(cfg, obj, fk, attrs, wrote)
  {
    ReferencesOnlyIf(cfg, obj, fk, attrs, wrote);
    if "foreignKey" in attrs && fk.Some? && fk.value.isForeignKey {
      KeyLineWritten(cfg, obj, fk, attrs, wrote, "foreignKey", References(cfg, fk.value));
    }
  }

  lemma {:induction false} ReferencesOnlyIf(cfg: Config, obj: Obj, fk: Option<ForeignKey>, attrs: seq<string>, wrote: bool)
    requires cfg.Valid() && FieldDefined(cfg, obj) && forall a :: a in attrs ==> a in obj.vals
    ensures (exists e :: e in Entries(cfg, obj, fk, attrs, wrote) && e.Line? && e.attr == "foreignKey") ==>
      "foreignKey" in attrs && fk.Some? && fk.value.isForeignKey
  {
    if attrs != [] {
      var step := AttrStep(cfg, obj, fk, attrs[0], wrote);
      var rest := Entries(cfg, obj, fk, attrs[1..], step.1);
      assert Entries(cfg, obj, fk, attrs, wrote) == step.0 + rest;
      StepLines(cfg, obj, fk, attrs[0], wrote);
      ReferencesOnlyIf(cfg, obj, fk, attrs[1..], step.1);
    }
  }
}

/**
 * The data the generator consumes: introspected tables whose fields are
 * JavaScript objects with ordered keys, foreign-key descriptors, indexes,
 * relations, the dialect record, the generator options and the naming
 * helpers of the companion `types` module, which are taken as given
 * functions because their code is not part of this model.
 */
module Schema {
  import opened Text

  datatype Option<T> = None | Some(value: T)

  /** The foreign-key descriptor the introspection supplies per (table, field). */
  datatype ForeignKey = ForeignKey(
    isForeignKey: bool,
    isPrimaryKey: bool,
    isUnique: bool,
    isSerialKey: bool,
    generation: string,
    targetTable: string,    // foreignSources.target_table
    targetColumn: string)   // foreignSources.target_column

  /** The values a field attribute can hold. */
  datatype JsValue =
    | Undefined
    | Null
    | Bool(b: bool)
    | Num(n: int)
    | Str(s: string)
    | Arr(items: seq<string>)
    | Fk(fk: ForeignKey)

  /** JavaScript truthiness. */
  predicate Truthy(v: JsValue) {
    match v
    case Undefined => false
    case Null => false
    case Bool(b) => b
    case Num(n) => n != 0
    case Str(s) => s != ""
    case Arr(_) => true
    case Fk(_) => true
  }

  /** `String(v)`, which is also what a template literal or `+` with a string produces. */
  function JsString(v: JsValue): (r: string)
    ensures v.Str? ==> r == v.s
    ensures v == Undefined ==> r == "undefined"
    ensures v == Null ==> r == "null"
  {
    match v
    case Undefined => "undefined"
    case Null => "null"
    case Bool(b) => if b then "true" else "false"
    case Num(n) => IntToString(n)
    case Str(s) => s
    case Arr(items) => Join(items, ",")
    case Fk(_) => "[object Object]"
  }

  predicate IsNullish(v: JsValue) {
    v == Undefined || v == Null
  }

  /** A JavaScript object: its keys in insertion order and its values. */
  datatype Obj = Obj(keys: seq<string>, vals: map<string, JsValue>) {

    ghost predicate Valid() {
      && (forall i, j :: 0 <= i < j < |keys| ==> keys[i] != keys[j])
      && (forall k {:trigger k in vals} :: k in vals <==> k in keys)
    }

    function Get(k: string): JsValue {
      if k in vals then vals[k] else Undefined
    }

    /** `obj[k] = v`: a new key goes to the end, an existing one keeps its place. */
    function Set(k: string, v: JsValue): (o: Obj)
      requires Valid()
      ensures o.Valid() && o.Get(k) == v
      ensures forall k' :: k' != k ==> o.Get(k') == Get(k')
      ensures k in keys ==> o.keys == keys
      ensures k !in keys ==> o.keys == keys + [k]
    {
      Obj(if k in vals then keys else keys + [k], vals[k := v])
    }
  }

  /** One table: its columns in introspection order, each with its field object. */
  datatype Table = Table(columns: seq<string>, fields: map<string, Obj>) {
    ghost predicate Valid() {
      && (forall i, j :: 0 <= i < j < |columns| ==> columns[i] != columns[j])
      && (forall c {:trigger c in fields} :: c in fields <==> c in columns)
      && (forall c :: c in fields ==> fields[c].Valid())
    }
  }

  datatype IndexField = IndexField(attribute: string, collate: string, length: nat, order: string)

  /** An index; an empty string or a zero length stands for an absent property. */
  datatype Index = Index(name: string, unique: bool, kind: string, fields: seq<IndexField>)

  datatype Relation = Relation(
    parentTable: string, parentModel: string, parentProp: string, parentId: string,
    childTable: string, childModel: string, childProp: string, childId: string,
    isOne: bool, isM2M: bool)

  /** The dialect record: its name, whether it has schemas, and its serial-key test on a field. */
  datatype Dialect = Dialect(name: string, hasSchema: bool, isSerialKey: Obj -> bool)

  /**
   * Generator options. `additional` is required to be present: the
   * timestamp and paranoid tests read it without checking.
   */
  datatype Options = Options(
    lang: string,
    useDefine: bool,
    caseModel: string,
    caseProp: string,
    caseFile: string,
    singularize: bool,
    skipFields: seq<string>,
    additional: Obj,
    noIndexes: bool)

  /**
   * The naming helpers of the `types` module. `qNameSplit` yields
   * (schema, table), with "" for a missing schema.
   */
  datatype Naming = Naming(
    recase: (string, string, bool) -> string,
    qNameSplit: string -> (string, string),
    qNameJoin: (string, string) -> string,
    makeTableName: (string, string, bool, string) -> string,
    singularize: string -> string,
    pluralize: string -> string)

  /** Everything a generator run holds fixed; `space[k]` is the indentation of depth k. */
  datatype Config = Config(dialect: Dialect, options: Options, naming: Naming, space: seq<string>) {
    predicate Valid() {
      |space| >= 6
    }

    /** `recase(caseProp, field)`: the property name a column gets. */
    function PropName(field: string): string {
      naming.recase(options.caseProp, field, false)
    }
  }
}

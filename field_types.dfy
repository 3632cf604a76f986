/**
 * The type classifiers `isNumber`, `isBoolean`, `isDate`, `isString`,
 * `isArray`, `isEnum`, `isJSON` (lib/auto-generator.js:766-786) and
 * `getEnumValues` (lib/auto-generator.js:720-729). Each anchored regular
 * expression is a disjunction of prefix tests.
 */
module FieldTypes {
  import opened Text
  import opened Schema

  /** `/^(smallint|mediumint|tinyint|int|bigint|float|money|smallmoney|double|decimal|numeric|real|oid)/`. */
  predicate IsNumber(t: string) {
    || StartsWith(t, "smallint") || StartsWith(t, "mediumint") || StartsWith(t, "tinyint")
    || StartsWith(t, "int") || StartsWith(t, "bigint") || StartsWith(t, "float")
    || StartsWith(t, "money") || StartsWith(t, "smallmoney") || StartsWith(t, "double")
    || StartsWith(t, "decimal") || StartsWith(t, "numeric") || StartsWith(t, "real")
    || StartsWith(t, "oid")
  }

  /** `/^(boolean|bit)/`. */
  predicate IsBoolean(t: string) {
    StartsWith(t, "boolean") || StartsWith(t, "bit")
  }

  /** `/^(datetime|timestamp)/`. */
  predicate IsDate(t: string) {
    StartsWith(t, "datetime") || StartsWith(t, "timestamp")
  }

  /** `/^(char|nchar|string|varying|varchar|nvarchar|text|longtext|mediumtext|tinytext|ntext|uuid|uniqueidentifier|date|time|inet|cidr|macaddr)/`. */
  predicate IsString(t: string) {
    || StartsWith(t, "char") || StartsWith(t, "nchar") || StartsWith(t, "string")
    || StartsWith(t, "varying") || StartsWith(t, "varchar") || StartsWith(t, "nvarchar")
    || StartsWith(t, "text") || StartsWith(t, "longtext") || StartsWith(t, "mediumtext")
    || StartsWith(t, "tinytext") || StartsWith(t, "ntext") || StartsWith(t, "uuid")
    || StartsWith(t, "uniqueidentifier") || StartsWith(t, "date") || StartsWith(t, "time")
    || StartsWith(t, "inet") || StartsWith(t, "cidr") || StartsWith(t, "macaddr")
  }

  /** `/(^array)|(range$)/`: arrays and the postgres range types. */
  predicate IsArray(t: string) {
    StartsWith(t, "array") || EndsWith(t, "range")
  }

  /** `/^(enum)/`. */
  predicate IsEnum(t: string) {
    StartsWith(t, "enum")
  }

  /** `/^(json|jsonb)/`. */
  predicate IsJSON(t: string) {
    StartsWith(t, "json")
  }

  /** What the number classifier's prefixes fix about a type's first letters. */
  lemma NumberHead(t: string)
    ensures IsNumber(t) ==>
      && |t| >= 3
      && (t[0] == 's' || t[0] == 'm' || t[0] == 't' || t[0] == 'i' || t[0] == 'b' || t[0] == 'f'
          || t[0] == 'd' || t[0] == 'n' || t[0] == 'r' || t[0] == 'o')
      && (t[0] == 't' ==> t[2] == 'n') && (t[0] == 'i' ==> t[2] == 't')
      && (t[0] == 'm' ==> t[1] == 'e' || t[1] == 'o') && (t[0] == 'n' ==> t[1] == 'u')
      && (t[0] == 'd' ==> |t| >= 6)
  {
  }

  /** What the boolean, date and enum classifiers' prefixes fix about a type's first letters. */
  lemma OtherHeads(t: string)
    ensures IsBoolean(t) ==> |t| >= 3 && t[0] == 'b'
    ensures IsDate(t) ==> |t| >= 8 && (t[0] == 'd' || (t[0] == 't' && StartsWith(t, "timestamp")))
    ensures IsEnum(t) ==> |t| >= 4 && t[0] == 'e'
    ensures IsJSON(t) ==> |t| >= 4 && t[0] == 'j'
  {
  }

  /** What the string classifier's prefixes fix about a type's first letter. */
  lemma StringHead(t: string)
    ensures IsString(t) ==>
      && |t| >= 4
      && (t[0] == 'c' || t[0] == 'n' || t[0] == 's' || t[0] == 'v' || t[0] == 't'
          || t[0] == 'l' || t[0] == 'm' || t[0] == 'u' || t[0] == 'd' || t[0] == 'i')
  {
  }

  /** `getEnumValues` can run: a truthy `special` is a list, otherwise `type` is a string. */
  predicate EnumValuesDefined(f: Obj) {
    if Truthy(f.Get("special")) then f.Get("special").Arr? else f.Get("type").Str?
  }

  function Quoted(v: string): (r: string)
    ensures |r| == |v| + 2 && r[0] == '"' && r[|r| - 1] == '"' && r[1..|r| - 1] == v
  {
    "\"" + v + "\""
  }

  /**
   * `getEnumValues`: the postgres `special` list with each value double-quoted,
   * or else the MySQL type text between `enum(` and the closing parenthesis, cut at commas.
   */
  function EnumValues(f: Obj): (r: seq<string>)
    requires EnumValuesDefined(f)
    ensures Truthy(f.Get("special")) ==>
      |r| == |f.Get("special").items| && forall k :: 0 <= k < |r| ==> r[k] == Quoted(f.Get("special").items[k])
    ensures !Truthy(f.Get("special")) ==>
      |r| >= 1 && Join(r, ",") == Substring(f.Get("type").s, 5, |f.Get("type").s| - 1)
  {
    var special := f.Get("special");
    if Truthy(special) then Map(special.items, Quoted)
    else
      var t := f.Get("type").s;
      var inner := Substring(t, 5, |t| - 1);
      SplitJoin(inner, ',');
      Split(inner, ',')
  }

  /** The MySQL form: `enum('a','b')` gives the two quoted literals. */
  lemma MysqlEnumValues(f: Obj)
    requires !Truthy(f.Get("special")) && f.Get("type") == Str("enum('a','b')")
    ensures EnumValuesDefined(f) && EnumValues(f) == ["'a'", "'b'"]
  {
    assert Substring("enum('a','b')", 5, 12) == "'a','b'";
    SplitWithout("'b'", ',');
    SplitAtFirst("'a'", ',', "'b'");
    assert "'a'" + [','] + "'b'" == "'a','b'";
  }

  /**
   * A bare `enum` type without `special` (which the `^enum(\(.*\))?$` rule accepts)
   * yields the single value `m`: substring(5, 3) on `enum` clamps 5 to 4 and swaps, giving substring(3, 4).
   */
  lemma BareEnumYieldsM()
    ensures EnumValues(Obj(["type"], map["type" := Str("enum")])) == ["m"]
  {
    assert Substring("enum", 5, 3) == "m";
    SplitWithout("m", ',');
  }
}

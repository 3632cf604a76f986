/**
 * `getTypeScriptFieldType` (lib/auto-generator.js:687-719): the TypeScript
 * type of a field attribute, chosen by the classifiers of `FieldTypes` in a
 * fixed order: array, number, boolean, Date, string, enum, object, any.
 */
module TsTypes {
  import opened Text
  import opened Schema
  import opened FieldTypes
  import opened SqTypes

  /** `String(fieldObj[attr] || '').toLowerCase()`. */
  function TsName(v: JsValue): (ft: string)
    ensures !Truthy(v) ==> ft == ""
    ensures v.Str? ==> ft == Lower(v.s)
  {
    Lower(JsString(if Truthy(v) then v else Str("")))
  }

  /**
   * When `getTypeScriptFieldType` returns: an enum has readable values and an
   * array's element type is not itself an array (the recursion reads the same
   * `elementType` again, without end).
   */
  predicate TsTypeDefined(v: JsValue, f: Obj) {
    var ft := TsName(v);
    var eft := TsName(f.Get("elementType"));
    if IsArray(ft) then !IsArray(eft) && (IsEnum(eft) ==> EnumValuesDefined(f))
    else IsEnum(ft) ==> EnumValuesDefined(f)
  }

  /** The branches after the array test, on the lower-cased type name. */
  function ScalarTsType(ft: string, f: Obj): (r: string)
    requires !IsArray(ft) && (IsEnum(ft) ==> EnumValuesDefined(f))
    ensures !IsEnum(ft) ==> r in {"number", "boolean", "Date", "string", "object", "any"}
    ensures r == "any" ==> !IsNumber(ft) && !IsBoolean(ft) && !IsDate(ft) && !IsString(ft) && !IsJSON(ft)
    ensures !IsNumber(ft) && !IsBoolean(ft) && !IsDate(ft) && !IsString(ft) && !IsEnum(ft) && !IsJSON(ft) ==> r == "any"
  {
    if IsNumber(ft) then "number"
    else if IsBoolean(ft) then "boolean"
    else if IsDate(ft) then "Date"
    else if IsString(ft) then "string"
    else if IsEnum(ft) then Join(EnumValues(f), " | ")
    else if IsJSON(ft) then "object"
    else "any"
  }

  /** `getTypeScriptFieldType(fieldObj, attr)` for the attribute value v. */
  function TsType(v: JsValue, f: Obj): (r: string)
    requires TsTypeDefined(v, f)
    ensures IsArray(TsName(v)) ==> EndsWith(r, "[]")
    ensures !IsArray(TsName(v)) ==> r == ScalarTsType(TsName(v), f)
  {
    var ft := TsName(v);
    if IsArray(ft) then ScalarTsType(TsName(f.Get("elementType")), f) + "[]"
    else ScalarTsType(ft, f)
  }

  /** An array type is the element type, typed on its own, followed by `[]`. */
  lemma ArrayOfElement(v: JsValue, f: Obj)
    requires TsTypeDefined(v, f) && IsArray(TsName(v))
    ensures TsTypeDefined(f.Get("elementType"), f)
    ensures TsType(v, f) == TsType(f.Get("elementType"), f) + "[]"
  {
  }

  /** A missing attribute, or an empty type name, is `any`. */
  lemma MissingIsAny(v: JsValue, f: Obj)
    requires !Truthy(v)
    ensures TsTypeDefined(v, f) && TsType(v, f) == "any"
  {
    assert TsName(v) == "";
  }

  /** A type name that is not an array and that no classifier recognises is `any`. */
  lemma UnclassifiedIsAny(v: JsValue, f: Obj)
    requires !IsArray(TsName(v))
    requires var ft := TsName(v);
      !IsNumber(ft) && !IsBoolean(ft) && !IsDate(ft) && !IsString(ft) && !IsEnum(ft) && !IsJSON(ft)
    ensures TsTypeDefined(v, f) && TsType(v, f) == "any"
  {
  }

  /** `xml`, which `getSqType` leaves unmapped, is `any` in TypeScript as well. */
  lemma XmlIsAny(s: string, f: Obj)
    requires Lower(s) == "xml"
    ensures TsTypeDefined(Str(s), f) && TsType(Str(s), f) == "any"
  {
    var t := TsName(Str(s));
    assert t == "xml" && t[0] == 'x' && t[2] == 'l';
    NumberHead(t);
    StringHead(t);
    OtherHeads(t);
    UnclassifiedIsAny(Str(s), f);
  }

  /** A range type with no element type is `any[]`. */
  lemma RangeWithoutElement(s: string, f: Obj)
    requires EndsWith(Lower(s), "range") && !Truthy(f.Get("elementType"))
    ensures TsTypeDefined(Str(s), f) && TsType(Str(s), f) == "any[]"
  {
    assert TsName(f.Get("elementType")) == "";
  }

  /** A lower-case type that is a number to the classifier and not an array is `number`. */
  lemma NumberTs(t: string, f: Obj)
    requires t != "" && Lower(t) == t && IsNumber(t) && !IsArray(t)
    ensures TsTypeDefined(Str(t), f) && TsType(Str(t), f) == "number"
  {
  }

  /** The rule a numeric column is mapped by in `SqTypes`. */
  predicate NumericRule(r: SqRule) {
    r.RInteger? || r in {RReal, RFloat, RDecimal, RMoney, RSmallMoney, RDouble, ROid}
  }

  /** The numeric rules' tests each imply the number classifier. */
  lemma NumericRuleIsNumber(t: string, j: nat)
    requires j < RuleCount && Matches(t, j) && NumericRule(RuleAt(t, j))
    ensures IsNumber(t) && t[0] != 'a'
  {
    if j == 6 {
      var p := IntPrefix(t);
      assert t[..|p|] == p;
    } else if j == 19 {
      assert t[0] == 'f' || t[0] == 'd';
    } else {
      assert j in {10, 15, 16, 17, 18, 30};
      assert t[0] in "rfdnmso";
    }
  }

  /**
   * Every column `getSqType` maps to a numeric type (integer, real, float,
   * decimal, money, double, oid) is `number` in TypeScript, unless its name
   * ends in `range`.
   */
  lemma NumericColumnsAreNumbers(t: string, f: Obj)
    requires Lower(t) == t && NumericRule(SqRuleOf(t)) && !EndsWith(t, "range")
    ensures TsTypeDefined(Str(t), f) && TsType(Str(t), f) == "number"
  {
    FirstRuleMatched(t, 0);
    var j :| 0 <= j < RuleCount && Matches(t, j) && RuleAt(t, j) == SqRuleOf(t)
             && forall k :: 0 <= k < j ==> !Matches(t, k);
    NumericRuleIsNumber(t, j);
    NumberTs(t, f);
  }

  /** The rules whose columns hold text: char, date-only, time, inet, cidr, macaddr. */
  predicate TextualRule(r: SqRule) {
    r in {RChar, RDateOnly, RTime, RInet, RCidr, RMacaddr}
  }

  /** The textual rules' tests, given that no earlier rule matched, imply the string classifier alone. */
  lemma TextualRuleIsString(t: string, j: nat)
    requires j < RuleCount && Matches(t, j) && TextualRule(RuleAt(t, j))
    requires forall k :: 0 <= k < j ==> !Matches(t, k)
    ensures IsString(t) && !IsNumber(t) && !IsBoolean(t) && !IsDate(t) && !IsEnum(t) && t[0] != 'a'
  {
    if j < 20 {
      CharOrTimeIsString(t, j);
    } else {
      NetworkIsString(t, j);
    }
  }

  /** The `char`, date-only and time rules. */
  lemma CharOrTimeIsString(t: string, j: nat)
    requires j < 20 && Matches(t, j) && TextualRule(RuleAt(t, j))
    requires forall k :: 0 <= k < j ==> !Matches(t, k)
    ensures IsString(t) && !IsNumber(t) && !IsBoolean(t) && !IsDate(t) && !IsEnum(t) && t[0] != 'a'
  {
    NumberHead(t);
    OtherHeads(t);
    if j == 9 {
      assert t[0] == 'c' || (t[0] == 'n' && t[1] == 'c');
    } else if j == 12 {
      assert t[0] == 'd' && |t| == 4;
    } else {
      assert j == 14;
      assert !Matches(t, 13);
      assert t[0] == 't' && t[1] == 'i' && t[2] == 'm';
    }
  }

  /** The `inet`, `cidr` and `macaddr` rules. */
  lemma NetworkIsString(t: string, j: nat)
    requires 20 <= j < RuleCount && Matches(t, j) && TextualRule(RuleAt(t, j))
    ensures IsString(t) && !IsNumber(t) && !IsBoolean(t) && !IsDate(t) && !IsEnum(t) && t[0] != 'a'
  {
    NumberHead(t);
    OtherHeads(t);
    if j == 28 {
      assert t[0] == 'i' && t[2] == 'e';
    } else if j == 29 {
      assert t[0] == 'c' && t[1] == 'i';
    } else {
      assert j == 31;
      assert t[0] == 'm' && t[1] == 'a';
    }
  }

  /** Every column mapped to a textual type is `string` in TypeScript, unless its name ends in `range`. */
  lemma TextualColumnsAreStrings(t: string, f: Obj)
    requires Lower(t) == t && TextualRule(SqRuleOf(t)) && !EndsWith(t, "range")
    ensures TsTypeDefined(Str(t), f) && TsType(Str(t), f) == "string"
  {
    FirstRuleMatched(t, 0);
    var j :| 0 <= j < RuleCount && Matches(t, j) && RuleAt(t, j) == SqRuleOf(t)
             && forall k :: 0 <= k < j ==> !Matches(t, k);
    TextualRuleIsString(t, j);
    StringTs(t, f);
  }

  lemma StringTs(t: string, f: Obj)
    requires Lower(t) == t && !IsArray(t) && IsString(t)
    requires !IsNumber(t) && !IsBoolean(t) && !IsDate(t) && !IsEnum(t)
    ensures TsTypeDefined(Str(t), f) && TsType(Str(t), f) == "string"
  {
  }

  /** Every column mapped to JSON or JSONB is `object` in TypeScript, unless its name ends in `range`. */
  lemma JsonColumnsAreObjects(t: string, f: Obj)
    requires Lower(t) == t && SqRuleOf(t) in {RJson, RJsonb} && !EndsWith(t, "range")
    ensures TsTypeDefined(Str(t), f) && TsType(Str(t), f) == "object"
  {
    FirstRuleMatched(t, 0);
    var j :| 0 <= j < RuleCount && Matches(t, j) && RuleAt(t, j) == SqRuleOf(t);
    JsonClassified(t, j);
    ObjectTs(t, f);
  }

  lemma JsonClassified(t: string, j: nat)
    requires j < RuleCount && Matches(t, j) && RuleAt(t, j) in {RJson, RJsonb}
    ensures IsJSON(t) && !IsNumber(t) && !IsBoolean(t) && !IsDate(t) && !IsString(t) && !IsEnum(t) && t[0] != 'a'
  {
    NumberHead(t);
    StringHead(t);
    OtherHeads(t);
    assert j == 21 || j == 22;
    assert t[0] == 'j';
  }

  lemma ObjectTs(t: string, f: Obj)
    requires t != "" && Lower(t) == t && !IsArray(t)
    requires IsJSON(t) && !IsNumber(t) && !IsBoolean(t) && !IsDate(t) && !IsString(t) && !IsEnum(t)
    ensures TsTypeDefined(Str(t), f) && TsType(Str(t), f) == "object"
  {
  }

  /** A name starting with `b` but not `big`, and not ending in `e`, is neither a number nor an array. */
  lemma NotNumberOrArray(t: string)
    requires |t| >= 3 && t[0] == 'b' && t[2] != 'g' && t[|t| - 1] != 'e'
    ensures !IsNumber(t) && !IsArray(t)
  {
  }

  lemma BooleanClassified(t: string)
    requires t == "boolean" || t == "bit(1)" || t == "bit"
    ensures Lower(t) == t && !IsArray(t) && !IsNumber(t) && IsBoolean(t)
  {
    if t == "boolean" {
      LowerKeeps(t);
      assert t[0] == 'b' && t[2] == 'o' && t[6] == 'n';
    } else if t == "bit" {
      LowerKeeps(t);
      assert t[0] == 'b' && t[2] == 't';
    } else {
      LowerKeeps(t);
      assert t[0] == 'b' && t[2] == 't' && t[5] == ')';
    }
    NotNumberOrArray(t);
  }

  lemma BooleanTs(t: string, f: Obj)
    requires t != "" && Lower(t) == t && !IsArray(t) && !IsNumber(t) && IsBoolean(t)
    ensures TsTypeDefined(Str(t), f) && TsType(Str(t), f) == "boolean"
  {
  }

  /** `boolean`, `bit(1)` and `bit` are `boolean` in TypeScript. */
  lemma BooleanSpellingsTs(t: string, f: Obj)
    requires t == "boolean" || t == "bit(1)" || t == "bit"
    ensures TsTypeDefined(Str(t), f) && TsType(Str(t), f) == "boolean"
  {
    BooleanClassified(t);
    BooleanTs(t, f);
  }

  /** `tinyint(1)` is `number` in TypeScript: the number classifier comes before the boolean one. */
  lemma TinyintOneTs(t: string, f: Obj)
    requires t == "tinyint(1)"
    ensures TsTypeDefined(Str(t), f) && TsType(Str(t), f) == "number"
  {
    LowerKeeps(t);
    assert t[..7] == "tinyint";
    assert t[0] == 't' && t[9] == ')';
    NumberTs(t, f);
  }

  /** Only the four boolean spellings are decided by the boolean rule. */
  lemma BooleanRuleSpellings(t: string)
    requires SqRuleOf(t) == RBoolean
    ensures t == "boolean" || t == "bit(1)" || t == "bit" || t == "tinyint(1)"
  {
    FirstRuleMatched(t, 0);
    var j :| 0 <= j < RuleCount && Matches(t, j) && RuleAt(t, j) == SqRuleOf(t);
    BooleanRuleFirst(t, j);
  }

  /** Only the first rule yields BOOLEAN. */
  lemma BooleanRuleFirst(t: string, j: nat)
    requires j < RuleCount && RuleAt(t, j) == RBoolean
    ensures j == 0
  {
  }

  /**
   * The BOOLEAN columns are `boolean` in TypeScript, except `tinyint(1)`,
   * which `getSqType` maps to BOOLEAN but the TypeScript mapping calls `number`.
   */
  lemma BooleanColumns(t: string, f: Obj)
    requires SqRuleOf(t) == RBoolean
    ensures TsTypeDefined(Str(t), f)
    ensures TsType(Str(t), f) == if t == "tinyint(1)" then "number" else "boolean"
  {
    BooleanRuleSpellings(t);
    if t == "tinyint(1)" {
      TinyintOneTs(t, f);
    } else {
      BooleanSpellingsTs(t, f);
    }
  }

  lemma EnumTs(t: string, f: Obj)
    requires t != "" && Lower(t) == t && EnumValuesDefined(f)
    requires IsEnum(t) && !IsArray(t) && !IsNumber(t) && !IsBoolean(t) && !IsDate(t) && !IsString(t)
    ensures TsTypeDefined(Str(t), f) && TsType(Str(t), f) == Join(EnumValues(f), " | ")
  {
  }

  lemma EnumNameLower(t: string)
    requires t == "enum('a','b')"
    ensures Lower(t) == t
  {
    LowerKeeps(t);
  }

  lemma EnumNameClassified(t: string)
    requires t == "enum('a','b')"
    ensures !IsNumber(t) && !IsBoolean(t) && !IsDate(t) && !IsString(t)
  {
    NumberHead(t);
    StringHead(t);
    OtherHeads(t);
    assert t[0] == 'e';
  }

  lemma EnumNameNotArray(t: string)
    requires t == "enum('a','b')"
    ensures IsEnum(t) && !IsArray(t)
  {
    assert t[0] == 'e' && t[12] == ')';
  }

  lemma MysqlEnumTs(t: string, f: Obj)
    requires t == "enum('a','b')" && !Truthy(f.Get("special")) && f.Get("type") == Str(t)
    ensures TsTypeDefined(Str(t), f) && TsType(Str(t), f) == Join(["'a'", "'b'"], " | ")
  {
    MysqlEnumValues(f);
    EnumNameLower(t);
    EnumNameClassified(t);
    EnumNameNotArray(t);
    EnumTs(t, f);
  }

  /** The MySQL enum `enum('a','b')` is the union of its two literals. */
  lemma MysqlEnumUnion(t: string, f: Obj)
    requires t == "enum('a','b')" && !Truthy(f.Get("special")) && f.Get("type") == Str(t)
    ensures TsTypeDefined(Str(t), f) && TsType(Str(t), f) == "'a' | 'b'"
  {
    MysqlEnumTs(t, f);
    TwoLiteralUnion();
  }

  lemma TwoLiteralUnion()
    ensures Join(["'a'", "'b'"], " | ") == "'a' | 'b'"
  {
    JoinTwo("'a'", "'b'", " | ");
  }

  lemma JoinTwo(a: string, b: string, sep: string)
    ensures Join([a, b], sep) == a + sep + b
  {
    assert [a, b][1..] == [b];
  }
}

/**
 * `getSqType` (lib/auto-generator.js:421-544): the raw column type,
 * lower-cased, is matched against an ordered list of rules; the first rule
 * that matches decides the `DataTypes.*` expression. The rule chosen is
 * given by `SqRuleOf`, its rendering by `SqType`.
 */
module SqTypes {
  import opened Text
  import opened Schema
  import opened FieldTypes

  datatype SqRule =
    | RBoolean
    | RRange(inner: string)
    | RInteger(prefix: string)
    | RMaxText
    | RString
    | RChar
    | RReal
    | RText
    | RDateOnly
    | RDate
    | RTime
    | RFloat
    | RDecimal
    | RMoney
    | RSmallMoney
    | RDouble
    | RUuid
    | RJsonb
    | RJson
    | RGeometry
    | RGeography
    | RArray
    | RBlob
    | RHstore
    | RInet
    | RCidr
    | ROid
    | RMacaddr
    | REnum
    | RNone

  /** The text matched by `/^(bigint|smallint|mediumint|tinyint|int)/`, or "" when it does not match. */
  function IntPrefix(t: string): (p: string)
    ensures p == "" || StartsWith(t, p)
    ensures p == "" <==> !(StartsWith(t, "bigint") || StartsWith(t, "smallint") || StartsWith(t, "mediumint")
                           || StartsWith(t, "tinyint") || StartsWith(t, "int"))
  {
    if StartsWith(t, "bigint") then "bigint"
    else if StartsWith(t, "smallint") then "smallint"
    else if StartsWith(t, "mediumint") then "mediumint"
    else if StartsWith(t, "tinyint") then "tinyint"
    else if StartsWith(t, "int") then "int"
    else ""
  }

  predicate IsLineTerminator(c: char) {
    c == '\n' || c == '\r' || c == '\U{2028}' || c == '\U{2029}'
  }

  /** `/^enum(\(.*\))?$/`: `.` does not cross a line terminator. */
  predicate IsEnumShape(t: string) {
    || t == "enum"
    || (&& |t| >= 6 && StartsWith(t, "enum(") && t[|t| - 1] == ')'
        && forall k :: 5 <= k < |t| - 1 ==> !IsLineTerminator(t[k]))
  }

  /** Number of rules in the ordered rule table. */
  const RuleCount: nat := 33

  /** The test of rule i of the ordered table, on a lower-cased type. */
  predicate Matches(t: string, i: nat) {
    if i == 0 then t == "boolean" || t == "bit(1)" || t == "bit" || t == "tinyint(1)"
    else if i == 1 then t == "numrange"
    else if i == 2 then t == "int4range"
    else if i == 3 then t == "int8range"
    else if i == 4 then t == "daterange"
    else if i == 5 then t == "tsrange" || t == "tstzrange"
    else if i == 6 then IntPrefix(t) != ""
    else if i == 7 then t == "nvarchar(max)" || t == "varchar(max)"
    else if i == 8 then Contains(t, "varchar") || Contains(t, "string") || Contains(t, "varying")
    else if i == 9 then StartsWith(t, "char") || StartsWith(t, "nchar")
    else if i == 10 then StartsWith(t, "real")
    else if i == 11 then EndsWith(t, "text")
    else if i == 12 then t == "date"
    else if i == 13 then StartsWith(t, "date") || StartsWith(t, "timestamp") || StartsWith(t, "year")
    else if i == 14 then StartsWith(t, "time")
    else if i == 15 then StartsWith(t, "float")
    else if i == 16 then StartsWith(t, "decimal") || StartsWith(t, "numeric")
    else if i == 17 then StartsWith(t, "money")
    else if i == 18 then StartsWith(t, "smallmoney")
    else if i == 19 then StartsWith(t, "float8") || StartsWith(t, "double")
    else if i == 20 then StartsWith(t, "uuid") || Contains(t, "uniqueidentifier")
    else if i == 21 then StartsWith(t, "jsonb")
    else if i == 22 then StartsWith(t, "json")
    else if i == 23 then StartsWith(t, "geometry")
    else if i == 24 then StartsWith(t, "geography")
    else if i == 25 then StartsWith(t, "array")
    else if i == 26 then Contains(t, "binary") || Contains(t, "image") || Contains(t, "blob") || Contains(t, "bytea")
    else if i == 27 then StartsWith(t, "hstore")
    else if i == 28 then StartsWith(t, "inet")
    else if i == 29 then StartsWith(t, "cidr")
    else if i == 30 then StartsWith(t, "oid")
    else if i == 31 then StartsWith(t, "macaddr")
    else if i == 32 then IsEnumShape(t)
    else false
  }

  /** What rule i of the table yields. */
  function RuleAt(t: string, i: nat): (r: SqRule)
    requires i < RuleCount
    ensures r != RNone
  {
    if i == 0 then RBoolean
    else if i == 1 then RRange("DataTypes.DECIMAL")
    else if i == 2 then RRange("DataTypes.INTEGER")
    else if i == 3 then RRange("DataTypes.BIGINT")
    else if i == 4 then RRange("DataTypes.DATEONLY")
    else if i == 5 then RRange("DataTypes.DATE")
    else if i == 6 then RInteger(IntPrefix(t))
    else if i == 7 then RMaxText
    else if i == 8 then RString
    else if i == 9 then RChar
    else if i == 10 then RReal
    else if i == 11 then RText
    else if i == 12 then RDateOnly
    else if i == 13 then RDate
    else if i == 14 then RTime
    else if i == 15 then RFloat
    else if i == 16 then RDecimal
    else if i == 17 then RMoney
    else if i == 18 then RSmallMoney
    else if i == 19 then RDouble
    else if i == 20 then RUuid
    else if i == 21 then RJsonb
    else if i == 22 then RJson
    else if i == 23 then RGeometry
    else if i == 24 then RGeography
    else if i == 25 then RArray
    else if i == 26 then RBlob
    else if i == 27 then RHstore
    else if i == 28 then RInet
    else if i == 29 then RCidr
    else if i == 30 then ROid
    else if i == 31 then RMacaddr
    else REnum
  }

  /** The first rule from i on whose test holds, or RNone. */
  function FirstRule(t: string, i: nat): (r: SqRule)
    decreases RuleCount - i
  {
    if i >= RuleCount then RNone
    else if Matches(t, i) then RuleAt(t, i)
    else FirstRule(t, i + 1)
  }

  /** The rule that decides the type of a lower-cased raw type, first match first. */
  function SqRuleOf(t: string): SqRule {
    FirstRule(t, 0)
  }

  /** First match wins: rule j decides when no earlier rule matches and rule j does. */
  lemma {:induction false} FirstRuleIs(t: string, i: nat, j: nat)
    requires i <= j < RuleCount && Matches(t, j)
    requires forall k :: i <= k < j ==> !Matches(t, k)
    ensures FirstRule(t, i) == RuleAt(t, j)
    decreases j - i
  {
    if i < j {
      FirstRuleIs(t, i + 1, j);
    }
  }

  /** A rule is chosen only when its test holds and no earlier test does. */
  lemma {:induction false} FirstRuleMatched(t: string, i: nat)
    requires FirstRule(t, i) != RNone
    ensures exists j :: i <= j < RuleCount && Matches(t, j) && RuleAt(t, j) == FirstRule(t, i)
                        && forall k :: i <= k < j ==> !Matches(t, k)
    decreases RuleCount - i
  {
    if !Matches(t, i) {
      FirstRuleMatched(t, i + 1);
      var j :| i + 1 <= j < RuleCount && Matches(t, j) && RuleAt(t, j) == FirstRule(t, i + 1)
               && forall k :: i + 1 <= k < j ==> !Matches(t, k);
      assert forall k :: i <= k < j ==> !Matches(t, k);
    }
  }

  /** No rule matches: the type is unmapped. */
  lemma {:induction false} FirstRuleNone(t: string, i: nat)
    requires forall k :: i <= k < RuleCount ==> !Matches(t, k)
    ensures FirstRule(t, i) == RNone
    decreases RuleCount - i
  {
    if i < RuleCount {
      FirstRuleNone(t, i + 1);
    }
  }

  /** Number of leading decimal digits. */
  function DigitRun(s: string): (n: nat)
    ensures n <= |s| && (forall k :: 0 <= k < n ==> IsDigit(s[k])) && (n == |s| || !IsDigit(s[n]))
  {
    if s != [] && IsDigit(s[0]) then 1 + DigitRun(s[1..]) else 0
  }

  /** Length of a `\(\d+\)` match at the start of s, 0 when there is none. */
  function ParenNumAt(s: string): nat {
    if |s| > 0 && s[0] == '(' then
      var d := DigitRun(s[1..]);
      if d >= 1 && 1 + d < |s| && s[1 + d] == ')' then d + 2 else 0
    else 0
  }

  /** Length of a `\(\d+,\d+\)` match at the start of s, 0 when there is none. */
  function ParenPairAt(s: string): nat {
    if |s| > 0 && s[0] == '(' then
      var d1 := DigitRun(s[1..]);
      if d1 >= 1 && 1 + d1 < |s| && s[1 + d1] == ',' then
        var d2 := DigitRun(s[2 + d1..]);
        if d2 >= 1 && 2 + d1 + d2 < |s| && s[2 + d1 + d2] == ')' then d1 + d2 + 3 else 0
      else 0
    else 0
  }

  predicate IsParenNum(m: string) {
    |m| >= 3 && m[0] == '(' && m[|m| - 1] == ')' && forall k :: 0 < k < |m| - 1 ==> IsDigit(m[k])
  }

  /** `type.match(/\(\d+\)/)` as text: the leftmost `(digits)`, or "" when there is none. */
  function LengthOf(t: string): (m: string)
    ensures m == "" || IsParenNum(m)
  {
    if t == [] then ""
    else if ParenNumAt(t) > 0 then t[..ParenNumAt(t)]
    else LengthOf(t[1..])
  }

  /** `type.match(/\(\d+,\d+\)/)` as text: the leftmost `(digits,digits)`, or "". */
  function PrecisionOf(t: string): (m: string)
    ensures m == "" || (|m| >= 5 && m[0] == '(' && m[|m| - 1] == ')')
  {
    if t == [] then ""
    else if ParenPairAt(t) > 0 then t[..ParenPairAt(t)]
    else PrecisionOf(t[1..])
  }

  /** `typematch[0]`: `int` becomes INTEGER, the other prefixes their upper-case name. */
  function IntegerName(prefix: string): string {
    if prefix == "int" then "INTEGER" else Upper(prefix)
  }

  /** `.UNSIGNED` then `.ZEROFILL`, each when its word occurs anywhere in the type. */
  function IntegerModifiers(t: string): string {
    (if Contains(t, "unsigned") then ".UNSIGNED" else "") + (if Contains(t, "zerofill") then ".ZEROFILL" else "")
  }

  /** `'DataTypes.' + name`. */
  function DataType(name: string): (r: JsValue)
    ensures r.Str? && StartsWith(r.s, "DataTypes.") && r.s[10..] == name
  {
    Str("DataTypes." + name)
  }

  /** The rendering of every rule but the array rule; RNone renders as null. */
  function RenderRule(rule: SqRule, t: string, f: Obj): (r: JsValue)
    requires rule != RArray
    requires rule == REnum ==> EnumValuesDefined(f)
    ensures r == Null <==> rule == RNone
    ensures r != Null ==> r.Str? && StartsWith(r.s, "DataTypes.")
  {
    var et := f.Get("elementType");
    match rule
    case RBoolean => DataType("BOOLEAN")
    case RRange(inner) => DataType("RANGE(" + inner + ")")
    case RInteger(p) => DataType(IntegerName(p) + IntegerModifiers(t))
    case RMaxText => DataType("TEXT")
    case RString => DataType("STRING" + LengthOf(t))
    case RChar => DataType("CHAR" + LengthOf(t))
    case RReal => DataType("REAL")
    case RText => DataType("TEXT" + LengthOf(t))
    case RDateOnly => DataType("DATEONLY")
    case RDate => DataType("DATE" + LengthOf(t))
    case RTime => DataType("TIME")
    case RFloat => DataType("FLOAT" + PrecisionOf(t))
    case RDecimal => DataType("DECIMAL" + PrecisionOf(t))
    case RMoney => DataType("DECIMAL(19,4)")
    case RSmallMoney => DataType("DECIMAL(10,4)")
    case RDouble => DataType("DOUBLE" + PrecisionOf(t))
    case RUuid => DataType("UUID")
    case RJsonb => DataType("JSONB")
    case RJson => DataType("JSON")
    case RGeometry => DataType("GEOMETRY" + (if Truthy(et) then "(" + JsString(et) + ")" else ""))
    case RGeography => DataType("GEOGRAPHY" + (if Truthy(et) then "(" + JsString(et) + ")" else ""))
    case RBlob => DataType("BLOB")
    case RHstore => DataType("HSTORE")
    case RInet => DataType("INET")
    case RCidr => DataType("CIDR")
    case ROid => DataType("INTEGER")
    case RMacaddr => DataType("MACADDR")
    case REnum => DataType("ENUM(" + Join(EnumValues(f), ",") + ")")
    case RNone => Null
  }

  function RuleOfValue(v: JsValue): SqRule {
    if v.Str? then SqRuleOf(Lower(v.s)) else RNone
  }

  /**
   * When `getSqType(fieldObj, attr)` returns at all: the attribute is not null
   * or undefined (its `toLowerCase` is read), an enum has readable values, and
   * an array's `elementType` is itself present and not an array type (the
   * recursion reads the same `elementType` again, without end).
   */
  predicate SqTypeDefined(v: JsValue, f: Obj) {
    var e := f.Get("elementType");
    && !IsNullish(v)
    && (RuleOfValue(v) == REnum ==> EnumValuesDefined(f))
    && (RuleOfValue(v) == RArray ==>
          !IsNullish(e) && RuleOfValue(e) != RArray && (RuleOfValue(e) == REnum ==> EnumValuesDefined(f)))
  }

  /**
   * `getSqType(fieldObj, "elementType")` as the array rule calls it: the
   * element type is not itself an array type, so the recursion stops here.
   */
  function ElementSqType(e: JsValue, f: Obj): (r: JsValue)
    requires !IsNullish(e) && RuleOfValue(e) != RArray && (RuleOfValue(e) == REnum ==> EnumValuesDefined(f))
    ensures !e.Str? ==> r == e
    ensures e.Str? ==> (r == Null <==> RuleOfValue(e) == RNone)
  {
    if !e.Str? then e else RenderRule(RuleOfValue(e), Lower(e.s), f)
  }

  /**
   * `getSqType(fieldObj, attr)` applied to the attribute value v: a value
   * without `toLowerCase` comes back as it is; an unmatched type is null.
   */
  function SqType(v: JsValue, f: Obj): (r: JsValue)
    requires SqTypeDefined(v, f)
    ensures !v.Str? ==> r == v
    ensures v.Str? ==> (r == Null <==> RuleOfValue(v) == RNone)
    ensures v.Str? && r != Null ==> r.Str? && StartsWith(r.s, "DataTypes.")
  {
    if !v.Str? then v
    else if RuleOfValue(v) == RArray then
      DataType("ARRAY(" + JsString(ElementSqType(f.Get("elementType"), f)) + ")")
    else RenderRule(RuleOfValue(v), Lower(v.s), f)
  }

  /** Matching ignores case: a type and its lower-cased spelling map alike. */
  lemma SqTypeIgnoresCase(s: string, f: Obj)
    requires SqTypeDefined(Str(s), f)
    ensures SqTypeDefined(Str(Lower(s)), f)
    ensures SqType(Str(s), f) == SqType(Str(Lower(s)), f)
  {
    LowerIdempotent(s);
  }

  /** A type decided by a rule other than array or enum renders by that rule alone. */
  lemma SqTypeByRule(s: string, f: Obj, rule: SqRule)
    requires RuleOfValue(Str(s)) == rule && rule != RArray && rule != REnum
    ensures SqTypeDefined(Str(s), f) && SqType(Str(s), f) == RenderRule(rule, Lower(s), f)
  {
  }

  lemma RenderBoolean(t: string, f: Obj)
    ensures RenderRule(RBoolean, t, f) == DataType("BOOLEAN")
  {
  }

  lemma RenderMaxText(t: string, f: Obj)
    ensures RenderRule(RMaxText, t, f) == DataType("TEXT")
  {
  }

  lemma RenderInteger(p: string, t: string, f: Obj)
    ensures RenderRule(RInteger(p), t, f) == DataType(IntegerName(p) + IntegerModifiers(t))
  {
  }

  lemma RenderString(t: string, f: Obj)
    ensures RenderRule(RString, t, f) == DataType("STRING" + LengthOf(t))
  {
  }

  /** Each of the four boolean spellings is BOOLEAN, whatever the field holds. */
  lemma BooleanSpelling(t: string, f: Obj)
    requires t == "boolean" || t == "bit(1)" || t == "bit" || t == "tinyint(1)"
    ensures SqTypeDefined(Str(t), f) && SqType(Str(t), f) == DataType("BOOLEAN")
  {
    BooleanText(t);
    BooleanRule(t);
    assert RuleOfValue(Str(t)) == RBoolean;
    SqTypeByRule(t, f, RBoolean);
    RenderBoolean(t, f);
  }

  lemma BooleanText(t: string)
    requires t == "boolean" || t == "bit(1)" || t == "bit" || t == "tinyint(1)"
    ensures Lower(t) == t
  {
    LowerKeeps(t);
  }

  lemma BooleanRule(t: string)
    requires t == "boolean" || t == "bit(1)" || t == "bit" || t == "tinyint(1)"
    ensures SqRuleOf(t) == RBoolean
  {
    assert Matches(t, 0);
    FirstRuleIs(t, 0, 0);
  }

  /** The boolean rule comes first: `tinyint(1)` is BOOLEAN though the integer rule matches it too. */
  lemma BooleanBeforeInteger(t: string, f: Obj)
    requires t == "tinyint(1)"
    ensures Matches(t, 6) && IntPrefix(t) == "tinyint"
    ensures SqTypeDefined(Str(t), f) && SqType(Str(t), f) == DataType("BOOLEAN")
  {
    assert t[..7] == "tinyint";
    BooleanSpelling(t, f);
  }

  /** A type with an integer prefix, other than `tinyint(1)` and the two int ranges, is decided by the integer rule. */
  lemma IntegerRule(t: string)
    requires IntPrefix(t) != "" && t != "tinyint(1)" && t != "int4range" && t != "int8range"
    ensures SqRuleOf(t) == RInteger(IntPrefix(t))
  {
    IntPrefixHead(t);
    assert !Matches(t, 0) && !Matches(t, 1) && !Matches(t, 4) && !Matches(t, 5);
    FirstRuleIs(t, 0, 6);
  }

  /** The first letters an integer prefix fixes. */
  lemma IntPrefixHead(t: string)
    requires IntPrefix(t) != ""
    ensures |t| >= 3
    ensures || (t[0] == 'b' && t[1] == 'i' && t[2] == 'g') || (t[0] == 's' && t[1] == 'm')
            || (t[0] == 'm' && t[1] == 'e') || (t[0] == 't' && t[1] == 'i') || (t[0] == 'i' && t[1] == 'n')
  {
    var p := IntPrefix(t);
    assert t[..|p|] == p;
  }

  /** Only the `int` prefix fits a type starting with `int`. */
  lemma IntPrefixOfInt(t: string)
    requires StartsWith(t, "int")
    ensures IntPrefix(t) == "int"
  {
    assert t[0] == 'i';
    assert !StartsWith(t, "bigint") && !StartsWith(t, "smallint");
    assert !StartsWith(t, "mediumint") && !StartsWith(t, "tinyint");
  }

  /** A type starting with one of the other integer prefixes has that prefix, and does not start with `i`. */
  lemma IntPrefixOfOther(t: string, p: string)
    requires p == "bigint" || p == "smallint" || p == "mediumint" || p == "tinyint"
    requires StartsWith(t, p)
    ensures IntPrefix(t) == p && t[0] != 'i'
  {
    assert t[0] == p[0] && t[1] == p[1];
    if p != "bigint" {
      assert !StartsWith(t, "bigint");
      if p != "smallint" {
        assert !StartsWith(t, "smallint");
        if p != "mediumint" {
          assert !StartsWith(t, "mediumint");
        }
      }
    }
  }

  /** A lower-case type starting with `int`, other than the two range types, is INTEGER with its modifiers. */
  lemma IntegerFamily(t: string, f: Obj)
    requires Lower(t) == t && StartsWith(t, "int") && t != "int4range" && t != "int8range"
    ensures SqTypeDefined(Str(t), f)
    ensures SqType(Str(t), f) == DataType("INTEGER" + IntegerModifiers(t))
  {
    IntPrefixOfInt(t);
    IntegerRule(t);
    assert RuleOfValue(Str(t)) == RInteger("int");
    SqTypeByRule(t, f, RInteger("int"));
    RenderInteger("int", t, f);
  }

  lemma OtherIntegerRule(t: string, p: string)
    requires p == "bigint" || p == "smallint" || p == "mediumint" || p == "tinyint"
    requires Lower(t) == t && StartsWith(t, p) && t != "tinyint(1)"
    ensures RuleOfValue(Str(t)) == RInteger(p)
  {
    IntPrefixOfOther(t, p);
    assert t != "int4range" && t != "int8range";
    IntegerRule(t);
  }

  /** The other integer prefixes give their upper-cased name with the same modifiers. */
  lemma IntegerPrefixes(t: string, p: string, f: Obj)
    requires p == "bigint" || p == "smallint" || p == "mediumint" || p == "tinyint"
    requires Lower(t) == t && StartsWith(t, p) && t != "tinyint(1)"
    ensures SqTypeDefined(Str(t), f)
    ensures SqType(Str(t), f) == DataType(Upper(p) + IntegerModifiers(t))
  {
    OtherIntegerRule(t, p);
    SqTypeByRule(t, f, RInteger(p));
    RenderInteger(p, t, f);
    assert IntegerName(p) == Upper(p) by { assert |p| > 3; }
  }

  predicate AllDigits(d: string) {
    forall k :: 0 <= k < |d| ==> IsDigit(d[k])
  }

  lemma {:induction false} LowerKeeps(s: string)
    requires forall k :: 0 <= k < |s| ==> !('A' <= s[k] <= 'Z')
    ensures Lower(s) == s
  {
  }

  lemma {:induction false} DigitRunOf(d: string, rest: string)
    requires AllDigits(d) && (rest == [] || !IsDigit(rest[0]))
    ensures DigitRun(d + rest) == |d|
    decreases |d|
  {
    if d != [] {
      assert (d + rest)[1..] == d[1..] + rest;
      DigitRunOf(d[1..], rest);
    } else {
      assert d + rest == rest;
    }
  }

  /** The leftmost `(digits)` of a text without `(` before it is found after that text. */
  lemma {:induction false} LengthAfter(w: string, d: string)
    requires '(' !in w && |d| > 0 && AllDigits(d)
    ensures LengthOf(w + "(" + d + ")") == "(" + d + ")"
    decreases |w|
  {
    var s := w + "(" + d + ")";
    if w == [] {
      assert s == "(" + d + ")";
      assert s[1..] == d + ")";
      DigitRunOf(d, ")");
      assert ParenNumAt(s) == |d| + 2;
      assert s[..|d| + 2] == s;
    } else {
      assert s[0] == w[0] && w[0] != '(';
      assert ParenNumAt(s) == 0;
      assert s[1..] == w[1..] + "(" + d + ")";
      LengthAfter(w[1..], d);
    }
  }

  /** A `varchar` type other than the `(max)` forms is decided by the string rule. */
  lemma VarcharRule(t: string)
    requires StartsWith(t, "varchar") && t != "varchar(max)"
    ensures SqRuleOf(t) == RString
  {
    assert t[0] == 'v';
    assert forall k :: 0 <= k < 7 ==> !Matches(t, k);
    ContainsAt(t, "varchar", 0);
    FirstRuleIs(t, 0, 8);
  }

  /** `varchar(n)` keeps its length: `DataTypes.STRING(n)`. */
  lemma VarcharKeepsLength(t: string, d: string, f: Obj)
    requires |d| > 0 && AllDigits(d) && t == "varchar(" + d + ")"
    ensures SqTypeDefined(Str(t), f)
    ensures SqType(Str(t), f) == DataType("STRING(" + d + ")")
  {
    assert t == "varchar" + "(" + d + ")";
    assert t[..7] == "varchar";
    assert t != "varchar(max)" by { assert t[8] != 'm'; }
    LowerKeeps(t);
    LengthAfter("varchar", d);
    VarcharRule(t);
    assert RuleOfValue(Str(t)) == RString;
    SqTypeByRule(t, f, RString);
    RenderString(t, f);
    assert LengthOf(t) == "(" + d + ")";
    AppendAssoc("STRING", "(" + d, ")");
    AppendAssoc("STRING", "(", d);
    assert "STRING" + "(" == "STRING(";
  }

  lemma MaxSpelling(t: string, f: Obj)
    requires t == "varchar(max)" || t == "nvarchar(max)"
    ensures SqRuleOf(t) == RMaxText
    ensures SqTypeDefined(Str(t), f) && SqType(Str(t), f) == DataType("TEXT")
  {
    MaxText(t);
    MaxRule(t);
    assert RuleOfValue(Str(t)) == RMaxText;
    SqTypeByRule(t, f, RMaxText);
    RenderMaxText(t, f);
  }

  lemma MaxText(t: string)
    requires t == "varchar(max)" || t == "nvarchar(max)"
    ensures Lower(t) == t
  {
    LowerKeeps(t);
  }

  lemma MaxRule(t: string)
    requires t == "varchar(max)" || t == "nvarchar(max)"
    ensures SqRuleOf(t) == RMaxText
  {
    assert |t| >= 12 && (t[0] == 'v' || (t[0] == 'n' && t[1] == 'v'));
    assert forall k :: 0 <= k < 7 ==> !Matches(t, k);
    assert Matches(t, 7);
    FirstRuleIs(t, 0, 7);
  }

  /** `varchar(max)` and `nvarchar(max)`, in any case, are unbounded TEXT. */
  lemma VarcharMaxIsText(s: string, f: Obj)
    requires Lower(s) == "varchar(max)" || Lower(s) == "nvarchar(max)"
    ensures SqTypeDefined(Str(s), f) && SqType(Str(s), f) == DataType("TEXT")
  {
    var t := Lower(s);
    MaxSpelling(t, f);
    assert RuleOfValue(Str(s)) == RMaxText;
    SqTypeByRule(s, f, RMaxText);
    RenderMaxText(t, f);
  }

  /**
   * The rules before `float` other than the substring and suffix tests: each
   * is a prefix or a whole spelling, so a type whose first letter begins none
   * of them matches none.
   */
  lemma EarlyPrefixMiss(t: string, k: nat)
    requires k < 15 && k != 8 && k != 11
    requires |t| > 0 && t[0] !in "bcdimnrstvy"
    ensures !Matches(t, k)
  {
  }

  /** The same for the prefix rules from `float` to `json`. */
  lemma LatePrefixMiss(t: string, k: nat)
    requires 15 <= k < 23 && k != 20
    requires |t| > 0 && t[0] !in "dfjmns"
    ensures !Matches(t, k)
  {
  }

  /** The substring and suffix tests before the geometry rule. */
  lemma InnerMiss(t: string)
    requires 'v' !in t && 's' !in t && 'u' !in t && |t| > 0 && t[|t| - 1] != 't'
    ensures !Matches(t, 8) && !Matches(t, 11) && !Matches(t, 20)
  {
    NotContainsChar(t, "varchar", 'v');
    NotContainsChar(t, "string", 's');
    NotContainsChar(t, "varying", 'v');
    NotContainsChar(t, "uniqueidentifier", 'u');
    assert !StartsWith(t, "uuid") by {
      assert t[0] != 'u';
    }
    assert !EndsWith(t, "text") by {
      assert |t| < 4 || t[|t| - 4..][3] != 't';
    }
  }

  /** The double rule's `float8` alternative is shadowed: `^float` matches first. */
  lemma Float8Rule(t: string)
    requires t == "float8"
    ensures Matches(t, 19) && SqRuleOf(t) == RFloat
  {
    assert t[0] == 'f' && t[5] == '8';
    InnerMiss(t);
    forall k | 0 <= k < 15
      ensures !Matches(t, k)
    {
      if k != 8 && k != 11 {
        EarlyPrefixMiss(t, k);
      }
    }
    FirstRuleIs(t, 0, 15);
  }

  /** So `float8`, postgres' double precision, is rendered FLOAT and never DOUBLE. */
  lemma Float8IsFloat(t: string, f: Obj)
    requires t == "float8"
    ensures SqTypeDefined(Str(t), f) && SqType(Str(t), f) == DataType("FLOAT")
  {
    Float8Value(t);
    SqTypeByRule(t, f, RFloat);
    RenderFloat(t, f);
    AppendEmpty("FLOAT");
  }

  lemma Float8Value(t: string)
    requires t == "float8"
    ensures Lower(t) == t && RuleOfValue(Str(t)) == RFloat && PrecisionOf(t) == ""
  {
    Float8Text(t);
    Float8Rule(t);
  }

  lemma Float8Text(t: string)
    requires t == "float8"
    ensures Lower(t) == t && PrecisionOf(t) == ""
  {
    LowerKeeps(t);
    PrecisionNone(t);
  }

  lemma RenderFloat(t: string, f: Obj)
    ensures RenderRule(RFloat, t, f) == DataType("FLOAT" + PrecisionOf(t))
  {
  }

  /** Text without `(` has no precision suffix. */
  lemma {:induction false} PrecisionNone(t: string)
    requires '(' !in t
    ensures PrecisionOf(t) == ""
  {
    if t != [] {
      PrecisionNone(t[1..]);
    }
  }

  /** No rule matches `xml`. */
  lemma XmlRule(t: string)
    requires t == "xml"
    ensures SqRuleOf(t) == RNone
  {
    assert t[0] == 'x';
    NotContainsChar(t, "varchar", 'v');
    NotContainsChar(t, "string", 's');
    NotContainsChar(t, "varying", 'v');
    NotContainsChar(t, "uniqueidentifier", 'u');
    NotContainsChar(t, "binary", 'b');
    NotContainsChar(t, "image", 'i');
    NotContainsChar(t, "blob", 'b');
    NotContainsChar(t, "bytea", 'b');
    assert !Matches(t, 0) && !Matches(t, 1) && !Matches(t, 2) && !Matches(t, 3);
    assert !Matches(t, 4) && !Matches(t, 5) && !Matches(t, 6) && !Matches(t, 7);
    assert !Matches(t, 8) && !Matches(t, 9) && !Matches(t, 10) && !Matches(t, 11);
    assert !Matches(t, 12) && !Matches(t, 13) && !Matches(t, 14) && !Matches(t, 15);
    assert !Matches(t, 16) && !Matches(t, 17) && !Matches(t, 18) && !Matches(t, 19);
    assert !Matches(t, 20) && !Matches(t, 21) && !Matches(t, 22) && !Matches(t, 23);
    assert !Matches(t, 24) && !Matches(t, 25) && !Matches(t, 26) && !Matches(t, 27);
    assert !Matches(t, 28) && !Matches(t, 29) && !Matches(t, 30) && !Matches(t, 31);
    assert !Matches(t, 32);
    FirstRuleNone(t, 0);
  }

  /** A type no rule matches, such as `xml`, maps to null. */
  lemma XmlIsUnmapped(t: string, f: Obj)
    requires t == "xml"
    ensures SqTypeDefined(Str(t), f) && SqType(Str(t), f) == Null
  {
    LowerKeeps(t);
    XmlRule(t);
    assert RuleOfValue(Str(t)) == RNone;
  }

  lemma GeometryRule(t: string)
    requires t == "geometry"
    ensures SqRuleOf(t) == RGeometry
  {
    assert t[0] == 'g' && t[7] == 'y';
    InnerMiss(t);
    forall k | 0 <= k < 23
      ensures !Matches(t, k)
    {
      if k < 15 && k != 8 && k != 11 {
        EarlyPrefixMiss(t, k);
      } else if 15 <= k && k != 20 {
        LatePrefixMiss(t, k);
      }
    }
    FirstRuleIs(t, 0, 23);
  }

  /** `geometry` carries the field's element type as its subtype. */
  lemma GeometryKeepsSubtype(s: string, f: Obj)
    requires Lower(s) == "geometry" && f.Get("elementType").Str? && f.Get("elementType").s != ""
    ensures SqTypeDefined(Str(s), f)
    ensures SqType(Str(s), f) == DataType("GEOMETRY(" + f.Get("elementType").s + ")")
  {
    GeometryRule(Lower(s));
    assert RuleOfValue(Str(s)) == RGeometry;
    SqTypeByRule(s, f, RGeometry);
    RenderGeometry(Lower(s), f);
  }

  lemma RenderGeometry(t: string, f: Obj)
    requires f.Get("elementType").Str? && f.Get("elementType").s != ""
    ensures RenderRule(RGeometry, t, f) == DataType("GEOMETRY(" + f.Get("elementType").s + ")")
  {
    var e := f.Get("elementType").s;
    assert JsString(f.Get("elementType")) == e;
    AppendAssoc("GEOMETRY", "(" + e, ")");
    AppendAssoc("GEOMETRY", "(", e);
    assert "GEOMETRY" + "(" == "GEOMETRY(";
  }

  /** The rule of an `array` type, in any case. */
  lemma ArrayRule(t: string)
    requires t == "array"
    ensures SqRuleOf(t) == RArray
  {
    assert t[0] == 'a' && t[4] == 'y';
    InnerMiss(t);
    forall k | 0 <= k < 25
      ensures !Matches(t, k)
    {
      if k < 15 && k != 8 && k != 11 {
        EarlyPrefixMiss(t, k);
      } else if 15 <= k < 23 && k != 20 {
        LatePrefixMiss(t, k);
      }
    }
    FirstRuleIs(t, 0, 25);
  }

  /**
   * An array type is its element type, rendered as a type of its own,
   * wrapped in `DataTypes.ARRAY(...)`.
   */
  lemma ArrayWrapsElement(s: string, f: Obj)
    requires Lower(s) == "array"
    requires f.Get("elementType").Str?
    requires RuleOfValue(f.Get("elementType")) !in {RArray, REnum, RNone}
    ensures SqTypeDefined(Str(s), f) && SqTypeDefined(f.Get("elementType"), f)
    ensures SqType(Str(s), f) == DataType("ARRAY(" + SqType(f.Get("elementType"), f).s + ")")
  {
    ArrayRule(Lower(s));
    assert RuleOfValue(Str(s)) == RArray;
  }
}

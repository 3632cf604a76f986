/**
 * The `defaultValue` branch of `addField` (lib/auto-generator.js:273-351):
 * which default values are dropped, how a string default is escaped and
 * stripped of wrapping parentheses, and the type-directed cascade that
 * renders it as source text.
 */
module Defaults {
  import opened Text
  import opened Schema
  import opened Quoting
  import opened FieldTypes

  /** The five current-time keywords a date column may default to. */
  const TimeKeywords: set<string> := {"current_timestamp", "current_date", "current_time", "localtime", "localtimestamp"}

  /** The two database UUID generators that become `DataTypes.UUIDV4`. */
  predicate IsUuidGenerator(d: string) {
    d == "gen_random_uuid()" || d == "uuid_generate_v4()"
  }

  /** MSSQL's sentinels: `(newid())` in any case, `(NULL)`, `NULL` and a missing value all become null. */
  function MssqlNormalized(dialect: string, dv: JsValue): (r: JsValue)
    requires dialect == "mssql" && Truthy(dv) ==> dv.Str?
    ensures dialect != "mssql" ==> r == dv
    ensures r == dv || r == Null
  {
    var d1 := if dialect == "mssql" && Truthy(dv) && Lower(dv.s) == "(newid())" then Null else dv;
    if dialect == "mssql" && (d1 == Str("(NULL)") || d1 == Str("NULL") || d1 == Undefined) then Null else d1
  }

  /**
   * The `while` loop that removes parentheses wrapping the whole value: what
   * is left no longer both starts with `(` and ends with `)`.
   */
  function StripParens(d: string): (r: string)
    ensures !(|r| > 0 && r[0] == '(' && r[|r| - 1] == ')')
    ensures |r| <= |d|
    decreases |d|
  {
    if |d| > 0 && d[0] == '(' && d[|d| - 1] == ')' then StripParens(d[1..|d| - 1]) else d
  }

  /** How many times the loop runs on `d`. */
  function StripDepth(d: string): nat
    decreases |d|
  {
    if |d| > 0 && d[0] == '(' && d[|d| - 1] == ')' then 1 + StripDepth(d[1..|d| - 1]) else 0
  }

  /** What the loop cuts off is n opening parentheses in front and n closing ones behind, n its number of rounds. */
  lemma {:induction false} StripParensShape(d: string)
    ensures 2 * StripDepth(d) <= |d|
    ensures StripParens(d) == d[StripDepth(d)..|d| - StripDepth(d)]
    ensures forall k :: 0 <= k < StripDepth(d) ==> d[k] == '('
    ensures forall k :: |d| - StripDepth(d) <= k < |d| ==> d[k] == ')'
    decreases |d|
  {
    if |d| > 0 && d[0] == '(' && d[|d| - 1] == ')' {
      var e := d[1..|d| - 1];
      StripParensShape(e);
      var m := StripDepth(e);
      assert StripDepth(d) == m + 1;
      InnerSlice(d, m);
      forall k | 0 <= k < m + 1
        ensures d[k] == '('
      {
        if k > 0 { assert d[k] == e[k - 1]; }
      }
      forall k | |d| - (m + 1) <= k < |d|
        ensures d[k] == ')'
      {
        if k < |d| - 1 { assert d[k] == e[k - 1]; }
      }
    }
  }

  /** Cutting m more characters from each end of `d` without its ends cuts m + 1 from `d`. */
  lemma InnerSlice(d: string, m: nat)
    requires 2 * m + 2 <= |d|
    ensures d[1..|d| - 1][m..|d| - 2 - m] == d[m + 1..|d| - (m + 1)]
  {
    var e := d[1..|d| - 1];
    forall i | m <= i < |e| - m
      ensures e[i] == d[i + 1]
    {
    }
  }

  /** `/\w+\(\)$/`: a word character followed by `()` at the very end. */
  predicate IsFunctionCall(d: string) {
    |d| >= 3 && EndsWith(d, "()") && IsWordChar(d[|d| - 3])
  }

  function Literal(d: string): string {
    "Sequelize.Sequelize.literal('" + d + "')"
  }

  /** The array branch: one `{` and one `}` removed, elements quoted for string arrays, then bracketed. */
  function ArrayDefault(d: string, elementType: JsValue): string {
    var v1 := if |d| > 0 && d[0] == '{' then d[1..] else d;
    var v2 := if |v1| > 0 && v1[|v1| - 1] == '}' then v1[..|v1| - 1] else v1;
    var items := if v2 != "" && IsString(JsString(elementType)) then Join(Map(Split(v2, ','), Quoted), ",") else v2;
    "[" + items + "]"
  }

  /** The type-directed cascade on the escaped, stripped string `d` for lower-cased column type `ft`. */
  function StringDefault(ft: string, elementType: JsValue, d: string): string {
    if ft == "bit(1)" || ft == "bit" || ft == "boolean" then
      if Contains(d, "1") || Contains(Lower(d), "true") then "true" else "false"
    else if IsArray(ft) then ArrayDefault(d, elementType)
    else if StartsWith(ft, "json") then d
    else if ft == "uuid" && IsUuidGenerator(d) then "DataTypes.UUIDV4"
    else if IsFunctionCall(d) then "Sequelize.Sequelize.fn('" + d[..|d| - 2] + "')"
    else if IsNumber(ft) then (if Contains(d, "()") then Literal(d) else d)
    else if Contains(d, "()") then Literal(d)
    else if StartsWith(ft, "date") || StartsWith(ft, "timestamp") then
      if Lower(d) in TimeKeywords then Literal(d) else Quoted(d)
    else Quoted(d)
  }

  /**
   * When the branch runs to the end: an MSSQL default that is truthy has
   * `toLowerCase`, and a string default that survives has a string column type.
   */
  predicate DefaultDefined(dialect: string, serial: bool, fieldType: JsValue, dv: JsValue) {
    && (dialect == "mssql" && Truthy(dv) ==> dv.Str?)
    && (MssqlNormalized(dialect, dv).Str? && !serial ==> fieldType.Str?)
  }

  /**
   * The rendered default, or None when the attribute is left out. A
   * non-string default is written with `String(...)`.
   */
  function DefaultText(dialect: string, serial: bool, fieldType: JsValue, elementType: JsValue, dv: JsValue): (r: Option<string>)
    requires DefaultDefined(dialect, serial, fieldType, dv)
    ensures r.Some? && !dv.Str? ==> r.value == JsString(dv)
    ensures r.Some? ==> !IsNullish(dv) && !serial
  {
    var d1 := MssqlNormalized(dialect, dv);
    if IsNullish(d1) then None
    else if serial then None
    else if !d1.Str? then Some(JsString(d1))
    else Some(StringDefault(Lower(fieldType.s), elementType, StripParens(EscapeSpecial(d1.s))))
  }

  /** The source's own steps: the MSSQL overrides, the two early returns, the escape and the stripping loop. */
  method TranslateDefault(dialect: string, serial: bool, fieldType: JsValue, elementType: JsValue, dv: JsValue)
    returns (r: Option<string>)
    requires DefaultDefined(dialect, serial, fieldType, dv)
    ensures r == DefaultText(dialect, serial, fieldType, elementType, dv)
  {
    var defaultVal := dv;
    if dialect == "mssql" && Truthy(defaultVal) && Lower(defaultVal.s) == "(newid())" {
      defaultVal := Null;
    }
    if dialect == "mssql" && (defaultVal == Str("(NULL)") || defaultVal == Str("NULL") || defaultVal == Undefined) {
      defaultVal := Null;
    }
    if IsNullish(defaultVal) {
      return None;
    }
    if serial {
      return None;
    }
    if !defaultVal.Str? {
      return Some(JsString(defaultVal));
    }
    var fieldTypeLower := Lower(fieldType.s);
    var d := EscapeSpecial(defaultVal.s);
    ghost var escaped := d;
    while |d| > 0 && d[0] == '(' && d[|d| - 1] == ')'
      invariant StripParens(d) == StripParens(escaped)
      decreases |d|
    {
      d := d[1..|d| - 1];
    }
    r := Some(StringDefault(fieldTypeLower, elementType, d));
  }

  /**
   * The default is left out exactly when it is null or undefined, when the
   * column is a serial key, or when MSSQL's `(newid())` (any case), `NULL`
   * or `(NULL)` stands in for it.
   */
  lemma OmittedExactly(dialect: string, serial: bool, fieldType: JsValue, elementType: JsValue, dv: JsValue)
    requires DefaultDefined(dialect, serial, fieldType, dv)
    ensures DefaultText(dialect, serial, fieldType, elementType, dv) == None <==>
      || IsNullish(dv)
      || serial
      || (dialect == "mssql" && dv.Str? && (Lower(dv.s) == "(newid())" || dv.s == "(NULL)" || dv.s == "NULL"))
  {
    if dialect == "mssql" && dv.Str? && Lower(dv.s) == "(newid())" {
      assert Truthy(dv) by { assert |Lower(dv.s)| == 9; }
    }
  }

  /** A text with none of the eight special characters comes through `escapeSpecial` unchanged. */
  lemma EscapeSpecialPlain(s: string)
    requires '\\' !in s && '"' !in s && '/' !in s && Backspace !in s && FormFeed !in s
    requires '\n' !in s && '\r' !in s && '\t' !in s
    ensures EscapeSpecial(s) == s
  {
    ReplaceCharStep(s, '\\', "\\\\");
    ReplaceCharStep(s, '"', "\\\"");
    ReplaceCharStep(s, '/', "\\/");
    ReplaceCharStep(s, Backspace, "\\b");
    ReplaceCharStep(s, FormFeed, "\\f");
    ReplaceCharStep(s, '\n', "\\n");
    ReplaceCharStep(s, '\r', "\\r");
    ReplaceCharStep(s, '\t', "\\t");
  }

  /** A boolean column's string default is exactly `true` or `false`. */
  lemma BooleanDefault(dialect: string, serial: bool, fieldType: JsValue, elementType: JsValue, dv: JsValue)
    requires DefaultDefined(dialect, serial, fieldType, dv) && dv.Str?
    requires fieldType.Str? && Lower(fieldType.s) in {"bit(1)", "bit", "boolean"}
    ensures var r := DefaultText(dialect, serial, fieldType, elementType, dv);
            r.Some? ==> r.value == "true" || r.value == "false"
  {
  }

  /** The generator names pass through the MSSQL check, the escape and the stripping loop untouched. */
  lemma GeneratorPlain(s: string)
    requires IsUuidGenerator(s)
    ensures Lower(s) != "(newid())" && EscapeSpecial(s) == s && StripParens(s) == s
  {
    assert |Lower(s)| == |s| && s[0] != '(';
    GeneratorChars(s);
    EscapeSpecialPlain(s);
  }

  /** The generator names hold none of the eight special characters. */
  lemma GeneratorChars(s: string)
    requires IsUuidGenerator(s)
    ensures '\\' !in s && '"' !in s && '/' !in s && Backspace !in s && FormFeed !in s
    ensures '\n' !in s && '\r' !in s && '\t' !in s
  {
    if s == "gen_random_uuid()" {
      RandomUuidQuoting();
      RandomUuidWhitespace();
    } else {
      UuidV4Quoting();
      UuidV4Whitespace();
    }
  }

  lemma RandomUuidQuoting()
    ensures '\\' !in "gen_random_uuid()" && '"' !in "gen_random_uuid()"
    ensures '/' !in "gen_random_uuid()" && Backspace !in "gen_random_uuid()"
  {
  }

  lemma RandomUuidWhitespace()
    ensures FormFeed !in "gen_random_uuid()" && '\n' !in "gen_random_uuid()"
    ensures '\r' !in "gen_random_uuid()" && '\t' !in "gen_random_uuid()"
  {
  }

  lemma UuidV4Quoting()
    ensures '\\' !in "uuid_generate_v4()" && '"' !in "uuid_generate_v4()"
    ensures '/' !in "uuid_generate_v4()" && Backspace !in "uuid_generate_v4()"
  {
  }

  lemma UuidV4Whitespace()
    ensures FormFeed !in "uuid_generate_v4()" && '\n' !in "uuid_generate_v4()"
    ensures '\r' !in "uuid_generate_v4()" && '\t' !in "uuid_generate_v4()"
  {
  }

  /**
   * A `uuid` column defaulting to a database UUID generator gets
   * `DataTypes.UUIDV4`, though the generator call also has the shape of a
   * function call: the uuid test comes first.
   */
  lemma UuidDefault(dialect: string, fieldType: JsValue, elementType: JsValue, dv: JsValue)
    requires fieldType.Str? && Lower(fieldType.s) == "uuid"
    requires dv.Str? && IsUuidGenerator(dv.s)
    ensures IsFunctionCall(dv.s)
    ensures DefaultDefined(dialect, false, fieldType, dv)
    ensures DefaultText(dialect, false, fieldType, elementType, dv) == Some("DataTypes.UUIDV4")
  {
    GeneratorPlain(dv.s);
    assert MssqlNormalized(dialect, dv) == dv;
    UuidBranch(Lower(fieldType.s), elementType, dv.s);
    PlainStringDefault(dialect, fieldType, elementType, dv);
  }

  /** A string default the MSSQL check, the escape and the stripping loop leave alone goes straight to the cascade. */
  lemma PlainStringDefault(dialect: string, fieldType: JsValue, elementType: JsValue, dv: JsValue)
    requires fieldType.Str? && dv.Str? && MssqlNormalized(dialect, dv) == dv
    requires StripParens(EscapeSpecial(dv.s)) == dv.s
    ensures DefaultDefined(dialect, false, fieldType, dv)
    ensures DefaultText(dialect, false, fieldType, elementType, dv) == Some(StringDefault(Lower(fieldType.s), elementType, dv.s))
  {
  }

  lemma UuidBranch(ft: string, elementType: JsValue, d: string)
    requires ft == "uuid" && IsUuidGenerator(d)
    ensures IsFunctionCall(d) && StringDefault(ft, elementType, d) == "DataTypes.UUIDV4"
  {
    assert ft[0] == 'u' && ft[3] == 'd';
    assert d[|d| - 3] in "4d";
  }

  /** A date or timestamp type name is none of the earlier branches' types. */
  lemma DateTypeName(ft: string)
    requires StartsWith(ft, "date") || StartsWith(ft, "timestamp")
    ensures ft != "bit(1)" && ft != "bit" && ft != "boolean" && !StartsWith(ft, "json") && ft != "uuid" && !IsNumber(ft)
  {
    assert ft[0] == 'd' || (ft[0] == 't' && ft[1] == 'i' && ft[2] == 'm');
    assert ft[0] == 'd' ==> ft[1] == 'a';
  }

  /** The date and timestamp branch: a current-time keyword is a literal, anything else a double-quoted string. */
  lemma DateDefault(ft: string, elementType: JsValue, d: string)
    requires StartsWith(ft, "date") || StartsWith(ft, "timestamp")
    requires !IsArray(ft) && !Contains(d, "()")
    ensures StringDefault(ft, elementType, d) == if Lower(d) in TimeKeywords then Literal(d) else Quoted(d)
  {
    DateTypeName(ft);
    assert !IsFunctionCall(d) by {
      if IsFunctionCall(d) {
        ContainsAt(d, "()", |d| - 2);
      }
    }
  }

  /** A number column's default is written bare unless it holds `()`. */
  lemma NumberDefault(ft: string, elementType: JsValue, d: string)
    requires IsNumber(ft) && !IsArray(ft) && !IsFunctionCall(d)
    ensures StringDefault(ft, elementType, d) == if Contains(d, "()") then Literal(d) else d
  {
    assert ft[0] != 'j' && ft[0] != 'u' && ft != "bit" && ft != "bit(1)" && ft != "boolean" by {
      assert ft[0] in "smtibfmdnro";
      if ft[0] == 'b' { assert ft[1] == 'i' && ft[2] == 'g'; }
    }
  }
}

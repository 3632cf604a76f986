# sequelize-auto's model-text generator, in Dafny

This project models the `AutoGenerator` class of sequelize-auto
(`lib/auto-generator.js`). That class turns an introspected database schema
into the source text of Sequelize model files, one per table.

The schema is held as plain data:
- tables of columns whose field objects are JavaScript objects with ordered keys;
- foreign-key records per (table, column);
- index lists, relations, and the set of tables with triggers.

The output is one string per table, keyed by table name. The model follows
the source's own structure:

- `Text`: the string primitives the generator relies on. These are
  `toLowerCase`, `split`/`join`, `trim`, `substring`, a global replace of a
  literal pattern (with the `$` patterns `String.prototype.replace` expands in
  its replacement string), decimal rendering and code-unit order. Every regular
  expression of the generator is written as prefix, suffix and substring tests
  built from these.
- `Schema`: the input data.
  - `Obj` is a JavaScript object with insertion-ordered keys. `Table` is
    introspected columns with their field objects.
  - It also has the foreign-key, index and relation records, the dialect
    record and the options.
  - The naming helpers of the companion `types` module are given as
    functions.
- `Quoting`: `escapeSpecial` and `quoteName`.
- `FieldTypes`: the `is*` type classifiers and `getEnumValues`.
- `SqTypes`: `getSqType`, the ordered first-match-wins table of type rules.
- `TsTypes`: `getTypeScriptFieldType`, and how it relates to `getSqType`.
- `Defaults`: the `defaultValue` branch of `addField`: the MSSQL sentinels,
  the escape, the paren-stripping `while` loop and the type-directed cascade.
- `Fields`: what `addField` writes for one column, stated as functions. This
  covers the skip rules, the entries of the attribute loop, the
  `unique`/`field` markers and the closing trim.
- `Tables`: what `addIndexes` and `addTable` write, and how `addField`'s
  in-place attachment of foreign-key records changes a table.
- `Sorting`: `Array.prototype.sort()` on strings, as the import lines use it.
- `Associations`: `addSchemaForRelations` and `addTypeScriptAssociationMixins`.
  This is the accessor block per relation and the `needed` map of types to
  import.
- `TypeScript`: the `ts` parts of a model file. These are the attribute lines,
  the primary-key and creation-optional filters, the import lines and the
  class preamble.
- `Generation`: the header template, the footer, the assembly of a model file
  and the final global replacement of `#TABLE#` by the model name.
- `Generator`: the class `AutoGenerator` itself.
  - Its `tables` field is updated in place: `addField` attaches foreign-key
    records to the field objects.
  - Its methods build the texts step by step with loops, as the source does.
    Each method is proved to write exactly what the corresponding function of
    the modules above states.

Crashes of the source become preconditions. A field whose type is null, an
array column with no element type, an array whose element type is an array,
a truthy `special` that is not a list, a truthy non-string MSSQL default and a
primary key next to a null `foreignKey` would all throw in the source, so
the model requires their absence.

Some behaviours of the source are modelled as written and proved as such:

- `tinyint(1)` is `DataTypes.BOOLEAN` for `getSqType`, because the boolean
  rule precedes the integer rule. It is `number` for the TypeScript mapping,
  because the number classifier precedes the boolean one.
- The `float8` alternative of the double rule is never reached, because
  `^(float|float4)` matches `float8` first. So `float8` becomes
  `DataTypes.FLOAT`.
- A bare `enum` type without a `special` list gets the enum values `["m"]`.
  This is because `substring(5, 3)` on `"enum"` first clamps 5 to the length 4
  and then swaps the bounds, so it is `substring(3, 4)`.
- The model name is a replacement string of `String.prototype.replace`, so its
  `$$`, `$&`, `` $` `` and `$'` are expanded. A table named `order$$log` gives
  a model named `order$log` in the text, and `a$&b` gives `a#TABLE#b`.
- A default of `0` or `false` does not make a column creation-optional.
- The many-to-many branch runs only when the table is the relation's parent.
  So the alternatives it computes for the child side are never used.
- The two `useDefine` arms of the footer write the same text.

## Model

| member | source | states |
|---|---|---|
| Text.Lower | lib/auto-generator.js:427 | lower-casing keeps the length and maps every character through ASCII lower-casing |
| Text.LowerIdempotent | lib/auto-generator.js:427 | lower-casing an already lower-cased type changes nothing |
| Text.Split | lib/auto-generator.js:304 | `split(c)` yields at least one piece and no piece contains the separator |
| Text.SplitJoin | lib/auto-generator.js:304 | joining the pieces of a split with the same separator gives back the string |
| Text.ReplaceAllSplices | lib/auto-generator.js:127-128 | a global replace turns a placeholder between text free of `#` into the substitution for that match, which is the replacement itself when it holds no `$` |
| Text.ReplaceOneMatch | lib/auto-generator.js:127-128 | with one match, the text around it is kept and the match becomes the substitution computed from the text before and after it |
| Text.SubstitutionPlain | lib/auto-generator.js:128 | a replacement string without `$` is inserted as it is |
| Text.DollarDollar | lib/auto-generator.js:128 | `$$` in the replacement inserts a single `$`: `order$$log` becomes `order$log` |
| Text.DollarAmpersand | lib/auto-generator.js:128 | `$&` in the replacement inserts the matched text |
| Text.Trim | lib/auto-generator.js:191 | the trimmed text neither starts nor ends with white space |
| Text.DropTrailing | lib/auto-generator.js:373 | `replace(/,+$/, '')` keeps a prefix, removes only commas, and leaves no trailing comma |
| Text.Substring | lib/auto-generator.js:148 | `substring` never lengthens the text and is the slice when its bounds are in order and in range |
| Text.IntToString | lib/auto-generator.js:407 | a number is written in decimal, with a minus sign when negative |
| Text.LessEqTotal | lib/auto-generator.js:72 | the default sort order compares any two strings |
| Text.LessEqTransitive | lib/auto-generator.js:72 | the default sort order is transitive |
| Schema.JsString | lib/auto-generator.js:271 | `String(v)` is the string itself for a string, and `undefined`/`null` for those values |
| Schema.Obj.Set | lib/auto-generator.js:210 | assigning a key sets it, leaves every other key's value alone, and appends the key only when it is new |
| Quoting.ReplaceChar | lib/auto-generator.js:753-760 | a one-character global replace leaves no occurrence of the character when the replacement has none |
| Quoting.EscapeSpecial | lib/auto-generator.js:752-760 | an escaped string contains no raw backspace, form feed, newline, carriage return or tab |
| Quoting.EscapeValue | lib/auto-generator.js:748-761 | a non-string is returned unchanged, and a string comes back a string free of the five control characters |
| Quoting.EscapeSpecialConcat | lib/auto-generator.js:752-760 | escaping distributes over concatenation |
| Quoting.EscapeSpecialSingle | lib/auto-generator.js:752-760 | the eight passes turn a single character into its own escape, or leave it alone |
| Quoting.EscapeSpecialIsPerCharacter | lib/auto-generator.js:752-760 | the eight sequential passes equal escaping each character independently, so no pass re-escapes an earlier pass's output |
| Quoting.EscapedQuotesFollowBackslash | lib/auto-generator.js:754 | every double quote of an escaped string is preceded by a backslash |
| Quoting.QuoteName | lib/auto-generator.js:763-765 | an identifier is returned as it is; any other name is wrapped in single quotes, and the result then differs from the name |
| FieldTypes.NumberHead | lib/auto-generator.js:766-768 | a type the number classifier accepts starts with one of the number prefixes' first letters |
| FieldTypes.OtherHeads | lib/auto-generator.js:769-786 | the boolean, date, enum and JSON classifiers each fix the type's first letter and minimum length |
| FieldTypes.StringHead | lib/auto-generator.js:775-777 | a type the string classifier accepts starts with one of its prefixes' first letters |
| FieldTypes.Quoted | lib/auto-generator.js:723 | a value is wrapped in double quotes |
| FieldTypes.EnumValues | lib/auto-generator.js:720-729 | the postgres `special` list comes back with each value double-quoted; otherwise the MySQL type text between `enum(` and the last character comes back cut at commas |
| FieldTypes.MysqlEnumValues | lib/auto-generator.js:727 | `enum('a','b')` yields the two single-quoted literals |
| FieldTypes.BareEnumYieldsM | lib/auto-generator.js:727 | a bare `enum` type without `special` yields `["m"]`, because `substring` swaps reversed bounds |
| SqTypes.IntPrefix | lib/auto-generator.js:451 | the integer match is empty exactly when no integer prefix starts the type, and is otherwise a prefix of it |
| SqTypes.RuleAt | lib/auto-generator.js:432-542 | every rule of the table yields a type |
| SqTypes.FirstRuleIs | lib/auto-generator.js:432-543 | first match wins: the rule chosen is the first whose test holds |
| SqTypes.FirstRuleMatched | lib/auto-generator.js:432-543 | a chosen rule's test holds and no earlier rule's test does |
| SqTypes.FirstRuleNone | lib/auto-generator.js:543 | when no test holds, no rule is chosen |
| SqTypes.LengthOf | lib/auto-generator.js:428 | the length match is empty or a parenthesised run of digits |
| SqTypes.PrecisionOf | lib/auto-generator.js:429 | the precision match is empty or a parenthesised text of at least five characters |
| SqTypes.LengthAfter | lib/auto-generator.js:428 | the length match of `w(d)`, with no `(` in `w`, is `(d)` |
| SqTypes.PrecisionNone | lib/auto-generator.js:429 | a type without `(` has no precision match |
| SqTypes.RenderRule | lib/auto-generator.js:432-542 | a rule renders as a `DataTypes.` expression, and only the absence of a rule renders as null |
| SqTypes.ElementSqType | lib/auto-generator.js:518 | the element type's mapping is null exactly when no rule matches it, and a non-string element type is returned as it is |
| SqTypes.SqType | lib/auto-generator.js:421-544 | a value without `toLowerCase` comes back unchanged; a string maps to null exactly when no rule matches, and otherwise to a `DataTypes.` expression |
| SqTypes.SqTypeIgnoresCase | lib/auto-generator.js:427 | a type and its lower-cased spelling map to the same expression |
| SqTypes.BooleanSpelling | lib/auto-generator.js:432-433 | `boolean`, `bit(1)`, `bit` and `tinyint(1)` map to `DataTypes.BOOLEAN` |
| SqTypes.BooleanBeforeInteger | lib/auto-generator.js:432-453 | `tinyint(1)` matches the integer rule too, and still maps to `DataTypes.BOOLEAN` |
| SqTypes.IntegerRule | lib/auto-generator.js:451-460 | a type with an integer prefix, other than `tinyint(1)` and the two integer ranges, is decided by the integer rule with that prefix |
| SqTypes.IntPrefixOfInt | lib/auto-generator.js:451-453 | a type starting with `int` has the integer match `int` |
| SqTypes.IntPrefixOfOther | lib/auto-generator.js:451-453 | a type starting with `bigint`, `smallint`, `mediumint` or `tinyint` has that integer match |
| SqTypes.IntegerFamily | lib/auto-generator.js:451-460 | an `int…` type maps to `DataTypes.INTEGER`, followed by `.UNSIGNED` and then `.ZEROFILL` when those words occur |
| SqTypes.IntegerPrefixes | lib/auto-generator.js:451-460 | the other integer prefixes map to their upper-cased name with the same modifiers |
| SqTypes.VarcharRule | lib/auto-generator.js:461-465 | a `varchar` type other than `varchar(max)` is decided by the string rule |
| SqTypes.VarcharKeepsLength | lib/auto-generator.js:464-465 | `varchar(n)` maps to `DataTypes.STRING(n)` |
| SqTypes.MaxSpelling | lib/auto-generator.js:461-462 | `varchar(max)` and `nvarchar(max)` are decided by the max rule and map to `DataTypes.TEXT` |
| SqTypes.VarcharMaxIsText | lib/auto-generator.js:461-462 | `varchar(max)` and `nvarchar(max)`, in any case, map to `DataTypes.TEXT` |
| SqTypes.Float8Rule | lib/auto-generator.js:485-498 | `float8` matches `^float` before the double rule |
| SqTypes.Float8IsFloat | lib/auto-generator.js:485-498 | `float8` maps to `DataTypes.FLOAT`, never `DOUBLE` |
| SqTypes.XmlRule | lib/auto-generator.js:432-542 | no rule matches `xml` |
| SqTypes.XmlIsUnmapped | lib/auto-generator.js:543 | a type no rule matches, such as `xml`, maps to null |
| SqTypes.GeometryRule | lib/auto-generator.js:509 | `geometry` is decided by the geometry rule |
| SqTypes.GeometryKeepsSubtype | lib/auto-generator.js:509-511 | `geometry` carries a non-empty element type as its subtype |
| SqTypes.ArrayRule | lib/auto-generator.js:517 | `array` is decided by the array rule |
| SqTypes.ArrayWrapsElement | lib/auto-generator.js:517-519 | an array type is its element type's own mapping wrapped in `DataTypes.ARRAY(...)` |
| TsTypes.TsName | lib/auto-generator.js:688-689 | a falsy attribute gives the empty name, and a string gives its lower-cased spelling |
| TsTypes.ScalarTsType | lib/auto-generator.js:695-717 | a type that is not an enum maps to one of the six fixed TypeScript types, and `any` exactly when no classifier accepts it |
| TsTypes.TsType | lib/auto-generator.js:687-719 | an array type ends in `[]`; any other type is decided by the scalar branches in their order |
| TsTypes.ArrayOfElement | lib/auto-generator.js:691-694 | an array or range type is the element type's TypeScript type followed by `[]` |
| TsTypes.MissingIsAny | lib/auto-generator.js:688-717 | a missing or empty type is `any` |
| TsTypes.UnclassifiedIsAny | lib/auto-generator.js:690-717 | a type that is not an array and that no classifier accepts is `any` |
| TsTypes.XmlIsAny | lib/auto-generator.js:688-717 | `xml`, in any case, is `any` |
| TsTypes.RangeWithoutElement | lib/auto-generator.js:688-694 | a range type without an element type is `any[]` |
| TsTypes.NumberTs | lib/auto-generator.js:695-697 | a type the number classifier accepts, and that is not an array, is `number` |
| TsTypes.NumericRuleIsNumber | lib/auto-generator.js:767 | every numeric rule of `getSqType` implies the number classifier |
| TsTypes.NumericColumnsAreNumbers | lib/auto-generator.js:695-697 | every column `getSqType` maps to a numeric type is `number` in TypeScript, unless its name ends in `range` |
| TsTypes.TextualRuleIsString | lib/auto-generator.js:776 | the char, date-only, time and network rules, reached in order, imply the string classifier and none of the earlier ones |
| TsTypes.CharOrTimeIsString | lib/auto-generator.js:776 | the char, date-only and time rules imply the string classifier alone |
| TsTypes.NetworkIsString | lib/auto-generator.js:776 | the inet, cidr and macaddr rules imply the string classifier alone |
| TsTypes.TextualColumnsAreStrings | lib/auto-generator.js:704-706 | every column mapped to a textual type is `string` in TypeScript, unless its name ends in `range` |
| TsTypes.StringTs | lib/auto-generator.js:704-706 | a type accepted by the string classifier and none before it is `string` |
| TsTypes.JsonClassified | lib/auto-generator.js:785 | the JSON rules imply the JSON classifier and none of the earlier ones |
| TsTypes.JsonColumnsAreObjects | lib/auto-generator.js:711-713 | every column mapped to JSON or JSONB is `object` in TypeScript, unless its name ends in `range` |
| TsTypes.ObjectTs | lib/auto-generator.js:711-713 | a type accepted by the JSON classifier and none before it is `object` |
| TsTypes.BooleanSpellingsTs | lib/auto-generator.js:698-700 | `boolean`, `bit(1)` and `bit` are `boolean` in TypeScript |
| TsTypes.TinyintOneTs | lib/auto-generator.js:695-697 | `tinyint(1)` is `number` in TypeScript |
| TsTypes.BooleanRuleSpellings | lib/auto-generator.js:432 | only the four boolean spellings map to `DataTypes.BOOLEAN` |
| TsTypes.BooleanColumns | lib/auto-generator.js:695-700 | every BOOLEAN column is `boolean` in TypeScript except `tinyint(1)`, which is `number` |
| TsTypes.EnumTs | lib/auto-generator.js:707-710 | an enum type is its values joined by ` \| ` |
| TsTypes.MysqlEnumUnion | lib/auto-generator.js:707-710 | `enum('a','b')` is `'a' \| 'b'` |
| Defaults.MssqlNormalized | lib/auto-generator.js:275-280 | the MSSQL checks only ever replace the default by null, and do nothing for other dialects |
| Defaults.StripParens | lib/auto-generator.js:291-294 | the stripping loop ends with a text that does not both start with `(` and end with `)`, and is no longer than before |
| Defaults.StripParensShape | lib/auto-generator.js:291-294 | the loop removes the same number of `(` in front as `)` behind, and nothing else |
| Defaults.DefaultText | lib/auto-generator.js:273-351 | a default that is written is neither null nor undefined, belongs to a non-serial column, and is `String(value)` when it is not a string |
| Defaults.TranslateDefault | lib/auto-generator.js:274-343 | the source's steps, including the `while` loop, compute the rendered default |
| Defaults.OmittedExactly | lib/auto-generator.js:274-286 | the default is left out exactly when it is null or undefined, when the column is a serial key, or under MSSQL for `(newid())` in any case, `NULL` or `(NULL)` |
| Defaults.EscapeSpecialPlain | lib/auto-generator.js:752-760 | a text without the eight special characters passes through `escapeSpecial` unchanged |
| Defaults.BooleanDefault | lib/auto-generator.js:295-298 | a `bit`, `bit(1)` or `boolean` column's string default is written as exactly `true` or `false` |
| Defaults.GeneratorPlain | lib/auto-generator.js:275-294 | the two UUID generator names pass the MSSQL check, the escape and the stripping loop unchanged |
| Defaults.UuidDefault | lib/auto-generator.js:312-314 | a `uuid` column defaulting to `gen_random_uuid()` or `uuid_generate_v4()` gets `DataTypes.UUIDV4`, although the value also has the shape of a function call |
| Defaults.UuidBranch | lib/auto-generator.js:312-318 | the uuid test comes before the function-call test in the cascade |
| Defaults.PlainStringDefault | lib/auto-generator.js:287-294 | a string default that the MSSQL check, the escape and the loop leave alone goes straight to the cascade |
| Defaults.DateTypeName | lib/auto-generator.js:295-319 | a date or timestamp type reaches none of the boolean, json, uuid or number branches |
| Defaults.DateDefault | lib/auto-generator.js:333-340 | a date or timestamp column's default is a `Sequelize.Sequelize.literal` for the five current-time keywords and a double-quoted string otherwise |
| Defaults.NumberDefault | lib/auto-generator.js:319-328 | a number column's default is written bare, unless it contains `()` and is then a literal |
| Fields.Attach | lib/auto-generator.js:209-211 | a found foreign-key record is stored under `foreignKey`, and every other key keeps its value |
| Fields.AttachIdempotent | lib/auto-generator.js:209-211 | attaching the same record again changes nothing, so a second `addField` on a column sees the same object |
| Fields.AttrBody | lib/auto-generator.js:236-362 | one key writes at most one entry, and `wroteAutoIncrement` becomes true only through a `true` `autoIncrement` key |
| Fields.UniqueText | lib/auto-generator.js:365-368 | the `unique` line is written exactly when `unique` or the record's `isUnique` is truthy |
| Fields.AliasText | lib/auto-generator.js:369-371 | the `field` alias is written exactly when the property name differs from the column name |
| Fields.EmptyExactlyWhenSkipped | lib/auto-generator.js:197-376 | a column writes nothing exactly when it is a timestamp, paranoid or ignored column, and otherwise its text ends with `},` and a newline |
| Fields.StepAuto | lib/auto-generator.js:227-268 | one key writes the auto-increment marker at most once, only when it was not written yet, and then counts it as written |
| Fields.AutoIncrementAtMostOnce | lib/auto-generator.js:218-268 | `autoIncrement: true` is written at most once per column, whichever keys ask for it |
| Fields.SerialWritesAutoIncrement | lib/auto-generator.js:216-235 | a serial key gets the marker exactly once, provided one of its keys is not `special`, `elementType` or `unique` |
| Fields.SerialFirstWrites | lib/auto-generator.js:227-235 | a serial key's first written key carries the marker, and no later key repeats it |
| Fields.PrimaryKeyRule | lib/auto-generator.js:251-258 | the `primaryKey: true` line appears if and only if the column has a `primaryKey` key set to `true` and either no `foreignKey` key or a record marking it primary |
| Fields.ReferencesRule | lib/auto-generator.js:236-246 | the `references` block for the record appears if and only if the column has a `foreignKey` key and the introspection's record is a real foreign key |
| Tables.IndexesTextShape | lib/auto-generator.js:377-419 | a table without indexes writes nothing; otherwise the list ends with a comma and a newline |
| Tables.AttachField | lib/auto-generator.js:210 | attaching a record keeps the table's columns and keys |
| Tables.AttachStep | lib/auto-generator.js:197-211 | `addField` keeps the table's columns and keys |
| Tables.AttachCols | lib/auto-generator.js:142-146 | the loop over the columns keeps the table's columns and keys |
| Tables.AttachedUpTo | lib/auto-generator.js:142-146 | the table after the first `n` turns of the loop keeps its columns and keys |
| Tables.AttachAll | lib/auto-generator.js:141-146 | the table after `addTable` keeps its columns and keys |
| Tables.AttachColsOthers | lib/auto-generator.js:142-146 | a column the loop has not reached keeps its field object |
| Tables.AttachStepOthers | lib/auto-generator.js:207-211 | `addField` on one column leaves every other column's object as it was |
| Tables.AttachColsVisited | lib/auto-generator.js:142-146 | after the loop, a visited column that is written carries its foreign-key record, and a skipped one is unchanged |
| Tables.AttachColsLast | lib/auto-generator.js:142-146 | the last visited column ends up as `addField` leaves it, whether or not it was visited before |
| Tables.AttachKeepsReady | lib/auto-generator.js:209-211 | attaching a column's record keeps every column of the table writable |
| Tables.AnyTimestampExists | lib/auto-generator.js:143 | the `timestamps` fold over the columns is true exactly when some column is a timestamp column |
| Tables.AnyParanoidExists | lib/auto-generator.js:144 | the `paranoid` fold over the columns is true exactly when some column is a paranoid column |
| Tables.OptionsText | lib/auto-generator.js:150-166 | the fixed options block ends with a comma and a newline |
| Tables.AdditionalEntry | lib/auto-generator.js:170-185 | an `additional` key writes nothing exactly when it is `timestamps` or `paranoid`, and otherwise ends with a comma and a newline |
| Tables.AdditionalEndsWithSeparator | lib/auto-generator.js:168-186 | appending the additional options to text ending in a separator keeps that ending |
| Tables.TableTail | lib/auto-generator.js:150-190 | everything after the fields ends with a comma and a newline |
| Tables.TailEndsWithSeparator | lib/auto-generator.js:163-190 | the options, the additional options and the indexes end with a separator, whichever are present |
| Tables.TableBody | lib/auto-generator.js:140-190 | the text before the closing cut ends with a comma and a newline |
| Tables.TrimKeepsComma | lib/auto-generator.js:191 | trimming text that ends in `,` and a newline leaves it ending in the comma |
| Tables.CloseDropsComma | lib/auto-generator.js:191-193 | the closing cut removes exactly the separator of the last option and adds the closing brace |
| Tables.TableTextCloses | lib/auto-generator.js:147-194 | a table's text loses exactly the comma of its last option, whatever options and indexes precede it |
| Tables.FieldsSeparator | lib/auto-generator.js:145-148 | the fields text is empty or ends with a field's `},` and a newline, so the first cut drops that separator |
| Sorting.Insert | lib/auto-generator.js:72 | insertion adds exactly one occurrence of the new string |
| Sorting.Sort | lib/auto-generator.js:72 | sorting is a permutation |
| Sorting.InsertSorted | lib/auto-generator.js:72 | inserting into a sorted list keeps it sorted |
| Sorting.SortSorted | lib/auto-generator.js:72 | the sort yields an ordered permutation of its input |
| Sorting.SortDistinct | lib/auto-generator.js:72 | sorting a list without repeats gives a list without repeats |
| Associations.UpperFirst | lib/auto-generator.js:585 | `upperFirst` upper-cases the first character and keeps the rest |
| Associations.FirstWithChild | lib/auto-generator.js:564 | the first relation with a non-empty child table: the one found has a non-empty child table and every relation before it has an empty one, and none is found only when every child table is empty |
| Associations.AddSchemaForRelations | lib/auto-generator.js:561-573 | a table name with a schema, or one some relation names as child, is returned unchanged; otherwise it is joined to the schema of the first relation with a child table when that schema is non-empty, and unchanged when there is none |
| Associations.Needed.Ensure | lib/auto-generator.js:591 | `needed[k] ??= new Set()` makes `k` present and changes no table's names |
| Associations.Needed.Add | lib/auto-generator.js:592-593 | adding a name puts it under that table and changes no other table |
| Associations.Needed.Delete | lib/auto-generator.js:660-662 | deleting a table removes it and keeps every other table and its names |
| Associations.Without | lib/auto-generator.js:661 | removing a key keeps the other keys, each once |
| Associations.RoleOf | lib/auto-generator.js:582-633 | belongsTo is for the child side of a plain relation, hasOne and hasMany for the parent side, and belongsToMany for the parent of a many-to-many one |
| Associations.RelText | lib/auto-generator.js:582-658 | a relation writes accessors exactly when it gives the table a role |
| Associations.RelNeeded | lib/auto-generator.js:591-656 | recording a relation's types keeps the map well formed |
| Associations.RelsFrom | lib/auto-generator.js:579-659 | the loop over the relations keeps the map well formed |
| Associations.AssociationMixins | lib/auto-generator.js:574-664 | the returned map is well formed |
| Associations.NoSelfImport | lib/auto-generator.js:660-662 | the returned map never lists the schema-adjusted current table |
| Associations.M2MOnlyFromParent | lib/auto-generator.js:631-633 | a many-to-many relation whose parent is not the table adds no text and no types |
| Associations.BelongsToNeeds | lib/auto-generator.js:591-593 | belongsTo adds exactly the parent model and its `Id` type under the parent table |
| Associations.HasOneNeeds | lib/auto-generator.js:596-607 | hasOne adds exactly the child model, its `Id` and its `CreationAttributes` types under the child table |
| Associations.ManyNeeds | lib/auto-generator.js:626-656 | hasMany and belongsToMany add exactly the child model and its `Id` type under the child table |
| Associations.StepKeepsNames | lib/auto-generator.js:591-656 | one relation keeps every listed table's names non-empty and only adds names |
| Associations.NeededNonEmpty | lib/auto-generator.js:579-659 | every table the map lists has at least one type to import, and the map only grows |
| TypeScript.Filter | lib/auto-generator.js:547-558 | `filter` keeps exactly the members that pass |
| TypeScript.FilterConcat | lib/auto-generator.js:547-558 | filtering distributes over concatenation, so it keeps the order of what it keeps |
| TypeScript.FilterDistinct | lib/auto-generator.js:547-558 | a filter of a list without repeats has no repeats |
| TypeScript.PrimaryKeysSpec | lib/auto-generator.js:545-551 | the primary keys are exactly the columns with a truthy `primaryKey`, each once |
| TypeScript.FalsyDefaultNotOptional | lib/auto-generator.js:556 | a default of `0` or `false` alone does not make a column creation-optional |
| TypeScript.IgnoredHaveNoLine | lib/auto-generator.js:671 | skipped columns get no attribute line |
| TypeScript.SortedTables | lib/auto-generator.js:72 | the sorted import tables are exactly the tables the map lists |
| Generation.Es5HeadClean | lib/auto-generator.js:56-57 | the es5 header's first lines hold no placeholder character |
| Generation.Es5DefinesModel | lib/auto-generator.js:56-58 | an es5 model file starts with the `define` call naming the model: the placeholder becomes the name with its `$` patterns expanded, and the name itself when it holds no `$` |
| Generation.FooterCloses | lib/auto-generator.js:108-126 | a class language's file ends with two closing braces, es5's with `);` and `};`, and ts with `useDefine` casts the result |
| Generator.WithLang | lib/auto-generator.js:19 | the language defaults to `es5` and an explicit language is kept |
| Generator.AttachKeepsTablesReady | lib/auto-generator.js:209-211 | `addField` keeps every table writable, and a column it writes is then fully defined |
| Generator.ColumnFlags | lib/auto-generator.js:143-144 | each turn of the column loop raises the flags by that column's tests |
| Generator.ProgressDone | lib/auto-generator.js:66-131 | after the loop every table has its expected text and carries its attached foreign keys |
| Generator.AutoGenerator.constructor | lib/auto-generator.js:11-21 | the generator keeps the introspected data, and the language defaults to `es5` |
| Generator.AutoGenerator.WriteAttributeBody | lib/auto-generator.js:236-362 | the branch for one key writes exactly that key's entry and updates `wroteAutoIncrement` as the entry function says |
| Generator.AutoGenerator.WriteValueAttribute | lib/auto-generator.js:270-362 | the value-printing branches write exactly the key's entry and leave `wroteAutoIncrement` alone |
| Generator.AutoGenerator.WriteAttribute | lib/auto-generator.js:222-363 | one turn of the key loop writes the serial marker, then the key's entry |
| Generator.AutoGenerator.WriteAttributes | lib/auto-generator.js:221-364 | the key loop writes the entries of all keys in order |
| Generator.AutoGenerator.WriteField | lib/auto-generator.js:212-375 | a written column's text is its name, entries, unique marker and alias, with the last comma trimmed |
| Generator.AutoGenerator.AddField | lib/auto-generator.js:197-376 | writes the column's text and attaches its foreign-key record in place in `tables`, changing nothing else |
| Generator.AutoGenerator.WriteIndexHead | lib/auto-generator.js:385-398 | writes an index's name, unique flag and method lines, each only when set |
| Generator.AutoGenerator.WriteIndexField | lib/auto-generator.js:401-411 | writes an index field's attribute, then collation, length and any order other than `ASC` |
| Generator.AutoGenerator.WriteIndex | lib/auto-generator.js:384-414 | writes one index block |
| Generator.AutoGenerator.WriteIndexList | lib/auto-generator.js:383-415 | writes the index blocks in order |
| Generator.AutoGenerator.AddIndexes | lib/auto-generator.js:377-419 | writes the `indexes` list, or nothing for a table without indexes |
| Generator.AutoGenerator.WriteOptions | lib/auto-generator.js:150-166 | writes the fixed table options |
| Generator.AutoGenerator.WriteAdditional | lib/auto-generator.js:168-186 | writes the additional options in key order |
| Generator.AutoGenerator.AddColumn | lib/auto-generator.js:145 | one column's `addField` extends the fields text and the attached table by one step |
| Generator.AutoGenerator.AddFields | lib/auto-generator.js:137-146 | writes the fields text of all columns, raises `timestamps` and `paranoid` exactly when the option or some column calls for them, and attaches every written column's record |
| Generator.AutoGenerator.WriteTail | lib/auto-generator.js:150-190 | writes the options, the additional options and the indexes |
| Generator.AutoGenerator.CloseFields | lib/auto-generator.js:147-194 | cuts the last field separator, appends the tail, then trims and closes |
| Generator.AutoGenerator.AddTable | lib/auto-generator.js:134-195 | writes the table's text and leaves every written column with its foreign-key record attached |
| Generator.AutoGenerator.WriteRelation | lib/auto-generator.js:580-658 | one relation writes its accessor block and adds its types to `needed` |
| Generator.AutoGenerator.AddTypeScriptAssociationMixins | lib/auto-generator.js:574-664 | computes the accessor text and the `needed` map without the table itself |
| Generator.AutoGenerator.AddTypeScriptFields | lib/auto-generator.js:665-678 | writes one attribute line per column that is not skipped, in column order |
| Generator.AutoGenerator.WriteImportLine | lib/auto-generator.js:74-79 | writes the import line for one other table, its types sorted |
| Generator.AutoGenerator.WriteImports | lib/auto-generator.js:72-80 | writes one import line per needed table, in sorted order |
| Generator.AutoGenerator.WriteTsPreamble | lib/auto-generator.js:71-105 | writes the imports, the attributes interface, the key and creation types, the class members and the `initModel` opening |
| Generator.AutoGenerator.WriteHead | lib/auto-generator.js:64-106 | writes the header, then the `ts` preamble for the `ts` language |
| Generator.AutoGenerator.GenerateModel | lib/auto-generator.js:67-129 | writes one table's model text with every placeholder replaced through `String.prototype.replace` by the model name, and attaches that table's records |
| Generator.AutoGenerator.GenerateText | lib/auto-generator.js:62-132 | every table gets exactly one text, built from the table as it was before `addTable` attached its records; afterwards every table carries them |

## Left out

- Diagnostics: the `console.log` calls at lib/auto-generator.js:424 and 715 are left out. They do not affect any result.
- Regular expressions: the regex engine is not modelled. Each regular expression is encoded as explicit prefix, suffix and substring tests on strings.
- Lower-casing: `toLowerCase` is modelled on ASCII letters only.
- Associations.UpperFirst: lodash `upperFirst` is modelled on ASCII letters only. A relation property starting with a non-ASCII letter such as `école` keeps its first letter in the model, where lodash writes `École`.
- Strings are sequences of characters. UTF-16 surrogate pairs and their code-unit ordering are not modelled.
- Numbers: JavaScript numbers are modelled as integers. A floating-point attribute value or index length has no counterpart.
- The `types` module (`makeIndent`, `recase`, `qNameSplit`, `qNameJoin`, `makeTableName`, `singularize`, `pluralize`) is not part of this model.
  - Those helpers are function-valued inputs, and nothing is assumed about them.
  - The indentation strings are given directly instead of being computed by `makeIndent`.
- The dialect's `isSerialKey` is an opaque test on a field object. An absent test is a test that is always false.
- Object key order:
  - `_.keys` is modelled as insertion order. JavaScript lists integer-like keys first in ascending order, and that rule is not modelled.
  - Sets are modelled as sequences without repeats, in insertion order.
- Crashes are modelled as preconditions. These conditions would make the source throw or recurse without end, and the model requires their absence:
  - a `null` `foreignKey` next to a `true` primary key;
  - a missing type;
  - an array column with no element type;
  - an array whose element type is an array;
  - an enum whose type is not a string;
  - a truthy `special` that is not a list;
  - a truthy non-string MSSQL default;
  - a string default on a column whose type is not a string.

  They are `FieldDefined`, `SqTypeDefined`, `TsTypeDefined`, `DefaultDefined`, `EnumValuesDefined`, `ModelReady` and `AutoGenerator.Valid`.
- `options.additional` must be present. `isTimestampField` and `isParanoidField` read it without a check. An absent `skipFields` is an empty list.
- `getTypeScriptFieldOptional` and `getTypeScriptType` (lib/auto-generator.js:679-686) are one-line lookups. They are folded into the attribute line of `TypeScript.TsFieldLine`.
- Aliasing: a field object shared between two columns or two tables is not modelled. Each column owns its object, so the in-place `fieldObj.foreignKey = …` changes only that column.
- SqTypes.LengthOf: its contract states only that the match is empty or a parenthesised digit run. That it is the leftmost such run is proved for the `name(digits)` shape by `SqTypes.LengthAfter`.
- SqTypes.PrecisionOf: its contract states only the shape of the match. That a type without `(` has none is proved by `SqTypes.PrecisionNone`.
- Generation.Es5DefinesModel: it assumes the depth-one indentation contains no `#`. `makeIndent` produces only spaces or tabs.
- Defaults.DateDefault: it covers date and timestamp columns that are not range types and whose default has no `()`. The earlier branches of the cascade decide the other cases.

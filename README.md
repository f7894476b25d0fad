# SinkSQL core, modelled in Dafny

SinkSQL is a small Java ORM: row classes annotated with `@Column`, `@ForeignKey`, `@Index`,
`@UniqueKey` and `@Nullable` are turned into `CREATE TABLE` and `INSERT` statements, fluent query
chains (`from(table).select(...).where(...).and(...)`) are translated to SQL text, and result rows
are marshalled back into row objects. This project models the deterministic part of that pipeline
and proves what it produces.

| module (file) | models |
|---|---|
| `Wrappers` (wrappers.dfy) | `Option` (a nullable reference) and `Result` (a return or a thrown exception) |
| `JavaText` (java_text.dfy) | the JDK string operations the code relies on: `trim`, `Integer.toString`, literal `replaceAll`/`replaceFirst`, one-character `replace`, `toUpperCase`, `equalsIgnoreCase` |
| `JavaTypes` (java_types.dfy) | classes as names plus a type-kind classification, a class hierarchy table, runtime values and `toString` |
| `ReflectionUtil` (reflection_util.dfy) | `primitiveMap`, `primiviteMethods`, `isNumber`, `isWrapperClass`, `isPrimitiveClass`, `primitiveToWrapper`, `wrapperToPrimitive`, `getAllFields` |
| `StringUtil` (string_util.dfy) | `isEmptyOrNull` and both forms of `formatArrayToString` |
| `CascadeAction` (cascade_action.dfy) | the five referential actions and `toSql` |
| `Annotations` (annotations.dfy) | the `@Column`, `@ForeignKey`, `@Index`, `@UniqueKey` descriptors with their defaults, and a reflected field |
| `FieldCache` (field_cache.dfy) | the static annotation cache, as a class over a `map` |
| `Database` (database.dfy) | the dialect constants of `MySqlDatabase` and `H2Database`, `stringify`, and the `SqlDatabase` object holding the translator state |
| `SqlConverters` (converters.dfy) | the static converter registry: `registerSqlConverter` and the hierarchical `getSqlConverter` |
| `AbstractTable` (abstract_table.dfy) | `getName`, `{TABLE}` substitution, `toSqlValue`, `sqlToString`, and the one-shot reconnect flag of `executeQuery`/`executeUpdate` |
| `RowMarshaller` (row_marshaller.dfy) | `hasColumn`, `setFieldFromResultSet`, `setFieldsFromResultSet`, `deserializeResultSet` over row objects with a mutable field map |
| `SqlTranslator` (sql_translator.dfy) | `parseQuery`'s walk over the chain, the per-node fragments of `toSql`, and `whereStatementToSql` with its operator truth table |
| `QueryChain` (query_chain.dfy) | the query node chain as a class with `parent`/`child` links: `from`, `select`, `update`, `delete`, `set`, `where`, `and`, `or`, parentheses, `limit`, `orderBy`, `not`, `toSql`, `get` |
| `SchemaGenerator` (schema_generator.dfy) | `toDatabaseType`, `createTable` with its validations and clause order, and `addForeignKey` |
| `RowInsert` (row_insert.dfy) | `insert`: the statement text, the bind values, and writing generated keys back |
| `OptionsRow` (options_row.dfy) | the `OptionsRow` fixture, with its `CREATE TABLE` and `INSERT` statements worked out |

Reflection is replaced by explicit descriptors: a `Field` carries its declaring class, name, type
kind, visibility and annotations, and a class hierarchy is a map from class name to its superclass
chain and interfaces. JDBC is replaced by oracles (an execution outcome, a result row as a map
from column name to value, generated keys as a sequence).

## Model

| member | source | states |
|---|---|---|
| JavaText.TrimStart | src/main/java/de/static_interface/sinksql/util/StringUtil.java:24 | the leading part `trim` removes is all characters up to the space, and what remains starts with a kept character |
| JavaText.TrimEnd | src/main/java/de/static_interface/sinksql/util/StringUtil.java:24 | the trailing part `trim` removes is all trimmable, and what remains ends with a kept character |
| JavaText.TrimEmptyIff | src/main/java/de/static_interface/sinksql/util/StringUtil.java:23-25 | `s.trim()` is empty exactly when every character of `s` is trimmable |
| JavaText.TrimIdempotent | src/main/java/de/static_interface/sinksql/util/StringUtil.java:24 | trimming twice gives what trimming once gives, so the two trims in `isEmptyOrNull` agree |
| JavaText.NatToString | src/main/java/de/static_interface/sinksql/SqlDatabase.java:82-84 | the decimal text of a number is non-empty digits with no leading zero |
| JavaText.NatToStringRoundTrip | src/main/java/de/static_interface/sinksql/SqlDatabase.java:82-84 | reading back the digits written for a natural number gives the number |
| JavaText.IntToStringRoundTrip | src/main/java/de/static_interface/sinksql/SqlDatabase.java:82-84 | `Integer.toString` yields an integer literal that parses back to the same integer |
| JavaText.IntToStringInjective | src/main/java/de/static_interface/sinksql/SqlDatabase.java:82-84 | two integers with the same text are equal |
| JavaText.ReplaceAllAbsent | src/main/java/de/static_interface/sinksql/database/AbstractTable.java:242 | `replaceAll` leaves a text in which the pattern occurs nowhere unchanged |
| JavaText.ReplaceAllSingle | src/main/java/de/static_interface/sinksql/database/AbstractTable.java:242 | a text whose only occurrence of the pattern lies between a and b becomes a, the replacement, b |
| JavaText.ReplaceFirstAbsent | src/main/java/de/static_interface/sinksql/database/AbstractTable.java:524-534 | `replaceFirst` leaves a text in which the pattern occurs nowhere unchanged |
| JavaText.ReplaceFirstAt | src/main/java/de/static_interface/sinksql/database/AbstractTable.java:524-534 | when no occurrence starts before the one after a, `replaceFirst` replaces that one and keeps everything after it verbatim, including later occurrences |
| JavaText.ReplaceChar | src/main/java/de/static_interface/sinksql/database/CascadeAction.java:46 | `replace("_", " ")`, the CharSequence overload with one-character target and replacement, keeps the length and substitutes exactly the matching positions |
| JavaText.ToUpper | src/main/java/de/static_interface/sinksql/SqlDatabase.java:204-209 | `toUpperCase` keeps the length and upper-cases position by position |
| JavaTypes.ClassOf | src/main/java/de/static_interface/sinksql/database/util/ReflectionUtil.java:167-170 | `getClass` of a runtime object is never a primitive class, so `wrapperToPrimitive`'s first branch never fires |
| JavaTypes.SimpleNameInPackage | src/main/java/de/static_interface/sinksql/database/AbstractTable.java:76 | `getSimpleName` of a class in a package is the part after the package |
| ReflectionUtil.PrimitiveMapIsBijection | src/main/java/de/static_interface/sinksql/database/util/ReflectionUtil.java:31-43 | `primitiveMap` has the eight primitives as keys and the eight wrappers as values, maps each primitive to its own wrapper, and is injective |
| ReflectionUtil.PrimitiveMapKeys | src/main/java/de/static_interface/sinksql/database/util/ReflectionUtil.java:35-42 | the keys of `primitiveMap` are exactly the eight primitive classes |
| ReflectionUtil.PrimitiveMapPairs | src/main/java/de/static_interface/sinksql/database/util/ReflectionUtil.java:35-42 | every key of `primitiveMap` is a primitive mapped to its own wrapper |
| ReflectionUtil.PrimitiveMapValues | src/main/java/de/static_interface/sinksql/database/util/ReflectionUtil.java:35-42 | the values of `primitiveMap` are exactly the eight wrapper classes |
| ReflectionUtil.PrimitiveMethodsCoverNumericPrimitives | src/main/java/de/static_interface/sinksql/database/util/ReflectionUtil.java:45-57 | a class is a key of `primiviteMethods` exactly when it is one of the six numeric primitives |
| ReflectionUtil.WrapperClasses | src/main/java/de/static_interface/sinksql/database/util/ReflectionUtil.java:123-125 | `isWrapperClass` holds exactly for the eight wrapper classes (so not for `String`) |
| ReflectionUtil.IsNumberExactly | src/main/java/de/static_interface/sinksql/database/util/ReflectionUtil.java:95-103 | `isNumber` holds exactly for the numeric primitives, their wrappers and other `Number` subclasses; not for boolean, char, their wrappers or `String` |
| ReflectionUtil.PrimitiveToWrapper | src/main/java/de/static_interface/sinksql/database/util/ReflectionUtil.java:105-121 | a wrapper object is returned unchanged; any other object reaches `getMethod` on the null wrapper class and throws `NullPointerException` |
| ReflectionUtil.WrapperToPrimitive | src/main/java/de/static_interface/sinksql/database/util/ReflectionUtil.java:167-190 | a null value throws `NullPointerException`; every other value comes back unchanged (unboxing is the identity on values) |
| ReflectionUtil.AllFieldsStartWithOwn | src/main/java/de/static_interface/sinksql/database/util/ReflectionUtil.java:59-69 | the class's own declared fields come first, in declaration order |
| ReflectionUtil.GetAllFields | src/main/java/de/static_interface/sinksql/database/util/ReflectionUtil.java:59-69 | the loop returns the declared fields of the class and then of each superclass, nearest first |
| StringUtil.IsEmptyOrNullTrims | src/main/java/de/static_interface/sinksql/util/StringUtil.java:23-25 | `isEmptyOrNull` holds exactly for null and for strings that `trim` empties |
| StringUtil.FormatArrayRange | src/main/java/de/static_interface/sinksql/util/StringUtil.java:30-60 | a null or empty array gives `""` before any index check; a negative start or an end not after the start throws `IllegalArgumentException`; an end past the array throws; otherwise the result is the join of the range with a null separator read as a space |
| StringUtil.FormatArray | src/main/java/de/static_interface/sinksql/util/StringUtil.java:26-28 | the two-argument form dereferences a null array (`NullPointerException`) and otherwise is the range form over the whole array |
| StringUtil.JoinFromTextStep | src/main/java/de/static_interface/sinksql/util/StringUtil.java:52-56 | one non-null element with a non-empty text moves from the array onto the joined texts |
| StringUtil.JoinFromIsJoin | src/main/java/de/static_interface/sinksql/util/StringUtil.java:46-57 | when no element prints as `""`, the loop continuing from a join of texts is the join of those texts followed by the texts of the non-null elements; nulls leave no separator |
| StringUtil.FormatArrayIsJoin | src/main/java/de/static_interface/sinksql/util/StringUtil.java:46-57 | under the same condition the whole loop is the usual separator join of the non-null elements' texts |
| StringUtil.EmptyTextAfterFirstKeepsSeparator | src/main/java/de/static_interface/sinksql/util/StringUtil.java:52-56 | an element printing as `""` is skipped while the accumulator is empty, but later it still adds a separator: `["", "a", "", "b"]` gives `a` + sep + sep + `b` |
| CascadeAction.ToSql | src/main/java/de/static_interface/sinksql/database/CascadeAction.java:45-47 | the SQL text never contains `_` and has the length of the constant's name |
| CascadeAction.TwoWordName | src/main/java/de/static_interface/sinksql/database/CascadeAction.java:45-47 | a constant named `X_Y` is written `X Y` |
| CascadeAction.ToSqlIsKeyword | src/main/java/de/static_interface/sinksql/database/CascadeAction.java:27-47 | the five constants are written `RESTRICT`, `CASCADE`, `SET NULL`, `SET DEFAULT`, `NO ACTION` |
| CascadeAction.ToSqlInjective | src/main/java/de/static_interface/sinksql/database/CascadeAction.java:45-47 | distinct actions have distinct SQL texts |
| Annotations.AnnotationOf | src/main/java/de/static_interface/sinksql/database/FieldCache.java:40 | `getAnnotation` returns either null or an annotation of the requested type |
| Annotations.DefaultColumnNamesAfterField | src/main/java/de/static_interface/sinksql/database/annotation/Column.java:35-43 | a bare `@Column` (name `""`) names the column after the field |
| Annotations.ColumnNameChoice | src/main/java/de/static_interface/sinksql/SqlDatabase.java:393 | the annotation's name is used exactly when it has a non-trimmable character (or coincides with the field name) |
| FieldCache.CacheKeyInjective | src/main/java/de/static_interface/sinksql/database/FieldCache.java:36 | as field names contain no `.`, the key `declaringClass + "." + name` determines the declaring class and the name |
| FieldCache.LoadedFieldsHaveDistinctKeys | src/main/java/de/static_interface/sinksql/database/FieldCache.java:36 | fields identified by class and name have pairwise distinct cache keys |
| FieldCache.LookupTransparent | src/main/java/de/static_interface/sinksql/database/FieldCache.java:35-43 | a lookup answers exactly what `Field.getAnnotation` answers, and the cache stays consistent with the fields |
| FieldCache.LookupOfOtherTypeEvicts | src/main/java/de/static_interface/sinksql/database/FieldCache.java:37-42 | a cached annotation of another type is overwritten by the fresh answer, so a field with two annotations makes their lookups evict each other |
| FieldCache.AnnotationCache.constructor | src/main/java/de/static_interface/sinksql/database/FieldCache.java:32 | the cache starts empty |
| FieldCache.AnnotationCache.GetAnnotation | src/main/java/de/static_interface/sinksql/database/FieldCache.java:35-43 | the method returns the uncached annotation, and the new cache is the old one with the key set to the answer (even null) unless it was a hit |
| Database.Escape | src/main/java/de/static_interface/sinksql/SqlDatabase.java:352 | escaping never shortens the text |
| Database.Stringify | src/main/java/de/static_interface/sinksql/SqlDatabase.java:348-354 | null stays null and every string gives a literal |
| Database.EscapeRoundTrip | src/main/java/de/static_interface/sinksql/SqlDatabase.java:352 | the backslash escaping of `'`, `"` and `\` can be undone |
| Database.StringifyRoundTrip | src/main/java/de/static_interface/sinksql/SqlDatabase.java:348-354 | stripping the quotes from a stringified text and unescaping gives the original string |
| Database.StringifyInjective | src/main/java/de/static_interface/sinksql/SqlDatabase.java:348-354 | different strings give different literals |
| Database.SqlDatabase.constructor | src/main/java/de/static_interface/sinksql/SqlDatabase.java:61-75 | the backtick is fixed and the translator state starts at no query type with the first SET pending |
| SqlConverters.DbChain | src/main/java/de/static_interface/sinksql/database/AbstractTable.java:148-151 | the chain of database types the lookup retries with starts at the requested type |
| SqlConverters.Register | src/main/java/de/static_interface/sinksql/database/AbstractTable.java:65-82 | a successful registration adds the converter under (database type, object type) and leaves every other database type's converters unchanged |
| SqlConverters.RegisterFailsIff | src/main/java/de/static_interface/sinksql/database/AbstractTable.java:66-78 | registration fails exactly when the database type is not a `Database`, which is a `ClassCastException`, or the pair already has a converter |
| SqlConverters.RegisterKeepsDatabaseKeys | src/main/java/de/static_interface/sinksql/database/AbstractTable.java:66-81 | the registry only ever has `Database` subtypes as keys |
| SqlConverters.InterfaceMatches | src/main/java/de/static_interface/sinksql/database/AbstractTable.java:114-119 | the interfaces counted are direct interfaces of the object type that have a converter |
| SqlConverters.FirstRegistered | src/main/java/de/static_interface/sinksql/database/AbstractTable.java:132-141 | the superclass walk stops at a class with a converter, or finds none when no class on the chain has one |
| SqlConverters.FindExact | src/main/java/de/static_interface/sinksql/database/AbstractTable.java:104-107 | a converter for the exact object type wins |
| SqlConverters.FindAmbiguousInterfaces | src/main/java/de/static_interface/sinksql/database/AbstractTable.java:121-126 | two or more matching direct interfaces throw `IllegalStateException`, whose message names the object class and the database type by their simple names |
| SqlConverters.DuplicateNamesSimpleClasses | src/main/java/de/static_interface/sinksql/database/AbstractTable.java:74-77 | the duplicate-registration `IllegalStateException` names the object class and the database type by their simple names |
| SqlConverters.FindInheritedFromDatabaseSupertype | src/main/java/de/static_interface/sinksql/database/AbstractTable.java:148-151 | database types without any converters are skipped: the lookup is the lookup from the first supertype that has some |
| SqlConverters.FindIsRegistered | src/main/java/de/static_interface/sinksql/database/AbstractTable.java:101-154 | any converter found was registered for some database type on the chain |
| SqlConverters.RegisterThenFind | src/main/java/de/static_interface/sinksql/database/AbstractTable.java:65-107 | right after registering a converter, looking up the same pair finds it |
| SqlConverters.ConverterRegistry.constructor | src/main/java/de/static_interface/sinksql/database/AbstractTable.java:52 | the registry starts empty |
| SqlConverters.ConverterRegistry.RegisterSqlConverter | src/main/java/de/static_interface/sinksql/database/AbstractTable.java:65-82 | on success the map becomes the registered one; on either error the map is unchanged |
| SqlConverters.ConverterRegistry.GetSqlConverter | src/main/java/de/static_interface/sinksql/database/AbstractTable.java:101-154 | the method returns the lookup along the database type's chain |
| SqlConverters.ConverterRegistry.GetSqlConverterFrom | src/main/java/de/static_interface/sinksql/database/AbstractTable.java:101-154 | the recursive method (one database type per call) returns the lookup from that point of the chain |
| SqlConverters.ConverterRegistry.SearchConverters | src/main/java/de/static_interface/sinksql/database/AbstractTable.java:104-145 | the exact, interface and superclass search in one database type's converters returns the specification's answer |
| SqlConverters.ToSqlValue | src/main/java/de/static_interface/sinksql/database/AbstractTable.java:205-229 | a null object is dereferenced (`o.getClass()`) and throws `NullPointerException` |
| SqlConverters.StringWithoutConverter | src/main/java/de/static_interface/sinksql/database/AbstractTable.java:211-228 | without a converter, a string (any string in strict mode; other than `?` and `null` otherwise) is stringified |
| SqlConverters.StringBecomesLiteral | src/main/java/de/static_interface/sinksql/database/AbstractTable.java:211-228 | such a string becomes a literal that reads back as the string |
| SqlConverters.NonStrictSpecialStrings | src/main/java/de/static_interface/sinksql/database/AbstractTable.java:212-218 | non-strict `?` is returned raw and non-strict `null` in any case gives null; strict `?` is quoted |
| SqlConverters.IntegerPrintsAsDecimal | src/main/java/de/static_interface/sinksql/database/AbstractTable.java:223-226 | an `Integer` without a converter is written as its decimal text, which parses back to the number |
| AbstractTable.SubstituteTablePlacesName | src/main/java/de/static_interface/sinksql/database/AbstractTable.java:417 | a statement whose only `{TABLE}` is the one after its head gets the table name in its place and is otherwise unchanged |
| AbstractTable.SqlToStringWithoutBindings | src/main/java/de/static_interface/sinksql/database/AbstractTable.java:525-527 | with a null or empty parameter array the statement is returned unchanged |
| AbstractTable.FillBindingsInOrder | src/main/java/de/static_interface/sinksql/database/AbstractTable.java:529-531 | when neither the statement's text nor the bindings' texts hold a stray `?`, the i-th binding (null as `NULL`) lands on the i-th `?` |
| AbstractTable.FillFirstHole | src/main/java/de/static_interface/sinksql/database/AbstractTable.java:530 | one `replaceFirst` writes the first binding at the first `?` and keeps the remaining holes |
| AbstractTable.FirstHoleText | src/main/java/de/static_interface/sinksql/database/AbstractTable.java:530 | `replaceFirst` of `?` fills the first hole and keeps the rest verbatim |
| AbstractTable.SqlToStringFillsInOrder | src/main/java/de/static_interface/sinksql/database/AbstractTable.java:524-534 | `sqlToString` writes the i-th binding at the i-th placeholder |
| AbstractTable.MarkInBindingIsRefilled | src/main/java/de/static_interface/sinksql/database/AbstractTable.java:529-531 | a binding whose text contains `?` has that mark filled by the next binding: `"? ?"` with `a?`, `b` gives `ab ?` |
| AbstractTable.HasColumn | src/main/java/de/static_interface/sinksql/database/AbstractTable.java:90-99 | `hasColumn` is true exactly when some column of the row has that exact name |
| AbstractTable.QueryAtMostOneRetry | src/main/java/de/static_interface/sinksql/database/AbstractTable.java:424-438 | a statement is attempted at most twice, and twice exactly when the first attempt lost the connection while the flag was clear; updates retry exactly as queries do |
| AbstractTable.QueryRowsComeFromAnAttempt | src/main/java/de/static_interface/sinksql/database/AbstractTable.java:424-445 | rows returned by `executeQuery` are those of the first or of the retried attempt |
| AbstractTable.QueryRecoversAfterReconnect | src/main/java/de/static_interface/sinksql/database/AbstractTable.java:428-445 | a query that lost its connection succeeds with the retry's rows and leaves the flag clear |
| AbstractTable.FailedRetryDisablesReconnect | src/main/java/de/static_interface/sinksql/database/AbstractTable.java:428-442 | a failed retry leaves the flag set, so the next lost connection on this table is not retried |
| AbstractTable.UpdateFailsEvenAfterSuccessfulRetry | src/main/java/de/static_interface/sinksql/database/AbstractTable.java:500-518 | `executeUpdate` has no return after its retry: it throws even when the retried update succeeded |
| AbstractTable.SuccessIffLastAttemptSucceeds | src/main/java/de/static_interface/sinksql/database/AbstractTable.java:416-521 | a query succeeds exactly when its last attempt does, and then the flag is clear; an update succeeds exactly when its first attempt does |
| AbstractTable.Table.constructor | src/main/java/de/static_interface/sinksql/database/AbstractTable.java:55-63 | a table starts with its name and database and the reconnect flag clear |
| AbstractTable.Table.GetName | src/main/java/de/static_interface/sinksql/database/AbstractTable.java:159-162 | the name is the table prefix followed by the table's own name |
| AbstractTable.Table.ExecuteQuery | src/main/java/de/static_interface/sinksql/database/AbstractTable.java:416-450 | the method's result, flag and attempt count are those of the retry specification |
| AbstractTable.Table.ExecuteUpdate | src/main/java/de/static_interface/sinksql/database/AbstractTable.java:492-521 | the method's result, flag and attempt count are those of the update retry specification |
| RowMarshaller.RowInstance.constructor | src/main/java/de/static_interface/sinksql/database/AbstractTable.java:374 | a fresh row instance has no field set |
| RowMarshaller.Narrow | src/main/java/de/static_interface/sinksql/database/AbstractTable.java:299-306 | two's-complement narrowing always lands in the target range |
| RowMarshaller.NarrowKeepsFittingValues | src/main/java/de/static_interface/sinksql/database/AbstractTable.java:299-306 | narrowing keeps a value that fits and otherwise differs from it by a multiple of the range's size |
| RowMarshaller.ColumnIndex | src/main/java/de/static_interface/sinksql/database/AbstractTable.java:284-286 | the driver reads the first column with that exact label, or finds none when no column has it |
| RowMarshaller.MissingColumnFails | src/main/java/de/static_interface/sinksql/database/AbstractTable.java:284-314 | reading a column the row lacks fails |
| RowMarshaller.LongIntoIntegerField | src/main/java/de/static_interface/sinksql/database/AbstractTable.java:299-306 | a `Long` read into an `Integer` field is stored as an `Integer` in the 32-bit range, equal to the `Long` when it fits |
| RowMarshaller.LongNarrowedToInteger | src/main/java/de/static_interface/sinksql/database/AbstractTable.java:299-306 | that `Integer` is the `Long`'s `intValue` |
| RowMarshaller.NarrowedToInteger | src/main/java/de/static_interface/sinksql/database/AbstractTable.java:299-306 | an `Integer` field cannot hold a `Long`, `Byte` or `Short`, so the narrowing takes the `intValue` branch |
| RowMarshaller.NarrowedStored | src/main/java/de/static_interface/sinksql/database/AbstractTable.java:299-335 | for a public non-boolean object field, the narrowed value is what `Field.set` stores when the field's type accepts it, and an `IllegalArgumentException` when it does not |
| RowMarshaller.LongIntoIntFieldRefused | src/main/java/de/static_interface/sinksql/database/AbstractTable.java:299-330 | a `Long` read into a primitive `int` field is not narrowed, and `Field.set` refuses it with an `IllegalArgumentException` |
| RowMarshaller.IntegerWidenedIntoLongField | src/main/java/de/static_interface/sinksql/database/AbstractTable.java:328-330 | an `Integer` read into a primitive `long` field is widened by `Field.set` to a `long` of the same value |
| RowMarshaller.IntegerIntoBooleanField | src/main/java/de/static_interface/sinksql/database/AbstractTable.java:316-320 | an `Integer` read into a `Boolean` field becomes `n != 0` |
| RowMarshaller.NumberIntoBooleanField | src/main/java/de/static_interface/sinksql/database/AbstractTable.java:316-320 | any number read into a `Boolean` field becomes a boolean: false only for the `Integer` zero |
| RowMarshaller.LongKeptInBoolean | src/main/java/de/static_interface/sinksql/database/AbstractTable.java:299-306 | a `Long` read into a `Boolean` field is not narrowed |
| RowMarshaller.LongStoredAsTrue | src/main/java/de/static_interface/sinksql/database/AbstractTable.java:316-320 | a `Long` the narrowing leaves alone, read into a `Boolean` field, is true: it is never the `Integer` zero |
| RowMarshaller.LongIntoBooleanField | src/main/java/de/static_interface/sinksql/database/AbstractTable.java:299-320 | every `Long`, zero included, read into a `Boolean` field is stored as true |
| RowMarshaller.StringArrivesUnchanged | src/main/java/de/static_interface/sinksql/database/AbstractTable.java:284-335 | a string column read into a public `String` field is stored unchanged |
| RowMarshaller.SetFieldFromResultSet | src/main/java/de/static_interface/sinksql/database/AbstractTable.java:280-336 | on success exactly the one field is updated to the converted value, refused by `Field.set` when the field's type does not accept it; on failure the instance is unchanged |
| RowMarshaller.SetFieldsEffect | src/main/java/de/static_interface/sinksql/database/AbstractTable.java:338-360 | after a successful pass, every `@Column` field whose column the row has holds the value converted from it, and every other field keeps its value |
| RowMarshaller.SetFieldsKeepsRead | src/main/java/de/static_interface/sinksql/database/AbstractTable.java:338-360 | each field either keeps its value or holds the value read from its own column |
| RowMarshaller.SetFieldsFromResultSet | src/main/java/de/static_interface/sinksql/database/AbstractTable.java:338-360 | the instance's fields become those of the fold over the row class's fields; a failure is rethrown |
| RowMarshaller.Deserialize | src/main/java/de/static_interface/sinksql/database/AbstractTable.java:362-387 | a successful deserialisation yields one row object per result row |
| RowMarshaller.DeserializeRowwise | src/main/java/de/static_interface/sinksql/database/AbstractTable.java:362-387 | deserialisation succeeds exactly when every row does, and then the i-th object is the i-th row read into a fresh instance |
| RowMarshaller.DeserializeFirstError | src/main/java/de/static_interface/sinksql/database/AbstractTable.java:371-382 | the first failing row's error is the one thrown |
| RowMarshaller.DeserializeResultSet | src/main/java/de/static_interface/sinksql/database/AbstractTable.java:362-387 | the method yields distinct fresh instances, one per row in row order, holding the specification's field values, or the first row's error |
| RowMarshaller.Get | src/main/java/de/static_interface/sinksql/database/AbstractTable.java:240-262 | `get` runs the statement with the reconnect retry, rethrows a failed execution, and otherwise deserialises every returned row |
| SqlTranslator.ComparisonOperatorMeaning | src/main/java/de/static_interface/sinksql/SqlDatabase.java:296-311 | the operator written for a comparison means exactly what `gt`/`gte`/`lt`/`lte` ask for, negated when `not` was applied an odd number of times |
| SqlTranslator.OperatorTable | src/main/java/de/static_interface/sinksql/SqlDatabase.java:296-311 | gt writes `>`, not(gt) `<=`, lt `<`, not(lt) `>=`, gte `>=`, not(gte) `<`, lte `<=`, not(lte) `>` |
| SqlTranslator.WhereStatement | src/main/java/de/static_interface/sinksql/SqlDatabase.java:280-345 | a null condition is dereferenced (`NullPointerException`); a rendered condition is longer than the quoted column |
| SqlTranslator.EqualsStatement | src/main/java/de/static_interface/sinksql/SqlDatabase.java:284-333 | an equality with a non-null value writes the optional `(`, the quoted column, ` = `, the value's raw `toString` (unquoted) and the optional `)` |
| SqlTranslator.LikePatternUnquoted | src/main/java/de/static_interface/sinksql/SqlDatabase.java:335-342 | `LIKE`/`NOT LIKE` is followed directly by the raw pattern, with no space and no quoting |
| SqlTranslator.FragmentState | src/main/java/de/static_interface/sinksql/SqlDatabase.java:147-216 | a node translated without error records the statement kind of SELECT/UPDATE/DELETE nodes and keeps it otherwise; the first-SET flag stays set exactly past a node that is not a SET node |
| SqlTranslator.WalkReachesNode | src/main/java/de/static_interface/sinksql/SqlDatabase.java:135-144 | in a walk that completes, each node translates from the statement kind of the nodes before it, with the first-SET flag still set exactly when none of them is a SET node |
| SqlTranslator.SetKeywordOnFirstSetOnly | src/main/java/de/static_interface/sinksql/SqlDatabase.java:180-190 | in an UPDATE that translates from the reset state, a SET node's fragment starts with `SET ` when no SET node precedes it and with `, ` otherwise |
| SqlTranslator.WalkResetsState | src/main/java/de/static_interface/sinksql/SqlDatabase.java:136-145 | a walk that completes resets the query type and the first-SET flag and returns trimmed text |
| SqlTranslator.SetOnlyInUpdate | src/main/java/de/static_interface/sinksql/SqlDatabase.java:174-177 | in a chain that translates, every SET node follows a statement node that made the query an UPDATE |
| SqlTranslator.TranslatedChainHasOnlyKnownNodes | src/main/java/de/static_interface/sinksql/SqlDatabase.java:215 | a chain that translates holds no node type the translator does not know |
| SqlTranslator.WalkStep | src/main/java/de/static_interface/sinksql/SqlDatabase.java:138-141 | the walk appends the first node's fragment and continues with the state it left |
| SqlTranslator.WalkFails | src/main/java/de/static_interface/sinksql/SqlDatabase.java:136-141 | an exception in a fragment ends the walk with that exception, leaving the state as that fragment left it (no reset) |
| SqlTranslator.WalkAdvance | src/main/java/de/static_interface/sinksql/SqlDatabase.java:138-141 | the walk from node i is the fragment of node i followed by the walk from node i+1, or that fragment's exception |
| SqlTranslator.WalkTwo | src/main/java/de/static_interface/sinksql/SqlDatabase.java:136-145 | a two-node chain translates to the trimmed concatenation of its two fragments and resets the state |
| SqlTranslator.WalkPair | src/main/java/de/static_interface/sinksql/SqlDatabase.java:138-141 | two successful fragments are appended in order |
| SqlTranslator.TrimOneSpace | src/main/java/de/static_interface/sinksql/SqlDatabase.java:144 | trimming a statement ending in one fragment space removes just that space |
| SqlTranslator.TrimAppendedSpace | src/main/java/de/static_interface/sinksql/SqlDatabase.java:144 | the same for a statement assembled from a head and a tail |
| SqlTranslator.SelectAllFragment | src/main/java/de/static_interface/sinksql/SqlDatabase.java:158-162 | `select("*")` writes ``SELECT * FROM `{TABLE}` `` and records a SELECT |
| SqlTranslator.UpdateFragment | src/main/java/de/static_interface/sinksql/SqlDatabase.java:164-167 | `update()` writes ``UPDATE `{TABLE}` `` and records an UPDATE |
| SqlTranslator.ClauseFragmentText | src/main/java/de/static_interface/sinksql/SqlDatabase.java:192-202 | a WHERE/AND/OR node writes its keyword, the condition and one space, and leaves the state alone |
| SqlTranslator.PlaceholderWhereFragment | src/main/java/de/static_interface/sinksql/SqlDatabase.java:200-202 | `where("id", eq("?"))` writes ``WHERE `id` = ? `` |
| SqlTranslator.SelectWhereExample | src/main/java/de/static_interface/sinksql/wrapper/IdRowWrapper.java:36 | the chain `select().where("id", eq("?"))` translates to ``SELECT * FROM `{TABLE}` WHERE `id` = ?`` |
| SqlTranslator.PlaceholderSet | src/main/java/de/static_interface/sinksql/SqlDatabase.java:174-190 | in an UPDATE, `set(c, "?")` writes `SET` before the first assignment and `, ` before later ones, and clears the first-SET flag |
| SqlTranslator.PlaceholderSetFragment | src/main/java/de/static_interface/sinksql/SqlDatabase.java:182-189 | the same, with the assignment spelled out for a one-letter column |
| SqlTranslator.UpdateSetHead | src/main/java/de/static_interface/sinksql/SqlDatabase.java:164-189 | `update().set("a","?")` starts ``UPDATE `{TABLE}` SET `a`=? `` |
| SqlTranslator.UpdateSetTail | src/main/java/de/static_interface/sinksql/SqlDatabase.java:183-202 | a second SET writes ``, `b`=? `` and the WHERE follows |
| SqlTranslator.UpdateSetExample | src/main/java/de/static_interface/sinksql/SqlDatabase.java:136-202 | `update().set("a","?").set("b","?").where("id", eq("?"))` translates to ``UPDATE `{TABLE}` SET `a`=? , `b`=? WHERE `id` = ?`` |
| SqlTranslator.SetAfterSelectRefused | src/main/java/de/static_interface/sinksql/SqlDatabase.java:174-177 | a SET after a SELECT throws `IllegalStateException` |
| SqlTranslator.FailedSetKeepsState | src/main/java/de/static_interface/sinksql/SqlDatabase.java:174-190 | a SET whose value is null throws in `toSqlValue`, and the translator is left in UPDATE with the first SET consumed |
| SqlTranslator.LeakedStateBreaksNextUpdate | src/main/java/de/static_interface/sinksql/SqlDatabase.java:136-190 | after such a failure, the next UPDATE on the same database writes its first assignment with `, ` instead of `SET` |
| SqlTranslator.OpeningFragment | src/main/java/de/static_interface/sinksql/SqlDatabase.java:284-286 | parenthesis state 1 prefixes `(` |
| SqlTranslator.ClosingFragment | src/main/java/de/static_interface/sinksql/SqlDatabase.java:288-290 | parenthesis state 2 suffixes `)` |
| SqlTranslator.ParenthesisExample | src/main/java/de/static_interface/sinksql/SqlDatabase.java:284-290 | `where("a", eq(1)).openParanthesis().or("b", eq(2)).closeParanthesis()` writes ``WHERE (`a` = 1 OR `b` = 2)`` |
| QueryChain.Condition.constructor | src/main/java/de/static_interface/sinksql/database/query/Query.java:60-111 | a new condition holds its kind and value and is neither negated nor inverted |
| QueryChain.Eq | src/main/java/de/static_interface/sinksql/database/query/Query.java:60-62 | `eq(o)` builds a fresh equality condition on `o` |
| QueryChain.Gt | src/main/java/de/static_interface/sinksql/database/query/Query.java:73-75 | `gt(o)` builds a fresh greater-than condition |
| QueryChain.Lt | src/main/java/de/static_interface/sinksql/database/query/Query.java:81-85 | `lt(o)` is a greater-than condition with the inverted flag set |
| QueryChain.Gte | src/main/java/de/static_interface/sinksql/database/query/Query.java:91-93 | `gte(o)` builds a fresh greater-or-equal condition |
| QueryChain.Lte | src/main/java/de/static_interface/sinksql/database/query/Query.java:99-103 | `lte(o)` is a greater-or-equal condition with the inverted flag set |
| QueryChain.Like | src/main/java/de/static_interface/sinksql/database/query/Query.java:109-111 | `like(p)` builds a fresh LIKE condition on the pattern |
| QueryChain.Not | src/main/java/de/static_interface/sinksql/database/query/Query.java:64-67 | `not(c)` flips the negation of the same condition object and leaves inversion alone |
| QueryChain.NotNot | src/main/java/de/static_interface/sinksql/database/query/Query.java:64-67 | negating twice gives back the condition as it was |
| QueryChain.Query.Root | src/main/java/de/static_interface/sinksql/query/SubQuery.java:29-36 | following parents ends at the FROM query that started the chain |
| QueryChain.Query.From | src/main/java/de/static_interface/sinksql/database/query/impl/FromQuery.java:26-29 | `from(table)` starts a chain whose root is itself, holding the table, no child and parenthesis state 0 |
| QueryChain.Query.Sub | src/main/java/de/static_interface/sinksql/query/SubQuery.java:25-27 | a sub-query keeps its parent, has no table of its own and shares the parent's root |
| QueryChain.Query.GetTableIsRootTable | src/main/java/de/static_interface/sinksql/query/SubQuery.java:33-36 | `getTable` of any query in a chain is the table of the root FROM query |
| QueryChain.Query.SetTable | src/main/java/de/static_interface/sinksql/query/SubQuery.java:38-41 | setting the table anywhere in a chain sets it on the root and changes nothing else there |
| QueryChain.Query.MasterQueryIsRootChild | src/main/java/de/static_interface/sinksql/database/query/impl/FromQuery.java:66-69 | `getMasterQuery` of any query is the root's child when that is a statement node or null, and a `ClassCastException` when it is another node |
| QueryChain.Query.SetChild | src/main/java/de/static_interface/sinksql/database/query/Query.java:210-212 | `setChild` replaces the child and nothing else |
| QueryChain.Query.Attach | src/main/java/de/static_interface/sinksql/database/query/Query.java:210-212 | a fresh node of the given kind becomes this query's child and shares its root |
| QueryChain.Query.Select | src/main/java/de/static_interface/sinksql/database/query/impl/FromQuery.java:42-46 | `select(columns)` installs a fresh SELECT node under the FROM query |
| QueryChain.Query.SelectAll | src/main/java/de/static_interface/sinksql/database/query/impl/FromQuery.java:34-36 | `select()` is a SELECT over the single column `*` |
| QueryChain.Query.Update | src/main/java/de/static_interface/sinksql/database/query/impl/FromQuery.java:51-55 | `update()` installs a fresh UPDATE node under the FROM query |
| QueryChain.Query.Delete | src/main/java/de/static_interface/sinksql/database/query/impl/FromQuery.java:60-64 | `delete()` installs a fresh DELETE node under the FROM query |
| QueryChain.Query.Set | src/main/java/de/static_interface/sinksql/query/impl/SetQuery.java:29-39 | `set(column, value)` installs a fresh SET node with that column and value |
| QueryChain.Query.Where | src/main/java/de/static_interface/sinksql/query/impl/SetQuery.java:41-45 | `where(column, condition)` installs a fresh WHERE node |
| QueryChain.Query.And | src/main/java/de/static_interface/sinksql/database/query/impl/WhereQuery.java:63-67 | `and(column, condition)` installs a fresh AND node after a WHERE-like node |
| QueryChain.Query.Or | src/main/java/de/static_interface/sinksql/database/query/impl/WhereQuery.java:74-78 | `or(column, condition)` installs a fresh OR node after a WHERE-like node |
| QueryChain.Query.OrderBy | src/main/java/de/static_interface/sinksql/database/query/Query.java:141-145 | `orderBy(column, order)` installs a fresh ORDER BY node |
| QueryChain.Query.Limit | src/main/java/de/static_interface/sinksql/database/query/Query.java:130-134 | `limit(offset, rowCount)` installs a fresh LIMIT node |
| QueryChain.Query.LimitRows | src/main/java/de/static_interface/sinksql/database/query/Query.java:121-123 | `limit(rowCount)` is a LIMIT with offset 0 |
| QueryChain.Query.OpenParenthesis | src/main/java/de/static_interface/sinksql/database/query/impl/WhereQuery.java:36-39 | sets the parenthesis state to 1 and returns the same node |
| QueryChain.Query.CloseParenthesis | src/main/java/de/static_interface/sinksql/database/query/impl/WhereQuery.java:41-44 | sets the parenthesis state to 2 and returns the same node |
| QueryChain.Query.ResetParenthesisState | src/main/java/de/static_interface/sinksql/database/query/impl/WhereQuery.java:46-48 | sets the parenthesis state back to 0 |
| QueryChain.Query.DisableColumnVerification | src/main/java/de/static_interface/sinksql/database/query/Query.java:219-222 | sets the flag and returns the same node |
| QueryChain.ViewsAt | src/main/java/de/static_interface/sinksql/SqlDatabase.java:136-145 | the i-th node the translator sees is the value of the i-th query in the chain |
| QueryChain.ChainSharesRoot | src/main/java/de/static_interface/sinksql/query/SubQuery.java:29-36 | every query of a parent-linked chain has the same root |
| QueryChain.NodeToSql | src/main/java/de/static_interface/sinksql/SqlDatabase.java:147-216 | translating one node writes the fragment and translator state that the fragment function gives for that node's value |
| QueryChain.ParseQuery | src/main/java/de/static_interface/sinksql/SqlDatabase.java:136-145 | walking the chain from a node gives the text and final state of the walk over the nodes' values |
| QueryChain.ToSql | src/main/java/de/static_interface/sinksql/database/query/Query.java:171-173 | a chain whose root's child is not a statement node throws `ClassCastException`; one without a statement or table throws `NullPointerException`; either exception leaves the database untouched; otherwise its SQL and the database's translator state afterwards are those of the walk from the master query |
| QueryChain.MasterTable | src/main/java/de/static_interface/sinksql/database/query/Query.java:153-155 | `getMasterQuery().getTable()` throws `ClassCastException` for a root child that is not a statement node, then `NullPointerException` for a missing statement or table, and otherwise yields the root's table, changing nothing |
| QueryChain.Execute | src/main/java/de/static_interface/sinksql/database/query/Query.java:153-155 | the `ClassCastException` or `NullPointerException` of `getMasterQuery` is reported and leaves table and database unchanged; otherwise the translator state afterwards is the walk's (reset after a completed walk, left set after a failed one), a failed translation is reported and keeps the reconnect flag, and a translated update runs with at most one reconnect |
| QueryChain.GetResults | src/main/java/de/static_interface/sinksql/database/query/Query.java:163-165 | the `getMasterQuery` exceptions leave table and database unchanged; otherwise the translator state afterwards is the walk's, a failed translation keeps the reconnect flag, and a translated query sets it as the retry does; translation, execution and deserialisation errors are passed on; on success there is one row object per result row, holding that row's deserialised field values |
| QueryChain.Get | src/main/java/de/static_interface/sinksql/database/query/Query.java:180-186 | the same errors, translator state and reconnect flag as `getResults`; `get` gives null exactly when the query returned no rows, and otherwise the object holding the first row's field values |
| QueryChain.IdLookup | src/main/java/de/static_interface/sinksql/wrapper/IdRowWrapper.java:36 | the id lookup renders as ``SELECT * FROM `{TABLE}` WHERE `id` = ?`` |
| SchemaGenerator.KeyLength | src/main/java/de/static_interface/sinksql/SqlDatabase.java:81-84 | the length suffix is empty exactly when the key length is negative |
| SchemaGenerator.KeyLengthRoundTrip | src/main/java/de/static_interface/sinksql/SqlDatabase.java:82-84 | a non-negative key length is written as `(n)`, and the digits read back as n |
| SchemaGenerator.ToDatabaseTypeFailsIff | src/main/java/de/static_interface/sinksql/SqlDatabase.java:78-126 | `toDatabaseType` returns a type exactly for annotated fields of a numeric, boolean or String type |
| SchemaGenerator.NumericTypes | src/main/java/de/static_interface/sinksql/SqlDatabase.java:97-117 | int, long, short, byte, double and float fields (primitive or boxed) map to INT, BIGINT, SMALLINT, TINYINT, DOUBLE and FLOAT plus the length suffix |
| SchemaGenerator.BooleanType | src/main/java/de/static_interface/sinksql/SqlDatabase.java:100-102 | a boolean is `TINYINT(1)` without a key length and `TINYINT(n)` with one |
| SchemaGenerator.StringType | src/main/java/de/static_interface/sinksql/SqlDatabase.java:86-124 | a String is `VARCHAR(n)` with a key length; without one it is `VARCHAR(255)` exactly when the column is a primary, unique or foreign key, and `VARCHAR(999)` otherwise; an index does not count as a key |
| SchemaGenerator.DatesRefused | src/main/java/de/static_interface/sinksql/SqlDatabase.java:91-96 | java.util.Date and java.sql.Date columns throw a RuntimeException |
| SchemaGenerator.ClauseOf | src/main/java/de/static_interface/sinksql/SqlDatabase.java:395-466 | an accepted column clause starts with the quoted name and the type and ends with a comma |
| SchemaGenerator.ColumnClauseFailsIff | src/main/java/de/static_interface/sinksql/SqlDatabase.java:395-448 | a column clause fails exactly when the type is refused, ZEROFILL, UNSIGNED or AUTO_INCREMENT is on a non-number, or a primitive is marked nullable |
| SchemaGenerator.ClauseOfNullable | src/main/java/de/static_interface/sinksql/SqlDatabase.java:442-448 | a non-nullable column is the nullable one with ` NOT NULL` added before the default and comment |
| SchemaGenerator.NullableDropsNotNull | src/main/java/de/static_interface/sinksql/SqlDatabase.java:442-448 | marking a non-primitive column @Nullable only removes ` NOT NULL` from its clause |
| SchemaGenerator.ScanField | src/main/java/de/static_interface/sinksql/SqlDatabase.java:389-466 | one field adds its clause, keeps the layout well-formed and opens its unique-key group; it fails exactly when its clause fails |
| SchemaGenerator.Scan | src/main/java/de/static_interface/sinksql/SqlDatabase.java:376-467 | the field loop yields a well-formed layout whose groups are the combination ids of the fields |
| SchemaGenerator.ScanErrorPersists | src/main/java/de/static_interface/sinksql/SqlDatabase.java:376-467 | once a field throws, the rest of the loop is not reached |
| SchemaGenerator.ScanStepFails | src/main/java/de/static_interface/sinksql/SqlDatabase.java:376-467 | the loop over one more field fails exactly when the shorter loop failed or the new field is refused |
| SchemaGenerator.ScanFailsIff | src/main/java/de/static_interface/sinksql/SqlDatabase.java:376-467 | the field loop fails exactly when some annotated field is refused |
| SchemaGenerator.ScanFirstError | src/main/java/de/static_interface/sinksql/SqlDatabase.java:376-467 | the exception thrown is the one of the first refused field |
| SchemaGenerator.ScanPrimaryKeys | src/main/java/de/static_interface/sinksql/SqlDatabase.java:438-440 | the primary-key list holds exactly the names of the primary-key columns |
| SchemaGenerator.ScanCollectsFields | src/main/java/de/static_interface/sinksql/SqlDatabase.java:458-464 | the foreign-key and index lists hold exactly the annotated fields carrying those annotations |
| SchemaGenerator.GroupNames | src/main/java/de/static_interface/sinksql/SqlDatabase.java:424-436 | every name in a combined unique-key group belongs to a field of that group |
| SchemaGenerator.GroupNamesComplete | src/main/java/de/static_interface/sinksql/SqlDatabase.java:424-436 | every field of a group has its name in the group |
| SchemaGenerator.ScanGroupsStep | src/main/java/de/static_interface/sinksql/SqlDatabase.java:429-434 | a field in a group appends its name to that group's list, creating the list if needed |
| SchemaGenerator.ScanGroups | src/main/java/de/static_interface/sinksql/SqlDatabase.java:424-436 | after the loop each group lists its fields' names in field order |
| SchemaGenerator.Quotes | src/main/java/de/static_interface/sinksql/SqlDatabase.java:472-478 | each name is wrapped in the backtick |
| SchemaGenerator.GroupOrderCovers | src/main/java/de/static_interface/sinksql/SqlDatabase.java:490-507 | any iteration order over the combination ids visits every group of the layout |
| SchemaGenerator.ActionsAreKeywords | src/main/java/de/static_interface/sinksql/SqlDatabase.java:587 | the ON UPDATE and ON DELETE parts use the actions' SQL keywords |
| SchemaGenerator.ForeignKeyClause | src/main/java/de/static_interface/sinksql/SqlDatabase.java:575-589 | a foreign-key clause is produced exactly when the target class declares TABLE_NAME |
| SchemaGenerator.AddForeignKey | src/main/java/de/static_interface/sinksql/SqlDatabase.java:571-592 | `addForeignKey` fails exactly when TABLE_NAME is missing, and otherwise only appends to the statement |
| SchemaGenerator.AddForeignKeyAppends | src/main/java/de/static_interface/sinksql/SqlDatabase.java:584-591 | the appended text is the foreign-key clause |
| SchemaGenerator.ForeignKeyClausesFailIff | src/main/java/de/static_interface/sinksql/SqlDatabase.java:509-519 | the foreign-key loop fails exactly when some target lacks TABLE_NAME |
| SchemaGenerator.ForeignKeyErrorPersists | src/main/java/de/static_interface/sinksql/SqlDatabase.java:509-519 | once a foreign key fails, the later ones are not reached |
| SchemaGenerator.IndexName | src/main/java/de/static_interface/sinksql/SqlDatabase.java:543 | an index without a name is called after its column with `_I` |
| SchemaGenerator.IndexClausesSkipForeignKeys | src/main/java/de/static_interface/sinksql/SqlDatabase.java:530-548 | with InnoDB an index on a foreign-key column is skipped; without it every index writes a clause |
| SchemaGenerator.StripTrailingComma | src/main/java/de/static_interface/sinksql/SqlDatabase.java:550-554 | a trailing comma is removed and nothing else changes |
| SchemaGenerator.OptionsClause | src/main/java/de/static_interface/sinksql/SqlDatabase.java:521-528 | the options foreign key fails exactly when the options target lacks TABLE_NAME, and otherwise only appends |
| SchemaGenerator.StatementHead | src/main/java/de/static_interface/sinksql/SqlDatabase.java:360 | the head ends with the opening parenthesis |
| SchemaGenerator.BodyStartsWithHead | src/main/java/de/static_interface/sinksql/SqlDatabase.java:360-548 | the body built by the loops starts with the CREATE TABLE head |
| SchemaGenerator.CreateTableShape | src/main/java/de/static_interface/sinksql/SqlDatabase.java:357-564 | the statement starts with `CREATE TABLE IF NOT EXISTS` and the quoted name, and ends with `) ENGINE=<engine>;` when the database supports engines and `);` otherwise |
| SchemaGenerator.CreateTableFailsIff | src/main/java/de/static_interface/sinksql/SqlDatabase.java:357-566 | `createTable` throws exactly when a column is refused, a foreign-key target lacks TABLE_NAME, or the options target does |
| SchemaGenerator.CompositePrimaryKey | src/main/java/de/static_interface/sinksql/SqlDatabase.java:469-480 | two primary-key columns give `PRIMARY KEY (`a`, `b`),` |
| SchemaGenerator.CreateTableSqlOk | src/main/java/de/static_interface/sinksql/SqlDatabase.java:357-564 | an accepted statement is the stripped body of the loops followed by the dialect's ending |
| SchemaGenerator.QuotedColumns | src/main/java/de/static_interface/sinksql/SqlDatabase.java:494-504 | the column loop joins the quoted names with `, ` and remembers the first name |
| SchemaGenerator.ScanFields | src/main/java/de/static_interface/sinksql/SqlDatabase.java:376-467 | the imperative field loop computes the layout of the scan function |
| SchemaGenerator.AppendPrimaryKey | src/main/java/de/static_interface/sinksql/SqlDatabase.java:469-480 | appends the primary-key clause |
| SchemaGenerator.AppendUniques | src/main/java/de/static_interface/sinksql/SqlDatabase.java:482-488 | appends one UNIQUE clause per unique column |
| SchemaGenerator.AppendGroups | src/main/java/de/static_interface/sinksql/SqlDatabase.java:490-507 | appends one `UNIQUE KEY` clause per group, named after its first column with `_uk` |
| SchemaGenerator.AppendForeignKeys | src/main/java/de/static_interface/sinksql/SqlDatabase.java:509-519 | appends the foreign-key clauses, or fails with the first missing TABLE_NAME |
| SchemaGenerator.AppendIndexes | src/main/java/de/static_interface/sinksql/SqlDatabase.java:530-548 | appends the index clauses |
| SchemaGenerator.FinishStatement | src/main/java/de/static_interface/sinksql/SqlDatabase.java:550-564 | strips the trailing comma and closes the statement for the dialect |
| SchemaGenerator.CreateTableStatement | src/main/java/de/static_interface/sinksql/SqlDatabase.java:357-564 | the imperative statement builder computes the statement function |
| SchemaGenerator.CreateTable | src/main/java/de/static_interface/sinksql/SqlDatabase.java:357-566 | a refused table runs nothing; an accepted statement runs once through `executeUpdate`, with at most one reconnect |
| RowInsert.InsertColumnsCount | src/main/java/de/static_interface/sinksql/SqlDatabase.java:602-622 | the column count is the number of annotated fields |
| RowInsert.InsertColumnsAreColumns | src/main/java/de/static_interface/sinksql/SqlDatabase.java:602-622 | the insert columns are exactly the names of the annotated fields |
| RowInsert.DefaultValue | src/main/java/de/static_interface/sinksql/SqlDatabase.java:639-645 | an unset field of a primitive type reads as its non-null default; any other unset field reads as null |
| RowInsert.PlaceholdersShape | src/main/java/de/static_interface/sinksql/SqlDatabase.java:628-635 | n placeholders are `?` and `,` alternating, 2n-1 characters long |
| RowInsert.PlaceholdersCount | src/main/java/de/static_interface/sinksql/SqlDatabase.java:628-635 | n placeholders contain n question marks |
| RowInsert.InsertFailsIff | src/main/java/de/static_interface/sinksql/SqlDatabase.java:624-626 | the insert fails with the "doesn't have any public fields!" message exactly when no field is annotated |
| RowInsert.NoColumnsIff | src/main/java/de/static_interface/sinksql/SqlDatabase.java:602-626 | there are no insert columns exactly when no field is annotated |
| RowInsert.PlaceholdersPerColumn | src/main/java/de/static_interface/sinksql/SqlDatabase.java:628-637 | the VALUES list has one placeholder per column |
| RowInsert.InsertNamesTable | src/main/java/de/static_interface/sinksql/SqlDatabase.java:637 | once the table name is put in, the statement is `INSERT INTO `t` (columns) VALUES(?,...)` |
| RowInsert.InsertSqlSplit | src/main/java/de/static_interface/sinksql/SqlDatabase.java:637 | the statement is the prefix, the table placeholder, the column list and the VALUES list |
| RowInsert.BindingsOfAllFields | src/main/java/de/static_interface/sinksql/SqlDatabase.java:638-645 | every field, annotated or not, is bound in order; reading a non-public field fails |
| RowInsert.MoreBindingsThanPlaceholders | src/main/java/de/static_interface/sinksql/SqlDatabase.java:628-647 | a public field without @Column is bound but has no placeholder, so there are more bindings than `?` |
| RowInsert.ColumnsAtMostFields | src/main/java/de/static_interface/sinksql/SqlDatabase.java:602-622 | there are never more columns than fields |
| RowInsert.WriteBackKeepsOthers | src/main/java/de/static_interface/sinksql/SqlDatabase.java:667-669 | reading back generated keys leaves every field that is not auto-increment unchanged |
| RowInsert.WriteBackSetsKeys | src/main/java/de/static_interface/sinksql/SqlDatabase.java:667-669 | each auto-increment field receives the value of its column in the generated-keys row |
| RowInsert.AutoIncrementsAreAutoIncrementColumns | src/main/java/de/static_interface/sinksql/SqlDatabase.java:610-612 | the auto-increment map holds exactly the annotated auto-increment fields, mapped to their column names |
| RowInsert.BuildInsert | src/main/java/de/static_interface/sinksql/SqlDatabase.java:597-637 | the imperative loops compute the statement and the auto-increment map of the functions |
| RowInsert.CollectBindings | src/main/java/de/static_interface/sinksql/SqlDatabase.java:638-645 | the binding loop computes the bindings function |
| RowInsert.BindingsErrorPersists | src/main/java/de/static_interface/sinksql/SqlDatabase.java:638-645 | once a field read fails, no later binding is made |
| RowInsert.WriteBackKeys | src/main/java/de/static_interface/sinksql/SqlDatabase.java:667-669 | the write-back loop updates the row as the write-back function says |
| RowInsert.WriteBackErrorPersists | src/main/java/de/static_interface/sinksql/SqlDatabase.java:667-669 | once one key cannot be stored, the later keys are not stored |
| RowInsert.Insert | src/main/java/de/static_interface/sinksql/SqlDatabase.java:594-678 | a null row fails; a refused statement or binding runs nothing; a failed execution leaves the row; otherwise the generated keys are written back and the row is returned |
| OptionsRow.IdOf | src/main/java/de/static_interface/sinksql/database/impl/row/OptionsRow.java:49-52 | `getId` on a row object's field values throws `NullPointerException` exactly when the id is null or missing, and succeeds exactly when it is an Integer, returning that Integer's value |
| OptionsRow.InsertedRowHasId | src/main/java/de/static_interface/sinksql/database/impl/row/OptionsRow.java:27-28 | after an insert whose generated key is k, the row's id is k and nothing else changes |
| OptionsRow.FieldNames | src/main/java/de/static_interface/sinksql/database/impl/row/OptionsRow.java:27-47 | the columns are named id, key, value and foreignTarget |
| OptionsRow.InsertView | src/main/java/de/static_interface/sinksql/database/impl/row/OptionsRow.java:27-47 | the insert lists the four columns, and only id is auto-increment |
| OptionsRow.OnlyIdWrittenBack | src/main/java/de/static_interface/sinksql/database/impl/row/OptionsRow.java:27-28 | the only key read back is id |
| OptionsRow.OptionsInsertSql | src/main/java/de/static_interface/sinksql/database/impl/row/OptionsRow.java:27-47 | the insert is `INSERT INTO `{TABLE}` (`id`, `key`, `value`, `foreignTarget`) VALUES(?,?,?,?)` |
| OptionsRow.FieldTypes | src/main/java/de/static_interface/sinksql/database/impl/row/OptionsRow.java:27-47 | id and foreignTarget are INT; key and value are `VARCHAR(999)` |
| OptionsRow.OptionsColumnClauses | src/main/java/de/static_interface/sinksql/database/impl/row/OptionsRow.java:27-47 | id is `INT AUTO_INCREMENT NOT NULL`, key and value are `VARCHAR(999) NOT NULL`, and the nullable foreignTarget is a plain INT |
| OptionsRow.OptionsScan | src/main/java/de/static_interface/sinksql/database/impl/row/OptionsRow.java:27-47 | the field loop gives those four clauses and the primary key id |
| OptionsRow.NoGroups | src/main/java/de/static_interface/sinksql/database/impl/row/OptionsRow.java:27-47 | the row declares no combined unique keys |
| OptionsRow.OptionsCreateTable | src/main/java/de/static_interface/sinksql/database/impl/row/OptionsRow.java:27-47 | on MySQL with InnoDB and no options target, the table statement is the head, the four clauses, `PRIMARY KEY (`id`)` and `) ENGINE=InnoDB;` |

## Behaviour worth knowing

The model follows the code in each case below.
- `parseQuery` resets the statement kind and the first-SET flag only after a walk that completes normally (SqlDatabase.java:142-143). A walk that throws leaves them set, and the next translation on the same database starts from them. `SqlTranslator.LeakedStateBreaksNextUpdate` shows the consequence.
- `executeUpdate` reconnects and retries once after a connection failure, but it throws even when the retry succeeds (AbstractTable.java:492-521). A retry that fails again leaves the reconnect flag set, so the table's next connection failure is not retried until some statement succeeds (`AbstractTable.UpdateFailsEvenAfterSuccessfulRetry`, `AbstractTable.FailedRetryDisablesReconnect`).
- `getMasterQuery` casts the root's child to a statement node (FromQuery.java:66-69). A chain such as `from(t).orderBy(...)` therefore throws `ClassCastException` when it is translated or run.
- `not(gt(x))` renders `<=`, and `eq` values are written unquoted.
- A row class with several `@Column(primaryKey = true)` fields gets a composite PRIMARY KEY (SqlDatabase.java:469-479). The Javadoc of `primaryKey` (Column.java:53-54) allows one primary key per table and says `create()` throws when there are more; the code throws nothing.
- `validateColumnNames` returns before checking anything (SqlDatabase.java:223-226).

## Left out

- JDBC: preparing statements, `parseBindings`, executing, `getGeneratedKeys`, result-set metadata, HikariCP pooling, connect/close, `isConnected` and `exists`. Execution is an oracle outcome (success with rows, connection failure, other failure), and a result row is a list of (label, value) pairs. `rs.getObject(name, type)` is modelled as returning the stored value.
- Bindings are rendered by `sqlToString` and returned by `RowInsert.Insert`, but they are not passed to the execution oracle.
- `handleQuery` always returns null, so the built-in translation always runs; the hook is not modelled.
- `validateColumnNames` returns before doing anything, so it never fails and is not modelled. The column-verification flag is kept on the query but nothing reads it.
- Reflection: `Class`/`Field` access, `getRowClass` generic resolution, and `invoke`/`invokeStatic`/`getDeclaredMethod`/`getDeclaredField`. Fields are explicit descriptors. The static `TABLE_NAME` lookup of `addForeignKey` is a map from table class to table name; a class missing from the map gives the RuntimeException of the source.
- `OptionsTable` (Java serialisation, Base64, database reads). Only its foreign-target getters feed `createTable`, and they are the optional `options` parameter.
- `DatabaseConnectionInfo`: only the table prefix, as a field of the database.
- `InvalidSqlColumnException` is an error value carrying the table, column and reason, not the formatted message (which needs a live connection).
- Floating point: the Double-to-Float narrowing of `setFieldFromResultSet` is not modelled, and doubles and floats are opaque values; DOUBLE and FLOAT appear only as type names.
- The boxed-reference comparison `value != (Object) 0` is modelled as a comparison with the Integer 0. So an Integer 0 reads as false, and any other number, including a Long 0, reads as true.
- HashMap iteration order, for the combined unique-key groups of `createTable` and the auto-increment keys of `insert`, is an order parameter (`groupOrder`, `keyOrder`). The model constrains it only to visit each group or key once. Within a group, declaration order is kept.
- Concurrency: the static converter map, the annotation cache and the translator fields are unsynchronised; the model is single-threaded.
- Console output (`System.out`, `printStackTrace`), including the null-into-non-nullable warning of `setFieldFromResultSet` and a failing `rs.next()` after an insert.
- `replaceAll`/`replaceFirst` are literal replacements with no regex escaping, and `toUpperCase`/`equalsIgnoreCase` fold ASCII letters only.
- `SelectQuery`, `UpdateQuery`, `DeleteQuery`, `LimitQuery`, `OrQuery`, `MasterQuery` and the condition classes are not part of this model's sources. Their node kinds are inferred from how `SqlDatabase` and `IdRowWrapper` use them.
- The two `OrderByQuery` classes (in `database/query/impl` and `query/impl`) have identical bodies and are one node kind.
- Getters that return a constructor argument or a field (`getColumn`, `getCondition`, `getValue`, `getOrder`, `getParanthesisState`, `isColumnVerificationDisabled`, `getChild`) are field reads on the model's classes.
- The one-argument `toSqlValue(o)` is `toSqlValue(o, false)` and is modelled by passing `strict = false`.
- A query chain is finite in Java. The translator's walk is given a ghost witness of the chain to terminate on.
- SchemaGenerator.IndexClausesSkipForeignKeys: states only that InnoDB skips foreign-key indexes and that each index writes a clause; the clause text is `SchemaGenerator.IndexClause`, used by `SchemaGenerator.AppendIndexes`.
- A converter is never null in the model. Java's duplicate test (`get(...) != null`) would let a pair registered with a null converter be registered again; that case is not modelled.
- An `Order` is never null in the model. A null order would make `getOrder().name()` throw `NullPointerException` during translation; that case is not modelled.
- A wrapper widened by `Field.set` into a primitive `float` or `double` field keeps its box in the model, because floating point is not modelled. Integral widening (byte, short, char and int into a wider integral type) is exact.

# cassandra-lucene-index: schema, single-column mappers and query builders

This project models four parts of the Lucene index plugin for Cassandra:

- **Schema.** It holds the field mappers of an index, keyed by name, and an analyzer registry. The registry answers `getAnalyzer(name)` in three stages: the explicit map, then the plugin's table of prebuilt analyzers (`PreBuiltAnalyzers`), then an analyzer class on the classpath, which builds a new analyzer each time it is asked. Each successful answer is cached in the explicit map, so a name is built at most once and always answers with the same analyzer.
- **Per-field analyzer.** The schema composes it once, at construction, from every mapper's analyzer name.
- **Field lookup.** `getMapper` resolves a dotted field path to the mapper of its longest registered prefix.
- **Delegation.** `addFields` and `validate` hand each row or check to every mapper. A mapper is any `Mapper`: a `SingleColumnMapper`, or another kind given by its analyzer name, what it adds for a row and its check.
- **`SingleColumnMapper`.** It turns each value of a column into an indexed Lucene field, a sorted Lucene field, or both. Each value is converted to the mapper's BASE kind exactly once.
- **`GeoDistanceConditionBuilder`.** A fluent builder that copies its parameters into a geo-distance condition.
- **`SortFieldBuilder`.** A builder whose behaviour is fixed by the assertions of `SortFieldBuilderTest`. Its own source file is not part of this model.

Modules:

- `Results` (`results.dfy`) has `Option` for Java's `null`, and `Result` / `Outcome` for calls that return or throw an `IllegalArgumentException`.
- `JavaStrings` (`java_strings.dfy`) has `StringUtils.isBlank`, Java's `String.split("\\.")` and the dot-join used by `getMapper`. Java's split drops trailing empty pieces, so `"a.b."` gives `["a", "b"]`, `""` gives `[""]` and `"."` gives `[]`.
- `Mapping` (`mapping.dfy`) has the document, the fields, `SingleColumnMapper` and the `Mapper` the schema holds:
  - The document is a class whose field list is only ever appended to.
  - Lucene fields are the values `Indexed(name, base)` and `Sorted(name, base, isCollection)`.
  - The mapper's abstract `base` conversion, its abstract field builders `indexedField` and `sortedField`, and the superclass check `validate(metadata, name)` are function-valued fields. Each of them may throw.
- `Schemas` (`schema.dfy`) has the `Schema` class:
  - Its explicit analyzer map is a `map` field that `GetAnalyzer` updates.
  - Analyzer resolution and longest-prefix lookup are also given as specification functions.
  - The foreign analyzer sources are fields of `AnalyzerSources`: the prebuilt analyzers as a partial function, and the classpath as a test of whether a name builds plus a function giving the analyzer of the schema's k-th build. The schema counts its builds in `instantiations`.
  - Abstract types stand for analyzers, column values, BASE values and column-family metadata.
- `GeoDistance` (`geo_distance.dfy`) and `SortFields` (`sort_field.dfy`) have the two builders. Each is a class with fluent setters and a `Build` function that copies its fields into an immutable datatype.

Iteration over a Java `HashMap` has no specified order. `Schema` fixes one order of its mapper keys when it is constructed (`mapperOrder`, chosen by `KeyOrder`). The constructor, `AddFields` and `Validate` all follow that order, and their contracts hold for any such order.

Two behaviours of the code are worth stating outright:

- A row is not added all or nothing. The single-value `addFields` adds the indexed field before it builds the sorted one, so a `sortedField` that throws leaves the indexed field in the document. The columns overload stops at the first column that throws, and the document keeps the fields of the earlier columns plus what that column added. `Schema.addFields` does the same across mappers. `ColumnsEmissionFails` and `SchemaEmissionFails` state exactly which fields remain.
- `getMapper` never looks up a field that ends with a '.' under its own name, because the split drops the trailing empty piece. Every candidate it tries is then strictly shorter than the field (`TrailingDotNeverCandidate`), so an entry stored under the field itself never matters (`TrailingDotIgnoresOwnKey`).

## Model

| member | source | states |
|---|---|---|
| JavaStrings.BlankExamples | plugin/src/main/java/com/stratio/cassandra/lucene/schema/Schema.java:86 | `StringUtils.isBlank` with Java 7/8's `Character.isWhitespace`: null, the empty string, strings of spaces, tabs and line breaks, and the Mongolian vowel separator U+180E are blank; a string with a visible character, or the no-break space, is not. |
| JavaStrings.JavaSplit | plugin/src/main/java/com/stratio/cassandra/lucene/schema/Schema.java:120 | A string without a dot splits into itself; with a dot, the last component, if any, is non-empty. |
| JavaStrings.StripTrailingEmpty | plugin/src/main/java/com/stratio/cassandra/lucene/schema/Schema.java:120 | The result is a prefix of the pieces. Every dropped piece is empty, and the last kept piece is not empty. |
| JavaStrings.JavaSplitPrefix | plugin/src/main/java/com/stratio/cassandra/lucene/schema/Schema.java:120 | `field.split("\\.")` is a prefix of the raw pieces between dots: it only drops pieces at the end. |
| JavaStrings.RawSplitPieces | plugin/src/main/java/com/stratio/cassandra/lucene/schema/Schema.java:120 | No piece contains a dot. A string that does not end with '.' has a non-empty last piece. |
| JavaStrings.JavaSplitSpec | plugin/src/main/java/com/stratio/cassandra/lucene/schema/Schema.java:120 | A string without a dot splits into itself. Otherwise the components are a prefix of the raw pieces between dots: only empty trailing pieces are dropped, the last component is non-empty, and no component contains a dot. |
| JavaStrings.RawSplitNoDot | plugin/src/main/java/com/stratio/cassandra/lucene/schema/Schema.java:120 | A string without a dot is a single piece. |
| JavaStrings.RawSplitSnoc | plugin/src/main/java/com/stratio/cassandra/lucene/schema/Schema.java:120 | One more character either opens a new, empty piece (a '.') or extends the last piece. |
| JavaStrings.JoinRawSplit | plugin/src/main/java/com/stratio/cassandra/lucene/schema/Schema.java:120-126 | Joining the split pieces with '.' gives the string back (split and join are inverse). |
| JavaStrings.RawSplitConcat | plugin/src/main/java/com/stratio/cassandra/lucene/schema/Schema.java:120 | Splitting `s + "." + t` is splitting `s`, then splitting `t`. |
| JavaStrings.JavaSplitNoTrailingDot | plugin/src/main/java/com/stratio/cassandra/lucene/schema/Schema.java:120 | Without a trailing dot, Java's split drops nothing. |
| JavaStrings.JoinPrefix | plugin/src/main/java/com/stratio/cassandra/lucene/schema/Schema.java:122-126 | Joining the first n components gives a prefix of the full join. Unless n covers every component, that prefix is followed by '.'. |
| JavaStrings.DotPrefixIsPrefix | plugin/src/main/java/com/stratio/cassandra/lucene/schema/Schema.java:121-127 | Every candidate `getMapper` tries is a prefix of the field. Each shorter candidate is strictly shorter than the next and ends where the field has a '.'. |
| JavaStrings.FieldIsLongestCandidate | plugin/src/main/java/com/stratio/cassandra/lucene/schema/Schema.java:120-127 | Unless the field ends with '.', the first (longest) candidate is the field itself. |
| JavaStrings.TrailingDotNeverCandidate | plugin/src/main/java/com/stratio/cassandra/lucene/schema/Schema.java:120-127 | When the field ends with '.', every candidate `getMapper` tries is strictly shorter than the field, so none equals it. |
| JavaStrings.RawSplitOneDot | plugin/src/main/java/com/stratio/cassandra/lucene/schema/Schema.java:120 | `"a."` has the raw pieces `["a", ""]`. |
| JavaStrings.RawSplitTwoPieces | plugin/src/main/java/com/stratio/cassandra/lucene/schema/Schema.java:120 | `"a.b"` has the raw pieces `["a", "b"]`. |
| JavaStrings.RawSplitTrailingDot | plugin/src/main/java/com/stratio/cassandra/lucene/schema/Schema.java:120 | `"a.b."` has the raw pieces `["a", "b", ""]`. |
| JavaStrings.JavaSplitTrailingDot | plugin/src/main/java/com/stratio/cassandra/lucene/schema/Schema.java:120 | Java's split turns `"a.b."` into `["a", "b"]`, dropping the trailing empty piece. |
| JavaStrings.JavaSplitDegenerate | plugin/src/main/java/com/stratio/cassandra/lucene/schema/Schema.java:120 | `""` splits into `[""]`, and `"."` splits into no components at all. |
| Mapping.Document.Add | plugin/src/main/java/com/stratio/cassandra/lucene/schema/mapping/SingleColumnMapper.java:55-56 | `document.add` appends one field and keeps every earlier field in place. |
| Mapping.ColumnsByName | plugin/src/main/java/com/stratio/cassandra/lucene/schema/mapping/SingleColumnMapper.java:45 | The columns selected for a mapper are all addressed to its name, and there are no more of them than columns in the row. |
| Mapping.ColumnsByNameSpec | plugin/src/main/java/com/stratio/cassandra/lucene/schema/mapping/SingleColumnMapper.java:45 | A column is selected exactly when it is in the row and addressed to the mapper's name. |
| Mapping.ChainPrefix | plugin/src/main/java/com/stratio/cassandra/lucene/schema/mapping/SingleColumnMapper.java:44-51 | A loop of throwing calls depends only on the calls it has made so far. |
| Mapping.ChainStops | plugin/src/main/java/com/stratio/cassandra/lucene/schema/mapping/SingleColumnMapper.java:44-51 | Once a call has thrown, the later calls add nothing. |
| Mapping.ChainPasses | plugin/src/main/java/com/stratio/cassandra/lucene/schema/mapping/SingleColumnMapper.java:44-51 | A loop of calls returns normally exactly when every call does. |
| Mapping.ChainLength | plugin/src/main/java/com/stratio/cassandra/lucene/schema/mapping/SingleColumnMapper.java:44-51 | When every call appends c fields and the loop returns normally, n calls append n * c fields. |
| Mapping.FirstFailure | plugin/src/main/java/com/stratio/cassandra/lucene/schema/mapping/SingleColumnMapper.java:44-51 | A loop that throws has a first throwing call: every earlier call returned normally, and the loop keeps their fields, then what the throwing call appended, and throws what it threw. |
| Mapping.RanNext | plugin/src/main/java/com/stratio/cassandra/lucene/schema/mapping/SingleColumnMapper.java:44-51 | After calls that all returned normally, one more call extends the loop by exactly what that call appends and throws. |
| Mapping.RanDone | plugin/src/main/java/com/stratio/cassandra/lucene/schema/mapping/SingleColumnMapper.java:44-51 | A loop that has made every call, or has stopped at an exception, has done what the whole run of calls does. |
| Mapping.Error | plugin/src/main/java/com/stratio/cassandra/lucene/schema/mapping/SingleColumnMapper.java:79-81 | `error` never returns a value. It always throws with the given message. |
| Mapping.SingleColumnMapper.AllFields | plugin/src/main/java/com/stratio/cassandra/lucene/schema/mapping/SingleColumnMapper.java:55-56 | One value gives `(indexed ? 1 : 0) + (sorted ? 1 : 0)` fields when no builder throws. All carry the name and the converted value. The indexed field comes first and is the only indexed one, and the sorted field comes last with the caller's `isCollection`. |
| Mapping.SingleColumnMapper.FieldsFor | plugin/src/main/java/com/stratio/cassandra/lucene/schema/mapping/SingleColumnMapper.java:53-57 | Returns normally exactly when `base` and every field builder it calls return. A throwing `base` appends nothing. A throwing `indexedField` appends nothing. A throwing `sortedField` leaves the indexed field, when `indexed`. The exception is always the one thrown. What is appended is always a prefix of the full field list, and a normal return appends all of it. |
| Mapping.SingleColumnMapper.FieldsForShared | plugin/src/main/java/com/stratio/cassandra/lucene/schema/mapping/SingleColumnMapper.java:53-57 | Once the value converts, every field appended carries the given name and the one converted value, even when a later builder throws. Only the first field, when `indexed`, is an indexed one. |
| Mapping.SingleColumnMapper.ColumnStep | plugin/src/main/java/com/stratio/cassandra/lucene/schema/mapping/SingleColumnMapper.java:46-49 | One column returns normally exactly when it converts and its fields are built. What it appends and throws is the single-value `addFields` on the column's full name, composed value and collection flag. |
| Mapping.SingleColumnMapper.ColumnStepsAt | plugin/src/main/java/com/stratio/cassandra/lucene/schema/mapping/SingleColumnMapper.java:45-50 | The loop's call for the column at position k is the single-value `addFields` on that column. |
| Mapping.SingleColumnMapper.AddFields | plugin/src/main/java/com/stratio/cassandra/lucene/schema/mapping/SingleColumnMapper.java:53-57 | The document keeps its old fields, followed by exactly what `FieldsFor` appends. This is nothing when `base` or `indexedField` throws, and the indexed field alone when only `sortedField` throws. The call throws what `FieldsFor` throws. |
| Mapping.SingleColumnMapper.AddColumns | plugin/src/main/java/com/stratio/cassandra/lucene/schema/mapping/SingleColumnMapper.java:44-51 | The old fields are kept and followed by `ColumnsEmission` of exactly the columns addressed to the mapper, in row order. The call throws with that emission's outcome. |
| Mapping.SingleColumnMapper.Validate | plugin/src/main/java/com/stratio/cassandra/lucene/schema/mapping/SingleColumnMapper.java:84-86 | The superclass check is applied to the mapper's own name. |
| Mapping.SingleColumnMapper.ColumnsEmissionPasses | plugin/src/main/java/com/stratio/cassandra/lucene/schema/mapping/SingleColumnMapper.java:44-57 | The columns overload returns normally exactly when every column converts and its fields are built. |
| Mapping.SingleColumnMapper.ColumnsEmissionLength | plugin/src/main/java/com/stratio/cassandra/lucene/schema/mapping/SingleColumnMapper.java:44-57 | When it returns normally, the columns overload adds `FieldCount()` fields per column. |
| Mapping.SingleColumnMapper.ColumnsEmissionFails | plugin/src/main/java/com/stratio/cassandra/lucene/schema/mapping/SingleColumnMapper.java:44-57 | On a throw, the exception is that of the first failing column. The document keeps exactly the fields of the columns before it, followed by what that column added before it threw. |
| Schemas.ResolveAnalyzer | plugin/src/main/java/com/stratio/cassandra/lucene/schema/Schema.java:85-102 | `getAnalyzer(name)` answers exactly when the name is not blank and the map, the prebuilt analyzers or the classpath knows it. A failure carries the blank-name message for a blank name and "Not found analyzer: " + name otherwise. |
| Schemas.ResolutionOrder | plugin/src/main/java/com/stratio/cassandra/lucene/schema/Schema.java:85-102 | A blank name fails with "Not null nor empty analyzer name required". Otherwise the first stage that knows the name decides: the map's entry, else the prebuilt analyzer, else a new classpath analyzer (the one of this schema's next build). A name no stage knows fails with "Not found analyzer: " + name. |
| Schemas.MemoizedResolution | plugin/src/main/java/com/stratio/cassandra/lucene/schema/Schema.java:89-101 | With the cache, a name resolves exactly when it resolves through the explicit map the schema was given, and fails with the same message. A name not yet cached resolves as through the explicit map. Every answer through the cache is one the explicit map gives after some number of classpath builds. |
| Schemas.CacheResolved | plugin/src/main/java/com/stratio/cassandra/lucene/schema/Schema.java:99-101 | Caching a name under what it resolves to keeps the cache sound, and the name is then cached under that analyzer. |
| Schemas.CachedResolves | plugin/src/main/java/com/stratio/cassandra/lucene/schema/Schema.java:89-90 | A cached name resolves to its cached analyzer whatever the number of classpath builds, and resolving it builds nothing. |
| Schemas.KeyOrder | plugin/src/main/java/com/stratio/cassandra/lucene/schema/Schema.java:62 | Iteration over the mapper map visits every key exactly once. |
| Schemas.CandidateAmongFirst | plugin/src/main/java/com/stratio/cassandra/lucene/schema/Schema.java:121-128 | The count found is a candidate that is a key, or 0, and no longer candidate among the first n is a key. |
| Schemas.CandidateAmongFirstIs | plugin/src/main/java/com/stratio/cassandra/lucene/schema/Schema.java:121-128 | The longest candidate is unique: any count that is a key (or 0) with no longer key after it is the one found. |
| Schemas.JoinComponents | plugin/src/main/java/com/stratio/cassandra/lucene/schema/Schema.java:122-126 | The inner loop builds the first i + 1 components joined with '.'. |
| Schemas.LongestPrefixMapperSpec | plugin/src/main/java/com/stratio/cassandra/lucene/schema/Schema.java:119-131 | `getMapper` returns null exactly when no dot-component prefix of the field is a key. Otherwise it returns a value of the map, stored under the longest such prefix. |
| Schemas.ExactMatchWins | plugin/src/main/java/com/stratio/cassandra/lucene/schema/Schema.java:119-131 | A field that is itself a key, and does not end with '.', gets its own mapper. |
| Schemas.TrailingDotIgnoresOwnKey | plugin/src/main/java/com/stratio/cassandra/lucene/schema/Schema.java:119-131 | For a field that ends with '.', `getMapper` answers as if the entry stored under the field itself were absent. |
| Schemas.TrailingDotNotLookedUp | plugin/src/main/java/com/stratio/cassandra/lucene/schema/Schema.java:120-130 | A mapper stored under `"a."` is not found for the field `"a."`. |
| Schemas.LongestPrefixNested | plugin/src/main/java/com/stratio/cassandra/lucene/schema/Schema.java:119-131 | With mappers at `"a"` and `"a.b"`, the field `"a.b.c"` resolves to the `"a.b"` mapper. |
| Schemas.LongestPrefixFallback | plugin/src/main/java/com/stratio/cassandra/lucene/schema/Schema.java:119-131 | With mappers at `"a"` and `"a.b"`, the field `"a.x"` falls back to the `"a"` mapper. |
| Schemas.LongestPrefixMissing | plugin/src/main/java/com/stratio/cassandra/lucene/schema/Schema.java:119-131 | With mappers at `"a"` and `"a.b"`, the field `"z"` finds no mapper. |
| Schemas.SplitABC | plugin/src/main/java/com/stratio/cassandra/lucene/schema/Schema.java:120 | `"a.b.c"` splits into `["a", "b", "c"]`. |
| Schemas.SplitAX | plugin/src/main/java/com/stratio/cassandra/lucene/schema/Schema.java:120 | `"a.x"` splits into `["a", "x"]`. |
| Schemas.Schema.Init | plugin/src/main/java/com/stratio/cassandra/lucene/schema/Schema.java:57-59 | A null default analyzer becomes the prebuilt default, and null maps become empty maps; no analyzer has been built yet. The per-field analyzer is still empty, so this is not yet a `Valid()` schema; `New` models the whole constructor. |
| Schemas.Schema.New | plugin/src/main/java/com/stratio/cassandra/lucene/schema/Schema.java:55-70 | Construction succeeds exactly when every mapper's analyzer name resolves through the given map. A failure carries the resolution failure of some mapper whose name does not resolve. On success the schema holds the defaulted fields and is `Valid()`: the per-field analyzer has the default analyzer and exactly one entry per mapper key, the very analyzer cached under that mapper's analyzer name. |
| Schemas.Schema.ResolveMapperAnalyzers | plugin/src/main/java/com/stratio/cassandra/lucene/schema/Schema.java:61-67 | The loop over the mappers succeeds exactly when every mapper's analyzer name resolves, and a failure is the resolution failure of some mapper whose name does not resolve. On success it maps exactly the mapper keys, each to the analyzer cached under that mapper's name. The cache stays sound. |
| Schemas.Schema.GetAnalyzer | plugin/src/main/java/com/stratio/cassandra/lucene/schema/Schema.java:85-102 | Returns the resolution of the name through the current map and the current build count, and counts a build only when the classpath stage answers. It succeeds exactly when the name resolves through the original explicit map, and fails with the stage's message. A success caches the answer under the name and changes no other entry. A name already present, a blank name or an unknown name leaves the map unchanged. The schema invariant is preserved. |
| Schemas.Schema.GetPerFieldAnalyzer | plugin/src/main/java/com/stratio/cassandra/lucene/schema/Schema.java:109-111 | The per-field analyzer has the default analyzer and one entry per mapper key, the analyzer cached under that mapper's analyzer name. |
| Schemas.PerFieldIsGetAnalyzer | plugin/src/main/java/com/stratio/cassandra/lucene/schema/Schema.java:65-67 | In a valid schema, `getAnalyzer` on a mapper's analyzer name returns the very analyzer the per-field analyzer uses for that mapper, and builds nothing. |
| Schemas.Schema.GetMapper | plugin/src/main/java/com/stratio/cassandra/lucene/schema/Schema.java:119-131 | The nested loops return `LongestPrefixMapper(mappers, field)` and change no schema state. |
| Schemas.Schema.AddFields | plugin/src/main/java/com/stratio/cassandra/lucene/schema/Schema.java:139-143 | The document keeps its fields, followed by what every mapper adds in iteration order. The first exception stops the loop. |
| Mapping.Mapper.AddFields | plugin/src/main/java/com/stratio/cassandra/lucene/schema/Schema.java:141 | `mapper.addFields(document, columns)` dispatches to the mapper's own kind: the document keeps its fields and gains what that mapper emits for the row, and the call throws what it throws. |
| Schemas.Schema.Validate | plugin/src/main/java/com/stratio/cassandra/lucene/schema/Schema.java:150-154 | Returns normally exactly when every mapper's check passes. Otherwise it throws the failure of the first failing mapper in iteration order. |
| Schemas.ResolveTwice | plugin/src/main/java/com/stratio/cassandra/lucene/schema/Schema.java:89-101 | Two calls with the same name give the same answer, even when the classpath builds a new analyzer per call, and at most one build happens. After a success the map holds the answer under the name. |
| Schemas.SchemaEmissionPasses | plugin/src/main/java/com/stratio/cassandra/lucene/schema/Schema.java:139-143 | `Schema.addFields` returns normally exactly when every mapper adds its columns without an exception. |
| Schemas.MapperStepsAt | plugin/src/main/java/com/stratio/cassandra/lucene/schema/Schema.java:140-142 | The loop's call for the mapper at position i is the columns overload of that mapper. |
| Schemas.SchemaEmissionFails | plugin/src/main/java/com/stratio/cassandra/lucene/schema/Schema.java:139-143 | When `Schema.addFields` throws, it throws what the first throwing mapper throws. The document keeps the fields of the mappers before it, followed by what that mapper added before it threw. |
| GeoDistance.GeoDistanceConditionBuilder.constructor | plugin/src/main/java/com/stratio/cassandra/lucene/search/condition/builder/GeoDistanceConditionBuilder.java:60-68 | Stores field, latitude, longitude and maximum distance exactly as given. The minimum distance starts out null. |
| GeoDistance.GeoDistanceConditionBuilder.SetMinDistance | plugin/src/main/java/com/stratio/cassandra/lucene/search/condition/builder/GeoDistanceConditionBuilder.java:76-79 | Sets only the minimum distance, leaves every other field unchanged, and returns the same builder. |
| GeoDistance.GeoDistanceConditionBuilder.Build | plugin/src/main/java/com/stratio/cassandra/lucene/search/condition/builder/GeoDistanceConditionBuilder.java:87-89 | The condition's boost, field, latitude, longitude, minimum and maximum distance equal the builder's. The builder is not changed. |
| GeoDistance.BuildWithoutMinDistance | plugin/src/main/java/com/stratio/cassandra/lucene/search/condition/builder/GeoDistanceConditionBuilder.java:60-89 | Without `setMinDistance`, the built condition has the constructor's parameters and no minimum distance. |
| GeoDistance.BuildWithMinDistance | plugin/src/main/java/com/stratio/cassandra/lucene/search/condition/builder/GeoDistanceConditionBuilder.java:60-89 | After `setMinDistance(d)`, the condition carries `d` and the constructor's parameters. Building twice gives equal conditions. |
| SortFields.Normalize | plugin/src/test/java/com/stratio/cassandra/lucene/search/sort/builder/SortFieldBuilderTest.java:64-86 | The written description keeps the field and always carries `reverse`. An explicit flag is kept, and an absent one becomes the default. |
| SortFields.SortFieldBuilder.constructor | plugin/src/test/java/com/stratio/cassandra/lucene/search/sort/builder/SortFieldBuilderTest.java:45-52 | A new builder keeps the field and is not reversed (`DEFAULT_REVERSE`). |
| SortFields.SortFieldBuilder.FromDescription | plugin/src/test/java/com/stratio/cassandra/lucene/search/sort/builder/SortFieldBuilderTest.java:64-86 | Reading a description keeps the field and the explicit flag. An absent flag takes the default. |
| SortFields.SortFieldBuilder.Reverse | plugin/src/test/java/com/stratio/cassandra/lucene/search/sort/builder/SortFieldBuilderTest.java:37-41 | `reverse(b)` sets only the flag and returns the same builder. |
| SortFields.SortFieldBuilder.Build | plugin/src/test/java/com/stratio/cassandra/lucene/search/sort/builder/SortFieldBuilderTest.java:35-42 | The sort field has the builder's field and flag. |
| SortFields.SortFieldBuilder.Describe | plugin/src/test/java/com/stratio/cassandra/lucene/search/sort/builder/SortFieldBuilderTest.java:64-70 | Writing a builder keeps the field and always carries `reverse`. |
| SortFields.BuildReversed | plugin/src/test/java/com/stratio/cassandra/lucene/search/sort/builder/SortFieldBuilderTest.java:35-62 | `reverse(b)` followed by `build()` keeps the field and gives `isReverse() == b`, for both values of `b`. |
| SortFields.BuildDefault | plugin/src/test/java/com/stratio/cassandra/lucene/search/sort/builder/SortFieldBuilderTest.java:45-52 | Without `reverse`, the sort field keeps the field and is not reversed. |
| SortFields.RoundTrip | plugin/src/test/java/com/stratio/cassandra/lucene/search/sort/builder/SortFieldBuilderTest.java:64-86 | Read-then-write keeps an explicit flag of either value unchanged. An absent flag comes back as `reverse:false`. |

## Left out

- Lucene's `PerFieldAnalyzerWrapper` is kept only as the pair it is built from: the default analyzer and the per-field map. Its analysis behaviour and `Schema.close()` are foreign library code.
- The contents of `PreBuiltAnalyzers` and the reflection in `ClasspathAnalyzerBuilder` are foreign. They are functions given to the schema: whether a class name builds, and the analyzer of each build. Any exception the classpath builder throws makes the name not build.
- The concrete `base`, `indexedField` and `sortedField` of each mapper kind are abstract in `SingleColumnMapper`. `base` is an uninterpreted function that may fail. `indexedField` and `sortedField` are given by whether they return or throw. The Lucene field a builder returns is recorded as `Indexed(name, base)` or `Sorted(name, base, isCollection)`; its contents are not modelled.
- `Mapper.validate(metadata, name)` and `CFMetaData` are not part of this model. Only the delegation with the mapper's own name is kept.
- `Columns` is reduced to a sequence of columns filtered by mapper name. Its own implementation is not part of this model.
- Mapping.Error: `String.format(msg, args)` is not modelled. The message is taken as already formatted.
- `getDefaultAnalyzer()` and `Schema.toString()` are a plain getter and a string rendering of foreign objects.
- The JSON text form of `SortFieldBuilder`, and the Jackson annotations of `GeoDistanceConditionBuilder`, are reduced to a structured description whose `reverse` may be absent. No string parser or printer is modelled.
- Latitude, longitude and distances are opaque values that are only stored and copied. No floating point or distance parsing is modelled.
- The boost comes from the `ConditionBuilder` superclass, which is not part of this model. It is an unconstrained field, so the constructor promises nothing about its initial value.
- Schemas.Schema.GetAnalyzer: the cached map is the schema's own. The caller of the constructor may still hold the mappers and analyzers maps (Schema.java:58-59) and change them; that aliasing, and the `null` values a Java map could hold, are not modelled.
- Schemas.Schema.GetMapper: the field is a `string`, never null, so the `NullPointerException` that `getMapper(null)` throws at `field.split` is not modelled.
- Mapping.Mapper: mapper kinds other than `SingleColumnMapper` are not part of this model. They are given by their analyzer name, the fields they emit for a row with an outcome, and their check; the model assumes they only append fields to the document.
- `Schema.addFields` and `Schema.validate` rely on the fixed iteration order listing only mapper keys, which the constructor establishes (`KeyOrder`). They are not specified for other orders.
- Concurrency (races on the analyzer cache, close-once discipline) is out of scope.
- `AbstractConditionTest.java` only stubs mocks and has no behaviour to model.

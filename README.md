# go-schema in Dafny

A model of the binding engine of go-schema. The engine moves Go struct
fields to and from flat sources keyed by `(source, name)` pairs, such as
an HTTP request's query, form, header or body. It covers the following.

- **Schema derivation.** `parser.go` is modelled in `schema.dfy`,
  `schema_facts.dfy`, `schema_complete.dfy` and `parser.dfy`. Tags of the form
  `sources[;flags]` name a field's sources. Codecs are looked up in a
  registry, and a slice of a registered type binds as a slice. A
  breadth-first walk goes through nested and embedded structs. Along the
  way it builds dotted naming contexts and resolves one name per source.
  It rejects sources missing from the whitelist and `(source, name)` pairs
  already taken. A per-type cache sits in front of the walk.
- **The decode engine** (`decoder.go`, in `decoder.dfy`). For each binding
  it takes the first source with values and rejects a second source that
  also has values. A scalar field needs exactly one value, and `""` means
  absent. The decoded value is written into the slot at the binding's
  index path.
- **The encode engine** (`encoder.go`, in `encoder.dfy`). For each binding
  it encodes the bound slot and skips empty output. It hands the strings
  to the destination's `Set`, trying the sources in order until one
  accepts.
- **The builtin codecs** (`types.go`, in `types.dfy`) for bool, the ten
  integer types and string.
- **The tag helpers** of `util.go` (in `util.dfy`).

Go reflection is replaced by `Reflection.Ty`, a type descriptor with
named struct fields, tags and an embedded flag. Runtime values become
`Reflection.Val`, a tree addressed by index paths, as `FieldByIndex`
addresses it. A source is `map<(string, string), seq<string>>`. A
destination is a class holding such a map and the log of `Set` calls it
received. Two function parameters say where it accepts a value and where
it reports an error.

Each imperative function of the source is a method with loops: the
parser's `parse`, `RegisterTypes` and `Parse`, the decoder's and the
encoder's loops, and the util helpers. Each method is proved equal to a
specification function. The properties of the engine are then proved
about those functions:

- derived schemas are sound (`SchemaFacts`) and complete: a successful
  parse binds exactly the fields with a name, a codec and sources in
  every struct it can reach (`SchemaComplete`, in `schema_complete.dfy`);
- binding slots exist and are well typed (`Typing`);
- both round trips hold between the decoder and the encoder
  (`RoundTrip`);
- the library's own test scenarios come out as the tests expect
  (`Scenarios`).

## Model

| member | source | states |
|---|---|---|
| Util.TrimLeftDropsSpaces | util.go:8 | The left trim is a suffix of its input, does not start with white space, and only white space was dropped. |
| Util.TrimRightDropsSpaces | util.go:8 | The right trim is a prefix of its input, does not end with white space, and only white space was dropped. |
| Util.TrimSpaceTrimmed | util.go:8 | TrimSpace leaves no leading or trailing white space. |
| Util.TrimSpaceEmpty | util.go:8-11 | TrimSpace gives "" exactly when the input is all white space. |
| Util.IndexOf | parser.go:94 | The first position of a character, or the length when it is absent: the character does not occur before it. |
| Util.SplitOnPieces | util.go:12 | strings.Split gives one more piece than there are separators, and no piece contains the separator. |
| Util.SplitOnCount | util.go:12 | strings.Split with a one-character separator returns exactly one piece more than the input has separators |
| Util.SplitOnSepFree | util.go:12 | no piece strings.Split returns contains the separator |
| Util.JoinSplitOn | util.go:12 | Joining the pieces strings.Split returns with the separator gives the input back, so the pieces are exactly the separator-delimited runs. |
| Util.SplitOnJoin | util.go:12 | Splitting the join of separator-free pieces gives those pieces back. |
| Util.SplitTrimmedPieces | util.go:7-16 | For an input that is not blank after trimming, the result has one entry per piece of the trimmed input, each entry is that piece trimmed, and the pieces join back to the trimmed input. |
| Util.SplitFirst | parser.go:94 | strings.SplitN(.., 2) gives one piece when the separator is absent, else two pieces around its first occurrence. |
| Util.SplitTrimmedEmpty | util.go:7-11 | splitNonEmptyAndTrim gives no pieces exactly when the input is all white space. |
| Util.SplitTrimmedCount | util.go:8-12 | A non-empty result has one more piece than the trimmed input has separators. |
| Util.SplitTrimmedPiecesTrimmed | util.go:13-15 | Every piece has no leading or trailing white space. |
| Util.SplitTrimmedWord | util.go:7-16 | A trimmed non-empty word without the separator splits into itself alone. |
| Util.TrimAll | util.go:13-15 | Trimming every piece keeps the count and trims each piece in place. |
| Util.SplitNonEmptyAndTrim | util.go:7-17 | The loop that trims the pieces in place computes splitNonEmptyAndTrim. |
| Util.HasString | util.go:19-26 | The linear search answers true exactly when the string occurs in the list. |
| Util.SplitOnExample | util.go:12 | Splitting "a,,b" at ',' keeps the empty middle piece. |
| Util.SplitKeepsEmptyPieces | util.go:12-16 | splitNonEmptyAndTrim("a,,b", ",") gives three pieces, an empty one in the middle. |
| Reflection.GetAfterSet | decoder.go:56-57 | After setting the slot at an existing index path, reading that path gives the written value. |
| Reflection.GetAfterSetElsewhere | decoder.go:56-57 | Setting one slot leaves every independent slot unchanged. |
| Reflection.SetKeepsSlot | decoder.go:56-57 | Setting one slot keeps every independent slot in existence. |
| Reflection.GetAtExtend | encoder.go:48 | FieldByIndex on a path extended by one index selects that field of the struct found at the path. |
| Reflection.PrefixCons | parser.go:153-161 | A common first index does not change whether one path is a prefix of another. |
| Reflection.Box.constructor | decoder.go:62-66 | A pointer target holds its type and its current value. |
| Types.BuiltinTypes | types.go:9-26 | The 14 builtin codecs have pairwise distinct data types. |
| Types.TypeNameInjective | types.go:9-26 | two builtin types share a Go type name exactly when they are the same type, and no integer type is named bool or string, so the registry keys of the builtins are distinct |
| Types.KindNameSig | types.go:9-26 | each integer kind's Go type name is a builtin type name, given by its length and last character (int, int8 … uint64) |
| Types.FormatDecimalDigits | types.go:61-67 | The decimal text of a natural number is a non-empty string of digits whose value is that number. |
| Types.FormatIntLiteral | types.go:61-67 | The base-10 text of an integer is a decimal literal of that value, with '-' exactly for negative values and never '+'. |
| Types.ParseIntLiteral | types.go:52-58 | strconv.ParseInt(s, 10, N) succeeds exactly on decimal literals in [-2^(N-1), 2^(N-1)-1], and gives their value. |
| Types.SignedDecodeRange | types.go:52-58 | A signed codec decodes exactly the decimal literals within its type's range (64 bits for int and int64), to their value. |
| Types.UnsignedDecodeRange | types.go:157-163 | An unsigned codec decodes exactly digit strings of value at most 2^N-1, to their value, and rejects every literal starting with '-'. |
| Types.IntRoundTrip | types.go:61-67 | An in-range integer encodes to its base-10 text, and that text decodes back to it. |
| Types.BoolRoundTrip | types.go:32-46 | A bool encodes to "true" or "false", which decodes back to the same bool. |
| Types.StringIdentity | types.go:298-308 | The string codec decodes and encodes as the identity. |
| Types.DecodeGivesDataType | types.go:32-39 | A builtin codec's decoded value has the codec's data type. |
| Types.EncodeChecksType | types.go:40-46 | A builtin codec encodes a value exactly when it has the codec's data type, and fails on any other. |
| Schema.ParseFieldOptionsSpec | parser.go:89-108 | "" and "-" give no sources and no inline flag. Otherwise the sources are the split of the text before the first ';', and the inline flag is set exactly when some trimmed ';' flag after it is "inline". |
| Schema.SingleSourceOptions | parser.go:89-98 | A tag holding one plain word names that one source and no flag. |
| Schema.InlineOptions | parser.go:99-106 | The tag ";inline" names no source and sets the inline flag. |
| Schema.NoFlagsNotInline | parser.go:99-106 | A tag without ';' never sets the inline flag. |
| Schema.NewContextLaws | parser.go:130-138 | The empty context is a unit on both sides, the join is associative, and two non-empty parts are joined with '.'. |
| Schema.NewIndex | parser.go:153-161 | The child path is the parent path followed by the local index, whether or not the parent is empty. |
| Schema.LookupKinds | parser.go:140-152 | A registered type binds as a scalar. An unregistered slice of a registered element binds as a slice. Nothing else binds. The codec found handles the type or its element. |
| Schema.ResolveSources | parser.go:210-225 | Per source, its own tag value wins, the first source falls back to the context-qualified field name and later ones to the first source's name. It fails exactly when one resolved pair is already recorded by an earlier binding. |
| Schema.MeasureFront | parser.go:178-180 | Dequeuing the head removes exactly its size from the queue's measure. |
| Schema.MeasureAppend | parser.go:194-196 | Enqueuing a node adds exactly its size to the queue's measure. |
| Schema.StepField | parser.go:183-233 | One field step keeps the queue made of structs and grows its measure by at most the field type's size. |
| Schema.StepFields | parser.go:182-234 | The field loop keeps the queue made of structs and grows its measure by at most the fields' sizes, so the walk terminates. |
| SchemaFacts.StepFieldCases | parser.go:183-233 | A field with an empty converted name is skipped. An unregistered struct is queued at the parent's path plus its index, whatever its tag. Other unregistered types fail exactly when they name sources. A codec field without sources is skipped. A field with sources off the whitelist fails. Otherwise exactly one binding is appended, with the field, its path and the looked-up codec. |
| SchemaFacts.DescendChild | parser.go:191-197 | The struct reached through field i keeps the parent's context when embedded or inline, and otherwise extends it by the converted name. |
| SchemaFacts.NewPathIndependent | parser.go:153-161 | A new child path is independent of every path recorded for earlier fields. |
| SchemaFacts.SkipSound | parser.go:185-187 | Skipping a field keeps the walk invariant. |
| SchemaFacts.QueueSound | parser.go:193-197 | Queuing a struct field's node keeps the walk invariant. |
| SchemaFacts.DisjointAppendNode | parser.go:191-197 | the node queued for field `i` of the node at `P` has a path disjoint from every queued node and recorded binding, and every path stays within fields `..i` of `P` |
| SchemaFacts.BindingsOkAppend | parser.go:228-233 | Appending a sound binding keeps all bindings sound. |
| SchemaFacts.PairsDistinctAppend | parser.go:221-223 | A binding whose pairs are all new keeps every pair owned by one binding. |
| SchemaFacts.DisjointAppendBinding | parser.go:227 | A binding at the parent's path plus the current index keeps all paths disjoint. |
| SchemaFacts.RecordSound | parser.go:227-233 | Recording a sound binding with new pairs keeps the walk invariant. |
| SchemaFacts.NewBindingOk | parser.go:203-233 | The binding parse records for a codec field with whitelisted sources is sound, and its pairs are new. |
| SchemaFacts.StepFieldSound | parser.go:183-233 | One field step keeps the walk invariant. |
| SchemaFacts.StepFieldsSound | parser.go:182-234 | The field loop over a node turns the walk invariant for its fields into the walk invariant for the queue. |
| SchemaFacts.DequeueSound | parser.go:174-180 | Dequeuing the head starts its field loop with the invariant. |
| SchemaFacts.WalkSound | parser.go:173-236 | The whole walk ends, on success, in a sound schema. |
| SchemaFacts.DeriveSound | parser.go:162-237 | The derived schema of a struct is sound. Each binding is the field at its path, with a non-empty converted name, the registered codec, whitelisted sources and resolved names. The paths are pairwise independent, and no pair belongs to two bindings. |
| SchemaComplete.DeriveComplete | parser.go:162-237 | Completeness of a successful parse: for every struct reachable from the root at path P and every field i of it, some binding sits at P + [i] exactly when the field has a non-empty converted name, a registered (or slice-of-registered) type and sources; such a binding is that field with the registry's slice flag and codec. |
| SchemaComplete.CompleteAt | parser.go:162-237 | In a sound schema that leaves no reachable struct pending, the bindings at P + [i] are exactly the bound fields, each with the registry's codec. |
| SchemaComplete.DeriveCovered | parser.go:162-237 | A successful parse starts with the root pending and ends with every reachable struct's bound fields recorded, in a sound schema. |
| SchemaComplete.WalkComplete | parser.go:173-236 | The walk keeps the invariant that each reachable struct is still queued on its way or has all its bound fields recorded, until the queue is empty. |
| SchemaComplete.DequeueCovered | parser.go:178-234 | Dequeuing the head and running its field loop keeps that invariant. |
| SchemaComplete.StepFieldsProgress | parser.go:182-234 | The field loop of a node only appends, records every bound field of the node and queues every nested struct field. |
| SchemaComplete.StepFieldDone | parser.go:183-233 | One field step only appends, records the field when it is bound and queues it when it is a nested struct. |
| SchemaComplete.BelowNode | parser.go:191-197 | A struct reachable strictly below a reachable node lies below a nested struct field of that node. |
| SchemaComplete.DescendPrefix | parser.go:191-197 | Every struct on the way to a reachable struct is reachable. |
| SchemaParser.RegisterSucceeds | parser.go:76-87 | Registering passes exactly when no codec's data type is registered already or repeated earlier in the same call. |
| SchemaParser.RegisterKeepsEarlier | parser.go:76-87 | Registering keeps every previous entry and every codec before the first clash in the call. |
| SchemaParser.RegisterConsistent | parser.go:84 | The registry keys every codec by its own data type. |
| SchemaParser.BuiltinsRegister | types.go:9-26 | Registering all builtin codecs into an empty registry passes. |
| SchemaParser.ResolveErrPropagates | parser.go:221-223 | A duplicate pair among the first sources fails the whole resolution with the same error. |
| SchemaParser.ResolveStep | parser.go:211-224 | One resolution step picks the tag value, the default or the first name, and fails on a duplicate pair. |
| SchemaParser.Parser.constructor | parser.go:56-63 | A new parser holds its configuration, no codecs and no cached schemas. |
| SchemaParser.Parser.CachedIsDerived | parser.go:244-248 | With a consistent cache, the schema Parse answers is the one derivation gives. |
| SchemaParser.Parser.RegisterTypes | parser.go:76-87 | The registration loop updates the registry and reports the outcome as Register does. |
| SchemaParser.Parser.IsFieldSourceExist | parser.go:110-119 | The nested search finds a pair exactly when some recorded binding has it. |
| SchemaParser.Parser.IsFieldSourcesValid | parser.go:121-128 | The loop answers true exactly when every source is whitelisted. |
| SchemaParser.Parser.ResolveFieldSources | parser.go:210-225 | The resolution loop computes ResolveSources. |
| SchemaParser.Parser.ParseField | parser.go:183-233 | The body of the field loop computes one field step. |
| SchemaParser.Parser.ParseType | parser.go:162-237 | The work-queue walk computes the derived schema. |
| SchemaParser.Parser.Parse | parser.go:239-257 | A non-struct is rejected. A cached type gets its cached schema. Otherwise the schema is derived and cached only on success. A consistent cache stays consistent. |
| SchemaParser.NewParser | parser.go:55-74 | An empty tag key, an empty whitelist and a missing name converter are rejected in that order. Otherwise the parser holds the configuration, an empty registry and an empty cache. |
| Decoding.DecodeEach | decoder.go:24-30 | Decoding every value passes exactly when each value decodes, and then gives their decoded values in order. |
| Decoding.DecodeEachErrPropagates | decoder.go:26-28 | A failure on a prefix of the values is the failure of the whole list. |
| Decoding.DecodeStringsSpec | decoder.go:20-45 | A slice decodes every value in order, or fails. A scalar given more or fewer than one value fails, `[""]` gives no value, and one other value decodes with the codec. |
| Decoding.SkipEmptySources | decoder.go:76-80 | Sources without values are skipped without effect. |
| Decoding.ConflictingSources | decoder.go:81-83 | When a second source has values after one that wrote the field, decoding fails naming both sources. |
| Decoding.RepeatedSourceConflicts | decoder.go:81-83 | A field that lists the same source twice conflicts with itself once it has a value. |
| Decoding.EmptyStringIsAbsent | decoder.go:37-39 | A scalar source holding `[""]` neither writes the field nor blocks a later source. |
| Decoding.DecodeSourcesFrame | decoder.go:56-57 | Decoding one binding leaves every slot independent of its path unchanged, whether it passes or fails. |
| Decoding.DecodeFrame | decoder.go:72-93 | The decode loop leaves every slot independent of the bindings' paths unchanged. |
| Decoding.BuiltinPassesTypeCheck | decoder.go:52-54 | A builtin codec's value always passes the decoded-type check. |
| Decoding.Decoder.constructor | decoder.go:16-18 | A decoder holds its parser. |
| Decoding.Decoder.DecodeStringsToType | decoder.go:20-45 | The append loop computes decodeStringsToType. |
| Decoding.Decoder.DecodeField | decoder.go:47-59 | On success the target holds the written slot. On failure, or when there is no value, the target is unchanged. |
| Decoding.Decoder.DecodeSourcesInto | decoder.go:75-92 | The source loop with its `updatedFrom` variable computes the decoding of one binding. |
| Decoding.Decoder.DecodeBindingsInto | decoder.go:72-93 | the field loop of Decode visits the bindings in schema order, stops at the first failing one, and leaves the target as the decoding specification says |
| Decoding.Decoder.Decode | decoder.go:61-95 | A non-pointer fails. Otherwise the target becomes exactly what decoding its schema gives, keeping writes made before a failure. The parser's cache stays consistent. |
| Encoding.Destination.constructor | schema_test.go:41-55 | A map destination starts with its store and an empty call log. |
| Encoding.Destination.Set | encoder.go:9 | A Set call is logged. It stores the values exactly when the destination accepts and does not fail. |
| Encoding.EncodeEach | encoder.go:27-34 | Encoding every element passes exactly when each element encodes, and then gives one string per element in order. |
| Encoding.EncodeEachErrPropagates | encoder.go:30-32 | A failure on a prefix of the elements is the failure of the whole slice. |
| Encoding.EncodeStringsSpec | encoder.go:20-45 | A slice encodes to one string per element in order, or fails. A scalar that encodes to "" gives no strings. A value of the wrong shape is refused. |
| Encoding.EmptyOutputNoSet | encoder.go:70-72 | A binding whose slot encodes to no strings makes no Set call and leaves the destination unchanged. |
| Encoding.CallsTo | encoder.go:75-76 | The calls made on sources j to m are one call per source, in order, with the same strings. |
| Encoding.TrySourcesCalls | encoder.go:74-86 | Set is called on the sources in order up to the first that accepts or fails, and on no later one. The values are stored only at the accepting source. An error aborts, and when every source declines the binding fails. |
| Encoding.Encoder.constructor | encoder.go:16-18 | An encoder holds its parser. |
| Encoding.Encoder.EncodeTypeToStrings | encoder.go:20-45 | The append loop computes encodeTypeToStrings. |
| Encoding.Encoder.EncodeFieldOf | encoder.go:47-50 | The slot at the binding's path is encoded. |
| Encoding.Encoder.SetSources | encoder.go:74-86 | The Set loop changes the destination and reports as TrySources does. |
| Encoding.Encoder.Encode | encoder.go:52-89 | A pointer is dereferenced before the schema is looked up. The destination becomes what encoding the value gives. The parser's cache stays consistent. |
| Typing.BuiltinLawful | types.go:32-46 | Every builtin codec decodes its own encoding of any proper value of its type back to that value. |
| Typing.BuiltinRegistryLawful | types.go:9-26 | A registry of builtin codecs holds only such codecs. |
| Typing.TypedPlace | parser.go:191-197 | In a value of the root type, every struct the walk reaches exists at its path and has that struct's type. |
| Typing.BoundSlot | parser.go:227 | In a value of the root type, the slot at every sound binding's path exists and holds a value of the field's type. |
| Typing.DecodeEachInverts | decoder.go:24-30 | Strings that decode one by one to given values decode together to those values. |
| Typing.FieldRoundTrip | encoder.go:20-45 | A slot encodes successfully. A non-empty encoding decodes back to the same value, which passes the type check. |
| RoundTrip.DecodeOne | decoder.go:75-92 | Decoding one binding passes, writes its own slot as the source says, and leaves every other bound slot unchanged. |
| RoundTrip.DecodeAll | decoder.go:72-93 | The decode loop passes, and every bound slot ends up with the value its source gives, or keeps its old value. |
| RoundTrip.SlotAdvance | decoder.go:72-93 | once binding `i` is decoded as well, each of the bindings `..i+1` whose source had values holds what they decode to, and every other bound slot still holds its original value |
| RoundTrip.StoreStep | encoder.go:74-83 | Storing a binding's encoding under its first source keeps the store description. |
| RoundTrip.EncodeAll | encoder.go:64-87 | Encoding into an accept-all map passes and stores each binding's encoding under its first source only. |
| RoundTrip.EncodeOne | encoder.go:64-86 | an encodable binding with a source passes and stores its encoding under its first source only when the encoding is not empty |
| RoundTrip.SlotRoundTrip | encoder.go:47-50 | Each bound slot of a typed value encodes, and a non-empty encoding decodes back to the slot's value. |
| RoundTrip.EncodeThenDecode | schema_test.go:180-188 | Encode into an empty accept-all map, then decode the map: both pass, and every bound slot copies the encoded value when its encoding is non-empty. |
| RoundTrip.DecodeThenEncode | schema_test.go:180-188 | Decode canonical values, then encode into an empty accept-all map: both pass, the map holds exactly the original values under every bound key, and every key of the map is the first source of some binding. |
| RoundTrip.DecodeThenEncodeExact | schema_test.go:180-188 | When the source holds canonical values under every binding's first source and nothing else, decoding then encoding reproduces the source map exactly, as the test's DeepEqual at line 186 demands. |
| RoundTrip.KeysStep | encoder.go:74-83 | Storing one more binding's non-empty encoding keeps every key of the store the first source of an encoded binding. |
| RoundTrip.SameFirstSources | schema_test.go:186 | Two source maps keyed only by first sources of bindings, agreeing there, are equal. |
| RoundTrip.DecodeCanonical | decoder.go:61-95 | with canonical values under every first source, decoding passes and leaves each binding's slot encoding back to exactly those values |
| RoundTrip.AllDecodable | decoder.go:72-93 | in a value of the root type every binding's slot exists and the values under its first source decode to the field's type |
| RoundTrip.CanonicalSlot | encoder.go:20-45 | the slot decoding writes from canonical values encodes back to those values |
| RoundTrip.DerivedEncodeThenDecode | schema_test.go:180-188 | The encode-then-decode round trip holds for the schema derived from a struct type, through the engines' entry functions. |
| Scenarios.PageSources | schema_test.go:253 | A field tagged `schema:"query" query:"p"` resolves to the pair (query, p). |
| Scenarios.PageStep | schema_test.go:253 | Parsing that field records the binding (query, p) at path [0] with the uint32 codec. |
| Scenarios.PageFacts | schema_test.go:253 | the Page field takes its value from the query source only, is not inlined, and is handled by the uint32 codec |
| Scenarios.PageWalk | schema_test.go:249-254 | Any struct whose only field is the Page field of `QueryRequest` derives exactly the binding (query, p) at path [0] with the uint32 codec; the other three fields of `QueryRequest` are not part of this scenario. |
| Scenarios.HeaderLeaf | schema_test.go:58-66 | A struct with one header field binds it under its context-qualified name. |
| Scenarios.HeaderFacts | schema_test.go:58-66 | a string field tagged `header` takes its value from the header source only, is not inlined, and is handled by the string codec |
| Scenarios.HeaderResolve | schema_test.go:58-66 | a field tagged only `header` resolves to the header source under the context name when no binding holds that pair yet |
| Scenarios.LeafRound | schema_test.go:58-66 | Dequeuing such a struct appends that one binding. |
| Scenarios.StructChild | parser.go:191-197 | A struct field queues its node at the next index with the context its tag gives. |
| Scenarios.OuterHead | schema_test.go:94-95 | The inline and anonymous fields are queued with the parent's context. |
| Scenarios.OuterQueue | schema_test.go:94-96 | The outer struct queues its three embedded structs. The named one, tagged `schema:"embed"`, gets the context "Embed". |
| Scenarios.OuterFields | schema_test.go:94-96 | The first walk round over the outer struct queues the three nodes and records no binding. |
| Scenarios.InlineFlags | schema_test.go:94-96 | the `;inline` option marks EmbedInline as inlined, while the field tagged `embed` is not |
| Scenarios.InlineFlag | schema_test.go:94 | the `;inline` option marks EmbedInline as inlined |
| Scenarios.EmbedNotInline | schema_test.go:96 | the field tagged `embed` is not inlined |
| Scenarios.OuterFirst | schema_test.go:94 | the inlined EmbedInline field queues its struct with the unchanged context |
| Scenarios.OuterSecond | schema_test.go:95 | the anonymous EmbedAnonymous field queues its struct with the unchanged context |
| Scenarios.OuterLast | schema_test.go:96 | the named Embed field queues its struct under the context Embed, after which the field loop ends with no bindings recorded |
| Scenarios.EmbedJoin | schema_test.go:131 | Joining "Embed" with "Embed" gives "Embed.Embed". |
| Scenarios.FreshPairs | schema_test.go:129-131 | The three header pairs are distinct. |
| Scenarios.EmbeddedRounds | schema_test.go:129-131 | The three queued structs give the bindings Inline, Anonymous and Embed.Embed. |
| Scenarios.EmbeddedWalk | schema_test.go:94-96 | A struct whose fields have the shapes of EmbedInline (inlined), EmbedAnonymous (anonymous) and Embed (named), each holding one header string field, derives exactly the bindings Inline, Anonymous and Embed.Embed of schema_test.go:129-131; the other fields of that test struct are not part of this scenario. |

## Left out

- Go reflection is replaced by `Ty`/`Val`. For a scalar binding, the type check at decoder.go:52-54 is the `HasType` test. It cannot fail for builtin codecs (`BuiltinPassesTypeCheck`), and it is kept for custom codecs.
- Decoding.HasType: for a slice binding Go builds the value with `reflect.MakeSlice` of the field's own type (decoder.go:23), so the check at decoder.go:52-54 never fails there. A custom codec that decodes an element of the wrong type instead makes `reflect.Append` panic (decoder.go:29). The model reports that case as the `DifferentType` error and does not model the panic.
- Unexported struct fields: parse binds them like any other field, because parser.go:183-233 has no exported-field filter. Go's reflection then panics when Decode sets such a field (decoder.go:57) or Encode reads it (encoder.go:29, 37). `Field` does not record whether a field is exported, and `SetAt`/`GetAt` read and write every field, so the model does not capture those panics.
- The `sync.RWMutex` around the schema cache is not modelled (parser.go:49, 243-255), because concurrency is out of scope. The cache is a plain map field of the parser.
- The float codecs (types.go:254-292) are not modelled, because they parse and format floating point. `BuiltinTypes` takes them as parameters whose data types are float32 and float64.
- `strconv` internals are where ParseBool's accepted literals live; the model takes those as given. Integer parsing is an explicit sign and digit grammar with Go's range checks, and `int`/`uint` are 64 bits wide.
- Error message text is not modelled, because only the error kinds matter here.
- The HTTP-backed test source and the `DateType` test codec are not modelled, because they wrap `net/http` and `time`. Custom codecs are the `Custom` case with arbitrary conversions. The test struct's scalar and slice fields other than the embedded structs are not worked through as a scenario.
- The field name converter is an arbitrary function parameter.
- splitNonEmptyAndTrim's separator is one character, because the source calls it only with "," and ";".
- A Go type that is neither a slice nor a struct is known only by name (`Basic`). Pointer, map and interface field types are therefore just unregistered types.
- `RegisterTypes` does not clear the schema cache, as in the source. A schema cached before a registration is still returned afterwards; `CacheConsistent` holds only while the registry is unchanged.
- A source id of "" escapes the decoder's conflict check, as `updatedFrom.Source != ""` does in the source.
- `Encoding.FirstSource`: Go's `field.Sources[0]` would panic on a binding without sources. Derived bindings always have one, and the model then names the empty pair instead.
- The work queue is a `seq` reassigned by the walk, not a slice shifted with `copy`.
- RoundTrip.DecodeThenEncode and RoundTrip.EncodeThenDecode assume that a binding's first source is not repeated among its later ones, and that custom codecs are lawful (decode their own encoding). Without those assumptions the round trips do not hold, and decoding then conflicts (`RepeatedSourceConflicts`).

# Ferroly in Dafny

A model of the stateful and format-handling core of Ferroly, a Rust application framework, with proofs of what its parts promise.
`dafny verify dfyconfig.toml` checks all of it.

How the model is built:

- Pure code is modelled by functions. Code that works by steps is modelled by classes and loops (parsers that move a cursor, writers that append to a buffer, the component manager, hashers, decoders, limiter, breaker, router), each method proved against a function of its input or old state, and that function is what the theorems are about.
- The message bus runs in many tasks at once. It is a state machine over its atomic steps, and the theorems hold for every interleaving.
- Text is a sequence of Unicode scalars, bytes are numbers below 256. 32-bit and 64-bit wrap-around is written out where it can occur (delivery counts, hash lengths, the round-robin counter).
- What the model cannot see is a parameter: float formatting and parsing (with the laws that text and number are inverse), UTF-8 (with its laws), the compression function, hash of a routing key, clock readings, mask keys, the answers of components, handlers and providers, and the sizes of socket reads.

Results that differ from what the documentation suggests:

- YAML: a key or sequence item that holds ": " does not come back although it is quoted, because lines are split at the first ": " even inside quotes (`YamlKeys.UnsafeKey`); a lone negative number or a lone string with ": " is read as a block. `YamlTheorems.RoundTrip` gives the exact condition.
- Lifecycle: the contract of a component says that it is started after its dependencies are running. A start that is dropped by its timeout leaves a component in Starting, and a later start treats that as started (`LifecycleOps.DroppedStartIsUnsafe`). `LifecycleRun.StartSafeIff` gives the exact condition.
- Lifecycle: the claim of `Starting` keeps two starters apart, but a stop in between writes over it, and then both start the component, and any number of them (`LifecycleClaims.StopsLetManyStart`). They are kept apart if and only if no stop writes the state while a start is under way (`LifecycleClaims.KeptApartIff`); from a given state, if and only if no start is under way, or a single one is and the test of the claim turns the next one away (`LifecycleClaims.OneAtATimeIff`).
- Breaker: `max_half_open` is documented as the limit of concurrent trials. It limits the counter; a late success of an older call lowers the counter, so more trials can be under way (`BreakerTrials.LateReportAdmitsTooMany`). `BreakerTrials.LimitHoldsIff` gives the exact condition within a half-open period and `BreakerTrials.LimitBrokenIff` the exact settings.
- Messaging: the delivery limit does not bound how often a message is handled at a destination that dead letters lead back to (`MessagingReturns.SomeRunBreaksLimit`); `MessagingReturns.LimitHoldsInRunsIff` gives the exact condition.
- HTTP client: a connection is documented to go back to the pool only after a clean end. Polled on after an error it can go back as well, and one that has ended inside the trailers goes back dead (`HttpBody.BadlyHandedBackIff`, `HttpBody.DeadHandedBackIff`).
- Rate limit: the clock is read before the lock, so readings can go back. Then more is admitted than burst and rate allow over the time that has passed, and a sweep can admit what was refused without it (`RateLimit.AllowanceKeptIff`, `RateLimit.SweepInvisibleIff`); `RateLimit.AtMostBurstPlusForward` is what holds in any order.
- Server-sent events: a line feed in the type or the id of an event splits its frame or adds fields to it; a carriage return at the end of a line and a line feed at the start of a comment are lost (`SseDecoder.ExactRoundTrip`).
- Router: the "no route" error speaks of unregistered providers, but breakers that refuse lead to it as well (`Router.NoRouteMeans`).

| part | files |
|---|---|
| shared | Wrappers, Seqs, Text, Decimal, Values, Numerals, Bytes |
| TOML codec | TomlEncode, TomlParse, TomlTree, TomlLexical, TomlInline, TomlRoundTrip, TomlUnique, TomlTheorems, TomlForms, TomlComments, TomlSyntax, TomlParser, TomlWriter |
| YAML codec | YamlEncode, YamlParse, YamlLexical, YamlKeys, YamlRoundTrip, YamlTheorems, YamlForms, YamlMachine |
| lifecycle | LifecycleGraph, LifecycleTopo, LifecycleRun, LifecycleOps, LifecycleEdits, LifecycleClaims, LifecycleEffects, LifecycleManager |
| messaging | MessagingBus, MessagingSafety, MessagingLives, MessagingRedelivery, MessagingReturns, MessagingPick, MessagingAnswers |
| hashing | Hash |
| WebSocket | WsFrame, WsReassembly, WsConn |
| HTTP bodies and events | ChunkedCoding, HttpBody, SseEvent, SseRoundTrip, SseDecoder |
| limits and routing | RateLimit, CircuitBreaker, BreakerTrials, Router |
| calendar | Calendar |

## Model

| member | source | states |
|---|---|---|
| `TomlTheorems.RoundTrip` | crates/ferroly/src/codec/toml.rs:27-253 | decoding an encoded value gives its canonical form (nulls dropped, lines before sections, bytes as integers) if and only if no table repeats a written key and no inline value is nested past the limit |
| `TomlTheorems.ExactRoundTrip` | crates/ferroly/src/codec/toml.rs:27-253 | a value comes back unchanged if and only if it is an acceptable table already in canonical form at every level |
| `TomlTheorems.CanonTableIsPermutation` | crates/ferroly/src/codec/toml.rs:69-106 | the canonical table holds exactly the non-null entries, none lost, merged or invented; only their order differs |
| `TomlTheorems.PlainTableIsFixed` | crates/ferroly/src/codec/toml.rs:69-125 | a table is its own canonical form exactly when lines precede sections and nothing in it is rewritten |
| `TomlTheorems.UniqueTableIsSeparate` | crates/ferroly/src/codec/toml.rs:69-106 | a tree without duplicate keys never clashes when written as sections |
| `TomlTheorems.CanonKeys` | crates/ferroly/src/codec/toml.rs:69-106 | which keys the canonical table has |
| `TomlUnique.AcceptedIsUnique` | crates/ferroly/src/codec/toml.rs:306-343 | every accepted document is a table without duplicate keys at any depth, and no document is rejected with the "no such table" error |
| `TomlUnique.StatementSound` | crates/ferroly/src/codec/toml.rs:306-343 | every header and assignment keeps the tree free of duplicates and the current path resolvable |
| `TomlUnique.ElementHeaderSound` | crates/ferroly/src/codec/toml.rs:685-710 | after an array-of-tables header the current path resolves to the new element |
| `TomlUnique.AppendedResolves` | crates/ferroly/src/codec/toml.rs:685-710 | the element just appended is the table that its path leads to |
| `TomlUnique.SetNestedUnique` | crates/ferroly/src/codec/toml.rs:712-726 | a dotted assignment keeps every table free of duplicates |
| `TomlTree.PutResolve` | crates/ferroly/src/codec/toml.rs:639-683 | what is put at a path is what the path resolves to |
| `TomlTree.PutPut` | crates/ferroly/src/codec/toml.rs:639-683 | the last write to a path wins |
| `TomlTree.PutSame` | crates/ferroly/src/codec/toml.rs:639-683 | putting back what is there changes nothing |
| `TomlTree.PathCompose` | crates/ferroly/src/codec/toml.rs:639-683 | resolving a path in two steps is resolving it in one |
| `TomlTree.CreatedResolves` | crates/ferroly/src/codec/toml.rs:654-671 | a header path resolves afterwards: to the table that was there, or to a new empty one |
| `TomlInline.InlineParses` | crates/ferroly/src/codec/toml.rs:127-177 | an inline value is read back in canonical form with the rest of the input untouched, exactly when it is within the depth limit and repeats no key |
| `TomlInline.ArrayParses` | crates/ferroly/src/codec/toml.rs:439-460 | arrays of any elements, with the encoder's separators |
| `TomlInline.ObjectParses` | crates/ferroly/src/codec/toml.rs:462-488 | inline tables, with null fields left out |
| `TomlInline.BytesParse` | crates/ferroly/src/codec/toml.rs:127-177 | byte strings come back as arrays of integers |
| `TomlRoundTrip.TableParses` | crates/ferroly/src/codec/toml.rs:69-106 | from an empty table at any path, reading a written table and everything below it puts the canonical table there and nowhere else, through nested headers |
| `TomlRoundTrip.SectionsParse` | crates/ferroly/src/codec/toml.rs:69-106 | the sections of a table are read one after the other |
| `TomlRoundTrip.ElementsParse` | crates/ferroly/src/codec/toml.rs:69-106 | arrays of tables grow by one element per header |
| `TomlLexical.BasicStringParses` | crates/ferroly/src/codec/toml.rs:226-253 | every string survives quoting and escapes |
| `TomlLexical.KeySegmentParses` | crates/ferroly/src/codec/toml.rs:198-214 | every key survives, bare or quoted |
| `TomlLexical.DottedParses` | crates/ferroly/src/codec/toml.rs:216-224 | joined header paths split into the same keys |
| `TomlLexical.FloatAtom` | crates/ferroly/src/codec/toml.rs:181-196 | float texts come back as floats, never as integers |
| `TomlLexical.IntegerAtom` | crates/ferroly/src/codec/toml.rs:587-615 | integer texts come back as integers over the whole 64-bit range |
| `TomlParser.Parser.SkipInlineSpace` | crates/ferroly/src/codec/toml.rs:284-290 | the cursor-moving method agrees with the grammar function on the unread text, in value, error and rest: skips blanks on a line |
| `TomlParser.Parser.SkipComment` | crates/ferroly/src/codec/toml.rs:292-304 | the cursor-moving method agrees with the grammar function on the unread text, in value, error and rest: skips a comment |
| `TomlParser.Parser.SkipWsNlComments` | crates/ferroly/src/codec/toml.rs:292-304 | the cursor-moving method agrees with the grammar function on the unread text, in value, error and rest: skips blank lines and comments |
| `TomlParser.Parser.ExpectChar` | crates/ferroly/src/codec/toml.rs:346-358 | the cursor-moving method agrees with the grammar function on the unread text, in value, error and rest: one given character or an error |
| `TomlParser.Parser.EndLine` | crates/ferroly/src/codec/toml.rs:360-379 | the cursor-moving method agrees with the grammar function on the unread text, in value, error and rest: nothing but blanks and a comment up to the end of the line |
| `TomlParser.Parser.ReadHex` | crates/ferroly/src/codec/toml.rs:540-549 | the cursor-moving method agrees with the grammar function on the unread text, in value, error and rest: a character from its hexadecimal code |
| `TomlParser.Parser.ReadEscape` | crates/ferroly/src/codec/toml.rs:514-538 | the cursor-moving method agrees with the grammar function on the unread text, in value, error and rest: every escape |
| `TomlParser.Parser.ReadBasicString` | crates/ferroly/src/codec/toml.rs:490-512 | the cursor-moving method agrees with the grammar function on the unread text, in value, error and rest: a quoted string |
| `TomlParser.Parser.ReadLiteralString` | crates/ferroly/src/codec/toml.rs:551-565 | the cursor-moving method agrees with the grammar function on the unread text, in value, error and rest: a literal string |
| `TomlParser.Parser.ReadKeySegment` | crates/ferroly/src/codec/toml.rs:396-412 | the cursor-moving method agrees with the grammar function on the unread text, in value, error and rest: one key |
| `TomlParser.Parser.ReadKeyPath` | crates/ferroly/src/codec/toml.rs:381-394 | the cursor-moving method agrees with the grammar function on the unread text, in value, error and rest: a dotted path |
| `TomlParser.Parser.ReadAtom` | crates/ferroly/src/codec/toml.rs:567-585 | the cursor-moving method agrees with the grammar function on the unread text, in value, error and rest: a bare token |
| `TomlParser.Parser.ReadValue` | crates/ferroly/src/codec/toml.rs:414-437 | the cursor-moving method agrees with the grammar function on the unread text, in value, error and rest: any value, with the depth limit |
| `TomlParser.Parser.ReadArray` | crates/ferroly/src/codec/toml.rs:439-460 | the cursor-moving method agrees with the grammar function on the unread text, in value, error and rest: an array |
| `TomlParser.Parser.ReadInlineTable` | crates/ferroly/src/codec/toml.rs:462-488 | the cursor-moving method agrees with the grammar function on the unread text, in value, error and rest: an inline table, rejecting duplicate keys |
| `TomlParser.Parser.ReadElementHeader` | crates/ferroly/src/codec/toml.rs:306-343 | the cursor-moving method agrees with the grammar function on the unread text, in value, error and rest: a `[[path]]` header |
| `TomlParser.Parser.ReadTableHeader` | crates/ferroly/src/codec/toml.rs:306-343 | the cursor-moving method agrees with the grammar function on the unread text, in value, error and rest: a `[path]` header |
| `TomlParser.Parser.ReadAssignment` | crates/ferroly/src/codec/toml.rs:306-343 | the cursor-moving method agrees with the grammar function on the unread text, in value, error and rest: a `path = value` line |
| `TomlParser.Parser.ReadStatement` | crates/ferroly/src/codec/toml.rs:306-343 | the cursor-moving method agrees with the grammar function on the unread text, in value, error and rest: one statement |
| `TomlParser.Parser.Parse` | crates/ferroly/src/codec/toml.rs:306-343 | the cursor-moving method agrees with the grammar function on the unread text, in value, error and rest: a whole document |
| `TomlWriter.Writer.WriteEscaped` | crates/ferroly/src/codec/toml.rs:226-253 | appends to the output buffer exactly the text that the round trip is about: escapes copied run by run |
| `TomlWriter.Writer.WriteBasicString` | crates/ferroly/src/codec/toml.rs:226-253 | appends to the output buffer exactly the text that the round trip is about: a quoted string |
| `TomlWriter.Writer.WriteKey` | crates/ferroly/src/codec/toml.rs:198-201 | appends to the output buffer exactly the text that the round trip is about: a key |
| `TomlWriter.Writer.WriteFloat` | crates/ferroly/src/codec/toml.rs:181-196 | appends to the output buffer exactly the text that the round trip is about: a float |
| `TomlWriter.Writer.WriteInline` | crates/ferroly/src/codec/toml.rs:127-177 | appends to the output buffer exactly the text that the round trip is about: any inline value |
| `TomlWriter.Writer.WriteBytes` | crates/ferroly/src/codec/toml.rs:127-177 | appends to the output buffer exactly the text that the round trip is about: bytes as integers |
| `TomlWriter.Writer.WriteItems` | crates/ferroly/src/codec/toml.rs:127-177 | appends to the output buffer exactly the text that the round trip is about: array items |
| `TomlWriter.Writer.WriteFields` | crates/ferroly/src/codec/toml.rs:127-177 | appends to the output buffer exactly the text that the round trip is about: inline table fields |
| `TomlWriter.Writer.WriteTable` | crates/ferroly/src/codec/toml.rs:69-106 | appends to the output buffer exactly the text that the round trip is about: lines, then sections |
| `TomlWriter.Writer.WriteLines` | crates/ferroly/src/codec/toml.rs:69-106 | appends to the output buffer exactly the text that the round trip is about: the lines of a table |
| `TomlWriter.Writer.WriteSections` | crates/ferroly/src/codec/toml.rs:69-106 | appends to the output buffer exactly the text that the round trip is about: the sections of a table |
| `TomlWriter.Writer.WriteSection` | crates/ferroly/src/codec/toml.rs:69-106 | appends to the output buffer exactly the text that the round trip is about: one section |
| `TomlWriter.Writer.EncodeValue` | crates/ferroly/src/codec/toml.rs:27-41 | appends to the output buffer exactly the text that the round trip is about: a document |
| `Decimal.WriteU64` | crates/ferroly/src/codec/fmt.rs:11-27 | the 20-byte buffer filled from the back holds the decimal text of every 64-bit number |
| `Decimal.WriteI64` | crates/ferroly/src/codec/fmt.rs:29-36 | the sign and the magnitude, for the least number too |
| `Decimal.TwentyDigits` | crates/ferroly/src/codec/fmt.rs:11-27 | twenty digits are enough, so the buffer index never underflows |
| `Decimal.IntTextParses` | crates/ferroly/src/codec/fmt.rs:11-36 | every integer text parses back to its number |
| `TomlForms.RadixReads` | crates/ferroly/src/codec/toml.rs:614-632 | a hexadecimal, octal or binary number of any digits, in either case, signed or not, with underscores anywhere, is read as the sum of its digits times powers of the base, in the signed type if it fits and else in the unsigned one |
| `TomlForms.RadixMeans` | crates/ferroly/src/codec/toml.rs:614-632 | past both ranges it is no number |
| `TomlForms.DecimalReads` | crates/ferroly/src/codec/toml.rs:589-612 | decimal numbers with signs, leading zeros and underscores are read as their value, and as text past the range |
| `TomlForms.FloatReads` | crates/ferroly/src/codec/toml.rs:600-611 | a float with a point or an exponent is read without its underscores |
| `TomlForms.SignedWords` | crates/ferroly/src/codec/toml.rs:590-597 | signs before inf and nan |
| `TomlForms.LiteralReads` | crates/ferroly/src/codec/toml.rs:551-564 | a literal string is its own text, as a value and as a key |
| `TomlForms.HexEscapeReads` | crates/ferroly/src/codec/toml.rs:540-549 | four or eight hexadecimal digits name the character with that number, or are refused if there is none |
| `TomlSyntax.WrittenShort` | crates/ferroly/src/codec/toml.rs:226-253 | a character is written with a short escape exactly if one reads back as it |
| `TomlSyntax.WrittenBare` | crates/ferroly/src/codec/toml.rs:198-208 | a key is written as it is exactly if it is made of letters, digits, dashes and underscores |
| `TomlSyntax.WrittenLong` | crates/ferroly/src/codec/toml.rs:226-253 | any other control character is written as four hexadecimal digits, in capitals |
| `TomlForms.ShortEscapes` | crates/ferroly/src/codec/toml.rs:500-536 | the characters of the short escapes |
| `Numerals.ReadIsNumeral` | crates/ferroly/src/codec/toml.rs:614-632 | whatever is read as an integer is an optional sign and digits of the base |
| `TomlComments.NotesAreInvisible` | crates/ferroly/src/codec/toml.rs:292-343 | a blank line or a comment line, put in anywhere between lines, inside arrays and tables too, changes no document |
| `TomlComments.CommentsAreInvisible` | crates/ferroly/src/codec/toml.rs:360-381 | in an accepted document a comment can be put at the end of any line |
| `TomlSyntax.AssignmentDocument` | crates/ferroly/src/codec/toml.rs:330-338 | key = value is a table of that entry |
| `TomlSyntax.DottedDocument` | crates/ferroly/src/codec/toml.rs:383-397 | a dotted key is a table in a table |
| `TomlSyntax.SectionDocument` | crates/ferroly/src/codec/toml.rs:322-328 | a section header and an assignment below it |
| `TomlSyntax.ElementDocument` | crates/ferroly/src/codec/toml.rs:314-321 | an array-of-tables header and an assignment below it |
| `TomlSyntax.ArrayItem` | crates/ferroly/src/codec/toml.rs:439-460 | an array goes on at a comma and ends at a bracket, also after a comma |
| `TomlSyntax.TableField` | crates/ferroly/src/codec/toml.rs:462-488 | an inline table goes on at a comma and ends at a brace |
| `TomlSyntax.WrittenTables` | crates/ferroly/src/codec/toml.rs:69-106 | the text of a table, a section and an array of tables, with bare keys not quoted |
| `TomlSyntax.WrittenAlone` | crates/ferroly/src/codec/toml.rs:27-47 | any other value is written under the key value |
| `YamlTheorems.RoundTrip` | crates/ferroly/src/codec/yaml.rs:20-362 | decoding an encoded value gives its canonical form if and only if the nesting is within the limit, no key and no sequence item holds ": ", and a lone scalar does not look like a block; an accepted block is read to its last line |
| `YamlTheorems.ExactRoundTrip` | crates/ferroly/src/codec/yaml.rs:20-362 | a value comes back unchanged if and only if it is acceptable, in canonical form already, and no empty container on its own |
| `YamlTheorems.PlainIsFixed` | crates/ferroly/src/codec/yaml.rs:108-135 | values in canonical form are their own canonical form |
| `YamlTheorems.PreprocessRender` | crates/ferroly/src/codec/yaml.rs:186-200 | splitting, comment skipping and indentation recover the printed lines |
| `YamlTheorems.ScalarDocument` | crates/ferroly/src/codec/yaml.rs:43-53 | documents that are one scalar |
| `YamlRoundTrip.BlockParses` | crates/ferroly/src/codec/yaml.rs:202-290 | a printed block followed by anything less indented is read back and exactly its lines are consumed, if and only if it is readable; otherwise an error or another value |
| `YamlRoundTrip.MappingParses` | crates/ferroly/src/codec/yaml.rs:222-252 | the entries of a mapping, inline and nested |
| `YamlRoundTrip.SequenceParses` | crates/ferroly/src/codec/yaml.rs:254-290 | the items of a sequence, inline and nested |
| `YamlRoundTrip.MappingExtends` | crates/ferroly/src/codec/yaml.rs:222-252 | a mapping loop never drops an entry it has read |
| `YamlKeys.SafeKey` | crates/ferroly/src/codec/yaml.rs:292-305 | a key without ": " is read back with what follows it |
| `YamlKeys.UnsafeKey` | crates/ferroly/src/codec/yaml.rs:292-305 | a key with ": ", although quoted, is always cut short and comes back as another key |
| `YamlLexical.QuotedReads` | crates/ferroly/src/codec/yaml.rs:336-362 | quoting and unquoting are inverse |
| `YamlLexical.StringTextReads` | crates/ferroly/src/codec/yaml.rs:137-162 | every string comes back as the same string, quoted where it would read as something else |
| `YamlLexical.InlineReads` | crates/ferroly/src/codec/yaml.rs:307-334 | every scalar comes back in canonical form: bytes as text, unsigned numbers as signed where they fit, infinities as null |
| `YamlLexical.FloatReads` | crates/ferroly/src/codec/yaml.rs:108-135 | a finite float comes back as itself unless its text is an integer in range, and then as that integer; others come back as null |
| `YamlLexical.PointedFloatReads` | crates/ferroly/src/codec/yaml.rs:108-135 | a float whose text has a point comes back as itself |
| `YamlMachine.Writer.WriteQuoted` | crates/ferroly/src/codec/yaml.rs:164-181 | appends to the output buffer exactly the rendered lines: quoting run by run |
| `YamlMachine.Writer.WriteString` | crates/ferroly/src/codec/yaml.rs:137-143 | appends to the output buffer exactly the rendered lines: a string or key |
| `YamlMachine.Writer.WriteScalar` | crates/ferroly/src/codec/yaml.rs:108-135 | appends to the output buffer exactly the rendered lines: a scalar |
| `YamlMachine.Writer.WriteBlock` | crates/ferroly/src/codec/yaml.rs:55-79 | appends to the output buffer exactly the rendered lines: a block |
| `YamlMachine.Writer.WriteMapping` | crates/ferroly/src/codec/yaml.rs:55-79 | appends to the output buffer exactly the rendered lines: a mapping |
| `YamlMachine.Writer.WriteSequence` | crates/ferroly/src/codec/yaml.rs:55-79 | appends to the output buffer exactly the rendered lines: a sequence |
| `YamlMachine.Writer.WriteAfterMarker` | crates/ferroly/src/codec/yaml.rs:81-99 | appends to the output buffer exactly the rendered lines: what follows a colon or dash |
| `YamlMachine.Writer.EncodeValue` | crates/ferroly/src/codec/yaml.rs:20-25 | appends to the output buffer exactly the rendered lines: a document |
| `YamlMachine.FindMappingKey` | crates/ferroly/src/codec/yaml.rs:292-305 | the loop over an index agrees with the function on the remaining input: key and rest of a line |
| `YamlMachine.RemoveEscapes` | crates/ferroly/src/codec/yaml.rs:336-362 | the loop over an index agrees with the function on the remaining input: the character loop |
| `YamlMachine.RemoveQuotes` | crates/ferroly/src/codec/yaml.rs:336-362 | the loop over an index agrees with the function on the remaining input: either kind of quotes |
| `YamlMachine.ReadLines` | crates/ferroly/src/codec/yaml.rs:186-200 | the loop over an index agrees with the function on the remaining input: significant lines with their indentation |
| `YamlMachine.ReadBlock` | crates/ferroly/src/codec/yaml.rs:202-220 | the loop over an index agrees with the function on the remaining input: a block |
| `YamlMachine.ReadMapping` | crates/ferroly/src/codec/yaml.rs:222-252 | the loop over an index agrees with the function on the remaining input: a mapping |
| `YamlMachine.ReadSequence` | crates/ferroly/src/codec/yaml.rs:254-290 | the loop over an index agrees with the function on the remaining input: a sequence |
| `YamlMachine.Decode` | crates/ferroly/src/codec/yaml.rs:43-53 | the loop over an index agrees with the function on the remaining input: a document |
| `YamlForms.NotesAreInvisible` | crates/ferroly/src/codec/yaml.rs:185-198 | a blank line, a comment or a document separator, put in anywhere between lines, changes no document |
| `YamlForms.SingleQuoted` | crates/ferroly/src/codec/yaml.rs:307-313 | text in single quotes is itself |
| `YamlForms.DoubleQuoted` | crates/ferroly/src/codec/yaml.rs:307-313 | text in double quotes has its escapes resolved |
| `YamlForms.UnescapeMeans` | crates/ferroly/src/codec/yaml.rs:336-362 | what each escape stands for |
| `YamlForms.NothingWords` | crates/ferroly/src/codec/yaml.rs:314-315 | the words for null |
| `YamlForms.NumbersRead` | crates/ferroly/src/codec/yaml.rs:322-333 | signed numbers with leading zeros; past the range floats, or text |
| `YamlForms.OneKeyDocument` | crates/ferroly/src/codec/yaml.rs:277-280 | an item with a key is a mapping of that key |
| `YamlForms.OneEntryDocument` | crates/ferroly/src/codec/yaml.rs:222-253 | a line with a key is a mapping |
| `YamlForms.BareKeyDocument` | crates/ferroly/src/codec/yaml.rs:238-247 | a key with nothing after it and nothing deeper below it is null |
| `YamlForms.ByteListGrows` | crates/ferroly/src/codec/yaml.rs:108-135 | bytes are their decimal numbers with commas between them |
| `YamlForms.QuotedIff` | crates/ferroly/src/codec/yaml.rs:137-162 | a string is quoted exactly if it has blanks around it, a special character in it or first, or reads as another value |
| `YamlForms.PlainDocumentText` | crates/ferroly/src/codec/yaml.rs:28-53 | the text of a plain string |
| `YamlForms.IndentInBytes` | crates/ferroly/src/codec/yaml.rs:192 | an indentation counts in bytes |
| `YamlForms.BareDashes` | crates/ferroly/src/codec/yaml.rs:267-276 | a dash with nothing after it is a null item |
| `YamlForms.IndentationIsRelative` | crates/ferroly/src/codec/yaml.rs:203-288 | only which line is indented more than which matters, not by how much |
| `YamlForms.StrayLinesRefused` | crates/ferroly/src/codec/yaml.rs:230-236 | deeper lines and lines without a key below an entry are refused |
| `LifecycleTopo.TopoOrder` | crates/ferroly/src/lifecycle/manager.rs:369-418 | Ok exactly when the graph has no cycle; then every node once, dependencies first, in the one order that breaks every tie by name whatever order the maps are visited in; the error is the cycle error |
| `LifecycleTopo.BuildIndex` | crates/ferroly/src/lifecycle/manager.rs:369-382 | in-degrees and dependents lists are exact, in whatever order the map is visited |
| `LifecycleTopo.Release` | crates/ferroly/src/lifecycle/manager.rs:399-414 | counting a node off never underflows and collects exactly the nodes with nothing left to wait for |
| `LifecycleTopo.Round` | crates/ferroly/src/lifecycle/manager.rs:396-414 | one round keeps the algorithm's invariant and the order to come |
| `LifecycleTopo.FinishedOrder` | crates/ferroly/src/lifecycle/manager.rs:408-418 | when the queue is empty, a short order means a cycle and a full one a topological order |
| `LifecycleTopo.OneNameOrder` | crates/ferroly/src/lifecycle/manager.rs:391-394 | sorting fixes the list: a set has one listing in name order |
| `LifecycleTopo.DependencyClosure` | crates/ferroly/src/lifecycle/manager.rs:421-435 | exactly the ids reached along dependencies |
| `LifecycleTopo.DependentClosure` | crates/ferroly/src/lifecycle/manager.rs:438-452 | exactly the ids from which it is reached |
| `LifecycleGraph.OrderedIsAcyclic` | crates/ferroly/src/lifecycle/manager.rs:369-418 | a dependencies-first listing rules out every cycle |
| `LifecycleGraph.TrappedIsCyclic` | crates/ferroly/src/lifecycle/manager.rs:408-418 | nodes that all wait for one another contain a cycle |
| `LifecycleGraph.FilterKeepsOrder` | crates/ferroly/src/lifecycle/manager.rs:323-329 | restricting an order to a dependency-closed set keeps dependencies first |
| `LifecycleGraph.ReverseFilter` | crates/ferroly/src/lifecycle/manager.rs:165-177 | reversed and restricted to a dependent-closed set, dependents come first |
| `LifecycleRun.StartSafeIff` | crates/ferroly/src/lifecycle/manager.rs:136-157 | starting in dependency order is safe for every behaviour of the components if and only if no component still to start waits for one left in Starting |
| `LifecycleRun.StopSafe` | crates/ferroly/src/lifecycle/manager.rs:165-188 | from any state and with any failures, every stop happens with all dependents idle |
| `LifecycleRun.SweepSafe` | crates/ferroly/src/lifecycle/manager.rs:196-218 | the same for the best-effort sweep with timeouts |
| `LifecycleRun.SweepEnds` | crates/ferroly/src/lifecycle/manager.rs:196-218 | the exact final state of the sweep: Unknown stays, Error exactly where a stop went wrong, Stopped otherwise, the rest untouched; Ok exactly when nothing went wrong |
| `LifecycleRun.StartEnds` | crates/ferroly/src/lifecycle/manager.rs:136-157 | Ok exactly when every start that was due succeeded; then all are Running; nothing else is touched |
| `LifecycleRun.StopIsSweepCutShort` | crates/ferroly/src/lifecycle/manager.rs:179-218 | stop_all is the sweep up to its first error and reports the same error |
| `LifecycleRun.TraceKeepsSafe` | crates/ferroly/src/lifecycle/manager.rs:237-321 | well-ordered moves keep every Running component on Running dependencies |
| `LifecycleOps.RunIsSafe` | crates/ferroly/src/lifecycle/manager.rs:136-218 | over every sequence of start, start_all, stop, stop_all and the sweep, with any failures, in every state passed through a Running component has all dependencies Running, and no component leaves Running while a dependent runs |
| `LifecycleOps.StartOrder` | crates/ferroly/src/lifecycle/manager.rs:323-329 | what a start lists: exactly the dependencies reached, each once, dependencies first |
| `LifecycleOps.StopOrder` | crates/ferroly/src/lifecycle/manager.rs:331-339 | what a stop lists: exactly the dependents, each once, dependents first |
| `LifecycleOps.DroppedStartIsUnsafe` | crates/ferroly/src/lifecycle/manager.rs:160-162 | a concrete run: a timed-out start_all leaves a dependency in Starting and a later start runs its dependent without it |
| `LifecycleClaims.OneStarter` | crates/ferroly/src/lifecycle/manager.rs:237-263 | in every run of starters and stoppers from a fresh component the starts under way are those whose claim was written over and have not ended, and at most one more, while the state is Starting |
| `LifecycleClaims.OneAtATimeIff` | crates/ferroly/src/lifecycle/manager.rs:237-263 | from any state, however many starters come and whatever becomes of them, no two start the component at a time, if and only if no start is under way, or one is and the test of the claim would turn the next one away |
| `LifecycleClaims.KeptApartIff` | crates/ferroly/src/lifecycle/manager.rs:237-307 | starters are kept apart at every point of a run from a fresh component if and only if no stop in it writes the state while a start is under way |
| `LifecycleClaims.StopsLetManyStart` | crates/ferroly/src/lifecycle/manager.rs:277-307 | for every n a run from a fresh component in which n stops write over n claims and n + 1 starts are under way |
| `LifecycleClaims.StartsUnderWay` | crates/ferroly/src/lifecycle/manager.rs:237-307 | every step of any task keeps that count, from any counted state |
| `LifecycleClaims.StartersAlone` | crates/ferroly/src/lifecycle/manager.rs:237-263 | however many starters there are, without a stop none starts a component twice at a time |
| `LifecycleEdits.EdgeMakesCycle` | crates/ferroly/src/lifecycle/manager.rs:75-97 | a new dependency closes a cycle exactly when the other end already reaches back |
| `LifecycleEdits.EdgeKeepsSafe` | crates/ferroly/src/lifecycle/manager.rs:75-97 | a new dependency keeps a safe state safe unless the component runs and the dependency does not |
| `LifecycleEdits.RegisteringKeepsSafe` | crates/ferroly/src/lifecycle/manager.rs:50-57 | registering again resets the state, which is safe exactly when nothing that runs depends on it |
| `LifecycleEdits.UnregisteringKeepsSafe` | crates/ferroly/src/lifecycle/manager.rs:60-68 | unregistering keeps every safe state safe |
| `LifecycleEdits.UnregisteringKeepsAcyclic` | crates/ferroly/src/lifecycle/manager.rs:60-68 | and leaves no edge to the id and no cycle |
| `LifecycleManager.ComponentManager.Register` | crates/ferroly/src/lifecycle/manager.rs:50-57 | fields after the call and every state in between: tables updated, dependencies of a known id kept, state Unknown, graph still acyclic |
| `LifecycleManager.ComponentManager.Unregister` | crates/ferroly/src/lifecycle/manager.rs:60-68 | fields after the call and every state in between: the id and every edge to it gone |
| `LifecycleManager.ComponentManager.AddDependency` | crates/ferroly/src/lifecycle/manager.rs:75-97 | fields after the call and every state in between: not-found errors; the cycle error exactly when the edge would close a cycle; on any error the exact prior graph |
| `LifecycleManager.ComponentManager.StartOne` | crates/ferroly/src/lifecycle/manager.rs:237-274 | fields after the call and every state in between: the states passed through by one start |
| `LifecycleManager.ComponentManager.StopOne` | crates/ferroly/src/lifecycle/manager.rs:277-307 | fields after the call and every state in between: the states passed through by one stop |
| `LifecycleManager.ComponentManager.StartEach` | crates/ferroly/src/lifecycle/manager.rs:136-157 | fields after the call and every state in between: starts in order until an error |
| `LifecycleManager.ComponentManager.StopEach` | crates/ferroly/src/lifecycle/manager.rs:165-188 | fields after the call and every state in between: stops in order until an error |
| `LifecycleManager.ComponentManager.SweepEach` | crates/ferroly/src/lifecycle/manager.rs:196-218 | fields after the call and every state in between: stops all, remembering the first error |
| `LifecycleManager.ComponentManager.Start` | crates/ferroly/src/lifecycle/manager.rs:136-148 | what the operation achieves and replies, and every state in between: not found, already started, or the dependency closure in order |
| `LifecycleManager.ComponentManager.StartAll` | crates/ferroly/src/lifecycle/manager.rs:151-157 | what the operation achieves and replies, and every state in between: all in order |
| `LifecycleManager.ComponentManager.StartAllWithTimeout` | crates/ferroly/src/lifecycle/manager.rs:160-162 | what the operation achieves and replies, and every state in between: all in order, cut off while a component is starting |
| `LifecycleManager.ComponentManager.Stop` | crates/ferroly/src/lifecycle/manager.rs:165-177 | what the operation achieves and replies, and every state in between: not found, or the dependents in reverse order |
| `LifecycleManager.ComponentManager.StopAll` | crates/ferroly/src/lifecycle/manager.rs:179-188 | what the operation achieves and replies, and every state in between: all in reverse order |
| `LifecycleManager.ComponentManager.StopAllWithTimeout` | crates/ferroly/src/lifecycle/manager.rs:196-218 | what the operation achieves and replies, and every state in between: the sweep |
| `LifecycleEffects.PerformAchieves` | crates/ferroly/src/lifecycle/manager.rs:135-218 | what every operation leaves behind and replies, told from graph, states and components: after a start everything needed is started, after a stop everything that needs the component is stopped, nothing else is touched; the reply is an error exactly if some component does not do its part, and then names one, with what comes before it done and what comes after it untouched |
| `LifecycleClaims.TasksAreReal` | crates/ferroly/src/lifecycle/manager.rs:237-307 | every start under way is a claim that was won and has not ended; stops look, mark and end in that order |
| `LifecycleClaims.AnyStartCanEnd` | crates/ferroly/src/lifecycle/manager.rs:265-274 | every start under way can end, and leaves the component running or failed, or as it was if it is dropped |
| `LifecycleClaims.StopsWrite` | crates/ferroly/src/lifecycle/manager.rs:296-306 | a stop marks the component and leaves it stopped or failed |
| `MessagingSafety.Conserved` | crates/ferroly/src/messaging/mod.rs:380-595 | in every interleaving, with handlers that return, a message is in as many places as it was accepted: buffers, a consumer's hand, handlers, detached sends, acknowledged, rejected, dropped; also across stop |
| `MessagingSafety.StepKeepsInv` | crates/ferroly/src/messaging/mod.rs:380-571 | every sender is held for a consumer that is still there, so no send meets a closed channel; buffers within capacity; handlers within the concurrency limit, one at a time without one; messages begin in the order they were queued |
| `MessagingSafety.StepConserves` | crates/ferroly/src/messaging/mod.rs:465-571 | each step moves a message from one place to one other |
| `MessagingSafety.NoDeadlock` | crates/ferroly/src/messaging/mod.rs:544-571 | when no task of the bus can move, nobody waits and every accepted message is settled |
| `MessagingSafety.PickChoosesLive` | crates/ferroly/src/messaging/mod.rs:380-399 | a listener is chosen exactly when the destination has a live one, and it is live |
| `MessagingSafety.AfterHandlerAdds` | crates/ferroly/src/messaging/mod.rs:509-542 | process puts the message in exactly one place |
| `MessagingBus.RequeueAddress` | crates/ferroly/src/messaging/mod.rs:321-323 | the address a consumer requeues to names its own destination, whatever the name |
| `MessagingPick.Destinations.Pick` | crates/ferroly/src/messaging/mod.rs:380-399 | dead handles removed, key or round robin, counter advanced, in place |
| `MessagingPick.KeyAffinity` | crates/ferroly/src/messaging/mod.rs:388-397 | one key goes to one listener while the same listeners stay open |
| `MessagingRedelivery.EveryRun` | crates/ferroly/src/messaging/mod.rs:380-595 | every run from the empty bus in which dead letters descend and no count gets near the end of 32 bits: the invariants hold, each accepted message is in exactly as many places as it was accepted, every message anywhere has had a bounded life, the tasks did no more work than the sends paid for, and a bus at rest has settled everything |
| `MessagingRedelivery.ComesToRest` | crates/ferroly/src/messaging/mod.rs:497-542 | with dead letters that descend, the bus's tasks take at most as many steps as the sends pay for, so without new sends the bus comes to rest |
| `MessagingRedelivery.LifeIsBounded` | crates/ferroly/src/messaging/mod.rs:522-542 | with descending dead letters and counts that leave room for them, every message is handled finitely often, with an explicit bound |
| `MessagingLives.StepFlies` | crates/ferroly/src/messaging/mod.rs:497-571 | where the listeners of a destination share their options, every step keeps the life of every message a chain: counts, flags and destinations follow from one another |
| `MessagingLives.HandledAtMostLimit` | crates/ferroly/src/messaging/mod.rs:522-542 | a fresh message is handled at most max(1, limit) times where it was sent, if no dead letters lead back there |
| `MessagingLives.LimitHoldsIff` | crates/ferroly/src/messaging/mod.rs:522-542 | that bound holds for every life that the rules of handling allow if and only if no chain of dead letters leads from the destination back to it |
| `MessagingLives.EachOthersDeadLetter` | crates/ferroly/src/messaging/mod.rs:535-538 | if two destinations are each other's dead letter, some life breaks the bound |
| `MessagingLives.StaysAtDestination` | crates/ferroly/src/messaging/mod.rs:522-542 | between two handlings at a destination that no dead letters lead back to, every nack announced a requeue and the count rose by one, below the limit |
| `MessagingLives.RequeueFlag` | crates/ferroly/src/messaging/mod.rs:522-530 | the flag is true exactly when attempts remain |
| `MessagingLives.HandledFliesOn` | crates/ferroly/src/messaging/mod.rs:522-542 | a nacked message goes back to its destination or on to the dead-letter one |
| `MessagingPick.RoundRobin` | crates/ferroly/src/messaging/mod.rs:388-397 | with live listeners only, the keyless picks take the listeners in order, one after the other, and begin again when the counter wraps round |
| `MessagingPick.AddedGetsItsTurn` | crates/ferroly/src/messaging/mod.rs:432-452 | a listener that is added to live ones gets a message within twice as many keyless picks as there are listeners |
| `MessagingPick.SilentAfterStop` | crates/ferroly/src/messaging/mod.rs:586-595 | after a stop, in every run, no send finds a listener at a destination until one is added there |
| `MessagingReturns.LimitHoldsInRunsIff` | crates/ferroly/src/messaging/mod.rs:497-571 | in every state that any run from the empty bus reaches, every message sent fresh to a destination has been handled there at most max(1, limit) times, if and only if no chain of dead letters leads back there |
| `MessagingReturns.NackedTravels` | crates/ferroly/src/messaging/mod.rs:497-571 | a message that is always nacked goes, in a run from the empty bus, to exactly the destinations that its counts and the dead letters name |
| `MessagingReturns.SomeRunBreaksLimit` | crates/ferroly/src/messaging/mod.rs:522-542 | with a chain of dead letters back to the destination, some run handles a message there too often |
| `MessagingAnswers.EveryRunAnswers` | crates/ferroly/src/messaging/mod.rs:509-542 | in every run from the empty bus every message rests where its last answer puts it: acknowledged after Ok, rejected after Reject, dropped as exhausted after a Retry without a requeue at a listener without a dead letter; and it has been acknowledged and rejected exactly as often as a handler said so |
| `MessagingAnswers.StepPlaces` | crates/ferroly/src/messaging/mod.rs:497-571 | every step keeps that, with any listeners and options |
| `MessagingSafety.SendWaitsIff` | crates/ferroly/src/messaging/mod.rs:402-428 | a send waits exactly while it may block and the buffer is full |
| `MessagingSafety.TrySendAccepts` | crates/ferroly/src/messaging/mod.rs:402-428 | a send that may not block is accepted exactly if there is room |
| `MessagingSafety.SpareHandlerMoves` | crates/ferroly/src/messaging/mod.rs:465-495 | a listener with work and a handler to spare goes on |
| `MessagingPick.KeyChooses` | crates/ferroly/src/messaging/mod.rs:388-392 | a key goes to the live listener that its hash names, so each is the one of some hash |
| `MessagingPick.SendGoesByKey` | crates/ferroly/src/messaging/mod.rs:410-416 | the key of a send is the one given with the call, else the message's own |
| `MessagingPick.FirstGoesFirst` | crates/ferroly/src/messaging/mod.rs:393-397 | the first message without a key goes to the first listener |
| `MessagingBus.SchemeIsDropped` | crates/ferroly/src/messaging/mod.rs:321-323 | the name of an address is what follows its scheme |
| `MessagingBus.NameIsKept` | crates/ferroly/src/messaging/mod.rs:321-323 | an address without a scheme is a name |
| `Hash.HashPieces` | crates/ferroly/src/hash/mod.rs:139-187 | however a message is cut into updates, the digest is the fold of the compression function over the padded whole |
| `Hash.Hasher.Update` | crates/ferroly/src/hash/mod.rs:139-163 | absorbs the data whatever the buffer holds, with the 64-bit length wrapping |
| `Hash.Hasher.TopUp` | crates/ferroly/src/hash/mod.rs:141-152 | a partly filled buffer is completed first |
| `Hash.Hasher.Bulk` | crates/ferroly/src/hash/mod.rs:153-162 | whole blocks straight from the data, the rest buffered |
| `Hash.Hasher.Finalize` | crates/ferroly/src/hash/mod.rs:166-187 | in-place padding gives the digest of everything absorbed |
| `Hash.LastBlock` | crates/ferroly/src/hash/mod.rs:349-370 | padding that fits behind the tail |
| `Hash.LastBlocks` | crates/ferroly/src/hash/mod.rs:349-370 | padding whose length needs a block of its own |
| `Hash.FoldConcat` | crates/ferroly/src/hash/mod.rs:322-346 | folding in two parts is folding the whole |
| `Hash.MacPieces` | crates/ferroly/src/hash/mod.rs:246-280 | streaming HMAC equals the two-pass definition of RFC 2104 for every key and cutting |
| `Hash.Hmac.constructor` | crates/ferroly/src/hash/mod.rs:249-265 | keys longer than a block are hashed first, shorter ones padded; both masked |
| `Hash.Hmac.Update` | crates/ferroly/src/hash/mod.rs:268-270 | extends the message |
| `Hash.Hmac.Finalize` | crates/ferroly/src/hash/mod.rs:273-280 | the tag of the message so far |
| `Hash.PaddedMeans` | crates/ferroly/src/hash/mod.rs:166-187 | section 5.1.1 of FIPS 180-4: a one bit, the fewest zeros that complete a block, the number of bits |
| `Hash.WordsRead` | crates/ferroly/src/hash/mod.rs:166-187 | the digest is the final words, most significant byte first |
| `Hash.KeyBlockMeans` | crates/ferroly/src/hash/mod.rs:249-265 | section 2 of RFC 2104: keys longer than a block are hashed, and zeros are added |
| `Hash.MacMeans` | crates/ferroly/src/hash/mod.rs:246-280 | section 2 of RFC 2104: outer and inner hash with their pads |
| `WsFrame.FrameRoundTrip` | crates/ferroly/src/ws/frame.rs:51-95 | for every frame, mask key and following bytes, reading undoes writing and leaves the following bytes, unless the frame is over the limit |
| `WsFrame.LengthBack` | crates/ferroly/src/ws/frame.rs:66-76 | the three length forms |
| `WsFrame.MaskTwice` | crates/ferroly/src/ws/frame.rs:91-95 | masking twice restores the payload |
| `WsReassembly.FramesReadBack` | crates/ferroly/src/ws/conn.rs:72-125 | any list of frames is read back in order, not one byte past the last |
| `WsReassembly.ConversationReassembles` | crates/ferroly/src/ws/conn.rs:130-178 | for every fragmentation and every placement of pings and pongs, the messages come out in order up to the first one over the cap; if none is, every ping is answered once, in order |
| `WsReassembly.NeverOverCap` | crates/ferroly/src/ws/conn.rs:130-178 | whatever frames arrive, no message over the cap comes out |
| `WsReassembly.ControlsAreInvisible` | crates/ferroly/src/ws/conn.rs:145-153 | control frames between fragments change no message |
| `WsReassembly.Reassembles` | crates/ferroly/src/ws/conn.rs:154-176 | fragments join to their message |
| `WsReassembly.BytesAreFrames` | crates/ferroly/src/ws/conn.rs:130-178 | over the encoded bytes the loop does what it does over the frames |
| `WsConn.ApplyMask` | crates/ferroly/src/ws/frame.rs:91-95 | in place, byte by byte |
| `WsConn.EncodeFrame` | crates/ferroly/src/ws/frame.rs:61-88 | the bytes of a frame |
| `WsConn.Reader.ReadExact` | crates/ferroly/src/ws/conn.rs:47-70 | exactly the next bytes, however they are split between leftovers and socket reads |
| `WsConn.Reader.ReadFrame` | crates/ferroly/src/ws/conn.rs:72-125 | one frame, and not a byte past it |
| `WsConn.ReadLoop` | crates/ferroly/src/ws/conn.rs:130-178 | messages and replies of the whole stream, for an application that goes after any number of messages |
| `WsReassembly.HeardIsPrefix` | crates/ferroly/src/ws/conn.rs:130-178 | an application that goes early gets exactly the beginning of what it would have got |
| `WsFrame.Layout` | crates/ferroly/src/ws/frame.rs:61-89 | section 5.2 of RFC 6455, byte by byte: flags, opcode, length in one, three or nine bytes, key, masked payload |
| `WsFrame.OtherOpcodes` | crates/ferroly/src/ws/frame.rs:17-27 | any other opcode is refused |
| `WsFrame.LongLengthRefused` | crates/ferroly/src/ws/conn.rs:79-90 | a length past the largest signed number is refused |
| `WsFrame.CutOffFrame` | crates/ferroly/src/ws/conn.rs:47-67 | a frame that is cut off anywhere is not read |
| `Bytes.XorMeans` | crates/ferroly/src/ws/frame.rs:91-95 | masking, bit by bit |
| `WsReassembly.CloseEnds` | crates/ferroly/src/ws/conn.rs:146-149 | a close is answered with a close and ends the loop |
| `WsReassembly.StrayFragments` | crates/ferroly/src/ws/conn.rs:150-177 | fragments that continue nothing, and messages left unfinished |
| `ChunkedCoding.ServerReadsBack` | crates/ferroly/src/http/server.rs:491-526 | for every list of chunks and every 64-bit limit the server reads their concatenation and stops exactly at the end of the coding, or says that it is over the limit, exactly when it is |
| `ChunkedCoding.HexReads` | crates/ferroly/src/http/server.rs:570-581 | every 64-bit size is read back as written |
| `ChunkedCoding.ReadingUnderstands` | crates/ferroly/src/http/server.rs:498-505 | size lines and the final blank line are understood under any UTF-8 decoder |
| `HttpBody.ChunkedDrains` | crates/ferroly/src/http/message.rs:168-197 | the client gets the chunks in order without the empty ones, so their concatenation is what was sent, then the end, and the connection goes back just after the coding |
| `HttpBody.LengthDrains` | crates/ferroly/src/http/message.rs:148-167 | with a length, reads of any sizes give exactly that many bytes and hand the connection back, or drop it if it ends early |
| `HttpBody.CloseDrains` | crates/ferroly/src/http/message.rs:198-210 | until close: everything, and the connection is never handed back |
| `HttpBody.ReclaimedOnce` | crates/ferroly/src/http/message.rs:129-135 | however often a body is polled, also after errors, its connection goes back at most once |
| `HttpBody.BadlyHandedBackIff` | crates/ferroly/src/http/message.rs:127-197 | some calls hand the connection of a chunked body back after an error, or after it has ended, if and only if its bytes hold the end of a coding behind an error, or one that is cut off |
| `HttpBody.DeadHandedBackIff` | crates/ferroly/src/http/message.rs:127-197 | for callers that stop at the first error that happens if and only if the connection ends inside the trailers |
| `HttpBody.OthersAreClean` | crates/ferroly/src/http/message.rs:143-167 | with any other framing it never happens |
| `HttpBody.EndBehindError` | crates/ferroly/src/http/message.rs:168-191 | any line that is no size with a whole coding behind it is such a connection |
| `HttpBody.EndAfterSizeLine` | crates/ferroly/src/http/message.rs:181-191 | and one that ends right after the last size line |
| `HttpBody.OversizedChunkFails` | crates/ferroly/src/http/message.rs:176-180 | a chunk is refused exactly when it is over the limit |
| `HttpBody.Body.NextChunk` | crates/ferroly/src/http/message.rs:137-212 | the fields after each kind of framing, and after each error |
| `HttpBody.Body.Reclaim` | crates/ferroly/src/http/message.rs:129-135 | both options emptied, the connection put back |
| `HttpBody.ReadChunkedBody` | crates/ferroly/src/http/server.rs:491-526 | the server's loop |
| `HttpBody.WriteChunks` | crates/ferroly/src/http/server.rs:570-581 | the writer's loop, skipping empty chunks |
| `SseDecoder.CuttingIsInvisible` | crates/ferroly/src/http/sse.rs:144-168 | however the bytes are cut into pushes, even inside a character, events and state are the same |
| `SseDecoder.ExactRoundTrip` | crates/ferroly/src/http/sse.rs:87-199 | an event comes back as it was if and only if type and id are one line, no text line ends in a carriage return, and the comment does not begin with a line feed |
| `SseDecoder.EventsArrive` | crates/ferroly/src/http/sse.rs:87-199 | any events, framed and received in any pieces, are decoded frame by frame in order; they arrive as they were, each once, if and only if every one of them is clean |
| `SseDecoder.AnyFrameDrains` | crates/ferroly/src/http/sse.rs:87-168 | every frame, whatever its fields hold, is decoded on its own and gives at least one event |
| `SseRoundTrip.FrameReads` | crates/ferroly/src/http/sse.rs:87-122 | the lines of every frame decode to one event |
| `SseRoundTrip.CanonFixes` | crates/ferroly/src/http/sse.rs:87-122 | when nothing of an event is lost |
| `SseDecoder.Decoder.Push` | crates/ferroly/src/http/sse.rs:144-168 | buffer, pending event and result after each push |
| `SseDecoder.Decoder.TakeLine` | crates/ferroly/src/http/sse.rs:147-166 | one line out of the buffer |
| `SseDecoder.WriteFrame` | crates/ferroly/src/http/sse.rs:87-122 | the frame, field by field |
| `ChunkedCoding.Layout` | crates/ferroly/src/http/server.rs:570-581 | section 7.1 of RFC 9112: sizes, line ends, chunks and the end, byte by byte |
| `ChunkedCoding.HexMeans` | crates/ferroly/src/http/message.rs:168-173 | any hexadecimal numeral is its number if that fits 64 bits |
| `ChunkedCoding.NoSize` | crates/ferroly/src/http/message.rs:168-173 | anything else is no size |
| `ChunkedCoding.ExtensionsIgnored` | crates/ferroly/src/http/message.rs:171 | what follows a semicolon does not matter |
| `ChunkedCoding.TrailersSkipped` | crates/ferroly/src/http/message.rs:181-188 | trailers are skipped up to the blank line |
| `HttpBody.AnyCutDrains` | crates/ferroly/src/http/message.rs:153-167 | reads can be of any sizes up to 16384 bytes |
| `SseEvent.FrameTexts` | crates/ferroly/src/http/sse.rs:87-122 | frames as text, with and without a data field |
| `SseEvent.FieldSpellings` | crates/ferroly/src/http/sse.rs:171-199 | fields without the space or without the colon are the same fields |
| `SseEvent.CommentSpellings` | crates/ferroly/src/http/sse.rs:173-180 | comments without the space too |
| `SseEvent.OthersIgnored` | crates/ferroly/src/http/sse.rs:185-199 | other fields, and a retry that is no number, change nothing |
| `RateLimit.SweepIsInvisible` | crates/ferroly/src/turbo/mod.rs:353-403 | for every rate and burst and every sequence of requests in time order, sweeping idle buckets changes no decision |
| `RateLimit.SweepInvisibleIff` | crates/ferroly/src/turbo/mod.rs:353-403 | with clock readings in any order, sweeping changes no decision if and only if nothing flows in or nothing is ever admitted |
| `RateLimit.AtMostBurstPlusFlow` | crates/ferroly/src/turbo/mod.rs:353-403 | within any window of requests in time order a key is admitted at most burst plus what flows in over its length |
| `RateLimit.AtMostBurstPlusForward` | crates/ferroly/src/turbo/mod.rs:353-403 | with clock readings in any order, a key is admitted at most burst plus what flows in over the forward steps of its own readings and those of the sweeps |
| `RateLimit.ForwardInOrder` | crates/ferroly/src/turbo/mod.rs:353-403 | in time order those steps are no more than the length of the window |
| `RateLimit.AllowanceKeptIff` | crates/ferroly/src/turbo/mod.rs:353-403 | with clock readings in any order, burst plus flow over the length of the window is kept if and only if nothing flows in or nothing is ever admitted |
| `RateLimit.AllowancePerSecond` | crates/ferroly/src/turbo/mod.rs:389-392 | for a rate per second that is burst + rate * length |
| `RateLimit.TokensBalance` | crates/ferroly/src/turbo/mod.rs:389-396 | no token is lost: what a bucket held and what flowed in is what it holds, what was admitted and what was spilled |
| `RateLimit.DrawBalances` | crates/ferroly/src/turbo/mod.rs:388-401 | a request is admitted exactly if its bucket then has a whole token |
| `RateLimit.Limiter.Check` | crates/ferroly/src/turbo/mod.rs:375-402 | buckets, sweep time and decision of one request, with no time passed where a reading is before the last one |
| `Calendar.CivilIsDate` | crates/ferroly/src/log.rs:370-381 | every day number gives a date of the Gregorian calendar, and counting days to it gives the number back |
| `Calendar.DateIsCivil` | crates/ferroly/src/log.rs:370-381 | every date of the calendar is the one its day number gives |
| `Calendar.DayByDay` | crates/ferroly/src/log.rs:370-381 | consecutive numbers give consecutive dates |
| `Calendar.Epoch` | crates/ferroly/src/log.rs:370-381 | day 0 is 1970-01-01 |
| `Calendar.YearBounds` | crates/ferroly/src/log.rs:374-376 | year of era and day of year are inside their bounds |
| `Calendar.MonthBounds` | crates/ferroly/src/log.rs:377-379 | month and day are inside their bounds |
| `Calendar.EraBounds` | crates/ferroly/src/log.rs:371-373 | day of era is inside its bound, for negative day numbers too |
| `CircuitBreaker.RunRemembers` | crates/ferroly/src/clients/breaker.rs:100-169 | over every run from the start, a closed breaker has counted exactly the failures in a row and an open one remembers exactly the last failed report |
| `CircuitBreaker.TripsExactly` | crates/ferroly/src/clients/breaker.rs:127-139 | over every run from the start, a closed breaker opens exactly at the failed report that makes the failures in a row reach the threshold, taken as at least one |
| `CircuitBreaker.CooldownHolds` | crates/ferroly/src/clients/breaker.rs:100-124 | over every run from the start, an open breaker admits a call exactly if the timeout has passed since the last failed report; that call is the one trial |
| `CircuitBreaker.RunCountsSuccesses` | crates/ferroly/src/clients/breaker.rs:100-161 | over every run from the start, a half-open breaker has counted exactly the successes since the call that began its period, told from the events |
| `CircuitBreaker.NextCircuit` | crates/ferroly/src/clients/breaker.rs:100-161 | over every run from the start, where one more event leads from each state: a half-open breaker closes exactly at the success that makes those of its period as many as are needed, taken as at least one, and opens exactly at a failed report |
| `CircuitBreaker.CountersReset` | crates/ferroly/src/clients/breaker.rs:100-169 | counters are at zero outside the period they count for |
| `CircuitBreaker.CountersBounded` | crates/ferroly/src/clients/breaker.rs:100-169 | over every run the trial counter is at most max(1, max_half_open), and failures and successes stay below their thresholds |
| `BreakerTrials.TrialsUnderWay` | crates/ferroly/src/clients/breaker.rs:100-161 | over every run in which each admitted call is reported on at most once, from any counted state, the trials really under way are the counted ones plus the late successes still counted against one of them |
| `BreakerTrials.EveryRunCounts` | crates/ferroly/src/clients/breaker.rs:100-161 | the same from the start, with no trials under way outside a half-open period |
| `BreakerTrials.AdmitsExactly` | crates/ferroly/src/clients/breaker.rs:100-124 | over every run from the start, which calls each state admits |
| `BreakerTrials.LimitHoldsIff` | crates/ferroly/src/clients/breaker.rs:115-123 | in a half-open period the limit holds for the calls themselves, whatever is admitted next, if and only if no late success is still counted against a trial or no further trial is allowed |
| `BreakerTrials.LateReportAdmitsTooMany` | crates/ferroly/src/clients/breaker.rs:140-151 | for all settings that allow a trial and need two successes, a run from the start that has one trial more than the limit |
| `BreakerTrials.LimitBrokenIff` | crates/ferroly/src/clients/breaker.rs:140-151 | some run breaks the limit on trials if and only if the settings allow a trial and need at least two successes |
| `BreakerTrials.CallersRun` | crates/ferroly/src/clients/breaker.rs:100-161 | what the callers do is a run of the breaker |
| `CircuitBreaker.Breaker.CanExecute` | crates/ferroly/src/clients/breaker.rs:100-124 | fields and decision |
| `CircuitBreaker.Breaker.OnExecution` | crates/ferroly/src/clients/breaker.rs:127-161 | fields after a report |
| `Router.Retry` | crates/ferroly/src/clients/retry.rs:73-92 | the answer of the last call and the number of calls |
| `Router.RetriedMeans` | crates/ferroly/src/clients/retry.rs:73-92 | calls go on exactly while they fail retryably and never past max_retries |
| `Router.DefaultRouter.Execute` | crates/ferroly/src/genai/router/default_router.rs:115-181 | candidates in route order, skipping unregistered providers and refusing breakers, until a success, a final error or the deadline; the reply; every breaker's state; and exactly what was asked of and told to the breakers |
| `Router.DefaultRouter.Turn` | crates/ferroly/src/genai/router/default_router.rs:125-173 | one candidate: skipped, refused, or called and reported on at one of the two report sites |
| `Router.OneReportPerAdmission` | crates/ferroly/src/genai/router/default_router.rs:131-164 | in every log that the watcher accepts, which is what an execution leaves, every admitted question is followed by exactly one report for its key before the next question of that key, and a refused one by none |
| `Router.JourneyIsWatched` | crates/ferroly/src/genai/router/default_router.rs:131-164 | the log of an execution leaves no admission unanswered and no report without one |
| `Router.FirstSuccessWins` | crates/ferroly/src/genai/router/default_router.rs:157-169 | from route, script and breaker states: the response is that of the first candidate that is neither skipped, refused nor failed retryably, if it gives one in time |
| `Router.ReplyMeans` | crates/ferroly/src/genai/router/default_router.rs:115-181 | every reply from route, script and breaker states: the first candidate that is not passed over settles it, by response, final error or deadline; else the number of attempts and their last error, or that there were none |
| `Router.KeysTellApart` | crates/ferroly/src/genai/router/default_router.rs:67-77 | candidates share a breaker exactly if they are the same, for providers without a slash |
| `Router.KeysCanClash` | crates/ferroly/src/genai/router/default_router.rs:67-77 | with a slash in a provider two candidates can share one |
| `Router.OneJourney` | crates/ferroly/src/genai/router/default_router.rs:115-181 | the rules leave exactly one sequence of visits |
| `Router.NoRouteMeans` | crates/ferroly/src/genai/router/default_router.rs:171-181 | no route exactly when no candidate was attempted |
| `Router.CallsAreBounded` | crates/ferroly/src/genai/router/default_router.rs:92-113 | at most max_retries + 1 calls for each candidate |
| `Router.BreakersHear` | crates/ferroly/src/genai/router/default_router.rs:67-77 | each breaker ends where its own questions and reports take it |

## Left out

- JSON and XML codecs, HTTP heads and routing patterns, TLS, metrics, logging sinks, streaming routes: not modelled; they would add other or easier members.
- Error texts and byte positions in errors: errors are named, not worded.
- TomlParser.Parser.ReadHex: a cut through a multi-byte character, which panics in the source, is an error here, because text is a sequence of characters.
- TomlTheorems.RoundTrip: float text is a parameter with the law that displayed numbers parse back; digit generation is not modelled.
- TomlTree.PutResolve: nested tables are changed in place in the source and on values here, so aliasing of references into the tree is not modelled.
- LifecycleManager.ComponentManager.StartOne: one caller at a time in the object; callers at the same time are the steps of LifecycleClaims, where a component stays registered. A component that never returns is a call that is dropped.
- LifecycleOps.RunIsSafe: no start is dropped half-way in these runs, since otherwise it is false; stops may be dropped anywhere.
- MessagingSafety.Conserved: handlers return; a handler that panics loses its message, and without a concurrency limit also the buffer of its listener. Registering a listener is one step.
- MessagingBus.RequeueAddress: other addresses given to send are taken as destination names already; headers and body are one token; observers are left out except for the recorded requeue flag.
- MessagingRedelivery.EveryRun: the listeners of a destination share their options, and dead letters descend, since otherwise messages can go round; runs with other dead letters are in MessagingReturns.
- MessagingReturns.LimitHoldsInRunsIff: the listeners of a destination share their options; buffers hold at least one message, as the channel demands.
- MessagingPick.KeyAffinity: the hash of a key is any function; channels and tasks are values in the state machine and not objects.
- Hash.HashPieces: the rounds of the SHA-256 and SHA-1 compression functions are a parameter.
- Hash.MacPieces: stated for every compression function whose digest fits a block.
- WsConn.ReadLoop: text is passed on as bytes, before lossy decoding; the write loop only encodes and is left out.
- HttpBody.Body.NextChunk: the connection fails only by ending; other transport errors and the cap on idle connections are left out.
- RateLimit.AtMostBurstPlusFlow: over the reals, so rounding of floats is not modelled; rate and burst are not negative.
- Calendar.CivilIsDate: integers are unbounded, so the overflow of day numbers near the 64-bit limits is not modelled.
- CircuitBreaker.CountersBounded: locks make each call one step; the clock gives any real number.
- Router.DefaultRouter.Execute: option clamping, waiting times between retries and callers that drop the future are left out; times and answers are parameters.

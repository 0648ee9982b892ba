# sf-processor: a verified model of its cores

sf-processor reads a stream of SysFlow telemetry, attaches the entities each event refers to,
drops repeats, evaluates policies on what is left, and exports the result. This project models
the places where that is intricate, and proves what they are for:

- **Policies** (`SfplSyntax`, `SfplParser`, `ListExpansion`, `PolicyMeaning`, `Predicates`, `PolicyCompiler`,
  `ConditionLaws`, `DefinitionOrder`, `RuleEngine`). The expression loops of the parser rebuild the tree that was written
  down; the interpreter turns a tree with macros and nested lists into a closure, in two passes over a
  file, and the closure decides what the tree means; `ConditionLaws` says what that is in terms of the values
  of a record alone; the rules that fire are attached in declaration order.
- **JSON encoding** (`JsonString`, `Json`, `JsonPieces`, `FieldTable`, `JsonFields`, `JsonRecord`, `JsonTree`,
  `JsonEncoder`, `ExportedTable`, `FaithfulEncoder`, `TreeContents`). `Json` is a reader that follows RFC 8259. The hand-written printer with
  its section state machine is proved to write a text that reads back as the record's tree, and to write
  something that is not JSON at all in exactly the cases in which a separator or a value is missing;
  `TreeContents` lists the tree member by member.
- **Concurrency** (`WorkerPool`, `Pipeline`, `PolicyMonitor`). The policy engine's loop, worker pools and exchange
  of policies, and the shutdown of a tree of stages, as state machines over every interleaving; and how changed
  policy files are noticed.
- **Rate limiting** (`DecayFilter`). A map with a queue that is purged at the front only, against a scan by age,
  and what that means for whole runs of the flattener.
- **Entities** (`EntityCache`, `Reader`, `ReaderMeaning`, `ReaderLoop`). Tables with state slots and memoised ancestor
  chains; what reaches the handler is what a scan of the log back to the last header would find, and
  `ReaderMeaning` says of which record of the log that is.
- **Export** (`Batching`, `EventPool`). Batches of records, and the pools of events behind alerts.

`Text`, `Sets` and `Clocks` hold what several of them use.

Where the source changes things in place, so does the model: classes with the source's fields and loops, each
method proved against a function or a relation on values about which the laws are then proved. Concurrency is
a transition function (`Do`) with an enabling condition for each kind of step.

Byte strings are Dafny strings whose characters are bytes. `dafny verify dfyconfig.toml` checks the whole project.

## How the main results fit together

`SfplParser.ExprRoundTrip` and `ExprSound` say that token sequences and trees correspond. `PolicyCompiler` proves
that each compiled condition holds of a record exactly when `PolicyMeaning.Holds` does, in the environment in
force where the condition stands; `DefinitionOrder` says which definitions those are. `RuleEngine.PolicyDecides`
turns that into the decision on a record, which `RuleEngine.OutcomeIsDecision` describes by the positions of the
matching rules, and `WorkerPool.EverythingIsSent` says that over every run each output channel carries exactly
those decisions.

`JsonFields.FieldRenders`, `JsonRecord.EncodedTextReads` and `JsonTree` lead to `FaithfulEncoder.EncoderIsFaithful`:
for every record, the text of the encoder parses if and only if the record is `Encodable` and the configured schema
version is a number, and then parses to its tree. The version is configured as text and written as it is; the
statement covers every version that consists of characters numbers are made of, or starts like no JSON value (the
empty text among them). `TreeContents.TreeHolds` says what that tree is: which sections it has and which value stands
under which key. `JsonEncoder.JSONEncoder.EncodeRecord` is the state machine, proved to write that text, and
`TreeContents.EncodeExported` puts all of it together.

Findings that the proofs bring out, all of which follow the code:

- Items in brackets inside `in (...)` parse but have no effect; a trailing comma in a list adds an empty string,
  and `[]` is the list of one empty string.
- A variable with no macro of that name reads as false, so its negation is true; a name in `in (...)` that is no list
  stands for its own text.
- Two addresses in one address list, two services in one pod, or a record with no process tree make the output
  unreadable, and so does a missing schema version (`FaithfulEncoder.EncoderIsFaithful`).
- The text attributes of an absent parent process are the two characters of a pair of quotes.
- A header event carries the header before it (`Reader.Expected`).
- A memoised ancestor chain is the current one exactly if nothing it was built from has changed
  (`EntityCache.MemoIsCurrent`); a parent that arrives late stays out of it (`EntityCache.LateParent`).
- The first event of every pool counts as aged, so that the pool is reset at once (`EventPool.EventPool.AddEvent`).
- The wait group waits for the `Cleanup` of a stage that feeds a channel to have begun closing its channels
  (`Pipeline.OnlyLastStagesPend`), and for nothing of any stage that feeds none (`Pipeline.CleanupMayBePending`).

## Model

| member | source | states |
|---|---|---|
| SfplParser.ExprRoundTrip | core/policyengine/lang/parser/sfpl_parser.go:3110-3661 | parsing the tokens of any expression tree consumes exactly those tokens and gives that tree: `not` binds tighter than `and`, `and` tighter than `or` |
| SfplParser.ExprSound | core/policyengine/lang/parser/sfpl_parser.go:3110-3661 | whatever parses is the rendering of the tree returned, so the grammar is unambiguous |
| SfplParser.TermRoundTrip | core/policyengine/lang/parser/sfpl_parser.go:3497-3661 | every alternative of a term is recognised by its first two tokens |
| SfplParser.ItemsSound | core/policyengine/lang/parser/sfpl_parser.go:3770-3860 | a bracketed list that parses is its atoms, separated, with at most one trailing separator |
| SfplParser.Parser.OrExpression | core/policyengine/lang/parser/sfpl_parser.go:3110-3156 | the loop over `or` agrees with the grammar, in result and in tokens consumed |
| SfplParser.Parser.AndExpression | core/policyengine/lang/parser/sfpl_parser.go:3257-3303 | the loop over `and` agrees with the grammar |
| SfplParser.Parser.Term | core/policyengine/lang/parser/sfpl_parser.go:3497-3661 | the choice of alternative and its parts agree with the grammar |
| SfplParser.Parser.Items | core/policyengine/lang/parser/sfpl_parser.go:3770-3860 | the loop over atoms and the optional separator agree with the grammar |
| ListExpansion.ExtractItemsSplits | core/policyengine/engine/interpreter.go:358-371 | which strings a bracketed list stands for, the trailing separator and the empty list included |
| ListExpansion.ExtractListLoop | core/policyengine/engine/interpreter.go:358-364 | splitting at commas and trimming each part |
| ListExpansion.ReducedAreLeaves | core/policyengine/engine/interpreter.go:395-405 | expanding a name gives exactly the unquoted ends of all ways down through nested lists |
| ListExpansion.FiniteIsDecidable | core/policyengine/engine/interpreter.go:395-405 | the expansion of a name ends exactly if it nests no deeper than there are lists |
| ListExpansion.ReducedStable | core/policyengine/engine/interpreter.go:395-405 | the expansion does not depend on the bound on nesting |
| Predicates.Eval | core/policyengine/engine/predicates.go:212-223 | a comparison holds if some comma-separated parts of both operands are related |
| Predicates.EvalAny | core/policyengine/engine/predicates.go:163-188 | the loop shared by `in` and `pmatch` finds a related element if there is one |
| Predicates.ListIsJoinedOperand | core/policyengine/engine/predicates.go:163-223 | for every operator, a list operand behaves as one operand that is the joined list, also when elements contain separators |
| Predicates.All | core/policyengine/engine/predicates.go:67-73 | folding conjunction over criteria is their conjunction on every record |
| Predicates.Any | core/policyengine/engine/predicates.go:76-82 | folding disjunction over criteria is their disjunction on every record |
| Text.SplitJoin | core/policyengine/engine/predicates.go:212-223 | splitting a joined list splits every element |
| Text.ParseFormatInt | core/policyengine/engine/fieldmapper.go:118-128 | a 64-bit integer in decimal reads back as itself |
| PolicyMeaning.FiniteIsDecidable | core/policyengine/engine/interpreter.go:426-437 | a condition's expansion is finite exactly if it is so within as many macro levels as there are macros, every list within as many levels as there are lists |
| PolicyMeaning.ArgsFiniteMeans | core/policyengine/engine/interpreter.go:387-405 | the bound on lists excludes no list whose expansion ends |
| PolicyMeaning.HoldsStable | core/policyengine/engine/interpreter.go:407-480 | the meaning of a condition does not depend on the bound on expansion |
| PolicyCompiler.PolicyInterpreter.ReduceList | core/policyengine/engine/interpreter.go:395-405 | the recursion computes the expansion |
| PolicyCompiler.PolicyInterpreter.ExtractListFromAtoms | core/policyengine/engine/interpreter.go:387-393 | the expansions of the atoms one after the other, which are exactly their leaves |
| PolicyCompiler.PolicyInterpreter.VisitTerm | core/policyengine/engine/interpreter.go:426-480 | the closure of a term holds of a record exactly when the term does, under the definitions in force; what that is for each operator, the rows of `ConditionLaws` say |
| PolicyCompiler.PolicyInterpreter.VisitMember | core/policyengine/engine/interpreter.go:456-476 | `in` and `pmatch` compile to a search through the leaves of the atoms alone |
| PolicyCompiler.PolicyInterpreter.VisitExpression | core/policyengine/engine/interpreter.go:407-424 | the closure of an expression holds of a record exactly when the expression does |
| PolicyCompiler.PolicyInterpreter.Visit | core/policyengine/engine/interpreter.go:255-279 | compiling preserves meaning under the definitions in force, for every record |
| PolicyCompiler.PolicyInterpreter.ExitPrule | core/policyengine/engine/interpreter.go:266-279 | one rule is appended, with the parts it was given, whose condition implements the tree |
| PolicyCompiler.PolicyInterpreter.ExitPfilter | core/policyengine/engine/interpreter.go:255-264 | one filter is appended, whose condition implements the tree |
| PolicyCompiler.PolicyInterpreter.WalkDefs | core/policyengine/engine/interpreter.go:123-125 | the first pass leaves the definitions of the whole file |
| PolicyCompiler.PolicyInterpreter.WalkPolicy | core/policyengine/engine/interpreter.go:126-128 | the second pass compiles every rule and filter in order, each under the definitions it sees |
| PolicyCompiler.PolicyInterpreter.CompileFile | core/policyengine/engine/interpreter.go:102-151 | both passes together; a file with errors is reported |
| PolicyCompiler.PolicyInterpreter.Compile | core/policyengine/engine/interpreter.go:154-163 | all files in order, up to the first with errors |
| ConditionLaws.CompareText | core/policyengine/engine/predicates.go:91-160 | the closure of `=`, `contains`, `icontains`, `startswith` or `endswith` between an attribute and a literal holds exactly if some comma-separated part of the attribute's text, without the quotes around it, is the literal, has it between two texts, before one or after one |
| ConditionLaws.ComparePath | core/policyengine/engine/fieldmapper.go:159-190 | the same for `name[path]`: what is compared is what the lookup finds at the path in the attribute's text |
| ConditionLaws.CompareUnequal | core/policyengine/engine/predicates.go:99-102 | `!=` holds exactly if no part is the literal |
| ConditionLaws.CompareNumber | core/policyengine/engine/predicates.go:104-128 | `<`, `<=`, `>`, `>=` between an attribute mapped to an integer and a 64-bit literal hold exactly if the two integers are so ordered |
| ConditionLaws.CompareNoNumber | core/policyengine/engine/fieldmapper.go:118-128 | an attribute that is not mapped to an integer, and is none by its name, counts as zero |
| ConditionLaws.CompareEqualNumber | core/policyengine/engine/fieldmapper.go:178-184 | `=` between an attribute mapped to an integer and a 64-bit literal holds exactly if the integers are equal |
| ConditionLaws.CompareFlag | core/policyengine/engine/fieldmapper.go:178-187 | `= true` holds of a flag exactly if it is set, and of the two flags mapped to integers exactly if those are not zero |
| ConditionLaws.TestPresence | core/policyengine/engine/predicates.go:85-89 | `exists` holds exactly if the mapped value is not zero |
| ConditionLaws.TestMembership | core/policyengine/engine/predicates.go:163-188 | `in` holds exactly if some part of the attribute's text is one of the literals in the parentheses, `pmatch` if some part contains one of them |
| ConditionLaws.Negation | core/policyengine/engine/interpreter.go:433-434 | the closure of a negation is false exactly where that of its term is true |
| ConditionLaws.NamedCondition | core/policyengine/engine/interpreter.go:428-432 | a name is the closure of its macro's body, and false of every record if there is no macro of that name |
| ConditionLaws.Connected | core/policyengine/engine/interpreter.go:407-424 | the closure of an expression, in parentheses or not, holds exactly if those of all terms of one of its conjunctions do |
| ConditionLaws.TrimMeans | core/exporter/utils/utils.go:32-40 | at most one quote of either kind is dropped at either end, and nothing else |
| DefinitionOrder.MacroSeen | core/policyengine/engine/interpreter.go:123-128 | a condition sees the nearest preceding definition of a macro, else the last one of its file, else that of an earlier file |
| DefinitionOrder.ListSeen | core/policyengine/engine/interpreter.go:243-253 | the same for lists |
| DefinitionOrder.RulesStand | core/policyengine/engine/interpreter.go:266-279 | every rule of a file is compiled once, in order, with the definitions that precede it |
| DefinitionOrder.FiltersStand | core/policyengine/engine/interpreter.go:255-264 | the same for filters |
| DefinitionOrder.DefineAnywhere | core/policyengine/engine/interpreter.go:123-128 | without conflicting definitions, their order and place do not matter to any rule or filter |
| DefinitionOrder.PermutationKeepsDefinitions | core/policyengine/engine/interpreter.go:243-279 | with unique names, a permutation of the file is such a change |
| RuleEngine.EvalFilters | core/policyengine/engine/interpreter.go:233-240 | a record is dropped exactly if an enabled filter holds |
| RuleEngine.Process | core/policyengine/engine/interpreter.go:171-231 | the record is passed on, and enriched in place, exactly as `Outcome` says |
| RuleEngine.OutcomeIsDecision | core/policyengine/engine/interpreter.go:207-231 | a record is passed on as `out` exactly if no enabled filter holds of it; some rule that is enabled, meant for its type and holding of it exists, or the mode is `enrich`; `out` has those rules appended in order, the alert set by the mode if there is one, and their actions run one after the other |
| RuleEngine.HeldBackIff | core/policyengine/engine/interpreter.go:207-240 | a record is held back exactly if an enabled filter holds, or no rule matches and the mode is not `enrich` |
| RuleEngine.ApplyingIsSelected | core/policyengine/engine/interpreter.go:216-224 | the rules that apply are those whose condition trees hold, in declaration order |
| RuleEngine.PolicyDecides | core/policyengine/engine/interpreter.go:207-231 | end to end: which records pass, and with exactly which rules, by the meaning of the policy text |
| JsonString.EscapeRoundTrip | core/exporter/encoders/json.go:695-758 | reading what the escaper wrote gives the input with undecodable bytes replaced, and stops at the closing quote |
| JsonString.Writer.StringNoQuotes | core/exporter/encoders/json.go:695-758 | the loop that copies runs and escapes what is between them writes the escaped string |
| JsonString.SanitizeKeepsUtf8 | core/exporter/encoders/json.go:736-744 | well-formed UTF-8 is not changed by the replacement |
| JsonString.SanitizeIsUtf8 | core/exporter/encoders/json.go:736-744 | what is read back is always well-formed UTF-8 |
| JsonString.Utf8Means | core/exporter/encoders/json.go:736-744 | a byte string is taken as well formed exactly if it is the sequences of some scalar values, and is read back unharmed exactly then |
| JsonString.EncodedIsRune | core/exporter/encoders/json.go:736-750 | the sequence of every scalar value, surrogates excepted, is recognised with its width and value, whatever follows |
| JsonString.RuneIsEncoded | core/exporter/encoders/json.go:736-750 | whatever is recognised is the sequence of its scalar value |
| JsonString.EscapedIsHarmless | core/exporter/encoders/json.go:708-750 | the text has no control byte and no line separator, and with HTML escaping no `&`, `<` or `>` |
| JsonString.PlainIsKept | core/exporter/encoders/json.go:708-758 | well-formed text without those, quotes and backslashes is written as it is |
| Json.ValueRoundTrip | core/exporter/encoders/json.go:497-549 | every value is recovered from its text, whatever follows it |
| Json.TextRoundTrip | core/exporter/encoders/json.go:75-343 | a value's text is one JSON text, and reads back as the value |
| JsonPieces.ReadObject | core/exporter/encoders/json.go:345-361 | an object put together from member texts reads back exactly if each of them does |
| JsonPieces.TwoRunTogether | core/exporter/encoders/json.go:409-417 | two list elements with nothing between them end every reading |
| JsonFields.IPArrayRenders | core/exporter/encoders/json.go:409-417 | the text of an address list is JSON exactly up to one address |
| JsonFields.ServiceArrayRenders | core/exporter/encoders/json.go:478-494 | the text of a service list is JSON exactly up to one service with at most one cluster address |
| JsonFields.FieldRenders | core/exporter/encoders/json.go:497-674 | the text of every kind of field is that of its value, or unreadable whatever follows, exactly as `Separable` says |
| JsonRecord.EncodedTextReads | core/exporter/encoders/json.go:75-343 | the whole text parses, to the record's tree, exactly if the version is a number, every written field is sound and the last section of the walk is shown |
| JsonRecord.TreeExists | core/exporter/encoders/json.go:75-343 | a record has a tree exactly if the version is a number and the conditions of all written fields hold |
| JsonEncoder.EscapeAround | core/exporter/encoders/json.go:607-622 | escaping executable and arguments one after the other escapes the command line |
| JsonEncoder.JSONEncoder.StrArray | core/exporter/encoders/json.go:370-383 | a list of flags is written as a JSON array |
| JsonEncoder.JSONEncoder.IPList | core/exporter/encoders/json.go:409-417 | addresses are written one after the other, without commas |
| JsonEncoder.JSONEncoder.SvcArray | core/exporter/encoders/json.go:478-494 | services are written one after the other, without commas |
| JsonEncoder.JSONEncoder.PortList | core/exporter/encoders/json.go:455-476 | ports are written as a member holding a JSON array of objects |
| JsonEncoder.JSONEncoder.CachedValue | core/exporter/encoders/json.go:553-674 | each attribute of the process tree; nothing at all without a tree |
| JsonEncoder.JSONEncoder.MapJSON | core/exporter/encoders/json.go:497-549 | the text of a field, for every record |
| JsonEncoder.JSONEncoder.WriteAttribute | core/exporter/encoders/json.go:345-355 | key without its final `+`, colon and value |
| JsonEncoder.JSONEncoder.SectionField | core/exporter/encoders/json.go:97-291 | one turn of the state machine: when a section is closed, opened, continued or passed over; which sections are shown for which records, `TreeContents.TreeHolds` says |
| JsonEncoder.JSONEncoder.Walk | core/exporter/encoders/json.go:89-294 | the whole walk writes complete members and leaves at most one section open |
| JsonEncoder.JSONEncoder.WritePolicies | core/exporter/encoders/json.go:297-321 | the policies member, and the tags of the rules collected in order |
| JsonEncoder.JSONEncoder.WriteTags | core/exporter/encoders/json.go:323-341 | one list of context tags and rule tags, with a comma between any two |
| JsonEncoder.JSONEncoder.EncodeRecord | core/exporter/encoders/json.go:75-343 | the text written for a record is its `EncodedText`, and the writer is left empty |
| JsonEncoder.JSONEncoder.Encode | core/exporter/encoders/json.go:62-72 | one text a record, in order |
| FieldTable.SortedIsUnique | core/policyengine/engine/fieldmapper.go:228-247 | sorting gives one table, in whatever order the mappers are enumerated |
| FieldTable.SectionsContiguous | core/policyengine/engine/fieldmapper.go:228-247 | between two fields of one section the table holds no field of another |
| FieldTable.RunsAreDistinct | core/exporter/encoders/json.go:90-155 | in a contiguous table no section is opened twice |
| FieldTable.RunsAreSections | core/exporter/encoders/json.go:90-155 | the one run of a section holds all its fields, in order |
| JsonTree.KeyCollision | core/exporter/encoders/json.go:345-355 | two fields of a section get the same key exactly if their names differ in a final `+` only |
| JsonTree.SectionHoldsItsFields | core/exporter/encoders/json.go:90-291 | the object of a section holds all its fields, with no key twice |
| JsonTree.EachSectionOnce | core/exporter/encoders/json.go:90-291 | every section shown is one member |
| JsonTree.LastIsShown | core/exporter/encoders/json.go:295-295 | the unconditional closing brace always has an open section to close |
| ExportedTable.TableHasNoTwins | core/policyengine/engine/fieldmapper.go:267-368 | the exported names never collide, although three of them lose a `+` |
| ExportedTable.TableExists | core/policyengine/engine/fieldmapper.go:228-247 | sorting the exported fields gives a table: no two of them have one name |
| FieldTable.SortSorts | core/policyengine/engine/fieldmapper.go:238-245 | fields with different names can be sorted by number of parts and name |
| JsonEncoder.SortedPrefix | core/policyengine/engine/fieldmapper.go:238-245 | no tagged field comes before a field of two parts |
| FaithfulEncoder.TableCondition | core/policyengine/engine/fieldmapper.go:267-368 | all conditions together come down to process tree, addresses and services |
| FaithfulEncoder.RootKeysDistinct | core/exporter/encoders/json.go:75-343 | no key of the root object occurs twice, among version, two-part fields, sections, policies and tags |
| FaithfulEncoder.EncoderIsFaithful | core/exporter/encoders/json.go:75-343 | with the exported table: the output is one JSON object that reads back as the record's tree if the record is `Encodable` and the version a number, and no JSON otherwise; no object has a key twice; the members of the tree are listed by `TreeContents.TreeHolds` |
| TreeContents.TreeHolds | core/exporter/encoders/json.go:75-343 | `net` is there exactly for network flows, `file` for file flows and file events, `flow` for both kinds of flow, `pproc` with a parent, `container` and `pod` with an identifier, `k8s` for Kubernetes events, which have besides only `node` and `meta`; each section has exactly the attributes listed, each with the value of its field; policies and tags in order |
| TreeContents.OctetsInOrder | core/exporter/encoders/json.go:385-393 | an address is written as its four lowest octets, lowest first |
| TreeContents.BaseOfPath | core/exporter/encoders/json.go:553-560 | the name of an executable is the last element of its path, whatever slashes follow |
| TreeContents.PProcListed | core/exporter/encoders/json.go:553-622 | the attributes of the parent are those of the second process of the chain, or those of no parent |
| TreeContents.RuleTagsAre | core/exporter/encoders/json.go:305-312 | the tags of the rules are collected rule by rule, single ones and lists alike |
| TreeContents.EncodeExported | core/exporter/encoders/json.go:62-72 | each text that `Encode` returns parses exactly if the record is `Encodable` and the version a number, and then to one object with exactly the members listed for the record |
| WorkerPool.StepSound | core/policyengine/policyengine.go:115-208 | every step of reader, workers and cleanup keeps channels and workers sound |
| WorkerPool.RunKeepsInvariant | core/policyengine/policyengine.go:115-208 | soundness, order and conservation hold in every state of every run |
| WorkerPool.SwapBarrier | core/policyengine/policyengine.go:134-151 | no closed channel is used or closed again, one pool at most is alive, and no output of an old policy follows one of a newer |
| WorkerPool.EverythingIsSent | core/policyengine/policyengine.go:181-208 | when the outputs are closed, each has carried every record exactly as often as there are submitted records on which it is the decision, under its pool |
| WorkerPool.NoOneIsMissed | core/policyengine/engine/interpreter.go:171-204 | then a submitted record is missing exactly if an enabled filter of its policy holds, or no rule of it matches and the mode is not `enrich` |
| WorkerPool.NothingExtraIsSent | core/policyengine/policyengine.go:181-186 | at any time of any run, no record has been sent more often than there are submitted records on which it is the decision |
| WorkerPool.OutputsAreDecisions | core/policyengine/engine/interpreter.go:171-204 | whatever is sent was submitted under the policy of its pool, is dropped by none of its filters, and carries exactly its applying rules in declaration order |
| WorkerPool.EverythingIsSubmitted | core/policyengine/policyengine.go:124-151 | the jobs are the records received, in order, each under the policy current at its submission |
| WorkerPool.PolicyOfTurn | core/policyengine/policyengine.go:134-151 | by the steps of the run, a record is submitted under the policy of the last exchange begun by then, and under the first policy before any |
| WorkerPool.WorkShrinks | core/policyengine/engine/interpreter.go:171-204 | every step of a worker leaves less to do, so waiting for the workers ends |
| WorkerPool.NeverStuck | core/policyengine/engine/interpreter.go:84-99 | with a worker at all, the engine has a step of its own unless it is at its input or an output channel is full, whose consumer can then take something |
| WorkerPool.ShutdownShrinks | core/policyengine/policyengine.go:195-208 | after the input is closed, every step of the engine brings the end closer, and none of a consumer undoes that |
| PolicyMonitor.LocalPolicyMonitor.CalculateChecksum | core/policyengine/monitor/localpolicymonitor.go:117-149 | without an error, the checksum of every file is recorded under its path, and a change is reported exactly if a file is new, has another checksum or is gone |
| PolicyMonitor.NoChange | core/policyengine/monitor/localpolicymonitor.go:134-146 | comparing checksums one by one and the numbers of files decides whether the maps are equal |
| Pipeline.RunOk | driver/pipeline/pipeline.go:116-201 | the invariant of stages, channels and wait group holds in every run |
| Pipeline.ShutdownCascade | driver/pipeline/pipeline.go:196-291 | when the wait group reaches zero every channel is closed and drained, and by the steps of the run each stage has received exactly the results its parent made of the records it received, and the first stage what was pushed, in order |
| Pipeline.NeverSentWhenClosed | driver/pipeline/pipeline.go:196-201 | in no run is anything sent on a closed channel, and a closed channel stays closed |
| Pipeline.OnlyLastStagesPend | driver/pipeline/pipeline.go:283-291 | when the wait group is at zero, every stage that feeds a channel is closing its channels or done |
| Pipeline.CleanupMayBePending | driver/pipeline/pipeline.go:288-291 | in any tree, any stage that feeds none can be before its cleanup when the wait group reaches zero |
| Pipeline.NeverStuck | driver/pipeline/pipeline.go:196-198 | once the root is closed, the cascade goes on until every stage is done |
| DecayFilter.PurgeFront | core/flattener/filter.go:86-96 | in a sorted queue, the aged entries at the front are all that a scan by age finds |
| DecayFilter.Filter.EvictAgedEntries | core/flattener/filter.go:86-96 | front-only eviction leaves what a full scan at its last clock reading would leave |
| DecayFilter.Filter.Add | core/flattener/filter.go:77-84 | an addition, by the meaning of each hash on its own |
| DecayFilter.Filter.Test | core/flattener/filter.go:53-57 | true exactly for hashes with a live entry |
| DecayFilter.Filter.TestAndAdd | core/flattener/filter.go:60-65 | the answer is whether the hash was live; it is added either way |
| DecayFilter.Filter.Count | core/flattener/filter.go:68-74 | the additions since the live entry was created |
| DecayFilter.NewIffUncovered | core/flattener/filter.go:53-96 | a call finds its hash new exactly if no call that found it new is younger than the limit; repeats do not count |
| DecayFilter.RateLimit | core/flattener/filter.go:53-96 | two calls with one hash that both found it new are at least the limit apart |
| DecayFilter.ForwardedIsLimited | core/flattener/flattener.go:94-101 | what is forwarded is the records at certain positions, in order, and a position is among them exactly if it repeats none of them within the limit |
| DecayFilter.ForwardedApart | core/flattener/flattener.go:94-101 | two records of the log with one hash are at least the limit apart |
| DecayFilter.Flattener.Out | core/flattener/flattener.go:94-101 | by the log of every output channel: a record is forwarded exactly if none with its hash was forwarded less than the limit before, and without a filter always |
| DecayFilter.Flattener.Cleanup | core/flattener/flattener.go:104-111 | every output channel is closed once, and nothing more is sent |
| EntityCache.SFTables.SetProc | core/cache/tables.go:101-111 | one slot is replaced; memoised chains stay |
| ReaderLoop.TableLookup | core/cache/tables.go:86-98 | looking a process up in tables that hold the latest object of each state is scanning the log for modified, then created, then repeated objects |
| EntityCache.PreferredIsBest | core/cache/tables.go:86-98 | the object found is that of the highest-ranking state for which there is one, and none only if there is none |
| EntityCache.SFTables.GetProcProv | core/cache/tables.go:141-150 | the recursion computes the ancestor chain: the process, then each time the parent, up to one that is unknown or has none |
| EntityCache.SFTables.GetPtree | core/cache/tables.go:129-138 | the chain is that of the table at the first query since the last reset, and the current one exactly if nothing asked for then has changed |
| EntityCache.MemoIsCurrent | core/cache/tables.go:129-138 | two tables give one chain exactly if they agree on everything asked for, the missing end included |
| EntityCache.UntouchedEnds | core/cache/tables.go:129-150 | a chain that nothing has touched still has an end |
| EntityCache.LateParent | core/cache/tables.go:101-138 | store a process, ask for its chain, store its parent, ask again: the answer stays without the parent, and the table's chain has it |
| EntityCache.TerminationIsDecidable | core/cache/tables.go:141-150 | the recursion ends exactly if it ends within as many steps as there are identifiers |
| EntityCache.ChainIsShort | core/cache/tables.go:141-150 | a chain is no longer than the number of identifiers stored |
| EntityCache.CycleNeverEnds | core/cache/tables.go:141-150 | two processes that are each other's parents have no chain |
| Reader.NothingOldIsDelivered | core/processor/reader.go:98-166 | no entity delivered with a record other than a header, ancestors included, is older than the last header, and the header is the last one |
| Reader.TreeIsSince | core/cache/tables.go:59-61 | even a memoised chain holds no process from before the last header |
| ReaderLoop.SysFlowReader.Process | core/processor/reader.go:80-166 | after any part of the log, the handler has been given one context for each event and, if wanted, entity; each has exactly the entities that stand in the log, by position |
| ReaderLoop.SysFlowReader.EventContext | core/processor/reader.go:174-203 | the process is the one that stands for the event's identifier; the container is `k` exactly if the process names it and its record is the last of that identifier since the last header, the pod is `d` exactly if that container names it and likewise; the chain is that of the first query since the header |
| ReaderLoop.SysFlowReader.StoreProcess | core/processor/reader.go:115-126 | a process is stored trimmed, and delivered with its context if entities are wanted |
| ReaderMeaning.DeliveryIsRight | core/processor/reader.go:98-166 | what the scans find is right by positions, record by record of the whole log |
| ReaderMeaning.EventIsRight | core/processor/reader.go:132-158 | an event's file and new file are `f` exactly if the event names `f` and its record is the last of that identifier since the last header |
| ReaderMeaning.ProcRecIsRight | core/processor/reader.go:115-126 | a process is delivered as it came with executable and arguments trimmed each by itself, in the place that stands with it |
| ReaderMeaning.CurrentIs | core/cache/tables.go:86-98 | the process found is the one that stands and to which all others of its identifier give way |
| ReaderMeaning.TreeIsRight | core/cache/tables.go:129-150 | the chain delivered is a line of parents, unbroken up to one that is unknown or has none, as the log stood at the first query since the last header |
| Batching.Exporter.Process | core/exporter/exporter.go:130-177 | the batches are the records received, in order; none is empty or over the limit; and a batch is passed on at exactly the events at which the buffer is full, or a tick comes more than a second after the last flush, or the channel is closed, and something has arrived |
| Batching.BatchesBounded | core/exporter/exporter.go:146-176 | how many batches there can be for a number of records, and the reverse |
| EventPool.EventPool.Flush | core/exporter/encoders/occurrence.go:83-104 | all pooled events are appended to the file in order, or none |
| EventPool.EventPool.Reset | core/exporter/encoders/occurrence.go:107-118 | what is pooled is dropped, and all counters start again |
| EventPool.EventPool.Note | core/exporter/encoders/occurrence.go:316-334 | an alert is a new hash, a new rule name or a higher severity |
| EventPool.NewsIff | core/exporter/encoders/occurrence.go:316-334 | an event is news exactly if one of its rules has a name the pool has not seen or a severity above its highest |
| EventPool.EventPool.AddEvent | core/exporter/encoders/occurrence.go:305-349 | what is written, pooled and lost by alert, capacity and age; when an alert is due and when not; the pool is reset exactly when aged, so also at its first event |
| EventPool.EventPool.AlertsAreFew | core/exporter/encoders/occurrence.go:305-349 | between two resets, alerts number at most the distinct hashes plus the distinct rule names plus two |
| EventPool.EventPool.NothingVanishes | core/exporter/encoders/occurrence.go:83-118 | every event is written once, lost once or still pooled |
| EventPool.PoolStaysSmall | core/exporter/encoders/occurrence.go:337-343 | when flushes succeed nothing is lost and fewer events than the capacity stay pooled |
| EventPool.NoneLost | core/exporter/encoders/occurrence.go:83-118 | while no event is lost, the file holds them all once and in order |
| EventPool.NothingMadeUp | core/exporter/encoders/occurrence.go:83-118 | however many are lost, none is written twice |
| EventPool.OccurrenceEncoder.AddEvent | core/exporter/encoders/occurrence.go:305-362 | an event is booked in the pool of its container, a new one being aged, and no other container's books change |

## Left out

- The lexer, the generated context classes, error recovery and off-channel text of the parser: tokens and trees are data types, and the choice of a term's alternative looks two tokens ahead.
- File, socket, Avro, syslog and cloud I/O, plugin loading, configuration and the vault; `FlatRecord` contents are maps by attribute.
- The field copies of the flattener's handlers, and the ECS and occurrence text formats: long but memberwise.
- The clock of the exporter's loop: events carry the readings taken at them.
- Hashing, the Bloom filter's internals, JSON path lookup, Unicode lower-casing and white space: parameters, or (for the Bloom filter) any answer without false negatives.
- Constants and flag decoders of sfgo, which is not part of this model: attributes are symbolic. Whether `sf.net.ip` is written as a pair of addresses or as one string depends on two of its indices being the same number, and both cases are covered.
- PolicyCompiler.PolicyInterpreter.Compile: expansions through cyclic macros or lists do not end in the source; a finite expansion is required, and `PolicyMeaning.FiniteIsDecidable` and `ListExpansion.FiniteIsDecidable` say what that is, with a bound for macros and one for lists.
- PolicyCompiler.PolicyInterpreter.ExitPrule: the texts of name, description, actions, tags, priority, prefilter and flag are given as data, not extracted from the tree.
- PolicyCompiler.PolicyInterpreter.ExitPfilter: name and flag are given as data.
- JsonRecord.EncodedTextReads: schema versions that start like a JSON value but hold other characters than those of numbers, for instance a quoted text, which could add members of their own.
- FaithfulEncoder.EncoderIsFaithful: the same versions.
- TreeContents.TreeHolds: the same versions; and the texts, numbers and flags of a record's fields are given, by field.
- ConditionLaws.CompareText: the operands `<` and `>`, which are atoms by the grammar; operands are words.
- Predicates.Eval: a path expression with an empty path (`name[`) makes the source fail at run time; here it has an empty path.
- EntityCache.SFTables.GetPtree: cyclic parents make the source recurse for ever; an end is required, and `EntityCache.TerminationIsDecidable` says when there is one.
- ReaderLoop.SysFlowReader.Process: a file record without a container union makes the source fail at run time when entities are wanted; here it has no container.
- JsonEncoder.JSONEncoder.MapJSON: a missing address or service list (a nil pointer) makes the source fail at run time; here such lists are always there.
- JsonEncoder.JSONEncoder.Encode: the eleven branches of the section switch, which differ in their condition only, are one method with that condition as a parameter.
- DecayFilter.Filter.Count: the overflow of a 64-bit count.
- WorkerPool.NeverStuck: fairness between steps is not modelled, only that some step is possible and that steps run out.
- Pipeline.ShutdownCascade: the drivers, and pipelines that are not trees.
- EventPool.EventPool.Flush: path partitioning and the change of files; the file is one sequence, and an append may fail as a whole.
- The watch loop of the policy monitor: policies become available at any time.
- Action plugins: an action changes the tags and hashes of a record's context only.
- Records shared between several output channels of one stage: a record is a value once it is sent.

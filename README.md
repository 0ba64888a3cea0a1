# r2x-cli: static plugin-metadata extraction, modelled in Dafny

r2x-cli discovers the plugins of an installed Python package without
running Python. It reads the text of the package's `plugins.py`:

- It builds a symbol table from the `from M import …` lines.
- It cuts out the body of `register_plugin()` and carves every
  `ParserPlugin(...)`, `UpgraderPlugin(...)`, `BasePlugin(...)` and
  `ExporterPlugin(...)` call out of its `plugins=[...]` list.
- It scans each call's keyword arguments with depth counters and a string
  flag, and classifies each value by a fixed list of rules.
- It assembles the records that parse into a JSON package document.

Around this core sit smaller pieces, each modelled here:

- upgrade steps declared with `@C.register_step(...)` decorators;
- the `__init__` parameters of a plugin class;
- the `[r2x_plugin]` section of a package's `entry_points.txt`;
- the installed-plugin manifest and the orphaned-dependency computation of
  `r2x plugins remove`;
- the data-store check of the help screen;
- the CLI settings record;
- two helpers of the plugin invoker.

The model follows the code file by file:

- Pure matches and tables are functions.
- Loops that change variables step by step are methods with loop
  invariants, proved equal to a specification function.
- The manifest and the settings record are classes whose methods update
  their fields in place.

The main properties proved:

- The keyword scanner splits a pair only at a top-level `,`.
- Quoted runs and nested delimiters are copied verbatim.
- A later keyword wins.
- The value classifier applies its rules in the code's order, error cases
  included.
- The plugin list holds exactly the recognised calls, once each, grouped
  in `PLUGIN_CLASSES` order.
- The entry-points scan is sound and complete.
- Removing a package drops exactly its plugins and those of its orphans.
- The settings listing holds exactly the set fields, in key order.

Modules:

| module | file | models |
|---|---|---|
| Wrappers, Errors, Json, Assoc, Strings | wrappers, errors, json, assoc, strings | Option/Result; the `BridgeError` and `ManifestError` variants; JSON values; insertion into a map as a list of pairs; the Rust `str` operations used (`find`, `rfind`, `trim`, `split`, `lines`, `replace`, `to_uppercase`, `parse::<i64>`) |
| PluginConfig | plugin_config | `src/plugins/config.rs` |
| PluginUtils | plugin_utils | `src/plugins/utils.rs` |
| ImportResolver | import_resolver | `src/plugins/ast_discovery/import_resolver.rs` |
| AstExtractor | ast_extractor | the import map, helper kinds, I/O contract and resources of `crates/r2x-ast/src/extractor/mod.rs` |
| AstParser | ast_parser | `src/plugins/ast_discovery/ast_parser.rs` |
| ConstructorParser, ConstructorParserFacts | constructor_parser, constructor_parser_facts | `src/plugins/ast_discovery/constructor_parser.rs` |
| JsonBuilder | json_builder | `src/plugins/ast_discovery/json_builder.rs` |
| DecoratorProcessor | decorator_processor | `src/plugins/ast_discovery/decorator_processor.rs` |
| ParameterExtractor | parameter_extractor | `src/plugins/ast_discovery/parameter_extractor.rs` |
| FileFinder | file_finder | `src/plugins/ast_discovery/file_finder.rs` |
| PluginManifest | plugin_manifest | `src/plugin_manifest.rs` |
| PluginRemove | plugin_remove | `src/plugins/remove.rs` |
| Help | help | `src/help.rs` |
| R2xConfig | r2x_config | `crates/r2x-config/src/lib.rs` |
| InvokerKwargs | invoker_kwargs | `crates/r2x-python/src/plugin_invoker/kwargs.rs` |

## Model

| member | source | states |
|---|---|---|
| PluginConfig.InferType | src/plugins/config.rs:18-26 | the type is `parser`, `exporter` or `upgrader` exactly for the three matching class names, and `function` for every other name, `BasePlugin` included; json_builder.rs:90-98 (`infer_plugin_type`) repeats the same table, which this one function stands for |
| PluginConfig.InferCallableTypeFromName | src/plugins/config.rs:29-39 | the first of `parse` (which covers `parser`), `export`, `upgrade` contained in the name decides, `function` when none is |
| PluginConfig.ParserContainsParse | src/plugins/config.rs:30 | a name containing `parser` contains `parse`, so the `parser` test adds nothing to the `parse` test |
| PluginConfig.ResolveEnumValue | src/plugins/config.rs:42-49 | a value exactly for the three `IOType` members |
| PluginConfig.EnumValueSpec | src/plugins/config.rs:42-49 | a resolved value is the member name in lower case: every character is a lower-case letter, and upper-cased it gives back the text after `IOType.` |
| PluginUtils.LooksLikeR2xPlugin | src/plugins/utils.rs:4-6 | true exactly when the name starts with `r2x-`, is `r2x`, or contains `plugin` |
| PluginUtils.MatchingDelimiter | src/plugins/utils.rs:9-32 | None when `start` is out of range or not the opening delimiter; a found position is a closing delimiter after `start` |
| PluginUtils.MatchingDelimiterIsFirstBalance | src/plugins/utils.rs:9-32 | the found position is the first one at which the running depth, counted from `start`, returns to zero; None exactly when the depth stays positive to the end |
| PluginUtils.FindMatchingDelimiter | src/plugins/utils.rs:9-32 | the counting loop returns MatchingDelimiter |
| PluginUtils.FindMatchingParen | src/plugins/utils.rs:35-37 | MatchingDelimiter with `(` and `)` |
| PluginUtils.FindMatchingBracket | src/plugins/utils.rs:40-42 | MatchingDelimiter with `[` and `]` |
| ImportResolver.ImportStatement | src/plugins/ast_discovery/import_resolver.rs:25-32 | a statement exactly for a line starting `from ` whose first ` import ` starts at index 5 or later; then the line is `from ` + module + ` import ` + list, and no ` import ` starts inside `from ` + module |
| ImportResolver.PieceEntries | src/plugins/ast_discovery/import_resolver.rs:35-49 | one insert per comma-separated piece, so as many inserts as pieces |
| ImportResolver.InsertBindings | src/plugins/ast_discovery/import_resolver.rs:35-49 | the inner loop leaves the table of the inserts so far followed by this line's inserts, in order |
| ImportResolver.BuildImportMap | src/plugins/ast_discovery/import_resolver.rs:17-54 | the line loop never fails and returns the table of every line's inserts, in order (ImportSymbols) |
| ImportResolver.StoredNameIsKey | src/plugins/ast_discovery/import_resolver.rs:39-48 | every entry stores its own key as the name: an alias `B as C` gives C ↦ (M, C) |
| ImportResolver.NonImportLineAddsNothing | src/plugins/ast_discovery/import_resolver.rs:25-30 | a line that, trimmed, does not start with `from ` or lacks ` import ` inserts nothing |
| ImportResolver.AppendLine | src/plugins/ast_discovery/import_resolver.rs:21-51 | the table of one more line is the earlier table overridden by that line's inserts, so a later import of a name wins |
| ImportResolver.ImportStatementOf | src/plugins/ast_discovery/import_resolver.rs:30-32 | `from M import rest`, with M one word other than `import`, splits into M and rest |
| ImportResolver.ImportLineEntries | src/plugins/ast_discovery/import_resolver.rs:30-49 | such a line inserts the binding of every comma-separated piece of rest |
| ImportResolver.BoundNameOfAlias | src/plugins/ast_discovery/import_resolver.rs:36-43 | the piece `B as C` binds C when B is one word |
| ImportResolver.AliasImport | src/plugins/ast_discovery/import_resolver.rs:35-48 | `from M import B as C` inserts exactly C ↦ (M, C) |
| ImportResolver.TrailingCommaBindsEmptyName | src/plugins/ast_discovery/import_resolver.rs:35-48 | a trailing comma leaves an empty piece, so the empty name is bound to the module |
| ImportResolver.BlankLinesIgnored | src/plugins/ast_discovery/import_resolver.rs:78-82 | blank lines before and after a single line change nothing (the empty-lines test) |
| ImportResolver.SingleNameImport | src/plugins/ast_discovery/import_resolver.rs:61-66 | `from M import A` gives exactly the table A ↦ (M, A) (the single-import test) |
| ImportResolver.TwoNameImport | src/plugins/ast_discovery/import_resolver.rs:69-75 | `from M import A, B` gives exactly A ↦ (M, A) and B ↦ (M, B) (the two-import test) |
| ImportResolver.ModulePartAsWritten | src/plugins/ast_discovery/import_resolver.rs:31 | the module slice `line[5..import_idx]`, defined only when the index is at least 5 |
| ImportResolver.FromImportSliceOutOfRange | src/plugins/ast_discovery/import_resolver.rs:25-31 | `from import x` passes the `from ` guard, its first ` import ` is at index 4, so the slice `[5..4]` is out of range; ImportStatement skips the line |
| AstExtractor.StripMatchesSpec | crates/r2x-ast/src/extractor/mod.rs:244-246 | `trim_matches` leaves a contiguous piece of the text with only stripped characters before and after it, and neither of its ends is one of them |
| AstExtractor.ItemNameSpec | crates/r2x-ast/src/extractor/mod.rs:233-251 | an empty item or one ending in a backslash binds nothing; a bound name is not empty, does not start with `#` and has no whitespace at either end |
| AstExtractor.AliasItem | crates/r2x-ast/src/extractor/mod.rs:238-249 | the item `B as C` binds the alias C, not B |
| AstExtractor.ItemNameOf | crates/r2x-ast/src/extractor/mod.rs:233-251 | the body of the inner loop gives ItemName: None on each `continue` and on a name that is empty or starts with `#` |
| AstExtractor.AliasTargetOf | crates/r2x-ast/src/extractor/mod.rs:238-242 | the text after the first ` as `, trimmed, or the whole item |
| AstExtractor.InsertImportItems | crates/r2x-ast/src/extractor/mod.rs:232-252 | the inner loop leaves the map of the earlier inserts followed by this line's item inserts, in order |
| AstExtractor.BuildImportMapStatic | crates/r2x-ast/src/extractor/mod.rs:218-259 | the line loop returns StaticImportMap: the map of every import line's item inserts, in order |
| AstExtractor.CommentLineImportsNothing | crates/r2x-ast/src/extractor/mod.rs:222-225 | a line that is a comment once trimmed inserts nothing |
| AstExtractor.LineImportsSpec | crates/r2x-ast/src/extractor/mod.rs:227-252 | an import line maps a name exactly when one of its comma-separated items binds it, and maps it to the trimmed module text |
| AstExtractor.StaticAppendLine | crates/r2x-ast/src/extractor/mod.rs:221-255 | the map of one more line is the earlier map overridden by that line's inserts |
| AstExtractor.StaticValuesAreModules | crates/r2x-ast/src/extractor/mod.rs:218-259 | every value in the map is the trimmed module text of one of the import lines |
| AstExtractor.KindOfHelperInverse | crates/r2x-ast/src/extractor/mod.rs:102-109 | a helper method name gives a kind exactly when it is that kind's helper name; any other name is an error |
| AstExtractor.IoContractSpec | crates/r2x-ast/src/extractor/mod.rs:153-172 | which kinds consume or produce a system, a store folder, a configuration file or a folder; upgraders and utilities declare nothing |
| AstExtractor.FindArg | crates/r2x-ast/src/extractor/mod.rs:175-177 | a found argument is one of the arguments with that name; None exactly when no argument has the name |
| AstExtractor.FindArgIndex | crates/r2x-ast/src/extractor/mod.rs:175-177 | the found argument is the first one with that name |
| AstExtractor.FirstArgWins | crates/r2x-ast/src/extractor/mod.rs:175-177 | an argument with no earlier argument of its name is the one found |
| AstExtractor.ConfigResourceSpec | crates/r2x-ast/src/extractor/mod.rs:175-191 | a configuration exactly when a `config` argument is given: the first one's trimmed value, with its module from the import map or empty |
| AstExtractor.StoreResourceSpec | crates/r2x-ast/src/extractor/mod.rs:193-209 | a store exactly when a `store` argument is given: a folder, without a path exactly for `True` or `true`, and a path has no double quote at either end |
| AstExtractor.ExtractResourcesSpec | crates/r2x-ast/src/extractor/mod.rs:174-216 | resources exactly when a `config` or a `store` argument is given, made of the two parts |
| AstParser.IndentIsTrimStart | src/plugins/ast_discovery/ast_parser.rs:35 | the indentation is exactly the length `trim_start` removes |
| AstParser.BlankIsTrimEmpty | src/plugins/ast_discovery/ast_parser.rs:29 | a line counts as blank exactly when its trimmed text is empty |
| AstParser.LeadingBlankSpec | src/plugins/ast_discovery/ast_parser.rs:28-31 | the lines skipped at the start are blank and the line after them is not |
| AstParser.BodyLengthSpec | src/plugins/ast_discovery/ast_parser.rs:41-46 | the lines kept are blank or indented at least to the base, and the line that stops the body is neither |
| AstParser.BodyLinesSpec | src/plugins/ast_discovery/ast_parser.rs:22-50 | the body is empty exactly when every line is blank; otherwise it is the run of lines starting at the first non-blank line, each blank or indented at least as far as that line, ended by the first non-blank line indented less or by the end |
| AstParser.BodyOfIndentedLines | src/plugins/ast_discovery/ast_parser.rs:27-50 | lines whose first line is not blank and that are all indented at least as far are kept whole |
| AstParser.CollectBody | src/plugins/ast_discovery/ast_parser.rs:23-50 | the line loop with its `continue` and `break` collects BodyLines |
| AstParser.ExtractRegisterPluginFunction | src/plugins/ast_discovery/ast_parser.rs:11-60 | the body after the first `:` following the first `def register_plugin(`, its lines joined by newlines, or the not-found error when either is missing |
| AstParser.ExtractPluginsList | src/plugins/ast_discovery/ast_parser.rs:63-114 | the nested keyword and cursor loops return PluginsList |
| AstParser.SearchKeywords | src/plugins/ast_discovery/ast_parser.rs:79-102 | the keyword loop pushes the calls of each keyword in turn, skipping empty and repeated ones |
| AstParser.SearchKeyword | src/plugins/ast_discovery/ast_parser.rs:80-101 | the cursor loop for one keyword pushes the calls KeywordDefs finds, in order |
| AstParser.KeywordRound | src/plugins/ast_discovery/ast_parser.rs:82-100 | one round moves the cursor as Round says, always forward, and yields the text from the keyword through the matching `)` when there is one |
| AstParser.CallShape | src/plugins/ast_discovery/ast_parser.rs:85-90 | a recorded call starts with the keyword and ends with `)` |
| AstParser.KeywordDefsMembers | src/plugins/ast_discovery/ast_parser.rs:80-101 | the calls recorded for one keyword are exactly the calls found at its occurrences in the list text |
| AstParser.AddAllSpec | src/plugins/ast_discovery/ast_parser.rs:91-93 | pushing keeps what was listed in front, adds exactly the non-empty calls not yet listed, and never lists a call twice |
| AstParser.ClassDefsMembers | src/plugins/ast_discovery/ast_parser.rs:79-102 | the calls of all keywords are exactly the calls found at an occurrence of one of them, and none is empty |
| AstParser.PluginsListSpec | src/plugins/ast_discovery/ast_parser.rs:63-114 | the result is the no-definitions error exactly when no `plugins=[...]` list exists or it holds no call; otherwise it lists each call of a recognised constructor once and nothing else |
| AstParser.CallPositionsSpec | src/plugins/ast_discovery/ast_parser.rs:80-101 | the calls for one keyword are found at occurrences of it that strictly increase, so they come in text order |
| AstParser.AddAllOrder | src/plugins/ast_discovery/ast_parser.rs:91-93 | the pushed list keeps the order in which calls were first found |
| AstParser.FlattenOrder | src/plugins/ast_discovery/ast_parser.rs:79-102 | in calls grouped keyword after keyword, an earlier call's keyword comes no later, and within one keyword it was found first |
| AstParser.PluginsListOrder | src/plugins/ast_discovery/ast_parser.rs:79-101 | the list is ordered by the keyword's place in `PLUGIN_CLASSES`, and by the order found, which is text order, within one keyword |
| ConstructorParser.InferCallableKind | src/plugins/ast_discovery/constructor_parser.rs:316-322 | `class` exactly when the name's first character is upper case, `function` otherwise, and `function` for an empty name; json_builder.rs:110-116 (`infer_callable_type_from_name`) repeats the same rule, which this one function stands for |
| ConstructorParser.Classify | src/plugins/ast_discovery/constructor_parser.rs:241-268 | the first rules in their order: empty text or `None` give null, `True` and `False` the booleans, a text quoted at both ends (double or single) the text between the quotes, an `IOType` member its lower-case value |
| ConstructorParser.ClassifyErrors | src/plugins/ast_discovery/constructor_parser.rs:270-284 | the value fails exactly when it holds a `.`, does not start with `[` and no earlier rule takes it; a `<Class>.steps` value names the class in its error, any other carries the whole text |
| ConstructorParser.ClassifyRules | src/plugins/ast_discovery/constructor_parser.rs:286-301 | after those rules, a text in brackets is an empty array, a symbol of the import map is the reference object of its module and name, and anything else is the text itself |
| ConstructorParser.StepOutsideValue | src/plugins/ast_discovery/constructor_parser.rs:146-203 | outside a string, a character that is no quote leaves the value as it was, appends itself, or clears it |
| ConstructorParser.StepEmitsPending | src/plugins/ast_discovery/constructor_parser.rs:164-195 | a pair is completed only outside a string, at `)` or a top-level `,`, and it is the key and value being read |
| ConstructorParser.StepKeepsInv | src/plugins/ast_discovery/constructor_parser.rs:133-204 | every turn keeps the scanner invariant: inside a string the value holds its opening quote, outside a value with a quote has two non-blank characters |
| ConstructorParser.ScanClassifiable | src/plugins/ast_discovery/constructor_parser.rs:133-204 | no pair the loop completes has a value that trims to a lone quote, so the quoted-string rule never slices a one-character text |
| ConstructorParser.ScanChar | src/plugins/ast_discovery/constructor_parser.rs:134-203 | the loop body on the scanner variables does what Step says |
| ConstructorParser.InsertPair | src/plugins/ast_discovery/constructor_parser.rs:165-168 | a completed pair's value is classified and inserted, and a classification error is returned at once |
| ConstructorParser.InsertKwargs | src/plugins/ast_discovery/constructor_parser.rs:117-204 | the character loop returns ScanKwargs: the completed pairs classified and inserted in order, or the first classification error |
| ConstructorParser.ParsePairsErrPrefix | src/plugins/ast_discovery/constructor_parser.rs:166-189 | once a value fails, the pairs after it change nothing |
| ConstructorParser.CleanKey | src/plugins/ast_discovery/constructor_parser.rs:209-213 | a key with no `:` is kept as it is |
| ConstructorParser.CleanKeys | src/plugins/ast_discovery/constructor_parser.rs:206-216 | every raw key's cleaned form is a key of the result, and every entry of the result holds the value of a raw key that cleans to it |
| ConstructorParser.CleanedFromUnique | src/plugins/ast_discovery/constructor_parser.rs:206-216 | when no two raw keys clean to the same key, each raw value ends up under its cleaned key |
| ConstructorParser.ExtractKwargs | src/plugins/ast_discovery/constructor_parser.rs:112-219 | the no-parenthesis error or the first classification error is returned as is; otherwise the result is a cleaning of the keywords scanned after the first `(` |
| ConstructorParser.RecordFields | src/plugins/ast_discovery/constructor_parser.rs:51-95 | the record holds `name`, `obj` and the inferred `plugin_type`; `io_type` exactly when that keyword is a string; each of the six copied keywords exactly when given, with its value; and nothing else |
| ConstructorParser.PluginRecord | src/plugins/ast_discovery/constructor_parser.rs:39-45 | the missing-name error when `name` is absent or not a string, the missing-obj error naming the plugin when `obj` is absent, and a record exactly when both are there |
| ConstructorParser.ParsePluginConstructor | src/plugins/ast_discovery/constructor_parser.rs:23-98 | the invalid-format error with no `(`; the keyword error as is; otherwise the record of a cleaning of the keywords, typed from the trimmed text before the `(` |
| ConstructorParserFacts.ScanKwargsText | src/plugins/ast_discovery/constructor_parser.rs:133-204 | a keyword list written `k1=v1, k2=v2, …)` scans back to exactly its pairs, in order, whatever follows the `)` |
| ConstructorParserFacts.CloseEndsScan | src/plugins/ast_discovery/constructor_parser.rs:164-170 | the first `)` outside every bracket ends the scan, and nothing after it is read |
| ConstructorParserFacts.QuotedRun | src/plugins/ast_discovery/constructor_parser.rs:138-151 | a double-quoted run in a value is copied whole, its commas, brackets and parentheses included |
| ConstructorParserFacts.NestedCommaKept | src/plugins/ast_discovery/constructor_parser.rs:187-202 | a `,` inside an open `(`, `[` or `{` completes no pair and goes into the key or value being read |
| ConstructorParserFacts.ScanQuotedPair | src/plugins/ast_discovery/constructor_parser.rs:138-170 | `key="…")` gives the single pair of the key and the quoted text |
| ConstructorParserFacts.QuotedValueIsString | src/plugins/ast_discovery/constructor_parser.rs:259-264 | a double-quoted value is the string between its quotes |
| ConstructorParserFacts.ParsePairsOk | src/plugins/ast_discovery/constructor_parser.rs:166-190 | when every value classifies, the pairs classify one for one, in order |
| ConstructorParserFacts.FirstErrorWins | src/plugins/ast_discovery/constructor_parser.rs:166-189 | the first value that fails to classify is the error of the whole list |
| ConstructorParserFacts.RawKwargsOfText | src/plugins/ast_discovery/constructor_parser.rs:112-204 | end to end, the keywords of `Cls(k1=v1, …)` are the pairs classified and inserted in order, or the first classification error |
| ConstructorParserFacts.LaterKeyWins | src/plugins/ast_discovery/constructor_parser.rs:167-190 | a keyword given more than once keeps the value of its last occurrence |
| DecoratorProcessor.FindMatchingParen | src/plugins/ast_discovery/decorator_processor.rs:225-247 | None unless `start` holds `(`; otherwise the first later index where the paren depth returns to 0, the same answer as the shared delimiter matcher |
| DecoratorProcessor.StripQuotes | src/plugins/ast_discovery/decorator_processor.rs:173-177 | one surrounding pair of double quotes is removed exactly when the value is at least two characters and both ends are `"`; otherwise the value is kept |
| DecoratorProcessor.StripQuotesAsWrittenPanics | src/plugins/ast_discovery/decorator_processor.rs:173-174 | the slice as written fails on exactly the one-character value `"` and agrees with the corrected strip on every other value |
| DecoratorProcessor.BuildUpgradeStepFromDecorator | src/plugins/ast_discovery/decorator_processor.rs:147-213 | never an error; the record is the defaults with the update of every comma-separated piece applied in order |
| DecoratorProcessor.ApplyArgument | src/plugins/ast_discovery/decorator_processor.rs:165-170 | a piece is trimmed and split at its first `=`; without `=` it changes nothing |
| DecoratorProcessor.ApplyKeyValue | src/plugins/ast_discovery/decorator_processor.rs:171-207 | the key match sets at most the field its key names, as the update of that key and value says |
| DecoratorProcessor.UpdateOfSpec | src/plugins/ast_discovery/decorator_processor.rs:171-207 | only the five argument keys set anything and only under their own name; versions lose one pair of double quotes; `priority` is set iff the value parses as an i64; `upgrade_type` is set iff the value has a `.`, and then has no lower-case letter |
| DecoratorProcessor.UpdateSpec | src/plugins/ast_discovery/decorator_processor.rs:165-209 | a piece without `=` sets nothing, and a piece sets only its own key, one of the five |
| DecoratorProcessor.LastUpdateWins | src/plugins/ast_discovery/decorator_processor.rs:165-210 | the last piece that sets a key decides that key's value |
| DecoratorProcessor.UnsetKeyKept | src/plugins/ast_discovery/decorator_processor.rs:165-210 | a key no piece sets keeps its entry, or stays absent |
| DecoratorProcessor.ApplyUpdatesKeys | src/plugins/ast_discovery/decorator_processor.rs:165-210 | the pieces only ever add the keys they set and never remove one |
| DecoratorProcessor.UpgradeStepShape | src/plugins/ast_discovery/decorator_processor.rs:151-213 | every step has the five default keys, names its function in `name` and `func`, and has no key beyond those and `min_version`/`max_version` |
| DecoratorProcessor.NoAssignmentsGiveDefaults | src/plugins/ast_discovery/decorator_processor.rs:151-170 | arguments with no `=` anywhere give exactly the default record |
| DecoratorProcessor.DecoratorPattern | src/plugins/ast_discovery/decorator_processor.rs:103 | the pattern ends with the `(` whose match bounds the arguments |
| DecoratorProcessor.DecoratorRound | src/plugins/ast_discovery/decorator_processor.rs:107-124 | one occurrence gives the step of its arguments and the trimmed name between `def ` and the next `(`, or nothing when the match, the `def ` or that `(` is missing |
| DecoratorProcessor.ExtractStepsFromDecorators | src/plugins/ast_discovery/decorator_processor.rs:98-131 | never an error; the steps are those of the occurrences in text order, the cursor resuming one past each |
| DecoratorProcessor.StepsSound | src/plugins/ast_discovery/decorator_processor.rs:106-128 | every step returned comes from a decorator occurrence past the cursor |
| DecoratorProcessor.StepsComplete | src/plugins/ast_discovery/decorator_processor.rs:106-128 | every decorator occurrence past the cursor that gives a step has that step returned |
| DecoratorProcessor.StepsMembers | src/plugins/ast_discovery/decorator_processor.rs:98-131 | the steps of a file are exactly the steps of its decorator occurrences |
| FileFinder.DistInfoNameRoundTrip | src/plugins/ast_discovery/file_finder.rs:16-18 | the `.dist-info` name holds no `-` before the version, and reads back as the package name with `-` turned to `_` and the version, `0.0.0` when none is given |
| FileFinder.ModuleFilePathRoundTrip | src/plugins/ast_discovery/file_finder.rs:36-38 | a module's file path ends in `.py`, has no `.` in its stem, and names the module again when the module holds no `/` |
| FileFinder.AbsoluteModuleFilePath | src/plugins/ast_discovery/file_finder.rs:38-39 | the file path is absolute exactly when the module starts with `.` or `/` |
| FileFinder.PathJoinSpec | src/plugins/ast_discovery/file_finder.rs:39 | joining ends with the argument; an absolute argument replaces the base, otherwise the result starts with the base and adds at most one separator |
| FileFinder.FoundPath | src/plugins/ast_discovery/file_finder.rs:38-39 | a module's path under `site-packages` ends in `.py` and lies under that directory unless the module's path is absolute |
| FileFinder.PluginsPyViaEntryPointsSpec | src/plugins/ast_discovery/file_finder.rs:10-52 | every failure is the one `PluginNotFound`; a success is an existing `.py` path that is the `[r2x_plugin]` module of the read `entry_points.txt` joined to `site-packages` |
| FileFinder.ParseEntryPoints | src/plugins/ast_discovery/file_finder.rs:55-86 | the line loop returns exactly the scan's module path of the `[r2x_plugin]` entry |
| FileFinder.LineModulePath | src/plugins/ast_discovery/file_finder.rs:72-80 | the loop body for one section line returns exactly that line's entry value |
| FileFinder.BeforeColonSpec | src/plugins/ast_discovery/file_finder.rs:76-78 | a module path exists exactly when the value holds a `:`, and it holds none itself |
| FileFinder.EntryValueSpec | src/plugins/ast_discovery/file_finder.rs:72-80 | a line gives a module path exactly when it is not blank, not a `#` comment, has an `=`, and has a `:` after its first `=`; the path holds no `:` |
| FileFinder.EntryValueAfterEq | src/plugins/ast_discovery/file_finder.rs:74-80 | after the first `=`, a module path exists exactly when a `:` follows, and it holds none |
| FileFinder.EntryValueIs | src/plugins/ast_discovery/file_finder.rs:74-79 | the module path is the trimmed text before the first `:` of the trimmed text after the first `=` |
| FileFinder.HeaderHasNoValue | src/plugins/ast_discovery/file_finder.rs:61-64 | the header line never counts as an entry |
| FileFinder.ScanPreamble | src/plugins/ast_discovery/file_finder.rs:58-66 | lines before the first header are ignored |
| FileFinder.NoHeaderNoModule | src/plugins/ast_discovery/file_finder.rs:58-85 | without a `[r2x_plugin]` header the result is None |
| FileFinder.ScanFirstValue | src/plugins/ast_discovery/file_finder.rs:66-82 | inside the section, the first line with a value decides once every earlier line is blank, a comment or lacks `=` or `:` |
| FileFinder.ScanComplete | src/plugins/ast_discovery/file_finder.rs:58-82 | a value line after the first header, preceded in the section only by quiet lines, is the result |
| FileFinder.ScanSound | src/plugins/ast_discovery/file_finder.rs:58-85 | a result is the value of a line that lies in an `[r2x_plugin]` section, with only quiet lines before it there, and starts no other section |
| Help.ScanParameters | src/help.rs:168-175 | the parameter loop finds a mention exactly when some parameter's annotation contains `DataStore` or `data_store` |
| Help.CheckNeedsDatastore | src/help.rs:164-191 | the result is true exactly when `requires_store` is true, or a callable parameter's annotation mentions the data store, or a config parameter's annotation does |
| Help.DeclaredStoreWins | src/help.rs:165 | `requires_store = true` is never reset to false |
| Help.UnannotatedParameterIrrelevant | src/help.rs:169 | adding a parameter without an annotation never changes the result |
| Help.AnnotationDecides | src/help.rs:170-172 | `DataStore` or `data_store` anywhere in a callable parameter's annotation makes the result true |
| Help.NoMentionFlagDecides | src/help.rs:165-190 | with no mention in any parameter, the result is exactly the declared `requires_store`, false when absent |
| InvokerKwargs.SplitQualifiedTarget | crates/r2x-python/src/plugin_invoker/kwargs.rs:305-313 | None exactly when the target has neither `:` nor `.`; otherwise prefix, separator and suffix rebuild the target, split at the last `:` when there is one (the suffix has no `:`), else at the last `.` (the suffix has no `.`) |
| InvokerKwargs.ColonRoundTrip | crates/r2x-python/src/plugin_invoker/kwargs.rs:306-307 | a module and an attribute without `:` joined by `:` split back into the two |
| InvokerKwargs.DotRoundTrip | crates/r2x-python/src/plugin_invoker/kwargs.rs:308-309 | a dotted path without `:` splits back at its last `.` |
| InvokerKwargs.ExtractConfigParams | crates/r2x-python/src/plugin_invoker/kwargs.rs:167-192 | the loop returns exactly the nested `config` dictionary, or the flat entries without the store keys plus `data_store` |
| InvokerKwargs.NestedConfigWins | crates/r2x-python/src/plugin_invoker/kwargs.rs:172-176 | a nested `config` dictionary is returned unchanged, whatever else is given |
| InvokerKwargs.FlatParamsSpec | crates/r2x-python/src/plugin_invoker/kwargs.rs:178-189 | without a nested dictionary, a key is passed exactly when given and not `data_store`/`store_path`/`path`, or when it is `data_store` and a store is supplied; passed keys keep their values, `data_store` holds the store, `store_path` and `path` never pass |
| JsonBuilder.ExtractPackageJson | src/plugins/ast_discovery/json_builder.rs:25-77 | the loop returns exactly the document of the records that parse, or the list extractor's error |
| JsonBuilder.ParsedSpec | src/plugins/ast_discovery/json_builder.rs:41-63 | never more records than definitions; every record is the parse of some definition, and every definition that parses gives its record |
| JsonBuilder.ParsedAllOk | src/plugins/ast_discovery/json_builder.rs:42-58 | when every definition parses, the records are their parses one for one, in list order |
| JsonBuilder.ParsedSkipsFailure | src/plugins/ast_discovery/json_builder.rs:59-61 | a definition that fails to parse is skipped and changes nothing |
| JsonBuilder.PackageJsonSpec | src/plugins/ast_discovery/json_builder.rs:39-74 | the only error is the list extractor's, unchanged; the document has exactly `name` (the package), `plugins` (no more than the definitions) and an empty `metadata` |
| ParameterExtractor.ExtractInitParameters | src/plugins/ast_discovery/parameter_extractor.rs:219-383 | never an error; the loop returns exactly the entries of the matches within the `__init__` span inserted in order, or nothing when `class NAME`, `def __init__` or a `(`/`)` after it is missing |
| ParameterExtractor.ParamEntrySpec | src/plugins/ast_discovery/parameter_extractor.rs:321-357 | a text without `:` gives nothing; otherwise the name is the trimmed text before the first `:`, `is_required` is true exactly when no `=` follows, and `annotation` is present exactly when not empty, with no other key |
| ParameterExtractor.AnnotationSpec | src/plugins/ast_discovery/parameter_extractor.rs:327-336 | the annotation holds no `=`, and is the whole rest when there is no default |
| ParameterExtractor.InitParametersKeys | src/plugins/ast_discovery/parameter_extractor.rs:225-357 | without a span there are no parameters; otherwise the names are exactly those of the matches within the span whose text has a `:` |
| ParameterExtractor.LaterMatchOverwrites | src/plugins/ast_discovery/parameter_extractor.rs:313-357 | one more match within the span and with a `:` replaces any earlier entry of its name; any other match changes nothing |
| ParameterExtractor.SearchDirs | src/plugins/ast_discovery/parameter_extractor.rs:48-56 | the package path is always searched first |
| ParameterExtractor.ExtractCallableParameters | src/plugins/ast_discovery/parameter_extractor.rs:37-80 | never an error; the result is the parameters of the first directory, in the order package path, `VIRTUAL_ENV`, working directory, whose file is found and parses, or an empty map |
| ParameterExtractor.FirstFoundSpec | src/plugins/ast_discovery/parameter_extractor.rs:58-79 | the first directory whose lookup succeeds decides the result; when every lookup fails the result is empty |
| ParameterExtractor.LastSegment | src/plugins/ast_discovery/parameter_extractor.rs:37-42 | the last piece of the module split at `.` is its text after the last `.`, or the whole module |
| ParameterExtractor.PythonFileNameSpec | src/plugins/ast_discovery/parameter_extractor.rs:37-42 | the file name is the module's last `.`-segment plus `.py`, and the segment holds no `.` |
| PluginManifest.Validate | src/plugin_manifest.rs:153-158 | validation always succeeds |
| PluginManifest.Manifest.constructor | src/plugin_manifest.rs:146-150 | the default manifest has no plugins |
| PluginManifest.Manifest.IsEmpty | src/plugin_manifest.rs:268-271 | empty exactly when no name has a plugin |
| PluginManifest.Manifest.GetPlugin | src/plugin_manifest.rs:258-261 | present exactly when `has_plugin` holds, and then the stored metadata |
| PluginManifest.Manifest.AddPlugin | src/plugin_manifest.rs:223-228 | always succeeds; the name is stored with the plugin, replacing any earlier entry, nothing else changes, and the manifest is then not empty |
| PluginManifest.Manifest.RemovePlugin | src/plugin_manifest.rs:230-233 | true exactly when the name was registered; exactly that name is removed |
| PluginManifest.Manifest.RemovePluginsByPackage | src/plugin_manifest.rs:235-256 | exactly the plugins whose package name is the given one are removed, and the count is how many there were |
| PluginManifest.Manifest.ListPlugins | src/plugin_manifest.rs:263-266 | every registered name with its metadata, once each |
| PluginManifest.WithoutPackageSpec | src/plugin_manifest.rs:241-254 | removing a package keeps exactly the plugins with no package name or another one, metadata untouched |
| PluginManifest.RemovalCount | src/plugin_manifest.rs:251-255 | the plugins kept plus the count removed is the size before |
| PluginManifest.RemovalIdempotent | src/plugin_manifest.rs:237-256 | removing the same package twice removes nothing the second time |
| PluginManifest.RemoveAbsentPackage | src/plugin_manifest.rs:237-256 | removing a package with no plugins changes nothing and counts 0 |
| PluginRemove.IndexManifest | src/plugins/remove.rs:170-190 | the single pass yields exactly the set of explicitly installed packages, and for each installer exactly the packages it pulled in |
| PluginRemove.VisitPlugin | src/plugins/remove.rs:174-189 | an explicit plugin adds its package; a dependency with an installer is appended to that installer's list; anything else changes nothing |
| PluginRemove.ExplicitStep | src/plugins/remove.rs:174-178 | visiting one more plugin adds its package to the explicit set exactly when it is explicit |
| PluginRemove.DepsIndexStep | src/plugins/remove.rs:179-186 | visiting one more plugin keeps the installer index exact |
| PluginRemove.DepsInStep | src/plugins/remove.rs:179-186 | one more plugin adds its package to its own installer's dependencies and to no one else's |
| PluginRemove.FindOrphanedDependencies | src/plugins/remove.rs:168-210 | the result holds each orphan of the package exactly once: a package it pulled in that no other installer lists and that is not explicitly installed |
| PluginRemove.OrphanedOfIndex | src/plugins/remove.rs:192-207 | the orphans computed from the index are exactly the specified orphans |
| PluginRemove.UsedByOtherOfIndex | src/plugins/remove.rs:198-200 | `used_by_other` over the index holds exactly when another installer pulled the package in |
| PluginRemove.Enumerate | src/plugins/remove.rs:209 | collecting a set lists each element exactly once |
| PluginRemove.RemoveFromManifest | src/plugins/remove.rs:13-44 | a manifest that fails to load removes nothing; otherwise the orphans are found before any removal, the package's plugins are removed, the orphans' plugins only when that removed something, and the count is everything removed |
| PluginRemove.OrphanedSpec | src/plugins/remove.rs:173-207 | a package is orphaned exactly when the removed package pulled in one of its plugins, and none of its plugins is explicit or pulled in by another installer |
| PluginRemove.NoDependenciesNoOrphans | src/plugins/remove.rs:195-209 | a package that pulled in nothing orphans nothing |
| PluginRemove.WithoutPackagesSpec | src/plugins/remove.rs:20-26 | removing a list of packages keeps exactly the plugins with no package or another one, untouched |
| PluginRemove.AfterRemovalSpec | src/plugins/remove.rs:17-36 | a plugin is kept exactly when its package is neither the removed one nor an orphan; when the package had no plugins the manifest is unchanged |
| R2xConfig.KeyIndex | crates/r2x-config/src/lib.rs:165-174 | exactly the five known keys have a position, the one `values_iter` lists them in |
| R2xConfig.PackageSpecFor | crates/r2x-config/src/lib.rs:322-335 | the requirement starts with `r2x-core`, ends with the version and always carries an operator: the version as is when it has one of `>= <= ~= != == > <`, otherwise `==` before it |
| R2xConfig.PushIfSet | crates/r2x-config/src/lib.rs:197-199 | one step of `values_iter` appends the key and value exactly when the field is set |
| R2xConfig.ListedPrefix | crates/r2x-config/src/lib.rs:195-213 | each further key adds its pair when its field is set |
| R2xConfig.ListedMember | crates/r2x-config/src/lib.rs:195-213 | a pair is listed exactly when some key has that value |
| R2xConfig.ListedOrder | crates/r2x-config/src/lib.rs:195-213 | listed keys come in increasing key order |
| R2xConfig.Config.constructor | crates/r2x-config/src/lib.rs:89-101 | the default settings have no field set and are empty |
| R2xConfig.Config.Get | crates/r2x-config/src/lib.rs:165-174 | any key other than the five known ones gives None |
| R2xConfig.Config.Fields | crates/r2x-config/src/lib.rs:165-174 | `get` on each known key returns that key's field |
| R2xConfig.Config.Set | crates/r2x-config/src/lib.rs:176-185 | a known key's field becomes the value, so `get` returns it and the settings are not empty, and no other key changes; an unknown key changes nothing |
| R2xConfig.Config.IsEmpty | crates/r2x-config/src/lib.rs:187-193 | empty exactly when no known key has a value |
| R2xConfig.Config.ValuesIter | crates/r2x-config/src/lib.rs:195-213 | the pushes give exactly the listing of the set fields in key order |
| R2xConfig.Config.R2xCorePackageSpec | crates/r2x-config/src/lib.rs:320-336 | the requirement for the configured version, or `0.1.0rc1`, always starts with `r2x-core`, carries an operator and ends with the version |
| R2xConfig.ValuesSpec | crates/r2x-config/src/lib.rs:195-213 | the listing holds exactly the keys that have a value, each with that value, in the order cache-path, uv-path, python-version, venv-path, r2x-core-version |
| R2xConfig.DefaultPackageSpec | crates/r2x-config/src/lib.rs:321-334 | with no version configured the requirement is `r2x-core==0.1.0rc1` |
| R2xConfig.NoOperatorInDefault | crates/r2x-config/src/lib.rs:321-331 | the default version contains none of the operators |
| R2xConfig.OperatorVersionKept | crates/r2x-config/src/lib.rs:324-332 | a version containing `>=` is used as is after `r2x-core` |
| AstParser.RegisterPluginBodyFound | src/plugins/ast_discovery/ast_parser.rs:17-52 | with the header and the first `:` after it found, the result is the body cut from the lines after that `:` |
| AstParser.KeywordDefsSound | src/plugins/ast_discovery/ast_parser.rs:80-101 | every call recorded for a keyword is the call at one of its occurrences past the cursor |
| AstParser.KeywordDefsComplete | src/plugins/ast_discovery/ast_parser.rs:80-101 | every call at an occurrence of the keyword past the cursor is recorded |
| AstParser.ClassDefsFlatten | src/plugins/ast_discovery/ast_parser.rs:79-102 | the calls come grouped keyword after keyword, in `PLUGIN_CLASSES` order |
| AstParser.PluginsOfContent | src/plugins/ast_discovery/ast_parser.rs:79-111 | the pushed list holds each recognised call once, and is empty exactly when no call was found |
| AstExtractor.StripStartSpec | crates/r2x-ast/src/extractor/mod.rs:244-246 | stripping the front drops only characters of the set and leaves a suffix that does not start with one |
| AstExtractor.StripEndSpec | crates/r2x-ast/src/extractor/mod.rs:244-246 | stripping the back drops only characters of the set and leaves a prefix that does not end with one |
| AstExtractor.LineImportsValue | crates/r2x-ast/src/extractor/mod.rs:227-251 | a name one line inserts maps to that line's trimmed module text |
| Strings.FindFrom | src/plugins/ast_discovery/decorator_processor.rs:106 | `find` from a cursor: the first occurrence at or after it, None exactly when there is none |
| Strings.Find | src/plugins/ast_discovery/decorator_processor.rs:114 | `find`: the first occurrence, None exactly when there is none |
| Strings.FindChar | src/plugins/ast_discovery/decorator_processor.rs:167 | `find` of a character: its first index, None exactly when it does not occur |
| Strings.FindCharFrom | src/plugins/ast_discovery/decorator_processor.rs:116 | `find` of a character from a cursor: its first index at or after it |
| Strings.RFindChar | crates/r2x-python/src/plugin_invoker/kwargs.rs:306 | `rfind` of a character: its last index, None exactly when it does not occur |
| Strings.Trim | src/plugins/ast_discovery/decorator_processor.rs:166 | `trim`: a contiguous piece of the text with only whitespace dropped on each side, starting and ending with no whitespace |
| Strings.TrimIdempotent | src/plugins/ast_discovery/decorator_processor.rs:166-169 | trimming twice is trimming once |
| Strings.TrimKeeps | src/plugins/ast_discovery/file_finder.rs:75-77 | trimming keeps every character that is not whitespace |
| Strings.Split | src/plugins/ast_discovery/decorator_processor.rs:165 | `split` at a character gives at least one piece, none holding the separator |
| Strings.JoinSplit | src/plugins/ast_discovery/decorator_processor.rs:165 | the pieces joined with the separator give the text back |
| Strings.SplitJoin | src/plugins/ast_discovery/decorator_processor.rs:165 | pieces without the separator joined and split again give the pieces back |
| Strings.Lines | src/plugins/ast_discovery/file_finder.rs:58 | `lines` gives no line exactly for the empty text |
| Strings.LinesHaveNoBreak | src/plugins/ast_discovery/file_finder.rs:58 | no line holds a line break |
| Strings.ReplaceChar | src/plugins/ast_discovery/file_finder.rs:16 | `replace` of one character changes every occurrence of it and nothing else |
| Strings.ToUpper | src/plugins/ast_discovery/decorator_processor.rs:183 | `to_uppercase` maps each character and leaves no ASCII lower-case letter |
| Strings.ParseI64 | src/plugins/ast_discovery/decorator_processor.rs:187 | `parse::<i64>` yields only values in the i64 range |
| Strings.ParseI64RoundTrip | src/plugins/ast_discovery/decorator_processor.rs:187 | every i64 written in decimal parses back to itself |

## Left out

- Strings.IsWhitespace, Strings.IsUpper and Strings.UpperChar are ASCII-only. Rust's `trim`, `char::is_uppercase` and `to_uppercase` follow Unicode, so text outside ASCII can trim, classify or upper-case differently.
- Byte and character offsets: the code mixes byte offsets with character indices in `src/plugins/utils.rs`:14-15 and `decorator_processor.rs`:226-231. Text is a sequence of characters here, so the two kinds of offset coincide. That holds in the code only for ASCII text.
- ConstructorParser.Classify requires that the value is not a lone `"` or `'`. On that value `parse_kwarg_value` panics on the slice at `constructor_parser.rs`:262, and that panic is not modelled. ConstructorParser.ScanClassifiable proves the keyword scanner never emits such a value, so every path through `extract_kwargs` is covered.
- ConstructorParser.CleanKeys: when two raw keys clean to the same name, the code's hash-map iteration order decides which value survives. The contract (CleanedFrom) admits either value. CleanedFromUnique pins the result only when no two keys collide. Before cleaning, the later of two equal keys wins (LaterKeyWins).
- JSON objects are maps, so the key order of the emitted objects is not modelled. The package document is a JSON value rather than its text: `to_string` is not modelled.
- InvokerKwargs.ExtractConfigParams works on a dictionary passed by value. The code returns the nested `config` dictionary itself, aliased, not a copy. Keys that are not strings, which the code reads as the empty string, are not modelled. A failing `set_item` is not modelled either.
- Error messages: each `BridgeError` variant keeps its payload, but the text `Display` renders is not modelled. The two errors of `parse_kwarg_value` for dotted values are kept apart as DecoratorStepsUnsupported(class) and AttributeAccessUnsupported(text). The code renders both into `PluginNotFound` messages.
- File-system and process I/O are not modelled. This covers reading `plugins.py` (the content is a parameter), `search_decorators_recursive` and `extract_decorator_based_attribute`, `find_and_read_python_file`, `find_plugins_py`, and the `read_dir` scan for `python*` under `lib`. FileFinder.PluginsPyViaEntryPoints takes the `site-packages` directory, path existence and file reading as parameters.
- The ast-grep runs are not modelled: process spawning, temporary files and JSON parsing. ParameterExtractor.ExtractInitParameters takes the matches as a list of (start, end, text). A failed run is the empty list. `parse_function_signature` is the `probe` parameter of ExtractCallableParameters.
- Environment: `VIRTUAL_ENV` and the working directory are optional parameters of ParameterExtractor.ExtractCallableParameters.
- FileFinder.PathJoin models `Path::join` on `/`-separated paths only. Windows prefixes and `\` separators are not modelled.
- The `ensure_uv_path`, `ensure_venv_path`, `get_venv_path`, `load`, `save` and `reset` functions of the settings, and the TOML/JSON serialisation of the manifest, are serde and I/O. They are not modelled.
- The `uv pip uninstall` part of `remove_plugin` (after line 44 of `src/plugins/remove.rs`) is not modelled, and neither are the manifest's `save`. PluginRemove.RemoveFromManifest covers lines 13-44.
- `package_path` is passed through `extract_kwargs` and `parse_kwarg_value` but never consulted on a modelled path, so the model drops it.
- Python interpreter plumbing in `kwargs.rs` other than `split_qualified_target` and `extract_config_params` is not modelled. That code consists of pyo3 calls into imported modules.
- Logging calls, and the printing of the help screen, are not modelled.
- PluginManifest.Manifest.ListPlugins and PluginRemove.Enumerate list in an unspecified order, as the code's hash-map and hash-set iteration does. The contracts do not fix one.
- Help.ScanParameters visits the parameters in an unspecified order; the result does not depend on it.
- The settings path getters (`get_cache_path`, `get_venv_path`, `get_venv_python_path`, `ensure_cache_path`) resolve paths from the environment and the home directory, and are not modelled.
- In `crates/r2x-ast/src/extractor/mod.rs`, the ast-grep queries and the file read (lines 29-100) are not modelled. Their results are parameters: the helper-method name, and the (name, value) arguments of the constructor call.
- Orchestration is not modelled: `src/plugins/discovery.rs`, `src/plugins/clean.rs` and the CLI wiring combine the modelled pieces with I/O.

## Findings

| source | as written | input that shows it | evidently intended | confidence | as-written member | corrected member |
|---|---|---|---|---|---|---|
| src/plugins/ast_discovery/import_resolver.rs:25-31 | the line passes the `from ` guard, and the module is sliced as `line[5..import_idx]` with no check that ` import ` starts at index 5 or later (the same slice appears in `crates/r2x-ast/src/extractor/mod.rs`:227-229) | the line `from import x`: its first ` import ` starts at index 4, so the slice `[5..4]` panics | a line whose ` import ` starts before the module is not an import statement and is skipped | not executed | ImportResolver.FromImportSliceOutOfRange, ImportResolver.ModulePartAsWritten | ImportResolver.ImportStatement |
| src/plugins/ast_discovery/decorator_processor.rs:173-174 | a version value that starts and ends with `"` is sliced as `value[1..len-1]`; the same code appears at lines 192-193 and 200-201 | the decorator arguments `target_version=","`: splitting at `,` leaves the piece `target_version="`, whose value `"` gives the slice `[1..0]`, which panics | only a value of at least two characters is unquoted; a lone `"` is kept as it is | not executed | DecoratorProcessor.StripQuotesAsWritten, DecoratorProcessor.StripQuotesAsWrittenPanics | DecoratorProcessor.StripQuotes |

# Mini-Kconfig validator and virtio-iommu translation tables in Dafny

This project models two components of a QEMU tree and proves properties of
the models.

**Mini-Kconfig** (`scripts/minikconf.py`) is a recursive-descent parser for
a small Kconfig dialect. It reads `config` declarations, `CONFIG_X=y|n`
assignments and `source` directives, follows includes, and reports symbols
that are referenced but never declared. The model keeps the source's
imperative shape:

- `KconfigSemantics.KconfigData` is a class holding the shared symbol table:
  the files already included, the chain of include frames, and the defined
  and referenced symbols.
- `KconfigParsing.KconfigParser` is a class whose fields are the scanner
  state: buffer, cursor, token start, line, line start, token and value.
  Its methods are the scanner, the error reporter, include handling and
  one method per grammar rule.
- `KconfigLexicon` holds the character classes, the token table, the column
  computation and the failures a parse can end with.
- `KconfigGrammar` restates the scanner and every grammar rule as a
  function over the parser's registers and the table. Each parser method
  is proved to end exactly as the function of its rule: with the same
  failure, or in the state the function returns. The table carries a
  ghost log of the tokens the parsers consumed. The functions' contracts
  say what a rule adds to the table in terms of that log: an expression
  references exactly its identifiers, a declaration declares exactly the
  identifier after `config`, an assignment references its target without
  the `CONFIG_` prefix, and a whole parse succeeds iff every referenced
  symbol is declared.
- `KconfigExamples` runs two small files through the grammar, one that
  parses and one with an undeclared dependency that fails.

**virtio-iommu** (`hw/virtio/virtio-iommu.c`) is a paravirtual IOMMU. The
model covers its translation tables:

- the endpoint tree, mapping an endpoint id to its domain;
- the domain tree, mapping a domain id to an interval-keyed tree of mappings
  plus the list of attached endpoints;
- the reserved regions;
- the notifier list.

It also covers the requests that change these tables: ATTACH, DETACH, MAP,
UNMAP and PROBE. Finally it covers the decision logic of translate.
`IommuTables.IommuState` is a class over maps and sequences. Its invariant
`TablesValid` says three things:

- every mapping tree has well-formed, pairwise non-overlapping keys, which is
  what the `interval_cmp` comparator needs;
- an attached endpoint is on its domain's list;
- every endpoint on a list points back at that domain.

Modelling conventions:

- A GTree keyed by `int_cmp` is a Dafny `map`. `int_cmp` is a total order
  consistent with equality, which is proved in `IntCmpTotalOrder`.
- A GTree keyed by `interval_cmp` is a `map` whose keys stay disjoint. A
  lookup through the comparator returns some key that overlaps the query
  whenever one exists. For a tree of well-formed, disjoint keys this is
  exactly what the binary search finds, whatever the query.
- A QLIST is a `seq`, and `QLIST_REMOVE` of a node is `RemoveFirst`.
- Endpoint and domain pointers are ids.
- Integers are unbounded. `uint64_t` arithmetic is written out with `Wrap64`.

## Model

| member | source | states |
|---|---|---|
| KconfigLexicon.Normalize | scripts/minikconf.py:128-130 | the buffer scanned is non-empty and ends with a newline; a text already ending in one is kept as is, any other gets exactly one newline appended |
| KconfigLexicon.FindNewline | scripts/minikconf.py:361 | on a terminated buffer, the index found is a newline at or after the start and no newline lies before it |
| KconfigLexicon.KeywordMatchText | scripts/minikconf.py:377-394 | a keyword recognised at an index (other than source/include) is its own text there, followed by a character that is neither alphanumeric nor '\|' |
| KconfigLexicon.KeywordSlice | scripts/minikconf.py:350-351 | a keyword tail matched after a first letter makes the text that letter followed by the tail |
| KconfigLexicon.Column | scripts/minikconf.py:148-154 | the column of a position is at least one more than the characters before it and at most eight columns per character, so it is always at least 1 |
| KconfigLexicon.ColumnBounds | scripts/minikconf.py:150-154 | each character moves the column by at least one and at most eight |
| KconfigLexicon.ColumnAfterSnoc | scripts/minikconf.py:150-154 | the column after one more character is the per-character step applied to the column before it |
| KconfigLexicon.TabLandsOnStop | scripts/minikconf.py:151-152 | after a tab the column c satisfies (c-1) mod 8 = 0 |
| KconfigLexicon.ColumnWithoutTabs | scripts/minikconf.py:153-154 | on a line without tabs the column grows by exactly one per character |
| KconfigLexicon.AssignmentName | scripts/minikconf.py:208-212 | a target names a symbol exactly when it starts with "CONFIG_", and the symbol is the target without those seven characters |
| KconfigLexicon.AssignmentNameOfPrefixed | scripts/minikconf.py:208-212 | prefixing a name with "CONFIG_" gives a target naming exactly that name (round trip) |
| KconfigLexicon.ErrorBefore | scripts/minikconf.py:99-105 | the error carries the location; " before " and the token's name follow the message unless the effective token is TOK_NONE; an explicit TOK_LPAREN or no token falls back to the parser's token |
| KconfigLexicon.LparenCountsAsNoToken | scripts/minikconf.py:102 | passing TOK_LPAREN gives the same error as passing no token, because TOK_LPAREN is 0 and therefore falsy |
| KconfigLexicon.StrayError | scripts/minikconf.py:416-417 | corrected stray-character error: a parser error at the location whose message is exactly Stray "c" |
| KconfigLexicon.ErrorAsWritten | scripts/minikconf.py:99-105 | with no token given and the parser's token slot holding a character, the constructor raises KeyError; with a token kind it builds the error that ErrorBefore builds |
| KconfigLexicon.StrayCharacterRaisesKeyError | scripts/minikconf.py:416-417 | a stray '$' raises KeyError rather than the stray-character error (see Findings) |
| KconfigSemantics.IncludedFromTextOldestFirst | scripts/minikconf.py:139-146 | the include prefix of a chain starts with the prefix of its parent frame and is strictly longer, so the lines run oldest first |
| KconfigSemantics.KconfigData.constructor | scripts/minikconf.py:29-33 | a fresh table: nothing included, no frame, no defined or referenced symbols |
| KconfigSemantics.KconfigData.CheckUndefined | scripts/minikconf.py:37-43 | the result is true iff the referenced symbols are not a subset of the defined ones; the symbols reported are exactly referenced minus defined |
| KconfigSemantics.KconfigData.DoDeclaration | scripts/minikconf.py:47-51 | a name already defined fails with "defined twice" and leaves the set unchanged; otherwise exactly that name is added |
| KconfigSemantics.KconfigData.DoVar | scripts/minikconf.py:56-58 | the name is added to the referenced set and returned unchanged |
| KconfigGrammar.IdentEnd | scripts/minikconf.py:405-410 | the identifier ends at the first character that is not a letter, digit or '_'; every character before it continues the identifier |
| KconfigGrammar.SkipSpaces | scripts/minikconf.py:399-400 | the skip stops at the first character that is not whitespace, or at the end of the buffer; everything skipped is whitespace |
| KconfigGrammar.FileNameAt | scripts/minikconf.py:395-404 | after "source" or "include" the scan overruns the buffer iff only whitespace follows; otherwise the value is the rest of a line, non-empty, starting with a non-space, preceded only by whitespace and ending at the next newline |
| KconfigGrammar.WordAt | scripts/minikconf.py:377-410 | a keyword other than source/include is its token with the cursor after its text; a letter that starts no keyword gives an identifier; only a source directive can overrun |
| KconfigGrammar.ScanAt | scripts/minikconf.py:359-419 | a skipped character moves the cursor forward; a token read at k has its fixed text (punctuation and keywords), a keyword is not followed by an alphanumeric or '\|', an identifier is the maximal run of identifier characters, and the token is EOF iff it is the newline that ends the buffer |
| KconfigGrammar.Lex | scripts/minikconf.py:339-348 | the scan ends with a token read from the text at or after the cursor, or fails with a stray-character error or IndexError |
| KconfigGrammar.LexSkips | scripts/minikconf.py:339-348 | what the scan passes over before the token is whitespace and comments only; the line number grows by exactly the newlines passed, and the line starts after the last of them (unchanged when there is none) |
| KconfigGrammar.Next | scripts/minikconf.py:339-348 | get_token appends the current token to the consumed tokens and reads the next one further on; the table is otherwise unchanged |
| KconfigGrammar.YOrN | scripts/minikconf.py:186-193 | succeeds only on y or n, with true iff y, consuming exactly that token; any other token fails with "Expected \"y\" or \"n\"" |
| KconfigGrammar.Var | scripts/minikconf.py:196-202 | succeeds only on an identifier, returning its name and adding exactly that name to the referenced symbols; any other token fails with "Expected identifier" |
| KconfigGrammar.AssignmentVar | scripts/minikconf.py:205-214 | an identifier with the CONFIG_ prefix references and returns the name without it; one without the prefix fails with no "before" suffix; any other token fails with "Expected identifier" |
| KconfigGrammar.AssignmentValue | scripts/minikconf.py:219-222 | after the target, "=" and then y or n are consumed, nothing else changes; anything but "=" fails with "Expected \"=\"" |
| KconfigGrammar.Assignment | scripts/minikconf.py:217-222 | a successful assignment consumes target, "=" and y/n, references exactly the target without CONFIG_, declares nothing and leaves the include chain alone |
| KconfigGrammar.Primary | scripts/minikconf.py:227-240 | succeeds only on "!", "(" or an identifier; the tokens consumed contain no "=" or "config", and the referenced symbols gain exactly the identifiers among them |
| KconfigGrammar.DisjTail | scripts/minikconf.py:245-247 | the "\|\|" loop references exactly the identifiers it consumes and stops at a token other than "\|\|" |
| KconfigGrammar.Disj | scripts/minikconf.py:243-247 | a disjunction references exactly the identifiers it consumes and is not followed by "\|\|" |
| KconfigGrammar.ExprTail | scripts/minikconf.py:252-254 | the "&&" loop references exactly the identifiers it consumes and stops at a token other than "&&" |
| KconfigGrammar.Expr | scripts/minikconf.py:250-254 | an expression references exactly the identifiers it consumes and is followed by neither "&&" nor "\|\|"; it starts only with "!", "(" or an identifier |
| KconfigGrammar.Condition | scripts/minikconf.py:258-263 | without "if" nothing is consumed; with it an expression is parsed and exactly its identifiers are referenced |
| KconfigGrammar.DefaultProperty | scripts/minikconf.py:270-274 | default, y or n, and an optional condition reference exactly the identifiers of the condition |
| KconfigGrammar.DependsProperty | scripts/minikconf.py:275-280 | depends on an expression references exactly the expression's identifiers; a missing "on" fails |
| KconfigGrammar.SelectProperty | scripts/minikconf.py:281-285 | select references the selected symbol and the identifiers of its condition, and nothing else |
| KconfigGrammar.Property | scripts/minikconf.py:269-289 | succeeds only on a token that starts a property, referencing exactly the identifiers consumed (none for bool); any other token fails with "Error in recursive descent?" |
| KconfigGrammar.PropertyList | scripts/minikconf.py:295-297 | the loop parses properties while the token starts one and references exactly the identifiers consumed |
| KconfigGrammar.Properties | scripts/minikconf.py:293-304 | the properties reference exactly the identifiers they consume and are followed by a token that starts a clause or is EOF; otherwise the "expected source, config, …" error |
| KconfigGrammar.Declare | scripts/minikconf.py:310-312 | the identifier after config is referenced, rejected with "defined twice" when already declared, otherwise declared, and the properties follow |
| KconfigGrammar.Declaration | scripts/minikconf.py:307-314 | a declaration declares exactly the identifier after "config", which was not declared before, and references it with exactly the identifiers of its properties |
| KconfigGrammar.Clause | scripts/minikconf.py:319-329 | a clause adds to the referenced symbols exactly the symbols its tokens reference and to the declared symbols exactly the names after its "config" tokens (across included files too), none declared before; the include chain is as it was |
| KconfigGrammar.Config | scripts/minikconf.py:332-335 | clauses are parsed until EOF; the table gains exactly what the consumed clauses reference and declare |
| KconfigGrammar.File | scripts/minikconf.py:124-135 | the file's absolute name is appended to the included files, the normalised text is scanned to EOF, and the table gains exactly what the consumed clauses reference and declare |
| KconfigGrammar.Include | scripts/minikconf.py:157-181 | the cases in order: a target equal to the absolute path of a frame on the chain is an inclusion loop; a target included before changes nothing; a missing file is "No such file or directory"; otherwise the target is parsed with the frame (file, line, chain) pushed, and the chain is restored after a successful parse |
| KconfigGrammar.Parsed | scripts/minikconf.py:111-119 | a successful parse returns a table whose declared symbols are exactly the names after "config" and whose referenced symbols are exactly those the consumed tokens reference, all declared; it succeeds iff every referenced symbol is declared, failing otherwise with "there were undefined symbols before end of file" |
| KconfigParsing.KconfigParser.constructor | scripts/minikconf.py:121-122 | the parser shares the given table |
| KconfigParsing.KconfigParser.ErrorPath | scripts/minikconf.py:139-146 | the loop builds one "In file included from" line per frame, oldest first |
| KconfigParsing.KconfigParser.Location | scripts/minikconf.py:148-155 | the loop computes the include prefix, file name, line, and the column with tabs expanded to 8-column stops |
| KconfigParsing.KconfigParser.ErrorHere | scripts/minikconf.py:99-105 | KconfigParserError(self, msg, tok) is the ErrorBefore error at the current location |
| KconfigParsing.KconfigParser.GetToken | scripts/minikconf.py:339-348 | ends exactly as Next; what the scan passes over is whitespace and comments, the line number grows by exactly the newlines passed and the line starts after the last of them |
| KconfigParsing.KconfigParser.ScanTokens | scripts/minikconf.py:340-348 | the loop calls scan_token on each character and ends exactly as Lex |
| KconfigParsing.KconfigParser.CheckKeyword | scripts/minikconf.py:350-357 | succeeds iff the text at the cursor starts with the tail and the next character is neither alphanumeric nor '\|'; the cursor moves by exactly the tail's length on success and not at all on failure |
| KconfigParsing.KconfigParser.ScanToken | scripts/minikconf.py:359-419 | ends exactly as ScanAt: a newline is EOF iff it is the last character, otherwise the line goes up by exactly one, the line starts after it and no token is produced; comments and whitespace yield nothing; a stray character is the corrected stray-character error |
| KconfigParsing.KconfigParser.ScanWord | scripts/minikconf.py:377-410 | ends exactly as WordAt: a keyword, a source directive, or an identifier |
| KconfigParsing.KconfigParser.ScanIdentifier | scripts/minikconf.py:405-410 | the cursor stops at IdentEnd and the value is the identifier's text |
| KconfigParsing.KconfigParser.MatchKeyword | scripts/minikconf.py:377-396 | the keyword branches in their elif order give the keyword the text matches, with the cursor after it (after "source" or "include" for a directive) and unmoved when none matches |
| KconfigParsing.KconfigParser.ScanFileName | scripts/minikconf.py:395-404 | ends exactly as FileNameAt: IndexError iff only whitespace remains, otherwise the rest of the line |
| KconfigParsing.KconfigParser.ParseYOrN | scripts/minikconf.py:186-193 | ends exactly as YOrN |
| KconfigParsing.KconfigParser.ParseVar | scripts/minikconf.py:196-202 | ends exactly as Var: the identifier's name is referenced and returned |
| KconfigParsing.KconfigParser.ParseAssignmentVar | scripts/minikconf.py:205-214 | ends exactly as AssignmentVar: the CONFIG_ prefix is required and stripped |
| KconfigParsing.KconfigParser.ParseAssignment | scripts/minikconf.py:217-222 | ends exactly as Assignment |
| KconfigParsing.KconfigParser.ParsePrimary | scripts/minikconf.py:227-240 | ends exactly as Primary: the same failure, or the registers and table Primary gives, so exactly the identifiers consumed are referenced |
| KconfigParsing.KconfigParser.ParseDisj | scripts/minikconf.py:243-247 | ends exactly as Disj; the loop keeps DisjTail of the current state equal to the result |
| KconfigParsing.KconfigParser.ParseExpr | scripts/minikconf.py:250-254 | ends exactly as Expr; the loop keeps ExprTail of the current state equal to the result |
| KconfigParsing.KconfigParser.ParseCondition | scripts/minikconf.py:258-263 | ends exactly as Condition |
| KconfigParsing.KconfigParser.ParseProperty | scripts/minikconf.py:269-289 | ends exactly as Property |
| KconfigParsing.KconfigParser.ParseProperties | scripts/minikconf.py:293-304 | ends exactly as Properties; the loop keeps PropertyList of the current state equal to the result |
| KconfigParsing.KconfigParser.ParseDeclaration | scripts/minikconf.py:307-314 | ends exactly as Declaration: the identifier after config is declared and nothing else |
| KconfigParsing.KconfigParser.ParseClause | scripts/minikconf.py:319-329 | ends exactly as Clause; the include chain ends with the old chain under it |
| KconfigParsing.KconfigParser.ParseConfig | scripts/minikconf.py:332-335 | ends exactly as Config |
| KconfigParsing.KconfigParser.Open | scripts/minikconf.py:125-133 | the parser is pointed at the start of the normalised text on line 1, and the file's absolute name is appended to the included files |
| KconfigParsing.KconfigParser.ParseFile | scripts/minikconf.py:124-135 | ends exactly as File |
| KconfigParsing.KconfigParser.DoInclude | scripts/minikconf.py:157-181 | ends exactly as Include; a skipped target leaves the table unchanged; when the included file fails, the frame for this file and line is still on the chain |
| KconfigParsing.KconfigParser.Parse | scripts/minikconf.py:111-119 | returns a fresh table equal to Parsed, or Parsed's failure |
| KconfigExamples.NewlineBeforeEqual | scripts/minikconf.py:411-415 | scanning "\n=\n" from the start skips the newline, raises the line by one, starts the line after it, and reads "=" there |
| KconfigExamples.BoolDeclarationParses | scripts/minikconf.py:307-314 | "config FOO\n  bool\n" parses with FOO declared and referenced and nothing else |
| KconfigExamples.UndeclaredDependencyFails | scripts/minikconf.py:116-117 | "config FOO\n  depends on BAR\n" fails with "there were undefined symbols before end of file" |
| KconfigExamples.SelfSourceIsSkipped | scripts/minikconf.py:168-170 | in the top-level file, a directive naming that file is skipped, not an inclusion loop, because the file is included but not on the chain |
| KconfigExamples.SourcingTheIncluderLoops | scripts/minikconf.py:160-166 | a directive naming the file that included the current one is an inclusion loop |
| IommuTypes.IntervalCmp | hw/virtio/virtio-iommu.c:70-82 | returns -1 iff a.high < b.low, 1 iff b.high < a.low (and not the first case), and 0 iff the closed intervals overlap |
| IommuTypes.IntervalCmpAntisymmetric | hw/virtio/virtio-iommu.c:70-82 | on well-formed intervals a compares below b exactly when b compares above a |
| IommuTypes.IntervalCmpTransitive | hw/virtio/virtio-iommu.c:70-82 | "below" is transitive, so disjoint intervals form an ordered search tree |
| IommuTypes.IntervalCmpSelf | hw/virtio/virtio-iommu.c:70-82 | an interval compares equal to itself iff it is well formed; an inverted one compares below itself |
| IommuTypes.PointOverlap | hw/virtio/virtio-iommu.c:667-668 | the query [x, x] overlaps exactly the mappings that hold x |
| IommuTypes.IntCmp | hw/virtio/virtio-iommu.c:809-814 | -1, 0 or 1 exactly when a < b, a = b or a > b |
| IommuTypes.IntCmpTotalOrder | hw/virtio/virtio-iommu.c:809-814 | int_cmp is antisymmetric, transitive and zero only on equal ids |
| IommuTypes.OnlySelfOverlaps | hw/virtio/virtio-iommu.c:378 | in a disjoint tree the only key overlapping a key is the key itself, so g_tree_remove through the comparator removes exactly it |
| IommuTypes.PointInOneKey | hw/virtio/virtio-iommu.c:728-730 | an address lies in at most one key of a disjoint tree, so the mapping translate finds is determined |
| IommuTypes.InsertKeepsDisjoint | hw/virtio/virtio-iommu.c:340-359 | inserting a well-formed interval that the lookup found no overlap for keeps the tree disjoint |
| IommuTypes.RemoveKeepsDisjoint | hw/virtio/virtio-iommu.c:378 | removing a key keeps the tree disjoint |
| IommuTables.RemoveFirst | hw/virtio/virtio-iommu.c:155 | QLIST_REMOVE: the list is unchanged when no node holds the value, and one element shorter otherwise |
| IommuTables.RemoveFirstMultiset | hw/virtio/virtio-iommu.c:155 | exactly one occurrence is removed and everything else kept |
| IommuTables.RemoveFirstAt | hw/virtio/virtio-iommu.c:869-875 | removing the node found at index i, with no earlier node holding the same device, is the list without index i |
| IommuTables.RemoveFirstNoDuplicates | hw/virtio/virtio-iommu.c:155 | on a list without duplicates, the value is gone, every other element stays, and there are still no duplicates |
| IommuTables.OnListPointsBack | hw/virtio/virtio-iommu.c:140-158 | under the invariant, an endpoint on a domain's list has that domain |
| IommuTables.UnattachedOnNoList | hw/virtio/virtio-iommu.c:140-158 | under the invariant, an unattached endpoint is on no list |
| IommuTables.DetachKeepsValid | hw/virtio/virtio-iommu.c:140-158 | unlinking an attached endpoint and clearing its domain keeps the invariant |
| IommuTables.AttachKeepsValid | hw/virtio/virtio-iommu.c:280-283 | linking an unattached endpoint at the head of a list and setting its domain keeps the invariant |
| IommuTables.DropDomainKeepsValid | hw/virtio/virtio-iommu.c:208-218 | a domain with an empty list can leave the tree, and no endpoint points at it |
| IommuTables.UnlinkElsewhere | hw/virtio/virtio-iommu.c:140-158 | removing an endpoint from any list other than its own domain's changes nothing |
| IommuTables.AttachShape | hw/virtio/virtio-iommu.c:259-296 | after attach the domain exists and its list is headed by the endpoint, every other list lost only that endpoint, and no mapping tree changes |
| IommuTables.AttachOnNoOtherList | hw/virtio/virtio-iommu.c:259-296 | after attach the endpoint is on no list other than that of the requested domain |
| IommuTables.NewEndpointKeepsValid | hw/virtio/virtio-iommu.c:160-174 | a new unattached endpoint keeps the invariant |
| IommuTables.NewDomainKeepsValid | hw/virtio/virtio-iommu.c:188-206 | a new empty domain keeps the invariant |
| IommuTables.RemovedAsWrittenExact | hw/virtio/virtio-iommu.c:378 | in a disjoint tree, g_tree_remove of a well-formed key that is present removes exactly that key |
| IommuTables.InvertedKeyStays | hw/virtio/virtio-iommu.c:378 | an inverted key compares below itself, so g_tree_remove of it leaves it in the tree |
| IommuTables.MapAdmitsKeepsRemovable | hw/virtio/virtio-iommu.c:340-359 | an interval the corrected map admits keeps the tree disjoint, and removing it through the comparator gives back the old tree |
| IommuTables.InvertedMappingHangsUnmap | hw/virtio/virtio-iommu.c:320-359 | map as written admits [10, 5]; unmap [0, 20] then finds it within range, but removal leaves the tree unchanged and the loop condition true (see Findings) |
| IommuTables.IommuState.constructor | hw/virtio/virtio-iommu.c:884-927 | empty endpoint and domain trees and notifier list, satisfying the invariant |
| IommuTables.IommuState.GetEndpoint | hw/virtio/virtio-iommu.c:160-174 | an existing endpoint is returned as is; a missing one is created unattached; the invariant is kept |
| IommuTables.IommuState.GetDomain | hw/virtio/virtio-iommu.c:188-206 | an existing domain is returned as is; a missing one is created with no mappings and no endpoints |
| IommuTables.IommuState.DetachEndpointFromDomain | hw/virtio/virtio-iommu.c:140-158 | the endpoint leaves its domain's list and its domain is cleared; nothing else changes |
| IommuTables.IommuState.PutDomain | hw/virtio/virtio-iommu.c:208-218 | the loop detaches every endpoint on the list, so exactly the endpoints attached to the domain become unattached and the domain is gone |
| IommuTables.IommuState.LeaveDomain | hw/virtio/virtio-iommu.c:270-277 | an attached endpoint is detached first; an unattached one is left alone |
| IommuTables.IommuState.Attach | hw/virtio/virtio-iommu.c:259-296 | returns OK; the endpoint's domain is the requested one; the domain tree is the old one with the endpoint unlinked and then put at the head of the (possibly new) domain's list |
| IommuTables.IommuState.Detach | hw/virtio/virtio-iommu.c:298-318 | NOENT for an unknown endpoint and INVAL for an unattached one, both changing nothing; otherwise OK, with the endpoint unlinked and its domain cleared |
| IommuTables.IommuState.Map | hw/virtio/virtio-iommu.c:320-371 | NOENT for an unknown domain; INVAL for an inverted range (corrected) or a range overlapping a mapping, both changing nothing; otherwise OK and exactly one new entry, with the tree still disjoint |
| IommuTables.IommuState.RemoveMapping | hw/virtio/virtio-iommu.c:373-391 | exactly the given key leaves the domain's tree |
| IommuTables.IommuState.Unmap | hw/virtio/virtio-iommu.c:393-433 | NOENT for an unknown domain; otherwise only mappings within the range are removed, every mapping that does not overlap stays, OK means no remaining mapping overlaps the range, and RANGE means an overlapping mapping not within the range is still there |
| IommuTables.IommuState.NotifyFlagChanged | hw/virtio/virtio-iommu.c:854-882 | a region going from no notifier to some gets a node at the head; one going to none loses its first node; any other change leaves the list alone |
| IommuTranslate.PermissionFault | hw/virtio/virtio-iommu.c:740-746 | the READ bit is set iff a read is asked for and the mapping lacks MAP_F_READ, likewise WRITE; zero iff the mapping allows every access asked for |
| IommuTranslate.FirstReserved | hw/virtio/virtio-iommu.c:698-712 | the first reserved region holding the address, or None iff no region holds it |
| IommuTranslate.TranslateQueryFindsHolder | hw/virtio/virtio-iommu.c:728-730 | the lookup on [addr, addr] finds a mapping iff some mapping holds the address |
| IommuTranslate.TranslatedInTarget | hw/virtio/virtio-iommu.c:756 | a translated address lies at the same offset in the physical range as the address in the mapping, when that range does not wrap |
| IommuTranslate.Translate | hw/virtio/virtio-iommu.c:652-763 | each case of translate in order: unknown endpoint (bypass or UNKNOWN fault), first reserved region (MSI passes, RESERVED faults with MAPPING), no domain (bypass or DOMAIN fault), no mapping (MAPPING fault), a permission fault (MAPPING with the fault flags plus ADDRESS), otherwise addr - low + phys with the permission asked for; a fault leaves the identity entry with no permission |
| IommuTranslate.AddrPlusOneHitsNextMapping | hw/virtio/virtio-iommu.c:667-668 | the source's query [0xfff, 0x1000] finds the mapping [0x1000, 0x1fff], which does not hold 0xfff, and would translate to 0x7fff (see Findings) |
| IommuProbe.LittleEndianRoundTrip | hw/virtio/virtio-iommu.c:450-453 | reading back the little-endian bytes of a value that fits gives the value |
| IommuProbe.EncodeResvMem | hw/virtio/virtio-iommu.c:448-455 | one property is 24 bytes |
| IommuProbe.EncodeResvMemsAt | hw/virtio/virtio-iommu.c:448-459 | the property of region i sits at byte 24·i |
| IommuProbe.ResvMemRoundTrip | hw/virtio/virtio-iommu.c:448-455 | a property decodes to type RESV_MEM, length 20, the low byte of the region's type, its start and its end |
| IommuProbe.ProbeRoundTrip | hw/virtio/virtio-iommu.c:469-487 | the properties followed by the NONE property decode to the reserved regions, in order |
| IommuProbe.FillResvMemProp | hw/virtio/virtio-iommu.c:435-462 | -ENOSPC with the buffer untouched when 24·n exceeds the free space; otherwise exactly the n properties are written at the start, the rest is untouched, and 24·n is returned |
| IommuProbe.Probe | hw/virtio/virtio-iommu.c:469-488 | INVAL with the buffer untouched when the properties do not fit in 512 - 4 bytes; otherwise OK, with the properties followed by the NONE property |

## Left out

- File reading, `print`, the `__main__` command line, and the real
  `os.path` functions are not modelled. The files are a map from path to
  contents. `abspath`, `dirname` and `join` are function-valued fields of
  `PathEnv`. A file that cannot be opened is one missing from the map.
- Python's recursion limit is modelled as a `depth` fuel on includes. When
  the fuel runs out, the parse ends with `RecursionLimit`. The fuel bound
  leaves unmodelled how deep a real interpreter gets.
- `do_assignment`, `do_default`, `do_depends_on` and `do_select` do nothing
  in the source. They are modelled as methods with empty bodies and no
  contract. Expression values are never computed.
- KconfigParsing.KconfigParser.DoInclude: the frame records the line of the
  token after the `source` directive, because `get_token` runs before
  `do_include`. This follows the code.
- KconfigParsing.KconfigParser.DoInclude: when the included file fails to
  parse, the frame is not popped. The code only restores `incl_info` after
  a successful parse, and the model follows it.
- KconfigParsing.KconfigParser.ParseFile: it does not state which later
  files are added to `previously_included`. It states only that its own
  absolute name is appended and that the list only grows.
- KconfigParsing.KconfigParser.ScanToken: a stray character yields the
  corrected `StrayError`, where lines 416-417 of the source raise KeyError
  (see Findings).
- KconfigGrammar.ScanAt: a stray character is the `Stray` outcome, which
  `Lex` turns into the corrected `StrayError`, not the KeyError the source
  raises (see Findings).
- KconfigGrammar.Lex: as for ScanAt, a stray character gives the corrected
  `StrayError`.
- The virtqueue handling, `report_fault` and the guest-memory copies are
  not modelled. A fault is returned as a value instead of being queued.
- `notify_map`, `notify_unmap`, `mapping_map`, `mapping_unmap`, `remap` and
  `replay` are not modelled. They are callbacks into the memory API and
  change none of the tables.
- GTree reference counting (`g_tree_ref` and `g_tree_unref`) and the mutex
  are not modelled. The model is sequential.
- Migration, QOM registration, `get_config`/`set_config`,
  `get_features`/`set_features`, `find_add_as`, and the `addr_mask` of the
  TLB entry are not modelled. Tracing and logging are left out too.
- `put_endpoint`, the destructor of the endpoint tree, is left out. Nothing
  in the modelled requests removes an endpoint.
- IommuTables.IommuState.Detach: the requested domain id is not consulted,
  as in the source, which detaches from whichever domain the endpoint has.
- Notifier nodes are device handles. The sid matching of `attach`, `map`
  and `remove_mapping` against the notifier list only drives the left-out
  callbacks.
- A tree lookup through `interval_cmp` is modelled by its outcome, some
  overlapping key, rather than by the search path. This is exact for the
  disjoint, well-formed trees the invariant keeps. `g_tree_remove` is the
  relation `RemovedAsWritten`: at most one node comparing equal to the key
  goes, and which one depends on the tree's shape, which is not modelled.
- The `ReservedRegion` type and the VIRTIO probe structures are declared in
  headers that are not part of this model. Their layout follows section
  5.13.6.8 of the VIRTIO 1.2 specification on a little-endian host.

## Findings

| source | as written | input that shows it | evidently intended | confidence | as-written member | corrected member |
|---|---|---|---|---|---|---|
| scripts/minikconf.py:416-417 | the stray-character error is raised with no token, so the constructor takes `parser.tok`, which still holds the character, and `TOKENS[char]` raises KeyError | the source line `$` | a KconfigParserError `Stray "$"` at the character's location | high (reasoned from the code, not executed) | KconfigLexicon.StrayCharacterRaisesKeyError | KconfigLexicon.StrayError |
| hw/virtio/virtio-iommu.c:320-359 | MAP does not check that virt_start <= virt_end, so an inverted interval enters the tree; `interval_cmp` ranks it below itself, so `g_tree_remove` never finds it, and UNMAP of a range that contains it loops forever holding the mutex | MAP domain d, [10, 5], then UNMAP d, [0, 20] | refuse an inverted range with INVAL | medium (reasoned from the code, not executed) | IommuTables.InvertedMappingHangsUnmap | IommuTables.IommuState.Map |
| hw/virtio/virtio-iommu.c:667-668 | translate looks up [addr, addr + 1], which also overlaps a mapping starting at addr + 1 | one mapping [0x1000, 0x1fff] to 0x8000, and an access at 0xfff | [addr, addr], so only a mapping holding addr is found | medium (reasoned from the code, not executed) | IommuTranslate.AddrPlusOneHitsNextMapping | IommuTranslate.Translate |

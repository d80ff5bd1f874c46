# OAD in Dafny

A Dafny model of the parts of OAD (an open authorization directory written in Go) that hold
parsers, translations, protocols and state machines, with proofs of what they promise.
`dafny verify dfyconfig.toml` checks all of it.

Six groups of modules:

- **SCIM filters.** `ScimLexer`, `ScimGrammar`, `ScimParser`, `ScimParserProofs`: the on-demand lexer and the
  recursive-descent parser for the subset of section 3.4.2.2 of RFC 7644, proved sound and complete against an
  unambiguous grammar. `ScimErrors`: where a filter is refused and why. `ScimStrings`: which string literals
  are read. `ScimWords`: the words of the language.
  `ScimPrinter`: the round trip. `ScimPath`: the scanner for PATCH paths (section 3.5.2 of RFC 7644), which
  must agree with the lexer about quoting; `ScimPathProofs`: which texts are paths. `Like`, `Placeholders`,
  `FilterSql`: the translation to SQL text. `SqlText` reads and evaluates such text on its own, with
  three-valued logic; `FilterSqlProofs`, `FilterMeaning` and `FilterTables` prove that reading the emitted and
  spliced text selects exactly the rows on which the filter is true. `FilterAnswers` computes the columns from
  the database and says which stored users and groups that are, without the translation tables; `ActiveFlags`
  that the services keep the columns readable. `FilterPages` says when the pages of the result partition it,
  `PageText` reads the end of the page query.
- **SCIM PATCH.** `ScimPatch` holds what users and groups share: JSON as Go decodes it, and the object that
  stands for several paths at once, whose keys Go visits in any order. `GroupPatch`, `GroupPatchProofs` and
  `UserPatch` are the two interpreters; `PatchLaws`, `GroupPatchLaws` and `UserPatchLaws` say what each
  operation does, by the text of its path and its value.
- **SCIM services.** `GroupStore`: tables, one transaction, the group repository with its membership
  reconciliation. `GroupService`, `GroupServiceProofs`: validate, write, audit, commit. `UserService`,
  `UserServiceProofs`: the same for users, with the invalidation of cached identities; `UserCache`: when one
  call leaves the cache current. `UserCacheRuns`: what hits return over runs of calls.
- **Identity cache.** `IdentityCache` has one function per critical section and the class;
  `IdentityCacheProofs` covers every interleaving, with the resolver called outside the lock;
  `IdentityCacheSequential` one call at a time.
- **Webhooks.** `Webhook`: delivery rows, their selection, the dispatcher. `WebhookProofs`: every run of the
  one dispatcher. `WebhookRetries`: no retry before its time. `WebhookProgress`: no starvation.
- **Entities.** `MergeJson`: the merge of overlay properties; `OverlayList`: the list of overlays for a caller
  of one system. `EntityAudit`, `EntityAuditProofs`: the audited entity service, for which the log is the
  table. `EntityScope`: what each call reports and writes, and in whose system. `EntityUpsert`: importing
  twice.

How things are modelled:

- A string is a sequence of code points. Numbers in filters go through a parameter for `strconv.ParseFloat`,
  UUIDs through a parameter for `uuid.Parse`, schema validation and identity resolution through function
  parameters; the results hold for every such function. Clock readings are parameters.
- A transaction works on its own copy of the tables and replaces them at commit. In the SCIM services each call
  is given the number of statements, BEGIN and COMMIT among them, that the database carries out before it
  fails; a failed statement aborts its transaction, as in PostgreSQL. In the entity service the failing steps are
  an input. Unique indexes, foreign keys and cascades are those of `migrations/000001_initial_schema.up.sql`.
- The iteration order of a Go map is arbitrary: loops over maps pick keys nondeterministically.

What the proofs brought to light; the model follows the code each time:

- The comment at internal/scim/parser/filter.go:170-171 promises a `\uXXXX` escape; `unescape` (lines 201-217)
  rejects it: `ScimStrings.LiteralExactly` says which literals are read, `ScimStrings.CodePointsRejected` that
  none with that escape is. Error positions are offsets in runes where the comment on the error type says
  bytes.
- `shiftPlaceholders` composes except where a number overflows: `Placeholders.ShiftTwice` has the exact
  condition and `Placeholders.ShiftTwiceFails` an input.
- `mergeJSON` panics on a namespace whose value is null: `MergeJson.PanicsExactly`, `MergeJson.NullPanics`. Two
  overlays one after the other differ from their union where a flat entry of the second replaces a namespace of
  the first: `MergeJson.MergeOfUnion` has the exact condition, `MergeJson.UnionFails` an input.
- A caller of one system is promised its own overlay of an entity, but the query takes two rows before that one is
  looked for (internal/overlay/service.go:134-146): `OverlayList.ShownExactly` has the exact condition,
  `OverlayList.ThirdIsMissing` an input.
- An object with two spellings of one attribute can make the result of a PATCH depend on Go's map order:
  `GroupPatchProofs.ResultCanDependOnOrder` and `UserPatch.ResultCanDependOnOrder`; exactly when, is
  `GroupPatchProofs.OpIsDeterministic` and `UserPatch.OpIsDeterministic`.
- A failure of the query for `is_builtin` is passed over (internal/scim/groups/repository.go:196, 340). The
  statement after it then fails, because the transaction is aborted, so the call reports an internal error all the
  same: `GroupStore.Tx.IsBuiltin`, `GroupStore.Tx.Replace`.
- An invalidation can be undone by a call that began to read from the database before it:
  `IdentityCacheProofs.InvalidationHolds`, `IdentityCacheProofs.StaleHit`.
- An invalidation misses the other links of a user with several: `UserCache.OverwriteSafely`,
  `UserCache.DeleteExactly`, `UserCache.SecondLinkStale`. No code here makes a second link: the three inserts
  (internal/scim/users/repository.go:72, internal/scim/groups/repository.go:119, internal/auth/bootstrap.go:130)
  link a new entity each time, and the modelled calls keep one link per entity.
- Provider and subject are joined with a colon, and provider names are not checked for colons
  (internal/config/loader.go:101-125, internal/scim/auth/registry.go:48-62). Where one name is another's with a
  colon and more, two pairs can compose the same external identifier, although internal/scim/users/repository.go:35-38
  says it is unique, so that a user or group is refused as already existing: `GroupStore.ProvidersCollide`,
  `GroupServiceProofs.ConflictExactly`, `UserService.ConflictExactly`. In the same way two pairs can share a cache key
  (`IdentityCacheProofs.KeysCollide`). Two users that the service creates cannot, because the second is refused, so
  a hit for a pair with a link is right for any provider names: `UserCacheRuns.HitsExactly`. A pair without a link
  can hit and get the identity of another provider's user, where the resolver would have refused it:
  `UserCacheRuns.UnlinkedHit`. A bootstrapped user is not named after its link (internal/auth/bootstrap.go:123), so
  that with it two users can share a key, and one gets the other's identity: `UserCacheRuns.ForeignHit`;
  `UserCacheRuns.UnsharedHits` covers all databases.
- A user or group with two links at one provider would be listed twice with the same sort key, and pages could then
  repeat one of the two rows and leave out the other: `FilterPages.PagesPartition`. As no code makes a second link
  (`GroupServiceProofs.OneLinkStays`), the pages do partition the result: `FilterAnswers.UserPages`,
  `FilterAnswers.GroupPages`.
- `backoffTime` would overflow at attempt 30, and is then the cap at some later attempts and zero or negative at
  the others; the retry limit of five keeps it far from there: `WebhookProofs.BackoffOverflows`,
  `WebhookProofs.BackoffBeyond`.
- Deliveries are not starved as long as attempts are recorded (`WebhookProgress.NoStarvation`). Where fifty older
  ones fail before the request is sent, or their updates are lost, nothing is recorded, and the same batch comes
  again and again: `WebhookProgress.UnrecordedStarves`.

## Model

| member | source | states |
|---|---|---|
| `ScimLexer.Lexer.Next` | internal/scim/parser/filter.go:126-162 | one call consumes exactly one step of the on-demand token stream: it leaves the rest of the stream, or reports the stream's error |
| `ScimLexer.Lexer.ReadString` | internal/scim/parser/filter.go:172-199 | reads a quoted string with its escapes, or reports the position of the bad escape or of the opening quote |
| `ScimLexer.Lexer.ReadNumber` | internal/scim/parser/filter.go:219-231 | takes the longest run of an optional minus, digits and dots; a lone minus or nothing is an invalid number |
| `ScimLexer.Lexer.ReadIdentOrKeyword` | internal/scim/parser/filter.go:236-258 | takes the longest run of letters, digits and underscores and classifies it as keyword or name, case-insensitively |
| `ScimLexer.Lexer.SkipSpace` | internal/scim/parser/filter.go:164-168 | stops at the first character that is not white space |
| `ScimLexer.KeywordRead` | internal/scim/parser/filter.go:236-258 | each keyword's text is read back as its own token |
| `ScimLexer.LexWithin` | internal/scim/parser/filter.go:126-162 | every token and error position of the stream lies in 0..the length of the input |
| `ScimParser.Parser.ParseOr` | internal/scim/parser/filter.go:269-285 | the loop builds the left-associative "or" of the grammar, or the grammar's first error |
| `ScimParser.Parser.ParseAnd` | internal/scim/parser/filter.go:287-303 | the loop builds the left-associative "and", which binds tighter than "or" |
| `ScimParser.Parser.ParseAtom` | internal/scim/parser/filter.go:305-323 | a parenthesised expression or a comparison, with the error of a missing parenthesis |
| `ScimParser.Parser.ParseComparison` | internal/scim/parser/filter.go:325-365 | attribute, optional sub-attribute, and either "pr" or an operator and a value |
| `ScimParser.Parser.ParseValue` | internal/scim/parser/filter.go:367-401 | a string, number, boolean or null literal |
| `ScimParser.Parse` | internal/scim/parser/filter.go:75-88 | the parser object computes the specified result on every input, and terminates |
| `ScimParserProofs.ParseIffDerives` | internal/scim/parser/filter.go:75-88 | soundness and completeness: the parser accepts the text with tree e exactly when the whole text tokenises and its tokens derive e in the grammar |
| `ScimParserProofs.Unambiguous` | internal/scim/parser/filter.go:269-323 | two derivations with the same tokens are the same: the grammar is unambiguous |
| `ScimParserProofs.ErrorInText` | internal/scim/parser/filter.go:75-88 | every error of every input has a position within the text |
| `ScimErrors.ErrorExactly` | internal/scim/parser/filter.go:269-401 | which error at which position, both directions: the report of a machine with six phases and a depth, at the first token that cannot come next, at an error within a token, or at the end |
| `ScimParserProofs.OrSound` | internal/scim/parser/filter.go:269-285 | what the "or" level accepts is a derivation whose tokens it consumed |
| `ScimParserProofs.OrComplete` | internal/scim/parser/filter.go:269-285 | every "or" derivation is found, whatever follows that does not extend it |
| `ScimPrinter.ParseOfPrint` | internal/scim/parser/filter.go:75-88 | round trip: parsing the fully parenthesised text of a tree gives that tree back, for arbitrary string values |
| `ScimPrinter.PrintStable` | internal/scim/parser/filter.go:75-88 | parse, print, parse is stable for every accepted text |
| `ScimPrinter.StringEndAt` | internal/scim/parser/filter.go:172-217 | the reader recovers every string from its escaped text and stops just after the closing quote |
| `ScimStrings.LiteralExactly` | internal/scim/parser/filter.go:172-217 | which literals are read, with which value, and which error is reported where, both directions: plain characters and the eight escapes, followed by the closing quote, the end of the text, or a backslash that begins no escape |
| `ScimStrings.CodePointsRejected` | internal/scim/parser/filter.go:170-217 | every literal with a backslash and u after such a body is rejected at that escape, against the comment |
| `ScimStrings.CodePointRejected` | internal/scim/parser/filter.go:170-217 | one such literal with its error and position |
| `ScimWords.WordsExactly` | internal/scim/parser/filter.go:236-258 | which words, in any case, are literals, operators and connectives; every other word is a name |
| `ScimWords.BindsExactly` | internal/scim/parser/filter.go:269-303 | three tests without parentheses: "and" binds tighter than "or", and each operator to the left, on the text |
| `ScimWords.LowerExactly` | internal/scim/parser/filter.go:242-242 | lower-casing changes the ASCII capitals, by their code points, and nothing else |
| `ScimWords.Blanks` | internal/scim/parser/filter.go:164-168 | which code points are white space |
| `ScimPath.IndexUnquoted` | internal/scim/parser/path.go:139-162 | finds the first occurrence of a character that is outside quoted strings |
| `ScimPath.CountName` | internal/scim/parser/path.go:58-66 | counts the leading name characters |
| `ScimPath.ContinuePath` | internal/scim/parser/path.go:75-89 | the bracketed filter of a path, with the offset of its error |
| `ScimPath.FinishPath` | internal/scim/parser/path.go:91-113 | the sub-attribute and the trailing text of a path |
| `ScimPath.ParsePath` | internal/scim/parser/path.go:52-114 | the scanner computes the specified path or error on every input |
| `ScimPath.ClosingBracket` | internal/scim/parser/path.go:139-162 | the bracket scanner stops just after any text that the filter lexer tokenises, even if its strings hold brackets, quotes or escapes |
| `ScimPath.PathCarriesFilter` | internal/scim/parser/path.go:52-114 | the two scanners agree: attr[inner].sub is read as the lower-cased names and exactly the filter that inner parses to |
| `ScimPath.PathOfName` | internal/scim/parser/path.go:52-114 | a bare name is the lower-cased attribute |
| `ScimPath.BlankPath` | internal/scim/parser/path.go:52-62 | only a blank path has the empty attribute |
| `ScimPathProofs.PathExactly` | internal/scim/parser/path.go:45-114 | which texts are paths, and which path each is, both directions: up to white space around it, nothing, or an attribute, a bracketed filter that parses or none, and a sub-attribute or none, with no text after it |
| `ScimPathProofs.TrimExactly` | internal/scim/parser/path.go:53-53 | trimming takes away white space at both ends and leaves none there |
| `Like.EscapeIsPerCharacter` | internal/scim/users/filter.go:119-124 | the three sequential replacements equal one escape per character |
| `Like.PatternMeaning` | internal/scim/users/filter.go:103-124 | under the full LIKE matcher the co, sw and ew patterns match exactly the texts that contain, start or end with the value up to folding, whatever wildcards the value holds |
| `Placeholders.ShiftPlaceholders` | internal/scim/users/repository.go:249-276 | the nested index loops compute the specified renumbering, with 64-bit numbers |
| `Placeholders.NumberAfter` | internal/scim/users/repository.go:258-269 | the digits after a dollar are the longest run, and their value is taken modulo 2^64 as a signed number |
| `Placeholders.ShiftJoin` | internal/scim/groups/repository.go:468-495 | renumbering works piece by piece, so splicing and renumbering commute |
| `Placeholders.DollarsJoin` | internal/scim/users/repository.go:249-276 | the placeholders of a joined text are those of its parts in order |
| `Placeholders.ShiftTwice` | internal/scim/users/repository.go:249-276 | renumbering by a and then by b equals renumbering by a+b exactly if no number of the text becomes negative by a, or b is a multiple of 2^64 |
| `Placeholders.ShiftTwiceFails` | internal/scim/users/repository.go:249-276 | on the largest number the composition law fails: the first step wraps around |
| `FilterSql.FilterBuilder.Build` | internal/scim/users/filter.go:52-68 | appends the arguments left to right and returns the text, or the translator's first error |
| `FilterSql.FilterBuilder.BuildAtom` | internal/scim/users/filter.go:70-101 | one condition and its argument, or the error of an unknown attribute, a bad value type or an operator that does not apply |
| `FilterSql.FilterToSQL` | internal/scim/groups/filter.go:22-48 | the whole translation as text and argument list; what the text means is stated by the FilterAnswers rows |
| `FilterSql.ListQueryOf` | internal/scim/users/repository.go:148-185 | splices the fragment after the base condition and lays out the arguments, with limit and offset last |
| `FilterSqlProofs.TextDollars` | internal/scim/users/filter.go:52-101 | the emitted text has the placeholders $1..$n left to right, n the number of arguments, and no other dollar |
| `FilterSqlProofs.TextShift` | internal/scim/groups/repository.go:262-285 | renumbering the emitted text gives the text that numbering from there would have emitted |
| `FilterSqlProofs.ReadText` | internal/scim/users/filter.go:52-101 | the emitted text reads back, by SQL's own grammar, as the condition tree of the filter, whatever follows it |
| `FilterMeaning.EvalFilter` | internal/scim/users/filter.go:52-101 | the condition tree evaluates to the three-valued truth of the filter on the row, if the database accepts every value beside its column, and is rejected otherwise |
| `FilterMeaning.WhereSelects` | internal/scim/users/repository.go:148-165 | the database accepts the spliced WHERE text exactly if it accepts each value beside its column; it then selects a row exactly when it is the provider's row of that type and the filter is true on it |
| `FilterMeaning.UnfilteredSelects` | internal/scim/users/repository.go:148-165 | without filter the WHERE text selects exactly the provider's rows of that type |
| `FilterMeaning.FilterNeverWidens` | internal/scim/users/repository.go:148-165 | whatever a filter selects, the base condition alone selects too, even with "or" on top |
| `FilterMeaning.PagePlaceholders` | internal/scim/users/repository.go:166-185 | after splicing, every placeholder from $1 to OFFSET's indexes its own argument |
| `FilterMeaning.PageDollars` | internal/scim/groups/repository.go:262-300 | the placeholders of the page query are $1 up to the number of its arguments, in order |
| `FilterTables.UserTableFits` | internal/scim/users/filter.go:22-50 | the user attribute table meets what the translation theorems ask of a table |
| `FilterTables.GroupTableFits` | internal/scim/groups/filter.go:22-48 | the group attribute table does too |
| `FilterTables.UserListSelects` | internal/scim/users/repository.go:148-209 | listing users: rejected exactly if a value is; otherwise the rows selected are exactly the provider's users on which the filter is true |
| `FilterTables.GroupListSelects` | internal/scim/groups/repository.go:262-323 | listing groups: likewise |
| `FilterTables.UserPageDollars` | internal/scim/users/repository.go:174-185 | the users' page query numbers its placeholders without gap up to OFFSET's |
| `FilterTables.GroupPageDollars` | internal/scim/groups/repository.go:288-299 | the groups' page query does too |
| `FilterPages.PagesPartition` | internal/scim/users/repository.go:177-185 | pages asked for one after the other contain each selected row once, for every answer the database may give each time, exactly if no two selected rows have the same creation time and entity |
| `FilterPages.PagesOfRows` | internal/scim/users/repository.go:177-185 | the pages of rows of a database partition them exactly if no two are of one entity; always, where no entity has two links |
| `FilterAnswers.UserFilterRefused` | internal/scim/users/filter.go:70-101 | a user filter is refused for exactly its first atom, from left to right, that names none of the six attributes, asks for a part of the active flag, or for a part that is no text |
| `FilterAnswers.UsersAnswered` | internal/scim/users/filter.go:36-46 | for every row of any database: the list query for users is rejected exactly if the database does not take some value of the filter, and otherwise selects the row exactly if it is a user of the provider on which the filter is true, by the attribute names and the stored user name, display name, address, flag, identifier and subject |
| `FilterAnswers.UserPages` | internal/scim/users/repository.go:148-209 | so listing users page by page gives each such user exactly once, exactly if none is listed with two links, and always where no entity has two links |
| `FilterAnswers.GroupFilterRefused` | internal/scim/groups/filter.go:68-99 | likewise for a group filter, with its three attributes |
| `FilterAnswers.GroupsAnswered` | internal/scim/groups/filter.go:36-44 | likewise for the list query for groups |
| `PageText.PageReads` | internal/scim/users/repository.go:174-185 | the end of the page query, read word by word, sorts by creation time and identifier, and its LIMIT and OFFSET are the arguments of those names |
| `ActiveFlags.UsersStay` | internal/scim/users/service.go:50-319 | the user service keeps every stored active flag a truth value, so that its cast in the query does not fail |
| `ActiveFlags.GroupsStay` | internal/scim/groups/service.go:51-345 | the group service does so too |
| `FilterAnswers.GroupPages` | internal/scim/groups/repository.go:262-323 | likewise for groups |
| `ScimPatch.FieldMap` | internal/scim/groups/patch.go:160-165 | decoding into a Go map keeps the last value of each key |
| `ScimPatch.FoldIs` | internal/scim/groups/patch.go:160-182 | an object is invalid if any leaf is, otherwise the supported leaves are applied and the others skipped |
| `ScimPatch.OrderIsIrrelevant` | internal/scim/groups/patch.go:165-182 | if the updates commute on a family of states that they do not leave, any two iteration orders give from a state of the family the same state or the same failure |
| `ScimPatch.AnyOrder` | internal/scim/groups/patch.go:165-182 | updates that commute pairwise on such a family give the same state in every permutation |
| `ScimPatch.VisitKey` | internal/scim/groups/patch.go:165-182 | visiting the keys of a map in any order visits each leaf of the object once |
| `ScimPatch.UnsupportedIsIgnored` | internal/scim/groups/patch.go:166-178 | keys and attributes the service does not support change nothing |
| `ScimPatch.PatchJoin` | internal/scim/groups/patch.go:63-76 | applying a+b is applying a and then, unless that failed, b; error indices shift by the length of a |
| `ScimPatch.PatchKeeps` | internal/scim/groups/patch.go:63-94 | what every update and removal keeps, every patch keeps |
| `ScimPatch.OneOutcomeIff` | internal/scim/users/patch.go:136-158 | an operation has one outcome exactly if it has a path, takes no value, or every order of its object's leaves gives the same |
| `ScimPatch.PatchHasOneOutcome` | internal/scim/groups/patch.go:63-76 | operations with one outcome each make a patch with one result |
| `GroupPatch.MergeLists` | internal/scim/groups/patch.go:252-266 | the loop computes the specified merge |
| `GroupPatch.DedupList` | internal/scim/groups/patch.go:269-283 | the loop computes the specified deduplication |
| `GroupPatch.RemoveFromList` | internal/scim/groups/patch.go:288-302 | the loop computes the specified removal |
| `GroupPatch.MergeIsUnion` | internal/scim/groups/patch.go:252-266 | adding is a union: the old list stays in front, nothing comes twice, only requested members are added |
| `GroupPatch.MergeInOrder` | internal/scim/groups/patch.go:252-266 | new members follow in the order of their first arrival |
| `GroupPatch.DedupIsSet` | internal/scim/groups/patch.go:269-283 | replacing keeps the first occurrence of each member, and a list without duplicates as it is |
| `GroupPatch.RemoveIsDifference` | internal/scim/groups/patch.go:288-302 | removing takes out the first occurrence only and keeps the order; on a list without duplicates it is set difference |
| `GroupPatch.MembersToUuids` | internal/scim/groups/patch.go:234-247 | all identifiers in order, or invalid at the first missing or malformed one |
| `GroupPatch.DecodeMembersValue` | internal/scim/groups/patch.go:208-232 | null is the empty list, then an array of members, then one member; anything else is invalid |
| `GroupPatch.PatchState.SetStringProp` | internal/scim/groups/patch.go:304-311 | sets a string property; null sets it to the empty string |
| `GroupPatch.PatchState.ApplyAdd` | internal/scim/groups/patch.go:96-117 | what an add does to properties and members, or which failure it is, with the visiting order of an object as witness |
| `GroupPatch.PatchState.ApplyReplace` | internal/scim/groups/patch.go:119-140 | likewise for replace, which assigns the member list |
| `GroupPatch.PatchState.ApplyRootObject` | internal/scim/groups/patch.go:160-182 | some order of all leaves explains the result; only an invalid value fails, and the recursion through blank keys ends |
| `GroupPatch.PatchState.ApplyRemove` | internal/scim/groups/patch.go:142-158 | clears the members or drops the one that the filter names, anything else has no target |
| `GroupPatch.PatchState.ApplyOne` | internal/scim/groups/patch.go:78-94 | one operation: path, case-insensitive operation name, and its effect |
| `GroupPatch.ApplyPatch` | internal/scim/groups/patch.go:63-76 | applies the operations in order to a fresh copy, up to the first failure, and leaves its input as it was |
| `GroupPatchProofs.MembersStayDistinct` | internal/scim/groups/patch.go:252-302 | no patch brings duplicates into the member list |
| `GroupPatchProofs.AddThenRemove` | internal/scim/groups/patch.go:252-302 | adding a new member and removing it restores the list |
| `GroupPatchProofs.OrdersAgreeExactly` | internal/scim/groups/patch.go:160-182 | in each state by itself all iteration orders agree exactly if some leaf is invalid, or any two supported leaves agree there: they set different attributes, or the same name, or the same member list after deduplication, or their additions leave that state with the same list in either order |
| `GroupPatchProofs.OpIsDeterministic` | internal/scim/groups/patch.go:78-94 | in each state an operation has one outcome exactly under that condition on its object and the state |
| `GroupPatchProofs.DistinctIsDeterministic` | internal/scim/groups/patch.go:160-182 | objects that name no attribute twice, up to case, meet the condition in every state |
| `GroupPatchProofs.PatchIsDeterministic` | internal/scim/groups/patch.go:160-182 | a patch of operations that meet the condition in every state has one result, whatever Go's map order |
| `GroupPatchProofs.SpellingsCompete` | internal/scim/groups/patch.go:160-182 | two spellings of one attribute in one object: either value may win |
| `GroupPatchProofs.ResultCanDependOnOrder` | internal/scim/groups/patch.go:160-182 | so that operation has no single outcome, for any two different names and in every state |
| `PatchLaws.FieldExactly` | internal/scim/groups/model.go:29-37 | a string field of a decoded object: a string each time its name comes in any case, and the last one that is not null; absent, the empty string |
| `PatchLaws.NamesIgnoreCase` | internal/scim/groups/model.go:29-37 | ASCII field names are the same exactly up to case |
| `PatchLaws.RootOfOne` | internal/scim/groups/patch.go:160-182 | an object with one key, in place of a path, is the operation on that key, but what is not supported changes nothing |
| `GroupPatchLaws.ListsIs` | internal/scim/groups/patch.go:205-248 | which values list which members: an array of member objects with distinct or repeated identifiers, one such object, or null; every other value is invalid |
| `GroupPatchLaws.NameLaw` | internal/scim/groups/patch.go:105-107 | add or replace at displayName, in any case: a text sets that property only, and any other value is invalid |
| `GroupPatchLaws.MembersLaw` | internal/scim/groups/patch.go:108-114 | at members: an addition leaves the old list and then the listed members that are new, once each, in the order in which they come first; a replacement leaves exactly the listed ones, once each; the properties stay |
| `GroupPatchLaws.OtherPathLaw` | internal/scim/groups/patch.go:100-116 | at every other path that is not blank: no target |
| `GroupPatchLaws.ClearLaw` | internal/scim/groups/patch.go:146-150 | removing members leaves none, and the properties |
| `GroupPatchLaws.DropLaw` | internal/scim/groups/patch.go:151-157 | removing members with a filter that parses to value eq an identifier leaves exactly the list without that member, in order, and the properties |
| `GroupPatchLaws.NoRemoveLaw` | internal/scim/groups/patch.go:142-157 | removing at any other path: no target |
| `GroupPatchLaws.QuotedMember` | internal/scim/groups/patch.go:186-203 | the path members[value eq "..."], with quotes and backslashes escaped, names the member of that text |
| `GroupPatchLaws.OtherOpLaw` | internal/scim/groups/patch.go:84-93 | any other operation: no target |
| `UserPatch.PickPrimaryEmail` | internal/scim/users/mapper.go:97-110 | the loop computes the specified choice |
| `UserPatch.PrimaryIsFirstUsable` | internal/scim/users/mapper.go:97-110 | the first primary entry with an address wins; without one the first entry does |
| `UserPatch.PropsMap.SetBoolProp` | internal/scim/users/patch.go:179-186 | sets a boolean property; null sets it to false |
| `UserPatch.PropsMap.SetEmailsFromValue` | internal/scim/users/patch.go:192-210 | stores the address that the array or object stands for, or fails without change |
| `UserPatch.PropsMap.ApplyAdd` | internal/scim/users/patch.go:80-99 | what an add does to the properties, or which failure it is |
| `UserPatch.PropsMap.ApplyReplace` | internal/scim/users/patch.go:101-125 | likewise for replace, including emails[primary eq true].value |
| `UserPatch.PropsMap.ApplyRemove` | internal/scim/users/patch.go:127-134 | removes the primary address and nothing else |
| `UserPatch.PropsMap.ApplyRootObject` | internal/scim/users/patch.go:136-158 | some order of all leaves explains the result |
| `UserPatch.ApplyPatch` | internal/scim/users/patch.go:51-60 | applies the operations in order to a copy, up to the first failure |
| `UserPatch.OrdersAgreeExactly` | internal/scim/users/patch.go:136-158 | all iteration orders agree, in any one state, exactly if some leaf is invalid, or any two supported leaves that set one property set it to the same value |
| `UserPatch.OpIsDeterministic` | internal/scim/users/patch.go:62-78 | an operation has one outcome exactly under that condition on its object |
| `UserPatch.DistinctIsDeterministic` | internal/scim/users/patch.go:136-158 | objects that name no attribute twice, up to case, meet the condition |
| `UserPatch.ResultCanDependOnOrder` | internal/scim/users/patch.go:136-158 | an object with two spellings of the display name and two different values has no single outcome |
| `UserPatch.PatchIsDeterministic` | internal/scim/users/patch.go:136-158 | a patch of deterministic operations has one result, whatever Go's map order |
| `UserPatch.OthersStay` | internal/scim/users/patch.go:51-60 | no patch touches a property other than the four it knows |
| `UserPatchLaws.ChosenIs` | internal/scim/users/mapper.go:97-110 | the address that counts is that of the first primary entry that has one, or else the first entry's |
| `UserPatchLaws.AddressIs` | internal/scim/users/patch.go:185-217 | which values give which address: an array of address objects from which it is chosen, or one address object; every other value is invalid |
| `UserPatchLaws.DisplayNameLaw` | internal/scim/users/patch.go:91-92 | add or replace at displayName: a text sets that property only, null the empty text, and any other value is invalid |
| `UserPatchLaws.UserNameLaw` | internal/scim/users/patch.go:117-118 | replace at userName: likewise |
| `UserPatchLaws.ActiveLaw` | internal/scim/users/patch.go:93-94 | add or replace at active: a truth value sets that property only, null makes it false, and any other value is invalid |
| `UserPatchLaws.EmailsLaw` | internal/scim/users/patch.go:95-96 | add or replace at emails: a value that gives an address sets that property only, and any other is invalid |
| `UserPatchLaws.PrimaryLaw` | internal/scim/users/patch.go:107-110 | replace at emails[primary eq true].value: a text sets the address only |
| `UserPatchLaws.OtherPathLaw` | internal/scim/users/patch.go:80-125 | at every other path that is not blank, and for add also at userName and the primary address: no target |
| `UserPatchLaws.RemoveLaw` | internal/scim/users/patch.go:127-134 | removing emails[primary eq true] takes out the address only; removing anything else: no target |
| `UserPatchLaws.OtherOpLaw` | internal/scim/users/patch.go:68-77 | any other operation: no target |
| `GroupStore.Tx.ValidateMembers` | internal/scim/groups/repository.go:225-260 | one query, if there are candidates: returns, each once, exactly those that are users or groups of the provider, and fails exactly if the query does |
| `GroupStore.Tx.FetchMembers` | internal/scim/groups/repository.go:500-529 | one query: exactly the global members, in order of row creation and then of identifier; fails exactly if the query does |
| `GroupStore.Tx.GetByEntityId` | internal/scim/groups/repository.go:151-182 | the provider's own group, or not found; an internal error exactly if one of its queries fails |
| `GroupStore.Tx.Create` | internal/scim/groups/repository.go:86-149 | inserts entity, link and member rows, or reports a collision exactly if there is one; an internal error exactly if one of its statements fails |
| `GroupStore.Tx.Replace` | internal/scim/groups/repository.go:325-394 | rewrites properties and members of the provider's own group; refuses built-in groups and finds no others; an internal error exactly if one of its statements fails |
| `GroupStore.Tx.IsBuiltin` | internal/scim/groups/repository.go:333-342 | the query whose failure is passed over: it then counts as not built in, and the transaction is aborted |
| `GroupStore.Tx.ReconcileMembers` | internal/scim/groups/repository.go:400-463 | the member rows become exactly the wanted ones, kept rows keep their creation time, all other rows stay, in any deletion order; beside one query it takes exactly as many statements as the two sets differ, and it fails exactly if one of them does or a new member is unknown or repeated |
| `GroupStore.Tx.DeleteObsolete` | internal/scim/groups/repository.go:434-448 | deletes the rows of exactly the members that are no longer wanted, with one statement each |
| `GroupStore.Tx.InsertNew` | internal/scim/groups/repository.go:450-461 | inserts rows for exactly the new members, with one statement each; fails exactly on a failed statement or a repeated or unknown new member |
| `GroupStore.Tx.Delete` | internal/scim/groups/repository.go:184-223 | drops the provider's link, and entity and relations with the last link; refuses built-in groups and finds no others; an internal error exactly if one of its statements fails |
| `GroupStore.ReconciledOnce` | internal/scim/groups/repository.go:400-463 | the reconciliation property determines the whole relation table |
| `GroupStore.ExternalIdsCollide` | internal/scim/groups/repository.go:82-84 | two provider and subject pairs compose the same external identifier exactly if they are the same, or one provider's name continues the other's with a colon and the rest of it begins the other's subject |
| `GroupStore.ProvidersCollide` | internal/scim/users/repository.go:35-41 | two providers can share an external identifier exactly if one name is the other with a colon and more |
| `GroupService.ParseMemberIds` | internal/scim/groups/service.go:362-380 | the loop computes the specified list or failure |
| `GroupService.ParsedIff` | internal/scim/groups/service.go:362-380 | a list is accepted exactly if every text is an identifier and none comes twice |
| `GroupService.CountDecides` | internal/scim/groups/service.go:70-78 | comparing lengths decides validity: they agree exactly if the list is free of duplicates and all valid |
| `GroupService.Service.Create` | internal/scim/groups/service.go:51-104 | given how many statements the database carries out, the report and the database afterwards, both exactly: what creation should do if the statements it takes are among them, and otherwise an internal error and no change |
| `GroupService.Service.Replace` | internal/scim/groups/service.go:203-266 | likewise for replacement |
| `GroupService.Service.Patch` | internal/scim/groups/service.go:273-345 | likewise for patches: read, patch, check the name, validate, write |
| `GroupService.Service.Delete` | internal/scim/groups/service.go:121-164 | likewise for deletion |
| `GroupServiceProofs.CreateExactly` | internal/scim/groups/service.go:51-104 | which report a creation gives, error by error, for every number of carried-out statements, and how many it takes; after a success the only new row is a group that is not built in, with the external identifier scim:provider:subject, exactly the requested display name as properties and this time, it has one link and exactly the requested members, and the log has one more entry, with operation, resource, before and after |
| `GroupServiceProofs.ReplaceExactly` | internal/scim/groups/service.go:203-266 | likewise for replacement: only the properties, the update time and the members of the group have changed, and the statements are ten, one for each row that differs, and one for the check of a non-empty list |
| `GroupServiceProofs.PatchExactly` | internal/scim/groups/service.go:273-345 | likewise for patches, which start from the members in the order of their rows: success leaves exactly the patched properties, with a name, and the patched list, all valid, without duplicates |
| `GroupServiceProofs.DeleteExactly` | internal/scim/groups/repository.go:184-223 | likewise for deletion, which takes eight statements: the provider's link goes, and with the last link the entity and the relations at either end |
| `GroupServiceProofs.WritesAreMinimal` | internal/scim/groups/repository.go:396-463 | the tables differ in as many rows as the member sets do, so fewer writes cannot do, and reconciliation makes no more |
| `GroupServiceProofs.ReconcileTwice` | internal/scim/groups/repository.go:400-463 | reconciling again with the same members changes nothing |
| `GroupServiceProofs.ConflictExactly` | internal/scim/groups/repository.go:101-127 | after one creation a second is refused as already existing exactly if the two pairs compose the same external identifier |
| `GroupServiceProofs.OneLinkStays` | internal/scim/groups/repository.go:119-127 | creation, replacement and deletion keep one link per entity |
| `IdentityCache.Cache.LookupStep` | internal/auth/cache.go:43-55 | the first critical section: a live entry moves to the front and is returned, an expired one is removed |
| `IdentityCache.Cache.StoreStep` | internal/auth/cache.go:62-74 | the second critical section: evict while full, then insert at the front |
| `IdentityCache.Cache.InvalidateStep` | internal/auth/cache.go:81-89 | removes the entry of the key from map and list |
| `IdentityCache.Cache.Resolve` | internal/auth/cache.go:40-77 | an undisturbed call: a hit, or the resolver's answer, which is stored unless it is an error |
| `IdentityCacheProofs.EveryRun` | internal/auth/cache.go:40-89 | over every interleaving of calls, each map entry points to a list element with its key, the list never exceeds max(1, capacity), and every stored value was an answer for its key |
| `IdentityCacheProofs.HitsAreFresh` | internal/auth/cache.go:43-52 | every hit returns a value the resolver gave for that key and whose expiry has not passed |
| `IdentityCacheProofs.InvalidationHolds` | internal/auth/cache.go:79-89 | after an invalidation every hit in every continuation was read since, from the first read on, exactly if no other call has begun to read for the key without having stored its answer |
| `IdentityCacheProofs.StaleHit` | internal/auth/cache.go:57-74 | from an empty cache: a call begins to read, an invalidation, the answer stored and hit |
| `IdentityCacheProofs.OrphanPossible` | internal/auth/cache.go:62-74 | list elements without a map entry do occur |
| `IdentityCacheProofs.KeysCollide` | internal/auth/cache.go:41-41 | two pairs share a key exactly if they are the same, or one provider's name continues the other's with a colon and the rest of it begins the other's subject |
| `IdentityCacheSequential.AlwaysBijection` | internal/auth/cache.go:40-89 | one call at a time, map and list are in bijection |
| `IdentityCacheSequential.ApplyRefines` | internal/auth/cache.go:40-89 | one call at a time, the cache is a pure list of keys in order of use with a time to live |
| `IdentityCacheSequential.ListIsByUse` | internal/auth/cache.go:40-89 | the list is in order of last use |
| `IdentityCacheSequential.EvictsLeastRecentlyUsed` | internal/auth/cache.go:63-70 | a full cache evicts exactly the key that was used longest ago |
| `UserService.GetByEntityId` | internal/scim/users/repository.go:86-111 | the provider's own user with one of its subjects, or not found; an internal error exactly if the query fails |
| `UserService.InsertUser` | internal/scim/users/repository.go:43-84 | inserts entity and link, or reports a collision exactly if there is one; an internal error exactly if a statement fails |
| `UserService.UpdateUser` | internal/scim/users/repository.go:215-244 | rewrites the properties of the provider's own user, or finds none; an internal error exactly if the statement fails |
| `UserService.DeleteUser` | internal/scim/users/repository.go:113-141 | drops the provider's links, and entity and relations with the last one; an internal error exactly if a statement fails |
| `UserService.Service.Create` | internal/scim/users/service.go:50-88 | given how many statements the database carries out, the report and the database afterwards, both exactly: what creation should do, or an internal error and no change |
| `UserService.Service.Replace` | internal/scim/users/service.go:149-205 | likewise, and exactly after a commit the cached identity of the subject that was read is dropped |
| `UserService.Service.Patch` | internal/scim/users/service.go:212-276 | likewise for patches |
| `UserService.Service.Delete` | internal/scim/users/service.go:281-319 | likewise for deletion |
| `UserService.ConflictExactly` | internal/scim/users/repository.go:35-64 | after one creation a second is refused as already existing exactly if the two pairs compose the same external identifier |
| `UserServiceProofs.CreateExactly` | internal/scim/users/service.go:50-88 | which report a creation gives, error by error, for every number of carried-out statements; after a success the only new row is the user's, with the external identifier scim:provider:subject, the requested user name, the flag, which is true by default, the display name or else the formatted name, and the address that counts, it has one link, and the log has one more entry |
| `UserServiceProofs.ReplaceExactly` | internal/scim/users/service.go:149-205 | likewise for replacement: only the properties and the update time of the user have changed |
| `UserServiceProofs.PatchExactly` | internal/scim/users/service.go:212-276 | likewise for patches: success leaves exactly the patched properties, with a text as user name |
| `UserServiceProofs.DeleteExactly` | internal/scim/users/repository.go:113-141 | likewise for deletion: the provider's links go, and with the last link the user and the relations at either end |
| `UserCacheRuns.ResolveKeeps` | internal/auth/cache.go:40-77 | for any provider names: resolving keeps each cached identity the present answer of some link with its key |
| `UserCache.ResolveExactly` | internal/auth/cache.go:40-77 | for any provider names: the cache stays current exactly if the resolver gives the same answer to every pair that shares the key |
| `UserCache.CreateKeeps` | internal/scim/users/service.go:50-88 | creating a user needs no invalidation |
| `UserCache.OverwriteExactly` | internal/scim/users/service.go:189-195 | after Replace or Patch every cached identity is current exactly if no other cached link of the user has a new answer |
| `UserCache.OverwriteSafely` | internal/scim/users/service.go:260-266 | Replace and Patch leave the cache current for every resolver exactly if no other link of the user is cached or the properties are unchanged |
| `UserCache.SecondLinkStale` | internal/scim/users/service.go:189-195 | a user with two cached links: overwriting it through the one leaves an outdated identity under the other |
| `UserCache.DeleteExactly` | internal/scim/users/service.go:310-316 | after Delete every cached identity is current exactly if the user has no other cached link at that provider |
| `UserCacheRuns.HitsAreGrounded` | internal/auth/cache.go:40-89 | over every sequential run from a fresh cache, with one link per entity and any provider names, each hit is the present answer of some link with the same key |
| `UserCacheRuns.UnsharedHits` | internal/scim/users/service.go:189-195 | so where no two links share the key at that moment, each hit is what the resolver would answer exactly if the pair has a link |
| `UserCacheRuns.OwnKeys` | internal/scim/users/repository.go:35-64 | where each link is that of a user named after it, as the service creates them, no two links share a key, because the second user is refused |
| `UserCacheRuns.HitsExactly` | internal/scim/users/service.go:189-195 | from such users, over every sequential run and for any provider names, each hit is what the resolver would answer at that moment exactly if the pair has a link |
| `UserCacheRuns.HitsAreCurrent` | internal/scim/users/service.go:189-195 | where no provider's name continues another's with a colon, each hit is what the resolver would answer, for every pair and with links of any kind |
| `UserCacheRuns.UnlinkedHit` | internal/auth/cache.go:41-52 | from the empty database, where one name continues another's with a colon: one user is created and resolved, and a pair without a link hits and gets that user's identity |
| `UserCacheRuns.ForeignHit` | internal/auth/bootstrap.go:108-141 | after the bootstrap of an administrator, where one name continues another's with a colon: a user created at the other provider hits the administrator's identity in place of its own |
| `Webhook.Dispatcher.Enqueue` | internal/webhook/dispatcher.go:93-135 | all pairs become pending rows in one transaction, or none does |
| `Webhook.Dispatcher.FindPending` | internal/webhook/repository.go:207-219 | the oldest eligible deliveries, each once, as many as there are up to the limit |
| `Webhook.Dispatcher.Attempt` | internal/webhook/dispatcher.go:184-241 | the row after one attempt; a lost update changes nothing |
| `Webhook.Dispatcher.Dispatch` | internal/webhook/dispatcher.go:138-147 | the rows after a whole batch, attempt by attempt |
| `WebhookProofs.EveryRun` | internal/webhook/dispatcher.go:93-242 | over every run with lost updates, restarts and deleted subscriptions: one row per audit entry and subscription, pending means no attempts, failed with a retry time 1 to 4, failed without one exactly 5 |
| `WebhookProofs.FinalIsAbsorbing` | internal/webhook/repository.go:207-257 | delivered and exhausted rows never change again |
| `WebhookProofs.CounterIsExact` | internal/webhook/dispatcher.go:184-233 | the stored counter is the number of recorded attempts, at most five |
| `WebhookProofs.BackoffExact` | internal/webhook/dispatcher.go:259-266 | up to attempt 29 the machine arithmetic gives exactly 30 s doubled per attempt, capped at 24 h |
| `WebhookProofs.BackoffOverflows` | internal/webhook/dispatcher.go:259-266 | at attempt 30 the product overflows and the delay is negative |
| `WebhookProofs.BackoffBeyond` | internal/webhook/dispatcher.go:259-266 | from attempt 30 to 63 the delay is the cap exactly at ten attempts, and otherwise zero or negative |
| `WebhookProofs.RetryIsScheduled` | internal/webhook/dispatcher.go:184-233 | a recorded failure below the maximum is retried exactly 30*2^(n-1) s later; nothing else is |
| `WebhookRetries.RetryWaits` | internal/webhook/repository.go:216-217 | over every run: a delivery selected after its n-th attempt was refused, with none recorded in between, has waited 30, 60, 120 or 240 s for n = 1 to 4; after the fifth it is never selected |
| `WebhookRetries.AttemptWaits` | internal/webhook/dispatcher.go:184-211 | over every run whose clock does not run backwards: every later attempt, recorded or not, comes after that delay |
| `WebhookRetries.ExhaustedLate` | internal/webhook/dispatcher.go:184-233 | so a delivery is given up no sooner than 450 s after its first attempt |
| `WebhookRetries.TraceOfRun` | internal/webhook/dispatcher.go:85-88 | every run has the sequence of machines that these speak of |
| `WebhookRetries.SelectsDue` | internal/webhook/repository.go:207-219 | selected are exactly pending rows and failed ones whose retry time has come, each once: all of them if they are fewer than fifty, and otherwise none is left out that is older than a selected one |
| `WebhookRetries.ListsUndelivered` | internal/webhook/repository.go:158-172 | listed are exactly pairs of an audit entry of the last 24 hours and an active subscription of its system without a delivery: all of them if they are fewer than a hundred |
| `WebhookRetries.AttemptWrites` | internal/webhook/dispatcher.go:184-233 | a recorded attempt: delivered exactly for the codes 200 to 299, the code is stored, the counter grows by one, and pair and age stay |
| `WebhookProofs.EnqueueCovers` | internal/webhook/repository.go:158-189 | what a committed enqueue left out did not fit and is no older than what it took |
| `WebhookProofs.DispatchIsTries` | internal/webhook/dispatcher.go:138-147 | a dispatched batch is its attempts as single steps of the run model |
| `WebhookProgress.NoStarvation` | internal/webhook/dispatcher.go:138-147 | with recorded attempts and younger arrivals, an eligible delivery with k rivals is passed over by at most 5k/50 batches |
| `WebhookProgress.PassingCosts` | internal/webhook/repository.go:207-219 | every batch that passes it over takes fifty from the rivals' remaining attempts |
| `WebhookProgress.UnrecordedStarves` | internal/webhook/dispatcher.go:138-147 | where no attempt is recorded, one batch that passes an eligible delivery over can be dispatched any number of times |
| `MergeJson.MergeJSON` | internal/retrieval/repository.go:336-393 | with both map loops in any order, the result is the specified merge |
| `MergeJson.Group` | internal/retrieval/repository.go:353-367 | the grouping loop, in any key order |
| `MergeJson.Expand` | internal/retrieval/repository.go:369-386 | the expansion loop, in any namespace order; it writes into a nil map exactly if some namespace is null |
| `MergeJson.TopLevel` | internal/retrieval/repository.go:336-393 | flat overlay entries override, every other key of the base stays |
| `MergeJson.InNamespace` | internal/retrieval/repository.go:336-393 | inside a namespace the overlay's entry wins, the base's other entries stay |
| `MergeJson.PanicsExactly` | internal/retrieval/repository.go:373-375 | exactly which merges copy into a nil map |
| `MergeJson.NullPanics` | internal/retrieval/repository.go:373-375 | base {"a": null} and overlay {"a.b": v} copy into a nil map |
| `MergeJson.Idempotent` | internal/retrieval/repository.go:336-393 | merging the same overlay again changes nothing |
| `MergeJson.MergeOfUnion` | internal/retrieval/repository.go:336-393 | two overlays one after the other are their union at once exactly if both ways panic, or neither does and every flat value of the second that replaces a namespace of the first holds, with the second's own entries, all that it replaces |
| `MergeJson.OverlaidUnion` | internal/retrieval/repository.go:336-393 | the half without panics: a condition on the two overlays alone |
| `MergeJson.NullsAgree` | internal/retrieval/repository.go:373-375 | the half of the panics: under each key one merge and two merges meet the same nulls unless a namespace is replaced there |
| `MergeJson.ApartUnion` | internal/retrieval/repository.go:336-393 | in particular the law holds if the second overlay replaces no namespace of the first |
| `MergeJson.DisjointCommute` | internal/retrieval/repository.go:336-393 | namespaced overlays with disjoint keys commute and equal one merge of both |
| `MergeJson.UnionFails` | internal/retrieval/repository.go:336-393 | a flat entry for a namespace breaks the law |
| `OverlayList.ListByEntity` | internal/overlay/service.go:131-146 | the loop keeps exactly the caller's rows of the two that the query returns, in order |
| `OverlayList.ShownExactly` | internal/overlay/service.go:134-146 | a caller of a system is shown its own overlay of an entity exactly if fewer than two systems before its own have one |
| `OverlayList.NothingElse` | internal/overlay/service.go:113-114 | and no other overlay |
| `OverlayList.ThirdIsMissing` | internal/overlay/service.go:134-137 | with overlays of three systems the third one is shown none |
| `EntityAudit.Service.Create` | internal/entity/service.go:43-95 | one row and one audit record in one transaction, or no change and the first error |
| `EntityAudit.Service.Update` | internal/entity/service.go:142-183 | likewise; only properties and update time change |
| `EntityAudit.Service.Delete` | internal/entity/service.go:187-206 | likewise for deletion |
| `EntityAudit.Service.CreateOrUpdate` | internal/entity/service.go:254-299 | created, updated or failed, as the existing row decides |
| `EntityAudit.Service.BulkCreate` | internal/entity/service.go:211-251 | the loop is the left-to-right fold of its items |
| `EntityAuditProofs.ReplayIsTable` | internal/entity/service.go:79-90 | over every run with arbitrary failures, replaying the audit log gives exactly the entity table |
| `EntityAuditProofs.BeforeIsPreviousAfter` | internal/entity/service.go:166-178 | each entry's before-value is its resource's previous after-value, absent exactly for creations |
| `EntityAuditProofs.LogGrows` | internal/audit/audit.go:51-67 | the log is only appended to |
| `EntityAuditProofs.BulkTotals` | internal/entity/service.go:224-251 | Total = Created + Updated + #Errors, error indices strictly increase, and log and table grow by the counted items |
| `EntityAuditProofs.ErrorsAreFailures` | internal/entity/service.go:229-248 | the errors are exactly the failing items with their errors |
| `EntityScope.CreateExactly` | internal/entity/service.go:43-95 | which error a creation gives, or that it succeeds, by the request, the caller, the type, the schema, the tables and the failing step; the row then has the request's type, external identifier and properties, the caller's system or else the request's, and this time, and the log one more entry |
| `EntityScope.ForbiddenExactly` | internal/entity/service.go:335-345 | a creation is forbidden exactly if name, identifier and type are in order and the request names another system than the caller's |
| `EntityScope.UpdateExactly` | internal/entity/service.go:142-183 | when an update succeeds; it replaces the properties and the update time of the row and nothing else, with its record |
| `EntityScope.DeleteExactly` | internal/entity/service.go:187-206 | when a deletion succeeds; it takes out the row alone, with its record |
| `EntityScope.UpsertExactly` | internal/entity/service.go:254-299 | an upsert is refused for the same reasons, and otherwise updates the row with the key or creates one for the caller's system |
| `EntityScope.BulkWithinScope` | internal/entity/service.go:211-251 | over a bulk request every row that was there keeps its type, key, system and creation time, and every new one is of the caller's system |
| `EntityScope.RowsInScope` | internal/entity/service.go:335-345 | after every run each row is a seeded one, of the same system as then, or was created by a call whose caller, if it is one of a system, is of the row's |
| `EntityScope.OneSystemOnly` | internal/entity/service.go:335-345 | so callers of one system alone create rows of that system only |
| `EntityUpsert.ImportWithoutErrors` | internal/entity/service.go:254-299 | an upsert import without errors is last-writer-wins, and every item has a row |
| `EntityUpsert.UpsertTwice` | internal/entity/service.go:211-299 | importing the same list again creates nothing, updates every item, and changes only update times |

## Left out

- Placeholders.ShiftPlaceholders: works on code points where the code works on bytes; the two agree because only ASCII characters are tested and changed.
- ScimPath.ParsePath: error offsets count code points of the trimmed text where the code counts bytes.
- FilterMeaning.WhereSelects: rows whose column values have the types of the attribute table, and fewer than 2^63 placeholders; how an engine folds case, which values of another type than the column the driver takes, and how such values compare are parameters.
- FilterAnswers.UsersAnswered: every stored active flag is a truth value or null, which the SCIM services keep (`ActiveFlags.UsersStay`) and other writers of entities may not; the cast of any other value fails the query. How PostgreSQL writes identifiers, and properties that are no texts, is a parameter.
- FilterAnswers.UserPages: the rows do not change between the pages; sorting and cutting are stated of the selected rows, with the keys, limit and offset that `PageText.PageReads` finds in the text.
- GroupPatch.ApplyPatch: error texts are not modelled, only the failing operation's index and the class of its failure.
- GroupPatch.PatchState.ApplyOne: operation names are lower-cased by the ASCII letters, which decides equality with the three names.
- GroupStore.Tx.ReconcileMembers: the transaction is alone on its rows; isolation between transactions is not modelled.
- GroupService.Service.Replace: the rendered response with its ETag is not modelled, and the members' cached identities are not invalidated, as in the code.
- UserCacheRuns.HitsExactly: the resolver is a function of the link, the user's properties and the relations that start at the user; changes to groups, which the code leaves to the time to live, are not part of the runs; the links are those of users, and `UserCacheRuns.UnsharedHits` says what holds beside links of groups.
- UserService.Service.Replace: the cache is always there, as cmd/oad/cmd/run.go:160 arranges.
- IdentityCacheProofs.EveryRun: an identity is an immutable value; the middleware that writes through the cached pointer is not modelled.
- Webhook.Dispatcher.Enqueue: a failing insert fails the whole batch, because PostgreSQL has then aborted the transaction.
- Webhook.Dispatcher.FindPending: selected by a search for the oldest row, in place of the database's ORDER BY and LIMIT.
- WebhookRetries.AttemptWaits: the clock of the machine does not run backwards; `WebhookRetries.RetryWaits` does without.
- WebhookProofs.EveryRun: one dispatcher process, as cmd/oad/cmd/run.go:207 starts it; payloads, signatures and the HTTP exchange are reduced to an outcome.
- MergeJson.MergeJSON: values are compared as JSON, not as text, and an object keeps the last value of a repeated key.
- EntityScope.UpsertExactly: row-level security, which hides the rows of other systems from the update inside the transaction, is not modelled.
- EntityAudit.Service.Delete: cascades into overlays and relations, and row-level security, are not modelled; a row that another row names as its system cannot be deleted.
- EntityAudit.Service.Create: the trigger that asks for a row of type System is reduced to the existence of that row.
- EntityUpsert.UpsertTwice: the type definitions and the validator are the same in both imports.
- HTTP handlers, routers, middleware, response writers, logging, metrics, configuration, command line, migrations and the web UI: presentation and plumbing.
- JWT, mTLS, JWKS, HMAC, SHA-256 and ETag values: cryptography.
- Plain CRUD services, role checks, the token registry, seeding and the SCIM tester: they would only add easy members.

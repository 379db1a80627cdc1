# A verified model of the manager server's core logic

CPA Manager keeps a local ledger of the requests that a proxy serves: a manager
server (Go) collects usage events from a queue, imports and prices them,
tells accounts apart, and takes credentials out of rotation while their quota is
used up; a web panel (TypeScript) edits the proxy's YAML configuration. This
project models the parts of it where the logic is hard and proves what they are
for. `dafny verify dfyconfig.toml` checks everything.

| subject | modules | main results |
|---|---|---|
| Import of legacy exports | `LegacyDocument`, `LegacyAgreement`, `LegacyEvents`, `LegacyCounts`, `LegacyImport`, `Ordering` | the streaming walk in document order refines the in-memory walk in sorted order (`StreamRefinesMemory`); both give exactly one event for each accepted detail of the document, with the dictionary places of its keys, and count exactly the places that fail (`MemoryEvents`, `StreamEvents`, `MemoryCounts`); exactly which documents are taken for exports (`AcceptedInFull`) |
| Batching of imported events | `ImportBatcher` | batches concatenate to the events, within both bounds, cut as late as possible (`AddAll`) |
| Capture of one JSON object | `JsonCapture`, `JsonText` | the outcome is decided by the bytes alone, however they arrive and wherever they are kept (`Capture`, `DecidesOne`); every object, whatever its strings hold, is captured to its own last brace (`ObjectEnds`, `ObjectIsCaptured`, `CutObjectIsRefused`) |
| The size contract of JSONL lines | `JsonlRecords` | independent of chunking; both implementations accept the same lines (`ReadRecords`, `PathsAgree`) |
| Account keys | `GoText`, `AccountIdentity`, `AccountKeys` | the encoding is injective; Codex credentials never merge (`EqualKeysSameIdentity`, `CodexCredentialsStaySeparate`) |
| Account keys in SQL | `SqlIdentity`, `SqlEvaluation`, `SqlAgreement` | the generated CASE expression computes the Go key exactly when the columns that decide the key trim alike (`KeysAgreeExactly`), so on every row whose outer white space is blanks (`SqlMatchesGo`) |
| Visual configuration | `YamlTree`, `ConfigPaths`, `ConfigSave`, `ConfigLens`, `ConfigForm`, `ConfigCompletes`, `ConfigCleanup`, `ConfigOutcome`, `ConfigFields`, `ConfigDirty`, `Decimals` | the save always goes through, writes only for the sake of dirty fields and leaves sections it does not know alone and no empty group behind (`NothingThrows`, `OnlyForDirty`, `UnknownSectionsSurvive`, `EmptyGroupsGo`); after it every field of the form reads as its edit says and every other as before (`FieldAfterSave`, `FormAfterSave`); field by field, flags, rules, lists, choices and keys read back as they were set (`FlagReadsBack`, `RulesReadBack`, `ListsReadBack`, `SecretKeyReadsBack`, `ClientKeysReadBack`) and switches, texts and numbers exactly under a stated condition (`SwitchShows`, `TextShows`, `NumberShows`, `SavedPanelRepository`) |
| Quota cooldowns | `QuotaWorld`, `QuotaCooldown`, `QuotaSafety`, `QuotaRuns`, `QuotaEffects`, `QuotaTimer`, `QuotaCandidates`, `QuotaLosses`, `QuotaForeign`, `QuotaExamples`, `QuotaWorker` | safety over every run with arbitrary failures and interference (`EnablesWereEarned`, `UnownedDisablesStay`, `ActiveRowsReflect`, `TimersWait`); exactly when somebody else's disable is undone (`UndoesForeignDisableExactlyWhen`); exactly when an operation leaves a credential disabled without a row, and that nothing else does in any run (`HandleLosesExactly`, `RecoverLosesExactly`, `LossHasCause`); a tick lists the soonest due cooldowns, all of them up to a hundred, and when its calls succeed each ends with its credential enabled (`ListDueExactly`, `TickRecoversDue`); what a candidate about an enabled and about a disabled credential does (`EnabledIsTakenDown`, `DisabledIsExtended`), and what the compensations restore (`FailedRecordIsUndone`, `FailedMarkIsUndone`) |
| Collector lifecycle | `CollectorLifecycle` | at most one queue consumer in every interleaving; StopAndWait is a fence (`OneConsumer`, `FencedConsumersNeverPop`); whoever holds the lock can be out of it in six steps, so nobody waits for it in vain (`ComesOut`, `LockIsReleased`, `OnlyTheLockBlocks`) |
| Pricing coverage | `CoverageTotals`, `PricingCoverage`, `AccountCoverage` | unlisted accounts carry exactly the core totals whatever the recovery returns (`LoadAccountSnapshot`) |
| Price rules | `ModelPriceRules`, `BandPricing`, `ServiceTiers`, `PriceStructure` | pricing per band and per side of the long-context threshold against pricing per request (`BandTotalsPriceAlike`, `LongTotalsPriceAlike`); the hashed bytes tell structures apart exactly (`StreamsTellStructure`) |
| RESP codec | `Resp`, `RespReplies`, `Decimals` | printer and parser are inverse on streams (`CommandReads`, `StreamReads`, `EncodingIsPrefixFree`); every reply a server sends, nested to any depth, reads as what it means (`ReplyReads`, `RefusalEndsArray`) |
| Derived-task scheduler | `DerivedTasks` | round robin with bounded waiting (`FirstFiveGoAround`, `PickedWithinFive`, `IdleExactly`) |

Conventions. A Go string is a `string` whose characters are its bytes; `Bytes`
says so where it matters. JSON values are ordered members, the YAML document is
a tree of maps and leaves. A call that leaves the program has its outcome as a
parameter: it succeeds, fails without effect, or fails although it took effect.
Code that changes things step by step is a method or a class here, proved
against a function of its inputs or of its old state; the laws are lemmas about
those functions.

## Where the code and its promises differ

- **Manual disables.** The comment at `rate_limit_auto_disable.go:38-44` says
  that recovery never re-enables pre-existing or manual disables. It holds for
  credentials that were disabled before the worker looked: one that is not
  enabled and that no active row belongs to stays so until somebody else enables
  it, in every run (`QuotaForeign.UnownedDisablesStay`); what the worker enables
  it saw enabled and disabled itself (`QuotaRuns.EnablesWereEarned`). It fails
  for a disable made after the look, be it before the worker's own request or
  while its row is active: `QuotaForeign.UndoesForeignDisableExactlyWhen` and the
  conditions of its operations say exactly when, and
  `QuotaExamples.RacingDisableIsUndone` and `DisableByHandIsUndone` are runs. The
  reason is `QuotaRuns.ManualDisableIsNotToldApart`: nothing the worker looks at
  differs.
- **Lost ownership.** A credential can stay disabled without a row: when the
  disable request reported an error although it took effect, when the row was
  not stored and the rollback failed, or when closing the row reported an error
  although it took effect and the compensating disable took effect too.
  `QuotaLosses.HandleLosesExactly` and `RecoverLosesExactly` give the exact
  conditions, `LossHasCause` says that in a run nothing else loses a
  credential, and `QuotaExamples` has a run for each of the three.
- **Account keys.** SQLite's `trim` removes blanks only, Go trims all white
  space. `SqlAgreement.KeysAgreeExactly` says on which rows the keys agree all
  the same: where no column that decides the key has other white space at its
  ends. A tab as auth index makes them differ (`OtherWhiteSpaceDisagrees`), a
  tab as label beside a file and an index does not (`OtherWhiteSpaceMayAgree`).
- **Band totals.** `costForSegment` clamps negative uncached input at zero, so
  the total of a band costs what its requests cost exactly when the requests of
  a band with a prompt rate do not mix excess and deficit
  (`BandPricing.BandTotalsPriceAlike`, and `LongTotalsPriceAlike` for the
  long-context premium); two requests for which it costs less are in
  `MixedBandIsPricedLower`.
- **Fields that do not show as they were set.** A switch turned off where its
  field is nowhere writes nothing, so it stays on when another spelling of its
  name says so: usage statistics in the legacy layout, session affinity in both
  (`ConfigOutcome.StatisticsStayOn`, `AffinityStaysOn`). A number that is
  cleared comes back from its other spelling (`ClearedRetentionComesBack`), one
  with a leading zero shows without it (`LeadingZerosAreLost`), and text that
  is no number is dropped. A text of white space only is emptied or not written
  (`BlankTextIsLost`). The exact conditions are `ConfigLens.SwitchRoundTrip`,
  `TextRoundTrip` and `NumberRoundTrip` for one edit, and the `Saved` lemmas of
  `ConfigOutcome` for the whole save. The old name of the panel repository does
  not come back, since the save deletes it (`SavedPanelRepository`).

## Model

| member | source | states |
|---|---|---|
| ImportBatcher.Batcher.constructor | apps/manager-server/internal/usage/import.go:157-165 | a batch size that is not positive means 256; nothing is added or committed yet |
| ImportBatcher.Batcher.Flush | apps/manager-server/internal/usage/import.go:1512-1525 | commits the open batch whole or, when the consumer fails, keeps it; nothing is lost, duplicated or reordered either way |
| ImportBatcher.Batcher.Add | apps/manager-server/internal/usage/import.go:1496-1510 | events are conserved even after a failure, both bounds are kept, and no batch is cut before it has to be |
| ImportBatcher.AddAll | apps/manager-server/internal/usage/import.go:1496-1525 | for every sequence of events the committed batches concatenate to it, each is non-empty and within 32 MiB and the batch size (or one oversize event), and none could have taken the next event; after a failure they are a prefix |
| ImportBatcher.AddKeepsGreedy | apps/manager-server/internal/usage/import.go:1496-1510 | one more event keeps every cut as late as the two bounds allow |
| LegacyDocument.RanksIgnoreOrder | apps/manager-server/internal/usage/import.go:619-627 | the ranks depend on the keys, not on the order they were collected in |
| Ordering.AtMostIsDictionaryOrder | apps/manager-server/internal/usage/import.go:619-627 | one string sorts before another exactly when it is a beginning of it or has the smaller byte where they first differ |
| LegacyDocument.RanksArePlaces | apps/manager-server/internal/usage/import.go:619-627 | the rank of a key is one plus the number of keys that come before it in the dictionary |
| LegacyAgreement.SortedRank | apps/manager-server/internal/usage/import.go:619-627 | the rank of a key is its one-based place among the sorted keys |
| LegacyAgreement.DocumentOrderIsSortedOrder | apps/manager-server/internal/usage/import.go:722-854 | visiting keys in document order with their sorted ranks contributes, as a multiset of events and counters, what visiting them in sorted order does |
| LegacyAgreement.InspectionFound | apps/manager-server/internal/usage/import.go:255-358 | a document the inspection pass accepts, within its key limits and with nothing behind it, has no duplicate structural key, and the recorded ranks are those of the object the in-memory import reads |
| LegacyAgreement.AcceptedExactly | apps/manager-server/internal/usage/import.go:262-358 | the inspection pass finds a legacy export exactly when nothing marks an exported event, no structural key occurs twice, the in-memory importer would find a legacy record, endpoint and model keys are within the limits on their number and bytes, and no data follows |
| LegacyAgreement.ModelAgrees | apps/manager-server/internal/usage/import.go:856-971 | for a model without duplicate keys the streaming and in-memory walks give the same events and counters |
| LegacyAgreement.ApisAgree | apps/manager-server/internal/usage/import.go:722-812 | the two walks of an apis object agree up to order |
| LegacyAgreement.StreamRefinesMemory | apps/manager-server/internal/usage/import.go:629-681 | for every accepted document the streaming import emits a permutation of the in-memory import's events with the same endpoint, model and detail indices, and the same failed count, unsupported count and no-details verdict |
| LegacyEvents.MemoryEvents | apps/manager-server/internal/usage/import.go:2208-2282 | the in-memory import has an event exactly for each detail that is an object the conversion accepts: the item at its detail index of the model it names, its endpoint and model indices one plus the number of different keys before theirs; in the order of the indices, none twice |
| LegacyEvents.StreamEvents | apps/manager-server/internal/usage/import.go:629-681 | the streaming import of an accepted document has exactly the same events, each once |
| LegacyEvents.AcceptedInFull | apps/manager-server/internal/usage/import.go:255-358 | a document is taken for a legacy export exactly when no event_hash member marks an event, no structural key occurs twice, it has an apis object that is not empty, the recorded keys are within the limits in number and length, and nothing follows |
| LegacyCounts.MemoryCounts | apps/manager-server/internal/usage/import.go:2208-2282 | the failed count is the number of endpoints without models, models that are no objects and details that are no objects or are refused; the unsupported count that of models without details |
| LegacyImport.RankSortedStrings | apps/manager-server/internal/usage/import.go:619-627 | the ranking loop computes the ranks, from the keys in any order: for different keys one plus the number of keys before it in the dictionary, and nothing for other texts |
| LegacyImport.StreamDetailValue | apps/manager-server/internal/usage/import.go:936-966 | one detail is one more event or one more failure, and only a failing consumer stops the import |
| LegacyImport.StreamDetailsValue | apps/manager-server/internal/usage/import.go:914-971 | the loop over details records exactly the walk's events and failures, and stops only when the consumer fails |
| LegacyImport.StreamModelValue | apps/manager-server/internal/usage/import.go:856-912 | records exactly the walk of one model; a model without details is unsupported |
| LegacyImport.StreamMembers | apps/manager-server/internal/usage/import.go:629-720 | records exactly the walk of the whole document, in document order |
| LegacyImport.StreamLegacyObject | apps/manager-server/internal/usage/import.go:629-681 | the streaming import adds the walk's events, counts its failures, commits everything when it succeeds, and reports no details exactly when no event came |
| LegacyImport.ParseModel | apps/manager-server/internal/usage/import.go:2240-2282 | the in-memory loop over one model appends exactly that model's events and counters |
| LegacyImport.EventsFromLegacyUsage | apps/manager-server/internal/usage/import.go:2208-2282 | the in-memory import over sorted keys returns the tally of the record, whose events and counts LegacyEvents and LegacyCounts tell, and unsupported without an apis object |
| JsonCapture.EndIsUnique | apps/manager-server/internal/usage/import.go:1216-1251 | an object has one end: the shortest prefix whose brace depth outside strings returns to zero |
| JsonCapture.Captured.Append | apps/manager-server/internal/usage/import.go:1266-1312 | appends the whole payload or refuses it, exactly at the size limit; it fails to write only when the payload does not fit in memory and the temporary file fails |
| JsonCapture.Captured.Rewind | apps/manager-server/internal/usage/import.go:1314-1325 | flushing and rewinding keep the bytes, and fail only for a capture that left memory |
| JsonCapture.ReadSlice | apps/manager-server/internal/usage/import.go:1225-1230 | a slice ends with its first closing brace, or has none |
| JsonCapture.ChunkStaysOpen | apps/manager-server/internal/usage/import.go:1225-1260 | a slice closes the object only with its last byte, so the reader never consumes more than the object |
| JsonCapture.Capture | apps/manager-server/internal/usage/import.go:1191-1264 | for every stream, buffering, limits and behaviour of the temporary file the outcome is the one the bytes decide: exactly the object, or why there is none; or the source broke, or the temporary file failed once the object had outgrown memory; as many bytes are consumed as the object has |
| JsonCapture.DecidesOne | apps/manager-server/internal/usage/import.go:1191-1264 | the bytes and the limits decide at most one outcome, so buffering plays no part |
| JsonText.ObjectEnds | apps/manager-server/internal/usage/import.go:1216-1251 | for every JSON object, nested at will, with any bytes in its strings, quotes and backslashes escaped and braces not, and any blanks between its tokens: its end is the end of its text, whatever follows |
| JsonText.ObjectIsCaptured | apps/manager-server/internal/usage/import.go:1191-1264 | when nothing fails the capture of such an object returns its text and leaves what follows, or refuses it exactly when it is longer than the limit |
| JsonText.CutObjectIsRefused | apps/manager-server/internal/usage/import.go:1191-1264 | the same text cut anywhere before its last brace is refused, as ending too early or as too large |
| JsonlRecords.EarlyVerdictIsFinal | apps/manager-server/internal/usage/import.go:1416-1448 | the splitter's verdict on part of a line, too large included, is the verdict on the complete line, whether or not the end of the stream was seen |
| JsonlRecords.Scanner.Scan | apps/manager-server/internal/usage/import.go:1407-1414 | in whatever pieces the stream arrives, and whether its end, or the error that breaks it, is reported with the last bytes or after them, the scanner returns the next line's verdict, and then the end or the error; its buffer never runs full before |
| JsonlRecords.ReadRecords | apps/manager-server/internal/usage/import.go:1382-1405 | the records of a stream do not depend on how it arrives; what arrived of a line before the source broke is a record, and the import then fails |
| JsonlRecords.PeekNonWhitespace | apps/manager-server/internal/usage/import.go:1581-1602 | finds the first byte that is not white space, and how many bytes of its line precede it |
| JsonlRecords.ConsumeTail | apps/manager-server/internal/usage/import.go:1454-1494 | accepts a blank tail exactly within the size limit, a CR right before the newline not counted; any other tail is refused |
| JsonlRecords.PathsAgree | apps/manager-server/internal/usage/import.go:1094-1181 | counting prefix, object and tail accepts exactly the one-line objects the splitter accepts and continues at the same byte, for every mix of CR, CRLF and CRCRLF |
| JsonlRecords.ReadFirstObject | apps/manager-server/internal/usage/import.go:1081-1181 | of an object that has its line to itself the path says what the scanner says of the line: accepted with the same next byte, or too large; it reports a bad tail only for a line that is not blank after the object, and no object only as the bytes decide or because the source or the temporary file failed |
| AccountKeys.HexInjective | apps/manager-server/internal/usageidentity/identity.go:463-470 | hexadecimal text determines the bytes |
| AccountKeys.HexMeans | apps/manager-server/internal/usageidentity/identity.go:463-470 | the hexadecimal text has two digits for every byte, the higher one first |
| AccountKeys.PartsInjective | apps/manager-server/internal/usageidentity/identity.go:463-470 | the colon-separated components are determined by the joined text, whatever bytes they hold |
| AccountKeys.RenderInjective | apps/manager-server/internal/usageidentity/identity.go:452-470 | a key determines its kind, its components and its credential mark |
| AccountKeys.KeysRenderIdentities | apps/manager-server/internal/usageidentity/identity.go:123-161 | both keys are renderings of already trimmed identities, and invalid exactly when there is no identity |
| AccountKeys.EqualKeysSameIdentity | apps/manager-server/internal/usageidentity/identity.go:123-161 | two keys are equal exactly when kind and normalised components are |
| AccountKeys.CodexCredentialsStaySeparate | apps/manager-server/internal/usageidentity/identity.go:123-150 | Codex credentials with one key have the same effective auth file and auth index, and the same workspace and member |
| AccountKeys.NewCodexKeysAreFresh | apps/manager-server/internal/usageidentity/identity.go:123-237 | a new-format Codex key is no historical key of anything and no key of another provider |
| SqlEvaluation.EvalAuthFile | apps/manager-server/internal/usageidentity/identity.go:431-440 | on every row the SQL auth-file expression yields the effective auth file as SQLite's trim reads it |
| SqlEvaluation.EvalWorkspaceValid | apps/manager-server/internal/usageidentity/identity.go:360-395 | the workspace condition holds exactly when marker and direct id do not contradict each other |
| SqlEvaluation.MemberTests | apps/manager-server/internal/usageidentity/identity.go:397-417 | SQL's character-based tests accept exactly the members the Go scan accepts |
| SqlIdentity.SkipsOneCharacter | apps/manager-server/internal/usageidentity/identity.go:397-417 | in SQLite's text functions a character beyond ASCII counts as one, however many bytes encode it |
| GoText.WideSpaceExactly | apps/manager-server/internal/usageidentity/identity.go:123-161 | what trimming takes for white space beyond ASCII is exactly the UTF-8 encodings of Unicode's white space characters |
| SqlEvaluation.EvalCodexMemberValid | apps/manager-server/internal/usageidentity/identity.go:427-429 | on every row the condition of the member clause is Go's, in SQLite's reading of the columns |
| SqlEvaluation.EvalFallbackKeys | apps/manager-server/internal/usageidentity/identity.go:187-237 | on every row the ordered CASE clauses choose the identity of Go's branches for the pieces SQLite reads, marked as credential exactly for new Codex keys |
| SqlEvaluation.EvalMemberClause | apps/manager-server/internal/usageidentity/identity.go:269-358 | on every row the two Codex clauses yield the member and the credential key |
| SqlEvaluation.EvalAccountKeyExpression | apps/manager-server/internal/usageidentity/identity.go:269-358 | on every row, in all four modes, the whole expression renders the identity of Go's branches for the pieces SQLite reads |
| SqlAgreement.GoIdentity | apps/manager-server/internal/usageidentity/identity.go:123-237 | Go's branches, in their order, choose the identity that the clauses choose for the pieces Go reads |
| SqlAgreement.ProviderAlike | apps/manager-server/internal/usageidentity/identity.go:290-293 | SQL and Go read the same provider exactly when it has no white space at its ends |
| SqlAgreement.FileAlikeExactly | apps/manager-server/internal/usageidentity/identity.go:431-440 | they read the same auth file exactly when the column that decides it trims alike |
| SqlAgreement.SameIdentityExactly | apps/manager-server/internal/usageidentity/identity.go:187-237 | they choose the same identity exactly when the pieces of the clause SQL chooses read alike |
| SqlAgreement.KeysAgreeExactly | apps/manager-server/internal/usageidentity/identity.go:269-358 | for all rows without NUL and in all four modes: the expression gives the Go key exactly when the columns that decide the key trim alike |
| SqlAgreement.SqlMatchesGo | apps/manager-server/internal/usageidentity/identity.go:269-358 | on every row whose outer white space is blanks, in all four modes, evaluating the expression gives the Go key, and the empty text exactly when Go has none |
| SqlAgreement.OtherWhiteSpaceDisagrees | apps/manager-server/internal/usageidentity/identity.go:187-237 | for an auth index of one tab Go has no key and SQL yields one |
| SqlAgreement.OtherWhiteSpaceMayAgree | apps/manager-server/internal/usageidentity/identity.go:187-237 | for an auth file, an auth index and a label of one tab both give the same key |
| YamlTree.GetSetIn | apps/web/src/hooks/useVisualConfig.ts:1509-1514 | put-get and frame of a write at a path of an arbitrary tree |
| YamlTree.GetDeleteIn | apps/web/src/hooks/useVisualConfig.ts:1443-1465 | a deleted path is gone, places beside it keep their value |
| YamlTree.EnsureParentsFrame | apps/web/src/hooks/useVisualConfig.ts:1413-1425 | creating parents, even in place of scalars, shows nowhere but above the path |
| YamlTree.PruneParentsLaws | apps/web/src/hooks/useVisualConfig.ts:1397-1401 | pruning removes nothing but empty maps on the way and leaves none there |
| ConfigPaths.FindMapping | apps/web/src/hooks/useVisualConfig.ts:276-284 | the search loop finds the table's best row |
| ConfigPaths.BestMappingIsLongest | apps/web/src/hooks/useVisualConfig.ts:276-290 | the row found matches and has the longest matching legacy path; none is found exactly when none matches |
| ConfigPaths.FieldsApart | apps/web/src/hooks/useVisualConfig.ts:172-266 | fields with incomparable form paths share no place, canonical, historical or legacy, and none lies inside another's |
| ConfigPaths.FormFieldsRegular | apps/web/src/hooks/useVisualConfig.ts:172-266 | paths outside the table are told apart from all its rows |
| ConfigPaths.GroupSpares | apps/web/src/hooks/useVisualConfig.ts:1483-1508 | no place of a group lies on or below a field outside the group |
| ConfigSave.ReadValue | apps/web/src/hooks/useVisualConfig.ts:379-403 | the loops over canonical, historical, legacy and camelCase places return the first that is found |
| ConfigSave.CopiesApart | apps/web/src/hooks/useVisualConfig.ts:1426-1429 | the compatibility copies of a field lie beside each other and beside its place |
| ConfigSave.PutMeets | apps/web/src/hooks/useVisualConfig.ts:1509-1514 | writing and dropping the copies leaves the value at its place, no copy, and every place beside untouched |
| ConfigSave.DeleteMeets | apps/web/src/hooks/useVisualConfig.ts:1443-1465 | deleting leaves the field nowhere and every place beside untouched |
| ConfigSave.Save.DeleteCompat | apps/web/src/hooks/useVisualConfig.ts:1443-1465 | the field is in none of its places afterwards; all places beside read as before |
| ConfigSave.Save.DropCompatibilityAlternatives | apps/web/src/hooks/useVisualConfig.ts:1466-1482 | exactly the copies are dropped, with the parents they leave empty |
| ConfigSave.Save.SetCompatValue | apps/web/src/hooks/useVisualConfig.ts:1509-1514 | the value is at its place and nowhere else; all places beside read as before |
| ConfigSave.Save.SetBooleanInDoc | apps/web/src/hooks/useVisualConfig.ts:467-473 | writes a true switch, and a false one only over a value that is there |
| ConfigSave.Save.SetStringInDoc | apps/web/src/hooks/useVisualConfig.ts:475-487 | writes a text, empties one that is there, and never creates a blank one |
| ConfigSave.Save.SetIntFromStringInDoc | apps/web/src/hooks/useVisualConfig.ts:489-506 | writes an integer, deletes for a blank, ignores anything else |
| ConfigSave.Save.SetCompatBoolean | apps/web/src/hooks/useVisualConfig.ts:1515-1529 | has the effect of a switch on the field in either layout and no other; throws only outside a moved field |
| ConfigSave.Save.SetCompatString | apps/web/src/hooks/useVisualConfig.ts:1530-1548 | has the effect of a text on the field in either layout and no other |
| ConfigSave.Save.SetCompatInt | apps/web/src/hooks/useVisualConfig.ts:1549-1576 | has the effect of a whole number on the field in either layout and no other |
| ConfigSave.Save.SetCompatDisableImageGeneration | apps/web/src/hooks/useVisualConfig.ts:1577-1601 | has the effect of the image-generation mode on the field in either layout and no other |
| ConfigSave.Save.HasCompat | apps/web/src/hooks/useVisualConfig.ts:1431-1442 | the field is at one of its places in the document being edited or in the one that was read |
| ConfigSave.Save.DeleteLegacyApiKeysProvider | apps/web/src/hooks/useVisualConfig.ts:689-699 | both lists of the old key provider are gone and nothing else but empty maps above them |
| ConfigSave.Save.EnsureCompatMap | apps/web/src/hooks/useVisualConfig.ts:1483-1494 | the group is a map afterwards and nothing off its way changes |
| ConfigSave.Save.DeleteCompatIfMapEmpty | apps/web/src/hooks/useVisualConfig.ts:1495-1508 | no place of the group is an empty map afterwards and nothing but empty maps is lost |
| ConfigSave.Save.Perform | apps/web/src/hooks/useVisualConfig.ts:1603-2121 | every write of a save has its effect and no other, in order; a save is abandoned only at a write to an unmoved field with no map above it |
| ConfigLens.LegacyLayoutOnlyLegacyPaths | apps/web/src/hooks/useVisualConfig.ts:405-448 | a document told to be in the legacy layout has fields at their legacy paths only |
| ConfigLens.PutGet | apps/web/src/hooks/useVisualConfig.ts:379-403 | in either layout a written value is read back, and after a delete the field reads what its other names hold |
| ConfigLens.TextRoundTrip | apps/web/src/hooks/useVisualConfig.ts:1530-1548 | a text shows again as typed exactly when it is not blank; or blank, and the field is there and the text empty or the field moved; or blank, the field is nowhere, and another name or the fallback says the same |
| ConfigLens.SwitchRoundTrip | apps/web/src/hooks/useVisualConfig.ts:1515-1529 | a switch shows again as set exactly when it was turned on, or the field moved or is there, or no other name of it says on |
| ConfigLens.NumberRoundTrip | apps/web/src/hooks/useVisualConfig.ts:1549-1576 | a number shows again as typed exactly when it is a numeral in shortest form that does not stand for unset; a blank one when the other names or the fallback show blank; any other text when it was shown before |
| ConfigLens.ValueRoundTrip | apps/web/src/hooks/useVisualConfig.ts:1509-1514 | a value that is always written reads back as that value |
| Decimals.ShowsAgainExactly | apps/web/src/hooks/useVisualConfig.ts:489-506 | a numeral is printed as it was written exactly without leading zeros and without a sign before zero |
| ConfigLens.UntouchedFieldKeeps | apps/web/src/hooks/useVisualConfig.ts:1380-2127 | a save leaves a field it does not edit unchanged in all its places |
| ConfigLens.FieldAfterSave | apps/web/src/hooks/useVisualConfig.ts:379-403 | after any sequence of edits in one save every field reads as its own edit says, or as before without one, and where neither gives a value as its other names do after the same save, edited or not |
| ConfigForm.FormPathsApart | apps/web/src/hooks/useVisualConfig.ts:1603-2121 | no field of the form lies above another |
| ConfigForm.SaveIsFormSave | apps/web/src/hooks/useVisualConfig.ts:1603-2121 | for every set of dirty fields the writes of the save edit each field at most once and make or clear no map at or below one |
| ConfigForm.SaveKnowsField | apps/web/src/hooks/useVisualConfig.ts:1603-2121 | every write of the save leaves out every field of the form but its own |
| ConfigCompletes.NothingThrows | apps/web/src/hooks/useVisualConfig.ts:1603-2121 | no write of the save meets a scalar where it needs a map, since each group is made before the fields below it are written |
| ConfigCompletes.OnlyForDirty | apps/web/src/hooks/useVisualConfig.ts:1603-2121 | every write is to a dirty field or to the group of one, or is one of the listed companions of a dirty field; with nothing dirty there is none |
| ConfigCompletes.NothingDirtyNothingChanged | apps/web/src/hooks/useVisualConfig.ts:1380-2127 | a save with nothing dirty leaves the document as it was |
| ConfigCompletes.UnknownSectionsSurvive | apps/web/src/hooks/useVisualConfig.ts:1380-2127 | whatever is edited, a top-level section in which no field of the editor has a place keeps everything in it |
| ConfigCleanup.EmptyGroupsGo | apps/web/src/hooks/useVisualConfig.ts:1495-2121 | of nine groups of fields, a group with an edited field is not left an empty map in any of its places |
| ConfigCleanup.OldProviderGoes | apps/web/src/hooks/useVisualConfig.ts:1664-1682 | once the client keys were edited both lists of their old provider are gone at the end of the save |
| ConfigOutcome.FormAfterSave | apps/web/src/hooks/useVisualConfig.ts:1380-2127 | whatever is dirty, after the save every field of the form reads as its edit says, as before if it is not written, and where neither gives a value as its other names |
| ConfigOutcome.SavedEdit | apps/web/src/hooks/useVisualConfig.ts:1603-2121 | what the save does to a field is the edit planned for it when its guard holds, and nothing when it does not |
| ConfigOutcome.SavedSwitch | apps/web/src/hooks/useVisualConfig.ts:1515-1529 | a dirty switch shows after the save as it was set, exactly unless it was turned off, was nowhere, did not move, and another name still says on after the same save |
| ConfigOutcome.SavedText | apps/web/src/hooks/useVisualConfig.ts:1530-1548 | a dirty text shows after the save as typed exactly when it is not blank; or blank, there before, and empty or moved; or blank, nowhere, and its other names or the fallback say the same |
| ConfigOutcome.SavedNumber | apps/web/src/hooks/useVisualConfig.ts:1549-1576 | a dirty number shows after the save as typed under the condition of NumberRoundTrip, with its other names as the same save leaves them |
| ConfigOutcome.SavedValue | apps/web/src/hooks/useVisualConfig.ts:1509-1514 | whatever the plan writes as a value reads back after the save as it was written |
| ConfigOutcome.SavedMode | apps/web/src/hooks/useVisualConfig.ts:1577-1601 | the image-generation mode reads back after the save; only off may be left unwritten |
| ConfigOutcome.SavedPanelRepository | apps/web/src/hooks/useVisualConfig.ts:1651-1659 | the panel repository, written under its new and deleted under its old name, shows as typed exactly when it is not blank, or empty, or moved and there before |
| ConfigFields.FlagReadsBack | apps/web/src/hooks/useVisualConfig.ts:1686-1960 | each of the twelve switches that are written as values reads after the save as it was set when it is dirty, and as before when it is not |
| ConfigFields.RulesReadBack | apps/web/src/hooks/useVisualConfig.ts:1751-2119 | payload rules and plugin store credentials read after the save as the serializers made them, and are gone when there are none |
| ConfigFields.ListsReadBack | apps/web/src/hooks/useVisualConfig.ts:1743-1988 | store sources and sensitive words read back as lists and are deleted when empty; ticket models read back as a list in any case |
| ConfigFields.ChoicesReadBack | apps/web/src/hooks/useVisualConfig.ts:1888-2017 | the fast mode and the routing strategy read back as they were chosen |
| ConfigFields.ProxyAndDirReadBack | apps/web/src/hooks/useVisualConfig.ts:1738-1967 | the ticket proxy reads back trimmed, the plugin directory as typed, and it is deleted when blank |
| ConfigFields.SecretKeyReadsBack | apps/web/src/hooks/useVisualConfig.ts:1608-1640 | the secret key is emptied when clearing was chosen, replaced when replacing was chosen and a key is given, and as before otherwise |
| ConfigFields.NotificationNamesReadBack | apps/web/src/hooks/useVisualConfig.ts:1903-1942 | instance name and platform read back as edited, and any edit of the notifications writes them where the document lacks them |
| ConfigFields.NotificationSecretsReadBack | apps/web/src/hooks/useVisualConfig.ts:1903-1942 | webhook and secret read back trimmed; a platform without secrets empties an edited secret and one that is there |
| ConfigFields.ImageModeReadsBack | apps/web/src/hooks/useVisualConfig.ts:1577-1601 | chat and passthrough read back as texts, true as on, anything else as off or as nothing |
| ConfigFields.ClientKeysReadBack | apps/web/src/hooks/useVisualConfig.ts:1664-1682 | the client keys read back where the layout has them, the keys of upstreams in their old place stay, and the old place is empty when they moved or there are none |
| ConfigFields.SwitchShows | apps/web/src/hooks/useVisualConfig.ts:1515-1529 | each of the seventeen other switches, by its path, shows after the save as it was set under the condition of SavedSwitch |
| ConfigFields.TextShows | apps/web/src/hooks/useVisualConfig.ts:1530-1548 | each of the eighteen texts, by its path, shows as typed under the condition of SavedText |
| ConfigFields.NumberShows | apps/web/src/hooks/useVisualConfig.ts:1549-1576 | each of the sixteen numbers, by its path, shows as typed under the condition of SavedNumber |
| ConfigFields.UneditedReadsAsBefore | apps/web/src/hooks/useVisualConfig.ts:1603-2121 | a switch, text or number that is not dirty reads as before |
| ConfigOutcome.ApplyVisualChanges | apps/web/src/hooks/useVisualConfig.ts:1380-2127 | the save always goes through and makes the planned writes in order; then every field of the form reads as its edit says, sections the editor does not know are as before, and with nothing dirty so is the document |
| ConfigOutcome.StatisticsStayOn | apps/web/src/hooks/useVisualConfig.ts:1207-1209 | a legacy document in which usage statistics cannot be turned off |
| ConfigOutcome.AffinityStaysOn | apps/web/src/hooks/useVisualConfig.ts:1344-1346 | in either layout a document in which session affinity cannot be turned off |
| ConfigOutcome.ClearedRetentionComesBack | apps/web/src/hooks/useVisualConfig.ts:1214-1219 | in either layout a document in which the retention cannot be cleared |
| ConfigOutcome.BlankTextIsLost | apps/web/src/hooks/useVisualConfig.ts:475-487 | a blank text in an empty document shows as another text |
| ConfigOutcome.LeadingZerosAreLost | apps/web/src/hooks/useVisualConfig.ts:489-506 | a numeral with a zero in front shows without it |
| ConfigDirty.GetNextDirtyFields | apps/web/src/hooks/useVisualConfig.ts:754-1032 | the keys a patch touches are dirty exactly when they differ from the baseline; others keep their state |
| ConfigDirty.DirtyIsDifference | apps/web/src/hooks/useVisualConfig.ts:1034-1090 | after any actions a key is to be saved exactly when its value differs from the baseline |
| ConfigDirty.SavedKeysDependOnEntries | apps/web/src/hooks/useVisualConfig.ts:1034-1090 | what is to be saved depends on the last load, the last commit and the latest entry of each field only, so an edit undone by hand is not saved |
| ConfigDirty.SavedExactly | apps/web/src/hooks/useVisualConfig.ts:754-1090 | a key is saved exactly when its field, or for the secret key also its action, shows something else than was loaded or committed, where a field shows its latest entry since the last load or else the value loaded |
| ConfigDirty.FlagsTold | apps/web/src/hooks/useVisualConfig.ts:1034-1090 | the name counts as edited, and the load as failed, exactly since an action did that and no load succeeded after it |
| QuotaWorld.DueFacts | apps/manager-server/internal/repository/quotacooldown/repository.go:268-278 | a listing has at most 100 rows, all active and due, none twice |
| QuotaTimer.ListDueExactly | apps/manager-server/internal/repository/quotacooldown/repository.go:268-278 | the listing has only due rows, the soonest first and of equal times the oldest; all of them up to a hundred, and with more, a hundred that are sooner than every due row left out |
| QuotaSafety.TargetFacts | apps/manager-server/internal/service/cpaauthfiles/client.go:306-331 | a resolved target is listed and agrees with every attribute that was asked for |
| QuotaTimer.ResolveExactly | apps/manager-server/internal/service/cpaauthfiles/client.go:306-331 | the lookup finds a file exactly when it alone is listed under the name and auth index and the rest agrees; nothing exactly when none is listed; a mismatch exactly when the only one disagrees |
| QuotaSafety.FoundAgain | apps/manager-server/internal/service/cpaauthfiles/client.go:306-331 | asking for a credential with its own attributes finds that one or none |
| QuotaSafety.RowFindsItsCredential | apps/manager-server/internal/worker/rate_limit_auto_disable.go:670-760 | recovery of a row resolves to the credential the row is about or to none |
| QuotaSafety.FindCredential | apps/manager-server/internal/repository/quotacooldown/repository.go:32-130 | an upsert finds the owner's active row of the credential if there is one, never another's, and is never ambiguous |
| QuotaSafety.InsertKeeps | apps/manager-server/internal/repository/quotacooldown/repository.go:32-221 | a stored cooldown keeps the invariant, also when storing fails or fails after taking effect |
| QuotaSafety.ExtendedReflects | apps/manager-server/internal/worker/rate_limit_auto_disable.go:383-531 | merging a candidate into a row keeps the greatest reset and the winning candidate's reason, window, event and evidence where present |
| QuotaSafety.OneActiveRow | apps/manager-server/internal/worker/rate_limit_auto_disable.go:821-867 | whoever owns them, a credential has at most one active row |
| QuotaRuns.HandleKeeps | apps/manager-server/internal/worker/rate_limit_auto_disable.go:211-381 | one candidate with any replies keeps the invariant |
| QuotaRuns.ExtendKeeps | apps/manager-server/internal/worker/rate_limit_auto_disable.go:383-491 | extending a cooldown with any replies keeps the invariant |
| QuotaRuns.RecoverKeeps | apps/manager-server/internal/worker/rate_limit_auto_disable.go:670-818 | one recovery with any replies keeps the invariant |
| QuotaRuns.EnablesWereEarned | apps/manager-server/internal/worker/rate_limit_auto_disable.go:211-818 | in every run each enable is of a credential that a look showed enabled and that the worker disabled, with confirmation, by the request right after that look |
| QuotaRuns.ActiveRowsReflect | apps/manager-server/internal/worker/rate_limit_auto_disable.go:383-491 | in every run the recovery time of an active row is the greatest reset accepted for it, and its texts and evidence come from the winning candidate where present |
| QuotaRuns.LatestIsLargest | apps/manager-server/internal/worker/rate_limit_auto_disable.go:420-455 | the latest reset is attained and bounds all accepted resets |
| QuotaRuns.TimersWait | apps/manager-server/internal/worker/rate_limit_auto_disable.go:593-612 | in every run a tick enables only credentials of an active row, and none before the latest reset accepted, since its last disable, in any active row of the credential |
| QuotaRuns.ManualDisableIsNotToldApart | apps/manager-server/internal/worker/rate_limit_auto_disable.go:670-760 | recovery does the same in two worlds that differ only in whose disable is in force |
| QuotaRuns.EnablesExactlyWhen | apps/manager-server/internal/worker/rate_limit_auto_disable.go:670-760 | a recovery enables exactly when its row is recoverable and the credential is found and listed disabled, and then right after that look |
| QuotaRuns.RecoverEnables | apps/manager-server/internal/worker/rate_limit_auto_disable.go:670-818 | a recovery enables no credential but the one its row belongs to |
| QuotaForeign.RecoverUndoesExactly | apps/manager-server/internal/worker/rate_limit_auto_disable.go:670-760 | a recovery takes somebody else's disable away exactly when its guard lets it enable the credential, the request takes effect, and such a disable is in force at the request |
| QuotaForeign.HandleUndoesExactly | apps/manager-server/internal/worker/rate_limit_auto_disable.go:300-381 | a candidate does so exactly when its row is not stored and the rollback's request takes effect on a credential for which such a disable is in force |
| QuotaForeign.UndoesForeignDisableExactlyWhen | apps/manager-server/internal/worker/rate_limit_auto_disable.go:211-818 | over every run the worker took somebody else's disable away from a credential exactly when one of its operations did, by the conditions above |
| QuotaForeign.UnownedDisablesStay | apps/manager-server/internal/worker/rate_limit_auto_disable.go:211-818 | in every run a credential that is not enabled and that no active row belongs to stays so, and is never asked to be enabled, until somebody else enables it |
| QuotaLosses.HandleLosesExactly | apps/manager-server/internal/worker/rate_limit_auto_disable.go:211-381 | a candidate loses a credential, leaving it disabled with no row, exactly when its disable takes effect unconfirmed, or is confirmed and neither recorded nor undone, and no row covered it |
| QuotaLosses.ExtendLosesNone | apps/manager-server/internal/worker/rate_limit_auto_disable.go:383-491 | extending a cooldown loses no credential |
| QuotaLosses.RecoverLosesExactly | apps/manager-server/internal/worker/rate_limit_auto_disable.go:670-818 | a recovery loses a credential exactly when closing its row took effect unconfirmed, the credential was disabled again, and no other row covers it |
| QuotaLosses.LossHasCause | apps/manager-server/internal/worker/rate_limit_auto_disable.go:211-818 | in every run a credential left disabled without a row was lost by one of the operations, by the conditions above |
| QuotaLosses.LeftDisabledIsOwned | apps/manager-server/internal/worker/rate_limit_auto_disable.go:211-818 | in every run a credential the worker left disabled has an active or set-aside row unless an operation lost it |
| QuotaExamples.UnconfirmedDisableLoses | apps/manager-server/internal/worker/rate_limit_auto_disable.go:300-381 | a run that loses a credential by an unconfirmed disable |
| QuotaExamples.FailedRollbackLoses | apps/manager-server/internal/worker/rate_limit_auto_disable.go:300-381 | a run that loses one by a failed rollback |
| QuotaExamples.UnconfirmedMarkLoses | apps/manager-server/internal/worker/rate_limit_auto_disable.go:760-818 | a run that loses one by an unconfirmed mark |
| QuotaExamples.DisableByHandIsUndone | apps/manager-server/internal/worker/rate_limit_auto_disable.go:670-760 | a run in which a disable made by hand is undone by a tick |
| QuotaExamples.RacingDisableIsUndone | apps/manager-server/internal/worker/rate_limit_auto_disable.go:211-381 | a run in which a disable made between the worker's look and its request is undone by a tick |
| QuotaEffects.CandidateIsRecorded | apps/manager-server/internal/worker/rate_limit_auto_disable.go:211-381 | when its calls succeed, a candidate whose credential the look shows enabled disables it once, right then, and gains one row that carries the candidate and names the credential; the owner's earlier row of it is closed |
| QuotaEffects.FailedRecordIsUndone | apps/manager-server/internal/worker/rate_limit_auto_disable.go:300-381 | when the row cannot be stored and the rollback succeeds, the credential is enabled again and the table is as before |
| QuotaEffects.ExtensionIsRecorded | apps/manager-server/internal/worker/rate_limit_auto_disable.go:383-491 | a candidate with a disabled credential that a row owns moves only that row's recovery, to the later of the two times, and asks the remote for nothing |
| QuotaEffects.RecoveryCompletes | apps/manager-server/internal/worker/rate_limit_auto_disable.go:670-818 | a recovery that meets no failure enables the row's own credential once and closes the row, nothing else |
| QuotaEffects.FailedMarkIsUndone | apps/manager-server/internal/worker/rate_limit_auto_disable.go:760-818 | when the row cannot be marked, the credential is disabled again and its row still owns it |
| QuotaEffects.ConfirmedRecoversOwn | apps/manager-server/internal/worker/rate_limit_auto_disable.go:614-668 | a confirmed recovery takes the only active row that owns the credential; with several it does nothing |
| QuotaEffects.TickTouchesOnlyDue | apps/manager-server/internal/worker/rate_limit_auto_disable.go:593-612 | a tick changes the status of listed rows only, and no recovery time |
| QuotaTimer.RecoverySucceeds | apps/manager-server/internal/worker/rate_limit_auto_disable.go:670-818 | when all calls succeed and the row's credential is listed, the row ends recovered; a credential found disabled was enabled in between and nothing of the worker keeps it disabled, one found enabled is left alone |
| QuotaTimer.RecoveryGivesUp | apps/manager-server/internal/worker/rate_limit_auto_disable.go:670-730 | a cooldown is set aside without asking anything of the remote when Codex evidence is missing, no file is listed under its name or the only one is of another provider; it waits as it is when the lock is taken or the remote does not answer |
| QuotaTimer.UnconfirmedStaysActive | apps/manager-server/internal/worker/rate_limit_auto_disable.go:730-790 | a cooldown stays active when enabling its credential was not confirmed, or the second look fails, finds nothing or shows it disabled |
| QuotaTimer.TickRecoversDue | apps/manager-server/internal/worker/rate_limit_auto_disable.go:593-612 | a tick whose calls succeed does that for every row it lists and changes no other row; up to a hundred due rows those are all |
| QuotaCandidates.EnabledIsTakenDown | apps/manager-server/internal/worker/rate_limit_auto_disable.go:211-381 | a candidate about a credential that is listed enabled, under its name and auth index only, disables it once and stores one row with the candidate's data and the credential's account |
| QuotaCandidates.CandidateIsDropped | apps/manager-server/internal/worker/rate_limit_auto_disable.go:211-300 | a candidate without a file, with a reset that has passed, without the lock, or of Codex without an index or with contradicting workspaces changes nothing; one whose credential is not listed, alone and of its provider, has nothing asked for or stored |
| QuotaCandidates.DisabledIsExtended | apps/manager-server/internal/worker/rate_limit_auto_disable.go:383-491 | a candidate about a disabled credential with an active row moves that row, and no other, to the later of the two times and asks the remote for nothing |
| QuotaWorker.Worker.HandleCandidateLocked | apps/manager-server/internal/worker/rate_limit_auto_disable.go:211-381 | the calls, in the code's order and with its early returns, change the world as the runs say |
| QuotaWorker.Worker.ExtendExistingCooldown | apps/manager-server/internal/worker/rate_limit_auto_disable.go:383-491 | the loop over active rows stops at the first that matches and updates only that |
| QuotaWorker.Worker.RecoverCooldown | apps/manager-server/internal/worker/rate_limit_auto_disable.go:670-818 | verification, enable, second look, mark and compensating disable change the world as the runs say |
| QuotaWorker.Worker.EnableDueLocked | apps/manager-server/internal/worker/rate_limit_auto_disable.go:593-612 | recovers the listed rows one after another; which those are and what becomes of them is ListDueExactly and TickRecoversDue |
| QuotaWorker.Worker.RecoverOwnedCooldown | apps/manager-server/internal/worker/rate_limit_auto_disable.go:614-668 | recovers at most the row of the confirmed credential |
| CollectorLifecycle.Manager.Stop | apps/manager-server/internal/collector/collector.go:114-125 | cancels the current consumer and forgets the cancel function, nothing else |
| CollectorLifecycle.Manager.Launch | apps/manager-server/internal/collector/collector.go:90-112 | starts exactly one consumer, which owns the new done channel |
| CollectorLifecycle.StepKeeps | apps/manager-server/internal/collector/collector.go:83-147 | every step of Start, Stop, StopAndWait and of a consumer keeps the invariant, which says among others that the lock is held exactly by the caller inside |
| CollectorLifecycle.OneConsumer | apps/manager-server/internal/collector/collector.go:83-147 | in every interleaving, waits that time out included, at most one consumer is alive and it owns the current done channel |
| CollectorLifecycle.StopAndWaitFences | apps/manager-server/internal/collector/collector.go:127-147 | when StopAndWait returns nil no consumer is alive |
| CollectorLifecycle.FencedConsumersNeverPop | apps/manager-server/internal/collector/collector.go:127-147 | every pop after such a return comes from a consumer started later |
| CollectorLifecycle.PopsInTurn | apps/manager-server/internal/collector/collector.go:83-147 | destructive pops happen consumer after consumer, never overlapping |
| CollectorLifecycle.WaitsForCancelled | apps/manager-server/internal/collector/collector.go:133-147 | a caller only waits for the one live consumer, and that one has been cancelled |
| CollectorLifecycle.StartLeavesOne | apps/manager-server/internal/collector/collector.go:83-112 | a Start that gets through finds every earlier consumer finished and leaves exactly one live, which it owns and can cancel |
| CollectorLifecycle.NoConsumerForgotten | apps/manager-server/internal/collector/collector.go:83-125 | a live consumer that nobody can cancel has been cancelled |
| CollectorLifecycle.StopCancelsAll | apps/manager-server/internal/collector/collector.go:114-125 | in every run, once Stop has run every consumer alive has been cancelled and the cancel function is cleared |
| CollectorLifecycle.LaunchFindsNothingToCancel | apps/manager-server/internal/collector/collector.go:83-112 | Start never finds a previous cancel function |
| CollectorLifecycle.LockIsHeldInside | apps/manager-server/internal/collector/collector.go:83-147 | in every run the lock is held by a caller exactly while it is inside, so a waiting caller gets in exactly when nobody is |
| CollectorLifecycle.OnlyTheLockBlocks | apps/manager-server/internal/collector/collector.go:83-147 | in every run a caller can go on unless it waits for the lock while another is inside; Stop is always possible |
| CollectorLifecycle.ComesOut | apps/manager-server/internal/collector/collector.go:83-147 | from anywhere inside at most six steps, of the caller and of the consumer it waits for, bring it out and free the lock; a Start leaves one new consumer alive and a StopAndWait none |
| CollectorLifecycle.LockIsReleased | apps/manager-server/internal/collector/collector.go:83-147 | in every run whoever waits for the lock can get it after at most six such steps |
| CoverageTotals.WrapFacts | apps/manager-server/internal/store/usage_pricing_coverage.go:21-62 | 64-bit totals compare as their exact difference modulo the width |
| CoverageTotals.SumPermuted | apps/manager-server/internal/store/usage_pricing_coverage.go:21-62 | sums do not depend on row order |
| CoverageTotals.SumSplit | apps/manager-server/internal/store/usage_pricing_coverage.go:21-62 | sums do not depend on how a row is split into bands |
| PricingCoverage.HourlyPricingCoverageMatches | apps/manager-server/internal/store/usage_pricing_coverage.go:21-62 | true exactly when every priced key occurs among the core keys and all sixteen sums agree per key |
| PricingCoverage.SameSumsExactly | apps/manager-server/internal/store/usage_pricing_coverage.go:21-62 | without overflow the sums agree as integers |
| PricingCoverage.OrderPlaysNoPart | apps/manager-server/internal/store/usage_pricing_coverage.go:21-62 | the verdict does not depend on the order of either list |
| PricingCoverage.BandsPlayNoPart | apps/manager-server/internal/store/usage_pricing_coverage.go:21-62 | nor on how priced rows are split into bands |
| PricingCoverage.EdgesAreHours | apps/manager-server/internal/store/store.go:660-680 | the edges that are verified are what the window shares with the hours of its start and of its end |
| PricingCoverage.LoadHourlySnapshot | apps/manager-server/internal/store/store.go:650-718 | the deleted edges of the window are verified first; then an available snapshot matches the core rows, also after the fallback to retained events; every failure is told exactly |
| AccountCoverage.FirstSeenIsLeast | apps/manager-server/internal/store/usage_pricing_coverage.go:77-87 | the grouped first time is the least of the key's rows |
| AccountCoverage.LastSeenIsGreatest | apps/manager-server/internal/store/usage_pricing_coverage.go:77-87 | the grouped last time is the greatest of the key's rows, and not negative |
| AccountCoverage.AddAccountPricingCoverage | apps/manager-server/internal/store/usage_pricing_coverage.go:77-87 | adding a row keeps the map equal to the grouping of all rows so far |
| AccountCoverage.IncompleteKeys | apps/manager-server/internal/store/usage_pricing_coverage.go:89-126 | lists exactly the accounts with a key whose totals or times differ, on either side |
| AccountCoverage.Repaired | apps/manager-server/internal/store/store.go:742-792 | an account no longer listed after the merge has exactly the core totals and times, whatever the recovery returned |
| AccountCoverage.LoadAccountSnapshot | apps/manager-server/internal/store/store.go:724-792 | accounts not listed carry exactly the core entries, listed ones could not be resolved, and the snapshot is available exactly when none is listed |
| ModelPriceRules.NormalizeContextTiers | apps/manager-server/internal/model/model_price_rules.go:60-91 | accepts exactly valid tiers with distinct thresholds, and returns the same tiers in strictly increasing order |
| ModelPriceRules.AcceptedTiers | apps/manager-server/internal/model/model_price_rules.go:60-91 | the tiers that are accepted are those with positive, pairwise different thresholds, five finite prices that are not negative, and at least one of them set |
| ModelPriceRules.NormalFormIsUnique | apps/manager-server/internal/model/model_price_rules.go:60-91 | the order the tiers were written in is forgotten |
| ModelPriceRules.SelectContextTier | apps/manager-server/internal/model/model_price_rules.go:93-106 | the early-break loop computes the selection |
| ModelPriceRules.SelectsGreatestBelow | apps/manager-server/internal/model/model_price_rules.go:93-106 | the selection is the greatest threshold strictly below the token count, or none is below it |
| ModelPriceRules.RequestRates | apps/manager-server/internal/model/model_price_rules.go:93-158 | a request is charged the base prices, with each price the tier of the greatest threshold below its tokens configures in place of the base one, an explicit zero included |
| ModelPriceRules.BandResolvesToSameRates | apps/manager-server/internal/model/model_price_rules.go:108-158 | resolving the recorded band later gives the rates the request was given |
| BandPricing.ClampGap | apps/manager-server/internal/service/pricing/cost.go:117-143 | clamping the total loses nothing exactly when excess and deficit do not mix |
| BandPricing.BandGap | apps/manager-server/internal/service/pricing/cost.go:117-143 | the totals of a band never cost more than its requests, and the same exactly under that condition, at any rates |
| BandPricing.SegmentIsCost | apps/manager-server/internal/service/pricing/cost.go:117-143 | with input and output multipliers a segment costs what it does at rates scaled by them |
| BandPricing.EveryTokenOnce | apps/manager-server/internal/service/pricing/cost.go:117-143 | at one rate for everything a request costs that rate for each token of its input and output once, or for the tokens reported of caches where those exceed the input |
| BandPricing.CachePricesFallBack | apps/manager-server/internal/service/pricing/cost.go:127-143 | a cache price that is set, an explicit zero included, is charged; an unset read price is the general cache price, or a tenth of the prompt price if that is not positive, and an unset creation price the prompt price |
| BandPricing.BandTotalsPriceAlike | apps/manager-server/internal/service/pricing/cost.go:117-143 | over exact arithmetic per-band pricing equals per-request pricing exactly when no band with a prompt rate mixes signs |
| BandPricing.LongTotalsPriceAlike | apps/manager-server/internal/service/pricing/cost.go:81-115 | with the long-context premium the totals cost at most what the requests cost one by one, and the same exactly when neither long nor other requests mix signs or the prompt is free |
| BandPricing.MixedBandIsPricedLower | apps/manager-server/internal/service/pricing/cost.go:117-143 | two requests of one band whose totals cost less than they do |
| ServiceTiers.NormalizeServiceTiers | apps/manager-server/internal/model/model_price_rules.go:163-204 | accepts exactly complete rules that share no name, and returns the same rules, normalised and in order |
| ServiceTiers.AcceptedRules | apps/manager-server/internal/model/model_price_rules.go:163-204 | the rules that are accepted are those with both names, sensible prices, and no name in two rules |
| ServiceTiers.SelectServiceTier | apps/manager-server/internal/model/model_price_rules.go:206-219 | the loop returns the first rule that answers to the recorded tier |
| ServiceTiers.SelectionIsUnambiguous | apps/manager-server/internal/model/model_price_rules.go:206-219 | among accepted rules no other rule answers, whatever their order |
| ServiceTiers.SelectsByEitherName | apps/manager-server/internal/model/model_price_rules.go:206-219 | a recorded tier selects a rule exactly when its normalised name is the rule's mode or its provider tier |
| PriceStructure.EntriesDetermined | apps/manager-server/internal/model/model_price_rules.go:255-280 | the length-prefixed bytes determine the entries |
| PriceStructure.StreamsTellStructure | apps/manager-server/internal/model/model_price_rules.go:255-280 | two price books give the same bytes exactly when they have the same models with the same thresholds; rates and orders play no part |
| PriceStructure.StructureBytes | apps/manager-server/internal/model/model_price_rules.go:255-280 | the loops write those bytes in whatever order the map is ranged over |
| Resp.WriteCommand | apps/manager-server/internal/resp/client.go:229-242 | the builder loop writes the command |
| Resp.AtoiItoa | apps/manager-server/internal/resp/client.go:284-324 | a printed length reads back as itself, in digits only |
| Resp.Client.ReadLineBytes | apps/manager-server/internal/resp/client.go:276-282 | consumes the line and its end, and no more |
| Resp.Client.ReadBulkString | apps/manager-server/internal/resp/client.go:284-301 | consumes exactly what the value occupies, or reports the error |
| Resp.Client.ReadArray | apps/manager-server/internal/resp/client.go:303-324 | reads as many values as announced, or reports the error of the first that fails |
| Resp.Client.ReadNextValue | apps/manager-server/internal/resp/client.go:244-274 | reads one value of any type and advances just behind it |
| Resp.CommandReads | apps/manager-server/internal/resp/client.go:229-324 | reading an encoded command gives its arguments, whatever bytes they hold, and leaves what follows |
| Resp.StreamReads | apps/manager-server/internal/resp/client.go:229-324 | a concatenation of commands reads back as the same commands |
| Resp.EncodingIsPrefixFree | apps/manager-server/internal/resp/client.go:229-242 | no encoded command is the start of another |
| Resp.ValueStays | apps/manager-server/internal/resp/client.go:244-324 | what was read or refused does not depend on bytes that arrive later |
| RespReplies.ReplyReads | apps/manager-server/internal/resp/client.go:244-324 | simple strings, integers of either sign, bulk strings of any bytes, the three nulls and arrays of them to any depth read as what they mean and leave what follows |
| RespReplies.RefusalEndsArray | apps/manager-server/internal/resp/client.go:303-324 | the first error reply among the items of an array is the outcome of the array |
| DerivedTasks.Worker.NextRunnableTask | apps/manager-server/internal/worker/usage_pricing_rollup.go:135-143 | the scan returns the first task that is not idle from the cursor on |
| DerivedTasks.Worker.CatchUp | apps/manager-server/internal/worker/usage_pricing_rollup.go:84-133 | the loop performs the pass, and its result tells whether to continue soon |
| DerivedTasks.FirstFiveGoAround | apps/manager-server/internal/worker/usage_pricing_rollup.go:84-143 | the first five picks of a pass are one rotation |
| DerivedTasks.EveryTaskHasATurn | apps/manager-server/internal/worker/usage_pricing_rollup.go:84-143 | a pass of five batches that is not cancelled picks every task |
| DerivedTasks.PickedWithinFive | apps/manager-server/internal/worker/usage_pricing_rollup.go:84-143 | a task that is not idle is picked after at most four others, at any point of the pass |
| DerivedTasks.IdleStaysIdle | apps/manager-server/internal/worker/usage_pricing_rollup.go:84-143 | a task that failed or had nothing to do is not picked again in the pass |
| DerivedTasks.IdleExactly | apps/manager-server/internal/worker/usage_pricing_rollup.go:84-133 | a task is idle exactly when one of its batches in the pass failed, had nothing left, or did nothing without asking to go on |
| DerivedTasks.ContinuesWhileBusy | apps/manager-server/internal/worker/usage_pricing_rollup.go:84-152 | the pass asks to continue exactly when some task is still not idle |

## Left out

- Network, SQLite, files, timers, logging and HTTP: their outcomes are parameters.
- Legacy import: the loops of the inspection pass are functions here; the recognition of exported event records before a legacy export is one predicate; `eventFromLegacyDetail` is an uninterpreted verdict.
- LegacyEvents.MemoryEvents: whether the conversion accepts a detail is a given verdict.
- JsonText.ObjectEnds: a number or a word is any text without quotes and braces, and one gap of blanks stands between all tokens.
- ImportBatcher.AddAll: does not model that a batch's backing array is reused after the consumer returns.
- JSON and YAML lexing; YAML comments, order, anchors and merge keys (the materialize helpers do nothing without them).
- Text is bytes: lower-casing beyond ASCII in provider names is not modelled.
- SqlAgreement.KeysAgreeExactly: requires rows without NUL, where SQLite's text functions stop early, and providers in ASCII, since lower-casing beyond is not modelled; table aliases and the textual rendering of the expression are left out.
- SHA-256 behind the structure revision: the bytes fed to it are modelled.
- Visual configuration: parsing of payload, plugin and key lists for display, the fallback of enumerations that hold an unknown name, YAML nulls, and duplicate lines removed from the ticket models.
- ConfigFields.SecretKeyReadsBack: clearing and replacing are two flags of the form here, of which the panel sets at most one.
- ConfigSave.Save.SetIntFromStringInDoc: numbers are exact integers; beyond 2^53 the panel rounds to a double.
- ConfigSave.Save.SetCompatInt: the same; and the null that is written over a value inherited through YAML aliases, which the tree has not.
- ConfigCleanup.EmptyGroupsGo: leaves out the groups around the Codex fields, of which several parts of the save write, and the routing and sensitive-words groups.
- ConfigOutcome.FormAfterSave: names all fields by paths outside the `auth` section, which the save tidies.
- ConfigDirty: the nested streaming values are fields of their own; all list fields are compared by one given relation.
- Quota cooldowns: credentials keep their index, so the upgrade of a fallback row to an indexed one is not modelled; verdicts on Codex workspace and member evidence are given; timestamps of rows, sub-millisecond times and the content of evidence texts are left out; so are other writers of the table.
- QuotaLosses.LossHasCause: requires credentials the remote can tell apart; two entries with the same file and no distinguishing attribute are outside it.
- QuotaSafety.TargetFacts: whether Codex workspace and member evidence agrees is a given verdict.
- QuotaSafety.FoundAgain: account ids of providers other than Codex, for which the lookup skips the account comparison, are left out.
- QuotaEffects.CandidateIsRecorded: requires a clock that is not before 1970, since the table refuses recovery times that are not positive.
- CollectorLifecycle.ComesOut: that a cancelled consumer returns is left to it; one that never does keeps its waiter until the waiter's own context ends.
- CollectorLifecycle: status fields, the subscribe, HTTP and RESP loops inside a consumer, and `insertedEvents`.
- BandPricing.BandTotalsPriceAlike: floating-point rounding is left out, amounts are exact; so are the service-tier multiplier, which scales both sides alike, and the prices a model family adds to an incomplete entry.
- BandPricing.BandGap: amounts are exact here too.
- PricingCoverage.LoadHourlySnapshot: what the verification of an edge looks at is a given verdict.
- ServiceTiers: lower-casing is a given function of the trimmed name.
- Resp: sockets, deadlines, subscriptions, and the allocation for an announced length.
- DerivedTasks: the running guard around a pass and the status table behind the tasks.
- Retention and migration workers, cluster endpoints, cache accounting and analytics buckets, credential scrubbing, React components: they would add easy members or rest on parts outside this model.

# PH Ledger: a model and its proofs

PH Ledger keeps personal activities in a ledger of sealed, hash-linked blocks.
Activities are captured, paused, resumed and ended in a staging area, then
synced into day blocks with year and month summaries in between. The ledger can
be re-keyed, migrated between formats, diagnosed and cut back; a blind index
caches durations by date and title; staging rows are reconciled between devices
through a remote store.

This project models those parts in Dafny and proves what they promise to each
other. The main results are about whole chains and whole runs:

- everything that writes a chain agrees with the one verifier: syncing
  (`SyncDay`), the two migrations (`MigrateChain`, `FormatUpgrade`) and every
  interleaving of day blocks with soft and hard key rotation (`RotationRuns`);
- the verifier's answer fixes the sealed content of a chain, and what it leaves
  open is stated too (`TamperEvidence`);
- nothing is lost or invented when staged entries move into the ledger, whatever
  the user overrides on the way (`SyncDay`, `LedgerDomains`, `Overrides`), and it is
  settled when the index tells the totals of the remaining chain (`IndexRuns`);
- recorded durations are the time really spent (`Staging`);
- any number of devices converge after two rounds of row sync (`RowSync`), and
  the fast hash comparison decides what the slow one does
  (`StagingHashIndexes`);
- merging indexes is a join although it works on shared dictionaries
  (`IndexManagers`), and the entity-tag cache is invisible (`HttpTransports`);
- the in-place AES code computes the cipher of FIPS 197, and encrypted fields
  decrypt to what was encrypted (`Aes`, `Crypto`, `CryptoManagers`).

## How it is modelled

Blocks and entries are maps from field names to JSON values, so the sets of
fields a seal leaves out are literally sets. HMAC, SHA-256, JSON text, key
derivation and calendar conversions are the functions of one record,
`Blocks.Primitives`; a lemma that needs one of their properties (seals are not
empty, seals are injective, a ciphertext decrypts to its text) requires it by
name. The properties of ciphertexts that the ledger proofs require are those
proved of the concrete framing in `CryptoManagers`. Randomness and clock
readings are parameters. A raised exception is a value.

Each operation is proved against a function, and what the function means is
proved apart, on the fields of the blocks and entries and without naming it:
`Acceptance` for the verifier, `Written` for everything the writers put into a
chain, `RotationKeeps` for rotation, `MigrationMeaning` and `UpgradeMeaning` for
the migrations, `IndexMeaning` for the index, `CipherMeaning` for the cipher.

Code that changes state is a class or a method with loops (`LedgerChain`,
`RotateKeysCommand`, `LedgerDomain`, `StagingArea`, `IndexManager`,
`HttpTransport`, `PureAESCTR`, the steps of AES on an array); each is tied to a
function of its inputs or its old state, and the lemmas are about that function.

Where code and documentation differ, the code is modelled. Findings of that
kind, each with a lemma below: the verifier never checks genesis's own seal;
format versions of later blocks are outside the seal; the v0.4 migration seals
version fields that the verifier leaves out; blocks without a key version do not
verify after a soft rotation, nor summaries after a hard one; the summary policy
and the inline summary logic differ after a gap of months; an absent, a null and an empty
status are one status to the row diff and three to the hash index; reverting an
entry whose title is encrypted takes out of the index what commit never put in,
and the floor at zero swallows what negative durations take out; an override of
a selective sync can reach another entry than its own; a shown negative duration
cannot be read back.

## Model

| member | source | states |
|---|---|---|
| Chain.StepAcceptedIff | domain/ledger/chain.py:384-413 | The verdict the loop reaches on one block, with its order of checks and its exceptions, is acceptance exactly when link, seal, entries, content hashes, identity seal and version all hold. A version may be any value: under a lookup one it does not know rejects and one that cannot be a key raises; against genesis one that does not compare raises. |
| Chain.VerifyAcceptsIff | domain/ledger/chain.py:355-415 | `verify` answers true exactly when every block after genesis is accepted after its predecessor, versions of any kind included; genesis itself is never looked at. |
| Acceptance.StepIs | domain/ledger/chain.py:384-474 | An independent reading of one step on the fields themselves: the link is the first hash there is or what genesis held at the version; the seal covers the entries and all fields but five under the key the version names; every entry hash is one of three digests and, from format 0.4.0 on, every content hash one of three; the tag is the identity's; the version does not exceed genesis's. The verifier's conditions are exactly these. |
| Acceptance.VerifyIs | domain/ledger/chain.py:355-415 | So `verify` answers true exactly on the chains in which every block after genesis is acceptable in that reading. |
| Acceptance.RaisingIs | domain/ledger/chain.py:384-474 | And when it raises at a block: for a version that cannot be looked up or a missing link, a hash that is no text after a right link, a tag that is none after a right seal and right entries, and versions that do not compare after all else. |
| Chain.AcceptedExtends | domain/ledger/chain.py:384-415 | A chain with one more block is accepted exactly when the chain is and the new block is accepted after its last one. |
| Chain.AcceptedPrefix | domain/ledger/chain.py:313-332 | Cutting an accepted chain leaves an accepted chain. |
| Chain.LedgerChain.Verify | domain/ledger/chain.py:355-415 | The loop with its early returns gives the verdict of the first block that is not accepted, or acceptance; an exception is a verdict of its own. |
| Chain.LedgerChain.VerifyStep | domain/ledger/chain.py:384-413 | One turn of that loop: link by key version, single-block check, identity seal, and last the version against genesis's, which raises only here and only when the two do not compare. |
| Chain.LedgerChain.VerifySingleBlock | domain/ledger/chain.py:417-474 | The seal is checked under the key of the block's own version, then every entry of a day block; under a lookup an unknown version, a text among them, rejects and one that cannot be looked up raises; a missing hash field raises. |
| Chain.LedgerChain.VerifyEntries | domain/ledger/chain.py:457-474 | True exactly when every entry has an accepted entry hash and, where required, a valid content hash. |
| Chain.LedgerChain.BuildDayBlock | domain/ledger/chain.py:215-274 | The block built is the sealed block of the canonical entry hashes with the given link and date, numbered one after a last day that has an index and 1 otherwise, its entries in order, each with the digest of its data in the indented layout; the key version is outside the seal. |
| Chain.LedgerChain.AppendBlocks | domain/ledger/chain.py:282-311 | The batch is appended exactly when every block in it links to the one before; otherwise nothing changes. |
| Chain.LedgerChain.Truncate | domain/ledger/chain.py:313-332 | What is returned and what is kept make up the old chain: nothing for a count of 0 or less, as many as asked below the length, and all but genesis from there on. |
| Chain.DayBlockIsSealed | domain/ledger/chain.py:236-274 | The seal of a built block covers type, index, date, link and entries, and not the version or the identity seal. |
| Chain.WrittenBlockStep | domain/ledger/chain.py:417-474 | A block sealed the way every writer seals passes the verifier exactly when it is linked and its entries are valid. |
| ContentHashes.ComputeContentHash | compat/v0_3_0.py:87-99 | The writer's loop stores the digest of the content that has every field under its own name, decrypted or sorted; it raises exactly when a field does not decrypt or a list does not sort. |
| ContentHashes.VerifyContentHash | domain/ledger/chain.py:641-697 | True exactly when the lists sort and the stored text is the digest of the content under stripped names, of the one under suffixed names, or of the nine old fields, each content told field by field; of two fields with one stripped name the later counts. |
| ContentHashes.StoredContentHashIsValid | compat/v0_3_0.py:87-99 | Whatever hash a writer stores, the verifier accepts, through the fallback that keeps the `_enc` names. |
| ContentHashes.ComputeEngineHash | domain/ledger/engine.py:451-476 | The engine's loop stores the digest of the content under stripped names, with what does not decrypt as it is; it raises exactly when a list does not sort. |
| ContentHashes.EngineHashIsValid | domain/ledger/engine.py:451-476 | The verifier accepts every hash the engine stores, on all dictionaries in which storing it leaves the order of the other keys. |
| ContentHashes.ComputingTwiceGivesTheSameHash | compat/v0_3_0.py:90-92 | Storing the hash does not change what is hashed. |
| TamperEvidence.SameHashSameBlock | domain/ledger/chain.py:562-578 | Under an injective seal, equal stored hashes of accepted blocks mean equal sealed fields and the same hash field. |
| TamperEvidence.LastHashFixesTheChain | domain/ledger/chain.py:385-454 | Two equally long accepted chains ending in one hash agree on every sealed field of every block after genesis and on the genesis hash they start from. |
| TamperEvidence.GenesisContentIsNotChecked | domain/ledger/chain.py:384-415 | Without per-version keys two geneses with the same stored hash, key version and content-hash requirement are interchangeable: nothing else of genesis is verified. |
| TamperEvidence.FormatVersionIsNotSealed | domain/ledger/chain.py:448-454 | Setting a format version on any later block of any chain, accepted or not, leaves the verdict as it was, rejections and exceptions included: it lies outside the seal. |
| Repair.DiagnoseChain | scripts/repair_ledger.py:64-114 | The loop finds exactly the broken links, each once and in order, and the longest prefix without one. |
| Repair.ExportedPrefixIsClean | scripts/repair_ledger.py:117-130 | The exported prefix diagnoses clean with its full length, and every longer prefix has a break. |
| Repair.RunsStayLinked | domain/ledger/chain.py:282-332 | Every chain grown and cut from a genesis by any run of appends and truncations keeps its genesis and has no broken link. |
| Repair.TruncateUndoesAppend | domain/ledger/chain.py:313-332 | Truncating as many blocks as were just appended restores the chain. |
| KeyRotation.RotateKeysCommand.PrepareRotation | phpoc_cli/rotate_keys.py:161-221 | Ready, declined or raising, exactly by the seed check, the version guard and the verification of the ledger under the keys of versions 1 to the current one. |
| KeyRotation.RotateKeysCommand.SoftRotate | phpoc_cli/rotate_keys.py:289-344 | A ready ledger gets a re-keyed genesis and nothing else; a declined or failing one is left as it was, with the return value the code gives. |
| KeyRotation.RotateKeysCommand.HardRotate | phpoc_cli/rotate_keys.py:346-465 | A ready and pre-validated ledger is replaced by the fully rewritten one; in every other case it is left as it was. |
| KeyRotation.RotateKeysCommand.RewriteChain | phpoc_cli/rotate_keys.py:386-447 | The loop that fills the old-to-new hash map and the new blocks computes the block-by-block rewriting, and raises where that does. |
| KeyRotation.RotateKeysCommand.Execute | phpoc_cli/rotate_keys.py:492-509 | A ready ledger for which success is reported is hard-rotated when that was asked for or an old seed is given, and soft-rotated otherwise; in every other case it is unchanged. |
| RotationRuns.InvariantImpliesAccepted | domain/ledger/chain.py:355-415 | Every state of the rotation invariant verifies under the lookup of all its versions. |
| RotationRuns.GenesisLink | domain/ledger/chain.py:524-559 | Genesis answers every past version with the hash it had then, and the current one with its own. |
| RotationRuns.AppendKeepsInv | domain/ledger/chain.py:215-311 | Appending a day block at the current version keeps the invariant. |
| RotationRuns.SoftKeepsInv | phpoc_cli/rotate_keys.py:289-344 | A soft rotation succeeds, touches no block after genesis, keeps the identity's secrets and every field of genesis that is no version, seal or hash set aside, raises the version by one and keeps the invariant. |
| RotationRuns.HardPrefix | phpoc_cli/rotate_keys.py:386-447 | The rewriting loop's invariant: every block so far is re-sealed, holds the same plaintext and names the new hash of its predecessor, and the map sends every hash the old chain can name to that. |
| RotationRuns.HardKeepsInv | phpoc_cli/rotate_keys.py:346-465 | A hard rotation succeeds; every secret and every encrypted entry field decrypts to what it did before and every other value is the same; every day keeps all its fields but version, link and seals, genesis all but identity, versions, seals and the hash set aside; the rewritten chain is linked and satisfies the invariant, with no assumption that hashes differ. |
| RotationRuns.FreshGenesisStartsARun | phpoc_cli/rotate_keys.py:289-344 | A genesis sealed at a version of at least 1 with nothing stored for later versions starts a run. |
| RotationRuns.RunsVerify | phpoc_cli/rotate_keys.py:289-465 | After every interleaving of day blocks, soft and hard rotations the ledger verifies, and the version has gone up once per rotation. |
| RotationKeeps.RunsSayTheSame | phpoc_cli/rotate_keys.py:289-465 | Over every run the ledger goes on saying what it said: the secrets and every other field of genesis, and of every day its date, its number, its other fields and the plaintext of its entries. |
| RotationKeeps.RunsNumberDays | domain/ledger/chain.py:239-242 | Over every run the days it appended are numbered one after the day right before them, and 1 after anything else. |
| RotationKeeps.AppendWrites | domain/ledger/chain.py:215-274 | A day appended at the current version holds its date, its number, the hash of the block before, its hashed entries and its seals, and nothing more. |
| RotationKeeps.SoftRewrites | phpoc_cli/rotate_keys.py:289-344 | Of any chain, readable or not by the verifier, a soft rotation rewrites genesis alone: fresh ciphertexts of the identity's secrets, the next version, a format version of at least 0.5.0, the old hash set aside, a seal and a signature under the new key. |
| RotationKeeps.HardRewrites | phpoc_cli/rotate_keys.py:386-459 | Of any chain a hard rotation rewrites genesis like that and every day as fresh ciphertexts of the same texts, texts of up to 40 characters untouched; any other block, summaries among them, gets the version and nothing else. |
| RotationRuns.HeldOnlyGrows | phpoc_cli/rotate_keys.py:307-333 | Over every run the hash recorded for a version never changes again. |
| RotationRuns.GenesisRemembersEveryVersion | phpoc_cli/rotate_keys.py:314-333 | Once a version is past, genesis stores under `prev_block_hash_v{version}` the very hash it had while that version was current. |
| RotationRuns.CommandIsReady | phpoc_cli/rotate_keys.py:161-221 | The guards of the command let every ledger of a run rotate, so a rotation by the command is a step of the run. |
| RotationKeeps.ReadyIs | phpoc_cli/rotate_keys.py:161-221 | A rotation starts exactly on a ledger whose identity secret decrypts under the old seed, or the seed when no old one is given, at genesis's version, 1 if it names none; whose version is not ahead of the one the caller names; and all of whose blocks are acceptable under the keys of versions 1 to that one. |
| RotationKeeps.PreValidatedIs | phpoc_cli/rotate_keys.py:372-383 | A hard rotation goes ahead exactly when every encrypted text of more than 40 characters in a day decrypts with the key of the day's version, 1 if it names none. |
| RotationLimits.SoftVerifiesIff | domain/ledger/chain.py:439-454 | A ledger that verifies still does after a soft rotation exactly when every block after genesis names its version, the ledger of that kind being one of a run: a block without one, as the sync writes it, is then checked under the new key. |
| RotationLimits.HardVerifiesIff | phpoc_cli/rotate_keys.py:386-459 | It still does after a hard rotation exactly when every block after genesis is a day, the ledger of that kind being one of a run: a summary gets the new version and keeps its old seal. |
| Summaries.GetSummaryBlocks | domain/ledger/summary_policy.py:106-186 | The policy's method appends the year summary and then the month summary the boundaries call for, each linked to the one before, or raises on a date it cannot read. |
| Summaries.PlansAgreeIff | domain/ledger/summary_policy.py:106-186 | After an ordinary record, policy and inline logic plan the same summaries exactly when the month is the same or the next of the same year, or a later year starts in January. |
| Summaries.PlanBlocksInjective | domain/ledger/summary_policy.py:49-85 | Different plans make different blocks. |
| Summaries.PolicyMatchesInlineIff | compat/v0_3_0.py:539-567 | On the blocks themselves: after an ordinary record both write the same summaries exactly when none is due, or when the next period begins and the record's hash can be linked to, so that the two links agree. |
| Summaries.GapSummarizesAnotherMonth | compat/v0_3_0.py:556-567 | From January to March the two write different blocks: the policy summarizes February and the inline logic January. |
| Summaries.YearSummaryHash | domain/ledger/summary_policy.py:49-66 | What the next block names as its link is the year hash. |
| SummaryRuns.AddPlan | domain/ledger/summary_policy.py:106-186 | The blocks of a plan keep a linked chain linked, are at most two, and add just the plan's labels. |
| SummaryRuns.AddDayGrows | domain/ledger/summary_policy.py:106-186 | One more day keeps the chain linked and both lists of labels strictly increasing, with at most two summaries before the day block. |
| SummaryRuns.RunsGrow | domain/ledger/summary_policy.py:106-186 | Over every run of non-decreasing dates no month and no year is summarized twice or out of order, the chain stays linked, and the old chain is a prefix. |
| SummaryRuns.RunsFromGenesisGrow | domain/ledger/summary_policy.py:106-186 | From any dated genesis on: every such run succeeds, the chain is linked throughout, and its month and year labels increase strictly, at most two summaries for each day block. |
| Written.PolicyWrites | domain/ledger/summary_policy.py:106-186 | What the policy writes, field by field: the year before when it is over, and the month before the new day's unless it is covered; each block with its label, its date, its link, its seals and nothing more. It raises exactly when a date or a month cannot be read. |
| Written.RunsNumber | domain/ledger/chain.py:239-242 | Over every run under the policy each day is written like that after its summaries, and numbered one after the day right before it, 1 after anything else. |
| EntryCommit.CommitKeepsView | compat/v0_3_0.py:497-528 | Committing an entry keeps everything it says in plaintext; its stored hashes verify; title and duration are untouched. |
| EntryCommit.ClockIs | compat/v0_3_0.py:499-520 | What an entry says of its times is what its four structural fields tell, behind "plain:" or as ciphertexts. |
| EntryCommit.CommitStores | compat/v0_3_0.py:522-528 | What a committed entry stores: times, metadata and pauses as fresh ciphertexts, the digest of its decrypted content, and the digest of all of that in the compact layout. |
| EntryCommit.CommitDatesByStart | compat/v0_3_0.py:498-531 | The day an entry is filed under is the UTC day of the number its start field tells. |
| EntryCommit.NormalizingKeepsView | compat/v0_3_0.py:436-447 | Normalizing, also when it stops half way, keeps everything an entry says. |
| EntryCommit.NormalizedIff | compat/v0_3_0.py:436-447 | Normalizing succeeds exactly when each of the four fields is in the clear already or decrypts; then all of them are. |
| SyncDay.PlanAccepted | compat/v0_3_0.py:539-567 | Summaries written before a day leave an accepted ledger accepted and linkable. |
| SyncDay.SyncAccepted | compat/v0_3_0.py:637-739 | Every sync of an accepted, linkable ledger leaves it accepted, content hashes required or not, with the old chain an unchanged prefix. |
| SyncDay.SyncAcceptedIff | compat/v0_3_0.py:637-739 | After a sync that wrote something the ledger verifies exactly when the old last block carried a hash that could be linked to. |
| SyncDay.HashlessGenesisIsRejected | compat/v0_3_0.py:547-552 | A genesis without any hash is the failing input: it is accepted, and no sync onto it that writes something is, because the writer links to null and the verifier asks for the empty text. |
| SyncDay.AcceptedIsReady | compat/v0_3_0.py:539-560 | An accepted ledger with a block after genesis can always be linked to. |
| SyncDay.SyncKeepsIndex | compat/v0_3_0.py:716-737 | If the index tells, for every date and title, the total over all day blocks, it does so after every sync. |
| SyncDay.SyncConserves | compat/v0_3_0.py:637-739 | What the ledger says afterwards, as a multiset of plaintext entries, is what it said before plus the entries synced. |
| Written.SyncWrites | compat/v0_3_0.py:637-739 | Everything a sync writes: one ledger after another, for each date in ascending order, with the summaries due and a day block that holds the committed entries of the date in their order, every block told field by field. |
| Written.SyncNumbers | compat/v0_3_0.py:723-726 | After every sync each day it appended is numbered one after the day right before it, and 1 after a summary or genesis. |
| Written.InlineWrites | compat/v0_3_0.py:688-714 | The summaries of the inline logic: the year of the record before when a later one begins, its month when one with a greater number begins, unless the record is such a summary; it raises exactly when a date cannot be read. |
| LedgerDomains.LedgerDomain.SyncDay | compat/v0_3_0.py:637-739 | Nothing, failure or a sync of exactly the entries that are not active; on success the active ones stay in staging in order and the start of the last day's hash is returned, and without success nothing changes. |
| LedgerDomains.LedgerDomain.SyncDayWithSelection | compat/v0_3_0.py:449-603 | The selected entries are normalized, overridden and synced; staging keeps the rest, less those marked for removal, and the start of the last day's hash is returned. It fails only when there is no ledger, an override cannot be applied, or no sync of the entries exists, and without success nothing changes. |
| LedgerDomains.PickedByOrder | compat/v0_3_0.py:454-468 | The entries selected are, in the order of the visit, those listed that are not active, and of these the ones whose four fields are in the clear or decrypt. |
| LedgerDomains.RemainingAre | compat/v0_3_0.py:592-602 | What stays staged is, in order, what is active or neither synced nor marked for removal. |
| LedgerDomains.LedgerDomain.InsertSummaries | compat/v0_3_0.py:539-567 | The boundary checks append the summaries of the inline plan, or raise. |
| LedgerDomains.LedgerDomain.UpdateIndex | compat/v0_3_0.py:569-574 | The loop adds every entry's duration under its date and title, or raises on a missing one. |
| LedgerDomains.LedgerDomain.PostCommitted | compat/v0_3_0.py:524-590 | The committed entries are grouped by day in order and posted in ascending order of the days. |
| LedgerDomains.LedgerDomain.CommitEntries | compat/v0_3_0.py:497-528 | The entry loop commits each entry in turn, or raises at the first that cannot be. |
| LedgerDomains.SelectionConserves | compat/v0_3_0.py:449-603 | A selection without overrides conserves: ledger, remaining staging and removed entries together say what ledger and staging said before. |
| Overrides.OverridesReachTheirOwnIff | compat/v0_3_0.py:454-484 | Whatever the overrides say, each reaches the entry it was given for exactly when the caller's list names every kept position that has one at its place in the order of the visit, and no other position that has one. |
| Overrides.CommentLandsOnAnotherEntry | compat/v0_3_0.py:476-480 | With two entries listed last one first, the comment given for the second becomes that of the first. |
| Overrides.OverridingKeeps | compat/v0_3_0.py:479-494 | An override sets the end, the comment and the media it names and the duration that goes with the end; the time paused and every other field stay. |
| Overrides.OverridesConserve | compat/v0_3_0.py:449-603 | A selection with any overrides conserves: what stays, what was removed and the entries taken say together what staging said, and the ledger gains exactly these entries, each as it was but for its override. |
| LedgerDomains.SyncDayConserves | compat/v0_3_0.py:637-739 | Ledger and remaining staging together say what ledger and staging said before. |
| TextOrder.SortTexts | compat/v0_3_0.py:686-688 | The days are listed in ascending order, each once. |
| TextOrder.AscendingIsUnique | compat/v0_3_0.py:686-688 | There is only one such listing. |
| TextOrder.TextLessIs | compat/v0_3_0.py:686 | One text comes before another exactly when it stops first, or has the smaller character where they first differ. |
| MigrateChain.MigrateChain | phpoc_cli/migrate.py:122-206 | Raises on an empty chain and on one that does not start with genesis; on every other one it returns the migrated chain: its self-verification never raises. |
| MigrateChain.VerifyMigratedChain | phpoc_cli/migrate.py:57-119 | The scan computes the first fault in its order: genesis fields, format version, seals, links. |
| MigrationMeaning.ScanIs | phpoc_cli/migrate.py:57-119 | Told on the blocks: the scan reports the first fault there is, a version anywhere, then genesis's hash field, then a missing or wrong seal, then a wrong link, and passes exactly when there is none. |
| MigrationMeaning.MigrationMeans | phpoc_cli/migrate.py:122-206 | The migrated chain has no such fault, and its days hold their entries' data in order, each with its digest in the indented layout. |
| MigrateChain.WellMigratedPasses | phpoc_cli/migrate.py:57-119 | Every chain that starts with a stripped genesis, is sealed throughout and linked passes the scan. |
| MigrateChain.MigratedIsWell | phpoc_cli/migrate.py:122-206 | The migrated chain is such a chain. |
| MigrateChain.MigrationIsIdempotent | phpoc_cli/migrate.py:122-206 | Migrating a migrated chain changes nothing. |
| MigrateChain.MigrationKeepsTheRest | phpoc_cli/migrate.py:122-206 | Every field other than format version, link, own hash and genesis's `day_hash` is kept, and every entry keeps its data. |
| MigrateChain.MigratedAcceptedIff | phpoc_cli/migrate.py:122-206 | The verifier without identity secret accepts the result exactly when no later block has a key version above genesis's or one that does not compare with it, and entries of untyped blocks already had accepted hashes. |
| FormatUpgrade.Migrate | scripts/migrate_format_version.py:333-383 | Contents first and seals afterwards give the block-by-block migration, and it fails exactly when some entry does not decrypt or sort. |
| FormatUpgrade.RecomputeContents | scripts/migrate_format_version.py:145-185 | Every entry of a day block gets its content hash and then its entry hash anew, or the block fails. |
| FormatUpgrade.CascadeSeals | scripts/migrate_format_version.py:188-249 | The loop re-links and re-seals each block on the one already written. |
| FormatUpgrade.CascadeIsUpgrade | scripts/migrate_format_version.py:333-383 | The two passes are one pass. |
| FormatUpgrade.VerifyChain | scripts/migrate_format_version.py:252-330 | The script's check lists the problems of every block in its order. |
| FormatUpgrade.SelfCheckCannotFail | scripts/migrate_format_version.py:252-330 | The script's check finds no problem in what the script wrote. |
| UpgradeMeaning.UpgradeMeans | scripts/migrate_format_version.py:188-249 | Block by block: genesis says 0.4.0; every block is sealed over all but its hash and signatures, signed anew if it was signed, and names the hash of the one before; every entry of a day stores the digests of its decrypted content and of its data. |
| UpgradeMeaning.UpgradeAsks | scripts/migrate_format_version.py:188-249 | So the chain verifier asks for content hashes in every migrated chain. |
| UpgradeMeaning.ProblemsAre | scripts/migrate_format_version.py:252-330 | The self-check reports exactly the problems there are: of links, seals, signatures, entry hashes and content hashes. |
| FormatUpgrade.UpgradesIff | scripts/migrate_format_version.py:145-185 | The migration succeeds exactly on chains whose entries all decrypt and sort. |
| FormatUpgrade.UpgradeIsIdempotent | scripts/migrate_format_version.py:333-383 | Migrating again changes nothing. |
| FormatUpgrade.UpgradeKeepsTheRest | scripts/migrate_format_version.py:188-249 | Only own hash, link, genesis's format version, an identity seal that was there, entry hashes and content hashes change. |
| FormatUpgrade.UpgradedAcceptedIff | domain/ledger/chain.py:355-474 | The chain verifier, with content hashes and identity seals, accepts the result exactly when no block after genesis carries a version field: the script seals those fields and the verifier leaves them out. |
| FormatUpgrade.VersionedDayIsRejected | domain/ledger/chain.py:448-454 | A genesis and one empty day block that names a format version is the failing input: it migrates, and the verifier rejects the result. |
| Staging.ComputeDuration | compat/v0_3_0.py:122-127 | End minus start minus all closed pauses, and not below zero. |
| Staging.StagingArea.CaptureHabit | compat/v0_3_0.py:150-182 | Raises exactly when the start is taken; otherwise one activity is appended, its duration the span given or zero. |
| Staging.StagingArea.EndHabit | compat/v0_3_0.py:184-211 | The first active activity of the title is closed with the given end and comment, its open pause first; raises when there is none. |
| Staging.StagingArea.PauseHabit | compat/v0_3_0.py:242-263 | The first active activity of the title gets its next numbered open pause; raises when there is none or it is paused. |
| Staging.StagingArea.UnpauseHabit | compat/v0_3_0.py:265-291 | Its open pause is closed and the duration so far recorded; raises when there is none or it is not paused. |
| Staging.CloseTotals | compat/v0_3_0.py:194-196 | Closing the open pause adds exactly the time waited to the paused total. |
| Staging.EndFits | compat/v0_3_0.py:184-211 | Ending records exactly the time the activity has been running, and the cut-off at zero has no effect. |
| Staging.ResumeFits | compat/v0_3_0.py:265-291 | Resuming records exactly the time run so far, again without the cut-off at zero. |
| Staging.StepFits | compat/v0_3_0.py:150-291 | Every event, also a rejected one, leaves the staging area telling what stopwatches driven by the same events show, ends and comments included, and is answered as they say. |
| Staging.RunsFit | compat/v0_3_0.py:150-291 | Over every run with non-decreasing clocks: start epochs distinct, pauses numbered 1 to n in order without overlap, at most the last one open and exactly while paused, which implies active, and durations equal to the time spent running. |
| Staging.FinishedActivitiesRecordTheirRunningTime | compat/v0_3_0.py:122-211 | From an empty area every live activity that is over records its running time, which is its stored end less its start and its closed pauses. |
| Staging.RunsStoreNothingInTheClear | compat/v0_3_0.py:150-291 | Over every run all times and pauses the operations store are encrypted. |
| IndexManagers.IndexManager.Update | domain/ledger/index_manager.py:88-118 | The total moves by the amount; at zero or below the title goes, and an empty date with it; an unknown date with nothing to add is left alone. The change is written through. |
| IndexManagers.IndexManager.Query | domain/ledger/index_manager.py:120-139 | The titles of the dates in the range, each with its total over them; nothing for an inverted range. |
| IndexManagers.IndexManager.GetAll | domain/ledger/index_manager.py:84-86 | The copy shares its inner dictionaries with the manager. |
| IndexManagers.IndexManager.Clear | domain/ledger/index_manager.py:141-144 | The index is empty, in memory and in the store. |
| IndexManagers.UpdatedAt | domain/ledger/index_manager.py:88-118 | One total moves and is held at zero from below; every other total is as before. |
| IndexManagers.UpdatedIsNormal | domain/ledger/index_manager.py:88-118 | All totals stay positive and no date becomes empty. |
| IndexManagers.AdjacentRangesAddUp | domain/ledger/index_manager.py:120-139 | The answers over two ranges with no indexed date between them add up, title by title, to the answer over both. |
| IndexManagers.MergeRemoteIndex | phpoc_cli/interface.py:674-694 | Although it raises the manager's own dictionaries through the shared copy before clearing, the result is the join of the old index and the remote one. |
| IndexManagers.JoinedIs | phpoc_cli/interface.py:674-694 | The join is the pointwise maximum, at least zero, in normal form. |
| IndexManagers.JoinIsIdempotent | phpoc_cli/interface.py:674-694 | Merging the same remote index again changes nothing. |
| IndexManagers.JoinIsCommutative | phpoc_cli/interface.py:674-694 | Local and remote may change places. |
| IndexManagers.JoinIsAssociative | phpoc_cli/interface.py:674-694 | Merges may be grouped in any way. |
| IndexManagers.MergeOrderDoesNotMatter | phpoc_cli/interface.py:674-694 | Merging any list of remote indexes depends only on which ones are in it. |
| IndexRuns.PostBlocks | domain/ledger/engine.py:331-380 | Every entry of every day block moves the index once, in the order of the blocks: commit and rebuild add its duration as it is stored, unless its title is only there encrypted; revert first restores an encrypted title and duration and subtracts what it then reads. |
| IndexRuns.RebuildIndex | domain/ledger/engine.py:398-418 | The index is cleared and holds what posting the whole chain leaves. |
| IndexRuns.Revert | domain/ledger/engine.py:291-390 | Keeps the blocks before the last days asked for, takes what follows out of the index, and says how many entries that held; -1 when there are fewer days, and nothing happens for that and for a count of 0 or less. |
| IndexRuns.DayIndicesAre | domain/ledger/engine.py:311-314 | The days counted are all blocks of type day or of none, in ascending order. |
| IndexRuns.RevertIsCut | domain/ledger/engine.py:311-320 | Reverting day blocks keeps exactly the chain before the first of them: it is one cut of the runs below. |
| IndexRuns.IndexAfterRun | domain/ledger/engine.py:243-389 | After any run of appended and cut blocks, whatever the durations and whatever is encrypted, the index is in normal form, and each total is the sum of its changes less their least prefix sum. |
| IndexMeaning.TotalMeans | domain/ledger/engine.py:259-264 | The total of a committed chain is the sum of the durations of the entries filed under the date and title: their own title, or none if they have none, not even an encrypted one. |
| IndexMeaning.TellsMeans | domain/ledger/engine.py:259-264 | So an index tells a chain exactly when it is in normal form and holds the positive part of that sum everywhere. |
| IndexMeaning.RevertTakesOut | domain/ledger/engine.py:352-380 | What revert takes out of the index for an entry is the duration under the title it restores, each from its encrypted field where that decrypts. |
| IndexRuns.IndexTellsIff | domain/ledger/engine.py:243-389 | It tells the chain that remains exactly when for every date and title that value is the positive part of the sum plus what the cuts took out and commit had not put in. |
| IndexRuns.PlainRunsTellIff | domain/ledger/engine.py:243-389 | When nothing of titles and durations is encrypted: exactly when no beginning of the changes to a date and title adds up to less than both zero and their sum. |
| IndexRuns.IndexFollowsRuns | domain/ledger/engine.py:243-389 | In particular over every run without encrypted titles and negative durations the index tells exactly the totals over the chain that remains. |
| IndexRuns.CutTellsIff | domain/ledger/engine.py:331-389 | A revert of committed blocks with non-negative durations leaves the index telling the kept chain exactly when for every date and title the kept total is zero or nothing under that title was encrypted in the blocks cut. |
| IndexRuns.RebuildTells | domain/ledger/engine.py:398-418 | With non-negative durations a rebuilt index tells the chain. |
| IndexRuns.RebuildGivesTheSameIff | domain/ledger/engine.py:398-418 | So it is the very index a run has kept exactly when that one tells the chain. |
| IndexRuns.NegativeDurationsDrift | domain/ledger/index_manager.py:109-118 | A negative duration committed and reverted is a failing run: nothing but genesis remains and the index holds five. |
| IndexRuns.ConcealedDurationsDrift | domain/ledger/engine.py:352-380 | An entry with an encrypted title, committed after a plain one of that title and day and reverted, is another: the index holds six, the chain and a rebuilt index ten. |
| CommittedSelection.SelectCommitted | phpoc_cli/interface.py:716-738 | The loop selects, in order, exactly the entries with a title before which fewer entries of their date and title stand than are committed. |
| CommittedSelection.SelectionMatchesCounts | phpoc_cli/interface.py:716-738 | Of each date and title as many are selected as are both staged and committed. |
| RowSync.BuildDiff | core/sync/diff_engine.py:46-138 | The loops fill the plan with the ids to pull, push and delete, in their order; absent inputs count as empty. |
| RowSync.PlanIsExact | core/sync/diff_engine.py:94-136 | On the rows' own timestamps and statuses: an id only the remote has, or with the later remote row, or with equal times and another status is pulled; one with the later local row, or only local and uncommitted, is pushed; one only local and committed is deleted. An absent timestamp counts as 0. No id appears twice, and the fast path is taken exactly when nothing is pulled or pushed. |
| RowSync.LookupIs | core/sync/diff_engine.py:77-87 | The lookup has the last row of every id that is not empty, and nothing else. |
| RowSync.PlanKeepsOrder | core/sync/diff_engine.py:94-131 | The lists of the plan follow the order in which their ids first appear, remote ones before new local ones. |
| RowSync.EmptyPlanIff | core/sync/diff_engine.py:94-136 | The plan is empty and on the fast path exactly when both sides agree on ids, timestamps and statuses. |
| RowSync.PlanGivesStep | core/sync/diff_engine.py:94-136 | Acting on the lists of the plan is the step the runs are made of. |
| RowSync.SyncAgrees | core/sync/diff_engine.py:94-136 | One sync makes the two sides agree and only ever raises the remote. |
| RowSync.FirstRound | core/sync/diff_engine.py:94-136 | Once every device has synced, none holds anything newer than the remote. |
| RowSync.SecondRound | core/sync/diff_engine.py:94-136 | From then on the remote stands still, and every device that syncs agrees with it for good. |
| RowSync.RemoteIsNewest | core/sync/diff_engine.py:94-136 | After one round the remote holds exactly the ids it had or some device had uncommitted, each with a row that was somewhere at the start and than which no row of the id anywhere was later. |
| RowSync.CommittedStayAway | core/sync/diff_engine.py:127-129 | An id that is committed and not on the remote never gets onto it. |
| RowSync.TwoRoundsConverge | core/sync/diff_engine.py:46-138 | From any state, after every device has synced and synced again in any order: all agree with the remote, which holds the newest rows of exactly the ids that can live, and any further sync gets the empty plan on the fast path. |
| RowSync.OneRoundIsNotEnough | core/sync/diff_engine.py:46-138 | One round does not suffice: a device that synced before another one sent a row misses that row. |
| RowSync.AgreementIsFinal | core/sync/diff_engine.py:94-136 | Once two sides agree no sync changes either of them, so activities that differ by then differ for good. |
| StagingHashIndexes.Build | core/staging_hash_index.py:41-65 | The entries of the rows with an id, an absent status read as "active", in stable order of the ids. |
| StagingHashIndexes.BuildLookupMap | core/staging_hash_index.py:94-104 | The last status of each id, an absent one read as "active". |
| StagingHashIndexes.IndexedMeans | core/staging_hash_index.py:41-65 | The entries built are, in row order, those of the rows with an id, an absent status as "active". |
| StagingHashIndexes.StatusesMean | core/staging_hash_index.py:94-104 | The lookup has the status of the last entry of every id that is not empty, an absent one as "active". |
| StagingHashIndexes.Compare | core/staging_hash_index.py:107-159 | Exactly the added, removed and changed ids, each list ascending, and identical exactly when the two lookups are equal. |
| StagingHashIndexes.SortIsStable | core/staging_hash_index.py:64-85 | Sorting orders by id and keeps the entries of each id in their order. |
| StagingHashIndexes.OrderedIsUnique | core/staging_hash_index.py:83-87 | There is only one such ordering. |
| StagingHashIndexes.HashIgnoresOrder | core/staging_hash_index.py:72-87 | With distinct ids the hash does not depend on the order of the entries. |
| StagingHashIndexes.HashesAlikeIff | core/staging_hash_index.py:72-87 | Under an injective digest two indexes hash alike exactly when they list the same entries under every id. |
| StagingHashIndexes.HashAgreesWithComparison | core/staging_hash_index.py:72-159 | Indexes that hash alike compare as identical; with distinct ids the converse holds. |
| StagingHashIndexes.RepeatedIdsHashApart | core/staging_hash_index.py:94-104 | Without distinct ids two indexes can compare as identical and hash apart: an overwritten entry still goes into the hash. |
| StagingHashIndexes.CompareSwaps | core/staging_hash_index.py:134-159 | Swapping the arguments swaps added and removed and nothing else. |
| StagingHashIndexes.EmptyPlanIdenticalIff | core/sync/diff_engine.py:115-121 | When the row diff has nothing to do, the indexes are identical exactly when rows without a status text lack it in the same way. |
| StagingHashIndexes.MissingAndEmptyPart | core/staging_hash_index.py:56-65 | A row without a status and one with an empty status are the failing input: the row diff has nothing to do and the indexes are not identical. |
| StagingHashIndexes.IdenticalPlanIsEmptyIff | core/staging_hash_index.py:56-65 | When the indexes are identical, the row diff has nothing to do exactly when timestamps agree too and no absent status faces an explicit "active". |
| HttpTransports.HttpTransport.GetCachedEntry | core/sync/http_transport.py:373-396 | An entry that has not expired, or none; an expired one is evicted. |
| HttpTransports.HttpTransport.Pull | core/sync/http_transport.py:125-193 | Result and cache for every reply: cached body on 304, bytes on 200 and cached if there is a tag, None on 404, an error otherwise. |
| HttpTransports.HttpTransport.Push | core/sync/http_transport.py:195-238 | The path leaves the cache exactly on a 2xx status; success is reported exactly when the body of such a reply arrives too. |
| HttpTransports.HttpTransport.Delete | core/sync/http_transport.py:240-280 | The path leaves the cache exactly on 200, 202, 204 and 404; success is reported exactly when the body of such a reply arrives too. |
| HttpTransports.HttpTransport.EvictStale | core/sync/http_transport.py:351-371 | Exactly the expired entries go, and their number is returned; without a lifetime none do. |
| HttpTransports.HttpTransport.ResetCache | core/sync/http_transport.py:343-349 | The cache is empty. |
| HttpTransports.NextIsSound | core/sync/http_transport.py:147-396 | Whatever happens next, every cached body remains the one its tag stands for. |
| HttpTransports.PullReads | core/sync/http_transport.py:147-179 | An answered pull reads what a store without a cache reads; an unanswered one raises. |
| HttpTransports.EveryPullReadsTheServer | core/sync/http_transport.py:125-396 | In every interleaving of own requests, whether or not their answers arrive, other clients' writes, clock changes, expiry, eviction and resets, every answered pull returns what the server holds at that moment or None. |
| HttpTransports.FreshTransportReadsTheServer | core/sync/http_transport.py:125-396 | From a fresh transport it is enough for this that the server's tags tell bytes apart. |
| HttpTransports.TaggedBodyIsKept | core/sync/http_transport.py:147-175 | The cache is of use: after an answer with a tag the next pull of the path within the lifetime sends that tag, and a 304 brings back that body. |
| HttpTransports.PullReadsIff | core/sync/http_transport.py:160-168 | Without any assumption on tags: an answered pull is right exactly when the body behind a 304 is still current. |
| Galois.XtimeMultiplies | security/crypto.py:29-30 | `_xtime` and what is made of it are products with 2 and 3 modulo the field polynomial of section 4.2 of FIPS 197. |
| Galois.XtimeIsLinear | security/crypto.py:29-30 | `_xtime` of a sum is the sum. |
| Galois.TableSubstitutes | security/crypto.py:32-49 | Every entry of the table is the affine image of the multiplicative inverse, as section 5.1.1 of FIPS 197 defines it. |
| Galois.OnlyTheInverse | security/crypto.py:32-49 | No byte but the inverse has that entry as its affine image, so the entry determines the inverse. |
| Aes.SubBytesInPlace | security/crypto.py:11-13 | Every byte of the state is substituted. |
| Aes.ShiftRowsInPlace | security/crypto.py:15-18 | The assignments move row r by r columns, as section 5.1.2 of FIPS 197 says. |
| Aes.MixColumnsInPlace | security/crypto.py:20-27 | The in-place shortcut computes the matrix product of section 5.1.3 of FIPS 197 on every state. |
| Aes.MixedIs | security/crypto.py:20-27 | The four bytes the shortcut computes for a column are the four rows of the matrix times the column. |
| Aes.RconIsTheRoundConstant | security/crypto.py:51-53 | Entries 1 to 10 of the table are the powers of x in the field, as section 5.2 of FIPS 197 asks. |
| Aes.ExpandKey | security/crypto.py:55-64 | The loop produces the 44 words of section 5.2 of FIPS 197. |
| Aes.EncryptBlock | security/crypto.py:66-77 | The in-place rounds compute the functional cipher of section 5.1 of FIPS 197 over any schedule. |
| CipherMeaning.CipherMeans | security/crypto.py:66-77 | An independent reading of section 5.1 of FIPS 197 on the bytes: the key is added, nine full rounds follow and a last one without mixing, with bytes substituted by the affine images of their inverses, rows shifted, columns multiplied and the round's key added. What the code computes is that. |
| CipherMeaning.WordsMean | security/crypto.py:55-64 | The same for the key expansion of section 5.2: the key first, then each word from the one before and the one four before, every fourth rotated, substituted and given its power of x. |
| Crypto.PureAESCTR.constructor | security/crypto.py:81-82 | The key held is the expanded one. |
| Crypto.PureAESCTR.Process | security/crypto.py:84-95 | Every byte plus the byte of the encrypted counter at its position; raises exactly when the counter outgrows its eight bytes. |
| CipherMeaning.ProcessMeans | security/crypto.py:84-95 | Every byte of the output is that of the input plus the byte of an enciphered block of nonce and counter, the counter the number of 16 bytes before it; inputs of more than 2^68 bytes raise. |
| Crypto.CtrUndoesItself | security/crypto.py:84-95 | Processing twice gives every input back. |
| Crypto.CounterBlocksDiffer | security/crypto.py:88-90 | Within a message no counter block repeats. |
| Crypto.BigEndianIsExact | security/crypto.py:89-90 | Packing a counter that fits loses nothing. |
| CryptoManagers.CryptoManager.Encrypt | security/crypto.py:161-171 | The frame is hex over salt, nonce, ciphertext and tag. |
| CipherMeaning.EncryptMeans | security/crypto.py:161-171 | The text is the hexadecimal form of salt, nonce, the bytes enciphered under the key derived from the salt, and the tag over nonce and enciphered bytes under the key derived for integrity. |
| CryptoManagers.CryptoManager.Decrypt | security/crypto.py:173-207 | The tag decides which form a long input has; short inputs are the old form; raises when `bytes.fromhex`, `struct.pack` or the decoding of the bytes does. |
| CryptoManagers.DecryptUndoesEncrypt | security/crypto.py:161-207 | Every text decrypts to itself, for every salt and nonce. |
| CryptoManagers.LegacyDecryptsIff | security/crypto.py:178-207 | An untagged ciphertext of any length decrypts to its text exactly when its last 32 bytes are not the tag of the rest. |
| CryptoManagers.ShortTextsIgnoreTheKey | security/crypto.py:173-207 | Texts of fewer than 48 characters decrypt alike under every key. |
| CryptoManagers.CiphertextsLookApart | security/crypto.py:161-171 | A ciphertext has at least 112 characters and never reads as a "plain:" text. |
| Crypto.UnhexOfHex | security/crypto.py:171-174 | Hexadecimal text reads back as its bytes. |
| CipherMeaning.HexMeans | security/crypto.py:171 | Every byte is written as its two lower-case digits, in order. |
| CipherMeaning.UnhexMeans | security/crypto.py:174 | Text without white space reads as exactly the bytes it spells, in either case, and any other such text raises. |
| Durations.ParseEnd | phpoc_cli/strategies.py:244-282 | The offset and duration branches: the first number before each unit counts. |
| Durations.OffsetsMoveTheEnd | phpoc_cli/strategies.py:252-267 | An offset moves the end by so many hours, minutes or seconds, minutes when no unit is given. |
| Durations.ShownDurationReadsBack | phpoc_cli/strategies.py:236-282 | A shown duration that is not negative reads back as that many whole seconds after the start; a negative one is not read. |

## Left out

- Blocks.Primitives: HMAC, SHA-256, JSON text, the nine-field content of old entries, number and date conversions are arbitrary functions; the order of a dictionary's keys is a function of its set of keys.
- Chain.LedgerChain.Verify: an entry has a text hash and a data dictionary, so the exceptions for entries without either, and those of comparing texts that are not ASCII, are not modelled; key versions are JSON values, of which fractions are not modelled.
- Chain.LedgerChain.BuildDayBlock: a last day whose index is not an integer counts as one without; the code raises there.
- ContentHashes.EngineHashIsValid: requires that storing the content hash leaves the order of the other keys, as a dictionary does.
- KeyRotation.RotateKeysCommand.Execute: the rewriting of staging, index, session and cookie around a rotation, backups and pushes are not modelled; `backedUp` says whether the backup succeeded.
- KeyRotation.RotateKeysCommand.PrepareRotation: a genesis key version that is not an integer declines, also a truth value, which the code would count as a number.
- KeyRotation.RotateKeysCommand.SoftRotate: returns true when it declines although a current key version was given, as the code does.
- RotationRuns.RunsVerify: is about chains of genesis and day blocks that all carry a key version, with valid content hashes and a string format version; `RotationLimits` says what happens to others.
- FormatUpgrade.Migrate: is about blocks of the four known types; the v0.2 to v0.3 migration of the same script, its files and its command line are not modelled.
- FormatUpgrade.UpgradedAcceptedIff: requires an injective seal and blocks that carry only their own hash field and no legacy signature.
- MigrateChain.MigratedAcceptedIff: is about verification without an identity secret, because identity seals are not recomputed.
- LedgerDomains.LedgerDomain.SyncDayWithSelection: indices are natural numbers, and the order in which the set of indices is visited is a parameter.
- LedgerDomains.SelectionConserves: is about selections without overrides; `Overrides.OverridesConserve` is about all.
- LedgerDomains.LedgerDomain.SyncDay: `sync_with_strategy` asks the user and calls the selection sync; the asking, and its branch that only removes entries, are not modelled.
- Staging.StagingArea.CaptureHabit: tags, media, metadata and the entry hash over ciphertexts are not modelled; `end_habit_at` is the same code as `end_habit`.
- IndexManagers.IndexManager.Update: loading and encrypting the stored index are not modelled; the store receives the index as a value.
- IndexRuns.PostBlocks: titles that are not text are skipped and durations that are not integers count as 0; a day block without a text date is skipped; restoring reverted entries to staging, and the exceptions raised while their times are decrypted, are not modelled.
- IndexRuns.CutTellsIff: is about entries as commit leaves them: with an encrypted title, nothing of title and duration in the clear; without one, no encrypted duration.
- CommittedSelection.SelectCommitted: what follows the selection, including a log message that names an undefined variable, is not modelled.
- RowSync.TwoRoundsConverge: the rows a device edits between syncs and the transport that carries rows are not modelled; the activity of a row is not compared, so rows with equal time and status may keep different activities.
- StagingHashIndexes.HashAgreesWithComparison: the digest stands for SHA-256 over the JSON text of the sorted list; ids are texts.
- HttpTransports.HttpTransport.Pull: one request and its reply are one step; clocks are real numbers; sockets, headers other than the entity tag, and `list_files` are not modelled.
- Crypto.PureAESCTR.Process: keys are 16 bytes and nonces 8 whenever there is data, as both callers make them.
- CryptoManagers.DecryptUndoesEncrypt: holds for texts of up to 2^68 bytes, beyond which the counter raises.
- Durations.ParseEnd: ASCII digits without white space or underscores; the clock-time and raw-epoch branches are not modelled.
- The orchestrator, the write-ahead log, the background processes, the Git transport, the command line, prompts and display are input, output and scheduling around the parts modelled here.
- The JavaScript and Dart ports of the same algorithms are not part of this model; on equal timestamps the JavaScript diff prefers the local row where the Python one prefers the remote row.

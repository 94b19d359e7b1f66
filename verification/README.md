# Verified models of AI Office's stateful cores

This project models the parts of the repository whose correctness depends on many steps going
right together, and proves what those parts promise. `dafny verify dfyconfig.toml` checks
everything.

**The checkpoint store** (`CheckpointFiles`, `CheckpointProtocol`, `CheckpointSafety`,
`CheckpointDirectory`, `CheckpointDirectoryName`). Publishers share a directory without a lock.
The protocol is a transition system whose steps are single file effects: load, exclusive create,
rename, index write, each unlink of retention, each clean-up, and a crash, a lost index or a
tick of the clock between any two of them. Safety is proved for every run under three
assumptions, written as `Disciplined`: ids are fresh, a publisher renames within the grace
period of its own reservation, and retention does not remove the very sequence a stalled
publisher is aiming at. The last two are shown to be needed by reachable states where the chain
forks without them. One limit is the code's own: file names are padded to six digits and read
with a six-digit pattern, so the millionth checkpoint is invisible. The chain is still never
broken, but loading returns the latest publication exactly below a million, nothing more is ever
published from there on, and a publisher that crashes after reserving the millionth name freezes
the store one publication earlier. The class `CheckpointDirectory` is one publisher's code, step
by step; task identifiers become directory names that decode back exactly for well-formed
identifiers.

**The domain pack contract** (`Json`, `JsonRoundTrip`, `JsonCanonical`, `JsonBytes`,
`StrictJsonReader`, `ManifestSchema`, `Manifest`, `ManifestJson`, `ManifestRecords`,
`ManifestDocument`, `ManifestPrinting`, `ManifestBytes`). The strict reader is a class with a
moving index, proved equal to a reading on suffixes; canonical printing (section 3.2 of RFC
8785) is proved to be undone by it. On top stands the manifest: roles, agents, workflows,
policies, task types, capabilities, artifact and evidence types with their recursive data
schemas, knowledge, prompts and dependencies; references resolved across sections; and a normal
form whose canonical bytes are equal for exactly the manifests that differ in written order
only. A document's bytes are read back into the manifest: parsing takes exactly the documents
written from valid manifests, in any member order, and gives what validation gives; a canonical
document verifies exactly when it declares the manifest's own digest.

**The filesystem connector** (`FilesystemPaths`, `FilesystemVisibility`, `FilesystemOrder`,
`FilesystemListing`, `FilesystemConstraints`, `FilesystemDisk`, `FilesystemMutation`). Listing
runs over a finite tree of files, directories, links and other nodes in which any read may fail
and the budgets may run out anywhere; what it reports is the beginning of the one complete
breadth-first listing. Mutation runs over a disk with hard links, where each system call may
fail; what it says about whether something was changed is proved true for every pattern of
failures. The constraint algebra is proved to denote intersection.

**The skill installer and the client adapters** (`SkillInstallPlans`, `SkillInstaller`,
`ClaudeBridge`, `AgentClients`). An install stopped after any number of changes converges when
it is run again. Two clients that share files can be installed and removed in either order; the
shared files go with the second. Three limits are stated with their exact conditions: a user's
CLAUDE.md that imports the guidance itself, or whose markers are malformed, keeps the shared
files after both removals; a blank CLAUDE.md, or one that holds only the generated title, does
not come back; and a marker or import line in the user's text beside the managed block makes the
Claude removal stop after CLAUDE.md was rewritten.

**The metered gateway** (`ModelPricing`, `MeteredGateway`). The reserved amount is the exact
worst case, and one call is followed through every provider answer and every store failure. A
store call either takes full effect or throws without any.

**Smaller protocols** (`RuntimePurge`, `WorkerProcess`, `LocalPaths`, `CallerLocalPaths`). The
purge of a runtime home, the event machine around one worker process, and the contract between
the client, which makes paths absolute, and the Runtime, which refuses relative ones. The two
agree on an argument list exactly when no default is missing its place: a path option that
stands there without a value, or a list that ends in an option without its value, keeps the
default from being read.

`JsStrings`, `Utf`, `Decimal`, `KeyedLists` and `Options` are shared. Strings are sequences of
UTF-16 code units, compared unit by unit, with UTF-8 as in section 3 of RFC 3629. A class stands
for an object or a directory that the code updates in place; functions beside it say what its
methods compute, and lemmas say what that means.

## Model

| member | source | states |
|---|---|---|
| CheckpointSafety.ChainSafety | scripts/skills/checkpoint-store.ts:859-974 | in every interleaving of publishers, crashes, clean-ups and index losses the publish history is one unbroken chain 1, 2, 3, ..., each superseding the id of the one before, and never longer than a million |
| CheckpointSafety.RunKeepsInv | scripts/skills/checkpoint-store.ts:603-639 | every reachable state keeps the invariant tying files, index, publishers and history together |
| CheckpointSafety.RenameNeverOverwrites | scripts/skills/checkpoint-store.ts:603-639 | a rename always lands on the publisher's own zero-byte reservation at the next sequence, never on a published checkpoint |
| CheckpointSafety.PublishedStays | scripts/skills/checkpoint-store.ts:730-776 | no step changes a published checkpoint, and only retention removes one, never the latest |
| CheckpointSafety.LoaderFindsLatestPublication | scripts/skills/checkpoint-store.ts:786-821 | whatever crashed and however stale, lost or garbled the index is, loading reports no tampering and returns what a scan finds; that is the latest publication exactly when there are fewer than a million |
| CheckpointSafety.AfterAMillionNothingIsPublished | scripts/skills/checkpoint-store.ts:541-548 | once a million checkpoints are published the history never grows again, because the seven-digit name is invisible to the six-digit pattern |
| CheckpointSafety.FullIsTheEnd | scripts/skills/checkpoint-store.ts:541-548 | once the seven-digit name is taken and nobody can still rename over it, no continuation of the run publishes anything |
| CheckpointSafety.CrashAtTheMillionthFreezes | scripts/skills/checkpoint-store.ts:730-776 | a reachable run in which a crash after reserving the millionth name freezes the store one publication earlier: no clean-up ever clears that name |
| CheckpointSafety.ReachesPublications | scripts/skills/checkpoint-store.ts:859-974 | disciplined runs with any number of publications up to a million exist |
| CheckpointSafety.GracePeriodIsNeeded | scripts/skills/checkpoint-store.ts:51-57 | a reachable state in which a rename later than the grace period overwrites a published checkpoint and forks the chain |
| CheckpointSafety.RetentionRaceForks | scripts/skills/checkpoint-store.ts:1017-1057 | a run without the assumption on retention in which a stalled publisher publishes a pruned sequence again |
| CheckpointProtocol.StepKeeps | scripts/skills/checkpoint-store.ts:859-974 | one step of any kind (load, reserve, rename, index, prune, unlink, crash, clean, tick) keeps the invariant |
| CheckpointProtocol.ReserveKeeps | scripts/skills/checkpoint-store.ts:618-636 | an exclusive create wins only at the sequence after the latest, with no live reservation beside it |
| CheckpointProtocol.RenameKeeps | scripts/skills/checkpoint-store.ts:637-638 | a rename within the grace period extends the chain by exactly the reserved document |
| CheckpointProtocol.CleanKeeps | scripts/skills/checkpoint-store.ts:730-776 | clean-up only ever removes a dead reservation at the sequence after the latest |
| CheckpointProtocol.LoadFindsLatest | scripts/skills/checkpoint-store.ts:786-821 | in a state that satisfies the invariant, load and scan agree with the history |
| CheckpointFiles.LoadIsScan | scripts/skills/checkpoint-store.ts:786-821 | an index that tells the truth about the file it names never changes the answer of a plain scan |
| CheckpointFiles.PruneEffect | scripts/skills/checkpoint-store.ts:1017-1057 | retention removes only valid, uncited checkpoints other than the latest, leaves exactly the larger of the cap and the protected ones, and does not change what a scan finds |
| CheckpointFiles.PrunedUnique | scripts/skills/checkpoint-store.ts:1042-1049 | the oldest deletable checkpoints beyond the cap are the only admissible choice |
| CheckpointFiles.PruneKeepsLoad | scripts/skills/checkpoint-store.ts:1017-1057 | loading gives the same answer before and after retention, though the index may name a removed file |
| CheckpointFileNames.FileNameRoundTrip | scripts/skills/checkpoint-store.ts:541-548 | the padded name reads back as its sequence up to 999999 and never beyond |
| CheckpointFileNames.FileNameInjective | scripts/skills/checkpoint-store.ts:541-543 | two sequences never share a file name |
| CheckpointFileNames.CollisionSeq | scripts/skills/checkpoint-store.ts:629-632 | the sequence a lost exclusive create reports: its own, or 0 for a name the pattern does not match |
| CheckpointDirectories.CheckpointDirectory.ListPublishedFiles | scripts/skills/checkpoint-store.ts:670-680 | exactly the visible checkpoint names, in order |
| CheckpointDirectories.CheckpointDirectory.ScanLatest | scripts/skills/checkpoint-store.ts:703-721 | the valid file of highest sequence, or none |
| CheckpointDirectories.CheckpointDirectory.LoadLatestCheckpoint | scripts/skills/checkpoint-store.ts:786-821 | the specified load, tamper and missing-file errors included |
| CheckpointDirectories.CheckpointDirectory.RemoveCrashedReservationArtifacts | scripts/skills/checkpoint-store.ts:730-747 | removes exactly the zero-byte files past the grace period |
| CheckpointDirectories.CheckpointDirectory.HandleSequenceCollision | scripts/skills/checkpoint-store.ts:757-776 | removes the colliding file exactly when it is aged and does not validate |
| CheckpointDirectories.CheckpointDirectory.PruneCheckpoints | scripts/skills/checkpoint-store.ts:1017-1057 | deletes the oldest unprotected checkpoints beyond the cap, or stops at a file that cannot be unlinked; the scan is unchanged either way |
| CheckpointDirectories.CheckpointDirectory.PublishCheckpoint | scripts/skills/checkpoint-store.ts:859-974 | with nobody interfering a call succeeds exactly when the next name is free after clean-up; the new document, index and pruned files, or the error, are as specified, and a file that cannot be unlinked stops retention but not the publication |
| CheckpointDirectories.CleaningKeepsLoad | scripts/skills/checkpoint-store.ts:730-747 | removing crashed reservations does not change what readers load |
| CheckpointDirectoryName.DecodeUndoesEncode | scripts/skills/checkpoint-store.ts:487-524 | decoding an encoded name gives it back if and only if the name is well-formed UTF-16 |
| CheckpointDirectoryName.DecoderAcceptsImage | scripts/skills/checkpoint-store.ts:506-524 | the decoder accepts exactly the encoder's image, and what it returns encodes to its argument |
| CheckpointDirectoryName.EncodeInjective | scripts/skills/checkpoint-store.ts:487-497 | two well-formed names never share a directory |
| CheckpointDirectoryName.SharedDirectories | scripts/skills/checkpoint-store.ts:487-524 | two names share a directory exactly when they are equal once lone surrogates are replaced by U+FFFD, and that is what the directory name decodes to |
| CheckpointDirectoryName.IllFormedNamesCollide | scripts/skills/checkpoint-store.ts:492 | two ill-formed names that share a directory |
| Utf.Utf8Reads | scripts/skills/checkpoint-store.ts:492 | encoding as UTF-8 (section 3 of RFC 3629) gives valid bytes, which decode to the string with lone surrogates replaced, so to the same string exactly when it is well-formed |
| Utf.Utf8Writes | scripts/skills/checkpoint-store.ts:518 | decoding always gives a well-formed string, and encoding undoes it on valid bytes |
| Utf.HasLoneSurrogate | packages/domain-pack-contracts/src/jcs.ts:10-19 | the index loop finds a lone surrogate exactly when the string is not well-formed |
| StrictJsonReaders.StrictJsonReader.ReadAll | packages/domain-pack-contracts/src/manifest.ts:2162-2168 | the moving-index reader computes the specified reading of the whole text, errors included |
| StrictJsonReaders.StrictJsonReader.Value | packages/domain-pack-contracts/src/manifest.ts:2175-2212 | one value, with the nesting limit |
| StrictJsonReaders.StrictJsonReader.Quoted | packages/domain-pack-contracts/src/manifest.ts:2214-2237 | one string: scan, unescape, surrogate check |
| StrictJsonReaders.StrictJsonReader.ObjectValue | packages/domain-pack-contracts/src/manifest.ts:2239-2269 | one object, duplicate members refused |
| StrictJsonReaders.StrictJsonReader.ArrayValue | packages/domain-pack-contracts/src/manifest.ts:2271-2287 | one array |
| StrictJsonReaders.StrictJsonReader.Number | packages/domain-pack-contracts/src/manifest.ts:2192-2210 | one integer, refused outside the safe range |
| JsonRoundTrip.ValueReads | packages/domain-pack-contracts/src/manifest.ts:2175-2287 | reading the printed text of any value gives the value, or the nesting error exactly when it is too deep |
| JsonRoundTrip.StringRoundTrip | packages/domain-pack-contracts/src/manifest.ts:2214-2237 | printed strings read back, escapes included |
| JsonRoundTrip.NumberRoundTrip | packages/domain-pack-contracts/src/manifest.ts:2192-2210 | printed integers read back |
| JsonCanonical.CanonicalTextReadsBack | packages/domain-pack-contracts/src/jcs.ts:21-38 | canonical text (section 3.2 of RFC 8785) reads back as the value with sorted members, exactly up to nesting 128 |
| JsonCanonical.CanonicalTextIdentifies | packages/domain-pack-contracts/src/jcs.ts:21-38 | two values have equal canonical text if and only if they are equal up to member order |
| JsonCanonical.NormalIffSame | packages/domain-pack-contracts/src/jcs.ts:28-36 | sorting members forgets the written member order and nothing else |
| JsonCanonical.AcceptedTextHasCanonicalText | packages/domain-pack-contracts/src/manifest.ts:2157-2294 | whatever text the strict reader accepts has a canonical text, which is accepted and means the same |
| JsonBytes.CanonicalBytesReadBack | packages/domain-pack-contracts/src/manifest.ts:2338-2342 | the UTF-8 bytes decode to the canonical text and read back as the value |
| JsonBytes.CanonicalBytesIdentify | packages/domain-pack-contracts/src/manifest.ts:2312-2314 | two values have equal canonical bytes if and only if they are the same value |
| ManifestBytes.BytesIgnoreWrittenOrder | packages/domain-pack-contracts/src/manifest.ts:2316-2349 | a valid manifest with dependencies, contributions or set-valued fields in another order has the same canonical bytes, and so the same digest; where there are bytes at all, no other valid manifest has them |
| ManifestBytes.ParseTakesWhatWasWritten | packages/domain-pack-contracts/src/manifest.ts:2296-2310 | a document is parsed if and only if it was written from a valid manifest, the members of its objects in any order, and parsing gives what validating that manifest returns and the digest it declares |
| ManifestBytes.ParsedIsWritable | packages/domain-pack-contracts/src/manifest.ts:2296-2349 | whatever was parsed can be printed in canonical form, so every parsed manifest has a digest |
| ManifestBytes.CanonicalDocumentRoundTrip | packages/domain-pack-contracts/src/manifest.ts:2296-2369 | the canonical form of a valid manifest, written to canonical bytes with a digest and parsed, comes back unchanged; it verifies if and only if that digest is the digest of the manifest |
| ManifestBytes.VerifiedHasCanonicalDocument | packages/domain-pack-contracts/src/manifest.ts:2355-2369 | a verified manifest is valid and stays as it is when validated again, and its canonical document verifies with the same digest |
| ManifestBytes.DigestPinsManifest | packages/domain-pack-contracts/src/manifest.ts:2345-2369 | two verified documents that declare one digest hold the same manifest up to written order, unless the hash collides on their canonical bytes |
| ManifestBytes.CanonicalBytesAreNoDocument | packages/domain-pack-contracts/src/manifest.ts:2316-2343 | the bytes the digest is computed from are refused as a document, because they lack the digest |
| ManifestDocuments.DocumentReads | packages/domain-pack-contracts/src/manifest.ts:1856-1890 | any JSON value like a manifest's document is read as that manifest and digest, section by section, up to written order inside schemas |
| ManifestDocuments.DocumentWritten | packages/domain-pack-contracts/src/manifest.ts:1856-2154 | only a value like a manifest's document is read as one: a missing or unknown field, a wrong type or another schema version is refused |
| ManifestPrinting.CanonicalPrints | packages/domain-pack-contracts/src/manifest.ts:2316-2343 | if a manifest can be printed as written, its canonical form can be: sorting and defaults introduce nothing unprintable |
| ManifestDocuments.ManifestDecides | packages/domain-pack-contracts/src/manifest.ts:2320-2337 | valid manifests with the same JSON record are validated to the same manifest |
| ManifestJson.SchemaReads | packages/domain-pack-contracts/src/manifest.ts:1114-1358 | any JSON value like a schema's, whatever the order of its members at any level, is read as that schema up to written order |
| ManifestJson.SchemaWritten | packages/domain-pack-contracts/src/manifest.ts:1114-1358 | whatever was read as a schema is like that schema's JSON: the reader takes nothing else |
| ManifestJson.RecordReads | packages/domain-pack-contracts/src/manifest.ts:459-469 | any value like a record is read back field by field, absent fields as absent, and holds no field besides |
| Manifests.ValidateDomainPackManifest | packages/domain-pack-contracts/src/manifest.ts:1856-2154 | the section-by-section validator accepts exactly the valid manifests and returns the normal form |
| Manifests.ValidatePolicies | packages/domain-pack-contracts/src/manifest.ts:1999-2078 | policies are accepted exactly when each fits its workflow and no workflow has two |
| Manifests.ValidationIsIdempotent | packages/domain-pack-contracts/src/manifest.ts:1856-2154 | what validation returns is valid and validates to itself |
| Manifests.CanonicalForm | packages/domain-pack-contracts/src/manifest.ts:2316-2349 | canonical forms are equal exactly for reorderings, and a reordering of a valid manifest is valid |
| Manifests.CanonicalIsFixed | packages/domain-pack-contracts/src/manifest.ts:2316-2349 | the canonical form of a valid manifest is valid, and validating it or taking its canonical form again returns it |
| Manifests.RenderingStaysValid | packages/domain-pack-contracts/src/manifest.ts:1893-2137 | cross-references do not look at written order: a manifest is valid if and only if its normal form is |
| Manifests.StagesKeepTheirOrder | packages/domain-pack-contracts/src/manifest.ts:1758-1822 | manifests with the same canonical form order every workflow's stages alike, and validation keeps that order |
| Manifests.PolicyForm | packages/domain-pack-contracts/src/manifest.ts:2014-2078 | a policy fits its workflow's stage order if and only if its normal form does |
| Manifests.AgentForm | packages/domain-pack-contracts/src/manifest.ts:1927-1974 | an agent's references hold if and only if those of its normal form do |
| ManifestSchemas.DataSchema | packages/domain-pack-contracts/src/manifest.ts:1114-1358 | the recursive schema reader with its shared node budget accepts exactly the well-shaped schemas that fit and returns the normal form |
| ManifestSchemas.DataProperties | packages/domain-pack-contracts/src/manifest.ts:1285-1325 | the property loop, in sorted order, spends the same budget |
| ManifestSchemas.NormalIffSame | packages/domain-pack-contracts/src/manifest.ts:1114-1358 | schema normal forms are equal exactly for schemas that differ in written order only |
| ManifestSchemas.NormalIsIdempotent | packages/domain-pack-contracts/src/manifest.ts:1114-1358 | the schema normal form is its own normal form |
| ManifestSchemas.NormalStaysWellShaped | packages/domain-pack-contracts/src/manifest.ts:1114-1358 | every schema check gives the same answer on the normal form |
| FilesystemPaths.MatchesIsPrefix | packages/filesystem-connector/src/filesystem-path.ts:65-67 | the textual prefix test is the segment-list prefix test |
| FilesystemPaths.AncestorIsNormalizable | packages/filesystem-connector/src/filesystem-path.ts:15-50 | every ancestor of an acceptable path is acceptable |
| FilesystemVisibility.SensitiveInherited | packages/filesystem-connector/src/sensitive-paths.ts:37-58 | whatever lies beneath a sensitive path is sensitive |
| FilesystemVisibility.AllowedInherited | packages/filesystem-connector/src/filesystem-path.ts:76-86 | every ancestor of a path that is not denied is not denied |
| FilesystemVisibility.AncestorsAreShown | packages/filesystem-connector/src/filesystem-sandbox.ts:825-846 | every directory above something shown is shown, so a skipped directory hides nothing visible |
| FilesystemOrder.OrderedUnique | packages/filesystem-connector/src/filesystem-sandbox.ts:389 | a list in breadth-first order is determined by what it lists |
| FilesystemListing.FilesystemSandbox.List | packages/filesystem-connector/src/filesystem-sandbox.ts:806-890 | within its budgets: every entry reported is shown; the entries are the beginning of the complete breadth-first listing; not truncated means all of it; truncated means a budget is used up or something shown is too deep or too large; without read failures the only error on a listable start is output size |
| FilesystemListing.FilesystemSandbox.ReadBoundedDirectory | packages/filesystem-connector/src/filesystem-sandbox.ts:336-394 | all names of the directory in sorted order, or none once a budget is used up |
| FilesystemListing.FilesystemSandbox.Consider | packages/filesystem-connector/src/filesystem-sandbox.ts:825-865 | a discovered child is skipped only if it is not shown, and cut only for a stated reason |
| FilesystemListing.FilesystemSandbox.ListChildren | packages/filesystem-connector/src/filesystem-sandbox.ts:825-873 | one directory: entries, queue and order stay consistent, and a finished directory has all its shown children reported |
| FilesystemListing.FilesystemSandbox.Inspect | packages/filesystem-connector/src/filesystem-sandbox.ts:277-308 | the path exists, leads through directories only and is neither a link nor sensitive |
| FilesystemListing.LeftOutFollows | packages/filesystem-connector/src/filesystem-sandbox.ts:806-890 | wherever a listing stops, everything shown that it left out comes after everything it reported |
| FilesystemListing.CompleteListingIsUnique | packages/filesystem-connector/src/filesystem-sandbox.ts:806-890 | two complete listings of one place are the same list, in whatever order the file system names children |
| FilesystemConstraints.IntersectPrefixLists | packages/filesystem-connector/src/filesystem-constraints.ts:220-232 | the nested loop computes the specified intersection |
| FilesystemConstraints.IntersectionDenotes | packages/filesystem-connector/src/filesystem-constraints.ts:220-232 | a path is inside the combined prefixes exactly when it is inside both lists |
| FilesystemConstraints.CombinedDenotes | packages/filesystem-connector/src/filesystem-constraints.ts:241-258 | a path is inside the combination of any number of lists exactly when it is inside all of them |
| FilesystemConstraints.CombinedMembers | packages/filesystem-connector/src/filesystem-constraints.ts:241-258 | the surviving prefixes are those listed somewhere and inside every list |
| FilesystemConstraints.AnswerIgnoresOrder | packages/filesystem-connector/src/filesystem-constraints.ts:312-410 | the whole answer is the same whatever the order or repetition of the grants as they are given |
| FilesystemConstraints.CombineAndValidate | packages/filesystem-connector/src/filesystem-constraints.ts:312-410 | the handler answers as specified, reasons and effective constraints included, and ok exactly when both parse and the request satisfies every effective constraint |
| FilesystemConstraints.AcceptanceOnlyNarrows | packages/filesystem-connector/src/filesystem-constraints.ts:312-410 | a request accepted with some grants is accepted with any selection of them |
| FilesystemMutation.FilesystemMutator.ExecuteMutation | packages/filesystem-connector/src/filesystem-sandbox.ts:175-197 | whichever call fails: a definite failure leaves the visible tree unchanged; success and a possible mutation leave exactly the requested change; nothing changes unless the preconditions held; in calm surroundings a ready request succeeds, and no call leaves a new staging name behind |
| FilesystemMutation.FilesystemMutator.WithStagedFile | packages/filesystem-connector/src/filesystem-sandbox.ts:568-651 | staging, commit and tidying up keep the report truthful; success leaves the staging names as they were, and in calm surroundings no call, failed or not, leaves a new one |
| FilesystemMutation.FilesystemMutator.OpenStaging | packages/filesystem-connector/src/filesystem-sandbox.ts:588-609 | succeeds if and only if one of three tries in a row meets an exclusive create that goes through and a name nobody has; the visible tree is unchanged |
| FilesystemMutation.FilesystemMutator.FillStaging | packages/filesystem-connector/src/filesystem-sandbox.ts:610-627 | the whole buffer is written for any pattern of short writes, or an error is raised; the visible tree is unchanged |
| FilesystemMutation.FilesystemMutator.CommitCreate | packages/filesystem-connector/src/filesystem-sandbox.ts:455-467 | committed exactly from the link on, with exactly the new file visible |
| FilesystemMutation.FilesystemMutator.CommitWrite | packages/filesystem-connector/src/filesystem-sandbox.ts:485-496 | committed exactly from the rename on, with exactly the replaced content visible |
| FilesystemMutation.FilesystemMutator.ExecuteCreate | packages/filesystem-connector/src/filesystem-sandbox.ts:445-468 | create reports truthfully |
| FilesystemMutation.FilesystemMutator.ExecuteWrite | packages/filesystem-connector/src/filesystem-sandbox.ts:470-497 | write reports truthfully and keeps the permission bits |
| FilesystemMutation.FilesystemMutator.TryMove | packages/filesystem-connector/src/filesystem-sandbox.ts:499-542 | move changes the tree by exactly the requested rename, or not at all before the commit |
| FilesystemMutation.FilesystemMutator.TryDelete | packages/filesystem-connector/src/filesystem-sandbox.ts:544-566 | delete removes exactly the named file, or nothing before the commit |
| FilesystemMutation.FilesystemMutator.VerifyPreconditions | packages/filesystem-connector/src/filesystem-sandbox.ts:154-173 | passes only if every precondition holds of the disk |
| FilesystemMutation.FilesystemMutator.ReadTextFile | packages/filesystem-connector/src/filesystem-sandbox.ts:704-792 | reads only a permitted regular text file with a single name and returns its bytes |
| FilesystemMutation.FilesystemMutator.IsAbsent | packages/filesystem-connector/src/filesystem-sandbox.ts:686-698 | absent means no entry under an existing parent directory |
| FilesystemMutation.FilesystemMutator.FsyncParent | packages/filesystem-connector/src/filesystem-sandbox.ts:653-668 | flushes the parent without touching the tree |
| FilesystemDisks.StagingIsSensitive | packages/filesystem-connector/src/sensitive-paths.ts:25-35 | a staging name is sensitive, so the connector never shows or accepts one |
| SkillInstallPlans.InterruptedInstallConverges | scripts/skills/install.ts:334-361 | stopped after any number of changes, a second run with the same source and flags has no conflict and ends in the installed copy, which wants nothing more |
| SkillInstallPlans.StoppedAnywhere | scripts/skills/install.ts:334-361 | after any prefix of a conflict-free plan the copy still plans without conflict, and its plan is the rest |
| SkillInstallPlans.OneChangeFewer | scripts/skills/install.ts:334-361 | one change keeps the copy conflict-free and removes exactly itself from the plan |
| SkillInstallPlans.ManifestSettles | scripts/skills/install.ts:334-341 | writing the manifest last leaves nothing to do |
| SkillInstallPlans.ManifestFirstStrands | scripts/skills/install.ts:334-341 | writing the manifest before an update would leave a conflict behind |
| SkillInstallPlans.OnlyOwnFilesChange | scripts/skills/install.ts:238-281 | without force only a file still as recorded is overwritten or removed; with it only a recorded or canonical path |
| SkillInstallPlans.OthersStay | scripts/skills/install.ts:334-361 | a path the plan does not name keeps its content |
| SkillInstallPlans.NothingWantedIsInstalled | scripts/skills/install.ts:147-296 | an empty plan means the copy is the canonical skill, up to line endings, with its manifest |
| SkillInstallers.InstalledCopy.PlanTarget | scripts/skills/install.ts:147-296 | no conflict is reported exactly when there is none, and the plan lists exactly the wanted changes, each once |
| SkillInstallers.InstalledCopy.Obstacles | scripts/skills/install.ts:214-232 | an obstacle is reported exactly when something stands where a desired file or directory must go |
| SkillInstallers.InstalledCopy.ContentChanges | scripts/skills/install.ts:238-281 | conflicts exactly for files the installer may not touch; otherwise the updates and deletions |
| SkillInstallers.InstalledCopy.ApplyPlan | scripts/skills/install.ts:334-361 | applies the plan with the manifest last, stopping after any number of changes |
| SkillInstallers.InstalledCopy.RemoveEmptyParents | scripts/skills/install.ts:322-332 | climbs from a removed file while the folders left behind are empty |
| SkillInstallers.InstallSkills | scripts/skills/install.ts:384-444 | a conflict in one copy, or a check run, leaves every copy intact; a run finishes exactly when it is not stopped before its last planned change, and then all copies are settled; settled copies have nothing pending |
| AgentClients.EitherOrder | packages/agent-client-integrations/src/adapters.ts:646-762 | both clients installed and removed, each in either order: every plan applies and the shared files survive the first removal; after the second nothing owned is left exactly when CLAUDE.md itself does not ask for the shared files, and CLAUDE.md is absent, as it was, or the right-trimmed text, as its start decides |
| AgentClients.DirectImportKeepsShared | packages/agent-client-integrations/src/adapters.ts:668-672 | a user's CLAUDE.md that imports the guidance itself: both removals apply in either order, and the shared files stay |
| AgentClients.UninstallClaudeApplies | packages/agent-client-integrations/src/adapters.ts:921-1045 | what the Claude removal leaves of an unchanged repository, case by case |
| AgentClients.UninstallClaudeStops | packages/agent-client-integrations/src/adapters.ts:921-1045 | the Claude removal stops half way exactly when an owned shared file is to go, no other host file needs it, and the user's text with the block cut out still has a marker or an import line |
| AgentClients.UninstallCodexApplies | packages/agent-client-integrations/src/adapters.ts:646-762 | the Codex removal of an unchanged repository always applies |
| AgentClients.InstallClaudeApplies | packages/agent-client-integrations/src/adapters.ts:842-919 | the Claude plan applies to an unchanged repository, with the stated result |
| AgentClients.InstallCodexApplies | packages/agent-client-integrations/src/adapters.ts:611-644 | the Codex plan applies to an unchanged repository, with the stated result |
| AgentClients.ImportBesideBlockStops | packages/agent-client-integrations/src/adapters.ts:1020-1045 | a user's own import line beside the block makes the guard stop the removal after CLAUDE.md has been rewritten |
| AgentClients.OnlyOwnFilesAreTouched | packages/agent-client-integrations/src/adapters.ts:349-399 | no plan changes or deletes a file that is not AI Office's, the block in CLAUDE.md aside |
| AgentClients.ClientFiles.Apply | packages/agent-client-integrations/src/local-agent-client-files.ts:116-198 | operations are carried out in order while each file is still what the plan saw and its guard admits it |
| AgentClients.ClientFiles.PlanInstallClaude | packages/agent-client-integrations/src/adapters.ts:842-919 | every planned operation creates where nothing is or changes what is owned, and the plan applies to the repository just read, with the stated result |
| AgentClients.ClientFiles.PlanInstallCodex | packages/agent-client-integrations/src/adapters.ts:611-644 | the same for the Codex installation |
| AgentClients.ClientFiles.PlanUninstallClaude | packages/agent-client-integrations/src/adapters.ts:921-1018 | every planned operation touches owned files or the block only, and the plan applies to the repository just read exactly when the text beside the block does not ask for the shared files |
| AgentClients.ClientFiles.PlanUninstallCodex | packages/agent-client-integrations/src/adapters.ts:646-732 | every planned operation touches owned files only, and the plan always applies to the repository just read, with the stated result |
| ClaudeBridges.BlockComesOut | packages/agent-client-integrations/src/adapters.ts:440-452 | the block appended to a user's text is found again and taking it out gives the right-trimmed text and one line feed; the file counts as generated exactly when the text was blank or the generated title |
| ClaudeBridges.AppendedIsManaged | packages/agent-client-integrations/src/adapters.ts:293-340 | the markers of an appended block are found once each, at their places |
| ClaudeBridges.RestoredIsUnmanaged | packages/agent-client-integrations/src/adapters.ts:299-308 | what an uninstall leaves is an ordinary user file again |
| ClaudeBridges.GeneratedFileIsOwn | packages/agent-client-integrations/src/adapters.ts:325-327 | the generated CLAUDE.md is recognised as owned |
| ModelPricing.MaximumIsUpperBound | packages/llm-gateway/src/cost-calculator.ts:51-67 | no valid usage within the bound costs more than the maximum |
| ModelPricing.MaximumIsAttained | packages/llm-gateway/src/cost-calculator.ts:51-67 | some valid usage within the bound costs exactly the maximum |
| ModelPricing.MaximumIsTight | packages/llm-gateway/src/cost-calculator.ts:45-50 | an amount covers every usage within the bound if and only if it is at least the maximum |
| ModelPricing.FindEnvelope | packages/llm-gateway/src/metered-gateway.ts:123-133 | the dearest candidate's worst case, the first one on a tie |
| ModelPricing.EnvelopeCoversAnswer | packages/llm-gateway/src/metered-gateway.ts:119-134 | the envelope covers the cost of whichever priced candidate answers within the bound |
| MeteredGateways.MeteredGateway.CompleteMetered | packages/llm-gateway/src/metered-gateway.ts:84-336 | over all provider and store outcomes: at most one cost event, fairly charged; own reservations consumed, released, or active only because their own release failed or the charge for a rejected answer was lost; an answered, not duplicate request is charged unless that charge was lost, and is never released as free; whatever is blamed, the store failed a call; other reservations untouched |
| MeteredGateways.MeteredGateway.Conclude | packages/llm-gateway/src/metered-gateway.ts:254-336 | the same for each provider outcome after the reservations are placed, starting from a call that has nothing to blame yet |
| MeteredGateways.MeteredGateway.ChargeResponse | packages/llm-gateway/src/metered-gateway.ts:263-336 | a priced response records its cost once; a duplicate, reported or raised, releases the reservations, with a second attempt when the first release fails; a failed recording is followed by the charge of the envelope |
| MeteredGateways.MeteredGateway.ChargeRejectedResponse | packages/llm-gateway/src/metered-gateway.ts:352-407 | an answer that cannot be priced is charged the whole reserved amount |
| MeteredGateways.MeteredGateway.PlaceReservations | packages/llm-gateway/src/metered-gateway.ts:202-246 | one active reservation of the worst case per scope, all or none, with the primary one named |
| MeteredGateways.MeteredGateway.ChooseScopes | packages/llm-gateway/src/metered-gateway.ts:135-201 | the scopes whose budgets must hold a reservation, or the reason there is none |
| MeteredGateways.MeteredGateway.FindPrices | packages/llm-gateway/src/metered-gateway.ts:90-118 | every candidate is priced once, or the call fails |
| MeteredGateways.MeteredGateway.ReleaseReservations | packages/llm-gateway/src/metered-gateway.ts:339-351 | every reservation is tried: one left active is one whose own release failed, and none is when the release is reported as done |
| MeteredGateways.EnvelopeCoversCharge | packages/llm-gateway/src/metered-gateway.ts:119-134 | whatever is charged within the bound is covered by the reservation |
| RuntimePurges.RuntimeHome.Plan | apps/cli/src/local-runtime-purge-adapter.ts:207-308 | plans exactly the known artifacts, fingerprinted and in removal order, and preserves the rest; it fails exactly when something it must fingerprint is unsupported |
| RuntimePurges.RuntimeHome.FingerprintTree | apps/cli/src/local-runtime-purge-adapter.ts:168-191 | lists everything at and beneath a path once, up to date |
| RuntimePurges.RuntimeHome.RemoveAll | apps/cli/src/local-runtime-purge-adapter.ts:310-354 | removes planned artifacts in order and stops at the first that changed; on an unchanged tree it never stops |
| RuntimePurges.RuntimeHome.Apply | apps/cli/src/local-runtime-purge-adapter.ts:310-382 | the home goes exactly when it ends up empty and is still the planned one; a changed empty home is the error it is |
| RuntimePurgePlans.RemovalOrderOrders | apps/cli/src/local-runtime-purge-adapter.ts:293-298 | the sorted plan is in removal order |
| RuntimePurgePlans.DescendantsFirst | apps/cli/src/local-runtime-purge-adapter.ts:293-298 | nothing in the plan lies beneath something earlier in it |
| RuntimePurges.NextIsRemovable | apps/cli/src/local-runtime-purge-adapter.ts:310-354 | on an unchanged home the next artifact is as planned, though its children and their times are gone, and nothing is left beneath it |
| RuntimePurges.CompletedPurge | apps/cli/src/local-runtime-purge-adapter.ts:310-363 | a finished purge removed exactly the planned paths and kept everything else |
| WorkerProcesses.SettlesExactlyWhenGone | packages/agent-runtime/src/claude-worker-runtime.ts:162-220 | in every event order a process settles if and only if it closed and, from then on, some look found its group gone; without a group, if and only if it closed |
| WorkerProcesses.NeverStuck | packages/agent-runtime/src/claude-worker-runtime.ts:145-220 | every run that has not settled can go on: the close is still to come, or a look at the group is due, and a look that finds nobody settles it |
| WorkerProcesses.SettlesOnlyWhenGone | packages/agent-runtime/src/claude-worker-runtime.ts:162-183 | in every event order a started process settles only after it closed and, at that moment, its group is seen to be gone |
| WorkerProcesses.OutcomeIsFirstFailure | packages/agent-runtime/src/claude-worker-runtime.ts:184-220 | the outcome is the first failure raised before settling, or else everything written to its output |
| WorkerProcesses.SuccessIsClean | packages/agent-runtime/src/claude-worker-runtime.ts:197-220 | success means exit code 0 and total output within the limit |
| WorkerProcesses.RunTracks | packages/agent-runtime/src/claude-worker-runtime.ts:145-220 | after every run bytes, closed flag and failure are what the events say |
| WorkerProcesses.WorkerProcess.Handle | packages/agent-runtime/src/claude-worker-runtime.ts:145-220 | each event handler makes exactly the specified step |
| WorkerProcesses.WorkerProcess.HandleAll | packages/agent-runtime/src/claude-worker-runtime.ts:145-220 | a whole run of the handlers, event by event, is the specified run |
| WorkerProcesses.WorkerProcess.Finish | packages/agent-runtime/src/claude-worker-runtime.ts:162-180 | settles once, or kills the group and polls again |
| WorkerProcesses.WorkerProcess.Stop | packages/agent-runtime/src/claude-worker-runtime.ts:181-189 | the first failure terminates the group and arms the kill timer; later ones change nothing |
| CallerLocalPaths.ClientAndRuntimeAgree | packages/command-support/src/caller-local-paths.ts:167-238 | for every command and every argument list, the Runtime accepts what the client sends exactly when each default in effect has a readable value or can be appended and read, and resolving again changes nothing |
| CallerLocalPaths.PathContract | packages/command-support/src/caller-local-paths.ts:167-238 | the same for any sound table entry |
| CallerLocalPaths.GivenValuesFit | packages/command-support/src/caller-local-paths.ts:115-147 | that is so whenever every value option has a value that does not begin with dashes |
| CallerLocalPaths.OnlyPathsChange | packages/command-support/src/caller-local-paths.ts:167-197 | exactly the path arguments are resolved and only defaults are added; every other argument keeps its place and value |
| CallerLocalPaths.ResolvedArguments | packages/command-support/src/caller-local-paths.ts:167-197 | rewriting the arguments in place is rewriting what they say |
| CallerLocalPaths.MissingValueIsRefused | packages/command-support/src/caller-local-paths.ts:222-237 | two lists that are refused: a path option without its value, and a default swallowed as the value another option lacks |
| CallerLocalPaths.TableIsSound | packages/command-support/src/caller-local-paths.ts:37-113 | every entry of the command table meets the assumptions of the contract |
| CallerLocalPaths.FirstPositionalIndex | packages/command-support/src/caller-local-paths.ts:115-129 | the loop finds the specified first positional |
| CallerLocalPaths.OptionValueIndex | packages/command-support/src/caller-local-paths.ts:131-147 | the loop finds the specified option value |
| CallerLocalPaths.ResolveCallerLocalPaths | packages/command-support/src/caller-local-paths.ts:167-197 | the client's rewriting, step by step |
| CallerLocalPaths.AssertAbsoluteCallerLocalPaths | packages/command-support/src/caller-local-paths.ts:205-238 | the guard accepts exactly the specified argument lists |
| CallerLocalPaths.ParsePrint | packages/command-support/src/caller-local-paths.ts:115-147 | argument lists and their items determine each other |
| LocalPaths.ResolveTwice | packages/command-support/src/caller-local-paths.ts:174-183 | a resolved path is absolute and no later resolution moves it |

## Left out

Checkpoint store
- CheckpointProtocol.StepKeeps: loading is one step, though the code lists, reads and hashes one file after another; each clean-up's look at a file and its unlink are one step too.
- Identifiers are natural numbers that the environment chooses fresh, and SHA-256 is an injective wrapper around the content.
- The field-by-field shape checks of a checkpoint document: a file holds a document, nothing, or something that does not validate.
- The pause between attempts and the bounded retry. Nothing says that a publisher succeeds under contention.
- Clean-up never fails to unlink what it chose; only retention may. Neither changes what readers load.
- Utf.Utf8Writes: how many replacement characters an ill-formed byte sequence decodes to is not modelled; the decoder refuses such names in any case.

Domain pack contract
- JsonRoundTrip.ValueReads: numbers are safe integers; fractions, exponents and negative zero are not modelled.
- JsonRoundTrip.NumberRoundTrip: safe integers only, for the same reason.
- StrictJsonReaders.StrictJsonReader.Number: reads integers only; a fraction or an exponent is refused here though the program reads it.
- Manifests.ValidateDomainPackManifest: validates what was read; unknown fields and values of the wrong JSON type are refused by `ManifestDocuments.ReadDocument`, which gives no error code. Text lengths and patterns are not checked one by one, text is any string that can be written as UTF-8, and validators, knowledge guidance and prompt texts are left out: the reader takes an empty validators section and refuses the others.
- The hash behind a digest is any function of the bytes, and the check of a core contract version is left out.

Filesystem connector
- FilesystemListing.FilesystemSandbox.List: abort signals, and a tree that changes while it is listed.
- FilesystemMutation.FilesystemMutator.ExecuteMutation: a call that fails is taken to have had no effect, and nothing else changes the disk between a check and the commit. When all three staging names are taken, the clean-up unlinks the last one though this call did not create it; it holds no visible name.
- FilesystemMutation.FilesystemMutator.ReadTextFile: takes the file in one read; reading it piece by piece, and a file that changes meanwhile, are not modelled. The read, search and simulate operations built on it are left out.
- FilesystemConstraints.AnswerIgnoresOrder: the wording of an error for constraints that do not parse is not modelled; it names the first such grant.
- Lower-casing is ASCII only, and so is the case-insensitive match of protected names; U+017F and U+212A, which also fold to ASCII letters, are not covered.

Skill installer and client adapters
- SkillInstallPlans.InterruptedInstallConverges: rendering the install manifest and reading it back is an assumed law, the directories above a copy do not change, temporary files and a file named `__proto__` are not modelled, and interruption falls between changes only.
- SkillInstallers.InstallSkills: copies of skills that the source no longer has, which are reported and make a check run fail.
- AgentClients.EitherOrder: the integration kit's own texts are assumed to carry their own markers, the size limits and the older form of CODEX.md are left out, nobody edits a file between plan and apply, and the start has no managed block in CLAUDE.md, that is, Claude is not installed yet.
- Inspection and validation reports, and the issues a plan lists beside its operations.

Metered gateway
- MeteredGateways.MeteredGateway.CompleteMetered: reservations that expire or are settled by others meanwhile are not modelled, and the provider's checks on the shape of an answer are one flag. A duplicate found while charging a rejected answer leaves the reservation active, as the code does, and counts as that charge being lost.
- The clean-up after a failing single reservation has nothing to undo, because more than one scope already needs the store's atomic operation.
- The run budget and the input token bound of the gateway worker: the first keeps the smaller of two limits, the second adds up byte lengths.

Smaller protocols
- RuntimePurges.RuntimeHome.Plan: a missing home, and a home that changes while it is fingerprinted.
- RuntimePurges.RuntimeHome.Apply: a home that changes between looking at an artifact and removing it.
- WorkerProcesses.WorkerProcess.Handle: decoding output bytes to text, and a process that cannot be spawned at all.
- CallerLocalPaths.ClientAndRuntimeAgree: the working directory is absolute, as `process.cwd` gives it, and a command is not named like a member every JavaScript object has.

Everything else
- Daemon, dashboard, command-line rendering, queues, provider clients, service managers and the update of a local distribution: mostly plumbing whose promises follow from reading one branch.
- Small tables and one-line rules: the knowledge policy, the scheduler and the connector registry.

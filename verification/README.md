# Mindmory Lite, verified

Mindmory Lite keeps an agent's memories. Its authoritative state is a set of
append-only, hash-chained journals; the files and maps beside them are
projections that can be rebuilt. This project models the parts where that claim
is hard to keep and proves it.

| module | models |
|---|---|
| `Jsonl`, `CrashDisk` | JSON-lines files and what a crash leaves of an unsynced write |
| `Format`, `VectorStore`, `VectorRuns`, `Generations`, `GenerationRuns` | one vector generation, its crash protocol, whole runs of it, switching generations through `CURRENT`, and whole runs of the vector directory |
| `MessageJournal`, `MessageRuns`, `Turns` | the segmented message archive, whole runs of it, the current user turn |
| `SignedJournal`, `SignedRuns` | the signed event journal, key rotation and the three verifier loops, generic in what an event says, and whole runs of them |
| `Memory`, `Replay`, `Lifecycle`, `Convergence` | governed memories, what an event does, what the commit rules imply, replay over stale projections |
| `Encoding`, `Framing`, `ProposalRecords`, `Quotes`, `Gate` | UTF-8 and decimals, request hashing, the proposal file, evidence quotes, the decision cascade |
| `Governance`, `GovernanceProof`, `GovernanceTheorems`, `Approval`, `Digests` | the proposal protocol as a state machine whose steps interleave freely, its invariant, what follows, approval across a restart, and where its assumption about digests comes from |
| `Chronicle`, `Origins` | the law every event of every run keeps, stated on the records alone, where every proposal and event comes from, and what becomes of each request |
| `SignedGovernance` | that machine over the signed journal: commits, torn appends, rotations and restarts from the files |
| `Store`, `Server` | the store object and the request flows, imperative, each shown to be steps of that machine |
| `Diff` | cursor pagination over the growing continuity log |
| `Sorting`, `Search`, `Aliases`, `QueryCache`, `Ranking`, `Packing` | the self-contained algorithms of retrieval |

## How it is modelled

- **Crashes.** Storage is crash-stop: an I/O call succeeds or the process dies
  there. A file has a durable and a cached image; a crash leaves any image
  between them. Renames and the eight-byte count write are atomic. Methods that
  do I/O choose freely where they die, so their postconditions cover every
  crash point.
- **Hashes and codecs** are parameters of each module. SHA-256 is injective and
  so is the name of a key, of which the code keeps eight bytes; of HMAC (section
  2 of RFC 2104) nothing is assumed. Encoding a line and decoding it are mutual
  inverses, and a strict prefix of a line does not decode. Each lemma names the
  assumption it needs (`CollisionFree`, `Lawful`, `SoundDigests`).
  `ProposalRecords.HashingIsPossible`, `SignedRuns.CollisionFreeExists` and
  `Digests.SoundDigestsExist` show that such digests exist, and
  `Digests.DigestsAreSound` derives the protocol's assumption from that of
  SHA-256. The payload of a signed event is the mutation as marshalled;
  `SignedGovernance` reads it back as the event.
- **Interleaving.** Every critical section of a handler is one step of
  `Governance.Step`. Rejecting a proposal is two steps, because the handler
  reads and writes in two critical sections; flushing each file is a step of its
  own; a restart may come between any two steps.
- **Values the surroundings supply** (identifiers, times, the caller, which
  memory has a near-identical subject) are parameters. Identifiers are fresh.
- **Numbers.** Floats are reals. The vector header and offsets are modelled with
  their 64-bit widths; sequence numbers and counters are unbounded.
- **Sorting** by the library is `Sorting.Sort`; only that its result is a sorted
  permutation is used, and where the order is total the result is proved unique.

## What does not hold of the code

- `VectorOffset` admits one ordinal whose record would end beyond the largest
  file offset (`Format.LastAdmittedRecordOverflows`); the record fits exactly
  when the next ordinal passes the guard too (`Format.RecordEndFits`).
- An acknowledged vector cannot always be recovered. `Append` accepts an empty
  source id and a source id of any length; recovery refuses a generation that
  has an unnamed ref, and its line scanner refuses a mapping line of a mebibyte,
  committed or torn. `VectorStore.Store.Recover` states it as an equivalence, and
  `VectorStore.Store.Append` says exactly which appends keep the generation
  recoverable: an append writes one ref, known before the call, and that ref must
  be named and its line short. `VectorRuns.SoundRunsReopen` and
  `VectorRuns.FatalIsForever` are the two halves over whole runs.
  `VectorRuns.UnnamedAppendIsFatal` and
  `VectorRuns.LongAppendIsFatal` are one append of each kind, acknowledged, and
  the refusal after it.
- A committed event cannot always be read back. `readJSONL` refuses a line of
  sixteen mebibytes, so after such a commit the loader and `SetIntegrityKey` open
  the store with no key, while `VerifyDataDir`, which splits the file itself,
  accepts it: the three loops agree exactly on files without such a line.
  `SignedRuns.CommitAndAsk` gives the condition on the line about to be written,
  `SignedJournal.OnlyTheCurrentKeyOpens` that on whole files, and
  `SignedRuns.OverlongEventLocksTheStore` is a first commit that locks a new store.
- Source id and input hash are joined with a NUL byte, so two different pairs
  can share a key (`VectorStore.KeyCollidesOnNul`). Two source ids can share one
  if and only if one of them followed by NUL begins the other
  (`VectorStore.SourcesShareAKeyIff`).
- A crash inside an event append can leave a torn line, and the signed journal
  then does not open. `SignedJournal.TornEventOpens` says exactly which tails
  open; `SignedJournal.TornRotationOpens` does the same for a rotation.
- A proposal survives its file if and only if its quote was bound or it never
  named one (`ProposalRecords.ReloadIsIdentityIff`, with
  `ProposalRecords.UnboundProposalIsNotRestored` as an instance).
- APPLIED is not terminal in memory. `GovernanceTheorems.AppliedIsLostIff` gives
  the one step that undoes it, `GovernanceTheorems.LateRejectionOverwrites` says
  when it happens, and `GovernanceTheorems.AppliedCanBeLost` is a run of five
  steps that does it; a restart restores the status.
- The comment above the truncation loop says identity hits matched in content
  bypass the limit; the code demands a subject match, and the model follows the
  code (`internal/lite/server.go:1933-1938`). `Ranking.KeptIff` says which hits
  are kept, and `Ranking.ContentMatchIsDropped` is an identity hit that is not.

## Model

| member | source | states |
|---|---|---|
| `Format.DecodeEncode` | internal/lite/vectorstore/format.go:41-63 | decoding an encoded header gives the header back, for every valid header |
| `Format.EncodeDecode` | internal/lite/vectorstore/format.go:41-63 | the 32 bytes that carry a header are its encoding, so what decodes re-encodes to the same 32 bytes; the reserved bytes after them are free |
| `Format.DecodesIff` | internal/lite/vectorstore/format.go:54-63 | a header is read from 64 bytes exactly when they begin with the magic text, say version one, float32 and normalized, and name a dimension and records of four bytes for each |
| `Format.LowestByteFirst` | internal/lite/vectorstore/format.go:41-63 | numbers stand in the file with their lowest byte first |
| `Format.Encode` | internal/lite/vectorstore/format.go:41-53 | filling the buffer field by field produces exactly the header's bytes, or refuses an invalid header |
| `Format.CountPatchIsReencoding` | internal/lite/vectorstore/store.go:339-344 | writing eight bytes at offset 16 turns the header with one count into the header with the next |
| `Format.VectorOffsetExact` | internal/lite/vectorstore/format.go:65-73 | the overflow guard admits exactly the offsets that fit in 63 bits, and the result is then the unbounded one |
| `Format.RecordSlotsDisjoint` | internal/lite/vectorstore/format.go:65-73 | the record slots of two ordinals never overlap, nor the header |
| `Format.RecordEndFits` | internal/lite/vectorstore/format.go:65-73 | a record's end fits in 63 bits exactly when the next ordinal passes the guard |
| `Format.LastAdmittedRecordOverflows` | internal/lite/vectorstore/format.go:65-73 | an ordinal that passes the guard and whose record ends one byte too far |
| `VectorStore.Store.Append` | internal/lite/vectorstore/store.go:296-359 | a known key changes nothing; any other append commits the one ref of its arguments at the next ordinal, durable with its record before it is acknowledged, and leaves the generation recoverable exactly when it was and that ref is named and its line short; a death at any of its writes and syncs leaves the old refs with part of that line, or the old refs and this one |
| `VectorStore.Store.Recover` | internal/lite/vectorstore/store.go:214-294 | on files committing some refs, recovery restores exactly those, index and manifest included, wherever it may itself be interrupted; it refuses them exactly when a ref has no source id or a line of the mapping, torn tail included, reaches one mebibyte |
| `VectorStore.Store.ReadState` | internal/lite/vectorstore/store.go:215-264 | what the header, manifest and capped mapping scan read back, torn tails included, and exactly when they refuse |
| `VectorStore.IndexRefs` | internal/lite/vectorstore/store.go:255-263 | the loop accepts exactly the mappings with consecutive ordinals, one generation, named sources and distinct keys, and builds the inverse of refs |
| `VectorStore.IndexableIff` | internal/lite/vectorstore/store.go:256-260 | what the loop demands of each ref, field by field |
| `VectorStore.Store.Verify` | internal/lite/vectorstore/store.go:453-484 | full verification succeeds exactly when every record matches its checksum, and always on a consistent store |
| `VectorStore.SourcesShareAKeyIff` | internal/lite/vectorstore/store.go:302-302 | two different source ids can share a key exactly when one followed by NUL begins the other |
| `VectorStore.KeyIsInjective` | internal/lite/vectorstore/store.go:302-302 | keys of one source id, or of ids without NUL, coincide only for equal source and hash |
| `VectorStore.KeyCollidesOnNul` | internal/lite/vectorstore/store.go:302-302 | two different pairs with one key |
| `VectorRuns.Run` | internal/lite/vectorstore/store.go:196-359 | over any script of appends and restarts with crashes anywhere: each request does exactly its turn (refused restarts, known keys, refused records and new refs each under their own condition) or dies in it; every acknowledged ref stays at its ordinal, every committed ref was there before, acknowledged or in flight at a crash, and a restart of recoverable files is refused only after an append whose one ref is unnamed or has too long a line |
| `VectorRuns.TraceKeeps` | internal/lite/vectorstore/store.go:296-359 | whatever the turns, no acknowledged ref is lost or moved, and none appears that was not asked for |
| `VectorRuns.SoundRunsReopen` | internal/lite/vectorstore/store.go:237-263 | a run in which no append is about to commit an unnamed or over-long ref can always be recovered, and none of its restarts is refused |
| `VectorRuns.SoundScriptsReopen` | internal/lite/vectorstore/store.go:237-263 | nor any run of a script whose requests would write named refs with short lines at every ordinal they can get |
| `VectorRuns.FatalIsForever` | internal/lite/vectorstore/store.go:237-263 | once such a ref is committed, no later moment of the run can be recovered |
| `VectorRuns.UnnamedAppendIsFatal` | internal/lite/vectorstore/store.go:256-260 | an acknowledged append without a source id leaves committed files that recovery refuses |
| `VectorRuns.LongAppendIsFatal` | internal/lite/vectorstore/store.go:237-251 | an acknowledged append with a source id of one mebibyte leaves committed files that recovery refuses |
| `Generations.VectorDir.Open` | internal/lite/vectorstore/store.go:196-212 | opening a directory recovers its committed refs, refuses exactly when recovery does, and leaves every other directory alone |
| `Generations.VectorDir.CreateGeneration` | internal/lite/vectorstore/store.go:87-150 | a new directory gets an empty generation; `CURRENT` moves only when activating, and only to a READY one |
| `Generations.VectorDir.Activate` | internal/lite/vectorstore/store.go:153-174 | `CURRENT` moves only after every checksum held and the READY manifest is durable |
| `Generations.VectorDir.OpenCurrent` | internal/lite/vectorstore/store.go:176-194 | whatever opens is READY; committed files named by `CURRENT` open exactly when READY, all named and without a mapping line of one mebibyte |
| `Generations.VectorDir.Rebuild` | internal/lite/store.go:321-348 | building beside the current generation and switching: a death anywhere leaves `CURRENT` as it was or naming a READY generation whose refs are exactly those of the vectors, the first of each key, in order; it gives up exactly when some vector does not fit |
| `Generations.BuiltHolds` | internal/lite/store.go:330-342 | those refs hold every vector given, nothing else, and each key once |
| `GenerationRuns.Run` | internal/lite/store.go:321-377 | over any script of rebuilds, appends and restarts with crashes anywhere: each request does exactly its turn or dies in it; `CURRENT` names a READY generation that holds every vector of the rebuild that made it and every vector acknowledged since, and nothing but those and appends in flight at a crash; a restart is refused only after a request whose own refs are not all named and short |
| `GenerationRuns.TraceKeeps` | internal/lite/store.go:321-377 | the same of every trace: what `CURRENT` names was built by one request and has kept all of it |
| `GenerationRuns.SoundRunsReopen` | internal/lite/store.go:441-452 | a run without such a request always reopens what `CURRENT` names |
| `GenerationRuns.RebuildHeals` | internal/lite/store.go:321-348 | whatever became of the generation before, a rebuild that switches can be reopened exactly when what it was built from is named and short |
| `GenerationRuns.ShapeIsUnique` | internal/lite/vectorstore/format.go:41-63 | the bytes of the header decide the dimensions and record size a generation has |
| `Jsonl.ScanTornJournal` | internal/lite/vectorstore/store.go:237-251 | a scanner with a longest line reads exactly the whole lines of a torn file, and the torn one when its encoding is complete; it gives up exactly when a line or the torn tail reaches its limit |
| `Jsonl.TornScannableIff` | internal/lite/store.go:661-681 | whole lines followed by a torn one can be scanned exactly when every encoding, and what is left of the torn one, is below the limit |
| `Jsonl.CompletePartOfTornJournal` | internal/lite/message_journal.go:38-64 | cutting after the last newline of a torn file leaves exactly its whole lines |
| `MessageJournal.MessageStore.InsertMessage` | internal/lite/queries.go:77-138 | one row per session and external id: a retry with the same payload gets the same id, one with another payload changes nothing, a first submission adds the row `Records` describes field by field (payload, both hashes, both times, the policy's two answers, sensitivity, sequence and turn), and a death leaves the archive as it was or with this one row |
| `MessageJournal.KeyAndPayload` | internal/lite/queries.go:92-101 | what makes a submission a repetition, and a repetition the same message |
| `MessageJournal.MessageStore.AppendRecord` | internal/lite/message_journal.go:129-168 | the row is linked to the head; its line ends the last segment, or is all of a new one when it would outgrow the limit there; it is durable before memory changes |
| `MessageJournal.MessageStore.RecoverTail` | internal/lite/message_journal.go:38-64 | quarantines and cuts the torn tail; interrupted anywhere, the next recovery sees the same repaired archive |
| `MessageJournal.MessageStore.Load` | internal/lite/message_journal.go:26-96 | accepts exactly the repaired segments that form one chain without conflicting ids, and restores map, sequence, turn and head |
| `MessageJournal.VerifySegments` | internal/lite/integrity_verify.go:67-102 | the read-only verifier accepts exactly the whole segments that form one chain, and counts them |
| `MessageJournal.SequencesAreConsecutive` | internal/lite/message_journal.go:77-80 | sequences are 1..n across the concatenated segments |
| `MessageJournal.ChainedIff` | internal/lite/message_journal.go:66-92 | an accepted chain numbers its rows from one, each naming the record before it, its own content and its own record |
| `MessageJournal.UnconflictedIff` | internal/lite/message_journal.go:66-92 | the loader's conflict check accepts exactly the archives in which no id is given to two external ids |
| `MessageJournal.TurnsAreUserMessages` | internal/lite/queries.go:102-115 | every message carries the number of user messages up to it |
| `MessageJournal.WhereALineGoes` | internal/lite/message_journal.go:140-152 | a line goes to the last segment while that stays within 256 mebibytes, and to a new one otherwise |
| `MessageJournal.HeadHashDeterminesArchive` | internal/lite/message_journal.go:77-80 | two accepted archives with one last record hash are equal |
| `MessageJournal.CommittedLoads` | internal/lite/message_journal.go:26-96 | every archive a run can leave is accepted by the loader |
| `MessageRuns.Run` | internal/lite/queries.go:77-138 | over any script of submissions, retries and restarts with crashes anywhere: each request does exactly its turn (a taken external id is acknowledged again or conflicts, any other is archived) or dies in it; every acknowledged message is archived under its id, and every archived row was acknowledged or in flight at a crash, and is classified as the policy answers for its content |
| `MessageRuns.ExactlyOnce` | internal/lite/queries.go:92-101 | two acknowledgements for one external id of a session name one message and agree in role, content type, content and assistant |
| `Turns.LatestUserMessage` | internal/lite/queries.go:140-165 | walking the map in any order finds the last user message of the session in archive order |
| `SignedJournal.HeadHashDeterminesHistory` | internal/lite/mutation_event.go:356-374 | two chained event journals with one head hash have the same length and the same event bodies |
| `SignedJournal.AcceptedIff` | internal/lite/mutation_event.go:337-375 | an accepted journal numbers its events from one, of version two or three, each naming the digest of the one before and bearing its own; behind the anchor, or from the first without one, each bears the key's name and signature |
| `SignedJournal.RotationsAcceptedIff` | internal/lite/key_rotation.go:82-108 | an accepted rotation file numbers its records from one, each naming the one before, and its last names the key and bears its signature |
| `SignedJournal.Journal.Commit` | internal/lite/mutation_event.go:122-155 | an acknowledged event is durable, of version three, next in number, linked to the last one and signed; a death leaves the journal with any part of its line |
| `SignedJournal.Journal.RotateIntegrityKey` | internal/lite/key_rotation.go:31-72 | a record next in number, naming the record before, the head and both keys, with a signature of each, is durable before the key changes in memory; a death leaves any part of its line |
| `SignedJournal.Journal.LoadKeyRotations` | internal/lite/key_rotation.go:74-109 | accepts exactly the rotation chains whose last record the current key signed, and restores sequence, head and anchor |
| `SignedJournal.Journal.LoadMutationEvents` | internal/lite/mutation_event.go:325-378 | the loader accepts exactly the journals `Accepts` describes that have no line of sixteen mebibytes, and hands on every payload in order |
| `SignedJournal.Journal.SetIntegrityKey` | internal/lite/mutation_event.go:446-500 | the second verifier accepts exactly what the loader does under the new key |
| `SignedJournal.VerifyDataDir` | internal/lite/integrity_verify.go:23-65 | the third verifier accepts the same journals whatever the length of their lines, and counts the events |
| `SignedJournal.OnlyTheCurrentKeyOpens` | internal/lite/key_rotation.go:99-108 | another key verifies the files exactly when nothing has been signed yet; the store opens them exactly when, besides, every event line is short |
| `SignedJournal.TornEventOpens` | internal/lite/mutation_event.go:325-336 | a journal with part of one more event verifies exactly when the part is nothing or the whole line, and opens exactly when the lines there are short too |
| `SignedJournal.TornRotationOpens` | internal/lite/key_rotation.go:82-106 | with part of a rotation record, which of the two keys opens the files, if any event line does not stand in the way |
| `SignedRuns.Run` | internal/lite/key_rotation.go:31-109 | over any script of commits, rotations and restarts with crashes anywhere: each request does exactly its turn (one more event, the new key and one more record, or coming up exactly under the right key) or dies in it; every acknowledged payload is in the journal and every payload there was asked for; the files are whole and verify with exactly the current key (any key while nothing is signed), or a crash left part of a line and no key verifies them; they open exactly when they verify and every event line is short |
| `SignedRuns.Restart` | internal/lite/store.go:166-180 | a restart succeeds exactly when its key is the current one of whole files (or nothing is signed) and every event line is short, and then restores head, anchor and rotation state and hands on every payload |
| `SignedRuns.CommitAndAsk` | internal/lite/store.go:661-681 | an acknowledged commit leaves files the current key opens exactly when its line and all before it are below sixteen mebibytes; the read-only verifier accepts them in any case |
| `SignedRuns.OverlongEventLocksTheStore` | internal/lite/mutation_event.go:331-336 | a first commit of sixteen mebibytes is durable and verifies, and no key opens the store again |
| `Replay.GovernedStep` | internal/lite/mutation_event.go:213-266 | an admitted event adds its new row as it is, replaces an updated row as it is, and leaves an ended one as it was but for the lifecycle the event names, its time and the next version; it touches no other row |
| `Lifecycle.VersionCountsChanges` | internal/lite/mutation_event.go:109-121 | a memory's version is one more than the number of events that changed it |
| `Lifecycle.InactiveIsFinal` | internal/lite/mutation_event.go:109-121 | a memory that has left ACTIVE never changes again |
| `Lifecycle.EndsAsItSays` | internal/lite/mutation_event.go:225-240 | in every lawful journal the target of an ending event has, from then on, the lifecycle and time the event names |
| `Lifecycle.RevisionsAreConsecutive` | internal/lite/mutation_event.go:123-126 | continuity revisions are 1..n, one an event |
| `Lifecycle.OneSuccessor` | internal/lite/server.go:744-768 | a memory is superseded by at most one other |
| `Lifecycle.SupersedesIsOlder` | internal/lite/server.go:744-768 | a successor was made by a later event than what it supersedes |
| `Lifecycle.SupersessionIsAcyclic` | internal/lite/server.go:744-768 | following predecessors any number of steps never comes back |
| `Convergence.ReplayForgets` | internal/lite/mutation_event.go:356-376 | replaying the whole journal over any rows at all overwrites every row the journal knows |
| `Convergence.MergedRow` | internal/lite/mutation_event.go:379-421 | whatever the file held, a row takes back its runtime fields, and those alone, exactly when the file's row is at the same version, content, lifecycle and time |
| `Convergence.MemoriesConverge` | internal/lite/mutation_event.go:337-384 | over a projection at any earlier prefix, the loaded memories are the live ones in every governed field, and runtime fields are the persisted ones exactly where the row on disk is at the current version |
| `Convergence.LoadIsStable` | internal/lite/mutation_event.go:379-421 | loading what a load wrote back changes nothing |
| `Convergence.EvidenceConverges` | internal/lite/mutation_event.go:235-252 | replay over evidence at any earlier prefix gives the live evidence, in which no two rows of one memory say the same |
| `Convergence.ContinuityConverges` | internal/lite/mutation_event.go:260-265 | replay over the log at any earlier prefix gives the live log |
| `Convergence.ProposalsConverge` | internal/lite/mutation_event.go:214-259 | every journaled proposal comes back resolved by its event, and no other changes |
| `Framing.FrameIsInjective` | internal/lite/hash.go:16-25 | the length-framed bytes of two tuples of any lengths are equal exactly when the tuples are, since a parser inverts the framing |
| `Framing.WriteFields` | internal/memory/proposal.go:58-76 | writing field after field produces the framing of the tuple |
| `ProposalRecords.RequestHashIsInjective` | internal/memory/proposal.go:58-69 | request hashes of identities whose fields fit the framing coincide exactly when they are equal in all but the evidence position |
| `ProposalRecords.HashedText` | internal/memory/proposal.go:58-69 | the request digest is over these twelve texts in this order |
| `ProposalRecords.FieldsOnFile` | internal/lite/store.go:1290-1309 | each field of a proposal under its name in the file |
| `ProposalRecords.HashingIsPossible` | internal/memory/proposal.go:58-69 | the assumptions of both hash results hold together, for every identity of fields shorter than 2^62 |
| `ProposalRecords.ReloadIsIdentityIff` | internal/lite/store.go:1290-1327 | a proposal written and read back is itself exactly when its quote is bound or it named none |
| `ProposalRecords.UnboundProposalIsNotRestored` | internal/lite/store.go:1290-1327 | a staged proposal that loses its quote hash |
| `ProposalRecords.ReloadedHashMatchesIff` | internal/lite/mutation_event.go:77-84 | after a reload the recomputed request hash is the stored one exactly when the requested quote is the bound one |
| `Framing.ShortTextIsNoFrame` | internal/memory/proposal.go:71-76 | a text whose first eight bytes announce more than follows is the framing of no tuple |
| `Encoding.Utf8IsInjective` | internal/memory/proposal.go:71-76 | different texts have different bytes |
| `Digests.RetireTextIsNoFrame` | internal/lite/server.go:1609-1611 | the text a retirement hashes is the framing of no request identity |
| `Digests.RetireTextIsInjective` | internal/lite/server.go:1609-1611 | that text tells the memory and its version apart |
| `Digests.DigestsAreSound` | internal/lite/server.go:1609-1611 | with a digest without collisions, request and retirement hashes are as distinct as the protocol needs |
| `Quotes.IndexOf` | internal/lite/hash.go:105-112 | finds the first occurrence, or there is none |
| `Quotes.BindsIffUnique` | internal/lite/hash.go:54-97 | a quote binds to a range exactly when that is its only occurrence, overlaps counted |
| `Quotes.AmbiguousIffRepeated` | internal/lite/hash.go:71-73 | it is called ambiguous exactly when it occurs at two places |
| `Quotes.BindExactQuote` | internal/lite/hash.go:54-85 | the scanning loop computes that binding |
| `Quotes.SupportedReplacement` | internal/memory/mutation.go:171-189 | the replacement is supported exactly when its words stand next to each other, in order, in the evidence |
| `Gate.ReviewOverridesOnlyIntent` | internal/memory/mutation.go:89-164 | a reviewer can apply exactly what would apply anyway or was held back for intent alone, and never without a normal user message that contains the quote |
| `Gate.AppliesIff` | internal/memory/mutation.go:100-164 | a request is applied exactly when it is of the current turn, cites a harmless user message of its session that contains its quote, carries the cue or a review, and its words are clean and about the subject or target they name, a replacement included |
| `Gate.HeldByTheFirstFailure` | internal/memory/mutation.go:100-164 | otherwise the decision is that of the first check it fails, in the documented order |
| `Gate.HeldTellsWhy` | internal/memory/mutation.go:100-164 | the security gate stands where text or sensitivity is suspect, the intent gate at the missing cue alone |
| `Gate.HeldForIntentIff` | internal/memory/mutation.go:125-130 | held back for intent is exactly what passed every earlier check and lacks the cue |
| `Store.Store.ApplyMutationEventLocked` | internal/lite/mutation_event.go:213-266 | the in-place update of five maps is the event's meaning, and the hash index stays exact |
| `Store.Store.CommitMutation` | internal/lite/mutation_event.go:69-166 | commits exactly what passes the checks; a refusal changes nothing; a commit appends one event, applies it, and leaves the files with the first few projections rewritten |
| `Store.Store.LoadMutationEvents` | internal/lite/mutation_event.go:337-398 | replays the journal over what was read, merges runtime fields, and rewrites the files |
| `Store.MergeRuntimeState` | internal/lite/mutation_event.go:379-384 | the merging loop keeps runtime fields of exactly the rows at the same governed version |
| `Store.Store.Open` | internal/lite/store.go:577-608 | a fresh store over files and journal is what the machine's restart loads |
| `Store.Store.FindProposalByHash` | internal/lite/proposal.go:15-24 | the index finds a proposal exactly when one has that hash |
| `Store.Store.StageProposal` | internal/lite/proposal.go:26-37 | is the machine's staging step on memory, index and file |
| `Store.Store.RejectProposal` | internal/lite/proposal.go:76-90 | is the machine's rejection on memory and file, and says whether the id was known |
| `Store.Store.RecordAccess` | internal/lite/queries.go:560-607 | counts one use and changes no governed field and no confidence; genuine use sets activation and the last-used sequence, a search hit neither |
| `Store.Store.ApplyFeedback` | internal/lite/queries.go:614-661 | counts one use and dates it; praise adds 0.05 up to one, rewarms and clears a dispute, blame takes 0.25 down to zero and disputes |
| `Store.Store.FlushAccessBumps` | internal/lite/queries.go:225-263 | moves every waiting use into its row once; the number of uses of each memory is conserved |
| `Store.ProjectionIsASequenceOfFlushes` | internal/lite/mutation_event.go:268-285 | stopping after any of the four rewrites is a run of the machine's flush steps |
| `Server.Server.ApplyMutation` | internal/lite/server.go:551-695 | serving a request is the machine's submission followed by its commit step, and keeps the protocol's invariant wherever the process dies |
| `Server.Server.ApproveProposal` | internal/lite/server.go:1470-1548 | approving is the machine's approval followed by its commit step, and keeps the invariant |
| `Server.Server.RetireMemory` | internal/lite/server.go:1587-1628 | retiring is the machine's retirement followed by its commit step, and keeps the invariant |
| `Server.Server.RejectPending` | internal/lite/server.go:1554-1578 | undisturbed, the rejection handler rejects exactly pending proposals, and keeps the invariant |
| `GovernanceProof.CommitExtends` | internal/lite/mutation_event.go:77-121 | in every reachable state a commit that passes the checks appends a lawful event, of a request and proposal no event has yet |
| `GovernanceProof.SubmitKeeps` | internal/lite/server.go:551-695 | submitting keeps the invariant, whatever is archived, staged or started |
| `GovernanceProof.RestartKeeps` | internal/lite/store.go:577-608 | so does a restart from any combination of stale files |
| `GovernanceProof.StepKeeps` | internal/lite/server.go:551-695 | so does every step of every handler |
| `GovernanceProof.RunKeeps` | internal/lite/server.go:551-695 | the invariant holds after every interleaving of handlers, flushes and restarts |
| `GovernanceTheorems.AtMostOnce` | internal/lite/mutation_event.go:77-87 | in every run a request hash, and a proposal, is the subject of at most one event |
| `GovernanceTheorems.NeverPendingAgain` | internal/lite/mutation_event.go:77-87 | a proposal an event resolved is never pending in any later state |
| `GovernanceTheorems.EvidenceIsCited` | internal/lite/server.go:571-591 | every evidence row names an archived user message and the one range of it that hashes to the recorded digest |
| `GovernanceTheorems.MemoriesAreQuoted` | internal/lite/server.go:728-743 | every memory reads as the event that made it, and one made by REMEMBER is byte for byte what the user said |
| `GovernanceTheorems.RestartRestores` | internal/lite/mutation_event.go:325-398 | restarting after any run gives back the same governed memories, evidence and log, and every journaled proposal resolved, saying when, why and into which memory it was applied |
| `Approval.ApprovalSurvivesRestart` | internal/lite/server.go:1470-1540 | in every run an approval after a restart starts exactly the commit it would have started before, which passes the proposal check and the other checks exactly as before |
| `Approval.RunFiles` | internal/lite/proposal.go:26-37 | in every run a proposal no event has resolved is on file as it is in memory |
| `Chronicle.EveryEventIsTold` | internal/lite/server.go:716-780 | the law of the journal, of every event of every run and in terms of records only: with a proposal it cites a normal, unflagged user message of its session at the place that hashes to the recorded digests; its words overlap its subject or target and support its replacement, nothing blocked; it carries the cue, or a reviewer's authorization for a proposal held back for its cue alone; it stores exactly the row, evidence and log entry its kind of change makes; without one it retires an active memory |
| `Chronicle.EndedMemories` | internal/lite/mutation_event.go:225-240 | in every run a memory whose user asked to forget it stands FORGOTTEN in the live store, one corrected or retired SUPERSEDED, at the event's time and the next version |
| `Chronicle.EvidenceIsKept` | internal/lite/mutation_event.go:241-252 | the evidence of every event stands in the live store under its memory |
| `Origins.EventsComeFromTheCurrentTurn` | internal/lite/server.go:551-695 | every event with a proposal comes from a submission of that identity made on the current turn, whoever approved it and however long after |
| `Origins.RunSubmitted` | internal/lite/server.go:580-606 | every proposal of every run is what some submission asked for, of an archived user message of its session, and only one made without reserve or lacking its cue alone is certain to be of the current turn |
| `Origins.SubmitOutcome` | internal/lite/server.go:551-695 | a submission comes to nothing, to a proposal waiting for a named reason, or to a commit that passes its checks, each exactly under its condition |
| `Origins.ApproveOutcome` | internal/lite/server.go:1470-1548 | an approval starts a commit, which passes its checks, exactly for a pending proposal held back for its cue alone whose evidence is unchanged and which passes every other check |
| `Origins.RetireOutcome` | internal/lite/server.go:1587-1628 | a retirement starts one exactly for an active memory |
| `Origins.CommitFailsIff` | internal/lite/mutation_event.go:69-121 | the faults that make a commit fail before anything is written |
| `Origins.FinishOutcome` | internal/lite/server.go:677-690 | the commit step appends one event or, when its checks fail, does nothing but the rejection an automatic apply asks for |
| `Origins.RejectingWasPending` | internal/lite/server.go:1554-1573 | only a proposal that was pending when the handler looked is ever rejected by it |
| `SignedGovernance.ServeCommit` | internal/lite/mutation_event.go:69-166 | committing over the signed file is the machine's commit step; a death leaves a file that is as before, or holds the event of that very step, or opens with no key |
| `SignedGovernance.Run` | internal/lite/store.go:577-608 | over any script of critical sections, commits, rotations and restarts with crashes anywhere: every command does exactly what the machine's step does or dies in its append; a restart comes up exactly when its key opens the files; the store's state is that of a run of the machine, so that what is proved of runs holds of it; the payloads of the signed file are that run's journal, and every acknowledged event is in it |
| `SignedGovernance.SignedAtMostOnce` | internal/lite/integrity_verify.go:23-65 | whatever key verifies the files after such a run, what is read there has no request and no proposal twice |
| `GovernanceTheorems.AppliedIsLostIff` | internal/lite/server.go:1559-1573 | the only step after which an applied, journaled proposal is not applied is a rejection that read PENDING before |
| `GovernanceTheorems.LateRejectionOverwrites` | internal/lite/server.go:1559-1573 | such a rejection does overwrite it while the event stays journaled |
| `GovernanceTheorems.AppliedCanBeLost` | internal/lite/server.go:1559-1573 | a run of five steps from the empty store, on a quote the word lists take, that ends with the event journaled and its proposal REJECTED |
| `GovernanceTheorems.RetiredStaysRetired` | internal/lite/mutation_event.go:109-121 | a memory that has left ACTIVE is the same row, in every governed field, in every later store of the run |
| `GovernanceTheorems.LiveLineage` | internal/lite/mutation_event.go:109-121 | in every store of every run versions count changes, successors are unique and what is superseded is inactive |
| `Diff.EffectiveLimit` | internal/retrieval/model.go:439-450 | a valid request asks for between one and a hundred changes |
| `Diff.LimitsAre` | internal/retrieval/model.go:439-450 | a limit is none, which means twenty, or one up to a hundred |
| `Diff.Forward` | internal/lite/queries.go:483-499 | the forward loop returns the first visible changes above the cursor, and the last one's revision |
| `Diff.Recent` | internal/lite/queries.go:473-482 | the backward loop returns the newest visible changes, and the newest one's revision |
| `Diff.PageIsolation` | internal/lite/queries.go:483-499 | a forward page holds only rows of no project and of its own, and of those above the cursor all up to the new one, or all there are if it is not full |
| `Diff.RecentIsolation` | internal/lite/queries.go:473-482 | so does the first page, from the newest row back |
| `Diff.OtherProjectsLeaveNoTrace` | internal/lite/queries.go:466-502 | two logs with the same rows of no project and of this one give the same pages and cursors |
| `Diff.PageIsContiguous` | internal/lite/queries.go:483-499 | a page is every visible change between the old cursor and the new; it is empty exactly when nothing is left |
| `Diff.PagesNeitherSkipNorRepeat` | internal/lite/server.go:1218-1241 | pages taken while the log grows add up to the visible changes between first and last cursor, each once and in order |
| `Diff.PagesRunOut` | internal/lite/server.go:1218-1241 | once commits stop, as many calls as there are changes left end in an empty page with everything returned |
| `Diff.RecentLeavesNoGap` | internal/lite/server.go:1218-1241 | above the first page's cursor lie exactly the visible changes appended since |
| `Diff.RunLogsGrow` | internal/lite/mutation_event.go:123-126 | the logs of every run only grow and are numbered one upwards, as the pagination results assume |
| `Search.ScoredHeap.Push` | internal/lite/vectorstore/search.go:14-18 | keeps heap order and adds the candidate |
| `Search.ScoredHeap.Pop` | internal/lite/vectorstore/search.go:14-18 | keeps heap order and removes a candidate of least score |
| `Search.Search` | internal/lite/vectorstore/search.go:20-78 | returns min(limit, eligible) eligible candidates, none worse than one left out, by score and then source id |
| `Search.SearchFindsTheBestScores` | internal/lite/vectorstore/search.go:60-77 | the returned scores are the first of all eligible scores put in descending order |
| `Search.EligibleIff` | internal/lite/vectorstore/search.go:36-58 | eligible is exactly a record the filter allows whose score is not below the threshold, under its own place and names |
| `Search.DotByComponent` | internal/lite/vectorstore/search.go:44-52 | a score counts each component of the record by the query's component at its place |
| `Search.ResultsByScore` | internal/lite/vectorstore/search.go:70-77 | results come by descending score, and of equal scores by source id |
| `Sorting.SortIgnoresInputOrder` | internal/lite/server.go:1913-1915 | under a total order the sorted result does not depend on the order of the input |
| `Sorting.StringLessAt` | internal/lite/model.go:523-523 | of two ids the one that ends first, or holds the smaller character where they first differ, is less |
| `Aliases.CanonicalMatches` | internal/retrieval/alias.go:303-342 | the result is the entries of the greedy choice from every occurrence of every name, put longest first |
| `Aliases.SelectedAreDisjoint` | internal/retrieval/alias.go:325-340 | no two selected occurrences overlap |
| `Aliases.RejectedForALonger` | internal/retrieval/alias.go:322-340 | every rejected occurrence overlaps a selected one at least as long |
| `Aliases.OverlapIsSharing` | internal/retrieval/alias.go:325-334 | two names overlap exactly when they share a character of the query |
| `Aliases.LeftOutShares` | internal/retrieval/alias.go:325-340 | what is left out shares a character with a selected name at least as long, so names that merely touch are both selected |
| `Aliases.IsolatedIsSelected` | internal/retrieval/alias.go:325-340 | an occurrence that overlaps nothing is always selected |
| `Aliases.TableOrderDoesNotMatter` | internal/retrieval/alias.go:301-342 | without ties between overlapping occurrences, tables with the same names select the same places of the query |
| `QueryCache.QueryVectorCache.Get` | internal/lite/query_cache.go:37-47 | is the abstract lookup; a hit moves to the front and the returned vector is a fresh copy |
| `QueryCache.QueryVectorCache.Put` | internal/lite/query_cache.go:48-68 | is the abstract insertion of a copy, evicting from the back; refused text changes nothing |
| `QueryCache.QueryVectorCache.SwitchGeneration` | internal/lite/query_cache.go:69-76 | empties list and map exactly when the generation changes |
| `QueryCache.HoldsTheMostRecent` | internal/lite/query_cache.go:37-76 | over any sequence of calls the cache holds the most recently used keys of the current generation, as many as fit |
| `QueryCache.HoldsTheLastVector` | internal/lite/query_cache.go:37-76 | each entry's vector is the last one put under its key, and no call since was for another generation |
| `QueryCache.BoundedAndDistinct` | internal/lite/query_cache.go:64-67 | never more entries than the capacity, and one a key |
| `Ranking.KeyOrder` | internal/lite/model.go:495-524 | the key comparison is a strict order in which different keys are never tied |
| `Ranking.WhatOutranksWhat` | internal/lite/model.go:431-524 | of two rows the better match comes first, then the more personal, the stronger match, the more credible, the better standing, the warmer, the more important, the newer, and at last the smaller id |
| `Ranking.DisputeAndDoubtLowerARow` | internal/lite/model.go:375-490 | a dispute ranks an active row strictly lower, and less confidence never ranks it higher |
| `Ranking.RankingIgnoresGatheringOrder` | internal/lite/server.go:1913-1915 | the ranking of candidates with distinct ids does not depend on how they were gathered |
| `Ranking.Fuse` | internal/lite/server.go:1961-1997 | the loops gather, walk the map in any order and sort to a fusion of the two lists |
| `Ranking.FusionIsDetermined` | internal/lite/server.go:1961-1997 | there is only one fusion, whatever the map order or the order of the lexical hits |
| `Ranking.FusionIsByScore` | internal/lite/server.go:1985-1996 | a fusion lists the higher score first, and of equal scores the better key |
| `Ranking.FusionKeepsEachIdOnce` | internal/lite/server.go:1967-1996 | each id of either list comes out once, and no other |
| `Ranking.ScoreIsTheSumOfShares` | internal/lite/server.go:1967-1981 | a memory in both lists scores the sum of its two shares and keeps its better key |
| `Ranking.Truncate` | internal/lite/server.go:1928-1949 | keeps, in order, the first twenty protected hits and the first limit others |
| `Ranking.KeptIff` | internal/lite/server.go:1928-1949 | of distinct hits, one is kept exactly when fewer than its side has room for are ranked before it on that side |
| `Ranking.ContentMatchIsDropped` | internal/lite/server.go:1932-1938 | an identity hit matched in its content that is dropped at limit one |
| `Packing.EstimatedTokens` | internal/retrieval/model.go:374-392 | the counting loop's estimate, between nothing and one a rune |
| `Packing.TokensGrow` | internal/retrieval/model.go:374-392 | a longer text never costs less |
| `Packing.FitNativeLine` | internal/command/command.go:424-454 | the early-breaking loop computes the line |
| `Packing.LineIsLongest` | internal/command/command.go:424-454 | a line fits, extends the text, and shows the most runes that fit; none is found exactly when not one rune would |
| `Packing.FormatNativeContext` | internal/command/command.go:392-422 | the loop over memories computes the packing |
| `Packing.ContextIsBounded` | internal/command/command.go:392-422 | for all memories and budgets the text is within both budgets and extends the header |
| `Packing.ContextShowsMemories` | internal/command/command.go:392-454 | the text is the heading and then one bullet a memory in order, each its subject, a dash and its content from the beginning, as much as fits; only memories that say nothing are passed over, and it ends before the first of which not one rune has room |
| `Packing.TokensAreCounted` | internal/retrieval/model.go:374-392 | a wide rune costs a token, and so does every started group of four others |
| `Packing.PackingIsMaximal` | internal/command/command.go:392-422 | packing stops only at a memory of which not one rune has room |

## Left out

- HTTP, MCP, configuration, logging, the operations journal, embedding clients, snapshots and evaluation: plumbing.
- SQLite, full-text search and low-RAM mode: the model takes the in-memory branches.
- I/O errors other than a crash: after a failed write the code goes on with partly changed state, and nothing is claimed of that. A write past the largest file offset counts as a refused append.
- Word lists, policy detectors, trigram similarity, activation decay and the importance heuristic are uninterpreted parameters; so is the choice of a near-identical subject, which the model lets be any active memory.
- Normalising a vector and encoding its floats: `VectorStore` takes records as bytes, `Search` takes vectors as reals.
- Legacy imports, schema migration and the v1 `heat` field.
- Resolving a session, its project and its client: parameters of a request; a session that does not resolve is not modelled. Subjects and replacements are given trimmed.
- Memory mapping, closing and file locks; directory entries of files just created count as durable once the file is synced.
- `VectorStore.Store.Recover`: the expected size is computed exactly; the source multiplies in 64 bits, which `Format.VectorOffsetExact` shows cannot overflow for counts `Append` has committed.
- `Generations.VectorDir.OpenCurrent`: `CURRENT` holds the bare name; trimming it and rejecting path separators are not modelled.
- `Generations.VectorDir.Rebuild`: that the vectors given cover every active memory is not claimed; after a change of dimensions alone the code does not ensure it. Memories edited while embeddings are computed make the code give up, which is not modelled.
- `MessageJournal.MessageStore.Load`: the sorted listing of segment files and its gap check are not modelled, nor what happens past a million segments, where the sorted order of names breaks.
- `MessageJournal.MessageStore.RecoverTail`: the quarantine file's name and the recovery report are not modelled.
- `Governance.Step`: reading, staging and starting a commit are one step, since the mutation lock is held throughout; a rejection may fall between it and the commit step. The machine's restart always loads; when a torn or over-long event keeps the store from opening is part of `SignedGovernance.Run`.
- `Store.Store.Open`: a line of sixteen mebibytes in a projection file (`internal/lite/store.go:759`) also fails the load, which is not modelled. It does not bind while every event line is short: a memory, evidence or continuity row is embedded whole in the event that made it, beside hashes, a signature and more, which outweigh the few counters, times and status words a row gains later; a proposal without an event comes from a mutation request, whose body is at most 256 KiB (`internal/lite/server.go:148-149`), or from the learner, whose subject is at most 48 runes (`internal/lite/learner.go:177-179`).
- `SignedGovernance.Run`: passes over a commit whose event does not survive marshalling, which no event of floats fails to do; starts from an empty store; that a death may also fall inside the rewriting of one projection file is covered by the flush steps being atomic renames.
- `GenerationRuns.Run`: starts from an empty directory, appends one vector a request (and none while no generation is open, where the code would rebuild), dates all refs of a rebuild alike, and gives each rebuild a new name, which the code draws at random; the import of the former sidecar is not part of a run.
- `Jsonl.ReadRows`: white space is that of ASCII; a reader of the code also trims two Latin-1 and some Unicode blanks.
- `Store.Store.FlushAccessBumps`: uses waiting when the process dies are lost, as the code intends, and a use between reading a duplicate and promoting it is lost too.
- `Store.Store.LoadMutationEvents`: takes the journal as read and verified; reading and verifying it is `SignedJournal.Journal.LoadMutationEvents`, and the two are put together in `SignedGovernance.Run`.
- `Store.Store.CommitMutation`: numbering, chaining, signing and a torn append, and the refusal without a key, are `SignedJournal.Journal.Commit`; the commit step over the signed file is `SignedGovernance.ServeCommit`.
- `SignedRuns.Run`: opening without any key, which checks no signature, is not part of a run.
- `Server.Server.RejectPending`: a commit between the handler's two looks at the store is `GovernanceTheorems.LateRejectionOverwrites`.
- `Digests.DigestsAreSound`: identifiers are at most 2^32 characters long and versions are 64-bit integers, as `Governance.InRange` says; a retirement outside that range is not modelled.
- `Diff.Forward`: returns continuity rows, of which the response shows all but the revision; the signed cursor, which ties a revision to a project, is not modelled.
- `Quotes.SupportedReplacement`: starts from the two word lists; splitting text into words, and the substring rule for CJK text, are not modelled.
- `Aliases.CanonicalMatches`: names are given lower-cased and trimmed; the other matching rules for aliases and the expansion itself are not modelled.
- `Search.Search`: which of several candidates tied at the cut is kept is left open, as in the code; cancellation and read errors are not modelled.
- `Ranking.Fuse`: equal scores are compared as reals, so rounding in the sum of shares is not modelled.
- `Packing.FormatNativeContext`: white space is given folded, and text is a sequence of runes, so invalid UTF-8 is not modelled.
- UTF-8: evidence and content are sequences of bytes, and that a reviewed quote is valid UTF-8 is a predicate of the policy; hashed fields are text, of which `Encoding.Utf8` gives the bytes.

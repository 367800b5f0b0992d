# A verified model of the yeetz object-store kernel

This project models the crash-tolerant, multi-writer protocol that the repository builds out of
conditional object-store requests, together with the codecs and the streaming state machines under it,
and proves what the protocol promises.

The store's entity tag is a function of the stored bytes, so compare-and-swap alone does not rule out
that an object was deleted and written again with the same bytes. Safety comes from the incarnation
counter, the counter reads around each write, and conditional evictions. The models keep exactly these.

## How it is modelled

Lineages (`Lineage`) and values (`Values`) are step systems. A run is a schedule: each event is one
request of one call, or a call starting or crashing, or a lost request landing late, once or several
times. A request may take effect and still be reported as failed. A call is a program counter and its
local variables. `EraStore` holds what both share: one guarded object, its counter, its tombstone, and the
log of what happened to it. The theorems are about every state that any schedule reaches.

SHA-256 is a term: a digest is the hash of given bytes, so it is injective by construction; the binary
codec is proved for an arbitrary hash function instead. Commit identifiers name a call and an attempt.
JSON encodings are datatypes, with the length of the canonical envelope computed exactly.

Code that works by updating state is a class or a method with loops: the history walk, the projections
and folds, the chunk reader and writer, the manifest encoder and decoder, the sweep, trimming, batched
deletion, predecessor-expected append, window reads. What other parties do during such a call is an input:
between any two requests they may change the store arbitrarily (`LogStore`), or publish (`History`).

| file | what it holds |
|---|---|
| `Basics`, `Keys`, `Listing` | shared vocabulary; identifiers, padded numbers, byte order; paged LIST |
| `EraStore` | the era-guarded object, its counter and tombstone, legal logs |
| `Records`, `Lineage`, `LineageProofs`, `LineageTheorems`, `LineageAnswers`, `LineageRuns`, `LineageProgress` | lineage heads: steps, invariant, theorems, what answers mean, a counterexample run, undisturbed calls |
| `History`, `Folds` | the history walk, projections and folds |
| `Values`, `ValueProofs`, `ValueTheorems`, `ValueAnswers`, `ValueRuns`, `ValueGc`, `ValueProgress` | value controls, oracle, chunks, what answers mean, collection, undisturbed calls |
| `Sweep`, `Deletes` | the chunk sweep of a whole namespace; deletes and their figures |
| `ChunkReader`, `ChunkWriter`, `ManifestCodec`, `ChunkPath` | streaming and codecs |
| `Timelines`, `LogStore`, `AppendExpected`, `Bounded` | stream logs: expected append, creation, window reads |
| `Trim`, `TrimmedLog`, `DeleteObjects` | certified trimming, a stream's log under it, batched deletion |

## Where a promise holds only under a condition

- `Destroyed` from a state read (`crates/yeetz-s3-kernel/src/terminal_read.rs:48-68`) is made of two reads
  and need not have been true at any instant; it was true at the head read exactly when the head key had
  been written before it.
- The oracle's lost verdict is final only while the counter names the bound incarnation: a stale creator
  can take the same generation after a destroy.
- Single consumption of a tag needs runs without raw deletes (`delete`, `delete_if_match`, `delete_many`,
  `delete_objects`), which do not touch the incarnation.
- Chunk completeness needs the operator's quiescence; the fence alone does not give it.
- `delete_below` checks its data prefix only as an identifier. A data prefix whose last segment is `trims`
  makes it collect certificates, possibly of another scope, whose floor then falls.
- A key in the data range that is not seq-shaped ends the sweep there; everything behind it stays.
- A reader does not repeat a failed fetch. Polled again after an error, it signals the end of the file early
  if and only if the chunk it needs is one whose error it has already reported and everything still in flight
  comes in and verifies (`ChunkReader.Reader.PollRead`, `ChunkReader.FailsThenEnds`). A caller that stops at the
  first error never sees an early end.
- `append_successor_batch` accepts an empty batch (`crates/yeetz-s3-kernel/src/state_kernel.rs:1393-1422` has a
  prior to return) and publishes the expected generation again without its prior. Above generation 0 the
  standing head then no longer decodes, although the call returned Ok (`LineageProgress.EmptyBatchBreaksHead`).
  What the theorems say of chains and complete heads therefore needs that no empty batch was submitted; what
  they say of incarnations does not.
- `delete_below` does not tie its data prefix to the scope whose certificate covers the boundary. Certified by
  one scope and pointed at another stream's log it deletes what that stream retains
  (`TrimmedLog.ForeignSweepBreaksLog`); with a log's own scope it never does (`TrimmedLog.RunIsLegal`).
- A chunk of a batched delete that is stopped because its response is not a bijection keeps the rejections
  already copied from that response (`crates/yeetz-s3-kernel/src/atomic_keyspace.rs:1313-1364`), although the
  documentation ties a rejection to a valid response (`crates/yeetz-s3-kernel/src/atomic_keyspace.rs:381-387`).
- The manifest magic is 24 bytes long; the comment at `crates/yeetz-s3-kernel/src/value_manifest.rs:73` says 25.

## Model

| member | source | states |
|---|---|---|
| `EraStore.ApplyKeeps` | crates/yeetz-s3-kernel/src/state_kernel.rs:3843-3912 | Any conditional request whose issuer knew enough (the era is not ahead of the counter, a replacement stays in its era and moves forward, a delete is of a closed era, a counter bump has its witness) keeps the log of effects legal, at any time and however often it is delivered, although a tag is only the bytes. |
| `EraStore.OpenRun` | crates/yeetz-s3-kernel/src/state_kernel.rs:1829-1851 | Between a write that landed in its own era and any later effect under the same counter value there are only such writes, each replacing exactly its predecessor: no delete and no other era comes in between. |
| `EraStore.OpenRanksGrow` | crates/yeetz-s3-kernel/src/state_kernel.rs:1340-1391 | Within one incarnation, log order and generation order are the same thing, so a generation names one landed write. |
| `EraStore.OpenCellStands` | crates/yeetz-s3-kernel/src/state_kernel.rs:1805-1827 | What landed in an era that is still open has not been lost: the object standing now is of that era and at least as far on. |
| `EraStore.NoWitnessNoErasure` | crates/yeetz-s3-kernel/src/state_kernel.rs:1112-1163 | While there is no tombstone, nothing was ever deleted. |
| `Records.ValidateRecordBatch` | crates/yeetz-s3-kernel/src/state_kernel.rs:1393-1422 | Accepts exactly the contiguous, prior-linked batches of this lineage that leave a successor generation, and returns the last record's position; an empty batch passes if there is a position to follow, and that position is returned. |
| `Records.DecodedIs` | crates/yeetz-s3-kernel/src/state_kernel.rs:230-285 | What decodes is a record of this lineage, under its own digest, that names the generation before it; a wrong digest is told from every other damage. |
| `Records.BatchDecodes` | crates/yeetz-s3-kernel/src/state_kernel.rs:1393-1422 | Every record of a batch that continues a position decodes from what is published of it. |
| `Records.ChainIsLinked` | crates/yeetz-s3-kernel/src/state_kernel.rs:1920-1966 | The records below a digest are indexed by sequence from 0 and each names the one before it. |
| `Records.ChainOfBatch` | crates/yeetz-s3-kernel/src/state_kernel.rs:1200-1266 | Publishing a linked batch on top of a chain gives exactly that chain followed by the batch. |
| `LineageProofs.RunKeeps` | crates/yeetz-s3-kernel/src/state_kernel.rs:1236-1391 | Every interleaving of genesis and successor appends, destroys and state reads, with lost requests and replies, late deliveries and crashes, keeps the invariant; objects, eras, witnesses and the effect log only grow. |
| `LineageProofs.RecheckLook` | crates/yeetz-s3-kernel/src/state_kernel.rs:1791-1827 | The counter read after a landing proves either that the head landed in its own open era, or that its era is closed for good. |
| `LineageTheorems.AckedAppendLandedOpen` | crates/yeetz-s3-kernel/src/state_kernel.rs:1279-1335 | An append returns Ok only with the head that its own call was to publish, and only if the counter named that head's incarnation at the very event that put it in place. |
| `LineageTheorems.AckedChain` | crates/yeetz-s3-kernel/src/state_kernel.rs:1340-1391 | The chain of an acknowledged head is the chain of the head that the call was shown (nothing, for a genesis), followed by exactly the submitted records. |
| `LineageTheorems.StaleTokenNeverAcked` | crates/yeetz-s3-kernel/src/state_kernel.rs:1791-1803 | A call begun with a head of a closed incarnation is never acknowledged: it never gets past the gate, whatever stands at the key. |
| `LineageTheorems.OpenChain` | crates/yeetz-s3-kernel/src/state_kernel.rs:1340-1391 | Where no empty batch was submitted, heads that landed in one open incarnation extend each other record by record. |
| `LineageTheorems.AckedAppendsNest` | crates/yeetz-s3-kernel/src/state_kernel.rs:1279-1391 | Where no empty batch was submitted, two acknowledged appends of one incarnation never fork; one generation is acknowledged to at most one call, with one head. |
| `LineageTheorems.OnlyClosedHeadsErased` | crates/yeetz-s3-kernel/src/state_kernel.rs:1112-1163 | The standing head's incarnation is never ahead of the counter, and a head is deleted (destroy's tail, a create's eviction, a closed-era retirement, or a late delivery of any of them) only when its incarnation is already closed. |
| `LineageTheorems.OpenHeadOnlyGrows` | crates/yeetz-s3-kernel/src/state_kernel.rs:1615-1674 | While an incarnation stays open and no empty batch is submitted, its standing head only ever grows into heads that extend it. |
| `LineageTheorems.EveryHeadComplete` | crates/yeetz-s3-kernel/src/state_kernel.rs:1574-1603 | Every head that ever stood, acknowledged or not, has its whole linked chain of generation + 1 records stored for as long as no empty batch is submitted. |
| `LineageTheorems.WitnessBeforeCounter` | crates/yeetz-s3-kernel/src/state_kernel.rs:1710-1784 | A counter above zero implies a standing tombstone, and a tombstone implies that a head was written. |
| `LineageTheorems.EmptyKeyDichotomy` | crates/yeetz-s3-kernel/src/terminal_read.rs:48-86 | At an empty head key a tombstone stands if and only if something was ever written there. |
| `LineageTheorems.AbsentWasTrue` | crates/yeetz-s3-kernel/src/terminal_read.rs:48-68 | An Absent answer, although made of two reads, was true at the instant of the head read: nothing written, no tombstone, counter absent. |
| `LineageTheorems.DestroyedTrueIffCreatedBefore` | crates/yeetz-s3-kernel/src/terminal_read.rs:48-86 | A Destroyed answer was true at the instant of its head read if and only if the head key had been written before that read; its tombstone is the one that stands, so a never-created lineage never reads Destroyed. |
| `LineageAnswers.AnswerMeans` | crates/yeetz-s3-kernel/src/state_kernel.rs:1112-1391 | Under any interference, every answer of every call is traced to what the call met at its own steps: Destroyed means that the last step left the key empty and, if the call had found a head, that a tombstone stands and the counter has left that head's incarnation; SeenPresent names a head that stood at a read; each refusal (conflict, malformed, incomplete, not allowed, unavailable) has its own cause, and a digest mismatch never happens. A successor whose head landed answers a conflict only once the incarnation has moved and its head no longer stands, and no other refusal; a creation that gives up after unsteady incarnations has left the key empty. |
| `LineageRuns.DestroyedAnswerNeverHeld` | crates/yeetz-s3-kernel/src/terminal_read.rs:48-68 | A run of eleven events in which Destroyed is answered although the lineage was destroyed at no instant of the run. |
| `LineageProgress.UndisturbedSuccessor` | crates/yeetz-s3-kernel/src/state_kernel.rs:1279-1391 | From any state reached without an empty batch, a valid batch or single record offered with the standing head of the open incarnation is appended and acknowledged if nobody interferes. |
| `LineageProgress.EmptyBatchBreaksHead` | crates/yeetz-s3-kernel/src/state_kernel.rs:1340-1391 | An empty successor batch is acknowledged: it publishes the expected generation once more, without a prior. Above generation 0 that head decodes for no reader and ends no complete history; at generation 0 it is the same head, acknowledged again. |
| `LineageProgress.UndecodableIsStuck` | crates/yeetz-s3-kernel/src/state_kernel.rs:473-530 | A standing head that does not decode stops appends, destroys and state reads. |
| `LineageProgress.UndisturbedGenesis` | crates/yeetz-s3-kernel/src/state_kernel.rs:1252-1266 | At an empty head key, a valid first batch creates and acknowledges the head of the current incarnation, also after a destroy. |
| `LineageProgress.UndisturbedDestroy` | crates/yeetz-s3-kernel/src/state_kernel.rs:1112-1163 | An undisturbed destroy leaves an empty key, a tombstone and the next incarnation. |
| `LineageProgress.UndisturbedAnswer` | crates/yeetz-s3-kernel/src/state_kernel.rs:1112-1391 | Every undisturbed call, a state read included, gives the one answer that the head key determines, and leaves the key as that answer says; a destroy leaves a tombstone that names the head it destroyed. |
| `LineageProgress.StaleLandingWithdrawn` | crates/yeetz-s3-kernel/src/state_kernel.rs:1791-1851 | A head that landed in a closed incarnation is withdrawn before the call goes on or answers. |
| `LineageProgress.DestroyRetries` | crates/yeetz-s3-kernel/src/state_kernel.rs:1710-1784 | A destroy that loses the race for the counter reads it again and finishes. |
| `History.LoadHistory` | crates/yeetz-s3-kernel/src/state_kernel.rs:1920-1966 | The backwards walk, while others publish: what it returns is exactly the chain that the head names, oldest first; over a complete history only a failed request can stop it; over standing objects it ends as the recursive reading of the chain does, with the same refusal. |
| `History.ReadTerminalRecord` | crates/yeetz-s3-kernel/src/terminal_read.rs:15-34 | The one record that the head names, which over a complete history is the last element of the full walk; a missing, damaged or unreachable record is refused as what it is. |
| `Folds.FoldRecords` | crates/yeetz-s3-kernel/src/state_kernel.rs:1523-1562 | Validates every record before applying any; a record that the vocabulary forbids refuses the fold wherever it stands, and otherwise the result is the meaning of the sequence or its refusal. |
| `Folds.CheckCheckpoint` | crates/yeetz-s3-kernel/src/state_kernel.rs:2050-2117 | A checkpoint is confirmed exactly when it belongs to this chain and resuming from it gives the full fold; otherwise the code of the rejection is determined: incomplete for a foreign position or a different fold, malformed for another lineage or a state that does not restore or resume. |
| `Folds.FoldChecked` | crates/yeetz-s3-kernel/src/state_kernel.rs:1523-1562 | With any checkpoint at all the state is that of the full fold: a checkpoint is judged, never used. |
| `Folds.HonestCheckpointResumes` | crates/yeetz-s3-kernel/src/state_kernel.rs:2050-2117 | A checkpoint that restores the state of its own prefix of the chain resumes to the full fold. |
| `Folds.IndexCopies` | crates/yeetz-s3-kernel/src/state_kernel.rs:898-913 | Indexes the copies by digest if and only if no digest repeats. |
| `Folds.WalkCopies` | crates/yeetz-s3-kernel/src/state_kernel.rs:915-957 | The walk over the indexed copies succeeds if and only if they hold the source's whole chain, and returns that chain. |
| `Folds.RecordsForSource` | crates/yeetz-s3-kernel/src/state_kernel.rs:882-980 | A projection yields records if and only if it is an exact copy of the chain its source names, and then yields exactly that chain. |
| `Folds.FoldWithProjection` | crates/yeetz-s3-kernel/src/state_kernel.rs:1497-1521 | With any projection at all, a result is the meaning of the chain the head names; the projection is used only when it is an exact copy of that chain; over a complete history it fails only on a request that failed or a record that is refused. |
| `Folds.FoldAtGeneration` | crates/yeetz-s3-kernel/src/state_kernel.rs:1447-1487 | The meaning of exactly the first generation + 1 records; refused past the head, and otherwise only for a failed request, a broken history or a refused record. |
| `Folds.PrefixFoldIsStable` | crates/yeetz-s3-kernel/src/state_kernel.rs:1447-1487 | A prefix fold reads the same off every later head of the same open incarnation. |
| `ValueProofs.RunKeeps` | crates/yeetz-s3-kernel/src/atomic_keyspace.rs:731-1000 | Every interleaving of whole and streamed creates and compare-exchanges, destroys and sweeps, with lost, late and crashed requests but no raw deletes, keeps the value protocol's invariant. |
| `ValueProofs.AdjudicateOk` | crates/yeetz-s3-kernel/src/value_stream.rs:1508-1540 | The oracle's three rows are sound: landed only for this call's own control; lost only when the bound generation is taken in the open era or that era is closed. |
| `ValueTheorems.ReceiptStood` | crates/yeetz-s3-kernel/src/value_stream.rs:684-837 | A receipt, answered or recovered by the oracle, names a control that this very call put at the key while the counter named its incarnation. |
| `ValueTheorems.VersionAckedOnce` | crates/yeetz-s3-kernel/src/atomic_keyspace.rs:920-1000 | A version of an incarnation is acknowledged to at most one call. |
| `ValueTheorems.AckedSucceeds` | crates/yeetz-s3-kernel/src/atomic_keyspace.rs:920-1000 | What is acknowledged carries what the caller asked to publish: version 0 for a create, exactly the next version of the expected control for a compare-exchange. |
| `ValueTheorems.TagConsumedOnce` | crates/yeetz-s3-kernel/src/atomic_keyspace.rs:920-1000 | Each entity tag authorises at most one acknowledged compare-exchange in any run without raw deletes. |
| `ValueTheorems.OpenVersionsStepByOne` | crates/yeetz-s3-kernel/src/atomic_keyspace.rs:920-1000 | While its incarnation is open, a standing control changes only into the next version of the same incarnation. |
| `ValueTheorems.StaleTagNeverAcked` | crates/yeetz-s3-kernel/src/value_stream.rs:912-950 | A tag of a destroyed incarnation never authorises an acknowledged compare-exchange, even when the same payload recurs. |
| `ValueTheorems.LandedIsOurs` | crates/yeetz-s3-kernel/src/value_stream.rs:1508-1540 | When the oracle says landed, an event of the run was this call's own control PUT, and that control still stands. |
| `ValueTheorems.OracleExact` | crates/yeetz-s3-kernel/src/value_stream.rs:1508-1540 | In every run the oracle's rows are exact: landed if and only if this call's own control stands, lost if and only if another control holds the bound generation, undecided otherwise. |
| `ValueAnswers.AnswerMeans` | crates/yeetz-s3-kernel/src/atomic_keyspace.rs:731-1000 | Under any interference, every answer of every call is traced to what the call met at its own steps: Destroyed means that the last step left the key empty and, if the call had found a control, that a tombstone stands and the counter has left that control's incarnation; each refusal has its own cause; an acknowledged chunked exchange re-read its gate after staging; an oracle verdict was reached above the floor after a lost reply. An exchange whose control landed never answers a lost precondition or a fault of its argument, and calls itself stale only once that control no longer stood; a create that withdraws itself has left the key empty. |
| `ValueAnswers.RunGenuine` | crates/yeetz-s3-kernel/src/value_stream.rs:371-434 | In every run, raw deletes included, each stored or travelling chunk is what its address says, so the integrity refusal never happens. |
| `ValueTheorems.LostConflictIsFinal` | crates/yeetz-s3-kernel/src/value_stream.rs:1508-1540 | A lost verdict is final in every later state in which the counter still names the bound incarnation: this call's control has not landed there and does not stand, whatever was delivered late. |
| `ValueRuns.LostAlthoughLanded` | crates/yeetz-s3-kernel/src/value_stream.rs:1508-1540 | Once a destroy closes the bound incarnation the lost verdict can be wrong: a run in which it is given although our manifest stood. |
| `ValueRuns.RawDeleteReusesTag` | crates/yeetz-s3-kernel/src/atomic_keyspace.rs:1072-1080 | With a raw delete, one tag is consumed by two acknowledged compare-exchanges: the run. |
| `ValueProgress.UndisturbedCreate` | crates/yeetz-s3-kernel/src/atomic_keyspace.rs:731-826 | At an empty key an undisturbed create, inline or chunked, whole or streamed, publishes and acknowledges version 0 of the current incarnation. |
| `ValueProgress.UndisturbedExchange` | crates/yeetz-s3-kernel/src/atomic_keyspace.rs:920-1000 | An undisturbed compare-exchange shown the standing control of the open incarnation publishes and acknowledges its next version. |
| `ValueProgress.UndisturbedAnswer` | crates/yeetz-s3-kernel/src/atomic_keyspace.rs:731-1000 | Every undisturbed create, exchange or destroy gives the one answer that the key, the fence and the content determine, and leaves the key as that answer says. |
| `ValueProgress.UndisturbedDestroy` | crates/yeetz-s3-kernel/src/atomic_keyspace.rs:1429-1515 | An undisturbed destroy of any standing control, inline or chunked, leaves an empty key, a tombstone that names the control, and the next incarnation. |
| `ValueProgress.LostReplyRecovered` | crates/yeetz-s3-kernel/src/value_stream.rs:1508-1540 | A manifest PUT that landed with its reply lost is recovered by the oracle and acknowledged. |
| `ValueProgress.StaleLandingWithdrawn` | crates/yeetz-s3-kernel/src/atomic_keyspace.rs:765-826 | What landed in a closed incarnation is withdrawn: a whole create tries the fresh incarnation, a streamed create or an exchange answers that its own is stale. |
| `ValueProgress.DestroyRetries` | crates/yeetz-s3-kernel/src/atomic_keyspace.rs:641-690 | A destroy that loses the race for the counter reads it again and finishes. |
| `ValueProgress.StagedAgain` | crates/yeetz-s3-kernel/src/value_stream.rs:371-434 | A chunk that was taken between its put and its verification is put again. |
| `ValueProgress.UndisturbedSweep` | crates/yeetz-s3-kernel/src/value_stream.rs:1776-1806 | A sweep of a page behind the fence removes exactly the chunks of the page that nothing standing refers to. |
| `ValueGc.StagedChunksStand` | crates/yeetz-s3-kernel/src/value_stream.rs:371-434 | In a quiesced run a writer past staging finds every one of its chunks stored as it cut them, and while it stages, every chunk it has confirmed. |
| `ValueGc.RunSafe` | crates/yeetz-s3-kernel/src/value_stream.rs:1776-1806 | If no sweep ever overlaps a writer, every run keeps all chunks that any standing, staged or in-flight manifest needs; raw deletes included. |
| `ValueGc.ManifestsComplete` | crates/yeetz-s3-kernel/src/value_stream.rs:1401-1450 | In every state of a quiesced run, a control above the trim floor names only chunks that are present with the recorded length and digest. |
| `ValueGc.StandingValueReadsBack` | crates/yeetz-s3-kernel/src/value_stream.rs:968-1000 | Reading a standing chunked value collects exactly the chunks that its writer was given, in order. |
| `ValueRuns.SweepUnderWriterLosesChunks` | crates/yeetz-s3-kernel/src/value_stream.rs:1776-1806 | Without quiescence, a run in which an acknowledged value stands above the floor and every one of its chunks is gone. |
| `Sweep.ChunkRoot.Group` | crates/yeetz-s3-kernel/src/value_stream.rs:1682-1706 | Groups a page by logical key: every object of ours exactly once under its key, every other counted unresolved. |
| `Sweep.ChunkRoot.ClassifyKey` | crates/yeetz-s3-kernel/src/value_stream.rs:1711-1763 | One control read decides a key's chunks: the referenced and the unresolved are counted, the orphans listed once each; an unreadable or corrupt control makes no orphan. |
| `Sweep.ChunkRoot.ClassifyPage` | crates/yeetz-s3-kernel/src/value_stream.rs:1682-1764 | Counts each class of the page exactly and lists exactly its orphans; refused if and only if a key composes to the reserved fence path. |
| `Sweep.ChunkRoot.SweepChunks` | crates/yeetz-s3-kernel/src/value_stream.rs:1776-1806 | Every object is judged by one page and counted once: retained if a standing control of a key above the floor names it, deleted if it is garbage and its delete was answered, remaining if that failed or it could not be resolved; only garbage is ever deleted; nothing remaining means that no garbage is left; refusals only without the fence, on a failed listing or floor read, or at a reserved path. |
| `Sweep.ChunkRoot.SweepCleanly` | crates/yeetz-s3-kernel/src/value_stream.rs:1776-1806 | With nothing failing and nothing unreadable the sweep finishes, nothing remains, and what is left is exactly what is needed. |
| `Sweep.NamedIff` | crates/yeetz-s3-kernel/src/value_stream.rs:1711-1748 | A chunk is named exactly when its path is what the control's generation and one of its digests print to. |
| `Sweep.RetiredIff` | crates/yeetz-s3-kernel/src/value_stream.rs:874-883 | Of the keys that end in a padded number, exactly those above the genesis and below the floor count as retired. |
| `Sweep.PageFacts` | crates/yeetz-s3-kernel/src/value_stream.rs:1776-1806 | Pages of any size add each object to the walk exactly once, and an unfilled page ends it. |
| `Timelines.OwnStepsLegal` | crates/yeetz-s3-streams/src/conditional.rs:529-802 | If the others keep the log's rules from the start of a call, the call itself keeps them too, and never withdraws anything. |
| `Timelines.SlotStays` | crates/yeetz-s3-kernel/src/atomic_keyspace.rs:1699-1824 | On a legal log a slot keeps its bytes for as long as no floor above it is certified. |
| `Timelines.DecodeIff` | crates/yeetz-s3-streams/src/envelope.rs:147-187 | What decodes is the very envelope that was written for this stream and position, with well-formed names. |
| `TrimmedLog.RunIsLegal` | crates/yeetz-s3-kernel/src/atomic_keyspace.rs:1595-1824 | Over whole runs of creates, trim proposals, certified sweeps, crashes among their deletes and any other traffic, a stream's timeline keeps the rules of a log. |
| `TrimmedLog.FloorNeverFalls` | crates/yeetz-s3-kernel/src/atomic_keyspace.rs:1583-1594 | Over such a run no floor of any scope ever falls. |
| `TrimmedLog.SweepIsLegal` | crates/yeetz-s3-kernel/src/atomic_keyspace.rs:1699-1824 | A whole certified sweep, taken as one step, keeps the rules of every hosted stream's log and moves no floor. |
| `TrimmedLog.ProposalIsLegal` | crates/yeetz-s3-kernel/src/atomic_keyspace.rs:1595-1643 | A trim proposal, with whatever others created meanwhile, keeps the rules of a log. |
| `TrimmedLog.DeleteLegalIff` | crates/yeetz-s3-kernel/src/atomic_keyspace.rs:1735-1824 | Deleting one log key keeps the rules of its log if and only if the stream's own floor is above it and it is not the genesis. |
| `TrimmedLog.ForeignSweepBreaksLog` | crates/yeetz-s3-kernel/src/atomic_keyspace.rs:1699-1719 | A sweep certified by one scope and given another stream's log as its data deletes what that stream retains: the key set. |
| `TrimmedLog.AdmittedIsHosted` | crates/yeetz-s3-kernel/src/atomic_keyspace.rs:575-591 | A stream whose log keys the kernel admits does not live under the mirrored roots. |
| `TrimmedLog.AgreementUnderTrims` | crates/yeetz-s3-streams/src/conditional.rs:529-802 | Two receipts for one position, each of a call that saw its own stretch of one run of creates, trims and certified sweeps, are equal and name the same event to the last byte. |
| `LineageTheorems.DecodableIff` | crates/yeetz-s3-kernel/src/state_kernel.rs:501-509 | A head decodes exactly when a well-formed record could be the one it names. |
| `LogStore.Log.Create` | crates/yeetz-s3-kernel/src/atomic_keyspace.rs:731-826 | Kernel-level put-if-absent against any interference: changes only its own slot, by putting its bytes where nothing stood or withdrawing them after the counter moved; success means that this call put them and then found the incarnation still open; already-exists that something stood; anything else that a request failed or that the counter moved and the attempts were used up. A withdrawn publication is gone when the next attempt begins. |
| `AppendExpected.ObserveFloor` | crates/yeetz-s3-streams/src/conditional.rs:843-871 | One look at the floor: the effective floor of that instant, or a refusal when it fell below one already seen. |
| `AppendExpected.VerifyPredecessor` | crates/yeetz-s3-streams/src/conditional.rs:878-966 | Passes only if the exact predecessor was verified at its position during the call; every refusal was true at some instant of it; undisturbed, the log's state determines which. |
| `AppendExpected.ProbeLater` | crates/yeetz-s3-streams/src/conditional.rs:974-1030 | A hole is reported only with a verified later event, seen after the target was absent; undisturbed, what LIST shows and what stands there determine the outcome. |
| `AppendExpected.OccupantTrue` | crates/yeetz-s3-streams/src/conditional.rs:267-287 | The judgement of a foreign occupant (corrupt, own id with other bytes, other event) is true of the instant it was read. |
| `AppendExpected.AdjudicateCommitted` | crates/yeetz-s3-streams/src/conditional.rs:1039-1062 | Bytes known to have stood give a receipt only after a floor look that does not retire the slot, and otherwise an error that still carries the committed receipt. |
| `AppendExpected.Prepare` | crates/yeetz-s3-streams/src/conditional.rs:582-704 | Before the create nothing is written; it settles the call truthfully, or clears it: target absent, predecessor verified, floor looked at again. |
| `AppendExpected.Readback` | crates/yeetz-s3-streams/src/conditional.rs:728-802 | After an unresolved create certainty never drops below possibly committed, and rises to committed only on the exact bytes. |
| `AppendExpected.Append` | crates/yeetz-s3-streams/src/conditional.rs:529-802 | Under any interference: only the desired bytes, only at predecessor + 1; NotAttempted means that nothing was asked of the store; a create is issued, or an effect left possible, only for a cleared demand; Committed and Ok mean that the canonical envelope stood there during the call; every typed failure was true at some instant; unavailability, refusal and disqualification are answered only if a request failed, one was refused, or the floor fell or LIST showed what was not there; bad arguments touch nothing; and an undisturbed call gives the one answer that the log's state determines. |
| `AppendExpected.SupportedIsTaken` | crates/yeetz-s3-streams/src/conditional.rs:529-802 | On a log that supports the demand that answer is the receipt, whether the event stands already or not. |
| `AppendExpected.AdmittedDecodes` | crates/yeetz-s3-streams/src/conditional.rs:529-582 | An admitted demand will decode where it is to be written, within the size bound, at a representable position. |
| `AppendExpected.RefusedDemand` | crates/yeetz-s3-streams/src/conditional.rs:529-582 | A demand is never refused at admission for a predecessor that some log could show. |
| `AppendExpected.SameSlotAgreement` | crates/yeetz-s3-streams/src/conditional.rs:529-802 | On a legal log any two receipts for one position are equal and name the same event to the last byte, however calls, trims and sweeps interleave. |
| `AppendExpected.VerdictShared` | crates/yeetz-s3-streams/src/conditional.rs:529-802 | A receipt's verdict holds on every timeline that contains the moments of its call, whoever made them, so the verdicts of concurrent calls meet on one. |
| `AppendExpected.PredecessorStood` | crates/yeetz-s3-streams/src/conditional.rs:878-966 | Whenever a create was issued on a legal log, predecessor and retention held together at one instant of the call. |
| `AppendExpected.ReceiptDelivered` | crates/yeetz-s3-streams/src/conditional.rs:529-802 | What a receipt, or the committed effect of an error, names field by field: the demanded id, schema and payload, at the position after the predecessor, stood in the log during the call. |
| `AppendExpected.CreationConfigured` | crates/yeetz-s3-streams/src/conditional.rs:336-433 | Created and Existing both mean that a verified genesis carrying exactly the requested configuration stood during the call. |
| `AppendExpected.CreateStreamWithId` | crates/yeetz-s3-streams/src/conditional.rs:336-433 | Writes only seq 0; Created means that this very call put the canonical genesis where nothing stood, Existing that it stood, a configuration conflict that a different valid event did; every other refusal has its cause; inadmissible input, an oversized genesis and a reserved or fenced key touch nothing; undisturbed, seq 0 determines the answer. |
| `AppendExpected.CreationAdmittedIff` | crates/yeetz-s3-streams/src/conditional.rs:336-356 | A creation is admitted exactly when its genesis will decode, fits, and has a key that is the caller's to write. |
| `Bounded.StrictFetch` | crates/yeetz-s3-streams/src/bounded.rs:311-331 | One verified event, the whole envelope as it stood, a confirmed hole, or a typed failure, true at the instant of the read; a store failure only if the request failed; undisturbed, the slot determines which. |
| `Bounded.ReadPage` | crates/yeetz-s3-streams/src/bounded.rs:243-297 | Exactly the envelopes of seqs after + 1 to the page end, chunk by chunk up to the largest u64, or the lowest demanded problem. |
| `Bounded.ReadRange` | crates/yeetz-s3-streams/src/bounded.rs:209-298 | A page is exactly the demanded seqs, each envelope seen verified during the call, and says correctly whether it ends the window; errors name the lowest demanded problem, or a request failed; nothing is ever written; an undisturbed read succeeds if and only if the window is complete, and otherwise gives the one refusal that the log's state determines. |
| `Bounded.OneRefusal` | crates/yeetz-s3-streams/src/bounded.rs:209-298 | One state of the log has at most one refusal of a read. |
| `Bounded.ReadAll` | crates/yeetz-s3-streams/src/bounded.rs:171-177 | Resuming at the last seq with any positive limits terminates and concatenates to the whole window without gap or repetition, writes nothing, and undisturbed answers as one read of the whole window. |
| `Bounded.SameSeqSameEvent` | crates/yeetz-s3-streams/src/bounded.rs:311-331 | On a legal log two reads of one retained seq return the same envelope. |
| `Bounded.WindowsAgree` | crates/yeetz-s3-streams/src/bounded.rs:171-177 | On a legal log whose floor has not passed the start of the range, any two windows of one range are equal event by event, however they were paged and whenever they were read. |
| `Bounded.AppendThenRead` | crates/yeetz-s3-streams/src/conditional.rs:529-802 | Read your writes: after an undisturbed append that gives a receipt, reading the one position after the predecessor returns exactly the demanded event. |
| `Bounded.PagedThenOneShot` | crates/yeetz-s3-streams/src/bounded.rs:171-177 | A resumed walk under any positive limits and a one-shot read of the same window return the same page, if the log was legal and the floor has not passed the start; undisturbed they give the same answer, refusals included. |
| `ChunkReader.ChunkSlice` | crates/yeetz-s3-kernel/src/value_stream.rs:1153-1252 | A slice of a chunk is the slice of the value at the chunk's fixed base. |
| `ChunkReader.FetchedChunksMeetWindow` | crates/yeetz-s3-kernel/src/value_stream.rs:1234-1249 | The fetched ordinals are exactly those of the chunks that meet the window. |
| `ChunkReader.OpenWindow` | crates/yeetz-s3-kernel/src/value_stream.rs:1217-1249 | A window opens exactly when it lies within the value. |
| `ChunkReader.Reader.PollRead` | crates/yeetz-s3-kernel/src/value_stream.rs:243-322 | For every window, buffer size and completion order the outcome of a poll is determined; only the next bytes of the value are yielded, as many as buffer, chunk and window allow, at most four fetches are in flight, a wait always has a fetch under way, an error is reported exactly when a fetch comes in unverified before the needed chunk does; the end is signalled early if and only if the needed chunk was lost to an error already reported and everything still fetched comes in verified; before any error, exactly at the end. |
| `ChunkReader.AllInIff` | crates/yeetz-s3-kernel/src/value_stream.rs:265-322 | Of a lost chunk's poll: it finds nothing left to wait for if and only if every fetch in flight arrives and verifies. |
| `ChunkReader.FailsThenEnds` | crates/yeetz-s3-kernel/src/value_stream.rs:243-322 | A reader of any one-chunk window whose fetch fails reports the error, and on the next poll the end, with nothing yielded. |
| `ChunkReader.InlineReader.PollRead` | crates/yeetz-s3-kernel/src/value_stream.rs:220-233 | The inline reader yields the window in order and ends exactly at its end. |
| `ChunkWriter.PiecesAppend` | crates/yeetz-s3-kernel/src/value_stream.rs:1401-1450 | Cutting into chunks commutes with appending at a chunk boundary. |
| `ChunkWriter.StagedIsCanonical` | crates/yeetz-s3-kernel/src/value_stream.rs:561-611 | The manifest of any value of more than one chunk is canonical; the 65,536-chunk ceiling follows from the 1 TiB bound. |
| `ChunkWriter.StageChunks` | crates/yeetz-s3-kernel/src/value_stream.rs:1401-1450 | If and only if every upload succeeds, a manifest of the asked generation whose entries carry the lengths and digests of the value's consecutive 16 MiB slices, all of them. |
| `ChunkWriter.Writer.PollWrite` | crates/yeetz-s3-kernel/src/value_stream.rs:437-489 | Accepts a prefix of the buffer: all of it unless four uploads are then in flight, nothing on an error or while pending; with four in flight, the first completion decides whether it accepts, waits or fails; what was uploaded stays exactly the whole pieces of what was accepted. |
| `ChunkWriter.Writer.Seal` | crates/yeetz-s3-kernel/src/value_stream.rs:561-611 | However the input was sliced, the sealed manifest carries the lengths and digests of the 16 MiB slices of the concatenated bytes, is the one whole-value staging builds, and is accepted by the decoder; it seals if and only if every upload in flight and the tail's succeed and there is more than one chunk. |
| `ChunkWriter.VerifiedReadsBack` | crates/yeetz-s3-kernel/src/value_stream.rs:1153-1252 | Chunks that verify against the entries of such a manifest concatenate to the very bytes written, unless the hash collides. |
| `ManifestCodec.Encode` | crates/yeetz-s3-kernel/src/value_manifest.rs:149-166 | Writes the canonical form byte by byte. |
| `ManifestCodec.SerializeInjective` | crates/yeetz-s3-kernel/src/value_manifest.rs:149-166 | Different manifests have different encodings. |
| `ManifestCodec.GateIff` | crates/yeetz-s3-kernel/src/value_manifest.rs:173-265 | The decoder's checks short of the root accept exactly the encodings of well-shaped manifests. |
| `ManifestCodec.ShapedIff` | crates/yeetz-s3-kernel/src/value_manifest.rs:226-265 | The canonical lengths are exactly those of the consecutive 16 MiB slices of the recorded length. |
| `ManifestCodec.ReadEntries` | crates/yeetz-s3-kernel/src/value_manifest.rs:226-251 | The table walk accepts exactly the canonical lengths, and its sum is the table's total. |
| `ManifestCodec.Decode` | crates/yeetz-s3-kernel/src/value_manifest.rs:173-275 | Accepts exactly the encodings of canonical manifests, tells a wrong root and an impossible chunk count from every other damage, and never accepts more than 2^40 bytes; that bound follows from the table. |
| `ManifestCodec.RootCommits` | crates/yeetz-s3-kernel/src/value_manifest.rs:129-143 | Equal roots mean the same length, chunk size and table, entry by entry, unless the hash collides. |
| `ManifestCodec.DecodeTampered` | crates/yeetz-s3-kernel/src/value_manifest.rs:129-265 | A table exchanged under its root, with lengths as plausible as can be, is refused as a wrong root, unless the hash collides. |
| `ManifestCodec.RoundTrip` | crates/yeetz-s3-kernel/src/value_manifest.rs:149-275 | A canonical manifest decodes to itself and fits within 4 MiB. |
| `ManifestCodec.Reencode` | crates/yeetz-s3-kernel/src/value_manifest.rs:149-275 | Accepted bytes re-encode to themselves. |
| `ChunkPath.ParsePrint` | crates/yeetz-s3-kernel/src/value_manifest.rs:284-344 | Every printed chunk path parses back to its five fields, although namespaces may contain slashes. |
| `ChunkPath.PrintParse` | crates/yeetz-s3-kernel/src/value_manifest.rs:318-344 | Every accepted path is the print of what it parsed to. |
| `ChunkPath.PathLength` | crates/yeetz-s3-kernel/src/value_manifest.rs:276-299 | A path is at most 892 bytes. |
| `Keys.PrefixBlock` | crates/yeetz-s3-kernel/src/atomic_keyspace.rs:1653-1677 | Keys with a common prefix lie together in byte order. |
| `Keys.ValidBySegments` | crates/yeetz-s3-kernel/src/atomic_keyspace.rs:482-503 | The identifier rule checked character by character is the rule on slash-separated segments: each non-empty, starting with a letter or digit, at most 255 bytes in all. |
| `Keys.SeqOrder` | crates/yeetz-s3-kernel/src/atomic_keyspace.rs:1558-1568 | Zero-padded seq keys sort as their numbers. |
| `Listing.WalkAll` | crates/yeetz-s3-kernel/src/atomic_keyspace.rs:1032-1068 | Over a stable key set, walking page by page from the last returned key, at any page size, meets every key exactly once, in order: the one page that a large enough limit gives. |
| `Listing.WalkChanging` | crates/yeetz-s3-kernel/src/atomic_keyspace.rs:1032-1068 | Over a changing key set the cursor is weakly consistent: keys come in strictly ascending order, each stood at one of the reads, and none that stood at all of them is missed. |
| `Trim.Keyspace.TrimFloor` | crates/yeetz-s3-kernel/src/atomic_keyspace.rs:1648-1687 | Terminates with the greatest certificate for any key set and page size, stepping over sibling keys. |
| `Trim.Keyspace.ProposeTrim` | crates/yeetz-s3-kernel/src/atomic_keyspace.rs:1595-1643 | Adds at most the one certificate; refused if and only if a higher certificate stands; the reported floor is the effective one and not below the proposal; advanced exactly when the effective floor is the proposal's and was not before; unresolved only if its put was not answered. |
| `Trim.Keyspace.Walk` | crates/yeetz-s3-kernel/src/atomic_keyspace.rs:1720-1751 | Collects exactly the seq-shaped keys from seq 1 to below the boundary that lie before the first stray key, at any page size. |
| `Trim.Keyspace.DeleteBelow` | crates/yeetz-s3-kernel/src/atomic_keyspace.rs:1699-1824 | Refused unless a certificate covers the boundary; otherwise exactly the doomed keys of the three ranges are asked to go, those go whose request took effect, and the report counts each by its answer. |
| `Trim.SweptSeqs` | crates/yeetz-s3-kernel/src/atomic_keyspace.rs:1735-1746 | Neither seq 0 nor a seq at or above the boundary is ever swept. |
| `Trim.AdmissibleIsNoCertificate` | crates/yeetz-s3-kernel/src/atomic_keyspace.rs:575-591 | No key that the kernel admits from a caller is a certificate, a tombstone or a counter. |
| `Trim.SweptCertificateIff` | crates/yeetz-s3-kernel/src/atomic_keyspace.rs:1699-1719 | A swept key is a certificate if and only if the data prefix ends in the reserved trims segment. |
| `Trim.SweepKeepsFloors` | crates/yeetz-s3-kernel/src/atomic_keyspace.rs:1699-1824 | With any other data prefix a sweep moves no floor of any scope. |
| `Trim.SweepOfCertificatesLowersFloor` | crates/yeetz-s3-kernel/src/atomic_keyspace.rs:1699-1719 | With such a data prefix, a sweep certified by one scope lowers another scope's floor: the key set. |
| `Trim.ShapedRangeIsEmptied` | crates/yeetz-s3-kernel/src/atomic_keyspace.rs:1720-1751 | When the data prefix holds only seq-shaped keys, everything in range is swept. |
| `Trim.StrayKeyHidesRest` | crates/yeetz-s3-kernel/src/atomic_keyspace.rs:1731-1734 | One other key in the range hides what lies behind it. |
| `DeleteObjects.Admit` | crates/yeetz-s3-kernel/src/atomic_keyspace.rs:1247-1284 | The first fault by input index (too many, inadmissible, duplicate), or none. |
| `DeleteObjects.Reconcile` | crates/yeetz-s3-kernel/src/atomic_keyspace.rs:1338-1364 | A response is taken as a whole exactly when it holds one member for each key of its chunk; each label is exactly what the members say that were taken before the first that does not fit. |
| `DeleteObjects.Delete` | crates/yeetz-s3-kernel/src/atomic_keyspace.rs:1288-1418 | One outcome per key in input order, each label determined: reconciled chunks, then at most one stopped chunk, then a uniform tail that was never sent. |
| `DeleteObjects.Call` | crates/yeetz-s3-kernel/src/atomic_keyspace.rs:1247-1418 | For every input: the first admission fault and no request, or the full accounting. |
| `DeleteObjects.RejectedByRefusedResponse` | crates/yeetz-s3-kernel/src/atomic_keyspace.rs:1313-1364 | A key keeps the label Rejected although the response that said so was refused as a whole. |
| `DeleteObjects.ConfirmedIff` | crates/yeetz-s3-kernel/src/atomic_keyspace.rs:1338-1378 | Confirmed exactly where the bijective response of the key's own chunk confirmed it. |
| `DeleteObjects.UniformTail` | crates/yeetz-s3-kernel/src/atomic_keyspace.rs:1313-1336 | What was never sent carries one and the same label; what was sent is never NotAttempted. |

## Left out

- HTTP, TLS, the SDK client, `async` and wakers: a request is one atomic step, and its fate an input.
- JSON, base64, hex and SHA-256 internals, and the byte form of inline value envelopes and of record and head objects.
- Liveness under interference: exhausted retries are error results. A lost reply and a reply without an entity tag are one case.
- Error enrichment: the extra reads that fill in conflict details, and provider diagnostics text.
- Tombstone cause, actor and timestamp.
- Legacy v1 heads, and protocol epochs: a record of another epoch is one that does not decode.
- `read_state` of values and `chunk_inventory`: the first is the lineage taxonomy over again, the second a sweep without deletes.
- The fence's own epochs: setting and releasing it is an input of the value system.
- Several keys in one value run: calls on different keys share only the fence and the floor; `Sweep` covers many keys.
- Counter removal by a trim sweep: the era theorems are about keys above the floor.
- Cross-namespace overlap of physical keys, migration and live replay, tail hints and cursors.
- How many chunk uploads of one staging call are in flight in `Values`: any order of the chunk requests is allowed there.
- Collisions of the 128 random bits that name a commit: each attempt has its own name.
- Bounded.ReadRange: does not state that no GET goes beyond the page, because requests that change nothing are not recorded.
- ChunkReader.Reader.PollRead: bounds the fetches in flight, not the arrived chunks waiting out of order, as the code does.
- DeleteObjects.Call: accounts for the labels; the removal of the objects itself is the store's.
- Trim.Keyspace.DeleteBelow: the key set is stable during one call but for its own deletes; `ProposeTrim` lets others add keys.
- History.LoadHistory: record objects are only added during a walk, as nothing ever deletes them.

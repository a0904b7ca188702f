# Kapsaro core, modelled and proved

Kapsaro keeps a team's secrets encrypted in Git. This project models the parts of `kapsaro-core` where
branching, state and arithmetic meet, and proves what each of them is for. `dafny verify dfyconfig.toml`
checks all of it.

## What is modelled

- **Read authorization** (`ReadReview`, `ReadRuns`, `ReadLoop`). A read begins, may return a review, and is
  resumed; artifact and trust state may be replaced between any two steps. `ReadReview` is one evaluation,
  `ReadRuns` every run of any number of interleaved reads, `ReadLoop` the command's review loop while other
  commands approve keys or replace the artifact beside it, with its termination measure.
- **Envelopes** (`Wire`, `Primitives`, `Envelope`, `FileEnvelope`, `KvEnvelope` and their proofs, `BindingProofs`,
  `ErrorProofs`, `SchemaProofs`).
  From content and verified members to a stored document, and from a document and a local key back to the content,
  through format validation, base64, wrap lookup, key selection, HPKE, key schedule and proof of possession. For
  sound documents each theorem says who recovers the content and who does not, as one equation; for any document
  whatever, what a decryption that succeeds has checked. `BindingProofs` is what wraps, keys and ciphertexts are bound to,
  `ErrorProofs` which error is reported, `SchemaProofs` what the loaders ask of each field.
- **Rewrap** (`Recipients`, `RewrapPlan`, `RewrapSteps`, `RewrapFile`, `RewrapKv`, `RewrapKvText`, and documents that
  show something: `Witnesses`, `RewrapFileWitness`, `RewrapKvWitness`). The plan, the helpers and both
  executors, which change their document in place, step by step; the invariant every step keeps; and the exact
  condition under which a whole rewrap succeeds, the reload of re-encrypted text included.
- **Codecs and key ids** (`Bits`, `Codec`, `Kid` and their proofs). Base64 in both alphabets, in place, against
  RFC 4648's own definition; Crockford base 32; normalization, display and prefix resolution of key ids.
- **Local state warnings** (`Warnings`, `WarningRuns`). The bounded, deduplicating sink, the thread that carries it,
  nested captures, and what a reported count says about all that was recorded.
- **Removal history** (`Disclosure`, `DisclosureRuns`). The in-place list updates and their meaning for each key id
  over any sequence of adds and merges.
- **Documents as text** (`JsonText`, `WireText`, `PartText`, `KvText`, `KvContent`, `FileText` and their proofs, `Reading`).
  The tokens and files documents are written to, measured exactly, and the checks a text passes before it is a
  document again: how long a value, how many recipients and how many removal records can be read back. `KvContent`
  splits the text into lines and tokens again, `Reading` reads the documents back from their JSON by member name.
- **Text at the boundary** (`JsonLimits`, `JsonGrammar`, `JsonProofs`, `Display`, `Shell`). The JSON limit scan against the
  RFC 8259 grammar with every choice of white space and escapes; the truncating sanitizer; POSIX quoting
  against a POSIX tokenizer.

`Wrappers`, `Seqs`, `Numbers`, `Limits`, `Handles` and `Ordering` are shared.

## How to read it

Where the source changes something in place, the model is a class or a method with a loop, proved against a
function of the old state; the promises are lemmas about that function. Where the source is expressions, so is
the model.

Cryptographic primitives, text formats and hash-map iteration are values (`Suite`, `Texts`, `Entropy`) handed to
every operation. Of the primitives it is asked only that opening undoes sealing under the same context, with the
fixed sizes (`Ideal`); `Primitives.IdealIsSatisfiable` shows that this can be met together with the real text
formats. `Directory` says which public key is behind a key id. Random draws are numbered, so two draws
may or may not be equal; what is shown is that no two things share a draw. Where a statement needs a tag, a key derivation
or a cipher to tell two inputs apart, it says so of just these inputs. A key-value rewrap is given its loader and the condition under which a re-encrypted document
loads (`Job.load`, `Job.fits`) with the contract `KnowsWhatLoads`; `RewrapKvText` shows that the loader of `KvText` and its
exact condition meet it.

A document is *sound* when every stored wrap opens to its master key and its payload or entries are the content
under that key. Encryption makes sound documents, every rewrap keeps them sound, and decryption of a sound
document is decided by whom it names.

## What the proofs turned up

- A key-value rotation that removes nobody drops the removal history, although
  `guides/security_design_en.md:1078` calls it an auditable trail and a file rotation keeps it. It also gives the
  document a new id and creation date. `RewrapKvWitness.RotationForgetsTheHistory` shows that the loss is reachable,
  `RewrapKv.ForgetsNobodyExactly` the exact condition, `RewrapFileProofs.HistoryIsKept` the contrast.
- Removals precede additions, so a rewrap that replaces every current recipient is refused with "nobody would
  remain", although the targets are not empty. `RewrapSteps.SomebodyStaysExactly` gives the exact condition.
- An operator may rewrap a file to targets that do not include the operator. A key-value document is reloaded after
  re-encryption, so there the operator must be a target with a key at hand; without re-encryption not.
  `RewrapFile.RewrapFileDocument` and `RewrapKv.RewrapKvDocument` state both exactly.
- `encrypt_file_content` accepts content longer than the plaintext limit, which then never decrypts; the limit is
  enforced on the operator's input elsewhere. `FileEnvelopeProofs.RecipientsRecoverExactly` states the boundary.
- Of two members given under one handle only the first is used; a holder of the second's key is not a recipient.
- After an exact batch of warnings is given back, the count stays exact, under one new finding and under everything
  that may follow, if and only if the batch's count was 0 or 64: `WarningRuns.RestoredCountIsExactExactly`,
  `WarningRuns.RestoredFutureIsExactExactly`. In runs that give back only such batches all counts are exact
  (`WarningRuns.CountsAreExactInHarmlessRuns`); in every run they are sound floors (`WarningRuns.EveryRunIsTruthful`).
- A removal re-encrypts a key-value document with every entry flagged and loads the text again. The flag costs 17
  characters, so a value of 589757 to 589769 bytes can be stored and read, and from then on no recipient can be
  removed: `KvTextProofs.ValueFitsExactly`, `RewrapKvText.LongValueBlocksRemoval`, and for a document of one such
  value, which loads, `RewrapKvWitness.RemovalIsPossibleExactly`.
- The removal history is not bounded, and shares the element budget with the wraps. With n recipients a key-value
  document carries at most (12996 - 11n) / 7 records, 285 beside 1000 recipients. A rewrap that only adds recipients does
  not load what it wrote. For every n below 1000 a document with so many records loads, and after one more recipient
  is added nobody reads it again: `RewrapKvWitness.AdditionOutgrowsBudget`, and for files, which also count the signer's
  public key, `RewrapFileWitness.AdditionOutgrowsBudget`. The exact conditions, on what the rewrap is given, are
  `RewrapKvText.FinalLoadsExactly` and `RewrapFileProofs.FinalLoadsExactly`.
- Without a history nothing of the kind happens: up to 1000 recipients and any content within the plaintext limit are
  written to a file that loads (`FileTextProofs.EncryptedFileLoads`).
- What `crates/kapsaro-core/src/support/limits.rs:125` calls JSON elements (objects, arrays and values) is counted as containers, colons and
  commas outside strings; the budget per wrap item is right for that count.
- Re-encryption of a key-value document also needs every value to be valid UTF-8.

## Model

| member | source | states |
|---|---|---|
| ReadReview.PendingReview.Accept | crates/kapsaro-core/src/service/read.rs:594-616 | Accepting in place: one acceptance, bound to the review's id, digest, operation and named signer; a second attempt, or a review that names no signer, is refused and leaves the review as it was |
| ReadReview.PassesAgree | crates/kapsaro-core/src/service/trust/core.rs:1060-1077 | Under one trust state the granting pass asks for exactly the keys the preflight asked for |
| ReadReview.NeverWithoutOutcome | crates/kapsaro-core/src/service/read.rs:740-764 | No evaluation by one evaluator ends in the internal error of having neither a capability nor a review, whatever the trust state and the acceptances |
| ReadReview.ReviewIsRaisedBy | crates/kapsaro-core/src/service/read.rs:766-793 | Every review asks exactly one question; it names a signer only if the run may use exceptions and the evaluator reports that signer as a non-member; a flag raised to true always comes with an acceptance that was just validated |
| ReadReview.CapabilityIsJustified | crates/kapsaro-core/src/service/read.rs:385-426 | A capability carries the bound digest and operation; a non-member signer is passed over if and only if an acceptance for this binding names exactly that signer, never for `Environment`; with reviews required no key is left unapproved. Holds even if the second pass judged another trust state |
| ReadReview.EvaluationIsVerdict | crates/kapsaro-core/src/service/read.rs:385-426 | One evaluation is the decision table written in one pass: which refusal, review or grant comes first, the binding failure included, which keys are asked for and in which order, and which unresolved ids are reported |
| ReadReview.PushedInOrder | crates/kapsaro-core/src/service/trust/core.rs:1060-1077 | Keys are asked for once each, in the order they are first met, the signer's own first |
| ReadReview.LoadsExactly | crates/kapsaro-core/src/service/read.rs:296-323 | A step loads exactly the artifact of its source, under the operation of its kind |
| ReadReview.ResumesOnlyItsArtifact | crates/kapsaro-core/src/service/read.rs:618-624 | A resume over an artifact with another digest than the reviewed one is refused as a changed target, whatever the acceptance and the trust state |
| ReadReview.AcceptedOnce | crates/kapsaro-core/src/service/read.rs:594-616 | A review gives one acceptance, and says why it gives no other |
| ReadRuns.EveryRunKeeps | crates/kapsaro-core/src/service/read.rs:269-426 | The invariant of every reachable world, with any number of reads in flight, the artifact replaced between steps and the trust state even between the two passes of one step: fresh ids, at most one acceptance and one capability per run, reviews bound to what their run began with |
| ReadRuns.CapabilitiesAreSafe | crates/kapsaro-core/src/service/read.rs:269-426 | In every run a capability is issued at most once, only for the digest and operation fixed at begin, which is also the digest of the artifact loaded in that very step, and past a non-member signer only after a review of that same run minted an acceptance naming exactly that signer |
| ReadRuns.ReplacedArtifactEndsTheRead | crates/kapsaro-core/src/service/read.rs:354-381 | In any world, resuming over a replaced artifact issues nothing, and the review is gone |
| ReadRuns.AcceptancesAreOneShot | crates/kapsaro-core/src/service/read.rs:668-727 | A run uses at most one acceptance, and only one minted earlier by a review of the same run |
| ReadRuns.NoExceptionWithoutPermission | crates/kapsaro-core/src/service/read.rs:326-352 | A run begun without the permission, and every `Environment` run, never mints an acceptance, never has a review that allows one, and is never granted past a non-member signer |
| ReadRuns.ReviewsAskOneQuestion | crates/kapsaro-core/src/service/read.rs:740-793 | In every reachable world each open review asks for one signer or for at least one key, never both and never neither |
| ReadLoop.ReviewPendingRequest | src/cli/common/read_session.rs:167-180 | The one question is answered or refused: a named signer gives an acceptance of that signer, otherwise the first requested key is approved; the "no next key" branch is never taken |
| ReadLoop.AuthorizeReadDecision | src/cli/common/read_session.rs:140-164 | The loop ends: granted if every review is confirmed and the artifact stays what it was, with every key in need of approval approved, after at most (unapproved keys + 1) reviews; its only other endings are the refusal of the person asked and, exactly when the artifact was replaced, a changed target |
| ReadLoop.AuthorizeRead | src/cli/common/read_session.rs:140-164 | A whole read command from begin to end while others approve keys and replace the artifact beside it: capability for this artifact and operation, a non-member refusal exactly where exceptions may not be used, a refused review, or a changed target; a non-member signer is never passed over unasked |
| ReadLoop.BeginIsSound | crates/kapsaro-core/src/service/read.rs:270-293 | The first decision over a growing store: refused if and only if the signer is a non-member and exceptions may not be used, otherwise a sound grant or a review within the measure |
| ReadLoop.ResumeIsSound | crates/kapsaro-core/src/service/read.rs:296-323 | An answered review resumes to a grant or to a review with a strictly smaller measure (signer pending, unapproved keys) while the artifact is intact, and to a changed target once it was replaced |
| ReadLoop.ReplacedIsRefused | crates/kapsaro-core/src/service/read.rs:354-381 | In the command's loop, too, a replaced artifact ends the read as a changed target |
| ReadLoop.ApprovalShrinks | src/cli/common/read_session.rs:176-179 | Approving a requested key makes the set of unapproved keys strictly smaller, whatever else was approved meanwhile |
| Codec.FillEncoded | crates/kapsaro-core/src/format/codec.rs:53-72 | The in-place encoder, block by block and then the tail, fills a buffer of exactly the computed length with the specified text |
| Codec.Encode | crates/kapsaro-core/src/format/codec.rs:32-51 | Encoding allocates the computed length and returns the specified text |
| Codec.EncodeFullBlock | crates/kapsaro-core/src/format/codec.rs:74-82 | One block of three bytes is written at its index and nothing after it changes |
| Codec.EncodeTail | crates/kapsaro-core/src/format/codec.rs:84-95 | The last one or two bytes are written unpadded and the buffer is then full |
| Codec.DecodeFullBlock | crates/kapsaro-core/src/format/codec.rs:279-293 | One block of four symbols is written at its index, or the foreign symbol is reported |
| Codec.DecodeLast | crates/kapsaro-core/src/format/codec.rs:295-334 | The last two or three symbols are written; unused low bits must be zero and a lone symbol is refused |
| Codec.DecodeBlocks | crates/kapsaro-core/src/format/codec.rs:255-270 | The block loop writes what the whole blocks decode to or stops with the first error of the whole payload |
| Codec.DecodeInto | crates/kapsaro-core/src/format/codec.rs:255-277 | Every write stays inside a buffer of the length computed from the payload, which ends up holding what the payload decodes to |
| Codec.DecodeBase64Url | crates/kapsaro-core/src/format/codec.rs:97-110 | The URL-safe decoder, validation first, agrees with the specified decoding in value and error |
| Codec.ValidateStandardCharSet | crates/kapsaro-core/src/format/codec.rs:188-221 | One walk from left to right finds where padding starts and how long it is, and refuses foreign symbols and payload after padding |
| Codec.DecodeBase64Standard | crates/kapsaro-core/src/format/codec.rs:112-130 | The standard decoder agrees with the specified decoding in value and error |
| CodecProofs.DecodedEncoded | crates/kapsaro-core/src/format/codec.rs:53-95 | Decoding undoes encoding, for every byte string and both alphabets |
| CodecProofs.EncodedDecoded | crates/kapsaro-core/src/format/codec.rs:295-334 | Encoding undoes decoding: whatever decodes is the one canonical text of what it decodes to |
| CodecProofs.UrlIsBijective | crates/kapsaro-core/src/format/codec.rs:97-110 | A text decodes to a byte string if and only if it is its base64url encoding (RFC 4648 section 5, canonical per section 3.5) |
| CodecProofs.ArrayIsBijective | crates/kapsaro-core/src/format/codec.rs:97-110 | A field of a fixed size accepts exactly the encodings of byte strings of that size |
| CodecProofs.PaddingShapeIsForced | crates/kapsaro-core/src/format/codec.rs:228-253 | A payload remainder admits no padding or exactly one other length of it |
| CodecProofs.StandardAcceptsExactly | crates/kapsaro-core/src/format/codec.rs:112-130 | The standard decoder accepts exactly two texts for a byte string: unpadded, and padded as RFC 4648 section 4 prescribes |
| CodecProofs.EncodedIsRfc | crates/kapsaro-core/src/format/codec.rs:53-95 | Symbol k of an encoding is the character that the table of RFC 4648, written out for each alphabet, has at bits 6k to 6k+5 of the input, zero bits standing in past its end |
| CodecProofs.SymbolIsRfc | crates/kapsaro-core/src/format/codec.rs:12-15 | Each symbol is the character at its index in the alphabet of RFC 4648 written out, sections 4 and 5 |
| CodecProofs.DecodesExactly | crates/kapsaro-core/src/format/codec.rs:279-293 | A character decodes if and only if the written-out alphabet holds it |
| CodecProofs.UrlErrors | crates/kapsaro-core/src/format/codec.rs:97-110 | Which error a refused text gets: a lone last symbol is a wrong length, everything else a wrong character |
| CodecProofs.ArrayErrors | crates/kapsaro-core/src/format/codec.rs:97-110 | A field of another size, and a ciphertext past its limit, are each reported by their own error, exactly then |
| CodecProofs.StandardErrors | crates/kapsaro-core/src/format/codec.rs:188-253 | Which error a refused standard text gets: the layout of its padding is a wrong length, everything else a wrong character |
| Kid.EncodeCrockford | crates/kapsaro-core/src/format/kid.rs:20-41 | The nested bit loop writes, for each group, the symbol of its five bits |
| Kid.FormatKidDisplay | crates/kapsaro-core/src/support/kid.rs:87-99 | The display loop joins groups of four with dashes, or passes on the normalization error |
| KidProofs.CrockfordIsBase32 | crates/kapsaro-core/src/format/kid.rs:20-41 | On whole groups the bit loop writes the base-32 digits of the big-endian value of its input |
| KidProofs.CrockfordInjective | crates/kapsaro-core/src/format/kid.rs:20-41 | Two inputs of one length, a multiple of five, never share a spelling |
| KidProofs.DerivedKidIsCanonical | crates/kapsaro-core/src/format/kid.rs:14-18 | Every 20-byte digest prefix spells a 32-character id that stored documents may carry |
| KidProofs.FromCanonicalExactly | crates/kapsaro-core/src/model/identity.rs:115-122 | A stored id is accepted exactly when it is 32 canonical characters, and kept as it is |
| KidProofs.NormalizeIdempotent | crates/kapsaro-core/src/support/kid.rs:26-49 | Normalizing twice is normalizing once |
| KidProofs.DisplayRoundTrip | crates/kapsaro-core/src/support/kid.rs:87-99 | The dashed form has 39 characters and normalizes back to the id it displays |
| KidProofs.ResolvesExactly | crates/kapsaro-core/src/support/kid.rs:52-84 | Resolution succeeds with r if and only if exactly one candidate position starts with the normalized query, and that candidate is r |
| KidProofs.FullKidResolves | crates/kapsaro-core/src/support/kid.rs:52-84 | Among distinct canonical candidates each full id resolves to itself |
| KidProofs.LongerPrefixResolves | crates/kapsaro-core/src/support/kid.rs:52-84 | Lengthening a prefix that resolved to r still resolves to r |
| KidProofs.CrockfordExactly | crates/kapsaro-core/src/support/kid.rs:135-140 | The accepted characters are Crockford's 32, written out |
| KidProofs.CaseDoesNotMatter | crates/kapsaro-core/src/support/kid.rs:26-49 | A query in lower case normalizes as in upper case |
| KidProofs.DashesDoNotMatter | crates/kapsaro-core/src/support/kid.rs:26-49 | A dash anywhere in a query changes nothing |
| KidProofs.QueryExactly | crates/kapsaro-core/src/support/kid.rs:26-49 | A query is accepted exactly when, dashes aside, it has 1 to 32 characters of the alphabet in either case |
| KidProofs.ResolutionErrors | crates/kapsaro-core/src/support/kid.rs:52-84 | Not found exactly when no candidate starts with the query, ambiguous exactly when two do, invalid otherwise |
| Warnings.LocalStateWarningSink.Record | crates/kapsaro-core/src/support/warning.rs:98-107 | The whole new state after one finding: held while there is room, otherwise named among the dropped up to 64 |
| Warnings.LocalStateWarningSink.RecordAll | crates/kapsaro-core/src/support/warning.rs:109-117 | Findings are recorded one after another, in order |
| Warnings.LocalStateWarningSink.Merge | crates/kapsaro-core/src/support/warning.rs:109-117 | The floor is raised to the other sink's count and both its held and its dropped findings are recorded |
| Warnings.LocalStateWarningSink.RestoreBatch | crates/kapsaro-core/src/support/warning.rs:119-124 | The floor is raised to the batch's count and its findings are recorded |
| Warnings.LocalStateWarningSink.TakeBatch | crates/kapsaro-core/src/support/warning.rs:126-131 | The batch carries the held findings and the larger of floor and dropped names |
| Warnings.WarningThread.Record | crates/kapsaro-core/src/support/warning.rs:152-156 | A finding goes to the innermost sink; the ones set aside are untouched |
| Warnings.WarningThread.Take | crates/kapsaro-core/src/support/warning.rs:163-168 | The current findings are handed over and the thread goes on with an empty sink |
| Warnings.WarningThread.Restore | crates/kapsaro-core/src/support/warning.rs:175-177 | A batch given back goes to the innermost sink |
| Warnings.WarningThread.BeginCapture | crates/kapsaro-core/src/support/warning.rs:192-199 | The current sink is set aside for an empty one |
| Warnings.WarningThread.FinishCapture | crates/kapsaro-core/src/support/warning.rs:201-212 | The captured batch goes to the caller and the outer sink comes back unchanged |
| Warnings.WarningThread.DropCapture | crates/kapsaro-core/src/support/warning.rs:216-225 | An abandoned capture is merged into the outer sink |
| Warnings.WarningThread.Clear | crates/kapsaro-core/src/support/warning.rs:232-234 | What was recorded is dropped and the thread goes on with an empty sink |
| WarningRuns.EveryRunIsTruthful | crates/kapsaro-core/src/support/warning.rs:83-225 | After any run of record, capture, finish, drop, take, restore and clear, each batch holds the first 64 distinct findings in order; its count is at most 64, never above what is missing, and zero if and only if nothing is missing |
| WarningRuns.CountsAreExactInHarmlessRuns | crates/kapsaro-core/src/support/warning.rs:98-225 | In every run whose given-back batches have a count of 0 or 64, each count is exactly min(64, distinct findings beyond 64), however nested captures split them |
| WarningRuns.RunsWithoutRestoresAreHarmless | crates/kapsaro-core/src/support/warning.rs:98-225 | A run without restores is such a run |
| WarningRuns.MergeKeepsFaithful | crates/kapsaro-core/src/support/warning.rs:109-117 | Merging two truthful sinks gives a sink truthful about both traces together |
| WarningRuns.MergeKeepsComplete | crates/kapsaro-core/src/support/warning.rs:109-117 | Merging keeps every dropped finding known by name, until the count saturates |
| WarningRuns.RestoreKeepsFaithful | crates/kapsaro-core/src/support/warning.rs:119-124 | Giving a truthful batch back gives a sink truthful about both traces together |
| WarningRuns.RestoreKeepsComplete | crates/kapsaro-core/src/support/warning.rs:119-124 | Giving back a batch with a count of 0 or 64 keeps every dropped finding known by name, or the count saturated |
| WarningRuns.RestoredCountIsExactExactly | crates/kapsaro-core/src/support/warning.rs:119-124 | After an exact batch is given back to an empty sink, one more new finding leaves the count exact if and only if the batch had a count of 0 or 64 |
| WarningRuns.RestoredFutureIsExactExactly | crates/kapsaro-core/src/support/warning.rs:119-124 | The count stays exact under every possible continuation if and only if the batch had a count of 0 or 64 |
| WarningRuns.CompleteIsExact | crates/kapsaro-core/src/support/warning.rs:126-131 | A sink that knows its dropped findings by name counts exactly what is missing, up to 64 |
| Disclosure.RemovedHistory.BuildUnique | crates/kapsaro-core/src/feature/disclosure.rs:69-84 | The first record of each key id, in order |
| Disclosure.RemovedHistory.AddToRemovedHistory | crates/kapsaro-core/src/feature/disclosure.rs:11-28 | An add in place: overwrites the record of its key id or appends one |
| Disclosure.RemovedHistory.MergeRemovedHistory | crates/kapsaro-core/src/feature/disclosure.rs:31-49 | A merge in place: fills gaps and cleans both lists, and an absent source changes nothing |
| DisclosureRuns.StepMeans | crates/kapsaro-core/src/feature/disclosure.rs:11-59 | For each key id an add of it overwrites the record, and a merge supplies one only where there is none |
| DisclosureRuns.StepKeeps | crates/kapsaro-core/src/feature/disclosure.rs:11-59 | From a clean history an add or merge leaves one record per key id, with the old key ids first and in their old order |
| DisclosureRuns.RunMeans | crates/kapsaro-core/src/feature/disclosure.rs:11-84 | After any adds and merges from any start, the record of a key id is the one of the fold of its own adds and merges |
| DisclosureRuns.EveryRunKeepsOneRecordPerKid | crates/kapsaro-core/src/feature/disclosure.rs:11-84 | From a duplicate-free start no run loses or moves a key id or records one twice |
| DisclosureRuns.UniqueMeans | crates/kapsaro-core/src/feature/disclosure.rs:69-84 | Deduplication keeps one record per key id, the one a reader found before |
| DisclosureRuns.MergeCleans | crates/kapsaro-core/src/feature/disclosure.rs:31-49 | A merge leaves one record per key id even from lists with duplicates |
| DisclosureRuns.MergeTwiceIsMergeOnce | crates/kapsaro-core/src/feature/disclosure.rs:31-49 | Repeating a merge changes nothing |
| JsonLimits.JsonScanState.ConsumeInString | crates/kapsaro-core/src/support/json_limits.rs:59-65 | Inside a string only a backslash and a quote change the state |
| JsonLimits.JsonScanState.OpenContainer | crates/kapsaro-core/src/support/json_limits.rs:67-77 | A container deepens the nesting, counts one, and is refused past the depth limit |
| JsonLimits.JsonScanState.Consume | crates/kapsaro-core/src/support/json_limits.rs:37-57 | One byte moves the counters as specified and is refused if and only if a limit is then broken, depth before size |
| JsonLimits.ValidateJsonLimits | crates/kapsaro-core/src/support/json_limits.rs:14-20 | Any bytes are accepted exactly when their final counts are within the limits; otherwise the error names the first limit broken |
| JsonProofs.ValueCounts | crates/kapsaro-core/src/support/json_limits.rs:37-77 | Wherever an RFC 8259 value stands, with whatever white space and escapes, the scan measures its nesting depth and its number of containers, colons and commas |
| JsonProofs.AcceptedExactly | crates/kapsaro-core/src/support/json_limits.rs:14-57 | A JSON text is accepted if and only if its value nests no deeper than 32 and counts no more than the budget |
| JsonProofs.WrapItemSize | crates/kapsaro-core/src/support/limits.rs:119-121 | A wrap item, an object of five strings, counts ten |
| JsonProofs.PlugSize | crates/kapsaro-core/src/support/limits.rs:123-124 | What a document counts is what surrounds a place plus what stands there, at any depth |
| JsonProofs.WrapBudget | crates/kapsaro-core/src/support/limits.rs:119-133 | The budget is exact: with n wrap items anywhere, a document no deeper than 32 is accepted if and only if the rest plus 11n is within it; so 1000 items and 2000 elsewhere always fit |
| JsonTextProofs.WrittenAcceptedExactly | crates/kapsaro-core/src/support/json_limits.rs:14-57 | Compact or indented, a written document is accepted if and only if its tree is within the depth and element limits |
| JsonTextProofs.CompactLen | crates/kapsaro-core/src/format/jcs.rs:37-44 | The length of the compact text, computed from the tree |
| JsonTextProofs.IndentedLen | crates/kapsaro-core/src/feature/encrypt.rs:39-41 | The length of the indented text is that of the compact one and the white space computed from the tree |
| JsonTextProofs.DeeperLen | crates/kapsaro-core/src/feature/encrypt.rs:39-41 | One level deeper, the indented text of a node grows by two for each of its line breaks |
| JsonTextProofs.StringsReadBack | crates/kapsaro-core/src/format/jcs.rs:37-44 | What is written for a text stands for that text, character by character, under the meaning RFC 8259 gives escapes |
| ReadingProofs.TreesReadBack | crates/kapsaro-core/src/format/jcs.rs:37-44 | Whatever the layout, the tree that was written is the tree that is read |
| WireTextProofs.UuidReadsBack | crates/kapsaro-core/src/model/kv_enc/header.rs:14-19 | A document id of 128 bits is written in groups of hexadecimal digits that read back to it |
| WireTextProofs.TimestampExactly | crates/kapsaro-core/schemas/kapsaro_common_schema.json:17 | A time passes if and only if it is a date, a time of day, maybe a fraction, and an offset, each of the right number of digits |
| Handles.HandlesExactly | crates/kapsaro-core/src/support/validation.rs:21-67 | A handle is 1 to 128 characters of the set written out, a letter or a digit first |
| KvTextProofs.TokenPassesExactly | crates/kapsaro-core/src/format/schema/document.rs:167-183 | A token is decoded and scanned without error if and only if its text is within 1 MiB and its tree within the limits |
| KvTextProofs.WrapLoadsExactly | crates/kapsaro-core/src/format/schema/document.rs:103-112 | A WRAP token of wraps that pass loads if and only if there are 1 to 1000, the history records pass, and size and length fit |
| KvTextProofs.RecordsFitExactly | crates/kapsaro-core/src/support/limits.rs:118-133 | Beside n wraps there is room for (12996 - 11n) / 7 removal records and not one more; beside 1000 wraps for 285 |
| KvTextProofs.BudgetDecides | crates/kapsaro-core/src/support/limits.rs:118-133 | With valid handles and dates of at most 40 characters the element budget alone decides what a WRAP token may carry, its length never |
| KvTextProofs.FreshRecipientsLoad | crates/kapsaro-core/src/support/limits.rs:118-133 | Without a history, 1 to 1000 recipients with valid handles always load |
| KvTextProofs.EntryLoadsExactly | crates/kapsaro-core/src/format/schema/document.rs:114-122 | An entry token loads if and only if it is within 1 MiB |
| KvTextProofs.ValueFitsExactly | crates/kapsaro-core/src/support/limits.rs:96-97 | The longest value an entry can carry has 589769 bytes, and 589756 once the entry is flagged as disclosed |
| KvTextProofs.KeysLoadExactly | crates/kapsaro-core/src/format/kv/document/structure.rs:164-189 | Distinct keys pass if and only if each is a valid name |
| KvTextProofs.HeadLoadsExactly | crates/kapsaro-core/src/format/schema/document.rs:93-101 | The HEAD token loads if and only if its times are well formed and its text fits |
| KvTextProofs.SignatureLoadsExactly | crates/kapsaro-core/src/format/schema/document.rs:124-135 | The SIG token loads if and only if the key id is canonical and the public key leaves room |
| KvTextProofs.LoadsExactly | crates/kapsaro-core/src/format/kv/document/parse.rs:16-35 | A written document loads if and only if its parts fit: file size, key lines, key names, and each token |
| KvTextProofs.PartsLoadPermuted | crates/kapsaro-core/src/format/kv/enc/writer.rs:12-26 | Whether the parts fit depends on neither the order of the wraps nor that of the entries |
| KvTextProofs.KeyNamesExactly | crates/kapsaro-core/src/format/kv/dotenv.rs:18-25 | A key name is letters, digits and underscores, no digit first |
| KvTextProofs.TokensAreCanonical | crates/kapsaro-core/src/format/jcs.rs:20-44 | In every record of every token the members stand in the order of their names, as section 3.2.3 of RFC 8785 asks |
| KvContentProofs.ContentLen | crates/kapsaro-core/src/format/kv/enc/writer.rs:12-26 | The text, built line by line, is as long as the loader takes it to be |
| KvContentProofs.LinesReadBack | crates/kapsaro-core/src/format/kv/enc/parser.rs:14-50 | The text of a document that loads splits into the lines it was made of, and every entry line into its key and its token |
| KvContentProofs.TokenDecodes | crates/kapsaro-core/src/format/kv/enc/writer.rs:12-26 | Every token decodes to the bytes of the JSON it was made from |
| ReadingProofs.TokensReadBack | crates/kapsaro-core/src/model/kv_enc/header.rs:12-33 | For a document that loads, the JSON of each token, its members looked up by name, reads back as the head, the wraps and history, the entries and the signature it was written from |
| SchemaProofs.EntryPassesExactly | crates/kapsaro-core/src/format/schema/document.rs:114-122 | Of any entry: it passes if and only if its nonce encodes 24 bytes and its ciphertext encodes some bytes |
| ErrorProofs.KvLoadErrors | crates/kapsaro-core/src/format/kv/document/parse.rs:16-35 | Which error a text gets: its length past 16 MiB before more than 10000 entries, their keys before the wraps, and those before the entries |
| ErrorProofs.KeyErrors | crates/kapsaro-core/src/format/kv/document/structure.rs:164-189 | The first key that is no name, or that was there before, is the one reported, each by its own error |
| FileTextProofs.FileTextIs | crates/kapsaro-core/src/feature/encrypt.rs:39-41 | The length of the stored file in closed form, from the handles, the history, the length of the content, the dates and the public key |
| FileTextProofs.FileLoadsExactly | crates/kapsaro-core/src/format/schema/document.rs:150-165 | A written file loads if and only if 1 to 1000 wraps, history and public key share the element budget, history, times and key id are well formed, and the length computed from these parts and the length of the content is within 24 MiB |
| FileTextProofs.FilePartsLoadPermuted | crates/kapsaro-core/src/format/schema/document.rs:150-165 | Whether the parts of a file fit does not depend on the order of the wraps |
| ReadingProofs.FileReadsBack | crates/kapsaro-core/src/model/file_enc.rs:17-104 | For a file that loads, the JSON of its text, its members looked up by name, reads back as the whole document it was written from, signature and public key included |
| ErrorProofs.FileLoadErrors | crates/kapsaro-core/src/format/schema/document.rs:150-165 | Which error a text gets: its length past 24 MiB, exactly then, before the limits of the scan, these before the schema, and the schema before the wraps |
| SchemaProofs.ProtectedPassesExactly | crates/kapsaro-core/src/format/schema/document.rs:150-165 | Of any file: the header passes if and only if its names and algorithm are those of the format, its times are well formed, its nonce encodes 24 bytes and its ciphertext some bytes |
| SchemaProofs.RecordPassesExactly | crates/kapsaro-core/schemas/kapsaro_common_schema.json:10-27 | A removal record passes if and only if its handle, its canonical key id and its time do |
| SchemaProofs.CanonicalExactly | crates/kapsaro-core/schemas/kapsaro_common_schema.json:33 | A base64 field is canonical if and only if it is the encoding of some bytes |
| FileTextProofs.RemovalsFitExactly | crates/kapsaro-core/src/support/limits.rs:118-133 | Beside n wraps and a public key of s elements there is room for (12956 - 11n - s) / 7 removal records and not one more |
| FileTextProofs.FileReadsBackExactly | crates/kapsaro-core/src/feature/decrypt/file.rs:95-124 | Through the text, a sound file gives its content to exactly those it admits, if and only if its parts fit and the content is within the limit |
| FileTextProofs.BudgetDecides | crates/kapsaro-core/src/support/limits.rs:118-133 | Within the plaintext limit, with a public key of at most a megabyte and dates of at most 40 characters, the element budget alone decides whether a file loads |
| FileTextProofs.EncryptedFileLoads | crates/kapsaro-core/src/feature/encrypt.rs:37-45 | Any content within the plaintext limit, encrypted for 1 to 1000 handles, is written to a file that loads, for any such signer whose public key has at most 1958 elements |
| FileTextProofs.EncryptedFileReadsBackExactly | crates/kapsaro-core/src/feature/encrypt.rs:37-45 | End to end, through the text: the content is recovered by exactly the holders of the key of a member first given under their handle, unless it exceeds the limit |
| Display.SanitizeDisplayFieldWithLimit | crates/kapsaro-core/src/support/display.rs:24-41 | The growing and truncating loop returns the specified text |
| Display.EscapedLenIsByteLen | crates/kapsaro-core/src/support/display.rs:60-76 | The length computed in advance is the byte length of the escape |
| Display.OutputIsBoundedAndShowable | crates/kapsaro-core/src/support/display.rs:24-41 | The output is at most max(limit, 8) bytes, the mark included, and holds no character in need of a placeholder |
| Display.TruncatedOnlyWhenNeeded | crates/kapsaro-core/src/support/display.rs:24-41 | The output is the full escape if and only if that fits; otherwise it is the escape of whole characters plus the mark, and one more would not leave room for the mark |
| Display.SanitizingTwiceIsOnce | crates/kapsaro-core/src/support/display.rs:24-41 | Sanitizing twice is sanitizing once |
| Display.ShortestSequence | crates/kapsaro-core/src/support/display.rs:60-66 | The length counted for a character is that of its shortest UTF-8 sequence, by the payload bits of section 3 of RFC 3629 |
| Display.EscapesReadBack | crates/kapsaro-core/src/support/display.rs:68-76 | Newline, carriage return and tab are each spelled by their own letter: text without backslashes and replaced characters reads back from its escape |
| Display.HiddenAreReplaced | crates/kapsaro-core/src/support/display.rs:79-115 | Every bidirectional control of Unicode Annex 9, every invisible character listed and every line break is replaced |
| Display.HiddenExactly | crates/kapsaro-core/src/support/display.rs:79-115 | The characters that are not shown as themselves are exactly the controls and the listed blocks |
| Display.LettersAreShown | crates/kapsaro-core/src/support/display.rs:79-115 | Ordinary characters are shown as they are |
| Shell.QuotePosixArgument | crates/kapsaro-core/src/support/shell.rs:21-40 | The quoting loop wraps the path in single quotes with each quote spelled out, and refuses a path that is not text or does not show as itself |
| Shell.RequotedReadsBack | crates/kapsaro-core/src/support/shell.rs:21-40 | Inside the quotes a POSIX tokenizer (XCU sections 2.2.1, 2.2.2 and 2.3) reads back the raw characters, whatever they are |
| Shell.RepairCommandNamesThePath | crates/kapsaro-core/src/support/shell.rs:49-53 | A repair command is shown if and only if the path is text that shows as itself, and tokenizes to the words of the command, `--`, and exactly one word equal to the path |
| Shell.RepairCommandIsShowable | crates/kapsaro-core/src/support/shell.rs:49-53 | A shown command holds no character that could move or hide text |
| Wire.NamesAreSpelledApart | crates/kapsaro-core/src/format/wrap.rs:61-71 | A format or algorithm name is recognised by its exact spelling and by no other |
| Primitives.WireTextsAreFaithful | crates/kapsaro-core/src/format/codec.rs:97-110 | The real text formats round-trip: base64url at a fixed size and within the ciphertext limit, and key ids as they are spelled |
| Ordering.SortedIsPermutation | crates/kapsaro-core/src/feature/encrypt.rs:25-31 | The sort keeps every element |
| Ordering.SortedKeepsFirst | crates/kapsaro-core/src/feature/encrypt.rs:25-31 | The sort is stable: under each key the element given first stays first |
| Ordering.OneOfEachInOrder | crates/kapsaro-core/src/feature/encrypt.rs:25-31 | Sorting and deduplicating leaves strictly ascending keys and, under each key, the element given first |
| Ordering.KeptExactlyFirst | crates/kapsaro-core/src/feature/encrypt.rs:25-31 | An element survives sort and dedup if and only if it was the first given under its key |
| Ordering.SortedDistinct | crates/kapsaro-core/src/feature/kv/encrypt.rs:56-85 | Sorting elements with distinct keys puts them in strictly ascending order |
| Envelope.ValidateWrapItems | crates/kapsaro-core/src/format/wrap.rs:16-59 | The checking loop with its set of seen handles agrees with the specification in verdict and in error |
| EnvelopeProofs.ItemPassesExactly | crates/kapsaro-core/src/format/wrap.rs:52-71 | A stored item passes if and only if its handle and key id are valid, its algorithm is the supported one, and its two fields are base64url of exactly 32 and 48 bytes |
| EnvelopeProofs.SetAcceptedExactly | crates/kapsaro-core/src/format/wrap.rs:16-44 | A wrap set is accepted if and only if it has at most 1000 items, distinct handles, and every item passes |
| ErrorProofs.ItemErrors | crates/kapsaro-core/src/format/wrap.rs:52-71 | Which error an item gets: handle before key id, key id before algorithm, algorithm before the fields, each exactly when it is the first that is wrong |
| ErrorProofs.SetErrors | crates/kapsaro-core/src/format/wrap.rs:16-44 | Which error a set gets: the number first, then the first item that repeats a handle or does not pass |
| EnvelopeProofs.LookupOfMember | crates/kapsaro-core/src/feature/envelope/wrap_set.rs:81-119 | The self lookup and the lookup by key id select the same unique entry of a member; under any other key id the error says whether the wrap is somebody else's or nobody's |
| EnvelopeProofs.LookupOfStranger | crates/kapsaro-core/src/feature/envelope/wrap_set.rs:81-119 | A handle the set does not name has no self wrap and no wrap under any key id |
| EnvelopeProofs.NamedMemberLocates | crates/kapsaro-core/src/feature/context/crypto/decryption_key.rs:15-47 | For a named member, wrap and local key are found if and only if the key can be selected: it is active or in the keystore, and no override names another |
| ErrorProofs.SelectionErrors | crates/kapsaro-core/src/feature/context/crypto/decryption_key.rs:15-47 | Which key is selected and which error there is: nobody's wrap and no choice, or a key the keystore does not have, is no key; a keystore that fails is told apart |
| EnvelopeProofs.NamedMemberOpens | crates/kapsaro-core/src/feature/envelope/unwrap.rs:50-104 | A named member opens the master key if the key can be selected and fails otherwise |
| EnvelopeProofs.OpensExactly | crates/kapsaro-core/src/feature/envelope/unwrap.rs:82-146 | Whoever asks, a sound wrap set opens if and only if it names the asker under a key that can be selected, and always to the master key |
| EnvelopeProofs.UnwrapsExactly | crates/kapsaro-core/src/feature/envelope/unwrap.rs:50-104 | Of any wraps, sound or not: a key comes out exactly when the set passes and the item of this handle opens to it, with the handle's own key, in the context of this document, format and key id |
| EnvelopeProofs.AppendedInOrder | crates/kapsaro-core/src/feature/envelope/wrap.rs:126-140 | Building puts one wrap for each member after those there are, in order, each sealed with a draw of its own |
| BindingProofs.MovedWrapIsRefused | crates/kapsaro-core/src/feature/envelope/binding.rs:26-34 | A wrap that opens in no context but its own does not open in another document, for the other format or under another key id |
| BindingProofs.KeysAreApart | crates/kapsaro-core/src/feature/envelope/key_schedule.rs:24-68 | If the derivation does not collide on the inputs in use, no two keys for different purposes, documents, master keys, entry names or nonces are the same |
| BindingProofs.MovedEntryIsRefused | crates/kapsaro-core/src/feature/envelope/binding.rs:15-18 | An entry's value does not decrypt under another name or in another document |
| BindingProofs.MovedPayloadIsRefused | crates/kapsaro-core/src/feature/envelope/binding.rs:20-24 | A payload does not decrypt under another header |
| EnvelopeProofs.BuiltItemDelivers | crates/kapsaro-core/src/feature/envelope/wrap.rs:39-70 | A built item passes the checks, names its member under the member's key id, and every holder of that key opens it to the master key |
| EnvelopeProofs.BuiltEach | crates/kapsaro-core/src/feature/envelope/wrap.rs:126-140 | Building for verified members never fails and addresses each of them, in order |
| EnvelopeProofs.WrapsAreAccepted | crates/kapsaro-core/src/feature/envelope/wrap.rs:126-140 | Wraps built for up to 1000 members with distinct handles pass validation |
| EnvelopeProofs.AdmittedExactly | crates/kapsaro-core/src/feature/envelope/wrap.rs:126-140 | Wraps built for members admit exactly the members whose key can be selected |
| FileEnvelopeProofs.CiphertextFitsExactly | crates/kapsaro-core/src/support/limits.rs:103-113 | The ciphertext text limit and the plaintext limit exclude the same plaintexts |
| FileEnvelopeProofs.DecryptUndoesEncrypt | crates/kapsaro-core/src/feature/envelope/payload.rs:19-35 | Decryption through both base64 fields gives the plaintext back, or the too-long error exactly past the limit |
| FileEnvelopeProofs.PayloadDecrypts | crates/kapsaro-core/src/feature/decrypt/file.rs:58-80 | A payload that holds a content decrypts to it, bound to its own header |
| FileEnvelopeProofs.KeyOpensExactly | crates/kapsaro-core/src/feature/envelope/key_possession.rs:98-121 | The master key of a sound document, its possession proof verified, opens for exactly those it admits |
| FileEnvelopeProofs.FormatPassesExactly | crates/kapsaro-core/src/feature/decrypt/file.rs:23-56 | The format check passes exactly for the two format names, the algorithm and one document id in both places, and its errors are told apart |
| FileEnvelopeProofs.FileDecryptsOnlyIf | crates/kapsaro-core/src/feature/decrypt/file.rs:95-124 | Of any file, sound or not: decryption succeeds only if the format is right, a wrap yields a key, the tag is that of this body and signer under it, and the payload opens under that key and header |
| FileEnvelopeProofs.TamperedFileIsRefused | crates/kapsaro-core/src/feature/envelope/key_possession.rs:159-195 | A sound file with another body or signer, its id, wraps and tag kept, is refused for everybody, and as a wrong proof for everybody it admits, if the tag tells the two apart |
| FileEnvelopeProofs.DecryptsExactly | crates/kapsaro-core/src/feature/decrypt/file.rs:95-124 | A sound document decrypts to its content for exactly those it admits, unless the content is past the limit |
| FileEnvelopeProofs.EncryptedDocumentIsSound | crates/kapsaro-core/src/feature/encrypt/file.rs:125-196 | Encryption to up to 1000 distinct verified members succeeds with a sound document: format, wraps, payload and proof of possession; id, key, payload nonce and each wrap have a draw of their own |
| FileEnvelopeProofs.OtherHandlesAreRefused | crates/kapsaro-core/src/feature/encrypt/file.rs:125-140 | Handles that are not those of the members, one by one, are refused |
| FileEnvelopeProofs.OrderedExactly | crates/kapsaro-core/src/feature/encrypt.rs:25-31 | A member is used if and only if it is the first given under its handle |
| FileEnvelopeProofs.OrderedIsDistinct | crates/kapsaro-core/src/feature/encrypt.rs:25-31 | The members used have distinct handles |
| FileEnvelopeProofs.OrderedCount | crates/kapsaro-core/src/feature/encrypt.rs:22-31 | As many members are used as there are distinct handles |
| FileEnvelopeProofs.EncryptFileContent | crates/kapsaro-core/src/feature/encrypt.rs:17-45 | More than 1000 distinct handles are refused; otherwise the document is sound, names each handle once and in order under the key id of the member first given under it, takes a draw of its own for its id, key, payload nonce and each wrap, and decrypts to the content for exactly the holders of those keys |
| FileEnvelopeProofs.RecipientsRecoverExactly | crates/kapsaro-core/src/feature/encrypt.rs:17-45 | End to end: more than 1000 handles are refused; otherwise encryption succeeds and exactly the holders of the key of a member first given under their handle recover the exact content, if it is within the limit |
| KvEnvelope.DecryptKvEntries | crates/kapsaro-core/src/feature/kv/decrypt.rs:28-47 | The inserting loop agrees with the specification in map and in first error |
| KvEnvelopeProofs.EncryptKvEntries | crates/kapsaro-core/src/feature/kv/encrypt.rs:56-85 | Whatever order the map iterates in, there is one entry per pair sealed under its own key, in strictly ascending key order, with the disclosure flag asked for, and the entry of the i-th pair is under the i-th nonce drawn |
| KvEnvelopeProofs.NoncesDiffer | crates/kapsaro-core/src/feature/envelope/entry.rs:25-56 | Where the draws differ, no two entries of a map have the same nonce |
| KvEnvelopeProofs.BuildKvEncryption | crates/kapsaro-core/src/feature/kv/encrypt.rs:25-53 | The drawn key, a head with one date, and one wrap for each member in order, each with a draw of its own; more than 1000 members are refused |
| KvEnvelopeProofs.EncryptKvMap | crates/kapsaro-core/src/feature/kv/encrypt.rs:25-53 | More than 1000 members are refused; otherwise the document is sound, addressed to exactly the members in order, under the drawn id and key, with the history the caller left, and each wrap and each entry has a draw of its own |
| KvEnvelopeProofs.EntryDecrypts | crates/kapsaro-core/src/feature/envelope/entry.rs:25-80 | An encrypted entry decrypts to its value, or to the too-long error exactly past the limit |
| KvEnvelopeProofs.EntriesDecryptExactly | crates/kapsaro-core/src/feature/kv/decrypt.rs:28-47 | The entries of a map decrypt to the whole map, if and only if every value fits |
| KvEnvelopeProofs.KvKeyOpensExactly | crates/kapsaro-core/src/feature/envelope/key_possession.rs:123-140 | The master key of a sound document, its possession proof verified, opens for exactly those it admits |
| KvEnvelopeProofs.MapDecryptsExactly | crates/kapsaro-core/src/feature/kv/decrypt.rs:90-111 | The whole map comes back to exactly those the document admits, if every value fits |
| KvEnvelopeProofs.SingleDecryptsExactly | crates/kapsaro-core/src/feature/kv/decrypt.rs:50-75 | One key comes back alone, whatever becomes of the others; a key that is not in the map is reported as not found |
| KvEnvelopeProofs.KvDecryptsOnlyIf | crates/kapsaro-core/src/feature/kv/decrypt.rs:28-47 | Of any document, sound or not: decryption succeeds only if a wrap yields a key, the tag is that of this body and signer under it, and every value is what the last entry of its key opens to, under the key of its name and nonce |
| KvEnvelopeProofs.SingleDecryptsOnlyIf | crates/kapsaro-core/src/feature/kv/decrypt.rs:50-75 | The same of one key alone, from the first entry under it |
| KvEnvelopeProofs.TamperedKvIsRefused | crates/kapsaro-core/src/feature/envelope/key_possession.rs:159-195 | A sound document with another body or signer, its id, wraps and tag kept, is refused, whole and one key at a time, if the tag tells the two apart |
| KvEnvelopeProofs.AddressedMapDecryptsExactly | crates/kapsaro-core/src/feature/kv/encrypt.rs:99-123 | A map encrypted to members, as the parsed document, comes back whole to each of them and to nobody else |
| KvEnvelopeProofs.WrittenLoadsExactly | crates/kapsaro-core/src/feature/verify/kv/signature.rs:23-26 | The text of a map encrypted to members loads if and only if its parts fit, a matter of handles, history, value lengths and signer alone |
| KvEnvelopeProofs.WrittenMapReadsBackExactly | crates/kapsaro-core/src/feature/kv/encrypt.rs:99-123 | End to end through the text: the map comes back whole to exactly the members with their key, if and only if its parts fit the token, file, line and JSON limits |
| KvEnvelopeProofs.LoadedEntriesFit | crates/kapsaro-core/src/feature/kv/decrypt.rs:28-47 | Values whose tokens load are within the ciphertext limit |
| Recipients.FilterExistingRecipients | crates/kapsaro-core/src/feature/recipient.rs:94-111 | The filtering loop keeps, in order, the members that are not recipients yet |
| Recipients.BuildNewWrapItems | crates/kapsaro-core/src/feature/recipient.rs:32-49 | Resolve, filter, then check the count, each with its error, and build for those that remain |
| Recipients.PushWraps | crates/kapsaro-core/src/feature/recipient.rs:78-80 | The pushing loop appends one item per member, or stops with the first error |
| Recipients.ReplaceRecipientWrapItems | crates/kapsaro-core/src/feature/recipient.rs:65-83 | The wraps of the recipients are dropped and built anew at the end; an unknown recipient changes nothing |
| RecipientProofs.ResolvedExactly | crates/kapsaro-core/src/feature/recipient.rs:113-132 | Resolution succeeds if and only if every handle is a member's, and gives those members |
| RecipientProofs.AddedExactly | crates/kapsaro-core/src/feature/recipient.rs:32-49 | Adding gives wraps to exactly those without one, beside the old ones, and all still open to the master key |
| RecipientProofs.ReplacedExactly | crates/kapsaro-core/src/feature/recipient.rs:65-83 | Refreshing puts exactly the named recipients under their member's key id and leaves the others |
| RecipientProofs.RewrappedExactly | crates/kapsaro-core/src/feature/rewrap/file_op/rotate.rs:41-49 | Wrapping another key addresses the same handles, each under its member's key id |
| RecipientProofs.AddedInOrder | crates/kapsaro-core/src/feature/recipient.rs:32-49 | The new wraps stand after the old ones, in the order they were asked for, each with a draw of its own |
| RecipientProofs.ReplacedInOrder | crates/kapsaro-core/src/feature/recipient.rs:65-83 | Refreshed wraps move to the end, in the order they were asked for |
| RecipientProofs.WithoutSound | crates/kapsaro-core/src/feature/recipient.rs:77-77 | Dropping handles drops exactly their wraps, and the rest still open |
| RewrapPlanProofs.PlanIs | crates/kapsaro-core/src/feature/rewrap.rs:134-158 | For distinct recipients and targets, the plan removes exactly the recipients that are not targets, refreshes exactly the targets wrapped under another key id, adds exactly the targets without a wrap, each once |
| RewrapPlanProofs.StaleAre | crates/kapsaro-core/src/feature/rewrap.rs:248-263 | A member is stale if and only if it has a wrap made for another key id |
| RewrapPlanProofs.TargetsAre | crates/kapsaro-core/src/feature/rewrap.rs:292-299 | The target handles are exactly the members', in strictly ascending order, each once |
| RewrapPlanProofs.AdditionsAscend | crates/kapsaro-core/src/feature/rewrap.rs:292-299 | Those to be added stand in strictly ascending order |
| RewrapPlanProofs.PlanInOrder | crates/kapsaro-core/src/feature/rewrap.rs:134-158 | Removals stand in the order of the document, refreshes in that of the members |
| RewrapPlanProofs.EmptyPlanExactly | crates/kapsaro-core/src/feature/rewrap.rs:134-158 | A plan has nothing to do if and only if the wraps are addressed to exactly the targets under their key ids |
| RewrapSteps.CollectToRemove | crates/kapsaro-core/src/feature/rewrap/file_op/recipients.rs:28-47 | The loop collects the recipients that have a wrap, with the key id of the wrap |
| RewrapSteps.RecordRemovals | crates/kapsaro-core/src/feature/rewrap/file_op/recipients.rs:49-52 | The loop records each removal in the history |
| RewrapSteps.ToRemoveIs | crates/kapsaro-core/src/feature/rewrap/file_op/recipients.rs:28-47 | What is collected is exactly the addressees with a listed handle |
| RewrapSteps.RecordedMeans | crates/kapsaro-core/src/feature/rewrap/file_op/recipients.rs:49-52 | A removed key id has a record that names somebody removed under it, with this rewrap's date; every other key id keeps its record |
| RewrapSteps.RecordedIsClean | crates/kapsaro-core/src/feature/rewrap/file_op/recipients.rs:49-52 | Recording removals keeps one record per key id |
| RewrapSteps.StayersAreCurrent | crates/kapsaro-core/src/feature/rewrap.rs:171-186 | After removals and refreshes the wraps are addressed to exactly the targets that already had one, under their current key ids |
| RewrapSteps.AddingCompletes | crates/kapsaro-core/src/feature/rewrap.rs:187-192 | Adding the rest addresses exactly the targets, one wrap each; before it there are no more wraps than at the start, so the count never exceeds the larger of start and target |
| RewrapSteps.NoMoreThanBefore | crates/kapsaro-core/src/feature/rewrap.rs:171-192 | Refreshing never makes more wraps than there were |
| RewrapSteps.RefreshKeeps | crates/kapsaro-core/src/feature/rewrap.rs:181-186 | A refresh replaces the stale wraps only: the very wraps of targets under current key ids remain |
| RewrapSteps.RefreshedInOrder | crates/kapsaro-core/src/feature/rewrap.rs:181-186 | After a refresh the untouched wraps stand first in their order, and the refreshed after them in the order of the members |
| RewrapSteps.CompletedInOrder | crates/kapsaro-core/src/feature/rewrap.rs:187-192 | The wraps that the addition step appends are those of the plan, in strictly ascending order |
| RewrapSteps.NewcomersComeLast | crates/kapsaro-core/src/feature/rewrap.rs:171-199 | In the rewritten document exactly the targets without a wrap before come last, in ascending order |
| RewrapSteps.AdmitsTargets | crates/kapsaro-core/src/feature/rewrap.rs:171-199 | Wraps that reach the targets admit exactly the targets whose key can be selected |
| RewrapSteps.ReplanIsEmpty | crates/kapsaro-core/src/feature/rewrap.rs:134-158 | Planning again for the same targets finds nothing to do |
| RewrapSteps.OneWrapPerTarget | crates/kapsaro-core/src/feature/rewrap.rs:171-199 | A handle has a wrap if and only if it is a target's; it has only one, under the target's current key id |
| RewrapSteps.ReachedHandles | crates/kapsaro-core/src/feature/rewrap.rs:292-299 | The handles of wraps that reach the targets are the targets' handles, in some order |
| RewrapSteps.SomebodyStaysExactly | crates/kapsaro-core/src/feature/recipient.rs:23-30 | The "nobody would remain" refusal is avoided if and only if some current recipient is among the targets, since removals precede additions |
| RewrapFile.FileRewrapExecutor.constructor | crates/kapsaro-core/src/feature/rewrap/file.rs:133-142 | A new executor holds the document as it was, its key not loaded, and satisfies the invariant |
| RewrapFile.FileRewrapExecutor.EnsureContentKey | crates/kapsaro-core/src/feature/rewrap/file.rs:144-154 | The key is loaded at most once, if and only if the operator is admitted to the original document; a rotated key is never replaced |
| RewrapFile.FileRewrapExecutor.AddRecipients | crates/kapsaro-core/src/feature/rewrap/file.rs:52-61 | Succeeds if and only if the operator is admitted, the recipients are targets and there is room; then exactly those without a wrap get one, after the old ones and in the order asked for, each sealed with a draw of its own to the current key |
| RewrapFile.FileRewrapExecutor.RewriteRecipientWraps | crates/kapsaro-core/src/feature/rewrap/file.rs:63-72 | Exactly the listed recipients are wrapped anew under their current key id, at the end and in the order listed, each with a draw of its own; the other wraps stay as they are |
| RewrapFile.FileRewrapExecutor.RotateKey | crates/kapsaro-core/src/feature/rewrap/file.rs:79-92 | At most once per rewrap: a drawn key, the payload re-encrypted under it with the next draw as nonce, every current recipient wrapped anew in the same order with a draw each; the history is kept; with the exact condition of success |
| RewrapFile.FileRewrapExecutor.RemoveRecipients | crates/kapsaro-core/src/feature/rewrap/file.rs:74-77 | Removals are recorded, the wraps are dropped and the others stay in order, nobody left is refused by that name, and the key is rotated; with the exact condition of success |
| RewrapFile.FileRewrapExecutor.ClearDisclosureHistory | crates/kapsaro-core/src/feature/rewrap/file.rs:94-97 | Only the history goes |
| RewrapFile.FileRewrapExecutor.Finalize | crates/kapsaro-core/src/feature/rewrap/file.rs:99-130 | The document is stamped and proved with the key it now has, and is sound under it |
| RewrapFile.ReencryptPayload | crates/kapsaro-core/src/feature/rewrap/file_op/rotate.rs:26-39 | The payload holds the same content under the new key, if and only if the old one could be read |
| RewrapFile.RotateFileKey | crates/kapsaro-core/src/feature/rewrap/file_op/rotate.rs:20-51 | Payload and wraps change and nothing else does; the wraps open to the drawn key and the payload holds the content under it |
| RewrapFile.DroppedInOrder | crates/kapsaro-core/src/feature/rewrap/file_op/recipients.rs:49-60 | Dropping the removed one by one leaves the others where they stood |
| RewrapFile.ApplyRemovals | crates/kapsaro-core/src/feature/rewrap.rs:175-180 | The removal step of the plan, with its exact condition of success and the history it leaves |
| RewrapFile.ApplyRefreshes | crates/kapsaro-core/src/feature/rewrap.rs:181-186 | The refresh step never fails for an admitted operator and leaves exactly the targets that had a wrap, under current key ids, the refreshed ones last |
| RewrapFile.ApplyAdditions | crates/kapsaro-core/src/feature/rewrap.rs:187-192 | The addition step fails only past 1000 targets and completes the target set, the new wraps last and in ascending order |
| RewrapFile.ApplyRecipientSteps | crates/kapsaro-core/src/feature/rewrap.rs:171-192 | The three recipient steps reach the targets; the key was rotated if and only if somebody was removed |
| RewrapFile.ApplyFlags | crates/kapsaro-core/src/feature/rewrap.rs:193-198 | Rotation happens once, and the history is cleared, only where the plan asks for it; the order of the wraps stays |
| RewrapFile.ApplyRewrapOperationPlan | crates/kapsaro-core/src/feature/rewrap.rs:171-199 | For an admitted operator the plan succeeds if and only if it is possible, and reaches the targets |
| RewrapFile.RewrapFileDocument | crates/kapsaro-core/src/feature/rewrap/file.rs:202-217 | A rewrap of a sound file succeeds if and only if the operator is admitted and it is possible; then one wrap per target and no other, the kept ones first, then the refreshed, then the new in ascending order; the same content, under a drawn key and nonce after a removal or rotation and otherwise the same key, payload and current wraps; and the history as specified |
| RewrapFileProofs.TargetsRecoverExactly | crates/kapsaro-core/src/feature/rewrap.rs:160-199 | The rewrapped file, as the parsed document, decrypts to the old content for exactly the targets with their key |
| RewrapFileProofs.TargetsOpenTheSameKey | crates/kapsaro-core/src/feature/rewrap.rs:84-90 | Without rotation every target opens the original master key |
| RewrapFileProofs.FinalLoadsExactly | crates/kapsaro-core/src/feature/rewrap/file.rs:115-129 | The file a rewrap writes loads again if and only if the parts known before it fit: targets, the history it leaves, content length, dates, signer |
| RewrapFileProofs.TargetsReadBackExactly | crates/kapsaro-core/src/feature/rewrap.rs:160-199 | Through its text, the rewrapped file gives the old content to exactly the targets with their key, if and only if the parts known before the rewrap fit and the content is within the limit |
| RewrapFileProofs.HistoryOutgrowsBudget | crates/kapsaro-core/src/support/limits.rs:118-133 | A file rewrapped with more removal records than the budget leaves beside its targets never loads again |
| RewrapFileWitness.AdditionOutgrowsBudget | crates/kapsaro-core/src/feature/rewrap/file.rs:115-129 | For every number of recipients below 1000 there is a number of removal records with which a file loads, and after one more recipient is added, which no step refuses, never loads again |
| RewrapFileWitness.SettingsExist | crates/kapsaro-core/src/feature/rewrap/file.rs:115-129 | There are such files, of any content within the limit |
| RewrapFileProofs.RemovedAreRecorded | crates/kapsaro-core/src/feature/rewrap/file_op/recipients.rs:49-52 | Whoever lost a wrap has, under the key id of that wrap, a record that names somebody removed under it, with this rewrap's date |
| RewrapFileProofs.HistoryIsKept | crates/kapsaro-core/src/feature/rewrap/file_op/recipients.rs:49-52 | A file rewrap, rotation included, forgets no recorded key id unless asked to, and keeps a clean history clean |
| RewrapKv.RewrapWithRecipients | crates/kapsaro-core/src/feature/kv/rewrite_session/session.rs:106-129 | Re-encryption succeeds if and only if the operator is admitted, every value fits and is text, and the recipients are at most 1000 targets; then the same values under a drawn id, key and nonces for exactly those in the order given, with the flags and history asked for, and its text loads if and only if its parts fit; an unknown recipient and a value that is no text are reported as such |
| RewrapKv.MergeRemovedHistoryFromOld | crates/kapsaro-core/src/feature/kv/rewrite_session/history.rs:16-39 | The removals recorded first, then what the old history adds to them |
| RewrapKv.ClearFlags | crates/kapsaro-core/src/feature/rewrap/kv.rs:118-121 | Every entry loses its disclosure flag and nothing else |
| RewrapKv.AddKvRecipients | crates/kapsaro-core/src/feature/rewrap/kv_op/recipients.rs:20-38 | Exactly the new recipients join, last and in the order asked for, under the same key |
| RewrapKv.KvRewrapExecutor.constructor | crates/kapsaro-core/src/feature/rewrap/kv.rs:132-151 | A new executor drafts the document as it was and satisfies the invariant |
| RewrapKv.KvRewrapExecutor.UnwrapMasterKey | crates/kapsaro-core/src/feature/kv/rewrite_session/unsigned.rs:39-53 | The session's own key opens if and only if the operator is admitted to the session |
| RewrapKv.KvRewrapExecutor.SetWraps | crates/kapsaro-core/src/feature/rewrap/kv.rs:171-174 | Sound wraps enter the draft with a new date and nothing else changes |
| RewrapKv.KvRewrapExecutor.AddRecipients | crates/kapsaro-core/src/feature/rewrap/kv.rs:47-58 | Succeeds if and only if the operator is admitted to the session, the recipients are targets and there is room; the new wraps come last in the order asked for, each with a draw of its own; entries and history are untouched |
| RewrapKv.KvRewrapExecutor.RewriteRecipientWraps | crates/kapsaro-core/src/feature/rewrap/kv.rs:60-71 | Exactly the listed recipients are wrapped anew under their current key id, at the end and in the order listed; entries and history are untouched |
| RewrapKv.KvRewrapExecutor.RebuildFromContent | crates/kapsaro-core/src/feature/rewrap/kv.rs:157-169 | The text is loaded again and may be refused, which changes nothing; otherwise the re-encrypted document becomes session and draft, under its own drawn key |
| RewrapKv.KvRewrapExecutor.Reencrypt | crates/kapsaro-core/src/feature/rewrap/kv.rs:85-97 | Re-encryption and reload together: the exact condition of success, and a session addressed to the recipients in the order given, with a draw of its own for its id, key, each wrap and each entry |
| RewrapKv.KvRewrapExecutor.RemoveRecipients | crates/kapsaro-core/src/feature/rewrap/kv.rs:73-97 | With the exact condition of success, the reload included: those who stay, in their order, get a re-encrypted document, the history grows by the removals, and every entry is flagged as disclosed; nobody left is refused by that name |
| RewrapKv.KvRewrapExecutor.RotateKey | crates/kapsaro-core/src/feature/rewrap/kv.rs:99-116 | At most once per rewrap, with the exact condition of success, the reload included: the same recipients in the same order, a re-encrypted document, flags spread from the old entries, and no history |
| RewrapKv.KvRewrapExecutor.ClearDisclosureHistory | crates/kapsaro-core/src/feature/rewrap/kv.rs:118-121 | History and flags go; wraps and header stay |
| RewrapKv.KvRewrapExecutor.Finalize | crates/kapsaro-core/src/feature/rewrap/kv.rs:123-128 | Succeeds if and only if the operator is admitted to the session; the document is the draft with a new date, and sound |
| RewrapKv.ApplyRemovals | crates/kapsaro-core/src/feature/rewrap.rs:175-180 | The removal step with its exact condition of success, the reload included, and the session, history and flags it leaves |
| RewrapKv.ApplyRefreshes | crates/kapsaro-core/src/feature/rewrap.rs:181-186 | The refresh step leaves exactly the targets that had a wrap, under current key ids |
| RewrapKv.ApplyAdditions | crates/kapsaro-core/src/feature/rewrap.rs:187-192 | The addition step fails only past 1000 targets and completes the target set |
| RewrapKv.ApplyRefreshesAndAdditions | crates/kapsaro-core/src/feature/rewrap.rs:181-192 | Refresh and addition together reach the targets without touching entries or history, and leave current wraps alone |
| RewrapKv.ApplyRecipientSteps | crates/kapsaro-core/src/feature/rewrap.rs:171-192 | The three recipient steps reach the targets, with the exact condition of success; the document was re-encrypted and loaded again if and only if somebody was removed |
| RewrapKv.ApplyRotation | crates/kapsaro-core/src/feature/rewrap.rs:193-193 | Rotation keeps reaching the targets if the re-encrypted text loads, and does nothing after a removal |
| RewrapKv.ApplyFlags | crates/kapsaro-core/src/feature/rewrap.rs:193-198 | Rotation, with its reload, and clearing, where the plan asks for them, leave the specified history and flags and the order of the wraps |
| RewrapKv.ApplyRewrapOperationPlan | crates/kapsaro-core/src/feature/rewrap.rs:171-199 | The plan succeeds if and only if it is possible, for an operator who is admitted and stays if re-encrypted |
| RewrapKv.StayingOperatorIsAdmitted | crates/kapsaro-core/src/feature/rewrap/kv.rs:157-169 | After removals the operator opens the reloaded session if and only if it is a target with a key at hand |
| RewrapKv.RewrapKvDocument | crates/kapsaro-core/src/feature/rewrap/kv.rs:202-217 | A rewrap of a sound document succeeds if and only if the operator is admitted, it is possible (somebody stays, at most 1000 targets, and a re-encrypted document can be read before and loaded after) and, where it is re-encrypted, the operator is a target with a key at hand; then one wrap per target and no other, the kept ones first, then the refreshed, then the new in ascending order; the same values, under a drawn id, key and nonces or else the old ones with the current wraps untouched, with history and flags as specified |
| RewrapKv.TargetsRecoverExactly | crates/kapsaro-core/src/feature/rewrap.rs:160-199 | The rewrapped document, as parsed, decrypts to the old values for exactly the targets with their key |
| RewrapKv.TargetsOpenTheSameKey | crates/kapsaro-core/src/feature/rewrap.rs:84-90 | Without re-encryption every target opens the original master key |
| RewrapKv.FreshNoncesDiffer | crates/kapsaro-core/src/feature/kv/encrypt.rs:56-85 | After a rewrap that re-encrypts no two entries have the same nonce, if as many draws in a row differ |
| RewrapKv.RotationSpreadsFlags | crates/kapsaro-core/src/feature/rewrap/kv.rs:99-116 | A rotation that removes nobody flags every entry if any was flagged, and otherwise none |
| RewrapKv.NewRemovalsComeFirst | crates/kapsaro-core/src/feature/kv/rewrite_session/history.rs:16-39 | The removals of this rewrap stand first in the merged history, and the old records after them |
| RewrapKvText.TextualJobKnows | crates/kapsaro-core/src/feature/kv/rewrite_session/session.rs:45-58 | The loader meets what a rewrap relies on: a re-encrypted document loads if and only if its parts fit, in whatever order its wraps stand |
| RewrapKvText.ReencryptedLoads | crates/kapsaro-core/src/feature/rewrap/kv.rs:157-169 | A re-encrypted document loads if and only if handles, history, value lengths and signer fit |
| RewrapKvText.FinalLoadsExactly | crates/kapsaro-core/src/feature/verify/kv/signature.rs:23-26 | The document a rewrap writes loads again if and only if the parts known before it fit: targets, the history and the flags it leaves, value lengths, dates, signer |
| RewrapKvText.TargetsReadBackExactly | crates/kapsaro-core/src/feature/rewrap.rs:160-199 | Through its text, the rewrapped document gives the old values to exactly the targets with their key, if and only if the parts known before the rewrap fit |
| RewrapKvText.HistoryOutgrowsBudget | crates/kapsaro-core/src/support/limits.rs:118-133 | A document rewrapped with more than (12996 - 11n) / 7 removal records for n targets never loads again |
| RewrapKvText.LongValueBlocksRemoval | crates/kapsaro-core/src/feature/rewrap/kv.rs:85-95 | With a value of more than 589756 bytes every rewrap that removes somebody fails |
| RewrapKv.RemovedAreRecorded | crates/kapsaro-core/src/feature/rewrap/kv.rs:85-93 | Whoever lost a wrap has, under the key id of that wrap, a record that names somebody removed under it, with this rewrap's date |
| RewrapKv.ForgetsNobodyExactly | crates/kapsaro-core/src/feature/rewrap/kv.rs:73-121 | A key-value rewrap forgets no recorded key id if and only if there was none, or it neither clears nor rotates without removing somebody |
| RewrapKvWitness.RotationForgetsTheHistory | crates/kapsaro-core/src/feature/rewrap/kv.rs:99-116 | The loss is reachable: for any recipients, keys, draws, value and removal records with which a document loads, a rotation to the same recipients meets the exact condition of success and leaves no history |
| RewrapKvWitness.AdditionOutgrowsBudget | crates/kapsaro-core/src/feature/rewrap/kv.rs:47-58 | For every number of recipients below 1000 there is a number of removal records with which a document loads, and after one more recipient is added, which no step refuses, never loads again |
| RewrapKvWitness.RemovalIsPossibleExactly | crates/kapsaro-core/src/feature/rewrap/kv.rs:85-95 | A document of one value of up to 589769 bytes for two recipients loads, and one of them can be removed if and only if the value has at most 589756 |
| RewrapKvWitness.SettingsExist | crates/kapsaro-core/src/feature/rewrap/kv.rs:45-128 | There are such documents: the premises of the three statements can be met, the second with 1855 records beside one recipient, the third with a value of 589769 bytes |

## Left out

- Secrecy, forgery and zeroization: nothing is claimed about what somebody without a key can learn or produce.
- The inside of HPKE, HKDF, XChaCha20-Poly1305, HMAC, Ed25519, SHA-256 and canonical JSON: primitives are values with the laws in `Primitives`; a context stands for its canonical bytes.
- Verification of artifact and public-key signatures: documents and members are modelled after that check; a signature keeps its key id and possession tag.
- A key id names one public key (`Directory`): the collision resistance of the digest behind it is taken for granted.
- Parsing JSON characters into a tree: that the text of a written value parses to that value is taken for granted. Its lines, tokens, base64, strings, layout and members are read back by proof, and every check that can refuse the text is modelled.
- Tokens kept byte for byte from a document written by another program: a token is taken to be the canonical text of its value.
- The Ed25519 part of a signature, of which only the 86 characters count, and the schema of the signer's public key, which is any well-formed record; that the signer's own signature verifies when the text is loaded again is taken for granted.
- The `set` and `unset` commands of key-value documents: the entry, token and loader theorems they rest on are stated for any sound document.
- The library sort: a stable insertion sort stands for it; stability and order are what the proofs use.
- Hash-map iteration order and random draws: parameters (`Entropy`), the order arbitrary for each map.
- Files, directories, locks, ssh-agent, network, prompts, output, logging and the wording of errors: an error is a tag.
- Clocks: timestamps are passed in, one for each operation, so a rewrap uses one date where the program reads the clock at each step.
- How the trust evaluator reaches its judgments: a trust state is the judged signer, the pending recipient keys and the unresolved key ids, otherwise arbitrary; the order of its checks follows `crates/kapsaro-core/src/service/trust/core.rs:1060-1165`.
- The expiry and the rotation notices of members and keys: they would only add easy members.
- The handle syntax, key selection fallbacks beyond present, missing and failed, and member-snapshot collection: only as far as the envelope needs them.
- Making a path absolute and deciding whether its bytes are UTF-8 in `crates/kapsaro-core/src/support/shell.rs`: a parameter.
- The half display of key ids and the lossy display forms: they would only add easy members.
- The executor trait: its two implementations are two classes with the same steps, since the model has no traits.
- Buffers allocated and wiped around the codec, and the debug assertion of the Crockford encoder.
- A document id is a number, of which the text form keeps 128 bits; its version bits are left open.
- Rewrap review and mutation authorization in `service/`: the read protocol is the hard case of the same shape.
- Characters beyond ASCII in the signer's public key: lengths count characters, which are bytes in everything else that is written.

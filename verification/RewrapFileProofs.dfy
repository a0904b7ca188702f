/** What a rewrapped file means to its recipients, to the next rewrap, and to its history. */
module RewrapFileProofs {
  import opened Limits
  import opened Wrappers
  import opened Wire
  import opened DisclosureRuns
  import opened Envelope
  import opened EnvelopeProofs
  import opened FileEnvelope
  import opened FileEnvelopeProofs
  import opened RecipientProofs
  import opened RewrapPlan
  import opened RewrapPlanProofs
  import opened RewrapSteps
  import opened RewrapFile
  import opened JsonText
  import opened PartText
  import opened FileText
  import opened FileTextProofs

  // ---- recipients -------------------------------------------------------------------------

  /** The rewrapped file is the old content, to every target with its key and to nobody else. */
  lemma TargetsRecoverExactly(job: Job, origin: Origin, doc: FileDocument, rotated: bool, handle: string,
                              keys: KeyContext)
    requires Fair(job, origin) && KeysMatch(job.suite, origin.dir, keys)
    requires Reaches(job.targets, doc.protected.wrap) && StillHolds(job, origin, doc, rotated)
    ensures DecryptFile(job.suite, doc, handle, keys).ToOption()
         == if AdmitsMember(job.targets, handle, keys) && |origin.content| <= MAX_PLAINTEXT_INPUT_SIZE
            then Some(origin.content) else None
  {
    var masterKey: Key :| SoundDocument(job.suite, origin.dir, doc, masterKey, origin.content);
    DecryptsExactly(job.suite, origin.dir, doc, masterKey, origin.content, handle, keys);
    AdmitsTargets(job.targets, doc.protected.wrap, handle, keys);
  }

  /** Without a rotation the targets open the very key the file had before. */
  lemma TargetsOpenTheSameKey(job: Job, origin: Origin, doc: FileDocument, handle: string, keys: KeyContext)
    requires Fair(job, origin) && KeysMatch(job.suite, origin.dir, keys)
    requires Reaches(job.targets, doc.protected.wrap) && StillHolds(job, origin, doc, false)
    ensures OpenFileKey(job.suite, doc, handle, keys).ToOption()
         == if AdmitsMember(job.targets, handle, keys) then Some(origin.masterKey) else None
  {
    KeyOpensExactly(job.suite, origin.dir, doc, origin.masterKey, origin.content, handle, keys);
    AdmitsTargets(job.targets, doc.protected.wrap, handle, keys);
  }

  // ---- reading it again -------------------------------------------------------------------------

  /** Whether the file that a rewrap writes can be read again, by what the rewrap is given. */
  ghost predicate FinalParts(job: Job, options: Options, origin: Origin, publicKey: Node) {
    FilePartsLoad(job.suite.texts, Signer(job.signerKid, publicKey), MemberHandles(job.targets),
                  FinalHistory(job, options), |origin.content|, job.verified.protected.createdAt, job.now)
  }

  /** The rewrapped file loads again exactly when its parts fit; no step of the rewrap asks. */
  lemma FinalLoadsExactly(job: Job, options: Options, origin: Origin, publicKey: Node, doc: FileDocument)
    requires Fair(job, origin) && GoodNode(publicKey) && Rewrapped(job, options, origin, doc)
    ensures LoadFile(job.suite.texts, publicKey, doc).Ok? == FinalParts(job, options, origin, publicKey)
  {
    var masterKey: Key :| SoundDocument(job.suite, origin.dir, doc, masterKey, origin.content);
    SoundIsWellFormedFile(job.suite, origin.dir, doc, masterKey, origin.content);
    FileLoadsExactly(job.suite.texts, publicKey, doc, |origin.content|);
    ReachedHandles(job.targets, doc.protected.wrap);
    FilePartsLoadPermuted(job.suite.texts, Signer(job.signerKid, publicKey), HandlesOf(doc.protected.wrap),
                          MemberHandles(job.targets), doc.protected.removedRecipients, |origin.content|,
                          doc.protected.createdAt, doc.protected.updatedAt);
  }

  /** Through its text, every target with its key, and nobody else, recovers the content, if the parts fit. */
  lemma TargetsReadBackExactly(job: Job, options: Options, origin: Origin, publicKey: Node, doc: FileDocument,
                               handle: string, keys: KeyContext)
    requires Fair(job, origin) && GoodNode(publicKey) && Rewrapped(job, options, origin, doc)
    requires KeysMatch(job.suite, origin.dir, keys)
    ensures ReadFile(job.suite, publicKey, doc, handle, keys).ToOption()
         == if FinalParts(job, options, origin, publicKey) && AdmitsMember(job.targets, handle, keys)
               && |origin.content| <= MAX_PLAINTEXT_INPUT_SIZE
            then Some(origin.content) else None
  {
    FinalLoadsExactly(job, options, origin, publicKey, doc);
    TargetsRecoverExactly(job, origin, doc, Rotates(job, options), handle, keys);
  }

  /**
   * Once there are more removal records than the budget leaves beside the targets'
   * wraps, the file that a rewrap writes is never read again; no step of the rewrap
   * notices.
   */
  lemma HistoryOutgrowsBudget(job: Job, options: Options, origin: Origin, publicKey: Node, doc: FileDocument)
    requires Fair(job, origin) && GoodNode(publicKey) && Rewrapped(job, options, origin, doc)
    requires job.targets != [] && FinalHistory(job, options).Some?
    requires 7 * |FinalHistory(job, options).value| > 12956 - 11 * |job.targets| - NodeSize(publicKey)
    ensures LoadFile(job.suite.texts, publicKey, doc).Err?
  {
    FinalLoadsExactly(job, options, origin, publicKey, doc);
  }

  // ---- the history ------------------------------------------------------------------------

  /** Whoever lost a wrap is in the history under the key id the wrap was made for. */
  lemma RemovedAreRecorded(job: Job, options: Options, removed: Addressee)
    requires DistinctHandles(job.verified.protected.wrap) && DistinctMembers(job.targets)
    requires removed in Addressees(job.verified.protected.wrap) && !IsMember(job.targets, removed.handle)
    requires !options.clearHistory
    ensures var entry := Entry(FinalHistory(job, options), removed.kid);
            NamesRemoved(entry, job.verified.protected.wrap,
                         PlanFor(job.verified.protected.wrap, job.targets, options).remove, job.now, removed.kid)
  {
    var p := job.verified.protected;
    PlanIs(p.wrap, job.targets, options);
    var plan := PlanFor(p.wrap, job.targets, options);
    HandlesAre(p.wrap, removed);
    ToRemoveIs(p.wrap, plan.remove);
    var list := ToRemove(p.wrap, plan.remove);
    assert removed in list;
    var i :| 0 <= i < |list| && list[i] == removed;
    assert RemovesKid(list, removed.kid);
    RecordedMeans(p.removedRecipients, list, job.now, removed.kid);
    RecordNamesRemoved(Entry(FinalHistory(job, options), removed.kid).value, p.wrap, plan.remove, job.now, removed.kid);
  }

  /** A rewrap of a file forgets nobody unless it is asked to, and keeps one record per key id. */
  lemma HistoryIsKept(job: Job, options: Options, kid: string)
    requires !options.clearHistory
    ensures Entry(job.verified.protected.removedRecipients, kid).Some? ==> Entry(FinalHistory(job, options), kid).Some?
    ensures Clean(job.verified.protected.removedRecipients) ==> Clean(FinalHistory(job, options))
  {
    var p := job.verified.protected;
    var list := ToRemove(p.wrap, PlanFor(p.wrap, job.targets, options).remove);
    RecordedMeans(p.removedRecipients, list, job.now, kid);
    if Clean(p.removedRecipients) {
      RecordedIsClean(p.removedRecipients, list, job.now);
    }
  }
}

/** What a rewrapped key-value document means as text: when it is read again, and what stands in the way. */
module RewrapKvText {
  import opened Wrappers
  import opened Wire
  import opened Disclosure
  import opened Primitives
  import opened Envelope
  import opened EnvelopeProofs
  import opened JsonText
  import opened PartText
  import opened KvText
  import opened KvTextProofs
  import opened KvEnvelopeProofs
  import opened Recipients
  import opened RewrapPlan
  import opened RewrapSteps
  import opened RewrapKv

  // ---- the loader ---------------------------------------------------------------------------

  ghost predicate LoadsAs(job: Job, publicKey: Node, doc: KvDocument) {
    job.load(doc) == LoadKv(job.suite.texts, publicKey, doc)
  }

  /** The parts of a document encrypted anew: handles, history, the lengths of the values, and the signer. */
  ghost predicate FreshParts(job: Job, origin: Origin, publicKey: Node, handles: seq<string>,
                             history: Option<History>, disclosed: bool)
  {
    PartsLoad(job.suite.texts, Signer(job.signerKid, publicKey), handles, history,
              LinesFor(job.entropy.iterate(origin.values), disclosed), job.now, job.now)
  }

  ghost predicate FitsAs(job: Job, origin: Origin, publicKey: Node, handles: seq<string>, history: Option<History>,
                         disclosed: bool)
  {
    job.fits(handles, history, disclosed) == FreshParts(job, origin, publicKey, handles, history, disclosed)
  }

  /** Loading and fitting are what the KvText modules say they are. */
  ghost predicate IsTextual(job: Job, origin: Origin, publicKey: Node) {
    GoodNode(publicKey)
    && (forall doc: KvDocument :: LoadsAs(job, publicKey, doc))
    && (forall handles: seq<string>, history: Option<History>, disclosed: bool ::
          FitsAs(job, origin, publicKey, handles, history, disclosed))
  }

  lemma ReencryptedLoads(job: Job, origin: Origin, publicKey: Node, doc: KvDocument, masterKey: Key,
                         members: seq<Member>, disclosed: bool)
    requires Ideal(job.suite) && IsTextual(job, origin, publicKey)
    ensures LoadsIfFits(job, origin, doc, masterKey, members, disclosed)
  {
    assert LoadsAs(job, publicKey, doc);
    assert FitsAs(job, origin, publicKey, MemberHandles(members), doc.body.wrap.removedRecipients, disclosed);
    if IsReencryption(job, origin, doc, masterKey, members, disclosed) {
      WrittenLoadsExactly(job.suite, origin.dir, publicKey, doc, masterKey, members, origin.values,
                          job.entropy.iterate(origin.values), disclosed);
    }
  }

  lemma OrderDoesNotMatter(job: Job, origin: Origin, publicKey: Node, a: seq<string>, b: seq<string>,
                           history: Option<History>, disclosed: bool)
    requires IsTextual(job, origin, publicKey)
    ensures FitsInAnyOrder(job, a, b, history, disclosed)
  {
    assert FitsAs(job, origin, publicKey, a, history, disclosed);
    assert FitsAs(job, origin, publicKey, b, history, disclosed);
    if multiset(a) == multiset(b) {
      var lines := LinesFor(job.entropy.iterate(origin.values), disclosed);
      PartsLoadPermuted(job.suite.texts, Signer(job.signerKid, publicKey), a, b, history, lines, lines, job.now,
                        job.now);
    }
  }

  /** The loader keeps what a rewrap relies on. */
  lemma TextualJobKnows(job: Job, origin: Origin, publicKey: Node)
    requires Ideal(job.suite) && IsTextual(job, origin, publicKey)
    ensures KnowsWhatLoads(job, origin)
  {
    forall doc: KvDocument, masterKey: Key, members: seq<Member>, disclosed: bool
      ensures LoadsIfFits(job, origin, doc, masterKey, members, disclosed)
    {
      ReencryptedLoads(job, origin, publicKey, doc, masterKey, members, disclosed);
    }
    forall a: seq<string>, b: seq<string>, history: Option<History>, disclosed: bool
      ensures FitsInAnyOrder(job, a, b, history, disclosed)
    {
      OrderDoesNotMatter(job, origin, publicKey, a, b, history, disclosed);
    }
  }

  /** What `RewrapKv.Possible` says of the text: the parts of the re-encrypted document fit. */
  lemma ReloadsExactly(job: Job, origin: Origin, publicKey: Node, options: Options)
    requires IsTextual(job, origin, publicKey)
    ensures var wrap := job.verified.body.wrap;
            var remove := PlanFor(wrap.wrap, job.targets, options).remove;
            ReloadsAfterRemoval(job, options)
            == FreshParts(job, origin, publicKey, HandlesOf(Without(wrap.wrap, remove)),
                          MergedHistory(wrap, remove, job.now), true)
    ensures ReloadsAfterRotation(job)
         == FreshParts(job, origin, publicKey, MemberHandles(job.targets), None,
                       AnyDisclosed(job.verified.body.entries))
  {
    var wrap := job.verified.body.wrap;
    var remove := PlanFor(wrap.wrap, job.targets, options).remove;
    assert FitsAs(job, origin, publicKey, HandlesOf(Without(wrap.wrap, remove)), MergedHistory(wrap, remove, job.now),
                  true);
    assert FitsAs(job, origin, publicKey, MemberHandles(job.targets), None, AnyDisclosed(job.verified.body.entries));
  }

  // ---- reading it again -------------------------------------------------------------------------

  /** The flag a rewrap leaves on every entry, if it touches the flags at all. */
  ghost function FinalFlag(job: Job, options: Options): bool {
    !options.clearHistory
    && (Removes(job.verified.body.wrap.wrap, job.targets, options) || AnyDisclosed(job.verified.body.entries))
  }

  /** The entries a rewrap leaves, as the loader measures them. */
  ghost function FinalLines(job: Job, options: Options, origin: Origin): seq<Line> {
    if Reencrypts(job, options) || options.clearHistory
    then LinesFor(job.entropy.iterate(origin.values), FinalFlag(job, options))
    else LinesOf(job.verified.body.entries)
  }

  ghost function FinalCreatedAt(job: Job, options: Options): string {
    if Reencrypts(job, options) then job.now else job.verified.body.head.createdAt
  }

  /** Whether the document that a rewrap writes can be read again, by what the rewrap is given. */
  ghost predicate FinalParts(job: Job, options: Options, origin: Origin, publicKey: Node) {
    PartsLoad(job.suite.texts, Signer(job.signerKid, publicKey), MemberHandles(job.targets),
              FinalHistory(job, options), FinalLines(job, options, origin), FinalCreatedAt(job, options), job.now)
  }

  lemma FinalLinesAre(job: Job, options: Options, origin: Origin, doc: KvDocument, masterKey: Key)
    requires Fair(job, origin) && Rewrapped(job, options, origin, doc) && DistinctEntryKeys(doc.body.entries)
    requires SoundKvDocument(job.suite, origin.dir, doc, masterKey, origin.values)
    ensures multiset(LinesOf(doc.body.entries)) == multiset(FinalLines(job, options, origin))
  {
    if Reencrypts(job, options) || options.clearHistory {
      assert IsIterationOf(job.entropy.iterate(origin.values), origin.values);
      HeldIsWritten(job.suite, masterKey, doc.body.head.sid, doc.body.entries, origin.values,
                    job.entropy.iterate(origin.values), FinalFlag(job, options));
    }
  }

  /**
   * The written document loads again exactly when its parts fit: the targets' handles,
   * the history and the flags the rewrap leaves, the lengths of the values, the dates
   * and the signer. All of it is known before the rewrap.
   */
  lemma FinalLoadsExactly(job: Job, options: Options, origin: Origin, publicKey: Node, doc: KvDocument)
    requires Fair(job, origin) && IsTextual(job, origin, publicKey) && Rewrapped(job, options, origin, doc)
    ensures LoadsAgain(job, doc) == FinalParts(job, options, origin, publicKey)
  {
    var masterKey: Key, n: nat :| HoldsUnder(job, origin, doc, Reencrypts(job, options), masterKey, n);
    assert LoadsAs(job, publicKey, doc);
    SoundIsWellFormed(job.suite, origin.dir, doc.body, masterKey, origin.values);
    LoadsExactly(job.suite.texts, publicKey, doc);
    ReachedHandles(job.targets, doc.body.wrap.wrap);
    FinalLinesAre(job, options, origin, doc, masterKey);
    PartsLoadPermuted(job.suite.texts, Signer(job.signerKid, publicKey), HandlesOf(doc.body.wrap.wrap),
                      MemberHandles(job.targets), FinalHistory(job, options), LinesOf(doc.body.entries),
                      FinalLines(job, options, origin), FinalCreatedAt(job, options), job.now);
  }

  /**
   * Once there are more removal records than the budget leaves beside the targets'
   * wraps, the document that a rewrap writes is never read again. Only a rewrap that
   * re-encrypts notices, since only that loads what it wrote.
   */
  lemma HistoryOutgrowsBudget(job: Job, options: Options, origin: Origin, publicKey: Node, doc: KvDocument)
    requires Fair(job, origin) && IsTextual(job, origin, publicKey) && Rewrapped(job, options, origin, doc)
    requires job.targets != [] && FinalHistory(job, options).Some?
    requires 7 * |FinalHistory(job, options).value| > 12996 - 11 * |job.targets|
    ensures !LoadsAgain(job, doc)
  {
    FinalLoadsExactly(job, options, origin, publicKey, doc);
  }

  /**
   * A value that only just fits a token stands in the way of every removal: the flag that
   * a removal sets makes the token too long.
   */
  lemma LongValueBlocksRemoval(job: Job, origin: Origin, publicKey: Node, options: Options, key: string)
    requires Fair(job, origin) && IsTextual(job, origin, publicKey)
    requires key in origin.values && |origin.values[key]| > MAX_DISCLOSED_KV_VALUE_SIZE
    requires Removes(job.verified.body.wrap.wrap, job.targets, options)
    ensures !Possible(job, origin, options)
  {
    ReloadsExactly(job, origin, publicKey, options);
    assert IsIterationOf(job.entropy.iterate(origin.values), origin.values);
    LongValueDoesNotLoad(origin.values, job.entropy.iterate(origin.values), key);
  }

  /** The text of a rewrapped document, to every target with its key and to nobody else, if its parts fit. */
  lemma TargetsReadBackExactly(job: Job, options: Options, origin: Origin, publicKey: Node, doc: KvDocument,
                               handle: string, keys: KeyContext)
    requires Fair(job, origin) && IsTextual(job, origin, publicKey) && KeysMatch(job.suite, origin.dir, keys)
    requires Rewrapped(job, options, origin, doc)
    ensures ReadKv(job.suite, publicKey, doc, handle, keys).ToOption()
         == if FinalParts(job, options, origin, publicKey) && AdmitsMember(job.targets, handle, keys)
            then Some(origin.values) else None
  {
    FinalLoadsExactly(job, options, origin, publicKey, doc);
    assert LoadsAs(job, publicKey, doc);
    TargetsRecoverExactly(job, origin, doc, Reencrypts(job, options), handle, keys);
    if FinalParts(job, options, origin, publicKey) {
      var masterKey: Key, n: nat :| HoldsUnder(job, origin, doc, Reencrypts(job, options), masterKey, n);
      FinalLinesAre(job, options, origin, doc, masterKey);
      LinesPermuted(LinesOf(doc.body.entries), FinalLines(job, options, origin));
      LoadedEntriesFit(job.suite, masterKey, doc.body.head.sid, doc.body.entries, origin.values);
    }
  }
}

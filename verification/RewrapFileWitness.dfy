/** Files the code can be given that an addition makes unreadable. */
module RewrapFileWitness {
  import opened Limits
  import opened Wrappers
  import opened Bits
  import opened Wire
  import opened Disclosure
  import opened Primitives
  import opened Envelope
  import opened EnvelopeProofs
  import opened FileEnvelope
  import opened FileEnvelopeProofs
  import opened JsonText
  import opened WireText
  import opened PartText
  import opened FileText
  import opened FileTextProofs
  import opened RewrapPlan
  import opened RewrapSteps
  import opened RewrapFile
  import opened RewrapFileProofs
  import opened Witnesses
  import JsonGrammar

  /** A freshly written file for the members, with a removal history, and a rewrap for the targets. */
  datatype Setting = Setting(suite: Suite, dir: Directory, entropy: Entropy, members: seq<Member>,
                             targets: seq<Member>, operator: Member, keys: KeyContext, publicKey: Node,
                             content: Bytes, history: History, now: string)

  ghost predicate AreRecipients(s: Setting, members: seq<Member>) {
    1 <= |members| <= MAX_WRAP_ITEMS && VerifiedMembers(s.suite, s.dir, members) && s.operator in members
  }

  ghost predicate IsSetting(s: Setting) {
    Ideal(s.suite) && AreRecipients(s, s.members) && AreRecipients(s, s.targets)
    && KeysMatch(s.suite, s.dir, s.keys) && Selectable(s.keys, s.operator.handle, s.operator.kid)
    && IsModestSigner(s.suite.texts, SignerOf(s)) && |s.content| <= MAX_PLAINTEXT_INPUT_SIZE
    && HistoryPasses(s.suite.texts, Some(s.history)) && ModestDates(Some(s.history))
    && IsTimestamp(s.now) && |s.now| <= MODEST_DATE_LENGTH
  }

  function SignerOf(s: Setting): Signer {
    Signer(s.operator.kid, s.publicKey)
  }

  /** A sound file for the setting's members, with its history. */
  ghost predicate IsWrittenAs(s: Setting, doc: FileDocument, masterKey: Key) {
    SoundDocument(s.suite, s.dir, doc, masterKey, s.content)
    && WrapsFor(s.suite, s.dir, doc.protected.wrap, s.members, doc.protected.sid, File, masterKey)
    && doc.protected.removedRecipients == Some(s.history) && doc.signature.kid == s.operator.kid
    && doc.protected.createdAt == doc.protected.updatedAt == s.now
  }

  lemma Written(s: Setting) returns (doc: FileDocument, masterKey: Key)
    requires IsSetting(s)
    ensures IsWrittenAs(s, doc, masterKey)
  {
    EncryptedDocumentIsSound(s.suite, s.dir, s.entropy, s.content, s.members, s.operator.kid, s.now);
    var first := EncryptFileDocument(s.suite, s.entropy, s.content, MemberHandles(s.members), s.members,
                                      s.operator.kid, s.now).value;
    masterKey := s.entropy.keys(1);
    doc := SignFile(s.suite, first.protected.(removedRecipients := Some(s.history)), masterKey, s.operator.kid);
  }

  /** A rewrap of the setting's file for its targets, as the theorems want it. */
  ghost predicate IsRewrapOf(s: Setting, job: Job, origin: Origin) {
    Fair(job, origin) && Admitted(job) && IsWrittenAs(s, job.verified, origin.masterKey)
    && job.suite == s.suite && job.targets == s.targets && origin.dir == s.dir && origin.content == s.content
    && job.signerKid == s.operator.kid && job.now == s.now
  }

  lemma RewrapOf(s: Setting) returns (job: Job, origin: Origin)
    requires IsSetting(s)
    ensures IsRewrapOf(s, job, origin)
  {
    var doc, masterKey := Written(s);
    job := Job(s.suite, s.entropy, doc, s.operator.handle, s.keys, s.targets, s.operator.kid, s.now);
    origin := Origin(s.dir, masterKey, s.content);
    AmongMembers(s.members, s.operator, s.keys);
    AdmittedExactly(s.suite, s.dir, doc.protected.wrap, s.members, doc.protected.sid, File, masterKey,
                    s.operator.handle, s.keys);
  }

  /** Whether the file loads is a matter of the budget alone. */
  lemma FileLoadsIfRoom(s: Setting, job: Job, origin: Origin)
    requires IsSetting(s) && IsRewrapOf(s, job, origin)
    ensures LoadFile(s.suite.texts, s.publicKey, job.verified).Ok?
         == (FileCount(|s.members|, Some(s.history), s.publicKey) <= MAX_JSON_ELEMENTS)
  {
    SoundIsWellFormedFile(s.suite, s.dir, job.verified, origin.masterKey, s.content);
    FileLoadsExactly(s.suite.texts, s.publicKey, job.verified, |s.content|);
    AddressedHandles(s.suite, s.dir, job.verified.protected.wrap, s.members, job.verified.protected.sid, File,
                     origin.masterKey);
    MembersHaveHandles(s.suite, s.dir, s.members);
    BudgetDecides(s.suite.texts, SignerOf(s), MemberHandles(s.members), Some(s.history), |s.content|, s.now, s.now);
  }

  lemma NobodyIsRemoved(s: Setting, job: Job, origin: Origin, options: Options)
    requires Ideal(s.suite) && IsRewrapOf(s, job, origin) && s.members <= s.targets
    ensures !Removes(job.verified.protected.wrap, job.targets, options)
    ensures RecordedHistory(job, options) == Some(s.history)
  {
    var items := job.verified.protected.wrap;
    SetAcceptedExactly(s.suite.texts, items);
    AddressedHandles(s.suite, s.dir, items, s.members, job.verified.protected.sid, File, origin.masterKey);
    NobodyIsMissing(items, s.members, s.targets, options);
  }

  const ADD := Options(false, false)

  /**
   * For every number of recipients below a thousand, every content and every public key
   * that leave room for a removal record, there is a number of removal records with
   * which a file still loads, and after one more recipient is added, which no step of
   * the rewrap refuses, does not load any more.
   */
  lemma AdditionOutgrowsBudget(s: Setting, other: Member, doc: FileDocument) returns (job: Job, origin: Origin)
    requires IsSetting(s) && s.targets == s.members + [other] && s.history != []
    requires |s.history| == (12956 - 11 * |s.members| - NodeSize(s.publicKey)) / 7
    ensures IsRewrapOf(s, job, origin) && LoadFile(s.suite.texts, s.publicKey, job.verified).Ok?
    ensures Possible(job, origin, ADD) && !Rotates(job, ADD)
    ensures Rewrapped(job, ADD, origin, doc) ==> LoadFile(s.suite.texts, s.publicKey, doc).Err?
  {
    job, origin := RewrapOf(s);
    FileLoadsIfRoom(s, job, origin);
    RemovalsFitExactly(|s.members|, s.history, s.publicKey);
    NobodyIsRemoved(s, job, origin, ADD);
    if Rewrapped(job, ADD, origin, doc) {
      HistoryOutgrowsBudget(job, ADD, origin, s.publicKey, doc);
    }
  }

  lemma SomeSigner(texts: Texts, kid: string) returns (publicKey: Node)
    requires texts.kid(kid).Ok?
    ensures IsModestSigner(texts, Signer(kid, publicKey)) && NodeSize(publicKey) == 0
  {
    publicKey := Leaf(JsonGrammar.Word("null"));
  }

  /** The premises of the witness can be met, by any content within the limit. */
  lemma SettingsExist(content: Bytes) returns (s: Setting, other: Member)
    requires |content| <= MAX_PLAINTEXT_INPUT_SIZE
    ensures IsSetting(s) && s.targets == s.members + [other] && s.history != [] && s.content == content
    ensures |s.history| == (12956 - 11 * |s.members| - NodeSize(s.publicKey)) / 7
  {
    var key: Key, nonce: Nonce := Zeros(32), Zeros(24);
    var suite, dir, a, b, keys := SomeMembers(key);
    var now := SomeDate();
    var publicKey := SomeSigner(suite.texts, a.kid);
    var history := SomeHistory(suite.texts, b, 1849, now);
    var entropy := Entropy((n: nat) => key, (n: nat) => nonce, (n: nat) => 0, (values: Values) => []);
    s := Setting(suite, dir, entropy, [a], [a, b], a, keys, publicKey, content, history, now);
    other := b;
  }
}

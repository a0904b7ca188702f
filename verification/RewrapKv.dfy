/** Rewrapping a key-value document, which removal and rotation re-encrypt from scratch. */
module RewrapKv {
  import opened Limits
  import opened Wrappers
  import opened Seqs
  import opened Wire
  import opened Disclosure
  import opened DisclosureRuns
  import opened Primitives
  import opened Envelope
  import opened EnvelopeProofs
  import opened KvTextProofs
  import opened KvEnvelope
  import opened KvEnvelopeProofs
  import opened Recipients
  import opened RecipientProofs
  import opened RewrapPlan
  import opened RewrapPlanProofs
  import opened RewrapSteps

  /**
   * A document that was loaded, who rewraps and signs it, and for whom. `load` reads the
   * text of a document again; `fits` is whether the document's values, encrypted anew for
   * these handles with this history and flag, can be read again.
   */
  datatype Job = Job(suite: Suite, entropy: Entropy, verified: KvDocument, operator: string, keys: KeyContext,
                     targets: seq<Member>, signerKid: string, now: string, load: KvDocument -> Checked,
                     fits: (seq<string>, Option<History>, bool) -> bool)

  /** What the document stands for, and whose keys are whose. */
  datatype Origin = Origin(dir: Directory, masterKey: Key, values: Values)

  ghost predicate AllText(suite: Suite, values: Values) {
    forall k :: k in values ==> suite.isUtf8(values[k])
  }

  /** The document is the values encrypted for the members by this job. */
  ghost predicate IsReencryption(job: Job, origin: Origin, doc: KvDocument, masterKey: Key, members: seq<Member>,
                                 disclosed: bool)
  {
    AddressedKv(job.suite, origin.dir, doc, masterKey, members, origin.values)
    && IsWrittenFor(doc.body.entries, job.entropy.iterate(origin.values), disclosed)
    && doc.signature.kid == job.signerKid && doc.body.head.createdAt == doc.body.head.updatedAt == job.now
  }

  /** Such a document loads if, and only if, it fits. */
  ghost predicate LoadsIfFits(job: Job, origin: Origin, doc: KvDocument, masterKey: Key, members: seq<Member>,
                              disclosed: bool)
  {
    IsReencryption(job, origin, doc, masterKey, members, disclosed) ==>
      job.load(doc).Ok? == job.fits(MemberHandles(members), doc.body.wrap.removedRecipients, disclosed)
  }

  /** Whether it fits does not depend on the order of the handles. */
  ghost predicate FitsInAnyOrder(job: Job, a: seq<string>, b: seq<string>, history: Option<History>, disclosed: bool) {
    multiset(a) == multiset(b) ==> job.fits(a, history, disclosed) == job.fits(b, history, disclosed)
  }

  /** What a rewrap relies on of the loader; RewrapKvText shows that the loader of KvText keeps it. */
  ghost predicate KnowsWhatLoads(job: Job, origin: Origin) {
    (forall doc: KvDocument, masterKey: Key, members: seq<Member>, disclosed: bool ::
       LoadsIfFits(job, origin, doc, masterKey, members, disclosed))
    && (forall a: seq<string>, b: seq<string>, history: Option<History>, disclosed: bool ::
          FitsInAnyOrder(job, a, b, history, disclosed))
  }

  ghost predicate Fair(job: Job, origin: Origin) {
    Ideal(job.suite) && Iterates(job.entropy) && VerifiedMembers(job.suite, origin.dir, job.targets)
    && SoundKvDocument(job.suite, origin.dir, job.verified, origin.masterKey, origin.values)
    && KeysMatch(job.suite, origin.dir, job.keys)
    && KnowsWhatLoads(job, origin) && DistinctEntryKeys(job.verified.body.entries)
  }

  /** The operator can open this document. */
  ghost predicate AdmittedTo(job: Job, doc: KvDocument) {
    Admits(doc.body.wrap.wrap, job.operator, job.keys)
  }

  /** The draft has the session's document id, algorithm and date. */
  ghost predicate DraftOf(draft: KvBody, session: KvDocument) {
    draft.head.sid == session.body.head.sid && draft.head.aead == session.body.head.aead
    && draft.head.createdAt == session.body.head.createdAt
  }

  /** What every step keeps: the session is sound, and so is the draft made from it. */
  ghost predicate Holds(job: Job, origin: Origin, session: KvDocument, draft: KvBody, masterKey: Key) {
    SoundKvDocument(job.suite, origin.dir, session, masterKey, origin.values)
    && DraftOf(draft, session)
    && SoundWraps(job.suite, origin.dir, draft.wrap.wrap, draft.head.sid, Kv, masterKey)
    && EntriesHold(job.suite, masterKey, draft.head.sid, draft.entries, origin.values)
    && DistinctEntryKeys(draft.entries)
  }

  /** The document id and the master key are this rewrap's draws from the `n`-th on, and the date is its own. */
  ghost predicate IsAnew(job: Job, head: KvHeader, masterKey: Key, n: nat) {
    head.createdAt == job.now && job.entropy.uuids(n) == head.sid && job.entropy.keys(n + 1) == masterKey
  }

  /** Each entry has a nonce of its own among the draws that follow those for `wraps` wraps. */
  ghost predicate HasFreshNonces(job: Job, values: Values, entries: seq<KvEntry>, n: nat) {
    exists wraps: nat ::
      TakesNonces(job.suite, job.entropy, EntryDraw(n, wraps), entries, job.entropy.iterate(values))
  }

  /**
   * The document is sound and holds the same values: with an id and a key drawn for
   * this rewrap, and every entry under a nonce drawn for it, if it was re-encrypted,
   * and otherwise with those it had.
   */
  ghost predicate HoldsUnder(job: Job, origin: Origin, doc: KvDocument, reencrypted: bool, masterKey: Key, n: nat) {
    SoundKvDocument(job.suite, origin.dir, doc, masterKey, origin.values) && DistinctEntryKeys(doc.body.entries)
    && if reencrypted then IsAnew(job, doc.body.head, masterKey, n)
                           && HasFreshNonces(job, origin.values, doc.body.entries, n)
       else masterKey == origin.masterKey && DraftOf(doc.body, job.verified)
  }

  ghost predicate StillHolds(job: Job, origin: Origin, doc: KvDocument, reencrypted: bool) {
    exists masterKey: Key, n: nat :: HoldsUnder(job, origin, doc, reencrypted, masterKey, n)
  }

  /** The text this document is written to can be read again. */
  ghost predicate LoadsAgain(job: Job, doc: KvDocument) {
    job.load(doc).Ok?
  }

  /** Whether the values can be read back and written again. */
  ghost predicate Rewritable(job: Job, origin: Origin) {
    AllFit(origin.values) && AllText(job.suite, origin.values)
  }

  // ---- pieces ---------------------------------------------------------------------------

  /** `decode_decrypted_kv_values`: every value must be text. */
  function DecodeValues(suite: Suite, values: Values): Result<Values, EnvelopeError> {
    if forall k :: k in values ==> suite.isUtf8(values[k]) then Ok(values) else Err(InvalidUtf8)
  }

  function AnyDisclosed(entries: seq<KvEntry>): bool {
    exists i :: 0 <= i < |entries| && entries[i].value.disclosed
  }

  function WithoutFlag(entry: KvEntry): KvEntry {
    entry.(value := entry.value.(disclosed := false))
  }

  /** The removals recorded in an empty history, then what the old history adds to them. */
  function MergedHistory(oldWrap: KvWrap, removed: seq<string>, now: string): Option<History> {
    Merged(Recorded(None, ToRemove(oldWrap.wrap, removed), now), oldWrap.removedRecipients)
  }

  /** The history of the fresh wrap, carried over or not. */
  function RewrittenHistory(oldWrap: KvWrap, removed: seq<string>, preserve: bool, now: string): Option<History> {
    if preserve then MergedHistory(oldWrap, removed, now) else None
  }

  method MergeRemovedHistoryFromOld(oldWrap: KvWrap, removed: seq<string>, now: string)
    returns (history: Option<History>)
    ensures history == MergedHistory(oldWrap, removed, now)
  {
    var toRemove := CollectToRemove(oldWrap.wrap, removed);
    var recorded := RecordRemovals(None, toRemove, now);
    var merged := new RemovedHistory(recorded);
    merged.MergeRemovedHistory(oldWrap.removedRecipients);
    history := merged.recipients;
  }

  method ClearFlags(entries: seq<KvEntry>) returns (cleared: seq<KvEntry>)
    ensures |cleared| == |entries| && forall i :: 0 <= i < |entries| ==> cleared[i] == WithoutFlag(entries[i])
  {
    cleared := [];
    for i := 0 to |entries|
      invariant |cleared| == i && forall j :: 0 <= j < i ==> cleared[j] == WithoutFlag(entries[j])
    {
      cleared := cleared + [WithoutFlag(entries[i])];
    }
  }

  lemma ClearedHold(suite: Suite, masterKey: Key, sid: Uuid, entries: seq<KvEntry>, cleared: seq<KvEntry>,
                    values: Values)
    requires EntriesHold(suite, masterKey, sid, entries, values)
    requires |cleared| == |entries| && forall i :: 0 <= i < |entries| ==> cleared[i] == WithoutFlag(entries[i])
    ensures EntriesHold(suite, masterKey, sid, cleared, values) && AllDisclosed(cleared, false)
    ensures DistinctEntryKeys(entries) ==> DistinctEntryKeys(cleared)
  {
    var nonces :| EntriesUnder(suite, masterKey, sid, entries, values, nonces);
    forall i | 0 <= i < |cleared|
      ensures IsEntryOf(suite, masterKey, sid, cleared[i], values, nonces)
    {
      assert IsEntryOf(suite, masterKey, sid, entries[i], values, nonces);
    }
    forall k | k in values
      ensures HasEntry(cleared, k)
    {
      assert HasEntry(entries, k);
      var i :| 0 <= i < |entries| && entries[i].key == k;
      assert cleared[i].key == k;
    }
    assert EntriesUnder(suite, masterKey, sid, cleared, values, nonces);
  }

  lemma ClearedKeepNonces(job: Job, values: Values, entries: seq<KvEntry>, cleared: seq<KvEntry>, n: nat)
    requires HasFreshNonces(job, values, entries, n)
    requires |cleared| == |entries| && forall i :: 0 <= i < |entries| ==> cleared[i] == WithoutFlag(entries[i])
    ensures HasFreshNonces(job, values, cleared, n)
  {
    var pairs := job.entropy.iterate(values);
    var wraps: nat :| TakesNonces(job.suite, job.entropy, EntryDraw(n, wraps), entries, pairs);
    forall i | 0 <= i < |pairs|
      ensures TakesNonce(job.suite, job.entropy, EntryDraw(n, wraps) + i, cleared, pairs[i].key)
    {
      forall e | e in cleared && e.key == pairs[i].key
        ensures e.value.nonce == job.suite.texts.encode(job.entropy.nonces(EntryDraw(n, wraps) + i))
      {
        var j :| 0 <= j < |cleared| && cleared[j] == e;
        assert entries[j] in entries;
      }
    }
    assert TakesNonces(job.suite, job.entropy, EntryDraw(n, wraps), cleared, pairs);
  }

  // ---- re-encryption ------------------------------------------------------------------------

  /** A wrap for each of the handles in order and an entry for each value, and each of them has a draw of its own. */
  ghost predicate TakesDraws(job: Job, values: Values, doc: KvDocument, handles: seq<string>, drawn: nat) {
    Appends(job.suite, [], doc.body.wrap.wrap, handles, doc.body.head.sid, Kv, job.entropy.keys(drawn + 1), drawn + 2)
    && TakesNonces(job.suite, job.entropy, EntryDraw(drawn, |handles|), doc.body.entries, job.entropy.iterate(values))
  }

  /** The values of the session for new recipients: a fresh document id, key, wraps and entries. */
  method RewrapWithRecipients(job: Job, ghost origin: Origin, session: KvDocument, ghost masterKey: Key, drawn: nat,
                              newRecipients: seq<string>, removed: seq<string>, disclosed: bool,
                              preserveHistory: bool) returns (r: Result<KvDocument, EnvelopeError>)
    requires Fair(job, origin) && NoRepeats(newRecipients)
    requires SoundKvDocument(job.suite, origin.dir, session, masterKey, origin.values)
    ensures r.Ok? <==> AdmittedTo(job, session) && Rewritable(job, origin) && AllMembers(job.targets, newRecipients)
                       && |newRecipients| <= MAX_WRAP_ITEMS
    ensures !AllMembers(job.targets, newRecipients) ==> r == Err(MemberNotFound)
    ensures (AllMembers(job.targets, newRecipients) && AdmittedTo(job, session) && AllFit(origin.values)
             && !AllText(job.suite, origin.values)) ==> r == Err(InvalidUtf8)
    ensures r.Ok? ==> HoldsUnder(job, origin, r.value, true, job.entropy.keys(drawn + 1), drawn)
                      && DistinctHandles(r.value.body.wrap.wrap)
                      && Addressees(r.value.body.wrap.wrap) == Among(job.targets, newRecipients)
                      && HandlesOf(r.value.body.wrap.wrap) == newRecipients
                      && TakesDraws(job, origin.values, r.value, newRecipients, drawn)
                      && AllDisclosed(r.value.body.entries, disclosed)
                      && r.value.body.wrap.removedRecipients
                         == RewrittenHistory(session.body.wrap, removed, preserveHistory, job.now)
                      && LoadsAgain(job, r.value)
                         == job.fits(newRecipients,
                                    RewrittenHistory(session.body.wrap, removed, preserveHistory, job.now), disclosed)
  {
    ResolvedExactly(job.suite, origin.dir, job.targets, newRecipients);
    ResolvedHandles(job.targets, newRecipients);
    MapDecryptsExactly(job.suite, origin.dir, session, masterKey, origin.values, job.operator, job.keys);
    var members := ResolveSnapshot(job.targets, newRecipients);
    if members.Err? {
      UnresolvedIsUnknown(job.targets, newRecipients, |newRecipients|);
      return Err(members.error);
    }
    var decrypted := DecryptKv(job.suite, session, job.operator, job.keys);
    if decrypted.Err? {
      return Err(decrypted.error);
    }
    var values := DecodeValues(job.suite, decrypted.value);
    if values.Err? {
      return Err(values.error);
    }
    var history: Option<History> := None;
    if preserveHistory {
      history := MergeRemovedHistoryFromOld(session.body.wrap, removed, job.now);
    }
    r := EncryptKvMap(job.suite, job.entropy, drawn, values.value, members.value, job.signerKid, job.now, disclosed,
                      history, origin.dir);
    if r.Ok? {
      AddressedAre(job.suite, origin.dir, r.value, job.entropy.keys(drawn + 1), members.value, origin.values);
      assert LoadsIfFits(job, origin, r.value, job.entropy.keys(drawn + 1), members.value, disclosed);
    }
  }

  lemma AddressedAre(suite: Suite, dir: Directory, doc: KvDocument, masterKey: Key, members: seq<Member>,
                     values: Values)
    requires AddressedKv(suite, dir, doc, masterKey, members, values) && DistinctMembers(members)
    ensures SoundKvDocument(suite, dir, doc, masterKey, values)
    ensures DistinctHandles(doc.body.wrap.wrap) && Addressees(doc.body.wrap.wrap) == AddresseesOf(members)
  {
    BuiltSound(suite, dir, doc.body.wrap.wrap, members, doc.body.head.sid, Kv, masterKey);
  }

  method AddKvRecipients(job: Job, ghost origin: Origin, sid: Uuid, wrap: KvWrap, recipients: seq<string>,
                         masterKey: Key, drawn: nat) returns (r: Result<KvWrap, EnvelopeError>)
    requires Fair(job, origin) && NoRepeats(recipients)
    requires SoundWraps(job.suite, origin.dir, wrap.wrap, sid, Kv, masterKey)
    ensures r.Ok? <==> AllMembers(job.targets, recipients) && HasRoom(job.targets, recipients, wrap.wrap)
    ensures r.Ok? ==> Appends(job.suite, wrap.wrap, r.value.wrap, Minus(recipients, HandlesOf(wrap.wrap)), sid, Kv,
                              masterKey, drawn)
    ensures r.Ok? ==> r.value.removedRecipients == wrap.removedRecipients && wrap.wrap <= r.value.wrap
                      && SoundWraps(job.suite, origin.dir, r.value.wrap, sid, Kv, masterKey)
                      && Addressees(r.value.wrap)
                         == Addressees(wrap.wrap) + Fresh(job.targets, recipients, wrap.wrap)
  {
    AddedExactly(job.suite, origin.dir, job.targets, wrap.wrap, recipients, drawn, sid, Kv, masterKey);
    var items := BuildNewWrapItems(job.suite, drawn, HandlesOf(wrap.wrap), |wrap.wrap|, recipients, job.targets, sid,
                                   masterKey, Kv);
    if items.Err? {
      return Err(items.error);
    }
    AddedInOrder(job.suite, job.targets, wrap.wrap, recipients, drawn, sid, Kv, masterKey, items.value);
    return Ok(wrap.(wrap := wrap.wrap + items.value));
  }

  /** A document made from the session stands for what the session stands for, in the same way. */
  lemma SignedStillHolds(job: Job, origin: Origin, session: KvDocument, doc: KvDocument, masterKey: Key, rotated: bool,
                         n: nat)
    requires SoundKvDocument(job.suite, origin.dir, doc, masterKey, origin.values) && DraftOf(doc.body, session)
    requires DistinctEntryKeys(doc.body.entries)
    requires if rotated then IsAnew(job, session.body.head, masterKey, n)
                             && HasFreshNonces(job, origin.values, doc.body.entries, n)
             else session == job.verified && masterKey == origin.masterKey
    ensures StillHolds(job, origin, doc, rotated)
  {
    assert HoldsUnder(job, origin, doc, rotated, masterKey, n);
  }

  class KvRewrapExecutor {
    const job: Job
    ghost const origin: Origin
    var session: KvDocument
    var draft: KvBody
    var rotated: bool
    var drawn: nat
    ghost var masterKey: Key
    /** The draw the session's id and key come from, once it has been re-encrypted. */
    ghost var keyDraw: nat

    ghost predicate Valid()
      reads this
    {
      Fair(job, origin) && Holds(job, origin, session, draft, masterKey)
      && if rotated then IsAnew(job, session.body.head, masterKey, keyDraw)
                         && HasFreshNonces(job, origin.values, draft.entries, keyDraw)
         else session == job.verified && masterKey == origin.masterKey
    }

    constructor (job: Job, ghost origin: Origin)
      requires Fair(job, origin)
      ensures Valid() && this.job == job && this.origin == origin && !rotated
      ensures session == job.verified && draft == job.verified.body
    {
      this.job := job;
      this.origin := origin;
      session := job.verified;
      draft := job.verified.body;
      rotated := false;
      drawn := 0;
      masterKey := origin.masterKey;
      new;
      SetAcceptedExactly(job.suite.texts, draft.wrap.wrap);
    }

    method UnwrapMasterKey() returns (r: Result<Key, EnvelopeError>)
      requires Valid()
      ensures r.ToOption() == if AdmittedTo(job, session) then Some(masterKey) else None
    {
      KvKeyOpensExactly(job.suite, origin.dir, session, masterKey, origin.values, job.operator, job.keys);
      r := OpenKvKey(job.suite, session, job.operator, job.keys);
    }

    /** Sound wraps for the draft, and a new date. */
    method SetWraps(wrap: KvWrap)
      requires Valid() && SoundWraps(job.suite, origin.dir, wrap.wrap, draft.head.sid, Kv, masterKey)
      modifies this`draft
      ensures Valid() && draft.wrap == wrap && draft.entries == old(draft.entries)
              && draft.head.sid == old(draft.head.sid)
    {
      draft := draft.(head := draft.head.(updatedAt := job.now), wrap := wrap);
    }

    method AddRecipients(recipients: seq<string>) returns (r: Checked)
      requires Valid() && NoRepeats(recipients)
      modifies this`draft, this`drawn
      ensures r.Ok? <==> AdmittedTo(job, session) && AllMembers(job.targets, recipients)
                         && HasRoom(job.targets, recipients, old(draft.wrap.wrap))
      ensures r.Ok? ==> Addressees(draft.wrap.wrap)
                        == Addressees(old(draft.wrap.wrap)) + Fresh(job.targets, recipients, old(draft.wrap.wrap))
      ensures r.Ok? ==> Appends(job.suite, old(draft.wrap.wrap), draft.wrap.wrap,
                                Minus(recipients, HandlesOf(old(draft.wrap.wrap))), draft.head.sid, Kv, masterKey,
                                old(drawn))
      ensures r.Ok? ==> drawn == old(drawn) + |recipients|
      ensures r.Ok? ==> Valid() && draft.entries == old(draft.entries)
                        && draft.wrap.removedRecipients == old(draft.wrap.removedRecipients)
    {
      var key := UnwrapMasterKey();
      if key.Err? {
        return Err(key.error);
      }
      var wrap := AddKvRecipients(job, origin, draft.head.sid, draft.wrap, recipients, key.value, drawn);
      if wrap.Err? {
        return Err(wrap.error);
      }
      drawn := drawn + |recipients|;
      SetWraps(wrap.value);
      return Ok(());
    }

    method RewriteRecipientWraps(recipients: seq<string>) returns (r: Checked)
      requires Valid() && NoRepeats(recipients)
      modifies this`draft, this`drawn
      ensures r.Ok? <==> AdmittedTo(job, session) && AllMembers(job.targets, recipients)
      ensures r.Ok? ==> Addressees(draft.wrap.wrap)
                        == (set a | a in Addressees(old(draft.wrap.wrap)) && a.handle !in recipients)
                           + Among(job.targets, recipients)
      ensures r.Ok? ==> Appends(job.suite, Without(old(draft.wrap.wrap), recipients), draft.wrap.wrap, recipients,
                                draft.head.sid, Kv, masterKey, old(drawn))
      ensures r.Ok? ==> drawn == old(drawn) + |recipients|
      ensures r.Ok? ==> Valid() && draft.entries == old(draft.entries)
                        && draft.wrap.removedRecipients == old(draft.wrap.removedRecipients)
    {
      var key := UnwrapMasterKey();
      if key.Err? {
        return Err(key.error);
      }
      ReplacedExactly(job.suite, origin.dir, job.targets, draft.wrap.wrap, recipients, drawn, draft.head.sid, Kv,
                      key.value);
      var items := ReplaceRecipientWrapItems(job.suite, drawn, draft.wrap.wrap, recipients, job.targets,
                                             draft.head.sid, key.value, Kv);
      if items.Err? {
        return Err(items.error);
      }
      ghost var kept := Without(draft.wrap.wrap, recipients);
      ReplacedInOrder(job.suite, job.targets, kept, recipients, drawn, draft.head.sid, Kv, key.value,
                      items.value[|kept|..]);
      drawn := drawn + |recipients|;
      SetWraps(draft.wrap.(wrap := items.value));
      return Ok(());
    }

    /**
     * Load the text of the re-encrypted document and take it as the new session. A
     * text that is refused leaves everything as it was.
     */
    method RebuildFromContent(content: KvDocument, ghost key: Key, ghost n: nat) returns (r: Checked)
      requires Valid() && HoldsUnder(job, origin, content, true, key, n)
      modifies this
      ensures r.Ok? == LoadsAgain(job, content)
      ensures r.Ok? ==> Valid() && rotated && session == content && draft == content.body
                        && drawn == EntryDraw(old(drawn), |content.body.wrap.wrap|) + |content.body.entries|
      ensures r.Err? ==> rotated == old(rotated) && session == old(session) && draft == old(draft)
    {
      r := job.load(content);
      if r.Err? {
        return;
      }
      session := content;
      draft := content.body;
      rotated := true;
      drawn := EntryDraw(drawn, |content.body.wrap.wrap|) + |content.body.entries|;
      masterKey, keyDraw := key, n;
      SetAcceptedExactly(job.suite.texts, draft.wrap.wrap);
    }

    /** The session's values for these recipients, encrypted anew and loaded again. */
    method Reencrypt(recipients: seq<string>, removed: seq<string>, disclosed: bool, preserveHistory: bool)
      returns (r: Checked)
      requires Valid() && NoRepeats(recipients)
      modifies this
      ensures r.Ok? <==> AdmittedTo(job, old(session)) && Rewritable(job, origin)
                         && AllMembers(job.targets, recipients) && |recipients| <= MAX_WRAP_ITEMS
                         && job.fits(recipients,
                                    RewrittenHistory(old(session).body.wrap, removed, preserveHistory, job.now),
                                    disclosed)
      ensures r.Ok? ==> Valid() && rotated && draft == session.body && DistinctHandles(draft.wrap.wrap)
                        && Addressees(draft.wrap.wrap) == Among(job.targets, recipients)
                        && HandlesOf(draft.wrap.wrap) == recipients
                        && draft.wrap.removedRecipients
                           == RewrittenHistory(old(session).body.wrap, removed, preserveHistory, job.now)
                        && AllDisclosed(draft.entries, disclosed)
      ensures r.Ok? ==> TakesDraws(job, origin.values, session, recipients, old(drawn))
                        && drawn == EntryDraw(old(drawn), |recipients|) + |draft.entries|
    {
      var content := RewrapWithRecipients(job, origin, session, masterKey, drawn, recipients, removed, disclosed,
                                          preserveHistory);
      if content.Err? {
        return Err(content.error);
      }
      r := RebuildFromContent(content.value, job.entropy.keys(drawn + 1), drawn);
    }

    method RemoveRecipients(recipients: seq<string>) returns (r: Checked)
      requires Valid()
      modifies this
      ensures var kept := Remaining(old(draft.wrap.wrap), recipients);
              r.Ok? <==> kept != {} && AdmittedTo(job, old(session)) && Rewritable(job, origin)
                         && AllAreMembers(job.targets, kept) && |kept| <= MAX_WRAP_ITEMS
                         && job.fits(HandlesOf(Without(old(draft.wrap.wrap), recipients)),
                                    MergedHistory(old(session).body.wrap, recipients, job.now), true)
      ensures r.Ok? ==> Valid() && rotated && draft == session.body
                        && DistinctHandles(draft.wrap.wrap)
                        && Addressees(draft.wrap.wrap)
                           == Renewed(job.targets, Remaining(old(draft.wrap.wrap), recipients))
                        && draft.wrap.removedRecipients == MergedHistory(old(session).body.wrap, recipients, job.now)
                        && AllDisclosed(draft.entries, true)
      ensures Remaining(old(draft.wrap.wrap), recipients) == {} ==> r == Err(NoRecipientsLeft)
      ensures r.Ok? ==> HandlesOf(draft.wrap.wrap) == Minus(HandlesOf(old(draft.wrap.wrap)), recipients)
    {
      WithoutSound(job.suite, origin.dir, draft.wrap.wrap, recipients, draft.head.sid, Kv, masterKey);
      HandlesWithout(draft.wrap.wrap, recipients);
      var kept := Without(draft.wrap.wrap, recipients);
      DistinctAreNoRepeats(kept);
      AddresseesCount(kept);
      AmongHandles(job.targets, kept);
      assert Addressees(kept) == Remaining(draft.wrap.wrap, recipients);
      var current := HandlesOf(kept);
      if current == [] {
        return Err(NoRecipientsLeft);
      }
      assert kept[0] in kept;
      r := Reencrypt(current, recipients, true, true);
    }

    method RotateKey() returns (r: Checked)
      requires Valid()
      modifies this
      ensures old(rotated) ==> r == Ok(()) && session == old(session) && draft == old(draft)
      ensures !old(rotated) ==>
                (r.Ok? <==> AdmittedTo(job, old(session)) && Rewritable(job, origin)
                            && AllMembers(job.targets, HandlesOf(old(draft.wrap.wrap)))
                            && old(|draft.wrap.wrap|) <= MAX_WRAP_ITEMS
                            && job.fits(HandlesOf(old(draft.wrap.wrap)), None,
                                       AnyDisclosed(old(session).body.entries)))
      ensures r.Ok? && !old(rotated) ==>
                draft == session.body && DistinctHandles(draft.wrap.wrap)
                && Addressees(draft.wrap.wrap) == Among(job.targets, HandlesOf(old(draft.wrap.wrap)))
                && draft.wrap.removedRecipients == None
                && AllDisclosed(draft.entries, AnyDisclosed(old(session).body.entries))
                && HandlesOf(draft.wrap.wrap) == HandlesOf(old(draft.wrap.wrap))
      ensures r.Ok? ==> Valid() && rotated
    {
      if rotated {
        return Ok(());
      }
      DistinctAreNoRepeats(draft.wrap.wrap);
      AddresseesCount(draft.wrap.wrap);
      var current := HandlesOf(draft.wrap.wrap);
      r := Reencrypt(current, [], AnyDisclosed(session.body.entries), false);
    }

    method ClearDisclosureHistory() returns (r: Checked)
      requires Valid()
      modifies this`draft
      ensures Valid() && r == Ok(()) && AllDisclosed(draft.entries, false) && draft.wrap.removedRecipients == None
      ensures draft.wrap.wrap == old(draft.wrap.wrap) && draft.head == old(draft.head)
    {
      var cleared := ClearFlags(draft.entries);
      ClearedHold(job.suite, masterKey, draft.head.sid, draft.entries, cleared, origin.values);
      if rotated {
        ClearedKeepNonces(job, origin.values, draft.entries, cleared, keyDraw);
      }
      draft := draft.(wrap := draft.wrap.(removedRecipients := None), entries := cleared);
      return Ok(());
    }

    /** The signed document; the operator must be able to open the session it came from. */
    method Finalize(ghost reencrypted: bool) returns (r: Result<KvDocument, EnvelopeError>)
      requires Valid() && |draft.wrap.wrap| <= MAX_WRAP_ITEMS && reencrypted == rotated
      modifies this`draft
      ensures r.Ok? <==> AdmittedTo(job, session)
      ensures r.Ok? ==> r.value.body == old(draft).(head := old(draft).head.(updatedAt := job.now))
                        && r.value.signature.kid == job.signerKid
                        && SoundKvDocument(job.suite, origin.dir, r.value, masterKey, origin.values)
      ensures r.Ok? ==> StillHolds(job, origin, r.value, reencrypted)
    {
      draft := draft.(head := draft.head.(updatedAt := job.now));
      var key := UnwrapMasterKey();
      if key.Err? {
        return Err(key.error);
      }
      SoundWrapsAreAccepted(job.suite, origin.dir, draft.wrap.wrap, draft.head.sid, Kv, masterKey);
      r := Ok(SignKv(job.suite, draft, key.value, job.signerKid));
      SignedStillHolds(job, origin, session, r.value, masterKey, rotated, keyDraw);
    }
  }

  // ---- the whole rewrap -----------------------------------------------------------------

  ghost predicate Reencrypts(job: Job, options: Options) {
    Removes(job.verified.body.wrap.wrap, job.targets, options) || options.rotateKey
  }

  /** The document re-encrypted for those who stay can be read again. */
  ghost predicate ReloadsAfterRemoval(job: Job, options: Options) {
    var wrap := job.verified.body.wrap;
    var remove := PlanFor(wrap.wrap, job.targets, options).remove;
    job.fits(HandlesOf(Without(wrap.wrap, remove)), MergedHistory(wrap, remove, job.now), true)
  }

  /** What it takes to re-encrypt the document for those who stay. */
  ghost predicate RemovalPossible(job: Job, origin: Origin, options: Options) {
    Rewritable(job, origin) && SomebodyStays(job.verified.body.wrap.wrap, job.targets, options)
    && ReloadsAfterRemoval(job, options)
  }

  /** The document re-encrypted for the targets, nobody being removed, can be read again. */
  ghost predicate ReloadsAfterRotation(job: Job) {
    job.fits(MemberHandles(job.targets), None, AnyDisclosed(job.verified.body.entries))
  }

  /**
   * Somebody stays if anybody goes, the targets fit, and what is re-encrypted can be
   * read before and after.
   */
  ghost predicate Possible(job: Job, origin: Origin, options: Options) {
    var items := job.verified.body.wrap.wrap;
    && (Removes(items, job.targets, options) ==> SomebodyStays(items, job.targets, options))
    && |job.targets| <= MAX_WRAP_ITEMS
    && (Reencrypts(job, options) ==> Rewritable(job, origin))
    && (Removes(items, job.targets, options) ==> ReloadsAfterRemoval(job, options))
    && (options.rotateKey && !Removes(items, job.targets, options) ==> ReloadsAfterRotation(job))
  }

  /** The operator can still open the document once it is addressed to the targets. */
  ghost predicate OperatorStays(job: Job) {
    AdmitsMember(job.targets, job.operator, job.keys)
  }

  ghost function HistoryAfterRemovals(job: Job, options: Options): Option<History> {
    var wrap := job.verified.body.wrap;
    if Removes(wrap.wrap, job.targets, options)
    then MergedHistory(wrap, PlanFor(wrap.wrap, job.targets, options).remove, job.now)
    else wrap.removedRecipients
  }

  /** Those who stay include the operator exactly when the operator is a target with a key at hand. */
  lemma StayingOperatorIsAdmitted(job: Job, options: Options, session: KvDocument)
    requires DistinctHandles(job.verified.body.wrap.wrap) && DistinctMembers(job.targets)
    requires Addressees(session.body.wrap.wrap)
          == Renewed(job.targets, Remaining(job.verified.body.wrap.wrap,
                                            PlanFor(job.verified.body.wrap.wrap, job.targets, options).remove))
    requires AdmittedTo(job, job.verified)
    ensures AdmittedTo(job, session) <==> OperatorStays(job)
  {
    var items := job.verified.body.wrap.wrap;
    PlanIs(items, job.targets, options);
    var kept := Remaining(items, PlanFor(items, job.targets, options).remove);
    AdmitsAddressees(session.body.wrap.wrap, job.operator, job.keys);
    AdmitsMemberAddressees(job.targets, job.operator, job.keys);
    AdmitsAddressees(items, job.operator, job.keys);
    var own :| own in Addressees(items) && own.handle == job.operator && Selectable(job.keys, job.operator, own.kid);
    HandlesAre(items, own);
    if OperatorStays(job) {
      HasMember(job.targets, job.operator);
      assert own in kept && HasOneOf(kept, job.operator);
    }
  }

  lemma OriginalWraps(job: Job, origin: Origin)
    requires Fair(job, origin)
    ensures DistinctHandles(job.verified.body.wrap.wrap) && |job.verified.body.wrap.wrap| <= MAX_WRAP_ITEMS
  {
    SetAcceptedExactly(job.suite.texts, job.verified.body.wrap.wrap);
  }

  lemma StayingAreTargets(items: seq<WrapItem>, targets: seq<Member>, options: Options)
    requires DistinctHandles(items) && DistinctMembers(targets)
    ensures var kept := Remaining(items, PlanFor(items, targets, options).remove);
            AllAreMembers(targets, kept) && |kept| <= |items|
  {
    var remove := PlanFor(items, targets, options).remove;
    var kept := Remaining(items, remove);
    PlanIs(items, targets, options);
    AddresseesCount(items);
    assert kept <= Addressees(items) && Addressees(items) == kept + (Addressees(items) - kept);
    forall a | a in kept
      ensures IsMember(targets, a.handle)
    {
      HandlesAre(items, a);
      assert a.handle !in remove;
    }
  }

  /** Those who stay are targets, and no more than there were, so removing the others asks nothing else. */
  lemma RemovalNeeds(job: Job, origin: Origin, options: Options)
    requires Fair(job, origin)
    ensures DistinctHandles(job.verified.body.wrap.wrap)
    ensures var wrap := job.verified.body.wrap;
            var remove := PlanFor(wrap.wrap, job.targets, options).remove;
            var kept := Remaining(wrap.wrap, remove);
            RemovalPossible(job, origin, options)
            <==> kept != {} && Rewritable(job, origin) && AllAreMembers(job.targets, kept) && |kept| <= MAX_WRAP_ITEMS
                 && job.fits(HandlesOf(Without(wrap.wrap, remove)), MergedHistory(wrap, remove, job.now), true)
  {
    OriginalWraps(job, origin);
    StayingAreTargets(job.verified.body.wrap.wrap, job.targets, options);
  }

  method ApplyRemovals(executor: KvRewrapExecutor, options: Options, plan: Plan) returns (r: Checked)
    requires executor.Valid() && !executor.rotated && executor.draft == executor.job.verified.body
    requires plan == PlanFor(executor.draft.wrap.wrap, executor.job.targets, options)
    modifies executor
    ensures r.Ok? == (plan.remove != [] ==>
                        AdmittedTo(executor.job, executor.job.verified)
                        && RemovalPossible(executor.job, executor.origin, options))
    ensures plan.remove == [] ==> executor.draft == old(executor.draft) && executor.session == old(executor.session)
    ensures r.Ok? && plan.remove != [] ==>
              (AdmittedTo(executor.job, executor.session) <==> OperatorStays(executor.job))
    ensures r.Ok? ==> HandlesOf(executor.draft.wrap.wrap)
                      == Minus(HandlesOf(executor.job.verified.body.wrap.wrap), plan.remove)
    ensures r.Ok? ==> executor.Valid() && (executor.rotated <==> plan.remove != [])
                      && executor.draft.wrap.removedRecipients == HistoryAfterRemovals(executor.job, options)
                      && Addressees(executor.draft.wrap.wrap)
                         == (if plan.remove == [] then Addressees(executor.job.verified.body.wrap.wrap)
                             else Renewed(executor.job.targets,
                                          Remaining(executor.job.verified.body.wrap.wrap, plan.remove)))
                      && (if plan.remove == [] then executor.draft == executor.job.verified.body
                          else AllDisclosed(executor.draft.entries, true))
  {
    if plan.remove == [] {
      MinusNone(HandlesOf(executor.draft.wrap.wrap), []);
      return Ok(());
    }
    RemovalNeeds(executor.job, executor.origin, options);
    r := executor.RemoveRecipients(plan.remove);
    if r.Ok? {
      StayingOperatorIsAdmitted(executor.job, options, executor.session);
    }
  }

  method ApplyRefreshes(executor: KvRewrapExecutor, options: Options, plan: Plan, ghost items: seq<WrapItem>)
    returns (r: Checked)
    requires executor.Valid() && DistinctHandles(items)
    requires plan == PlanFor(items, executor.job.targets, options)
    requires HandlesOf(executor.draft.wrap.wrap) == Minus(HandlesOf(items), plan.remove)
    requires Addressees(executor.draft.wrap.wrap)
          == if plan.remove == [] then Addressees(items)
             else Renewed(executor.job.targets, Remaining(items, plan.remove))
    modifies executor`draft, executor`drawn
    ensures AdmittedTo(executor.job, executor.session) ==> r.Ok?
    ensures r.Ok? ==> executor.Valid() && executor.draft.entries == old(executor.draft.entries)
                      && executor.draft.wrap.removedRecipients == old(executor.draft.wrap.removedRecipients)
                      && Addressees(executor.draft.wrap.wrap) == Renewed(executor.job.targets, Addressees(items))
                      && HandlesOf(executor.draft.wrap.wrap)
                         == HandlesAfterRefresh(items, executor.job.targets, options)
    ensures r.Ok? && old(executor.draft.wrap.wrap) == items ==>
              KeepsWraps(items, executor.job.targets, executor.draft.wrap.wrap)
  {
    StayersAreCurrent(items, executor.job.targets, options, Addressees(executor.draft.wrap.wrap));
    if plan.stale == [] {
      AllKept(items, executor.job.targets);
      NothingRefreshed(items, executor.job.targets, options);
      return Ok(());
    }
    ghost var wrap, draw := executor.draft.wrap.wrap, executor.drawn;
    r := executor.RewriteRecipientWraps(plan.stale);
    if r.Ok? {
      RefreshedInOrder(executor.job.suite, items, executor.job.targets, options, wrap, executor.draft.wrap.wrap,
                       executor.draft.head.sid, Kv, executor.masterKey, draw);
    }
  }

  method ApplyAdditions(executor: KvRewrapExecutor, options: Options, plan: Plan, ghost items: seq<WrapItem>)
    returns (r: Checked)
    requires executor.Valid() && DistinctHandles(items) && |items| <= MAX_WRAP_ITEMS
    requires plan == PlanFor(items, executor.job.targets, options)
    requires Addressees(executor.draft.wrap.wrap) == Renewed(executor.job.targets, Addressees(items))
    requires HandlesOf(executor.draft.wrap.wrap) == HandlesAfterRefresh(items, executor.job.targets, options)
    modifies executor`draft, executor`drawn
    ensures AdmittedTo(executor.job, executor.session) ==> (r.Ok? <==> |executor.job.targets| <= MAX_WRAP_ITEMS)
    ensures r.Ok? ==> executor.Valid() && |executor.job.targets| <= MAX_WRAP_ITEMS
                      && Reaches(executor.job.targets, executor.draft.wrap.wrap)
                      && old(executor.draft.wrap.wrap) <= executor.draft.wrap.wrap
                      && HandlesOf(executor.draft.wrap.wrap) == FinalHandles(items, executor.job.targets, options)
                      && executor.draft.entries == old(executor.draft.entries)
                      && executor.draft.wrap.removedRecipients == old(executor.draft.wrap.removedRecipients)
  {
    AddingCompletes(items, executor.job.targets, options, executor.draft.wrap.wrap);
    if plan.add == [] {
      return Ok(());
    }
    ghost var wrap, draw := executor.draft.wrap.wrap, executor.drawn;
    r := executor.AddRecipients(plan.add);
    if r.Ok? {
      CompletedInOrder(executor.job.suite, items, executor.job.targets, options, wrap, executor.draft.wrap.wrap,
                       executor.draft.head.sid, Kv, executor.masterKey, draw);
      AllReached(executor.job.targets, executor.draft.wrap.wrap);
    }
  }

  /** What the entries look like after the removals, as far as their flags go. */
  ghost predicate EntriesAfter(job: Job, removed: bool, entries: seq<KvEntry>) {
    if removed then AllDisclosed(entries, true) else entries == job.verified.body.entries
  }

  /** The two steps that keep the key: refresh, then add. */
  method ApplyRefreshesAndAdditions(executor: KvRewrapExecutor, options: Options, plan: Plan)
    returns (r: Checked)
    requires executor.Valid()
    requires plan == PlanFor(executor.job.verified.body.wrap.wrap, executor.job.targets, options)
    requires HandlesOf(executor.draft.wrap.wrap) == Minus(HandlesOf(executor.job.verified.body.wrap.wrap), plan.remove)
    requires Addressees(executor.draft.wrap.wrap)
          == if plan.remove == [] then Addressees(executor.job.verified.body.wrap.wrap)
             else Renewed(executor.job.targets, Remaining(executor.job.verified.body.wrap.wrap, plan.remove))
    modifies executor`draft, executor`drawn
    ensures AdmittedTo(executor.job, executor.session) ==> (r.Ok? <==> |executor.job.targets| <= MAX_WRAP_ITEMS)
    ensures r.Ok? ==> executor.Valid() && |executor.job.targets| <= MAX_WRAP_ITEMS
                      && Reaches(executor.job.targets, executor.draft.wrap.wrap)
                      && HandlesOf(executor.draft.wrap.wrap)
                         == FinalHandles(executor.job.verified.body.wrap.wrap, executor.job.targets, options)
                      && executor.draft.entries == old(executor.draft.entries)
                      && executor.draft.wrap.removedRecipients == old(executor.draft.wrap.removedRecipients)
    ensures r.Ok? && old(executor.draft.wrap.wrap) == executor.job.verified.body.wrap.wrap ==>
              KeepsWraps(executor.job.verified.body.wrap.wrap, executor.job.targets, executor.draft.wrap.wrap)
  {
    ghost var items := executor.job.verified.body.wrap.wrap;
    OriginalWraps(executor.job, executor.origin);
    ghost var untouched := executor.draft.wrap.wrap == items;
    r := ApplyRefreshes(executor, options, plan, items);
    if r.Err? {
      return;
    }
    ghost var refreshed := executor.draft.wrap.wrap;
    r := ApplyAdditions(executor, options, plan, items);
    if r.Ok? && untouched {
      StillKept(items, executor.job.targets, refreshed, executor.draft.wrap.wrap);
    }
  }

  /** Remove, refresh, add, in this order; a step with nobody on its list is skipped. */
  method ApplyRecipientSteps(executor: KvRewrapExecutor, options: Options, plan: Plan) returns (r: Checked)
    requires executor.Valid() && !executor.rotated && executor.draft == executor.job.verified.body
    requires plan == PlanFor(executor.draft.wrap.wrap, executor.job.targets, options)
    modifies executor
    ensures AdmittedTo(executor.job, executor.job.verified) && (plan.remove != [] ==> OperatorStays(executor.job)) ==>
              r.Ok? == (|executor.job.targets| <= MAX_WRAP_ITEMS
                        && (plan.remove != [] ==> RemovalPossible(executor.job, executor.origin, options)))
    ensures r.Ok? ==> executor.Valid() && |executor.job.targets| <= MAX_WRAP_ITEMS
                      && (executor.rotated <==> plan.remove != [])
                      && (if plan.remove == [] then executor.session == executor.job.verified
                          else AdmittedTo(executor.job, executor.job.verified)
                               && (AdmittedTo(executor.job, executor.session) <==> OperatorStays(executor.job)))
                      && Reaches(executor.job.targets, executor.draft.wrap.wrap)
                      && HandlesOf(executor.draft.wrap.wrap)
                         == FinalHandles(executor.job.verified.body.wrap.wrap, executor.job.targets, options)
                      && executor.draft.wrap.removedRecipients == HistoryAfterRemovals(executor.job, options)
                      && EntriesAfter(executor.job, plan.remove != [], executor.draft.entries)
                      && (plan.remove == [] ==> KeepsWraps(executor.job.verified.body.wrap.wrap, executor.job.targets,
                                                           executor.draft.wrap.wrap))
  {
    r := ApplyRemovals(executor, options, plan);
    if r.Err? {
      return;
    }
    r := ApplyRefreshesAndAdditions(executor, options, plan);
  }

  /** The operator is admitted to a document addressed to the targets as it is to the targets. */
  lemma ReachingSessionAdmits(job: Job, session: KvDocument)
    requires Reaches(job.targets, session.body.wrap.wrap)
    ensures AdmittedTo(job, session) <==> OperatorStays(job)
  {
    AdmitsTargets(job.targets, session.body.wrap.wrap, job.operator, job.keys);
  }

  /** Whether a rotation can be read again does not depend on the order of the wraps. */
  lemma RotationReloads(job: Job, origin: Origin, items: seq<WrapItem>)
    requires Fair(job, origin) && Reaches(job.targets, items)
    ensures job.fits(HandlesOf(items), None, AnyDisclosed(job.verified.body.entries)) == ReloadsAfterRotation(job)
  {
    ReachedHandles(job.targets, items);
    assert FitsInAnyOrder(job, HandlesOf(items), MemberHandles(job.targets), None,
                          AnyDisclosed(job.verified.body.entries));
  }

  method ApplyRotation(executor: KvRewrapExecutor) returns (r: Checked)
    requires executor.Valid() && Reaches(executor.job.targets, executor.draft.wrap.wrap)
    requires |executor.job.targets| <= MAX_WRAP_ITEMS
    modifies executor
    ensures old(executor.rotated) ==>
              r == Ok(()) && executor.session == old(executor.session) && executor.draft == old(executor.draft)
    ensures !old(executor.rotated) ==>
              (r.Ok? <==> AdmittedTo(executor.job, old(executor.session)) && Rewritable(executor.job, executor.origin)
                          && ReloadsAfterRotation(executor.job))
    ensures r.Ok? ==> executor.Valid() && executor.rotated
                      && Reaches(executor.job.targets, executor.draft.wrap.wrap)
                      && HandlesOf(executor.draft.wrap.wrap) == HandlesOf(old(executor.draft.wrap.wrap))
    ensures r.Ok? && !old(executor.rotated) ==>
              executor.draft == executor.session.body && executor.draft.wrap.removedRecipients == None
              && AllDisclosed(executor.draft.entries, AnyDisclosed(old(executor.session).body.entries))
  {
    AmongHandles(executor.job.targets, executor.draft.wrap.wrap);
    AllTargetsRenewed(executor.job.targets, executor.draft.wrap.wrap);
    RotationReloads(executor.job, executor.origin, executor.draft.wrap.wrap);
    r := executor.RotateKey();
    if r.Ok? {
      AllReached(executor.job.targets, executor.draft.wrap.wrap);
    }
  }

  /** The history a rewrap leaves: a rotation that removes nobody starts it afresh. */
  ghost function FinalHistory(job: Job, options: Options): Option<History> {
    if options.clearHistory then None
    else if options.rotateKey && !Removes(job.verified.body.wrap.wrap, job.targets, options) then None
    else HistoryAfterRemovals(job, options)
  }

  /** The disclosure flags a rewrap leaves: a removal sets them all, a rotation spreads the ones there were. */
  ghost predicate FinalEntries(job: Job, options: Options, entries: seq<KvEntry>) {
    if options.clearHistory then AllDisclosed(entries, false)
    else if Removes(job.verified.body.wrap.wrap, job.targets, options) then AllDisclosed(entries, true)
    else if options.rotateKey then AllDisclosed(entries, AnyDisclosed(job.verified.body.entries))
    else entries == job.verified.body.entries
  }

  method ApplyFlags(executor: KvRewrapExecutor, options: Options, plan: Plan) returns (r: Checked)
    requires executor.Valid() && Reaches(executor.job.targets, executor.draft.wrap.wrap)
    requires |executor.job.targets| <= MAX_WRAP_ITEMS
    requires plan.rotateKey == options.rotateKey && plan.clearHistory == options.clearHistory
    requires executor.rotated <==> Removes(executor.job.verified.body.wrap.wrap, executor.job.targets, options)
    requires executor.draft.wrap.removedRecipients == HistoryAfterRemovals(executor.job, options)
    requires EntriesAfter(executor.job, executor.rotated, executor.draft.entries)
    modifies executor
    ensures options.rotateKey && !old(executor.rotated) ==>
              (r.Ok? <==> AdmittedTo(executor.job, old(executor.session)) && Rewritable(executor.job, executor.origin)
                          && ReloadsAfterRotation(executor.job))
    ensures !options.rotateKey || old(executor.rotated) ==> r.Ok? && executor.session == old(executor.session)
    ensures !options.rotateKey ==> executor.draft.wrap.wrap == old(executor.draft.wrap.wrap)
    ensures r.Ok? ==> executor.Valid() && Reaches(executor.job.targets, executor.draft.wrap.wrap)
                      && HandlesOf(executor.draft.wrap.wrap) == HandlesOf(old(executor.draft.wrap.wrap))
                      && (executor.rotated <==> Reencrypts(executor.job, options))
                      && executor.draft.wrap.removedRecipients == FinalHistory(executor.job, options)
                      && FinalEntries(executor.job, options, executor.draft.entries)
    ensures r.Ok? && options.rotateKey && !old(executor.rotated) ==>
              Reaches(executor.job.targets, executor.session.body.wrap.wrap)
  {
    if plan.rotateKey {
      r := ApplyRotation(executor);
      if r.Err? {
        return;
      }
    }
    if plan.clearHistory {
      r := executor.ClearDisclosureHistory();
      return;
    }
    return Ok(());
  }

  /** The wraps, the history and the flags are those the plan leads to. */
  ghost predicate IsPlanned(job: Job, options: Options, wrap: KvWrap, entries: seq<KvEntry>) {
    Reaches(job.targets, wrap.wrap)
    && HandlesOf(wrap.wrap) == FinalHandles(job.verified.body.wrap.wrap, job.targets, options)
    && (!Reencrypts(job, options) ==> KeepsWraps(job.verified.body.wrap.wrap, job.targets, wrap.wrap))
    && wrap.removedRecipients == FinalHistory(job, options) && FinalEntries(job, options, entries)
  }

  method ApplyRewrapOperationPlan(executor: KvRewrapExecutor, options: Options, plan: Plan) returns (r: Checked)
    requires executor.Valid() && !executor.rotated && executor.draft == executor.job.verified.body
    requires plan == PlanFor(executor.draft.wrap.wrap, executor.job.targets, options)
    modifies executor
    ensures AdmittedTo(executor.job, executor.job.verified)
            && (Reencrypts(executor.job, options) ==> OperatorStays(executor.job)) ==>
              (r.Ok? <==> Possible(executor.job, executor.origin, options))
    ensures r.Ok? ==> executor.Valid() && |executor.draft.wrap.wrap| <= MAX_WRAP_ITEMS
                      && (executor.rotated <==> Reencrypts(executor.job, options))
                      && (AdmittedTo(executor.job, executor.session)
                          <==> AdmittedTo(executor.job, executor.job.verified)
                               && (Reencrypts(executor.job, options) ==> OperatorStays(executor.job)))
                      && IsPlanned(executor.job, options, executor.draft.wrap, executor.draft.entries)
  {
    OriginalWraps(executor.job, executor.origin);
    r := ApplyRecipientSteps(executor, options, plan);
    if r.Err? {
      return;
    }
    ghost var removed := executor.rotated;
    PlanFlags(executor.job.verified.body.wrap.wrap, executor.job.targets, options);
    r := ApplyFlags(executor, options, plan);
    if r.Ok? && options.rotateKey && !removed {
      ReachingSessionAdmits(executor.job, executor.session);
    }
  }

  /** What a rewrap that succeeds returns. */
  ghost predicate Rewrapped(job: Job, options: Options, origin: Origin, doc: KvDocument) {
    IsPlanned(job, options, doc.body.wrap, doc.body.entries) && StillHolds(job, origin, doc, Reencrypts(job, options))
    && doc.body.head.updatedAt == job.now && doc.signature.kid == job.signerKid
  }

  /**
   * A rewrap of a sound document succeeds exactly when the operator can open it, it
   * is possible, and, where it is re-encrypted, the operator stays among the
   * targets. Possible means, for a re-encrypted document, that its text loads again.
   * Then it has one wrap for each target under its current key id and for nobody else,
   * the old ones first and the new ones after them in ascending order,
   * and holds the same values: under an id, a key and nonces drawn afresh if
   * it was re-encrypted, and otherwise under the same id and key with the same
   * date, the same wraps where these were current and, unless flags were cleared,
   * the same entries.
   */
  method RewrapKvDocument(job: Job, options: Options, ghost origin: Origin)
    returns (r: Result<KvDocument, EnvelopeError>)
    requires Fair(job, origin)
    ensures r.Ok? == (AdmittedTo(job, job.verified) && Possible(job, origin, options)
                      && (Reencrypts(job, options) ==> OperatorStays(job)))
    ensures r.Ok? ==> Rewrapped(job, options, origin, r.value)
  {
    var executor := new KvRewrapExecutor(job, origin);
    var plan := PlanFor(executor.draft.wrap.wrap, job.targets, options);
    var applied := ApplyRewrapOperationPlan(executor, options, plan);
    if applied.Err? {
      return Err(applied.error);
    }
    r := executor.Finalize(Reencrypts(job, options));
  }

  // ---- what it means ------------------------------------------------------------------------

  /** The rewrapped document is the old values, to every target with its key and to nobody else. */
  lemma TargetsRecoverExactly(job: Job, origin: Origin, doc: KvDocument, reencrypted: bool, handle: string,
                              keys: KeyContext)
    requires Fair(job, origin) && KeysMatch(job.suite, origin.dir, keys)
    requires Reaches(job.targets, doc.body.wrap.wrap) && StillHolds(job, origin, doc, reencrypted)
    ensures DecryptKv(job.suite, doc, handle, keys).ToOption()
         == if AdmitsMember(job.targets, handle, keys) && AllFit(origin.values) then Some(origin.values) else None
  {
    var masterKey: Key, n: nat :| HoldsUnder(job, origin, doc, reencrypted, masterKey, n);
    MapDecryptsExactly(job.suite, origin.dir, doc, masterKey, origin.values, handle, keys);
    AdmitsTargets(job.targets, doc.body.wrap.wrap, handle, keys);
  }

  /** A rotation that removes nobody flags every entry if any entry was flagged, and otherwise none. */
  lemma RotationSpreadsFlags(job: Job, options: Options, entries: seq<KvEntry>)
    requires FinalEntries(job, options, entries) && options.rotateKey && !options.clearHistory
    requires !Removes(job.verified.body.wrap.wrap, job.targets, options)
    ensures (exists e :: e in job.verified.body.entries && e.value.disclosed) ==>
              forall entry :: entry in entries ==> entry.value.disclosed
    ensures (forall e :: e in job.verified.body.entries ==> !e.value.disclosed) ==>
              forall entry :: entry in entries ==> !entry.value.disclosed
  {
    if e :| e in job.verified.body.entries && e.value.disclosed {
      var i :| 0 <= i < |job.verified.body.entries| && job.verified.body.entries[i] == e;
      assert job.verified.body.entries[i].value.disclosed;
    }
  }

  lemma FreshAreDifferent(job: Job, values: Values, masterKey: Key, sid: Uuid, entries: seq<KvEntry>, n: nat, i: nat,
                          j: nat)
    requires Ideal(job.suite) && Iterates(job.entropy)
    requires forall first :: DifferentDraws(job.entropy, first, |job.entropy.iterate(values)|)
    requires EntriesHold(job.suite, masterKey, sid, entries, values) && DistinctEntryKeys(entries)
    requires HasFreshNonces(job, values, entries, n)
    requires i < j < |entries|
    ensures entries[i].value.nonce != entries[j].value.nonce
  {
    var pairs := job.entropy.iterate(values);
    var wraps: nat :| TakesNonces(job.suite, job.entropy, EntryDraw(n, wraps), entries, pairs);
    assert IsIterationOf(pairs, values) && DifferentDraws(job.entropy, EntryDraw(n, wraps), |pairs|);
    NoncesDiffer(job.suite, job.entropy, EntryDraw(n, wraps), masterKey, sid, entries, values, pairs, i, j);
  }

  /** After a re-encryption no two entries have the same nonce, if as many draws in a row differ. */
  lemma FreshNoncesDiffer(job: Job, origin: Origin, doc: KvDocument, i: nat, j: nat)
    requires Fair(job, origin) && StillHolds(job, origin, doc, true)
    requires forall first :: DifferentDraws(job.entropy, first, |job.entropy.iterate(origin.values)|)
    requires i < j < |doc.body.entries|
    ensures doc.body.entries[i].value.nonce != doc.body.entries[j].value.nonce
  {
    var masterKey: Key, n: nat :| HoldsUnder(job, origin, doc, true, masterKey, n);
    FreshAreDifferent(job, origin.values, masterKey, doc.body.head.sid, doc.body.entries, n, i, j);
  }

  /** Without re-encryption the targets open the very key the document had before. */
  lemma TargetsOpenTheSameKey(job: Job, origin: Origin, doc: KvDocument, handle: string, keys: KeyContext)
    requires Fair(job, origin) && KeysMatch(job.suite, origin.dir, keys)
    requires Reaches(job.targets, doc.body.wrap.wrap) && StillHolds(job, origin, doc, false)
    ensures OpenKvKey(job.suite, doc, handle, keys).ToOption()
         == if AdmitsMember(job.targets, handle, keys) then Some(origin.masterKey) else None
  {
    KvKeyOpensExactly(job.suite, origin.dir, doc, origin.masterKey, origin.values, handle, keys);
    AdmitsTargets(job.targets, doc.body.wrap.wrap, handle, keys);
  }

  lemma MergedMeans(oldWrap: KvWrap, removed: seq<string>, now: string, kid: string)
    ensures var entry := Entry(MergedHistory(oldWrap, removed, now), kid);
            if RemovesKid(ToRemove(oldWrap.wrap, removed), kid)
            then entry.Some? && IsRecordOf(entry.value, ToRemove(oldWrap.wrap, removed), now, kid)
            else entry == Entry(oldWrap.removedRecipients, kid)
  {
    var list := ToRemove(oldWrap.wrap, removed);
    RecordedMeans(None, list, now, kid);
    StepMeans(Recorded(None, list, now), kid, Merge(oldWrap.removedRecipients));
  }

  /** The removals of this rewrap come first and the old records after them. */
  lemma NewRemovalsComeFirst(oldWrap: KvWrap, removed: seq<string>, now: string)
    ensures Kids(Recorded(None, ToRemove(oldWrap.wrap, removed), now)) <= Kids(MergedHistory(oldWrap, removed, now))
  {
    var list := ToRemove(oldWrap.wrap, removed);
    RecordedIsClean(None, list, now);
    StepKeeps(Recorded(None, list, now), Merge(oldWrap.removedRecipients));
  }

  /** Whoever lost a wrap is in the history under the key id the wrap was made for. */
  lemma RemovedAreRecorded(job: Job, options: Options, removed: Addressee)
    requires DistinctHandles(job.verified.body.wrap.wrap) && DistinctMembers(job.targets)
    requires removed in Addressees(job.verified.body.wrap.wrap) && !IsMember(job.targets, removed.handle)
    requires !options.clearHistory
    ensures var entry := Entry(FinalHistory(job, options), removed.kid);
            NamesRemoved(entry, job.verified.body.wrap.wrap,
                         PlanFor(job.verified.body.wrap.wrap, job.targets, options).remove, job.now, removed.kid)
  {
    var wrap := job.verified.body.wrap;
    PlanIs(wrap.wrap, job.targets, options);
    var plan := PlanFor(wrap.wrap, job.targets, options);
    HandlesAre(wrap.wrap, removed);
    assert removed.handle in plan.remove;
    ToRemoveIs(wrap.wrap, plan.remove);
    var list := ToRemove(wrap.wrap, plan.remove);
    assert removed in list;
    var i :| 0 <= i < |list| && list[i] == removed;
    assert RemovesKid(list, removed.kid);
    MergedMeans(wrap, plan.remove, job.now, removed.kid);
    RecordNamesRemoved(Entry(FinalHistory(job, options), removed.kid).value, wrap.wrap, plan.remove, job.now,
                       removed.kid);
  }

  /** No recorded key id is forgotten. */
  ghost predicate ForgetsNobody(before: Option<History>, after: Option<History>) {
    forall kid :: Entry(before, kid).Some? ==> Entry(after, kid).Some?
  }

  /**
   * The exact condition under which a key-value rewrap forgets nobody: there was
   * nobody to forget, or it neither clears the history nor rotates without
   * removing somebody. A file forgets nobody on any rotation.
   */
  lemma ForgetsNobodyExactly(job: Job, options: Options)
    ensures ForgetsNobody(job.verified.body.wrap.removedRecipients, FinalHistory(job, options))
       <==> (forall kid :: Entry(job.verified.body.wrap.removedRecipients, kid).None?)
            || (!options.clearHistory
                && (options.rotateKey ==> Removes(job.verified.body.wrap.wrap, job.targets, options)))
  {
    var wrap := job.verified.body.wrap;
    var plan := PlanFor(wrap.wrap, job.targets, options);
    forall kid
      ensures (Removes(wrap.wrap, job.targets, options) && !options.clearHistory
               && Entry(wrap.removedRecipients, kid).Some?) ==> Entry(FinalHistory(job, options), kid).Some?
    {
      MergedMeans(wrap, plan.remove, job.now, kid);
    }
    if kid :| Entry(wrap.removedRecipients, kid).Some? {
      assert FinalHistory(job, options) == None ==> Entry(FinalHistory(job, options), kid) == None;
    }
  }
}

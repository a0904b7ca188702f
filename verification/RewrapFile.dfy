/** Rewrapping an encrypted file to a new set of recipients, in place and step by step. */
module RewrapFile {
  import opened Limits
  import opened Wrappers
  import opened Seqs
  import opened Bits
  import opened Wire
  import opened Disclosure
  import opened Primitives
  import opened Envelope
  import opened EnvelopeProofs
  import opened FileEnvelope
  import opened FileEnvelopeProofs
  import opened Recipients
  import opened RecipientProofs
  import opened RewrapPlan
  import opened RewrapPlanProofs
  import opened RewrapSteps

  /** The content key: not needed so far, opened from the document, or made afresh. */
  datatype KeyState = Unloaded | Original(key: Key) | Rotated(key: Key)

  /** What a rewrap is given: a verified document, who rewraps it, and for whom. */
  datatype Job = Job(suite: Suite, entropy: Entropy, verified: FileDocument, operator: string, keys: KeyContext,
                     targets: seq<Member>, signerKid: string, now: string)

  /** What the document stands for: its master key and its content, and whose keys are whose. */
  datatype Origin = Origin(dir: Directory, masterKey: Key, content: Bytes)

  ghost predicate Fair(job: Job, origin: Origin) {
    Ideal(job.suite) && VerifiedMembers(job.suite, origin.dir, job.targets)
    && SoundDocument(job.suite, origin.dir, job.verified, origin.masterKey, origin.content)
    && KeysMatch(job.suite, origin.dir, job.keys)
  }

  /** The operator can open the document that was handed in. */
  ghost predicate Admitted(job: Job) {
    Admits(job.verified.protected.wrap, job.operator, job.keys)
  }

  ghost function CurrentKey(origin: Origin, state: KeyState): Key {
    if state.Rotated? then state.key else origin.masterKey
  }

  /** The key is a draw of this rewrap, and the nonce of the payload is the next draw. */
  ghost predicate IsDrawn(job: Job, payload: FilePayload, key: Key) {
    exists n: nat :: job.entropy.keys(n) == key && HasNonce(job, payload, n + 1)
  }

  ghost predicate HasNonce(job: Job, payload: FilePayload, n: nat) {
    payload.encrypted.nonce == job.suite.texts.encode(job.entropy.nonces(n))
  }

  /** The parts of the protected header no step touches. */
  ghost predicate SameDocument(p: FileProtected, q: FileProtected) {
    p.format == q.format && p.sid == q.sid && p.payload.header == q.payload.header && p.createdAt == q.createdAt
  }

  /** What every step keeps: the wraps open to the current key, and the payload is the content under it. */
  ghost predicate Holds(job: Job, origin: Origin, p: FileProtected, state: KeyState) {
    SameDocument(p, job.verified.protected)
    && (state.Unloaded? || Admitted(job))
    && (state.Original? ==> state.key == origin.masterKey)
    && (state.Rotated? ==> IsDrawn(job, p.payload, state.key))
    && (!state.Rotated? ==> p.payload == job.verified.protected.payload)
    && SoundWraps(job.suite, origin.dir, p.wrap, p.sid, File, CurrentKey(origin, state))
    && PayloadHolds(job.suite, p.payload, FileContentKey(job.suite, CurrentKey(origin, state), p.sid), origin.content)
  }

  // ---- dropping wraps one recipient at a time -----------------------------------------

  function WithoutEach(items: seq<WrapItem>, removed: seq<Addressee>): seq<WrapItem> {
    if removed == [] then items
    else Without(WithoutEach(items, removed[..|removed| - 1]), [removed[|removed| - 1].handle])
  }

  method DropEach(items: seq<WrapItem>, removed: seq<Addressee>) returns (retained: seq<WrapItem>)
    ensures retained == WithoutEach(items, removed)
  {
    retained := items;
    for i := 0 to |removed|
      invariant retained == WithoutEach(items, removed[..i])
    {
      assert removed[..i + 1][..i] == removed[..i];
      retained := Without(retained, [removed[i].handle]);
    }
    assert removed[..|removed|] == removed;
  }

  lemma {:induction false} WithoutEachSound(suite: Suite, dir: Directory, items: seq<WrapItem>,
                                            removed: seq<Addressee>, sid: Uuid, masterKey: Key)
    requires SoundWraps(suite, dir, items, sid, File, masterKey)
    ensures SoundWraps(suite, dir, WithoutEach(items, removed), sid, File, masterKey)
    ensures forall a :: a in Addressees(WithoutEach(items, removed)) <==>
                        a in Addressees(items) && forall r :: r in removed ==> r.handle != a.handle
  {
    if removed == [] {
    } else {
      var init, last := removed[..|removed| - 1], removed[|removed| - 1];
      WithoutEachSound(suite, dir, items, init, sid, masterKey);
      WithoutSound(suite, dir, WithoutEach(items, init), [last.handle], sid, File, masterKey);
      assert removed == init + [last];
    }
  }

  lemma DroppedExactly(suite: Suite, dir: Directory, items: seq<WrapItem>, recipients: seq<string>, sid: Uuid,
                       masterKey: Key)
    requires SoundWraps(suite, dir, items, sid, File, masterKey)
    ensures var kept := WithoutEach(items, ToRemove(items, recipients));
            SoundWraps(suite, dir, kept, sid, File, masterKey)
            && Addressees(kept) == Remaining(items, recipients)
            && |kept| == |Remaining(items, recipients)|
  {
    var removed := ToRemove(items, recipients);
    ToRemoveIs(items, recipients);
    WithoutEachSound(suite, dir, items, removed, sid, masterKey);
    var kept := WithoutEach(items, removed);
    forall a
      ensures a in Addressees(kept) <==> a in Remaining(items, recipients)
    {
      if a in Addressees(items) && a.handle in recipients {
        assert a in removed;
      }
    }
    assert Addressees(kept) == Remaining(items, recipients);
    AddresseesCount(kept);
  }

  ghost function HandlesIn(removed: seq<Addressee>): seq<string> {
    seq(|removed|, i requires 0 <= i < |removed| => removed[i].handle)
  }

  lemma {:induction false} HandlesWithoutEach(items: seq<WrapItem>, removed: seq<Addressee>)
    ensures HandlesOf(WithoutEach(items, removed)) == Minus(HandlesOf(items), HandlesIn(removed))
  {
    if removed == [] {
      MinusNone(HandlesOf(items), []);
      assert HandlesIn(removed) == [];
    } else {
      var init, last := removed[..|removed| - 1], removed[|removed| - 1];
      HandlesWithoutEach(items, init);
      HandlesWithout(WithoutEach(items, init), [last.handle]);
      MinusTwice(HandlesOf(items), HandlesIn(init), [last.handle]);
      assert HandlesIn(removed) == HandlesIn(init) + [last.handle];
    }
  }

  /** Dropping the recipients leaves the others where they stood. */
  lemma DroppedInOrder(items: seq<WrapItem>, recipients: seq<string>)
    requires DistinctHandles(items)
    ensures HandlesOf(WithoutEach(items, ToRemove(items, recipients))) == Minus(HandlesOf(items), recipients)
  {
    var removed := ToRemove(items, recipients);
    ToRemoveIs(items, recipients);
    HandlesWithoutEach(items, removed);
    forall h | h in HandlesOf(items)
      ensures h in HandlesIn(removed) <==> h in recipients
    {
      HasHandle(items, h);
      if h in recipients {
        var a :| a in Addressees(items) && a.handle == h;
        assert a in removed;
        var i :| 0 <= i < |removed| && removed[i] == a;
        assert HandlesIn(removed)[i] == h;
      }
      if h in HandlesIn(removed) {
        var i :| 0 <= i < |removed| && HandlesIn(removed)[i] == h;
        assert removed[i] in removed;
      }
    }
    MinusSame(HandlesOf(items), HandlesIn(removed), recipients);
  }

  /** What is left when the recipients are dropped from a document. */
  lemma DropKeeps(job: Job, origin: Origin, before: FileProtected, state: KeyState, recipients: seq<string>,
                  after: FileProtected)
    requires Fair(job, origin) && Holds(job, origin, before, state)
    requires after == before.(removedRecipients := after.removedRecipients,
                              wrap := WithoutEach(before.wrap, ToRemove(before.wrap, recipients)))
    ensures Holds(job, origin, after, state)
    ensures var kept := Remaining(before.wrap, recipients);
            && Addressees(after.wrap) == kept && |after.wrap| == |kept|
            && (after.wrap == [] <==> kept == {})
            && Among(job.targets, HandlesOf(after.wrap)) == Renewed(job.targets, kept)
            && (AllMembers(job.targets, HandlesOf(after.wrap)) <==> AllAreMembers(job.targets, kept))
    ensures HandlesOf(after.wrap) == Minus(HandlesOf(before.wrap), recipients)
  {
    DroppedExactly(job.suite, origin.dir, before.wrap, recipients, before.sid, CurrentKey(origin, state));
    DroppedInOrder(before.wrap, recipients);
    AmongHandles(job.targets, after.wrap);
    if after.wrap == [] {
      assert |Remaining(before.wrap, recipients)| == 0;
    }
  }

  lemma HeldByOriginal(job: Job, origin: Origin)
    requires Fair(job, origin)
    ensures Holds(job, origin, job.verified.protected, Unloaded)
    ensures |job.verified.protected.wrap| <= MAX_WRAP_ITEMS
  {
    SetAcceptedExactly(job.suite.texts, job.verified.protected.wrap);
  }

  /** The payload decrypted with the old key and encrypted with the new one. */
  method ReencryptPayload(job: Job, ghost origin: Origin, header: PayloadHeader, sid: Uuid, oldMasterKey: Key,
                          newMasterKey: Key, nonce: Nonce) returns (r: Result<FilePayload, EnvelopeError>)
    requires Fair(job, origin) && oldMasterKey == origin.masterKey && sid == job.verified.protected.sid
    ensures r.Ok? <==> |origin.content| <= MAX_PLAINTEXT_INPUT_SIZE
    ensures r.Ok? ==> r.value.header == header && r.value.encrypted.nonce == job.suite.texts.encode(nonce)
                      && PayloadHolds(job.suite, r.value, FileContentKey(job.suite, newMasterKey, sid), origin.content)
  {
    var oldKey := FileContentKey(job.suite, oldMasterKey, sid);
    PayloadDecrypts(job.suite, job.verified.protected.payload, oldKey, origin.content);
    var plaintext := DecryptPayload(job.suite, job.verified.protected.payload, oldKey);
    if plaintext.Err? {
      return Err(plaintext.error);
    }
    var newKey := FileContentKey(job.suite, newMasterKey, sid);
    var payload := FilePayload(header, EncryptPayload(job.suite, plaintext.value, newKey, header, nonce));
    return Ok(payload);
  }

  /** Everybody is wrapped anew in the same order, and every nonce and wrap takes a draw of its own. */
  ghost predicate IsRotation(job: Job, before: FileProtected, after: FileProtected, masterKey: Key, drawn: nat) {
    masterKey == job.entropy.keys(drawn) && HasNonce(job, after.payload, drawn + 1)
    && Appends(job.suite, [], after.wrap, HandlesOf(before.wrap), before.sid, File, masterKey, drawn + 2)
  }

  lemma RotationKeepsOrder(job: Job, before: FileProtected, after: FileProtected, masterKey: Key, drawn: nat)
    requires IsRotation(job, before, after, masterKey, drawn)
    ensures HandlesOf(after.wrap) == HandlesOf(before.wrap) && IsDrawn(job, after.payload, masterKey)
  {
    AppendedHandles(job.suite, [], after.wrap, HandlesOf(before.wrap), before.sid, File, masterKey, drawn + 2);
  }

  /** The header with a fresh key: the payload re-encrypted, every current recipient wrapped anew. */
  method RotateFileKey(job: Job, ghost origin: Origin, protected: FileProtected, oldMasterKey: Key, drawn: nat)
    returns (r: Result<FileProtected, EnvelopeError>)
    requires Fair(job, origin) && oldMasterKey == origin.masterKey
    requires SameDocument(protected, job.verified.protected) && DistinctHandles(protected.wrap)
    ensures r.Ok? <==> |origin.content| <= MAX_PLAINTEXT_INPUT_SIZE
                       && AllMembers(job.targets, HandlesOf(protected.wrap)) && |protected.wrap| <= MAX_WRAP_ITEMS
    ensures r.Ok? ==> r.value == protected.(payload := r.value.payload, wrap := r.value.wrap)
                      && r.value.payload.header == protected.payload.header
                      && IsRotation(job, protected, r.value, job.entropy.keys(drawn), drawn)
                      && Addressees(r.value.wrap) == Among(job.targets, HandlesOf(protected.wrap))
                      && SoundWraps(job.suite, origin.dir, r.value.wrap, protected.sid, File, job.entropy.keys(drawn))
                      && PayloadHolds(job.suite, r.value.payload,
                                      FileContentKey(job.suite, job.entropy.keys(drawn), protected.sid), origin.content)
  {
    var masterKey := job.entropy.keys(drawn);
    var payload := ReencryptPayload(job, origin, protected.payload.header, protected.sid, oldMasterKey, masterKey,
                                    job.entropy.nonces(drawn + 1));
    if payload.Err? {
      return Err(payload.error);
    }
    DistinctAreNoRepeats(protected.wrap);
    RewrappedExactly(job.suite, origin.dir, job.targets, HandlesOf(protected.wrap), drawn + 2, protected.sid, File,
                     masterKey);
    var members := ResolveSnapshot(job.targets, HandlesOf(protected.wrap));
    if members.Err? {
      return Err(members.error);
    }
    var wrap := BuildWraps(job.suite, drawn + 2, members.value, protected.sid, masterKey, File);
    if wrap.Err? {
      return Err(wrap.error);
    }
    ReplacedInOrder(job.suite, job.targets, [], HandlesOf(protected.wrap), drawn + 2, protected.sid, File, masterKey,
                    wrap.value);
    assert [] + wrap.value == wrap.value;
    return Ok(protected.(payload := payload.value, wrap := wrap.value));
  }

  class FileRewrapExecutor {
    const job: Job
    ghost const origin: Origin
    var protected: FileProtected
    var contentKey: KeyState
    var drawn: nat

    ghost predicate Valid()
      reads this
    {
      Fair(job, origin) && Holds(job, origin, protected, contentKey)
    }

    constructor (job: Job, ghost origin: Origin)
      requires Fair(job, origin)
      ensures Valid() && this.job == job && this.origin == origin
      ensures protected == job.verified.protected && contentKey == Unloaded
    {
      this.job := job;
      this.origin := origin;
      protected := job.verified.protected;
      contentKey := Unloaded;
      drawn := 0;
      new;
      HeldByOriginal(job, origin);
    }

    method EnsureContentKey() returns (r: Checked)
      requires Valid()
      modifies this`contentKey
      ensures Valid() && (r.Ok? <==> Admitted(job))
      ensures r.Ok? ==> !contentKey.Unloaded? && contentKey.key == old(CurrentKey(origin, contentKey))
                        && (contentKey.Rotated? <==> old(contentKey).Rotated?)
    {
      if contentKey.Unloaded? {
        KeyOpensExactly(job.suite, origin.dir, job.verified, origin.masterKey, origin.content, job.operator, job.keys);
        var unwrapped := OpenFileKey(job.suite, job.verified, job.operator, job.keys);
        if unwrapped.Err? {
          return Err(unwrapped.error);
        }
        contentKey := Original(unwrapped.value);
      }
      return Ok(());
    }

    method AddRecipients(recipients: seq<string>) returns (r: Checked)
      requires Valid() && NoRepeats(recipients)
      modifies this
      ensures r.Ok? <==> Admitted(job) && AllMembers(job.targets, recipients)
                         && HasRoom(job.targets, recipients, old(protected.wrap))
      ensures r.Ok? ==> Addressees(protected.wrap)
                        == Addressees(old(protected.wrap)) + Fresh(job.targets, recipients, old(protected.wrap))
      ensures r.Ok? ==> Appends(job.suite, old(protected.wrap), protected.wrap,
                                Minus(recipients, HandlesOf(old(protected.wrap))), protected.sid, File,
                                CurrentKey(origin, contentKey), old(drawn))
                        && drawn == old(drawn) + |protected.wrap| - |old(protected.wrap)|
      ensures r.Ok? ==> Valid() && protected == old(protected).(wrap := protected.wrap)
                        && CurrentKey(origin, contentKey) == old(CurrentKey(origin, contentKey))
                        && (contentKey.Rotated? <==> old(contentKey).Rotated?)
    {
      var loaded := EnsureContentKey();
      if loaded.Err? {
        return loaded;
      }
      AddedExactly(job.suite, origin.dir, job.targets, protected.wrap, recipients, drawn, protected.sid, File,
                   contentKey.key);
      var items := BuildNewWrapItems(job.suite, drawn, HandlesOf(protected.wrap), |protected.wrap|, recipients,
                                     job.targets, protected.sid, contentKey.key, File);
      if items.Err? {
        return Err(items.error);
      }
      AddedInOrder(job.suite, job.targets, protected.wrap, recipients, drawn, protected.sid, File, contentKey.key,
                   items.value);
      drawn := drawn + |items.value|;
      protected := protected.(wrap := protected.wrap + items.value);
      return Ok(());
    }

    method RewriteRecipientWraps(recipients: seq<string>) returns (r: Checked)
      requires Valid() && NoRepeats(recipients)
      modifies this
      ensures r.Ok? <==> Admitted(job) && AllMembers(job.targets, recipients)
      ensures r.Ok? ==> Addressees(protected.wrap)
                        == (set a | a in Addressees(old(protected.wrap)) && a.handle !in recipients)
                           + Among(job.targets, recipients)
      ensures r.Ok? ==> Appends(job.suite, Without(old(protected.wrap), recipients), protected.wrap, recipients,
                                protected.sid, File, CurrentKey(origin, contentKey), old(drawn))
                        && drawn == old(drawn) + |recipients|
      ensures r.Ok? ==> Valid() && protected == old(protected).(wrap := protected.wrap)
                        && CurrentKey(origin, contentKey) == old(CurrentKey(origin, contentKey))
                        && (contentKey.Rotated? <==> old(contentKey).Rotated?)
    {
      var loaded := EnsureContentKey();
      if loaded.Err? {
        return loaded;
      }
      ReplacedExactly(job.suite, origin.dir, job.targets, protected.wrap, recipients, drawn, protected.sid, File,
                      contentKey.key);
      var items := ReplaceRecipientWrapItems(job.suite, drawn, protected.wrap, recipients, job.targets, protected.sid,
                                             contentKey.key, File);
      if items.Err? {
        return Err(items.error);
      }
      ghost var kept := Without(protected.wrap, recipients);
      ReplacedInOrder(job.suite, job.targets, kept, recipients, drawn, protected.sid, File, contentKey.key,
                      items.value[|kept|..]);
      drawn := drawn + |recipients|;
      protected := protected.(wrap := items.value);
      return Ok(());
    }

    /** A fresh key, the payload re-encrypted under it, and every current recipient wrapped anew. */
    method RotateKey() returns (r: Checked)
      requires Valid()
      modifies this
      ensures old(contentKey).Rotated? ==> r == Ok(()) && protected == old(protected) && contentKey == old(contentKey)
      ensures !old(contentKey).Rotated? ==>
                (r.Ok? <==> Admitted(job) && |origin.content| <= MAX_PLAINTEXT_INPUT_SIZE
                            && AllMembers(job.targets, HandlesOf(old(protected.wrap)))
                            && old(|protected.wrap|) <= MAX_WRAP_ITEMS)
      ensures r.Ok? && !old(contentKey).Rotated? ==>
                Addressees(protected.wrap) == Among(job.targets, HandlesOf(old(protected.wrap)))
                && contentKey == Rotated(job.entropy.keys(old(drawn)))
                && protected.removedRecipients == old(protected.removedRecipients)
                && IsRotation(job, old(protected), protected, contentKey.key, old(drawn))
                && HandlesOf(protected.wrap) == HandlesOf(old(protected.wrap))
                && drawn == old(drawn) + 2 + |protected.wrap|
      ensures r.Ok? ==> Valid() && contentKey.Rotated?
    {
      if contentKey.Rotated? {
        return Ok(());
      }
      var loaded := EnsureContentKey();
      if loaded.Err? {
        return loaded;
      }
      var rotated := RotateFileKey(job, origin, protected, contentKey.key, drawn);
      if rotated.Err? {
        return Err(rotated.error);
      }
      RotationKeepsOrder(job, protected, rotated.value, job.entropy.keys(drawn), drawn);
      protected := rotated.value;
      contentKey := Rotated(job.entropy.keys(drawn));
      drawn := drawn + 2 + |protected.wrap|;
      return Ok(());
    }

    /** Record the removals, drop the wraps, and rotate the key the removed ones still know. */
    method RemoveRecipients(recipients: seq<string>) returns (r: Checked)
      requires Valid()
      modifies this
      ensures var kept := Remaining(old(protected.wrap), recipients);
              if old(contentKey).Rotated? then r.Ok? <==> kept != {}
              else r.Ok? <==> kept != {} && Admitted(job) && |origin.content| <= MAX_PLAINTEXT_INPUT_SIZE
                              && AllAreMembers(job.targets, kept) && |kept| <= MAX_WRAP_ITEMS
      ensures var kept := Remaining(old(protected.wrap), recipients);
              r.Ok? ==> Addressees(protected.wrap)
                        == if old(contentKey).Rotated? then kept else Renewed(job.targets, kept)
      ensures Remaining(old(protected.wrap), recipients) == {} ==> r == Err(NoRecipientsLeft)
      ensures r.Ok? ==> HandlesOf(protected.wrap) == Minus(HandlesOf(old(protected.wrap)), recipients)
      ensures r.Ok? ==> protected.removedRecipients
                        == Recorded(old(protected.removedRecipients),
                                    ToRemove(old(protected.wrap), recipients), job.now)
      ensures r.Ok? && !old(contentKey).Rotated? ==> contentKey == Rotated(job.entropy.keys(old(drawn)))
      ensures r.Ok? ==> Valid() && contentKey.Rotated?
    {
      var toRemove := CollectToRemove(protected.wrap, recipients);
      var history := RecordRemovals(protected.removedRecipients, toRemove, job.now);
      var wrap := DropEach(protected.wrap, toRemove);
      DropKeeps(job, origin, protected, contentKey, recipients,
                protected.(removedRecipients := history, wrap := wrap));
      protected := protected.(removedRecipients := history, wrap := wrap);
      if HandlesOf(protected.wrap) == [] {
        return Err(NoRecipientsLeft);
      }
      r := RotateKey();
    }

    method ClearDisclosureHistory() returns (r: Checked)
      requires Valid()
      modifies this`protected
      ensures Valid() && r == Ok(()) && protected == old(protected).(removedRecipients := None)
    {
      protected := protected.(removedRecipients := None);
      return Ok(());
    }

    /** The document, stamped and proved with the key it now has. */
    method Finalize() returns (r: Result<FileDocument, EnvelopeError>)
      requires Valid() && |protected.wrap| <= MAX_WRAP_ITEMS
      modifies this
      ensures r.Ok? <==> Admitted(job)
      ensures r.Ok? ==> r.value.protected == old(protected).(updatedAt := job.now)
                        && r.value.signature.kid == job.signerKid
                        && SoundDocument(job.suite, origin.dir, r.value, old(CurrentKey(origin, contentKey)),
                                         origin.content)
    {
      var loaded := EnsureContentKey();
      if loaded.Err? {
        return Err(loaded.error);
      }
      protected := protected.(updatedAt := job.now);
      SoundWrapsAreAccepted(job.suite, origin.dir, protected.wrap, protected.sid, File, contentKey.key);
      return Ok(SignFile(job.suite, protected, contentKey.key, job.signerKid));
    }
  }

  // ---- the whole rewrap -----------------------------------------------------------------

  /** The key is rotated when somebody is removed and when it is asked for. */
  ghost predicate Rotates(job: Job, options: Options) {
    Removes(job.verified.protected.wrap, job.targets, options) || options.rotateKey
  }

  /** Somebody stays if anybody goes, the targets fit, and the content can be read where it must be. */
  ghost predicate Possible(job: Job, origin: Origin, options: Options) {
    var items := job.verified.protected.wrap;
    && (Removes(items, job.targets, options) ==> SomebodyStays(items, job.targets, options))
    && |job.targets| <= MAX_WRAP_ITEMS
    && (Rotates(job, options) ==> |origin.content| <= MAX_PLAINTEXT_INPUT_SIZE)
  }

  /** The removals of the plan, recorded in the history. */
  ghost function RecordedHistory(job: Job, options: Options): Option<History> {
    var p := job.verified.protected;
    Recorded(p.removedRecipients, ToRemove(p.wrap, PlanFor(p.wrap, job.targets, options).remove), job.now)
  }

  method ApplyRemovals(executor: FileRewrapExecutor, options: Options, plan: Plan) returns (r: Checked)
    requires executor.Valid() && executor.protected == executor.job.verified.protected
    requires executor.contentKey.Unloaded?
    requires plan == PlanFor(executor.protected.wrap, executor.job.targets, options)
    modifies executor
    ensures Admitted(executor.job) ==>
              (r.Ok? <==> (plan.remove != [] ==>
                             |executor.origin.content| <= MAX_PLAINTEXT_INPUT_SIZE
                             && Remaining(executor.job.verified.protected.wrap, plan.remove) != {}))
    ensures plan.remove == [] ==> executor.protected == old(executor.protected)
    ensures r.Ok? ==> executor.Valid() && (executor.contentKey.Rotated? <==> plan.remove != [])
                      && HandlesOf(executor.protected.wrap)
                         == Minus(HandlesOf(executor.job.verified.protected.wrap), plan.remove)
                      && executor.protected.removedRecipients == RecordedHistory(executor.job, options)
                      && Addressees(executor.protected.wrap)
                         == if plan.remove == [] then Addressees(executor.job.verified.protected.wrap)
                            else Renewed(executor.job.targets,
                                         Remaining(executor.job.verified.protected.wrap, plan.remove))
  {
    if plan.remove == [] {
      MinusNone(HandlesOf(executor.protected.wrap), []);
      return Ok(());
    }
    ghost var items := executor.protected.wrap;
    ghost var kept := Remaining(items, plan.remove);
    PlanIs(items, executor.job.targets, options);
    HeldByOriginal(executor.job, executor.origin);
    AddresseesCount(items);
    assert kept <= Addressees(items) && Addressees(items) == kept + (Addressees(items) - kept);
    forall a | a in kept
      ensures IsMember(executor.job.targets, a.handle)
    {
      HandlesAre(items, a);
      assert a.handle !in plan.remove;
    }
    r := executor.RemoveRecipients(plan.remove);
  }

  method ApplyRefreshes(executor: FileRewrapExecutor, options: Options, plan: Plan, ghost items: seq<WrapItem>)
    returns (r: Checked)
    requires executor.Valid() && DistinctHandles(items)
    requires plan == PlanFor(items, executor.job.targets, options)
    requires HandlesOf(executor.protected.wrap) == Minus(HandlesOf(items), plan.remove)
    requires Addressees(executor.protected.wrap)
          == if plan.remove == [] then Addressees(items)
             else Renewed(executor.job.targets, Remaining(items, plan.remove))
    modifies executor
    ensures Admitted(executor.job) ==> r.Ok?
    ensures r.Ok? ==> executor.Valid()
                      && (executor.contentKey.Rotated? <==> old(executor.contentKey).Rotated?)
                      && executor.protected == old(executor.protected).(wrap := executor.protected.wrap)
                      && Addressees(executor.protected.wrap) == Renewed(executor.job.targets, Addressees(items))
                      && HandlesOf(executor.protected.wrap) == HandlesAfterRefresh(items, executor.job.targets, options)
    ensures r.Ok? && old(executor.protected.wrap) == items ==>
              KeepsWraps(items, executor.job.targets, executor.protected.wrap)
  {
    StayersAreCurrent(items, executor.job.targets, options, Addressees(executor.protected.wrap));
    if plan.stale == [] {
      AllKept(items, executor.job.targets);
      NothingRefreshed(items, executor.job.targets, options);
      return Ok(());
    }
    ghost var wrap, draw := executor.protected.wrap, executor.drawn;
    r := executor.RewriteRecipientWraps(plan.stale);
    if r.Ok? {
      RefreshedInOrder(executor.job.suite, items, executor.job.targets, options, wrap, executor.protected.wrap,
                       executor.protected.sid, File, CurrentKey(executor.origin, executor.contentKey), draw);
    }
  }

  method ApplyAdditions(executor: FileRewrapExecutor, options: Options, plan: Plan, ghost items: seq<WrapItem>)
    returns (r: Checked)
    requires executor.Valid() && DistinctHandles(items) && |items| <= MAX_WRAP_ITEMS
    requires plan == PlanFor(items, executor.job.targets, options)
    requires Addressees(executor.protected.wrap) == Renewed(executor.job.targets, Addressees(items))
    requires HandlesOf(executor.protected.wrap) == HandlesAfterRefresh(items, executor.job.targets, options)
    modifies executor
    ensures Admitted(executor.job) ==> (r.Ok? <==> |executor.job.targets| <= MAX_WRAP_ITEMS)
    ensures r.Ok? ==> executor.Valid() && |executor.job.targets| <= MAX_WRAP_ITEMS
                      && Reaches(executor.job.targets, executor.protected.wrap)
                      && old(executor.protected.wrap) <= executor.protected.wrap
                      && HandlesOf(executor.protected.wrap) == FinalHandles(items, executor.job.targets, options)
                      && (executor.contentKey.Rotated? <==> old(executor.contentKey).Rotated?)
                      && executor.protected == old(executor.protected).(wrap := executor.protected.wrap)
  {
    AddingCompletes(items, executor.job.targets, options, executor.protected.wrap);
    if plan.add == [] {
      return Ok(());
    }
    ghost var wrap, draw := executor.protected.wrap, executor.drawn;
    r := executor.AddRecipients(plan.add);
    if r.Ok? {
      CompletedInOrder(executor.job.suite, items, executor.job.targets, options, wrap, executor.protected.wrap,
                       executor.protected.sid, File, CurrentKey(executor.origin, executor.contentKey), draw);
      AllReached(executor.job.targets, executor.protected.wrap);
    }
  }

  /** Remove, refresh, add, in this order; a step with nobody on its list is skipped. */
  method ApplyRecipientSteps(executor: FileRewrapExecutor, options: Options, plan: Plan) returns (r: Checked)
    requires executor.Valid() && executor.protected == executor.job.verified.protected
    requires executor.contentKey.Unloaded?
    requires plan == PlanFor(executor.protected.wrap, executor.job.targets, options)
    modifies executor
    ensures Admitted(executor.job) ==>
              (r.Ok? <==> |executor.job.targets| <= MAX_WRAP_ITEMS
                          && (plan.remove != [] ==>
                                |executor.origin.content| <= MAX_PLAINTEXT_INPUT_SIZE
                                && Remaining(executor.job.verified.protected.wrap, plan.remove) != {}))
    ensures r.Ok? ==> executor.Valid() && |executor.job.targets| <= MAX_WRAP_ITEMS
                      && (executor.contentKey.Rotated? <==> plan.remove != [])
                      && executor.protected.removedRecipients == RecordedHistory(executor.job, options)
                      && Reaches(executor.job.targets, executor.protected.wrap)
                      && HandlesOf(executor.protected.wrap)
                         == FinalHandles(executor.job.verified.protected.wrap, executor.job.targets, options)
                      && (plan.remove == [] ==> KeepsWraps(executor.job.verified.protected.wrap, executor.job.targets,
                                                           executor.protected.wrap))
  {
    ghost var items := executor.protected.wrap;
    HeldByOriginal(executor.job, executor.origin);
    r := ApplyRemovals(executor, options, plan);
    if r.Err? {
      return;
    }
    r := ApplyRefreshes(executor, options, plan, items);
    if r.Err? {
      return;
    }
    ghost var refreshed := executor.protected.wrap;
    r := ApplyAdditions(executor, options, plan, items);
    if r.Ok? && plan.remove == [] {
      StillKept(items, executor.job.targets, refreshed, executor.protected.wrap);
    }
  }

  method ApplyFlags(executor: FileRewrapExecutor, plan: Plan) returns (r: Checked)
    requires executor.Valid() && Reaches(executor.job.targets, executor.protected.wrap)
    requires |executor.job.targets| <= MAX_WRAP_ITEMS
    modifies executor
    ensures Admitted(executor.job) ==>
              (r.Ok? <==> (plan.rotateKey && !old(executor.contentKey).Rotated? ==>
                             |executor.origin.content| <= MAX_PLAINTEXT_INPUT_SIZE))
    ensures r.Ok? ==> executor.Valid() && Reaches(executor.job.targets, executor.protected.wrap)
                      && HandlesOf(executor.protected.wrap) == HandlesOf(old(executor.protected.wrap))
                      && (executor.contentKey.Rotated? <==> old(executor.contentKey).Rotated? || plan.rotateKey)
                      && executor.protected.removedRecipients
                         == if plan.clearHistory then None else old(executor.protected.removedRecipients)
    ensures !plan.rotateKey ==> executor.protected.wrap == old(executor.protected.wrap)
  {
    ghost var items := executor.protected.wrap;
    if plan.rotateKey {
      AllTargetsRenewed(executor.job.targets, items);
      r := executor.RotateKey();
      if r.Err? {
        return;
      }
      AllReached(executor.job.targets, executor.protected.wrap);
    }
    if plan.clearHistory {
      r := executor.ClearDisclosureHistory();
      return;
    }
    return Ok(());
  }

  /** The history a rewrap leaves. */
  ghost function FinalHistory(job: Job, options: Options): Option<History> {
    if options.clearHistory then None else RecordedHistory(job, options)
  }

  method ApplyRewrapOperationPlan(executor: FileRewrapExecutor, options: Options, plan: Plan) returns (r: Checked)
    requires executor.Valid() && executor.protected == executor.job.verified.protected
    requires executor.contentKey.Unloaded?
    requires plan == PlanFor(executor.protected.wrap, executor.job.targets, options)
    modifies executor
    ensures Admitted(executor.job) ==> (r.Ok? <==> Possible(executor.job, executor.origin, options))
    ensures r.Ok? ==> executor.Valid() && Reaches(executor.job.targets, executor.protected.wrap)
                      && HandlesOf(executor.protected.wrap)
                         == FinalHandles(executor.job.verified.protected.wrap, executor.job.targets, options)
                      && |executor.job.targets| <= MAX_WRAP_ITEMS
                      && (executor.contentKey.Rotated? <==> Rotates(executor.job, options))
                      && executor.protected.removedRecipients == FinalHistory(executor.job, options)
                      && (!executor.contentKey.Rotated? ==>
                            KeepsWraps(executor.job.verified.protected.wrap, executor.job.targets,
                                       executor.protected.wrap))
  {
    r := ApplyRecipientSteps(executor, options, plan);
    if r.Ok? {
      PlanFlags(executor.job.verified.protected.wrap, executor.job.targets, options);
      r := ApplyFlags(executor, plan);
    }
  }

  /**
   * The document is sound and holds the same content: under a key drawn for this
   * rewrap if it was rotated, and otherwise under its old key, the payload untouched.
   */
  ghost predicate StillHolds(job: Job, origin: Origin, doc: FileDocument, rotated: bool) {
    exists masterKey: Key ::
      SoundDocument(job.suite, origin.dir, doc, masterKey, origin.content)
      && if rotated then IsDrawn(job, doc.protected.payload, masterKey)
         else masterKey == origin.masterKey && doc.protected.payload == job.verified.protected.payload
  }

  /** What a rewrap that succeeds returns. */
  ghost predicate Rewrapped(job: Job, options: Options, origin: Origin, doc: FileDocument) {
    Reaches(job.targets, doc.protected.wrap)
    && HandlesOf(doc.protected.wrap) == FinalHandles(job.verified.protected.wrap, job.targets, options)
    && StillHolds(job, origin, doc, Rotates(job, options))
    && (!Rotates(job, options) ==> KeepsWraps(job.verified.protected.wrap, job.targets, doc.protected.wrap))
    && SameDocument(doc.protected, job.verified.protected)
    && doc.protected.removedRecipients == FinalHistory(job, options)
    && doc.protected.updatedAt == job.now && doc.signature.kid == job.signerKid
  }

  /**
   * A rewrap of a sound file succeeds exactly when the operator can open it and it
   * is possible. Then the file has one wrap for each target under its current key
   * id and for nobody else, the old ones first and the new ones after them in
   * ascending order, holds the same content, under a key drawn afresh if
   * somebody was removed or a rotation was asked for and otherwise under the same
   * key with the same payload and the same wraps where these were current, and
   * remembers who was removed unless the history was cleared.
   */
  method RewrapFileDocument(job: Job, options: Options, ghost origin: Origin)
    returns (r: Result<FileDocument, EnvelopeError>)
    requires Fair(job, origin)
    ensures r.Ok? <==> Admitted(job) && Possible(job, origin, options)
    ensures r.Ok? ==> Rewrapped(job, options, origin, r.value)
  {
    var executor := new FileRewrapExecutor(job, origin);
    var plan := PlanFor(executor.protected.wrap, job.targets, options);
    var applied := ApplyRewrapOperationPlan(executor, options, plan);
    if applied.Err? {
      return Err(applied.error);
    }
    r := executor.Finalize();
  }
}

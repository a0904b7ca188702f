/**
 * The read-authorization session: what one begin or resume decides from the
 * artifact and the trust state it finds. Both may be replaced between steps.
 */
module ReadReview {
  import opened Wrappers
  import opened Seqs

  type Digest = nat
  type ReviewId = nat

  /** A key as trust sees it: the member handle and the key id. */
  datatype KeyIdentity = KeyIdentity(handle: string, kid: string)

  datatype KvRead = Entry(key: string) | Entries | List | Environment

  datatype Operation = File | Kv(read: KvRead)

  datatype KnownKeyReview = Required | Skipped

  datatype ReadError =
    | TargetChanged
    | NoCapability
    | NonMemberSigner
    | EnvironmentException
    | AlreadyAccepted
    | NoNonMemberSigner
    | RecipientTrust
    | SignerRejected
    | LoadFailed
    | BindFailed
    | Rejected

  // ---- trust as one step finds it ------------------------------------------------

  datatype SignerJudgment =
    | Trusted
    | NeedsApproval(key: KeyIdentity)
    | NonMember(signer: KeyIdentity)
    | Refused

  /**
   * Members and trust store, judged against one artifact. An error among the
   * recipients does not take back the keys found pending before it.
   */
  datatype TrustState = TrustState(
    signer: SignerJudgment,
    pending: seq<KeyIdentity>,
    recipientError: Option<ReadError>,
    unresolved: seq<string>)

  /** What the preflight found; `requests` are the keys awaiting local approval. */
  datatype ReadTrustReview = ReadTrustReview(
    requests: seq<KeyIdentity>,
    signerRequests: nat,
    nonMemberSigner: Option<KeyIdentity>,
    unresolved: seq<string>,
    recipientError: Option<ReadError>)

  datatype Exceptions = Exceptions(review: KnownKeyReview, accepted: Option<KeyIdentity>)

  /** Requests are added once each, the signer's own first. */
  function PushRequests(requests: seq<KeyIdentity>, pending: seq<KeyIdentity>): seq<KeyIdentity>
    decreases pending
  {
    if pending == [] then requests
    else PushRequests(PushUnique(requests, pending[0]), pending[1..])
  }

  function SignerRequests(signer: SignerJudgment): seq<KeyIdentity> {
    if signer.NeedsApproval? then [signer.key] else []
  }

  function PreflightRead(trust: TrustState, review: KnownKeyReview, allowNonMember: bool)
    : Result<ReadTrustReview, ReadError>
  {
    if trust.signer.Refused? then Err(SignerRejected)
    else if trust.signer.NonMember? && !allowNonMember then Err(NonMemberSigner)
    else
      var signerRequests := SignerRequests(trust.signer);
      var requests := PushRequests(signerRequests, trust.pending);
      Ok(ReadTrustReview(
        if review.Skipped? then [] else requests,
        if review.Skipped? then 0 else |signerRequests|,
        if trust.signer.NonMember? then Some(trust.signer.signer) else None,
        if trust.recipientError.None? then trust.unresolved else [],
        trust.recipientError))
  }

  /** The second pass over the artifact, under the exceptions that were granted. */
  function EvaluateReadRequests(trust: TrustState, operation: Operation, exceptions: Exceptions)
    : Result<seq<KeyIdentity>, ReadError>
  {
    if operation == Kv(Environment) && exceptions.accepted.Some? then Err(EnvironmentException)
    else if trust.signer.Refused? then Err(SignerRejected)
    else if trust.signer.NonMember? && exceptions.accepted != Some(trust.signer.signer) then Err(NonMemberSigner)
    else
      match trust.recipientError
      case Some(e) => Err(e)
      case None =>
        Ok(if exceptions.review.Skipped? then [] else PushRequests(SignerRequests(trust.signer), trust.pending))
  }

  // ---- reviews and acceptances ------------------------------------------------------

  datatype Binding = Binding(reviewId: ReviewId, digest: Digest, operation: Operation)

  /** One-shot consent to one signer, for one artifact, operation and review id. */
  datatype Acceptance = Acceptance(binding: Binding, signer: KeyIdentity)

  datatype Source = FileSource(name: string) | ContentSource(content: Digest) | KvSource(name: string)

  datatype Review = Review(
    binding: Binding,
    requests: seq<KeyIdentity>,
    firstRequestIsSigner: bool,
    nonMemberSigner: Option<KeyIdentity>,
    unresolved: seq<string>,
    allowNonMember: bool,
    acceptanceIssued: bool,
    acceptedNonMember: Option<Acceptance>,
    source: Source)

  datatype Capability = Capability(digest: Digest, operation: Operation, unresolved: seq<string>)

  datatype Decision = Authorized(capability: Capability) | ReviewRequired(review: Review)

  /** The review after an attempt to accept its signer, and what the attempt returned. */
  function AcceptNonMember(review: Review): (Review, Result<Acceptance, ReadError>) {
    if review.acceptanceIssued then (review, Err(AlreadyAccepted))
    else if review.nonMemberSigner.None? then (review, Err(NoNonMemberSigner))
    else (review.(acceptanceIssued := true), Ok(Acceptance(review.binding, review.nonMemberSigner.value)))
  }

  /** The caller's own review, answered in place. */
  class PendingReview {
    var review: Review

    constructor (review: Review)
      ensures this.review == review
    {
      this.review := review;
    }

    method Accept() returns (r: Result<Acceptance, ReadError>)
      modifies this
      ensures (review, r) == AcceptNonMember(old(review))
    {
      if review.acceptanceIssued {
        return Err(AlreadyAccepted);
      }
      if review.nonMemberSigner.None? {
        return Err(NoNonMemberSigner);
      }
      r := Ok(Acceptance(review.binding, review.nonMemberSigner.value));
      review := review.(acceptanceIssued := true);
    }
  }

  // ---- one evaluation ------------------------------------------------------------------

  function ValidateAcceptance(preflight: ReadTrustReview, binding: Binding, acceptance: Acceptance)
    : Result<(), ReadError>
  {
    if preflight.nonMemberSigner == Some(acceptance.signer) && acceptance.binding == binding
    then Ok(())
    else Err(TargetChanged)
  }

  datatype Resolution = Resolution(exceptions: Option<Exceptions>, accepted: Option<Acceptance>)

  function ResolveExceptions(preflight: ReadTrustReview, binding: Binding, acceptance: Option<Acceptance>,
                             acceptedBefore: Option<Acceptance>, review: KnownKeyReview)
    : Result<Resolution, ReadError>
  {
    if acceptance.Some? && acceptedBefore.Some? then Err(TargetChanged)
    else
      var accepted := if acceptance.Some? then acceptance else acceptedBefore;
      match accepted
      case None =>
        Ok(Resolution(if preflight.nonMemberSigner.Some? || preflight.requests != [] then None
                      else Some(Exceptions(review, None)), None))
      case Some(a) =>
        var _ :- ValidateAcceptance(preflight, binding, a);
        Ok(Resolution(Some(Exceptions(review, Some(a.signer))), Some(a)))
  }

  function BuildReadReview(preflight: ReadTrustReview, binding: Binding, allowNonMember: bool,
                           accepted: Option<Acceptance>, source: Source): Review
  {
    var signerPending := accepted.None? && preflight.nonMemberSigner.Some?;
    Review(binding,
           if signerPending then [] else preflight.requests,
           !signerPending && preflight.signerRequests > 0,
           if accepted.None? then preflight.nonMemberSigner else None,
           preflight.unresolved, allowNonMember, false, accepted, source)
  }

  function ReviewOrContinue(preflight: ReadTrustReview, binding: Binding, allowNonMember: bool,
                            accepted: Option<Acceptance>, source: Source): Result<Decision, ReadError>
  {
    if preflight.requests == [] && (preflight.nonMemberSigner.None? || accepted.Some?) then
      match preflight.recipientError case Some(e) => Err(e) case None => Err(NoCapability)
    else
      Ok(ReviewRequired(BuildReadReview(preflight, binding, allowNonMember, accepted, source)))
  }

  /**
   * Everything one step reads from outside: the artifact, the trust state, the key
   * binding. `granting` is what the second pass judges. One evaluator makes both
   * passes, so it is the same trust state; nothing about safety depends on it.
   */
  datatype Env = Env(
    artifact: Result<Digest, ReadError>,
    trust: Result<TrustState, ReadError>,
    granting: TrustState,
    binds: bool,
    review: KnownKeyReview)

  ghost predicate OneEvaluator(env: Env) {
    env.trust.Ok? ==> env.granting == env.trust.value
  }

  function EvaluateRead(env: Env, binding: Binding, allowNonMember: bool, acceptance: Option<Acceptance>,
                        acceptedBefore: Option<Acceptance>, source: Source): Result<Decision, ReadError>
  {
    var trust :- env.trust;
    var preflight :- PreflightRead(trust, env.review, allowNonMember);
    var resolution :- ResolveExceptions(preflight, binding, acceptance, acceptedBefore, env.review);
    match resolution.exceptions
    case None => ReviewOrContinue(preflight, binding, allowNonMember, None, source)
    case Some(exceptions) =>
      var requests :- EvaluateReadRequests(env.granting, binding.operation, exceptions);
      if requests != [] then ReviewOrContinue(preflight, binding, true, resolution.accepted, source)
      else if !env.binds then Err(BindFailed)
      else Ok(Authorized(Capability(binding.digest, binding.operation, preflight.unresolved)))
  }

  /** Content read from a stream is retained, so it cannot change between steps. */
  function Load(source: Source, operation: Operation, env: Env): Result<Digest, ReadError> {
    match source
    case FileSource(_) => if operation.File? then env.artifact else Err(TargetChanged)
    case ContentSource(content) => if operation.File? then Ok(content) else Err(TargetChanged)
    case KvSource(_) => if operation.Kv? then env.artifact else Err(TargetChanged)
  }

  function EffectiveAllow(operation: Operation, allowNonMember: bool): bool {
    allowNonMember && operation != Kv(Environment)
  }

  function BeginRead(id: ReviewId, source: Source, operation: Operation, allowNonMember: bool, env: Env)
    : Result<Decision, ReadError>
  {
    var digest :- Load(source, operation, env);
    EvaluateRead(env, Binding(id, digest, operation), EffectiveAllow(operation, allowNonMember),
                 None, None, source)
  }

  function ValidateTarget(review: Review, digest: Digest): Result<(), ReadError> {
    if review.binding.digest == digest then Ok(()) else Err(TargetChanged)
  }

  function ResumeRead(review: Review, acceptance: Option<Acceptance>, env: Env): Result<Decision, ReadError> {
    var digest :- Load(review.source, review.binding.operation, env);
    var _ :- ValidateTarget(review, digest);
    EvaluateRead(env, review.binding, review.allowNonMember, acceptance, review.acceptedNonMember, review.source)
  }

  // ---- what one evaluation can return ---------------------------------------------------

  /** A review asks exactly one question: one signer to accept, or keys to approve. */
  predicate AsksOneQuestion(review: Review) {
    review.nonMemberSigner.Some? <==> review.requests == []
  }

  /** Under the same trust state the second pass asks for what the preflight asked for. */
  lemma PassesAgree(trust: TrustState, review: KnownKeyReview, allow: bool, operation: Operation,
                    accepted: Option<KeyIdentity>)
    requires PreflightRead(trust, review, allow).Ok?
    requires EvaluateReadRequests(trust, operation, Exceptions(review, accepted)).Ok?
    ensures EvaluateReadRequests(trust, operation, Exceptions(review, accepted)).value
         == PreflightRead(trust, review, allow).value.requests
  {
  }

  /**
   * No read ends with the internal error of having neither a capability nor a
   * review to show for itself.
   */
  lemma NeverWithoutOutcome(env: Env, binding: Binding, allow: bool, acceptance: Option<Acceptance>,
                            acceptedBefore: Option<Acceptance>, source: Source)
    requires OneEvaluator(env)
    requires env.trust.Err? ==> env.trust.error != NoCapability
    requires env.granting.recipientError != Some(NoCapability)
    ensures EvaluateRead(env, binding, allow, acceptance, acceptedBefore, source) != Err(NoCapability)
  {
  }

  /** What a review carries over from the evaluation that raised it. */
  ghost predicate RaisedBy(review: Review, trust: TrustState, binding: Binding, allow: bool,
                           acceptance: Option<Acceptance>, acceptedBefore: Option<Acceptance>, source: Source) {
    review.binding == binding && review.source == source
    && AsksOneQuestion(review) && !review.acceptanceIssued
    && (review.nonMemberSigner.Some? ==> allow && review.acceptedNonMember.None?
                                         && trust.signer == NonMember(review.nonMemberSigner.value))
    && (review.allowNonMember == allow || review.acceptedNonMember.Some?)
    && review.acceptedNonMember == (if acceptance.Some? then acceptance else acceptedBefore)
    && (review.acceptedNonMember.Some? ==> Justified(review.acceptedNonMember.value, trust, binding, allow))
    && (review.firstRequestIsSigner <==> review.requests != [] && trust.signer == NeedsApproval(review.requests[0]))
    && review.unresolved == Reported(trust)
  }

  /** The key ids shown as unresolved: none where the recipients could not be judged. */
  function Reported(trust: TrustState): seq<string> {
    if trust.recipientError.None? then trust.unresolved else []
  }

  /** The signer now reported is the one consented to, for this very read. */
  ghost predicate Justified(acceptance: Acceptance, trust: TrustState, binding: Binding, allow: bool) {
    allow && acceptance.binding == binding && trust.signer == NonMember(acceptance.signer)
  }

  lemma ReviewIsRaisedBy(env: Env, binding: Binding, allow: bool, acceptance: Option<Acceptance>,
                         acceptedBefore: Option<Acceptance>, source: Source)
    requires var d := EvaluateRead(env, binding, allow, acceptance, acceptedBefore, source);
             d.Ok? && d.value.ReviewRequired?
    ensures var d := EvaluateRead(env, binding, allow, acceptance, acceptedBefore, source);
            RaisedBy(d.value.review, env.trust.value, binding, allow, acceptance, acceptedBefore, source)
    ensures acceptance.None? || acceptedBefore.None?
  {
    RequestsEmpty(SignerRequests(env.trust.value.signer), env.trust.value.pending);
    PushedInOrder(SignerRequests(env.trust.value.signer), env.trust.value.pending);
  }

  /**
   * A capability is issued for the bound digest and operation only; a signer
   * outside the members is passed over only under a justified acceptance, and
   * never for an environment. The second pass may have judged another trust state.
   */
  lemma CapabilityIsJustified(env: Env, binding: Binding, allow: bool, acceptance: Option<Acceptance>,
                              acceptedBefore: Option<Acceptance>, source: Source)
    requires var d := EvaluateRead(env, binding, allow, acceptance, acceptedBefore, source);
             d.Ok? && d.value.Authorized?
    ensures var capability := EvaluateRead(env, binding, allow, acceptance, acceptedBefore, source).value.capability;
            capability.digest == binding.digest && capability.operation == binding.operation
    ensures acceptance.None? || acceptedBefore.None?
    ensures var trust, accepted := env.trust.value, if acceptance.Some? then acceptance else acceptedBefore;
            (trust.signer.NonMember? <==> accepted.Some?)
            && (accepted.Some? ==> Justified(accepted.value, trust, binding, allow)
                                   && binding.operation != Kv(Environment))
    ensures var trust, granting := env.trust.value, env.granting;
            !granting.signer.Refused? && granting.recipientError.None?
            && (granting.signer.NonMember? ==> trust.signer == granting.signer)
            && (env.review.Required? ==> granting.pending == [] && !granting.signer.NeedsApproval?)
  {
    RequestsEmpty(SignerRequests(env.granting.signer), env.granting.pending);
  }

  lemma {:induction false} RequestsEmpty(requests: seq<KeyIdentity>, pending: seq<KeyIdentity>)
    ensures |PushRequests(requests, pending)| >= |requests|
    ensures PushRequests(requests, pending) == [] <==> requests == [] && pending == []
    decreases pending
  {
    if pending != [] {
      RequestsEmpty(PushUnique(requests, pending[0]), pending[1..]);
    }
  }

  // ---- the order of requests ---------------------------------------------------------------

  lemma {:induction false} PushRequestsIs(requests: seq<KeyIdentity>, pending: seq<KeyIdentity>)
    requires NoRepeats(requests)
    ensures NoRepeats(PushRequests(requests, pending))
    ensures forall k :: k in PushRequests(requests, pending) <==> k in requests || k in pending
    decreases pending
  {
    if pending != [] {
      PushRequestsIs(PushUnique(requests, pending[0]), pending[1..]);
    }
  }

  /** Where a key first stands, or the end. */
  function FirstAt(keys: seq<KeyIdentity>, key: KeyIdentity): nat {
    if keys == [] || keys[0] == key then 0 else 1 + FirstAt(keys[1..], key)
  }

  /** The requests there were come first, and the new ones follow in the order they were found in. */
  lemma {:induction false} PushedInOrder(requests: seq<KeyIdentity>, pending: seq<KeyIdentity>)
    requires NoRepeats(requests)
    ensures var all := PushRequests(requests, pending);
            requests <= all
            && forall i, j :: |requests| <= i < j < |all| ==> FirstAt(pending, all[i]) < FirstAt(pending, all[j])
    decreases pending
  {
    if pending != [] {
      var all, next := PushRequests(requests, pending), PushUnique(requests, pending[0]);
      PushedInOrder(next, pending[1..]);
      PushRequestsIs(requests, pending);
      assert pending[0] in next;
      var at :| 0 <= at < |next| && next[at] == pending[0];
      forall i, j | |requests| <= i < j < |all|
        ensures FirstAt(pending, all[i]) < FirstAt(pending, all[j])
      {
        assert all[at] == pending[0] && at <= |requests|;
        assert all[j] != pending[0] && FirstAt(pending, all[j]) == 1 + FirstAt(pending[1..], all[j]);
        if i != at {
          assert all[i] != pending[0] && FirstAt(pending, all[i]) == 1 + FirstAt(pending[1..], all[i]);
          assert |next| <= i;
        }
      }
    }
  }

  // ---- exactly what a step decides -------------------------------------------------------------

  /** The keys a run must have approved before it reads. */
  function Wanted(trust: TrustState, review: KnownKeyReview): seq<KeyIdentity> {
    if review.Skipped? then [] else PushRequests(SignerRequests(trust.signer), trust.pending)
  }

  /** Nothing stands in the way any more but the keys, the recipients and the binding. */
  function Opened(env: Env, trust: TrustState, binding: Binding, allow: bool, accepted: Option<Acceptance>,
                  source: Source): Result<Decision, ReadError>
  {
    var wanted := Wanted(trust, env.review);
    if trust.recipientError.Some? && (wanted == [] || accepted.Some?) then Err(trust.recipientError.value)
    else if wanted != [] then
      Ok(ReviewRequired(Review(binding, wanted, trust.signer.NeedsApproval?, None, Reported(trust), allow, false,
                               accepted, source)))
    else if !env.binds then Err(BindFailed)
    else Ok(Authorized(Capability(binding.digest, binding.operation, trust.unresolved)))
  }

  /**
   * The decision in one pass: a signer outside the members is asked about first, its
   * acceptance must be of this very read and signer, and then come the keys.
   */
  function Verdict(env: Env, binding: Binding, allow: bool, acceptance: Option<Acceptance>,
                   acceptedBefore: Option<Acceptance>, source: Source): Result<Decision, ReadError>
  {
    var trust :- env.trust;
    var accepted := if acceptance.Some? then acceptance else acceptedBefore;
    if trust.signer.Refused? then Err(SignerRejected)
    else if trust.signer.NonMember? && !allow then Err(NonMemberSigner)
    else if acceptance.Some? && acceptedBefore.Some? then Err(TargetChanged)
    else if accepted.Some? && accepted != Some(Acceptance(binding, accepted.value.signer)) then Err(TargetChanged)
    else if accepted.Some? && trust.signer != NonMember(accepted.value.signer) then Err(TargetChanged)
    else if accepted.Some? && binding.operation == Kv(Environment) then Err(EnvironmentException)
    else if accepted.None? && trust.signer.NonMember? then
      Ok(ReviewRequired(Review(binding, [], false, Some(trust.signer.signer), Reported(trust), allow, false, None,
                               source)))
    else Opened(env, trust, binding, allow, accepted, source)
  }

  /** The preflight, the exceptions and the second pass together come to just that. */
  lemma EvaluationIsVerdict(env: Env, binding: Binding, allow: bool, acceptance: Option<Acceptance>,
                            acceptedBefore: Option<Acceptance>, source: Source)
    requires OneEvaluator(env)
    ensures EvaluateRead(env, binding, allow, acceptance, acceptedBefore, source)
         == Verdict(env, binding, allow, acceptance, acceptedBefore, source)
  {
    if env.trust.Ok? {
      RequestsEmpty(SignerRequests(env.trust.value.signer), env.trust.value.pending);
    }
  }

  /**
   * A source yields the artifact it names, as it is now, and content that was read from
   * a stream as it was then; a source of the other kind yields nothing.
   */
  lemma LoadsExactly(source: Source, operation: Operation, env: Env)
    ensures source.KvSource? == operation.Kv? ==>
              Load(source, operation, env) == if source.ContentSource? then Ok(source.content) else env.artifact
    ensures source.KvSource? != operation.Kv? ==> Load(source, operation, env) == Err(TargetChanged)
  {
  }

  /** A review is resumed over the artifact it was raised for, and over no other. */
  lemma ResumesOnlyItsArtifact(review: Review, acceptance: Option<Acceptance>, env: Env)
    ensures ResumeRead(review, acceptance, env).Ok? ==>
              Load(review.source, review.binding.operation, env) == Ok(review.binding.digest)
    ensures var loaded := Load(review.source, review.binding.operation, env);
            loaded.Ok? && loaded.value != review.binding.digest ==>
              ResumeRead(review, acceptance, env) == Err(TargetChanged)
  {
  }

  /** A review names a signer to be accepted once: a second attempt is refused, and nothing else changes. */
  lemma AcceptedOnce(review: Review)
    ensures var (after, minted) := AcceptNonMember(review);
            var (later, again) := AcceptNonMember(after);
            minted == (if review.acceptanceIssued then Err(AlreadyAccepted)
                       else if review.nonMemberSigner.None? then Err(NoNonMemberSigner)
                       else Ok(Acceptance(review.binding, review.nonMemberSigner.value)))
            && (minted.Ok? ==> again == Err(AlreadyAccepted)) && (minted.Err? ==> again == minted)
            && later == after && after == review.(acceptanceIssued := review.acceptanceIssued || minted.Ok?)
  {
  }
}

/**
 * The command's review loop over one artifact whose pending keys are exactly
 * the artifact's keys missing from a trust store that only grows. Beside it other
 * commands approve keys, and may put another artifact in its place.
 */
module ReadLoop {
  import opened Wrappers
  import opened Seqs
  import opened ReadReview

  /** The judgment of the artifact's signer under a store that approves `approved`. */
  datatype SignerKind = Member(key: KeyIdentity) | Outsider(key: KeyIdentity)

  function JudgeSigner(signer: SignerKind, approved: set<KeyIdentity>): SignerJudgment {
    match signer
    case Outsider(key) => NonMember(key)
    case Member(key) => if key in approved then Trusted else NeedsApproval(key)
  }

  function Missing(keys: seq<KeyIdentity>, approved: set<KeyIdentity>): seq<KeyIdentity> {
    if keys == [] then []
    else if keys[0] in approved then Missing(keys[1..], approved)
    else [keys[0]] + Missing(keys[1..], approved)
  }

  /** The keys one store leaves to be approved, each once, a member signer's first. */
  function Unapproved(keys: seq<KeyIdentity>, signer: SignerKind, approved: set<KeyIdentity>): seq<KeyIdentity> {
    PushRequests(SignerRequests(JudgeSigner(signer, approved)), Missing(keys, approved))
  }

  lemma {:induction false} MissingIs(keys: seq<KeyIdentity>, approved: set<KeyIdentity>)
    ensures forall k :: k in Missing(keys, approved) <==> k in keys && k !in approved
  {
    if keys != [] {
      MissingIs(keys[1..], approved);
    }
  }

  lemma UnapprovedIs(keys: seq<KeyIdentity>, signer: SignerKind, approved: set<KeyIdentity>)
    ensures NoRepeats(Unapproved(keys, signer, approved))
    ensures forall k :: k in Unapproved(keys, signer, approved)
                   <==> k !in approved && (k in keys || signer == Member(k))
  {
    PushRequestsIs(SignerRequests(JudgeSigner(signer, approved)), Missing(keys, approved));
    MissingIs(keys, approved);
  }

  /** Approving one pending key leaves fewer, whatever else has been approved since. */
  lemma ApprovalShrinks(keys: seq<KeyIdentity>, signer: SignerKind, before: set<KeyIdentity>, after: set<KeyIdentity>,
                        key: KeyIdentity)
    requires before <= after && key in after && key in Unapproved(keys, signer, before)
    ensures |Unapproved(keys, signer, after)| < |Unapproved(keys, signer, before)|
  {
    UnapprovedIs(keys, signer, before);
    UnapprovedIs(keys, signer, after);
    ProperSubsetCount(Unapproved(keys, signer, after), Unapproved(keys, signer, before), key);
  }

  lemma UnapprovedShrinks(keys: seq<KeyIdentity>, signer: SignerKind, before: set<KeyIdentity>, after: set<KeyIdentity>)
    requires before <= after
    ensures |Unapproved(keys, signer, after)| <= |Unapproved(keys, signer, before)|
  {
    UnapprovedIs(keys, signer, before);
    UnapprovedIs(keys, signer, after);
    SubsetCount(Unapproved(keys, signer, after), Unapproved(keys, signer, before));
  }

  /** What other commands have done by the next step: keys approved, and maybe the artifact replaced. */
  datatype Interference = Interference(approved: set<KeyIdentity>, replacement: Option<Digest>)

  /** The session over the artifact found when it begins, with the store other commands approve into as well. */
  class ReadSession {
    const digest: Digest
    const keys: seq<KeyIdentity>
    const signer: SignerKind
    const review: KnownKeyReview
    /** How trust judges whatever is put in the artifact's place. */
    const elsewhere: TrustState
    var approved: set<KeyIdentity>
    /** The digest of the artifact that is stored now. */
    var stored: Digest
    /** What other commands will have done by the next steps of this one. */
    var others: seq<Interference>

    constructor (digest: Digest, keys: seq<KeyIdentity>, signer: SignerKind, review: KnownKeyReview,
                 elsewhere: TrustState, approved: set<KeyIdentity>, others: seq<Interference>)
      ensures this.digest == digest == stored && this.keys == keys && this.signer == signer && this.review == review
      ensures this.elsewhere == elsewhere && this.approved == approved && this.others == others
    {
      this.digest, this.keys, this.signer, this.review, this.elsewhere := digest, keys, signer, review, elsewhere;
      this.approved, this.stored, this.others := approved, digest, others;
    }

    ghost function Pending(): seq<KeyIdentity>
      reads this
    {
      Unapproved(keys, signer, approved)
    }

    /** The source still yields the artifact the session is about. */
    predicate Intact(source: Source)
      reads this
    {
      source.ContentSource? || stored == digest
    }

    function CurrentEnv(source: Source): Env
      reads this
    {
      var trust := if Intact(source) then TrustState(JudgeSigner(signer, approved), Missing(keys, approved), None, [])
                   else elsewhere;
      Env(Ok(stored), Ok(trust), trust, true, review)
    }

    method Interfere()
      modifies this
      ensures old(approved) <= approved
    {
      if others != [] {
        approved := approved + others[0].approved;
        if others[0].replacement.Some? {
          stored := others[0].replacement.value;
        }
        others := others[1..];
      }
    }

    method ApplyApproval(key: KeyIdentity)
      modifies this
      ensures approved == old(approved) + {key} && others == old(others) && stored == old(stored)
    {
      approved := approved + {key};
    }

    /** Begin the read of the artifact that is found. */
    method Begin(id: ReviewId, source: Source, operation: Operation, allowNonMember: bool)
      returns (r: Result<Decision, ReadError>)
      ensures r == BeginRead(id, source, operation, allowNonMember, CurrentEnv(source))
    {
      r := BeginRead(id, source, operation, allowNonMember, CurrentEnv(source));
    }

    /** Resume it; whoever runs beside this command goes first. */
    method Resume(pending: Review, acceptance: Option<Acceptance>) returns (r: Result<Decision, ReadError>)
      modifies this
      ensures old(approved) <= approved
      ensures r == ResumeRead(pending, acceptance, CurrentEnv(pending.source))
    {
      Interfere();
      r := ResumeRead(pending, acceptance, CurrentEnv(pending.source));
    }
  }

  /** Either the one answer the review asks for, or the refusal of the person asked. */
  method ReviewPendingRequest(session: ReadSession, pending: PendingReview, confirmed: bool)
    returns (r: Result<Option<Acceptance>, ReadError>)
    requires AsksOneQuestion(pending.review) && !pending.review.acceptanceIssued
    modifies session, pending
    ensures r.Ok? <==> confirmed
    ensures r.Err? ==> r.error == Rejected
    ensures old(session.approved) <= session.approved && session.stored == old(session.stored)
    ensures r.Ok? && old(pending.review).nonMemberSigner.Some? ==>
              r.value == Some(Acceptance(old(pending.review).binding, old(pending.review).nonMemberSigner.value))
    ensures r.Ok? && old(pending.review).nonMemberSigner.None? ==>
              r.value == None && old(pending.review).requests[0] in session.approved
    ensures pending.review.(acceptanceIssued := false) == old(pending.review).(acceptanceIssued := false)
  {
    if !confirmed {
      return Err(Rejected);
    }
    if pending.review.nonMemberSigner.Some? {
      var acceptance := pending.Accept();
      return Ok(Some(acceptance.value));
    }
    if pending.review.requests == [] {
      return Err(TargetChanged);
    }
    session.ApplyApproval(pending.review.requests[0]);
    return Ok(None);
  }

  /** The source is of the operation's kind and yields the session's artifact. */
  predicate ReadsSession(session: ReadSession, source: Source, operation: Operation) {
    match source
    case FileSource(_) => operation.File?
    case ContentSource(content) => operation.File? && content == session.digest
    case KvSource(_) => operation.Kv?
  }

  /** The capability is for this read, and no key of the artifact that needs approval lacks it. */
  ghost predicate Granted(session: ReadSession, operation: Operation, capability: Capability,
                          approved: set<KeyIdentity>)
  {
    capability.digest == session.digest && capability.operation == operation
    && (session.review.Required? ==> forall k :: k in session.keys || session.signer == Member(k) ==> k in approved)
  }

  /** What a decision of the session amounts to, when `approved` is the store it saw. */
  ghost predicate Sound(session: ReadSession, source: Source, operation: Operation, decision: Decision,
                        approved: set<KeyIdentity>)
  {
    if decision.Authorized? then Granted(session, operation, decision.capability, approved)
    else
      var review := decision.review;
      review.binding.digest == session.digest && review.binding.operation == operation && AsksOneQuestion(review)
      && review.source == source && ReadsSession(session, source, operation)
      && (session.signer.Outsider? ==>
            review.allowNonMember && review.binding.operation != Kv(Environment)
            && (review.nonMemberSigner.Some? <==> review.acceptedNonMember.None?))
      && (review.nonMemberSigner.Some? ==> session.signer == Outsider(review.nonMemberSigner.value))
      && (review.acceptedNonMember.Some? ==>
            session.signer == Outsider(review.acceptedNonMember.value.signer)
            && review.acceptedNonMember.value.binding == review.binding)
      && (review.nonMemberSigner.None? ==> review.requests == Unapproved(session.keys, session.signer, approved))
  }

  predicate Unanswered(decision: Decision) {
    decision.ReviewRequired? ==> !decision.review.acceptanceIssued
  }

  /** Reviews a decision may still lead to. */
  function Measure(decision: Decision, pending: nat): nat {
    match decision
    case Authorized(_) => 0
    case ReviewRequired(review) => (if review.nonMemberSigner.Some? then 1 + pending else |review.requests|)
  }

  /** The second pass has nothing to ask for only when every key in need of approval has it. */
  lemma NothingMissing(session: ReadSession)
    ensures session.Pending() == [] ==>
              forall k :: k in session.keys || session.signer == Member(k) ==> k in session.approved
  {
    UnapprovedIs(session.keys, session.signer, session.approved);
  }

  lemma BeginIsSound(session: ReadSession, id: ReviewId, source: Source, operation: Operation, allow: bool)
    requires ReadsSession(session, source, operation) && session.Intact(source)
    ensures var r := BeginRead(id, source, operation, allow, session.CurrentEnv(source));
            (r.Err? <==> session.signer.Outsider? && !EffectiveAllow(operation, allow))
            && (r.Err? ==> r.error == NonMemberSigner)
            && (r.Ok? && session.signer.Outsider? ==> r.value.ReviewRequired?)
            && (r.Ok? ==> Sound(session, source, operation, r.value, session.approved) && Unanswered(r.value)
                          && Measure(r.value, |session.Pending()|) <= |session.Pending()| + 1)
  {
    NothingMissing(session);
  }

  /** The signer was asked about and accepted: the next question, if any, is about keys. */
  lemma AcceptedResumes(session: ReadSession, source: Source, operation: Operation, review: Review,
                        before: set<KeyIdentity>, acceptance: Acceptance)
    requires session.Intact(source)
    requires Sound(session, source, operation, ReviewRequired(review), before) && review.nonMemberSigner.Some?
    requires acceptance == Acceptance(review.binding, review.nonMemberSigner.value)
    ensures var r := ResumeRead(review, Some(acceptance), session.CurrentEnv(source));
            r.Ok? && Sound(session, source, operation, r.value, session.approved) && Unanswered(r.value)
            && Measure(r.value, 0) <= |session.Pending()|
            && (r.value.ReviewRequired? ==> r.value.review.nonMemberSigner.None?)
  {
    NothingMissing(session);
  }

  /** A key was asked about and approved: the next question, if any, is about other keys. */
  lemma ApprovedResumes(session: ReadSession, source: Source, operation: Operation, review: Review,
                        before: set<KeyIdentity>)
    requires session.Intact(source)
    requires Sound(session, source, operation, ReviewRequired(review), before) && review.nonMemberSigner.None?
    ensures var r := ResumeRead(review, None, session.CurrentEnv(source));
            r.Ok? && Sound(session, source, operation, r.value, session.approved) && Unanswered(r.value)
            && Measure(r.value, 0) <= |session.Pending()|
            && (r.value.ReviewRequired? ==> r.value.review.nonMemberSigner.None?)
  {
    NothingMissing(session);
  }

  /** Where another artifact has been put in its place, the resumed read is refused. */
  lemma ReplacedIsRefused(session: ReadSession, source: Source, operation: Operation, review: Review,
                          before: set<KeyIdentity>, acceptance: Option<Acceptance>)
    requires Sound(session, source, operation, ReviewRequired(review), before) && !session.Intact(source)
    ensures ResumeRead(review, acceptance, session.CurrentEnv(source)) == Err(TargetChanged)
  {
    LoadsExactly(source, operation, session.CurrentEnv(source));
    ResumesOnlyItsArtifact(review, acceptance, session.CurrentEnv(source));
  }

  /**
   * A resumed review over the same artifact is granted, or asks the next question and is
   * closer to its end; over another one it is refused.
   */
  lemma ResumeIsSound(session: ReadSession, source: Source, operation: Operation, review: Review,
                      before: set<KeyIdentity>, acceptance: Option<Acceptance>)
    requires Sound(session, source, operation, ReviewRequired(review), before)
    requires before <= session.approved
    requires review.nonMemberSigner.Some? ==>
               acceptance == Some(Acceptance(review.binding, review.nonMemberSigner.value))
    requires review.nonMemberSigner.None? ==> acceptance.None? && review.requests[0] in session.approved
    ensures var r := ResumeRead(review, acceptance, session.CurrentEnv(source));
            if !session.Intact(source) then r == Err(TargetChanged)
            else
              r.Ok? && Sound(session, source, operation, r.value, session.approved) && Unanswered(r.value)
              && Measure(r.value, |session.Pending()|)
                 < Measure(ReviewRequired(review), |Unapproved(session.keys, session.signer, before)|)
              && (r.value.ReviewRequired? ==> r.value.review.nonMemberSigner.None?)
  {
    UnapprovedShrinks(session.keys, session.signer, before, session.approved);
    if !session.Intact(source) {
      ReplacedIsRefused(session, source, operation, review, before, acceptance);
    } else if review.nonMemberSigner.None? {
      ApprovalShrinks(session.keys, session.signer, before, session.approved, review.requests[0]);
      ApprovedResumes(session, source, operation, review, before);
    } else {
      AcceptedResumes(session, source, operation, review, before, acceptance.value);
    }
  }

  /**
   * Answer every review the session raises. If each is confirmed and the artifact stays
   * what it was, the read is granted, after at most one review more than there were
   * unapproved keys and with none left; the only other endings are the refusal of the
   * person asked, and the refusal of an artifact that has been replaced. No answer is
   * ever missing its question.
   */
  method AuthorizeReadDecision(session: ReadSession, ghost source: Source, ghost operation: Operation,
                               first: Decision, confirm: nat -> bool)
    returns (r: Result<Capability, ReadError>, reviews: nat)
    requires Sound(session, source, operation, first, session.approved) && Unanswered(first)
    requires session.Intact(source)
    modifies session
    ensures reviews <= Measure(first, |old(session.Pending())|) <= |old(session.Pending())| + 1
    ensures r.Err? ==> r.error == Rejected || r.error == TargetChanged
    ensures r.Err? && r.error == Rejected ==> reviews > 0 && !confirm(reviews - 1)
    ensures r.Err? && r.error == TargetChanged ==> reviews > 0 && !session.Intact(source)
    ensures r.Ok? ==> Granted(session, operation, r.value, session.approved) && session.Intact(source)
                      && (first.ReviewRequired? ==> reviews > 0) && forall n :: 0 <= n < reviews ==> confirm(n)
  {
    var decision := first;
    reviews := 0;
    ghost var seen := session.approved;
    ghost var budget := Measure(first, |session.Pending()|);
    while true
      invariant seen <= session.approved && Sound(session, source, operation, decision, seen)
      invariant Unanswered(decision) && (first.ReviewRequired? && reviews == 0 ==> decision == first)
      invariant session.Intact(source)
      invariant reviews + Measure(decision, |Unapproved(session.keys, session.signer, seen)|) <= budget
      invariant forall n :: 0 <= n < reviews ==> confirm(n)
      decreases Measure(decision, |Unapproved(session.keys, session.signer, seen)|)
    {
      match decision {
        case Authorized(capability) =>
          return Ok(capability), reviews;
        case ReviewRequired(review) =>
          var pending := new PendingReview(review);
          var acceptance := ReviewPendingRequest(session, pending, confirm(reviews));
          reviews := reviews + 1;
          if acceptance.Err? {
            return Err(acceptance.error), reviews;
          }
          ghost var before := seen;
          var resumed := session.Resume(pending.review, acceptance.value);
          ResumeIsSound(session, source, operation, pending.review, before, acceptance.value);
          if resumed.Err? {
            return Err(resumed.error), reviews;
          }
          seen := session.approved;
          decision := resumed.value;
      }
    }
  }

  /**
   * A whole read command. It ends in a capability for this artifact and operation
   * with no key left to approve, in the refusal of a signer outside the members
   * that may not be accepted, in the refusal of the person asked, who is asked
   * at most once for the signer and once for each key unapproved at the start, or
   * because the artifact was replaced meanwhile. A signer outside the members is
   * never passed over without asking.
   */
  method AuthorizeRead(session: ReadSession, id: ReviewId, source: Source, operation: Operation,
                       allowNonMember: bool, confirm: nat -> bool)
    returns (r: Result<Capability, ReadError>, reviews: nat)
    requires ReadsSession(session, source, operation) && session.Intact(source)
    modifies session
    ensures reviews <= |old(session.Pending())| + 1
    ensures r.Err? ==> r.error in {Rejected, TargetChanged, NonMemberSigner}
    ensures r.Err? && r.error == NonMemberSigner ==>
              session.signer.Outsider? && !EffectiveAllow(operation, allowNonMember) && reviews == 0
    ensures r.Err? && r.error == Rejected ==> reviews > 0 && !confirm(reviews - 1)
    ensures r.Err? && r.error == TargetChanged ==> reviews > 0 && !session.Intact(source)
    ensures r.Ok? ==> Granted(session, operation, r.value, session.approved) && session.Intact(source)
                      && forall n :: 0 <= n < reviews ==> confirm(n)
    ensures r.Ok? && session.signer.Outsider? ==> EffectiveAllow(operation, allowNonMember) && reviews > 0
  {
    var first := session.Begin(id, source, operation, allowNonMember);
    BeginIsSound(session, id, source, operation, allowNonMember);
    if first.Err? {
      return Err(first.error), 0;
    }
    r, reviews := AuthorizeReadDecision(session, source, operation, first.value, confirm);
  }
}

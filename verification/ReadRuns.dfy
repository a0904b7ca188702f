/**
 * Every run of the read session. Any number of reads are in flight at once; a
 * review and an acceptance are each spent when they are used, and between any
 * two steps the artifact and the trust state may be replaced; the trust state even
 * between the two passes of one step.
 */
module ReadRuns {
  import opened Wrappers
  import opened ReadReview

  datatype Event =
    | Began(binding: Binding, allowNonMember: bool)
    | Minted(acceptance: Acceptance)
    | Used(acceptance: Acceptance, user: ReviewId)
    /** A capability, the trust state it was granted under, and the artifact found in that very step. */
    | Issued(binding: Binding, capability: Capability, trust: TrustState, loaded: Result<Digest, ReadError>)

  datatype World = World(nextId: ReviewId, reviews: seq<Review>, acceptances: seq<Acceptance>, log: seq<Event>)

  const START := World(0, [], [], [])

  datatype Step =
    | Begin(source: Source, operation: Operation, allowNonMember: bool, env: Env)
    | Accept(review: nat)
    | Resume(review: nat, acceptance: Option<nat>, env: Env)
    | Abandon(review: nat)

  predicate Enabled(w: World, step: Step) {
    match step
    case Begin(_, _, _, _) => true
    case Accept(i) => i < |w.reviews|
    case Resume(i, j, _) => i < |w.reviews| && (j.Some? ==> j.value < |w.acceptances|)
    case Abandon(i) => i < |w.reviews|
  }

  function Without<T>(s: seq<T>, i: nat): seq<T>
    requires i < |s|
  {
    s[..i] + s[i + 1..]
  }

  /** Hand the decision of one evaluation over to its caller. */
  function Settle(w: World, run: Binding, env: Env, loaded: Result<Digest, ReadError>,
                  decision: Result<Decision, ReadError>): World
  {
    match decision
    case Err(_) => w
    case Ok(ReviewRequired(review)) => w.(reviews := w.reviews + [review])
    case Ok(Authorized(capability)) =>
      w.(log := w.log + [Issued(run, capability, env.granting, loaded)])
  }

  function StepBegin(w: World, source: Source, operation: Operation, allow: bool, env: Env): World {
    var started := w.(nextId := w.nextId + 1);
    match Load(source, operation, env)
    case Err(_) => started
    case Ok(digest) =>
      var run := Binding(w.nextId, digest, operation);
      Settle(started.(log := w.log + [Began(run, allow)]), run, env, Ok(digest),
             BeginRead(w.nextId, source, operation, allow, env))
  }

  function StepAccept(w: World, i: nat): World
    requires i < |w.reviews|
  {
    var (review, minted) := AcceptNonMember(w.reviews[i]);
    match minted
    case Err(_) => w
    case Ok(a) => w.(reviews := w.reviews[i := review], acceptances := w.acceptances + [a],
                     log := w.log + [Minted(a)])
  }

  function StepResume(w: World, i: nat, j: Option<nat>, env: Env): World
    requires i < |w.reviews| && (j.Some? ==> j.value < |w.acceptances|)
  {
    var review := w.reviews[i];
    var acceptance := if j.Some? then Some(w.acceptances[j.value]) else None;
    var decision := ResumeRead(review, acceptance, env);
    var spent := w.(
      reviews := Without(w.reviews, i),
      acceptances := if j.Some? then Without(w.acceptances, j.value) else w.acceptances,
      log := if acceptance.Some? && decision.Ok? then w.log + [Used(acceptance.value, review.binding.reviewId)]
             else w.log);
    Settle(spent, review.binding, env, Load(review.source, review.binding.operation, env), decision)
  }

  function Next(w: World, step: Step): World
    requires Enabled(w, step)
  {
    match step
    case Begin(source, operation, allow, env) => StepBegin(w, source, operation, allow, env)
    case Accept(i) => StepAccept(w, i)
    case Resume(i, j, env) => StepResume(w, i, j, env)
    case Abandon(i) => w.(reviews := Without(w.reviews, i))
  }

  predicate Follows(before: World, step: Step, after: World) {
    Enabled(before, step) && after == Next(before, step)
  }

  ghost predicate Reaches(steps: seq<Step>, w: World) {
    if steps == [] then w == START
    else
      var init, last := steps[..|steps| - 1], steps[|steps| - 1];
      exists before :: Reaches(init, before) && Follows(before, last, w)
  }

  // ---- what every reachable world keeps -----------------------------------------------

  /**
   * Whatever began under this review id began with this very digest and
   * operation, and if it may not use exceptions then none is in play.
   */
  ghost predicate AsBegun(log: seq<Event>, run: Binding, noException: bool) {
    (exists allow :: Began(run, allow) in log)
    && forall begun, allow :: Began(begun, allow) in log && begun.reviewId == run.reviewId ==>
         begun == run && (EffectiveAllow(begun.operation, allow) || noException)
  }

  function Uses(log: seq<Event>, run: ReviewId): nat {
    if log == [] then 0
    else Uses(log[..|log| - 1], run) + (if log[|log| - 1].Used? && log[|log| - 1].user == run then 1 else 0)
  }

  function Issues(log: seq<Event>, run: ReviewId): nat {
    if log == [] then 0
    else Issues(log[..|log| - 1], run)
         + (if log[|log| - 1].Issued? && log[|log| - 1].binding.reviewId == run then 1 else 0)
  }

  lemma UsesSnoc(log: seq<Event>, e: Event, run: ReviewId)
    ensures Uses(log + [e], run) == Uses(log, run) + (if e.Used? && e.user == run then 1 else 0)
    ensures Issues(log + [e], run) == Issues(log, run) + (if e.Issued? && e.binding.reviewId == run then 1 else 0)
  {
    assert (log + [e])[..|log|] == log;
  }

  ghost predicate ReviewKept(log: seq<Event>, review: Review) {
    AsksOneQuestion(review)
    && AsBegun(log, review.binding,
               !review.allowNonMember && review.acceptedNonMember.None? && review.nonMemberSigner.None?)
    && (review.acceptedNonMember.Some? ==>
          review.acceptedNonMember.value.binding == review.binding
          && Minted(review.acceptedNonMember.value) in log)
    && Uses(log, review.binding.reviewId) == (if review.acceptedNonMember.Some? then 1 else 0)
    && Issues(log, review.binding.reviewId) == 0
  }

  /** A capability is what its run began with, and any exception is that run's own. */
  ghost predicate IssueKept(log: seq<Event>, before: seq<Event>, e: Event)
    requires e.Issued?
  {
    e.capability.digest == e.binding.digest && e.capability.operation == e.binding.operation
    && e.loaded == Ok(e.binding.digest)
    && AsBegun(log, e.binding, !e.trust.signer.NonMember?)
    && !e.trust.signer.Refused?
    && (e.trust.signer.NonMember? ==> Minted(Acceptance(e.binding, e.trust.signer.signer)) in before)
  }

  ghost predicate LogKept(log: seq<Event>) {
    forall k :: 0 <= k < |log| ==>
      (log[k].Issued? ==> IssueKept(log, log[..k], log[k]))
      && (log[k].Minted? ==> AsBegun(log, log[k].acceptance.binding, false))
      && (log[k].Used? ==> log[k].user == log[k].acceptance.binding.reviewId && Minted(log[k].acceptance) in log[..k])
  }

  ghost predicate Fresh(w: World) {
    forall run, allow :: Began(run, allow) in w.log ==> run.reviewId < w.nextId
  }

  ghost predicate Kept(w: World) {
    Fresh(w) && LogKept(w.log)
    && (forall id :: Uses(w.log, id) <= 1 && Issues(w.log, id) <= 1)
    && (forall id :: w.nextId <= id ==> Uses(w.log, id) == 0 && Issues(w.log, id) == 0)
    && (forall i :: 0 <= i < |w.reviews| ==> ReviewKept(w.log, w.reviews[i]))
    && (forall i, j :: 0 <= i < j < |w.reviews| ==>
          w.reviews[i].binding.reviewId != w.reviews[j].binding.reviewId)
    && (forall a :: a in w.acceptances ==> Minted(a) in w.log)
  }

  /** Events that begin nothing leave what began as it was. */
  lemma AsBegunSnoc(log: seq<Event>, e: Event, run: Binding, noException: bool)
    requires AsBegun(log, run, noException)
    requires e.Began? ==> e.binding.reviewId != run.reviewId
    ensures AsBegun(log + [e], run, noException)
  {
    var allow :| Began(run, allow) in log;
    assert Began(run, allow) in log + [e];
  }

  lemma LogSnoc(log: seq<Event>, e: Event)
    requires LogKept(log)
    requires e.Began? ==> forall run, allow :: Began(run, allow) in log ==> run.reviewId != e.binding.reviewId
    requires e.Issued? ==> IssueKept(log, log, e)
    requires e.Minted? ==> AsBegun(log, e.acceptance.binding, false)
    requires e.Used? ==> e.user == e.acceptance.binding.reviewId && Minted(e.acceptance) in log
    ensures LogKept(log + [e])
  {
    var after := log + [e];
    forall k | 0 <= k < |after|
      ensures (after[k].Issued? ==> IssueKept(after, after[..k], after[k]))
              && (after[k].Minted? ==> AsBegun(after, after[k].acceptance.binding, false))
              && (after[k].Used? ==> after[k].user == after[k].acceptance.binding.reviewId
                                     && Minted(after[k].acceptance) in after[..k])
    {
      assert k < |log| ==> after[k] == log[k] && after[..k] == log[..k];
      assert after[..|log|] == log;
      if after[k].Issued? {
        AsBegunSnoc(log, e, after[k].binding, !after[k].trust.signer.NonMember?);
      } else if after[k].Minted? {
        AsBegunSnoc(log, e, after[k].acceptance.binding, false);
      }
    }
  }

  lemma ReviewSnoc(log: seq<Event>, e: Event, review: Review)
    requires ReviewKept(log, review)
    requires e.Began? ==> e.binding.reviewId != review.binding.reviewId
    requires e.Used? ==> e.user != review.binding.reviewId
    requires e.Issued? ==> e.binding.reviewId != review.binding.reviewId
    ensures ReviewKept(log + [e], review)
  {
    UsesSnoc(log, e, review.binding.reviewId);
    AsBegunSnoc(log, e, review.binding,
                !review.allowNonMember && review.acceptedNonMember.None? && review.nonMemberSigner.None?);
  }

  // ---- one step ---------------------------------------------------------------------------

  /** A world in which the run `id` has just one thing left to do: settle a decision. */
  ghost predicate Settling(w: World, run: Binding) {
    Kept(w) && run.reviewId < w.nextId
    && (forall i :: 0 <= i < |w.reviews| ==> w.reviews[i].binding.reviewId != run.reviewId)
    && Issues(w.log, run.reviewId) == 0
  }

  lemma SettleKeeps(w: World, run: Binding, env: Env, loaded: Result<Digest, ReadError>,
                    decision: Result<Decision, ReadError>)
    requires Settling(w, run)
    requires decision.Ok? && decision.value.ReviewRequired? ==>
               ReviewKept(w.log, decision.value.review) && decision.value.review.binding == run
    requires decision.Ok? && decision.value.Authorized? ==>
               IssueKept(w.log, w.log, Issued(run, decision.value.capability, env.granting, loaded))
    ensures Kept(Settle(w, run, env, loaded, decision))
  {
    match decision
    case Err(_) =>
    case Ok(ReviewRequired(review)) =>
    case Ok(Authorized(capability)) =>
      var e := Issued(run, capability, env.granting, loaded);
      LogSnoc(w.log, e);
      forall id ensures Uses(w.log + [e], id) == Uses(w.log, id)
        ensures Issues(w.log + [e], id) == Issues(w.log, id) + (if id == run.reviewId then 1 else 0)
      {
        UsesSnoc(w.log, e, id);
      }
      forall i | 0 <= i < |w.reviews| ensures ReviewKept(w.log + [e], w.reviews[i]) {
        ReviewSnoc(w.log, e, w.reviews[i]);
      }
  }

  /** The world once a run has begun and before its decision: a world with just that left to settle. */
  lemma BeganIsSettling(w: World, run: Binding, allow: bool)
    requires Kept(w) && run.reviewId == w.nextId
    ensures var log := w.log + [Began(run, allow)];
            Settling(w.(nextId := w.nextId + 1, log := log), run)
            && AsBegun(log, run, !EffectiveAllow(run.operation, allow))
            && Uses(log, run.reviewId) == 0 && Issues(log, run.reviewId) == 0
  {
    var e := Began(run, allow);
    var log := w.log + [e];
    LogSnoc(w.log, e);
    forall id ensures Uses(log, id) == Uses(w.log, id) && Issues(log, id) == Issues(w.log, id) {
      UsesSnoc(w.log, e, id);
    }
    forall i | 0 <= i < |w.reviews| ensures ReviewKept(log, w.reviews[i]) {
      ReviewSnoc(w.log, e, w.reviews[i]);
    }
    assert e in log;
  }

  /** What a run may be told right after it began keeps what is kept. */
  lemma FirstDecisionFits(log: seq<Event>, run: Binding, source: Source, allow: bool, env: Env)
    requires AsBegun(log, run, !allow) && Uses(log, run.reviewId) == 0 && Issues(log, run.reviewId) == 0
    ensures var decision := EvaluateRead(env, run, allow, None, None, source);
            && (decision.Ok? && decision.value.ReviewRequired? ==>
                  ReviewKept(log, decision.value.review) && decision.value.review.binding == run)
            && (decision.Ok? && decision.value.Authorized? ==>
                  IssueKept(log, log, Issued(run, decision.value.capability, env.granting, Ok(run.digest))))
  {
    var decision := EvaluateRead(env, run, allow, None, None, source);
    if decision.Ok? && decision.value.ReviewRequired? {
      ReviewIsRaisedBy(env, run, allow, None, None, source);
    }
    if decision.Ok? && decision.value.Authorized? {
      CapabilityIsJustified(env, run, allow, None, None, source);
    }
  }

  lemma FirstDecisionKeeps(w: World, run: Binding, source: Source, allow: bool, env: Env,
                           decision: Result<Decision, ReadError>)
    requires Settling(w, run) && AsBegun(w.log, run, !allow)
    requires Uses(w.log, run.reviewId) == 0 && Issues(w.log, run.reviewId) == 0
    requires decision == EvaluateRead(env, run, allow, None, None, source)
    ensures Kept(Settle(w, run, env, Ok(run.digest), decision))
  {
    FirstDecisionFits(w.log, run, source, allow, env);
    SettleKeeps(w, run, env, Ok(run.digest), decision);
  }

  lemma BegunIs(id: ReviewId, source: Source, operation: Operation, allow: bool, env: Env, digest: Digest)
    requires Load(source, operation, env) == Ok(digest)
    ensures BeginRead(id, source, operation, allow, env)
         == EvaluateRead(env, Binding(id, digest, operation), EffectiveAllow(operation, allow), None, None, source)
  {
  }

  lemma RefusedKeeps(w: World)
    requires Kept(w)
    ensures Kept(w.(nextId := w.nextId + 1))
  {
  }

  lemma BeginKeeps(w: World, source: Source, operation: Operation, allow: bool, env: Env, after: World)
    requires Kept(w) && after == StepBegin(w, source, operation, allow, env)
    ensures Kept(after)
  {
    var digest := Load(source, operation, env);
    if digest.Err? {
      RefusedKeeps(w);
    } else {
      BegunIs(w.nextId, source, operation, allow, env, digest.value);
      BegunKeeps(w, Binding(w.nextId, digest.value, operation), source, allow, env,
                 BeginRead(w.nextId, source, operation, allow, env), after);
    }
  }

  lemma BegunKeeps(w: World, run: Binding, source: Source, allow: bool, env: Env,
                   decision: Result<Decision, ReadError>, after: World)
    requires Kept(w) && run.reviewId == w.nextId
    requires decision == EvaluateRead(env, run, EffectiveAllow(run.operation, allow), None, None, source)
    requires after == Settle(w.(nextId := w.nextId + 1, log := w.log + [Began(run, allow)]), run, env, Ok(run.digest),
                             decision)
    ensures Kept(after)
  {
    BeganIsSettling(w, run, allow);
    FirstDecisionKeeps(w.(nextId := w.nextId + 1, log := w.log + [Began(run, allow)]), run, source,
                       EffectiveAllow(run.operation, allow), env, decision);
  }

  lemma AcceptKeeps(w: World, i: nat)
    requires Kept(w) && i < |w.reviews|
    ensures Kept(StepAccept(w, i))
  {
    var (review, minted) := AcceptNonMember(w.reviews[i]);
    if minted.Ok? {
      var e := Minted(minted.value);
      LogSnoc(w.log, e);
      forall id ensures Uses(w.log + [e], id) == Uses(w.log, id) && Issues(w.log + [e], id) == Issues(w.log, id) {
        UsesSnoc(w.log, e, id);
      }
      forall k | 0 <= k < |w.reviews| ensures ReviewKept(w.log + [e], w.reviews[k]) {
        ReviewSnoc(w.log, e, w.reviews[k]);
      }
      assert ReviewKept(w.log + [e], review);
    }
  }

  /** Taking a review out of the world leaves its run with a decision to settle. */
  lemma TakeReview(w: World, i: nat, acceptances: seq<Acceptance>)
    requires Kept(w) && i < |w.reviews|
    requires forall a :: a in acceptances ==> a in w.acceptances
    ensures Settling(w.(reviews := Without(w.reviews, i), acceptances := acceptances), w.reviews[i].binding)
  {
    var allow :| Began(w.reviews[i].binding, allow) in w.log;
  }

  lemma SpendKeeps(w: World, a: Acceptance)
    requires Settling(w, a.binding) && Minted(a) in w.log && Uses(w.log, a.binding.reviewId) == 0
    ensures Settling(w.(log := w.log + [Used(a, a.binding.reviewId)]), a.binding)
    ensures Uses(w.log + [Used(a, a.binding.reviewId)], a.binding.reviewId) == 1
  {
    var e := Used(a, a.binding.reviewId);
    LogSnoc(w.log, e);
    forall id ensures Uses(w.log + [e], id) == Uses(w.log, id) + (if id == a.binding.reviewId then 1 else 0)
      ensures Issues(w.log + [e], id) == Issues(w.log, id)
    {
      UsesSnoc(w.log, e, id);
    }
    forall k | 0 <= k < |w.reviews| ensures ReviewKept(w.log + [e], w.reviews[k]) {
      ReviewSnoc(w.log, e, w.reviews[k]);
    }
  }

  /** What an evaluation on behalf of a kept review returns may be settled. */
  lemma DecisionKept(log: seq<Event>, review: Review, acceptance: Option<Acceptance>, env: Env)
    requires AsBegun(log, review.binding, !review.allowNonMember && review.acceptedNonMember.None?)
    requires var accepted := if acceptance.Some? then acceptance else review.acceptedNonMember;
             (accepted.Some? ==> Minted(accepted.value) in log)
             && Uses(log, review.binding.reviewId) == (if accepted.Some? then 1 else 0)
    requires Issues(log, review.binding.reviewId) == 0
    requires ResumeRead(review, acceptance, env).Ok?
    ensures var d := ResumeRead(review, acceptance, env).value;
            (d.ReviewRequired? ==> ReviewKept(log, d.review) && d.review.binding == review.binding)
            && (d.Authorized? ==>
                  IssueKept(log, log, Issued(review.binding, d.capability, env.granting,
                                             Load(review.source, review.binding.operation, env))))
  {
    var d := ResumeRead(review, acceptance, env).value;
    ResumesOnlyItsArtifact(review, acceptance, env);
    if d.ReviewRequired? {
      ReviewIsRaisedBy(env, review.binding, review.allowNonMember, acceptance, review.acceptedNonMember, review.source);
    } else {
      CapabilityIsJustified(env, review.binding, review.allowNonMember, acceptance, review.acceptedNonMember,
                            review.source);
    }
  }

  /** An acceptance that led to a decision belongs to the run it was used in. */
  lemma UsedIsOwn(review: Review, a: Acceptance, env: Env)
    requires ResumeRead(review, Some(a), env).Ok?
    ensures a.binding == review.binding && review.acceptedNonMember.None?
  {
    var d := ResumeRead(review, Some(a), env).value;
    if d.ReviewRequired? {
      ReviewIsRaisedBy(env, review.binding, review.allowNonMember, Some(a), review.acceptedNonMember, review.source);
    } else {
      CapabilityIsJustified(env, review.binding, review.allowNonMember, Some(a), review.acceptedNonMember,
                            review.source);
    }
  }

  lemma ResumeKeeps(w: World, i: nat, j: Option<nat>, env: Env)
    requires Kept(w) && i < |w.reviews| && (j.Some? ==> j.value < |w.acceptances|)
    ensures Kept(StepResume(w, i, j, env))
  {
    var review := w.reviews[i];
    var acceptance := if j.Some? then Some(w.acceptances[j.value]) else None;
    var acceptances := if j.Some? then Without(w.acceptances, j.value) else w.acceptances;
    var decision := ResumeRead(review, acceptance, env);
    var spent := w.(reviews := Without(w.reviews, i), acceptances := acceptances);
    TakeReview(w, i, acceptances);
    var noException := !review.allowNonMember && review.acceptedNonMember.None? && review.nonMemberSigner.None?;
    assert AsBegun(w.log, review.binding, noException);
    if acceptance.Some? && decision.Ok? {
      UsedIsOwn(review, acceptance.value, env);
      SpendKeeps(spent, acceptance.value);
      AsBegunSnoc(w.log, Used(acceptance.value, review.binding.reviewId), review.binding, noException);
      spent := spent.(log := w.log + [Used(acceptance.value, review.binding.reviewId)]);
    }
    if decision.Ok? {
      DecisionKept(spent.log, review, acceptance, env);
    }
    SettleKeeps(spent, review.binding, env, Load(review.source, review.binding.operation, env), decision);
  }

  lemma StepKeeps(w: World, step: Step)
    requires Kept(w) && Enabled(w, step)
    ensures Kept(Next(w, step))
  {
    match step
    case Begin(source, operation, allow, env) => BeginKeeps(w, source, operation, allow, env, Next(w, step));
    case Accept(i) => AcceptKeeps(w, i);
    case Resume(i, j, env) => ResumeKeeps(w, i, j, env);
    case Abandon(i) =>
  }

  // ---- all runs ------------------------------------------------------------------------------

  lemma {:induction false} EveryRunKeeps(steps: seq<Step>, w: World)
    requires Reaches(steps, w)
    ensures Kept(w)
  {
    if steps != [] {
      var init, last := steps[..|steps| - 1], steps[|steps| - 1];
      var before :| Reaches(init, before) && Follows(before, last, w);
      EveryRunKeeps(init, before);
      StepKeeps(before, last);
    }
  }

  /**
   * In every run, a capability is issued only for the digest and operation its
   * read began with, at most once a read, and only in a step that found the artifact
   * with that digest; and while the signer is outside the members, only after a
   * review of that same read minted an acceptance naming exactly the signer now
   * reported.
   */
  lemma CapabilitiesAreSafe(steps: seq<Step>, w: World, k: nat)
    requires Reaches(steps, w) && k < |w.log| && w.log[k].Issued?
    ensures var e := w.log[k];
            (exists allow ::
               Began(Binding(e.binding.reviewId, e.capability.digest, e.capability.operation), allow) in w.log)
            && e.loaded == Ok(e.capability.digest)
            && Issues(w.log, e.binding.reviewId) == 1
            && (e.trust.signer.NonMember? ==> Minted(Acceptance(e.binding, e.trust.signer.signer)) in w.log[..k])
  {
    EveryRunKeeps(steps, w);
    IssuedOnce(w.log, k);
    assert IssueKept(w.log, w.log[..k], w.log[k]);
  }

  /** A step that finds the artifact replaced grants nothing and raises no review, whatever else it finds. */
  lemma ReplacedArtifactEndsTheRead(w: World, i: nat, j: Option<nat>, env: Env, found: Digest)
    requires i < |w.reviews| && (j.Some? ==> j.value < |w.acceptances|)
    requires Load(w.reviews[i].source, w.reviews[i].binding.operation, env) == Ok(found)
    requires found != w.reviews[i].binding.digest
    ensures var after := Next(w, Resume(i, j, env));
            after.log == w.log && after.reviews == Without(w.reviews, i)
  {
    ResumesOnlyItsArtifact(w.reviews[i], if j.Some? then Some(w.acceptances[j.value]) else None, env);
  }

  lemma {:induction false} IssuedOnce(log: seq<Event>, k: nat)
    requires k < |log| && log[k].Issued?
    ensures Issues(log, log[k].binding.reviewId) >= 1
  {
    if k < |log| - 1 {
      IssuedOnce(log[..|log| - 1], k);
    }
  }

  /** A read spends at most one acceptance, and never one minted for another read. */
  lemma AcceptancesAreOneShot(steps: seq<Step>, w: World, k: nat)
    requires Reaches(steps, w) && k < |w.log| && w.log[k].Used?
    ensures w.log[k].acceptance.binding.reviewId == w.log[k].user
    ensures Minted(w.log[k].acceptance) in w.log[..k]
    ensures Uses(w.log, w.log[k].user) <= 1
  {
    EveryRunKeeps(steps, w);
  }

  /**
   * A read that began without the permission, and every environment read, never
   * mints an acceptance and never gets past a signer outside the members.
   */
  lemma NoExceptionWithoutPermission(steps: seq<Step>, w: World, run: Binding, allow: bool)
    requires Reaches(steps, w) && Began(run, allow) in w.log
    requires !allow || run.operation == Kv(Environment)
    ensures forall i :: 0 <= i < |w.reviews| && w.reviews[i].binding.reviewId == run.reviewId ==>
              !w.reviews[i].allowNonMember && w.reviews[i].nonMemberSigner.None?
    ensures forall k :: 0 <= k < |w.log| && w.log[k].Minted? ==>
              w.log[k].acceptance.binding.reviewId != run.reviewId
    ensures forall k :: 0 <= k < |w.log| && w.log[k].Issued? && w.log[k].binding.reviewId == run.reviewId ==>
              !w.log[k].trust.signer.NonMember?
  {
    EveryRunKeeps(steps, w);
    assert !EffectiveAllow(run.operation, allow);
  }

  /** In every run each open review asks exactly one question. */
  lemma ReviewsAskOneQuestion(steps: seq<Step>, w: World, i: nat)
    requires Reaches(steps, w) && i < |w.reviews|
    ensures AsksOneQuestion(w.reviews[i])
    ensures w.reviews[i].acceptedNonMember.Some? ==> Minted(w.reviews[i].acceptedNonMember.value) in w.log
  {
    EveryRunKeeps(steps, w);
  }
}

/** Documents the code can be given whose rewrap loses their history, makes them unreadable, or is impossible. */
module RewrapKvWitness {
  import opened Limits
  import opened Seqs
  import opened Wrappers
  import opened Wire
  import opened Disclosure
  import opened Primitives
  import opened Envelope
  import opened EnvelopeProofs
  import opened JsonText
  import opened WireText
  import opened PartText
  import opened KvText
  import opened KvTextProofs
  import opened KvEnvelope
  import opened KvEnvelopeProofs
  import opened Recipients
  import opened RecipientProofs
  import opened RewrapPlan
  import opened RewrapPlanProofs
  import opened RewrapSteps
  import opened RewrapKv
  import opened RewrapKvText
  import opened Witnesses
  import opened Bits
  import opened Codec
  import JsonGrammar

  // ---- an order for every map ---------------------------------------------------------------

  lemma OneMorePair(pairs: seq<Pair>, rest: Values, pair: Pair)
    requires IsIterationOf(pairs, rest) && pair.key !in rest
    ensures IsIterationOf(pairs + [pair], rest[pair.key := pair.value])
  {
    var more, values := pairs + [pair], rest[pair.key := pair.value];
    assert values.Keys == rest.Keys + {pair.key};
    forall j | j in values
      ensures exists i :: 0 <= i < |more| && more[i].key == j
    {
      if j == pair.key {
        assert more[|pairs|].key == j;
      } else {
        var i :| 0 <= i < |pairs| && pairs[i].key == j;
        assert more[i].key == j;
      }
    }
  }

  ghost function Enumerated(values: Values): (pairs: seq<Pair>)
    ensures IsIterationOf(pairs, values)
    decreases |values|
  {
    if values == map[] then []
    else
      var k :| k in values;
      var rest := values - {k};
      assert values.Keys == rest.Keys + {k};
      assert rest[k := values[k]] == values;
      OneMorePair(Enumerated(rest), rest, Pair(k, values[k]));
      Enumerated(rest) + [Pair(k, values[k])]
  }

  /** Any draws, with hash maps iterated over in such an order. */
  ghost function InOrder(entropy: Entropy): (ordered: Entropy)
    ensures Iterates(ordered)
  {
    var ordered := entropy.(iterate := (values: Values) => Enumerated(values));
    assert forall values: Values :: ordered.iterate(values) == Enumerated(values);
    ordered
  }

  // ---- at most one value --------------------------------------------------------------------

  function ValuesOf(pair: Option<Pair>): Values {
    match pair
    case None => map[]
    case Some(p) => map[p.key := p.value]
  }

  ghost predicate ValueFits(pair: Option<Pair>, disclosed: bool) {
    pair.Some? ==>
      |pair.value.value| <= if disclosed then MAX_DISCLOSED_KV_VALUE_SIZE else MAX_KV_VALUE_SIZE
  }

  ghost predicate HasKeyName(pair: Option<Pair>) {
    pair.Some? ==> IsKeyName(pair.value.key) && |pair.value.key| <= MAX_MEMBER_HANDLE_LENGTH
  }

  lemma SolePair(pair: Option<Pair>, pairs: seq<Pair>)
    requires IsIterationOf(pairs, ValuesOf(pair))
    ensures pairs == if pair.Some? then [pair.value] else []
  {
    if pair.Some? {
      assert ValuesOf(pair).Keys == {pair.value.key};
      assert |pairs| == 1 && pairs[0].key in ValuesOf(pair);
    }
  }

  lemma SoleValueFits(pair: Option<Pair>)
    requires ValueFits(pair, false)
    ensures AllFit(ValuesOf(pair))
  {
  }

  /** Its line loads exactly when its token has room for the value. */
  lemma SoleLineLoads(pair: Option<Pair>, pairs: seq<Pair>, disclosed: bool)
    requires IsIterationOf(pairs, ValuesOf(pair)) && HasKeyName(pair)
    ensures LinesLoad(LinesFor(pairs, disclosed)) == ValueFits(pair, disclosed)
    ensures ValueFits(pair, disclosed) ==> Sum(LineLens(LinesFor(pairs, disclosed))) <= MAX_KV_ENC_FILE_SIZE / 2
  {
    SolePair(pair, pairs);
    if pair.Some? {
      OneLineLoads(pair.value, LinesFor(pairs, disclosed), disclosed);
    }
  }

  lemma OneLineLoads(pair: Pair, lines: seq<Line>, disclosed: bool)
    requires lines == [Line(pair.key, EncodedLen(|pair.value| + AEAD_TAG_LENGTH), disclosed)]
    requires IsKeyName(pair.key) && |pair.key| <= MAX_MEMBER_HANDLE_LENGTH
    ensures LinesLoad(lines) == ValueFits(Some(pair), disclosed)
    ensures LinesLoad(lines) ==> Sum(LineLens(lines)) <= MAX_KV_ENC_FILE_SIZE / 2
  {
    ValueFitsExactly(pair.key, |pair.value|, disclosed);
    assert lines[0].key == pair.key;
    var lens := LineLens(lines);
    assert lens[..0] == [] && lens[0] == |pair.key| + EntryTokenLen(lines[0]) + 2;
  }

  // ---- a fresh document and a rewrap of it -------------------------------------------------------

  /** A freshly written document for the members, its one entry not flagged, and a rewrap for the targets. */
  datatype Setting = Setting(suite: Suite, dir: Directory, entropy: Entropy, members: seq<Member>,
                             targets: seq<Member>, operator: Member, keys: KeyContext, publicKey: Node,
                             pair: Option<Pair>, history: Option<History>, masterKey: Key, now: string)

  ghost predicate AreRecipients(s: Setting, members: seq<Member>) {
    1 <= |members| <= MAX_WRAP_ITEMS && VerifiedMembers(s.suite, s.dir, members) && s.operator in members
  }

  /** The operator, who also signs, has a key; dates, the key name and the removal records pass. */
  ghost predicate IsSetting(s: Setting) {
    Ideal(s.suite) && AreRecipients(s, s.members) && AreRecipients(s, s.targets)
    && KeysMatch(s.suite, s.dir, s.keys) && Selectable(s.keys, s.operator.handle, s.operator.kid)
    && GoodNode(s.publicKey) && SignerLoads(s.suite.texts, SignerOf(s))
    && HistoryPasses(s.suite.texts, s.history) && ModestDates(s.history)
    && IsTimestamp(s.now) && |s.now| <= MODEST_DATE_LENGTH && HasKeyName(s.pair)
  }

  function SignerOf(s: Setting): Signer {
    Signer(s.operator.kid, s.publicKey)
  }

  function EntriesOf(s: Setting): seq<KvEntry> {
    match s.pair
    case None => []
    case Some(pair) =>
      [KvEntry(pair.key, EncryptEntry(s.suite, s.masterKey, 0, pair.key, pair.value, s.entropy.nonces(0), false))]
  }

  function DocumentOf(s: Setting): KvDocument {
    var wraps := BuildEach(s.suite, 0, s.members, 0, s.masterKey, Kv);
    AssembleKv(s.suite, s.masterKey, KvHeader(0, XChaCha20Poly1305, s.now, s.now),
               if wraps.Ok? then wraps.value else [], s.history, EntriesOf(s), s.operator.kid)
  }

  ghost function JobOf(s: Setting): Job {
    Job(s.suite, InOrder(s.entropy), DocumentOf(s), s.operator.handle, s.keys, s.targets, s.operator.kid, s.now,
        (doc: KvDocument) => LoadKv(s.suite.texts, s.publicKey, doc),
        (handles: seq<string>, kept: Option<History>, disclosed: bool) =>
          PartsLoad(s.suite.texts, SignerOf(s), handles, kept,
                    LinesFor(InOrder(s.entropy).iterate(ValuesOf(s.pair)), disclosed), s.now, s.now))
  }

  lemma EntriesAreHeld(s: Setting)
    ensures EntriesHold(s.suite, s.masterKey, 0, EntriesOf(s), ValuesOf(s.pair)) && DistinctEntryKeys(EntriesOf(s))
    ensures AllDisclosed(EntriesOf(s), false)
  {
    var nonces: Nonces := if s.pair.Some? then map[s.pair.value.key := s.entropy.nonces(0)] else map[];
    if s.pair.Some? {
      assert EntriesOf(s)[0].key == s.pair.value.key;
    }
    assert EntriesUnder(s.suite, s.masterKey, 0, EntriesOf(s), ValuesOf(s.pair), nonces);
  }

  lemma DocumentIsAddressed(s: Setting)
    requires IsSetting(s)
    ensures AddressedKv(s.suite, s.dir, DocumentOf(s), s.masterKey, s.members, ValuesOf(s.pair))
    ensures DocumentOf(s).body.head.sid == 0
  {
    BuiltEach(s.suite, s.dir, 0, s.members, 0, s.masterKey, Kv);
    EntriesAreHeld(s);
    AssembledIsAddressed(s.suite, s.dir, s.masterKey, DocumentOf(s).body.head, s.members,
                         BuildEach(s.suite, 0, s.members, 0, s.masterKey, Kv).value, s.history, EntriesOf(s),
                         s.operator.kid, ValuesOf(s.pair));
  }

  lemma JobIsTextual(s: Setting, origin: Origin)
    requires GoodNode(s.publicKey) && origin.values == ValuesOf(s.pair)
    ensures IsTextual(JobOf(s), origin, s.publicKey)
  {
    var job := JobOf(s);
    forall doc: KvDocument
      ensures LoadsAs(job, s.publicKey, doc)
    {
    }
    forall handles: seq<string>, kept: Option<History>, disclosed: bool
      ensures FitsAs(job, origin, s.publicKey, handles, kept, disclosed)
    {
    }
  }

  /** The parts of the document are the setting's, under the signer's key id. */
  ghost predicate IsWrittenAs(s: Setting, doc: KvDocument, masterKey: Key) {
    AddressedKv(s.suite, s.dir, doc, masterKey, s.members, ValuesOf(s.pair))
    && EntriesHold(s.suite, masterKey, 0, doc.body.entries, ValuesOf(s.pair)) && doc.body.head.sid == 0
    && DistinctEntryKeys(doc.body.entries) && AllDisclosed(doc.body.entries, false)
    && doc.body.wrap.removedRecipients == s.history && doc.body.head.createdAt == doc.body.head.updatedAt == s.now
    && doc.signature.kid == s.operator.kid
  }

  /** A rewrap of the setting's document for its targets, as the theorems want it. */
  ghost predicate IsRewrapOf(s: Setting, job: Job, origin: Origin) {
    Fair(job, origin) && IsTextual(job, origin, s.publicKey) && IsWrittenAs(s, job.verified, origin.masterKey)
    && AdmittedTo(job, job.verified) && OperatorStays(job)
    && job.suite == s.suite && job.targets == s.targets && origin.dir == s.dir && origin.values == ValuesOf(s.pair)
    && job.signerKid == s.operator.kid && job.now == s.now
  }

  lemma RewrapOf(s: Setting) returns (job: Job, origin: Origin)
    requires IsSetting(s)
    ensures IsRewrapOf(s, job, origin)
  {
    job, origin := JobOf(s), Origin(s.dir, s.masterKey, ValuesOf(s.pair));
    DocumentIsAddressed(s);
    EntriesAreHeld(s);
    JobIsTextual(s, origin);
    TextualJobKnows(job, origin, s.publicKey);
    AmongMembers(s.members, s.operator, s.keys);
    AmongMembers(s.targets, s.operator, s.keys);
    AdmittedExactly(s.suite, s.dir, job.verified.body.wrap.wrap, s.members, 0, Kv, s.masterKey, s.operator.handle,
                    s.keys);
  }

  // ---- what loads -----------------------------------------------------------------------------

  ghost predicate HasRoom(s: Setting, handles: seq<string>, history: Option<History>, disclosed: bool) {
    WrapCount(|handles|, history) <= MAX_JSON_ELEMENTS && ValueFits(s.pair, disclosed)
  }

  /** A document of the value for these handles loads exactly when the budget and the token have room. */
  lemma PartsLoadIfRoom(s: Setting, pairs: seq<Pair>, handles: seq<string>, history: Option<History>, disclosed: bool)
    requires IsSetting(s) && 1 <= |handles| <= MAX_WRAP_ITEMS && forall h :: h in handles ==> s.suite.texts.handle(h)
    requires HistoryPasses(s.suite.texts, history) && ModestDates(history) && IsIterationOf(pairs, ValuesOf(s.pair))
    ensures PartsLoad(s.suite.texts, SignerOf(s), handles, history, LinesFor(pairs, disclosed), s.now, s.now)
         == HasRoom(s, handles, history, disclosed)
  {
    BudgetDecides(s.suite.texts, handles, history);
    SoleLineLoads(s.pair, pairs, disclosed);
    if ValueFits(s.pair, disclosed) {
      FewLinesLoad(s.suite.texts, SignerOf(s), handles, history, LinesFor(pairs, disclosed), s.now, s.now);
    }
  }

  lemma FreshPartsIfRoom(s: Setting, job: Job, origin: Origin, handles: seq<string>, history: Option<History>,
                         disclosed: bool)
    requires IsSetting(s) && IsRewrapOf(s, job, origin)
    requires 1 <= |handles| <= MAX_WRAP_ITEMS && forall h :: h in handles ==> s.suite.texts.handle(h)
    requires HistoryPasses(s.suite.texts, history) && ModestDates(history)
    ensures FreshParts(job, origin, s.publicKey, handles, history, disclosed) == HasRoom(s, handles, history, disclosed)
  {
    assert IsIterationOf(job.entropy.iterate(origin.values), origin.values);
    PartsLoadIfRoom(s, job.entropy.iterate(origin.values), handles, history, disclosed);
  }

  lemma DocumentLoads(s: Setting, job: Job, origin: Origin)
    requires IsSetting(s) && IsRewrapOf(s, job, origin)
    ensures LoadsAgain(job, job.verified) == HasRoom(s, MemberHandles(s.members), s.history, false)
  {
    var doc := job.verified;
    var pairs := Enumerated(ValuesOf(s.pair));
    assert LoadsAs(job, s.publicKey, doc);
    HeldIsWritten(s.suite, origin.masterKey, 0, doc.body.entries, ValuesOf(s.pair), pairs, false);
    WrittenLoadsExactly(s.suite, s.dir, s.publicKey, doc, origin.masterKey, s.members, ValuesOf(s.pair), pairs, false);
    MembersHaveHandles(s.suite, s.dir, s.members);
    PartsLoadIfRoom(s, pairs, MemberHandles(s.members), s.history, false);
  }

  lemma HandlesAreWritten(s: Setting, job: Job, origin: Origin)
    requires Ideal(s.suite) && IsRewrapOf(s, job, origin)
    ensures DistinctHandles(job.verified.body.wrap.wrap) && DistinctMembers(s.targets)
    ensures HandlesOf(job.verified.body.wrap.wrap) == MemberHandles(s.members)
  {
    SetAcceptedExactly(s.suite.texts, job.verified.body.wrap.wrap);
    AddressedHandles(s.suite, s.dir, job.verified.body.wrap.wrap, s.members, 0, Kv, origin.masterKey);
  }

  lemma NobodyIsRemoved(s: Setting, job: Job, origin: Origin, options: Options)
    requires Ideal(s.suite) && IsRewrapOf(s, job, origin) && s.members <= s.targets
    ensures !Removes(job.verified.body.wrap.wrap, job.targets, options)
  {
    HandlesAreWritten(s, job, origin);
    NobodyIsMissing(job.verified.body.wrap.wrap, s.members, s.targets, options);
  }

  // ---- a history is forgotten -------------------------------------------------------------------

  const ROTATE := Options(true, false)

  /**
   * Whoever the recipients, whatever keys, draws, value and removal records there are:
   * a document that loads can be rewrapped with a rotation to the same recipients, by the
   * exact condition of RewrapKvDocument, and its removal history is gone.
   */
  lemma RotationForgetsTheHistory(s: Setting) returns (job: Job, origin: Origin)
    requires IsSetting(s) && s.targets == s.members && HasRoom(s, MemberHandles(s.members), s.history, false)
    requires AllText(s.suite, ValuesOf(s.pair)) && s.history.Some?
    ensures IsRewrapOf(s, job, origin) && LoadsAgain(job, job.verified) && Possible(job, origin, ROTATE)
    ensures job.verified.body.wrap.removedRecipients == s.history && FinalHistory(job, ROTATE) == None
  {
    job, origin := RewrapOf(s);
    DocumentLoads(s, job, origin);
    SoleValueFits(s.pair);
    NobodyIsRemoved(s, job, origin, ROTATE);
    RotationIsPossible(s, job, origin);
  }

  lemma RotationIsPossible(s: Setting, job: Job, origin: Origin)
    requires IsSetting(s) && IsRewrapOf(s, job, origin) && ValueFits(s.pair, false)
    ensures ReloadsAfterRotation(job)
  {
    assert FitsAs(job, origin, s.publicKey, MemberHandles(s.targets), None, AnyDisclosed(job.verified.body.entries));
    MembersHaveHandles(s.suite, s.dir, s.targets);
    FreshPartsIfRoom(s, job, origin, MemberHandles(s.targets), None, false);
  }

  // ---- an addition makes a document unreadable --------------------------------------------------------

  const ADD := Options(false, false)

  /**
   * For every number of recipients below a thousand there is a number of removal records
   * with which a document still loads, and after one more recipient is added, which no
   * step of the rewrap refuses, does not load any more.
   */
  lemma AdditionOutgrowsBudget(s: Setting, other: Member, doc: KvDocument) returns (job: Job, origin: Origin)
    requires IsSetting(s) && s.targets == s.members + [other] && ValueFits(s.pair, false)
    requires s.history.Some? && |s.history.value| == (12996 - 11 * |s.members|) / 7
    ensures IsRewrapOf(s, job, origin) && LoadsAgain(job, job.verified)
    ensures Possible(job, origin, ADD) && !Reencrypts(job, ADD)
    ensures Rewrapped(job, ADD, origin, doc) ==> !LoadsAgain(job, doc)
  {
    job, origin := RewrapOf(s);
    DocumentLoads(s, job, origin);
    RecordsFitExactly(|s.members|, s.history.value);
    NobodyIsRemoved(s, job, origin, ADD);
    if Rewrapped(job, ADD, origin, doc) {
      HistoryOutgrowsBudget(job, ADD, origin, s.publicKey, doc);
    }
  }

  // ---- a removal that the value does not let happen ---------------------------------------------------

  /** Two recipients, one of whom is removed from a document without a history. */
  ghost predicate RemovesOther(s: Setting, other: Member) {
    IsSetting(s) && s.members == [s.operator, other] && s.targets == [s.operator] && s.history == None
  }

  lemma SoleElement(list: seq<string>, x: string)
    requires NoRepeats(list) && forall h :: h in list <==> h == x
    ensures list == [x]
  {
    SameElements(list, [x]);
    assert |multiset(list)| == |multiset([x])|;
    assert list[0] in list;
  }

  lemma OtherIsMissing(items: seq<WrapItem>, a: Member, b: Member, options: Options)
    requires DistinctHandles(items) && HandlesOf(items) == [a.handle, b.handle]
    ensures PlanFor(items, [a], options).remove == [b.handle]
  {
    PlanIs(items, [a], options);
    assert HandlesOf(items)[0] == a.handle && HandlesOf(items)[1] == b.handle && [a][0].handle == a.handle;
    SoleElement(PlanFor(items, [a], options).remove, b.handle);
  }

  lemma OtherIsRemoved(s: Setting, other: Member, job: Job, origin: Origin, options: Options)
    requires RemovesOther(s, other) && IsRewrapOf(s, job, origin)
    ensures PlanFor(job.verified.body.wrap.wrap, job.targets, options).remove == [other.handle]
  {
    HandlesAreWritten(s, job, origin);
    assert MemberHandles(s.members) == [s.operator.handle, other.handle];
    OtherIsMissing(job.verified.body.wrap.wrap, s.operator, other, options);
  }

  lemma TwoItems(a: WrapItem, b: WrapItem, now: string)
    requires a.recipientHandle != b.recipientHandle
    ensures Without([a, b], [b.recipientHandle]) == [a]
    ensures ToRemove([a, b], [b.recipientHandle]) == [Addressee(b.recipientHandle, b.kid)]
    ensures Recorded(None, [Addressee(b.recipientHandle, b.kid)], now)
         == Some([RemovedRecipient(b.recipientHandle, b.kid, now)])
  {
    assert [a, b][..1] == [a] && [a][..0] == [] && Without([], [b.recipientHandle]) == [];
    assert Without([a], [b.recipientHandle]) == [a];
    assert [a, b][1..] == [b] && FindItem([b], b.recipientHandle) == Some(b);
    assert [b.recipientHandle][..0] == [];
    var list := [Addressee(b.recipientHandle, b.kid)];
    assert list[..0] == [] && Recorded(None, list[..0], now) == None;
  }

  /** Who stays, and the history after the one removal. */
  lemma OneRemoval(s: Setting, other: Member, wrap: KvWrap, masterKey: Key)
    requires RemovesOther(s, other) && WrapsFor(s.suite, s.dir, wrap.wrap, s.members, 0, Kv, masterKey)
    requires wrap.removedRecipients == None
    ensures HandlesOf(Without(wrap.wrap, [other.handle])) == [s.operator.handle]
    ensures Remaining(wrap.wrap, [other.handle]) != {}
    ensures MergedHistory(wrap, [other.handle], s.now) == Some([RemovedRecipient(other.handle, other.kid, s.now)])
  {
    var a, b := wrap.wrap[0], wrap.wrap[1];
    assert ItemFor(s.suite, s.dir, a, s.members[0], 0, Kv, masterKey);
    assert ItemFor(s.suite, s.dir, b, s.members[1], 0, Kv, masterKey);
    assert s.members[0].handle != s.members[1].handle;
    assert wrap.wrap == [a, b];
    TwoItems(a, b, s.now);
    assert Addressee(a.recipientHandle, a.kid) in Remaining(wrap.wrap, [other.handle]);
  }

  lemma RecordOfOther(s: Setting, other: Member)
    requires RemovesOther(s, other)
    ensures s.suite.texts.handle(s.operator.handle)
    ensures RecordPasses(s.suite.texts, RemovedRecipient(other.handle, other.kid, s.now))
  {
    assert GoodMember(s.suite, s.dir, s.members[0]) && GoodMember(s.suite, s.dir, s.members[1]);
  }

  lemma RemovalFits(s: Setting, other: Member, job: Job, origin: Origin)
    requires RemovesOther(s, other) && IsRewrapOf(s, job, origin)
    ensures job.fits([s.operator.handle], Some([RemovedRecipient(other.handle, other.kid, s.now)]), true)
         == ValueFits(s.pair, true)
  {
    RecordOfOther(s, other);
    var history := Some([RemovedRecipient(other.handle, other.kid, s.now)]);
    assert FitsAs(job, origin, s.publicKey, [s.operator.handle], history, true);
    FreshPartsIfRoom(s, job, origin, [s.operator.handle], history, true);
  }

  lemma RemovalReloads(s: Setting, other: Member, job: Job, origin: Origin, options: Options)
    requires RemovesOther(s, other) && IsRewrapOf(s, job, origin)
    ensures Removes(job.verified.body.wrap.wrap, job.targets, options)
    ensures SomebodyStays(job.verified.body.wrap.wrap, job.targets, options)
    ensures ReloadsAfterRemoval(job, options) == ValueFits(s.pair, true)
  {
    OtherIsRemoved(s, other, job, origin, options);
    OneRemoval(s, other, job.verified.body.wrap, origin.masterKey);
    RemovalFits(s, other, job, origin);
  }

  /**
   * A document of one value for two recipients loads with any value an entry token can
   * carry. One of the two can be removed if and only if the value is thirteen bytes
   * shorter than that.
   */
  lemma RemovalIsPossibleExactly(s: Setting, other: Member, options: Options) returns (job: Job, origin: Origin)
    requires RemovesOther(s, other) && AllText(s.suite, ValuesOf(s.pair)) && ValueFits(s.pair, false)
    ensures IsRewrapOf(s, job, origin) && LoadsAgain(job, job.verified)
    ensures Possible(job, origin, options) <==> ValueFits(s.pair, true)
  {
    job, origin := RewrapOf(s);
    DocumentLoads(s, job, origin);
    SoleValueFits(s.pair);
    RemovalReloads(s, other, job, origin, options);
  }

  // ---- there are such documents -----------------------------------------------------------------------

  lemma SomeSigner(texts: Texts, kid: string) returns (publicKey: Node)
    requires texts.kid(kid).Ok?
    ensures SignerLoads(texts, Signer(kid, publicKey)) && GoodNode(publicKey)
  {
    publicKey := Leaf(JsonGrammar.Word("null"));
    assert SignatureTokenLen(publicKey) == EncodedLen(241);
  }

  lemma SomeKeyName(value: Bytes) returns (pair: Pair)
    ensures HasKeyName(Some(pair)) && pair.value == value
  {
    pair := Pair("A", value);
  }

  /** The premises of each witness can be met: with as many records as there is room for, or a long value. */
  lemma SettingsExist() returns (s: Setting, other: Member, long: Pair)
    ensures IsSetting(s) && s.targets == s.members + [other] && IsSetting(s.(targets := s.members))
    ensures s.history.Some? && |s.history.value| == (12996 - 11 * |s.members|) / 7
    ensures RemovesOther(s.(members := s.targets, targets := s.members, history := None, pair := Some(long)), other)
    ensures |long.value| == MAX_KV_VALUE_SIZE
  {
    var key: Key, nonce: Nonce := Zeros(32), Zeros(24);
    var suite, dir, a, b, keys := SomeMembers(key);
    var now := SomeDate();
    var publicKey := SomeSigner(suite.texts, a.kid);
    var history := SomeHistory(suite.texts, b, 1855, now);
    long := SomeKeyName(Zeros(MAX_KV_VALUE_SIZE));
    var entropy := Entropy((n: nat) => key, (n: nat) => nonce, (n: nat) => 0, (values: Values) => []);
    s := Setting(suite, dir, entropy, [a], [a, b], a, keys, publicKey, None, Some(history), key, now);
    other := b;
  }
}

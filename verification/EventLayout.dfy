/** Events as the chain carries them: topics and data words. What the contract writes, what the decoder expects, that
    the two fit together for every kind of event but one, and which other logs the decoder takes for the contract's. */
module EventLayout {
  import opened Wrappers
  import opened ProtocolTypes
  import opened Utf8
  import opened AbiString

  datatype EventKind =
    | ReleaseKind | PauseKind | CreatedKind | NonceKind | AcceptedKind | CancelledKind | ExpiredKind | ProposedKind
    | DisputedKind | ResolvedKind | VoidedKind | ClaimedKind | RefundedKind

  /** A log; its signature topic is given as the kind, topics are the indexed ones. */
  datatype RawLog = RawLog(address: Address, kind: EventKind, topics: seq<Uint256>, data: seq<Byte>)

  // ---------- Words in data ----------

  /** n words of 32 bytes. */
  predicate Sized(words: seq<nat>, n: nat) {
    |words| == n && forall i :: 0 <= i < n ==> words[i] <= MAX_UINT256
  }

  function Data(words: seq<nat>): (d: seq<Byte>)
    ensures |d| == WORD * |words|
  {
    if words == [] then [] else Data(words[..|words| - 1]) + ToBytes(words[|words| - 1], WORD)
  }

  function Words(data: seq<Byte>): (words: seq<nat>)
    requires |data| % WORD == 0
    ensures Sized(words, |data| / WORD)
  {
    if data == [] then []
    else
      var front, last := data[..|data| - WORD], data[|data| - WORD..];
      WordFits(last);
      Words(front) + [BigEndian(last)]
  }

  lemma {:induction false} BigEndianBounded(s: seq<Byte>)
    ensures BigEndian(s) < Pow256(|s|)
  {
    if s != [] {
      BigEndianBounded(s[..|s| - 1]);
    }
  }

  lemma WordRange()
    ensures Pow256(WORD) == MAX_UINT256 + 1
  {
    assert Pow256(4) == 0x1_0000_0000;
    PowersMultiply(4, 4);
    PowersMultiply(8, 8);
    PowersMultiply(16, 16);
  }

  lemma {:induction false} PowersMultiply(a: nat, b: nat)
    ensures Pow256(a + b) == Pow256(a) * Pow256(b)
  {
    if b > 0 {
      PowersMultiply(a, b - 1);
    }
  }

  lemma WordFits(s: seq<Byte>)
    requires |s| == WORD
    ensures BigEndian(s) <= MAX_UINT256
  {
    hide BigEndian, Pow256;
    BigEndianBounded(s);
    WordRange();
  }

  lemma {:induction false} WordsOfData(words: seq<nat>)
    requires Sized(words, |words|)
    ensures Words(Data(words)) == words
  {
    hide ToBytes, BigEndian, Pow256;
    if words != [] {
      var n := |words| - 1;
      WordsOfData(words[..n]);
      WordRange();
      ReadsBack(words[n], WORD);
      var data := Data(words);
      assert data[..|data| - WORD] == Data(words[..n]) && data[|data| - WORD..] == ToBytes(words[n], WORD);
    }
  }

  lemma {:induction false} DataOfWords(data: seq<Byte>)
    requires |data| % WORD == 0
    ensures Data(Words(data)) == data
  {
    hide ToBytes, BigEndian;
    if data != [] {
      var front, last := data[..|data| - WORD], data[|data| - WORD..];
      DataOfWords(front);
      WritesBack(last);
      assert Words(data)[..|Words(data)| - 1] == Words(front);
      assert data == front + last;
    }
  }

  // ---------- What the contract writes ----------

  /** The four names a release declares. */
  function Names(): (names: seq<string>)
    ensures |names| == STRINGS
  {
    var v := ContractIdentity();
    [v.eventProtocolId, v.protocolVersion, v.challengeSchemaId, v.evidenceSchemaId]
  }

  const TESTNET_NO_VALUE: nat := 0

  function FlagCode(b: bool): nat {
    if b then 1 else 0
  }

  function SideCode(side: Side): nat {
    if side == SideA then 0 else 1
  }

  function OutcomeCode(outcome: Outcome): nat {
    match outcome
    case OutcomeA => 0
    case OutcomeB => 1
    case OutcomeVoid => 2
  }

  function PathCode(path: ResolutionPath): nat {
    if path == UncontestedResolution then 0 else 1
  }

  function VoidPathCode(path: VoidPath): nat {
    match path
    case UncontestedVoid => 0
    case ArbiterVoid => 1
    case ProposalTimeoutVoid => 2
    case ArbitrationTimeoutVoid => 3
  }

  function StateCode(state: LifecycleState): nat {
    match state
    case Open => 0
    case Active => 1
    case Proposed => 2
    case Disputed => 3
    case Cancelled => 4
    case Expired => 5
    case ResolvedA => 6
    case ResolvedB => 7
    case Void => 8
  }

  function KindOf(e: Event): EventKind {
    match e
    case ReleaseDeclared(_, _, _, _, _, _, _, _) => ReleaseKind
    case PauseStatusChanged(_, _, _) => PauseKind
    case ChallengeCreated(_, _, _) => CreatedKind
    case AcceptanceNonceAdvanced(_, _, _, _) => NonceKind
    case ChallengeAccepted(_, _, _, _, _, _) => AcceptedKind
    case ChallengeCancelled(_, _, _) => CancelledKind
    case ChallengeExpired(_, _, _, _) => ExpiredKind
    case OutcomeProposed(_, _, _, _, _, _) => ProposedKind
    case OutcomeDisputed(_, _, _, _, _, _, _, _) => DisputedKind
    case ChallengeResolved(_, _, _, _, _, _, _, _, _) => ResolvedKind
    case ChallengeVoided(_, _, _, _, _, _, _) => VoidedKind
    case WinningsClaimed(_, _, _, _) => ClaimedKind
    case PrincipalRefunded(_, _, _, _, _) => RefundedKind
  }

  /** The indexed parameters, in order of declaration. */
  function Topics(e: Event): seq<Uint256> {
    match e
    case ReleaseDeclared(releaseId, _, _, _, _, _, _, _) => [releaseId]
    case PauseStatusChanged(changedBy, _, _) => [changedBy]
    case ChallengeCreated(id, terms, _) => [id, terms.challengerWallet]
    case AcceptanceNonceAdvanced(id, challenger, _, _) => [id, challenger]
    case ChallengeAccepted(id, acceptor, _, _, _, _) => [id, acceptor]
    case ChallengeCancelled(id, challenger, _) => [id, challenger]
    case ChallengeExpired(id, _, challenger, _) => [id, challenger]
    case OutcomeProposed(id, resolver, _, _, _, _) => [id, resolver]
    case OutcomeDisputed(id, wallet, _, _, _, _, _, _) => [id, wallet]
    case ChallengeResolved(id, finalizer, _, _, _, _, _, winner, _) => [id, finalizer, winner]
    case ChallengeVoided(id, finalizer, _, _, _, _, _) => [id, finalizer]
    case WinningsClaimed(id, entitlement, wallet, _) => [id, entitlement, wallet]
    case PrincipalRefunded(id, entitlement, wallet, _, _) => [id, entitlement, wallet]
  }

  /** The other parameters of one word each, in order of declaration. */
  function Fields(e: Event): seq<nat> {
    match e
    case ReleaseDeclared(_, chainId, escrow, token, decimals, resolver, arbiter, initialPaused) =>
      [chainId, escrow, token, decimals, TESTNET_NO_VALUE, resolver, arbiter, FlagCode(initialPaused)]
    case PauseStatusChanged(_, previous, next) => [FlagCode(previous), FlagCode(next)]
    case ChallengeCreated(_, t, nonce) =>
      [t.specHash, t.instanceNonce, SideCode(t.challengerSide), t.stakeAmount, nonce, t.acceptanceDeadline,
       t.observationTime, t.sourceCorrectionCutoff, t.proposalDeadline, t.disputeWindowSeconds,
       t.arbitrationWindowSeconds, t.timeoutVoidAt, t.executionHash, t.termsHash, t.createdAt]
    case AcceptanceNonceAdvanced(_, _, previous, next) => [previous, next]
    case ChallengeAccepted(_, _, side, nonce, expiry, stake) => [SideCode(side), nonce, expiry, stake]
    case ChallengeCancelled(_, _, amount) => [amount]
    case ChallengeExpired(_, finalizer, _, amount) => [finalizer, amount]
    case OutcomeProposed(_, _, outcome, reason, evidence, deadline) =>
      [OutcomeCode(outcome), reason, evidence, deadline]
    case OutcomeDisputed(_, _, outcome, reason, evidence, parent, start, deadline) =>
      [OutcomeCode(outcome), reason, evidence, parent, start, deadline]
    case ChallengeResolved(_, _, outcome, reason, evidence, parent, path, _, amount) =>
      [OutcomeCode(outcome), reason, evidence, parent, PathCode(path), amount]
    case ChallengeVoided(_, _, reason, evidence, parent, path, amount) =>
      [reason, evidence, parent, VoidPathCode(path), amount]
    case WinningsClaimed(_, _, _, amount) => [amount]
    case PrincipalRefunded(_, _, _, origin, amount) => [StateCode(origin), amount]
  }

  /** Every parameter fits its word. */
  predicate InWords(e: Event) {
    Sized(Fields(e), |Fields(e)|)
  }

  /** The log of an event, its names spelled with the marks given. */
  function MarkedLog(self: Address, e: Event, marks: seq<bool>): RawLog
    requires InWords(e) && |marks| == STRINGS
  {
    RawLog(self, KindOf(e), Topics(e),
           if e.ReleaseDeclared? then Encoded(Payload(Spellings(Names(), marks), Data(Fields(e)))) else Data(Fields(e)))
  }

  const UNMARKED: seq<bool> := [false, false, false, false]

  /** The log the contract writes, which puts no mark before any name. */
  function LogOf(self: Address, e: Event): RawLog
    requires InWords(e)
  {
    MarkedLog(self, e, UNMARKED)
  }

  // ---------- What the decoder reads ----------

  /** How many indexed topics, and how many words of data, the decoder demands. */
  function TopicCount(kind: EventKind): nat {
    match kind
    case PauseKind => 0
    case ReleaseKind => 1
    case ResolvedKind | ClaimedKind | RefundedKind => 3
    case _ => 2
  }

  function WordCount(kind: EventKind): nat {
    match kind
    case ReleaseKind => 8
    case PauseKind => 3
    case CreatedKind => 15
    case NonceKind | ExpiredKind | RefundedKind => 2
    case AcceptedKind | ProposedKind => 4
    case CancelledKind | ClaimedKind => 1
    case DisputedKind | ResolvedKind => 6
    case VoidedKind => 5
  }

  predicate Wallet(w: nat) {
    0 < w <= MAX_ADDRESS
  }

  function SideOf(code: nat): Side {
    if code == 0 then SideA else SideB
  }

  function OutcomeOf(code: nat): Outcome {
    if code == 0 then OutcomeA else if code == 1 then OutcomeB else OutcomeVoid
  }

  function PathOf(code: nat): ResolutionPath {
    if code == 0 then UncontestedResolution else ArbiterResolution
  }

  function VoidPathOf(code: nat): VoidPath {
    if code == 0 then UncontestedVoid
    else if code == 1 then ArbiterVoid
    else if code == 2 then ProposalTimeoutVoid
    else ArbitrationTimeoutVoid
  }

  function OriginOf(code: nat): LifecycleState {
    if code == 4 then Cancelled else if code == 5 then Expired else Void
  }

  predicate ReasonFits(outcome: Outcome, code: nat) {
    code <= if outcome == OutcomeVoid then MAX_VOID_REASON else MAX_AB_REASON
  }

  function ReadRelease(t: seq<Uint256>, w: seq<nat>, address: Address): Option<Event>
    requires |t| == 1 && Sized(w, 8)
  {
    if !Wallet(w[1]) || !Wallet(w[2]) || w[3] > 18 || w[4] > TESTNET_NO_VALUE || !Wallet(w[5]) || !Wallet(w[6])
       || w[7] > 1 || w[0] == 0 || w[1] != address || |{w[1], w[2], w[5], w[6]}| != 4 then None
    else Some(ReleaseDeclared(t[0], w[0], w[1], w[2], w[3], w[5], w[6], w[7] == 1))
  }

  function ReadPause(w: seq<nat>): Option<Event>
    requires Sized(w, 3)
  {
    if !Wallet(w[0]) || w[1] > 1 || w[2] > 1 || w[1] == w[2] then None
    else Some(PauseStatusChanged(w[0], w[1] == 1, w[2] == 1))
  }

  function ReadCreated(t: seq<Uint256>, w: seq<nat>): Option<Event>
    requires |t| == 2 && Sized(w, 15)
  {
    if t[0] == 0 || w[0] == 0 || w[1] == 0 || !Wallet(t[1]) || w[2] > 1 || w[12] == 0 || w[13] == 0 then None
    else if exists i :: 5 <= i < 12 && w[i] > MAX_UINT64 then None
    else if w[14] > MAX_UINT64 || w[3] == 0 || w[3] > MAX_UINT256 / 2 || w[4] != 0 then None
    else if !(w[14] < w[5] < w[6] < w[7] < w[8]) || w[9] == 0 || w[10] == 0 || w[7] >= w[6] + w[9] then None
    else if w[8] + w[9] + w[10] > w[11] || w[7] + w[10] > w[11] then None
    else
      Some(ChallengeCreated(t[0], Terms(w[0], w[12], w[13], w[1], t[1], SideOf(w[2]), w[3], w[14], w[5], w[6], w[7],
                                        w[8], w[9], w[10], w[11]), w[4]))
  }

  function ReadNonce(t: seq<Uint256>, w: seq<nat>): Option<Event>
    requires |t| == 2 && Sized(w, 2)
  {
    if t[0] == 0 || !Wallet(t[1]) || w[1] != w[0] + 1 then None
    else Some(AcceptanceNonceAdvanced(t[0], t[1], w[0], w[1]))
  }

  function ReadAccepted(t: seq<Uint256>, w: seq<nat>): Option<Event>
    requires |t| == 2 && Sized(w, 4)
  {
    if t[0] == 0 || !Wallet(t[1]) || w[0] > 1 || w[2] > MAX_UINT64 || w[2] == 0 || w[3] == 0 then None
    else Some(ChallengeAccepted(t[0], t[1], SideOf(w[0]), w[1], w[2], w[3]))
  }

  function ReadCancelled(t: seq<Uint256>, w: seq<nat>): Option<Event>
    requires |t| == 2 && Sized(w, 1)
  {
    if t[0] == 0 || !Wallet(t[1]) || w[0] == 0 then None else Some(ChallengeCancelled(t[0], t[1], w[0]))
  }

  function ReadExpired(t: seq<Uint256>, w: seq<nat>): Option<Event>
    requires |t| == 2 && Sized(w, 2)
  {
    if t[0] == 0 || !Wallet(w[0]) || !Wallet(t[1]) || w[1] == 0 then None
    else Some(ChallengeExpired(t[0], w[0], t[1], w[1]))
  }

  function ReadProposed(t: seq<Uint256>, w: seq<nat>): Option<Event>
    requires |t| == 2 && Sized(w, 4)
  {
    if w[0] > 2 || t[0] == 0 || !Wallet(t[1]) || !ReasonFits(OutcomeOf(w[0]), w[1]) || w[2] == 0 || w[3] > MAX_UINT64
    then None
    else Some(OutcomeProposed(t[0], t[1], OutcomeOf(w[0]), w[1], w[2], w[3]))
  }

  function ReadDisputed(t: seq<Uint256>, w: seq<nat>): Option<Event>
    requires |t| == 2 && Sized(w, 6)
  {
    if w[0] > 2 || t[0] == 0 || !Wallet(t[1]) || !ReasonFits(OutcomeOf(w[0]), w[1]) || w[2] == 0 || w[3] == 0
       || w[4] > MAX_UINT64 || w[5] > MAX_UINT64 || w[4] >= w[5] then None
    else Some(OutcomeDisputed(t[0], t[1], OutcomeOf(w[0]), w[1], w[2], w[3], w[4], w[5]))
  }

  function ReadResolved(t: seq<Uint256>, w: seq<nat>): Option<Event>
    requires |t| == 3 && Sized(w, 6)
  {
    if w[0] > 1 || w[4] > 1 || (w[4] == 0) != (w[3] == 0) || w[5] == 0 || t[0] == 0 || !Wallet(t[1]) || !Wallet(t[2])
       || !ReasonFits(OutcomeOf(w[0]), w[1]) || w[2] == 0 then None
    else Some(ChallengeResolved(t[0], t[1], OutcomeOf(w[0]), w[1], w[2], w[3], PathOf(w[4]), t[2], w[5]))
  }

  function ReadVoided(t: seq<Uint256>, w: seq<nat>): Option<Event>
    requires |t| == 2 && Sized(w, 5)
  {
    if w[3] > 3 || w[0] > (if w[3] >= 2 then 1 else 5) then None
    else if w[3] >= 2 && (w[1] != 0 || w[2] != 0 || w[0] != w[3] - 2) then None
    else if w[3] < 2 && (w[1] == 0 || (w[3] == 0) != (w[2] == 0)) then None
    else if w[4] == 0 || t[0] == 0 || !Wallet(t[1]) then None
    else Some(ChallengeVoided(t[0], t[1], w[0], w[1], w[2], VoidPathOf(w[3]), w[4]))
  }

  function ReadClaimed(t: seq<Uint256>, w: seq<nat>): Option<Event>
    requires |t| == 3 && Sized(w, 1)
  {
    if t[0] == 0 || t[1] == 0 || !Wallet(t[2]) || w[0] == 0 then None else Some(WinningsClaimed(t[0], t[1], t[2], w[0]))
  }

  function ReadRefunded(t: seq<Uint256>, w: seq<nat>): Option<Event>
    requires |t| == 3 && Sized(w, 2)
  {
    if w[0] !in {4, 5, 8} || w[1] == 0 || t[0] == 0 || t[1] == 0 || !Wallet(t[2]) then None
    else Some(PrincipalRefunded(t[0], t[1], t[2], OriginOf(w[0]), w[1]))
  }

  function Read(kind: EventKind, t: seq<Uint256>, w: seq<nat>, address: Address): Option<Event>
    requires |t| == TopicCount(kind) && Sized(w, WordCount(kind))
  {
    match kind
    case ReleaseKind => ReadRelease(t, w, address)
    case PauseKind => ReadPause(w)
    case CreatedKind => ReadCreated(t, w)
    case NonceKind => ReadNonce(t, w)
    case AcceptedKind => ReadAccepted(t, w)
    case CancelledKind => ReadCancelled(t, w)
    case ExpiredKind => ReadExpired(t, w)
    case ProposedKind => ReadProposed(t, w)
    case DisputedKind => ReadDisputed(t, w)
    case ResolvedKind => ReadResolved(t, w)
    case VoidedKind => ReadVoided(t, w)
    case ClaimedKind => ReadClaimed(t, w)
    case RefundedKind => ReadRefunded(t, w)
  }

  function ExpectedNames(): seq<string> {
    ["challenge-escrow-event/v1", "challenge-escrow-protocol/v1", "challenge-escrow.spec/v1",
     "challenge-escrow.evidence/v1"]
  }

  function ReadDeclaration(t: seq<Uint256>, declared: Option<Declaration>, address: Address): Option<Event>
    requires |t| == 1 && (declared.Some? ==> |declared.value.statics| == 8 * WORD)
  {
    if declared == None || declared.value.texts != ExpectedNames() then None
    else ReadRelease(t, Words(declared.value.statics), address)
  }

  /** decodeProtocolEvent: None stands for a thrown error. */
  function Decode(raw: RawLog): Option<Event> {
    if |raw.topics| != TopicCount(raw.kind) then None
    else if raw.kind == ReleaseKind then
      ReadDeclaration(raw.topics, Declared(raw.data), raw.address)
    else if |raw.data| != WORD * WordCount(raw.kind) then None
    else Read(raw.kind, raw.topics, Words(raw.data), raw.address)
  }

  // ---------- What is readable ----------

  predicate CreationPasses(id: Bytes32, t: Terms, nonce: nat) {
    && id != ZERO_HASH && t.specHash != ZERO_HASH && t.executionHash != ZERO_HASH && t.termsHash != ZERO_HASH
    && t.instanceNonce != ZERO_HASH && t.challengerWallet != ZERO_ADDRESS
    && 0 < t.stakeAmount <= MAX_UINT256 / 2 && nonce == 0
    && t.createdAt < t.acceptanceDeadline < t.observationTime
    && t.observationTime < t.sourceCorrectionCutoff < t.proposalDeadline
    && t.disputeWindowSeconds > 0 && t.arbitrationWindowSeconds > 0
    && t.sourceCorrectionCutoff < t.observationTime + t.disputeWindowSeconds
    && t.proposalDeadline + t.disputeWindowSeconds + t.arbitrationWindowSeconds <= t.timeoutVoidAt <= MAX_UINT64
  }

  /** What an event's parameters must satisfy, kind by kind. */
  predicate FieldsPass(e: Event) {
    match e
    case ReleaseDeclared(_, chainId, escrow, token, decimals, resolver, arbiter, _) =>
      && 0 < chainId <= MAX_UINT256 && decimals <= 18
      && ZERO_ADDRESS !in {escrow, token, resolver, arbiter}
      && escrow != token && escrow != resolver && escrow != arbiter
      && token != resolver && token != arbiter && resolver != arbiter
    case PauseStatusChanged(changedBy, previous, next) => changedBy != ZERO_ADDRESS && previous != next
    case ChallengeCreated(id, terms, nonce) => CreationPasses(id, terms, nonce)
    case AcceptanceNonceAdvanced(id, challenger, previous, next) =>
      id != ZERO_HASH && challenger != ZERO_ADDRESS && next == previous + 1 && next <= MAX_UINT256
    case ChallengeAccepted(id, acceptor, _, nonce, expiry, stake) =>
      && id != ZERO_HASH && acceptor != ZERO_ADDRESS && nonce <= MAX_UINT256
      && 0 < expiry <= MAX_UINT64 && 0 < stake <= MAX_UINT256
    case ChallengeCancelled(id, challenger, amount) =>
      id != ZERO_HASH && challenger != ZERO_ADDRESS && 0 < amount <= MAX_UINT256
    case ChallengeExpired(id, finalizer, challenger, amount) =>
      id != ZERO_HASH && finalizer != ZERO_ADDRESS && challenger != ZERO_ADDRESS && 0 < amount <= MAX_UINT256
    case OutcomeProposed(id, resolver, outcome, reason, evidence, deadline) =>
      && id != ZERO_HASH && resolver != ZERO_ADDRESS && ReasonFits(outcome, reason)
      && evidence != ZERO_HASH && deadline <= MAX_UINT64
    case OutcomeDisputed(id, wallet, outcome, reason, evidence, parent, start, deadline) =>
      && id != ZERO_HASH && wallet != ZERO_ADDRESS && ReasonFits(outcome, reason)
      && evidence != ZERO_HASH && parent != ZERO_HASH && start < deadline <= MAX_UINT64
    case ChallengeResolved(id, finalizer, outcome, reason, evidence, parent, path, winner, amount) =>
      && id != ZERO_HASH && finalizer != ZERO_ADDRESS && winner != ZERO_ADDRESS
      && outcome != OutcomeVoid && ReasonFits(outcome, reason) && evidence != ZERO_HASH
      && (path == UncontestedResolution <==> parent == ZERO_HASH)
      && 0 < amount <= MAX_UINT256
    case ChallengeVoided(id, finalizer, reason, evidence, parent, path, amount) =>
      && id != ZERO_HASH && finalizer != ZERO_ADDRESS && 0 < amount <= MAX_UINT256
      && (match path
          case UncontestedVoid => reason <= MAX_VOID_REASON && evidence != ZERO_HASH && parent == ZERO_HASH
          case ArbiterVoid => reason <= MAX_VOID_REASON && evidence != ZERO_HASH && parent != ZERO_HASH
          case ProposalTimeoutVoid => reason == 0 && evidence == parent == ZERO_HASH
          case ArbitrationTimeoutVoid => reason == 1 && evidence == parent == ZERO_HASH)
    case WinningsClaimed(id, entitlement, wallet, amount) =>
      id != ZERO_HASH && entitlement != ZERO_HASH && wallet != ZERO_ADDRESS && 0 < amount <= MAX_UINT256
    case PrincipalRefunded(id, entitlement, wallet, origin, amount) =>
      && id != ZERO_HASH && entitlement != ZERO_HASH && wallet != ZERO_ADDRESS
      && origin in {Cancelled, Expired, Void} && 0 < amount <= MAX_UINT256
  }

  /** An event the contract at an address may emit and the decoder reads: no pause change, and parameters in order. */
  predicate Readable(self: Address, e: Event) {
    FieldsPass(e) && !e.PauseStatusChanged? && (e.ReleaseDeclared? ==> e.escrowContract == self)
  }

  lemma PassingInWords(e: Event)
    requires FieldsPass(e)
    ensures InWords(e)
  {
  }

  // ---------- Words ----------

  predicate LayoutMatches(e: Event) {
    |Topics(e)| == TopicCount(KindOf(e)) && |Fields(e)| == WordCount(KindOf(e))
  }

  /** The decoder expects what the contract writes, except for pause changes: there the caller is indexed. */
  lemma LayoutsAgree(e: Event)
    ensures LayoutMatches(e) <==> !e.PauseStatusChanged?
  {
  }

  lemma EarlyReadsBack(self: Address, e: Event)
    requires e.ChallengeCreated? || e.AcceptanceNonceAdvanced? || e.ChallengeAccepted? || e.ChallengeCancelled?
             || e.ChallengeExpired?
    requires InWords(e)
    ensures Read(KindOf(e), Topics(e), Fields(e), self) == if FieldsPass(e) then Some(e) else None
  {
  }

  lemma LateReadsBack(self: Address, e: Event)
    requires e.OutcomeProposed? || e.OutcomeDisputed? || e.ChallengeResolved? || e.ChallengeVoided?
             || e.WinningsClaimed? || e.PrincipalRefunded?
    requires InWords(e)
    ensures Read(KindOf(e), Topics(e), Fields(e), self) == if FieldsPass(e) then Some(e) else None
  {
  }

  lemma ReleaseReadsBack(self: Address, e: Event)
    requires e.ReleaseDeclared? && InWords(e)
    ensures ReadRelease(Topics(e), Fields(e), self) == if Readable(self, e) then Some(e) else None
  {
  }

  predicate EarlyKind(kind: EventKind) {
    kind in {ReleaseKind, CreatedKind, NonceKind, AcceptedKind, CancelledKind, ExpiredKind}
  }

  predicate LaidOut(e: Event, kind: EventKind, t: seq<Uint256>, w: seq<nat>) {
    KindOf(e) == kind && Topics(e) == t && Fields(e) == w
  }

  lemma EarlyIsCanonical(kind: EventKind, t: seq<Uint256>, w: seq<nat>, address: Address)
    requires EarlyKind(kind) && |t| == TopicCount(kind) && Sized(w, WordCount(kind))
    requires Read(kind, t, w, address).Some?
    ensures LaidOut(Read(kind, t, w, address).value, kind, t, w)
    ensures Readable(address, Read(kind, t, w, address).value)
  {
  }

  lemma LateIsCanonical(kind: EventKind, t: seq<Uint256>, w: seq<nat>, address: Address)
    requires !EarlyKind(kind) && kind != PauseKind && |t| == TopicCount(kind) && Sized(w, WordCount(kind))
    requires Read(kind, t, w, address).Some?
    ensures LaidOut(Read(kind, t, w, address).value, kind, t, w)
    ensures Readable(address, Read(kind, t, w, address).value)
  {
  }

  /** What was read is laid out as it was, and in order. */
  lemma ReadIsCanonical(kind: EventKind, t: seq<Uint256>, w: seq<nat>, address: Address)
    requires kind != PauseKind && |t| == TopicCount(kind) && Sized(w, WordCount(kind))
    requires Read(kind, t, w, address).Some?
    ensures LaidOut(Read(kind, t, w, address).value, kind, t, w)
    ensures Readable(address, Read(kind, t, w, address).value)
  {
    hide Read, LaidOut, Readable;
    if EarlyKind(kind) {
      EarlyIsCanonical(kind, t, w, address);
    } else {
      LateIsCanonical(kind, t, w, address);
    }
  }

  // ---------- Data ----------

  lemma NamesAreExpected()
    ensures Names() == ExpectedNames()
    ensures forall marks :: |marks| == STRINGS ==> MarksSuffice(Names(), marks)
    ensures forall i :: 0 <= i < STRINGS ==> |Names()[i]| <= 28
  {
  }

  lemma {:induction false} EncodingIsShort(s: string)
    ensures |EncodeText(s)| <= 4 * |s|
  {
    if s != "" {
      EncodingIsShort(s[1..]);
    }
  }

  lemma {:induction false} TailIsShort(strings: seq<seq<Byte>>)
    requires forall i :: 0 <= i < |strings| ==> |strings[i]| <= 120
    ensures |EncodedTail(strings)| <= 200 * |strings|
  {
    hide EncodedString;
    if strings != [] {
      TailIsShort(strings[..|strings| - 1]);
    }
  }

  lemma NamesEncodable(marks: seq<bool>, words: seq<nat>)
    requires |marks| == STRINGS && |words| == 8
    ensures Encodable(Payload(Spellings(Names(), marks), Data(words)))
  {
    hide Data, EncodedString, EncodedTail, EncodeText, Spellings, Names;
    var strings := Spellings(Names(), marks);
    NamesAreExpected();
    forall i | 0 <= i < STRINGS
      ensures |strings[i]| <= 120
    {
      EncodingIsShort(Names()[i]);
    }
    TailIsShort(strings);
  }

  lemma PauseIsUnread(self: Address, e: Event)
    requires e.PauseStatusChanged? && InWords(e)
    ensures Decode(LogOf(self, e)) == None
  {
    hide Data;
  }

  lemma DeclarationReadsBack(self: Address, e: Event, marks: seq<bool>)
    requires e.ReleaseDeclared? && InWords(e) && |marks| == STRINGS
    ensures Decode(MarkedLog(self, e, marks)) == if Readable(self, e) then Some(e) else None
  {
    hide Encoded, Encodable, Decoded, ReadRelease, Data, Words, Names, ExpectedNames, Fields, Readable, Texts;
    hide Spellings;
    FieldsOfRelease(e);
    NamesEncodable(marks, Fields(e));
    NamesAreExpected();
    SpellingsAreRead(Names(), marks);
    DecodesEncoded(Payload(Spellings(Names(), marks), Data(Fields(e))));
    WordsOfData(Fields(e));
    ReleaseReadsBack(self, e);
  }

  lemma FieldsOfRelease(e: Event)
    requires e.ReleaseDeclared?
    ensures |Fields(e)| == 8 && |Topics(e)| == 1
  {
  }

  /** The decoder reads an emitted event back as it was, or not at all; not at all exactly when the event is a pause
      change or has a parameter out of order. */
  lemma DecodeUndoesEmission(self: Address, e: Event)
    requires InWords(e)
    ensures Decode(LogOf(self, e)) == if Readable(self, e) then Some(e) else None
  {
    hide Data, Words, Read, Fields, Topics, FieldsPass;
    LayoutsAgree(e);
    if e.PauseStatusChanged? {
      PauseIsUnread(self, e);
    } else if e.ReleaseDeclared? {
      DeclarationReadsBack(self, e, UNMARKED);
    } else {
      WordsOfData(Fields(e));
      if KindOf(e) in {CreatedKind, NonceKind, AcceptedKind, CancelledKind, ExpiredKind} {
        EarlyReadsBack(self, e);
      } else {
        LateReadsBack(self, e);
      }
    }
  }

  // ---------- What else is read ----------

  /** The marks before the strings of a log's payload. */
  function MarksIn(raw: RawLog): (marks: seq<bool>) {
    if raw.kind == ReleaseKind && Decoded(raw.data).Some? then MarksOf(Decoded(raw.data).value.strings) else UNMARKED
  }

  predicate CarriesMark(raw: RawLog) {
    true in MarksIn(raw)
  }

  lemma DeclarationIsCanonical(raw: RawLog)
    requires raw.kind == ReleaseKind && Decode(raw).Some?
    ensures var e := Decode(raw).value;
            && InWords(e) && Readable(raw.address, e) && |MarksIn(raw)| == STRINGS
            && raw == MarkedLog(raw.address, e, MarksIn(raw))
  {
    hide Encoded, Decoded, ReadRelease, Data, Words, Names, ExpectedNames, Fields, Readable, Topics, WalkStrings, Texts;
    hide Spellings, MarksOf, MarksSuffice;
    AcceptedIsCanonical(raw.data);
    var p := Decoded(raw.data).value;
    NamesAreExpected();
    ReadStringsAreSpelled(p.strings);
    DataOfWords(p.statics);
    ReadIsCanonical(ReleaseKind, raw.topics, Words(p.statics), raw.address);
    ReadableIsKind(raw.address, Decode(raw).value);
  }

  lemma ReadableIsKind(self: Address, e: Event)
    ensures Readable(self, e) ==> InWords(e)
    ensures e.ReleaseDeclared? <==> KindOf(e) == ReleaseKind
    ensures e.PauseStatusChanged? <==> KindOf(e) == PauseKind
  {
    hide FieldsPass;
    if Readable(self, e) {
      PassingInWords(e);
    }
  }

  lemma MarkedReadsBack(self: Address, e: Event, marks: seq<bool>)
    requires InWords(e) && |marks| == STRINGS
    ensures Decode(MarkedLog(self, e, marks)) == if Readable(self, e) then Some(e) else None
  {
    hide Data, Decode, Fields, Topics, FieldsPass, Readable;
    if e.ReleaseDeclared? {
      DeclarationReadsBack(self, e, marks);
    } else {
      DecodeUndoesEmission(self, e);
    }
  }

  lemma OtherIsCanonical(raw: RawLog)
    requires raw.kind != PauseKind && raw.kind != ReleaseKind && Decode(raw).Some?
    ensures var e := Decode(raw).value;
            && InWords(e) && Readable(raw.address, e) && !e.ReleaseDeclared?
            && raw == RawLog(raw.address, KindOf(e), Topics(e), Data(Fields(e)))
  {
    hide Data, Words, Read, Fields, Topics, FieldsPass, Readable;
    ReadIsCanonical(raw.kind, raw.topics, Words(raw.data), raw.address);
    DataOfWords(raw.data);
    ReadableIsKind(raw.address, Decode(raw).value);
  }

  /** A log that is read is laid out as its event is, with the marks it carries. */
  lemma ReadLogIsMarked(raw: RawLog)
    requires raw.kind != PauseKind && Decode(raw).Some?
    ensures var e := Decode(raw).value;
            && InWords(e) && Readable(raw.address, e) && |MarksIn(raw)| == STRINGS
            && raw == MarkedLog(raw.address, e, MarksIn(raw))
  {
    hide Data, Decode, Fields, Topics, Readable;
    if raw.kind == ReleaseKind {
      DeclarationIsCanonical(raw);
    } else {
      OtherIsCanonical(raw);
    }
  }

  /** The logs that are read, pause changes aside, are those of readable events, each name with a byte order mark
      before it or none, and nothing else. */
  lemma DecodesExactly(raw: RawLog, e: Event)
    requires raw.kind != PauseKind
    ensures Decode(raw) == Some(e)
       <==> InWords(e) && Readable(raw.address, e)
            && exists marks :: |marks| == STRINGS && raw == MarkedLog(raw.address, e, marks)
  {
    hide Decode, Readable, MarkedLog, MarksIn;
    if Decode(raw) == Some(e) {
      ReadLogIsMarked(raw);
    }
    forall marks | InWords(e) && Readable(raw.address, e) && |marks| == STRINGS
                   && raw == MarkedLog(raw.address, e, marks)
      ensures Decode(raw) == Some(e)
    {
      MarkedReadsBack(raw.address, e, marks);
    }
  }

  lemma MarksReadBack(self: Address, e: Event, marks: seq<bool>)
    requires e.ReleaseDeclared? && InWords(e) && |marks| == STRINGS
    ensures MarksIn(MarkedLog(self, e, marks)) == marks
  {
    hide Encoded, Encodable, Decoded, Data, Names, Fields, EncodeText, Spellings;
    FieldsOfRelease(e);
    NamesEncodable(marks, Fields(e));
    var strings := Spellings(Names(), marks);
    DecodesEncoded(Payload(strings, Data(Fields(e))));
    NamesAreExpected();
    forall i | 0 <= i < STRINGS
      ensures (MARK <= strings[i]) == marks[i]
    {
      MarkedText(Names()[i]);
      assert MARK <= Spelled(true, Names()[i]);
      assert Spelled(false, Names()[i]) == EncodeText(Names()[i]);
    }
  }

  lemma NoMarks(marks: seq<bool>)
    requires |marks| == STRINGS && true !in marks
    ensures marks == UNMARKED
  {
    forall i | 0 <= i < STRINGS
      ensures marks[i] == UNMARKED[i]
    {
      assert marks[i] in marks;
    }
  }

  /** A log is read as an event and carries no mark exactly when it is, bit for bit, the emission of that event, and the
      event is readable. */
  lemma DecodesExactlyEmissions(raw: RawLog, e: Event)
    requires raw.kind != PauseKind
    ensures Decode(raw) == Some(e) && !CarriesMark(raw)
       <==> InWords(e) && Readable(raw.address, e) && raw == LogOf(raw.address, e)
  {
    hide Decode, Readable, MarkedLog, MarksIn;
    if Decode(raw) == Some(e) && !CarriesMark(raw) {
      ReadLogIsMarked(raw);
      NoMarks(MarksIn(raw));
    }
    if InWords(e) && Readable(raw.address, e) && raw == LogOf(raw.address, e) {
      MarkedReadsBack(raw.address, e, UNMARKED);
      EmissionIsUnmarked(raw.address, e);
    }
  }

  lemma EmissionIsUnmarked(self: Address, e: Event)
    requires InWords(e)
    ensures !CarriesMark(LogOf(self, e))
  {
    hide Decoded, Encoded, Data, Fields, Topics;
    if e.ReleaseDeclared? {
      MarksReadBack(self, e, UNMARKED);
    } else {
      ReadableIsKind(self, e);
    }
  }

  /** Every release event is read off sixteen different logs, of which the contract writes one. */
  lemma MarkedReleasesAreRead(self: Address, e: Event, marks: seq<bool>, others: seq<bool>)
    requires e.ReleaseDeclared? && Readable(self, e) && |marks| == STRINGS && |others| == STRINGS
    ensures InWords(e) && Decode(MarkedLog(self, e, marks)) == Some(e)
    ensures marks != others ==> MarkedLog(self, e, marks) != MarkedLog(self, e, others)
  {
    hide Decode, FieldsPass, MarkedLog, MarksIn;
    PassingInWords(e);
    MarkedReadsBack(self, e, marks);
    MarksReadBack(self, e, marks);
    MarksReadBack(self, e, others);
  }

  const SOME_RELEASE := ReleaseDeclared(1, 1, 1, 2, 6, 3, 4, false)

  /** The log of a release with a mark before its first name is read, although no contract writes it. */
  lemma MarkedReleaseIsRead()
    ensures InWords(SOME_RELEASE)
    ensures Decode(MarkedLog(1, SOME_RELEASE, [true, false, false, false])) == Some(SOME_RELEASE)
    ensures MarkedLog(1, SOME_RELEASE, [true, false, false, false]) != LogOf(1, SOME_RELEASE)
  {
    hide Decode, MarkedLog, MarksIn;
    MarkedReleasesAreRead(1, SOME_RELEASE, [true, false, false, false], UNMARKED);
  }

  // ---------- Pause changes ----------

  /** What the decoder takes for a pause change: no indexed parameter and three words, which no contract writes. */
  lemma PauseDecodesExactly(raw: RawLog, e: Event)
    requires raw.kind == PauseKind
    ensures Decode(raw) == Some(e)
       <==> && e.PauseStatusChanged? && e.changedBy != ZERO_ADDRESS && e.previousPaused != e.newPaused
            && raw.topics == []
            && raw.data == Data([e.changedBy, FlagCode(e.previousPaused), FlagCode(e.newPaused)])
  {
    hide Data, Words;
    if Decode(raw) == Some(e) {
      var w := Words(raw.data);
      DataOfWords(raw.data);
      assert w == [w[0], w[1], w[2]];
    }
    if e.PauseStatusChanged? {
      var words := [e.changedBy, FlagCode(e.previousPaused), FlagCode(e.newPaused)];
      assert Sized(words, 3);
      WordsOfData(words);
    }
  }

  lemma PauseIsNoEmission(raw: RawLog, e: Event, self: Address)
    requires raw.kind == PauseKind && Decode(raw) == Some(e)
    ensures InWords(e) && raw != LogOf(self, e)
  {
    hide Decode, Data;
    PauseDecodesExactly(raw, e);
    assert |LogOf(self, e).topics| == 1;
  }
}

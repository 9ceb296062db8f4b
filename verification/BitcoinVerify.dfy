/**
 The two Bitcoin verifiers: a quorum of two Esplora providers, and a Bitcoin Core node.

 Provider and node answers are inputs, one set per call; a missing answer is a transport failure or a malformed
 response.  Block hashes are byte strings in display order, the reverse of the digest.
 */
module BitcoinVerify {
  import opened Prelude
  import opened BlockHeader
  import opened LittleEndian
  import CompactTarget

  /** A Bitcoin attestation of the proof: a block height and the message committed there. */
  datatype Attestation = Attestation(height: nat, commitment: bytes)

  datatype Failure = EvidenceInvalid | VerifierUnavailable

  datatype Verdict =
    | Verified(height: nat, hash: bytes, time: nat, confirmations: int)
    | NotVerified(best: Option<int>)

  type Outcome = Result<Verdict, Failure>

  /** Double SHA-256, the main network's first block, the work test on headers, and the configured threshold. */
  datatype Net = Net(dsha: bytes -> bytes, genesis: bytes, work: bytes -> bool, minimum: int)

  const MAX_ATTESTATIONS: nat := 16
  const MAX_BLOCK_HEIGHT: nat := 2_147_483_647
  const MAX_TIP_SKEW: nat := 2

  predicate SortedByHeight(atts: seq<Attestation>) {
    && (forall i, j :: 0 <= i < j < |atts| ==> atts[i].height <= atts[j].height)
    && (forall i, j :: 0 <= i < j < |atts| ==> atts[i] != atts[j])
  }

  /** The block hash of a header. */
  function HashOf(net: Net, header: bytes): bytes { Reversed(net.dsha(header)) }

  // ---------------------------------------------------------------- Esplora

  datatype ProviderSnapshot = ProviderSnapshot(header: bytes, statusHeight: int, inBestChain: bool, tip: int)

  /** Both providers' answers to one quorum query. */
  datatype QuorumAnswers = QuorumAnswers(
    leftHash: Option<bytes>, rightHash: Option<bytes>, leftGenesis: Option<bytes>, rightGenesis: Option<bytes>,
    left: Option<ProviderSnapshot>, right: Option<ProviderSnapshot>)

  datatype Snapshot = Snapshot(
    hash: bytes, header: bytes, statusHeight: int, inBestChain: bool, tip: int, leftTip: int, rightTip: int)

  /** The providers, asked for a height in the n-th quorum query. */
  type Providers = (nat, nat) -> QuorumAnswers

  function Skew(a: int, b: int): nat { if a < b then b - a else a - b }

  /** `_quorum_snapshot`: the first block is not asked for twice. */
  function Quorum(net: Net, height: nat, a: QuorumAnswers): Result<Snapshot, Failure> {
    if a.leftHash.None? || a.rightHash.None? then Err(VerifierUnavailable)
    else if a.leftHash != a.rightHash then Err(EvidenceInvalid)
    else
      var leftAnchor := if height == 0 then a.leftHash else a.leftGenesis;
      var rightAnchor := if height == 0 then a.rightHash else a.rightGenesis;
      if leftAnchor.None? || rightAnchor.None? then Err(VerifierUnavailable)
      else if leftAnchor != rightAnchor || leftAnchor.value != net.genesis then Err(EvidenceInvalid)
      else if a.left.None? || a.right.None? then Err(VerifierUnavailable)
      else
        var l, r := a.left.value, a.right.value;
        if l.header != r.header || l.statusHeight != r.statusHeight || l.inBestChain != r.inBestChain then
          Err(EvidenceInvalid)
        else if Skew(l.tip, r.tip) > MAX_TIP_SKEW then Err(VerifierUnavailable)
        else Ok(Snapshot(a.leftHash.value, l.header, l.statusHeight, l.inBestChain, Min(l.tip, r.tip), l.tip, r.tip))
  }

  /** `_require_stable_snapshot`: any disagreement with a second look is a race. */
  function Stable(net: Net, height: nat, expected: Snapshot, a: QuorumAnswers): bool {
    Quorum(net, height, a) == Ok(expected)
  }

  /** The digest, as a number, meets the header's own compact target. */
  predicate ProofOfWork(dsha: bytes -> bytes, header: bytes)
    requires |header| == 80
  {
    var target := CompactTarget.Decode(BitsOf(header));
    target.Some? && FromLe(dsha(header)) <= target.value
  }

  /** On the main network the work test is the proof-of-work test. */
  ghost predicate MainNetwork(net: Net) {
    forall header: bytes {:trigger net.work(header)} ::
      |header| == 80 ==> (net.work(header) <==> ProofOfWork(net.dsha, header))
  }

  /** `_verify_header`: whether the header is well formed and has its work. */
  predicate GoodHeader(net: Net, header: bytes) { |header| == 80 && net.work(header) }

  /** The checks on a snapshot of `height` before its merkle root is looked at. */
  predicate GoodSnapshot(net: Net, height: nat, s: Snapshot) {
    && s.statusHeight == height && s.inBestChain && s.tip >= height
    && GoodHeader(net, s.header) && HashOf(net, s.header) == s.hash
  }

  /** The distinct heights, ascending. */
  function HeightsOf(atts: seq<Attestation>): seq<nat> {
    if atts == [] then []
    else
      var earlier, h := HeightsOf(atts[..|atts| - 1]), atts[|atts| - 1].height;
      if earlier != [] && earlier[|earlier| - 1] == h then earlier else earlier + [h]
  }

  datatype Pending = Pending(height: nat, confirmations: int, snapshot: Snapshot)

  function AllStable(net: Net, pending: seq<Pending>, ask: Providers, call: nat): bool
    decreases |pending|
  {
    pending == []
    || (Stable(net, pending[0].height, pending[0].snapshot, ask(pending[0].height, call))
        && AllStable(net, pending[1..], ask, call + 1))
  }

  function MostConfirmed(pending: seq<Pending>): int
    requires pending != []
  {
    var last := pending[|pending| - 1].confirmations;
    if |pending| == 1 then last else Max(MostConfirmed(pending[..|pending| - 1]), last)
  }

  /** What a good snapshot says about a height: no attested root, a root too young, or a root old enough. */
  datatype Look = Bad | Unattested | TooYoung(confirmations: int) | Old(confirmations: int)

  function Inspect(net: Net, atts: seq<Attestation>, height: nat, s: Snapshot): (l: Look)
    ensures l.TooYoung? || l.Old? ==> |s.header| == 80
  {
    if !GoodSnapshot(net, height, s) then Bad
    else if Attestation(height, MerkleOf(s.header)) !in atts then Unattested
    else if s.tip - height + 1 < net.minimum then TooYoung(s.tip - height + 1)
    else Old(s.tip - height + 1)
  }

  /** One height: an outcome, or on to the next height with these heights pending. */
  datatype Progress = Stop(outcome: Outcome) | Next(pending: seq<Pending>)

  function EsploraStep(net: Net, atts: seq<Attestation>, h: nat, ask: Providers, call: nat,
                       pending: seq<Pending>): Progress {
    match Quorum(net, h, ask(h, call))
    case Err(e) => Stop(Err(e))
    case Ok(s) =>
      match Inspect(net, atts, h, s)
      case Bad => Stop(Err(EvidenceInvalid))
      case Unattested => Next(pending)
      case TooYoung(n) => Next(pending + [Pending(h, n, s)])
      case Old(n) =>
        Stop(if Stable(net, h, s, ask(h, call + 1)) then Ok(Verified(h, s.hash, TimeOf(s.header), n))
          else Err(VerifierUnavailable))
  }

  function PendingVerdict(net: Net, pending: seq<Pending>, ask: Providers, call: nat): Outcome {
    if pending == [] then Err(EvidenceInvalid)
    else if !AllStable(net, pending, ask, call) then Err(VerifierUnavailable)
    else Ok(NotVerified(Some(MostConfirmed(pending))))
  }

  /** What is left to do from the i-th height on. */
  function EsploraFrom(
      net: Net, atts: seq<Attestation>, heights: seq<nat>, i: nat, ask: Providers, call: nat,
        pending: seq<Pending>): Outcome
    requires i <= |heights|
    decreases |heights| - i
  {
    if i == |heights| then PendingVerdict(net, pending, ask, call)
    else
      match EsploraStep(net, atts, heights[i], ask, call, pending)
      case Stop(o) => o
      case Next(pending') => EsploraFrom(net, atts, heights, i + 1, ask, call + 1, pending')
  }

  predicate Malformed(atts: seq<Attestation>) {
    |atts| > MAX_ATTESTATIONS || exists a :: a in atts && (a.height > MAX_BLOCK_HEIGHT || |a.commitment| != 32)
  }

  function EsploraOutcome(net: Net, atts: seq<Attestation>, ask: Providers): Outcome {
    if atts == [] then Ok(NotVerified(None))
    else if Malformed(atts) then Err(EvidenceInvalid)
    else EsploraFrom(net, atts, HeightsOf(atts), 0, ask, 0, [])
  }

  /** `verify_exact_digest` of the Esplora verifier, from the sorted attestations on. */
  method EsploraVerify(net: Net, atts: seq<Attestation>, ask: Providers) returns (outcome: Outcome)
    ensures outcome == EsploraOutcome(net, atts, ask)
  {
    if atts == [] { return Ok(NotVerified(None)); }
    if Malformed(atts) { return Err(EvidenceInvalid); }
    var heights := DistinctHeights(atts);
    var pending: seq<Pending> := [];
    var call: nat := 0;
    for i := 0 to |heights|
      invariant EsploraOutcome(net, atts, ask) == EsploraFrom(net, atts, heights, i, ask, call, pending)
    {
      var progress := LookAt(net, atts, heights[i], ask, call, pending);
      if progress.Stop? { return progress.outcome; }
      pending := progress.pending;
      call := call + 1;
    }
    outcome := PendingOutcome(net, pending, ask, call);
  }

  /** The body of the loop over the heights. */
  method LookAt(net: Net, atts: seq<Attestation>, height: nat, ask: Providers, call: nat, pending: seq<Pending>)
    returns (progress: Progress)
    ensures progress == EsploraStep(net, atts, height, ask, call, pending)
  {
    var answer := Quorum(net, height, ask(height, call));
    if answer.Err? { return Stop(Err(answer.error)); }
    var snapshot := answer.value;
    if !GoodSnapshot(net, height, snapshot) { return Stop(Err(EvidenceInvalid)); }
    if Attestation(height, MerkleOf(snapshot.header)) !in atts { return Next(pending); }
    var confirmations := snapshot.tip - height + 1;
    if confirmations < net.minimum { return Next(pending + [Pending(height, confirmations, snapshot)]); }
    if !Stable(net, height, snapshot, ask(height, call + 1)) { return Stop(Err(VerifierUnavailable)); }
    progress := Stop(Ok(Verified(height, snapshot.hash, TimeOf(snapshot.header), confirmations)));
  }

  method DistinctHeights(atts: seq<Attestation>) returns (heights: seq<nat>)
    ensures heights == HeightsOf(atts)
  {
    heights := [];
    for i := 0 to |atts|
      invariant heights == HeightsOf(atts[..i])
    {
      assert atts[..i + 1][..i] == atts[..i];
      if heights == [] || heights[|heights| - 1] != atts[i].height { heights := heights + [atts[i].height]; }
    }
    assert atts[..|atts|] == atts;
  }

  method PendingOutcome(net: Net, pending: seq<Pending>, ask: Providers, call: nat) returns (outcome: Outcome)
    ensures outcome == PendingVerdict(net, pending, ask, call)
  {
    if pending == [] { return Err(EvidenceInvalid); }
    var best := pending[0].confirmations;
    for i := 0 to |pending|
      invariant AllStable(net, pending, ask, call) == AllStable(net, pending[i..], ask, call + i)
      invariant best == if i == 0 then pending[0].confirmations else MostConfirmed(pending[..i])
    {
      var p := pending[i];
      assert pending[i..][1..] == pending[i + 1..];
      assert pending[..i + 1][..i] == pending[..i];
      if !Stable(net, p.height, p.snapshot, ask(p.height, call + i)) { return Err(VerifierUnavailable); }
      best := if i == 0 then p.confirmations else Max(best, p.confirmations);
    }
    assert pending[..|pending|] == pending;
    outcome := Ok(NotVerified(Some(best)));
  }

  // ---------------------------------------------------------------- Bitcoin Core

  datatype HeaderAnswer = HeaderAnswer(height: int, hash: bytes, confirmations: int, fields: Fields)

  /** The node's answers about one attestation: hash at the height, its header, and the hash again. */
  datatype NodeAnswers = NodeAnswers(
    hash: Result<bytes, Failure>, header: Result<HeaderAnswer, Failure>, recheck: Result<bytes, Failure>)

  /** `getblockchaininfo`, once checked: number of the tip and its hash. */
  datatype ChainInfo = ChainInfo(blocks: nat, best: bytes)

  datatype Node = Node(
    before: Result<ChainInfo, Failure>, about: (Attestation, nat) -> NodeAnswers, after: Result<ChainInfo, Failure>)

  datatype Evidence = Evidence(height: nat, hash: bytes, time: nat, confirmations: int)

  /** `_attestation_evidence`. */
  function NodeEvidence(net: Net, a: Attestation, blocks: nat, n: NodeAnswers): Result<Evidence, Failure> {
    if |a.commitment| != 32 then Err(EvidenceInvalid)
    else if n.hash.Err? then Err(n.hash.error)
    else if n.header.Err? then Err(n.header.error)
    else
      var header := n.header.value;
      if header.height != a.height || header.hash != n.hash.value || header.confirmations < -1 then Err(EvidenceInvalid)
      else if header.confirmations < 0 || header.confirmations != blocks - a.height + 1 then Err(VerifierUnavailable)
      else
        match Serialize(header.fields, a.height)
        case None => Err(EvidenceInvalid)
        case Some(raw) =>
          if HashOf(net, raw) != n.hash.value || a.commitment != Reversed(header.fields.merkle) then
            Err(EvidenceInvalid)
          else if n.recheck.Err? then Err(n.recheck.error)
          else if n.recheck.value != n.hash.value then Err(VerifierUnavailable)
          else Ok(Evidence(a.height, n.hash.value, header.fields.time, header.confirmations))
  }

  predicate LexLess(a: bytes, b: bytes)
    decreases |a|
  {
    b != [] && (a == [] || a[0] < b[0] || (a[0] == b[0] && LexLess(a[1..], b[1..])))
  }

  /** The order of `max(key=(confirmations, -height, block_hash))`. */
  predicate Weaker(a: Evidence, b: Evidence) {
    || a.confirmations < b.confirmations
    || (a.confirmations == b.confirmations
       && (a.height > b.height || (a.height == b.height && LexLess(a.hash, b.hash))))
  }

  function Strongest(evidence: seq<Evidence>): (r: Evidence)
    requires evidence != []
    ensures r in evidence
  {
    var last := evidence[|evidence| - 1];
    if |evidence| == 1 then last
    else
      var best := Strongest(evidence[..|evidence| - 1]);
      if Weaker(best, last) then last else best
  }

  function MaxOf(counts: seq<int>): int {
    if counts == [] then 0
    else if |counts| == 1 then counts[0]
    else Max(MaxOf(counts[..|counts| - 1]), counts[|counts| - 1])
  }

  /** The verdict once every attestation was looked at. */
  function NodeVerdict(info: ChainInfo, after: Result<ChainInfo, Failure>, evidence: seq<Evidence>,
                       pending: seq<int>): Outcome {
    match after
    case Err(e) => Err(e)
    case Ok(final) =>
      if final != info then Err(VerifierUnavailable)
      else if evidence == [] then Ok(NotVerified(Some(MaxOf(pending))))
      else
        var s := Strongest(evidence);
        Ok(Verified(s.height, s.hash, s.time, s.confirmations))
  }

  /** One attestation: an error, or the evidence and the pending counts so far. */
  datatype NodeProgress = NodeStop(failure: Failure) | NodeNext(evidence: seq<Evidence>, pending: seq<int>)

  function NodeStep(
      net: Net, a: Attestation, blocks: nat, answers: NodeAnswers, evidence: seq<Evidence>,
        pending: seq<int>): NodeProgress
  {
    if a.height > blocks then NodeNext(evidence, pending + [0])
    else
      match NodeEvidence(net, a, blocks, answers)
      case Err(e) => NodeStop(e)
      case Ok(b) =>
        if b.confirmations < net.minimum then NodeNext(evidence, pending + [b.confirmations])
        else NodeNext(evidence + [b], pending)
  }

  function NodeFrom(
      net: Net, atts: seq<Attestation>, i: nat, info: ChainInfo, node: Node, evidence: seq<Evidence>,
        pending: seq<int>): Outcome
    requires i <= |atts|
    decreases |atts| - i
  {
    if i == |atts| then NodeVerdict(info, node.after, evidence, pending)
    else
      match NodeStep(net, atts[i], info.blocks, node.about(atts[i], i), evidence, pending)
      case NodeStop(e) => Err(e)
      case NodeNext(evidence', pending') => NodeFrom(net, atts, i + 1, info, node, evidence', pending')
  }

  function NodeOutcome(net: Net, atts: seq<Attestation>, node: Node): Outcome {
    if atts == [] then Ok(NotVerified(None))
    else if |atts| > MAX_ATTESTATIONS then Err(EvidenceInvalid)
    else
      match node.before
      case Err(e) => Err(e)
      case Ok(info) => NodeFrom(net, atts, 0, info, node, [], [])
  }

  /** `verify_exact_digest` of the Bitcoin Core verifier, from the sorted attestations on. */
  method NodeVerify(net: Net, atts: seq<Attestation>, node: Node) returns (outcome: Outcome)
    ensures outcome == NodeOutcome(net, atts, node)
  {
    if atts == [] { return Ok(NotVerified(None)); }
    if |atts| > MAX_ATTESTATIONS { return Err(EvidenceInvalid); }
    if node.before.Err? { return Err(node.before.error); }
    var info := node.before.value;
    var evidence: seq<Evidence>, pending: seq<int> := [], [];
    for i := 0 to |atts|
      invariant NodeOutcome(net, atts, node) == NodeFrom(net, atts, i, info, node, evidence, pending)
    {
      if atts[i].height > info.blocks {
        pending := pending + [0];
      } else {
        var block := NodeEvidence(net, atts[i], info.blocks, node.about(atts[i], i));
        if block.Err? { return Err(block.error); }
        if block.value.confirmations < net.minimum {
          pending := pending + [block.value.confirmations];
        } else {
          evidence := evidence + [block.value];
        }
      }
    }
    if node.after.Err? { return Err(node.after.error); }
    if node.after.value != info { return Err(VerifierUnavailable); }
    if evidence == [] { return Ok(NotVerified(Some(MaxOf(pending)))); }
    var strongest := SelectStrongest(evidence);
    outcome := Ok(Verified(strongest.height, strongest.hash, strongest.time, strongest.confirmations));
  }

  method SelectStrongest(evidence: seq<Evidence>) returns (best: Evidence)
    requires evidence != []
    ensures best == Strongest(evidence)
  {
    best := evidence[0];
    for i := 1 to |evidence|
      invariant best == Strongest(evidence[..i])
    {
      assert evidence[..i + 1][..i] == evidence[..i];
      if Weaker(best, evidence[i]) { best := evidence[i]; }
    }
    assert evidence[..|evidence|] == evidence;
  }
}

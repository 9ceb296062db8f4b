/** Which answers of arbitrary providers, or of an arbitrary node, lead to which outcome and to which failure. */
module BitcoinFailures {
  import opened Prelude
  import opened BlockHeader
  import opened BitcoinVerify
  import opened LittleEndian
  import CompactTarget

  // ---------------------------------------------------------------- one quorum query

  /** An answer the query needs is missing. */
  predicate Missing(height: nat, a: QuorumAnswers) {
    || a.leftHash.None? || a.rightHash.None? || a.left.None? || a.right.None?
    || (height > 0 && (a.leftGenesis.None? || a.rightGenesis.None?))
  }

  /** The block a provider gives as the first of its chain. */
  function FirstBlock(height: nat, hash: Option<bytes>, genesis: Option<bytes>): Option<bytes> {
    if height == 0 then hash else genesis
  }

  /** Both providers answered, and differ or are on another network. */
  predicate Contradicts(net: Net, height: nat, a: QuorumAnswers) {
    var l, r := FirstBlock(height, a.leftHash, a.leftGenesis), FirstBlock(height, a.rightHash, a.rightGenesis);
    || (a.leftHash.Some? && a.rightHash.Some? && a.leftHash != a.rightHash)
    || (l.Some? && r.Some? && (l != r || l.value != net.genesis))
    || (a.left.Some? && a.right.Some?
        && (a.left.value.header != a.right.value.header || a.left.value.statusHeight != a.right.value.statusHeight
            || a.left.value.inBestChain != a.right.value.inBestChain))
  }

  predicate Skewed(a: QuorumAnswers) {
    && a.left.Some? && a.right.Some?
    && (a.left.value.tip > a.right.value.tip + 2 || a.right.value.tip > a.left.value.tip + 2)
  }

  /** What the providers agree on; the lower tip counts. */
  function Agreed(a: QuorumAnswers): Snapshot
    requires a.leftHash.Some? && a.left.Some? && a.right.Some?
  {
    var l, r := a.left.value, a.right.value;
    Snapshot(a.leftHash.value, l.header, l.statusHeight, l.inBestChain, if l.tip < r.tip then l.tip else r.tip, l.tip,
             r.tip)
  }

  /**
   A query gives what the providers agree on exactly when nothing is missing, contradictory or skewed.  Without a
   contradiction a failure is an outage; with everything answered a contradiction is invalid evidence.
   */
  lemma QuorumExactly(net: Net, height: nat, a: QuorumAnswers)
    ensures Quorum(net, height, a).Ok? <==> !Missing(height, a) && !Contradicts(net, height, a) && !Skewed(a)
    ensures Quorum(net, height, a).Ok? ==> Quorum(net, height, a) == Ok(Agreed(a))
    ensures !Contradicts(net, height, a) && (Missing(height, a) || Skewed(a)) ==>
              Quorum(net, height, a) == Err(VerifierUnavailable)
    ensures Contradicts(net, height, a) && !Missing(height, a) ==> Quorum(net, height, a) == Err(EvidenceInvalid)
  {
  }

  /** A header has its work exactly when its digest is no larger than the target its four bytes stand for. */
  lemma WorkExactly(dsha: bytes -> bytes, header: bytes)
    requires |header| == 80
    ensures var c := FromLe(header[72..76]);
            ProofOfWork(dsha, header) <==>
              && c / 0x80_0000 % 2 == 0 && 0 < CompactTarget.Value(c) <= 0xFFFF * CompactTarget.Pow256(26)
              && FromLe(dsha(header)) <= CompactTarget.Value(c)
  {
    FourBytes(header[72..76]);
    CompactTarget.DecodesExactly(FromLe(header[72..76]));
  }

  lemma FourBytes(b: bytes)
    requires |b| == 4
    ensures Word(FromLe(b))
  {
    assert FromLe(b) == b[0] + 256 * FromLe(b[1..]) && FromLe(b[1..]) == b[1] + 256 * FromLe(b[1..][1..]);
    assert FromLe(b[1..][1..]) == b[2] + 256 * FromLe(b[1..][1..][1..]);
    assert FromLe(b[1..][1..][1..]) == b[3] + 256 * FromLe(b[1..][1..][1..][1..]);
    assert FromLe(b[1..][1..][1..][1..]) == 0;
  }

  // ---------------------------------------------------------------- the Esplora verifier

  /** The agreed header is one of the asked height on the best chain, with its hash and its work. */
  predicate Genuine(net: Net, height: nat, s: Snapshot) {
    && s.statusHeight == height && s.inBestChain && height <= s.tip
    && |s.header| == 80 && net.work(s.header) && HashOf(net, s.header) == s.hash
  }

  /** Some attestation of the height is the header's merkle root. */
  predicate Attests(atts: seq<Attestation>, height: nat, s: Snapshot)
    requires |s.header| == 80
  { Attestation(height, MerkleOf(s.header)) in atts }

  /** How far the agreed tip is from the height, both included. */
  function Depth(height: nat, s: Snapshot): int { s.tip - height + 1 }

  /** The look agreed on a genuine header that does not decide: it is not attested, or too young. */
  predicate PassedOver(net: Net, atts: seq<Attestation>, height: nat, a: QuorumAnswers) {
    var q := Quorum(net, height, a);
    q.Ok? && Genuine(net, height, q.value)
    && (!Attests(atts, height, q.value) || Depth(height, q.value) < net.minimum)
  }

  /** The first n looks are: the k-th query is about the k-th height. */
  predicate AllPassed(net: Net, atts: seq<Attestation>, heights: seq<nat>, ask: Providers, n: nat) {
    n <= |heights| && forall k :: 0 <= k < n ==> PassedOver(net, atts, heights[k], ask(heights[k], k))
  }

  /** The pending ones among the first heights. */
  function PendingOf(net: Net, atts: seq<Attestation>, heights: seq<nat>, ask: Providers, n: nat): (ps: seq<Pending>)
    requires AllPassed(net, atts, heights, ask, n)
    ensures forall p :: p in ps <==> exists k :: 0 <= k < n && IsPending(net, atts, heights[k], ask(heights[k], k), p)
  {
    if n == 0 then []
    else
      var h, q := heights[n - 1], Quorum(net, heights[n - 1], ask(heights[n - 1], n - 1));
      var earlier := PendingOf(net, atts, heights, ask, n - 1);
      assert PassedOver(net, atts, h, ask(h, n - 1));
      if Attests(atts, h, q.value) then earlier + [Pending(h, Depth(h, q.value), q.value)] else earlier
  }

  /** The agreed header is attested, and this is the look at it. */
  predicate IsPending(net: Net, atts: seq<Attestation>, height: nat, a: QuorumAnswers, p: Pending) {
    var q := Quorum(net, height, a);
    q.Ok? && |q.value.header| == 80 && Attests(atts, height, q.value)
      && p == Pending(height, Depth(height, q.value), q.value)
  }

  lemma PassesOne(net: Net, atts: seq<Attestation>, heights: seq<nat>, ask: Providers, i: nat, next: nat,
                  pending: seq<Pending>, pending': seq<Pending>)
    requires i < |heights| && next == i + 1 && PassedOver(net, atts, heights[i], ask(heights[i], i))
    requires var h, q := heights[i], Quorum(net, heights[i], ask(heights[i], i));
             pending' == if Attests(atts, h, q.value) then pending + [Pending(h, Depth(h, q.value), q.value)]
                         else pending
    ensures EsploraFrom(net, atts, heights, i, ask, i, pending)
         == EsploraFrom(net, atts, heights, next, ask, next, pending')
  {
  }

  /** Heights that are passed over only add to the pending ones. */
  lemma {:induction false} Passes(net: Net, atts: seq<Attestation>, heights: seq<nat>, ask: Providers, n: nat,
                                  outcome: Outcome)
    requires AllPassed(net, atts, heights, ask, n) && outcome == EsploraFrom(net, atts, heights, 0, ask, 0, [])
    ensures outcome == EsploraFrom(net, atts, heights, n, ask, n, PendingOf(net, atts, heights, ask, n))
  {
    if n > 0 {
      var earlier, pending := PendingOf(net, atts, heights, ask, n - 1), PendingOf(net, atts, heights, ask, n);
      Passes(net, atts, heights, ask, n - 1, outcome);
      PassesOne(net, atts, heights, ask, n - 1, n, earlier, pending);
    }
  }

  /**
   What the first look that is not passed over decides.  A failed query fails as it did, and a header that is not
   genuine is invalid evidence.  The rest is attested and old enough: it is verified if the second look repeats the
   first, and otherwise, whatever the second look shows, the chain moved and the verifier is unavailable.
   */
  lemma EsploraDecision(net: Net, atts: seq<Attestation>, ask: Providers, n: nat)
    requires var heights := HeightsOf(atts);
             && atts != [] && !Malformed(atts) && n < |heights|
             && AllPassed(net, atts, heights, ask, n)
             && !PassedOver(net, atts, heights[n], ask(heights[n], n))
    ensures var h := HeightsOf(atts)[n];
            var first, second, outcome := Quorum(net, h, ask(h, n)), Quorum(net, h, ask(h, n + 1)),
                                          EsploraOutcome(net, atts, ask);
            if first.Err? then outcome == Err(first.error)
            else if !Genuine(net, h, first.value) then outcome == Err(EvidenceInvalid)
            else if second == first
            then outcome == Ok(Verified(h, first.value.hash, TimeOf(first.value.header), Depth(h, first.value)))
            else outcome == Err(VerifierUnavailable)
  {
    Passes(net, atts, HeightsOf(atts), ask, n, EsploraOutcome(net, atts, ask));
  }

  /** The second look at each pending height repeats the first. */
  ghost predicate AllRepeated(net: Net, pending: seq<Pending>, ask: Providers, call: nat) {
    forall m :: 0 <= m < |pending| ==>
      Quorum(net, pending[m].height, ask(pending[m].height, call + m)) == Ok(pending[m].snapshot)
  }

  lemma {:induction false} StableExactly(net: Net, pending: seq<Pending>, ask: Providers, call: nat)
    ensures AllStable(net, pending, ask, call) <==> AllRepeated(net, pending, ask, call)
    decreases |pending|
  {
    if pending != [] {
      var rest := pending[1..];
      StableExactly(net, rest, ask, call + 1);
      if AllStable(net, pending, ask, call) {
        forall m | 0 <= m < |pending|
          ensures Quorum(net, pending[m].height, ask(pending[m].height, call + m)) == Ok(pending[m].snapshot)
        {
          if m > 0 { assert pending[m] == rest[m - 1] && call + m == call + 1 + (m - 1); }
        }
      }
      if AllRepeated(net, pending, ask, call) {
        forall m | 0 <= m < |rest|
          ensures Quorum(net, rest[m].height, ask(rest[m].height, call + 1 + m)) == Ok(rest[m].snapshot)
        {
          assert pending[m + 1] == rest[m] && call + (m + 1) == call + 1 + m;
        }
        assert pending[0].height == pending[0].height && call + 0 == call;
      }
    }
  }

  lemma {:induction false} MostConfirmedIs(pending: seq<Pending>)
    requires pending != []
    ensures forall p :: p in pending ==> p.confirmations <= MostConfirmed(pending)
    ensures exists p :: p in pending && p.confirmations == MostConfirmed(pending)
  {
    var last := pending[|pending| - 1];
    assert last in pending;
    if |pending| > 1 {
      var front := pending[..|pending| - 1];
      MostConfirmedIs(front);
      var p :| p in front && p.confirmations == MostConfirmed(front);
      assert p in pending;
      assert forall q :: q in pending ==> q in front || q == last;
    }
  }

  /**
   When every look is passed over.  If none was attested the evidence is invalid.  Otherwise a second look that does not
   repeat the first, for whatever reason, makes the verifier unavailable, and if all do the most confirmations count.
   */
  lemma EsploraUndecided(net: Net, atts: seq<Attestation>, ask: Providers)
    requires var heights := HeightsOf(atts);
             && atts != [] && !Malformed(atts)
             && AllPassed(net, atts, heights, ask, |heights|)
    ensures var n := |HeightsOf(atts)|;
            var pending, outcome := PendingOf(net, atts, HeightsOf(atts), ask, n), EsploraOutcome(net, atts, ask);
            if pending == [] then outcome == Err(EvidenceInvalid)
            else if !AllRepeated(net, pending, ask, n) then outcome == Err(VerifierUnavailable)
            else
              && outcome.Ok? && outcome.value.NotVerified? && outcome.value.best.Some?
              && (forall p :: p in pending ==> p.confirmations <= outcome.value.best.value)
              && (exists p :: p in pending && p.confirmations == outcome.value.best.value)
  {
    var heights := HeightsOf(atts);
    Passes(net, atts, heights, ask, |heights|, EsploraOutcome(net, atts, ask));
    var pending := PendingOf(net, atts, heights, ask, |heights|);
    StableExactly(net, pending, ask, |heights|);
    if pending != [] { MostConfirmedIs(pending); }
  }

  /** The first look that is not passed over, if there is one. */
  function Deciding(net: Net, atts: seq<Attestation>, heights: seq<nat>, ask: Providers, i: nat): (n: nat)
    requires AllPassed(net, atts, heights, ask, i)
    ensures i <= n && AllPassed(net, atts, heights, ask, n)
    ensures n < |heights| ==> !PassedOver(net, atts, heights[n], ask(heights[n], n))
    decreases |heights| - i
  {
    if i < |heights| && PassedOver(net, atts, heights[i], ask(heights[i], i))
    then Deciding(net, atts, heights, ask, i + 1) else i
  }

  /** The evidence speaks against the proof: malformed, contradicted, of no genuine header, or attested nowhere. */
  ghost predicate EvidenceAgainst(net: Net, atts: seq<Attestation>, ask: Providers) {
    var heights := HeightsOf(atts);
    var n := Deciding(net, atts, heights, ask, 0);
    || |atts| > 16
    || (exists a :: a in atts && (a.height > 2_147_483_647 || |a.commitment| != 32))
    || (n < |heights|
        && (Contradicts(net, heights[n], ask(heights[n], n))
            || (var q := Quorum(net, heights[n], ask(heights[n], n)); q.Ok? && !Genuine(net, heights[n], q.value))))
    || (n == |heights| && PendingOf(net, atts, heights, ask, n) == [])
  }

  /**
   Invalid evidence is answered only when the evidence speaks against the proof: a missing answer, a tip skew, or any
   second look never is.
   */
  lemma InvalidMeansEvidence(net: Net, atts: seq<Attestation>, ask: Providers)
    requires EsploraOutcome(net, atts, ask) == Err(EvidenceInvalid)
    ensures EvidenceAgainst(net, atts, ask)
  {
    if !Malformed(atts) {
      var heights := HeightsOf(atts);
      var n := Deciding(net, atts, heights, ask, 0);
      if n < |heights| {
        EsploraDecision(net, atts, ask, n);
        QuorumExactly(net, heights[n], ask(heights[n], n));
      } else {
        EsploraUndecided(net, atts, ask);
      }
    }
  }

  /** What needs no look: without attestations nothing is verified, and malformed ones are invalid evidence. */
  lemma OutrightExactly(net: Net, atts: seq<Attestation>, ask: Providers, node: Node)
    ensures atts == [] ==> EsploraOutcome(net, atts, ask) == NodeOutcome(net, atts, node) == Ok(NotVerified(None))
    ensures |atts| > 16 ==> EsploraOutcome(net, atts, ask) == NodeOutcome(net, atts, node) == Err(EvidenceInvalid)
    ensures (exists a :: a in atts && (a.height > 2_147_483_647 || |a.commitment| != 32)) ==>
              EsploraOutcome(net, atts, ask) == Err(EvidenceInvalid)
    ensures 0 < |atts| <= 16 && node.before.Err? ==> NodeOutcome(net, atts, node) == Err(node.before.error)
  {
  }

  // ---------------------------------------------------------------- the node

  /** The node's header names the asked block, counts to the tip, hashes to it and commits to the message. */
  predicate HeaderFits(net: Net, a: Attestation, blocks: nat, n: NodeAnswers) {
    && |a.commitment| == 32 && n.hash.Ok? && n.header.Ok?
    && (var h := n.header.value;
        && h.height == a.height && h.hash == n.hash.value && h.confirmations == blocks - a.height + 1 >= 0
        && (var raw := Serialize(h.fields, a.height);
            raw.Some? && HashOf(net, raw.value) == n.hash.value && a.commitment == Reversed(h.fields.merkle)))
  }

  /** The node counts other confirmations than its tip gives, or says the block has left the chain. */
  predicate CountMoved(a: Attestation, blocks: nat, n: NodeAnswers) {
    && |a.commitment| == 32 && n.hash.Ok? && n.header.Ok?
    && (var h := n.header.value;
        && h.height == a.height && h.hash == n.hash.value && h.confirmations >= -1
        && (h.confirmations == -1 || h.confirmations != blocks - a.height + 1))
  }

  /**
   What a look at one attestation gives.  A fitting header is evidence if the recheck repeats the hash, and a chain race
   if it does not; a moved count is a chain race too.  A failed call fails as it did, and anything else the node answers
   speaks against the proof.
   */
  lemma NodeEvidenceExactly(net: Net, a: Attestation, blocks: nat, n: NodeAnswers)
    ensures var look := NodeEvidence(net, a, blocks, n);
            if HeaderFits(net, a, blocks, n) then
              if n.recheck.Err? then look == Err(n.recheck.error)
              else if n.recheck.value != n.hash.value then look == Err(VerifierUnavailable)
              else
                look == Ok(Evidence(a.height, n.hash.value, n.header.value.fields.time, blocks - a.height + 1))
            else if CountMoved(a, blocks, n) then look == Err(VerifierUnavailable)
            else if |a.commitment| == 32 && n.hash.Err? then look == Err(n.hash.error)
            else if |a.commitment| == 32 && n.header.Err? then look == Err(n.header.error)
            else look == Err(EvidenceInvalid)
  {
  }

  /** The attestation stops nothing: it is above the tip, or the node backs it. */
  predicate Backs(net: Net, a: Attestation, blocks: nat, n: NodeAnswers) {
    a.height > blocks || (HeaderFits(net, a, blocks, n) && n.recheck == n.hash)
  }

  /** What one attestation adds to the evidence: its look, if it is old enough. */
  function NewEvidence(net: Net, atts: seq<Attestation>, blocks: nat, node: Node, i: nat): seq<Evidence>
    requires i < |atts|
  {
    var look := NodeEvidence(net, atts[i], blocks, node.about(atts[i], i));
    if OldEnough(net, atts[i], blocks) && look.Ok? then [look.value] else []
  }

  /** What it adds to the counts otherwise: nothing counts above the tip. */
  function NewCount(net: Net, a: Attestation, blocks: nat): seq<int> {
    if a.height > blocks then [0] else if OldEnough(net, a, blocks) then [] else [blocks - a.height + 1]
  }

  predicate OldEnough(net: Net, a: Attestation, blocks: nat) {
    a.height <= blocks && blocks - a.height + 1 >= net.minimum
  }

  /** The evidence of the attestations that are old enough. */
  function EvidenceOf(net: Net, atts: seq<Attestation>, blocks: nat, node: Node, n: nat): seq<Evidence>
    requires n <= |atts|
  {
    if n == 0 then []
    else EvidenceOf(net, atts, blocks, node, n - 1) + NewEvidence(net, atts, blocks, node, n - 1)
  }

  /** The counts of the others. */
  function CountsOf(net: Net, atts: seq<Attestation>, blocks: nat, n: nat): seq<int>
    requires n <= |atts|
  {
    if n == 0 then [] else CountsOf(net, atts, blocks, n - 1) + NewCount(net, atts[n - 1], blocks)
  }

  lemma {:induction false} NodePasses(net: Net, atts: seq<Attestation>, info: ChainInfo, node: Node, n: nat)
    requires n <= |atts| && forall k :: 0 <= k < n ==> Backs(net, atts[k], info.blocks, node.about(atts[k], k))
    ensures NodeFrom(net, atts, 0, info, node, [], [])
         == NodeFrom(net, atts, n, info, node, EvidenceOf(net, atts, info.blocks, node, n),
                     CountsOf(net, atts, info.blocks, n))
  {
    if n > 0 {
      NodePasses(net, atts, info, node, n - 1);
      assert Backs(net, atts[n - 1], info.blocks, node.about(atts[n - 1], n - 1));
      NodeEvidenceExactly(net, atts[n - 1], info.blocks, node.about(atts[n - 1], n - 1));
      NodeOneMore(net, atts, info, node, n - 1, EvidenceOf(net, atts, info.blocks, node, n - 1),
        CountsOf(net, atts, info.blocks, n - 1));
    }
  }

  lemma NodeOneMore(net: Net, atts: seq<Attestation>, info: ChainInfo, node: Node, i: nat, evidence: seq<Evidence>,
                    counts: seq<int>)
    requires i < |atts| && Backs(net, atts[i], info.blocks, node.about(atts[i], i))
    ensures NodeFrom(net, atts, i, info, node, evidence, counts)
         == NodeFrom(net, atts, i + 1, info, node, evidence + NewEvidence(net, atts, info.blocks, node, i),
                     counts + NewCount(net, atts[i], info.blocks))
  {
    NodeEvidenceExactly(net, atts[i], info.blocks, node.about(atts[i], i));
    assert evidence + [] == evidence && counts + [] == counts;
  }

  /** The first attestation that the node does not back decides, and fails as its look did. */
  lemma NodeDecision(net: Net, atts: seq<Attestation>, node: Node, n: nat)
    requires 0 < |atts| <= MAX_ATTESTATIONS && node.before.Ok? && n < |atts|
    requires forall k :: 0 <= k < n ==> Backs(net, atts[k], node.before.value.blocks, node.about(atts[k], k))
    requires !Backs(net, atts[n], node.before.value.blocks, node.about(atts[n], n))
    ensures var look := NodeEvidence(net, atts[n], node.before.value.blocks, node.about(atts[n], n));
            look.Err? && NodeOutcome(net, atts, node) == Err(look.error)
  {
    NodePasses(net, atts, node.before.value, node, n);
    NodeEvidenceExactly(net, atts[n], node.before.value.blocks, node.about(atts[n], n));
  }

  /** Some of the first n attestations is old enough and of this height. */
  predicate Among(net: Net, atts: seq<Attestation>, blocks: nat, n: nat, height: nat)
    requires n <= |atts|
  { exists k :: 0 <= k < n && OldEnough(net, atts[k], blocks) && atts[k].height == height }

  predicate HasHeight(evidence: seq<Evidence>, height: nat) { exists e :: e in evidence && e.height == height }

  lemma AmongOneMore(net: Net, atts: seq<Attestation>, blocks: nat, n: nat, height: nat)
    requires 0 < n <= |atts|
    ensures Among(net, atts, blocks, n, height) <==>
              || Among(net, atts, blocks, n - 1, height)
              || (OldEnough(net, atts[n - 1], blocks) && atts[n - 1].height == height)
  {
  }

  lemma HasEither(a: seq<Evidence>, b: seq<Evidence>, height: nat)
    ensures HasHeight(a + b, height) <==> HasHeight(a, height) || HasHeight(b, height)
  {
    if HasHeight(a, height) {
      var e :| e in a && e.height == height;
      assert e in a + b;
    }
    if HasHeight(b, height) {
      var e :| e in b && e.height == height;
      assert e in a + b;
    }
  }

  lemma EvidenceOneMore(net: Net, atts: seq<Attestation>, blocks: nat, node: Node, i: nat, earlier: seq<Evidence>,
                        height: nat)
    requires i < |atts| && Backs(net, atts[i], blocks, node.about(atts[i], i))
    ensures HasHeight(earlier + NewEvidence(net, atts, blocks, node, i), height) <==>
              HasHeight(earlier, height) || (OldEnough(net, atts[i], blocks) && atts[i].height == height)
  {
    HasEither(earlier, NewEvidence(net, atts, blocks, node, i), height);
    NewestEvidence(net, atts, blocks, node, i);
  }

  /** The evidence is about exactly the heights that are old enough. */
  lemma {:induction false} EvidenceExactly(net: Net, atts: seq<Attestation>, blocks: nat, node: Node, n: nat,
                                           height: nat)
    requires n <= |atts| && forall k :: 0 <= k < n ==> Backs(net, atts[k], blocks, node.about(atts[k], k))
    ensures HasHeight(EvidenceOf(net, atts, blocks, node, n), height) <==> Among(net, atts, blocks, n, height)
  {
    if n > 0 {
      EvidenceExactly(net, atts, blocks, node, n - 1, height);
      AmongOneMore(net, atts, blocks, n, height);
      EvidenceOneMore(net, atts, blocks, node, n - 1, EvidenceOf(net, atts, blocks, node, n - 1), height);
    }
  }

  lemma NewestEvidence(net: Net, atts: seq<Attestation>, blocks: nat, node: Node, i: nat)
    requires i < |atts| && Backs(net, atts[i], blocks, node.about(atts[i], i))
    ensures forall e :: e in NewEvidence(net, atts, blocks, node, i) ==>
              OldEnough(net, atts[i], blocks) && e.height == atts[i].height && e.confirmations == blocks - e.height + 1
    ensures OldEnough(net, atts[i], blocks) ==> HasHeight(NewEvidence(net, atts, blocks, node, i), atts[i].height)
  {
    NodeEvidenceExactly(net, atts[i], blocks, node.about(atts[i], i));
    if OldEnough(net, atts[i], blocks) {
      var e := NodeEvidence(net, atts[i], blocks, node.about(atts[i], i)).value;
      assert e in NewEvidence(net, atts, blocks, node, i);
    }
  }

  lemma {:induction false} EvidenceCounts(net: Net, atts: seq<Attestation>, blocks: nat, node: Node, n: nat,
                                          e: Evidence)
    requires n <= |atts| && forall k :: 0 <= k < n ==> Backs(net, atts[k], blocks, node.about(atts[k], k))
    requires e in EvidenceOf(net, atts, blocks, node, n)
    ensures e.confirmations == blocks - e.height + 1
  {
    if e in EvidenceOf(net, atts, blocks, node, n - 1) { EvidenceCounts(net, atts, blocks, node, n - 1, e); }
    else { NewestEvidence(net, atts, blocks, node, n - 1); }
  }

  lemma {:induction false} StrongestIs(evidence: seq<Evidence>)
    requires evidence != []
    ensures forall e :: e in evidence ==> e.confirmations <= Strongest(evidence).confirmations
  {
    if |evidence| > 1 {
      var front, last := evidence[..|evidence| - 1], evidence[|evidence| - 1];
      StrongestIs(front);
      assert forall e :: e in evidence ==> e in front || e == last;
    }
  }

  /** The strings agree up to this place, where the first one ends or is smaller. */
  predicate SmallerAt(a: bytes, b: bytes, k: nat) {
    k <= |a| && k < |b| && a[..k] == b[..k] && (k < |a| ==> a[k] < b[k])
  }

  /** One byte string comes before the other: it is a prefix, or smaller where they first differ. */
  ghost predicate Before(a: bytes, b: bytes) { exists k: nat :: SmallerAt(a, b, k) }

  lemma SameHeads(a: bytes, b: bytes, k: nat)
    requires 0 < |a| && 0 < |b| && k <= |a| && k <= |b|
    ensures a[..k] == b[..k] && k > 0 ==> a[0] == b[0]
  {
    if k > 0 { assert a[..k][0] == a[0] && b[..k][0] == b[0]; }
  }

  lemma {:induction false} LexExactly(a: bytes, b: bytes)
    ensures LexLess(a, b) <==> Before(a, b)
    decreases |a|
  {
    if a != [] && b != [] && a[0] == b[0] {
      LexExactly(a[1..], b[1..]);
      if k: nat :| SmallerAt(a[1..], b[1..], k) {
        assert a[..k + 1] == [a[0]] + a[1..][..k] && b[..k + 1] == [b[0]] + b[1..][..k];
        assert SmallerAt(a, b, k + 1);
      }
      if k: nat :| SmallerAt(a, b, k) {
        assert a[1..][..k - 1] == a[..k][1..] == b[..k][1..] == b[1..][..k - 1];
        assert SmallerAt(a[1..], b[1..], k - 1);
      }
    } else if a != [] && b != [] {
      if k: nat :| SmallerAt(a, b, k) { SameHeads(a, b, k); }
      if a[0] < b[0] { assert SmallerAt(a, b, 0); }
    } else if b != [] {
      assert SmallerAt(a, b, 0);
    }
  }

  /** More confirmations come first, then the lower height, then the greater hash. */
  ghost predicate Precedes(e: Evidence, other: Evidence) {
    || e.confirmations > other.confirmations
    || (e.confirmations == other.confirmations && e.height < other.height)
    || (e.confirmations == other.confirmations && e.height == other.height && Before(other.hash, e.hash))
  }

  lemma BeforeIsTransitive(a: bytes, b: bytes, c: bytes)
    requires Before(a, b) && Before(b, c)
    ensures Before(a, c)
  {
    var j: nat :| SmallerAt(a, b, j);
    var k: nat :| SmallerAt(b, c, k);
    var m := if j < k then j else k;
    assert a[..m] == a[..j][..m] == b[..j][..m] == b[..m] == b[..k][..m] == c[..k][..m] == c[..m];
    if j < k { assert b[j] == b[..k][j] == c[..k][j] == c[j]; }
    if k < j { assert a[k] == a[..j][k] == b[..j][k] == b[k]; }
    assert SmallerAt(a, c, m);
  }

  lemma PrecedesIsTransitive(a: Evidence, b: Evidence, c: Evidence)
    requires Precedes(a, b) && Precedes(b, c)
    ensures Precedes(a, c)
  {
    if a.confirmations == b.confirmations == c.confirmations && a.height == b.height == c.height {
      BeforeIsTransitive(c.hash, b.hash, a.hash);
    }
  }

  /** Nothing precedes the strongest evidence. */
  lemma {:induction false} NothingPrecedes(evidence: seq<Evidence>)
    requires evidence != []
    ensures Strongest(evidence) in evidence && forall e :: e in evidence ==> !Precedes(e, Strongest(evidence))
  {
    var last, s := evidence[|evidence| - 1], Strongest(evidence);
    if |evidence| > 1 {
      var front := evidence[..|evidence| - 1];
      NothingPrecedes(front);
      LexExactly(Strongest(front).hash, last.hash);
      forall e | e in evidence ensures !Precedes(e, s) {
        assert e in front || e == last;
        if s != Strongest(front) && Precedes(e, s) { PrecedesIsTransitive(e, s, Strongest(front)); }
      }
    }
  }

  /**
   When the node backs every attestation at or below its tip: a tip that moved meanwhile makes the verifier unavailable.
   Otherwise the lowest old enough attestation verifies the proof, that of the greatest hash if the node named several,
   and if there is none the proof is not verified.
   */
  lemma NodeUndecided(net: Net, atts: seq<Attestation>, node: Node)
    requires 0 < |atts| <= MAX_ATTESTATIONS && node.before.Ok?
    requires forall k :: 0 <= k < |atts| ==> Backs(net, atts[k], node.before.value.blocks, node.about(atts[k], k))
    ensures var outcome, blocks := NodeOutcome(net, atts, node), node.before.value.blocks;
            if node.after.Err? then outcome == Err(node.after.error)
            else if node.after != node.before then outcome == Err(VerifierUnavailable)
            else if exists h :: Among(net, atts, blocks, |atts|, h) then
              && outcome.Ok? && outcome.value.Verified? && Among(net, atts, blocks, |atts|, outcome.value.height)
              && outcome.value.confirmations == blocks - outcome.value.height + 1
              && (forall h :: Among(net, atts, blocks, |atts|, h) ==> outcome.value.height <= h)
              && IsBest(EvidenceOf(net, atts, blocks, node, |atts|), outcome.value)
            else
              && outcome.Ok? && outcome.value.NotVerified? && outcome.value.best.Some?
              && IsLargest(CountsOf(net, atts, blocks, |atts|), outcome.value.best.value)
  {
    NodePasses(net, atts, node.before.value, node, |atts|);
    var blocks := node.before.value.blocks;
    if !exists h :: Among(net, atts, blocks, |atts|, h) {
      forall k | 0 <= k < |atts| ensures !OldEnough(net, atts[k], blocks) {
        assert !Among(net, atts, blocks, |atts|, atts[k].height);
      }
      AllCounted(net, atts, blocks, |atts|);
      MaxOfIs(CountsOf(net, atts, blocks, |atts|));
    }
    LowestWins(net, atts, blocks, node);
    if EvidenceOf(net, atts, blocks, node, |atts|) != [] {
      NothingPrecedes(EvidenceOf(net, atts, blocks, node, |atts|));
    }
  }

  /** The report is of evidence that nothing precedes. */
  ghost predicate IsBest(evidence: seq<Evidence>, v: Verdict) {
    exists s :: s in evidence && v == Verified(s.height, s.hash, s.time, s.confirmations)
                && forall e :: e in evidence ==> !Precedes(e, s)
  }

  ghost predicate IsLargest(counts: seq<int>, best: int) { best in counts && forall c :: c in counts ==> c <= best }

  lemma {:induction false} MaxOfIs(counts: seq<int>)
    requires counts != []
    ensures IsLargest(counts, MaxOf(counts))
  {
    var front, last := counts[..|counts| - 1], counts[|counts| - 1];
    assert forall c :: c in counts ==> c in front || c == last;
    if |counts| > 1 {
      MaxOfIs(front);
      assert MaxOf(front) in counts;
    }
  }

  /** Without an old enough attestation all are counted. */
  lemma {:induction false} AllCounted(net: Net, atts: seq<Attestation>, blocks: nat, n: nat)
    requires n <= |atts| && forall k :: 0 <= k < n ==> !OldEnough(net, atts[k], blocks)
    ensures |CountsOf(net, atts, blocks, n)| == n
  {
    if n > 0 { AllCounted(net, atts, blocks, n - 1); }
  }

  lemma LowestWins(net: Net, atts: seq<Attestation>, blocks: nat, node: Node)
    requires forall k :: 0 <= k < |atts| ==> Backs(net, atts[k], blocks, node.about(atts[k], k))
    ensures var evidence := EvidenceOf(net, atts, blocks, node, |atts|);
            && (evidence == [] <==> !exists h :: Among(net, atts, blocks, |atts|, h))
            && (evidence != [] ==>
                  var e := Strongest(evidence);
                  && Among(net, atts, blocks, |atts|, e.height) && e.confirmations == blocks - e.height + 1
                  && (forall h :: Among(net, atts, blocks, |atts|, h) ==> e.height <= h))
  {
    var evidence := EvidenceOf(net, atts, blocks, node, |atts|);
    forall h ensures HasHeight(evidence, h) <==> Among(net, atts, blocks, |atts|, h) {
      EvidenceExactly(net, atts, blocks, node, |atts|, h);
    }
    if evidence != [] {
      var e := Strongest(evidence);
      StrongestIs(evidence);
      EvidenceCounts(net, atts, blocks, node, |atts|, e);
      assert HasHeight(evidence, e.height);
      forall h | Among(net, atts, blocks, |atts|, h) ensures e.height <= h {
        var x :| x in evidence && x.height == h;
        EvidenceCounts(net, atts, blocks, node, |atts|, x);
      }
    }
  }
}

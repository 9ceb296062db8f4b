/** What a verdict of either verifier means, and when they agree on a stable shared chain. */
module BitcoinAgreement {
  import opened Prelude
  import opened BlockHeader
  import opened BitcoinVerify

  // ---------------------------------------------------------------- soundness

  /** A header that commits to an attested message, has its work, and hashes to the reported block. */
  ghost predicate Attested(net: Net, atts: seq<Attestation>, header: bytes, v: Verdict) {
    && v.Verified? && |header| == 80
    && Attestation(v.height, MerkleOf(header)) in atts
    && HashOf(net, header) == v.hash && TimeOf(header) == v.time
    && v.confirmations >= net.minimum
  }

  /** Two consecutive looks of both providers showed this block at this height, under the lower of their tips. */
  ghost predicate SeenTwice(net: Net, ask: Providers, call: nat, s: Snapshot, v: Verdict) {
    && v.Verified?
    && Quorum(net, v.height, ask(v.height, call)) == Ok(s) && Quorum(net, v.height, ask(v.height, call + 1)) == Ok(s)
    && s.hash == v.hash && s.inBestChain && s.statusHeight == v.height
    && v.confirmations == Min(s.leftTip, s.rightTip) - v.height + 1 && Skew(s.leftTip, s.rightTip) <= MAX_TIP_SKEW
  }

  lemma {:induction false} EsploraFromSound(
      net: Net, atts: seq<Attestation>, heights: seq<nat>, i: nat, ask: Providers, call: nat, pending: seq<Pending>)
      returns (s: Snapshot, at: nat)
    requires i <= |heights|
    requires EsploraFrom(net, atts, heights, i, ask, call, pending).Ok?
    requires EsploraFrom(net, atts, heights, i, ask, call, pending).value.Verified?
    ensures var v := EsploraFrom(net, atts, heights, i, ask, call, pending).value;
            Attested(net, atts, s.header, v) && net.work(s.header) && SeenTwice(net, ask, at, s, v)
    decreases |heights| - i
  {
    var h := heights[i];
    var step := EsploraStep(net, atts, h, ask, call, pending);
    if step.Next? {
      s, at := EsploraFromSound(net, atts, heights, i + 1, ask, call + 1, step.pending);
    } else {
      StepSound(net, atts, h, ask, call, pending);
      s, at := Quorum(net, h, ask(h, call)).value, call;
    }
  }

  lemma StepSound(net: Net, atts: seq<Attestation>, h: nat, ask: Providers, call: nat, pending: seq<Pending>)
    requires var step := EsploraStep(net, atts, h, ask, call, pending);
             step.Stop? && step.outcome.Ok? && step.outcome.value.Verified?
    ensures Quorum(net, h, ask(h, call)).Ok?
    ensures var s, v := Quorum(net, h, ask(h, call)).value, EsploraStep(net, atts, h, ask, call, pending).outcome.value;
            Attested(net, atts, s.header, v) && net.work(s.header) && SeenTwice(net, ask, call, s, v)
  {
  }

  /**
   `verified` from Esplora means: some attested message is the merkle root of an 80-byte header with valid work, both
   providers twice named that header's hash at the height, and the lower tip is at least the threshold above it.
   */
  lemma EsploraSound(net: Net, atts: seq<Attestation>, ask: Providers)
    requires EsploraOutcome(net, atts, ask).Ok? && EsploraOutcome(net, atts, ask).value.Verified? && MainNetwork(net)
    ensures var v := EsploraOutcome(net, atts, ask).value;
            exists s: Snapshot, at: nat ::
              Attested(net, atts, s.header, v) && ProofOfWork(net.dsha, s.header) && SeenTwice(net, ask, at, s, v)
  {
    var s, at := EsploraFromSound(net, atts, HeightsOf(atts), 0, ask, 0, []);
    assert Attested(net, atts, s.header, EsploraOutcome(net, atts, ask).value);
  }

  /** An evidence entry comes from an attestation whose header the node served and that hashes to the node's block. */
  ghost predicate Backed(net: Net, atts: seq<Attestation>, node: Node, blocks: nat, e: Evidence, i: nat) {
    && i < |atts| && e.height == atts[i].height && e.confirmations == blocks - e.height + 1
       && e.confirmations >= net.minimum
    && node.about(atts[i], i).hash == Ok(e.hash) && node.about(atts[i], i).recheck == Ok(e.hash)
    && node.about(atts[i], i).header.Ok?
    && (var f := node.about(atts[i], i).header.value.fields;
        && Wellformed(f, e.height) && f.time == e.time
        && HashOf(net, Serialize(f, e.height).value) == e.hash
        && MerkleOf(Serialize(f, e.height).value) == atts[i].commitment)
  }

  ghost predicate AllBacked(net: Net, atts: seq<Attestation>, node: Node, blocks: nat, evidence: seq<Evidence>) {
    forall e :: e in evidence ==> exists i: nat :: Backed(net, atts, node, blocks, e, i)
  }

  lemma EvidenceBacked(net: Net, atts: seq<Attestation>, i: nat, node: Node, blocks: nat)
    requires i < |atts| && NodeEvidence(net, atts[i], blocks, node.about(atts[i], i)).Ok?
    requires NodeEvidence(net, atts[i], blocks, node.about(atts[i], i)).value.confirmations >= net.minimum
    ensures Backed(net, atts, node, blocks, NodeEvidence(net, atts[i], blocks, node.about(atts[i], i)).value, i)
  {
    var f := node.about(atts[i], i).header.value.fields;
    SlicesRecover(f, atts[i].height);
  }

  lemma {:induction false} NodeFromSound(
      net: Net, atts: seq<Attestation>, i: nat, info: ChainInfo, node: Node, evidence: seq<Evidence>, pending: seq<int>)
      returns (e: Evidence)
    requires i <= |atts| && AllBacked(net, atts, node, info.blocks, evidence)
    requires NodeFrom(net, atts, i, info, node, evidence, pending).Ok?
    requires NodeFrom(net, atts, i, info, node, evidence, pending).value.Verified?
    ensures NodeFrom(net, atts, i, info, node, evidence, pending)
            == Ok(Verified(e.height, e.hash, e.time, e.confirmations))
    ensures exists j: nat :: Backed(net, atts, node, info.blocks, e, j)
    ensures node.after == Ok(info)
    decreases |atts| - i
  {
    if i == |atts| {
      e := Strongest(evidence);
    } else {
      var step := NodeStep(net, atts[i], info.blocks, node.about(atts[i], i), evidence, pending);
      if step.evidence != evidence {
        var b := NodeEvidence(net, atts[i], info.blocks, node.about(atts[i], i)).value;
        EvidenceBacked(net, atts, i, node, info.blocks);
        forall x | x in step.evidence ensures exists j: nat :: Backed(net, atts, node, info.blocks, x, j) {
          if x == b { assert Backed(net, atts, node, info.blocks, b, i); }
        }
      }
      e := NodeFromSound(net, atts, i + 1, info, node, step.evidence, step.pending);
    }
  }

  /** `verified` from Bitcoin Core means the same, on the node's own headers and one unchanged tip. */
  lemma NodeSound(net: Net, atts: seq<Attestation>, node: Node)
    requires NodeOutcome(net, atts, node).Ok? && NodeOutcome(net, atts, node).value.Verified?
    ensures node.before.Ok? && node.before == node.after
    ensures var v := NodeOutcome(net, atts, node).value;
            exists e: Evidence, i: nat ::
              && Backed(net, atts, node, node.before.value.blocks, e, i)
              && v == Verified(e.height, e.hash, e.time, e.confirmations)
              && Attested(net, atts, Serialize(node.about(atts[i], i).header.value.fields, e.height).value, v)
  {
    var info := node.before.value;
    var e := NodeFromSound(net, atts, 0, info, node, [], []);
    var i: nat :| Backed(net, atts, node, info.blocks, e, i);
    var f := node.about(atts[i], i).header.value.fields;
    SlicesRecover(f, e.height);
    assert atts[i] == Attestation(e.height, MerkleOf(Serialize(f, e.height).value));
  }

  // ---------------------------------------------------------------- a stable shared chain

  /** The blocks of the main chain, from the first to the tip. */
  type Chain = seq<Fields>

  function RawAt(chain: Chain, h: nat): bytes
    requires h < |chain| && Wellformed(chain[h], h)
  { Serialize(chain[h], h).value }

  ghost predicate BlockOk(net: Net, f: Fields, h: nat) { Wellformed(f, h) && GoodHeader(net, Serialize(f, h).value) }

  ghost predicate ValidChain(net: Net, chain: Chain) {
    && 0 < |chain| <= MAX_BLOCK_HEIGHT
    && (forall h: nat {:trigger BlockOk(net, chain[h], h)} :: h < |chain| ==> BlockOk(net, chain[h], h))
    && BlockOk(net, chain[0], 0) && HashOf(net, RawAt(chain, 0)) == net.genesis
  }

  function HashAt(net: Net, chain: Chain, h: nat): bytes
    requires h < |chain| && Wellformed(chain[h], h)
  { HashOf(net, RawAt(chain, h)) }

  /** Both providers serve the chain and see its tip, and have no block above it. */
  ghost predicate HonestProviders(net: Net, chain: Chain, ask: Providers) {
    && (forall h: nat, call: nat :: h < |chain| && Wellformed(chain[h], h) ==>
          ask(h, call) == QuorumAnswers(
            Some(HashAt(net, chain, h)), Some(HashAt(net, chain, h)), Some(net.genesis), Some(net.genesis),
            Some(ProviderSnapshot(RawAt(chain, h), h, true, |chain| - 1)),
            Some(ProviderSnapshot(RawAt(chain, h), h, true, |chain| - 1))))
    && (forall h: nat, call: nat :: h >= |chain| ==> ask(h, call).leftHash.None?)
  }

  /** The node serves the chain, with one tip throughout. */
  ghost predicate HonestNode(net: Net, chain: Chain, node: Node) {
    && node.before.Ok? && node.before.value.blocks == |chain| - 1 && node.after == node.before
    && (forall a: Attestation, i: nat :: a.height < |chain| && Wellformed(chain[a.height], a.height) ==>
          node.about(a, i) == NodeAnswers(
            Ok(HashAt(net, chain, a.height)),
            Ok(HeaderAnswer(a.height, HashAt(net, chain, a.height), |chain| - a.height, chain[a.height])),
            Ok(HashAt(net, chain, a.height))))
  }

  /** The attestation names a block of the chain and commits to its merkle root. */
  predicate Right(chain: Chain, a: Attestation) {
    a.height < |chain| && a.commitment == Reversed(chain[a.height].merkle)
  }

  /** It names a block of the chain and commits to something else. */
  predicate Wrong(chain: Chain, a: Attestation) {
    a.height < |chain| && a.commitment != Reversed(chain[a.height].merkle)
  }

  predicate SomeWrong(chain: Chain, atts: seq<Attestation>) { exists a :: a in atts && Wrong(chain, a) }

  predicate SomeAbove(chain: Chain, atts: seq<Attestation>) { exists a :: a in atts && a.height >= |chain| }

  /** The lowest height that is attested rightly. */
  function LowestRight(chain: Chain, atts: seq<Attestation>): (r: Option<nat>)
    ensures r.None? ==> forall a :: a in atts ==> !Right(chain, a)
    ensures r.Some? ==> r.value < |chain| && Attestation(r.value, Reversed(chain[r.value].merkle)) in atts
    ensures r.Some? && SortedByHeight(atts) ==> forall a :: a in atts && Right(chain, a) ==> r.value <= a.height
  {
    if atts == [] then None
    else if Right(chain, atts[0]) then Some(atts[0].height)
    else
      assert SortedByHeight(atts) ==> SortedByHeight(atts[1..]);
      LowestRight(chain, atts[1..])
  }

  /** Every attestation commits to the merkle root of a block of the chain. */
  ghost predicate Correct(chain: Chain, atts: seq<Attestation>) { forall a :: a in atts ==> Right(chain, a) }

  lemma BlockAt(net: Net, chain: Chain, h: nat)
    requires ValidChain(net, chain) && h < |chain|
    ensures Wellformed(chain[h], h) && GoodHeader(net, RawAt(chain, h))
  {
    assert BlockOk(net, chain[h], h);
  }

  /** The verdict on a rightly attested height. */
  ghost function VerdictAt(net: Net, chain: Chain, h: nat): Outcome
    requires h < |chain| && ValidChain(net, chain)
  {
    assert BlockOk(net, chain[h], h);
    if |chain| - h < net.minimum then Ok(NotVerified(Some(|chain| - h)))
    else Ok(Verified(h, HashAt(net, chain, h), chain[h].time, |chain| - h))
  }

  /** The lowest right height, if there is one, has the threshold. */
  predicate OldEnough(net: Net, chain: Chain, atts: seq<Attestation>) {
    LowestRight(chain, atts).Some? && |chain| - LowestRight(chain, atts).value >= net.minimum
  }

  /** What Esplora says: wrong roots are passed over, and a height above the tip is asked for only if need be. */
  ghost function EsploraSays(net: Net, chain: Chain, atts: seq<Attestation>): Outcome
    requires ValidChain(net, chain)
  {
    if atts == [] then Ok(NotVerified(None))
    else if Malformed(atts) then Err(EvidenceInvalid)
    else
      var lowest := LowestRight(chain, atts);
      if SomeAbove(chain, atts) && !OldEnough(net, chain, atts) then Err(VerifierUnavailable)
      else if lowest.None? then Err(EvidenceInvalid)
      else VerdictAt(net, chain, lowest.value)
  }

  /** What Bitcoin Core says: a wrong root is an error, and a height above the tip has no confirmations. */
  ghost function NodeSays(net: Net, chain: Chain, atts: seq<Attestation>): Outcome
    requires ValidChain(net, chain)
  {
    if atts == [] then Ok(NotVerified(None))
    else if |atts| > MAX_ATTESTATIONS || SomeWrong(chain, atts) then Err(EvidenceInvalid)
    else
      var lowest := LowestRight(chain, atts);
      if lowest.None? then Ok(NotVerified(Some(0))) else VerdictAt(net, chain, lowest.value)
  }

  function SnapshotAt(net: Net, chain: Chain, h: nat): Snapshot
    requires h < |chain| && Wellformed(chain[h], h)
  {
    Snapshot(HashAt(net, chain, h), RawAt(chain, h), h, true, |chain| - 1, |chain| - 1, |chain| - 1)
  }

  lemma QuorumHonest(net: Net, chain: Chain, ask: Providers, h: nat, call: nat)
    requires ValidChain(net, chain) && HonestProviders(net, chain, ask) && h < |chain|
    ensures Wellformed(chain[h], h)
    ensures Quorum(net, h, ask(h, call)) == Ok(SnapshotAt(net, chain, h))
    ensures GoodSnapshot(net, h, SnapshotAt(net, chain, h))
    ensures MerkleOf(RawAt(chain, h)) == Reversed(chain[h].merkle) && TimeOf(RawAt(chain, h)) == chain[h].time
  {
    BlockAt(net, chain, h);
    SlicesRecover(chain[h], h);
  }

  ghost predicate Ascending(hs: seq<nat>) { forall i, j :: 0 <= i < j < |hs| ==> hs[i] < hs[j] }

  lemma {:induction false} HeightsAscend(atts: seq<Attestation>)
    requires SortedByHeight(atts) && atts != []
    ensures var hs := HeightsOf(atts);
            hs != [] && hs[0] == atts[0].height && hs[|hs| - 1] == atts[|atts| - 1].height && Ascending(hs)
  {
    var front := atts[..|atts| - 1];
    if front == [] {
      assert HeightsOf(front) == [];
    } else {
      HeightsAscend(front);
      assert front[|front| - 1].height <= atts[|atts| - 1].height;
    }
  }

  lemma {:induction false} HeightListed(atts: seq<Attestation>, a: Attestation) returns (k: nat)
    requires a in atts
    ensures k < |HeightsOf(atts)| && HeightsOf(atts)[k] == a.height
  {
    var front, last := atts[..|atts| - 1], atts[|atts| - 1];
    if a == last {
      k := |HeightsOf(atts)| - 1;
    } else {
      k := HeightListed(front, a);
    }
  }

  ghost predicate PendingHonest(net: Net, chain: Chain, pending: seq<Pending>) {
    forall p :: p in pending ==>
      p.height < |chain| && Wellformed(chain[p.height], p.height) && p.snapshot == SnapshotAt(net, chain, p.height)
  }

  lemma {:induction false} AllStableHonest(net: Net, chain: Chain, ask: Providers, pending: seq<Pending>, call: nat)
    requires ValidChain(net, chain) && HonestProviders(net, chain, ask) && PendingHonest(net, chain, pending)
    ensures AllStable(net, pending, ask, call)
    decreases |pending|
  {
    if pending != [] {
      assert pending[0] in pending;
      QuorumHonest(net, chain, ask, pending[0].height, call);
      AllStableHonest(net, chain, ask, pending[1..], call + 1);
    }
  }

  lemma {:induction false} MostConfirmedFirst(pending: seq<Pending>)
    requires pending != [] && forall i :: 0 <= i < |pending| ==> pending[i].confirmations <= pending[0].confirmations
    ensures MostConfirmed(pending) == pending[0].confirmations
  {
    if |pending| > 1 { MostConfirmedFirst(pending[..|pending| - 1]); }
  }

  /** The height is attested rightly. */
  predicate AttestedAt(chain: Chain, atts: seq<Attestation>, h: nat) {
    h < |chain| && Attestation(h, Reversed(chain[h].merkle)) in atts
  }

  /** A block that is not attested rightly is passed over. */
  lemma EsploraPasses(
      net: Net, chain: Chain, atts: seq<Attestation>, heights: seq<nat>, i: nat, ask: Providers, call: nat,
        pending: seq<Pending>)
    requires ValidChain(net, chain) && HonestProviders(net, chain, ask)
    requires i < |heights| && heights[i] < |chain| && !AttestedAt(chain, atts, heights[i])
    ensures EsploraFrom(net, atts, heights, i, ask, call, pending)
         == EsploraFrom(net, atts, heights, i + 1, ask, call + 1, pending)
  {
    QuorumHonest(net, chain, ask, heights[i], call);
  }

  /** A right one that is too young is pending. */
  lemma EsploraPendStep(
      net: Net, chain: Chain, atts: seq<Attestation>, heights: seq<nat>, i: nat, ask: Providers, call: nat,
        pending: seq<Pending>)
    requires ValidChain(net, chain) && HonestProviders(net, chain, ask)
    requires i < |heights| && AttestedAt(chain, atts, heights[i]) && |chain| - heights[i] < net.minimum
    ensures Wellformed(chain[heights[i]], heights[i])
    ensures EsploraFrom(net, atts, heights, i, ask, call, pending)
         == EsploraFrom(net, atts, heights, i + 1, ask, call + 1,
                        pending + [Pending(heights[i], |chain| - heights[i], SnapshotAt(net, chain, heights[i]))])
  {
    QuorumHonest(net, chain, ask, heights[i], call);
  }

  /** The heights up to the first that stops the search: it is attested rightly, or above the tip. */
  lemma {:induction false} EsploraSkips(
      net: Net, chain: Chain, atts: seq<Attestation>, heights: seq<nat>, i: nat, ask: Providers, call: nat)
      returns (j: nat, later: nat)
    requires ValidChain(net, chain) && HonestProviders(net, chain, ask) && i <= |heights|
    ensures i <= j <= |heights|
    ensures forall k :: i <= k < j ==> heights[k] < |chain| && !AttestedAt(chain, atts, heights[k])
    ensures j < |heights| ==> heights[j] >= |chain| || AttestedAt(chain, atts, heights[j])
    ensures EsploraFrom(net, atts, heights, i, ask, call, []) == EsploraFrom(net, atts, heights, j, ask, later, [])
    decreases |heights| - i
  {
    if i == |heights| || heights[i] >= |chain| || AttestedAt(chain, atts, heights[i]) {
      j, later := i, call;
    } else {
      EsploraPasses(net, chain, atts, heights, i, ask, call, []);
      j, later := EsploraSkips(net, chain, atts, heights, i + 1, ask, call + 1);
    }
  }

  /** The pending heights are of the chain, and the first has the most confirmations. */
  ghost predicate PendingFrom(net: Net, chain: Chain, pending: seq<Pending>, lowest: nat) {
    && PendingHonest(net, chain, pending) && pending != [] && pending[0].confirmations == |chain| - lowest
    && forall j :: 0 <= j < |pending| ==> pending[j].confirmations <= |chain| - lowest
  }

  lemma PendingVerdictHonest(
      net: Net, chain: Chain, ask: Providers, call: nat, pending: seq<Pending>, lowest: nat)
    requires ValidChain(net, chain) && HonestProviders(net, chain, ask) && PendingFrom(net, chain, pending, lowest)
    ensures PendingVerdict(net, pending, ask, call) == Ok(NotVerified(Some(|chain| - lowest)))
  {
    AllStableHonest(net, chain, ask, pending, call);
    MostConfirmedFirst(pending);
  }

  /** Too few confirmations at the lowest right height: the rest is pending too, unless one is above the tip. */
  lemma {:induction false} EsploraPends(
      net: Net, chain: Chain, atts: seq<Attestation>, heights: seq<nat>, i: nat, ask: Providers, call: nat,
        pending: seq<Pending>, lowest: nat)
    requires ValidChain(net, chain) && HonestProviders(net, chain, ask) && Ascending(heights)
    requires 0 < i <= |heights| && lowest <= heights[i - 1] < |chain| && |chain| - lowest < net.minimum
    requires PendingFrom(net, chain, pending, lowest)
    ensures EsploraFrom(net, atts, heights, i, ask, call, pending)
         == if heights[|heights| - 1] >= |chain| then Err(VerifierUnavailable)
            else Ok(NotVerified(Some(|chain| - lowest)))
    decreases |heights| - i
  {
    if i == |heights| {
      PendingVerdictHonest(net, chain, ask, call, pending, lowest);
    } else if heights[i] < |chain| {
      if AttestedAt(chain, atts, heights[i]) {
        EsploraPendStep(net, chain, atts, heights, i, ask, call, pending);
        var next := Pending(heights[i], |chain| - heights[i], SnapshotAt(net, chain, heights[i]));
        EsploraPends(net, chain, atts, heights, i + 1, ask, call + 1, pending + [next], lowest);
      } else {
        EsploraPasses(net, chain, atts, heights, i, ask, call, pending);
        EsploraPends(net, chain, atts, heights, i + 1, ask, call + 1, pending, lowest);
      }
    }
  }

  /** A matching snapshot with enough confirmations, seen twice, decides. */
  lemma EsploraDecides(
      net: Net, atts: seq<Attestation>, heights: seq<nat>, i: nat, ask: Providers, call: nat, pending: seq<Pending>,
        s: Snapshot)
    requires i < |heights| && GoodSnapshot(net, heights[i], s)
    requires Quorum(net, heights[i], ask(heights[i], call)) == Ok(s)
             == Quorum(net, heights[i], ask(heights[i], call + 1))
    requires Attestation(heights[i], MerkleOf(s.header)) in atts && s.tip - heights[i] + 1 >= net.minimum
    ensures EsploraFrom(net, atts, heights, i, ask, call, pending)
         == Ok(Verified(heights[i], s.hash, TimeOf(s.header), s.tip - heights[i] + 1))
  {
  }

  lemma EsploraYoung(net: Net, chain: Chain, atts: seq<Attestation>, heights: seq<nat>, j: nat, ask: Providers,
                     call: nat)
    requires ValidChain(net, chain) && HonestProviders(net, chain, ask) && Ascending(heights)
    requires j < |heights| && AttestedAt(chain, atts, heights[j]) && |chain| - heights[j] < net.minimum
    ensures EsploraFrom(net, atts, heights, j, ask, call, [])
         == if heights[|heights| - 1] >= |chain| then Err(VerifierUnavailable)
            else Ok(NotVerified(Some(|chain| - heights[j])))
  {
    var h := heights[j];
    EsploraPendStep(net, chain, atts, heights, j, ask, call, []);
    var next := Pending(h, |chain| - h, SnapshotAt(net, chain, h));
    assert [] + [next] == [next];
    EsploraPends(net, chain, atts, heights, j + 1, ask, call + 1, [next], h);
  }

  lemma EsploraOld(net: Net, chain: Chain, atts: seq<Attestation>, heights: seq<nat>, j: nat, ask: Providers,
                   call: nat)
    requires ValidChain(net, chain) && HonestProviders(net, chain, ask)
    requires j < |heights| && AttestedAt(chain, atts, heights[j]) && |chain| - heights[j] >= net.minimum
    ensures EsploraFrom(net, atts, heights, j, ask, call, []) == VerdictAt(net, chain, heights[j])
  {
    QuorumHonest(net, chain, ask, heights[j], call);
    QuorumHonest(net, chain, ask, heights[j], call + 1);
    EsploraDecides(net, atts, heights, j, ask, call, [], SnapshotAt(net, chain, heights[j]));
  }

  /** The first rightly attested height decides, unless it is too young and another is above the tip. */
  lemma EsploraFirst(net: Net, chain: Chain, atts: seq<Attestation>, heights: seq<nat>, j: nat, ask: Providers,
                     call: nat)
    requires ValidChain(net, chain) && HonestProviders(net, chain, ask) && Ascending(heights)
    requires j < |heights| && AttestedAt(chain, atts, heights[j])
    ensures EsploraFrom(net, atts, heights, j, ask, call, [])
         == if |chain| - heights[j] < net.minimum && heights[|heights| - 1] >= |chain| then Err(VerifierUnavailable)
            else VerdictAt(net, chain, heights[j])
  {
    if |chain| - heights[j] < net.minimum {
      EsploraYoung(net, chain, atts, heights, j, ask, call);
    } else {
      EsploraOld(net, chain, atts, heights, j, ask, call);
    }
  }

  /** The search stops at the lowest right height, if there is one. */
  lemma StopsAtLowest(chain: Chain, atts: seq<Attestation>, j: nat)
    requires atts != [] && SortedByHeight(atts) && j <= |HeightsOf(atts)|
    requires var heights := HeightsOf(atts);
             && (forall k :: 0 <= k < j ==> heights[k] < |chain| && !AttestedAt(chain, atts, heights[k]))
             && (j < |heights| ==> heights[j] >= |chain| || AttestedAt(chain, atts, heights[j]))
    ensures var heights := HeightsOf(atts);
            LowestRight(chain, atts) == if j < |heights| && heights[j] < |chain| then Some(heights[j]) else None
  {
    var heights, lowest := HeightsOf(atts), LowestRight(chain, atts);
    HeightsAscend(atts);
    if j < |heights| && heights[j] < |chain| {
      assert Right(chain, Attestation(heights[j], Reversed(chain[heights[j]].merkle)));
    }
    if lowest.Some? {
      var k := HeightListed(atts, Attestation(lowest.value, Reversed(chain[lowest.value].merkle)));
      assert j <= k;
    }
  }

  /** Some attestation is above the tip exactly when the last one is. */
  lemma LastIsAbove(chain: Chain, atts: seq<Attestation>)
    requires atts != [] && SortedByHeight(atts)
    ensures SomeAbove(chain, atts) <==> atts[|atts| - 1].height >= |chain|
  {
    assert atts[|atts| - 1] in atts;
  }

  /** Esplora's outcome on any attestations. */
  lemma EsploraExpected(net: Net, chain: Chain, atts: seq<Attestation>, ask: Providers)
    requires ValidChain(net, chain) && HonestProviders(net, chain, ask) && SortedByHeight(atts)
    ensures EsploraOutcome(net, atts, ask) == EsploraSays(net, chain, atts)
  {
    if atts != [] && !Malformed(atts) {
      var heights := HeightsOf(atts);
      HeightsAscend(atts);
      LastIsAbove(chain, atts);
      var j, call := EsploraSkips(net, chain, atts, heights, 0, ask, 0);
      StopsAtLowest(chain, atts, j);
      if j < |heights| && heights[j] < |chain| { EsploraFirst(net, chain, atts, heights, j, ask, call); }
    }
  }

  // ---------------------------------------------------------------- the node on the same chain

  lemma EvidenceAccepted(net: Net, a: Attestation, blocks: nat, hash: bytes, f: Fields, raw: bytes)
    requires |a.commitment| == 32 && a.height <= blocks && a.commitment == Reversed(f.merkle)
    requires Serialize(f, a.height) == Some(raw) && HashOf(net, raw) == hash
    ensures NodeEvidence(net, a, blocks,
                         NodeAnswers(Ok(hash), Ok(HeaderAnswer(a.height, hash, blocks - a.height + 1, f)), Ok(hash)))
         == Ok(Evidence(a.height, hash, f.time, blocks - a.height + 1))
  {
  }

  lemma NodeHonest(net: Net, chain: Chain, atts: seq<Attestation>, node: Node, i: nat)
    requires ValidChain(net, chain) && HonestNode(net, chain, node) && i < |atts| && Right(chain, atts[i])
    ensures Wellformed(chain[atts[i].height], atts[i].height)
    ensures var h := atts[i].height;
            NodeEvidence(net, atts[i], |chain| - 1, node.about(atts[i], i))
              == Ok(Evidence(h, HashAt(net, chain, h), chain[h].time, |chain| - h))
  {
    var h := atts[i].height;
    BlockAt(net, chain, h);
    EvidenceAccepted(net, atts[i], |chain| - 1, HashAt(net, chain, h), chain[h], RawAt(chain, h));
  }

  /** A wrong root is an error. */
  lemma NodeRefuses(net: Net, chain: Chain, atts: seq<Attestation>, node: Node, i: nat)
    requires ValidChain(net, chain) && HonestNode(net, chain, node) && i < |atts| && Wrong(chain, atts[i])
    ensures NodeEvidence(net, atts[i], |chain| - 1, node.about(atts[i], i)) == Err(EvidenceInvalid)
  {
    BlockAt(net, chain, atts[i].height);
  }

  /** Whatever precedes it. */
  lemma {:induction false} NodeFails(
      net: Net, chain: Chain, atts: seq<Attestation>, node: Node, i: nat, k: nat, evidence: seq<Evidence>,
        pending: seq<int>)
    requires ValidChain(net, chain) && HonestNode(net, chain, node) && i <= k < |atts| && Wrong(chain, atts[k])
    ensures NodeFrom(net, atts, i, node.before.value, node, evidence, pending) == Err(EvidenceInvalid)
    decreases k - i
  {
    if Wrong(chain, atts[i]) {
      NodeRefuses(net, chain, atts, node, i);
    } else {
      if Right(chain, atts[i]) { NodeHonest(net, chain, atts, node, i); }
      var step := NodeStep(net, atts[i], |chain| - 1, node.about(atts[i], i), evidence, pending);
      NodeFails(net, chain, atts, node, i + 1, k, step.evidence, step.pending);
    }
  }

  function EvidenceAt(net: Net, chain: Chain, h: nat): Evidence
    requires h < |chain| && Wellformed(chain[h], h)
  { Evidence(h, HashAt(net, chain, h), chain[h].time, |chain| - h) }

  ghost predicate EvidenceHonest(net: Net, chain: Chain, evidence: seq<Evidence>) {
    forall e :: e in evidence ==>
      e.height < |chain| && Wellformed(chain[e.height], e.height) && e == EvidenceAt(net, chain, e.height)
  }

  lemma LexIrreflexive(a: bytes)
    ensures !LexLess(a, a)
    decreases |a|
  {
    if a != [] { LexIrreflexive(a[1..]); }
  }

  /** All evidence is of the chain, and none is below the first. */
  ghost predicate LowestFirst(net: Net, chain: Chain, evidence: seq<Evidence>, lowest: nat) {
    && evidence != [] && EvidenceHonest(net, chain, evidence) && evidence[0].height == lowest
    && forall i :: 0 <= i < |evidence| ==> lowest <= evidence[i].height
  }

  /** Then the first is the strongest. */
  lemma {:induction false} FirstIsStrongest(net: Net, chain: Chain, evidence: seq<Evidence>, lowest: nat)
    requires ValidChain(net, chain) && LowestFirst(net, chain, evidence, lowest)
    ensures Strongest(evidence) == evidence[0] && evidence[0] in evidence
  {
    if |evidence| > 1 {
      var front, last := evidence[..|evidence| - 1], evidence[|evidence| - 1];
      FirstIsStrongest(net, chain, front, lowest);
      assert evidence[0] in evidence && last in evidence;
      LexIrreflexive(last.hash);
    }
  }

  lemma {:induction false} MaxOfFirst(counts: seq<int>)
    requires counts != [] && forall i :: 0 <= i < |counts| ==> counts[i] <= counts[0]
    ensures MaxOf(counts) == counts[0]
  {
    if |counts| > 1 { MaxOfFirst(counts[..|counts| - 1]); }
  }

  /** An attestation that is not wrong adds to the evidence, or to the pending counts. */
  lemma NodeGoesOn(
      net: Net, chain: Chain, atts: seq<Attestation>, node: Node, i: nat, evidence: seq<Evidence>, pending: seq<int>)
      returns (evidence': seq<Evidence>, pending': seq<int>)
    requires ValidChain(net, chain) && HonestNode(net, chain, node) && i < |atts| && !Wrong(chain, atts[i])
    ensures NodeFrom(net, atts, i, node.before.value, node, evidence, pending)
         == NodeFrom(net, atts, i + 1, node.before.value, node, evidence', pending')
    ensures || evidence' == evidence
            || (&& atts[i].height < |chain| && Wellformed(chain[atts[i].height], atts[i].height)
                && evidence' == evidence + [EvidenceAt(net, chain, atts[i].height)])
  {
    if atts[i].height < |chain| { NodeHonest(net, chain, atts, node, i); }
    var step := NodeStep(net, atts[i], |chain| - 1, node.about(atts[i], i), evidence, pending);
    evidence', pending' := step.evidence, step.pending;
  }

  /** Enough confirmations at the lowest height: it stays the strongest whatever follows. */
  lemma {:induction false} NodeConfirms(
      net: Net, chain: Chain, atts: seq<Attestation>, node: Node, i: nat, evidence: seq<Evidence>, pending: seq<int>)
    requires ValidChain(net, chain) && HonestNode(net, chain, node) && !SomeWrong(chain, atts) && SortedByHeight(atts)
    requires 0 < i <= |atts| && atts[0].height < |chain| && LowestFirst(net, chain, evidence, atts[0].height)
    ensures Wellformed(chain[atts[0].height], atts[0].height)
    ensures var h := atts[0].height;
            NodeFrom(net, atts, i, node.before.value, node, evidence, pending)
              == Ok(Verified(h, HashAt(net, chain, h), chain[h].time, |chain| - h))
    decreases |atts| - i
  {
    if i == |atts| {
      FirstIsStrongest(net, chain, evidence, atts[0].height);
    } else {
      assert atts[i] in atts;
      var evidence', pending' := NodeGoesOn(net, chain, atts, node, i, evidence, pending);
      NodeConfirms(net, chain, atts, node, i + 1, evidence', pending');
    }
  }

  /** The confirmations the node counts for a height. */
  function CountAt(chain: Chain, h: nat): nat { if h < |chain| then |chain| - h else 0 }

  lemma NodePendStep(net: Net, chain: Chain, atts: seq<Attestation>, node: Node, i: nat, pending: seq<int>)
    requires ValidChain(net, chain) && HonestNode(net, chain, node) && !SomeWrong(chain, atts)
    requires i < |atts| && (atts[i].height < |chain| ==> |chain| - atts[i].height < net.minimum)
    ensures NodeFrom(net, atts, i, node.before.value, node, [], pending)
         == NodeFrom(net, atts, i + 1, node.before.value, node, [], pending + [CountAt(chain, atts[i].height)])
  {
    assert atts[i] in atts;
    if atts[i].height < |chain| { NodeHonest(net, chain, atts, node, i); }
  }

  ghost predicate FirstLargest(counts: seq<int>, first: int) {
    counts != [] && counts[0] == first && forall j :: 0 <= j < |counts| ==> counts[j] <= first
  }

  lemma {:induction false} NodePends(net: Net, chain: Chain, atts: seq<Attestation>, node: Node, i: nat,
                                     pending: seq<int>)
    requires ValidChain(net, chain) && HonestNode(net, chain, node) && !SomeWrong(chain, atts) && SortedByHeight(atts)
    requires 0 < i <= |atts| && (atts[0].height < |chain| ==> |chain| - atts[0].height < net.minimum)
    requires FirstLargest(pending, CountAt(chain, atts[0].height))
    ensures NodeFrom(net, atts, i, node.before.value, node, [], pending)
            == Ok(NotVerified(Some(CountAt(chain, atts[0].height))))
    decreases |atts| - i
  {
    if i == |atts| {
      MaxOfFirst(pending);
    } else {
      assert atts[0].height <= atts[i].height;
      NodePendStep(net, chain, atts, node, i, pending);
      NodePends(net, chain, atts, node, i + 1, pending + [CountAt(chain, atts[i].height)]);
    }
  }

  /** Without a wrong root the first attestation is the lowest right one, unless all are above the tip. */
  lemma FirstIsLowest(chain: Chain, atts: seq<Attestation>)
    requires atts != [] && SortedByHeight(atts) && !SomeWrong(chain, atts)
    ensures LowestRight(chain, atts) == if atts[0].height < |chain| then Some(atts[0].height) else None
  {
    assert atts[0] in atts;
  }

  /** Bitcoin Core's outcome on any attestations. */
  lemma NodeExpected(net: Net, chain: Chain, atts: seq<Attestation>, node: Node)
    requires ValidChain(net, chain) && HonestNode(net, chain, node) && SortedByHeight(atts)
    ensures NodeOutcome(net, atts, node) == NodeSays(net, chain, atts)
  {
    if atts == [] || |atts| > MAX_ATTESTATIONS {
    } else if SomeWrong(chain, atts) {
      var k: nat :| k < |atts| && Wrong(chain, atts[k]);
      NodeFails(net, chain, atts, node, 0, k, [], []);
    } else {
      FirstIsLowest(chain, atts);
      NodeFollowsFirst(net, chain, atts, node);
    }
  }

  /** Without a wrong root the first attestation decides. */
  lemma NodeFollowsFirst(net: Net, chain: Chain, atts: seq<Attestation>, node: Node)
    requires ValidChain(net, chain) && HonestNode(net, chain, node) && SortedByHeight(atts)
    requires atts != [] && |atts| <= MAX_ATTESTATIONS && !SomeWrong(chain, atts)
    ensures NodeOutcome(net, atts, node)
         == if atts[0].height < |chain| then VerdictAt(net, chain, atts[0].height) else Ok(NotVerified(Some(0)))
  {
    var h := atts[0].height;
    assert atts[0] in atts;
    if h < |chain| && |chain| - h >= net.minimum {
      NodeHonest(net, chain, atts, node, 0);
      var e := EvidenceAt(net, chain, h);
      assert [] + [e] == [e];
      NodeConfirms(net, chain, atts, node, 1, [e], []);
    } else {
      NodePendStep(net, chain, atts, node, 0, []);
      assert [] + [CountAt(chain, h)] == [CountAt(chain, h)];
      NodePends(net, chain, atts, node, 1, [CountAt(chain, h)]);
    }
  }

  // ---------------------------------------------------------------- agreement

  /**
   When the two reports are the same.  With a wrong root, which Bitcoin Core refuses, Esplora must have nothing else to
   go by.  Without one, a height above the tip, which only Esplora asks for, must come after a right one that is old
   enough; and no height may be beyond what Esplora takes.
   */
  predicate Comparable(net: Net, chain: Chain, atts: seq<Attestation>) {
    || atts == [] || |atts| > MAX_ATTESTATIONS
    || (if SomeWrong(chain, atts) then
          Malformed(atts) || (LowestRight(chain, atts).None? && !SomeAbove(chain, atts))
        else !Malformed(atts) && (OldEnough(net, chain, atts) || !SomeAbove(chain, atts)))
  }

  /** The two reports, compared. */
  lemma SaysTheSame(net: Net, chain: Chain, atts: seq<Attestation>)
    requires ValidChain(net, chain) && SortedByHeight(atts)
    ensures EsploraSays(net, chain, atts) == NodeSays(net, chain, atts) <==> Comparable(net, chain, atts)
  {
    if atts != [] && !SomeWrong(chain, atts) {
      FirstIsLowest(chain, atts);
      assert atts[0] in atts;
    }
  }

  lemma CorrectIsComparable(net: Net, chain: Chain, atts: seq<Attestation>)
    requires ValidChain(net, chain) && Correct(chain, atts) && SortedByHeight(atts)
    ensures Comparable(net, chain, atts)
    ensures atts != [] ==> LowestRight(chain, atts) == Some(atts[0].height)
    ensures |atts| <= MAX_ATTESTATIONS ==> !Malformed(atts)
  {
    forall a | a in atts ensures a.height <= MAX_BLOCK_HEIGHT && |a.commitment| == 32 { BlockAt(net, chain, a.height); }
    if atts != [] { FirstIsLowest(chain, atts); }
  }

  /**
   On a stable shared chain the two verifiers report the same for any attestations exactly when these are comparable.
   Correct ones are, and both then report the verdict on the lowest: its height, hash, time and confirmation count.
   */
  lemma VerifiersAgree(net: Net, chain: Chain, atts: seq<Attestation>, ask: Providers, node: Node)
    requires ValidChain(net, chain) && HonestProviders(net, chain, ask) && HonestNode(net, chain, node)
    requires SortedByHeight(atts)
    ensures EsploraOutcome(net, atts, ask) == NodeOutcome(net, atts, node) <==> Comparable(net, chain, atts)
    ensures Correct(chain, atts) && |atts| <= MAX_ATTESTATIONS ==>
              && EsploraOutcome(net, atts, ask) == NodeOutcome(net, atts, node)
              && EsploraOutcome(net, atts, ask)
                 == if atts == [] then Ok(NotVerified(None)) else VerdictAt(net, chain, atts[0].height)
  {
    EsploraExpected(net, chain, atts, ask);
    NodeExpected(net, chain, atts, node);
    if Correct(chain, atts) { CorrectIsComparable(net, chain, atts); }
    SaysTheSame(net, chain, atts);
  }

  /** A second message at an old enough height: Esplora verifies the right one, Bitcoin Core refuses the wrong one. */
  lemma WrongRootDiffers(net: Net, chain: Chain, h: nat, other: bytes, ask: Providers, node: Node)
    requires ValidChain(net, chain) && HonestProviders(net, chain, ask) && HonestNode(net, chain, node)
    requires h < |chain| && |chain| - h >= net.minimum && |other| == 32 && other != Reversed(chain[h].merkle)
    ensures var atts := [Attestation(h, Reversed(chain[h].merkle)), Attestation(h, other)];
            && EsploraOutcome(net, atts, ask) == VerdictAt(net, chain, h) && VerdictAt(net, chain, h).Ok?
            && NodeOutcome(net, atts, node) == Err(EvidenceInvalid)
  {
    var atts := [Attestation(h, Reversed(chain[h].merkle)), Attestation(h, other)];
    BlockAt(net, chain, h);
    EsploraExpected(net, chain, atts, ask);
    NodeExpected(net, chain, atts, node);
    assert Wrong(chain, atts[1]) && atts[1] in atts;
    assert LowestRight(chain, atts) == Some(h);
  }
}

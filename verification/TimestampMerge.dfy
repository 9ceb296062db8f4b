/** What attestations attest, and how merging and upgrading a proof keep it. */
module TimestampMerge {
  import opened Prelude
  import opened TimestampTree

  /** `all_attestations`: every attestation with the message of its node. */
  function All(t: Tree): set<(bytes, Att)> { (set a | a in t.atts :: (t.msg, a)) + OpsAll(t.ops) }
  function OpsAll(o: Ops): set<(bytes, Att)> { if o.End? then {} else All(o.child) + OpsAll(o.rest) }

  /** A path of operations applied to a message. */
  function Walk(sha: Sha, path: seq<Op>, msg: bytes): bytes {
    if path == [] then msg else Walk(sha, path[1..], Apply(sha, path[0], msg))
  }

  ghost predicate Computed(sha: Sha, digest: bytes, m: bytes, depth: nat) {
    exists path: seq<Op> :: |path| <= depth && (forall op :: op in path ==> GoodOp(op)) && Walk(sha, path, digest) == m
  }

  // ---------------------------------------------------------------- messages

  lemma {:induction false} SitsOnPath(sha: Sha, t: Tree, e: (bytes, Att)) returns (path: seq<Op>)
    requires Sound(sha, t) && e in All(t)
    ensures |path| <= Operations(t) && (forall op :: op in path ==> GoodOp(op)) && Walk(sha, path, t.msg) == e.0
            && !e.1.OtherAtt?
    decreases t
  {
    if e in OpsAll(t.ops) { path := OpsSitsOnPath(sha, t.msg, t.ops, e); } else { path := []; }
  }

  lemma {:induction false} OpsSitsOnPath(sha: Sha, msg: bytes, o: Ops, e: (bytes, Att)) returns (path: seq<Op>)
    requires OpsSound(sha, msg, o) && e in OpsAll(o)
    ensures |path| <= OpsOperations(o) && (forall op :: op in path ==> GoodOp(op)) && Walk(sha, path, msg) == e.0
            && !e.1.OtherAtt?
    decreases o
  {
    if e in All(o.child) {
      var rest := SitsOnPath(sha, o.child, e);
      path := [o.op] + rest;
      assert path[1..] == rest;
    } else {
      path := OpsSitsOnPath(sha, msg, o.rest, e);
    }
  }

  /**
   Every attestation of an accepted tree sits on a message computed from the file digest by at most 255 append, prepend
   and SHA-256 operations.
   */
  lemma AcceptedAttestationsAreComputed(sha: Sha, t: Tree, e: (bytes, Att))
    requires Sound(sha, t) && WithinLimits(CountsOf(t)) && e in All(t)
    ensures Computed(sha, t.msg, e.0, MAX_OPERATIONS) && !e.1.OtherAtt?
  {
    var path := SitsOnPath(sha, t, e);
  }

  // ---------------------------------------------------------------- merging

  predicate Has(o: Ops, op: Op) { o.Edge? && (o.op == op || Has(o.rest, op)) }

  function Get(o: Ops, op: Op): (t: Tree)
    requires Has(o, op)
    ensures t < o
  { if o.op == op then o.child else Get(o.rest, op) }

  /** Dictionary assignment: replaced in place, or inserted last. */
  function Put(o: Ops, op: Op, t: Tree): Ops {
    if o.End? then Edge(op, t, End)
    else if o.op == op then Edge(op, t, o.rest)
    else Edge(o.op, o.child, Put(o.rest, op, t))
  }

  /** `merge`: attestations joined, and the other tree's children merged into ours or into new ones. */
  function Merge(sha: Sha, a: Tree, b: Tree): Tree
    decreases b, 0
  {
    Node(a.msg, a.atts + b.atts, MergeOps(sha, a.msg, a.ops, b.ops))
  }

  function MergeOps(sha: Sha, msg: bytes, a: Ops, b: Ops): Ops
    decreases b, 1
  {
    if b.End? then a
    else
      var ours := if Has(a, b.op) then Get(a, b.op) else Node(Apply(sha, b.op, msg), {}, End);
      MergeOps(sha, msg, Put(a, b.op, Merge(sha, ours, b.child)), b.rest)
  }

  /** The library refuses to merge nodes with different messages. */
  predicate Mergeable(sha: Sha, a: Tree, b: Tree)
    decreases b, 0
  {
    a.msg == b.msg && OpsMergeable(sha, a.msg, a.ops, b.ops)
  }

  predicate OpsMergeable(sha: Sha, msg: bytes, a: Ops, b: Ops)
    decreases b, 1
  {
    b.End?
    || (var ours := if Has(a, b.op) then Get(a, b.op) else Node(Apply(sha, b.op, msg), {}, End);
        && Mergeable(sha, ours, b.child)
        && OpsMergeable(sha, msg, Put(a, b.op, Merge(sha, ours, b.child)), b.rest))
  }

  lemma {:induction false} GetSound(sha: Sha, msg: bytes, o: Ops, op: Op)
    requires OpsSound(sha, msg, o) && Has(o, op)
    ensures Sound(sha, Get(o, op)) && Get(o, op).msg == Apply(sha, op, msg) && GoodOp(op)
    decreases o
  {
    if o.op != op { GetSound(sha, msg, o.rest, op); }
  }

  lemma {:induction false} PutSound(sha: Sha, msg: bytes, o: Ops, op: Op, t: Tree)
    requires OpsSound(sha, msg, o) && GoodOp(op) && Sound(sha, t) && t.msg == Apply(sha, op, msg)
    ensures OpsSound(sha, msg, Put(o, op, t))
    ensures OpsAll(Put(o, op, t)) == OpsAll(o) + All(t) || Has(o, op)
    decreases o
  {
    if o.Edge? && o.op != op { PutSound(sha, msg, o.rest, op, t); }
  }

  /** Replacing a child by one that attests more only adds. */
  lemma {:induction false} PutAdds(o: Ops, op: Op, t: Tree)
    requires Has(o, op) ==> All(Get(o, op)) <= All(t)
    ensures OpsAll(Put(o, op, t)) == OpsAll(o) + All(t)
    decreases o
  {
    if o.Edge? && o.op != op { PutAdds(o.rest, op, t); }
  }

  /** A merge of sound trees over the same message never raises, is sound, and attests exactly what the two attest. */
  lemma {:induction false} MergeSound(sha: Sha, a: Tree, b: Tree)
    requires Sound(sha, a) && Sound(sha, b) && a.msg == b.msg
    ensures Mergeable(sha, a, b)
    ensures var m := Merge(sha, a, b); m.msg == a.msg && Sound(sha, m) && All(m) == All(a) + All(b)
    decreases b, 0
  {
    MergeOpsSound(sha, a.msg, a.ops, b.ops);
    var m := Merge(sha, a, b);
    assert (set x | x in m.atts :: (m.msg, x))
           == (set x | x in a.atts :: (a.msg, x)) + (set x | x in b.atts :: (b.msg, x));
  }

  lemma {:induction false} MergeOpsSound(sha: Sha, msg: bytes, a: Ops, b: Ops)
    requires OpsSound(sha, msg, a) && OpsSound(sha, msg, b)
    ensures OpsMergeable(sha, msg, a, b)
    ensures var m := MergeOps(sha, msg, a, b); OpsSound(sha, msg, m) && OpsAll(m) == OpsAll(a) + OpsAll(b)
    decreases b, 1
  {
    if b.Edge? {
      var ours := if Has(a, b.op) then Get(a, b.op) else Node(Apply(sha, b.op, msg), {}, End);
      if Has(a, b.op) { GetSound(sha, msg, a, b.op); }
      MergeSound(sha, ours, b.child);
      var child := Merge(sha, ours, b.child);
      PutSound(sha, msg, a, b.op, child);
      PutAdds(a, b.op, child);
      MergeOpsSound(sha, msg, Put(a, b.op, child), b.rest);
      OursIsOld(a, b.op, ours);
    }
  }

  /** What the old child attested was already counted. */
  lemma {:induction false} OursIsOld(a: Ops, op: Op, ours: Tree)
    requires if Has(a, op) then ours == Get(a, op) else ours.atts == {} && ours.ops.End?
    ensures All(ours) <= OpsAll(a)
    decreases a
  {
    if Has(a, op) && a.op != op { OursIsOld(a.rest, op, ours); }
    if !Has(a, op) { assert All(ours) == {}; }
  }

  // ---------------------------------------------------------------- stamping and upgrading

  /** The node an operation path leads to. */
  predicate Reaches(t: Tree, path: seq<Op>) {
    path == [] || (Has(t.ops, path[0]) && Reaches(Get(t.ops, path[0]), path[1..]))
  }

  function At(t: Tree, path: seq<Op>): Tree
    requires Reaches(t, path)
  {
    if path == [] then t else At(Get(t.ops, path[0]), path[1..])
  }

  /** `node.merge(remote)` for the node at the path, in place. */
  function MergeAt(sha: Sha, t: Tree, path: seq<Op>, remote: Tree): Tree
    requires Reaches(t, path)
    decreases |path|
  {
    if path == [] then Merge(sha, t, remote)
    else t.(ops := Put(t.ops, path[0], MergeAt(sha, Get(t.ops, path[0]), path[1..], remote)))
  }

  lemma {:induction false} MergeAtSound(sha: Sha, t: Tree, path: seq<Op>, remote: Tree)
    requires Sound(sha, t) && Sound(sha, remote) && Reaches(t, path) && At(t, path).msg == remote.msg
    ensures var u := MergeAt(sha, t, path, remote); u.msg == t.msg && Sound(sha, u) && All(u) == All(t) + All(remote)
    decreases |path|
  {
    if path == [] {
      MergeSound(sha, t, remote);
    } else {
      var before := Get(t.ops, path[0]);
      GetSound(sha, t.msg, t.ops, path[0]);
      MergeAtSound(sha, before, path[1..], remote);
      var after := MergeAt(sha, before, path[1..], remote);
      PutSound(sha, t.msg, t.ops, path[0], after);
      PutAdds(t.ops, path[0], after);
      OursIsOld(t.ops, path[0], before);
    }
  }

  // ---------------------------------------------------------------- nodes stay where they are

  lemma {:induction false} PutGets(o: Ops, op: Op, t: Tree, other: Op)
    ensures Has(Put(o, op, t), other) <==> other == op || Has(o, other)
    ensures other == op ==> Get(Put(o, op, t), other) == t
    ensures other != op && Has(o, other) ==> Get(Put(o, op, t), other) == Get(o, other)
    decreases o
  {
    if o.Edge? && o.op != op { PutGets(o.rest, op, t, other); }
  }

  /** The path leads to a node with this message. */
  predicate Leads(t: Tree, path: seq<Op>, msg: bytes) { Reaches(t, path) && At(t, path).msg == msg }

  predicate OpsLead(o: Ops, path: seq<Op>, msg: bytes) {
    path != [] && Has(o, path[0]) && Leads(Get(o, path[0]), path[1..], msg)
  }

  lemma {:induction false} MergeLeads(sha: Sha, a: Tree, b: Tree, path: seq<Op>, msg: bytes)
    requires Leads(a, path, msg)
    ensures Leads(Merge(sha, a, b), path, msg)
    decreases b, 0
  {
    if path != [] { MergeOpsLead(sha, a.msg, a.ops, b.ops, path, msg); }
  }

  lemma {:induction false} MergeOpsLead(sha: Sha, here: bytes, a: Ops, b: Ops, path: seq<Op>, msg: bytes)
    requires OpsLead(a, path, msg)
    ensures OpsLead(MergeOps(sha, here, a, b), path, msg)
    decreases b, 1
  {
    if b.Edge? {
      var ours := if Has(a, b.op) then Get(a, b.op) else Node(Apply(sha, b.op, here), {}, End);
      var child := Merge(sha, ours, b.child);
      if path[0] == b.op { MergeLeads(sha, ours, b.child, path[1..], msg); }
      PutGets(a, b.op, child, path[0]);
      MergeOpsLead(sha, here, Put(a, b.op, child), b.rest, path, msg);
    }
  }

  /** Merging at one node leaves every node where it was, with its message. */
  lemma {:induction false} MergeAtLeads(sha: Sha, t: Tree, path: seq<Op>, remote: Tree, other: seq<Op>, msg: bytes)
    requires Reaches(t, path) && Leads(t, other, msg)
    ensures Leads(MergeAt(sha, t, path, remote), other, msg)
    decreases |path|
  {
    if path == [] {
      MergeLeads(sha, t, remote, other, msg);
    } else if other != [] {
      var child := MergeAt(sha, Get(t.ops, path[0]), path[1..], remote);
      if other[0] == path[0] { MergeAtLeads(sha, Get(t.ops, path[0]), path[1..], remote, other[1..], msg); }
      PutGets(t.ops, path[0], child, other[0]);
    }
  }

  // ---------------------------------------------------------------- the two operations

  /** What validation lets through: a sound tree over the message, within the limits. */
  predicate Accepted(sha: Sha, msg: bytes, t: Tree) { t.msg == msg && Sound(sha, t) && WithinLimits(CountsOf(t)) }

  /** One answered upgrade request: the node asked for, and the calendar's tree. */
  datatype Answer = Answer(path: seq<Op>, remote: Tree)

  /** An answer that is accepted over the message of the node asked for. */
  predicate Usable(sha: Sha, t: Tree, a: Answer) {
    Reaches(t, a.path) && Accepted(sha, At(t, a.path).msg, a.remote)
  }

  /** The loop of `upgrade_exact_digest` over the answers that arrived; the first that is refused ends it. */
  function MergeAnswers(sha: Sha, t: Tree, answers: seq<Answer>): Option<Tree>
    decreases |answers|
  {
    if answers == [] then Some(t)
    else if !Usable(sha, t, answers[0]) then None
    else MergeAnswers(sha, MergeAt(sha, t, answers[0].path, answers[0].remote), answers[1..])
  }

  /** `upgrade_exact_digest`: the merged tree, validated once more. */
  function Upgrade(sha: Sha, t: Tree, answers: seq<Answer>): Option<Tree> {
    match MergeAnswers(sha, t, answers)
    case None => None
    case Some(u) => if WithinLimits(CountsOf(u)) then Some(u) else None
  }

  /** Some answer attests it. */
  predicate Answered(answers: seq<Answer>, e: (bytes, Att)) { exists a :: a in answers && e in All(a.remote) }

  lemma AnsweredFirst(answers: seq<Answer>, e: (bytes, Att))
    requires answers != []
    ensures Answered(answers, e) <==> e in All(answers[0].remote) || Answered(answers[1..], e)
  {
    if Answered(answers, e) && e !in All(answers[0].remote) {
      var a :| a in answers && e in All(a.remote);
      assert a in answers[1..];
    }
  }

  /** Merging one answer changes no other answer's node. */
  lemma UsableStays(sha: Sha, t: Tree, a: Answer, b: Answer)
    requires Reaches(t, a.path) && Reaches(t, b.path)
    ensures var u := MergeAt(sha, t, a.path, a.remote);
            Reaches(u, b.path) && (Usable(sha, u, b) <==> Usable(sha, t, b))
  {
    MergeAtLeads(sha, t, a.path, a.remote, b.path, At(t, b.path).msg);
  }

  /** The merge goes through exactly when every answer is usable, and then attests what they and the proof attest. */
  lemma {:induction false} MergesExactly(sha: Sha, t: Tree, answers: seq<Answer>)
    requires Sound(sha, t) && forall a :: a in answers ==> Reaches(t, a.path)
    ensures MergeAnswers(sha, t, answers).Some? <==> forall a :: a in answers ==> Usable(sha, t, a)
    ensures var merged := MergeAnswers(sha, t, answers);
            merged.Some? ==>
              && merged.value.msg == t.msg && Sound(sha, merged.value)
              && forall e :: e in All(merged.value) <==> e in All(t) || Answered(answers, e)
    decreases |answers|
  {
    if answers != [] && Usable(sha, t, answers[0]) {
      var first, rest := answers[0], answers[1..];
      var u := MergeAt(sha, t, first.path, first.remote);
      MergeAtSound(sha, t, first.path, first.remote);
      forall a | a in rest ensures Reaches(u, a.path) && (Usable(sha, u, a) <==> Usable(sha, t, a)) {
        UsableStays(sha, t, first, a);
      }
      MergesExactly(sha, u, rest);
      forall e ensures Answered(answers, e) <==> e in All(first.remote) || Answered(rest, e) {
        AnsweredFirst(answers, e);
      }
      assert forall a :: a in answers <==> a == first || a in rest;
    }
  }

  /**
   An upgrade of an accepted proof succeeds exactly when every answer is accepted over its node's message and the merged
   tree is within the limits.  It then keeps the digest and is accepted, and attests exactly what the proof and the
   answers attest: nothing is lost and nothing invented.
   */
  lemma UpgradeExactly(sha: Sha, digest: bytes, t: Tree, answers: seq<Answer>)
    requires Accepted(sha, digest, t) && forall a :: a in answers ==> Reaches(t, a.path)
    ensures var merged := MergeAnswers(sha, t, answers);
            && (merged.Some? <==> forall a :: a in answers ==> Usable(sha, t, a))
            && (Upgrade(sha, t, answers).Some? <==> merged.Some? && WithinLimits(CountsOf(merged.value)))
    ensures var upgraded := Upgrade(sha, t, answers);
            upgraded.Some? ==>
              && Accepted(sha, digest, upgraded.value)
              && forall e :: e in All(upgraded.value) <==> e in All(t) || Answered(answers, e)
  {
    MergesExactly(sha, t, answers);
  }

  /** The loop of `stamp_exact_digest`: every accepted response merged into a fresh node over the digest. */
  function MergeResponses(sha: Sha, digest: bytes, responses: seq<Tree>): Tree {
    if responses == [] then Node(digest, {}, End)
    else
      var t := MergeResponses(sha, digest, responses[..|responses| - 1]);
      var last := responses[|responses| - 1];
      if Accepted(sha, digest, last) then Merge(sha, t, last) else t
  }

  predicate SomeAccepted(sha: Sha, digest: bytes, responses: seq<Tree>) {
    exists t :: t in responses && Accepted(sha, digest, t)
  }

  /** `stamp_exact_digest`: refused responses are skipped, but not all of them. */
  function Stamp(sha: Sha, digest: bytes, responses: seq<Tree>): Option<Tree> {
    var t := MergeResponses(sha, digest, responses);
    if SomeAccepted(sha, digest, responses) && WithinLimits(CountsOf(t)) then Some(t) else None
  }

  /** Some accepted response attests it. */
  predicate Attested(sha: Sha, digest: bytes, responses: seq<Tree>, e: (bytes, Att)) {
    exists t :: t in responses && Accepted(sha, digest, t) && e in All(t)
  }

  lemma AttestedLast(sha: Sha, digest: bytes, front: seq<Tree>, last: Tree, e: (bytes, Att))
    ensures Attested(sha, digest, front + [last], e) <==>
              Attested(sha, digest, front, e) || (Accepted(sha, digest, last) && e in All(last))
  {
    if Attested(sha, digest, front + [last], e) {
      var t :| t in front + [last] && Accepted(sha, digest, t) && e in All(t);
      assert t in front || t == last;
    }
    if Attested(sha, digest, front, e) {
      var t :| t in front && Accepted(sha, digest, t) && e in All(t);
      assert t in front + [last];
    }
    assert last in front + [last];
  }

  lemma {:induction false} ResponsesMerge(sha: Sha, digest: bytes, responses: seq<Tree>)
    ensures var t := MergeResponses(sha, digest, responses);
            && t.msg == digest && Sound(sha, t)
            && (forall e :: e in All(t) <==> Attested(sha, digest, responses, e))
  {
    if responses != [] {
      var front, last := responses[..|responses| - 1], responses[|responses| - 1];
      ResponsesMerge(sha, digest, front);
      var before := MergeResponses(sha, digest, front);
      if Accepted(sha, digest, last) { MergeSound(sha, before, last); }
      assert responses == front + [last];
      forall e ensures e in All(MergeResponses(sha, digest, responses)) <==> Attested(sha, digest, responses, e) {
        AttestedLast(sha, digest, front, last, e);
      }
    }
  }

  /** A stamp is an accepted tree over the exact digest that attests exactly what the accepted responses attest. */
  lemma StampSound(sha: Sha, digest: bytes, responses: seq<Tree>)
    ensures var stamp := Stamp(sha, digest, responses);
            stamp.Some? ==>
              && Accepted(sha, digest, stamp.value)
              && forall e :: e in All(stamp.value) <==> Attested(sha, digest, responses, e)
    ensures Stamp(sha, digest, responses).None? ==>
              (forall t :: t in responses ==> !Accepted(sha, digest, t))
              || !WithinLimits(CountsOf(MergeResponses(sha, digest, responses)))
  {
    ResponsesMerge(sha, digest, responses);
  }
}

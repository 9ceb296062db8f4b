/**
 Timestamp trees: the worklist validator, the messages attestations sit on, and merging.

 A node's operations are a dictionary in insertion order, its attestations a set.  SHA-256 is a parameter.
 Deserialization is not part of this model; merging is the library's recursive union.
 */
module TimestampTree {
  import opened Prelude

  datatype Op = Append(arg: bytes) | Prepend(arg: bytes) | Sha256 | OtherOp(tag: nat)

  datatype Att = PendingAt(uri: string) | BitcoinAt(height: nat) | OtherAtt(tag: nat)

  datatype Tree = Node(msg: bytes, atts: set<Att>, ops: Ops)
  datatype Ops = End | Edge(op: Op, child: Tree, rest: Ops)

  type Sha = bytes -> bytes

  const MAX_NODES: nat := 256
  const MAX_OPERATIONS: nat := 255
  const MAX_ATTESTATIONS: nat := 256
  const MAX_PENDING: nat := 16
  const MAX_ARGUMENT: nat := 64

  /** What an operation computes; unsupported ones are never applied. */
  function Apply(sha: Sha, op: Op, msg: bytes): bytes {
    match op
    case Append(arg) => msg + arg
    case Prepend(arg) => arg + msg
    case Sha256 => sha(msg)
    case OtherOp(_) => []
  }

  predicate GoodOp(op: Op) {
    match op
    case Append(arg) => 1 <= |arg| <= MAX_ARGUMENT
    case Prepend(arg) => 1 <= |arg| <= MAX_ARGUMENT
    case Sha256 => true
    case OtherOp(_) => false
  }

  predicate GoodAtts(atts: set<Att>) { forall a :: a in atts ==> !a.OtherAtt? }

  // ---------------------------------------------------------------- the recursive view

  function Nodes(t: Tree): nat { 1 + OpsNodes(t.ops) }
  function OpsNodes(o: Ops): nat { if o.End? then 0 else Nodes(o.child) + OpsNodes(o.rest) }

  function Operations(t: Tree): nat { OpsOperations(t.ops) }
  function OpsOperations(o: Ops): nat { if o.End? then 0 else 1 + Operations(o.child) + OpsOperations(o.rest) }

  function Attestations(t: Tree): nat { |t.atts| + OpsAttestations(t.ops) }
  function OpsAttestations(o: Ops): nat { if o.End? then 0 else Attestations(o.child) + OpsAttestations(o.rest) }

  function PendingsIn(atts: set<Att>): set<Att> { set a | a in atts && a.PendingAt? }
  function Pendings(t: Tree): nat { |PendingsIn(t.atts)| + OpsPendings(t.ops) }
  function OpsPendings(o: Ops): nat { if o.End? then 0 else Pendings(o.child) + OpsPendings(o.rest) }

  /** Only supported attestations and operations, and every child holds what its operation computes. */
  predicate Sound(sha: Sha, t: Tree)
    decreases t
  {
    GoodAtts(t.atts) && OpsSound(sha, t.msg, t.ops)
  }

  predicate OpsSound(sha: Sha, msg: bytes, o: Ops)
    decreases o
  {
    o.End? || (GoodOp(o.op) && o.child.msg == Apply(sha, o.op, msg) && Sound(sha, o.child)
      && OpsSound(sha, msg, o.rest))
  }

  datatype Counts = Counts(nodes: nat, operations: nat, attestations: nat, pending: nat)

  function CountsOf(t: Tree): Counts { Counts(Nodes(t), Operations(t), Attestations(t), Pendings(t)) }

  predicate WithinLimits(c: Counts) {
    c.nodes <= MAX_NODES && c.operations <= MAX_OPERATIONS && c.attestations <= MAX_ATTESTATIONS
      && c.pending <= MAX_PENDING
  }

  /** A tree has one node more than operations, so the two limits of 256 and 255 are one limit. */
  lemma {:induction false} NodesAreOperationsPlusOne(t: Tree)
    ensures Nodes(t) == Operations(t) + 1
    decreases t
  {
    OpsNodesAreOperations(t.ops);
  }

  lemma {:induction false} OpsNodesAreOperations(o: Ops)
    ensures OpsNodes(o) == OpsOperations(o)
    decreases o
  {
    if o.Edge? { NodesAreOperationsPlusOne(o.child); OpsNodesAreOperations(o.rest); }
  }

  // ---------------------------------------------------------------- the worklist

  /** The counts of a stack of trees. */
  function Total(stack: seq<Tree>): Counts {
    if stack == [] then Counts(0, 0, 0, 0) else Plus(Total(stack[..|stack| - 1]), CountsOf(stack[|stack| - 1]))
  }

  function Plus(a: Counts, b: Counts): Counts {
    Counts(a.nodes + b.nodes, a.operations + b.operations, a.attestations + b.attestations, a.pending + b.pending)
  }

  predicate AllSound(sha: Sha, stack: seq<Tree>) { forall t :: t in stack ==> Sound(sha, t) }

  /** The children of the first edges, pushed in order. */
  function Children(o: Ops): seq<Tree> { if o.End? then [] else [o.child] + Children(o.rest) }

  lemma {:induction false} TotalPush(stack: seq<Tree>, t: Tree)
    ensures Total(stack + [t]) == Plus(Total(stack), CountsOf(t))
  {
    assert (stack + [t])[..|stack|] == stack;
  }

  datatype Tally = Tally(counts: Counts, stack: seq<Tree>)

  /**
   `validate_timestamp_tree`.  It accepts exactly the sound trees within the limits, and then its four counters are the
   recursive counts.
   */
  method ValidateTimestampTree(sha: Sha, root: Tree) returns (result: Option<Counts>)
    ensures result.Some? <==> Sound(sha, root) && WithinLimits(CountsOf(root))
    ensures result.Some? ==> result.value == CountsOf(root)
  {
    var counts := Counts(0, 0, 0, 0);
    var pending := [root];
    TotalPush([], root);
    assert [] + [root] == [root];
    while pending != []
      invariant Plus(counts, Total(pending)) == CountsOf(root)
      invariant WithinLimits(counts)
      invariant Sound(sha, root) <==> AllSound(sha, pending)
      decreases Total(pending).nodes
    {
      var t := pending[|pending| - 1];
      ghost var below := pending[..|pending| - 1];
      assert pending == below + [t];
      AllSoundPop(sha, below, t);
      TotalPush(below, t);
      pending := pending[..|pending| - 1];
      var tally := VisitNode(sha, t, counts, pending);
      if tally.None? { return None; }
      counts, pending := tally.value.counts, tally.value.stack;
    }
    result := Some(counts);
  }

  /** The body of the worklist loop, for a node just popped. */
  method VisitNode(sha: Sha, t: Tree, before: Counts, below: seq<Tree>) returns (after: Option<Tally>)
    requires WithinLimits(before)
    ensures after.Some? ==>
              && WithinLimits(after.value.counts)
              && Plus(after.value.counts, Total(after.value.stack)) == Plus(before, Plus(Total(below), CountsOf(t)))
              && (AllSound(sha, after.value.stack) <==> AllSound(sha, below) && Sound(sha, t))
              && Total(after.value.stack).nodes < Total(below).nodes + Nodes(t)
    ensures after.None? ==> !Sound(sha, t) || !WithinLimits(Plus(before, CountsOf(t)))
  {
    var counts := before.(nodes := before.nodes + 1);
    if counts.nodes > MAX_NODES { return None; }
    var own := CountAttestations(t.atts, counts);
    if own.None? { return None; }
    counts := own.value;
    after := OpenOperations(sha, t, counts, below);
  }

  lemma AllSoundPop(sha: Sha, below: seq<Tree>, t: Tree)
    ensures AllSound(sha, below + [t]) <==> AllSound(sha, below) && Sound(sha, t)
  {
    assert t in below + [t];
    forall x | x in below ensures x in below + [t] {}
  }

  /** The loop over a node's attestations. */
  method CountAttestations(atts: set<Att>, before: Counts) returns (after: Option<Counts>)
    requires before.attestations <= MAX_ATTESTATIONS && before.pending <= MAX_PENDING
    ensures var total := before.(attestations := before.attestations + |atts|,
            pending := before.pending + |PendingsIn(atts)|);
            && (after.Some? <==>
                  GoodAtts(atts) && total.attestations <= MAX_ATTESTATIONS && total.pending <= MAX_PENDING)
            && (after.Some? ==> after.value == total)
  {
    var counts := before;
    var rest := atts;
    while rest != {}
      invariant rest <= atts
      invariant counts == before.(attestations := counts.attestations, pending := counts.pending)
      invariant counts.attestations + |rest| == before.attestations + |atts|
      invariant counts.pending + |PendingsIn(rest)| == before.pending + |PendingsIn(atts)|
      invariant counts.attestations <= MAX_ATTESTATIONS && counts.pending <= MAX_PENDING
      invariant forall a :: a in atts && a !in rest ==> !a.OtherAtt?
      decreases rest
    {
      var a :| a in rest;
      counts := counts.(attestations := counts.attestations + 1);
      if counts.attestations > MAX_ATTESTATIONS { return None; }
      PendingsDrop(rest, a);
      if a.PendingAt? {
        counts := counts.(pending := counts.pending + 1);
        if counts.pending > MAX_PENDING { return None; }
      } else if a.OtherAtt? {
        return None;
      }
      rest := rest - {a};
    }
    assert PendingsIn({}) == {};
    after := Some(counts);
  }

  lemma PendingsDrop(rest: set<Att>, a: Att)
    requires a in rest
    ensures |PendingsIn(rest)| == |PendingsIn(rest - {a})| + (if a.PendingAt? then 1 else 0)
  {
    if a.PendingAt? { assert PendingsIn(rest) == PendingsIn(rest - {a}) + {a}; }
    else { assert PendingsIn(rest) == PendingsIn(rest - {a}); }
  }

  /** How many edges a node has. */
  function EdgeCount(o: Ops): nat { if o.End? then 0 else 1 + EdgeCount(o.rest) }

  /** The edges alone: their operations are good and their children hold the results. */
  predicate GoodEdges(sha: Sha, msg: bytes, o: Ops) {
    o.End? || (GoodOp(o.op) && o.child.msg == Apply(sha, o.op, msg) && GoodEdges(sha, msg, o.rest))
  }

  lemma {:induction false} SoundByEdges(sha: Sha, msg: bytes, o: Ops)
    ensures OpsSound(sha, msg, o) <==> GoodEdges(sha, msg, o) && AllSound(sha, Children(o))
  {
    if o.Edge? {
      SoundByEdges(sha, msg, o.rest);
      assert forall t :: t in Children(o) <==> t == o.child || t in Children(o.rest);
    }
  }

  function ShareOf(o: Ops): Counts { Counts(OpsNodes(o), OpsOperations(o), OpsAttestations(o), OpsPendings(o)) }

  lemma ShareStep(o: Ops)
    requires o.Edge?
    ensures ShareOf(o) == Plus(Plus(CountsOf(o.child), ShareOf(o.rest)), Counts(0, 1, 0, 0))
  {
  }

  lemma PlusGroups(a: Counts, b: Counts, c: Counts)
    ensures Plus(Plus(a, b), c) == Plus(a, Plus(b, c))
  {
  }

  lemma {:induction false} TotalOfChildren(stack: seq<Tree>, o: Ops)
    ensures Plus(Total(stack + Children(o)), Counts(0, EdgeCount(o), 0, 0)) == Plus(Total(stack), ShareOf(o))
    decreases o
  {
    if o.End? {
      assert stack + Children(o) == stack;
    } else {
      var c, rest := CountsOf(o.child), ShareOf(o.rest);
      assert stack + Children(o) == (stack + [o.child]) + Children(o.rest);
      TotalOfChildren(stack + [o.child], o.rest);
      TotalPush(stack, o.child);
      ShareStep(o);
      PlusGroups(Total(stack), c, rest);
      AddOne(Total(stack + Children(o)), EdgeCount(o.rest), Plus(Total(stack), Plus(c, rest)));
      PlusGroups(Total(stack), Plus(c, rest), Counts(0, 1, 0, 0));
    }
  }

  lemma AddOne(total: Counts, n: nat, sum: Counts)
    requires Plus(total, Counts(0, n, 0, 0)) == sum
    ensures Plus(total, Counts(0, n + 1, 0, 0)) == Plus(sum, Counts(0, 1, 0, 0))
  {
  }

  /** The loop over a node's operations, pushing the children. */
  method OpenOperations(sha: Sha, t: Tree, before: Counts, below: seq<Tree>) returns (after: Option<Tally>)
    requires WithinLimits(before)
    ensures var total := before.(operations := before.operations + EdgeCount(t.ops));
            && (after.Some? <==> GoodEdges(sha, t.msg, t.ops) && total.operations <= MAX_OPERATIONS)
            && (after.Some? ==> after.value == Tally(total, below + Children(t.ops)))
    ensures after.Some?
            ==> Plus(after.value.counts, Total(after.value.stack)) == Plus(before, Plus(Total(below), ShareOf(t.ops)))
    ensures after.Some? ==> (AllSound(sha, after.value.stack) <==> AllSound(sha, below) && OpsSound(sha, t.msg, t.ops))
    ensures after.None? ==> !OpsSound(sha, t.msg, t.ops) || before.operations + OpsOperations(t.ops) > MAX_OPERATIONS
    ensures after.Some? ==> Total(after.value.stack).nodes == Total(below).nodes + OpsNodes(t.ops)
  {
    var counts, stack, ops := before, below, t.ops;
    SoundByEdges(sha, t.msg, t.ops);
    TotalOfChildren(below, t.ops);
    EdgesAreOperations(t.ops);
    while ops.Edge?
      invariant stack + Children(ops) == below + Children(t.ops)
      invariant counts == before.(operations := counts.operations)
      invariant counts.operations + EdgeCount(ops) == before.operations + EdgeCount(t.ops)
      invariant counts.operations <= MAX_OPERATIONS
      invariant GoodEdges(sha, t.msg, t.ops) <==> GoodEdges(sha, t.msg, ops)
      decreases ops
    {
      counts := counts.(operations := counts.operations + 1);
      if counts.operations > MAX_OPERATIONS { return None; }
      if ops.op.OtherOp? { return None; }
      if ops.op != Sha256 && !(1 <= |ops.op.arg| <= MAX_ARGUMENT) { return None; }
      if ops.child.msg != Apply(sha, ops.op, t.msg) { return None; }
      assert stack + Children(ops) == (stack + [ops.child]) + Children(ops.rest);
      stack := stack + [ops.child];
      ops := ops.rest;
    }
    assert stack == below + Children(t.ops);
    AllSoundConcat(sha, below, Children(t.ops));
    after := Some(Tally(counts, stack));
  }

  lemma AllSoundConcat(sha: Sha, a: seq<Tree>, b: seq<Tree>)
    ensures AllSound(sha, a + b) <==> AllSound(sha, a) && AllSound(sha, b)
  {
    forall t | t in a ensures t in a + b {}
    forall t | t in b ensures t in a + b {}
  }

  lemma {:induction false} EdgesAreOperations(o: Ops)
    ensures EdgeCount(o) <= OpsOperations(o)
  {
    if o.Edge? { EdgesAreOperations(o.rest); }
  }
}

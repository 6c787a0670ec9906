/** Which stream a flow serves next (lib/strm/sflow.cc: enqueueStream, gotReadyTransmit;
    lib/strm/base.cc: txenqflow, setPriority). */
module Scheduler {

  type Id = nat

  /** tstreams, the streams whose tqflow is set, and every stream's priority.  `joined` and `clock`
      are history: when each stream last joined the queue. */
  datatype Queue = Queue(tstreams: seq<Id>, tqflow: set<Id>, pri: map<Id, int>, joined: map<Id, nat>, clock: nat) {
    function Pri(s: Id): int { if s in pri then pri[s] else 0 }
    function Joined(s: Id): nat { if s in joined then joined[s] else 0 }
  }

  const EmptyQueue := Queue([], {}, map[], map[], 0)

  // ---------- steps ----------

  /** How many queued streams enqueueStream passes over. */
  function Passed(q: Queue, tail: seq<Id>, p: int): (i: nat)
    ensures i <= |tail|
  {
    if tail == [] || q.Pri(tail[0]) < p then 0 else 1 + Passed(q, tail[1..], p)
  }

  /** enqueueStream, with the tqflow flag its callers set. */
  function Enqueue(q: Queue, s: Id): Queue {
    var i := Passed(q, q.tstreams, q.Pri(s));
    q.(tstreams := q.tstreams[..i] + [s] + q.tstreams[i..], tqflow := q.tqflow + {s},
       joined := q.joined[s := q.clock], clock := q.clock + 1)
  }

  /** txenqflow on an attached stream with something to send */
  function Join(q: Queue, s: Id): Queue {
    if s in q.tqflow then q else Enqueue(q, s)
  }

  function Without(t: seq<Id>, s: Id): seq<Id> {
    if t == [] then [] else (if t[0] == s then [] else [t[0]]) + Without(t[1..], s)
  }

  /** dequeueStream: removeAll */
  function Drop(q: Queue, s: Id): Queue {
    q.(tstreams := Without(q.tstreams, s), tqflow := q.tqflow - {s})
  }

  /** setPriority */
  function SetPriority(q: Queue, s: Id, p: int): Queue {
    var q1 := q.(pri := q.pri[s := p]);
    if s in q.tqflow then Enqueue(Drop(q1, s), s) else q1
  }

  /** One turn of gotReadyTransmit: the head transmits one packet and joins again if it has more. */
  function Serve(q: Queue, more: bool): Queue {
    if q.tstreams == [] then q
    else
      var s := q.tstreams[0];
      var q1 := q.(tstreams := q.tstreams[1..], tqflow := q.tqflow - {s});
      if more then Join(q1, s) else q1
  }

  datatype Op = DoJoin(s: Id) | DoDetach(s: Id) | DoPriority(s: Id, p: int) | DoServe(more: bool)

  function Apply(q: Queue, op: Op): Queue {
    match op
    case DoJoin(s) => Join(q, s)
    case DoDetach(s) => Drop(q, s)
    case DoPriority(s, p) => SetPriority(q, s, p)
    case DoServe(more) => Serve(q, more)
  }

  function Run(q: Queue, ops: seq<Op>): Queue
    decreases |ops|
  {
    if ops == [] then q else Apply(Run(q, ops[..|ops| - 1]), ops[|ops| - 1])
  }

  // ---------- the invariant ----------

  /** s is served before t: higher priority, or the same and longer in the queue. */
  predicate Before(q: Queue, s: Id, t: Id) {
    q.Pri(s) > q.Pri(t) || (q.Pri(s) == q.Pri(t) && q.Joined(s) < q.Joined(t))
  }

  /** By priority, first in first out within a level; queued exactly when tqflow is set. */
  ghost predicate Ordered(q: Queue) {
    && (forall i, j :: 0 <= i < j < |q.tstreams| ==> Before(q, q.tstreams[i], q.tstreams[j]))
    && (forall s :: s in q.tstreams <==> s in q.tqflow)
    && (forall s :: s in q.tstreams ==> q.Joined(s) < q.clock)
  }

  /** An ordered queue holds no stream twice. */
  lemma NoTwins(q: Queue, i: nat, j: nat)
    requires Ordered(q) && i < j < |q.tstreams|
    ensures q.tstreams[i] != q.tstreams[j]
  {
  }

  lemma {:induction false} PassedSplits(q: Queue, t: seq<Id>, p: int)
    requires forall i, j :: 0 <= i < j < |t| ==> Before(q, t[i], t[j])
    ensures forall i :: 0 <= i < Passed(q, t, p) ==> q.Pri(t[i]) >= p
    ensures forall i :: Passed(q, t, p) <= i < |t| ==> q.Pri(t[i]) < p
  {
    if t != [] && q.Pri(t[0]) >= p {
      PassedSplits(q, t[1..], p);
      assert forall i :: 0 < i < |t| ==> t[i] == t[1..][i - 1];
    } else if t != [] {
      forall i | 0 < i < |t| ensures q.Pri(t[i]) < p { assert Before(q, t[0], t[i]); }
    }
  }

  lemma JoinLater(q: Queue, s: Id, x: Id, y: Id)
    requires x != s && y != s && Before(q, x, y)
    ensures Before(Enqueue(q, s), x, y)
  {
    hide Passed;
  }

  lemma JoinBetween(q: Queue, s: Id, x: Id)
    requires x != s && q.Joined(x) < q.clock
    ensures q.Pri(x) >= q.Pri(s) ==> Before(Enqueue(q, s), x, s)
    ensures q.Pri(x) < q.Pri(s) ==> Before(Enqueue(q, s), s, x)
  {
    hide Passed;
  }

  lemma EnqueueAt(q: Queue, s: Id, a: nat, b: nat)
    requires Ordered(q) && s !in q.tqflow && a < b < |Enqueue(q, s).tstreams|
    ensures Before(Enqueue(q, s), Enqueue(q, s).tstreams[a], Enqueue(q, s).tstreams[b])
  {
    hide Passed, Before;
    var t, i := q.tstreams, Passed(q, q.tstreams, q.Pri(s));
    PassedSplits(q, t, q.Pri(s));
    var a0, b0 := if a < i then a else a - 1, if b < i then b else b - 1;
    if a == i {
      assert t[b0] in t;
      JoinBetween(q, s, t[b0]);
    } else if b == i {
      assert t[a0] in t;
      JoinBetween(q, s, t[a0]);
    } else {
      assert t[a0] in t && t[b0] in t;
      JoinLater(q, s, t[a0], t[b0]);
    }
  }

  lemma EnqueueHas(q: Queue, s: Id)
    ensures forall x :: x in Enqueue(q, s).tstreams <==> x in q.tstreams || x == s
  {
    var i := Passed(q, q.tstreams, q.Pri(s));
    assert q.tstreams == q.tstreams[..i] + q.tstreams[i..];
  }

  lemma EnqueueOrdered(q: Queue, s: Id)
    requires Ordered(q) && s !in q.tqflow
    ensures Ordered(Enqueue(q, s))
  {
    hide Passed, Before;
    EnqueueHas(q, s);
    var q' := Enqueue(q, s);
    forall a, b | 0 <= a < b < |q'.tstreams| ensures Before(q', q'.tstreams[a], q'.tstreams[b]) {
      EnqueueAt(q, s, a, b);
    }
  }

  lemma {:induction false} WithoutHas(t: seq<Id>, s: Id)
    ensures forall x :: x in Without(t, s) <==> x in t && x != s
  {
    if t != [] { WithoutHas(t[1..], s); }
  }

  ghost predicate Sorted(q: Queue, t: seq<Id>) {
    forall i, j :: 0 <= i < j < |t| ==> Before(q, t[i], t[j])
  }

  lemma {:induction false} WithoutSorted(q: Queue, t: seq<Id>, s: Id)
    requires Sorted(q, t)
    ensures Sorted(q, Without(t, s))
  {
    if t != [] {
      assert Sorted(q, t[1..]);
      WithoutSorted(q, t[1..], s);
      WithoutHas(t[1..], s);
      if t[0] != s {
        forall x | x in t[1..] ensures Before(q, t[0], x) { var j :| 0 <= j < |t[1..]| && t[1..][j] == x; }
        var w := [t[0]] + Without(t[1..], s);
        forall i, j | 0 <= i < j < |w| ensures Before(q, w[i], w[j]) {
          if i == 0 { assert w[j] in t[1..]; } else { assert w[i] == Without(t[1..], s)[i - 1]; }
        }
      }
    }
  }

  lemma DropOrdered(q: Queue, s: Id)
    requires Ordered(q)
    ensures Ordered(Drop(q, s))
  {
    WithoutHas(q.tstreams, s);
    WithoutSorted(q, q.tstreams, s);
    var t := Drop(q, s).tstreams;
    forall i, j | 0 <= i < j < |t| ensures Before(Drop(q, s), t[i], t[j]) { assert Before(q, t[i], t[j]); }
  }

  /** Changing the priority of a stream that is not queued. */
  lemma PriorityOrdered(q: Queue, s: Id, p: int)
    requires Ordered(q) && s !in q.tqflow
    ensures Ordered(q.(pri := q.pri[s := p]))
  {
    var q' := q.(pri := q.pri[s := p]);
    forall i, j | 0 <= i < j < |q.tstreams| ensures Before(q', q.tstreams[i], q.tstreams[j]) {
      assert Before(q, q.tstreams[i], q.tstreams[j]);
      assert q.tstreams[i] in q.tstreams && q.tstreams[j] in q.tstreams;
    }
  }

  lemma BeforeSame(q: Queue, q': Queue, s: Id, t: Id)
    requires Before(q, s, t) && q'.pri == q.pri && q'.joined == q.joined
    ensures Before(q', s, t)
  {
  }

  lemma PopHas(q: Queue)
    requires Ordered(q) && q.tstreams != []
    ensures forall x :: x in q.tstreams[1..] <==> x in q.tstreams && x != q.tstreams[0]
  {
    assert q.tstreams == [q.tstreams[0]] + q.tstreams[1..];
    forall x | x in q.tstreams[1..] ensures x != q.tstreams[0] {
      var j :| 0 <= j < |q.tstreams[1..]| && q.tstreams[1..][j] == x;
      NoTwins(q, 0, j + 1);
    }
  }

  lemma PopOrdered(q: Queue)
    requires Ordered(q) && q.tstreams != []
    ensures Ordered(Serve(q, false))
  {
    hide Before;
    PopHas(q);
    var q' := Serve(q, false);
    forall i, j | 0 <= i < j < |q'.tstreams| ensures Before(q', q'.tstreams[i], q'.tstreams[j]) {
      assert Before(q, q.tstreams[i + 1], q.tstreams[j + 1]);
      BeforeSame(q, q', q'.tstreams[i], q'.tstreams[j]);
    }
    forall x | x in q'.tstreams ensures q'.Joined(x) < q'.clock { assert q.Joined(x) < q.clock; }
  }

  lemma ApplyOrdered(q: Queue, op: Op)
    requires Ordered(q)
    ensures Ordered(Apply(q, op))
  {
    hide Ordered, Enqueue, Without;
    match op {
      case DoJoin(s) => if s !in q.tqflow { EnqueueOrdered(q, s); }
      case DoDetach(s) => DropOrdered(q, s);
      case DoPriority(s, p) =>
        if s in q.tqflow {
          DropOrdered(q, s);
          PriorityOrdered(Drop(q, s), s, p);
          EnqueueOrdered(Drop(q, s).(pri := q.pri[s := p]), s);
          assert Drop(q.(pri := q.pri[s := p]), s) == Drop(q, s).(pri := q.pri[s := p]);
        } else {
          PriorityOrdered(q, s, p);
        }
      case DoServe(more) =>
        if q.tstreams != [] {
          PopOrdered(q);
          if more { EnqueueOrdered(Serve(q, false), q.tstreams[0]); }
        }
    }
  }

  /** Every queue a flow reaches is ordered. */
  lemma {:induction false} RunOrdered(ops: seq<Op>)
    ensures Ordered(Run(EmptyQueue, ops))
    decreases |ops|
  {
    if ops != [] {
      RunOrdered(ops[..|ops| - 1]);
      ApplyOrdered(Run(EmptyQueue, ops[..|ops| - 1]), ops[|ops| - 1]);
    }
  }

  // ---------- no stream is forgotten ----------

  lemma JoinQueues(q: Queue, s: Id)
    ensures Join(q, s).tqflow == q.tqflow + {s} && Join(q, s).pri == q.pri
    ensures s !in q.tqflow ==> forall x :: x in Join(q, s).tstreams <==> x in q.tstreams || x == s
    ensures s in q.tqflow ==> Join(q, s) == q
  {
    hide Passed;
    if s !in q.tqflow { EnqueueHas(q, s); }
  }

  /** Service takes the head off the queue exactly when it asks for no more, and nobody else. */
  lemma ServeQueues(q: Queue, more: bool)
    requires Ordered(q) && q.tstreams != []
    ensures Serve(q, more).tqflow == if more then q.tqflow else q.tqflow - {q.tstreams[0]}
    ensures forall x :: x in Serve(q, more).tstreams <==> x in q.tstreams && (more || x != q.tstreams[0])
    ensures Serve(q, more).pri == q.pri
  {
    hide Passed, Before;
    PopHas(q);
    assert q.tstreams[0] in q.tstreams;
    if more { EnqueueHas(Serve(q, false), q.tstreams[0]); }
  }

  /** A change of priority takes effect and forgets nobody. */
  lemma PriorityQueues(q: Queue, s: Id, p: int)
    ensures SetPriority(q, s, p).Pri(s) == p && SetPriority(q, s, p).tqflow == q.tqflow
    ensures forall x :: x != s ==> SetPriority(q, s, p).Pri(x) == q.Pri(x)
  {
    hide Passed, Without;
  }

  lemma DropQueues(q: Queue, s: Id)
    ensures Drop(q, s).tqflow == q.tqflow - {s} && Drop(q, s).pri == q.pri
    ensures forall x :: x in Drop(q, s).tstreams <==> x in q.tstreams && x != s
  {
    WithoutHas(q.tstreams, s);
  }

  /** The step neither detaches s nor serves it for the last time. */
  predicate Spares(q: Queue, s: Id, op: Op) {
    match op
    case DoDetach(x) => x != s
    case DoServe(more) => more || q.tstreams == [] || q.tstreams[0] != s
    case _ => true
  }

  predicate AllSpare(q: Queue, s: Id, ops: seq<Op>)
    decreases |ops|
  {
    ops == [] || (Spares(q, s, ops[0]) && AllSpare(Apply(q, ops[0]), s, ops[1..]))
  }

  function Play(q: Queue, ops: seq<Op>): Queue
    decreases |ops|
  {
    if ops == [] then q else Play(Apply(q, ops[0]), ops[1..])
  }

  /** A stream that asks for more at each of its services stays queued until it is detached. */
  lemma {:induction false} StaysQueued(q: Queue, s: Id, ops: seq<Op>)
    requires Ordered(q) && s in q.tqflow && AllSpare(q, s, ops)
    ensures s in Play(q, ops).tqflow && s in Play(q, ops).tstreams
    decreases |ops|
  {
    hide Ordered, Enqueue, Without;
    OrderedQueued(q, s);
    if ops != [] {
      ApplyOrdered(q, ops[0]);
      match ops[0] {
        case DoJoin(x) => JoinQueues(q, x);
        case DoDetach(x) => DropQueues(q, x);
        case DoPriority(x, p) => PriorityQueues(q, x, p);
        case DoServe(more) => if q.tstreams != [] { ServeQueues(q, more); }
      }
      StaysQueued(Apply(q, ops[0]), s, ops[1..]);
    }
  }

  lemma OrderedQueued(q: Queue, s: Id)
    requires Ordered(q) && s in q.tqflow
    ensures s in q.tstreams
  {
  }

  // ---------- waiting time ----------

  /** The streams ahead of s. */
  function Ahead(t: seq<Id>, s: Id): (k: nat)
    ensures k <= |t|
    ensures k < |t| <==> s in t
    ensures k < |t| ==> t[k] == s
    ensures forall i :: 0 <= i < k ==> t[i] != s
  {
    if t == [] || t[0] == s then 0 else 1 + Ahead(t[1..], s)
  }

  lemma AheadAt(t: seq<Id>, s: Id, k: nat)
    requires k < |t| && t[k] == s && forall i :: 0 <= i < k ==> t[i] != s
    ensures Ahead(t, s) == k
  {
  }

  /** No stream of strictly higher priority than s joins, and s itself is left alone. */
  predicate Quiet(q: Queue, s: Id, op: Op) {
    match op
    case DoJoin(x) => x in q.tqflow || q.Pri(x) <= q.Pri(s)
    case DoDetach(x) => x != s
    case DoPriority(x, p) => x != s && (x in q.tqflow ==> p <= q.Pri(s))
    case DoServe(more) => more && q.tstreams != [] && q.tstreams[0] != s ==> q.Pri(q.tstreams[0]) <= q.Pri(s)
  }

  /** A stream of no higher priority that joins lands behind s. */
  lemma EnqueueBehind(q: Queue, s: Id, x: Id)
    requires Ordered(q) && s in q.tqflow && x !in q.tqflow && q.Pri(x) <= q.Pri(s)
    ensures Ahead(Enqueue(q, x).tstreams, s) == Ahead(q.tstreams, s)
    ensures s in Enqueue(q, x).tqflow
  {
    hide Passed;
    var i, k := Passed(q, q.tstreams, q.Pri(x)), Ahead(q.tstreams, s);
    PassedSplits(q, q.tstreams, q.Pri(x));
    assert k < i;
    AheadAt(Enqueue(q, x).tstreams, s, k);
  }

  lemma {:induction false} WithoutAhead(t: seq<Id>, s: Id, x: Id)
    requires s in t && x != s
    ensures s in Without(t, x) && Ahead(Without(t, x), s) <= Ahead(t, s)
  {
    hide Ahead;
    WithoutHas(t, x);
    AheadStep(t, s);
    var w := Without(t[1..], x);
    if t[0] == s {
      assert Without(t, x) == [s] + w;
      AheadStep([s] + w, s);
    } else {
      assert s in t[1..];
      WithoutAhead(t[1..], s, x);
      if t[0] == x {
        assert Without(t, x) == w;
      } else {
        assert Without(t, x) == [t[0]] + w && ([t[0]] + w)[1..] == w;
        AheadStep([t[0]] + w, s);
      }
    }
  }

  lemma AheadStep(t: seq<Id>, s: Id)
    requires t != []
    ensures Ahead(t, s) == if t[0] == s then 0 else 1 + Ahead(t[1..], s)
  {
  }

  /** Priority of s itself does not move under a quiet step. */
  lemma QuietOther(q: Queue, s: Id, op: Op)
    requires Ordered(q) && s in q.tqflow && Quiet(q, s, op) && !op.DoServe?
    ensures s in Apply(q, op).tqflow && Ahead(Apply(q, op).tstreams, s) <= Ahead(q.tstreams, s)
    ensures Apply(q, op).Pri(s) == q.Pri(s)
  {
    hide Without, Ahead;
    match op {
      case DoJoin(x) => if x !in q.tqflow { EnqueueBehind(q, s, x); }
      case DoDetach(x) => WithoutAhead(q.tstreams, s, x);
      case DoPriority(x, p) =>
        if x in q.tqflow {
          WithoutAhead(q.tstreams, s, x);
          DropOrdered(q, x);
          PriorityOrdered(Drop(q, x), x, p);
          assert Drop(q.(pri := q.pri[x := p]), x) == Drop(q, x).(pri := q.pri[x := p]);
          EnqueueBehind(Drop(q, x).(pri := q.pri[x := p]), s, x);
        }
    }
  }

  /** Each service brings s one place forward, or serves it. */
  lemma QuietServe(q: Queue, s: Id, more: bool)
    requires Ordered(q) && s in q.tqflow && Quiet(q, s, DoServe(more)) && q.tstreams != [] && q.tstreams[0] != s
    ensures s in Serve(q, more).tqflow && Ahead(Serve(q, more).tstreams, s) == Ahead(q.tstreams, s) - 1
    ensures Serve(q, more).Pri(s) == q.Pri(s)
  {
    PopOrdered(q);
    var q1 := Serve(q, false);
    if more { EnqueueBehind(q1, s, q.tstreams[0]); }
  }

  /** Services in a list of steps. */
  function Services(ops: seq<Op>): nat {
    if ops == [] then 0 else (if ops[0].DoServe? then 1 else 0) + Services(ops[1..])
  }

  /** s is served somewhere along the steps. */
  predicate ServedIn(q: Queue, s: Id, ops: seq<Op>)
    decreases |ops|
  {
    ops != [] &&
    ((ops[0].DoServe? && q.tstreams != [] && q.tstreams[0] == s) || ServedIn(Apply(q, ops[0]), s, ops[1..]))
  }

  /** All steps are quiet for s until it is served. */
  predicate QuietUntilServed(q: Queue, s: Id, ops: seq<Op>)
    decreases |ops|
  {
    ops == [] || (ops[0].DoServe? && q.tstreams != [] && q.tstreams[0] == s) ||
    (Quiet(q, s, ops[0]) && QuietUntilServed(Apply(q, ops[0]), s, ops[1..]))
  }

  /** With k streams ahead, s is served within k+1 services, unless a stream of strictly higher
      priority joins. */
  lemma {:induction false} ServedInTime(q: Queue, s: Id, ops: seq<Op>)
    requires Ordered(q) && s in q.tqflow && QuietUntilServed(q, s, ops)
    requires Services(ops) > Ahead(q.tstreams, s)
    ensures ServedIn(q, s, ops)
    decreases |ops|
  {
    hide Ordered, Ahead;
    QueuedNonEmpty(q, s);
    if !(ops[0].DoServe? && q.tstreams[0] == s) {
      ApplyOrdered(q, ops[0]);
      if ops[0].DoServe? { QuietServe(q, s, ops[0].more); } else { QuietOther(q, s, ops[0]); }
      ServedInTime(Apply(q, ops[0]), s, ops[1..]);
    }
  }

  lemma QueuedNonEmpty(q: Queue, s: Id)
    requires Ordered(q) && s in q.tqflow
    ensures q.tstreams != []
  {
  }

  // ---------- the object ----------

  lemma WithoutStep(t: seq<Id>, i: nat, s: Id)
    requires i < |t|
    ensures Without(t[i..], s) == (if t[i] == s then [] else [t[i]]) + Without(t[i + 1..], s)
  {
    assert t[i..][1..] == t[i + 1..];
  }

  lemma WithoutStart(t: seq<Id>, s: Id)
    ensures t[0..] == t && Without(t[|t|..], s) == []
  {
  }

  lemma SeqAssoc(a: seq<Id>, b: seq<Id>, c: seq<Id>)
    ensures (a + b) + c == a + (b + c)
  {
  }

  class StreamFlow {
    var tstreams: seq<Id>
    var tqflow: set<Id>
    var pri: map<Id, int>
    ghost var joined: map<Id, nat>
    ghost var clock: nat

    ghost function State(): Queue reads this {
      Queue(tstreams, tqflow, pri, joined, clock)
    }

    constructor ()
      ensures State() == EmptyQueue
    {
      tstreams, tqflow, pri, joined, clock := [], {}, map[], map[], 0;
    }

    method Priority(s: Id) returns (p: int)
      ensures p == State().Pri(s)
    {
      p := if s in pri then pri[s] else 0;
    }

    method EnqueueStream(s: Id)
      modifies this`tstreams, this`tqflow, this`joined, this`clock
      ensures State() == Enqueue(old(State()), s)
    {
      var p := Priority(s);
      var i := 0;
      while i < |tstreams|
        invariant 0 <= i <= |tstreams| && State() == old(State())
        invariant Passed(State(), tstreams, p) == i + Passed(State(), tstreams[i..], p)
      {
        var here := Priority(tstreams[i]);
        if here < p { break; }
        i := i + 1;
      }
      tstreams := tstreams[..i] + [s] + tstreams[i..];
      tqflow := tqflow + {s};
      joined, clock := joined[s := clock], clock + 1;
    }

    method TxEnqFlow(s: Id)
      modifies this`tstreams, this`tqflow, this`joined, this`clock
      ensures State() == Join(old(State()), s)
    {
      if s !in tqflow { EnqueueStream(s); }
    }

    method DequeueStream(s: Id)
      modifies this`tstreams, this`tqflow
      ensures State() == Drop(old(State()), s)
    {
      hide Without;
      var kept, i := [], 0;
      WithoutStart(tstreams, s);
      while i < |tstreams|
        invariant 0 <= i <= |tstreams| && tstreams == old(tstreams) && tqflow == old(tqflow)
        invariant Without(tstreams, s) == kept + Without(tstreams[i..], s)
      {
        WithoutStep(tstreams, i, s);
        SeqAssoc(kept, if tstreams[i] == s then [] else [tstreams[i]], Without(tstreams[i + 1..], s));
        if tstreams[i] != s { kept := kept + [tstreams[i]]; }
        i := i + 1;
      }
      assert kept + [] == kept;
      tstreams, tqflow := kept, tqflow - {s};
    }

    method ChangePriority(s: Id, p: int)
      modifies this
      ensures State() == SetPriority(old(State()), s, p)
    {
      pri := pri[s := p];
      if s in tqflow {
        DequeueStream(s);
        EnqueueStream(s);
      }
    }

    /** The body of gotReadyTransmit's loop; `more` says whether the stream asks to be queued again. */
    method ServeNext(more: bool) returns (s: Id)
      requires tstreams != []
      modifies this`tstreams, this`tqflow, this`joined, this`clock
      ensures State() == Serve(old(State()), more) && s == old(tstreams)[0]
    {
      s := tstreams[0];
      tstreams, tqflow := tstreams[1..], tqflow - {s};
      if more { TxEnqFlow(s); }
    }
  }
}

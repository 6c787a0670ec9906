/** What every step of a flow keeps, whatever the layer above transmits during an upcall. */
module FlowInvariant {
  import opened Words
  import opened FlowSpec

  /** Packet numbers stay below half the 64-bit space, where recovering them cannot wrap. */
  const SEQ_LIMIT := 0x8000_0000_0000_0000

  // ---------- the invariant ----------

  function Flying(evts: seq<TxEvent>): nat {
    if evts == [] then 0 else Flying(evts[..|evts| - 1]) + if evts[|evts| - 1].pipe then 1 else 0
  }

  function FlyingBytes(evts: seq<TxEvent>): nat {
    if evts == [] then 0
    else FlyingBytes(evts[..|evts| - 1]) + if evts[|evts| - 1].pipe then evts[|evts| - 1].size else 0
  }

  predicate IsSettle(x: Note, n: int) {
    (x.Acked? || x.Missed?) && x.n == n
  }

  /** How often the upper layer was told that packet n was acknowledged or lost. */
  function Settles(notes: seq<Note>, n: int): nat {
    if notes == [] then 0
    else Settles(notes[..|notes| - 1], n) + if IsSettle(notes[|notes| - 1], n) then 1 else 0
  }

  /** How often it was told that packet n expired. */
  function Expiries(notes: seq<Note>, n: int): nat {
    if notes == [] then 0
    else Expiries(notes[..|notes| - 1], n) + if notes[|notes| - 1] == Expired(n) then 1 else 0
  }

  predicate IsData<P>(f: Flow<P>, n: int) {
    0 <= n < |f.hist.sent| && f.hist.sent[n].body.Data?
  }

  /** Every packet's fate: a data packet out of the pipe was reported acknowledged or lost exactly
      once, a packet below the record queue expired exactly once, and nothing follows an expiry. */
  ghost predicate Fates<P>(f: Flow<P>) {
    && (forall n :: Settles(f.hist.notes, n) == if IsData(f, n) && !PipeAt(f.tx, n) then 1 else 0)
    && (forall n :: Expiries(f.hist.notes, n) == if 0 <= n < f.tx.txevtseq then 1 else 0)
    && (forall i, j :: 0 <= i < j < |f.hist.notes| && f.hist.notes[i].Expired?
          ==> !IsSettle(f.hist.notes[j], f.hist.notes[i].n))
  }

  predicate Counted(t: Tx) {
    && t.txevtseq + |t.txevts| == t.txseq
    && t.txfltcnt == Flying(t.txevts)
    && t.txfltsize == FlyingBytes(t.txevts)
  }

  /** The record queue lines up with the numbers sent. */
  ghost predicate Records<P>(f: Flow<P>) {
    && Counted(f.tx)
    && |f.hist.sent| == f.tx.txseq
    && f.tx.txackseq < f.tx.txseq
    && f.tx.txevtseq <= f.tx.txackseq + 1
    && (forall i :: 0 <= i < |f.tx.txevts| ==>
          && (f.tx.txevts[i].pipe ==> f.tx.txevts[i].data)
          && (f.tx.txevts[i].data <==> f.hist.sent[f.tx.txevtseq + i].body.Data?))
  }

  /** Holds at every moment, also inside an event. */
  ghost predicate Core<P>(f: Flow<P>) {
    Records(f) && Fates(f)
  }

  /** Where the record queue starts, given the highest acknowledged number. */
  function OldestRecord(ackseq: nat): nat {
    if ackseq > MASK_BITS then ackseq - MASK_BITS + 1 else 0
  }

  /** Between events: records reach back exactly through the mask, and everything at least
      MISS_THRESH behind the highest acknowledged number has left the pipe. */
  ghost predicate Window(t: Tx) {
    && t.txevtseq == OldestRecord(t.txackseq)
    && forall n :: n <= t.txackseq - MISS_THRESH ==> !PipeAt(t, n)
  }

  ghost predicate Distinct(s: seq<int>) {
    forall i, j :: 0 <= i < j < |s| ==> s[i] != s[j]
  }

  /** The mask is the last 32 places, counted back from top, of the numbers in the log. */
  ghost predicate Reflects(mask: Mask, top: int, log: seq<int>) {
    && (forall n :: n in log ==> 0 <= n <= top)
    && (forall i :: 0 <= i < MASK_BITS ==> (i in mask <==> top - i in log))
  }

  /** txackmask shows the numbers counted so far, none of them counted twice. */
  ghost predicate MaskOk<P>(f: Flow<P>) {
    Distinct(f.hist.credited) && Reflects(f.tx.txackmask, f.tx.txackseq, f.hist.credited)
  }

  /** rxmask shows the numbers accepted so far, none of them accepted twice. */
  ghost predicate RxOk<P>(f: Flow<P>) {
    && Distinct(f.hist.accepted)
    && Reflects(f.rx.rxmask, f.rx.rxseq, f.hist.accepted)
    && f.rx.rxseq in f.hist.accepted
    && f.rx.rxseq < SEQ_LIMIT
  }

  /** Two cuts never belong to one flight: the later loss was transmitted after the earlier cut. */
  ghost predicate CutsOk<P>(f: Flow<P>) {
    && (forall i :: 0 <= i < |f.hist.cuts| ==> f.hist.cuts[i].at <= f.cc.recovseq)
    && (forall i, j :: 0 <= i < j < |f.hist.cuts| ==> f.hist.cuts[i].at < f.hist.cuts[j].lost)
    && f.cc.recovseq <= f.tx.txseq
  }

  // ---------- transmissions during an upcall ----------

  /** g is f after any number of transmissions and window probes. */
  ghost predicate Extends<P>(f: Flow<P>, g: Flow<P>) {
    && g.tx.txevtseq == f.tx.txevtseq
    && g.tx.txackseq == f.tx.txackseq
    && g.tx.txackmask == f.tx.txackmask
    && f.tx.txevts <= g.tx.txevts
    && f.hist.sent <= g.hist.sent
    && g.tx.txseq - f.tx.txseq == |g.tx.txevts| - |f.tx.txevts|
    && g.cc == f.cc.(cwndlim := g.cc.cwndlim)
    && g.rx == f.rx.(rxunacked := g.rx.rxunacked)
    && g.hist == f.hist.(sent := g.hist.sent)
  }

  lemma FlyingAppend(s: seq<TxEvent>, x: TxEvent)
    ensures Flying(s + [x]) == Flying(s) + if x.pipe then 1 else 0
    ensures FlyingBytes(s + [x]) == FlyingBytes(s) + if x.pipe then x.size else 0
  {
    assert (s + [x])[..|s|] == s;
  }

  lemma TxPacketRecords<P>(f: Flow<P>, word: nat, body: Body<P>, size: nat)
    requires Records(f)
    ensures Records(TxPacket(f, word, body, size))
  {
    hide Flying, FlyingBytes;
    FlyingAppend(f.tx.txevts, TxEvent(size, body.Data?, body.Data?));
    var g := TxPacket(f, word, body, size);
    forall i | 0 <= i < |g.tx.txevts|
      ensures (g.tx.txevts[i].pipe ==> g.tx.txevts[i].data) && (g.tx.txevts[i].data <==> g.hist.sent[g.tx.txevtseq + i].body.Data?)
    {
      if i < |f.tx.txevts| { assert g.tx.txevts[i] == f.tx.txevts[i]; }
    }
  }

  lemma TxPacketCore<P>(f: Flow<P>, word: nat, body: Body<P>, size: nat)
    requires Core(f)
    ensures Core(TxPacket(f, word, body, size))
  {
    var g := TxPacket(f, word, body, size);
    TxPacketRecords(f, word, body, size);
    forall n
      ensures IsData(g, n) && !PipeAt(g.tx, n) <==> IsData(f, n) && !PipeAt(f.tx, n)
    {
      if n == f.tx.txseq { assert g.tx.txevts[n - g.tx.txevtseq].pipe == body.Data?; }
    }
  }

  lemma {:induction false} ServeCore<P>(f: Flow<P>, size: P -> nat, reqs: seq<Req<P>>)
    requires Core(f)
    ensures Core(Serve(f, size, reqs)) && Extends(f, Serve(f, size, reqs))
    decreases |reqs|
  {
    hide Core, PackAck;
    if reqs != [] {
      match reqs[0] {
        case Send(p) =>
          CoreSide(f, f.cc, f.rx.(rxunacked := 0));
          TxPacketCore(f.(rx := f.rx.(rxunacked := 0)), PackAck(f.rx.rxackseq, f.rx.rxackct), Data(p), size(p));
          ServeCore(FlowTransmit(f, p, size(p)), size, reqs[1..]);
        case Probe =>
          CoreSide(f, MayTransmit(f).cc, f.rx);
          ServeCore(MayTransmit(f), size, reqs[1..]);
      }
    }
  }

  /** Congestion control and the receive side play no part in Core. */
  lemma CoreSide<P>(f: Flow<P>, cc: Cc, rx: Rx)
    requires Core(f)
    ensures Core(f.(cc := cc, rx := rx))
  {
    assert Fates(f) ==> Fates(f.(cc := cc, rx := rx));
  }

  // ---------- settling a record ----------

  /** g is f after records were settled or expired and packets transmitted: the acknowledgment
      state is untouched and no old pipe bit comes back. */
  ghost predicate Calm<P>(f: Flow<P>, g: Flow<P>) {
    && f.tx.txevtseq <= g.tx.txevtseq
    && g.tx.txackseq == f.tx.txackseq
    && g.tx.txackmask == f.tx.txackmask
    && f.tx.txseq <= g.tx.txseq
    && f.hist.sent <= g.hist.sent
    && g.rx == f.rx.(rxunacked := g.rx.rxunacked)
    && g.hist.credited == f.hist.credited
    && g.hist.accepted == f.hist.accepted
    && g.hist.acknowledged == f.hist.acknowledged
    && forall n :: n < f.tx.txseq && PipeAt(g.tx, n) ==> PipeAt(f.tx, n)
  }

  ghost predicate Steady<P>(f: Flow<P>, g: Flow<P>) {
    Calm(f, g) && g.tx.txevtseq == f.tx.txevtseq
  }

  predicate CwndOk(c: Cc) {
    CWND_MIN <= c.cwnd <= CWND_MAX && CWND_MIN <= c.ssthresh
  }

  ghost predicate CcOk<P>(f: Flow<P>) {
    CwndOk(f.cc) && CutsOk(f)
  }

  /** The transmit side between events. */
  ghost predicate Good<P>(f: Flow<P>) {
    Core(f) && CcOk(f) && Window(f.tx) && MaskOk(f)
  }

  lemma {:induction false} FlyingClear(s: seq<TxEvent>, i: nat)
    requires i < |s| && s[i].pipe
    ensures Flying(s[i := s[i].(pipe := false)]) == Flying(s) - 1
    ensures FlyingBytes(s[i := s[i].(pipe := false)]) == FlyingBytes(s) - s[i].size
  {
    var s' := s[i := s[i].(pipe := false)];
    var k := |s| - 1;
    if i == k {
      assert s'[..k] == s[..k];
    } else {
      assert s'[..k] == s[..k][i := s[i].(pipe := false)];
      FlyingClear(s[..k], i);
    }
  }

  lemma {:induction false} FlyingTail(s: seq<TxEvent>)
    requires s != [] && !s[0].pipe
    ensures Flying(s[1..]) == Flying(s) && FlyingBytes(s[1..]) == FlyingBytes(s)
  {
    if |s| > 1 {
      FlyingTail(s[..|s| - 1]);
      assert s[..|s| - 1][1..] == s[1..][..|s| - 2];
    }
  }

  lemma NotesAppend(notes: seq<Note>, x: Note, n: int)
    ensures Settles(notes + [x], n) == Settles(notes, n) + if IsSettle(x, n) then 1 else 0
    ensures Expiries(notes + [x], n) == Expiries(notes, n) + if x == Expired(n) then 1 else 0
  {
    assert (notes + [x])[..|notes|] == notes;
  }

  lemma {:induction false} ExpiredCounts(notes: seq<Note>, i: nat)
    requires i < |notes| && notes[i].Expired?
    ensures Expiries(notes, notes[i].n) >= 1
  {
    if i < |notes| - 1 { ExpiredCounts(notes[..|notes| - 1], i); }
  }

  function WithNote<P>(f: Flow<P>, x: Note): Flow<P> {
    f.(hist := f.hist.(notes := f.hist.notes + [x]))
  }

  lemma ClearPipeRecords<P>(f: Flow<P>, n: int)
    requires Records(f) && PipeAt(f.tx, n)
    ensures Records(f.(tx := ClearPipe(f.tx, n)))
  {
    FlyingClear(f.tx.txevts, n - f.tx.txevtseq);
  }

  /** Clearing a pipe bit together with its notification keeps every packet's fate. */
  lemma ClearPipeFates<P>(f: Flow<P>, n: int, x: Note)
    requires Core(f) && PipeAt(f.tx, n) && IsSettle(x, n)
    ensures Fates(WithNote(f.(tx := ClearPipe(f.tx, n)), x))
  {
    var t := ClearPipe(f.tx, n);
    var g := WithNote(f.(tx := t), x);
    assert IsData(f, n) by { assert f.tx.txevts[n - f.tx.txevtseq].pipe; }
    forall k ensures PipeAt(t, k) <==> PipeAt(f.tx, k) && k != n { }
    forall k {
      NotesAppend(f.hist.notes, x, k);
    }
    forall i | 0 <= i < |f.hist.notes| && f.hist.notes[i].Expired?
      ensures f.hist.notes[i].n != n
    {
      ExpiredCounts(f.hist.notes, i);
    }
  }

  lemma NotifyCore<U, P>(e: End<U, P>, h: Upper<U, P>, x: Note)
    requires Core(WithNote(e.fl, x))
    ensures Core(Notify(e, h, x).fl) && Extends(WithNote(e.fl, x), Notify(e, h, x).fl)
  {
    ServeCore(WithNote(e.fl, x), h.size, h.note(e.up, x, e.fl.tx.txseq).1);
  }

  function SettleNote(n: int, why: Cause): Note {
    if why.ByAck? then Acked(n, why.rxseq) else Missed(n)
  }

  /** The flow as the upcall of Settle finds it. */
  function Settled<P>(f: Flow<P>, n: int, why: Cause): Flow<P>
    requires PipeAt(f.tx, n)
  {
    var g := f.(tx := ClearPipe(f.tx, n));
    WithNote(if why.ByLoss? then CcMissed(g, n) else g, SettleNote(n, why))
  }

  lemma SettledCore<P>(f: Flow<P>, n: int, why: Cause)
    requires Core(f) && PipeAt(f.tx, n)
    ensures Core(Settled(f, n, why))
  {
    hide Records, Fates, ClearPipe, PipeAt;
    var g := f.(tx := ClearPipe(f.tx, n));
    ClearPipeRecords(f, n);
    RecordsSame(g, Settled(f, n, why));
    ClearPipeFates(f, n, SettleNote(n, why));
    FatesSame(WithNote(g, SettleNote(n, why)), Settled(f, n, why));
  }

  lemma RecordsSame<P>(f: Flow<P>, g: Flow<P>)
    requires Records(f) && g.tx == f.tx && g.hist.sent == f.hist.sent
    ensures Records(g)
  {
  }

  lemma FatesSame<P>(f: Flow<P>, g: Flow<P>)
    requires Fates(f) && g.tx == f.tx && g.hist.sent == f.hist.sent && g.hist.notes == f.hist.notes
    ensures Fates(g)
  {
    hide Settles, Expiries, PipeAt;
    assert forall n :: IsData(g, n) == IsData(f, n);
  }

  lemma SettledSteady<P>(f: Flow<P>, n: int, why: Cause)
    requires Records(f) && PipeAt(f.tx, n)
    ensures Steady(f, Settled(f, n, why)) && !PipeAt(Settled(f, n, why).tx, n) && n < Settled(f, n, why).tx.txseq
  {
  }

  lemma SettledCc<P>(f: Flow<P>, n: int, why: Cause)
    requires CcOk(f) && PipeAt(f.tx, n)
    ensures CcOk(Settled(f, n, why))
  {
  }

  lemma CalmExtends<P>(f: Flow<P>, g: Flow<P>, k: Flow<P>)
    requires Records(g) && Calm(f, g) && Extends(g, k)
    ensures Calm(f, k)
  {
  }

  lemma SteadyFacts<P>(f: Flow<P>, g: Flow<P>)
    requires Steady(f, g)
    ensures f.tx.txseq <= g.tx.txseq
    ensures forall n :: n < f.tx.txseq && PipeAt(g.tx, n) ==> PipeAt(f.tx, n)
  {
  }

  lemma SteadyTrans<P>(f: Flow<P>, g: Flow<P>, k: Flow<P>)
    requires Steady(f, g) && Steady(g, k)
    ensures Steady(f, k)
  {
  }

  lemma CalmTrans<P>(f: Flow<P>, g: Flow<P>, k: Flow<P>)
    requires Calm(f, g) && Calm(g, k)
    ensures Calm(f, k)
  {
  }

  lemma SettleIs<U, P>(e: End<U, P>, h: Upper<U, P>, n: int, why: Cause)
    requires PipeAt(e.fl.tx, n)
    ensures Settle(e, h, n, why).fl
         == Serve(Settled(e.fl, n, why), h.size, h.note(e.up, SettleNote(n, why), e.fl.tx.txseq).1)
    ensures Settle(e, h, n, why).up == h.note(e.up, SettleNote(n, why), e.fl.tx.txseq).0
  {
  }

  /** One record settled, for any cause and any behaviour of the layer above. */
  lemma SettleCore<U, P>(e: End<U, P>, h: Upper<U, P>, n: int, why: Cause)
    requires Core(e.fl) && CcOk(e.fl)
    ensures var f' := Settle(e, h, n, why).fl;
            Core(f') && CcOk(f') && Steady(e.fl, f') && !PipeAt(f'.tx, n)
  {
    hide Core, CcOk, Settled, Serve, Calm, Records, Extends, PipeAt;
    if PipeAt(e.fl.tx, n) {
      var g := Settled(e.fl, n, why);
      CoreRecords(e.fl);
      SettledCore(e.fl, n, why);
      CoreRecords(g);
      SettledSteady(e.fl, n, why);
      SettledCc(e.fl, n, why);
      SettleIs(e, h, n, why);
      ServeCore(g, h.size, h.note(e.up, SettleNote(n, why), e.fl.tx.txseq).1);
      CalmExtends(e.fl, g, Settle(e, h, n, why).fl);
      ExtendsKeeps(e.fl.tx, g, Settle(e, h, n, why).fl, n);
    } else {
      CalmRefl(e.fl);
    }
  }

  lemma ExtendsKeeps<P>(t: Tx, g: Flow<P>, k: Flow<P>, n: int)
    requires CcOk(g) && Extends(g, k) && Records(g) && !PipeAt(g.tx, n) && PipeAt(t, n) && n < g.tx.txseq
    ensures CcOk(k) && k.tx.txevtseq == g.tx.txevtseq && !PipeAt(k.tx, n)
  {
  }

  lemma CalmRefl<P>(f: Flow<P>)
    ensures Calm(f, f)
  {
  }

  lemma {:induction false} SettleRangeCore<U, P>(e: End<U, P>, h: Upper<U, P>, n: int, lim: int, why: Cause)
    requires Core(e.fl) && CcOk(e.fl) && lim <= e.fl.tx.txseq
    ensures var f' := SettleRange(e, h, n, lim, why).fl;
            && Core(f') && CcOk(f') && Steady(e.fl, f')
            && forall k :: n <= k < lim ==> !PipeAt(f'.tx, k)
    decreases lim - n
  {
    hide Core, CcOk, Settle;
    if n < lim {
      var e1 := Settle(e, h, n, why);
      SettleCore(e, h, n, why);
      SettleRangeCore(e1, h, n + 1, lim, why);
      CalmTrans(e.fl, e1.fl, SettleRange(e, h, n, lim, why).fl);
    }
  }

  // ---------- expiry ----------

  function Popped<P>(f: Flow<P>, n: int): Flow<P>
    requires f.tx.txevts != []
  {
    WithNote(PopHead(f), Expired(n))
  }

  lemma PoppedCore<P>(f: Flow<P>)
    requires Core(f) && f.tx.txevts != [] && !PipeAt(f.tx, f.tx.txevtseq) && f.tx.txevtseq <= f.tx.txackseq
    ensures Core(Popped(f, f.tx.txevtseq)) && Calm(f, Popped(f, f.tx.txevtseq))
  {
    var n := f.tx.txevtseq;
    var g := Popped(f, n);
    assert !f.tx.txevts[0].pipe;
    FlyingTail(f.tx.txevts);
    forall k ensures PipeAt(g.tx, k) <==> PipeAt(f.tx, k) { }
    forall k {
      NotesAppend(f.hist.notes, Expired(n), k);
    }
    assert Records(g);
  }

  /** The record dropped by one turn of the garbage-collection loop is out of the pipe, so the
      assertion there cannot fail; the turn keeps the flow well formed. */
  lemma ExpireStepCore<U, P>(e: End<U, P>, h: Upper<U, P>, n: int)
    requires Core(e.fl) && CcOk(e.fl) && n == e.fl.tx.txevtseq <= e.fl.tx.txackseq && !PipeAt(e.fl.tx, n)
    ensures e.fl.tx.txevts != [] && !e.fl.tx.txevts[0].pipe
    ensures var f' := Notify(e.(fl := PopHead(e.fl)), h, Expired(n)).fl;
            Core(f') && CcOk(f') && Calm(e.fl, f') && f'.tx.txevtseq == n + 1
  {
    var g := Popped(e.fl, n);
    PoppedCore(e.fl);
    hide Core, Calm, Records;
    NotifyCore(e.(fl := PopHead(e.fl)), h, Expired(n));
    CoreRecords(g);
    CalmExtends(e.fl, g, Notify(e.(fl := PopHead(e.fl)), h, Expired(n)).fl);
  }

  lemma CoreRecords<P>(f: Flow<P>)
    requires Core(f)
    ensures Records(f)
  {
  }

  lemma {:induction false} ExpireRangeCore<U, P>(e: End<U, P>, h: Upper<U, P>, n: int, lim: int)
    requires Core(e.fl) && CcOk(e.fl) && n == e.fl.tx.txevtseq && lim <= e.fl.tx.txackseq + 1
    requires lim <= e.fl.tx.txseq && forall k :: k < lim ==> !PipeAt(e.fl.tx, k)
    ensures var f' := ExpireRange(e, h, n, lim).fl;
            Core(f') && CcOk(f') && Calm(e.fl, f') && f'.tx.txevtseq == Max(n, lim)
    decreases lim - n
  {
    hide Core, CcOk;
    if n < lim {
      ExpireStepCore(e, h, n);
      var e1 := Notify(e.(fl := PopHead(e.fl)), h, Expired(n));
      ExpireRangeCore(e1, h, n + 1, lim);
      CalmTrans(e.fl, e1.fl, ExpireRange(e, h, n, lim).fl);
    }
  }

  // ---------- acknowledgments ----------

  /** g is f after acknowledgment processing. */
  ghost predicate Progress<P>(f: Flow<P>, g: Flow<P>) {
    && f.tx.txackseq <= g.tx.txackseq
    && f.tx.txseq <= g.tx.txseq
    && f.hist.sent <= g.hist.sent
    && f.hist.credited <= g.hist.credited
    && g.rx == f.rx.(rxunacked := g.rx.rxunacked)
    && g.hist.accepted == f.hist.accepted
    && g.hist.acknowledged == f.hist.acknowledged
  }

  /** The numbers counted between f and g all lie in the acknowledged run [lo, hi]. */
  ghost predicate CreditsWithin<P>(f: Flow<P>, g: Flow<P>, lo: int, hi: int) {
    forall n :: n in g.hist.credited ==> n in f.hist.credited || lo <= n <= hi
  }

  lemma DistinctAppend(s: seq<int>, t: seq<int>)
    requires Distinct(s) && Distinct(t) && forall n :: n in t ==> n !in s
    ensures Distinct(s + t)
  {
    forall i, j | 0 <= i < j < |s + t| ensures (s + t)[i] != (s + t)[j] {
      if i < |s| <= j { assert s[i] in s && t[j - |s|] in t; }
    }
  }

  lemma RollReflects(m: Mask, top: int, log: seq<int>, ackdiff: nat, newct: nat, more: seq<int>)
    requires Reflects(m, top, log) && 0 <= top && 0 < ackdiff && newct <= ackdiff && newct <= MASK_BITS
    requires forall n :: n in more <==> top + ackdiff - newct < n <= top + ackdiff
    ensures Reflects(RollMask(m, ackdiff, newct), top + ackdiff, log + more)
  {
    hide Shl, Ones;
    var m' := RollMask(m, ackdiff, newct);
    forall i | 0 <= i < MASK_BITS
      ensures i in m' <==> top + ackdiff - i in log + more
    {
      var n := top + ackdiff - i;
      assert n in log + more <==> n in log || n in more;
      if i >= ackdiff {
        assert n == top - (i - ackdiff);
      }
    }
  }

  lemma RangeDistinct(lo: int, lim: int)
    ensures Distinct(NumRange(lo, lim))
  {
  }

  lemma RollAckOk<P>(f: Flow<P>, ackdiff: nat, newct: nat)
    requires MaskOk(f) && 0 < ackdiff && newct <= ackdiff && newct <= MASK_BITS
    ensures MaskOk(RollAck(f, f.tx.txackseq + ackdiff, ackdiff, newct))
  {
    hide Distinct, RollMask;
    var a := f.tx.txackseq + ackdiff;
    var more := NumRange(a - newct + 1, a + 1);
    assert forall n :: n in more ==> n !in f.hist.credited;
    hide Reflects;
    RangeDistinct(a - newct + 1, a + 1);
    DistinctAppend(f.hist.credited, more);
    RollReflects(f.tx.txackmask, f.tx.txackseq, f.hist.credited, ackdiff, newct, more);
  }

  lemma RollAckCore<P>(f: Flow<P>, ackdiff: nat, newct: nat)
    requires Core(f) && CcOk(f) && f.tx.txackseq + ackdiff < f.tx.txseq && newct <= MASK_BITS
    ensures var g := RollAck(f, f.tx.txackseq + ackdiff, ackdiff, newct);
            && Core(g) && CcOk(g) && Progress(f, g)
            && g.tx.txseq == f.tx.txseq && g.tx.txevtseq == f.tx.txevtseq
            && forall n :: PipeAt(g.tx, n) == PipeAt(f.tx, n)
  {
    hide Flying, FlyingBytes, Settles, Expiries, RollMask, NumRange, IsSettle;
    var g := RollAck(f, f.tx.txackseq + ackdiff, ackdiff, newct);
    assert forall n :: PipeAt(g.tx, n) == PipeAt(f.tx, n);
    assert forall n :: IsData(g, n) == IsData(f, n);
    assert Fates(g);
  }

  lemma MaskOkCalm<P>(f: Flow<P>, g: Flow<P>)
    requires MaskOk(f) && Calm(f, g)
    ensures MaskOk(g)
  {
  }

  lemma LossLoopCore<U, P>(e: End<U, P>, h: Upper<U, P>, a: nat, ackdiff: nat, newct: nat)
    requires Core(e.fl) && CcOk(e.fl) && 0 < ackdiff <= a < e.fl.tx.txseq && newct <= ackdiff
    requires forall n :: n <= a - ackdiff - MISS_THRESH ==> !PipeAt(e.fl.tx, n)
    requires forall n :: a - newct + 1 <= n < a + 1 ==> !PipeAt(e.fl.tx, n)
    ensures var f' := SettleRange(e, h, LossLow(a, ackdiff), LossHigh(a, newct) + 1, ByLoss).fl;
            && Core(f') && CcOk(f') && Steady(e.fl, f')
            && (forall n :: n <= a - MISS_THRESH ==> !PipeAt(f'.tx, n))
  {
    var e' := SettleRange(e, h, LossLow(a, ackdiff), LossHigh(a, newct) + 1, ByLoss);
    assert forall n :: n < 0 ==> !PipeAt(e'.fl.tx, n);
    hide Core, CcOk, PipeAt, SettleRange;
    SettleRangeCore(e, h, LossLow(a, ackdiff), LossHigh(a, newct) + 1, ByLoss);
  }

  lemma AckLoopCore<U, P>(e: End<U, P>, h: Upper<U, P>, a: nat, ackdiff: nat, newct: nat, rxseq: int)
    requires Core(e.fl) && CcOk(e.fl) && 0 < ackdiff <= a < e.fl.tx.txseq && newct <= ackdiff
    requires forall n :: n <= a - ackdiff - MISS_THRESH ==> !PipeAt(e.fl.tx, n)
    ensures var f' := SettleRange(e, h, a - newct + 1, a + 1, ByAck(rxseq)).fl;
            && Core(f') && CcOk(f') && Steady(e.fl, f')
            && (forall n :: n <= a - ackdiff - MISS_THRESH ==> !PipeAt(f'.tx, n))
            && (forall n :: a - newct + 1 <= n < a + 1 ==> !PipeAt(f'.tx, n))
  {
    hide Core, CcOk, PipeAt, SettleRange;
    SettleRangeCore(e, h, a - newct + 1, a + 1, ByAck(rxseq));
  }

  /** The two settling loops of an advance leave no gap: nothing at least MISS_THRESH behind the
      new ackseq is in the pipe. */
  lemma ResettleCore<U, P>(e: End<U, P>, h: Upper<U, P>, a: nat, ackdiff: nat, newct: nat, rxseq: int)
    requires Core(e.fl) && CcOk(e.fl) && Window(e.fl.tx)
    requires 0 < ackdiff && newct <= MASK_BITS && newct <= ackdiff
    requires a == e.fl.tx.txackseq + ackdiff < e.fl.tx.txseq
    ensures Core(Resettle(e, h, a, ackdiff, newct, rxseq).fl)
    ensures CcOk(Resettle(e, h, a, ackdiff, newct, rxseq).fl)
    ensures Steady(RollAck(e.fl, a, ackdiff, newct), Resettle(e, h, a, ackdiff, newct, rxseq).fl)
    ensures forall n :: n <= a - MISS_THRESH ==> !PipeAt(Resettle(e, h, a, ackdiff, newct, rxseq).fl.tx, n)
  {
    hide Core, CcOk, PipeAt, RollAck, SettleRange, LossLow, LossHigh, Progress, Calm, Steady;
    RollAckCore(e.fl, ackdiff, newct);
    var e1 := e.(fl := RollAck(e.fl, a, ackdiff, newct));
    AckLoopCore(e1, h, a, ackdiff, newct, rxseq);
    var e2 := SettleRange(e1, h, a - newct + 1, a + 1, ByAck(rxseq));
    SteadyFacts(e1.fl, e2.fl);
    LossLoopCore(e2, h, a, ackdiff, newct);
    SteadyTrans(e1.fl, e2.fl, Resettle(e, h, a, ackdiff, newct, rxseq).fl);
  }

  lemma AdvanceCore<U, P>(e: End<U, P>, h: Upper<U, P>, a: nat, ackdiff: nat, ackct: nat, rxseq: int)
    requires Good(e.fl)
    requires 0 < ackdiff && ackct <= ACKCT_MAX && a == e.fl.tx.txackseq + ackdiff < e.fl.tx.txseq
    ensures Good(Advance(e, h, a, ackdiff, ackct, rxseq).fl)
    ensures Progress(e.fl, Advance(e, h, a, ackdiff, ackct, rxseq).fl)
    ensures Advance(e, h, a, ackdiff, ackct, rxseq).fl.tx.txackseq == a
    ensures Advance(e, h, a, ackdiff, ackct, rxseq).fl.tx.txackmask
         == RollMask(e.fl.tx.txackmask, ackdiff, NewCount(ackdiff, ackct))
    ensures Advance(e, h, a, ackdiff, ackct, rxseq).fl.hist.credited
         == e.fl.hist.credited + NumRange(a - NewCount(ackdiff, ackct) + 1, a + 1)
  {
    hide Core, CcOk, MaskOk, SettleRange, ExpireRange, PipeAt, Resettle, RollMask, NumRange;
    var newct := NewCount(ackdiff, ackct);
    ResettleCore(e, h, a, ackdiff, newct, rxseq);
    RollAckOk(e.fl, ackdiff, newct);
    var e3 := Resettle(e, h, a, ackdiff, newct, rxseq);
    MaskOkCalm(RollAck(e.fl, a, ackdiff, newct), e3.fl);
    if a > MASK_BITS {
      ExpireRangeCore(e3, h, e3.fl.tx.txevtseq, a - MASK_BITS + 1);
      MaskOkCalm(e3.fl, ExpireRange(e3, h, e3.fl.tx.txevtseq, a - MASK_BITS + 1).fl);
    }
  }

  // ---------- stragglers ----------

  lemma CreditOk<P>(f: Flow<P>, bit: nat)
    requires MaskOk(f) && bit < MASK_BITS && bit !in f.tx.txackmask && bit <= f.tx.txackseq
    ensures MaskOk(Credit(f, bit))
  {
    var prior, n := f.hist.credited, f.tx.txackseq - bit;
    forall k ensures k in prior + [n] <==> k in prior || k == n { }
  }

  lemma CreditCore<P>(f: Flow<P>, bit: nat)
    requires Core(f) && CcOk(f) && bit < MASK_BITS
    ensures Core(Credit(f, bit)) && CcOk(Credit(f, bit)) && Progress(f, Credit(f, bit))
  {
  }

  lemma WindowCredit<P>(f: Flow<P>, bit: nat)
    requires Window(f.tx) && bit < MASK_BITS
    ensures Window(Credit(f, bit).tx)
  {
    assert forall n :: PipeAt(Credit(f, bit).tx, n) == PipeAt(f.tx, n);
  }

  lemma WindowCalm<P>(f: Flow<P>, g: Flow<P>)
    requires Records(f) && Window(f.tx) && Calm(f, g) && g.tx.txevtseq == f.tx.txevtseq
    ensures Window(g.tx)
  {
  }

  function StraggleTurn<U, P>(e: End<U, P>, h: Upper<U, P>, bit: nat, rxseq: int): End<U, P>
    requires bit < MASK_BITS
  {
    Settle(e.(fl := Credit(e.fl, bit)), h, e.fl.tx.txackseq - bit, ByAck(rxseq))
  }

  /** One turn of the straggler loop that marks a new bit. */
  lemma StraggleStep<U, P>(e: End<U, P>, h: Upper<U, P>, bit: nat, rxseq: int)
    requires Good(e.fl) && bit < MASK_BITS && bit !in e.fl.tx.txackmask && bit <= e.fl.tx.txackseq
    ensures Good(StraggleTurn(e, h, bit, rxseq).fl) && Progress(e.fl, StraggleTurn(e, h, bit, rxseq).fl)
    ensures StraggleTurn(e, h, bit, rxseq).fl.tx.txackseq == e.fl.tx.txackseq
    ensures StraggleTurn(e, h, bit, rxseq).fl.tx.txackmask == e.fl.tx.txackmask + {bit}
    ensures StraggleTurn(e, h, bit, rxseq).fl.hist.credited == e.fl.hist.credited + [e.fl.tx.txackseq - bit]
  {
    hide Core, CcOk, MaskOk, Settle, Records, PipeAt, Window;
    var e1 := e.(fl := Credit(e.fl, bit));
    CreditOk(e.fl, bit);
    CreditCore(e.fl, bit);
    SettleCore(e1, h, e.fl.tx.txackseq - bit, ByAck(rxseq));
    MaskOkCalm(e1.fl, StraggleTurn(e, h, bit, rxseq).fl);
    CoreRecords(e1.fl);
    WindowCredit(e.fl, bit);
    WindowCalm(e1.fl, StraggleTurn(e, h, bit, rxseq).fl);
  }

  lemma ProgressTrans<P>(f: Flow<P>, g: Flow<P>, k: Flow<P>)
    requires Progress(f, g) && Progress(g, k)
    ensures Progress(f, k)
  {
  }

  /** From turn i on, the straggler loop would look for a record before number 0. */
  predicate LooksBeforeZero(t: Tx, i: nat, ackct: nat, back: nat) {
    exists bit :: back + i <= bit <= back + ackct && bit < MASK_BITS && bit !in t.txackmask && bit > t.txackseq
  }

  lemma LooksNow(t: Tx, i: nat, ackct: nat, back: nat)
    requires !LooksBeforeZero(t, i, ackct, back) && i <= ackct && back + i < MASK_BITS && back + i !in t.txackmask
    ensures back + i <= t.txackseq
  {
  }

  /** Marking the bit of turn i leaves the later turns as they were. */
  lemma LooksLater(t: Tx, t': Tx, i: nat, ackct: nat, back: nat)
    requires t'.txackseq == t.txackseq && (t'.txackmask == t.txackmask || t'.txackmask == t.txackmask + {back + i})
    requires back + i in t'.txackmask || back + i <= t.txackseq || i > ackct || back + i >= MASK_BITS
    ensures LooksBeforeZero(t', i + 1, ackct, back) <==> LooksBeforeZero(t, i + 1, ackct, back)
    ensures back + i in t.txackmask || back + i <= t.txackseq ==>
              (LooksBeforeZero(t, i, ackct, back) <==> LooksBeforeZero(t, i + 1, ackct, back))
  {
    if LooksBeforeZero(t', i + 1, ackct, back) {
      var bit :| back + i + 1 <= bit <= back + ackct && bit < MASK_BITS && bit !in t'.txackmask && bit > t'.txackseq;
      assert bit !in t.txackmask;
    }
    if LooksBeforeZero(t, i + 1, ackct, back) {
      var bit :| back + i + 1 <= bit <= back + ackct && bit < MASK_BITS && bit !in t.txackmask && bit > t.txackseq;
      assert bit !in t'.txackmask;
    }
  }

  /** Unless it looks before number 0, the loop stays inside the record queue; every number it counts
      lies in the acknowledged run and is counted once. */
  lemma {:induction false} StraggleCore<U, P>(
      e: End<U, P>, h: Upper<U, P>, i: nat, ackct: nat, back: nat, rxseq: int, cnt: nat)
    requires Good(e.fl) && !LooksBeforeZero(e.fl.tx, i, ackct, back)
    ensures Good(Straggle(e, h, i, ackct, back, rxseq, cnt).0.fl)
    ensures Progress(e.fl, Straggle(e, h, i, ackct, back, rxseq, cnt).0.fl)
    ensures Straggle(e, h, i, ackct, back, rxseq, cnt).0.fl.tx.txackseq == e.fl.tx.txackseq
    ensures Straggle(e, h, i, ackct, back, rxseq, cnt).1 - cnt
         == |Straggle(e, h, i, ackct, back, rxseq, cnt).0.fl.hist.credited| - |e.fl.hist.credited|
    ensures CreditsWithin(e.fl, Straggle(e, h, i, ackct, back, rxseq, cnt).0.fl,
                          e.fl.tx.txackseq - back - ackct, e.fl.tx.txackseq - back)
    decreases ackct + 1 - i
  {
    hide Good, Settle, Progress, LooksBeforeZero;
    if i <= ackct && back + i < MASK_BITS {
      if back + i in e.fl.tx.txackmask {
        LooksLater(e.fl.tx, e.fl.tx, i, ackct, back);
        StraggleCore(e, h, i + 1, ackct, back, rxseq, cnt);
      } else {
        var e1 := StraggleTurn(e, h, back + i, rxseq);
        LooksNow(e.fl.tx, i, ackct, back);
        StraggleStep(e, h, back + i, rxseq);
        LooksLater(e.fl.tx, e1.fl.tx, i, ackct, back);
        StraggleCore(e1, h, i + 1, ackct, back, rxseq, cnt + 1);
        ProgressTrans(e.fl, e1.fl, Straggle(e, h, i, ackct, back, rxseq, cnt).0.fl);
      }
    } else {
      ProgressRefl(e.fl);
    }
  }

  lemma ProgressRefl<P>(f: Flow<P>)
    ensures Progress(f, f)
  {
  }
}

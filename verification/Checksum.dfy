/** The Chk32 checksum (lib/chk32.cc, lib/chk32.h): two 64-bit counters that are reduced modulo
    65537 only once per long run of words. */
module Checksum {

  const MODULUS := 65537
  const MAX_RUN := 23726740
  const WORD64 := 0x1_0000_0000_0000_0000

  type Byte = b: int | 0 <= b < 256
  type Word = w: int | 0 <= w < 0x1_0000

  datatype Counters = Counters(a: nat, b: nat)

  // ---------- what the checksum means ----------

  /** The plain sums, reduced at every word. */
  function Plain(ws: seq<Word>): (c: Counters)
    ensures c.a < MODULUS && c.b < MODULUS
  {
    if ws == [] then Counters(0, 0)
    else
      var p := Plain(ws[..|ws| - 1]);
      var a := (p.a + ws[|ws| - 1]) % MODULUS;
      Counters(a, (p.b + a) % MODULUS)
  }

  function BigEndian(hi: Byte, lo: Byte): Word { hi * 256 + lo }

  /** Big-endian words of a byte string; an odd last byte is left out. */
  function PairUp(bytes: seq<Byte>): seq<Word> {
    if |bytes| < 2 then [] else [BigEndian(bytes[0], bytes[1])] + PairUp(bytes[2..])
  }

  function Padded(bytes: seq<Byte>): seq<Byte> {
    if |bytes| % 2 == 1 then bytes + [0x80] else bytes + [0x80, 0]
  }

  /** The low 16 bits of each counter. */
  function Fold(c: Counters): int {
    c.a % 0x1_0000 + (c.b % 0x1_0000) * 0x1_0000
  }

  function Sum32(bytes: seq<Byte>): int {
    Fold(Plain(PairUp(Padded(bytes))))
  }

  lemma {:induction false} PairUpConcat(x: seq<Byte>, y: seq<Byte>)
    requires |x| % 2 == 0
    ensures PairUp(x + y) == PairUp(x) + PairUp(y)
    decreases |x|
  {
    if x == [] {
      assert x + y == y;
    } else {
      assert (x + y)[2..] == x[2..] + y;
      PairUpConcat(x[2..], y);
    }
  }

  /** The words, one after the other. */
  lemma {:induction false} PairUpAt(bytes: seq<Byte>, i: nat)
    ensures |PairUp(bytes)| == |bytes| / 2
    ensures i < |bytes| / 2 ==> PairUp(bytes)[i] == 256 * (bytes[2 * i] as int) + (bytes[2 * i + 1] as int)
    decreases |bytes|
  {
    if |bytes| >= 2 {
      PairUpAt(bytes[2..], if i == 0 then 0 else i - 1);
    }
  }

  /** The padded string is even, starts with the string, and goes on with 0x80. */
  lemma PaddedShape(bytes: seq<Byte>)
    ensures |Padded(bytes)| == 2 * (|bytes| / 2 + 1)
    ensures bytes < Padded(bytes) && Padded(bytes)[|bytes|] == 0x80
    ensures |Padded(bytes)| > |bytes| + 1 ==> Padded(bytes)[|bytes| + 1] == 0
  {
  }

  function Total(ws: seq<Word>): nat {
    if ws == [] then 0 else Total(ws[..|ws| - 1]) + ws[|ws| - 1]
  }

  /** The sum of the running totals: each word counts as often as there are words from it on. */
  function Weighted(ws: seq<Word>): nat {
    if ws == [] then 0 else ws[0] * |ws| + Weighted(ws[1..])
  }

  function RunningTotals(ws: seq<Word>): nat {
    if ws == [] then 0 else RunningTotals(ws[..|ws| - 1]) + Total(ws)
  }

  lemma {:induction false} TotalFront(ws: seq<Word>)
    requires ws != []
    ensures Total(ws) == ws[0] + Total(ws[1..])
  {
    if |ws| > 1 {
      TotalFront(ws[..|ws| - 1]);
      assert ws[..|ws| - 1][1..] == ws[1..][..|ws| - 2];
    }
  }

  lemma {:induction false} RunningFront(ws: seq<Word>)
    requires ws != []
    ensures RunningTotals(ws) == ws[0] * |ws| + RunningTotals(ws[1..])
  {
    TotalFront(ws);
    if |ws| > 1 {
      var k := |ws| - 1;
      RunningFront(ws[..k]);
      assert ws[..k][1..] == ws[1..][..k - 1];
      assert ws[0] * |ws| == ws[0] * k + ws[0];
    } else {
      assert ws[..0] == [] && ws[1..] == [];
    }
  }

  lemma {:induction false} RunningWeighted(ws: seq<Word>)
    ensures RunningTotals(ws) == Weighted(ws)
  {
    if ws != [] {
      RunningFront(ws);
      RunningWeighted(ws[1..]);
    }
  }

  lemma {:induction false} PlainRunning(ws: seq<Word>)
    ensures Plain(ws).a == Total(ws) % MODULUS && Plain(ws).b == RunningTotals(ws) % MODULUS
  {
    if ws != [] {
      PlainRunning(ws[..|ws| - 1]);
      SumMod(Total(ws[..|ws| - 1]), RunningTotals(ws[..|ws| - 1]), ws[|ws| - 1]);
    }
  }

  /** The closed form: the low half of the checksum holds the sum of the words, the high half the sum
      weighted by position, each modulo 65537 and cut to 16 bits. */
  lemma ClosedForm(bytes: seq<Byte>)
    ensures Sum32(bytes) % 0x1_0000 == (Total(PairUp(Padded(bytes))) % MODULUS) % 0x1_0000
    ensures Sum32(bytes) / 0x1_0000 == (Weighted(PairUp(Padded(bytes))) % MODULUS) % 0x1_0000
  {
    hide Plain, PairUp, Padded, Total, Weighted, RunningTotals;
    PlainRunning(PairUp(Padded(bytes)));
    RunningWeighted(PairUp(Padded(bytes)));
  }

  // ---------- the counters between reductions ----------

  function Triangle(n: nat): nat {
    if n == 0 then 0 else Triangle(n - 1) + n
  }

  lemma {:induction false} TriangleForm(n: nat)
    ensures 2 * Triangle(n) == n * (n + 1)
  {
    if n > 0 { TriangleForm(n - 1); }
  }

  /** The largest b can be n words after a reduction. */
  function BoundB(n: nat): nat {
    65536 * (n + 1) + 65535 * Triangle(n)
  }

  function BoundA(n: nat): nat {
    65536 + 65535 * n
  }

  lemma {:induction false} BoundsGrow(m: nat, n: nat)
    requires m <= n
    ensures BoundB(m) <= BoundB(n) && BoundA(m) <= BoundA(n)
    decreases n - m
  {
    if m < n { BoundsGrow(m, n - 1); }
  }

  const LAST_SAFE := 23726745

  lemma BoundFits(n: nat)
    ensures BoundB(n) < WORD64 <==> n <= LAST_SAFE
  {
    TriangleForm(LAST_SAFE);
    TriangleForm(LAST_SAFE + 1);
    if n <= LAST_SAFE { BoundsGrow(n, LAST_SAFE); } else { BoundsGrow(LAST_SAFE + 1, n); }
  }

  /** n words added without any reduction or wrap-around. */
  function Raw(c: Counters, ws: seq<Word>): Counters {
    if ws == [] then c
    else
      var p := Raw(c, ws[..|ws| - 1]);
      Counters(p.a + ws[|ws| - 1], p.b + p.a + ws[|ws| - 1])
  }

  function Repeat(w: Word, n: nat): (ws: seq<Word>)
    ensures |ws| == n && forall i :: 0 <= i < n ==> ws[i] == w
  {
    if n == 0 then [] else Repeat(w, n - 1) + [w]
  }

  /** The bound is reached: the largest counters and the largest words. */
  lemma {:induction false} BoundReached(n: nat)
    ensures Raw(Counters(65536, 65536), Repeat(0xffff, n)) == Counters(BoundA(n), BoundB(n))
  {
    if n > 0 {
      BoundReached(n - 1);
      assert Repeat(0xffff, n)[..n - 1] == Repeat(0xffff, n - 1);
    }
  }

  /** No counters that were just reduced, and no words, exceed the bound. */
  lemma {:induction false} RawBounded(c: Counters, ws: seq<Word>)
    requires c.a < MODULUS && c.b < MODULUS
    ensures Raw(c, ws).a <= BoundA(|ws|) && Raw(c, ws).b <= BoundB(|ws|)
  {
    if ws != [] { RawBounded(c, ws[..|ws| - 1]); }
  }

  /** Whatever the reduced counters and the n words, adding them up stays within 64 bits. */
  ghost predicate HoldsIn64(n: nat) {
    forall c: Counters, ws: seq<Word> :: c.a < MODULUS && c.b < MODULUS && |ws| == n ==>
      Raw(c, ws).a < WORD64 && Raw(c, ws).b < WORD64
  }

  lemma {:induction false} BoundsOrder(n: nat)
    ensures BoundA(n) <= BoundB(n)
  {
    if n > 0 { BoundsOrder(n - 1); }
  }

  /** From reduced counters 64 bits suffice for exactly 23726745 words, one fewer than the source
      notes and five more than it uses. */
  lemma SafeRun(n: nat)
    ensures HoldsIn64(n) <==> n <= LAST_SAFE
  {
    hide Raw, BoundA, BoundB, Triangle;
    BoundFits(n);
    BoundsOrder(n);
    if n <= LAST_SAFE {
      forall c: Counters, ws: seq<Word> | c.a < MODULUS && c.b < MODULUS && |ws| == n
        ensures Raw(c, ws).a < WORD64 && Raw(c, ws).b < WORD64
      {
        RawBounded(c, ws);
      }
    } else {
      BoundReached(n);
      assert |Repeat(0xffff, n)| == n;
    }
  }

  /** Counters that agree with the plain sums, k words after a reduction. */
  ghost predicate Tracks(c: Counters, k: nat, ws: seq<Word>) {
    && c.a % MODULUS == Plain(ws).a && c.b % MODULUS == Plain(ws).b
    && c.a <= BoundA(k) && c.b <= BoundB(k)
  }

  lemma AddTracks(c: Counters, k: nat, ws: seq<Word>, w: Word)
    requires Tracks(c, k, ws) && k < MAX_RUN
    ensures c.b + c.a + w < WORD64
    ensures Tracks(Counters(c.a + w, c.b + c.a + w), k + 1, ws + [w])
  {
    hide Plain, BoundA, BoundB, Triangle;
    PlainAppend(ws, w);
    SumMod(c.a, c.b, w);
    BoundsStep(k);
    BoundsGrow(k + 1, LAST_SAFE);
    BoundFits(LAST_SAFE);
  }

  lemma SumMod(a: nat, b: nat, w: nat)
    ensures (a + w) % MODULUS == (a % MODULUS + w) % MODULUS
    ensures (b + a + w) % MODULUS == (b % MODULUS + (a + w) % MODULUS) % MODULUS
  {
  }

  lemma PlainAppend(ws: seq<Word>, w: Word)
    ensures Plain(ws + [w]).a == (Plain(ws).a + w) % MODULUS
    ensures Plain(ws + [w]).b == (Plain(ws).b + Plain(ws + [w]).a) % MODULUS
  {
    assert (ws + [w])[..|ws|] == ws;
  }

  lemma BoundsStep(k: nat)
    ensures BoundA(k + 1) == BoundA(k) + 65535
    ensures BoundB(k + 1) == BoundB(k) + BoundA(k) + 65535
  {
  }

  lemma ReduceTracks(c: Counters, k: nat, ws: seq<Word>)
    requires Tracks(c, k, ws)
    ensures Tracks(Counters(c.a % MODULUS, c.b % MODULUS), 0, ws)
    ensures Tracks(Counters(c.a % MODULUS, c.b % MODULUS), k, ws)
    ensures c.a % MODULUS == Plain(ws).a && c.b % MODULUS == Plain(ws).b
  {
    BoundsGrow(0, k);
  }

  lemma LowHalf(b: nat)
    requires b < MODULUS
    ensures (b * 0x1_0000) % 0x1_0000_0000 == (b % 0x1_0000) * 0x1_0000
  {
  }

  // ---------- the object ----------

  class Chk32 {
    var a: nat
    var b: nat
    var run: int
    var odd: Byte
    var haveodd: bool
    ghost var words: seq<Word>   // words taken in so far
    ghost var fed: seq<Byte>     // bytes taken in so far

    ghost predicate Tracking() reads this {
      0 <= run <= MAX_RUN && Tracks(Counters(a, b), MAX_RUN - run, words)
    }

    ghost predicate Valid() reads this {
      && Tracking()
      && (haveodd <==> |fed| % 2 == 1)
      && (if haveodd then odd == fed[|fed| - 1] && words == PairUp(fed[..|fed| - 1]) else words == PairUp(fed))
    }

    constructor ()
      ensures Valid() && fed == []
    {
      a, b, run, odd, haveodd, words, fed := 0, 0, MAX_RUN, 0, false, [], [];
    }

    /** One word, on 64-bit counters that wrap around. */
    method Add(w: Word, ghost k: nat)
      requires Tracks(Counters(a, b), k, words) && k < MAX_RUN
      modifies this`a, this`b, this`words
      ensures Tracks(Counters(a, b), k + 1, words) && words == old(words) + [w]
      ensures a == old(a) + w && b == old(b) + a
    {
      AddTracks(Counters(a, b), k, words, w);
      a := (a + w) % WORD64;
      b := (b + a) % WORD64;
      words := words + [w];
    }

    method Update16(ws: seq<Word>)
      requires Tracking()
      modifies this`a, this`b, this`run, this`words
      ensures Tracking() && words == old(words) + ws
    {
      hide Tracks;
      var done := 0;
      while |ws| - done > run
        invariant Tracking() && 0 <= done <= |ws|
        invariant words == old(words) + ws[..done]
        decreases |ws| - done, MAX_RUN - run
      {
        done := AddRun(ws, done, run, MAX_RUN - run);
        ReduceTracks(Counters(a, b), MAX_RUN, words);
        run := MAX_RUN;
        a := a % MODULUS;
        b := b % MODULUS;
      }
      var nwords := |ws| - done;
      run := run - nwords;
      done := AddRun(ws, done, nwords, MAX_RUN - run - nwords);
      assert ws[..done] == ws;
    }

    /** The inner loops of update16: n words, k words after the last reduction. */
    method AddRun(ws: seq<Word>, start: nat, n: nat, ghost k: nat) returns (done: nat)
      requires Tracks(Counters(a, b), k, words) && k + n <= MAX_RUN && start + n <= |ws|
      modifies this`a, this`b, this`words
      ensures Tracks(Counters(a, b), k + n, words) && done == start + n
      ensures words == old(words) + ws[start..done]
    {
      hide Tracks;
      done := start;
      while done < start + n
        invariant start <= done <= start + n
        invariant Tracks(Counters(a, b), k + done - start, words) && words == old(words) + ws[start..done]
      {
        Add(ws[done], k + done - start);
        assert ws[start..done + 1] == ws[start..done] + [ws[done]];
        done := done + 1;
      }
    }

    method Final16() returns (r: int)
      requires Tracking()
      modifies this`a, this`b
      ensures Tracking() && r == Fold(Plain(words))
    {
      hide Tracks;
      ReduceTracks(Counters(a, b), MAX_RUN - run, words);
      a := a % MODULUS;
      b := b % MODULUS;
      LowHalf(b);
      r := a % 0x1_0000 + (b * 0x1_0000) % 0x1_0000_0000;
    }

    /** update(): however the bytes are handed over, the words are those of the whole string. */
    method Update(data: seq<Byte>)
      requires Valid()
      modifies this
      ensures Valid() && fed == old(fed) + data
    {
      hide Tracks, PairUp, BigEndian;
      if data == [] { return; }
      var bytes := data;
      if haveodd {
        Update16([BigEndian(odd, bytes[0])]);
        TakeOdd(fed, bytes[0]);
        fed := fed + [bytes[0]];
        bytes := bytes[1..];
        haveodd := false;
      }
      assert fed + bytes == old(fed) + data;
      TakeEven(bytes);
    }

    /** The rest of update(), when no odd byte waits. */
    method TakeEven(bytes: seq<Byte>)
      requires Valid() && !haveodd
      modifies this
      ensures Valid() && fed == old(fed) + bytes
    {
      hide Tracks, PairUp, BigEndian;
      var even := |bytes| / 2 * 2;
      Update16(PairUp(bytes[..even]));
      PairUpConcat(fed, bytes[..even]);
      ghost var base := fed;
      fed := fed + bytes;
      if |bytes| % 2 == 1 {
        haveodd := true;
        odd := bytes[|bytes| - 1];
        assert fed[..|fed| - 1] == base + bytes[..even];
      } else {
        assert bytes[..even] == bytes;
      }
    }

    method Final() returns (r: int)
      requires Valid()
      modifies this
      ensures r == Sum32(old(fed))
    {
      hide Tracks, PairUp, BigEndian, Plain, Fold;
      if haveodd {
        TakeOdd(fed, 0x80);
        Update16([BigEndian(odd, 0x80)]);
      } else {
        PairUpConcat(fed, [0x80, 0]);
        OnePair(0x80, 0);
        Update16([BigEndian(0x80, 0)]);
      }
      assert words == PairUp(Padded(fed));
      r := Final16();
    }
  }

  lemma TakeOdd(fed: seq<Byte>, x: Byte)
    requires |fed| % 2 == 1
    ensures PairUp(fed + [x]) == PairUp(fed[..|fed| - 1]) + [BigEndian(fed[|fed| - 1], x)]
  {
    hide PairUp, BigEndian;
    var whole, last := fed[..|fed| - 1], fed[|fed| - 1];
    assert fed + [x] == whole + [last, x];
    PairUpConcat(whole, [last, x]);
    OnePair(last, x);
  }

  lemma OnePair(x: Byte, y: Byte)
    ensures PairUp([x, y]) == [BigEndian(x, y)]
  {
    hide BigEndian;
    var two: seq<Byte> := [x, y];
    assert two[2..] == [];
  }

  function Concat(chunks: seq<seq<Byte>>): seq<Byte> {
    if chunks == [] then [] else Concat(chunks[..|chunks| - 1]) + chunks[|chunks| - 1]
  }

  /** Any split of a byte string into update() calls gives the same checksum. */
  method SumOfChunks(chunks: seq<seq<Byte>>) returns (r: int)
    ensures r == Sum32(Concat(chunks))
  {
    var c := new Chk32();
    var i := 0;
    while i < |chunks|
      invariant 0 <= i <= |chunks| && fresh(c) && c.Valid() && c.fed == Concat(chunks[..i])
    {
      c.Update(chunks[i]);
      assert chunks[..i + 1][..i] == chunks[..i];
      i := i + 1;
    }
    assert chunks[..i] == chunks;
    r := c.Final();
  }
}

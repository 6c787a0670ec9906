/** Machine words of the flow layer: signed and unsigned reinterpretation, 32-bit masks,
    and the 24-bit wire form of 64-bit packet numbers (lib/flow.h, lib/flow.cc). */
module Words {

  const WORD16 := 0x1_0000
  const SEQ24 := 0x100_0000
  const HALF24 := 0x80_0000
  const WORD32 := 0x1_0000_0000
  const WORD64 := 0x1_0000_0000_0000_0000
  const MASK_BITS := 32
  const ACKCT_MAX := 15

  // ---------- masks ----------

  /** A 32-bit mask word, given by the positions of its one bits. */
  type Mask = m: set<int> | forall i :: i in m ==> 0 <= i < MASK_BITS witness {}

  /** m << d: bits pushed past position 31 are lost. */
  function Shl(m: Mask, d: nat): (r: Mask)
    ensures forall i :: i in r <==> d <= i < MASK_BITS && i - d in m
  {
    set i | i in Ones(MASK_BITS) && i - d in m
  }

  /** m | (1 << k) */
  function SetBit(m: Mask, k: nat): Mask
    requires k < MASK_BITS
  {
    m + {k}
  }

  /** (1 << n) - 1 */
  function Ones(n: nat): (r: Mask)
    requires n <= MASK_BITS
    ensures forall i :: i in r <==> 0 <= i < n
  {
    if n == 0 then {} else Ones(n - 1) + {n - 1}
  }

  // ---------- 24-bit wire numbers ----------

  /** The low 32 bits of x, read as a qint32. */
  function Signed32(x: int): int {
    var w := x % WORD32;
    if w < 0x8000_0000 then w else w - WORD32
  }

  /** ((qint32)(word << 8) - ((qint32)ref << 8)) >> 8, the shift being arithmetic. */
  function SeqDiff(word: int, ref: int): int {
    Signed32(Signed32(word * 256) - Signed32(ref * 256)) / 256
  }

  /** The 64-bit number a receiver at ref reads from a header word. */
  function Recover(word: int, ref: int): nat {
    (ref + SeqDiff(word, ref)) % WORD64
  }

  /** A signed reading differs from the number by a multiple of 2^32. */
  lemma SignedWraps(x: int)
    ensures Signed32(x) == x - WORD32 * ((x + 0x8000_0000) / WORD32)
  {
  }

  /** The shifts and subtractions on 32-bit words compute the signed 24-bit distance. */
  lemma SeqDiffMeaning(word: int, ref: int)
    ensures SeqDiff(word, ref) == (word - ref + HALF24) % SEQ24 - HALF24
  {
    hide Signed32;
    var a, b := Signed32(word * 256), Signed32(ref * 256);
    SignedWraps(word * 256);
    SignedWraps(ref * 256);
    SignedWraps(a - b);
  }

  /** A packet's number is recovered from its 24 wire bits exactly when it lies, on the
      64-bit circle, in [ref - 2^23, ref + 2^23); the channel byte above bit 24 plays no part. */
  lemma RecoverExact(n: int, chan: nat, ref: int)
    requires 0 <= n < WORD64
    ensures Recover(n % SEQ24 + chan * SEQ24, ref) == n
       <==> (n - ref + HALF24) % WORD64 < SEQ24
  {
    hide SeqDiff;
    SeqDiffMeaning(n % SEQ24 + chan * SEQ24, ref);
    assert SeqDiff(n % SEQ24 + chan * SEQ24, ref) == (n - ref + HALF24) % SEQ24 - HALF24;
    Circle(n, ref);
  }

  lemma Circle(n: int, ref: int)
    requires 0 <= n < WORD64
    ensures (ref + (n - ref + HALF24) % SEQ24 - HALF24) % WORD64 == n <==> (n - ref + HALF24) % WORD64 < SEQ24
  {
    var x := n - ref + HALF24;
    assert ref + x % SEQ24 - HALF24 == n - x + x % SEQ24;
  }

  // ---------- the acknowledgment word ----------

  /** Second header word: 4 bits of count above 24 bits of number. */
  function PackAck(ackseq: nat, ackct: nat): nat {
    ackct * SEQ24 + ackseq % SEQ24
  }

  function AckCount(word: nat): nat {
    (word / SEQ24) % 16
  }

  lemma PackAckFields(ackseq: nat, ackct: nat)
    requires ackct <= ACKCT_MAX
    ensures AckCount(PackAck(ackseq, ackct)) == ackct
    ensures PackAck(ackseq, ackct) % SEQ24 == ackseq % SEQ24
  {
  }
}

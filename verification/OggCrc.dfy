/** The Ogg page checksum: a table-driven loop and the polynomial division it stands for. */
module OggCrc {
  import opened Bits

  /** A 32-bit word, most significant bit first. */
  type Word = w: Bits | |w| == 32 witness Zeros(32)

  // Throughout, `g` holds the low 32 coefficients of the generator x^32 + g.

  // ----- Reference: schoolbook long division over GF(2) -----

  /** One step of long division: cancel the leading bit of the dividend and drop it. */
  function Reduce(g: Word, d: Bits): (e: Bits)
    requires |d| > 32
    ensures |e| == |d| - 1
  {
    if d[0] then Xor(d[1..33], g) + d[33..] else d[1..]
  }

  /** Remainder of the dividend `d` after division by x^32 + g. */
  function Rem(g: Word, d: Bits): (r: Word)
    requires |d| >= 32
    decreases |d|
  {
    if |d| == 32 then d else Rem(g, Reduce(g, d))
  }

  /** The checksum of a message: the remainder of message * x^32. */
  function Crc(g: Word, message: Bits): (r: Word) {
    Rem(g, message + Zeros(32))
  }

  /** The generator times `b` * x^n. */
  function Lead(g: Word, b: bool, n: nat): (d: Bits)
    ensures |d| == n + 33
    ensures d[0] == b
  {
    if b then [true] + g + Zeros(n) else Zeros(n + 33)
  }

  /** The product of the quotient `q` and x^32 + g. */
  function Times(g: Word, q: Bits): (d: Bits)
    ensures |d| == |q| + 32
  {
    if q == [] then Zeros(32) else Xor(Lead(g, q[0], |q| - 1), [false] + Times(g, q[1..]))
  }

  ghost predicate Divides(g: Word, d: Bits, q: Bits, r: Word) {
    |d| == |q| + 32 && d == Xor(Times(g, q), Zeros(|q|) + r)
  }

  function Quotient(g: Word, d: Bits): (q: Bits)
    requires |d| >= 32
    ensures |q| == |d| - 32
    decreases |d|
  {
    if |d| == 32 then [] else [d[0]] + Quotient(g, Reduce(g, d))
  }

  lemma ReduceCancels(g: Word, d: Bits)
    requires |d| > 32
    ensures d == Xor(Lead(g, d[0], |d| - 33), [false] + Reduce(g, d))
  {
    hide Xor, Zeros;
    var n := |d| - 33;
    if d[0] {
      assert d == [true] + d[1..33] + d[33..];
      assert Xor([true] + g + Zeros(n), [false] + (Xor(d[1..33], g) + d[33..])) == [true] + d[1..33] + d[33..];
    } else {
      assert Xor(Zeros(n + 33), [false] + d[1..]) == d;
    }
  }

  lemma XorAssociative(a: Bits, b: Bits, c: Bits)
    requires |a| == |b| == |c|
    ensures Xor(a, Xor(b, c)) == Xor(Xor(a, b), c)
  {
  }

  lemma XorCancel(a: Bits, b: Bits, c: Bits)
    requires |a| == |b| == |c|
    requires Xor(a, b) == Xor(a, c)
    ensures b == c
  {
    forall i | 0 <= i < |a|
      ensures b[i] == c[i]
    {
      assert Xor(a, b)[i] == Xor(a, c)[i];
    }
  }

  /** The right-hand side of a division, with its first step split off. */
  lemma DividesSplit(g: Word, q: Bits, r: Word)
    requires q != []
    ensures Xor(Times(g, q), Zeros(|q|) + r)
         == Xor(Lead(g, q[0], |q| - 1), [false] + Xor(Times(g, q[1..]), Zeros(|q| - 1) + r))
  {
    var n, t := |q| - 1, Times(g, q[1..]);
    assert Times(g, q) == Xor(Lead(g, q[0], n), [false] + t);
    hide Times, Lead, Xor;
    assert Zeros(n + 1) + r == [false] + (Zeros(n) + r);
    assert [false] + Xor(t, Zeros(n) + r) == Xor([false] + t, [false] + (Zeros(n) + r));
    XorAssociative(Lead(g, q[0], n), [false] + t, [false] + (Zeros(n) + r));
  }

  lemma {:induction false} RemIsRemainder(g: Word, d: Bits)
    requires |d| >= 32
    ensures Divides(g, d, Quotient(g, d), Rem(g, d))
    decreases |d|
  {
    hide Quotient, Rem, Times, Lead, Reduce, Xor, Zeros;
    if |d| == 32 {
      DividesShort(g, d);
    } else {
      DivideFirst(g, d);
      RemIsRemainder(g, Reduce(g, d));
      ReduceCancels(g, d);
      DividesSplit(g, Quotient(g, d), Rem(g, d));
    }
  }

  lemma DividesShort(g: Word, d: Bits)
    requires |d| == 32
    ensures Divides(g, d, Quotient(g, d), Rem(g, d))
  {
    assert d == Xor(Times(g, []), Zeros(0) + d);
  }

  lemma DivideFirst(g: Word, d: Bits)
    requires |d| > 32
    ensures var q, e := Quotient(g, d), Reduce(g, d);
      q[0] == d[0] && q[1..] == Quotient(g, e) && Rem(g, d) == Rem(g, e)
  {
    hide Reduce;
  }

  /** Quotient and remainder are determined by the dividend. */
  lemma {:induction false} DivisionUnique(g: Word, d: Bits, q1: Bits, r1: Word, q2: Bits, r2: Word)
    requires Divides(g, d, q1, r1) && Divides(g, d, q2, r2)
    ensures q1 == q2 && r1 == r2
    decreases |q1|
  {
    if q1 == [] {
      assert Zeros(0) + r1 == r1 && Zeros(0) + r2 == r2;
      XorCancel(Zeros(32), r1, r2);
    } else {
      DividesSplit(g, q1, r1);
      DividesSplit(g, q2, r2);
      hide Lead, Times, Xor, Zeros;
      var n := |q1| - 1;
      var e1, e2 := Xor(Times(g, q1[1..]), Zeros(n) + r1), Xor(Times(g, q2[1..]), Zeros(n) + r2);
      assert d[0] == q1[0] && d[0] == q2[0];
      XorCancel(Lead(g, d[0], n), [false] + e1, [false] + e2);
      assert e1 == ([false] + e1)[1..] == ([false] + e2)[1..] == e2;
      DivisionUnique(g, e1, q1[1..], r1, q2[1..], r2);
      assert q1 == [d[0]] + q1[1..] && q2 == [d[0]] + q2[1..];
    }
  }

  /** The checksum is the one and only remainder of message * x^32. */
  lemma CrcIsPolynomialRemainder(g: Word, message: Bits, q: Bits, r: Word)
    ensures Divides(g, message + Zeros(32), Quotient(g, message + Zeros(32)), Crc(g, message))
    ensures Divides(g, message + Zeros(32), q, r) ==> r == Crc(g, message)
  {
    var d := message + Zeros(32);
    RemIsRemainder(g, d);
    if Divides(g, d, q, r) {
      DivisionUnique(g, d, q, r, Quotient(g, d), Rem(g, d));
    }
  }

  // ----- Algebra of the remainder -----

  lemma {:induction false} RemLinear(g: Word, a: Bits, b: Bits)
    requires |a| == |b| >= 32
    ensures Rem(g, Xor(a, b)) == Xor(Rem(g, a), Rem(g, b))
    decreases |a|
  {
    if |a| > 32 {
      assert Reduce(g, Xor(a, b)) == Xor(Reduce(g, a), Reduce(g, b));
      RemLinear(g, Reduce(g, a), Reduce(g, b));
    }
  }

  /** Dividing a prefix first does not change the remainder. */
  lemma {:induction false} RemPrefix(g: Word, d: Bits, e: Bits)
    requires |d| >= 32
    ensures Rem(g, d + e) == Rem(g, Rem(g, d) + e)
    decreases |d|
  {
    if |d| > 32 {
      assert (d + e)[1..33] == d[1..33] && (d + e)[33..] == d[33..] + e;
      assert Reduce(g, d + e) == Reduce(g, d) + e;
      RemPrefix(g, Reduce(g, d), e);
    }
  }

  lemma {:induction false} RemLeadingZeros(g: Word, n: nat, d: Bits)
    requires |d| >= 32
    ensures Rem(g, Zeros(n) + d) == Rem(g, d)
    decreases n
  {
    if n == 0 {
      assert Zeros(0) + d == d;
    } else {
      assert (Zeros(n) + d)[1..] == Zeros(n - 1) + d;
      RemLeadingZeros(g, n - 1, d);
    }
  }

  // ----- The shift register -----

  /** Shift left by one, and subtract the generator when a bit falls out. */
  function BitStep(g: Word, w: Word): (r: Word) {
    if w[0] then Xor(w[1..] + [false], g) else w[1..] + [false]
  }

  function BitSteps(g: Word, w: Word, n: nat): (r: Word)
    decreases n
  {
    if n == 0 then w else BitSteps(g, BitStep(g, w), n - 1)
  }

  lemma {:induction false} BitStepsIsRem(g: Word, w: Word, n: nat)
    ensures BitSteps(g, w, n) == Rem(g, w + Zeros(n))
    decreases n
  {
    if n == 0 {
      assert w + Zeros(0) == w;
    } else {
      var d := w + Zeros(n);
      assert d[1..33] == w[1..] + [false];
      assert d[33..] == Zeros(n - 1);
      assert Reduce(g, d) == BitStep(g, w) + Zeros(n - 1);
      BitStepsIsRem(g, BitStep(g, w), n - 1);
    }
  }

  lemma {:induction false} BitStepsKeepNonzero(g: Word, w: Word, n: nat)
    requires g[31] && w != Zeros(32)
    ensures BitSteps(g, w, n) != Zeros(32)
    decreases n
  {
    if n > 0 {
      assert BitStep(g, w) != Zeros(32) by {
        if w[0] {
          assert BitStep(g, w)[31] == g[31];
        } else {
          var i :| 0 <= i < 32 && w[i] != Zeros(32)[i];
          assert BitStep(g, w)[i - 1] == w[i];
        }
      }
      BitStepsKeepNonzero(g, BitStep(g, w), n - 1);
    }
  }

  // ----- The table-driven loop -----

  function TableEntry(g: Word, index: Bits): (r: Word)
    requires |index| == 8
  {
    Rem(g, index + Zeros(32))
  }

  lemma TableEntryIsEightSteps(g: Word, index: Bits)
    requires |index| == 8
    ensures BitSteps(g, index + Zeros(24), 8) == TableEntry(g, index)
  {
    BitStepsIsRem(g, index + Zeros(24), 8);
    assert index + Zeros(24) + Zeros(8) == index + Zeros(32);
  }

  ghost predicate IsCrcTable(g: Word, table: seq<Word>) {
    |table| == 256 && forall i :: 0 <= i < 256 ==> table[i] == TableEntry(g, ByteBits(i))
  }

  /** One shift of the register divides it by the generator once more. */
  method ShiftWord(g: Word, w: Word) returns (value: Word)
    ensures value == Rem(g, w + [false])
    ensures value == BitStep(g, w)
  {
    BitStepsIsRem(g, w, 1);
    assert Zeros(1) == [false] && BitSteps(g, w, 1) == BitSteps(g, BitStep(g, w), 0);
    hide Rem;
    if w[0] {
      value := Xor(w[1..] + [false], g);
    } else {
      value := w[1..] + [false];
    }
  }

  method BuildCrcTable(g: Word) returns (table: array<Word>)
    ensures fresh(table) && IsCrcTable(g, table[..])
  {
    hide Rem, ByteBits;
    table := new Word[256](_ => Zeros(32));
    for index := 0 to 256
      invariant forall i :: 0 <= i < index ==> table[i] == TableEntry(g, ByteBits(i))
    {
      var value: Word := ByteBits(index) + Zeros(24);
      TableEntryIsEightSteps(g, ByteBits(index));
      for k := 0 to 8
        invariant BitSteps(g, value, 8 - k) == TableEntry(g, ByteBits(index))
        modifies {}
      {
        value := ShiftWord(g, value);
      }
      assert value == TableEntry(g, ByteBits(index));
      table[index] := value;
    }
  }

  /** Appending `v` to the message divides the old register and `v` together. */
  lemma CrcAppend(g: Word, message: Bits, v: Bits)
    ensures |v| == 8 ==> Crc(g, message + v) == Rem(g, Xor(Crc(g, message) + Zeros(8), v + Zeros(32)))
  {
    hide Rem, Xor, Zeros;
    if |v| == 8 {
      var a, b := message + Zeros(32) + Zeros(8), Zeros(|message|) + (v + Zeros(32));
      assert message + v + Zeros(32) == Xor(a, b);
      RemLinear(g, a, b);
      RemPrefix(g, message + Zeros(32), Zeros(8));
      RemLeadingZeros(g, |message|, v + Zeros(32));
      RemLinear(g, Crc(g, message) + Zeros(8), v + Zeros(32));
    }
  }

  /** One byte of the loop: the register moves on by eight bits of the message. */
  lemma CrcAppendByte(g: Word, message: Bits, v: Bits)
    requires |v| == 8
    ensures var r := Crc(g, message);
            Crc(g, message + v) == Xor(r[8..] + Zeros(8), TableEntry(g, Xor(r[..8], v)))
  {
    CrcAppend(g, message, v);
    hide Rem, Crc, Xor, Zeros;
    var r := Crc(g, message);
    var index, shifted := Xor(r[..8], v), Zeros(8) + (r[8..] + Zeros(8));
    assert Xor(r + Zeros(8), v + Zeros(32)) == Xor(shifted, index + Zeros(32));
    RemLinear(g, shifted, index + Zeros(32));
    RemLeadingZeros(g, 8, r[8..] + Zeros(8));
    RemShort(g, r[8..] + Zeros(8));
  }

  lemma RemShort(g: Word, w: Word)
    ensures Rem(g, w) == w
  {
  }

  /** The page with its checksum field, bytes 22 to 25, read as zero. */
  function Unsealed(page: seq<byte>): (p: seq<byte>)
    ensures |p| == |page|
  {
    seq(|page|, i requires 0 <= i < |page| => if 22 <= i < 26 then 0 else page[i])
  }

  function PageCrc(g: Word, page: seq<byte>): (r: Word) {
    Crc(g, Flatten(Unsealed(page)))
  }

  lemma CrcEmpty(g: Word)
    ensures Crc(g, []) == Zeros(32)
  {
    assert [] + Zeros(32) == Zeros(32);
  }

  method OggCrc(g: Word, page: seq<byte>, table: seq<Word>) returns (crc: Word)
    requires IsCrcTable(g, table)
    ensures crc == PageCrc(g, page)
  {
    hide Rem, ByteBits;
    crc := Zeros(32);
    ghost var p := Unsealed(page);
    CrcEmpty(g);
    for index := 0 to |page|
      invariant crc == Crc(g, Flatten(p[..index]))
    {
      var value: byte := page[index];
      if 22 <= index < 26 {
        value := 0;
      }
      var entry := Xor(crc[..8], ByteBits(value));
      ByteOfBits(entry);
      crc := Xor(crc[8..] + Zeros(8), table[ToNat(entry)]);
      CrcAppendByte(g, Flatten(p[..index]), ByteBits(value));
      FlattenNext(p, index);
    }
    assert p[..|page|] == p;
  }

  // ----- What the checksum detects -----

  /** The checksum is linear: the checksum of a difference is the difference of the checksums. */
  lemma CrcLinear(g: Word, a: Bits, b: Bits)
    requires |a| == |b|
    ensures Crc(g, Xor(a, b)) == Xor(Crc(g, a), Crc(g, b))
  {
    assert Xor(a, b) + Zeros(32) == Xor(a + Zeros(32), b + Zeros(32));
    RemLinear(g, a + Zeros(32), b + Zeros(32));
  }

  /** Two messages that differ, and only inside one window of 32 bits, never share a checksum. */
  lemma BurstDetected(g: Word, a: Bits, b: Bits, k: nat)
    requires |a| == |b| && k + 32 <= |a|
    requires a[..k] == b[..k] && a[k + 32..] == b[k + 32..]
    requires g[31] && a != b
    ensures Crc(g, a) != Crc(g, b)
  {
    hide Rem, BitSteps, Xor, Zeros;
    var error := Xor(a, b);
    var window: Word := error[k..k + 32];
    var rest := |a| - (k + 32);
    assert error == Zeros(k) + window + Zeros(rest) by {
      forall i | k + 32 <= i < |a|
        ensures a[i] == b[i]
      {
        assert a[k + 32..][i - (k + 32)] == b[k + 32..][i - (k + 32)];
      }
      assert forall i :: 0 <= i < k ==> a[..k][i] == b[..k][i];
    }
    assert window != Zeros(32) by {
      var i :| 0 <= i < |a| && a[i] != b[i];
      assert error[i] && window[i - k];
    }
    assert error + Zeros(32) == Zeros(k) + (window + Zeros(rest + 32));
    CrcLinear(g, a, b);
    RemLeadingZeros(g, k, window + Zeros(rest + 32));
    BitStepsIsRem(g, window, rest + 32);
    BitStepsKeepNonzero(g, window, rest + 32);
    var i :| 0 <= i < 32 && Xor(Crc(g, a), Crc(g, b))[i] != Zeros(32)[i];
  }

  /**
   * Two pages of one length that agree outside four consecutive bytes, and differ somewhere
   * outside the checksum field, never share a checksum.
   */
  lemma PageBurstDetected(g: Word, a: seq<byte>, b: seq<byte>, k: nat, at: nat)
    requires g[31] && |a| == |b| && k + 4 <= |a|
    requires forall i :: 0 <= i < |a| && !(k <= i < k + 4) ==> a[i] == b[i]
    requires at < |a| && a[at] != b[at] && !(22 <= at < 26)
    ensures PageCrc(g, a) != PageCrc(g, b)
  {
    hide Rem, ByteBits, Flatten;
    var p, q := Unsealed(a), Unsealed(b);
    assert p[..k] == q[..k] && p[k + 4..] == q[k + 4..];
    var x, y := Flatten(p), Flatten(q);
    FlattenSplit(p, k);
    FlattenSplit(q, k);
    FlattenSplit(p, k + 4);
    FlattenSplit(q, k + 4);
    assert x != y by {
      FlattenAt(p, at);
      FlattenAt(q, at);
      if ByteBits(p[at]) == ByteBits(q[at]) {
        ByteBitsInjective(p[at], q[at]);
      }
    }
    BurstDetected(g, x, y, 8 * k);
  }
}

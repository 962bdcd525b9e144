/** `bcrypt_salt` (`backend/src/util/user_input.cpp`): 16 random bytes repacked into 22
    characters of six bits, proved to be a change of base. */
module BcryptSalt {
  import opened Bits

  const PREFIX: string := "$2b$12$"

  /** The alphabet `./A-Za-z0-9`. */
  function Letter(d: Sextet): char {
    if d == 0 then '.'
    else if d == 1 then '/'
    else if d < 28 then ('A' as int + d - 2) as char
    else if d < 54 then ('a' as int + d - 28) as char
    else ('0' as int + d - 54) as char
  }

  /** Point, slash, and the three runs of letters and digits, each in order. */
  lemma LettersInOrder()
    ensures Letter(0) == '.' && Letter(1) == '/'
    ensures Letter(2) == 'A' && Letter(27) == 'Z' && Letter(28) == 'a' && Letter(53) == 'z'
    ensures Letter(54) == '0' && Letter(63) == '9'
    ensures forall d: Sextet | d < 63 && d !in {0, 1, 27, 53} :: Letter(d + 1) as int == Letter(d) as int + 1
  {
  }

  lemma LetterInjective(a: Sextet, b: Sextet)
    requires Letter(a) == Letter(b)
    ensures a == b
  {
  }

  function Letters(digits: seq<Sextet>): string {
    seq(|digits|, i requires 0 <= i < |digits| => Letter(digits[i]))
  }

  /** Bytes as a number, least significant byte first. */
  function ByteValue(raw: seq<Byte>): nat {
    if raw == [] then 0 else ByteValue(raw[..|raw| - 1]) + raw[|raw| - 1] * Pow2(8 * (|raw| - 1))
  }

  /** Sextets as a number, least significant sextet first. */
  function SextetValue(digits: seq<Sextet>): nat {
    if digits == [] then 0
    else SextetValue(digits[..|digits| - 1]) + digits[|digits| - 1] * Pow2(6 * (|digits| - 1))
  }

  // ---------------------------------------------------------------------------------
  // Bitwise or
  // ---------------------------------------------------------------------------------

  function BitOr(a: nat, b: nat): nat
    decreases a + b
  {
    if a == 0 && b == 0 then 0
    else (if a % 2 == 1 || b % 2 == 1 then 1 else 0) + 2 * BitOr(a / 2, b / 2)
  }

  /** Or-ing a value shifted past another adds it. */
  lemma {:induction false} OrDisjoint(a: nat, b: nat, k: nat)
    requires a < Pow2(k)
    ensures BitOr(a, b * Pow2(k)) == a + b * Pow2(k)
    decreases k, b
  {
    if k == 0 {
      assert b * Pow2(0) == b;
      OrZero(b);
    } else {
      var shifted := b * Pow2(k);
      Halve(b, k);
      OrDisjoint(a / 2, b, k - 1);
      if a == 0 && shifted == 0 {
      } else {
        assert shifted % 2 == 0 && shifted / 2 == b * Pow2(k - 1);
        assert BitOr(a, shifted) == a % 2 + 2 * BitOr(a / 2, shifted / 2);
      }
    }
  }

  lemma Halve(b: nat, k: nat)
    requires k > 0
    ensures b * Pow2(k) == 2 * (b * Pow2(k - 1))
  {
    assert b * (2 * Pow2(k - 1)) == 2 * (b * Pow2(k - 1));
  }

  lemma {:induction false} OrZero(b: nat)
    ensures BitOr(0, b) == b
    decreases b
  {
    if b > 0 {
      OrZero(b / 2);
    }
  }

  lemma Regroup(acc: nat, ch: nat, p: nat, w: nat)
    ensures (acc + ch * p) * w == acc * w + ch * (p * w)
  {
  }

  lemma ByteBelow(acc: nat, ch: nat, p: nat)
    requires acc < p && ch <= 255
    ensures acc + ch * p < p * 256
  {
    MulMono(ch, 255, p);
  }

  // ---------------------------------------------------------------------------------
  // Repacking
  // ---------------------------------------------------------------------------------

  /** What the loop holds after `bytes` bytes: emitted sextets and accumulator spell them. */
  ghost predicate Spells(bytes: seq<Byte>, digits: seq<Sextet>, acc: nat, bits: nat) {
    && bits + 6 * |digits| == 8 * |bytes|
    && acc < Pow2(bits)
    && ByteValue(bytes) == SextetValue(digits) + acc * Pow2(6 * |digits|)
  }

  lemma TakeByte(bytes: seq<Byte>, digits: seq<Sextet>, acc: nat, bits: nat, ch: Byte)
    requires Spells(bytes, digits, acc, bits)
    ensures Spells(bytes + [ch], digits, BitOr(acc, ch * Pow2(bits)), bits + 8)
  {
    assert Pow2(8) == 256;
    hide Pow2, BitOr, SextetValue;
    assert (bytes + [ch])[..|bytes|] == bytes;
    OrDisjoint(acc, ch, bits);
    Pow2Add(bits, 6 * |digits|);
    Regroup(acc, ch, Pow2(bits), Pow2(6 * |digits|));
    Pow2Add(bits, 8);
    ByteBelow(acc, ch, Pow2(bits));
  }

  lemma EmitDigit(bytes: seq<Byte>, digits: seq<Sextet>, acc: nat, bits: nat)
    requires Spells(bytes, digits, acc, bits) && bits >= 6
    ensures Spells(bytes, digits + [acc % 64], acc / 64, bits - 6)
  {
    assert Pow2(6) == 64;
    hide Pow2, ByteValue;
    assert (digits + [acc % 64])[..|digits|] == digits;
    Pow2Add(6 * |digits|, 6);
    Pow2Add(bits - 6, 6);
    LowDigit(acc, Pow2(6 * |digits|), Pow2(bits - 6));
    assert 6 * |digits + [acc % 64]| == 6 * |digits| + 6;
  }

  lemma LowDigit(acc: nat, w: nat, high: nat)
    requires acc < 64 * high
    ensures acc * w == (acc % 64) * w + (acc / 64) * (w * 64)
    ensures acc / 64 < high
  {
    var q, d := acc / 64, acc % 64;
    assert acc == 64 * q + d;
    assert (64 * q + d) * w == d * w + q * (w * 64);
  }

  /** The salt is the prefix and 22 letters whose base-64 value is the base-256 value of the
      bytes; the accumulator fits in 14 bits throughout. */
  method Salt(raw: seq<Byte>) returns (salt: string, ghost digits: seq<Sextet>)
    requires |raw| == 16
    ensures |digits| == 22 && SextetValue(digits) == ByteValue(raw)
    ensures salt == PREFIX + Letters(digits) && |salt| == 29
  {
    hide Spells, Letter, BitOr, Pow2, SextetValue, ByteValue;
    salt, digits := PREFIX, [];
    var bits: nat, acc: nat := 0, 0;
    assert raw[..0] == [];
    SpellsNothing();
    for i := 0 to 16
      invariant Spells(raw[..i], digits, acc, bits) && bits < 6
      invariant bits + 6 * |digits| == 8 * i
      invariant salt == PREFIX + Letters(digits)
    {
      assert raw[..i + 1] == raw[..i] + [raw[i]];
      TakeByte(raw[..i], digits, acc, bits, raw[i]);
      acc := BitOr(acc, raw[i] * Pow2(bits));
      bits := bits + 8;
      FitsWord(raw[..i + 1], digits, acc, bits);
      while bits >= 6 && |salt| < 29
        invariant Spells(raw[..i + 1], digits, acc, bits) && 0 <= bits < 14
        invariant bits + 6 * |digits| == 8 * (i + 1)
        invariant salt == PREFIX + Letters(digits)
        invariant acc < Pow2(14)
      {
        EmitDigit(raw[..i + 1], digits, acc, bits);
        salt := salt + [Letter(acc % 64)];
        digits := digits + [acc % 64];
        acc := acc / 64;
        bits := bits - 6;
        FitsWord(raw[..i + 1], digits, acc, bits);
      }
    }
    assert raw[..16] == raw;
    FinalBits(raw, digits, acc, bits);
    if |salt| < 29 {
      salt := salt + [Letter(acc % 64)];
      digits := digits + [acc % 64];
    }
  }

  /** Shifting a byte in never reaches the top of a 32-bit word. */
  lemma FitsWord(bytes: seq<Byte>, digits: seq<Sextet>, acc: nat, bits: nat)
    requires Spells(bytes, digits, acc, bits) && bits <= 14
    ensures acc < Pow2(14)
  {
    Pow2Mono(bits, 14);
  }

  lemma SpellsNothing()
    ensures Spells([], [], 0, 0)
  {
  }

  lemma FinalBits(bytes: seq<Byte>, digits: seq<Sextet>, acc: nat, bits: nat)
    requires Spells(bytes, digits, acc, bits) && bits == 2
    ensures SextetValue(digits + [acc % 64]) == ByteValue(bytes)
  {
    assert (digits + [acc % 64])[..|digits|] == digits;
    assert Pow2(2) == 4;
  }

  // ---------------------------------------------------------------------------------
  // Nothing is lost
  // ---------------------------------------------------------------------------------

  lemma {:induction false} ByteValueBound(raw: seq<Byte>)
    ensures ByteValue(raw) < Pow2(8 * |raw|)
  {
    if raw != [] {
      ByteValueBound(raw[..|raw| - 1]);
      assert Pow2(8) == 256;
      hide Pow2;
      Pow2Add(8 * (|raw| - 1), 8);
      ByteBelow(ByteValue(raw[..|raw| - 1]), raw[|raw| - 1], Pow2(8 * (|raw| - 1)));
      assert 8 * |raw| == 8 * (|raw| - 1) + 8;
    }
  }

  lemma {:induction false} ByteValueInjective(a: seq<Byte>, b: seq<Byte>)
    requires |a| == |b| && ByteValue(a) == ByteValue(b)
    ensures a == b
  {
    if a != [] {
      var a', b', p := a[..|a| - 1], b[..|b| - 1], Pow2(8 * (|a| - 1));
      ByteValueBound(a');
      ByteValueBound(b');
      SamePlaces(ByteValue(a'), ByteValue(b'), a[|a| - 1], b[|b| - 1], p);
      ByteValueInjective(a', b');
      assert a == a' + [a[|a| - 1]] && b == b' + [b[|b| - 1]];
    }
  }

  lemma SamePlaces(x: nat, y: nat, c: nat, d: nat, p: nat)
    requires x < p && y < p && x + c * p == y + d * p
    ensures x == y && c == d
  {
    if c < d {
      MulMono(c + 1, d, p);
    } else if d < c {
      MulMono(d + 1, c, p);
    }
  }

  /** Different random bytes give different salts. */
  lemma SaltInjective(a: seq<Byte>, b: seq<Byte>, digitsA: seq<Sextet>, digitsB: seq<Sextet>)
    requires |a| == |b| == 16 && |digitsA| == |digitsB| == 22
    requires SextetValue(digitsA) == ByteValue(a) && SextetValue(digitsB) == ByteValue(b)
    requires PREFIX + Letters(digitsA) == PREFIX + Letters(digitsB)
    ensures a == b
  {
    assert Letters(digitsA) == (PREFIX + Letters(digitsA))[7..] == (PREFIX + Letters(digitsB))[7..] == Letters(digitsB);
    forall i | 0 <= i < 22 ensures digitsA[i] == digitsB[i] {
      assert Letters(digitsA)[i] == Letters(digitsB)[i];
      LetterInjective(digitsA[i], digitsB[i]);
    }
    assert digitsA == digitsB;
    ByteValueInjective(a, b);
  }
}

/** Binary and decimal ADC and SBC: what they mean, and the interpreter's and
    the JIT helpers' code for them. */
module Alu {
  import opened Machine

  /** The new accumulator and status register. */
  datatype Sum = Sum(a: byte, p: Flags)

  function Carry(c: bool): nat {
    if c then 1 else 0
  }

  /** instruction_status_adjust_zero and _negative. */
  function AdjustZN(p: Flags, x: byte): Flags {
    p.(z := x == 0, n := x >= 128)
  }

  predicate Overflows8(t: int) {
    t < -128 || t > 127
  }

  // ------------------------------------------------------------ meanings

  /** from_bcd; bytes that are not valid BCD convert too. */
  function FromBcd(x: byte): byte {
    10 * (x / 16) + x % 16
  }

  /** The two low decimal digits of `x`, packed. */
  function ToBcd(x: byte): byte {
    16 * (x / 10 % 10) + x % 10
  }

  function AdcBinary(a: byte, m: byte, p: Flags): Sum {
    var s := a + m + Carry(p.c);
    var r := s % 256;
    Sum(r, AdjustZN(p.(v := Overflows8(Signed(a) + Signed(m) + Carry(p.c)), c := s >= 256), r))
  }

  /** V is computed from the binary form of the decimal sum, as the source does. */
  function AdcDecimal(a: byte, m: byte, p: Flags): Sum {
    var s := FromBcd(a) + FromBcd(m) + Carry(p.c);
    var r := ToBcd(s % 256);
    Sum(r, AdjustZN(p.(v := Bit7(a) != Bit7(s) && Bit7(m) != Bit7(s), c := s >= 100), r))
  }

  function Adc(a: byte, m: byte, p: Flags): Sum {
    if p.d then AdcDecimal(a, m, p) else AdcBinary(a, m, p)
  }

  function SbcBinary(a: byte, m: byte, p: Flags): Sum {
    var t := a - m - 1 + Carry(p.c);
    var r := t % 256;
    Sum(r, AdjustZN(p.(v := Overflows8(Signed(a) - Signed(m) - 1 + Carry(p.c)), c := t >= 0), r))
  }

  function SbcDecimal(a: byte, m: byte, p: Flags): Sum {
    var t := FromBcd(a) - FromBcd(m) - 1 + Carry(p.c);
    var s := t % 0x1_0000;
    var r := ToBcd(t % 100);
    Sum(r, AdjustZN(p.(v := Bit7(a) != Bit7(s) && Bit7(255 - m) != Bit7(s), c := 0 <= t <= 99), r))
  }

  function Sbc(a: byte, m: byte, p: Flags): Sum {
    if p.d then SbcDecimal(a, m, p) else SbcBinary(a, m, p)
  }

  // ---------------------------------------------------------------- code

  /** to_bcd: digits are added from the low end; the third digit of a value
      over 99 is shifted out of the byte. */
  method ToBcdLoop(val: byte) returns (bcd: byte)
    ensures bcd == ToBcd(val)
  {
    bcd := 0;
    hide BcdLoop;
    var v, shift: nat := val, 1;
    ghost var n := 0;
    BcdLoopEnds(val, n, v, shift, bcd);
    while v > 0
      invariant BcdLoop(val, n, v, shift, bcd) && (v == 0 ==> bcd == ToBcd(val))
      decreases v
    {
      BcdLoopStep(val, n, v, shift, bcd);
      var digit := v % 10;
      bcd := (bcd + digit * shift) % 256;
      shift := shift * 16;
      v := v / 10;
      n := n + 1;
      BcdLoopEnds(val, n, v, shift, bcd);
    }
  }

  /** After `n` turns the low `n` digits are packed. */
  predicate BcdLoop(val: byte, n: nat, v: nat, shift: nat, bcd: byte) {
    match n
    case 0 => v == val && shift == 1 && bcd == 0
    case 1 => v == val / 10 && shift == 16 && bcd == val % 10
    case 2 => v == val / 100 && shift == 256 && bcd == ToBcd(val)
    case _ => v == 0 && bcd == ToBcd(val)
  }

  lemma BcdLoopStep(val: byte, n: nat, v: nat, shift: nat, bcd: byte)
    requires BcdLoop(val, n, v, shift, bcd) && v > 0
    ensures BcdLoop(val, n + 1, v / 10, shift * 16, (bcd + v % 10 * shift) % 256)
  {
    var digit := v % 10;
    if n == 1 {
      assert digit * shift == 16 * digit;
      TensDigit(val);
    } else if n == 2 {
      assert digit * shift == 256 * digit;
      NoFourthDigit(val, bcd);
    }
  }

  lemma TensDigit(val: byte)
    ensures val / 10 / 10 == val / 100 && (val % 10 + 16 * (val / 10 % 10)) % 256 == ToBcd(val)
  {}

  lemma NoFourthDigit(val: byte, bcd: byte)
    ensures val / 100 / 10 == 0 && (bcd + 256 * (val / 100 % 10)) % 256 == bcd
  {}

  lemma BcdLoopEnds(val: byte, n: nat, v: nat, shift: nat, bcd: byte)
    ensures n == 0 && v == val && shift == 1 && bcd == 0 ==> BcdLoop(val, n, v, shift, bcd)
    ensures BcdLoop(val, n, v, shift, bcd) && v == 0 ==> bcd == ToBcd(val)
  {}

  /** emul_adc, statement by statement, on the accumulator and P. */
  method EmulAdc(a0: byte, arg: byte, p0: Flags) returns (a: byte, p: Flags)
    ensures Sum(a, p) == Adc(a0, arg, p0)
  {
    hide Overflows8, Bit7, Signed, FromBcd, ToBcd;
    a, p := a0, p0;
    var res: nat;
    if p.d { res := FromBcd(a) + FromBcd(arg); } else { res := a + arg; }
    if p.c { res := res + 1; }
    p := p.(v := Bit7(a) != Bit7(res) && Bit7(arg) != Bit7(res));
    AdcOverflow(a, arg, p0.c);
    if p.d { p := p.(c := res > 99); } else { p := p.(c := res > 0xFF); }
    if p.d { a := ToBcdLoop(res % 256); } else { a := res % 256; }
    p := AdjustZN(p, a);
  }

  /** emul_sbc; `res` is a uint16_t. */
  method EmulSbc(a0: byte, arg: byte, p0: Flags) returns (a: byte, p: Flags)
    ensures Sum(a, p) == Sbc(a0, arg, p0)
  {
    hide SbcBinary, SbcDecimal;
    if p0.d { a, p := EmulSbcDecimal(a0, arg, p0); } else { a, p := EmulSbcBinary(a0, arg, p0); }
  }

  method EmulSbcBinary(a0: byte, arg: byte, p0: Flags) returns (a: byte, p: Flags)
    ensures Sum(a, p) == SbcBinary(a0, arg, p0)
  {
    hide Overflows8, Bit7, Signed, Int16, Carry;
    a, p := a0, p0;
    var res := Difference(a, arg, p.c);
    SbcOverflow(a, arg, p.c);
    p := p.(v := Bit7(a) != Bit7(res) && Bit7(0xFF - arg) != Bit7(res), c := res / 256 == 0);
    a := res % 256;
    p := AdjustZN(p, a);
  }

  method EmulSbcDecimal(a0: byte, arg: byte, p0: Flags) returns (a: byte, p: Flags)
    ensures Sum(a, p) == SbcDecimal(a0, arg, p0)
  {
    hide Bit7, FromBcd, ToBcd, CRemainderFix, Carry, Int16;
    a, p := a0, p0;
    var res := Difference(FromBcd(a), FromBcd(arg), p.c);
    p := p.(v := Bit7(a) != Bit7(res) && Bit7(0xFF - arg) != Bit7(res), c := !(res > 99 || res / 256 != 0));
    SbcDecimalDigits(Int16(res));
    a := ToBcdLoop(CRemainderFix(Int16(res) + 100));
    p := AdjustZN(p, a);
  }

  /** A C `(int16_t)` cast. */
  function Int16(x: word): int {
    if x < 0x8000 then x else x - 0x1_0000
  }

  /** The 16-bit difference of two bytes with borrow: its low byte, its value read
      as signed, and the two tests the source makes on it. */
  method Difference(x: byte, y: byte, c: bool) returns (res: word)
    ensures var t := x - y - 1 + Carry(c);
            && res == t % 0x1_0000 && res % 256 == t % 256
            && Int16(res) == t
            && (res > 99 || res / 256 != 0) == !(0 <= t <= 99)
            && (res / 256 == 0) == (t >= 0)
  {
    res := (x - y) % 0x1_0000;
    if !c { res := (res - 1) % 0x1_0000; }
    Borrow16(x, y, c);
  }

  /** A 16-bit subtraction with borrow, read back as a signed value. */
  lemma Borrow16(x: byte, y: byte, c: bool)
    ensures var t, r := x - y - 1 + Carry(c), (x - y) % 0x1_0000;
            var res := if c then r else (r - 1) % 0x1_0000;
            && res == t % 0x1_0000
            && res % 256 == t % 256
            && (if res < 0x8000 then res else res - 0x1_0000) == t
            && (res > 99 || res / 256 != 0) == !(0 <= t <= 99)
            && (res / 256 == 0) == (t >= 0)
  {}

  /** C's truncating `% 100`, then `+ 100` when negative. */
  function CRemainderFix(x: int): byte {
    var q := if x >= 0 then x % 100 else -(-x % 100);
    if q < 0 then q + 100 else q
  }

  lemma SbcDecimalDigits(t: int)
    ensures CRemainderFix(t + 100) == t % 100
  {}

  /** The sign-bit test for overflow is signed overflow. */
  lemma AdcOverflow(a: byte, m: byte, c: bool)
    ensures var s := a + m + Carry(c);
            (Bit7(a) != Bit7(s) && Bit7(m) != Bit7(s)) == Overflows8(Signed(a) + Signed(m) + Carry(c))
  {}

  lemma SbcOverflow(a: byte, m: byte, c: bool)
    ensures var s := (a - m - 1 + Carry(c)) % 0x1_0000;
            (Bit7(a) != Bit7(s) && Bit7(255 - m) != Bit7(s)) == Overflows8(Signed(a) - Signed(m) - 1 + Carry(c))
  {}

  /** rk65c02_do_adc_bcd, which emitted code calls when P.D is set. */
  method DoAdcBcd(a0: byte, operand: byte, p0: Flags) returns (a: byte, p: Flags)
    ensures Sum(a, p) == AdcDecimal(a0, operand, p0)
  {
    a, p := a0, p0;
    var res := FromBcd(a) + FromBcd(operand);
    if p.c { res := res + 1; }
    p := p.(v := Bit7(a) != Bit7(res) && Bit7(operand) != Bit7(res));
    p := p.(c := res > 99);
    a := ToBcdLoop(res % 256);
    p := AdjustZN(p, a);
  }

  /** rk65c02_do_sbc_bcd. */
  method DoSbcBcd(a0: byte, operand: byte, p0: Flags) returns (a: byte, p: Flags)
    ensures Sum(a, p) == SbcDecimal(a0, operand, p0)
  {
    hide Bit7, FromBcd, ToBcd, CRemainderFix, Carry, Int16;
    a, p := a0, p0;
    var res := Difference(FromBcd(a), FromBcd(operand), p.c);
    p := p.(v := Bit7(a) != Bit7(res) && Bit7(0xFF - operand) != Bit7(res), c := !(res > 99 || res / 256 != 0));
    SbcDecimalDigits(Int16(res));
    a := ToBcdLoop(CRemainderFix(Int16(res) + 100));
    p := AdjustZN(p, a);
  }
}

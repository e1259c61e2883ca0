/** Multi-byte arithmetic: chains of ADC or SBC, lowest byte first, in binary
    and in decimal mode, as the interpreter and as emitted code compute them. */
module Chains {
  import opened Machine
  import opened Alu
  import opened Emitter
  import opened Simulation

  /** One ADC or SBC of the interpreter. */
  function InterpretedStep(sub: bool, a: byte, m: byte, p: Flags): Sum {
    if sub then Sbc(a, m, p) else Adc(a, m, p)
  }

  /** One ADC or SBC of emitted code. */
  function NativeStep(sub: bool, a: byte, m: byte, p: Flags): Sum {
    var r := RunRead(if sub then TSubtract else TAdd, Regs(a, 0, 0, 0, 0, p), m, false);
    Sum(r.a, r.p)
  }

  /** The digits and flags after adding or subtracting `m` from the low end. */
  function Chain(native: bool, sub: bool, a: seq<byte>, m: seq<byte>, p: Flags): (r: (seq<byte>, Flags))
    requires |a| == |m|
    ensures |r.0| == |a|
  {
    if a == [] then ([], p)
    else
      var s := if native then NativeStep(sub, a[0], m[0], p) else InterpretedStep(sub, a[0], m[0], p);
      var rest := Chain(native, sub, a[1..], m[1..], s.p);
      ([s.a] + rest.0, rest.1)
  }

  lemma NativeStepAgrees(sub: bool, a: byte, m: byte, p: Flags)
    ensures NativeStep(sub, a, m, p) == InterpretedStep(sub, a, m, p)
  {
    hide EmittedAdd, EmittedSubtract, AdcBinary, SbcBinary, AdcDecimal, SbcDecimal;
    EmittedAddIsAdc(a, m, p);
    EmittedSubtractIsSbc(a, m, p);
  }

  /** Both engines compute the same chains. */
  lemma {:induction false} NativeChain(sub: bool, a: seq<byte>, m: seq<byte>, p: Flags)
    requires |a| == |m|
    ensures Chain(true, sub, a, m, p) == Chain(false, sub, a, m, p)
  {
    hide NativeStep, InterpretedStep;
    if a != [] {
      NativeStepAgrees(sub, a[0], m[0], p);
      NativeChain(sub, a[1..], m[1..], InterpretedStep(sub, a[0], m[0], p).p);
    }
  }

  // ---------------------------------------------------------------- numerals

  /** A digit of the numeral: any byte, or a valid packed BCD byte. */
  predicate IsDigit(d: bool, x: byte) {
    d ==> x / 16 <= 9 && x % 16 <= 9
  }

  function Digit(d: bool, x: byte): nat {
    if d then FromBcd(x) else x
  }

  /** Multiplication by the base: 100 in decimal mode, 256 otherwise. */
  function Scale(d: bool, v: int): int {
    if d then 100 * v else 256 * v
  }

  predicate AllDigits(d: bool, s: seq<byte>) {
    forall k :: 0 <= k < |s| ==> IsDigit(d, s[k])
  }

  /** The number that bytes, lowest first, stand for. */
  function Value(d: bool, s: seq<byte>): nat {
    if s == [] then 0 else Digit(d, s[0]) + Scale(d, Value(d, s[1..]))
  }

  /** The base to the power `n`. */
  function Power(d: bool, n: nat): nat {
    if n == 0 then 1 else Scale(d, Power(d, n - 1))
  }

  lemma {:induction false} ValueBound(d: bool, s: seq<byte>)
    requires AllDigits(d, s)
    ensures Value(d, s) < Power(d, |s|)
  {
    if s != [] {
      assert IsDigit(d, s[0]);
      ValueBound(d, s[1..]);
    }
  }

  /** Numerals of one length with the same value are the same bytes. */
  lemma {:induction false} ValueInjective(d: bool, s: seq<byte>, t: seq<byte>)
    requires |s| == |t| && AllDigits(d, s) && AllDigits(d, t) && Value(d, s) == Value(d, t)
    ensures s == t
  {
    if s != [] {
      assert IsDigit(d, s[0]) && IsDigit(d, t[0]);
      DigitInjective(d, s[0], t[0], Value(d, s[1..]), Value(d, t[1..]));
      ValueInjective(d, s[1..], t[1..]);
      assert s == [s[0]] + s[1..] && t == [t[0]] + t[1..];
    }
  }

  lemma DigitInjective(d: bool, x: byte, y: byte, v: nat, w: nat)
    requires IsDigit(d, x) && IsDigit(d, y) && Digit(d, x) + Scale(d, v) == Digit(d, y) + Scale(d, w)
    ensures x == y && v == w
  {}

  // --------------------------------------------------------------- exactness

  /** Packing two decimal digits and reading them back. */
  lemma TwoDigits(u: byte)
    requires u < 100
    ensures FromBcd(ToBcd(u)) == u && IsDigit(true, ToBcd(u))
  {
    SplitNibbles(u / 10, u % 10);
  }

  /** A packed sum has the digits of its remainder. */
  lemma LowDigits(t: byte)
    requires 100 <= t < 200
    ensures ToBcd(t) == ToBcd(t - 100)
  {}

  lemma DigitBound(x: byte)
    requires IsDigit(true, x)
    ensures FromBcd(x) < 100
  {}

  lemma DecimalAdd(a: byte, m: byte, p: Flags)
    requires IsDigit(true, a) && IsDigit(true, m)
    ensures var s := AdcDecimal(a, m, p);
            && IsDigit(true, s.a) && s.p.d == p.d
            && FromBcd(s.a) + 100 * Carry(s.p.c) == FromBcd(a) + FromBcd(m) + Carry(p.c)
  {
    hide Bit7, FromBcd, ToBcd, IsDigit;
    DigitBound(a);
    DigitBound(m);
    var t := FromBcd(a) + FromBcd(m) + Carry(p.c);
    if t < 100 {
      TwoDigits(t);
    } else {
      LowDigits(t);
      TwoDigits(t - 100);
    }
  }

  lemma DecimalSubtract(a: byte, m: byte, p: Flags)
    requires IsDigit(true, a) && IsDigit(true, m)
    ensures var s := SbcDecimal(a, m, p);
            && IsDigit(true, s.a) && s.p.d == p.d
            && FromBcd(s.a) == FromBcd(a) - FromBcd(m) - 1 + Carry(p.c) + 100 * (1 - Carry(s.p.c))
  {
    hide Bit7, FromBcd, ToBcd, IsDigit;
    DigitBound(a);
    DigitBound(m);
    TwoDigits((FromBcd(a) - FromBcd(m) - 1 + Carry(p.c)) % 100);
  }

  lemma BinaryStep(sub: bool, a: byte, m: byte, p: Flags)
    requires !p.d
    ensures var s := InterpretedStep(sub, a, m, p);
            && !s.p.d
            && (if sub
                then s.a == a - m - 1 + Carry(p.c) + 256 * (1 - Carry(s.p.c))
                else s.a + 256 * Carry(s.p.c) == a + m + Carry(p.c))
  {
    hide Overflows8;
  }

  /** One step: result digit and carry out are exact. */
  lemma StepExact(sub: bool, a: byte, m: byte, p: Flags)
    requires IsDigit(p.d, a) && IsDigit(p.d, m)
    ensures var s := InterpretedStep(sub, a, m, p);
            && IsDigit(p.d, s.a) && s.p.d == p.d
            && (if sub
                then Digit(p.d, s.a) == Digit(p.d, a) - Digit(p.d, m) - 1 + Carry(p.c) + Scale(p.d, 1 - Carry(s.p.c))
                else Digit(p.d, s.a) + Scale(p.d, Carry(s.p.c)) == Digit(p.d, a) + Digit(p.d, m) + Carry(p.c))
  {
    hide AdcDecimal, SbcDecimal, AdcBinary, SbcBinary, FromBcd;
    if p.d {
      DecimalAdd(a, m, p);
      DecimalSubtract(a, m, p);
    } else {
      BinaryStep(sub, a, m, p);
    }
  }

  /** A chain is the exact sum or difference modulo the power of the base, and
      the final C is the carry out, or the absence of a borrow. */
  lemma {:induction false} ChainExact(native: bool, sub: bool, a: seq<byte>, m: seq<byte>, p: Flags)
    requires |a| == |m| && AllDigits(p.d, a) && AllDigits(p.d, m)
    ensures var r := Chain(native, sub, a, m, p);
            && AllDigits(p.d, r.0) && r.1.d == p.d && Value(p.d, r.0) < Power(p.d, |a|)
            && (if sub
                then Value(p.d, r.0) == Value(p.d, a) - Value(p.d, m) - 1 + Carry(p.c) + (if r.1.c then 0 else Power(p.d, |a|))
                else Value(p.d, r.0) + (if r.1.c then Power(p.d, |a|) else 0) == Value(p.d, a) + Value(p.d, m) + Carry(p.c))
  {
    hide InterpretedStep, NativeStep, IsDigit, Digit;
    var r := Chain(native, sub, a, m, p);
    if a != [] {
      var s := InterpretedStep(sub, a[0], m[0], p);
      NativeStepAgrees(sub, a[0], m[0], p);
      StepExact(sub, a[0], m[0], p);
      ChainExact(native, sub, a[1..], m[1..], s.p);
      assert r.0[0] == s.a && r.0[1..] == Chain(native, sub, a[1..], m[1..], s.p).0;
    }
    ValueBound(p.d, r.0);
  }

  /** Subtracting what was added gives the first operand back, byte for byte. */
  lemma SubUndoesAdd(native: bool, a: seq<byte>, m: seq<byte>, p: Flags)
    requires |a| == |m| && AllDigits(p.d, a) && AllDigits(p.d, m)
    ensures var sum := Chain(native, false, a, m, p.(c := false));
            var back := Chain(native, true, sum.0, m, sum.1.(c := true));
            back.0 == a && back.1.c == !sum.1.c
  {
    var sum := Chain(native, false, a, m, p.(c := false));
    ChainExact(native, false, a, m, p.(c := false));
    ChainExact(native, true, sum.0, m, sum.1.(c := true));
    ValueBound(p.d, a);
    ValueInjective(p.d, Chain(native, true, sum.0, m, sum.1.(c := true)).0, a);
  }

  // --------------------------------------------------------- signed overflow

  /** The two's complement number that bytes stand for. */
  function SignedValue(s: seq<byte>): int
    requires s != []
  {
    if |s| == 1 then Signed(s[0]) else s[0] + 256 * SignedValue(s[1..])
  }

  /** Half of 256 to the power `n`. */
  function Half(n: nat): nat
    requires n > 0
  {
    if n == 1 then 128 else 256 * Half(n - 1)
  }

  predicate InRange(n: nat, t: int)
    requires n > 0
  {
    0 - Half(n) <= t < Half(n)
  }

  function SignedExact(sub: bool, a: seq<byte>, m: seq<byte>, p: Flags): int
    requires a != [] && m != []
  {
    if sub then SignedValue(a) - SignedValue(m) - 1 + Carry(p.c) else SignedValue(a) + SignedValue(m) + Carry(p.c)
  }

  lemma OneByte(sub: bool, a: byte, m: byte, p: Flags)
    requires !p.d
    ensures var s := InterpretedStep(sub, a, m, p);
            var t := if sub then Signed(a) - Signed(m) - 1 + Carry(p.c) else Signed(a) + Signed(m) + Carry(p.c);
            && s.p.v == !(-128 <= t < 128) && (!s.p.v ==> Signed(s.a) == t)
  {}

  /** In binary mode the final V is exactly the signed overflow of the whole
      numbers, and without it the result is the exact signed number. */
  lemma {:induction false} ChainOverflow(native: bool, sub: bool, a: seq<byte>, m: seq<byte>, p: Flags)
    requires |a| == |m| > 0 && !p.d
    ensures var r := Chain(native, sub, a, m, p);
            && r.1.v == !InRange(|a|, SignedExact(sub, a, m, p))
            && (!r.1.v ==> SignedValue(r.0) == SignedExact(sub, a, m, p))
  {
    hide InterpretedStep, NativeStep, Signed;
    var s := InterpretedStep(sub, a[0], m[0], p);
    NativeStepAgrees(sub, a[0], m[0], p);
    var r := Chain(native, sub, a, m, p);
    var rest := Chain(native, sub, a[1..], m[1..], s.p);
    assert r.0[0] == s.a && r.0[1..] == rest.0 && r.1 == rest.1;
    if |a| == 1 {
      OneByte(sub, a[0], m[0], p);
    } else {
      StepExact(sub, a[0], m[0], p);
      ChainOverflow(native, sub, a[1..], m[1..], s.p);
    }
  }
}

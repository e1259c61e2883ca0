/** The one-instruction assembler and the decoder are inverse. */
module Assembler {
  import opened Machine
  import opened Isa
  import opened Bus

  // --------------------------------------------------------------- mnemonics

  function DigitOf(k: bit): char {
    match k
    case 0 => '0' case 1 => '1' case 2 => '2' case 3 => '3'
    case 4 => '4' case 5 => '5' case 6 => '6' case 7 => '7'
  }

  function ReadName(op: ReadOp): string {
    match op
    case ADC => "adc"
    case AND => "and"
    case BIT => "bit"
    case CMP => "cmp"
    case CPX => "cpx"
    case CPY => "cpy"
    case EOR => "eor"
    case LDA => "lda"
    case LDX => "ldx"
    case LDY => "ldy"
    case ORA => "ora"
    case SBC => "sbc"
  }

  function ModifyName(op: ModifyOp): string {
    match op
    case ASL => "asl"
    case DEC => "dec"
    case INC => "inc"
    case LSR => "lsr"
    case ROL => "rol"
    case ROR => "ror"
    case TRB => "trb"
    case TSB => "tsb"
    case RMB(k) => "rmb" + [DigitOf(k)]
    case SMB(k) => "smb" + [DigitOf(k)]
  }

  function MoveName(op: MoveOp): string {
    match op
    case TAX => "tax"
    case TAY => "tay"
    case TSX => "tsx"
    case TXA => "txa"
    case TXS => "txs"
    case TYA => "tya"
    case INX => "inx"
    case INY => "iny"
    case DEX => "dex"
    case DEY => "dey"
  }

  function OtherName(op: Op): string
    requires !op.Read? && !op.Modify? && !op.Move?
  {
    match op
    case Put(STA) => "sta"
    case Put(STX) => "stx"
    case Put(STY) => "sty"
    case Put(STZ) => "stz"
    case Flag(CLC) => "clc"
    case Flag(CLD) => "cld"
    case Flag(CLI) => "cli"
    case Flag(CLV) => "clv"
    case Flag(SEC) => "sec"
    case Flag(SED) => "sed"
    case Flag(SEI) => "sei"
    case Push(PHA) => "pha"
    case Push(PHP) => "php"
    case Push(PHX) => "phx"
    case Push(PHY) => "phy"
    case Pull(PLA) => "pla"
    case Pull(PLP) => "plp"
    case Pull(PLX) => "plx"
    case Pull(PLY) => "ply"
    case CondBranch(BCC) => "bcc"
    case CondBranch(BCS) => "bcs"
    case CondBranch(BEQ) => "beq"
    case CondBranch(BMI) => "bmi"
    case CondBranch(BNE) => "bne"
    case CondBranch(BPL) => "bpl"
    case CondBranch(BVC) => "bvc"
    case CondBranch(BVS) => "bvs"
    case BitBranch(on, k) => (if on then "bbs" else "bbr") + [DigitOf(k)]
    case BRA => "bra"
    case JMP => "jmp"
    case JSR => "jsr"
    case RTS => "rts"
    case BRK => "brk"
    case RTI => "rti"
    case NOP => "nop"
    case STP => "stp"
    case WAI => "wai"
    case INVALID => "invalid"
  }

  /** The mnemonic column of the table. */
  function Mnemonic(op: Op): string {
    match op
    case Read(r) => ReadName(r)
    case Modify(m) => ModifyName(m)
    case Move(m) => MoveName(m)
    case _ => OtherName(op)
  }

  /** The operation a three-letter mnemonic of the table names. */
  function Parse3(a: char, b: char, c: char): Op {
    match a
    case 'a' => if b == 'd' then Read(ADC) else if b == 'n' then Read(AND) else Modify(ASL)
    case 'b' =>
      if b == 'c' then (if c == 'c' then CondBranch(BCC) else CondBranch(BCS))
      else if b == 'e' then CondBranch(BEQ)
      else if b == 'i' then Read(BIT)
      else if b == 'm' then CondBranch(BMI)
      else if b == 'n' then CondBranch(BNE)
      else if b == 'p' then CondBranch(BPL)
      else if b == 'r' then (if c == 'a' then BRA else BRK)
      else if c == 'c' then CondBranch(BVC)
      else CondBranch(BVS)
    case 'c' =>
      if b == 'l' then (if c == 'c' then Flag(CLC) else if c == 'd' then Flag(CLD) else if c == 'i' then Flag(CLI) else Flag(CLV))
      else if b == 'm' then Read(CMP)
      else if c == 'x' then Read(CPX)
      else Read(CPY)
    case 'd' => if c == 'c' then Modify(DEC) else if c == 'x' then Move(DEX) else Move(DEY)
    case 'e' => Read(EOR)
    case 'i' => if c == 'c' then Modify(INC) else if c == 'x' then Move(INX) else Move(INY)
    case 'j' => if b == 'm' then JMP else JSR
    case 'l' =>
      if b == 'd' then (if c == 'a' then Read(LDA) else if c == 'x' then Read(LDX) else Read(LDY)) else Modify(LSR)
    case 'n' => NOP
    case 'o' => Read(ORA)
    case 'p' =>
      if b == 'h' then (if c == 'a' then Push(PHA) else if c == 'p' then Push(PHP) else if c == 'x' then Push(PHX) else Push(PHY))
      else if c == 'a' then Pull(PLA)
      else if c == 'p' then Pull(PLP)
      else if c == 'x' then Pull(PLX)
      else Pull(PLY)
    case 'r' =>
      if b == 'o' then (if c == 'l' then Modify(ROL) else Modify(ROR)) else if c == 'i' then RTI else RTS
    case 's' =>
      if b == 'b' then Read(SBC)
      else if b == 'e' then (if c == 'c' then Flag(SEC) else if c == 'd' then Flag(SED) else Flag(SEI))
      else if c == 'a' then Put(STA)
      else if c == 'p' then STP
      else if c == 'x' then Put(STX)
      else if c == 'y' then Put(STY)
      else Put(STZ)
    case 't' =>
      if b == 'a' then (if c == 'x' then Move(TAX) else Move(TAY))
      else if b == 'r' then Modify(TRB)
      else if b == 's' then (if c == 'b' then Modify(TSB) else Move(TSX))
      else if b == 'x' then (if c == 'a' then Move(TXA) else Move(TXS))
      else Move(TYA)
    case 'w' => WAI
    case _ => INVALID
  }

  function BitOf(c: char): bit {
    match c
    case '1' => 1 case '2' => 2 case '3' => 3 case '4' => 4
    case '5' => 5 case '6' => 6 case '7' => 7 case _ => 0
  }

  function Parse(s: string): Op {
    if |s| == 3 then Parse3(s[0], s[1], s[2])
    else if |s| == 4 then
      if s[0] == 'r' then Modify(RMB(BitOf(s[3])))
      else if s[0] == 's' then Modify(SMB(BitOf(s[3])))
      else BitBranch(s[2] == 's', BitOf(s[3]))
    else INVALID
  }

  lemma ParseRead(op: ReadOp)
    ensures Parse(ReadName(op)) == Read(op)
  {}

  lemma ParseModify(op: ModifyOp)
    ensures Parse(ModifyName(op)) == Modify(op)
  {}

  lemma ParseMove(op: MoveOp)
    ensures Parse(MoveName(op)) == Move(op)
  {}

  lemma ParseOther(op: Op)
    requires !op.Read? && !op.Modify? && !op.Move?
    ensures Parse(OtherName(op)) == op
  {}

  /** Mnemonics name operations uniquely. */
  lemma ParseMnemonic(op: Op)
    ensures Parse(Mnemonic(op)) == op
  {
    hide Parse, ReadName, ModifyName, MoveName, OtherName;
    match op
    case Read(r) => ParseRead(r);
    case Modify(m) => ParseModify(m);
    case Move(m) => ParseMove(m);
    case _ => ParseOther(op);
  }

  // ----------------------------------------------------------------- opcodes

  /** Mode columns of the opcode matrix. */
  function MainColumn(mode: Mode): nat {
    match mode
    case IndZpX => 0x01 case Zp => 0x05 case Immediate => 0x09 case Absolute => 0x0D
    case IndZpY => 0x11 case IndZp => 0x12 case ZpX => 0x15 case AbsoluteY => 0x19 case AbsoluteX => 0x1D
    case _ => 0
  }

  function SideColumn(mode: Mode): nat {
    match mode
    case Zp => 0x04 case Accumulator => 0x08 case Absolute => 0x0C
    case ZpX | ZpY => 0x14 case AbsoluteX | AbsoluteY => 0x1C
    case _ => 0
  }

  /** The opcode of an operation in a mode, by the layout of the matrix. */
  function OpcodeOf(op: Op, mode: Mode): nat {
    match op
    case Read(r) => ReadOpcode(r, mode)
    case Modify(m) => ModifyOpcode(m, mode)
    case Put(STA) => 0x80 + MainColumn(mode)
    case Put(STX) => 0x82 + SideColumn(mode)
    case Put(STY) => 0x80 + SideColumn(mode)
    case Put(STZ) => (match mode case Zp => 0x64 case ZpX => 0x74 case Absolute => 0x9C case _ => 0x9E)
    case Flag(f) => (match f case CLC => 0x18 case CLD => 0xD8 case CLI => 0x58 case CLV => 0xB8
                             case SEC => 0x38 case SED => 0xF8 case SEI => 0x78)
    case Move(m) => (match m case TAX => 0xAA case TAY => 0xA8 case TSX => 0xBA case TXA => 0x8A case TXS => 0x9A
                             case TYA => 0x98 case INX => 0xE8 case INY => 0xC8 case DEX => 0xCA case DEY => 0x88)
    case Push(p) => (match p case PHA => 0x48 case PHP => 0x08 case PHX => 0xDA case PHY => 0x5A)
    case Pull(p) => (match p case PLA => 0x68 case PLP => 0x28 case PLX => 0xFA case PLY => 0x7A)
    case CondBranch(c) => (match c case BPL => 0x10 case BMI => 0x30 case BVC => 0x50 case BVS => 0x70
                                   case BCC => 0x90 case BCS => 0xB0 case BNE => 0xD0 case BEQ => 0xF0)
    case BitBranch(on, k) => (if on then 0x8F else 0x0F) + 0x10 * k
    case JMP => (match mode case Absolute => 0x4C case IndAbsolute => 0x6C case _ => 0x7C)
    case BRK => 0x00
    case JSR => 0x20
    case RTI => 0x40
    case RTS => 0x60
    case BRA => 0x80
    case WAI => 0xCB
    case STP => 0xDB
    case NOP => 0xEA
    case INVALID => 0
  }

  function ReadOpcode(op: ReadOp, mode: Mode): nat {
    match op
    case ORA => 0x00 + MainColumn(mode)
    case AND => 0x20 + MainColumn(mode)
    case EOR => 0x40 + MainColumn(mode)
    case ADC => 0x60 + MainColumn(mode)
    case LDA => 0xA0 + MainColumn(mode)
    case CMP => 0xC0 + MainColumn(mode)
    case SBC => 0xE0 + MainColumn(mode)
    case BIT => if mode == Immediate then 0x89 else 0x20 + SideColumn(mode)
    case LDY => 0xA0 + SideColumn(mode)
    case CPY => 0xC0 + SideColumn(mode)
    case CPX => 0xE0 + SideColumn(mode)
    case LDX => 0xA2 + SideColumn(mode)
  }

  function ModifyOpcode(op: ModifyOp, mode: Mode): nat {
    match op
    case ASL => 0x02 + SideColumn(mode)
    case ROL => 0x22 + SideColumn(mode)
    case LSR => 0x42 + SideColumn(mode)
    case ROR => 0x62 + SideColumn(mode)
    case DEC => if mode == Accumulator then 0x3A else 0xC2 + SideColumn(mode)
    case INC => if mode == Accumulator then 0x1A else 0xE2 + SideColumn(mode)
    case TSB => SideColumn(mode)
    case TRB => 0x10 + SideColumn(mode)
    case RMB(k) => 0x07 + 0x10 * k
    case SMB(k) => 0x87 + 0x10 * k
  }

  lemma Encodes0(l: nat)
    requires l < 16
    ensures var d := Row0(l); !d.op.INVALID? ==> OpcodeOf(d.op, d.mode) == 0x00 + l
  {}

  lemma Encodes1(l: nat)
    requires l < 16
    ensures var d := Row1(l); !d.op.INVALID? ==> OpcodeOf(d.op, d.mode) == 0x10 + l
  {}

  lemma Encodes2(l: nat)
    requires l < 16
    ensures var d := Row2(l); !d.op.INVALID? ==> OpcodeOf(d.op, d.mode) == 0x20 + l
  {}

  lemma Encodes3(l: nat)
    requires l < 16
    ensures var d := Row3(l); !d.op.INVALID? ==> OpcodeOf(d.op, d.mode) == 0x30 + l
  {}

  lemma Encodes4(l: nat)
    requires l < 16
    ensures var d := Row4(l); !d.op.INVALID? ==> OpcodeOf(d.op, d.mode) == 0x40 + l
  {}

  lemma Encodes5(l: nat)
    requires l < 16
    ensures var d := Row5(l); !d.op.INVALID? ==> OpcodeOf(d.op, d.mode) == 0x50 + l
  {}

  lemma Encodes6(l: nat)
    requires l < 16
    ensures var d := Row6(l); !d.op.INVALID? ==> OpcodeOf(d.op, d.mode) == 0x60 + l
  {}

  lemma Encodes7(l: nat)
    requires l < 16
    ensures var d := Row7(l); !d.op.INVALID? ==> OpcodeOf(d.op, d.mode) == 0x70 + l
  {}

  lemma Encodes8(l: nat)
    requires l < 16
    ensures var d := Row8(l); !d.op.INVALID? ==> OpcodeOf(d.op, d.mode) == 0x80 + l
  {}

  lemma Encodes9(l: nat)
    requires l < 16
    ensures var d := Row9(l); !d.op.INVALID? ==> OpcodeOf(d.op, d.mode) == 0x90 + l
  {}

  lemma EncodesA(l: nat)
    requires l < 16
    ensures var d := RowA(l); !d.op.INVALID? ==> OpcodeOf(d.op, d.mode) == 0xA0 + l
  {}

  lemma EncodesB(l: nat)
    requires l < 16
    ensures var d := RowB(l); !d.op.INVALID? ==> OpcodeOf(d.op, d.mode) == 0xB0 + l
  {}

  lemma EncodesC(l: nat)
    requires l < 16
    ensures var d := RowC(l); !d.op.INVALID? ==> OpcodeOf(d.op, d.mode) == 0xC0 + l
  {}

  lemma EncodesD(l: nat)
    requires l < 16
    ensures var d := RowD(l); !d.op.INVALID? ==> OpcodeOf(d.op, d.mode) == 0xD0 + l
  {}

  lemma EncodesE(l: nat)
    requires l < 16
    ensures var d := RowE(l); !d.op.INVALID? ==> OpcodeOf(d.op, d.mode) == 0xE0 + l
  {}

  lemma EncodesF(l: nat)
    requires l < 16
    ensures var d := RowF(l); !d.op.INVALID? ==> OpcodeOf(d.op, d.mode) == 0xF0 + l
  {}

  /** Every valid row of the table sits at the opcode the matrix gives it. */
  lemma TableEncodes(opcode: byte)
    ensures !Def(opcode).op.INVALID? ==> OpcodeOf(Def(opcode).op, Def(opcode).mode) == opcode
  {
    hide OpcodeOf, Row0, Row1, Row2, Row3, Row4, Row5, Row6, Row7, Row8, Row9, RowA, RowB, RowC, RowD, RowE, RowF;
    var l := opcode % 16;
    match opcode / 16
    case 0x0 => Encodes0(l); case 0x1 => Encodes1(l); case 0x2 => Encodes2(l); case 0x3 => Encodes3(l);
    case 0x4 => Encodes4(l); case 0x5 => Encodes5(l); case 0x6 => Encodes6(l); case 0x7 => Encodes7(l);
    case 0x8 => Encodes8(l); case 0x9 => Encodes9(l); case 0xA => EncodesA(l); case 0xB => EncodesB(l);
    case 0xC => EncodesC(l); case 0xD => EncodesD(l); case 0xE => EncodesE(l); case 0xF => EncodesF(l);
  }

  // --------------------------------------------------------------- searching

  predicate Named(opcode: byte, mnemonic: string, mode: Mode) {
    Mnemonic(Def(opcode).op) == mnemonic && Def(opcode).mode == mode
  }

  /** The first row from `o` with that mnemonic and mode. */
  function FirstNamed(mnemonic: string, mode: Mode, o: nat): (r: Option<byte>)
    requires o <= 256
    ensures match r
            case Some(opcode) => o <= opcode && Named(opcode, mnemonic, mode) && forall j :: o <= j < opcode ==> !Named(j, mnemonic, mode)
            case None => forall j :: o <= j < 256 ==> !Named(j, mnemonic, mode)
    decreases 256 - o
  {
    if o == 256 then None else if Named(o, mnemonic, mode) then Some(o) else FirstNamed(mnemonic, mode, o + 1)
  }

  /** instruction_opcode_by_mnemonic. */
  method OpcodeByMnemonic(mnemonic: string, mode: Mode) returns (r: Option<byte>)
    ensures r == FirstNamed(mnemonic, mode, 0)
  {
    hide Named;
    for o := 0 to 256
      invariant FirstNamed(mnemonic, mode, 0) == FirstNamed(mnemonic, mode, o)
    {
      if Named(o, mnemonic, mode) {
        return Some(o);
      }
    }
    r := None;
  }

  /** No two valid rows share a mnemonic and a mode. */
  lemma NamedOnce(opcode: byte)
    requires !Def(opcode).op.INVALID?
    ensures FirstNamed(Mnemonic(Def(opcode).op), Def(opcode).mode, 0) == Some(opcode)
  {
    hide Def, Mnemonic, OpcodeOf;
    var d := Def(opcode);
    assert Named(opcode, Mnemonic(d.op), d.mode);
    var o := FirstNamed(Mnemonic(d.op), d.mode, 0).value;
    ParseMnemonic(d.op);
    ParseMnemonic(Def(o).op);
    TableEncodes(opcode);
    TableEncodes(o);
  }

  // -------------------------------------------------------------- assembling

  /** One instruction as the caller of the assembler gives it. */
  datatype Line = Line(mnemonic: string, mode: Mode, op1: byte, op2: byte)

  /** The bytes of an instruction: the opcode and as many operands as its size
      allows. */
  function Bytes(opcode: byte, op1: byte, op2: byte): (s: seq<byte>)
    ensures |s| == Def(opcode).size
  {
    var size := Def(opcode).size;
    assert RowOk(opcode, Def(opcode));
    [opcode] + (if size > 1 then [op1] else []) + (if size > 2 then [op2] else [])
  }

  function Assembled(line: Line): Option<seq<byte>> {
    match FirstNamed(line.mnemonic, line.mode, 0)
    case None => None
    case Some(opcode) => Some(Bytes(opcode, line.op1, line.op2))
  }

  /** assemble_single_buf. */
  method AssembleSingleBuf(line: Line) returns (r: Option<seq<byte>>)
    ensures r == Assembled(line)
  {
    hide Def, Named, FirstNamed;
    var found := OpcodeByMnemonic(line.mnemonic, line.mode);
    if found.None? {
      return None;
    }
    var opcode := found.value;
    var size := Def(opcode).size;
    assert RowOk(opcode, Def(opcode));
    var buf := new byte[size](_ => 0);
    buf[0] := opcode;
    if size > 1 {
      buf[1] := line.op1;
    }
    if size > 2 {
      buf[2] := line.op2;
    }
    assert buf[..] == Bytes(opcode, line.op1, line.op2);
    r := Some(buf[..]);
  }

  /** The code of a program; None when a line names no instruction. */
  function Image(lines: seq<Line>): Option<seq<byte>> {
    if lines == [] then Some([])
    else match Assembled(lines[0])
      case None => None
      case Some(b) =>
        match Image(lines[1..])
        case None => None
        case Some(rest) => Some(b + rest)
  }

  lemma {:induction false} ImageAppend(lines: seq<Line>, line: Line)
    ensures Image(lines + [line]) ==
            if Image(lines).Some? && Assembled(line).Some? then Some(Image(lines).value + Assembled(line).value) else None
  {
    hide Assembled;
    if lines == [] {
      assert lines + [line] == [line] && [line][1..] == [];
      if Assembled(line).Some? {
        var b := Assembled(line).value;
        assert b + [] == [] + b;
      }
    } else {
      assert (lines + [line])[1..] == lines[1..] + [line];
      ImageAppend(lines[1..], line);
      if Image(lines).Some? && Assembled(line).Some? {
        var b, rest, last := Assembled(lines[0]).value, Image(lines[1..]).value, Assembled(line).value;
        assert b + (rest + last) == (b + rest) + last;
      }
    }
  }

  lemma {:induction false} ImagePrefix(lines: seq<Line>, k: nat)
    requires k <= |lines| && Image(lines).Some?
    ensures Image(lines[..k]).Some? && Image(lines[..k]).value <= Image(lines).value
    decreases |lines| - k
  {
    hide Assembled;
    if k == |lines| {
      assert lines[..k] == lines;
    } else {
      ImagePrefix(lines, k + 1);
      assert lines[..k + 1] == lines[..k] + [lines[k]];
      ImageAppend(lines[..k], lines[k]);
    }
  }

  /** Loading two buffers one after the other is loading them joined. */
  lemma LoadsConcat(m: Memory, addr: word, x: seq<byte>, y: seq<byte>)
    requires addr + |x| < BUS_SIZE && addr + |x| + |y| <= BUS_SIZE
    ensures StoreAll(StoreAll(m, Loads(addr, x)), Loads(addr + |x|, y)) == StoreAll(m, Loads(addr, x + y))
  {
    hide Store;
    assert Loads(addr, x + y) == Loads(addr, x) + Loads(addr + |x|, y);
    StoreAllAppend(m, Loads(addr, x), Loads(addr + |x|, y));
  }

  // ---------------------------------------------------------------- decoding

  /** A linear decode of `n` instructions. */
  function DecodeFrom(m: Memory, pc: word, n: nat): (s: seq<Insn>)
    ensures |s| == n
    decreases n
  {
    if n == 0 then []
    else
      var i := Fetch(m, pc);
      [i] + DecodeFrom(m, (pc + i.def.size) % 0x1_0000, n - 1)
  }

  /** The decoded instruction is the line: mnemonic, mode and the operands the
      mode carries. */
  predicate Reads(i: Insn, line: Line) {
    && Mnemonic(i.def.op) == line.mnemonic && i.def.mode == line.mode
    && (Operands(line.mode) >= 1 ==> i.op1 == line.op1) && (Operands(line.mode) >= 2 ==> i.op2 == line.op2)
  }

  /** Memory holds `s` from `start`. */
  predicate Holds(m: Memory, start: word, s: seq<byte>) {
    start + |s| <= 0x1_0000 && forall k :: 0 <= k < |s| ==> Load(m, start + k) == s[k]
  }

  lemma DecodesOne(m: Memory, start: word, line: Line)
    requires Assembled(line).Some? && Holds(m, start, Assembled(line).value)
    ensures Reads(Fetch(m, start), line) && Fetch(m, start).def.size == |Assembled(line).value|
  {
    hide Def, Load, Mnemonic;
    var opcode := FirstNamed(line.mnemonic, line.mode, 0).value;
    var b := Bytes(opcode, line.op1, line.op2);
    assert RowOk(opcode, Def(opcode));
    assert Load(m, start + 0) == b[0];
    if |b| > 1 {
      assert Load(m, start + 1) == b[1];
    }
    if |b| > 2 {
      assert Load(m, start + 2) == b[2];
    }
  }

  /** Decoding memory that holds a program returns the program. */
  lemma {:induction false} DecodesProgram(m: Memory, start: word, lines: seq<Line>, k: nat)
    requires Image(lines).Some? && Holds(m, start, Image(lines).value) && k < |lines|
    ensures Reads(DecodeFrom(m, start, |lines|)[k], lines[k])
    decreases |lines|
  {
    hide Assembled, Fetch, Reads, Holds, Image, DecodeFrom;
    ImageHead(lines);
    DecodeHead(m, start, |lines|, k);
    var b, rest := Assembled(lines[0]).value, Image(lines[1..]).value;
    HoldsBoth(m, start, b, rest);
    DecodesOne(m, start, lines[0]);
    if k > 0 {
      ImageNonEmpty(lines[1..]);
      DecodesProgram(m, start + |b|, lines[1..], k - 1);
    }
  }

  lemma ImageHead(lines: seq<Line>)
    requires lines != [] && Image(lines).Some?
    ensures Assembled(lines[0]).Some? && Image(lines[1..]).Some?
    ensures Image(lines).value == Assembled(lines[0]).value + Image(lines[1..]).value
  {
    hide Assembled;
  }

  lemma DecodeHead(m: Memory, pc: word, n: nat, k: nat)
    requires k < n
    ensures var next := (pc + Fetch(m, pc).def.size) % 0x1_0000;
            DecodeFrom(m, pc, n)[k] == if k == 0 then Fetch(m, pc) else DecodeFrom(m, next, n - 1)[k - 1]
  {
    hide Fetch;
  }

  lemma HoldsBoth(m: Memory, start: word, b: seq<byte>, rest: seq<byte>)
    requires Holds(m, start, b + rest)
    ensures Holds(m, start, b) && (rest != [] ==> start + |b| < 0x1_0000 && Holds(m, start + |b|, rest))
  {
    hide Load;
    assert forall j :: 0 <= j < |b| ==> (b + rest)[j] == b[j];
    assert forall j :: 0 <= j < |rest| ==> rest[j] == (b + rest)[|b| + j];
  }

  lemma AssembledSize(line: Line)
    ensures Assembled(line).Some? ==> 1 <= |Assembled(line).value| <= 3
  {
    hide Def, FirstNamed;
    if Assembled(line).Some? {
      var opcode := FirstNamed(line.mnemonic, line.mode, 0).value;
      assert RowOk(opcode, Def(opcode));
    }
  }

  lemma ImageNonEmpty(lines: seq<Line>)
    requires lines != [] && Image(lines).Some?
    ensures |Image(lines).value| > 0
  {
    hide Assembled;
    AssembledSize(lines[0]);
  }

  /** Loading bytes into RAM stores them. */
  lemma {:induction false} LoadsHold(m: Memory, addr: word, buf: seq<byte>)
    requires addr + |buf| <= 0x1_0000 && !m.paged && forall a :: addr <= a < addr + |buf| ==> m.backed[a]
    ensures Holds(StoreAll(m, Loads(addr, buf)), addr, buf) && SameLayout(m, StoreAll(m, Loads(addr, buf)))
  {
    hide StoreAll;
    StoreAllLayout(m, Loads(addr, buf));
    if buf != [] {
      var n := |buf| - 1;
      LoadsHold(m, addr, buf[..n]);
      StoreAllLayout(m, Loads(addr, buf[..n]));
      assert buf == buf[..n] + [buf[n]];
      LoadsAppend(m, addr, buf[..n], buf[n]);
    }
  }

  /** What the decoder reads, the assembler writes back: the same opcode and the
      same operand bytes. */
  lemma Reassembles(m: Memory, pc: word)
    requires !Fetch(m, pc).def.op.INVALID?
    ensures var i := Fetch(m, pc);
            var b := Assembled(Line(Mnemonic(i.def.op), i.def.mode, i.op1, i.op2));
            && b.Some? && |b.value| == i.def.size
            && forall k :: 0 <= k <= Operands(i.def.mode) ==> b.value[k] == Load(m, (pc + k) % 0x1_0000)
  {
    hide Def, Load, Mnemonic, FirstNamed;
    var i := Fetch(m, pc);
    NamedOnce(i.opcode);
  }

  class Program {
    const bus: AddressBus
    var pc: word

    /** assemble_init. */
    constructor (b: AddressBus, start: word)
      ensures bus == b && pc == start
    {
      bus, pc := b, start;
    }

    /** assemble_single. The PC moves on even when the bytes did not fit. */
    method AssembleSingle(line: Line) returns (ok: bool)
      requires bus.Flat()
      modifies this, bus.Arrays()
      ensures match Assembled(line)
              case None => !ok && pc == old(pc) && bus.Memory64() == old(bus.Memory64())
              case Some(b) =>
                && ok == (old(pc) + |b| <= BUS_SIZE) && pc == (old(pc) + |b|) % 0x1_0000
                && bus.Memory64() == if ok then StoreAll(old(bus.Memory64()), Loads(old(pc), b)) else old(bus.Memory64())
    {
      hide Assembled, StoreAll;
      var b := AssembleSingleBuf(line);
      if b.None? {
        return false;
      }
      AssembledSize(line);
      ok := bus.LoadBuf(pc, b.value);
      pc := (pc + |b.value|) % 0x1_0000;
    }

    /** The lines of a program assembled in order, then decoded from its start. */
    method Assemble(lines: seq<Line>) returns (ok: bool)
      requires bus.Flat() && Image(lines).Some? && pc + |Image(lines).value| <= BUS_SIZE
      modifies this, bus.Arrays()
      ensures ok && bus.Memory64() == StoreAll(old(bus.Memory64()), Loads(old(pc), Image(lines).value))
      ensures (forall a: addr32 :: old(pc) <= a < old(pc) + |Image(lines).value| ==> bus.Target(a).Some?) ==>
                forall k :: 0 <= k < |lines| ==> Reads(DecodeFrom(bus.Memory64(), old(pc), |lines|)[k], lines[k])
    {
      hide Assembled, StoreAll, Reads, DecodeFrom;
      ghost var m, start, code := bus.Memory64(), pc, Image(lines).value;
      ok := true;
      assert lines[..0] == [];
      assert StoreAll(m, Loads(start, [])) == m by { NoLoads(m, start, []); }
      for k := 0 to |lines|
        invariant ok && Image(lines[..k]).Some? && Image(lines[..k]).value <= code
        invariant pc == (start + |Image(lines[..k]).value|) % 0x1_0000
        invariant bus.Memory64() == StoreAll(m, Loads(start, Image(lines[..k]).value))
      {
        NextLine(lines, k);
        LoadsConcat(m, start, Image(lines[..k]).value, Assembled(lines[k]).value);
        ok := AssembleSingle(lines[k]);
      }
      assert lines[..|lines|] == lines;
      if forall a: addr32 :: start <= a < start + |code| ==> bus.Target(a).Some? {
        forall a | start <= a < start + |code|
          ensures m.backed[a]
        {
          assert bus.Target(a).Some?;
        }
        LoadsHold(m, start, code);
        forall k | 0 <= k < |lines|
          ensures Reads(DecodeFrom(bus.Memory64(), start, |lines|)[k], lines[k])
        {
          DecodesProgram(bus.Memory64(), start, lines, k);
        }
      }
    }
  }

  lemma NextLine(lines: seq<Line>, k: nat)
    requires k < |lines| && Image(lines).Some?
    ensures Image(lines[..k]).Some? && Assembled(lines[k]).Some? && 0 < |Assembled(lines[k]).value|
    ensures Image(lines[..k + 1]) == Some(Image(lines[..k]).value + Assembled(lines[k]).value)
    ensures Image(lines[..k + 1]).value <= Image(lines).value
  {
    hide Assembled, Image;
    ImagePrefix(lines, k + 1);
    assert lines[..k + 1] == lines[..k] + [lines[k]];
    ImageAppend(lines[..k], lines[k]);
    AssembledSize(lines[k]);
  }
}

/** The helpers of the 8086 disassembler/simulator in `part1.py`: splitting a
    byte into bits and joining them back, the REG and MOD/R/M operand tables
    (chapter 4 of the Intel 8086 Family User's Manual), immediate and
    displacement bytes read through a cursor over the instruction stream,
    the arithmetic opcode table and the 16-bit register pairs made of two
    8-bit fields. */
module Decoder {
  import opened Common

  type bit = x: int | 0 <= x <= 1

  function Pow2(n: nat): (r: nat)
    ensures r >= 1
  {
    if n == 0 then 1 else 2 * Pow2(n - 1)
  }

  /** The low `n` bits of `c`, most significant first. */
  function BitsOf(c: nat, n: nat): (r: seq<bit>)
    ensures |r| == n
  {
    if n == 0 then [] else BitsOf(c / 2, n - 1) + [c % 2]
  }

  /** `bits(char)`: the 8 bits of `c`, most significant first (the source
      collects `(c & (1 << i)) >> i` for `i` from 0 to 7 and reverses). */
  function Bits(c: byte): (r: seq<bit>)
    ensures |r| == 8
  {
    BitsOf(c, 8)
  }

  /** `bits_to_byte(*args)`: the number whose binary digits, most significant
      first, are `args` (each argument shifted to its place and or-ed in;
      for 0/1 arguments this is the sum below, taken from the last digit). */
  function BitsToByte(args: seq<bit>): (r: nat)
    ensures r < Pow2(|args|)
  {
    if args == [] then 0 else 2 * BitsToByte(args[..|args| - 1]) + args[|args| - 1]
  }

  /** Splitting a number below 2^n into n bits and joining them gives it back. */
  lemma {:induction false} JoinSplit(c: nat, n: nat)
    requires c < Pow2(n)
    ensures BitsToByte(BitsOf(c, n)) == c
  {
    if n > 0 {
      JoinSplit(c / 2, n - 1);
      var r := BitsOf(c, n);
      assert r[..n - 1] == BitsOf(c / 2, n - 1);
    }
  }

  /** Joining n bits gives a number below 2^n whose n-bit split is those bits. */
  lemma {:induction false} SplitJoin(args: seq<bit>)
    ensures BitsToByte(args) < Pow2(|args|)
    ensures BitsOf(BitsToByte(args), |args|) == args
  {
    if args != [] {
      var n := |args|;
      var init := args[..n - 1];
      SplitJoin(init);
      var m := BitsToByte(init);
      assert BitsToByte(args) == 2 * m + args[n - 1];
      assert (2 * m + args[n - 1]) / 2 == m && (2 * m + args[n - 1]) % 2 == args[n - 1];
      assert init + [args[n - 1]] == args;
    }
  }

  /** `bits` yields eight values in {0, 1} and `bits_to_byte` undoes it. */
  lemma BitsRoundTrip(c: byte)
    ensures BitsToByte(Bits(c)) == c
  {
    assert Pow2(8) == 256;
    JoinSplit(c, 8);
  }

  /** Joining any eight bits and splitting the result gives the bits back. */
  lemma BitsToByteRoundTrip(args: seq<bit>)
    requires |args| == 8
    ensures BitsToByte(args) < 256 && Bits(BitsToByte(args)) == args
  {
    assert Pow2(8) == 256;
    SplitJoin(args);
  }

  /** `decode_reg(bits, w)`: the register a 3-bit REG (or R/M) field names;
      byte registers when `w == 0`, word registers otherwise, and the empty
      name for a code outside 0..7. */
  function DecodeReg(code: int, w: int): (r: string)
    ensures |r| == 2 <==> 0 <= code < 8
    ensures !(0 <= code < 8) ==> r == ""
  {
    match code
    case 0 => if w == 0 then "al" else "ax"
    case 1 => if w == 0 then "cl" else "cx"
    case 2 => if w == 0 then "dl" else "dx"
    case 3 => if w == 0 then "bl" else "bx"
    case 4 => if w == 0 then "ah" else "sp"
    case 5 => if w == 0 then "ch" else "bp"
    case 6 => if w == 0 then "dh" else "si"
    case 7 => if w == 0 then "bh" else "di"
    case _ => ""
  }

  /** For a fixed width, different codes name different registers. */
  lemma DecodeRegInjective(a: int, b: int, w: int)
    requires 0 <= a < 8 && 0 <= b < 8 && a != b
    ensures DecodeReg(a, w) != DecodeReg(b, w)
  {
  }

  /** The eight byte registers are the low (`l`) halves of AX, CX, DX, BX for
      codes 0..3 and their high (`h`) halves for codes 4..7. */
  lemma ByteRegistersAreHalves(code: int)
    requires 0 <= code < 4
    ensures DecodeReg(code, 0) == [DecodeReg(code, 1)[0], 'l']
    ensures DecodeReg(code + 4, 0) == [DecodeReg(code, 1)[0], 'h']
    ensures DecodeReg(code, 1)[1] == 'x'
  {
  }

  /** `decode_arithmetic_op(code)`. */
  function DecodeArithmeticOp(code: int): (r: string)
    ensures r in {"add", "adc", "sub", "cmp"}
    ensures r == "adc" <==> code == 0x2
    ensures r == "sub" <==> code == 0x5
    ensures r == "cmp" <==> code == 0x7
    ensures r == "add" <==> code !in {0x2, 0x5, 0x7}
  {
    match code
    case 2 => "adc"
    case 5 => "sub"
    case 7 => "cmp"
    case _ => "add"
  }

  /** A decimal digit character. */
  function Digit(d: nat): char
    requires d < 10
  {
    ['0', '1', '2', '3', '4', '5', '6', '7', '8', '9'][d]
  }

  /** Python's `str(n)` for `n >= 0`: decimal, no leading zeros. */
  function Decimal(n: nat): (r: string)
    ensures |r| >= 1
    decreases n
  {
    if n < 10 then [Digit(n)] else Decimal(n / 10) + [Digit(n % 10)]
  }

  /** The value a string of decimal digits denotes. */
  function DecimalValue(s: string): int
  {
    if s == [] then 0 else 10 * DecimalValue(s[..|s| - 1]) + (s[|s| - 1] as int - '0' as int)
  }

  /** Reading back the decimal text gives the number. */
  lemma {:induction false} DecimalRoundTrip(n: nat)
    ensures DecimalValue(Decimal(n)) == n
    decreases n
  {
    if n >= 10 {
      DecimalRoundTrip(n / 10);
      var s := Decimal(n);
      assert s[..|s| - 1] == Decimal(n / 10);
    }
  }

  /** Different numbers print differently. */
  lemma DecimalInjective(m: nat, n: nat)
    requires Decimal(m) == Decimal(n)
    ensures m == n
  {
    DecimalRoundTrip(m);
    DecimalRoundTrip(n);
  }

  /** The opening of a memory operand for each R/M code (effective-address
      table for MOD 00, 01 and 10); the empty text for a code outside 0..7. */
  function RmBase(rm: int): string
  {
    match rm
    case 0 => "[BX + SI"
    case 1 => "[BX + DI"
    case 2 => "[BP + SI"
    case 3 => "[BP + DI"
    case 4 => "[SI"
    case 5 => "[DI"
    case 6 => "[BP"
    case 7 => "[BX"
    case _ => ""
  }

  /** How many displacement bytes follow for a MOD field other than 11. */
  function DisplacementSize(mod: int): nat
  {
    if mod == 1 then 1 else if mod == 2 then 2 else 0
  }

  /** An unsigned little-endian number: `hi << 8 | lo` for two bytes. */
  function LittleEndian(bytes: seq<byte>): (r: nat)
    requires |bytes| <= 2
    ensures r < Pow2(8 * |bytes|)
  {
    if |bytes| == 0 then 0
    else if |bytes| == 1 then bytes[0]
    else assert Pow2(16) == 65536 by { assert Pow2(8) == 256; } bytes[1] as int * 256 + bytes[0]
  }

  /** The text of a memory operand: the R/M opening, ` + <disp>` when the
      displacement is not zero, then `]`. */
  function MemoryOperand(rm: int, disp: nat): string
  {
    RmBase(rm) + (if disp != 0 then " + " + Decimal(disp) else "") + "]"
  }

  /** For a fixed R/M code, the operand text determines the displacement. */
  lemma MemoryOperandDeterminesDisplacement(rm: int, d1: nat, d2: nat)
    requires MemoryOperand(rm, d1) == MemoryOperand(rm, d2)
    ensures d1 == d2
  {
    var base := RmBase(rm);
    var t1 := MemoryOperand(rm, d1);
    if d1 != 0 && d2 != 0 {
      var s1 := Decimal(d1);
      var s2 := Decimal(d2);
      assert t1[|base| + 3..|t1| - 1] == s1;
      assert t1[|base| + 3..|t1| - 1] == s2;
      DecimalInjective(d1, d2);
    }
  }

  /** An 8-bit two's-complement value (`np.int8(np.uint8(b))`). */
  function Signed8(b: nat): (r: int)
    requires b < 256
    ensures -128 <= r < 128 && r % 256 == b
  {
    if b >= 128 then b - 256 else b
  }

  /** A 16-bit two's-complement value (`np.int16(np.uint16(v))`). */
  function Signed16(v: nat): (r: int)
    requires v < 65536
    ensures -32768 <= r < 32768 && r % 65536 == v
  {
    if v >= 32768 then v - 65536 else v
  }

  /** Every signed 16-bit value survives being written as two little-endian
      bytes and read back as `decode_imm_data(1)` does. */
  lemma Imm16RoundTrip(v: int)
    requires -32768 <= v < 32768
    ensures var u := v % 65536;
      Signed16(LittleEndian([u % 256, u / 256])) == v
  {
    assert Pow2(8) == 256;
  }

  /** Every signed 8-bit value survives a one-byte round trip. */
  lemma Imm8RoundTrip(v: int)
    requires -128 <= v < 128
    ensures Signed8(v % 256) == v
  {
  }

  /** `decode_imm_data(w)`'s value from the bytes it read: 16-bit when
      `w == 1`, otherwise the first byte as 8-bit (a second byte is still
      read for any `w` other than 0). */
  function ImmValue(bytes: seq<byte>, w: int): int
    requires |bytes| == (if w == 0 then 1 else 2)
  {
    if w == 1 then Signed16(LittleEndian(bytes)) else Signed8(bytes[0])
  }

  /** Bytes `decode_add_data(w, s)` reads: a second one only when
      `w != 0 and s != 1`. */
  function AddDataSize(w: int, s: int): nat
  {
    if w == 0 || s == 1 then 1 else 2
  }

  /** `decode_add_data(w, s)`'s value: 16-bit only when `w == 1 and s == 0`. */
  function AddDataValue(bytes: seq<byte>, w: int, s: int): int
    requires |bytes| == AddDataSize(w, s)
  {
    if w == 1 && s == 0 then Signed16(LittleEndian(bytes)) else Signed8(bytes[0])
  }

  /** The sign-extended case of the 8086 immediate (S = 1, W = 1) reads one
      byte and yields a value in -128..127; the plain word case (S = 0, W = 1)
      reads two. */
  lemma AddDataWidths(bytes: seq<byte>)
    requires |bytes| == 2
    ensures AddDataSize(1, 1) == 1 && AddDataSize(1, 0) == 2 && AddDataSize(0, 0) == 1
    ensures -128 <= AddDataValue(bytes[..1], 1, 1) < 128
    ensures AddDataValue(bytes, 1, 0) == Signed16(bytes[1] as int * 256 + bytes[0])
  {
  }

  /** The instruction stream and the global `current_byte` cursor. The
      program ends (`finished()`) when a byte is requested past the end;
      here that is a `None` result. */
  class ByteCursor {
    const binary: seq<byte>
    var current: nat

    ghost predicate Valid()
      reads this
    {
      current <= |binary|
    }

    constructor (binary: seq<byte>)
      ensures Valid() && this.binary == binary && current == 0
    {
      this.binary := binary;
      current := 0;
    }

    /** `get_byte()`. */
    method GetByte() returns (r: Option<byte>)
      requires Valid()
      modifies this
      ensures Valid()
      ensures old(current) < |binary| ==> r == Some(binary[old(current)]) && current == old(current) + 1
      ensures old(current) == |binary| ==> r == None && current == old(current)
    {
      if current >= |binary| {
        return None;
      }
      r := Some(binary[current]);
      current := current + 1;
    }

    /** `decode_reg02(rm, mod, w)`: MOD 11 names a register and reads
        nothing; otherwise a memory operand whose displacement (one byte for
        MOD 01, two little-endian bytes for MOD 10, none for MOD 00) is read
        from the stream and shown only when it is not zero. */
    method DecodeReg02(rm: int, mod: int, w: int) returns (r: Option<string>)
      requires Valid()
      modifies this
      ensures Valid()
      ensures mod == 3 ==> r == Some(DecodeReg(rm, w)) && current == old(current)
      ensures mod != 3 && old(current) + DisplacementSize(mod) <= |binary| ==>
        var disp := binary[old(current)..old(current) + DisplacementSize(mod)];
        && current == old(current) + DisplacementSize(mod)
        && r == Some(MemoryOperand(rm, LittleEndian(disp)))
      ensures mod != 3 && old(current) + DisplacementSize(mod) > |binary| ==> r == None && current == |binary|
    {
      if mod == 3 {
        return Some(DecodeReg(rm, w));
      }
      var result := RmBase(rm);
      var disp := 0;
      if mod == 1 {
        var d8 := GetByte();
        if d8.None? {
          return None;
        }
        disp := d8.value;
        result := result + if disp != 0 then " + " + Decimal(disp) else "";
        assert binary[old(current)..old(current) + 1] == [d8.value];
      }
      if mod == 2 {
        var lo := GetByte();
        if lo.None? {
          return None;
        }
        var hi := GetByte();
        if hi.None? {
          return None;
        }
        disp := hi.value as int * 256 + lo.value;
        result := result + if disp != 0 then " + " + Decimal(disp) else "";
        assert binary[old(current)..old(current) + 2] == [lo.value, hi.value];
      }
      assert LittleEndian(binary[old(current)..old(current) + DisplacementSize(mod)]) == disp;
      assert result == RmBase(rm) + (if disp != 0 then " + " + Decimal(disp) else "");
      result := result + "]";
      r := Some(result);
    }

    /** `decode_imm_data(w)`. */
    method DecodeImmData(w: int) returns (r: Option<int>)
      requires Valid()
      modifies this
      ensures Valid()
      ensures var size := if w == 0 then 1 else 2;
        && (old(current) + size <= |binary| ==>
              current == old(current) + size && r == Some(ImmValue(binary[old(current)..current], w)))
        && (old(current) + size > |binary| ==> r == None && current == |binary|)
    {
      var byte1 := GetByte();
      if byte1.None? {
        return None;
      }
      var byte2: int := 0;
      if w != 0 {
        var next := GetByte();
        if next.None? {
          return None;
        }
        byte2 := next.value;
        assert binary[old(current)..current] == [byte1.value, byte2];
      }
      if w == 1 {
        r := Some(Signed16(byte2 * 256 + byte1.value));
      } else {
        r := Some(Signed8(byte1.value));
      }
    }

    /** `decode_add_data(w, s)`. */
    method DecodeAddData(w: int, s: int) returns (r: Option<int>)
      requires Valid()
      modifies this
      ensures Valid()
      ensures old(current) + AddDataSize(w, s) <= |binary| ==>
        current == old(current) + AddDataSize(w, s) && r == Some(AddDataValue(binary[old(current)..current], w, s))
      ensures old(current) + AddDataSize(w, s) > |binary| ==> r == None && current == |binary|
    {
      var byte1 := GetByte();
      if byte1.None? {
        return None;
      }
      var byte2: int := 0;
      if !(w == 0 || s == 1) {
        var next := GetByte();
        if next.None? {
          return None;
        }
        byte2 := next.value;
        assert binary[old(current)..current] == [byte1.value, byte2];
      }
      if w == 1 && s == 0 {
        r := Some(Signed16(byte2 * 256 + byte1.value));
      } else {
        r := Some(Signed8(byte1.value));
      }
    }
  }

  /** The four general-purpose register pairs. */
  datatype RegisterPair = AX | BX | CX | DX

  /** The register file of the simulator. Each pair is kept as two byte
      fields; as written, the getter puts the `*l` field in the high byte and
      the `*h` field in the low byte. */
  class Registers {
    var ah: byte
    var al: byte
    var bh: byte
    var bl: byte
    var ch: byte
    var cl: byte
    var dh: byte
    var dl: byte
    var sp: nat
    var bp: nat
    var si: nat
    var di: nat
    var cf: bool
    var af: bool
    var sf: bool
    var zf: bool
    var pf: bool
    var of: bool

    /** All registers and flags zero. */
    constructor ()
      ensures ah == al == bh == bl == ch == cl == dh == dl == 0
      ensures sp == bp == si == di == 0
      ensures !cf && !af && !sf && !zf && !pf && !of
    {
      ah, al, bh, bl, ch, cl, dh, dl := 0, 0, 0, 0, 0, 0, 0, 0;
      sp, bp, si, di := 0, 0, 0, 0;
      cf, af, sf, zf, pf, of := false, false, false, false, false, false;
    }

    /** The high and low field of a pair, in the order `(*l, *h)`. */
    function Fields(p: RegisterPair): (byte, byte)
      reads this
    {
      match p
      case AX => (al, ah)
      case BX => (bl, bh)
      case CX => (cl, ch)
      case DX => (dl, dh)
    }

    /** `_get_ax` and its siblings: `(*l << 8) | *h`. */
    function Get(p: RegisterPair): (r: nat)
      reads this
      ensures r < 65536
    {
      Fields(p).0 * 256 + Fields(p).1
    }

    /** `_set_ax(val)` and its siblings: `*h = val % 256`,
        `*l = (val >> 8) % 256` (Python's floor semantics). */
    method Set(p: RegisterPair, val: int)
      modifies this
      ensures Fields(p) == ((val / 256) % 256, val % 256)
      ensures Get(p) == val % 65536 && (0 <= val < 65536 ==> Get(p) == val)
      ensures forall q :: q != p ==> Fields(q) == old(Fields(q))
      ensures sp == old(sp) && bp == old(bp) && si == old(si) && di == old(di)
      ensures cf == old(cf) && af == old(af) && sf == old(sf) && zf == old(zf) && pf == old(pf) && of == old(of)
    {
      match p {
        case AX => ah := val % 256; al := (val / 256) % 256;
        case BX => bh := val % 256; bl := (val / 256) % 256;
        case CX => ch := val % 256; cl := (val / 256) % 256;
        case DX => dh := val % 256; dl := (val / 256) % 256;
      }
      SetThenGet(Fields(p).0, Fields(p).1, val);
    }

    /** `_del_ax` and its siblings. */
    method Delete(p: RegisterPair)
      modifies this
      ensures Fields(p) == (0, 0) && Get(p) == 0
      ensures forall q :: q != p ==> Fields(q) == old(Fields(q))
      ensures sp == old(sp) && bp == old(bp) && si == old(si) && di == old(di)
      ensures cf == old(cf) && af == old(af) && sf == old(sf) && zf == old(zf) && pf == old(pf) && of == old(of)
    {
      match p
      case AX => ah := 0; al := 0;
      case BX => bh := 0; bl := 0;
      case CX => ch := 0; cl := 0;
      case DX => dh := 0; dl := 0;
    }
  }

  /** What a pair reads as after `Set(p, val)`: `val` modulo 2^16, so a
      16-bit value reads back unchanged and a negative one wraps. */
  lemma SetThenGet(high: byte, low: byte, val: int)
    requires high == (val / 256) % 256 && low == val % 256
    ensures high * 256 + low == val % 65536
    ensures 0 <= val < 65536 ==> high * 256 + low == val
  {
  }
}

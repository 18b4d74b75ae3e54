/** The input side of `haversine.cpp`: the growable vector of coordinate
    pairs (`pairvec_*`), the string builder (`strb_*`) and the byte-level
    state machine `ParseHaversineJson`, which reads records of the form
    `{"x0": .., "y0": .., "x1": .., "y1": ..}` out of a JSON array.
    `strtod` is a parameter: a function from the bytes of a C string to a
    number. Doubles are modelled as reals; no arithmetic is done on them. */
module Haversine {
  import opened Common

  datatype HaversinePair = HaversinePair(x0: real, y0: real, x1: real, y1: real)

  /** A zero-initialised `HaversinePair` (`= {}`). */
  const ZERO_PAIR: HaversinePair := HaversinePair(0.0, 0.0, 0.0, 0.0)

  /** Starting capacities of the two growth rules. */
  const PAIRVEC_BASE: nat := 16
  const STRB_BASE: nat := 32

  /** The doubling loop of both `reserve` functions: `nc` doubled until it is
      at least `want`. */
  function Doubled(nc: nat, want: nat): nat
    requires nc > 0
    decreases want - nc
  {
    if nc >= want then nc else Doubled(2 * nc, want)
  }

  /** The capacity after `reserve(want)` on a buffer of capacity `cap`: no
      change when `want <= cap`, else the old capacity (or `base` when it was
      zero) doubled until it reaches `want`. */
  function Reserved(cap: nat, want: nat, base: nat): nat
    requires base > 0
  {
    if want <= cap then cap else Doubled(if cap != 0 then cap else base, want)
  }

  /** Doubling reaches `want`, never shrinks, and does not overshoot: when
      any doubling happens, the result is less than twice `want`. */
  lemma {:induction false} DoubledIsLeastSufficient(nc: nat, want: nat)
    requires nc > 0
    ensures Doubled(nc, want) >= want && Doubled(nc, want) >= nc
    ensures Doubled(nc, want) > nc ==> Doubled(nc, want) < 2 * want
    decreases want - nc
  {
    if nc < want {
      DoubledIsLeastSufficient(2 * nc, want);
    }
  }

  /** `reserve` either keeps the capacity or grows it to at least `want`. */
  lemma ReservedSuffices(cap: nat, want: nat, base: nat)
    requires base > 0
    ensures Reserved(cap, want, base) >= want && Reserved(cap, want, base) >= cap
    ensures want <= cap ==> Reserved(cap, want, base) == cap
  {
    if want > cap {
      DoubledIsLeastSufficient(if cap != 0 then cap else base, want);
    }
  }

  /** `VecHaversinePair`: `data[0..len)` in use out of `cap` slots. */
  class PairVec {
    var data: array<HaversinePair>
    var len: nat
    var cap: nat

    ghost predicate Valid()
      reads this
    {
      data.Length == cap && len <= cap
    }

    function Contents(): seq<HaversinePair>
      reads this, data
      requires Valid()
    {
      data[..len]
    }

    /** A zero-initialised vector: no buffer, no capacity. */
    constructor Empty()
      ensures Valid() && fresh(data) && len == 0 && cap == 0
    {
      data := new HaversinePair[0];
      len := 0;
      cap := 0;
    }

    /** `pairvec_reserve(v, want)`. A failing `realloc` exits the process and
        is not modelled. */
    method Reserve(want: nat)
      requires Valid()
      modifies this
      ensures Valid() && len == old(len) && Contents() == old(Contents())
      ensures cap == Reserved(old(cap), want, PAIRVEC_BASE)
      ensures want <= old(cap) ==> data == old(data)
      ensures want > old(cap) ==> fresh(data)
    {
      if want <= cap {
        return;
      }
      var newCap := if cap != 0 then cap else PAIRVEC_BASE;
      while newCap < want
        invariant newCap > 0
        invariant Doubled(newCap, want) == Doubled(if cap != 0 then cap else PAIRVEC_BASE, want)
        decreases want - newCap
      {
        newCap := newCap * 2;
      }
      var moved := new HaversinePair[newCap](_ => ZERO_PAIR);
      forall i | 0 <= i < cap {
        moved[i] := data[i];
      }
      data := moved;
      cap := newCap;
    }

    /** `pairvec_push(v, p)`: a full vector first grows to twice its
        capacity (16 when it had none), then `p` goes at index `len`. */
    method Push(p: HaversinePair)
      requires Valid()
      modifies this, data
      ensures Valid() && Contents() == old(Contents()) + [p]
      ensures cap == if old(len) == old(cap) then Reserved(old(cap), if old(cap) != 0 then 2 * old(cap) else PAIRVEC_BASE, PAIRVEC_BASE) else old(cap)
      ensures cap >= old(cap)
      ensures data == old(data) || fresh(data)
    {
      if len == cap {
        ReservedSuffices(cap, if cap != 0 then cap * 2 else PAIRVEC_BASE, PAIRVEC_BASE);
        Reserve(if cap != 0 then cap * 2 else PAIRVEC_BASE);
      }
      data[len] := p;
      len := len + 1;
    }
  }

  /** `StrB`: the bytes `buf[0..len)` of a string being built, in a buffer of
      `cap` bytes that always keeps room for a terminating NUL once it has a
      buffer at all. */
  class StrB {
    var buf: array<byte>
    var len: nat
    var cap: nat

    ghost predicate Valid()
      reads this
    {
      buf.Length == cap && (len < cap || len == cap == 0)
    }

    function Contents(): seq<byte>
      reads this, buf
      requires Valid()
    {
      buf[..len]
    }

    constructor Empty()
      ensures Valid() && fresh(buf) && len == 0 && cap == 0
    {
      buf := new byte[0];
      len := 0;
      cap := 0;
    }

    /** `strb_reset`: empties the string; buffer and capacity stay. */
    method Reset()
      requires Valid()
      modifies this
      ensures Valid() && len == 0 && cap == old(cap) && buf == old(buf)
      ensures Contents() == []
    {
      len := 0;
    }

    /** `strb_reserve(s, want)`. */
    method Reserve(want: nat)
      requires Valid()
      modifies this
      ensures Valid() && len == old(len) && Contents() == old(Contents())
      ensures cap == Reserved(old(cap), want, STRB_BASE)
      ensures want <= old(cap) ==> buf == old(buf)
      ensures want > old(cap) ==> fresh(buf)
    {
      if want <= cap {
        return;
      }
      var newCap := if cap != 0 then cap else STRB_BASE;
      while newCap < want
        invariant newCap > 0
        invariant Doubled(newCap, want) == Doubled(if cap != 0 then cap else STRB_BASE, want)
        decreases want - newCap
      {
        newCap := newCap * 2;
      }
      DoubledIsLeastSufficient(if cap != 0 then cap else STRB_BASE, want);
      var moved := new byte[newCap](_ => 0);
      forall i | 0 <= i < cap {
        moved[i] := buf[i];
      }
      buf := moved;
      cap := newCap;
    }

    /** `strb_pushc(s, c)`: grows (to twice the capacity, or 32) when fewer
        than two free bytes remain, then appends `c`; afterwards there is
        still room for a terminator. */
    method PushChar(c: byte)
      requires Valid()
      modifies this, buf
      ensures Valid() && Contents() == old(Contents()) + [c]
      ensures len < cap
      ensures cap == if old(len) + 1 >= old(cap) then Reserved(old(cap), if old(cap) != 0 then 2 * old(cap) else STRB_BASE, STRB_BASE) else old(cap)
      ensures buf == old(buf) || fresh(buf)
    {
      if len + 1 >= cap {
        ReservedSuffices(cap, if cap != 0 then cap * 2 else STRB_BASE, STRB_BASE);
        Reserve(if cap != 0 then cap * 2 else STRB_BASE);
      }
      buf[len] := c;
      len := len + 1;
    }

    /** `strb_cstr(s)`: writes a NUL at `buf[len]`, growing the buffer first
        if needed, and returns the buffer read as a C string: the contents up
        to their first NUL byte. */
    method CStr() returns (s: seq<byte>)
      requires Valid()
      modifies this, buf
      ensures Valid() && len == old(len) && Contents() == old(Contents())
      ensures len < cap && buf[len] == 0
      ensures s == CString(Contents(), 0)
      ensures buf == old(buf) || fresh(buf)
    {
      if len + 1 >= cap {
        ReservedSuffices(cap, len + 2, STRB_BASE);
        Reserve(len + 2);
      }
      buf[len] := 0;
      s := CString(buf[..], 0);
      CStringUpToNul(buf[..], 0, len);
      assert buf[..][..len] == buf[..len];
    }
  }

  /** `HaversineParsingState`. */
  datatype ParsingState = OpenBracket | OpenBrace | KeyStart | Key | Colon | Value | Comma | CloseBrace

  /** Space, tab, CR and LF. */
  predicate IsWhitespace(b: byte)
  {
    b == 0x0A || b == 0x09 || b == 0x0D || b == 0x20
  }

  /** The keys `"x0"`, `"y0"`, `"x1"`, `"y1"` as bytes. */
  const KEY_X0: seq<byte> := [0x78, 0x30]
  const KEY_Y0: seq<byte> := [0x79, 0x30]
  const KEY_X1: seq<byte> := [0x78, 0x31]
  const KEY_Y1: seq<byte> := [0x79, 0x31]

  /** Stores `v` in the field of `p` that `key` names; any other key leaves
      `p` as it is. */
  function Assign(p: HaversinePair, key: seq<byte>, v: real): HaversinePair
  {
    if key == KEY_X0 then p.(x0 := v)
    else if key == KEY_Y0 then p.(y0 := v)
    else if key == KEY_X1 then p.(x1 := v)
    else if key == KEY_Y1 then p.(y1 := v)
    else p
  }

  /** Everything the parsing loop keeps: the state, the text of `curKey` and
      `curVal`, the key string captured at the last `:` (`curKv.key`),
      `curPair`, the pairs pushed so far, `success`, and whether the loop
      has jumped to `done`. */
  datatype Scan = Scan(
    state: ParsingState,
    keyText: seq<byte>,
    valueText: seq<byte>,
    key: seq<byte>,
    pair: HaversinePair,
    pairs: seq<HaversinePair>,
    success: bool,
    done: bool)

  const START: Scan := Scan(OpenBracket, [], [], [], ZERO_PAIR, [], false, false)

  /** One iteration of the loop on byte `b`. */
  function Step(s: Scan, b: byte, strtod: seq<byte> -> real): (r: Scan)
    ensures s.pairs <= r.pairs && |r.pairs| <= |s.pairs| + 1
    ensures (s.success ==> s.done) ==> (r.success ==> r.done)
  {
    if IsWhitespace(b) && s.state != Key then s
    else
      match s.state
      case OpenBracket => if b != '[' as byte then s.(done := true) else s.(state := OpenBrace)
      case OpenBrace => if b != '{' as byte then s.(done := true) else s.(state := KeyStart)
      case KeyStart => if b != '"' as byte then s.(done := true) else s.(state := Key)
      case Key => if b == '"' as byte then s.(state := Colon) else s.(keyText := s.keyText + [b])
      case Colon => if b == ':' as byte then s.(key := CString(s.keyText, 0), state := Value) else s.(done := true)
      case Value =>
        if b == ',' as byte || b == '}' as byte then
          s.(pair := Assign(s.pair, s.key, strtod(CString(s.valueText, 0))),
             keyText := [], valueText := [],
             state := if b == ',' as byte then Comma else CloseBrace)
        else s.(valueText := s.valueText + [b])
      case Comma => s.(state := if b == '"' as byte then Key else Value)
      case CloseBrace =>
        var pushed := s.(pairs := s.pairs + [s.pair]);
        if b == ',' as byte then pushed.(state := OpenBrace)
        else if b == ']' as byte then pushed.(success := true, done := true)
        else pushed.(done := true)
  }

  /** The loop after its first `n` bytes (bytes after `done` are not read). */
  function Scanned(bytes: seq<byte>, n: nat, strtod: seq<byte> -> real): (r: Scan)
    requires n <= |bytes|
    ensures |r.pairs| <= n && (r.success ==> r.done)
  {
    if n == 0 then START
    else
      var s := Scanned(bytes, n - 1, strtod);
      if s.done then s else Step(s, bytes[n - 1], strtod)
  }

  /** The outcome of `ParseHaversineJson` on `bytes`. */
  function Parse(bytes: seq<byte>, strtod: seq<byte> -> real): (r: Scan)
    ensures |r.pairs| <= |bytes| && (r.success ==> r.done)
  {
    Scanned(bytes, |bytes|, strtod)
  }

  /** Once the loop has reached `done`, later bytes change nothing. */
  lemma {:induction false} DoneIsFinal(bytes: seq<byte>, j: nat, k: nat, strtod: seq<byte> -> real)
    requires j <= k <= |bytes| && Scanned(bytes, j, strtod).done
    ensures Scanned(bytes, k, strtod) == Scanned(bytes, j, strtod)
    decreases k - j
  {
    if j < k {
      DoneIsFinal(bytes, j, k - 1, strtod);
    }
  }

  /** The non-whitespace bytes of `bytes`, in order. */
  function Significant(bytes: seq<byte>): seq<byte>
  {
    if bytes == [] then []
    else if IsWhitespace(bytes[|bytes| - 1]) then Significant(bytes[..|bytes| - 1])
    else Significant(bytes[..|bytes| - 1]) + [bytes[|bytes| - 1]]
  }

  /** `[`, `{`, `"`: what the first three significant bytes must be. */
  predicate HeaderSeen(w: seq<byte>)
  {
    |w| >= 3 && w[0] == '[' as byte && w[1] == '{' as byte && w[2] == '"' as byte
  }

  /** What the loop state says about the significant bytes read so far. */
  ghost predicate HeaderInvariant(s: Scan, w: seq<byte>)
  {
    if s.done then (s.success ==> HeaderSeen(w))
    else !s.success && match s.state
      case OpenBracket => w == []
      case OpenBrace => w == ['[' as byte] || HeaderSeen(w)
      case KeyStart => w == ['[' as byte, '{' as byte] || HeaderSeen(w)
      case _ => HeaderSeen(w)
  }

  lemma {:induction false} HeaderInvariantHolds(bytes: seq<byte>, n: nat, strtod: seq<byte> -> real)
    requires n <= |bytes|
    ensures HeaderInvariant(Scanned(bytes, n, strtod), Significant(bytes[..n]))
  {
    if n > 0 {
      HeaderInvariantHolds(bytes, n - 1, strtod);
      assert bytes[..n][..n - 1] == bytes[..n - 1];
      var w := Significant(bytes[..n - 1]);
      var b := bytes[n - 1];
      var w' := Significant(bytes[..n]);
      assert w' == if IsWhitespace(b) then w else w + [b];
      if HeaderSeen(w) {
        assert w'[..3] == w[..3];
      } else if w == ['[' as byte, '{' as byte] && !IsWhitespace(b) {
        assert w' == ['[' as byte, '{' as byte, b];
      } else if w == ['[' as byte] && !IsWhitespace(b) {
        assert w' == ['[' as byte, b];
      }
    }
  }

  /** The parse can only succeed if the first three non-whitespace bytes of
      the input are `[`, `{` and `"`. */
  lemma SuccessNeedsHeader(bytes: seq<byte>, strtod: seq<byte> -> real)
    ensures Parse(bytes, strtod).success ==> HeaderSeen(Significant(bytes))
  {
    HeaderInvariantHolds(bytes, |bytes|, strtod);
    assert bytes[..|bytes|] == bytes;
  }

  /** Value text never holds whitespace (it is skipped outside `PS_Key`),
      while key text keeps it. */
  lemma {:induction false} ValueTextHasNoWhitespace(bytes: seq<byte>, n: nat, strtod: seq<byte> -> real)
    requires n <= |bytes|
    ensures forall k :: 0 <= k < |Scanned(bytes, n, strtod).valueText| ==> !IsWhitespace(Scanned(bytes, n, strtod).valueText[k])
  {
    if n > 0 {
      ValueTextHasNoWhitespace(bytes, n - 1, strtod);
    }
  }

  /** In `PS_Key` every byte other than `"` (whitespace included) is key text. */
  lemma KeyKeepsWhitespace(s: Scan, b: byte, strtod: seq<byte> -> real)
    requires s.state == Key && b != '"' as byte
    ensures Step(s, b, strtod) == s.(keyText := s.keyText + [b])
  {
  }

  /** The end of a value stores the converted text into the field its key
      names (ignoring other keys) and empties both builders. */
  lemma ValueEndAssigns(s: Scan, b: byte, strtod: seq<byte> -> real)
    requires !s.done && s.state == Value && (b == ',' as byte || b == '}' as byte)
    ensures var t := Step(s, b, strtod);
      var v := strtod(CString(s.valueText, 0));
      && t.keyText == [] && t.valueText == [] && t.pairs == s.pairs && !t.done
      && (s.key == KEY_X0 ==> t.pair == s.pair.(x0 := v))
      && (s.key == KEY_Y0 ==> t.pair == s.pair.(y0 := v))
      && (s.key == KEY_X1 ==> t.pair == s.pair.(x1 := v))
      && (s.key == KEY_Y1 ==> t.pair == s.pair.(y1 := v))
      && (s.key !in {KEY_X0, KEY_Y0, KEY_X1, KEY_Y1} ==> t.pair == s.pair)
  {
  }

  /** Pairs are pushed only in `PS_CloseBrace`, one per significant byte read
      there, and that pair is `curPair` as it stands (it is never cleared);
      success is reached exactly when that byte is `]`. */
  lemma PushOnlyAfterCloseBrace(s: Scan, b: byte, strtod: seq<byte> -> real)
    requires !s.done && !s.success
    ensures var t := Step(s, b, strtod);
      && (s.state == CloseBrace && !IsWhitespace(b) ==>
            t.pairs == s.pairs + [s.pair] && t.pair == s.pair && (t.success <==> b == ']' as byte) && (t.done <==> b != ',' as byte))
      && (s.state != CloseBrace || IsWhitespace(b) ==> t.pairs == s.pairs && !t.success)
  {
  }

  /** One pass of the loop body on byte `b`, over the loop's variables: the
      parsing state, the two string builders, the key captured at the last
      `:`, the current pair and the result vector. */
  method Feed(b: byte, strtod: seq<byte> -> real, state: ParsingState, curKey: StrB, curVal: StrB,
              key: seq<byte>, curPair: HaversinePair, result: PairVec)
    returns (newState: ParsingState, newKey: seq<byte>, newPair: HaversinePair, success: bool, done: bool)
    requires curKey.Valid() && curVal.Valid() && result.Valid()
    requires curKey != curVal && curKey.buf != curVal.buf
    modifies curKey, curKey.buf, curVal, curVal.buf, result, result.data
    ensures curKey.Valid() && curVal.Valid() && result.Valid() && curKey.buf != curVal.buf
    ensures curKey.buf == old(curKey.buf) || fresh(curKey.buf)
    ensures curVal.buf == old(curVal.buf) || fresh(curVal.buf)
    ensures result.data == old(result.data) || fresh(result.data)
    ensures result.cap >= old(result.cap)
    ensures success ==> done
    ensures Scan(newState, curKey.Contents(), curVal.Contents(), newKey, newPair, result.Contents(), success, done)
      == Step(Scan(state, old(curKey.Contents()), old(curVal.Contents()), key, curPair, old(result.Contents()), false, false), b, strtod)
  {
    newState, newKey, newPair, success, done := state, key, curPair, false, false;
    if IsWhitespace(b) && state != Key {
      return;
    }
    match state
    case OpenBracket =>
      if b != '[' as byte { done := true; } else { newState := OpenBrace; }
    case OpenBrace =>
      if b != '{' as byte { done := true; } else { newState := KeyStart; }
    case KeyStart =>
      if b != '"' as byte { done := true; } else { newState := Key; }
    case Key =>
      if b == '"' as byte { newState := Colon; } else { curKey.PushChar(b); }
    case Colon =>
      if b == ':' as byte {
        newKey := curKey.CStr();
        newState := Value;
      } else {
        done := true;
      }
    case Value =>
      if b == ',' as byte || b == '}' as byte {
        var text := curVal.CStr();
        newPair := Assign(curPair, key, strtod(text));
        curKey.Reset();
        curVal.Reset();
        newState := if b == ',' as byte then Comma else CloseBrace;
      } else {
        curVal.PushChar(b);
      }
    case Comma =>
      newState := if b == '"' as byte then Key else Value;
    case CloseBrace =>
      result.Push(curPair);
      if b == ',' as byte {
        newState := OpenBrace;
      } else if b == ']' as byte {
        success := true;
        done := true;
      } else {
        done := true;
      }
  }

  /** `ParseHaversineJson(bytes, expected_count)`. The per-byte profiler
      bandwidth counter is not modelled. */
  method ParseHaversineJson(bytes: seq<byte>, expectedCount: int, strtod: seq<byte> -> real)
    returns (result: PairVec, success: bool)
    ensures fresh(result) && result.Valid()
    ensures result.Contents() == Parse(bytes, strtod).pairs
    ensures success == Parse(bytes, strtod).success
    ensures expectedCount > 0 ==> result.cap >= expectedCount + 1
  {
    result := new PairVec.Empty();
    if expectedCount > 0 {
      ReservedSuffices(0, expectedCount + 1, PAIRVEC_BASE);
      result.Reserve(expectedCount + 1);
    }
    var state := OpenBracket;
    var curKey := new StrB.Empty();
    var curVal := new StrB.Empty();
    var curPair := ZERO_PAIR;
    var key: seq<byte> := [];
    success := false;
    var done := false;
    var i := 0;
    while i < |bytes| && !done
      invariant 0 <= i <= |bytes|
      invariant result.Valid() && curKey.Valid() && curVal.Valid()
      invariant fresh(result) && fresh(result.data) && fresh(curKey) && fresh(curVal)
      invariant fresh(curKey.buf) && fresh(curVal.buf) && curKey != curVal && curKey.buf != curVal.buf
      invariant Scanned(bytes, i, strtod) ==
        Scan(state, curKey.Contents(), curVal.Contents(), key, curPair, result.Contents(), success, done)
      invariant success ==> done
      invariant expectedCount > 0 ==> result.cap >= expectedCount + 1
      decreases |bytes| - i
    {
      state, key, curPair, success, done := Feed(bytes[i], strtod, state, curKey, curVal, key, curPair, result);
      i := i + 1;
    }
    if done {
      DoneIsFinal(bytes, i, |bytes|, strtod);
    }
  }
}

/** What the hand-written JSON reader of `json_parser.c` computes, stated as
    functions over the input bytes and a cursor. Each `...Spec` function
    gives the value a parser produces and the cursor it leaves behind (on the
    last byte of the token), or the fatal error it aborts with.

    The input is the buffer `LoadFile` builds: the file's bytes followed by a
    NUL that the length counts. That NUL is what keeps every unchecked read
    of the C code inside the buffer, and it is why truncated input ends in
    an "invalid character" error rather than an end-of-input error in most
    states. */
module JsonSpec {
  import opened Common
  import opened JsonHash

  /** `JsonValue`: the tag and the member of the union it selects. An
      object is its table of `TABLE_SIZE` slots; an array is its linked
      list, head first. `ParseJsonNull` sets only the tag, so a null keeps
      in the union the list an array left there before (`retained`). */
  datatype JsonValue =
    | JNull(retained: seq<JsonValue>)
    | JBool(b: bool)
    | JString(text: seq<byte>)
    | JNumber(n: real)
    | JObject(slots: seq<Slot>)
    | JArray(elements: seq<JsonValue>)

  /** `JsonKeyValue`: a slot whose key text pointer is null is `None`. */
  datatype Slot = Slot(key: Option<seq<byte>>, value: JsonValue)

  /** The two `LOG_WARNING`s of the parser. */
  datatype Warning = ShortSource | HashCollision

  /** A parsed value, the cursor left on the last byte of its token, and the
      warnings logged while parsing it. */
  datatype Parsed<T> = Parsed(value: T, at: int, warnings: seq<Warning>)

  /** Zeroed arena memory read as a value: `JSON_NULL` with a null list
      pointer. */
  const ZERO_VALUE: JsonValue := JNull([])

  /** Zeroed arena memory read as a slot: null key, zeroed value. */
  const EMPTY_SLOT: Slot := Slot(None, ZERO_VALUE)

  /** The table `ParseJsonObject` starts from: every slot zeroed. */
  function EmptyTable(): (t: seq<Slot>)
    ensures |t| == TABLE_SIZE && forall i :: 0 <= i < |t| ==> t[i] == EMPTY_SLOT
  {
    seq(TABLE_SIZE, _ => EMPTY_SLOT)
  }

  const TAB: byte := 0x09
  const LF: byte := 0x0A
  const CR: byte := 0x0D
  const SPACE: byte := 0x20
  const QUOTE: byte := 0x22
  const COMMA: byte := 0x2C
  const MINUS: byte := 0x2D
  const DOT: byte := 0x2E
  const COLON: byte := 0x3A
  const OPEN_BRACKET: byte := 0x5B
  const CLOSE_BRACKET: byte := 0x5D
  const OPEN_BRACE: byte := 0x7B
  const CLOSE_BRACE: byte := 0x7D
  const FALSE_TEXT: seq<byte> := [0x66, 0x61, 0x6C, 0x73, 0x65]
  const TRUE_TEXT: seq<byte> := [0x74, 0x72, 0x75, 0x65]
  const NULL_TEXT: seq<byte> := [0x6E, 0x75, 0x6C, 0x6C]

  const EXPECTED_FALSE: string := "Expected FALSE"
  const EXPECTED_TRUE: string := "Expected TRUE"
  const EOF_BOOL: string := "Reached EOF while parsing BOOL"
  const EXPECTED_NULL: string := "Expected NULL"
  const INVALID_IN_ARRAY: string := "Invalid character while parsing array"
  const EOF_ARRAY: string := "Reached EOF while parsing array"
  const INVALID_IN_STRING: string := "Invalid char while parsing string"
  const EOF_STRING: string := "Reached EOF while parsing string"
  const UNREACHABLE: string := "unreachable"
  const EXPECTED_COLON: string := "Invalid character, expected COLON"
  const EXPECTED_COMMA_OR_END: string := "Invalid character, expected COMMA or CLOSE_BRACKET"
  const INVALID_VALUE: string := "Invalid character"

  /** `strtod` applied to the C string at the cursor: the value read and the
      number of bytes it consumed. */
  type Strtod = seq<byte> -> (real, nat)

  /** Where `strtod` leaves `end`: after the bytes it consumed, which lie
      inside the C string (a count beyond the string is taken as the whole
      string, which the C library never reports). */
  function Consumed(strtod: Strtod, s: seq<byte>): (n: nat)
    ensures n <= |s|
    ensures strtod(s).1 <= |s| ==> n == strtod(s).1
  {
    if strtod(s).1 <= |s| then strtod(s).1 else |s|
  }

  /** `CharCanBeIgnored`: space, `\n`, `\t` and `\r`. */
  predicate CharCanBeIgnored(c: byte)
    ensures CharCanBeIgnored(c) ==> 0 < c <= SPACE
  {
    c == SPACE || c == LF || c == TAB || c == CR
  }

  /** The buffer `LoadFile` returns: at least the NUL it appends, last. */
  predicate WellTerminated(input: seq<byte>)
  {
    |input| >= 1 && input[|input| - 1] == 0
  }

  /** The first index in `[from, bound)` holding a byte that cannot be
      ignored, or `bound`. */
  function SkipIgnorable(input: seq<byte>, from: nat, bound: nat): (i: nat)
    requires from <= bound <= |input|
    ensures from <= i <= bound
    ensures forall k :: from <= k < i ==> CharCanBeIgnored(input[k])
    ensures i < bound ==> !CharCanBeIgnored(input[i])
    decreases bound - from
  {
    if from == bound || !CharCanBeIgnored(input[from]) then from
    else SkipIgnorable(input, from + 1, bound)
  }

  /** The first index in `[from, bound)` holding `b`, or `bound`. */
  function Find(input: seq<byte>, from: nat, bound: nat, b: byte): (i: nat)
    requires from <= bound <= |input|
    ensures from <= i <= bound
    ensures forall k :: from <= k < i ==> input[k] != b
    ensures i < bound ==> input[i] == b
    decreases bound - from
  {
    if from == bound || input[from] == b then from
    else Find(input, from + 1, bound, b)
  }

  /** In a terminated buffer, skipping ignorable bytes stops on a byte (at
      the latest on the final NUL). */
  lemma SkipStopsInside(input: seq<byte>, from: nat)
    requires WellTerminated(input) && from < |input|
    ensures SkipIgnorable(input, from, |input|) < |input|
  {
    assert !CharCanBeIgnored(input[|input| - 1]);
  }

  /** `StrCpy(to, source)` on a destination holding `dest`: the bytes of
      `source` before its first NUL (within `|dest|`) are copied; the rest
      of `dest` is kept. The flag says the copy stopped early, which logs
      the short-source warning. */
  function Copied(dest: seq<byte>, source: seq<byte>): (seq<byte>, bool)
    requires |dest| <= |source|
  {
    var z := Find(source, 0, |dest|, 0);
    (source[..z] + dest[z..], z < |dest|)
  }

  /** `ParseJsonString` from `at` (`to` being 0): the first byte that cannot
      be ignored must be `"`; the text runs up to the next `"`, which is
      where the cursor stops. The text is copied by `StrCpy` into zeroed
      memory of that length. */
  function StringSpec(input: seq<byte>, at: nat): (r: Result<Parsed<seq<byte>>>)
    requires WellTerminated(input) && at < |input|
    ensures r.Ok? ==> at < r.value.at <= |input| - 2 && input[r.value.at] == QUOTE
  {
    SkipStopsInside(input, at);
    var q := SkipIgnorable(input, at, |input|);
    if input[q] != QUOTE then Fatal(INVALID_IN_STRING)
    else
      var c := Find(input, q + 1, |input|, QUOTE);
      if c == |input| then Fatal(EOF_STRING)
      else
        var copy := Copied(seq(c - q - 1, _ => 0), input[q + 1..]);
        Ok(Parsed(copy.0, c, if copy.1 then [ShortSource] else []))
  }

  /** `ParseJsonNumber`: `strtod` reads the C string at the cursor and the
      cursor stops on the last byte it consumed. */
  function NumberSpec(input: seq<byte>, at: nat, strtod: Strtod): (r: Parsed<real>)
    requires at < |input|
    ensures r.value == strtod(CString(input, at)).0
    ensures at - 1 <= r.at < at + |CString(input, at)|
    ensures r.warnings == []
  {
    var c := CString(input, at);
    Parsed(strtod(c).0, at + Consumed(strtod, c) - 1, [])
  }

  /** `ParseJsonBool`. `memcmp` is taken to compare in order, so a literal
      cut short by the final NUL is a mismatch. Both literals store
      `false`. */
  function BoolSpec(input: seq<byte>, at: nat): (r: Result<Parsed<bool>>)
    requires WellTerminated(input) && at < |input|
    ensures r.Ok? ==> at < r.value.at <= |input| - 2 && input[r.value.at] == FALSE_TEXT[4]
  {
    if input[at] == FALSE_TEXT[0] && |input| >= at + 4 then
      if at + 5 <= |input| && input[at..at + 5] == FALSE_TEXT then Ok(Parsed(false, at + 4, []))
      else Fatal(EXPECTED_FALSE)
    else if input[at] == TRUE_TEXT[0] && |input| >= at + 3 then
      if at + 4 <= |input| && input[at..at + 4] == TRUE_TEXT then Ok(Parsed(false, at + 3, []))
      else Fatal(EXPECTED_TRUE)
    else Fatal(EOF_BOOL)
  }

  /** `ParseJsonNull`. */
  function NullSpec(input: seq<byte>, at: nat): (r: Result<Parsed<()>>)
    requires WellTerminated(input) && at < |input|
    ensures r.Ok? ==> r.value.at == at + 3 <= |input| - 2 && input[r.value.at] == NULL_TEXT[3]
  {
    if at + 4 <= |input| && input[at..at + 4] == NULL_TEXT then Ok(Parsed((), at + 3, []))
    else Fatal(EXPECTED_NULL)
  }

  /** The bytes that start a number: a digit, `-` or `.`. */
  predicate StartsNumber(c: byte)
  {
    (0x30 <= c <= 0x39) || c == MINUS || c == DOT
  }

  /** The list an array is prepended to: `val->array` of the destination.
      It is the destination's list when it holds an array, or a null that
      kept one; a destination of any other kind is taken to hold none. */
  function PreviousList(prev: JsonValue): (r: seq<JsonValue>)
    ensures prev == JArray(r) || prev == JNull(r) || r == []
    ensures prev.JArray? || prev.JNull? ==> prev == JArray(r) || prev == JNull(r)
  {
    match prev
    case JArray(elements) => elements
    case JNull(retained) => retained
    case _ => []
  }

  /** `ParseJsonValue(p, val)` with `val` holding `prev`: skip ignorable
      bytes, then dispatch on the next one. */
  function ValueSpec(input: seq<byte>, at: nat, prev: JsonValue, strtod: Strtod): (r: Result<Parsed<JsonValue>>)
    requires WellTerminated(input) && at < |input|
    ensures r.Ok? ==> at - 1 <= r.value.at <= |input| - 2
    decreases |input| - at, 3
  {
    SkipStopsInside(input, at);
    Dispatch(input, SkipIgnorable(input, at, |input|), prev, strtod)
  }

  /** `ParseJsonValue` on the first byte at `s` that cannot be ignored. */
  function Dispatch(input: seq<byte>, s: nat, prev: JsonValue, strtod: Strtod): (r: Result<Parsed<JsonValue>>)
    requires WellTerminated(input) && s < |input|
    ensures r.Ok? ==> s - 1 <= r.value.at <= |input| - 2
    decreases |input| - s, 2
  {
    var c := input[s];
    if c == OPEN_BRACE then
      match ObjectSpec(input, s, strtod)
      case Ok(p) => Ok(Parsed(JObject(p.value), p.at, p.warnings))
      case Fatal(m) => Fatal(m)
    else if StartsNumber(c) then
      var p := NumberSpec(input, s, strtod);
      assert |CString(input, s)| < |input| - s;
      Ok(Parsed(JNumber(p.value), p.at, p.warnings))
    else if c == TRUE_TEXT[0] || c == FALSE_TEXT[0] then
      match BoolSpec(input, s)
      case Ok(p) => Ok(Parsed(JBool(p.value), p.at, p.warnings))
      case Fatal(m) => Fatal(m)
    else if c == NULL_TEXT[0] then
      match NullSpec(input, s)
      case Ok(p) => Ok(Parsed(JNull(PreviousList(prev)), p.at, p.warnings))
      case Fatal(m) => Fatal(m)
    else if c == OPEN_BRACKET then
      match ArraySpec(input, s, PreviousList(prev), strtod)
      case Ok(p) => Ok(Parsed(JArray(p.value), p.at, p.warnings))
      case Fatal(m) => Fatal(m)
    else if c == QUOTE then
      match StringSpec(input, s)
      case Ok(p) => Ok(Parsed(JString(p.value), p.at, p.warnings))
      case Fatal(m) => Fatal(m)
    else Fatal(INVALID_VALUE)
  }

  /** `ParseJsonObject` from `at`: skip ignorable bytes up to `{` (anything
      else is unreachable from `ParseJsonValue`); `{}` is an empty table;
      otherwise the members follow. */
  function ObjectSpec(input: seq<byte>, at: nat, strtod: Strtod): (r: Result<Parsed<seq<Slot>>>)
    requires WellTerminated(input) && at < |input|
    ensures r.Ok? ==> at < r.value.at <= |input| - 2 && input[r.value.at] == CLOSE_BRACE
    ensures r.Ok? ==> |r.value.value| == TABLE_SIZE
    decreases |input| - at, 1
  {
    SkipStopsInside(input, at);
    var b := SkipIgnorable(input, at, |input|);
    if input[b] != OPEN_BRACE then Fatal(UNREACHABLE)
    else if input[b + 1] == CLOSE_BRACE then Ok(Parsed(EmptyTable(), b + 1, []))
    else Members(input, b + 1, EmptyTable(), [], strtod)
  }

  /** A table after a key was stored, the slot it went to, and the warnings
      logged meanwhile. */
  datatype Stored = Stored(table: seq<Slot>, slot: nat, warnings: seq<Warning>)

  /** Storing `key`: it goes to slot `KeySlot(key)`, over whatever key was
      there, keeping that slot's value; a collision is logged when slot 0
      (not the key's own slot) already holds a key. */
  function StoreKey(table: seq<Slot>, key: seq<byte>): (r: Stored)
    requires |table| == TABLE_SIZE
    ensures |r.table| == TABLE_SIZE && r.slot == KeySlot(key)
  {
    var h := KeySlot(key);
    Stored(table[h := table[h].(key := Some(key))], h, if table[0].key.Some? then [HashCollision] else [])
  }

  /** The object loop in its `PARSING_KEY` state at `k`, with the table
      and the warnings so far: the key is parsed and stored at slot
      `KeySlot(key)`, over whatever key was there; the collision warning
      looks at slot 0 only. */
  function Members(input: seq<byte>, k: nat, table: seq<Slot>, w: seq<Warning>, strtod: Strtod)
    : (r: Result<Parsed<seq<Slot>>>)
    requires WellTerminated(input) && k < |input| && |table| == TABLE_SIZE
    ensures r.Ok? ==> k <= r.value.at <= |input| - 2 && input[r.value.at] == CLOSE_BRACE
    ensures r.Ok? ==> |r.value.value| == TABLE_SIZE
    decreases |input| - k, 0
  {
    match StringSpec(input, k)
    case Fatal(m) => Fatal(m)
    case Ok(key) =>
      var s := StoreKey(table, key.value);
      MemberValue(input, key.at + 1, s.table, s.slot, w + key.warnings + s.warnings, strtod)
  }

  /** The object loop in its `PARSING_COLON` state at `a`, the current key
      being at slot `h`: ignorable bytes, then `:`; the value is then parsed
      into slot `h` over the value it held. */
  function MemberValue(input: seq<byte>, a: nat, table: seq<Slot>, h: nat, w: seq<Warning>, strtod: Strtod)
    : (r: Result<Parsed<seq<Slot>>>)
    requires WellTerminated(input) && a < |input| && |table| == TABLE_SIZE && h < TABLE_SIZE
    ensures r.Ok? ==> a <= r.value.at <= |input| - 2 && input[r.value.at] == CLOSE_BRACE
    ensures r.Ok? ==> |r.value.value| == TABLE_SIZE
    decreases |input| - a, 0
  {
    SkipStopsInside(input, a);
    var d := SkipIgnorable(input, a, |input|);
    if input[d] != COLON then Fatal(EXPECTED_COLON)
    else AfterColon(input, d + 1, table, h, w, strtod)
  }

  /** The object loop in its `PARSING_VALUE` state at `a`: the value is
      parsed into slot `h` over the value it held. */
  function AfterColon(input: seq<byte>, a: nat, table: seq<Slot>, h: nat, w: seq<Warning>, strtod: Strtod)
    : (r: Result<Parsed<seq<Slot>>>)
    requires WellTerminated(input) && a < |input| && |table| == TABLE_SIZE && h < TABLE_SIZE
    ensures r.Ok? ==> a <= r.value.at <= |input| - 2 && input[r.value.at] == CLOSE_BRACE
    ensures r.Ok? ==> |r.value.value| == TABLE_SIZE
    decreases |input| - a, 4
  {
    match ValueSpec(input, a, table[h].value, strtod)
    case Fatal(m) => Fatal(m)
    case Ok(v) =>
      AfterMember(input, v.at + 1, table[h := table[h].(value := v.value)], w + v.warnings, strtod)
  }

  /** The object loop in its `PARSING_COMMA_OR_END` state at `a`: ignorable
      bytes, then `,` for the next member or `}` to end the object. */
  function AfterMember(input: seq<byte>, a: nat, table: seq<Slot>, w: seq<Warning>, strtod: Strtod)
    : (r: Result<Parsed<seq<Slot>>>)
    requires WellTerminated(input) && a < |input| && |table| == TABLE_SIZE
    ensures r.Ok? ==> a <= r.value.at <= |input| - 2 && input[r.value.at] == CLOSE_BRACE
    ensures r.Ok? ==> |r.value.value| == TABLE_SIZE
    decreases |input| - a, 0
  {
    SkipStopsInside(input, a);
    var e := SkipIgnorable(input, a, |input|);
    if input[e] == COMMA then Members(input, e + 1, table, w, strtod)
    else if input[e] == CLOSE_BRACE then Ok(Parsed(table, e, w))
    else Fatal(EXPECTED_COMMA_OR_END)
  }

  /** `ParseJsonArray` from `at` onto the list `prev`: every byte up to the
      first `[` is passed over; `[]` leaves `prev` as it is; otherwise the
      elements follow. The loop stops before the final byte. */
  function ArraySpec(input: seq<byte>, at: nat, prev: seq<JsonValue>, strtod: Strtod)
    : (r: Result<Parsed<seq<JsonValue>>>)
    requires WellTerminated(input) && at < |input|
    ensures r.Ok? ==> at < r.value.at <= |input| - 2 && input[r.value.at] == CLOSE_BRACKET
    decreases |input| - at, 1
  {
    var b := Find(input, at, |input| - 1, OPEN_BRACKET);
    if b == |input| - 1 then Fatal(EOF_ARRAY)
    else if input[b + 1] == CLOSE_BRACKET then Ok(Parsed(prev, b + 1, []))
    else Elements(input, b + 1, prev, [], strtod)
  }

  /** The array loop in its `ARRAY_VALUE` state at `k`: the element is
      parsed into fresh zeroed memory and prepended to `acc`. The loop runs
      while the cursor is before the final byte. */
  function Elements(input: seq<byte>, k: nat, acc: seq<JsonValue>, w: seq<Warning>, strtod: Strtod)
    : (r: Result<Parsed<seq<JsonValue>>>)
    requires WellTerminated(input) && k < |input|
    ensures r.Ok? ==> k <= r.value.at <= |input| - 2 && input[r.value.at] == CLOSE_BRACKET
    decreases |input| - k, 4
  {
    if k >= |input| - 1 then Fatal(EOF_ARRAY)
    else
      match ValueSpec(input, k, ZERO_VALUE, strtod)
      case Fatal(m) => Fatal(m)
      case Ok(v) => AfterElement(input, v.at + 1, [v.value] + acc, w + v.warnings, strtod)
  }

  /** The array loop in its `ARRAY_COMMA_OR_END` state at `a`: ignorable
      bytes, then `,` for the next element or `]` to end the array. */
  function AfterElement(input: seq<byte>, a: nat, acc: seq<JsonValue>, w: seq<Warning>, strtod: Strtod)
    : (r: Result<Parsed<seq<JsonValue>>>)
    requires WellTerminated(input) && a < |input|
    ensures r.Ok? ==> a <= r.value.at <= |input| - 2 && input[r.value.at] == CLOSE_BRACKET
    decreases |input| - a, 0
  {
    var e := SkipIgnorable(input, a, |input| - 1);
    if e == |input| - 1 then Fatal(EOF_ARRAY)
    else if input[e] == COMMA then Elements(input, e + 1, acc, w, strtod)
    else if input[e] == CLOSE_BRACKET then Ok(Parsed(acc, e, w))
    else Fatal(INVALID_IN_ARRAY)
  }

  /** The object loop passes over an ignorable byte in `PARSING_BEGIN`. */
  lemma ObjectSpecSkips(input: seq<byte>, a: nat, strtod: Strtod)
    requires WellTerminated(input) && a < |input| && CharCanBeIgnored(input[a])
    ensures a + 1 < |input|
    ensures ObjectSpec(input, a, strtod) == ObjectSpec(input, a + 1, strtod)
  {
    assert a + 1 < |input| by {
      assert !CharCanBeIgnored(input[|input| - 1]);
    }
    assert SkipIgnorable(input, a, |input|) == SkipIgnorable(input, a + 1, |input|);
  }

  /** What the object loop does on a byte it does not ignore in
      `PARSING_BEGIN`. */
  lemma ObjectSpecOn(input: seq<byte>, a: nat, strtod: Strtod)
    requires WellTerminated(input) && a < |input| && !CharCanBeIgnored(input[a])
    ensures input[a] == OPEN_BRACE ==> a + 1 < |input|
    ensures ObjectSpec(input, a, strtod) ==
      if input[a] != OPEN_BRACE then Fatal(UNREACHABLE)
      else if input[a + 1] == CLOSE_BRACE then Ok(Parsed(EmptyTable(), a + 1, []))
      else Members(input, a + 1, EmptyTable(), [], strtod)
  {
  }

  /** The array loop passes over an ignorable byte in `ARRAY_COMMA_OR_END`. */
  lemma AfterElementSkips(input: seq<byte>, a: nat, acc: seq<JsonValue>, w: seq<Warning>, strtod: Strtod)
    requires WellTerminated(input) && a < |input| - 1 && CharCanBeIgnored(input[a])
    ensures AfterElement(input, a, acc, w, strtod) == AfterElement(input, a + 1, acc, w, strtod)
  {
  }

  /** What the array loop does on a byte it does not ignore in
      `ARRAY_COMMA_OR_END`. */
  lemma AfterElementOn(input: seq<byte>, a: nat, acc: seq<JsonValue>, w: seq<Warning>, strtod: Strtod)
    requires WellTerminated(input) && a < |input| - 1 && !CharCanBeIgnored(input[a])
    ensures AfterElement(input, a, acc, w, strtod) ==
      if input[a] == COMMA then Elements(input, a + 1, acc, w, strtod)
      else if input[a] == CLOSE_BRACKET then Ok(Parsed(acc, a, w))
      else Fatal(INVALID_IN_ARRAY)
  {
  }

  /** The object loop passes over an ignorable byte in
      `PARSING_COMMA_OR_END`. */
  lemma AfterMemberSkips(input: seq<byte>, a: nat, table: seq<Slot>, w: seq<Warning>, strtod: Strtod)
    requires WellTerminated(input) && a < |input| && |table| == TABLE_SIZE && CharCanBeIgnored(input[a])
    ensures a + 1 < |input|
    ensures AfterMember(input, a, table, w, strtod) == AfterMember(input, a + 1, table, w, strtod)
  {
  }

  /** What the object loop does on a byte it does not ignore in
      `PARSING_COMMA_OR_END`. */
  lemma AfterMemberOn(input: seq<byte>, a: nat, table: seq<Slot>, w: seq<Warning>, strtod: Strtod)
    requires WellTerminated(input) && a < |input| && |table| == TABLE_SIZE && !CharCanBeIgnored(input[a])
    ensures input[a] == COMMA ==> a + 1 < |input|
    ensures AfterMember(input, a, table, w, strtod) ==
      if input[a] == COMMA then Members(input, a + 1, table, w, strtod)
      else if input[a] == CLOSE_BRACE then Ok(Parsed(table, a, w))
      else Fatal(EXPECTED_COMMA_OR_END)
  {
  }

  /** The object loop passes over an ignorable byte in `PARSING_COLON`. */
  lemma MemberValueSkips(input: seq<byte>, a: nat, table: seq<Slot>, h: nat, w: seq<Warning>, strtod: Strtod)
    requires WellTerminated(input) && a < |input| && |table| == TABLE_SIZE && h < TABLE_SIZE
    requires CharCanBeIgnored(input[a])
    ensures a + 1 < |input|
    ensures MemberValue(input, a, table, h, w, strtod) == MemberValue(input, a + 1, table, h, w, strtod)
  {
  }

  /** The object loop on a byte it does not ignore in `PARSING_COLON`. */
  lemma MemberValueOn(input: seq<byte>, a: nat, table: seq<Slot>, h: nat, w: seq<Warning>, strtod: Strtod)
    requires WellTerminated(input) && a < |input| && |table| == TABLE_SIZE && h < TABLE_SIZE
    requires !CharCanBeIgnored(input[a])
    ensures input[a] == COLON ==> a + 1 < |input|
    ensures MemberValue(input, a, table, h, w, strtod) ==
      if input[a] != COLON then Fatal(EXPECTED_COLON) else AfterColon(input, a + 1, table, h, w, strtod)
  {
  }

  /** `LoadJson`: one value from the start of the buffer into a zeroed
      `JsonValue`. */
  function LoadJsonSpec(input: seq<byte>, strtod: Strtod): (r: Result<JsonValue>)
    requires WellTerminated(input)
  {
    match ValueSpec(input, 0, ZERO_VALUE, strtod)
    case Ok(p) => Ok(p.value)
    case Fatal(m) => Fatal(m)
  }
}

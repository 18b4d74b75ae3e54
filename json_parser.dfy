/** The parsers of `json_parser.c` as they run: one `Parser` object holding
    the input, the cursor `at` and the look-ahead `to`, and one method per C
    function, each driving its `for` loop with the C function's own state
    enum. Every method is proved to produce exactly what the matching
    function of `JsonSpec` describes: the same value, the same final cursor,
    the same warnings, or the same fatal error. */
module JsonReader {
  import opened Common
  import opened JsonHash
  import opened JsonSpec

  /** `ArrayPosition`. */
  datatype ArrayPosition = ArrayBegin | ArrayValue | ArrayCommaOrEnd

  /** `StringPosition`. */
  datatype StringPosition = StringBeginQuote | StringText | StringEndQuote

  /** `ObjectPosition`. */
  datatype ObjectPosition = ParsingBegin | ParsingKey | ParsingColon | ParsingValue | ParsingCommaOrEnd

  const EOF_OBJECT: string := "Reached EOF while parsing OBJECT"

  /** `memcmp(&buf[from], lit, |lit|) == 0` on a buffer that ends with a NUL
      and a literal without one: the bytes are compared in order, and the
      final NUL of the buffer ends any comparison that would run past it. */
  method MemEqual(buf: seq<byte>, from: nat, lit: seq<byte>) returns (equal: bool)
    requires from < |buf| && buf[|buf| - 1] == 0
    requires forall k :: 0 <= k < |lit| ==> lit[k] != 0
    ensures equal <==> from + |lit| <= |buf| && buf[from..from + |lit|] == lit
  {
    var i := 0;
    while i < |lit|
      invariant 0 <= i <= |lit| && from + i < |buf|
      invariant buf[from..from + i] == lit[..i]
    {
      if buf[from + i] != lit[i] {
        return false;
      }
      if from + i + 1 == |buf| {
        // buf[from + i] is the final NUL, which lit[i] is not
        assert false;
      }
      i := i + 1;
    }
    return true;
  }

  /** `StrCpy(to, source)`: copies `to.Length` bytes, stopping (with a
      warning) at a NUL of `source`. */
  method StrCpy(dest: array<byte>, source: seq<byte>) returns (short: bool)
    requires dest.Length <= |source|
    modifies dest
    ensures (dest[..], short) == Copied(old(dest[..]), source)
  {
    var i := 0;
    while i < dest.Length
      invariant 0 <= i <= dest.Length
      invariant dest[..i] == source[..i]
      invariant dest[i..] == old(dest[i..])
      invariant forall k :: 0 <= k < i ==> source[k] != 0
    {
      if source[i] == 0 {
        assert dest[..] == source[..i] + old(dest[..])[i..];
        return true;
      }
      dest[i] := source[i];
      i := i + 1;
    }
    assert dest[..] == source[..i] + old(dest[..])[i..];
    return false;
  }

  /** What the rest of `ParseJsonArray`'s loop yields from state `next` at
      `at`, with `list` built and the warnings `w` logged so far. */
  ghost function ArrayRest(input: seq<byte>, next: ArrayPosition, at: nat, list: seq<JsonValue>,
                           w: seq<Warning>, strtod: Strtod): Result<Parsed<seq<JsonValue>>>
    requires WellTerminated(input) && at < |input|
  {
    match next
    case ArrayBegin => ArraySpec(input, at, list, strtod)
    case ArrayValue => Elements(input, at, list, w, strtod)
    case ArrayCommaOrEnd => AfterElement(input, at, list, w, strtod)
  }

  /** The state `ParseJsonArray`'s loop keeps between passes: the cursor
      `at` is before the final NUL and, once past the `[`, after the start
      `at0`; the warnings are those before the call followed by `w`, none
      before the `[`; and the rest of the loop yields `goal`. */
  ghost predicate ArrayLoop(input: seq<byte>, strtod: Strtod, goal: Result<Parsed<seq<JsonValue>>>, at0: nat,
                            next: ArrayPosition, at: int, to: int, list: seq<JsonValue>,
                            w: seq<Warning>, base: seq<Warning>, warnings: seq<Warning>)
  {
    && WellTerminated(input) && at0 <= at <= |input| - 1 && to == 0
    && warnings == base + w
    && (next == ArrayBegin ==> w == [])
    && (next != ArrayBegin ==> at0 < at)
    && goal == ArrayRest(input, next, at, list, w, strtod)
  }

  /** `goal` is what the rest of `ParseJsonObject`'s loop yields from state
      `next` at `at`, with the table filled so far, the current key at slot
      `slot` and the warnings `w` logged so far. Before the `{` nothing has
      been stored or logged. */
  ghost predicate Resumes(input: seq<byte>, goal: Result<Parsed<seq<Slot>>>, next: ObjectPosition, at: nat,
                          table: seq<Slot>, slot: nat, w: seq<Warning>, strtod: Strtod)
    requires WellTerminated(input) && at < |input| && |table| == TABLE_SIZE && slot < TABLE_SIZE
  {
    && (next == ParsingBegin ==> table == EmptyTable() && w == [])
    && goal == ObjectRest(input, next, at, table, slot, w, strtod)
  }

  /** What the rest of `ParseJsonObject`'s loop yields from state `next` at
      `at`, with the table filled so far, the current key at slot `slot` and
      the warnings `w` logged so far. */
  ghost function ObjectRest(input: seq<byte>, next: ObjectPosition, at: nat, table: seq<Slot>, slot: nat,
                            w: seq<Warning>, strtod: Strtod): Result<Parsed<seq<Slot>>>
    requires WellTerminated(input) && at < |input| && |table| == TABLE_SIZE && slot < TABLE_SIZE
  {
    match next
    case ParsingBegin => ObjectSpec(input, at, strtod)
    case ParsingKey => Members(input, at, table, w, strtod)
    case ParsingColon => MemberValue(input, at, table, slot, w, strtod)
    case ParsingValue => AfterColon(input, at, table, slot, w, strtod)
    case ParsingCommaOrEnd => AfterMember(input, at, table, w, strtod)
  }

  /** The state `ParseJsonObject`'s loop keeps between passes: the cursor
      `at` is inside the input, the warnings are those before the call
      followed by `w`, and the rest of the loop yields `goal`. */
  ghost predicate ObjectLoop(input: seq<byte>, strtod: Strtod, goal: Result<Parsed<seq<Slot>>>,
                             next: ObjectPosition, at: int, to: int, table: seq<Slot>, slot: nat,
                             w: seq<Warning>, base: seq<Warning>, warnings: seq<Warning>)
  {
    && WellTerminated(input) && 0 <= at < |input| && to == 0
    && |table| == TABLE_SIZE && slot < TABLE_SIZE && warnings == base + w
    && Resumes(input, goal, next, at, table, slot, w, strtod)
  }

  /** The state `ParseJsonString`'s loop keeps between passes, `q` being the
      first byte from `at0` that cannot be ignored and `c` the closing quote:
      before the opening quote the cursor only passes over ignorable bytes;
      inside the text it stays after the opening quote while the look-ahead
      `to` counts the text up to `c`. */
  ghost predicate StringLoop(input: seq<byte>, at0: nat, q: nat, c: nat, next: StringPosition, at: int, to: int)
  {
    && q <= |input| && 0 <= at && 0 <= to
    && (next == StringBeginQuote ==> at0 <= at <= q && to == 0 && SkipIgnorable(input, at, |input|) == q)
    && (next != StringBeginQuote ==> q < |input| && input[q] == QUOTE && at == q + 1 && at + to <= c)
    && (next != StringBeginQuote ==> at + to <= |input| && Find(input, at + to, |input|, QUOTE) == c)
    && (next == StringEndQuote ==> at + to == c < |input|)
  }

  /** A parse method returned `r`, left the cursor at `at` and the look-ahead
      at `to`, and took the warnings from `before` to `now`, exactly as
      `spec` describes. */
  ghost predicate Delivers<T>(spec: Result<Parsed<T>>, r: Result<T>, at: int, to: int,
                              before: seq<Warning>, now: seq<Warning>)
  {
    match spec
    case Ok(p) => r == Ok(p.value) && at == p.at && to == 0 && now == before + p.warnings
    case Fatal(m) => r == Fatal(m)
  }

  /** Once the key at `k` is read and stored, the members resume at the
      colon after it. */
  lemma KeyResumes(input: seq<byte>, goal: Result<Parsed<seq<Slot>>>, k: nat, table: seq<Slot>,
                   w: seq<Warning>, strtod: Strtod)
    requires WellTerminated(input) && k < |input| && |table| == TABLE_SIZE
    requires goal == Members(input, k, table, w, strtod)
    ensures StringSpec(input, k).Fatal? ==> goal == Fatal(StringSpec(input, k).reason)
    ensures StringSpec(input, k).Ok? ==>
      var key := StringSpec(input, k).value; var s := StoreKey(table, key.value);
      key.at + 1 < |input| && Resumes(input, goal, ParsingColon, key.at + 1, s.table, s.slot, w + key.warnings + s.warnings, strtod)
  {
  }

  /** The loop state at the colon after a stored key, once the key's
      warnings and the store's are logged after `base`. */
  lemma KeyStored(input: seq<byte>, goal: Result<Parsed<seq<Slot>>>, at: nat, table: seq<Slot>, slot: nat,
                  w: seq<Warning>, strtod: Strtod, base: seq<Warning>, key: seq<Warning>, s: seq<Warning>,
                  warnings: seq<Warning>)
    requires WellTerminated(input) && at < |input| && |table| == TABLE_SIZE && slot < TABLE_SIZE
    requires Resumes(input, goal, ParsingColon, at, table, slot, w + key + s, strtod)
    requires warnings == base + w + key + s
    ensures ObjectLoop(input, strtod, goal, ParsingColon, at, 0, table, slot, w + key + s, base, warnings)
  {
    AppendAssociates(base, w, key, s);
  }

  /** The `PARSING_COLON` state on the byte at `at`: an ignorable byte
      keeps the state, `:` moves to the value, anything else fails. */
  lemma ColonStep(input: seq<byte>, at: nat, table: seq<Slot>, slot: nat, w: seq<Warning>, strtod: Strtod)
    requires WellTerminated(input) && at < |input| && |table| == TABLE_SIZE && slot < TABLE_SIZE
    ensures CharCanBeIgnored(input[at]) ==> (at + 1 < |input|
      && MemberValue(input, at, table, slot, w, strtod) == ObjectRest(input, ParsingColon, at + 1, table, slot, w, strtod))
    ensures !CharCanBeIgnored(input[at]) && input[at] == COLON ==> (at + 1 < |input|
      && MemberValue(input, at, table, slot, w, strtod) == ObjectRest(input, ParsingValue, at + 1, table, slot, w, strtod))
    ensures !CharCanBeIgnored(input[at]) && input[at] != COLON ==>
      MemberValue(input, at, table, slot, w, strtod) == Fatal(EXPECTED_COLON)
  {
    if CharCanBeIgnored(input[at]) {
      MemberValueSkips(input, at, table, slot, w, strtod);
    } else {
      MemberValueOn(input, at, table, slot, w, strtod);
    }
  }

  /** The `PARSING_COMMA_OR_END` state on the byte at `at`: an ignorable
      byte keeps the state, `,` moves to the next key, `}` ends the object
      and anything else fails. */
  lemma CommaStep(input: seq<byte>, at: nat, table: seq<Slot>, slot: nat, w: seq<Warning>, strtod: Strtod)
    requires WellTerminated(input) && at < |input| && |table| == TABLE_SIZE && slot < TABLE_SIZE
    ensures CharCanBeIgnored(input[at]) ==> (at + 1 < |input|
      && AfterMember(input, at, table, w, strtod) == ObjectRest(input, ParsingCommaOrEnd, at + 1, table, slot, w, strtod))
    ensures !CharCanBeIgnored(input[at]) && input[at] == COMMA ==> (at + 1 < |input|
      && AfterMember(input, at, table, w, strtod) == ObjectRest(input, ParsingKey, at + 1, table, slot, w, strtod))
    ensures !CharCanBeIgnored(input[at]) && input[at] != COMMA ==>
      AfterMember(input, at, table, w, strtod)
        == if input[at] == CLOSE_BRACE then Ok(Parsed(table, at, w)) else Fatal(EXPECTED_COMMA_OR_END)
  {
    if CharCanBeIgnored(input[at]) {
      AfterMemberSkips(input, at, table, w, strtod);
    } else {
      AfterMemberOn(input, at, table, w, strtod);
    }
  }

  class Parser {
    const input: seq<byte>
    const strtod: Strtod
    var at: int
    var to: nat
    /** The warnings logged so far, oldest first. */
    var warnings: seq<Warning>

    /** `JsonParser parser = {.input = json}`. */
    constructor (input: seq<byte>, strtod: Strtod)
      ensures this.input == input && this.strtod == strtod
      ensures at == 0 && to == 0 && warnings == []
    {
      this.input := input;
      this.strtod := strtod;
      at := 0;
      to := 0;
      warnings := [];
    }

    /** `ParserIter`: the byte under the cursor, advancing it, or NUL with
        the cursor left alone once it is past the end. */
    method Iter() returns (c: byte)
      modifies this
      ensures 0 <= old(at) < |input| ==> c == input[old(at)] && at == old(at) + 1
      ensures !(0 <= old(at) < |input|) ==> c == 0 && at == old(at)
      ensures to == old(to) && warnings == old(warnings)
    {
      c := 0;
      if 0 <= at < |input| {
        c := input[at];
        at := at + 1;
      }
    }

    /** `ParseJsonNumber`. */
    method ParseNumber() returns (v: real)
      requires 0 <= at < |input|
      modifies this
      ensures var p := NumberSpec(input, old(at), strtod); v == p.value && at == p.at
      ensures to == old(to) && warnings == old(warnings)
    {
      var s := CString(input, at);
      var consumed := Consumed(strtod, s);
      v := strtod(s).0;
      at := at + consumed - 1;
    }

    /** `ParseJsonBool`. */
    method ParseBool() returns (r: Result<bool>)
      requires WellTerminated(input) && 0 <= at < |input|
      modifies this
      ensures match BoolSpec(input, old(at))
        case Ok(p) => r == Ok(p.value) && at == p.at
        case Fatal(m) => r == Fatal(m)
      ensures to == old(to) && warnings == old(warnings)
    {
      if input[at] == FALSE_TEXT[0] && |input| >= at + 4 {
        var equal := MemEqual(input, at, FALSE_TEXT);
        if !equal {
          return Fatal(EXPECTED_FALSE);
        }
        at := at + 4;
        return Ok(false);
      }
      if input[at] == TRUE_TEXT[0] && |input| >= at + 3 {
        var equal := MemEqual(input, at, TRUE_TEXT);
        if !equal {
          return Fatal(EXPECTED_TRUE);
        }
        at := at + 3;
        return Ok(false);
      }
      return Fatal(EOF_BOOL);
    }

    /** `ParseJsonNull`. */
    method ParseNull() returns (r: Result<()>)
      requires WellTerminated(input) && 0 <= at < |input|
      modifies this
      ensures match NullSpec(input, old(at))
        case Ok(p) => r == Ok(p.value) && at == p.at
        case Fatal(m) => r == Fatal(m)
      ensures to == old(to) && warnings == old(warnings)
    {
      var equal := MemEqual(input, at, NULL_TEXT);
      if equal {
        at := at + 3;
        return Ok(());
      }
      return Fatal(EXPECTED_NULL);
    }

    /** The string loop's `STRING_END_QUOTE` pass: `to` zeroed bytes are
        allocated and the text starting at the cursor copied into them;
        the cursor then moves onto the closing quote. */
    method CopyText() returns (text: seq<byte>)
      requires 0 <= at && at + to <= |input|
      modifies this
      ensures var copy := Copied(seq(old(to), _ => 0), input[old(at)..]);
        text == copy.0 && warnings == old(warnings) + (if copy.1 then [ShortSource] else [])
      ensures at == old(at) + old(to) && to == 0
    {
      var buffer := new byte[to](_ => 0);
      assert buffer[..] == seq(to, _ => 0);
      var short := StrCpy(buffer, input[at..]);
      if short {
        warnings := warnings + [ShortSource];
      }
      at := at + to;
      to := 0;
      text := buffer[..];
    }

    /** The string loop's `STRING_END_QUOTE` pass: the text between the
        quotes is copied out. */
    method EndString(ghost at0: nat) returns (r: Result<seq<byte>>)
      requires WellTerminated(input) && at0 < |input|
      requires var q := SkipIgnorable(input, at0, |input|);
        q < |input| && input[q] == QUOTE && at == q + 1 && at + to == Find(input, q + 1, |input|, QUOTE) < |input|
      modifies this
      ensures Delivers(StringSpec(input, at0), r, at, to, old(warnings), warnings)
    {
      SkipStopsInside(input, at0);
      var text := CopyText();
      r := Ok(text);
    }

    /** One pass of `ParseJsonString`'s loop over the byte at `at + to`, in
        state `next`: the `switch` on the state, up to the loop's `at++`.
        `q` is the first byte from `at0` that cannot be ignored and `c` the
        closing quote after it. */
    method StringPass(next: StringPosition, ghost at0: nat, ghost q: nat, ghost c: nat)
      returns (stop: bool, r: Result<seq<byte>>, next': StringPosition)
      requires WellTerminated(input) && at0 < |input| && at + to < |input|
      requires q == SkipIgnorable(input, at0, |input|)
      requires c == if input[q] == QUOTE then Find(input, q + 1, |input|, QUOTE) else 0
      requires StringLoop(input, at0, q, c, next, at, to)
      modifies this
      ensures stop ==> Delivers(StringSpec(input, at0), r, at, to, old(warnings), warnings)
      ensures !stop ==> warnings == old(warnings) && StringLoop(input, at0, q, c, next', at + 1, to)
      ensures !stop ==> (old(at + to) < at + 1 + to
        || (old(at + to) == at + 1 + to && next == StringText && next' == StringEndQuote))
    {
      var ch := input[at + to];
      stop, r, next' := false, Fatal(EOF_STRING), next;
      match next {
      case StringBeginQuote =>
        if CharCanBeIgnored(ch) {
        } else if ch == QUOTE {
          next' := StringText;
        } else {
          SkipStopsInside(input, at0);
          stop, r := true, Fatal(INVALID_IN_STRING);
        }
      case StringText =>
        if ch != QUOTE {
          to := to + 1;
          at := at - 1;
        } else {
          next' := StringEndQuote;
          at := at - 1;
        }
      case StringEndQuote =>
        stop := true;
        r := EndString(at0);
      }
    }

    /** `ParseJsonString`: `to` counts the text while `at` stays on its first
        byte; the text is copied into zeroed memory of that length. */
    method ParseString() returns (r: Result<seq<byte>>)
      requires WellTerminated(input) && 0 <= at < |input| && to == 0
      modifies this
      ensures Delivers(StringSpec(input, old(at)), r, at, to, old(warnings), warnings)
    {
      ghost var at0 := at;
      SkipStopsInside(input, at0);
      ghost var q := SkipIgnorable(input, at0, |input|);
      ghost var c := if input[q] == QUOTE then Find(input, q + 1, |input|, QUOTE) else 0;
      var next := StringBeginQuote;
      r := Fatal(EOF_STRING);
      while at + to < |input|
        invariant warnings == old(warnings) && r == Fatal(EOF_STRING)
        invariant StringLoop(input, at0, q, c, next, at, to)
        decreases |input| - at - to, if next == StringText then 1 else 0
      {
        var stop, result;
        stop, result, next := StringPass(next, at0, q, c);
        if stop {
          r := result;
          break;
        }
        at := at + 1;
      }
    }

    /** The array loop's `ARRAY_BEGIN` pass over the byte at the cursor:
        anything but `[` is passed over; `[]` ends the array at once. */
    method ArrayBeginPass(list: seq<JsonValue>) returns (stop: bool, r: Result<seq<JsonValue>>, next: ArrayPosition)
      requires WellTerminated(input) && 0 <= at < |input| - 1 && to == 0
      modifies this
      ensures to == 0 && warnings == old(warnings)
      ensures stop ==> Delivers(ArrayRest(input, ArrayBegin, old(at), list, [], strtod), r, at, to, old(warnings), warnings)
      ensures !stop ==> (at == old(at) && next != ArrayCommaOrEnd
        && ArrayRest(input, next, at + 1, list, [], strtod) == ArrayRest(input, ArrayBegin, at, list, [], strtod))
    {
      var ch := input[at];
      stop, r, next := false, Fatal(EOF_ARRAY), ArrayBegin;
      if CharCanBeIgnored(ch) {
      } else if ch == OPEN_BRACKET {
        if input[at + 1] == CLOSE_BRACKET {
          at := at + 1;
          stop, r := true, Ok(list);
        } else {
          next := ArrayValue;
        }
      }
    }

    /** The array loop's `ARRAY_VALUE` pass: the element at the cursor is
        parsed into a fresh zeroed node, which becomes the head of `list`. */
    method ArrayValuePass(list: seq<JsonValue>, ghost w: seq<Warning>, ghost base: seq<Warning>)
      returns (stop: bool, r: Result<seq<JsonValue>>, grown: seq<JsonValue>, ghost w': seq<Warning>)
      requires WellTerminated(input) && 0 <= at < |input| - 1 && to == 0 && warnings == base + w
      modifies this
      ensures stop ==> Delivers(ArrayRest(input, ArrayValue, old(at), list, w, strtod), r, at, to, base, warnings)
      ensures !stop ==> (old(at) - 1 <= at < |input| - 1 && to == 0 && warnings == base + w'
        && ArrayRest(input, ArrayCommaOrEnd, at + 1, grown, w', strtod) == ArrayRest(input, ArrayValue, old(at), list, w, strtod))
      decreases |input| - at, 4
    {
      ghost var before := warnings;
      var v := ParseValue(ZERO_VALUE);
      stop, r, grown, w' := v.Fatal?, Fatal(EOF_ARRAY), list, w;
      if v.Fatal? {
        r := Fatal(v.reason);
      } else {
        grown, w' := [v.value] + list, w + warnings[|before|..];
      }
    }

    /** The array loop's `ARRAY_COMMA_OR_END` pass over the byte at the
        cursor. */
    method ArrayCommaPass(list: seq<JsonValue>, ghost w: seq<Warning>, ghost base: seq<Warning>)
      returns (stop: bool, r: Result<seq<JsonValue>>, next: ArrayPosition)
      requires WellTerminated(input) && 0 <= at < |input| - 1 && to == 0 && warnings == base + w
      modifies this
      ensures at == old(at) && to == 0 && warnings == old(warnings)
      ensures stop ==> Delivers(ArrayRest(input, ArrayCommaOrEnd, at, list, w, strtod), r, at, to, base, warnings)
      ensures !stop ==> (next != ArrayBegin
        && ArrayRest(input, next, at + 1, list, w, strtod) == ArrayRest(input, ArrayCommaOrEnd, at, list, w, strtod))
    {
      var ch := input[at];
      stop, r, next := false, Fatal(EOF_ARRAY), ArrayCommaOrEnd;
      if CharCanBeIgnored(ch) {
        AfterElementSkips(input, at, list, w, strtod);
      } else {
        AfterElementOn(input, at, list, w, strtod);
        if ch == COMMA {
          next := ArrayValue;
        } else if ch == CLOSE_BRACKET {
          stop, r := true, Ok(list);
        } else {
          stop, r := true, Fatal(INVALID_IN_ARRAY);
        }
      }
    }

    /** One pass of `ParseJsonArray`'s loop over the byte at the cursor, in
        state `next`: the `switch` on the state, up to the loop's `at++`. */
    method ArrayPass(next: ArrayPosition, list: seq<JsonValue>, ghost w: seq<Warning>, ghost base: seq<Warning>,
                     ghost goal: Result<Parsed<seq<JsonValue>>>, ghost at0: nat)
      returns (stop: bool, r: Result<seq<JsonValue>>, next': ArrayPosition, list': seq<JsonValue>, ghost w': seq<Warning>)
      requires at < |input| - 1 && ArrayLoop(input, strtod, goal, at0, next, at, to, list, w, base, warnings)
      modifies this
      ensures stop ==> Delivers(goal, r, at, to, base, warnings)
      ensures !stop ==> ArrayLoop(input, strtod, goal, at0, next', at + 1, to, list', w', base, warnings)
      ensures !stop ==> (old(at) < at + 1 || (old(at) == at + 1 && next == ArrayValue && next' == ArrayCommaOrEnd))
      decreases |input| - at, if next == ArrayBegin then 0 else 5
    {
      match next {
      case ArrayBegin =>
        stop, r, next' := ArrayBeginPass(list);
        list', w' := list, w;
      case ArrayValue =>
        stop, r, list', w' := ArrayValuePass(list, w, base);
        next' := ArrayCommaOrEnd;
      case ArrayCommaOrEnd =>
        stop, r, next' := ArrayCommaPass(list, w, base);
        list', w' := list, w;
      }
    }

    /** `ParseJsonArray(p, val)` with `*val` holding the list `prev`: each
        element is parsed into a fresh node that becomes the new head. */
    method ParseArray(prev: seq<JsonValue>) returns (r: Result<seq<JsonValue>>)
      requires WellTerminated(input) && 0 <= at < |input| && to == 0
      modifies this
      ensures Delivers(ArraySpec(input, old(at), prev, strtod), r, at, to, old(warnings), warnings)
      decreases |input| - at, 1
    {
      ghost var at0 := at;
      ghost var goal := ArraySpec(input, at, prev, strtod);
      ghost var w: seq<Warning> := [];
      var list := prev;
      var next := ArrayBegin;
      r := Fatal(EOF_ARRAY);
      while at < |input| - 1
        invariant r == Fatal(EOF_ARRAY)
        invariant ArrayLoop(input, strtod, goal, at0, next, at, to, list, w, old(warnings), warnings)
        decreases |input| - at, if next == ArrayValue then 1 else 0
      {
        var stop, result;
        stop, result, next, list, w := ArrayPass(next, list, w, old(warnings), goal, at0);
        if stop {
          r := result;
          break;
        }
        at := at + 1;
      }
    }

    /** One pass of `ParseJsonObject`'s loop ended: either the parse stopped
        with what `goal` describes, or the loop goes on from state `next` at
        the byte after `at`, and `goal` is what the rest yields from there. */
    ghost predicate Passed(goal: Result<Parsed<seq<Slot>>>, base: seq<Warning>, stop: bool, r: Result<seq<Slot>>,
                           next: ObjectPosition, table: seq<Slot>, slot: nat, w: seq<Warning>)
      reads this
      requires WellTerminated(input)
    {
      && (stop ==> Delivers(goal, r, at, to, base, warnings))
      && (!stop ==> ObjectLoop(input, strtod, goal, next, at + 1, to, table, slot, w, base, warnings))
    }

    /** The object loop's `PARSING_BEGIN` pass over the byte at the cursor:
        ignorable bytes are passed over, `{}` is an empty table, and
        anything but `{` is unreachable from `ParseJsonValue`. */
    method ObjectBeginPass(ghost goal: Result<Parsed<seq<Slot>>>, ghost base: seq<Warning>)
      returns (stop: bool, r: Result<seq<Slot>>, next: ObjectPosition, table: seq<Slot>, slot: nat, ghost w: seq<Warning>)
      requires WellTerminated(input) && 0 <= at < |input| && to == 0 && warnings == base
      requires goal == ObjectSpec(input, at, strtod)
      modifies this
      ensures Passed(goal, base, stop, r, next, table, slot, w)
      ensures !stop ==> at == old(at)
    {
      var ch := input[at];
      stop, r, next, table, slot, w := false, Fatal(UNREACHABLE), ParsingBegin, EmptyTable(), 0, [];
      if CharCanBeIgnored(ch) {
        ObjectSpecSkips(input, at, strtod);
      } else {
        ObjectSpecOn(input, at, strtod);
        if ch != OPEN_BRACE {
          stop := true;
        } else if input[at + 1] == CLOSE_BRACE {
          at := at + 1;
          stop, r := true, Ok(EmptyTable());
        } else {
          next := ParsingKey;
        }
      }
    }

    /** The key-storing half of `PARSING_KEY`: `Hash(curKey) % size`, the
        collision check on slot 0, and the store. */
    method StoreCurrentKey(table: seq<Slot>, key: seq<byte>) returns (stored: seq<Slot>, slot: nat)
      requires |table| == TABLE_SIZE
      modifies this
      ensures var s := StoreKey(table, key);
        stored == s.table && slot == s.slot && warnings == old(warnings) + s.warnings
      ensures at == old(at) && to == old(to)
    {
      var hash := Hash(Chars(key));
      slot := (hash % 256) as int;
      if table[0].key.Some? {
        warnings := warnings + [HashCollision];
      }
      stored := table[slot := table[slot].(key := Some(key))];
    }

    /** The object loop's `PARSING_KEY` pass: the key is parsed, hashed to
        its slot and stored there; the collision warning looks at slot 0. */
    method ObjectKeyPass(table: seq<Slot>, ghost w: seq<Warning>, ghost base: seq<Warning>, ghost goal: Result<Parsed<seq<Slot>>>)
      returns (stop: bool, r: Result<seq<Slot>>, next: ObjectPosition, stored: seq<Slot>, slot: nat, ghost w': seq<Warning>)
      requires WellTerminated(input) && 0 <= at < |input| && to == 0
      requires |table| == TABLE_SIZE && warnings == base + w
      requires goal == Members(input, at, table, w, strtod)
      modifies this
      ensures Passed(goal, base, stop, r, next, stored, slot, w')
      ensures !stop ==> old(at) <= at && next == ParsingColon
    {
      ghost var keySpec := StringSpec(input, at);
      ghost var k := at;
      var key := ParseString();
      stop, r, next, stored, slot, w' := StoreParsedKey(key, table, k, w, base, goal, keySpec);
    }

    /** The rest of the `PARSING_KEY` pass once `ParseJsonString` returned
        `key` for the key that starts at `k`. */
    method StoreParsedKey(key: Result<seq<byte>>, table: seq<Slot>, ghost k: nat, ghost w: seq<Warning>, ghost base: seq<Warning>,
                          ghost goal: Result<Parsed<seq<Slot>>>, ghost keySpec: Result<Parsed<seq<byte>>>)
      returns (stop: bool, r: Result<seq<Slot>>, next: ObjectPosition, stored: seq<Slot>, slot: nat, ghost w': seq<Warning>)
      requires WellTerminated(input) && k < |input| && |table| == TABLE_SIZE
      requires goal == Members(input, k, table, w, strtod) && keySpec == StringSpec(input, k)
      requires Delivers(keySpec, key, at, to, base + w, warnings)
      modifies this
      ensures Passed(goal, base, stop, r, next, stored, slot, w')
      ensures !stop ==> k <= at && next == ParsingColon
    {
      stop, r, next, stored, slot, w' := key.Fatal?, Fatal(UNREACHABLE), ParsingColon, table, 0, w;
      KeyResumes(input, goal, k, table, w, strtod);
      if key.Fatal? {
        r := Fatal(key.reason);
      } else {
        w' := w + keySpec.value.warnings + StoreKey(table, key.value).warnings;
        stored, slot := StoreCurrentKey(table, key.value);
        KeyStored(input, goal, at + 1, stored, slot, w, strtod, base, keySpec.value.warnings, StoreKey(table, key.value).warnings, warnings);
      }
    }

    /** The object loop's `PARSING_COLON` pass over the byte at the cursor. */
    method ObjectColonPass(table: seq<Slot>, slot: nat, ghost w: seq<Warning>, ghost base: seq<Warning>, ghost goal: Result<Parsed<seq<Slot>>>)
      returns (stop: bool, r: Result<seq<Slot>>, next: ObjectPosition)
      requires WellTerminated(input) && 0 <= at < |input| && to == 0
      requires |table| == TABLE_SIZE && slot < TABLE_SIZE && warnings == base + w
      requires goal == MemberValue(input, at, table, slot, w, strtod)
      ensures Passed(goal, base, stop, r, next, table, slot, w)
      ensures !stop ==> next != ParsingBegin
    {
      var ch := input[at];
      stop, r, next := false, Fatal(EXPECTED_COLON), ParsingColon;
      ColonStep(input, at, table, slot, w, strtod);
      if CharCanBeIgnored(ch) {
        // the state is kept
      } else if ch == COLON {
        next := ParsingValue;
      } else {
        stop := true;
      }
    }

    /** The object loop's `PARSING_VALUE` pass: the value is parsed into the
        current key's slot, over the value it held. */
    method ObjectValuePass(table: seq<Slot>, slot: nat, ghost w: seq<Warning>, ghost base: seq<Warning>, ghost goal: Result<Parsed<seq<Slot>>>)
      returns (stop: bool, r: Result<seq<Slot>>, next: ObjectPosition, stored: seq<Slot>, ghost w': seq<Warning>)
      requires WellTerminated(input) && 0 <= at < |input| && to == 0
      requires |table| == TABLE_SIZE && slot < TABLE_SIZE && warnings == base + w
      requires goal == AfterColon(input, at, table, slot, w, strtod)
      modifies this
      ensures Passed(goal, base, stop, r, next, stored, slot, w')
      ensures !stop ==> old(at) - 1 <= at && next == ParsingCommaOrEnd
      decreases |input| - at, 4
    {
      ghost var before := warnings;
      var v := ParseValue(table[slot].value);
      stop, r, next, stored, w' := v.Fatal?, Fatal(UNREACHABLE), ParsingCommaOrEnd, table, w;
      if v.Fatal? {
        r := Fatal(v.reason);
      } else {
        stored := table[slot := table[slot].(value := v.value)];
        w' := w + warnings[|before|..];
      }
    }

    /** The object loop's `PARSING_COMMA_OR_END` pass over the byte at the
        cursor. */
    method ObjectCommaPass(table: seq<Slot>, slot: nat, ghost w: seq<Warning>, ghost base: seq<Warning>, ghost goal: Result<Parsed<seq<Slot>>>)
      returns (stop: bool, r: Result<seq<Slot>>, next: ObjectPosition)
      requires WellTerminated(input) && 0 <= at < |input| && to == 0
      requires |table| == TABLE_SIZE && slot < TABLE_SIZE && warnings == base + w
      requires goal == AfterMember(input, at, table, w, strtod)
      ensures Passed(goal, base, stop, r, next, table, slot, w)
      ensures !stop ==> next != ParsingBegin
    {
      var ch := input[at];
      stop, r, next := false, Fatal(EXPECTED_COMMA_OR_END), ParsingCommaOrEnd;
      CommaStep(input, at, table, slot, w, strtod);
      if CharCanBeIgnored(ch) {
        // the state is kept
      } else if ch == COMMA {
        next := ParsingKey;
      } else if ch == CLOSE_BRACE {
        stop, r := true, Ok(table);
      } else {
        stop := true;
      }
    }

    /** One pass of `ParseJsonObject`'s loop over the byte at the cursor, in
        state `next`: the `switch` on the state. */
    method ObjectPass(next: ObjectPosition, table: seq<Slot>, slot: nat, ghost w: seq<Warning>, ghost base: seq<Warning>,
                      ghost goal: Result<Parsed<seq<Slot>>>, ghost at0: nat)
      returns (stop: bool, r: Result<seq<Slot>>, next': ObjectPosition, table': seq<Slot>, slot': nat, ghost w': seq<Warning>)
      requires ObjectLoop(input, strtod, goal, next, at, to, table, slot, w, base, warnings)
      requires at0 <= at && (next != ParsingBegin ==> at0 < at)
      modifies this
      ensures Passed(goal, base, stop, r, next', table', slot', w')
      ensures !stop ==> at0 <= at && (next' != ParsingBegin ==> at0 < at + 1)
      ensures !stop ==> old(at) < at + 1 || (old(at) == at + 1 && next == ParsingValue && next' == ParsingCommaOrEnd)
      decreases |input| - at, if next == ParsingBegin then 0 else 5
    {
      match next {
      case ParsingBegin =>
        stop, r, next', table', slot', w' := ObjectBeginPass(goal, base);
      case ParsingKey =>
        stop, r, next', table', slot', w' := ObjectKeyPass(table, w, base, goal);
      case ParsingColon =>
        stop, r, next' := ObjectColonPass(table, slot, w, base, goal);
        table', slot', w' := table, slot, w;
      case ParsingValue =>
        stop, r, next', table', w' := ObjectValuePass(table, slot, w, base, goal);
        slot' := slot;
      case ParsingCommaOrEnd =>
        stop, r, next' := ObjectCommaPass(table, slot, w, base, goal);
        table', slot', w' := table, slot, w;
      }
    }

    /** `ParseJsonObject`: a table of `TABLE_SIZE` zeroed slots; each key is
        stored at slot `Hash(key) % size` and its value parsed into that
        slot. The loop cannot run off the end: every pass leaves the cursor
        before the final NUL. */
    method ParseObject() returns (r: Result<seq<Slot>>)
      requires WellTerminated(input) && 0 <= at < |input| && to == 0
      modifies this
      ensures Delivers(ObjectSpec(input, old(at), strtod), r, at, to, old(warnings), warnings)
      decreases |input| - at, 1
    {
      ghost var at0 := at;
      ghost var goal := ObjectSpec(input, at, strtod);
      ghost var w: seq<Warning> := [];
      var table := EmptyTable();
      var next := ParsingBegin;
      var curHash: nat := 0;
      var stop := false;
      ghost var cursor, log := at, warnings;
      r := Fatal(EOF_OBJECT);
      while at < |input|
        invariant !stop && at == cursor && to == 0 && warnings == log
        invariant at0 <= cursor && (next != ParsingBegin ==> at0 < cursor)
        invariant ObjectLoop(input, strtod, goal, next, cursor, 0, table, curHash, w, old(warnings), log)
        decreases |input| - at, if next == ParsingValue then 1 else 0
      {
        var result: Result<seq<Slot>>;
        stop, result, next, table, curHash, w := ObjectPass(next, table, curHash, w, old(warnings), goal, at0);
        if stop {
          r := result;
          break;
        }
        cursor, log := at + 1, warnings;
        at := at + 1;
      }
      if !stop {
        assert false;
      }
    }

    /** `ParseJsonValue` on the byte at the cursor, which cannot be ignored:
        the byte picks the parser, whose result becomes the value. */
    method DispatchValue(prev: JsonValue) returns (r: Result<JsonValue>)
      requires WellTerminated(input) && 0 <= at < |input| && to == 0
      modifies this
      ensures Delivers(Dispatch(input, old(at), prev, strtod), r, at, to, old(warnings), warnings)
      decreases |input| - at, 2
    {
      var ch := input[at];
      if ch == OPEN_BRACE {
        var members := ParseObject();
        r := if members.Fatal? then Fatal(members.reason) else Ok(JObject(members.value));
      } else if StartsNumber(ch) {
        assert |CString(input, at)| < |input| - at;
        var number := ParseNumber();
        r := Ok(JNumber(number));
      } else if ch == TRUE_TEXT[0] || ch == FALSE_TEXT[0] {
        var boolean := ParseBool();
        r := if boolean.Fatal? then Fatal(boolean.reason) else Ok(JBool(boolean.value));
      } else if ch == NULL_TEXT[0] {
        var unit := ParseNull();
        r := if unit.Fatal? then Fatal(unit.reason) else Ok(JNull(PreviousList(prev)));
      } else if ch == OPEN_BRACKET {
        var items := ParseArray(PreviousList(prev));
        r := if items.Fatal? then Fatal(items.reason) else Ok(JArray(items.value));
      } else if ch == QUOTE {
        var text := ParseString();
        r := if text.Fatal? then Fatal(text.reason) else Ok(JString(text.value));
      } else {
        r := Fatal(INVALID_VALUE);
      }
    }

    /** `ParseJsonValue(p, val)` with `*val` holding `prev`: ignorable bytes
        are passed over, then the value is parsed. */
    method ParseValue(prev: JsonValue) returns (r: Result<JsonValue>)
      requires WellTerminated(input) && 0 <= at < |input| && to == 0
      modifies this
      ensures Delivers(ValueSpec(input, old(at), prev, strtod), r, at, to, old(warnings), warnings)
      decreases |input| - at, 3
    {
      ghost var at0 := at;
      SkipStopsInside(input, at0);
      ghost var s := SkipIgnorable(input, at0, |input|);
      while true
        invariant at0 <= at <= s && to == 0 && warnings == old(warnings)
        invariant SkipIgnorable(input, at, |input|) == s
        decreases |input| - at
      {
        var ch := input[at];
        if !CharCanBeIgnored(ch) {
          break;
        }
        at := at + 1;
      }
      r := DispatchValue(prev);
    }
  }

  /** `LoadJson`: parse one value from the start of the buffer. */
  method LoadJson(json: seq<byte>, strtod: Strtod) returns (r: Result<JsonValue>)
    requires WellTerminated(json)
    ensures r == LoadJsonSpec(json, strtod)
  {
    var parser := new Parser(json, strtod);
    r := parser.ParseValue(ZERO_VALUE);
  }
}

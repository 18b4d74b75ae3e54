/** What the JSON reader's results mean, stated against descriptions that do
    not follow the reader's own state machines: the first significant byte
    decides a value's tag, a string holds the bytes between its quotes, an
    array lists its elements last first, and every key of an object sits in
    the slot its hash names. */
module JsonProperties {
  import opened Common
  import opened JsonHash
  import opened JsonSpec

  /** `s` is the first byte at or after `at` that `CharCanBeIgnored` rejects. */
  predicate FirstSignificant(input: seq<byte>, at: nat, s: nat)
  {
    && at <= s < |input|
    && !CharCanBeIgnored(input[s])
    && forall k :: at <= k < s ==> CharCanBeIgnored(input[k])
  }

  lemma SkipFindsFirst(input: seq<byte>, at: nat, s: nat)
    requires FirstSignificant(input, at, s)
    ensures SkipIgnorable(input, at, |input|) == s
  {
  }

  lemma FindFindsFirst(input: seq<byte>, from: nat, c: nat, b: byte)
    requires from <= c < |input| && input[c] == b
    requires forall k :: from <= k < c ==> input[k] != b
    ensures Find(input, from, |input|, b) == c
  {
  }

  // ----- strings -----

  /** `ParseJsonString` succeeds exactly when the first significant byte is
      `"` and another `"` follows it somewhere; a different first byte and a
      missing closing quote are its two fatal errors. */
  lemma StringOutcome(input: seq<byte>, at: nat, q: nat)
    requires WellTerminated(input) && at < |input| && FirstSignificant(input, at, q)
    ensures input[q] != QUOTE ==> StringSpec(input, at) == Fatal(INVALID_IN_STRING)
    ensures input[q] == QUOTE && (forall k :: q < k < |input| ==> input[k] != QUOTE) ==>
      StringSpec(input, at) == Fatal(EOF_STRING)
    ensures StringSpec(input, at).Ok? <==> input[q] == QUOTE && exists c :: q < c < |input| && input[c] == QUOTE
  {
    SkipFindsFirst(input, at, q);
    if input[q] == QUOTE {
      var c := Find(input, q + 1, |input|, QUOTE);
      if c < |input| {
        assert q < c < |input| && input[c] == QUOTE;
      }
    }
  }

  /** The bytes `StrCpy` leaves in zeroed memory of the length of `text`:
      those of `text` before its first NUL, zeros from there on. */
  function CopiedText(text: seq<byte>): (r: seq<byte>)
  {
    seq(|text|, k requires 0 <= k < |text| => if 0 in text[..k] then 0 else text[k])
  }

  /** `Copied` into zeroed memory is `CopiedText`, with the warning exactly
      when `text` holds a NUL; a text without one is copied exactly. */
  lemma CopiedIntoZeros(text: seq<byte>, source: seq<byte>)
    requires |text| <= |source| && text == source[..|text|]
    ensures var copy := Copied(seq(|text|, _ => 0), source);
      && copy.0 == CopiedText(text)
      && copy.1 == (0 in text)
      && (0 !in text ==> copy.0 == text)
  {
    var dest: seq<byte> := seq(|text|, _ => 0);
    var z := Find(source, 0, |dest|, 0);
    var value := source[..z] + dest[z..];
    forall k | 0 <= k < |text|
      ensures value[k] == CopiedText(text)[k]
    {
      assert text[k] == source[k];
      if k < z {
        assert 0 !in text[..k] by {
          forall j | 0 <= j < k ensures text[..k][j] != 0 {
            assert text[..k][j] == source[j];
          }
        }
      } else {
        assert text[z] == 0;
        if z < k {
          assert text[..k][z] == 0;
        }
      }
    }
    assert value == CopiedText(text);
    if z < |dest| {
      assert text[z] == 0;
    } else {
      assert 0 !in text by {
        forall j | 0 <= j < |text| ensures text[j] != 0 {
          assert text[j] == source[j];
        }
      }
      assert value == text;
    }
  }

  /** A string `"text"`: the cursor stops on the closing quote, and the
      value is `text` as `StrCpy` copies it (cut at a NUL byte, with a
      warning). */
  lemma StringText(input: seq<byte>, at: nat, q: nat, c: nat)
    requires WellTerminated(input) && at < |input| && FirstSignificant(input, at, q)
    requires q < c < |input| && input[q] == QUOTE && input[c] == QUOTE
    requires forall k :: q < k < c ==> input[k] != QUOTE
    ensures var r := StringSpec(input, at); var text := input[q + 1..c];
      && r.Ok? && r.value.at == c
      && r.value.value == CopiedText(text)
      && r.value.warnings == (if 0 in text then [ShortSource] else [])
      && (0 !in text ==> r.value.value == text)
  {
    SkipFindsFirst(input, at, q);
    FindFindsFirst(input, q + 1, c, QUOTE);
    CopiedIntoZeros(input[q + 1..c], input[q + 1..]);
  }

  // ----- literals -----

  /** `ParseJsonBool` accepts exactly `false` and `true`, stores `false` for
      both, and leaves the cursor on the final `e`. A first byte that is
      neither `t` nor `f`, or an `f` too close to the end, is the
      end-of-input error. */
  lemma BoolOutcome(input: seq<byte>, at: nat)
    requires WellTerminated(input) && at < |input|
    ensures var r := BoolSpec(input, at);
      && (r.Ok? <==> ((at + 5 <= |input| && input[at..at + 5] == FALSE_TEXT)
                      || (at + 4 <= |input| && input[at..at + 4] == TRUE_TEXT)))
      && (r.Ok? ==> !r.value.value && r.value.warnings == [])
      && (r.Ok? && input[at] == TRUE_TEXT[0] ==> r.value.at == at + 3)
      && (r.Ok? && input[at] == FALSE_TEXT[0] ==> r.value.at == at + 4)
      && ((input[at] != TRUE_TEXT[0] && input[at] != FALSE_TEXT[0]) || (input[at] == FALSE_TEXT[0] && |input| < at + 4)
          ==> r == Fatal(EOF_BOOL))
  {
    if at + 5 <= |input| && input[at..at + 5] == FALSE_TEXT {
      assert input[at] == input[at..at + 5][0];
    }
    if at + 4 <= |input| && input[at..at + 4] == TRUE_TEXT {
      assert input[at] == input[at..at + 4][0];
    }
  }

  // ----- values -----

  /** The bytes `ParseJsonValue` dispatches on. */
  predicate StartsValue(c: byte)
  {
    c == OPEN_BRACE || StartsNumber(c) || c == TRUE_TEXT[0] || c == FALSE_TEXT[0]
    || c == NULL_TEXT[0] || c == OPEN_BRACKET || c == QUOTE
  }

  /** `ParseJsonValue` sets the tag its first significant byte selects (`{`
      object, digit, `-` or `.` number, `t`/`f` bool, `n` null, `[` array,
      `"` string), any other byte is fatal, and a number never fails. */
  lemma ValueTag(input: seq<byte>, at: nat, prev: JsonValue, strtod: Strtod, s: nat)
    requires WellTerminated(input) && at < |input| && FirstSignificant(input, at, s)
    ensures var r := ValueSpec(input, at, prev, strtod); var c := input[s];
      && (r.Ok? ==> (r.value.value.JObject? <==> c == OPEN_BRACE))
      && (r.Ok? ==> (r.value.value.JNumber? <==> StartsNumber(c)))
      && (r.Ok? ==> (r.value.value.JBool? <==> c == TRUE_TEXT[0] || c == FALSE_TEXT[0]))
      && (r.Ok? ==> (r.value.value.JNull? <==> c == NULL_TEXT[0]))
      && (r.Ok? ==> (r.value.value.JArray? <==> c == OPEN_BRACKET))
      && (r.Ok? ==> (r.value.value.JString? <==> c == QUOTE))
      && (!StartsValue(c) ==> r == Fatal(INVALID_VALUE))
      && (StartsNumber(c) ==> r.Ok?)
  {
    SkipFindsFirst(input, at, s);
    assert ValueSpec(input, at, prev, strtod) == Dispatch(input, s, prev, strtod);
  }

  /** Every token ends where the cursor stops: an object on `}`, an array on
      `]`, a string on its closing quote, `false` four bytes and `true` and
      `null` three bytes after their first byte, a number on the last byte
      `strtod` consumed. */
  lemma ValueEndsOnToken(input: seq<byte>, at: nat, prev: JsonValue, strtod: Strtod, s: nat)
    requires WellTerminated(input) && at < |input| && FirstSignificant(input, at, s)
    ensures var r := ValueSpec(input, at, prev, strtod);
      r.Ok? ==> match r.value.value
        case JObject(_) => s < r.value.at && input[r.value.at] == CLOSE_BRACE
        case JArray(_) => s < r.value.at && input[r.value.at] == CLOSE_BRACKET
        case JString(_) => s < r.value.at && input[r.value.at] == QUOTE
        case JBool(b) => !b && r.value.at == s + (if input[s] == FALSE_TEXT[0] then 4 else 3)
        case JNull(_) => r.value.at == s + 3 && input[s..s + 4] == NULL_TEXT
        case JNumber(n) =>
          var digits := CString(input, s);
          n == strtod(digits).0 && r.value.at == s + Consumed(strtod, digits) - 1
  {
    SkipFindsFirst(input, at, s);
    assert ValueSpec(input, at, prev, strtod) == Dispatch(input, s, prev, strtod);
    var c := input[s];
    if c == TRUE_TEXT[0] || c == FALSE_TEXT[0] {
      BoolOutcome(input, s);
    }
  }

  /** `ParseJsonNull` writes only the tag: the null keeps the list an array
      left in the destination, and an array parsed there later is prepended
      to that same list, as if the null had not been there. */
  lemma NullRetainsList(input: seq<byte>, at: nat, prev: JsonValue, strtod: Strtod, s: nat)
    requires WellTerminated(input) && at < |input| && FirstSignificant(input, at, s)
    requires input[s] == NULL_TEXT[0]
    ensures var r := ValueSpec(input, at, prev, strtod);
      r.Ok? ==> r.value.value == JNull(PreviousList(prev)) && PreviousList(r.value.value) == PreviousList(prev)
  {
    SkipFindsFirst(input, at, s);
    assert ValueSpec(input, at, prev, strtod) == Dispatch(input, s, prev, strtod);
  }

  // ----- arrays -----

  /** The elements of an array from its `ARRAY_VALUE` state at `k`, in input
      order: the reference the reader's prepending list is compared with. */
  function InOrder(input: seq<byte>, k: nat, w: seq<Warning>, strtod: Strtod): Result<Parsed<seq<JsonValue>>>
    requires WellTerminated(input) && k < |input|
    decreases |input| - k, 4
  {
    if k >= |input| - 1 then Fatal(EOF_ARRAY)
    else
      match ValueSpec(input, k, ZERO_VALUE, strtod)
      case Fatal(m) => Fatal(m)
      case Ok(v) =>
        match InOrderAfter(input, v.at + 1, w + v.warnings, strtod)
        case Fatal(m) => Fatal(m)
        case Ok(rest) => Ok(Parsed([v.value] + rest.value, rest.at, rest.warnings))
  }

  /** The rest of an array from its `ARRAY_COMMA_OR_END` state at `a`, in
      input order. */
  function InOrderAfter(input: seq<byte>, a: nat, w: seq<Warning>, strtod: Strtod): Result<Parsed<seq<JsonValue>>>
    requires WellTerminated(input) && a < |input|
    decreases |input| - a, 0
  {
    var e := SkipIgnorable(input, a, |input| - 1);
    if e == |input| - 1 then Fatal(EOF_ARRAY)
    else if input[e] == COMMA then InOrder(input, e + 1, w, strtod)
    else if input[e] == CLOSE_BRACKET then Ok(Parsed([], e, w))
    else Fatal(INVALID_IN_ARRAY)
  }

  function Reverse<T>(s: seq<T>): (r: seq<T>)
    ensures |r| == |s| && forall i :: 0 <= i < |s| ==> r[i] == s[|s| - 1 - i]
  {
    if s == [] then [] else Reverse(s[1..]) + [s[0]]
  }

  /** A list in input order, reversed and put in front of `prev`. */
  function Prepended(r: Result<Parsed<seq<JsonValue>>>, prev: seq<JsonValue>): Result<Parsed<seq<JsonValue>>>
  {
    match r
    case Fatal(m) => Fatal(m)
    case Ok(p) => Ok(Parsed(Reverse(p.value) + prev, p.at, p.warnings))
  }

  /** The array loop from `ARRAY_VALUE` builds the input-order list
      reversed in front of what it started with. */
  lemma {:induction false} ElementsReversed(input: seq<byte>, k: nat, acc: seq<JsonValue>, w: seq<Warning>, strtod: Strtod)
    requires WellTerminated(input) && k < |input|
    ensures Elements(input, k, acc, w, strtod) == Prepended(InOrder(input, k, w, strtod), acc)
    decreases |input| - k, 4
  {
    if k < |input| - 1 {
      match ValueSpec(input, k, ZERO_VALUE, strtod)
      case Fatal(_) =>
      case Ok(v) =>
        AfterElementReversed(input, v.at + 1, [v.value] + acc, w + v.warnings, strtod);
        match InOrderAfter(input, v.at + 1, w + v.warnings, strtod)
        case Fatal(_) =>
        case Ok(rest) =>
          assert Reverse([v.value] + rest.value) == Reverse(rest.value) + [v.value] by {
            assert ([v.value] + rest.value)[1..] == rest.value;
          }
          assert Reverse(rest.value) + ([v.value] + acc) == Reverse([v.value] + rest.value) + acc;
    }
  }

  /** The same from `ARRAY_COMMA_OR_END`. */
  lemma {:induction false} AfterElementReversed(input: seq<byte>, a: nat, acc: seq<JsonValue>, w: seq<Warning>, strtod: Strtod)
    requires WellTerminated(input) && a < |input|
    ensures AfterElement(input, a, acc, w, strtod) == Prepended(InOrderAfter(input, a, w, strtod), acc)
    decreases |input| - a, 0
  {
    var e := SkipIgnorable(input, a, |input| - 1);
    if e < |input| - 1 && input[e] == COMMA {
      ElementsReversed(input, e + 1, acc, w, strtod);
    } else if e < |input| - 1 && input[e] == CLOSE_BRACKET {
      assert Reverse<JsonValue>([]) + acc == acc;
    }
  }

  /** `ParseJsonArray` onto the list `prev`: past the first `[`, `[]` leaves
      `prev` as it was, and otherwise the elements, last first, are put in
      front of `prev`. */
  lemma ArrayReversed(input: seq<byte>, at: nat, prev: seq<JsonValue>, strtod: Strtod)
    requires WellTerminated(input) && at < |input|
    ensures var b := Find(input, at, |input| - 1, OPEN_BRACKET);
      && (b < |input| - 1 && input[b + 1] == CLOSE_BRACKET ==> ArraySpec(input, at, prev, strtod) == Ok(Parsed(prev, b + 1, [])))
      && (b < |input| - 1 && input[b + 1] != CLOSE_BRACKET ==>
            ArraySpec(input, at, prev, strtod) == Prepended(InOrder(input, b + 1, [], strtod), prev))
  {
    var b := Find(input, at, |input| - 1, OPEN_BRACKET);
    if b < |input| - 1 && input[b + 1] != CLOSE_BRACKET {
      ElementsReversed(input, b + 1, prev, [], strtod);
    }
  }

  // ----- objects -----

  /** Every key in the table sits in the slot its hash selects. */
  ghost predicate KeysAtHome(table: seq<Slot>)
  {
    forall i :: 0 <= i < |table| && table[i].key.Some? ==> KeySlot(table[i].key.value) == i
  }

  /** Storing a key puts it in its own slot, keeping that slot's value,
      leaves every other slot alone, and so keeps every key at home. */
  lemma StoreKeyAtHome(table: seq<Slot>, key: seq<byte>)
    requires |table| == TABLE_SIZE
    ensures var s := StoreKey(table, key);
      && s.table[s.slot] == Slot(Some(key), table[s.slot].value)
      && (forall i :: 0 <= i < TABLE_SIZE && i != s.slot ==> s.table[i] == table[i])
      && (KeysAtHome(table) ==> KeysAtHome(s.table))
  {
  }

  /** The object loop from `PARSING_KEY` keeps every key at home. */
  lemma {:induction false} MembersAtHome(input: seq<byte>, k: nat, table: seq<Slot>, w: seq<Warning>, strtod: Strtod)
    requires WellTerminated(input) && k < |input| && |table| == TABLE_SIZE && KeysAtHome(table)
    ensures var r := Members(input, k, table, w, strtod); r.Ok? ==> KeysAtHome(r.value.value)
    decreases |input| - k, 0
  {
    match StringSpec(input, k)
    case Fatal(_) =>
    case Ok(key) =>
      var s := StoreKey(table, key.value);
      StoreKeyAtHome(table, key.value);
      MemberValueAtHome(input, key.at + 1, s.table, s.slot, w + key.warnings + s.warnings, strtod);
      assert Members(input, k, table, w, strtod) == MemberValue(input, key.at + 1, s.table, s.slot, w + key.warnings + s.warnings, strtod);
  }

  /** The same from `PARSING_COLON`. */
  lemma {:induction false} MemberValueAtHome(input: seq<byte>, a: nat, table: seq<Slot>, h: nat, w: seq<Warning>, strtod: Strtod)
    requires WellTerminated(input) && a < |input| && |table| == TABLE_SIZE && h < TABLE_SIZE && KeysAtHome(table)
    ensures var r := MemberValue(input, a, table, h, w, strtod); r.Ok? ==> KeysAtHome(r.value.value)
    decreases |input| - a, 0
  {
    SkipStopsInside(input, a);
    var d := SkipIgnorable(input, a, |input|);
    if input[d] == COLON {
      AfterColonAtHome(input, d + 1, table, h, w, strtod);
      assert MemberValue(input, a, table, h, w, strtod) == AfterColon(input, d + 1, table, h, w, strtod);
    }
  }

  /** The same from `PARSING_VALUE`: the value goes into the slot, the key
      stays. */
  lemma {:induction false} AfterColonAtHome(input: seq<byte>, a: nat, table: seq<Slot>, h: nat, w: seq<Warning>, strtod: Strtod)
    requires WellTerminated(input) && a < |input| && |table| == TABLE_SIZE && h < TABLE_SIZE && KeysAtHome(table)
    ensures var r := AfterColon(input, a, table, h, w, strtod); r.Ok? ==> KeysAtHome(r.value.value)
    decreases |input| - a, 4
  {
    match ValueSpec(input, a, table[h].value, strtod)
    case Fatal(_) =>
    case Ok(v) =>
      var next := table[h := table[h].(value := v.value)];
      assert KeysAtHome(next) by {
        forall i | 0 <= i < |next| && next[i].key.Some?
          ensures KeySlot(next[i].key.value) == i
        {
          assert next[i].key == table[i].key;
        }
      }
      AfterMemberAtHome(input, v.at + 1, next, w + v.warnings, strtod);
  }

  /** The same from `PARSING_COMMA_OR_END`. */
  lemma {:induction false} AfterMemberAtHome(input: seq<byte>, a: nat, table: seq<Slot>, w: seq<Warning>, strtod: Strtod)
    requires WellTerminated(input) && a < |input| && |table| == TABLE_SIZE && KeysAtHome(table)
    ensures var r := AfterMember(input, a, table, w, strtod); r.Ok? ==> KeysAtHome(r.value.value)
    decreases |input| - a, 0
  {
    SkipStopsInside(input, a);
    var e := SkipIgnorable(input, a, |input|);
    var r := AfterMember(input, a, table, w, strtod);
    if input[e] == COMMA {
      MembersAtHome(input, e + 1, table, w, strtod);
      assert r == Members(input, e + 1, table, w, strtod);
    } else if input[e] == CLOSE_BRACE {
      assert r == Ok(Parsed(table, e, w));
    } else {
      assert r == Fatal(EXPECTED_COMMA_OR_END);
    }
  }

  /** The empty table holds no key, so none is out of place. */
  lemma EmptyTableAtHome()
    ensures KeysAtHome(EmptyTable())
  {
  }

  /** Every key of a parsed object is in the slot `Hash(key) % 256`. */
  lemma ObjectAtHome(input: seq<byte>, at: nat, strtod: Strtod)
    requires WellTerminated(input) && at < |input|
    ensures var r := ObjectSpec(input, at, strtod); r.Ok? ==> KeysAtHome(r.value.value)
  {
    SkipStopsInside(input, at);
    var b := SkipIgnorable(input, at, |input|);
    var r := ObjectSpec(input, at, strtod);
    if input[b] != OPEN_BRACE {
      assert r == Fatal(UNREACHABLE);
    } else if input[b + 1] == CLOSE_BRACE {
      EmptyTableAtHome();
      assert r == Ok(Parsed(EmptyTable(), b + 1, []));
    } else {
      EmptyTableAtHome();
      MembersAtHome(input, b + 1, EmptyTable(), [], strtod);
      assert r == Members(input, b + 1, EmptyTable(), [], strtod);
    }
  }

  /** The key "bc" lands in slot 196, like "a". */
  lemma KeySlotOfBc()
    ensures KeySlot([0x62, 0x63]) == 196
  {
    var bc: seq<bv8> := [0x62, 0x63];
    assert Chars([0x62, 0x63]) == bc;
    assert bc == [0x62] + [0x63];
    assert [0x62] == [] + [0x62 as bv8];
    HashOfSnoc([], 0x62);
    HashOfSnoc([0x62], 0x63);
  }

  /** The key "hm" lands in slot 0. */
  lemma KeySlotOfHm()
    ensures KeySlot([0x68, 0x6D]) == 0
  {
    var hm: seq<bv8> := [0x68, 0x6D];
    assert Chars([0x68, 0x6D]) == hm;
    assert hm == [0x68] + [0x6D];
    assert [0x68] == [] + [0x68 as bv8];
    HashOfSnoc([], 0x68);
    HashOfSnoc([0x68], 0x6D);
  }

  /** The collision check looks at slot 0 only: "bc" replaces "a" in slot
      196 without a warning, and "a" is gone from the table. */
  lemma CollisionGoesUnnoticed()
    ensures var first := StoreKey(EmptyTable(), [0x61]);
            var second := StoreKey(first.table, [0x62, 0x63]);
      && second.slot == first.slot && first.table[first.slot].key == Some([0x61])
      && second.warnings == []
      && forall i :: 0 <= i < TABLE_SIZE ==> second.table[i].key != Some([0x61])
  {
    KeySlotOfA();
    KeySlotOfBc();
  }

  /** ... and it warns about a key whose own slot is free once slot 0 holds
      a key: "a" after "hm". */
  lemma CollisionReportedForSlotZero()
    ensures var first := StoreKey(EmptyTable(), [0x68, 0x6D]);
            var second := StoreKey(first.table, [0x61]);
      && first.slot == 0 && first.table[second.slot].key == None
      && second.warnings == [HashCollision]
  {
    KeySlotOfA();
    KeySlotOfHm();
  }

  // ----- the table as allocated -----

  /** `ParseJsonObject` allocates room for 12 `JsonKeyValue`s. */
  const KVS_ALLOCATED: nat := 12

  /** As written, a key's slot is inside the allocation only below 12. */
  predicate InAllocatedKvs(key: seq<byte>)
  {
    KeySlot(key) < KVS_ALLOCATED
  }

  /** The one-byte key "a" is written to slot 196 of the 12 allocated. */
  lemma TwelveSlotsOverrun()
    ensures !InAllocatedKvs([0x61]) && KeySlot([0x61]) >= KVS_ALLOCATED
  {
    KeySlotOfA();
  }
}

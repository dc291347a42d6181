/**
 What the .env reader reads, stated without the reader: which texts spell a JSON string, which lines
 assign what, how a file splits into lines, and which of several assignments counts. Each statement is
 proved equivalent to the reader of `EnvFile`.
 */
module EnvReading {
  import opened Wrappers
  import opened EnvFile

  // ---- JSON strings ---------------------------------------------------------------------------

  predicate HexStandsFor(u: Unit, v: nat) {
    (v < 10 && u == 48 + v) || (10 <= v < 16 && (u == 65 + v - 10 || u == 97 + v - 10))
  }

  /** One piece of a JSON string and the unit it stands for (section 7 of RFC 8259). */
  ghost predicate StandsFor(piece: Text, u: Unit) {
    || (piece == [u] && u >= 32 && u != 34 && u != 92)
    || (|piece| == 2 && piece[0] == 92
        && (piece[1], u) in {(34, 34), (92, 92), (47, 47), (98, 8), (102, 12), (110, 10), (114, 13), (116, 9)})
    || (|piece| == 6 && piece[0] == 92 && piece[1] == 117
        && exists a: nat, b: nat, c: nat, d: nat ::
             && HexStandsFor(piece[2], a) && HexStandsFor(piece[3], b)
             && HexStandsFor(piece[4], c) && HexStandsFor(piece[5], d)
             && u == 4096 * a + 256 * b + 16 * c + d)
  }

  /** The pieces of `s` one after the other, and the closing quote. */
  ghost predicate Spells(t: Text, s: Text)
    decreases |s|
  {
    if s == [] then t == [34]
    else exists piece, rest :: t == piece + rest && StandsFor(piece, s[0]) && Spells(rest, s[1..])
  }

  lemma HexReadsExactly(u: Unit, v: nat)
    ensures HexValue(u) == Some(v) <==> HexStandsFor(u, v)
  {
  }

  lemma LongPieceReads(piece: Text, a: nat, b: nat, c: nat, d: nat, rest: Text)
    requires |piece| == 6 && piece[0] == 92 && piece[1] == 117
    requires HexStandsFor(piece[2], a) && HexStandsFor(piece[3], b)
    requires HexStandsFor(piece[4], c) && HexStandsFor(piece[5], d)
    ensures 4096 * a + 256 * b + 16 * c + d < 0x1_0000
    ensures Unescape(piece + rest) == Cons(4096 * a + 256 * b + 16 * c + d, Unescape(rest))
  {
    var t := piece + rest;
    assert t[2..6] == [piece[2], piece[3], piece[4], piece[5]] && t[6..] == rest;
  }

  lemma ShortPieceReads(piece: Text, u: Unit, rest: Text)
    requires StandsFor(piece, u) && |piece| != 6
    ensures Unescape(piece + rest) == Cons(u, Unescape(rest))
  {
    var t := piece + rest;
    assert t[0] == piece[0] && t[|piece|..] == rest;
  }

  /** A piece read off the front of a text, whatever follows it. */
  lemma PieceReads(piece: Text, u: Unit, rest: Text)
    requires StandsFor(piece, u)
    ensures Unescape(piece + rest) == Cons(u, Unescape(rest))
  {
    if |piece| == 6 {
      var a: nat, b: nat, c: nat, d: nat :| HexStandsFor(piece[2], a) && HexStandsFor(piece[3], b)
        && HexStandsFor(piece[4], c) && HexStandsFor(piece[5], d) && u == 4096 * a + 256 * b + 16 * c + d;
      LongPieceReads(piece, a, b, c, d, rest);
    } else {
      ShortPieceReads(piece, u, rest);
    }
  }

  /** What the reader takes off the front of a text it accepts is a piece. */
  lemma FirstPiece(t: Text) returns (piece: Text, u: Unit)
    requires Unescape(t).Some? && t != [QUOTE]
    ensures StandsFor(piece, u) && |piece| <= |t| && piece == t[..|piece|]
    ensures Unescape(t) == Cons(u, Unescape(t[|piece|..]))
  {
    if t[0] != BACKSLASH {
      piece, u := [t[0]], t[0];
    } else if t[1] != 0x75 {
      piece, u := t[..2], LongEscape(t[1]).value;
      assert (t[1], u) in {(34, 34), (92, 92), (47, 47), (98, 8), (102, 12), (110, 10), (114, 13), (116, 9)};
    } else {
      piece, u := t[..6], Hex4(t[2..6]).value;
      var a, b, c, d := HexValue(t[2]).value, HexValue(t[3]).value, HexValue(t[4]).value, HexValue(t[5]).value;
      assert t[2..6] == [t[2], t[3], t[4], t[5]];
      assert HexStandsFor(piece[2], a) && HexStandsFor(piece[3], b);
      assert HexStandsFor(piece[4], c) && HexStandsFor(piece[5], d);
    }
  }

  lemma {:induction false} SpelledReads(t: Text, s: Text)
    requires Spells(t, s)
    ensures Unescape(t) == Some(s)
    decreases |s|
  {
    if s != [] {
      var piece, rest :| t == piece + rest && StandsFor(piece, s[0]) && Spells(rest, s[1..]);
      SpelledReads(rest, s[1..]);
      PieceReads(piece, s[0], rest);
      assert [s[0]] + s[1..] == s;
    }
  }

  lemma {:induction false} ReadIsSpelled(t: Text)
    requires Unescape(t).Some?
    ensures Spells(t, Unescape(t).value)
    decreases |t|
  {
    if t != [QUOTE] {
      var piece, u := FirstPiece(t);
      var rest := t[|piece|..];
      ReadIsSpelled(rest);
      var s := Unescape(t).value;
      assert s[0] == u && s[1..] == Unescape(rest).value;
      assert t == piece + rest && StandsFor(piece, s[0]) && Spells(rest, s[1..]);
    }
  }

  /** The reader takes exactly the JSON strings, and each for what it spells. */
  lemma JsonReadsExactly(t: Text, s: Text)
    ensures Unescape(t) == Some(s) <==> Spells(t, s)
  {
    if Unescape(t).Some? {
      ReadIsSpelled(t);
    }
    if Spells(t, s) {
      SpelledReads(t, s);
    }
  }

  predicate NeedsNoEscape(u: Unit) {
    u >= 32 && u != 34 && u != 92 && !(0xD800 <= u < 0xE000)
  }

  lemma {:induction false} PlainStays(s: Text)
    requires forall i | 0 <= i < |s| :: NeedsNoEscape(s[i])
    ensures Escape(s) == s
    decreases |s|
  {
    if s != [] {
      PlainStays(s[1..]);
      assert NeedsNoEscape(s[0]) && EscapeUnit(s[0]) == [s[0]];
      assert [s[0]] + s[1..] == s;
    }
  }

  /** Units that need no escape are written as they are, between quotes. */
  lemma PlainIsWrittenPlain(s: Text)
    requires forall i | 0 <= i < |s| :: s[i] >= 32 && s[i] != 34 && s[i] != 92 && !(0xD800 <= s[i] < 0xE000)
    ensures Quote(s) == [34] + s + [34]
  {
    PlainStays(s);
  }

  // ---- lines ----------------------------------------------------------------------------------

  /** A letter or an underscore, then letters, digits and underscores. */
  ghost predicate MatchesKey(key: Text) {
    && key != [] && !(48 <= key[0] <= 57)
    && forall u | u in key :: 65 <= u <= 90 || 97 <= u <= 122 || u == 95 || 48 <= u <= 57
  }

  /** A JSON string means what it spells, a text in apostrophes what is between, any other itself. */
  ghost predicate Means(encoded: Text, value: Text) {
    if encoded != [] && encoded[0] == 34 && exists s :: Spells(encoded[1..], s) then Spells(encoded[1..], value)
    else if encoded != [] && encoded[0] == 39 && encoded[|encoded| - 1] == 39
    then encoded == [39] + value + [39] || (encoded == [39] && value == [])
    else value == encoded
  }

  /** A key, an equals sign and an encoded value, with white space around each. */
  ghost predicate Shaped(line: Text, a: Text, key: Text, b: Text, c: Text, encoded: Text, d: Text) {
    && AllBlank(a, IsBlank) && AllBlank(b, IsBlank) && AllBlank(c, IsBlank) && AllBlank(d, IsBlank)
    && MatchesKey(key) && Tight(encoded, IsBlank)
    && line == a + key + b + [61] + c + encoded + d
  }

  ghost predicate Assigns(line: Text, key: Text, value: Text) {
    exists a, b, c, encoded, d :: Shaped(line, a, key, b, c, encoded, d) && Means(encoded, value)
  }

  lemma KeysMatch(key: Text)
    ensures IsKey(key) <==> MatchesKey(key)
  {
    if MatchesKey(key) {
      assert forall i | 0 <= i < |key| :: key[i] in key;
    }
  }

  lemma DecodedExactly(encoded: Text, value: Text)
    ensures Decoded(encoded) == value <==> Means(encoded, value)
  {
    if encoded != [] && encoded[0] == QUOTE {
      JsonReadsExactly(encoded[1..], value);
      if Unescape(encoded[1..]).Some? {
        JsonReadsExactly(encoded[1..], Unescape(encoded[1..]).value);
      } else {
        forall s ensures !Spells(encoded[1..], s) { JsonReadsExactly(encoded[1..], s); }
      }
    } else if encoded != [] && encoded[0] == APOSTROPHE && encoded[|encoded| - 1] == APOSTROPHE && |encoded| >= 2 {
      assert encoded == [39] + encoded[1..|encoded| - 1] + [39];
      if encoded == [39] + value + [39] {
        assert encoded[1..|encoded| - 1] == value;
      }
    }
  }

  lemma TrimIs(a: Text, middle: Text, d: Text)
    requires AllBlank(a, IsBlank) && AllBlank(d, IsBlank) && Tight(middle, IsBlank)
    ensures EnvFile.Trim(a + middle + d) == middle
  {
    TrimDropsBlanks(a, middle, d, IsBlank);
  }

  /** White space behind the equals sign goes with an empty value. */
  lemma ValueLine(a: Text, left: Text, c: Text, encoded: Text, d: Text) returns (behind: Text)
    requires AllBlank(a, IsBlank) && AllBlank(c, IsBlank) && AllBlank(d, IsBlank)
    requires (left != [] ==> !IsBlank(left[0])) && Tight(encoded, IsBlank)
    ensures EnvFile.Trim(a + left + [EQUALS] + c + encoded + d) == left + [EQUALS] + behind
    ensures EnvFile.Trim(behind) == encoded
  {
    if encoded == [] {
      behind := [];
      TrimIs(a, left + [EQUALS], c + d);
      assert a + left + [EQUALS] + c + encoded + d == a + (left + [EQUALS]) + (c + d);
    } else {
      behind := c + encoded;
      var middle := left + [EQUALS] + behind;
      assert middle[|middle| - 1] == encoded[|encoded| - 1];
      TrimIs(a, middle, d);
      assert a + left + [EQUALS] + c + encoded + d == a + middle + d;
      TrimIs(c, encoded, []);
      assert behind == c + encoded + [];
    }
  }

  lemma TrimmedLine(a: Text, key: Text, b: Text, c: Text, encoded: Text, d: Text) returns (behind: Text)
    requires AllBlank(a, IsBlank) && AllBlank(b, IsBlank) && AllBlank(c, IsBlank) && AllBlank(d, IsBlank)
    requires Tight(key, IsBlank) && Tight(encoded, IsBlank)
    ensures EnvFile.Trim(a + key + b + [EQUALS] + c + encoded + d) ==
              (if key == [] then [] else key + b) + [EQUALS] + behind
    ensures EnvFile.Trim(behind) == encoded
  {
    if key == [] {
      behind := ValueLine(a + b, [], c, encoded, d);
      assert a + key + b == (a + b) + [];
    } else {
      behind := ValueLine(a, key + b, c, encoded, d);
      assert a + key + b == a + (key + b);
    }
  }

  /** What the reader makes of a line of that shape. */
  lemma ShapeReads(a: Text, key: Text, b: Text, c: Text, encoded: Text, d: Text)
    requires AllBlank(a, IsBlank) && AllBlank(b, IsBlank) && AllBlank(c, IsBlank) && AllBlank(d, IsBlank)
    requires Tight(key, IsBlank) && Tight(encoded, IsBlank) && EQUALS !in key
    ensures ParseLine(a + key + b + [EQUALS] + c + encoded + d) ==
              if IsKey(key) then Some((key, Decoded(encoded))) else None
  {
    var behind := TrimmedLine(a, key, b, c, encoded, d);
    if key != [] {
      var trimmed := key + b + [EQUALS] + behind;
      var i := |key + b|;
      assert trimmed[..i] == key + b && trimmed[i + 1..] == behind;
      FirstAt(trimmed, EQUALS, i);
      TrimIs([], key, b);
      assert key + b == [] + key + b;
    }
  }

  /** White space around the key, the equals sign and the value makes no difference. */
  lemma BlanksDoNotMatter(a: Text, key: Text, b: Text, c: Text, encoded: Text, d: Text)
    requires AllBlank(a, IsBlank) && AllBlank(b, IsBlank) && AllBlank(c, IsBlank) && AllBlank(d, IsBlank)
    requires 61 !in key
    ensures ParseLine(a + key + b + [61] + c + encoded + d) == ParseLine(key + [61] + encoded)
  {
    var k0, k, k1 := BlanksAround(key, IsBlank);
    var e0, e, e1 := BlanksAround(encoded, IsBlank);
    ShapeReads(a + k0, k, k1 + b, c + e0, e, e1 + d);
    ShapeReads(k0, k, k1, e0, e, e1);
    assert a + key + b + [61] + c + encoded + d == (a + k0) + k + (k1 + b) + [EQUALS] + (c + e0) + e + (e1 + d);
    assert key + [61] + encoded == k0 + k + k1 + [EQUALS] + e0 + e + e1;
  }

  lemma AssignmentIsRead(line: Text, key: Text, value: Text)
    requires Assigns(line, key, value)
    ensures ParseLine(line) == Some((key, value))
  {
    var a, b, c, encoded, d :| Shaped(line, a, key, b, c, encoded, d) && Means(encoded, value);
    KeysMatch(key);
    ShapeReads(a, key, b, c, encoded, d);
    DecodedExactly(encoded, value);
  }

  /** The reader's cut of a line: blanks, what is before the equals sign, what is after, blanks. */
  lemma LineParts(line: Text) returns (a: Text, left: Text, right: Text, d: Text)
    requires ParseLine(line).Some?
    ensures AllBlank(a, IsBlank) && AllBlank(d, IsBlank) && line == a + (left + [61] + right) + d
    ensures IsKey(EnvFile.Trim(left))
    ensures ParseLine(line) == Some((EnvFile.Trim(left), Decoded(EnvFile.Trim(right))))
  {
    var trimmed;
    a, trimmed, d := BlanksAround(line, IsBlank);
    TrimIs(a, trimmed, d);
    var i := IndexOf(trimmed, EQUALS);
    left, right := trimmed[..i], trimmed[i + 1..];
    assert trimmed == left + [61] + right;
  }

  lemma Regrouped(a: Text, k0: Text, k: Text, k1: Text, e0: Text, e: Text, e1: Text, d: Text)
    ensures a + ((k0 + k + k1) + [61] + (e0 + e + e1)) + d == (a + k0) + k + k1 + [61] + e0 + e + (e1 + d)
  {
  }

  lemma ReadIsAssignment(line: Text)
    requires ParseLine(line).Some?
    ensures Assigns(line, ParseLine(line).value.0, ParseLine(line).value.1)
  {
    var a, left, right, d := LineParts(line);
    var k0, k, k1 := BlanksAround(left, IsBlank);
    TrimIs(k0, k, k1);
    var e0, e, e1 := BlanksAround(right, IsBlank);
    TrimIs(e0, e, e1);
    KeysMatch(k);
    DecodedExactly(e, Decoded(e));
    Regrouped(a, k0, k, k1, e0, e, e1, d);
    assert Shaped(line, a + k0, k, k1, e0, e, e1 + d);
  }

  /** A line reads as an assignment exactly when it is one; comments and malformed lines are none. */
  lemma LineReadsExactly(line: Text, key: Text, value: Text)
    ensures ParseLine(line) == Some((key, value)) <==> Assigns(line, key, value)
  {
    if ParseLine(line).Some? {
      ReadIsAssignment(line);
    }
    if Assigns(line, key, value) {
      AssignmentIsRead(line, key, value);
    }
  }

  /** Line `line` is ended by a line feed, alone or behind a carriage return. */
  predicate Ended(raw: Text, line: Text, rest: Text) {
    || raw == line + [13, 10] + rest
    || (raw == line + [10] + rest && (line == [] || line[|line| - 1] != 13))
  }

  ghost predicate SplitsInto(raw: Text, lines: seq<Text>)
    decreases |lines|
  {
    && lines != [] && 10 !in lines[0]
    && if |lines| == 1 then raw == lines[0]
       else exists rest :: Ended(raw, lines[0], rest) && SplitsInto(rest, lines[1..])
  }

  lemma {:induction false} LinesSplit(raw: Text)
    ensures SplitsInto(raw, Lines(raw))
    decreases |raw|
  {
    var i := IndexOf(raw, LF);
    if i < |raw| {
      var rest := raw[i + 1..];
      LinesSplit(rest);
      var line := WithoutCr(raw[..i]);
      var all := [line] + Lines(rest);
      assert all[0] == line && all[1..] == Lines(rest);
      assert raw == raw[..i] + [10] + rest;
      if i > 0 && raw[i - 1] == CR {
        assert raw == line + [13, 10] + rest;
      }
      assert Ended(raw, line, rest) && SplitsInto(rest, all[1..]);
    }
  }

  lemma FirstOfLines(raw: Text, line: Text, rest: Text)
    requires LF !in line && Ended(raw, line, rest)
    ensures Lines(raw) == [line] + Lines(rest)
  {
    if raw == line + [13, 10] + rest {
      var cut := line + [CR];
      assert raw[..|cut|] == cut && raw[|cut| + 1..] == rest;
      FirstAt(raw, LF, |cut|);
    } else {
      SplitFirst(line, rest);
    }
  }

  lemma {:induction false} SplitIsLines(raw: Text, lines: seq<Text>)
    requires SplitsInto(raw, lines)
    ensures lines == Lines(raw)
    decreases |lines|
  {
    if |lines| > 1 {
      var rest :| Ended(raw, lines[0], rest) && SplitsInto(rest, lines[1..]);
      SplitIsLines(rest, lines[1..]);
      FirstOfLines(raw, lines[0], rest);
      assert lines == [lines[0]] + lines[1..];
    }
  }

  lemma LinesExactly(raw: Text, lines: seq<Text>)
    ensures Lines(raw) == lines <==> SplitsInto(raw, lines)
  {
    LinesSplit(raw);
    if SplitsInto(raw, lines) {
      SplitIsLines(raw, lines);
    }
  }

  /** A rendering is a line for each key in the order given, and a line feed behind each; one alone for none. */
  lemma {:induction false} WrittenLines(env: Env, order: seq<Text>)
    requires forall key | key in order :: key in env && IsKey(key)
    ensures order == [] ==> Render(env, order) == [10]
    ensures order != [] ==>
              var lines := Lines(Render(env, order));
              && |lines| == |order| + 1 && lines[|order|] == []
              && forall i | 0 <= i < |order| :: lines[i] == order[i] + [61] + Quote(env[order[i]])
    decreases |order|
  {
    if order != [] {
      LineRoundTrip(order[0], env[order[0]]);
      SplitFirst(RenderLine(order[0], env[order[0]]), RenderLines(env, order[1..]));
      if |order| > 1 {
        WrittenLines(env, order[1..]);
      } else {
        LastLineAddsNothing(env);
      }
    }
  }

  // ---- files ----------------------------------------------------------------------------------

  /** Line `i` assigns the key this value and no later line assigns it again. */
  ghost predicate LastAssigns(lines: seq<Text>, i: nat, key: Text, value: Text)
    requires i < |lines|
  {
    Assigns(lines[i], key, value) && forall k, v | i < k < |lines| :: !Assigns(lines[k], key, v)
  }

  ghost predicate Sets(line: Text, key: Text, value: Text) {
    ParseLine(line) == Some((key, value))
  }

  lemma {:induction false} LastSettingCounts(env: Env, lines: seq<Text>, i: nat, key: Text, value: Text)
    requires i < |lines| && key != PROTO && Sets(lines[i], key, value)
    requires forall k, v | i < k < |lines| :: !Sets(lines[k], key, v)
    ensures key in AddLines(env, lines) && AddLines(env, lines)[key] == value
    decreases |lines|
  {
    var next, rest := AddLine(env, lines[0]), lines[1..];
    assert forall k | 0 <= k < |rest| :: rest[k] == lines[k + 1];
    if i == 0 {
      UnsetStays(next, rest, key);
    } else {
      LastSettingCounts(next, rest, i - 1, key, value);
    }
  }

  lemma {:induction false} UnsetStays(env: Env, lines: seq<Text>, key: Text)
    requires key == PROTO || forall k, v | 0 <= k < |lines| :: !Sets(lines[k], key, v)
    ensures (key in AddLines(env, lines) <==> key in env) && (key in env ==> AddLines(env, lines)[key] == env[key])
    decreases |lines|
  {
    if lines != [] {
      var entry := ParseLine(lines[0]);
      assert entry.Some? ==> Sets(lines[0], entry.value.0, entry.value.1);
      UnsetStays(AddLine(env, lines[0]), lines[1..], key);
    }
  }

  lemma {:induction false} LastSetting(lines: seq<Text>, n: nat, key: Text, value: Text) returns (i: nat, last: Text)
    requires n < |lines| && Sets(lines[n], key, value)
    ensures i < |lines| && Sets(lines[i], key, last) && forall k, v | i < k < |lines| :: !Sets(lines[k], key, v)
    decreases |lines| - n
  {
    i, last := n, value;
    if k, v :| n < k < |lines| && Sets(lines[k], key, v) {
      i, last := LastSetting(lines, k, key, v);
    }
  }

  lemma SettingIsLast(lines: seq<Text>, i: nat, key: Text, value: Text)
    requires i < |lines|
    ensures LastAssigns(lines, i, key, value) <==>
              Sets(lines[i], key, value) && forall k, v | i < k < |lines| :: !Sets(lines[k], key, v)
  {
    forall k, v | 0 <= k < |lines|
      ensures Sets(lines[k], key, v) <==> Assigns(lines[k], key, v)
    {
      LineReadsExactly(lines[k], key, v);
    }
  }

  lemma SomeLineSets(lines: seq<Text>, key: Text)
    requires key in AddLines(map[], lines)
    ensures key != PROTO && exists n, v :: 0 <= n < |lines| && Sets(lines[n], key, v)
  {
    if key == PROTO || forall k, v | 0 <= k < |lines| :: !Sets(lines[k], key, v) {
      UnsetStays(map[], lines, key);
    }
  }

  /** A line of the file assigns the key this value, and no later line assigns it again. */
  ghost predicate LastSets(raw: Text, key: Text, value: Text) {
    exists lines, i :: SplitsInto(raw, lines) && 0 <= i < |lines| && LastAssigns(lines, i, key, value)
  }

  /**
   The reader's whole meaning: a key has a value exactly when some line of the file assigns it and it is
   not `__proto__`, and then the value is the one of the last line that does.
   */
  lemma ReadsExactly(raw: Text, key: Text, value: Text)
    ensures key in Parsed(raw) && Parsed(raw)[key] == value <==> key != PROTO && LastSets(raw, key, value)
  {
    if key != PROTO && LastSets(raw, key, value) {
      var lines, i :| SplitsInto(raw, lines) && 0 <= i < |lines| && LastAssigns(lines, i, key, value);
      SplitIsLines(raw, lines);
      SettingIsLast(lines, i, key, value);
      LastSettingCounts(map[], lines, i, key, value);
    }
    if key in Parsed(raw) && Parsed(raw)[key] == value {
      var lines := Lines(raw);
      LinesSplit(raw);
      SomeLineSets(lines, key);
      var n, v :| 0 <= n < |lines| && Sets(lines[n], key, v);
      var i, last := LastSetting(lines, n, key, v);
      LastSettingCounts(map[], lines, i, key, last);
      SettingIsLast(lines, i, key, last);
    }
  }

  /** parseEnv's loop over the lines of a file. */
  method ParseEnv(raw: Text) returns (values: Env)
    ensures values == Parsed(raw)
    ensures forall key | key in values :: key != PROTO && LastSets(raw, key, values[key])
    ensures forall key, value | key != PROTO && LastSets(raw, key, value) :: key in values && values[key] == value
  {
    values := map[];
    var lines := Lines(raw);
    var i := 0;
    while i < |lines|
      invariant 0 <= i <= |lines|
      invariant AddLines(values, lines[i..]) == Parsed(raw)
    {
      assert lines[i..][0] == lines[i] && lines[i..][1..] == lines[i + 1..];
      var line := lines[i];
      i := i + 1;
      var trimmed := EnvFile.Trim(line);
      if trimmed == [] || trimmed[0] == HASH {
        continue;
      }
      var separator := IndexOf(trimmed, EQUALS);
      if separator < 1 || separator == |trimmed| {
        continue;
      }
      var key := EnvFile.Trim(trimmed[..separator]);
      if !IsKey(key) {
        continue;
      }
      var encoded := EnvFile.Trim(trimmed[separator + 1..]);
      if encoded != [] && encoded[0] == QUOTE {
        var value := Unescape(encoded[1..]);
        if value.Some? {
          values := Assign(values, key, value.value);
          continue;
        }
      }
      values := Assign(values, key, Literal(encoded));
    }
    assert lines[i..] == [];
    forall key | key in values
      ensures key != PROTO && LastSets(raw, key, values[key])
    {
      ReadsExactly(raw, key, values[key]);
    }
    forall key, value | key != PROTO && LastSets(raw, key, value)
      ensures key in values && values[key] == value
    {
      ReadsExactly(raw, key, value);
    }
  }
}

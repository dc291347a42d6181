/**
 The .env reader and writer. Texts are sequences of UTF-16 code units, as the program's strings are;
 values are written as JSON strings (section 7 of RFC 8259) and read back by a JSON string parser with
 literal fallbacks. Reading undoes writing for every map of values, except that the one key
 `__proto__`, which a plain object swallows, is lost.
 */
module EnvFile {
  import opened Wrappers

  type Unit = u: nat | u < 0x1_0000
  type Text = seq<Unit>

  const LF: Unit := 0x0A
  const CR: Unit := 0x0D
  const QUOTE: Unit := 0x22
  const HASH: Unit := 0x23
  const APOSTROPHE: Unit := 0x27
  const EQUALS: Unit := 0x3D
  const BACKSLASH: Unit := 0x5C
  const PROTO: Text := [0x5F, 0x5F, 0x70, 0x72, 0x6F, 0x74, 0x6F, 0x5F, 0x5F]

  // ---- JSON strings ---------------------------------------------------------------------------

  predicate IsLead(u: Unit) { 0xD800 <= u < 0xDC00 }

  predicate IsTrail(u: Unit) { 0xDC00 <= u < 0xE000 }

  function HexDigit(n: nat): Unit
    requires n < 16
  {
    if n < 10 then 0x30 + n else 0x61 + n - 10
  }

  function HexValue(u: Unit): Option<nat> {
    if 0x30 <= u <= 0x39 then Some(u - 0x30)
    else if 0x61 <= u <= 0x66 then Some(u - 0x61 + 10)
    else if 0x41 <= u <= 0x46 then Some(u - 0x41 + 10)
    else None
  }

  function UnicodeEscape(u: Unit): Text {
    [BACKSLASH, 0x75, HexDigit(u / 4096), HexDigit(u / 256 % 16), HexDigit(u / 16 % 16), HexDigit(u % 16)]
  }

  /** The letter after the backslash for units with a short escape. */
  function ShortEscape(u: Unit): Option<Unit> {
    if u == 0x08 then Some(0x62)
    else if u == 0x09 then Some(0x74)
    else if u == LF then Some(0x6E)
    else if u == 0x0C then Some(0x66)
    else if u == CR then Some(0x72)
    else if u == QUOTE then Some(QUOTE)
    else if u == BACKSLASH then Some(BACKSLASH)
    else None
  }

  function EscapeUnit(u: Unit): Text {
    if ShortEscape(u).Some? then [BACKSLASH, ShortEscape(u).value]
    else if u < 0x20 || IsLead(u) || IsTrail(u) then UnicodeEscape(u)
    else [u]
  }

  /** Surrogate pairs stay as they are; a lone surrogate is escaped. */
  function Escape(s: Text): Text {
    if s == [] then []
    else if |s| >= 2 && IsLead(s[0]) && IsTrail(s[1]) then s[..2] + Escape(s[2..])
    else EscapeUnit(s[0]) + Escape(s[1..])
  }

  /** JSON.stringify of a string. */
  function Quote(s: Text): Text {
    [QUOTE] + Escape(s) + [QUOTE]
  }

  function LongEscape(u: Unit): Option<Unit> {
    if u == 0x62 then Some(0x08)
    else if u == 0x74 then Some(0x09)
    else if u == 0x6E then Some(LF)
    else if u == 0x66 then Some(0x0C)
    else if u == 0x72 then Some(CR)
    else if u == QUOTE || u == BACKSLASH || u == 0x2F then Some(u)
    else None
  }

  function Hex4(t: Text): Option<Unit>
    requires |t| == 4
  {
    var a, b, c, d := HexValue(t[0]), HexValue(t[1]), HexValue(t[2]), HexValue(t[3]);
    if a.None? || b.None? || c.None? || d.None? then None
    else
      HexBound(t[0]); HexBound(t[1]); HexBound(t[2]); HexBound(t[3]);
      Some(a.value * 4096 + b.value * 256 + c.value * 16 + d.value)
  }

  lemma HexBound(u: Unit)
    ensures HexValue(u).Some? ==> HexValue(u).value < 16
  {
  }

  function Cons(u: Unit, rest: Option<Text>): Option<Text> {
    if rest.None? then None else Some([u] + rest.value)
  }

  /** JSON.parse of what follows an opening quote; the closing quote must end the text. */
  function Unescape(t: Text): Option<Text> {
    if t == [] then None
    else if t[0] == QUOTE then if |t| == 1 then Some([]) else None
    else if t[0] < 0x20 then None
    else if t[0] != BACKSLASH then Cons(t[0], Unescape(t[1..]))
    else if |t| == 1 then None
    else if t[1] == 0x75 then
      if |t| < 6 || Hex4(t[2..6]).None? then None else Cons(Hex4(t[2..6]).value, Unescape(t[6..]))
    else if LongEscape(t[1]).None? then None
    else Cons(LongEscape(t[1]).value, Unescape(t[2..]))
  }

  lemma HexDigitReads(n: nat)
    requires n < 16
    ensures HexValue(HexDigit(n)) == Some(n)
  {
  }

  /** The four hexadecimal digits of a unit make up the unit. */
  lemma DigitsMakeUp(u: nat)
    ensures u == u / 4096 * 4096 + u / 256 % 16 * 256 + u / 16 % 16 * 16 + u % 16
  {
    var a := u / 16;
    var b := a / 16;
    assert u / 256 == b && u / 4096 == b / 16;
    assert u == a * 16 + u % 16 && a == b * 16 + a % 16 && b == b / 16 * 16 + b % 16;
  }

  lemma HexRoundTrip(u: Unit)
    ensures |UnicodeEscape(u)| == 6 && Hex4(UnicodeEscape(u)[2..6]) == Some(u)
  {
    var e := UnicodeEscape(u);
    var digits := e[2..6];
    assert digits == [e[2], e[3], e[4], e[5]];
    HexDigitReads(u / 4096);
    HexDigitReads(u / 256 % 16);
    HexDigitReads(u / 16 % 16);
    HexDigitReads(u % 16);
    DigitsMakeUp(u);
  }

  lemma EscapedReads(u: Unit, t: Text)
    ensures Unescape(UnicodeEscape(u) + t) == Cons(u, Unescape(t))
  {
    var e := UnicodeEscape(u);
    HexRoundTrip(u);
    assert (e + t)[2..6] == e[2..6] && (e + t)[6..] == t;
  }

  /** Reading one escaped unit yields it and goes on behind it. */
  lemma UnitRoundTrip(u: Unit, t: Text)
    ensures Unescape(EscapeUnit(u) + t) == Cons(u, Unescape(t))
  {
    if ShortEscape(u).Some? {
      assert (EscapeUnit(u) + t)[2..] == t;
    } else if u < 0x20 || IsLead(u) || IsTrail(u) {
      EscapedReads(u, t);
    } else {
      assert (EscapeUnit(u) + t)[1..] == t;
    }
  }

  lemma PairRoundTrip(lead: Unit, trail: Unit, t: Text)
    requires IsLead(lead) && IsTrail(trail)
    ensures Unescape([lead, trail] + t) == Cons(lead, Cons(trail, Unescape(t)))
  {
    var all := [lead, trail] + t;
    assert all[1..] == [trail] + t && all[1..][1..] == t;
  }

  lemma {:induction false} JsonRoundTrip(s: Text)
    ensures Unescape(Escape(s) + [QUOTE]) == Some(s)
    decreases |s|
  {
    if s != [] {
      if |s| >= 2 && IsLead(s[0]) && IsTrail(s[1]) {
        JsonRoundTrip(s[2..]);
        assert Escape(s) + [QUOTE] == s[..2] + (Escape(s[2..]) + [QUOTE]);
        PairRoundTrip(s[0], s[1], Escape(s[2..]) + [QUOTE]);
        assert [s[0], s[1]] == s[..2] && [s[0]] + ([s[1]] + s[2..]) == s;
      } else {
        JsonRoundTrip(s[1..]);
        assert Escape(s) + [QUOTE] == EscapeUnit(s[0]) + (Escape(s[1..]) + [QUOTE]);
        UnitRoundTrip(s[0], Escape(s[1..]) + [QUOTE]);
        assert [s[0]] + s[1..] == s;
      }
    }
  }

  lemma {:induction false} EscapeIsOneLine(s: Text)
    ensures LF !in Escape(s)
    decreases |s|
  {
    if s != [] {
      if |s| >= 2 && IsLead(s[0]) && IsTrail(s[1]) {
        EscapeIsOneLine(s[2..]);
      } else {
        EscapeIsOneLine(s[1..]);
        assert LF !in EscapeUnit(s[0]);
      }
    }
  }

  // ---- lines ----------------------------------------------------------------------------------

  predicate IsBlank(u: Unit) {
    IsSpace(u)
  }

  function Trim(s: Text): Text {
    Trimmed(s, IsBlank)
  }

  /** The first position of `u`, or the length when there is none. */
  function IndexOf(s: Text, u: Unit): (i: nat)
    ensures i <= |s| && (i < |s| ==> s[i] == u) && u !in s[..i]
  {
    if s == [] || s[0] == u then 0
    else
      var i := 1 + IndexOf(s[1..], u);
      assert s[..i] == [s[0]] + s[1..][..i - 1];
      i
  }

  function WithoutCr(s: Text): Text {
    if s != [] && s[|s| - 1] == CR then s[..|s| - 1] else s
  }

  /** Splitting at line feeds, each with the carriage return before it. */
  function Lines(raw: Text): seq<Text>
    decreases |raw|
  {
    var i := IndexOf(raw, LF);
    if i == |raw| then [raw] else [WithoutCr(raw[..i])] + Lines(raw[i + 1..])
  }

  predicate IsKeyStart(u: Unit) {
    0x41 <= u <= 0x5A || 0x61 <= u <= 0x7A || u == 0x5F
  }

  predicate IsKey(key: Text) {
    key != [] && IsKeyStart(key[0]) && forall i | 0 <= i < |key| :: IsKeyStart(key[i]) || 0x30 <= key[i] <= 0x39
  }

  function Literal(encoded: Text): Text {
    if encoded != [] && encoded[0] == APOSTROPHE && encoded[|encoded| - 1] == APOSTROPHE
    then if |encoded| == 1 then [] else encoded[1..|encoded| - 1]
    else encoded
  }

  function Decoded(encoded: Text): Text {
    if encoded != [] && encoded[0] == QUOTE && Unescape(encoded[1..]).Some?
    then Unescape(encoded[1..]).value
    else Literal(encoded)
  }

  /** The assignment a line makes, if any. */
  function ParseLine(line: Text): Option<(Text, Text)> {
    var trimmed := Trim(line);
    if trimmed == [] || trimmed[0] == HASH then None
    else
      var separator := IndexOf(trimmed, EQUALS);
      if separator == 0 || separator == |trimmed| then None
      else
        var key := Trim(trimmed[..separator]);
        if !IsKey(key) then None else Some((key, Decoded(Trim(trimmed[separator + 1..]))))
  }

  type Env = map<Text, Text>

  /** Assigning a property of a plain object: `__proto__` is a setter that ignores strings. */
  function Assign(env: Env, key: Text, value: Text): Env {
    if key == PROTO then env else env[key := value]
  }

  function AddLine(env: Env, line: Text): Env {
    var entry := ParseLine(line);
    if entry.None? then env else Assign(env, entry.value.0, entry.value.1)
  }

  function AddLines(env: Env, lines: seq<Text>): Env
    decreases |lines|
  {
    if lines == [] then env else AddLines(AddLine(env, lines[0]), lines[1..])
  }

  function Parsed(raw: Text): Env {
    AddLines(map[], Lines(raw))
  }

  // ---- rendering ------------------------------------------------------------------------------

  function RenderLine(key: Text, value: Text): Text {
    key + [EQUALS] + Quote(value)
  }

  function RenderLines(env: Env, order: seq<Text>): Text
    requires forall key | key in order :: key in env
  {
    if order == [] then [] else RenderLine(order[0], env[order[0]]) + [LF] + RenderLines(env, order[1..])
  }

  /** renderEnv, for whatever order the comparison of the keys puts them in. */
  function Render(env: Env, order: seq<Text>): Text
    requires forall key | key in order :: key in env
  {
    if order == [] then [LF] else RenderLines(env, order)
  }

  ghost predicate Enumerates(order: seq<Text>, env: Env) {
    && (forall key :: key in order <==> key in env)
    && (forall i, j | 0 <= i < j < |order| :: order[i] != order[j])
  }

  /** A text that neither starts nor ends with white space is its own trimming. */
  lemma TrimmedStays(s: Text)
    requires s != [] ==> !IsSpace(s[0]) && !IsSpace(s[|s| - 1])
    ensures Trim(s) == s
  {
  }

  lemma {:induction false} FirstAt(s: Text, u: Unit, i: nat)
    requires i < |s| && s[i] == u && u !in s[..i]
    ensures IndexOf(s, u) == i
  {
    var k := IndexOf(s, u);
    assert i <= k by {
      forall j | 0 <= j < i ensures s[j] != u { assert s[..i][j] in s[..i]; }
    }
    forall j | 0 <= j < k ensures s[j] != u { assert s[..k][j] in s[..k]; }
  }

  lemma QuotedReads(value: Text)
    ensures Trim(Quote(value)) == Quote(value) && Decoded(Quote(value)) == value && LF !in Quote(value)
  {
    var encoded := Quote(value);
    TrimmedStays(encoded);
    assert encoded[1..] == Escape(value) + [QUOTE];
    JsonRoundTrip(value);
    EscapeIsOneLine(value);
  }

  /** A rendered line reads back as the assignment it writes. */
  lemma LineRoundTrip(key: Text, value: Text)
    requires IsKey(key)
    ensures ParseLine(RenderLine(key, value)) == Some((key, value))
    ensures LF !in RenderLine(key, value) && WithoutCr(RenderLine(key, value)) == RenderLine(key, value)
  {
    var line := RenderLine(key, value);
    QuotedReads(value);
    TrimmedStays(line);
    assert line[..|key|] == key && line[|key| + 1..] == Quote(value);
    FirstAt(line, EQUALS, |key|);
    TrimmedStays(key);
  }

  lemma SplitFirst(line: Text, rest: Text)
    requires LF !in line && WithoutCr(line) == line
    ensures Lines(line + [LF] + rest) == [line] + Lines(rest)
  {
    var raw := line + [LF] + rest;
    assert raw[..|line|] == line;
    FirstAt(raw, LF, |line|);
    assert raw[|line| + 1..] == rest;
  }

  lemma LastLineAddsNothing(env: Env)
    ensures Lines([]) == [[]] && AddLines(env, [[]]) == env
  {
    var lines: seq<Text> := [[]];
    assert Lines([]) == lines && lines[1..] == [];
  }

  /** The assignments of the keys listed, without that of `__proto__`. */
  ghost function Kept(env: Env, order: seq<Text>): Env
    requires forall key | key in order :: key in env
  {
    map key | key in order && key != PROTO :: env[key]
  }

  lemma KeptHead(base: Env, env: Env, order: seq<Text>)
    requires order != [] && forall key | key in order :: key in env
    ensures Assign(base, order[0], env[order[0]]) + Kept(env, order[1..]) == base + Kept(env, order)
  {
    assert order == [order[0]] + order[1..];
  }

  lemma FirstLine(base: Env, key: Text, value: Text, rest: Text)
    requires IsKey(key)
    ensures AddLines(base, Lines(RenderLine(key, value) + [LF] + rest)) ==
              AddLines(Assign(base, key, value), Lines(rest))
  {
    var line := RenderLine(key, value);
    LineRoundTrip(key, value);
    SplitFirst(line, rest);
    assert ([line] + Lines(rest))[1..] == Lines(rest);
  }

  /** Reading what was written adds every assignment but that of `__proto__`. */
  lemma {:induction false} ReadingAdds(base: Env, env: Env, order: seq<Text>)
    requires forall key | key in order :: key in env && IsKey(key)
    ensures AddLines(base, Lines(RenderLines(env, order))) == base + Kept(env, order)
    decreases |order|
  {
    if order == [] {
      LastLineAddsNothing(base);
    } else {
      var key := order[0];
      FirstLine(base, key, env[key], RenderLines(env, order[1..]));
      ReadingAdds(Assign(base, key, env[key]), env, order[1..]);
      KeptHead(base, env, order);
    }
  }

  lemma RenderedReads(env: Env, order: seq<Text>)
    requires Enumerates(order, env) && forall key | key in env :: IsKey(key)
    ensures Parsed(Render(env, order)) == Kept(env, order)
  {
    if order == [] {
      assert [LF] == [] + [LF] + [];
      SplitFirst([], []);
      LastLineAddsNothing(map[]);
      var lines: seq<Text> := [[]];
      assert (lines + lines)[1..] == lines;
      assert AddLines(map[], lines + lines) == map[];
      assert env == map[];
    } else {
      ReadingAdds(map[], env, order);
    }
  }

  /**
   Reading undoes writing, for every map whose keys match the key pattern and whose values are any
   strings at all, exactly when `__proto__` is not among the keys.
   */
  lemma RoundTrip(env: Env, order: seq<Text>)
    requires Enumerates(order, env) && forall key | key in env :: IsKey(key)
    ensures Parsed(Render(env, order)) == env <==> PROTO !in env
  {
    RenderedReads(env, order);
    assert PROTO !in env ==> Kept(env, order) == env;
    assert PROTO !in Kept(env, order);
  }

  /** `__proto__` is a key the pattern admits, so a map may hold it, and then loses it. */
  lemma ProtoIsLost(value: Text)
    ensures IsKey(PROTO) && Enumerates([PROTO], map[PROTO := value])
            && Parsed(Render(map[PROTO := value], [PROTO])) == map[]
  {
    RenderedReads(map[PROTO := value], [PROTO]);
  }

  // ---- normal forms ---------------------------------------------------------------------------

  lemma {:induction false} ParsedKeys(env: Env, lines: seq<Text>)
    requires forall key | key in env :: IsKey(key) && key != PROTO
    ensures forall key | key in AddLines(env, lines) :: IsKey(key) && key != PROTO
    decreases |lines|
  {
    if lines != [] {
      ParsedKeys(AddLine(env, lines[0]), lines[1..]);
    }
  }

  /** Rewriting a file never changes what it means: any text, comments and malformed lines included. */
  lemma RewritingKeepsMeaning(raw: Text, order: seq<Text>)
    requires Enumerates(order, Parsed(raw))
    ensures Parsed(Render(Parsed(raw), order)) == Parsed(raw)
  {
    ParsedKeys(map[], Lines(raw));
    RoundTrip(Parsed(raw), order);
  }

  /** Distinct maps are written differently, so nothing written is ambiguous. */
  lemma RenderInjective(one: Env, other: Env, order: seq<Text>, otherOrder: seq<Text>)
    requires Enumerates(order, one) && Enumerates(otherOrder, other)
    requires forall key | key in one || key in other :: IsKey(key) && key != PROTO
    requires Render(one, order) == Render(other, otherOrder)
    ensures one == other
  {
    RoundTrip(one, order);
    RoundTrip(other, otherOrder);
  }

  // ---- files written by hand ------------------------------------------------------------------

  predicate Bare(value: Text) {
    && (value != [] ==> !IsSpace(value[0]) && !IsSpace(value[|value| - 1]))
    && (value != [] ==> value[0] != QUOTE && !(value[0] == APOSTROPHE && value[|value| - 1] == APOSTROPHE))
  }

  lemma AssignmentReads(key: Text, encoded: Text)
    requires IsKey(key) && (encoded != [] ==> !IsSpace(encoded[0]) && !IsSpace(encoded[|encoded| - 1]))
    ensures ParseLine(key + [EQUALS] + encoded) == Some((key, Decoded(encoded)))
  {
    var line := key + [EQUALS] + encoded;
    TrimmedStays(line);
    assert line[..|key|] == key && line[|key| + 1..] == encoded;
    FirstAt(line, EQUALS, |key|);
    TrimmedStays(key);
    TrimmedStays(encoded);
  }

  /** A bare value stands for itself, and one in single quotes for what is between them. */
  lemma LiteralsRead(key: Text, value: Text)
    requires IsKey(key)
    ensures Bare(value) ==> ParseLine(key + [EQUALS] + value) == Some((key, value))
    ensures ParseLine(key + [EQUALS] + ([APOSTROPHE] + value + [APOSTROPHE])) == Some((key, value))
  {
    if Bare(value) {
      AssignmentReads(key, value);
    }
    var quoted := [APOSTROPHE] + value + [APOSTROPHE];
    AssignmentReads(key, quoted);
    assert quoted[1..|quoted| - 1] == value;
  }

  /** Where a line ends in a carriage return and a line feed, the carriage return is not part of it. */
  lemma LineEndsDoNotMatter(line: Text, rest: Text)
    requires LF !in line && WithoutCr(line) == line
    ensures Lines(line + [CR, LF] + rest) == Lines(line + [LF] + rest)
  {
    var raw := line + [CR, LF] + rest;
    assert raw[..|line| + 1] == line + [CR];
    FirstAt(raw, LF, |line| + 1);
    assert raw[|line| + 2..] == rest;
    SplitFirst(line, rest);
  }

  /** Of two assignments of one key, the later one counts. */
  lemma {:induction false} LaterCounts(env: Env, lines: seq<Text>, key: Text, value: Text)
    requires IsKey(key) && key != PROTO
    ensures AddLines(env, lines + [RenderLine(key, value)]) == AddLines(env, lines)[key := value]
    decreases |lines|
  {
    var last: seq<Text> := [RenderLine(key, value)];
    LineRoundTrip(key, value);
    if lines == [] {
      assert lines + last == last && last[1..] == [];
    } else {
      assert (lines + last)[1..] == lines[1..] + last;
      LaterCounts(AddLine(env, lines[0]), lines[1..], key, value);
    }
  }
}

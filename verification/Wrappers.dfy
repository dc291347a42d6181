/** What several components share: optional values, clamping, trimming and counting. */
module Wrappers {
  /** Nullable columns, absent files, fields that may be missing. */
  datatype Option<+T> = None | Some(value: T) {
    function GetOr(default: T): T {
      match this
      case Some(v) => v
      case None => default
    }
  }

  /** Math.max(lo, Math.min(hi, x)): where the bounds cross, the lower one wins. */
  function Clamp(x: int, lo: int, hi: int): int {
    var capped := if x < hi then x else hi;
    if capped < lo then lo else capped
  }

  /** White space as the program's trimming sees it, by code. */
  predicate IsSpace(code: nat) {
    || 0x09 <= code <= 0x0D || code == 0x20 || code == 0xA0 || code == 0x1680 || 0x2000 <= code <= 0x200A
    || code == 0x2028 || code == 0x2029 || code == 0x202F || code == 0x205F || code == 0x3000 || code == 0xFEFF
  }

  function TrimStart<T>(s: seq<T>, blank: T -> bool): seq<T> {
    if s != [] && blank(s[0]) then TrimStart(s[1..], blank) else s
  }

  function TrimEnd<T>(s: seq<T>, blank: T -> bool): seq<T> {
    if s != [] && blank(s[|s| - 1]) then TrimEnd(s[..|s| - 1], blank) else s
  }

  function Trimmed<T>(s: seq<T>, blank: T -> bool): seq<T> {
    TrimEnd(TrimStart(s, blank), blank)
  }

  ghost predicate AllBlank<T>(s: seq<T>, blank: T -> bool) {
    forall i | 0 <= i < |s| :: blank(s[i])
  }

  /** Neither the first nor the last element is blank. */
  ghost predicate Tight<T>(s: seq<T>, blank: T -> bool) {
    s != [] ==> !blank(s[0]) && !blank(s[|s| - 1])
  }

  lemma {:induction false} StartTrims<T>(lead: seq<T>, rest: seq<T>, blank: T -> bool)
    requires AllBlank(lead, blank) && (rest != [] ==> !blank(rest[0]))
    ensures TrimStart(lead + rest, blank) == rest
  {
    if lead == [] {
      assert lead + rest == rest;
    } else {
      assert (lead + rest)[1..] == lead[1..] + rest;
      StartTrims(lead[1..], rest, blank);
    }
  }

  lemma {:induction false} EndTrims<T>(rest: seq<T>, tail: seq<T>, blank: T -> bool)
    requires AllBlank(tail, blank) && (rest != [] ==> !blank(rest[|rest| - 1]))
    ensures TrimEnd(rest + tail, blank) == rest
  {
    if tail == [] {
      assert rest + tail == rest;
    } else {
      assert (rest + tail)[|rest + tail| - 1] == tail[|tail| - 1];
      assert (rest + tail)[..|rest + tail| - 1] == rest + tail[..|tail| - 1];
      EndTrims(rest, tail[..|tail| - 1], blank);
    }
  }

  /** Trimming drops the blanks around a text that neither starts nor ends with one, and nothing else. */
  lemma {:induction false} TrimDropsBlanks<T>(lead: seq<T>, middle: seq<T>, tail: seq<T>, blank: T -> bool)
    requires AllBlank(lead, blank) && AllBlank(tail, blank) && Tight(middle, blank)
    ensures Trimmed(lead + middle + tail, blank) == middle
  {
    if middle == [] {
      StartTrims(lead + tail, [], blank);
      assert lead + middle + tail == (lead + tail) + [];
    } else {
      assert lead + middle + tail == lead + (middle + tail);
      StartTrims(lead, middle + tail, blank);
      EndTrims(middle, tail, blank);
    }
  }

  /** Every text is blanks, a text that neither starts nor ends with a blank, and blanks again. */
  lemma {:induction false} BlanksAround<T>(s: seq<T>, blank: T -> bool)
    returns (lead: seq<T>, middle: seq<T>, tail: seq<T>)
    ensures s == lead + middle + tail
    ensures AllBlank(lead, blank) && AllBlank(tail, blank) && Tight(middle, blank)
    decreases |s|
  {
    lead, middle, tail := [], s, [];
    if s != [] && blank(s[0]) {
      lead, middle, tail := BlanksAround(s[1..], blank);
      assert s == [s[0]] + s[1..] == ([s[0]] + lead) + middle + tail;
      lead := [s[0]] + lead;
    } else if s != [] && blank(s[|s| - 1]) {
      lead, middle, tail := BlanksAround(s[..|s| - 1], blank);
      assert s == s[..|s| - 1] + [s[|s| - 1]] == lead + middle + (tail + [s[|s| - 1]]);
      tail := tail + [s[|s| - 1]];
    }
  }

  /**
   What trimming means, without how it is done: `trimmed` is the trimming of `s` exactly when it neither
   starts nor ends with a blank and `s` is it between blanks.
   */
  lemma TrimmedExactly<T>(s: seq<T>, trimmed: seq<T>, blank: T -> bool)
    ensures Trimmed(s, blank) == trimmed <==>
              Tight(trimmed, blank)
              && exists lead, tail :: AllBlank(lead, blank) && AllBlank(tail, blank) && s == lead + trimmed + tail
  {
    var lead, middle, tail := BlanksAround(s, blank);
    TrimDropsBlanks(lead, middle, tail, blank);
    forall a, b | Tight(trimmed, blank) && AllBlank(a, blank) && AllBlank(b, blank) && s == a + trimmed + b
      ensures Trimmed(s, blank) == trimmed
    {
      TrimDropsBlanks(a, trimmed, b, blank);
    }
  }

  /** The white space of the program's trimming, listed: twenty-five codes. */
  lemma SpacesListed(code: nat)
    ensures IsSpace(code) <==>
              code in {9, 10, 11, 12, 13, 32, 160, 5760, 8192, 8193, 8194, 8195, 8196, 8197, 8198, 8199, 8200, 8201,
                       8202, 8232, 8233, 8239, 8287, 12288, 65279}
  {
  }

  predicate IsSpaceChar(c: char) {
    IsSpace(c as nat)
  }

  /** The trim of a string. */
  function Trim(s: string): string {
    Trimmed(s, IsSpaceChar)
  }

  /** A string trims to nothing exactly when all of it is white space. */
  lemma TrimsToNothing(s: string)
    ensures Trim(s) == "" <==> AllBlank(s, IsSpaceChar)
  {
    TrimmedExactly(s, "", IsSpaceChar);
    if AllBlank(s, IsSpaceChar) {
      TrimDropsBlanks(s, "", "", IsSpaceChar);
      assert s == s + "" + "";
    }
  }

  /** Clamping keeps what lies between the bounds and takes the nearer bound otherwise. */
  lemma ClampedExactly(x: int, lo: int, hi: int)
    requires lo <= hi
    ensures lo <= Clamp(x, lo, hi) <= hi
    ensures x <= lo ==> Clamp(x, lo, hi) == lo
    ensures hi <= x ==> Clamp(x, lo, hi) == hi
    ensures lo <= x <= hi ==> Clamp(x, lo, hi) == x
  {
  }

  lemma SubsetSize<T>(small: set<T>, large: set<T>)
    requires small <= large
    ensures |small| <= |large| && (|small| == |large| ==> small == large)
  {
    assert large == small + (large - small) && |large| == |small| + |large - small|;
  }
}

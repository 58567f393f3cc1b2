/** The JavaScript string built-ins the catalog relies on: `toLowerCase`,
    `includes`, `startsWith`, `trim`, `join` and `localeCompare`. Strings are
    sequences of characters; case mapping and collation are the simplified
    ones described at each definition. */
module JsString {

  /** Lower-case mapping of one character: ASCII `A`-`Z` and the Latin-1
      capitals U+00C0..U+00DE (except the multiplication sign U+00D7) move to
      their small letters; every other character maps to itself. */
  function LowerChar(c: char): (r: char)
    ensures r == c || ('A' <= c <= 'Z') || ('\U{C0}' <= c <= '\U{DE}' && c != '\U{D7}')
  {
    if 'A' <= c <= 'Z' then (c as int + 32) as char
    else if '\U{C0}' <= c <= '\U{DE}' && c != '\U{D7}' then (c as int + 32) as char
    else c
  }

  /** `s.toLowerCase()`, character by character. */
  function Lower(s: string): (r: string)
    ensures |r| == |s|
    ensures forall i :: 0 <= i < |s| ==> r[i] == LowerChar(s[i])
  {
    if s == [] then [] else [LowerChar(s[0])] + Lower(s[1..])
  }

  lemma LowerCharIdempotent(c: char)
    ensures LowerChar(LowerChar(c)) == LowerChar(c)
  {
  }

  /** Lower-casing twice is lower-casing once. */
  lemma LowerIdempotent(s: string)
    ensures Lower(Lower(s)) == Lower(s)
  {
    forall i | 0 <= i < |s|
      ensures Lower(Lower(s))[i] == Lower(s)[i]
    {
      LowerCharIdempotent(s[i]);
    }
  }

  /** `prefix` is a prefix of `s`: `s.startsWith(prefix)`. */
  predicate StartsWith(s: string, prefix: string) {
    |prefix| <= |s| && s[..|prefix|] == prefix
  }

  /** `hay.includes(needle)`, written as the search the built-in performs:
      try every starting position from the left. */
  predicate Includes(hay: string, needle: string)
    decreases |hay|
  {
    StartsWith(hay, needle) || (hay != [] && Includes(hay[1..], needle))
  }

  /** `needle` occurs in `hay` starting at position `i`. */
  predicate OccursAt(hay: string, needle: string, i: int) {
    0 <= i && i + |needle| <= |hay| && hay[i..i + |needle|] == needle
  }

  /** `needle` occurs somewhere in `hay`. */
  ghost predicate Occurs(hay: string, needle: string) {
    exists i :: OccursAt(hay, needle, i)
  }

  /** `includes` holds exactly when `needle` occurs at some position of `hay`. */
  lemma {:induction false} IncludesIff(hay: string, needle: string)
    ensures Includes(hay, needle) <==> Occurs(hay, needle)
    decreases |hay|
  {
    if StartsWith(hay, needle) {
      assert OccursAt(hay, needle, 0);
    } else if hay == [] {
    } else {
      IncludesIff(hay[1..], needle);
      if Includes(hay[1..], needle) {
        var i :| OccursAt(hay[1..], needle, i);
        OccursAtShift(hay, needle, i);
      }
      if Occurs(hay, needle) {
        var i :| OccursAt(hay, needle, i);
        if i > 0 {
          OccursAtShift(hay, needle, i - 1);
        }
      }
    }
  }

  /** Dropping the first character moves every occurrence one place left. */
  lemma OccursAtShift(hay: string, needle: string, i: nat)
    requires hay != []
    ensures OccursAt(hay[1..], needle, i) <==> OccursAt(hay, needle, i + 1)
  {
    if i + 1 + |needle| <= |hay| {
      assert hay[1..][i..i + |needle|] == hay[i + 1..i + 1 + |needle|];
    }
  }

  /** The empty string is included in every string. */
  lemma IncludesEmpty(hay: string)
    ensures Includes(hay, "")
  {
    assert StartsWith(hay, "");
  }

  /** ECMAScript WhiteSpace and LineTerminator code points, the characters
      that `String.prototype.trim` removes. */
  predicate IsWhiteSpace(c: char) {
    c == '\t' || c == '\n' || c == '\U{B}' || c == '\U{C}' || c == '\r' || c == ' '
    || c == '\U{A0}' || c == '\U{1680}' || ('\U{2000}' <= c <= '\U{200A}')
    || c == '\U{2028}' || c == '\U{2029}' || c == '\U{202F}' || c == '\U{205F}'
    || c == '\U{3000}' || c == '\U{FEFF}'
  }

  /** Where `trim` starts: the first character that is not white space. */
  function TrimStartIndex(s: string, i: nat): (r: nat)
    requires i <= |s|
    requires forall k :: 0 <= k < i ==> IsWhiteSpace(s[k])
    ensures i <= r <= |s|
    ensures forall k :: 0 <= k < r ==> IsWhiteSpace(s[k])
    ensures r < |s| ==> !IsWhiteSpace(s[r])
    decreases |s| - i
  {
    if i < |s| && IsWhiteSpace(s[i]) then TrimStartIndex(s, i + 1) else i
  }

  /** Where `trim` ends: one past the last character, at or after `lo`, that
      is not white space. */
  function TrimEndIndex(s: string, lo: nat, j: nat): (r: nat)
    requires lo <= j <= |s|
    requires forall k :: j <= k < |s| ==> IsWhiteSpace(s[k])
    ensures lo <= r <= j
    ensures forall k :: r <= k < |s| ==> IsWhiteSpace(s[k])
    ensures r > lo ==> !IsWhiteSpace(s[r - 1])
  {
    if j > lo && IsWhiteSpace(s[j - 1]) then TrimEndIndex(s, lo, j - 1) else j
  }

  /** `s.trim()`: the slice of `s` between its leading and trailing white
      space. */
  function Trim(s: string): (r: string)
    ensures |r| <= |s|
    ensures r != [] ==> !IsWhiteSpace(r[0]) && !IsWhiteSpace(r[|r| - 1])
    ensures forall k :: 0 <= k < TrimStartIndex(s, 0) ==> IsWhiteSpace(s[k])
    ensures TrimStartIndex(s, 0) + |r| <= |s|
    ensures r == s[TrimStartIndex(s, 0)..TrimStartIndex(s, 0) + |r|]
    ensures forall k :: TrimStartIndex(s, 0) + |r| <= k < |s| ==> IsWhiteSpace(s[k])
  {
    var i := TrimStartIndex(s, 0);
    var j := TrimEndIndex(s, i, |s|);
    s[i..j]
  }

  /** The summed lengths of the strings of `xs`. */
  function TotalLength(xs: seq<string>): nat {
    if xs == [] then 0 else |xs[0]| + TotalLength(xs[1..])
  }

  /** `xs.join(sep)`: the elements with one `sep` between neighbours. */
  function Join(xs: seq<string>, sep: string): (r: string)
    ensures xs == [] ==> r == ""
    ensures xs != [] ==> StartsWith(r, xs[0])
    ensures xs != [] ==> |r| == TotalLength(xs) + (|xs| - 1) * |sep|
    ensures |xs| == 1 ==> r == xs[0]
  {
    if xs == [] then ""
    else if |xs| == 1 then xs[0]
    else
      var tail := Join(xs[1..], sep);
      assert (|xs| - 1) * |sep| == |sep| + (|xs| - 2) * |sep|;
      xs[0] + sep + tail
  }

  /** Where the `k`-th element starts in the joined string: after the `k`
      elements before it and one separator each. */
  function JoinOffset(xs: seq<string>, sep: string, k: nat): (off: nat)
    requires k < |xs|
    ensures off == TotalLength(xs[..k]) + k * |sep|
  {
    if k == 0 then 0
    else
      var rest := JoinOffset(xs[1..], sep, k - 1);
      assert xs[..k][1..] == xs[1..][..k - 1];
      assert k * |sep| == |sep| + (k - 1) * |sep|;
      |xs[0]| + |sep| + rest
  }

  /** Every joined element occurs in the result, at its offset. */
  lemma {:induction false} JoinContains(xs: seq<string>, sep: string, k: nat)
    requires k < |xs|
    ensures OccursAt(Join(xs, sep), xs[k], JoinOffset(xs, sep, k))
  {
    var r := Join(xs, sep);
    if k == 0 {
      assert StartsWith(r, xs[0]);
    } else {
      JoinContains(xs[1..], sep, k - 1);
      var tail := Join(xs[1..], sep);
      var off := JoinOffset(xs[1..], sep, k - 1);
      var shift := |xs[0]| + |sep|;
      assert r == xs[0] + sep + tail;
      assert r[shift + off..shift + off + |xs[k]|] == tail[off..off + |xs[k]|];
    }
  }

  /** Between the `k`-th element and the next one stands exactly `sep`, and
      the next element starts right after it. */
  lemma {:induction false} JoinSeparator(xs: seq<string>, sep: string, k: nat)
    requires k + 1 < |xs|
    ensures OccursAt(Join(xs, sep), sep, JoinOffset(xs, sep, k) + |xs[k]|)
    ensures JoinOffset(xs, sep, k + 1) == JoinOffset(xs, sep, k) + |xs[k]| + |sep|
  {
    var r := Join(xs, sep);
    var tail := Join(xs[1..], sep);
    assert r == xs[0] + sep + tail;
    if k == 0 {
      assert r[|xs[0]|..|xs[0]| + |sep|] == sep;
    } else {
      JoinSeparator(xs[1..], sep, k - 1);
      var off := JoinOffset(xs[1..], sep, k - 1) + |xs[k]|;
      var shift := |xs[0]| + |sep|;
      assert r[shift + off..shift + off + |sep|] == tail[off..off + |sep|];
    }
  }

  /** Every element of a join sits at its offset. */
  lemma JoinElements(xs: seq<string>, sep: string)
    ensures forall k | 0 <= k < |xs| :: OccursAt(Join(xs, sep), xs[k], JoinOffset(xs, sep, k))
  {
    forall k | 0 <= k < |xs| ensures OccursAt(Join(xs, sep), xs[k], JoinOffset(xs, sep, k)) {
      JoinContains(xs, sep, k);
    }
  }

  /** Every element of a join but the last is followed by the separator. */
  lemma JoinSeparators(xs: seq<string>, sep: string)
    ensures forall k | 0 <= k < |xs| - 1 :: OccursAt(Join(xs, sep), sep, JoinOffset(xs, sep, k) + |xs[k]|)
  {
    forall k | 0 <= k < |xs| - 1 ensures OccursAt(Join(xs, sep), sep, JoinOffset(xs, sep, k) + |xs[k]|) {
      JoinSeparator(xs, sep, k);
    }
  }

  /** Collation used for `localeCompare`: lexicographic order on character
      codes, a shorter string before its extensions. */
  predicate Less(a: string, b: string) {
    if a == [] then b != []
    else if b == [] then false
    else if a[0] != b[0] then a[0] < b[0]
    else Less(a[1..], b[1..])
  }

  /** `a.localeCompare(b)`: negative, zero or positive. */
  function LocaleCompare(a: string, b: string): (r: int)
    ensures r < 0 <==> Less(a, b)
    ensures r == 0 <==> a == b
  {
    LessIrreflexive(a);
    if a == b then 0 else if Less(a, b) then -1 else 1
  }

  lemma {:induction false} LessIrreflexive(a: string)
    ensures !Less(a, a)
  {
    if a != [] {
      LessIrreflexive(a[1..]);
    }
  }

  lemma {:induction false} LessTransitive(a: string, b: string, c: string)
    requires Less(a, b) && Less(b, c)
    ensures Less(a, c)
  {
    if a != [] && b != [] && c != [] && a[0] == b[0] && b[0] == c[0] {
      LessTransitive(a[1..], b[1..], c[1..]);
    }
  }

  /** Two different strings are always ordered one way or the other. */
  lemma {:induction false} LessTotal(a: string, b: string)
    requires a != b
    ensures Less(a, b) || Less(b, a)
  {
    if a != [] && b != [] && a[0] == b[0] {
      assert a == [a[0]] + a[1..] && b == [b[0]] + b[1..];
      LessTotal(a[1..], b[1..]);
    }
  }

  lemma {:induction false} LessAsymmetric(a: string, b: string)
    requires Less(a, b)
    ensures !Less(b, a)
  {
    if a != [] && b != [] && a[0] == b[0] {
      LessAsymmetric(a[1..], b[1..]);
    }
  }
}

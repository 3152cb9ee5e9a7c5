/** The Python string operations the chunkers and the prompt renderer are
    built from: `str.isspace`, `str.strip`, `str.split("\n\n")`,
    `str.count("\n\n")`, `str.join` and `str(n)` for a natural number. */
module Text {

  // ---------------------------------------------------------------------------
  // Whitespace and strip()

  /** `c.isspace()`: the characters `str.strip()` removes. */
  predicate IsSpace(c: char) {
    c == ' ' || ('\t' <= c <= '\r') || ('\U{1C}' <= c <= '\U{1F}')
    || c == '\U{85}' || c == '\U{A0}' || c == '\U{1680}'
    || ('\U{2000}' <= c <= '\U{200A}') || c == '\U{2028}' || c == '\U{2029}'
    || c == '\U{202F}' || c == '\U{205F}' || c == '\U{3000}'
  }

  /** Only whitespace, so that `not s.strip()` holds in Python. */
  predicate Blank(s: string) {
    forall i :: 0 <= i < |s| ==> IsSpace(s[i])
  }

  /** Empty, or starting and ending with a non-whitespace character. */
  predicate IsStripped(s: string) {
    s == [] || (!IsSpace(s[0]) && !IsSpace(s[|s| - 1]))
  }

  /** Number of whitespace characters at the start of `s`. */
  function LeadingSpace(s: string): (k: nat)
    ensures k <= |s|
    ensures forall i :: 0 <= i < k ==> IsSpace(s[i])
    ensures k < |s| ==> !IsSpace(s[k])
  {
    if |s| > 0 && IsSpace(s[0]) then 1 + LeadingSpace(s[1..]) else 0
  }

  /** Number of whitespace characters at the end of `s`. */
  function TrailingSpace(s: string): (k: nat)
    ensures k <= |s|
    ensures forall i :: |s| - k <= i < |s| ==> IsSpace(s[i])
    ensures k < |s| ==> !IsSpace(s[|s| - 1 - k])
  {
    if |s| > 0 && IsSpace(s[|s| - 1]) then 1 + TrailingSpace(s[..|s| - 1]) else 0
  }

  /** `s.lstrip()`. */
  function StripLeft(s: string): (r: string)
    ensures r == [] || !IsSpace(r[0])
  {
    if |s| > 0 && IsSpace(s[0]) then StripLeft(s[1..]) else s
  }

  /** `s.rstrip()`. */
  function StripRight(s: string): (r: string)
    ensures r == [] || !IsSpace(r[|r| - 1])
  {
    if |s| > 0 && IsSpace(s[|s| - 1]) then StripRight(s[..|s| - 1]) else s
  }

  lemma {:induction false} StripLeftDrops(s: string)
    ensures StripLeft(s) == s[LeadingSpace(s)..]
  {
    if |s| > 0 && IsSpace(s[0]) { StripLeftDrops(s[1..]); }
  }

  lemma {:induction false} StripRightDrops(s: string)
    ensures StripRight(s) == s[..|s| - TrailingSpace(s)]
  {
    if |s| > 0 && IsSpace(s[|s| - 1]) { StripRightDrops(s[..|s| - 1]); }
  }

  /** `s.strip()`: `lstrip` then `rstrip`. */
  function Strip(s: string): (r: string)
    ensures IsStripped(r)
  {
    var l := StripLeft(s);
    var r := StripRight(l);
    assert r != [] ==> r[0] == l[0] by {
      if r != [] { StripRightDrops(l); }
    }
    r
  }

  /** `s.strip()` is the slice of `s` between a blank prefix and a blank suffix. */
  lemma StripSlice(s: string) returns (a: nat, b: nat)
    ensures a <= b <= |s|
    ensures Strip(s) == s[a..b]
    ensures Blank(s[..a]) && Blank(s[b..])
  {
    a := LeadingSpace(s);
    b := |s| - TrailingSpace(s[a..]);
    assert Strip(s) == s[a..b] by {
      StripLeftDrops(s);
      StripRightDrops(s[a..]);
      assert s[a..][..b - a] == s[a..b];
    }
    assert Blank(s[b..]) by {
      forall i | 0 <= i < |s| - b ensures IsSpace(s[b..][i]) {
        assert s[b..][i] == s[a..][b - a + i];
      }
    }
  }

  /** `s.strip()` is empty exactly when `s` is blank, and is never longer than `s`. */
  lemma StripEmptyIffBlank(s: string)
    ensures Strip(s) == [] <==> Blank(s)
    ensures |Strip(s)| <= |s|
  {
    var a, b := StripSlice(s);
    if Strip(s) == [] {
      forall i | 0 <= i < |s| ensures IsSpace(s[i]) {
        if i < a { assert s[..a][i] == s[i]; } else { assert s[b..][i - b] == s[i]; }
      }
    }
  }

  /** `strip()` is determined by any blank prefix and blank suffix around a stripped middle. */
  lemma BlankPrefixAt(s: string, p: nat)
    requires p <= |s| && Blank(s[..p])
    ensures forall i :: 0 <= i < p ==> IsSpace(s[i])
  {
    assert forall i :: 0 <= i < p ==> s[..p][i] == s[i];
  }

  lemma BlankSuffixAt(s: string, p: nat)
    requires p <= |s| && Blank(s[p..])
    ensures forall i :: p <= i < |s| ==> IsSpace(s[i])
  {
    assert forall i :: p <= i < |s| ==> s[p..][i - p] == s[i];
  }

  lemma {:induction false} StripUnique(s: string, a: nat, b: nat)
    requires a <= b <= |s|
    requires Blank(s[..a]) && Blank(s[b..]) && IsStripped(s[a..b])
    ensures Strip(s) == s[a..b]
  {
    var a', b' := StripSlice(s);
    StripEmptyIffBlank(s);
    BlankPrefixAt(s, a);
    BlankSuffixAt(s, b);
    BlankPrefixAt(s, a');
    BlankSuffixAt(s, b');
    if a < b {
      assert s[a..b][0] == s[a] && s[a..b][b - a - 1] == s[b - 1];
      assert a' < b';
      assert s[a'..b'][0] == s[a'] && s[a'..b'][b' - a' - 1] == s[b' - 1];
    }
  }

  /** `s.strip().strip() == s.strip()`. */
  lemma StripIdempotent(s: string)
    ensures Strip(Strip(s)) == Strip(s)
  {
    var r := Strip(s);
    StripUnique(r, 0, |r|);
    assert r[0..|r|] == r;
  }

  /** Stripping a string that starts with a non-space character keeps a prefix of it. */
  lemma StripKeepsPrefix(s: string) returns (b: nat)
    requires |s| > 0 && !IsSpace(s[0])
    ensures b <= |s| && Strip(s) == s[..b] && Blank(s[b..])
  {
    var a: nat;
    a, b := StripSlice(s);
  }

  // ---------------------------------------------------------------------------
  // split("\n\n"), count("\n\n"), join

  /** A paragraph break `"\n\n"` starts at index `i` of `s`. */
  predicate BreakAt(s: string, i: int) {
    0 <= i && i + 1 < |s| && s[i] == '\n' && s[i + 1] == '\n'
  }

  /** `"\n\n" in s`. */
  predicate HasBreak(s: string) {
    exists i :: 0 <= i < |s| && BreakAt(s, i)
  }

  /** `s.find("\n\n", j)`, with `|s|` for "not found". */
  function FirstBreakFrom(s: string, j: nat): (i: nat)
    requires j <= |s|
    decreases |s| - j
    ensures j <= i <= |s|
    ensures i == |s| || BreakAt(s, i)
    ensures forall k :: j <= k < i ==> !BreakAt(s, k)
  {
    if j == |s| || BreakAt(s, j) then j else FirstBreakFrom(s, j + 1)
  }

  /** A break inside a slice is a break of the whole string. */
  lemma BreakInSlice(s: string, a: nat, b: nat)
    requires a <= b <= |s|
    ensures HasBreak(s[a..b]) ==> HasBreak(s)
  {
    if HasBreak(s[a..b]) {
      var i :| 0 <= i < b - a && BreakAt(s[a..b], i);
      assert s[a..b][i] == s[a + i] && s[a..b][i + 1] == s[a + i + 1];
      assert BreakAt(s, a + i);
    }
  }

  /** `s.split("\n\n")`: the pieces between the non-overlapping breaks, left to right. */
  function SplitBlankLines(s: string): (pieces: seq<string>)
    decreases |s|
    ensures |pieces| >= 1
  {
    var i := FirstBreakFrom(s, 0);
    if i == |s| then [s] else [s[..i]] + SplitBlankLines(s[i + 2..])
  }

  /** No piece of `s.split("\n\n")` contains the separator. */
  lemma {:induction false} SplitPiecesHaveNoBreak(s: string)
    ensures forall k :: 0 <= k < |SplitBlankLines(s)| ==> !HasBreak(SplitBlankLines(s)[k])
    decreases |s|
  {
    var i := FirstBreakFrom(s, 0);
    assert !HasBreak(s[..i]) by {
      if HasBreak(s[..i]) {
        var k :| 0 <= k < i && BreakAt(s[..i], k);
        assert s[..i][k] == s[k] && s[..i][k + 1] == s[k + 1];
        assert BreakAt(s, k);
      }
    }
    if i < |s| {
      SplitPiecesHaveNoBreak(s[i + 2..]);
      var pieces := SplitBlankLines(s);
      assert forall k :: 1 <= k < |pieces| ==> pieces[k] == SplitBlankLines(s[i + 2..])[k - 1];
    }
  }

  /** `sep.join(parts)`. */
  function Join(parts: seq<string>, sep: string): string {
    if |parts| == 0 then []
    else if |parts| == 1 then parts[0]
    else parts[0] + sep + Join(parts[1..], sep)
  }

  /** `"".join(parts)`. */
  function Concat(parts: seq<string>): string {
    if parts == [] then [] else parts[0] + Concat(parts[1..])
  }

  /** Splitting and joining with the same separator gives the input back. */
  lemma {:induction false} SplitJoin(s: string)
    ensures Join(SplitBlankLines(s), "\n\n") == s
    decreases |s|
  {
    var i := FirstBreakFrom(s, 0);
    if i < |s| {
      var rest := s[i + 2..];
      SplitJoin(rest);
      JoinCons(s[..i], SplitBlankLines(rest), "\n\n");
      assert s == s[..i] + "\n\n" + rest;
    }
  }

  /** Joining a part in front of at least one more part puts a separator after it. */
  lemma JoinCons(x: string, parts: seq<string>, sep: string)
    requires |parts| >= 1
    ensures Join([x] + parts, sep) == x + sep + Join(parts, sep)
  {
    assert ([x] + parts)[1..] == parts;
  }

  /** `s.count("\n\n")`: non-overlapping occurrences, scanned left to right. */
  function CountBreaks(s: string): nat
    decreases |s|
  {
    if |s| < 2 then 0
    else if s[0] == '\n' && s[1] == '\n' then 1 + CountBreaks(s[2..])
    else CountBreaks(s[1..])
  }

  /** Skipping a stretch that holds no break start does not change the count. */
  lemma {:induction false} CountSkip(s: string, i: nat)
    requires i <= |s|
    requires forall k :: 0 <= k < i ==> !BreakAt(s, k)
    ensures CountBreaks(s) == CountBreaks(s[i..])
    decreases i
  {
    if i > 0 {
      assert !BreakAt(s, 0);
      forall k | 0 <= k < i - 1 ensures !BreakAt(s[1..], k) {
        assert !BreakAt(s, k + 1);
      }
      CountSkip(s[1..], i - 1);
      assert s[1..][i - 1..] == s[i..];
    }
  }

  /** `len(s.split("\n\n")) == s.count("\n\n") + 1`. */
  lemma {:induction false} SplitCount(s: string)
    ensures |SplitBlankLines(s)| == CountBreaks(s) + 1
    decreases |s|
  {
    var i := FirstBreakFrom(s, 0);
    CountSkip(s, i);
    if i < |s| {
      var t := s[i..];
      assert t[2..] == s[i + 2..];
      SplitCount(s[i + 2..]);
    } else {
      assert CountBreaks(s[|s|..]) == 0;
    }
  }

  predicate NoNewline(s: string) {
    forall i :: 0 <= i < |s| ==> s[i] != '\n'
  }

  /** A line without a newline, then a blank line: the line is the first piece and the
      split goes on with what follows. */
  lemma SplitAfterLine(x: string, y: string)
    requires NoNewline(x)
    ensures SplitBlankLines(x + "\n\n" + y) == [x] + SplitBlankLines(y)
  {
    var s := x + "\n\n" + y;
    assert BreakAt(s, |x|);
    assert FirstBreakFrom(s, 0) == |x|;
    assert s[..|x|] == x && s[|x| + 2..] == y;
  }

  /** Offset of `parts[i]` in `sep.join(parts)`. */
  function JoinOffset(parts: seq<string>, sep: string, i: nat): nat
    requires i < |parts|
  {
    if i == 0 then 0 else |parts[0]| + |sep| + JoinOffset(parts[1..], sep, i - 1)
  }

  /** Each part occurs in the joined string at its offset, so the parts appear in order. */
  lemma {:induction false} JoinPlacesParts(parts: seq<string>, sep: string, i: nat)
    requires i < |parts|
    ensures JoinOffset(parts, sep, i) + |parts[i]| <= |Join(parts, sep)|
    ensures Join(parts, sep)[JoinOffset(parts, sep, i)..JoinOffset(parts, sep, i) + |parts[i]|] == parts[i]
    ensures i + 1 < |parts| ==> JoinOffset(parts, sep, i + 1) == JoinOffset(parts, sep, i) + |parts[i]| + |sep|
  {
    var j := Join(parts, sep);
    if i == 0 {
      if |parts| > 1 {
        assert j == parts[0] + (sep + Join(parts[1..], sep));
        assert j[..|parts[0]|] == parts[0];
      }
    } else {
      JoinPlacesParts(parts[1..], sep, i - 1);
      var o := JoinOffset(parts[1..], sep, i - 1);
      var pre := parts[0] + sep;
      var rest := Join(parts[1..], sep);
      assert parts[1..][i - 1] == parts[i];
      assert j == pre + rest;
      assert j[|pre| + o..|pre| + o + |parts[i]|] == rest[o..o + |parts[i]|];
    }
  }

  // ---------------------------------------------------------------------------
  // [s.strip() for s in xs if s.strip()]

  /** `[s.strip() for s in xs]`. */
  function StripEach(xs: seq<string>): (ys: seq<string>)
    ensures |ys| == |xs|
    ensures forall i :: 0 <= i < |xs| ==> ys[i] == Strip(xs[i])
  {
    seq(|xs|, i requires 0 <= i < |xs| => Strip(xs[i]))
  }

  /** `[s for s in xs if s]`. */
  function NonEmpty(xs: seq<string>): (ys: seq<string>)
    ensures |ys| <= |xs|
    ensures forall k :: 0 <= k < |ys| ==> ys[k] != []
  {
    if xs == [] then []
    else (if xs[0] == [] then [] else [xs[0]]) + NonEmpty(xs[1..])
  }

  /** The filter keeps exactly the non-empty elements. */
  lemma {:induction false} NonEmptyMembers(xs: seq<string>, x: string)
    ensures x in NonEmpty(xs) <==> x in xs && x != []
  {
    if xs != [] {
      NonEmptyMembers(xs[1..], x);
      assert xs == [xs[0]] + xs[1..];
    }
  }

  /** Nothing survives the filter exactly when every element is empty. */
  lemma {:induction false} NonEmptyIsEmpty(xs: seq<string>)
    ensures NonEmpty(xs) == [] <==> forall j :: 0 <= j < |xs| ==> xs[j] == []
  {
    if xs != [] {
      NonEmptyIsEmpty(xs[1..]);
      assert forall j :: 1 <= j < |xs| ==> xs[j] == xs[1..][j - 1];
    }
  }

  lemma {:induction false} NonEmptyAppend(a: seq<string>, b: seq<string>)
    ensures NonEmpty(a + b) == NonEmpty(a) + NonEmpty(b)
  {
    if a != [] {
      assert (a + b)[1..] == a[1..] + b;
      NonEmptyAppend(a[1..], b);
    } else {
      assert a + b == b;
    }
  }

  lemma {:induction false} NonEmptyKeepsAll(xs: seq<string>)
    requires forall i :: 0 <= i < |xs| ==> xs[i] != []
    ensures NonEmpty(xs) == xs
  {
    if xs != [] { NonEmptyKeepsAll(xs[1..]); }
  }

  /** `[s.strip() for s in xs if s.strip()]`. */
  function KeepStripped(xs: seq<string>): seq<string> {
    NonEmpty(StripEach(xs))
  }

  /** Every element of `KeepStripped(xs)` is non-empty and stripped. */
  lemma {:induction false} KeepStrippedClean(xs: seq<string>)
    ensures forall k :: 0 <= k < |KeepStripped(xs)| ==> KeepStripped(xs)[k] != [] && IsStripped(KeepStripped(xs)[k])
  {
    if xs != [] {
      KeepStrippedClean(xs[1..]);
      assert StripEach(xs)[1..] == StripEach(xs[1..]);
      var head := if Strip(xs[0]) == [] then [] else [Strip(xs[0])];
      var rest := KeepStripped(xs[1..]);
      assert KeepStripped(xs) == head + rest;
      assert forall k :: |head| <= k < |head| + |rest| ==> (head + rest)[k] == rest[k - |head|];
    }
  }

  /** An element of `StripEach(xs)` is empty exactly when the original is blank. */
  lemma StripEachEmptyIffBlank(xs: seq<string>)
    ensures forall j :: 0 <= j < |xs| ==> (StripEach(xs)[j] == [] <==> Blank(xs[j]))
  {
    forall j | 0 <= j < |xs| ensures StripEach(xs)[j] == [] <==> Blank(xs[j]) {
      StripEmptyIffBlank(xs[j]);
    }
  }

  lemma StripEachAppend(a: seq<string>, b: seq<string>)
    ensures StripEach(a + b) == StripEach(a) + StripEach(b)
  {
  }

  lemma {:induction false} ConcatAppend(a: seq<string>, b: seq<string>)
    ensures Concat(a + b) == Concat(a) + Concat(b)
  {
    if a != [] {
      assert (a + b)[1..] == a[1..] + b;
      ConcatAppend(a[1..], b);
    } else {
      assert a + b == b;
    }
  }

  /** Joining blank parts with a blank separator gives a blank string. */
  lemma {:induction false} JoinBlank(parts: seq<string>, sep: string)
    requires Blank(sep)
    requires forall k :: 0 <= k < |parts| ==> Blank(parts[k])
    ensures Blank(Join(parts, sep))
  {
    if |parts| > 1 {
      JoinBlank(parts[1..], sep);
      var j := Join(parts, sep);
      var rest := Join(parts[1..], sep);
      assert j == parts[0] + sep + rest;
      forall i | 0 <= i < |j| ensures IsSpace(j[i]) {
        if i < |parts[0]| { assert j[i] == parts[0][i]; }
        else if i < |parts[0]| + |sep| { assert j[i] == sep[i - |parts[0]|]; }
        else { assert j[i] == rest[i - |parts[0]| - |sep|]; }
      }
    }
  }

  // ---------------------------------------------------------------------------
  // str(n)

  predicate IsDigit(c: char) { 48 <= c as int <= 57 }

  function DigitChar(d: nat): (c: char)
    requires d < 10
    ensures IsDigit(c) && c as int - 48 == d
  {
    (48 + d) as char
  }

  /** `str(n)` for `n >= 0`: decimal digits without leading zeros. */
  function NatToDecimal(n: nat): (s: string)
    ensures |s| >= 1
    ensures forall i :: 0 <= i < |s| ==> IsDigit(s[i])
    ensures |s| > 1 ==> s[0] != '0'
    decreases n
  {
    if n < 10 then [DigitChar(n)] else NatToDecimal(n / 10) + [DigitChar(n % 10)]
  }

  /** `int(s)` for a string of decimal digits. */
  function DecimalValue(s: string): nat
    requires forall i :: 0 <= i < |s| ==> IsDigit(s[i])
  {
    if s == [] then 0
    else
      assert IsDigit(s[|s| - 1]);
      10 * DecimalValue(s[..|s| - 1]) + (s[|s| - 1] as int - 48)
  }

  /** `int(str(n)) == n`: the rendered number reads back as itself. */
  lemma {:induction false} DecimalRoundTrip(n: nat)
    ensures DecimalValue(NatToDecimal(n)) == n
    decreases n
  {
    if n >= 10 {
      DecimalRoundTrip(n / 10);
      var s := NatToDecimal(n);
      assert s[..|s| - 1] == NatToDecimal(n / 10);
    }
  }
}

/**
 * The few Python `str` builtins the client scripts rely on: `strip()`,
 * `split(sep)`, `int(text)`, `str(n)`, `index(sub)`, `lower()` and `upper()`.
 */
module PyStr {
  import opened Wrappers

  /** The characters `str.isspace()` accepts, which `strip()` removes. */
  predicate IsSpace(c: char) {
    c == ' ' || ('\t' <= c <= '\r') || ('\U{1C}' <= c <= '\U{1F}') || c == '\U{85}' || c == '\U{A0}'
    || c == '\U{1680}' || ('\U{2000}' <= c <= '\U{200A}') || c == '\U{2028}' || c == '\U{2029}'
    || c == '\U{202F}' || c == '\U{205F}' || c == '\U{3000}'
  }

  /** Number of leading white-space characters. */
  function LeadingSpaces(s: string): (k: nat)
    ensures k <= |s|
    ensures forall i :: 0 <= i < k ==> IsSpace(s[i])
    ensures k < |s| ==> !IsSpace(s[k])
  {
    if |s| == 0 || !IsSpace(s[0]) then 0 else 1 + LeadingSpaces(s[1..])
  }

  /** Number of trailing white-space characters. */
  function TrailingSpaces(s: string): (k: nat)
    ensures k <= |s|
    ensures forall i :: |s| - k <= i < |s| ==> IsSpace(s[i])
    ensures k < |s| ==> !IsSpace(s[|s| - 1 - k])
  {
    if |s| == 0 || !IsSpace(s[|s| - 1]) then 0 else 1 + TrailingSpaces(s[..|s| - 1])
  }

  /** `s.strip()`: the longest slice of `s` that neither starts nor ends with white space. */
  function Strip(s: string): (r: string)
    ensures |r| <= |s|
    ensures r == [] || (!IsSpace(r[0]) && !IsSpace(r[|r| - 1]))
    ensures var i := LeadingSpaces(s);
              i + |r| <= |s| && r == s[i..i + |r|]
              && (forall j :: i + |r| <= j < |s| ==> IsSpace(s[j]))
  {
    var t := s[LeadingSpaces(s)..];
    var r := t[..|t| - TrailingSpaces(t)];
    assert r == s[LeadingSpaces(s)..LeadingSpaces(s) + |r|];
    r
  }

  /** Stripping twice removes nothing more. */
  lemma StripIdempotent(s: string)
    ensures Strip(Strip(s)) == Strip(s)
  {
    var r := Strip(s);
    if r != [] {
      assert LeadingSpaces(r) == 0;
      assert TrailingSpaces(r) == 0;
    }
  }

  /** Text containing no white space at either end is left as it is. */
  lemma StripTrimmed(s: string)
    requires s == [] || (!IsSpace(s[0]) && !IsSpace(s[|s| - 1]))
    ensures Strip(s) == s
  {
    if s != [] {
      assert LeadingSpaces(s) == 0;
      assert TrailingSpaces(s) == 0;
    }
  }

  /** `strip()` leaves nothing exactly when the text is all white space. */
  lemma StripEmptyIffBlank(s: string)
    ensures Strip(s) == [] <==> forall i :: 0 <= i < |s| ==> IsSpace(s[i])
  {
    if forall i :: 0 <= i < |s| ==> IsSpace(s[i]) {
      assert LeadingSpaces(s) == |s|;
    }
  }

  /** A leading white-space character makes no difference to `strip()`. */
  lemma StripLeadingSpace(c: char, s: string)
    requires IsSpace(c)
    ensures Strip([c] + s) == Strip(s)
  {
    var cs := [c] + s;
    assert cs[1..] == s;
    assert LeadingSpaces(cs) == 1 + LeadingSpaces(s);
    assert cs[LeadingSpaces(cs)..] == s[LeadingSpaces(s)..];
  }

  predicate Blank(s: string) {
    forall i :: 0 <= i < |s| ==> IsSpace(s[i])
  }

  /** Text with nothing but white space around a trimmed core strips to that core. */
  lemma StripOfPadded(a: string, r: string, b: string)
    requires Blank(a) && Blank(b)
    requires r == [] || (!IsSpace(r[0]) && !IsSpace(r[|r| - 1]))
    ensures Strip(a + r + b) == r
  {
    var s := a + r + b;
    if r == [] {
      assert s == a + b;
      StripEmptyIffBlank(s);
    } else {
      PaddedLeading(a, r, b);
      PaddedLength(a, r, b);
      assert s[|a|..|a| + |r|] == r;
    }
  }

  lemma PaddedLeading(a: string, r: string, b: string)
    requires Blank(a) && r != [] && !IsSpace(r[0])
    ensures LeadingSpaces(a + r + b) == |a|
  {
    var s := a + r + b;
    assert s[|a|] == r[0];
    assert forall j :: 0 <= j < |a| ==> s[j] == a[j];
  }

  lemma PaddedLength(a: string, r: string, b: string)
    requires Blank(b) && r != [] && !IsSpace(r[|r| - 1])
    requires LeadingSpaces(a + r + b) == |a|
    ensures |Strip(a + r + b)| == |r|
  {
    var s := a + r + b;
    assert s[|a| + |r| - 1] == r[|r| - 1];
    assert forall j :: |a| + |r| <= j < |s| ==> s[j] == b[j - |a| - |r|];
  }

  /** A text is its leading white space, its stripped core and its trailing white space. */
  lemma StripSplits(s: string)
    ensures var k, r := LeadingSpaces(s), Strip(s);
      k + |r| <= |s| && s == s[..k] + r + s[k + |r|..]
  {
    var k, r := LeadingSpaces(s), Strip(s);
    assert s == s[..k] + s[k..k + |r|] + s[k + |r|..];
  }

  /** The white space `strip()` removes is blank on both sides. */
  lemma BlankParts(s: string)
    ensures var k, r := LeadingSpaces(s), Strip(s);
      k + |r| <= |s| && Blank(s[..k]) && Blank(s[k + |r|..])
  {
  }

  lemma Regroup(pre: string, x: string, r: string, y: string, post: string)
    requires Blank(pre) && Blank(x) && Blank(y) && Blank(post)
    ensures pre + (x + r + y) + post == (pre + x) + r + (y + post)
    ensures Blank(pre + x) && Blank(y + post)
  {
  }

  /** White space added around a text makes no difference to `strip()`. */
  lemma StripPadded(pre: string, s: string, post: string)
    requires Blank(pre) && Blank(post)
    ensures Strip(pre + s + post) == Strip(s)
  {
    var k, r := LeadingSpaces(s), Strip(s);
    StripSplits(s);
    BlankParts(s);
    Regroup(pre, s[..k], r, s[k + |r|..], post);
    StripOfPadded(pre + s[..k], r, s[k + |r|..] + post);
  }

  /** `sep.join(parts)` for a one-character separator. */
  function Join(parts: seq<string>, sep: char): (r: string)
    requires |parts| >= 1
    decreases |parts|
  {
    if |parts| == 1 then parts[0] else Join(parts[..|parts| - 1], sep) + [sep] + parts[|parts| - 1]
  }

  /** Number of occurrences of `c` in `s`. */
  function Count(s: string, c: char): nat
  {
    if |s| == 0 then 0 else Count(s[..|s| - 1], c) + (if s[|s| - 1] == c then 1 else 0)
  }

  /**
   * `s.split(sep)` for a one-character separator: cut at every occurrence,
   * keeping empty pieces, so there is always one piece more than separators.
   */
  function Split(s: string, sep: char): (parts: seq<string>)
    ensures |parts| == Count(s, sep) + 1
    ensures forall i, j :: 0 <= i < |parts| && 0 <= j < |parts[i]| ==> parts[i][j] != sep
  {
    if |s| == 0 then [""]
    else
      var init := Split(s[..|s| - 1], sep);
      var last := s[|s| - 1];
      if last == sep then init + [""]
      else init[..|init| - 1] + [init[|init| - 1] + [last]]
  }

  /** Two pieces free of the separator, joined by it, split back into those two pieces. */
  lemma SplitPair(a: string, b: string, sep: char)
    requires forall i :: 0 <= i < |a| ==> a[i] != sep
    requires forall i :: 0 <= i < |b| ==> b[i] != sep
    ensures Split(a + [sep] + b, sep) == [a, b]
  {
    var parts := [a, b];
    assert parts[..1] == [a];
    assert Join(parts, sep) == a + [sep] + b;
    SplitJoin(parts, sep);
  }

  /** Joining the pieces of a split with the same separator gives back the text. */
  lemma {:induction false} JoinSplit(s: string, sep: char)
    ensures Join(Split(s, sep), sep) == s
  {
    if |s| > 0 {
      var prefix := s[..|s| - 1];
      var last := s[|s| - 1];
      var init := Split(prefix, sep);
      JoinSplit(prefix, sep);
      assert s == prefix + [last];
      if last == sep {
        var parts := init + [""];
        assert Split(s, sep) == parts;
        assert parts[..|parts| - 1] == init;
        assert Join(parts, sep) == Join(init, sep) + [sep] + "";
      } else {
        var parts := init[..|init| - 1] + [init[|init| - 1] + [last]];
        assert Split(s, sep) == parts;
        if |init| > 1 {
          JoinAppendLast(init, sep, [last]);
        } else {
          assert parts == [init[0] + [last]];
        }
      }
    }
  }

  /** Extending the last piece extends the joined text by the same characters. */
  lemma JoinAppendLast(parts: seq<string>, sep: char, extra: string)
    requires |parts| > 1
    ensures Join(parts[..|parts| - 1] + [parts[|parts| - 1] + extra], sep) == Join(parts, sep) + extra
  {
    var p := parts[..|parts| - 1] + [parts[|parts| - 1] + extra];
    assert p[..|p| - 1] == parts[..|parts| - 1];
  }

  /** Splitting text that does not contain the separator gives that text alone. */
  lemma {:induction false} SplitNoSeparator(s: string, sep: char)
    requires forall i :: 0 <= i < |s| ==> s[i] != sep
    ensures Split(s, sep) == [s]
  {
    if |s| > 0 {
      SplitNoSeparator(s[..|s| - 1], sep);
      assert s[..|s| - 1] + [s[|s| - 1]] == s;
    }
  }

  /** Splitting a join of separator-free pieces gives the pieces back. */
  lemma {:induction false} SplitJoin(parts: seq<string>, sep: char)
    requires |parts| >= 1
    requires forall i, j :: 0 <= i < |parts| && 0 <= j < |parts[i]| ==> parts[i][j] != sep
    ensures Split(Join(parts, sep), sep) == parts
  {
    if |parts| == 1 {
      SplitNoSeparator(parts[0], sep);
    } else {
      var init := parts[..|parts| - 1];
      var last := parts[|parts| - 1];
      var front := Join(init, sep) + [sep];
      assert forall i :: 0 <= i < |last| ==> last[i] != sep;
      SplitJoin(init, sep);
      SplitAfterSeparator(Join(init, sep), sep);
      assert Split(front, sep) == init + [""];
      assert Split(front, sep)[..|Split(front, sep)| - 1] == init;
      SplitExtend(front, last, sep);
      assert Join(parts, sep) == front + last;
      assert init + [last] == parts;
    }
  }

  /** Splitting `s + [sep]` adds an empty piece. */
  lemma SplitAfterSeparator(s: string, sep: char)
    ensures Split(s + [sep], sep) == Split(s, sep) + [""]
  {
    assert (s + [sep])[..|s|] == s;
  }

  /** Appending separator-free text to text that ends in a separator only fills the last piece. */
  lemma {:induction false} SplitExtend(s: string, t: string, sep: char)
    requires |s| > 0 && s[|s| - 1] == sep
    requires forall i :: 0 <= i < |t| ==> t[i] != sep
    ensures Split(s + t, sep) == Split(s, sep)[..|Split(s, sep)| - 1] + [t]
    decreases |t|
  {
    if |t| == 0 {
      assert s + t == s;
      assert s == s[..|s| - 1] + [sep];
    } else {
      SplitExtend(s, t[..|t| - 1], sep);
      assert (s + t)[..|s + t| - 1] == s + t[..|t| - 1];
      assert t[..|t| - 1] + [t[|t| - 1]] == t;
    }
  }

  predicate IsDigit(c: char) { '0' <= c <= '9' }

  function DigitValue(c: char): nat
    requires IsDigit(c)
  {
    (c as int) - ('0' as int)
  }

  /** Value of a non-empty run of decimal digits. */
  function DigitsValue(s: string): nat
    requires forall i :: 0 <= i < |s| ==> IsDigit(s[i])
  {
    if |s| == 0 then 0 else 10 * DigitsValue(s[..|s| - 1]) + DigitValue(s[|s| - 1])
  }

  predicate AllDigits(s: string) {
    |s| > 0 && forall i :: 0 <= i < |s| ==> IsDigit(s[i])
  }

  /**
   * The digits `int()` accepts after the sign: ASCII digits, where a single
   * underscore may separate two digits ("1_000").
   */
  predicate Numeral(s: string) {
    |s| > 0 && IsDigit(s[0]) && forall i :: 0 <= i < |s| ==> GroupedAt(s, i)
  }

  /** Position `i` holds a digit, or an underscore followed by a digit. */
  predicate GroupedAt(s: string, i: nat)
    requires i < |s|
  {
    IsDigit(s[i]) || (s[i] == '_' && i + 1 < |s| && IsDigit(s[i + 1]))
  }

  /** `s` without its underscores. */
  function Unscore(s: string): (r: string)
    ensures (forall i :: 0 <= i < |s| ==> IsDigit(s[i]) || s[i] == '_') ==> forall i :: 0 <= i < |r| ==> IsDigit(r[i])
    ensures (forall i :: 0 <= i < |s| ==> IsDigit(s[i])) ==> r == s
  {
    if |s| == 0 then []
    else
      var init := s[..|s| - 1];
      assert forall i :: 0 <= i < |init| ==> init[i] == s[i];
      Unscore(init) + (if s[|s| - 1] == '_' then [] else [s[|s| - 1]])
  }

  /** Value of a numeral: its digits read in base 10, the underscores skipped. */
  function NumeralValue(s: string): nat
    requires Numeral(s)
  {
    forall i | 0 <= i < |s|
      ensures IsDigit(s[i]) || s[i] == '_'
    {
      assert GroupedAt(s, i);
    }
    DigitsValue(Unscore(s))
  }

  /**
   * `int(text)`: surrounding white space, an optional sign and a numeral;
   * anything else raises `ValueError`, here `None`.
   */
  function ParseInt(text: string): (r: Option<int>)
    ensures r.Some? ==> Strip(text) != []
  {
    ParseTrimmed(Strip(text))
  }

  /** `int()` on text already stripped: an optional sign and a numeral. */
  function ParseTrimmed(t: string): (r: Option<int>)
    ensures r.Some? ==> t != []
  {
    if |t| > 0 && (t[0] == '-' || t[0] == '+') && Numeral(t[1..]) then
      var v: int := NumeralValue(t[1..]);
      Some(if t[0] == '-' then 0 - v else v)
    else if Numeral(t) then Some(NumeralValue(t))
    else None
  }

  /** Removing underscores distributes over concatenation. */
  lemma {:induction false} UnscoreAppend(a: string, b: string)
    ensures Unscore(a + b) == Unscore(a) + Unscore(b)
    decreases |b|
  {
    if |b| > 0 {
      var b' := b[..|b| - 1];
      assert (a + b)[..|a + b| - 1] == a + b';
      UnscoreAppend(a, b');
    } else {
      assert a + b == a;
    }
  }

  /** A run of plain digits is a numeral worth its digits. */
  lemma DigitsNumeral(s: string)
    requires AllDigits(s)
    ensures Numeral(s) && NumeralValue(s) == DigitsValue(s)
  {
  }

  /** `int()` skips an underscore between two numerals: `int("1_0") == int("10")`. */
  lemma UnderscoreIgnored(a: string, b: string)
    requires Numeral(a) && Numeral(b)
    ensures ParseInt(a + "_" + b) == ParseInt(a + b)
    ensures ParseInt(a + "_" + b).Some?
  {
    var grouped, plain := a + "_" + b, a + b;
    GroupedNumeral(a, b);
    JoinedNumeral(a, b);
    UnscoreSkips(a, b);
    assert grouped[0] == a[0] && plain[0] == a[0];
    assert grouped[|grouped| - 1] == b[|b| - 1] && plain[|plain| - 1] == b[|b| - 1];
    assert GroupedAt(b, |b| - 1);
    StripTrimmed(grouped);
    StripTrimmed(plain);
  }

  lemma GroupedNumeral(a: string, b: string)
    requires Numeral(a) && Numeral(b)
    ensures Numeral(a + "_" + b)
  {
    var g := a + "_" + b;
    forall i | 0 <= i < |g|
      ensures GroupedAt(g, i)
    {
      if i < |a| {
        assert GroupedAt(a, i);
        assert g[i] == a[i];
        if i + 1 < |a| { assert g[i + 1] == a[i + 1]; }
      } else if i == |a| {
        assert g[i] == '_' && g[i + 1] == b[0];
      } else {
        assert GroupedAt(b, i - |a| - 1);
        assert g[i] == b[i - |a| - 1];
        if i + 1 < |g| { assert g[i + 1] == b[i - |a|]; }
      }
    }
  }

  lemma JoinedNumeral(a: string, b: string)
    requires Numeral(a) && Numeral(b)
    ensures Numeral(a + b)
  {
    var p := a + b;
    forall i | 0 <= i < |p|
      ensures GroupedAt(p, i)
    {
      if i < |a| {
        assert GroupedAt(a, i);
        assert p[i] == a[i];
        if i + 1 < |a| { assert p[i + 1] == a[i + 1]; } else { assert p[i + 1] == b[0]; }
      } else {
        assert GroupedAt(b, i - |a|);
        assert p[i] == b[i - |a|];
        if i + 1 < |p| { assert p[i + 1] == b[i + 1 - |a|]; }
      }
    }
  }

  lemma UnscoreSkips(a: string, b: string)
    ensures Unscore(a + "_" + b) == Unscore(a + b)
  {
    UnscoreAppend(a + "_", b);
    UnscoreAppend(a, "_");
    UnscoreAppend(a, b);
    UnscoreUnderscore();
  }

  lemma UnscoreUnderscore()
    ensures Unscore("_") == []
  {
    assert "_"[..0] == [];
  }

  /** `int()` ignores a leading white-space character. */
  lemma ParseIntLeadingSpace(c: char, s: string)
    requires IsSpace(c)
    ensures ParseInt([c] + s) == ParseInt(s)
  {
    StripLeadingSpace(c, s);
  }

  /** The decimal digits of a natural number, as `str(n)` writes them. */
  function NatText(n: nat): (s: string)
    ensures AllDigits(s)
    ensures DigitsValue(s) == n
    ensures s[0] != '0' || n == 0
  {
    if n < 10 then [('0' as int + n) as char]
    else
      var s := NatText(n / 10) + [('0' as int + n % 10) as char];
      assert s[..|s| - 1] == NatText(n / 10);
      s
  }

  /** `str(n)` for any integer. */
  function IntText(n: int): (s: string)
  {
    if n < 0 then "-" + NatText(-n) else NatText(n)
  }

  /** `int(str(n)) == n`. */
  lemma ParseIntText(n: int)
    ensures ParseInt(IntText(n)) == Some(n)
  {
    if n < 0 {
      ParseNegativeText(n);
    } else {
      ParseNaturalText(n);
    }
  }

  lemma ParseNegativeText(n: int)
    requires n < 0
    ensures ParseInt(IntText(n)) == Some(n)
  {
    var d := NatText(-n);
    var s := "-" + d;
    assert IntText(n) == s;
    assert s[1..] == d;
    assert s[|s| - 1] == d[|d| - 1];
    StripTrimmed(s);
    DigitsNumeral(d);
  }

  lemma ParseNaturalText(n: nat)
    ensures ParseInt(IntText(n)) == Some(n)
  {
    var s := NatText(n);
    assert IntText(n) == s;
    assert !IsSpace(s[0]) && !IsSpace(s[|s| - 1]);
    StripTrimmed(s);
    DigitsNumeral(s);
    assert !(s[0] == '-' || s[0] == '+');
  }

  /** ASCII part of `str.lower()`. */
  function LowerChar(c: char): char {
    if 'A' <= c <= 'Z' then (c as int + 32) as char else c
  }

  /** ASCII part of `str.upper()`. */
  function UpperChar(c: char): char {
    if 'a' <= c <= 'z' then (c as int - 32) as char else c
  }

  function Lower(s: string): (r: string)
    ensures |r| == |s| && forall i :: 0 <= i < |s| ==> r[i] == LowerChar(s[i])
  {
    seq(|s|, i requires 0 <= i < |s| => LowerChar(s[i]))
  }

  function Upper(s: string): (r: string)
    ensures |r| == |s| && forall i :: 0 <= i < |s| ==> r[i] == UpperChar(s[i])
  {
    seq(|s|, i requires 0 <= i < |s| => UpperChar(s[i]))
  }

  predicate OccursAt(hay: string, needle: string, i: nat) {
    i + |needle| <= |hay| && hay[i..i + |needle|] == needle
  }

  /** `hay.index(needle)`: the lowest position where `needle` occurs; `None` for `ValueError`. */
  function Index(hay: string, needle: string): (r: Option<nat>)
    ensures r.Some? ==> OccursAt(hay, needle, r.value)
    ensures r.Some? ==> forall j :: 0 <= j < r.value ==> !OccursAt(hay, needle, j)
    ensures r.None? ==> forall j :: 0 <= j <= |hay| ==> !OccursAt(hay, needle, j)
  {
    IndexFrom(hay, needle, 0)
  }

  function IndexFrom(hay: string, needle: string, from: nat): (r: Option<nat>)
    requires from <= |hay| + 1
    ensures r.Some? ==> from <= r.value && OccursAt(hay, needle, r.value)
    ensures r.Some? ==> forall j :: from <= j < r.value ==> !OccursAt(hay, needle, j)
    ensures r.None? ==> forall j :: from <= j <= |hay| ==> !OccursAt(hay, needle, j)
    decreases |hay| + 1 - from
  {
    if from + |needle| > |hay| then None
    else if hay[from..from + |needle|] == needle then Some(from)
    else IndexFrom(hay, needle, from + 1)
  }
}

/** The JavaScript string primitives the task extractor relies on:
    `String.prototype.trim`, `split` on a one-character separator,
    `startsWith` / `includes`, the global removal of quote characters, and
    `Number()` applied to a run of decimal digits. Strings are sequences of
    code points. */
module Text {
  import opened Wrappers

  /** The ECMAScript WhiteSpace and LineTerminator code points: exactly the
      characters `trim()` strips and the regular-expression class `\s`
      matches. */
  predicate IsSpace(c: char) {
    || c == '\t' || c == '\n' || c == '\U{000B}' || c == '\U{000C}' || c == '\r'
    || c == ' ' || c == '\U{00A0}' || c == '\U{1680}'
    || ('\U{2000}' <= c <= '\U{200A}')
    || c == '\U{2028}' || c == '\U{2029}' || c == '\U{202F}' || c == '\U{205F}'
    || c == '\U{3000}' || c == '\U{FEFF}'
  }

  /** The LineTerminator code points: the characters the regular-expression
      atom `.` refuses. */
  predicate IsLineTerminator(c: char) {
    c == '\n' || c == '\r' || c == '\U{2028}' || c == '\U{2029}'
  }

  /** The regular-expression class `\d`: ASCII decimal digits only. */
  predicate IsDigit(c: char) {
    '0' <= c <= '9'
  }

  /** The character class `['"]`. */
  predicate IsQuote(c: char) {
    c == '\'' || c == '"'
  }

  predicate AllSpace(s: string) {
    forall k :: 0 <= k < |s| ==> IsSpace(s[k])
  }

  predicate AllDigits(s: string) {
    forall k :: 0 <= k < |s| ==> IsDigit(s[k])
  }

  // ---------------------------------------------------------------- trim

  /** Drops the leading white space: the result is the suffix of `s` that
      starts at its first non-space character. */
  function TrimStart(s: string): (r: string)
    ensures |r| <= |s| && r == s[|s| - |r|..]
    ensures AllSpace(s[..|s| - |r|])
    ensures r == [] || !IsSpace(r[0])
  {
    if |s| > 0 && IsSpace(s[0]) then
      var r := TrimStart(s[1..]);
      TrimStartStep(s, r);
      r
    else s
  }

  /** A suffix of the tail after white-space padding is a suffix of the
      whole text after one more character of padding. */
  lemma TrimStartStep(s: string, r: string)
    requires |s| > 0 && IsSpace(s[0])
    requires |r| <= |s| - 1 && r == s[1..][|s| - 1 - |r|..]
    requires AllSpace(s[1..][..|s| - 1 - |r|])
    ensures r == s[|s| - |r|..]
    ensures AllSpace(s[..|s| - |r|])
  {
    assert s[..|s| - |r|] == [s[0]] + s[1..][..|s| - 1 - |r|];
  }

  /** Drops the trailing white space: the result is the prefix of `s` that
      ends at its last non-space character. */
  function TrimEnd(s: string): (r: string)
    ensures |r| <= |s| && r == s[..|r|]
    ensures AllSpace(s[|r|..])
    ensures r == [] || !IsSpace(r[|r| - 1])
  {
    if |s| > 0 && IsSpace(s[|s| - 1]) then
      var init := s[..|s| - 1];
      var r := TrimEnd(init);
      assert s[|r|..] == init[|r|..] + [s[|s| - 1]];
      r
    else s
  }

  /** `r` sits at offset `i` of `s` with nothing but white space around it. */
  predicate PaddedAt(s: string, r: string, i: nat) {
    i + |r| <= |s| && s[i..i + |r|] == r && AllSpace(s[..i]) && AllSpace(s[i + |r|..])
  }

  /** Neither end of `r` is white space. */
  predicate Tight(r: string) {
    r == [] || (!IsSpace(r[0]) && !IsSpace(r[|r| - 1]))
  }

  /** `String.prototype.trim`: the infix of `s` left after white space is
      removed from both ends. */
  function Trim(s: string): (r: string)
    ensures Tight(r)
    ensures exists i :: PaddedAt(s, r, i)
  {
    var a := TrimStart(s);
    var r := TrimEnd(a);
    TrimPadded(s, a, r);
    r
  }

  /** The two halves of `Trim` leave a padded infix. */
  lemma TrimPadded(s: string, a: string, r: string)
    requires |a| <= |s| && a == s[|s| - |a|..] && AllSpace(s[..|s| - |a|])
    requires |r| <= |a| && r == a[..|r|] && AllSpace(a[|r|..])
    ensures PaddedAt(s, r, |s| - |a|)
  {
    var i := |s| - |a|;
    assert s[i..i + |r|] == r by {
      assert s[i..][..|r|] == s[i..i + |r|];
    }
    assert AllSpace(s[..i]);
    assert AllSpace(s[i + |r|..]) by {
      assert a[|r|..] == s[i + |r|..];
    }
  }

  /** Trimming is determined by its two properties: any space-padded,
      tight infix of `s` is what `trim()` returns. */
  lemma TrimUnique(s: string, r: string, i: nat)
    requires PaddedAt(s, r, i) && Tight(r)
    ensures Trim(s) == r
  {
    if r == [] {
      TrimUniqueBlank(s, i);
    } else {
      assert s[i] == r[0];
      TrimStartAt(s, i);
      TrimUniqueEnd(s[i..], r);
    }
  }

  /** A string that is white space on both sides of `i` trims to nothing. */
  lemma TrimUniqueBlank(s: string, i: nat)
    requires i <= |s| && AllSpace(s[..i]) && AllSpace(s[i..])
    ensures TrimEnd(TrimStart(s)) == []
  {
    assert AllSpace(s) by {
      forall k | 0 <= k < |s| ensures IsSpace(s[k]) {
        if k < i { assert s[..i][k] == s[k]; } else { assert s[i..][k - i] == s[k]; }
      }
    }
    TrimStartAt(s, |s|);
  }

  /** A string that starts with the tight `r` and is white space after it
      loses exactly that white space at its end. */
  lemma TrimUniqueEnd(a: string, r: string)
    requires |r| > 0 && |r| <= |a| && a[..|r|] == r && Tight(r) && AllSpace(a[|r|..])
    ensures TrimEnd(a) == r
  {
    assert a[|r| - 1] == r[|r| - 1];
    TrimEndAt(a, |r|);
  }

  /** A line indented by white space and tight after it trims to the part
      after the indentation. */
  lemma TrimAfter(s: string, i: nat)
    requires i <= |s| && AllSpace(s[..i]) && Tight(s[i..])
    ensures Trim(s) == s[i..]
  {
    assert s[i..i + |s[i..]|] == s[i..];
    assert s[i + |s[i..]|..] == [];
    TrimUnique(s, s[i..], i);
  }

  /** The leading white space of `s` is exactly its first `i` characters. */
  lemma {:induction false} TrimStartAt(s: string, i: nat)
    requires i <= |s| && AllSpace(s[..i]) && (i == |s| || !IsSpace(s[i]))
    ensures TrimStart(s) == s[i..]
  {
    if i > 0 {
      assert s[..i][0] == s[0];
      assert s[1..][..i - 1] == s[1..i];
      assert s[1..i] == s[..i][1..];
      TrimStartAt(s[1..], i - 1);
      assert s[1..][i - 1..] == s[i..];
    }
  }

  /** The trailing white space of `s` is exactly what follows index `j`. */
  lemma {:induction false} TrimEndAt(s: string, j: nat)
    requires j <= |s| && AllSpace(s[j..]) && (j == 0 || !IsSpace(s[j - 1]))
    ensures TrimEnd(s) == s[..j]
  {
    if j < |s| {
      var init := s[..|s| - 1];
      assert s[j..][|s| - 1 - j] == s[|s| - 1];
      assert init[j..] == s[j..|s| - 1];
      if j > 0 { assert init[j - 1] == s[j - 1]; }
      TrimEndAt(init, j);
      assert init[..j] == s[..j];
    }
  }

  /** Trimming twice is trimming once. */
  lemma TrimIdempotent(s: string)
    ensures Trim(Trim(s)) == Trim(s)
  {
    var r := Trim(s);
    assert PaddedAt(r, r, 0) by {
      assert r[0..|r|] == r;
      assert r[..0] == [] && r[|r|..] == [];
    }
    TrimUnique(r, r, 0);
  }

  // ---------------------------------------------------------------- split

  /** The pieces joined back together with `sep` between neighbours. */
  function Join(parts: seq<string>, sep: char): string
    requires |parts| >= 1
  {
    if |parts| == 1 then parts[0] else parts[0] + [sep] + Join(parts[1..], sep)
  }

  /** `String.prototype.split` with a one-character separator: at least one
      piece, none containing the separator, and joining them restores `s`. */
  function Split(s: string, sep: char): (r: seq<string>)
    ensures |r| >= 1
    ensures forall k :: 0 <= k < |r| ==> sep !in r[k]
    ensures Join(r, sep) == s
  {
    if |s| == 0 then [""]
    else
      var rest := Split(s[1..], sep);
      if s[0] == sep then
        assert [""] + rest == [""] + rest;
        assert ([""] + rest)[1..] == rest;
        [""] + rest
      else
        var r := [[s[0]] + rest[0]] + rest[1..];
        assert r[1..] == rest[1..];
        assert s == [s[0]] + s[1..];
        r
  }

  /** Splitting a join of separator-free pieces gives the pieces back. */
  lemma {:induction false} SplitJoin(parts: seq<string>, sep: char)
    requires |parts| >= 1
    requires forall k :: 0 <= k < |parts| ==> sep !in parts[k]
    ensures Split(Join(parts, sep), sep) == parts
  {
    if |parts| == 1 {
      SplitFree(parts[0], sep);
    } else {
      SplitJoin(parts[1..], sep);
      SplitPrefix(parts[0], Join(parts[1..], sep), sep);
      assert [parts[0]] + parts[1..] == parts;
    }
  }

  /** A separator-free string is a single piece. */
  lemma {:induction false} SplitFree(s: string, sep: char)
    requires sep !in s
    ensures Split(s, sep) == [s]
  {
    if |s| > 0 {
      SplitFree(s[1..], sep);
      assert [s[0]] + s[1..] == s;
    }
  }

  /** A separator-free head followed by the separator becomes the first
      piece, whatever follows. */
  lemma {:induction false} SplitPrefix(a: string, b: string, sep: char)
    requires sep !in a
    ensures Split(a + [sep] + b, sep) == [a] + Split(b, sep)
  {
    if |a| == 0 {
      assert a + [sep] + b == [sep] + b;
      assert ([sep] + b)[1..] == b;
    } else {
      var t := a + [sep] + b;
      assert t[0] == a[0];
      assert t[1..] == a[1..] + [sep] + b;
      SplitPrefix(a[1..], b, sep);
      assert [a[0]] + a[1..] == a;
    }
  }

  /** Splitting text that is joined at a separator splits each side, the last
      piece of the left side and the first of the right staying apart. */
  lemma SplitAppend(a: string, b: string, sep: char)
    ensures Split(a + [sep] + b, sep) == Split(a, sep) + Split(b, sep)
  {
    var p, q := Split(a, sep), Split(b, sep);
    JoinAppend(p, q, sep);
    assert forall k :: 0 <= k < |p + q| ==> sep !in (p + q)[k] by {
      forall k | 0 <= k < |p + q| ensures sep !in (p + q)[k] {
        if k >= |p| { assert (p + q)[k] == q[k - |p|]; }
      }
    }
    SplitJoin(p + q, sep);
  }

  /** Joining two lists of pieces is joining each and putting the separator
      between them. */
  lemma {:induction false} JoinAppend(p: seq<string>, q: seq<string>, sep: char)
    requires |p| >= 1 && |q| >= 1
    ensures Join(p + q, sep) == Join(p, sep) + [sep] + Join(q, sep)
    decreases |p|
  {
    var t := p + q;
    assert t[0] == p[0];
    if |p| > 1 {
      assert t[1..] == p[1..] + q;
      JoinAppend(p[1..], q, sep);
    } else {
      assert t[1..] == q;
    }
  }

  // ---------------------------------------------------------------- search

  /** `p` occurs in `s` starting at index `i`. */
  predicate OccursAt(s: string, p: string, i: nat) {
    i + |p| <= |s| && s[i..i + |p|] == p
  }

  /** `String.prototype.startsWith`. */
  predicate StartsWith(s: string, p: string) {
    OccursAt(s, p, 0)
  }

  /** `String.prototype.indexOf(p, from)`: the first occurrence of `p` at or
      after `from`, or none. */
  function IndexOf(s: string, p: string, from: nat): (r: Option<nat>)
    ensures r.Some? ==> from <= r.value && OccursAt(s, p, r.value)
    ensures r.Some? ==> forall k :: from <= k < r.value ==> !OccursAt(s, p, k)
    ensures r.None? ==> forall k :: from <= k ==> !OccursAt(s, p, k)
    decreases |s| - from
  {
    if from + |p| > |s| then None
    else if OccursAt(s, p, from) then Some(from)
    else IndexOf(s, p, from + 1)
  }

  /** `String.prototype.includes`. */
  predicate Contains(s: string, p: string) {
    IndexOf(s, p, 0).Some?
  }

  /** `includes` holds exactly when `p` occurs somewhere in `s`. */
  lemma ContainsIff(s: string, p: string)
    ensures Contains(s, p) <==> exists i: nat :: OccursAt(s, p, i)
  {
    if !Contains(s, p) {
      assert forall i: nat :: !OccursAt(s, p, i);
    }
  }

  /** An occurrence of `p` needs each of its characters: when one is missing
      from `s`, `p` neither occurs in `s` nor starts it. */
  lemma MissingChar(s: string, p: string, j: nat)
    requires j < |p| && p[j] !in s
    ensures !Contains(s, p) && !StartsWith(s, p)
  {
    forall i: nat | i + |p| <= |s| ensures !OccursAt(s, p, i) {
      assert s[i..i + |p|][j] == s[i + j];
    }
  }

  /** When the only copy of `p[j]` in `s` sits at `k`, the one place `p`
      could occur is `k - j`; if it does not occur there, it occurs nowhere. */
  lemma SoleAnchor(s: string, p: string, j: nat, k: nat)
    requires j < |p| && k < |s| && s[k] == p[j]
    requires p[j] !in s[..k] && p[j] !in s[k + 1..]
    requires k < j || k - j + |p| > |s| || s[k - j..k - j + |p|] != p
    ensures !Contains(s, p)
  {
    forall i: nat | i + |p| <= |s| && i + j != k ensures !OccursAt(s, p, i) {
      assert s[i..i + |p|][j] == s[i + j];
      if i + j < k {
        assert s[..k][i + j] == s[i + j];
      } else {
        assert s[k + 1..][i + j - k - 1] == s[i + j];
      }
    }
  }

  /** The end of the run of characters satisfying `p` that starts at `from`. */
  function RunEnd(s: string, from: nat, p: char -> bool): (e: nat)
    requires from <= |s|
    ensures from <= e <= |s|
    ensures forall k :: from <= k < e ==> p(s[k])
    ensures e < |s| ==> !p(s[e])
    decreases |s| - from
  {
    if from < |s| && p(s[from]) then RunEnd(s, from + 1, p) else from
  }

  // ---------------------------------------------------------------- quotes

  /** `s.replace(/['"]/g, "")`: every quote character removed, everything
      else kept with its multiplicity. */
  function StripQuotes(s: string): (r: string)
    ensures forall k :: 0 <= k < |r| ==> !IsQuote(r[k])
    ensures |r| <= |s|
  {
    if |s| == 0 then ""
    else if IsQuote(s[0]) then StripQuotes(s[1..]) else [s[0]] + StripQuotes(s[1..])
  }

  /** Every character other than a quote is kept with its multiplicity. */
  lemma {:induction false} StripQuotesCounts(s: string)
    ensures forall c :: !IsQuote(c) ==> multiset(StripQuotes(s))[c] == multiset(s)[c]
  {
    if |s| > 0 {
      StripQuotesCounts(s[1..]);
      assert s == [s[0]] + s[1..];
      assert multiset(s) == multiset{s[0]} + multiset(s[1..]);
    }
  }

  /** Quote removal works character by character, so it keeps order. */
  lemma {:induction false} StripQuotesAppend(a: string, b: string)
    ensures StripQuotes(a + b) == StripQuotes(a) + StripQuotes(b)
  {
    if |a| > 0 {
      assert (a + b)[0] == a[0];
      assert (a + b)[1..] == a[1..] + b;
      StripQuotesAppend(a[1..], b);
    } else {
      assert a + b == b;
    }
  }

  /** A string without quotes is left as it is. */
  lemma {:induction false} StripQuotesFree(s: string)
    requires forall k :: 0 <= k < |s| ==> !IsQuote(s[k])
    ensures StripQuotes(s) == s
  {
    if |s| > 0 {
      StripQuotesFree(s[1..]);
      assert [s[0]] + s[1..] == s;
    }
  }

  /** A quoted word with no quotes inside loses exactly its two enclosing
      quotes. */
  lemma StripQuotesQuoted(s: string)
    requires |s| >= 2 && IsQuote(s[0]) && IsQuote(s[|s| - 1])
    requires forall k :: 0 < k < |s| - 1 ==> !IsQuote(s[k])
    ensures StripQuotes(s) == s[1..|s| - 1]
  {
    var m := s[1..|s| - 1];
    forall k | 0 <= k < |m| ensures !IsQuote(m[k]) {
      assert m[k] == s[k + 1];
    }
    assert s == [s[0]] + m + [s[|s| - 1]];
    StripQuotesWrapped(s[0], m, s[|s| - 1]);
  }

  lemma StripQuotesWrapped(a: char, m: string, z: char)
    requires IsQuote(a) && IsQuote(z)
    requires forall k :: 0 <= k < |m| ==> !IsQuote(m[k])
    ensures StripQuotes([a] + m + [z]) == m
  {
    StripQuotesAppend([a] + m, [z]);
    StripQuote(z);
    StripQuotesAppend([a], m);
    StripQuote(a);
    StripQuotesFree(m);
    assert StripQuotes([a] + m) == m;
  }

  /** A lone quote is removed. */
  lemma StripQuote(c: char)
    requires IsQuote(c)
    ensures StripQuotes([c]) == []
  {
    assert [c][1..] == [];
  }

  // ---------------------------------------------------------------- digits

  function Pow10(n: nat): (r: nat)
    ensures r >= 1
  {
    if n == 0 then 1 else 10 * Pow10(n - 1)
  }

  function DigitValue(c: char): nat
    requires IsDigit(c)
  {
    (c as int - '0' as int) as nat
  }

  /** `Number()` of a non-empty run of ASCII digits, read most significant
      digit first; the value has at most as many digits as the run. */
  function DigitsValue(ds: string): (n: nat)
    requires AllDigits(ds)
    ensures n < Pow10(|ds|)
  {
    if |ds| == 0 then 0
    else
      var init := ds[..|ds| - 1];
      assert AllDigits(init) by {
        forall k | 0 <= k < |init| ensures IsDigit(init[k]) {
          assert init[k] == ds[k];
        }
      }
      10 * DigitsValue(init) + DigitValue(ds[|ds| - 1])
  }

  /** The decimal rendering of `n`, without leading zeros. */
  function Decimal(n: nat): (ds: string)
    ensures |ds| >= 1 && AllDigits(ds)
    ensures |ds| > 1 ==> ds[0] != '0'
  {
    var d := ['0' + (n % 10) as char];
    if n < 10 then d else Decimal(n / 10) + d
  }

  /** Reading back the decimal rendering of `n` gives `n`. */
  lemma {:induction false} DecimalRoundTrip(n: nat)
    ensures DigitsValue(Decimal(n)) == n
  {
    if n >= 10 {
      DecimalRoundTrip(n / 10);
      var ds := Decimal(n);
      assert ds[..|ds| - 1] == Decimal(n / 10);
    }
  }

  /** Leading zeros do not change the value, so `Number("007")` is 7. */
  lemma {:induction false} LeadingZero(ds: string)
    requires AllDigits(ds)
    ensures AllDigits("0" + ds) && DigitsValue("0" + ds) == DigitsValue(ds)
  {
    var t := "0" + ds;
    assert AllDigits(t) by {
      forall k | 0 <= k < |t| ensures IsDigit(t[k]) {
        if k > 0 { assert t[k] == ds[k - 1]; }
      }
    }
    if |ds| > 0 {
      var init := ds[..|ds| - 1];
      assert AllDigits(init) by {
        forall k | 0 <= k < |init| ensures IsDigit(init[k]) {
          assert init[k] == ds[k];
        }
      }
      LeadingZero(init);
      assert t[..|t| - 1] == "0" + init;
    }
  }
}

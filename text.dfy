/** The string primitives the JavaScript code relies on: `\d` and `\D`,
    `replace(/\D/g, '')`, `endsWith`, `slice(-4)`, `trim`, `split`, `join`,
    `includes` and `toLowerCase`. */
module Text {

  /** `\d` in a JavaScript regular expression: an ASCII digit. */
  predicate IsDigit(c: char) {
    '0' <= c <= '9'
  }

  predicate AllDigits(s: string) {
    forall i :: 0 <= i < |s| ==> IsDigit(s[i])
  }

  /** `/^[0-9]{4}$/.test(s)` (and `/^\d{4}$/`). */
  predicate IsFourDigits(s: string) {
    |s| == 4 && AllDigits(s)
  }

  /** The digits of `s`, in their order (every non-digit removed). */
  function Digits(s: string): (r: string)
    ensures AllDigits(r)
    ensures |r| <= |s|
  {
    if s == [] then []
    else if IsDigit(s[0]) then [s[0]] + Digits(s[1..])
    else Digits(s[1..])
  }

  /** Stripping keeps exactly the digits: a character is in the result when,
      and only when, it is a digit of `s`. */
  lemma {:induction false} DigitsKept(s: string)
    ensures forall c :: c in Digits(s) <==> c in s && IsDigit(c)
  {
    if s != [] {
      DigitsKept(s[1..]);
      assert s == [s[0]] + s[1..];
    }
  }

  /** Stripping distributes over concatenation, so the digits keep their order. */
  lemma {:induction false} DigitsAppend(a: string, b: string)
    ensures Digits(a + b) == Digits(a) + Digits(b)
  {
    if a == [] {
      assert a + b == b;
    } else {
      assert (a + b)[0] == a[0] && (a + b)[1..] == a[1..] + b;
      DigitsAppend(a[1..], b);
    }
  }

  /** Stripping non-digits leaves a digit string as it is. */
  lemma {:induction false} DigitsOfDigits(s: string)
    requires AllDigits(s)
    ensures Digits(s) == s
  {
    if s != [] {
      DigitsOfDigits(s[1..]);
    }
  }

  predicate StartsWith(s: string, prefix: string) {
    |prefix| <= |s| && s[..|prefix|] == prefix
  }

  predicate EndsWith(s: string, suffix: string) {
    |suffix| <= |s| && s[|s| - |suffix|..] == suffix
  }

  /** `s.slice(-4)` on a string of at least four characters. */
  function Last4(s: string): (r: string)
    requires |s| >= 4
    ensures |r| == 4 && EndsWith(s, r)
  {
    s[|s| - 4..]
  }

  /** `s.substring(0, n)`. */
  function Take(s: string, n: nat): (r: string)
    ensures |r| <= n && StartsWith(s, r)
    ensures |s| <= n ==> r == s
    ensures |s| > n ==> r == s[..n]
    ensures AllDigits(s) ==> AllDigits(r)
  {
    if |s| <= n then s else s[..n]
  }

  /** The white-space and line-terminator characters `String.prototype.trim` removes
      (the ASCII ones, no-break space, the line and paragraph separators and the
      byte-order mark). */
  predicate IsSpace(c: char) {
    c == ' ' || c == '\t' || c == '\n' || c == '\r' || c == '\U{B}' || c == '\U{C}'
    || c == '\U{A0}' || c == '\U{2028}' || c == '\U{2029}' || c == '\U{FEFF}'
  }

  function TrimStart(s: string): (r: string)
    ensures |r| <= |s| && r == s[|s| - |r|..]
    ensures r == [] || !IsSpace(r[0])
  {
    if s != [] && IsSpace(s[0]) then TrimStart(s[1..]) else s
  }

  /** What `TrimStart` cuts off is white space. */
  lemma {:induction false} TrimStartCutsBlank(s: string)
    ensures forall k :: 0 <= k < |s| - |TrimStart(s)| ==> IsSpace(s[k])
  {
    if s != [] && IsSpace(s[0]) {
      assert TrimStart(s) == TrimStart(s[1..]);
      TrimStartCutsBlank(s[1..]);
      forall k | 1 <= k < |s| - |TrimStart(s)|
        ensures IsSpace(s[k])
      {
        assert s[k] == s[1..][k - 1];
      }
    }
  }

  function TrimEnd(s: string): (r: string)
    ensures |r| <= |s| && r == s[..|r|]
    ensures r == [] || !IsSpace(r[|r| - 1])
  {
    if s != [] && IsSpace(s[|s| - 1]) then TrimEnd(s[..|s| - 1]) else s
  }

  /** What `TrimEnd` cuts off is white space. */
  lemma {:induction false} TrimEndCutsBlank(s: string)
    ensures forall k :: |TrimEnd(s)| <= k < |s| ==> IsSpace(s[k])
  {
    if s != [] && IsSpace(s[|s| - 1]) {
      assert TrimEnd(s) == TrimEnd(s[..|s| - 1]);
      TrimEndCutsBlank(s[..|s| - 1]);
      forall k | |TrimEnd(s)| <= k < |s| - 1
        ensures IsSpace(s[k])
      {
        assert s[k] == s[..|s| - 1][k];
      }
    }
  }

  /** No white space at either end. */
  predicate Trimmed(s: string) {
    s == [] || (!IsSpace(s[0]) && !IsSpace(s[|s| - 1]))
  }

  /** `s.trim()`: `s` without its leading and trailing white space. */
  function Trim(s: string): (r: string)
    ensures |r| <= |s|
    ensures Trimmed(r)
  {
    TrimEnd(TrimStart(s))
  }

  /** Trimming removes white space at the ends and nothing else: the result is a
      slice of `s` with only blank text before and after it. */
  lemma TrimIsSlice(s: string)
    ensures exists i, j :: 0 <= i <= j <= |s| && Trim(s) == s[i..j] && Blank(s[..i]) && Blank(s[j..])
  {
    var t := TrimStart(s);
    var r := TrimEnd(t);
    TrimStartCutsBlank(s);
    TrimEndCutsBlank(t);
    TrimSlice(s, t, r);
    var i := |s| - |t|;
    assert Trim(s) == s[i..i + |r|];
  }

  /** Cutting a blank prefix off `s` and then a blank suffix off the rest leaves a
      slice of `s` with blank text on either side. */
  lemma TrimSlice(s: string, t: string, r: string)
    requires |t| <= |s| && t == s[|s| - |t|..]
    requires forall k :: 0 <= k < |s| - |t| ==> IsSpace(s[k])
    requires |r| <= |t| && r == t[..|r|]
    requires forall k :: |r| <= k < |t| ==> IsSpace(t[k])
    ensures var i := |s| - |t|; r == s[i..i + |r|] && Blank(s[..i]) && Blank(s[i + |r|..])
  {
    var i := |s| - |t|;
    forall k | i + |r| <= k < |s|
      ensures IsSpace(s[k])
    {
      assert s[k] == t[k - i];
    }
  }

  /** Trimming adds no character. */
  lemma TrimWithout(s: string, c: char)
    requires c !in s
    ensures c !in Trim(s)
  {
    var t := TrimStart(s);
    var r := TrimEnd(t);
    assert Trim(s) == r;
    forall k | 0 <= k < |r|
      ensures r[k] != c
    {
      assert r[k] == t[k] == s[|s| - |t| + k];
    }
  }

  /** A string without white space at either end is its own trim. */
  lemma TrimUnchanged(s: string)
    requires Trimmed(s)
    ensures Trim(s) == s
  {
  }

  lemma TrimIdempotent(s: string)
    ensures Trim(Trim(s)) == Trim(s)
  {
    TrimUnchanged(Trim(s));
  }

  /** `s` is white space only. */
  predicate Blank(s: string) {
    forall i :: 0 <= i < |s| ==> IsSpace(s[i])
  }

  /** Leading white space makes no difference to the trim of a string. */
  lemma {:induction false} TrimLeadingSpace(lead: string, s: string)
    requires Blank(lead)
    ensures Trim(lead + s) == Trim(s)
  {
    if lead == [] {
      assert lead + s == s;
    } else {
      assert (lead + s)[1..] == lead[1..] + s;
      TrimLeadingSpace(lead[1..], s);
    }
  }

  /** Digit strings contain no white space, so `trim` leaves them alone. */
  lemma TrimDigits(s: string)
    requires AllDigits(s)
    ensures Trim(s) == s
  {
    TrimUnchanged(s);
  }

  /** Splitting at a one-character separator: always at least one part,
      and no part holds the separator. */
  function Split(s: string, sep: char): (parts: seq<string>)
    ensures |parts| >= 1
    ensures forall k :: 0 <= k < |parts| ==> sep !in parts[k]
  {
    if s == [] then [[]]
    else
      var rest := Split(s[1..], sep);
      if s[0] == sep then [[]] + rest else [[s[0]] + rest[0]] + rest[1..]
  }

  /** `parts.join(sep)`. */
  function Join(parts: seq<string>, sep: string): string {
    if |parts| == 0 then []
    else if |parts| == 1 then parts[0]
    else parts[0] + sep + Join(parts[1..], sep)
  }

  /** Splitting on `sep` and joining back with `sep` gives the original string. */
  lemma {:induction false} JoinSplit(s: string, sep: char)
    ensures Join(Split(s, sep), [sep]) == s
  {
    if s != [] {
      var rest := Split(s[1..], sep);
      JoinSplit(s[1..], sep);
      if s[0] != sep {
        if |rest| > 1 {
          assert rest == [rest[0]] + rest[1..];
          assert Join(rest, [sep]) == rest[0] + [sep] + Join(rest[1..], [sep]);
        }
      }
    }
  }

  lemma {:induction false} SplitNoSeparator(s: string, sep: char)
    requires sep !in s
    ensures Split(s, sep) == [s]
  {
    if s != [] {
      SplitNoSeparator(s[1..], sep);
      assert [s[0]] + s[1..] == s;
    }
  }

  /** The first part of a split is everything before the first separator. */
  lemma {:induction false} SplitAtSeparator(a: string, sep: char, b: string)
    requires sep !in a
    ensures Split(a + [sep] + b, sep) == [a] + Split(b, sep)
  {
    if a != [] {
      assert (a + [sep] + b)[0] == a[0] && (a + [sep] + b)[1..] == a[1..] + [sep] + b;
      SplitAtSeparator(a[1..], sep, b);
      assert [a[0]] + a[1..] == a;
    } else {
      assert (a + [sep] + b)[1..] == b;
    }
  }

  /** `s.includes(needle)`. */
  predicate Contains(s: string, needle: string)
    decreases |s|
  {
    StartsWith(s, needle) || (s != [] && Contains(s[1..], needle))
  }

  lemma {:induction false} ContainsSuffix(a: string, needle: string)
    ensures Contains(a + needle, needle)
  {
    if a != [] {
      assert (a + needle)[1..] == a[1..] + needle;
      ContainsSuffix(a[1..], needle);
    }
  }

  /** The capital letters `LowerChar` folds: the Latin-1 ones (A to Z, and
      U+00C0 to U+00DE except the multiplication sign) and the French Œ and Ÿ. */
  predicate IsUpper(c: char) {
    ('A' <= c <= 'Z') || ('\U{C0}' <= c <= '\U{DE}' && c != '\U{D7}') || c == '\U{152}' || c == '\U{178}'
  }

  /** `toLowerCase` on one character: a Latin-1 capital becomes its small letter
      (32 code points further), Œ becomes œ and Ÿ becomes ÿ; every other
      character is kept. */
  function LowerChar(c: char): (r: char)
    ensures IsUpper(c) ==> r != c && !IsUpper(r)
    ensures ('A' <= c <= 'Z') || ('\U{C0}' <= c <= '\U{DE}' && c != '\U{D7}') ==> r as int == c as int + 32
    ensures !IsUpper(c) ==> r == c
  {
    if ('A' <= c <= 'Z') || ('\U{C0}' <= c <= '\U{DE}' && c != '\U{D7}') then (c as int + 32) as char
    else if c == '\U{152}' then '\U{153}'
    else if c == '\U{178}' then '\U{FF}'
    else c
  }

  function Lower(s: string): (r: string)
    ensures |r| == |s|
    ensures forall i :: 0 <= i < |s| ==> r[i] == LowerChar(s[i])
  {
    if s == [] then [] else [LowerChar(s[0])] + Lower(s[1..])
  }

  /** `a` and `b` are equal once lower-cased by `Lower`. */
  predicate EqualIgnoringCase(a: string, b: string) {
    Lower(a) == Lower(b)
  }

  /** `s` with every space removed. */
  function RemoveSpaces(s: string): (r: string)
    ensures ' ' !in r
  {
    if s == [] then [] else (if s[0] == ' ' then [] else [s[0]]) + RemoveSpaces(s[1..])
  }

  lemma {:induction false} RemoveSpacesAppend(a: string, b: string)
    ensures RemoveSpaces(a + b) == RemoveSpaces(a) + RemoveSpaces(b)
  {
    if a == [] {
      assert a + b == b;
    } else {
      assert (a + b)[0] == a[0] && (a + b)[1..] == a[1..] + b;
      RemoveSpacesAppend(a[1..], b);
    }
  }

  lemma {:induction false} RemoveSpacesOfDigits(s: string)
    requires AllDigits(s)
    ensures RemoveSpaces(s) == s
  {
    if s != [] {
      RemoveSpacesOfDigits(s[1..]);
    }
  }
}

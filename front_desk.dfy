/** The front desk's phone-digit helpers: customer-id extraction, phone display
    formats, the telephone field, the sanitiser of the last-4 search box and the
    `#XXXX` ticket prefix. */
module FrontDesk {
  import opened Common
  import opened Text
  import opened Customers

  // ---------------------------------------------------------------------------
  // extractNumericId.

  /** The longest run of digits at the end of `s`. */
  function TrailingDigits(s: string): (d: string)
    ensures AllDigits(d) && EndsWith(s, d)
    ensures |d| < |s| ==> !IsDigit(s[|s| - |d| - 1])
  {
    if s == [] || !IsDigit(s[|s| - 1]) then []
    else TrailingDigits(s[..|s| - 1]) + [s[|s| - 1]]
  }

  /** `extractNumericId`: the digits after the last `/` of a `gid://` id (the
      match of `/\/(\d+)$/`), an all-digit id as it is, and nothing otherwise. */
  function ExtractNumericId(id: string): (r: Option<string>)
    ensures r.Some? ==> r.value != [] && AllDigits(r.value) && EndsWith(id, r.value)
    ensures AllDigits(id) && id != [] ==> r == Some(id)
    ensures StartsWith(id, "gid://") ==>
      (r.Some? <==> TrailingDigits(id) != [] && EndsWith(id, "/" + TrailingDigits(id)))
    ensures StartsWith(id, "gid://") && r.Some? ==> r.value == TrailingDigits(id)
    ensures !StartsWith(id, "gid://") ==> (r.Some? <==> id != [] && AllDigits(id))
  {
    if id == [] then None
    else if StartsWith(id, "gid://") then
      assert !IsDigit(id[0]) by { assert id[0] == "gid://"[0]; }
      var d := TrailingDigits(id);
      assert |d| < |id| ==> (EndsWith(id, "/" + d) <==> id[|id| - |d| - 1] == '/') by {
        if |d| < |id| {
          assert id[|id| - |d| - 1..] == [id[|id| - |d| - 1]] + id[|id| - |d|..];
        }
      }
      if d != [] && |d| < |id| && id[|id| - |d| - 1] == '/' then Some(d) else None
    else if AllDigits(id) then Some(id)
    else None
  }

  /** The trailing digits of `prefix + "/" + d` are `d`. */
  lemma {:induction false} TrailingDigitsAfterSlash(prefix: string, d: string)
    requires AllDigits(d)
    ensures TrailingDigits(prefix + "/" + d) == d
    decreases |d|
  {
    var s := prefix + "/" + d;
    if d == [] {
      assert s[|s| - 1] == '/';
    } else {
      assert s[..|s| - 1] == prefix + "/" + d[..|d| - 1];
      TrailingDigitsAfterSlash(prefix, d[..|d| - 1]);
      assert d[..|d| - 1] + [d[|d| - 1]] == d;
    }
  }

  /** A GraphQL id such as `gid://shopify/Customer/<digits>` gives back its digits. */
  lemma ExtractFromGid(prefix: string, d: string)
    requires StartsWith(prefix, "gid://")
    requires d != [] && AllDigits(d)
    ensures ExtractNumericId(prefix + "/" + d) == Some(d)
  {
    TrailingDigitsAfterSlash(prefix, d);
    var id := prefix + "/" + d;
    assert id[..6] == prefix[..6];
    assert id[|id| - |d| - 1] == '/';
  }

  /** An id that is neither a `gid://` id nor all digits gives nothing. */
  lemma ExtractRejects(id: string)
    requires !StartsWith(id, "gid://") && !AllDigits(id)
    ensures ExtractNumericId(id) == None
  {
  }

  // ---------------------------------------------------------------------------
  // Display formats.

  /** `d` in pairs of digits with one space after each full pair but the last:
      "0612345678" becomes "06 12 34 56 78", "06123" becomes "06 12 3". */
  function Pairs(d: string): (r: string)
    ensures |d| > 0 ==> |r| == |d| + (|d| - 1) / 2
    ensures |d| == 0 ==> r == []
  {
    if |d| <= 2 then d else d[..2] + " " + Pairs(d[2..])
  }

  /** Pairing only inserts spaces. */
  lemma {:induction false} PairsRemoveSpaces(d: string)
    requires AllDigits(d)
    ensures RemoveSpaces(Pairs(d)) == d
    decreases |d|
  {
    if |d| <= 2 {
      RemoveSpacesOfDigits(d);
    } else {
      var head, rest := d[..2], Pairs(d[2..]);
      assert Pairs(d) == head + " " + rest;
      PairsRemoveSpaces(d[2..]);
      RemoveSpacesAppend(head + " ", rest);
      RemoveSpacesAppend(head, " ");
      RemoveSpacesOfDigits(head);
      assert RemoveSpaces(" ") == [] by { assert " "[1..] == []; }
      assert RemoveSpaces(Pairs(d)) == head + d[2..];
      assert head + d[2..] == d;
    }
  }

  /** The spaces of a pairing are not digits. */
  lemma {:induction false} PairsDigits(d: string)
    requires AllDigits(d)
    ensures Digits(Pairs(d)) == d
    decreases |d|
  {
    if |d| <= 2 {
      DigitsOfDigits(d);
    } else {
      PairsDigits(d[2..]);
      DigitsAppend(d[..2] + " ", Pairs(d[2..]));
      DigitsAppend(d[..2], " ");
      DigitsOfDigits(d[..2]);
      assert d[..2] + d[2..] == d;
    }
  }

  /** A digit string in French national form: a leading country code `33`
      becomes the trunk prefix `0`. */
  function National(cleaned: string): string {
    if StartsWith(cleaned, "33") then "0" + cleaned[2..] else cleaned
  }

  /** The digits of a phone in French national form. */
  function NationalDigits(phone: string): (r: string)
    ensures AllDigits(r)
  {
    var cleaned := Digits(phone);
    assert StartsWith(cleaned, "33") ==> AllDigits(cleaned[2..]) by {
      if StartsWith(cleaned, "33") {
        assert forall i :: 0 <= i < |cleaned| - 2 ==> cleaned[2..][i] == cleaned[i + 2];
      }
    }
    National(cleaned)
  }

  /** `formatPhoneNumber`: a ten-digit national number in five pairs, and
      anything else as it was given. */
  function FormatPhoneNumber(phone: string): (r: string)
    ensures phone == [] ==> r == []
    ensures |NationalDigits(phone)| == 10 ==> |r| == 14
    ensures |NationalDigits(phone)| != 10 ==> r == phone
  {
    if phone == [] then []
    else
      var cleaned := NationalDigits(phone);
      if |cleaned| == 10 then Pairs(cleaned) else phone
  }

  /** The national form keeps the last four digits once it has five (with four,
      the `0` it puts in front is one of them). */
  lemma NationalKeepsLast4(cleaned: string)
    requires |National(cleaned)| >= 5
    ensures |cleaned| >= 4
    ensures Last4(National(cleaned)) == Last4(cleaned)
  {
    if StartsWith(cleaned, "33") {
      var tail := cleaned[2..];
      var national := ['0'] + tail;
      assert National(cleaned) == national;
      assert national[|national| - 4..] == tail[|tail| - 4..];
      assert tail[|tail| - 4..] == cleaned[|cleaned| - 4..];
    }
  }

  /** A formatted phone reads back as its national digits, and formatting never
      changes the index key of a phone: the displayed number is found under the
      same four digits as the stored one. */
  lemma FormatPhoneNumberSound(phone: string)
    ensures |NationalDigits(phone)| == 10 ==>
      RemoveSpaces(FormatPhoneNumber(phone)) == NationalDigits(phone)
      && Digits(FormatPhoneNumber(phone)) == NationalDigits(phone)
    ensures PhoneKey(FormatPhoneNumber(phone)) == PhoneKey(phone)
  {
    var cleaned := NationalDigits(phone);
    if phone != [] && |cleaned| == 10 {
      PairsRemoveSpaces(cleaned);
      PairsDigits(cleaned);
      NationalKeepsLast4(Digits(phone));
    }
  }

  // ---------------------------------------------------------------------------
  // The telephone field.

  /** What the field shows for the digits `value` (at most ten): the chain of
      cases by length, one space after each full pair of digits. */
  function ProgressiveDisplay(value: string): string
    requires |value| <= 10
  {
    var n := |value|;
    if n <= 2 then value
    else if n <= 4 then value[..2] + " " + value[2..]
    else if n <= 6 then value[..2] + " " + value[2..4] + " " + value[4..]
    else if n <= 8 then value[..2] + " " + value[2..4] + " " + value[4..6] + " " + value[6..]
    else value[..2] + " " + value[2..4] + " " + value[4..6] + " " + value[6..8] + " " + value[8..]
  }

  /** Past the first pair, the chain of cases shows the first pair, a space and
      the display of the rest. */
  lemma ProgressiveStep(value: string)
    requires 2 < |value| <= 10
    ensures ProgressiveDisplay(value) == value[..2] + " " + ProgressiveDisplay(value[2..])
  {
    var n := |value|;
    if n <= 4 {
    } else if n <= 6 {
      ProgressiveStep6(value);
    } else if n <= 8 {
      ProgressiveStep8(value);
    } else {
      ProgressiveStep10(value);
    }
  }

  lemma ProgressiveStep6(value: string)
    requires 4 < |value| <= 6
    ensures ProgressiveDisplay(value) == value[..2] + " " + ProgressiveDisplay(value[2..])
  {
    var rest := value[2..];
    assert ProgressiveDisplay(rest) == rest[..2] + " " + rest[2..];
    assert rest[..2] == value[2..4] && rest[2..] == value[4..];
  }

  lemma ProgressiveStep8(value: string)
    requires 6 < |value| <= 8
    ensures ProgressiveDisplay(value) == value[..2] + " " + ProgressiveDisplay(value[2..])
  {
    var rest := value[2..];
    assert ProgressiveDisplay(rest) == rest[..2] + " " + rest[2..4] + " " + rest[4..];
    assert rest[..2] == value[2..4] && rest[2..4] == value[4..6] && rest[4..] == value[6..];
  }

  lemma ProgressiveStep10(value: string)
    requires 8 < |value| <= 10
    ensures ProgressiveDisplay(value) == value[..2] + " " + ProgressiveDisplay(value[2..])
  {
    var rest := value[2..];
    assert ProgressiveDisplay(rest) == rest[..2] + " " + rest[2..4] + " " + rest[4..6] + " " + rest[6..];
    assert rest[..2] == value[2..4] && rest[2..4] == value[4..6];
    assert rest[4..6] == value[6..8] && rest[6..] == value[8..];
  }

  /** The chain of cases is the pairing. */
  lemma {:induction false} ProgressiveIsPairs(value: string)
    requires |value| <= 10
    ensures ProgressiveDisplay(value) == Pairs(value)
    decreases |value|
  {
    if |value| > 2 {
      ProgressiveStep(value);
      ProgressiveIsPairs(value[2..]);
    }
  }

  /** The field after a keystroke: what it shows and what the ticket stores. */
  datatype TelephoneField = TelephoneField(display: string, stored: string)

  /** `handleTelephoneChange` for the raw field content `input`: digits only, at
      most ten, shown progressively in pairs and cut at fourteen characters. */
  function TelephoneChange(input: string): (f: TelephoneField)
    ensures AllDigits(f.stored) && |f.stored| <= 10
    ensures StartsWith(Digits(input), f.stored)
    ensures |Digits(input)| <= 10 ==> f.stored == Digits(input)
    ensures |Digits(input)| > 10 ==> f.stored == Digits(input)[..10]
  {
    var value := Take(Digits(input), 10);
    var formatted := ProgressiveDisplay(value);
    TelephoneField(Take(formatted, 14), value)
  }

  /** The display is at most fourteen characters, never cut, and gives back the
      stored digits once its spaces are removed; retyping the display changes
      nothing. */
  lemma TelephoneFieldSound(input: string)
    ensures var f := TelephoneChange(input);
      |f.display| <= 14 && f.display == Pairs(f.stored)
      && RemoveSpaces(f.display) == f.stored
      && TelephoneChange(f.display) == f
  {
    var f := TelephoneChange(input);
    ProgressiveIsPairs(f.stored);
    PairsRemoveSpaces(f.stored);
    PairsDigits(f.stored);
  }

  /** A full ten-digit number is shown as `formatPhoneNumber` shows it. */
  lemma TelephoneMatchesFormat(d: string)
    requires AllDigits(d) && |d| == 10 && !StartsWith(d, "33")
    ensures TelephoneChange(d).display == FormatPhoneNumber(d)
  {
    DigitsOfDigits(d);
    TelephoneFieldSound(d);
  }

  // ---------------------------------------------------------------------------
  // The last-4 search box.

  /** What `handleSearchIdChange` does with the box: rewrite it, clear the
      suggestions, or search the server. */
  datatype SearchIdAction = Rewrite(value: string) | Clear | Search(last4: string)

  /** `/^\d{1,4}$/`. */
  predicate OneToFourDigits(s: string) {
    1 <= |s| <= 4 && AllDigits(s)
  }

  /** `handleSearchIdChange` for the box content `input`. */
  function SearchIdChange(input: string): (a: SearchIdAction)
    ensures a.Rewrite? <==> Trim(input) != [] && !OneToFourDigits(Trim(input))
    ensures a.Rewrite? ==> AllDigits(a.value) && StartsWith(Digits(Trim(input)), a.value)
    ensures a.Rewrite? ==> |a.value| == if |Digits(Trim(input))| < 4 then |Digits(Trim(input))| else 4
    ensures a.Search? <==> IsFourDigits(Trim(input))
    ensures a.Search? ==> a.last4 == Trim(input)
  {
    SearchValueAction(Trim(input))
  }

  /** The branches of `handleSearchIdChange` once the box content is trimmed to
      `searchValue`. */
  function SearchValueAction(searchValue: string): (a: SearchIdAction)
    ensures a.Rewrite? <==> searchValue != [] && !OneToFourDigits(searchValue)
    ensures a.Rewrite? ==> AllDigits(a.value) && StartsWith(Digits(searchValue), a.value)
    ensures a.Rewrite? ==> |a.value| == if |Digits(searchValue)| < 4 then |Digits(searchValue)| else 4
    ensures a.Search? <==> IsFourDigits(searchValue)
    ensures a.Search? ==> a.last4 == searchValue
  {
    if searchValue != [] && !OneToFourDigits(searchValue) then
      var digits := Digits(searchValue);
      var kept := Take(digits, 4);
      assert |kept| == if |digits| < 4 then |digits| else 4;
      assert !IsFourDigits(searchValue);
      Rewrite(kept)
    else if |searchValue| < 4 then
      assert !IsFourDigits(searchValue);
      Clear
    else
      assert IsFourDigits(searchValue);
      Search(searchValue)
  }

  /** The box only ever sends a key the server accepts, and a rewrite is what
      the box keeps after a second look: it is left alone or cleared. */
  lemma SearchIdChangeSound(input: string)
    ensures SearchIdChange(input).Search? ==> IsFourDigits(Trim(SearchIdChange(input).last4))
    ensures SearchIdChange(input).Rewrite? ==> !SearchIdChange(SearchIdChange(input).value).Rewrite?
  {
    var a := SearchIdChange(input);
    if a.Search? {
      TrimDigits(a.last4);
    }
    if a.Rewrite? {
      RewriteSettles(a.value);
    }
  }

  /** Up to four digits in the box are never rewritten. */
  lemma RewriteSettles(v: string)
    requires AllDigits(v) && |v| <= 4
    ensures !SearchIdChange(v).Rewrite?
  {
    TrimDigits(v);
    assert v == [] || OneToFourDigits(v);
  }

  // ---------------------------------------------------------------------------
  // The ticket prefix.

  /** The `#XXXX` prefix of the client ticket: the last four digits of the phone,
      or nothing when it has fewer than four digits. */
  function TelSuffix(telephone: string): (r: string)
    ensures r == [] || (|r| == 5 && r[0] == '#' && IsFourDigits(r[1..]))
  {
    var telDigits := Digits(telephone);
    if |telDigits| >= 4 then "#" + Last4(telDigits) else []
  }

  /** The prefix is `#` and the index key of the ticket's phone: a search with
      the four digits of a ticket finds the customer it was made for. */
  lemma TelSuffixIsKey(telephone: string)
    ensures TelSuffix(telephone) == match PhoneKey(telephone)
      case Some(k) => "#" + k
      case None => []
  {
  }
}

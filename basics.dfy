/** Values shared by the whole model: an Option type, the string operations the
    handlers and the search filter use (ASCII lower-casing, whitespace stripping,
    substring search), and the all-digits test that stands for `int(...)` on a
    path parameter. */
module Basics {

  datatype Option<+T> = None | Some(value: T)

  /** Python truthiness of an optional string (`if name:`, `if q:`): present and non-empty. */
  predicate Truthy(s: Option<string>) {
    s.Some? && s.value != ""
  }

  // ---------------------------------------------------------------------------
  // Lower-casing (`str.lower()`, restricted to ASCII)
  // ---------------------------------------------------------------------------

  predicate IsUpper(c: char) {
    'A' <= c <= 'Z'
  }

  function LowerChar(c: char): char {
    if IsUpper(c) then (c as int + 32) as char else c
  }

  /** `s.lower()`: every ASCII capital replaced by its small letter, nothing else touched. */
  function Lower(s: string): (r: string)
    ensures |r| == |s|
    ensures forall i :: 0 <= i < |s| ==> r[i] == LowerChar(s[i])
  {
    if s == [] then [] else [LowerChar(s[0])] + Lower(s[1..])
  }

  /** Lower-casing leaves no capital behind, so doing it twice changes nothing. */
  lemma LowerIsLower(s: string)
    ensures forall i :: 0 <= i < |s| ==> !IsUpper(Lower(s)[i])
    ensures Lower(Lower(s)) == Lower(s)
  {
  }

  // ---------------------------------------------------------------------------
  // Stripping (`str.strip()`, restricted to ASCII whitespace)
  // ---------------------------------------------------------------------------

  /** The ASCII characters Python's `str.isspace` accepts: tab, line feed, vertical tab,
      form feed, carriage return, the four information separators and space. */
  predicate IsSpace(c: char) {
    (9 <= c as int <= 13) || (28 <= c as int <= 32)
  }

  function StripLeft(s: string): (r: string)
    ensures |r| <= |s| && r == s[|s| - |r|..]
    ensures forall k :: 0 <= k < |s| - |r| ==> IsSpace(s[k])
    ensures r == [] || !IsSpace(r[0])
  {
    if s != [] && IsSpace(s[0]) then StripLeft(s[1..]) else s
  }

  function StripRight(s: string): (r: string)
    ensures |r| <= |s| && r == s[..|r|]
    ensures forall k :: |r| <= k < |s| ==> IsSpace(s[k])
    ensures r == [] || !IsSpace(r[|r| - 1])
  {
    if s != [] && IsSpace(s[|s| - 1]) then StripRight(s[..|s| - 1]) else s
  }

  /** `s.strip()`: the longest middle part of `s` that neither starts nor ends with
      whitespace; everything cut off on either side is whitespace. */
  function Strip(s: string): (r: string)
    ensures r == [] || (!IsSpace(r[0]) && !IsSpace(r[|r| - 1]))
    ensures exists i :: StrippedAt(s, r, i)
  {
    var left := StripLeft(s);
    var r := StripRight(left);
    assert StrippedAt(s, r, |s| - |left|);
    r
  }

  /** Stripping a string without capitals leaves none. */
  lemma StripKeepsLower(s: string)
    requires forall i :: 0 <= i < |s| ==> !IsUpper(s[i])
    ensures forall i :: 0 <= i < |Strip(s)| ==> !IsUpper(Strip(s)[i])
  {
    var r := Strip(s);
    var at :| StrippedAt(s, r, at);
    forall i | 0 <= i < |r| ensures !IsUpper(r[i]) {
      assert r[i] == s[at + i];
    }
  }

  /** `r` is the part of `s` starting at `i`, and all of `s` around it is whitespace. */
  predicate StrippedAt(s: string, r: string, i: int) {
    && 0 <= i <= i + |r| <= |s| && r == s[i..i + |r|]
    && (forall k :: 0 <= k < i ==> IsSpace(s[k]))
    && (forall k :: i + |r| <= k < |s| ==> IsSpace(s[k]))
  }

  // ---------------------------------------------------------------------------
  // Substring search (the `LIKE '%needle%'` filter)
  // ---------------------------------------------------------------------------

  predicate StartsWith(s: string, prefix: string) {
    |prefix| <= |s| && s[..|prefix|] == prefix
  }

  /** `needle` occurs in `s` at position `i`. */
  predicate OccursAt(s: string, needle: string, i: int) {
    0 <= i <= |s| - |needle| && s[i..i + |needle|] == needle
  }

  /** `needle` occurs in `s` at some index. */
  ghost predicate Occurs(s: string, needle: string) {
    exists i :: OccursAt(s, needle, i)
  }

  /** Does `needle` occur somewhere in `s`? Searched position by position. */
  predicate Contains(s: string, needle: string)
    decreases |s|
  {
    StartsWith(s, needle) || (s != [] && Contains(s[1..], needle))
  }

  /** The search agrees with the positional definition of an occurrence. */
  lemma {:induction false} ContainsIff(s: string, needle: string)
    ensures Contains(s, needle) <==> exists i :: OccursAt(s, needle, i)
    decreases |s|
  {
    if StartsWith(s, needle) {
      assert OccursAt(s, needle, 0);
    } else if s == [] {
    } else {
      ContainsIff(s[1..], needle);
      if exists i :: OccursAt(s, needle, i) {
        var i :| OccursAt(s, needle, i);
        assert i != 0;
        assert s[1..][i - 1..i - 1 + |needle|] == needle;
        assert OccursAt(s[1..], needle, i - 1);
      }
      if Contains(s[1..], needle) {
        var j :| OccursAt(s[1..], needle, j);
        assert s[j + 1..j + 1 + |needle|] == needle;
        assert OccursAt(s, needle, j + 1);
      }
    }
  }

  /** An empty needle (a query that strips to nothing) occurs in every name. */
  lemma {:induction false} EmptyNeedleMatchesAll(s: string)
    ensures Contains(s, "")
  {
    assert StartsWith(s, "");
  }

  // ---------------------------------------------------------------------------
  // Integer path parameters (`int(store_id)` / `int(item_id)`)
  // ---------------------------------------------------------------------------

  predicate IsDigit(c: char) {
    '0' <= c <= '9'
  }

  /** The value of a string of decimal digits. */
  function DigitsValue(s: string): nat
    requires forall i :: 0 <= i < |s| ==> IsDigit(s[i])
  {
    if s == [] then 0
    else
      var d := s[|s| - 1];
      assert IsDigit(d);
      DigitsValue(s[..|s| - 1]) * 10 + (d as int - '0' as int)
  }

  predicate AllDigits(s: string) {
    s != [] && forall i :: 0 <= i < |s| ==> IsDigit(s[i])
  }

  predicate IsSign(c: char) {
    c == '+' || c == '-'
  }

  /** `int(s)` on a path parameter: it succeeds exactly for a non-empty run of decimal
      digits, optionally after one sign character, and the model reads it as that number;
      `None` stands for the `ValueError` Python raises. */
  function ParseId(s: string): (r: Option<int>)
    ensures r.Some? <==> AllDigits(s) || (s != [] && IsSign(s[0]) && AllDigits(s[1..]))
    ensures r.Some? && r.value < 0 ==> s[0] == '-'
  {
    if AllDigits(s) then Some(DigitsValue(s))
    else if s != [] && IsSign(s[0]) && AllDigits(s[1..]) then
      var v: int := DigitsValue(s[1..]);
      Some(if s[0] == '-' then -v else v)
    else None
  }

  /** The decimal spelling of a number, as it appears in a URL such as `/storelists/12`. */
  function ShowNat(n: nat): (r: string)
    ensures r != [] && forall i :: 0 <= i < |r| ==> IsDigit(r[i])
  {
    var last := ['0' + (n % 10) as char];
    if n < 10 then last else ShowNat(n / 10) + last
  }

  /** Every id can be addressed: parsing the decimal spelling of `n` gives back `n`. */
  lemma {:induction false} ParseShowNat(n: nat)
    ensures ParseId(ShowNat(n)) == Some(n)
  {
    var s := ShowNat(n);
    assert s[|s| - 1] as int - '0' as int == n % 10;
    if n >= 10 {
      ParseShowNat(n / 10);
      assert s[..|s| - 1] == ShowNat(n / 10);
      assert DigitsValue(s) == (n / 10) * 10 + n % 10 == n;
    } else {
      assert s == ['0' + n as char];
      assert s[..|s| - 1] == [];
      assert DigitsValue(s) == DigitsValue([]) * 10 + n;
      assert DigitsValue(s) == n;
    }
    assert ParseId(s) == Some(DigitsValue(s));
  }

  /** A signed spelling is a number too: `-n` parses as the negative number, so such a
      path parameter passes the id check (and then addresses no row). */
  lemma {:induction false} ParseSigned(n: nat)
    ensures ParseId("-" + ShowNat(n)) == Some(0 - n as int)
    ensures ParseId("+" + ShowNat(n)) == Some(n)
  {
    ParseShowNat(n);
    var s := ShowNat(n);
    assert ("-" + s)[1..] == s && ("+" + s)[1..] == s;
    assert !IsDigit(("-" + s)[0]) && !IsDigit(("+" + s)[0]);
  }
}

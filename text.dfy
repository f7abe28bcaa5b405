/** String helpers used by the doctor directory: ASCII lower-casing, the
    substring test behind `includes`, and the leading-integer parse that
    stands for `parseInt` / `parseFloat` on the fee and experience strings. */
module Text {

  datatype Option<+T> = None | Some(value: T)

  predicate IsUpper(c: char) { 'A' <= c <= 'Z' }

  /** ASCII `toLowerCase` of one character. */
  function LowerChar(c: char): (r: char)
    ensures !IsUpper(r)
    ensures !IsUpper(c) ==> r == c
    ensures IsUpper(c) ==> r as int == c as int + 32
  {
    if IsUpper(c) then (c as int + 32) as char else c
  }

  /** ASCII `toLowerCase` of a string. */
  function ToLower(s: string): (r: string)
    ensures |r| == |s|
    ensures forall i :: 0 <= i < |s| ==> r[i] == LowerChar(s[i])
  {
    seq(|s|, i requires 0 <= i < |s| => LowerChar(s[i]))
  }

  /** Lower-casing leaves no upper-case letter, so doing it twice changes nothing. */
  lemma ToLowerIdempotent(s: string)
    ensures forall i :: 0 <= i < |s| ==> !IsUpper(ToLower(s)[i])
    ensures ToLower(ToLower(s)) == ToLower(s)
  {
  }

  predicate IsPrefix(p: string, s: string) { |p| <= |s| && s[..|p|] == p }

  /** `s.includes(p)`: `p` occurs somewhere in `s`; the empty string occurs everywhere. */
  predicate Contains(s: string, p: string)
    decreases |s|
  {
    IsPrefix(p, s) || (|s| > 0 && Contains(s[1..], p))
  }

  /** `p` occurs in `s` starting at index `i`. */
  predicate OccursAt(s: string, p: string, i: int)
  {
    0 <= i && i + |p| <= |s| && s[i..i + |p|] == p
  }

  /** An occurrence at any index is found by the scan. */
  lemma {:induction false} OccursAtContains(s: string, p: string, i: int)
    requires OccursAt(s, p, i)
    ensures Contains(s, p)
    decreases i
  {
    if i == 0 {
      assert IsPrefix(p, s);
    } else {
      assert s[1..][i - 1..i - 1 + |p|] == s[i..i + |p|];
      OccursAtContains(s[1..], p, i - 1);
    }
  }

  /** The scanning definition of Contains agrees with the positional one. */
  lemma {:induction false} ContainsIff(s: string, p: string)
    ensures Contains(s, p) <==> exists i :: OccursAt(s, p, i)
    decreases |s|
  {
    if IsPrefix(p, s) {
      assert OccursAt(s, p, 0);
    } else if |s| > 0 {
      ContainsIff(s[1..], p);
      if Contains(s[1..], p) {
        var i :| OccursAt(s[1..], p, i);
        assert s[i + 1..i + 1 + |p|] == s[1..][i..i + |p|];
        assert OccursAt(s, p, i + 1);
      }
    }
    forall i | OccursAt(s, p, i) ensures Contains(s, p) {
      OccursAtContains(s, p, i);
    }
  }

  /** Nothing longer than `s` occurs in it. */
  lemma {:induction false} ContainsNoLonger(s: string, p: string)
    ensures |p| > |s| ==> !Contains(s, p)
    decreases |s|
  {
    if |s| > 0 {
      ContainsNoLonger(s[1..], p);
    }
  }

  /** The case-insensitive `includes` of the search box: both sides lower-cased. */
  predicate ContainsIgnoringCase(s: string, p: string)
  {
    Contains(ToLower(s), ToLower(p))
  }

  /** JavaScript's `includes("")` is true for every string. */
  /** Folding the query's case first, as the page does with
      `query.toLowerCase()`, changes no match. */
  lemma {:induction false} ContainsIgnoringCaseFoldedQuery(s: string, p: string)
    ensures ContainsIgnoringCase(s, ToLower(p)) <==> ContainsIgnoringCase(s, p)
  {
    ToLowerIdempotent(p);
  }

  lemma {:induction false} ContainsEmpty(s: string)
    ensures Contains(s, "")
    ensures ContainsIgnoringCase(s, "")
  {
    assert IsPrefix("", s);
    assert IsPrefix("", ToLower(s));
  }

  // ---------------------------------------------------------------------
  // Leading-integer parse

  /** The ASCII white space `parseInt` skips before the number. */
  predicate IsSpace(c: char)
  {
    c == ' ' || c == '\t' || c == '\n' || c == '\r' || c == '\U{B}' || c == '\U{C}'
  }

  predicate IsDigit(c: char) { '0' <= c <= '9' }

  function DigitValue(c: char): (d: nat)
    requires IsDigit(c)
    ensures d < 10
  {
    c as int - '0' as int
  }

  /** Drops the white space in front of the number. */
  function TrimStart(s: string): (r: string)
    ensures |r| <= |s| && r == s[|s| - |r|..]
    ensures |r| > 0 ==> !IsSpace(r[0])
    ensures forall i :: 0 <= i < |s| - |r| ==> IsSpace(s[i])
  {
    if |s| > 0 && IsSpace(s[0]) then TrimStart(s[1..]) else s
  }

  /** The number of decimal digits at the front of `s`. */
  function DigitRun(s: string): (n: nat)
    ensures n <= |s|
    ensures forall i :: 0 <= i < n ==> IsDigit(s[i])
    ensures n < |s| ==> !IsDigit(s[n])
  {
    if |s| > 0 && IsDigit(s[0]) then 1 + DigitRun(s[1..]) else 0
  }

  /** The value of a run of decimal digits, most significant first. */
  function DigitsValue(ds: string): nat
    requires forall i :: 0 <= i < |ds| ==> IsDigit(ds[i])
  {
    if |ds| == 0 then 0 else DigitsValue(ds[..|ds| - 1]) * 10 + DigitValue(ds[|ds| - 1])
  }

  /** `parseInt(s)` in base ten: leading white space, an optional sign, then
      at least one digit; what follows the digits is ignored. `None` stands
      for `NaN`. */
  function ParseLeadingInt(s: string): (r: Option<int>)
    ensures r.None? <==> DigitRun(SignStripped(TrimStart(s))) == 0
  {
    var t := TrimStart(s);
    var body := SignStripped(t);
    var n := DigitRun(body);
    if n == 0 then None
    else
      var v: int := DigitsValue(body[..n]);
      Some(if |t| > 0 && t[0] == '-' then -v else v)
  }

  /** The string after an optional leading `+` or `-`. */
  function SignStripped(t: string): (r: string)
    ensures |t| > 0 && (t[0] == '-' || t[0] == '+') ==> r == t[1..]
    ensures !(|t| > 0 && (t[0] == '-' || t[0] == '+')) ==> r == t
  {
    if |t| > 0 && (t[0] == '-' || t[0] == '+') then t[1..] else t
  }

  // ---------------------------------------------------------------------
  // Decimal rendering: the inverse the parse is checked against

  function DigitChar(d: nat): (c: char)
    requires d < 10
    ensures IsDigit(c) && DigitValue(c) == d
  {
    ('0' as int + d) as char
  }

  /** The decimal digits of a natural number, without leading zeros. */
  function ShowNat(n: nat): (r: string)
    ensures |r| > 0
    ensures forall i :: 0 <= i < |r| ==> IsDigit(r[i])
  {
    if n < 10 then [DigitChar(n)] else ShowNat(n / 10) + [DigitChar(n % 10)]
  }

  /** A signed integer as `String(n)` writes it. */
  function ShowInt(n: int): string
  {
    if n < 0 then "-" + ShowNat(-n) else ShowNat(n)
  }

  lemma {:induction false} DigitsValueShowNat(n: nat)
    ensures DigitsValue(ShowNat(n)) == n
  {
    if n >= 10 {
      DigitsValueShowNat(n / 10);
      var r := ShowNat(n);
      assert r[..|r| - 1] == ShowNat(n / 10);
    }
  }

  /** A run of digits followed by a non-digit is read exactly to its end. */
  lemma {:induction false} DigitRunOfDigits(ds: string, rest: string)
    requires forall i :: 0 <= i < |ds| ==> IsDigit(ds[i])
    requires |rest| > 0 ==> !IsDigit(rest[0])
    ensures DigitRun(ds + rest) == |ds|
    decreases |ds|
  {
    if |ds| > 0 {
      assert (ds + rest)[1..] == ds[1..] + rest;
      DigitRunOfDigits(ds[1..], rest);
    } else {
      assert ds + rest == rest;
    }
  }

  /** White space in front of a string that starts with something else is
      skipped entirely. */
  lemma {:induction false} TrimStartSpaces(ws: string, t: string)
    requires forall i :: 0 <= i < |ws| ==> IsSpace(ws[i])
    requires |t| > 0 && !IsSpace(t[0])
    ensures TrimStart(ws + t) == t
    decreases |ws|
  {
    if |ws| == 0 {
      assert ws + t == t;
    } else {
      assert (ws + t)[1..] == ws[1..] + t;
      TrimStartSpaces(ws[1..], t);
    }
  }

  /** The parse of a string whose trimmed, sign-stripped form is a run of
      digits followed by a non-digit. */
  lemma {:induction false} ParseDigitsBody(s: string, ds: string, rest: string)
    requires |ds| > 0 && forall i :: 0 <= i < |ds| ==> IsDigit(ds[i])
    requires |rest| > 0 ==> !IsDigit(rest[0])
    requires SignStripped(TrimStart(s)) == ds + rest
    ensures ParseLeadingInt(s) == Some(if |TrimStart(s)| > 0 && TrimStart(s)[0] == '-' then -(DigitsValue(ds) as int) else DigitsValue(ds) as int)
  {
    var body := SignStripped(TrimStart(s));
    DigitRunOfDigits(ds, rest);
    assert DigitRun(body) == |ds|;
    assert body[..|ds|] == ds;
  }

  /** The value the parse reads: any leading white space, an optional sign,
      a non-empty run of digits (leading zeros allowed) and any text that
      does not start with a digit give the digits' value, negated after `-`. */
  lemma {:induction false} ParseLeadingIntValue(ws: string, sign: string, ds: string, rest: string)
    requires forall i :: 0 <= i < |ws| ==> IsSpace(ws[i])
    requires sign == "" || sign == "+" || sign == "-"
    requires |ds| > 0 && forall i :: 0 <= i < |ds| ==> IsDigit(ds[i])
    requires |rest| > 0 ==> !IsDigit(rest[0])
    ensures ParseLeadingInt(ws + sign + ds + rest) == Some(if sign == "-" then -(DigitsValue(ds) as int) else DigitsValue(ds) as int)
  {
    var t := sign + (ds + rest);
    assert ws + sign + ds + rest == ws + t;
    assert t[0] == if sign == "" then ds[0] else sign[0];
    TrimStartSpaces(ws, t);
    if sign == "" {
      assert t == ds + rest;
    } else {
      assert t[1..] == ds + rest;
    }
    ParseDigitsBody(ws + t, ds, rest);
  }

  /** Round trip: the parse reads back the number a record's string starts
      with, whatever unit text follows it (as in "10 years"). */
  lemma {:induction false} ParseShowInt(n: int, rest: string)
    requires |rest| > 0 ==> !IsDigit(rest[0])
    ensures ParseLeadingInt(ShowInt(n) + rest) == Some(n)
  {
    var m: nat := if n < 0 then -n else n;
    var ds := ShowNat(m);
    var s := ShowInt(n) + rest;
    assert !IsSpace(s[0]);
    assert TrimStart(s) == s;
    var body := SignStripped(s);
    if n < 0 {
      assert s == "-" + (ds + rest);
      assert body == ds + rest;
    } else {
      assert s == ds + rest;
      assert body == ds + rest;
    }
    DigitRunOfDigits(ds, rest);
    assert body[..DigitRun(body)] == ds;
    DigitsValueShowNat(m);
  }
}

/** Text classification used only for tie-breaking: `_norm_tipo` maps the
    "TIPO NITRIF" text to a product class, `_norm_nitrif` reads the "NITRIF" cell
    as an integer when it is one. */
module Classify {
  import opened Options

  datatype Kind = Iberico | Blanco | Other

  /** A spreadsheet cell as the engine can meet it. */
  datatype Cell = Blank | Number(n: int) | Text(t: string)

  /** The whitespace `str.strip()` removes, restricted to the ASCII range:
      tab, line feed, vertical tab, form feed, carriage return, the four
      separators 0x1C-0x1F, and the space. */
  predicate IsSpace(c: char) {
    (9 <= c as int <= 13) || (28 <= c as int <= 31) || c == ' '
  }

  /** Index of the first character that is not whitespace (|s| when none). */
  function StripStart(s: string): (a: nat)
    ensures a <= |s|
    ensures forall k :: 0 <= k < a ==> IsSpace(s[k])
    ensures a < |s| ==> !IsSpace(s[a])
  {
    if |s| == 0 || !IsSpace(s[0]) then 0
    else
      var a := 1 + StripStart(s[1..]);
      assert forall k :: 1 <= k < a ==> s[k] == s[1..][k - 1];
      a
  }

  /** One past the last character that is not whitespace (0 when none). */
  function StripEnd(s: string): (b: nat)
    ensures b <= |s|
    ensures forall k :: b <= k < |s| ==> IsSpace(s[k])
    ensures 0 < b ==> !IsSpace(s[b - 1])
  {
    if |s| == 0 || !IsSpace(s[|s| - 1]) then |s|
    else
      var b := StripEnd(s[..|s| - 1]);
      assert forall k :: 0 <= k < |s| - 1 ==> s[k] == s[..|s| - 1][k];
      b
  }

  /** `str.strip()`. */
  function Strip(s: string): (r: string)
    ensures |r| <= |s|
  {
    var a := StripStart(s);
    var b := StripEnd(s);
    if a < b then s[a..b] else []
  }

  /** `str.upper()` on ASCII letters; every other character stays. */
  function UpperChar(c: char): (u: char)
    ensures IsSpace(u) <==> IsSpace(c)
  {
    if 'a' <= c <= 'z' then (c as int - 32) as char else c
  }

  function Upper(s: string): (r: string)
    ensures |r| == |s|
    ensures forall k :: 0 <= k < |s| ==> r[k] == UpperChar(s[k])
  {
    seq(|s|, k requires 0 <= k < |s| => UpperChar(s[k]))
  }

  /** `p` occurs in `t` starting at index `i`. */
  predicate OccursAt(p: string, t: string, i: int) {
    0 <= i <= |t| - |p| && t[i..i + |p|] == p
  }

  /** `p in t` for strings: `p` occurs in `t` as a contiguous piece. */
  predicate Occurs(p: string, t: string) {
    exists i :: 0 <= i <= |t| && OccursAt(p, t, i)
  }

  /** `_norm_tipo`: strip, upper-case, then "IBER" anywhere means Ibérico, else
      "BLAN" anywhere means Blanco, else Other. */
  function NormKind(text: string): Kind {
    var s := Upper(Strip(text));
    if Occurs("IBER", s) then Iberico
    else if Occurs("BLAN", s) then Blanco
    else Other
  }

  predicate HasNoSpace(p: string) {
    forall k :: 0 <= k < |p| ==> !IsSpace(p[k])
  }

  /** Removing whitespace from both ends of a text can neither create nor destroy
      an occurrence of a non-empty pattern without whitespace. */
  lemma OccursInTrimmed(p: string, t: string, a: nat, b: nat)
    requires 0 < |p| && HasNoSpace(p)
    requires a <= b <= |t|
    requires forall k :: 0 <= k < a ==> IsSpace(t[k])
    requires forall k :: b <= k < |t| ==> IsSpace(t[k])
    ensures Occurs(p, t[a..b]) <==> Occurs(p, t)
  {
    if Occurs(p, t[a..b]) {
      var i :| 0 <= i <= b - a && OccursAt(p, t[a..b], i);
      OccurrenceWidens(p, t, a, b, i);
    }
    if Occurs(p, t) {
      var i :| 0 <= i <= |t| && OccursAt(p, t, i);
      OccurrenceNarrows(p, t, a, b, i);
    }
  }

  lemma OccurrenceWidens(p: string, t: string, a: nat, b: nat, i: int)
    requires a <= b <= |t|
    requires OccursAt(p, t[a..b], i)
    ensures OccursAt(p, t, a + i)
  {
    var w := t[a..b][i..i + |p|];
    assert forall k :: 0 <= k < |p| ==> w[k] == t[a + i + k];
    assert t[a + i..a + i + |p|] == w;
  }

  lemma OccurrenceNarrows(p: string, t: string, a: nat, b: nat, i: int)
    requires 0 < |p| && HasNoSpace(p)
    requires a <= b <= |t|
    requires forall k :: 0 <= k < a ==> IsSpace(t[k])
    requires forall k :: b <= k < |t| ==> IsSpace(t[k])
    requires OccursAt(p, t, i)
    ensures OccursAt(p, t[a..b], i - a)
  {
    assert t[i] == t[i..i + |p|][0] == p[0];
    assert t[i + |p| - 1] == t[i..i + |p|][|p| - 1] == p[|p| - 1];
    assert a <= i && i + |p| <= b;
    var w := t[a..b][i - a..i - a + |p|];
    assert forall k :: 0 <= k < |p| ==> w[k] == t[i + k];
    assert w == t[i..i + |p|];
  }

  lemma UpperOfSlice(s: string, a: nat, b: nat)
    requires a <= b <= |s|
    ensures Upper(s[a..b]) == Upper(s)[a..b]
  {
  }

  lemma NoOccurrenceInSpaces(p: string, t: string)
    requires 0 < |p| && HasNoSpace(p)
    requires forall k :: 0 <= k < |t| ==> IsSpace(t[k])
    ensures !Occurs(p, t)
  {
    forall i | 0 <= i <= |t|
      ensures !OccursAt(p, t, i)
    {
      if i + |p| <= |t| {
        assert t[i..i + |p|][0] == t[i];
      }
    }
  }

  /** Surrounding whitespace never changes the class: the classification is that
      of the upper-cased text as it stands. */
  lemma StripDoesNotChangeKind(text: string)
    ensures NormKind(text) == (if Occurs("IBER", Upper(text)) then Iberico
                               else if Occurs("BLAN", Upper(text)) then Blanco
                               else Other)
  {
    StripKeepsOccurrence("IBER", text);
    StripKeepsOccurrence("BLAN", text);
  }

  /** A pattern without whitespace occurs in the stripped upper-cased text exactly
      when it occurs in the upper-cased text. */
  lemma StripKeepsOccurrence(p: string, text: string)
    requires 0 < |p| && HasNoSpace(p)
    ensures Occurs(p, Upper(Strip(text))) <==> Occurs(p, Upper(text))
  {
    var a := StripStart(text);
    var b := StripEnd(text);
    var u := Upper(text);
    if a < b {
      UpperOfSlice(text, a, b);
      OccursInTrimmed(p, u, a, b);
    } else {
      BlankText(text);
      NoOccurrenceInSpaces(p, u);
      assert Strip(text) == [];
      NoOccurrenceInSpaces(p, []);
    }
  }

  /** When nothing is left after stripping, the text is all whitespace. */
  lemma BlankText(text: string)
    requires StripEnd(text) <= StripStart(text)
    ensures forall k :: 0 <= k < |Upper(text)| ==> IsSpace(Upper(text)[k])
  {
    var a := StripStart(text);
    assert a == |text| by {
      if a < |text| {
        assert false;
      }
    }
  }

  /** Upper-casing is idempotent, so the classification ignores letter case. */
  lemma NormKindIgnoresCase(text: string)
    ensures NormKind(Upper(text)) == NormKind(text)
  {
    StripDoesNotChangeKind(text);
    StripDoesNotChangeKind(Upper(text));
    assert Upper(Upper(text)) == Upper(text);
  }

  predicate IsDigit(c: char) {
    '0' <= c <= '9'
  }

  predicate AllDigits(s: string) {
    forall k :: 0 <= k < |s| ==> IsDigit(s[k])
  }

  /** The value of a string of decimal digits. */
  function DigitsValue(s: string): (n: nat)
    requires AllDigits(s)
  {
    if |s| == 0 then 0
    else DigitsValue(s[..|s| - 1]) * 10 + (s[|s| - 1] as int - '0' as int)
  }

  /** `int(text)` for a text: optional sign then at least one digit, after
      stripping surrounding whitespace; anything else fails (None). */
  function ParseInt(text: string): Option<int> {
    var s := Strip(text);
    if |s| > 0 && (s[0] == '-' || s[0] == '+') && |s| > 1 && AllDigits(s[1..]) then
      Some(if s[0] == '-' then -(DigitsValue(s[1..]) as int) else DigitsValue(s[1..]) as int)
    else if |s| > 0 && AllDigits(s) then Some(DigitsValue(s))
    else None
  }

  /** `_norm_nitrif`: an integer cell is itself, a text is parsed, a blank is None. */
  function NormNitrif(c: Cell): Option<int> {
    match c
    case Blank => None
    case Number(n) => Some(n)
    case Text(t) => ParseInt(t)
  }

  /** The decimal digits of a natural number (no leading zeros). */
  function Digits(n: nat): (s: string)
    ensures |s| > 0 && AllDigits(s)
    decreases n
  {
    if n < 10 then [('0' as int + n) as char]
    else Digits(n / 10) + [('0' as int + n % 10) as char]
  }

  /** `str(n)` for an integer. */
  function Decimal(n: int): string {
    if n < 0 then "-" + Digits(-n) else Digits(n)
  }

  lemma {:induction false} DigitsRoundTrip(n: nat)
    ensures DigitsValue(Digits(n)) == n
    decreases n
  {
    if n >= 10 {
      DigitsRoundTrip(n / 10);
      var s := Digits(n);
      assert s[..|s| - 1] == Digits(n / 10);
    }
  }

  lemma StripOfNoSpace(s: string)
    requires |s| > 0 && !IsSpace(s[0]) && !IsSpace(s[|s| - 1])
    ensures Strip(s) == s
  {
    assert StripStart(s) == 0;
    assert StripEnd(s) == |s|;
  }

  /** Reading back what `str` writes gives the number: a text cell holding the
      decimal form of `n` normalises to `n`. */
  lemma NitrifRoundTrip(n: int)
    ensures NormNitrif(Text(Decimal(n))) == Some(n)
  {
    var s := Decimal(n);
    if n < 0 {
      var d := Digits(-n);
      DigitsRoundTrip(-n);
      assert s == "-" + d;
      assert s[1..] == d;
      assert s[|s| - 1] == d[|d| - 1];
      StripOfNoSpace(s);
    } else {
      DigitsRoundTrip(n);
      StripOfNoSpace(s);
    }
  }
}

/** Python's `int(text)` on a decimal string, as `delete_by_query` applies it to the `id` query
    parameter: surrounding whitespace (the `str.isspace` characters except the four separators
    U+001C to U+001F, which `int()` does not skip), an optional sign, and ASCII digits that single
    underscores may separate. Anything else raises `ValueError` (here: `None`). */
module PyInt {
  import opened Wrappers
  import Serializer

  predicate IsDigit(c: char)
  {
    '0' <= c <= '9'
  }

  /** The whitespace `int()` skips around its digits: CPython maps every non-ASCII `isspace`
      character to a space and then skips only tab, LF, VT, FF, CR and space, so the ASCII
      separators U+001C to U+001F, which `str.isspace` accepts, are not skipped. */
  predicate IsIntSpace(c: char)
  {
    Serializer.IsSpace(c) && !('\U{1C}' <= c <= '\U{1F}')
  }

  function TrimLeft(s: string): string
    decreases |s|
  {
    if s != [] && IsIntSpace(s[0]) then TrimLeft(s[1..]) else s
  }

  function TrimRight(s: string): string
    decreases |s|
  {
    if s != [] && IsIntSpace(s[|s| - 1]) then TrimRight(s[..|s| - 1]) else s
  }

  /** The text `int()` parses once the surrounding whitespace is skipped. */
  function Trim(s: string): string
  {
    TrimRight(TrimLeft(s))
  }

  /** A string that neither starts nor ends with whitespace `int()` skips is left as it is. */
  lemma TrimUnpadded(s: string)
    requires s != [] && !IsIntSpace(s[0]) && !IsIntSpace(s[|s| - 1])
    ensures Trim(s) == s
  {
    assert TrimLeft(s) == s;
  }

  /** Digits, with single underscores allowed only between two digits. */
  predicate WellFormedDigits(s: string)
  {
    && |s| > 0
    && IsDigit(s[0]) && IsDigit(s[|s| - 1])
    && (forall i :: 0 <= i < |s| ==> IsDigit(s[i]) || s[i] == '_')
    && (forall i :: 0 <= i < |s| - 1 ==> !(s[i] == '_' && s[i + 1] == '_'))
  }

  function RemoveUnderscores(s: string): string
    decreases |s|
  {
    if s == [] then []
    else
      var rest := RemoveUnderscores(s[..|s| - 1]);
      if s[|s| - 1] == '_' then rest else rest + [s[|s| - 1]]
  }

  /** The value of a string of decimal digits. */
  function DigitsValue(s: string): nat
    decreases |s|
  {
    if s == [] then 0
    else
      var c := s[|s| - 1];
      var d := if IsDigit(c) then (c as int - '0' as int) else 0;
      10 * DigitsValue(s[..|s| - 1]) + d
  }

  /** `int(text)`. */
  function ParseInt(text: string): (r: Option<int>)
    ensures r.Some? ==> Trim(text) != []
  {
    var t := Trim(text);
    var signed := |t| > 0 && (t[0] == '-' || t[0] == '+');
    var body := if signed then t[1..] else t;
    if !WellFormedDigits(body) then None
    else
      var v: int := DigitsValue(RemoveUnderscores(body));
      Some(if signed && t[0] == '-' then -v else v)
  }

  function DigitChar(d: nat): char
    requires d < 10
  {
    ('0' as int + d) as char
  }

  /** `str(n)` for a natural number. */
  function Show(n: nat): (s: string)
    ensures |s| > 0 && forall i :: 0 <= i < |s| ==> IsDigit(s[i])
    decreases n
  {
    if n < 10 then [DigitChar(n)] else Show(n / 10) + [DigitChar(n % 10)]
  }

  lemma {:induction false} DigitsValueOfShow(n: nat)
    ensures DigitsValue(Show(n)) == n
    decreases n
  {
    if n >= 10 {
      DigitsValueOfShow(n / 10);
      assert Show(n)[..|Show(n)| - 1] == Show(n / 10);
    }
  }

  lemma {:induction false} RemoveUnderscoresOfDigits(s: string)
    requires forall i :: 0 <= i < |s| ==> IsDigit(s[i])
    ensures RemoveUnderscores(s) == s
    decreases |s|
  {
    if s != [] {
      RemoveUnderscoresOfDigits(s[..|s| - 1]);
      assert s[..|s| - 1] + [s[|s| - 1]] == s;
    }
  }

  /** `int(str(n)) == n`: the id a user was created under reads back as that id. */
  lemma ParseShow(n: nat)
    ensures ParseInt(Show(n)) == Some(n)
  {
    var s := Show(n);
    assert IsDigit(s[0]) && IsDigit(s[|s| - 1]);
    TrimUnpadded(s);
    RemoveUnderscoresOfDigits(s);
    DigitsValueOfShow(n);
  }

  /** `int()` skips a leading space or tab but not a leading information separator:
      `int(" 5") == 5`, `int("\t5") == 5` and `int("\x1c5")` raises. */
  lemma ParseSkipsOnlyIntSpace()
    ensures ParseInt(" 5") == Some(5)
    ensures ParseInt("\t5") == Some(5)
    ensures ParseInt("\U{1C}5") == None
  {
    assert TrimLeft(" 5") == "5" by { assert " 5"[1..] == "5"; }
    assert TrimLeft("\t5") == "5" by { assert "\t5"[1..] == "5"; }
    assert Trim("\U{1C}5") == "\U{1C}5";
    ParseShow(5);
  }

  /** `int("-" + str(n)) == -n`. */
  lemma ParseNegativeShow(n: nat)
    ensures ParseInt("-" + Show(n)) == Some(-(n as int))
  {
    var s := Show(n);
    var t := "-" + s;
    assert t[0] == '-' && t[|t| - 1] == s[|s| - 1] && IsDigit(s[|s| - 1]);
    TrimUnpadded(t);
    assert t[1..] == s;
    RemoveUnderscoresOfDigits(s);
    DigitsValueOfShow(n);
  }
}

/** Value types shared by every module. */
module Prelude {
  datatype Option<+T> = None | Some(value: T)

  /** The label and annotation sets an alert carries. */
  type Labels = map<string, string>

  /** The regular-expression engine, one predicate for Go and for PostgreSQL:
      `rx(pattern, text)`. */
  type Regex = (string, string) -> bool

  /** A label read the way group keys and equality filters read it: absent is empty. */
  function LabelOrEmpty(labels: Labels, name: string): (value: string)
  {
    if name in labels then labels[name] else ""
  }

  function Max(a: int, b: int): (m: int)
    ensures m == a || m == b
    ensures a <= m && b <= m
  {
    if a < b then b else a
  }

  function Min(a: int, b: int): (m: int)
    ensures m == a || m == b
    ensures m <= a && m <= b
  {
    if a < b then a else b
  }

  predicate IsDigit(c: char) { '0' <= c <= '9' }

  predicate AllDigits(s: string) { forall i | 0 <= i < |s| :: IsDigit(s[i]) }

  function DigitsValue(s: string): (n: nat)
    requires forall i | 0 <= i < |s| :: IsDigit(s[i])
  {
    if s == "" then 0
    else
      var last := s[|s| - 1];
      assert IsDigit(last);
      10 * DigitsValue(s[..|s| - 1]) + (last as int - '0' as int)
  }

  function Digit(d: nat): (c: char)
    requires d < 10
    ensures IsDigit(c) && c as int - '0' as int == d
  {
    ('0' as int + d) as char
  }

  function Decimal(n: nat): (s: string)
    ensures s != "" && forall i | 0 <= i < |s| :: IsDigit(s[i])
    ensures DigitsValue(s) == n
  {
    if n < 10 then
      assert [Digit(n)][..0] == "";
      [Digit(n)]
    else
      var front := Decimal(n / 10);
      assert (front + [Digit(n % 10)])[..|front|] == front;
      front + [Digit(n % 10)]
  }

  /** Decimal text with an optional sign, as Go and PostgreSQL both read it. */
  function ParseInt(text: string): (n: Option<int>)
  {
    if text == "" then None
    else
      var digits := if text[0] == '+' || text[0] == '-' then text[1..] else text;
      if digits == "" || !AllDigits(digits) then None
      else
        var n: int := DigitsValue(digits);
        Some(if text[0] == '-' then -n else n)
  }

  lemma ParseDecimal(n: nat)
    ensures ParseInt(Decimal(n)) == Some(n)
  {
    assert IsDigit(Decimal(n)[0]);
  }

  lemma ParseSigned(n: nat)
    ensures ParseInt("+" + Decimal(n)) == Some(n)
    ensures var m := ParseInt("-" + Decimal(n)); m.Some? && m.value == -(n as int)
  {
    assert ("+" + Decimal(n))[1..] == Decimal(n) && ("-" + Decimal(n))[1..] == Decimal(n);
  }

  lemma NotANumber(text: string, i: nat)
    requires i < |text| && !IsDigit(text[i]) && (i == 0 ==> text[0] != '+' && text[0] != '-')
    ensures ParseInt(text) == None
  {
    if text[0] == '+' || text[0] == '-' {
      assert text[1..][i - 1] == text[i];
      assert !AllDigits(text[1..]);
    }
  }

  ghost predicate NoRepeats<T>(s: seq<T>)
  {
    forall i, j | 0 <= i < j < |s| :: s[i] != s[j]
  }

  /** Each of these passes a test with its partner at the same place. */
  ghost predicate Paired<A(!new), B(!new)>(test: (A, B) -> bool, partners: seq<A>, s: seq<B>)
  {
    |s| <= |partners| && forall i | 0 <= i < |s| :: test(partners[i], s[i])
  }

  lemma PairOneMore<A(!new), B(!new)>(test: (A, B) -> bool, partners: seq<A>, s: seq<B>, x: B)
    requires Paired(test, partners, s) && |s| < |partners| && test(partners[|s|], x)
    ensures Paired(test, partners, s + [x])
  {
    forall i | 0 <= i < |s + [x]| ensures test(partners[i], (s + [x])[i]) {
    }
  }

  lemma PairFewer<A(!new), B(!new)>(test: (A, B) -> bool, partners: seq<A>, s: seq<B>, n: nat)
    requires Paired(test, partners, s) && n <= |s|
    ensures Paired(test, partners[..n], s[..n])
    ensures n > 0 ==> test(partners[n - 1], s[n - 1])
  {
    forall i | 0 <= i < n ensures test(partners[..n][i], s[..n][i]) {
      assert test(partners[i], s[i]);
    }
  }
}

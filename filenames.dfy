/** Case numbers carried in image file names: the first run of decimal digits
    of a name is its case number, and a name without digits is case 0. */
module Filenames {

  predicate IsDigit(c: char) {
    '0' <= c <= '9'
  }

  function DigitValue(c: char): (d: nat)
    requires IsDigit(c)
    ensures d < 10
  {
    c as int - '0' as int
  }

  function DigitChar(d: nat): (c: char)
    requires d < 10
    ensures IsDigit(c) && DigitValue(c) == d
  {
    ('0' as int + d) as char
  }

  predicate AllDigits(s: string) {
    forall k :: 0 <= k < |s| ==> IsDigit(s[k])
  }

  predicate NoDigits(s: string) {
    forall k :: 0 <= k < |s| ==> !IsDigit(s[k])
  }

  /** The number a digit string spells, most significant digit first (leading zeros allowed). */
  function DigitsValue(s: string): nat
    requires AllDigits(s)
  {
    if s == [] then 0 else DigitsValue(s[..|s| - 1]) * 10 + DigitValue(s[|s| - 1])
  }

  /** The shortest decimal spelling of n, as Python's str(n) writes it. */
  function Decimal(n: nat): (s: string)
    ensures |s| >= 1 && AllDigits(s)
    ensures n > 0 ==> s[0] != '0'
  {
    if n < 10 then [DigitChar(n)] else Decimal(n / 10) + [DigitChar(n % 10)]
  }

  /** s[i..j] is the first maximal run of digits in s: the first match of the regular expression \d+. */
  predicate IsFirstRun(s: string, i: nat, j: nat) {
    && i < j <= |s|
    && NoDigits(s[..i])
    && AllDigits(s[i..j])
    && (j == |s| || !IsDigit(s[j]))
  }

  /** Index of the first digit at or after `from`, or |s| when there is none. */
  function FirstDigit(s: string, from: nat): (i: nat)
    requires from <= |s|
    ensures from <= i <= |s|
    ensures forall k :: from <= k < i ==> !IsDigit(s[k])
    ensures i < |s| ==> IsDigit(s[i])
    decreases |s| - from
  {
    if from == |s| || IsDigit(s[from]) then from else FirstDigit(s, from + 1)
  }

  /** End of the run of digits that starts at `from`. */
  function RunEnd(s: string, from: nat): (j: nat)
    requires from <= |s|
    ensures from <= j <= |s|
    ensures forall k :: from <= k < j ==> IsDigit(s[k])
    ensures j < |s| ==> !IsDigit(s[j])
    decreases |s| - from
  {
    if from == |s| || !IsDigit(s[from]) then from else RunEnd(s, from + 1)
  }

  /** extract_number: re.findall(r'\d+', name), first match converted by int(), or 0. */
  function ExtractNumber(name: string): (n: nat)
    ensures NoDigits(name) ==> n == 0
    ensures forall i: nat, j: nat :: IsFirstRun(name, i, j) ==> n == DigitsValue(name[i..j])
  {
    var i := FirstDigit(name, 0);
    if i == |name| then
      assert forall i': nat, j': nat :: IsFirstRun(name, i', j') ==> name[i'..j'][0] == name[i'];
      0
    else
      var j := RunEnd(name, i);
      assert IsFirstRun(name, i, j) by {
        assert forall k :: 0 <= k < i ==> name[..i][k] == name[k];
        assert forall k :: 0 <= k < j - i ==> name[i..j][k] == name[i + k];
      }
      FirstRunUnique(name, i, j);
      DigitsValue(name[i..j])
  }

  /** A name with a digit has a first maximal run of digits, and extract_number returns its value. */
  lemma ExtractNumberSpec(name: string)
    requires !NoDigits(name)
    ensures exists i: nat, j: nat :: IsFirstRun(name, i, j) && ExtractNumber(name) == DigitsValue(name[i..j])
  {
    var i := FirstDigit(name, 0);
    var j := RunEnd(name, i);
    assert IsFirstRun(name, i, j) by {
      assert forall k :: 0 <= k < i ==> name[..i][k] == name[k];
      assert forall k :: 0 <= k < j - i ==> name[i..j][k] == name[i + k];
    }
  }

  /** The first run, stated index by index on s itself. */
  lemma FirstRunAt(s: string, i: nat, j: nat)
    requires IsFirstRun(s, i, j)
    ensures forall k :: 0 <= k < i ==> !IsDigit(s[k])
    ensures forall k :: i <= k < j ==> IsDigit(s[k])
  {
  }

  /** The first run is unique: any two descriptions of it name the same slice. */
  lemma FirstRunUnique(s: string, i: nat, j: nat)
    requires IsFirstRun(s, i, j)
    ensures forall i': nat, j': nat :: IsFirstRun(s, i', j') ==> i' == i && j' == j
  {
    FirstRunAt(s, i, j);
    forall i': nat, j': nat | IsFirstRun(s, i', j') ensures i' == i && j' == j {
      FirstRunAt(s, i', j');
      assert IsDigit(s[i]) && IsDigit(s[i']);
    }
  }

  /** Reading back the decimal spelling of n gives n. */
  lemma {:induction false} DecimalValue(n: nat)
    ensures DigitsValue(Decimal(n)) == n
  {
    if n >= 10 {
      var d := Decimal(n / 10);
      DecimalValue(n / 10);
      assert (d + [DigitChar(n % 10)])[..|d|] == d;
    }
  }

  /** A number written into a name between a digit-free prefix and a suffix that does not
      continue the run is the number extract_number finds in it. */
  lemma ExtractNumberOfDecimal(prefix: string, n: nat, suffix: string)
    requires NoDigits(prefix)
    requires suffix == [] || !IsDigit(suffix[0])
    ensures ExtractNumber(prefix + Decimal(n) + suffix) == n
  {
    var d := Decimal(n);
    var s := prefix + d + suffix;
    var i, j := |prefix|, |prefix| + |d|;
    assert s[..i] == prefix;
    assert s[i..j] == d;
    assert j < |s| ==> s[j] == suffix[0];
    assert IsFirstRun(s, i, j);
    DecimalValue(n);
  }
}

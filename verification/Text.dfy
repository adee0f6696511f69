/** C-string searches and decimal numbers, as far as the parsers use them. */
module Text {

  /** strchr(): the first position of `c`, or the length of `s` if there is none. */
  function IndexOf(s: string, c: char): (i: nat)
    ensures i <= |s|
    ensures i < |s| ==> s[i] == c
    ensures forall j :: 0 <= j < i ==> s[j] != c
  {
    if s == "" || s[0] == c then 0 else 1 + IndexOf(s[1..], c)
  }

  /** strrchr(): the last position of `c`, or the length of `s` if there is none. */
  function LastIndexOf(s: string, c: char): (i: nat)
    ensures i <= |s|
    ensures i < |s| ==> s[i] == c
    ensures forall j :: i < j < |s| ==> s[j] != c
    ensures i == |s| ==> c !in s
  {
    if s == "" then 0
    else
      var n := |s| - 1;
      if s[n] == c then n
      else
        var i := LastIndexOf(s[..n], c);
        if i == n then |s| else i
  }

  lemma FirstIs(s: string, c: char, i: nat)
    requires i <= |s| && c !in s[..i] && (i < |s| ==> s[i] == c)
    ensures IndexOf(s, c) == i
  {
    assert forall j :: 0 <= j < i ==> s[j] == s[..i][j] != c;
  }

  lemma LastIs(s: string, c: char, i: nat)
    requires i < |s| && s[i] == c && c !in s[i + 1..]
    ensures LastIndexOf(s, c) == i
  {
    assert forall j :: i < j < |s| ==> s[j] == s[i + 1..][j - i - 1] != c;
  }

  /** The white space that QoreString::trim() removes. */
  predicate IsBlank(c: char) {
    c == ' ' || c == '\t' || c == '\n' || c == '\r' || c == 11 as char
  }

  function TrimTrailing(s: string): string {
    if s != "" && IsBlank(s[|s| - 1]) then TrimTrailing(s[..|s| - 1]) else s
  }

  function TrimLeading(s: string): string {
    if s != "" && IsBlank(s[0]) then TrimLeading(s[1..]) else s
  }

  function Trim(s: string): string {
    TrimLeading(TrimTrailing(s))
  }

  predicate Trimmed(s: string) {
    s != "" ==> !IsBlank(s[0]) && !IsBlank(s[|s| - 1])
  }

  lemma TrimOfTrimmed(s: string)
    requires Trimmed(s)
    ensures Trim(s) == s
  {
  }

  predicate AllBlank(s: string) {
    forall i :: 0 <= i < |s| ==> IsBlank(s[i])
  }

  lemma {:induction false} TrimTrailingIs(s: string, right: string)
    requires AllBlank(right) && (s != "" ==> !IsBlank(s[|s| - 1]))
    ensures TrimTrailing(s + right) == s
  {
    if right == "" {
      assert s + right == s;
    } else {
      var n := |right| - 1;
      assert (s + right)[..|s| + n] == s + right[..n];
      TrimTrailingIs(s, right[..n]);
    }
  }

  lemma {:induction false} TrimLeadingIs(left: string, s: string)
    requires AllBlank(left) && (s != "" ==> !IsBlank(s[0]))
    ensures TrimLeading(left + s) == s
  {
    if left == "" {
      assert left + s == s;
    } else {
      assert (left + s)[1..] == left[1..] + s;
      TrimLeadingIs(left[1..], s);
    }
  }

  /** Trimming takes off exactly the white space at both ends. */
  lemma TrimIs(left: string, s: string, right: string)
    requires AllBlank(left) && AllBlank(right) && Trimmed(s)
    ensures Trim(left + s + right) == s
  {
    if s == "" {
      assert left + s + right == "" + (left + right);
      TrimTrailingIs("", left + right);
    } else {
      TrimTrailingIs(left + s, right);
      TrimLeadingIs(left, s);
    }
  }

  predicate IsDigit(c: char) {
    '0' <= c <= '9'
  }

  predicate AllDigits(s: string) {
    forall i :: 0 <= i < |s| ==> IsDigit(s[i])
  }

  function DigitOf(d: nat): (c: char)
    requires d < 10
    ensures IsDigit(c) && c as int - '0' as int == d
  {
    '0' + d as char
  }

  /** printf("%d") of a number that is not negative. */
  function Render(n: nat): (s: string)
    ensures s != "" && AllDigits(s)
  {
    if n < 10 then [DigitOf(n)] else Render(n / 10) + [DigitOf(n % 10)]
  }

  function ValueOf(s: string): nat
    requires AllDigits(s)
  {
    if s == "" then 0
    else ValueOf(s[..|s| - 1]) * 10 + (s[|s| - 1] as int - '0' as int)
  }

  lemma {:induction false} ValueOfRender(n: nat)
    ensures ValueOf(Render(n)) == n
  {
    var s := Render(n);
    if n < 10 {
      assert s[..|s| - 1] == "";
    } else {
      ValueOfRender(n / 10);
      assert s[..|s| - 1] == Render(n / 10);
    }
  }

  /** The number of digits `s` starts with. */
  function LeadingDigits(s: string): (n: nat)
    ensures n <= |s| && AllDigits(s[..n])
    ensures n < |s| ==> !IsDigit(s[n])
  {
    if s == "" || !IsDigit(s[0]) then 0
    else
      var n := 1 + LeadingDigits(s[1..]);
      assert forall i :: 0 < i < n ==> s[i] == s[1..][..n - 1][i - 1];
      n
  }

  const INT_MAX := 0x7fff_ffff
  const LONG_MAX := 0x7fff_ffff_ffff_ffff

  /** atoi() of a text without sign or leading white space: strtol(), which saturates, cut to an int. */
  function Atoi(s: string): int {
    var v := ValueOf(s[..LeadingDigits(s)]);
    var long := if v < LONG_MAX then v else LONG_MAX;
    var word := long % 0x1_0000_0000;
    if word <= INT_MAX then word else word - 0x1_0000_0000
  }

  /** Whatever the text, the result is an int: the number, or the largest long if that is smaller, modulo 2^32. */
  lemma AtoiRange(s: string)
    ensures -0x8000_0000 <= Atoi(s) <= INT_MAX
    ensures var v := ValueOf(s[..LeadingDigits(s)]);
      (Atoi(s) - if v < LONG_MAX then v else LONG_MAX) % 0x1_0000_0000 == 0
  {
  }

  /** A number an int can hold, printed and read back. */
  lemma AtoiOfRender(n: nat)
    requires n <= INT_MAX
    ensures Atoi(Render(n)) == n && LeadingDigits(Render(n)) == |Render(n)|
  {
    ValueOfRender(n);
    var s := Render(n);
    assert s[..|s|] == s;
  }
}

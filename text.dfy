/** The two string utilities of the app: `String.prototype.trim`, behind the
    blank-reply guard, and `phone.replace(/\D/g, '')`, which turns a stored phone
    into the digits of a WhatsApp link. */
module Text {
  import Seqs

  /** ECMAScript WhiteSpace and LineTerminator code points, the characters `trim` removes. */
  predicate IsWhitespace(c: char) {
    var n := c as int;
    n == 0x09 || n == 0x0A || n == 0x0B || n == 0x0C || n == 0x0D || n == 0x20
    || n == 0xA0 || n == 0x1680 || (0x2000 <= n <= 0x200A) || n == 0x2028 || n == 0x2029
    || n == 0x202F || n == 0x205F || n == 0x3000 || n == 0xFEFF
  }

  /** The number of whitespace characters at the start of `s`. */
  function LeadingWhitespace(s: string): (n: nat)
    ensures n <= |s|
    ensures forall i :: 0 <= i < n ==> IsWhitespace(s[i])
    ensures n < |s| ==> !IsWhitespace(s[n])
  {
    if s == [] || !IsWhitespace(s[0]) then 0 else 1 + LeadingWhitespace(s[1..])
  }

  /** The number of whitespace characters at the end of `s`. */
  function TrailingWhitespace(s: string): (n: nat)
    ensures n <= |s|
    ensures forall i :: |s| - n <= i < |s| ==> IsWhitespace(s[i])
    ensures n < |s| ==> !IsWhitespace(s[|s| - n - 1])
  {
    if s == [] || !IsWhitespace(s[|s| - 1]) then 0 else 1 + TrailingWhitespace(s[..|s| - 1])
  }

  /** Drops the leading whitespace. */
  function TrimStart(s: string): string {
    s[LeadingWhitespace(s)..]
  }

  /** Drops the trailing whitespace. */
  function TrimEnd(s: string): string {
    s[..|s| - TrailingWhitespace(s)]
  }

  /** `String.prototype.trim`: a slice of the text that neither starts nor ends with
      white space. */
  function Trim(s: string): (r: string)
    ensures |r| <= |s|
    ensures r != [] ==> !IsWhitespace(r[0]) && !IsWhitespace(r[|r| - 1])
  {
    var u := TrimStart(s);
    var m := |u| - TrailingWhitespace(u);
    assert TrimEnd(u) == u[..m];
    if m > 0 then
      assert u[0] == s[LeadingWhitespace(s)];
      assert u[m - 1] == u[|u| - TrailingWhitespace(u) - 1];
      TrimEnd(u)
    else
      TrimEnd(u)
  }

  /** `text.trim()` is empty exactly when the text is nothing but whitespace. */
  lemma TrimEmptyIff(s: string)
    ensures Trim(s) == [] <==> forall i :: 0 <= i < |s| ==> IsWhitespace(s[i])
  {
    var k := LeadingWhitespace(s);
    var u := TrimStart(s);
    if k < |s| {
      assert u[0] == s[k];
      assert |Trim(s)| > 0;
    }
  }

  /** The trimmed text is the slice of the original that starts at its first
      non-whitespace character and ends at its last: only the ends are cut. */
  lemma TrimIsInfix(s: string)
    ensures var k := LeadingWhitespace(s);
            k + |Trim(s)| <= |s| && Trim(s) == s[k..k + |Trim(s)|]
    ensures forall i :: 0 <= i < LeadingWhitespace(s) ==> IsWhitespace(s[i])
    ensures forall i :: LeadingWhitespace(s) + |Trim(s)| <= i < |s| ==> IsWhitespace(s[i])
  {
    var k := LeadingWhitespace(s);
    var u := TrimStart(s);
    var m := |u| - TrailingWhitespace(u);
    assert Trim(s) == u[..m];
    assert u[..m] == s[k..k + m];
    forall i | k + m <= i < |s| ensures IsWhitespace(s[i]) {
      assert s[i] == u[i - k];
    }
  }

  predicate IsAsciiDigit(c: char) {
    '0' <= c <= '9'
  }

  /** `phone.replace(/\D/g, '')` */
  function DigitsOnly(phone: string): (r: string)
    ensures forall i :: 0 <= i < |r| ==> IsAsciiDigit(r[i])
    ensures Seqs.IsSubsequence(r, phone)
  {
    Seqs.FilterIsSubsequence(phone, IsAsciiDigit);
    Seqs.Filter(phone, IsAsciiDigit)
  }

  /** Normalising twice changes nothing more, a phone of digits stays as it is, and
      every digit of the entry is kept (as often as it occurs). */
  lemma DigitsOnlyProperties(phone: string, c: char)
    ensures DigitsOnly(DigitsOnly(phone)) == DigitsOnly(phone)
    ensures (forall i :: 0 <= i < |phone| ==> IsAsciiDigit(phone[i])) ==> DigitsOnly(phone) == phone
    ensures multiset(DigitsOnly(phone))[c] == if IsAsciiDigit(c) then multiset(phone)[c] else 0
  {
    Seqs.FilterKeepsAll(DigitsOnly(phone), IsAsciiDigit);
    if forall i :: 0 <= i < |phone| ==> IsAsciiDigit(phone[i]) {
      Seqs.FilterKeepsAll(phone, IsAsciiDigit);
    }
    Seqs.FilterCount(phone, IsAsciiDigit, c);
  }
}

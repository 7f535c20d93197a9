/** The JavaScript string built-ins the screens rely on: String.prototype.trim
    (student DTO), s.split('T')[0] (birth date shown in the edit form),
    Number.prototype.toString on integer ids (select values and request paths)
    and parseInt with the default radix (enrollment DTO).

    The functions that compute are kept free of quantified postconditions so
    that the screen handlers, which call them, stay cheap to verify; what each
    one means is stated by the lemma that follows it. */
module JsStrings {
  import opened Entities

  /** ECMAScript WhiteSpace and LineTerminator code points: what trim() removes
      and what parseInt skips before the number. */
  predicate IsWhitespace(c: char) {
    c == '\t' || c == '\n' || c == '\U{000B}' || c == '\U{000C}' || c == '\r' || c == ' ' ||
    c == '\U{00A0}' || c == '\U{1680}' || ('\U{2000}' <= c <= '\U{200A}') ||
    c == '\U{2028}' || c == '\U{2029}' || c == '\U{202F}' || c == '\U{205F}' ||
    c == '\U{3000}' || c == '\U{FEFF}'
  }

  predicate AllWhitespace(s: string) {
    forall i :: 0 <= i < |s| ==> IsWhitespace(s[i])
  }

  /** String.prototype.trimStart. */
  function TrimStart(s: string): string {
    if s != [] && IsWhitespace(s[0]) then TrimStart(s[1..]) else s
  }

  /** TrimStart drops a whitespace prefix and stops at the first other character. */
  lemma {:induction false} TrimStartSpec(s: string)
    ensures |TrimStart(s)| <= |s| && TrimStart(s) == s[|s| - |TrimStart(s)|..]
    ensures AllWhitespace(s[..|s| - |TrimStart(s)|])
    ensures TrimStart(s) == [] || !IsWhitespace(TrimStart(s)[0])
  {
    if s != [] && IsWhitespace(s[0]) {
      TrimStartSpec(s[1..]);
      var r := TrimStart(s[1..]);
      assert s[..|s| - |r|] == [s[0]] + s[1..][..|s| - 1 - |r|];
    }
  }

  /** String.prototype.trimEnd. */
  function TrimEnd(s: string): string {
    if s != [] && IsWhitespace(s[|s| - 1]) then TrimEnd(s[..|s| - 1]) else s
  }

  /** TrimEnd drops a whitespace suffix and stops at the last other character. */
  lemma {:induction false} TrimEndSpec(s: string)
    ensures |TrimEnd(s)| <= |s| && TrimEnd(s) == s[..|TrimEnd(s)|]
    ensures AllWhitespace(s[|TrimEnd(s)|..])
    ensures TrimEnd(s) == [] || !IsWhitespace(TrimEnd(s)[|TrimEnd(s)| - 1])
  {
    if s != [] && IsWhitespace(s[|s| - 1]) {
      TrimEndSpec(s[..|s| - 1]);
      var r := TrimEnd(s[..|s| - 1]);
      assert s[|r|..] == s[..|s| - 1][|r|..] + [s[|s| - 1]];
    }
  }

  /** r is s[lead..] without the whitespace on either side of it. */
  predicate TrimmedAt(r: string, s: string, lead: nat) {
    lead + |r| <= |s| && r == s[lead..lead + |r|] &&
    AllWhitespace(s[..lead]) && AllWhitespace(s[lead + |r|..]) &&
    (r == [] || (!IsWhitespace(r[0]) && !IsWhitespace(r[|r| - 1])))
  }

  /** r is what remains of s once its leading and trailing whitespace, and
      nothing else, are removed. */
  ghost predicate IsTrimOf(r: string, s: string) {
    exists lead: nat :: TrimmedAt(r, s, lead)
  }

  /** String.prototype.trim. */
  function Trim(s: string): string {
    TrimEnd(TrimStart(s))
  }

  /** Trim removes the surrounding whitespace and nothing else. */
  lemma TrimSpec(s: string)
    ensures IsTrimOf(Trim(s), s)
  {
    var t := TrimStart(s);
    TrimStartSpec(s);
    TrimEndSpec(t);
    TrimmedAtWitness(s, t, TrimEnd(t), |s| - |t|);
  }

  lemma TrimmedAtWitness(s: string, t: string, r: string, lead: nat)
    requires lead + |t| == |s| && t == s[lead..] && AllWhitespace(s[..lead])
    requires t == [] || !IsWhitespace(t[0])
    requires |r| <= |t| && r == t[..|r|] && AllWhitespace(t[|r|..])
    requires r == [] || !IsWhitespace(r[|r| - 1])
    ensures TrimmedAt(r, s, lead)
  {
    assert s[lead + |r|..] == t[|r|..];
  }

  lemma {:induction false} TrimStartDrops(s: string, lead: nat)
    requires lead <= |s| && AllWhitespace(s[..lead])
    requires lead == |s| || !IsWhitespace(s[lead])
    ensures TrimStart(s) == s[lead..]
    decreases lead
  {
    if lead > 0 {
      assert IsWhitespace(s[..lead][0]);
      assert s[1..][..lead - 1] == s[..lead][1..];
      TrimStartDrops(s[1..], lead - 1);
      assert s[1..][lead - 1..] == s[lead..];
    }
  }

  lemma {:induction false} TrimEndDrops(s: string, len: nat)
    requires len <= |s| && AllWhitespace(s[len..])
    requires len == 0 || !IsWhitespace(s[len - 1])
    ensures TrimEnd(s) == s[..len]
    decreases |s| - len
  {
    if len < |s| {
      assert IsWhitespace(s[len..][|s| - 1 - len]);
      var p := s[..|s| - 1];
      assert p[len..] == s[len..][..|s| - 1 - len];
      TrimEndDrops(p, len);
      assert p[..len] == s[..len];
    } else {
      assert s[..len] == s;
    }
  }

  /** Trim is the only function meeting IsTrimOf: any r that is s without its
      surrounding whitespace is Trim(s). */
  lemma TrimUnique(r: string, s: string)
    requires IsTrimOf(r, s)
    ensures r == Trim(s)
  {
    var lead: nat :| TrimmedAt(r, s, lead);
    if r == [] {
      assert AllWhitespace(s) by {
        forall i | 0 <= i < |s| ensures IsWhitespace(s[i]) {
          if i < lead { assert s[i] == s[..lead][i]; } else { assert s[i] == s[lead..][i - lead]; }
        }
      }
      assert s[..|s|] == s;
      TrimStartDrops(s, |s|);
    } else {
      TrimUniqueNonEmpty(r, s, lead);
    }
  }

  lemma TrimUniqueNonEmpty(r: string, s: string, lead: nat)
    requires TrimmedAt(r, s, lead) && r != []
    ensures r == Trim(s)
  {
    assert s[lead] == r[0];
    TrimStartDrops(s, lead);
    var t := s[lead..];
    assert t[|r|..] == s[lead + |r|..];
    assert t[|r| - 1] == r[|r| - 1];
    TrimEndDrops(t, |r|);
    assert t[..|r|] == r;
  }

  /** Trimming twice is trimming once. */
  lemma TrimIdempotent(s: string)
    ensures Trim(Trim(s)) == Trim(s)
  {
    var r := Trim(s);
    TrimSpec(s);
    var lead: nat :| TrimmedAt(r, s, lead);
    assert r == r[0..0 + |r|] && r[..0] == [] && r[0 + |r|..] == [];
    assert TrimmedAt(r, r, 0);
    TrimUnique(r, r);
  }

  /** A value that neither starts nor ends with whitespace is sent unchanged. */
  lemma TrimKeepsTrimmed(s: string)
    requires s == [] || (!IsWhitespace(s[0]) && !IsWhitespace(s[|s| - 1]))
    ensures Trim(s) == s
  {
    assert s == s[0..0 + |s|] && s[..0] == [] && s[0 + |s|..] == [];
    assert TrimmedAt(s, s, 0);
    TrimUnique(s, s);
  }

  /** s.split('T')[0]: the text before the first 'T', or all of s when there is none. */
  function DatePart(s: string): (r: string)
    ensures r <= s
    ensures 'T' !in r
    ensures |r| < |s| ==> s[|r|] == 'T'
  {
    if s == [] || s[0] == 'T' then [] else [s[0]] + DatePart(s[1..])
  }

  /** The date of an ISO timestamp "date" + "T" + "time" is "date". */
  lemma DatePartOfTimestamp(date: string, time: string)
    requires 'T' !in date
    ensures DatePart(date + "T" + time) == date
  {
    var s := date + "T" + time;
    assert s[|date|] == 'T';
    assert forall k :: 0 <= k < |date| ==> s[k] == date[k];
  }

  /** A plain date (no 'T') is shown as it is. */
  lemma DatePartOfDate(date: string)
    requires 'T' !in date
    ensures DatePart(date) == date
  {
  }

  predicate IsDecimalDigit(c: char) {
    '0' <= c <= '9'
  }

  /** The numeric value of c as a digit in radixes up to 36 ('a'/'A' is 10),
      or 36 when c is neither a decimal digit nor a Latin letter. */
  function CharValue(c: char): (v: nat)
    ensures v <= 36
    ensures IsDecimalDigit(c) <==> v < 10
  {
    if '0' <= c <= '9' then c as int - '0' as int
    else if 'a' <= c <= 'z' then c as int - 'a' as int + 10
    else if 'A' <= c <= 'Z' then c as int - 'A' as int + 10
    else 36
  }

  predicate IsRadixDigit(c: char, radix: nat) {
    CharValue(c) < radix
  }

  /** Value of a digit string read most significant digit first. */
  function DigitsValue(ds: string, radix: nat): nat {
    if ds == [] then 0 else DigitsValue(ds[..|ds| - 1], radix) * radix + CharValue(ds[|ds| - 1])
  }

  function DigitChar(d: nat): (c: char)
    requires d < 10
    ensures IsDecimalDigit(c) && CharValue(c) == d
  {
    ('0' as int + d) as char
  }

  /** Number.prototype.toString on a non-negative integer. */
  function NatToString(n: nat): string {
    if n < 10 then [DigitChar(n)] else NatToString(n / 10) + [DigitChar(n % 10)]
  }

  /** NatToString gives the decimal digits of n, without leading zeros. */
  lemma {:induction false} NatToStringSpec(n: nat)
    ensures NatToString(n) != [] && forall i :: 0 <= i < |NatToString(n)| ==> IsDecimalDigit(NatToString(n)[i])
    ensures NatToString(n)[0] == '0' ==> n == 0
    ensures DigitsValue(NatToString(n), 10) == n
  {
    if n >= 10 {
      NatToStringSpec(n / 10);
      var p := NatToString(n / 10);
      var s := NatToString(n);
      assert s == p + [DigitChar(n % 10)];
      assert s[..|s| - 1] == p && s[0] == p[0];
    }
  }

  /** Number.prototype.toString on an integer. */
  function IntToString(i: int): string {
    if i < 0 then "-" + NatToString(-i) else NatToString(i)
  }

  /** The longest prefix of s made of digits of the radix. */
  function DigitPrefix(s: string, radix: nat): (r: string)
    ensures r <= s
    ensures forall i :: 0 <= i < |r| ==> IsRadixDigit(r[i], radix)
    ensures |r| < |s| ==> !IsRadixDigit(s[|r|], radix)
  {
    if s == [] || !IsRadixDigit(s[0], radix) then [] else [s[0]] + DigitPrefix(s[1..], radix)
  }

  /** parseInt(s) with no radix argument: skip leading whitespace, read an
      optional sign, then the unsigned number. `None` stands for NaN. */
  function ParseInt(s: string): Option<int> {
    var t := TrimStart(s);
    var negative := t != [] && t[0] == '-';
    var unsigned := if t != [] && (t[0] == '-' || t[0] == '+') then t[1..] else t;
    match ParseUnsigned(unsigned)
    case None => None
    case Some(v) => if negative then Some(0 - v) else Some(v)
  }

  /** The unsigned part of parseInt: "0x"/"0X" switches to radix 16, then the
      longest digit prefix is read; no digit at all gives NaN. */
  function ParseUnsigned(u: string): Option<nat> {
    var hex := |u| >= 2 && u[0] == '0' && (u[1] == 'x' || u[1] == 'X');
    var radix := if hex then 16 else 10;
    var digits := DigitPrefix(if hex then u[2..] else u, radix);
    if digits == [] then None else Some(DigitsValue(digits, radix))
  }

  lemma {:induction false} DigitPrefixOfDigits(s: string, radix: nat)
    requires forall i :: 0 <= i < |s| ==> IsRadixDigit(s[i], radix)
    ensures DigitPrefix(s, radix) == s
  {
    if s != [] {
      DigitPrefixOfDigits(s[1..], radix);
      assert [s[0]] + s[1..] == s;
    }
  }

  lemma ParseUnsignedOfNat(n: nat)
    ensures ParseUnsigned(NatToString(n)) == Some(n)
  {
    NatToStringSpec(n);
    var u := NatToString(n);
    assert !(|u| >= 2 && u[0] == '0');
    assert forall k :: 0 <= k < |u| ==> IsRadixDigit(u[k], 10);
    DigitPrefixOfDigits(u, 10);
  }

  /** parseInt undoes toString on every integer: the id a select offers as
      `id.toString()` is the id the enrollment DTO carries. */
  lemma ParseIntOfToString(i: int)
    ensures ParseInt(IntToString(i)) == Some(i)
  {
    if i < 0 {
      ParseIntOfNegative(i);
    } else {
      NatToStringSpec(i);
      var s := IntToString(i);
      assert IsDecimalDigit(s[0]);
      TrimStartKeeps(s);
      ParseUnsignedOfNat(i);
    }
  }

  lemma ParseIntOfNegative(i: int)
    requires i < 0
    ensures ParseInt(IntToString(i)) == Some(i)
  {
    var s := IntToString(i);
    TrimStartKeeps(s);
    ParseUnsignedOfNat(-i);
    var u := s[1..];
    assert u == NatToString(-i);
    assert ParseUnsigned(u) == Some(-i);
    assert s[0] == '-';
    var t := TrimStart(s);
    assert t == s;
    assert t[1..] == u;
  }

  lemma TrimStartKeeps(s: string)
    requires s != [] && !IsWhitespace(s[0])
    ensures TrimStart(s) == s
  {
  }

  /** An empty or blank value (nothing selected) parses to NaN. */
  lemma ParseIntOfBlank(s: string)
    requires AllWhitespace(s)
    ensures ParseInt(s) == None
  {
    assert s[..|s|] == s;
    TrimStartDrops(s, |s|);
  }
}

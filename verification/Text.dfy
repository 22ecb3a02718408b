/** C strings and the library routines the parsers call on them. */
module Text {
  import opened Bytes

  function Ascii(s: string): (b: seq<byte>)
    ensures |b| == |s| && forall i :: 0 <= i < |s| ==> b[i] == s[i] as int % 256
  {
    seq(|s|, i requires 0 <= i < |s| => s[i] as int % 256)
  }

  /** The bytes before the first zero. */
  function CString(s: seq<byte>): (c: seq<byte>)
    ensures 0 !in c && c <= s && (|c| < |s| ==> s[|c|] == 0)
  {
    if s == [] || s[0] == 0 then [] else [s[0]] + CString(s[1..])
  }

  lemma {:induction false} CStringOfPrefix(s: seq<byte>, t: seq<byte>)
    requires 0 !in s
    ensures CString(s + t) == s + CString(t)
  {
    if s == [] {
      assert s + t == t;
    } else {
      assert (s + t)[1..] == s[1..] + t;
      CStringOfPrefix(s[1..], t);
    }
  }

  /** `strlen` of a buffer that holds a zero. */
  method Strlen(a: array<byte>) returns (n: nat)
    requires exists i :: 0 <= i < a.Length && a[i] == 0
    ensures n < a.Length && a[n] == 0 && forall j :: 0 <= j < n ==> a[j] != 0
  {
    n := 0;
    while a[n] != 0
      invariant n < a.Length && forall j :: 0 <= j < n ==> a[j] != 0
      decreases a.Length - n
    {
      n := n + 1;
    }
  }

  predicate Matches(text: seq<byte>, i: nat, needle: seq<byte>) {
    i + |needle| <= |text| && text[i..i + |needle|] == needle
  }

  predicate Avoids(text: seq<byte>, end: nat, needle: seq<byte>) {
    forall i :: 0 <= i < end ==> !Matches(text, i, needle)
  }

  /** `strstr`: the first occurrence. */
  method Strstr(text: seq<byte>, needle: seq<byte>) returns (at: Option<nat>)
    ensures at.Some? ==> Matches(text, at.value, needle) && Avoids(text, at.value, needle)
    ensures at.None? ==> Avoids(text, |text| + 1, needle)
  {
    var i := 0;
    while i + |needle| <= |text|
      invariant i <= |text| + 1 && Avoids(text, i, needle)
    {
      if text[i..i + |needle|] == needle {
        return Some(i);
      }
      i := i + 1;
    }
    return None;
  }

  // ---------------------------------------------------------------- strtol and atoi

  predicate IsSpace(c: byte) {
    c == 32 || 9 <= c <= 13
  }

  /** The value of a digit; letters stand for 10 and more. */
  function DigitValue(c: byte): nat {
    if 48 <= c <= 57 then c - 48
    else if 65 <= c <= 90 then c - 65 + 10
    else if 97 <= c <= 122 then c - 97 + 10
    else 255
  }

  /** The number the longest prefix of digits stands for. */
  function Digits(s: seq<byte>, base: nat, sum: nat): nat {
    if s == [] || DigitValue(s[0]) >= base then sum
    else Digits(s[1..], base, sum * base + DigitValue(s[0]))
  }

  /** The digits behind an optional `0x` of a hexadecimal number. */
  function Unsigned(s: seq<byte>, base: nat): nat {
    if base == 16 && |s| > 2 && s[0] == 48 && (s[1] == 120 || s[1] == 88) && DigitValue(s[2]) < 16
    then Digits(s[2..], base, 0)
    else Digits(s, base, 0)
  }

  /** `strtol`, without its saturation: white space, a sign, digits. */
  function Strtol(s: seq<byte>, base: nat): int {
    if s == [] then 0
    else if IsSpace(s[0]) then Strtol(s[1..], base)
    else if s[0] == 45 then 0 - Unsigned(s[1..], base)
    else if s[0] == 43 then Unsigned(s[1..], base)
    else Unsigned(s, base)
  }

  /** `atoi`. */
  function Atoi(s: seq<byte>): int {
    Strtol(CString(s), 10)
  }
}

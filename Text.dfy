/*
 * String helpers shared by the generator and the validators: substring
 * search (Python `in`, polars `str.contains` on a literal), ASCII
 * lower-casing, decimal rendering of integers (f-strings) and the UTF-8
 * byte length polars reports with `str.len_bytes`.
 */
module Text {

  /** `t` occurs in `s` as a contiguous block (Python's `t in s`). */
  predicate Contains(s: string, t: string) {
    exists i | 0 <= i <= |s| - |t| :: OccursAt(s, t, i)
  }

  /** `t` occurs in `s` starting at position `i`. */
  predicate OccursAt(s: string, t: string, i: int) {
    0 <= i <= |s| - |t| && s[i..i + |t|] == t
  }

  lemma ShorterNeverContains(s: string, t: string)
    requires |s| < |t|
    ensures !Contains(s, t)
  {
  }

  /** Python's `str.lower` restricted to the ASCII letters A-Z. */
  function LowerChar(c: char): (r: char)
    ensures 'A' <= c <= 'Z' ==> 'a' <= r <= 'z' && r as int == c as int + 32
    ensures !('A' <= c <= 'Z') ==> r == c
  {
    if 'A' <= c <= 'Z' then (c as int + 32) as char else c
  }

  function Lower(s: string): (r: string)
    ensures |r| == |s|
    ensures forall i :: 0 <= i < |s| ==> r[i] == LowerChar(s[i])
  {
    if s == [] then [] else [LowerChar(s[0])] + Lower(s[1..])
  }

  /** Decimal digits of a natural number, most significant first. */
  function NatText(n: nat): (r: string)
    ensures |r| >= 1
    ensures forall i :: 0 <= i < |r| ==> '0' <= r[i] <= '9'
    ensures n < 10 ==> |r| == 1
    ensures 10 <= n < 100 ==> |r| == 2
    ensures 100 <= n < 1000 ==> |r| == 3
    ensures 1000 <= n < 10000 ==> |r| == 4
  {
    if n < 10 then [('0' as int + n) as char]
    else NatText(n / 10) + [('0' as int + n % 10) as char]
  }

  /** f"{i}" for an integer. */
  function IntText(i: int): (r: string)
    ensures i >= 0 ==> r == NatText(i)
    ensures i < 0 ==> r == "-" + NatText(-i)
  {
    if i < 0 then "-" + NatText(-i) else NatText(i)
  }

  /** f"{i:02d}": zero-padded to two characters (the sign counts toward the width). */
  function Pad2(i: int): (r: string)
    ensures 0 <= i < 100 ==> |r| == 2
  {
    if 0 <= i < 10 then "0" + NatText(i) else IntText(i)
  }

  /** chrono's `%Y`: the year zero-padded to four digits. */
  function Pad4(i: int): (r: string)
    ensures 0 <= i < 10000 ==> |r| == 4
    ensures 1000 <= i ==> r == IntText(i)
  {
    if 0 <= i < 10 then "000" + NatText(i)
    else if 10 <= i < 100 then "00" + NatText(i)
    else if 100 <= i < 1000 then "0" + NatText(i)
    else IntText(i)
  }

  /** Bytes taken by one Unicode scalar value in UTF-8. */
  function Utf8Width(c: char): (w: nat)
    ensures 1 <= w <= 4
    ensures w == 1 <==> c as int < 0x80
  {
    if c as int < 0x80 then 1
    else if c as int < 0x800 then 2
    else if c as int < 0x10000 then 3
    else 4
  }

  /** polars `str.len_bytes`: the length of the UTF-8 encoding. */
  function Utf8Length(s: string): (n: nat)
    ensures |s| <= n <= 4 * |s|
    ensures (forall i :: 0 <= i < |s| ==> s[i] as int < 0x80) ==> n == |s|
  {
    if s == [] then 0 else Utf8Width(s[0]) + Utf8Length(s[1..])
  }
}

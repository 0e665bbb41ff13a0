/** Shared value types and lookups. */
module Prelude {

  datatype Option<+T> = None | Some(value: T)

  function Min(a: int, b: int): int {
    if a < b then a else b
  }

  lemma Associative<T>(a: seq<T>, b: seq<T>, c: seq<T>)
    ensures a + (b + c) == a + b + c
  {
  }

  /** The last position holding an id, which is what a map filled in order keeps. */
  function LastPosition(ids: seq<string>, id: string): (at: Option<nat>)
    ensures at.Some? ==> at.value < |ids| && ids[at.value] == id && forall j | at.value < j < |ids| :: ids[j] != id
    ensures at.None? ==> id !in ids
  {
    if ids == [] then None
    else if ids[|ids| - 1] == id then Some(|ids| - 1)
    else LastPosition(ids[..|ids| - 1], id)
  }
}

/**
  Row ids travel as decimal text: the API prints a message's bigserial id, the agent recognises it
  with `str.isdigit`, and the API reads it back with `strconv.ParseInt(_, 10, 64)`.
 */
module Decimal {
  import opened Prelude

  const MAX_INT64: int := 0x7fff_ffff_ffff_ffff

  predicate IsDigitChar(c: char) {
    '0' <= c <= '9'
  }

  /** `str.isdigit` on ASCII text: non-empty and digits only. */
  predicate IsDigits(s: string) {
    s != "" && forall i | 0 <= i < |s| :: IsDigitChar(s[i])
  }

  function Digit(d: nat): char
    requires d < 10
  {
    '0' + (d as char)
  }

  /** `strconv.FormatInt(n, 10)` for a row id. */
  function FormatInt(n: nat): string {
    if n < 10 then [Digit(n)] else FormatInt(n / 10) + [Digit(n % 10)]
  }

  function DigitValue(c: char): nat
    requires IsDigitChar(c)
  {
    c as int - '0' as int
  }

  function DigitsValue(s: string): nat
    requires forall i | 0 <= i < |s| :: IsDigitChar(s[i])
  {
    if s == "" then 0 else 10 * DigitsValue(s[..|s| - 1]) + DigitValue(s[|s| - 1])
  }

  /** `strconv.ParseInt(s, 10, 64)` on unsigned text: None stands for its error return. */
  function ParseInt64(s: string): Option<nat> {
    if IsDigits(s) && DigitsValue(s) <= MAX_INT64 then Some(DigitsValue(s)) else None
  }

  lemma {:induction false} FormatThenRead(n: nat)
    ensures IsDigits(FormatInt(n))
    ensures DigitsValue(FormatInt(n)) == n
  {
    if n < 10 {
      assert DigitsValue([Digit(n)]) == 10 * DigitsValue([Digit(n)][..0]) + n;
    } else {
      FormatThenRead(n / 10);
      var s := FormatInt(n);
      assert s[..|s| - 1] == FormatInt(n / 10);
    }
  }

  /** Printing a row id and parsing it back is the identity, and the text always passes `isdigit`. */
  lemma RowIdRoundTrip(n: nat)
    ensures IsDigits(FormatInt(n))
    ensures ParseInt64(FormatInt(n)) == if n <= MAX_INT64 then Some(n) else None
  {
    FormatThenRead(n);
  }

  /** And back: an all-digits text without leading zeros is the decimal form of its value. */
  lemma {:induction false} ReadThenFormat(s: string)
    requires IsDigits(s) && (s[0] != '0' || s == "0")
    ensures FormatInt(DigitsValue(s)) == s
  {
    var n := |s| - 1;
    var last := DigitValue(s[n]);
    if n == 0 {
      assert DigitsValue(s) == 10 * DigitsValue(s[..0]) + last;
      assert s == [s[0]];
    } else {
      var front := s[..n];
      assert front[0] == s[0] && forall i | 0 <= i < n :: front[i] == s[i];
      ReadThenFormat(front);
      ValueIsPositive(front);
      var v := DigitsValue(front);
      assert DigitsValue(s) == 10 * v + last && (10 * v + last) / 10 == v && (10 * v + last) % 10 == last;
      assert s == front + [s[n]];
    }
  }

  lemma {:induction false} ValueIsPositive(s: string)
    requires IsDigits(s) && s[0] != '0'
    ensures DigitsValue(s) > 0
  {
    var n := |s| - 1;
    if n > 0 {
      assert s[..n][0] == s[0] && forall i | 0 <= i < n :: s[..n][i] == s[i];
      ValueIsPositive(s[..n]);
    } else {
      assert DigitsValue(s) == 10 * DigitsValue(s[..0]) + DigitValue(s[0]);
    }
  }
}

/** The few JavaScript string operations the gatherers rely on: ASCII lower-casing
    (`String.prototype.toLowerCase` on header names), number-to-string
    conversion inside template literals, and `String.prototype.split(',')`. */
module Strings {

  import opened Wrappers

  /** Lower-cases one character; only the ASCII letters A-Z change. */
  function ToLowerChar(c: char): char {
    if 'A' <= c <= 'Z' then (c as int - 'A' as int + 'a' as int) as char else c
  }

  /** `s.toLowerCase()`, restricted to ASCII letters. */
  function ToLower(s: string): (r: string)
    ensures |r| == |s|
  {
    seq(|s|, i requires 0 <= i < |s| => ToLowerChar(s[i]))
  }

  function DigitChar(d: nat): char
    requires d < 10
  {
    "0123456789"[d]
  }

  /** Decimal digits of a natural number, most significant first, no leading zeros. */
  function NatToString(n: nat): (r: string)
    ensures |r| >= 1
    ensures forall i :: 0 <= i < |r| ==> '0' <= r[i] <= '9'
    ensures |r| > 1 ==> r[0] != '0'
  {
    if n < 10 then [DigitChar(n)] else NatToString(n / 10) + [DigitChar(n % 10)]
  }

  /** The text JavaScript gives an integral number inside a template literal. */
  function IntToString(n: int): (r: string)
    ensures |r| >= 1
  {
    if n < 0 then "-" + NatToString(-n) else NatToString(n)
  }

  /** Position of the first `c` in `s`, or `|s|` when there is none. */
  function IndexOf(s: string, c: char): (i: nat)
    ensures i <= |s|
    ensures i < |s| <==> c in s
    ensures i < |s| ==> s[i] == c
    ensures c !in s[..i]
  {
    if |s| == 0 then 0
    else if s[0] == c then 0
    else
      assert s[1..][..IndexOf(s[1..], c)] == s[1..1 + IndexOf(s[1..], c)];
      1 + IndexOf(s[1..], c)
  }

  /** `s.split(sep)` with a one-character separator: the maximal separator-free
      pieces of `s`, in order; an empty string gives one empty piece. */
  function Split(s: string, sep: char): (parts: seq<string>)
    ensures |parts| >= 1
  {
    if |s| == 0 then [""]
    else if s[0] == sep then [""] + Split(s[1..], sep)
    else
      var rest := Split(s[1..], sep);
      [[s[0]] + rest[0]] + rest[1..]
  }

  /** `parts.join(sep)`. */
  function Join(parts: seq<string>, sep: char): string
    requires |parts| >= 1
  {
    if |parts| == 1 then parts[0] else parts[0] + [sep] + Join(parts[1..], sep)
  }

  /** Splitting and joining again gives back the original string, and no piece
      contains the separator. */
  lemma {:induction false} SplitJoin(s: string, sep: char)
    ensures Join(Split(s, sep), sep) == s
    ensures forall k :: 0 <= k < |Split(s, sep)| ==> sep !in Split(s, sep)[k]
  {
    if |s| == 0 {
    } else if s[0] == sep {
      SplitJoin(s[1..], sep);
      assert Split(s, sep)[1..] == Split(s[1..], sep);
      assert s == [sep] + s[1..];
    } else {
      SplitJoin(s[1..], sep);
      var rest := Split(s[1..], sep);
      assert s == [s[0]] + s[1..];
      if |rest| == 1 {
      } else {
        assert Split(s, sep)[1..] == rest[1..];
        assert Join(rest, sep) == rest[0] + [sep] + Join(rest[1..], sep);
      }
      forall k | 0 <= k < |Split(s, sep)|
        ensures sep !in Split(s, sep)[k]
      {
        if k == 0 {
          assert sep !in rest[0];
        } else {
          assert Split(s, sep)[k] == rest[k];
        }
      }
    }
  }

  /** The first piece of `s.split(sep)` runs up to the first separator; the
      remaining pieces are those of the text after it. */
  lemma {:induction false} SplitAtFirst(s: string, sep: char)
    ensures Split(s, sep)[0] == s[..IndexOf(s, sep)]
    ensures IndexOf(s, sep) < |s| ==> Split(s, sep)[1..] == Split(s[IndexOf(s, sep) + 1..], sep)
    ensures IndexOf(s, sep) == |s| <==> |Split(s, sep)| == 1
  {
    if |s| == 0 {
    } else if s[0] == sep {
    } else {
      SplitAtFirst(s[1..], sep);
      assert s[..IndexOf(s, sep)] == [s[0]] + s[1..][..IndexOf(s[1..], sep)];
      if IndexOf(s, sep) < |s| {
        assert s[IndexOf(s, sep) + 1..] == s[1..][IndexOf(s[1..], sep) + 1..];
      }
    }
  }

  /** `s.split(sep)[1]`: the second piece, `None` (`undefined`) when `s` holds no separator. */
  function SecondPiece(s: string, sep: char): (r: Option<string>)
    ensures r.Some? <==> sep in s
    ensures r.Some? ==> sep !in r.value
  {
    SplitAtFirst(s, sep);
    SplitJoin(s, sep);
    var parts := Split(s, sep);
    if |parts| >= 2 then Some(parts[1]) else None
  }

  /** The second piece is exactly the text after the first separator and before
      the next one (or the end of the string). */
  lemma {:induction false} SecondPieceBetweenSeparators(s: string, sep: char)
    requires sep in s
    ensures var i := IndexOf(s, sep);
            var rest := s[i + 1..];
            SecondPiece(s, sep) == Some(rest[..IndexOf(rest, sep)])
  {
    var i := IndexOf(s, sep);
    var rest := s[i + 1..];
    SplitAtFirst(s, sep);
    SplitAtFirst(rest, sep);
    assert Split(s, sep)[1] == Split(s, sep)[1..][0];
  }
}

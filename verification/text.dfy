/**
 * The string operations Python applies to the catalog's text columns and to the
 * planner's summary: counting, stripping, splitting, lower-casing, and the decimal
 * rendering of integers used by f-strings.
 */
module Text {

  /** Number of occurrences of `c` in `s`. */
  function Count(s: string, c: char): nat
  {
    if s == [] then 0 else (if s[0] == c then 1 else 0) + Count(s[1..], c)
  }

  lemma {:induction false} CountAppend(a: string, b: string, c: char)
    ensures Count(a + b, c) == Count(a, c) + Count(b, c)
  {
    if a == [] {
      assert a + b == b;
    } else {
      assert (a + b)[1..] == a[1..] + b;
      CountAppend(a[1..], b, c);
    }
  }

  /** Pairwise distinct elements: what makes a list usable as the keys of a dict. */
  predicate Distinct<T(==)>(s: seq<T>)
  {
    forall i, j :: 0 <= i < j < |s| ==> s[i] != s[j]
  }

  /** Python's str.isspace(): the characters `str.strip()` removes when called without arguments. */
  predicate IsSpace(c: char)
  {
    || ('\U{09}' <= c <= '\U{0D}')
    || ('\U{1C}' <= c <= '\U{20}')
    || c == '\U{85}' || c == '\U{A0}' || c == '\U{1680}'
    || ('\U{2000}' <= c <= '\U{200A}')
    || c == '\U{2028}' || c == '\U{2029}' || c == '\U{202F}' || c == '\U{205F}' || c == '\U{3000}'
  }

  /** Leading characters satisfying `drop` removed: the left half of Python's str.strip(chars). */
  function TrimLeft(s: string, drop: char -> bool): (r: string)
    ensures |r| <= |s| && r == s[|s| - |r|..]
    ensures forall i :: 0 <= i < |s| - |r| ==> drop(s[i])
    ensures r == [] || !drop(r[0])
    ensures forall c :: !drop(c) ==> Count(r, c) == Count(s, c)
  {
    if s != [] && drop(s[0]) then TrimLeft(s[1..], drop) else s
  }

  /** Trailing characters satisfying `drop` removed: the right half of Python's str.strip(chars). */
  function TrimRight(s: string, drop: char -> bool): (r: string)
    ensures |r| <= |s| && r == s[..|r|]
    ensures forall i :: |r| <= i < |s| ==> drop(s[i])
    ensures r == [] || !drop(r[|r| - 1])
    ensures forall c :: !drop(c) ==> Count(r, c) == Count(s, c)
  {
    if s != [] && drop(s[|s| - 1]) then
      var init := s[..|s| - 1];
      assert s == init + [s[|s| - 1]];
      CountAppend(init, [s[|s| - 1]], s[|s| - 1]);
      forall c | !drop(c) ensures Count(s, c) == Count(init, c) {
        CountAppend(init, [s[|s| - 1]], c);
      }
      TrimRight(init, drop)
    else s
  }

  lemma TrimLeftDrops(c: char, s: string, drop: char -> bool)
    requires drop(c)
    ensures TrimLeft([c] + s, drop) == TrimLeft(s, drop)
  {
    assert ([c] + s)[1..] == s;
  }

  lemma TrimRightDrops(s: string, c: char, drop: char -> bool)
    requires drop(c)
    ensures TrimRight(s + [c], drop) == TrimRight(s, drop)
  {
    assert (s + [c])[..|s|] == s;
  }

  /** Python's str.strip(chars): both ends trimmed; the kept part is a contiguous piece of `s`. */
  function Strip(s: string, drop: char -> bool): (r: string)
    ensures |r| <= |s|
    ensures r == [] || (!drop(r[0]) && !drop(r[|r| - 1]))
    ensures forall c :: !drop(c) ==> Count(r, c) == Count(s, c)
    ensures forall c :: c in r ==> c in s
    ensures exists i :: 0 <= i <= |s| && r <= s[i..]
  {
    var left := TrimLeft(s, drop);
    var r := TrimRight(left, drop);
    assert r <= s[|s| - |left|..];
    r
  }

  /** Python's str.replace(c, ""): every occurrence of `c` removed, everything else kept in order. */
  function RemoveChar(s: string, c: char): (r: string)
    ensures c !in r
    ensures forall d :: d != c ==> Count(r, d) == Count(s, d)
    ensures forall d :: d in r ==> d in s
    ensures c !in s ==> r == s
  {
    if s == [] then []
    else if s[0] == c then RemoveChar(s[1..], c)
    else [s[0]] + RemoveChar(s[1..], c)
  }

  lemma {:induction false} RemoveCharAppend(a: string, b: string, c: char)
    ensures RemoveChar(a + b, c) == RemoveChar(a, c) + RemoveChar(b, c)
  {
    if a == [] {
      assert a + b == b;
    } else {
      assert (a + b)[1..] == a[1..] + b;
      RemoveCharAppend(a[1..], b, c);
    }
  }

  /** Python's "sep".join(pieces). */
  function Join(pieces: seq<string>, sep: char): string
    requires |pieces| >= 1
  {
    if |pieces| == 1 then pieces[0] else pieces[0] + [sep] + Join(pieces[1..], sep)
  }

  /** Python's str.split(sep) with an explicit separator: never drops empty pieces. */
  function Split(s: string, sep: char): (r: seq<string>)
    ensures |r| == Count(s, sep) + 1
    ensures forall i :: 0 <= i < |r| ==> sep !in r[i]
    ensures forall i, c :: 0 <= i < |r| && c in r[i] ==> c in s
    ensures Join(r, sep) == s
  {
    if s == [] then [[]]
    else
      var rest := Split(s[1..], sep);
      if s[0] == sep then
        assert s == [] + [sep] + Join(rest, sep);
        [[]] + rest
      else
        var r := [[s[0]] + rest[0]] + rest[1..];
        assert forall i, c :: 0 <= i < |r| && c in r[i] ==> c in s by {
          forall i, c | 0 <= i < |r| && c in r[i] ensures c in s {
            if i == 0 {
              assert c == s[0] || c in rest[0];
              if c in rest[0] {
                assert c in s[1..];
              }
            } else {
              assert r[i] == rest[i];
              assert c in s[1..];
            }
          }
        }
        assert Join(r, sep) == s by {
          if |rest| > 1 {
            assert r[1..] == rest[1..];
          }
        }
        r
  }

  /** A character missing from the string is missing from every piece. */
  lemma SplitKeepsAbsent(s: string, sep: char, c: char)
    requires c !in s
    ensures forall i :: 0 <= i < |Split(s, sep)| ==> c !in Split(s, sep)[i]
  {
  }

  /** Splitting a string made of `head`, one separator and `tail` yields `head` first. */
  lemma {:induction false} SplitAtSeparator(head: string, tail: string, sep: char)
    requires sep !in head
    ensures Split(head + [sep] + tail, sep) == [head] + Split(tail, sep)
  {
    if head == [] {
      assert head + [sep] + tail == [sep] + tail;
      assert ([sep] + tail)[1..] == tail;
    } else {
      var s := head + [sep] + tail;
      assert s[1..] == head[1..] + [sep] + tail;
      SplitAtSeparator(head[1..], tail, sep);
      assert [head[0]] + head[1..] == head;
    }
  }

  /** A string without the separator splits into itself. */
  lemma SplitWithoutSeparator(s: string, sep: char)
    requires sep !in s
    ensures Split(s, sep) == [s]
  {
    var r := Split(s, sep);
    assert Count(s, sep) == 0 by { CountAbsent(s, sep); }
  }

  lemma {:induction false} CountAbsent(s: string, c: char)
    requires c !in s
    ensures Count(s, c) == 0
  {
    if s != [] {
      CountAbsent(s[1..], c);
    }
  }

  predicate IsUpper(c: char)
  {
    'A' <= c <= 'Z'
  }

  /** Python's str.lower() on one character, for the ASCII letters. */
  function LowerChar(c: char): (d: char)
    ensures !IsUpper(d)
    ensures !IsUpper(c) ==> d == c
  {
    if IsUpper(c) then (c as int + 32) as char else c
  }

  /** Lower-casing neither creates nor removes whitespace. */
  lemma LowerCharSpace(c: char)
    ensures IsSpace(LowerChar(c)) <==> IsSpace(c)
  {
    if IsUpper(c) {
      assert 'a' <= LowerChar(c) <= 'z';
    }
  }

  /** Python's str.lower(), for the ASCII letters. */
  function Lower(s: string): (r: string)
    ensures |r| == |s|
    ensures forall i :: 0 <= i < |r| ==> !IsUpper(r[i])
    ensures forall i :: 0 <= i < |r| ==> r[i] == LowerChar(s[i])
  {
    seq(|s|, i requires 0 <= i < |s| => LowerChar(s[i]))
  }

  /** Lower-casing twice is lower-casing once. */
  lemma LowerIdempotent(s: string)
    ensures Lower(Lower(s)) == Lower(s)
  {
  }

  predicate IsDigit(c: char)
  {
    '0' <= c <= '9'
  }

  function DigitChar(d: nat): (c: char)
    requires d < 10
    ensures IsDigit(c)
  {
    (d + '0' as int) as char
  }

  /** Decimal rendering of a natural number, as Python's str(int) writes it. */
  function NatToString(n: nat): (s: string)
    ensures |s| >= 1
    ensures forall i :: 0 <= i < |s| ==> IsDigit(s[i])
  {
    if n < 10 then [DigitChar(n)] else NatToString(n / 10) + [DigitChar(n % 10)]
  }

  function DigitValue(c: char): (d: nat)
    requires IsDigit(c)
    ensures d < 10
  {
    c as int - '0' as int
  }

  /** The value of a string of decimal digits. */
  function ParseDecimal(s: string): nat
    requires forall i :: 0 <= i < |s| ==> IsDigit(s[i])
  {
    if s == [] then 0
    else ParseDecimal(s[..|s| - 1]) * 10 + DigitValue(s[|s| - 1])
  }

  /** Reading back a rendered number gives the number. */
  lemma {:induction false} ParseNatToString(n: nat)
    ensures ParseDecimal(NatToString(n)) == n
  {
    if n >= 10 {
      var s := NatToString(n);
      assert s[..|s| - 1] == NatToString(n / 10);
      ParseNatToString(n / 10);
    }
  }

  /** Decimal rendering of an integer, with a leading minus sign when negative. */
  function IntToString(n: int): (s: string)
    ensures |s| >= 1
    ensures forall i :: 0 <= i < |s| ==> IsDigit(s[i]) || (i == 0 && s[i] == '-')
  {
    if n < 0 then "-" + NatToString(-n) else NatToString(n)
  }

  /** The value of an optionally signed string of decimal digits. */
  function ParseInt(s: string): int
    requires forall i :: 0 <= i < |s| ==> IsDigit(s[i]) || (i == 0 && s[i] == '-')
  {
    if |s| > 0 && s[0] == '-' then -(ParseDecimal(s[1..]) as int) else ParseDecimal(s)
  }

  /** Reading back a rendered integer gives the integer. */
  lemma ParseIntToString(n: int)
    ensures ParseInt(IntToString(n)) == n
  {
    var s := IntToString(n);
    if n < 0 {
      assert s[1..] == NatToString(-n);
      ParseNatToString(-n);
    } else {
      assert IsDigit(s[0]);
      ParseNatToString(n);
    }
  }

  /** The part of `s` before the first occurrence of `c` (all of `s` when there is none). */
  function Before(s: string, c: char): (r: string)
    ensures c !in r
    ensures |r| <= |s| && r == s[..|r|]
  {
    if s == [] || s[0] == c then [] else [s[0]] + Before(s[1..], c)
  }

  lemma {:induction false} BeforeSeparator(head: string, tail: string, c: char)
    requires c !in head
    ensures Before(head + [c] + tail, c) == head
  {
    if head != [] {
      assert (head + [c] + tail)[1..] == head[1..] + [c] + tail;
      BeforeSeparator(head[1..], tail, c);
    }
  }
}

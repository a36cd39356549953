/** Python string operations the handlers rely on, on ASCII text: `split`,
    `replace`, `lower`, `str(n)` and `int(s)`. */
module Strings {
  import opened Wrappers

  /** `text.split(sep)`: the pieces between separators, in order. */
  function Split(text: string, sep: char): (parts: seq<string>)
    ensures |parts| >= 1
    ensures forall i :: 0 <= i < |parts| ==> sep !in parts[i]
  {
    if |text| == 0 then [""]
    else
      var rest := Split(text[1..], sep);
      if text[0] == sep then [""] + rest
      else [[text[0]] + rest[0]] + rest[1..]
  }

  /** A text without separator is one piece. */
  lemma {:induction false} SplitNoSeparator(text: string, sep: char)
    requires sep !in text
    ensures Split(text, sep) == [text]
  {
    if |text| > 0 {
      assert text[0] != sep && sep !in text[1..];
      SplitNoSeparator(text[1..], sep);
      assert [text[0]] + text[1..] == text;
    }
  }

  /** A leading piece without separator splits off as the first piece. */
  lemma {:induction false} SplitCons(a: string, rest: string, sep: char)
    requires sep !in a
    ensures Split(a + [sep] + rest, sep) == [a] + Split(rest, sep)
    decreases |a|
  {
    if |a| == 0 {
      assert a + [sep] + rest == [sep] + rest;
      assert ([sep] + rest)[1..] == rest;
    } else {
      assert (a + [sep] + rest)[1..] == a[1..] + [sep] + rest;
      assert sep !in a[1..];
      SplitCons(a[1..], rest, sep);
      assert [a[0]] + a[1..] == a;
    }
  }

  /** Splitting a text built as "a,b" gives back a and b when neither holds
      the separator. */
  lemma SplitJoin(a: string, b: string, sep: char)
    requires sep !in a && sep !in b
    ensures Split(a + [sep] + b, sep) == [a, b]
  {
    SplitCons(a, b, sep);
    SplitNoSeparator(b, sep);
  }

  /** `sep.join(parts)` */
  function Join(parts: seq<string>, sep: char): string
    requires |parts| >= 1
  {
    if |parts| == 1 then parts[0] else parts[0] + [sep] + Join(parts[1..], sep)
  }

  /** Two pieces joined. */
  lemma JoinTwo(a: string, b: string, sep: char)
    ensures Join([a, b], sep) == a + ([sep] + b)
  {
    assert [a, b][1..] == [b];
  }

  /** `split` undoes `join` when no piece holds the separator. */
  lemma {:induction false} SplitJoinAll(parts: seq<string>, sep: char)
    requires |parts| >= 1
    requires forall i :: 0 <= i < |parts| ==> sep !in parts[i]
    ensures Split(Join(parts, sep), sep) == parts
    decreases |parts|
  {
    if |parts| == 1 {
      SplitNoSeparator(parts[0], sep);
    } else {
      SplitCons(parts[0], Join(parts[1..], sep), sep);
      SplitJoinAll(parts[1..], sep);
      assert [parts[0]] + parts[1..] == parts;
    }
  }

  /** `text.replace(c, '')`: every occurrence of `c` goes, every other
      character stays, in order. */
  function Remove(text: string, c: char): (r: string)
    ensures c !in r
    ensures forall x :: x != c ==> multiset(r)[x] == multiset(text)[x]
    ensures |r| <= |text|
  {
    if |text| == 0 then ""
    else
      var rest := Remove(text[1..], c);
      assert text == [text[0]] + text[1..];
      if text[0] == c then rest else [text[0]] + rest
  }

  /** A text without `c` is left as it is. */
  lemma {:induction false} RemoveAbsent(text: string, c: char)
    requires c !in text
    ensures Remove(text, c) == text
  {
    if |text| > 0 {
      assert c !in text[1..];
      RemoveAbsent(text[1..], c);
      assert [text[0]] + text[1..] == text;
    }
  }

  /** `replace` works piecewise. */
  lemma {:induction false} RemoveConcat(a: string, b: string, c: char)
    ensures Remove(a + b, c) == Remove(a, c) + Remove(b, c)
    decreases |a|
  {
    if |a| == 0 {
      assert a + b == b;
    } else {
      assert (a + b)[1..] == a[1..] + b;
      RemoveConcat(a[1..], b, c);
    }
  }

  /** ASCII `lower()` of one character. */
  function LowerChar(c: char): char {
    if 'A' <= c <= 'Z' then (c as int + 32) as char else c
  }

  /** `text.lower()` on ASCII letters; other characters are kept. */
  function Lower(text: string): (r: string)
    ensures |r| == |text|
    ensures forall i :: 0 <= i < |text| ==> r[i] == LowerChar(text[i])
  {
    seq(|text|, i requires 0 <= i < |text| => LowerChar(text[i]))
  }

  function DigitChar(d: int): char
    requires 0 <= d <= 9
  {
    "0123456789"[d]
  }

  predicate IsDigit(c: char) {
    '0' <= c <= '9'
  }

  predicate AllDigits(s: string) {
    forall i :: 0 <= i < |s| ==> IsDigit(s[i])
  }

  /** `str(n)` for a natural number. */
  function Digits(n: nat): (s: string)
    ensures |s| >= 1 && AllDigits(s)
    ensures n >= 10 ==> |s| >= 2
  {
    if n < 10 then [DigitChar(n)] else Digits(n / 10) + [DigitChar(n % 10)]
  }

  /** `int(s)` on a string of ASCII digits. */
  function Value(s: string): (v: nat)
    requires AllDigits(s)
  {
    if |s| == 0 then 0
    else Value(s[..|s| - 1]) * 10 + (s[|s| - 1] as int - '0' as int)
  }

  lemma {:induction false} ValueOfDigits(n: nat)
    ensures Value(Digits(n)) == n
  {
    if n >= 10 {
      var s := Digits(n);
      assert s[..|s| - 1] == Digits(n / 10);
      ValueOfDigits(n / 10);
    }
  }

  lemma {:induction false} LeadingZero(s: string)
    requires AllDigits(s)
    ensures Value("0" + s) == Value(s)
    decreases |s|
  {
    if |s| > 0 {
      var t := "0" + s;
      assert t[..|t| - 1] == "0" + s[..|s| - 1];
      LeadingZero(s[..|s| - 1]);
    } else {
      assert "0" + s == "0";
    }
  }

  /** `f"{n:02}"`: at least two digits, zero-padded. */
  function Pad2(n: nat): (s: string)
    ensures |s| >= 2 && AllDigits(s)
  {
    if n < 10 then "0" + Digits(n) else Digits(n)
  }

  /** `int(f"{n:02}") == n`. */
  lemma PaddedRoundTrip(n: nat)
    ensures Value(Pad2(n)) == n
  {
    ValueOfDigits(n);
    if n < 10 {
      LeadingZero(Digits(n));
    }
  }

  /** `str(n)` for any integer. */
  function IntText(n: int): (s: string)
    ensures |s| >= 1
  {
    if n < 0 then "-" + Digits(-n) else Digits(n)
  }

  /** `int(s)`: an optional sign followed by at least one digit; anything
      else is a ValueError. */
  function ParseInt(s: string): (r: Option<int>)
    ensures r.Some? <==> (|s| >= 1 && AllDigits(s)) || (|s| >= 2 && (s[0] == '+' || s[0] == '-') && AllDigits(s[1..]))
  {
    if |s| >= 1 && AllDigits(s) then Some(Value(s))
    else if |s| >= 2 && (s[0] == '+' || s[0] == '-') && AllDigits(s[1..]) then
      var magnitude: int := Value(s[1..]);
      Some(if s[0] == '-' then -magnitude else magnitude)
    else None
  }

  /** `int(str(n)) == n`. */
  lemma IntTextRoundTrip(n: int)
    ensures ParseInt(IntText(n)) == Some(n)
  {
    if n < 0 {
      ValueOfDigits(-n);
      assert IntText(n)[1..] == Digits(-n);
    } else {
      ValueOfDigits(n);
    }
  }

  /** A zero-padded number reads back as itself. */
  lemma ParsePadded(n: nat)
    ensures ParseInt(Pad2(n)) == Some(n)
  {
    PaddedRoundTrip(n);
  }
}

/** The text helpers the save format needs: Python's str() on integers, and
    ' '.join / str.split(' ') on words. */
module Text {
  function DigitChar(d: nat): (c: char)
    requires d < 10
    ensures '0' <= c <= '9' && c as int - '0' as int == d
  {
    ('0' as int + d) as char
  }

  predicate IsDigits(s: string)
  {
    forall i :: 0 <= i < |s| ==> '0' <= s[i] <= '9'
  }

  /** The number a string of decimal digits denotes, most significant first. */
  function DigitsValue(s: string): nat
    requires IsDigits(s)
  {
    if s == [] then 0 else DigitsValue(s[..|s| - 1]) * 10 + (s[|s| - 1] as int - '0' as int)
  }

  /** Decimal digits of a natural number, most significant first, with no
      leading zero. */
  function NatToString(n: nat): (s: string)
    ensures |s| > 0 && IsDigits(s)
  {
    if n < 10 then [DigitChar(n)] else NatToString(n / 10) + [DigitChar(n % 10)]
  }

  /** The digits denote the number, and only zero starts with '0'. */
  lemma {:induction false} NatToStringValue(n: nat)
    ensures DigitsValue(NatToString(n)) == n
    ensures NatToString(n)[0] == '0' ==> n == 0
  {
    if n >= 10 {
      NatToStringValue(n / 10);
      var h := NatToString(n / 10);
      var s := NatToString(n);
      assert s[..|s| - 1] == h;
    }
  }

  /** str() of an int: its decimal digits, preceded by '-' when negative. */
  function IntToString(i: int): (s: string)
    ensures |s| > 0 && ' ' !in s
  {
    if i < 0 then "-" + NatToString(-i) else NatToString(i)
  }

  /** The string str() gives denotes the integer: a non-negative one is its
      digits with no leading zero, a negative one a '-' and then the digits
      of its magnitude. */
  lemma IntToStringValue(i: int)
    ensures var s := IntToString(i);
      (i >= 0 ==> IsDigits(s) && DigitsValue(s) == i && (s[0] == '0' ==> s == "0")) &&
      (i < 0 ==> s[0] == '-' && IsDigits(s[1..]) && DigitsValue(s[1..]) == -i && s[1] != '0')
  {
    if i < 0 {
      NatToStringValue(-i);
      var d := NatToString(-i);
      assert ("-" + d)[1..] == d;
    } else {
      NatToStringValue(i);
    }
  }

  /** ' '.join(words) */
  function Join(words: seq<string>): (s: string)
    ensures |words| > 0 ==> words[0] <= s
  {
    if words == [] then ""
    else if |words| == 1 then words[0]
    else words[0] + " " + Join(words[1..])
  }

  /** s.split(' '): the pieces between single spaces, empty pieces included. */
  function Split(s: string): (words: seq<string>)
    ensures |words| > 0
  {
    if s == [] then [""]
    else
      var rest := Split(s[1..]);
      if s[0] == ' ' then [""] + rest else [[s[0]] + rest[0]] + rest[1..]
  }

  /** A word without spaces, followed by a space, splits off as one piece. */
  lemma {:induction false} SplitWord(w: string, tail: string)
    requires ' ' !in w
    ensures Split(w) == [w]
    ensures Split(w + " " + tail) == [w] + Split(tail)
  {
    if w != [] {
      SplitWord(w[1..], tail);
      assert (w + " " + tail)[1..] == w[1..] + " " + tail;
      assert [w[0]] + w[1..] == w;
    } else {
      assert w + " " + tail == [' '] + tail;
      assert ([' '] + tail)[1..] == tail;
    }
  }

  /** Splitting a joined line on spaces gives back the words, provided no word
      contains a space. */
  lemma {:induction false} SplitJoin(words: seq<string>)
    requires |words| > 0
    requires forall i :: 0 <= i < |words| ==> ' ' !in words[i]
    ensures Split(Join(words)) == words
  {
    SplitWord(words[0], if |words| == 1 then "" else Join(words[1..]));
    if |words| > 1 {
      SplitJoin(words[1..]);
      assert words == [words[0]] + words[1..];
    }
  }
}

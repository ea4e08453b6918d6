/** The string operations the script relies on: `split` with a one-character
    separator, `join`, ASCII upper-casing and the decimal rendering of a
    non-negative number. */
module Text {

  /** Number of occurrences of `d` in `s`. */
  function Count(d: char, s: string): nat
  {
    if s == [] then 0 else (if s[0] == d then 1 else 0) + Count(d, s[1..])
  }

  lemma {:induction false} CountAppend(d: char, a: string, b: string)
    ensures Count(d, a + b) == Count(d, a) + Count(d, b)
  {
    if a == [] {
      assert a + b == b;
    } else {
      assert (a + b)[0] == a[0];
      assert (a + b)[1..] == a[1..] + b;
      CountAppend(d, a[1..], b);
    }
  }

  lemma {:induction false} CountAbsent(d: char, s: string)
    requires d !in s
    ensures Count(d, s) == 0
  {
    if s != [] {
      assert s[0] != d;
      CountAbsent(d, s[1..]);
    }
  }

  /** `s.split(d)` for a one-character separator: one part more than there
      are separators, no part holds the separator, and every character of a
      part comes from `s`. */
  function Split(s: string, d: char): (parts: seq<string>)
    ensures |parts| == Count(d, s) + 1
    ensures forall i :: 0 <= i < |parts| ==> d !in parts[i]
    ensures forall i :: 0 <= i < |parts| ==> forall c :: c in parts[i] ==> c in s
    decreases |s|
  {
    if s == [] then [""]
    else
      var rest := Split(s[1..], d);
      if s[0] == d then [""] + rest
      else [[s[0]] + rest[0]] + rest[1..]
  }

  /** `ws.join(sep)`: the empty list joins to the empty string. */
  function Join(ws: seq<string>, sep: string): string
  {
    if ws == [] then ""
    else if |ws| == 1 then ws[0]
    else ws[0] + sep + Join(ws[1..], sep)
  }

  /** Joining the parts of a split with the same separator gives back the
      original string. */
  lemma {:induction false} JoinSplit(s: string, d: char)
    ensures Join(Split(s, d), [d]) == s
  {
    if s != [] {
      var rest := Split(s[1..], d);
      JoinSplit(s[1..], d);
      if s[0] == d {
        assert Split(s, d) == [""] + rest;
        assert ([""] + rest)[1..] == rest;
      } else {
        var parts := [[s[0]] + rest[0]] + rest[1..];
        assert Split(s, d) == parts;
        if |rest| == 1 {
          assert Join(rest, [d]) == rest[0];
        } else {
          assert parts[1..] == rest[1..];
          assert Join(rest, [d]) == rest[0] + [d] + Join(rest[1..], [d]);
        }
        assert s == [s[0]] + s[1..];
      }
    }
  }

  /** Splitting a word that holds no separator gives that word alone. */
  lemma {:induction false} SplitWord(w: string, d: char)
    requires d !in w
    ensures Split(w, d) == [w]
  {
    if w != [] {
      SplitWord(w[1..], d);
      assert [w[0]] + w[1..] == w;
    }
  }

  /** A separator after a separator-free word closes that word. */
  lemma {:induction false} SplitAfterWord(w: string, d: char, t: string)
    requires d !in w
    ensures Split(w + [d] + t, d) == [w] + Split(t, d)
  {
    if w == [] {
      assert w + [d] + t == [d] + t;
      assert ([d] + t)[1..] == t;
    } else {
      assert (w + [d] + t)[1..] == w[1..] + [d] + t;
      SplitAfterWord(w[1..], d, t);
      assert [w[0]] + w[1..] == w;
    }
  }

  /** Splitting a join of separator-free words gives back the words. */
  lemma {:induction false} SplitJoin(ws: seq<string>, d: char)
    requires ws != []
    requires forall i :: 0 <= i < |ws| ==> d !in ws[i]
    ensures Split(Join(ws, [d]), d) == ws
  {
    if |ws| == 1 {
      SplitWord(ws[0], d);
    } else {
      SplitJoin(ws[1..], d);
      SplitAfterWord(ws[0], d, Join(ws[1..], [d]));
      assert [ws[0]] + ws[1..] == ws;
    }
  }

  /** Joining words that hold no `d` with a separator holding `d` exactly
      once puts exactly one `d` between neighbouring words. */
  lemma {:induction false} JoinCount(ws: seq<string>, sep: string, d: char)
    requires ws != []
    requires Count(d, sep) == 1
    requires forall i :: 0 <= i < |ws| ==> d !in ws[i]
    ensures Count(d, Join(ws, sep)) == |ws| - 1
  {
    if |ws| == 1 {
      CountAbsent(d, ws[0]);
    } else {
      JoinCount(ws[1..], sep, d);
      CountAbsent(d, ws[0]);
      CountAppend(d, ws[0], sep);
      CountAppend(d, ws[0] + sep, Join(ws[1..], sep));
    }
  }

  /** `toUpperCase` on one character, restricted to ASCII letters. */
  function Upper(c: char): (u: char)
    ensures 'a' <= c <= 'z' ==> 'A' <= u <= 'Z' && u as int == c as int - 32
    ensures !('a' <= c <= 'z') ==> u == c
  {
    if 'a' <= c <= 'z' then (c as int - 'a' as int + 'A' as int) as char else c
  }

  predicate IsDigit(c: char)
  {
    '0' <= c <= '9'
  }

  /** Decimal rendering of a non-negative number, as `String(n)` gives it. */
  function NatToDecimal(n: nat): (s: string)
    ensures s != []
    ensures forall i :: 0 <= i < |s| ==> IsDigit(s[i])
    ensures s[0] == '0' ==> n == 0 && s == "0"
  {
    if n < 10 then [('0' as int + n) as char]
    else NatToDecimal(n / 10) + [('0' as int + n % 10) as char]
  }

  /** The number a string of decimal digits denotes. */
  function DecimalValue(s: string): nat
    requires forall i :: 0 <= i < |s| ==> IsDigit(s[i])
  {
    if s == [] then 0
    else
      assert IsDigit(s[|s| - 1]);
      DecimalValue(s[..|s| - 1]) * 10 + (s[|s| - 1] as int - '0' as int)
  }

  /** `digits` is a non-empty run of decimal digits without a leading zero
      that denotes `n`. */
  predicate Denotes(digits: string, n: nat)
  {
    && |digits| > 0
    && (forall i :: 0 <= i < |digits| ==> IsDigit(digits[i]))
    && (digits[0] == '0' ==> digits == "0")
    && DecimalValue(digits) == n
  }

  /** The rendering denotes the number it renders. */
  lemma {:induction false} DecimalRoundTrip(n: nat)
    ensures DecimalValue(NatToDecimal(n)) == n
  {
    var s := NatToDecimal(n);
    if n >= 10 {
      DecimalRoundTrip(n / 10);
      assert s[..|s| - 1] == NatToDecimal(n / 10);
    }
  }
}

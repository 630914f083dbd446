/**
 The string operations the summarizer relies on: Python's `str.split` with a
 one-character separator, `str.replace` of one character, and the decimal
 rendering of a natural number that f-strings perform.
 */
module Text {

  /** Number of occurrences of `c` in `s`. */
  function Occurrences(s: string, c: char): nat {
    if |s| == 0 then 0 else (if s[0] == c then 1 else 0) + Occurrences(s[1..], c)
  }

  /**
   `s.split(c)`: the maximal pieces between separators, so there is always one
   more piece than there are separators, and no piece contains one.
   */
  function Split(s: string, c: char): (parts: seq<string>)
    ensures |parts| == Occurrences(s, c) + 1
    ensures forall i :: 0 <= i < |parts| ==> c !in parts[i]
  {
    if |s| == 0 then [""]
    else
      var rest := Split(s[1..], c);
      if s[0] == c then [""] + rest
      else [[s[0]] + rest[0]] + rest[1..]
  }

  /** `c.join(parts)` */
  function Join(parts: seq<string>, c: char): string
    requires |parts| >= 1
  {
    if |parts| == 1 then parts[0] else parts[0] + [c] + Join(parts[1..], c)
  }

  lemma {:induction false} JoinStep(parts: seq<string>, c: char)
    requires |parts| >= 2
    ensures Join(parts, c) == parts[0] + [c] + Join(parts[1..], c)
  {
  }

  /** Joining the pieces of a split gives back the original string. */
  lemma {:induction false} JoinSplit(s: string, c: char)
    ensures Join(Split(s, c), c) == s
  {
    if |s| > 0 {
      var rest := Split(s[1..], c);
      JoinSplit(s[1..], c);
      if s[0] == c {
        assert Split(s, c) == [""] + rest;
        assert ([""] + rest)[1..] == rest;
        assert Join(Split(s, c), c) == "" + [c] + Join(rest, c);
        assert s == [s[0]] + s[1..];
      } else {
        var parts := Split(s, c);
        assert parts == [[s[0]] + rest[0]] + rest[1..];
        if |rest| == 1 {
          assert Join(parts, c) == [s[0]] + rest[0];
          assert s == [s[0]] + s[1..];
        } else {
          assert parts[1..] == rest[1..];
          JoinStep(parts, c);
          JoinStep(rest, c);
          assert Join(parts, c) == [s[0]] + (rest[0] + [c] + Join(rest[1..], c));
          assert s == [s[0]] + s[1..];
        }
      }
    }
  }

  lemma {:induction false} SplitLeadingSeparator(t: string, c: char)
    ensures Split([c] + t, c) == [""] + Split(t, c)
  {
    assert ([c] + t)[1..] == t;
  }

  /** A separator-free prefix glues onto the first piece of what follows it. */
  lemma {:induction false} SplitPrefix(p: string, t: string, c: char)
    requires c !in p
    ensures Split(p + t, c) == [p + Split(t, c)[0]] + Split(t, c)[1..]
  {
    if |p| > 0 {
      var q := p[1..];
      SplitPrefix(q, t, c);
      assert (p + t)[1..] == q + t;
      assert (p + t)[0] == p[0];
      assert p[0] != c;
      assert [p[0]] + (q + Split(t, c)[0]) == p + Split(t, c)[0];
    } else {
      var parts := Split(t, c);
      assert p + t == t;
      assert p + parts[0] == parts[0];
      assert parts == [parts[0]] + parts[1..];
    }
  }

  /** Splitting a join of separator-free pieces gives back the pieces. */
  lemma {:induction false} SplitJoin(parts: seq<string>, c: char)
    requires |parts| >= 1
    requires forall i :: 0 <= i < |parts| ==> c !in parts[i]
    ensures Split(Join(parts, c), c) == parts
  {
    if |parts| == 1 {
      SplitPrefix(parts[0], "", c);
      assert parts[0] + "" == parts[0];
    } else {
      var tail := Join(parts[1..], c);
      SplitJoin(parts[1..], c);
      JoinStep(parts, c);
      assert Join(parts, c) == parts[0] + ([c] + tail);
      SplitPrefix(parts[0], [c] + tail, c);
      SplitLeadingSeparator(tail, c);
      var r := Split([c] + tail, c);
      assert r == [""] + parts[1..];
      assert r[0] == "" && r[1..] == parts[1..];
      assert parts[0] + r[0] == parts[0];
      assert Split(Join(parts, c), c) == [parts[0]] + parts[1..];
      assert parts == [parts[0]] + parts[1..];
    }
  }

  /**
   A string splits into exactly two pieces iff it holds the separator exactly
   once, and then it is the first piece, the separator and the second piece.
   */
  lemma TwoPieces(s: string, c: char)
    ensures |Split(s, c)| == 2 <==> Occurrences(s, c) == 1
    ensures |Split(s, c)| == 2 ==> s == Split(s, c)[0] + [c] + Split(s, c)[1]
  {
    JoinSplit(s, c);
    var parts := Split(s, c);
    if |parts| == 2 {
      JoinStep(parts, c);
      assert Join(parts[1..], c) == parts[1];
    }
  }

  /** `s.replace(c, t)` for a one-character pattern. */
  function ReplaceChar(s: string, c: char, t: string): (r: string)
    ensures c !in t ==> c !in r
    ensures forall x :: x in r ==> x in s || x in t
  {
    if |s| == 0 then ""
    else (if s[0] == c then t else [s[0]]) + ReplaceChar(s[1..], c, t)
  }

  /** Each occurrence of the pattern changes the length by the replacement's extra length. */
  lemma {:induction false} ReplaceCharLength(s: string, c: char, t: string)
    ensures |ReplaceChar(s, c, t)| == |s| + Occurrences(s, c) * (|t| - 1)
  {
    if |s| > 0 {
      ReplaceCharLength(s[1..], c, t);
      var n := Occurrences(s[1..], c);
      if s[0] == c {
        assert Occurrences(s, c) == n + 1;
        assert (n + 1) * (|t| - 1) == n * (|t| - 1) + |t| - 1;
      }
    }
  }

  lemma {:induction false} ReplaceAbsent(s: string, c: char, t: string)
    requires c !in s
    ensures ReplaceChar(s, c, t) == s
  {
    if |s| > 0 {
      assert s[0] in s;
      assert forall x :: x in s[1..] ==> x in s;
      ReplaceAbsent(s[1..], c, t);
      assert s == [s[0]] + s[1..];
    }
  }

  lemma ReplaceCharOne(x: char, c: char, t: string)
    ensures ReplaceChar([x], c, t) == if x == c then t else [x]
  {
    assert [x][1..] == [];
  }

  lemma ReplaceCharHead(s: string, c: char, t: string)
    requires |s| > 0
    ensures ReplaceChar(s, c, t) == (if s[0] == c then t else [s[0]]) + ReplaceChar(s[1..], c, t)
  {
  }

  lemma ReplaceCharCons(a: string, b: string, c: char, t: string)
    requires |a| > 0
    requires ReplaceChar(a[1..] + b, c, t) == ReplaceChar(a[1..], c, t) + ReplaceChar(b, c, t)
    ensures ReplaceChar(a + b, c, t) == ReplaceChar(a, c, t) + ReplaceChar(b, c, t)
  {
    var ab := a + b;
    assert ab[0] == a[0] && ab[1..] == a[1..] + b;
    var h := if a[0] == c then t else [a[0]];
    var x, y := ReplaceChar(a[1..], c, t), ReplaceChar(b, c, t);
    calc {
      ReplaceChar(ab, c, t);
      { ReplaceCharHead(ab, c, t); }
      h + ReplaceChar(ab[1..], c, t);
      h + (x + y);
      { SeqAssoc(h, x, y); }
      (h + x) + y;
      { ReplaceCharHead(a, c, t); }
      ReplaceChar(a, c, t) + y;
    }
  }

  lemma SeqAssoc(h: string, x: string, y: string)
    ensures h + (x + y) == (h + x) + y
  {
  }

  /**
   `replace` works one character at a time: the pattern character becomes the
   replacement, every other character stays, and the replacement of a
   concatenation is the concatenation of the replacements.
   */
  lemma {:induction false} ReplaceCharPieces(a: string, b: string, c: char, t: string)
    ensures forall x :: ReplaceChar([x], c, t) == if x == c then t else [x]
    ensures ReplaceChar(a + b, c, t) == ReplaceChar(a, c, t) + ReplaceChar(b, c, t)
  {
    forall x ensures ReplaceChar([x], c, t) == if x == c then t else [x] {
      ReplaceCharOne(x, c, t);
    }
    if |a| == 0 {
      assert a + b == b;
    } else {
      ReplaceCharPieces(a[1..], b, c, t);
      ReplaceCharCons(a, b, c, t);
    }
  }

  function DigitChar(d: nat): (ch: char)
    requires d < 10
    ensures '0' <= ch <= '9'
  {
    (48 + d) as char
  }

  function DigitValue(ch: char): nat
    requires '0' <= ch <= '9'
  {
    (ch as int) - 48
  }

  ghost predicate IsDigits(s: string) {
    forall i :: 0 <= i < |s| ==> '0' <= s[i] <= '9'
  }

  /** The decimal text an f-string produces for a non-negative integer. */
  function NatToString(n: nat): (s: string)
    ensures |s| >= 1
    ensures IsDigits(s)
    ensures |s| > 1 ==> s[0] != '0'
    decreases n
  {
    if n < 10 then [DigitChar(n)] else NatToString(n / 10) + [DigitChar(n % 10)]
  }

  /** The value of a string of decimal digits. */
  function ParseNat(s: string): nat
    requires IsDigits(s)
  {
    if |s| == 0 then 0 else 10 * ParseNat(s[..|s| - 1]) + DigitValue(s[|s| - 1])
  }

  /** Reading the decimal rendering of `n` back gives `n`. */
  lemma {:induction false} ParseNatToString(n: nat)
    ensures ParseNat(NatToString(n)) == n
    decreases n
  {
    var s := NatToString(n);
    if n >= 10 {
      ParseNatToString(n / 10);
      assert s[..|s| - 1] == NatToString(n / 10);
    }
  }
}

/** The three Ruby core primitives the launcher leans on, stated exactly:
    `String#split` with a one-character separator, `String#to_i` in base 10
    (and `nil.to_i`), and `Integer#to_s`. */
module RubyText {

  /** A Ruby value that may be `nil`. */
  datatype Option<T> = None | Some(value: T)

  // ---------------------------------------------------------------------
  // String#split(sep)
  // ---------------------------------------------------------------------

  /** Every field between separators, empty ones included (Ruby's split
      with a negative limit). Never empty: "" has the one field "". */
  function SplitAll(s: string, sep: char): (r: seq<string>)
    ensures |r| >= 1
    ensures forall i :: 0 <= i < |r| ==> sep !in r[i]
    decreases |s|
  {
    if |s| == 0 then [""]
    else if s[0] == sep then [""] + SplitAll(s[1..], sep)
    else
      var rest := SplitAll(s[1..], sep);
      [[s[0]] + rest[0]] + rest[1..]
  }

  /** Removes the run of empty fields at the end. */
  function DropTrailingEmpty(fields: seq<string>): (r: seq<string>)
    ensures |r| <= |fields| && r == fields[..|r|]
    ensures forall i :: |r| <= i < |fields| ==> fields[i] == ""
    ensures r == [] || r[|r| - 1] != ""
  {
    if |fields| == 0 then []
    else if fields[|fields| - 1] == "" then DropTrailingEmpty(fields[..|fields| - 1])
    else fields
  }

  /** `s.split(sep)` for a one-character separator other than a space:
      leading and inner empty fields are kept, trailing ones are dropped,
      so "" and ",," both give []. */
  function Split(s: string, sep: char): (r: seq<string>)
    ensures forall i :: 0 <= i < |r| ==> sep !in r[i]
    ensures r == [] || r[|r| - 1] != ""
  {
    DropTrailingEmpty(SplitAll(s, sep))
  }

  /** `fields.join(sep)`. */
  function Join(fields: seq<string>, sep: char): string
  {
    if |fields| == 0 then ""
    else if |fields| == 1 then fields[0]
    else fields[0] + [sep] + Join(fields[1..], sep)
  }

  /** Joining the fields of a split gives back the text. */
  lemma {:induction false} JoinSplitAll(s: string, sep: char)
    ensures Join(SplitAll(s, sep), sep) == s
    decreases |s|
  {
    if |s| > 0 {
      var rest := SplitAll(s[1..], sep);
      JoinSplitAll(s[1..], sep);
      if s[0] == sep {
        assert SplitAll(s, sep) == [""] + rest;
        assert ([""] + rest)[1..] == rest;
        assert s == [sep] + s[1..];
      } else {
        var r := SplitAll(s, sep);
        assert r == [[s[0]] + rest[0]] + rest[1..];
        if |rest| == 1 {
          assert s == [s[0]] + s[1..];
        } else {
          assert r[1..] == rest[1..];
          assert Join(rest, sep) == rest[0] + [sep] + Join(rest[1..], sep);
          assert s == [s[0]] + s[1..];
        }
      }
    }
  }

  /** A text without the separator is one field. */
  lemma {:induction false} SplitAllSingle(q: string, sep: char)
    requires sep !in q
    ensures SplitAll(q, sep) == [q]
    decreases |q|
  {
    if |q| > 0 {
      SplitAllSingle(q[1..], sep);
      assert q == [q[0]] + q[1..];
    }
  }

  /** A separator after a separator-free text closes exactly that field. */
  lemma {:induction false} SplitAllCons(q: string, sep: char, r: string)
    requires sep !in q
    ensures SplitAll(q + [sep] + r, sep) == [q] + SplitAll(r, sep)
    decreases |q|
  {
    var s := q + [sep] + r;
    if |q| == 0 {
      assert s == [sep] + r;
      assert s[1..] == r;
    } else {
      assert s[1..] == q[1..] + [sep] + r;
      SplitAllCons(q[1..], sep, r);
      assert q == [q[0]] + q[1..];
    }
  }

  /** Splitting a join of separator-free fields gives the fields back. */
  lemma {:induction false} SplitAllJoin(xs: seq<string>, sep: char)
    requires |xs| >= 1
    requires forall i :: 0 <= i < |xs| ==> sep !in xs[i]
    ensures SplitAll(Join(xs, sep), sep) == xs
    decreases |xs|
  {
    if |xs| == 1 {
      SplitAllSingle(xs[0], sep);
    } else {
      SplitAllJoin(xs[1..], sep);
      SplitAllCons(xs[0], sep, Join(xs[1..], sep));
      assert xs == [xs[0]] + xs[1..];
    }
  }

  /** `split` undoes `join` up to the empty fields at the end, which Ruby
      drops: exactly the fields come back when the last one is not empty. */
  lemma SplitJoin(xs: seq<string>, sep: char)
    requires forall i :: 0 <= i < |xs| ==> sep !in xs[i]
    ensures Split(Join(xs, sep), sep) == DropTrailingEmpty(xs)
    ensures xs == [] || xs[|xs| - 1] != "" ==> Split(Join(xs, sep), sep) == xs
  {
    if xs != [] {
      SplitAllJoin(xs, sep);
    }
  }

  /** A separator at the end adds one empty field. */
  lemma {:induction false} SplitAllSnoc(s: string, sep: char)
    ensures SplitAll(s + [sep], sep) == SplitAll(s, sep) + [""]
    decreases |s|
  {
    var t := s + [sep];
    if |s| == 0 {
      assert t == [sep] && t[1..] == [];
    } else {
      assert t[1..] == s[1..] + [sep];
      SplitAllSnoc(s[1..], sep);
      if s[0] != sep {
        var rest := SplitAll(s[1..], sep);
        assert (rest + [""])[0] == rest[0];
        assert (rest + [""])[1..] == rest[1..] + [""];
      }
    }
  }

  /** A trailing separator changes nothing: its empty field is dropped. */
  lemma SplitTrailingSeparator(s: string, sep: char)
    ensures Split(s + [sep], sep) == Split(s, sep)
  {
    SplitAllSnoc(s, sep);
    var all := SplitAll(s, sep);
    assert (all + [""])[..|all|] == all;
  }

  /** A text without the separator splits into itself, or nothing when empty. */
  lemma SplitOneField(s: string, sep: char)
    ensures sep !in s ==> Split(s, sep) == if s == "" then [] else [s]
  {
    if sep !in s {
      SplitAllSingle(s, sep);
    }
  }

  predicate AllEmpty(fields: seq<string>)
  {
    forall i :: 0 <= i < |fields| ==> fields[i] == ""
  }

  predicate AllSeparators(s: string, sep: char)
  {
    forall i :: 0 <= i < |s| ==> s[i] == sep
  }

  /** Every field of a text is empty exactly when the text is nothing but
      separators. */
  lemma {:induction false} SplitAllEmptyFields(s: string, sep: char)
    ensures AllEmpty(SplitAll(s, sep)) <==> AllSeparators(s, sep)
    decreases |s|
  {
    if |s| > 0 {
      SplitAllEmptyFields(s[1..], sep);
      var rest := SplitAll(s[1..], sep);
      var all := SplitAll(s, sep);
      if s[0] == sep {
        assert all == [""] + rest;
        assert AllEmpty(all) <==> AllEmpty(rest) by {
          if AllEmpty(rest) {
            forall i | 0 <= i < |all| ensures all[i] == "" {
              if i > 0 { assert all[i] == rest[i - 1]; }
            }
          }
          if AllEmpty(all) {
            forall i | 0 <= i < |rest| ensures rest[i] == "" {
              assert rest[i] == all[i + 1];
            }
          }
        }
        if AllSeparators(s[1..], sep) {
          forall i | 0 <= i < |s| ensures s[i] == sep {
            if i > 0 { assert s[i] == s[1..][i - 1]; }
          }
        }
      } else {
        assert all[0] != "";
      }
    }
  }

  /** `split` gives no field exactly when the text is nothing but separators
      (the empty text included). */
  lemma SplitEmpty(s: string, sep: char)
    ensures Split(s, sep) == [] <==> AllSeparators(s, sep)
  {
    SplitAllEmptyFields(s, sep);
    var all := SplitAll(s, sep);
    var r := Split(s, sep);
    assert r == [] || r[|r| - 1] == all[|r| - 1];
  }

  /** A character that is neither the separator nor in any field is not in
      their join. */
  lemma {:induction false} JoinAvoids(xs: seq<string>, sep: char, c: char)
    requires c != sep
    requires forall i :: 0 <= i < |xs| ==> c !in xs[i]
    ensures c !in Join(xs, sep)
    decreases |xs|
  {
    if |xs| > 1 {
      JoinAvoids(xs[1..], sep, c);
    }
  }

  // ---------------------------------------------------------------------
  // String#to_i and Integer#to_s
  // ---------------------------------------------------------------------

  /** The white space `to_i` skips before a number: space, \t, \n, \v, \f, \r. */
  predicate IsSpace(c: char)
  {
    c == ' ' || (9 as char <= c <= 13 as char)
  }

  predicate IsDigit(c: char)
  {
    '0' <= c <= '9'
  }

  predicate AllDigits(s: string)
  {
    forall i :: 0 <= i < |s| ==> IsDigit(s[i])
  }

  function SkipSpace(s: string): (t: string)
    ensures |t| <= |s| && t == s[|s| - |t|..]
    ensures t == [] || !IsSpace(t[0])
  {
    if |s| > 0 && IsSpace(s[0]) then SkipSpace(s[1..]) else s
  }

  /** The digits of the longest prefix of the form d(_?d)*: a single
      underscore between two digits is skipped, anything else ends the number. */
  function DigitRun(s: string): (ds: string)
    ensures AllDigits(ds)
    ensures |ds| <= |s|
    ensures s == [] || !IsDigit(s[0]) ==> ds == []
  {
    if |s| == 0 || !IsDigit(s[0]) then []
    else if |s| >= 3 && s[1] == '_' && IsDigit(s[2]) then [s[0]] + DigitRun(s[2..])
    else [s[0]] + DigitRun(s[1..])
  }

  function DigitValue(c: char): nat
    requires IsDigit(c)
  {
    c as int - '0' as int
  }

  /** The value of a string of decimal digits, most significant first. */
  function DecimalValue(ds: string): nat
    requires AllDigits(ds)
  {
    if |ds| == 0 then 0
    else DecimalValue(ds[..|ds| - 1]) * 10 + DigitValue(ds[|ds| - 1])
  }

  /** `s.to_i`: skip white space, then read a number; 0 when there are no
      digits. It never fails. */
  function ToI(s: string): (n: int)
    ensures (forall i :: 0 <= i < |s| ==> !IsDigit(s[i])) ==> n == 0
  {
    var t := SkipSpace(s);
    assert forall i :: 0 <= i < |t| ==> t[i] == s[|s| - |t| + i];
    ReadNumber(t)
  }

  /** The number at the head of a text that starts with no blank: an optional
      sign, then the digit run. */
  function ReadNumber(t: string): (n: int)
    ensures (forall i :: 0 <= i < |t| ==> !IsDigit(t[i])) ==> n == 0
  {
    if |t| > 0 && t[0] == '-' then -(DecimalValue(DigitRun(t[1..])) as int)
    else if |t| > 0 && t[0] == '+' then DecimalValue(DigitRun(t[1..]))
    else DecimalValue(DigitRun(t))
  }

  /** `x.to_i` where `x` may be nil: `nil.to_i` is 0. */
  function NilToI(x: Option<string>): (n: int)
    ensures x.None? ==> n == 0
  {
    match x
    case None => 0
    case Some(s) => ToI(s)
  }

  function DigitChar(d: nat): (c: char)
    requires d < 10
    ensures IsDigit(c) && DigitValue(c) == d
  {
    ('0' as int + d) as char
  }

  /** Decimal digits of a natural number, without leading zeros. */
  function NatToString(n: nat): (s: string)
    ensures |s| >= 1 && AllDigits(s)
    ensures s[0] == '0' <==> n == 0
  {
    if n < 10 then [DigitChar(n)]
    else NatToString(n / 10) + [DigitChar(n % 10)]
  }

  /** `n.to_s`: a minus sign for negative numbers, then the digits, the
      first of which is `0` only for zero itself. */
  function IntToString(n: int): (s: string)
    ensures |s| >= if n < 0 then 2 else 1
    ensures s[0] == '-' <==> n < 0
    ensures forall i :: 0 <= i < |s| ==> IsDigit(s[i]) || (i == 0 && n < 0)
    ensures s[if n < 0 then 1 else 0] == '0' <==> n == 0
    ensures n == 0 ==> s == "0"
  {
    if n < 0 then "-" + NatToString(-n) else NatToString(n)
  }

  lemma {:induction false} DigitRunOfDigits(ds: string)
    requires AllDigits(ds)
    ensures DigitRun(ds) == ds
    decreases |ds|
  {
    if |ds| > 0 {
      DigitRunOfDigits(ds[1..]);
      assert ds == [ds[0]] + ds[1..];
    }
  }

  lemma {:induction false} DecimalValueOfNatToString(n: nat)
    ensures DecimalValue(NatToString(n)) == n
  {
    if n >= 10 {
      var s := NatToString(n);
      DecimalValueOfNatToString(n / 10);
      assert s[..|s| - 1] == NatToString(n / 10);
    }
  }

  /** Leading white space is skipped up to the first other character. */
  lemma {:induction false} SkipSpaceOver(ws: string, t: string)
    requires forall i :: 0 <= i < |ws| ==> IsSpace(ws[i])
    requires t == [] || !IsSpace(t[0])
    ensures SkipSpace(ws + t) == t
    decreases |ws|
  {
    if |ws| > 0 {
      assert (ws + t)[1..] == ws[1..] + t;
      SkipSpaceOver(ws[1..], t);
    } else {
      assert ws + t == t;
    }
  }

  /** What can follow a number without extending it: the end of the text,
      or a character that is neither a digit nor `_` before a digit. */
  predicate EndsNumber(rest: string)
  {
    rest == [] || (!IsDigit(rest[0]) && !(rest[0] == '_' && |rest| >= 2 && IsDigit(rest[1])))
  }

  /** The digit run stops where the number ends. */
  lemma {:induction false} DigitRunStops(ds: string, rest: string)
    requires AllDigits(ds) && EndsNumber(rest)
    ensures DigitRun(ds + rest) == ds
    decreases |ds|
  {
    var s := ds + rest;
    if |ds| == 0 {
      assert s == rest;
    } else {
      assert s[1..] == ds[1..] + rest;
      DigitRunStops(ds[1..], rest);
      assert ds == [ds[0]] + ds[1..];
      if |ds| >= 2 {
        assert s[1] == ds[1];
      } else {
        assert s[1..] == rest;
      }
    }
  }

  /** `to_i` reads the number at the head of the text (blanks, an optional
      sign, digits) and ignores whatever follows it. */
  lemma ToIOfLeadingNumber(s: string, ws: string, sign: string, ds: string, rest: string)
    requires s == ws + sign + ds + rest
    requires forall i :: 0 <= i < |ws| ==> IsSpace(ws[i])
    requires sign == "" || sign == "-" || sign == "+"
    requires |ds| >= 1 && AllDigits(ds)
    requires EndsNumber(rest)
    ensures ToI(s) == if sign == "-" then -(DecimalValue(ds) as int) else DecimalValue(ds) as int
  {
    DigitRunStops(ds, rest);
    Regroup(s, ws, sign, ds, rest);
    ToIOfSignedRun(s, ws, sign, ds + rest, ds);
  }

  /** Proof step only: the digits and what follows them as one text. */
  lemma Regroup(s: string, ws: string, sign: string, ds: string, rest: string)
    requires s == ws + sign + ds + rest
    ensures s == ws + sign + (ds + rest)
  {
  }

  /** Blanks, an optional sign, then a text `u` whose digit run is `ds`. */
  lemma ToIOfSignedRun(s: string, ws: string, sign: string, u: string, ds: string)
    requires s == ws + sign + u
    requires forall i :: 0 <= i < |ws| ==> IsSpace(ws[i])
    requires sign == "" || sign == "-" || sign == "+"
    requires |u| >= 1 && IsDigit(u[0]) && DigitRun(u) == ds
    ensures ToI(s) == if sign == "-" then -(DecimalValue(ds) as int) else DecimalValue(ds) as int
  {
    SplitOffBlanks(s, ws, sign, u);
    if sign == "" {
      ToIOfDigitRun(s, ws, u);
    } else {
      ToIOfSignedDigitRun(s, ws, sign[0], u);
    }
  }

  /** Blanks, then a text `u` that starts with a digit: its digit run. */
  lemma ToIOfDigitRun(s: string, ws: string, u: string)
    requires s == ws + u
    requires forall i :: 0 <= i < |ws| ==> IsSpace(ws[i])
    requires |u| >= 1 && IsDigit(u[0])
    ensures ToI(s) == DecimalValue(DigitRun(u))
  {
    SkipSpaceOver(ws, u);
    assert ToI(s) == ReadNumber(u);
  }

  /** Blanks, a sign, then a text `u`: the signed value of its digit run. */
  lemma ToIOfSignedDigitRun(s: string, ws: string, c: char, u: string)
    requires s == ws + ([c] + u)
    requires forall i :: 0 <= i < |ws| ==> IsSpace(ws[i])
    requires c == '-' || c == '+'
    ensures ToI(s)
         == if c == '-' then -(DecimalValue(DigitRun(u)) as int) else DecimalValue(DigitRun(u)) as int
  {
    var t := [c] + u;
    ReadSigned(t, c, u);
    SkipSpaceOver(ws, t);
    assert ToI(s) == ReadNumber(t);
  }

  /** After a sign, `ReadNumber` reads the digit run of what follows it. */
  lemma ReadSigned(t: string, c: char, u: string)
    requires c == '-' || c == '+'
    requires t == [c] + u
    ensures ReadNumber(t)
         == if c == '-' then -(DecimalValue(DigitRun(u)) as int) else DecimalValue(DigitRun(u)) as int
  {
    assert t[0] == c && t[1..] == u;
  }

  /** Text whose first non-blank character starts no number (after an
      optional sign, no digit follows) reads as 0. */
  lemma ToIWithoutLeadingNumber(s: string, ws: string, sign: string, rest: string)
    requires s == ws + sign + rest
    requires forall i :: 0 <= i < |ws| ==> IsSpace(ws[i])
    requires sign == "" || sign == "-" || sign == "+"
    requires rest == [] || !IsDigit(rest[0])
    requires sign == "" ==> rest == [] || (!IsSpace(rest[0]) && rest[0] != '-' && rest[0] != '+')
    ensures ToI(s) == 0
  {
    SplitOffBlanks(s, ws, sign, rest);
    if sign == "" {
      SkipSpaceOver(ws, rest);
      assert ToI(s) == ReadNumber(rest);
    } else {
      ToIOfSignedDigitRun(s, ws, sign[0], rest);
    }
  }

  /** Proof step only: regroups the text as blanks, then the rest, and names
      the sign character, so that the lemmas above see no sign string. */
  lemma SplitOffBlanks(s: string, ws: string, sign: string, rest: string)
    requires s == ws + sign + rest
    requires sign == "" || sign == "-" || sign == "+"
    ensures sign == "" ==> s == ws + rest
    ensures sign != "" ==> (sign[0] == '-' || sign[0] == '+') && s == ws + ([sign[0]] + rest)
    ensures sign == "-" <==> sign != "" && sign[0] == '-'
  {
  }

  /** `to_i` reads a plain run of digits. */
  lemma ToIOfDigits(ds: string)
    requires |ds| >= 1 && AllDigits(ds)
    ensures ToI(ds) == DecimalValue(ds)
  {
    assert !IsSpace(ds[0]) && ds[0] != '-' && ds[0] != '+';
    assert SkipSpace(ds) == ds;
    DigitRunOfDigits(ds);
  }

  /** `to_i` reads a minus sign followed by a plain run of digits. */
  lemma ToIOfNegativeDigits(ds: string)
    requires |ds| >= 1 && AllDigits(ds)
    ensures ToI("-" + ds) == -(DecimalValue(ds) as int)
  {
    var neg := "-" + ds;
    assert !IsSpace(neg[0]) && neg[0] == '-';
    assert SkipSpace(neg) == neg;
    assert neg[1..] == ds;
    DigitRunOfDigits(ds);
  }

  lemma ToIOfNatToString(m: nat)
    ensures ToI(NatToString(m)) == m
    ensures ToI("-" + NatToString(m)) == -(m as int)
  {
    var ds := NatToString(m);
    DecimalValueOfNatToString(m);
    ToIOfDigits(ds);
    ToIOfNegativeDigits(ds);
  }

  /** `n.to_s.to_i == n` for every integer. */
  lemma ToIOfIntToString(n: int)
    ensures ToI(IntToString(n)) == n
  {
    var m: nat := if n < 0 then -n else n;
    ToIOfNatToString(m);
  }

  /** Distinct numbers print distinctly. */
  lemma IntToStringInjective(a: int, b: int)
    requires IntToString(a) == IntToString(b)
    ensures a == b
  {
    ToIOfIntToString(a);
    ToIOfIntToString(b);
  }
}

/** Every prefix of a number: what trimming its tail leaves is a number again,
    unless it was a lone minus. */
module NumberCuts {
  import opened JsonText
  import opened JsonGrammar
  import opened PartialJson

  /** `s` is one number of the grammar, and nothing else. */
  predicate IsNumber(s: string) {
    s != [] && NumberLength(s) == |s|
  }

  /** No number goes on with `t`. */
  predicate EndsNumber(t: string) {
    t == [] || !(IsDigit(t[0]) || t[0] == '.' || t[0] == 'e' || t[0] == 'E')
  }

  /** The cut after `k` characters leaves only the minus. */
  predicate LoneMinus(s: string, k: nat) {
    k == 1 && s != [] && s[0] == '-'
  }

  lemma {:induction false} CountDigitsPrefix(s: string, m: nat, t: string)
    requires m <= CountDigits(s) && (t == [] || !IsDigit(t[0]))
    ensures CountDigits(s[..m] + t) == m
  {
    if m == 0 {
      assert s[..0] + t == t;
    } else {
      assert (s[..m] + t)[1..] == s[1..][..m - 1] + t;
      CountDigitsPrefix(s[1..], m - 1, t);
    }
  }

  lemma IntPrefix(s: string, m: nat, t: string)
    requires 0 < m <= IntLength(s) && IsDigit(s[m - 1]) && (t == [] || !IsDigit(t[0]))
    ensures IntLength(s[..m] + t) == m
  {
    var sign := if s[0] == '-' then 1 else 0;
    assert (s[..m] + t)[sign..] == s[sign..][..m - sign] + t;
    CountDigitsPrefix(s[sign..], m - sign, t);
    hide CountDigits;
    assert (s[..m] + t)[0] == s[0] && (s[..m] + t)[sign] == s[sign];
  }

  lemma FractionPrefix(s: string, m: nat, t: string)
    requires 1 < m <= FractionLength(s) && (t == [] || !IsDigit(t[0]))
    ensures FractionLength(s[..m] + t) == m
  {
    assert (s[..m] + t)[1..] == s[1..][..m - 1] + t;
    CountDigitsPrefix(s[1..], m - 1, t);
  }

  lemma ExponentPrefix(s: string, m: nat, t: string)
    requires 1 < m <= ExponentLength(s) && IsDigit(s[m - 1]) && (t == [] || !IsDigit(t[0]))
    ensures ExponentLength(s[..m] + t) == m
  {
    var sign := if s[1] == '+' || s[1] == '-' then 2 else 1;
    var r := s[..m] + t;
    assert r[0] == s[0] && r[1] == s[1];
    assert r[sign..] == s[sign..][..m - sign] + t;
    CountDigitsPrefix(s[sign..], m - sign, t);
  }

  lemma NoFraction(t: string)
    requires EndsNumber(t)
    ensures FractionLength(t) == 0 && ExponentLength(t) == 0
  {
  }

  lemma PrefixInInt(s: string, m: nat, t: string)
    requires 0 < m <= IntLength(s) && IsDigit(s[m - 1]) && EndsNumber(t)
    ensures NumberLength(s[..m] + t) == m
  {
    IntPrefix(s, m, t);
    var r := s[..m] + t;
    assert r[m..] == t && r[m + 0..] == t;
    NoFraction(t);
    hide IntLength, FractionLength, ExponentLength;
  }

  lemma NumberOf(r: string, i: nat, f: nat, e: nat)
    requires IntLength(r) == i > 0 && FractionLength(r[i..]) == f
    requires i + f <= |r| && ExponentLength(r[i + f..]) == e
    ensures NumberLength(r) == i + f + e
  {
    hide IntLength, FractionLength, ExponentLength;
  }

  /** The integer and fraction are read the same before another exponent. */
  lemma MantissaPrefix(s: string, i: nat, f: nat, tail: string)
    requires IntLength(s) == i > 0 && FractionLength(s[i..]) == f
    requires tail != [] && (tail[0] == 'e' || tail[0] == 'E')
    ensures i + f <= |s|
    ensures var r := s[..i + f] + tail;
            IntLength(r) == i && FractionLength(r[i..]) == f && r[i + f..] == tail
  {
    var later := s[i..][..f] + tail;
    var r := s[..i + f] + tail;
    assert r == s[..i] + later && r[i..] == later;
    assert f > 0 ==> s[i..][0] == '.';
    IntPrefix(s, i, later);
    if f > 0 {
      FractionPrefix(s[i..], f, tail);
    } else {
      assert later == tail;
    }
  }

  lemma SplitPrefix(s: string, a: nat, m: nat, t: string)
    requires a <= m <= |s|
    ensures s[..m] + t == s[..a] + (s[a..][..m - a] + t)
  {
  }

  lemma PrefixInFraction(s: string, i: nat, m: nat, t: string)
    requires IntLength(s) == i > 0 && i + 1 < m <= |s| && m - i <= FractionLength(s[i..]) && EndsNumber(t)
    ensures NumberLength(s[..m] + t) == m
  {
    var later := s[i..][..m - i] + t;
    var r := s[..i] + later;
    assert s[i..][0] == '.' && later[0] == '.';
    IntPrefix(s, i, later);
    FractionPrefix(s[i..], m - i, t);
    NoFraction(t);
    hide IntLength, FractionLength, ExponentLength, NumberLength;
    assert r[i..] == later && r[m..] == t;
    NumberOf(r, i, m - i, 0);
    SplitPrefix(s, i, m, t);
  }

  lemma ExponentStart(e: string, m: nat)
    requires 0 < m <= ExponentLength(e)
    ensures e[0] == 'e' || e[0] == 'E'
  {
  }

  lemma PrefixInExponent(s: string, i: nat, f: nat, m: nat, t: string)
    requires IntLength(s) == i > 0 && FractionLength(s[i..]) == f
    requires i + f + 1 < m <= |s| && m - i - f <= ExponentLength(s[i + f..]) && IsDigit(s[m - 1]) && EndsNumber(t)
    ensures NumberLength(s[..m] + t) == m
  {
    hide IntLength, FractionLength, ExponentLength, NumberLength;
    var e, n := s[i + f..], m - i - f;
    var tail := e[..n] + t;
    ExponentStart(e, n);
    ExponentPrefix(e, n, t);
    MantissaPrefix(s, i, f, tail);
    NumberOf(s[..i + f] + tail, i, f, n);
    SplitPrefix(s, i + f, m, t);
  }

  /** A prefix that ends with a digit is a number. */
  lemma PrefixIsNumber(s: string, m: nat, t: string)
    requires IsNumber(s) && 0 < m <= |s| && IsDigit(s[m - 1]) && EndsNumber(t)
    ensures NumberLength(s[..m] + t) == m
  {
    var i := IntLength(s);
    var f := FractionLength(s[i..]);
    assert |s| == i + f + ExponentLength(s[i + f..]);
    hide IntLength, NumberLength;
    if m <= i {
      PrefixInInt(s, m, t);
    } else if m <= i + f {
      assert s[i..][0] == '.' && s[i] == s[i..][0];
      PrefixInFraction(s, i, m, t);
    } else {
      assert s[i + f..][0] == s[i + f];
      PrefixInExponent(s, i, f, m, t);
    }
  }

  lemma DigitAfterMinus(s: string)
    requires IsNumber(s)
    ensures s[0] == '-' ==> |s| > 1 && IsDigit(s[1])
    ensures IsDigit(s[0]) || s[0] == '-'
    ensures IsDigit(s[|s| - 1])
  {
    if s[0] == '-' {
      assert CountDigits(s[1..]) > 0;
      assert s[1..][0] == s[1];
    }
  }

  lemma NumberChar(s: string, i: nat)
    requires IsNumber(s) && i < |s|
    ensures IsNumberChar(s[i])
  {
  }

  lemma TrimOne(s: string, k: nat)
    requires 0 < k <= |s| && IsTruncatedTail(s[k - 1])
    ensures TrimNumberTail(s[..k]) == TrimNumberTail(s[..k - 1])
    ensures k == 1 ==> TrimNumberTail(s[..k]) == s[..0]
  {
    assert s[..k][..k - 1] == s[..k - 1];
  }

  /** Trimming a cut number stops right after a digit; nothing is left exactly
      of a lone minus. */
  lemma {:induction false} TrimmedNumber(s: string, k: nat) returns (m: nat)
    requires IsNumber(s) && 0 < k <= |s|
    ensures m <= k && TrimNumberTail(s[..k]) == s[..m]
    ensures m == 0 <==> LoneMinus(s, k)
    ensures m > 0 ==> IsDigit(s[m - 1])
    ensures k == |s| ==> m == k
    ensures forall i :: m <= i < k ==> !IsDigit(s[i])
  {
    hide IsNumber;
    DigitAfterMinus(s);
    NumberChar(s, k - 1);
    if IsDigit(s[k - 1]) {
      m := k;
    } else {
      TrimOne(s, k);
      hide TrimNumberTail;
      if k == 1 {
        m := 0;
      } else {
        m := TrimmedNumber(s, k - 1);
      }
    }
  }
}

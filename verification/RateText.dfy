/**
 * Printing a rate as text and reading it back: `_fmt_rate_pct` (src/ai_agent/strategy.py) and
 * `parse_premium_pct` (src/ai_agent/otc_profit.py).  Rates are real numbers.
 */
module RateText {
  import opened Common

  // Printing

  // Nearest hundredth, ties to even, as the two-decimal format rounds.
  function Hundredths(p: real): int {
    var scaled := p * 100.0;
    var below := scaled.Floor;
    var part := scaled - below as real;
    if part < 0.5 then below
    else if part > 0.5 then below + 1
    else if below % 2 == 0 then below
    else below + 1
  }

  function Magnitude(p: real): (n: nat)
    ensures n as real / 100.0 - (if p < 0.0 then -p else p) <= 0.005
    ensures (if p < 0.0 then -p else p) - n as real / 100.0 <= 0.005
  {
    Hundredths(if p < 0.0 then -p else p)
  }

  // p rounded to two decimals
  function Rounded(p: real): real {
    if p < 0.0 then -(Magnitude(p) as real / 100.0) else Magnitude(p) as real / 100.0
  }

  function DigitChar(d: nat): (c: char)
    requires d < 10
    ensures IsDigit(c) && DigitValue(c) == d
  {
    ('0' as int + d) as char
  }

  function Decimal(n: nat): (s: string)
    ensures s != "" && AllDigits(s)
  {
    if n < 10 then [DigitChar(n)] else Decimal(n / 10) + [DigitChar(n % 10)]
  }

  function RStrip(s: string, c: char): string {
    if s != "" && s[|s| - 1] == c then RStrip(s[..|s| - 1], c) else s
  }

  function Sign(p: real): char { if p < 0.0 then '-' else '+' }

  // f"{sign}{p:.2f}" before stripping
  function TwoDecimals(p: real): string {
    var n := Magnitude(p);
    [Sign(p)] + Decimal(n / 100) + ['.', DigitChar(n / 10 % 10), DigitChar(n % 10)]
  }

  function FmtRate(p: real): string { RStrip(RStrip(TwoDecimals(p), '0'), '.') + "%" }

  // Reading

  // The free-text parts of the reader: word replacement, the keyword-led phrases, and the size or
  // limit wording looked for before a token.
  datatype Phrases = Phrases(normalize: string -> string, keyword: string -> Option<real>, limits: string -> bool)

  predicate Wordless(s: string) {
    forall k :: 0 <= k < |s| ==> IsDigit(s[k]) || s[k] == '+' || s[k] == '-' || s[k] == '.' || s[k] == '%'
  }

  // They all need a word: on text made of digits, signs, dots and percent signs they do nothing.
  ghost predicate NeedWords(h: Phrases) {
    && (forall t :: Wordless(t) ==> h.normalize(t) == t && h.keyword(t) == None)
    && !h.limits("")
  }

  function DigitsEnd(s: string, i: nat): (e: nat)
    requires i <= |s|
    ensures i <= e <= |s| && AllDigits(s[i..e]) && (e < |s| ==> !IsDigit(s[e]))
    decreases |s| - i
  {
    if i < |s| && IsDigit(s[i]) then
      var e := DigitsEnd(s, i + 1);
      assert s[i..e] == [s[i]] + s[i + 1..e];
      e
    else i
  }

  function SpacesEnd(s: string, i: nat): (e: nat)
    requires i <= |s|
    ensures i <= e <= |s|
    decreases |s| - i
  {
    if i < |s| && IsSpace(s[i]) then SpacesEnd(s, i + 1) else i
  }

  function Pow10(k: nat): (r: nat)
    ensures r >= 1
  {
    if k == 0 then 1 else 10 * Pow10(k - 1)
  }

  // whole part s[i..e], then an optional point with decimals: (value, end)
  function Unsigned(s: string, i: nat): (r: Option<(real, nat)>)
    requires i <= |s|
    ensures r.Some? ==> i < r.value.1 <= |s|
  {
    var e := DigitsEnd(s, i);
    if e < |s| && s[e] == '.' then
      var d := DigitsEnd(s, e + 1);
      if e == i && d == e + 1 then None
      else Some((Number(s[i..e]) as real + Number(s[e + 1..d]) as real / Pow10(d - e - 1) as real, d))
    else if e == i then None
    else Some((Number(s[i..e]) as real, e))
  }

  // A signed number, optional blanks and a percent sign starting at i: (value, end of match)
  function Token(s: string, i: nat): (r: Option<(real, nat)>)
    requires i <= |s|
    ensures r.Some? ==> i < r.value.1 <= |s|
  {
    var signed := i < |s| && (s[i] == '+' || s[i] == '-');
    var u := Unsigned(s, if signed then i + 1 else i);
    if u.None? then None
    else
      var e := SpacesEnd(s, u.value.1);
      if e < |s| && s[e] == '%' then Some((if signed && s[i] == '-' then -u.value.0 else u.value.0, e + 1)) else None
  }

  // A token may start the text or follow one of these.
  predicate Opens(s: string, i: nat)
    requires i <= |s|
  {
    i == 0 || IsSpace(s[i - 1]) || s[i - 1] == ':' || s[i - 1] == ';' || s[i - 1] == '(' || s[i - 1] == ',' || s[i - 1] == '+'
  }

  function Abs(x: real): (a: real)
    ensures a >= 0.0 && (a == x || a == -x)
  {
    if x < 0.0 then -x else x
  }

  function Window(s: string, i: nat): string
    requires i <= |s|
  {
    s[Max(0, i - 50)..i]
  }

  predicate Accepted(h: Phrases, s: string, i: nat, v: real)
    requires i <= |s|
  {
    Abs(v) <= 500.0 && !(h.limits(Window(s, i)) && Abs(v) >= 100.0)
  }

  // The last accepted token at or after i, or `chosen`.
  function Scan(h: Phrases, s: string, i: nat, chosen: Option<real>): Option<real>
    requires i <= |s|
    decreases |s| - i
  {
    if i == |s| then chosen
    else
      var t := if Opens(s, i) then Token(s, i) else None;
      if t.None? then Scan(h, s, i + 1, chosen)
      else Scan(h, s, t.value.1, if Accepted(h, s, i, t.value.0) then Some(t.value.0) else chosen)
  }

  function ParsePremium(h: Phrases, text: string): Option<real> {
    var norm := h.normalize(text);
    if '%' !in norm then None
    else if h.keyword(norm).Some? then h.keyword(norm)
    else Scan(h, norm, 0, None)
  }

  method ParsePremiumPct(h: Phrases, text: string) returns (chosen: Option<real>)
    ensures chosen == ParsePremium(h, text)
  {
    chosen := None;
    var norm := h.normalize(text);
    if '%' !in norm {
      return;
    }
    var v := h.keyword(norm);
    if v.Some? {
      return v;
    }
    var i := 0;
    while i < |norm|
      invariant i <= |norm|
      invariant Scan(h, norm, i, chosen) == Scan(h, norm, 0, None)
    {
      var t := if Opens(norm, i) then Token(norm, i) else None;
      if t.None? {
        i := i + 1;
        continue;
      }
      if Accepted(h, norm, i, t.value.0) {
        chosen := Some(t.value.0);
      }
      i := t.value.1;
    }
  }

  // Printer and parser undo each other

  lemma {:induction false} NumberOfDecimal(n: nat)
    ensures Number(Decimal(n)) == n
  {
    if n < 10 {
      assert Decimal(n)[..0] == "";
      assert Number("") == 0;
    } else {
      NumberOfDecimal(n / 10);
      assert Decimal(n)[..|Decimal(n)| - 1] == Decimal(n / 10);
    }
  }

  // What is left of the decimals after stripping.
  function Tail(r: nat): string
    requires r < 100
  {
    if r == 0 then ""
    else if r % 10 == 0 then ['.', DigitChar(r / 10)]
    else ['.', DigitChar(r / 10), DigitChar(r % 10)]
  }

  lemma DigitIsZero(d: nat)
    requires d < 10
    ensures DigitChar(d) == '0' <==> d == 0
    ensures DigitChar(d) != '.'
  {
  }

  lemma RStripKeeps(s: string, x: char, c: char)
    requires x != c
    ensures RStrip(s + [x], c) == s + [x]
  {
  }

  lemma RStripDrops(s: string, c: char)
    ensures RStrip(s + [c], c) == RStrip(s, c)
  {
    assert (s + [c])[..|s|] == s;
  }

  // The text is the sign, the whole part and the shortest decimals.
  lemma FmtShape(p: real)
    ensures var n := Magnitude(p);
            FmtRate(p) == [Sign(p)] + Decimal(n / 100) + Tail(n % 100) + "%"
    ensures FmtRate(p)[0] == if p >= 0.0 then '+' else '-'
  {
    hide Magnitude, Decimal, RStrip, DigitChar;
    var n := Magnitude(p);
    var whole, a, b := [Sign(p)] + Decimal(n / 100), n / 10 % 10, n % 10;
    DecimalPlaces(n);
    DigitIsZero(a);
    DigitIsZero(b);
    var text := TwoDecimals(p);
    assert text == whole + ['.'] + [DigitChar(a)] + [DigitChar(b)];
    var noB := whole + ['.'] + [DigitChar(a)];
    if b != 0 {
      RStripKeeps(noB, DigitChar(b), '0');
      RStripKeeps(noB, DigitChar(b), '.');
      assert text == whole + Tail(n % 100);
    } else {
      RStripDrops(noB, '0');
      if a != 0 {
        RStripKeeps(whole + ['.'], DigitChar(a), '0');
        RStripKeeps(whole + ['.'], DigitChar(a), '.');
        assert noB == whole + Tail(n % 100);
      } else {
        RStripDrops(whole + ['.'], '0');
        RStripKeeps(whole, '.', '0');
        RStripDrops(whole, '.');
        EndsInDigit(whole, Decimal(n / 100));
        assert whole + Tail(n % 100) == whole;
      }
    }
  }

  lemma DecimalPlaces(n: nat)
    ensures n % 100 / 10 == n / 10 % 10 && n % 100 % 10 == n % 10
    ensures n % 100 == n / 10 % 10 * 10 + n % 10
  {
  }

  lemma EndsInDigit(whole: string, digits: string)
    requires digits != "" && AllDigits(digits) && |whole| == |digits| + 1 && whole[1..] == digits
    ensures RStrip(whole, '.') == whole
  {
    assert whole[|whole| - 1] == digits[|digits| - 1];
  }

  lemma {:induction false} DigitsEndIs(s: string, i: nat, e: nat)
    requires i <= e <= |s| && AllDigits(s[i..e]) && (e == |s| || !IsDigit(s[e]))
    ensures DigitsEnd(s, i) == e
    decreases e - i
  {
    if i < e {
      assert s[i] == s[i..e][0];
      assert s[i + 1..e] == s[i..e][1..];
      DigitsEndIs(s, i + 1, e);
    }
  }

  lemma NumberOfOne(d: nat)
    requires d < 10
    ensures Number([DigitChar(d)]) == d
  {
    assert [DigitChar(d)][..0] == "";
  }

  lemma NumberOfTwo(a: nat, b: nat)
    requires a < 10 && b < 10
    ensures Number([DigitChar(a), DigitChar(b)]) == 10 * a + b
  {
    NumberOfOne(a);
    assert [DigitChar(a), DigitChar(b)][..1] == [DigitChar(a)];
  }

  lemma UnsignedWhole(s: string, i: nat, e: nat)
    requires i < e < |s| && AllDigits(s[i..e]) && !IsDigit(s[e]) && s[e] != '.'
    ensures Unsigned(s, i) == Some((Number(s[i..e]) as real, e))
  {
    hide Number;
    DigitsEndIs(s, i, e);
  }

  lemma UnsignedDecimals(s: string, i: nat, e: nat, d: nat)
    requires i < e < d < |s| && AllDigits(s[i..e]) && s[e] == '.' && AllDigits(s[e + 1..d]) && !IsDigit(s[d])
    ensures Unsigned(s, i) == Some((Number(s[i..e]) as real + Number(s[e + 1..d]) as real / Pow10(d - e - 1) as real, d))
  {
    hide Number;
    DigitsEndIs(s, i, e);
    DigitsEndIs(s, e + 1, d);
  }

  lemma UnsignedOfShape(sign: char, digits: string, r: nat)
    requires digits != "" && AllDigits(digits) && r < 100
    ensures var s := [sign] + digits + Tail(r) + "%";
            Unsigned(s, 1) == Some((Number(digits) as real + r as real / 100.0, |s| - 1))
  {
    hide Number, Unsigned, Tail;
    var t := Tail(r);
    var s, e := [sign] + digits + t + "%", 1 + |digits|;
    TailShape(r);
    assert s[1..e] == digits;
    assert s[|s| - 1] == '%';
    if r == 0 {
      assert e == |s| - 1;
      UnsignedWhole(s, 1, e);
    } else {
      TailValue(r);
      assert s[e] == t[0];
      assert s[e + 1..|s| - 1] == t[1..];
      UnsignedDecimals(s, 1, e, |s| - 1);
    }
  }

  lemma TailShape(r: nat)
    requires r < 100
    ensures r == 0 ==> Tail(r) == ""
    ensures r > 0 ==> |Tail(r)| >= 2 && Tail(r)[0] == '.' && AllDigits(Tail(r)[1..])
  {
  }

  // Reading a sign, digits, a stripped tail and the percent sign.
  lemma TokenOfShape(sign: char, digits: string, r: nat)
    requires (sign == '+' || sign == '-') && digits != "" && AllDigits(digits) && r < 100
    ensures var s := [sign] + digits + Tail(r) + "%";
            var v := Number(digits) as real + r as real / 100.0;
            Token(s, 0) == Some((if sign == '-' then -v else v, |s|))
  {
    hide Number, Unsigned, Tail;
    var s := [sign] + digits + Tail(r) + "%";
    UnsignedOfShape(sign, digits, r);
    assert s[0] == sign && s[|s| - 1] == '%';
  }

  lemma TailValue(r: nat)
    requires 0 < r < 100
    ensures var t := Tail(r)[1..];
            AllDigits(t) && Number(t) as real / Pow10(|t|) as real == r as real / 100.0
  {
    if r % 10 == 0 {
      NumberOfOne(r / 10);
      assert Tail(r)[1..] == [DigitChar(r / 10)];
      assert Pow10(1) == 10 by { assert Pow10(0) == 1; }
    } else {
      NumberOfTwo(r / 10, r % 10);
      assert Tail(r)[1..] == [DigitChar(r / 10), DigitChar(r % 10)];
      assert Pow10(2) == 100 by { assert Pow10(1) == 10 * Pow10(0); }
    }
  }

  lemma ShapeIsWordless(sign: char, digits: string, r: nat)
    requires (sign == '+' || sign == '-') && AllDigits(digits) && r < 100
    ensures Wordless([sign] + digits + Tail(r) + "%")
  {
    hide DigitChar;
    var s := [sign] + digits + Tail(r) + "%";
    assert forall k :: 0 <= k < |digits| ==> s[1 + k] == digits[k];
    assert forall k :: 0 <= k < |Tail(r)| ==> s[1 + |digits| + k] == Tail(r)[k];
  }

  lemma HundredthsAsReal(q: real, r: real, n: real)
    requires n == 100.0 * q + r
    ensures q + r / 100.0 == n / 100.0
  {
  }

  lemma SplitHundredths(n: nat, q: nat, r: nat)
    requires q == n / 100 && r == n % 100
    ensures q as real + r as real / 100.0 == n as real / 100.0
  {
    assert n == 100 * q + r;
    HundredthsAsReal(q as real, r as real, n as real);
  }

  lemma ScanOfOneToken(h: Phrases, s: string, v: real)
    requires s != "" && Token(s, 0) == Some((v, |s|)) && !h.limits("")
    ensures Scan(h, s, 0, None) == if Abs(v) <= 500.0 then Some(v) else None
  {
    hide Token;
    assert Window(s, 0) == "";
  }

  // Reading a printed rate gives the rate rounded to two decimals, exactly when that is within the
  // reader's range; beyond it the reader gives nothing.
  lemma ParseOfPrintedRate(h: Phrases, p: real)
    requires NeedWords(h)
    ensures ParsePremium(h, FmtRate(p)) == if Abs(Rounded(p)) <= 500.0 then Some(Rounded(p)) else None
  {
    hide Magnitude, Decimal, FmtRate, Token, Number, Tail;
    var n, s := Magnitude(p), FmtRate(p);
    FmtShape(p);
    ShapeIsWordless(Sign(p), Decimal(n / 100), n % 100);
    TokenOfShape(Sign(p), Decimal(n / 100), n % 100);
    NumberOfDecimal(n / 100);
    SplitHundredths(n, n / 100, n % 100);
    assert s[|s| - 1] == '%';
    assert Token(s, 0) == Some((Rounded(p), |s|));
    assert Wordless(s);
    assert h.normalize(s) == s && h.keyword(s) == None;
    ScanOfOneToken(h, s, Rounded(p));
  }

  // The printed rates in the documented range always survive.
  lemma RoundTrip(h: Phrases, p: real)
    requires NeedWords(h) && Abs(p) <= 500.0
    ensures ParsePremium(h, FmtRate(p)) == Some(Rounded(p))
    ensures Abs(Rounded(p) - p) <= 0.005
  {
    ParseOfPrintedRate(h, p);
    MagnitudeMonotone(Abs(p), 500.0);
    MagnitudeOfHundredths(50000);
  }

  // Rounding is monotone and leaves hundredths alone.
  lemma MagnitudeMonotone(a: real, b: real)
    requires a <= b
    ensures Hundredths(a) <= Hundredths(b)
  {
    var x, y := (a * 100.0).Floor, (b * 100.0).Floor;
    assert x <= y;
  }

  lemma MagnitudeOfHundredths(k: int)
    ensures Hundredths(k as real / 100.0) == k
  {
    assert k as real / 100.0 * 100.0 == k as real;
  }

  lemma RoundedMonotone(a: real, b: real)
    requires a <= b
    ensures Rounded(a) <= Rounded(b)
  {
    if a < 0.0 && b < 0.0 {
      MagnitudeMonotone(-b, -a);
    } else if a >= 0.0 {
      MagnitudeMonotone(a, b);
    }
  }

  lemma RoundedHundredths(k: int)
    ensures Rounded(k as real / 100.0) == k as real / 100.0
  {
    MagnitudeOfHundredths(k);
    MagnitudeOfHundredths(-k);
  }

  // Printing the value read back changes nothing.
  lemma RoundedTwice(p: real)
    ensures Rounded(Rounded(p)) == Rounded(p)
  {
    var n: int := Magnitude(p);
    RoundedHundredths(if p < 0.0 then -n else n);
  }

  // Rounding lands below m hundredths exactly for what is more than half a hundredth under m, ties
  // going to the even neighbour.
  predicate RoundsBelow(x: real, m: int) {
    x * 100.0 < m as real - 0.5 || (x * 100.0 == m as real - 0.5 && m % 2 != 0)
  }

  lemma HundredthsBelowIff(q: real, m: int)
    ensures Hundredths(q) < m <==> RoundsBelow(q, m)
  {
    var scaled := q * 100.0;
    var below := scaled.Floor;
    assert below as real <= scaled < below as real + 1.0;
    if below < m {
      assert below as real <= (m - 1) as real;
    } else {
      assert below as real >= m as real;
    }
    if below < m - 1 {
      assert below as real <= (m - 2) as real;
    }
  }

  lemma RoundedBelowIff(x: real, m: int)
    ensures Rounded(x) < m as real / 100.0 <==> RoundsBelow(x, m)
  {
    if x < 0.0 {
      HundredthsBelowIff(-x, 1 - m);
      assert (-x) * 100.0 == -(x * 100.0);
      assert Rounded(x) < m as real / 100.0 <==> Hundredths(-x) as real > -(m as real);
      assert Hundredths(-x) as real > -(m as real) <==> Hundredths(-x) > -m;
    } else {
      HundredthsBelowIff(x, m);
    }
  }

  // Several rates in one text

  lemma SliceOfMiddle(pre: string, b: string, post: string, i: nat, e: nat)
    requires i <= e <= |b|
    ensures (pre + b + post)[|pre| + i..|pre| + e] == b[i..e]
  {
  }

  lemma DigitsEndInside(pre: string, b: string, post: string, i: nat)
    requires i <= |b| && DigitsEnd(b, i) < |b|
    ensures DigitsEnd(pre + b + post, |pre| + i) == |pre| + DigitsEnd(b, i)
  {
    hide DigitsEnd;
    var e := DigitsEnd(b, i);
    SliceOfMiddle(pre, b, post, i, e);
    DigitsEndIs(pre + b + post, |pre| + i, |pre| + e);
  }

  lemma {:induction false} SpacesEndInside(pre: string, b: string, post: string, i: nat)
    requires i <= |b| && SpacesEnd(b, i) < |b|
    ensures SpacesEnd(pre + b + post, |pre| + i) == |pre| + SpacesEnd(b, i)
    decreases |b| - i
  {
    assert (pre + b + post)[|pre| + i] == b[i];
    if IsSpace(b[i]) {
      SpacesEndInside(pre, b, post, i + 1);
    }
  }

  lemma UnsignedInside(pre: string, b: string, post: string, i: nat)
    requires i <= |b| && Unsigned(b, i).Some? && Unsigned(b, i).value.1 < |b|
    ensures Unsigned(pre + b + post, |pre| + i) == Some((Unsigned(b, i).value.0, |pre| + Unsigned(b, i).value.1))
  {
    hide DigitsEnd, Number, Pow10;
    var s, e := pre + b + post, DigitsEnd(b, i);
    DigitsEndInside(pre, b, post, i);
    SliceOfMiddle(pre, b, post, i, e);
    assert s[|pre| + e] == b[e];
    if b[e] == '.' {
      var d := DigitsEnd(b, e + 1);
      DigitsEndInside(pre, b, post, e + 1);
      SliceOfMiddle(pre, b, post, e + 1, d);
    }
  }

  // A percent-terminated token is read the same wherever it stands.
  lemma TokenInside(pre: string, b: string, post: string)
    requires b != "" && Token(b, 0).Some?
    ensures Token(pre + b + post, |pre|) == Some((Token(b, 0).value.0, |pre| + Token(b, 0).value.1))
  {
    hide Unsigned, SpacesEnd;
    var s := pre + b + post;
    var i := if b[0] == '+' || b[0] == '-' then 1 else 0;
    var u := Unsigned(b, i).value.1;
    UnsignedInside(pre, b, post, i);
    SpacesEndInside(pre, b, post, u);
    assert s[|pre|] == b[0] && s[|pre| + SpacesEnd(b, u)] == b[SpacesEnd(b, u)];
  }

  lemma PrintedToken(p: real)
    ensures FmtRate(p) != "" && Token(FmtRate(p), 0) == Some((Rounded(p), |FmtRate(p)|))
    ensures FmtRate(p)[|FmtRate(p)| - 1] == '%'
  {
    hide Magnitude, Decimal, FmtRate, Token, Number, Tail;
    var n := Magnitude(p);
    FmtShape(p);
    TokenOfShape(Sign(p), Decimal(n / 100), n % 100);
    NumberOfDecimal(n / 100);
    SplitHundredths(n, n / 100, n % 100);
  }

  // Of two rates in a text the last one in range counts: where the words do nothing, a text naming
  // first p and then q reads as q unless that one is out of range (or taken for a size), and then as p.
  lemma LastRateCounts(h: Phrases, p: real, q: real)
    requires var s := FmtRate(p) + " " + FmtRate(q); h.normalize(s) == s && h.keyword(s) == None
    requires !h.limits("")
    ensures var second := Abs(Rounded(q)) <= 500.0 && !(h.limits(Window(FmtRate(p) + " ", |FmtRate(p)| + 1)) && Abs(Rounded(q)) >= 100.0);
            ParsePremium(h, FmtRate(p) + " " + FmtRate(q))
            == if second then Some(Rounded(q)) else if Abs(Rounded(p)) <= 500.0 then Some(Rounded(p)) else None
  {
    hide FmtRate, Token, Rounded;
    var a, b := FmtRate(p), FmtRate(q);
    var s := a + " " + b;
    PrintedToken(p);
    PrintedToken(q);
    assert "" + a + (" " + b) == s && (a + " ") + b + "" == s;
    TokenInside("", a, " " + b);
    TokenInside(a + " ", b, "");
    assert s[|a| - 1] == '%' && s[|a|] == ' ';
    assert '%' in s;
    assert Window(s, 0) == "";
    assert Window(s, |a| + 1) == Window(a + " ", |a| + 1);
    var first := if Abs(Rounded(p)) <= 500.0 then Some(Rounded(p)) else None;
    assert Scan(h, s, 0, None) == Scan(h, s, |a|, first);
    assert Scan(h, s, |a|, first) == Scan(h, s, |a| + 1, first);
    assert Accepted(h, s, |a| + 1, Rounded(q))
      <==> Abs(Rounded(q)) <= 500.0 && !(h.limits(Window(a + " ", |a| + 1)) && Abs(Rounded(q)) >= 100.0);
    assert Token(s, |a| + 1) == Some((Rounded(q), |s|)) && Opens(s, |a| + 1);
    assert Scan(h, s, |a| + 1, first) == if Accepted(h, s, |a| + 1, Rounded(q)) then Some(Rounded(q)) else first;
  }

  // A dot without digits on either side is no number, one with digits on either side is.
  lemma DottedNumber(s: string, i: nat, e: nat, d: nat)
    requires i <= e < d <= |s| && AllDigits(s[i..e]) && s[e] == '.' && AllDigits(s[e + 1..d]) && (d == |s| || !IsDigit(s[d]))
    ensures Unsigned(s, i)
         == if i == e && d == e + 1 then None
            else Some((Number(s[i..e]) as real + Number(s[e + 1..d]) as real / Pow10(d - e - 1) as real, d))
  {
    hide Number, DigitsEnd;
    DigitsEndIs(s, i, e);
    DigitsEndIs(s, e + 1, d);
  }

  // Without a percent sign nothing is read, and a keyword-led rate goes before every token.
  lemma KeywordGoesFirst(h: Phrases, text: string)
    ensures '%' !in h.normalize(text) ==> ParsePremium(h, text) == None
    ensures '%' in h.normalize(text) && h.keyword(h.normalize(text)).Some? ==> ParsePremium(h, text) == h.keyword(h.normalize(text))
  {
  }
}

/**
 * The keys negotiation targets are compared by (src/ai_agent/task_target_dedupe.py): which texts
 * name the same chat.  Text is modelled over ASCII.
 */
module TargetKeys {
  import opened Common

  function LowerChar(c: char): char {
    if 'A' <= c <= 'Z' then (c as int + 32) as char else c
  }

  function Lower(s: string): (r: string)
    ensures |r| == |s|
    ensures forall k :: 0 <= k < |s| ==> r[k] == LowerChar(s[k])
  {
    seq(|s|, k requires 0 <= k < |s| => LowerChar(s[k]))
  }

  function Magnitude(s: string): string {
    if s != "" && s[0] == '-' then s[1..] else s
  }

  predicate IsInteger(s: string) { Magnitude(s) != "" && AllDigits(Magnitude(s)) }

  function WithoutLeadingZeros(s: string): (r: string)
    ensures r == "" || r[0] != '0'
    ensures |r| <= |s| && r == s[|s| - |r|..]
  {
    if s != "" && s[0] == '0' then WithoutLeadingZeros(s[1..]) else s
  }

  // The interpreter refuses to convert longer digit strings.
  const DIGIT_LIMIT: nat := 4300

  // str(int(s))
  function CanonicalInteger(s: string): string
    requires IsInteger(s)
  {
    if |Magnitude(s)| > DIGIT_LIMIT then ""
    else
      var digits := WithoutLeadingZeros(Magnitude(s));
      if digits == "" then "0" else if s[0] == '-' then "-" + digits else digits
  }

  // The key of text that is already trimmed and lower case.
  function KeyOfText(s: string): string {
    if s == "" then ""
    else if IsInteger(s) then CanonicalInteger(s)
    else if s[0] == '@' then
      var inner := Strip(s[1..]);
      if inner == "" then "" else if IsInteger(inner) then CanonicalInteger(inner) else "@" + inner
    else "@" + s
  }

  function NormalizeTarget(value: Option<string>): string {
    if value.None? then ""
    else
      var raw := Strip(value.value);
      if raw == "" || '\0' in raw then "" else KeyOfText(Strip(Lower(raw)))
  }

  // The keys normalisation can produce: nothing, an integer without padding, or a lower-case handle.
  predicate PlainInteger(t: string) {
    IsInteger(t) && |Magnitude(t)| <= DIGIT_LIMIT && CanonicalInteger(t) == t
  }

  predicate Handle(t: string) {
    |t| >= 2 && t[0] == '@' && CleanName(t[1..])
  }

  predicate CleanName(s: string) {
    s != "" && Stripped(s) && Lower(s) == s && '\0' !in s && !IsInteger(s)
  }

  predicate Canonical(t: string) { t == "" || PlainInteger(t) || Handle(t) }

  lemma StripIsStripped(s: string)
    ensures Stripped(Strip(s))
    ensures forall c :: c in Strip(s) ==> c in s
    ensures Stripped(s) ==> Strip(s) == s
  {
    var l, r := StripLeft(s), Strip(s);
    assert forall c :: c in l ==> c in s;
    if r != "" {
      assert r[0] == l[0];
    }
  }

  lemma LowerTwice(s: string)
    ensures Lower(Lower(s)) == Lower(s)
  {
  }

  function Signed(d: string, negative: bool): string { if negative then "-" + d else d }

  lemma PlainDigits(d: string, negative: bool)
    requires AllDigits(d) && 0 < |d| <= DIGIT_LIMIT && d[0] != '0'
    ensures PlainInteger(Signed(d, negative))
  {
    hide WithoutLeadingZeros, Magnitude, AllDigits, Signed, CanonicalInteger;
    SignedMagnitude(d, negative);
    NoLeadingZeros(d);
    CanonicalOfPlain(Signed(d, negative));
  }

  lemma CanonicalOfPlain(t: string)
    requires IsInteger(t) && |Magnitude(t)| <= DIGIT_LIMIT && WithoutLeadingZeros(Magnitude(t)) == Magnitude(t)
    requires t == if t[0] == '-' then "-" + Magnitude(t) else Magnitude(t)
    ensures CanonicalInteger(t) == t
  {
    hide WithoutLeadingZeros, Magnitude, AllDigits;
  }

  lemma SignedMagnitude(d: string, negative: bool)
    requires AllDigits(d) && 0 < |d|
    ensures var t := Signed(d, negative);
            t != "" && Magnitude(t) == d && (t[0] == '-' <==> negative) && t == if negative then "-" + d else d
  {
    if negative {
      assert ("-" + d)[1..] == d;
    } else {
      assert IsDigit(d[0]);
    }
  }

  lemma NoLeadingZeros(d: string)
    requires d != "" && d[0] != '0'
    ensures WithoutLeadingZeros(d) == d
  {
  }

  lemma CanonicalIntegerIsCanonical(s: string)
    requires IsInteger(s)
    ensures CanonicalInteger(s) == "" || PlainInteger(CanonicalInteger(s))
  {
    hide PlainInteger;
    var m := Magnitude(s);
    var d := WithoutLeadingZeros(m);
    if |m| <= DIGIT_LIMIT && d != "" {
      assert AllDigits(d);
      PlainDigits(d, s[0] == '-');
    } else if |m| <= DIGIT_LIMIT {
      ZeroIsPlain();
    }
  }

  lemma ZeroIsPlain()
    ensures PlainInteger("0")
  {
    SingleZero("0");
  }

  lemma SingleZero(z: string)
    requires |z| == 1 && z[0] == '0'
    ensures IsInteger(z) && |Magnitude(z)| == 1 && CanonicalInteger(z) == z
  {
    assert Magnitude(z) == z && z[1..] == "";
    assert WithoutLeadingZeros(z) == "";
    assert z == "0";
  }

  lemma LowerOfPart(s: string, part: string)
    requires Lower(s) == s && forall c :: c in part ==> c in s
    ensures Lower(part) == part
  {
    forall k | 0 <= k < |part|
      ensures LowerChar(part[k]) == part[k]
    {
      assert part[k] in s;
      var j :| 0 <= j < |s| && s[j] == part[k];
      assert Lower(s)[j] == s[j];
    }
  }

  // The text normalisation works on: trimmed, lower case, no NUL.
  lemma CleanText(text: string)
    requires '\0' !in text
    ensures var s := Strip(Lower(text)); Stripped(s) && Lower(s) == s && '\0' !in s
  {
    hide Strip, Stripped;
    var low := Lower(text);
    StripIsStripped(low);
    LowerTwice(text);
    LowerOfPart(low, Strip(low));
    forall k | 0 <= k < |low|
      ensures low[k] != '\0'
    {
      assert text[k] in text;
    }
  }

  lemma KeyOfTextIsCanonical(s: string)
    requires Stripped(s) && Lower(s) == s && '\0' !in s
    ensures Canonical(KeyOfText(s))
  {
    hide Strip, Stripped, Lower, IsInteger, CanonicalInteger, PlainInteger;
    if s != "" && IsInteger(s) {
      CanonicalIntegerIsCanonical(s);
    } else if s != "" && s[0] == '@' {
      var inner := Strip(s[1..]);
      StripIsStripped(s[1..]);
      LowerOfPart(s, inner);
      if inner != "" && IsInteger(inner) {
        CanonicalIntegerIsCanonical(inner);
      } else if inner != "" {
        assert ("@" + inner)[1..] == inner;
      }
    } else if s != "" {
      assert ("@" + s)[1..] == s;
    }
  }

  lemma NormalizeGivesCanonical(value: Option<string>)
    ensures Canonical(NormalizeTarget(value))
  {
    hide Strip, Stripped, Lower, KeyOfText, PlainInteger, Handle;
    if value.Some? {
      var raw := Strip(value.value);
      if '\0' !in raw {
        CleanText(raw);
        KeyOfTextIsCanonical(Strip(Lower(raw)));
      }
    }
  }

  lemma IntegerIsClean(t: string)
    requires IsInteger(t)
    ensures Stripped(t) && Lower(t) == t && '\0' !in t
  {
    forall k | 0 <= k < |t|
      ensures t[k] == '-' || '0' <= t[k] <= '9'
    {
      if t[0] == '-' && k > 0 {
        assert t[k] == Magnitude(t)[k - 1];
      }
    }
  }

  lemma HandleIsClean(t: string)
    requires Handle(t)
    ensures Stripped(t) && Lower(t) == t && '\0' !in t && !IsInteger(t)
  {
    hide IsInteger;
    var name := t[1..];
    forall k | 1 <= k < |t|
      ensures LowerChar(t[k]) == t[k] && t[k] != '\0'
    {
      assert name[k - 1] == t[k] && Lower(name)[k - 1] == t[k];
    }
    assert t[|t| - 1] == name[|name| - 1];
    AtSignIsNoInteger(t);
  }

  lemma AtSignIsNoInteger(t: string)
    requires t != "" && t[0] == '@'
    ensures !IsInteger(t)
  {
    assert Magnitude(t)[0] == '@';
  }

  lemma CanonicalIsFixed(t: string)
    requires Canonical(t)
    ensures NormalizeTarget(Some(t)) == t
  {
    hide Strip, Stripped, Lower, CanonicalInteger, IsInteger;
    StripIsStripped(t);
    if PlainInteger(t) {
      IntegerIsClean(t);
    } else if Handle(t) {
      HandleIsClean(t);
      StripIsStripped(t[1..]);
      assert "@" + t[1..] == t;
    } else {
      EmptyIsClean();
    }
  }

  lemma EmptyIsClean()
    ensures Strip("") == "" && Lower("") == ""
  {
  }

  // Normalisation is idempotent, and its fixed points are exactly the canonical keys.
  lemma NormalizeIsIdempotent(value: Option<string>)
    ensures NormalizeTarget(Some(NormalizeTarget(value))) == NormalizeTarget(value)
  {
    NormalizeGivesCanonical(value);
    CanonicalIsFixed(NormalizeTarget(value));
  }

  lemma FixedPointsAreCanonical(t: string)
    ensures NormalizeTarget(Some(t)) == t <==> Canonical(t)
  {
    NormalizeGivesCanonical(Some(t));
    if Canonical(t) {
      CanonicalIsFixed(t);
    }
  }

  // Trimming and lower-casing commute

  lemma {:induction false} StripLeftOfPadded(a: string, y: string)
    requires Blank(a)
    ensures StripLeft(a + y) == StripLeft(y)
  {
    if a == "" {
      assert a + y == y;
    } else {
      assert (a + y)[1..] == a[1..] + y;
      StripLeftOfPadded(a[1..], y);
    }
  }

  lemma {:induction false} StripRightOfPadded(y: string, b: string)
    requires Blank(b)
    ensures StripRight(y + b) == StripRight(y)
  {
    if b == "" {
      assert y + b == y;
    } else {
      assert (y + b)[..|y + b| - 1] == y + b[..|b| - 1];
      StripRightOfPadded(y, b[..|b| - 1]);
    }
  }

  lemma {:induction false} StripLeftKeepsTail(x: string, b: string)
    requires !Blank(x)
    ensures StripLeft(x + b) == StripLeft(x) + b
  {
    if IsSpace(x[0]) {
      assert (x + b)[1..] == x[1..] + b;
      StripLeftKeepsTail(x[1..], b);
    }
  }

  lemma StripOfBlank(x: string)
    requires Blank(x)
    ensures Strip(x) == ""
  {
    assert x + "" == x;
    StripLeftOfPadded(x, "");
  }

  lemma StripIgnoresPadding(a: string, x: string, b: string)
    requires Blank(a) && Blank(b)
    ensures Strip(a + x + b) == Strip(x)
  {
    assert a + x + b == a + (x + b);
    StripLeftOfPadded(a, x + b);
    if Blank(x) {
      StripOfBlank(x);
      StripOfBlank(x + b);
    } else {
      StripLeftKeepsTail(x, b);
      StripRightOfPadded(StripLeft(x), b);
    }
  }

  lemma {:induction false} LeftPaddingIsBlank(s: string)
    ensures Blank(s[..|s| - |StripLeft(s)|])
  {
    if s != "" && IsSpace(s[0]) {
      LeftPaddingIsBlank(s[1..]);
      var n := |s| - |StripLeft(s)|;
      forall k | 0 <= k < n
        ensures IsSpace(s[k])
      {
        if k > 0 { assert s[k] == s[1..][..n - 1][k - 1]; }
      }
    }
  }

  lemma {:induction false} RightPaddingIsBlank(s: string)
    ensures Blank(s[|StripRight(s)|..])
  {
    if s != "" && IsSpace(s[|s| - 1]) {
      var front := s[..|s| - 1];
      RightPaddingIsBlank(front);
      var n := |StripRight(s)|;
      forall k | n <= k < |s|
        ensures IsSpace(s[k])
      {
        if k < |front| { assert s[k] == front[n..][k - n]; }
      }
    }
  }

  lemma Padding(s: string) returns (a: string, b: string)
    ensures Blank(a) && Blank(b) && s == a + Strip(s) + b
  {
    hide StripLeft, StripRight, Blank;
    var l := StripLeft(s);
    LeftPaddingIsBlank(s);
    RightPaddingIsBlank(l);
    a, b := s[..|s| - |l|], l[|StripRight(l)|..];
    assert s == a + l;
    assert l == StripRight(l) + b;
  }

  lemma LowerOfParts(x: string, y: string)
    ensures Lower(x + y) == Lower(x) + Lower(y)
    ensures Blank(x) ==> Blank(Lower(x))
  {
  }

  lemma StripOfLower(v: string)
    ensures Strip(Lower(Strip(v))) == Strip(Lower(v))
    ensures '\0' in Strip(v) <==> '\0' in v
  {
    hide Strip, Lower;
    var a, b := Padding(v);
    LowerOfParts(a + Strip(v), b);
    LowerOfParts(a, Strip(v));
    LowerOfParts(b, "");
    StripIgnoresPadding(Lower(a), Lower(Strip(v)), Lower(b));
    PaddingHasNoNul(a);
    PaddingHasNoNul(b);
    assert forall k | 0 <= k < |Strip(v)| :: v[|a| + k] == Strip(v)[k];
  }

  lemma PaddingHasNoNul(a: string)
    requires Blank(a)
    ensures '\0' !in a
  {
  }

  // The 26 capital letters become the small ones, everything else stays.
  lemma LettersFold(c: char)
    ensures forall k :: 0 <= k < 26 && c == "ABCDEFGHIJKLMNOPQRSTUVWXYZ"[k] ==> LowerChar(c) == "abcdefghijklmnopqrstuvwxyz"[k]
    ensures c !in "ABCDEFGHIJKLMNOPQRSTUVWXYZ" ==> LowerChar(c) == c
  {
    if 'A' <= c <= 'Z' {
      assert "ABCDEFGHIJKLMNOPQRSTUVWXYZ"[c as int - 'A' as int] == c;
    }
  }

  // Which texts share a key

  // The trimmed, lower-cased text after at most one leading '@'.
  function Name(v: string): string {
    var s := Strip(Lower(v));
    if s != "" && s[0] == '@' then Strip(s[1..]) else s
  }

  // Decimal digits with at most one minus sign in front.
  predicate Numeral(t: string) {
    t != "" && (AllDigits(t) || (t[0] == '-' && |t| > 1 && AllDigits(t[1..])))
  }

  function WithSign(n: int, negative: bool): int { if negative then -n else n }

  function Value(t: string): int
    requires Numeral(t)
  {
    if t[0] == '-' then WithSign(Number(t[1..]), true) else Number(t)
  }

  predicate Overlong(t: string)
    requires Numeral(t)
  {
    |t| > (if t[0] == '-' then 4301 else 4300)
  }

  // Blank, nothing after the '@', a NUL, or an integer the interpreter refuses to convert.
  predicate NamesNothing(v: string) {
    '\0' in v || Name(v) == "" || (Numeral(Name(v)) && Overlong(Name(v)))
  }

  // Two texts name one chat: the same integer, or the same name up to case, padding and a leading '@'.
  predicate SameChat(u: string, v: string) {
    && !NamesNothing(u) && !NamesNothing(v)
    && if Numeral(Name(u)) && Numeral(Name(v)) then Value(Name(u)) == Value(Name(v)) else Name(u) == Name(v)
  }

  lemma NumeralIsInteger(t: string)
    ensures Numeral(t) <==> IsInteger(t)
    ensures Numeral(t) ==> t != ""
    ensures Numeral(t) ==> (Overlong(t) <==> |Magnitude(t)| > DIGIT_LIMIT)
    ensures Numeral(t) ==> Value(t) == WithSign(Number(Magnitude(t)), t[0] == '-')
  {
    hide Number;
    if t != "" && t[0] == '-' {
      assert !IsDigit(t[0]);
    }
  }

  lemma KeyByName(v: string)
    ensures NormalizeTarget(Some(v))
         == if '\0' in v || Name(v) == "" then ""
            else if IsInteger(Name(v)) then CanonicalInteger(Name(v)) else "@" + Name(v)
  {
    hide Strip, Lower, CanonicalInteger, IsInteger;
    StripOfLower(v);
    EmptyIsClean();
    var s := Strip(Lower(v));
    if s != "" && s[0] == '@' {
      AtSignIsNoInteger(s);
    }
    if Strip(v) == "" {
      assert Strip(Lower(v)) == "";
    }
  }

  lemma {:induction false} NumberAfterZero(d: string)
    requires AllDigits(d)
    ensures AllDigits("0" + d) && Number("0" + d) == Number(d)
  {
    if d == "" {
      assert "0" + d == "0" && "0"[..0] == "";
    } else {
      NumberAfterZero(d[..|d| - 1]);
      assert ("0" + d)[..|d|] == "0" + d[..|d| - 1];
    }
  }

  lemma {:induction false} NumberWithoutZeros(d: string)
    requires AllDigits(d)
    ensures AllDigits(WithoutLeadingZeros(d)) && Number(WithoutLeadingZeros(d)) == Number(d)
  {
    if d != "" && d[0] == '0' {
      NumberWithoutZeros(d[1..]);
      NumberAfterZero(d[1..]);
      assert d == "0" + d[1..];
    }
  }

  lemma {:induction false} NumberPositive(d: string)
    requires AllDigits(d) && d != "" && d[0] != '0'
    ensures Number(d) > 0
  {
    if |d| > 1 {
      NumberPositive(d[..|d| - 1]);
    } else {
      assert d[..0] == "";
    }
  }

  // Without leading zeros a number has one spelling.
  lemma {:induction false} NumberDeterminesDigits(d: string, e: string)
    requires AllDigits(d) && AllDigits(e) && (d == "" || d[0] != '0') && (e == "" || e[0] != '0')
    requires Number(d) == Number(e)
    ensures d == e
  {
    if d == "" || e == "" {
      if d != "" { NumberPositive(d); }
      if e != "" { NumberPositive(e); }
    } else {
      var m, n := |d| - 1, |e| - 1;
      assert Number(d[..m]) * 10 + DigitValue(d[m]) == Number(e[..n]) * 10 + DigitValue(e[n]);
      assert Number(d[..m]) == Number(e[..n]);
      NumberDeterminesDigits(d[..m], e[..n]);
      assert d == d[..m] + [d[m]] && e == e[..n] + [e[n]];
    }
  }

  lemma CanonicalSpelling(s: string)
    requires IsInteger(s) && |Magnitude(s)| <= DIGIT_LIMIT
    ensures var d := WithoutLeadingZeros(Magnitude(s));
            && AllDigits(d) && Number(d) == Number(Magnitude(s))
            && CanonicalInteger(s) == (if d == "" then "0" else if s[0] == '-' then "-" + d else d)
            && CanonicalInteger(s) != "" && CanonicalInteger(s)[0] != '@'
  {
    hide Number;
    NumberWithoutZeros(Magnitude(s));
    var d := WithoutLeadingZeros(Magnitude(s));
    if d != "" { assert IsDigit(d[0]); }
  }

  lemma SameIntegerIff(s: string, t: string)
    requires Numeral(s) && Numeral(t) && !Overlong(s) && !Overlong(t)
    ensures IsInteger(s) && IsInteger(t) && (CanonicalInteger(s) == CanonicalInteger(t) <==> Value(s) == Value(t))
  {
    hide Numeral, Value, Overlong, IsInteger, CanonicalInteger, WithoutLeadingZeros, Number, Magnitude;
    NumeralIsInteger(s);
    NumeralIsInteger(t);
    CanonicalSpelling(s);
    CanonicalSpelling(t);
    var d, e := WithoutLeadingZeros(Magnitude(s)), WithoutLeadingZeros(Magnitude(t));
    SpellingIff(d, s[0] == '-', e, t[0] == '-');
  }

  function Spelled(d: string, negative: bool): string {
    if d == "" then "0" else if negative then "-" + d else d
  }

  lemma SpellingIff(d: string, m: bool, e: string, n: bool)
    requires AllDigits(d) && AllDigits(e) && (d == "" || d[0] != '0') && (e == "" || e[0] != '0')
    ensures Spelled(d, m) == Spelled(e, n)
       <==> WithSign(Number(d), m) == WithSign(Number(e), n)
  {
    if d != "" { NumberPositive(d); }
    if e != "" { NumberPositive(e); }
    if Number(d) == Number(e) { NumberDeterminesDigits(d, e); }
    if d != "" && e != "" {
      assert ("-" + d)[1..] == d && ("-" + e)[1..] == e;
      assert IsDigit(d[0]) && IsDigit(e[0]);
    }
  }

  lemma EmptyKeyIff(v: string)
    ensures NormalizeTarget(Some(v)) == "" <==> NamesNothing(v)
  {
    hide NormalizeTarget, Name, CanonicalInteger, IsInteger, Numeral, Overlong, Number, Value, Magnitude;
    KeyByName(v);
    NumeralIsInteger(Name(v));
    if Numeral(Name(v)) {
      if Overlong(Name(v)) {
        OverlongHasNoKey(Name(v));
      } else {
        CanonicalSpelling(Name(v));
      }
    }
  }

  lemma OverlongHasNoKey(s: string)
    requires IsInteger(s) && |Magnitude(s)| > DIGIT_LIMIT
    ensures CanonicalInteger(s) == ""
  {
  }

  // Exactly the texts that name one chat share a key.
  lemma SameKeyIff(u: string, v: string)
    ensures NormalizeTarget(Some(u)) == NormalizeTarget(Some(v)) != "" <==> SameChat(u, v)
  {
    hide NormalizeTarget, Name, CanonicalInteger, IsInteger, Numeral, Overlong, Number, Value, Magnitude, NamesNothing;
    EmptyKeyIff(u);
    EmptyKeyIff(v);
    KeyByName(u);
    KeyByName(v);
    var x, y := Name(u), Name(v);
    NumeralIsInteger(x);
    NumeralIsInteger(y);
    if !NamesNothing(u) && !NamesNothing(v) {
      NamesSomething(u);
      NamesSomething(v);
      if Numeral(x) && Numeral(y) {
        SameIntegerIff(x, y);
      } else {
        if Numeral(x) { CanonicalSpelling(x); }
        if Numeral(y) { CanonicalSpelling(y); }
        assert ("@" + x)[1..] == x && ("@" + y)[1..] == y;
      }
    }
  }

  lemma NamesSomething(v: string)
    requires !NamesNothing(v)
    ensures Name(v) != "" && '\0' !in v && (Numeral(Name(v)) ==> !Overlong(Name(v)))
  {
  }

  // A leading '@' is optional.
  lemma AtSignIsOptional(v: string)
    requires Strip(v) == "" || Strip(v)[0] != '@'
    ensures NormalizeTarget(Some("@" + v)) == NormalizeTarget(Some(v))
  {
    hide Strip, Lower, NormalizeTarget, CanonicalInteger, IsInteger;
    KeyByName(v);
    KeyByName("@" + v);
    NameAfterAtSign(v);
    assert '\0' in "@" + v <==> '\0' in v;
  }

  lemma NameAfterAtSign(v: string)
    requires Strip(v) == "" || Strip(v)[0] != '@'
    ensures Name("@" + v) == Name(v)
  {
    hide StripLeft, StripRight;
    var low := Lower(v);
    LowerOfParts("@", v);
    assert Lower("@") == "@";
    assert Name(v) == Strip(low) by {
      StripOfLower(v);
      FirstOfTrimmedLower(v);
    }
    AtSignStaysFirst(low);
  }

  lemma FirstOfTrimmedLower(v: string)
    requires Strip(v) == "" || Strip(v)[0] != '@'
    ensures Strip(Lower(v)) == "" || Strip(Lower(v))[0] != '@'
  {
    hide Strip;
    StripOfLower(v);
    EmptyIsClean();
    var t := Strip(v);
    StripIsStripped(v);
    StripIsStripped(Lower(t));
    assert Stripped(Lower(t));
  }

  lemma AtSignStaysFirst(x: string)
    ensures Strip("@" + x) != "" && Strip("@" + x)[0] == '@' && Strip(Strip("@" + x)[1..]) == Strip(x)
  {
    hide StripLeft, StripRight, Strip;
    RightPaddingIsBlank(x);
    var y := StripRight(x);
    var b := x[|y|..];
    var t := "@" + y;
    assert "@" + x == "" + t + b;
    assert "" + y + b == x;
    StripIgnoresPadding("", t, b);
    StripIgnoresPadding("", y, b);
    StripIsStripped(t);
    assert t[1..] == y;
    assert Stripped(t) by {
      if y != "" { assert t[|t| - 1] == y[|y| - 1]; }
    }
  }

  // Case and padding make no difference.
  lemma CaseAndPaddingIgnored(v: string, w: string, a: string, b: string)
    requires Lower(w) == Lower(v) && Blank(a) && Blank(b)
    ensures NormalizeTarget(Some(a + w + b)) == NormalizeTarget(Some(v))
  {
    hide NormalizeTarget, CanonicalInteger, IsInteger, Strip, Lower;
    KeyByName(v);
    KeyByName(a + w + b);
    LowerOfParts(a + w, b);
    LowerOfParts(a, w);
    LowerOfParts(b, "");
    StripIgnoresPadding(Lower(a), Lower(w), Lower(b));
    LowerKeepsNul(v, w);
    assert '\0' in a + w + b <==> '\0' in w;
  }

  lemma LowerKeepsNul(v: string, w: string)
    requires Lower(w) == Lower(v)
    ensures '\0' in w <==> '\0' in v
  {
    assert forall k | 0 <= k < |v| :: w[k] == '\0' <==> v[k] == '\0' by {
      assert forall k | 0 <= k < |v| :: Lower(w)[k] == Lower(v)[k];
    }
  }

  // Leading zeros of an integer make no difference.
  lemma LeadingZerosIgnored(zeros: string, d: string, negative: bool)
    requires (forall k :: 0 <= k < |zeros| ==> zeros[k] == '0') && AllDigits(d) && d != ""
    requires |zeros + d| <= DIGIT_LIMIT
    ensures NormalizeTarget(Some(Signed(zeros + d, negative))) == NormalizeTarget(Some(Signed(d, negative)))
  {
    hide NormalizeTarget, Number, Numeral, Overlong, NamesNothing, Value, Signed;
    NameOfSigned(zeros + d, negative);
    NameOfSigned(d, negative);
    ZerosKeepNumber(zeros, d);
    SameKeyIff(Signed(zeros + d, negative), Signed(d, negative));
  }

  lemma NameOfSigned(d: string, negative: bool)
    requires AllDigits(d) && 0 < |d| <= DIGIT_LIMIT
    ensures var t := Signed(d, negative);
            && Name(t) == t && Numeral(t) && !NamesNothing(t) && Value(t) == WithSign(Number(d), negative)
  {
    hide Number, Strip, Lower, Stripped;
    var t := Signed(d, negative);
    SignedMagnitude(d, negative);
    NumeralIsInteger(t);
    IntegerIsClean(t);
    StripIsStripped(t);
    if t[0] == '@' { AtSignIsNoInteger(t); }
  }

  lemma {:induction false} ZerosKeepNumber(zeros: string, d: string)
    requires (forall k :: 0 <= k < |zeros| ==> zeros[k] == '0') && AllDigits(d)
    ensures AllDigits(zeros + d) && Number(zeros + d) == Number(d)
  {
    if zeros == "" {
      assert zeros + d == d;
    } else {
      ZerosKeepNumber(zeros[1..], d);
      NumberAfterZero(zeros[1..] + d);
      assert zeros + d == "0" + (zeros[1..] + d);
    }
  }
}

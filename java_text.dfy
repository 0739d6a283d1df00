/**
 * The few java.lang.String and java.util.Formatter operations the fraud
 * pipeline relies on, stated over Dafny strings: `split(",")`, `trim()`,
 * `isBlank()`, `contains(...)`, string concatenation of a possibly-null
 * reference, and the `%.2f` conversion.
 */
module JavaText {
  import opened Wrappers

  /** A Java String reference: None stands for null. */
  type JString = Option<string>

  /** What `+` and `StringBuilder.append` produce for a possibly-null String. */
  function Show(s: JString): string {
    match s
    case None => "null"
    case Some(v) => v
  }

  // ---------------------------------------------------------------------
  // isBlank: empty or only code points that Character.isWhitespace accepts

  /** Character.isWhitespace: Unicode space, line and paragraph separators
      other than the non-breaking ones, plus the ASCII controls U+0009..U+000D
      and U+001C..U+001F. */
  predicate IsWhitespace(c: char) {
    ('\t' <= c <= '\r') || ('\U{1C}' <= c <= '\U{1F}') || c == ' '
    || c == '\U{1680}' || ('\U{2000}' <= c <= '\U{2006}') || ('\U{2008}' <= c <= '\U{200A}')
    || c == '\U{2028}' || c == '\U{2029}' || c == '\U{205F}' || c == '\U{3000}'
  }

  predicate IsBlank(s: string) {
    forall i :: 0 <= i < |s| ==> IsWhitespace(s[i])
  }

  // ---------------------------------------------------------------------
  // trim: strip every char <= U+0020 from both ends

  /** Drops leading chars <= ' '. */
  function TrimStart(s: string): string {
    if |s| > 0 && s[0] <= ' ' then TrimStart(s[1..]) else s
  }

  /** TrimStart keeps the longest suffix that does not start with a char
      <= ' ': what it drops is all <= ' '. */
  lemma {:induction false} TrimStartSpec(s: string)
    ensures var r := TrimStart(s); |r| <= |s| && r == s[|s| - |r|..]
    ensures var r := TrimStart(s); forall i :: 0 <= i < |s| - |r| ==> s[i] <= ' '
    ensures var r := TrimStart(s); r == [] || r[0] > ' '
  {
    if |s| > 0 && s[0] <= ' ' {
      TrimStartSpec(s[1..]);
      var r := TrimStart(s[1..]);
      assert s[1..][|s| - 1 - |r|..] == s[|s| - |r|..];
      forall i | 0 <= i < |s| - |r|
        ensures s[i] <= ' '
      {
        if i > 0 {
          assert s[i] == s[1..][i - 1];
        }
      }
    }
  }

  /** Drops trailing chars <= ' '. */
  function TrimEnd(s: string): string {
    if |s| > 0 && s[|s| - 1] <= ' ' then TrimEnd(s[..|s| - 1]) else s
  }

  /** TrimEnd keeps the longest prefix that does not end with a char
      <= ' ': what it drops is all <= ' '. */
  lemma {:induction false} TrimEndSpec(s: string)
    ensures var r := TrimEnd(s); |r| <= |s| && r == s[..|r|]
    ensures var r := TrimEnd(s); forall i :: |r| <= i < |s| ==> s[i] <= ' '
    ensures var r := TrimEnd(s); r == [] || r[|r| - 1] > ' '
  {
    if |s| > 0 && s[|s| - 1] <= ' ' {
      var init := s[..|s| - 1];
      TrimEndSpec(init);
      var r := TrimEnd(init);
      assert init[..|r|] == s[..|r|];
      forall i | |r| <= i < |s|
        ensures s[i] <= ' '
      {
        if i < |s| - 1 {
          assert s[i] == init[i];
        }
      }
    }
  }

  function Trim(s: string): string {
    TrimEnd(TrimStart(s))
  }

  /** A string that neither starts nor ends with a char <= ' '. */
  predicate IsTrimmed(s: string) {
    s == [] || (s[0] > ' ' && s[|s| - 1] > ' ')
  }

  /** Trim removes a run of chars <= ' ' from each end and nothing else:
      its result is a contiguous piece s[lo..lo + |Trim(s)|] of its input,
      everything outside that piece is <= ' ', and the piece is trimmed. */
  lemma TrimSpec(s: string)
    ensures IsTrimmed(Trim(s))
    ensures |TrimStart(s)| <= |s|
    ensures var r, lo := Trim(s), |s| - |TrimStart(s)|; lo + |r| <= |s| && r == s[lo..lo + |r|]
    ensures var lo := |s| - |TrimStart(s)|; forall i :: 0 <= i < lo ==> s[i] <= ' '
    ensures var r, lo := Trim(s), |s| - |TrimStart(s)|; forall i :: lo + |r| <= i < |s| ==> s[i] <= ' '
  {
    var t := TrimStart(s);
    TrimStartSpec(s);
    TrimEndSpec(t);
    var r := TrimEnd(t);
    assert Trim(s) == r;
    TrimmedResult(t);
    Trimmed(s, t, r);
  }

  lemma TrimmedResult(t: string)
    requires t == [] || t[0] > ' '
    ensures IsTrimmed(TrimEnd(t))
  {
    TrimEndSpec(t);
    var r := TrimEnd(t);
    if r != [] {
      assert r[0] == t[0];
    }
  }

  /** Cutting a run of chars <= ' ' from the front of s, giving t, then
      from the back of t, giving r, leaves r as a contiguous piece of s
      with only chars <= ' ' outside it. */
  lemma Trimmed(s: string, t: string, r: string)
    requires |t| <= |s| && t == s[|s| - |t|..]
    requires forall i :: 0 <= i < |s| - |t| ==> s[i] <= ' '
    requires |r| <= |t| && r == t[..|r|]
    requires forall i :: |r| <= i < |t| ==> t[i] <= ' '
    ensures var lo := |s| - |t|; lo + |r| <= |s| && r == s[lo..lo + |r|]
    ensures var lo := |s| - |t|; forall i :: 0 <= i < lo ==> s[i] <= ' '
    ensures var lo := |s| - |t|; forall i :: lo + |r| <= i < |s| ==> s[i] <= ' '
  {
    var lo := |s| - |t|;
    assert s[lo..][..|r|] == s[lo..lo + |r|];
    forall i | lo + |r| <= i < |s|
      ensures s[i] <= ' '
    {
      assert s[i] == t[i - lo];
    }
  }

  /** A string that is already trimmed is left as it is. */
  lemma TrimOfTrimmed(s: string)
    requires IsTrimmed(s)
    ensures Trim(s) == s
  {
  }

  /** trim is idempotent. */
  lemma TrimIdempotent(s: string)
    ensures Trim(Trim(s)) == Trim(s)
  {
    TrimSpec(s);
    TrimOfTrimmed(Trim(s));
  }

  // ---------------------------------------------------------------------
  // contains: substring search

  predicate StartsWith(s: string, prefix: string) {
    |prefix| <= |s| && s[..|prefix|] == prefix
  }

  /** `s.contains(needle)`, as a left-to-right scan. */
  function Contains(s: string, needle: string): bool
    decreases |s|
  {
    if StartsWith(s, needle) then true
    else if |s| == 0 then false
    else Contains(s[1..], needle)
  }

  /** The reference definition: needle occurs at some offset of s. */
  ghost predicate IsSubstring(needle: string, s: string) {
    exists i :: 0 <= i <= |s| && StartsWith(s[i..], needle)
  }

  lemma {:induction false} ContainsIff(s: string, needle: string)
    ensures Contains(s, needle) <==> IsSubstring(needle, s)
    decreases |s|
  {
    if StartsWith(s, needle) {
      assert s[0..] == s;
    } else if |s| == 0 {
      assert forall i :: 0 <= i <= |s| ==> s[i..] == s;
    } else {
      ContainsIff(s[1..], needle);
      if IsSubstring(needle, s[1..]) {
        var i :| 0 <= i <= |s| - 1 && StartsWith(s[1..][i..], needle);
        assert s[1..][i..] == s[i + 1..];
      }
      if IsSubstring(needle, s) {
        var i :| 0 <= i <= |s| && StartsWith(s[i..], needle);
        assert i != 0 by { assert s[0..] == s; }
        assert s[1..][i - 1..] == s[i..];
      }
    }
  }

  /** A string contains each of its middle pieces. */
  lemma ContainsMiddle(a: string, b: string, c: string)
    ensures Contains(a + b + c, b)
  {
    var s := a + b + c;
    ContainsIff(s, b);
    assert s[|a|..][..|b|] == b;
    assert StartsWith(s[|a|..], b);
  }

  /** Every string contains the empty string. */
  lemma ContainsEmpty(s: string)
    ensures Contains(s, "")
  {
  }

  // ---------------------------------------------------------------------
  // split(","): every piece, and Java's treatment of trailing empty pieces

  /** Every comma-separated piece of s, empty ones included, in order. */
  function SplitAll(s: string): (r: seq<string>)
    ensures |r| >= 1
    ensures forall k :: 0 <= k < |r| ==> ',' !in r[k]
  {
    if |s| == 0 then [""]
    else
      var rest := SplitAll(s[1..]);
      if s[0] == ',' then [""] + rest
      else [[s[0]] + rest[0]] + rest[1..]
  }

  /** The inverse of SplitAll: the pieces glued back with commas. */
  function Join(ps: seq<string>): string
    requires |ps| >= 1
  {
    if |ps| == 1 then ps[0] else ps[0] + "," + Join(ps[1..])
  }

  lemma {:induction false} JoinSplitAll(s: string)
    ensures Join(SplitAll(s)) == s
  {
    if |s| > 0 {
      var rest := SplitAll(s[1..]);
      JoinSplitAll(s[1..]);
      if s[0] != ',' && |rest| > 1 {
        assert rest == [rest[0]] + rest[1..];
        assert Join(rest) == rest[0] + "," + Join(rest[1..]);
      }
    }
  }

  lemma {:induction false} SplitAllJoin(ps: seq<string>)
    requires |ps| >= 1
    requires forall k :: 0 <= k < |ps| ==> ',' !in ps[k]
    ensures SplitAll(Join(ps)) == ps
    decreases |ps|, |ps[0]|
  {
    if ps[0] == [] {
      if |ps| > 1 {
        SplitAllJoin(ps[1..]);
        EmptyHeadStep(ps);
      }
    } else {
      var ps' := [ps[0][1..]] + ps[1..];
      assert ps'[1..] == ps[1..];
      assert forall k :: 0 <= k < |ps'| ==> ',' !in ps'[k];
      SplitAllJoin(ps');
      CharHeadStep(ps, ps');
    }
  }

  /** An empty first piece: the joined string starts with the comma. */
  lemma EmptyHeadStep(ps: seq<string>)
    requires |ps| > 1 && ps[0] == []
    requires SplitAll(Join(ps[1..])) == ps[1..]
    ensures SplitAll(Join(ps)) == ps
  {
    assert Join(ps) == [','] + Join(ps[1..]);
    assert Join(ps)[1..] == Join(ps[1..]);
  }

  /** A non-empty first piece: its first char starts the joined string. */
  lemma CharHeadStep(ps: seq<string>, ps': seq<string>)
    requires |ps| >= 1 && ps[0] != [] && ',' !in ps[0]
    requires ps' == [ps[0][1..]] + ps[1..]
    requires SplitAll(Join(ps')) == ps'
    ensures SplitAll(Join(ps)) == ps
  {
    var c := ps[0][0];
    assert ps'[1..] == ps[1..];
    assert Join(ps) == [c] + Join(ps');
    assert Join(ps)[1..] == Join(ps');
    assert c != ',' by { assert c == ps[0][0]; }
    assert [c] + ps'[0] == ps[0];
    assert ps == [ps[0]] + ps[1..];
  }

  /** Removes the empty pieces at the end of ps, as Java's split does. */
  function DropTrailingEmpty(ps: seq<string>): (r: seq<string>)
    ensures |r| <= |ps| && r == ps[..|r|]
    ensures forall k :: |r| <= k < |ps| ==> ps[k] == ""
    ensures r == [] || r[|r| - 1] != ""
  {
    if |ps| > 0 && ps[|ps| - 1] == "" then DropTrailingEmpty(ps[..|ps| - 1]) else ps
  }

  /** `s.split(",")`: with no comma the whole string (even an empty one) is
      the only piece; otherwise the pieces, less the trailing empty ones. */
  function JavaSplit(s: string): seq<string> {
    if ',' !in s then [s] else DropTrailingEmpty(SplitAll(s))
  }

  /** Splitting at the first comma: the first piece, then the pieces of the rest. */
  lemma SplitAllCons(a: string, b: string)
    requires ',' !in a
    ensures SplitAll(a + "," + b) == [a] + SplitAll(b)
  {
    SplitAllJoin([a] + SplitAll(b)) by {
      var ps := [a] + SplitAll(b);
      forall k | 0 <= k < |ps| ensures ',' !in ps[k] {
        if k > 0 { assert ps[k] == SplitAll(b)[k - 1]; }
      }
      JoinSplitAll(b);
      assert ps[1..] == SplitAll(b);
    }
    JoinSplitAll(b);
    assert Join([a] + SplitAll(b)) == a + "," + b by {
      assert ([a] + SplitAll(b))[1..] == SplitAll(b);
    }
  }

  // ---------------------------------------------------------------------
  // %.2f: HALF_UP rounding to hundredths, '.' as the decimal separator

  function DigitChar(d: nat): char
    requires d < 10
  {
    "0123456789"[d]
  }

  /** Decimal digits of n, most significant first, without leading zeros. */
  function NatToDecimal(n: nat): (r: string)
    ensures 1 <= |r|
    ensures forall i :: 0 <= i < |r| ==> '0' <= r[i] <= '9'
    ensures r[0] != '0' || n == 0
  {
    if n < 10 then [DigitChar(n)] else NatToDecimal(n / 10) + [DigitChar(n % 10)]
  }

  predicate IsDigits(s: string) {
    forall i :: 0 <= i < |s| ==> '0' <= s[i] <= '9'
  }

  /** The number a string of decimal digits denotes. */
  function DecimalValue(s: string): nat
    requires IsDigits(s)
  {
    if s == [] then 0 else DecimalValue(s[..|s| - 1]) * 10 + (s[|s| - 1] as int - '0' as int)
  }

  lemma {:induction false} DecimalRoundTrip(n: nat)
    ensures DecimalValue(NatToDecimal(n)) == n
  {
    var d := if n < 10 then n else n % 10;
    var p := if n < 10 then "" else NatToDecimal(n / 10);
    assert NatToDecimal(n) == p + [DigitChar(d)];
    DigitCharValue(d);
    DecimalAppend(p, DigitChar(d));
    if n >= 10 {
      DecimalRoundTrip(n / 10);
    }
    assert n == (if n < 10 then 0 else n / 10) * 10 + d;
  }

  /** One more digit multiplies the value by ten and adds the digit. */
  lemma DecimalAppend(p: string, c: char)
    requires IsDigits(p) && '0' <= c <= '9'
    ensures IsDigits(p + [c])
    ensures DecimalValue(p + [c]) == DecimalValue(p) * 10 + (c as int - '0' as int)
  {
    var s := p + [c];
    assert s[..|s| - 1] == p;
  }

  /** Number of hundredths in a >= 0, rounded half up. */
  function Cents(a: real): (c: nat)
    requires a >= 0.0
  {
    (a * 100.0 + 0.5).Floor
  }

  /** The two-digit fraction of c hundredths. */
  function Hundredths(c: nat): string {
    [DigitChar(c / 10 % 10), DigitChar(c % 10)]
  }

  /** `String.format("%.2f", x)` with x read as the exact decimal it prints as. */
  function Fixed2(x: real): string {
    var c := Cents(if x < 0.0 then -x else x);
    (if x < 0.0 then "-" else "") + NatToDecimal(c / 100) + "." + Hundredths(c)
  }

  lemma DigitCharValue(d: nat)
    requires d < 10
    ensures '0' <= DigitChar(d) <= '9' && DigitChar(d) as int - '0' as int == d
  {
  }

  lemma TwoDigitValue(d1: nat, d2: nat)
    requires d1 < 10 && d2 < 10
    ensures IsDigits([DigitChar(d1), DigitChar(d2)])
    ensures DecimalValue([DigitChar(d1), DigitChar(d2)]) == d1 * 10 + d2
  {
    DigitCharValue(d1);
    DigitCharValue(d2);
    var h := [DigitChar(d1), DigitChar(d2)];
    assert h[..|h| - 1] == [DigitChar(d1)];
    assert [DigitChar(d1)][..0] == [];
    assert DecimalValue([DigitChar(d1)]) == d1;
    assert DecimalValue(h) == DecimalValue(h[..|h| - 1]) * 10 + (h[1] as int - '0' as int);
  }

  lemma LastTwoDigits(c: nat)
    ensures (c / 10 % 10) * 10 + c % 10 == c % 100
  {
    var q := c / 10;
    assert c == 10 * q + c % 10;
    assert q == 10 * (q / 10) + q % 10;
    assert c == 100 * (q / 10) + (10 * (q % 10) + c % 10);
  }

  /** The two digits of Hundredths(c) read back as c mod 100. */
  lemma HundredthsValue(c: nat)
    ensures IsDigits(Hundredths(c)) && DecimalValue(Hundredths(c)) == c % 100
  {
    TwoDigitValue(c / 10 % 10, c % 10);
    LastTwoDigits(c);
  }

  /** Cents rounds half up: it is within half a hundredth of a. */
  lemma CentsRounding(a: real)
    requires a >= 0.0
    ensures Cents(a) as real - 0.5 <= a * 100.0 < Cents(a) as real + 0.5
  {
  }

  /** The unsigned part of Fixed2(x): integer digits, '.', two digits. */
  function Fixed2Body(x: real): string {
    var c := Cents(if x < 0.0 then -x else x);
    NatToDecimal(c / 100) + "." + Hundredths(c)
  }

  lemma Fixed2Parts(x: real)
    ensures Fixed2(x) == (if x < 0.0 then "-" else "") + Fixed2Body(x)
    ensures x < 0.0 <==> Fixed2(x)[0] == '-'
  {
    var c := Cents(if x < 0.0 then -x else x);
    var ip := NatToDecimal(c / 100);
    assert x >= 0.0 ==> Fixed2(x)[0] == ip[0];
  }

  /** The value the body of Fixed2(x) denotes, read back from its digits,
      is within half a hundredth of |x|. */
  lemma Fixed2BodyValue(x: real)
    ensures var body := Fixed2Body(x);
      |body| >= 4 && body[|body| - 3] == '.'
      && IsDigits(body[..|body| - 3]) && IsDigits(body[|body| - 2..])
      && var v := (DecimalValue(body[..|body| - 3]) * 100 + DecimalValue(body[|body| - 2..])) as real;
      var a := if x < 0.0 then -x else x;
      v - 0.5 <= a * 100.0 < v + 0.5
  {
    var a := if x < 0.0 then -x else x;
    var c := Cents(a);
    var ip := NatToDecimal(c / 100);
    var h := Hundredths(c);
    assert Fixed2Body(x) == ip + "." + h;
    PointSplit(ip, h);
    DecimalRoundTrip(c / 100);
    HundredthsValue(c);
    DigitsValue(a, DecimalValue(ip), DecimalValue(h));
  }

  /** Whole hundreds and the remainder of Cents(a) are a*100 to within half. */
  lemma DigitsValue(a: real, whole: nat, part: nat)
    requires a >= 0.0 && whole == Cents(a) / 100 && part == Cents(a) % 100
    ensures var v := (whole * 100 + part) as real;
      v - 0.5 <= a * 100.0 < v + 0.5
  {
    assert whole * 100 + part == Cents(a);
    CentsRounding(a);
  }

  /** Integer digits, '.', two digits: each part can be read back. */
  lemma PointSplit(ip: string, h: string)
    requires |ip| >= 1 && |h| == 2
    ensures var body := ip + "." + h;
      |body| >= 4 && body[|body| - 3] == '.'
      && body[..|body| - 3] == ip && body[|body| - 2..] == h
  {
    var body := ip + "." + h;
    assert body[..|body| - 3] == ip;
    assert body[|body| - 2..] == h;
  }

}

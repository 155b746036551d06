/** Strings as the program's own language handles them: white space, stripping, order, decimal numbers. */
module Text {

  /** `str.isspace` of one character. */
  predicate Space(c: char) {
    var n := c as int;
    || 0x09 <= n <= 0x0d || 0x1c <= n <= 0x20 || n == 0x85 || n == 0xa0 || n == 0x1680
    || 0x2000 <= n <= 0x200a || n == 0x2028 || n == 0x2029 || n == 0x202f || n == 0x205f || n == 0x3000
  }

  function LStrip(s: string): string {
    if s != "" && Space(s[0]) then LStrip(s[1..]) else s
  }

  function RStrip(s: string): string {
    if s != "" && Space(s[|s| - 1]) then RStrip(s[..|s| - 1]) else s
  }

  function Strip(s: string): string {
    RStrip(LStrip(s))
  }

  predicate Blank(s: string) {
    forall i :: 0 <= i < |s| ==> Space(s[i])
  }

  /** What stripping on the right leaves: a prefix, the rest white space, no white space at its end. */
  lemma {:induction false} RStripSplits(s: string)
    ensures |RStrip(s)| <= |s| && RStrip(s) == s[..|RStrip(s)|] && Blank(s[|RStrip(s)|..])
    ensures RStrip(s) != "" ==> !Space(RStrip(s)[|RStrip(s)| - 1])
  {
    if s != "" && Space(s[|s| - 1]) {
      var init, last := s[..|s| - 1], s[|s| - 1];
      RStripSplits(init);
      var n := |RStrip(init)|;
      assert s[n..] == init[n..] + [last];
    } else {
      assert s[|s|..] == "";
    }
  }

  lemma {:induction false} LStripSplits(s: string)
    ensures |LStrip(s)| <= |s| && LStrip(s) == s[|s| - |LStrip(s)|..] && Blank(s[..|s| - |LStrip(s)|])
    ensures LStrip(s) != "" ==> !Space(LStrip(s)[0])
  {
    if s != "" && Space(s[0]) {
      LStripSplits(s[1..]);
      var n := |s| - |LStrip(s)|;
      assert s[..n] == [s[0]] + s[1..][..n - 1];
    }
  }

  lemma StripSplits(s: string)
    ensures |Strip(s)| <= |s|
    ensures (Strip(s) == "") <==> Blank(s)
    ensures Strip(s) != "" ==> !Space(Strip(s)[0]) && !Space(Strip(s)[|Strip(s)| - 1])
  {
    LStripSplits(s);
    var t := LStrip(s);
    RStripSplits(t);
    var cut := |s| - |t|;
    if RStrip(t) == "" {
      assert t == t[0..];
      assert s == s[..cut] + t;
    } else {
      assert t[0] == RStrip(t)[0];
      assert s[cut] == t[0];
    }
  }

  lemma StripIdempotent(s: string)
    ensures Strip(Strip(s)) == Strip(s)
  {
    StripSplits(s);
  }

  lemma {:induction false} LStripSkips(a: string, t: string)
    requires Blank(a)
    ensures LStrip(a + t) == LStrip(t)
  {
    if a == "" {
      assert a + t == t;
    } else {
      LStripSkips(a[1..], t);
      assert (a + t)[1..] == a[1..] + t;
    }
  }

  lemma {:induction false} RStripSkips(t: string, b: string)
    requires Blank(b)
    ensures RStrip(t + b) == RStrip(t)
  {
    if b == "" {
      assert t + b == t;
    } else {
      var n := |b| - 1;
      RStripSkips(t, b[..n]);
      assert (t + b)[..|t + b| - 1] == t + b[..n];
    }
  }

  /** Stripping takes the white space off both ends and nothing else. */
  lemma {:induction false} StripTakes(a: string, s: string, b: string)
    requires Blank(a) && Blank(b) && s != "" && !Space(s[0]) && !Space(s[|s| - 1])
    ensures Strip(a + s + b) == s
  {
    assert a + s + b == a + (s + b);
    LStripSkips(a, s + b);
    assert LStrip(s + b) == s + b;
    RStripSkips(s, b);
  }

  /** The characters that are white space. */
  lemma SpacesAre(c: char)
    ensures Space(c) <==> c as int in {9, 10, 11, 12, 13, 28, 29, 30, 31, 32, 133, 160, 5760, 8192, 8193, 8194, 8195, 8196,
                                       8197, 8198, 8199, 8200, 8201, 8202, 8232, 8233, 8239, 8287, 12288}
  {
  }

  // ---------------------------------------------------------------- order

  /** `a < b` on strings. */
  predicate TextLess(a: string, b: string) {
    if b == "" then false
    else if a == "" then true
    else a[0] < b[0] || (a[0] == b[0] && TextLess(a[1..], b[1..]))
  }

  lemma {:induction false} TextTotal(a: string, b: string)
    ensures TextLess(a, b) || a == b || TextLess(b, a)
    ensures !(TextLess(a, b) && TextLess(b, a)) && !TextLess(a, a)
  {
    if a != "" {
      if b != "" {
        TextTotal(a[1..], b[1..]);
      }
      TextTotal(a[1..], a[1..]);
      assert a == [a[0]] + a[1..];
    }
    if b != "" {
      assert b == [b[0]] + b[1..];
    }
  }

  /** One string comes before another where it ends first or has the lesser character at the first difference. */
  lemma {:induction false} TextLessMeans(a: string, b: string)
    ensures TextLess(a, b) <==>
            exists k :: 0 <= k <= |a| && k < |b| && a[..k] == b[..k] && (k == |a| || a[k] < b[k])
  {
    if a != "" && b != "" && a[0] == b[0] {
      TextLessMeans(a[1..], b[1..]);
      if k :| 0 <= k <= |a[1..]| && k < |b[1..]| && a[1..][..k] == b[1..][..k] && (k == |a[1..]| || a[1..][k] < b[1..][k]) {
        assert a[..k + 1] == [a[0]] + a[1..][..k] && b[..k + 1] == [b[0]] + b[1..][..k];
      }
      if k :| 0 <= k <= |a| && k < |b| && a[..k] == b[..k] && (k == |a| || a[k] < b[k]) {
        assert k > 0 && a[1..][..k - 1] == a[..k][1..] && b[1..][..k - 1] == b[..k][1..];
      }
    } else {
      forall k | 0 < k <= |a| && k <= |b| ensures a[..k] != b[..k] {
        assert a[..k][0] == a[0] && b[..k][0] == b[0];
      }
      assert a[..0] == b[..0];
    }
  }

  lemma {:induction false} TextTransitive(a: string, b: string, c: string)
    requires TextLess(a, b) && TextLess(b, c)
    ensures TextLess(a, c)
  {
    if a != "" && a[0] == b[0] == c[0] {
      TextTransitive(a[1..], b[1..], c[1..]);
    }
  }

  // ---------------------------------------------------------------- decimal numbers

  predicate IsDigit(c: char) {
    '0' <= c <= '9'
  }

  predicate AllDigits(s: string) {
    forall i :: 0 <= i < |s| ==> IsDigit(s[i])
  }

  function Digit(d: nat): char
    requires d < 10
  {
    ('0' as int + d) as char
  }

  /** `str(n)`. */
  function Digits(n: nat): (s: string)
    ensures s != ""
  {
    if n < 10 then [Digit(n)] else Digits(n / 10) + [Digit(n % 10)]
  }

  /** `int(s)`. */
  function Value(s: string): nat
    requires AllDigits(s)
  {
    if s == "" then 0 else 10 * Value(s[..|s| - 1]) + (s[|s| - 1] as int - '0' as int)
  }

  lemma {:induction false} DigitsRoundTrip(n: nat)
    ensures AllDigits(Digits(n)) && Value(Digits(n)) == n
  {
    var s := Digits(n);
    if n < 10 {
      assert Value(s[..0]) == 0;
    } else {
      DigitsRoundTrip(n / 10);
      assert s[..|s| - 1] == Digits(n / 10);
    }
  }

  /** A number's decimal form ends in its last digit, after that of its tenth part. */
  lemma {:induction false} DigitsMean(n: nat, d: nat)
    requires d < 10
    ensures Digits(d) == ["0123456789"[d]]
    ensures n > 0 ==> Digits(10 * n + d) == Digits(n) + ["0123456789"[d]]
    ensures Digits(255) == "255"
  {
    assert Digit(d) == "0123456789"[d];
    assert Digits(25) == Digits(2) + ['5'] == "25";
    assert Digits(255) == Digits(25) + ['5'];
  }

  lemma DigitsInjective(m: nat, n: nat)
    requires Digits(m) == Digits(n)
    ensures m == n
  {
    DigitsRoundTrip(m);
    DigitsRoundTrip(n);
  }
}

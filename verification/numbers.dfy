/** 32-bit integers as the program reads and writes them: `int.TryParse`
    with the default integer style, and `int.ToString()` as used by string
    interpolation, both in the invariant culture. */
module Numbers {
  import opened Wrappers

  const Int32Min: int := -0x8000_0000
  const Int32Max: int := 0x7FFF_FFFF

  predicate IsInt32(n: int)
  {
    Int32Min <= n <= Int32Max
  }

  predicate IsDigit(c: char)
  {
    '0' <= c <= '9'
  }

  predicate AllDigits(s: string)
  {
    forall k :: 0 <= k < |s| ==> IsDigit(s[k])
  }

  function DigitValue(c: char): nat
    requires IsDigit(c)
  {
    c as int - '0' as int
  }

  function DigitChar(d: nat): (c: char)
    requires d < 10
    ensures IsDigit(c) && DigitValue(c) == d
  {
    ('0' as int + d) as char
  }

  /** The white space allowed around a number: tab, line feed, vertical tab,
      form feed, carriage return and space. */
  predicate IsWhite(c: char)
  {
    c == ' ' || '\t' <= c <= '\r'
  }

  /** `s` without its leading white space. */
  function TrimStart(s: string): string
  {
    if |s| > 0 && IsWhite(s[0]) then TrimStart(s[1..]) else s
  }

  /** `s` without its trailing white space. */
  function TrimEnd(s: string): string
  {
    if |s| > 0 && IsWhite(s[|s| - 1]) then TrimEnd(s[..|s| - 1]) else s
  }

  /** `TrimStart` removes exactly the leading white space: what remains is
      a suffix of `s` that does not start with white space, and everything
      cut off is white. */
  lemma {:induction false} TrimStartSpec(s: string)
    ensures var t := TrimStart(s);
      && |t| <= |s| && t == s[|s| - |t|..]
      && (|t| > 0 ==> !IsWhite(t[0]))
      && (forall k :: 0 <= k < |s| - |t| ==> IsWhite(s[k]))
  {
    if |s| > 0 && IsWhite(s[0]) {
      TrimStartSpec(s[1..]);
    }
  }

  /** `TrimEnd` removes exactly the trailing white space. */
  lemma {:induction false} TrimEndSpec(s: string)
    ensures var t := TrimEnd(s);
      && |t| <= |s| && t == s[..|t|]
      && (|t| > 0 ==> !IsWhite(t[|t| - 1]))
      && (forall k :: |t| <= k < |s| ==> IsWhite(s[k]))
  {
    if |s| > 0 && IsWhite(s[|s| - 1]) {
      var s' := s[..|s| - 1];
      TrimEndSpec(s');
      assert forall k :: 0 <= k < |s'| ==> s'[k] == s[k];
    }
  }

  /** The number a string of decimal digits denotes (most significant first). */
  function ValueOf(ds: string): nat
    requires AllDigits(ds)
  {
    if |ds| == 0 then 0 else ValueOf(ds[..|ds| - 1]) * 10 + DigitValue(ds[|ds| - 1])
  }

  /** The shortest decimal spelling of `n`. */
  function Digits(n: nat): (ds: string)
    ensures |ds| >= 1 && AllDigits(ds)
    ensures ValueOf(ds) == n
    ensures |ds| > 1 ==> ds[0] != '0'
  {
    if n < 10 then [DigitChar(n)]
    else
      var ds := Digits(n / 10) + [DigitChar(n % 10)];
      assert ds[..|ds| - 1] == Digits(n / 10);
      ds
  }

  /** `n.ToString()`: a minus sign for negative values, then the digits. */
  function FormatInt(n: int): (s: string)
    ensures |s| >= 1 && !IsWhite(s[0]) && IsDigit(s[|s| - 1])
    ensures forall k :: 0 <= k < |s| ==> IsDigit(s[k]) || (k == 0 && s[k] == '-')
    ensures '|' !in s
  {
    if n < 0 then "-" + Digits(-n) else Digits(n)
  }

  /** `int.TryParse(s, out v)`: optional white space, an optional `+` or `-`,
      one or more decimal digits, optional white space; the value must fit
      in 32 bits. */
  function ParseInt(s: string): (r: Option<int>)
    ensures r.Some? ==> IsInt32(r.value)
  {
    ParseSigned(TrimEnd(TrimStart(s)))
  }

  /** An optionally signed run of digits without surrounding white space. */
  function ParseSigned(t: string): (r: Option<int>)
    ensures r.Some? ==> IsInt32(r.value)
  {
    var negative := |t| > 0 && t[0] == '-';
    var ds := if |t| > 0 && (t[0] == '-' || t[0] == '+') then t[1..] else t;
    if |ds| == 0 || !AllDigits(ds) then None
    else
      var magnitude: int := ValueOf(ds);
      var v := if negative then -magnitude else magnitude;
      if IsInt32(v) then Some(v) else None
  }

  /** What the program writes for a 32-bit integer it reads back unchanged. */
  lemma FormatParse(n: int)
    requires IsInt32(n)
    ensures ParseInt(FormatInt(n)) == Some(n)
  {
    var s := FormatInt(n);
    assert TrimStart(s) == s;
    assert TrimEnd(s) == s;
    if n < 0 {
      assert s[1..] == Digits(-n);
    }
  }

  /** A plain run of digits parses to the number it spells, when that fits. */
  lemma ParseDigits(s: string)
    requires |s| >= 1 && AllDigits(s) && ValueOf(s) <= Int32Max
    ensures ParseInt(s) == Some(ValueOf(s))
  {
    assert IsDigit(s[0]);
    assert TrimEnd(TrimStart(s)) == s by {
      assert TrimStart(s) == s;
      assert IsDigit(s[|s| - 1]);
    }
  }

  /** Every character of `s` is white space. */
  predicate AllWhite(s: string)
  {
    forall k :: 0 <= k < |s| ==> IsWhite(s[k])
  }

  /** The signs `int.TryParse` accepts in front of the digits: none, `+` or `-`. */
  predicate IsSign(sg: string)
  {
    sg == "" || sg == "+" || sg == "-"
  }

  /** The number a sign and a run of digits spell. */
  function Signed(sg: string, ds: string): int
    requires AllDigits(ds)
  {
    if sg == "-" then 0 - ValueOf(ds) else ValueOf(ds)
  }

  /** White space in front of a text that does not start with white space is
      exactly what `TrimStart` removes. */
  lemma {:induction false} TrimStartWhite(w: string, t: string)
    requires AllWhite(w) && (|t| > 0 ==> !IsWhite(t[0]))
    ensures TrimStart(w + t) == t
  {
    if |w| > 0 {
      assert (w + t)[1..] == w[1..] + t;
      TrimStartWhite(w[1..], t);
    } else {
      assert w + t == t;
    }
  }

  /** White space after a text that does not end with white space is exactly
      what `TrimEnd` removes. */
  lemma {:induction false} TrimEndWhite(t: string, w: string)
    requires AllWhite(w) && (|t| > 0 ==> !IsWhite(t[|t| - 1]))
    ensures TrimEnd(t + w) == t
  {
    if |w| > 0 {
      assert (t + w)[..|t + w| - 1] == t + w[..|w| - 1];
      TrimEndWhite(t, w[..|w| - 1]);
    } else {
      assert t + w == t;
    }
  }

  /** `int.TryParse` accepts white space, an optional sign, one or more
      digits and white space, and yields the value they spell when it fits
      in 32 bits. */
  lemma ParseIntAccepts(w: string, sg: string, ds: string, w': string)
    requires AllWhite(w) && IsSign(sg) && |ds| >= 1 && AllDigits(ds) && AllWhite(w')
    ensures ParseInt(w + sg + ds + w') == if IsInt32(Signed(sg, ds)) then Some(Signed(sg, ds)) else None
  {
    var t := sg + ds;
    assert IsDigit(ds[0]) && IsDigit(ds[|ds| - 1]);
    assert t[|t| - 1] == ds[|ds| - 1];
    assert w + sg + ds + w' == w + (t + w');
    TrimStartWhite(w, t + w');
    TrimEndWhite(t, w');
    if sg == "" {
      assert t == ds;
    } else {
      assert t[1..] == ds;
    }
  }

  /** What `TrimStart` cuts off is white space. */
  lemma TrimStartShape(s: string) returns (w: string)
    ensures s == w + TrimStart(s) && AllWhite(w)
  {
    TrimStartSpec(s);
    w := s[..|s| - |TrimStart(s)|];
  }

  /** What `TrimEnd` cuts off is white space. */
  lemma TrimEndShape(s: string) returns (w: string)
    ensures s == TrimEnd(s) + w && AllWhite(w)
  {
    TrimEndSpec(s);
    w := s[|TrimEnd(s)|..];
  }

  /** What the two trims cut off is white space on either side. */
  lemma TrimShape(s: string) returns (w: string, w': string)
    ensures s == w + TrimEnd(TrimStart(s)) + w'
    ensures AllWhite(w) && AllWhite(w')
  {
    w := TrimStartShape(s);
    w' := TrimEndShape(TrimStart(s));
  }

  /** A signed digit run `ParseSigned` accepts is a sign followed by digits,
      and its value is what they spell. */
  lemma SignedShape(t: string) returns (sg: string, ds: string)
    requires ParseSigned(t).Some?
    ensures t == sg + ds
    ensures IsSign(sg) && |ds| >= 1 && AllDigits(ds)
    ensures ParseSigned(t) == Some(Signed(sg, ds))
  {
    if t[0] == '-' || t[0] == '+' {
      sg := t[..1];
      ds := t[1..];
      assert sg == [t[0]];
    } else {
      sg := "";
      ds := t;
    }
  }

  /** Every string `int.TryParse` accepts has that shape: white space, a
      sign, digits, white space, with the value the sign and digits spell. */
  lemma ParseIntShape(s: string) returns (w: string, sg: string, ds: string, w': string)
    requires ParseInt(s).Some?
    ensures s == w + sg + ds + w'
    ensures AllWhite(w) && IsSign(sg) && |ds| >= 1 && AllDigits(ds) && AllWhite(w')
    ensures ParseInt(s) == Some(Signed(sg, ds))
  {
    w, w' := TrimShape(s);
    sg, ds := SignedShape(TrimEnd(TrimStart(s)));
  }
}

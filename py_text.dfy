/**
 * The Python 2 string operations the dimension-swap layer applies to its
 * parameter string: `str.split(sep)`, and `int(x)` on a string (strip ASCII
 * whitespace at both ends, an optional sign, whitespace again after a sign,
 * then one or more decimal digits; anything else raises `ValueError`). Python's `str` is modelled
 * as a sequence of characters.
 */
module PyText {
  import opened Wrappers

  /** The characters C's `isspace` accepts in the default locale. */
  predicate IsSpace(c: char)
  {
    c == ' ' || c == '\t' || c == '\n' || c == 11 as char || c == 12 as char || c == '\r'
  }

  predicate IsDigit(c: char)
  {
    '0' <= c <= '9'
  }

  predicate AllDigits(ds: string)
  {
    forall i :: 0 <= i < |ds| ==> IsDigit(ds[i])
  }

  /** `s` without its leading whitespace. */
  function TrimLeft(s: string): (r: string)
    ensures |r| <= |s| && r == s[|s| - |r|..]
    ensures forall i :: 0 <= i < |s| - |r| ==> IsSpace(s[i])
    ensures |r| > 0 ==> !IsSpace(r[0])
  {
    if |s| > 0 && IsSpace(s[0]) then TrimLeft(s[1..]) else s
  }

  /** `s` without its trailing whitespace. */
  function TrimRight(s: string): (r: string)
    ensures |r| <= |s| && r == s[..|r|]
    ensures forall i :: |r| <= i < |s| ==> IsSpace(s[i])
    ensures |r| > 0 ==> !IsSpace(r[|r| - 1])
  {
    if |s| > 0 && IsSpace(s[|s| - 1]) then TrimRight(s[..|s| - 1]) else s
  }

  /** `s.strip()` for ASCII whitespace. */
  function Strip(s: string): string
  {
    TrimRight(TrimLeft(s))
  }

  lemma {:induction false} TrimLeftPadded(w: string, x: string)
    requires forall i :: 0 <= i < |w| ==> IsSpace(w[i])
    requires |x| > 0 && !IsSpace(x[0])
    ensures TrimLeft(w + x) == x
  {
    if |w| > 0 {
      assert (w + x)[1..] == w[1..] + x;
      TrimLeftPadded(w[1..], x);
    } else {
      assert w + x == x;
    }
  }

  lemma {:induction false} TrimRightPadded(x: string, w: string)
    requires forall i :: 0 <= i < |w| ==> IsSpace(w[i])
    requires |x| > 0 && !IsSpace(x[|x| - 1])
    ensures TrimRight(x + w) == x
  {
    if |w| > 0 {
      assert (x + w)[..|x + w| - 1] == x + w[..|w| - 1];
      TrimRightPadded(x, w[..|w| - 1]);
    } else {
      assert x + w == x;
    }
  }

  /** Stripping ignores whitespace around a string whose ends are not whitespace. */
  lemma StripPadded(w1: string, x: string, w2: string)
    requires forall i :: 0 <= i < |w1| ==> IsSpace(w1[i])
    requires forall i :: 0 <= i < |w2| ==> IsSpace(w2[i])
    requires |x| > 0 && !IsSpace(x[0]) && !IsSpace(x[|x| - 1])
    ensures Strip(w1 + x + w2) == x
  {
    assert w1 + x + w2 == w1 + (x + w2);
    TrimLeftPadded(w1, x + w2);
    TrimRightPadded(x, w2);
  }

  /** The value of a string of decimal digits, most significant first. */
  function DigitsValue(ds: string): (n: nat)
    requires AllDigits(ds)
  {
    if |ds| == 0 then 0
    else DigitsValue(ds[..|ds| - 1]) * 10 + DigitValue(ds[|ds| - 1])
  }

  function DigitValue(c: char): (d: nat)
    requires IsDigit(c)
    ensures d < 10
  {
    c as int - '0' as int
  }

  function DigitChar(d: nat): (c: char)
    requires d < 10
    ensures IsDigit(c) && DigitValue(c) == d
  {
    (d + '0' as int) as char
  }

  /** Decimal digits of `n` without leading zeros: Python's `str(n)` for `n >= 0`. */
  function FormatNat(n: nat): (ds: string)
    ensures |ds| > 0
    ensures AllDigits(ds)
  {
    if n < 10 then [DigitChar(n)] else FormatNat(n / 10) + [DigitChar(n % 10)]
  }

  /** Python's `str(n)`. */
  function FormatInt(n: int): (s: string)
    ensures |s| > 0 && !IsSpace(s[0]) && !IsSpace(s[|s| - 1]) && ',' !in s
  {
    if n < 0 then "-" + FormatNat(-n) else FormatNat(n)
  }

  /** `int(s)` on a string: `None` where Python raises `ValueError`. */
  function ParseInt(s: string): Option<int>
  {
    ParseSigned(Strip(s))
  }

  /**
   * An optional sign followed by one or more digits, and nothing else.
   * Python 2 reads the digits after a sign with `PyOS_strtoul`, which skips
   * leading whitespace once more, so whitespace may follow the sign.
   */
  function ParseSigned(t: string): Option<int>
  {
    if |t| > 0 && (t[0] == '-' || t[0] == '+') then
      var body := TrimLeft(t[1..]);
      if |body| > 0 && AllDigits(body) then
        var v: int := DigitsValue(body);
        Some(if t[0] == '-' then -v else v)
      else
        None
    else if |t| > 0 && AllDigits(t) then
      Some(DigitsValue(t))
    else
      None
  }

  lemma {:induction false} DigitsOfFormat(n: nat)
    ensures DigitsValue(FormatNat(n)) == n
  {
    var ds := FormatNat(n);
    if n >= 10 {
      DigitsOfFormat(n / 10);
      assert ds[..|ds| - 1] == FormatNat(n / 10);
    }
  }

  /** The sign and digits that `str(n)` writes read back as `n`. */
  lemma ParseSignedFormat(n: int)
    ensures ParseSigned(FormatInt(n)) == Some(n)
  {
    var f := FormatInt(n);
    if n < 0 {
      var ds := FormatNat(-n);
      DigitsOfFormat(-n);
      assert f[0] == '-' && f[1..] == ds;
      TrimLeftUnpadded(ds);
      SignedDigits(f, ds);
    } else {
      DigitsOfFormat(n);
      assert IsDigit(f[0]);
    }
  }

  /** `int(str(n)) == n`, also with whitespace around the digits. */
  lemma ParseFormatInt(w1: string, n: int, w2: string)
    requires forall i :: 0 <= i < |w1| ==> IsSpace(w1[i])
    requires forall i :: 0 <= i < |w2| ==> IsSpace(w2[i])
    ensures ParseInt(w1 + FormatInt(n) + w2) == Some(n)
  {
    StripPadded(w1, FormatInt(n), w2);
    ParseSignedFormat(n);
  }

  /** Whitespace between the sign and the digits is accepted: `int('-' + w + ds)` is minus the digits' value, e.g. `int('- 1') == -1`. */
  lemma SpaceAfterSign(w: string, ds: string)
    requires forall i :: 0 <= i < |w| ==> IsSpace(w[i])
    requires |ds| > 0 && AllDigits(ds)
    ensures ParseInt("-" + w + ds) == Some(-(DigitsValue(ds) as int))
  {
    SignThenRest(w, ds);
    SignedSpaced("-" + w + ds, w, ds);
  }

  lemma SignedSpaced(t: string, w: string, ds: string)
    requires forall i :: 0 <= i < |w| ==> IsSpace(w[i])
    requires |ds| > 0 && AllDigits(ds)
    requires |t| > 0 && t[0] == '-' && t[1..] == w + ds && t[|t| - 1] == ds[|ds| - 1]
    ensures ParseInt(t) == Some(-(DigitsValue(ds) as int))
  {
    TrimLeftPadded(w, ds);
    SignedDigits(t, ds);
    StripUnpadded(t);
  }

  lemma SignThenRest(w: string, ds: string)
    requires |ds| > 0
    ensures ("-" + w + ds)[0] == '-' && ("-" + w + ds)[1..] == w + ds
    ensures ("-" + w + ds)[|"-" + w + ds| - 1] == ds[|ds| - 1]
  {
    assert "-" + w + ds == "-" + (w + ds);
  }

  /** `s.strip()` is `s` itself when neither end is whitespace. */
  lemma StripUnpadded(t: string)
    requires |t| > 0 && !IsSpace(t[0]) && !IsSpace(t[|t| - 1])
    ensures ParseInt(t) == ParseSigned(t)
  {
    StripPadded("", t, "");
    assert "" + t + "" == t;
  }

  lemma TrimLeftUnpadded(x: string)
    requires |x| > 0 && !IsSpace(x[0])
    ensures TrimLeft(x) == x
  {
  }

  /** A minus sign, whitespace, then digits: the negated digit value. */
  lemma SignedDigits(t: string, ds: string)
    requires |t| > 0 && t[0] == '-' && TrimLeft(t[1..]) == ds && |ds| > 0 && AllDigits(ds)
    ensures ParseSigned(t) == Some(-(DigitsValue(ds) as int))
  {
  }

  /** `parts[0] + sep + parts[1] + ... + sep + parts[k]`: Python's `sep.join(parts)`. */
  function Join(parts: seq<string>, sep: char): string
    requires |parts| > 0
  {
    if |parts| == 1 then parts[0] else parts[0] + [sep] + Join(parts[1..], sep)
  }

  lemma JoinConsHead(c: char, parts: seq<string>, sep: char)
    requires |parts| > 0
    ensures Join([[c] + parts[0]] + parts[1..], sep) == [c] + Join(parts, sep)
  {
    var ps := [[c] + parts[0]] + parts[1..];
    if |parts| > 1 {
      assert ps[1..] == parts[1..];
    }
  }

  /** `s.split(sep)`: the pieces between occurrences of `sep`, from left to right. */
  function Split(s: string, sep: char): (parts: seq<string>)
    ensures |parts| > 0
    ensures forall k :: 0 <= k < |parts| ==> sep !in parts[k]
    ensures Join(parts, sep) == s
  {
    if |s| == 0 then [""]
    else
      var rest := Split(s[1..], sep);
      if s[0] == sep then
        assert ([""] + rest)[1..] == rest;
        [""] + rest
      else
        JoinConsHead(s[0], rest, sep);
        assert s == [s[0]] + s[1..];
        [[s[0]] + rest[0]] + rest[1..]
  }

  /** The separator occurs in a join of more than one piece. */
  lemma JoinHasSeparator(parts: seq<string>, sep: char)
    requires |parts| > 1
    ensures Join(parts, sep)[|parts[0]|] == sep
  {
  }

  /** Pieces without the separator are determined by their join. */
  lemma {:induction false} JoinInjective(a: seq<string>, b: seq<string>, sep: char)
    requires |a| > 0 && |b| > 0
    requires forall k :: 0 <= k < |a| ==> sep !in a[k]
    requires forall k :: 0 <= k < |b| ==> sep !in b[k]
    requires Join(a, sep) == Join(b, sep)
    ensures a == b
    decreases |a|
  {
    var s := Join(a, sep);
    if |a| == 1 && |b| == 1 {
    } else if |a| == 1 {
      JoinHasSeparator(b, sep);
      assert false;
    } else if |b| == 1 {
      JoinHasSeparator(a, sep);
      assert false;
    } else {
      var m, n := |a[0]|, |b[0]|;
      assert s[..m] == a[0] && s[m] == sep;
      assert Join(b, sep)[..n] == b[0] && Join(b, sep)[n] == sep;
      assert m == n;
      assert a[0] == b[0];
      assert Join(a[1..], sep) == s[m + 1..];
      assert Join(b[1..], sep) == s[n + 1..];
      JoinInjective(a[1..], b[1..], sep);
      assert a == [a[0]] + a[1..] && b == [b[0]] + b[1..];
    }
  }

  /** Splitting a join gives back the pieces when none of them holds the separator. */
  lemma SplitJoin(parts: seq<string>, sep: char)
    requires |parts| > 0
    requires forall k :: 0 <= k < |parts| ==> sep !in parts[k]
    ensures Split(Join(parts, sep), sep) == parts
  {
    JoinInjective(Split(Join(parts, sep), sep), parts, sep);
  }

  /** `[int(x) for x in parts]`: `None` if any piece raises `ValueError`. */
  function ParseAll(parts: seq<string>): (r: Option<seq<int>>)
    ensures r.Some? ==> |r.value| == |parts|
  {
    if |parts| == 0 then Some([])
    else
      var head, tail := ParseInt(parts[0]), ParseAll(parts[1..]);
      if head.Some? && tail.Some? then Some([head.value] + tail.value) else None
  }

  /** A successful list comprehension parsed every piece, and holds the parsed values in order. */
  lemma {:induction false} ParseAllValues(parts: seq<string>)
    ensures ParseAll(parts).Some? ==>
              forall k :: 0 <= k < |parts| ==>
                ParseInt(parts[k]).Some? && ParseAll(parts).value[k] == ParseInt(parts[k]).value
  {
    if |parts| > 0 && ParseAll(parts).Some? {
      var tail := parts[1..];
      ParseAllValues(tail);
      forall k | 0 <= k < |parts|
        ensures ParseInt(parts[k]).Some? && ParseAll(parts).value[k] == ParseInt(parts[k]).value
      {
        if k > 0 {
          assert parts[k] == tail[k - 1];
        }
      }
    }
  }

  /** When every piece parses, the list comprehension succeeds. */
  lemma {:induction false} ParseAllSucceeds(parts: seq<string>)
    requires forall k :: 0 <= k < |parts| ==> ParseInt(parts[k]).Some?
    ensures ParseAll(parts).Some?
  {
    if |parts| > 0 {
      var tail := parts[1..];
      forall k | 0 <= k < |tail|
        ensures ParseInt(tail[k]).Some?
      {
        assert tail[k] == parts[k + 1];
      }
      ParseAllSucceeds(tail);
    }
  }

  /** The list comprehension succeeds exactly when every piece parses, and then holds the parsed values in order. */
  lemma ParseAllMeaning(parts: seq<string>)
    ensures ParseAll(parts).Some? <==> forall k :: 0 <= k < |parts| ==> ParseInt(parts[k]).Some?
    ensures ParseAll(parts).Some? ==>
              forall k :: 0 <= k < |parts| ==> ParseAll(parts).value[k] == ParseInt(parts[k]).value
  {
    ParseAllValues(parts);
    if forall k :: 0 <= k < |parts| ==> ParseInt(parts[k]).Some? {
      ParseAllSucceeds(parts);
    }
  }

  lemma ParseAllSome(parts: seq<string>, values: seq<int>)
    requires |parts| == |values|
    requires forall k :: 0 <= k < |parts| ==> ParseInt(parts[k]) == Some(values[k])
    ensures ParseAll(parts) == Some(values)
  {
    ParseAllMeaning(parts);
    var r := ParseAll(parts);
    assert r.Some?;
    assert forall k :: 0 <= k < |parts| ==> r.value[k] == values[k];
    assert r.value == values;
  }

  /** `[int(x) for x in s.split(',')]`. */
  function ParseIntList(s: string): Option<seq<int>>
  {
    ParseAll(Split(s, ','))
  }

  /** `[str(v) for v in values]`. */
  function FormatPieces(values: seq<int>): (parts: seq<string>)
    ensures |parts| == |values|
    ensures forall k :: 0 <= k < |values| ==> parts[k] == FormatInt(values[k])
  {
    seq(|values|, k requires 0 <= k < |values| => FormatInt(values[k]))
  }

  /** `','.join(str(v) for v in values)`. */
  function FormatIntList(values: seq<int>): (s: string)
    requires |values| > 0
  {
    Join(FormatPieces(values), ',')
  }

  /** Every formatted piece parses back to its value. */
  lemma PiecesParse(values: seq<int>)
    ensures forall k :: 0 <= k < |values| ==> ParseInt(FormatPieces(values)[k]) == Some(values[k])
  {
    forall k | 0 <= k < |values|
      ensures ParseInt(FormatPieces(values)[k]) == Some(values[k])
    {
      ParseFormatInt("", values[k], "");
      assert "" + FormatInt(values[k]) + "" == FormatInt(values[k]);
    }
  }

  /** Parsing a comma-separated list of integers written by `FormatIntList` gives back the list. */
  lemma ParseFormatIntList(values: seq<int>)
    requires |values| > 0
    ensures ParseIntList(FormatIntList(values)) == Some(values)
  {
    var parts := FormatPieces(values);
    SplitJoin(parts, ',');
    PiecesParse(values);
    ParseAllSome(parts, values);
  }

  /** A string without a comma splits into itself alone. */
  lemma SplitNoSeparator(w: string, sep: char)
    requires sep !in w
    ensures Split(w, sep) == [w]
  {
    SplitJoin([w], sep);
  }

  /** A blank piece raises `ValueError`, so an empty parameter string is rejected. */
  lemma BlankFails(w: string)
    requires forall i :: 0 <= i < |w| ==> IsSpace(w[i])
    ensures ParseInt(w) == None
    ensures ParseIntList(w) == None
  {
    assert |TrimLeft(w)| == 0;
    assert ParseInt(w) == None;
    assert ',' !in w by {
      assert forall k :: 0 <= k < |w| ==> w[k] != ',';
    }
    SplitNoSeparator(w, ',');
    assert ParseAll([w]) == None;
  }
}

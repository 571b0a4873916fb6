/**
 * The handful of Python `str` operations the core relies on: `strip`, `rstrip`, `split`,
 * `join`, `find`/`rfind`, `startswith`, `in`, `str(int)` and `int(str)`.
 */
module Strings {
  import opened Wrappers

  /** `str.isspace` for the ASCII and Latin-1 whitespace characters. */
  predicate IsSpace(c: char) {
    c == ' ' || ('\t' <= c <= '\r') || ('\U{1c}' <= c <= '\U{1f}') || c == '\U{85}' || c == '\U{a0}'
  }

  function TrimLeft(s: string): string {
    if s != [] && IsSpace(s[0]) then TrimLeft(s[1..]) else s
  }

  function TrimRight(s: string): string {
    if s != [] && IsSpace(s[|s| - 1]) then TrimRight(s[..|s| - 1]) else s
  }

  /** `lstrip` removes exactly the leading whitespace: the rest is a suffix not starting with a space. */
  lemma {:induction false} TrimLeftMeaning(s: string)
    ensures |TrimLeft(s)| <= |s| && TrimLeft(s) == s[|s| - |TrimLeft(s)|..]
    ensures TrimLeft(s) == [] || !IsSpace(TrimLeft(s)[0])
    ensures forall i :: 0 <= i < |s| - |TrimLeft(s)| ==> IsSpace(s[i])
  {
    if s != [] && IsSpace(s[0]) {
      var t := s[1..];
      TrimLeftMeaning(t);
      var r := TrimLeft(t);
      assert TrimLeft(s) == r;
      assert t[|t| - |r|..] == s[|s| - |r|..];
      forall i | 0 <= i < |s| - |r|
        ensures IsSpace(s[i])
      {
        if i > 0 {
          assert s[i] == t[i - 1];
        }
      }
    }
  }

  /** `rstrip` removes exactly the trailing whitespace: the rest is a prefix not ending with a space. */
  lemma {:induction false} TrimRightMeaning(s: string)
    ensures |TrimRight(s)| <= |s| && TrimRight(s) == s[..|TrimRight(s)|]
    ensures TrimRight(s) == [] || !IsSpace(TrimRight(s)[|TrimRight(s)| - 1])
    ensures forall i :: |TrimRight(s)| <= i < |s| ==> IsSpace(s[i])
  {
    if s != [] && IsSpace(s[|s| - 1]) {
      TrimRightMeaning(s[..|s| - 1]);
    }
  }

  /** `s.strip()` */
  function Strip(s: string): string {
    TrimRight(TrimLeft(s))
  }

  /** A text that neither starts nor ends with whitespace is its own `strip()`. */
  lemma StripFixed(s: string)
    requires s == [] || (!IsSpace(s[0]) && !IsSpace(s[|s| - 1]))
    ensures Strip(s) == s
  {
    TrimLeftMeaning(s);
    TrimRightMeaning(s);
  }

  /** `s.rstrip(c)` for a single character `c`. */
  function RStripChar(s: string, c: char): (r: string)
    ensures |r| <= |s| && r == s[..|r|]
    ensures r == [] || r[|r| - 1] != c
    ensures forall i :: |r| <= i < |s| ==> s[i] == c
  {
    if s != [] && s[|s| - 1] == c then RStripChar(s[..|s| - 1], c) else s
  }

  /** `s.find(c)`: the first index of `c`, or -1. */
  function IndexOf(s: string, c: char): (r: int)
    ensures -1 <= r < |s|
    ensures r == -1 <==> c !in s
    ensures r >= 0 ==> s[r] == c && c !in s[..r]
  {
    if s == [] then -1
    else if s[0] == c then 0
    else var k := IndexOf(s[1..], c); if k == -1 then -1 else k + 1
  }

  /** `s.rfind(c)`: the last index of `c`, or -1. */
  function LastIndexOf(s: string, c: char): (r: int)
    ensures -1 <= r < |s|
    ensures r == -1 <==> c !in s
    ensures r >= 0 ==> s[r] == c && c !in s[r + 1..]
  {
    if s == [] then -1
    else if s[|s| - 1] == c then |s| - 1
    else
      var n := |s| - 1;
      var r := LastIndexOf(s[..n], c);
      LastIndexStep(s, c, r);
      r
  }

  /** `find` returns the position of a `c` with no `c` before it. */
  lemma IndexOfAt(s: string, k: int, c: char)
    requires 0 <= k < |s| && s[k] == c && forall i :: 0 <= i < k ==> s[i] != c
    ensures IndexOf(s, c) == k
  {
  }

  /** `rfind` returns the position of a `c` with no `c` after it. */
  lemma LastIndexOfAt(s: string, k: int, c: char)
    requires 0 <= k < |s| && s[k] == c && forall i :: k < i < |s| ==> s[i] != c
    ensures LastIndexOf(s, c) == k
  {
  }

  /** The step of `rfind` past a last character that is not `c`. */
  lemma LastIndexStep(s: string, c: char, r: int)
    requires s != [] && s[|s| - 1] != c && -1 <= r < |s| - 1
    requires r == -1 <==> c !in s[..|s| - 1]
    requires r >= 0 ==> s[r] == c && c !in s[..|s| - 1][r + 1..]
    ensures r == -1 <==> c !in s
    ensures r >= 0 ==> c !in s[r + 1..]
  {
    var n := |s| - 1;
    if r == -1 {
      forall i | 0 <= i < |s|
        ensures s[i] != c
      {
        if i < n {
          assert s[i] == s[..n][i];
        }
      }
    } else {
      assert s[r] == c;
      forall i | r + 1 <= i < |s|
        ensures s[i] != c
      {
        if i < n {
          assert s[i] == s[..n][r + 1..][i - r - 1];
        }
      }
    }
  }

  predicate StartsWith(s: string, prefix: string) {
    |prefix| <= |s| && s[..|prefix|] == prefix
  }

  /** Python's `sub in s` for strings. */
  predicate Contains(s: string, sub: string)
    decreases |s|
  {
    StartsWith(s, sub) || (s != [] && Contains(s[1..], sub))
  }

  /** `sep.join(parts)` */
  function Join(parts: seq<string>, sep: string): string {
    if parts == [] then ""
    else if |parts| == 1 then parts[0]
    else parts[0] + sep + Join(parts[1..], sep)
  }

  /** `s.split(c)` for a single separator character: never empty, pieces free of `c`. */
  function Split(s: string, c: char): (r: seq<string>)
    ensures |r| >= 1
    ensures forall i :: 0 <= i < |r| ==> c !in r[i]
    decreases |s|
  {
    var k := IndexOf(s, c);
    if k == -1 then [s] else [s[..k]] + Split(s[k + 1..], c)
  }

  lemma {:induction false} JoinSplit(s: string, c: char)
    ensures Join(Split(s, c), [c]) == s
    decreases |s|
  {
    var k := IndexOf(s, c);
    if k != -1 {
      var rest := s[k + 1..];
      var tail := Split(rest, c);
      assert Split(s, c) == [s[..k]] + tail;
      JoinSplit(rest, c);
      JoinCons(s[..k], tail, [c]);
      assert s == s[..k] + [c] + rest;
    }
  }

  lemma JoinCons(x: string, ys: seq<string>, sep: string)
    requires |ys| >= 1
    ensures Join([x] + ys, sep) == x + sep + Join(ys, sep)
  {
    assert ([x] + ys)[1..] == ys;
  }

  /**
   * Dropping the last piece of a split and joining again gives the text before the last
   * separator (the empty string when there is no separator).
   */
  lemma {:induction false} JoinSplitButLast(s: string, c: char)
    ensures Join(Split(s, c)[..|Split(s, c)| - 1], [c]) == if c in s then s[..LastIndexOf(s, c)] else ""
    decreases |s|
  {
    var k := IndexOf(s, c);
    if k != -1 {
      var rest := s[k + 1..];
      var tail := Split(rest, c);
      var parts := Split(s, c);
      assert parts == [s[..k]] + tail;
      if c in rest {
        JoinSplitButLast(rest, c);
        LastIndexSplit(s, k, c);
        ButLastStep(s, k, c, parts, tail);
      } else {
        assert LastIndexOf(s, c) == k by { LastIndexSplit(s, k, c); }
        assert tail == [rest];
        assert parts[..|parts| - 1] == [s[..k]];
        assert Join([s[..k]], [c]) == s[..k];
      }
    }
  }

  /** Splitting at a first separator that follows a separator-free `a`. */
  lemma SplitAfter(a: string, c: char, b: string)
    requires c !in a
    ensures Split(a + [c] + b, c) == [a] + Split(b, c)
  {
    var s := a + [c] + b;
    assert s[|a|] == c;
    assert s[..|a|] == a && s[|a| + 1..] == b;
  }

  /** Splitting a join of separator-free pieces gives the pieces back. */
  lemma {:induction false} SplitJoin(parts: seq<string>, c: char)
    requires |parts| >= 1 && forall i :: 0 <= i < |parts| ==> c !in parts[i]
    ensures Split(Join(parts, [c]), c) == parts
  {
    if |parts| == 1 {
      assert IndexOf(parts[0], c) == -1;
    } else {
      var tail := parts[1..];
      assert forall i :: 0 <= i < |tail| ==> c !in tail[i] by {
        forall i | 0 <= i < |tail| ensures c !in tail[i] {
          assert tail[i] == parts[i + 1];
        }
      }
      SplitJoin(tail, c);
      var rest := Join(tail, [c]);
      assert Join(parts, [c]) == parts[0] + [c] + rest;
      assert c !in parts[0];
      SplitAfter(parts[0], c, rest);
      assert parts == [parts[0]] + tail;
    }
  }

  /** Splitting at a last separator that has no separator after it. */
  lemma SplitBeforeLast(a: string, c: char, b: string)
    requires c !in b
    ensures Split(a + [c] + b, c) == Split(a, c) + [b]
  {
    var parts := Split(a, c);
    var more := parts + [b];
    assert a + [c] + b == Join(more, [c]) by {
      JoinSplit(a, c);
      JoinAppendOne(parts, b, [c]);
    }
    assert forall i :: 0 <= i < |more| ==> c !in more[i] by {
      forall i | 0 <= i < |more| ensures c !in more[i] {
        if i < |parts| {
          assert more[i] == parts[i];
        }
      }
    }
    SplitJoin(more, c);
  }

  /** Appending one piece appends the separator and the piece. */
  lemma JoinAppendOne(parts: seq<string>, x: string, sep: string)
    requires |parts| >= 1
    ensures Join(parts + [x], sep) == Join(parts, sep) + sep + x
  {
    JoinSnoc(parts + [x], sep);
    assert (parts + [x])[..|parts|] == parts;
  }

  /** A last piece that starts with the separator joins like an empty piece before it. */
  lemma JoinLeadingSeparator(parts: seq<string>, x: string, c: char)
    requires |parts| >= 1
    ensures Join(parts + [[c] + x], [c]) == Join(parts + ["", x], [c])
  {
    var j := Join(parts, [c]);
    assert Join(parts + [[c] + x], [c]) == j + [c] + ([c] + x) by {
      JoinAppendOne(parts, [c] + x, [c]);
    }
    assert Join(parts + [""], [c]) == j + [c] by {
      JoinAppendOne(parts, "", [c]);
    }
    assert Join(parts + ["", x], [c]) == j + [c] + [c] + x by {
      JoinAppendOne(parts + [""], x, [c]);
      assert parts + [""] + [x] == parts + ["", x];
    }
  }

  lemma SplitHasTwo(s: string, c: char)
    requires c in s
    ensures |Split(s, c)| >= 2
  {
    var j := IndexOf(s, c);
    assert j != -1;
    var tail := Split(s[j + 1..], c);
    assert |tail| >= 1;
    assert Split(s, c) == [s[..j]] + tail;
  }

  lemma ButLastStep(s: string, k: int, c: char, parts: seq<string>, tail: seq<string>)
    requires 0 <= k < |s| && s[k] == c && c in s[k + 1..]
    requires tail == Split(s[k + 1..], c) && parts == [s[..k]] + tail
    requires Join(tail[..|tail| - 1], [c]) == s[k + 1..][..LastIndexOf(s[k + 1..], c)]
    requires LastIndexOf(s, c) == k + 1 + LastIndexOf(s[k + 1..], c)
    ensures Join(parts[..|parts| - 1], [c]) == s[..LastIndexOf(s, c)]
  {
    var rest := s[k + 1..];
    var l := LastIndexOf(rest, c);
    var front := tail[..|tail| - 1];
    assert Join(front, [c]) == rest[..l];
    assert |front| >= 1 by {
      SplitHasTwo(rest, c);
    }
    assert parts[..|parts| - 1] == [s[..k]] + front;
    JoinCons(s[..k], front, [c]);
    assert s[..k + 1 + l] == s[..k] + [c] + rest[..l];
  }

  /** Joining all pieces is joining all but the last, the separator, and the last. */
  lemma {:induction false} JoinSnoc(parts: seq<string>, sep: string)
    requires |parts| >= 2
    ensures Join(parts, sep) == Join(parts[..|parts| - 1], sep) + sep + parts[|parts| - 1]
  {
    var n := |parts| - 1;
    if |parts| > 2 {
      JoinSnoc(parts[1..], sep);
      assert parts[1..][..|parts[1..]| - 1] == parts[..n][1..];
    }
  }

  /** The last piece of a split is the text after the last separator. */
  lemma LastPieceAfterLastSeparator(s: string, c: char)
    requires c in s
    ensures Split(s, c)[|Split(s, c)| - 1] == s[LastIndexOf(s, c) + 1..]
  {
    var parts := Split(s, c);
    var n := |parts| - 1;
    SplitHasTwo(s, c);
    JoinSplit(s, c);
    JoinSplitButLast(s, c);
    JoinSnoc(parts, [c]);
    var l := LastIndexOf(s, c);
    assert s == s[..l] + [c] + parts[n];
    assert |s[..l] + [c]| == l + 1;
    assert s[l + 1..] == parts[n];
  }

  /** How `rfind` relates to the part after the first separator at `k`. */
  lemma LastIndexSplit(s: string, k: int, c: char)
    requires 0 <= k < |s| && s[k] == c
    ensures var rest := s[k + 1..];
            LastIndexOf(s, c) == if c in rest then k + 1 + LastIndexOf(rest, c) else k
    decreases |s|
  {
    var rest := s[k + 1..];
    if s[|s| - 1] != c {
      assert k < |s| - 1;
      LastIndexSplit(s[..|s| - 1], k, c);
      assert s[..|s| - 1][k + 1..] == rest[..|rest| - 1];
    }
  }

  // ----- decimal rendering, `str(n)` -----

  function DigitChar(d: nat): (c: char)
    requires d < 10
  {
    "0123456789"[d]
  }

  predicate IsDigit(c: char) {
    '0' <= c <= '9'
  }

  /** `str(n)` for a non-negative integer. */
  function NatToString(n: nat): (r: string)
    ensures |r| >= 1
    ensures forall i :: 0 <= i < |r| ==> IsDigit(r[i])
    ensures n >= 10 ==> |r| >= 2
  {
    if n < 10 then [DigitChar(n)] else NatToString(n / 10) + [DigitChar(n % 10)]
  }

  /** `str(n)` for any integer. */
  function IntToString(n: int): (r: string)
    ensures |r| >= 1
    ensures forall i :: 0 <= i < |r| ==> IsDigit(r[i]) || r[i] == '-'
  {
    if n < 0 then "-" + NatToString(-n) else NatToString(n)
  }

  lemma DigitCharInjective(a: nat, b: nat)
    requires a < 10 && b < 10 && DigitChar(a) == DigitChar(b)
    ensures a == b
  {
  }

  /** Distinct numbers are rendered differently: `str` is injective on naturals. */
  lemma {:induction false} NatToStringInjective(a: nat, b: nat)
    requires NatToString(a) == NatToString(b)
    ensures a == b
  {
    var sa, sb := NatToString(a), NatToString(b);
    if a < 10 && b < 10 {
      DigitCharInjective(a, b);
    } else if a >= 10 && b >= 10 {
      assert sa[|sa| - 1] == DigitChar(a % 10) && sb[|sb| - 1] == DigitChar(b % 10);
      DigitCharInjective(a % 10, b % 10);
      assert NatToString(a / 10) == sa[..|sa| - 1] == sb[..|sb| - 1] == NatToString(b / 10);
      NatToStringInjective(a / 10, b / 10);
    }
  }

  // ----- decimal parsing, `int(s)` -----

  predicate AllDigits(s: string) {
    forall i :: 0 <= i < |s| ==> IsDigit(s[i])
  }

  /** The value of a run of decimal digits. */
  function DigitsValue(s: string): nat
    requires AllDigits(s)
  {
    if s == [] then 0
    else
      assert IsDigit(s[|s| - 1]);
      DigitsValue(s[..|s| - 1]) * 10 + (s[|s| - 1] as int - '0' as int)
  }

  /**
   * `int(s)` on a string: surrounding whitespace, an optional sign and at least one ASCII digit.
   * `None` stands for the `ValueError` Python raises on anything else.
   */
  function ParseInt(s: string): Option<int> {
    ParseSigned(Strip(s))
  }

  /** An optional sign followed by at least one digit, nothing around them. */
  function ParseSigned(t: string): Option<int> {
    if t != [] && AllDigits(t) then Some(DigitsValue(t))
    else if |t| >= 2 && t[0] == '-' && AllDigits(t[1..]) then Some(-(DigitsValue(t[1..]) as int))
    else if |t| >= 2 && t[0] == '+' && AllDigits(t[1..]) then Some(DigitsValue(t[1..]))
    else None
  }

  lemma {:induction false} DigitsOfNat(n: nat)
    ensures AllDigits(NatToString(n)) && DigitsValue(NatToString(n)) == n
  {
    var s := NatToString(n);
    var d := n % 10;
    assert "0123456789"[d] as int - '0' as int == d;
    if n >= 10 {
      DigitsOfNat(n / 10);
      assert s[..|s| - 1] == NatToString(n / 10);
    }
  }

  /** `int(str(n)) == n`: the decimal rendering parses back to the same number. */
  lemma ParseIntToString(n: int)
    ensures ParseInt(IntToString(n)) == Some(n)
  {
    var s := IntToString(n);
    if n < 0 {
      DigitsOfNat(-n);
      assert s[1..] == NatToString(-n);
      assert !IsDigit(s[0]);
    } else {
      DigitsOfNat(n);
    }
    assert ParseSigned(s) == Some(n);
    StripFixed(s);
  }
}

/**
 * The string operations of Python that the core relies on, written out over `seq<char>`:
 * `str.strip`, `str.startswith`, `str.find(...) != -1`, `str.split(sep)`, `str.split()`,
 * `sep.join`, `str(int)` and `int(str)`.
 */
module Text {
  import opened Wrappers

  /** The ASCII characters `str.strip()` and `str.split()` treat as white space. */
  predicate IsSpace(c: char) {
    c == ' ' || c == '\t' || c == '\n' || c == '\r' || c == '\U{B}' || c == '\U{C}'
  }

  function TrimLeft(s: string): (r: string)
    ensures |r| <= |s| && r == s[|s| - |r|..]
    ensures r == [] || !IsSpace(r[0])
    ensures forall i :: 0 <= i < |s| - |r| ==> IsSpace(s[i])
  {
    if s != [] && IsSpace(s[0]) then TrimLeft(s[1..]) else s
  }

  function TrimRight(s: string): (r: string)
    ensures |r| <= |s| && r == s[..|r|]
    ensures r == [] || !IsSpace(r[|r| - 1])
    ensures forall i :: |r| <= i < |s| ==> IsSpace(s[i])
  {
    if s != [] && IsSpace(s[|s| - 1]) then TrimRight(s[..|s| - 1]) else s
  }

  /** Python's `s.strip()`: no white space left at either end, and the middle untouched. */
  function Strip(s: string): (r: string)
    ensures r == [] || (!IsSpace(r[0]) && !IsSpace(r[|r| - 1]))
    ensures |r| <= |s|
  {
    TrimRight(TrimLeft(s))
  }

  /** A string with no white space at its ends is left alone by `strip`. */
  lemma StripOfStripped(s: string)
    requires s == [] || (!IsSpace(s[0]) && !IsSpace(s[|s| - 1]))
    ensures Strip(s) == s
  {
  }

  predicate StartsWith(s: string, prefix: string) {
    |prefix| <= |s| && s[..|prefix|] == prefix
  }

  predicate EndsWith(s: string, suffix: string) {
    |suffix| <= |s| && s[|s| - |suffix|..] == suffix
  }

  /** Python's `s.find(t) != -1`. */
  predicate Contains(s: string, t: string) {
    exists i | 0 <= i <= |s| - |t| :: OccursAt(s, t, i)
  }

  predicate OccursAt(s: string, t: string, i: int) {
    0 <= i <= |s| - |t| && s[i..i + |t|] == t
  }

  lemma StartsWithContains(s: string, t: string)
    requires StartsWith(s, t)
    ensures Contains(s, t)
  {
    assert OccursAt(s, t, 0);
  }

  lemma ContainsExtend(s: string, t: string, prefix: string)
    requires Contains(s, t)
    ensures Contains(prefix + s, t)
  {
    var i :| 0 <= i <= |s| - |t| && OccursAt(s, t, i);
    assert (prefix + s)[|prefix| + i..|prefix| + i + |t|] == s[i..i + |t|];
    assert OccursAt(prefix + s, t, |prefix| + i);
  }

  function Count(s: string, c: char): nat {
    if s == [] then 0 else (if s[0] == c then 1 else 0) + Count(s[1..], c)
  }

  /**
   * Python's `s.split(c)` for a one-character separator: the pieces between separators,
   * empty pieces included, so there is always one piece more than there are separators.
   */
  function Split(s: string, c: char): (r: seq<string>)
    ensures |r| == Count(s, c) + 1
    ensures forall i :: 0 <= i < |r| ==> c !in r[i]
  {
    if s == [] then [""]
    else
      var rest := Split(s[1..], c);
      if s[0] == c then [""] + rest else [[s[0]] + rest[0]] + rest[1..]
  }

  /** Python's `sep.join(parts)`. */
  function Join(parts: seq<string>, sep: string): string {
    if parts == [] then ""
    else if |parts| == 1 then parts[0]
    else parts[0] + sep + Join(parts[1..], sep)
  }

  lemma {:induction false} SplitPrefixed(w: string, s: string, c: char)
    requires c !in w
    ensures Split(w + [c] + s, c) == [w] + Split(s, c)
    decreases |w|
  {
    if w == [] {
      assert w + [c] + s == [c] + s;
      assert ([c] + s)[1..] == s;
    } else {
      assert (w + [c] + s)[1..] == w[1..] + [c] + s;
      SplitPrefixed(w[1..], s, c);
      assert [w[0]] + w[1..] == w;
    }
  }

  lemma {:induction false} SplitNoSeparator(w: string, c: char)
    requires c !in w
    ensures Split(w, c) == [w]
    decreases |w|
  {
    if w != [] {
      SplitNoSeparator(w[1..], c);
      assert [w[0]] + w[1..] == w;
    }
  }

  /** The first piece of a split is the whole string when there is no separator, else the text before the first one. */
  lemma {:induction false} SplitFirstPiece(s: string, c: char)
    ensures |Split(s, c)| == 1 ==> Split(s, c)[0] == s
    ensures |Split(s, c)| > 1 ==> StartsWith(s, Split(s, c)[0] + [c])
    decreases |s|
  {
    if s != [] {
      SplitFirstPiece(s[1..], c);
      assert [s[0]] + s[1..] == s;
      var rest := Split(s[1..], c);
      if s[0] != c && |rest| > 1 {
        assert s[..|rest[0]| + 2] == [s[0]] + s[1..][..|rest[0]| + 1];
      }
    }
  }

  /** The last piece of a split is the whole string when there is no separator, else the text after the last one. */
  lemma {:induction false} SplitLastPiece(s: string, c: char)
    ensures var r := Split(s, c); |r| == 1 ==> r[0] == s
    ensures var r := Split(s, c); |r| > 1 ==> EndsWith(s, [c] + r[|r| - 1])
    decreases |s|
  {
    if s != [] {
      var t := s[1..];
      var rest := Split(t, c);
      var p := rest[|rest| - 1];
      SplitLastPiece(t, c);
      SplitCons(s, c);
      if |rest| > 1 {
        EndsWithTail(s, [c] + p);
      } else if s[0] == c {
        assert s == [c] + p;
      } else {
        assert s == [s[0]] + t;
      }
    }
  }

  /** One step of `Split`: the first character either closes an empty first piece or joins it. */
  lemma SplitCons(s: string, c: char)
    requires s != []
    ensures s[0] == c ==> Split(s, c) == [""] + Split(s[1..], c)
    ensures s[0] != c ==> Split(s, c) == [[s[0]] + Split(s[1..], c)[0]] + Split(s[1..], c)[1..]
  {
  }

  lemma EndsWithTail(s: string, u: string)
    requires s != [] && EndsWith(s[1..], u)
    ensures EndsWith(s, u)
  {
    assert s[|s| - |u|..] == s[1..][|s[1..]| - |u|..];
  }

  /** When the text after a separator holds no separator, it is the last piece. */
  lemma {:induction false} SplitAfterLast(w: string, t: string, c: char)
    requires c !in t
    ensures |Split(w + [c] + t, c)| >= 2
    ensures Split(w + [c] + t, c)[|Split(w + [c] + t, c)| - 1] == t
    decreases |w|
  {
    if w == [] {
      assert w + [c] + t == [c] + t;
      assert ([c] + t)[1..] == t;
      SplitNoSeparator(t, c);
    } else {
      assert (w + [c] + t)[1..] == w[1..] + [c] + t;
      SplitAfterLast(w[1..], t, c);
    }
  }

  /** Splitting what `join` produced gives the parts back, when no part holds the separator. */
  lemma {:induction false} SplitJoin(parts: seq<string>, c: char)
    requires |parts| >= 1
    requires forall i :: 0 <= i < |parts| ==> c !in parts[i]
    ensures Split(Join(parts, [c]), c) == parts
    decreases |parts|
  {
    if |parts| == 1 {
      SplitNoSeparator(parts[0], c);
    } else {
      SplitJoin(parts[1..], c);
      SplitPrefixed(parts[0], Join(parts[1..], [c]), c);
      assert [parts[0]] + parts[1..] == parts;
    }
  }

  /** Number of leading characters of `s` that are not white space. */
  function WordLength(s: string): (n: nat)
    ensures n <= |s|
    ensures forall i :: 0 <= i < n ==> !IsSpace(s[i])
    ensures n < |s| ==> IsSpace(s[n])
  {
    if s == [] || IsSpace(s[0]) then 0 else 1 + WordLength(s[1..])
  }

  predicate IsWord(w: string) {
    w != [] && forall j :: 0 <= j < |w| ==> !IsSpace(w[j])
  }

  /** Python's `s.split()` with no argument: the maximal runs of non-space characters. */
  function Words(s: string): (r: seq<string>)
    decreases |s|
  {
    var t := TrimLeft(s);
    if t == [] then []
    else
      var n := WordLength(t);
      [t[..n]] + Words(t[n..])
  }

  lemma {:induction false} WordLengthOfWord(w: string, s: string)
    requires forall j :: 0 <= j < |w| ==> !IsSpace(w[j])
    requires s == [] || IsSpace(s[0])
    ensures WordLength(w + s) == |w|
    decreases |w|
  {
    if w == [] {
      assert w + s == s;
    } else {
      var t := w + s;
      assert t[0] == w[0] && !IsSpace(t[0]);
      assert t[1..] == w[1..] + s;
      assert forall j :: 0 <= j < |w[1..]| ==> w[1..][j] == w[j + 1];
      WordLengthOfWord(w[1..], s);
      assert WordLength(t) == 1 + WordLength(t[1..]);
    }
  }

  lemma WordsOfWordThen(w: string, s: string)
    requires IsWord(w)
    requires s == [] || IsSpace(s[0])
    ensures Words(w + s) == [w] + Words(s)
  {
    var t := w + s;
    assert TrimLeft(t) == t;
    WordLengthOfWord(w, s);
    assert t[..|w|] == w;
    assert t[|w|..] == s;
  }

  lemma WordsLeadingSpace(s: string)
    ensures Words(" " + s) == Words(s)
  {
    assert (" " + s)[1..] == s;
    assert TrimLeft(" " + s) == TrimLeft(s);
  }

  lemma JoinCons(parts: seq<string>, sep: string)
    requires |parts| >= 2
    ensures Join(parts, sep) == parts[0] + (sep + Join(parts[1..], sep))
  {
  }

  /** Splitting mirror lists joined by single spaces gives the mirrors back. */
  lemma {:induction false} WordsJoin(ws: seq<string>)
    requires forall i :: 0 <= i < |ws| ==> IsWord(ws[i])
    ensures Words(Join(ws, " ")) == ws
    decreases |ws|
  {
    if ws == [] {
    } else if |ws| == 1 {
      WordsOfWord(ws[0]);
    } else {
      var tl := ws[1..];
      assert forall i :: 0 <= i < |tl| ==> tl[i] == ws[i + 1];
      WordsJoin(tl);
      WordsJoinStep(ws);
    }
  }

  lemma WordsOfWord(w: string)
    requires IsWord(w)
    ensures Words(w) == [w]
  {
    WordsOfWordThen(w, "");
    assert w + "" == w;
  }

  /** One more word in front of a joined list that already splits back. */
  lemma WordsJoinStep(ws: seq<string>)
    requires |ws| >= 2 && IsWord(ws[0])
    requires Words(Join(ws[1..], " ")) == ws[1..]
    ensures Words(Join(ws, " ")) == ws
  {
    var rest := Join(ws[1..], " ");
    JoinCons(ws, " ");
    WordsOfWordThen(ws[0], " " + rest);
    WordsLeadingSpace(rest);
    assert [ws[0]] + ws[1..] == ws;
  }

  function DigitChar(d: nat): (c: char)
    requires d < 10
  {
    "0123456789"[d]
  }

  predicate IsDigit(c: char) {
    '0' <= c <= '9'
  }

  function DigitValue(c: char): (d: nat)
    requires IsDigit(c)
    ensures d < 10
  {
    (c as int - '0' as int) as nat
  }

  /** Python's `str(n)` for a natural number: its decimal digits, no leading zeros. */
  function NatToString(n: nat): (s: string)
    ensures s != [] && forall i :: 0 <= i < |s| ==> IsDigit(s[i])
  {
    if n < 10 then [DigitChar(n)] else NatToString(n / 10) + [DigitChar(n % 10)]
  }

  /** Python's `str(i)`. */
  function IntToString(i: int): (s: string)
    ensures s != []
  {
    if i < 0 then "-" + NatToString(-i) else NatToString(i)
  }

  function DigitsValue(s: string): nat
    requires forall i :: 0 <= i < |s| ==> IsDigit(s[i])
  {
    if s == [] then 0 else 10 * DigitsValue(s[..|s| - 1]) + DigitValue(s[|s| - 1])
  }

  predicate AllDigits(s: string) {
    s != [] && forall i :: 0 <= i < |s| ==> IsDigit(s[i])
  }

  /**
   * Python's `int(s)` on an already stripped string: an optional sign followed by at least one
   * decimal digit; anything else raises `ValueError`, modelled as `None`.
   */
  function ParseInt(s: string): (r: Option<int>)
    ensures r.Some? ==> s != []
  {
    if s != [] && (s[0] == '-' || s[0] == '+') then
      if AllDigits(s[1..]) then
        Some(if s[0] == '-' then -(DigitsValue(s[1..]) as int) else DigitsValue(s[1..]) as int)
      else None
    else if AllDigits(s) then Some(DigitsValue(s) as int)
    else None
  }

  lemma {:induction false} DigitsOfNat(n: nat)
    ensures DigitsValue(NatToString(n)) == n
  {
    var s := NatToString(n);
    if n < 10 {
      assert s[..|s| - 1] == [];
    } else {
      DigitsOfNat(n / 10);
      assert s[..|s| - 1] == NatToString(n / 10);
    }
  }

  /** Reading back what `str` wrote gives the same integer (the revision and pid files rely on it). */
  lemma ParseIntToString(i: int)
    ensures ParseInt(IntToString(i)) == Some(i)
  {
    if i < 0 {
      ParseNegativeToString(i);
    } else {
      ParseNatToString(i);
    }
  }

  lemma ParseNegativeToString(i: int)
    requires i < 0
    ensures ParseInt(IntToString(i)) == Some(i)
  {
    var m: nat := -i;
    var n := NatToString(m);
    DigitsOfNat(m);
    ParseNegative(n, m);
    assert IntToString(i) == "-" + n;
  }

  lemma ParseNatToString(i: nat)
    ensures ParseInt(IntToString(i)) == Some(i)
  {
    var n := NatToString(i);
    assert AllDigits(n);
    ParseDigits(n);
    DigitsOfNat(i);
    assert IntToString(i) == n;
  }

  lemma ParseNegative(n: string, m: nat)
    requires AllDigits(n) && DigitsValue(n) == m
    ensures ParseInt("-" + n) == Some(-(m as int))
  {
    assert ("-" + n)[1..] == n;
  }

  lemma ParseDigits(n: string)
    requires AllDigits(n)
    ensures ParseInt(n) == Some(DigitsValue(n) as int)
  {
    assert IsDigit(n[0]);
  }

  /** What `f.readline().strip()` yields on a file whose contents are `s`. */
  function FirstLine(s: string): string {
    Strip(Split(s, '\n')[0])
  }

  /** `str(i)` is a single line with no surrounding white space. */
  lemma IntToStringIsLine(i: int)
    ensures '\n' !in IntToString(i)
    ensures Strip(IntToString(i)) == IntToString(i)
  {
    var s := IntToString(i);
    var n := NatToString(if i < 0 then -i else i);
    assert forall j :: 0 <= j < |n| ==> IsDigit(n[j]);
    if i < 0 {
      assert s == "-" + n;
    }
    assert !IsSpace(s[0]) && !IsSpace(s[|s| - 1]);
    StripOfStripped(s);
  }

  /** The first line of a file holding just `str(i)`, with no newline, is `str(i)`. */
  lemma FirstLineOfInt(i: int)
    ensures FirstLine(IntToString(i)) == IntToString(i)
  {
    IntToStringIsLine(i);
    SplitNoSeparator(IntToString(i), '\n');
  }
}

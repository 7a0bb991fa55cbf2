/** The parts of Python's `str` that the backend relies on, over `seq<char>`. */
module Text {
  import opened Wrappers

  function Min(a: int, b: int): int { if a <= b then a else b }

  /** Python's `min(a, b)` on floats. */
  function MinReal(a: real, b: real): real { if a <= b then a else b }

  // ---------------------------------------------------------------- whitespace

  /** Python's `str.isspace()` for one character. */
  predicate IsSpace(c: char) {
    || '\t' <= c <= '\r'
    || '\U{1C}' <= c <= ' '
    || c == '\U{85}' || c == '\U{A0}' || c == '\U{1680}'
    || '\U{2000}' <= c <= '\U{200A}'
    || c == '\U{2028}' || c == '\U{2029}' || c == '\U{202F}' || c == '\U{205F}' || c == '\U{3000}'
  }

  /** Removes leading whitespace (`str.lstrip()`). */
  function TrimStart(s: string): string
    decreases |s|
  {
    if s != [] && IsSpace(s[0]) then TrimStart(s[1..]) else s
  }

  /** Removes trailing whitespace (`str.rstrip()`). */
  function TrimEnd(s: string): string
    decreases |s|
  {
    if s != [] && IsSpace(s[|s| - 1]) then TrimEnd(s[..|s| - 1]) else s
  }

  /** `str.strip()`. */
  function Strip(s: string): string {
    TrimEnd(TrimStart(s))
  }

  lemma {:induction false} TrimStartIsSuffix(s: string)
    ensures var r := TrimStart(s);
      && |r| <= |s| && r == s[|s| - |r|..]
      && (forall i :: 0 <= i < |s| - |r| ==> IsSpace(s[i]))
      && (r == [] || !IsSpace(r[0]))
    decreases |s|
  {
    if s != [] && IsSpace(s[0]) {
      TrimStartIsSuffix(s[1..]);
    }
  }

  lemma {:induction false} TrimEndIsPrefix(s: string)
    ensures var r := TrimEnd(s);
      && |r| <= |s| && r == s[..|r|]
      && (forall i :: |r| <= i < |s| ==> IsSpace(s[i]))
      && (r == [] || !IsSpace(r[|r| - 1]))
    decreases |s|
  {
    if s != [] && IsSpace(s[|s| - 1]) {
      TrimEndIsPrefix(s[..|s| - 1]);
    }
  }

  /** `r` is the slice of `s` at `k` with only whitespace around it, and has none at either end. */
  predicate TrimmedSliceAt(s: string, r: string, k: int) {
    && 0 <= k <= k + |r| <= |s|
    && r == s[k..k + |r|]
    && (forall i :: 0 <= i < k ==> IsSpace(s[i]))
    && (forall i :: k + |r| <= i < |s| ==> IsSpace(s[i]))
    && (r == [] || (!IsSpace(r[0]) && !IsSpace(r[|r| - 1])))
  }

  /** `Strip(s)` is `s` with all surrounding whitespace, and only that, removed. */
  lemma StripIsTrimmedSlice(s: string)
    ensures exists k :: TrimmedSliceAt(s, Strip(s), k)
  {
    var t := TrimStart(s);
    var r := Strip(s);
    TrimStartIsSuffix(s);
    TrimEndIsPrefix(t);
    var k := |s| - |t|;
    assert r == s[k..k + |r|];
    assert forall i :: k + |r| <= i < |s| ==> s[i] == t[i - k];
    assert r == [] || !IsSpace(r[0]) by {
      if r != [] { assert r[0] == t[0]; }
    }
    assert TrimmedSliceAt(s, r, k);
  }

  // ---------------------------------------------------------------- case

  function LowerChar(c: char): char {
    if 'A' <= c <= 'Z' then (c as int - 'A' as int + 'a' as int) as char else c
  }

  /** `str.lower()` on ASCII letters; every other character is kept. */
  function Lower(s: string): string {
    seq(|s|, i requires 0 <= i < |s| => LowerChar(s[i]))
  }

  /** Lower-casing works character by character, so it distributes over concatenation. */
  lemma LowerAppend(a: string, b: string)
    ensures Lower(a + b) == Lower(a) + Lower(b)
  {
    assert forall i :: 0 <= i < |a + b| ==> (a + b)[i] == if i < |a| then a[i] else b[i - |a|];
  }

  // ---------------------------------------------------------------- split and join

  /** A non-empty run of non-whitespace characters: what `str.split()` yields. */
  predicate IsWord(w: string) {
    w != [] && forall i :: 0 <= i < |w| ==> !IsSpace(w[i])
  }

  /** Length of the leading run of non-whitespace characters of `s`. */
  function WordLength(s: string): (n: nat)
    ensures n <= |s|
    ensures forall i :: 0 <= i < n ==> !IsSpace(s[i])
    ensures n < |s| ==> IsSpace(s[n])
    decreases |s|
  {
    if s == [] || IsSpace(s[0]) then 0 else 1 + WordLength(s[1..])
  }

  /** `str.split()` without a separator: the maximal runs of non-whitespace, in order. */
  function Words(s: string): (ws: seq<string>)
    ensures forall k :: 0 <= k < |ws| ==> IsWord(ws[k])
    decreases |s|
  {
    if s == [] then []
    else if IsSpace(s[0]) then Words(s[1..])
    else var n := WordLength(s); [s[..n]] + Words(s[n..])
  }

  /** `sep.join(parts)`. */
  function Join(sep: string, parts: seq<string>): string
    decreases |parts|
  {
    if parts == [] then []
    else if |parts| == 1 then parts[0]
    else parts[0] + sep + Join(sep, parts[1..])
  }

  lemma WordLengthOfWord(w: string, rest: string)
    requires IsWord(w)
    requires rest == [] || IsSpace(rest[0])
    ensures WordLength(w + rest) == |w|
  {
    var s := w + rest;
    assert forall i :: 0 <= i < |w| ==> s[i] == w[i];
    assert rest != [] ==> s[|w|] == rest[0];
  }

  /** Splitting words joined by single spaces gives the words back. */
  lemma {:induction false} WordsOfJoin(ws: seq<string>)
    requires forall k :: 0 <= k < |ws| ==> IsWord(ws[k])
    ensures Words(Join(" ", ws)) == ws
    decreases |ws|
  {
    if ws == [] {
    } else if |ws| == 1 {
      var w := ws[0];
      WordLengthOfWord(w, []);
      assert w + [] == w;
      assert w[..|w|] == w && w[|w|..] == [];
    } else {
      var w, rest := ws[0], Join(" ", ws[1..]);
      var s := w + " " + rest;
      assert s == w + (" " + rest);
      WordLengthOfWord(w, " " + rest);
      assert s[..|w|] == w;
      assert s[|w|..] == " " + rest;
      assert (" " + rest)[1..] == rest;
      WordsOfJoin(ws[1..]);
    }
  }

  /** Every part appears, whole, inside the joined string. */
  lemma JoinContainsPart(sep: string, parts: seq<string>, k: nat)
    requires k < |parts|
    ensures Contains(Join(sep, parts), parts[k])
  {
    var at := JoinHasPartAt(sep, parts, k);
    OccursThenContains(Join(sep, parts), parts[k], at);
  }

  /** The place in the joined string where the `k`-th part starts. */
  lemma {:induction false} JoinHasPartAt(sep: string, parts: seq<string>, k: nat) returns (at: nat)
    requires k < |parts|
    ensures OccursAt(Join(sep, parts), parts[k], at)
    decreases |parts|
  {
    var j := Join(sep, parts);
    var part := parts[k];
    if |parts| == 1 {
      at := 0;
      assert j == part;
    } else if k == 0 {
      at := 0;
      assert j == parts[0] + sep + Join(sep, parts[1..]);
      assert j[..|part|] == part;
    } else {
      var i := JoinHasPartAt(sep, parts[1..], k - 1);
      var tail := Join(sep, parts[1..]);
      at := |parts[0]| + |sep| + i;
      assert j == parts[0] + sep + tail;
      var found := j[at..at + |part|];
      forall t | 0 <= t < |part|
        ensures found[t] == part[t]
      {
        assert j[at + t] == tail[i + t] == tail[i..i + |part|][t];
      }
      assert found == part;
    }
  }

  // ---------------------------------------------------------------- search

  /** `n` occurs in `h` starting at index `i`. */
  predicate OccursAt(h: string, n: string, i: int) {
    0 <= i && i + |n| <= |h| && h[i..i + |n|] == n
  }

  lemma OccursShift(h: string, n: string, j: int)
    requires h != [] && j >= 1
    ensures OccursAt(h, n, j) <==> OccursAt(h[1..], n, j - 1)
  {
    if j + |n| <= |h| {
      var shifted, here := h[1..][j - 1..j - 1 + |n|], h[j..j + |n|];
      forall t | 0 <= t < |n|
        ensures shifted[t] == here[t]
      {
        assert h[1..][j - 1 + t] == h[j + t];
      }
      assert shifted == here;
    }
  }

  /** `str.find`: the lowest index at which `n` occurs in `h`, or -1 when it does not occur. */
  function Find(h: string, n: string): (r: int)
    ensures r == -1 || 0 <= r <= |h| - |n|
    ensures r >= 0 ==> OccursAt(h, n, r)
    decreases |h|
  {
    if |n| > |h| then -1
    else if h[..|n|] == n then 0
    else
      var k := Find(h[1..], n);
      if k < 0 then -1 else k + 1
  }

  /** `Find` answers -1 exactly when `n` does not occur, and otherwise no earlier occurrence exists. */
  lemma {:induction false} FindIsLeftmost(h: string, n: string)
    ensures Find(h, n) == -1 <==> forall j :: 0 <= j <= |h| ==> !OccursAt(h, n, j)
    ensures forall j :: 0 <= j < Find(h, n) ==> !OccursAt(h, n, j)
    decreases |h|
  {
    if |n| > |h| {
    } else if h[..|n|] == n {
      assert OccursAt(h, n, 0);
    } else {
      FindIsLeftmost(h[1..], n);
      forall j | 1 <= j <= |h| { OccursShift(h, n, j); }
      assert !OccursAt(h, n, 0);
    }
  }

  /** Python's `n in h` for strings. */
  predicate Contains(h: string, n: string) {
    Find(h, n) >= 0
  }

  /** An occurrence anywhere makes `n in h` true. */
  lemma OccursThenContains(h: string, n: string, i: int)
    requires OccursAt(h, n, i)
    ensures Contains(h, n)
  {
    FindIsLeftmost(h, n);
  }

  /** A string inside a string inside `a` is inside `a`. */
  lemma ContainsTransitive(a: string, b: string, c: string)
    requires Contains(a, b) && Contains(b, c)
    ensures Contains(a, c)
  {
    var i, j := Find(a, b), Find(b, c);
    var inA, inB := a[i + j..i + j + |c|], b[j..j + |c|];
    forall t | 0 <= t < |c|
      ensures inA[t] == inB[t]
    {
      assert a[i..i + |b|][j + t] == b[j + t];
    }
    assert inA == inB;
    OccursThenContains(a, c, i + j);
  }

  /** `s.endswith(suffix)`. */
  predicate EndsWith(s: string, suffix: string) {
    |suffix| <= |s| && s[|s| - |suffix|..] == suffix
  }

  /** The last index holding `c`, or -1 (`str.rfind` for one character). */
  function LastIndexOf(s: string, c: char): (r: int)
    ensures -1 <= r < |s|
    ensures r >= 0 ==> s[r] == c
    ensures forall i :: r < i < |s| ==> s[i] != c
    decreases |s|
  {
    if s == [] then -1
    else if s[|s| - 1] == c then |s| - 1
    else LastIndexOf(s[..|s| - 1], c)
  }

  /** `s.replace(target, replacement)`: every non-overlapping occurrence, leftmost first. */
  function Replace(s: string, target: string, replacement: string): string
    requires target != []
    decreases |s|
  {
    var i := Find(s, target);
    if i < 0 then s else s[..i] + replacement + Replace(s[i + |target|..], target, replacement)
  }

  /** One step of a replacement: nothing changes without an occurrence; otherwise the first
      occurrence is replaced and the rest is replaced in turn. */
  lemma ReplaceStep(s: string, target: string, replacement: string)
    requires target != []
    ensures var i := Find(s, target);
      && (i < 0 ==> Replace(s, target, replacement) == s)
      && (i >= 0 ==> Replace(s, target, replacement) ==
                     s[..i] + replacement + Replace(s[i + |target|..], target, replacement))
  {
  }

  // ---------------------------------------------------------------- decimal numbers

  predicate IsDigit(c: char) { '0' <= c <= '9' }

  predicate AllDigits(s: string) { forall i :: 0 <= i < |s| ==> IsDigit(s[i]) }

  function DigitChar(d: nat): (c: char)
    requires d < 10
    ensures IsDigit(c)
  {
    ('0' as int + d) as char
  }

  /** `str(n)` for a non-negative integer. */
  function NatToString(n: nat): (s: string)
    ensures s != [] && AllDigits(s)
    decreases n
  {
    if n < 10 then [DigitChar(n)] else NatToString(n / 10) + [DigitChar(n % 10)]
  }

  /** The number a string of decimal digits denotes. */
  function DigitsValue(s: string): nat
    requires AllDigits(s)
    decreases |s|
  {
    if s == [] then 0 else DigitsValue(s[..|s| - 1]) * 10 + (s[|s| - 1] as int - '0' as int)
  }

  /** `int(s)` restricted to unsigned decimal literals; None where Python would raise. */
  function ParseNat(s: string): Option<nat> {
    if s != [] && AllDigits(s) then Some(DigitsValue(s)) else None
  }

  lemma {:induction false} DigitsValueOfNatToString(n: nat)
    ensures DigitsValue(NatToString(n)) == n
    decreases n
  {
    var s := NatToString(n);
    if n >= 10 {
      DigitsValueOfNatToString(n / 10);
      assert s[..|s| - 1] == NatToString(n / 10);
    }
  }

  /** Reading back a decimal rendering gives the number. */
  lemma ParseNatToString(n: nat)
    ensures ParseNat(NatToString(n)) == Some(n)
  {
    DigitsValueOfNatToString(n);
  }

  /** A leading zero does not change the value of a digit string. */
  lemma {:induction false} DigitsValueLeadingZero(s: string)
    requires AllDigits(s)
    ensures AllDigits("0" + s) && DigitsValue("0" + s) == DigitsValue(s)
    decreases |s|
  {
    if s != [] {
      var z := "0" + s;
      assert z[..|z| - 1] == "0" + s[..|s| - 1];
      DigitsValueLeadingZero(s[..|s| - 1]);
    }
  }

  /** Distinct numbers have distinct decimal renderings. */
  lemma NatToStringInjective(a: nat, b: nat)
    requires NatToString(a) == NatToString(b)
    ensures a == b
  {
    DigitsValueOfNatToString(a);
    DigitsValueOfNatToString(b);
  }
}

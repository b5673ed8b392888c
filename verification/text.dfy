/**
 * The handful of JavaScript string builtins the generators rely on,
 * restricted to ASCII: `toLowerCase`, `includes`, `trim`,
 * `replace(/\s+/g, '_')`, `replace(/[^a-zA-Z0-9_]/g, '')` and the decimal
 * rendering of a number inside a template literal.
 */
module Text {

  datatype Option<+T> = None | Some(value: T)

  /** A character matched by the regex class `\s` and removed by `trim` (ASCII part). */
  predicate IsSpace(c: char) {
    c == ' ' || c == '\t' || c == '\n' || c == '\U{0B}' || c == '\U{0C}' || c == '\r'
  }

  predicate IsUpper(c: char) { 'A' <= c <= 'Z' }

  predicate IsLowerOrDigit(c: char) { 'a' <= c <= 'z' || '0' <= c <= '9' }

  /** A character of the regex class `[a-zA-Z0-9_]`. */
  predicate IsWordChar(c: char) { IsUpper(c) || IsLowerOrDigit(c) || c == '_' }

  predicate NoSpace(s: string) { forall i :: 0 <= i < |s| ==> !IsSpace(s[i]) }

  function Lower(c: char): (r: char)
    ensures !IsUpper(r)
    ensures IsUpper(c) ==> r as int == c as int + 32
    ensures !IsUpper(c) ==> r == c
  {
    if IsUpper(c) then (c as int + 32) as char else c
  }

  /** `s.toLowerCase()`. */
  function LowerStr(s: string): (r: string)
    ensures |r| == |s|
    ensures forall i :: 0 <= i < |s| ==> r[i] == Lower(s[i])
  {
    if s == [] then [] else [Lower(s[0])] + LowerStr(s[1..])
  }

  /** Lower-casing works character by character, so it distributes over concatenation. */
  lemma LowerStrAppend(x: string, y: string)
    ensures LowerStr(x + y) == LowerStr(x) + LowerStr(y)
  {
    var l := LowerStr(x) + LowerStr(y);
    assert forall i :: 0 <= i < |x + y| ==> l[i] == Lower((x + y)[i]);
  }

  /** `s.includes(p)`: `p` occurs in `s` at some position. */
  predicate Contains(s: string, p: string)
    decreases |s|
  {
    |p| <= |s| && (s[..|p|] == p || Contains(s[1..], p))
  }

  /** `p` is the window of `s` that starts at position `i`. */
  predicate OccursAt(s: string, p: string, i: int) {
    0 <= i <= |s| - |p| && s[i..i + |p|] == p
  }

  /** The recursive search finds `p` exactly when some window of `s` equals it. */
  lemma {:induction false} ContainsIff(s: string, p: string)
    ensures Contains(s, p) <==> exists i :: OccursAt(s, p, i)
    decreases |s|
  {
    if |p| <= |s| && s[..|p|] == p {
      assert OccursAt(s, p, 0);
    } else if |p| <= |s| {
      ContainsIff(s[1..], p);
      if Contains(s[1..], p) {
        var i :| OccursAt(s[1..], p, i);
        assert s[i + 1..i + 1 + |p|] == s[1..][i..i + |p|];
        assert OccursAt(s, p, i + 1);
      }
      if exists i :: OccursAt(s, p, i) {
        var i :| OccursAt(s, p, i);
        assert i != 0;
        assert s[1..][i - 1..i - 1 + |p|] == s[i..i + |p|];
        assert OccursAt(s[1..], p, i - 1);
      }
    }
  }

  /** Whatever is spliced between two texts is found in the result. */
  lemma ContainsInfix(a: string, p: string, b: string)
    ensures Contains(a + p + b, p)
  {
    ContainsIff(a + p + b, p);
    assert (a + p + b)[|a|..|a| + |p|] == p;
    assert OccursAt(a + p + b, p, |a|);
  }

  /** A text containing `p` contains every character of `p`. */
  lemma ContainsChars(s: string, p: string)
    requires Contains(s, p)
    ensures forall k :: 0 <= k < |p| ==> p[k] in s
  {
    ContainsIff(s, p);
    var i :| OccursAt(s, p, i);
    forall k | 0 <= k < |p| ensures p[k] in s {
      assert p[k] == s[i..i + |p|][k] == s[i + k];
    }
  }

  /** A text lacking some character of `p` does not contain `p`. */
  lemma NotContainsMissingChar(s: string, p: string, k: nat)
    requires k < |p| && p[k] !in s
    ensures !Contains(s, p)
  {
    if Contains(s, p) {
      ContainsChars(s, p);
    }
  }

  /** Drops leading whitespace (`trimStart`); it also finds the end of a whitespace run. */
  function TrimStart(s: string): (r: string)
    ensures |r| <= |s| && r == s[|s| - |r|..]
    ensures r == [] || !IsSpace(r[0])
    ensures forall i :: 0 <= i < |s| - |r| ==> IsSpace(s[i])
  {
    if s != [] && IsSpace(s[0]) then
      var r := TrimStart(s[1..]);
      assert s[1..][|s| - 1 - |r|..] == s[|s| - |r|..];
      assert forall i :: 1 <= i < |s| - |r| ==> s[i] == s[1..][i - 1];
      r
    else s
  }

  /** Drops trailing whitespace (`trimEnd`). */
  function TrimEnd(s: string): (r: string)
    ensures |r| <= |s| && r == s[..|r|]
    ensures r == [] || !IsSpace(r[|r| - 1])
    ensures forall i :: |r| <= i < |s| ==> IsSpace(s[i])
  {
    if s != [] && IsSpace(s[|s| - 1]) then
      var r := TrimEnd(s[..|s| - 1]);
      assert s[..|s| - 1][..|r|] == s[..|r|];
      r
    else s
  }

  /** `s.trim()`. */
  function Trim(s: string): string {
    TrimEnd(TrimStart(s))
  }

  /** `!s.trim()` holds exactly for the texts made only of whitespace (the empty one included). */
  lemma BlankIff(s: string)
    ensures Trim(s) == [] <==> forall i :: 0 <= i < |s| ==> IsSpace(s[i])
  {
    var t := TrimStart(s);
    if Trim(s) == [] {
      assert t == [];
    }
  }

  /** Trimming leaves alone a text that starts and ends with non-whitespace. */
  lemma TrimUnchanged(s: string)
    requires s != [] && !IsSpace(s[0]) && !IsSpace(s[|s| - 1])
    ensures Trim(s) == s
  {
  }

  /**
   * `s.replace(/\s+/g, '_')`: every maximal run of whitespace becomes one
   * underscore; no other character changes.
   */
  function Underscore(s: string): (r: string)
    ensures NoSpace(r)
    ensures |r| <= |s|
    decreases |s|
  {
    if s == [] then []
    else if IsSpace(s[0]) then "_" + Underscore(TrimStart(s[1..]))
    else [s[0]] + Underscore(s[1..])
  }

  /**
   * The same replacement read as a one-pass scan that remembers only whether
   * the previous character was whitespace: a whitespace character opens a run
   * (emits `_`) unless the one before it was whitespace too.
   */
  function Scan(s: string, afterSpace: bool): string {
    if s == [] then []
    else if IsSpace(s[0]) then (if afterSpace then [] else "_") + Scan(s[1..], true)
    else [s[0]] + Scan(s[1..], false)
  }

  lemma {:induction false} ScanSkipsRun(s: string)
    ensures Scan(s, true) == Scan(TrimStart(s), false)
  {
    if s != [] && IsSpace(s[0]) {
      ScanSkipsRun(s[1..]);
    }
  }

  /** Replacing each whitespace run agrees with the one-pass scan. */
  lemma {:induction false} UnderscoreIsScan(s: string)
    ensures Underscore(s) == Scan(s, false)
    decreases |s|
  {
    if s != [] {
      if IsSpace(s[0]) {
        UnderscoreIsScan(TrimStart(s[1..]));
        ScanSkipsRun(s[1..]);
      } else {
        UnderscoreIsScan(s[1..]);
      }
    }
  }

  /** Without whitespace there is nothing to replace. */
  lemma {:induction false} UnderscoreNoSpace(s: string)
    requires NoSpace(s)
    ensures Underscore(s) == s
  {
    if s != [] {
      UnderscoreNoSpace(s[1..]);
    }
  }

  /** The whitespace replacement adds only `_`: every other character comes from the input. */
  lemma {:induction false} UnderscoreAddsOnly(s: string)
    ensures forall i :: 0 <= i < |Underscore(s)| ==> Underscore(s)[i] == '_' || Underscore(s)[i] in s
    decreases |s|
  {
    if s != [] {
      if IsSpace(s[0]) {
        var t := TrimStart(s[1..]);
        UnderscoreAddsOnly(t);
        assert forall c :: c in t ==> c in s;
      } else {
        UnderscoreAddsOnly(s[1..]);
        assert forall c :: c in s[1..] ==> c in s;
      }
    }
  }

  /** Leading (trailing) whitespace becomes a leading (trailing) underscore. */
  lemma {:induction false} UnderscoreEnds(s: string)
    requires s != []
    ensures Underscore(s) != []
    ensures IsSpace(s[0]) <==> Underscore(s)[0] == '_' && s[0] != '_'
    ensures IsSpace(s[|s| - 1]) ==> Underscore(s)[|Underscore(s)| - 1] == '_'
    decreases |s|
  {
    var r := Underscore(s);
    if IsSpace(s[0]) {
      var t := TrimStart(s[1..]);
      if t != [] {
        UnderscoreEnds(t);
        assert s[|s| - 1] == t[|t| - 1];
      }
    } else if |s| > 1 {
      UnderscoreEnds(s[1..]);
    }
  }

  lemma {:induction false} ScanSplit(x: string, c: char, y: string, afterSpace: bool)
    requires !IsSpace(c)
    ensures Scan(x + [c] + y, afterSpace) == Scan(x, afterSpace) + [c] + Scan(y, false)
  {
    if x == [] {
      assert (x + [c] + y)[1..] == y;
    } else {
      assert (x + [c] + y)[1..] == x[1..] + [c] + y;
      ScanSplit(x[1..], c, y, IsSpace(x[0]));
    }
  }

  /** A character outside `\s` ends any whitespace run: the texts on either side are replaced independently. */
  lemma {:induction false} UnderscoreSplit(x: string, c: char, y: string)
    requires !IsSpace(c)
    ensures Underscore(x + [c] + y) == Underscore(x) + [c] + Underscore(y)
  {
    UnderscoreIsScan(x + [c] + y);
    UnderscoreIsScan(x);
    UnderscoreIsScan(y);
    ScanSplit(x, c, y, false);
  }

  /** A non-empty stretch of whitespace, as `\s+` matches it. */
  predicate WhitespaceRun(w: string) {
    w != [] && IsSpace(w[0]) && (w[1..] == [] || WhitespaceRun(w[1..]))
  }

  /** A run is exactly a non-empty text made only of whitespace. */
  lemma {:induction false} WhitespaceRunIff(w: string)
    ensures WhitespaceRun(w) <==> w != [] && forall i :: 0 <= i < |w| ==> IsSpace(w[i])
  {
    if w != [] && w[1..] != [] {
      WhitespaceRunIff(w[1..]);
      assert forall i :: 1 <= i < |w| ==> w[i] == w[1..][i - 1];
    }
  }

  /** Trimming the start of a run stops at the first character after it. */
  lemma {:induction false} TrimStartRun(w: string, y: string)
    requires WhitespaceRun(w)
    requires y == [] || !IsSpace(y[0])
    ensures TrimStart(w + y) == y
  {
    assert (w + y)[0] == w[0];
    assert (w + y)[1..] == w[1..] + y;
    if w[1..] == [] {
      assert w[1..] + y == y;
    } else {
      TrimStartRun(w[1..], y);
    }
  }

  /** A text that opens with a run opens its replacement with one `_`. */
  lemma {:induction false} UnderscoreRunHead(w: string, y: string)
    requires WhitespaceRun(w)
    requires y == [] || !IsSpace(y[0])
    ensures Underscore(w + y) == "_" + Underscore(y)
  {
    var s := w + y;
    assert s[0] == w[0] && s[1..] == w[1..] + y;
    assert TrimStart(s[1..]) == y by {
      if w[1..] == [] {
        assert w[1..] + y == y;
      } else {
        TrimStartRun(w[1..], y);
      }
    }
    assert Underscore(s) == "_" + Underscore(TrimStart(s[1..]));
  }

  lemma {:induction false} ScanAppend(x: string, z: string, afterSpace: bool)
    requires x == [] ==> !afterSpace
    requires x == [] || !IsSpace(x[|x| - 1])
    ensures Scan(x + z, afterSpace) == Scan(x, afterSpace) + Scan(z, false)
  {
    if x == [] {
      assert x + z == z;
    } else {
      assert (x + z)[1..] == x[1..] + z;
      ScanAppend(x[1..], z, IsSpace(x[0]));
    }
  }

  /** After a text that does not end in whitespace no run is open: the text that follows is replaced on its own. */
  lemma {:induction false} UnderscoreAppend(x: string, z: string)
    requires x == [] || !IsSpace(x[|x| - 1])
    ensures Underscore(x + z) == Underscore(x) + Underscore(z)
  {
    UnderscoreIsScan(x + z);
    UnderscoreIsScan(x);
    UnderscoreIsScan(z);
    ScanAppend(x, z, false);
  }

  /** A text not ending in whitespace, followed by one whose replacement opens with `_`. */
  lemma {:induction false} UnderscoreJoin(x: string, z: string, b: string)
    requires x == [] || !IsSpace(x[|x| - 1])
    requires Underscore(z) == "_" + b
    ensures Underscore(x + z) == Underscore(x) + "_" + b
  {
    UnderscoreAppend(x, z);
    Regroup(Underscore(x), "_", b);
  }

  /** Concatenation regroups freely. */
  lemma Regroup(a: string, m: string, b: string)
    ensures a + (m + b) == a + m + b
  {
  }

  /**
   * A whitespace run (blanks, tabs, newlines, any number of them) between two
   * texts that do not touch it with whitespace of their own becomes one `_`.
   */
  lemma {:induction false} UnderscoreRun(x: string, w: string, y: string)
    requires x == [] || !IsSpace(x[|x| - 1])
    requires WhitespaceRun(w)
    requires y == [] || !IsSpace(y[0])
    ensures Underscore(x + w + y) == Underscore(x) + "_" + Underscore(y)
  {
    var z := w + y;
    assert x + w + y == x + z;
    UnderscoreRunHead(w, y);
    UnderscoreJoin(x, z, Underscore(y));
  }

  /** Lower-casing leaves whitespace alone. */
  lemma {:induction false} LowerRun(w: string)
    requires WhitespaceRun(w)
    ensures LowerStr(w) == w
  {
    if w[1..] != [] {
      LowerRun(w[1..]);
    }
  }

  /** `s.replace(/[^a-zA-Z0-9_]/g, '')`: keeps the word characters, in order. */
  function KeepWordChars(s: string): (r: string)
    ensures forall i :: 0 <= i < |r| ==> IsWordChar(r[i])
  {
    if s == [] then []
    else if IsWordChar(s[0]) then [s[0]] + KeepWordChars(s[1..])
    else KeepWordChars(s[1..])
  }

  /** Each word character keeps its number of occurrences; every other character is gone. */
  lemma {:induction false} KeepWordCharsCounts(s: string)
    ensures forall c :: multiset(KeepWordChars(s))[c] == if IsWordChar(c) then multiset(s)[c] else 0
  {
    if s != [] {
      KeepWordCharsCounts(s[1..]);
      assert s == [s[0]] + s[1..];
    }
  }

  lemma {:induction false} KeepWordCharsUnchanged(s: string)
    requires forall i :: 0 <= i < |s| ==> IsWordChar(s[i])
    ensures KeepWordChars(s) == s
  {
    if s != [] {
      KeepWordCharsUnchanged(s[1..]);
    }
  }

  lemma {:induction false} KeepWordCharsAppend(a: string, b: string)
    ensures KeepWordChars(a + b) == KeepWordChars(a) + KeepWordChars(b)
  {
    if a == [] {
      assert a + b == b;
    } else {
      assert (a + b)[0] == a[0];
      assert (a + b)[1..] == a[1..] + b;
      KeepWordCharsAppend(a[1..], b);
    }
  }

  /** The text before the first blank: how a declared name is read back. */
  function UntilBlank(s: string): (r: string)
    ensures r <= s && ' ' !in r
  {
    if s == [] || s[0] == ' ' then [] else [s[0]] + UntilBlank(s[1..])
  }

  lemma {:induction false} UntilBlankSplice(name: string, rest: string)
    requires ' ' !in name
    ensures UntilBlank(name + " " + rest) == name
  {
    if name != [] {
      assert (name + " " + rest)[1..] == name[1..] + " " + rest;
      UntilBlankSplice(name[1..], rest);
    }
  }

  function DigitChar(d: nat): char
    requires d < 10
  {
    "0123456789"[d]
  }

  /**
   * The decimal digits of a natural number, as a template literal prints the
   * small naturals the time axis uses (JavaScript switches to exponent form
   * only from 10^21 on).
   */
  function Decimal(n: nat): (r: string)
    ensures r != [] && forall i :: 0 <= i < |r| ==> '0' <= r[i] <= '9'
    ensures r[0] == '0' <==> n == 0
  {
    if n < 10 then [DigitChar(n)] else Decimal(n / 10) + [DigitChar(n % 10)]
  }

  /** Reads decimal digits back into a number. */
  function DecimalValue(s: string): nat
    requires forall i :: 0 <= i < |s| ==> '0' <= s[i] <= '9'
  {
    if s == [] then 0 else DecimalValue(s[..|s| - 1]) * 10 + (s[|s| - 1] as int - '0' as int)
  }

  lemma {:induction false} DecimalRoundTrip(n: nat)
    ensures DecimalValue(Decimal(n)) == n
  {
    if n >= 10 {
      DecimalRoundTrip(n / 10);
      var r := Decimal(n);
      assert r[..|r| - 1] == Decimal(n / 10);
    }
  }

  /** Different numbers print differently. */
  lemma DecimalInjective(m: nat, n: nat)
    requires Decimal(m) == Decimal(n)
    ensures m == n
  {
    DecimalRoundTrip(m);
    DecimalRoundTrip(n);
  }
}

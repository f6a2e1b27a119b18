/**
 * The JavaScript string primitives the frontend relies on: `trim`, the
 * regular-expression classes `\s` and `\d`, `includes`, `split`/`join`,
 * `Array.prototype.filter`/`map`, decimal `${n}` and `parseInt`.
 *
 * Strings are sequences of Unicode scalar values; JavaScript's UTF-16 code
 * units are not modelled (every character used as a marker or a separator
 * below is one scalar value, and every whitespace character lies in the
 * Basic Multilingual Plane, so both readings agree).
 */
module Strings {

  datatype Option<+T> = None | Some(value: T)

  /** The characters JavaScript's `String.prototype.trim` removes and the
      regular-expression class `\s` matches: WhiteSpace and LineTerminator. */
  predicate IsSpace(c: char)
  {
    || c == '\t' || c == '\n' || c == '\U{B}' || c == '\U{C}' || c == '\r'
    || c == ' ' || c == '\U{A0}' || c == '\U{1680}'
    || ('\U{2000}' <= c <= '\U{200A}')
    || c == '\U{2028}' || c == '\U{2029}' || c == '\U{202F}' || c == '\U{205F}'
    || c == '\U{3000}' || c == '\U{FEFF}'
  }

  /** The regular-expression class `\d`: ASCII digits only. */
  predicate IsDigit(c: char)
  {
    '0' <= c <= '9'
  }

  predicate AllDigits(s: string)
  {
    forall i :: 0 <= i < |s| ==> IsDigit(s[i])
  }

  predicate AllSpace(s: string)
  {
    forall i :: 0 <= i < |s| ==> IsSpace(s[i])
  }

  /** `/^\d/.test(s)` */
  predicate StartsWithDigit(s: string)
  {
    |s| > 0 && IsDigit(s[0])
  }

  predicate StartsWith(s: string, prefix: string)
  {
    |prefix| <= |s| && s[..|prefix|] == prefix
  }

  predicate EndsWith(s: string, suffix: string)
  {
    |suffix| <= |s| && s[|s| - |suffix|..] == suffix
  }

  /** Leading whitespace removed. */
  function TrimStart(s: string): (r: string)
    ensures |r| <= |s| && r == s[|s| - |r|..]
    ensures r == [] || !IsSpace(r[0])
    ensures AllSpace(s[..|s| - |r|])
    decreases |s|
  {
    if |s| > 0 && IsSpace(s[0]) then TrimStart(s[1..]) else s
  }

  /** Trailing whitespace removed. */
  function TrimEnd(s: string): (r: string)
    ensures |r| <= |s| && r == s[..|r|]
    ensures r == [] || !IsSpace(r[|r| - 1])
    ensures AllSpace(s[|r|..])
    decreases |s|
  {
    if |s| > 0 && IsSpace(s[|s| - 1]) then TrimEnd(s[..|s| - 1]) else s
  }

  /** `String.prototype.trim`: the longest infix that neither begins nor ends
      with whitespace, obtained by dropping whitespace at both ends. */
  function Trim(s: string): (r: string)
    ensures r == [] || (!IsSpace(r[0]) && !IsSpace(r[|r| - 1]))
  {
    TrimEnd(TrimStart(s))
  }

  /** What `Trim` keeps is an infix of `s` between a blank start and a blank
      end; with the ends of the result not blank, this pins the result down. */
  lemma TrimInfix(s: string)
    ensures exists i, j :: 0 <= i <= j <= |s| && Trim(s) == s[i..j] && AllSpace(s[..i]) && AllSpace(s[j..])
  {
    var t := TrimStart(s);
    var r := TrimEnd(t);
    var i := |s| - |t|;
    assert t == s[i..];
    assert t[|r|..] == s[i + |r|..];
    assert Trim(s) == s[i..i + |r|];
  }

  /** Trimming only drops characters: a character absent from `s` is absent
      from its trimmed form. */
  lemma TrimKeepsAbsent(s: string, c: char)
    requires c !in s
    ensures c !in Trim(s)
  {
    var t := TrimStart(s);
    var r := TrimEnd(t);
    assert forall i :: 0 <= i < |r| ==> r[i] == s[|s| - |t| + i];
  }

  /** A string is blank (`!s.trim()` holds) exactly when it is all whitespace. */
  lemma TrimEmptyIffAllSpace(s: string)
    ensures Trim(s) == "" <==> AllSpace(s)
  {
    var t := TrimStart(s);
    if Trim(s) == "" {
      assert TrimEnd(t) == "";
      assert AllSpace(t);
      assert s == s[..|s| - |t|] + t;
    } else {
      var r := Trim(s);
      assert r[0] == t[0] == s[|s| - |t|];
    }
  }

  /** Trimming a trimmed string changes nothing. */
  lemma TrimIdempotent(s: string)
    ensures Trim(Trim(s)) == Trim(s)
  {
    var r := Trim(s);
    if r != [] {
      assert TrimStart(r) == r;
      assert TrimEnd(r) == r;
    }
  }

  /** The pattern `p` occurs in `s` starting at index `j`. */
  predicate MatchAt(s: string, p: string, j: nat)
  {
    j + |p| <= |s| && s[j..j + |p|] == p
  }

  /** `s.indexOf(p, from)`: the first index at or after `from` at which `p` occurs. */
  function FindFrom(s: string, p: string, from: nat): (r: Option<nat>)
    ensures r.Some? ==> from <= r.value && MatchAt(s, p, r.value)
    ensures r.Some? ==> forall j :: from <= j < r.value ==> !MatchAt(s, p, j)
    ensures r.None? ==> forall j :: from <= j <= |s| ==> !MatchAt(s, p, j)
    decreases |s| - from
  {
    if from + |p| > |s| then None
    else if MatchAt(s, p, from) then Some(from)
    else FindFrom(s, p, from + 1)
  }

  /** `s.indexOf(p)`: the first index at which `p` occurs, if any. */
  function Find(s: string, p: string): (r: Option<nat>)
  {
    FindFrom(s, p, 0)
  }

  /** An occurrence inside a prefix is an occurrence in the whole string. */
  lemma MatchInPrefix(s: string, p: string, i: nat, j: nat)
    requires i <= |s| && MatchAt(s[..i], p, j)
    ensures MatchAt(s, p, j) && j + |p| <= i
  {
    assert s[..i][j..j + |p|] == s[j..j + |p|];
  }

  /** The text before the first occurrence holds no occurrence. */
  lemma NoMatchBeforeFirst(s: string, p: string, i: nat)
    requires |p| > 0 && Find(s, p) == Some(i)
    ensures !Contains(s[..i], p)
  {
    var f := Find(s[..i], p);
    if f.Some? {
      MatchInPrefix(s, p, i, f.value);
    }
  }

  /** An occurrence with none before it is the one `Find` reports. */
  lemma FindIs(s: string, p: string, i: nat)
    requires MatchAt(s, p, i)
    requires forall j :: 0 <= j < i ==> !MatchAt(s, p, j)
    ensures Find(s, p) == Some(i)
  {
  }

  /** `s.includes(p)` */
  predicate Contains(s: string, p: string)
  {
    Find(s, p).Some?
  }

  /** `s.split(sep)` for a non-empty separator: the pieces between
      successive leftmost occurrences of `sep`. */
  function Split(s: string, sep: string): (r: seq<string>)
    requires |sep| > 0
    ensures |r| >= 1
    ensures forall k :: 0 <= k < |r| ==> !Contains(r[k], sep)
    decreases |s|
  {
    match Find(s, sep)
    case None => [s]
    case Some(i) =>
      NoMatchBeforeFirst(s, sep, i);
      [s[..i]] + Split(s[i + |sep|..], sep)
  }

  /** `parts.join(sep)` */
  function Join(parts: seq<string>, sep: string): string
    decreases |parts|
  {
    if |parts| == 0 then ""
    else if |parts| == 1 then parts[0]
    else parts[0] + sep + Join(parts[1..], sep)
  }

  /** Joining the pieces of a split with the same separator gives the string back. */
  lemma {:induction false} JoinSplit(s: string, sep: string)
    requires |sep| > 0
    ensures Join(Split(s, sep), sep) == s
    decreases |s|
  {
    match Find(s, sep)
    case None =>
    case Some(i) =>
      var rest := s[i + |sep|..];
      JoinSplit(rest, sep);
      SplitAt(s, sep, i);
      JoinCons(s[..i], Split(rest, sep), sep);
  }

  /** The first piece of a split ends at the first occurrence of the separator. */
  lemma SplitAt(s: string, sep: string, i: nat)
    requires |sep| > 0 && Find(s, sep) == Some(i)
    ensures Split(s, sep) == [s[..i]] + Split(s[i + |sep|..], sep)
    ensures s == s[..i] + sep + s[i + |sep|..]
  {
    assert s[i..i + |sep|] == sep;
  }

  lemma JoinCons(x: string, parts: seq<string>, sep: string)
    requires |parts| >= 1
    ensures Join([x] + parts, sep) == x + sep + Join(parts, sep)
  {
    assert ([x] + parts)[1..] == parts;
  }

  /** An occurrence that ends inside `a` is an occurrence in `a + t`. */
  lemma MatchInExtension(a: string, t: string, p: string, j: nat)
    requires j + |p| <= |a|
    ensures MatchAt(a + t, p, j) <==> MatchAt(a, p, j)
  {
    assert (a + t)[j..j + |p|] == a[j..j + |p|];
  }

  /** Extending a string keeps its first occurrence of a pattern. */
  lemma FindInExtension(a: string, t: string, p: string, i: nat)
    requires Find(a, p) == Some(i)
    ensures Find(a + t, p) == Some(i)
  {
    MatchInExtension(a, t, p, i);
    forall j | 0 <= j < i ensures !MatchAt(a + t, p, j) {
      assert !MatchAt(a, p, j);
      MatchInExtension(a, t, p, j);
    }
    FindIs(a + t, p, i);
  }

  /** Without `c` in `a`, the first `c` of `a + [c] + b` is the added one. */
  lemma FindAppended(a: string, c: char, b: string)
    requires Find(a, [c]).None?
    ensures Find(a + [c] + b, [c]) == Some(|a|)
  {
    var s := a + [c] + b;
    assert s[|a|..|a| + 1] == [c];
    forall j | 0 <= j < |a| ensures !MatchAt(s, [c], j) {
      assert !MatchAt(a, [c], j);
      assert s == a + ([c] + b);
      MatchInExtension(a, [c] + b, [c], j);
    }
    FindIs(s, [c], |a|);
  }

  /** Splitting on one character distributes over a concatenation around
      that character: lines are split independently of each other. */
  lemma {:induction false} SplitAround(a: string, c: char, b: string)
    ensures Split(a + [c] + b, [c]) == Split(a, [c]) + Split(b, [c])
    decreases |a|
  {
    var s := a + [c] + b;
    match Find(a, [c])
    case None =>
      FindAppended(a, c, b);
      assert s[..|a|] == a;
      assert s[|a| + 1..] == b;
      assert Split(s, [c]) == [a] + Split(b, [c]);
    case Some(i) =>
      assert s == a + ([c] + b);
      FindInExtension(a, [c] + b, [c], i);
      assert s[..i] == a[..i];
      assert s[i + 1..] == a[i + 1..] + [c] + b;
      SplitAround(a[i + 1..], c, b);
      assert Split(s, [c]) == [a[..i]] + Split(a[i + 1..] + [c] + b, [c]);
      assert Split(a, [c]) == [a[..i]] + Split(a[i + 1..], [c]);
  }

  /** A string without the separator is its own single piece. */
  lemma SplitWithout(s: string, sep: string)
    requires |sep| > 0 && !Contains(s, sep)
    ensures Split(s, sep) == [s]
  {
  }

  /** `text.split('\n')` */
  function Lines(text: string): (r: seq<string>)
    ensures |r| >= 1
    ensures forall k :: 0 <= k < |r| ==> '\n' !in r[k]
  {
    var r := Split(text, "\n");
    forall k | 0 <= k < |r| ensures '\n' !in r[k] {
      AbsentChar(r[k], '\n');
    }
    r
  }

  /** An absent character is never found. */
  lemma FindAbsentChar(s: string, c: char)
    requires c !in s
    ensures Find(s, [c]).None?
  {
    forall j | 0 <= j <= |s| ensures !MatchAt(s, [c], j) {
      if j + 1 <= |s| {
        assert s[j..j + 1] == [s[j]];
      }
    }
  }

  /** A character that does not occur as a one-character pattern is absent. */
  lemma AbsentChar(s: string, c: char)
    requires !Contains(s, [c])
    ensures c !in s
  {
    if c in s {
      var j :| 0 <= j < |s| && s[j] == c;
      assert s[j..j + 1] == [c];
      assert MatchAt(s, [c], j);
    }
  }

  /** `xs.filter(keep)` */
  function Filter<T>(xs: seq<T>, keep: T -> bool): (r: seq<T>)
    ensures |r| <= |xs|
    decreases |xs|
  {
    if xs == [] then []
    else (if keep(xs[0]) then [xs[0]] else []) + Filter(xs[1..], keep)
  }

  /** What the filter keeps comes from the input and passes the test, and
      every element of the input that passes the test is kept. */
  lemma {:induction false} FilterMembers<T>(xs: seq<T>, keep: T -> bool, x: T)
    ensures x in Filter(xs, keep) <==> x in xs && keep(x)
    decreases |xs|
  {
    if xs != [] {
      FilterMembers(xs[1..], keep, x);
      assert xs == [xs[0]] + xs[1..];
    }
  }

  lemma {:induction false} FilterAppend<T>(xs: seq<T>, ys: seq<T>, keep: T -> bool)
    ensures Filter(xs + ys, keep) == Filter(xs, keep) + Filter(ys, keep)
    decreases |xs|
  {
    if xs != [] {
      assert (xs + ys)[0] == xs[0];
      assert (xs + ys)[1..] == xs[1..] + ys;
      FilterAppend(xs[1..], ys, keep);
      calc {
        Filter(xs + ys, keep);
        (if keep(xs[0]) then [xs[0]] else []) + Filter(xs[1..] + ys, keep);
        (if keep(xs[0]) then [xs[0]] else []) + (Filter(xs[1..], keep) + Filter(ys, keep));
      }
    } else {
      assert xs + ys == ys;
    }
  }

  /** `xs.map(f)` */
  function Map<A, B>(xs: seq<A>, f: A -> B): (r: seq<B>)
    ensures |r| == |xs|
    ensures forall k :: 0 <= k < |xs| ==> r[k] == f(xs[k])
    decreases |xs|
  {
    if xs == [] then [] else [f(xs[0])] + Map(xs[1..], f)
  }

  lemma MapAppend<A, B>(xs: seq<A>, ys: seq<A>, f: A -> B)
    ensures Map(xs + ys, f) == Map(xs, f) + Map(ys, f)
  {
  }

  function DigitChar(d: nat): (c: char)
    requires d < 10
    ensures IsDigit(c)
  {
    (48 + d) as char
  }

  /** `${n}` for a non-negative integer: its decimal numeral, without leading zeros. */
  function NatToString(n: nat): (s: string)
    ensures |s| >= 1 && AllDigits(s)
    decreases n
  {
    if n < 10 then [DigitChar(n)] else NatToString(n / 10) + [DigitChar(n % 10)]
  }

  /** `parseInt(s)` for a string of decimal digits. */
  function DecimalValue(s: string): nat
    requires AllDigits(s)
    decreases |s|
  {
    if s == [] then 0 else 10 * DecimalValue(s[..|s| - 1]) + (s[|s| - 1] as int - 48)
  }

  /** Reading back a printed numeral gives the number. */
  lemma {:induction false} DecimalValueOfNatToString(n: nat)
    ensures DecimalValue(NatToString(n)) == n
    decreases n
  {
    if n >= 10 {
      DecimalValueOfNatToString(n / 10);
      var s := NatToString(n);
      assert s[..|s| - 1] == NatToString(n / 10);
    }
  }

  /** Distinct numbers print as distinct numerals. */
  lemma NatToStringInjective(m: nat, n: nat)
    ensures NatToString(m) == NatToString(n) <==> m == n
  {
    DecimalValueOfNatToString(m);
    DecimalValueOfNatToString(n);
  }
}

/** Text helpers shared by the models: splitting, trimming, decimal numbers and the
    byte-wise order Go uses to compare strings. Text is a sequence of code points; Go
    compares the UTF-8 bytes of strings, which orders them as their code points do.
    Trimming and searching are those of package strings, decimal numbers those of
    package strconv. */
module Text {

  datatype Option<+T> = None | Some(value: T)

  /* ----- searching and splitting ----- */

  /** Index of the first `c` in `s`, or `|s|` when there is none. */
  function IndexOf(s: string, c: char): (i: nat)
    ensures i <= |s|
    ensures c !in s[..i]
    ensures i < |s| ==> s[i] == c
    ensures i == |s| <==> c !in s
  {
    if s == [] then 0
    else if s[0] == c then 0
    else
      var i := IndexOf(s[1..], c);
      assert s[..1 + i] == [s[0]] + s[1..][..i];
      1 + i
  }

  /** The first `c` of `a + [c] + b` is the written one when `a` has none. */
  lemma {:induction false} IndexOfSeparator(a: string, c: char, b: string)
    requires c !in a
    ensures IndexOf(a + [c] + b, c) == |a|
  {
    if a == [] {
      assert (a + [c] + b)[0] == c;
    } else {
      IndexOfSeparator(a[1..], c, b);
      assert (a + [c] + b)[1..] == a[1..] + [c] + b;
      assert (a + [c] + b)[0] == a[0];
    }
  }

  /** strings.Split(s, "\n"). */
  function Lines(s: string): (ls: seq<string>)
    ensures |ls| > 0
    decreases |s|
  {
    var i := IndexOf(s, '\n');
    if i == |s| then [s] else [s[..i]] + Lines(s[i + 1..])
  }

  lemma LinesNoNewline(s: string)
    ensures forall l <- Lines(s) :: '\n' !in l
    decreases |s|
  {
    var i := IndexOf(s, '\n');
    if i < |s| {
      LinesNoNewline(s[i + 1..]);
    }
  }

  lemma LinesCons(a: string, b: string)
    requires '\n' !in a
    ensures Lines(a + "\n" + b) == [a] + Lines(b)
  {
    IndexOfSeparator(a, '\n', b);
    var s := a + "\n" + b;
    assert s[..|a|] == a;
    assert s[|a| + 1..] == b;
  }

  lemma Associative<T>(a: seq<T>, b: seq<T>, c: seq<T>)
    ensures a + b + c == a + (b + c)
  {}

  /** The values a line-by-line reader collects. */
  function FlatMap<A, B>(f: A -> seq<B>, xs: seq<A>): seq<B> {
    if xs == [] then [] else f(xs[0]) + FlatMap(f, xs[1..])
  }

  lemma {:induction false} FlatMapAppend<A, B>(f: A -> seq<B>, xs: seq<A>, x: A)
    ensures FlatMap(f, xs + [x]) == FlatMap(f, xs) + f(x)
  {
    if xs == [] {
      assert xs + [x] == [x];
    } else {
      FlatMapAppend(f, xs[1..], x);
      assert (xs + [x])[1..] == xs[1..] + [x];
    }
  }

  /** One newline-terminated line per value. */
  function JoinLines<T>(show: T -> string, xs: seq<T>): string {
    if xs == [] then "" else show(xs[0]) + "\n" + JoinLines(show, xs[1..])
  }

  lemma {:induction false} JoinLinesAppend<T>(show: T -> string, xs: seq<T>, x: T)
    ensures JoinLines(show, xs + [x]) == JoinLines(show, xs) + show(x) + "\n"
  {
    if xs == [] {
      assert xs + [x] == [x];
    } else {
      JoinLinesAppend(show, xs[1..], x);
      assert (xs + [x])[1..] == xs[1..] + [x];
    }
  }

  lemma FlatMapLine<B>(f: string -> seq<B>, line: string, rest: string)
    requires '\n' !in line
    ensures FlatMap(f, Lines(line + "\n" + rest)) == f(line) + FlatMap(f, Lines(rest))
  {
    LinesCons(line, rest);
    assert ([line] + Lines(rest))[1..] == Lines(rest);
  }

  /** Lines printed by `show` and understood by `f` are read back one by one. */
  lemma {:induction false} FlatMapJoinLines<T>(f: string -> seq<T>, show: T -> string, xs: seq<T>, tail: string)
    requires forall x <- xs :: '\n' !in show(x) && f(show(x)) == [x]
    ensures FlatMap(f, Lines(JoinLines(show, xs) + tail)) == xs + FlatMap(f, Lines(tail))
  {
    if xs == [] {
      assert JoinLines(show, xs) + tail == tail;
    } else {
      var line, more := show(xs[0]), JoinLines(show, xs[1..]);
      Associative(line + "\n", more, tail);
      FlatMapLine(f, line, more + tail);
      FlatMapJoinLines(f, show, xs[1..], tail);
      Prepend(xs, FlatMap(f, Lines(tail)));
    }
  }

  lemma Prepend<T>(xs: seq<T>, ys: seq<T>)
    requires xs != []
    ensures xs + ys == [xs[0]] + (xs[1..] + ys)
  {}

  /* ----- trimming ----- */

  /** unicode.IsSpace. */
  predicate IsSpace(c: char) {
    || '\t' <= c <= '\r'
    || c == ' ' || c == '\U{0085}' || c == '\U{00A0}' || c == '\U{1680}'
    || '\U{2000}' <= c <= '\U{200A}'
    || c == '\U{2028}' || c == '\U{2029}' || c == '\U{202F}' || c == '\U{205F}' || c == '\U{3000}'
  }

  function TrimLeft(s: string): string {
    if s != [] && IsSpace(s[0]) then TrimLeft(s[1..]) else s
  }

  function TrimRight(s: string): (r: string)
    ensures r <= s
    ensures r != [] ==> !IsSpace(r[|r| - 1])
  {
    if s != [] && IsSpace(s[|s| - 1]) then TrimRight(s[..|s| - 1]) else s
  }

  /** strings.TrimSpace. */
  function TrimSpace(s: string): (r: string)
    ensures r != [] ==> !IsSpace(r[|r| - 1])
  {
    TrimRight(TrimLeft(s))
  }

  lemma {:induction false} TrimLeftKeepsAbsence(s: string, c: char)
    requires c !in s
    ensures c !in TrimLeft(s)
  {
    if s != [] {
      TrimLeftKeepsAbsence(s[1..], c);
    }
  }

  lemma TrimKeepsAbsence(s: string, c: char)
    requires c !in s
    ensures c !in TrimSpace(s)
  {
    TrimLeftKeepsAbsence(s, c);
  }

  /* ----- decimal numbers ----- */

  predicate IsDigit(c: char) { '0' <= c <= '9' }

  predicate AllDigits(s: string) { forall c <- s :: IsDigit(c) }

  function DigitChar(d: nat): char
    requires d < 10
  {
    '0' + d as char
  }

  function DigitValue(c: char): nat
    requires IsDigit(c)
  {
    (c - '0') as int
  }

  /** Decimal digits of n without leading zeros, as fmt's %d prints them. */
  function NatText(n: nat): (s: string)
    ensures s != [] && AllDigits(s)
  {
    if n < 10 then [DigitChar(n)] else NatText(n / 10) + [DigitChar(n % 10)]
  }

  function NatValue(s: string): nat
    requires AllDigits(s)
  {
    if s == [] then 0 else NatValue(s[..|s| - 1]) * 10 + DigitValue(s[|s| - 1])
  }

  lemma {:induction false} NatRoundTrip(n: nat)
    ensures NatValue(NatText(n)) == n
  {
    var s := NatText(n);
    if n < 10 {
      assert s[..|s| - 1] == [];
    } else {
      NatRoundTrip(n / 10);
      assert s[..|s| - 1] == NatText(n / 10);
    }
  }

  function IntText(n: int): (s: string)
    ensures s != []
    ensures forall c <- s :: IsDigit(c) || c == '-'
  {
    if n < 0 then "-" + NatText(-n) else NatText(n)
  }

  /** strconv.Atoi restricted to an optional sign and digits. */
  function ParseInt(s: string): Option<int> {
    if s != [] && AllDigits(s) then Some(NatValue(s))
    else if |s| > 1 && s[0] == '-' && AllDigits(s[1..]) then Some(-(NatValue(s[1..]) as int))
    else if |s| > 1 && s[0] == '+' && AllDigits(s[1..]) then Some(NatValue(s[1..]))
    else None
  }

  lemma IntRoundTrip(n: int)
    ensures ParseInt(IntText(n)) == Some(n)
  {
    if n < 0 {
      NatRoundTrip(-n);
      var s := IntText(n);
      assert s[1..] == NatText(-n);
      assert s[0] == '-' && !IsDigit(s[0]);
    } else {
      NatRoundTrip(n);
    }
  }

  /* ----- order ----- */

  /** Go's `a < b || a == b` on strings. */
  predicate LexLE(a: string, b: string) {
    a == [] || (b != [] && (a[0] < b[0] || (a[0] == b[0] && LexLE(a[1..], b[1..]))))
  }

  predicate LexLT(a: string, b: string) { LexLE(a, b) && a != b }

  /** `a` is a proper beginning of `b`, or has the lower character where they first differ. */
  ghost predicate LexBefore(a: string, b: string) {
    exists n: nat :: n <= |a| && n < |b| && a[..n] == b[..n] && (n == |a| || a[n] < b[n])
  }

  lemma {:induction false} LexMeans(a: string, b: string)
    ensures LexLT(a, b) <==> LexBefore(a, b)
  {
    if a == [] || b == [] || a[0] != b[0] {
      LexHead(a, b);
    } else {
      LexMeans(a[1..], b[1..]);
      assert a == [a[0]] + a[1..] && b == [b[0]] + b[1..];
      LexTail(a, b);
    }
  }

  lemma LexTail(a: string, b: string)
    requires a != [] && b != [] && a[0] == b[0]
    ensures LexBefore(a, b) <==> LexBefore(a[1..], b[1..])
  {
    var c, d := a[1..], b[1..];
    if n: nat :| n <= |c| && n < |d| && c[..n] == d[..n] && (n == |c| || c[n] < d[n]) {
      assert a[..n + 1] == [a[0]] + c[..n] && b[..n + 1] == [b[0]] + d[..n];
      assert n + 1 <= |a| && n + 1 < |b|;
    }
    if n: nat :| n <= |a| && n < |b| && a[..n] == b[..n] && (n == |a| || a[n] < b[n]) {
      assert n > 0;
      assert c[..n - 1] == a[..n][1..] && d[..n - 1] == b[..n][1..];
    }
  }

  /** The strings differ at once, if at all. */
  lemma LexHead(a: string, b: string)
    requires a == [] || b == [] || a[0] != b[0]
    ensures LexLT(a, b) <==> LexBefore(a, b)
  {
    if LexLT(a, b) {
      assert a[..0] == b[..0];
    }
    forall n: nat | 0 < n <= |a| && n < |b|
      ensures a[..n] != b[..n]
    {
      assert a[..n][0] == a[0] && b[..n][0] == b[0];
    }
  }

  lemma LexReflexive(a: string)
    ensures LexLE(a, a)
  {}

  lemma LexAntisymmetric(a: string, b: string)
    requires LexLE(a, b) && LexLE(b, a)
    ensures a == b
  {
    if a != [] {
      LexAntisymmetric(a[1..], b[1..]);
      assert a == [a[0]] + a[1..];
      assert b == [b[0]] + b[1..];
    }
  }

  lemma LexTotal(a: string, b: string)
    ensures LexLE(a, b) || LexLE(b, a)
  {}

  lemma LexTransitive(a: string, b: string, c: string)
    requires LexLE(a, b) && LexLE(b, c)
    ensures LexLE(a, c)
  {
    if a != [] && a[0] == b[0] == c[0] {
      LexTransitive(a[1..], b[1..], c[1..]);
    }
  }
}

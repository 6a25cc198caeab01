/** Canonical JSON for request fingerprints: reserved top-level keys removed, object keys
    sorted, strings escaped as encoding/json does, numbers as the text Go prints for them
    (internal/app/idempotency.go). */
module CanonicalJson {
  import opened Text

  predicate IsNumChar(c: char) { IsDigit(c) || c in {'-', '+', '.', 'e', 'E'} }

  type NumText = s: string | s != "" && (IsDigit(s[0]) || s[0] == '-') && forall c <- s :: IsNumChar(c)
    witness "0"

  datatype Json =
    | Null
    | Bool(b: bool)
    | Num(text: NumText)
    | Str(s: string)
    | Arr(items: seq<Json>)
    | Obj(members: map<string, Json>)

  /* ----- reserved keys ----- */

  const RESERVED: set<string> := {"idempotencyKey", "requestId", "ts", "timestamp"}

  /** stripReserved: only the top level loses keys. */
  function Strip(v: Json): Json {
    match v
    case Obj(m) => Obj(m - RESERVED)
    case _ => v
  }

  /* ----- strings ----- */

  function HexDigit(n: nat): char
    requires n < 16
  {
    if n < 10 then '0' + n as char else 'a' + (n - 10) as char
  }

  function Hex4(n: nat): string
    requires n < 0x1_0000
  {
    var a := n / 16;
    var b := a / 16;
    [HexDigit(b / 16), HexDigit(b % 16), HexDigit(a % 16), HexDigit(n % 16)]
  }

  lemma HexDigitInjective(m: nat, n: nat)
    requires m < 16 && n < 16 && HexDigit(m) == HexDigit(n)
    ensures m == n
  {}

  lemma Hex4Injective(m: nat, n: nat)
    requires m < 0x1_0000 && n < 0x1_0000 && Hex4(m) == Hex4(n)
    ensures m == n
  {
    var s, t := Hex4(m), Hex4(n);
    assert s[0] == t[0] && s[1] == t[1] && s[2] == t[2] && s[3] == t[3];
    var a, a' := m / 16, n / 16;
    var b, b' := a / 16, a' / 16;
    HexDigitInjective(b / 16, b' / 16);
    HexDigitInjective(b % 16, b' % 16);
    HexDigitInjective(a % 16, a' % 16);
    HexDigitInjective(m % 16, n % 16);
    assert b == b' && a == a';
  }

  /** The letter of a two-character escape, or a blank. */
  function ShortEscape(c: char): char {
    if c == '"' then '"'
    else if c == '\\' then '\\'
    else if c == '\U{08}' then 'b'
    else if c == '\U{0C}' then 'f'
    else if c == '\n' then 'n'
    else if c == '\r' then 'r'
    else if c == '\t' then 't'
    else ' '
  }

  predicate LongEscape(c: char) {
    c < ' ' || c == '<' || c == '>' || c == '&' || c == '\U{2028}' || c == '\U{2029}'
  }

  /** One character inside a JSON string, as json.Marshal writes it. */
  function EscapeChar(c: char): (e: string)
    ensures e != "" && e[0] != '"'
  {
    if ShortEscape(c) != ' ' then ['\\', ShortEscape(c)]
    else if LongEscape(c) then ['\\', 'u'] + Hex4(c as int)
    else [c]
  }

  lemma ShortEscapeInjective(c: char, d: char)
    requires ShortEscape(c) == ShortEscape(d) != ' '
    ensures c == d
  {}

  /** What is written for each character. */
  lemma EscapeCharIs(c: char)
    ensures c == '"' ==> EscapeChar(c) == "\\\""
    ensures c == '\\' ==> EscapeChar(c) == "\\\\"
    ensures c == '\n' ==> EscapeChar(c) == "\\n"
    ensures c == '\r' ==> EscapeChar(c) == "\\r"
    ensures c == '\t' ==> EscapeChar(c) == "\\t"
    ensures c == '\U{08}' ==> EscapeChar(c) == "\\b"
    ensures c == '\U{0C}' ==> EscapeChar(c) == "\\f"
    ensures c >= ' ' && c !in {'"', '\\', '<', '>', '&', '\U{2028}', '\U{2029}'} ==> EscapeChar(c) == [c]
  {}

  lemma EscapeHexIs(c: char)
    ensures c == '<' ==> EscapeChar(c) == "\\u003c"
    ensures c == '>' ==> EscapeChar(c) == "\\u003e"
    ensures c == '&' ==> EscapeChar(c) == "\\u0026"
    ensures c == '\U{2028}' ==> EscapeChar(c) == "\\u2028"
    ensures c == '\U{2029}' ==> EscapeChar(c) == "\\u2029"
  {}

  lemma EscapeControlIs(c: char)
    requires c < ' ' && c !in {'\U{08}', '\U{0C}', '\n', '\r', '\t'}
    ensures EscapeChar(c) == "\\u00" + [if c < '\U{10}' then '0' else '1', HexDigit(c as int % 16)]
  {
    var n := c as int;
    assert n / 16 == (if n < 16 then 0 else 1) && n / 16 / 16 == 0;
    assert Hex4(n) == ['0', '0', if n < 16 then '0' else '1', HexDigit(n % 16)];
  }

  /** Escaped characters are prefix-free. */
  lemma EscapeCharUnique(c: char, d: char, x: string, y: string)
    requires EscapeChar(c) + x == EscapeChar(d) + y
    ensures c == d && x == y
  {
    var e, f := EscapeChar(c), EscapeChar(d);
    var s, t := e + x, f + y;
    assert s[0] == e[0] && t[0] == f[0];
    if e[0] == '\\' {
      assert s[1] == e[1] && t[1] == f[1];
      if ShortEscape(c) != ' ' {
        ShortEscapeInjective(c, d);
      } else {
        assert forall i :: 2 <= i < 6 ==> s[i] == e[i] && t[i] == f[i];
        assert Hex4(c as int) == s[2..6] == t[2..6] == Hex4(d as int);
        Hex4Injective(c as int, d as int);
      }
    }
    assert c == d;
    assert s[|e|..] == x && t[|f|..] == y;
  }

  function EscapeText(s: string): string {
    if s == "" then "" else EscapeChar(s[0]) + EscapeText(s[1..])
  }

  function Quote(s: string): string { "\"" + EscapeText(s) + "\"" }

  lemma {:induction false} EscapeTextUnique(s: string, t: string, x: string, y: string)
    requires EscapeText(s) + ("\"" + x) == EscapeText(t) + ("\"" + y)
    ensures s == t && x == y
  {
    var l, r := EscapeText(s) + ("\"" + x), EscapeText(t) + ("\"" + y);
    if s == "" || t == "" {
      EscapeHead(s, x);
      EscapeHead(t, y);
      assert l[1..] == r[1..];
      assert s == t == "";
      assert l[1..] == x && r[1..] == y;
    } else {
      Associative(EscapeChar(s[0]), EscapeText(s[1..]), "\"" + x);
      Associative(EscapeChar(t[0]), EscapeText(t[1..]), "\"" + y);
      EscapeCharUnique(s[0], t[0], EscapeText(s[1..]) + ("\"" + x), EscapeText(t[1..]) + ("\"" + y));
      EscapeTextUnique(s[1..], t[1..], x, y);
      assert s == [s[0]] + s[1..] && t == [t[0]] + t[1..];
    }
  }

  lemma EscapeHead(s: string, x: string)
    ensures var l := EscapeText(s) + ("\"" + x); l != "" && (l[0] == '"' <==> s == "")
  {
    if s != "" {
      assert (EscapeText(s) + ("\"" + x))[0] == EscapeChar(s[0])[0];
    }
  }

  lemma QuoteUnique(s: string, t: string, x: string, y: string)
    requires Quote(s) + x == Quote(t) + y
    ensures s == t && x == y
  {
    QuoteShape(s, x);
    QuoteShape(t, y);
    EscapeTextUnique(s, t, x, y);
  }

  lemma QuoteShape(s: string, x: string)
    ensures (Quote(s) + x)[1..] == EscapeText(s) + ("\"" + x)
  {}

  /* ----- sorted keys ----- */

  ghost predicate Sorted(ks: seq<string>) {
    forall i, j | 0 <= i < j < |ks| :: LexLT(ks[i], ks[j])
  }

  ghost function Elements(ks: seq<string>): set<string> { set k | k in ks }

  lemma ElementsEmpty(ks: seq<string>)
    ensures Elements(ks) == {} <==> ks == []
  {
    if ks != [] {
      assert ks[0] in Elements(ks);
    }
  }

  lemma ElementsAppend(ks: seq<string>, k: string)
    ensures Elements(ks + [k]) == Elements(ks) + {k}
  {}

  /** A sorted list is determined by its elements. */
  lemma {:induction false} SortedUnique(ks: seq<string>, ls: seq<string>)
    requires Sorted(ks) && Sorted(ls) && Elements(ks) == Elements(ls)
    ensures ks == ls
  {
    ElementsEmpty(ks);
    ElementsEmpty(ls);
    if ks != [] {
      assert ks[0] in Elements(ls) && ls[0] in Elements(ks);
      var i :| 0 <= i < |ls| && ls[i] == ks[0];
      var j :| 0 <= j < |ks| && ks[j] == ls[0];
      if i > 0 && j > 0 {
        LexAntisymmetric(ks[0], ls[0]);
      }
      assert ks[0] == ls[0];
      assert Elements(ks[1..]) == Elements(ks) - {ks[0]} by { SortedTail(ks); }
      assert Elements(ls[1..]) == Elements(ls) - {ls[0]} by { SortedTail(ls); }
      SortedUnique(ks[1..], ls[1..]);
      assert ks == [ks[0]] + ks[1..] && ls == [ls[0]] + ls[1..];
    }
  }

  lemma SortedTail(ks: seq<string>)
    requires Sorted(ks) && ks != []
    ensures Elements(ks[1..]) == Elements(ks) - {ks[0]}
  {
    forall k
      ensures k in Elements(ks[1..]) <==> k in Elements(ks) - {ks[0]}
    {
      if k in Elements(ks) - {ks[0]} {
        var i :| 0 <= i < |ks| && ks[i] == k;
        assert ks[1..][i - 1] == k;
      }
      if k in Elements(ks[1..]) {
        var i :| 0 <= i < |ks[1..]| && ks[1..][i] == k;
        assert ks[i + 1] == k && LexLT(ks[0], ks[i + 1]);
      }
    }
  }

  /** The first key of a non-empty set. */
  lemma LeastKey(s: set<string>) returns (k: string)
    requires s != {}
    ensures k in s && forall j <- s :: LexLE(k, j)
  {
    k :| k in s;
    var rest := s - {k};
    assert forall j <- s :: j == k || j in rest;
    if rest != {} {
      var m := LeastKey(rest);
      LexTotal(k, m);
      LexReflexive(k);
      if LexLE(k, m) {
        forall j <- s
          ensures LexLE(k, j)
        {
          if j != k {
            LexTransitive(k, m, j);
          }
        }
      } else {
        k := m;
      }
    } else {
      LexReflexive(k);
    }
  }

  lemma SortedExists(s: set<string>) returns (ks: seq<string>)
    ensures Sorted(ks) && Elements(ks) == s
    decreases s
  {
    if s == {} {
      ks := [];
    } else {
      var k := LeastKey(s);
      var rest := SortedExists(s - {k});
      ks := [k] + rest;
      forall i, j | 0 <= i < j < |ks|
        ensures LexLT(ks[i], ks[j])
      {
        if i == 0 {
          assert ks[j] == rest[j - 1] && rest[j - 1] in Elements(rest);
        }
      }
      assert Elements(ks) == {k} + Elements(rest);
    }
  }

  /** The keys of an object in the order sort.Strings gives them. */
  ghost function SortedKeys(s: set<string>): (ks: seq<string>)
    ensures Sorted(ks) && Elements(ks) == s
  {
    assert exists ks :: Sorted(ks) && Elements(ks) == s by {
      var ks := SortedExists(s);
    }
    var ks :| Sorted(ks) && Elements(ks) == s;
    ks
  }

  /* ----- printing ----- */

  /** marshalCanonical as a function of the value. */
  ghost function Print(v: Json): string
    decreases v, 1
  {
    match v
    case Null => "null"
    case Bool(b) => if b then "true" else "false"
    case Num(t) => t
    case Str(s) => Quote(s)
    case Arr(items) => "[" + PrintItems(v, 0) + "]"
    case Obj(m) => "{" + PrintMembers(v, SortedKeys(m.Keys)) + "}"
  }

  /** The comma-separated items from index `i` on. */
  ghost function PrintItems(v: Json, i: nat): string
    requires v.Arr? && i <= |v.items|
    decreases v, 0, |v.items| - i
  {
    if i == |v.items| then ""
    else Print(v.items[i]) + (if i + 1 == |v.items| then "" else "," + PrintItems(v, i + 1))
  }

  ghost function PrintMember(v: Json, k: string): string
    requires v.Obj? && k in v.members
    decreases v, 0, 0
  {
    Quote(k) + (":" + Print(v.members[k]))
  }

  ghost function PrintMembers(v: Json, ks: seq<string>): string
    requires v.Obj? && forall k <- ks :: k in v.members
    decreases v, 0, |ks|
  {
    if ks == [] then ""
    else PrintMember(v, ks[0]) + (if |ks| == 1 then "" else "," + PrintMembers(v, ks[1..]))
  }

  /** Texts with commas between them. */
  function Commas(ts: seq<string>): string {
    if ts == [] then "" else if |ts| == 1 then ts[0] else ts[0] + "," + Commas(ts[1..])
  }

  lemma {:induction false} ItemsAreCommas(v: Json, i: nat)
    requires v.Arr? && i <= |v.items|
    ensures PrintItems(v, i) == Commas(seq(|v.items| - i, k requires 0 <= k < |v.items| - i => Print(v.items[i + k])))
    decreases |v.items| - i
  {
    if i < |v.items| {
      ItemsAreCommas(v, i + 1);
      var ts := seq(|v.items| - i, k requires 0 <= k < |v.items| - i => Print(v.items[i + k]));
      assert ts[1..] == seq(|v.items| - (i + 1), k requires 0 <= k < |v.items| - (i + 1) => Print(v.items[i + 1 + k]));
      Associative(ts[0], ",", Commas(ts[1..]));
    }
  }

  ghost function MemberTexts(v: Json, ks: seq<string>): seq<string>
    requires v.Obj? && forall k <- ks :: k in v.members
  {
    seq(|ks|, i requires 0 <= i < |ks| => "\"" + EscapeText(ks[i]) + "\":" + Print(v.members[ks[i]]))
  }

  lemma MemberIs(v: Json, k: string)
    requires v.Obj? && k in v.members
    ensures PrintMember(v, k) == "\"" + EscapeText(k) + "\":" + Print(v.members[k])
  {
    var open := "\"" + EscapeText(k);
    Associative(open, "\"", ":" + Print(v.members[k]));
    Associative("\"", ":", Print(v.members[k]));
    assert "\"" + ":" == "\":";
    Associative(open, "\":", Print(v.members[k]));
  }

  lemma {:induction false} MembersAreCommas(v: Json, ks: seq<string>)
    requires v.Obj? && forall k <- ks :: k in v.members
    ensures PrintMembers(v, ks) == Commas(MemberTexts(v, ks))
  {
    if ks != [] {
      MemberIs(v, ks[0]);
      MembersAreCommas(v, ks[1..]);
      assert MemberTexts(v, ks)[1..] == MemberTexts(v, ks[1..]);
      Associative(MemberTexts(v, ks)[0], ",", Commas(MemberTexts(v, ks[1..])));
    }
  }

  /** The canonical text of every kind of value; `ks` is the sorted list of an object's
      keys. */
  lemma PrintIs(v: Json, ks: seq<string>)
    ensures v.Null? ==> Print(v) == "null"
    ensures v.Bool? ==> Print(v) == if v.b then "true" else "false"
    ensures v.Num? ==> Print(v) == v.text
    ensures v.Str? ==> Print(v) == "\"" + EscapeText(v.s) + "\""
    ensures v.Arr? ==> Print(v) == "[" + Commas(seq(|v.items|, k requires 0 <= k < |v.items| => Print(v.items[k]))) + "]"
    ensures v.Obj? && Sorted(ks) && Elements(ks) == v.members.Keys ==>
      (forall k <- ks :: k in v.members) && Print(v) == "{" + Commas(MemberTexts(v, ks)) + "}"
  {
    if v.Arr? {
      ItemsAreCommas(v, 0);
      assert seq(|v.items| - 0, k requires 0 <= k < |v.items| - 0 => Print(v.items[0 + k]))
          == seq(|v.items|, k requires 0 <= k < |v.items| => Print(v.items[k]));
    }
    if v.Obj? && Sorted(ks) && Elements(ks) == v.members.Keys {
      SortedUnique(ks, SortedKeys(v.members.Keys));
      assert forall k <- ks :: k in Elements(ks);
      MembersAreCommas(v, ks);
    }
  }

  /** canonicalJSON on a decoded value. */
  ghost function Canonical(v: Json): string { Print(Strip(v)) }

  /* ----- unique decodability ----- */

  /** What may follow a printed value inside a document. */
  predicate Delimited(x: string) { x == "" || !IsNumChar(x[0]) }

  /** The first character of a printed value tells its kind. */
  lemma FirstChar(v: Json)
    ensures var p := Print(v); p != "" && match v
      case Null => p[0] == 'n'
      case Bool(b) => p[0] == (if b then 't' else 'f')
      case Num(_) => IsDigit(p[0]) || p[0] == '-'
      case Str(_) => p[0] == '"'
      case Arr(_) => p[0] == '['
      case Obj(_) => p[0] == '{'
  {}

  lemma SameKind(v: Json, w: Json, x: string, y: string)
    requires Print(v) + x == Print(w) + y
    ensures v.Null? <==> w.Null?
    ensures v.Bool? <==> w.Bool?
    ensures v.Bool? ==> v == w
    ensures v.Num? <==> w.Num?
    ensures v.Str? <==> w.Str?
    ensures v.Arr? <==> w.Arr?
  {
    FirstChar(v);
    FirstChar(w);
    assert (Print(v) + x)[0] == Print(v)[0] && (Print(w) + y)[0] == Print(w)[0];
  }

  lemma SuffixUnique(p: string, x: string, y: string)
    requires p + x == p + y
    ensures x == y
  {
    assert (p + x)[|p|..] == x && (p + y)[|p|..] == y;
  }

  lemma {:induction false} NumUnique(s: string, t: string, x: string, y: string)
    requires (forall c <- s :: IsNumChar(c)) && (forall c <- t :: IsNumChar(c))
    requires Delimited(x) && Delimited(y) && s + x == t + y
    ensures s == t && x == y
  {
    NumHead(s, x);
    NumHead(t, y);
    if s != "" {
      assert (s + x)[1..] == s[1..] + x && (t + y)[1..] == t[1..] + y;
      assert (s + x)[0] == s[0] && (t + y)[0] == t[0];
      NumUnique(s[1..], t[1..], x, y);
      assert s == [s[0]] + s[1..] && t == [t[0]] + t[1..];
    }
  }

  lemma NumHead(s: string, x: string)
    requires (forall c <- s :: IsNumChar(c)) && Delimited(x)
    ensures var l := s + x; (s != "" <==> l != "" && IsNumChar(l[0])) && (s == "" ==> l == x)
  {
    if s != "" {
      assert (s + x)[0] == s[0];
    }
  }

  /** What follows item `i`, up to the closing bracket and `x`. */
  ghost function ItemTail(v: Json, i: nat, x: string): string
    requires v.Arr? && i < |v.items|
  {
    if i + 1 == |v.items| then "]" + x else "," + (PrintItems(v, i + 1) + ("]" + x))
  }

  lemma ItemsShape(v: Json, i: nat, x: string)
    requires v.Arr? && i < |v.items|
    ensures PrintItems(v, i) + ("]" + x) == Print(v.items[i]) + ItemTail(v, i, x)
    ensures var tail := ItemTail(v, i, x);
      Delimited(tail) && tail != "" && (tail[0] == ']' <==> i + 1 == |v.items|)
  {
    if i + 1 < |v.items| {
      var p, q := Print(v.items[i]), PrintItems(v, i + 1);
      Associative(p, "," + q, "]" + x);
      Associative(",", q, "]" + x);
    }
  }

  ghost function MemberTail(v: Json, ks: seq<string>, x: string): string
    requires v.Obj? && ks != [] && forall k <- ks :: k in v.members
  {
    if |ks| == 1 then "}" + x else "," + (PrintMembers(v, ks[1..]) + ("}" + x))
  }

  lemma MembersShape(v: Json, ks: seq<string>, x: string)
    requires v.Obj? && ks != [] && forall k <- ks :: k in v.members
    ensures PrintMembers(v, ks) + ("}" + x) == Quote(ks[0]) + (":" + (Print(v.members[ks[0]]) + MemberTail(v, ks, x)))
    ensures var tail := MemberTail(v, ks, x);
      Delimited(tail) && tail != "" && (tail[0] == '}' <==> |ks| == 1)
  {
    var q, p := Quote(ks[0]), Print(v.members[ks[0]]);
    var rest := if |ks| == 1 then "" else "," + PrintMembers(v, ks[1..]);
    assert rest + ("}" + x) == MemberTail(v, ks, x) by {
      if |ks| > 1 {
        Associative(",", PrintMembers(v, ks[1..]), "}" + x);
      }
    }
    Associative(q + (":" + p), rest, "}" + x);
    Associative(q, ":" + p, MemberTail(v, ks, x));
    Associative(":", p, MemberTail(v, ks, x));
  }

  lemma CloseBracket(v: Json, i: nat, x: string)
    requires v.Arr? && i <= |v.items|
    ensures var l := PrintItems(v, i) + ("]" + x); l != "" && (l[0] == ']' <==> i == |v.items|)
  {
    if i < |v.items| {
      ItemsShape(v, i, x);
      FirstChar(v.items[i]);
      assert (Print(v.items[i]) + ItemTail(v, i, x))[0] == Print(v.items[i])[0];
    }
  }

  lemma CloseBrace(v: Json, ks: seq<string>, x: string)
    requires v.Obj? && forall k <- ks :: k in v.members
    ensures var l := PrintMembers(v, ks) + ("}" + x); l != "" && (l[0] == '}' <==> ks == [])
  {
    if ks != [] {
      MembersShape(v, ks, x);
      assert (Quote(ks[0]) + (":" + (Print(v.members[ks[0]]) + MemberTail(v, ks, x))))[0] == '"';
    }
  }

  /** A printed value followed by a delimiter can be read in one way only. */
  lemma {:induction false} PrintUnique(v: Json, w: Json, x: string, y: string)
    requires Print(v) + x == Print(w) + y && Delimited(x) && Delimited(y)
    ensures v == w && x == y
    decreases v, 1
  {
    SameKind(v, w, x, y);
    match v
    case Null => SuffixUnique("null", x, y);
    case Bool(b) => SuffixUnique(Print(v), x, y);
    case Num(t) => NumUnique(t, w.text, x, y);
    case Str(s) => QuoteUnique(s, w.s, x, y);
    case Arr(items) =>
      ArrShape(v, x);
      ArrShape(w, y);
      ItemsUnique(v, w, 0, 0, x, y);
      assert items[0..] == items && w.items[0..] == w.items;
    case Obj(m) =>
      ObjShape(v, x);
      ObjShape(w, y);
      var ks, ls := SortedKeys(m.Keys), SortedKeys(w.members.Keys);
      MembersUnique(v, w, ks, ls, x, y);
      forall k
        ensures k in m <==> k in w.members
        ensures k in m ==> m[k] == w.members[k]
      {
        assert k in Elements(ks) <==> k in m.Keys;
        assert k in Elements(ls) <==> k in w.members.Keys;
      }
      assert m == w.members;
  }

  lemma ArrShape(v: Json, x: string)
    requires v.Arr?
    ensures (Print(v) + x)[1..] == PrintItems(v, 0) + ("]" + x)
  {}

  lemma ObjShape(v: Json, x: string)
    requires v.Obj?
    ensures (Print(v) + x)[1..] == PrintMembers(v, SortedKeys(v.members.Keys)) + ("}" + x)
  {}

  lemma {:induction false} ItemsUnique(v: Json, w: Json, i: nat, j: nat, x: string, y: string)
    requires v.Arr? && w.Arr? && i <= |v.items| && j <= |w.items|
    requires PrintItems(v, i) + ("]" + x) == PrintItems(w, j) + ("]" + y)
    ensures v.items[i..] == w.items[j..] && x == y
    decreases v, 0, |v.items| - i
  {
    CloseBracket(v, i, x);
    CloseBracket(w, j, y);
    if i == |v.items| {
      assert "" + ("]" + x) == "]" + x && "" + ("]" + y) == "]" + y;
      SuffixUnique("]", x, y);
    } else {
      ItemsShape(v, i, x);
      ItemsShape(w, j, y);
      PrintUnique(v.items[i], w.items[j], ItemTail(v, i, x), ItemTail(w, j, y));
      if i + 1 == |v.items| {
        SuffixUnique("]", x, y);
      } else {
        SuffixUnique(",", PrintItems(v, i + 1) + ("]" + x), PrintItems(w, j + 1) + ("]" + y));
        ItemsUnique(v, w, i + 1, j + 1, x, y);
      }
      assert v.items[i..] == [v.items[i]] + v.items[i + 1..];
      assert w.items[j..] == [w.items[j]] + w.items[j + 1..];
    }
  }

  lemma {:induction false} MembersUnique(v: Json, w: Json, ks: seq<string>, ls: seq<string>, x: string, y: string)
    requires v.Obj? && w.Obj?
    requires (forall k <- ks :: k in v.members) && (forall l <- ls :: l in w.members)
    requires PrintMembers(v, ks) + ("}" + x) == PrintMembers(w, ls) + ("}" + y)
    ensures ks == ls && (forall k <- ks :: v.members[k] == w.members[k]) && x == y
    decreases v, 0, |ks|
  {
    CloseBrace(v, ks, x);
    CloseBrace(w, ls, y);
    if ks == [] {
      assert "" + ("}" + x) == "}" + x && "" + ("}" + y) == "}" + y;
      SuffixUnique("}", x, y);
    } else {
      MembersShape(v, ks, x);
      MembersShape(w, ls, y);
      var a, b := Print(v.members[ks[0]]) + MemberTail(v, ks, x), Print(w.members[ls[0]]) + MemberTail(w, ls, y);
      QuoteUnique(ks[0], ls[0], ":" + a, ":" + b);
      SuffixUnique(":", a, b);
      PrintUnique(v.members[ks[0]], w.members[ls[0]], MemberTail(v, ks, x), MemberTail(w, ls, y));
      if |ks| == 1 {
        SuffixUnique("}", x, y);
      } else {
        SuffixUnique(",", PrintMembers(v, ks[1..]) + ("}" + x), PrintMembers(w, ls[1..]) + ("}" + y));
        MembersUnique(v, w, ks[1..], ls[1..], x, y);
      }
      assert ks == [ks[0]] + ks[1..] && ls == [ls[0]] + ls[1..];
    }
  }

  /* ----- the fingerprint law ----- */

  /** Canonical bytes are equal exactly when the values are, once the reserved
      top-level keys are gone. */
  lemma CanonicalInjective(v: Json, w: Json)
    ensures Canonical(v) == Canonical(w) <==> Strip(v) == Strip(w)
    ensures var reserved := {"idempotencyKey", "requestId", "ts", "timestamp"};
      Strip(v) == if v.Obj? then Obj(v.members - reserved) else v
  {
    if Canonical(v) == Canonical(w) {
      assert Print(Strip(v)) + "" == Print(Strip(w)) + "";
      PrintUnique(Strip(v), Strip(w), "", "");
    }
  }

  /** A top-level reserved key never counts, whatever its value. */
  lemma ReservedIgnored(m: map<string, Json>, k: string, x: Json)
    requires k in {"idempotencyKey", "requestId", "ts", "timestamp"}
    ensures Canonical(Obj(m[k := x])) == Canonical(Obj(m))
  {
    assert m[k := x] - RESERVED == m - RESERVED;
  }

  /** Any other key counts with its whole value, so `ts` or `timestamp` one level
      down does. */
  lemma NestedCounts(m: map<string, Json>, k: string, x: Json, y: Json)
    requires k !in {"idempotencyKey", "requestId", "ts", "timestamp"}
    ensures Canonical(Obj(m[k := x])) == Canonical(Obj(m[k := y])) <==> x == y
  {
    CanonicalInjective(Obj(m[k := x]), Obj(m[k := y]));
    var a, b := m[k := x] - RESERVED, m[k := y] - RESERVED;
    assert a[k] == x && b[k] == y;
  }

  /** json.Unmarshal of an object text: the last occurrence of a name wins. */
  function FromMembers(ms: seq<(string, Json)>): map<string, Json> {
    if ms == [] then map[] else FromMembers(ms[..|ms| - 1])[ms[|ms| - 1].0 := ms[|ms| - 1].1]
  }

  lemma {:induction false} FromMembersLookup(ms: seq<(string, Json)>, k: string, x: Json)
    requires forall i, j | 0 <= i < j < |ms| :: ms[i].0 != ms[j].0
    ensures (k in FromMembers(ms) && FromMembers(ms)[k] == x) <==> (k, x) in ms
    ensures k in FromMembers(ms) <==> exists m <- ms :: m.0 == k
  {
    if ms != [] {
      var front, last := ms[..|ms| - 1], ms[|ms| - 1];
      assert ms == front + [last];
      FromMembersLookup(front, k, x);
    }
  }

  /** The order of an object's members in the text is irrelevant. */
  lemma MemberOrderIrrelevant(ms: seq<(string, Json)>, ns: seq<(string, Json)>)
    requires multiset(ms) == multiset(ns)
    requires forall i, j | 0 <= i < j < |ms| :: ms[i].0 != ms[j].0
    requires forall i, j | 0 <= i < j < |ns| :: ns[i].0 != ns[j].0
    ensures Canonical(Obj(FromMembers(ms))) == Canonical(Obj(FromMembers(ns)))
  {
    var a, b := FromMembers(ms), FromMembers(ns);
    forall k
      ensures k in a <==> k in b
      ensures k in a ==> a[k] == b[k]
    {
      if k in a {
        FromMembersLookup(ms, k, a[k]);
        assert (k, a[k]) in multiset(ms);
        assert (k, a[k]) in multiset(ns);
        FromMembersLookup(ns, k, a[k]);
      }
      if k in b {
        FromMembersLookup(ns, k, b[k]);
        assert (k, b[k]) in multiset(ns);
        assert (k, b[k]) in multiset(ms);
        FromMembersLookup(ms, k, b[k]);
      }
    }
    assert a == b;
  }

  /* ----- the code ----- */

  /** sort.Strings on distinct keys, as repeated insertion. */
  method SortStrings(keys: seq<string>) returns (sorted: seq<string>)
    requires forall i, j | 0 <= i < j < |keys| :: keys[i] != keys[j]
    ensures Sorted(sorted) && Elements(sorted) == Elements(keys)
  {
    sorted := [];
    for i := 0 to |keys|
      invariant Sorted(sorted) && Elements(sorted) == Elements(keys[..i])
    {
      var at := Position(sorted, keys[i]);
      assert keys[i] !in Elements(keys[..i]);
      InsertSorted(sorted, at, keys[i]);
      sorted := sorted[..at] + [keys[i]] + sorted[at..];
      assert keys[..i + 1] == keys[..i] + [keys[i]];
    }
    assert keys[..|keys|] == keys;
  }

  /** Number of entries before `k`. */
  method Position(sorted: seq<string>, k: string) returns (at: nat)
    ensures at <= |sorted|
    ensures forall i | 0 <= i < at :: LexLE(sorted[i], k)
    ensures at < |sorted| ==> LexLE(k, sorted[at])
  {
    at := 0;
    while at < |sorted| && LexLE(sorted[at], k)
      invariant at <= |sorted|
      invariant forall i | 0 <= i < at :: LexLE(sorted[i], k)
    {
      at := at + 1;
    }
    if at < |sorted| {
      LexTotal(k, sorted[at]);
    }
  }

  lemma InsertSorted(sorted: seq<string>, at: nat, k: string)
    requires Sorted(sorted) && at <= |sorted| && k !in Elements(sorted)
    requires forall i | 0 <= i < at :: LexLE(sorted[i], k)
    requires at < |sorted| ==> LexLE(k, sorted[at])
    ensures var r := sorted[..at] + [k] + sorted[at..]; Sorted(r) && Elements(r) == Elements(sorted) + {k}
  {
    var r := sorted[..at] + [k] + sorted[at..];
    forall i | at <= i < |sorted|
      ensures LexLT(k, sorted[i])
    {
      assert sorted[i] in Elements(sorted);
      if i > at { LexTransitive(k, sorted[at], sorted[i]); }
    }
    forall i | 0 <= i < at
      ensures LexLT(sorted[i], k)
    {
      assert sorted[i] in Elements(sorted);
    }
    assert forall i | 0 <= i < |r| :: r[i] == if i < at then sorted[i] else if i == at then k else sorted[i - 1];
    assert sorted == sorted[..at] + sorted[at..];
  }

  /** The keys of a map in whatever order it is ranged over. */
  method CollectKeys(m: map<string, Json>) returns (keys: seq<string>)
    ensures Elements(keys) == m.Keys
    ensures forall i, j | 0 <= i < j < |keys| :: keys[i] != keys[j]
  {
    keys := [];
    var rest := m.Keys;
    while rest != {}
      invariant rest <= m.Keys && Elements(keys) == m.Keys - rest
      invariant forall i, j | 0 <= i < j < |keys| :: keys[i] != keys[j]
      decreases |rest|
    {
      var k :| k in rest;
      assert forall i | 0 <= i < |keys| :: keys[i] in Elements(keys);
      ElementsAppend(keys, k);
      keys := keys + [k];
      rest := rest - {k};
    }
  }

  /** What the member loop has still to write before entry `i`. */
  ghost function MembersFrom(v: Json, keys: seq<string>, i: nat): string
    requires v.Obj? && i <= |keys| && forall k <- keys :: k in v.members
  {
    if i == |keys| then "" else (if i > 0 then "," else "") + PrintMembers(v, keys[i..])
  }

  lemma MembersFromStep(v: Json, keys: seq<string>, i: nat, before: string, buf: string)
    requires v.Obj? && i < |keys| && forall k <- keys :: k in v.members
    requires var sep := if i > 0 then before + "," else before;
      buf == sep + Quote(keys[i]) + ":" + Print(v.members[keys[i]])
    ensures buf + MembersFrom(v, keys, i + 1) == before + MembersFrom(v, keys, i)
  {
    var sep, q, p := if i > 0 then "," else "", Quote(keys[i]), Print(v.members[keys[i]]);
    var member, rest := PrintMember(v, keys[i]), MembersFrom(v, keys, i + 1);
    assert before + sep == if i > 0 then before + "," else before;
    Associative(before + sep, q, ":");
    Associative(before + sep, q + ":", p);
    Associative(q, ":", p);
    assert keys[i..][1..] == keys[i + 1..];
    assert PrintMembers(v, keys[i..]) == member + rest;
    assert buf == before + sep + member;
    Associative(before + sep, member, rest);
    Associative(before, sep, member + rest);
  }

  /** What the item loop has still to write before entry `i`. */
  ghost function ItemsFrom(v: Json, i: nat): string
    requires v.Arr? && i <= |v.items|
  {
    if i == |v.items| then "" else (if i > 0 then "," else "") + PrintItems(v, i)
  }

  lemma ItemsFromStep(v: Json, i: nat, before: string, buf: string)
    requires v.Arr? && i < |v.items|
    requires buf == (if i > 0 then before + "," else before) + Print(v.items[i])
    ensures buf + ItemsFrom(v, i + 1) == before + ItemsFrom(v, i)
  {
    var sep, p, rest := if i > 0 then "," else "", Print(v.items[i]), ItemsFrom(v, i + 1);
    assert before + sep == if i > 0 then before + "," else before;
    assert PrintItems(v, i) == p + rest;
    Associative(before + sep, p, rest);
    Associative(before, sep, p + rest);
  }

  /** marshalCanonical */
  method MarshalCanonical(v: Json) returns (buf: string)
    ensures buf == Print(v)
    decreases v, 1
  {
    match v
    case Null => buf := "null";
    case Bool(b) => buf := if b then "true" else "false";
    case Num(t) => buf := t;
    case Str(s) => buf := Quote(s);
    case Obj(m) => buf := MarshalObject(v);
    case Arr(items) => buf := MarshalArray(v);
  }

  method MarshalObject(v: Json) returns (buf: string)
    requires v.Obj?
    ensures buf == Print(v)
    decreases v, 0
  {
    var keys := CollectKeys(v.members);
    keys := SortStrings(keys);
    SortedUnique(keys, SortedKeys(v.members.Keys));
    assert forall k <- keys :: k in Elements(keys);
    buf := "{";
    assert keys[0..] == keys;
    for i := 0 to |keys|
      invariant buf + MembersFrom(v, keys, i) == "{" + PrintMembers(v, keys)
    {
      ghost var before := buf;
      if i > 0 {
        buf := buf + ",";
      }
      var vb := MarshalCanonical(v.members[keys[i]]);
      buf := buf + Quote(keys[i]) + ":" + vb;
      MembersFromStep(v, keys, i, before, buf);
    }
    assert buf + "" == buf;
    buf := buf + "}";
    Associative("{", PrintMembers(v, keys), "}");
  }

  method MarshalArray(v: Json) returns (buf: string)
    requires v.Arr?
    ensures buf == Print(v)
    decreases v, 0
  {
    buf := "[";
    for i := 0 to |v.items|
      invariant buf + ItemsFrom(v, i) == "[" + PrintItems(v, 0)
    {
      ghost var before := buf;
      if i > 0 {
        buf := buf + ",";
      }
      var ib := MarshalCanonical(v.items[i]);
      buf := buf + ib;
      ItemsFromStep(v, i, before, buf);
    }
    assert buf + "" == buf;
    buf := buf + "]";
    Associative("[", PrintItems(v, 0), "]");
  }

  /** canonicalJSON on a decoded value: copy, strip, marshal. */
  method CanonicalJSON(v: Json) returns (buf: string)
    ensures buf == Canonical(v)
  {
    var stripped := v;
    if v.Obj? {
      var m := v.members;
      var reserved := RESERVED;
      while reserved != {}
        invariant reserved <= RESERVED && m == v.members - (RESERVED - reserved)
        decreases |reserved|
      {
        var k :| k in reserved;
        reserved := reserved - {k};
        m := m - {k};
        assert m == v.members - (RESERVED - reserved);
      }
      assert RESERVED - {} == RESERVED;
      stripped := Obj(m);
    }
    buf := MarshalCanonical(stripped);
  }
}

/** `JSON.stringify` on JSON values (integers for numbers), and the fact the
    comparison page relies on when it compares serialised strings: two
    values serialise alike exactly when they are the same value, member
    order included. */
module JsonStringify {
  import opened JsonValue

  predicate IsDigit(c: char)
  {
    '0' <= c <= '9'
  }

  predicate AllDigits(s: string)
  {
    forall i :: 0 <= i < |s| ==> IsDigit(s[i])
  }

  /** What may follow a number in serialised JSON: the end, or a character
      that is not a digit. */
  predicate Stops(rest: string)
  {
    rest == [] || !IsDigit(rest[0])
  }

  function DigitChar(d: nat): (c: char)
    requires d < 10
    ensures IsDigit(c) && c as int - '0' as int == d
  {
    ('0' as int + d) as char
  }

  /** Decimal digits of `n`, most significant first, without leading zeros. */
  function NatToString(n: nat): (s: string)
    ensures |s| > 0 && AllDigits(s)
  {
    if n < 10 then [DigitChar(n)] else NatToString(n / 10) + [DigitChar(n % 10)]
  }

  /** The number a string of decimal digits denotes. */
  function DigitsValue(s: string): nat
    requires AllDigits(s)
  {
    if s == [] then 0 else DigitsValue(s[..|s| - 1]) * 10 + (s[|s| - 1] as int - '0' as int)
  }

  lemma {:induction false} NatToStringValue(n: nat)
    ensures DigitsValue(NatToString(n)) == n
  {
    if n >= 10 {
      var s := NatToString(n);
      assert s[..|s| - 1] == NatToString(n / 10);
      NatToStringValue(n / 10);
    }
  }

  /** `String(n)` and `JSON.stringify(n)` for an integer `n`. */
  function IntToString(n: int): (s: string)
    ensures |s| > 0
    ensures s[0] == '-' <==> n < 0
    ensures n >= 0 ==> IsDigit(s[0])
  {
    if n < 0 then "-" + NatToString(-n) else NatToString(n)
  }

  const Hex := "0123456789abcdef"

  /** How `JSON.stringify` writes one character inside a string literal. */
  function Escape(c: char): (e: string)
    ensures || (e == [c] && c != '"' && c != '\\')
            || (|e| == 2 && e[0] == '\\' && e[1] in "\"\\bfnrt")
            || (|e| == 6 && e[0] == '\\' && e[1] == 'u')
  {
    if c == '"' then "\\\""
    else if c == '\\' then "\\\\"
    else if c as int == 8 then "\\b"
    else if c as int == 12 then "\\f"
    else if c == '\n' then "\\n"
    else if c == '\r' then "\\r"
    else if c == '\t' then "\\t"
    else if c as int < 0x20 then "\\u00" + [Hex[c as int / 16], Hex[c as int % 16]]
    else [c]
  }

  function EscapeAll(s: string): (e: string)
    ensures s == [] <==> e == []
    ensures s != [] ==> e == Escape(s[0]) + EscapeAll(s[1..]) && e[0] != '"'
  {
    if s == [] then [] else Escape(s[0]) + EscapeAll(s[1..])
  }

  /** A string literal: quotes around the escaped characters. */
  function Quote(s: string): string
  {
    "\"" + EscapeAll(s) + "\""
  }

  /** `JSON.stringify(v)`. Its first character tells which kind of value
      was written. */
  function Stringify(v: Json): (s: string)
    ensures |s| > 0
    ensures v.Null? <==> s[0] == 'n'
    ensures v.Bool? <==> s[0] in "tf"
    ensures v.Bool? ==> (v.b <==> s[0] == 't')
    ensures v.Num? <==> s[0] == '-' || IsDigit(s[0])
    ensures v.Str? <==> s[0] == '"'
    ensures v.Arr? <==> s[0] == '['
    ensures v.Obj? <==> s[0] == '{'
    decreases v
  {
    match v
    case Null => "null"
    case Bool(b) => if b then "true" else "false"
    case Num(n) => IntToString(n)
    case Str(s) => Quote(s)
    case Arr(items) => "[" + Items(items)
    case Obj(fields) => "{" + Members(fields)
  }

  /** The elements of an array after its opening bracket, comma separated,
      with the closing bracket. */
  function Items(items: seq<Json>): (s: string)
    ensures |s| > 0 && (s[0] == ']' <==> items == [])
    decreases items
  {
    if items == [] then "]"
    else Stringify(items[0]) + (if |items| == 1 then "]" else "," + Items(items[1..]))
  }

  /** The members of an object after its opening brace, comma separated,
      with the closing brace. */
  function Members(fields: seq<(string, Json)>): (s: string)
    ensures |s| > 0 && (s[0] == '}' <==> fields == [])
    decreases fields
  {
    if fields == [] then "}"
    else
      var (key, value) := fields[0];
      assert value < fields[0];
      Quote(key) + ":" + Stringify(value) +
         (if |fields| == 1 then "}" else "," + Members(fields[1..]))
  }

  /** `JSON.stringify` of a value that may be `undefined`: `undefined`
      serialises to `undefined`, not to a string. */
  function StringifyOpt(v: Option<Json>): Option<string>
  {
    if v.Some? then Some(Stringify(v.value)) else None
  }

  /** Serialisation is injective: two values serialise to the same string
      exactly when they are the same value. Comparing `JSON.stringify`
      output is therefore comparing values, member order included. */
  lemma StringifyInjective(a: Json, b: Json)
    ensures Stringify(a) == Stringify(b) <==> a == b
  {
    if Stringify(a) == Stringify(b) {
      assert Stringify(a) + [] == Stringify(b) + [];
      StringifyPrefix(a, b, [], []);
    }
  }

  /** The same for values that may be `undefined`. */
  lemma StringifyOptInjective(a: Option<Json>, b: Option<Json>)
    ensures StringifyOpt(a) == StringifyOpt(b) <==> a == b
  {
    if a.Some? && b.Some? {
      StringifyInjective(a.value, b.value);
    }
  }

  /** A serialised value followed by text that cannot continue a number is
      read back unambiguously: the value and what follows are both fixed. */
  lemma {:induction false} StringifyPrefix(a: Json, b: Json, ra: string, rb: string)
    requires Stringify(a) + ra == Stringify(b) + rb
    requires Stops(ra) && Stops(rb)
    ensures a == b && ra == rb
    decreases a
  {
    var sa, sb := Stringify(a), Stringify(b);
    assert sa[0] == sb[0] by { HeadOf(sa, ra, sb, rb); }
    match a
    case Null =>
      CancelHeads(sa, sb, ra, rb);
    case Bool(x) =>
      CancelHeads(sa, sb, ra, rb);
    case Num(n) =>
      IntPrefix(n, b.n, ra, rb);
    case Str(s) =>
      QuotePrefix(s, b.s, ra, rb);
    case Arr(xs) =>
      Assoc("[", Items(xs), ra);
      Assoc("[", Items(b.items), rb);
      CancelHeads("[", "[", Items(xs) + ra, Items(b.items) + rb);
      ItemsPrefix(xs, b.items, ra, rb);
    case Obj(fs) =>
      Assoc("{", Members(fs), ra);
      Assoc("{", Members(b.fields), rb);
      CancelHeads("{", "{", Members(fs) + ra, Members(b.fields) + rb);
      MembersPrefix(fs, b.fields, ra, rb);
  }

  lemma {:induction false} ItemsPrefix(xs: seq<Json>, ys: seq<Json>, ra: string, rb: string)
    requires Items(xs) + ra == Items(ys) + rb
    ensures xs == ys && ra == rb
    decreases xs
  {
    HeadOf(Items(xs), ra, Items(ys), rb);
    if xs == [] {
      CancelHeads(Items(xs), Items(ys), ra, rb);
    } else {
      var tx := if |xs| == 1 then "]" else "," + Items(xs[1..]);
      var ty := if |ys| == 1 then "]" else "," + Items(ys[1..]);
      Assoc(Stringify(xs[0]), tx, ra);
      Assoc(Stringify(ys[0]), ty, rb);
      StringifyPrefix(xs[0], ys[0], tx + ra, ty + rb);
      HeadOf(tx, ra, ty, rb);
      if |xs| == 1 {
        CancelHeads(tx, ty, ra, rb);
        assert xs == [xs[0]] && ys == [ys[0]];
      } else {
        Assoc(",", Items(xs[1..]), ra);
        Assoc(",", Items(ys[1..]), rb);
        CancelHeads(",", ",", Items(xs[1..]) + ra, Items(ys[1..]) + rb);
        ItemsPrefix(xs[1..], ys[1..], ra, rb);
        assert xs == [xs[0]] + xs[1..];
        assert ys == [ys[0]] + ys[1..];
      }
    }
  }

  lemma {:induction false} MembersPrefix(fs: seq<(string, Json)>, gs: seq<(string, Json)>, ra: string, rb: string)
    requires Members(fs) + ra == Members(gs) + rb
    ensures fs == gs && ra == rb
    decreases fs
  {
    HeadOf(Members(fs), ra, Members(gs), rb);
    if fs == [] {
      CancelHeads(Members(fs), Members(gs), ra, rb);
    } else {
      var (k1, v1) := fs[0];
      var (k2, v2) := gs[0];
      var tx := if |fs| == 1 then "}" else "," + Members(fs[1..]);
      var ty := if |gs| == 1 then "}" else "," + Members(gs[1..]);
      var x := Stringify(v1) + (tx + ra);
      var y := Stringify(v2) + (ty + rb);
      MemberSplit(k1, v1, tx, ra);
      MemberSplit(k2, v2, ty, rb);
      QuotePrefix(k1, k2, ":" + x, ":" + y);
      CancelHeads(":", ":", x, y);
      assert v1 < fs[0];
      StringifyPrefix(v1, v2, tx + ra, ty + rb);
      HeadOf(tx, ra, ty, rb);
      if |fs| == 1 {
        CancelHeads(tx, ty, ra, rb);
        assert fs == [fs[0]] && gs == [gs[0]];
      } else {
        Assoc(",", Members(fs[1..]), ra);
        Assoc(",", Members(gs[1..]), rb);
        CancelHeads(",", ",", Members(fs[1..]) + ra, Members(gs[1..]) + rb);
        MembersPrefix(fs[1..], gs[1..], ra, rb);
        assert fs == [fs[0]] + fs[1..];
        assert gs == [gs[0]] + gs[1..];
      }
    }
  }

  /** Regroups a serialised member followed by more text. */
  lemma MemberSplit(k: string, v: Json, t: string, r: string)
    ensures Quote(k) + ":" + Stringify(v) + t + r == Quote(k) + (":" + (Stringify(v) + (t + r)))
  {
  }

  lemma {:induction false} QuotePrefix(s: string, t: string, ra: string, rb: string)
    requires Quote(s) + ra == Quote(t) + rb
    ensures s == t && ra == rb
  {
    QuoteSplit(s, ra);
    QuoteSplit(t, rb);
    CancelHeads("\"", "\"", EscapeAll(s) + ("\"" + ra), EscapeAll(t) + ("\"" + rb));
    EscapedPrefix(s, t, ra, rb);
  }

  lemma QuoteSplit(s: string, r: string)
    ensures Quote(s) + r == "\"" + (EscapeAll(s) + ("\"" + r))
  {
    Assoc("\"" + EscapeAll(s), "\"", r);
    Assoc("\"", EscapeAll(s), "\"" + r);
  }

  lemma {:induction false} EscapedPrefix(s: string, t: string, ra: string, rb: string)
    requires EscapeAll(s) + ("\"" + ra) == EscapeAll(t) + ("\"" + rb)
    ensures s == t && ra == rb
    decreases s
  {
    var l := EscapeAll(s) + ("\"" + ra);
    assert l[0] == '"' <==> s == [];
    assert l[0] == '"' <==> t == [] by { assert l == EscapeAll(t) + ("\"" + rb); }
    if s == [] {
      assert EscapeAll(s) + ("\"" + ra) == "\"" + ra;
      assert EscapeAll(t) + ("\"" + rb) == "\"" + rb;
      CancelHeads("\"", "\"", ra, rb);
    } else {
      var x := EscapeAll(s[1..]) + ("\"" + ra);
      var y := EscapeAll(t[1..]) + ("\"" + rb);
      Assoc(Escape(s[0]), EscapeAll(s[1..]), "\"" + ra);
      Assoc(Escape(t[0]), EscapeAll(t[1..]), "\"" + rb);
      assert l == Escape(s[0]) + x;
      assert l == Escape(t[0]) + y by { assert l == EscapeAll(t) + ("\"" + rb); }
      EscapePrefix(s[0], t[0], x, y);
      EscapedPrefix(s[1..], t[1..], ra, rb);
      assert s == [s[0]] + s[1..];
      assert t == [t[0]] + t[1..];
    }
  }

  /** No escape sequence is a proper prefix of another. */
  lemma EscapePrefix(c: char, d: char, x: string, y: string)
    requires Escape(c) + x == Escape(d) + y
    ensures c == d && x == y
  {
    var e, f := Escape(c), Escape(d);
    HeadOf(e, x, f, y);
    if e[0] == '\\' {
      assert e[1] == f[1] by {
        assert e[1] == (e + x)[1];
        assert f[1] == (f + y)[1];
      }
    }
    CancelHeads(e, f, x, y);
    EscapeInjective(c, d);
  }

  lemma EscapeInjective(c: char, d: char)
    requires Escape(c) == Escape(d)
    ensures c == d
  {
    var e := Escape(c);
    if |e| == 6 {
      assert e[4] == Hex[c as int / 16] && e[5] == Hex[c as int % 16];
      assert e[4] == Hex[d as int / 16] && e[5] == Hex[d as int % 16];
      HexInjective(c as int / 16, d as int / 16);
      HexInjective(c as int % 16, d as int % 16);
    }
  }

  lemma HexInjective(i: int, j: int)
    requires 0 <= i < 16 && 0 <= j < 16
    requires Hex[i] == Hex[j]
    ensures i == j
  {
  }

  /** Runs of digits each followed by something that is not a digit. */
  lemma {:induction false} DigitsPrefix(sa: string, sb: string, ra: string, rb: string)
    requires AllDigits(sa) && AllDigits(sb) && Stops(ra) && Stops(rb)
    requires sa + ra == sb + rb
    ensures sa == sb && ra == rb
  {
    LongerRun(sa, sb, ra, rb);
    LongerRun(sb, sa, rb, ra);
    CancelHeads(sa, sb, ra, rb);
  }

  /** When the first run of digits is the shorter one, what follows it
      starts with a digit. */
  lemma LongerRun(sa: string, sb: string, ra: string, rb: string)
    requires AllDigits(sb) && sa + ra == sb + rb
    ensures |sa| < |sb| ==> ra != [] && IsDigit(ra[0])
  {
    if |sa| < |sb| {
      assert (sa + ra)[|sa|] == sb[|sa|];
    }
  }

  lemma {:induction false} IntPrefix(a: int, b: int, ra: string, rb: string)
    requires IntToString(a) + ra == IntToString(b) + rb
    requires Stops(ra) && Stops(rb)
    ensures a == b && ra == rb
  {
    var sa, sb := IntToString(a), IntToString(b);
    HeadOf(sa, ra, sb, rb);
    var na: nat := if a < 0 then -a else a;
    var nb: nat := if b < 0 then -b else b;
    if a < 0 {
      Assoc("-", NatToString(na), ra);
      Assoc("-", NatToString(nb), rb);
      CancelHeads("-", "-", NatToString(na) + ra, NatToString(nb) + rb);
    }
    DigitsPrefix(NatToString(na), NatToString(nb), ra, rb);
    NatToStringValue(na);
    NatToStringValue(nb);
  }

  lemma Assoc(a: string, b: string, c: string)
    ensures a + b + c == a + (b + c)
  {
  }

  /** Two equal strings made of non-empty heads start alike. */
  lemma HeadOf(p: string, x: string, q: string, y: string)
    requires p + x == q + y && |p| > 0 && |q| > 0
    ensures p[0] == q[0]
  {
    assert p[0] == (p + x)[0];
    assert q[0] == (q + y)[0];
  }

  /** Equal strings split after heads of the same length split alike. */
  lemma CancelHeads(p: string, q: string, x: string, y: string)
    requires p + x == q + y && |p| == |q|
    ensures p == q && x == y
  {
    assert p == (p + x)[..|p|];
    assert q == (q + y)[..|q|];
    assert x == (p + x)[|p|..];
    assert y == (q + y)[|q|..];
  }
}

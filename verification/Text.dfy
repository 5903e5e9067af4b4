/** The Go string operations the controllers build names, keys and codecs from.
    A Go string is a byte sequence; the model keeps one `char` per byte. */
module Text {

  datatype Option<+T> = None | Some(value: T)

  /** `ptr.Deref`: the pointed-to value, or the default for a nil pointer. */
  function Deref<T>(o: Option<T>, default: T): T {
    if o.Some? then o.value else default
  }

  /** A one-character separator as a string. */
  function Sep(c: char): string { [c] }

  /** Position of the first occurrence of `c`. */
  function IndexOf(s: string, c: char): (i: nat)
    requires c in s
    ensures i < |s| && s[i] == c && c !in s[..i]
  {
    if s[0] == c then 0 else
      assert s == [s[0]] + s[1..];
      var i := 1 + IndexOf(s[1..], c);
      assert s[..i] == [s[0]] + s[1..][..i - 1];
      i
  }

  lemma {:induction false} IndexOfIs(s: string, c: char, i: nat)
    requires i < |s| && s[i] == c && c !in s[..i]
    ensures IndexOf(s, c) == i
  {
    if i > 0 {
      assert s[0] == s[..i][0];
      assert s[1..][..i - 1] == s[..i][1..];
      IndexOfIs(s[1..], c, i - 1);
    }
  }

  /** `strings.LastIndex`. */
  function LastIndexOf(s: string, c: char): (i: nat)
    requires c in s
    ensures i < |s| && s[i] == c && c !in s[i + 1..]
  {
    if s[|s| - 1] == c then |s| - 1 else
      assert s == s[..|s| - 1] + [s[|s| - 1]];
      var i := LastIndexOf(s[..|s| - 1], c);
      assert s[i + 1..] == s[..|s| - 1][i + 1..] + [s[|s| - 1]];
      i
  }

  lemma {:induction false} LastIndexOfIs(s: string, c: char, i: nat)
    requires i < |s| && s[i] == c && c !in s[i + 1..]
    ensures LastIndexOf(s, c) == i
    decreases |s|
  {
    if i < |s| - 1 {
      var t := s[..|s| - 1];
      assert s[|s| - 1] == s[i + 1..][|s| - 2 - i];
      assert t[i + 1..] == s[i + 1..][..|s| - 2 - i];
      LastIndexOfIs(t, c, i);
    }
  }

  /** `strings.Split` with a one-character separator. */
  function Split(s: string, sep: char): (parts: seq<string>)
    ensures |parts| >= 1
    ensures |parts| == 1 <==> sep !in s
    decreases |s|
  {
    if sep !in s then [s] else
      var i := IndexOf(s, sep);
      [s[..i]] + Split(s[i + 1..], sep)
  }

  /** `strings.Join` with a one-character separator. */
  function Join(parts: seq<string>, sep: char): string {
    if |parts| == 0 then "" else if |parts| == 1 then parts[0]
    else parts[0] + Sep(sep) + Join(parts[1..], sep)
  }

  /** Splitting at the first separator. */
  lemma SplitAtFirst(s: string, a: string, b: string, sep: char)
    requires sep !in a && s == a + Sep(sep) + b
    ensures Split(s, sep) == [a] + Split(b, sep)
  {
    assert s[|a|] == sep && s[..|a|] == a && s[|a| + 1..] == b;
    IndexOfIs(s, sep, |a|);
  }

  lemma Regroup(head: string, rest: string, b: string, sep: char)
    ensures head + Sep(sep) + rest + Sep(sep) + b == head + Sep(sep) + (rest + Sep(sep) + b)
  {
  }

  /** Splitting at any separator splits both sides independently. */
  lemma {:induction false} SplitConcat(s: string, a: string, b: string, sep: char)
    requires s == a + Sep(sep) + b
    ensures Split(s, sep) == Split(a, sep) + Split(b, sep)
    decreases |a|
  {
    if sep in a {
      var i := IndexOf(a, sep);
      var head, rest := a[..i], a[i + 1..];
      var tail := rest + Sep(sep) + b;
      assert a == head + Sep(sep) + rest;
      Regroup(head, rest, b, sep);
      SplitConcat(tail, rest, b, sep);
      SplitAtFirst(a, head, rest, sep);
      SplitAtFirst(s, head, tail, sep);
    } else {
      SplitAtFirst(s, a, b, sep);
    }
  }

  predicate AllFree(parts: seq<string>, sep: char) {
    forall i :: 0 <= i < |parts| ==> sep !in parts[i]
  }

  /** Splitting a joined list never yields fewer parts than were joined. It yields as many
      exactly when no part holds the separator, and then it yields the parts themselves. */
  lemma {:induction false} SplitJoin(parts: seq<string>, sep: char)
    requires |parts| > 0
    ensures |Split(Join(parts, sep), sep)| >= |parts|
    ensures |Split(Join(parts, sep), sep)| == |parts| <==> AllFree(parts, sep)
    ensures AllFree(parts, sep) ==> Split(Join(parts, sep), sep) == parts
  {
    if |parts| == 1 {
      assert parts == [parts[0]];
    } else {
      SplitConcat(Join(parts, sep), parts[0], Join(parts[1..], sep), sep);
      SplitJoin(parts[1..], sep);
      assert parts == [parts[0]] + parts[1..];
      assert AllFree(parts, sep) <==> sep !in parts[0] && AllFree(parts[1..], sep);
    }
  }

  lemma JoinCons(a: string, rest: seq<string>, sep: char)
    requires rest != []
    ensures Join([a] + rest, sep) == a + Sep(sep) + Join(rest, sep)
  {
    assert ([a] + rest)[1..] == rest;
  }

  lemma ConcatAssociates<T>(x: seq<T>, y: seq<T>, z: seq<T>)
    ensures x + y + z == x + (y + z)
  {
  }

  lemma {:induction false} JoinSnoc(parts: seq<string>, last: string, sep: char)
    ensures Join(parts + [last], sep) == if parts == [] then last else Join(parts, sep) + Sep(sep) + last
  {
    if |parts| == 1 {
      assert (parts + [last])[1..] == [last];
    } else if parts != [] {
      JoinSnoc(parts[1..], last, sep);
      assert (parts + [last])[1..] == parts[1..] + [last];
      assert parts[0] + Sep(sep) + (Join(parts[1..], sep) + Sep(sep) + last)
          == parts[0] + Sep(sep) + Join(parts[1..], sep) + Sep(sep) + last;
    }
  }

  /** Two non-empty lists of separator-free parts with the same join are the same list. */
  lemma {:induction false} JoinInjective(a: seq<string>, b: seq<string>, sep: char)
    requires |a| > 0 && |b| > 0 && AllFree(a, sep) && AllFree(b, sep)
    requires Join(a, sep) == Join(b, sep)
    ensures a == b
  {
    SplitJoin(a, sep);
    SplitJoin(b, sep);
  }

  /** Equal concatenations with equally long tails have equal tails and equal heads. */
  lemma SameTail(x: string, a: string, y: string, b: string)
    requires x + a == y + b && |a| == |b|
    ensures x == y && a == b
  {
    assert x == (x + a)[..|x|] && a == (x + a)[|x|..];
    assert y == (y + b)[..|y|] && b == (y + b)[|y|..];
  }

  /** `%s<sep>%s` is injective when the SECOND component never holds the separator. */
  lemma LastSepInjective(a: string, b: string, c: string, d: string, sep: char)
    requires sep !in b && sep !in d
    requires a + Sep(sep) + b == c + Sep(sep) + d
    ensures a == c && b == d
  {
    var s := a + Sep(sep) + b;
    assert s[|a|] == sep && s[|a| + 1..] == b;
    assert s[|c|] == sep && s[|c| + 1..] == d;
    LastIndexOfIs(s, sep, |a|);
    LastIndexOfIs(s, sep, |c|);
    assert a == s[..|a|] && c == s[..|a|];
  }

  /** `%s<sep>%s` is injective when the FIRST component never holds the separator. */
  lemma FirstSepInjective(a: string, b: string, c: string, d: string, sep: char)
    requires sep !in a && sep !in c
    requires a + Sep(sep) + b == c + Sep(sep) + d
    ensures a == c && b == d
  {
    var s := a + Sep(sep) + b;
    assert s[|a|] == sep && s[..|a|] == a;
    assert s[|c|] == sep && s[..|c|] == c;
    IndexOfIs(s, sep, |a|);
    IndexOfIs(s, sep, |c|);
    assert b == s[|a| + 1..] && d == s[|a| + 1..];
  }

  /** "r-b" and "q-c" are one string cut at two different dashes, the first one earlier. */
  ghost predicate CutDifferently(r: string, b: string, q: string, c: string) {
    exists x :: q == r + "-" + x && b == x + "-" + c
  }

  lemma CutGives(r: string, b: string, q: string, c: string)
    requires r + "-" + b == q + "-" + c && |r| < |q|
    ensures CutDifferently(r, b, q, c)
  {
    var s := r + "-" + b;
    assert s[..|r|] == r && s[|r| + 1..] == b;
    assert s[..|q|] == q && s[|q|] == '-' && s[|q| + 1..] == c;
    var x := s[|r| + 1..|q|];
    assert q == r + "-" + x;
    assert b == x + "-" + c;
  }

  /** `%s-%s` gives one string for two pairs exactly when they are equal or cut it differently. */
  lemma StemsEqualIff(r: string, b: string, q: string, c: string)
    ensures r + "-" + b == q + "-" + c <==>
              (r == q && b == c) || CutDifferently(r, b, q, c) || CutDifferently(q, c, r, b)
  {
    var s, t := r + "-" + b, q + "-" + c;
    if s == t {
      if |r| < |q| {
        CutGives(r, b, q, c);
      } else if |q| < |r| {
        CutGives(q, c, r, b);
      } else {
        assert s[..|r|] == r && t[..|q|] == q && s[|r| + 1..] == b && t[|q| + 1..] == c;
      }
    }
  }

  /* ---- Decimal numbers ---- */

  predicate IsDigit(c: char) { '0' <= c <= '9' }

  predicate AllDigits(s: string) { forall i :: 0 <= i < |s| ==> IsDigit(s[i]) }

  function Digit(d: nat): (c: char)
    requires d < 10
    ensures IsDigit(c) && c as int - '0' as int == d
  {
    ('0' as int + d) as char
  }

  /** The number a digit string denotes. */
  function Value(s: string): nat
    requires AllDigits(s)
  {
    if s == "" then 0 else 10 * Value(s[..|s| - 1]) + (s[|s| - 1] as int - '0' as int)
  }

  /** `%d` of a natural number. */
  function Digits(n: nat): (s: string)
    ensures AllDigits(s) && s != ""
  {
    if n < 10 then [Digit(n)] else Digits(n / 10) + [Digit(n % 10)]
  }

  lemma {:induction false} ValueDigits(n: nat)
    ensures Value(Digits(n)) == n
  {
    var s := Digits(n);
    if n >= 10 {
      ValueDigits(n / 10);
      assert s[..|s| - 1] == Digits(n / 10);
    } else {
      assert s[..|s| - 1] == "";
    }
  }

  /** Leading zeros do not change the number. */
  lemma {:induction false} ValueZeroes(s: string)
    requires AllDigits(s)
    ensures Value("0" + s) == Value(s)
    decreases |s|
  {
    var t := "0" + s;
    if s == "" {
      assert t[..|t| - 1] == "";
    } else {
      ValueZeroes(s[..|s| - 1]);
      assert t[..|t| - 1] == "0" + s[..|s| - 1];
    }
  }

  /** `%d` of an integer. */
  function Itoa(n: int): string { if n < 0 then "-" + Digits(-n) else Digits(n) }

  /** `%03d` of a natural number. */
  function Pad3(n: nat): (s: string)
    ensures AllDigits(s) && |s| >= 3
  {
    var s := Digits(n);
    if |s| == 1 then "00" + s else if |s| == 2 then "0" + s else s
  }

  lemma ValuePad3(n: nat)
    ensures Value(Pad3(n)) == n
  {
    var s := Digits(n);
    ValueDigits(n);
    ValueZeroes(s);
    ValueZeroes("0" + s);
    assert "0" + ("0" + s) == "00" + s;
  }

  lemma Pad3Short(n: nat)
    requires n < 1000
    ensures |Pad3(n)| == 3
  {
    assert n / 10 < 10 ==> |Digits(n / 10)| == 1;
    assert 10 <= n / 10 < 100 ==> |Digits(n / 10)| == 2;
  }

  const MIN_INT32 := -0x8000_0000
  const MAX_INT32 := 0x7fff_ffff

  /** `strconv.ParseInt(s, 10, 32)`: an optional sign, at least one digit, 32-bit range. */
  function ParseInt32(s: string): Option<int> {
    var signed := s != "" && (s[0] == '-' || s[0] == '+');
    var body := if signed then s[1..] else s;
    if body == "" || !AllDigits(body) then None else
      var v: int := Value(body);
      var n := if signed && s[0] == '-' then -v else v;
      if MIN_INT32 <= n <= MAX_INT32 then Some(n) else None
  }

  /** The parser reads back every 32-bit number the printer writes. */
  lemma ParseDigits(n: nat)
    requires n <= MAX_INT32
    ensures ParseInt32(Digits(n)) == Some(n)
  {
    ValueDigits(n);
    var s := Digits(n);
    assert IsDigit(s[0]);
  }
}

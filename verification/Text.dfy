/** Printing and sorting: Go's %d, %s/%d keys, and the order of sort.Strings. */
module Text {
  import opened Basics

  function Digit(d: nat): char
    requires d < 10
  {
    "0123456789"[d]
  }

  /** fmt's %d for a value that is not negative. */
  function Decimal(n: nat): (s: string)
    ensures s != []
    ensures forall c | c in s :: '0' <= c <= '9'
  {
    if n < 10 then [Digit(n)] else Decimal(n / 10) + [Digit(n % 10)]
  }

  predicate AllDigits(s: string) {
    forall i | 0 <= i < |s| :: '0' <= s[i] <= '9'
  }

  /** The number that digits stand for. */
  function Value(s: string): nat
    requires AllDigits(s)
  {
    if s == [] then 0 else
      assert AllDigits(s[..|s| - 1]);
      assert '0' <= s[|s| - 1] <= '9';
      10 * Value(s[..|s| - 1]) + (s[|s| - 1] as int - '0' as int)
  }

  /** Reading what was printed gives the number back, and nothing is printed before it. */
  lemma {:induction false} DecimalReads(n: nat)
    ensures AllDigits(Decimal(n)) && Value(Decimal(n)) == n
    ensures Decimal(n)[0] == '0' ==> Decimal(n) == "0"
  {
    assert forall d | 0 <= d < 10 :: Digit(d) as int == '0' as int + d;
    var s := Decimal(n);
    if n < 10 {
      assert s[..0] == [] && Value([]) == 0;
    } else {
      DecimalReads(n / 10);
      assert s[..|s| - 1] == Decimal(n / 10) && s[|s| - 1] == Digit(n % 10) && s[0] == Decimal(n / 10)[0];
    }
  }

  lemma DecimalInjective(m: nat, n: nat)
    requires Decimal(m) == Decimal(n)
    ensures m == n
  {
    DecimalReads(m);
    DecimalReads(n);
  }

  /** A text, a separator that is no digit, and a number: what is printed determines both, whatever the
      text, since the number is what follows the last separator. */
  lemma PairInjective(separator: char, p: string, m: nat, q: string, n: nat)
    requires !('0' <= separator <= '9')
    requires p + [separator] + Decimal(m) == q + [separator] + Decimal(n)
    ensures p == q && m == n
  {
    LastSeparator(separator, p, m);
    LastSeparator(separator, q, n);
    var whole := p + [separator] + Decimal(m);
    assert whole == q + [separator] + Decimal(n);
    assert |p| == |q|;
    assert p == whole[..|p|] == q;
    assert Decimal(m) == whole[|p| + 1..] == Decimal(n);
    DecimalInjective(m, n);
  }

  lemma LastSeparator(separator: char, p: string, m: nat)
    requires !('0' <= separator <= '9')
    ensures var whole := p + [separator] + Decimal(m);
            whole[|p|] == separator && forall i | |p| < i < |whole| :: whole[i] != separator
  {
    var whole := p + [separator] + Decimal(m);
    forall i | |p| < i < |whole|
      ensures whole[i] != separator
    {
      assert whole[i] == Decimal(m)[i - |p| - 1];
      assert whole[i] in Decimal(m);
    }
  }

  /** fmt.Sprintf("%s/%d", p, m) in particular. */
  lemma SlashKeyInjective(p: string, m: nat, q: string, n: nat)
    requires p + "/" + Decimal(m) == q + "/" + Decimal(n)
    ensures p == q && m == n
  {
    PairInjective('/', p, m, q, n);
  }

  /** strconv.ParseUint(s, 10, 64). */
  function ParseUint64(s: string): (r: Option<nat>)
    ensures r.Some? ==> s != [] && r.value < 0x1_0000_0000_0000_0000
  {
    if s == [] || !AllDigits(s) then None
    else if Value(s) < 0x1_0000_0000_0000_0000 then Some(Value(s)) else None
  }

  lemma ParsePrinted(n: nat)
    ensures ParseUint64(Decimal(n)) == if n < 0x1_0000_0000_0000_0000 then Some(n) else None
  {
    DecimalReads(n);
  }

  /** The order sort.Strings sorts by. */
  predicate Less(a: string, b: string) {
    b != [] && (a == [] || a[0] < b[0] || (a[0] == b[0] && Less(a[1..], b[1..])))
  }

  /** The first difference between the two is here, and the first string has the smaller character. */
  predicate SmallerAt(a: string, b: string, i: nat) {
    i < |a| && i < |b| && a[..i] == b[..i] && a[i] < b[i]
  }

  /** One string is less than another if and only if it is a proper prefix of it or smaller at the first
      difference. */
  lemma {:induction false} LessMeans(a: string, b: string)
    ensures Less(a, b) <==> a < b || exists i: nat :: SmallerAt(a, b, i)
  {
    if a == [] || b == [] {
      assert a < b <==> a == [] && b != [];
    } else if a[0] != b[0] {
      if a[0] < b[0] { assert SmallerAt(a, b, 0); }
      assert forall i: nat | SmallerAt(a, b, i) :: i > 0 ==> a[..i][0] == b[..i][0];
    } else {
      LessMeans(a[1..], b[1..]);
      assert a == [a[0]] + a[1..] && b == [b[0]] + b[1..];
      forall i: nat
        ensures SmallerAt(a, b, i + 1) <==> SmallerAt(a[1..], b[1..], i)
      {
        SmallerLater(a, b, i);
      }
      if i: nat :| SmallerAt(a, b, i) {
        assert i > 0;
        SmallerLater(a, b, i - 1);
      }
    }
  }

  lemma SmallerLater(a: string, b: string, i: nat)
    requires a != [] && b != [] && a[0] == b[0]
    ensures SmallerAt(a, b, i + 1) <==> SmallerAt(a[1..], b[1..], i)
  {
    if i < |a| - 1 && i < |b| - 1 {
      assert a[..i + 1] == [a[0]] + a[1..][..i] && b[..i + 1] == [b[0]] + b[1..][..i];
      assert a[1..][..i] == a[..i + 1][1..] && b[1..][..i] == b[..i + 1][1..];
    }
  }

  lemma {:induction false} LessTransitive(a: string, b: string, c: string)
    requires Less(a, b) && Less(b, c)
    ensures Less(a, c)
  {
    if a != [] && a[0] == b[0] == c[0] {
      LessTransitive(a[1..], b[1..], c[1..]);
    }
  }

  lemma {:induction false} LessTotal(a: string, b: string)
    ensures Less(a, b) || Less(b, a) || a == b
    ensures !(Less(a, b) && Less(b, a)) && (a == b ==> !Less(a, b))
  {
    if a != [] && b != [] {
      LessTotal(a[1..], b[1..]);
      if a[0] == b[0] && a[1..] == b[1..] {
        assert a == [a[0]] + a[1..] && b == [b[0]] + b[1..];
      }
    }
  }

  ghost predicate Sorted(s: seq<string>) {
    forall i, j | 0 <= i < j < |s| :: Less(s[i], s[j])
  }

  /** A set of strings has one sorted listing. */
  lemma {:induction false} SortedUnique(s: seq<string>, t: seq<string>)
    requires Sorted(s) && Sorted(t)
    requires forall k :: k in s <==> k in t
    ensures s == t
  {
    if s == [] {
      EmptyOrHasElement(t);
    } else {
      assert s[0] in t;
      assert t[0] in s;
      if s[0] != t[0] {
        var i :| 0 <= i < |t| && t[i] == s[0];
        var j :| 0 <= j < |s| && s[j] == t[0];
        assert Less(t[0], t[i]) && Less(s[0], s[j]);
        LessTotal(s[0], t[0]);
      }
      forall k
        ensures k in s[1..] <==> k in t[1..]
      {
        LessTotal(s[0], s[0]);
        if k in s[1..] { assert k in s && Less(s[0], k); assert k in t; assert k != t[0]; }
        if k in t[1..] { assert k in t && Less(t[0], k); assert k in s; assert k != s[0]; }
      }
      SortedUnique(s[1..], t[1..]);
      assert s == [s[0]] + s[1..] && t == [t[0]] + t[1..];
    }
  }

  lemma {:induction false} SomeSorted(keys: set<string>) returns (sorted: seq<string>)
    ensures Sorted(sorted) && forall k :: k in sorted <==> k in keys
    decreases |keys|
  {
    if keys == {} {
      sorted := [];
    } else {
      var k :| k in keys;
      var rest := SomeSorted(keys - {k});
      sorted := SortedWith(rest, k);
    }
  }

  lemma {:induction false} SortedWith(s: seq<string>, k: string) returns (r: seq<string>)
    requires Sorted(s) && k !in s
    ensures Sorted(r) && forall x :: x in r <==> x == k || x in s
  {
    if s == [] || Less(k, s[0]) {
      r := [k] + s;
      forall j | 0 <= j < |s|
        ensures Less(k, s[j])
      {
        if j > 0 { LessTransitive(k, s[0], s[j]); }
      }
    } else {
      var rest := SortedWith(s[1..], k);
      LessTotal(k, s[0]);
      assert s == [s[0]] + s[1..];
      r := [s[0]] + rest;
      forall j | 0 <= j < |rest|
        ensures Less(s[0], rest[j])
      {
        assert rest[j] in rest;
      }
    }
  }

  /** Collects the keys of a map, in whatever order the range statement yields them, and sorts
      them. */
  method SortedKeys(keys: set<string>) returns (sorted: seq<string>)
    ensures Sorted(sorted)
    ensures forall k :: k in sorted <==> k in keys
  {
    sorted := [];
    var todo := keys;
    while todo != {}
      invariant todo <= keys
      invariant Sorted(sorted)
      invariant forall k :: k in sorted <==> k in keys && k !in todo
    {
      var k :| k in todo;
      sorted := Insert(sorted, k);
      todo := todo - {k};
    }
  }

  method Insert(s: seq<string>, k: string) returns (r: seq<string>)
    requires Sorted(s) && k !in s
    ensures Sorted(r)
    ensures forall x :: x in r <==> x == k || x in s
  {
    var i := 0;
    while i < |s| && Less(s[i], k)
      invariant 0 <= i <= |s|
      invariant forall j | 0 <= j < i :: Less(s[j], k)
    {
      i := i + 1;
    }
    r := s[..i] + [k] + s[i..];
    forall j | i <= j < |s|
      ensures Less(k, s[j])
    {
      LessTotal(k, s[i]);
      assert s[i] in s;
      if i < j { LessTransitive(k, s[i], s[j]); }
    }
  }
}

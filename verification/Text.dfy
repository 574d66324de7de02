/** Decimal names, and the order in which the host language sorts text. */
module Text {

  function Digit(n: nat): (c: char)
    requires n < 10
    ensures '0' <= c <= '9'
  {
    '0' + n as char
  }

  function Decimal(n: nat): (s: string)
    ensures |s| > 0
  {
    if n < 10 then [Digit(n)] else Decimal(n / 10) + [Digit(n % 10)]
  }

  /** At least four digits, filled up with zeros on the left. */
  function Pad4(n: nat): string {
    var s := Decimal(n);
    if |s| == 1 then "000" + s else if |s| == 2 then "00" + s else if |s| == 3 then "0" + s else s
  }

  predicate Distinct<T(==)>(s: seq<T>) {
    forall i, j :: 0 <= i < j < |s| ==> s[i] != s[j]
  }

  /** The order of text by code points. */
  predicate Le(a: string, b: string) {
    a == [] || (b != [] && (a[0] < b[0] || (a[0] == b[0] && Le(a[1..], b[1..]))))
  }

  /** The texts agree up to k and part there. */
  ghost predicate PartAt(a: string, b: string, k: int) {
    0 <= k < |a| && k < |b| && a[k] != b[k] && forall i :: 0 <= i < k ==> a[i] == b[i]
  }

  /** One text is not after the other exactly when it is a beginning of it, or has the lesser character where they
      part. */
  lemma {:induction false} LeIsLexicographic(a: string, b: string)
    ensures Le(a, b) <==> a <= b || exists k :: PartAt(a, b, k) && a[k] < b[k]
    decreases |a|
  {
    if a != [] && b != [] {
      if a[0] == b[0] {
        LeIsLexicographic(a[1..], b[1..]);
        assert a <= b <==> a[1..] <= b[1..] by {
          assert a == [a[0]] + a[1..] && b == [b[0]] + b[1..];
        }
        if k :| PartAt(a[1..], b[1..], k) && a[1..][k] < b[1..][k] { assert PartAt(a, b, k + 1); }
        if k :| PartAt(a, b, k) && a[k] < b[k] { assert PartAt(a[1..], b[1..], k - 1); }
      } else {
        assert PartAt(a, b, 0);
      }
    }
  }

  lemma {:induction false} LeIsTotal(a: string, b: string)
    ensures Le(a, b) || Le(b, a)
    ensures Le(a, b) && Le(b, a) ==> a == b
    decreases |a|
  {
    if a != [] && b != [] && a[0] == b[0] {
      LeIsTotal(a[1..], b[1..]);
      assert a == [a[0]] + a[1..] && b == [b[0]] + b[1..];
    }
  }

  lemma {:induction false} LeIsReflexive(a: string)
    ensures Le(a, a)
  {
    if a != [] { LeIsReflexive(a[1..]); }
  }

  lemma {:induction false} LeIsTransitive(a: string, b: string, c: string)
    requires Le(a, b) && Le(b, c)
    ensures Le(a, c)
    decreases |a|
  {
    if a != [] && a[0] == b[0] && b[0] == c[0] { LeIsTransitive(a[1..], b[1..], c[1..]); }
  }

  lemma {:induction false} LeAfterSame(c: char, a: string, b: string)
    ensures Le([c] + a, [c] + b) <==> Le(a, b)
  {
    assert ([c] + a)[1..] == a && ([c] + b)[1..] == b;
  }

  lemma {:induction false} LeWithPrefix(prefix: string, a: string, b: string)
    ensures Le(prefix + a, prefix + b) <==> Le(a, b)
  {
    if prefix == [] {
      assert prefix + a == a && prefix + b == b;
    } else {
      var c, rest := prefix[0], prefix[1..];
      assert prefix + a == [c] + (rest + a) && prefix + b == [c] + (rest + b);
      LeAfterSame(c, rest + a, rest + b);
      LeWithPrefix(rest, a, b);
    }
  }

  // ----- Stable sorting -----

  ghost predicate SortedBy<T>(s: seq<T>, le: (T, T) -> bool) {
    forall i, j :: 0 <= i < j < |s| ==> le(s[i], s[j])
  }

  function InsertBy<T>(x: T, s: seq<T>, le: (T, T) -> bool): seq<T> {
    if s == [] || le(x, s[0]) then [x] + s else [s[0]] + InsertBy(x, s[1..], le)
  }

  function SortBy<T>(s: seq<T>, le: (T, T) -> bool): seq<T> {
    if s == [] then [] else InsertBy(s[0], SortBy(s[1..], le), le)
  }

  lemma {:induction false} SortedIsKept<T>(s: seq<T>, le: (T, T) -> bool)
    requires SortedBy(s, le)
    ensures SortBy(s, le) == s
  {
    if s != [] {
      SortedIsKept(s[1..], le);
      assert s == [s[0]] + s[1..];
    }
  }

  lemma {:induction false} InsertKeepsAll<T>(x: T, s: seq<T>, le: (T, T) -> bool)
    ensures multiset(InsertBy(x, s, le)) == multiset([x]) + multiset(s)
  {
    if s != [] && !le(x, s[0]) {
      InsertKeepsAll(x, s[1..], le);
      assert s == [s[0]] + s[1..];
    }
  }

  lemma {:induction false} SortKeepsAll<T>(s: seq<T>, le: (T, T) -> bool)
    ensures multiset(SortBy(s, le)) == multiset(s)
    ensures |SortBy(s, le)| == |s| && forall x :: x in SortBy(s, le) <==> x in s
  {
    if s != [] {
      SortKeepsAll(s[1..], le);
      InsertKeepsAll(s[0], SortBy(s[1..], le), le);
      assert s == [s[0]] + s[1..];
    }
    assert |multiset(SortBy(s, le))| == |multiset(s)|;
    forall x ensures x in SortBy(s, le) <==> x in s { assert x in multiset(SortBy(s, le)) <==> x in multiset(s); }
  }

  lemma {:induction false} InsertText(x: string, s: seq<string>)
    requires SortedBy(s, Le)
    ensures SortedBy(InsertBy(x, s, Le), Le)
  {
    InsertKeepsAll(x, s, Le);
    if s != [] {
      LeIsTotal(x, s[0]);
      if Le(x, s[0]) {
        forall i | 0 <= i < |s| ensures Le(x, s[i]) {
          if i > 0 { LeIsTransitive(x, s[0], s[i]); }
        }
      } else {
        InsertText(x, s[1..]);
        var rest := InsertBy(x, s[1..], Le);
        InsertKeepsAll(x, s[1..], Le);
        forall i | 0 <= i < |rest| ensures Le(s[0], rest[i]) {
          assert rest[i] in multiset(rest);
          assert rest[i] == x || rest[i] in s[1..];
        }
      }
    }
  }

  lemma {:induction false} SortTextSorts(s: seq<string>)
    ensures SortedBy(SortBy(s, Le), Le)
  {
    if s != [] {
      SortTextSorts(s[1..]);
      InsertText(s[0], SortBy(s[1..], Le));
    }
  }

  lemma {:induction false} FirstIsLeast(a: seq<string>, x: string)
    requires SortedBy(a, Le) && x in a
    ensures Le(a[0], x)
  {
    LeIsReflexive(a[0]);
    var i :| 0 <= i < |a| && a[i] == x;
  }

  lemma {:induction false} SortedSame(a: seq<string>, b: seq<string>)
    requires multiset(a) == multiset(b) && SortedBy(a, Le) && SortedBy(b, Le)
    ensures a == b
  {
    assert |multiset(a)| == |multiset(b)|;
    if a != [] {
      assert a[0] in multiset(b) && b[0] in multiset(a);
      FirstIsLeast(a, b[0]);
      FirstIsLeast(b, a[0]);
      LeIsTotal(a[0], b[0]);
      TailsSame(a, b);
      SortedSame(a[1..], b[1..]);
      assert a == [a[0]] + a[1..] && b == [b[0]] + b[1..];
    }
  }

  lemma {:induction false} TailsSame(a: seq<string>, b: seq<string>)
    requires a != [] && b != [] && a[0] == b[0] && multiset(a) == multiset(b)
    ensures multiset(a[1..]) == multiset(b[1..])
  {
    assert a == [a[0]] + a[1..] && b == [b[0]] + b[1..];
    assert multiset(a[1..]) == multiset(a) - multiset{a[0]} && multiset(b[1..]) == multiset(b) - multiset{b[0]};
  }

  // ----- Padding makes text order numeric order, up to 9999 -----

  lemma {:induction false} PadDigits(n: nat)
    requires n < 10000
    ensures Pad4(n) == [Digit(n / 1000), Digit(n / 100 % 10), Digit(n / 10 % 10), Digit(n % 10)]
  {
    if n < 10 {
      assert Decimal(n) == [Digit(n)];
    } else if n < 100 {
      assert Decimal(n) == [Digit(n / 10), Digit(n % 10)];
    } else if n < 1000 {
      assert n / 10 / 10 == n / 100;
      assert Decimal(n / 10) == [Digit(n / 100), Digit(n / 10 % 10)];
      assert Decimal(n) == [Digit(n / 100), Digit(n / 10 % 10), Digit(n % 10)];
    } else {
      assert n / 10 / 10 == n / 100 && n / 100 / 10 == n / 1000;
      assert Decimal(n / 100) == [Digit(n / 1000), Digit(n / 100 % 10)];
      assert Decimal(n / 10) == [Digit(n / 1000), Digit(n / 100 % 10), Digit(n / 10 % 10)];
      assert Decimal(n) == [Digit(n / 1000), Digit(n / 100 % 10), Digit(n / 10 % 10), Digit(n % 10)];
    }
  }

  lemma {:induction false} LeOfFour(a: string, b: string)
    requires |a| == 4 && |b| == 4
    ensures Le(a, b) <==>
      (a[0] < b[0]
        || (a[0] == b[0] && (a[1] < b[1] || (a[1] == b[1] && (a[2] < b[2] || (a[2] == b[2] && a[3] <= b[3]))))))
  {
    assert a[1..][0] == a[1] && b[1..][0] == b[1];
    assert a[1..][1..] == a[2..] && b[1..][1..] == b[2..] && a[2..][0] == a[2] && b[2..][0] == b[2];
    assert a[2..][1..] == a[3..] && b[2..][1..] == b[3..] && a[3..][0] == a[3] && b[3..][0] == b[3];
    assert a[3..][1..] == [] && b[3..][1..] == [];
  }

  lemma {:induction false} DigitOrder(a: nat, b: nat)
    requires a < 10 && b < 10
    ensures Digit(a) < Digit(b) <==> a < b
    ensures Digit(a) == Digit(b) <==> a == b
  {
  }

  ghost predicate Reads(n: nat, d3: nat, d2: nat, d1: nat, d0: nat) {
    d3 < 10 && d2 < 10 && d1 < 10 && d0 < 10 && n == 1000 * d3 + 100 * d2 + 10 * d1 + d0
  }

  lemma {:induction false} DigitsRead(n: nat)
    requires n < 10000
    ensures Reads(n, n / 1000, n / 100 % 10, n / 10 % 10, n % 10)
  {
    assert n / 10 / 10 == n / 100 && n / 100 / 10 == n / 1000;
  }

  lemma {:induction false} FourDigits(a: nat, b: nat, a3: nat, a2: nat, a1: nat, a0: nat, b3: nat, b2: nat, b1: nat,
                                      b0: nat)
    requires a < b && Reads(a, a3, a2, a1, a0) && Reads(b, b3, b2, b1, b0)
    ensures var (x, y) := ([Digit(a3), Digit(a2), Digit(a1), Digit(a0)], [Digit(b3), Digit(b2), Digit(b1), Digit(b0)]);
      Le(x, y) && x != y
  {
    LeOfFour([Digit(a3), Digit(a2), Digit(a1), Digit(a0)], [Digit(b3), Digit(b2), Digit(b1), Digit(b0)]);
    DigitOrder(a3, b3);
    DigitOrder(a2, b2);
    DigitOrder(a1, b1);
    DigitOrder(a0, b0);
    assert a3 < b3 || (a3 == b3 && (a2 < b2 || (a2 == b2 && (a1 < b1 || (a1 == b1 && a0 < b0)))));
  }

  /** Up to 9999 the padded names are listed in numeric order, and differ. */
  lemma {:induction false} PaddedOrder(a: nat, b: nat)
    requires a < b < 10000
    ensures Le(Pad4(a), Pad4(b)) && Pad4(a) != Pad4(b)
  {
    PadDigits(a);
    PadDigits(b);
    DigitsRead(a);
    DigitsRead(b);
    FourDigits(a, b, a / 1000, a / 100 % 10, a / 10 % 10, a % 10, b / 1000, b / 100 % 10, b / 10 % 10, b % 10);
  }

  lemma {:induction false} OneMoreDigit(n: nat)
    requires n >= 10
    ensures |Decimal(n)| == |Decimal(n / 10)| + 1 && Decimal(n)[0] == Decimal(n / 10)[0]
  {
  }

  /** The first name too long for the padding is listed before the one it follows. */
  lemma {:induction false} FirstLongNameIsOutOfOrder()
    ensures !Le(Pad4(9999), Pad4(10000))
  {
    PadDigits(9999);
    OneMoreDigit(10);
    OneMoreDigit(100);
    OneMoreDigit(1000);
    OneMoreDigit(10000);
    assert Pad4(9999)[0] == Digit(9) && Pad4(10000)[0] == Digit(1);
  }
}

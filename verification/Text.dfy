/** The string operations of Go's standard library that the client builds on. */
module Text {
  import opened Wrappers

  // ---------- Byte order and slices.Sort ----------

  /** The order slices.Sort and sort.Strings use. UTF-8 byte order is code point order. */
  predicate AtMost(a: string, b: string) {
    a == [] || (b != [] && (a[0] < b[0] || (a[0] == b[0] && AtMost(a[1..], b[1..]))))
  }

  lemma {:induction false} AtMostTotal(a: string, b: string)
    ensures AtMost(a, b) || AtMost(b, a)
  {
    if a != [] && b != [] && a[0] == b[0] {
      AtMostTotal(a[1..], b[1..]);
    }
  }

  lemma {:induction false} AtMostAntisymmetric(a: string, b: string)
    requires AtMost(a, b) && AtMost(b, a)
    ensures a == b
  {
    if a != [] && b != [] {
      AtMostAntisymmetric(a[1..], b[1..]);
      assert a == [a[0]] + a[1..] && b == [b[0]] + b[1..];
    }
  }

  lemma {:induction false} AtMostTransitive(a: string, b: string, c: string)
    requires AtMost(a, b) && AtMost(b, c)
    ensures AtMost(a, c)
  {
    if a != [] && a[0] == b[0] == c[0] {
      AtMostTransitive(a[1..], b[1..], c[1..]);
    }
  }

  /** The two texts agree up to position k, where a's character is the smaller one. */
  predicate SmallerAt(a: string, b: string, k: nat) {
    k < |a| && k < |b| && a[..k] == b[..k] && a[k] < b[k]
  }

  /** Dictionary order: a prefix, or smaller where the two first differ. */
  lemma {:induction false} AtMostMeaning(a: string, b: string)
    ensures AtMost(a, b) <==> a <= b || exists k: nat :: SmallerAt(a, b, k)
  {
    if a != [] && b != [] {
      var a', b' := a[1..], b[1..];
      AtMostMeaning(a', b');
      if a[0] < b[0] {
        assert SmallerAt(a, b, 0);
      } else if a[0] == b[0] {
        assert a == [a[0]] + a' && b == [b[0]] + b';
        if k: nat :| SmallerAt(a', b', k) {
          assert a[..k + 1] == [a[0]] + a'[..k] && b[..k + 1] == [b[0]] + b'[..k];
          assert SmallerAt(a, b, k + 1);
        }
        if k: nat :| SmallerAt(a, b, k) {
          assert a'[..k - 1] == a[..k][1..] && b'[..k - 1] == b[..k][1..];
          assert SmallerAt(a', b', k - 1);
        }
      } else {
        forall k: nat | 0 < k < |a| && k < |b| ensures a[..k] != b[..k] {
          assert a[..k][0] != b[..k][0];
        }
      }
    }
  }

  ghost predicate Sorted(s: seq<string>) {
    forall i, j :: 0 <= i < j < |s| ==> AtMost(s[i], s[j])
  }

  predicate Distinct<T(==)>(s: seq<T>) {
    forall i, j :: 0 <= i < j < |s| ==> s[i] != s[j]
  }

  ghost function Elements<T>(s: seq<T>): set<T> {
    set x | x in s
  }

  function Insert(x: string, s: seq<string>): (r: seq<string>)
    ensures multiset(r) == multiset{x} + multiset(s)
  {
    if s == [] then [x]
    else if AtMost(x, s[0]) then [x] + s
    else
      assert s == [s[0]] + s[1..];
      [s[0]] + Insert(x, s[1..])
  }

  /** slices.Sort, by value. */
  function Sort(s: seq<string>): (r: seq<string>)
    ensures multiset(r) == multiset(s)
  {
    if s == [] then []
    else
      assert s == [s[0]] + s[1..];
      Insert(s[0], Sort(s[1..]))
  }

  lemma {:induction false} InsertSorted(x: string, s: seq<string>)
    requires Sorted(s)
    ensures Sorted(Insert(x, s))
  {
    if s == [] {
    } else if AtMost(x, s[0]) {
      forall j | 0 <= j < |s| ensures AtMost(x, s[j]) {
        if j > 0 { AtMostTransitive(x, s[0], s[j]); }
      }
    } else {
      InsertSorted(x, s[1..]);
      AtMostTotal(x, s[0]);
      var t := Insert(x, s[1..]);
      forall j | 0 <= j < |t| ensures AtMost(s[0], t[j]) {
        assert t[j] in multiset(t);
        assert t[j] == x || t[j] in s[1..];
      }
    }
  }

  lemma {:induction false} SortSorted(s: seq<string>)
    ensures Sorted(Sort(s))
  {
    if s != [] {
      SortSorted(s[1..]);
      InsertSorted(s[0], Sort(s[1..]));
    }
  }

  /** The head of a sorted list is at most every element of the bag. */
  lemma HeadLeast(a: seq<string>, x: string)
    requires a != [] && Sorted(a) && x in multiset(a)
    ensures AtMost(a[0], x)
  {
    var i :| 0 <= i < |a| && a[i] == x;
    if i == 0 { AtMostTotal(x, x); }
  }

  lemma SameHead(a: seq<string>, b: seq<string>)
    requires a != [] && b != [] && Sorted(a) && Sorted(b) && multiset(a) == multiset(b)
    ensures a[0] == b[0]
  {
    assert a[0] in multiset(a) && b[0] in multiset(b);
    HeadLeast(a, b[0]);
    HeadLeast(b, a[0]);
    AtMostAntisymmetric(a[0], b[0]);
  }

  /** A sorted arrangement of a bag is unique, so any sorting algorithm returns Sort(s). */
  lemma {:induction false} SortedUnique(a: seq<string>, b: seq<string>)
    requires Sorted(a) && Sorted(b) && multiset(a) == multiset(b)
    ensures a == b
  {
    assert |a| == |multiset(a)| == |multiset(b)| == |b|;
    if a != [] {
      SameHead(a, b);
      TailBag(a);
      TailBag(b);
      SortedUnique(a[1..], b[1..]);
      assert a == [a[0]] + a[1..] && b == [b[0]] + b[1..];
    }
  }

  lemma TailBag<T>(a: seq<T>)
    requires a != []
    ensures multiset(a[1..]) == multiset(a) - multiset{a[0]}
  {
    assert a == [a[0]] + a[1..];
  }

  lemma DistinctCount<T>(s: seq<T>, x: T)
    requires Distinct(s)
    ensures multiset(s)[x] == if x in s then 1 else 0
  {
    if s != [] {
      assert s == [s[0]] + s[1..];
      DistinctCount(s[1..], x);
      if s[0] == x { assert x !in s[1..]; }
    }
  }

  /** Sorted duplicate-free lists are determined by their element sets. */
  lemma SortedSetUnique(a: seq<string>, b: seq<string>)
    requires Sorted(a) && Sorted(b) && Distinct(a) && Distinct(b) && Elements(a) == Elements(b)
    ensures a == b
  {
    forall x ensures multiset(a)[x] == multiset(b)[x] {
      DistinctCount(a, x);
      DistinctCount(b, x);
      assert x in a <==> x in Elements(a);
      assert x in b <==> x in Elements(b);
    }
    assert multiset(a) == multiset(b);
    SortedUnique(a, b);
  }

  /** Sorting a duplicate-free list keeps its elements and its duplicate-freedom. */
  lemma SortKeepsSet(s: seq<string>)
    ensures Elements(Sort(s)) == Elements(s) && Sorted(Sort(s)) && |Sort(s)| == |s|
    ensures Distinct(s) ==> Distinct(Sort(s))
  {
    SortSorted(s);
    var t := Sort(s);
    assert |t| == |multiset(t)| == |multiset(s)| == |s|;
    forall x ensures x in t <==> x in s {
      assert x in t <==> x in multiset(t);
      assert x in s <==> x in multiset(s);
    }
    if Distinct(s) {
      forall i, j | 0 <= i < j < |t| ensures t[i] != t[j] {
        DistinctCount(s, t[i]);
        if t[i] == t[j] { TwiceInBag(t, i, j); }
      }
    }
  }

  lemma TwiceInBag<T>(t: seq<T>, i: nat, j: nat)
    requires i < j < |t| && t[i] == t[j]
    ensures multiset(t)[t[i]] >= 2
  {
    assert t == t[..j] + [t[j]] + t[j + 1..];
    assert t[..j][i] in t[..j];
  }

  // ---------- Decimal printing and strconv.Atoi ----------

  const MAX_INT64 := 0x7fff_ffff_ffff_ffff

  type Int64 = n: int | -0x8000_0000_0000_0000 <= n < 0x8000_0000_0000_0000

  /** Two's complement wrap-around to 64 bits. */
  function Wrap64(x: int): Int64 {
    (x + 0x8000_0000_0000_0000) % 0x1_0000_0000_0000_0000 - 0x8000_0000_0000_0000
  }

  /** Wrapping changes nothing in range, and only whole multiples of 2^64 otherwise. */
  lemma WrapInRange(x: int)
    ensures -0x8000_0000_0000_0000 <= x <= MAX_INT64 ==> Wrap64(x) == x
    ensures (Wrap64(x) - x) % 0x1_0000_0000_0000_0000 == 0
  {
    assert Wrap64(x) == x - (x + 0x8000_0000_0000_0000) / 0x1_0000_0000_0000_0000 * 0x1_0000_0000_0000_0000;
  }

  predicate IsDigit(c: char) { '0' <= c <= '9' }

  function DigitChar(d: nat): char
    requires d < 10
  {
    ('0' as int + d) as char
  }

  function Digits(n: nat): string {
    if n < 10 then [DigitChar(n)] else Digits(n / 10) + [DigitChar(n % 10)]
  }

  /** strconv.Itoa and the %d verb. */
  function Itoa(n: int): string {
    if n < 0 then "-" + Digits(-n) else Digits(n)
  }

  predicate AllDigits(s: string) {
    forall c :: c in s ==> IsDigit(c)
  }

  function DigitsValue(s: string): nat
    requires AllDigits(s)
  {
    if s == [] then 0
    else
      assert IsDigit(s[|s| - 1]);
      10 * DigitsValue(s[..|s| - 1]) + (s[|s| - 1] as int - '0' as int)
  }

  /** strconv.Atoi on a 64-bit platform: an optional sign, at least one digit, in range. */
  function Atoi(s: string): Option<int> {
    var negative := s != [] && s[0] == '-';
    var body := if s != [] && (s[0] == '-' || s[0] == '+') then s[1..] else s;
    if body == [] || !AllDigits(body) then None
    else
      var v := (if negative then -1 else 1) * DigitsValue(body);
      if -MAX_INT64 - 1 <= v <= MAX_INT64 then Some(v) else None
  }

  lemma {:induction false} DigitsReadBack(n: nat)
    ensures Digits(n) != [] && AllDigits(Digits(n)) && DigitsValue(Digits(n)) == n
  {
    if n >= 10 {
      DigitsReadBack(n / 10);
      var s := Digits(n);
      assert s[..|s| - 1] == Digits(n / 10);
    } else {
      var s := Digits(n);
      assert s[..|s| - 1] == [];
    }
  }

  /** Itoa is injective: Atoi reads the number back. */
  lemma AtoiItoa(n: int)
    requires -MAX_INT64 - 1 <= n <= MAX_INT64
    ensures Atoi(Itoa(n)) == Some(n)
  {
    var m := if n < 0 then -n else n;
    DigitsReadBack(m);
    if n < 0 {
      assert Itoa(n)[1..] == Digits(m);
    } else {
      assert Digits(m)[0] in Digits(m);
    }
  }

  lemma DigitsInjective(m: nat, n: nat)
    requires Digits(m) == Digits(n)
    ensures m == n
  {
    DigitsReadBack(m);
    DigitsReadBack(n);
  }

  // ---------- What strconv.Atoi accepts ----------

  predicate AllZeros(s: string) {
    forall i :: 0 <= i < |s| ==> s[i] == '0'
  }

  /** z zeros and then exactly a number's digits. */
  predicate ReadsAfter(body: string, z: nat, n: nat) {
    z <= |body| && AllZeros(body[..z]) && body[z..] == Digits(n)
  }

  /** Any number of zeros in front of a number's digits. */
  ghost predicate ReadsAs(body: string, n: nat) {
    exists z: nat :: ReadsAfter(body, z, n)
  }

  lemma {:induction false} ZerosWorthNothing(zeros: string, s: string)
    requires AllZeros(zeros) && AllDigits(s)
    ensures AllDigits(zeros + s) && DigitsValue(zeros + s) == DigitsValue(s)
    decreases |s|, |zeros|
  {
    var t := zeros + s;
    if s != [] {
      assert AllDigits(s[..|s| - 1]);
      ZerosWorthNothing(zeros, s[..|s| - 1]);
      assert t[..|t| - 1] == zeros + s[..|s| - 1];
    } else if zeros != [] {
      ZerosWorthNothing(zeros[..|zeros| - 1], s);
      assert t[..|t| - 1] == zeros[..|zeros| - 1] + s;
      assert t[|t| - 1] == zeros[|zeros| - 1];
    }
  }

  /** A last digit, appended to what is in front of it. */
  lemma AppendDigit(front: string, z: nat, n: nat, d: nat)
    requires ReadsAfter(front, z, n) && d < 10
    ensures ReadsAs(front + [DigitChar(d)], 10 * n + d)
  {
    var body := front + [DigitChar(d)];
    if n > 0 {
      assert body[..z] == front[..z] && body[z..] == front[z..] + [DigitChar(d)];
      assert ReadsAfter(body, z, 10 * n + d);
    } else {
      assert front == front[..z] + front[z..];
      assert body[..|front|] == front && body[|front|..] == [DigitChar(d)];
      assert ReadsAfter(body, |front|, d);
    }
  }

  lemma OneDigit(d: nat)
    requires d < 10
    ensures ReadsAs([DigitChar(d)], d)
  {
    assert ReadsAfter([DigitChar(d)], 0, d);
  }

  /** The last digit of a number and what is in front of it. */
  lemma LastDigit(body: string) returns (front: string, d: nat)
    requires body != [] && AllDigits(body)
    ensures d < 10 && body == front + [DigitChar(d)] && AllDigits(front)
    ensures DigitsValue(body) == 10 * DigitsValue(front) + d
  {
    front := body[..|body| - 1];
    assert IsDigit(body[|body| - 1]);
    d := body[|body| - 1] as int - '0' as int;
  }

  lemma {:induction false} DigitsAreReadAs(body: string)
    requires body != [] && AllDigits(body)
    ensures ReadsAs(body, DigitsValue(body))
  {
    var front, d := LastDigit(body);
    if front == [] {
      OneDigit(d);
    } else {
      var n := DigitsValue(front);
      DigitsAreReadAs(front);
      var z: nat :| ReadsAfter(front, z, n);
      AppendDigit(front, z, n, d);
    }
  }

  lemma ReadsBack(body: string, n: nat)
    requires ReadsAs(body, n)
    ensures body != [] && AllDigits(body) && DigitsValue(body) == n
  {
    var z: nat :| ReadsAfter(body, z, n);
    DigitsReadBack(n);
    ZerosWorthNothing(body[..z], Digits(n));
    assert body == body[..z] + Digits(n);
  }

  /** A number's body, without its sign, is read as n exactly when it is zeros and n's digits. */
  lemma ReadAsIff(body: string, n: nat)
    ensures body != [] && AllDigits(body) && DigitsValue(body) == n <==> ReadsAs(body, n)
  {
    if ReadsAs(body, n) {
      ReadsBack(body, n);
    } else if body != [] && AllDigits(body) && DigitsValue(body) == n {
      DigitsAreReadAs(body);
    }
  }

  /** A text is an optional sign and the digits of v's size, with any zeros in front of them. */
  ghost predicate Denotes(s: string, v: int) {
    || (v >= 0 && ReadsAs(s, v))
    || (v >= 0 && s != [] && s[0] == '+' && ReadsAs(s[1..], v))
    || (v <= 0 && s != [] && s[0] == '-' && ReadsAs(s[1..], -v))
  }

  /** Atoi reads exactly the texts of the 64-bit integers, each as the one it denotes. */
  lemma AtoiIffDenotes(s: string, v: int)
    ensures Atoi(s) == Some(v) <==> -MAX_INT64 - 1 <= v <= MAX_INT64 && Denotes(s, v)
  {
    if s != [] {
      var n := if v < 0 then -v else v;
      ReadAsIff(s, n);
      ReadAsIff(s[1..], n);
      assert AllDigits(s) ==> IsDigit(s[0]);
    } else {
      ReadAsIff(s, if v < 0 then -v else v);
    }
  }

  // ---------- strings.TrimSpace and strings.Split ----------

  predicate IsSpace(c: char) {
    c in {'\t', '\n', '\U{0b}', '\U{0c}', '\r', ' ', '\U{85}', '\U{a0}', '\U{1680}',
          '\U{2028}', '\U{2029}', '\U{202f}', '\U{205f}', '\U{3000}'}
    || '\U{2000}' <= c <= '\U{200a}'
  }

  function TrimLeft(s: string): string {
    if s != [] && IsSpace(s[0]) then TrimLeft(s[1..]) else s
  }

  function TrimRight(s: string): string {
    if s != [] && IsSpace(s[|s| - 1]) then TrimRight(s[..|s| - 1]) else s
  }

  function TrimSpace(s: string): string {
    TrimRight(TrimLeft(s))
  }

  /** strings.Split for a one-character separator: never empty. */
  function Split(s: string, sep: char): (parts: seq<string>)
    ensures parts != []
  {
    if s == [] then [[]]
    else
      var rest := Split(s[1..], sep);
      if s[0] == sep then [[]] + rest else [[s[0]] + rest[0]] + rest[1..]
  }

  /** What TrimSpace leaves: the text between its outer spaces. */
  lemma TrimmedBetween(s: string) returns (left: string, right: string)
    ensures s == left + TrimSpace(s) + right
    ensures (forall c :: c in left + right ==> IsSpace(c))
    ensures TrimSpace(s) != [] ==> !IsSpace(TrimSpace(s)[0]) && !IsSpace(TrimSpace(s)[|TrimSpace(s)| - 1])
  {
    left := LeftSpaces(s);
    var mid := TrimLeft(s);
    right := RightSpaces(mid);
  }

  lemma {:induction false} LeftSpaces(s: string) returns (left: string)
    ensures s == left + TrimLeft(s) && forall c :: c in left ==> IsSpace(c)
    ensures TrimLeft(s) != [] ==> !IsSpace(TrimLeft(s)[0])
  {
    left := [];
    if s != [] && IsSpace(s[0]) {
      var more := LeftSpaces(s[1..]);
      left := [s[0]] + more;
    }
  }

  lemma {:induction false} RightSpaces(s: string) returns (right: string)
    ensures s == TrimRight(s) + right && forall c :: c in right ==> IsSpace(c)
    ensures TrimRight(s) != [] ==> !IsSpace(TrimRight(s)[|TrimRight(s)| - 1]) && TrimRight(s)[0] == s[0]
  {
    right := [];
    if s != [] && IsSpace(s[|s| - 1]) {
      var more := RightSpaces(s[..|s| - 1]);
      right := more + [s[|s| - 1]];
    }
  }

  /** Spaces around a text that has none at its ends are all that is cut. */
  lemma {:induction false} TrimExactly(left: string, s: string, right: string)
    requires forall c :: c in left + right ==> IsSpace(c)
    requires s != [] && !IsSpace(s[0]) && !IsSpace(s[|s| - 1])
    ensures TrimSpace(left + s + right) == s
  {
    TrimLeftExactly(left, s + right);
    assert left + s + right == left + (s + right);
    TrimRightExactly(s, right);
  }

  lemma {:induction false} TrimLeftExactly(left: string, s: string)
    requires (forall c :: c in left ==> IsSpace(c)) && s != [] && !IsSpace(s[0])
    ensures TrimLeft(left + s) == s
  {
    if left == [] {
      assert left + s == s;
    } else {
      assert left[0] in left;
      assert (left + s)[1..] == left[1..] + s;
      TrimLeftExactly(left[1..], s);
    }
  }

  lemma {:induction false} TrimRightExactly(s: string, right: string)
    requires (forall c :: c in right ==> IsSpace(c)) && s != [] && !IsSpace(s[|s| - 1])
    ensures TrimRight(s + right) == s
  {
    if right == [] {
      assert s + right == s;
    } else {
      var last := |right| - 1;
      assert right[last] in right;
      assert (s + right)[..|s + right| - 1] == s + right[..last];
      TrimRightExactly(s, right[..last]);
    }
  }

  /** strings.Join for a one-character separator. */
  function Join(parts: seq<string>, sep: char): string
    requires parts != []
  {
    if |parts| == 1 then parts[0] else parts[0] + [sep] + Join(parts[1..], sep)
  }

  lemma {:induction false} SplitHead(head: string, rest: string, sep: char)
    requires sep !in head
    ensures Split(head + [sep] + rest, sep) == [head] + Split(rest, sep)
    ensures Split(head, sep) == [head]
  {
    var s := head + [sep] + rest;
    if head == [] {
      assert s[1..] == rest;
    } else {
      assert head[0] in head && head == [head[0]] + head[1..];
      assert s[1..] == head[1..] + [sep] + rest;
      SplitHead(head[1..], rest, sep);
    }
  }

  /** Splitting what was joined gives the parts back. */
  lemma {:induction false} SplitJoin(parts: seq<string>, sep: char)
    requires parts != [] && forall p :: p in parts ==> sep !in p
    ensures Split(Join(parts, sep), sep) == parts
  {
    assert parts[0] in parts;
    if |parts| == 1 {
      SplitHead(parts[0], [], sep);
    } else {
      SplitJoin(parts[1..], sep);
      SplitHead(parts[0], Join(parts[1..], sep), sep);
      assert parts == [parts[0]] + parts[1..];
    }
  }

  /** Every text is the join of its split, and no part holds the separator. */
  lemma {:induction false} JoinSplit(s: string, sep: char)
    ensures Join(Split(s, sep), sep) == s
    ensures forall p :: p in Split(s, sep) ==> sep !in p
  {
    if s != [] {
      JoinSplit(s[1..], sep);
      var rest := Split(s[1..], sep);
      assert s == [s[0]] + s[1..];
      if s[0] == sep {
        assert Split(s, sep)[1..] == rest;
      } else {
        JoinMore(s[0], rest, sep);
      }
    }
  }

  lemma JoinMore(c: char, rest: seq<string>, sep: char)
    requires rest != []
    ensures Join([[c] + rest[0]] + rest[1..], sep) == [c] + Join(rest, sep)
  {
    var more := [[c] + rest[0]] + rest[1..];
    if |rest| > 1 {
      assert more[1..] == rest[1..];
      assert [c] + rest[0] + [sep] == [c] + (rest[0] + [sep]);
    }
  }

  /** strings.Contains. */
  predicate Contains(s: string, sub: string) {
    exists i | 0 <= i <= |s| :: sub <= s[i..]
  }
}

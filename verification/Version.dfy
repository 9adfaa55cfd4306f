/** internal/control/version.go: the order on client versions. */
module Versions {
  import opened Wrappers
  import opened Text

  /** component: a missing or unparsable part counts as zero. */
  function Component(parts: seq<string>, i: nat): int {
    if i >= |parts| then 0
    else
      var v := Atoi(TrimSpace(parts[i]));
      if v.None? then 0 else v.value
  }

  /** A version read as an infinite, zero-padded sequence of integers. */
  function Part(version: string, i: nat): int {
    Component(Split(version, '.'), i)
  }

  /** The sequences first differ at position k, where a's is smaller. */
  ghost predicate BelowAt(a: string, b: string, k: nat) {
    Part(a, k) < Part(b, k) && forall i: nat :: i < k ==> Part(a, i) == Part(b, i)
  }

  /** Lexicographic order on the infinite sequences. */
  ghost predicate Below(a: string, b: string) {
    exists k: nat :: BelowAt(a, b, k)
  }

  method VersionLess(a: string, b: string) returns (less: bool)
    ensures less <==> Below(a, b)
  {
    var as_, bs := Split(a, '.'), Split(b, '.');
    var i := 0;
    while i < |as_| || i < |bs|
      invariant forall j: nat :: j < i ==> Part(a, j) == Part(b, j)
      decreases |as_| + |bs| - i
    {
      var av, bv := Component(as_, i), Component(bs, i);
      assert av == Part(a, i) && bv == Part(b, i);
      if av != bv {
        less := av < bv;
        if less {
          assert BelowAt(a, b, i);
        } else {
          AboveAt(a, b, i);
        }
        return;
      }
      i := i + 1;
    }
    EqualToTheEnd(a, b, i);
    less := false;
  }

  /** Beyond both versions' components there is nothing but zeros. */
  lemma EqualToTheEnd(a: string, b: string, n: nat)
    requires n >= |Split(a, '.')| && n >= |Split(b, '.')|
    requires forall j: nat :: j < n ==> Part(a, j) == Part(b, j)
    ensures !Below(a, b)
  {
    forall k: nat ensures Part(a, k) == Part(b, k) {
      if k >= n { assert Part(a, k) == 0 == Part(b, k); }
    }
  }

  lemma AboveAt(a: string, b: string, i: nat)
    requires Part(a, i) > Part(b, i) && forall j: nat :: j < i ==> Part(a, j) == Part(b, j)
    ensures !Below(a, b)
  {
    forall k: nat ensures !BelowAt(a, b, k) {
      if k > i { assert Part(a, i) != Part(b, i); }
    }
  }

  // ---------- What a version reads as ----------

  /** Entry i of a list continued with zeros. */
  function At(ns: seq<int>, i: nat): int {
    if i < |ns| then ns[i] else 0
  }

  /**
   A version is the sequence of its components, each read on its own: a component denoting a 64-bit
   number is that number, any other one is zero, and so is every missing one.
   */
  lemma PartOfJoined(texts: seq<string>, i: nat)
    requires texts != [] && forall t :: t in texts ==> '.' !in t
    ensures forall v :: -MAX_INT64 - 1 <= v <= MAX_INT64 && i < |texts| && Denotes(TrimSpace(texts[i]), v) ==>
              Part(Join(texts, '.'), i) == v
    ensures i < |texts| && (forall v :: -MAX_INT64 - 1 <= v <= MAX_INT64 ==> !Denotes(TrimSpace(texts[i]), v)) ==>
              Part(Join(texts, '.'), i) == 0
    ensures i >= |texts| ==> Part(Join(texts, '.'), i) == 0
  {
    SplitJoin(texts, '.');
    if i < |texts| {
      var t := TrimSpace(texts[i]);
      forall v ensures Atoi(t) == Some(v) <==> -MAX_INT64 - 1 <= v <= MAX_INT64 && Denotes(t, v) {
        AtoiIffDenotes(t, v);
      }
    }
  }

  lemma ItoaCharacters(n: int)
    ensures Itoa(n) != [] && forall c :: c in Itoa(n) ==> c == '-' || IsDigit(c)
    ensures !IsSpace(Itoa(n)[0]) && !IsSpace(Itoa(n)[|Itoa(n)| - 1])
  {
    DigitsReadBack(if n < 0 then -n else n);
    var s := Itoa(n);
    assert s[0] in s && s[|s| - 1] in s;
  }

  /** Outer spaces around a number do not count. */
  lemma PaddedNumber(left: string, n: Int64, right: string)
    requires forall c :: c in left + right ==> IsSpace(c)
    ensures Atoi(TrimSpace(left + Itoa(n) + right)) == Some(n)
  {
    var s := Itoa(n);
    ItoaCharacters(n);
    TrimExactly(left, s, right);
    AtoiItoa(n);
  }

  /** Numbers joined with dots, as versions are written. */
  function Dotted(ns: seq<int>): string
    requires ns != []
  {
    Join(seq(|ns|, i requires 0 <= i < |ns| => Itoa(ns[i])), '.')
  }

  lemma DottedParts(ns: seq<Int64>, i: nat)
    requires ns != []
    ensures Part(Dotted(ns), i) == At(ns, i)
  {
    var texts := seq(|ns|, k requires 0 <= k < |ns| => Itoa(ns[k]));
    forall t | t in texts ensures '.' !in t {
      var k :| 0 <= k < |texts| && texts[k] == t;
      ItoaCharacters(ns[k]);
    }
    SplitJoin(texts, '.');
    if i < |ns| {
      PaddedNumber("", ns[i], "");
      assert "" + Itoa(ns[i]) + "" == texts[i];
    }
  }

  /** At the first place where two lists differ, continued with zeros, a's number is the smaller. */
  ghost predicate NumericallyBelow(a: seq<int>, b: seq<int>) {
    exists k: nat :: At(a, k) < At(b, k) && forall i: nat :: i < k ==> At(a, i) == At(b, i)
  }

  /** The order on written versions is the numeric one, component by component. */
  lemma DottedBelowIff(a: seq<Int64>, b: seq<Int64>)
    requires a != [] && b != []
    ensures Below(Dotted(a), Dotted(b)) <==> NumericallyBelow(a, b)
  {
    forall i: nat ensures Part(Dotted(a), i) == At(a, i) && Part(Dotted(b), i) == At(b, i) {
      DottedParts(a, i);
      DottedParts(b, i);
    }
    if k: nat :| BelowAt(Dotted(a), Dotted(b), k) {
      assert At(a, k) < At(b, k) && forall i: nat :: i < k ==> At(a, i) == At(b, i);
    }
    if k: nat :| At(a, k) < At(b, k) && forall i: nat :: i < k ==> At(a, i) == At(b, i) {
      assert BelowAt(Dotted(a), Dotted(b), k);
    }
  }

  /** Numbers, not texts, are compared. */
  lemma NumbersCompared()
    ensures Below(Dotted([0, 2, 4]), Dotted([0, 2, 5])) && !Below(Dotted([0, 10, 0]), Dotted([0, 9, 0]))
  {
    DottedBelowIff([0, 2, 4], [0, 2, 5]);
    DottedBelowIff([0, 10, 0], [0, 9, 0]);
    assert At([0, 2, 4], 2) < At([0, 2, 5], 2);
    assert At([0, 10, 0], 1) > At([0, 9, 0], 1);
  }

  /** Zeros at the end make no difference, and a missing component is below a positive one. */
  lemma MissingIsZero(ns: seq<Int64>, n: Int64)
    requires ns != []
    ensures Below(Dotted(ns), Dotted(ns + [n])) <==> n > 0
    ensures n == 0 ==> !Below(Dotted(ns), Dotted(ns + [n])) && !Below(Dotted(ns + [n]), Dotted(ns))
  {
    DottedBelowIff(ns, ns + [n]);
    DottedBelowIff(ns + [n], ns);
    forall i: nat ensures At(ns + [n], i) == if i == |ns| then n else At(ns, i) {
    }
    if n > 0 { assert At(ns, |ns|) < At(ns + [n], |ns|); }
  }

  /** `ns` are the numbers the components denote, with zero for each that denotes none. */
  ghost predicate ReadAs(texts: seq<string>, ns: seq<Int64>) {
    && |texts| == |ns| > 0 && (forall t :: t in texts ==> '.' !in t)
    && forall i :: 0 <= i < |texts| ==>
         || Denotes(TrimSpace(texts[i]), ns[i])
         || (ns[i] == 0 && forall v: Int64 :: !Denotes(TrimSpace(texts[i]), v))
  }

  lemma ReadAsParts(texts: seq<string>, ns: seq<Int64>, i: nat)
    requires ReadAs(texts, ns)
    ensures Part(Join(texts, '.'), i) == At(ns, i)
  {
    PartOfJoined(texts, i);
  }

  /**
   Any two versions, well-formed or not: one is below the other exactly when its numbers are, a
   component that is no number counting as zero. So a malformed version is above a real one
   exactly when its readable components make it so.
   */
  lemma JoinedBelowIff(a: seq<string>, as_: seq<Int64>, b: seq<string>, bs: seq<Int64>)
    requires ReadAs(a, as_) && ReadAs(b, bs)
    ensures Below(Join(a, '.'), Join(b, '.')) <==> NumericallyBelow(as_, bs)
  {
    var x, y := Join(a, '.'), Join(b, '.');
    forall i: nat ensures Part(x, i) == At(as_, i) && Part(y, i) == At(bs, i) {
      ReadAsParts(a, as_, i);
      ReadAsParts(b, bs, i);
    }
    if k: nat :| BelowAt(x, y, k) {
      assert At(as_, k) < At(bs, k) && forall i: nat :: i < k ==> At(as_, i) == At(bs, i);
    }
    if k: nat :| At(as_, k) < At(bs, k) && forall i: nat :: i < k ==> At(as_, i) == At(bs, i) {
      assert BelowAt(x, y, k);
    }
  }

  /**
   A version none of whose components is a number is above no version written with natural
   numbers, so it is never adopted as a floor.
   */
  lemma MalformedNeverAbove(ns: seq<Int64>, malformed: string)
    requires ns != [] && forall n :: n in ns ==> n >= 0
    requires forall t :: t in Split(malformed, '.') ==> Atoi(TrimSpace(t)).None?
    ensures !Below(Dotted(ns), malformed)
  {
    forall k: nat ensures !BelowAt(Dotted(ns), malformed, k) {
      DottedParts(ns, k);
      assert k < |ns| ==> ns[k] in ns;
      assert k < |Split(malformed, '.')| ==> Split(malformed, '.')[k] in Split(malformed, '.');
    }
  }

  /**
   One component that is no number does not make a version malformed in that sense: behind a larger
   leading number it is above a real version.
   */
  lemma PartlyMalformedMayBeAbove(ns: seq<Int64>, n: Int64, bad: string)
    requires ns != [] && ns[0] < n && '.' !in bad && Atoi(TrimSpace(bad)).None?
    ensures Below(Dotted(ns), Join([Itoa(n), bad], '.'))
  {
    var texts := [Itoa(n), bad];
    ItoaCharacters(n);
    SplitJoin(texts, '.');
    PaddedNumber("", n, "");
    assert "" + Itoa(n) + "" == Itoa(n);
    DottedParts(ns, 0);
    assert BelowAt(Dotted(ns), Join(texts, '.'), 0);
  }

  lemma BelowIrreflexive(a: string)
    ensures !Below(a, a)
  {
  }

  lemma BelowTransitive(a: string, b: string, c: string)
    requires Below(a, b) && Below(b, c)
    ensures Below(a, c)
  {
    var k: nat :| BelowAt(a, b, k);
    var m: nat :| BelowAt(b, c, m);
    assert BelowAt(a, c, if k < m then k else m);
  }

  /** The first position, at most k, where b leaves the common prefix of a and c. */
  lemma {:induction false} FirstSplit(a: string, b: string, c: string, k: nat, from: nat) returns (m: nat)
    requires from <= k && Part(a, k) != Part(c, k)
    requires forall i: nat :: i < k ==> Part(a, i) == Part(c, i)
    requires forall i: nat :: i < from ==> Part(a, i) == Part(b, i)
    ensures m <= k && (Part(b, m) != Part(a, m) || Part(b, m) != Part(c, m))
    ensures forall i: nat :: i < m ==> Part(a, i) == Part(b, i) == Part(c, i)
    decreases k - from
  {
    if Part(b, from) != Part(a, from) || from == k {
      m := from;
    } else {
      m := FirstSplit(a, b, c, k, from + 1);
    }
  }

  /** Not being below is transitive, so versions that compare equal form classes. */
  lemma NotBelowTransitive(a: string, b: string, c: string)
    requires !Below(a, b) && !Below(b, c)
    ensures !Below(a, c)
  {
    if k: nat :| BelowAt(a, c, k) {
      var m := FirstSplit(a, b, c, k, 0);
      if Part(a, m) < Part(b, m) {
        assert BelowAt(a, b, m);
      } else {
        assert BelowAt(b, c, m);
      }
    }
  }

  /** Neither version is below the other exactly when they agree in every position. */
  lemma IncomparableIffEqualParts(a: string, b: string)
    ensures !Below(a, b) && !Below(b, a) <==> forall i: nat :: Part(a, i) == Part(b, i)
  {
    if !Below(a, b) && !Below(b, a) {
      forall i: nat ensures Part(a, i) == Part(b, i) { SamePart(a, b, i); }
    }
  }

  lemma {:induction false} SamePart(a: string, b: string, i: nat)
    requires !Below(a, b) && !Below(b, a)
    ensures forall j: nat :: j <= i ==> Part(a, j) == Part(b, j)
  {
    if i > 0 { SamePart(a, b, i - 1); }
    assert !BelowAt(a, b, i) && !BelowAt(b, a, i);
  }
}

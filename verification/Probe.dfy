/** internal/probe/probe.go: ranking entry addresses by TCP round-trip time. */
module Probing {
  import opened Wrappers

  datatype Result = Result(ip: string, rtt: nat, ok: bool)

  /** dial leaves the zero duration on a failed attempt. */
  predicate Dialled(r: Result) {
    !r.ok ==> r.rtt == 0
  }

  /** The comparison handed to sort.SliceStable. */
  predicate Less(a: Result, b: Result) {
    if a.ok != b.ok then a.ok else a.rtt < b.rtt
  }

  predicate SameRank(a: Result, b: Result) {
    a.ok == b.ok && a.rtt == b.rtt
  }

  // ---------- Stable sorting ----------

  ghost predicate Ordered(s: seq<Result>) {
    forall i, j :: 0 <= i < j < |s| ==> !Less(s[j], s[i])
  }

  /** The elements ranking like r, in order of appearance. */
  function RankClass(s: seq<Result>, r: Result): seq<Result> {
    if s == [] then []
    else (if SameRank(s[0], r) then [s[0]] else []) + RankClass(s[1..], r)
  }

  /** What a stable sort promises: ordered, and equals keep their elements and their order. */
  ghost predicate StablySorted(out: seq<Result>, s: seq<Result>) {
    Ordered(out) && forall r :: RankClass(out, r) == RankClass(s, r)
  }

  lemma {:induction false} ClassMember(s: seq<Result>, r: Result)
    ensures RankClass(s, r) != [] <==> exists x :: x in s && SameRank(x, r)
  {
    if s != [] {
      ClassMember(s[1..], r);
      if SameRank(s[0], r) { assert s[0] in s; }
    }
  }

  lemma HeadInClass(s: seq<Result>)
    ensures s != [] ==> RankClass(s, s[0]) != []
  {
  }

  /** The promise leaves no freedom: there is one stably sorted arrangement. */
  lemma {:induction false} StableUnique(a: seq<Result>, b: seq<Result>)
    requires Ordered(a) && Ordered(b) && forall r :: RankClass(a, r) == RankClass(b, r)
    ensures a == b
  {
    if a == [] {
      HeadInClass(b);
    } else {
      ClassMember(a, a[0]);
      assert a[0] in a;
      ClassMember(b, a[0]);
      assert b != [];
      ClassMember(b, b[0]);
      assert b[0] in b;
      ClassMember(a, b[0]);
      assert SameRank(a[0], b[0]) by { FirstRanksAgree(a, b); }
      assert RankClass(a, a[0])[0] == a[0] && RankClass(b, a[0])[0] == b[0];
      forall r ensures RankClass(a[1..], r) == RankClass(b[1..], r) {
        var dropped := if SameRank(a[0], r) then 1 else 0;
        assert RankClass(a[1..], r) == RankClass(a, r)[dropped..];
        assert RankClass(b[1..], r) == RankClass(b, r)[dropped..];
      }
      StableUnique(a[1..], b[1..]);
      assert a == [a[0]] + a[1..] && b == [b[0]] + b[1..];
    }
  }

  lemma FirstRanksAgree(a: seq<Result>, b: seq<Result>)
    requires a != [] && b != [] && Ordered(a) && Ordered(b)
    requires exists x :: x in b && SameRank(x, a[0])
    requires exists x :: x in a && SameRank(x, b[0])
    ensures SameRank(a[0], b[0])
  {
    var x :| x in b && SameRank(x, a[0]);
    var i :| 0 <= i < |b| && b[i] == x;
    var y :| y in a && SameRank(y, b[0]);
    var j :| 0 <= j < |a| && a[j] == y;
    assert !Less(a[0], b[0]) || i == 0;
    assert !Less(b[0], a[0]) || j == 0;
  }

  function InsertStable(x: Result, s: seq<Result>): seq<Result> {
    if s == [] || !Less(s[0], x) then [x] + s else [s[0]] + InsertStable(x, s[1..])
  }

  /** sort.SliceStable, by value. */
  function SortStable(s: seq<Result>): seq<Result> {
    if s == [] then [] else InsertStable(s[0], SortStable(s[1..]))
  }

  lemma {:induction false} InsertKeepsOrder(x: Result, s: seq<Result>)
    requires Ordered(s)
    ensures Ordered(InsertStable(x, s))
    ensures forall y :: y in InsertStable(x, s) <==> y == x || y in s
    ensures forall r :: RankClass(InsertStable(x, s), r) == RankClass([x] + s, r)
  {
    if s == [] || !Less(s[0], x) {
    } else {
      InsertKeepsOrder(x, s[1..]);
      var rest := InsertStable(x, s[1..]);
      forall j | 0 <= j < |rest| ensures !Less(rest[j], s[0]) {
        assert rest[j] in rest;
        assert rest[j] == x || rest[j] in s[1..];
      }
      var out := [s[0]] + rest;
      forall r ensures RankClass(out, r) == RankClass([x] + s, r) {
        assert out[1..] == rest && ([x] + s)[1..] == s && ([x] + s[1..])[1..] == s[1..];
        assert !SameRank(s[0], x);
      }
    }
  }

  lemma {:induction false} SortStableIsStable(s: seq<Result>)
    ensures StablySorted(SortStable(s), s)
  {
    if s != [] {
      SortStableIsStable(s[1..]);
      InsertKeepsOrder(s[0], SortStable(s[1..]));
      var t := SortStable(s[1..]);
      forall r ensures RankClass(SortStable(s), r) == RankClass(s, r) {
        assert ([s[0]] + t)[1..] == t;
      }
    }
  }

  lemma {:induction false} SameMembers(a: seq<Result>, b: seq<Result>)
    requires forall r :: RankClass(a, r) == RankClass(b, r)
    ensures forall x :: x in a <==> x in b
    ensures |a| == |b| && multiset(a) == multiset(b)
  {
    SortStableIsStable(a);
    SortStableIsStable(b);
    StableUnique(SortStable(a), SortStable(b));
    SortStablePermutes(a);
    SortStablePermutes(b);
    forall x ensures x in a <==> x in b {
      assert x in a <==> x in multiset(a);
      assert x in b <==> x in multiset(b);
    }
    assert |a| == |multiset(a)| && |b| == |multiset(b)|;
  }

  lemma {:induction false} InsertPermutes(x: Result, s: seq<Result>)
    ensures multiset(InsertStable(x, s)) == multiset{x} + multiset(s)
  {
    if s != [] && Less(s[0], x) {
      InsertPermutes(x, s[1..]);
      assert s == [s[0]] + s[1..];
    }
  }

  lemma {:induction false} SortStablePermutes(s: seq<Result>)
    ensures multiset(SortStable(s)) == multiset(s)
  {
    if s != [] {
      SortStablePermutes(s[1..]);
      InsertPermutes(s[0], SortStable(s[1..]));
      assert s == [s[0]] + s[1..];
    }
  }

  /** Where the insertion happens: after everything that ranks strictly before x, before the rest. */
  lemma {:induction false} InsertedAt(x: Result, s: seq<Result>) returns (q: nat)
    requires Ordered(s)
    ensures q <= |s| && InsertStable(x, s) == s[..q] + [x] + s[q..]
    ensures forall k :: 0 <= k < q ==> Less(s[k], x)
    ensures forall k :: q <= k < |s| ==> !Less(s[k], x)
  {
    q := 0;
    if s != [] && Less(s[0], x) {
      var r := InsertedAt(x, s[1..]);
      q := r + 1;
      assert s == [s[0]] + s[1..];
      assert s[1..][..r] == s[1..q] && s[1..][r..] == s[q..];
      forall k | 0 <= k < |s| ensures k < q <==> Less(s[k], x) {
        if k > 0 { assert s[k] == s[1..][k - 1]; }
      }
    }
  }

  /** Position i of s comes strictly before position j: it ranks lower, or alike and was given earlier. */
  predicate Precedes(s: seq<Result>, i: nat, j: nat)
    requires i < |s| && j < |s|
  {
    if s[i].ok != s[j].ok then s[i].ok
    else s[i].rtt < s[j].rtt || (s[i].rtt == s[j].rtt && i < j)
  }

  /** `at` lists every position of s once, each before those it precedes, and `out` reads s in that order. */
  ghost predicate Arranges(out: seq<Result>, s: seq<Result>, at: seq<nat>) {
    && |at| == |s| == |out|
    && (forall k :: 0 <= k < |at| ==> at[k] < |s| && out[k] == s[at[k]])
    && (forall i: nat :: i < |s| ==> i in at)
    && (forall j, k :: 0 <= j < k < |at| ==> Precedes(s, at[j], at[k]))
  }

  /** Position 0 put at place q among the positions after it. */
  function Placed(rest: seq<nat>, q: nat): (at: seq<nat>)
    requires q <= |rest|
    ensures |at| == |rest| + 1
  {
    seq(|rest| + 1, k requires 0 <= k <= |rest| => if k < q then rest[k] + 1 else if k == q then 0 else rest[k - 1] + 1)
  }

  lemma PlacedCovers(rest: seq<nat>, q: nat, n: nat)
    requires q <= |rest| && forall i: nat :: i < n ==> i in rest
    ensures forall i: nat :: i <= n ==> i in Placed(rest, q)
  {
    var at := Placed(rest, q);
    forall i: nat | i <= n ensures i in at {
      if i == 0 {
        assert at[q] == 0;
      } else {
        var before: nat := i - 1;
        assert before in rest;
        var k :| 0 <= k < |rest| && rest[k] == before;
        assert at[if k < q then k else k + 1] == i;
      }
    }
  }

  lemma PlacedOrdered(s: seq<Result>, t: seq<Result>, rest: seq<nat>, q: nat)
    requires s != [] && Arranges(t, s[1..], rest) && q <= |t|
    requires forall k :: 0 <= k < q ==> Less(t[k], s[0])
    requires forall k :: q <= k < |t| ==> !Less(t[k], s[0])
    ensures
      var at := Placed(rest, q);
      && (forall k :: 0 <= k < |at| ==> at[k] < |s|)
      && forall j, k :: 0 <= j < k < |at| ==> Precedes(s, at[j], at[k])
  {
    var at := Placed(rest, q);
    forall k | 0 <= k < |rest| ensures rest[k] + 1 < |s| && s[rest[k] + 1] == t[k] {
      assert t[k] == s[1..][rest[k]];
    }
    forall j, k | 0 <= j < k < |at| ensures Precedes(s, at[j], at[k]) {
      if j != q && k != q {
        var j', k' := if j < q then j else j - 1, if k < q then k else k - 1;
        assert Precedes(s[1..], rest[j'], rest[k']);
      }
    }
  }

  /** The sorted arrangement, position by position. */
  lemma {:induction false} SortedPositions(s: seq<Result>) returns (at: seq<nat>)
    ensures Arranges(SortStable(s), s, at)
  {
    at := [];
    if s != [] {
      var t := SortStable(s[1..]);
      var rest := SortedPositions(s[1..]);
      SortStableIsStable(s[1..]);
      var q := InsertedAt(s[0], t);
      at := Placed(rest, q);
      PlacedCovers(rest, q, |rest|);
      PlacedOrdered(s, t, rest, q);
      PlacedReads(s, t, rest, q);
    }
  }

  lemma PlacedReads(s: seq<Result>, t: seq<Result>, rest: seq<nat>, q: nat)
    requires s != [] && Arranges(t, s[1..], rest) && q <= |t|
    ensures
      var at, out := Placed(rest, q), t[..q] + [s[0]] + t[q..];
      |out| == |at| == |s| && forall k :: 0 <= k < |at| ==> at[k] < |s| && out[k] == s[at[k]]
  {
    var at, out := Placed(rest, q), t[..q] + [s[0]] + t[q..];
    forall k | 0 <= k < |at| ensures at[k] < |s| && out[k] == s[at[k]] {
      if k != q {
        var k' := if k < q then k else k - 1;
        assert out[k] == t[k'] == s[1..][rest[k']];
      }
    }
  }

  // ---------- RankTCP and Reachable ----------

  /**
   RankTCP. outcomes[i] is what dialling address i comes to; the goroutines may finish in any
   order, which is the order the loop happens to pick.
   */
  method RankTCP(outcomes: seq<Result>) returns (results: array<Result>)
    ensures fresh(results) && StablySorted(results[..], outcomes)
  {
    results := new Result[|outcomes|](_ => Result("", 0, false));
    var running: set<nat> := {};
    for i := 0 to |outcomes|
      invariant forall k: nat :: k in running <==> k < i
    {
      running := running + {i};
    }
    while running != {}
      invariant forall i :: i in running ==> i < |outcomes|
      invariant forall i :: 0 <= i < |outcomes| && i !in running ==> results[i] == outcomes[i]
    {
      var i :| i in running;
      results[i] := outcomes[i];
      running := running - {i};
    }
    assert results[..] == outcomes;
    SliceStable(results);
  }

  method SliceStable(a: array<Result>)
    modifies a
    ensures StablySorted(a[..], old(a[..]))
  {
    var sorted := SortStable(a[..]);
    SortStablePermutes(a[..]);
    SortStableIsStable(a[..]);
    assert |sorted| == |multiset(sorted)| == |multiset(a[..])| == a.Length;
    forall i | 0 <= i < a.Length {
      a[i] := sorted[i];
    }
    assert a[..] == sorted;
  }

  function OnlyOK(s: seq<Result>): seq<Result> {
    if s == [] then []
    else if s[0].ok then [s[0]] + OnlyOK(s[1..])
    else OnlyOK(s[1..])
  }

  function OnlyFailed(s: seq<Result>): seq<Result> {
    if s == [] then []
    else if s[0].ok then OnlyFailed(s[1..])
    else [s[0]] + OnlyFailed(s[1..])
  }

  function Addresses(s: seq<Result>): seq<string> {
    seq(|s|, i requires 0 <= i < |s| => s[i].ip)
  }

  lemma AddressStep(results: seq<Result>, i: nat)
    requires i < |results|
    ensures Addresses(OnlyOK(results[i..])) ==
            (if results[i].ok then [results[i].ip] else []) + Addresses(OnlyOK(results[i + 1..]))
  {
    var rest := OnlyOK(results[i + 1..]);
    assert results[i..][1..] == results[i + 1..];
    assert Addresses([results[i]] + rest) == [results[i].ip] + Addresses(rest);
  }

  method Reachable(results: seq<Result>) returns (out: seq<string>)
    ensures out == Addresses(OnlyOK(results))
  {
    out := [];
    for i := 0 to |results|
      invariant out + Addresses(OnlyOK(results[i..])) == Addresses(OnlyOK(results))
    {
      AddressStep(results, i);
      if results[i].ok {
        out := out + [results[i].ip];
      }
    }
  }

  lemma {:induction false} OKMembers(s: seq<Result>, x: Result)
    ensures x in OnlyOK(s) <==> x in s && x.ok
  {
    if s != [] {
      OKMembers(s[1..], x);
    }
  }

  lemma {:induction false} FailedMembers(s: seq<Result>, x: Result)
    ensures x in OnlyFailed(s) <==> x in s && !x.ok
  {
    if s != [] {
      FailedMembers(s[1..], x);
    }
  }

  lemma {:induction false} NoneOK(s: seq<Result>)
    requires forall x :: x in s ==> !x.ok
    ensures OnlyOK(s) == []
  {
    if s != [] {
      assert s[0] in s;
      NoneOK(s[1..]);
    }
  }

  /** In order, nothing after a failed attempt answered. */
  lemma NoneAfterFailed(s: seq<Result>)
    requires s != [] && Ordered(s) && !s[0].ok
    ensures OnlyOK(s[1..]) == []
  {
    forall x | x in s[1..] ensures !x.ok {
      var j :| 0 <= j < |s[1..]| && s[1..][j] == x;
      assert !Less(s[j + 1], s[0]);
    }
    NoneOK(s[1..]);
  }

  lemma OrderedRest(s: seq<Result>)
    requires s != [] && Ordered(s)
    ensures Ordered(s[1..])
  {
    var rest := s[1..];
    forall i, j | 0 <= i < j < |rest| ensures !Less(rest[j], rest[i]) {
      assert rest[i] == s[i + 1] && rest[j] == s[j + 1];
    }
  }

  /** What answered and what did not, with one more result in front. */
  lemma SeparatedFirst(s: seq<Result>)
    requires s != [] && s[1..] == OnlyOK(s[1..]) + OnlyFailed(s[1..])
    requires !s[0].ok ==> OnlyOK(s[1..]) == []
    ensures s == OnlyOK(s) + OnlyFailed(s)
  {
    assert s == [s[0]] + s[1..];
  }

  /** In order, everything that answered comes before everything that did not. */
  lemma {:induction false} OKPrefix(s: seq<Result>)
    requires Ordered(s)
    ensures s == OnlyOK(s) + OnlyFailed(s)
  {
    if s != [] {
      OrderedRest(s);
      OKPrefix(s[1..]);
      if !s[0].ok { NoneAfterFailed(s); }
      SeparatedFirst(s);
    }
  }

  /** Failed attempts all rank alike, so they form one class. */
  lemma {:induction false} FailedIsClass(s: seq<Result>, r: Result)
    requires (forall x :: x in s ==> Dialled(x)) && !r.ok && r.rtt == 0
    ensures OnlyFailed(s) == RankClass(s, r)
  {
    if s != [] {
      assert s[0] in s;
      FailedIsClass(s[1..], r);
    }
  }

  /** `kept` are the answering results, fastest first, cut to `most` when that is positive. */
  ghost predicate Fastest(kept: seq<Result>, outcomes: seq<Result>, most: int) {
    && (forall i, j :: 0 <= i < j < |kept| ==> kept[i].rtt <= kept[j].rtt)
    && multiset(kept) <= multiset(OnlyOK(outcomes))
    && |kept| == (if 0 < most < |OnlyOK(outcomes)| then most else |OnlyOK(outcomes)|)
    && forall x, y :: x in kept && y in multiset(OnlyOK(outcomes)) - multiset(kept) ==> x.rtt <= y.rtt
  }

  function Cut<T>(s: seq<T>, most: int): seq<T> {
    if most > 0 && |s| > most then s[..most] else s
  }

  lemma OKOrdered(out: seq<Result>)
    requires Ordered(out)
    ensures forall i, j :: 0 <= i < j < |OnlyOK(out)| ==> OnlyOK(out)[i].rtt <= OnlyOK(out)[j].rtt
  {
    OKPrefix(out);
    var good := OnlyOK(out);
    forall i, j | 0 <= i < j < |good| ensures good[i].rtt <= good[j].rtt {
      assert out[i] == good[i] && out[j] == good[j];
      assert good[i] in good && good[j] in good;
      OKMembers(out, good[i]);
      OKMembers(out, good[j]);
      assert !Less(out[j], out[i]);
    }
  }

  lemma CutIsFastest(good: seq<Result>, most: int, n: nat)
    requires forall i, j :: 0 <= i < j < |good| ==> good[i].rtt <= good[j].rtt
    requires n <= |good|
    ensures multiset(good[..n]) <= multiset(good)
    ensures forall x, y :: x in good[..n] && y in multiset(good) - multiset(good[..n]) ==> x.rtt <= y.rtt
  {
    assert good == good[..n] + good[n..];
    forall x, y | x in good[..n] && y in multiset(good) - multiset(good[..n]) ensures x.rtt <= y.rtt {
      assert y in multiset(good[n..]);
      var j :| 0 <= j < |good[n..]| && good[n..][j] == y;
      assert y == good[n + j];
    }
  }

  /**
   The ranking as a caller sees it: the answering addresses fastest first, then the others in the
   order they were given; and a cut keeps exactly the fastest.
   */
  lemma RankingMeaning(out: seq<Result>, outcomes: seq<Result>, most: int)
    requires StablySorted(out, outcomes) && forall x :: x in outcomes ==> Dialled(x)
    ensures out == OnlyOK(out) + OnlyFailed(outcomes)
    ensures Fastest(Cut(OnlyOK(out), most), outcomes, most)
  {
    FailedInOrder(out, outcomes);
    SameOKBag(out, outcomes);
    OKOrdered(out);
    CutMeaning(OnlyOK(out), outcomes, most);
  }

  lemma SameOKBag(out: seq<Result>, outcomes: seq<Result>)
    requires StablySorted(out, outcomes)
    ensures multiset(OnlyOK(out)) == multiset(OnlyOK(outcomes))
  {
    SameMembers(out, outcomes);
    OKBag(out);
    OKBag(outcomes);
  }

  lemma CutMeaning(good: seq<Result>, outcomes: seq<Result>, most: int)
    requires forall i, j :: 0 <= i < j < |good| ==> good[i].rtt <= good[j].rtt
    requires multiset(good) == multiset(OnlyOK(outcomes))
    ensures Fastest(Cut(good, most), outcomes, most)
  {
    assert |good| == |multiset(good)| == |multiset(OnlyOK(outcomes))| == |OnlyOK(outcomes)|;
    var n := if 0 < most < |good| then most else |good|;
    assert Cut(good, most) == good[..n];
    CutIsFastest(good, most, n);
  }

  lemma FailedInOrder(out: seq<Result>, outcomes: seq<Result>)
    requires StablySorted(out, outcomes) && forall x :: x in outcomes ==> Dialled(x)
    ensures out == OnlyOK(out) + OnlyFailed(outcomes)
  {
    OKPrefix(out);
    SameMembers(out, outcomes);
    var failed := Result("", 0, false);
    FailedIsClass(out, failed);
    FailedIsClass(outcomes, failed);
  }

  lemma {:induction false} OKBag(s: seq<Result>)
    ensures forall x :: multiset(OnlyOK(s))[x] == if x.ok then multiset(s)[x] else 0
  {
    if s != [] {
      OKBag(s[1..]);
      assert s == [s[0]] + s[1..];
    }
  }
}

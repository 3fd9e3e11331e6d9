/** Brand classification by successive stable sorts (domain/metrics.py). Growth and sales are
    exact reals. */
module Brands {
  import opened Prelude

  datatype Brand = Brand(id: string, name: string, sales: real, rank: int, growth: real)

  datatype Summary = Summary(top: seq<Brand>, low: seq<Brand>, focus: seq<Brand>)

  datatype Order = BestRank | WorstRank | Declining

  // String comparison by code point.
  predicate Precedes(a: string, b: string) {
    if b == "" then false
    else if a == "" then true
    else if a[0] == b[0] then Precedes(a[1..], b[1..])
    else a[0] < b[0]
  }

  // The tuple comparison behind each sort key.
  predicate Before(o: Order, a: Brand, b: Brand) {
    match o
    case BestRank => a.rank < b.rank || (a.rank == b.rank && Precedes(a.name, b.name))
    case WorstRank => a.rank > b.rank || (a.rank == b.rank && Precedes(a.name, b.name))
    case Declining => a.growth < b.growth || (a.growth == b.growth && Precedes(a.name, b.name))
  }

  predicate SameKey(o: Order, a: Brand, b: Brand) {
    a.name == b.name && if o.Declining? then a.growth == b.growth else a.rank == b.rank
  }

  lemma {:induction false} PrecedesIsOrder(a: string, b: string, c: string)
    ensures !Precedes(a, a)
    ensures Precedes(a, b) && Precedes(b, c) ==> Precedes(a, c)
    ensures a == b || Precedes(a, b) || Precedes(b, a)
    ensures !(Precedes(a, b) && Precedes(b, a))
  {
    if a != "" { PrecedesIsOrder(a[1..], if b == "" then "" else b[1..], if c == "" then "" else c[1..]); }
  }

  // a stops, or has the smaller character, where the two first differ.
  ghost predicate SmallerAt(a: string, b: string, i: int) {
    0 <= i <= |a| && i < |b| && a[..i] == b[..i] && (i == |a| || a[i] < b[i])
  }

  lemma SmallerLater(a: string, b: string, i: int)
    requires a != "" && b != ""
    ensures SmallerAt(a, b, i) && i > 0 ==> a[0] == b[0] && SmallerAt(a[1..], b[1..], i - 1)
    ensures a[0] == b[0] && SmallerAt(a[1..], b[1..], i - 1) ==> SmallerAt(a, b, i)
  {
    if SmallerAt(a, b, i) && i > 0 {
      assert a[0] == a[..i][0] && b[0] == b[..i][0];
      assert a[1..][..i - 1] == a[..i][1..] && b[1..][..i - 1] == b[..i][1..];
    }
    if a[0] == b[0] && SmallerAt(a[1..], b[1..], i - 1) {
      assert a[..i] == [a[0]] + a[1..][..i - 1] && b[..i] == [b[0]] + b[1..][..i - 1];
    }
  }

  /** Names compare by their first difference, a prefix first. */
  lemma {:induction false} PrecedesMeaning(a: string, b: string)
    ensures Precedes(a, b) <==> exists i :: SmallerAt(a, b, i)
  {
    if a == "" {
      if b != "" { assert SmallerAt(a, b, 0); }
    } else if b != "" {
      PrecedesMeaning(a[1..], b[1..]);
      forall i ensures SmallerAt(a, b, i) ==> Precedes(a, b) { SmallerLater(a, b, i); }
      if Precedes(a, b) {
        if a[0] == b[0] {
          var i :| SmallerAt(a[1..], b[1..], i);
          SmallerLater(a, b, i + 1);
        } else {
          assert SmallerAt(a, b, 0);
        }
      }
    }
  }

  lemma BeforeIsOrder(o: Order, a: Brand, b: Brand, c: Brand)
    ensures !Before(o, a, a)
    ensures Before(o, a, b) && Before(o, b, c) ==> Before(o, a, c)
    ensures SameKey(o, a, b) || Before(o, a, b) || Before(o, b, a)
    ensures !(Before(o, a, b) && Before(o, b, a))
    ensures !Before(o, b, a) && !Before(o, c, b) ==> !Before(o, c, a)
  {
    PrecedesIsOrder(a.name, b.name, c.name);
    PrecedesIsOrder(c.name, a.name, b.name);
    PrecedesIsOrder(c.name, b.name, a.name);
  }

  /* ---------- the stable sort ---------- */

  // sorted places an element after the ones its key does not precede.
  function Placed(o: Order, s: seq<Brand>, x: Brand): seq<Brand> {
    if s == [] || !Before(o, x, s[|s| - 1]) then s + [x] else Placed(o, s[..|s| - 1], x) + [s[|s| - 1]]
  }

  function Sorted(o: Order, s: seq<Brand>): seq<Brand> {
    if s == [] then [] else Placed(o, Sorted(o, s[..|s| - 1]), s[|s| - 1])
  }

  ghost predicate InOrder(o: Order, s: seq<Brand>) {
    forall i, j :: 0 <= i < j < |s| ==> !Before(o, s[j], s[i])
  }

  // The elements sharing x's key, in sequence order.
  function Ties(o: Order, s: seq<Brand>, x: Brand): seq<Brand> {
    if s == [] then []
    else Ties(o, s[..|s| - 1], x) + (if SameKey(o, s[|s| - 1], x) then [s[|s| - 1]] else [])
  }

  lemma {:induction false} PlacedMembers(o: Order, s: seq<Brand>, x: Brand)
    ensures multiset(Placed(o, s, x)) == multiset(s) + multiset{x}
  {
    if s != [] {
      var front, last := s[..|s| - 1], s[|s| - 1];
      assert s == front + [last];
      PlacedMembers(o, front, x);
    }
  }

  // Nothing placed before last comes after it.
  lemma PlacedBelow(o: Order, front: seq<Brand>, x: Brand, last: Brand)
    requires InOrder(o, front + [last]) && Before(o, x, last)
    ensures forall i :: 0 <= i < |Placed(o, front, x)| ==> !Before(o, last, Placed(o, front, x)[i])
  {
    var p, s := Placed(o, front, x), front + [last];
    PlacedMembers(o, front, x);
    forall i | 0 <= i < |p| ensures !Before(o, last, p[i]) {
      assert p[i] in multiset(p);
      BeforeIsOrder(o, x, last, x);
      if p[i] != x {
        assert p[i] in front;
        var j :| 0 <= j < |front| && front[j] == p[i];
        assert s[j] == p[i] && s[|front|] == last;
      }
    }
  }

  lemma {:induction false} PlacedInOrder(o: Order, s: seq<Brand>, x: Brand)
    requires InOrder(o, s)
    ensures InOrder(o, Placed(o, s, x)) && multiset(Placed(o, s, x)) == multiset(s) + multiset{x}
  {
    PlacedMembers(o, s, x);
    if s != [] {
      var front, last := s[..|s| - 1], s[|s| - 1];
      assert s == front + [last];
      if Before(o, x, last) {
        PlacedInOrder(o, front, x);
        PlacedBelow(o, front, x, last);
      } else {
        forall i | 0 <= i < |s| ensures !Before(o, x, s[i]) { BeforeIsOrder(o, s[i], last, x); }
      }
    }
  }

  lemma TiesSnoc(o: Order, s: seq<Brand>, x: Brand, y: Brand)
    ensures Ties(o, s + [x], y) == Ties(o, s, y) + If(SameKey(o, x, y), x)
  {
    assert (s + [x])[..|s|] == s;
  }

  // Neither of two brands the key tells apart ties with what the other ties with.
  lemma NotBothTie(o: Order, a: Brand, b: Brand, y: Brand)
    requires Before(o, a, b)
    ensures !(SameKey(o, a, y) && SameKey(o, b, y))
  {
    PrecedesIsOrder(a.name, b.name, a.name);
  }

  function If(tie: bool, b: Brand): seq<Brand> {
    if tie then [b] else []
  }

  lemma Swapped(t: seq<Brand>, x: Brand, last: Brand, xTies: bool, lastTies: bool)
    requires !(xTies && lastTies)
    ensures t + If(xTies, x) + If(lastTies, last) == t + If(lastTies, last) + If(xTies, x)
  {}

  // Moving x before last changes no tie.
  lemma {:induction false} MovedBefore(o: Order, front: seq<Brand>, placed: seq<Brand>, x: Brand, last: Brand, y: Brand)
    requires Before(o, x, last) && Ties(o, placed, y) == Ties(o, front + [x], y)
    ensures Ties(o, placed + [last], y) == Ties(o, front + [last] + [x], y)
  {
    TiesSnoc(o, placed, last, y);
    TiesSnoc(o, front, x, y);
    TiesSnoc(o, front, last, y);
    TiesSnoc(o, front + [last], x, y);
    NotBothTie(o, x, last, y);
    Swapped(Ties(o, front, y), x, last, SameKey(o, x, y), SameKey(o, last, y));
  }

  lemma {:induction false} PlacedTies(o: Order, s: seq<Brand>, x: Brand, y: Brand)
    ensures Ties(o, Placed(o, s, x), y) == Ties(o, s + [x], y)
  {
    if s != [] && Before(o, x, s[|s| - 1]) {
      var front, last := s[..|s| - 1], s[|s| - 1];
      assert s == front + [last];
      PlacedTies(o, front, x, y);
      MovedBefore(o, front, Placed(o, front, x), x, last, y);
    }
  }

  /** The sort yields the same brands in key order, and is stable: brands with equal keys keep
      their relative order. */
  lemma {:induction false} SortedMeaning(o: Order, s: seq<Brand>, y: Brand)
    ensures InOrder(o, Sorted(o, s)) && multiset(Sorted(o, s)) == multiset(s) && |Sorted(o, s)| == |s|
    ensures Ties(o, Sorted(o, s), y) == Ties(o, s, y)
  {
    if s != [] {
      var front, last := s[..|s| - 1], s[|s| - 1];
      assert s == front + [last];
      SortedMeaning(o, front, y);
      PlacedInOrder(o, Sorted(o, front), last);
      PlacedTies(o, Sorted(o, front), last, y);
      assert (Sorted(o, front) + [last])[..|front|] == Sorted(o, front);
      assert |multiset(Sorted(o, s))| == |multiset(s)|;
    }
  }

  lemma {:induction false} SortedShape(o: Order, s: seq<Brand>)
    ensures InOrder(o, Sorted(o, s)) && multiset(Sorted(o, s)) == multiset(s) && |Sorted(o, s)| == |s|
  {
    if s != [] { SortedMeaning(o, s, s[0]); }
  }

  /* ---------- classification ---------- */

  function Take(s: seq<Brand>, n: nat): seq<Brand> {
    if n < |s| then s[..n] else s
  }

  function Ids(s: seq<Brand>): set<string> {
    set r | r in s :: r.id
  }

  function Without(s: seq<Brand>, ids: set<string>): seq<Brand> {
    if s == [] then [] else Without(s[..|s| - 1], ids) + (if s[|s| - 1].id in ids then [] else [s[|s| - 1]])
  }

  function Decliners(s: seq<Brand>): seq<Brand> {
    if s == [] then [] else Decliners(s[..|s| - 1]) + (if s[|s| - 1].growth < 0.0 then [s[|s| - 1]] else [])
  }

  function Classify(rows: seq<Brand>, topN: int, lowN: int, focusN: int): Result<Summary, string> {
    if topN < 0 || lowN < 0 || focusN < 0 then Err("top_n, low_performing_n, and focus_n must be >= 0")
    else
      var byRank := Sorted(BestRank, rows);
      var top := Take(byRank, topN);
      var afterTop := Without(byRank, Ids(top));
      var low := Take(Sorted(WorstRank, afterTop), lowN);
      var afterLow := Without(afterTop, Ids(low));
      var focus := Take(Sorted(Declining, Decliners(afterLow)), focusN);
      Ok(Summary(top, low, focus))
  }

  // chosen are the k best candidates in key order: nobody left out beats anybody chosen.
  ghost predicate BestOf(o: Order, candidates: seq<Brand>, k: nat, chosen: seq<Brand>) {
    && |chosen| == (if k < |candidates| then k else |candidates|)
    && InOrder(o, chosen)
    && multiset(chosen) <= multiset(candidates)
    && forall r, c :: r in multiset(candidates) - multiset(chosen) && c in chosen ==> !Before(o, r, c)
  }

  lemma {:induction false} TakeIsBest(o: Order, candidates: seq<Brand>, k: nat)
    ensures BestOf(o, candidates, k, Take(Sorted(o, candidates), k))
  {
    var s := Sorted(o, candidates);
    var chosen := Take(s, k);
    var rest := s[|chosen|..];
    SortedShape(o, candidates);
    assert chosen == s[..|chosen|] && s == chosen + rest;
    BestFromSplit(o, candidates, k, chosen, rest);
  }

  lemma BestFromSplit(o: Order, candidates: seq<Brand>, k: nat, chosen: seq<Brand>, rest: seq<Brand>)
    requires multiset(candidates) == multiset(chosen + rest) && InOrder(o, chosen + rest)
    requires |chosen| == (if k < |candidates| then k else |candidates|)
    ensures BestOf(o, candidates, k, chosen)
  {
    assert multiset(candidates) == multiset(chosen) + multiset(rest);
    PrefixBeats(o, chosen, rest);
    assert multiset(candidates) - multiset(chosen) == multiset(rest);
  }

  lemma PrefixBeats(o: Order, chosen: seq<Brand>, rest: seq<Brand>)
    requires InOrder(o, chosen + rest)
    ensures InOrder(o, chosen) && forall r, c :: r in multiset(rest) && c in chosen ==> !Before(o, r, c)
  {
    var s := chosen + rest;
    forall i, j | 0 <= i < j < |chosen| ensures !Before(o, chosen[j], chosen[i]) { assert !Before(o, s[j], s[i]); }
    forall r, c | r in multiset(rest) && c in chosen ensures !Before(o, r, c) {
      var i :| 0 <= i < |rest| && rest[i] == r;
      var j :| 0 <= j < |chosen| && chosen[j] == c;
      assert !Before(o, s[|chosen| + i], s[j]);
    }
  }

  lemma SameCandidates(o: Order, candidates: seq<Brand>, others: seq<Brand>, k: nat, chosen: seq<Brand>)
    requires BestOf(o, candidates, k, chosen) && multiset(candidates) == multiset(others)
    ensures BestOf(o, others, k, chosen)
  {
    assert |multiset(candidates)| == |multiset(others)|;
  }

  lemma {:induction false} WithoutCount(s: seq<Brand>, ids: set<string>, r: Brand)
    ensures multiset(Without(s, ids))[r] == if r.id in ids then 0 else multiset(s)[r]
  {
    if s != [] {
      WithoutCount(s[..|s| - 1], ids, r);
      assert s == s[..|s| - 1] + [s[|s| - 1]];
    }
  }

  lemma {:induction false} DeclinersCount(s: seq<Brand>, r: Brand)
    ensures multiset(Decliners(s))[r] == if r.growth < 0.0 then multiset(s)[r] else 0
  {
    if s != [] {
      DeclinersCount(s[..|s| - 1], r);
      assert s == s[..|s| - 1] + [s[|s| - 1]];
    }
  }

  // Filtering the sorted rows is filtering the rows.
  lemma RemainingCount(rows: seq<Brand>, top: set<string>, low: set<string>, r: Brand)
    ensures multiset(Without(Sorted(BestRank, rows), top))[r] == multiset(Without(rows, top))[r]
    ensures multiset(Decliners(Without(Without(Sorted(BestRank, rows), top), low)))[r] == multiset(Decliners(Without(rows, top + low)))[r]
  {
    var s := Sorted(BestRank, rows);
    SortedShape(BestRank, rows);
    WithoutCount(s, top, r);
    WithoutCount(rows, top, r);
    DeclinersCount(Without(Without(s, top), low), r);
    WithoutCount(Without(s, top), low, r);
    DeclinersCount(Without(rows, top + low), r);
    WithoutCount(rows, top + low, r);
  }

  lemma {:induction false} SameRemaining(rows: seq<Brand>, top: set<string>)
    ensures multiset(Without(Sorted(BestRank, rows), top)) == multiset(Without(rows, top))
  {
    forall r ensures multiset(Without(Sorted(BestRank, rows), top))[r] == multiset(Without(rows, top))[r] {
      RemainingCount(rows, top, {}, r);
    }
  }

  lemma SameDecliners(rows: seq<Brand>, top: set<string>, low: set<string>)
    ensures multiset(Decliners(Without(Without(Sorted(BestRank, rows), top), low))) == multiset(Decliners(Without(rows, top + low)))
  {
    forall r ensures multiset(Decliners(Without(Without(Sorted(BestRank, rows), top), low)))[r] == multiset(Decliners(Without(rows, top + low)))[r] {
      RemainingCount(rows, top, low, r);
    }
  }

  // A choice among brands without these ids has none of these ids.
  lemma ChoiceAvoids(o: Order, rows: seq<Brand>, ids: set<string>, k: nat, chosen: seq<Brand>)
    requires BestOf(o, Without(rows, ids), k, chosen)
    ensures Ids(chosen) !! ids
  {
    forall r | r in chosen ensures r.id !in ids {
      assert r in multiset(chosen);
      WithoutCount(rows, ids, r);
    }
  }

  lemma FocusAvoids(rows: seq<Brand>, ids: set<string>, k: nat, chosen: seq<Brand>)
    requires BestOf(Declining, Decliners(Without(rows, ids)), k, chosen)
    ensures Ids(chosen) !! ids && forall r :: r in chosen ==> r.growth < 0.0
  {
    forall r | r in chosen ensures r.id !in ids && r.growth < 0.0 {
      assert r in multiset(chosen);
      DeclinersCount(Without(rows, ids), r);
      WithoutCount(rows, ids, r);
    }
  }

  /** Each list is exactly the best-k prefix, under its own key, of what the lists before it
      left over, focus brands being chosen among the declining ones only. */
  lemma ClassificationChooses(rows: seq<Brand>, topN: nat, lowN: nat, focusN: nat)
    ensures var c := Classify(rows, topN, lowN, focusN).value;
            && BestOf(BestRank, rows, topN, c.top)
            && BestOf(WorstRank, Without(rows, Ids(c.top)), lowN, c.low)
            && BestOf(Declining, Decliners(Without(rows, Ids(c.top) + Ids(c.low))), focusN, c.focus)
  {
    var s := Sorted(BestRank, rows);
    var c := Classify(rows, topN, lowN, focusN).value;
    var afterTop := Without(s, Ids(c.top));
    var candidates := Decliners(Without(afterTop, Ids(c.low)));
    SameRemaining(rows, Ids(c.top));
    SameDecliners(rows, Ids(c.top), Ids(c.low));
    TakeIsBest(BestRank, rows, topN);
    TakeIsBest(WorstRank, afterTop, lowN);
    TakeIsBest(Declining, candidates, focusN);
    SameCandidates(WorstRank, afterTop, Without(rows, Ids(c.top)), lowN, c.low);
    SameCandidates(Declining, candidates, Decliners(Without(rows, Ids(c.top) + Ids(c.low))), focusN, c.focus);
  }

  /** The three lists share no brand id, every focus brand is declining, and negative sizes,
      and only they, are rejected. */
  lemma {:induction false} ClassificationDisjoint(rows: seq<Brand>, topN: int, lowN: int, focusN: int)
    ensures Classify(rows, topN, lowN, focusN).Err? <==> topN < 0 || lowN < 0 || focusN < 0
    ensures Classify(rows, topN, lowN, focusN).Ok? ==>
              var c := Classify(rows, topN, lowN, focusN).value;
              && Ids(c.top) !! Ids(c.low) && Ids(c.top) !! Ids(c.focus) && Ids(c.low) !! Ids(c.focus)
              && forall r :: r in c.focus ==> r.growth < 0.0
  {
    if topN >= 0 && lowN >= 0 && focusN >= 0 {
      var c := Classify(rows, topN, lowN, focusN).value;
      ClassificationChooses(rows, topN, lowN, focusN);
      ChoiceAvoids(WorstRank, rows, Ids(c.top), lowN, c.low);
      FocusAvoids(rows, Ids(c.top) + Ids(c.low), focusN, c.focus);
    }
  }

  // Brands that no earlier list has taken.
  ghost predicate Free(taken: seq<Brand>, r: Brand) {
    forall t :: t in taken ==> t.id != r.id
  }

  ghost function NotIn(taken: seq<Brand>): Brand -> bool {
    (r: Brand) => Free(taken, r)
  }

  ghost function DecliningAndFree(top: seq<Brand>, low: seq<Brand>): Brand -> bool {
    (r: Brand) => r.growth < 0.0 && Free(top, r) && Free(low, r)
  }

  // chosen holds at most k of the rows that qualify, in order, best first: nobody who qualifies and
  // is left out goes before anybody chosen, and nobody is left out while there is room.
  ghost predicate Picks(o: Order, rows: seq<Brand>, qualifies: Brand -> bool, k: nat, chosen: seq<Brand>) {
    && |chosen| <= k
    && (forall r :: r in chosen ==> r in rows && qualifies(r))
    && (forall i, j :: 0 <= i < j < |chosen| ==> !Before(o, chosen[j], chosen[i]))
    && (forall r :: r in rows && qualifies(r) && r !in chosen ==> |chosen| == k && forall c :: c in chosen ==> !Before(o, r, c))
  }

  lemma LeftOut(candidates: seq<Brand>, chosen: seq<Brand>, r: Brand)
    requires multiset(chosen) <= multiset(candidates)
    ensures r in multiset(candidates) - multiset(chosen) ==> |chosen| < |candidates|
  {
    assert |multiset(candidates)| == |multiset(chosen)| + |multiset(candidates) - multiset(chosen)|;
  }

  lemma BestOfPicks(o: Order, rows: seq<Brand>, qualifies: Brand -> bool, candidates: seq<Brand>, k: nat, chosen: seq<Brand>)
    requires BestOf(o, candidates, k, chosen)
    requires forall r :: r in candidates <==> r in rows && qualifies(r)
    ensures Picks(o, rows, qualifies, k, chosen)
  {
    forall r | r in chosen ensures r in candidates { assert r in multiset(chosen); assert r in multiset(candidates); }
    forall r | r in rows && qualifies(r) && r !in chosen
      ensures |chosen| == k && forall c :: c in chosen ==> !Before(o, r, c)
    {
      assert r in multiset(candidates) - multiset(chosen);
      LeftOut(candidates, chosen, r);
    }
  }

  lemma {:induction false} WithoutMembers(s: seq<Brand>, ids: set<string>, r: Brand)
    ensures r in Without(s, ids) <==> r in s && r.id !in ids
    ensures r in Decliners(Without(s, ids)) <==> r in s && r.id !in ids && r.growth < 0.0
  {
    WithoutCount(s, ids, r);
    DeclinersCount(Without(s, ids), r);
    assert r in Without(s, ids) <==> r in multiset(Without(s, ids));
    assert r in s <==> r in multiset(s);
    assert r in Decliners(Without(s, ids)) <==> r in multiset(Decliners(Without(s, ids)));
  }

  // What each list's key compares, field by field.
  lemma BeforeMeaning(a: Brand, b: Brand)
    ensures Before(BestRank, a, b) <==> a.rank < b.rank || (a.rank == b.rank && Precedes(a.name, b.name))
    ensures Before(WorstRank, a, b) <==> b.rank < a.rank || (a.rank == b.rank && Precedes(a.name, b.name))
    ensures Before(Declining, a, b) <==> a.growth < b.growth || (a.growth == b.growth && Precedes(a.name, b.name))
  {}

  /** Who is chosen, by the rows' own fields: the top brands by lowest rank, among the brands not
      taken the lowest performing by highest rank, and among those not taken and declining the focus
      brands by lowest growth, each time by name where that ties. */
  lemma ClassificationMeaning(rows: seq<Brand>, topN: nat, lowN: nat, focusN: nat)
    ensures var c := Classify(rows, topN, lowN, focusN).value;
            && Picks(BestRank, rows, NotIn([]), topN, c.top)
            && Picks(WorstRank, rows, NotIn(c.top), lowN, c.low)
            && Picks(Declining, rows, DecliningAndFree(c.top, c.low), focusN, c.focus)
  {
    var c := Classify(rows, topN, lowN, focusN).value;
    ClassificationChooses(rows, topN, lowN, focusN);
    forall r ensures r in Without(rows, Ids(c.top)) <==> r in rows && Free(c.top, r) { WithoutMembers(rows, Ids(c.top), r); }
    forall r
      ensures r in Decliners(Without(rows, Ids(c.top) + Ids(c.low))) <==> r in rows && r.growth < 0.0 && Free(c.top, r) && Free(c.low, r)
    {
      WithoutMembers(rows, Ids(c.top) + Ids(c.low), r);
    }
    BestOfPicks(BestRank, rows, NotIn([]), rows, topN, c.top);
    BestOfPicks(WorstRank, rows, NotIn(c.top), Without(rows, Ids(c.top)), lowN, c.low);
    BestOfPicks(Declining, rows, DecliningAndFree(c.top, c.low),
                Decliners(Without(rows, Ids(c.top) + Ids(c.low))), focusN, c.focus);
  }

  /* ---------- input order does not matter ---------- */

  ghost predicate DistinctKeys(s: seq<Brand>) {
    forall i, j :: 0 <= i < j < |s| ==> !SameKey(BestRank, s[i], s[j])
  }

  ghost predicate StrictlyInOrder(s: seq<Brand>) {
    forall i, j :: 0 <= i < j < |s| ==> Before(BestRank, s[i], s[j])
  }

  lemma LastIsGreatest(s: seq<Brand>, t: seq<Brand>)
    requires StrictlyInOrder(s) && StrictlyInOrder(t) && multiset(s) == multiset(t) && s != [] && t != []
    ensures s[|s| - 1] == t[|t| - 1]
  {
    var x, y := s[|s| - 1], t[|t| - 1];
    assert x in multiset(t) && y in multiset(s);
    var i :| 0 <= i < |t| && t[i] == x;
    var j :| 0 <= j < |s| && s[j] == y;
    BeforeIsOrder(BestRank, x, y, x);
  }

  lemma FrontMultiset(s: seq<Brand>)
    requires s != []
    ensures s == s[..|s| - 1] + [s[|s| - 1]] && multiset(s[..|s| - 1]) == multiset(s) - multiset{s[|s| - 1]}
  {
    assert s == s[..|s| - 1] + [s[|s| - 1]];
  }

  lemma {:induction false} StrictOrderUnique(s: seq<Brand>, t: seq<Brand>)
    requires StrictlyInOrder(s) && StrictlyInOrder(t) && multiset(s) == multiset(t)
    ensures s == t
  {
    assert |multiset(t)| == |multiset(s)|;
    if s != [] {
      var front, front' := s[..|s| - 1], t[..|t| - 1];
      LastIsGreatest(s, t);
      FrontMultiset(s);
      FrontMultiset(t);
      StrictOrderUnique(front, front');
    }
  }

  lemma {:induction false} TiesCount(s: seq<Brand>, i: nat, j: nat, x: Brand)
    requires i < j < |s| && SameKey(BestRank, s[i], x) && SameKey(BestRank, s[j], x)
    ensures |Ties(BestRank, s, x)| >= 2
  {
    var front := s[..|s| - 1];
    if j < |s| - 1 {
      TiesCount(front, i, j, x);
    } else {
      OneTie(front, i, x);
    }
  }

  lemma {:induction false} OneTie(s: seq<Brand>, i: nat, x: Brand)
    requires i < |s| && SameKey(BestRank, s[i], x)
    ensures |Ties(BestRank, s, x)| >= 1
  {
    if i < |s| - 1 { OneTie(s[..|s| - 1], i, x); }
  }

  lemma {:induction false} AtMostOneTie(s: seq<Brand>, x: Brand)
    requires DistinctKeys(s)
    ensures |Ties(BestRank, s, x)| <= 1
  {
    if s != [] {
      var front, last := s[..|s| - 1], s[|s| - 1];
      AtMostOneTie(front, x);
      if SameKey(BestRank, last, x) { NoTie(front, x); }
    }
  }

  lemma {:induction false} NoTie(s: seq<Brand>, x: Brand)
    requires forall i :: 0 <= i < |s| ==> !SameKey(BestRank, s[i], x)
    ensures Ties(BestRank, s, x) == []
  {
    if s != [] { NoTie(s[..|s| - 1], x); }
  }

  lemma SortedStrictly(s: seq<Brand>)
    requires DistinctKeys(s)
    ensures StrictlyInOrder(Sorted(BestRank, s))
  {
    var t := Sorted(BestRank, s);
    forall i, j | 0 <= i < j < |t| ensures Before(BestRank, t[i], t[j]) {
      SortedMeaning(BestRank, s, t[j]);
      AtMostOneTie(s, t[j]);
      if SameKey(BestRank, t[i], t[j]) { TiesCount(t, i, j, t[j]); }
      BeforeIsOrder(BestRank, t[i], t[j], t[i]);
    }
  }

  lemma PermutedKeys(s: seq<Brand>, t: seq<Brand>)
    requires DistinctKeys(s) && multiset(s) == multiset(t)
    ensures DistinctKeys(t)
  {
    forall i, j | 0 <= i < j < |t| ensures !SameKey(BestRank, t[i], t[j]) {
      assert t[i] in multiset(s) && t[j] in multiset(s);
      var a :| 0 <= a < |s| && s[a] == t[i];
      var b :| 0 <= b < |s| && s[b] == t[j];
      if a == b {
        TwiceIn(t, i, j);
        OnceIn(s, a);
      }
    }
  }

  lemma TwiceIn(t: seq<Brand>, i: nat, j: nat)
    requires i < j < |t| && t[i] == t[j]
    ensures multiset(t)[t[i]] >= 2
  {
    assert t == t[..j] + [t[j]] + t[j + 1..];
    assert t[i] in t[..j];
  }

  lemma OnceIn(s: seq<Brand>, a: nat)
    requires a < |s| && DistinctKeys(s)
    ensures multiset(s)[s[a]] == 1
  {
    assert s == s[..a] + [s[a]] + s[a + 1..];
    forall k | 0 <= k < a ensures s[..a][k] != s[a] { assert !SameKey(BestRank, s[k], s[a]); }
    forall k | a < k < |s| ensures s[k] != s[a] { assert !SameKey(BestRank, s[a], s[k]); }
    assert s[a] !in s[..a] && s[a] !in s[a + 1..];
  }

  /** When no two brands share rank and name, the classification does not depend on the order
      the rows arrive in. */
  lemma {:induction false} OrderIndependent(rows: seq<Brand>, shuffled: seq<Brand>, topN: int, lowN: int, focusN: int)
    requires DistinctKeys(rows) && multiset(rows) == multiset(shuffled)
    ensures Classify(rows, topN, lowN, focusN) == Classify(shuffled, topN, lowN, focusN)
  {
    PermutedKeys(rows, shuffled);
    SortedStrictly(rows);
    SortedStrictly(shuffled);
    SortedShape(BestRank, rows);
    SortedShape(BestRank, shuffled);
    StrictOrderUnique(Sorted(BestRank, rows), Sorted(BestRank, shuffled));
  }

  // The classification is the same for every order of the rows and all sizes.
  ghost predicate OrderFree(rows: seq<Brand>) {
    forall shuffled: seq<Brand>, topN: int, lowN: int, focusN: int :: multiset(shuffled) == multiset(rows) ==>
      Classify(rows, topN, lowN, focusN) == Classify(shuffled, topN, lowN, focusN)
  }

  // The table's key: no two rows share an id.
  ghost predicate DistinctIds(s: seq<Brand>) {
    forall i, j :: 0 <= i < j < |s| ==> s[i].id != s[j].id
  }

  lemma {:induction false} FirstTie(s: seq<Brand>, i: nat, x: Brand) returns (k: nat)
    requires i < |s| && SameKey(BestRank, s[i], x)
    ensures k <= i && Ties(BestRank, s, x) != [] && Ties(BestRank, s, x)[0] == s[k]
  {
    var front := s[..|s| - 1];
    if i < |front| {
      k := FirstTie(front, i, x);
    } else if j :| 0 <= j < |front| && SameKey(BestRank, front[j], x) {
      k := FirstTie(front, j, x);
    } else {
      NoTie(front, x);
      k := i;
    }
  }

  // The row at j moved to the front.
  function MovedUp(s: seq<Brand>, j: nat): seq<Brand>
    requires j < |s|
  {
    [s[j]] + s[..j] + s[j + 1..]
  }

  lemma MovedUpIsShuffle(s: seq<Brand>, j: nat)
    requires j < |s|
    ensures multiset(MovedUp(s, j)) == multiset(s)
  {
    assert s == s[..j] + [s[j]] + s[j + 1..];
  }

  lemma FirstTieMoved(s: seq<Brand>, j: nat)
    requires j < |s|
    ensures Ties(BestRank, MovedUp(s, j), s[j]) != [] && Ties(BestRank, MovedUp(s, j), s[j])[0] == s[j]
  {
    assert MovedUp(s, j)[0] == s[j];
    var k := FirstTie(MovedUp(s, j), 0, s[j]);
  }

  lemma {:induction false} FirstTieStays(s: seq<Brand>, i: nat, j: nat)
    requires i < j < |s| && SameKey(BestRank, s[i], s[j]) && DistinctIds(s)
    ensures Ties(BestRank, s, s[j]) != [] && Ties(BestRank, s, s[j])[0] != s[j]
  {
    var k := FirstTie(s, i, s[j]);
    assert s[k].id != s[j].id;
  }

  lemma {:induction false} TieShowsInSort(rows: seq<Brand>, i: nat, j: nat)
    requires i < j < |rows| && SameKey(BestRank, rows[i], rows[j]) && DistinctIds(rows)
    ensures Sorted(BestRank, rows) != Sorted(BestRank, MovedUp(rows, j))
  {
    FirstTieStays(rows, i, j);
    FirstTieMoved(rows, j);
    SortedMeaning(BestRank, rows, rows[j]);
    SortedMeaning(BestRank, MovedUp(rows, j), rows[j]);
  }

  lemma {:induction false} RankingSize(rows: seq<Brand>)
    ensures |Sorted(BestRank, rows)| == |rows|
  {
    SortedShape(BestRank, rows);
  }

  lemma TakesAll(s: seq<Brand>)
    ensures Take(s, |s|) == s
  {}

  // A shared rank and name lets the input's order show.
  lemma TieShows(rows: seq<Brand>, i: nat, j: nat)
    requires i < j < |rows| && SameKey(BestRank, rows[i], rows[j]) && DistinctIds(rows)
    ensures multiset(MovedUp(rows, j)) == multiset(rows)
    ensures Classify(rows, |rows|, 0, 0) != Classify(MovedUp(rows, j), |rows|, 0, 0)
  {
    TieShowsInSort(rows, i, j);
    MovedUpIsShuffle(rows, j);
    RankingSize(rows);
    RankingSize(MovedUp(rows, j));
    TakesAll(Sorted(BestRank, rows));
    TakesAll(Sorted(BestRank, MovedUp(rows, j)));
  }

  /** For rows with distinct ids the classification is independent of the order they arrive in
      exactly when no two of them share rank and name. */
  lemma OrderFreeIffDistinctKeys(rows: seq<Brand>)
    requires DistinctIds(rows)
    ensures OrderFree(rows) <==> DistinctKeys(rows)
  {
    if DistinctKeys(rows) {
      forall shuffled: seq<Brand>, topN: int, lowN: int, focusN: int | multiset(shuffled) == multiset(rows)
        ensures Classify(rows, topN, lowN, focusN) == Classify(shuffled, topN, lowN, focusN)
      {
        OrderIndependent(rows, shuffled, topN, lowN, focusN);
      }
    } else {
      var i, j :| 0 <= i < j < |rows| && SameKey(BestRank, rows[i], rows[j]);
      TieShows(rows, i, j);
    }
  }
}

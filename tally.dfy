/**
 * `tally` and `winnerLine` from scripts/render.mjs: the vote counts of one
 * fight and the line that names the winner.
 */
module Tally {
  import opened Outcomes
  import opened Store

  /** `{ a, b, aCount, bCount, total }`; a missing label is `None` (`undefined`). */
  datatype Tally = Tally(a: Option<string>, b: Option<string>, aCount: nat, bCount: nat, total: nat)

  /** `winnerLine` distinguishes three outcomes; `WinnerLine` gives their text. */
  datatype Comparison = NoComparison | Tie | Winner(name: string)

  /** The i-th element of `const [a, b] = foods`, `undefined` past the end. */
  function Label(foods: seq<string>, i: nat): Option<string> {
    if i < |foods| then Some(foods[i]) else None
  }

  /** The label is a truthy string (`!a` is false). */
  predicate Present(side: Option<string>) {
    side.Some? && side.value != ""
  }

  /** `vals.filter((v) => v === x).length`; no string is `=== undefined`. */
  function Count(vals: seq<string>, x: Option<string>): (n: nat)
    ensures x.None? ==> n == 0
    ensures x.Some? ==> n == multiset(vals)[x.value]
  {
    if vals == [] then 0
    else
      var init, last := vals[..|vals| - 1], vals[|vals| - 1];
      assert vals == init + [last];
      Count(init, x) + (if x == Some(last) then 1 else 0)
  }

  /** The counting in `tally`, given the list `Object.values(active.votes || {})`. */
  function TallyValues(foods: seq<string>, vals: seq<string>): Tally {
    var a, b := Label(foods, 0), Label(foods, 1);
    Tally(a, b, Count(vals, a), Count(vals, b), |vals|)
  }

  /** The voters whose entry is `x`. */
  function VotersFor(m: map<string, string>, x: string): set<string> {
    set k | k in m && m[k] == x
  }

  /**
   * `Object.values(m)`: the values of the map, one per key, in an order the
   * model leaves unspecified.
   */
  ghost function ValuesOf(m: map<string, string>): (vals: seq<string>)
    ensures |vals| == |m|
    decreases |m|
  {
    if m == map[] then []
    else
      var k :| k in m;
      var rest := m - {k};
      assert rest.Keys == m.Keys - {k};
      [m[k]] + ValuesOf(rest)
  }

  /** `tally(fight)`. */
  ghost function TallyOf(f: Fight): Tally {
    TallyValues(f.foods, ValuesOf(VotesOf(f)))
  }

  /** The line `winnerLine` returns on equal counts. */
  const TieLine: string := "It\U{2019}s a tie. Humanity is doomed."

  /** The two guards and the comparison of `winnerLine`, as a decision. */
  function Compare(t: Tally): (c: Comparison)
    ensures c == NoComparison <==> !Present(t.a) || !Present(t.b)
    ensures c == Tie <==> Present(t.a) && Present(t.b) && t.aCount == t.bCount
    ensures c.Winner? ==> (c.name == t.a.value && t.aCount > t.bCount)
                          || (c.name == t.b.value && t.bCount > t.aCount)
  {
    if !Present(t.a) || !Present(t.b) then NoComparison
    else if t.aCount == t.bCount then Tie
    else Winner(if t.aCount > t.bCount then t.a.value else t.b.value)
  }

  /** `winnerLine(t)`. */
  function WinnerLine(t: Tally): (line: string)
    ensures line == "" <==> !Present(t.a) || !Present(t.b)
  {
    match Compare(t)
    case NoComparison => ""
    case Tie => TieLine
    case Winner(name) => name + " wins."
  }

  // ---------------------------------------------------------------------
  // Counting lemmas

  /** Entries equal to `x` and entries equal to a different `y` never exceed the whole list. */
  lemma {:induction false} TwoCountsBound(vals: seq<string>, x: string, y: string)
    requires x != y
    ensures multiset(vals)[x] + multiset(vals)[y] <= |vals|
    ensures multiset(vals)[x] + multiset(vals)[y] == |vals| <==> forall i :: 0 <= i < |vals| ==> vals[i] == x || vals[i] == y
  {
    if vals != [] {
      var rest := vals[1..];
      assert vals == [vals[0]] + rest;
      TwoCountsBound(rest, x, y);
      if forall i :: 0 <= i < |rest| ==> rest[i] == x || rest[i] == y {
        if vals[0] == x || vals[0] == y {
          forall i | 0 <= i < |vals| ensures vals[i] == x || vals[i] == y {
            if i > 0 { assert vals[i] == rest[i - 1]; }
          }
        }
      } else {
        var j :| 0 <= j < |rest| && rest[j] != x && rest[j] != y;
        assert vals[j + 1] == rest[j];
      }
    }
  }

  /**
   * With two different labels, `aCount + bCount <= total`, with equality
   * exactly when every value is one of the two labels.
   */
  lemma TallyBound(foods: seq<string>, vals: seq<string>)
    requires |foods| >= 2 && foods[0] != foods[1]
    ensures TallyValues(foods, vals).aCount + TallyValues(foods, vals).bCount <= TallyValues(foods, vals).total
    ensures TallyValues(foods, vals).aCount + TallyValues(foods, vals).bCount == TallyValues(foods, vals).total
            <==> forall i :: 0 <= i < |vals| ==> vals[i] == foods[0] || vals[i] == foods[1]
  {
    TwoCountsBound(vals, foods[0], foods[1]);
  }

  /**
   * The bound needs distinct labels: new-fight.mjs accepts two equal labels,
   * and then every vote is counted for both sides.
   */
  lemma EqualLabelsCountTwice()
    ensures var t := TallyValues(["x", "x"], ["x"]);
            t.aCount == 1 && t.bCount == 1 && t.total == 1 && Compare(t) == Tie
  {
    var vals: seq<string> := ["x"];
    assert multiset(vals)["x"] == 1;
  }

  /**
   * For every value list, two equal non-empty labels get the same count, so
   * such a fight always shows the tie line and can never have a winner.
   */
  lemma EqualLabelsAlwaysTie(foods: seq<string>, vals: seq<string>)
    requires |foods| >= 2 && foods[0] == foods[1] && foods[0] != ""
    ensures TallyValues(foods, vals).aCount == TallyValues(foods, vals).bCount
    ensures Compare(TallyValues(foods, vals)) == Tie
  {
  }

  /** The list tally depends only on the multiset of values, not on their order. */
  lemma TallyValuesPermutation(foods: seq<string>, v1: seq<string>, v2: seq<string>)
    requires multiset(v1) == multiset(v2)
    ensures TallyValues(foods, v1) == TallyValues(foods, v2)
  {
  }

  /** Each value occurs in `Object.values(m)` as often as there are voters with that value. */
  lemma {:induction false} ValuesOfMultiplicity(m: map<string, string>, x: string)
    ensures multiset(ValuesOf(m))[x] == |VotersFor(m, x)|
    decreases |m|
  {
    if m == map[] {
      assert VotersFor(m, x) == {};
    } else {
      var k :| k in m && ValuesOf(m) == [m[k]] + ValuesOf(m - {k});
      var rest := m - {k};
      assert rest.Keys == m.Keys - {k};
      ValuesOfMultiplicity(rest, x);
      assert multiset(ValuesOf(m)) == multiset{m[k]} + multiset(ValuesOf(rest));
      VotersSplit(m, k, x);
    }
  }

  /** Removing voter `k` removes it from the voters of its own value only. */
  lemma VotersSplit(m: map<string, string>, k: string, x: string)
    requires k in m
    ensures |VotersFor(m, x)| == |VotersFor(m - {k}, x)| + (if m[k] == x then 1 else 0)
  {
    var rest := m - {k};
    if m[k] == x {
      assert VotersFor(m, x) == VotersFor(rest, x) + {k};
      assert k !in VotersFor(rest, x);
    } else {
      assert VotersFor(m, x) == VotersFor(rest, x);
    }
  }

  /**
   * `aCount` is the number of voters whose entry is `foods[0]` (0 when there
   * is no such label), likewise `bCount`; `total` is the number of entries,
   * and a fight without a `votes` object has total 0.
   */
  lemma TallyCountsVoters(f: Fight)
    ensures TallyOf(f).aCount == (if |f.foods| > 0 then |VotersFor(VotesOf(f), f.foods[0])| else 0)
    ensures TallyOf(f).bCount == (if |f.foods| > 1 then |VotersFor(VotesOf(f), f.foods[1])| else 0)
    ensures TallyOf(f).total == |VotesOf(f)|
    ensures f.votes.None? ==> TallyOf(f).total == 0
  {
    if |f.foods| > 0 { ValuesOfMultiplicity(VotesOf(f), f.foods[0]); }
    if |f.foods| > 1 { ValuesOfMultiplicity(VotesOf(f), f.foods[1]); }
  }

  /** The values of `m` listed in the key order `keys`. */
  function ValuesIn(m: map<string, string>, keys: seq<string>): (vals: seq<string>)
    requires forall i :: 0 <= i < |keys| ==> keys[i] in m
    ensures |vals| == |keys|
  {
    if keys == [] then [] else [m[keys[0]]] + ValuesIn(m, keys[1..])
  }

  /** `keys` lists every key of `m` exactly once: a possible enumeration order of the object. */
  predicate IsKeyOrder(m: map<string, string>, keys: seq<string>) {
    && (forall i :: 0 <= i < |keys| ==> keys[i] in m)
    && (forall k :: k in m ==> k in keys)
    && (forall i, j :: 0 <= i < j < |keys| ==> keys[i] != keys[j])
  }

  /** The keys among `keys` whose entry is `x`. */
  function ListedVotersFor(m: map<string, string>, keys: seq<string>, x: string): set<string>
    requires forall i :: 0 <= i < |keys| ==> keys[i] in m
  {
    set k | k in keys && m[k] == x
  }

  lemma ListedVotersSplit(m: map<string, string>, keys: seq<string>, x: string)
    requires forall i :: 0 <= i < |keys| ==> keys[i] in m
    requires keys != [] && keys[0] !in keys[1..]
    ensures |ListedVotersFor(m, keys, x)| == |ListedVotersFor(m, keys[1..], x)| + (if m[keys[0]] == x then 1 else 0)
  {
    var here, there := ListedVotersFor(m, keys, x), ListedVotersFor(m, keys[1..], x);
    assert forall k :: k in keys <==> k == keys[0] || k in keys[1..] by {
      assert keys == [keys[0]] + keys[1..];
    }
    if m[keys[0]] == x {
      assert here == there + {keys[0]};
    } else {
      assert here == there;
    }
  }

  lemma {:induction false} ValuesInMultiplicity(m: map<string, string>, keys: seq<string>, x: string)
    requires forall i :: 0 <= i < |keys| ==> keys[i] in m
    requires forall i, j :: 0 <= i < j < |keys| ==> keys[i] != keys[j]
    ensures multiset(ValuesIn(m, keys))[x] == |ListedVotersFor(m, keys, x)|
  {
    if keys == [] {
      assert ListedVotersFor(m, keys, x) == {};
    } else {
      var rest := keys[1..];
      forall i, j | 0 <= i < j < |rest| ensures rest[i] != rest[j] {
        assert rest[i] == keys[i + 1] && rest[j] == keys[j + 1];
      }
      ValuesInMultiplicity(m, rest, x);
      assert keys[0] !in rest by {
        forall j | 0 <= j < |rest| ensures rest[j] != keys[0] {
          assert rest[j] == keys[j + 1];
        }
      }
      ListedVotersSplit(m, keys, x);
      assert multiset(ValuesIn(m, keys)) == multiset{m[keys[0]]} + multiset(ValuesIn(m, rest));
    }
  }

  /**
   * Order independence: whatever order the JavaScript engine enumerates the
   * `votes` object in, filtering and counting its values gives `tally(fight)`.
   */
  lemma TallyIgnoresKeyOrder(f: Fight, keys: seq<string>)
    requires IsKeyOrder(VotesOf(f), keys)
    ensures TallyValues(f.foods, ValuesIn(VotesOf(f), keys)) == TallyOf(f)
  {
    var m := VotesOf(f);
    forall x ensures multiset(ValuesIn(m, keys))[x] == multiset(ValuesOf(m))[x] {
      SameMultiplicity(m, keys, x);
    }
    assert multiset(ValuesIn(m, keys)) == multiset(ValuesOf(m));
    TallyValuesPermutation(f.foods, ValuesIn(m, keys), ValuesOf(m));
  }

  /** One value occurs as often in a key-order listing as in `ValuesOf`. */
  lemma SameMultiplicity(m: map<string, string>, keys: seq<string>, x: string)
    requires IsKeyOrder(m, keys)
    ensures multiset(ValuesIn(m, keys))[x] == multiset(ValuesOf(m))[x]
  {
    ValuesInMultiplicity(m, keys, x);
    ValuesOfMultiplicity(m, x);
    assert ListedVotersFor(m, keys, x) == VotersFor(m, x);
  }

  /**
   * Renaming voters: two fights with the same labels, the same number of
   * entries and the same number of voters per value have the same tally.
   */
  lemma TallyIgnoresVoterNames(f: Fight, g: Fight)
    requires f.foods == g.foods && |VotesOf(f)| == |VotesOf(g)|
    requires forall x :: |VotersFor(VotesOf(f), x)| == |VotersFor(VotesOf(g), x)|
    ensures TallyOf(f) == TallyOf(g)
  {
    TallyCountsVoters(f);
    TallyCountsVoters(g);
  }

  /**
   * When every vote is one of two different labels (the invariant vote.mjs
   * keeps), `aCount + bCount == total == number of voters`.
   */
  lemma TallyTotalsOfValidFight(f: Fight)
    requires |f.foods| == 2 && f.foods[0] != f.foods[1] && ChoicesValid(f)
    ensures TallyOf(f).aCount + TallyOf(f).bCount == TallyOf(f).total == |VotesOf(f)|
  {
    var m := VotesOf(f);
    var vals := ValuesOf(m);
    forall i | 0 <= i < |vals| ensures vals[i] == f.foods[0] || vals[i] == f.foods[1] {
      var v := vals[i];
      assert v in multiset(vals);
      ValuesOfMultiplicity(m, v);
      assert VotersFor(m, v) != {};
      var k :| k in VotersFor(m, v);
      assert m[k] in f.foods;
    }
    TallyBound(f.foods, vals);
  }

  // ---------------------------------------------------------------------
  // winnerLine

  /** Equal counts, 0-0 included, give the tie line whatever the labels. */
  lemma EqualCountsTie(t: Tally)
    requires Present(t.a) && Present(t.b) && t.aCount == t.bCount
    ensures WinnerLine(t) == TieLine
  {
  }

  /** With different counts the line names the label with strictly more votes. */
  lemma DifferentCountsWinner(t: Tally)
    requires Present(t.a) && Present(t.b) && t.aCount != t.bCount
    ensures WinnerLine(t) == (if t.aCount > t.bCount then t.a.value else t.b.value) + " wins."
  {
  }

  /** Swapping the two sides of a fight never changes who wins. */
  lemma CompareSymmetric(t: Tally)
    ensures var s := Tally(t.b, t.a, t.bCount, t.aCount, t.total);
            Compare(s) == Compare(t)
  {
  }
}

/** The shopping list of `to_html`: portions per food name over the whole plan,
    ordered by decreasing count and then by name. */
module Shopping {
  import opened Results
  import opened Seqs
  import opened Foods
  import opened Composer

  /** One row of the list: a food name and the number of portions. */
  datatype Entry = Entry(name: string, count: nat)

  // ---------------------------------------------------------------------------
  // Python's string order and the sort key (-count, name)
  // ---------------------------------------------------------------------------

  /** `a < b` on Python strings: code point by code point, a proper prefix first. */
  predicate LexLess(a: string, b: string)
    decreases |a|
  {
    if a == [] then b != []
    else if b == [] then false
    else if a[0] != b[0] then a[0] < b[0]
    else LexLess(a[1..], b[1..])
  }

  lemma {:induction false} LexIrreflexive(a: string)
    ensures !LexLess(a, a)
    decreases |a|
  {
    if a != [] {
      LexIrreflexive(a[1..]);
    }
  }

  lemma {:induction false} LexTransitive(a: string, b: string, c: string)
    requires LexLess(a, b) && LexLess(b, c)
    ensures LexLess(a, c)
    decreases |a|
  {
    if a != [] && a[0] == b[0] && b[0] == c[0] {
      LexTransitive(a[1..], b[1..], c[1..]);
    }
  }

  /** Any two different strings are ordered one way or the other, never both. */
  lemma {:induction false} LexTotal(a: string, b: string)
    ensures a == b || LexLess(a, b) || LexLess(b, a)
    ensures !(LexLess(a, b) && LexLess(b, a))
    decreases |a|
  {
    if a != [] && b != [] && a[0] == b[0] {
      LexTotal(a[1..], b[1..]);
      assert a == [a[0]] + a[1..] && b == [b[0]] + b[1..];
    }
  }

  /** `x` sorts strictly before `y` under the key `(-count, name)`. */
  predicate Before(x: Entry, y: Entry)
  {
    x.count > y.count || (x.count == y.count && LexLess(x.name, y.name))
  }

  /** Not sorting after is transitive. */
  lemma NotBeforeTransitive(x: Entry, y: Entry, z: Entry)
    requires !Before(y, x) && !Before(z, y)
    ensures !Before(z, x)
  {
    if Before(z, x) {
      LexTotal(x.name, y.name);
      LexTotal(y.name, z.name);
      LexTotal(x.name, z.name);
      if LexLess(x.name, y.name) && LexLess(y.name, z.name) {
        LexTransitive(x.name, y.name, z.name);
      }
    }
  }

  /** Two rows neither of which sorts before the other are the same row. */
  lemma BeforeAntisymmetric(x: Entry, y: Entry)
    requires !Before(x, y) && !Before(y, x)
    ensures x == y
  {
    LexTotal(x.name, y.name);
  }

  /** No row sorts after a later one. */
  ghost predicate Sorted(s: seq<Entry>)
  {
    forall i, j :: 0 <= i < j < |s| ==> !Before(s[j], s[i])
  }

  /** The total number of portions, `sum(count for _, count in rows)`. */
  function SumCounts(s: seq<Entry>): nat
  {
    if s == [] then 0 else s[0].count + SumCounts(s[1..])
  }

  lemma {:induction false} SumCountsAppend(s: seq<Entry>, e: Entry)
    ensures SumCounts(s + [e]) == SumCounts(s) + e.count
    decreases |s|
  {
    if s != [] {
      assert (s + [e])[1..] == s[1..] + [e];
      SumCountsAppend(s[1..], e);
    }
  }

  // ---------------------------------------------------------------------------
  // sorted(..., key=lambda x: (-x[1], x[0]))
  // ---------------------------------------------------------------------------

  /** `x` inserted into `s` before the first row that does not sort before it. */
  function Insert(x: Entry, s: seq<Entry>): (r: seq<Entry>)
    ensures multiset(r) == multiset(s) + multiset{x}
    ensures SumCounts(r) == x.count + SumCounts(s)
  {
    if s == [] || !Before(s[0], x) then [x] + s
    else
      assert s == [s[0]] + s[1..];
      var rest := Insert(x, s[1..]);
      assert ([s[0]] + rest)[1..] == rest;
      [s[0]] + rest
  }

  lemma {:induction false} InsertSorted(x: Entry, s: seq<Entry>)
    requires Sorted(s)
    ensures Sorted(Insert(x, s))
    decreases |s|
  {
    var r := Insert(x, s);
    if s == [] || !Before(s[0], x) {
      forall i, j | 0 <= i < j < |r| ensures !Before(r[j], r[i]) {
        if i == 0 && j >= 2 {
          NotBeforeTransitive(x, s[0], s[j - 1]);
        }
      }
    } else {
      SortedTail(s);
      InsertSorted(x, s[1..]);
      InsertBehindHead(x, s);
    }
  }

  /** When `x` goes behind the head of `s`, the head still sorts first. */
  lemma InsertBehindHead(x: Entry, s: seq<Entry>)
    requires Sorted(s) && s != [] && Before(s[0], x)
    requires Sorted(Insert(x, s[1..]))
    ensures Sorted(Insert(x, s))
  {
    var rest := Insert(x, s[1..]);
    var r := Insert(x, s);
    assert r == [s[0]] + rest;
    forall i, j | 0 <= i < j < |r| ensures !Before(r[j], r[i]) {
      assert r[j] == rest[j - 1];
      if i > 0 {
        assert r[i] == rest[i - 1];
      } else {
        HeadBeforeInserted(x, s, rest[j - 1]);
      }
    }
  }

  /** A row of `Insert(x, t)` is `x` or a row of `t`. */
  lemma InsertMember(x: Entry, t: seq<Entry>, y: Entry)
    requires y in Insert(x, t)
    ensures y == x || y in t
  {
    assert y in multiset(Insert(x, t));
  }

  /** No row inserted behind the head of a sorted `s` sorts before that head. */
  lemma HeadBeforeInserted(x: Entry, s: seq<Entry>, y: Entry)
    requires Sorted(s) && s != [] && Before(s[0], x)
    requires y in Insert(x, s[1..])
    ensures !Before(y, s[0])
  {
    InsertMember(x, s[1..], y);
    if y == x {
      LexTotal(x.name, s[0].name);
    } else {
      var k :| 0 <= k < |s[1..]| && s[1..][k] == y;
      assert s[k + 1] == y;
    }
  }

  /** `sorted(rows, key=lambda x: (-x[1], x[0]))`, as an insertion sort. */
  function SortRows(s: seq<Entry>): (r: seq<Entry>)
    ensures multiset(r) == multiset(s)
    ensures Sorted(r)
    ensures SumCounts(r) == SumCounts(s)
  {
    if s == [] then []
    else
      assert s == [s[0]] + s[1..];
      var rest := SortRows(s[1..]);
      InsertSorted(s[0], rest);
      Insert(s[0], rest)
  }

  /** Two sorted arrangements of the same rows start with the same row. */
  lemma SortedHeads(a: seq<Entry>, b: seq<Entry>)
    requires Sorted(a) && Sorted(b)
    requires multiset(a) == multiset(b)
    requires a != []
    ensures b != [] && a[0] == b[0]
  {
    assert a[0] in multiset(b);
    assert b[0] in multiset(a);
    var i :| 0 <= i < |b| && b[i] == a[0];
    var j :| 0 <= j < |a| && a[j] == b[0];
    LexIrreflexive(a[0].name);
    LexIrreflexive(b[0].name);
    assert !Before(a[0], b[0]) by {
      if i > 0 { assert !Before(b[i], b[0]); }
    }
    assert !Before(b[0], a[0]) by {
      if j > 0 { assert !Before(a[j], a[0]); }
    }
    BeforeAntisymmetric(a[0], b[0]);
  }

  /** Dropping the first row keeps a list sorted. */
  lemma SortedTail(a: seq<Entry>)
    requires Sorted(a) && a != []
    ensures Sorted(a[1..])
  {
    forall p, q | 0 <= p < q < |a| - 1 ensures !Before(a[1..][q], a[1..][p]) {
      assert a[1..][q] == a[q + 1] && a[1..][p] == a[p + 1];
    }
  }

  /** Two sorted arrangements of the same rows are equal: the order of the
      list does not depend on the order the rows came in. */
  lemma {:induction false} SortedUnique(a: seq<Entry>, b: seq<Entry>)
    requires Sorted(a) && Sorted(b)
    requires multiset(a) == multiset(b)
    ensures a == b
    decreases |a|
  {
    if a != [] {
      SortedHeads(a, b);
      assert a == [a[0]] + a[1..] && b == [b[0]] + b[1..];
      assert multiset(a[1..]) == multiset(a) - multiset{a[0]};
      assert multiset(b[1..]) == multiset(b) - multiset{b[0]};
      SortedTail(a);
      SortedTail(b);
      SortedUnique(a[1..], b[1..]);
    } else {
      assert |b| == |multiset(b)| == |multiset(a)| == 0;
    }
  }

  // ---------------------------------------------------------------------------
  // The rows a shopping list must hold
  // ---------------------------------------------------------------------------

  /** The names of the elements of `s`, in order, as `name` reads them. */
  function Names<T>(s: seq<T>, name: T -> string): (r: seq<string>)
    ensures |r| == |s|
    ensures forall i :: 0 <= i < |s| ==> r[i] == name(s[i])
  {
    seq(|s|, i requires 0 <= i < |s| => name(s[i]))
  }

  /** The names of the rows, in order. */
  function NamesOf(rows: seq<Entry>): seq<string>
  {
    Names(rows, (e: Entry) => e.name)
  }

  /** `rows` lists every name of `names` exactly once, each with the number of
      times it occurs; the order is not constrained. */
  ghost predicate Tallies(rows: seq<Entry>, names: seq<string>)
  {
    && Distinct(NamesOf(rows))
    && (forall n :: n in NamesOf(rows) <==> n in names)
    && (forall i :: 0 <= i < |rows| ==> rows[i].count == multiset(names)[rows[i].name])
  }

  /** The list `to_html` prints: the tally of `names`, sorted by the key. */
  ghost predicate IsShoppingList(rows: seq<Entry>, names: seq<string>)
  {
    Sorted(rows) && Tallies(rows, names)
  }

  /** Rows with distinct names are distinct rows. */
  lemma DistinctRows(rows: seq<Entry>)
    requires Distinct(NamesOf(rows))
    ensures Distinct(rows)
  {
    forall i, j | 0 <= i < j < |rows| ensures rows[i] != rows[j] {
      assert NamesOf(rows)[i] != NamesOf(rows)[j];
    }
  }

  /** A row of a tally is the row of its name. */
  lemma TallyRowOf(rows: seq<Entry>, names: seq<string>, e: Entry)
    requires Tallies(rows, names)
    requires e.name in names && e.count == multiset(names)[e.name]
    ensures e in rows
  {
    assert e.name in NamesOf(rows);
    var j :| 0 <= j < |rows| && NamesOf(rows)[j] == e.name;
    assert rows[j] == e;
  }

  /** Two tallies of the same names hold the same rows. */
  lemma TalliesSameRows(a: seq<Entry>, b: seq<Entry>, names: seq<string>)
    requires Tallies(a, names) && Tallies(b, names)
    ensures multiset(a) == multiset(b)
  {
    DistinctRows(a);
    DistinctRows(b);
    DistinctMultiset(a);
    DistinctMultiset(b);
    forall e ensures e in a <==> e in b {
      if e in a {
        var i :| 0 <= i < |a| && a[i] == e;
        assert NamesOf(a)[i] == e.name;
        TallyRowOf(b, names, e);
      }
      if e in b {
        var i :| 0 <= i < |b| && b[i] == e;
        assert NamesOf(b)[i] == e.name;
        TallyRowOf(a, names, e);
      }
    }
    forall e ensures multiset(a)[e] == multiset(b)[e] {
      assert e in a <==> e in multiset(a);
      assert e in b <==> e in multiset(b);
    }
  }

  /** Rearranging a tally leaves a tally. */
  lemma TalliesPermutation(a: seq<Entry>, b: seq<Entry>, names: seq<string>)
    requires Tallies(a, names)
    requires multiset(a) == multiset(b)
    ensures Tallies(b, names)
  {
    DistinctRows(a);
    DistinctMultiset(a);
    DistinctMultiset(b);
    forall i | 0 <= i < |b| ensures b[i] in a && b[i].count == multiset(names)[b[i].name] {
      assert b[i] in multiset(b);
      var k :| 0 <= k < |a| && a[k] == b[i];
    }
    forall i, j | 0 <= i < j < |b| ensures NamesOf(b)[i] != NamesOf(b)[j] {
      assert b[i] != b[j];
    }
    forall n ensures n in NamesOf(b) <==> n in names {
      if n in NamesOf(b) {
        var j :| 0 <= j < |b| && NamesOf(b)[j] == n;
        var k :| 0 <= k < |a| && a[k] == b[j];
        assert NamesOf(a)[k] == n;
      }
      if n in names {
        var k :| 0 <= k < |a| && NamesOf(a)[k] == n;
        assert a[k] in multiset(b);
        var j :| 0 <= j < |b| && b[j] == a[k];
        assert NamesOf(b)[j] == n;
      }
    }
  }

  // ---------------------------------------------------------------------------
  // The tally of lines 133-137: `shopping[name] = shopping.get(name, 0) + 1`
  // ---------------------------------------------------------------------------

  /** The names of one meal's items. */
  function MealNames(meal: seq<Food>): seq<string>
  {
    Names(meal, (x: Food) => x.name)
  }

  /** The names of a day's items, meal after meal. */
  function DayNames(day: Day): seq<string>
  {
    if day == [] then [] else DayNames(day[..|day| - 1]) + MealNames(day[|day| - 1])
  }

  /** Every day of the plan was built (none is `None`). */
  predicate NoMissingDay(plan: seq<Option<Day>>)
  {
    forall d :: 0 <= d < |plan| ==> plan[d].Some?
  }

  /** The names of all items of the plan, day after day. */
  function PlanNames(plan: seq<Option<Day>>): seq<string>
    requires NoMissingDay(plan)
  {
    if plan == [] then []
    else PlanNames(plan[..|plan| - 1]) + DayNames(plan[|plan| - 1].value)
  }

  /** The distinct elements of `s` in the order they first occur: a dictionary's
      keys in insertion order. */
  function FirstOccurrences(s: seq<string>): (r: seq<string>)
    ensures Distinct(r)
    ensures forall x :: x in r <==> x in s
  {
    if s == [] then []
    else
      var front := s[..|s| - 1];
      var f := FirstOccurrences(front);
      assert s == front + [s[|s| - 1]];
      if s[|s| - 1] in f then f else f + [s[|s| - 1]]
  }

  /** The counts after counting `seen` one name at a time. */
  function CountMap(seen: seq<string>): map<string, nat>
  {
    if seen == [] then map[]
    else
      var m := CountMap(seen[..|seen| - 1]);
      var x := seen[|seen| - 1];
      m[x := (if x in m then m[x] else 0) + 1]
  }

  /** The counts hold exactly the names seen, each with its number of occurrences. */
  lemma {:induction false} CountMapCounts(seen: seq<string>)
    ensures forall n :: n in CountMap(seen) <==> n in seen
    ensures forall n :: n in CountMap(seen) ==> CountMap(seen)[n] == multiset(seen)[n]
    decreases |seen|
  {
    if seen != [] {
      var front := seen[..|seen| - 1];
      assert seen == front + [seen[|seen| - 1]];
      CountMapCounts(front);
    }
  }

  /** The dictionary after counting `seen`: its keys in insertion order, and
      each key's count. */
  ghost predicate IsTally(keys: seq<string>, counts: map<string, nat>, seen: seq<string>)
  {
    keys == FirstOccurrences(seen) && counts == CountMap(seen)
  }

  /** One `shopping[name] = shopping.get(name, 0) + 1` counts one more name:
      a new name is appended to the keys with count 1, a known one has its
      count raised by one. */
  lemma TallyBump(keys: seq<string>, counts: map<string, nat>, seen: seq<string>, name: string,
                  keys': seq<string>, counts': map<string, nat>)
    requires IsTally(keys, counts, seen)
    requires keys' == if name in counts then keys else keys + [name]
    requires counts' == counts[name := (if name in counts then counts[name] else 0) + 1]
    ensures IsTally(keys', counts', seen + [name])
  {
    assert (seen + [name])[..|seen|] == seen;
    CountMapCounts(seen);
  }

  /** `shopping.items()`: one row per key, in insertion order. */
  function Rows(keys: seq<string>, counts: map<string, nat>): (r: seq<Entry>)
    requires forall k :: k in keys ==> k in counts
    ensures |r| == |keys|
    ensures NamesOf(r) == keys
  {
    var r := seq(|keys|, i requires 0 <= i < |keys| => Entry(keys[i], counts[keys[i]]));
    assert NamesOf(r) == keys;
    r
  }

  /** The rows of a finished tally are a tally. */
  lemma TallyRows(keys: seq<string>, counts: map<string, nat>, seen: seq<string>)
    requires IsTally(keys, counts, seen)
    ensures forall k :: k in keys ==> k in counts
    ensures Tallies(Rows(keys, counts), seen)
  {
    CountMapCounts(seen);
  }

  /** The rows counting `seen` by the multiset of `seen`. */
  ghost function CountRows(keys: seq<string>, seen: seq<string>): (r: seq<Entry>)
    ensures |r| == |keys|
    ensures forall i :: 0 <= i < |keys| ==> r[i] == Entry(keys[i], multiset(seen)[keys[i]])
  {
    seq(|keys|, i requires 0 <= i < |keys| => Entry(keys[i], multiset(seen)[keys[i]]))
  }

  /** Counting one more occurrence of `x` adds one portion when `x` is a key. */
  lemma {:induction false} CountRowsBump(keys: seq<string>, seen: seq<string>, x: string)
    requires Distinct(keys)
    ensures SumCounts(CountRows(keys, seen + [x])) == SumCounts(CountRows(keys, seen)) + (if x in keys then 1 else 0)
    decreases |keys|
  {
    if keys != [] {
      var tail := keys[1..];
      assert Distinct(tail) by {
        forall i, j | 0 <= i < j < |tail| ensures tail[i] != tail[j] {
          assert tail[i] == keys[i + 1] && tail[j] == keys[j + 1];
        }
      }
      assert keys[0] !in tail by {
        forall k | 0 <= k < |tail| ensures tail[k] != keys[0] {
          assert tail[k] == keys[k + 1];
        }
      }
      assert x in keys <==> x == keys[0] || x in tail by {
        assert keys == [keys[0]] + tail;
      }
      CountRowsBump(tail, seen, x);
      assert CountRows(keys, seen + [x])[1..] == CountRows(tail, seen + [x]);
      assert CountRows(keys, seen)[1..] == CountRows(tail, seen);
      assert multiset(seen + [x]) == multiset(seen) + multiset{x};
    }
  }

  /** The counts of a tally add up to the number of names counted. */
  lemma {:induction false} CountRowsTotal(seen: seq<string>)
    ensures SumCounts(CountRows(FirstOccurrences(seen), seen)) == |seen|
    decreases |seen|
  {
    if seen != [] {
      var front := seen[..|seen| - 1];
      var x := seen[|seen| - 1];
      assert seen == front + [x];
      var keys := FirstOccurrences(front);
      CountRowsTotal(front);
      CountRowsBump(keys, front, x);
      if x !in keys {
        assert CountRows(keys + [x], seen) == CountRows(keys, seen) + [Entry(x, multiset(seen)[x])];
        SumCountsAppend(CountRows(keys, seen), Entry(x, multiset(seen)[x]));
        assert multiset(front)[x] == 0;
      }
    }
  }

  /** The distinct names with their counts form a tally. */
  lemma CountRowsTally(names: seq<string>)
    ensures Tallies(CountRows(FirstOccurrences(names), names), names)
  {
    var rows := CountRows(FirstOccurrences(names), names);
    assert NamesOf(rows) == FirstOccurrences(names);
  }

  /** A shopping list holds one portion per item served. */
  lemma ShoppingListTotal(rows: seq<Entry>, names: seq<string>)
    requires Tallies(rows, names)
    ensures SumCounts(rows) == |names|
  {
    var c := CountRows(FirstOccurrences(names), names);
    CountRowsTally(names);
    CountRowsTotal(names);
    TalliesSameRows(rows, c, names);
    SortedUnique(SortRows(rows), SortRows(c));
  }

  /** The shopping list is determined by the names served: how the tally was
      ordered does not matter. */
  lemma ShoppingListUnique(a: seq<Entry>, b: seq<Entry>, names: seq<string>)
    requires IsShoppingList(a, names) && IsShoppingList(b, names)
    ensures a == b
  {
    TalliesSameRows(a, b, names);
    SortedUnique(a, b);
  }

  /** `shopping[name] = shopping.get(name, 0) + 1` on the dictionary held as
      its keys in insertion order and a map from key to count. */
  method Bump(keys0: seq<string>, counts0: map<string, nat>, ghost seen: seq<string>, name: string)
    returns (keys: seq<string>, counts: map<string, nat>)
    requires IsTally(keys0, counts0, seen)
    ensures keys == if name in counts0 then keys0 else keys0 + [name]
    ensures counts == counts0[name := (if name in counts0 then counts0[name] else 0) + 1]
    ensures IsTally(keys, counts, seen + [name])
  {
    var c := if name in counts0 then counts0[name] else 0;
    keys := keys0;
    if name !in counts0 {
      keys := keys + [name];
    }
    counts := counts0[name := c + 1];
    TallyBump(keys0, counts0, seen, name, keys, counts);
  }

  /** The innermost loop of lines 135-137: count the items of one meal. */
  method CountMeal(keys0: seq<string>, counts0: map<string, nat>, ghost seen: seq<string>, meal: seq<Food>)
    returns (keys: seq<string>, counts: map<string, nat>)
    requires IsTally(keys0, counts0, seen)
    ensures IsTally(keys, counts, seen + MealNames(meal))
  {
    keys, counts := keys0, counts0;
    ghost var names := MealNames(meal);
    ghost var cur := seen;
    var j := 0;
    while j < |meal|
      invariant 0 <= j <= |meal|
      invariant cur == seen + names[..j]
      invariant IsTally(keys, counts, cur)
    {
      var name := meal[j].name;
      keys, counts := Bump(keys, counts, cur, name);
      PrefixStep(seen, names, j);
      cur := cur + [name];
      j := j + 1;
    }
    assert names[..j] == names;
  }

  /** Growing the prefix of `b` by one element appends that element. */
  lemma PrefixStep<T>(a: seq<T>, b: seq<T>, j: nat)
    requires j < |b|
    ensures a + b[..j + 1] == (a + b[..j]) + [b[j]]
  {
    assert b[..j + 1] == b[..j] + [b[j]];
  }

  /** The middle loop of lines 135-137: count the items of one day. */
  method CountDay(keys0: seq<string>, counts0: map<string, nat>, ghost seen: seq<string>, day: Day)
    returns (keys: seq<string>, counts: map<string, nat>)
    requires IsTally(keys0, counts0, seen)
    ensures IsTally(keys, counts, seen + DayNames(day))
  {
    keys, counts := keys0, counts0;
    ghost var cur := seen;
    assert DayNames(day[..0]) == [];
    var m := 0;
    while m < |day|
      invariant 0 <= m <= |day|
      invariant cur == seen + DayNames(day[..m])
      invariant IsTally(keys, counts, cur)
    {
      keys, counts := CountMeal(keys, counts, cur, day[m]);
      DayNamesStep(seen, day, m);
      cur := cur + MealNames(day[m]);
      m := m + 1;
    }
    assert day[..m] == day;
  }

  /** One more meal of the day adds its names behind those counted so far. */
  lemma DayNamesStep(seen: seq<string>, day: Day, m: nat)
    requires m < |day|
    ensures seen + DayNames(day[..m + 1]) == (seen + DayNames(day[..m])) + MealNames(day[m])
  {
    assert day[..m + 1][..m] == day[..m];
  }

  /** Lines 133-137 and 170: the tally over every item of every meal of every
      day, then the rows sorted by decreasing count and increasing name.
      Iterating a day that is `None` raises `TypeError`, modelled as `Raised`. */
  method ShoppingList(plan: seq<Option<Day>>) returns (r: Outcome<seq<Entry>>)
    ensures r.Raised? <==> !NoMissingDay(plan)
    ensures r.Returned? ==> NoMissingDay(plan) && IsShoppingList(r.value, PlanNames(plan))
    ensures r.Returned? ==> SumCounts(r.value) == |PlanNames(plan)|
  {
    var keys: seq<string> := [];
    var counts: map<string, nat> := map[];
    var d := 0;
    while d < |plan|
      invariant 0 <= d <= |plan|
      invariant NoMissingDay(plan[..d])
      invariant IsTally(keys, counts, PlanNames(plan[..d]))
    {
      if plan[d].None? {
        return Raised;
      }
      keys, counts := CountDay(keys, counts, PlanNames(plan[..d]), plan[d].value);
      assert plan[..d + 1][..d] == plan[..d];
      d := d + 1;
    }
    assert plan[..d] == plan;
    ghost var names := PlanNames(plan);
    TallyRows(keys, counts, names);
    var rows := Rows(keys, counts);
    var sorted := SortRows(rows);
    TalliesPermutation(rows, sorted, names);
    ShoppingListTotal(sorted, names);
    r := Returned(sorted);
  }
}

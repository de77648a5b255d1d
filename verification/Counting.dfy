/** Finite-set and sequence counting facts shared by the state machines. */
module Counting {

  ghost predicate Distinct<T(!new)>(s: seq<T>) {
    forall i, j :: 0 <= i < j < |s| ==> s[i] != s[j]
  }

  /** `c` taken `n` times. */
  ghost function Times(n: nat, c: nat): nat {
    if n == 0 then 0 else Times(n - 1, c) + c
  }

  lemma {:induction false} TimesIsProduct(n: nat, c: nat)
    ensures Times(n, c) == n * c
  {
    if n > 0 {
      TimesIsProduct(n - 1, c);
    }
  }

  function Elements<T>(s: seq<T>): set<T> {
    set x | x in s
  }

  lemma {:induction false} DistinctCard<T(!new)>(s: seq<T>)
    requires Distinct(s)
    ensures |Elements(s)| == |s|
  {
    if s == [] {
    } else {
      var front, last := s[..|s| - 1], s[|s| - 1];
      DistinctCard(front);
      assert s == front + [last];
      assert last !in front;
      assert Elements(s) == Elements(front) + {last};
    }
  }

  /** Dropping one more element of a duplicate-free suffix. */
  lemma NextSuffix<T(!new)>(s: seq<T>, k: nat)
    requires k < |s|
    ensures Distinct(s[k..]) <==> Distinct(s[k + 1..]) && s[k] !in s[k + 1..]
    ensures forall x :: x in s[k..] <==> x == s[k] || x in s[k + 1..]
  {
    var a, b := s[k..], s[k + 1..];
    assert a == [s[k]] + b;
    if Distinct(a) {
      assert forall i :: 0 <= i < |b| ==> b[i] == a[i + 1];
    }
  }

  lemma {:induction false} SubsetCard<T>(a: set<T>, b: set<T>)
    requires a <= b
    ensures |a| <= |b|
    decreases a
  {
    if a != {} {
      var x :| x in a;
      SubsetCard(a - {x}, b - {x});
    }
  }

  /** Pigeonhole: a subset as large as its superset is the superset. */
  lemma FullSubset<T>(a: set<T>, b: set<T>)
    requires a <= b && |a| >= |b|
    ensures a == b
  {
    if a != b {
      var x :| x in b && x !in a;
      SubsetCard(a, b - {x});
    }
  }

  /** Pigeonhole for lists: distinct picks from a distinct pool of the same length are a permutation of it. */
  lemma PicksArePermutation<T(!new)>(picks: seq<T>, pool: seq<T>)
    requires Distinct(picks) && Distinct(pool)
    requires |picks| == |pool|
    requires forall x :: x in picks ==> x in pool
    ensures Elements(picks) == Elements(pool)
    ensures multiset(picks) == multiset(pool)
  {
    DistinctCard(picks);
    DistinctCard(pool);
    FullSubset(Elements(picks), Elements(pool));
    DistinctMultiset(picks);
    DistinctMultiset(pool);
    forall x ensures multiset(picks)[x] == multiset(pool)[x] {
      assert x in picks <==> x in Elements(picks);
      assert x in pool <==> x in Elements(pool);
    }
  }

  lemma {:induction false} DistinctMultiset<T(!new)>(s: seq<T>)
    requires Distinct(s)
    ensures forall x :: multiset(s)[x] == if x in s then 1 else 0
  {
    if s != [] {
      var front, last := s[..|s| - 1], s[|s| - 1];
      DistinctMultiset(front);
      assert s == front + [last];
      assert last !in front;
    }
  }

  /** Every (round, member) pair with a round in 1..rounds. */
  ghost function Grid<T(!new)>(rounds: nat, members: set<T>): set<(nat, T)> {
    set k: nat, m | 1 <= k <= rounds && m in members :: (k, m)
  }

  lemma {:induction false} GridCard<T(!new)>(rounds: nat, members: set<T>)
    ensures |Grid(rounds, members)| == rounds * |members|
  {
    if rounds == 0 {
      assert Grid(0, members) == {};
    } else {
      GridCard(rounds - 1, members);
      var top := set m | m in members :: (rounds, m);
      TopRowCard(rounds, members);
      assert Grid(rounds, members) == Grid(rounds - 1, members) + top;
      assert Grid(rounds - 1, members) !! top;
    }
  }

  lemma {:induction false} TopRowCard<T(!new)>(round: nat, members: set<T>)
    ensures |set m | m in members :: (round, m)| == |members|
    decreases members
  {
    var row := set m | m in members :: (round, m);
    if members != {} {
      var x :| x in members;
      TopRowCard(round, members - {x});
      assert row == (set m | m in members - {x} :: (round, m)) + {(round, x)};
    }
  }

  ghost function Row<T(!new)>(flags: set<(nat, T)>, k: nat): set<(nat, T)> {
    set p | p in flags && p.0 == k
  }

  ghost function Column<T(!new)>(flags: set<(nat, T)>, m: T): set<(nat, T)> {
    set p | p in flags && p.1 == m
  }

  lemma RowAdd<T(!new)>(flags: set<(nat, T)>, r: nat, m: T)
    requires (r, m) !in flags
    ensures forall k: nat :: |Row(flags + {(r, m)}, k)| == |Row(flags, k)| + if k == r then 1 else 0
  {
    forall k: nat ensures |Row(flags + {(r, m)}, k)| == |Row(flags, k)| + if k == r then 1 else 0 {
      assert Row(flags + {(r, m)}, k) == if k == r then Row(flags, k) + {(r, m)} else Row(flags, k);
    }
  }

  lemma ColumnAdd<T(!new)>(flags: set<(nat, T)>, r: nat, m: T)
    requires (r, m) !in flags
    ensures forall x :: |Column(flags + {(r, m)}, x)| == |Column(flags, x)| + if x == m then 1 else 0
  {
    forall x ensures |Column(flags + {(r, m)}, x)| == |Column(flags, x)| + if x == m then 1 else 0 {
      assert Column(flags + {(r, m)}, x) == if x == m then Column(flags, x) + {(r, m)} else Column(flags, x);
    }
  }

  /** The flags in rounds 0..rounds. */
  ghost function UpTo<T(!new)>(flags: set<(nat, T)>, rounds: nat): set<(nat, T)> {
    set p | p in flags && p.0 <= rounds
  }

  /** The flags of the listed members. */
  ghost function Of<T(!new)>(flags: set<(nat, T)>, members: seq<T>): set<(nat, T)> {
    set p | p in flags && p.1 in members
  }

  ghost function SumRows<T(!new)>(flags: set<(nat, T)>, rounds: nat): nat {
    |Row(flags, rounds)| + if rounds == 0 then 0 else SumRows(flags, rounds - 1)
  }

  lemma {:induction false} SumRowsIsCard<T(!new)>(flags: set<(nat, T)>, rounds: nat)
    ensures SumRows(flags, rounds) == |UpTo(flags, rounds)|
  {
    if rounds == 0 {
      assert UpTo(flags, 0) == Row(flags, 0);
    } else {
      SumRowsIsCard(flags, rounds - 1);
      assert UpTo(flags, rounds) == UpTo(flags, rounds - 1) + Row(flags, rounds);
    }
  }

  ghost function SumColumns<T(!new)>(flags: set<(nat, T)>, members: seq<T>): nat {
    if members == [] then 0
    else SumColumns(flags, members[..|members| - 1]) + |Column(flags, members[|members| - 1])|
  }

  lemma {:induction false} SumColumnsIsCard<T(!new)>(flags: set<(nat, T)>, members: seq<T>)
    requires Distinct(members)
    ensures SumColumns(flags, members) == |Of(flags, members)|
  {
    if members == [] {
      assert Of(flags, members) == {};
    } else {
      var front, last := members[..|members| - 1], members[|members| - 1];
      SumColumnsIsCard(flags, front);
      assert members == front + [last];
      assert last !in front;
      assert Of(flags, members) == Of(flags, front) + Column(flags, last);
    }
  }

  /** Distinct numbers that each exceed their own index and never exceed the length are 1, 2, 3, ... */
  lemma {:induction false} ClimbingPicksAreSorted(picks: seq<nat>)
    requires Distinct(picks)
    requires forall k :: 0 <= k < |picks| ==> k < picks[k] <= |picks|
    ensures forall k :: 0 <= k < |picks| ==> picks[k] == k + 1
  {
    if picks != [] {
      var n := |picks|;
      assert picks[n - 1] == n;
      var front := picks[..n - 1];
      forall k | 0 <= k < |front| ensures k < front[k] <= |front| {
        assert picks[k] != picks[n - 1];
      }
      ClimbingPicksAreSorted(front);
      forall k | 0 <= k < n ensures picks[k] == k + 1 {
        if k < n - 1 { assert picks[k] == front[k]; }
      }
    }
  }
}

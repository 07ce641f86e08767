/**
 * How the views list the entry map: `Object.values(entries)`, the folds
 * (`reduce`, `filter(...).length`) they run over it, and the descending
 * `Array#sort` by date, weight or calories.
 *
 * `Object.values` is modelled in ascending date order. Every fold below gives
 * the same result in any order (see the `...Remove` lemmas), so the choice
 * only shows in the order of ties of a sort.
 */
module EntryOrder {
  import opened Types

  /** The earliest date of a non-empty set. */
  function MinDate(dates: set<Date>): (m: Date)
    requires dates != {}
    ensures m in dates && forall d :: d in dates ==> m <= d
  {
    MinDateExists(dates);
    var m :| IsLeast(m, dates); m
  }

  /** `m` is a member of `dates` and no member is earlier. */
  predicate IsLeast(m: Date, dates: set<Date>)
  {
    m in dates && forall d :: d in dates ==> m <= d
  }

  lemma {:induction false} MinDateExists(dates: set<Date>)
    requires dates != {}
    ensures exists m :: IsLeast(m, dates)
    decreases |dates|
  {
    NonEmptyHasMember(dates);
    var x :| x in dates;
    var rest := dates - {x};
    if rest == {} {
      forall d | d in dates ensures x <= d { assert d in rest || d == x; }
      assert IsLeast(x, dates);
    } else {
      MinDateExists(rest);
      var m :| IsLeast(m, rest);
      var least := if x < m then x else m;
      forall d | d in dates ensures least <= d { assert d in rest || d == x; }
      assert IsLeast(least, dates);
    }
  }

  /** `Object.values(entries)`, earliest date first. */
  function Values(entries: map<Date, DailyEntry>): (r: seq<DailyEntry>)
    ensures |r| == |entries|
    ensures forall d :: d in entries ==> entries[d] in r
    ensures forall e :: e in r ==> e in entries.Values
    decreases |entries|
  {
    if entries == map[] then []
    else
      var first := MinDate(entries.Keys);
      var rest := Values(entries - {first});
      forall e | e in rest ensures e in entries.Values {
        DateOfListedEntry(entries - {first}, e);
        var d :| d in entries - {first} && (entries - {first})[d] == e;
        assert entries[d] == e;
      }
      forall d | d in entries ensures entries[d] in [entries[first]] + rest {
        if d != first { assert d in entries - {first}; }
      }
      [entries[first]] + rest
  }

  /** Strictly ascending, so no date occurs twice. */
  predicate Ascending(ds: seq<Date>)
  {
    forall i, j :: 0 <= i < j < |ds| ==> ds[i] < ds[j]
  }

  /** Every listed date is in `dates`. */
  predicate Within(ds: seq<Date>, dates: set<Date>)
  {
    forall i :: 0 <= i < |ds| ==> ds[i] in dates
  }

  lemma AscendingCons(first: Date, rest: seq<Date>, dates: set<Date>)
    requires IsLeast(first, dates) && Ascending(rest) && Within(rest, dates - {first})
    ensures Ascending([first] + rest) && Within([first] + rest, dates)
  {
    var ds := [first] + rest;
    forall i, j | 0 <= i < j < |ds| ensures ds[i] < ds[j] {
      assert ds[j] == rest[j - 1] && rest[j - 1] in dates - {first};
      if i > 0 { assert ds[i] == rest[i - 1]; }
    }
    forall i | 0 < i < |ds| ensures ds[i] in dates {
      assert ds[i] == rest[i - 1] && rest[i - 1] in dates - {first};
    }
  }

  /** The dates of a set, ascending, each once. */
  function SortedDates(dates: set<Date>): (ds: seq<Date>)
    ensures |ds| == |dates|
    ensures Within(ds, dates) && Ascending(ds)
    ensures forall d :: d in dates ==> d in ds
    decreases |dates|
  {
    if dates == {} then []
    else
      var first := MinDate(dates);
      var rest := SortedDates(dates - {first});
      var ds := [first] + rest;
      forall d | d in dates ensures d in ds {
        if d != first { assert d in dates - {first}; }
      }
      assert IsLeast(first, dates);
      AscendingCons(first, rest, dates);
      ds
  }

  /** The logged dates in the order `Values` lists their entries. */
  function Dates(entries: map<Date, DailyEntry>): (ds: seq<Date>)
    ensures |ds| == |entries|
  {
    SortedDates(entries.Keys)
  }

  /** `vs` holds, position by position, the entries of `m` at the dates `ds`. */
  predicate ListsAt(vs: seq<DailyEntry>, m: map<Date, DailyEntry>, ds: seq<Date>)
  {
    |vs| == |ds| && forall i :: 0 <= i < |ds| ==> ds[i] in m && vs[i] == m[ds[i]]
  }

  lemma ListsAtCons(m: map<Date, DailyEntry>, first: Date, vs: seq<DailyEntry>, ds: seq<Date>)
    requires first in m && ListsAt(vs, m - {first}, ds)
    ensures ListsAt([m[first]] + vs, m, [first] + ds)
  {
    var vs', ds' := [m[first]] + vs, [first] + ds;
    forall i | 0 <= i < |ds'| ensures ds'[i] in m && vs'[i] == m[ds'[i]] {
      if i > 0 {
        assert ds'[i] == ds[i - 1] && vs'[i] == vs[i - 1];
        assert ds[i - 1] in m - {first};
      }
    }
  }

  /**
   * `Values` lists, position by position, the entry of each logged date in
   * ascending date order: one item per key, so two dates holding equal entries
   * give that entry twice.
   */
  lemma {:induction false} ValuesFollowDates(entries: map<Date, DailyEntry>)
    ensures ListsAt(Values(entries), entries, Dates(entries))
    decreases |entries|
  {
    if entries != map[] {
      var first := MinDate(entries.Keys);
      var rest := entries - {first};
      ValuesFollowDates(rest);
      assert Values(entries) == [entries[first]] + Values(rest);
      assert rest.Keys == entries.Keys - {first};
      assert Dates(entries) == [first] + Dates(rest);
      ListsAtCons(entries, first, Values(rest), Dates(rest));
    }
  }

  /** `Array#reduce` summing an integer field. */
  function SumInt(s: seq<DailyEntry>, f: DailyEntry -> int): int
  {
    if s == [] then 0 else f(s[0]) + SumInt(s[1..], f)
  }

  /** `Array#reduce` summing a real field. */
  function SumReal(s: seq<DailyEntry>, f: DailyEntry -> real): real
  {
    if s == [] then 0.0 else f(s[0]) + SumReal(s[1..], f)
  }

  /**
   * `Array#filter(...).length` for one workout type: none counted exactly when
   * no listed entry has the type, all of them exactly when every one has it.
   */
  function CountKind(s: seq<DailyEntry>, kind: WorkoutType): (n: nat)
    ensures n <= |s|
    ensures n == 0 <==> forall e :: e in s ==> e.additionalWorkout.kind != kind
    ensures n == |s| <==> forall e :: e in s ==> e.additionalWorkout.kind == kind
  {
    if s == [] then 0
    else
      assert forall e :: e in s <==> e == s[0] || e in s[1..];
      (if s[0].additionalWorkout.kind == kind then 1 else 0) + CountKind(s[1..], kind)
  }

  /** The first listed entry is the earliest one, followed by the listing of the rest. */
  lemma ValuesUnfold(entries: map<Date, DailyEntry>)
    requires entries != map[]
    ensures Values(entries) == [entries[MinDate(entries.Keys)]] + Values(entries - {MinDate(entries.Keys)})
  {
  }

  /** Removing a date other than the earliest one keeps the earliest one first. */
  lemma RemoveKeepsFirst(entries: map<Date, DailyEntry>, d: Date)
    requires d in entries && d != MinDate(entries.Keys)
    ensures entries - {d} != map[]
    ensures MinDate((entries - {d}).Keys) == MinDate(entries.Keys)
    ensures (entries - {d}) - {MinDate(entries.Keys)} == (entries - {MinDate(entries.Keys)}) - {d}
  {
    var first := MinDate(entries.Keys);
    assert first in entries - {d};
  }

  /** Removing one date from the map takes exactly its entry out of the sum. */
  lemma {:induction false} SumIntRemove(entries: map<Date, DailyEntry>, d: Date, f: DailyEntry -> int)
    requires d in entries
    ensures SumInt(Values(entries), f) == f(entries[d]) + SumInt(Values(entries - {d}), f)
    decreases |entries|
  {
    var first := MinDate(entries.Keys);
    ValuesUnfold(entries);
    var vs := Values(entries);
    assert vs[1..] == Values(entries - {first});
    if d != first {
      var rest := entries - {first};
      SumIntRemove(rest, d, f);
      RemoveKeepsFirst(entries, d);
      ValuesUnfold(entries - {d});
      var ws := Values(entries - {d});
      assert ws[1..] == Values(rest - {d});
    }
  }

  lemma {:induction false} SumRealRemove(entries: map<Date, DailyEntry>, d: Date, f: DailyEntry -> real)
    requires d in entries
    ensures SumReal(Values(entries), f) == f(entries[d]) + SumReal(Values(entries - {d}), f)
    decreases |entries|
  {
    var first := MinDate(entries.Keys);
    ValuesUnfold(entries);
    var vs := Values(entries);
    assert vs[1..] == Values(entries - {first});
    if d != first {
      var rest := entries - {first};
      SumRealRemove(rest, d, f);
      RemoveKeepsFirst(entries, d);
      ValuesUnfold(entries - {d});
      var ws := Values(entries - {d});
      assert ws[1..] == Values(rest - {d});
    }
  }

  lemma {:induction false} CountKindRemove(entries: map<Date, DailyEntry>, d: Date, kind: WorkoutType)
    requires d in entries
    ensures CountKind(Values(entries), kind)
            == (if entries[d].additionalWorkout.kind == kind then 1 else 0) + CountKind(Values(entries - {d}), kind)
    decreases |entries|
  {
    var first := MinDate(entries.Keys);
    ValuesUnfold(entries);
    var vs := Values(entries);
    assert vs[1..] == Values(entries - {first});
    assert CountKind(vs, kind) == (if vs[0].additionalWorkout.kind == kind then 1 else 0) + CountKind(vs[1..], kind);
    if d != first {
      var rest := entries - {first};
      CountKindRemove(rest, d, kind);
      RemoveKeepsFirst(entries, d);
      ValuesUnfold(entries - {d});
      var ws := Values(entries - {d});
      assert ws[1..] == Values(rest - {d});
      assert ws[0] == vs[0];
      assert CountKind(ws, kind) == (if ws[0].additionalWorkout.kind == kind then 1 else 0) + CountKind(ws[1..], kind);
    }
  }

  /** The two workout types split every list: the counts add up to its length. */
  lemma {:induction false} KindCountsCover(s: seq<DailyEntry>)
    ensures CountKind(s, Strength) + CountKind(s, Recovery) == |s|
  {
    if s != [] { KindCountsCover(s[1..]); }
  }

  /** The orders the history view offers; the dashboard uses the date order. */
  datatype SortKey = ByDate | ByWeight | ByCalories

  function Key(e: DailyEntry, key: SortKey): real
  {
    match key
    case ByDate => e.date as real
    case ByWeight => e.weight
    case ByCalories => e.calories as real
  }

  /** Each entry's key is at least the next one's. */
  predicate SortedDesc(s: seq<DailyEntry>, key: SortKey)
  {
    forall i :: 0 < i < |s| ==> Key(s[i - 1], key) >= Key(s[i], key)
  }

  /** Descending neighbours make every earlier key at least every later one. */
  lemma {:induction false} SortedDescPairs(s: seq<DailyEntry>, key: SortKey, i: int, j: int)
    requires SortedDesc(s, key) && 0 <= i <= j < |s|
    ensures Key(s[i], key) >= Key(s[j], key)
    decreases j - i
  {
    if i < j { SortedDescPairs(s, key, i + 1, j); }
  }

  /** Insert `e` before the first element whose key is not larger, keeping ties in input order. */
  function Insert(e: DailyEntry, s: seq<DailyEntry>, key: SortKey): (r: seq<DailyEntry>)
    requires SortedDesc(s, key)
    ensures SortedDesc(r, key)
    ensures multiset(r) == multiset(s) + multiset{e}
    ensures |r| == |s| + 1 && (r[0] == e || (s != [] && r[0] == s[0]))
  {
    if s == [] || Key(e, key) >= Key(s[0], key) then
      ConsSorted(e, s, key);
      [e] + s
    else
      TailSorted(s, key);
      var rest := Insert(e, s[1..], key);
      assert multiset(s) == multiset{s[0]} + multiset(s[1..]) by { assert s == [s[0]] + s[1..]; }
      assert Key(s[0], key) >= Key(rest[0], key) by {
        if rest[0] != e { assert rest[0] == s[1]; }
      }
      assert multiset([s[0]] + rest) == multiset{s[0]} + multiset(rest);
      ConsSorted(s[0], rest, key);
      [s[0]] + rest
  }

  /** Dropping the head of a descending list leaves a descending list. */
  lemma TailSorted(s: seq<DailyEntry>, key: SortKey)
    requires SortedDesc(s, key) && s != []
    ensures SortedDesc(s[1..], key)
  {
    var t := s[1..];
    forall i | 0 < i < |t| ensures Key(t[i - 1], key) >= Key(t[i], key) {
      assert t[i - 1] == s[i] && t[i] == s[i + 1];
    }
  }

  /** An element whose key is at least the head's extends a descending list. */
  lemma ConsSorted(x: DailyEntry, r: seq<DailyEntry>, key: SortKey)
    requires SortedDesc(r, key) && (r == [] || Key(x, key) >= Key(r[0], key))
    ensures SortedDesc([x] + r, key)
  {
    var s := [x] + r;
    forall i | 0 < i < |s| ensures Key(s[i - 1], key) >= Key(s[i], key) {
      if i > 1 { assert s[i - 1] == r[i - 2] && s[i] == r[i - 1]; }
    }
  }

  /**
   * `Array#sort` with the comparator `key(b) - key(a)`: a stable sort into
   * descending key order (stability is `SortDescStable`).
   */
  function SortDesc(s: seq<DailyEntry>, key: SortKey): (r: seq<DailyEntry>)
    ensures SortedDesc(r, key)
    ensures multiset(r) == multiset(s)
  {
    if s == [] then []
    else
      assert s == [s[0]] + s[1..];
      Insert(s[0], SortDesc(s[1..], key), key)
  }

  /** The elements of `s` whose key is `k`, in their order in `s`. */
  function WithKey(s: seq<DailyEntry>, key: SortKey, k: real): seq<DailyEntry>
  {
    if s == [] then [] else (if Key(s[0], key) == k then [s[0]] else []) + WithKey(s[1..], key, k)
  }

  /** Inserting `e` puts it before every element of the same key. */
  lemma {:induction false} InsertStable(e: DailyEntry, s: seq<DailyEntry>, key: SortKey, k: real)
    requires SortedDesc(s, key)
    ensures WithKey(Insert(e, s, key), key, k) == (if Key(e, key) == k then [e] else []) + WithKey(s, key, k)
  {
    if s == [] || Key(e, key) >= Key(s[0], key) {
      InsertFront(e, s, key);
      WithKeyCons(e, s, key, k);
    } else {
      InsertBehind(e, s, key);
      var rest := Insert(e, s[1..], key);
      WithKeyCons(s[0], rest, key, k);
      InsertStable(e, s[1..], key, k);
      WithKeyCons(s[0], s[1..], key, k);
      assert [s[0]] + s[1..] == s;
      TiesAfterLarger(s[0], e, WithKey(s[1..], key, k), key, k);
    }
  }

  /** An element with a larger key and `e` cannot both have key `k`, so their runs of key `k` commute. */
  lemma TiesAfterLarger(x: DailyEntry, e: DailyEntry, w: seq<DailyEntry>, key: SortKey, k: real)
    requires Key(x, key) > Key(e, key)
    ensures (if Key(x, key) == k then [x] else []) + ((if Key(e, key) == k then [e] else []) + w)
         == (if Key(e, key) == k then [e] else []) + ((if Key(x, key) == k then [x] else []) + w)
  {
  }

  /** `Insert` puts `e` in front when its key is at least the head's. */
  lemma InsertFront(e: DailyEntry, s: seq<DailyEntry>, key: SortKey)
    requires SortedDesc(s, key) && (s == [] || Key(e, key) >= Key(s[0], key))
    ensures Insert(e, s, key) == [e] + s
  {
  }

  /** Otherwise it keeps the head and inserts into the rest. */
  lemma InsertBehind(e: DailyEntry, s: seq<DailyEntry>, key: SortKey)
    requires SortedDesc(s, key) && s != [] && Key(e, key) < Key(s[0], key)
    ensures SortedDesc(s[1..], key) && Insert(e, s, key) == [s[0]] + Insert(e, s[1..], key)
  {
    TailSorted(s, key);
  }

  /** `WithKey` of a list with one more element in front. */
  lemma WithKeyCons(x: DailyEntry, t: seq<DailyEntry>, key: SortKey, k: real)
    ensures WithKey([x] + t, key, k) == (if Key(x, key) == k then [x] else []) + WithKey(t, key, k)
  {
    assert ([x] + t)[1..] == t;
  }

  /**
   * The sort is stable: for every key value, the elements with that key come
   * out in the order they had in the input.
   */
  lemma {:induction false} SortDescStable(s: seq<DailyEntry>, key: SortKey, k: real)
    ensures WithKey(SortDesc(s, key), key, k) == WithKey(s, key, k)
  {
    if s != [] {
      SortDescStable(s[1..], key, k);
      InsertStable(s[0], SortDesc(s[1..], key), key, k);
    }
  }
}

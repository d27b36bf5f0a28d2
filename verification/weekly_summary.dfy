/**
 * The weekly summary card: a seven-day mood grid ending today, filled from
 * the first entry found on each day, and the three most frequent tags among
 * the last seven entries of the list.  Dates are day numbers.
 */
module WeeklySummary {
  import opened Wrappers
  import opened Lists
  import opened Sorting

  datatype Entry = Entry(date: int, mood: int, tags: seq<string>)

  /** One slot of the grid; `mood` is `null` until an entry is found for the day. */
  datatype Day = Day(date: int, mood: Option<int>)

  // ---------------------------------------------------------------------
  // The mood grid

  /** `entries.find(e => sameDay(e.date, day))`, as the index of the entry found. */
  function FirstOn(entries: seq<Entry>, day: int): (r: Option<nat>)
    ensures r.Some? ==> r.value < |entries| && entries[r.value].date == day
    ensures r.Some? ==> forall j :: 0 <= j < r.value ==> entries[j].date != day
    ensures r.None? ==> forall j :: 0 <= j < |entries| ==> entries[j].date != day
  {
    if entries == [] then None
    else if entries[0].date == day then Some(0)
    else
      match FirstOn(entries[1..], day)
      case None => None
      case Some(i) => Some(i + 1)
  }

  /** The mood a day shows: none without an entry on the day, else the mood of the first one. */
  function MoodOn(entries: seq<Entry>, day: int): (r: Option<int>)
    ensures r.None? <==> forall j :: 0 <= j < |entries| ==> entries[j].date != day
    ensures r.Some? ==> exists i :: 0 <= i < |entries| && entries[i].date == day && r.value == entries[i].mood &&
                                    forall j :: 0 <= j < i ==> entries[j].date != day
  {
    match FirstOn(entries, day)
    case None => None
    case Some(i) => Some(entries[i].mood)
  }

  /**
   * `getWeeklyData`: seven slots for the days from six days ago to today,
   * oldest first, each then given the mood of the first entry on its day.
   */
  method WeeklyData(entries: seq<Entry>, today: int) returns (days: seq<Day>)
    ensures |days| == 7
    ensures forall k :: 0 <= k < 7 ==> days[k].date == today - 6 + k
    ensures forall k :: 0 <= k < 7 ==> days[k].mood == MoodOn(entries, days[k].date)
  {
    days := [];
    var i := 6;
    while i >= 0
      invariant -1 <= i <= 6 && |days| == 6 - i
      invariant forall k :: 0 <= k < |days| ==> days[k] == Day(today - 6 + k, None)
    {
      days := days + [Day(today - i, None)];
      i := i - 1;
    }
    var k := 0;
    while k < |days|
      invariant 0 <= k <= |days| == 7
      invariant forall m :: 0 <= m < 7 ==> days[m].date == today - 6 + m
      invariant forall m :: 0 <= m < k ==> days[m].mood == MoodOn(entries, days[m].date)
      invariant forall m :: k <= m < 7 ==> days[m].mood == None
    {
      var found := FirstOn(entries, days[k].date);
      if found.Some? {
        days := days[k := days[k].(mood := Some(entries[found.value].mood))];
      }
      k := k + 1;
    }
  }

  // ---------------------------------------------------------------------
  // Tag counts

  /** How many times `t` occurs in `xs`. */
  function Count<T(==)>(xs: seq<T>, t: T): nat
  {
    if xs == [] then 0 else Count(xs[..|xs| - 1], t) + (if xs[|xs| - 1] == t then 1 else 0)
  }

  /** A tag is counted at least once exactly when it occurs. */
  lemma {:induction false} CountPositive<T>(xs: seq<T>, t: T)
    ensures Count(xs, t) > 0 <==> t in xs
  {
    if xs != [] {
      CountPositive(xs[..|xs| - 1], t);
      assert xs == xs[..|xs| - 1] + [xs[|xs| - 1]];
    }
  }

  lemma CountSnoc<T>(xs: seq<T>, x: T, t: T)
    ensures Count(xs + [x], t) == Count(xs, t) + (if x == t then 1 else 0)
  {
    assert (xs + [x])[..|xs|] == xs;
  }

  /** The tags of the entries, in list order. */
  function AllTags(es: seq<Entry>): seq<string>
  {
    if es == [] then [] else AllTags(es[..|es| - 1]) + es[|es| - 1].tags
  }

  /** `entries.slice(-7)`: the last seven list positions, or the whole list when it is shorter. */
  function LastSeven(entries: seq<Entry>): (r: seq<Entry>)
    ensures |entries| <= 7 ==> r == entries
    ensures |entries| > 7 ==> |r| == 7 && r == entries[|entries| - 7..]
  {
    if |entries| <= 7 then entries else entries[|entries| - 7..]
  }

  /** The distinct elements of `xs` in order of first occurrence: the object's key order. */
  function Keys<T(==)>(xs: seq<T>): seq<T>
  {
    if xs == [] then []
    else
      var init, x := Keys(xs[..|xs| - 1]), xs[|xs| - 1];
      if x in init then init else init + [x]
  }

  /** The keys are exactly the tags that occur. */
  lemma {:induction false} KeysMember<T>(xs: seq<T>, t: T)
    ensures t in Keys(xs) <==> t in xs
  {
    if xs != [] {
      KeysMember(xs[..|xs| - 1], t);
      assert xs == xs[..|xs| - 1] + [xs[|xs| - 1]];
    }
  }

  /** No key is listed twice. */
  lemma {:induction false} KeysDistinct<T>(xs: seq<T>)
    ensures NoDup(Keys(xs))
  {
    if xs != [] {
      KeysDistinct(xs[..|xs| - 1]);
    }
  }

  /** The count table of `xs`: each distinct tag with its number of occurrences, in key order. */
  function Tally<T(==)>(xs: seq<T>): (r: seq<(T, nat)>)
    ensures |r| == |Keys(xs)|
  {
    var ks := Keys(xs);
    seq(|ks|, i requires 0 <= i < |ks| => (ks[i], Count(xs, ks[i])))
  }

  /** Every row of the table is a tag of `xs` with its occurrence count, which is at least one. */
  lemma TallyRows<T>(xs: seq<T>)
    ensures forall p :: p in Tally(xs) ==> p.0 in xs && p.1 == Count(xs, p.0) && p.1 >= 1
    ensures forall t :: t in xs ==> exists p :: p in Tally(xs) && p.0 == t
  {
    var r, ks := Tally(xs), Keys(xs);
    forall p | p in r ensures p.0 in xs && p.1 == Count(xs, p.0) && p.1 >= 1 {
      var i :| 0 <= i < |r| && r[i] == p;
      assert p.0 == ks[i];
      KeysMember(xs, p.0);
      CountPositive(xs, p.0);
    }
    forall t | t in xs ensures exists p :: p in r && p.0 == t {
      KeysMember(xs, t);
      var i :| 0 <= i < |ks| && ks[i] == t;
      assert r[i] in r;
    }
  }

  /** The lookup `tagCounts[t]`: the position of the row for `t`, or the length when there is none. */
  function RowOf<T(==)>(tally: seq<(T, nat)>, t: T): (p: nat)
    ensures p <= |tally|
    ensures p < |tally| ==> tally[p].0 == t
    ensures forall q :: 0 <= q < p ==> tally[q].0 != t
  {
    if tally == [] then 0
    else if tally[0].0 == t then 0
    else RowOf(tally[1..], t) + 1
  }

  /** `tagCounts[t] = (tagCounts[t] || 0) + 1`: bumps the row of `t`, or appends a row with count 1. */
  function Bump<T(==)>(tally: seq<(T, nat)>, t: T): seq<(T, nat)>
  {
    var p := RowOf(tally, t);
    if p == |tally| then tally + [(t, 1)] else tally[p := (t, tally[p].1 + 1)]
  }

  /** Counting one more tag bumps the table: the loop body keeps the table equal to `Tally` of what it has seen. */
  lemma TallySnoc<T>(xs: seq<T>, t: T)
    ensures Tally(xs + [t]) == Bump(Tally(xs), t)
  {
    var ks, p := Keys(xs), RowOf(Tally(xs), t);
    if p < |ks| {
      KeysDistinct(xs);
      assert ks[p] == t;
      TallyPresent(xs, t, p);
    } else {
      assert forall q :: 0 <= q < |ks| ==> ks[q] != t by {
        forall q | 0 <= q < |ks| ensures ks[q] != t {
          assert Tally(xs)[q].0 == ks[q];
        }
      }
      TallyAbsent(xs, t);
    }
  }

  lemma KeysSnoc<T>(xs: seq<T>, t: T)
    ensures Keys(xs + [t]) == if t in Keys(xs) then Keys(xs) else Keys(xs) + [t]
  {
    assert (xs + [t])[..|xs|] == xs;
  }

  /** A tag already counted: its row goes up by one and every other row stays. */
  lemma TallyPresent<T>(xs: seq<T>, t: T, p: nat)
    requires p < |Keys(xs)| && Keys(xs)[p] == t
    ensures Tally(xs + [t]) == Tally(xs)[p := (t, Tally(xs)[p].1 + 1)]
  {
    var ks, a, b := Keys(xs), Tally(xs + [t]), Tally(xs)[p := (t, Tally(xs)[p].1 + 1)];
    KeysDistinct(xs);
    KeysSnoc(xs, t);
    assert Keys(xs + [t]) == ks;
    forall i | 0 <= i < |ks| ensures a[i] == b[i] {
      CountSnoc(xs, t, ks[i]);
    }
  }

  /** A new tag: a row with count one is appended. */
  lemma TallyAbsent<T>(xs: seq<T>, t: T)
    requires forall q :: 0 <= q < |Keys(xs)| ==> Keys(xs)[q] != t
    ensures Tally(xs + [t]) == Tally(xs) + [(t, 1)]
  {
    var ks := Keys(xs);
    var a, b := Tally(xs + [t]), Tally(xs) + [(t, 1)];
    KeysSnoc(xs, t);
    assert Keys(xs + [t]) == ks + [t];
    forall i | 0 <= i < |ks| ensures a[i] == b[i] {
      CountSnoc(xs, t, ks[i]);
    }
    KeysMember(xs, t);
    CountPositive(xs, t);
    CountSnoc(xs, t, t);
    assert a[|ks|] == b[|ks|];
  }

  lemma PrefixStep<T>(seen: seq<T>, tags: seq<T>, j: nat)
    requires j < |tags|
    ensures seen + tags[..j + 1] == (seen + tags[..j]) + [tags[j]]
  {
    assert tags[..j + 1] == tags[..j] + [tags[j]];
  }

  /** The nested `forEach` over `entries.slice(-7)` and their tags. */
  method CountTags(entries: seq<Entry>) returns (tally: seq<(string, nat)>)
    ensures tally == Tally(AllTags(LastSeven(entries)))
  {
    var recent := LastSeven(entries);
    tally := [];
    var i := 0;
    while i < |recent|
      invariant 0 <= i <= |recent|
      invariant tally == Tally(AllTags(recent[..i]))
    {
      var seen, tags := AllTags(recent[..i]), recent[i].tags;
      var j := 0;
      assert seen + tags[..0] == seen;
      while j < |tags|
        invariant 0 <= j <= |tags|
        invariant tally == Tally(seen + tags[..j])
      {
        TallySnoc(seen + tags[..j], tags[j]);
        PrefixStep(seen, tags, j);
        tally := Bump(tally, tags[j]);
        j := j + 1;
      }
      assert recent[..i + 1][..i] == recent[..i];
      assert tags[..j] == tags;
      assert AllTags(recent[..i + 1]) == seen + tags;
      i := i + 1;
    }
    assert recent[..i] == recent;
  }

  // ---------------------------------------------------------------------
  // Top tags

  function CountOf<T>(row: (T, nat)): int { row.1 }

  /**
   * `Object.entries(tagCounts).sort((a, b) => b[1] - a[1]).slice(0, 3)`:
   * at most three rows, by non-increasing count.
   */
  function TopTags<T(==)>(tally: seq<(T, nat)>): (r: seq<(T, nat)>)
    ensures |r| == if |tally| < 3 then |tally| else 3
    ensures NonIncreasing(r, CountOf)
    ensures multiset(r) <= multiset(tally)
  {
    var sorted := SortDesc(tally, CountOf);
    var k := if |sorted| < 3 then |sorted| else 3;
    assert sorted == sorted[..k] + sorted[k..];
    sorted[..k]
  }

  /** The top rows are rows of the table, and no row left out has a larger count than the third one kept. */
  lemma TopTagsSelect<T>(tally: seq<(T, nat)>)
    ensures forall p :: p in TopTags(tally) ==> p in tally
    ensures forall p :: p in tally ==> p in TopTags(tally) || (|TopTags(tally)| == 3 && p.1 <= TopTags(tally)[2].1)
  {
    var sorted, r := SortDesc(tally, CountOf), TopTags(tally);
    assert r == sorted[..|r|];
    forall p | p in r ensures p in tally {
      assert p in multiset(sorted);
    }
    forall p | p in tally ensures p in r || (|r| == 3 && p.1 <= r[2].1) {
      assert p in multiset(sorted);
      var i :| 0 <= i < |sorted| && sorted[i] == p;
      if i >= 3 {
        assert CountOf(sorted[2]) >= CountOf(sorted[i]);
      } else {
        assert r[i] == p;
      }
    }
  }

  /** A list without repeats holds each element at most once. */
  lemma {:induction false} NoDupOnce<T>(xs: seq<T>, x: T)
    requires NoDup(xs)
    ensures multiset(xs)[x] <= 1
  {
    if xs != [] {
      var init, last := xs[..|xs| - 1], xs[|xs| - 1];
      assert xs == init + [last];
      assert NoDup(init);
      NoDupOnce(init, x);
      assert last !in init;
    }
  }

  /** The rows of the table have pairwise different tags. */
  lemma TallyTagsDistinct<T>(xs: seq<T>)
    ensures forall i, j :: 0 <= i < j < |Tally(xs)| ==> Tally(xs)[i].0 != Tally(xs)[j].0
  {
    KeysDistinct(xs);
  }

  /** The top rows name three different tags: no tag is shown twice. */
  lemma TopTagsDistinct<T>(xs: seq<T>)
    ensures forall i, j :: 0 <= i < j < |TopTags(Tally(xs))| ==> TopTags(Tally(xs))[i].0 != TopTags(Tally(xs))[j].0
  {
    forall i, j | 0 <= i < j < |TopTags(Tally(xs))| ensures TopTags(Tally(xs))[i].0 != TopTags(Tally(xs))[j].0 {
      TopRowsDiffer(xs, i, j);
    }
  }

  lemma TopRowsDiffer<T>(xs: seq<T>, i: nat, j: nat)
    requires i < j < |TopTags(Tally(xs))|
    ensures TopTags(Tally(xs))[i].0 != TopTags(Tally(xs))[j].0
  {
    var tally, top := Tally(xs), TopTags(Tally(xs));
    var p, q := top[i], top[j];
    if p.0 == q.0 {
      assert p in multiset(top) && q in multiset(top);
      assert p in multiset(tally) && q in multiset(tally);
      TallyRows(xs);
      assert p == q;
      TwiceCounted(top, i, j);
      TallyTagsDistinct(xs);
      NoDupOnce(tally, p);
      assert false;
    }
  }

  /** An element found at two positions occurs at least twice. */
  lemma TwiceCounted<T>(xs: seq<T>, i: nat, j: nat)
    requires i < j < |xs| && xs[i] == xs[j]
    ensures multiset(xs)[xs[i]] >= 2
  {
    assert xs == xs[..j] + [xs[j]] + xs[j + 1..];
    assert xs[..j][i] == xs[i];
    assert xs[i] in multiset(xs[..j]);
  }

  /** Every top tag's count is at least one and is its number of occurrences among the counted tags. */
  lemma TopTagsCounts<T>(xs: seq<T>)
    ensures forall p :: p in TopTags(Tally(xs)) ==> p.0 in xs && p.1 == Count(xs, p.0) && p.1 >= 1
    ensures forall t :: t in xs ==>
              (exists p :: p in TopTags(Tally(xs)) && p.0 == t) || (|TopTags(Tally(xs))| == 3 && Count(xs, t) <= TopTags(Tally(xs))[2].1)
  {
    TallyRows(xs);
    TopTagsSelect(Tally(xs));
    var top := TopTags(Tally(xs));
    forall t | t in xs
      ensures (exists p :: p in top && p.0 == t) || (|top| == 3 && Count(xs, t) <= top[2].1)
    {
      var p :| p in Tally(xs) && p.0 == t;
      assert p in top || (|top| == 3 && p.1 <= top[2].1);
    }
  }

  // ---------------------------------------------------------------------
  // The card

  datatype Summary = Summary(days: seq<Day>, topTags: seq<(string, nat)>)

  /** The component: nothing for an empty list, otherwise the grid and the top tags. */
  method Render(entries: seq<Entry>, today: int) returns (r: Option<Summary>)
    ensures r.None? <==> entries == []
    ensures r.Some? ==> |r.value.days| == 7
    ensures r.Some? ==> forall k :: 0 <= k < 7 ==> r.value.days[k] == Day(today - 6 + k, MoodOn(entries, today - 6 + k))
    ensures r.Some? ==> r.value.topTags == TopTags(Tally(AllTags(LastSeven(entries))))
  {
    if |entries| == 0 {
      return None;
    }
    var days := WeeklyData(entries, today);
    var tally := CountTags(entries);
    r := Some(Summary(days, TopTags(tally)));
  }
}

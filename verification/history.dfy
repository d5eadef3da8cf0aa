/**
 * The transaction history of the home page: the transactions are gathered per
 * date stamp, the dates are put in descending order, and each date is followed
 * by its transactions in list order.
 *
 * Dates are compared as strings, character by character, which is how the
 * default array sort orders them.
 */
module History {

  import opened Format
  import opened Ledger

  /** One date heading and the transactions listed under it. */
  datatype DateGroup = DateGroup(date: string, items: seq<Transaction>)

  // ---------------------------------------------------------------------------
  // String order

  /** `a` sorts strictly before `b`: a proper prefix of it, or smaller at the
      first character where they differ. */
  predicate Below(a: string, b: string): (r: bool)
    ensures r <==> Lexicographic(a, b)
    decreases |a|
  {
    if a == [] then
      LexEmpty(a, b);
      b != []
    else if b == [] then
      LexEmpty(b, a);
      false
    else if a[0] != b[0] then
      LexHead(a, b);
      a[0] < b[0]
    else
      LexStep(a, b);
      Below(a[1..], b[1..])
  }

  /** `a` and `b` agree on their first `k` characters, and there `a` ends while
      `b` goes on, or `a` has the smaller character. */
  ghost predicate FirstDifferenceAt(a: string, b: string, k: nat) {
    && k <= |a| && k <= |b| && a[..k] == b[..k]
    && (k == |a| < |b| || (k < |a| && k < |b| && a[k] < b[k]))
  }

  /** The lexicographic order of character codes: the reference the sort's
      string comparison is checked against. */
  ghost predicate Lexicographic(a: string, b: string) {
    exists k: nat :: FirstDifferenceAt(a, b, k)
  }

  lemma LexEmpty(e: string, b: string)
    requires e == []
    ensures Lexicographic(e, b) <==> b != []
    ensures !Lexicographic(b, e)
  {
    if b != [] {
      assert FirstDifferenceAt(e, b, 0);
    }
  }

  lemma LexHead(a: string, b: string)
    requires a != [] && b != [] && a[0] != b[0]
    ensures Lexicographic(a, b) <==> a[0] < b[0]
  {
    if a[0] < b[0] {
      assert FirstDifferenceAt(a, b, 0);
    }
  }

  lemma LexStep(a: string, b: string)
    requires a != [] && b != [] && a[0] == b[0]
    ensures Lexicographic(a, b) <==> Lexicographic(a[1..], b[1..])
  {
    if Lexicographic(a, b) {
      var k: nat :| FirstDifferenceAt(a, b, k);
      assert k != 0;
      assert a[1..][..k - 1] == a[..k][1..] && b[1..][..k - 1] == b[..k][1..];
      assert FirstDifferenceAt(a[1..], b[1..], k - 1);
    }
    if Lexicographic(a[1..], b[1..]) {
      var k: nat :| FirstDifferenceAt(a[1..], b[1..], k);
      assert a[..k + 1] == [a[0]] + a[1..][..k] && b[..k + 1] == [b[0]] + b[1..][..k];
      assert FirstDifferenceAt(a, b, k + 1);
    }
  }

  lemma {:induction false} BelowIrreflexive(a: string)
    ensures !Below(a, a)
    decreases |a|
  {
    if a != [] {
      BelowIrreflexive(a[1..]);
    }
  }

  lemma {:induction false} BelowTransitive(a: string, b: string, c: string)
    requires Below(a, b) && Below(b, c)
    ensures Below(a, c)
    decreases |a|
  {
    if a != [] && b != [] && c != [] && a[0] == b[0] && b[0] == c[0] {
      BelowTransitive(a[1..], b[1..], c[1..]);
    }
  }

  lemma {:induction false} BelowTotal(a: string, b: string)
    requires a != b
    ensures Below(a, b) || Below(b, a)
    decreases |a|
  {
    if a != [] && b != [] && a[0] == b[0] {
      assert a == [a[0]] + a[1..] && b == [b[0]] + b[1..];
      BelowTotal(a[1..], b[1..]);
    }
  }

  lemma BelowAsymmetric(a: string, b: string)
    requires Below(a, b)
    ensures !Below(b, a)
  {
    if Below(b, a) {
      BelowTransitive(a, b, a);
      BelowIrreflexive(a);
    }
  }

  predicate Distinct(s: seq<string>) {
    forall i, j :: 0 <= i < j < |s| ==> s[i] != s[j]
  }

  predicate Ascending(s: seq<string>) {
    forall i, j :: 0 <= i < j < |s| ==> Below(s[i], s[j])
  }

  predicate Descending(s: seq<string>) {
    forall i, j :: 0 <= i < j < |s| ==> Below(s[j], s[i])
  }

  /** `x` placed into an ascending list where it belongs. */
  function Insert(s: seq<string>, x: string): (r: seq<string>)
    requires Ascending(s) && x !in s
    ensures Ascending(r) && |r| == |s| + 1
    ensures forall d :: d in r <==> d in s || d == x
  {
    if s == [] then [x]
    else if Below(x, s[0]) then
      assert Ascending([x] + s) by {
        forall j | 0 <= j < |s|
          ensures Below(x, s[j])
        {
          if j > 0 {
            BelowTransitive(x, s[0], s[j]);
          }
        }
      }
      [x] + s
    else
      var rest := Insert(s[1..], x);
      assert Below(s[0], x) by {
        BelowTotal(x, s[0]);
      }
      assert forall d :: d in s[1..] ==> Below(s[0], d) by {
        forall d | d in s[1..]
          ensures Below(s[0], d)
        {
          var j :| 0 <= j < |s[1..]| && s[1..][j] == d;
          assert s[j + 1] == d;
        }
      }
      assert Ascending([s[0]] + rest) by {
        forall i, j | 0 <= i < j < |rest| + 1
          ensures Below(([s[0]] + rest)[i], ([s[0]] + rest)[j])
        {
          if i == 0 {
            assert rest[j - 1] in rest;
          }
        }
      }
      [s[0]] + rest
  }

  function Reverse(s: seq<string>): (r: seq<string>)
    ensures |r| == |s|
    ensures forall i :: 0 <= i < |s| ==> r[i] == s[|s| - 1 - i]
    ensures forall d :: d in r <==> d in s
  {
    if s == [] then [] else Reverse(s[1..]) + [s[0]]
  }

  /** The default sort of the collected dates: ascending, no date lost or added. */
  method SortDates(keys: seq<string>) returns (sorted: seq<string>)
    requires Distinct(keys)
    ensures Ascending(sorted) && |sorted| == |keys|
    ensures forall d :: d in sorted <==> d in keys
  {
    sorted := [];
    var i := 0;
    while i < |keys|
      invariant 0 <= i <= |keys|
      invariant Ascending(sorted) && |sorted| == i
      invariant forall d :: d in sorted <==> d in keys[..i]
    {
      assert keys[i] !in keys[..i];
      sorted := Insert(sorted, keys[i]);
      assert keys[..i + 1] == keys[..i] + [keys[i]];
      i := i + 1;
    }
    assert keys[..i] == keys;
  }

  /** The sorted dates reversed: newest first. */
  lemma ReverseDescends(s: seq<string>)
    requires Ascending(s)
    ensures Descending(Reverse(s))
  {
  }

  // ---------------------------------------------------------------------------
  // The grouping, as a specification

  /** The transactions of `txs` stamped `date`, in list order. */
  function Filter(txs: seq<Transaction>, date: string): (r: seq<Transaction>)
    ensures |r| <= |txs|
  {
    if txs == [] then []
    else
      var last := txs[|txs| - 1];
      Filter(txs[..|txs| - 1], date) + (if last.date == date then [last] else [])
  }

  lemma {:induction false} FilterAppend(a: seq<Transaction>, b: seq<Transaction>, date: string)
    ensures Filter(a + b, date) == Filter(a, date) + Filter(b, date)
    decreases |b|
  {
    if b == [] {
      assert a + b == a;
    } else {
      var c := b[..|b| - 1];
      assert (a + b)[..|a + b| - 1] == a + c;
      assert b[..|b| - 1] == c;
      FilterAppend(a, c, date);
    }
  }

  function Dates(groups: seq<DateGroup>): (r: seq<string>)
    ensures |r| == |groups| && forall i :: 0 <= i < |groups| ==> r[i] == groups[i].date
  {
    if groups == [] then [] else [groups[0].date] + Dates(groups[1..])
  }

  /** What the history shows for `txs`: date headings strictly newest first, each
      date holding exactly the transactions stamped with it in list order, every
      transaction's date present and no date without a transaction. */
  ghost predicate IsDateGrouping(txs: seq<Transaction>, groups: seq<DateGroup>) {
    && Descending(Dates(groups))
    && (forall i :: 0 <= i < |groups| ==> groups[i].items == Filter(txs, groups[i].date))
    && (forall i :: 0 <= i < |groups| ==> groups[i].items != [])
    && (forall k :: 0 <= k < |txs| ==> txs[k].date in Dates(groups))
  }

  // ---------------------------------------------------------------------------
  // The grouping, as the page computes it

  /** Gathers the transactions per date in one pass, sorts the dates and
      reverses them, then lists each date's transactions. */
  method GroupByDate(txs: seq<Transaction>) returns (groups: seq<DateGroup>)
    ensures IsDateGrouping(txs, groups)
  {
    var byDate, keys := GatherByDate(txs);
    GatherKeys(txs);
    var ascending := SortDates(keys);
    var sortedDates := Reverse(ascending);
    groups := ListGroups(sortedDates, byDate);
    GroupsShowHistory(txs, byDate, keys, ascending, groups);
  }

  /** The keys of the gathered dictionary are distinct and are its entries' dates. */
  lemma GatherKeys(txs: seq<Transaction>)
    ensures Distinct(Gather(txs).keys)
    ensures forall d :: d in Gather(txs).keys <==> d in Gather(txs).entries
  {
    GatherIsGathered(txs);
  }

  /** Listing the gathered dictionary under its dates in descending order shows
      the history. */
  lemma GroupsShowHistory(txs: seq<Transaction>, byDate: map<string, seq<Transaction>>, keys: seq<string>,
                          ascending: seq<string>, groups: seq<DateGroup>)
    requires Dictionary(byDate, keys) == Gather(txs)
    requires Ascending(ascending) && forall d :: d in ascending <==> d in keys
    requires Dates(groups) == Reverse(ascending)
    requires forall j :: 0 <= j < |groups| ==> groups[j].date in byDate && groups[j].items == byDate[groups[j].date]
    ensures IsDateGrouping(txs, groups)
  {
    GatherIsGathered(txs);
    GatheredCovers(txs, byDate, keys);
    ReverseDescends(ascending);
  }

  /** Every transaction's date is a key of the gathered dictionary. */
  lemma GatheredCovers(txs: seq<Transaction>, byDate: map<string, seq<Transaction>>, keys: seq<string>)
    requires Gathered(txs, byDate, keys)
    ensures forall k :: 0 <= k < |txs| ==> txs[k].date in keys
  {
    forall k | 0 <= k < |txs|
      ensures txs[k].date in keys
    {
      FilterIndex(txs, txs[k].date, k);
    }
  }

  /** The dictionary after the transactions `seen`: each date seen maps to its
      transactions in list order, no other date is a key, and the keys are
      distinct, one per date. */
  ghost predicate Gathered(seen: seq<Transaction>, byDate: map<string, seq<Transaction>>, keys: seq<string>) {
    && Distinct(keys)
    && (forall d :: d in byDate <==> d in keys)
    && (forall d :: d in byDate ==> byDate[d] == Filter(seen, d) && byDate[d] != [])
    && (forall d :: d !in byDate ==> Filter(seen, d) == [])
  }

  /** The page's dictionary and the order its keys were created in. */
  datatype Dictionary = Dictionary(entries: map<string, seq<Transaction>>, keys: seq<string>)

  /** The dictionary after the transactions `seen`, one push at a time: a date
      not yet a key gets an empty list and joins the keys, then the transaction
      goes at the end of its date's list. */
  function Gather(seen: seq<Transaction>): (r: Dictionary)
    ensures |r.keys| <= |seen|
  {
    if seen == [] then Dictionary(map[], [])
    else
      var prev, t := Gather(seen[..|seen| - 1]), seen[|seen| - 1];
      var keys := if t.date in prev.entries then prev.keys else prev.keys + [t.date];
      var list := if t.date in prev.entries then prev.entries[t.date] else [];
      Dictionary(prev.entries[t.date := list + [t]], keys)
  }

  /** The fold builds the dictionary the history needs. */
  lemma GatherIsGathered(seen: seq<Transaction>)
    ensures Gathered(seen, Gather(seen).entries, Gather(seen).keys)
  {
    GatherKeyOrder(seen);
    forall d
      ensures d in Gather(seen).entries ==> Gather(seen).entries[d] == Filter(seen, d) && Gather(seen).entries[d] != []
      ensures d !in Gather(seen).entries ==> Filter(seen, d) == []
    {
      GatherEntry(seen, d);
    }
  }

  /** One date's entry of the fold is that date's filter. */
  lemma {:induction false} GatherEntry(seen: seq<Transaction>, d: string)
    ensures d in Gather(seen).entries ==> Gather(seen).entries[d] == Filter(seen, d) && Gather(seen).entries[d] != []
    ensures d !in Gather(seen).entries ==> Filter(seen, d) == []
  {
    if seen != [] {
      GatherEntry(seen[..|seen| - 1], d);
    }
  }

  /** The fold's keys are distinct and are exactly its entries' dates. */
  lemma {:induction false} GatherKeyOrder(seen: seq<Transaction>)
    ensures Distinct(Gather(seen).keys)
    ensures forall d :: d in Gather(seen).keys <==> d in Gather(seen).entries
  {
    if seen != [] {
      var prev, t := Gather(seen[..|seen| - 1]), seen[|seen| - 1];
      GatherKeyOrder(seen[..|seen| - 1]);
      if t.date !in prev.entries {
        DistinctSnoc(prev.keys, t.date);
      }
    }
  }

  /** The dictionary of the page, built in one pass over the transactions. */
  method GatherByDate(txs: seq<Transaction>) returns (byDate: map<string, seq<Transaction>>, keys: seq<string>)
    ensures Dictionary(byDate, keys) == Gather(txs)
  {
    byDate, keys := map[], [];
    var k := 0;
    while k < |txs|
      invariant 0 <= k <= |txs|
      invariant Dictionary(byDate, keys) == Gather(txs[..k])
    {
      var t := txs[k];
      assert txs[..k + 1][..k] == txs[..k];
      if t.date !in byDate {
        byDate := byDate[t.date := []];
        keys := keys + [t.date];
      }
      byDate := byDate[t.date := byDate[t.date] + [t]];
      k := k + 1;
    }
    assert txs[..k] == txs;
  }

  lemma DistinctSnoc(keys: seq<string>, x: string)
    requires Distinct(keys) && x !in keys
    ensures Distinct(keys + [x])
  {
  }

  /** One heading per date of `dates`, in that order, each with its transactions. */
  method ListGroups(dates: seq<string>, byDate: map<string, seq<Transaction>>) returns (groups: seq<DateGroup>)
    requires forall d :: d in dates ==> d in byDate
    ensures Dates(groups) == dates
    ensures forall j :: 0 <= j < |groups| ==> groups[j].items == byDate[groups[j].date]
  {
    groups := [];
    var i := 0;
    while i < |dates|
      invariant 0 <= i <= |dates|
      invariant Dates(groups) == dates[..i]
      invariant forall j :: 0 <= j < i ==> groups[j].items == byDate[groups[j].date]
    {
      var g := DateGroup(dates[i], byDate[dates[i]]);
      DatesAppend(groups, g);
      assert dates[..i + 1] == dates[..i] + [dates[i]];
      groups := groups + [g];
      i := i + 1;
    }
    assert dates[..i] == dates;
  }

  lemma DatesAppend(groups: seq<DateGroup>, g: DateGroup)
    ensures Dates(groups + [g]) == Dates(groups) + [g.date]
  {
  }

  // ---------------------------------------------------------------------------
  // Properties of the grouping

  /** Where the `i`-th transaction sits among those of its date: the count of
      same-date transactions before it. */
  function Rank(txs: seq<Transaction>, date: string, i: nat): (r: nat)
    requires i <= |txs|
    ensures r <= i
  {
    |Filter(txs[..i], date)|
  }

  lemma FilterIndex(txs: seq<Transaction>, date: string, i: nat)
    requires i < |txs| && txs[i].date == date
    ensures Rank(txs, date, i) < |Filter(txs, date)|
    ensures Filter(txs, date)[Rank(txs, date, i)] == txs[i]
  {
    var a, b := txs[..i], txs[i + 1..];
    assert txs == a + [txs[i]] + b;
    FilterAppend(a + [txs[i]], b, date);
    FilterAppend(a, [txs[i]], date);
    assert Filter([txs[i]], date) == [txs[i]] by {
      assert [txs[i]][..0] == [];
    }
  }

  /** A later transaction of the same date has a larger rank. */
  lemma RankIncreases(txs: seq<Transaction>, date: string, i: nat, j: nat)
    requires i < j <= |txs| && txs[i].date == date
    ensures Rank(txs, date, i) < Rank(txs, date, j)
  {
    var front := txs[..j];
    assert front == txs[..i] + [txs[i]] + front[i + 1..];
    FilterAppend(txs[..i] + [txs[i]], front[i + 1..], date);
    FilterSnoc(txs[..i], txs[i], date);
  }

  /** Two transactions of one date keep their relative order under that date. */
  lemma GroupKeepsOrder(txs: seq<Transaction>, groups: seq<DateGroup>, g: nat, i: nat, j: nat)
    requires IsDateGrouping(txs, groups)
    requires g < |groups| && i < j < |txs|
    requires txs[i].date == groups[g].date && txs[j].date == groups[g].date
    ensures Rank(txs, groups[g].date, i) < Rank(txs, groups[g].date, j) < |groups[g].items|
    ensures groups[g].items[Rank(txs, groups[g].date, i)] == txs[i]
    ensures groups[g].items[Rank(txs, groups[g].date, j)] == txs[j]
  {
    var date := groups[g].date;
    FilterIndex(txs, date, i);
    FilterIndex(txs, date, j);
    RankIncreases(txs, date, i, j);
  }

  /** No date heading appears twice. */
  lemma DatesAreDistinct(txs: seq<Transaction>, groups: seq<DateGroup>)
    requires IsDateGrouping(txs, groups)
    ensures forall i, j :: 0 <= i < j < |groups| ==> groups[i].date != groups[j].date
  {
    forall i, j | 0 <= i < j < |groups|
      ensures groups[i].date != groups[j].date
    {
      assert Below(Dates(groups)[j], Dates(groups)[i]);
      BelowIrreflexive(groups[i].date);
    }
  }

  lemma {:induction false} FilterMembers(txs: seq<Transaction>, date: string, t: Transaction)
    requires t in Filter(txs, date)
    ensures t.date == date && t in txs
  {
    var init := txs[..|txs| - 1];
    if t in Filter(init, date) {
      FilterMembers(init, date, t);
      assert t in txs by {
        var j :| 0 <= j < |init| && init[j] == t;
        assert txs[j] == t;
      }
    }
  }

  /** Every transaction is listed under exactly one heading, the one of its date. */
  lemma EachInExactlyOneGroup(txs: seq<Transaction>, groups: seq<DateGroup>, k: nat)
    requires IsDateGrouping(txs, groups) && k < |txs|
    ensures exists g :: 0 <= g < |groups| && groups[g].date == txs[k].date && txs[k] in groups[g].items
    ensures forall g, h ::
      (0 <= g < |groups| && 0 <= h < |groups| && txs[k] in groups[g].items && txs[k] in groups[h].items) ==> g == h
  {
    var t := txs[k];
    var dates := Dates(groups);
    assert t.date in dates;
    var g :| 0 <= g < |dates| && dates[g] == t.date;
    FilterIndex(txs, t.date, k);
    assert t in groups[g].items;
    DatesAreDistinct(txs, groups);
    forall g, h | 0 <= g < |groups| && 0 <= h < |groups| && t in groups[g].items && t in groups[h].items
      ensures g == h
    {
      FilterMembers(txs, groups[g].date, t);
      FilterMembers(txs, groups[h].date, t);
    }
  }

  function Flatten(groups: seq<DateGroup>): seq<Transaction> {
    if groups == [] then [] else groups[0].items + Flatten(groups[1..])
  }

  /** The filters of `txs` for each date of `ks`, one after the other. */
  function FilterAll(txs: seq<Transaction>, ks: seq<string>): seq<Transaction> {
    if ks == [] then [] else Filter(txs, ks[0]) + FilterAll(txs, ks[1..])
  }

  lemma {:induction false} FlattenIsFilterAll(txs: seq<Transaction>, groups: seq<DateGroup>)
    requires forall i :: 0 <= i < |groups| ==> groups[i].items == Filter(txs, groups[i].date)
    ensures Flatten(groups) == FilterAll(txs, Dates(groups))
  {
    if groups != [] {
      FlattenIsFilterAll(txs, groups[1..]);
    }
  }

  lemma FilterSnoc(txs: seq<Transaction>, t: Transaction, date: string)
    ensures Filter(txs + [t], date) == Filter(txs, date) + (if t.date == date then [t] else [])
    ensures multiset(Filter(txs + [t], date)) == multiset(Filter(txs, date)) + Once(t, t.date == date)
  {
    assert (txs + [t])[..|txs|] == txs;
  }

  lemma DistinctSplit(ks: seq<string>)
    requires Distinct(ks) && ks != []
    ensures Distinct(ks[1..]) && ks[0] !in ks[1..]
  {
    forall i, j | 0 <= i < j < |ks[1..]|
      ensures ks[1..][i] != ks[1..][j]
    {
      assert ks[1..][i] == ks[i + 1] && ks[1..][j] == ks[j + 1];
    }
  }

  /** Appending one transaction adds it once to the filters of distinct dates
      when its date is among them. */
  lemma {:induction false} FilterAllSnoc(txs: seq<Transaction>, t: Transaction, ks: seq<string>)
    requires Distinct(ks)
    ensures multiset(FilterAll(txs + [t], ks)) == multiset(FilterAll(txs, ks)) + Once(t, t.date in ks)
  {
    if ks != [] {
      var k0, rest := ks[0], ks[1..];
      DistinctSplit(ks);
      FilterAllSnoc(txs, t, rest);
      FilterSnoc(txs, t, k0);
      AddBoth(Filter(txs, k0), Filter(txs + [t], k0), FilterAll(txs, rest), FilterAll(txs + [t], rest),
              Once(t, t.date == k0), Once(t, t.date in rest));
      MemberOfSplit(ks, t.date);
      OnceSplit(t, t.date == k0, t.date in rest);
    }
  }

  lemma AddBoth(a: seq<Transaction>, a2: seq<Transaction>, b: seq<Transaction>, b2: seq<Transaction>,
                x: multiset<Transaction>, y: multiset<Transaction>)
    requires multiset(a2) == multiset(a) + x && multiset(b2) == multiset(b) + y
    ensures multiset(a2 + b2) == multiset(a + b) + (x + y)
  {
  }

  lemma MemberOfSplit(ks: seq<string>, d: string)
    requires ks != []
    ensures d in ks <==> d == ks[0] || d in ks[1..]
  {
    assert ks == [ks[0]] + ks[1..];
  }

  /** `t` once when `present`, otherwise nothing. */
  function Once(t: Transaction, present: bool): multiset<Transaction> {
    if present then multiset{t} else multiset{}
  }

  lemma OnceSplit(t: Transaction, p: bool, q: bool)
    requires !(p && q)
    ensures Once(t, p) + Once(t, q) == Once(t, p || q)
  {
  }

  lemma {:induction false} FilterAllCovers(txs: seq<Transaction>, ks: seq<string>)
    requires Distinct(ks)
    requires forall k :: 0 <= k < |txs| ==> txs[k].date in ks
    ensures multiset(FilterAll(txs, ks)) == multiset(txs)
    decreases |txs|
  {
    if txs == [] {
      assert FilterAll([], ks) == [] by {
        FilterAllEmpty(ks);
      }
    } else {
      var init, t := txs[..|txs| - 1], txs[|txs| - 1];
      assert txs == init + [t];
      FilterAllCovers(init, ks);
      FilterAllSnoc(init, t, ks);
    }
  }

  lemma {:induction false} FilterAllEmpty(ks: seq<string>)
    ensures FilterAll([], ks) == []
  {
    if ks != [] {
      FilterAllEmpty(ks[1..]);
    }
  }

  /** Read top to bottom, the history lists every transaction exactly as often as
      the account holds it. */
  lemma FlattenIsPermutation(txs: seq<Transaction>, groups: seq<DateGroup>)
    requires IsDateGrouping(txs, groups)
    ensures multiset(Flatten(groups)) == multiset(txs)
  {
    FlattenIsFilterAll(txs, groups);
    DatesAreDistinct(txs, groups);
    FilterAllCovers(txs, Dates(groups));
  }

  // ---------------------------------------------------------------------------
  // Date stamps sort by the calendar

  /** `a` falls on an earlier calendar day than `b`. */
  predicate EarlierDay(a: Moment, b: Moment) {
    || a.year < b.year
    || (a.year == b.year && (a.month < b.month || (a.month == b.month && a.day < b.day)))
  }

  predicate SameDay(a: Moment, b: Moment) {
    a.year == b.year && a.month == b.month && a.day == b.day
  }

  /** Comparing two strings whose first parts have one length compares the first
      parts, and the second parts when the first parts are equal. */
  lemma {:induction false} BelowConcat(p: string, q: string, p2: string, q2: string)
    requires |p| == |p2|
    ensures Below(p + q, p2 + q2) <==> Below(p, p2) || (p == p2 && Below(q, q2))
    decreases |p|
  {
    if p == [] {
      assert p + q == q && p2 + q2 == q2;
    } else {
      BelowConcat(p[1..], q, p2[1..], q2);
      assert (p + q)[1..] == p[1..] + q && (p2 + q2)[1..] == p2[1..] + q2;
      assert p == [p[0]] + p[1..] && p2 == [p2[0]] + p2[1..];
    }
  }

  /** On digit strings of one length, the string order is the order of the
      numbers they denote. */
  lemma {:induction false} BelowDigits(s: string, t: string)
    requires |s| == |t| && AllDigits(s) && AllDigits(t)
    ensures Below(s, t) <==> Value(s) < Value(t)
    ensures s == t <==> Value(s) == Value(t)
    decreases |s|
  {
    if s != [] {
      var n := |s| - 1;
      var s1, t1 := s[..n], t[..n];
      assert AllDigits(s1) && AllDigits(t1);
      BelowDigits(s1, t1);
      assert s == s1 + [s[n]] && t == t1 + [t[n]];
      BelowConcat(s1, [s[n]], t1, [t[n]]);
      assert Below([s[n]], [t[n]]) <==> s[n] < t[n];
    }
  }

  /** Where the fields of a ten-character `YYYY.MM.DD` stamp sit, for comparing. */
  lemma BelowStamps(r: string, u: string)
    requires |r| == 10 && |u| == 10 && r[4] == '.' && u[4] == '.' && r[7] == '.' && u[7] == '.'
    ensures Below(r, u) <==>
      || Below(r[..4], u[..4])
      || (r[..4] == u[..4] && (Below(r[5..7], u[5..7]) || (r[5..7] == u[5..7] && Below(r[8..], u[8..]))))
  {
    SplitAt(r, 4);
    SplitAt(u, 4);
    BelowConcat(r[..4], r[4..], u[..4], u[4..]);
    DropOne(r, 4);
    DropOne(u, 4);
    SplitFrom(r, 5, 7);
    SplitFrom(u, 5, 7);
    BelowConcat(r[5..7], r[7..], u[5..7], u[7..]);
    DropOne(r, 7);
    DropOne(u, 7);
  }

  lemma SplitAt(s: string, i: nat)
    requires i <= |s|
    ensures s == s[..i] + s[i..]
  {
  }

  lemma SplitFrom(s: string, i: nat, j: nat)
    requires i <= j <= |s|
    ensures s[i..] == s[i..j] + s[j..]
  {
  }

  lemma DropOne(s: string, i: nat)
    requires i < |s|
    ensures s[i..][1..] == s[i + 1..]
  {
  }

  /** For years of four digits, one date stamp sorts before another exactly when
      its day is earlier, and two stamps are equal exactly on the same day; so
      the history's descending dates run from the newest day to the oldest. */
  lemma DateOrderIsChronological(a: Moment, b: Moment)
    requires 1000 <= a.year <= 9999 && 1000 <= b.year <= 9999
    ensures Below(FormatDate(a), FormatDate(b)) <==> EarlierDay(a, b)
    ensures FormatDate(a) == FormatDate(b) <==> SameDay(a, b)
  {
    DateStampFields(a);
    DateStampFields(b);
    StampOrder(FormatDate(a), FormatDate(b), a, b);
  }

  /** The comparison of two stamps whose fields read back as those of `a` and `b`. */
  lemma StampOrder(r: string, u: string, a: Moment, b: Moment)
    requires |r| == 10 && |u| == 10 && r[4] == '.' && u[4] == '.' && r[7] == '.' && u[7] == '.'
    requires AllDigits(r[..4]) && AllDigits(r[5..7]) && AllDigits(r[8..])
    requires AllDigits(u[..4]) && AllDigits(u[5..7]) && AllDigits(u[8..])
    requires Value(r[..4]) == a.year && Value(r[5..7]) == a.month && Value(r[8..]) == a.day
    requires Value(u[..4]) == b.year && Value(u[5..7]) == b.month && Value(u[8..]) == b.day
    ensures Below(r, u) <==> EarlierDay(a, b)
    ensures r == u <==> SameDay(a, b)
  {
    BelowStamps(r, u);
    StampEquality(r, u);
    BelowDigits(r[..4], u[..4]);
    BelowDigits(r[5..7], u[5..7]);
    BelowDigits(r[8..], u[8..]);
  }

  lemma StampEquality(r: string, u: string)
    requires |r| == 10 && |u| == 10 && r[4] == '.' && u[4] == '.' && r[7] == '.' && u[7] == '.'
    ensures r == u <==> r[..4] == u[..4] && r[5..7] == u[5..7] && r[8..] == u[8..]
  {
    if r[..4] == u[..4] && r[5..7] == u[5..7] && r[8..] == u[8..] {
      forall i | 0 <= i < 10
        ensures r[i] == u[i]
      {
        if i < 4 {
          assert r[i] == r[..4][i];
        } else if 4 < i < 7 {
          assert r[i] == r[5..7][i - 5] && u[i] == u[5..7][i - 5];
        } else if 7 < i {
          assert r[i] == r[8..][i - 8] && u[i] == u[8..][i - 8];
        }
      }
    }
  }

  /** In the history of transactions stamped in four-digit years, a heading
      above another is a later day. */
  lemma HistoryNewestFirst(txs: seq<Transaction>, groups: seq<DateGroup>, i: nat, j: nat, a: Moment, b: Moment)
    requires IsDateGrouping(txs, groups) && i < j < |groups|
    requires 1000 <= a.year <= 9999 && 1000 <= b.year <= 9999
    requires groups[i].date == FormatDate(a) && groups[j].date == FormatDate(b)
    ensures EarlierDay(b, a)
  {
    assert Below(Dates(groups)[j], Dates(groups)[i]);
    DateOrderIsChronological(b, a);
  }
}

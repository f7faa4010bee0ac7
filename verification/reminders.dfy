/** The reminders widget: the fetched tasks sorted by due date with a stable sort, of which
    the first five are shown. */
module Reminders {
  import opened Seqs

  /** A reminder; `dueDate` is the timestamp its due date parses to. */
  datatype Reminder = Reminder(id: int, dueDate: int, title: string)

  /** The number of reminders shown. */
  const ShownCount: nat := 5

  /** Non-decreasing due dates. */
  predicate Sorted(s: seq<Reminder>) {
    forall i, j :: 0 <= i < j < |s| ==> s[i].dueDate <= s[j].dueDate
  }

  /** The filter predicate "due at timestamp `k`". */
  function DueAt(k: int): Reminder -> bool {
    (r: Reminder) => r.dueDate == k
  }

  /** Inserts `x` into a sequence before the first reminder due no earlier than it. */
  function Insert(x: Reminder, s: seq<Reminder>): (r: seq<Reminder>)
    ensures |r| == |s| + 1
    ensures s != [] ==> r[0] == x || r[0] == s[0]
  {
    if s == [] then [x]
    else if x.dueDate <= s[0].dueDate then [x] + s
    else [s[0]] + Insert(x, s[1..])
  }

  /** Inserting into a sorted sequence keeps it sorted. */
  lemma {:induction false} InsertSorted(x: Reminder, s: seq<Reminder>)
    requires Sorted(s)
    ensures Sorted(Insert(x, s))
  {
    if s != [] && x.dueDate > s[0].dueDate {
      var rest := Insert(x, s[1..]);
      InsertSorted(x, s[1..]);
      assert s[0].dueDate <= rest[0].dueDate;
      var r := [s[0]] + rest;
      assert Insert(x, s) == r;
      forall i, j | 0 <= i < j < |r|
        ensures r[i].dueDate <= r[j].dueDate
      {
        if i > 0 {
          assert r[i] == rest[i - 1] && r[j] == rest[j - 1];
        } else {
          assert rest[0].dueDate <= rest[j - 1].dueDate;
        }
      }
    }
  }

  /** Inserting adds exactly `x` to the multiset of reminders. */
  lemma {:induction false} InsertPermutes(x: Reminder, s: seq<Reminder>)
    ensures multiset(Insert(x, s)) == multiset(s) + multiset{x}
  {
    if s != [] && x.dueDate > s[0].dueDate {
      InsertPermutes(x, s[1..]);
      assert s == [s[0]] + s[1..];
    }
  }

  /** The stable sort by due date (`tasks.sort((a, b) => a.due - b.due)`): insertion sort,
      each reminder inserted in front of the ones after it that are due at the same time. */
  function SortByDueDate(s: seq<Reminder>): (r: seq<Reminder>)
    ensures Sorted(r)
    ensures multiset(r) == multiset(s)
    ensures |r| == |s|
  {
    if s == [] then []
    else
      var rest := SortByDueDate(s[1..]);
      InsertSorted(s[0], rest);
      InsertPermutes(s[0], rest);
      assert s == [s[0]] + s[1..];
      Insert(s[0], rest)
  }

  function Min(a: nat, b: nat): nat {
    if a <= b then a else b
  }

  /** `sortedTasks`: the sorted list cut to its first five. The result is sorted, drawn from
      the input, as long as the input allows up to five, and no reminder left out is due
      before one that is shown. Among reminders due at the same time, the ones shown are the
      first of them in input order, as the stable sort puts them. */
  function ShownReminders(tasks: seq<Reminder>): (r: seq<Reminder>)
    ensures |r| == Min(ShownCount, |tasks|)
    ensures Sorted(r)
    ensures multiset(r) <= multiset(tasks)
    ensures forall x, y :: x in r && y in multiset(tasks) - multiset(r) ==> x.dueDate <= y.dueDate
    ensures forall k :: Filter(r, DueAt(k)) <= Filter(tasks, DueAt(k))  // a prefix
  {
    var sorted := SortByDueDate(tasks);
    var n := Min(ShownCount, |tasks|);
    SplitMultiset(sorted, n);
    PrefixEarliest(sorted, n);
    PrefixKeepsTieOrder(tasks, n);
    sorted[..n]
  }

  /** Any prefix of the sorted list holds, for each timestamp, an initial run of the
      reminders due then, in input order. */
  lemma PrefixKeepsTieOrder(tasks: seq<Reminder>, n: nat)
    requires n <= |tasks|
    ensures var sorted := SortByDueDate(tasks);
            forall k :: Filter(sorted[..n], DueAt(k)) <= Filter(tasks, DueAt(k))
  {
    var sorted := SortByDueDate(tasks);
    forall k
      ensures Filter(sorted[..n], DueAt(k)) <= Filter(tasks, DueAt(k))
    {
      assert sorted == sorted[..n] + sorted[n..];
      FilterConcat(sorted[..n], sorted[n..], DueAt(k));
      SortStable(tasks, k);
    }
  }

  /** Cutting a sequence in two splits its multiset. */
  lemma SplitMultiset(s: seq<Reminder>, n: nat)
    requires n <= |s|
    ensures multiset(s[..n]) <= multiset(s)
    ensures multiset(s) - multiset(s[..n]) == multiset(s[n..])
  {
    assert s == s[..n] + s[n..];
  }

  /** In a sorted sequence, everything before a cut is due no later than everything after it. */
  lemma PrefixEarliest(s: seq<Reminder>, n: nat)
    requires Sorted(s) && n <= |s|
    ensures forall x, y :: x in s[..n] && y in multiset(s[n..]) ==> x.dueDate <= y.dueDate
  {
    forall x, y | x in s[..n] && y in multiset(s[n..])
      ensures x.dueDate <= y.dueDate
    {
      var i :| 0 <= i < n && s[..n][i] == x;
      assert y in s[n..];
      var j :| 0 <= j < |s| - n && s[n..][j] == y;
      assert s[i] == x && s[n + j] == y;
    }
  }

  // ---------------------------------------------------------------------------
  // Lemmas
  // ---------------------------------------------------------------------------

  /** Inserting keeps, for every timestamp, the reminders due then in the same order, with
      `x` first among them. */
  lemma {:induction false} InsertStable(x: Reminder, s: seq<Reminder>, k: int)
    requires Sorted(s)
    ensures Filter(Insert(x, s), DueAt(k)) == (if x.dueDate == k then [x] else []) + Filter(s, DueAt(k))
  {
    if s == [] {
      assert Insert(x, s) == [x] + [];
      FilterConcat([x], [], DueAt(k));
    } else if x.dueDate <= s[0].dueDate {
      assert Insert(x, s) == [x] + s;
      FilterConcat([x], s, DueAt(k));
    } else {
      var rest := Insert(x, s[1..]);
      var first := Filter([s[0]], DueAt(k));
      var later := Filter(s[1..], DueAt(k));
      InsertStable(x, s[1..], k);
      assert Insert(x, s) == [s[0]] + rest;
      FilterConcat([s[0]], rest, DueAt(k));
      FilterConcat([s[0]], s[1..], DueAt(k));
      assert s == [s[0]] + s[1..];
      assert Filter(s, DueAt(k)) == first + later;
      if x.dueDate == k {
        // `s[0]` is due strictly before `x`, so it is not due at `k`.
        assert first == [];
        assert Filter(Insert(x, s), DueAt(k)) == [x] + later;
      } else {
        assert Filter(Insert(x, s), DueAt(k)) == first + later;
      }
    }
  }

  /** The sort is stable: the reminders due at any one timestamp keep their input order. */
  lemma {:induction false} SortStable(s: seq<Reminder>, k: int)
    ensures Filter(SortByDueDate(s), DueAt(k)) == Filter(s, DueAt(k))
  {
    if s != [] {
      SortStable(s[1..], k);
      InsertStable(s[0], SortByDueDate(s[1..]), k);
    }
  }

  /** A list that is already sorted is left as it is. */
  lemma {:induction false} SortSortedIdentity(s: seq<Reminder>)
    requires Sorted(s)
    ensures SortByDueDate(s) == s
  {
    if s != [] {
      SortSortedIdentity(s[1..]);
      assert SortByDueDate(s[1..]) == s[1..];
      if |s| > 1 {
        assert s[0].dueDate <= s[1].dueDate;
      }
      assert s == [s[0]] + s[1..];
    }
  }

  /** At most five reminders: all of them are shown, in due-date order. */
  lemma FewRemindersAllShown(tasks: seq<Reminder>)
    requires |tasks| <= ShownCount
    ensures multiset(ShownReminders(tasks)) == multiset(tasks)
  {
    var sorted := SortByDueDate(tasks);
    assert sorted[..|tasks|] == sorted;
  }
}

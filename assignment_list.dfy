// src/pages/Assignments/AssignmentList.tsx: the status and relationship
// filters read from the URL, the in-place sort by due date, the move of
// returned-and-overdue assignments to the end, and the page slice.

module AssignmentList {
  import opened Seqs
  import opened Domain
  import AssetList

  const StatusChoices: seq<string> := ["Checked Out", "Returned"]
  const RelationshipChoices: seq<string> := ["Assigner", "Requester"]

  /** The Select's initial status: the URL's value if it is a choice, else ''. */
  function InitialStatusFilter(params: map<string, string>): (f: string)
    ensures f == "" || f in StatusChoices
    ensures AssetList.Param(params, "status") in StatusChoices ==> f == params["status"]
    ensures AssetList.Param(params, "status") !in StatusChoices ==> f == ""
  {
    var status := AssetList.Param(params, "status");
    if status in StatusChoices then status else ""
  }

  /** The Select's initial relationship, checked the same way. The filter
      itself reads the raw URL value (see RelationshipFiltered). */
  function InitialRelationshipFilter(params: map<string, string>): (f: string)
    ensures f == "" || f in RelationshipChoices
    ensures AssetList.Param(params, "relationship") in RelationshipChoices ==> f == params["relationship"]
    ensures AssetList.Param(params, "relationship") !in RelationshipChoices ==> f == ""
  {
    var relationship := AssetList.Param(params, "relationship");
    if relationship in RelationshipChoices then relationship else ""
  }

  /** The status filter: 'Checked Out' keeps the unreturned, any other
      non-empty value the returned, '' everything. */
  function StatusFiltered(s: seq<Assignment>, statusFilter: string): (r: seq<Assignment>)
    ensures statusFilter == "" ==> r == s
    ensures forall i :: 0 <= i < |r| ==> r[i] in s
    ensures statusFilter == "Checked Out" ==>
      forall x :: x in r <==> x in s && x.returnedAt.None?
    ensures statusFilter != "" && statusFilter != "Checked Out" ==>
      forall x :: x in r <==> x in s && x.returnedAt.Some?
  {
    if statusFilter == "" then s
    else if statusFilter == "Checked Out" then Filter(s, (x: Assignment) => x.returnedAt.None?)
    else Filter(s, (x: Assignment) => x.returnedAt.Some?)
  }

  /** The relationship filter, applied to the raw `relationship` URL value:
      'Assigner' keeps what the user assigned, any other non-empty value what
      was assigned to the user. */
  function RelationshipFiltered(s: seq<Assignment>, relationship: string, me: int): (r: seq<Assignment>)
    ensures relationship == "" ==> r == s
    ensures forall i :: 0 <= i < |r| ==> r[i] in s
    ensures relationship == "Assigner" ==>
      forall x :: x in r <==> x in s && x.assignedById == me
    ensures relationship != "" && relationship != "Assigner" ==>
      forall x :: x in r <==> x in s && x.userId == me
  {
    if relationship == "" then s
    else if relationship == "Assigner" then Filter(s, (x: Assignment) => x.assignedById == me)
    else Filter(s, (x: Assignment) => x.userId == me)
  }

  /** Both filters; the effect applies neither when both are empty. */
  function Filtered(s: seq<Assignment>, statusFilter: string, relationship: string, me: int): seq<Assignment>
  {
    RelationshipFiltered(StatusFiltered(s, statusFilter), relationship, me)
  }

  /** An assignment passes both filters exactly when it passes each. */
  lemma FilteredMembership(s: seq<Assignment>, statusFilter: string, relationship: string, me: int, x: Assignment)
    ensures x in Filtered(s, statusFilter, relationship, me) <==>
      x in s
      && (statusFilter == "Checked Out" ==> x.returnedAt.None?)
      && (statusFilter != "" && statusFilter != "Checked Out" ==> x.returnedAt.Some?)
      && (relationship == "Assigner" ==> x.assignedById == me)
      && (relationship != "" && relationship != "Assigner" ==> x.userId == me)
  {
  }

  /** Ascending by due date, as the sort's comparator orders them. */
  predicate SortedByDue(s: seq<Assignment>)
  {
    forall i, j :: 0 <= i < j < |s| ==> s[i].dueDate <= s[j].dueDate
  }

  /** `results.sort((a, b) => due(a) - due(b))`, which sorts the array in
      place. */
  method SortByDue(a: array<Assignment>)
    modifies a
    ensures SortedByDue(a[..])
    ensures multiset(a[..]) == multiset(old(a[..]))
  {
    var i := 0;
    while i < a.Length
      invariant 0 <= i <= a.Length
      invariant SortedByDue(a[..i])
      invariant multiset(a[..]) == multiset(old(a[..]))
    {
      InsertIntoSorted(a, i);
      i := i + 1;
    }
  }

  /** One insertion step: a[i] moves left past every later-due element of the
      sorted prefix a[..i]. */
  method InsertIntoSorted(a: array<Assignment>, i: nat)
    requires i < a.Length
    requires SortedByDue(a[..i])
    modifies a
    ensures SortedByDue(a[..i + 1])
    ensures multiset(a[..]) == multiset(old(a[..]))
  {
    var j := i;
    InsertingStart(a[..], i);
    while j > 0 && a[j - 1].dueDate > a[j].dueDate
      invariant 0 <= j <= i < a.Length
      invariant Inserting(a[..], i, j)
      invariant multiset(a[..]) == multiset(old(a[..]))
    {
      ghost var s := a[..];
      InsertingSwap(s, i, j);
      SwapPermutes(s, j);
      a[j - 1], a[j] := a[j], a[j - 1];
      assert a[..] == s[j - 1 := s[j]][j := s[j - 1]];
      j := j - 1;
    }
    InsertingDone(a[..], i, j);
  }

  /** The insertion loop's state: a[..i + 1] is sorted except at j, and the
      element at j is due no later than anything after it. */
  predicate Inserting(s: seq<Assignment>, i: nat, j: nat)
    requires j <= i < |s|
  {
    && (forall k, l :: 0 <= k < l <= i && k != j && l != j ==> s[k].dueDate <= s[l].dueDate)
    && (forall l :: j < l <= i ==> s[j].dueDate <= s[l].dueDate)
  }

  lemma InsertingStart(s: seq<Assignment>, i: nat)
    requires i < |s| && SortedByDue(s[..i])
    ensures Inserting(s, i, i)
  {
    forall k, l | 0 <= k < l <= i && k != i && l != i
      ensures s[k].dueDate <= s[l].dueDate
    {
      assert s[k] == s[..i][k] && s[l] == s[..i][l];
    }
  }

  lemma InsertingSwap(s: seq<Assignment>, i: nat, j: nat)
    requires 0 < j <= i < |s| && Inserting(s, i, j)
    requires s[j - 1].dueDate > s[j].dueDate
    ensures Inserting(s[j - 1 := s[j]][j := s[j - 1]], i, j - 1)
  {
  }

  lemma SwapPermutes(s: seq<Assignment>, j: nat)
    requires 0 < j < |s|
    ensures multiset(s[j - 1 := s[j]][j := s[j - 1]]) == multiset(s)
  {
  }

  lemma InsertingDone(s: seq<Assignment>, i: nat, j: nat)
    requires j <= i < |s| && Inserting(s, i, j)
    requires j == 0 || s[j - 1].dueDate <= s[j].dueDate
    ensures SortedByDue(s[..i + 1])
  {
    forall k, l | 0 <= k < l <= i
      ensures s[k].dueDate <= s[l].dueDate
    {
      if l == j && k < j - 1 {
        assert s[k].dueDate <= s[j - 1].dueDate;
      }
    }
  }

  /** Returned, and due before now: these go to the end. */
  predicate ReturnedOverdue(x: Assignment, now: int)
  {
    x.returnedAt.Some? && x.dueDate < now
  }

  /** `results.filter((a) => !overdue(a)).concat(results.filter(overdue))`. */
  function OverdueLast(s: seq<Assignment>, now: int): (r: seq<Assignment>)
    ensures multiset(r) == multiset(s)
    ensures forall i, j :: 0 <= i < j < |r| && ReturnedOverdue(r[i], now) ==> ReturnedOverdue(r[j], now)
  {
    FilterSplitPermutes(s, (x: Assignment) => ReturnedOverdue(x, now), (x: Assignment) => !ReturnedOverdue(x, now));
    Filter(s, (x: Assignment) => !ReturnedOverdue(x, now)) + Filter(s, (x: Assignment) => ReturnedOverdue(x, now))
  }

  /** A filter keeps a lower bound on the due dates. */
  lemma {:induction false} FilterKeepsDueBound(s: seq<Assignment>, p: Assignment -> bool, due: int)
    requires forall i :: 0 <= i < |s| ==> due <= s[i].dueDate
    ensures forall k :: 0 <= k < |Filter(s, p)| ==> due <= Filter(s, p)[k].dueDate
    decreases |s|
  {
    if s != [] {
      FilterKeepsDueBound(s[1..], p, due);
    }
  }

  /** A filter of a sorted list is sorted. */
  lemma {:induction false} FilterKeepsSorted(s: seq<Assignment>, p: Assignment -> bool)
    requires SortedByDue(s)
    ensures SortedByDue(Filter(s, p))
    decreases |s|
  {
    if s != [] {
      var rest := Filter(s[1..], p);
      FilterKeepsSorted(s[1..], p);
      FilterKeepsDueBound(s[1..], p, s[0].dueDate);
      if p(s[0]) {
        assert Filter(s, p) == [s[0]] + rest;
        SortedCons(s[0], rest);
      } else {
        assert Filter(s, p) == rest;
      }
    }
  }

  lemma SortedCons(x: Assignment, r: seq<Assignment>)
    requires SortedByDue(r)
    requires forall k :: 0 <= k < |r| ==> x.dueDate <= r[k].dueDate
    ensures SortedByDue([x] + r)
  {
    var xr := [x] + r;
    forall i, j | 0 <= i < j < |xr|
      ensures xr[i].dueDate <= xr[j].dueDate
    {
      assert xr[j] == r[j - 1];
      if i > 0 {
        assert xr[i] == r[i - 1];
      }
    }
  }

  /** Each part of a sorted list keeps ascending due-date order. */
  lemma OverdueLastKeepsOrder(s: seq<Assignment>, now: int)
    requires SortedByDue(s)
    ensures var r := OverdueLast(s, now);
      forall i, j :: 0 <= i < j < |r| && ReturnedOverdue(r[i], now) == ReturnedOverdue(r[j], now)
        ==> r[i].dueDate <= r[j].dueDate
  {
    var front := Filter(s, (x: Assignment) => !ReturnedOverdue(x, now));
    var back := Filter(s, (x: Assignment) => ReturnedOverdue(x, now));
    FilterKeepsSorted(s, (x: Assignment) => !ReturnedOverdue(x, now));
    FilterKeepsSorted(s, (x: Assignment) => ReturnedOverdue(x, now));
    var r := OverdueLast(s, now);
    assert r == front + back;
    forall i, j | 0 <= i < j < |r| && ReturnedOverdue(r[i], now) == ReturnedOverdue(r[j], now)
      ensures r[i].dueDate <= r[j].dueDate
    {
      if j < |front| {
        assert r[i] == front[i] && r[j] == front[j];
      } else if i >= |front| {
        assert r[i] == back[i - |front|] && r[j] == back[j - |front|];
      }
    }
  }

  /** The list the page shows, as the ordering promises it: a permutation of
      the filtered assignments, returned-and-overdue ones last, each part
      by due date. */
  predicate Arranged(r: seq<Assignment>, filtered: seq<Assignment>, now: int)
  {
    && multiset(r) == multiset(filtered)
    && (forall i, j :: 0 <= i < j < |r| && ReturnedOverdue(r[i], now) ==> ReturnedOverdue(r[j], now))
    && (forall i, j :: 0 <= i < j < |r| && ReturnedOverdue(r[i], now) == ReturnedOverdue(r[j], now)
          ==> r[i].dueDate <= r[j].dueDate)
  }

  /** The effect that sets filteredAssignments. Without either filter the
      fetched array itself is sorted, in place; a filter produces a fresh
      array, and the fetched one is left alone. */
  method Arrange(assignments: array<Assignment>, statusFilter: string, relationship: string, me: int, now: int)
    returns (results: seq<Assignment>)
    modifies assignments
    ensures Arranged(results, Filtered(old(assignments[..]), statusFilter, relationship, me), now)
    ensures statusFilter == "" && relationship == "" ==>
      SortedByDue(assignments[..]) && multiset(assignments[..]) == multiset(old(assignments[..]))
    ensures statusFilter != "" || relationship != "" ==> assignments[..] == old(assignments[..])
  {
    var sorted: seq<Assignment>;
    if statusFilter == "" && relationship == "" {
      SortByDue(assignments);
      sorted := assignments[..];
    } else {
      var filtered := Filtered(assignments[..], statusFilter, relationship, me);
      var copy := new Assignment[|filtered|](k requires 0 <= k < |filtered| => filtered[k]);
      assert copy[..] == filtered;
      SortByDue(copy);
      sorted := copy[..];
    }
    OverdueLastKeepsOrder(sorted, now);
    results := OverdueLast(sorted, now);
  }

  /** What the page renders: an error alert, or the count and this page's rows. */
  datatype ListView = LoadError | Rows(count: nat, rows: seq<Assignment>)

  function AssignmentListView(error: bool, filtered: seq<Assignment>, page: nat): (v: ListView)
    ensures v.LoadError? <==> error
    ensures v.Rows? ==> v.count == |filtered| && |v.rows| <= PageSize
    ensures v.Rows? ==> forall k :: 0 <= k < |v.rows| ==>
      page * PageSize + k < |filtered| && v.rows[k] == filtered[page * PageSize + k]
  {
    if error then LoadError else Rows(|filtered|, Page(filtered, page))
  }
}

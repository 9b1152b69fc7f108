/** The approval rule: which expenses it governs (`appliesToExpense`) and
    who approves next in a sequential flow (`getNextApprover`). Resolving the
    next approver sorts the rule's approver list by `order` in place (a
    stable sort, as JavaScript's `Array.prototype.sort` is), then searches
    the sorted list for the approver who has just acted. */
module ApprovalRules {
  import opened Common
  import opened JsString
  import opened ExpenseSchema
  import opened Validation

  datatype FlowType = Sequential | Parallel | Percentage

  /** One entry of `approvalFlow.approvers`. */
  datatype Approver = Approver(user: UserId, order: int, isRequired: bool)

  /** `conditions`: the amount floor, the category tags (empty means every
      category) and the departments (stored, never consulted). */
  datatype Conditions = Conditions(amountThreshold: real, categories: seq<Category>, departments: seq<string>)

  /** `escalationRules` (stored, never acted on). */
  datatype Escalation = Escalation(autoEscalateAfter: real, escalationApprovers: seq<UserId>)

  // ---------------------------------------------------------------------
  // The stable sort by `order` that `Array.prototype.sort` performs with
  // the comparator `(a, b) => a.order - b.order`.
  // ---------------------------------------------------------------------

  ghost predicate SortedByOrder(s: seq<Approver>) {
    forall i, j :: 0 <= i < j < |s| ==> s[i].order <= s[j].order
  }

  /** Places `x` after every entry whose order is at most `x.order`. */
  function Insert(sorted: seq<Approver>, x: Approver): (r: seq<Approver>)
    ensures |r| == |sorted| + 1
  {
    if sorted == [] then [x]
    else if sorted[|sorted| - 1].order <= x.order then sorted + [x]
    else Insert(sorted[..|sorted| - 1], x) + [sorted[|sorted| - 1]]
  }

  /** The approvers in ascending `order`, equal orders kept in list order. */
  function SortByOrder(s: seq<Approver>): (r: seq<Approver>)
    ensures |r| == |s|
  {
    if s == [] then [] else Insert(SortByOrder(s[..|s| - 1]), s[|s| - 1])
  }

  /** The entries of `s` whose order is `k`, in list order. */
  function WithOrder(s: seq<Approver>, k: int): seq<Approver> {
    if s == [] then []
    else (if s[0].order == k then [s[0]] else []) + WithOrder(s[1..], k)
  }

  lemma {:induction false} InsertPermutes(t: seq<Approver>, x: Approver)
    ensures multiset(Insert(t, x)) == multiset(t) + multiset{x}
  {
    if t != [] && t[|t| - 1].order > x.order {
      var t', l := t[..|t| - 1], t[|t| - 1];
      InsertPermutes(t', x);
      assert t == t' + [l];
    }
  }

  /** Sorting rearranges the approvers and neither adds nor drops one. */
  lemma {:induction false} SortByOrderPermutes(s: seq<Approver>)
    ensures multiset(SortByOrder(s)) == multiset(s)
  {
    if s != [] {
      var init, last := s[..|s| - 1], s[|s| - 1];
      SortByOrderPermutes(init);
      InsertPermutes(SortByOrder(init), last);
      assert s == init + [last];
    }
  }

  /** Inserting under a bound keeps every order under it. */
  lemma {:induction false} InsertBounded(t: seq<Approver>, x: Approver, m: int)
    requires forall i :: 0 <= i < |t| ==> t[i].order <= m
    requires x.order <= m
    ensures forall i :: 0 <= i < |t| + 1 ==> Insert(t, x)[i].order <= m
  {
    if t != [] && t[|t| - 1].order > x.order {
      InsertBounded(t[..|t| - 1], x, m);
    }
  }

  lemma {:induction false} InsertSorted(t: seq<Approver>, x: Approver)
    requires SortedByOrder(t)
    ensures SortedByOrder(Insert(t, x))
  {
    if t != [] && t[|t| - 1].order > x.order {
      var t', l := t[..|t| - 1], t[|t| - 1];
      InsertSorted(t', x);
      InsertBounded(t', x, l.order);
      var u := Insert(t', x);
      assert Insert(t, x) == u + [l];
    }
  }

  /** Sorting leaves the approvers in ascending `order`. */
  lemma {:induction false} SortByOrderSorted(s: seq<Approver>)
    ensures SortedByOrder(SortByOrder(s))
  {
    if s != [] {
      SortByOrderSorted(s[..|s| - 1]);
      InsertSorted(SortByOrder(s[..|s| - 1]), s[|s| - 1]);
    }
  }

  /** A list that is already in order is left as it is: sorting is
      idempotent, so re-sorting a rule on every resolution is harmless. */
  lemma {:induction false} SortByOrderOfSorted(s: seq<Approver>)
    requires SortedByOrder(s)
    ensures SortByOrder(s) == s
  {
    if s != [] {
      var init := s[..|s| - 1];
      assert SortedByOrder(init);
      SortByOrderOfSorted(init);
      assert s == init + [s[|s| - 1]];
    }
  }

  lemma {:induction false} WithOrderAppend(a: seq<Approver>, b: seq<Approver>, k: int)
    ensures WithOrder(a + b, k) == WithOrder(a, k) + WithOrder(b, k)
  {
    if a != [] {
      assert (a + b)[0] == a[0] && (a + b)[1..] == a[1..] + b;
      WithOrderAppend(a[1..], b, k);
    } else {
      assert a + b == b;
    }
  }

  lemma {:induction false} InsertWithOrder(t: seq<Approver>, x: Approver, k: int)
    ensures WithOrder(Insert(t, x), k) == WithOrder(t, k) + WithOrder([x], k)
  {
    if t == [] {
    } else if t[|t| - 1].order <= x.order {
      WithOrderAppend(t, [x], k);
    } else {
      var t', l := t[..|t| - 1], t[|t| - 1];
      InsertWithOrder(t', x, k);
      WithOrderAppend(Insert(t', x), [l], k);
      WithOrderAppend(t', [l], k);
      assert t == t' + [l];
    }
  }

  /** The sort is stable: for every order value, the approvers holding it
      keep their relative positions. */
  lemma {:induction false} SortByOrderStable(s: seq<Approver>, k: int)
    ensures WithOrder(SortByOrder(s), k) == WithOrder(s, k)
  {
    if s != [] {
      var init, last := s[..|s| - 1], s[|s| - 1];
      SortByOrderStable(init, k);
      InsertWithOrder(SortByOrder(init), last, k);
      WithOrderAppend(init, [last], k);
      assert s == init + [last];
    }
  }

  lemma {:induction false} WithOrderHead(s: seq<Approver>, k: int, i: nat)
    requires i < |s| && s[i].order == k
    requires forall j :: 0 <= j < i ==> s[j].order != k
    ensures WithOrder(s, k) != [] && WithOrder(s, k)[0] == s[i]
  {
    if i > 0 {
      WithOrderHead(s[1..], k, i - 1);
    }
  }

  // ---------------------------------------------------------------------
  // Finding the approver who has just acted, and the resolution itself.
  // ---------------------------------------------------------------------

  /** `findIndex(a => a.user === u)`: the first position holding `u`, or -1. */
  function IndexOfUser(s: seq<Approver>, u: UserId): (r: int)
    ensures -1 <= r < |s|
    ensures r == -1 <==> forall i :: 0 <= i < |s| ==> s[i].user != u
    ensures r >= 0 ==> s[r].user == u && forall i :: 0 <= i < r ==> s[i].user != u
  {
    if s == [] then -1
    else if s[0].user == u then 0
    else
      var r := IndexOfUser(s[1..], u);
      if r == -1 then -1 else r + 1
  }

  /** The approver after `current` in an already sorted list; the first one
      when nobody has acted yet. */
  function NextInSorted(sorted: seq<Approver>, current: Option<UserId>): Option<UserId> {
    match current
    case None => if |sorted| > 0 then Some(sorted[0].user) else None
    case Some(u) =>
      var i := IndexOfUser(sorted, u);
      if i != -1 && i < |sorted| - 1 then Some(sorted[i + 1].user) else None
  }

  /** What `getNextApprover(current)` returns for a rule with flow type
      `flow` whose approver list is `approvers`. */
  function NextApprover(flow: FlowType, approvers: seq<Approver>, current: Option<UserId>): Option<UserId> {
    if flow == Sequential then NextInSorted(SortByOrder(approvers), current) else None
  }

  /** Only a sequential flow ever names an approver. */
  lemma NonSequentialHasNoApprover(flow: FlowType, approvers: seq<Approver>, current: Option<UserId>)
    requires flow != Sequential
    ensures NextApprover(flow, approvers, current) == None
  {
  }

  /** An empty approver list yields nobody. */
  lemma EmptyFlowHasNoApprover(flow: FlowType, current: Option<UserId>)
    ensures NextApprover(flow, [], current) == None
  {
  }

  /** For a fresh submission the first approver is the one with the least
      `order`, the earliest in the list among equals. */
  lemma {:induction false} FirstApproverHasLeastOrder(s: seq<Approver>) returns (k: nat)
    requires |s| > 0
    ensures k < |s| && NextApprover(Sequential, s, None) == Some(s[k].user)
    ensures forall j :: 0 <= j < |s| ==> s[k].order <= s[j].order
    ensures forall j :: 0 <= j < k ==> s[j].order > s[k].order
  {
    var sorted := SortByOrder(s);
    SortByOrderSorted(s);
    SortByOrderPermutes(s);
    var m := sorted[0].order;
    assert sorted[0] in multiset(s);
    forall j | 0 <= j < |s| ensures m <= s[j].order {
      assert s[j] in multiset(sorted);
      var p :| 0 <= p < |sorted| && sorted[p] == s[j];
    }
    var i :| 0 <= i < |s| && s[i] == sorted[0];
    k := FirstWithOrder(s, m, i);
    WithOrderHead(s, m, k);
    WithOrderHead(sorted, m, 0);
    SortByOrderStable(s, m);
  }

  /** The first position of `s` whose order is `m`, given one at `i`. */
  lemma {:induction false} FirstWithOrder(s: seq<Approver>, m: int, i: nat) returns (k: nat)
    requires i < |s| && s[i].order == m
    ensures k <= i && s[k].order == m
    ensures forall j :: 0 <= j < k ==> s[j].order != m
  {
    if exists j :: 0 <= j < i && s[j].order == m {
      var j :| 0 <= j < i && s[j].order == m;
      k := FirstWithOrder(s, m, j);
    } else {
      k := i;
    }
  }

  /** Re-sorting an already sorted list changes nothing, so the in-place
      sort a resolution leaves behind never alters a later resolution. */
  lemma ResolutionIgnoresEarlierSort(flow: FlowType, s: seq<Approver>, current: Option<UserId>)
    ensures NextApprover(flow, SortByOrder(s), current) == NextApprover(flow, s, current)
  {
    SortByOrderSorted(s);
    SortByOrderOfSorted(SortByOrder(s));
  }

  /** Where `x` lands in a sorted list: after the first `j` entries, when
      entry `j - 1` has an order of at most `x.order` and every later entry
      a greater one. */
  lemma {:induction false} InsertSplit(t: seq<Approver>, x: Approver, j: nat)
    requires j <= |t|
    requires j == 0 || t[j - 1].order <= x.order
    requires forall k :: j <= k < |t| ==> t[k].order > x.order
    ensures Insert(t, x) == t[..j] + [x] + t[j..]
  {
    if j == |t| {
      assert t[..j] == t && t[j..] == [];
    } else {
      var t', l := t[..|t| - 1], t[|t| - 1];
      InsertSplit(t', x, j);
      assert t'[..j] == t[..j];
      assert |t'[j..] + [l]| == |t[j..]|;
      forall k | 0 <= k < |t[j..]| ensures (t'[j..] + [l])[k] == t[j..][k] {
        if k < |t'[j..]| { assert (t'[j..] + [l])[k] == t'[j + k]; }
      }
      assert t'[j..] + [l] == t[j..];
    }
  }

  /** One step of the insertion sort: the entry at `i` moves left past
      every entry before it with a greater order. */
  method InsertAt(a: array<Approver>, i: nat)
    requires i < a.Length
    modifies a
    ensures a[..i + 1] == Insert(old(a[..i]), old(a[i]))
    ensures a[i + 1..] == old(a[i + 1..])
  {
    var x := a[i];
    ghost var t := a[..i];
    ghost var rest := a[i + 1..];
    var j := i;
    while j > 0 && a[j - 1].order > x.order
      invariant 0 <= j <= i
      invariant forall k :: 0 <= k < j ==> a[k] == t[k]
      invariant forall k :: j < k <= i ==> a[k] == t[k - 1]
      invariant a[i + 1..] == rest
      invariant forall k :: j <= k < i ==> t[k].order > x.order
    {
      a[j] := a[j - 1];
      j := j - 1;
    }
    a[j] := x;
    InsertSplit(t, x, j);
    assert a[..i + 1] == t[..j] + [x] + t[j..];
  }

  /** The `sort` of `approvers.sort((a, b) => a.order - b.order)`, done in
      place: a stable insertion sort. */
  method SortApprovers(a: array<Approver>)
    modifies a
    ensures a[..] == SortByOrder(old(a[..]))
  {
    ghost var o := a[..];
    var i := 0;
    while i < a.Length
      invariant 0 <= i <= a.Length
      invariant a[..i] == SortByOrder(o[..i])
      invariant a[i..] == o[i..]
    {
      assert a[i] == o[i];
      InsertAt(a, i);
      assert o[..i + 1][..i] == o[..i];
      i := i + 1;
    }
    assert a[..] == a[..a.Length] && o == o[..a.Length];
  }

  /** `findIndex(a => a.user.toString() === u)` over the array. */
  method FindUser(a: array<Approver>, u: UserId) returns (r: int)
    ensures r == IndexOfUser(a[..], u)
  {
    var i := 0;
    while i < a.Length
      invariant 0 <= i <= a.Length
      invariant forall k :: 0 <= k < i ==> a[k].user != u
    {
      if a[i].user == u {
        return i;
      }
      i := i + 1;
    }
    return -1;
  }

  // ---------------------------------------------------------------------
  // The chain of approvers an expense passes through.
  // ---------------------------------------------------------------------

  /** The users of `s`, position by position. */
  function Users(s: seq<Approver>): (r: seq<UserId>)
    ensures |r| == |s| && forall i :: 0 <= i < |s| ==> r[i] == s[i].user
  {
    seq(|s|, i requires 0 <= i < |s| => s[i].user)
  }

  /** No user is listed as an approver twice. */
  ghost predicate NoRepeatedUser(s: seq<Approver>) {
    forall u :: multiset(Users(s))[u] <= 1
  }

  /** Who approves, in turn, when each approver acts as soon as named,
      starting after `current`; at most `fuel` steps are taken. */
  function Chain(flow: FlowType, s: seq<Approver>, current: Option<UserId>, fuel: nat): seq<UserId>
    decreases fuel
  {
    if fuel == 0 then []
    else match NextApprover(flow, s, current)
      case None => []
      case Some(u) => [u] + Chain(flow, s, Some(u), fuel - 1)
  }

  lemma {:induction false} InsertUsers(t: seq<Approver>, x: Approver)
    ensures multiset(Users(Insert(t, x))) == multiset(Users(t)) + multiset{x.user}
  {
    if t == [] {
    } else if t[|t| - 1].order <= x.order {
      assert Users(t + [x]) == Users(t) + [x.user];
    } else {
      var t', l := t[..|t| - 1], t[|t| - 1];
      InsertUsers(t', x);
      assert Users(Insert(t', x) + [l]) == Users(Insert(t', x)) + [l.user];
      assert Users(t) == Users(t') + [l.user];
    }
  }

  /** Sorting neither adds nor drops a user. */
  lemma {:induction false} SortByOrderUsers(s: seq<Approver>)
    ensures multiset(Users(SortByOrder(s))) == multiset(Users(s))
  {
    if s != [] {
      var init, last := s[..|s| - 1], s[|s| - 1];
      SortByOrderUsers(init);
      InsertUsers(SortByOrder(init), last);
      assert Users(s) == Users(init) + [last.user];
    }
  }

  lemma RepeatIsCounted(q: seq<UserId>, j: nat, i: nat)
    requires j < i < |q| && q[j] == q[i]
    ensures multiset(q)[q[i]] >= 2
  {
    assert q == q[..j] + [q[j]] + q[j + 1..i] + [q[i]] + q[i + 1..];
  }

  /** Without a repeated user, the approver after the one at position `i`
      of the sorted list is the one at `i + 1`, and for the last there is
      none. */
  lemma NextInSortedOrder(s: seq<Approver>, i: nat)
    requires NoRepeatedUser(s) && i < |s|
    ensures var sorted := SortByOrder(s);
      NextApprover(Sequential, s, Some(sorted[i].user))
        == if i < |s| - 1 then Some(sorted[i + 1].user) else None
  {
    var sorted := SortByOrder(s);
    var q := Users(sorted);
    var u := sorted[i].user;
    var r := IndexOfUser(sorted, u);
    if r != i {
      assert 0 <= r < i;
      RepeatIsCounted(q, r, i);
      SortByOrderUsers(s);
      assert false;
    }
  }

  lemma UsersCons(t: seq<Approver>)
    requires t != []
    ensures Users(t) == [t[0].user] + Users(t[1..])
  {
    assert Users(t)[1..] == Users(t[1..]);
  }

  lemma {:induction false} ChainFrom(s: seq<Approver>, i: nat, fuel: nat)
    requires NoRepeatedUser(s) && i < |s| && fuel >= |s| - i
    ensures Chain(Sequential, s, Some(SortByOrder(s)[i].user), fuel) == Users(SortByOrder(s)[i + 1..])
    decreases |s| - i
  {
    var sorted := SortByOrder(s);
    NextInSortedOrder(s, i);
    if i < |s| - 1 {
      ChainFrom(s, i + 1, fuel - 1);
      UsersCons(sorted[i + 1..]);
      assert sorted[i + 1..][1..] == sorted[i + 2..];
    }
  }

  /** A sequential rule with no repeated approver passes an expense to
      every one of its approvers exactly once, in ascending order, and
      then to nobody. */
  lemma {:induction false} ChainVisitsEachApproverOnce(s: seq<Approver>)
    requires NoRepeatedUser(s)
    ensures Chain(Sequential, s, None, |s| + 1) == Users(SortByOrder(s))
  {
    var sorted := SortByOrder(s);
    if s != [] {
      var first := sorted[0].user;
      assert NextApprover(Sequential, s, None) == Some(first);
      var rest := Chain(Sequential, s, Some(first), |s|);
      assert Chain(Sequential, s, None, |s| + 1) == [first] + rest;
      ChainFrom(s, 0, |s|);
      UsersCons(sorted);
    } else {
      assert NextApprover(Sequential, s, None) == None;
    }
  }

  /** A user listed twice makes the chain cycle: `findIndex` finds the
      first entry, so after the second entry's predecessor the chain
      jumps back. With `a` at orders 1 and 3 and `b` at 2 it runs a, b,
      a, b, ... and never ends. */
  lemma RepeatedApproverCycles(a: UserId, b: UserId)
    requires a != b
    ensures var s := [Approver(a, 1, true), Approver(b, 2, true), Approver(a, 3, true)];
      && NextApprover(Sequential, s, None) == Some(a)
      && NextApprover(Sequential, s, Some(a)) == Some(b)
      && NextApprover(Sequential, s, Some(b)) == Some(a)
  {
    var s := [Approver(a, 1, true), Approver(b, 2, true), Approver(a, 3, true)];
    SortByOrderOfSorted(s);
  }

  /** A value counted twice sits at two positions. */
  lemma {:induction false} CountedTwiceIsRepeated(q: seq<UserId>, u: UserId) returns (p: nat, j: nat)
    requires multiset(q)[u] >= 2
    ensures p < j < |q| && q[p] == u && q[j] == u
  {
    assert q != [];
    var init, x := q[..|q| - 1], q[|q| - 1];
    assert q == init + [x];
    if x == u {
      assert u in multiset(init);
      p :| 0 <= p < |init| && init[p] == u;
      j := |q| - 1;
    } else {
      p, j := CountedTwiceIsRepeated(init, u);
    }
  }

  /** Some repetition `q[p] == q[j]` has no repetition before `j`. */
  lemma {:induction false} FirstRepeat(q: seq<UserId>, p0: nat, j0: nat) returns (p: nat, j: nat)
    requires p0 < j0 < |q| && q[p0] == q[j0]
    ensures p < j <= j0 && q[p] == q[j]
    ensures forall a, b :: 0 <= a < b < j ==> q[a] != q[b]
    decreases j0
  {
    if exists a, b :: 0 <= a < b < j0 && q[a] == q[b] {
      var a, b :| 0 <= a < b < j0 && q[a] == q[b];
      p, j := FirstRepeat(q, a, b);
    } else {
      p, j := p0, j0;
    }
  }

  /** Before the first repetition at `j`, each step moves one position on,
      and the step onto `j` lands back on the earlier entry `p`, so the
      chain never runs out. */
  lemma {:induction false} ChainAroundRepeat(s: seq<Approver>, p: nat, j: nat, m: nat, fuel: nat)
    requires var q := Users(SortByOrder(s));
      && p < j < |q| && q[p] == q[j] && m < j
      && forall a, b :: 0 <= a < b < j ==> q[a] != q[b]
    ensures |Chain(Sequential, s, Some(SortByOrder(s)[m].user), fuel)| == fuel
    decreases fuel
  {
    if fuel > 0 {
      var sorted := SortByOrder(s);
      var q := Users(sorted);
      var u := sorted[m].user;
      var r := IndexOfUser(sorted, u);
      assert q[m] == u;
      assert r != -1;
      assert r == m;
      var next := if m + 1 < j then m + 1 else p;
      assert q[m + 1] == q[next];
      assert NextApprover(Sequential, s, Some(u)) == Some(sorted[next].user);
      ChainAroundRepeat(s, p, j, next, fuel - 1);
    }
  }

  /** A sequential rule that lists some user twice never runs out of
      approvers: however many steps are allowed, each one names someone. */
  lemma {:induction false} RepeatedApproverNeverEnds(s: seq<Approver>, fuel: nat)
    requires !NoRepeatedUser(s)
    ensures |Chain(Sequential, s, None, fuel)| == fuel
  {
    var sorted := SortByOrder(s);
    var q := Users(sorted);
    var u :| multiset(Users(s))[u] > 1;
    SortByOrderUsers(s);
    var p0, j0 := CountedTwiceIsRepeated(q, u);
    var p, j := FirstRepeat(q, p0, j0);
    if fuel > 0 {
      assert NextApprover(Sequential, s, None) == Some(sorted[0].user);
      ChainAroundRepeat(s, p, j, 0, fuel - 1);
    }
  }

  /** The chain of a sequential rule ends within its length exactly when
      no user is listed twice. */
  lemma ChainEndsExactlyWithoutRepeats(s: seq<Approver>)
    ensures |Chain(Sequential, s, None, |s| + 1)| <= |s| <==> NoRepeatedUser(s)
  {
    if NoRepeatedUser(s) {
      ChainVisitsEachApproverOnce(s);
    } else {
      RepeatedApproverNeverEnds(s, |s| + 1);
    }
  }

  /** A current user who is not on the list has no successor. */
  lemma UnlistedCurrentHasNoApprover(flow: FlowType, s: seq<Approver>, u: UserId)
    requires forall i :: 0 <= i < |s| ==> s[i].user != u
    ensures NextApprover(flow, s, Some(u)) == None
  {
    if flow == Sequential {
      var sorted := SortByOrder(s);
      SortByOrderUsers(s);
      assert u !in Users(s);
      forall i | 0 <= i < |sorted| ensures sorted[i].user != u {
        assert Users(sorted)[i] in multiset(Users(sorted));
      }
    }
  }

  /** Sorting orders 2, 1, 3 puts the middle entry first. */
  lemma SortsTwoOneThree(a: UserId, b: UserId, c: UserId)
    ensures SortByOrder([Approver(a, 2, true), Approver(b, 1, true), Approver(c, 3, true)])
      == [Approver(b, 1, true), Approver(a, 2, true), Approver(c, 3, true)]
  {
    var s := [Approver(a, 2, true), Approver(b, 1, true), Approver(c, 3, true)];
    var p1, p2 := [s[0]], [s[0], s[1]];
    assert p1[..0] == [] && p2[..1] == p1 && s[..2] == p2;
    assert SortByOrder(p1) == Insert([], s[0]) == p1;
    assert SortByOrder(p2) == Insert(p1, s[1]) == Insert([], s[1]) + [s[0]];
    assert SortByOrder(s) == Insert([s[1], s[0]], s[2]);
  }

  lemma ThreeUsersDistinct(s: seq<Approver>)
    requires |s| == 3 && s[0].user != s[1].user && s[1].user != s[2].user && s[0].user != s[2].user
    ensures NoRepeatedUser(s)
  {
    assert Users(s) == [s[0].user, s[1].user, s[2].user];
    forall u ensures multiset(Users(s))[u] <= 1 {
      assert multiset(Users(s)) == multiset{s[0].user} + multiset{s[1].user} + multiset{s[2].user};
    }
  }

  /** Orders 2, 1, 3 on users a, b, c: b acts first, then a, then c, and
      after c the chain ends. */
  lemma OrderDecidesTurns(a: UserId, b: UserId, c: UserId)
    requires a != b && b != c && a != c
    ensures var s := [Approver(a, 2, true), Approver(b, 1, true), Approver(c, 3, true)];
      Chain(Sequential, s, None, 4) == [b, a, c]
  {
    var s := [Approver(a, 2, true), Approver(b, 1, true), Approver(c, 3, true)];
    SortsTwoOneThree(a, b, c);
    ThreeUsersDistinct(s);
    ChainVisitsEachApproverOnce(s);
    assert Users(SortByOrder(s)) == [b, a, c];
  }

  // ---------------------------------------------------------------------
  // The stored rule.
  // ---------------------------------------------------------------------

  /** The schema defaults. */
  const DefaultAmountThreshold: real := 0.0
  const DefaultFlowType: FlowType := Sequential
  const DefaultPercentageRequired: real := 100.0
  const DefaultAutoEscalateAfter: real := 72.0

  function FlowTypeOf(name: Option<string>): (f: FlowType)
    ensures name == Some("parallel") <==> f == Parallel
    ensures name == Some("percentage") <==> f == Percentage
  {
    match name
    case Some("parallel") => Parallel
    case Some("percentage") => Percentage
    case _ => DefaultFlowType
  }

  /** The stored amount floor: the given one, or 0; never negative for an
      accepted definition. */
  function ThresholdOf(c: Option<ConditionsInput>): (t: real)
    ensures (c.Some? ==> NumberOk(ThresholdRules, c.value.amountThreshold)) ==> t >= 0.0
    ensures (c.None? || c.value.amountThreshold.None?) ==> t == DefaultAmountThreshold
  {
    if c.Some? && c.value.amountThreshold.Some? then c.value.amountThreshold.value else DefaultAmountThreshold
  }

  /** The stored percentage: the given one, or 100; within 0..100 for an
      accepted definition. */
  function PercentageOf(f: FlowInput): (p: real)
    ensures NumberOk(PercentageRules, f.percentageRequired) ==> 0.0 <= p <= 100.0
    ensures f.percentageRequired.None? ==> p == DefaultPercentageRequired
  {
    if f.percentageRequired.Some? then f.percentageRequired.value else DefaultPercentageRequired
  }

  /** One approver as stored: `isRequired` defaults to true. */
  function ToApprover(a: ApproverInput): (r: Approver)
    ensures ApproverOk(a) ==> r.user == a.user.value && r.order as real == a.order.value && r.order >= 1
    ensures a.isRequired.None? ==> r.isRequired
  {
    Approver(
      if a.user.Some? then a.user.value else "",
      if a.order.Some? then a.order.value.Floor else 0,
      if a.isRequired.Some? then a.isRequired.value else true)
  }

  function ToApprovers(list: seq<ApproverInput>): (r: seq<Approver>)
    ensures |r| == |list| && forall i :: 0 <= i < |list| ==> r[i] == ToApprover(list[i])
  {
    if list == [] then [] else [ToApprover(list[0])] + ToApprovers(list[1..])
  }

  function ToCategories(names: seq<string>): (r: seq<Category>)
    requires forall i :: 0 <= i < |names| ==> names[i] in CategoryNames
    ensures |r| == |names| && forall i :: 0 <= i < |names| ==> CategoryName(r[i]) == names[i]
  {
    if names == [] then [] else [ParseCategory(names[0]).value] + ToCategories(names[1..])
  }

  function OrEmpty<T>(s: Option<seq<T>>): seq<T> {
    if s.Some? then s.value else []
  }

  /** The stored `conditions`: the given threshold or 0, the given
      categories and departments or none. */
  function ConditionsOf(c: Option<ConditionsInput>): (r: Conditions)
    requires c.Some? && c.value.categories.Some? ==>
      forall i :: 0 <= i < |c.value.categories.value| ==> c.value.categories.value[i] in CategoryNames
    ensures r.amountThreshold == ThresholdOf(c)
    ensures c.None? ==> r == Conditions(DefaultAmountThreshold, [], [])
  {
    if c.None? then Conditions(DefaultAmountThreshold, [], [])
    else Conditions(ThresholdOf(c), ToCategories(OrEmpty(c.value.categories)), OrEmpty(c.value.departments))
  }

  /** The stored `escalationRules`: 72 hours and nobody unless given; at
      least one hour for an accepted definition. */
  function EscalationOf(e: Option<EscalationInput>): (r: Escalation)
    ensures (e.Some? ==> NumberOk(EscalateAfterRules, e.value.autoEscalateAfter)) ==> r.autoEscalateAfter >= 1.0
    ensures e.None? ==> r == Escalation(DefaultAutoEscalateAfter, [])
  {
    if e.Some? && e.value.autoEscalateAfter.Some? then Escalation(e.value.autoEscalateAfter.value, OrEmpty(e.value.escalationApprovers))
    else Escalation(DefaultAutoEscalateAfter, if e.Some? then OrEmpty(e.value.escalationApprovers) else [])
  }

  /** The approvers of an accepted definition, as stored: at least one,
      each with an order of at least 1 and the user id given for it. */
  lemma AcceptedRuleApprovers(b: RuleBody)
    requires RuleIssues(b) == []
    ensures b.approvalFlow.Some? && b.approvalFlow.value.approvers.Some?
    ensures var list := b.approvalFlow.value.approvers.value;
      |ToApprovers(list)| >= 1
      && forall i :: 0 <= i < |list| ==>
           ToApprovers(list)[i].order >= 1 && ToApprovers(list)[i].user == list[i].user.value
  {
    AcceptedRuleFlow(b);
  }

  /** What an accepted definition guarantees of the stored rule: the
      defaults apply where needed and the stored values meet their bounds. */
  lemma AcceptedRuleStored(b: RuleBody)
    requires RuleIssues(b) == []
    ensures b.name.Some? && b.approvalFlow.Some? && b.approvalFlow.value.approvers.Some?
    ensures |ToApprovers(b.approvalFlow.value.approvers.value)| >= 1
    ensures b.conditions.Some? && b.conditions.value.categories.Some? ==>
      forall i :: 0 <= i < |b.conditions.value.categories.value| ==> b.conditions.value.categories.value[i] in CategoryNames
    ensures ThresholdOf(b.conditions) >= 0.0
    ensures 0.0 <= PercentageOf(b.approvalFlow.value) <= 100.0
    ensures EscalationOf(b.escalationRules).autoEscalateAfter >= 1.0
  {
    AcceptedRuleFlow(b);
    RuleIssuesParts(b);
    CheckStringOk([Key("name")], NameRules, b.name);
    var n := CheckString([Key("name")], NameRules, b.name);
    assert RuleIssues(b) == n + CheckString([Key("description")], RuleDescriptionRules, b.description)
      + ConditionsIssues(b.conditions) + FlowIssues(b.approvalFlow) + EscalationIssues(b.escalationRules);
  }

  /** An approval rule document. Only the approver list changes after
      creation: `getNextApprover` sorts it in place. */
  class ApprovalRule {
    const id: RuleId
    const company: CompanyId
    const name: string
    const description: Option<string>
    const isActive: bool
    const conditions: Conditions
    const flowType: FlowType
    const approvers: array<Approver>
    const percentageRequired: real
    const isManagerApprover: bool
    const managerApprovalRequired: bool
    const escalation: Escalation
    const createdBy: UserId

    /** A rule as read from the store. */
    constructor (id: RuleId, company: CompanyId, name: string, isActive: bool, conditions: Conditions,
                 flowType: FlowType, approvers: seq<Approver>, createdBy: UserId)
      ensures this.id == id && this.company == company && this.name == name
      ensures this.isActive == isActive && this.conditions == conditions && this.flowType == flowType
      ensures this.approvers[..] == approvers && fresh(this.approvers)
      ensures this.createdBy == createdBy
    {
      this.id := id;
      this.company := company;
      this.name := name;
      this.description := None;
      this.isActive := isActive;
      this.conditions := conditions;
      this.flowType := flowType;
      this.approvers := new Approver[|approvers|](i requires 0 <= i < |approvers| => approvers[i]);
      this.percentageRequired := DefaultPercentageRequired;
      this.isManagerApprover := true;
      this.managerApprovalRequired := true;
      this.escalation := Escalation(DefaultAutoEscalateAfter, []);
      this.createdBy := createdBy;
    }

    /** `new ApprovalRule({...body, company, createdBy})` for a definition
        the create schema accepted, with every schema default filled in and
        the `trim` setters applied. */
    constructor FromBody(id: RuleId, company: CompanyId, createdBy: UserId, b: RuleBody)
      requires RuleIssues(b) == []
      ensures this.id == id && this.company == company && this.createdBy == createdBy
      ensures this.name == Trim(b.name.value)
      ensures this.description == (if b.description.Some? then Some(Trim(b.description.value)) else None)
      ensures this.isActive
      ensures this.conditions == ConditionsOf(b.conditions) && this.conditions.amountThreshold >= 0.0
      ensures this.flowType == FlowTypeOf(b.approvalFlow.value.flowType)
      ensures this.approvers[..] == ToApprovers(b.approvalFlow.value.approvers.value) && fresh(this.approvers)
      ensures this.approvers.Length >= 1
      ensures this.percentageRequired == PercentageOf(b.approvalFlow.value)
      ensures 0.0 <= this.percentageRequired <= 100.0
      ensures this.escalation == EscalationOf(b.escalationRules) && this.escalation.autoEscalateAfter >= 1.0
    {
      AcceptedRuleStored(b);
      var f := b.approvalFlow.value;
      var list := ToApprovers(f.approvers.value);
      this.id := id;
      this.company := company;
      this.name := Trim(b.name.value);
      this.description := if b.description.Some? then Some(Trim(b.description.value)) else None;
      this.isActive := true;
      this.conditions := ConditionsOf(b.conditions);
      this.flowType := FlowTypeOf(f.flowType);
      this.approvers := new Approver[|list|](i requires 0 <= i < |list| => list[i]);
      this.percentageRequired := PercentageOf(f);
      this.isManagerApprover := if f.isManagerApprover.Some? then f.isManagerApprover.value else true;
      this.managerApprovalRequired := if f.managerApprovalRequired.Some? then f.managerApprovalRequired.value else true;
      this.escalation := EscalationOf(b.escalationRules);
      this.createdBy := createdBy;
    }

    /** `appliesToExpense(expense)`: the rule is active, the amount in the
        company's currency reaches the threshold, and the rule lists no
        category or lists the expense's. */
    predicate AppliesToExpense(amountInBaseCurrency: real, category: Category)
    {
      && isActive
      && amountInBaseCurrency >= conditions.amountThreshold
      && (|conditions.categories| == 0 || category in conditions.categories)
    }

    /** `getNextApprover(current)`: a sequential rule sorts its approvers by
        order in place and names the first of them (nobody has acted yet)
        or the one after `current`; any other rule names nobody and is left
        as it was. */
    method GetNextApprover(current: Option<UserId>) returns (next: Option<UserId>)
      modifies approvers
      ensures flowType == Sequential ==> approvers[..] == SortByOrder(old(approvers[..]))
      ensures flowType != Sequential ==> approvers[..] == old(approvers[..])
      ensures next == NextApprover(flowType, old(approvers[..]), current)
    {
      if flowType != Sequential {
        return None;
      }
      SortApprovers(approvers);
      match current
      case None =>
        next := if approvers.Length > 0 then Some(approvers[0].user) else None;
      case Some(u) =>
        var i := FindUser(approvers, u);
        next := if i != -1 && i < approvers.Length - 1 then Some(approvers[i + 1].user) else None;
    }
  }

  /** An inactive rule applies to nothing. */
  lemma InactiveNeverApplies(rule: ApprovalRule, amount: real, category: Category)
    requires !rule.isActive
    ensures !rule.AppliesToExpense(amount, category)
  {
  }

  /** The threshold is inclusive: an amount below it never applies, and an
      active rule applies to every amount at or above it whose category it
      accepts (it lists none, or lists this one). */
  lemma ThresholdIsInclusive(rule: ApprovalRule, amount: real, category: Category)
    ensures amount < rule.conditions.amountThreshold ==> !rule.AppliesToExpense(amount, category)
    ensures rule.isActive && amount >= rule.conditions.amountThreshold
      && (rule.conditions.categories == [] || category in rule.conditions.categories)
      ==> rule.AppliesToExpense(amount, category)
  {
  }

  /** A rule that lists categories applies only to those; one that lists
      none is indifferent to category. */
  lemma CategoryGate(rule: ApprovalRule, amount: real, c: Category, d: Category)
    ensures rule.conditions.categories != [] && c !in rule.conditions.categories ==> !rule.AppliesToExpense(amount, c)
    ensures rule.conditions.categories == [] ==> (rule.AppliesToExpense(amount, c) <==> rule.AppliesToExpense(amount, d))
  {
  }

  /** Raising the amount never stops a rule from applying. */
  lemma AppliesUpwardClosed(rule: ApprovalRule, a: real, b: real, category: Category)
    requires a <= b && rule.AppliesToExpense(a, category)
    ensures rule.AppliesToExpense(b, category)
  {
  }
}

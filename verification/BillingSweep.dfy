/** Paging through all customers in the order of their ids. */
module BillingSweep {
  import opened Wrappers

  /** User ids by their place in the database's order; 0 stands for the empty cursor text, before every user. */
  type User = nat

  type Cursor = Option<User>

  ghost predicate Sorted(users: seq<User>) {
    (forall u <- users :: u > 0) && forall i, j | 0 <= i < j < |users| :: users[i] < users[j]
  }

  function From(cursor: Cursor): User {
    if cursor.Some? then cursor.value else 0
  }

  /** SELECT ... WHERE user_id > cursor ORDER BY user_id, without its limit. */
  function After(users: seq<User>, from: User): (rest: seq<User>)
    ensures |rest| <= |users|
  {
    if users == [] then []
    else if users[0] > from then users
    else After(users[1..], from)
  }

  function Candidates(users: seq<User>, from: User, limit: nat): seq<User> {
    var rest := After(users, from);
    rest[..Min(limit, |rest|)]
  }

  datatype Page = Page(checked: seq<User>, next: Cursor)

  /** `budget` is how many users the sweep reconciles before it is told to stop; a failed one counts as checked. */
  function Sweep(users: seq<User>, cursor: Cursor, limit: nat, budget: nat): Page {
    var candidates := Candidates(users, From(cursor), limit);
    var checked := candidates[..Min(budget, |candidates|)];
    var last := if checked == [] then cursor else Some(checked[|checked| - 1]);
    Page(checked, if |checked| < |candidates| || |candidates| == limit then last else None)
  }

  /** The place in `users` that a cursor stands for. */
  function Position(users: seq<User>, from: User): nat {
    |users| - |After(users, from)|
  }

  lemma {:induction false} AfterIsSuffix(users: seq<User>, from: User)
    requires Sorted(users)
    ensures |After(users, from)| <= |users| && After(users, from) == users[Position(users, from)..]
    ensures forall i | 0 <= i < |users| :: users[i] > from <==> i >= Position(users, from)
  {
    if users != [] && users[0] <= from {
      AfterIsSuffix(users[1..], from);
      assert users[1..][Position(users[1..], from)..] == users[Position(users[1..], from) + 1..];
      forall i | 0 <= i < |users| ensures users[i] > from <==> i >= Position(users, from) {
        if i > 0 {
          assert users[1..][i - 1] == users[i];
        }
      }
    }
  }

  lemma SliceHas(users: seq<User>, start: nat, end: nat, from: User, upTo: User, whole: bool)
    requires Sorted(users) && start <= end <= |users|
    requires forall i | 0 <= i < |users| :: users[i] > from <==> i >= start
    requires forall i | 0 <= i < |users| :: whole || users[i] <= upTo <==> i < end
    ensures Sorted(users[start..end])
    ensures forall u :: u in users[start..end] <==> u in users && from < u && (whole || u <= upTo)
  {
    var part := users[start..end];
    assert forall i | 0 <= i < |part| :: part[i] == users[start + i] && part[i] in users;
    forall u | u in users && from < u && (whole || u <= upTo)
      ensures u in part
    {
      var i :| 0 <= i < |users| && users[i] == u;
      assert part[i - start] == u;
    }
  }

  /** A page checks a stretch of its table that starts behind the cursor and ends at the next one, or at the end. */
  lemma CheckedStretch(users: seq<User>, cursor: Cursor, limit: nat, budget: nat) returns (start: nat, end: nat)
    requires Sorted(users)
    ensures var page := Sweep(users, cursor, limit, budget);
            && start <= end <= |users| && page.checked == users[start..end]
            && (forall i | 0 <= i < |users| :: users[i] > From(cursor) <==> i >= start)
            && (page.next.Some? ==> page.next == if start == end then cursor else Some(users[end - 1]))
            && (page.next.None? && (cursor.Some? || (limit > 0 && budget > 0)) ==> end == |users|)
  {
    hide After, Sorted;
    AfterIsSuffix(users, From(cursor));
    start := Position(users, From(cursor));
    end := start + |Sweep(users, cursor, limit, budget).checked|;
  }

  /** The users a page checks are those of its table that follow the cursor, in order, up to the next cursor or the
      end. */
  lemma PageAdvances(users: seq<User>, cursor: Cursor, limit: nat, budget: nat)
    requires Sorted(users)
    ensures var page, from := Sweep(users, cursor, limit, budget), From(cursor);
            && Sorted(page.checked) && (forall u <- page.checked :: u in users && from < u)
            && (page.next.Some? ==> from <= From(page.next) && forall u :: u in page.checked <==>
                                                                      u in users && from < u <= From(page.next))
            && (page.next.None? && (cursor.Some? || (limit > 0 && budget > 0)) ==>
                  forall u :: u in page.checked <==> u in users && from < u)
  {
    hide Sweep;
    var page := Sweep(users, cursor, limit, budget);
    var start, end := CheckedStretch(users, cursor, limit, budget);
    if page.next.Some? {
      SliceHas(users, start, end, From(cursor), From(page.next), false);
    } else if cursor.Some? || (limit > 0 && budget > 0) {
      SliceHas(users, start, end, From(cursor), 0, true);
    } else {
      StretchHas(users, start, end, From(cursor));
    }
  }

  lemma StretchHas(users: seq<User>, start: nat, end: nat, from: User)
    requires Sorted(users) && start <= end <= |users|
    requires forall i | 0 <= i < |users| :: users[i] > from <==> i >= start
    ensures Sorted(users[start..end]) && forall u <- users[start..end] :: u in users && from < u
  {
  }

  /** The sweep reports its end exactly when it checked the whole last page and it was short, or when it was stopped
      before the very first user: the second case ends a sweep that has checked nobody. */
  lemma EndsExactlyWhen(users: seq<User>, cursor: Cursor, limit: nat, budget: nat)
    requires Sorted(users)
    ensures var page, from := Sweep(users, cursor, limit, budget), Position(users, From(cursor));
            page.next.None? <==>
              (from + |page.checked| == |users| && |page.checked| < limit)
              || (cursor.None? && page.checked == [])
  {
    AfterIsSuffix(users, From(cursor));
  }

  /** One call of the sweep: the customers the table holds at that moment, its limit and its budget. */
  datatype Call = Call(users: seq<User>, limit: nat, budget: nat)

  /** Following the cursor over several calls. */
  function Follow(calls: seq<Call>): (seq<User>, Cursor) {
    if calls == [] then ([], None)
    else
      var before, last := Follow(calls[..|calls| - 1]), calls[|calls| - 1];
      var page := Sweep(last.users, before.1, last.limit, last.budget);
      (before.0 + page.checked, page.next)
  }

  /** No call before the last one ended the sweep. */
  ghost predicate StillOpen(calls: seq<Call>) {
    calls != [] ==>
      StillOpen(calls[..|calls| - 1]) && (|calls| > 1 ==> Follow(calls[..|calls| - 1]).1.Some?)
  }

  ghost predicate AllSorted(calls: seq<Call>) {
    forall call <- calls :: Sorted(call.users)
  }

  ghost predicate InEvery(calls: seq<Call>, u: User) {
    forall call <- calls :: u in call.users
  }

  ghost predicate InSome(calls: seq<Call>, u: User) {
    exists call <- calls :: u in call.users
  }

  lemma SortedTogether(a: seq<User>, b: seq<User>, border: User)
    requires Sorted(a) && Sorted(b) && (forall u <- a :: u <= border) && forall u <- b :: border < u
    ensures Sorted(a + b)
  {
    assert forall i | 0 <= i < |a| :: a[i] in a;
    assert forall i | 0 <= i < |b| :: b[i] in b;
  }

  lemma MemberNext(calls: seq<Call>, last: Call, u: User)
    ensures InEvery(calls + [last], u) <==> InEvery(calls, u) && u in last.users
    ensures InSome(calls + [last], u) <==> InSome(calls, u) || u in last.users
  {
    assert forall call :: call in calls + [last] <==> call in calls || call == last;
    if InSome(calls, u) {
      var call :| call in calls && u in call.users;
      assert call in calls + [last];
    }
    assert last in calls + [last];
  }

  /** However the pages are cut, wherever they are stopped and whatever customers come and go in between: those checked
      so far were all present, nobody is checked twice, and nobody up to the cursor who was always there is missed. */
  lemma {:induction false} PagesConcatenate(calls: seq<Call>)
    requires AllSorted(calls) && StillOpen(calls)
    ensures var (checked, cursor) := Follow(calls);
            && Sorted(checked) && (forall u <- checked :: InSome(calls, u))
            && (cursor.Some? || calls == [] ==>
                  && (forall u <- checked :: u <= From(cursor))
                  && forall u | 0 < u <= From(cursor) && InEvery(calls, u) :: u in checked)
  {
    if calls != [] {
      hide Sweep, Sorted, InEvery, InSome;
      var before, last := calls[..|calls| - 1], calls[|calls| - 1];
      assert calls == before + [last];
      assert last in calls && AllSorted(before);
      PagesConcatenate(before);
      var (done, cursor) := Follow(before);
      PageAdvances(last.users, cursor, last.limit, last.budget);
      var page := Sweep(last.users, cursor, last.limit, last.budget);
      SortedTogether(done, page.checked, From(cursor));
      forall u: User
        ensures InEvery(calls, u) <==> InEvery(before, u) && u in last.users
        ensures InSome(calls, u) <==> InSome(before, u) || u in last.users
      {
        MemberNext(before, last, u);
      }
    }
  }

  lemma FirstIsMember(users: seq<User>)
    ensures users != [] ==> users[0] in users
  {
  }

  lemma {:induction false} SameMembers(a: seq<User>, b: seq<User>)
    requires Sorted(a) && Sorted(b) && forall u :: u in a <==> u in b
    ensures a == b
  {
    FirstIsMember(b);
    if a != [] {
      assert a[0] in b && b != [] && b[0] in a;
      forall u ensures u in a[1..] <==> u in b[1..] {
        assert u in a[1..] <==> u in a && u != a[0];
        assert u in b[1..] <==> u in b && u != b[0];
      }
      SameMembers(a[1..], b[1..]);
    }
  }

  /** A sweep that ends has checked every customer present throughout exactly once, and nobody else twice, unless its
      first page was stopped before the first one; over an unchanged table it has checked just that table, in order. */
  lemma SweepChecksEveryone(calls: seq<Call>)
    requires AllSorted(calls) && StillOpen(calls) && calls != [] && Follow(calls).1.None?
    requires calls[0].limit > 0 && calls[0].budget > 0
    ensures var checked := Follow(calls).0;
            && Sorted(checked)
            && (forall u | InEvery(calls, u) :: u in checked) && (forall u <- checked :: InSome(calls, u))
            && ((forall call <- calls :: call.users == calls[0].users) ==> checked == calls[0].users)
  {
    hide Sweep, Sorted, InEvery, InSome;
    var before, last := calls[..|calls| - 1], calls[|calls| - 1];
    assert calls == before + [last];
    assert last in calls && AllSorted(before);
    PagesConcatenate(before);
    PagesConcatenate(calls);
    var (done, cursor) := Follow(before);
    PageAdvances(last.users, cursor, last.limit, last.budget);
    var checked := Follow(calls).0;
    forall u | InEvery(calls, u)
      ensures u in checked
    {
      MemberNext(before, last, u);
      Positive(last.users, u);
    }
    if forall call <- calls :: call.users == calls[0].users {
      assert calls[0] in calls;
      forall u ensures u in checked <==> u in calls[0].users {
        assert InEvery(calls, u) <==> u in calls[0].users by {
          Unchanged(calls, u);
        }
        assert InSome(calls, u) <==> u in calls[0].users by {
          Unchanged(calls, u);
        }
      }
      SameMembers(checked, calls[0].users);
    }
  }

  lemma Positive(users: seq<User>, u: User)
    requires Sorted(users) && u in users
    ensures 0 < u
  {
  }

  lemma Unchanged(calls: seq<Call>, u: User)
    requires calls != [] && forall call <- calls :: call.users == calls[0].users
    ensures InEvery(calls, u) <==> u in calls[0].users
    ensures InSome(calls, u) <==> u in calls[0].users
  {
    assert calls[0] in calls;
  }

  /** One page, in the loop of the original; true says that a user's reconciliation may start. */
  method RunSweep(users: seq<User>, cursor: Cursor, limit: nat, shouldContinue: nat -> bool) returns (page: Page,
                  ghost budget: nat)
    ensures page == Sweep(users, cursor, limit, budget)
    ensures forall k | 0 <= k < |page.checked| :: shouldContinue(k)
    ensures |page.checked| < |Candidates(users, From(cursor), limit)| ==> !shouldContinue(|page.checked|)
  {
    var candidates := Candidates(users, From(cursor), limit);
    var checked, last := 0, cursor;
    while checked < |candidates| && shouldContinue(checked)
      invariant 0 <= checked <= |candidates|
      invariant last == if checked == 0 then cursor else Some(candidates[checked - 1])
      invariant forall k | 0 <= k < checked :: shouldContinue(k)
    {
      last := Some(candidates[checked]);
      checked := checked + 1;
    }
    budget := checked;
    page := Page(candidates[..checked], if checked < |candidates| || |candidates| == limit then last else None);
  }
}

/**
 * The admin's query inbox: the newest-first list derived from the `queries`
 * snapshot, the status filter, marking a query resolved or open, and
 * replying to it (with a notification to the member who asked).
 */
module ViewQueries {
  import opened Wrappers
  import opened Table
  import opened Seqs
  import opened JsText
  import opened Store

  /** The sort key `q.timestamp || 0`. */
  function Ts(q: Query): int {
    q.timestamp.GetOr(0)
  }

  predicate NewestFirst(xs: seq<Row<Query>>) {
    forall i, j :: 0 <= i < j < |xs| ==> Ts(xs[i].value) >= Ts(xs[j].value)
  }

  /** Places `e` before the first entry that is not newer than it, so that `e` leads its ties. */
  function InsertNewest(e: Row<Query>, xs: seq<Row<Query>>): (r: seq<Row<Query>>)
    ensures NewestFirst(xs) ==> NewestFirst(r)
    ensures multiset(r) == multiset(xs) + multiset{e}
    ensures r[0] == e || (xs != [] && r[0] == xs[0])
  {
    if xs == [] || Ts(xs[0].value) <= Ts(e.value) then [e] + xs
    else
      var rest := InsertNewest(e, xs[1..]);
      var r := [xs[0]] + rest;
      assert NewestFirst(xs) ==> NewestFirst(r) by {
        if NewestFirst(xs) {
          assert NewestFirst(xs[1..]);
          assert Ts(rest[0].value) <= Ts(xs[0].value);
          forall i, j | 0 <= i < j < |r| ensures Ts(r[i].value) >= Ts(r[j].value) {
            if i == 0 && j > 1 {
              assert Ts(rest[0].value) >= Ts(rest[j - 1].value);
            }
          }
        }
      }
      assert xs == [xs[0]] + xs[1..];
      assert multiset(r) == multiset{xs[0]} + multiset(rest);
      r
  }

  /**
   * The `queries` snapshot as the admin sees it: `Object.entries` with each
   * record carrying its key as `id`, stably sorted by `timestamp`, newest first.
   */
  function QueryList(t: Table<Query>): (r: seq<Row<Query>>)
    ensures NewestFirst(r)
    ensures multiset(r) == multiset(t)
  {
    if t == [] then []
    else
      assert t == [t[0]] + t[1..];
      InsertNewest(t[0], QueryList(t[1..]))
  }

  /** Every listed entry is the stored record under its key. */
  lemma QueryListRowsAreStored(t: Table<Query>, e: Row<Query>)
    requires UniqueKeys(t) && e in QueryList(t)
    ensures Lookup(t, e.key) == Some(e.value)
  {
    assert e in multiset(QueryList(t));
    LookupRow(t, e);
  }

  /** The entries whose sort key is `time`, in their order in `xs`. */
  function Ties(xs: seq<Row<Query>>, time: int): seq<Row<Query>> {
    if xs == [] then []
    else (if Ts(xs[0].value) == time then [xs[0]] else []) + Ties(xs[1..], time)
  }

  lemma TiesCons(x: Row<Query>, xs: seq<Row<Query>>, time: int)
    ensures Ties([x] + xs, time) == (if Ts(x.value) == time then [x] else []) + Ties(xs, time)
  {
    assert ([x] + xs)[0] == x;
    assert ([x] + xs)[1..] == xs;
  }

  /** One step of `InsertNewest` past an entry newer than `e`. */
  lemma InsertNewestStep(e: Row<Query>, xs: seq<Row<Query>>)
    requires xs != [] && Ts(xs[0].value) > Ts(e.value)
    ensures InsertNewest(e, xs) == [xs[0]] + InsertNewest(e, xs[1..])
  {
  }

  lemma {:induction false} InsertNewestTies(e: Row<Query>, xs: seq<Row<Query>>, time: int)
    ensures Ties(InsertNewest(e, xs), time) == (if Ts(e.value) == time then [e] else []) + Ties(xs, time)
    decreases |xs|
  {
    var te: seq<Row<Query>> := if Ts(e.value) == time then [e] else [];
    if xs == [] || Ts(xs[0].value) <= Ts(e.value) {
      assert InsertNewest(e, xs) == [e] + xs;
      TiesCons(e, xs, time);
    } else {
      var x, tail := xs[0], xs[1..];
      var tx: seq<Row<Query>> := if Ts(x.value) == time then [x] else [];
      assert Ties(InsertNewest(e, xs), time) == tx + (te + Ties(tail, time)) by {
        InsertNewestStep(e, xs);
        TiesCons(x, InsertNewest(e, tail), time);
        InsertNewestTies(e, tail, time);
      }
      assert Ties(xs, time) == tx + Ties(tail, time) by {
        assert [x] + tail == xs;
        TiesCons(x, tail, time);
      }
      SwapDisjoint(tx, te, Ties(tail, time));
    }
  }

  /** The sort is stable: entries with equal timestamps stay in store-key order. */
  lemma {:induction false} QueryListStable(t: Table<Query>, time: int)
    ensures Ties(QueryList(t), time) == Ties(t, time)
  {
    if t != [] {
      QueryListStable(t[1..], time);
      InsertNewestTies(t[0], QueryList(t[1..]), time);
      TiesCons(t[0], t[1..], time);
      assert [t[0]] + t[1..] == t;
    }
  }

  function StatusIs(status: string): Row<Query> -> bool {
    (e: Row<Query>) => e.value.status == status
  }

  /** The list under the "all" / "open" / "resolved" tabs; any value other than the two statuses shows everything. */
  function FilterByStatus(xs: seq<Row<Query>>, filter: string): (r: seq<Row<Query>>)
    ensures filter == "open" || filter == "resolved" ==>
      forall e :: e in r <==> e in xs && e.value.status == filter
    ensures filter == "open" || filter == "resolved" ==>
      forall e :: multiset(r)[e] == if e.value.status == filter then multiset(xs)[e] else 0
    ensures filter != "open" && filter != "resolved" ==> r == xs
    ensures IsSubsequence(r, xs)
  {
    if filter == "open" || filter == "resolved" then Filter(xs, StatusIs(filter))
    else
      FilterAllPass(xs, _ => true);
      Filter(xs, _ => true)
  }

  lemma {:induction false} SubsequenceNewestFirst(a: seq<Row<Query>>, b: seq<Row<Query>>)
    requires IsSubsequence(a, b) && NewestFirst(b)
    ensures NewestFirst(a)
    decreases |b|
  {
    if a != [] {
      if a[0] == b[0] {
        SubsequenceNewestFirst(a[1..], b[1..]);
        forall j | 0 < j < |a| ensures Ts(a[0].value) >= Ts(a[j].value) {
          assert a[j] in a[1..];
          SubsequenceMembers(a[1..], b[1..], a[j]);
        }
      } else {
        SubsequenceNewestFirst(a, b[1..]);
      }
    }
  }

  /** A filtered tab of the sorted list is still newest first. */
  lemma FilterKeepsNewestFirst(xs: seq<Row<Query>>, filter: string)
    requires NewestFirst(xs)
    ensures NewestFirst(FilterByStatus(xs, filter))
  {
    SubsequenceNewestFirst(FilterByStatus(xs, filter), xs);
  }

  /** The one store call of a status change. */
  const StepUpdateQuery := 1

  /** The record after `update(queryRef, {status, resolvedAt})`. */
  function WithStatus(q: Query, newStatus: string, now: nat): Query {
    q.(status := newStatus, resolvedAt := if newStatus == "resolved" then Some(now) else None)
  }

  /** The admin marks a query `newStatus` at time `now`. */
  function SetStatus(s: Store, queryId: string, newStatus: string, now: nat, fault: Fault): (o: Outcome<()>)
    requires queryId in Keys(s.queries)
    ensures fault == FailAt(StepUpdateQuery) ==>
      o == Outcome(s, Failure(OperationFailed(StepUpdateQuery)))
    ensures fault != FailAt(StepUpdateQuery) ==>
      && o.result.Success?
      && Lookup(o.store.queries, queryId).Some?
      && var before, after := Lookup(s.queries, queryId).value, Lookup(o.store.queries, queryId).value;
         && after.status == newStatus
         && (after.resolvedAt.Some? <==> newStatus == "resolved")
         && (after.resolvedAt.Some? ==> after.resolvedAt.value == now)
         && after.(status := before.status, resolvedAt := before.resolvedAt) == before
    ensures forall other :: other != queryId ==> Lookup(o.store.queries, other) == Lookup(s.queries, other)
    ensures |o.store.queries| == |s.queries|
    ensures forall i :: 0 <= i < |s.queries| ==> o.store.queries[i].key == s.queries[i].key
    ensures o.store.(queries := s.queries) == s
  {
    if fault == FailAt(StepUpdateQuery) then Outcome(s, Failure(OperationFailed(StepUpdateQuery)))
    else
      var q := Lookup(s.queries, queryId).value;
      PutKeepsOrder(s.queries, queryId, WithStatus(q, newStatus, now));
      Outcome(s.(queries := Put(s.queries, queryId, WithStatus(q, newStatus, now))), Success(()))
  }

  /** Resolving and then reopening a query leaves it open with no `resolvedAt`, everything else as before. */
  lemma ResolveThenReopen(s: Store, queryId: string, t1: nat, t2: nat)
    requires queryId in Keys(s.queries)
    ensures var s1 := SetStatus(s, queryId, "resolved", t1, NoFault).store;
            var s2 := SetStatus(s1, queryId, "open", t2, NoFault).store;
            var before := Lookup(s.queries, queryId).value;
            Lookup(s2.queries, queryId) == Some(before.(status := "open", resolvedAt := None))
  {
  }

  /** Resolving and reopening a query that was open restores the store exactly. */
  lemma {:induction false} ResolveThenReopenRestores(s: Store, queryId: string, t1: nat, t2: nat)
    requires queryId in Keys(s.queries)
    requires Lookup(s.queries, queryId).value.status == "open"
    requires Lookup(s.queries, queryId).value.resolvedAt == None
    ensures var s1 := SetStatus(s, queryId, "resolved", t1, NoFault).store;
            SetStatus(s1, queryId, "open", t2, NoFault).store == s
  {
    var q := Lookup(s.queries, queryId).value;
    PutPut(s.queries, queryId, WithStatus(q, "resolved", t1), q);
    PutLookup(s.queries, queryId, q);
  }

  /** Setting the same status twice is setting it once, with the later time. */
  lemma {:induction false} SetStatusTwice(s: Store, queryId: string, status: string, t1: nat, t2: nat)
    requires queryId in Keys(s.queries)
    ensures var s1 := SetStatus(s, queryId, status, t1, NoFault).store;
            SetStatus(s1, queryId, status, t2, NoFault) == SetStatus(s, queryId, status, t2, NoFault)
  {
    var q := Lookup(s.queries, queryId).value;
    PutPut(s.queries, queryId, WithStatus(q, status, t1), WithStatus(q, status, t2));
  }

  /** The two store calls of a reply, in order. */
  const StepWriteReply := 1
  const StepNotifyMember := 2

  /** The reply as stored under `queries/<id>/replies`. */
  function AdminReply(text: string, now: nat): Reply {
    Reply(Trim(text), now, "admin")
  }

  /** The notification pushed to `userNotifications/<memberId>`. */
  function ReplyNotification(queryId: string, text: string, now: nat): Notification {
    Notification("query_reply", "Admin Reply to Your Query", Trim(text), now, false, QueryReply(queryId, "admin"))
  }

  /** Whether a reply is passed on to the member's inbox: only when the query names a member. */
  predicate Notifies(memberId: Option<string>) {
    Truthy(memberId)
  }

  /**
   * The admin answers query `queryId` (asked by `memberId`, if known) with
   * `text` at time `now`. The input box holds at most 500 characters.
   */
  function SendReply(s: Store, queryId: string, memberId: Option<string>, text: string, now: nat, fault: Fault)
    : (o: Outcome<()>)
    requires queryId in Keys(s.queries)
    requires |text| <= 500
    ensures Trim(text) == "" ==> o == Outcome(s, Failure(Rejected(EmptyReply)))
    ensures Trim(text) != "" && fault == FailAt(StepWriteReply) ==>
      o == Outcome(s, Failure(OperationFailed(StepWriteReply)))
    ensures Trim(text) != "" && fault != FailAt(StepWriteReply) ==>
      && Lookup(o.store.queries, queryId).Some?
      && var before, after := Lookup(s.queries, queryId).value, Lookup(o.store.queries, queryId).value;
         after == before.(replies := before.replies + [AdminReply(text, now)])
    ensures forall other :: other != queryId ==> Lookup(o.store.queries, other) == Lookup(s.queries, other)
    ensures var notified := Trim(text) != "" && fault != FailAt(StepWriteReply)
                            && Notifies(memberId) && fault != FailAt(StepNotifyMember);
            forall uid :: Inbox(o.store, uid)
              == Inbox(s, uid) + (if notified && uid == memberId.value then [ReplyNotification(queryId, text, now)] else [])
    ensures Trim(text) != "" && fault != FailAt(StepWriteReply) && Notifies(memberId) && fault == FailAt(StepNotifyMember) ==>
      o.result == Failure(OperationFailed(StepNotifyMember))
    ensures o.result.Success? <==>
      Trim(text) != "" && fault != FailAt(StepWriteReply) && !(Notifies(memberId) && fault == FailAt(StepNotifyMember))
    ensures |o.store.queries| == |s.queries|
    ensures forall i :: 0 <= i < |s.queries| ==> o.store.queries[i].key == s.queries[i].key
    ensures o.store.(queries := s.queries, userNotifications := s.userNotifications) == s
  {
    var msg := Trim(text);
    if msg == "" then Outcome(s, Failure(Rejected(EmptyReply)))
    else if fault == FailAt(StepWriteReply) then Outcome(s, Failure(OperationFailed(StepWriteReply)))
    else
      var q := Lookup(s.queries, queryId).value;
      PutKeepsOrder(s.queries, queryId, q.(replies := q.replies + [AdminReply(text, now)]));
      var s1 := s.(queries := Put(s.queries, queryId, q.(replies := q.replies + [AdminReply(text, now)])));
      if !Notifies(memberId) then Outcome(s1, Success(()))
      else if fault == FailAt(StepNotifyMember) then Outcome(s1, Failure(OperationFailed(StepNotifyMember)))
      else Outcome(NotifyMember(s1, memberId.value, ReplyNotification(queryId, text, now)), Success(()))
  }

  /** Status changes and replies keep the query keys unique. */
  lemma AdminWritesKeepKeysUnique(s: Store, queryId: string, newStatus: string, memberId: Option<string>,
                                  text: string, now: nat, fault: Fault)
    requires queryId in Keys(s.queries) && |text| <= 500
    requires UniqueKeys(s.queries)
    ensures UniqueKeys(SetStatus(s, queryId, newStatus, now, fault).store.queries)
    ensures UniqueKeys(SendReply(s, queryId, memberId, text, now, fault).store.queries)
  {
    var q := Lookup(s.queries, queryId).value;
    PutUnique(s.queries, queryId, WithStatus(q, newStatus, now));
    PutUnique(s.queries, queryId, q.(replies := q.replies + [AdminReply(text, now)]));
  }

  /** A stored reply is non-empty, trimmed and within the 500-character limit. */
  lemma AdminReplyWellFormed(text: string, now: nat)
    requires |text| <= 500 && Trim(text) != ""
    ensures var r := AdminReply(text, now);
            r.message != "" && Trimmed(r.message) && |r.message| <= 500 && r.from == "admin"
  {
  }
}

/** Properties that follow a record through more than one handler. */
module Scenarios {
  import opened Wrappers
  import opened Table
  import opened JsText
  import opened Store
  import opened ViewQueries
  import opened ContactAdmin
  import opened Receipts

  /** A freshly submitted query shows up in the admin's list under the "open" tab. */
  lemma SubmittedQueryListedAsOpen(s: Store, uid: Option<string>, profile: Option<User>, subject: string,
                                   message: string, now: nat, key: string)
    requires |subject| <= SubjectMaxLength && |message| <= MessageMaxLength
    requires Trim(subject) != "" && Trim(message) != ""
    ensures var s1 := SubmitQuery(s, uid, profile, subject, message, now, key, NoFault).store;
            var q := NewQuery(uid, profile, subject, message, now);
            Row(key, q) in FilterByStatus(QueryList(s1.queries), "open")
  {
    var s1 := SubmitQuery(s, uid, profile, subject, message, now, key, NoFault).store;
    var q := NewQuery(uid, profile, subject, message, now);
    assert Row(key, q) in s1.queries;
    assert Row(key, q) in multiset(s1.queries);
    assert Row(key, q) in QueryList(s1.queries);
  }

  /**
   * Replying to a submitted query through its stored owner reaches the member
   * who asked: one reply on the query, one notification in their inbox.
   */
  lemma {:induction false} ReplyReachesAsker(s: Store, uid: Option<string>, profile: Option<User>, subject: string,
                                             message: string, key: string, text: string, t1: nat, t2: nat)
    requires |subject| <= SubjectMaxLength && |message| <= MessageMaxLength && |text| <= 500
    requires Trim(subject) != "" && Trim(message) != "" && Trim(text) != ""
    requires Truthy(uid)
    ensures var s1 := SubmitQuery(s, uid, profile, subject, message, t1, key, NoFault).store;
            var owner := Lookup(s1.queries, key).value.uid;
            var o := SendReply(s1, key, owner, text, t2, NoFault);
      && o.result.Success?
      && Lookup(o.store.queries, key).value.replies == [AdminReply(text, t2)]
      && Inbox(o.store, uid.value) == Inbox(s, uid.value) + [ReplyNotification(key, text, t2)]
      && forall other :: other != uid.value ==> Inbox(o.store, other) == Inbox(s, other)
  {
    var s1 := SubmitQuery(s, uid, profile, subject, message, t1, key, NoFault).store;
    assert Lookup(s1.queries, key).value.uid == uid;
  }

  /** A member whose query carries no owner gets nothing; the reply is still recorded. */
  lemma ReplyWithoutOwnerNotifiesNobody(s: Store, queryId: string, text: string, now: nat)
    requires queryId in Keys(s.queries) && |text| <= 500 && Trim(text) != ""
    ensures var o := SendReply(s, queryId, None, text, now, NoFault);
      && o.result.Success?
      && o.store.userNotifications == s.userNotifications
      && |Lookup(o.store.queries, queryId).value.replies| == |Lookup(s.queries, queryId).value.replies| + 1
  {
    var o := SendReply(s, queryId, None, text, now, NoFault);
    forall uid ensures Inbox(o.store, uid) == Inbox(s, uid) {}
  }

  /** A failed reply write sends no notification, whatever the owner. */
  lemma FailedReplyNotifiesNobody(s: Store, queryId: string, memberId: Option<string>, text: string, now: nat)
    requires queryId in Keys(s.queries) && |text| <= 500
    ensures SendReply(s, queryId, memberId, text, now, FailAt(StepWriteReply)).store == s
  {
  }

  /**
   * The leaking-tap example: the member's query, the admin's answer and the
   * member's notification. (The texts are parameters pinned by the
   * precondition so that the verifier does not unfold `trim` on literals.)
   */
  lemma LeakScenario(s: Store, subject: string, message: string, text: string)
    requires subject == "Leak" && message == "Kitchen tap leaking" && text == "Plumber dispatched"
    ensures var s1 := SubmitQuery(s, Some("u1"), None, subject, message, 1000, "q1", NoFault).store;
            var o := SendReply(s1, "q1", Some("u1"), text, 2000, NoFault);
      && o.result.Success?
      && Lookup(o.store.queries, "q1").value.subject == "Leak"
      && Lookup(o.store.queries, "q1").value.replies == [Reply("Plumber dispatched", 2000, "admin")]
      && Inbox(o.store, "u1") == Inbox(s, "u1") + [Notification("query_reply", "Admin Reply to Your Query",
           "Plumber dispatched", 2000, false, QueryReply("q1", "admin"))]
  {
    TrimOfTrimmed(subject);
    TrimOfTrimmed(message);
    TrimOfTrimmed(text);
    ReplyReachesAsker(s, Some("u1"), None, subject, message, "q1", text, 1000, 2000);
  }

  /** The partial-payment example: dues 5000 and paid 10000, then a receipt for 2000. */
  lemma PartialPaymentScenario(s: Store, key: string, env: Env)
    requires ValidEnv(env)
    requires Lookup(s.users, key).Some?
    requires Lookup(s.users, key).value.dues == Some(5000) && Lookup(s.users, key).value.paid == Some(10000)
    ensures var m := ToMember(key, Lookup(s.users, key).value);
            var o := CreateReceipt(s, Some(m), Some(2000), "cash", "", env, NoFault);
      && o.result.Success?
      && Lookup(o.store.users, key).value.dues == Some(3000)
      && Lookup(o.store.users, key).value.paid == Some(12000)
      && o.store.recentPayments[|s.recentPayments|].previousDue == 5000
      && o.store.recentPayments[|s.recentPayments|].remainingDue == 3000
      && o.store.recentPayments[|s.recentPayments|].note == "Paid in cash"
  {
  }
}

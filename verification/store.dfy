/**
 * The realtime store the three handlers read and write, and the records kept
 * in it. Paths: `users`, `queries` (with `queries/<id>/replies`),
 * `recentPayments`, `adminNotifications`, `userNotifications/<uid>`.
 */
module Store {
  import opened Wrappers
  import opened Table

  /** A raw `users/<uid>` record; `extra` stands for every field this core never reads. */
  datatype User = User(
    role: Option<string>,
    fullName: Option<string>,
    name: Option<string>,
    displayName: Option<string>,
    flatNumber: Option<string>,
    flat: Option<string>,
    email: Option<string>,
    dues: Option<int>,
    paid: Option<int>,
    lastPayment: Option<int>,
    extra: map<string, string>)

  /** The `{}` a read of a missing user yields. */
  const EmptyUser := User(None, None, None, None, None, None, None, None, None, None, map[])

  /** One admin answer under `queries/<id>/replies`. */
  datatype Reply = Reply(message: string, timestamp: int, from: string)

  /** A `queries/<id>` record. `status` is kept as the stored string. */
  datatype Query = Query(
    uid: Option<string>,
    memberName: string,
    email: string,
    flat: string,
    subject: string,
    message: string,
    status: string,
    timestamp: Option<int>,
    resolvedAt: Option<int>,
    replies: seq<Reply>)

  /** A `recentPayments` ledger entry written by a manual receipt. */
  datatype Receipt = Receipt(
    uid: string,
    email: string,
    name: string,
    member: string,
    flat: string,
    amount: int,
    paymentMethod: string,
    note: string,
    receipt: string,
    date: string,
    createdAt: int,
    previousDue: int,
    remainingDue: int,
    status: string,
    createdBy: string)

  /** The fields that depend on the kind of notification. */
  datatype Context =
    | QueryReply(queryId: string, from: string)
    | Payment(amount: int, memberName: string, flat: string)

  datatype Notification = Notification(
    kind: string,
    title: string,
    message: string,
    timestamp: int,
    read: bool,
    context: Context)

  datatype Store = Store(
    users: Table<User>,
    queries: Table<Query>,
    recentPayments: seq<Receipt>,
    adminNotifications: seq<Notification>,
    userNotifications: map<string, seq<Notification>>)

  /** The contents of `userNotifications/<uid>`; a missing inbox reads as empty. */
  function Inbox(s: Store, uid: string): seq<Notification> {
    if uid in s.userNotifications then s.userNotifications[uid] else []
  }

  /** Appends one notification to a member's inbox (a push under `userNotifications/<uid>`). */
  function NotifyMember(s: Store, uid: string, n: Notification): (s': Store)
    ensures Inbox(s', uid) == Inbox(s, uid) + [n]
    ensures forall other :: other != uid ==> Inbox(s', other) == Inbox(s, other)
    ensures s'.(userNotifications := s.userNotifications) == s
  {
    s.(userNotifications := s.userNotifications[uid := Inbox(s, uid) + [n]])
  }

  /** Why a handler refused its input before writing anything. */
  datatype Invalid =
    | SubjectRequired
    | MessageRequired
    | EmptyReply
    | NoMemberSelected
    | InvalidAmount

  datatype Error =
    | Rejected(why: Invalid)
    | OperationFailed(step: nat)

  /**
   * Which store call fails, if any: `FailAt(k)` makes the k-th awaited store
   * call of a handler throw (steps are numbered from 1 in program order).
   */
  datatype Fault = NoFault | FailAt(step: nat)

  /** The store after a handler ran, and what it reported. Nothing is rolled back on failure. */
  datatype Outcome<+T> = Outcome(store: Store, result: Result<T, Error>)
}

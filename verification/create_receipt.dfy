/**
 * The admin's manual receipt: the member directory projected from `users`,
 * the member search, the amount prefilled on selection, and the handler that
 * writes the receipt, updates the member's balances and notifies the admins.
 */
module Receipts {
  import opened Wrappers
  import opened Table
  import opened Seqs
  import opened JsText
  import opened Store

  /** A directory entry: a user with role "member", with display defaults filled in. */
  datatype Member = Member(id: string, name: string, flat: string, email: string, dues: int)

  predicate IsMemberRow(row: Row<User>) {
    row.value.role == Some("member")
  }

  /** The directory entry for user `key`. */
  function ToMember(key: string, u: User): Member {
    Member(
      id := key,
      name := FirstPresent([u.fullName, u.name, u.displayName], "Unknown"),
      flat := FirstPresent([u.flatNumber, u.flat], "N/A"),
      email := FirstPresent([u.email], ""),
      dues := u.dues.GetOr(0))
  }

  /** The ids of a list of directory entries, in list order. */
  function Ids(ms: seq<Member>): (ids: seq<string>)
    ensures |ids| == |ms|
    ensures forall i :: 0 <= i < |ms| ==> ids[i] == ms[i].id
  {
    if ms == [] then [] else [ms[0].id] + Ids(ms[1..])
  }

  /** The member directory: the users with role "member", in store order. */
  function ProjectMembers(users: Table<User>): (ms: seq<Member>)
    ensures |ms| <= |users|
    ensures forall m :: m in ms ==> m.id in Keys(users)
    ensures forall m :: m in ms ==> m.name != "" && m.flat != ""
    ensures IsSubsequence(Ids(ms), KeySeq(users))
  {
    if users == [] then []
    else
      var rest := ProjectMembers(users[1..]);
      assert KeySeq(users)[1..] == KeySeq(users[1..]);
      if IsMemberRow(users[0]) then
        var ms := [ToMember(users[0].key, users[0].value)] + rest;
        assert ms[1..] == rest;
        assert forall m :: m in ms ==> m in rest || m == ToMember(users[0].key, users[0].value);
        ms
      else
        SubsequenceOfTail(Ids(rest), KeySeq(users));
        rest
  }

  /** With unique store keys, the directory lists each member once: no two entries share an id. */
  lemma DirectoryListsEachMemberOnce(users: Table<User>)
    requires UniqueKeys(users)
    ensures var ms := ProjectMembers(users);
      forall i, j :: 0 <= i < j < |ms| ==> ms[i].id != ms[j].id
  {
    var ms := ProjectMembers(users);
    assert Distinct(KeySeq(users));
    SubsequenceOfDistinct(Ids(ms), KeySeq(users));
    assert forall i :: 0 <= i < |ms| ==> Ids(ms)[i] == ms[i].id;
  }

  /** Every directory entry is the projection of a stored member record. */
  lemma {:induction false} ProjectedIsStoredMember(users: Table<User>, m: Member)
    requires UniqueKeys(users) && m in ProjectMembers(users)
    ensures Lookup(users, m.id).Some?
    ensures var u := Lookup(users, m.id).value; u.role == Some("member") && m == ToMember(m.id, u)
  {
    var rest := ProjectMembers(users[1..]);
    if IsMemberRow(users[0]) && m == ToMember(users[0].key, users[0].value) {
    } else {
      assert m in rest;
      ProjectedIsStoredMember(users[1..], m);
      assert users[0].key != m.id by {
        assert m.id in Keys(users[1..]);
        KeyInTail(users, m.id);
      }
    }
  }

  /** Every stored member record appears in the directory. */
  lemma {:induction false} StoredMemberIsProjected(users: Table<User>, key: string)
    requires Lookup(users, key).Some? && Lookup(users, key).value.role == Some("member")
    ensures ToMember(key, Lookup(users, key).value) in ProjectMembers(users)
  {
    if users[0].key != key {
      StoredMemberIsProjected(users[1..], key);
    }
  }

  /** The directory fields fall back in the stated order; dues default to 0. */
  lemma ToMemberFallbacks(key: string, u: User)
    ensures var m := ToMember(key, u);
      && m.id == key
      && m.name == (if Truthy(u.fullName) then u.fullName.value else if Truthy(u.name) then u.name.value
                    else if Truthy(u.displayName) then u.displayName.value else "Unknown")
      && m.flat == (if Truthy(u.flatNumber) then u.flatNumber.value else if Truthy(u.flat) then u.flat.value else "N/A")
      && m.email == (if Truthy(u.email) then u.email.value else "")
      && m.dues == (if u.dues.Some? then u.dues.value else 0)
  {
    FirstOfThree(u.fullName, u.name, u.displayName, "Unknown");
    FirstOfTwo(u.flatNumber, u.flat, "N/A");
  }

  /** Whether the search box text `term` finds `m`: a case-insensitive substring of its name, flat or email. */
  predicate Matches(m: Member, term: string) {
    var t := ToLower(term);
    Includes(ToLower(m.name), t) || Includes(ToLower(m.flat), t) || Includes(ToLower(m.email), t)
  }

  function SearchFor(term: string): Member -> bool {
    m => Matches(m, term)
  }

  /** The members listed under the search box. */
  function FilterMembers(ms: seq<Member>, term: string): (r: seq<Member>)
    ensures forall m :: m in r <==> m in ms && Matches(m, term)
    ensures forall m :: multiset(r)[m] == if Matches(m, term) then multiset(ms)[m] else 0
    ensures IsSubsequence(r, ms)
  {
    Filter(ms, SearchFor(term))
  }

  /** An empty search lists every member, in order. */
  lemma FilterMembersEmptyTerm(ms: seq<Member>)
    ensures FilterMembers(ms, "") == ms
  {
    forall m | m in ms ensures SearchFor("")(m) {
      IncludesEmpty(ToLower(m.name));
    }
    FilterAllPass(ms, SearchFor(""));
  }

  lemma {:induction false} FilterAgreeing<T(!new)>(xs: seq<T>, p: T -> bool, q: T -> bool)
    requires forall x :: x in xs ==> p(x) == q(x)
    ensures Filter(xs, p) == Filter(xs, q)
  {
    if xs != [] {
      FilterAgreeing(xs[1..], p, q);
    }
  }

  /** The search ignores the case of the term. */
  lemma FilterMembersIgnoresCase(ms: seq<Member>, term: string)
    ensures FilterMembers(ms, ToLower(term)) == FilterMembers(ms, term)
  {
    ToLowerIdempotent(term);
    FilterAgreeing(ms, SearchFor(ToLower(term)), SearchFor(term));
  }

  /** `!amount || Number(amount) <= 0` fails: an amount field that is filled in and positive. `None` is the empty field. */
  predicate ValidAmount(amount: Option<int>) {
    amount.Some? && amount.value > 0
  }

  /** The amount field after picking `m`: its dues when positive, otherwise empty. */
  function PrefillAmount(m: Member): (a: Option<int>)
    ensures ValidAmount(a) <==> m.dues > 0
    ensures a.Some? ==> a.value == m.dues
    ensures a.None? <==> m.dues <= 0
  {
    if m.dues > 0 then Some(m.dues) else None
  }

  /** `Math.floor(r * 9000 + 1000)` for `r = num / den`, a fraction in [0, 1). */
  function RandomSuffix(num: nat, den: nat): (n: nat)
    requires num < den
    ensures 1000 <= n <= 9999
  {
    var k := num * 9000 / den;
    assert k < 9000 by {
      assert num * 9000 < den * 9000;
    }
    k + 1000
  }

  /** The receipt number `RCPT-<now>-<suffix>`. */
  function ReceiptId(now: nat, suffix: nat): string {
    "RCPT-" + NatToString(now) + "-" + NatToString(suffix)
  }

  /** Reads the time and suffix back out of a receipt number. */
  function ParseReceiptId(id: string): Option<(nat, nat)> {
    if |id| < 5 || id[..5] != "RCPT-" then None
    else
      var rest := id[5..];
      match IndexOf(rest, '-')
      case None => None
      case Some(i) =>
        var time, suffix := rest[..i], rest[i + 1..];
        if time != [] && suffix != [] && AllDigits(time) && AllDigits(suffix)
        then Some((ParseDigits(time), ParseDigits(suffix)))
        else None
  }

  /** A receipt number determines the time and suffix it was made from. */
  lemma ReceiptIdRoundTrip(now: nat, suffix: nat)
    ensures ParseReceiptId(ReceiptId(now, suffix)) == Some((now, suffix))
  {
    var id := ReceiptId(now, suffix);
    var t, x := NatToString(now), NatToString(suffix);
    var rest := t + "-" + x;
    assert id == "RCPT-" + rest;
    assert id[..5] == "RCPT-" && id[5..] == rest;
    assert rest[|t|] == '-';
    assert forall j :: 0 <= j < |t| ==> rest[j] == t[j] && rest[j] != '-';
    assert IndexOf(rest, '-') == Some(|t|);
    assert rest[..|t|] == t;
    assert rest[|t| + 1..] == x;
    ParseNatToString(now);
    ParseNatToString(suffix);
  }

  /** Two receipt numbers collide exactly when made in the same millisecond with the same suffix. */
  lemma ReceiptIdCollision(now1: nat, suffix1: nat, now2: nat, suffix2: nat)
    ensures ReceiptId(now1, suffix1) == ReceiptId(now2, suffix2) <==> now1 == now2 && suffix1 == suffix2
  {
    if ReceiptId(now1, suffix1) == ReceiptId(now2, suffix2) {
      ReceiptIdRoundTrip(now1, suffix1);
      ReceiptIdRoundTrip(now2, suffix2);
    }
  }

  /** A generated receipt number is `RCPT-`, the time, `-` and exactly four digits. */
  lemma GeneratedReceiptIdShape(now: nat, num: nat, den: nat)
    requires num < den
    ensures var id := ReceiptId(now, RandomSuffix(num, den));
      && id[..5] == "RCPT-"
      && |id| == 5 + |NatToString(now)| + 1 + 4
      && id[|id| - 5] == '-'
      && AllDigits(id[|id| - 4..])
  {
    FourDigits(RandomSuffix(num, den));
  }

  /** The fallback note for each payment method. */
  function DefaultNote(paymentMethod: string): string {
    if paymentMethod == "cash" then "Paid in cash"
    else if paymentMethod == "upi" then "Paid via UPI"
    else if paymentMethod == "card" then "Paid via Card"
    else if paymentMethod == "bank_transfer" then "Bank Transfer"
    else "Payment received"
  }

  /** `methodDetails.note`: the admin's note when one was typed, the method's default otherwise. */
  function MethodNote(paymentMethod: string, notes: string): (note: string)
    ensures notes != "" ==> note == notes
    ensures notes == "" ==> note == DefaultNote(paymentMethod)
    ensures note != ""
  {
    if notes != "" then notes else DefaultNote(paymentMethod)
  }

  /** `Math.max(0, x)`. */
  function Max0(x: int): int {
    if x > 0 then x else 0
  }

  /** The partial update of `users/<id>` after a payment of `amount` at `now`. */
  function ApplyPayment(u: User, amount: int, now: nat): User {
    u.(dues := Some(Max0(u.dues.GetOr(0) - amount)),
       paid := Some(u.paid.GetOr(0) + amount),
       lastPayment := Some(now))
  }

  /**
   * A payment lowers the dues by the amount but not below zero, adds the
   * amount to what was paid, stamps the payment time and leaves every other
   * field alone. Dues plus paid grow only by the overpayment.
   */
  lemma ApplyPaymentBalances(u: User, amount: int, now: nat)
    requires amount > 0
    ensures var u' := ApplyPayment(u, amount, now);
            var dues, paid := u.dues.GetOr(0), u.paid.GetOr(0);
      && u'.dues.Some? && u'.paid.Some? && u'.lastPayment == Some(now)
      && u'.dues.value >= 0
      && (dues >= 0 ==> u'.dues.value <= dues)
      && (dues > 0 ==> u'.dues.value < dues)
      && (amount <= dues ==> u'.dues.value == dues - amount)
      && (amount >= dues ==> u'.dues.value == 0)
      && u'.paid.value > paid
      && u'.paid.value == paid + amount
      && (dues >= 0 ==> u'.dues.value + u'.paid.value == dues + paid + Max0(amount - dues))
      && u'.(dues := u.dues, paid := u.paid, lastPayment := u.lastPayment) == u
  {
  }

  /** What the admin screen supplies besides the form: the clock, the date label and `Math.random()` as `num / den`. */
  datatype Env = Env(now: nat, today: string, num: nat, den: nat)

  predicate ValidEnv(env: Env) {
    env.num < env.den
  }

  /** The ledger entry for a payment of `amount` by `m`. */
  function MakeReceipt(m: Member, amount: int, paymentMethod: string, notes: string, id: string, env: Env): Receipt {
    Receipt(
      uid := m.id, email := m.email, name := m.name, member := m.name, flat := m.flat,
      amount := amount, paymentMethod := paymentMethod, note := MethodNote(paymentMethod, notes),
      receipt := id, date := env.today, createdAt := env.now,
      previousDue := m.dues, remainingDue := Max0(m.dues - amount),
      status := "completed", createdBy := "admin")
  }

  /** The balances a receipt records: what was due, and what is left, never below zero. */
  lemma ReceiptBalances(m: Member, amount: int, paymentMethod: string, notes: string, id: string, env: Env)
    requires amount > 0
    ensures var r := MakeReceipt(m, amount, paymentMethod, notes, id, env);
      && r.previousDue == m.dues
      && r.remainingDue >= 0
      && (m.dues >= 0 ==> r.remainingDue <= r.previousDue)
      && (amount <= r.previousDue ==> r.remainingDue == r.previousDue - amount)
      && (amount >= r.previousDue ==> r.remainingDue == 0)
  {
  }

  /** The `₹` sign. */
  const RupeeSign: char := 0x20B9 as char

  /** The admin notification announcing a manual receipt. */
  function PaymentNotification(id: string, m: Member, amount: nat, now: nat): Notification {
    Notification(
      "payment", "Manual Receipt Created",
      "Receipt " + id + " created for " + m.name + " (" + m.flat + ") - " + [RupeeSign] + FormatIndian(amount),
      now, false, Payment(amount, m.name, m.flat))
  }

  /**
   * The admin notification is an unread "payment" stamped now, carries the amount, name and flat,
   * opens with the receipt number, and ends with the `₹` sign followed by the amount, which reads
   * back once its grouping commas are dropped.
   */
  lemma PaymentNotificationContents(id: string, m: Member, amount: nat, now: nat) returns (k: nat)
    ensures var n := PaymentNotification(id, m, amount, now);
      && n.kind == "payment" && n.title == "Manual Receipt Created"
      && n.timestamp == now && !n.read
      && n.context == Payment(amount, m.name, m.flat)
      && |"Receipt " + id| <= |n.message| && n.message[..|"Receipt " + id|] == "Receipt " + id
      && k < |n.message| && n.message[k] == RupeeSign
      && AllDigits(RemoveCommas(n.message[k + 1..]))
      && ParseDigits(RemoveCommas(n.message[k + 1..])) == amount
  {
    var n := PaymentNotification(id, m, amount, now);
    var head := "Receipt " + id + " created for " + m.name + " (" + m.flat + ") - ";
    assert n.message == head + [RupeeSign] + FormatIndian(amount);
    k := |head|;
    assert n.message[k + 1..] == FormatIndian(amount);
    assert n.message[..|"Receipt " + id|] == "Receipt " + id;
    FormatIndianUngroups(amount);
    ParseNatToString(amount);
  }

  /** The four store calls of a receipt, in order. */
  const StepWriteReceipt := 1
  const StepReadMember := 2
  const StepUpdateMember := 3
  const StepNotifyAdmin := 4

  /** Whether the store call numbered `step` completes: no call up to and including it fails. */
  predicate Completes(fault: Fault, step: nat) {
    !(fault.FailAt? && 1 <= fault.step <= step)
  }

  /**
   * Creating a receipt for `selected` (the picked directory entry, if any)
   * with the amount field `amount`. The notes box holds at most 200 characters.
   */
  function CreateReceipt(s: Store, selected: Option<Member>, amount: Option<int>, paymentMethod: string,
                         notes: string, env: Env, fault: Fault): (o: Outcome<string>)
    requires ValidEnv(env)
    requires |notes| <= 200
    ensures selected.None? ==> o == Outcome(s, Failure(Rejected(NoMemberSelected)))
    ensures selected.Some? && !ValidAmount(amount) ==> o == Outcome(s, Failure(Rejected(InvalidAmount)))
    ensures o.result.Success? <==> selected.Some? && ValidAmount(amount) && Completes(fault, StepNotifyAdmin)
    ensures selected.Some? && ValidAmount(amount) ==>
      var m, a := selected.value, amount.value;
      var id := ReceiptId(env.now, RandomSuffix(env.num, env.den));
      && o.store.recentPayments == s.recentPayments
           + (if Completes(fault, StepWriteReceipt) then [MakeReceipt(m, a, paymentMethod, notes, id, env)] else [])
      && o.store.users == (if Completes(fault, StepUpdateMember)
                           then Put(s.users, m.id, ApplyPayment(Lookup(s.users, m.id).GetOr(EmptyUser), a, env.now))
                           else s.users)
      && o.store.adminNotifications == s.adminNotifications
           + (if Completes(fault, StepNotifyAdmin) then [PaymentNotification(id, m, a, env.now)] else [])
      && (o.result.Success? ==> o.result.value == id)
      && (o.result.Failure? ==> o.result.error == OperationFailed(fault.step))
    ensures o.store.queries == s.queries && o.store.userNotifications == s.userNotifications
  {
    if selected.None? then Outcome(s, Failure(Rejected(NoMemberSelected)))
    else if !ValidAmount(amount) then Outcome(s, Failure(Rejected(InvalidAmount)))
    else
      var m, a := selected.value, amount.value;
      var id := ReceiptId(env.now, RandomSuffix(env.num, env.den));
      if fault == FailAt(StepWriteReceipt) then Outcome(s, Failure(OperationFailed(StepWriteReceipt)))
      else
        var s1 := s.(recentPayments := s.recentPayments + [MakeReceipt(m, a, paymentMethod, notes, id, env)]);
        if fault == FailAt(StepReadMember) then Outcome(s1, Failure(OperationFailed(StepReadMember)))
        else
          var current := Lookup(s1.users, m.id).GetOr(EmptyUser);
          if fault == FailAt(StepUpdateMember) then Outcome(s1, Failure(OperationFailed(StepUpdateMember)))
          else
            var s2 := s1.(users := Put(s1.users, m.id, ApplyPayment(current, a, env.now)));
            if fault == FailAt(StepNotifyAdmin) then Outcome(s2, Failure(OperationFailed(StepNotifyAdmin)))
            else
              var s3 := s2.(adminNotifications := s2.adminNotifications + [PaymentNotification(id, m, a, env.now)]);
              Outcome(s3, Success(id))
  }

  /** A receipt keeps the user ids unique: the member update writes at the member's own key. */
  lemma CreateReceiptKeepsKeysUnique(s: Store, selected: Option<Member>, amount: Option<int>, paymentMethod: string,
                                     notes: string, env: Env, fault: Fault)
    requires ValidEnv(env) && |notes| <= 200
    requires UniqueKeys(s.users)
    ensures UniqueKeys(CreateReceipt(s, selected, amount, paymentMethod, notes, env, fault).store.users)
  {
    if selected.Some? && ValidAmount(amount) {
      var m := selected.value;
      PutUnique(s.users, m.id, ApplyPayment(Lookup(s.users, m.id).GetOr(EmptyUser), amount.value, env.now));
    }
  }

  /**
   * When the picked entry is the current projection of the stored member, the
   * receipt's remaining due is exactly the member's new dues, and its previous
   * due the member's old dues.
   */
  lemma ReceiptAgreesWithLedger(s: Store, key: string, amount: int, paymentMethod: string, notes: string, env: Env)
    requires ValidEnv(env) && |notes| <= 200 && amount > 0
    requires Lookup(s.users, key).Some?
    ensures var u := Lookup(s.users, key).value;
            var o := CreateReceipt(s, Some(ToMember(key, u)), Some(amount), paymentMethod, notes, env, NoFault);
      && o.result.Success?
      && |o.store.recentPayments| == |s.recentPayments| + 1
      && var r := o.store.recentPayments[|s.recentPayments|];
         && Lookup(o.store.users, key).Some?
         && r.previousDue == u.dues.GetOr(0)
         && Lookup(o.store.users, key).value.dues == Some(r.remainingDue)
  {
  }

  /** Paying the prefilled amount for a member with positive dues settles them: nothing remains due. */
  lemma PrefilledPaymentSettles(s: Store, key: string, paymentMethod: string, notes: string, env: Env)
    requires ValidEnv(env) && |notes| <= 200
    requires Lookup(s.users, key).Some? && Lookup(s.users, key).value.dues.GetOr(0) > 0
    ensures var u := Lookup(s.users, key).value;
            var m := ToMember(key, u);
            var o := CreateReceipt(s, Some(m), PrefillAmount(m), paymentMethod, notes, env, NoFault);
      && o.result.Success?
      && Lookup(o.store.users, key).Some?
      && Lookup(o.store.users, key).value.dues == Some(0)
      && Lookup(o.store.users, key).value.paid == Some(u.paid.GetOr(0) + u.dues.value)
  {
  }
}

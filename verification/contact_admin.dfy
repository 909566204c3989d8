/** A member sends a query to the admin: validation, then one new record under `queries`. */
module ContactAdmin {
  import opened Wrappers
  import opened Table
  import opened JsText
  import opened Store

  /** The `maxLength` of the subject input. */
  const SubjectMaxLength := 100
  /** The `maxLength` of the message textarea. */
  const MessageMaxLength := 1000

  /** The one store call of a submission. */
  const StepWriteQuery := 1

  /**
   * The record written for a submission by `uid` with profile `profile`:
   * identity fields are copied from the profile at submission time.
   */
  function NewQuery(uid: Option<string>, profile: Option<User>, subject: string, message: string, now: nat): Query {
    var p := profile.GetOr(EmptyUser);
    Query(
      uid := Present(uid),
      memberName := FirstPresent([p.fullName, p.name, p.displayName], "Unknown Member"),
      email := FirstPresent([p.email], ""),
      flat := FirstPresent([p.flatNumber, p.flat], "N/A"),
      subject := Trim(subject),
      message := Trim(message),
      status := "open",
      timestamp := Some(now),
      resolvedAt := None,
      replies := [])
  }

  /**
   * Submitting the contact form. `key` is the key `push` generates for the
   * new child of `queries`.
   */
  function SubmitQuery(s: Store, uid: Option<string>, profile: Option<User>, subject: string, message: string,
                       now: nat, key: string, fault: Fault): (o: Outcome<string>)
    requires |subject| <= SubjectMaxLength && |message| <= MessageMaxLength
    ensures Trim(subject) == "" ==> o == Outcome(s, Failure(Rejected(SubjectRequired)))
    ensures Trim(subject) != "" && Trim(message) == "" ==> o == Outcome(s, Failure(Rejected(MessageRequired)))
    ensures Trim(subject) != "" && Trim(message) != "" && fault == FailAt(StepWriteQuery) ==>
      o.result == Failure(OperationFailed(StepWriteQuery))
    ensures o.result.Failure? ==> o.store == s
    ensures o.result.Success? <==> Trim(subject) != "" && Trim(message) != "" && fault != FailAt(StepWriteQuery)
    ensures o.result.Success? ==>
      && o.result.value == key
      && Lookup(o.store.queries, key) == Some(NewQuery(uid, profile, subject, message, now))
      && (forall other :: other != key ==> Lookup(o.store.queries, other) == Lookup(s.queries, other))
      && (key !in Keys(s.queries) ==> o.store.queries == s.queries + [Row(key, NewQuery(uid, profile, subject, message, now))])
      && o.store.(queries := s.queries) == s
  {
    if Trim(subject) == "" then Outcome(s, Failure(Rejected(SubjectRequired)))
    else if Trim(message) == "" then Outcome(s, Failure(Rejected(MessageRequired)))
    else if fault == FailAt(StepWriteQuery) then Outcome(s, Failure(OperationFailed(StepWriteQuery)))
    else
      var q := NewQuery(uid, profile, subject, message, now);
      Outcome(s.(queries := Put(s.queries, key, q)), Success(key))
  }

  /** Submitting keeps the query keys unique. */
  lemma SubmitQueryKeepsKeysUnique(s: Store, uid: Option<string>, profile: Option<User>, subject: string, message: string,
                                   now: nat, key: string, fault: Fault)
    requires |subject| <= SubjectMaxLength && |message| <= MessageMaxLength
    requires UniqueKeys(s.queries)
    ensures UniqueKeys(SubmitQuery(s, uid, profile, subject, message, now, key, fault).store.queries)
  {
    PutUnique(s.queries, key, NewQuery(uid, profile, subject, message, now));
  }

  /**
   * A new query is open, stamped `now`, unresolved and unanswered; its subject
   * and message are the trimmed inputs, non-empty and within their limits.
   */
  lemma NewQueryShape(uid: Option<string>, profile: Option<User>, subject: string, message: string, now: nat)
    requires |subject| <= SubjectMaxLength && |message| <= MessageMaxLength
    requires Trim(subject) != "" && Trim(message) != ""
    ensures var q := NewQuery(uid, profile, subject, message, now);
      && q.status == "open" && q.timestamp == Some(now) && q.resolvedAt == None && q.replies == []
      && q.subject != "" && Trimmed(q.subject) && |q.subject| <= SubjectMaxLength
      && q.message != "" && Trimmed(q.message) && |q.message| <= MessageMaxLength
      && q.memberName != "" && q.flat != ""
  {
  }

  /** The stored subject and message are already trimmed: trimming them again changes nothing. */
  lemma NewQueryKeepsText(uid: Option<string>, profile: Option<User>, subject: string, message: string, now: nat)
    ensures var q := NewQuery(uid, profile, subject, message, now);
      Trim(q.subject) == q.subject && Trim(q.message) == q.message
  {
    TrimIdempotent(subject);
    TrimIdempotent(message);
  }

  /** The identity snapshot: the owner is the caller or none, and each shown field falls back in the stated order. */
  lemma NewQueryIdentity(uid: Option<string>, profile: Option<User>, subject: string, message: string, now: nat)
    ensures var q := NewQuery(uid, profile, subject, message, now);
            var p := profile.GetOr(EmptyUser);
      && (q.uid.Some? <==> Truthy(uid)) && (q.uid.Some? ==> q.uid == uid)
      && (Truthy(p.fullName) ==> q.memberName == p.fullName.value)
      && (!Truthy(p.fullName) && Truthy(p.name) ==> q.memberName == p.name.value)
      && (!Truthy(p.fullName) && !Truthy(p.name) && Truthy(p.displayName) ==> q.memberName == p.displayName.value)
      && (!Truthy(p.fullName) && !Truthy(p.name) && !Truthy(p.displayName) ==> q.memberName == "Unknown Member")
      && (Truthy(p.flatNumber) ==> q.flat == p.flatNumber.value)
      && (!Truthy(p.flatNumber) && Truthy(p.flat) ==> q.flat == p.flat.value)
      && (!Truthy(p.flatNumber) && !Truthy(p.flat) ==> q.flat == "N/A")
      && (q.email == if Truthy(p.email) then p.email.value else "")
      && (profile.None? ==> q.memberName == "Unknown Member" && q.flat == "N/A" && q.email == "")
  {
    var p := profile.GetOr(EmptyUser);
    FirstOfThree(p.fullName, p.name, p.displayName, "Unknown Member");
    FirstOfTwo(p.flatNumber, p.flat, "N/A");
  }
}

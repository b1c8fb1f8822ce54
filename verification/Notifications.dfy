/** The notification pipeline: a queue of jobs with three attempts, a worker that inserts the rows and
    then publishes, and the event streams that count unread notifications. */
module Notifications {
  import opened Schema

  datatype Payload =
    | GenericModerator
    | TicketParticipant(recipientId: int)

  /** A job: `failures` counts the attempts that threw; Inserted and Delivered follow a successful insert. */
  datatype Job =
    | Waiting(payload: Payload, failures: nat)
    | Active(payload: Payload, failures: nat)
    | Inserted(payload: Payload, failures: nat)
    | Completed(payload: Payload, failures: nat, published: bool)
    | Dead(payload: Payload, failures: nat)

  /** A notification row; its position is its age. */
  datatype Row = Row(recipient: int, isRead: bool)

  /** The `/notification/count` stream of one user. Counted: the count query has run, its promise has not
      resolved. Live: the count was sent and the stream is subscribed; `sent` sums the events so far. */
  datatype Stream =
    | Counted(user: int, count: nat)
    | Live(user: int, sent: nat)

  /** `users` are the existing accounts, `moderators` those with that role in the order the insert scans them. */
  datatype State = State(
    users: set<int>,
    moderators: seq<int>,
    jobs: seq<Job>,
    rows: seq<Row>,
    streams: map<int, Stream>)

  /** app.module.ts: attempts: 3. notification.processor.ts: concurrency: 5. */
  const ATTEMPTS: nat := 3
  const CONCURRENCY: nat := 5

  // ---------------------------------------------------------------- addressing

  function UnreadRows(recipients: seq<int>): seq<Row> {
    seq(|recipients|, i requires 0 <= i < |recipients| => Row(recipients[i], false))
  }

  /** The rows of one insert. */
  function Batch(s: State, p: Payload): seq<Row> {
    match p
    case GenericModerator => UnreadRows(s.moderators)
    case TicketParticipant(r) => UnreadRows([r])
  }

  /** The insert of this payload can succeed: `recipient_id` references an account. */
  predicate Insertable(s: State, p: Payload) {
    p.TicketParticipant? ==> p.recipientId in s.users
  }

  /** The stream filter: the session's role for a generic message, the id otherwise. */
  predicate Passes(p: Payload, user: int, isModerator: bool) {
    match p
    case GenericModerator => isModerator
    case TicketParticipant(r) => r == user
  }

  predicate PassesFor(s: State, p: Payload, user: int) {
    Passes(p, user, user in s.moderators)
  }

  function RowsFor(rows: seq<Row>, user: int): nat {
    if rows == [] then 0
    else RowsFor(rows[..|rows| - 1], user) + if rows[|rows| - 1].recipient == user then 1 else 0
  }

  function UnreadFor(rows: seq<Row>, user: int): nat {
    if rows == [] then 0
    else UnreadFor(rows[..|rows| - 1], user) +
         if rows[|rows| - 1].recipient == user && !rows[|rows| - 1].isRead then 1 else 0
  }

  // ---------------------------------------------------------------- the protocol

  datatype Event =
    | Enqueue(payload: Payload)
    | Start(job: int)          // a worker slot takes the job
    | Insert(job: int)         // the insert commits
    | InsertFails(job: int)    // it throws: the attempt is over, with no row written
    | LostReply(job: int)      // it commits but the worker sees an error: the attempt is over, with the rows written
    | Publish(job: int)        // the message reaches every live stream; the job completes
    | PublishFails(job: int)   // the failure is logged; the job completes all the same
    | CountQuery(id: int, user: int)  // a new stream's count query takes its snapshot
    | Subscribe(id: int)       // its promise resolves: the count is sent, then the subject is subscribed
    | CloseStream(id: int)
    | MarkRead(ids: set<int>)

  predicate IsPostInsert(j: Job) {
    j.Inserted? || j.Completed?
  }

  function ActiveJobs(s: State): set<int> {
    set i | 0 <= i < |s.jobs| && (s.jobs[i].Active? || s.jobs[i].Inserted?)
  }

  predicate Enabled(s: State, e: Event) {
    match e
    case Enqueue(_) => true
    case Start(j) => 0 <= j < |s.jobs| && s.jobs[j].Waiting? && |ActiveJobs(s)| < CONCURRENCY
    case Insert(j) => 0 <= j < |s.jobs| && s.jobs[j].Active? && Insertable(s, s.jobs[j].payload)
    case InsertFails(j) => 0 <= j < |s.jobs| && s.jobs[j].Active?
    case LostReply(j) => 0 <= j < |s.jobs| && s.jobs[j].Active? && Insertable(s, s.jobs[j].payload)
    case Publish(j) => 0 <= j < |s.jobs| && s.jobs[j].Inserted?
    case PublishFails(j) => 0 <= j < |s.jobs| && s.jobs[j].Inserted?
    case CountQuery(id, _) => id !in s.streams
    case Subscribe(id) => id in s.streams && s.streams[id].Counted?
    case CloseStream(_) => true
    case MarkRead(ids) => true
  }

  /** A thrown attempt: back to the queue while attempts remain, else failed for good. */
  function Thrown(j: Job): Job {
    if j.failures + 1 < ATTEMPTS then Waiting(j.payload, j.failures + 1) else Dead(j.payload, j.failures + 1)
  }

  function Deliver(s: State, p: Payload): map<int, Stream> {
    map id | id in s.streams ::
      var st := s.streams[id];
      if st.Live? && PassesFor(s, p, st.user) then Live(st.user, st.sent + 1) else st
  }

  function Marked(rows: seq<Row>, ids: set<int>): seq<Row> {
    seq(|rows|, i requires 0 <= i < |rows| => if i in ids then rows[i].(isRead := true) else rows[i])
  }

  predicate Concerns(e: Event, job: int) {
    (e.Start? || e.Insert? || e.InsertFails? || e.LostReply? || e.Publish? || e.PublishFails?) && e.job == job
  }

  /** What a job becomes in an event that concerns it. */
  function NextJob(j: Job, e: Event): Job {
    match e
    case Start(_) => Active(j.payload, j.failures)
    case Insert(_) => Inserted(j.payload, j.failures)
    case InsertFails(_) => Thrown(j)
    case LostReply(_) => Thrown(j)
    case Publish(_) => Completed(j.payload, j.failures, true)
    case PublishFails(_) => Completed(j.payload, j.failures, false)
    case _ => j
  }

  function NextJobs(s: State, e: Event): seq<Job>
    requires Enabled(s, e)
  {
    if e.Enqueue? then s.jobs + [Waiting(e.payload, 0)]
    else seq(|s.jobs|, i requires 0 <= i < |s.jobs| => if Concerns(e, i) then NextJob(s.jobs[i], e) else s.jobs[i])
  }

  function NextRows(s: State, e: Event): seq<Row>
    requires Enabled(s, e)
  {
    match e
    case Insert(j) => s.rows + Batch(s, s.jobs[j].payload)
    case LostReply(j) => s.rows + Batch(s, s.jobs[j].payload)
    case MarkRead(ids) => Marked(s.rows, ids)
    case _ => s.rows
  }

  function NextStreams(s: State, e: Event): map<int, Stream>
    requires Enabled(s, e)
  {
    match e
    case Publish(j) => Deliver(s, s.jobs[j].payload)
    case CountQuery(id, user) => s.streams[id := Counted(user, UnreadFor(s.rows, user))]
    case Subscribe(id) => s.streams[id := Live(s.streams[id].user, s.streams[id].count)]
    case CloseStream(id) => s.streams - {id}
    case _ => s.streams
  }

  function Next(s: State, e: Event): State
    requires Enabled(s, e)
  {
    s.(jobs := NextJobs(s, e), rows := NextRows(s, e), streams := NextStreams(s, e))
  }

  predicate NoDuplicates(s: seq<int>) {
    forall i, j :: 0 <= i < j < |s| ==> s[i] != s[j]
  }

  ghost predicate Initial(s: State) {
    s.jobs == [] && s.rows == [] && s.streams == map[] && NoDuplicates(s.moderators)
  }

  ghost predicate Run(trace: seq<State>, events: seq<Event>) {
    && |trace| == |events| + 1
    && Initial(trace[0])
    && forall i :: 0 <= i < |events| ==> Enabled(trace[i], events[i]) && trace[i + 1] == Next(trace[i], events[i])
  }

  // ---------------------------------------------------------------- rows and jobs

  lemma {:induction false} RowsForConcat(a: seq<Row>, b: seq<Row>, user: int)
    ensures RowsFor(a + b, user) == RowsFor(a, user) + RowsFor(b, user)
  {
    if b == [] {
      assert a + b == a;
    } else {
      RowsForConcat(a, b[..|b| - 1], user);
      assert (a + b)[..|a + b| - 1] == a + b[..|b| - 1];
    }
  }

  lemma {:induction false} RowsForMarked(rows: seq<Row>, ids: set<int>, user: int)
    ensures RowsFor(Marked(rows, ids), user) == RowsFor(rows, user)
  {
    if rows != [] {
      RowsForMarked(rows[..|rows| - 1], ids, user);
      assert Marked(rows, ids)[..|rows| - 1] == Marked(rows[..|rows| - 1], ids);
    }
  }

  lemma {:induction false} OneRowEach(recipients: seq<int>, user: int)
    requires NoDuplicates(recipients)
    ensures RowsFor(UnreadRows(recipients), user) == if user in recipients then 1 else 0
  {
    if recipients != [] {
      var front := recipients[..|recipients| - 1];
      OneRowEach(front, user);
      assert UnreadRows(recipients)[..|recipients| - 1] == UnreadRows(front);
      assert recipients == front + [recipients[|recipients| - 1]];
    }
  }

  /** A generic message is for the moderators, a participant's for its recipient: for those, and for nobody
      else, the insert writes a row, one and unread, and the stream filter lets the message through. */
  lemma FilterAgreesWithInsert(s: State, p: Payload, user: int)
    requires NoDuplicates(s.moderators)
    ensures var addressed := match p case GenericModerator => user in s.moderators case TicketParticipant(r) => user == r;
            && RowsFor(Batch(s, p), user) == (if addressed then 1 else 0)
            && (PassesFor(s, p, user) <==> addressed)
    ensures forall row :: row in Batch(s, p) ==> !row.isRead
  {
    OneRowEach(if p.GenericModerator? then s.moderators else [p.recipientId], user);
  }

  /** The jobs past their insert that address the user. */
  ghost function PostInsert(s: State, user: int): set<int> {
    set i | 0 <= i < |s.jobs| && IsPostInsert(s.jobs[i]) && PassesFor(s, s.jobs[i].payload, user)
  }

  /** The lost replies so far whose rows went to the user. */
  function LostReplies(trace: seq<State>, events: seq<Event>, n: nat, user: int): nat
    requires n <= |events| && |trace| == |events| + 1
    requires forall i :: 0 <= i < |events| ==> Enabled(trace[i], events[i])
  {
    if n == 0 then 0
    else LostReplies(trace, events, n - 1, user) + if LosesReplyTo(trace[n - 1], events[n - 1], user) then 1 else 0
  }

  lemma {:induction false} AccountsAreFixed(trace: seq<State>, events: seq<Event>, n: nat)
    requires Run(trace, events) && n < |trace|
    ensures trace[n].moderators == trace[0].moderators && trace[n].users == trace[0].users
  {
    if n > 0 { AccountsAreFixed(trace, events, n - 1); }
  }

  lemma JobsAfter(s: State, e: Event)
    requires Enabled(s, e)
    ensures |s.jobs| <= |Next(s, e).jobs|
    ensures forall i :: 0 <= i < |s.jobs| ==>
              Next(s, e).jobs[i] == if Concerns(e, i) then NextJob(s.jobs[i], e) else s.jobs[i]
    ensures forall i :: |s.jobs| <= i < |Next(s, e).jobs| ==> Next(s, e).jobs[i].Waiting?
    ensures Next(s, e).moderators == s.moderators
  {
  }

  lemma PostInsertStep(s: State, e: Event, user: int)
    requires Enabled(s, e)
    ensures PostInsert(Next(s, e), user) ==
            PostInsert(s, user) + if e.Insert? && PassesFor(s, s.jobs[e.job].payload, user) then {e.job} else {}
    ensures e.Insert? ==> e.job !in PostInsert(s, user)
  {
    JobsAfter(s, e);
    var s' := Next(s, e);
    var entered := if e.Insert? && PassesFor(s, s.jobs[e.job].payload, user) then {e.job} else {};
    forall i ensures i in PostInsert(s', user) <==> i in PostInsert(s, user) + entered {
    }
  }

  predicate LosesReplyTo(s: State, e: Event, user: int)
    requires Enabled(s, e)
  {
    e.LostReply? && PassesFor(s, s.jobs[e.job].payload, user)
  }

  lemma RowsStep(s: State, e: Event, user: int)
    requires Enabled(s, e) && NoDuplicates(s.moderators)
    ensures RowsFor(Next(s, e).rows, user) ==
            RowsFor(s.rows, user) +
            if (e.Insert? || e.LostReply?) && PassesFor(s, s.jobs[e.job].payload, user) then 1 else 0
  {
    if e.Insert? || e.LostReply? {
      RowsForConcat(s.rows, Batch(s, s.jobs[e.job].payload), user);
      FilterAgreesWithInsert(s, s.jobs[e.job].payload, user);
    } else if e.MarkRead? {
      RowsForMarked(s.rows, e.ids, user);
    }
  }

  lemma ConservationStep(s: State, e: Event, user: int)
    requires Enabled(s, e) && NoDuplicates(s.moderators)
    ensures RowsFor(Next(s, e).rows, user) - |PostInsert(Next(s, e), user)| ==
            RowsFor(s.rows, user) - |PostInsert(s, user)| + if LosesReplyTo(s, e, user) then 1 else 0
  {
    RowsStep(s, e, user);
    PostInsertStep(s, e, user);
  }

  /** Conservation: at every moment a user has one row for each job past its insert that addresses them,
      plus one for each attempt that committed but was taken for failed. */
  lemma {:induction false} RowsAreConserved(trace: seq<State>, events: seq<Event>, n: nat, user: int)
    requires Run(trace, events) && n < |trace|
    ensures RowsFor(trace[n].rows, user) == |PostInsert(trace[n], user)| + LostReplies(trace, events, n, user)
  {
    if n > 0 {
      RowsAreConserved(trace, events, n - 1, user);
      AccountsAreFixed(trace, events, n - 1);
      ConservationStep(trace[n - 1], events[n - 1], user);
    }
  }

  /** How often the job's batch was written: by a successful insert, and by replies that got lost. */
  function Written(events: seq<Event>, n: nat, job: int): nat
    requires n <= |events|
  {
    if n == 0 then 0
    else Written(events, n - 1, job) + if events[n - 1] in {Insert(job), LostReply(job)} then 1 else 0
  }

  function Lost(events: seq<Event>, n: nat, job: int): nat
    requires n <= |events|
  {
    if n == 0 then 0 else Lost(events, n - 1, job) + if events[n - 1] == LostReply(job) then 1 else 0
  }

  /** A job's batch is written once if it got past its insert and not at all otherwise, as promised, exactly
      when no reply is lost; each lost reply has written it once more. */
  lemma {:induction false} BatchIsWrittenOnce(trace: seq<State>, events: seq<Event>, n: nat, job: nat)
    requires Run(trace, events) && n < |trace|
    ensures Written(events, n, job) ==
            Lost(events, n, job) + if job < |trace[n].jobs| && IsPostInsert(trace[n].jobs[job]) then 1 else 0
    ensures Written(events, n, job) == (if job < |trace[n].jobs| && IsPostInsert(trace[n].jobs[job]) then 1 else 0) <==>
            Lost(events, n, job) == 0
  {
    if n > 0 { BatchIsWrittenOnce(trace, events, n - 1, job); }
  }

  /** The attempts of the job that threw. */
  function FailedAttempts(events: seq<Event>, n: nat, job: int): nat
    requires n <= |events|
  {
    if n == 0 then 0
    else FailedAttempts(events, n - 1, job) + if events[n - 1] in {InsertFails(job), LostReply(job)} then 1 else 0
  }

  /** A job fails for good exactly at its third failed attempt: after one or two it waits for another one, is
      in it, or has got past its insert. */
  lemma {:induction false} DeadAfterThreeFailures(trace: seq<State>, events: seq<Event>, n: nat, job: nat)
    requires Run(trace, events) && n < |trace|
    ensures job >= |trace[n].jobs| ==> FailedAttempts(events, n, job) == 0
    ensures job < |trace[n].jobs| ==>
              && trace[n].jobs[job].failures == FailedAttempts(events, n, job) <= 3
              && (trace[n].jobs[job].Dead? <==> FailedAttempts(events, n, job) == 3)
  {
    if n > 0 {
      DeadAfterThreeFailures(trace, events, n - 1, job);
      if job < |trace[n - 1].jobs| { FailureStep(trace[n - 1], events[n - 1], job); }
    }
  }

  /** Whatever happens to a job, it stays the job that was enqueued. */
  lemma {:induction false} JobKeepsItsPayload(trace: seq<State>, events: seq<Event>, i: nat, n: nat)
    requires Run(trace, events) && i < n < |trace| && events[i].Enqueue?
    ensures |trace[i].jobs| < |trace[n].jobs| && trace[n].jobs[|trace[i].jobs|].payload == events[i].payload
  {
    if i < n - 1 {
      JobKeepsItsPayload(trace, events, i, n - 1);
      JobsAfter(trace[n - 1], events[n - 1]);
    }
  }

  lemma FailureStep(s: State, e: Event, job: nat)
    requires Enabled(s, e) && job < |s.jobs|
    requires s.jobs[job].failures <= 3 && (s.jobs[job].Dead? <==> s.jobs[job].failures == 3)
    ensures var job' := Next(s, e).jobs[job];
            && job'.failures == s.jobs[job].failures + (if e in {InsertFails(job), LostReply(job)} then 1 else 0) <= 3
            && (job'.Dead? <==> job'.failures == 3)
  {
    JobsAfter(s, e);
  }

  lemma {:induction false} LostRepliesAreFailures(events: seq<Event>, n: nat, job: int)
    requires n <= |events|
    ensures Lost(events, n, job) <= FailedAttempts(events, n, job)
  {
    if n > 0 { LostRepliesAreFailures(events, n - 1, job); }
  }

  /** A job that has a lost reply and still gets past its insert has written its batch at least twice; no job
      writes it more than three times. */
  lemma BatchIsWrittenAtMostThrice(trace: seq<State>, events: seq<Event>, n: nat, job: nat)
    requires Run(trace, events) && n < |trace|
    ensures Written(events, n, job) <= 3
    ensures job < |trace[n].jobs| && IsPostInsert(trace[n].jobs[job]) ==>
              (Written(events, n, job) >= 2 <==> Lost(events, n, job) >= 1)
    ensures !(job < |trace[n].jobs| && IsPostInsert(trace[n].jobs[job])) ==>
              (Written(events, n, job) >= 2 <==> Lost(events, n, job) >= 2)
  {
    BatchIsWrittenOnce(trace, events, n, job);
    LostRepliesAreFailures(events, n, job);
    DeadAfterThreeFailures(trace, events, n, job);
  }

  /** The insert commits, its reply is lost, and the job starts again. */
  lemma ReplyIsLost(start: State, p: Payload)
    requires Initial(start) && p.TicketParticipant? && Insertable(start, p)
    ensures var s1 := Next(start, Enqueue(p));
            Enabled(s1, Start(0)) &&
            var s2 := Next(s1, Start(0));
            Enabled(s2, LostReply(0)) &&
            var s3 := Next(s2, LostReply(0));
            Enabled(s3, Start(0)) && Next(s3, Start(0)) == start.(jobs := [Active(p, 1)], rows := [Row(p.recipientId, false)])
  {
    var s1 := Next(start, Enqueue(p));
    LoneJobStarts(s1, p, 0);
    var s3 := Next(Next(s1, Start(0)), LostReply(0));
    assert s3.rows == [Row(p.recipientId, false)];
    LoneJobStarts(s3, p, 1);
  }

  lemma CommitsAgain(s: State, p: Payload)
    requires p.TicketParticipant? && Insertable(s, p)
    requires s.jobs == [Active(p, 1)] && s.rows == [Row(p.recipientId, false)]
    ensures Enabled(s, Insert(0)) && Next(s, Insert(0)).jobs == [Inserted(p, 1)]
    ensures RowsFor(Next(s, Insert(0)).rows, p.recipientId) == 2
  {
    var row := [Row(p.recipientId, false)];
    assert Next(s, Insert(0)).rows == row + row;
    RowsForConcat(row, row, p.recipientId);
    assert row[..0] == [];
  }

  lemma WrittenTwice(events: seq<Event>, p: Payload)
    requires events == [Enqueue(p), Start(0), LostReply(0), Start(0), Insert(0)]
    ensures Written(events, 5, 0) == 2 && Lost(events, 5, 0) == 1
  {
    assert Written(events, 1, 0) == 0 && Lost(events, 1, 0) == 0;
    assert Written(events, 3, 0) == 1 && Lost(events, 3, 0) == 1;
  }

  /** A lost reply at work: the batch is committed, the attempt is taken for failed, and the retry commits it
      again. */
  lemma LostReplyDuplicates(start: State, user: int) returns (trace: seq<State>, events: seq<Event>)
    requires Initial(start) && user in start.users
    ensures Run(trace, events) && |events| == 5 && trace[0] == start
    ensures Written(events, 5, 0) == 2 && Lost(events, 5, 0) == 1
    ensures trace[5].jobs == [Inserted(TicketParticipant(user), 1)] && RowsFor(trace[5].rows, user) == 2
  {
    var p := TicketParticipant(user);
    events := [Enqueue(p), Start(0), LostReply(0), Start(0), Insert(0)];
    ReplyIsLost(start, p);
    var s1 := Next(start, Enqueue(p));
    var s2 := Next(s1, Start(0));
    var s3 := Next(s2, LostReply(0));
    var s4 := Next(s3, Start(0));
    CommitsAgain(s4, p);
    trace := [start, s1, s2, s3, s4, Next(s4, Insert(0))];
    WrittenTwice(events, p);
  }

  lemma LoneJobStarts(s: State, p: Payload, failures: nat)
    requires s.jobs == [Waiting(p, failures)]
    ensures Enabled(s, Start(0)) && Next(s, Start(0)) == s.(jobs := [Active(p, failures)])
  {
    assert ActiveJobs(s) == {};
  }

  // ---------------------------------------------------------------- every job ends

  /** Steps a job still has ahead of it, at most. */
  function Remaining(j: Job): nat {
    match j
    case Waiting(_, f) => if f < ATTEMPTS then 2 * (ATTEMPTS - f) + 1 else 0
    case Active(_, f) => if f < ATTEMPTS then 2 * (ATTEMPTS - f) else 0
    case Inserted(_, _) => 1
    case Completed(_, _, _) => 0
    case Dead(_, _) => 0
  }

  function StepsOf(events: seq<Event>, n: nat, job: int): nat
    requires n <= |events|
  {
    if n == 0 then 0 else StepsOf(events, n - 1, job) + if Concerns(events[n - 1], job) then 1 else 0
  }

  ghost predicate AttemptsLeft(j: Job) {
    match j
    case Waiting(_, f) => f < ATTEMPTS
    case Active(_, f) => f < ATTEMPTS
    case Inserted(_, f) => f < ATTEMPTS
    case Completed(_, f, _) => f < ATTEMPTS
    case Dead(_, f) => f == ATTEMPTS
  }

  lemma JobStep(s: State, e: Event, job: nat)
    requires Enabled(s, e) && job < |Next(s, e).jobs|
    ensures job == |s.jobs| ==> AttemptsLeft(Next(s, e).jobs[job]) && Remaining(Next(s, e).jobs[job]) == 7
    ensures job < |s.jobs| && AttemptsLeft(s.jobs[job]) ==>
              && AttemptsLeft(Next(s, e).jobs[job])
              && Remaining(Next(s, e).jobs[job]) + (if Concerns(e, job) then 1 else 0) <= Remaining(s.jobs[job])
  {
    assert job < |s.jobs| ==> Next(s, e).jobs[job] == if Concerns(e, job) then NextJob(s.jobs[job], e) else s.jobs[job];
  }

  /** A job takes at most seven steps in its whole life, and a job with no step left is finished. */
  lemma {:induction false} JobsTerminate(trace: seq<State>, events: seq<Event>, n: nat, job: nat)
    requires Run(trace, events) && n < |trace|
    ensures job < |trace[n].jobs| ==>
              && AttemptsLeft(trace[n].jobs[job])
              && StepsOf(events, n, job) + Remaining(trace[n].jobs[job]) <= 7
              && (Remaining(trace[n].jobs[job]) == 0 <==> trace[n].jobs[job].Completed? || trace[n].jobs[job].Dead?)
    ensures job >= |trace[n].jobs| ==> StepsOf(events, n, job) == 0
  {
    if n > 0 {
      JobsTerminate(trace, events, n - 1, job);
      if job < |trace[n].jobs| { JobStep(trace[n - 1], events[n - 1], job); }
    }
  }

  /** What a worker that meets no error does next with the job. */
  function NextStep(s: State, job: int): Event
    requires 0 <= job < |s.jobs|
  {
    match s.jobs[job]
    case Waiting(_, _) => Start(job)
    case Active(p, _) => if Insertable(s, p) then Insert(job) else InsertFails(job)
    case _ => Publish(job)
  }

  /** No job is stuck: an unfinished one can take the step of a worker without errors, unless it waits and all
      slots are taken; then a job in a slot can. */
  lemma UnfinishedJobsCanStep(s: State, job: nat) returns (k: nat)
    requires job < |s.jobs| && !s.jobs[job].Completed? && !s.jobs[job].Dead?
    ensures k < |s.jobs| && Enabled(s, NextStep(s, k)) && Concerns(NextStep(s, k), k)
    ensures k == job || (s.jobs[job].Waiting? && |ActiveJobs(s)| >= 5 && k in ActiveJobs(s))
  {
    k := job;
    if s.jobs[job].Waiting? && |ActiveJobs(s)| >= CONCURRENCY {
      var slot :| slot in ActiveJobs(s);
      k := slot;
    }
  }

  lemma ConcurrencyStep(s: State, e: Event)
    requires Enabled(s, e) && |ActiveJobs(s)| <= CONCURRENCY
    ensures |ActiveJobs(Next(s, e))| <= CONCURRENCY
  {
    var s' := Next(s, e);
    if e.Start? {
      assert ActiveJobs(s') == ActiveJobs(s) + {e.job};
    } else {
      assert ActiveJobs(s') <= ActiveJobs(s);
      SubsetCount(ActiveJobs(s'), ActiveJobs(s));
    }
  }

  lemma SubsetCount(a: set<int>, b: set<int>)
    requires a <= b
    ensures |a| <= |b|
  {
    assert b == a + (b - a);
  }

  /** At most five jobs are between their start and their end. */
  lemma {:induction false} AtMostFiveActive(trace: seq<State>, events: seq<Event>, n: nat)
    requires Run(trace, events) && n < |trace|
    ensures |ActiveJobs(trace[n])| <= 5
  {
    if n > 0 {
      AtMostFiveActive(trace, events, n - 1);
      ConcurrencyStep(trace[n - 1], events[n - 1]);
    }
  }

  // ---------------------------------------------------------------- what a stream reports

  /** The jobs addressing the user whose message was published by now. */
  ghost function Published(s: State, user: int): set<int> {
    set i | 0 <= i < |s.jobs| && s.jobs[i].Completed? && s.jobs[i].published && PassesFor(s, s.jobs[i].payload, user)
  }

  lemma PublishedStep(s: State, e: Event, user: int)
    requires Enabled(s, e)
    ensures Published(Next(s, e), user) ==
            Published(s, user) + if e.Publish? && PassesFor(s, s.jobs[e.job].payload, user) then {e.job} else {}
    ensures e.Publish? ==> e.job !in Published(s, user)
  {
    JobsAfter(s, e);
    var s' := Next(s, e);
    var heard := if e.Publish? && PassesFor(s, s.jobs[e.job].payload, user) then {e.job} else {};
    forall i ensures i in Published(s', user) <==> i in Published(s, user) + heard {
    }
  }

  /** The stream's count query took its snapshot at step `q`, it was subscribed at step `b`, and it stays open to `n`. */
  ghost predicate StreamLife(trace: seq<State>, events: seq<Event>, q: nat, b: nat, n: nat, id: int, user: int) {
    && Run(trace, events) && q < b < n < |trace|
    && events[q] == CountQuery(id, user)
    && events[b] == Subscribe(id)
    && (forall i :: q < i < b ==> events[i] != CloseStream(id) && events[i] != Subscribe(id))
    && (forall i :: b < i < n ==> events[i] != CloseStream(id))
  }

  lemma {:induction false} CountWaits(trace: seq<State>, events: seq<Event>, q: nat, b: nat, id: int, user: int)
    requires Run(trace, events) && q < b < |trace| && events[q] == CountQuery(id, user)
    requires forall i :: q < i < b ==> events[i] != CloseStream(id) && events[i] != Subscribe(id)
    ensures id in trace[b].streams && trace[b].streams[id] == Counted(user, UnreadFor(trace[q].rows, user))
  {
    if b > q + 1 { CountWaits(trace, events, q, b - 1, id, user); }
  }

  lemma LiveStreamStep(s: State, e: Event, id: int)
    requires Enabled(s, e) && id in s.streams && s.streams[id].Live? && e != CloseStream(id)
    ensures id in Next(s, e).streams
    ensures Next(s, e).streams[id] ==
            Live(s.streams[id].user,
                 s.streams[id].sent + if e.Publish? && PassesFor(s, s.jobs[e.job].payload, s.streams[id].user) then 1 else 0)
  {
  }

  /** A live stream that has sent `base` plus one for each message published since `first`. */
  ghost predicate SentSince(s: State, id: int, user: int, base: nat, first: set<int>) {
    && id in s.streams && s.streams[id].Live? && s.streams[id].user == user
    && first <= Published(s, user)
    && s.streams[id].sent == base + |Published(s, user) - first|
  }

  lemma SentSinceStep(s: State, e: Event, id: int, user: int, base: nat, first: set<int>)
    requires Enabled(s, e) && SentSince(s, id, user, base, first) && e != CloseStream(id)
    ensures SentSince(Next(s, e), id, user, base, first)
  {
    PublishedStep(s, e, user);
    LiveStreamStep(s, e, id);
    if e.Publish? && PassesFor(s, s.jobs[e.job].payload, user) {
      OneMoreSince(Published(s, user), first, e.job);
    }
  }

  lemma OneMoreSince(heard: set<int>, first: set<int>, job: int)
    requires first <= heard && job !in heard
    ensures |heard + {job} - first| == |heard - first| + 1
  {
    assert heard + {job} - first == (heard - first) + {job};
  }

  lemma SubscribedSentNothing(s: State, id: int, user: int)
    requires id in s.streams && s.streams[id].Counted? && s.streams[id].user == user
    ensures SentSince(Next(s, Subscribe(id)), id, user, s.streams[id].count, Published(s, user))
  {
    PublishedStep(s, Subscribe(id), user);
    assert Published(Next(s, Subscribe(id)), user) - Published(s, user) == {};
  }

  /** What a live stream has sent: the unread count of its snapshot plus one for each message published
      to its user since it subscribed. */
  lemma {:induction false} StreamSum(trace: seq<State>, events: seq<Event>, q: nat, b: nat, n: nat, id: int, user: int)
    requires StreamLife(trace, events, q, b, n, id, user)
    ensures SentSince(trace[n], id, user, UnreadFor(trace[q].rows, user), Published(trace[b], user))
  {
    if n == b + 1 {
      CountWaits(trace, events, q, b, id, user);
      SubscribedSentNothing(trace[b], id, user);
    } else {
      StreamSum(trace, events, q, b, n - 1, id, user);
      SentSinceStep(trace[n - 1], events[n - 1], id, user, UnreadFor(trace[q].rows, user), Published(trace[b], user));
    }
  }

  lemma PublishedWereInserted(s: State, user: int)
    ensures Published(s, user) <= PostInsert(s, user)
  {
  }

  lemma {:induction false} PostInsertGrows(trace: seq<State>, events: seq<Event>, i: nat, j: nat, user: int)
    requires Run(trace, events) && i <= j < |trace|
    ensures PostInsert(trace[i], user) <= PostInsert(trace[j], user)
  {
    if i < j {
      PostInsertGrows(trace, events, i, j - 1, user);
      PostInsertStep(trace[j - 1], events[j - 1], user);
    }
  }

  /** Inserted after the count's snapshot, but published before the subscription, or not (yet) published. */
  ghost function Missed(trace: seq<State>, q: nat, b: nat, n: nat, user: int): set<int>
    requires q < |trace| && b < |trace| && n < |trace|
  {
    (PostInsert(trace[n], user) - PostInsert(trace[q], user)) - (Published(trace[n], user) - Published(trace[b], user))
  }

  /** Inserted before the count's snapshot and published after the subscription. */
  ghost function CountedTwice(trace: seq<State>, q: nat, b: nat, n: nat, user: int): set<int>
    requires q < |trace| && b < |trace| && n < |trace|
  {
    PostInsert(trace[q], user) * (Published(trace[n], user) - Published(trace[b], user))
  }

  /** The exact account of a stream: what it has sent falls short of the truth by the missed messages and
      exceeds it by those counted twice. */
  lemma StreamAccount(trace: seq<State>, events: seq<Event>, q: nat, b: nat, n: nat, id: int, user: int)
    requires StreamLife(trace, events, q, b, n, id, user)
    ensures id in trace[n].streams && trace[n].streams[id].Live?
    ensures trace[n].streams[id].sent + |Missed(trace, q, b, n, user)| ==
            UnreadFor(trace[q].rows, user) + (|PostInsert(trace[n], user)| - |PostInsert(trace[q], user)|) +
            |CountedTwice(trace, q, b, n, user)|
  {
    StreamSum(trace, events, q, b, n, id, user);
    PostInsertGrows(trace, events, q, n, user);
    PublishedWereInserted(trace[n], user);
    SetAccount(PostInsert(trace[q], user), PostInsert(trace[n], user),
               Published(trace[n], user) - Published(trace[b], user));
  }

  lemma SetAccount(before: set<int>, after: set<int>, heard: set<int>)
    requires before <= after && heard <= after
    ensures |heard| + |(after - before) - heard| == |after| - |before| + |before * heard|
  {
    var since := after - before;
    assert after == before + since;
    assert heard == heard * since + before * heard;
    assert since == (since - heard) + heard * since;
  }

  /** No job addressed to the user straddles the opening of the stream: it was inserted after the snapshot
      exactly when it was published after the subscription. */
  ghost predicate NoStraddle(trace: seq<State>, q: nat, b: nat, n: nat, user: int)
    requires q < |trace| && b < |trace| && n < |trace|
  {
    forall i :: i in PostInsert(trace[n], user) ==>
      (i !in PostInsert(trace[q], user) <==> i in Published(trace[n], user) - Published(trace[b], user))
  }

  /** What a stream should have sent: the unread count at opening plus the rows inserted since. */
  function Truth(trace: seq<State>, q: nat, n: nat, user: int): int
    requires q < |trace| && n < |trace|
  {
    UnreadFor(trace[q].rows, user) + (RowsFor(trace[n].rows, user) - RowsFor(trace[q].rows, user))
  }

  /** Stream agreement: without straddling jobs and lost replies, the sum of the events is the unread count at
      opening plus the rows inserted for the user since. */
  lemma StreamAgreesWithoutStraddle(trace: seq<State>, events: seq<Event>, q: nat, b: nat, n: nat, id: int, user: int)
    requires StreamLife(trace, events, q, b, n, id, user) && NoStraddle(trace, q, b, n, user)
    requires LostReplies(trace, events, n, user) == LostReplies(trace, events, q, user)
    ensures id in trace[n].streams && trace[n].streams[id].Live?
    ensures trace[n].streams[id].sent == Truth(trace, q, n, user)
  {
    StreamAccount(trace, events, q, b, n, id, user);
    assert Missed(trace, q, b, n, user) == {} && CountedTwice(trace, q, b, n, user) == {};
    RowsAreConserved(trace, events, q, user);
    RowsAreConserved(trace, events, n, user);
  }

  /** The balance of a stream with no hypothesis at all: two terms are fixed when it opens, the others are the
      messages not (yet) published and the lost replies since. */
  lemma StreamBalance(trace: seq<State>, events: seq<Event>, q: nat, b: nat, n: nat, id: int, user: int)
    requires StreamLife(trace, events, q, b, n, id, user)
    ensures id in trace[n].streams && trace[n].streams[id].Live?
    ensures trace[n].streams[id].sent - Truth(trace, q, n, user) ==
            (|PostInsert(trace[q], user)| - |Published(trace[b], user)|)
            - |PostInsert(trace[n], user) - Published(trace[n], user)|
            - (LostReplies(trace, events, n, user) - LostReplies(trace, events, q, user))
  {
    StreamSum(trace, events, q, b, n, id, user);
    PublishedWereInserted(trace[n], user);
    RowsAreConserved(trace, events, q, user);
    RowsAreConserved(trace, events, n, user);
    PartCount(Published(trace[b], user), Published(trace[n], user));
    PartCount(Published(trace[n], user), PostInsert(trace[n], user));
  }

  lemma PartCount(part: set<int>, whole: set<int>)
    requires part <= whole
    ensures |whole - part| == |whole| - |part|
  {
    assert whole == part + (whole - part);
  }

  /** Once every inserted job is published, and no reply was lost, the stream is right exactly when as many jobs
      had been inserted at its snapshot as had been published when it subscribed: both fixed at its opening. */
  lemma StreamAgreesIff(trace: seq<State>, events: seq<Event>, q: nat, b: nat, n: nat, id: int, user: int)
    requires StreamLife(trace, events, q, b, n, id, user)
    requires LostReplies(trace, events, n, user) == LostReplies(trace, events, q, user)
    requires PostInsert(trace[n], user) == Published(trace[n], user)
    ensures id in trace[n].streams && trace[n].streams[id].Live?
    ensures trace[n].streams[id].sent == Truth(trace, q, n, user) <==>
            |PostInsert(trace[q], user)| == |Published(trace[b], user)|
  {
    StreamBalance(trace, events, q, b, n, id, user);
    assert PostInsert(trace[n], user) - Published(trace[n], user) == {};
  }

  lemma {:induction false} PublishedGrows(trace: seq<State>, events: seq<Event>, i: nat, j: nat, user: int)
    requires Run(trace, events) && i <= j < |trace|
    ensures Published(trace[i], user) <= Published(trace[j], user)
  {
    if i < j {
      PublishedGrows(trace, events, i, j - 1, user);
      PublishedStep(trace[j - 1], events[j - 1], user);
    }
  }

  /** In particular, with nothing under way at the snapshot, exactly when no message to the user is published
      between the snapshot and the subscription. */
  lemma StreamAgreesIffGapIsSilent(trace: seq<State>, events: seq<Event>, q: nat, b: nat, n: nat, id: int, user: int)
    requires StreamLife(trace, events, q, b, n, id, user)
    requires LostReplies(trace, events, n, user) == LostReplies(trace, events, q, user)
    requires PostInsert(trace[n], user) == Published(trace[n], user)
    requires PostInsert(trace[q], user) == Published(trace[q], user)
    ensures id in trace[n].streams && trace[n].streams[id].Live?
    ensures trace[n].streams[id].sent == Truth(trace, q, n, user) <==>
            Published(trace[b], user) == Published(trace[q], user)
  {
    StreamAgreesIff(trace, events, q, b, n, id, user);
    PublishedGrows(trace, events, q, b, user);
    PartCount(Published(trace[q], user), Published(trace[b], user));
    if |Published(trace[q], user)| == |Published(trace[b], user)| {
      assert Published(trace[b], user) - Published(trace[q], user) == {};
    }
  }

  /** A job is in its slot when a stream takes its count. */
  lemma GapOpens(start: State, moderator: int, id: int)
    requires Initial(start) && start.moderators == [moderator]
    ensures var s1 := Next(start, Enqueue(GenericModerator));
            Enabled(s1, Start(0)) &&
            var s2 := Next(s1, Start(0));
            Enabled(s2, CountQuery(id, moderator)) && s2.rows == [] &&
            Next(s2, CountQuery(id, moderator)) ==
            start.(jobs := [Active(GenericModerator, 0)], streams := map[id := Counted(moderator, 0)])
  {
    LoneJobStarts(Next(start, Enqueue(GenericModerator)), GenericModerator, 0);
  }

  /** It inserts and publishes before the stream subscribes. */
  lemma GapPasses(s3: State, moderator: int, id: int)
    requires s3.moderators == [moderator] && s3.jobs == [Active(GenericModerator, 0)] && s3.rows == []
    requires s3.streams == map[id := Counted(moderator, 0)]
    ensures Enabled(s3, Insert(0))
    ensures var s4 := Next(s3, Insert(0));
            Enabled(s4, Publish(0)) &&
            var s5 := Next(s4, Publish(0));
            Enabled(s5, Subscribe(id)) &&
            var s6 := Next(s5, Subscribe(id));
            s6.rows == [Row(moderator, false)] && s6.streams == map[id := Live(moderator, 0)]
  {
    var s4 := Next(s3, Insert(0));
    assert s4.jobs == [Inserted(GenericModerator, 0)] && s4.rows == [Row(moderator, false)];
    assert Next(s4, Publish(0)).streams == map[id := Counted(moderator, 0)];
  }

  /** The gap at work: a job inserted after the snapshot and published before the subscription reaches the
      user's table but neither the count nor the stream. */
  lemma MessageInTheGapIsLost(start: State, moderator: int, id: int) returns (trace: seq<State>, events: seq<Event>)
    requires Initial(start) && start.moderators == [moderator]
    ensures StreamLife(trace, events, 2, 5, 6, id, moderator) && trace[0] == start
    ensures LostReplies(trace, events, 6, moderator) == 0
    ensures RowsFor(trace[6].rows, moderator) == RowsFor(trace[2].rows, moderator) + 1
    ensures trace[6].streams[id] == Live(moderator, UnreadFor(trace[2].rows, moderator))
  {
    events := [Enqueue(GenericModerator), Start(0), CountQuery(id, moderator), Insert(0), Publish(0), Subscribe(id)];
    GapOpens(start, moderator, id);
    var s1 := Next(start, Enqueue(GenericModerator));
    var s2 := Next(s1, Start(0));
    var s3 := Next(s2, CountQuery(id, moderator));
    GapPasses(s3, moderator, id);
    var s4 := Next(s3, Insert(0));
    var s5 := Next(s4, Publish(0));
    var s6 := Next(s5, Subscribe(id));
    trace := [start, s1, s2, s3, s4, s5, s6];
    assert RowsFor(s6.rows, moderator) == 1;
    NoLostReplies(trace, events, 6, moderator);
  }

  lemma {:induction false} NoLostReplies(trace: seq<State>, events: seq<Event>, n: nat, user: int)
    requires n <= |events| && |trace| == |events| + 1
    requires forall i :: 0 <= i < |events| ==> Enabled(trace[i], events[i])
    requires forall i :: 0 <= i < n ==> !events[i].LostReply?
    ensures LostReplies(trace, events, n, user) == 0
  {
    if n > 0 { NoLostReplies(trace, events, n - 1, user); }
  }

  // ---------------------------------------------------------------- the worker and the stream, in place

  /** `NotificationProcessor.handle` and `notificationCount`, cut at their awaits. */
  class Pipeline {
    const users: set<int>
    const moderators: seq<int>
    var jobs: seq<Job>
    var rows: seq<Row>
    var streams: map<int, Stream>

    function Current(): State
      reads this
    {
      State(users, moderators, jobs, rows, streams)
    }

    constructor (users: set<int>, moderators: seq<int>)
      requires NoDuplicates(moderators)
      ensures Initial(Current()) && Current().users == users && Current().moderators == moderators
    {
      this.users, this.moderators := users, moderators;
      jobs, rows, streams := [], [], map[];
    }

    /** The insert of one attempt; when it throws the attempt ends and nothing is published. */
    method InsertRows(job: nat, raises: bool) returns (inserted: bool)
      requires job < |jobs| && jobs[job].Active?
      modifies this
      ensures inserted <==> !raises && (old(jobs)[job].payload.TicketParticipant? ==> old(jobs)[job].payload.recipientId in users)
      ensures Current() == Next(old(Current()), if inserted then Insert(job) else InsertFails(job))
    {
      var j := jobs[job];
      if raises || (j.payload.TicketParticipant? && j.payload.recipientId !in users) {
        jobs := jobs[job := Thrown(j)];
        assert jobs == NextJobs(old(Current()), InsertFails(job));
        return false;
      }
      match j.payload {
        case GenericModerator => rows := rows + UnreadRows(moderators);
        case TicketParticipant(recipientId) => rows := rows + UnreadRows([recipientId]);
      }
      jobs := jobs[job := Inserted(j.payload, j.failures)];
      assert jobs == NextJobs(old(Current()), Insert(job));
      return true;
    }

    /** The publish after the insert; its failure is caught, so the job completes either way. */
    method PublishMessage(job: nat, raises: bool)
      requires job < |jobs| && jobs[job].Inserted?
      modifies this
      ensures Current() == Next(old(Current()), if raises then PublishFails(job) else Publish(job))
    {
      var j := jobs[job];
      if !raises {
        streams := Deliver(Current(), j.payload);
      }
      jobs := jobs[job := Completed(j.payload, j.failures, !raises)];
      assert jobs == NextJobs(old(Current()), if raises then PublishFails(job) else Publish(job));
    }

    /** `concat`: the count query first; the subject is subscribed only when it has resolved. */
    method QueryCount(id: int, user: int)
      requires id !in streams
      modifies this
      ensures Current() == Next(old(Current()), CountQuery(id, user))
    {
      streams := streams[id := Counted(user, UnreadFor(rows, user))];
      assert jobs == NextJobs(old(Current()), CountQuery(id, user));
    }

    method SubscribeStream(id: int) returns (unreadCount: nat)
      requires id in streams && streams[id].Counted?
      modifies this
      ensures Current() == Next(old(Current()), Subscribe(id))
      ensures unreadCount == old(streams)[id].count
    {
      unreadCount := streams[id].count;
      streams := streams[id := Live(streams[id].user, unreadCount)];
      assert jobs == NextJobs(old(Current()), Subscribe(id));
    }
  }
}

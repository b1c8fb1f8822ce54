/** The notification list: a request reads its user's rows, answers with them, and sends an update that
    marks the unread ones among them as read; the update may be late or fail. */
module Inbox {

  import N = Notifications

  /** A row's id is its position: ids are drawn from a sequence and rows are never deleted. */
  type Row = N.Row

  /** `marks` are the updates under way: the ids each was sent with. */
  datatype State = State(rows: seq<Row>, marks: map<int, set<int>>)

  datatype Event =
    | Insert(recipients: seq<int>)
    | List(user: int, id: int)   // getNotifications: read, send the mark, answer
    | Mark(id: int)              // the update arrives
    | MarkFails(id: int)

  /** The answer to a list request: the ids of the user's rows, newest first. */
  function Answer(rows: seq<Row>, user: int): seq<int> {
    if rows == [] then []
    else (if rows[|rows| - 1].recipient == user then [|rows| - 1] else []) + Answer(rows[..|rows| - 1], user)
  }

  function UnreadOf(rows: seq<Row>, user: int): set<int> {
    set i | 0 <= i < |rows| && rows[i].recipient == user && !rows[i].isRead
  }

  predicate Enabled(s: State, e: Event) {
    match e
    case Insert(_) => true
    case List(_, id) => id !in s.marks
    case Mark(id) => id in s.marks
    case MarkFails(id) => id in s.marks
  }

  function Next(s: State, e: Event): State
    requires Enabled(s, e)
  {
    match e
    case Insert(recipients) => s.(rows := s.rows + N.UnreadRows(recipients))
    case List(user, id) =>
      var unread := UnreadOf(s.rows, user);
      if unread != {} then s.(marks := s.marks[id := unread]) else s
    case Mark(id) => s.(rows := N.Marked(s.rows, s.marks[id]), marks := s.marks - {id})
    case MarkFails(id) => s.(marks := s.marks - {id})
  }

  ghost predicate Run(trace: seq<State>, events: seq<Event>) {
    && |trace| == |events| + 1
    && trace[0].rows == [] && trace[0].marks == map[]
    && forall i :: 0 <= i < |events| ==> Enabled(trace[i], events[i]) && trace[i + 1] == Next(trace[i], events[i])
  }

  /** An answer holds exactly the user's rows, newest first. */
  lemma {:induction false} AnswerHoldsTheUsersRows(rows: seq<Row>, user: int)
    ensures forall i :: i in Answer(rows, user) <==> 0 <= i < |rows| && rows[i].recipient == user
    ensures forall j, k :: 0 <= j < k < |Answer(rows, user)| ==> Answer(rows, user)[j] > Answer(rows, user)[k]
  {
    if rows != [] {
      var front := rows[..|rows| - 1];
      AnswerHoldsTheUsersRows(front, user);
      var last := if rows[|front|].recipient == user then [|front|] else [];
      var answer := Answer(rows, user);
      assert answer == last + Answer(front, user);
      forall j, k | 0 <= j < k < |answer| ensures answer[j] > answer[k] {
        assert answer[k] == Answer(front, user)[k - |last|];
        assert answer[k] in Answer(front, user);
      }
    }
  }

  /** Before moment `n` a response to the row's recipient contained the row, then unread. */
  ghost predicate ShownBefore(trace: seq<State>, events: seq<Event>, n: nat, row: nat) {
    exists k: nat :: ShownAt(trace, events, n, row, k)
  }

  ghost predicate ShownAt(trace: seq<State>, events: seq<Event>, n: nat, row: nat, k: nat) {
    && k < n <= |events| && k < |trace|
    && events[k].List?
    && row in Answer(trace[k].rows, events[k].user)
    && row < |trace[k].rows| && !trace[k].rows[row].isRead && trace[k].rows[row].recipient == events[k].user
  }

  /** Rows that are read, or about to be, were shown. */
  ghost predicate ReadWereShown(trace: seq<State>, events: seq<Event>, n: nat)
    requires n < |trace|
  {
    && (forall row :: 0 <= row < |trace[n].rows| && trace[n].rows[row].isRead ==> ShownBefore(trace, events, n, row))
    && (forall id :: id in trace[n].marks ==> WereShown(trace, events, n, trace[n].marks[id]))
  }

  ghost predicate WereShown(trace: seq<State>, events: seq<Event>, n: nat, ids: set<int>)
    requires n < |trace|
  {
    forall row :: row in ids ==> 0 <= row < |trace[n].rows| && ShownBefore(trace, events, n, row)
  }

  lemma ShownStays(trace: seq<State>, events: seq<Event>, n: nat, m: nat, row: nat)
    requires ShownBefore(trace, events, n, row) && n <= m <= |events|
    ensures ShownBefore(trace, events, m, row)
  {
    var k: nat :| ShownAt(trace, events, n, row, k);
    assert ShownAt(trace, events, m, row, k);
  }

  lemma ReadWereShownStep(trace: seq<State>, events: seq<Event>, n: nat)
    requires Run(trace, events) && n + 1 < |trace| && ReadWereShown(trace, events, n)
    ensures ReadWereShown(trace, events, n + 1)
  {
    var s, e, s' := trace[n], events[n], trace[n + 1];
    forall row | 0 <= row < |s'.rows| && s'.rows[row].isRead ensures ShownBefore(trace, events, n + 1, row) {
      assert ShownBefore(trace, events, n, row);
      ShownStays(trace, events, n, n + 1, row);
    }
    forall id | id in s'.marks ensures WereShown(trace, events, n + 1, s'.marks[id]) {
      if id in s.marks {
        assert WereShown(trace, events, n, s.marks[id]) && s'.marks[id] == s.marks[id];
        forall row | row in s.marks[id] ensures 0 <= row < |s'.rows| && ShownBefore(trace, events, n + 1, row) {
          ShownStays(trace, events, n, n + 1, row);
        }
      } else {
        AnswerHoldsTheUsersRows(s.rows, e.user);
        forall row | row in s'.marks[id] ensures 0 <= row < |s'.rows| && ShownBefore(trace, events, n + 1, row) {
          assert ShownAt(trace, events, n + 1, row, n);
        }
      }
    }
  }

  /** No notification is silently read: a row is read only if an earlier response to its recipient contained it. */
  lemma {:induction false} NoSilentRead(trace: seq<State>, events: seq<Event>, n: nat)
    requires Run(trace, events) && n < |trace|
    ensures ReadWereShown(trace, events, n)
  {
    if n > 0 {
      NoSilentRead(trace, events, n - 1);
      ReadWereShownStep(trace, events, n - 1);
    }
  }

  lemma {:induction false} RowsOnlyGrow(trace: seq<State>, events: seq<Event>, i: nat, n: nat)
    requires Run(trace, events) && i <= n < |trace|
    ensures |trace[i].rows| <= |trace[n].rows|
    ensures forall r :: 0 <= r < |trace[i].rows| ==>
              && trace[i].rows[r].recipient == trace[n].rows[r].recipient
              && (trace[i].rows[r].isRead ==> trace[n].rows[r].isRead)
  {
    if i < n { RowsOnlyGrow(trace, events, i, n - 1); }
  }

  /** A row inserted after moment `i` stays unread until its recipient lists again, whatever requests and
      marks of before `i` are still under way. */
  lemma LateRowsStayUnread(trace: seq<State>, events: seq<Event>, i: nat, n: nat, row: nat)
    requires Run(trace, events) && i <= n < |trace|
    requires |trace[i].rows| <= row < |trace[n].rows|
    requires forall k :: i <= k < n && events[k].List? ==> events[k].user != trace[n].rows[row].recipient
    ensures !trace[n].rows[row].isRead
    ensures forall id :: id in trace[n].marks ==> row !in trace[n].marks[id]
  {
    NoSilentRead(trace, events, n);
    if ShownBefore(trace, events, n, row) {
      var k: nat :| ShownAt(trace, events, n, row, k);
      RowsOnlyGrow(trace, events, k, n);
      if k < i {
        RowsOnlyGrow(trace, events, k, i);
      }
      assert false;
    }
  }

  /** The row is one of the user's and unread. */
  predicate UnreadRowOf(rows: seq<Row>, user: int, r: int) {
    0 <= r < |rows| && rows[r].recipient == user && !rows[r].isRead
  }

  /** A list request changes no row; it sends a mark exactly if some row of its response is unread, and the
      mark is for all of those. */
  lemma ListMarksTheUnreadRows(s: State, user: int, id: int)
    requires Enabled(s, List(user, id))
    ensures var s' := Next(s, List(user, id));
            && s'.rows == s.rows
            && (id in s'.marks <==> exists r :: UnreadRowOf(s.rows, user, r))
            && (id in s'.marks ==> forall r :: r in s'.marks[id] <==> UnreadRowOf(s.rows, user, r))
            && forall other :: other != id ==> (other in s'.marks <==> other in s.marks) &&
                                               (other in s.marks ==> s'.marks[other] == s.marks[other])
  {
    assert forall r :: r in UnreadOf(s.rows, user) <==> UnreadRowOf(s.rows, user, r);
    if r :| UnreadRowOf(s.rows, user, r) {
      assert UnreadOf(s.rows, user) != {};
    }
  }

  /** The count of the count query is the number of those rows. */
  lemma {:induction false} CountIsTheUnreadRows(rows: seq<Row>, user: int)
    ensures N.UnreadFor(rows, user) == |set r | 0 <= r < |rows| && UnreadRowOf(rows, user, r)|
  {
    if rows != [] {
      var last := |rows| - 1;
      var front := rows[..last];
      CountIsTheUnreadRows(front, user);
      var before := set r | 0 <= r < |front| && UnreadRowOf(front, user, r);
      assert (set r | 0 <= r < |rows| && UnreadRowOf(rows, user, r)) ==
             before + (if UnreadRowOf(rows, user, last) then {last} else {});
    }
  }

  /** A mark that arrives, however late, reads exactly the rows that were unread in the response it was sent
      with; then the user has read everything that response contained. */
  lemma MarkReadsTheResponse(trace: seq<State>, events: seq<Event>, k: nat, m: nat)
    requires Run(trace, events) && k < m < |events| && events[k].List?
    requires exists r :: UnreadRowOf(trace[k].rows, events[k].user, r)
    requires events[m] == Mark(events[k].id)
    requires forall i :: k < i < m ==> events[i] != MarkFails(events[k].id) && events[i] != Mark(events[k].id)
    ensures forall r :: 0 <= r < |trace[m + 1].rows| ==>
              (trace[m + 1].rows[r].isRead <==> trace[m].rows[r].isRead || UnreadRowOf(trace[k].rows, events[k].user, r))
    ensures forall r :: 0 <= r < |trace[k].rows| && trace[k].rows[r].recipient == events[k].user ==>
              r < |trace[m + 1].rows| && trace[m + 1].rows[r].isRead
  {
    var r :| UnreadRowOf(trace[k].rows, events[k].user, r);
    assert r in UnreadOf(trace[k].rows, events[k].user);
    MarkIsKept(trace, events, k, m);
    RowsOnlyGrow(trace, events, k, m);
  }

  lemma {:induction false} MarkIsKept(trace: seq<State>, events: seq<Event>, k: nat, m: nat)
    requires Run(trace, events) && k < m < |trace| && events[k].List?
    requires forall i :: k < i < m ==> events[i] != MarkFails(events[k].id) && events[i] != Mark(events[k].id)
    requires UnreadOf(trace[k].rows, events[k].user) != {}
    ensures events[k].id in trace[m].marks && trace[m].marks[events[k].id] == UnreadOf(trace[k].rows, events[k].user)
  {
    if k < m - 1 { MarkIsKept(trace, events, k, m - 1); }
  }

  // ---------------------------------------------------------------- the table, updated in place

  /** `getNotifications` up to its answer, and the later update of `markNotificationsAsRead`. */
  class Table {
    var rows: seq<Row>
    var marks: map<int, set<int>>

    function Current(): State
      reads this
    {
      State(rows, marks)
    }

    constructor ()
      ensures Current() == State([], map[])
    {
      rows, marks := [], map[];
    }

    method GetNotifications(user: int, id: int) returns (ids: seq<int>)
      requires id !in marks
      modifies this
      ensures Current() == Next(old(Current()), List(user, id))
      ensures rows == old(rows) && ids == Answer(rows, user)
    {
      ids := Answer(rows, user);
      AnswerHoldsTheUsersRows(rows, user);
      var unreadNotifIds := set i | i in ids && !rows[i].isRead;
      assert unreadNotifIds == UnreadOf(rows, user);
      if unreadNotifIds != {} {
        marks := marks[id := unreadNotifIds];
      }
    }

    method MarkNotificationsAsRead(id: int, raises: bool) returns (rowCount: nat)
      requires id in marks
      modifies this
      ensures Current() == Next(old(Current()), if raises then MarkFails(id) else Mark(id))
      ensures rowCount == if raises then 0 else |(set i | i in old(marks)[id] && 0 <= i < |rows|)|
    {
      rowCount := 0;
      if !raises {
        var matched := set i | i in marks[id] && 0 <= i < |rows|;
        rowCount := |matched|;
        rows := N.Marked(rows, marks[id]);
      }
      marks := marks - {id};
    }
  }
}

/** The statements of DebatesService and ModeratorService that change rows.

    Every SQL statement is one atomic step and every BEGIN/COMMIT block is all-or-nothing.
    `fault` is the position of the statement that raises (a lost connection, a value its column
    refuses); a larger number means that none does. A statement that `fault` stops draws no id; one that
    a foreign key refuses has drawn its id already, and ids drawn before a rollback are lost. */
module Services {
  import opened Schema

  /** The editable part of an argument, as the create and draft requests send it. */
  datatype Text = Text(title: string, content: string, counterargumentTo: Option<int>, side: Side)

  datatype Outcome = Done | NotFound | Failed

  // ---------------------------------------------------------------- single statements

  function InsertTicket(db: Db, user: int): Db {
    db.(tickets := db.tickets[db.nextTicket := Ticket(user, None, PENDING)], nextTicket := db.nextTicket + 1)
  }

  function InsertArgument(db: Db, debateId: int, ticketId: Option<int>, text: Text, user: int, isDraft: bool): Db {
    db.(arguments := db.arguments[db.nextArgument := Argument(debateId, ticketId, text.title, text.content,
                                                              text.counterargumentTo, user, text.side, isDraft)],
    nextArgument := db.nextArgument + 1)
  }

  function InsertDebate(db: Db, ticketId: int, title: string, user: int): Db {
    db.(debates := db.debates[db.nextDebate := Debate(ticketId, title, user, {})], nextDebate := db.nextDebate + 1)
  }

  /** The next `count` ids of a sequence. */
  function Drawn(next: int, count: nat): seq<int> {
    seq(count, i => next + i)
  }

  function InsertTags(db: Db, count: nat): Db {
    db.(tags := db.tags + (set i | i in Drawn(db.nextTag, count)), nextTag := db.nextTag + count)
  }

  /** The tables of `before` with the sequences of `after`. */
  function Rollback(before: Db, after: Db): Db {
    before.(nextTag := after.nextTag, nextTicket := after.nextTicket, nextDebate := after.nextDebate,
    nextArgument := after.nextArgument)
  }

  predicate HasDuplicates(ids: seq<int>) {
    exists i, j :: 0 <= i < j < |ids| && ids[i] == ids[j]
  }

  // ---------------------------------------------------------------- DebatesService

  /** The ids the new debate is tagged with: the chosen ones, then the freshly inserted ones. */
  function ProposedTags(db: Db, tagIds: seq<int>, createdTags: Option<nat>): seq<int> {
    if createdTags.Some? then tagIds + Drawn(db.nextTag, createdTags.value) else tagIds
  }

  /** The transaction from the ticket on: `before` is where it began, `db1` holds its new tags. */
  function ProposeDebate(before: Db, db1: Db, user: int, title: string, ids: seq<int>, fault: nat): Db {
    if fault == 1 then Rollback(before, db1) else
    var db2 := InsertTicket(db1, user);
    if user !in before.users || fault == 2 then Rollback(before, db2) else
    var db3 := InsertDebate(db2, db1.nextTicket, title, user);
    if fault == 3 || HasDuplicates(ids) || fault == 4 then Rollback(before, db3) else
    db3.(debates := db3.debates[db1.nextDebate := db3.debates[db1.nextDebate].(tagIds := set i | i in ids)])
  }

  /** Statements: 0 tags, 1 ticket, 2 debate, 3 tag associations (no tag twice), 4 commit. */
  function CreateDebateStep(db: Db, user: int, title: string, tagIds: seq<int>, createdTags: Option<nat>, fault: nat): Db {
    if createdTags.Some? && fault == 0 then db else
    var db1 := if createdTags.Some? then InsertTags(db, createdTags.value) else db;
    ProposeDebate(db, db1, user, title, ProposedTags(db, tagIds, createdTags), fault)
  }

  predicate DebateCommits(db: Db, user: int, tagIds: seq<int>, createdTags: Option<nat>, fault: nat) {
    && user in db.users
    && !HasDuplicates(ProposedTags(db, tagIds, createdTags))
    && (fault > 4 || (fault == 0 && createdTags.None?))
  }

  /** Statements: 0 ticket, 1 argument (its debate must exist), 2 commit. */
  function CreateArgumentStep(db: Db, user: int, debateId: int, text: Text, fault: nat): Db {
    if fault == 0 then db else
    var db1 := InsertTicket(db, user);
    if user !in db.users || fault == 1 then Rollback(db, db1) else
    var db2 := InsertArgument(db1, debateId, Some(db.nextTicket), text, user, false);
    if debateId !in db.debates || fault == 2 then Rollback(db, db2) else db2
  }

  function SaveArgumentAsDraftStep(db: Db, user: int, debateId: int, text: Text, fault: nat): Db {
    if fault == 0 then db else
    var db1 := InsertArgument(db, debateId, None, text, user, true);
    if user !in db.users || debateId !in db.debates then Rollback(db, db1) else db1
  }

  predicate DraftMatches(db: Db, user: int, debateId: int, argumentId: int) {
    && argumentId in db.arguments
    && db.arguments[argumentId].debateId == debateId
    && db.arguments[argumentId].createdBy == user
  }

  function WithText(a: Argument, text: Text): Argument {
    a.(title := text.title, content := text.content, counterargumentTo := text.counterargumentTo, side := text.side)
  }

  function UpdateDraftStep(db: Db, user: int, debateId: int, draftId: int, text: Text, fault: nat): Db {
    if fault == 0 || !DraftMatches(db, user, debateId, draftId) || !db.arguments[draftId].isDraft then db
    else db.(arguments := db.arguments[draftId := WithText(db.arguments[draftId], text)])
  }

  /** Statements: 0 ticket, 1 argument, 2 commit. The update asks neither for `is_draft` nor for a row count. */
  function SubmitDraftStep(db: Db, user: int, debateId: int, draftId: int, text: Text, fault: nat): Db {
    if fault == 0 then db else
    var db1 := InsertTicket(db, user);
    if user !in db.users || fault == 1 || fault == 2 then Rollback(db, db1) else
    if !DraftMatches(db, user, debateId, draftId) then db1
    else db1.(arguments := db1.arguments[draftId :=
                WithText(db.arguments[draftId], text).(isDraft := false, ticketId := Some(db.nextTicket))])
  }

  predicate ArgumentEditable(db: Db, user: int, argumentId: int) {
    && argumentId in db.arguments
    && db.arguments[argumentId].createdBy == user
    && db.arguments[argumentId].ticketId.Some?
    && db.arguments[argumentId].ticketId.value in db.tickets
    && db.tickets[db.arguments[argumentId].ticketId.value].boardList != ACCEPTED
  }

  function UpdateArgumentStep(db: Db, user: int, argumentId: int, title: string, content: string, fault: nat): Db {
    if fault == 0 || !ArgumentEditable(db, user, argumentId) then db
    else db.(arguments := db.arguments[argumentId := db.arguments[argumentId].(title := title, content := content)])
  }

  predicate DebateEditable(db: Db, user: int, debateId: int) {
    && debateId in db.debates
    && db.debates[debateId].createdBy == user
    && db.debates[debateId].ticketId in db.tickets
    && db.tickets[db.debates[debateId].ticketId].boardList != ACCEPTED
  }

  function UpdateDebateStep(db: Db, user: int, debateId: int, title: string, fault: nat): Db {
    if fault == 0 || !DebateEditable(db, user, debateId) then db
    else db.(debates := db.debates[debateId := db.debates[debateId].(title := title)])
  }

  // ---------------------------------------------------------------- ModeratorService

  /** The labels of the enum `board_list_type`; any other text makes the statement raise. */
  function ParseBoardList(listName: string): Option<BoardList> {
    if listName == "PENDING" then Some(PENDING)
    else if listName == "IN REVIEW" then Some(IN_REVIEW)
    else if listName == "CANCELED" then Some(CANCELED)
    else if listName == "ACCEPTED" then Some(ACCEPTED)
    else None
  }

  function BoardListName(list: BoardList): string {
    match list
    case PENDING => "PENDING"
    case IN_REVIEW => "IN REVIEW"
    case CANCELED => "CANCELED"
    case ACCEPTED => "ACCEPTED"
  }

  /** The WHERE clause of `updateTicket`; a null `assigned_to` equals nobody. */
  predicate TicketUpdatable(db: Db, moderator: int, ticketId: int) {
    && ticketId in db.tickets
    && (db.tickets[ticketId].boardList == PENDING || db.tickets[ticketId].assignedTo == Some(moderator))
  }

  /** The SET clause; `board_list` on its right-hand side is the value before the update. */
  function MovedTicket(t: Ticket, moderator: int, target: BoardList): Ticket {
    Ticket(t.createdBy,
           if t.boardList == PENDING then Some(moderator) else if target == PENDING then None else t.assignedTo,
           target)
  }

  function UpdateTicketStep(db: Db, moderator: int, ticketId: int, listName: string, fault: nat): Db {
    var target := ParseBoardList(listName);
    if fault == 0 || !IsModerator(db, moderator) || target.None? || !TicketUpdatable(db, moderator, ticketId) then db
    else db.(tickets := db.tickets[ticketId := MovedTicket(db.tickets[ticketId], moderator, target.value)])
  }

  predicate TicketApprovable(db: Db, moderator: int, ticketId: int) {
    ticketId in db.tickets && db.tickets[ticketId].assignedTo == Some(moderator)
  }

  function ApproveTicketStep(db: Db, moderator: int, ticketId: int, fault: nat): Db {
    if fault == 0 || !IsModerator(db, moderator) || !TicketApprovable(db, moderator, ticketId) then db
    else db.(tickets := db.tickets[ticketId := db.tickets[ticketId].(boardList := ACCEPTED)])
  }

  // ---------------------------------------------------------------- the tables, updated in place

  class Store {
    var users: map<int, User>
    var tags: set<int>
    var tickets: map<int, Ticket>
    var debates: map<int, Debate>
    var arguments: map<int, Argument>
    var nextTag: int
    var nextTicket: int
    var nextDebate: int
    var nextArgument: int

    function State(): Db
      reads this
    {
      Db(users, tags, tickets, debates, arguments, nextTag, nextTicket, nextDebate, nextArgument)
    }

    constructor (users: map<int, User>)
      ensures Fresh(State()) && State().users == users && State().tags == {}
    {
      this.users := users;
      tags, tickets, debates, arguments := {}, map[], map[], map[];
      nextTag, nextTicket, nextDebate, nextArgument := 1, 1, 1, 1;
    }

    /** ROLLBACK of the transaction that began in `before`. */
    method Restore(before: Db)
      requires before.users == users
      modifies this
      ensures State() == Rollback(before, old(State()))
    {
      tags, tickets, debates, arguments := before.tags, before.tickets, before.debates, before.arguments;
    }

    method AddTags(count: nat) returns (ids: seq<int>)
      modifies this
      ensures State() == InsertTags(old(State()), count)
      ensures ids == Drawn(old(nextTag), count)
    {
      ids := Drawn(nextTag, count);
      tags := tags + (set i | i in ids);
      nextTag := nextTag + count;
    }

    method AddTicket(user: int) returns (id: int)
      modifies this
      ensures State() == InsertTicket(old(State()), user)
      ensures id == old(nextTicket)
    {
      id := nextTicket;
      tickets := tickets[id := Ticket(user, None, PENDING)];
      nextTicket := nextTicket + 1;
    }

    method AddDebate(ticketId: int, title: string, user: int) returns (id: int)
      modifies this
      ensures State() == InsertDebate(old(State()), ticketId, title, user)
      ensures id == old(nextDebate)
    {
      id := nextDebate;
      debates := debates[id := Debate(ticketId, title, user, {})];
      nextDebate := nextDebate + 1;
    }

    method AddArgument(debateId: int, ticketId: Option<int>, text: Text, user: int, isDraft: bool)
      modifies this
      ensures State() == InsertArgument(old(State()), debateId, ticketId, text, user, isDraft)
    {
      arguments := arguments[nextArgument := Argument(debateId, ticketId, text.title, text.content,
                                                      text.counterargumentTo, user, text.side, isDraft)];
      nextArgument := nextArgument + 1;
    }

    method CreateDebate(user: int, title: string, tagIds: seq<int>, createdTags: Option<nat>, fault: nat)
      returns (outcome: Outcome)
      modifies this
      ensures State() == CreateDebateStep(old(State()), user, title, tagIds, createdTags, fault)
      ensures outcome == if DebateCommits(old(State()), user, tagIds, createdTags, fault) then Done else Failed
    {
      var before := State();
      var tagsIdsArr := tagIds;
      if createdTags.Some? {
        if fault == 0 { return Failed; }
        var createdIds := AddTags(createdTags.value);
        tagsIdsArr := tagsIdsArr + createdIds;
      }
      if fault == 1 {
        Restore(before);
        return Failed;
      }
      var ticketId := AddTicket(user);
      if user !in users || fault == 2 {
        Restore(before);
        return Failed;
      }
      var debateId := AddDebate(ticketId, title, user);
      if fault == 3 || HasDuplicates(tagsIdsArr) || fault == 4 {
        Restore(before);
        return Failed;
      }
      debates := debates[debateId := debates[debateId].(tagIds := set i | i in tagsIdsArr)];
      return Done;
    }

    method CreateArgument(user: int, debateId: int, text: Text, fault: nat) returns (outcome: Outcome)
      modifies this
      ensures State() == CreateArgumentStep(old(State()), user, debateId, text, fault)
      ensures outcome == if fault > 2 && user in users && debateId in debates then Done else Failed
    {
      var before := State();
      if fault == 0 { return Failed; }
      var ticketId := AddTicket(user);
      if user !in users || fault == 1 {
        Restore(before);
        return Failed;
      }
      AddArgument(debateId, Some(ticketId), text, user, false);
      if debateId !in debates || fault == 2 {
        Restore(before);
        return Failed;
      }
      return Done;
    }

    method SaveArgumentAsDraft(user: int, debateId: int, text: Text, fault: nat) returns (outcome: Outcome)
      modifies this
      ensures State() == SaveArgumentAsDraftStep(old(State()), user, debateId, text, fault)
      ensures outcome == if fault > 0 && user in users && debateId in debates then Done else Failed
    {
      var before := State();
      if fault == 0 { return Failed; }
      AddArgument(debateId, None, text, user, true);
      if user !in users || debateId !in debates {
        Restore(before);
        return Failed;
      }
      return Done;
    }

    method UpdateDraft(user: int, debateId: int, draftId: int, text: Text, fault: nat) returns (outcome: Outcome)
      modifies this
      ensures State() == UpdateDraftStep(old(State()), user, debateId, draftId, text, fault)
      ensures outcome ==
              if fault > 0 && draftId in old(arguments) && old(arguments)[draftId].debateId == debateId &&
                 old(arguments)[draftId].createdBy == user && old(arguments)[draftId].isDraft
              then Done else Failed
    {
      if fault == 0 { return Failed; }
      if draftId in arguments && arguments[draftId].debateId == debateId && arguments[draftId].createdBy == user &&
         arguments[draftId].isDraft
      {
        arguments := arguments[draftId := WithText(arguments[draftId], text)];
        return Done;
      }
      return Failed;
    }

    method SubmitDraft(user: int, debateId: int, draftId: int, text: Text, fault: nat) returns (outcome: Outcome)
      modifies this
      ensures State() == SubmitDraftStep(old(State()), user, debateId, draftId, text, fault)
      ensures outcome == if fault > 2 && user in users then Done else Failed
    {
      var before := State();
      if fault == 0 { return Failed; }
      var ticketId := AddTicket(user);
      if user !in users || fault == 1 {
        Restore(before);
        return Failed;
      }
      if draftId in arguments && arguments[draftId].debateId == debateId && arguments[draftId].createdBy == user {
        arguments := arguments[draftId :=
                       WithText(arguments[draftId], text).(isDraft := false, ticketId := Some(ticketId))];
      }
      if fault == 2 {
        Restore(before);
        return Failed;
      }
      return Done;
    }

    method UpdateArgument(user: int, argumentId: int, title: string, content: string, fault: nat)
      returns (outcome: Outcome, rowCount: nat)
      modifies this
      ensures State() == UpdateArgumentStep(old(State()), user, argumentId, title, content, fault)
      ensures outcome == if fault == 0 then Failed else Done
      ensures rowCount ==
              if fault > 0 && argumentId in old(arguments) && old(arguments)[argumentId].createdBy == user &&
                 old(arguments)[argumentId].ticketId.Some? && old(arguments)[argumentId].ticketId.value in old(tickets) &&
                 old(tickets)[old(arguments)[argumentId].ticketId.value].boardList != ACCEPTED
              then 1 else 0
    {
      if fault == 0 { return Failed, 0; }
      if argumentId in arguments && arguments[argumentId].createdBy == user {
        var ticketId := arguments[argumentId].ticketId;
        if ticketId.Some? && ticketId.value in tickets && tickets[ticketId.value].boardList != ACCEPTED {
          arguments := arguments[argumentId := arguments[argumentId].(title := title, content := content)];
          return Done, 1;
        }
      }
      return Done, 0;
    }

    method UpdateDebate(user: int, debateId: int, title: string, fault: nat) returns (outcome: Outcome, rowCount: nat)
      modifies this
      ensures State() == UpdateDebateStep(old(State()), user, debateId, title, fault)
      ensures outcome == if fault == 0 then Failed else Done
      ensures rowCount ==
              if fault > 0 && debateId in old(debates) && old(debates)[debateId].createdBy == user &&
                 old(debates)[debateId].ticketId in old(tickets) &&
                 old(tickets)[old(debates)[debateId].ticketId].boardList != ACCEPTED
              then 1 else 0
    {
      if fault == 0 { return Failed, 0; }
      if debateId in debates && debates[debateId].createdBy == user {
        var ticketId := debates[debateId].ticketId;
        if ticketId in tickets && tickets[ticketId].boardList != ACCEPTED {
          debates := debates[debateId := debates[debateId].(title := title)];
          return Done, 1;
        }
      }
      return Done, 0;
    }

    method UpdateTicket(moderator: int, ticketId: int, listName: string, fault: nat) returns (outcome: Outcome)
      requires IsModerator(State(), moderator)
      modifies this
      ensures State() == UpdateTicketStep(old(State()), moderator, ticketId, listName, fault)
      ensures outcome ==
              if fault == 0 || ParseBoardList(listName).None? then Failed
              else if TicketUpdatable(old(State()), moderator, ticketId) then Done else NotFound
    {
      var boardList := ParseBoardList(listName);
      if fault == 0 || boardList.None? { return Failed; }
      if ticketId in tickets {
        var t := tickets[ticketId];
        if t.boardList == PENDING || (t.boardList != PENDING && t.assignedTo == Some(moderator)) {
          var assignedTo :=
            if t.boardList == PENDING then Some(moderator)
            else if listName == "PENDING" then None
            else t.assignedTo;
          tickets := tickets[ticketId := Ticket(t.createdBy, assignedTo, boardList.value)];
          return Done;
        }
      }
      return NotFound;
    }

    method ApproveTicket(moderator: int, ticketId: int, fault: nat) returns (outcome: Outcome, createdBy: Option<int>)
      requires IsModerator(State(), moderator)
      modifies this
      ensures State() == ApproveTicketStep(old(State()), moderator, ticketId, fault)
      ensures outcome ==
              if fault == 0 then Failed else if TicketApprovable(old(State()), moderator, ticketId) then Done else NotFound
      ensures createdBy == if outcome.Done? then Some(old(tickets)[ticketId].createdBy) else None
    {
      if fault == 0 { return Failed, None; }
      if ticketId in tickets && tickets[ticketId].assignedTo == Some(moderator) {
        tickets := tickets[ticketId := tickets[ticketId].(boardList := ACCEPTED)];
        return Done, Some(tickets[ticketId].createdBy);
      }
      return NotFound, None;
    }
  }
}

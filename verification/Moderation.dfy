/** Moderation as a transition system: what every step keeps, and what holds over whole runs. */
module Moderation {
  import opened Schema
  import opened Services

  datatype Step =
    | CreateDebate(user: int, title: string, tagIds: seq<int>, createdTags: Option<nat>, fault: nat)
    | CreateArgument(user: int, debateId: int, text: Text, fault: nat)
    | SaveArgumentAsDraft(user: int, debateId: int, text: Text, fault: nat)
    | UpdateDraft(user: int, debateId: int, draftId: int, text: Text, fault: nat)
    | SubmitDraft(user: int, debateId: int, draftId: int, text: Text, fault: nat)
    | UpdateArgument(user: int, argumentId: int, title: string, content: string, fault: nat)
    | UpdateDebate(user: int, debateId: int, title: string, fault: nat)
    | UpdateTicket(user: int, ticketId: int, listName: string, fault: nat)
    | ApproveTicket(user: int, ticketId: int, fault: nat)

  function Apply(db: Db, s: Step): Db {
    match s
    case CreateDebate(user, title, tagIds, createdTags, fault) =>
      CreateDebateStep(db, user, title, tagIds, createdTags, fault)
    case CreateArgument(user, debateId, text, fault) => CreateArgumentStep(db, user, debateId, text, fault)
    case SaveArgumentAsDraft(user, debateId, text, fault) => SaveArgumentAsDraftStep(db, user, debateId, text, fault)
    case UpdateDraft(user, debateId, draftId, text, fault) => UpdateDraftStep(db, user, debateId, draftId, text, fault)
    case SubmitDraft(user, debateId, draftId, text, fault) => SubmitDraftStep(db, user, debateId, draftId, text, fault)
    case UpdateArgument(user, argumentId, title, content, fault) =>
      UpdateArgumentStep(db, user, argumentId, title, content, fault)
    case UpdateDebate(user, debateId, title, fault) => UpdateDebateStep(db, user, debateId, title, fault)
    case UpdateTicket(user, ticketId, listName, fault) => UpdateTicketStep(db, user, ticketId, listName, fault)
    case ApproveTicket(user, ticketId, fault) => ApproveTicketStep(db, user, ticketId, fault)
  }

  /** A run: any steps, by any users, in any order, from a freshly migrated database. */
  ghost predicate Run(trace: seq<Db>, steps: seq<Step>) {
    && |trace| == |steps| + 1
    && Fresh(trace[0])
    && forall i :: 0 <= i < |steps| ==> trace[i + 1] == Apply(trace[i], steps[i])
  }

  // ---------------------------------------------------------------- every step keeps consistency

  lemma TicketInsertKeeps(db: Db, user: int)
    requires Consistent(db)
    ensures Consistent(InsertTicket(db, user)) && Unreferenced(InsertTicket(db, user), db.nextTicket)
  {
    var db' := InsertTicket(db, user);
    assert forall t :: t in db'.tickets ==> t == db.nextTicket || t in db.tickets;
  }

  lemma RollbackKeeps(before: Db, after: Db)
    requires Consistent(before)
    requires before.nextTicket <= after.nextTicket && before.nextDebate <= after.nextDebate
    requires before.nextArgument <= after.nextArgument
    ensures Consistent(Rollback(before, after))
  {
  }

  lemma ArgumentInsertKeeps(db: Db, debateId: int, ticketId: Option<int>, text: Text, user: int, isDraft: bool)
    requires Consistent(db) && debateId in db.debates && (isDraft <==> ticketId.None?)
    requires ticketId.Some? ==> ticketId.value in db.tickets && db.tickets[ticketId.value].createdBy == user
    requires ticketId.Some? ==> Unreferenced(db, ticketId.value)
    ensures Consistent(InsertArgument(db, debateId, ticketId, text, user, isDraft))
  {
    var db' := InsertArgument(db, debateId, ticketId, text, user, isDraft);
    assert forall a :: a in db'.arguments ==> a == db.nextArgument || (a in db.arguments && db'.arguments[a] == db.arguments[a]);
  }

  lemma DebateInsertKeeps(db: Db, ticketId: int, title: string, user: int)
    requires Consistent(db) && ticketId in db.tickets && db.tickets[ticketId].createdBy == user
    requires Unreferenced(db, ticketId)
    ensures Consistent(InsertDebate(db, ticketId, title, user))
  {
    var db' := InsertDebate(db, ticketId, title, user);
    assert forall d :: d in db'.debates ==> d == db.nextDebate || (d in db.debates && db'.debates[d] == db.debates[d]);
  }

  /** Replacing an argument's row keeps consistency when its debate and author stay, and its
      ticket stays or becomes an unreferenced one of the same author. */
  lemma ArgumentUpdateKeeps(db: Db, a: int, row: Argument)
    requires Consistent(db) && a in db.arguments
    requires row.debateId == db.arguments[a].debateId && row.createdBy == db.arguments[a].createdBy
    requires row.isDraft <==> row.ticketId.None?
    requires row.ticketId.Some? && row.ticketId != db.arguments[a].ticketId ==>
               && row.ticketId.value in db.tickets
               && db.tickets[row.ticketId.value].createdBy == row.createdBy
               && Unreferenced(db, row.ticketId.value)
    ensures Consistent(db.(arguments := db.arguments[a := row]))
  {
  }

  lemma DebateUpdateKeeps(db: Db, d: int, row: Debate)
    requires Consistent(db) && d in db.debates
    requires row.ticketId == db.debates[d].ticketId && row.createdBy == db.debates[d].createdBy
    ensures Consistent(db.(debates := db.debates[d := row]))
  {
  }

  lemma TicketUpdateKeeps(db: Db, t: int, row: Ticket)
    requires Consistent(db) && t in db.tickets
    requires row.createdBy == db.tickets[t].createdBy
    requires row.boardList != PENDING ==> row.assignedTo.Some?
    requires row.assignedTo.Some? ==> IsModerator(db, row.assignedTo.value)
    ensures Consistent(db.(tickets := db.tickets[t := row]))
  {
  }

  lemma TagsInsertKeeps(db: Db, count: nat)
    requires Consistent(db)
    ensures Consistent(InsertTags(db, count))
  {
  }

  lemma ProposalKeeps(before: Db, db1: Db, user: int, title: string, ids: seq<int>, fault: nat)
    requires Consistent(before) && Consistent(db1)
    requires db1.nextTicket == before.nextTicket && db1.nextDebate == before.nextDebate
    requires db1.nextArgument == before.nextArgument
    ensures Consistent(ProposeDebate(before, db1, user, title, ids, fault))
  {
    var db2 := InsertTicket(db1, user);
    var db3 := InsertDebate(db2, db1.nextTicket, title, user);
    if fault == 1 {
      RollbackKeeps(before, db1);
    } else if user !in before.users || fault == 2 {
      RollbackKeeps(before, db2);
    } else if fault == 3 || HasDuplicates(ids) || fault == 4 {
      RollbackKeeps(before, db3);
    } else {
      TicketInsertKeeps(db1, user);
      DebateInsertKeeps(db2, db1.nextTicket, title, user);
      DebateUpdateKeeps(db3, db1.nextDebate, db3.debates[db1.nextDebate].(tagIds := set i | i in ids));
    }
  }

  lemma CreateDebateKeeps(db: Db, s: Step)
    requires Consistent(db) && s.CreateDebate?
    ensures Consistent(Apply(db, s))
  {
    var db1 := if s.createdTags.Some? then InsertTags(db, s.createdTags.value) else db;
    if s.createdTags.Some? { TagsInsertKeeps(db, s.createdTags.value); }
    ProposalKeeps(db, db1, s.user, s.title, ProposedTags(db, s.tagIds, s.createdTags), s.fault);
  }

  lemma CreateArgumentKeeps(db: Db, s: Step)
    requires Consistent(db) && s.CreateArgument?
    ensures Consistent(Apply(db, s))
  {
    var db1 := InsertTicket(db, s.user);
    var db2 := InsertArgument(db1, s.debateId, Some(db.nextTicket), s.text, s.user, false);
    if s.user !in db.users || s.fault <= 1 {
      RollbackKeeps(db, db1);
    } else if s.debateId !in db.debates || s.fault == 2 {
      RollbackKeeps(db, db2);
    } else {
      TicketInsertKeeps(db, s.user);
      ArgumentInsertKeeps(db1, s.debateId, Some(db.nextTicket), s.text, s.user, false);
    }
  }

  lemma SubmitDraftKeeps(db: Db, s: Step)
    requires Consistent(db) && s.SubmitDraft?
    ensures Consistent(Apply(db, s))
  {
    var db1 := InsertTicket(db, s.user);
    TicketInsertKeeps(db, s.user);
    RollbackKeeps(db, db1);
    if DraftMatches(db, s.user, s.debateId, s.draftId) {
      ArgumentUpdateKeeps(db1, s.draftId,
                          WithText(db.arguments[s.draftId], s.text).(isDraft := false, ticketId := Some(db.nextTicket)));
    }
  }

  /** Item and ticket invariant: every step, failing at any statement or not, keeps it. */
  lemma StepKeepsConsistent(db: Db, s: Step)
    requires Consistent(db)
    ensures Consistent(Apply(db, s))
  {
    match s
    case CreateDebate(_, _, _, _, _) => CreateDebateKeeps(db, s);
    case CreateArgument(_, _, _, _) => CreateArgumentKeeps(db, s);
    case SaveArgumentAsDraft(user, debateId, text, _) =>
      RollbackKeeps(db, InsertArgument(db, debateId, None, text, user, true));
      if debateId in db.debates { ArgumentInsertKeeps(db, debateId, None, text, user, true); }
    case UpdateDraft(_, _, draftId, text, _) =>
      if draftId in db.arguments { ArgumentUpdateKeeps(db, draftId, WithText(db.arguments[draftId], text)); }
    case SubmitDraft(_, _, _, _, _) => SubmitDraftKeeps(db, s);
    case UpdateArgument(_, argumentId, title, content, _) =>
      if argumentId in db.arguments {
        ArgumentUpdateKeeps(db, argumentId, db.arguments[argumentId].(title := title, content := content));
      }
    case UpdateDebate(_, debateId, title, _) =>
      if debateId in db.debates { DebateUpdateKeeps(db, debateId, db.debates[debateId].(title := title)); }
    case UpdateTicket(user, ticketId, listName, _) =>
      var target := ParseBoardList(listName);
      if target.Some? && TicketUpdatable(db, user, ticketId) && IsModerator(db, user) {
        TicketUpdateKeeps(db, ticketId, MovedTicket(db.tickets[ticketId], user, target.value));
      }
    case ApproveTicket(user, ticketId, _) =>
      if TicketApprovable(db, user, ticketId) {
        TicketUpdateKeeps(db, ticketId, db.tickets[ticketId].(boardList := ACCEPTED));
      }
  }

  lemma {:induction false} RunIsConsistent(trace: seq<Db>, steps: seq<Step>, n: nat)
    requires Run(trace, steps) && n < |trace|
    ensures Consistent(trace[n])
  {
    if n > 0 {
      RunIsConsistent(trace, steps, n - 1);
      StepKeepsConsistent(trace[n - 1], steps[n - 1]);
    }
  }

  // ---------------------------------------------------------------- transactions and rights

  /** The tables agree; the sequences may have moved on. */
  predicate SameTables(a: Db, b: Db) {
    && a.users == b.users && a.tags == b.tags && a.tickets == b.tickets
    && a.debates == b.debates && a.arguments == b.arguments
  }

  /** The position of a step's last statement, its COMMIT where it has one. */
  function LastStatement(s: Step): nat {
    match s
    case CreateDebate(_, _, _, _, _) => 4
    case CreateArgument(_, _, _, _) => 2
    case SubmitDraft(_, _, _, _, _) => 2
    case _ => 0
  }

  /** A statement of the step raises; without new tags a proposal has no statement 0. */
  predicate Faulty(s: Step) {
    s.fault <= LastStatement(s) && !(s.CreateDebate? && s.createdTags.None? && s.fault == 0)
  }

  /** All or nothing: a step in which any statement raises leaves every table as it was, and one in which
      none does has one outcome. */
  lemma AllOrNothing(db: Db, s: Step)
    ensures if Faulty(s) then SameTables(Apply(db, s), db) else Apply(db, s) == Apply(db, s.(fault := 5))
  {
    match s
    case CreateDebate(user, title, tagIds, createdTags, fault) =>
      var db1 := if createdTags.Some? then InsertTags(db, createdTags.value) else db;
      ProposalIsAllOrNothing(db, db1, user, title, ProposedTags(db, tagIds, createdTags), fault);
    case CreateArgument(user, debateId, text, fault) => CreateArgumentIsAllOrNothing(db, user, debateId, text, fault);
    case SubmitDraft(user, debateId, draftId, text, fault) =>
      SubmitDraftIsAllOrNothing(db, user, debateId, draftId, text, fault);
    case _ =>
  }

  lemma CreateArgumentIsAllOrNothing(db: Db, user: int, debateId: int, text: Text, fault: nat)
    ensures fault <= 2 ==> SameTables(CreateArgumentStep(db, user, debateId, text, fault), db)
    ensures fault > 2 ==>
              CreateArgumentStep(db, user, debateId, text, fault) == CreateArgumentStep(db, user, debateId, text, 5)
  {
  }

  lemma SubmitDraftIsAllOrNothing(db: Db, user: int, debateId: int, draftId: int, text: Text, fault: nat)
    ensures fault <= 2 ==> SameTables(SubmitDraftStep(db, user, debateId, draftId, text, fault), db)
    ensures fault > 2 ==>
              SubmitDraftStep(db, user, debateId, draftId, text, fault) ==
              SubmitDraftStep(db, user, debateId, draftId, text, 5)
  {
  }

  lemma ProposalIsAllOrNothing(before: Db, db1: Db, user: int, title: string, ids: seq<int>, fault: nat)
    requires before.users == db1.users
    ensures 1 <= fault <= 4 ==> SameTables(ProposeDebate(before, db1, user, title, ids, fault), before)
    ensures !(1 <= fault <= 4) ==>
              ProposeDebate(before, db1, user, title, ids, fault) == ProposeDebate(before, db1, user, title, ids, 5)
  {
  }

  function TextOf(a: Argument): Text {
    Text(a.title, a.content, a.counterargumentTo, a.side)
  }

  /** The step is an edit of argument `a` that its author may make and that takes effect: of a draft by the
      draft requests, of a submitted argument while it is not accepted, or by a submission in either case. */
  predicate EditsArgument(db: Db, s: Step, a: int)
    requires a in db.arguments
  {
    && !Faulty(s) && s.user == db.arguments[a].createdBy
    && match s
       case UpdateArgument(_, id, _, _, _) => id == a && !db.arguments[a].isDraft && !ArgumentOn(db, a, ACCEPTED)
       case UpdateDraft(_, debateId, id, _, _) => id == a && debateId == db.arguments[a].debateId && db.arguments[a].isDraft
       case SubmitDraft(user, debateId, id, _, _) => id == a && debateId == db.arguments[a].debateId && user in db.users
       case _ => false
  }

  /** The text the step sends for an argument that reads `text` now. */
  function SentText(s: Step, text: Text): Text {
    match s
    case UpdateArgument(_, _, title, content, _) => text.(title := title, content := content)
    case UpdateDraft(_, _, _, sent, _) => sent
    case SubmitDraft(_, _, _, sent, _) => sent
    case _ => text
  }

  /** Arguments are never deleted and keep their author and debate. A step changes one only if it is its
      author's; it stores the text it sends exactly when it is an edit that may take effect, and becomes a
      new submission exactly when it is a submission. */
  lemma OnlyAuthorsChangeArguments(db: Db, s: Step, a: int)
    requires Consistent(db) && a in db.arguments
    ensures a in Apply(db, s).arguments
    ensures var before, after := db.arguments[a], Apply(db, s).arguments[a];
            && after.createdBy == before.createdBy && after.debateId == before.debateId
            && (after == before || s.user == before.createdBy)
            && TextOf(after) == (if EditsArgument(db, s, a) then SentText(s, TextOf(before)) else TextOf(before))
            && (after.ticketId != before.ticketId <==> s.SubmitDraft? && EditsArgument(db, s, a))
  {
    match s
    case CreateDebate(_, _, _, _, _) => ProposalAddsOnly(db, s);
    case _ =>
  }

  /** Debates likewise; a debate keeps its ticket and its tags, and its title is replaced exactly by its
      author's edit while it is not accepted. */
  lemma OnlyAuthorsChangeDebates(db: Db, s: Step, d: int)
    requires Consistent(db) && d in db.debates
    ensures d in Apply(db, s).debates
    ensures var before := db.debates[d];
            Apply(db, s).debates[d] ==
            if s.UpdateDebate? && !Faulty(s) && s.debateId == d && s.user == before.createdBy && !DebateOn(db, d, ACCEPTED)
            then before.(title := s.title) else before
  {
    if s.CreateDebate? { ProposalAddsOnly(db, s); }
  }

  lemma ProposalTickets(before: Db, db1: Db, user: int, title: string, ids: seq<int>, fault: nat)
    requires before.tickets == db1.tickets && db1.nextTicket !in db1.tickets
    ensures var after := ProposeDebate(before, db1, user, title, ids, fault).tickets;
            after == before.tickets || after == before.tickets[db1.nextTicket := Ticket(user, None, PENDING)]
  {
  }

  /** A step that is not a moderator's adds a pending ticket nobody owns, or none. */
  lemma OthersOnlyAddTickets(db: Db, s: Step)
    requires !s.UpdateTicket? && !s.ApproveTicket? && Consistent(db)
    ensures var after := Apply(db, s).tickets;
            after == db.tickets || after == db.tickets[db.nextTicket := Ticket(s.user, None, PENDING)]
  {
    if s.CreateDebate? {
      var db1 := if s.createdTags.Some? then InsertTags(db, s.createdTags.value) else db;
      ProposalTickets(db, db1, s.user, s.title, ProposedTags(db, s.tagIds, s.createdTags), s.fault);
    }
  }

  /** A ticket that exists is never deleted, keeps its creator, and is changed by moderators only. */
  lemma OnlyModeratorsChangeTickets(db: Db, s: Step, t: int)
    requires Consistent(db) && t in db.tickets
    ensures t in Apply(db, s).tickets && Apply(db, s).tickets[t].createdBy == db.tickets[t].createdBy
    ensures Apply(db, s).tickets[t] == db.tickets[t] || IsModerator(db, s.user)
  {
    if !s.UpdateTicket? && !s.ApproveTicket? { OthersOnlyAddTickets(db, s); }
  }

  lemma ProposalAddsOnly(db: Db, s: Step)
    requires Consistent(db) && s.CreateDebate?
    ensures Apply(db, s).arguments == db.arguments
    ensures forall d :: d in db.debates ==> d in Apply(db, s).debates && Apply(db, s).debates[d] == db.debates[d]
  {
    var db1 := if s.createdTags.Some? then InsertTags(db, s.createdTags.value) else db;
    ProposalAdds(db, db1, s.user, s.title, ProposedTags(db, s.tagIds, s.createdTags), s.fault);
  }

  lemma ProposalAdds(before: Db, db1: Db, user: int, title: string, ids: seq<int>, fault: nat)
    requires Consistent(before) && SameTables(before, db1.(tags := before.tags))
    requires db1.nextDebate == before.nextDebate
    ensures var after := ProposeDebate(before, db1, user, title, ids, fault);
            && after.arguments == before.arguments
            && (forall d :: d in before.debates ==> d in after.debates && after.debates[d] == before.debates[d])
  {
  }

  /** A proposal either stores the debate as proposed, under all of the chosen and the new tags and with a
      pending ticket nobody owns, or it stores nothing; it is stored, and reported as a success, exactly when
      no statement raises, the author exists and no tag is named twice. */
  lemma ProposalIsStored(db: Db, user: int, title: string, tagIds: seq<int>, createdTags: Option<nat>, fault: nat)
    requires Consistent(db)
    ensures var s := CreateDebate(user, title, tagIds, createdTags, fault);
            var db' := Apply(db, s);
            var count := if createdTags.Some? then createdTags.value else 0;
            var ids := tagIds + seq(count, i => db.nextTag + i);
            var commits := !Faulty(s) && user in db.users && forall i, j :: 0 <= i < j < |ids| ==> ids[i] != ids[j];
            && (DebateCommits(db, user, tagIds, createdTags, fault) <==> commits)
            && if commits then
                 && db'.debates.Keys == db.debates.Keys + {db.nextDebate}
                 && var d := db'.debates[db.nextDebate];
                    && d.title == title && d.createdBy == user
                    && (forall i :: i in d.tagIds <==> i in tagIds || db.nextTag <= i < db.nextTag + count)
                    && (forall i :: i in db'.tags <==> i in db.tags || db.nextTag <= i < db.nextTag + count)
                    && d.ticketId !in db.tickets && d.ticketId in db'.tickets
                    && db'.tickets[d.ticketId] == Ticket(user, None, PENDING)
               else SameTables(db', db)
  {
    var s := CreateDebate(user, title, tagIds, createdTags, fault);
    var count := if createdTags.Some? then createdTags.value else 0;
    var created := seq(count, i => db.nextTag + i);
    var db1 := if createdTags.Some? then InsertTags(db, createdTags.value) else db;
    assert ProposedTags(db, tagIds, createdTags) == tagIds + created;
    DrawnTags(db.nextTag, count);
    if Faulty(s) {
      AllOrNothing(db, s);
    } else {
      ProposalStores(db, db1, user, title, tagIds + created, fault);
    }
  }

  lemma DrawnTags(next: int, count: nat)
    ensures Drawn(next, count) == seq(count, i => next + i)
    ensures forall i :: i in Drawn(next, count) <==> next <= i < next + count
  {
    forall i | next <= i < next + count ensures i in Drawn(next, count) {
      assert Drawn(next, count)[i - next] == i;
    }
  }

  lemma ProposalStores(before: Db, db1: Db, user: int, title: string, ids: seq<int>, fault: nat)
    requires before.users == db1.users && !(1 <= fault <= 4)
    ensures var after := ProposeDebate(before, db1, user, title, ids, fault);
            if user in before.users && !HasDuplicates(ids) then
              && after.debates == db1.debates[db1.nextDebate := Debate(db1.nextTicket, title, user, set i | i in ids)]
              && after.tickets == db1.tickets[db1.nextTicket := Ticket(user, None, PENDING)]
              && after.tags == db1.tags
            else SameTables(after, before)
  {
  }

  /** Both ways to propose an argument meet: saving a draft, with any text, and submitting it with `text`
      gives the very database that creating the argument with `text` gives. */
  lemma DraftThenSubmitIsCreate(db: Db, user: int, debateId: int, draft: Text, text: Text)
    requires Consistent(db)
    ensures var saved := Apply(db, SaveArgumentAsDraft(user, debateId, draft, 5));
            var created := Apply(db, CreateArgument(user, debateId, text, 5));
            var submitted := Apply(saved, SubmitDraft(user, debateId, db.nextArgument, text, 5));
            if user in db.users && debateId in db.debates
            then && TextOf(saved.arguments[db.nextArgument]) == draft && saved.tickets == db.tickets
                 && submitted == created && TextOf(created.arguments[db.nextArgument]) == text
                 && created.arguments[db.nextArgument].createdBy == user
                 && created.arguments[db.nextArgument].debateId == debateId
                 && ArgumentOn(created, db.nextArgument, PENDING)
                 && created.tickets == db.tickets[created.arguments[db.nextArgument].ticketId.value := Ticket(user, None, PENDING)]
            else SameTables(created, db) && SameTables(saved, db)
  {
    var saved := Apply(db, SaveArgumentAsDraft(user, debateId, draft, 5));
    var created := Apply(db, CreateArgument(user, debateId, text, 5));
    var submitted := Apply(saved, SubmitDraft(user, debateId, db.nextArgument, text, 5));
    if user in db.users && debateId in db.debates {
      assert submitted.arguments == created.arguments;
      assert submitted.tickets == created.tickets;
    }
  }

  // ---------------------------------------------------------------- the public sees what was approved

  /** Step `s`, taken in `db`, moves ticket `t` onto ACCEPTED; only a moderator's step can. */
  predicate Approves(db: Db, s: Step, t: int) {
    && (s.UpdateTicket? || s.ApproveTicket?)
    && IsModerator(db, s.user)
    && s.ticketId == t
    && t in db.tickets && db.tickets[t].boardList != ACCEPTED
    && t in Apply(db, s).tickets && Apply(db, s).tickets[t].boardList == ACCEPTED
  }

  /** A ticket found on ACCEPTED was there with the same owner, or was just put there by its owner. */
  lemma AcceptedTicketOrigin(db: Db, s: Step, t: int)
    requires Consistent(db)
    requires t in Apply(db, s).tickets && Apply(db, s).tickets[t].boardList == ACCEPTED
    ensures t in db.tickets
    ensures || (db.tickets[t].boardList == ACCEPTED && db.tickets[t].assignedTo == Apply(db, s).tickets[t].assignedTo)
            || (Approves(db, s, t) && Apply(db, s).tickets[t].assignedTo == Some(s.user))
  {
    if !s.UpdateTicket? && !s.ApproveTicket? { OthersOnlyAddTickets(db, s); }
  }

  /** The whole row of an argument whose ticket is on ACCEPTED is the row it had before the step. */
  lemma AcceptedArgumentOrigin(db: Db, s: Step, a: int)
    requires Consistent(db) && ArgumentOn(Apply(db, s), a, ACCEPTED)
    ensures a in db.arguments && db.arguments[a] == Apply(db, s).arguments[a]
  {
    AcceptedTicketOrigin(db, s, Apply(db, s).arguments[a].ticketId.value);
  }

  lemma AcceptedDebateOrigin(db: Db, s: Step, d: int)
    requires Consistent(db) && DebateOn(Apply(db, s), d, ACCEPTED)
    ensures d in db.debates && db.debates[d] == Apply(db, s).debates[d]
  {
    AcceptedTicketOrigin(db, s, Apply(db, s).debates[d].ticketId);
  }

  /** From moment `k` to moment `n` the ticket is on ACCEPTED and belongs to `owner`. */
  ghost predicate AcceptedThroughout(trace: seq<Db>, k: nat, n: nat, t: int, owner: int)
    requires n < |trace|
  {
    forall j :: k <= j <= n ==> t in trace[j].tickets && trace[j].tickets[t].boardList == ACCEPTED &&
                                trace[j].tickets[t].assignedTo == Some(owner)
  }

  lemma AcceptedTicketFrozen(db: Db, s: Step, t: int)
    requires Consistent(db)
    requires t in Apply(db, s).tickets && Apply(db, s).tickets[t].boardList == ACCEPTED
    requires t in db.tickets && db.tickets[t].boardList == ACCEPTED
    ensures db.tickets[t] == Apply(db, s).tickets[t]
  {
    AcceptedTicketOrigin(db, s, t);
  }

  /** Every stay on ACCEPTED began with a step of the moderator who still owns the ticket. */
  lemma {:induction false} AcceptedSince(trace: seq<Db>, steps: seq<Step>, n: nat, t: int) returns (k: nat)
    requires Run(trace, steps) && n < |trace|
    requires t in trace[n].tickets && trace[n].tickets[t].boardList == ACCEPTED
    ensures k < n && Approves(trace[k], steps[k], t)
    ensures AcceptedThroughout(trace, k + 1, n, t, steps[k].user)
  {
    assert n > 0;
    RunIsConsistent(trace, steps, n - 1);
    AcceptedTicketOrigin(trace[n - 1], steps[n - 1], t);
    if Approves(trace[n - 1], steps[n - 1], t) {
      k := n - 1;
    } else {
      AcceptedTicketFrozen(trace[n - 1], steps[n - 1], t);
      k := AcceptedSince(trace, steps, n - 1, t);
    }
  }

  /** If the argument is on ACCEPTED after step `j`, its row is as it was before. */
  ghost predicate ArgumentKept(trace: seq<Db>, j: nat, a: int)
    requires j + 1 < |trace|
  {
    ArgumentOn(trace[j + 1], a, ACCEPTED) ==>
      a in trace[j].arguments && trace[j].arguments[a] == trace[j + 1].arguments[a]
  }

  ghost predicate DebateKept(trace: seq<Db>, j: nat, d: int)
    requires j + 1 < |trace|
  {
    DebateOn(trace[j + 1], d, ACCEPTED) ==>
      d in trace[j].debates && trace[j].debates[d] == trace[j + 1].debates[d]
  }

  lemma RunKeepsAccepted(trace: seq<Db>, steps: seq<Step>, j: nat, id: int)
    requires Run(trace, steps) && j + 1 < |trace|
    ensures ArgumentKept(trace, j, id) && DebateKept(trace, j, id)
  {
    RunIsConsistent(trace, steps, j);
    if ArgumentOn(trace[j + 1], id, ACCEPTED) { AcceptedArgumentOrigin(trace[j], steps[j], id); }
    if DebateOn(trace[j + 1], id, ACCEPTED) { AcceptedDebateOrigin(trace[j], steps[j], id); }
  }

  lemma {:induction false} ArgumentUnchangedSince(trace: seq<Db>, k: nat, n: nat, a: int, t: int, owner: int)
    requires k < n < |trace| && ArgumentOn(trace[n], a, ACCEPTED) && trace[n].arguments[a].ticketId == Some(t)
    requires AcceptedThroughout(trace, k + 1, n, t, owner)
    requires forall j: nat :: k <= j < n ==> ArgumentKept(trace, j, a)
    ensures forall j :: k <= j <= n ==> a in trace[j].arguments && trace[j].arguments[a] == trace[n].arguments[a]
  {
    assert ArgumentKept(trace, n - 1, a);
    if k < n - 1 {
      assert trace[n - 1].tickets[t].boardList == ACCEPTED;
      ArgumentUnchangedSince(trace, k, n - 1, a, t, owner);
    }
  }

  lemma {:induction false} DebateUnchangedSince(trace: seq<Db>, k: nat, n: nat, d: int, t: int, owner: int)
    requires k < n < |trace| && DebateOn(trace[n], d, ACCEPTED) && trace[n].debates[d].ticketId == t
    requires AcceptedThroughout(trace, k + 1, n, t, owner)
    requires forall j: nat :: k <= j < n ==> DebateKept(trace, j, d)
    ensures forall j :: k <= j <= n ==> d in trace[j].debates && trace[j].debates[d] == trace[n].debates[d]
  {
    assert DebateKept(trace, n - 1, d);
    if k < n - 1 {
      assert trace[n - 1].tickets[t].boardList == ACCEPTED;
      DebateUnchangedSince(trace, k, n - 1, d, t, owner);
    }
  }

  /** The platform's promise: a public argument carries, field for field, what it carried when the
      moderator who still owns its ticket put that ticket on ACCEPTED, and at every moment since. */
  lemma PublicArgumentWasApproved(trace: seq<Db>, steps: seq<Step>, n: nat, a: int) returns (k: nat)
    requires Run(trace, steps) && n < |trace| && PublicArgument(trace[n], a)
    ensures k < n && Approves(trace[k], steps[k], trace[n].arguments[a].ticketId.value)
    ensures AcceptedThroughout(trace, k + 1, n, trace[n].arguments[a].ticketId.value, steps[k].user)
    ensures forall j :: k <= j <= n ==> a in trace[j].arguments && trace[j].arguments[a] == trace[n].arguments[a]
  {
    var t := trace[n].arguments[a].ticketId.value;
    k := AcceptedSince(trace, steps, n, t);
    forall j: nat | k <= j < n ensures ArgumentKept(trace, j, a) {
      RunKeepsAccepted(trace, steps, j, a);
    }
    ArgumentUnchangedSince(trace, k, n, a, t, steps[k].user);
  }

  /** Step `k` put the debate's ticket on ACCEPTED; up to moment `n` its moderator still owns the ticket there
      and the debate's row is as it was then. */
  ghost predicate DebateApprovedAt(trace: seq<Db>, steps: seq<Step>, k: nat, n: nat, d: int)
    requires n < |trace| == |steps| + 1
  {
    && k < n && d in trace[n].debates
    && Approves(trace[k], steps[k], trace[n].debates[d].ticketId)
    && AcceptedThroughout(trace, k + 1, n, trace[n].debates[d].ticketId, steps[k].user)
    && forall j :: k <= j <= n ==> d in trace[j].debates && trace[j].debates[d] == trace[n].debates[d]
  }

  /** A debate reads as a moderator approved it exactly while its ticket is on ACCEPTED. */
  lemma DebateIsApprovedIff(trace: seq<Db>, steps: seq<Step>, n: nat, d: int)
    requires Run(trace, steps) && n < |trace| && d in trace[n].debates
    ensures (exists k: nat :: DebateApprovedAt(trace, steps, k, n, d)) <==> DebateOn(trace[n], d, ACCEPTED)
  {
    if DebateOn(trace[n], d, ACCEPTED) {
      var k := AcceptedDebateWasApproved(trace, steps, n, d);
    }
  }

  lemma AcceptedDebateWasApproved(trace: seq<Db>, steps: seq<Step>, n: nat, d: int) returns (k: nat)
    requires Run(trace, steps) && n < |trace| && DebateOn(trace[n], d, ACCEPTED)
    ensures DebateApprovedAt(trace, steps, k, n, d)
  {
    var t := trace[n].debates[d].ticketId;
    k := AcceptedSince(trace, steps, n, t);
    forall j: nat | k <= j < n ensures DebateKept(trace, j, d) {
      RunKeepsAccepted(trace, steps, j, d);
    }
    DebateUnchangedSince(trace, k, n, d, t, steps[k].user);
  }

  /** So the debates of the public list read as they were approved. */
  lemma ListedDebateWasApproved(trace: seq<Db>, steps: seq<Step>, n: nat, d: int) returns (k: nat)
    requires Run(trace, steps) && n < |trace| && ListedDebate(trace[n], d)
    ensures DebateApprovedAt(trace, steps, k, n, d)
  {
    k := AcceptedDebateWasApproved(trace, steps, n, d);
  }

  /** While an argument stays public nothing in its row changes, whoever acts. */
  lemma {:induction false} PublicArgumentIsFrozen(trace: seq<Db>, steps: seq<Step>, i: nat, n: nat, a: int)
    requires Run(trace, steps) && i <= n < |trace|
    requires forall j :: i <= j <= n ==> PublicArgument(trace[j], a)
    ensures a in trace[i].arguments && a in trace[n].arguments && trace[i].arguments[a] == trace[n].arguments[a]
  {
    assert PublicArgument(trace[i], a) && PublicArgument(trace[n], a);
    if i < n {
      RunIsConsistent(trace, steps, n - 1);
      AcceptedArgumentOrigin(trace[n - 1], steps[n - 1], a);
      PublicArgumentIsFrozen(trace, steps, i, n - 1, a);
    }
  }

  /** Nor does anything in the row of a debate while it stays listed. */
  lemma {:induction false} ListedDebateIsFrozen(trace: seq<Db>, steps: seq<Step>, i: nat, n: nat, d: int)
    requires Run(trace, steps) && i <= n < |trace|
    requires forall j :: i <= j <= n ==> ListedDebate(trace[j], d)
    ensures d in trace[i].debates && d in trace[n].debates && trace[i].debates[d] == trace[n].debates[d]
  {
    assert ListedDebate(trace[i], d) && ListedDebate(trace[n], d);
    if i < n {
      RunIsConsistent(trace, steps, n - 1);
      AcceptedDebateOrigin(trace[n - 1], steps[n - 1], d);
      ListedDebateIsFrozen(trace, steps, i, n - 1, d);
    }
  }

  // ---------------------------------------------------------------- ownership

  /** Step `s` is the owner's own move of the ticket back to PENDING. */
  predicate Releases(db: Db, s: Step, t: int, owner: int) {
    && s.UpdateTicket? && s.fault > 0 && s.user == owner && s.ticketId == t && ParseBoardList(s.listName) == Some(PENDING)
    && t in db.tickets && db.tickets[t].boardList != PENDING
    && Apply(db, s) == db.(tickets := db.tickets[t := Ticket(db.tickets[t].createdBy, None, PENDING)])
  }

  predicate Holds(db: Db, t: int, owner: int) {
    t in db.tickets && db.tickets[t].boardList != PENDING && db.tickets[t].assignedTo == Some(owner)
  }

  lemma HeldUnlessReleased(db: Db, s: Step, t: int, owner: int)
    requires Consistent(db) && Holds(db, t, owner)
    ensures Holds(Apply(db, s), t, owner) || Releases(db, s, t, owner)
  {
  }

  /** Once claimed out of PENDING, a ticket stays with its moderator until that moderator's own release. */
  lemma {:induction false} HeldUntilReleased(trace: seq<Db>, steps: seq<Step>, i: nat, n: nat, t: int, owner: int)
    requires Run(trace, steps) && i <= n < |trace| && Holds(trace[i], t, owner)
    ensures || (forall j :: i <= j <= n ==> Holds(trace[j], t, owner))
            || (exists k :: i <= k < n && Releases(trace[k], steps[k], t, owner))
  {
    if i < n {
      HeldUntilReleased(trace, steps, i, n - 1, t, owner);
      RunIsConsistent(trace, steps, n - 1);
      if Holds(trace[n - 1], t, owner) {
        HeldUnlessReleased(trace[n - 1], steps[n - 1], t, owner);
      }
    }
  }

  /** Every ticket outside PENDING has a moderator for owner. */
  lemma OwnedOutsidePending(trace: seq<Db>, steps: seq<Step>, n: nat, t: int) returns (owner: int)
    requires Run(trace, steps) && n < |trace|
    requires t in trace[n].tickets && trace[n].tickets[t].boardList != PENDING
    ensures Holds(trace[n], t, owner) && IsModerator(trace[n], owner)
  {
    RunIsConsistent(trace, steps, n);
    owner := trace[n].tickets[t].assignedTo.value;
  }

  /** Two different owners at two moments outside PENDING: the earlier one released in between. */
  lemma OwnerChangeNeedsRelease(trace: seq<Db>, steps: seq<Step>, i: nat, n: nat, t: int, m1: int, m2: int) returns (k: nat)
    requires Run(trace, steps) && i <= n < |trace|
    requires Holds(trace[i], t, m1) && Holds(trace[n], t, m2) && m1 != m2
    ensures i <= k < n && Releases(trace[k], steps[k], t, m1)
  {
    HeldUntilReleased(trace, steps, i, n, t, m1);
    k :| i <= k < n && Releases(trace[k], steps[k], t, m1);
  }

  /** Until the release no other moderator's update or approval touches a row. */
  lemma OthersChangeNothing(trace: seq<Db>, steps: seq<Step>, i: nat, n: nat, t: int, owner: int, s: Step)
    requires Run(trace, steps) && i <= n < |trace| && Holds(trace[i], t, owner)
    requires forall k :: i <= k < n ==> !Releases(trace[k], steps[k], t, owner)
    requires (s.UpdateTicket? || s.ApproveTicket?) && s.ticketId == t && s.user != owner
    ensures Apply(trace[n], s) == trace[n]
    ensures !TicketUpdatable(trace[n], s.user, t) && !TicketApprovable(trace[n], s.user, t)
  {
    HeldUntilReleased(trace, steps, i, n, t, owner);
  }

  /** The guard of an update, exactly: a row changes hands from PENDING or moves by its owner. */
  lemma UpdateTicketSucceedsIff(db: Db, moderator: int, t: int, list: BoardList)
    requires Consistent(db) && IsModerator(db, moderator) && t in db.tickets
    ensures ParseBoardList(BoardListName(list)) == Some(list)
    ensures BoardListName(list) == match list case PENDING => "PENDING" case IN_REVIEW => "IN REVIEW"
                                              case CANCELED => "CANCELED" case ACCEPTED => "ACCEPTED"
    ensures (exists owner :: owner != moderator && Holds(db, t, owner)) <==> !TicketUpdatable(db, moderator, t)
    ensures TicketUpdatable(db, moderator, t) ==>
              var after := UpdateTicketStep(db, moderator, t, BoardListName(list), 1).tickets[t];
              after.boardList == list && (list != PENDING ==> after.assignedTo == Some(moderator))
  {
    if !TicketUpdatable(db, moderator, t) {
      assert Holds(db, t, db.tickets[t].assignedTo.value);
    }
  }

  /** The list names an update accepts, and no others. */
  lemma ListNames(listName: string)
    ensures ParseBoardList(listName).Some? <==> listName in {"PENDING", "IN REVIEW", "CANCELED", "ACCEPTED"}
    ensures ParseBoardList(listName).Some? ==> BoardListName(ParseBoardList(listName).value) == listName
  {
  }

  /** An approval, from any list, succeeds exactly when the ticket is the moderator's own; it moves the ticket
      to ACCEPTED and leaves it theirs. */
  lemma ApproveTicketSucceedsIff(db: Db, moderator: int, t: int)
    requires Consistent(db) && IsModerator(db, moderator) && t in db.tickets
    ensures TicketApprovable(db, moderator, t) <==> db.tickets[t].assignedTo == Some(moderator)
    ensures var after := ApproveTicketStep(db, moderator, t, 1).tickets[t];
            if db.tickets[t].assignedTo == Some(moderator)
            then Holds(ApproveTicketStep(db, moderator, t, 1), t, moderator) && after.boardList == ACCEPTED
            else after == db.tickets[t]
  {
  }

  // ---------------------------------------------------------------- submitting a draft

  /** The ticket of a committed `submitDraft` moderates something exactly when the draft's row matched. */
  lemma SubmittedTicketIsUsedIff(db: Db, user: int, debateId: int, draftId: int, text: Text, fault: nat)
    requires Consistent(db) && user in db.users && fault > 2
    ensures var db' := SubmitDraftStep(db, user, debateId, draftId, text, fault);
            && db.nextTicket in db'.tickets
            && (!Unreferenced(db', db.nextTicket) <==> DraftMatches(db, user, debateId, draftId))
  {
    TicketInsertKeeps(db, user);
    var db' := SubmitDraftStep(db, user, debateId, draftId, text, fault);
    if DraftMatches(db, user, debateId, draftId) {
      assert db'.arguments[draftId].ticketId == Some(db.nextTicket);
    }
  }

  /** The submission commits. */
  predicate Submits(db: Db, s: Step) {
    s.SubmitDraft? && !Faulty(s) && s.user in db.users
  }

  /** The submission commits and rewrites argument `a`. */
  predicate Resubmits(db: Db, s: Step, a: int) {
    Submits(db, s) && DraftMatches(db, s.user, s.debateId, s.draftId) && s.draftId == a
  }

  /** A submission strands a ticket in use exactly when it rewrites the argument that ticket moderates. */
  lemma OldTicketIsStrandedIff(db: Db, s: Step, t: int)
    requires Consistent(db) && s.SubmitDraft? && t in db.tickets && !Unreferenced(db, t)
    ensures Unreferenced(Apply(db, s), t) <==> Resubmits(db, s, s.draftId) && db.arguments[s.draftId].ticketId == Some(t)
  {
    var db' := Apply(db, s);
    if !(Resubmits(db, s, s.draftId) && db.arguments[s.draftId].ticketId == Some(t)) {
      if a :| a in db.arguments && db.arguments[a].ticketId == Some(t) {
        assert db'.arguments[a].ticketId == Some(t);
      } else {
        var d :| d in db.debates && db.debates[d].ticketId == t;
        assert db'.debates[d].ticketId == t;
      }
    }
  }

  /** The step leaves a ticket that nothing references, new or in use before. */
  ghost predicate Strands(db: Db, s: Step) {
    exists t :: t in Apply(db, s).tickets && Unreferenced(Apply(db, s), t) && (t in db.tickets ==> !Unreferenced(db, t))
  }

  /** What `submitDraft` should have asked for: a committed submission strands no ticket exactly when its row
      matched and was a draft. */
  lemma SubmissionIsCleanIff(db: Db, s: Step)
    requires Consistent(db) && s.SubmitDraft?
    ensures Strands(db, s) <==>
            Submits(db, s) && !(DraftMatches(db, s.user, s.debateId, s.draftId) && db.arguments[s.draftId].isDraft)
  {
    var db' := Apply(db, s);
    if Submits(db, s) {
      SubmittedTicketIsUsedIff(db, s.user, s.debateId, s.draftId, s.text, s.fault);
      assert forall t :: t in db'.tickets ==> t == db.nextTicket || t in db.tickets;
      if DraftMatches(db, s.user, s.debateId, s.draftId) {
        var replaced := db.arguments[s.draftId].ticketId;
        if replaced.Some? {
          assert !Unreferenced(db, replaced.value);
          OldTicketIsStrandedIff(db, s, replaced.value);
        }
      }
    }
    if t :| t in db'.tickets && Unreferenced(db', t) && (t in db.tickets ==> !Unreferenced(db, t)) {
      if t in db.tickets { OldTicketIsStrandedIff(db, s, t); }
    }
  }

  /** A public argument stays public exactly when the submission does not rewrite it; otherwise it waits on
      PENDING, and its old ticket is left on ACCEPTED with nothing to moderate. */
  lemma ResubmittingUnpublishes(db: Db, s: Step, a: int)
    requires Consistent(db) && s.SubmitDraft? && PublicArgument(db, a)
    ensures PublicArgument(Apply(db, s), a) <==> !Resubmits(db, s, a)
    ensures Resubmits(db, s, a) ==>
              var t := db.arguments[a].ticketId.value;
              && ArgumentOn(Apply(db, s), a, PENDING)
              && t in Apply(db, s).tickets && Apply(db, s).tickets[t].boardList == ACCEPTED
              && Unreferenced(Apply(db, s), t)
  {
    if Resubmits(db, s, a) {
      assert db.arguments[a].ticketId == Some(db.arguments[a].ticketId.value);
      OldTicketIsStrandedIff(db, s, db.arguments[a].ticketId.value);
    }
  }

  // ---------------------------------------------------------------- owned pending tickets

  /** A move to PENDING leaves the ticket with an owner exactly when it was on PENDING already. */
  lemma PendingMayBeAssigned(db: Db, moderator: int, t: int)
    requires IsModerator(db, moderator) && TicketUpdatable(db, moderator, t)
    ensures var after := UpdateTicketStep(db, moderator, t, "PENDING", 1).tickets[t];
            && after.boardList == PENDING
            && (after.assignedTo.Some? <==> db.tickets[t].boardList == PENDING)
            && (after.assignedTo.Some? ==> after.assignedTo == Some(moderator))
  {
  }

  /** Step `s` is a moderator's move of the pending ticket from PENDING to PENDING. */
  predicate Reassigns(db: Db, s: Step, t: int) {
    && s.UpdateTicket? && !Faulty(s) && IsModerator(db, s.user) && s.ticketId == t
    && ParseBoardList(s.listName) == Some(PENDING)
    && t in db.tickets && db.tickets[t].boardList == PENDING
  }

  /** Step `k` reassigned the ticket, and it has been on PENDING since. */
  ghost predicate ReassignedAt(trace: seq<Db>, steps: seq<Step>, k: nat, n: nat, t: int)
    requires n < |trace| == |steps| + 1
  {
    && k < n && Reassigns(trace[k], steps[k], t)
    && forall j :: k <= j <= n ==> t in trace[j].tickets && trace[j].tickets[t].boardList == PENDING
  }

  lemma PendingOwnerStep(db: Db, s: Step, t: int)
    requires Consistent(db)
    requires t in Apply(db, s).tickets && Apply(db, s).tickets[t].boardList == PENDING
    ensures Reassigns(db, s, t) ==> Apply(db, s).tickets[t].assignedTo == Some(s.user)
    ensures !Reassigns(db, s, t) && Apply(db, s).tickets[t].assignedTo.Some? ==>
              t in db.tickets && db.tickets[t] == Apply(db, s).tickets[t]
    ensures t in db.tickets && db.tickets[t].boardList == PENDING && db.tickets[t].assignedTo.Some? ==>
              Apply(db, s).tickets[t].assignedTo.Some?
  {
    if !s.UpdateTicket? && !s.ApproveTicket? { OthersOnlyAddTickets(db, s); }
  }

  /** The last reassignment, by the moderator who owns the pending ticket. */
  lemma {:induction false} OwnedPendingWasReassigned(trace: seq<Db>, steps: seq<Step>, n: nat, t: int) returns (k: nat)
    requires Run(trace, steps) && n < |trace|
    requires t in trace[n].tickets && trace[n].tickets[t].boardList == PENDING && trace[n].tickets[t].assignedTo.Some?
    ensures ReassignedAt(trace, steps, k, n, t) && trace[n].tickets[t].assignedTo == Some(steps[k].user)
  {
    assert n > 0;
    RunIsConsistent(trace, steps, n - 1);
    PendingOwnerStep(trace[n - 1], steps[n - 1], t);
    if Reassigns(trace[n - 1], steps[n - 1], t) {
      k := n - 1;
    } else {
      k := OwnedPendingWasReassigned(trace, steps, n - 1, t);
    }
  }

  lemma {:induction false} ReassignedIsOwned(trace: seq<Db>, steps: seq<Step>, k: nat, n: nat, t: int)
    requires Run(trace, steps) && n < |trace| && ReassignedAt(trace, steps, k, n, t)
    ensures trace[n].tickets[t].assignedTo.Some?
  {
    var m := n - 1;
    RunIsConsistent(trace, steps, m);
    assert trace[n] == Apply(trace[m], steps[m]);
    if k < m {
      assert ReassignedAt(trace, steps, k, m, t);
      ReassignedIsOwned(trace, steps, k, m, t);
    }
    PendingOwnerStep(trace[m], steps[m], t);
  }

  /** "Pending means unassigned" fails exactly for a ticket that some moderator moved from PENDING to PENDING
      and that has not left it since. */
  lemma PendingIsOwnedIff(trace: seq<Db>, steps: seq<Step>, n: nat, t: int)
    requires Run(trace, steps) && n < |trace| && t in trace[n].tickets && trace[n].tickets[t].boardList == PENDING
    ensures trace[n].tickets[t].assignedTo.Some? <==> exists k: nat :: ReassignedAt(trace, steps, k, n, t)
  {
    if trace[n].tickets[t].assignedTo.Some? {
      var k := OwnedPendingWasReassigned(trace, steps, n, t);
    }
    if k: nat :| ReassignedAt(trace, steps, k, n, t) {
      ReassignedIsOwned(trace, steps, k, n, t);
    }
  }
}

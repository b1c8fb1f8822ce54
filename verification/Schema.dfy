/** The tables that the debates and moderator services read and write, as values.
    A row's `id` is its key in the table's map. */
module Schema {

  datatype Option<+T> = None | Some(value: T)

  datatype BoardList = PENDING | IN_REVIEW | CANCELED | ACCEPTED

  datatype Side = PRO | CON

  datatype Role = USER | MODERATOR | ADMIN

  datatype User = User(username: string, role: Role)

  datatype Ticket = Ticket(createdBy: int, assignedTo: Option<int>, boardList: BoardList)

  /** `tagIds` are the debate's rows in `assoc_debate_tag`; they need not exist in `debate_tag`. */
  datatype Debate = Debate(ticketId: int, title: string, createdBy: int, tagIds: set<int>)

  datatype Argument = Argument(
    debateId: int,
    ticketId: Option<int>,
    title: string,
    content: string,
    counterargumentTo: Option<int>,
    createdBy: int,
    side: Side,
    isDraft: bool)

  /** The whole database. `tags` holds the ids of `debate_tag`; the `next` fields are the
      serial sequences, which a rollback does not wind back. */
  datatype Db = Db(
    users: map<int, User>,
    tags: set<int>,
    tickets: map<int, Ticket>,
    debates: map<int, Debate>,
    arguments: map<int, Argument>,
    nextTag: int,
    nextTicket: int,
    nextDebate: int,
    nextArgument: int)

  predicate IsModerator(db: Db, user: int) {
    user in db.users && db.users[user].role == MODERATOR
  }

  /** Some row of the debate in `assoc_debate_tag` joins with `debate_tag`. */
  predicate IsTagged(db: Db, d: Debate) {
    d.tagIds * db.tags != {}
  }

  /** The argument is joined with a ticket on the given list. */
  predicate ArgumentOn(db: Db, a: int, list: BoardList) {
    && a in db.arguments
    && db.arguments[a].ticketId.Some?
    && db.arguments[a].ticketId.value in db.tickets
    && db.tickets[db.arguments[a].ticketId.value].boardList == list
  }

  /** The debate is joined with a ticket on the given list. */
  predicate DebateOn(db: Db, d: int, list: BoardList) {
    && d in db.debates
    && db.debates[d].ticketId in db.tickets
    && db.tickets[db.debates[d].ticketId].boardList == list
  }

  /** What an anonymous visitor can read: an argument of the debate page, a debate of the list. */
  predicate PublicArgument(db: Db, a: int) {
    ArgumentOn(db, a, ACCEPTED)
  }

  predicate ListedDebate(db: Db, d: int) {
    DebateOn(db, d, ACCEPTED) && IsTagged(db, db.debates[d])
  }

  // ---------------------------------------------------------------- invariant

  /** Every stored id is positive and was drawn from its sequence. */
  ghost predicate IdsDrawn(db: Db) {
    && (forall t :: t in db.tickets ==> 0 < t < db.nextTicket)
    && (forall d :: d in db.debates ==> 0 < d < db.nextDebate)
    && (forall a :: a in db.arguments ==> 0 < a < db.nextArgument)
    && 0 < db.nextTicket && 0 < db.nextDebate && 0 < db.nextArgument
  }

  /** An argument is a draft exactly when it has no ticket; a referenced ticket exists and
      was created by the author of the item that references it. */
  ghost predicate ItemsHaveTickets(db: Db) {
    && (forall a :: a in db.arguments ==>
          var arg := db.arguments[a];
          && (arg.isDraft <==> arg.ticketId.None?)
          && arg.debateId in db.debates
          && (arg.ticketId.Some? ==>
                arg.ticketId.value in db.tickets && db.tickets[arg.ticketId.value].createdBy == arg.createdBy))
    && (forall d :: d in db.debates ==>
          var deb := db.debates[d];
          deb.ticketId in db.tickets && db.tickets[deb.ticketId].createdBy == deb.createdBy)
  }

  /** No ticket moderates two items. */
  ghost predicate TicketsUnshared(db: Db) {
    && (forall a, b :: a in db.arguments && b in db.arguments && a != b && db.arguments[a].ticketId.Some? ==>
          db.arguments[a].ticketId != db.arguments[b].ticketId)
    && (forall d, e :: d in db.debates && e in db.debates && d != e ==>
          db.debates[d].ticketId != db.debates[e].ticketId)
    && (forall a, d :: a in db.arguments && d in db.debates ==>
          db.arguments[a].ticketId != Some(db.debates[d].ticketId))
  }

  /** Outside PENDING a ticket has an owner, and owners are moderators. */
  ghost predicate TicketsOwned(db: Db) {
    forall t :: t in db.tickets ==>
      && (db.tickets[t].boardList != PENDING ==> db.tickets[t].assignedTo.Some?)
      && (db.tickets[t].assignedTo.Some? ==> IsModerator(db, db.tickets[t].assignedTo.value))
  }

  ghost predicate Consistent(db: Db) {
    IdsDrawn(db) && ItemsHaveTickets(db) && TicketsUnshared(db) && TicketsOwned(db)
  }

  /** No item references the ticket. */
  ghost predicate Unreferenced(db: Db, t: int) {
    && (forall a :: a in db.arguments ==> db.arguments[a].ticketId != Some(t))
    && (forall d :: d in db.debates ==> db.debates[d].ticketId != t)
  }

  /** A freshly migrated database: users may exist, nothing has been proposed yet. */
  ghost predicate Fresh(db: Db) {
    && db.tickets == map[] && db.debates == map[] && db.arguments == map[]
    && 0 < db.nextTicket && 0 < db.nextDebate && 0 < db.nextArgument
  }
}

/** The moderators' Kanban board: the rows the two card queries return, the grouping of
    `getActivity`, the client's sort, and the client's optimistic drop and approve. */
module Board {
  import opened Schema
  import opened Services

  /** What a card shows of its debate or argument; moderating a ticket never changes it. */
  datatype Subject =
    | DebateSubject(debateId: int, title: string, tagIds: set<int>)
    | ArgumentSubject(argumentId: int, debateId: int, title: string, side: Side, debateTitle: string)

  datatype Card = Card(
    ticketId: int,
    boardList: BoardList,
    moderatorId: Option<int>,
    moderatorUsername: Option<string>,
    subject: Subject)

  /** A result row: a card, or the padding the outer join gives for a list without cards. */
  datatype Row = CardRow(card: Card) | EmptyList(list: BoardList)

  datatype BoardData = BoardData(boardList: BoardList, cards: seq<Card>)

  // ---------------------------------------------------------------- the two queries

  function Username(db: Db, user: Option<int>): Option<string> {
    if user.Some? && user.value in db.users then Some(db.users[user.value].username) else None
  }

  function CardOf(db: Db, ticketId: int, subject: Subject): Card
    requires ticketId in db.tickets
  {
    var t := db.tickets[ticketId];
    Card(ticketId, t.boardList, t.assignedTo, Username(db, t.assignedTo), subject)
  }

  predicate DebateHasCard(db: Db, d: int) {
    d in db.debates && IsTagged(db, db.debates[d]) && db.debates[d].ticketId in db.tickets
  }

  function DebateCard(db: Db, d: int): Card
    requires DebateHasCard(db, d)
  {
    var deb := db.debates[d];
    CardOf(db, deb.ticketId, DebateSubject(d, deb.title, deb.tagIds * db.tags))
  }

  predicate ArgumentHasCard(db: Db, a: int) {
    && a in db.arguments && db.arguments[a].ticketId.Some? && db.arguments[a].ticketId.value in db.tickets
    && db.arguments[a].debateId in db.debates
  }

  function ArgumentCard(db: Db, a: int): Card
    requires ArgumentHasCard(db, a)
  {
    var arg := db.arguments[a];
    CardOf(db, arg.ticketId.value,
           ArgumentSubject(a, arg.debateId, arg.title, arg.side, db.debates[arg.debateId].title))
  }

  ghost function DebateCards(db: Db): set<Card> {
    set d | d in db.debates && DebateHasCard(db, d) :: DebateCard(db, d)
  }

  ghost function ArgumentCards(db: Db): set<Card> {
    set a | a in db.arguments && ArgumentHasCard(db, a) :: ArgumentCard(db, a)
  }

  ghost function AllCards(db: Db): set<Card> {
    DebateCards(db) + ArgumentCards(db)
  }

  /** The result of a query whose cards are `cards`: they, and padding for each list none is on. */
  ghost predicate QueryRows(rows: seq<Row>, cards: set<Card>) {
    && (forall c :: multiset(rows)[CardRow(c)] == if c in cards then 1 else 0)
    && (forall l :: multiset(rows)[EmptyList(l)] == if exists c :: c in cards && c.boardList == l then 0 else 1)
  }

  // ---------------------------------------------------------------- grouping

  function RowList(r: Row): BoardList {
    match r
    case CardRow(c) => c.boardList
    case EmptyList(l) => l
  }

  function RowCards(r: Row): seq<Card> {
    match r
    case CardRow(c) => [c]
    case EmptyList(_) => []
  }

  /** One row enters its group; a group opens at the end when its first row arrives. */
  function AddRow(boards: seq<BoardData>, r: Row): seq<BoardData> {
    if boards == [] then [BoardData(RowList(r), RowCards(r))]
    else if boards[0].boardList == RowList(r) then [boards[0].(cards := boards[0].cards + RowCards(r))] + boards[1..]
    else [boards[0]] + AddRow(boards[1..], r)
  }

  /** `groupBy`, then per group the filter and the reduce. */
  function Group(rows: seq<Row>): seq<BoardData> {
    if rows == [] then [] else AddRow(Group(rows[..|rows| - 1]), rows[|rows| - 1])
  }

  /** The cards of every board with the given list. */
  function CardsOn(boards: seq<BoardData>, list: BoardList): seq<Card> {
    if boards == [] then []
    else (if boards[0].boardList == list then boards[0].cards else []) + CardsOn(boards[1..], list)
  }

  function Lists(boards: seq<BoardData>): seq<BoardList> {
    seq(|boards|, i requires 0 <= i < |boards| => boards[i].boardList)
  }

  /** What a row adds to the cards of a list. */
  function AddedTo(r: Row, list: BoardList): seq<Card> {
    if RowList(r) == list then RowCards(r) else []
  }

  /** The cards of a list among the rows, in row order. */
  function RowsOn(rows: seq<Row>, list: BoardList): seq<Card> {
    if rows == [] then []
    else RowsOn(rows[..|rows| - 1], list) + AddedTo(rows[|rows| - 1], list)
  }

  predicate Distinct<T(==)>(s: seq<T>) {
    forall i, j :: 0 <= i < j < |s| ==> s[i] != s[j]
  }

  lemma ListsSplit(boards: seq<BoardData>)
    requires boards != []
    ensures Lists(boards) == [boards[0].boardList] + Lists(boards[1..])
    ensures Distinct(Lists(boards)) ==> Distinct(Lists(boards[1..])) && boards[0].boardList !in Lists(boards[1..])
  {
    var all, tail := Lists(boards), Lists(boards[1..]);
    assert all == [boards[0].boardList] + tail;
    if Distinct(all) {
      forall i, j | 0 <= i < j < |tail| ensures tail[i] != tail[j] {
        assert all[i + 1] != all[j + 1];
      }
      forall i | 0 <= i < |tail| ensures tail[i] != all[0] {
        assert all[0] != all[i + 1];
      }
    }
  }

  lemma ListsCons(b: BoardData, tail: seq<BoardData>)
    ensures Lists([b] + tail) == [b.boardList] + Lists(tail)
  {
  }

  lemma {:induction false} AddRowLists(boards: seq<BoardData>, r: Row)
    ensures Lists(AddRow(boards, r)) ==
            if RowList(r) in Lists(boards) then Lists(boards) else Lists(boards) + [RowList(r)]
  {
    if boards != [] {
      var head, tail := boards[0], boards[1..];
      assert boards == [head] + tail;
      ListsCons(head, tail);
      if head.boardList == RowList(r) {
        ListsCons(head.(cards := head.cards + RowCards(r)), tail);
      } else {
        AddRowLists(tail, r);
        ListsCons(head, AddRow(tail, r));
      }
    }
  }

  lemma {:induction false} AbsentListIsBare(boards: seq<BoardData>, list: BoardList)
    requires list !in Lists(boards)
    ensures CardsOn(boards, list) == []
  {
    if boards != [] {
      assert Lists(boards) == [boards[0].boardList] + Lists(boards[1..]);
      AbsentListIsBare(boards[1..], list);
    }
  }

  lemma {:induction false} AddRowCards(boards: seq<BoardData>, r: Row, list: BoardList)
    requires Distinct(Lists(boards))
    ensures CardsOn(AddRow(boards, r), list) == CardsOn(boards, list) + AddedTo(r, list)
  {
    if boards != [] {
      var head, tail := boards[0], boards[1..];
      ListsSplit(boards);
      if head.boardList == RowList(r) {
        CardsOnCons(head.(cards := head.cards + RowCards(r)), tail, list);
        if list == RowList(r) {
          AbsentListIsBare(tail, list);
        }
      } else {
        AddRowCards(tail, r, list);
        CardsOnCons(head, AddRow(tail, r), list);
        Regroup(if head.boardList == list then head.cards else [], CardsOn(tail, list), AddedTo(r, list));
      }
    }
  }

  lemma Regroup(a: seq<Card>, b: seq<Card>, c: seq<Card>)
    ensures a + (b + c) == (a + b) + c
  {
  }

  lemma CardsOnCons(b: BoardData, tail: seq<BoardData>, list: BoardList)
    ensures CardsOn([b] + tail, list) == (if b.boardList == list then b.cards else []) + CardsOn(tail, list)
  {
    assert ([b] + tail)[1..] == tail;
  }

  lemma AppendKeepsDistinct(lists: seq<BoardList>, l: BoardList)
    requires Distinct(lists) && l !in lists
    ensures Distinct(lists + [l])
  {
  }

  /** Each list a row names has one group, and no other list has any. */
  lemma {:induction false} GroupLists(rows: seq<Row>)
    ensures Distinct(Lists(Group(rows)))
    ensures forall l :: l in Lists(Group(rows)) <==> l in Named(rows)
  {
    if rows != [] {
      var front, last := rows[..|rows| - 1], rows[|rows| - 1];
      GroupLists(front);
      AddRowLists(Group(front), last);
      if RowList(last) !in Lists(Group(front)) {
        AppendKeepsDistinct(Lists(Group(front)), RowList(last));
      }
    }
  }

  /** The lists the rows name. */
  function Named(rows: seq<Row>): seq<BoardList> {
    if rows == [] then [] else Named(rows[..|rows| - 1]) + [RowList(rows[|rows| - 1])]
  }

  lemma {:induction false} NamedByARow(rows: seq<Row>, r: Row)
    requires r in rows
    ensures RowList(r) in Named(rows)
  {
    var front, last := rows[..|rows| - 1], rows[|rows| - 1];
    assert rows == front + [last];
    if r != last { NamedByARow(front, r); }
  }

  /** A group holds its list's cards in the order of the rows. */
  lemma {:induction false} GroupCards(rows: seq<Row>, list: BoardList)
    ensures CardsOn(Group(rows), list) == RowsOn(rows, list)
  {
    if rows != [] {
      var front, last := rows[..|rows| - 1], rows[|rows| - 1];
      GroupCards(front, list);
      GroupLists(front);
      AddRowCards(Group(front), last, list);
    }
  }

  lemma {:induction false} RowsOnCount(rows: seq<Row>, list: BoardList, c: Card)
    ensures multiset(RowsOn(rows, list))[c] == if c.boardList == list then multiset(rows)[CardRow(c)] else 0
  {
    if rows != [] {
      var front, last := rows[..|rows| - 1], rows[|rows| - 1];
      RowsOnCount(front, list, c);
      assert rows == front + [last];
    }
  }

  /** The cards of one list, as the database has them. */
  ghost function ListCards(db: Db, list: BoardList): set<Card> {
    set c | c in AllCards(db) && c.boardList == list
  }

  /** The cards `cards` hold each card of `shown` once and nothing else. */
  ghost predicate HoldsOnce(cards: seq<Card>, shown: set<Card>) {
    forall c :: multiset(cards)[c] == if c in shown then 1 else 0
  }

  /** The boards show the database: each of the four lists once, each card once, on its ticket's list. */
  ghost predicate Shows(boards: seq<BoardData>, db: Db) {
    && Distinct(Lists(boards))
    && (forall l :: l in Lists(boards))
    && (forall l :: HoldsOnce(CardsOn(boards, l), ListCards(db, l)))
  }

  /** The activity response is a partition of the cards, whatever order the two queries return their rows in. */
  lemma ActivityShowsDatabase(db: Db, debateRows: seq<Row>, argumentRows: seq<Row>)
    requires QueryRows(debateRows, DebateCards(db)) && QueryRows(argumentRows, ArgumentCards(db))
    ensures Shows(Group(debateRows + argumentRows), db)
    ensures |Group(debateRows + argumentRows)| == 4
  {
    var rows := debateRows + argumentRows;
    var boards := Group(rows);
    GroupLists(rows);
    forall l ensures l in Lists(boards) {
      EveryListHasARow(debateRows, DebateCards(db), argumentRows, l);
    }
    forall l ensures HoldsOnce(CardsOn(boards, l), ListCards(db, l)) {
      GroupCards(rows, l);
      RowsHoldListCards(db, debateRows, argumentRows, l);
    }
    FourLists(Lists(boards));
  }

  lemma RowsHoldListCards(db: Db, debateRows: seq<Row>, argumentRows: seq<Row>, l: BoardList)
    requires QueryRows(debateRows, DebateCards(db)) && QueryRows(argumentRows, ArgumentCards(db))
    ensures HoldsOnce(RowsOn(debateRows + argumentRows, l), ListCards(db, l))
  {
    var rows := debateRows + argumentRows;
    forall c ensures multiset(RowsOn(rows, l))[c] == if c in ListCards(db, l) then 1 else 0 {
      RowsOnCount(rows, l, c);
      assert multiset(rows) == multiset(debateRows) + multiset(argumentRows);
      assert multiset(debateRows)[CardRow(c)] == if c in DebateCards(db) then 1 else 0;
      assert multiset(argumentRows)[CardRow(c)] == if c in ArgumentCards(db) then 1 else 0;
      assert c in DebateCards(db) ==> c.subject.DebateSubject?;
      assert c in ArgumentCards(db) ==> c.subject.ArgumentSubject?;
    }
  }

  lemma EveryListHasARow(rows: seq<Row>, cards: set<Card>, more: seq<Row>, l: BoardList)
    requires QueryRows(rows, cards)
    ensures l in Named(rows + more)
  {
    if c :| c in cards && c.boardList == l {
      assert multiset(rows)[CardRow(c)] == 1;
      assert CardRow(c) in rows;
      NamedByARow(rows + more, CardRow(c));
    } else {
      assert multiset(rows)[EmptyList(l)] == 1;
      assert EmptyList(l) in rows;
      NamedByARow(rows + more, EmptyList(l));
    }
  }

  lemma {:induction false} DistinctCount<T>(s: seq<T>)
    requires Distinct(s)
    ensures |set x | x in s| == |s|
  {
    if s != [] {
      var front, last := s[..|s| - 1], s[|s| - 1];
      DistinctCount(front);
      assert (set x | x in s) == (set x | x in front) + {last};
    }
  }

  lemma FourLists(lists: seq<BoardList>)
    requires Distinct(lists) && forall l :: l in lists
    ensures |lists| == 4
  {
    DistinctCount(lists);
    var found, all := set l | l in lists, {PENDING, IN_REVIEW, CANCELED, ACCEPTED};
    forall l: BoardList ensures l in all {
      match l case PENDING => case IN_REVIEW => case CANCELED => case ACCEPTED =>
    }
    assert PENDING in found && IN_REVIEW in found && CANCELED in found && ACCEPTED in found;
    assert found == all;
  }

  /** A card is on the board for each ticket of a tagged debate or of an argument, and for no other;
      tickets that no item references show no card. */
  lemma CardsAreTickets(db: Db, t: int)
    requires Consistent(db)
    ensures (exists c :: c in AllCards(db) && c.ticketId == t) <==>
            || (exists d :: d in db.debates && db.debates[d].ticketId == t && IsTagged(db, db.debates[d]))
            || (exists a :: a in db.arguments && db.arguments[a].ticketId == Some(t))
    ensures forall c, c' :: c in AllCards(db) && c' in AllCards(db) && c.ticketId == c'.ticketId ==> c == c'
  {
    forall d | d in db.debates && db.debates[d].ticketId == t && IsTagged(db, db.debates[d])
      ensures exists c :: c in AllCards(db) && c.ticketId == t
    {
      assert DebateCard(db, d) in AllCards(db);
    }
    forall a | a in db.arguments && db.arguments[a].ticketId == Some(t)
      ensures exists c :: c in AllCards(db) && c.ticketId == t
    {
      assert ArgumentCard(db, a) in AllCards(db);
    }
  }

  /** Every card reads as its item and its item's ticket do. */
  lemma CardsReadAsTheirItems(db: Db, c: Card)
    requires c in AllCards(db)
    ensures c.ticketId in db.tickets
    ensures var t := db.tickets[c.ticketId];
            && c.boardList == t.boardList && c.moderatorId == t.assignedTo
            && (t.assignedTo.Some? && t.assignedTo.value in db.users ==>
                  c.moderatorUsername == Some(db.users[t.assignedTo.value].username))
            && (t.assignedTo.None? ==> c.moderatorUsername == None)
    ensures match c.subject
            case DebateSubject(id, title, tagIds) =>
              && id in db.debates && db.debates[id].ticketId == c.ticketId && title == db.debates[id].title
              && tagIds != {} && forall i :: i in tagIds <==> i in db.debates[id].tagIds && i in db.tags
            case ArgumentSubject(id, debateId, title, side, debateTitle) =>
              && id in db.arguments && db.arguments[id].ticketId == Some(c.ticketId)
              && title == db.arguments[id].title && side == db.arguments[id].side
              && debateId == db.arguments[id].debateId && debateId in db.debates
              && debateTitle == db.debates[debateId].title
  {
  }

  /** What is on the ACCEPTED list is what the public can read: the arguments of the debate pages and the
      debates of the list. */
  lemma AcceptedCardsArePublic(db: Db, id: int)
    requires Consistent(db)
    ensures PublicArgument(db, id) <==>
            exists c :: c in AllCards(db) && c.boardList == ACCEPTED && c.subject.ArgumentSubject? && c.subject.argumentId == id
    ensures ListedDebate(db, id) <==>
            exists c :: c in AllCards(db) && c.boardList == ACCEPTED && c.subject.DebateSubject? && c.subject.debateId == id
  {
    if PublicArgument(db, id) {
      assert ArgumentCard(db, id) in AllCards(db);
    }
    if ListedDebate(db, id) {
      assert DebateCard(db, id) in AllCards(db);
    }
  }
}

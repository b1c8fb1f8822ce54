/** The client's side of the board: the sort of the lists, the rights to drag a card, and the two
    optimistic updates, `onItemDropped` and `onApproveTicket`, against the server steps they mirror. */
module ActivityPage {
  import opened Schema
  import opened Services
  import opened Board
  import Moderation

  // ---------------------------------------------------------------- getActivityDTO

  function SortOrder(list: BoardList): nat {
    match list
    case PENDING => 0
    case IN_REVIEW => 1
    case ACCEPTED => 2
    case CANCELED => 3
  }

  function InsertBoard(b: BoardData, sorted: seq<BoardData>): seq<BoardData> {
    if sorted == [] || SortOrder(b.boardList) < SortOrder(sorted[0].boardList) then [b] + sorted
    else [sorted[0]] + InsertBoard(b, sorted[1..])
  }

  /** The library's stable sort by list order. */
  function SortBoards(boards: seq<BoardData>): seq<BoardData> {
    if boards == [] then []
    else InsertBoard(boards[|boards| - 1], SortBoards(boards[..|boards| - 1]))
  }

  predicate Ordered(boards: seq<BoardData>) {
    forall i, j :: 0 <= i < j < |boards| ==> SortOrder(boards[i].boardList) <= SortOrder(boards[j].boardList)
  }

  lemma {:induction false} InsertPermutes(b: BoardData, sorted: seq<BoardData>)
    ensures multiset(InsertBoard(b, sorted)) == multiset(sorted) + multiset{b}
  {
    if sorted != [] && SortOrder(b.boardList) >= SortOrder(sorted[0].boardList) {
      InsertPermutes(b, sorted[1..]);
      assert sorted == [sorted[0]] + sorted[1..];
    }
  }

  lemma {:induction false} InsertKeepsOrder(b: BoardData, sorted: seq<BoardData>)
    requires Ordered(sorted)
    ensures Ordered(InsertBoard(b, sorted))
  {
    if sorted != [] && SortOrder(b.boardList) >= SortOrder(sorted[0].boardList) {
      var tail := sorted[1..];
      InsertKeepsOrder(b, tail);
      InsertPermutes(b, tail);
      var rest := InsertBoard(b, tail);
      forall i | 0 <= i < |rest| ensures SortOrder(sorted[0].boardList) <= SortOrder(rest[i].boardList) {
        assert rest[i] in multiset(rest);
        assert rest[i] == b || rest[i] in tail;
      }
    }
  }

  /** The client's sort is an ordered permutation. */
  lemma {:induction false} SortIsOrderedPermutation(boards: seq<BoardData>)
    ensures Ordered(SortBoards(boards)) && multiset(SortBoards(boards)) == multiset(boards)
  {
    if boards != [] {
      var front, last := boards[..|boards| - 1], boards[|boards| - 1];
      SortIsOrderedPermutation(front);
      InsertKeepsOrder(last, SortBoards(front));
      InsertPermutes(last, SortBoards(front));
      assert boards == front + [last];
    }
  }

  lemma {:induction false} CardsOnConcat(xs: seq<BoardData>, ys: seq<BoardData>, l: BoardList)
    ensures CardsOn(xs + ys, l) == CardsOn(xs, l) + CardsOn(ys, l)
  {
    if xs == [] {
      assert xs + ys == ys;
    } else {
      assert (xs + ys)[1..] == xs[1..] + ys;
      CardsOnConcat(xs[1..], ys, l);
    }
  }

  lemma OrderedTail(sorted: seq<BoardData>)
    requires Ordered(sorted) && sorted != []
    ensures Ordered(sorted[1..])
  {
  }

  lemma {:induction false} OthersOnly(boards: seq<BoardData>, l: BoardList)
    requires forall b :: b in boards ==> b.boardList != l
    ensures CardsOn(boards, l) == []
  {
    if boards != [] {
      assert boards[0] in boards;
      OthersOnly(boards[1..], l);
    }
  }

  lemma InsertInFront(b: BoardData, sorted: seq<BoardData>, l: BoardList)
    requires Ordered(sorted) && (sorted == [] || SortOrder(b.boardList) < SortOrder(sorted[0].boardList))
    ensures CardsOn([b] + sorted, l) == CardsOn(sorted, l) + CardsOn([b], l)
  {
    CardsOnConcat([b], sorted, l);
    if l == b.boardList {
      forall x | x in sorted ensures x.boardList != l {
        var i :| 0 <= i < |sorted| && sorted[i] == x;
        assert SortOrder(sorted[0].boardList) <= SortOrder(sorted[i].boardList);
      }
      OthersOnly(sorted, l);
    } else {
      OthersOnly([b], l);
    }
  }

  lemma {:induction false} InsertGoesLast(b: BoardData, sorted: seq<BoardData>, l: BoardList)
    requires Ordered(sorted)
    ensures CardsOn(InsertBoard(b, sorted), l) == CardsOn(sorted, l) + CardsOn([b], l)
  {
    if sorted == [] || SortOrder(b.boardList) < SortOrder(sorted[0].boardList) {
      InsertInFront(b, sorted, l);
    } else {
      var head, tail := [sorted[0]], sorted[1..];
      OrderedTail(sorted);
      InsertGoesLast(b, tail, l);
      CardsOnConcat(head, InsertBoard(b, tail), l);
      CardsOnConcat(head, tail, l);
      assert sorted == head + tail;
      Regroup(CardsOn(head, l), CardsOn(tail, l), CardsOn([b], l));
    }
  }

  /** And it is stable: the cards of a list stay in their order, even if several boards had that list. */
  lemma {:induction false} SortIsStable(boards: seq<BoardData>, l: BoardList)
    ensures CardsOn(SortBoards(boards), l) == CardsOn(boards, l)
  {
    if boards != [] {
      var front, last := boards[..|boards| - 1], boards[|boards| - 1];
      SortIsStable(front, l);
      SortIsOrderedPermutation(front);
      InsertGoesLast(last, SortBoards(front), l);
      CardsOnConcat(front, [last], l);
      assert boards == front + [last];
    }
  }

  lemma PermutationHasTheLists(xs: seq<BoardData>, ys: seq<BoardData>, l: BoardList)
    requires multiset(xs) == multiset(ys) && l in Lists(xs)
    ensures l in Lists(ys)
  {
    var i :| 0 <= i < |xs| && Lists(xs)[i] == l;
    assert xs[i] in multiset(xs);
    assert xs[i] in ys;
    var j :| 0 <= j < |ys| && ys[j] == xs[i];
    assert Lists(ys)[j] == l;
  }

  lemma {:induction false} CardsOnIsTheBoard(boards: seq<BoardData>, i: nat)
    requires Distinct(Lists(boards)) && i < |boards|
    ensures CardsOn(boards, boards[i].boardList) == boards[i].cards
  {
    ListsSplit(boards);
    if i == 0 {
      AbsentListIsBare(boards[1..], boards[0].boardList);
    } else {
      CardsOnIsTheBoard(boards[1..], i - 1);
      assert boards[i].boardList == Lists(boards[1..])[i - 1];
    }
  }

  lemma PermutationHasTheCards(xs: seq<BoardData>, ys: seq<BoardData>, l: BoardList)
    requires multiset(xs) == multiset(ys) && l in Lists(xs) && Distinct(Lists(xs)) && Distinct(Lists(ys))
    ensures CardsOn(xs, l) == CardsOn(ys, l)
  {
    var i :| 0 <= i < |xs| && Lists(xs)[i] == l;
    assert xs[i] in multiset(xs);
    assert xs[i] in ys;
    var j :| 0 <= j < |ys| && ys[j] == xs[i];
    CardsOnIsTheBoard(xs, i);
    CardsOnIsTheBoard(ys, j);
  }

  /** Four boards in order that cover the four lists are the four lists in the page's order. */
  lemma OrderedBoardsAreThePage(boards: seq<BoardData>)
    requires Ordered(boards) && |boards| == 4 && forall l :: l in Lists(boards)
    ensures Lists(boards) == [PENDING, IN_REVIEW, ACCEPTED, CANCELED]
  {
    var lists := Lists(boards);
    assert PENDING in lists && IN_REVIEW in lists && ACCEPTED in lists && CANCELED in lists;
    var p :| 0 <= p < 4 && lists[p] == PENDING;
    var r :| 0 <= r < 4 && lists[r] == IN_REVIEW;
    var a :| 0 <= a < 4 && lists[a] == ACCEPTED;
    var c :| 0 <= c < 4 && lists[c] == CANCELED;
    assert p < r < a < c;
  }

  lemma PermutationShows(xs: seq<BoardData>, ys: seq<BoardData>, db: Db)
    requires Shows(xs, db) && multiset(xs) == multiset(ys) && Distinct(Lists(ys))
    ensures Shows(ys, db)
  {
    forall l ensures l in Lists(ys) {
      assert l in Lists(xs);
      PermutationHasTheLists(xs, ys, l);
    }
    forall l ensures HoldsOnce(CardsOn(ys, l), ListCards(db, l)) {
      assert l in Lists(xs);
      PermutationHasTheCards(xs, ys, l);
    }
  }

  lemma SortedBoardsAreThePage(boards: seq<BoardData>)
    requires |boards| == 4 && forall l :: l in Lists(boards)
    ensures Lists(SortBoards(boards)) == [PENDING, IN_REVIEW, ACCEPTED, CANCELED]
  {
    var page := SortBoards(boards);
    SortIsOrderedPermutation(boards);
    assert |page| == |multiset(page)| == |multiset(boards)| == 4;
    forall l ensures l in Lists(page) {
      assert l in Lists(boards);
      PermutationHasTheLists(boards, page, l);
    }
    OrderedBoardsAreThePage(page);
  }

  /** What the moderator first sees: the page's four boards in their fixed order, showing the database. */
  lemma PageShowsDatabase(db: Db, debateRows: seq<Row>, argumentRows: seq<Row>)
    requires QueryRows(debateRows, DebateCards(db)) && QueryRows(argumentRows, ArgumentCards(db))
    ensures var page := SortBoards(Group(debateRows + argumentRows));
            Lists(page) == [PENDING, IN_REVIEW, ACCEPTED, CANCELED] && Shows(page, db)
  {
    var boards := Group(debateRows + argumentRows);
    ActivityShowsDatabase(db, debateRows, argumentRows);
    SortedBoardsAreThePage(boards);
    SortIsOrderedPermutation(boards);
    PermutationShows(boards, SortBoards(boards), db);
  }

  /** `data.sort` reorders the array it is given. */
  method GetActivityDTO(data: array<BoardData>)
    modifies data
    ensures data[..] == SortBoards(old(data[..]))
  {
    SortIsOrderedPermutation(data[..]);
    var sorted := SortBoards(data[..]);
    assert |sorted| == |multiset(sorted)| == |multiset(data[..])| == data.Length;
    forall i | 0 <= i < data.Length {
      data[i] := sorted[i];
    }
    assert data[..] == sorted;
  }

  // ---------------------------------------------------------------- dragging a card

  datatype CurrentUser = CurrentUser(id: int, username: string)

  /** A card can be dragged by the moderator it is assigned to, or by anyone when it has none. */
  predicate CanDrag(card: Card, user: int) {
    card.moderatorId == Some(user) || card.moderatorId == None
  }

  /** The guard of `onItemDropped`; an id 0 and an empty name are falsy. */
  predicate DropIgnored(from: BoardList, to: BoardList, user: Option<CurrentUser>) {
    || to == ACCEPTED
    || from == to
    || (from == PENDING && to != PENDING && (user.None? || user.value.id == 0 || user.value.username == ""))
  }

  /** The dragged card as it lands. */
  function DroppedCard(card: Card, from: BoardList, to: BoardList, user: Option<CurrentUser>): Card {
    var owned :=
      if from != PENDING && to == PENDING then card.(moderatorId := None, moderatorUsername := None)
      else if from == PENDING && to != PENDING then
        if user.Some? then card.(moderatorId := Some(user.value.id), moderatorUsername := Some(user.value.username))
        else card.(moderatorId := None, moderatorUsername := None)
      else card;
    owned.(boardList := to)
  }

  function Without(cards: seq<Card>, ticketId: int): seq<Card> {
    if cards == [] then []
    else (if cards[0].ticketId != ticketId then [cards[0]] else []) + Without(cards[1..], ticketId)
  }

  function DropOn(b: BoardData, card: Card, from: BoardList, to: BoardList, user: Option<CurrentUser>): BoardData {
    if b.boardList == from then b.(cards := Without(b.cards, card.ticketId))
    else if b.boardList == to then b.(cards := b.cards + [DroppedCard(card, from, to, user)])
    else b
  }

  function Drop(boards: seq<BoardData>, card: Card, from: BoardList, to: BoardList, user: Option<CurrentUser>): seq<BoardData> {
    if DropIgnored(from, to, user) then boards
    else seq(|boards|, i requires 0 <= i < |boards| => DropOn(boards[i], card, from, to, user))
  }

  /** The list name the client sends, when it sends the request. */
  function DropRequest(from: BoardList, to: BoardList, user: Option<CurrentUser>): Option<string> {
    if DropIgnored(from, to, user) then None else Some(BoardListName(to))
  }

  // ---------------------------------------------------------------- the handler, in place

  class BoardObject {
    const boardList: BoardList
    var cards: seq<Card>

    function Value(): BoardData
      reads this
    {
      BoardData(boardList, cards)
    }

    constructor (boardList: BoardList, cards: seq<Card>)
      ensures Value() == BoardData(boardList, cards)
    {
      this.boardList, this.cards := boardList, cards;
    }
  }

  class DragItem {
    const fromBoardList: BoardList
    var cardData: Card

    constructor (fromBoardList: BoardList, cardData: Card)
      ensures this.fromBoardList == fromBoardList && this.cardData == cardData
    {
      this.fromBoardList, this.cardData := fromBoardList, cardData;
    }
  }

  function Values(boards: seq<BoardObject>): seq<BoardData>
    reads boards
  {
    seq(|boards|, i requires 0 <= i < |boards| reads boards => boards[i].Value())
  }

  /** Visits the boards in order, reassigning the cards of two of them and the dragged item's card. */
  method OnItemDropped(boards: seq<BoardObject>, item: DragItem, to: BoardList, user: Option<CurrentUser>)
    returns (request: Option<string>)
    requires forall i, j :: 0 <= i < j < |boards| ==> boards[i] != boards[j]
    modifies boards, item
    ensures Values(boards) == Drop(old(Values(boards)), old(item.cardData), item.fromBoardList, to, user)
    ensures request ==
            if to != ACCEPTED && item.fromBoardList != to &&
               (item.fromBoardList == PENDING ==> user.Some? && user.value.id != 0 && user.value.username != "")
            then Some(BoardListName(to)) else None
  {
    var from := item.fromBoardList;
    if to == ACCEPTED || from == to { return None; }
    if from == PENDING && to != PENDING && (user.None? || user.value.id == 0 || user.value.username == "") {
      return None;
    }
    ghost var before := Values(boards);
    ghost var card := item.cardData;
    var i := 0;
    while i < |boards|
      invariant 0 <= i <= |boards|
      invariant item.cardData == card || item.cardData == DroppedCard(card, from, to, user)
      invariant forall k :: 0 <= k < i ==> boards[k].Value() == DropOn(before[k], card, from, to, user)
      invariant forall k :: i <= k < |boards| ==> boards[k].Value() == before[k]
    {
      var a := boards[i];
      if a.boardList == from {
        a.cards := Without(a.cards, item.cardData.ticketId);
      } else if a.boardList == to {
        if from != PENDING && to == PENDING {
          item.cardData := item.cardData.(moderatorId := None, moderatorUsername := None);
        } else if from == PENDING && to != PENDING {
          item.cardData := item.cardData.(
            moderatorId := if user.Some? then Some(user.value.id) else None,
            moderatorUsername := if user.Some? then Some(user.value.username) else None);
        }
        item.cardData := item.cardData.(boardList := to);
        a.cards := a.cards + [item.cardData];
      }
      i := i + 1;
    }
    return Some(BoardListName(to));
  }

  // ---------------------------------------------------------------- onApproveTicket

  /** After the server's success: the card leaves the board it was approved on and joins ACCEPTED. */
  function ApproveOn(b: BoardData, card: Card, from: BoardList): BoardData {
    if b.boardList != from && b.boardList != ACCEPTED then b
    else if b.boardList == ACCEPTED then b.(cards := b.cards + [card.(boardList := ACCEPTED)])
    else b.(cards := Without(b.cards, card.ticketId))
  }

  function Approve(boards: seq<BoardData>, card: Card, from: BoardList): seq<BoardData> {
    seq(|boards|, i requires 0 <= i < |boards| => ApproveOn(boards[i], card, from))
  }

  // ---------------------------------------------------------------- the commuting squares

  lemma {:induction false} WithoutCount(cards: seq<Card>, t: int, c: Card)
    ensures multiset(Without(cards, t))[c] == if c.ticketId == t then 0 else multiset(cards)[c]
  {
    if cards != [] {
      WithoutCount(cards[1..], t, c);
      assert cards == [cards[0]] + cards[1..];
    }
  }

  /** Moving one card from list to list, on boards with each list once. */
  ghost predicate MovesCard(before: seq<BoardData>, after: seq<BoardData>, t: int, from: BoardList, to: BoardList, landed: Card) {
    && |after| == |before|
    && forall i :: 0 <= i < |before| ==>
         && after[i].boardList == before[i].boardList
         && after[i].cards ==
            if before[i].boardList == from then Without(before[i].cards, t)
            else if before[i].boardList == to then before[i].cards + [landed]
            else before[i].cards
  }

  /** In the database one ticket changes and with it the one card that shows it. */
  ghost predicate MovesTicket(db: Db, db': Db, card: Card, landed: Card) {
    && card in AllCards(db) && card.ticketId == landed.ticketId
    && (forall c :: c in AllCards(db') <==> c == landed || (c in AllCards(db) && c.ticketId != card.ticketId))
  }

  lemma WithoutHoldsOnce(cards: seq<Card>, shown: set<Card>, t: int)
    requires HoldsOnce(cards, shown)
    ensures HoldsOnce(Without(cards, t), set c | c in shown && c.ticketId != t)
  {
    forall c ensures multiset(Without(cards, t))[c] == if c in shown && c.ticketId != t then 1 else 0 {
      WithoutCount(cards, t, c);
    }
  }

  lemma AppendHoldsOnce(cards: seq<Card>, shown: set<Card>, landed: Card)
    requires HoldsOnce(cards, shown) && landed !in shown
    ensures HoldsOnce(cards + [landed], shown + {landed})
  {
    forall c ensures multiset(cards + [landed])[c] == if c in shown + {landed} then 1 else 0 {
      assert multiset(cards)[c] == if c in shown then 1 else 0;
    }
  }

  /** The cards of each list after the move: the moved card has left one and joined another. */
  lemma MovedListCards(db: Db, db': Db, card: Card, landed: Card, l: BoardList)
    requires Consistent(db) && MovesTicket(db, db', card, landed) && card.boardList != landed.boardList
    ensures l == card.boardList ==> ListCards(db', l) == set c | c in ListCards(db, l) && c.ticketId != card.ticketId
    ensures l == landed.boardList ==> landed !in ListCards(db, l) && ListCards(db', l) == ListCards(db, l) + {landed}
    ensures l != card.boardList && l != landed.boardList ==> ListCards(db', l) == ListCards(db, l)
  {
    CardsAreTickets(db, card.ticketId);
  }

  lemma MoveKeepsShowing(before: seq<BoardData>, after: seq<BoardData>, db: Db, db': Db, card: Card, landed: Card)
    requires Consistent(db) && Shows(before, db) && MovesTicket(db, db', card, landed)
    requires card.boardList != landed.boardList
    requires MovesCard(before, after, card.ticketId, card.boardList, landed.boardList, landed)
    ensures Shows(after, db')
  {
    assert Lists(after) == Lists(before);
    forall l ensures HoldsOnce(CardsOn(after, l), ListCards(db', l)) {
      assert l in Lists(before);
      var i :| 0 <= i < |before| && Lists(before)[i] == l;
      CardsOnIsTheBoard(before, i);
      CardsOnIsTheBoard(after, i);
      MovedListCards(db, db', card, landed, l);
      assert HoldsOnce(before[i].cards, ListCards(db, l));
      if l == card.boardList {
        WithoutHoldsOnce(before[i].cards, ListCards(db, l), card.ticketId);
      } else if l == landed.boardList {
        AppendHoldsOnce(before[i].cards, ListCards(db, l), landed);
      }
    }
  }

  /** The card of ticket `t` after its row became `row`; other cards stay. */
  function Redrawn(db: Db, t: int, row: Ticket, c: Card): Card {
    if c.ticketId != t then c
    else c.(boardList := row.boardList, moderatorId := row.assignedTo, moderatorUsername := Username(db, row.assignedTo))
  }

  lemma CardsAreRedrawn(db: Db, t: int, row: Ticket)
    requires t in db.tickets
    ensures var db' := db.(tickets := db.tickets[t := row]);
            && (forall c :: c in AllCards(db) ==> Redrawn(db, t, row, c) in AllCards(db'))
            && (forall c' :: c' in AllCards(db') ==> exists c :: c in AllCards(db) && c' == Redrawn(db, t, row, c))
  {
    var db' := db.(tickets := db.tickets[t := row]);
    forall d | DebateHasCard(db, d)
      ensures DebateHasCard(db', d) && DebateCard(db', d) == Redrawn(db, t, row, DebateCard(db, d))
    {
    }
    forall a | ArgumentHasCard(db, a)
      ensures ArgumentHasCard(db', a) && ArgumentCard(db', a) == Redrawn(db, t, row, ArgumentCard(db, a))
    {
    }
    forall c' | c' in AllCards(db') ensures exists c :: c in AllCards(db) && c' == Redrawn(db, t, row, c) {
      if d :| DebateHasCard(db', d) && DebateCard(db', d) == c' {
        assert DebateHasCard(db, d);
        assert DebateCard(db, d) in AllCards(db);
      } else {
        var a :| ArgumentHasCard(db', a) && ArgumentCard(db', a) == c';
        assert ArgumentHasCard(db', a) && ArgumentHasCard(db, a);
        assert ArgumentCard(db, a) in AllCards(db);
      }
    }
  }

  /** Changing the row of one shown ticket changes exactly that ticket's card. */
  lemma TicketUpdateMovesCard(db: Db, row: Ticket, card: Card)
    requires Consistent(db) && card in AllCards(db) && card.ticketId in db.tickets
    ensures MovesTicket(db, db.(tickets := db.tickets[card.ticketId := row]), card,
                        Redrawn(db, card.ticketId, row, card))
  {
    var t := card.ticketId;
    CardsAreRedrawn(db, t, row);
    CardsAreTickets(db, t);
  }

  /** The square: whatever a moderator may drag, and wherever it is dropped, either nothing is sent and
      the boards stay, or the server accepts the move and the boards show the updated database. */
  lemma DropCommutes(db: Db, boards: seq<BoardData>, card: Card, from: BoardList, to: BoardList, user: CurrentUser)
    requires Consistent(db) && Shows(boards, db) && card in ListCards(db, from)
    requires IsModerator(db, user.id) && db.users[user.id].username == user.username
    requires CanDrag(card, user.id)
    ensures var request := DropRequest(from, to, Some(user));
            var boards' := Drop(boards, card, from, to, Some(user));
            if request.None? then boards' == boards
            else TicketUpdatable(db, user.id, card.ticketId) &&
                 Shows(boards', UpdateTicketStep(db, user.id, card.ticketId, request.value, 1))
  {
    if !DropIgnored(from, to, Some(user)) {
      var t := db.tickets[card.ticketId];
      var row := MovedTicket(t, user.id, to);
      var landed := DroppedCard(card, from, to, Some(user));
      CardShowsTicket(db, card);
      assert ParseBoardList(BoardListName(to)) == Some(to);
      TicketUpdateMovesCard(db, row, card);
      assert landed == Redrawn(db, card.ticketId, row, card);
      MoveKeepsShowing(boards, Drop(boards, card, from, to, Some(user)), db,
                       db.(tickets := db.tickets[card.ticketId := row]), card, landed);
    }
  }

  lemma CardShowsTicket(db: Db, card: Card)
    requires Consistent(db) && card in AllCards(db)
    ensures card.ticketId in db.tickets
    ensures var t := db.tickets[card.ticketId];
            card.boardList == t.boardList && card.moderatorId == t.assignedTo && card.moderatorUsername == Username(db, t.assignedTo)
  {
  }

  /** Which cards can be dragged: outside PENDING exactly those the server lets the moderator move; on PENDING,
      where it would let anyone, those that no one else has. */
  lemma CanDragIff(db: Db, card: Card, user: int)
    requires Consistent(db) && card in AllCards(db) && IsModerator(db, user)
    ensures card.boardList != PENDING ==> (CanDrag(card, user) <==> TicketUpdatable(db, user, card.ticketId))
    ensures card.boardList == PENDING ==>
              && TicketUpdatable(db, user, card.ticketId)
              && (CanDrag(card, user) <==> forall other :: db.tickets[card.ticketId].assignedTo == Some(other) ==> other == user)
  {
    CardShowsTicket(db, card);
  }

  /** Which drops are sent: all, but those onto ACCEPTED or onto the card's own list, and those out of PENDING
      without a moderator to assign. */
  lemma DropIsSentIff(from: BoardList, to: BoardList, user: Option<CurrentUser>)
    ensures DropRequest(from, to, user) ==
            if to != ACCEPTED && from != to && (from == PENDING ==> user.Some? && user.value.id != 0 && user.value.username != "")
            then Some(BoardListName(to)) else None
  {
  }

  /** No board but that of list `l` shows a card of ticket `t`. */
  ghost predicate OnlyOn(boards: seq<BoardData>, t: int, l: BoardList) {
    forall k, c :: c in CardsOn(boards, k) && c.ticketId == t ==> k == l
  }

  lemma ShownOnItsListOnly(boards: seq<BoardData>, db: Db, card: Card)
    requires Consistent(db) && Shows(boards, db) && card in AllCards(db)
    ensures card in CardsOn(boards, card.boardList) && OnlyOn(boards, card.ticketId, card.boardList)
  {
    assert card in ListCards(db, card.boardList);
    assert multiset(CardsOn(boards, card.boardList))[card] == 1;
    CardsAreTickets(db, card.ticketId);
    forall k, c | c in CardsOn(boards, k) && c.ticketId == card.ticketId ensures k == card.boardList {
      assert multiset(CardsOn(boards, k))[c] > 0;
      assert c in ListCards(db, k);
    }
  }

  /** A drag the page allows, between different lists and not onto ACCEPTED, does move the card: the request
      is sent, the server puts the ticket on that list, its owner's or nobody's, and the page shows the card
      there, as the last one, and nowhere else; the other cards keep their places. */
  lemma AllowedDropMovesTheCard(db: Db, boards: seq<BoardData>, card: Card, to: BoardList, user: CurrentUser)
    requires Consistent(db) && Shows(boards, db) && card in ListCards(db, card.boardList)
    requires IsModerator(db, user.id) && db.users[user.id].username == user.username
    requires CanDrag(card, user.id) && user.id != 0 && user.username != ""
    requires to != card.boardList && to != ACCEPTED
    ensures DropRequest(card.boardList, to, Some(user)) == Some(BoardListName(to))
    ensures var db' := UpdateTicketStep(db, user.id, card.ticketId, BoardListName(to), 1);
            var boards' := Drop(boards, card, card.boardList, to, Some(user));
            var owner := if to == PENDING then None else Some(user.id);
            && card.ticketId in db'.tickets && db'.tickets[card.ticketId].boardList == to
            && db'.tickets[card.ticketId].assignedTo == owner
            && var landed := card.(boardList := to, moderatorId := owner,
                                   moderatorUsername := if to == PENDING then None else Some(user.username));
               && landed in CardsOn(boards', to) && OnlyOn(boards', card.ticketId, to)
               && MovesCard(boards, boards', card.ticketId, card.boardList, to, landed)
  {
    var from := card.boardList;
    CardShowsTicket(db, card);
    DropIsSentIff(from, to, Some(user));
    DropCommutes(db, boards, card, from, to, user);
    var row := MovedTicket(db.tickets[card.ticketId], user.id, to);
    var db' := UpdateTicketStep(db, user.id, card.ticketId, BoardListName(to), 1);
    assert ParseBoardList(BoardListName(to)) == Some(to);
    assert db' == db.(tickets := db.tickets[card.ticketId := row]);
    UpdateKeepsUsers(db, user.id, card.ticketId, BoardListName(to));
    CardsAreRedrawn(db, card.ticketId, row);
    var landed := Redrawn(db, card.ticketId, row, card);
    assert landed in AllCards(db');
    ShownOnItsListOnly(Drop(boards, card, from, to, Some(user)), db', landed);
  }

  /** The approve action, offered on IN REVIEW cards: the server accepts it and the boards follow. */
  lemma ApproveCommutes(db: Db, boards: seq<BoardData>, card: Card, user: CurrentUser)
    requires Consistent(db) && Shows(boards, db) && card in ListCards(db, IN_REVIEW)
    requires IsModerator(db, user.id) && CanDrag(card, user.id)
    ensures TicketApprovable(db, user.id, card.ticketId)
    ensures Shows(Approve(boards, card, IN_REVIEW), ApproveTicketStep(db, user.id, card.ticketId, 1))
  {
    CardShowsTicket(db, card);
    var row := db.tickets[card.ticketId].(boardList := ACCEPTED);
    TicketUpdateMovesCard(db, row, card);
    MoveKeepsShowing(boards, Approve(boards, card, IN_REVIEW), db,
                     db.(tickets := db.tickets[card.ticketId := row]), card, card.(boardList := ACCEPTED));
  }

  /** An approval likewise moves the card to ACCEPTED. */
  lemma ApprovalMovesTheCard(db: Db, boards: seq<BoardData>, card: Card, user: CurrentUser)
    requires Consistent(db) && Shows(boards, db) && card in ListCards(db, IN_REVIEW)
    requires IsModerator(db, user.id) && CanDrag(card, user.id)
    ensures var boards' := Approve(boards, card, IN_REVIEW);
            && card.(boardList := ACCEPTED) in CardsOn(boards', ACCEPTED) && OnlyOn(boards', card.ticketId, ACCEPTED)
            && MovesCard(boards, boards', card.ticketId, IN_REVIEW, ACCEPTED, card.(boardList := ACCEPTED))
  {
    CardShowsTicket(db, card);
    ApproveCommutes(db, boards, card, user);
    ApproveKeepsUsers(db, user.id, card.ticketId);
    var row := db.tickets[card.ticketId].(boardList := ACCEPTED);
    CardsAreRedrawn(db, card.ticketId, row);
    assert Redrawn(db, card.ticketId, row, card) == card.(boardList := ACCEPTED);
    ShownOnItsListOnly(Approve(boards, card, IN_REVIEW), ApproveTicketStep(db, user.id, card.ticketId, 1),
                       card.(boardList := ACCEPTED));
  }

  // ---------------------------------------------------------------- a moderator's session

  /** What the page offers on a displayed card. */
  datatype Action = DropCard(card: Card, to: BoardList) | ApproveCard(card: Card)

  predicate Offered(boards: seq<BoardData>, action: Action, user: CurrentUser) {
    && action.card in CardsOn(boards, action.card.boardList)
    && CanDrag(action.card, user.id)
    && (action.ApproveCard? ==> action.card.boardList == IN_REVIEW)
  }

  /** What the action does to the page, and the request it makes of the server, if any. */
  function ClientStep(boards: seq<BoardData>, action: Action, user: CurrentUser): seq<BoardData> {
    match action
    case DropCard(card, to) => Drop(boards, card, card.boardList, to, Some(user))
    case ApproveCard(card) => Approve(boards, card, IN_REVIEW)
  }

  function ServerStep(db: Db, action: Action, user: CurrentUser): Db {
    match action
    case DropCard(card, to) =>
      var request := DropRequest(card.boardList, to, Some(user));
      if request.None? then db
      else UpdateTicketStep(db, user.id, card.ticketId, request.value, 1)
    case ApproveCard(card) => ApproveTicketStep(db, user.id, card.ticketId, 1)
  }

  function ClientAfter(boards: seq<BoardData>, actions: seq<Action>, user: CurrentUser): seq<BoardData> {
    if actions == [] then boards
    else ClientStep(ClientAfter(boards, actions[..|actions| - 1], user), actions[|actions| - 1], user)
  }

  function ServerAfter(db: Db, actions: seq<Action>, user: CurrentUser): Db {
    if actions == [] then db
    else ServerStep(ServerAfter(db, actions[..|actions| - 1], user), actions[|actions| - 1], user)
  }

  /** A session in which every action is one the page offers at that moment. */
  ghost predicate Session(boards: seq<BoardData>, actions: seq<Action>, user: CurrentUser) {
    forall i :: 0 <= i < |actions| ==> Offered(ClientAfter(boards, actions[..i], user), actions[i], user)
  }

  /** The page and the database agree, and `user` is a moderator under their own name. */
  ghost predicate InStep(boards: seq<BoardData>, db: Db, user: CurrentUser) {
    && Consistent(db) && Shows(boards, db)
    && IsModerator(db, user.id) && db.users[user.id].username == user.username
  }

  lemma DisplayedCardIsStored(boards: seq<BoardData>, db: Db, card: Card)
    requires Shows(boards, db) && card in CardsOn(boards, card.boardList)
    ensures card in ListCards(db, card.boardList)
  {
    assert HoldsOnce(CardsOn(boards, card.boardList), ListCards(db, card.boardList));
    assert multiset(CardsOn(boards, card.boardList))[card] > 0;
  }

  lemma UpdateKeepsUsers(db: Db, user: int, ticketId: int, listName: string)
    requires Consistent(db)
    ensures Consistent(UpdateTicketStep(db, user, ticketId, listName, 1))
    ensures UpdateTicketStep(db, user, ticketId, listName, 1).users == db.users
  {
    Moderation.StepKeepsConsistent(db, Moderation.UpdateTicket(user, ticketId, listName, 1));
  }

  lemma ApproveKeepsUsers(db: Db, user: int, ticketId: int)
    requires Consistent(db)
    ensures Consistent(ApproveTicketStep(db, user, ticketId, 1)) && ApproveTicketStep(db, user, ticketId, 1).users == db.users
  {
    Moderation.StepKeepsConsistent(db, Moderation.ApproveTicket(user, ticketId, 1));
  }

  lemma ActionCommutes(db: Db, boards: seq<BoardData>, action: Action, user: CurrentUser)
    requires InStep(boards, db, user) && Offered(boards, action, user)
    ensures InStep(ClientStep(boards, action, user), ServerStep(db, action, user), user)
  {
    var card := action.card;
    DisplayedCardIsStored(boards, db, card);
    if action.DropCard? {
      DropCommutes(db, boards, card, card.boardList, action.to, user);
      var request := DropRequest(card.boardList, action.to, Some(user));
      if request.Some? {
        UpdateKeepsUsers(db, user.id, card.ticketId, request.value);
      }
    } else {
      ApproveCommutes(db, boards, card, user);
      ApproveKeepsUsers(db, user.id, card.ticketId);
    }
  }

  /** Where an action takes its card: an approval and a drop onto another list but ACCEPTED move it. */
  function Target(action: Action): BoardList {
    match action
    case DropCard(card, to) => if to == ACCEPTED then card.boardList else to
    case ApproveCard(_) => ACCEPTED
  }

  /** Nor are the two in step for want of moving: after an offered action both have the ticket on its target. */
  lemma ActionMovesTheCard(db: Db, boards: seq<BoardData>, action: Action, user: CurrentUser)
    requires InStep(boards, db, user) && Offered(boards, action, user) && user.id != 0 && user.username != ""
    ensures var t := action.card.ticketId;
            && t in ServerStep(db, action, user).tickets
            && ServerStep(db, action, user).tickets[t].boardList == Target(action)
            && OnlyOn(ClientStep(boards, action, user), t, Target(action))
            && exists c :: c in CardsOn(ClientStep(boards, action, user), Target(action)) && c.ticketId == t
  {
    var card := action.card;
    DisplayedCardIsStored(boards, db, card);
    CardShowsTicket(db, card);
    match action
    case ApproveCard(_) =>
      ApproveCommutes(db, boards, card, user);
      ApprovalMovesTheCard(db, boards, card, user);
      assert card.(boardList := ACCEPTED) in CardsOn(ClientStep(boards, action, user), ACCEPTED);
    case DropCard(_, to) =>
      if to == ACCEPTED || to == card.boardList {
        DropIsSentIff(card.boardList, to, Some(user));
        ShownOnItsListOnly(boards, db, card);
      } else {
        AllowedDropMovesTheCard(db, boards, card, to, user);
      }
  }

  /** A whole session of drags and approvals keeps the boards showing the database, as long as no other
      moderator acts in between. */
  lemma {:induction false} SessionStaysInStep(db: Db, boards: seq<BoardData>, actions: seq<Action>, user: CurrentUser)
    requires InStep(boards, db, user) && Session(boards, actions, user)
    ensures InStep(ClientAfter(boards, actions, user), ServerAfter(db, actions, user), user)
  {
    if actions != [] {
      var front, last := actions[..|actions| - 1], actions[|actions| - 1];
      forall i | 0 <= i < |front| ensures Offered(ClientAfter(boards, front[..i], user), front[i], user) {
        assert front[..i] == actions[..i];
      }
      SessionStaysInStep(db, boards, front, user);
      ActionCommutes(ServerAfter(db, front, user), ClientAfter(boards, front, user), last, user);
    }
  }

  /** In every reachable database a freshly loaded page is in step with it. */
  lemma LoadedPageIsInStep(trace: seq<Db>, steps: seq<Moderation.Step>, n: nat, debateRows: seq<Row>, argumentRows: seq<Row>, user: int)
    requires Moderation.Run(trace, steps) && n < |trace| && IsModerator(trace[n], user)
    requires QueryRows(debateRows, DebateCards(trace[n])) && QueryRows(argumentRows, ArgumentCards(trace[n]))
    ensures InStep(SortBoards(Group(debateRows + argumentRows)), trace[n], CurrentUser(user, trace[n].users[user].username))
  {
    Moderation.RunIsConsistent(trace, steps, n);
    PageShowsDatabase(trace[n], debateRows, argumentRows);
  }
}

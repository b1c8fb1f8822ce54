/** The public debate page: the query's rows folded into a page, the counterargument index, and the
    navigation through threads of counterarguments. */
module DebatePage {
  import opened Schema
  import opened Services
  import Moderation

  // ---------------------------------------------------------------- the query

  /** An argument as the page lists it; its content is fetched separately. */
  datatype PageArgument = PageArgument(id: int, title: string, createdBy: int, side: Side, counterargumentTo: Option<int>)

  /** A result row. The query adds one row without an argument, so that a debate without arguments
      still has a title; `debateTitle` is null when the debate does not exist. */
  datatype Row = Row(debateId: int, debateTitle: Option<string>, argument: Option<PageArgument>)

  predicate OnPage(db: Db, debateId: int, a: int) {
    && a in db.arguments && db.arguments[a].debateId == debateId && PublicArgument(db, a)
    && debateId in db.debates
  }

  function PageArgumentOf(db: Db, a: int): PageArgument
    requires a in db.arguments
  {
    var arg := db.arguments[a];
    PageArgument(a, arg.title, arg.createdBy, arg.side, arg.counterargumentTo)
  }

  function TitleOf(db: Db, debateId: int): Option<string> {
    if debateId in db.debates then Some(db.debates[debateId].title) else None
  }

  /** The rows of `getDebateArguments`: those of the arguments, in some order `ids`, and somewhere among them
      the added one. */
  ghost predicate QueryRows(rows: seq<Row>, db: Db, debateId: int, ids: seq<int>, at: nat) {
    && (forall i, j :: 0 <= i < j < |ids| ==> ids[i] != ids[j])
    && (forall a :: a in ids <==> OnPage(db, debateId, a))
    && at <= |ids| && |rows| == |ids| + 1
    && rows[at] == Row(debateId, TitleOf(db, debateId), None)
    && (forall i :: 0 <= i < at ==> rows[i] == ArgumentRow(db, debateId, ids[i]))
    && (forall i :: at <= i < |ids| ==> rows[i + 1] == ArgumentRow(db, debateId, ids[i]))
  }

  ghost function ArgumentRow(db: Db, debateId: int, a: int): Row {
    if a in db.arguments then Row(debateId, TitleOf(db, debateId), Some(PageArgumentOf(db, a)))
    else Row(debateId, TitleOf(db, debateId), None)
  }

  // ---------------------------------------------------------------- getDebates

  datatype Page = Page(debateId: int, debateTitle: string, args: seq<PageArgument>)

  datatype Result<T> = Ok(value: T) | EntityNotFound

  predicate NoTitle(r: Row) {
    r.debateTitle == None || r.debateTitle == Some("")
  }

  function ArgumentsOf(rows: seq<Row>): seq<PageArgument> {
    if rows == [] then []
    else ArgumentsOf(rows[..|rows| - 1]) +
         (if rows[|rows| - 1].argument.Some? then [rows[|rows| - 1].argument.value] else [])
  }

  /** The fold over at least one row. */
  function Fold(rows: seq<Row>): Result<Page>
    requires rows != []
  {
    var last := rows[|rows| - 1];
    if exists i :: 0 <= i < |rows| && NoTitle(rows[i]) then EntityNotFound
    else Ok(Page(last.debateId, last.debateTitle.value, ArgumentsOf(rows)))
  }

  /** `reduce` with its accumulator: the metadata is overwritten by every row, arguments are pushed. */
  method GetDebates(debateArgs: seq<Row>) returns (res: Result<Page>)
    requires debateArgs != []
    ensures res == Fold(debateArgs)
  {
    var debateId, debateTitle := 0, "";
    var args := [];
    var i := 0;
    while i < |debateArgs|
      invariant 0 <= i <= |debateArgs|
      invariant forall k :: 0 <= k < i ==> !NoTitle(debateArgs[k])
      invariant i > 0 ==> debateId == debateArgs[i - 1].debateId && Some(debateTitle) == debateArgs[i - 1].debateTitle
      invariant args == ArgumentsOf(debateArgs[..i])
    {
      var crt := debateArgs[i];
      if crt.debateTitle == None || crt.debateTitle.value == "" {
        assert NoTitle(debateArgs[i]);
        return EntityNotFound;
      }
      debateId, debateTitle := crt.debateId, crt.debateTitle.value;
      if crt.argument.Some? {
        args := args + [crt.argument.value];
      }
      assert debateArgs[..i + 1][..i] == debateArgs[..i];
      i := i + 1;
    }
    assert debateArgs[..i] == debateArgs;
    return Ok(Page(debateId, debateTitle, args));
  }

  ghost function PageArguments(db: Db, ids: seq<int>): seq<PageArgument>
    requires forall a :: a in ids ==> a in db.arguments
  {
    seq(|ids|, i requires 0 <= i < |ids| => PageArgumentOf(db, ids[i]))
  }

  lemma {:induction false} ArgumentsOfRows(db: Db, debateId: int, ids: seq<int>, rows: seq<Row>)
    requires forall a :: a in ids ==> a in db.arguments
    requires |rows| == |ids| && forall i :: 0 <= i < |ids| ==> rows[i] == ArgumentRow(db, debateId, ids[i])
    ensures ArgumentsOf(rows) == PageArguments(db, ids)
  {
    if ids != [] {
      var k := |ids| - 1;
      ArgumentsOfRows(db, debateId, ids[..k], rows[..k]);
      assert PageArguments(db, ids) == PageArguments(db, ids[..k]) + [PageArgumentOf(db, ids[k])];
    }
  }

  lemma RowsAgree(db: Db, debateId: int, ids: seq<int>, rows: seq<Row>, at: nat)
    requires QueryRows(rows, db, debateId, ids, at)
    ensures forall i :: 0 <= i < |rows| ==> rows[i].debateId == debateId && rows[i].debateTitle == TitleOf(db, debateId)
  {
    forall i | 0 <= i < |rows| ensures rows[i].debateId == debateId && rows[i].debateTitle == TitleOf(db, debateId) {
      if i > at { assert rows[i] == ArgumentRow(db, debateId, ids[i - 1]); }
    }
  }

  lemma RowsHoldTheArguments(db: Db, debateId: int, ids: seq<int>, rows: seq<Row>, at: nat)
    requires QueryRows(rows, db, debateId, ids, at)
    requires forall a :: a in ids ==> a in db.arguments
    ensures ArgumentsOf(rows) == PageArguments(db, ids)
  {
    var front, back := rows[..at], rows[at + 1..];
    var before, after := ids[..at], ids[at..];
    assert forall i :: 0 <= i < |before| ==> front[i] == ArgumentRow(db, debateId, before[i]);
    assert forall i :: 0 <= i < |after| ==> back[i] == rows[at + i + 1] && after[i] == ids[at + i];
    assert forall i :: 0 <= i < |after| ==> back[i] == ArgumentRow(db, debateId, after[i]);
    ArgumentsOfRows(db, debateId, before, front);
    ArgumentsOfRows(db, debateId, after, back);
    ArgumentsAround(rows, at);
    PageArgumentsSplit(db, ids, at);
  }

  lemma PageArgumentsSplit(db: Db, ids: seq<int>, at: nat)
    requires at <= |ids| && forall a :: a in ids ==> a in db.arguments
    ensures PageArguments(db, ids) == PageArguments(db, ids[..at]) + PageArguments(db, ids[at..])
  {
  }

  lemma {:induction false} ArgumentsAround(rows: seq<Row>, at: nat)
    requires at < |rows| && rows[at].argument == None
    ensures ArgumentsOf(rows) == ArgumentsOf(rows[..at]) + ArgumentsOf(rows[at + 1..])
  {
    var k := |rows| - 1;
    if at < k {
      ArgumentsAround(rows[..k], at);
      assert rows[..k][..at] == rows[..at];
      assert rows[at + 1..][..k - at - 1] == rows[..k][at + 1..];
    }
  }

  lemma HeadIsMember(ids: seq<int>)
    ensures ids != [] ==> ids[0] in ids
  {
  }

  /** Page construction: wherever the added row falls, the page is served exactly when the debate exists
      under a title that is not empty, and then it holds the debate's id and title and exactly its
      accepted arguments, in the order of the rows. */
  lemma PageIsFaithful(db: Db, debateId: int, ids: seq<int>, rows: seq<Row>, at: nat)
    requires QueryRows(rows, db, debateId, ids, at)
    ensures Fold(rows).Ok? <==> debateId in db.debates && db.debates[debateId].title != ""
    ensures (forall a :: a in ids ==> a in db.arguments)
    ensures Fold(rows).Ok? ==> Fold(rows).value == Page(debateId, db.debates[debateId].title, PageArguments(db, ids))
    ensures Fold(rows).Ok? ==> |Fold(rows).value.args| == |ids|
    ensures Fold(rows).Ok? ==> forall i :: 0 <= i < |ids| ==>
              var shown, row := Fold(rows).value.args[i], db.arguments[ids[i]];
              && shown.id == ids[i] && shown.title == row.title && shown.createdBy == row.createdBy
              && shown.side == row.side && shown.counterargumentTo == row.counterargumentTo
  {
    forall a | a in ids ensures a in db.arguments {
      assert OnPage(db, debateId, a);
    }
    RowsAgree(db, debateId, ids, rows, at);
    RowsHoldTheArguments(db, debateId, ids, rows, at);
    assert NoTitle(rows[at]) <==> Fold(rows) == EntityNotFound;
  }

  /** The page does not ask whether the debate itself was approved: it serves the title of a debate whose
      ticket is on any list, while the public list shows it only on ACCEPTED. */
  lemma UnapprovedTitleIsServed(db: Db, user: int, title: string, tagIds: seq<int>)
    requires Consistent(db) && user in db.users && title != "" && !HasDuplicates(tagIds)
    ensures var db' := Moderation.Apply(db, Moderation.CreateDebate(user, title, tagIds, None, 5));
            && DebateOn(db', db.nextDebate, PENDING) && !ListedDebate(db', db.nextDebate)
            && forall ids: seq<int>, rows: seq<Row>, at: nat :: QueryRows(rows, db', db.nextDebate, ids, at) ==>
                 Fold(rows) == Ok(Page(db.nextDebate, title, []))
  {
    var db' := Moderation.Apply(db, Moderation.CreateDebate(user, title, tagIds, None, 5));
    forall ids: seq<int>, rows: seq<Row>, at: nat | QueryRows(rows, db', db.nextDebate, ids, at)
      ensures Fold(rows) == Ok(Page(db.nextDebate, title, []))
    {
      PageIsFaithful(db', db.nextDebate, ids, rows, at);
      assert forall a :: !OnPage(db', db.nextDebate, a);
      HeadIsMember(ids);
      assert PageArguments(db', ids) == [];
    }
  }

  // ---------------------------------------------------------------- getDebateDTO

  /** A listed argument with the index built on the client; null when nothing answers it. */
  datatype Indexed = Indexed(arg: PageArgument, counterarguments: Option<seq<int>>)

  /** The quadratic definition: the ids of the arguments that answer `id`, in page order. */
  function AnswersTo(args: seq<Indexed>, id: int): seq<int> {
    if args == [] then []
    else AnswersTo(args[..|args| - 1], id) +
         (if args[|args| - 1].arg.counterargumentTo == Some(id) then [args[|args| - 1].arg.id] else [])
  }

  function AnswersOrNull(args: seq<Indexed>, id: int): Option<seq<int>> {
    var answers := AnswersTo(args, id);
    if id == 0 || answers == [] then None else Some(answers)
  }

  /** The page with every argument's answers. */
  function WithAnswers(args: seq<Indexed>): seq<Indexed> {
    seq(|args|, i requires 0 <= i < |args| => args[i].(counterarguments := AnswersOrNull(args, args[i].arg.id)))
  }

  class CurrentDebate {
    var args: seq<Indexed>

    constructor (args: seq<Indexed>)
      ensures this.args == args
    {
      this.args := args;
    }
  }

  /** One pass fills a map from an argument to its answers, a second one attaches them. */
  method GetDebateDTO(debateInfo: CurrentDebate)
    modifies debateInfo
    ensures debateInfo.args == WithAnswers(old(debateInfo.args))
  {
    var args := debateInfo.args;
    if args == [] { return; }
    var argsWithCounterargs: map<int, seq<int>> := map[];
    var i := 0;
    while i < |args|
      invariant 0 <= i <= |args|
      invariant 0 !in argsWithCounterargs
      invariant forall id :: id != 0 ==>
                  AnswersTo(args[..i], id) == if id in argsWithCounterargs then argsWithCounterargs[id] else []
      invariant forall id :: id in argsWithCounterargs ==> argsWithCounterargs[id] != []
    {
      var arg := args[i].arg;
      assert args[..i + 1][..i] == args[..i];
      if arg.counterargumentTo.Some? && arg.counterargumentTo.value != 0 {
        var target := arg.counterargumentTo.value;
        var known := if target in argsWithCounterargs then argsWithCounterargs[target] else [];
        argsWithCounterargs := argsWithCounterargs[target := known + [arg.id]];
      }
      i := i + 1;
    }
    assert args[..i] == args;
    debateInfo.args := seq(|args|, k requires 0 <= k < |args| =>
      args[k].(counterarguments :=
        if args[k].arg.id in argsWithCounterargs then Some(argsWithCounterargs[args[k].arg.id]) else None));
  }

  predicate DistinctIds(args: seq<Indexed>) {
    forall i, j :: 0 <= i < j < |args| ==> args[i].arg.id != args[j].arg.id
  }

  /** An edge of the page: argument b answers argument a. */
  predicate Answers(args: seq<Indexed>, b: int, a: int) {
    exists j :: 0 <= j < |args| && args[j].arg.id == b && args[j].arg.counterargumentTo == Some(a)
  }

  lemma AnswersSplit(args: seq<Indexed>, b: int, a: int)
    requires DistinctIds(args) && args != []
    ensures var front, last := args[..|args| - 1], args[|args| - 1].arg;
            && (Answers(args, b, a) <==> Answers(front, b, a) || (last.id == b && last.counterargumentTo == Some(a)))
            && (last.id == b ==> !Answers(front, b, a))
  {
    var front := args[..|args| - 1];
    assert forall j :: 0 <= j < |front| ==> front[j] == args[j] && args[j].arg.id != args[|front|].arg.id;
    if Answers(front, b, a) {
      var j :| 0 <= j < |front| && front[j].arg.id == b && front[j].arg.counterargumentTo == Some(a);
      assert args[j].arg.id == b && args[j].arg.counterargumentTo == Some(a);
    }
  }

  /** No edge is lost or doubled: b occurs among the answers to a exactly once if it answers a, else not. */
  lemma {:induction false} EdgesAreKept(args: seq<Indexed>, a: int, b: int)
    requires DistinctIds(args)
    ensures multiset(AnswersTo(args, a))[b] == if Answers(args, b, a) then 1 else 0
  {
    if args != [] {
      EdgesAreKept(args[..|args| - 1], a, b);
      AnswersSplit(args, b, a);
    }
  }

  /** Answers keep the page's order. */
  lemma {:induction false} AnswersAreOrdered(args: seq<Indexed>, a: int) returns (at: seq<nat>)
    ensures |at| == |AnswersTo(args, a)|
    ensures forall i :: 0 <= i < |at| ==> at[i] < |args| && args[at[i]].arg.id == AnswersTo(args, a)[i]
    ensures forall i, j :: 0 <= i < j < |at| ==> at[i] < at[j]
  {
    if args == [] {
      at := [];
    } else {
      at := AnswersAreOrdered(args[..|args| - 1], a);
      if args[|args| - 1].arg.counterargumentTo == Some(a) {
        at := at + [|args| - 1];
      }
    }
  }

  lemma {:induction false} SomeAnswer(args: seq<Indexed>, a: int)
    ensures AnswersTo(args, a) == [] <==> forall b :: !Answers(args, b, a)
  {
    if args != [] {
      var front, last := args[..|args| - 1], args[|args| - 1].arg;
      SomeAnswer(front, a);
      if last.counterargumentTo == Some(a) {
        assert Answers(args, last.id, a);
      } else {
        forall b ensures Answers(args, b, a) <==> Answers(front, b, a) {
          if j :| 0 <= j < |front| && front[j].arg.id == b && front[j].arg.counterargumentTo == Some(a) {
            assert args[j] == front[j];
          }
        }
      }
    }
  }

  /** The index itself: every argument keeps its fields; it has no list exactly if nothing answers it, and
      otherwise its list holds each argument that answers it once, in the page's order. */
  lemma IndexListsTheAnswers(args: seq<Indexed>, i: nat) returns (at: seq<nat>)
    requires DistinctIds(args) && i < |args| && forall k :: 0 <= k < |args| ==> args[k].arg.id != 0
    ensures |WithAnswers(args)| == |args| && WithAnswers(args)[i].arg == args[i].arg
    ensures var index, id := WithAnswers(args)[i].counterarguments, args[i].arg.id;
            && (index.None? <==> forall b :: !Answers(args, b, id))
            && (index.Some? ==>
                  && (forall b :: multiset(index.value)[b] == if Answers(args, b, id) then 1 else 0)
                  && |at| == |index.value|
                  && (forall j :: 0 <= j < |at| ==> at[j] < |args| && args[at[j]].arg.id == index.value[j])
                  && forall j, k :: 0 <= j < k < |at| ==> at[j] < at[k])
  {
    var id := args[i].arg.id;
    SomeAnswer(args, id);
    forall b ensures multiset(AnswersTo(args, id))[b] == if Answers(args, b, id) then 1 else 0 {
      EdgesAreKept(args, id, b);
    }
    at := AnswersAreOrdered(args, id);
  }

  lemma {:induction false} AnswersIgnoreIndex(xs: seq<Indexed>, ys: seq<Indexed>, id: int)
    requires |xs| == |ys| && forall i :: 0 <= i < |xs| ==> xs[i].arg == ys[i].arg
    ensures AnswersTo(xs, id) == AnswersTo(ys, id)
  {
    if xs != [] { AnswersIgnoreIndex(xs[..|xs| - 1], ys[..|ys| - 1], id); }
  }

  /** Indexing a page twice is indexing it once. */
  lemma IndexingIsIdempotent(args: seq<Indexed>)
    ensures WithAnswers(WithAnswers(args)) == WithAnswers(args)
  {
    forall i | 0 <= i < |args| ensures WithAnswers(WithAnswers(args))[i] == WithAnswers(args)[i] {
      AnswersIgnoreIndex(WithAnswers(args), args, args[i].arg.id);
    }
  }

  // ---------------------------------------------------------------- navigation

  /** `inspected` is the argument whose counterarguments are shown, `history` the breadcrumbs. */
  datatype Nav = Nav(inspected: Option<int>, history: seq<int>)

  function IndexOf(history: seq<int>, id: int): (i: int)
    ensures -1 <= i < |history|
  {
    if history == [] then -1
    else if history[0] == id then 0
    else var i := IndexOf(history[1..], id); if i == -1 then -1 else i + 1
  }

  /** `inspectCounterargumentsOf`. */
  function Inspect(nav: Nav, id: int): Nav {
    if nav.inspected == Some(id) then nav
    else
      var historyIdx := IndexOf(nav.history, id);
      Nav(Some(id), if historyIdx != -1 then nav.history[..historyIdx + 1] else nav.history + [id])
  }

  lemma {:induction false} IndexOfFinds(history: seq<int>, id: int)
    ensures IndexOf(history, id) == -1 <==> id !in history
    ensures IndexOf(history, id) != -1 ==> history[IndexOf(history, id)] == id
  {
    if history != [] {
      IndexOfFinds(history[1..], id);
      assert history == [history[0]] + history[1..];
    }
  }

  /** `find` by id. */
  function Find(args: seq<Indexed>, id: int): Option<PageArgument> {
    if args == [] then None
    else if args[0].arg.id == id then Some(args[0].arg)
    else Find(args[1..], id)
  }

  /** The column of one side: all of its arguments; while a thread is inspected, the inspected argument on
      its own side and the arguments that answer it on the other. */
  predicate Displayed(args: seq<Indexed>, nav: Nav, a: Indexed) {
    && a in args
    && match nav.inspected
       case None => true
       case Some(id) =>
         var inspected := Find(args, id);
         inspected.Some? && if inspected.value.side == a.arg.side then a.arg == inspected.value
                            else a.arg.counterargumentTo == Some(inspected.value.id)
  }

  datatype Click =
    | SeeCounterarguments(a: Indexed)
    | Breadcrumb(id: int)
    | DisableMode

  /** The menu item is disabled for an argument nothing answers and for the inspected one; a breadcrumb acts
      when its argument is found. */
  predicate Clickable(args: seq<Indexed>, nav: Nav, c: Click) {
    match c
    case SeeCounterarguments(a) =>
      && Displayed(args, nav, a)
      && a.counterarguments.Some? && a.counterarguments.value != []
      && nav.inspected != Some(a.arg.id)
    case Breadcrumb(id) => id in nav.history && Find(args, id).Some?
    case DisableMode => true
  }

  function AfterClick(nav: Nav, c: Click): Nav {
    match c
    case SeeCounterarguments(a) => Inspect(nav, a.arg.id)
    case Breadcrumb(id) => Inspect(nav, id)
    case DisableMode => Nav(None, [])
  }

  /** Argument `next` is a direct counterargument of `prev`, on the other side. */
  ghost predicate Rebuts(args: seq<Indexed>, prev: int, next: int) {
    && Find(args, prev).Some? && Find(args, next).Some?
    && Find(args, next).value.counterargumentTo == Some(prev)
    && Find(args, next).value.side != Find(args, prev).value.side
  }

  ghost predicate IsThread(args: seq<Indexed>, nav: Nav) {
    && (forall i, j :: 0 <= i < j < |nav.history| ==> nav.history[i] != nav.history[j])
    && (nav.inspected == if nav.history == [] then None else Some(nav.history[|nav.history| - 1]))
    && (forall i :: 0 < i < |nav.history| ==> Rebuts(args, nav.history[i - 1], nav.history[i]))
  }

  lemma {:induction false} FindOfMember(args: seq<Indexed>, a: Indexed)
    requires DistinctIds(args) && a in args
    ensures Find(args, a.arg.id) == Some(a.arg)
  {
    if args[0].arg.id == a.arg.id {
      var i :| 0 <= i < |args| && args[i] == a;
      assert i == 0;
    } else {
      var i :| 0 <= i < |args| && args[i] == a;
      assert args[1..][i - 1] == a;
      FindOfMember(args[1..], a);
    }
  }

  lemma {:induction false} FoundIdIsRight(args: seq<Indexed>, id: int)
    ensures Find(args, id).Some? ==> Find(args, id).value.id == id
  {
    if args != [] { FoundIdIsRight(args[1..], id); }
  }

  lemma InspectKeepsThread(args: seq<Indexed>, nav: Nav, id: int)
    requires IsThread(args, nav)
    requires id !in nav.history && nav.history != [] ==> Rebuts(args, nav.history[|nav.history| - 1], id)
    ensures IsThread(args, Inspect(nav, id))
  {
    IndexOfFinds(nav.history, id);
  }

  lemma ClickKeepsThread(args: seq<Indexed>, nav: Nav, c: Click)
    requires DistinctIds(args) && IsThread(args, nav) && Clickable(args, nav, c)
    ensures IsThread(args, AfterClick(nav, c))
  {
    match c
    case SeeCounterarguments(a) =>
      FindOfMember(args, a);
      if nav.inspected.Some? {
        FoundIdIsRight(args, nav.inspected.value);
      }
      InspectKeepsThread(args, nav, a.arg.id);
    case Breadcrumb(id) => InspectKeepsThread(args, nav, id);
    case DisableMode =>
  }

  /** A click on an argument, in a column or in the breadcrumbs, inspects that argument; the history is cut at
      it, or extended by it when it is not part of the history. Leaving the mode forgets both. */
  lemma ClickInspects(args: seq<Indexed>, nav: Nav, c: Click, id: int)
    requires IsThread(args, nav)
    requires match c case SeeCounterarguments(a) => a.arg.id == id case Breadcrumb(b) => b == id case DisableMode => true
    ensures var nav' := AfterClick(nav, c);
            if c.DisableMode? then nav' == Nav(None, [])
            else
              && nav'.inspected == Some(id)
              && nav'.history != [] && nav'.history[|nav'.history| - 1] == id
              && if id in nav.history then nav'.history <= nav.history else nav'.history == nav.history + [id]
  {
    if !c.DisableMode? { IndexOfFinds(nav.history, id); }
  }

  /** On the indexed page the menu item is offered exactly on the displayed arguments that some argument
      answers, the inspected one excepted. */
  lemma ThreadOpensIff(args: seq<Indexed>, nav: Nav, a: Indexed)
    requires DistinctIds(args) && forall k :: 0 <= k < |args| ==> args[k].arg.id != 0
    ensures var page := WithAnswers(args);
            Clickable(page, nav, SeeCounterarguments(a)) <==>
            Displayed(page, nav, a) && nav.inspected != Some(a.arg.id) && exists b :: Answers(args, b, a.arg.id)
  {
    var page := WithAnswers(args);
    if a in page {
      var i :| 0 <= i < |page| && page[i] == a;
      var at := IndexListsTheAnswers(args, i);
      SomeAnswer(args, a.arg.id);
    }
  }

  /** And opening it displays that argument with exactly the arguments of the other side that answer it. */
  lemma OpenedThreadShowsAnswers(args: seq<Indexed>, nav: Nav, a: Indexed, b: Indexed)
    requires DistinctIds(args) && a in args
    ensures Displayed(args, AfterClick(nav, SeeCounterarguments(a)), b) <==>
            b in args && (b.arg == a.arg || (b.arg.side != a.arg.side && b.arg.counterargumentTo == Some(a.arg.id)))
  {
    FindOfMember(args, a);
    if nav.inspected != Some(a.arg.id) { IndexOfFinds(nav.history, a.arg.id); }
  }

  function AfterClicks(clicks: seq<Click>): Nav {
    if clicks == [] then Nav(None, []) else AfterClick(AfterClicks(clicks[..|clicks| - 1]), clicks[|clicks| - 1])
  }

  /** The history is always a path of rebuttals without repetition that ends in the inspected argument, for
      any clicks the page allows, even when arguments answer each other in a circle. */
  lemma {:induction false} HistoryIsAThread(args: seq<Indexed>, clicks: seq<Click>)
    requires DistinctIds(args)
    requires forall i :: 0 <= i < |clicks| ==> Clickable(args, AfterClicks(clicks[..i]), clicks[i])
    ensures IsThread(args, AfterClicks(clicks))
  {
    if clicks != [] {
      var k := |clicks| - 1;
      forall i | 0 <= i < k ensures Clickable(args, AfterClicks(clicks[..k][..i]), clicks[..k][i]) {
        assert clicks[..k][..i] == clicks[..i];
      }
      HistoryIsAThread(args, clicks[..k]);
      ClickKeepsThread(args, AfterClicks(clicks[..k]), clicks[k]);
    }
  }

  /** The page's two pieces of state. */
  class Thread {
    var counterargumentsOfArgId: Option<int>
    var counterargumentsOfArgHistory: seq<int>

    function Current(): Nav
      reads this
    {
      Nav(counterargumentsOfArgId, counterargumentsOfArgHistory)
    }

    constructor ()
      ensures Current() == AfterClicks([])
    {
      counterargumentsOfArgId, counterargumentsOfArgHistory := None, [];
    }

    method InspectCounterargumentsOf(argumentId: int)
      modifies this
      ensures Current() == Inspect(old(Current()), argumentId)
    {
      if counterargumentsOfArgId == Some(argumentId) { return; }
      counterargumentsOfArgId := Some(argumentId);
      var historyIdx := IndexOf(counterargumentsOfArgHistory, argumentId);
      IndexOfFinds(counterargumentsOfArgHistory, argumentId);
      if historyIdx != -1 {
        counterargumentsOfArgHistory := counterargumentsOfArgHistory[..historyIdx + 1];
      } else {
        counterargumentsOfArgHistory := counterargumentsOfArgHistory + [argumentId];
      }
    }

    method DisableInspectCounterargumentsMode()
      modifies this
      ensures Current() == AfterClick(old(Current()), DisableMode)
    {
      counterargumentsOfArgId, counterargumentsOfArgHistory := None, [];
    }
  }
}

/** What a visitor of the debate page is ever shown: the cache protocol over the page construction over
    the moderation runs. */
module PublicPages {
  import opened Schema
  import Moderation
  import PageCache
  import DebatePage

  /** The protocol's pages are those the page construction makes of the database. */
  ghost predicate PagesOf(pages: map<int, PageCache.View>, db: Db) {
    forall d :: d in pages ==> IsPageOf(pages[d], db, d)
  }

  ghost predicate IsPageOf(page: PageCache.View, db: Db, d: int) {
    exists rows: seq<DebatePage.Row>, ids: seq<int>, at: nat ::
      DebatePage.QueryRows(rows, db, d, ids, at) && DebatePage.Fold(rows) == DebatePage.Ok(page)
  }

  /** A run of the protocol over a run of the services: at moment `i` of the former the database is at
      moment `moments[i]` of the latter. */
  ghost predicate Serves(dbs: seq<Db>, steps: seq<Moderation.Step>, trace: seq<PageCache.State>,
                         events: seq<PageCache.Event>, moments: seq<nat>) {
    && Moderation.Run(dbs, steps) && PageCache.Run(trace, events) && |moments| == |trace|
    && forall i :: 0 <= i < |trace| ==> moments[i] < |dbs| && PagesOf(trace[i].pages, dbs[moments[i]])
  }

  /** Step `k` approved the argument with what is shown, and it stayed approved and unchanged up to moment `m`. */
  ghost predicate ApprovedAsShown(dbs: seq<Db>, steps: seq<Moderation.Step>, k: nat, m: nat, shown: DebatePage.PageArgument)
    requires m < |dbs| && |dbs| == |steps| + 1
  {
    && k < m
    && (forall j :: k <= j <= m ==> shown.id in dbs[j].arguments && DebatePage.PageArgumentOf(dbs[j], shown.id) == shown)
    && dbs[m].arguments[shown.id].ticketId.Some?
    && var t := dbs[m].arguments[shown.id].ticketId.value;
       && Moderation.Approves(dbs[k], steps[k], t)
       && Moderation.AcceptedThroughout(dbs, k + 1, m, t, steps[k].user)
  }

  ghost predicate WasApproved(dbs: seq<Db>, steps: seq<Moderation.Step>, m: nat, shown: DebatePage.PageArgument)
    requires m < |dbs| && |dbs| == |steps| + 1
  {
    exists k: nat :: ApprovedAsShown(dbs, steps, k, m, shown)
  }

  lemma PageArgumentsArePublic(page: PageCache.View, db: Db, d: int, i: nat)
    requires IsPageOf(page, db, d) && i < |page.args|
    ensures DebatePage.OnPage(db, d, page.args[i].id)
    ensures page.args[i] == DebatePage.PageArgumentOf(db, page.args[i].id)
  {
    var rows: seq<DebatePage.Row>, ids: seq<int>, at: nat :|
      DebatePage.QueryRows(rows, db, d, ids, at) && DebatePage.Fold(rows) == DebatePage.Ok(page);
    DebatePage.PageIsFaithful(db, d, ids, rows, at);
    assert ids[i] in ids;
  }

  lemma ShownWasApproved(dbs: seq<Db>, steps: seq<Moderation.Step>, m: nat, page: PageCache.View, d: int, i: nat) returns (k: nat)
    requires Moderation.Run(dbs, steps) && m < |dbs| && IsPageOf(page, dbs[m], d) && i < |page.args|
    ensures ApprovedAsShown(dbs, steps, k, m, page.args[i])
  {
    var a := page.args[i].id;
    PageArgumentsArePublic(page, dbs[m], d, i);
    k := Moderation.PublicArgumentWasApproved(dbs, steps, m, a);
    forall j | k <= j <= m ensures a in dbs[j].arguments && DebatePage.PageArgumentOf(dbs[j], a) == page.args[i] {
      assert dbs[j].arguments[a] == dbs[m].arguments[a];
    }
  }

  lemma PageTitleIsTheDebates(page: PageCache.View, db: Db, d: int)
    requires IsPageOf(page, db, d)
    ensures page.debateId == d && d in db.debates && page.debateTitle == db.debates[d].title
  {
    var rows: seq<DebatePage.Row>, ids: seq<int>, at: nat :|
      DebatePage.QueryRows(rows, db, d, ids, at) && DebatePage.Fold(rows) == DebatePage.Ok(page);
    DebatePage.PageIsFaithful(db, d, ids, rows, at);
  }

  /** Up to moment `m` a moderator approved the debate under the title shown, and since then it is as it was. */
  ghost predicate TitleWasApproved(dbs: seq<Db>, steps: seq<Moderation.Step>, m: nat, page: PageCache.View)
    requires m < |dbs| && |dbs| == |steps| + 1
  {
    && page.debateId in dbs[m].debates && dbs[m].debates[page.debateId].title == page.debateTitle
    && exists k: nat :: Moderation.DebateApprovedAt(dbs, steps, k, m, page.debateId)
  }

  /** The page does not ask for the debate's own ticket: the title on it is an approved one exactly while that
      ticket is on ACCEPTED. */
  lemma TitleWasApprovedIff(dbs: seq<Db>, steps: seq<Moderation.Step>, m: nat, page: PageCache.View, d: int)
    requires Moderation.Run(dbs, steps) && m < |dbs| && IsPageOf(page, dbs[m], d)
    ensures TitleWasApproved(dbs, steps, m, page) <==> DebateOn(dbs[m], d, ACCEPTED)
  {
    PageTitleIsTheDebates(page, dbs[m], d);
    Moderation.DebateIsApprovedIff(dbs, steps, m, d);
  }

  /** Whatever page a visitor is sent, from the database or from the cache, through late fills, deletes,
      evictions and outages: it is the page of its debate at some earlier moment; each argument on it is shown
      exactly as the moderator who then owned its ticket approved it; and so is its title if and only if the
      debate's ticket was then on ACCEPTED. */
  lemma ServedPagesWereApproved(dbs: seq<Db>, steps: seq<Moderation.Step>, trace: seq<PageCache.State>,
                                events: seq<PageCache.Event>, moments: seq<nat>, n: nat)
    requires Serves(dbs, steps, trace, events, moments)
    requires n < |events| && PageCache.AnswerOf(trace[n], events[n]).Page?
    ensures var answer := PageCache.AnswerOf(trace[n], events[n]);
            && answer.readAt < n
            && var m := moments[answer.readAt];
               && IsPageOf(answer.view, dbs[m], answer.debate)
               && (forall i :: 0 <= i < |answer.view.args| ==> WasApproved(dbs, steps, m, answer.view.args[i]))
               && answer.debate in dbs[m].debates && answer.view.debateTitle == dbs[m].debates[answer.debate].title
               && (TitleWasApproved(dbs, steps, m, answer.view) <==> DebateOn(dbs[m], answer.debate, ACCEPTED))
  {
    var answer := PageCache.AnswerOf(trace[n], events[n]);
    var _ := PageCache.BoundedStaleness(trace, events, n);
    var m := moments[answer.readAt];
    assert IsPageOf(answer.view, dbs[m], answer.debate);
    forall i | 0 <= i < |answer.view.args|
      ensures WasApproved(dbs, steps, m, answer.view.args[i])
    {
      var k := ShownWasApproved(dbs, steps, m, answer.view, answer.debate, i);
    }
    PageTitleIsTheDebates(answer.view, dbs[m], answer.debate);
    TitleWasApprovedIff(dbs, steps, m, answer.view, answer.debate);
  }
}

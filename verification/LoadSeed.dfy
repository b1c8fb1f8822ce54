/** The load seed: whom its notifications go to, and the counterargument tree of each debate. */
module LoadSeed {
  import opened Spread

  const MODERATORS: nat := 50
  const USERS: nat := 9_950
  const HOT_DEBATES: nat := 20
  const ARGUMENT_BRANCHING: nat := 5
  const NOTIFICATIONS: nat := 1_000_000
  const HEAVY_NOTIFICATION_USERS: nat := 10
  const NOTIFICATIONS_PER_HEAVY_USER: nat := 8_000
  const SPREAD: nat := 7919

  // ---------------------------------------------------------------- whom a number selects

  function RegularUser(n: nat): nat {
    MODERATORS + 1 + n * SPREAD % USERS
  }

  /** How many n in [from, from + count) select the user. */
  function Selections(from: nat, count: nat, user: nat): nat {
    if count == 0 then 0
    else Selections(from, count - 1, user) + if RegularUser(from + (count - 1)) == user then 1 else 0
  }

  lemma SpreadIsCoprime()
    ensures Coprime(SPREAD, USERS) && Coprime(SPREAD, USERS - HEAVY_NOTIFICATION_USERS)
  {
    BezoutMeansCoprime(SPREAD, USERS, 7329, -5833);
    BezoutMeansCoprime(SPREAD, USERS - HEAVY_NOTIFICATION_USERS, 9699, -7727);
  }

  lemma {:induction false} SelectionsAreHits(from: nat, count: nat, user: nat)
    requires MODERATORS < user
    ensures Selections(from, count, user) == Hits(from, count, SPREAD, USERS, user - MODERATORS - 1)
  {
    if count > 0 { SelectionsAreHits(from, count - 1, user); }
  }

  /** Authors are spread evenly: among any consecutive numbers every regular user is selected as often as
      any other, up to one, and no moderator ever is. */
  lemma AuthorsAreEven(from: nat, count: nat, user: nat)
    ensures MODERATORS < user <= MODERATORS + USERS ==>
              count / USERS <= Selections(from, count, user) <= count / USERS + (if count % USERS == 0 then 0 else 1)
    ensures !(MODERATORS < user <= MODERATORS + USERS) ==> Selections(from, count, user) == 0
  {
    if MODERATORS < user <= MODERATORS + USERS {
      SpreadIsCoprime();
      SelectionsAreHits(from, count, user);
      EvenSpread(from, count, SPREAD, USERS, user - MODERATORS - 1);
    } else {
      NobodyElse(from, count, user);
    }
  }

  lemma {:induction false} NobodyElse(from: nat, count: nat, user: nat)
    requires !(MODERATORS < user <= MODERATORS + USERS)
    ensures Selections(from, count, user) == 0
  {
    if count > 0 { NobodyElse(from, count - 1, user); }
  }

  // ---------------------------------------------------------------- notifications

  function Recipient(i: nat): nat
    requires i >= 1
  {
    if i <= HEAVY_NOTIFICATION_USERS * NOTIFICATIONS_PER_HEAVY_USER
    then MODERATORS + 1 + (i - 1) / NOTIFICATIONS_PER_HEAVY_USER
    else MODERATORS + HEAVY_NOTIFICATION_USERS + 1 + i * SPREAD % (USERS - HEAVY_NOTIFICATION_USERS)
  }

  /** How many of the notifications 1..n go to the user. */
  function Received(user: nat, n: nat): nat {
    if n == 0 then 0 else Received(user, n - 1) + if Recipient(n) == user then 1 else 0
  }

  /** Among the heavy part, user 51 + k gets the k-th block. */
  lemma {:induction false} HeavyPart(user: nat, n: nat)
    requires n <= HEAVY_NOTIFICATION_USERS * NOTIFICATIONS_PER_HEAVY_USER
    ensures user <= MODERATORS ==> Received(user, n) == 0
    ensures user > MODERATORS ==>
              var begin := (user - MODERATORS - 1) * NOTIFICATIONS_PER_HEAVY_USER;
              Received(user, n) ==
              if n <= begin then 0
              else if n <= begin + NOTIFICATIONS_PER_HEAVY_USER then n - begin
              else NOTIFICATIONS_PER_HEAVY_USER
  {
    if n > 0 { HeavyPart(user, n - 1); }
  }

  lemma {:induction false} SpreadPart(user: nat, heavy: nat, rest: nat)
    requires heavy == HEAVY_NOTIFICATION_USERS * NOTIFICATIONS_PER_HEAVY_USER
    ensures Received(user, heavy + rest) == Received(user, heavy) +
            if user > MODERATORS + HEAVY_NOTIFICATION_USERS
            then Hits(heavy + 1, rest, SPREAD, USERS - HEAVY_NOTIFICATION_USERS, user - MODERATORS - HEAVY_NOTIFICATION_USERS - 1)
            else 0
  {
    if rest > 0 {
      SpreadPart(user, heavy, rest - 1);
      assert heavy + 1 + (rest - 1) == heavy + rest;
    }
  }

  /** Each heavy account gets exactly 8,000 notifications, every other regular account 92 or 93, and
      nobody else any. */
  lemma NotificationShares(user: nat, total: nat)
    requires total == NOTIFICATIONS
    ensures 50 < user <= 60 ==> Received(user, total) == 8_000
    ensures 60 < user <= 10_000 ==> 92 <= Received(user, total) <= 93
    ensures user <= 50 || user > 10_000 ==> Received(user, total) == 0
  {
    var heavy: nat := HEAVY_NOTIFICATION_USERS * NOTIFICATIONS_PER_HEAVY_USER;
    var rest: nat := total - heavy;
    HeavyPart(user, heavy);
    SpreadPart(user, heavy, rest);
    var m := USERS - HEAVY_NOTIFICATION_USERS;
    if user > MODERATORS + HEAVY_NOTIFICATION_USERS {
      var r: nat := user - MODERATORS - HEAVY_NOTIFICATION_USERS - 1;
      if r < m {
        SpreadIsCoprime();
        EvenSpread(heavy + 1, rest, SPREAD, m, r);
        assert rest / m == 92;
      } else {
        ResidueOutOfRange(heavy + 1, rest, SPREAD, m, r);
      }
    }
  }

  lemma {:induction false} ResidueOutOfRange(from: nat, count: nat, s: nat, m: nat, r: nat)
    requires m > 0 && r >= m
    ensures Hits(from, count, s, m, r) == 0
  {
    if count > 0 { ResidueOutOfRange(from, count - 1, s, m, r); }
  }

  // ---------------------------------------------------------------- the argument tree

  datatype Status = ACCEPTED | DRAFT | IN_REVIEW | PENDING

  /** Argument j of a debate with `count` arguments answers argument j / b, when there is one. */
  predicate HasParent(j: nat, b: nat)
    requires b >= 2
  {
    j / b >= 1
  }

  function StatusOf(id: nat, j: nat, count: nat, b: nat): Status {
    if j * b <= count then ACCEPTED
    else if id % 20 == 0 then DRAFT
    else if id % 33 == 1 then IN_REVIEW
    else if id % 50 == 2 then PENDING
    else ACCEPTED
  }

  lemma DivisionFacts(j: nat, b: nat)
    requires b >= 2
    ensures j / b * b <= j < j / b * b + b
    ensures j >= 1 ==> j / b < j
  {
    assert j == j / b * b + j % b;
  }

  /** An argument is answered exactly when j * b is still within the debate. */
  lemma AnsweredIff(j: nat, count: nat, b: nat)
    requires b >= 2 && j >= 1
    ensures (exists c: nat :: 1 <= c <= count && HasParent(c, b) && c / b == j) <==> j * b <= count
  {
    if j * b <= count {
      ModOfMultiple(j, b, 0);
      assert j * b / b == j && j * b >= 1;
      assert HasParent(j * b, b);
    }
    if c: nat :| 1 <= c <= count && HasParent(c, b) && c / b == j {
      DivisionFacts(c, b);
    }
  }

  /** Only arguments that nobody answers are drafts or still in review. */
  lemma OnlyLeavesWait(j: nat, count: nat, b: nat, id: nat)
    requires b >= 2 && 1 <= j && StatusOf(id, j, count, b) != ACCEPTED
    ensures !exists c: nat :: 1 <= c <= count && HasParent(c, b) && c / b == j
    ensures StatusOf(id, j, count, b) == if id % 20 == 0 then DRAFT else if id % 33 == 1 then IN_REVIEW else PENDING
  {
    AnsweredIff(j, count, b);
  }

  /** p is reached from j by going to the parent once or more. */
  predicate IsAncestor(p: nat, j: nat, b: nat)
    requires b >= 2
    decreases j
  {
    DivisionFacts(j, b);
    j >= 1 && HasParent(j, b) && (p == j / b || IsAncestor(p, j / b, b))
  }

  /** Every ancestor of any argument comes earlier, so the relation is a forest, and is ACCEPTED, whatever its id. */
  lemma {:induction false} AncestorsAreAccepted(p: nat, j: nat, count: nat, b: nat, id: nat)
    requires b >= 2 && 1 <= j <= count && IsAncestor(p, j, b)
    ensures 1 <= p < j && StatusOf(id, p, count, b) == ACCEPTED
    decreases j
  {
    DivisionFacts(j, b);
    if p != j / b {
      AncestorsAreAccepted(p, j / b, count, b, id);
    }
  }

  /** The number of arguments from j to its root, both included. */
  function Depth(j: nat, b: nat): nat
    requires b >= 2
    decreases j
  {
    DivisionFacts(j, b);
    if j == 0 then 0 else 1 + Depth(j / b, b)
  }

  function Pow(b: nat, e: nat): nat {
    if e == 0 then 1 else b * Pow(b, e - 1)
  }

  /** Depth is the logarithm: b^(depth - 1) <= j < b^depth. */
  lemma {:induction false} DepthIsLogarithm(j: nat, b: nat)
    requires b >= 2
    ensures j < Pow(b, Depth(j, b))
    ensures j >= 1 ==> Depth(j, b) >= 1 && Pow(b, Depth(j, b) - 1) <= j
    decreases j
  {
    DivisionFacts(j, b);
    if j >= 1 {
      DepthIsLogarithm(j / b, b);
      var d := Depth(j / b, b);
      BelowNextPower(j, j / b, b, Pow(b, d));
      if j / b >= 1 {
        AtLeastPower(j, j / b, b, Pow(b, d - 1));
      }
    }
  }

  lemma BelowNextPower(j: nat, q: nat, b: nat, p: nat)
    requires j < q * b + b && q < p
    ensures j < b * p
  {
    assert (q + 1) * b == q * b + b;
    TimesKeepsOrder(q + 1, p, b);
  }

  lemma AtLeastPower(j: nat, q: nat, b: nat, p: nat)
    requires q * b <= j && p <= q
    ensures b * p <= j
  {
    TimesKeepsOrder(p, q, b);
    assert q * b == b * q;
  }

  lemma TimesKeepsOrder(x: nat, y: nat, b: nat)
    requires x <= y
    ensures b * x <= b * y && x * b <= b * y
  {
  }

  lemma {:induction false} PowGrows(b: nat, e: nat, f: nat)
    requires b >= 2 && e <= f
    ensures 1 <= Pow(b, e) <= Pow(b, f)
  {
    if e < f {
      PowGrows(b, e, f - 1);
      TimesKeepsOrder(1, b, Pow(b, f - 1));
    } else if e > 0 {
      PowGrows(b, e - 1, f - 1);
      TimesKeepsOrder(1, b, Pow(b, f - 1));
    }
  }

  /** An argument is within the first k levels exactly when its number is below b^k. */
  lemma DepthBound(j: nat, b: nat, k: nat)
    requires b >= 2
    ensures Depth(j, b) <= k <==> j < Pow(b, k)
  {
    DepthIsLogarithm(j, b);
    if Depth(j, b) > k {
      PowGrows(b, k, Depth(j, b) - 1);
    } else {
      PowGrows(b, Depth(j, b), k);
    }
  }

  /** The number of arguments of accepted debate d. */
  function ArgumentCount(d: nat): nat {
    if d <= HOT_DEBATES then 2000 + d * 37 % 1000 else 10 + d * 13 % 41
  }

  /** The seed's trees have at most five levels, and those of its hot debates have five. */
  lemma SeedTreesHaveFiveLevels(d: nat, j: nat, b: nat)
    requires b == ARGUMENT_BRANCHING && j <= ArgumentCount(d)
    ensures Depth(j, b) <= 5
    ensures if d <= HOT_DEBATES then 2_000 <= ArgumentCount(d) < 3_000 && Depth(ArgumentCount(d), b) == 5
            else 10 <= ArgumentCount(d) <= 50
  {
    assert Pow(b, 1) == 5;
    assert Pow(b, 2) == 25;
    assert Pow(b, 3) == 125;
    assert Pow(b, 4) == 625;
    assert Pow(b, 5) == 3125;
    DepthBound(j, b, 5);
    DepthBound(ArgumentCount(d), b, 4);
    DepthBound(ArgumentCount(d), b, 5);
  }
}

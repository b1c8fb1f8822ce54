/** The debate filter compiler: the client's filter, the query object it sends, the server's normalised
    filters, and the SQL condition with its parameter list, evaluated on a row. Encoding the query object
    as JSON and base64 is taken to lose nothing. */
module DebateFilters {
  import opened Schema

  // ---------------------------------------------------------------- the client

  datatype AppliedFilters = AppliedFilters(query: Option<string>, tags: Option<seq<string>>, tagsMatch: Option<string>)

  /** An absent field is a key the object does not have. */
  datatype RawFilters = RawFilters(queryStr: Option<string>, tags: Option<string>, tagsMatch: Option<string>)

  function Join(parts: seq<string>): string {
    if parts == [] then ""
    else if |parts| == 1 then parts[0]
    else parts[0] + "," + Join(parts[1..])
  }

  predicate Truthy(s: Option<string>) {
    s.Some? && s.value != ""
  }

  function Encoded(f: AppliedFilters): RawFilters {
    RawFilters(if Truthy(f.query) then f.query else None,
               if f.tags.Some? then Some(Join(f.tags.value)) else None,
               if Truthy(f.tagsMatch) then f.tagsMatch else None)
  }

  /** `fetchDebatesWithFilters` up to the request: an array is truthy even when it is empty. */
  method FetchDebatesWithFilters(filters: AppliedFilters) returns (queryParams: RawFilters)
    ensures queryParams == Encoded(filters)
  {
    queryParams := RawFilters(None, None, None);
    if filters.query.Some? && filters.query.value != "" {
      queryParams := queryParams.(queryStr := filters.query);
    }
    if filters.tags.Some? {
      queryParams := queryParams.(tags := Some(Join(filters.tags.value)));
    }
    if filters.tagsMatch.Some? && filters.tagsMatch.value != "" {
      queryParams := queryParams.(tagsMatch := filters.tagsMatch);
    }
  }

  // ---------------------------------------------------------------- the server's pipe

  /** INHERITED: the lookup found what every JavaScript object inherits under that key; it is neither of the
      two strategies, and not nullish either. */
  datatype Strategy = ALL | ANY | INHERITED

  datatype TagsFilter = TagsFilter(values: string, strategy: Strategy)

  datatype Filters = Filters(queryStr: Option<string>, tags: Option<TagsFilter>)

  const INHERITED_KEYS: set<string> := {
    "constructor", "hasOwnProperty", "isPrototypeOf", "propertyIsEnumerable", "toLocaleString", "toString", "valueOf",
    "__proto__", "__defineGetter__", "__defineSetter__", "__lookupGetter__", "__lookupSetter__"
  }

  predicate InheritedKey(tagsMatch: Option<string>) {
    tagsMatch.Some? && tagsMatch.value in INHERITED_KEYS
  }

  /** The lookup in `tagsMatchingStrategyMap`, "any" when it finds nothing. */
  function StrategyOf(tagsMatch: Option<string>): Strategy {
    if tagsMatch == Some("all") then ALL else if InheritedKey(tagsMatch) then INHERITED else ANY
  }

  predicate HasNoKeys(raw: RawFilters) {
    raw == RawFilters(None, None, None)
  }

  /** None is "no filters at all"; an object without keys is a filter with neither part. */
  function Normalised(raw: RawFilters): Option<Filters> {
    if raw.tags == None && raw.tagsMatch == None && !Truthy(raw.queryStr) then None
    else Some(Filters(if Truthy(raw.queryStr) then raw.queryStr else None,
                      if Truthy(raw.tags) then Some(TagsFilter(raw.tags.value, StrategyOf(raw.tagsMatch))) else None))
  }

  /** `DebatesQueryPipe.transform` after decoding. */
  method Transform(decoded: RawFilters) returns (filters: Option<Filters>)
    ensures filters == Normalised(decoded)
  {
    var rawFilters := decoded;
    var queryStr: Option<string> := None;
    var values: Option<string> := None;
    var strategy := ANY;
    if rawFilters.queryStr.Some? && rawFilters.queryStr.value == "" {
      rawFilters := rawFilters.(queryStr := None);
    }
    if HasNoKeys(rawFilters) {
      return None;
    }
    if rawFilters.queryStr.Some? {
      queryStr := rawFilters.queryStr;
    }
    if rawFilters.tags.Some? && rawFilters.tags.value != "" {
      values := rawFilters.tags;
      strategy := StrategyOf(rawFilters.tagsMatch);
    }
    var tags := if values == None then None else Some(TagsFilter(values.value, strategy));
    return Some(Filters(queryStr, tags));
  }

  // ---------------------------------------------------------------- the generated condition

  /** A condition over the row; the number is the parameter's placeholder. */
  datatype Condition =
    | TitleILike(placeholder: nat)
    | TagsOverlap(placeholder: nat)
    | TagsContain(placeholder: nat)
    | TagsContainedBy(placeholder: nat)
    | And(left: Condition, right: Condition)

  datatype Query = Query(condition: Condition, values: seq<string>)

  function TagCondition(strategy: Strategy, index: nat): Condition {
    match strategy
    case ANY => TagsOverlap(index)
    case _ => And(TagsContain(index), TagsContainedBy(index + 1))
  }

  function TagValues(t: TagsFilter): seq<string> {
    match t.strategy
    case ALL => [t.values, t.values]
    case _ => [t.values]
  }

  /** `applyDebateFilters`; a filter with neither part dereferences a missing object and throws. */
  function Compile(f: Filters): Option<Query> {
    if f.queryStr.Some? && f.tags.Some? then
      Some(Query(And(TitleILike(1), TagCondition(f.tags.value.strategy, 2)),
                 ["%" + f.queryStr.value + "%"] + TagValues(f.tags.value)))
    else if f.queryStr.Some? then Some(Query(TitleILike(1), ["%" + f.queryStr.value + "%"]))
    else if f.tags.Some? then Some(Query(TagCondition(f.tags.value.strategy, 1), TagValues(f.tags.value)))
    else None
  }

  /** The placeholders in the order they occur in the text. */
  function Placeholders(c: Condition): seq<nat> {
    match c
    case And(l, r) => Placeholders(l) + Placeholders(r)
    case _ => [c.placeholder]
  }

  function UpTo(n: nat): seq<nat> {
    seq(n, i => i + 1)
  }

  // ---------------------------------------------------------------- evaluating it

  function LowerChar(c: char): char {
    if 'A' <= c <= 'Z' then c - 'A' + 'a' else c
  }

  function Lower(s: string): string {
    seq(|s|, i requires 0 <= i < |s| => LowerChar(s[i]))
  }

  /** LIKE: '%' stands for any text, '_' for any one character, a backslash for the character after it. */
  predicate Like(pattern: string, s: string)
    decreases |pattern|, |s|
  {
    if pattern == "" then s == ""
    else if pattern[0] == '%' then Like(pattern[1..], s) || (s != "" && Like(pattern, s[1..]))
    else if pattern[0] == '_' then s != "" && Like(pattern[1..], s[1..])
    else if pattern[0] == '\\' then |pattern| > 1 && s != "" && s[0] == pattern[1] && Like(pattern[2..], s[1..])
    else s != "" && s[0] == pattern[0] && Like(pattern[1..], s[1..])
  }

  predicate ILike(pattern: string, s: string) {
    Like(Lower(pattern), Lower(s))
  }

  /** `string_to_array(s, ',')`: the empty text has no elements. */
  function Split(s: string): seq<string> {
    if s == "" then [] else SplitFrom(s)
  }

  function SplitFrom(s: string): seq<string> {
    if s == "" then [""]
    else if s[0] == ',' then [""] + SplitFrom(s[1..])
    else var rest := SplitFrom(s[1..]); [[s[0]] + rest[0]] + rest[1..]
  }

  /** A listed debate: its title, and the ids of its tags, joined by `string_agg`. */
  datatype ListedRow = ListedRow(title: string, tagsIds: string)

  ghost function Elements(s: string): set<string> {
    set x | x in Split(s)
  }

  /** Every placeholder has a parameter. */
  predicate Bound(c: Condition, count: nat) {
    match c
    case And(l, r) => Bound(l, count) && Bound(r, count)
    case _ => 1 <= c.placeholder <= count
  }

  ghost predicate Holds(c: Condition, values: seq<string>, row: ListedRow)
    requires Bound(c, |values|)
  {
    match c
    case TitleILike(p) => ILike(values[p - 1], row.title)
    case TagsOverlap(p) => Elements(row.tagsIds) * Elements(values[p - 1]) != {}
    case TagsContain(p) => Elements(values[p - 1]) <= Elements(row.tagsIds)
    case TagsContainedBy(p) => Elements(row.tagsIds) <= Elements(values[p - 1])
    case And(l, r) => Holds(l, values, row) && Holds(r, values, row)
  }

  /** The text numbers its placeholders 1, 2, ... up to the number of parameters, and so each has its
      parameter, exactly unless the strategy came from an inherited key; then the last one has none. */
  lemma PlaceholdersMatchValues(f: Filters)
    requires Compile(f).Some?
    ensures var q := Compile(f).value;
            var lacking := f.tags.Some? && f.tags.value.strategy.INHERITED?;
            && Placeholders(q.condition) == UpTo(|q.values| + if lacking then 1 else 0)
            && (Bound(q.condition, |q.values|) <==> !lacking)
  {
    var q := Compile(f).value;
    if f.queryStr.Some? && f.tags.Some? && !f.tags.value.strategy.ANY? {
      assert q.condition.right == And(TagsContain(2), TagsContainedBy(3));
    }
  }

  // ---------------------------------------------------------------- LIKE and containment

  predicate OccursAt(s: string, part: string, i: int) {
    0 <= i <= |s| - |part| && s[i..i + |part|] == part
  }

  predicate Contains(s: string, part: string) {
    exists i :: 0 <= i <= |s| && OccursAt(s, part, i)
  }

  predicate IsWildcard(c: char) {
    c == '%' || c == '_' || c == '\\'
  }

  predicate WildcardFree(s: string) {
    forall i :: 0 <= i < |s| ==> !IsWildcard(s[i])
  }

  /** The two letters differ in case at most; 32 is the distance of the cases in ASCII. */
  predicate SameLetter(c: char, d: char) {
    c == d || ('A' <= c <= 'Z' && d as int == c as int + 32) || ('A' <= d <= 'Z' && c as int == d as int + 32)
  }

  predicate SameIgnoringCase(a: string, b: string) {
    |a| == |b| && forall k :: 0 <= k < |a| ==> SameLetter(a[k], b[k])
  }

  predicate ReadsAt(s: string, part: string, i: int) {
    0 <= i <= |s| - |part| && SameIgnoringCase(s[i..i + |part|], part)
  }

  predicate ContainsIgnoringCase(s: string, part: string) {
    exists i :: 0 <= i <= |s| && ReadsAt(s, part, i)
  }

  /** Folding compares texts exactly up to case. */
  lemma LowerIgnoresCase(a: string, b: string)
    ensures Lower(a) == Lower(b) <==> SameIgnoringCase(a, b)
  {
    if Lower(a) == Lower(b) {
      forall k | 0 <= k < |a| ensures SameLetter(a[k], b[k]) {
        assert LowerChar(a[k]) == Lower(a)[k] == Lower(b)[k] == LowerChar(b[k]);
      }
    }
    if SameIgnoringCase(a, b) {
      forall k | 0 <= k < |a| ensures Lower(a)[k] == Lower(b)[k] {
        assert SameLetter(a[k], b[k]);
      }
    }
  }

  lemma ContainsLower(s: string, part: string)
    ensures Contains(Lower(s), Lower(part)) <==> ContainsIgnoringCase(s, part)
  {
    forall i ensures OccursAt(Lower(s), Lower(part), i) <==> ReadsAt(s, part, i) {
      if 0 <= i <= |s| - |part| {
        assert Lower(s)[i..i + |part|] == Lower(s[i..i + |part|]);
        LowerIgnoresCase(s[i..i + |part|], part);
      }
    }
  }

  lemma {:induction false} PlainPrefixMatches(q: string, rest: string, s: string)
    requires WildcardFree(q)
    ensures Like(q + rest, s) <==> |q| <= |s| && s[..|q|] == q && Like(rest, s[|q|..])
  {
    if q == "" {
      assert q + rest == rest;
      assert s[0..] == s;
    } else {
      assert (q + rest)[0] == q[0] && (q + rest)[1..] == q[1..] + rest;
      assert !IsWildcard(q[0]);
      if s != "" {
        PlainPrefixMatches(q[1..], rest, s[1..]);
        if |q| <= |s| {
          assert s[1..][|q| - 1..] == s[|q|..];
          assert s[..|q|] == [s[0]] + s[1..][..|q| - 1];
        }
      }
    }
  }

  lemma {:induction false} PercentMatchesAll(s: string)
    ensures Like("%", s)
  {
    if s != "" { PercentMatchesAll(s[1..]); }
  }

  lemma {:induction false} PercentSkips(rest: string, s: string)
    ensures Like("%" + rest, s) <==> exists i :: 0 <= i <= |s| && Like(rest, s[i..])
  {
    assert ("%" + rest)[1..] == rest;
    assert s[0..] == s;
    if s != "" {
      PercentSkips(rest, s[1..]);
      if i :| 0 <= i <= |s| && Like(rest, s[i..]) {
        if i > 0 { assert s[1..][i - 1..] == s[i..]; }
      }
      if j :| 0 <= j <= |s[1..]| && Like(rest, s[1..][j..]) {
        assert s[1..][j..] == s[j + 1..];
      }
    }
  }

  lemma LowerConcat(a: string, b: string)
    ensures Lower(a + b) == Lower(a) + Lower(b)
  {
  }

  lemma LowerKeepsWildcards(q: string)
    ensures WildcardFree(q) <==> WildcardFree(Lower(q))
  {
    forall i | 0 <= i < |q| ensures IsWildcard(q[i]) <==> IsWildcard(Lower(q)[i]) {
    }
  }

  lemma SurroundedPattern(q: string)
    ensures Lower("%" + q + "%") == "%" + (Lower(q) + "%")
  {
    LowerConcat("%" + q, "%");
    LowerConcat("%", q);
    assert Lower("%") == "%";
  }

  /** For a query without wildcards the pattern means "contains, ignoring case". */
  lemma PlainQueryMeansContains(q: string, title: string)
    requires WildcardFree(q)
    ensures ILike("%" + q + "%", title) <==> ContainsIgnoringCase(title, q)
  {
    ContainsLower(title, q);
    var p, s := Lower(q), Lower(title);
    SurroundedPattern(q);
    LowerKeepsWildcards(q);
    PercentSkips(p + "%", s);
    forall i | 0 <= i <= |s| ensures Like(p + "%", s[i..]) <==> OccursAt(s, p, i) {
      PlainPrefixMatches(p, "%", s[i..]);
      if i <= |s| - |p| {
        PercentMatchesAll(s[i..][|p|..]);
        assert s[i..][..|p|] == s[i..i + |p|];
      }
    }
  }

  /** A text that the pattern `q%` matches and that is not longer than `q`: wildcards are filled in. */
  function Instance(q: string): string {
    if q == "" then ""
    else if q[0] == '%' then Instance(q[1..])
    else if q[0] == '_' then "x" + Instance(q[1..])
    else if q[0] == '\\' then if |q| == 1 then "%" else [q[1]] + Instance(q[2..])
    else [q[0]] + Instance(q[1..])
  }

  lemma {:induction false} InstanceMatches(q: string)
    ensures Like(q + "%", Instance(q))
  {
    if q == "" {
      assert q + "%" == "%";
      PercentMatchesAll("");
    } else {
      var pattern := q + "%";
      assert pattern[0] == q[0] && pattern[1..] == q[1..] + "%";
      if q[0] == '\\' {
        if |q| == 1 {
          assert pattern == "\\%";
          assert pattern[2..] == "";
        } else {
          assert pattern[2..] == q[2..] + "%";
          assert Instance(q)[1..] == Instance(q[2..]);
          InstanceMatches(q[2..]);
        }
      } else {
        InstanceMatches(q[1..]);
        if q[0] != '%' { assert Instance(q)[1..] == Instance(q[1..]); }
      }
    }
  }

  lemma {:induction false} InstanceDiffers(q: string)
    ensures |Instance(q)| <= |q|
    ensures !WildcardFree(q) ==> Instance(q) != q
  {
    if q != "" {
      if q[0] == '\\' {
        if |q| > 1 { InstanceDiffers(q[2..]); }
      } else {
        InstanceDiffers(q[1..]);
        if q[0] != '%' { assert Instance(q)[1..] == Instance(q[1..]) && Instance(q)[0] == (if q[0] == '_' then 'x' else q[0]); }
        if !WildcardFree(q) && !IsWildcard(q[0]) {
          var i :| 0 <= i < |q| && IsWildcard(q[i]);
          assert q[1..][i - 1] == q[i];
        }
      }
    }
  }

  lemma {:induction false} InstanceIsLower(q: string)
    ensures Lower(Instance(Lower(q))) == Instance(Lower(q))
  {
    LowerTwice(q);
    InstanceOfLower(Lower(q));
  }

  lemma LowerTwice(q: string)
    ensures Lower(Lower(q)) == Lower(q)
  {
  }

  lemma {:induction false} InstanceOfLower(q: string)
    requires Lower(q) == q
    ensures Lower(Instance(q)) == Instance(q)
  {
    if q != "" {
      assert forall i :: 0 <= i < |q| ==> LowerChar(q[i]) == Lower(q)[i] == q[i];
      assert Lower(q[1..]) == q[1..];
      if q[0] == '\\' {
        if |q| > 1 {
          assert Lower(q[2..]) == q[2..];
          InstanceOfLower(q[2..]);
          LowerConcat([q[1]], Instance(q[2..]));
          assert LowerChar(q[1]) == q[1];
        }
      } else {
        InstanceOfLower(q[1..]);
        LowerConcat("x", Instance(q[1..]));
        LowerConcat([q[0]], Instance(q[1..]));
        assert Lower("x") == "x" && LowerChar(q[0]) == q[0];
      }
    }
  }

  /** The pattern means "contains" for every title exactly when the query has no `%`, `_` or backslash. */
  lemma ContainsExactlyWithoutWildcards(q: string)
    ensures WildcardFree(q) <==> forall title :: ILike("%" + q + "%", title) <==> ContainsIgnoringCase(title, q)
  {
    if WildcardFree(q) {
      forall title ensures ILike("%" + q + "%", title) <==> ContainsIgnoringCase(title, q) {
        PlainQueryMeansContains(q, title);
      }
    } else {
      var p := Lower(q);
      var title := Instance(p);
      SurroundedPattern(q);
      LowerKeepsWildcards(q);
      InstanceIsLower(q);
      InstanceMatches(p);
      PercentSkips(p + "%", title);
      assert title[0..] == title;
      assert ILike("%" + q + "%", title);
      InstanceDiffers(p);
      ContainsLower(title, q);
      if Contains(Lower(title), Lower(q)) {
        assert false;
      }
    }
  }

  // ---------------------------------------------------------------- splitting what was joined

  predicate CommaFree(s: string) {
    ',' !in s
  }

  lemma {:induction false} SplitOne(s: string)
    requires CommaFree(s)
    ensures SplitFrom(s) == [s]
  {
    if s != "" {
      SplitOne(s[1..]);
      assert s == [s[0]] + s[1..] && s[0] in s;
    }
  }

  lemma {:induction false} SplitHead(s: string, rest: string)
    requires CommaFree(s)
    ensures SplitFrom(s + "," + rest) == [s] + SplitFrom(rest)
  {
    var all := s + "," + rest;
    if s == "" {
      assert all[1..] == rest;
    } else {
      assert all[1..] == s[1..] + "," + rest && all[0] == s[0] && s[0] in s;
      SplitHead(s[1..], rest);
      assert s == [s[0]] + s[1..];
    }
  }

  /** Joining and splitting tag ids is a round trip. */
  lemma {:induction false} SplitUndoesJoin(parts: seq<string>)
    requires parts != [] && forall p :: p in parts ==> CommaFree(p)
    ensures SplitFrom(Join(parts)) == parts
  {
    if |parts| == 1 {
      SplitOne(parts[0]);
    } else {
      SplitUndoesJoin(parts[1..]);
      SplitHead(parts[0], Join(parts[1..]));
    }
  }

  // ---------------------------------------------------------------- the meaning is preserved

  /** A debate of the list: its title and the ids of its tags, at least one. */
  datatype TaggedDebate = TaggedDebate(title: string, tagIds: seq<string>)

  ghost predicate ValidDebate(d: TaggedDebate) {
    d.tagIds != [] && forall t :: t in d.tagIds ==> CommaFree(t) && t != ""
  }

  function RowOf(d: TaggedDebate): ListedRow {
    ListedRow(d.title, Join(d.tagIds))
  }

  ghost function Ids(s: seq<string>): set<string> {
    set x | x in s
  }

  predicate HasQuery(f: AppliedFilters) {
    f.query.Some? && f.query.value != ""
  }

  /** What the visitor asked for. */
  ghost predicate Wanted(f: AppliedFilters, d: TaggedDebate) {
    && (HasQuery(f) ==> ContainsIgnoringCase(d.title, f.query.value))
    && (f.tags.Some? && f.tags.value != [] ==>
          if f.tagsMatch == Some("all") then Ids(d.tagIds) == Ids(f.tags.value)
          else Ids(d.tagIds) * Ids(f.tags.value) != {})
  }

  /** Tag ids as the client has them: numbers in decimal. */
  ghost predicate ValidTags(f: AppliedFilters) {
    f.tags.Some? ==> forall t :: t in f.tags.value ==> CommaFree(t) && t != ""
  }

  predicate HasTags(f: AppliedFilters) {
    f.tags.Some? && f.tags.value != []
  }

  predicate HasStrategy(f: AppliedFilters) {
    f.tagsMatch.Some? && f.tagsMatch.value != ""
  }

  lemma JoinIsNotEmpty(parts: seq<string>)
    requires forall t :: t in parts ==> t != ""
    ensures Join(parts) == "" <==> parts == []
  {
    if parts != [] { assert parts[0] in parts; }
  }

  lemma ElementsOfJoin(parts: seq<string>)
    requires parts != [] && forall t :: t in parts ==> CommaFree(t) && t != ""
    ensures Elements(Join(parts)) == Ids(parts)
  {
    JoinIsNotEmpty(parts);
    SplitUndoesJoin(parts);
  }

  lemma TagConditionMeans(strategy: Strategy, index: nat, values: seq<string>, row: ListedRow, chosen: set<string>)
    requires !strategy.INHERITED? && 1 <= index <= |values| && (strategy.ALL? ==> index < |values|)
    requires Bound(TagCondition(strategy, index), |values|)
    requires Elements(values[index - 1]) == chosen
    requires strategy.ALL? ==> Elements(values[index]) == chosen
    ensures Holds(TagCondition(strategy, index), values, row) <==>
            if strategy.ALL? then Elements(row.tagsIds) == chosen else Elements(row.tagsIds) * chosen != {}
  {
    if strategy.ALL? {
      assert TagCondition(strategy, index) == And(TagsContain(index), TagsContainedBy(index + 1));
      assert Holds(TagsContain(index), values, row) <==> chosen <= Elements(row.tagsIds);
      assert Holds(TagsContainedBy(index + 1), values, row) <==> Elements(row.tagsIds) <= chosen;
    }
  }

  /** From the client's filter to the rows the condition selects, with a query or tags present: the statement
      has all its parameters exactly unless tags go with an inherited key, and then it selects, for a query
      without wildcards, exactly the debates the visitor asked for. */
  lemma FilterPreservesMeaning(f: AppliedFilters, d: TaggedDebate)
    requires ValidTags(f) && ValidDebate(d)
    requires HasQuery(f) || HasTags(f)
    ensures var filters := Normalised(Encoded(f));
            && filters.Some? && Compile(filters.value).Some?
            && var q := Compile(filters.value).value;
               && (Bound(q.condition, |q.values|) <==> !(HasTags(f) && InheritedKey(f.tagsMatch)))
               && (Bound(q.condition, |q.values|) && (HasQuery(f) ==> WildcardFree(f.query.value)) ==>
                     Placeholders(q.condition) == UpTo(|q.values|) &&
                     (Holds(q.condition, q.values, RowOf(d)) <==> Wanted(f, d)))
  {
    if f.tags.Some? { JoinIsNotEmpty(f.tags.value); }
    var filters := Normalised(Encoded(f)).value;
    PlaceholdersMatchValues(filters);
    if !(HasTags(f) && InheritedKey(f.tagsMatch)) {
      if HasQuery(f) ==> WildcardFree(f.query.value) {
        BoundFilterMeans(f, d);
      }
    }
  }

  lemma BoundFilterMeans(f: AppliedFilters, d: TaggedDebate)
    requires ValidTags(f) && ValidDebate(d)
    requires HasQuery(f) || HasTags(f)
    requires HasQuery(f) ==> WildcardFree(f.query.value)
    requires !(HasTags(f) && InheritedKey(f.tagsMatch))
    ensures Normalised(Encoded(f)).Some? && Compile(Normalised(Encoded(f)).value).Some?
    ensures var q := Compile(Normalised(Encoded(f)).value).value;
            Bound(q.condition, |q.values|) && (Holds(q.condition, q.values, RowOf(d)) <==> Wanted(f, d))
  {
    if f.tags.Some? { JoinIsNotEmpty(f.tags.value); }
    var filters := Normalised(Encoded(f)).value;
    PlaceholdersMatchValues(filters);
    if HasQuery(f) { PlainQueryMeansContains(f.query.value, d.title); }
    ElementsOfJoin(d.tagIds);
    if HasTags(f) {
      ElementsOfJoin(f.tags.value);
      assert filters.tags == Some(TagsFilter(Join(f.tags.value), StrategyOf(f.tagsMatch)));
      TagConditionMeans(filters.tags.value.strategy, if HasQuery(f) then 2 else 1,
                        Compile(filters).value.values, RowOf(d), Ids(f.tags.value));
    }
  }

  /** Without a query and without tags: nothing is filtered when the strategy is absent too and no tag list
      was given; otherwise the server's filter is an empty object, and compiling it throws. */
  lemma EmptyFilterThrowsExactlyWhen(f: AppliedFilters)
    requires ValidTags(f)
    ensures Normalised(Encoded(f)) == None <==> !HasQuery(f) && f.tags == None && !HasStrategy(f)
    ensures Normalised(Encoded(f)).Some? && Compile(Normalised(Encoded(f)).value) == None <==>
            !HasQuery(f) && !HasTags(f) && (f.tags.Some? || HasStrategy(f))
  {
    if f.tags.Some? { JoinIsNotEmpty(f.tags.value); }
  }

  /** For any query object, the client's or not: there is no filter exactly when no key but an empty query is
      there; an empty query is an absent one, and a filter without query and tags is what throws. */
  lemma RequestWithoutFilters(raw: RawFilters)
    ensures Normalised(raw).None? <==> (raw.queryStr == None || raw.queryStr == Some("")) && raw.tags == None && raw.tagsMatch == None
    ensures raw.queryStr == Some("") ==> Normalised(raw) == Normalised(raw.(queryStr := None))
    ensures Normalised(raw).Some? ==>
              var f := Normalised(raw).value;
              && (f.queryStr.Some? ==> f.queryStr == raw.queryStr)
              && (f.queryStr.None? <==> raw.queryStr == None || raw.queryStr == Some(""))
              && (f.tags.None? <==> raw.tags == None || raw.tags == Some(""))
              && (f.tags.Some? ==> Some(f.tags.value.values) == raw.tags)
              && (Compile(f).None? <==> f.queryStr.None? && f.tags.None?)
  {
  }
}

/**
 History queries (internal/history/history.go): validation, the WHERE clause with its
 positional arguments, and the loop that reads the selected rows.
 */
module History {
  import opened Common
  import opened Like

  const VERSION := 2
  const MAX_CANDIDATES := 20000
  const MAX_RESPONSE_BYTES := 8388608
  const MAX_FIELD_CHARS := 16384
  const MAX_DATE_MS := 8640000000000000
  const MAX_VISITS := 9007199254740991
  /** Milliseconds from 1601, where Chromium's clock starts, to 1970. */
  const EPOCH_SHIFT := 11644473600000

  datatype Query = Query(
    version: int, sourceId: string, terms: seq<string>, excluded: seq<string>, hosts: seq<string>,
    sinceMs: Option<int>, untilMs: Option<int>, limit: int)

  // ---- validation ----

  lemma {:induction false} CharsWithinBytes(s: string)
    ensures |s| <= ByteLen(s)
  {
    if s != "" {
      CharsWithinBytes(s[..|s| - 1]);
    }
  }

  datatype QueryError = BadVersion | BadSource | TooManyFilters | BadFilter | BadLimit | BadTime

  predicate GoodFilter(value: string) { value != "" && ByteLen(value) <= 4096 }

  predicate GoodFilters(values: seq<string>) {
    |values| <= 64 && forall i :: 0 <= i < |values| ==> GoodFilter(values[i])
  }

  predicate GoodTime(t: Option<int>) { t.Some? ==> -MAX_DATE_MS <= t.value <= MAX_DATE_MS }

  predicate Valid(q: Query) {
    && q.version == VERSION
    && q.sourceId != "" && ByteLen(q.sourceId) <= 256
    && GoodFilters(q.terms) && GoodFilters(q.excluded) && GoodFilters(q.hosts)
    && 0 <= q.limit <= MAX_CANDIDATES
    && GoodTime(q.sinceMs) && GoodTime(q.untilMs)
  }

  function Filters(q: Query): seq<seq<string>> { [q.terms, q.excluded, q.hosts] }

  predicate GoodHead(q: Query) { q.version == VERSION && q.sourceId != "" && ByteLen(q.sourceId) <= 256 }

  predicate AllFiltersGood(q: Query) { GoodFilters(q.terms) && GoodFilters(q.excluded) && GoodFilters(q.hosts) }

  /** Filter list f is the first that is not good, and it is too long or else holds a bad filter. */
  predicate FirstBadFilters(q: Query, f: nat, tooMany: bool) {
    && f < 3 && !GoodFilters(Filters(q)[f]) && (tooMany <==> |Filters(q)[f]| > 64)
    && forall g :: 0 <= g < f ==> GoodFilters(Filters(q)[g])
  }

  /** The error names the first thing that is wrong with the query. */
  ghost predicate FirstWrong(q: Query, e: QueryError) {
    match e
    case BadVersion => q.version != VERSION
    case BadSource => q.version == VERSION && !GoodHead(q)
    case TooManyFilters => GoodHead(q) && exists f: nat :: FirstBadFilters(q, f, true)
    case BadFilter => GoodHead(q) && exists f: nat :: FirstBadFilters(q, f, false)
    case BadLimit => GoodHead(q) && AllFiltersGood(q) && !(0 <= q.limit <= MAX_CANDIDATES)
    case BadTime =>
      && GoodHead(q) && AllFiltersGood(q) && 0 <= q.limit <= MAX_CANDIDATES
      && !(GoodTime(q.sinceMs) && GoodTime(q.untilMs))
  }

  /** Validate accepts exactly the valid queries, and otherwise reports the first thing wrong. */
  method Validate(q: Query) returns (err: Option<QueryError>)
    ensures err.None? <==> Valid(q)
    ensures err.Some? ==> FirstWrong(q, err.value)
  {
    if q.version != VERSION {
      return Some(BadVersion);
    }
    if q.sourceId == "" || ByteLen(q.sourceId) > 256 {
      return Some(BadSource);
    }
    var fields := [q.terms, q.excluded, q.hosts];
    for f := 0 to |fields|
      invariant forall g :: 0 <= g < f ==> GoodFilters(fields[g])
    {
      var values := fields[f];
      if |values| > 64 {
        assert FirstBadFilters(q, f, true);
        return Some(TooManyFilters);
      }
      for i := 0 to |values|
        invariant forall j :: 0 <= j < i ==> GoodFilter(values[j])
      {
        if values[i] == "" || ByteLen(values[i]) > 4096 {
          assert !GoodFilter(values[i]);
          assert FirstBadFilters(q, f, false);
          return Some(BadFilter);
        }
      }
    }
    assert GoodFilters(fields[0]) && GoodFilters(fields[1]) && GoodFilters(fields[2]);
    if q.limit < 0 || q.limit > MAX_CANDIDATES {
      return Some(BadLimit);
    }
    var times := [q.sinceMs, q.untilMs];
    for k := 0 to |times|
      invariant forall j :: 0 <= j < k ==> GoodTime(times[j])
    {
      var t := times[k];
      if t.Some? && (t.value < -MAX_DATE_MS || t.value > MAX_DATE_MS) {
        assert !GoodTime(times[k]);
        return Some(BadTime);
      }
    }
    assert GoodTime(times[0]) && GoodTime(times[1]);
    return None;
  }

  // ---- the SQL that is generated ----

  datatype Column = Url | Title

  /** Comparisons with one placeholder each; LikeHole is `col [NOT] LIKE ? ESCAPE '\'`. */
  datatype Comparison = MsAtLeast | MsAtMost | LikeHole(col: Column, negated: bool)

  /** The tokens of a condition: comparisons, or truth values once a row is given. */
  datatype Token<+A> = LP | RP | And | Or | Atom(a: A)

  datatype Arg = Num(n: int) | Text(s: string)

  /** strings.Join(parts, sep). */
  function Join<A>(parts: seq<seq<Token<A>>>, sep: Token<A>): seq<Token<A>> {
    if parts == [] then [] else if |parts| == 1 then parts[0]
    else parts[0] + ([sep] + Join(parts[1..], sep))
  }

  /** (url LIKE ? ESCAPE '\' OR title LIKE ? ESCAPE '\') */
  const TERM: seq<Token<Comparison>> := [LP, Atom(LikeHole(Url, false)), Or, Atom(LikeHole(Title, false)), RP]
  /** (url NOT LIKE ? ESCAPE '\' AND title NOT LIKE ? ESCAPE '\') */
  const EXCLUDED: seq<Token<Comparison>> := [LP, Atom(LikeHole(Url, true)), And, Atom(LikeHole(Title, true)), RP]
  const HOST: seq<Token<Comparison>> := [Atom(LikeHole(Url, false))]

  function Optional(cond: Comparison, t: Option<int>): seq<seq<Token<Comparison>>> {
    if t.Some? then [[Atom(cond)]] else []
  }

  function OptionalArg(t: Option<int>): seq<Arg> { if t.Some? then [Num(t.value)] else [] }

  /** One value in both positions. */
  function Pair(s: string): seq<Arg> { [Text(Pattern(s)), Text(Pattern(s))] }

  function Twice(values: seq<string>): seq<Arg> {
    if values == [] then [] else Pair(values[0]) + Twice(values[1..])
  }

  function Once(values: seq<string>): seq<Arg> {
    seq(|values|, i requires 0 <= i < |values| => Text(Pattern(values[i])))
  }

  function Repeat<T>(x: T, n: nat): seq<T> { seq(n, i => x) }

  function HostClause(hosts: seq<string>): seq<seq<Token<Comparison>>> {
    if hosts == [] then [] else [[LP] + Join(Repeat(HOST, |hosts|), Or) + [RP]]
  }

  function Conditions(q: Query): seq<seq<Token<Comparison>>> {
    Optional(MsAtLeast, q.sinceMs) + Optional(MsAtMost, q.untilMs)
    + Repeat(TERM, |q.terms|) + Repeat(EXCLUDED, |q.excluded|) + HostClause(q.hosts)
  }

  function Arguments(q: Query): seq<Arg> {
    OptionalArg(q.sinceMs) + OptionalArg(q.untilMs) + Twice(q.terms) + Twice(q.excluded) + Once(q.hosts)
  }

  /** Lines 339-342 and 343-346: one condition and two arguments for each value. */
  method AddMatches(values: seq<string>, cond: seq<Token<Comparison>>, conditions: seq<seq<Token<Comparison>>>, args: seq<Arg>)
    returns (conditions': seq<seq<Token<Comparison>>>, args': seq<Arg>)
    ensures conditions' == conditions + Repeat(cond, |values|)
    ensures args' == args + Twice(values)
  {
    conditions', args' := conditions, args;
    for i := 0 to |values|
      invariant conditions' == conditions + Repeat(cond, i)
      invariant args' + Twice(values[i..]) == args + Twice(values)
    {
      conditions' := conditions' + [cond];
      assert values[i..][1..] == values[i + 1..];
      assert args' + (Pair(values[i]) + Twice(values[i + 1..])) == args' + Pair(values[i]) + Twice(values[i + 1..]);
      args' := args' + [Text(Pattern(values[i])), Text(Pattern(values[i]))];
    }
  }

  /** Lines 347-354: the hosts share one condition. */
  method AddHosts(hosts: seq<string>, conditions: seq<seq<Token<Comparison>>>, args: seq<Arg>)
    returns (conditions': seq<seq<Token<Comparison>>>, args': seq<Arg>)
    ensures conditions' == conditions + HostClause(hosts)
    ensures args' == args + Once(hosts)
  {
    conditions', args' := conditions, args;
    if |hosts| > 0 {
      var clauses: seq<seq<Token<Comparison>>> := [];
      for i := 0 to |hosts|
        invariant clauses == Repeat(HOST, i)
        invariant args' == args + Once(hosts[..i])
      {
        clauses := clauses + [HOST];
        args' := args' + [Text(Pattern(hosts[i]))];
      }
      assert hosts[..|hosts|] == hosts;
      conditions' := conditions' + [[LP] + Join(clauses, Or) + [RP]];
    }
  }

  /** Lines 329-363: the condition after WHERE (empty for none), the arguments and the row limit. */
  method BuildQuery(q: Query) returns (where: seq<Token<Comparison>>, args: seq<Arg>, limit: int)
    ensures where == Join(Conditions(q), And)
    ensures limit == if q.limit == 0 then MAX_CANDIDATES else q.limit
    ensures args == Arguments(q) + [Num(limit + 1)]
  {
    var conditions: seq<seq<Token<Comparison>>> := [];
    args := [];
    if q.sinceMs.Some? {
      conditions := conditions + [[Atom(MsAtLeast)]];
      args := args + [Num(q.sinceMs.value)];
    }
    if q.untilMs.Some? {
      conditions := conditions + [[Atom(MsAtMost)]];
      args := args + [Num(q.untilMs.value)];
    }
    assert conditions == Optional(MsAtLeast, q.sinceMs) + Optional(MsAtMost, q.untilMs);
    assert args == OptionalArg(q.sinceMs) + OptionalArg(q.untilMs);
    conditions, args := AddMatches(q.terms, TERM, conditions, args);
    conditions, args := AddMatches(q.excluded, EXCLUDED, conditions, args);
    conditions, args := AddHosts(q.hosts, conditions, args);
    assert conditions == Conditions(q) && args == Arguments(q);
    where := Join(conditions, And);
    limit := q.limit;
    if limit == 0 {
      limit := MAX_CANDIDATES;
    }
    args := args + [Num(limit + 1)];
  }

  // ---- what SQLite makes of it ----

  /** A row of the table `urls`. */
  datatype DbRow = DbRow(url: string, title: Option<string>, visits: Option<int>, lastVisit: int, hidden: bool)

  /** A row of the inner SELECT, which is also what a response carries. */
  datatype Row = Row(url: string, title: string, visits: int, ms: int)

  /** The inner SELECT keeps visited rows, without the hidden ones where the schema knows them. */
  predicate Visible(r: DbRow, hasHidden: bool) { r.lastVisit > 0 && (hasHidden ==> !r.hidden) }

  function Inner(r: DbRow): Row
    requires r.lastVisit > 0
  {
    Row(r.url,
        if r.title.Some? then r.title.value else "",
        if r.visits.Some? then r.visits.value else 0,
        r.lastVisit / 1000 - EPOCH_SHIFT)
  }

  /** One comparison with its argument, on one row. */
  predicate Compare(c: Comparison, arg: Arg, r: Row) {
    match c
    case MsAtLeast => arg.Num? && r.ms >= arg.n
    case MsAtMost => arg.Num? && r.ms <= arg.n
    case LikeHole(col, negated) =>
      arg.Text? && (Matches(arg.s, if col.Url? then r.url else r.title) <==> !negated)
  }

  function Holes(ts: seq<Token<Comparison>>): nat {
    if ts == [] then 0 else (if ts[0].Atom? then 1 else 0) + Holes(ts[1..])
  }

  /** A token on a row; a comparison takes the next argument. */
  function BindToken(t: Token<Comparison>, args: seq<Arg>, r: Row): Token<bool>
    requires t.Atom? ==> args != []
  {
    match t
    case Atom(c) => Atom(Compare(c, args[0], r))
    case LP => LP
    case RP => RP
    case And => And
    case Or => Or
  }

  /** Fills the placeholders in their order and evaluates every comparison on the row. */
  function Bind(ts: seq<Token<Comparison>>, args: seq<Arg>, r: Row): seq<Token<bool>>
    requires |args| == Holes(ts)
  {
    if ts == [] then []
    else [BindToken(ts[0], args, r)] + Bind(ts[1..], if ts[0].Atom? then args[1..] else args, r)
  }

  type Parsed = Option<(bool, seq<Token<bool>>)>

  /** SQL's grammar: OR binds weaker than AND, and parentheses group. */
  function OrExpr(ts: seq<Token<bool>>): (r: Parsed)
    ensures r.Some? ==> |r.value.1| < |ts|
    decreases |ts|, 2
  {
    match AndExpr(ts)
    case None => None
    case Some((v, rest)) =>
      if rest == [] || !rest[0].Or? then Some((v, rest))
      else
        match OrExpr(rest[1..])
        case None => None
        case Some((w, rest')) => Some((v || w, rest'))
  }

  function AndExpr(ts: seq<Token<bool>>): (r: Parsed)
    ensures r.Some? ==> |r.value.1| < |ts|
    decreases |ts|, 1
  {
    match Primary(ts)
    case None => None
    case Some((v, rest)) =>
      if rest == [] || !rest[0].And? then Some((v, rest))
      else
        match AndExpr(rest[1..])
        case None => None
        case Some((w, rest')) => Some((v && w, rest'))
  }

  function Primary(ts: seq<Token<bool>>): (r: Parsed)
    ensures r.Some? ==> |r.value.1| < |ts|
    decreases |ts|, 0
  {
    if ts == [] then None
    else
      match ts[0]
      case Atom(b) => Some((b, ts[1..]))
      case LP =>
        (match OrExpr(ts[1..])
         case None => None
         case Some((v, rest)) => if rest != [] && rest[0].RP? then Some((v, rest[1..])) else None)
      case _ => None
  }

  /** The value of the whole WHERE clause; a missing clause keeps every row, and None is a syntax error. */
  function WhereValue(ts: seq<Token<bool>>): Option<bool> {
    if ts == [] then Some(true)
    else
      match OrExpr(ts)
      case Some((v, rest)) => if rest == [] then Some(v) else None
      case None => None
  }

  // ---- the documented filter ----

  predicate InText(r: Row, s: string) { Contains(r.url, s) || Contains(r.title, s) }

  predicate MatchesAll(terms: seq<string>, r: Row) { forall t :: t in terms ==> InText(r, t) }

  predicate MatchesNone(excluded: seq<string>, r: Row) { forall x :: x in excluded ==> !InText(r, x) }

  predicate OnSomeHost(hosts: seq<string>, r: Row) {
    hosts != [] ==> exists h :: h in hosts && Contains(r.url, h)
  }

  /** docs/history.md: all terms, none excluded, any host, inclusive times. */
  predicate Filter(q: Query, r: Row) {
    && (q.sinceMs.Some? ==> q.sinceMs.value <= r.ms)
    && (q.untilMs.Some? ==> r.ms <= q.untilMs.value)
    && MatchesAll(q.terms, r)
    && MatchesNone(q.excluded, r)
    && OnSomeHost(q.hosts, r)
  }

  // ---- reading the selected rows ----

  /** substr(s, 1, MAX_FIELD_CHARS + 1). */
  function Cut(s: string): string { if |s| > MAX_FIELD_CHARS + 1 then s[..MAX_FIELD_CHARS + 1] else s }

  function CutRow(r: Row): Row { r.(url := Cut(r.url), title := Cut(r.title)) }

  /** A row that a response may carry. */
  predicate Fits(r: Row) {
    && ByteLen(r.url) <= MAX_FIELD_CHARS && ByteLen(r.title) <= MAX_FIELD_CHARS
    && -MAX_DATE_MS <= r.ms <= MAX_DATE_MS && 0 <= r.visits <= MAX_VISITS
  }

  /** A field that was cut is still too long, so no row that fits was cut. */
  lemma FitsIsUncut(r: Row)
    ensures Fits(CutRow(r)) <==> Fits(r)
    ensures Fits(r) ==> CutRow(r) == r
  {
    CharsWithinBytes(Cut(r.url));
    CharsWithinBytes(Cut(r.title));
    CharsWithinBytes(r.url);
    CharsWithinBytes(r.title);
  }

  function Keep(rows: seq<Row>): seq<Row> {
    if rows == [] then []
    else Keep(rows[..|rows| - 1]) + (if Fits(rows[|rows| - 1]) then [rows[|rows| - 1]] else [])
  }

  /** The response size that the reader reckons with; `enc` is the length of a row's JSON. */
  function Size(rows: seq<Row>, enc: Row -> nat): nat {
    if rows == [] then 4096 else Size(rows[..|rows| - 1], enc) + enc(rows[|rows| - 1]) + 1
  }

  /** The length of the rows in the response, with the commas between them. */
  function BodyLength(rows: seq<Row>, enc: Row -> nat): nat {
    if rows == [] then 0
    else if |rows| == 1 then enc(rows[0])
    else BodyLength(rows[..|rows| - 1], enc) + 1 + enc(rows[|rows| - 1])
  }

  /** The reckoned size covers the rows, their commas and 4096 bytes for the rest of the response. */
  lemma {:induction false} SizeCoversTheBody(rows: seq<Row>, enc: Row -> nat)
    ensures Size(rows, enc) == BodyLength(rows, enc) + 4096 + if rows == [] then 0 else 1
  {
    if rows != [] {
      SizeCoversTheBody(rows[..|rows| - 1], enc);
    }
  }

  /** The reader stopped before selected[k], because of the row limit or the size of the response. */
  predicate StoppedAt(selected: seq<Row>, limit: nat, enc: Row -> nat, k: nat) {
    && k <= |selected|
    && (k < |selected| && k < limit ==>
          Fits(selected[k]) && Size(Keep(selected[..k]) + [selected[k]], enc) > MAX_RESPONSE_BYTES)
    && k <= limit
  }

  /** What the reader has kept of the first i rows, and the size it has reckoned. */
  predicate Reckoned(selected: seq<Row>, i: nat, enc: Row -> nat, rows: seq<Row>, size: nat) {
    i <= |selected| && rows == Keep(selected[..i]) && size == Size(rows, enc)
  }

  lemma ReckonNext(selected: seq<Row>, i: nat, enc: Row -> nat, rows: seq<Row>, size: nat)
    requires i < |selected| && Reckoned(selected, i, enc, rows, size)
    ensures var row := selected[i];
            && selected[..i + 1] == selected[..i] + [row]
            && Size(Keep(selected[..i]) + [row], enc) == size + enc(row) + 1
            && (Fits(row) ==> Reckoned(selected, i + 1, enc, rows + [row], size + enc(row) + 1))
            && (!Fits(row) ==> Reckoned(selected, i + 1, enc, rows, size))
  {
  }

  /** Lines 376-379 and 385: the row as SQL returns it, and whether it may be kept. */
  method Scan(r: Row) returns (row: Row, fits: bool)
    ensures fits <==> Fits(r)
    ensures fits ==> row == r
  {
    row := CutRow(r);
    fits := Fits(row);
    FitsIsUncut(r);
  }

  /**
   Lines 370-403. `selected` are all rows that the filter selects, in the query's order; SQL
   returns the first limit + 1 of them, with long fields cut. A response that is not marked
   truncated is the complete selection, and one that is marked is not.
   */
  method ReadRows(selected: seq<Row>, limit: nat, enc: Row -> nat) returns (rows: seq<Row>, truncated: bool, ghost k: nat)
    ensures truncated <==> rows != selected
    ensures StoppedAt(selected, limit, enc, k) && rows == Keep(selected[..k])
    ensures |rows| <= limit && Size(rows, enc) <= MAX_RESPONSE_BYTES
  {
    rows, truncated, k := [], false, 0;
    var size: nat, count, i := 4096, 0, 0;
    var fetched := if |selected| <= limit + 1 then |selected| else limit + 1;
    while i < fetched
      invariant 0 <= i <= fetched && count == k == i <= limit
      invariant Reckoned(selected, i, enc, rows, size) && |rows| <= i && size <= MAX_RESPONSE_BYTES
      invariant if truncated then |rows| < i else rows == selected[..i]
    {
      var row, fits := Scan(selected[i]);
      ReckonNext(selected, i, enc, rows, size);
      i := i + 1;
      count := count + 1;
      if count > limit {
        truncated := true;
        break;
      }
      if !fits {
        truncated := true;
        k := k + 1;
        continue;
      }
      size := size + enc(row) + 1;
      if size > MAX_RESPONSE_BYTES {
        truncated := true;
        break;
      }
      rows := rows + [row];
      k := k + 1;
    }
    assert selected[..|selected|] == selected;
  }

  /** The rows kept are in the order of the selection. */
  lemma {:induction false} KeptInOrder(front: seq<Row>, back: seq<Row>)
    ensures Keep(front + back) == Keep(front) + Keep(back)
  {
    if back == [] {
      assert front + back == front;
    } else {
      var init := back[..|back| - 1];
      assert (front + back)[..|front + back| - 1] == front + init;
      KeptInOrder(front, init);
    }
  }

  /** What a response carries are rows of the selection, in order, that fit. */
  lemma {:induction false} KeptRowsFit(rows: seq<Row>)
    ensures forall r :: r in Keep(rows) <==> r in rows && Fits(r)
    ensures |Keep(rows)| <= |rows|
  {
    if rows != [] {
      KeptRowsFit(rows[..|rows| - 1]);
      assert rows == rows[..|rows| - 1] + [rows[|rows| - 1]];
    }
  }
}

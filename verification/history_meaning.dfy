/** The generated WHERE clause means the documented filter, for every query and every row. */
module HistoryMeaning {
  import opened Common
  import opened Like
  import opened History

  // ---- binding ----

  /** A token takes its own arguments first. */
  lemma BindFront(t: Token<Comparison>, us: seq<Token<Comparison>>, a: seq<Arg>, b: seq<Arg>, r: Row)
    requires |a| == (if t.Atom? then 1 else 0) && |b| == Holes(us)
    ensures Holes([t] + us) == |a + b|
    ensures Bind([t] + us, a + b, r) == [BindToken(t, a, r)] + Bind(us, b, r)
  {
    assert ([t] + us)[1..] == us;
    assert (if t.Atom? then (a + b)[1..] else a + b) == b;
  }

  lemma {:induction false} BindAppend(ts: seq<Token<Comparison>>, us: seq<Token<Comparison>>, a: seq<Arg>, b: seq<Arg>, r: Row)
    requires |a| == Holes(ts) && |b| == Holes(us)
    ensures Holes(ts + us) == |a + b|
    ensures Bind(ts + us, a + b, r) == Bind(ts, a, r) + Bind(us, b, r)
    decreases |ts|
  {
    if ts == [] {
      assert ts + us == us && a + b == b;
    } else {
      var t, tail, n := ts[0], ts[1..], if ts[0].Atom? then 1 else 0;
      BindAppend(tail, us, a[n..], b, r);
      AppendFront(t, tail, us, a[..n], a[n..], b, r);
      assert ts == [t] + tail && a == a[..n] + a[n..];
    }
  }

  lemma AppendFront(t: Token<Comparison>, ts: seq<Token<Comparison>>, us: seq<Token<Comparison>>,
                    a0: seq<Arg>, a: seq<Arg>, b: seq<Arg>, r: Row)
    requires |a0| == (if t.Atom? then 1 else 0) && |a| == Holes(ts) && |b| == Holes(us)
    requires Holes(ts + us) == |a + b| && Bind(ts + us, a + b, r) == Bind(ts, a, r) + Bind(us, b, r)
    ensures Holes([t] + ts) == |a0 + a| && Holes([t] + ts + us) == |a0 + a + b|
    ensures Bind([t] + ts + us, a0 + a + b, r) == Bind([t] + ts, a0 + a, r) + Bind(us, b, r)
  {
    BindFront(t, ts, a0, a, r);
    BindFront(t, ts + us, a0, a + b, r);
    assert [t] + ts + us == [t] + (ts + us) && a0 + a + b == a0 + (a + b);
  }

  // ---- conditions with their truth values ----

  /** A condition on a given row: one comparison, or a parenthesised list of them. */
  datatype Clause = Single(b: bool) | AnyOf(bs: seq<bool>) | AllOf(bs: seq<bool>)

  predicate Proper(c: Clause) { c.Single? || c.bs != [] }

  function Literals(bs: seq<bool>): seq<seq<Token<bool>>> {
    seq(|bs|, i requires 0 <= i < |bs| => [Atom(bs[i])])
  }

  function Show(c: Clause): seq<Token<bool>> {
    match c
    case Single(b) => [Atom(b)]
    case AnyOf(bs) => [LP] + Join(Literals(bs), Or) + [RP]
    case AllOf(bs) => [LP] + Join(Literals(bs), And) + [RP]
  }

  predicate Holds(c: Clause) {
    match c
    case Single(b) => b
    case AnyOf(bs) => Any(bs)
    case AllOf(bs) => Every(bs)
  }

  function ShowAll(cs: seq<Clause>): seq<seq<Token<bool>>> {
    seq(|cs|, i requires 0 <= i < |cs| => Show(cs[i]))
  }

  // ---- parsing ----

  lemma PrimaryLiteral(b: bool, rest: seq<Token<bool>>)
    ensures Primary([Atom(b)] + rest) == Some((b, rest))
  {
    assert ([Atom(b)] + rest)[1..] == rest;
  }

  lemma PrimaryParens(inner: seq<Token<bool>>, v: bool, rest: seq<Token<bool>>)
    requires OrExpr(inner) == Some((v, [RP] + rest))
    ensures Primary([LP] + inner) == Some((v, rest))
  {
    assert ([LP] + inner)[1..] == inner;
    assert ([RP] + rest)[1..] == rest;
  }

  lemma AndEnds(ts: seq<Token<bool>>, v: bool, rest: seq<Token<bool>>)
    requires Primary(ts) == Some((v, rest)) && (rest == [] || !rest[0].And?)
    ensures AndExpr(ts) == Some((v, rest))
  {
  }

  lemma AndGoesOn(ts: seq<Token<bool>>, v: bool, more: seq<Token<bool>>, w: bool, rest: seq<Token<bool>>)
    requires Primary(ts) == Some((v, [And] + more)) && AndExpr(more) == Some((w, rest))
    ensures AndExpr(ts) == Some((v && w, rest))
  {
    assert ([And] + more)[1..] == more;
  }

  lemma OrEnds(ts: seq<Token<bool>>, v: bool, rest: seq<Token<bool>>)
    requires AndExpr(ts) == Some((v, rest)) && (rest == [] || !rest[0].Or?)
    ensures OrExpr(ts) == Some((v, rest))
  {
  }

  lemma OrGoesOn(ts: seq<Token<bool>>, v: bool, more: seq<Token<bool>>, w: bool, rest: seq<Token<bool>>)
    requires AndExpr(ts) == Some((v, [Or] + more)) && OrExpr(more) == Some((w, rest))
    ensures OrExpr(ts) == Some((v || w, rest))
  {
    assert ([Or] + more)[1..] == more;
  }

  predicate Every(bs: seq<bool>) { forall i :: 0 <= i < |bs| ==> bs[i] }

  predicate Any(bs: seq<bool>) { exists i :: 0 <= i < |bs| && bs[i] }

  lemma Front(bs: seq<bool>)
    requires bs != []
    ensures Every(bs) <==> bs[0] && Every(bs[1..])
    ensures Any(bs) <==> bs[0] || Any(bs[1..])
  {
    assert bs == [bs[0]] + bs[1..];
    if i :| 0 <= i < |bs| && bs[i] {
      assert i > 0 ==> bs[1..][i - 1];
    }
    if i :| 0 <= i < |bs[1..]| && bs[1..][i] {
      assert bs[i + 1];
    }
  }

  /** Literals(bs) joined by sep, one literal split off. */
  lemma SplitLiteral(bs: seq<bool>, sep: Token<bool>, rest: seq<Token<bool>>)
    requires bs != []
    ensures |bs| == 1 ==> Join(Literals(bs), sep) + rest == [Atom(bs[0])] + rest
    ensures |bs| > 1 ==>
              Join(Literals(bs), sep) + rest == [Atom(bs[0])] + ([sep] + (Join(Literals(bs[1..]), sep) + rest))
  {
    assert Literals(bs)[1..] == Literals(bs[1..]);
  }

  lemma {:induction false} ParseAnd(bs: seq<bool>, rest: seq<Token<bool>>)
    requires bs != [] && (rest == [] || !rest[0].And?)
    ensures AndExpr(Join(Literals(bs), And) + rest) == Some((Every(bs), rest))
    decreases |bs|
  {
    var ts := Join(Literals(bs), And) + rest;
    SplitLiteral(bs, And, rest);
    Front(bs);
    if |bs| == 1 {
      PrimaryLiteral(bs[0], rest);
      AndEnds(ts, bs[0], rest);
    } else {
      var more := Join(Literals(bs[1..]), And) + rest;
      PrimaryLiteral(bs[0], [And] + more);
      ParseAnd(bs[1..], rest);
      AndGoesOn(ts, bs[0], more, Every(bs[1..]), rest);
    }
  }

  lemma {:induction false} ParseOr(bs: seq<bool>, rest: seq<Token<bool>>)
    requires bs != [] && (rest == [] || (!rest[0].And? && !rest[0].Or?))
    ensures OrExpr(Join(Literals(bs), Or) + rest) == Some((Any(bs), rest))
    decreases |bs|
  {
    var ts := Join(Literals(bs), Or) + rest;
    SplitLiteral(bs, Or, rest);
    Front(bs);
    if |bs| == 1 {
      PrimaryLiteral(bs[0], rest);
      AndEnds(ts, bs[0], rest);
      OrEnds(ts, bs[0], rest);
    } else {
      var more := Join(Literals(bs[1..]), Or) + rest;
      PrimaryLiteral(bs[0], [Or] + more);
      AndEnds(ts, bs[0], [Or] + more);
      ParseOr(bs[1..], rest);
      OrGoesOn(ts, bs[0], more, Any(bs[1..]), rest);
    }
  }

  lemma PrimaryAny(bs: seq<bool>, rest: seq<Token<bool>>)
    requires bs != []
    ensures Primary(Show(AnyOf(bs)) + rest) == Some((Any(bs), rest))
  {
    var end := [RP] + rest;
    var inner := Join(Literals(bs), Or) + end;
    assert Show(AnyOf(bs)) + rest == [LP] + inner;
    ParseOr(bs, end);
    PrimaryParens(inner, Any(bs), rest);
  }

  lemma PrimaryAll(bs: seq<bool>, rest: seq<Token<bool>>)
    requires bs != []
    ensures Primary(Show(AllOf(bs)) + rest) == Some((Every(bs), rest))
  {
    var end := [RP] + rest;
    var inner := Join(Literals(bs), And) + end;
    assert Show(AllOf(bs)) + rest == [LP] + inner;
    ParseAnd(bs, end);
    OrEnds(inner, Every(bs), end);
    PrimaryParens(inner, Every(bs), rest);
  }

  /** A condition parses as itself, whatever follows. */
  lemma PrimaryShow(c: Clause, rest: seq<Token<bool>>)
    requires Proper(c)
    ensures Primary(Show(c) + rest) == Some((Holds(c), rest))
  {
    match c
    case Single(b) => PrimaryLiteral(b, rest);
    case AnyOf(bs) => PrimaryAny(bs, rest);
    case AllOf(bs) => PrimaryAll(bs, rest);
  }

  predicate EveryHolds(cs: seq<Clause>) { forall i :: 0 <= i < |cs| ==> Holds(cs[i]) }

  lemma SplitClause(cs: seq<Clause>)
    requires cs != []
    ensures |cs| == 1 ==> Join(ShowAll(cs), And) == Show(cs[0]) + []
    ensures |cs| > 1 ==> Join(ShowAll(cs), And) == Show(cs[0]) + ([And] + Join(ShowAll(cs[1..]), And))
  {
    assert ShowAll(cs)[1..] == ShowAll(cs[1..]);
  }

  /** Conditions joined by AND are a conjunction: each is closed off by its parentheses. */
  lemma {:induction false} ParseConditions(cs: seq<Clause>)
    requires cs != [] && forall i :: 0 <= i < |cs| ==> Proper(cs[i])
    ensures AndExpr(Join(ShowAll(cs), And)) == Some((EveryHolds(cs), []))
    decreases |cs|
  {
    var ts := Join(ShowAll(cs), And);
    SplitClause(cs);
    if |cs| == 1 {
      PrimaryShow(cs[0], []);
      AndEnds(ts, Holds(cs[0]), []);
    } else {
      var more := Join(ShowAll(cs[1..]), And);
      PrimaryShow(cs[0], [And] + more);
      ParseConditions(cs[1..]);
      AndGoesOn(ts, Holds(cs[0]), more, EveryHolds(cs[1..]), []);
    }
  }

  // ---- every condition of a query, with its share of the arguments ----

  /** A condition of the query, its arguments, and its truth on a row. */
  datatype Share = Share(cond: seq<Token<Comparison>>, args: seq<Arg>, clause: Clause)

  ghost predicate Good(s: Share, r: Row) {
    |s.args| == Holes(s.cond) && Bind(s.cond, s.args, r) == Show(s.clause) && Proper(s.clause)
  }

  function Conds(ss: seq<Share>): seq<seq<Token<Comparison>>> {
    seq(|ss|, i requires 0 <= i < |ss| => ss[i].cond)
  }

  function Clauses(ss: seq<Share>): seq<Clause> {
    seq(|ss|, i requires 0 <= i < |ss| => ss[i].clause)
  }

  function Args(ss: seq<Share>): seq<Arg> {
    if ss == [] then [] else ss[0].args + Args(ss[1..])
  }

  lemma {:induction false} ArgsAppend(ss: seq<Share>, us: seq<Share>)
    ensures Args(ss + us) == Args(ss) + Args(us)
    decreases |ss|
  {
    if ss == [] {
      assert ss + us == us;
    } else {
      assert (ss + us)[1..] == ss[1..] + us;
      ArgsAppend(ss[1..], us);
    }
  }

  lemma ArgsOfOne(s: Share)
    ensures Args([s]) == s.args
  {
    assert [s][1..] == [];
  }

  /** Binding the joined conditions binds each to its own arguments. */
  lemma {:induction false} BindJoined(ss: seq<Share>, r: Row)
    requires AllGood(ss, r)
    ensures Holes(Join(Conds(ss), And)) == |Args(ss)|
    ensures Bind(Join(Conds(ss), And), Args(ss), r) == Join(ShowAll(Clauses(ss)), And)
    decreases |ss|
  {
    if ss != [] {
      assert Good(ss[0], r);
      var tail := ss[1..];
      assert Conds(ss)[1..] == Conds(tail);
      assert ShowAll(Clauses(ss))[1..] == ShowAll(Clauses(tail));
      if |ss| == 1 {
        assert ss == [ss[0]];
        ArgsOfOne(ss[0]);
      } else {
        BindJoined(tail, r);
        BindFront(And, Join(Conds(tail), And), [], Args(tail), r);
        assert [] + Args(tail) == Args(tail);
        BindAppend(ss[0].cond, [And] + Join(Conds(tail), And), ss[0].args, Args(tail), r);
      }
    }
  }

  // ---- the shares of a query ----

  function TermShare(t: string, r: Row): Share {
    Share(TERM, Pair(t), AnyOf([Contains(r.url, t), Contains(r.title, t)]))
  }

  function ExcludedShare(x: string, r: Row): Share {
    Share(EXCLUDED, Pair(x), AllOf([!Contains(r.url, x), !Contains(r.title, x)]))
  }

  function TermShares(ts: seq<string>, r: Row): seq<Share> {
    seq(|ts|, i requires 0 <= i < |ts| => TermShare(ts[i], r))
  }

  function ExcludedShares(xs: seq<string>, r: Row): seq<Share> {
    seq(|xs|, i requires 0 <= i < |xs| => ExcludedShare(xs[i], r))
  }

  function HostHits(hosts: seq<string>, r: Row): seq<bool> {
    seq(|hosts|, i requires 0 <= i < |hosts| => Contains(r.url, hosts[i]))
  }

  function HostShares(hosts: seq<string>, r: Row): seq<Share> {
    if hosts == [] then []
    else [Share([LP] + Join(Repeat(HOST, |hosts|), Or) + [RP], Once(hosts), AnyOf(HostHits(hosts, r)))]
  }

  function TimeShares(c: Comparison, t: Option<int>, r: Row): seq<Share> {
    if t.Some? then [Share([Atom(c)], [Num(t.value)], Single(Compare(c, Num(t.value), r)))] else []
  }

  lemma MatchIsContains(col: Column, negated: bool, s: string, r: Row)
    ensures Compare(LikeHole(col, negated), Text(Pattern(s)), r)
            <==> (Contains(if col.Url? then r.url else r.title, s) <==> !negated)
  {
    SearchIsContains(s, if col.Url? then r.url else r.title);
  }

  lemma BindLast(b: Comparison, y: Arg, r: Row)
    ensures Holes([Atom(b), RP]) == 1
    ensures Bind([Atom(b), RP], [y], r) == [Atom(Compare(b, y, r)), RP]
  {
    var end: seq<Token<Comparison>> := [RP];
    assert end[1..] == [];
    assert Holes(end) == 0 && Bind(end, [], r) == [RP];
    BindFront(Atom(b), end, [y], [], r);
    assert [y] + [] == [y] && [Atom(b)] + end == [Atom(b), RP];
  }

  lemma BindTail(b: Comparison, op: Token<Comparison>, y: Arg, r: Row)
    requires !op.Atom?
    ensures Holes([op, Atom(b), RP]) == 1
    ensures Bind([op, Atom(b), RP], [y], r) == [BindToken(op, [], r), Atom(Compare(b, y, r)), RP]
  {
    BindLast(b, y, r);
    BindFront(op, [Atom(b), RP], [], [y], r);
    assert [] + [y] == [y] && [op] + [Atom(b), RP] == [op, Atom(b), RP];
  }

  /** A five-token condition with two comparisons. */
  lemma BindPair(a: Comparison, b: Comparison, op: Token<Comparison>, x: Arg, y: Arg, r: Row)
    requires !op.Atom?
    ensures Holes([LP, Atom(a), op, Atom(b), RP]) == 2
    ensures Bind([LP, Atom(a), op, Atom(b), RP], [x, y], r)
            == [LP, Atom(Compare(a, x, r)), BindToken(op, [], r), Atom(Compare(b, y, r)), RP]
  {
    var tail := [op, Atom(b), RP];
    BindTail(b, op, y, r);
    BindFront(Atom(a), tail, [x], [y], r);
    assert [x] + [y] == [x, y];
    BindFront(LP, [Atom(a)] + tail, [], [x, y], r);
    assert [] + [x, y] == [x, y];
    assert [LP] + ([Atom(a)] + tail) == [LP, Atom(a), op, Atom(b), RP];
  }

  lemma ShowPair(b: bool, c: bool, op: Token<bool>)
    ensures Join(Literals([b, c]), op) == [Atom(b), op, Atom(c)]
  {
    assert Literals([b, c])[1..] == [[Atom(c)]];
  }

  lemma TermGood(t: string, r: Row)
    ensures Good(TermShare(t, r), r)
  {
    var p := Text(Pattern(t));
    var u, v := Contains(r.url, t), Contains(r.title, t);
    BindPair(LikeHole(Url, false), LikeHole(Title, false), Or, p, p, r);
    MatchIsContains(Url, false, t, r);
    MatchIsContains(Title, false, t, r);
    ShowPair(u, v, Or);
    assert Show(AnyOf([u, v])) == [LP, Atom(u), Or, Atom(v), RP];
  }

  lemma ExcludedGood(x: string, r: Row)
    ensures Good(ExcludedShare(x, r), r)
  {
    var p := Text(Pattern(x));
    var u, v := !Contains(r.url, x), !Contains(r.title, x);
    BindPair(LikeHole(Url, true), LikeHole(Title, true), And, p, p, r);
    MatchIsContains(Url, true, x, r);
    MatchIsContains(Title, true, x, r);
    ShowPair(u, v, And);
    assert Show(AllOf([u, v])) == [LP, Atom(u), And, Atom(v), RP];
  }

  lemma {:induction false} BindHosts(hosts: seq<string>, r: Row)
    requires hosts != []
    ensures Holes(Join(Repeat(HOST, |hosts|), Or)) == |Once(hosts)|
    ensures Bind(Join(Repeat(HOST, |hosts|), Or), Once(hosts), r) == Join(Literals(HostHits(hosts, r)), Or)
    decreases |hosts|
  {
    var p, tail := Text(Pattern(hosts[0])), hosts[1..];
    MatchIsContains(Url, false, hosts[0], r);
    assert Repeat(HOST, |hosts|)[1..] == Repeat(HOST, |tail|);
    assert Literals(HostHits(hosts, r))[1..] == Literals(HostHits(tail, r));
    assert Once(hosts) == [p] + Once(tail);
    assert HOST[1..] == [];
    if |hosts| == 1 {
      assert Once(tail) == [];
      BindFront(HOST[0], [], [p], [], r);
      assert [HOST[0]] + [] == HOST && [p] + [] == [p];
    } else {
      var more := Join(Repeat(HOST, |tail|), Or);
      BindHosts(tail, r);
      BindFront(Or, more, [], Once(tail), r);
      assert [] + Once(tail) == Once(tail);
      BindFront(HOST[0], [Or] + more, [p], Once(tail), r);
      assert [HOST[0]] == HOST;
    }
  }

  lemma HostsGood(hosts: seq<string>, r: Row)
    requires hosts != []
    ensures Good(HostShares(hosts, r)[0], r)
  {
    var body := Join(Repeat(HOST, |hosts|), Or);
    BindHosts(hosts, r);
    var end: seq<Token<Comparison>> := [RP];
    assert end[1..] == [];
    assert Holes(end) == 0 && Bind(end, [], r) == [RP];
    BindAppend(body, end, Once(hosts), [], r);
    assert Once(hosts) + [] == Once(hosts);
    BindFront(LP, body + end, [], Once(hosts), r);
    assert [] + Once(hosts) == Once(hosts);
    assert [LP] + (body + end) == [LP] + body + [RP];
  }

  lemma {:induction false} TermArgs(ts: seq<string>, r: Row)
    ensures Args(TermShares(ts, r)) == Twice(ts)
  {
    if ts != [] {
      TermArgs(ts[1..], r);
      assert TermShares(ts, r)[1..] == TermShares(ts[1..], r);
    }
  }

  lemma {:induction false} ExcludedArgs(xs: seq<string>, r: Row)
    ensures Args(ExcludedShares(xs, r)) == Twice(xs)
  {
    if xs != [] {
      ExcludedArgs(xs[1..], r);
      assert ExcludedShares(xs, r)[1..] == ExcludedShares(xs[1..], r);
    }
  }

  // ---- a part of a query ----

  /**
   The shares ss stand for the conditions conds with the arguments args, they bind well on
   the row, and all of them hold exactly when ok.
   */
  ghost predicate Part(ss: seq<Share>, conds: seq<seq<Token<Comparison>>>, args: seq<Arg>, ok: bool, r: Row) {
    && Conds(ss) == conds && Args(ss) == args
    && AllGood(ss, r)
    && (EveryHolds(Clauses(ss)) <==> ok)
  }

  lemma PartsAppend(ss: seq<Share>, c: seq<seq<Token<Comparison>>>, a: seq<Arg>, ok: bool,
                    us: seq<Share>, d: seq<seq<Token<Comparison>>>, b: seq<Arg>, ok': bool, r: Row)
    requires Part(ss, c, a, ok, r) && Part(us, d, b, ok', r)
    ensures Part(ss + us, c + d, a + b, ok && ok', r)
  {
    ArgsAppend(ss, us);
    ListsAppend(ss, us);
    HoldAppend(Clauses(ss), Clauses(us));
  }

  lemma ListsAppend(ss: seq<Share>, us: seq<Share>)
    ensures Conds(ss + us) == Conds(ss) + Conds(us)
    ensures Clauses(ss + us) == Clauses(ss) + Clauses(us)
  {}

  ghost predicate AllGood(ss: seq<Share>, r: Row) {
    forall i :: 0 <= i < |ss| ==> Good(ss[i], r)
  }

  lemma HoldAppend(cs: seq<Clause>, ds: seq<Clause>)
    ensures EveryHolds(cs + ds) <==> EveryHolds(cs) && EveryHolds(ds)
  {
    if EveryHolds(cs + ds) {
      forall i | 0 <= i < |cs| ensures Holds(cs[i]) {
        assert (cs + ds)[i] == cs[i];
      }
      forall i | 0 <= i < |ds| ensures Holds(ds[i]) {
        assert (cs + ds)[|cs| + i] == ds[i];
      }
    }
  }

  lemma TimePart(c: Comparison, t: Option<int>, r: Row)
    ensures Part(TimeShares(c, t, r), Optional(c, t), OptionalArg(t), t.Some? ==> Compare(c, Num(t.value), r), r)
  {
    if t.Some? {
      var ss := TimeShares(c, t, r);
      ArgsOfOne(ss[0]);
      BindFront(Atom(c), [], [Num(t.value)], [], r);
      assert [Atom(c)] + [] == [Atom(c)] && [Num(t.value)] + [] == [Num(t.value)];
      assert Good(ss[0], r);
      assert Conds(ss) == [[Atom(c)]];
      assert Clauses(ss)[0] == ss[0].clause;
    }
  }

  lemma TermHolds(t: string, r: Row)
    ensures Holds(TermShare(t, r).clause) <==> InText(r, t)
  {
    Front([Contains(r.url, t), Contains(r.title, t)]);
    AnyOne(Contains(r.title, t));
  }

  lemma ExcludedHolds(x: string, r: Row)
    ensures Holds(ExcludedShare(x, r).clause) <==> !InText(r, x)
  {
    Front([!Contains(r.url, x), !Contains(r.title, x)]);
    AnyOne(!Contains(r.title, x));
  }

  lemma AnyOne(b: bool)
    ensures Any([b]) <==> b
    ensures Every([b]) <==> b
    ensures forall c :: [c, b][1..] == [b]
  {
    assert [b][0] == b;
  }

  lemma TermsHold(ts: seq<string>, r: Row)
    ensures EveryHolds(Clauses(TermShares(ts, r))) <==> MatchesAll(ts, r)
  {
    var cs := Clauses(TermShares(ts, r));
    forall i | 0 <= i < |ts| ensures Holds(cs[i]) <==> InText(r, ts[i]) {
      TermHolds(ts[i], r);
    }
  }

  lemma ExcludedsHold(xs: seq<string>, r: Row)
    ensures EveryHolds(Clauses(ExcludedShares(xs, r))) <==> MatchesNone(xs, r)
  {
    var cs := Clauses(ExcludedShares(xs, r));
    forall i | 0 <= i < |xs| ensures Holds(cs[i]) <==> !InText(r, xs[i]) {
      ExcludedHolds(xs[i], r);
    }
  }

  lemma TermsGood(ts: seq<string>, r: Row)
    ensures AllGood(TermShares(ts, r), r)
  {
    forall i | 0 <= i < |ts| ensures Good(TermShare(ts[i], r), r) {
      TermGood(ts[i], r);
    }
  }

  lemma TermConds(ts: seq<string>, r: Row)
    ensures Conds(TermShares(ts, r)) == Repeat(TERM, |ts|)
  {
    forall i | 0 <= i < |ts| ensures Conds(TermShares(ts, r))[i] == TERM {
      assert TermShares(ts, r)[i] == TermShare(ts[i], r);
    }
  }

  lemma TermPart(ts: seq<string>, r: Row)
    ensures Part(TermShares(ts, r), Repeat(TERM, |ts|), Twice(ts), MatchesAll(ts, r), r)
  {
    TermConds(ts, r);
    TermArgs(ts, r);
    TermsHold(ts, r);
    TermsGood(ts, r);
  }

  lemma ExcludedsGood(xs: seq<string>, r: Row)
    ensures AllGood(ExcludedShares(xs, r), r)
  {
    forall i | 0 <= i < |xs| ensures Good(ExcludedShare(xs[i], r), r) {
      ExcludedGood(xs[i], r);
    }
  }

  lemma ExcludedConds(xs: seq<string>, r: Row)
    ensures Conds(ExcludedShares(xs, r)) == Repeat(EXCLUDED, |xs|)
  {
    forall i | 0 <= i < |xs| ensures Conds(ExcludedShares(xs, r))[i] == EXCLUDED {
      assert ExcludedShares(xs, r)[i] == ExcludedShare(xs[i], r);
    }
  }

  lemma ExcludedPart(xs: seq<string>, r: Row)
    ensures Part(ExcludedShares(xs, r), Repeat(EXCLUDED, |xs|), Twice(xs), MatchesNone(xs, r), r)
  {
    ExcludedConds(xs, r);
    ExcludedArgs(xs, r);
    ExcludedsHold(xs, r);
    ExcludedsGood(xs, r);
  }

  lemma HostPart(hosts: seq<string>, r: Row)
    ensures Part(HostShares(hosts, r), HostClause(hosts), Once(hosts),
                 OnSomeHost(hosts, r), r)
  {
    var ss := HostShares(hosts, r);
    if hosts != [] {
      HostsGood(hosts, r);
      ArgsOfOne(ss[0]);
      assert Conds(ss) == HostClause(hosts);
      var hits := HostHits(hosts, r);
      assert Clauses(ss)[0] == AnyOf(hits);
      if h :| h in hosts && Contains(r.url, h) {
        var i :| 0 <= i < |hosts| && hosts[i] == h;
        assert hits[i];
      }
      if i :| 0 <= i < |hits| && hits[i] {
        assert hosts[i] in hosts;
      }
    }
  }

  /** The time bounds. */
  lemma TimesPart(q: Query, r: Row) returns (ss: seq<Share>)
    ensures Part(ss, Optional(MsAtLeast, q.sinceMs) + Optional(MsAtMost, q.untilMs),
                 OptionalArg(q.sinceMs) + OptionalArg(q.untilMs),
                 (q.sinceMs.Some? ==> q.sinceMs.value <= r.ms) && (q.untilMs.Some? ==> r.ms <= q.untilMs.value), r)
  {
    var since := q.sinceMs.Some? ==> Compare(MsAtLeast, Num(q.sinceMs.value), r);
    var until := q.untilMs.Some? ==> Compare(MsAtMost, Num(q.untilMs.value), r);
    TimePart(MsAtLeast, q.sinceMs, r);
    TimePart(MsAtMost, q.untilMs, r);
    ss := TimeShares(MsAtLeast, q.sinceMs, r);
    PartsAppend(ss, Optional(MsAtLeast, q.sinceMs), OptionalArg(q.sinceMs), since,
                TimeShares(MsAtMost, q.untilMs, r), Optional(MsAtMost, q.untilMs), OptionalArg(q.untilMs), until, r);
    ss := ss + TimeShares(MsAtMost, q.untilMs, r);
  }

  /** More conditions after those of a part. */
  lemma Extend(ss: seq<Share>, c: seq<seq<Token<Comparison>>>, a: seq<Arg>, ok: bool, q: Query, r: Row)
    returns (all: seq<Share>)
    requires Part(ss, c, a, ok, r)
    ensures Part(all, c + Repeat(TERM, |q.terms|) + Repeat(EXCLUDED, |q.excluded|) + HostClause(q.hosts),
                 a + Twice(q.terms) + Twice(q.excluded) + Once(q.hosts),
                 ok && MatchesAll(q.terms, r) && MatchesNone(q.excluded, r)
                 && OnSomeHost(q.hosts, r), r)
  {
    var terms := MatchesAll(q.terms, r);
    var excluded := MatchesNone(q.excluded, r);
    var hosts := OnSomeHost(q.hosts, r);
    var c1, a1 := c + Repeat(TERM, |q.terms|), a + Twice(q.terms);
    TermPart(q.terms, r);
    PartsAppend(ss, c, a, ok, TermShares(q.terms, r), Repeat(TERM, |q.terms|), Twice(q.terms), terms, r);
    all := ss + TermShares(q.terms, r);
    var c2, a2 := c1 + Repeat(EXCLUDED, |q.excluded|), a1 + Twice(q.excluded);
    ExcludedPart(q.excluded, r);
    PartsAppend(all, c1, a1, ok && terms,
                ExcludedShares(q.excluded, r), Repeat(EXCLUDED, |q.excluded|), Twice(q.excluded), excluded, r);
    all := all + ExcludedShares(q.excluded, r);
    HostPart(q.hosts, r);
    PartsAppend(all, c2, a2, ok && terms && excluded,
                HostShares(q.hosts, r), HostClause(q.hosts), Once(q.hosts), hosts, r);
    all := all + HostShares(q.hosts, r);
  }

  /** The conditions and arguments of a query are shares that together hold when the filter does. */
  lemma QueryPart(q: Query, r: Row) returns (ss: seq<Share>)
    ensures Part(ss, Conditions(q), Arguments(q), Filter(q, r), r)
  {
    var times := TimesPart(q, r);
    ss := Extend(times, Optional(MsAtLeast, q.sinceMs) + Optional(MsAtMost, q.untilMs),
                 OptionalArg(q.sinceMs) + OptionalArg(q.untilMs),
                 (q.sinceMs.Some? ==> q.sinceMs.value <= r.ms) && (q.untilMs.Some? ==> r.ms <= q.untilMs.value), q, r);
  }

  // ---- the main results ----

  /** There is one argument for each placeholder of the WHERE clause. */
  lemma PlaceholdersMatchArguments(q: Query)
    ensures Holes(Join(Conditions(q), And)) == |Arguments(q)|
  {
    var r := Row("", "", 0, 0);
    var ss := QueryPart(q, r);
    BindJoined(ss, r);
  }

  /** The WHERE clause parses, and on every row it has the value of the documented filter. */
  lemma WhereMeansFilter(q: Query, r: Row)
    ensures Holes(Join(Conditions(q), And)) == |Arguments(q)|
    ensures WhereValue(Bind(Join(Conditions(q), And), Arguments(q), r)) == Some(Filter(q, r))
  {
    var ss := QueryPart(q, r);
    BindJoined(ss, r);
    var cs := Clauses(ss);
    if ss != [] {
      forall i | 0 <= i < |cs| ensures Proper(cs[i]) {
        assert Good(ss[i], r);
      }
      ParseConditions(cs);
      OrEnds(Join(ShowAll(cs), And), EveryHolds(cs), []);
    }
  }

  // ---- the rows of a table ----

  /** The rows the statement selects, before they are ordered and limited. */
  function SqlRows(table: seq<DbRow>, hasHidden: bool, where: seq<Token<Comparison>>, args: seq<Arg>): seq<Row>
    requires |args| == Holes(where)
  {
    if table == [] then []
    else
      (if Visible(table[0], hasHidden) && WhereValue(Bind(where, args, Inner(table[0]))) == Some(true) then [Inner(table[0])] else [])
      + SqlRows(table[1..], hasHidden, where, args)
  }

  /** The rows the documentation promises: visited, not hidden, and passing the filter. */
  function DocumentedRows(table: seq<DbRow>, hasHidden: bool, q: Query): seq<Row> {
    if table == [] then []
    else
      (if Visible(table[0], hasHidden) && Filter(q, Inner(table[0])) then [Inner(table[0])] else [])
      + DocumentedRows(table[1..], hasHidden, q)
  }

  /** On every table, the compiled query selects exactly the documented rows. */
  lemma {:induction false} SelectionIsDocumented(table: seq<DbRow>, hasHidden: bool, q: Query)
    ensures |Arguments(q)| == Holes(Join(Conditions(q), And))
    ensures SqlRows(table, hasHidden, Join(Conditions(q), And), Arguments(q)) == DocumentedRows(table, hasHidden, q)
  {
    PlaceholdersMatchArguments(q);
    if table != [] {
      SelectionIsDocumented(table[1..], hasHidden, q);
      if Visible(table[0], hasHidden) {
        WhereMeansFilter(q, Inner(table[0]));
      }
    }
  }

  /**
   Row r is what a response says of the stored row d: no title and no visit count read as empty
   and zero, and the time, stored in microseconds since 1601, is in whole milliseconds since 1970.
   */
  predicate Describes(d: DbRow, r: Row) {
    && r.url == d.url
    && r.title == (match d.title case None => "" case Some(title) => title)
    && r.visits == (match d.visits case None => 0 case Some(n) => n)
    && 1000 * r.ms <= d.lastVisit - 11_644_473_600_000_000 < 1000 * r.ms + 1000
  }

  lemma InnerDescribes(d: DbRow, r: Row)
    requires d.lastVisit > 0
    ensures Describes(d, r) <==> r == Inner(d)
  {}

  /** A row of the table that was visited and is not hidden, and passes the filter as r. */
  predicate Picks(d: DbRow, hasHidden: bool, q: Query, r: Row) {
    d.lastVisit > 0 && !(hasHidden && d.hidden) && Describes(d, r) && Filter(q, r)
  }

  lemma {:induction false} DocumentedExactly(table: seq<DbRow>, hasHidden: bool, q: Query, r: Row)
    ensures r in DocumentedRows(table, hasHidden, q) <==> exists i :: 0 <= i < |table| && Picks(table[i], hasHidden, q, r)
  {
    if table != [] {
      var d, rest := table[0], table[1..];
      DocumentedExactly(rest, hasHidden, q, r);
      if d.lastVisit > 0 {
        InnerDescribes(d, r);
      }
      if i :| 0 <= i < |rest| && Picks(rest[i], hasHidden, q, r) {
        assert Picks(table[i + 1], hasHidden, q, r);
      }
      if i :| 0 <= i < |table| && Picks(table[i], hasHidden, q, r) {
        assert i > 0 ==> Picks(rest[i - 1], hasHidden, q, r);
      }
    }
  }

  /** The compiled query selects r exactly when it describes such a row of the table. */
  lemma SelectedExactly(table: seq<DbRow>, hasHidden: bool, q: Query, r: Row)
    ensures |Arguments(q)| == Holes(Join(Conditions(q), And))
    ensures r in SqlRows(table, hasHidden, Join(Conditions(q), And), Arguments(q))
            <==> exists i :: 0 <= i < |table| && Picks(table[i], hasHidden, q, r)
  {
    PlaceholdersMatchArguments(q);
    SelectionIsDocumented(table, hasHidden, q);
    DocumentedExactly(table, hasHidden, q, r);
  }
}

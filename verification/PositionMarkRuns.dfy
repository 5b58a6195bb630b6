/** What the position marks hold after any run of syncs, direct registrations and prices, with any
    change notifications lost in between. */
module PositionMarkRuns {
  import opened Wrappers
  import opened PositionMarks

  /** What reaches the table. A lost notification is a sync that does not happen. */
  datatype Event =
    | Synced(rows: seq<Row>)
    | Registered(id: Id, token: Token, terms: Terms)
    | Unregistered(id: Id)
    | PriceArrived(token: Token, q: Quote)

  function Happen(s: State, e: Event): State {
    match e
    case Synced(rows) => Sync(s, rows)
    case Registered(id, token, terms) => Register(s, id, token, terms)
    case Unregistered(id) => Unregister(s, id)
    case PriceArrived(token, q) => PriceUpdate(s, token, q)
  }

  function Run(es: seq<Event>): State
    decreases |es|
  {
    if es == [] then EMPTY else Happen(Run(es[..|es| - 1]), es[|es| - 1])
  }

  /** Order ids are a primary key. */
  predicate DistinctIds(rows: seq<Row>) { forall i, j :: 0 <= i < j < |rows| ==> rows[i].id != rows[j].id }

  // ---------------------------------------------------------------------------
  // Which orders have a mark
  // ---------------------------------------------------------------------------

  lemma QualifyingGrow(rows: seq<Row>)
    requires rows != []
    ensures var front, row := rows[..|rows| - 1], rows[|rows| - 1];
            QualifyingIds(rows) == QualifyingIds(front) + if Qualifies(row) then {row.id} else {}
  {
    var front, row := rows[..|rows| - 1], rows[|rows| - 1];
    assert rows == front + [row];
    forall id | id in QualifyingIds(front) ensures id in QualifyingIds(rows) {
      var k :| 0 <= k < |front| && Qualifies(front[k]) && front[k].id == id;
      assert Qualifies(rows[k]) && rows[k].id == id;
    }
    if Qualifies(row) { assert Qualifies(rows[|rows| - 1]) && row.id in QualifyingIds(rows); }
  }

  lemma {:induction false} RegisterAllKeys(s: State, rows: seq<Row>)
    ensures RegisterAll(s, rows).positions.Keys == s.positions.Keys + QualifyingIds(rows)
    decreases |rows|
  {
    if rows != [] {
      RegisterAllKeys(s, rows[..|rows| - 1]);
      QualifyingGrow(rows);
    }
  }

  lemma QualifyingOpen(rows: seq<Row>)
    ensures QualifyingIds(rows) <= Ids(rows)
  {
  }

  /** After a sync the marked orders are the open ones that qualify, and those among the previously
      marked that are still open. */
  lemma SyncKeys(s: State, rows: seq<Row>)
    ensures Sync(s, rows).positions.Keys == QualifyingIds(rows) + s.positions.Keys * Ids(rows)
  {
    RegisterAllKeys(s, rows);
    QualifyingOpen(rows);
  }

  /** The same, in the rows: an order is marked after a sync exactly if it is open and either was marked
      already or has a token and a positive notional. */
  lemma MarkedAfterSync(s: State, rows: seq<Row>, id: Id)
    ensures id in Sync(s, rows).positions <==>
              exists i :: 0 <= i < |rows| && rows[i].id == id
                && (id in s.positions || (rows[i].token.Some? && rows[i].terms.notional > 0.0))
  {
    SyncKeys(s, rows);
    if id in Sync(s, rows).positions {
      if id in QualifyingIds(rows) {
        var i :| 0 <= i < |rows| && Qualifies(rows[i]) && rows[i].id == id;
        assert rows[i].token.Some? && rows[i].terms.notional > 0.0;
      } else {
        var i :| 0 <= i < |rows| && rows[i].id == id;
      }
    }
    if i :| 0 <= i < |rows| && rows[i].id == id
            && (id in s.positions || (rows[i].token.Some? && rows[i].terms.notional > 0.0)) {
      assert id in Ids(rows) && (id in s.positions || Qualifies(rows[i]));
    }
  }

  // ---------------------------------------------------------------------------
  // What the marks say
  // ---------------------------------------------------------------------------

  /** An order's mark as a row leaves it: its token and terms, and whatever price it had. */
  function MarkedBy(s: State, row: Row): Mark
    requires Qualifies(row)
  {
    if row.id in s.positions then s.positions[row.id].(token := row.token.value, terms := row.terms)
    else Mark(row.token.value, row.terms, NeverPriced, Gain(0.0, 0.0, 0.0))
  }

  lemma {:induction false} RegisterAllOther(s: State, rows: seq<Row>, id: Id)
    requires id !in QualifyingIds(rows)
    ensures id in RegisterAll(s, rows).positions <==> id in s.positions
    ensures id in s.positions ==> RegisterAll(s, rows).positions[id] == s.positions[id]
    decreases |rows|
  {
    if rows != [] {
      QualifyingGrow(rows);
      RegisterAllOther(s, rows[..|rows| - 1], id);
    }
  }

  lemma DistinctLast(rows: seq<Row>)
    requires DistinctIds(rows) && rows != []
    ensures DistinctIds(rows[..|rows| - 1]) && rows[|rows| - 1].id !in QualifyingIds(rows[..|rows| - 1])
  {
  }

  lemma {:induction false} RegisterAllMarks(s: State, rows: seq<Row>, i: nat)
    requires DistinctIds(rows) && i < |rows| && Qualifies(rows[i])
    ensures rows[i].id in RegisterAll(s, rows).positions
    ensures RegisterAll(s, rows).positions[rows[i].id] == MarkedBy(s, rows[i])
    decreases |rows|
  {
    var front, row := rows[..|rows| - 1], rows[|rows| - 1];
    DistinctLast(rows);
    if i < |front| {
      assert front[i] == rows[i];
      RegisterAllMarks(s, front, i);
    } else {
      RegisterAllOther(s, front, row.id);
    }
  }

  /** After a sync every qualifying open order is marked with its stored token and terms and keeps
      its price; a marked open order that does not qualify keeps its mark; no other is marked. */
  lemma SyncMarks(s: State, rows: seq<Row>, i: nat)
    requires DistinctIds(rows) && i < |rows|
    ensures var now := Sync(s, rows).positions;
            var id := rows[i].id;
            if Qualifies(rows[i]) then id in now && now[id] == MarkedBy(s, rows[i])
            else (id in now <==> id in s.positions) && (id in now ==> now[id] == s.positions[id])
  {
    assert rows[i].id in Ids(rows);
    if Qualifies(rows[i]) {
      RegisterAllMarks(s, rows, i);
    } else {
      forall k | 0 <= k < |rows| && Qualifies(rows[k]) ensures rows[k].id != rows[i].id {
        if k < i { assert rows[k].id != rows[i].id; }
      }
      RegisterAllOther(s, rows, rows[i].id);
    }
  }

  // ---------------------------------------------------------------------------
  // Every run keeps the index sound
  // ---------------------------------------------------------------------------

  lemma {:induction false} RegisterAllSound(s: State, rows: seq<Row>)
    requires Sound(s)
    ensures Sound(RegisterAll(s, rows))
    decreases |rows|
  {
    if rows != [] {
      var row := rows[|rows| - 1];
      RegisterAllSound(s, rows[..|rows| - 1]);
      if Qualifies(row) { RegisterSound(RegisterAll(s, rows[..|rows| - 1]), row.id, row.token.value, row.terms); }
    }
  }

  lemma PrunedSound(s: State, gone: set<Id>)
    requires Sound(s)
    ensures Sound(Pruned(s, gone))
  {
    var n := Pruned(s, gone);
    forall id | id in n.positions ensures id in Watchers(n, n.positions[id].token) {
      assert id in Left(s, gone, s.positions[id].token);
    }
  }

  lemma {:induction false} RunSound(es: seq<Event>)
    ensures Sound(Run(es))
    decreases |es|
  {
    if es != [] {
      RunSound(es[..|es| - 1]);
      HappenSound(Run(es[..|es| - 1]), es[|es| - 1]);
    }
  }

  lemma HappenSound(s: State, e: Event)
    requires Sound(s)
    ensures Sound(Happen(s, e))
  {
    match e
    case Synced(rows) =>
      RegisterAllSound(s, rows);
      var r := RegisterAll(s, rows);
      PrunedSound(r, r.positions.Keys - Ids(rows));
    case Registered(id, token, terms) => RegisterSound(s, id, token, terms);
    case Unregistered(id) => UnregisterSound(s, id);
    case PriceArrived(token, q) =>
  }

  // ---------------------------------------------------------------------------
  // Syncing twice
  // ---------------------------------------------------------------------------

  /** Every qualifying row already has its mark and is among its token's watchers. */
  ghost predicate Registers(s: State, rows: seq<Row>) {
    forall i :: 0 <= i < |rows| && Qualifies(rows[i]) ==> HasRow(s, rows[i])
  }

  predicate HasRow(s: State, row: Row)
    requires Qualifies(row)
  {
    && row.id in s.positions && s.positions[row.id].token == row.token.value && s.positions[row.id].terms == row.terms
    && row.id in Watchers(s, row.token.value)
  }

  lemma {:induction false} RegisterAllAgain(s: State, rows: seq<Row>)
    requires Registers(s, rows)
    ensures RegisterAll(s, rows) == s
    decreases |rows|
  {
    if rows != [] {
      var front, row := rows[..|rows| - 1], rows[|rows| - 1];
      assert Registers(s, front) by {
        forall i | 0 <= i < |front| && Qualifies(front[i]) ensures HasRow(s, front[i]) { assert HasRow(s, rows[i]); }
      }
      RegisterAllAgain(s, front);
      if Qualifies(row) {
        assert HasRow(s, row);
        assert s.positions[row.id := s.positions[row.id]] == s.positions;
        assert Watchers(s, row.token.value) + {row.id} == Watchers(s, row.token.value);
        assert s.index[row.token.value := s.index[row.token.value]] == s.index;
      }
    }
  }

  /** Syncing again with the same open orders changes nothing at all. */
  lemma SyncTwice(s: State, rows: seq<Row>)
    requires Sound(s) && DistinctIds(rows)
    ensures Sync(Sync(s, rows), rows) == Sync(s, rows)
  {
    var once := Sync(s, rows);
    HappenSound(s, Synced(rows));
    forall i | 0 <= i < |rows| && Qualifies(rows[i]) ensures HasRow(once, rows[i]) {
      SyncMarks(s, rows, i);
    }
    RegisterAllAgain(once, rows);
    SyncKeys(s, rows);
    QualifyingOpen(rows);
    assert once.positions.Keys - Ids(rows) == {};
    PruneNone(once);
  }

  /** At every sync of every run, whatever was registered, priced or missed before: marks exist for
      open orders only, for every open order with a token and a positive notional, and a second sync
      would change nothing. */
  lemma EverySync(es: seq<Event>, rows: seq<Row>)
    requires DistinctIds(rows)
    ensures var s := Run(es + [Synced(rows)]);
            && s.positions.Keys <= Ids(rows)
            && QualifyingIds(rows) <= s.positions.Keys
            && Run(es + [Synced(rows), Synced(rows)]) == s
  {
    var one, two := es + [Synced(rows)], es + [Synced(rows), Synced(rows)];
    assert one[..|one| - 1] == es && two[..|two| - 1] == one;
    RunSound(es);
    SyncKeys(Run(es), rows);
    QualifyingOpen(rows);
    SyncTwice(Run(es), rows);
  }

  // ---------------------------------------------------------------------------
  // Which marks a price moves
  // ---------------------------------------------------------------------------

  /** After any run, a price of a token reaches every mark that holds the token. */
  lemma PriceReachesHolders(es: seq<Event>, id: Id, q: Quote)
    requires id in Run(es).positions
    ensures var s := Run(es);
            var n := PriceUpdate(s, s.positions[id].token, q);
            n.positions[id] == Reprice(s.positions[id], q, s.sequence + 1)
  {
    RunSound(es);
  }

  /** A repriced mark shows the quote under its number, and is otherwise what it was. */
  predicate PriceShows(mark: Mark, q: Quote, sequence: nat) {
    var now := Reprice(mark, q, sequence);
    now.price == Priced(q.mid, q.bid, q.ask, q.at, sequence) && now.token == mark.token && now.terms == mark.terms
  }

  lemma PriceWithoutEntry(mark: Mark, q: Quote, sequence: nat)
    requires mark.terms.entry <= 0.0
    ensures PriceShows(mark, q, sequence) && Reprice(mark, q, sequence).gain == mark.gain
  {
  }

  /** Numbers go up by one with every price that reaches an order, and no mark carries a later one. */
  ghost predicate Numbered(s: State) {
    forall id :: id in s.positions && s.positions[id].price.Priced? ==> 0 < s.positions[id].price.sequence <= s.sequence
  }

  lemma {:induction false} RegisterAllNumbered(s: State, rows: seq<Row>)
    requires Numbered(s)
    ensures Numbered(RegisterAll(s, rows)) && RegisterAll(s, rows).sequence == s.sequence
    decreases |rows|
  {
    if rows != [] { RegisterAllNumbered(s, rows[..|rows| - 1]); }
  }

  /** How many prices of the run reached an order. */
  function Hits(es: seq<Event>): nat
    decreases |es|
  {
    if es == [] then 0
    else
      var front, last := es[..|es| - 1], es[|es| - 1];
      Hits(front) + (if last.PriceArrived? && Watchers(Run(front), last.token) != {} then 1 else 0)
  }

  /** Over every run the counter counts the prices that reached an order, and no mark is numbered
      beyond it. */
  lemma {:induction false} PricesNumbered(es: seq<Event>)
    ensures Run(es).sequence == Hits(es) && Numbered(Run(es))
    decreases |es|
  {
    if es != [] {
      var front, last := es[..|es| - 1], es[|es| - 1];
      PricesNumbered(front);
      match last
      case Synced(rows) => RegisterAllNumbered(Run(front), rows);
      case Registered(id, token, terms) =>
      case Unregistered(id) =>
      case PriceArrived(token, q) => PriceNumbered(Run(front), token, q);
    }
  }

  lemma PriceNumbered(s: State, token: Token, q: Quote)
    requires Numbered(s)
    ensures var n := PriceUpdate(s, token, q);
            Numbered(n) && n.sequence == s.sequence + (if Watchers(s, token) != {} then 1 else 0)
  {
  }

  /** A price values a position at its shares, the notional over the entry price, times the price:
      the gain is that value less the notional, and the percentage is the gain in the notional. */
  lemma PriceRevalues(mark: Mark, q: Quote, sequence: nat)
    requires mark.terms.entry > 0.0
    ensures var gain := Reprice(mark, q, sequence).gain;
            && mark.terms.notional + gain.pnl == mark.terms.notional / mark.terms.entry * q.mid
            && gain.percent * mark.terms.notional == 100.0 * gain.pnl
            && (q.mid > mark.terms.entry <==> gain.percent > 0.0)
            && gain.edgeDelta + mark.terms.edge == gain.percent
    ensures PriceShows(mark, q, sequence)
  {
    var e, n := mark.terms.entry, mark.terms.notional;
    var d := q.mid - e;
    assert d * n / e == n / e * d;
    assert n / e * q.mid == n / e * d + n / e * e;
    assert d / e * 100.0 * n == 100.0 * (d * n / e);
    assert d == d / e * e;
  }

  predicate Holds(s: State, id: Id, token: Token) { id in s.positions && s.positions[id].token == token }

  /** The index names no order under a token its mark does not hold. */
  ghost predicate Exact(s: State) {
    forall token, id :: id in Watchers(s, token) ==> Holds(s, id, token)
  }

  /** With an exact index a price leaves every other token's marks alone. */
  lemma PriceSparesOthers(s: State, token: Token, q: Quote, id: Id)
    requires Exact(s) && id in s.positions && s.positions[id].token != token
    ensures PriceUpdate(s, token, q).positions[id] == s.positions[id]
  {
  }

  /** Registering keeps the index exact exactly when the order is new or keeps its token. */
  lemma RegisterExactIff(s: State, id: Id, token: Token, terms: Terms)
    requires Sound(s) && Exact(s)
    ensures Exact(Register(s, id, token, terms)) <==> id !in s.positions || s.positions[id].token == token
  {
    var n := Register(s, id, token, terms);
    assert n.positions[id].token == token;
    if id in s.positions && s.positions[id].token != token {
      var was := s.positions[id].token;
      assert id in Watchers(n, was) && !Holds(n, id, was);
    } else {
      forall t, other | other in Watchers(n, t) ensures Holds(n, other, t) {
        assert (other == id && t == token) || other in Watchers(s, t);
      }
    }
  }

  lemma PrunedExact(s: State, gone: set<Id>)
    requires Exact(s)
    ensures Exact(Pruned(s, gone))
  {
    var n := Pruned(s, gone);
    forall token, id | id in Watchers(n, token) ensures Holds(n, id, token) {
      assert id in Watchers(s, token) && id !in Leavers(s, gone, token);
    }
  }

  /** No qualifying row gives a marked order another token. */
  predicate KeepsTokens(s: State, rows: seq<Row>) {
    forall i :: 0 <= i < |rows| && Qualifies(rows[i]) ==> KeepsToken(s, rows[i])
  }

  predicate KeepsToken(s: State, row: Row) {
    row.id in s.positions ==> Some(s.positions[row.id].token) == row.token
  }

  lemma {:induction false} RegisterAllExact(s: State, rows: seq<Row>)
    requires Sound(s) && Exact(s) && DistinctIds(rows) && KeepsTokens(s, rows)
    ensures Exact(RegisterAll(s, rows))
    decreases |rows|
  {
    if rows != [] {
      var front, row := rows[..|rows| - 1], rows[|rows| - 1];
      DistinctLast(rows);
      assert KeepsTokens(s, front) by {
        forall i | 0 <= i < |front| && Qualifies(front[i]) ensures KeepsToken(s, front[i]) { assert KeepsToken(s, rows[i]); }
      }
      RegisterAllExact(s, front);
      RegisterAllSound(s, front);
      if Qualifies(row) {
        assert KeepsToken(s, row);
        RegisterAllOther(s, front, row.id);
        RegisterExactIff(RegisterAll(s, front), row.id, row.token.value, row.terms);
      }
    }
  }

  lemma {:induction false} WatchersStay(s: State, rows: seq<Row>, token: Token)
    ensures Watchers(s, token) <= Watchers(RegisterAll(s, rows), token)
    decreases |rows|
  {
    if rows != [] { WatchersStay(s, rows[..|rows| - 1], token); }
  }

  /** A sync keeps the index exact exactly when no stored order has changed its token. */
  lemma SyncExactIff(s: State, rows: seq<Row>)
    requires Sound(s) && Exact(s) && DistinctIds(rows)
    ensures Exact(Sync(s, rows)) <==> KeepsTokens(s, rows)
  {
    var r := RegisterAll(s, rows);
    var gone := r.positions.Keys - Ids(rows);
    if KeepsTokens(s, rows) {
      RegisterAllExact(s, rows);
      PrunedExact(r, gone);
    } else {
      var i: nat :| i < |rows| && Qualifies(rows[i]) && !KeepsToken(s, rows[i]);
      StaleAfterSync(s, rows, i);
    }
  }

  lemma StaleAfterSync(s: State, rows: seq<Row>, i: nat)
    requires Sound(s) && DistinctIds(rows) && i < |rows| && Qualifies(rows[i]) && !KeepsToken(s, rows[i])
    ensures !Exact(Sync(s, rows))
  {
    var id, n := rows[i].id, Sync(s, rows);
    var token := s.positions[id].token;
    var r := RegisterAll(s, rows);
    var gone := r.positions.Keys - Ids(rows);
    WatchersStay(s, rows, token);
    SyncMarks(s, rows, i);
    assert id in Ids(rows);
    assert id in Left(r, gone, token);
    assert id in Watchers(n, token) && n.positions[id].token != token;
  }

  /** Whatever the event registers, it registers under the order's one token. */
  ghost predicate TokensFixed(e: Event, tokenOf: Id -> Token) {
    match e
    case Synced(rows) => DistinctIds(rows) && forall i :: 0 <= i < |rows| && Qualifies(rows[i]) ==> RowFixed(rows[i], tokenOf)
    case Registered(id, token, terms) => token == tokenOf(id)
    case _ => true
  }

  ghost predicate NeverRetokened(es: seq<Event>, tokenOf: Id -> Token) {
    forall k :: 0 <= k < |es| ==> TokensFixed(es[k], tokenOf)
  }

  predicate RowFixed(row: Row, tokenOf: Id -> Token) { row.token == Some(tokenOf(row.id)) }

  ghost predicate AllFixed(s: State, tokenOf: Id -> Token) {
    forall id :: id in s.positions ==> s.positions[id].token == tokenOf(id)
  }

  lemma UnregisterExact(s: State, id: Id)
    requires Sound(s) && Exact(s)
    ensures Exact(Unregister(s, id))
  {
    var n := Unregister(s, id);
    forall t, other | other in Watchers(n, t) ensures Holds(n, other, t) {
      assert other in Watchers(s, t);
    }
  }

  lemma SyncFixed(s: State, rows: seq<Row>, tokenOf: Id -> Token)
    requires Sound(s) && Exact(s) && AllFixed(s, tokenOf) && TokensFixed(Synced(rows), tokenOf)
    ensures Exact(Sync(s, rows)) && AllFixed(Sync(s, rows), tokenOf)
  {
    forall i | 0 <= i < |rows| && Qualifies(rows[i]) ensures KeepsToken(s, rows[i]) { assert RowFixed(rows[i], tokenOf); }
    SyncExactIff(s, rows);
    SyncKeys(s, rows);
    forall id | id in Sync(s, rows).positions ensures Sync(s, rows).positions[id].token == tokenOf(id) {
      QualifyingOpen(rows);
      var i :| 0 <= i < |rows| && rows[i].id == id;
      SyncMarks(s, rows, i);
      assert Qualifies(rows[i]) ==> RowFixed(rows[i], tokenOf);
    }
  }

  lemma PriceFixed(s: State, token: Token, q: Quote, tokenOf: Id -> Token)
    requires Exact(s) && AllFixed(s, tokenOf)
    ensures Exact(PriceUpdate(s, token, q)) && AllFixed(PriceUpdate(s, token, q), tokenOf)
  {
    var n := PriceUpdate(s, token, q);
    forall t, id | id in Watchers(n, t) ensures Holds(n, id, t) {
      assert id in Watchers(s, t) && Holds(s, id, t);
    }
  }

  lemma HappenFixed(s: State, e: Event, tokenOf: Id -> Token)
    requires Sound(s) && Exact(s) && AllFixed(s, tokenOf) && TokensFixed(e, tokenOf)
    ensures Exact(Happen(s, e)) && AllFixed(Happen(s, e), tokenOf)
  {
    match e
    case Synced(rows) => SyncFixed(s, rows, tokenOf);
    case Registered(id, token, terms) => RegisterExactIff(s, id, token, terms);
    case Unregistered(id) => UnregisterExact(s, id);
    case PriceArrived(token, q) => PriceFixed(s, token, q, tokenOf);
  }

  lemma {:induction false} FixedTokens(es: seq<Event>, tokenOf: Id -> Token)
    requires NeverRetokened(es, tokenOf)
    ensures Exact(Run(es)) && AllFixed(Run(es), tokenOf)
    decreases |es|
  {
    if es != [] {
      var front := es[..|es| - 1];
      FixedTokens(front, tokenOf);
      RunSound(front);
      HappenFixed(Run(front), es[|es| - 1], tokenOf);
    }
  }

  /** As long as no order ever changes its token, a price moves exactly the marks holding it. */
  lemma PriceMovesExactly(es: seq<Event>, tokenOf: Id -> Token, token: Token, q: Quote, id: Id)
    requires NeverRetokened(es, tokenOf)
    requires id in Run(es).positions
    ensures var s := Run(es);
            PriceUpdate(s, token, q).positions[id]
            == if tokenOf(id) == token then Reprice(s.positions[id], q, s.sequence + 1) else s.positions[id]
  {
    FixedTokens(es, tokenOf);
    RunSound(es);
    PriceMovesHolders(Run(es), tokenOf, token, q, id);
  }

  lemma PriceMovesHolders(s: State, tokenOf: Id -> Token, token: Token, q: Quote, id: Id)
    requires Sound(s) && Exact(s) && AllFixed(s, tokenOf) && id in s.positions
    ensures PriceUpdate(s, token, q).positions[id]
            == if tokenOf(id) == token then Reprice(s.positions[id], q, s.sequence + 1) else s.positions[id]
  {
    assert s.positions[id].token == tokenOf(id);
    if tokenOf(id) != token {
      PriceSparesOthers(s, token, q, id);
    } else {
      assert id in Watchers(s, token);
    }
  }

  /** An order that changed its token is still moved by prices of the old one, and the old entry
      outlives the order. */
  lemma StaleEntry(a: Id, x: Token, y: Token, terms: Terms, q: Quote)
    requires x != y
    ensures var s := Run([Registered(a, x, terms), Registered(a, y, terms)]);
            && Holds(s, a, y)
            && PriceUpdate(s, x, q).positions[a].price == Priced(q.mid, q.bid, q.ask, q.at, 1)
            && a !in Unregister(s, a).positions && a in Watchers(Unregister(s, a), x)
  {
    var first, second := Registered(a, x, terms), Registered(a, y, terms);
    var one, two := [first], [first, second];
    assert one[..|one| - 1] == [] && two[..|two| - 1] == one;
    assert Run(one) == Register(EMPTY, a, x, terms);
    var s := Run(two);
    assert s == Register(Run(one), a, y, terms);
    assert a in Watchers(s, x) && a in Watchers(s, y);
  }
}

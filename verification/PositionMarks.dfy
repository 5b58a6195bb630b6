/** Live price marks of open orders: the in-memory table with its token index
    (backend/services/position_mark_state.py) and the sync that brings it in line with the orders
    stored as open (backend/main.py). */
module PositionMarks {
  import opened Wrappers

  type Id(==, !new)
  type Token(==, !new)

  datatype Terms = Terms(market: string, direction: string, entry: real, notional: real, edge: real)

  datatype Price = NeverPriced | Priced(mid: real, bid: real, ask: real, at: real, sequence: nat)

  datatype Gain = Gain(pnl: real, percent: real, edgeDelta: real)

  datatype Mark = Mark(token: Token, terms: Terms, price: Price, gain: Gain)

  datatype Quote = Quote(mid: real, bid: real, ask: real, at: real)

  /** A stored open order; `token` is `None` when none of its places for one is filled. */
  datatype Row = Row(id: Id, token: Option<Token>, terms: Terms)

  datatype State = State(positions: map<Id, Mark>, index: map<Token, set<Id>>, sequence: nat)

  const EMPTY: State := State(map[], map[], 0)

  // ---------------------------------------------------------------------------
  // Specification
  // ---------------------------------------------------------------------------

  function Watchers(s: State, token: Token): set<Id> {
    if token in s.index then s.index[token] else {}
  }

  function Register(s: State, id: Id, token: Token, terms: Terms): State {
    var mark := if id in s.positions then s.positions[id].(token := token, terms := terms)
                else Mark(token, terms, NeverPriced, Gain(0.0, 0.0, 0.0));
    State(s.positions[id := mark], s.index[token := Watchers(s, token) + {id}], s.sequence)
  }

  function Unregister(s: State, id: Id): State {
    if id !in s.positions then s
    else
      var token := s.positions[id].token;
      var left := Watchers(s, token) - {id};
      State(s.positions - {id}, if left == {} then s.index - {token} else s.index[token := left], s.sequence)
  }

  function GainAt(mark: Mark, mid: real): Gain {
    if mark.terms.entry > 0.0 then
      var percent := (mid - mark.terms.entry) / mark.terms.entry * 100.0;
      Gain((mid - mark.terms.entry) * mark.terms.notional / mark.terms.entry, percent, percent - mark.terms.edge)
    else mark.gain
  }

  function Reprice(mark: Mark, q: Quote, sequence: nat): Mark {
    mark.(price := Priced(q.mid, q.bid, q.ask, q.at, sequence), gain := GainAt(mark, q.mid))
  }

  /** A price of a token: every order watching it, and no other, is repriced, under one new number. */
  function PriceUpdate(s: State, token: Token, q: Quote): State {
    if Watchers(s, token) == {} then s
    else
      State(map id | id in s.positions ::
              if id in Watchers(s, token) then Reprice(s.positions[id], q, s.sequence + 1) else s.positions[id],
            s.index, s.sequence + 1)
  }

  predicate Qualifies(row: Row) { row.token.Some? && row.terms.notional > 0.0 }

  function RegisterAll(s: State, rows: seq<Row>): State
    decreases |rows|
  {
    if rows == [] then s
    else
      var before := RegisterAll(s, rows[..|rows| - 1]);
      var row := rows[|rows| - 1];
      if Qualifies(row) then Register(before, row.id, row.token.value, row.terms) else before
  }

  function Ids(rows: seq<Row>): set<Id> { set i | 0 <= i < |rows| :: rows[i].id }

  function QualifyingIds(rows: seq<Row>): set<Id> { set i | 0 <= i < |rows| && Qualifies(rows[i]) :: rows[i].id }

  /** The orders among `gone` that watch a token under their mark's own token. */
  function Leavers(s: State, gone: set<Id>, token: Token): set<Id> {
    set id | id in gone && id in s.positions && s.positions[id].token == token
  }

  function Left(s: State, gone: set<Id>, token: Token): set<Id> { Watchers(s, token) - Leavers(s, gone, token) }

  /** All of `gone` unregistered, in whatever order. */
  function Pruned(s: State, gone: set<Id>): State {
    State(s.positions - gone,
          map token | token in s.index && Left(s, gone, token) != {} :: Left(s, gone, token),
          s.sequence)
  }

  function Sync(s: State, rows: seq<Row>): State {
    var registered := RegisterAll(s, rows);
    Pruned(registered, registered.positions.Keys - Ids(rows))
  }

  // ---------------------------------------------------------------------------
  // The table, in place
  // ---------------------------------------------------------------------------

  class PositionMarkState {
    var positions: map<Id, Mark>
    var tokenToOrders: map<Token, set<Id>>
    var sequence: nat

    function Now(): State
      reads this
    {
      State(positions, tokenToOrders, sequence)
    }

    constructor ()
      ensures Now() == EMPTY
    {
      positions, tokenToOrders, sequence := map[], map[], 0;
    }

    method RegisterPosition(id: Id, token: Token, terms: Terms)
      modifies this
      ensures Now() == Register(old(Now()), id, token, terms)
    {
      if id in positions {
        positions := positions[id := positions[id].(token := token, terms := terms)];
      } else {
        positions := positions[id := Mark(token, terms, NeverPriced, Gain(0.0, 0.0, 0.0))];
      }
      if token !in tokenToOrders {
        tokenToOrders := tokenToOrders[token := {}];
      }
      tokenToOrders := tokenToOrders[token := tokenToOrders[token] + {id}];
    }

    method UnregisterPosition(id: Id)
      requires Sound(Now())
      modifies this
      ensures Now() == Unregister(old(Now()), id) && Sound(Now())
    {
      UnregisterSound(Now(), id);
      if id !in positions {
        return;
      }
      var mark := positions[id];
      positions := positions - {id};
      if mark.token in tokenToOrders {
        tokenToOrders := tokenToOrders[mark.token := tokenToOrders[mark.token] - {id}];
        if tokenToOrders[mark.token] == {} {
          tokenToOrders := tokenToOrders - {mark.token};
        }
      }
      assert tokenToOrders == Unregister(old(Now()), id).index;
    }

    method OnPriceUpdate(token: Token, q: Quote)
      modifies this
      ensures Now() == PriceUpdate(old(Now()), token, q)
    {
      if token !in tokenToOrders || tokenToOrders[token] == {} {
        return;
      }
      sequence := sequence + 1;
      ghost var was := positions;
      var watchers := tokenToOrders[token];
      var todo := watchers;
      while todo != {}
        invariant todo <= watchers
        invariant sequence == old(sequence) + 1 && tokenToOrders == old(tokenToOrders)
        invariant positions.Keys == was.Keys
        invariant forall id :: id in was ==>
          positions[id] == if id in watchers && id !in todo then Reprice(was[id], q, sequence) else was[id]
      {
        var id :| id in todo;
        todo := todo - {id};
        if id in positions {
          positions := positions[id := Reprice(positions[id], q, sequence)];
        }
      }
      assert positions == PriceUpdate(old(Now()), token, q).positions;
    }

    /** One sync with the stored open orders. */
    method SyncWith(rows: seq<Row>)
      requires Sound(Now())
      modifies this
      ensures Now() == Sync(old(Now()), rows) && Sound(Now())
    {
      var activeIds: set<Id> := {};
      for i := 0 to |rows|
        invariant Now() == RegisterAll(old(Now()), rows[..i]) && Sound(Now())
        invariant activeIds == Ids(rows[..i])
      {
        assert rows[..i + 1][..|rows[..i + 1]| - 1] == rows[..i];
        IdsGrow(rows, i);
        var row := rows[i];
        activeIds := activeIds + {row.id};
        if row.token.None? {
          continue;
        }
        if row.terms.notional <= 0.0 {
          continue;
        }
        RegisterPosition(row.id, row.token.value, row.terms);
      }
      assert rows[..|rows|] == rows;
      Prune(activeIds);
    }

    method Prune(activeIds: set<Id>)
      requires Sound(Now())
      modifies this
      ensures Now() == Pruned(old(Now()), old(positions).Keys - activeIds) && Sound(Now())
    {
      ghost var was := Now();
      ghost var gone: set<Id> := {};
      var todo := positions.Keys;
      PruneNone(was);
      while todo != {}
        invariant Sound(Now()) && Now() == Pruned(was, gone)
        invariant todo <= was.positions.Keys && gone == was.positions.Keys - todo - activeIds
      {
        var id :| id in todo;
        todo := todo - {id};
        if id !in activeIds {
          PruneOne(was, gone, id);
          UnregisterPosition(id);
          gone := gone + {id};
        }
        assert gone == was.positions.Keys - todo - activeIds;
      }
    }
  }

  // ---------------------------------------------------------------------------
  // What every operation keeps
  // ---------------------------------------------------------------------------

  /** Every order is among its token's watchers, and no token is kept without a watcher. */
  ghost predicate Sound(s: State) {
    && (forall id :: id in s.positions ==> id in Watchers(s, s.positions[id].token))
    && (forall token :: token in s.index ==> s.index[token] != {})
  }

  lemma RegisterSound(s: State, id: Id, token: Token, terms: Terms)
    requires Sound(s)
    ensures Sound(Register(s, id, token, terms))
  {
  }

  lemma UnregisterSound(s: State, id: Id)
    requires Sound(s)
    ensures Sound(Unregister(s, id))
  {
  }

  lemma PruneNone(s: State)
    requires Sound(s)
    ensures Pruned(s, {}) == s
  {
    forall token ensures Left(s, {}, token) == Watchers(s, token) {
      assert Leavers(s, {}, token) == {};
    }
    assert Pruned(s, {}).index == s.index;
    assert s.positions - {} == s.positions;
  }

  /** One more order unregistered: what is left of each token's watchers. */
  lemma LeftAfterOne(s: State, gone: set<Id>, id: Id, token: Token)
    requires id in s.positions && id !in gone
    ensures Left(s, gone + {id}, token)
            == Left(s, gone, token) - if s.positions[id].token == token then {id} else {}
  {
  }

  lemma PruneOne(s: State, gone: set<Id>, id: Id)
    requires Sound(s) && id in s.positions && id !in gone
    ensures Unregister(Pruned(s, gone), id) == Pruned(s, gone + {id})
  {
    var a, b := Unregister(Pruned(s, gone), id), Pruned(s, gone + {id});
    assert a.positions == b.positions;
    PruneOneIndex(s, gone, id);
  }

  lemma PruneOneIndex(s: State, gone: set<Id>, id: Id)
    requires Sound(s) && id in s.positions && id !in gone
    ensures Unregister(Pruned(s, gone), id).index == Pruned(s, gone + {id}).index
  {
    var mine := s.positions[id].token;
    var mid := Pruned(s, gone);
    var a, b := Unregister(mid, id).index, Pruned(s, gone + {id}).index;
    assert mid.positions[id] == s.positions[id];
    assert id in Left(s, gone, mine);
    assert Watchers(mid, mine) == Left(s, gone, mine);
    forall token ensures token in a <==> token in b {
      LeftAfterOne(s, gone, id, token);
      assert token != mine ==> Left(s, gone + {id}, token) == Left(s, gone, token);
    }
    forall token | token in a ensures a[token] == b[token] {
      LeftAfterOne(s, gone, id, token);
      assert token != mine ==> Left(s, gone + {id}, token) == Left(s, gone, token);
    }
  }

  lemma IdsGrow(rows: seq<Row>, i: nat)
    requires i < |rows|
    ensures Ids(rows[..i + 1]) == Ids(rows[..i]) + {rows[i].id}
  {
    var a, b := rows[..i + 1], rows[..i];
    assert a == b + [rows[i]];
    forall id | id in Ids(b) ensures id in Ids(a) {
      var k :| 0 <= k < |b| && b[k].id == id;
      assert a[k].id == id;
    }
    assert a[i].id == rows[i].id;
  }
}

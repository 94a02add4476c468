/**
  The per-cell constraint engine (tile.py).

  A tile keeps the states it may still take, the connections its neighbours
  have imposed on it (`active`) and the connections that are still allowed
  (`possible`). The rules are stated once, on values: `TileView` is the
  content of a tile's four mutable fields, `Filter` is the selection rule,
  `Added` is the effect of imposing a connection and `EntropyOf` is the
  entropy. The class `Tile` updates its fields in place and is proved
  against those functions.
*/
module Tiles {
  import opened Options
  import opened States

  /** A floating-point entropy: a finite real, or numpy's `inf`. */
  datatype ExtReal = Finite(r: real) | Infinity

  /** The order on entropies; `inf` lies above every finite value. */
  predicate Le(a: ExtReal, b: ExtReal)
  {
    b.Infinity? || (a.Finite? && a.r <= b.r)
  }

  /** The selection weights are positive (the entropy divides by them). */
  predicate PositiveWeights(states: set<State>)
  {
    forall s :: s in states ==> s.weight > 0.0
  }

  /** Every connection of some state in `states`. */
  function AllConnections(states: set<State>): set<Connection>
  {
    set s, c | s in states && c in s.connections :: c
  }

  /**
    The filtering rule of `is_state_possible`: the state offers every active
    connection, and every connection it has is still possible.
  */
  predicate Compatible(s: State, active: set<Connection>, possible: set<Connection>)
  {
    active <= s.connections && s.connections <= possible
  }

  /** The states of `states` compatible with `active` and `possible`. */
  function Filter(states: set<State>, active: set<Connection>, possible: set<Connection>): set<State>
  {
    set s | s in states && Compatible(s, active, possible)
  }

  /** The possible connections once `c` is the only one left in its slot. */
  function Narrow(possible: set<Connection>, c: Connection): set<Connection>
  {
    (set x | x in possible && x.value != c.value) + {c}
  }

  /** The four mutable fields of a tile, as a value. */
  datatype TileView = TileView(
    possibleStates: set<State>,
    active: set<Connection>,
    possible: set<Connection>,
    collapsed: bool)

  /** A fresh tile: nothing imposed, every connection of every state possible. */
  function Initial(states: set<State>): TileView
  {
    TileView(states, {}, AllConnections(states), false)
  }

  /** The effect of `add_connection(c)`: none on a collapsed tile. */
  function Added(states: set<State>, v: TileView, c: Connection): TileView
  {
    if v.collapsed then v
    else
      var active := v.active + {c};
      var possible := Narrow(v.possible, c);
      var remaining := Filter(states, active, possible);
      TileView(remaining, active, possible, remaining == {})
  }

  /** A tile collapsed to `selected`. */
  function Picked(selected: State): TileView
  {
    TileView({selected}, selected.connections, selected.connections, true)
  }

  /**
    Every connection of a state that is no longer possible is displaced by a
    different active connection in the same slot.
  */
  ghost predicate Superseded(states: set<State>, active: set<Connection>, possible: set<Connection>)
  {
    forall x :: x in AllConnections(states) && x !in possible ==>
      exists a :: a in active && a.value == x.value && a != x
  }

  /**
    What holds of every tile reachable from the constructor by
    `add_connection` and `collapse`. A collapsed tile is unconstrained.
  */
  ghost predicate Inv(states: set<State>, v: TileView)
  {
    PositiveWeights(states) &&
    (!v.collapsed ==>
      v.possibleStates == Filter(states, v.active, v.possible) &&
      Superseded(states, v.active, v.possible) &&
      (v.active == {} ==> v.possible == AllConnections(states)) &&
      (v.active != {} ==> v.possibleStates != {}))
  }

  /** The sum of the inverse weights of `ss`. */
  ghost function InvWeightSum(ss: set<State>): (r: real)
    requires PositiveWeights(ss)
    ensures r >= 0.0
    ensures ss != {} ==> r > 0.0
    decreases ss
  {
    if ss == {} then 0.0
    else
      var s :| s in ss;
      assert 1.0 / s.weight > 0.0;
      1.0 / s.weight + InvWeightSum(ss - {s})
  }

  /** The entropy of a tile: 0 once collapsed, `inf` with nothing imposed. */
  ghost function EntropyOf(states: set<State>, v: TileView): ExtReal
    requires Inv(states, v)
  {
    if v.collapsed then Finite(0.0)
    else if v.active == {} then Infinity
    else
      assert v.possibleStates <= states;
      Finite(InvWeightSum(v.possibleStates) / InvWeightSum(states))
  }

  /** The sum does not depend on which element is taken first. */
  lemma {:induction false} InvWeightSumRemove(ss: set<State>, x: State)
    requires PositiveWeights(ss) && x in ss
    ensures InvWeightSum(ss) == 1.0 / x.weight + InvWeightSum(ss - {x})
    decreases ss
  {
    var y :| y in ss && InvWeightSum(ss) == 1.0 / y.weight + InvWeightSum(ss - {y});
    if y != x {
      InvWeightSumRemove(ss - {y}, x);
      InvWeightSumRemove(ss - {x}, y);
      assert ss - {y} - {x} == ss - {x} - {y};
    }
  }

  /** A subset has the smaller inverse-weight sum. */
  lemma {:induction false} InvWeightSumMono(a: set<State>, b: set<State>)
    requires PositiveWeights(b) && a <= b
    ensures InvWeightSum(a) <= InvWeightSum(b)
    decreases a
  {
    if a != {} {
      var x :| x in a;
      InvWeightSumRemove(a, x);
      InvWeightSumRemove(b, x);
      InvWeightSumMono(a - {x}, b - {x});
    }
  }

  /** With nothing imposed, every state is compatible. */
  lemma FilterInitial(states: set<State>)
    ensures Filter(states, {}, AllConnections(states)) == states
  {
    forall s | s in states
      ensures Compatible(s, {}, AllConnections(states))
    {
      forall x | x in s.connections
        ensures x in AllConnections(states)
      {
      }
    }
  }

  /** A fresh tile satisfies the invariant and has infinite entropy. */
  lemma InitialInv(states: set<State>)
    requires PositiveWeights(states)
    ensures Inv(states, Initial(states))
    ensures EntropyOf(states, Initial(states)) == Infinity
  {
    FilterInitial(states);
  }

  /** An uncollapsed tile with some possible connection has a state to pick. */
  lemma CanPick(states: set<State>, v: TileView)
    requires Inv(states, v) && !v.collapsed
    ensures v.possible != {} ==> v.possibleStates != {}
  {
    if v.active == {} && v.possible != {} {
      var x :| x in v.possible;
      var s :| s in states && x in s.connections;
      FilterInitial(states);
      assert s in v.possibleStates;
    }
  }

  /**
    Imposing a connection keeps the invariant and never makes a state
    possible again: `possibleStates` only shrinks.
  */
  lemma AddedInv(states: set<State>, v: TileView, c: Connection)
    requires Inv(states, v)
    ensures Inv(states, Added(states, v, c))
    ensures Added(states, v, c).possibleStates <= v.possibleStates
  {
    if !v.collapsed {
      var w := Added(states, v, c);
      forall x | x in AllConnections(states) && x !in w.possible
        ensures exists a :: a in w.active && a.value == x.value && a != x
      {
        if x.value == c.value {
          assert c in w.active;
        } else {
          assert x !in v.possible;
          var a :| a in v.active && a.value == x.value && a != x;
          assert a in w.active;
        }
      }
      forall s | s in w.possibleStates
        ensures s in v.possibleStates
      {
        forall x | x in s.connections
          ensures x in v.possible
        {
          assert x in AllConnections(states);
        }
      }
    }
  }

  /**
    On an uncollapsed tile, `c` becomes the only possible connection in its
    slot and joins the active ones, the other slots are untouched, every
    state left offers `c`, and the tile collapses exactly when none is left.
    A collapsed tile is left as it is.
  */
  lemma AddedEffects(states: set<State>, v: TileView, c: Connection)
    ensures v.collapsed ==> Added(states, v, c) == v
    ensures !v.collapsed ==>
      var w := Added(states, v, c);
      w.active == v.active + {c} &&
      (forall x :: x in w.possible && x.value == c.value <==> x == c) &&
      (forall x: Connection :: x.value != c.value ==> (x in w.possible <==> x in v.possible)) &&
      (forall s :: s in w.possibleStates ==> c in s.connections) &&
      w.possibleStates == Filter(states, w.active, w.possible) &&
      (w.collapsed <==> w.possibleStates == {})
  {
  }

  /** The value of `entropy`: 0 exactly when collapsed, otherwise in (0, 1] or `inf`. */
  lemma EntropyRange(states: set<State>, v: TileView)
    requires Inv(states, v)
    ensures EntropyOf(states, v) == Finite(0.0) <==> v.collapsed
    ensures EntropyOf(states, v).Infinity? <==> !v.collapsed && v.active == {}
    ensures EntropyOf(states, v).Finite? && !v.collapsed ==>
      0.0 < EntropyOf(states, v).r <= 1.0
  {
    if !v.collapsed && v.active != {} {
      InvWeightSumMono(v.possibleStates, states);
      RatioBounds(InvWeightSum(v.possibleStates), InvWeightSum(states));
    }
  }

  /** A ratio of a positive number to a larger one lies in (0, 1]. */
  lemma RatioBounds(a: real, b: real)
    requires 0.0 < a <= b
    ensures 0.0 < a / b <= 1.0
  {
    assert a / b * b == a;
  }

  /** Division by a positive number is monotone. */
  lemma RatioMono(a: real, b: real, d: real)
    requires a <= b && d > 0.0
    ensures a / d <= b / d
  {
    assert b / d - a / d == (b - a) / d;
  }

  /** Imposing a connection never raises the entropy. */
  lemma AddedLowersEntropy(states: set<State>, v: TileView, c: Connection)
    requires Inv(states, v)
    ensures Inv(states, Added(states, v, c))
    ensures Le(EntropyOf(states, Added(states, v, c)), EntropyOf(states, v))
  {
    AddedInv(states, v, c);
    var w := Added(states, v, c);
    EntropyRange(states, v);
    if !v.collapsed && !w.collapsed && v.active != {} {
      InvWeightSumMono(w.possibleStates, v.possibleStates);
      RatioMono(InvWeightSum(w.possibleStates), InvWeightSum(v.possibleStates), InvWeightSum(states));
    }
  }

  /** The inverse-weight sum, computed by a loop over `ss`. */
  method SumInverseWeights(ss: set<State>) returns (total: real)
    requires PositiveWeights(ss)
    ensures total == InvWeightSum(ss)
  {
    total := 0.0;
    var rest := ss;
    while rest != {}
      invariant rest <= ss
      invariant total + InvWeightSum(rest) == InvWeightSum(ss)
      decreases rest
    {
      var s :| s in rest;
      InvWeightSumRemove(rest, s);
      total := total + 1.0 / s.weight;
      rest := rest - {s};
    }
  }

  class Tile {
    const states: set<State>
    var possibleStates: set<State>
    var activeConnections: set<Connection>
    var possibleConnections: set<Connection>
    var collapsed: bool

    /** The mutable fields, as a value. */
    function View(): TileView
      reads this
    {
      TileView(possibleStates, activeConnections, possibleConnections, collapsed)
    }

    ghost predicate Valid()
      reads this
    {
      Inv(states, View())
    }

    /**
      Collects the connections of every state, filters the states (all of
      them pass) and then clears `collapsed`, even when there are no states.
    */
    constructor (states: set<State>)
      requires PositiveWeights(states)
      ensures this.states == states
      ensures View() == Initial(states)
      ensures Valid()
    {
      this.states := states;
      possibleStates := {};
      activeConnections := {};
      possibleConnections := {};
      new;
      var rest := states;
      while rest != {}
        invariant rest <= states
        invariant possibleConnections == AllConnections(states - rest)
        invariant activeConnections == {}
        decreases rest
      {
        var state :| state in rest;
        AllConnectionsAdd(states - rest, state);
        possibleConnections := possibleConnections + state.connections;
        rest := rest - {state};
        assert states - rest == (states - (rest + {state})) + {state};
      }
      assert states - rest == states;
      UpdatePossibleStates();
      collapsed := false;
      FilterInitial(states);
      InitialInv(states);
    }

    /** Whether `state` is still possible here. */
    predicate IsStatePossible(state: State)
      reads this
    {
      Compatible(state, activeConnections, possibleConnections)
    }

    /**
      Recomputes the possible states and sets `collapsed` exactly when none
      is left. The source also forms the union of the result with its own
      possible members and discards it; that changes nothing.
    */
    method UpdatePossibleStates()
      modifies this
      ensures possibleStates == Filter(states, activeConnections, possibleConnections)
      ensures collapsed <==> possibleStates == {}
      ensures activeConnections == old(activeConnections)
      ensures possibleConnections == old(possibleConnections)
    {
      possibleStates := set s | s in states && IsStatePossible(s);
      var discarded := possibleStates + set s | s in possibleStates && IsStatePossible(s);
      if |possibleStates| == 0 {
        collapsed := true;
      } else {
        collapsed := false;
      }
    }

    /**
      Imposes `connection`: discards every possible connection in its slot,
      then makes it active and possible and filters the states again.
    */
    method AddConnection(connection: Connection)
      modifies this
      ensures View() == Added(states, old(View()), connection)
      ensures old(Valid()) ==> Valid() && possibleStates <= old(possibleStates)
    {
      if collapsed {
        return;
      }
      ghost var v := View();
      var cval := connection.value;
      var connections := set c | c in possibleConnections && c.value == cval;
      var pending := connections;
      while pending != {}
        invariant pending <= connections
        invariant possibleConnections == v.possible - (connections - pending)
        invariant activeConnections == v.active && !collapsed
        decreases pending
      {
        var c :| c in pending;
        possibleConnections := possibleConnections - {c};
        pending := pending - {c};
      }
      assert possibleConnections == set x | x in v.possible && x.value != cval;
      activeConnections := activeConnections + {connection};
      possibleConnections := possibleConnections + {connection};
      UpdatePossibleStates();
      if Inv(states, v) {
        AddedInv(states, v, connection);
      }
    }

    /** The entropy of this tile (the `entropy` property). */
    method Entropy() returns (e: ExtReal)
      requires Valid()
      ensures e == EntropyOf(states, View())
    {
      if collapsed {
        return Finite(0.0);
      }
      if |activeConnections| == 0 {
        return Infinity;
      }
      // The source's filter compares a set with 0 and keeps every possible state.
      assert possibleStates <= states;
      var numerator := SumInverseWeights(possibleStates);
      var denominator := SumInverseWeights(states);
      e := Finite(numerator / denominator);
    }

    /**
      Collapses the tile: onto `state` when one is given; otherwise, unless
      no connection is possible, onto a member of `possibleStates` (the
      source picks it at random, weighted by `weight`).
    */
    method Collapse(state: Option<State>)
      requires state.None? && possibleConnections != {} ==> possibleStates != {}
      modifies this
      ensures collapsed
      ensures state.Some? ==> View() == Picked(state.value)
      ensures state.None? && old(possibleConnections) == {} ==>
        View() == old(View()).(collapsed := true)
      ensures state.None? && old(possibleConnections) != {} ==>
        exists s :: s in old(possibleStates) && View() == Picked(s)
      ensures old(Valid()) ==> Valid()
    {
      collapsed := true;
      var selected: State;
      if state.Some? {
        selected := state.value;
      } else if |possibleConnections| == 0 {
        return;
      } else {
        assert state.None? && possibleConnections != {};
        assert possibleStates != {};
        selected :| selected in possibleStates;
      }
      possibleConnections := selected.connections;
      activeConnections := selected.connections;
      possibleStates := {selected};
    }

    /**
      Some active connection in slot `direction`, or `None` when there is
      none (the source returns the first one in set order).
    */
    method GetConnection(direction: int) returns (r: Option<Connection>)
      ensures r.None? <==> forall c :: c in activeConnections ==> c.value != direction
      ensures r.Some? ==> r.value in activeConnections && r.value.value == direction
    {
      var connections := set c | c in activeConnections && c.value == direction;
      if |connections| == 0 {
        assert forall c :: c in activeConnections && c.value == direction ==> c in connections;
        return None;
      }
      assert connections != {};
      var c :| c in connections;
      return Some(c);
    }
  }

  /** The union loop of the constructor: one more state adds its connections. */
  lemma AllConnectionsAdd(done: set<State>, s: State)
    ensures AllConnections(done + {s}) == AllConnections(done) + s.connections
  {
  }
}

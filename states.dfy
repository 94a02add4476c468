/**
  Connections and states (state.py).

  A connection is a plain `(value, id)` pair: `value` names one of the eight
  border slots of a fragment and `id` is the socket that must match across
  the border. A state bundles a fragment image, the set of its connections
  and a selection weight. The Python class defines no equality or hash, so
  two states are the same only when they are the same object; the model
  therefore makes `State` a class with constant fields.
*/
module States {

  /** The socket identifier of a connection (the catalog's `id`); the model only compares identifiers. */
  type SocketId(==, !new)

  /** A border slot together with the socket that occupies it. */
  datatype Connection = Connection(value: int, id: SocketId)

  /**
    A fragment image. Pixels are never inspected, so an image is the symbolic
    record of how it was obtained: loaded by fragment name, turned with
    `np.rot90(source, k)` or mirrored with `np.flip(source, axis)`.
  */
  datatype Image =
    | Loaded(name: string)
    | Rotated(source: Image, k: int)
    | Flipped(source: Image, axis: int)

  /** What a state holds, as a value: two distinct states may have equal variants. */
  datatype Variant = Variant(img: Image, connections: set<Connection>, weight: real)

  class State {
    const img: Image
    const connections: set<Connection>
    const weight: real

    /**
      Stores the image and the weight unchanged and a copy of the connection
      set that later changes to the caller's set cannot reach (Dafny sets are
      values, like Python's frozenset).
    */
    constructor (img: Image, connections: set<Connection>, weight: real)
      ensures this.img == img && this.weight == weight
      ensures this.connections == connections
    {
      this.img := img;
      this.connections := connections;
      this.weight := weight;
    }

    /** The contents of this state. */
    function Value(): Variant
    {
      Variant(img, connections, weight)
    }
  }

  /** Two connections are equal exactly when slot and socket are equal. */
  lemma ConnectionEquality(a: Connection, b: Connection)
    ensures a == b <==> a.value == b.value && a.id == b.id
  {
  }

  /**
    States are compared by identity: a set never merges two distinct states,
    even when their images, connections and weights agree.
  */
  lemma StatesAreIdentities(a: State, b: State, states: set<State>)
    requires a.Value() == b.Value() && a != b
    requires a in states && b in states
    ensures |states| >= 2
  {
    assert {a, b} <= states;
    assert |{a, b}| == 2;
    SubsetSize({a, b}, states);
  }

  /** A subset is no larger than its superset. */
  lemma {:induction false} SubsetSize<T>(a: set<T>, b: set<T>)
    requires a <= b
    ensures |a| <= |b|
    decreases a
  {
    if a != {} {
      var x :| x in a;
      SubsetSize(a - {x}, b - {x});
    }
  }
}

/**
  State-set generation (gen_states.py).

  The three geometric transforms relabel the border slots of a connection
  set and keep every socket id. `GenStates` expands each parsed catalog entry
  into its base state, its quarter-turn rotations (deduplicated by connection
  signature within the entry) and its mirror images.
*/
module Generation {
  import opened States

  /** The slot permutation of a mirror across the vertical axis (`xflip_map`). */
  const XFlipMap: seq<int> := [2, 1, 0, 7, 6, 5, 4, 3]

  /** The slot permutation of a mirror across the horizontal axis (`yflip_map`). */
  const YFlipMap: seq<int> := [6, 5, 4, 3, 2, 1, 0, 7]

  /** Every slot value lies in [0, 8). */
  predicate InRange(cs: set<Connection>)
  {
    forall c :: c in cs ==> 0 <= c.value < 8
  }

  /**
    The flips index a numpy array of length 8 with the slot values: an index
    in [-8, 0) counts from the end, any other index outside [0, 8) raises, and
    an empty set yields an empty floating-point index array, which numpy
    also refuses.
  */
  predicate FlipDefined(cs: set<Connection>)
  {
    cs != {} && forall c :: c in cs ==> -8 <= c.value < 8
  }

  /** The socket ids used by a connection set. */
  function Ids(cs: set<Connection>): set<SocketId>
  {
    set c | c in cs :: c.id
  }

  function RotateConnection(c: Connection, times: int): Connection
  {
    Connection((c.value + 2 * times) % 8, c.id)
  }

  /** `rotate90`: turn the slots by `times` quarter turns. */
  function Rotate90(cs: set<Connection>, times: int): set<Connection>
  {
    set c | c in cs :: RotateConnection(c, times)
  }

  /** A rotation yields valid slots, and it is empty only when its argument is. */
  lemma RotateDefined(cs: set<Connection>, times: int)
    ensures InRange(Rotate90(cs, times))
    ensures Rotate90(cs, times) == {} <==> cs == {}
  {
    assert forall c :: c in cs ==> RotateConnection(c, times) in Rotate90(cs, times);
  }

  /** A numpy index in [-8, 0) counts from the end of the eight-entry map. */
  function FlipIndex(v: int): (k: int)
    requires -8 <= v < 8
    ensures 0 <= k < 8
  {
    if v < 0 then v + 8 else v
  }

  function XFlipConnection(c: Connection): Connection
    requires -8 <= c.value < 8
  {
    Connection(XFlipMap[FlipIndex(c.value)], c.id)
  }

  function YFlipConnection(c: Connection): Connection
    requires -8 <= c.value < 8
  {
    Connection(YFlipMap[FlipIndex(c.value)], c.id)
  }

  /** `xflip`: mirror the slots across the vertical axis. */
  function XFlip(cs: set<Connection>): set<Connection>
    requires FlipDefined(cs)
  {
    set c | c in cs :: XFlipConnection(c)
  }

  /** `yflip`: mirror the slots across the horizontal axis. */
  function YFlip(cs: set<Connection>): set<Connection>
    requires FlipDefined(cs)
  {
    set c | c in cs :: YFlipConnection(c)
  }

  /** A mirror image of a flippable set is a non-empty set of valid slots. */
  lemma FlipsDefined(cs: set<Connection>)
    requires FlipDefined(cs)
    ensures InRange(XFlip(cs)) && XFlip(cs) != {}
    ensures InRange(YFlip(cs)) && YFlip(cs) != {}
  {
    var c :| c in cs;
    assert XFlipConnection(c) in XFlip(cs);
    assert YFlipConnection(c) in YFlip(cs);
  }

  /** The transforms relabel slots only: the socket ids are the same before and after. */
  lemma TransformsKeepIds(cs: set<Connection>, times: int)
    ensures Ids(Rotate90(cs, times)) == Ids(cs)
    ensures FlipDefined(cs) ==> Ids(XFlip(cs)) == Ids(cs) && Ids(YFlip(cs)) == Ids(cs)
  {
    forall c | c in cs ensures c.id in Ids(Rotate90(cs, times)) {
      assert RotateConnection(c, times) in Rotate90(cs, times);
    }
    if FlipDefined(cs) {
      forall c | c in cs ensures c.id in Ids(XFlip(cs)) && c.id in Ids(YFlip(cs)) {
        assert XFlipConnection(c) in XFlip(cs);
        assert YFlipConnection(c) in YFlip(cs);
      }
    }
  }

  lemma RotateConnectionCompose(c: Connection, a: int, b: int)
    ensures RotateConnection(RotateConnection(c, a), b) == RotateConnection(c, a + b)
  {
    var x := c.value + 2 * a;
    assert (x % 8 + 2 * b) % 8 == (x + 2 * b) % 8;
  }

  /** Rotations compose additively. */
  lemma RotateCompose(cs: set<Connection>, a: int, b: int)
    ensures Rotate90(Rotate90(cs, a), b) == Rotate90(cs, a + b)
  {
    var lhs := Rotate90(Rotate90(cs, a), b);
    var rhs := Rotate90(cs, a + b);
    forall x | x in lhs ensures x in rhs {
      var y :| y in Rotate90(cs, a) && x == RotateConnection(y, b);
      var c :| c in cs && y == RotateConnection(c, a);
      RotateConnectionCompose(c, a, b);
    }
    forall x | x in rhs ensures x in lhs {
      var c :| c in cs && x == RotateConnection(c, a + b);
      RotateConnectionCompose(c, a, b);
      assert RotateConnection(c, a) in Rotate90(cs, a);
    }
  }

  /** A full turn leaves a set of valid slots unchanged. */
  lemma RotateFullTurn(cs: set<Connection>)
    requires InRange(cs)
    ensures Rotate90(cs, 4) == cs
  {
    forall x | x in Rotate90(cs, 4) ensures x in cs {
      var c :| c in cs && x == RotateConnection(c, 4);
    }
    forall c | c in cs ensures c in Rotate90(cs, 4) {
      assert RotateConnection(c, 4) == c;
    }
  }

  /** Four quarter turns return the original set. */
  lemma FourQuarterTurns(cs: set<Connection>)
    requires InRange(cs)
    ensures Rotate90(Rotate90(Rotate90(Rotate90(cs, 1), 1), 1), 1) == cs
  {
    RotateCompose(cs, 1, 1);
    RotateCompose(cs, 2, 1);
    RotateCompose(cs, 3, 1);
    RotateFullTurn(cs);
  }

  lemma XFlipConnectionInvolution(c: Connection)
    requires 0 <= c.value < 8
    ensures XFlipConnection(XFlipConnection(c)) == c
  {
    var v := c.value;
    assert v == 0 || v == 1 || v == 2 || v == 3 || v == 4 || v == 5 || v == 6 || v == 7;
  }

  lemma YFlipConnectionInvolution(c: Connection)
    requires 0 <= c.value < 8
    ensures YFlipConnection(YFlipConnection(c)) == c
  {
    var v := c.value;
    assert v == 0 || v == 1 || v == 2 || v == 3 || v == 4 || v == 5 || v == 6 || v == 7;
  }

  /** `xflip` undoes itself on valid slots. */
  lemma XFlipInvolution(cs: set<Connection>)
    requires InRange(cs) && cs != {}
    ensures FlipDefined(XFlip(cs)) && XFlip(XFlip(cs)) == cs
  {
    FlipsDefined(cs);
    var once := XFlip(cs);
    forall x | x in XFlip(once) ensures x in cs {
      var y :| y in once && x == XFlipConnection(y);
      var c :| c in cs && y == XFlipConnection(c);
      XFlipConnectionInvolution(c);
    }
    forall c | c in cs ensures c in XFlip(once) {
      var y := XFlipConnection(c);
      assert y in once;
      XFlipConnectionInvolution(c);
      assert XFlipConnection(y) in XFlip(once);
    }
  }

  /** `yflip` undoes itself on valid slots. */
  lemma YFlipInvolution(cs: set<Connection>)
    requires InRange(cs) && cs != {}
    ensures FlipDefined(YFlip(cs)) && YFlip(YFlip(cs)) == cs
  {
    FlipsDefined(cs);
    var once := YFlip(cs);
    forall x | x in YFlip(once) ensures x in cs {
      var y :| y in once && x == YFlipConnection(y);
      var c :| c in cs && y == YFlipConnection(c);
      YFlipConnectionInvolution(c);
    }
    forall c | c in cs ensures c in YFlip(once) {
      var y := YFlipConnection(c);
      assert y in once;
      YFlipConnectionInvolution(c);
      assert YFlipConnection(y) in YFlip(once);
    }
  }

  /** The image of a set under a map that is injective on it has the same size. */
  lemma {:induction false} InjectiveImageSize(cs: set<Connection>, f: Connection -> Connection)
    requires forall x, y :: x in cs && y in cs && f(x) == f(y) ==> x == y
    ensures |set c | c in cs :: f(c)| == |cs|
    decreases cs
  {
    if cs != {} {
      var x :| x in cs;
      var rest := cs - {x};
      InjectiveImageSize(rest, f);
      assert (set c | c in cs :: f(c)) == (set c | c in rest :: f(c)) + {f(x)};
      assert f(x) !in (set c | c in rest :: f(c));
    }
  }

  lemma RotateConnectionInjective(x: Connection, y: Connection, times: int)
    requires 0 <= x.value < 8 && 0 <= y.value < 8
    requires RotateConnection(x, times) == RotateConnection(y, times)
    ensures x == y
  {
    RotateConnectionCompose(x, times, -times);
    RotateConnectionCompose(y, times, -times);
    assert RotateConnection(x, 0) == x && RotateConnection(y, 0) == y;
  }

  /** A rotation is a bijection on valid slots, so it keeps the set's size. */
  lemma RotatePreservesSize(cs: set<Connection>, times: int)
    requires InRange(cs)
    ensures |Rotate90(cs, times)| == |cs|
  {
    var rot := (c: Connection) => RotateConnection(c, times);
    forall x, y | x in cs && y in cs && rot(x) == rot(y) ensures x == y {
      RotateConnectionInjective(x, y, times);
    }
    assert Rotate90(cs, times) == set c | c in cs :: rot(c);
    InjectiveImageSize(cs, rot);
  }

  /** `xflip` is a bijection on valid slots, so it keeps the set's size. */
  lemma XFlipPreservesSize(cs: set<Connection>)
    requires InRange(cs) && cs != {}
    ensures |XFlip(cs)| == |cs|
  {
    var xf := (c: Connection) => if -8 <= c.value < 8 then XFlipConnection(c) else c;
    forall x, y | x in cs && y in cs && xf(x) == xf(y) ensures x == y {
      XFlipConnectionInvolution(x);
      XFlipConnectionInvolution(y);
    }
    assert XFlip(cs) == set c | c in cs :: xf(c);
    InjectiveImageSize(cs, xf);
  }

  /** `yflip` is a bijection on valid slots, so it keeps the set's size. */
  lemma YFlipPreservesSize(cs: set<Connection>)
    requires InRange(cs) && cs != {}
    ensures |YFlip(cs)| == |cs|
  {
    var yf := (c: Connection) => if -8 <= c.value < 8 then YFlipConnection(c) else c;
    forall x, y | x in cs && y in cs && yf(x) == yf(y) ensures x == y {
      YFlipConnectionInvolution(x);
      YFlipConnectionInvolution(y);
    }
    assert YFlip(cs) == set c | c in cs :: yf(c);
    InjectiveImageSize(cs, yf);
  }

  // ---------------------------------------------------------------------
  // Transforms of whole states

  /** The contents of `state_rotate90(state, times)`. */
  function RotateVariant(v: Variant, times: int): Variant
  {
    Variant(Rotated(v.img, -times), Rotate90(v.connections, times), v.weight)
  }

  /** The contents of `state_xflip(state)`. */
  function XFlipVariant(v: Variant): Variant
    requires FlipDefined(v.connections)
  {
    Variant(Flipped(v.img, 1), XFlip(v.connections), v.weight)
  }

  /** The contents of `state_yflip(state)`. */
  function YFlipVariant(v: Variant): Variant
    requires FlipDefined(v.connections)
  {
    Variant(Flipped(v.img, 0), YFlip(v.connections), v.weight)
  }

  /** `state_rotate90`: a new state with the image turned and the slots rotated. */
  method StateRotate90(state: State, times: int) returns (r: State)
    ensures fresh(r)
    ensures r.Value() == RotateVariant(state.Value(), times)
    ensures r.weight == state.weight && r.connections == Rotate90(state.connections, times)
  {
    r := new State(Rotated(state.img, -times), Rotate90(state.connections, times), state.weight);
  }

  /** `state_xflip`: a new state mirrored across the vertical axis. */
  method StateXFlip(state: State) returns (r: State)
    requires FlipDefined(state.connections)
    ensures fresh(r)
    ensures r.Value() == XFlipVariant(state.Value())
    ensures r.weight == state.weight && r.connections == XFlip(state.connections)
  {
    r := new State(Flipped(state.img, 1), XFlip(state.connections), state.weight);
  }

  /** `state_yflip`: a new state mirrored across the horizontal axis. */
  method StateYFlip(state: State) returns (r: State)
    requires FlipDefined(state.connections)
    ensures fresh(r)
    ensures r.Value() == YFlipVariant(state.Value())
    ensures r.weight == state.weight && r.connections == YFlip(state.connections)
  {
    r := new State(Flipped(state.img, 0), YFlip(state.connections), state.weight);
  }

  // ---------------------------------------------------------------------
  // The catalog and its expansion

  /** One parsed catalog record; the image is the one loaded for `name`. */
  datatype Entry = Entry(
    name: string,
    connections: seq<Connection>,
    weight: real,
    rotate: bool,
    flipX: bool,
    flipY: bool)

  /** The connection records of an entry as a set: duplicate records collapse. */
  function BaseConnections(e: Entry): set<Connection>
  {
    set c | c in e.connections
  }

  function BaseVariant(e: Entry): Variant
  {
    Variant(Loaded(e.name), BaseConnections(e), e.weight)
  }

  /** The entry can be expanded without numpy raising in a flip. */
  predicate EntryDefined(e: Entry)
  {
    (e.flipX || e.flipY) ==> FlipDefined(BaseConnections(e))
  }

  predicate CatalogDefined(catalog: seq<Entry>)
  {
    forall k :: 0 <= k < |catalog| ==> EntryDefined(catalog[k])
  }

  /** The base state of an entry turned by `i` quarter turns (`state_rotate90(state, i)`). */
  function Rotation(e: Entry, i: int): (rot: Variant)
    ensures EntryDefined(e) && (e.flipX || e.flipY) ==> FlipDefined(rot.connections)
  {
    RotateDefined(BaseConnections(e), i);
    RotateVariant(BaseVariant(e), i)
  }

  /** The mirror images an entry asks for of a state, x first, then y. */
  function Mirrors(e: Entry, v: Variant): seq<Variant>
    requires (e.flipX || e.flipY) ==> FlipDefined(v.connections)
  {
    (if e.flipX then [XFlipVariant(v)] else []) + (if e.flipY then [YFlipVariant(v)] else [])
  }

  /** What one pass of the rotation loop computes: a turned state and its mirror images. */
  datatype Turn = Turn(rot: Variant, mirrors: seq<Variant>)

  function TurnOf(e: Entry, i: int): Turn
    requires EntryDefined(e)
  {
    var rot := Rotation(e, i);
    Turn(rot, Mirrors(e, rot))
  }

  /** The passes `i = 1, 2, 3` of the rotation loop. */
  function Turns(e: Entry): seq<Turn>
    requires EntryDefined(e)
  {
    [TurnOf(e, 1), TurnOf(e, 2), TurnOf(e, 3)]
  }

  /** The record after adding the signatures of some states one after another. */
  function Recorded(vs: seq<Variant>, record: set<set<Connection>>): set<set<Connection>>
    decreases |vs|
  {
    if vs == [] then record else Recorded(vs[1..], record + {vs[0].connections})
  }

  /**
    What one pass of the rotation loop adds: the turned state when its
    signature is new, then every mirror image (the loop's membership test of
    a mirror image compares a state against signatures, so it never fails).
  */
  function Step(t: Turn, record: set<set<Connection>>): seq<Variant>
  {
    (if t.rot.connections in record then [] else [t.rot]) + t.mirrors
  }

  /** The signatures recorded after one pass: the turned state's and its mirror images'. */
  function After(t: Turn, record: set<set<Connection>>): set<set<Connection>>
  {
    Recorded(t.mirrors, record + {t.rot.connections})
  }

  /** Recording only ever adds signatures. */
  lemma {:induction false} RecordedGrows(vs: seq<Variant>, record: set<set<Connection>>)
    ensures record <= Recorded(vs, record)
    ensures forall k :: 0 <= k < |vs| ==> vs[k].connections in Recorded(vs, record)
    decreases |vs|
  {
    if vs != [] {
      RecordedGrows(vs[1..], record + {vs[0].connections});
      forall k | 1 <= k < |vs| ensures vs[k].connections in Recorded(vs, record) {
        assert vs[k] == vs[1..][k - 1];
      }
    }
  }

  /** After a pass, the old record, the turned state's signature and its mirror images' are all recorded. */
  lemma AfterGrows(t: Turn, record: set<set<Connection>>)
    ensures record <= After(t, record) && t.rot.connections in After(t, record)
    ensures forall k :: 0 <= k < |t.mirrors| ==> t.mirrors[k].connections in After(t, record)
  {
    RecordedGrows(t.mirrors, record + {t.rot.connections});
  }

  /** The states the rotation loop adds over the given passes, given the signatures recorded so far. */
  function Pass(turns: seq<Turn>, record: set<set<Connection>>): seq<Variant>
    decreases |turns|
  {
    if turns == [] then [] else Step(turns[0], record) + Pass(turns[1..], After(turns[0], record))
  }

  /** The turned states among `Pass` that survive deduplication. */
  function Kept(turns: seq<Turn>, record: set<set<Connection>>): seq<Variant>
    decreases |turns|
  {
    if turns == [] then []
    else
      var t := turns[0];
      var rest := Kept(turns[1..], After(t, record));
      if t.rot.connections in record then rest else [t.rot] + rest
  }

  /** The number of mirror images over the given passes. */
  function MirrorCount(turns: seq<Turn>): nat
    decreases |turns|
  {
    if turns == [] then 0 else |turns[0].mirrors| + MirrorCount(turns[1..])
  }

  /** All states one entry yields, in the order `gen_states` adds them. */
  function EntryVariants(e: Entry): seq<Variant>
    requires EntryDefined(e)
  {
    var base := BaseVariant(e);
    [base]
      + (if e.rotate then Pass(Turns(e), {base.connections}) else [])
      + Mirrors(e, base)
  }

  /** All states a catalog yields, entry after entry. */
  function Expansion(catalog: seq<Entry>): seq<Variant>
    requires CatalogDefined(catalog)
  {
    if catalog == [] then []
    else Expansion(catalog[..|catalog| - 1]) + EntryVariants(catalog[|catalog| - 1])
  }

  function Flag(b: bool): nat
  {
    if b then 1 else 0
  }

  /** Every pass contributes its turned state when kept, plus all its mirror images. */
  lemma {:induction false} PassCount(turns: seq<Turn>, record: set<set<Connection>>)
    ensures |Pass(turns, record)| == |Kept(turns, record)| + MirrorCount(turns)
    ensures |Kept(turns, record)| <= |turns|
    decreases |turns|
  {
    if turns != [] {
      PassCount(turns[1..], After(turns[0], record));
    }
  }

  /**
    A kept state is the turned state of one of the passes, its signature was
    not recorded before, and no two kept states share a signature.
  */
  lemma {:induction false} KeptAreNew(turns: seq<Turn>, record: set<set<Connection>>)
    ensures forall k :: 0 <= k < |Kept(turns, record)| ==>
      Kept(turns, record)[k].connections !in record
    ensures forall k :: 0 <= k < |Kept(turns, record)| ==>
      exists u :: 0 <= u < |turns| && Kept(turns, record)[k] == turns[u].rot
    ensures forall k, l :: 0 <= k < l < |Kept(turns, record)| ==>
      Kept(turns, record)[k].connections != Kept(turns, record)[l].connections
    decreases |turns|
  {
    if turns != [] {
      var t := turns[0];
      var record' := After(t, record);
      AfterGrows(t, record);
      KeptAreNew(turns[1..], record');
      var rest := Kept(turns[1..], record');
      var kept := Kept(turns, record);
      forall k | 0 <= k < |rest|
        ensures rest[k].connections !in record && rest[k].connections != t.rot.connections
        ensures exists u :: 0 <= u < |turns| && rest[k] == turns[u].rot
      {
        assert rest[k].connections !in record';
        var u :| 0 <= u < |turns[1..]| && rest[k] == turns[1..][u].rot;
        assert rest[k] == turns[u + 1].rot;
      }
      if t.rot.connections !in record {
        assert kept == [t.rot] + rest;
        forall k | 0 <= k < |kept|
          ensures kept[k].connections !in record
          ensures exists u :: 0 <= u < |turns| && kept[k] == turns[u].rot
        {
          if k == 0 {
            assert kept[0] == turns[0].rot;
          } else {
            assert kept[k] == rest[k - 1];
          }
        }
        forall k, l | 0 <= k < l < |kept| ensures kept[k].connections != kept[l].connections {
          assert kept[l] == rest[l - 1];
          if k > 0 {
            assert kept[k] == rest[k - 1];
          }
        }
      } else {
        assert kept == rest;
      }
    } else {
      assert Kept(turns, record) == [];
    }
  }

  /** Passes whose turned signatures are all recorded already keep no turned state. */
  lemma {:induction false} AllRecordedKeepsNothing(turns: seq<Turn>, record: set<set<Connection>>)
    requires forall u :: 0 <= u < |turns| ==> turns[u].rot.connections in record
    ensures Kept(turns, record) == []
    decreases |turns|
  {
    if turns != [] {
      var t := turns[0];
      var record' := After(t, record);
      AfterGrows(t, record);
      forall u | 0 <= u < |turns[1..]| ensures turns[1..][u].rot.connections in record' {
        assert turns[1..][u] == turns[u + 1];
      }
      AllRecordedKeepsNothing(turns[1..], record');
    }
  }

  /** Each of the three passes mirrors its turned state once per requested flip. */
  lemma TurnsMirrorCount(e: Entry)
    requires EntryDefined(e)
    ensures |Turns(e)| == 3
    ensures MirrorCount(Turns(e)) == 3 * (Flag(e.flipX) + Flag(e.flipY))
  {
    var turns := Turns(e);
    assert turns[1..][1..][1..] == [];
    assert MirrorCount(turns[1..][1..]) == |turns[2].mirrors|;
    assert MirrorCount(turns[1..]) == |turns[1].mirrors| + |turns[2].mirrors|;
  }

  /**
    The number of states an entry yields: with `rotate`, one base state, the
    turns with a new signature and four states per requested flip; without
    it, the base and one state per requested flip.
  */
  lemma EntryCount(e: Entry)
    requires EntryDefined(e)
    ensures var r := |Kept(Turns(e), {BaseConnections(e)})|;
      r <= 3 &&
      |EntryVariants(e)| == if e.rotate
        then 1 + r + 4 * Flag(e.flipX) + 4 * Flag(e.flipY)
        else 1 + Flag(e.flipX) + Flag(e.flipY)
  {
    PassCount(Turns(e), {BaseConnections(e)});
    TurnsMirrorCount(e);
  }

  /** A set that a quarter turn leaves unchanged is unchanged by every number of quarter turns up to three. */
  lemma QuarterSymmetric(cs: set<Connection>)
    requires Rotate90(cs, 1) == cs
    ensures Rotate90(cs, 2) == cs && Rotate90(cs, 3) == cs
  {
    RotateCompose(cs, 1, 1);
    RotateCompose(cs, 2, 1);
  }

  /**
    When a quarter turn leaves the slots of an entry unchanged, every turned
    state repeats the base signature, so no turned state is kept.
  */
  lemma SymmetricEntry(e: Entry)
    requires EntryDefined(e)
    requires Rotate90(BaseConnections(e), 1) == BaseConnections(e)
    ensures Kept(Turns(e), {BaseConnections(e)}) == []
    ensures e.rotate ==> |EntryVariants(e)| == 1 + 4 * Flag(e.flipX) + 4 * Flag(e.flipY)
  {
    SymmetricTurnsRecorded(e);
    RepeatedTurnsKeepNothing(e);
    if e.rotate {
      NothingKeptCount(e);
    }
  }

  /** Every pass of a quarter-turn-symmetric entry repeats the base signature. */
  lemma SymmetricTurnsRecorded(e: Entry)
    requires EntryDefined(e)
    requires Rotate90(BaseConnections(e), 1) == BaseConnections(e)
    ensures |Turns(e)| == 3
    ensures Turns(e)[0].rot.connections == BaseConnections(e)
    ensures Turns(e)[1].rot.connections == BaseConnections(e)
    ensures Turns(e)[2].rot.connections == BaseConnections(e)
  {
    QuarterSymmetric(BaseConnections(e));
  }

  /** An entry whose three passes all repeat the base signature keeps no turned state. */
  lemma RepeatedTurnsKeepNothing(e: Entry)
    requires EntryDefined(e)
    requires |Turns(e)| == 3
    requires Turns(e)[0].rot.connections == BaseConnections(e)
    requires Turns(e)[1].rot.connections == BaseConnections(e)
    requires Turns(e)[2].rot.connections == BaseConnections(e)
    ensures Kept(Turns(e), {BaseConnections(e)}) == []
  {
    var turns, record := Turns(e), {BaseConnections(e)};
    assert forall u :: 0 <= u < |turns| ==> turns[u].rot.connections in record by {
      forall u | 0 <= u < |turns| ensures turns[u].rot.connections in record {
        assert u == 0 || u == 1 || u == 2;
      }
    }
    AllRecordedKeepsNothing(turns, record);
  }

  /** An entry that keeps no turned state yields its base state and its mirror images only. */
  lemma NothingKeptCount(e: Entry)
    requires EntryDefined(e) && e.rotate
    requires Kept(Turns(e), {BaseConnections(e)}) == []
    ensures |EntryVariants(e)| == 1 + 4 * Flag(e.flipX) + 4 * Flag(e.flipY)
  {
    EntryCount(e);
  }

  // ---------------------------------------------------------------------
  // The expansion loop

  /** The contents of a sequence of states. */
  ghost function Values(order: seq<State>): (r: seq<Variant>)
    ensures |r| == |order|
  {
    if order == [] then [] else Values(order[..|order| - 1]) + [order[|order| - 1].Value()]
  }

  lemma ValuesAppend(order: seq<State>, s: State)
    ensures Values(order + [s]) == Values(order) + [s.Value()]
  {
    assert (order + [s])[..|order|] == order;
  }

  /** Adding a state that is not yet a member keeps the listing exact. */
  method Add(states: set<State>, ghost order: seq<State>, s: State)
    returns (states': set<State>, ghost order': seq<State>)
    requires |order| == |states| && (forall s :: s in states <==> s in order) && s !in states
    ensures |order'| == |states'| && (forall s :: s in states' <==> s in order')
    ensures states' == states + {s} && order' == order + [s]
    ensures Values(order') == Values(order) + [s.Value()]
  {
    ValuesAppend(order, s);
    states', order' := states + {s}, order + [s];
  }

  lemma SeqAssoc<T>(a: seq<T>, b: seq<T>, c: seq<T>, d: seq<T>)
    ensures a + b + c == a + (b + c)
    ensures a + b + c + d == a + (b + (c + d))
  {
  }

  /** Recording the mirror images of a state adds the x image's signature, then the y image's. */
  lemma RecordedMirrors(e: Entry, v: Variant, record: set<set<Connection>>)
    requires (e.flipX || e.flipY) ==> FlipDefined(v.connections)
    ensures var withX := if e.flipX then record + {XFlip(v.connections)} else record;
      Recorded(Mirrors(e, v), record) == if e.flipY then withX + {YFlip(v.connections)} else withX
  {
    var ms := Mirrors(e, v);
    if e.flipX && e.flipY {
      assert ms[1..] == [YFlipVariant(v)];
      assert Recorded(ms[1..], record + {XFlip(v.connections)})
          == Recorded([], record + {XFlip(v.connections)} + {YFlip(v.connections)});
    } else if e.flipX {
      assert ms == [XFlipVariant(v)];
      assert Recorded(ms, record) == Recorded([], record + {XFlip(v.connections)});
    } else if e.flipY {
      assert ms == [YFlipVariant(v)];
      assert Recorded(ms, record) == Recorded([], record + {YFlip(v.connections)});
    }
  }

  /**
    The two flip blocks of `gen_states`, which it writes out once for each
    turned state and once for the base state: the requested mirror images of
    `state` are added, x first, and their signatures recorded. The
    membership tests of these blocks compare a state with a set of
    signatures, so they never fail.
  */
  method AddMirrors(entry: Entry, state: State, states: set<State>, ghost order: seq<State>,
                    connectionsSet: set<set<Connection>>)
    returns (states': set<State>, ghost order': seq<State>, connectionsSet': set<set<Connection>>)
    requires (entry.flipX || entry.flipY) ==> FlipDefined(state.connections)
    requires |order| == |states| && (forall s :: s in states <==> s in order)
    ensures |order'| == |states'| && (forall s :: s in states' <==> s in order') && states <= states'
    ensures Values(order') == Values(order) + Mirrors(entry, state.Value())
    ensures connectionsSet' == Recorded(Mirrors(entry, state.Value()), connectionsSet)
  {
    ghost var v := state.Value();
    states', order', connectionsSet' := states, order, connectionsSet;
    if entry.flipX {
      var stateFlip := StateXFlip(state);
      states', order' := Add(states', order', stateFlip);
      connectionsSet' := connectionsSet' + {stateFlip.connections};
    }
    ghost var mid := Values(order');
    assert mid == Values(order) + (if entry.flipX then [XFlipVariant(v)] else []);
    if entry.flipY {
      var stateFlip := StateYFlip(state);
      states', order' := Add(states', order', stateFlip);
      connectionsSet' := connectionsSet' + {stateFlip.connections};
    }
    assert Values(order') == mid + (if entry.flipY then [YFlipVariant(v)] else []);
    SeqAssoc(Values(order), if entry.flipX then [XFlipVariant(v)] else [],
             if entry.flipY then [YFlipVariant(v)] else [], []);
    RecordedMirrors(entry, v, connectionsSet);
  }

  /**
    One pass of the rotation loop: the base state turned by `i` quarter
    turns is added when its signature is new, then its requested mirror
    images are added.
  */
  method AddTurn(entry: Entry, state: State, i: int, states: set<State>, ghost order: seq<State>,
                 connectionsSet: set<set<Connection>>)
    returns (states': set<State>, ghost order': seq<State>, connectionsSet': set<set<Connection>>)
    requires EntryDefined(entry) && state.Value() == BaseVariant(entry)
    requires |order| == |states| && (forall s :: s in states <==> s in order)
    ensures |order'| == |states'| && (forall s :: s in states' <==> s in order') && states <= states'
    ensures Values(order') == Values(order) + Step(TurnOf(entry, i), connectionsSet)
    ensures connectionsSet' == After(TurnOf(entry, i), connectionsSet)
  {
    ghost var rot := Rotation(entry, i);
    ghost var kept := if rot.connections in connectionsSet then [] else [rot];
    states', order', connectionsSet' := states, order, connectionsSet;
    var stateRot := StateRotate90(state, i);
    assert stateRot.Value() == rot;
    if stateRot.connections !in connectionsSet' {
      states', order' := Add(states', order', stateRot);
      connectionsSet' := connectionsSet' + {stateRot.connections};
    } else {
      assert connectionsSet' == connectionsSet' + {stateRot.connections};
    }
    ghost var mid := Values(order');
    assert mid == Values(order) + kept;
    states', order', connectionsSet' := AddMirrors(entry, stateRot, states', order', connectionsSet');
    SeqAssoc(Values(order), kept, Mirrors(entry, rot), []);
  }

  /**
    The rotation loop of `gen_states` for one entry whose base state is
    `state`: it adds exactly the states `Pass` describes.
  */
  method AddRotations(entry: Entry, state: State, states: set<State>, ghost order: seq<State>,
                      connectionsSet: set<set<Connection>>)
    returns (states': set<State>, ghost order': seq<State>, connectionsSet': set<set<Connection>>)
    requires EntryDefined(entry) && state.Value() == BaseVariant(entry)
    requires |order| == |states| && (forall s :: s in states <==> s in order)
    ensures |order'| == |states'| && (forall s :: s in states' <==> s in order') && states <= states'
    ensures Values(order') == Values(order) + Pass(Turns(entry), connectionsSet)
  {
    ghost var turns := Turns(entry);
    states', order', connectionsSet' := states, order, connectionsSet;
    for i := 1 to 4
      invariant |order'| == |states'| && (forall s :: s in states' <==> s in order') && states <= states'
      invariant Values(order') + Pass(turns[i - 1..], connectionsSet')
             == Values(order) + Pass(turns, connectionsSet)
    {
      assert turns[i - 1] == TurnOf(entry, i);
      assert turns[i - 1..][1..] == turns[i..];
      ghost var before := Values(order');
      ghost var record := connectionsSet';
      states', order', connectionsSet' := AddTurn(entry, state, i, states', order', connectionsSet');
      SeqAssoc(before, Step(turns[i - 1], record), Pass(turns[i..], connectionsSet'), []);
    }
  }

  /**
    One iteration of the catalog loop of `gen_states`: the base state, its
    rotations when `rotate` is set, then its requested mirror images.
  */
  method AddEntry(entry: Entry, states: set<State>, ghost order: seq<State>)
    returns (states': set<State>, ghost order': seq<State>)
    requires EntryDefined(entry)
    requires |order| == |states| && (forall s :: s in states <==> s in order)
    ensures |order'| == |states'| && (forall s :: s in states' <==> s in order') && states <= states'
    ensures Values(order') == Values(order) + EntryVariants(entry)
  {
    ghost var base := BaseVariant(entry);
    ghost var rotations := if entry.rotate then Pass(Turns(entry), {base.connections}) else [];
    var connectionsSet: set<set<Connection>> := {};
    var state := new State(Loaded(entry.name), BaseConnections(entry), entry.weight);
    states', order' := Add(states, order, state);
    connectionsSet := connectionsSet + {state.connections};
    assert state.Value() == base && connectionsSet == {base.connections};
    if entry.rotate {
      states', order', connectionsSet := AddRotations(entry, state, states', order', connectionsSet);
    }
    ghost var mid := Values(order');
    assert mid == Values(order) + [base] + rotations;
    states', order', connectionsSet := AddMirrors(entry, state, states', order', connectionsSet);
    SeqAssoc(Values(order), [base], rotations, []);
    SeqAssoc(Values(order), [base] + rotations, Mirrors(entry, base), []);
  }

  /**
    `gen_states` on an already parsed catalog. `order` lists the returned
    states in the order they were added; their contents are exactly the
    expansion of the catalog, and all of them are distinct objects.
  */
  method GenStates(catalog: seq<Entry>) returns (states: set<State>, ghost order: seq<State>)
    requires CatalogDefined(catalog)
    ensures |states| == |Expansion(catalog)|
    ensures |order| == |states| && forall s :: s in states <==> s in order
    ensures Values(order) == Expansion(catalog)
  {
    states := {};
    order := [];
    for k := 0 to |catalog|
      invariant |order| == |states| && (forall s :: s in states <==> s in order)
      invariant Values(order) == Expansion(catalog[..k])
    {
      assert catalog[..k + 1][..k] == catalog[..k];
      assert EntryDefined(catalog[k]);
      states, order := AddEntry(catalog[k], states, order);
    }
    assert catalog[..|catalog|] == catalog;
  }
}

/**
  The board (grid.py): an `n` by `m` array of tiles over one shared state
  set, with two parallel caches of each tile's entropy and collapsed flag.
  Collapsing a cell sends, for each of its eight slots, the socket of an
  active connection in that slot to the neighbours that border it, under
  the slot label that faces back.
*/
module Grids {
  import opened Options
  import opened States
  import opened Tiles

  /** One row of the fan-out table: the label sent and the offset of the receiving cell. */
  datatype Send = Send(slot: int, di: int, dj: int)

  /** The cells that border slot `d` of a tile and the label each receives. */
  function FanOut(d: int): seq<Send>
    requires 0 <= d < 8
  {
    if d == 0 then [Send(2, 0, -1), Send(4, -1, -1), Send(6, -1, 0)]
    else if d == 1 then [Send(5, -1, 0)]
    else if d == 2 then [Send(4, -1, 0), Send(6, -1, 1), Send(0, 0, 1)]
    else if d == 3 then [Send(7, 0, 1)]
    else if d == 4 then [Send(6, 0, 1), Send(0, 1, 1), Send(2, 1, 0)]
    else if d == 5 then [Send(1, 1, 0)]
    else if d == 6 then [Send(0, 1, 0), Send(2, 1, -1), Send(4, 0, -1)]
    else [Send(3, 0, -1)]
  }

  /** `(u, v)` is one of the eight cells around `(i, j)`. */
  predicate Near(i: int, j: int, u: int, v: int)
  {
    -1 <= u - i <= 1 && -1 <= v - j <= 1 && (u != i || v != j)
  }

  /**
    Corner slots reach three cells and edge slots one; every label is a
    slot, and every receiver is a distinct neighbouring cell.
  */
  lemma FanOutShape(d: int)
    requires 0 <= d < 8
    ensures |FanOut(d)| == if d % 2 == 0 then 3 else 1
    ensures forall k :: 0 <= k < |FanOut(d)| ==>
      0 <= FanOut(d)[k].slot < 8 && Near(0, 0, FanOut(d)[k].di, FanOut(d)[k].dj)
    ensures forall k, l :: 0 <= k < l < |FanOut(d)| ==>
      (FanOut(d)[k].di, FanOut(d)[k].dj) != (FanOut(d)[l].di, FanOut(d)[l].dj)
  {
  }

  /**
    The table is reciprocal: when slot `d` sends label `d'` to offset `δ`,
    slot `d'` sends label `d` to offset `-δ`.
  */
  lemma FanOutReciprocal(d: int, k: int)
    requires 0 <= d < 8 && 0 <= k < |FanOut(d)|
    ensures 0 <= FanOut(d)[k].slot < 8
    ensures Send(d, -FanOut(d)[k].di, -FanOut(d)[k].dj) in FanOut(FanOut(d)[k].slot)
  {
  }

  /**
    What a receiving tile goes through: nothing when the sender has no
    active connection in slot `direction`, otherwise `add_connection` of
    `slot` with the socket of one such connection.
  */
  ghost predicate Delivered(states: set<State>, sender: set<Connection>, direction: int,
                            slot: int, before: TileView, after: TileView)
  {
    if forall c :: c in sender ==> c.value != direction then after == before
    else exists c :: (c in sender && c.value == direction &&
                      after == Added(states, before, Connection(slot, c.id)))
  }

  /** A label on its way to a neighbour: the sender's slot it is read from and the slot it is sent under. */
  datatype Message = Message(direction: int, slot: int)

  /** What the rows `sends` of slot `direction`, in order, send to the cell at offset `(du, dv)`. */
  function RowMessages(sends: seq<Send>, direction: int, du: int, dv: int): seq<Message>
    decreases |sends|
  {
    if sends == [] then []
    else
      var s := sends[|sends| - 1];
      RowMessages(sends[..|sends| - 1], direction, du, dv) +
        (if (s.di, s.dj) == (du, dv) then [Message(direction, s.slot)] else [])
  }

  /** What slots `0` to `d - 1`, in order, send to the cell at offset `(du, dv)`. */
  function Inbox(d: int, du: int, dv: int): seq<Message>
    requires 0 <= d <= 8
    decreases d
  {
    if d == 0 then [] else Inbox(d - 1, du, dv) + RowMessages(FanOut(d - 1), d - 1, du, dv)
  }

  /**
    The socket message `x` carries: none when the sender has no active
    connection in the message's slot, otherwise the socket of one that it has.
  */
  ghost predicate Carries(sender: set<Connection>, x: Message, id: Option<SocketId>)
  {
    (id.None? <==> forall c :: c in sender ==> c.value != x.direction) &&
    (id.Some? ==> Connection(x.direction, id.value) in sender)
  }

  /** A tile after message `x` arrives carrying `id`. */
  function Arrive(states: set<State>, v: TileView, x: Message, id: Option<SocketId>): TileView
  {
    if id.None? then v else Added(states, v, Connection(x.slot, id.value))
  }

  /**
    A tile goes from `before` to `after` by receiving `msgs` one after
    another from a sender whose active connections are `sender`.
  */
  ghost predicate Receives(states: set<State>, sender: set<Connection>, msgs: seq<Message>,
                           before: TileView, after: TileView)
    decreases |msgs|
  {
    if msgs == [] then after == before
    else exists id :: (Carries(sender, msgs[0], id) &&
                       Receives(states, sender, msgs[1..], Arrive(states, before, msgs[0], id), after))
  }

  /** A delivery is the arrival of the message with a socket it may carry. */
  lemma DeliveredArrives(states: set<State>, sender: set<Connection>, x: Message, before: TileView, after: TileView)
    requires Delivered(states, sender, x.direction, x.slot, before, after)
    ensures exists id :: Carries(sender, x, id) && after == Arrive(states, before, x, id)
  {
    if forall c :: c in sender ==> c.value != x.direction {
      assert Carries(sender, x, None);
    } else {
      var c :| c in sender && c.value == x.direction && after == Added(states, before, Connection(x.slot, c.id));
      assert Connection(x.direction, c.id) == c;
      assert Carries(sender, x, Some(c.id));
    }
  }

  /** One more delivery extends a run of messages. */
  lemma {:induction false} ReceivesSnoc(states: set<State>, sender: set<Connection>, msgs: seq<Message>, x: Message,
                                        before: TileView, mid: TileView, after: TileView)
    requires Receives(states, sender, msgs, before, mid)
    requires Delivered(states, sender, x.direction, x.slot, mid, after)
    ensures Receives(states, sender, msgs + [x], before, after)
    decreases |msgs|
  {
    if msgs == [] {
      DeliveredArrives(states, sender, x, mid, after);
      var id :| Carries(sender, x, id) && after == Arrive(states, mid, x, id);
      assert msgs + [x] == [x] && [x][0] == x && [x][1..] == [];
      assert Receives(states, sender, [], Arrive(states, before, x, id), after);
      assert Receives(states, sender, [x], before, after);
    } else {
      var id :| Carries(sender, msgs[0], id) &&
        Receives(states, sender, msgs[1..], Arrive(states, before, msgs[0], id), mid);
      ReceivesSnoc(states, sender, msgs[1..], x, Arrive(states, before, msgs[0], id), mid, after);
      assert (msgs + [x])[0] == msgs[0] && (msgs + [x])[1..] == msgs[1..] + [x];
    }
  }

  /**
    One more row of the fan-out table: the cell it addresses gets one
    delivery, every other cell keeps its view.
  */
  lemma RowStep(states: set<State>, sender: set<Connection>, sends: seq<Send>, k: int, direction: int,
                du: int, dv: int, before: TileView, mid: TileView, after: TileView)
    requires 0 <= k < |sends|
    requires Receives(states, sender, RowMessages(sends[..k], direction, du, dv), before, mid)
    requires (sends[k].di, sends[k].dj) == (du, dv) ==>
      Delivered(states, sender, direction, sends[k].slot, mid, after)
    requires (sends[k].di, sends[k].dj) != (du, dv) ==> after == mid
    ensures Receives(states, sender, RowMessages(sends[..k + 1], direction, du, dv), before, after)
  {
    assert sends[..k + 1][..k] == sends[..k];
    var prefix := RowMessages(sends[..k], direction, du, dv);
    if (sends[k].di, sends[k].dj) == (du, dv) {
      ReceivesSnoc(states, sender, prefix, Message(direction, sends[k].slot), before, mid, after);
    } else {
      assert RowMessages(sends[..k + 1], direction, du, dv) == prefix;
    }
  }

  /** Receiving `a` and then `b` is receiving `a + b`. */
  lemma {:induction false} ReceivesAppend(states: set<State>, sender: set<Connection>,
                                          a: seq<Message>, b: seq<Message>,
                                          x: TileView, y: TileView, z: TileView)
    requires Receives(states, sender, a, x, y) && Receives(states, sender, b, y, z)
    ensures Receives(states, sender, a + b, x, z)
    decreases |a|
  {
    if a == [] {
      assert a + b == b;
    } else {
      var id :| Carries(sender, a[0], id) && Receives(states, sender, a[1..], Arrive(states, x, a[0], id), y);
      ReceivesAppend(states, sender, a[1..], b, Arrive(states, x, a[0], id), y, z);
      assert (a + b)[0] == a[0] && (a + b)[1..] == a[1..] + b;
    }
  }

  /**
    Whatever a tile receives, it stays valid, a collapsed tile stays as it
    is, no state becomes possible again and the entropy does not rise.
  */
  lemma {:induction false} ReceivesEffects(states: set<State>, sender: set<Connection>, msgs: seq<Message>,
                                           before: TileView, after: TileView)
    requires Inv(states, before) && Receives(states, sender, msgs, before, after)
    ensures Inv(states, after)
    ensures before.collapsed ==> after == before
    ensures after.possibleStates <= before.possibleStates
    ensures Le(EntropyOf(states, after), EntropyOf(states, before))
    decreases |msgs|
  {
    if msgs != [] {
      var id :| Carries(sender, msgs[0], id) &&
        Receives(states, sender, msgs[1..], Arrive(states, before, msgs[0], id), after);
      var w := Arrive(states, before, msgs[0], id);
      if id.Some? {
        var c := Connection(msgs[0].slot, id.value);
        AddedInv(states, before, c);
        AddedLowersEntropy(states, before, c);
      }
      ReceivesEffects(states, sender, msgs[1..], w, after);
    }
  }

  /** A row of the table whose receivers all border the sender sends nothing to any other offset. */
  lemma {:induction false} RowMessagesFar(sends: seq<Send>, direction: int, du: int, dv: int)
    requires forall k :: 0 <= k < |sends| ==> Near(0, 0, sends[k].di, sends[k].dj)
    requires !Near(0, 0, du, dv)
    ensures RowMessages(sends, direction, du, dv) == []
    decreases |sends|
  {
    if sends != [] {
      RowMessagesFar(sends[..|sends| - 1], direction, du, dv);
    }
  }

  /** Propagation sends nothing to the sender itself or to a cell that does not border it. */
  lemma {:induction false} InboxFar(d: int, du: int, dv: int)
    requires 0 <= d <= 8
    ensures !Near(0, 0, du, dv) ==> Inbox(d, du, dv) == []
    decreases d
  {
    if d > 0 && !Near(0, 0, du, dv) {
      InboxFar(d - 1, du, dv);
      FanOutShape(d - 1);
      RowMessagesFar(FanOut(d - 1), d - 1, du, dv);
    }
  }

  /** A row of the table sends message `x` to offset `(du, dv)` exactly when one of its rows addresses `x`'s label there. */
  lemma {:induction false} RowMessagesMembers(sends: seq<Send>, direction: int, du: int, dv: int)
    ensures forall x :: x in RowMessages(sends, direction, du, dv) <==>
      x.direction == direction && Send(x.slot, du, dv) in sends
    decreases |sends|
  {
    if sends != [] {
      var init := sends[..|sends| - 1];
      RowMessagesMembers(init, direction, du, dv);
      assert sends == init + [sends[|sends| - 1]];
    }
  }

  /**
    The messages slots `0` to `d - 1` send to offset `(du, dv)`: a label
    from slot `direction` arrives exactly when that slot's row of the
    table addresses the label to that offset.
  */
  lemma {:induction false} InboxMembers(d: int, du: int, dv: int)
    requires 0 <= d <= 8
    ensures forall x :: x in Inbox(d, du, dv) <==>
      0 <= x.direction < d && Send(x.slot, du, dv) in FanOut(x.direction)
    decreases d
  {
    if d > 0 {
      var prev, row := Inbox(d - 1, du, dv), RowMessages(FanOut(d - 1), d - 1, du, dv);
      assert Inbox(d, du, dv) == prev + row;
      InboxMembers(d - 1, du, dv);
      RowMessagesMembers(FanOut(d - 1), d - 1, du, dv);
      forall x
        ensures x in Inbox(d, du, dv) <==> 0 <= x.direction < d && Send(x.slot, du, dv) in FanOut(x.direction)
      {
        assert x in Inbox(d, du, dv) <==> x in prev || x in row;
      }
    }
  }

  /** The messages a row of three sends to one offset: those rows that address it, in order. */
  lemma RowMessagesThree(a: Send, b: Send, c: Send, direction: int, du: int, dv: int)
    ensures RowMessages([a, b, c], direction, du, dv) ==
      (if (a.di, a.dj) == (du, dv) then [Message(direction, a.slot)] else []) +
      (if (b.di, b.dj) == (du, dv) then [Message(direction, b.slot)] else []) +
      (if (c.di, c.dj) == (du, dv) then [Message(direction, c.slot)] else [])
  {
    assert [a, b, c][..2] == [a, b] && [a, b][..1] == [a] && [a][..0] == [];
    assert RowMessages([a], direction, du, dv) ==
      (if (a.di, a.dj) == (du, dv) then [Message(direction, a.slot)] else []);
    assert RowMessages([a, b], direction, du, dv) ==
      RowMessages([a], direction, du, dv) +
      (if (b.di, b.dj) == (du, dv) then [Message(direction, b.slot)] else []);
  }

  /** The cell east of the sender gets label 0 from slot 2, label 7 from slot 3 and label 6 from slot 4, in that order. */
  lemma InboxEast()
    ensures Inbox(8, 0, 1) == [Message(2, 0), Message(3, 7), Message(4, 6)]
  {
    RowMessagesThree(Send(2, 0, -1), Send(4, -1, -1), Send(6, -1, 0), 0, 0, 1);
    assert Inbox(2, 0, 1) == [];
    RowMessagesThree(Send(4, -1, 0), Send(6, -1, 1), Send(0, 0, 1), 2, 0, 1);
    assert Inbox(4, 0, 1) == [Message(2, 0), Message(3, 7)];
    RowMessagesThree(Send(6, 0, 1), Send(0, 1, 1), Send(2, 1, 0), 4, 0, 1);
    RowMessagesThree(Send(0, 1, 0), Send(2, 1, -1), Send(4, 0, -1), 6, 0, 1);
    assert Inbox(6, 0, 1) == [Message(2, 0), Message(3, 7), Message(4, 6)];
    assert Inbox(7, 0, 1) == Inbox(6, 0, 1);
  }

  /** The delivery of what `get_connection(direction)` returned. */
  lemma DeliveredBy(states: set<State>, sender: set<Connection>, direction: int, slot: int,
                    connection: Option<Connection>, before: TileView, after: TileView)
    requires connection.None? <==> forall c :: c in sender ==> c.value != direction
    requires connection.Some? ==> connection.value in sender && connection.value.value == direction
    requires connection.None? ==> after == before
    requires connection.Some? ==> after == Added(states, before, Connection(slot, connection.value.id))
    ensures Delivered(states, sender, direction, slot, before, after)
  {
  }

  /** A snapshot of a board: the view of the tile in each cell. */
  type Board = map<(int, int), TileView>

  /**
    One row of a delivery: cell `(i, j)`, whose active connections are
    `sender`, sends slot `direction` along row `s`, and `chosen` is the
    connection it picked for that slot, if any.
  */
  datatype Transfer = Transfer(sender: set<Connection>, direction: int, s: Send, i: int, j: int,
                               chosen: Option<Connection>)
  {
    /** The connection the receiver is given: the chosen socket, in the row's slot. */
    function Sent(): Option<Connection>
    {
      if chosen.Some? then Some(Connection(s.slot, chosen.value.id)) else None
    }
  }

  /**
    Row `s` of slot `direction`, sent from `(i, j)`: the cell at offset
    `(s.di, s.dj)`, when it is on the board, gets one delivery, and every
    other cell keeps its view.
  */
  ghost predicate Arrived(states: set<State>, sender: set<Connection>, direction: int, s: Send,
                          i: int, j: int, before: Board, after: Board)
  {
    after.Keys == before.Keys &&
    (forall u, v :: (u, v) in before && (u, v) != (i + s.di, j + s.dj) ==> after[(u, v)] == before[(u, v)]) &&
    ((i + s.di, j + s.dj) in before ==>
       Delivered(states, sender, direction, s.slot, before[(i + s.di, j + s.dj)], after[(i + s.di, j + s.dj)]))
  }

  /** A row whose receiver is off the board changes nothing. */
  lemma ArrivedOffBoard(states: set<State>, sender: set<Connection>, direction: int, s: Send,
                        i: int, j: int, b: Board)
    requires (i + s.di, j + s.dj) !in b
    ensures Arrived(states, sender, direction, s, i, j, b, b)
  {
  }

  /** Every cell has received, in order, what the rows `sends` of slot `direction` address to its offset from `(i, j)`. */
  ghost predicate RowsArrived(states: set<State>, sender: set<Connection>, direction: int, sends: seq<Send>,
                              i: int, j: int, before: Board, after: Board)
  {
    after.Keys == before.Keys &&
    forall u, v {:trigger RowsReached(states, sender, direction, sends, i, j, before, after, u, v)} ::
      RowsReached(states, sender, direction, sends, i, j, before, after, u, v)
  }

  /** Cell `(u, v)`, when on the board, has received what the rows `sends` address to its offset. */
  ghost predicate RowsReached(states: set<State>, sender: set<Connection>, direction: int, sends: seq<Send>,
                              i: int, j: int, before: Board, after: Board, u: int, v: int)
  {
    (u, v) in before && (u, v) in after ==>
      Receives(states, sender, RowMessages(sends, direction, u - i, v - j), before[(u, v)], after[(u, v)])
  }

  /** Cell `(u, v)`, when on the board, has received what slots `0` to `d - 1` of `(i, j)` send to its offset. */
  ghost predicate InboxReached(states: set<State>, sender: set<Connection>, d: int,
                               i: int, j: int, before: Board, after: Board, u: int, v: int)
    requires 0 <= d <= 8
  {
    (u, v) in before && (u, v) in after ==>
      Receives(states, sender, Inbox(d, u - i, v - j), before[(u, v)], after[(u, v)])
  }

  /** Every cell has received, in order, what slots `0` to `d - 1` of `(i, j)` send to its offset. */
  ghost predicate InboxArrived(states: set<State>, sender: set<Connection>, d: int,
                               i: int, j: int, before: Board, after: Board)
    requires 0 <= d <= 8
  {
    after.Keys == before.Keys &&
    forall u, v {:trigger InboxReached(states, sender, d, i, j, before, after, u, v)} ::
      InboxReached(states, sender, d, i, j, before, after, u, v)
  }

  /** Before the first row, nothing has arrived. */
  lemma RowsStart(states: set<State>, sender: set<Connection>, direction: int, sends: seq<Send>,
                  i: int, j: int, b: Board)
    ensures RowsArrived(states, sender, direction, sends[..0], i, j, b, b)
  {
    var none := sends[..0];
    assert none == [];
    forall u, v
      ensures RowsReached(states, sender, direction, none, i, j, b, b, u, v)
    {
    }
  }

  /** Before the first slot, nothing has arrived. */
  lemma InboxStart(states: set<State>, sender: set<Connection>, i: int, j: int, b: Board)
    ensures InboxArrived(states, sender, 0, i, j, b, b)
  {
    forall u, v
      ensures InboxReached(states, sender, 0, i, j, b, b, u, v)
    {
      assert Inbox(0, u - i, v - j) == [];
    }
  }

  /** What has arrived at one cell. */
  lemma InboxAt(states: set<State>, sender: set<Connection>, d: int, i: int, j: int,
                start: Board, after: Board, u: int, v: int)
    requires 0 <= d <= 8 && InboxArrived(states, sender, d, i, j, start, after) && (u, v) in start
    ensures Receives(states, sender, Inbox(d, u - i, v - j), start[(u, v)], after[(u, v)])
  {
    assert InboxReached(states, sender, d, i, j, start, after, u, v);
  }

  /**
    A cell `(u, v)` that has received `msgs` from `(i, j)`, none of them
    if it does not border the sender: it is then as it was, and in any
    case it stays valid, keeps its view when collapsed, regains no state
    and gains no entropy.
  */
  lemma CellReceived(states: set<State>, sender: set<Connection>, i: int, j: int, u: int, v: int,
                     msgs: seq<Message>, before: TileView, after: TileView)
    requires Inv(states, before) && Receives(states, sender, msgs, before, after)
    requires !Near(0, 0, u - i, v - j) ==> msgs == []
    ensures Inv(states, after)
    ensures !Near(i, j, u, v) ==> after == before
    ensures before.collapsed ==> after == before
    ensures after.possibleStates <= before.possibleStates
    ensures Le(EntropyOf(states, after), EntropyOf(states, before))
  {
    ReceivesEffects(states, sender, msgs, before, after);
  }

  /**
    After slots `0` to `d - 1`, a cell has received its `Inbox`: a cell
    that does not border the sender is as it was, and every cell stays
    valid, keeps its view when collapsed, regains no state and gains no
    entropy.
  */
  lemma CellPropagated(states: set<State>, sender: set<Connection>, i: int, j: int,
                       start: Board, after: Board, d: int, u: int, v: int)
    requires 0 <= d <= 8 && InboxArrived(states, sender, d, i, j, start, after)
    requires (u, v) in start && Inv(states, start[(u, v)])
    ensures Receives(states, sender, Inbox(d, u - i, v - j), start[(u, v)], after[(u, v)])
    ensures Inv(states, after[(u, v)])
    ensures !Near(i, j, u, v) ==> after[(u, v)] == start[(u, v)]
    ensures start[(u, v)].collapsed ==> after[(u, v)] == start[(u, v)]
    ensures after[(u, v)].possibleStates <= start[(u, v)].possibleStates
    ensures Le(EntropyOf(states, after[(u, v)]), EntropyOf(states, start[(u, v)]))
  {
    InboxAt(states, sender, d, i, j, start, after, u, v);
    InboxFar(d, u - i, v - j);
    CellReceived(states, sender, i, j, u, v, Inbox(d, u - i, v - j), start[(u, v)], after[(u, v)]);
  }

  /** One more row extends what has arrived at every cell. */
  lemma RowsStep(states: set<State>, sender: set<Connection>, direction: int, sends: seq<Send>, k: int,
                 i: int, j: int, start: Board, mid: Board, after: Board)
    requires 0 <= k < |sends|
    requires RowsArrived(states, sender, direction, sends[..k], i, j, start, mid)
    requires Arrived(states, sender, direction, sends[k], i, j, mid, after)
    ensures RowsArrived(states, sender, direction, sends[..k + 1], i, j, start, after)
  {
    var next := sends[..k + 1];
    forall u, v
      ensures RowsReached(states, sender, direction, next, i, j, start, after, u, v)
    {
      if (u, v) in start && (u, v) in after {
        assert RowsReached(states, sender, direction, sends[..k], i, j, start, mid, u, v);
        RowStep(states, sender, sends, k, direction, u - i, v - j, start[(u, v)], mid[(u, v)], after[(u, v)]);
      }
    }
  }

  /** One more slot extends what has arrived at every cell. */
  lemma InboxStep(states: set<State>, sender: set<Connection>, d: int,
                  i: int, j: int, start: Board, mid: Board, after: Board)
    requires 0 <= d < 8
    requires InboxArrived(states, sender, d, i, j, start, mid)
    requires RowsArrived(states, sender, d, FanOut(d), i, j, mid, after)
    ensures InboxArrived(states, sender, d + 1, i, j, start, after)
  {
    var next := d + 1;
    forall u, v
      ensures InboxReached(states, sender, next, i, j, start, after, u, v)
    {
      if (u, v) in start && (u, v) in after {
        assert InboxReached(states, sender, d, i, j, start, mid, u, v);
        assert RowsReached(states, sender, d, FanOut(d), i, j, mid, after, u, v);
        ReceivesAppend(states, sender, Inbox(d, u - i, v - j), RowMessages(FanOut(d), d, u - i, v - j),
                       start[(u, v)], mid[(u, v)], after[(u, v)]);
      }
    }
  }

  /** The cells of an `n` by `m` board. */
  function Cells(n: int, m: int): set<(int, int)>
  {
    set u, v | 0 <= u < n && 0 <= v < m :: (u, v)
  }

  class Grid {
    const n: int
    const m: int
    const states: set<State>
    const grid: array2<Tile>
    const entropy: array2<ExtReal>
    const collapsed: array2<bool>
    /** Where each tile sits: tiles of different cells are different objects. */
    ghost const Pos: map<Tile, (int, int)>

    ghost predicate Shaped()
      reads this
    {
      grid.Length0 == n && grid.Length1 == m &&
      entropy.Length0 == n && entropy.Length1 == m &&
      collapsed.Length0 == n && collapsed.Length1 == m
    }

    /** The tile at `(u, v)` is valid over the shared states and both caches agree with it. */
    ghost predicate CellValid(u: int, v: int)
      requires Shaped() && 0 <= u < n && 0 <= v < m
      reads this, grid, entropy, collapsed, grid[u, v]
    {
      var t := grid[u, v];
      t.states == states && t.Valid() &&
      entropy[u, v] == EntropyOf(states, t.View()) &&
      collapsed[u, v] == t.collapsed
    }

    ghost predicate Valid()
      reads this, grid, entropy, collapsed, Pos.Keys
    {
      Shaped() &&
      (forall u, v :: 0 <= u < n && 0 <= v < m ==> grid[u, v] in Pos && Pos[grid[u, v]] == (u, v)) &&
      (forall u, v {:trigger CellValid(u, v)} :: 0 <= u < n && 0 <= v < m ==> CellValid(u, v))
    }

    /** A snapshot of the board. */
    ghost function Views(): (r: Board)
      requires Shaped()
      reads this, grid, set u, v | 0 <= u < n && 0 <= v < m :: grid[u, v]
      ensures r.Keys == Cells(n, m)
      ensures forall u, v :: 0 <= u < n && 0 <= v < m ==> r[(u, v)] == grid[u, v].View()
    {
      map p | p in Cells(n, m) :: grid[p.0, p.1].View()
    }

    /** The cells whose collapsed flag is set. */
    ghost function CollapsedCells(): set<(int, int)>
      reads collapsed
    {
      set u, v | 0 <= u < collapsed.Length0 && 0 <= v < collapsed.Length1 && collapsed[u, v] :: (u, v)
    }

    ghost predicate AllCollapsed()
      reads this, collapsed
      requires Shaped()
    {
      forall u, v :: 0 <= u < n && 0 <= v < m ==> collapsed[u, v]
    }

    /**
      A board of fresh tiles over `states`; every entropy is `inf` and no
      cell is collapsed.
    */
    constructor (n: int, m: int, states: set<State>)
      requires 0 <= n && 0 <= m
      requires PositiveWeights(states)
      ensures this.n == n && this.m == m && this.states == states
      ensures Valid()
      ensures fresh(grid) && fresh(entropy) && fresh(collapsed)
      ensures forall u, v :: 0 <= u < n && 0 <= v < m ==>
        fresh(grid[u, v]) && grid[u, v].View() == Initial(states) &&
        entropy[u, v] == Infinity && !collapsed[u, v]
    {
      var rows, pos := NewTiles(n, m, states);
      this.n := n;
      this.m := m;
      this.states := states;
      grid := new Tile[n, m]((i, j) requires 0 <= i < n && 0 <= j < m => rows[i][j]);
      entropy := new ExtReal[n, m]((i, j) => Infinity);
      collapsed := new bool[n, m]((i, j) => false);
      Pos := pos;
      InitialInv(states);
    }

    /**
      Collapses cell `(i, j)` (onto `state`, or onto one of its possible
      states), refreshes its caches and propagates to its neighbours.
    */
    method Collapse(i: int, j: int, state: Option<State>)
      requires Valid() && 0 <= i < n && 0 <= j < m
      requires state.None? && grid[i, j].possibleConnections != {} ==> grid[i, j].possibleStates != {}
      modifies Pos.Keys, entropy, collapsed
      ensures Valid()
      ensures grid[i, j].collapsed && collapsed[i, j] && entropy[i, j] == Finite(0.0)
      ensures state.Some? ==> grid[i, j].View() == Picked(state.value)
      ensures state.None? && old(grid[i, j].possibleConnections) == {} ==>
        grid[i, j].View() == old(grid[i, j].View()).(collapsed := true)
      ensures state.None? && old(grid[i, j].possibleConnections) != {} ==>
        exists s :: s in old(grid[i, j].possibleStates) && grid[i, j].View() == Picked(s)
      ensures forall u, v :: 0 <= u < n && 0 <= v < m && !Near(i, j, u, v) && (u, v) != (i, j) ==>
        grid[u, v].View() == old(grid[u, v].View()) &&
        entropy[u, v] == old(entropy[u, v]) && collapsed[u, v] == old(collapsed[u, v])
      ensures forall u, v :: 0 <= u < n && 0 <= v < m && old(collapsed[u, v]) ==> collapsed[u, v]
      ensures forall u, v :: 0 <= u < n && 0 <= v < m && (u, v) != (i, j) ==>
        Receives(states, grid[i, j].activeConnections, Inbox(8, u - i, v - j),
                 old(grid[u, v].View()), grid[u, v].View())
    {
      CollapseCell(i, j, state);
      label Propagate:
      UpdateNeighbours(i, j);
      forall u, v | 0 <= u < n && 0 <= v < m && (u, v) != (i, j)
        ensures Receives(states, grid[i, j].activeConnections, Inbox(8, u - i, v - j),
                         old(grid[u, v].View()), grid[u, v].View())
      {
        assert old@Propagate(grid[u, v].View()) == old(grid[u, v].View());
      }
      forall u, v | 0 <= u < n && 0 <= v < m && old(collapsed[u, v])
        ensures collapsed[u, v]
      {
        assert old(CellValid(u, v));
        assert old@Propagate(CellValid(u, v));
        assert CellValid(u, v);
      }
    }

    /** The first half of `collapse`: the tile at `(i, j)` collapses and its caches are refreshed. */
    method CollapseCell(i: int, j: int, state: Option<State>)
      requires Valid() && 0 <= i < n && 0 <= j < m
      requires state.None? && grid[i, j].possibleConnections != {} ==> grid[i, j].possibleStates != {}
      modifies grid[i, j], entropy, collapsed
      ensures Valid()
      ensures grid[i, j].collapsed && collapsed[i, j] && entropy[i, j] == Finite(0.0)
      ensures state.Some? ==> grid[i, j].View() == Picked(state.value)
      ensures state.None? && old(grid[i, j].possibleConnections) == {} ==>
        grid[i, j].View() == old(grid[i, j].View()).(collapsed := true)
      ensures state.None? && old(grid[i, j].possibleConnections) != {} ==>
        exists s :: s in old(grid[i, j].possibleStates) && grid[i, j].View() == Picked(s)
      ensures forall u, v :: 0 <= u < n && 0 <= v < m && (u, v) != (i, j) ==>
        grid[u, v].View() == old(grid[u, v].View()) &&
        entropy[u, v] == old(entropy[u, v]) && collapsed[u, v] == old(collapsed[u, v])
    {
      var tile := grid[i, j];
      assert CellValid(i, j);
      tile.Collapse(state);
      forall p, q | 0 <= p < n && 0 <= q < m && (p, q) != (i, j)
        ensures grid[p, q] != tile && CellValid(p, q)
      {
        assert Pos[grid[p, q]] == (p, q);
        assert old(CellValid(p, q));
      }
      Refresh(i, j);
      assert CellValid(i, j);
      EntropyRange(states, tile.View());
    }

    /** Every cell but `(u, v)` is valid, and the tile at `(u, v)` is, though its caches may be stale. */
    ghost predicate ValidExcept(u: int, v: int)
      reads this, grid, entropy, collapsed, Pos.Keys
    {
      Shaped() && 0 <= u < n && 0 <= v < m &&
      (forall p, q :: 0 <= p < n && 0 <= q < m ==> grid[p, q] in Pos && Pos[grid[p, q]] == (p, q)) &&
      (forall p, q {:trigger CellValid(p, q)} :: 0 <= p < n && 0 <= q < m && (p, q) != (u, v) ==> CellValid(p, q)) &&
      grid[u, v].states == states && grid[u, v].Valid()
    }

    /** Copies the entropy and the collapsed flag of tile `(u, v)` into the caches. */
    method Refresh(u: int, v: int)
      requires ValidExcept(u, v)
      modifies entropy, collapsed
      ensures Valid()
      ensures forall p, q :: 0 <= p < n && 0 <= q < m && (p, q) != (u, v) ==>
        entropy[p, q] == old(entropy[p, q]) && collapsed[p, q] == old(collapsed[p, q])
    {
      var e := grid[u, v].Entropy();
      entropy[u, v] := e;
      collapsed[u, v] := grid[u, v].collapsed;
      assert CellValid(u, v);
      forall p, q | 0 <= p < n && 0 <= q < m && (p, q) != (u, v)
        ensures CellValid(p, q)
      {
        assert old(CellValid(p, q));
      }
    }

    /**
      Imposes `connection` (when there is one) on tile `(u, v)` and
      refreshes its caches; no other cell changes.
    */
    method Receive(u: int, v: int, connection: Option<Connection>)
      requires Valid() && 0 <= u < n && 0 <= v < m
      modifies grid[u, v], entropy, collapsed
      ensures Valid()
      ensures forall p, q :: 0 <= p < n && 0 <= q < m && (p, q) != (u, v) ==>
        grid[p, q].View() == old(grid[p, q].View()) &&
        entropy[p, q] == old(entropy[p, q]) && collapsed[p, q] == old(collapsed[p, q])
      ensures connection.None? ==> grid[u, v].View() == old(grid[u, v].View())
      ensures connection.Some? ==>
        grid[u, v].View() == Added(states, old(grid[u, v].View()), connection.value)
      ensures grid[u, v].possibleStates <= old(grid[u, v].possibleStates)
      ensures Le(entropy[u, v], old(entropy[u, v]))
    {
      var target := grid[u, v];
      assert CellValid(u, v);
      ghost var before := target.View();
      if connection.Some? {
        target.AddConnection(connection.value);
        AddedLowersEntropy(states, before, connection.value);
      }
      forall p, q | 0 <= p < n && 0 <= q < m && (p, q) != (u, v)
        ensures grid[p, q] != target && CellValid(p, q)
      {
        assert Pos[grid[p, q]] == (p, q);
        assert old(CellValid(p, q));
      }
      Refresh(u, v);
      assert CellValid(u, v);
    }

    /**
      Sends slot `direction` of cell `(i, j)` along one row of the fan-out
      table: an out-of-board receiver is skipped; an in-board one gets the
      socket of an active connection in that slot, if there is one, and has
      both caches refreshed.
    */
    method Deliver(i: int, j: int, direction: int, s: Send)
      requires Valid() && 0 <= i < n && 0 <= j < m && Near(0, 0, s.di, s.dj)
      modifies Pos.Keys, entropy, collapsed
      ensures Valid()
      ensures grid[i, j].View() == old(grid[i, j].View())
      ensures Arrived(states, old(grid[i, j].activeConnections), direction, s, i, j, old(Views()), Views())
    {
      ghost var before := Views();
      var u, v := i + s.di, j + s.dj;
      CellsMember((u, v), n, m);
      if u < 0 || n <= u {
        ArrivedOffBoard(states, grid[i, j].activeConnections, direction, s, i, j, before);
        return;
      }
      if v < 0 || m <= v {
        ArrivedOffBoard(states, grid[i, j].activeConnections, direction, s, i, j, before);
        return;
      }
      Transmit(i, j, direction, s);
    }

    /** The in-board case of `Deliver`. */
    method Transmit(i: int, j: int, direction: int, s: Send)
      requires Valid() && 0 <= i < n && 0 <= j < m && Near(0, 0, s.di, s.dj)
      requires 0 <= i + s.di < n && 0 <= j + s.dj < m
      modifies Pos.Keys, entropy, collapsed
      ensures Valid()
      ensures grid[i, j].View() == old(grid[i, j].View())
      ensures Arrived(states, old(grid[i, j].activeConnections), direction, s, i, j, old(Views()), Views())
    {
      var tile := grid[i, j];
      var connection := tile.GetConnection(direction);
      var t := Transfer(tile.activeConnections, direction, s, i, j, connection);
      assert Pos[grid[t.i + t.s.di, t.j + t.s.dj]] == (t.i + t.s.di, t.j + t.s.dj) && Pos[tile] == (i, j);
      Receive(t.i + t.s.di, t.j + t.s.dj, t.Sent());
      Landed(t);
    }

    /**
      The snapshot after transfer `t`: its receiver got what the sender's
      chosen connection carries, and no other cell changed.
    */
    twostate lemma Landed(t: Transfer)
      requires Shaped() && 0 <= t.i + t.s.di < n && 0 <= t.j + t.s.dj < m
      requires t.chosen.None? <==> forall c :: c in t.sender ==> c.value != t.direction
      requires t.chosen.Some? ==> t.chosen.value in t.sender && t.chosen.value.value == t.direction
      requires forall p, q :: 0 <= p < n && 0 <= q < m && (p, q) != (t.i + t.s.di, t.j + t.s.dj) ==>
        grid[p, q].View() == old(grid[p, q].View())
      requires t.Sent().None? ==>
        grid[t.i + t.s.di, t.j + t.s.dj].View() == old(grid[t.i + t.s.di, t.j + t.s.dj].View())
      requires t.Sent().Some? ==>
        grid[t.i + t.s.di, t.j + t.s.dj].View() ==
        Added(states, old(grid[t.i + t.s.di, t.j + t.s.dj].View()), t.Sent().value)
      ensures Arrived(states, t.sender, t.direction, t.s, t.i, t.j, old(Views()), Views())
    {
      var u, v := t.i + t.s.di, t.j + t.s.dj;
      forall p, q | (p, q) in old(Views()) && (p, q) != (u, v)
        ensures Views()[(p, q)] == old(Views())[(p, q)]
      {
        CellsMember((p, q), n, m);
      }
      DeliveredBy(states, t.sender, t.direction, t.s.slot, t.chosen, old(Views())[(u, v)], Views()[(u, v)]);
    }

    /**
      Sends slot `direction` of cell `(i, j)` along the rows `sends`, in
      order: every cell receives the messages the rows address to its
      offset, and the sender does not change.
    */
    method SendRows(i: int, j: int, direction: int, sends: seq<Send>)
      requires Valid() && 0 <= i < n && 0 <= j < m
      requires forall k :: 0 <= k < |sends| ==> Near(0, 0, sends[k].di, sends[k].dj)
      modifies Pos.Keys, entropy, collapsed
      ensures Valid()
      ensures grid[i, j].View() == old(grid[i, j].View())
      ensures RowsArrived(states, old(grid[i, j].activeConnections), direction, sends, i, j, old(Views()), Views())
    {
      ghost var sender, start := grid[i, j].activeConnections, Views();
      RowsStart(states, sender, direction, sends, i, j, start);
      for k := 0 to |sends|
        invariant Valid()
        invariant grid[i, j].View() == old(grid[i, j].View())
        invariant RowsArrived(states, sender, direction, sends[..k], i, j, start, Views())
      {
        var s := sends[k];
        assert Near(0, 0, s.di, s.dj);
        ghost var mid := Views();
        Deliver(i, j, direction, s);
        RowsStep(states, sender, direction, sends, k, i, j, start, mid, Views());
      }
      assert sends[..|sends|] == sends;
    }

    /** Sends slot `direction` of cell `(i, j)` along its row of the fan-out table. */
    method SendSlot(i: int, j: int, direction: int)
      requires Valid() && 0 <= i < n && 0 <= j < m && 0 <= direction < 8
      modifies Pos.Keys, entropy, collapsed
      ensures Valid()
      ensures grid[i, j].View() == old(grid[i, j].View())
      ensures RowsArrived(states, old(grid[i, j].activeConnections), direction, FanOut(direction),
                          i, j, old(Views()), Views())
    {
      FanOutShape(direction);
      SendRows(i, j, direction, FanOut(direction));
    }

    /**
      `_update_neighbours`: the eight slots of `(i, j)` are sent in order.
      Every cell receives its `Inbox`: only in-board cells around `(i, j)`
      change, collapsed tiles stay as they are, no tile regains a state and
      no entropy rises.
    */
    method UpdateNeighbours(i: int, j: int)
      requires Valid() && 0 <= i < n && 0 <= j < m
      modifies Pos.Keys, entropy, collapsed
      ensures Valid()
      ensures grid[i, j].View() == old(grid[i, j].View())
      ensures forall u, v :: 0 <= u < n && 0 <= v < m ==>
        Receives(states, old(grid[i, j].activeConnections), Inbox(8, u - i, v - j),
                 old(grid[u, v].View()), grid[u, v].View())
      ensures forall u, v :: 0 <= u < n && 0 <= v < m && !Near(i, j, u, v) ==>
        grid[u, v].View() == old(grid[u, v].View()) &&
        entropy[u, v] == old(entropy[u, v]) && collapsed[u, v] == old(collapsed[u, v])
      ensures forall u, v :: 0 <= u < n && 0 <= v < m ==>
        (old(grid[u, v].collapsed) ==> grid[u, v].View() == old(grid[u, v].View())) &&
        grid[u, v].possibleStates <= old(grid[u, v].possibleStates) &&
        Le(entropy[u, v], old(entropy[u, v]))
    {
      ghost var sender, start := grid[i, j].activeConnections, Views();
      InboxStart(states, sender, i, j, start);
      for direction := 0 to 8
        invariant Valid()
        invariant grid[i, j].View() == old(grid[i, j].View())
        invariant InboxArrived(states, sender, direction, i, j, start, Views())
      {
        ghost var mid := Views();
        SendSlot(i, j, direction);
        InboxStep(states, sender, direction, i, j, start, mid, Views());
      }
      forall u, v | 0 <= u < n && 0 <= v < m
        ensures Receives(states, sender, Inbox(8, u - i, v - j), old(grid[u, v].View()), grid[u, v].View())
        ensures !Near(i, j, u, v) ==>
          grid[u, v].View() == old(grid[u, v].View()) &&
          entropy[u, v] == old(entropy[u, v]) && collapsed[u, v] == old(collapsed[u, v])
        ensures (old(grid[u, v].collapsed) ==> grid[u, v].View() == old(grid[u, v].View())) &&
          grid[u, v].possibleStates <= old(grid[u, v].possibleStates) &&
          Le(entropy[u, v], old(entropy[u, v]))
      {
        assert CellValid(u, v);
        assert old(CellValid(u, v));
        assert (u, v) in start && start[(u, v)] == old(grid[u, v].View());
        assert Views()[(u, v)] == grid[u, v].View();
        CellPropagated(states, sender, i, j, start, Views(), 8, u, v);
      }
    }

    /**
      `None` exactly when every cell is collapsed; otherwise a cell of
      minimum entropy among the uncollapsed ones. Ties are looked up over
      the whole board, collapsed cells included, but a collapsed cell has
      entropy 0 and an uncollapsed one does not, so the cell returned is
      uncollapsed.
    */
    method MinimumEntropy() returns (r: Option<(int, int)>)
      requires Valid()
      ensures r.None? <==> AllCollapsed()
      ensures r.Some? ==>
        var (u, v) := r.value;
        0 <= u < n && 0 <= v < m && !collapsed[u, v] &&
        forall p, q :: 0 <= p < n && 0 <= q < m && !collapsed[p, q] ==> Le(entropy[u, v], entropy[p, q])
    {
      if forall u, v | 0 <= u < n && 0 <= v < m :: collapsed[u, v] {
        return None;
      }
      var selection := Infinity;
      for u := 0 to n
        invariant forall p, q :: 0 <= p < u && 0 <= q < m && !collapsed[p, q] ==> Le(selection, entropy[p, q])
        invariant selection.Finite? ==>
          exists p, q :: 0 <= p < u && 0 <= q < m && !collapsed[p, q] && entropy[p, q] == selection
      {
        for v := 0 to m
          invariant forall p, q :: 0 <= p < u && 0 <= q < m && !collapsed[p, q] ==> Le(selection, entropy[p, q])
          invariant forall q :: 0 <= q < v && !collapsed[u, q] ==> Le(selection, entropy[u, q])
          invariant selection.Finite? ==>
            exists p, q :: 0 <= p <= u && 0 <= q < m && !collapsed[p, q] && entropy[p, q] == selection
        {
          if !collapsed[u, v] && !Le(selection, entropy[u, v]) {
            selection := entropy[u, v];
          }
        }
      }
      var ties := set p, q | 0 <= p < n && 0 <= q < m && entropy[p, q] == selection :: (p, q);
      var p1, q1 :| 0 <= p1 < n && 0 <= q1 < m && !collapsed[p1, q1] && entropy[p1, q1] == selection;
      assert (p1, q1) in ties;
      var cell :| cell in ties;
      var (u, v) := cell;
      assert CellValid(u, v) && CellValid(p1, q1);
      EntropyRange(states, grid[p1, q1].View());
      EntropyRange(states, grid[u, v].View());
      r := Some(cell);
    }

    /**
      One step of the solver: `false` when every cell is collapsed,
      otherwise collapses a cell of minimum entropy, which strictly grows
      the set of collapsed cells.
    */
    method Logic() returns (progress: bool)
      requires Valid()
      modifies Pos.Keys, entropy, collapsed
      ensures Valid()
      ensures progress <==> !old(AllCollapsed())
      ensures !progress ==> AllCollapsed()
      ensures old(CollapsedCells()) <= CollapsedCells()
      ensures progress ==> old(CollapsedCells()) < CollapsedCells()
      ensures progress ==> exists i, j ::
        0 <= i < n && 0 <= j < m && !old(collapsed[i, j]) && collapsed[i, j] &&
        forall p, q :: 0 <= p < n && 0 <= q < m && !old(collapsed[p, q]) ==>
          Le(old(entropy[i, j]), old(entropy[p, q]))
    {
      var indices := MinimumEntropy();
      if indices.None? {
        return false;
      }
      var (i, j) := indices.value;
      assert CellValid(i, j);
      CanPick(states, grid[i, j].View());
      Collapse(i, j, None);
      assert (i, j) in CollapsedCells() && (i, j) !in old(CollapsedCells());
      return true;
    }

    /**
      The driver loop `while grid.logic(): pass`: it stops once every cell
      is collapsed, after at most `n * m` successful steps.
    */
    method Resolve() returns (steps: nat)
      requires Valid()
      modifies Pos.Keys, entropy, collapsed
      ensures Valid() && AllCollapsed()
      ensures steps <= n * m
    {
      steps := 0;
      var progress := Logic();
      CollapsedBound();
      if progress {
        SubsetSize(old(CollapsedCells()), CollapsedCells());
        StrictSubsetSize(old(CollapsedCells()), CollapsedCells());
      }
      while progress
        invariant Valid()
        invariant !progress ==> AllCollapsed()
        invariant steps + (if progress then 1 else 0) <= |CollapsedCells()| <= n * m
        decreases n * m - |CollapsedCells()| + (if progress then 1 else 0)
      {
        steps := steps + 1;
        ghost var before := CollapsedCells();
        progress := Logic();
        CollapsedBound();
        SubsetSize(before, CollapsedCells());
        if progress {
          StrictSubsetSize(before, CollapsedCells());
        }
      }
    }

    /** At most `n * m` cells can be collapsed. */
    lemma CollapsedBound()
      requires Shaped()
      ensures |CollapsedCells()| <= n * m
    {
      assert CollapsedCells() <= Cells(n, m);
      SubsetSize(CollapsedCells(), Cells(n, m));
      CellsSize(n, m);
    }
  }

  /** One row of the grid constructor: `m` distinct fresh tiles over `states`. */
  method NewRow(m: int, states: set<State>) returns (row: seq<Tile>)
    requires 0 <= m
    requires PositiveWeights(states)
    ensures |row| == m
    ensures forall q :: 0 <= q < m ==>
      fresh(row[q]) && row[q].states == states && row[q].View() == Initial(states)
    ensures forall q, r :: 0 <= q < r < m ==> row[q] != row[r]
  {
    row := [];
    for j := 0 to m
      invariant |row| == j
      invariant forall q :: 0 <= q < j ==>
        fresh(row[q]) && row[q].states == states && row[q].View() == Initial(states)
      invariant forall q, r :: 0 <= q < r < j ==> row[q] != row[r]
    {
      var t := new Tile(states);
      row := row + [t];
    }
  }

  /**
    The nested comprehension of the grid constructor: `n` rows of `m` fresh
    tiles over `states`, all distinct; `pos` records where each one goes.
  */
  method NewTiles(n: int, m: int, states: set<State>)
      returns (rows: seq<seq<Tile>>, ghost pos: map<Tile, (int, int)>)
    requires 0 <= n && 0 <= m
    requires PositiveWeights(states)
    ensures |rows| == n
    ensures forall p :: 0 <= p < n ==> |rows[p]| == m
    ensures forall p, q :: 0 <= p < n && 0 <= q < m ==>
      fresh(rows[p][q]) && rows[p][q].states == states && rows[p][q].View() == Initial(states) &&
      rows[p][q] in pos && pos[rows[p][q]] == (p, q)
  {
    rows := [];
    pos := map[];
    for i := 0 to n
      invariant |rows| == i
      invariant forall p :: 0 <= p < i ==> |rows[p]| == m
      invariant forall p, q :: 0 <= p < i && 0 <= q < m ==>
        fresh(rows[p][q]) && rows[p][q].states == states && rows[p][q].View() == Initial(states) &&
        rows[p][q] in pos && pos[rows[p][q]] == (p, q)
    {
      var row := NewRow(m, states);
      pos := pos + map q | 0 <= q < m :: row[q] := (i, q);
      rows := rows + [row];
    }
  }

  /** The cells of a board are the pairs of in-range coordinates. */
  lemma CellsMember(p: (int, int), n: int, m: int)
    ensures p in Cells(n, m) <==> 0 <= p.0 < n && 0 <= p.1 < m
  {
    if 0 <= p.0 < n && 0 <= p.1 < m {
      assert (p.0, p.1) == p;
    }
  }

  /** A strict subset is strictly smaller. */
  lemma StrictSubsetSize<T>(a: set<T>, b: set<T>)
    requires a < b
    ensures |a| < |b|
  {
    assert a + (b - a) == b;
    var x :| x in b - a;
    SubsetSize(a, b - {x});
  }

  /** One row of a board. */
  function Row(u: int, m: int): set<(int, int)>
  {
    set v | 0 <= v < m :: (u, v)
  }

  lemma {:induction false} RowSize(u: int, m: nat)
    ensures |Row(u, m)| == m
  {
    if m > 0 {
      RowSize(u, m - 1);
      assert Row(u, m) == Row(u, m - 1) + {(u, m - 1)};
    }
  }

  /** A board of `n` rows is the board of its first `n - 1` rows plus a disjoint last row. */
  lemma CellsSplit(n: int, m: int)
    requires n > 0
    ensures Cells(n, m) == Cells(n - 1, m) + Row(n - 1, m)
    ensures Cells(n - 1, m) * Row(n - 1, m) == {}
  {
    forall c | c in Cells(n, m)
      ensures c in Cells(n - 1, m) + Row(n - 1, m)
    {
      if c.0 < n - 1 {
        assert c in Cells(n - 1, m);
      } else {
        assert c in Row(n - 1, m);
      }
    }
    forall c | c in Cells(n - 1, m)
      ensures c.0 < n - 1
    {
    }
  }

  /** A board has `n * m` cells. */
  lemma {:induction false} CellsSize(n: nat, m: nat)
    ensures |Cells(n, m)| == n * m
  {
    if n > 0 {
      CellsSize(n - 1, m);
      RowSize(n - 1, m);
      CellsSplit(n, m);
      DisjointUnionSize(Cells(n - 1, m), Row(n - 1, m));
      assert (n - 1) * m + m == n * m;
    }
  }

  /** The size of a disjoint union. */
  lemma DisjointUnionSize<T>(a: set<T>, b: set<T>)
    requires a * b == {}
    ensures |a + b| == |a| + |b|
  {
    assert |a + b| + |a * b| == |a| + |b|;
  }
}

# Wave Function Collapse tiler, modelled in Dafny

The tiler fills an `n` by `m` board with image fragments whose borders
agree. Each fragment is a *state*. A state has an image, a weight and a set
of *connections*. A connection is a `(value, id)` pair: `value` is one of
eight border slots (0 to 7, spaced 45 degrees apart) and `id` is the socket
that must match across the border.

The project models four parts of the tiler:

- **states.dfy** (`state.py`): `Connection` and `State`. Python defines
  no equality for `State`, so a state is a Dafny class with constant fields,
  and two states are equal exactly when they are the same object.
- **generation.dfy** (`gen_states.py`):
  - the slot transforms `rotate90`, `xflip` and `yflip`,
    and their state-level versions;
  - the expansion loop, which turns a parsed catalog into the full state
    set. It deduplicates rotations by their connection set, within one
    catalog entry.
  - The loop is proved against the function `Expansion`, and counting
    lemmas are proved about that function.
- **tiles.dfy** (`tile.py`): the per-cell constraint engine.
  - `TileView` holds the four mutable fields of a tile as a value.
  - `Filter`, `Added`, `Picked` and `EntropyOf` state the rules on these
    values. The invariant `Inv` is proved to be kept by them.
  - Class `Tile` updates its fields in place. `AddConnection` and
    `UpdatePossibleStates` are proved to leave `View()` equal to a function
    of the old view (`Added`, `Filter`). `Collapse` leaves it equal to
    `Picked(s)`, where `s` is the given state or, with none given, some
    state that was possible: the weighted draw is an existential choice.
  - `is_state_possible` is the predicate `Tile.IsStatePossible`, defined
    by `Compatible`.
- **grids.dfy** (`grid.py`): the board, with two cache arrays for the
  entropy and the collapsed flag of each tile.
  - The class keeps one invariant, `Valid`: every tile is valid, the
    tiles are distinct objects, and both caches agree with their tile.
  - Propagation follows the fixed fan-out table of `_update_neighbours`
    (`FanOut`). `UpdateNeighbours` runs one `SendSlot` per slot, in order.
    `SendSlot` runs `SendRows` over that slot's rows of the table. Each row
    is one `Deliver`, which skips a receiver off the board and otherwise
    calls `Transmit`, which calls `Receive`.
  - What a cell gets is stated as a list of messages. `Inbox(d, du, dv)`
    lists, in table order, the labels that slots `0` to `d - 1` send to
    the offset `(du, dv)`. `Receives` says that a tile goes from one view
    to another by taking these messages in order. Each message carries the
    socket of some active connection of the sender in that slot, or nothing
    when the sender has none.
  - The proofs relate snapshots of the board (`Views()`, a map from cells
    to tile views) taken before and after each step.
  - `MinimumEntropy` and `Logic` are the solver step, and `Resolve` is
    the driver loop `while grid.logic(): pass` of `main.py`.

Nondeterminism stands in for randomness. The weighted draw in
`Tile.collapse` and the tie-break by `randint` are both choices by `:|`,
and every property is proved for every possible choice.

Entropies are exact reals plus an explicit infinity (the datatype
`ExtReal`).

Two places where the code does something other than its names suggest
(the model follows the code):

- The entropy filter at `tile.py:41` compares a set with `0`, so it is
  always true. As a result, the entropy counts every possible state, not
  only those compatible with the active connections.
- A step of the solver can collapse more than one cell. Propagation may
  leave a neighbour with no possible state, and then the neighbour marks
  itself collapsed. `Logic` therefore promises a strict growth of the
  collapsed set, not growth by exactly one. The bound of `n * m` steps
  holds either way.

Three other quirks of the code are kept as written:

- the flip deduplication tests (`gen_states.py:86,91,97,102`) compare a
  state with a set of connection sets, so they never fail;
- the union at `tile.py:100-102` is computed and then discarded;
- a fresh tile with no states is not collapsed.

## Model

| member | source | states |
|---|---|---|
| States.State.constructor | state.py:13-29 | the image and weight are stored unchanged; the connection set equals the argument as a value, so later changes to the caller's set cannot reach it |
| States.ConnectionEquality | state.py:7 | two connections are equal exactly when both slot and socket are equal |
| States.StatesAreIdentities | state.py:10-29 | two distinct state objects with identical contents both stay in a set, which then has at least two members |
| Generation.Rotate90 | gen_states.py:9-13 | definition: every slot advanced by `2 * times` (one quarter turn is two slots), modulo 8, with its socket kept; its properties are in RotateDefined, RotateCompose, RotateFullTurn, FourQuarterTurns and RotatePreservesSize |
| Generation.XFlip | gen_states.py:16-21 | definition: every slot mirrored through numpy's lookup table; its properties are in FlipsDefined, XFlipInvolution and XFlipPreservesSize |
| Generation.YFlip | gen_states.py:24-29 | definition: every slot mirrored through numpy's lookup table; its properties are in FlipsDefined, YFlipInvolution and YFlipPreservesSize |
| Generation.RotateDefined | gen_states.py:9-13 | every rotated slot lies in [0, 8); a rotation is empty exactly when its argument is |
| Generation.TransformsKeepIds | gen_states.py:9-29 | rotation and both flips leave the set of socket ids unchanged |
| Generation.FlipsDefined | gen_states.py:16-29 | a flip of a set it is defined on is non-empty, with all slots in [0, 8) |
| Generation.RotateCompose | gen_states.py:9-13 | `rotate90(rotate90(s, a), b) == rotate90(s, a + b)` |
| Generation.RotateFullTurn | gen_states.py:9-13 | turning valid slots by four quarter turns at once returns the set |
| Generation.FourQuarterTurns | gen_states.py:9-13 | four successive quarter turns return any set of valid slots |
| Generation.QuarterSymmetric | gen_states.py:9-13 | a set that one quarter turn keeps the same is also kept the same by two and by three quarter turns |
| Generation.XFlipInvolution | gen_states.py:16-21 | `xflip` is defined on its own result and undoes itself on non-empty sets of valid slots |
| Generation.YFlipInvolution | gen_states.py:24-29 | `yflip` is defined on its own result and undoes itself on non-empty sets of valid slots |
| Generation.RotatePreservesSize | gen_states.py:9-13 | a rotation of valid slots has as many connections as its argument |
| Generation.XFlipPreservesSize | gen_states.py:16-21 | `xflip` of valid slots has as many connections as its argument |
| Generation.YFlipPreservesSize | gen_states.py:24-29 | `yflip` of valid slots has as many connections as its argument |
| Generation.StateRotate90 | gen_states.py:32-37 | a fresh state with the same weight, the rotated connections and the image turned by `-times` |
| Generation.StateXFlip | gen_states.py:40-45 | a fresh state with the same weight, the x-flipped connections and the image flipped on axis 1 |
| Generation.StateYFlip | gen_states.py:48-53 | a fresh state with the same weight, the y-flipped connections and the image flipped on axis 0 |
| Generation.PassCount | gen_states.py:79-93 | over any passes of the rotation loop, the number of states added is the kept rotations plus every mirror image; at most one rotation is kept per pass |
| Generation.KeptAreNew | gen_states.py:79-83 | a kept rotation is the turned state of one of the passes; its connection set was not recorded before; no two kept rotations share a connection set |
| Generation.AllRecordedKeepsNothing | gen_states.py:79-83 | when every turned connection set is already recorded, no rotation is kept |
| Generation.TurnsMirrorCount | gen_states.py:79-93 | three passes, each adding one mirror image per requested flip |
| Generation.EntryVariants | gen_states.py:66-104 | definition: the states one entry contributes, as values in insertion order: the base state, then for each of the three rotation passes the kept turned state and its mirror images, then the base's mirror images; its size is counted by EntryCount and SymmetricEntry |
| Generation.Expansion | gen_states.py:66-104 | definition: the entries' contributions concatenated in catalog order; GenStates is proved to build exactly this |
| Generation.EntryCount | gen_states.py:66-104 | with `rotate`, an entry yields `1 + r + 4·[flip_x] + 4·[flip_y]` states with `r <= 3` new rotation signatures; without it, `1 + [flip_x] + [flip_y]` |
| Generation.SymmetricEntry | gen_states.py:78-93 | an entry whose slots a quarter turn keeps the same contributes no rotation, so with `rotate` it yields `1 + 4·[flip_x] + 4·[flip_y]` states |
| Generation.SymmetricTurnsRecorded | gen_states.py:78-80 | when a quarter turn keeps an entry's slots the same, each of the three turned states has the base connection set |
| Generation.RepeatedTurnsKeepNothing | gen_states.py:79-83 | when all three turned states repeat the base connection set, no rotation is kept |
| Generation.NothingKeptCount | gen_states.py:66-104 | with `rotate` and no rotation kept, an entry yields `1 + 4·[flip_x] + 4·[flip_y]` states |
| Generation.RecordedMirrors | gen_states.py:84-93 | recording the mirror images adds the x image's connection set and then the y image's |
| Generation.Add | gen_states.py:76 | adding a new state keeps the ordered listing of the set exact and appends its contents |
| Generation.AddMirrors | gen_states.py:95-104 | the requested mirror images are added (x first) whatever was recorded, and their connection sets are recorded |
| Generation.AddTurn | gen_states.py:80-93 | the turned state is added only when its connection set is new; its mirror images are always added |
| Generation.AddRotations | gen_states.py:79-93 | the rotation loop adds exactly the states `Pass` describes for the three passes |
| Generation.AddEntry | gen_states.py:67-104 | one entry adds its base state, its rotations when `rotate` is set, and its mirror images, with the record reset for the entry |
| Generation.GenStates | gen_states.py:56-105 | the returned set lists, in insertion order, distinct objects whose contents are exactly `Expansion(catalog)`; its size is the length of the expansion |
| Tiles.Added | tile.py:76-91 | definition of `add_connection` on values; its effects are stated by AddedEffects, AddedInv and AddedLowersEntropy, and Tile.AddConnection is proved to follow it |
| Tiles.EntropyOf | tile.py:31-47 | definition of `entropy` on values; its range is stated by EntropyRange, and Tile.Entropy is proved to compute it |
| Tiles.Tile.IsStatePossible | tile.py:108-116 | definition: a state is possible when all active connections are among its connections and all its connections are possible; UpdatePossibleStates keeps exactly these states |
| Tiles.InvWeightSum | tile.py:44-47 | the sum of inverse weights is non-negative, and positive on a non-empty set of positively weighted states |
| Tiles.InvWeightSumMono | tile.py:44-47 | a subset has the smaller sum of inverse weights |
| Tiles.SumInverseWeights | tile.py:44-47 | the loop computes the sum of inverse weights |
| Tiles.FilterInitial | tile.py:18-27 | with nothing active and every state connection possible, every state passes the filter |
| Tiles.InitialInv | tile.py:10-29 | a fresh tile satisfies the tile invariant and has infinite entropy |
| Tiles.AllConnectionsAdd | tile.py:23-26 | one more step of the union loop adds that state's connections |
| Tiles.Tile.constructor | tile.py:10-29 | all states possible, no active connection, possible connections the union of all states' connections, not collapsed (even with no states), invariant established |
| Tiles.Tile.UpdatePossibleStates | tile.py:93-116 | the possible states are exactly the states with `active ⊆ s.connections ⊆ possible`; `collapsed` is set exactly when none is left; the connection sets are unchanged |
| Tiles.Tile.AddConnection | tile.py:76-91 | the new fields equal `Added` of the old ones (a collapsed tile is unchanged); the invariant is kept and `possibleStates` only shrinks |
| Tiles.AddedEffects | tile.py:76-91 | on an uncollapsed tile, `c` is the only possible connection left in its slot and joins the active ones; the other slots stay as they were; every remaining state offers `c`; the tile collapses exactly when no state is left. On a collapsed tile nothing changes |
| Tiles.AddedInv | tile.py:76-116 | imposing a connection keeps the tile invariant and never adds a possible state |
| Tiles.AddedLowersEntropy | tile.py:76-91 | imposing a connection never raises the entropy |
| Tiles.EntropyRange | tile.py:31-47 | the entropy is 0 exactly when collapsed; it is infinite exactly when uncollapsed with nothing active; otherwise it lies in (0, 1] |
| Tiles.Tile.Entropy | tile.py:31-47 | the entropy of the current fields: 0, infinity, or the ratio of inverse-weight sums over all possible states |
| Tiles.CanPick | tile.py:64-72 | an uncollapsed valid tile with a possible connection has a possible state to draw |
| Tiles.Tile.Collapse | tile.py:51-74 | `collapsed` is always set. With a given state, or with a drawn member of the possible states, the tile holds just that state and its connections are active and possible. With no possible connection, nothing else changes. The invariant is kept |
| Tiles.Tile.GetConnection | tile.py:118-127 | `None` exactly when no active connection is in the slot; otherwise an active connection in that slot |
| Grids.FanOut | grid.py:51-75 | definition: the fan-out table, slot by slot, in the source's row order; its shape and reciprocity are stated by FanOutShape and FanOutReciprocal |
| Grids.FanOutShape | grid.py:51-88 | even slots fan out to three cells and odd slots to one; every label sent is a slot; every receiver is a distinct neighbouring cell |
| Grids.FanOutReciprocal | grid.py:51-75 | if slot `d` sends label `d'` to offset `δ`, slot `d'` sends label `d` to offset `-δ` |
| Grids.Delivered | grid.py:83-88 | definition: one delivery to a receiving tile, which is unchanged when the sender has no active connection in the slot and otherwise takes `add_connection` of the label with the socket of one such connection; DeliveredArrives and DeliveredBy relate it to Arrive and to Grid.Deliver |
| Grids.Carries | grid.py:83-85 | definition: the socket a message may carry, none exactly when the sender has no active connection in the message's slot, otherwise the socket of one it has; used by Receives and DeliveredArrives |
| Grids.Arrive | grid.py:83-88 | definition: the tile after a message arrives, unchanged without a socket and `Added` of the label with the socket otherwise; its effects are stated by ReceivesEffects and DeliveredArrives |
| Grids.Receives | grid.py:77-91 | definition: a tile goes from one view to another by taking a list of messages in order, each carrying a socket as Carries allows; ReceivesSnoc, ReceivesAppend and ReceivesEffects state its properties |
| Grids.Inbox | grid.py:51-77 | definition: the messages slots `0` to `d - 1` address to one offset, in table order; InboxMembers, InboxFar and InboxEast state which messages it holds |
| Grids.DeliveredArrives | grid.py:83-88 | one delivery is the arrival of its message with a socket that message may carry |
| Grids.ReceivesSnoc | grid.py:77-88 | one more delivery extends the messages a tile has received |
| Grids.RowStep | grid.py:77-88 | one more row of a slot: the cell it addresses has received one more message, and every other cell's list of messages stays the same |
| Grids.ReceivesAppend | grid.py:77-88 | receiving one list of messages and then another is receiving their concatenation |
| Grids.ReceivesEffects | grid.py:83-91 | whatever messages a tile receives, it stays valid, a collapsed tile keeps its view, no state becomes possible again, and the entropy does not rise |
| Grids.RowMessagesFar | grid.py:51-75 | a row of the table whose receivers all border the sender sends nothing to any other offset |
| Grids.InboxFar | grid.py:51-75 | the table sends nothing to the sender itself or to any cell that does not border it |
| Grids.RowMessagesMembers | grid.py:77 | a slot's rows send a message to an offset exactly when one of them addresses the message's label to that offset |
| Grids.InboxMembers | grid.py:51-77 | a label arrives at an offset from slot `direction` exactly when `direction` is among the slots sent so far and its row of the table addresses that label to that offset |
| Grids.InboxEast | grid.py:58-66 | the cell east of the sender gets, in this order, label 0 from slot 2, label 7 from slot 3 and label 6 from slot 4, and nothing else |
| Grids.DeliveredBy | grid.py:83-88 | the result of `get_connection` in the slot, relayed with `add_connection`, is one delivery |
| Grids.ArrivedOffBoard | grid.py:78-81 | a row whose receiver is off the board changes nothing |
| Grids.RowsStart | grid.py:77 | before the first row, every cell has received nothing |
| Grids.RowsStep | grid.py:77-91 | one more row extends what every cell has received |
| Grids.InboxStart | grid.py:48-51 | before the first slot, every cell has received nothing |
| Grids.InboxStep | grid.py:48-91 | one more slot, sent along its row of the table, extends what every cell has received |
| Grids.InboxAt | grid.py:48-91 | projection: the board-wide record of what has arrived gives one cell's `Receives` of its inbox |
| Grids.CellReceived | grid.py:48-91 | a cell that has received its messages stays valid, keeps its view when collapsed, regains no state and gains no entropy; it is unchanged when it does not border the sender |
| Grids.CellPropagated | grid.py:48-91 | after slots `0` to `d - 1`, a cell has received its `Inbox`, with the effects CellReceived states |
| Grids.NewRow | grid.py:36 | a row of `m` distinct fresh tiles over the states, each in its initial state |
| Grids.NewTiles | grid.py:35-37 | `n` rows of `m` fresh tiles over the states, each in its initial state, all distinct |
| Grids.CellsSize | grid.py:35-39 | an `n` by `m` board has `n * m` cells |
| Grids.Grid.constructor | grid.py:29-39 | every cell holds a fresh tile over the shared states in its initial state; every entropy is infinite; no cell is collapsed; the board invariant holds |
| Grids.Grid.CollapseCell | grid.py:42-45 | the tile collapses as `Tile.collapse` promises: onto the given state, onto one of its possible states, or, with no state given and no connection possible, only marked collapsed; its caches read collapsed and 0; every other cell is unchanged |
| Grids.Grid.Refresh | grid.py:90-91 | the caches of one cell are brought in line with its tile; the other cells' caches are unchanged |
| Grids.Grid.Receive | grid.py:83-91 | one receiver gets `add_connection` of the sent connection, if any, and its caches are refreshed. Its possible states only shrink, its entropy never rises, and no other cell changes |
| Grids.Grid.Deliver | grid.py:77-91 | one row of the table: a receiver off the board is skipped. An in-board receiver gets the row's label with the socket of one of the sender's active connections in the slot, or nothing when there is none. Every other cell, the sender included, keeps its view |
| Grids.Grid.Transmit | grid.py:83-91 | the in-board case of a row: the receiver gets the delivery `Delivered` describes, and no other cell changes |
| Grids.Grid.Landed | grid.py:83-88 | when only the receiver's view changed, and it changed by `add_connection` of the label with the socket `get_connection` chose, the board snapshots before and after differ by exactly that delivery |
| Grids.Grid.SendRows | grid.py:77-91 | the rows, in order, are delivered: every cell has received what they address to its offset, and the sender keeps its view |
| Grids.Grid.SendSlot | grid.py:77-91 | slot `direction` is sent along its row of the table: every cell has received, in order, what that row addresses to it, and the sender keeps its view |
| Grids.Grid.UpdateNeighbours | grid.py:48-91 | every cell receives its `Inbox(8, ·)` in table order from the sender's active connections; the sender keeps its view; only in-board cells around `(i, j)` change; collapsed tiles stay as they are; possible states only shrink; entropies never rise; the caches stay consistent |
| Grids.Grid.Collapse | grid.py:41-46 | cell `(i, j)` ends collapsed with caches reading collapsed and 0, holding the given state, or one drawn from its possible states when some connection was possible, or, with no state given and no connection possible, keeping its view except for being marked collapsed. Every other cell receives its `Inbox(8, ·)` from the collapsed tile's active connections; cells that do not border `(i, j)` are unchanged; no collapsed cell is reopened; the caches stay consistent |
| Grids.Grid.MinimumEntropy | grid.py:93-100 | `None` exactly when every cell is collapsed; otherwise an uncollapsed cell whose entropy is at most that of every uncollapsed cell |
| Grids.Grid.Logic | grid.py:102-111 | `false` exactly when every cell was already collapsed; otherwise a cell whose entropy was at most that of every uncollapsed cell becomes collapsed and the set of collapsed cells strictly grows; it never shrinks |
| Grids.Grid.CollapsedBound | main.py:18-19 | at most `n * m` cells can be collapsed |
| Grids.Grid.Resolve | main.py:18-19 | the loop ends with every cell collapsed and the board invariant intact, after at most `n * m` successful steps |

## Left out

- Loading the catalog (`gen_states.py:59-74`: paths, `json.load`, `Image.open`) is not modelled; a catalog is a given sequence of parsed `Entry` records.
- Pixels are not modelled: an image is the symbolic record of how it was obtained (`Loaded`, `Rotated`, `Flipped`), so `np.rot90` and `np.flip` are not computed.
- `Grid.display` (`grid.py:113-132`) and the plotting of `main.py` are image output and are not modelled; `main.py` contributes only its loop `while grid.logic(): pass`.
- Probabilities are not modelled: the weighted draw of `Tile.collapse` and the `randint` tie-break are arbitrary choices among the same candidates.
- Floating-point rounding is not modelled: entropies are exact reals plus an explicit infinity.
- Tiles.Tile.GetConnection: returns some active connection in the slot rather than the first in Python's set iteration order, which the model does not fix.
- Grids.Grid.Deliver: each in-board receiver gets the socket of some active connection in the slot, chosen separately for each receiver. In the source, the set's iteration order makes every receiver of the slot get the same connection; the model does not fix that order.
- Generation.XFlip and Generation.YFlip require a non-empty set with slot values in [-8, 8), because numpy raises `IndexError` outside that range and on an empty index array.
- Tiles.Tile.constructor requires positive weights; the same holds for Grids.Grid.constructor. A zero weight makes the entropy divide by zero, and the catalog's weights are taken to be positive. Negative weights, on which the source still computes an entropy (and on which the weighted draw may fail), are not modelled.
- Tiles.Tile.Collapse requires a possible state when no state is given and some connection is possible, because the source otherwise reads an unbound variable; Grids.Grid.Collapse passes the same requirement on to its callers.
- Grids.Grid.Collapse requires in-board indices; numpy's negative indices, which wrap around to the far side of the board, are not modelled.
- Grids.Grid.constructor requires non-negative `n` and `m`; numpy's behaviour for negative board sizes is not modelled.

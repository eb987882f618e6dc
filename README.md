# Bingo rooms: a Dafny model

A model of the multiplayer bingo game's core, written in Dafny. Players join a room, a host starts a round and calls
numbers, and a player claims bingo with a privately generated 5x5 card. The model covers three parts.

- **The server's room state machine** (`rooms.dfy`, `win_check.dfy`).
  - The process-wide map from room id to room.
  - The five socket handlers: `join_room`, `claim_bingo`, `start_game`, `call_number` and `disconnect`.
  - The room creation of the REST endpoint.
  - The win verifier `verifyWinningCard`.
  - `Registry` holds the room map. Its methods update a room field by field, as the handlers do.
  - Each handler is proved against a step function on room values (`JoinStep`, `StartStep`, `CallStep`, `ClaimStep`,
    `LeaveStep`). What the protocol keeps is proved about those functions.
  - A handler's emits are returned as a list of messages. Each message is addressed to the requesting socket or to the
    whole room.
- **The player's card component** (`bingo_card.dfy`).
  - Card generation.
  - The marking derived from the called numbers.
  - The cell toggle.
  - The client-side pattern check, and the guard in front of a claim.
- **The host's control panel** (`game_controller.dfy`).
  - The list of numbers still available and the number on display.
  - The reset when a round starts.
  - The guarded random pick of `callNumber`.

What the proofs establish:

- Every handler keeps a room consistent: socket ids and names are unique, no number is called twice, and a round with a
  winner is over. Any sequence of handlers therefore keeps it too.
- Within a round, the called numbers only grow at the end. A recorded winner stays, and a card the server accepts stays
  acceptable.
- On a 5x5 card the verifier never throws. It accepts exactly when one of the twelve lines is fully called: five rows,
  five columns and two diagonals.
- A generated card holds 25 distinct numbers, column `c` drawn from `15c+1 .. 15c+15`.
- Every mark on a card is on 0 or a called number. A claim the card component lets through is one the server accepts
  against the same called numbers.
- Once a new called list arrives in a running round, the host's available numbers are exactly the uncalled numbers of
  1..75, in ascending order. A number picked from them is then one the server appends. Before that, right after mount or
  a start, the panel shows all 75.

Some behaviours of the code are shown by lemmas rather than ruled out:

- A second joiner asking to be host does not demote the first (`SecondHostNotDemoted`).
- A host that re-joins without asking to be host keeps `room.host` (`RejoinKeepsStaleHost`).
- The server accepts any called number, in range or not (`CallHasNoRangeCheck`).
- An empty card wins (`EmptyCardAccepted`).
- A card of one to four non-empty columns makes the verifier throw when nothing is called (`ShortCardThrows`). A row or
  column that completes first still wins.
- A 0 on a card counts as marked on the client. The server has no free-space rule: a 0 counts as called only after 0
  was called, and the host's panel only ever sends numbers in 1..75 (`ZeroCellsWinOnlyOnTheClient`, `ZeroCalledWins`,
  `GameController.Controller.CallNumber`).
- A freshly mounted control panel in a running round shows all 75 numbers as available
  (`GameController.Controller.constructor`).

The room page (src/app/room/[roomId]/page.tsx:172-252) carries a client-side verifier of its own. It also accepts four
corners, the diamond around the centre and the 2x2 corner blocks, and it counts 0 as called. `verifyWinningCard` and
`checkWinningPattern` check only rows, columns and the two diagonals, and the server counts 0 as called only once 0 was called. The model
follows these two, and `CornersDoNotWin` shows that four corners are no win on the server. The page's verifier belongs
to the page's handlers for `bingo_claimed`, which the server never emits. It is not part of this model.

## Model

| member | source | states |
|---|---|---|
| WinCheck.VerifyWinningCard | src/lib/socket.ts:166-193 | The outcome equals `WinVerdict`. With five or more columns it is a win iff some row 0-4, column 0-4 or diagonal is fully called. With fewer columns it is a win if an earlier row or column completes, and otherwise the TypeError thrown at the first missing column. |
| WinCheck.GridVerdict | src/lib/socket.ts:180-192 | On a 5x5 card the verifier never throws and accepts exactly when one of the twelve lines of `Lines` is covered. |
| WinCheck.CoveredLineWins | src/lib/socket.ts:180-192 | A 5x5 card with a covered row, column or diagonal is accepted. |
| WinCheck.WinCoversLine | src/lib/socket.ts:180-192 | What the verifier accepts on a 5x5 card has a covered line, and it returns rather than throws. |
| WinCheck.EmptyCardAccepted | src/lib/socket.ts:175-181 | A card with no columns is accepted whatever was called. |
| WinCheck.ShortCardThrows | src/lib/socket.ts:180-181 | With one to four non-empty columns and nothing called, the verifier throws. |
| WinCheck.VerdictMonotone | src/lib/socket.ts:167-172 | Calling more numbers never turns an accepted card into a rejected one. |
| WinCheck.CornersDoNotWin | src/lib/socket.ts:180-192 | Four called corners are not a win. |
| WinCheck.FirstRowWins | src/lib/socket.ts:180-181 | A fully called first row is a win. |
| Rooms.NewRoom | src/app/api/rooms/create/route.ts:20-27 | A new room is consistent, with no players, not started and without a winner. |
| Rooms.WithoutId | src/lib/socket.ts:41-43 | The filter leaves no entry for the socket and keeps exactly the other entries. |
| Rooms.FirstIndex | src/lib/socket.ts:137 | The result is the first index holding the socket id, or -1 exactly when there is none. |
| Rooms.WithoutIdIsSplice | src/lib/socket.ts:41-43 | With unique ids, filtering an id out equals splicing out its one entry. |
| Rooms.WithoutIdKeepsUnique | src/lib/socket.ts:41-43 | The filter keeps ids and names unique. |
| Rooms.JoinStep | src/lib/socket.ts:30-68 | A taken name gives the requester "Name already taken" and changes nothing. Otherwise the socket has exactly one entry, the last, under the new name, and the room gets the snapshot. Consistency is kept, and round fields are untouched. |
| Rooms.JoinerKeepsUnique | src/lib/socket.ts:31-52 | Appending a joiner whose name is free keeps ids and names unique. |
| Rooms.JoinKeepsOthers | src/lib/socket.ts:41-52 | A join keeps every other player in order with its host flag: no one is demoted. |
| Rooms.JoinHostRule | src/lib/socket.ts:46-57 | The joiner is host iff it asked to be or no one else is in the room. Only then does `room.host` move to it. |
| Rooms.JoinTwiceOneEntry | src/lib/socket.ts:30-52 | Joining twice from one socket under one name leaves one entry for it. |
| Rooms.SecondHostNotDemoted | src/lib/socket.ts:46-57 | Two joiners asking to be host are both marked host. |
| Rooms.RejoinKeepsStaleHost | src/lib/socket.ts:41-57 | A host re-joining without asking loses its flag but keeps `room.host`. |
| Rooms.StartStep | src/lib/socket.ts:98-112 | Only the room's host starts a round. It clears the called numbers and winner and broadcasts; anyone else changes nothing. |
| Rooms.CallStep | src/lib/socket.ts:114-133 | Only the host calls. A new number is appended and broadcast; a repeat is reported to the host only. |
| Rooms.CallHasNoRangeCheck | src/lib/socket.ts:114-119 | The server appends 0 and 76 like any other number. |
| Rooms.ClaimStep | src/lib/socket.ts:71-96 | A claim is ignored unless a round runs without a winner. An accepted card ends the round with the claimant as winner, and the room gets the snapshot and game over. A rejected card is reported to the claimant only; a throwing one changes nothing. |
| Rooms.LeaveStep | src/lib/socket.ts:137-153 | A socket with no entry changes nothing. Otherwise its first entry is spliced out and the room gets `player_left`. If that entry was marked host and players remain, the first remaining player is marked host, becomes `room.host`, and the room gets a snapshot without a winner field. Otherwise `room.host` stays. Round fields are untouched, no entry for the socket remains, and consistency is kept. |
| Rooms.SpliceDropsId | src/lib/socket.ts:137-140 | With unique ids, splicing out the socket's entry leaves none for it. |
| Rooms.PromoteKeepsIds | src/lib/socket.ts:145-146 | Setting the new host's flag changes no id or name. |
| Rooms.LeaveIsFilter | src/lib/socket.ts:137-146 | Leaving removes exactly what join's filter removes: the others in order, the first possibly promoted. |
| Rooms.JoinThenLeave | src/lib/socket.ts:30-159 | A newcomer joining a non-empty room without asking to be host, then disconnecting, leaves the room as it was. |
| Rooms.HostHandoff | src/lib/socket.ts:143-153 | With players A (host), B and C, A leaving makes B the one host. The room gets `player_left` and a snapshot without a winner field. |
| Rooms.RunConsistent | src/lib/socket.ts:22-161 | Any sequence of handlers keeps a room consistent. |
| Rooms.RoundIsAppendOnly | src/lib/socket.ts:71-133 | Without a `start_game`, the called numbers only grow at the end and a recorded winner stays. |
| Rooms.AcceptedStaysAccepted | src/lib/socket.ts:71-133 | A card the server accepts stays acceptable for the rest of the round. |
| Rooms.Registry.constructor | src/lib/socket.ts:16-18 | The room map starts empty. |
| Rooms.Registry.CreateRoom | src/app/api/rooms/create/route.ts:20-29 | The endpoint stores a new room under the given id. |
| Rooms.Registry.JoinRoom | src/lib/socket.ts:22-69 | A missing room gives "Room not found". Otherwise the room and the emits are those of `JoinStep`, and the map stays consistent. |
| Rooms.Registry.ClaimBingo | src/lib/socket.ts:71-96 | A missing room is ignored. Otherwise the room and the emits are those of `ClaimStep`, with the verifier run as the method. |
| Rooms.Registry.StartGame | src/lib/socket.ts:98-112 | A missing room is ignored. Otherwise the room and the emits are those of `StartStep`. |
| Rooms.Registry.CallNumber | src/lib/socket.ts:114-133 | A missing room is ignored. Otherwise the room and the emits are those of `CallStep`. |
| Rooms.Registry.Disconnect | src/lib/socket.ts:135-161 | Every room is visited once, in some order. The emits are each room's `LeaveStep` messages in that order. A room is deleted iff the socket was its only player; every other room is as `LeaveStep` leaves it. |
| Rooms.Registry.LeaveRoom | src/lib/socket.ts:137-158 | One visit: the room is as `LeaveStep` leaves it, or deleted if that emptied it. |
| Rooms.DisconnectVisit | src/lib/socket.ts:136-160 | Visiting one more room keeps the disconnect invariant: visited rooms left or deleted, pending rooms untouched, emits in visiting order. |
| BingoCard.GenerateBingoCard | src/components/BingoCard.tsx:148-171 | The card is 5x5, and column `c` holds distinct numbers of `15c+1 .. 15c+15`. |
| BingoCard.FillColumn | src/components/BingoCard.tsx:156-167 | One column: five distinct numbers of its range, no other column touched, and the used set stays below the next range. |
| BingoCard.FreeValueExists | src/components/BingoCard.tsx:161-163 | While fewer than 15 numbers of a column are used, an unused one exists, so the sampling can end. |
| BingoCard.GeneratedCardFacts | src/components/BingoCard.tsx:152-166 | A generated card holds 25 pairwise distinct numbers of 1..75, none of them 0. |
| BingoCard.Unmarked | src/components/BingoCard.tsx:25-29 | The initial grid is 5x5 with nothing marked. |
| BingoCard.Selection | src/components/BingoCard.tsx:36-38 | The derived marking has the card's shape and marks a cell iff it holds 0 or a called number. |
| BingoCard.Toggle | src/components/BingoCard.tsx:48-50 | Exactly the clicked cell flips; every other cell and the shape stay. |
| BingoCard.ToggleKeepsSound | src/components/BingoCard.tsx:46-51 | Flipping a cell with a called number keeps every mark on 0 or a called number. |
| BingoCard.CheckWinningPattern | src/components/BingoCard.tsx:68-96 | True iff some row, column or diagonal of the 5x5 marking is fully marked. |
| BingoCard.ClaimSound | src/components/BingoCard.tsx:68-96 | On a card without 0s, a sound marking with a full line is a card the server's verifier accepts. |
| BingoCard.ZeroCellsWinOnlyOnTheClient | src/components/BingoCard.tsx:36-38 | With nothing called, an all-0 card shows a full line on the client, but the server rejects it. |
| BingoCard.ZeroCalledWins | src/lib/socket.ts:166-193 | Once 0 itself was called, the server accepts an all-0 card: it has no free-space rule. |
| BingoCard.BingoCardView.constructor | src/components/BingoCard.tsx:12-18 | The first render has no card and no marks. |
| BingoCard.BingoCardView.Mount | src/components/BingoCard.tsx:21-40 | After mounting, the card is a generated one and the marks are derived from the called numbers. |
| BingoCard.BingoCardView.SetCalledNumbers | src/components/BingoCard.tsx:33-40 | New called numbers re-derive the marks once a card exists. Before mount nothing changes. |
| BingoCard.BingoCardView.SetDisabled | src/components/BingoCard.tsx:12-16 | Only the flag changes. |
| BingoCard.BingoCardView.HandleCellClick | src/components/BingoCard.tsx:42-52 | The clicked cell flips unless the card is disabled, has no marks, or the cell holds 0 or an uncalled number. Marks stay sound. |
| BingoCard.BingoCardView.HandleBingoClaim | src/components/BingoCard.tsx:54-65 | The card is passed on iff the card is enabled, exists and shows a full line. Such a card is accepted by the server's verifier against the same called numbers. |
| GameController.AllNumbers | src/components/GameController.tsx:44 | The list holds exactly 1..75, ascending. |
| GameController.NotCalled | src/components/GameController.tsx:35 | The filter keeps exactly the uncalled members and keeps them ascending. |
| GameController.Remaining | src/components/GameController.tsx:34-36 | The available numbers are exactly those of 1..75 not called, ascending. |
| GameController.CurrentNumber | src/components/GameController.tsx:37 | The number on display is the last number called. It is none when nothing was called or the last number is 0. |
| GameController.DisplayAfterCall | src/components/GameController.tsx:37 | The display derived from the room's list after the host's call: the new number, or none for 0. After a repeat the derived display is unchanged. Panels that receive the room's list show this; the host's own panel keeps showing its repeated pick, since no new list arrives. |
| GameController.NothingCalledKeepsAll | src/components/GameController.tsx:35 | With nothing called the filter returns its input. |
| GameController.ResetIsRemainingOfNothing | src/components/GameController.tsx:42-46 | The reset list equals the derived list when nothing has been called. |
| GameController.StartAgreesWithReset | src/components/GameController.tsx:42-46 | After a host's `start_game`, the derived availability and display equal the reset ones. |
| GameController.HostPickAccepted | src/components/GameController.tsx:77-85 | An available number lies in 1..75 and is appended by the server. It then shows as the current number and is no longer available. |
| GameController.Controller.constructor | src/components/GameController.tsx:25-50 | On mount both effects run, the reset last: in a running round every number shows as available and none is on display. Every available number lies in 1..75. |
| GameController.Controller.ReceiveProps | src/components/GameController.tsx:32-50 | New props run the derivation when the round state changed or a new list arrived, and the reset when the round state changed. A new list during a round brings availability in sync. Available numbers stay in 1..75. |
| GameController.Controller.CallNumber | src/components/GameController.tsx:69-86 | With a winner or nothing left, auto-play stops and nothing is sent. Otherwise an available number is shown and sent if a socket exists. Any number sent lies in 1..75; when in sync it was also not called. |

## Left out

- Transport: the socket.io connection, `socket.join(roomId)` and the delivery of emits are not modelled. Each handler
  returns the messages it emits, with their recipients, and runs as one atomic step, as on Node's single event loop.
- Room objects are updated in place in the source. Here a handler updates a room value and stores it back in the map.
  Nothing else holds a room object across handlers, so no aliasing is lost.
- The room's `id` field is the key it is stored under. The creation endpoint's UUID generator, JSON request body and
  error response are left out: the id is a parameter.
- `Map.forEach` visits rooms in insertion order. The model allows any order and names it as `order`.
- JSON payloads of other types are not modelled: a called number that is not an integer, a card that is not a list of
  number lists. Numbers are integers.
- `Math.random` in `generateBingoCard` and `callNumber` becomes an arbitrary choice among the values it can produce.
- A TypeError thrown inside `claim_bingo` ends the handler with no change and no emit. What the process does with the
  uncaught exception is left out.
- Auto-play is not modelled: `toggleAutoPlay`, the `setInterval`/`clearInterval` timers, the cleanup effect, and the
  effect that stops auto-play on a winner (src/components/GameController.tsx:53-67, 88-99). They are timer and
  concurrency behaviour. `autoPlay` is kept only as the flag that `callNumber` and the reset turn off.
- React scheduling: effects run synchronously, in declaration order, after a props change. Whether `calledNumbers` is a
  new array is the `newList` parameter of `ReceiveProps`.
- Rendering, the `alert` in `handleBingoClaim`, and the props that only select what is rendered or where an emit goes
  (`isHost`, `roomId`) are not modelled.
- The client's `leave_room` emit has no server handler; only `disconnect` removes a player.

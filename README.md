# PongNet netcode core in Dafny

PongNet is a two-player networked Pong. A relay server accepts TCP connections and pairs
them up. It assigns each newcomer a role by the parity of its index, links it to a waiting
connection, and forwards every received buffer to the stored partner. Each client runs the
game locally. It merges the keyboard into a bit mask and sends that mask to the server on
29 of every 30 frames; on the 30th, Player1 sends a position correction instead and Player2
sends nothing. It queues whatever arrives and drains the queue once per frame.

This project models that bookkeeping and proves properties of it. One file per source file:

| file | module | source |
|---|---|---|
| `options.dfy` | `Options` | (an `Option` type) |
| `protocol.dfy` | `Protocol` | `include/protocol.h` |
| `network_manager.dfy` | `Net` | `src/net/network_manager.cpp` |
| `pong_server.dfy` | `Server` | `src/pong_server.cpp` |
| `game.dfy` | `Game` | `src/game/game.cpp` |
| `pong_client.dfy` | `Client` | `src/pong_client.cpp` |

How the model is built:
- Sockets are abstract ids (`SocketId`). Socket-library outcomes are inputs to the methods that
  use them:
  - whether an accept produced a socket;
  - the byte count a write reports;
  - a `probe` function saying, per socket, whether input is pending and what the read returned.
- Every write is appended to `NetworkManager.outbox`.
- `PollClients` is a `while` loop with the source's `i--`. It is proved equal to the recursive
  `PollFrom`.
- The callbacks `PollClients` receives are functions over a callback state. The data callback
  returns the `SendToClient` calls it makes, and they are performed at once against the
  current list.
- The server's match table `cs_match` is a value `Session`, threaded through `ServerStep`. An
  access that C++ leaves undefined (an index outside the table) turns it into `Undefined`.
- The client's `Game` is a class with the fields its methods update.
- The offline physics step is a chain of small heap-free methods. Each one is proved equal to a
  stage of the function `OfflineStep`.

Where the code and its design notes disagree, the model follows the code:
- There is no server-side simulation, tick counter or timestamp echo. The server only pairs
  connections and relays bytes between them.
- The pairing scan has no `break`. Every waiting entry is pointed at the newcomer, and a
  newcomer with nobody waiting links to itself.
- The Init message carries the parity role, not the role stored after pairing.
- Erasing an entry does not renumber the partner indices stored in other entries. The lemmas
  `StaleIndexLeavesTable`, `StaleIndexMisroutes` and `StaleIndexBreaksPairing` exhibit the
  consequences.
- The message records have the fields of `include/protocol.h`. In particular, `GameStateMsg`
  carries the ball position, a role and one player's y.

## Model

| member | source | states |
|---|---|---|
| Protocol.Opposite | src/pong_server.cpp:40 | the other role always differs from the given one |
| Protocol.Tag | include/protocol.h:5-9 | the three message kinds have one-byte tags below 3 |
| Protocol.TypeOfTag | include/protocol.h:5-9 | a byte names kind t exactly when it is t's tag; bytes 3 and above name no kind |
| Protocol.NewInitMsg | include/protocol.h:12-15 | a fresh InitMsg keeps its default Init tag and carries the given role |
| Protocol.NewPlayerInputMsg | include/protocol.h:18-21 | a fresh PlayerInputMsg keeps its default PlayerInput tag and carries the given mask |
| Protocol.NewGameStateMsg | include/protocol.h:24-29 | a fresh GameStateMsg keeps its default GameState tag and carries ball x/y, the role and one player y |
| Net.SendEffect | src/net/network_manager.cpp:123-125 | SendToClient writes once, to connection `index`, exactly when the index is in range |
| Net.SendAll | src/net/network_manager.cpp:142-143 | sends made by the data callback write at most once per request, and only to current connections |
| Net.Fanout | src/net/network_manager.cpp:118-121 | one write per connection, write j going to connection j |
| Net.Survivors | src/net/network_manager.cpp:134-141 | filtering out closed connections never lengthens the list |
| Net.PollFromKeepsSurvivors | src/net/network_manager.cpp:131-146 | a poll pass leaves exactly the connections not found closed, in their order |
| Net.PollFromExaminesEachOnce | src/net/network_manager.cpp:131-146 | every connection is examined exactly once, in order, including the one shifted into an erased slot (the `i--`) |
| Net.PollFromOnlyAppends | src/net/network_manager.cpp:128-147 | a poll pass never retracts an earlier write |
| Net.NetworkManager.constructor | src/net/network_manager.cpp:3-9 | a new manager has no connections, no client socket and no writes |
| Net.NetworkManager.AcceptClients | src/net/network_manager.cpp:104-116 | returns true exactly when a socket was accepted, and then appends exactly that one connection; otherwise the list is unchanged |
| Net.NetworkManager.Broadcast | src/net/network_manager.cpp:118-121 | writes the data to every connection in list order, ignoring results; the list is unchanged |
| Net.NetworkManager.SendToClient | src/net/network_manager.cpp:123-126 | an out-of-range index writes nothing and fails; success means the index is in range and the full size was written |
| Net.NetworkManager.SendToServer | src/net/network_manager.cpp:89-93 | without a client socket nothing is written and it fails; success means the full size was written |
| Net.NetworkManager.PollClients | src/net/network_manager.cpp:128-147 | the loop with erase and `i--` equals PollFrom; every initial connection is examined once; the survivors remain in order; writes are only appended |
| Server.LastUnmatched | src/pong_server.cpp:36-43 | finds the last waiting entry before n, or -1 when every such entry is matched |
| Server.Admitted | src/pong_server.cpp:34-43 | admission appends exactly one entry |
| Server.Admit | src/pong_server.cpp:28-44 | the emplace_back and the break-less scan give Admitted; the Init message carries the parity role (even index Player1, odd Player2) |
| Server.AdmitKeepsPairing | src/pong_server.cpp:34-43 | on a table with mutual links, opposite linked roles and at most one waiting entry, admission keeps all three, and from the second connection on nobody waits afterwards |
| Server.LaterNewcomerSelfLinks | src/pong_server.cpp:34-44 | with nobody waiting, the newcomer links to itself, earlier entries are unchanged, and the stored role differs from the role its Init message carries |
| Server.Unlink | src/pong_server.cpp:18-25 | reset the partner's link, erase entry k, renumber nothing; undefined exactly when k or the stored partner index is outside the table; always defined on a mutually linked table |
| Server.OnData | src/pong_server.cpp:47-52 | received data produces one send to the stored partner index, and none when the sender is unmatched |
| Server.UnlinkLastKeepsPairing | src/pong_server.cpp:18-25 | removing the most recent connection keeps every link mutual and linked roles opposite |
| Server.StaleIndexLeavesTable | src/pong_server.cpp:18-43 | three admissions, then disconnecting 0 and then the new index 1, make the callback write at index 2 of a two-entry table |
| Server.StaleIndexMisroutes | src/pong_server.cpp:18-52 | after a disconnect, data from the former connection 2 is forwarded to the former connection 3 |
| Server.StaleIndexBreaksPairing | src/pong_server.cpp:18-43 | after two disconnects through a stale index, two entries wait at once, and the next admission leaves a link that does not point back |
| Server.PollKeepsTableParallel | src/net/network_manager.cpp:136-141 | through a poll pass with the server's callbacks, the table stays as long as the connection list unless an access left it undefined |
| Server.ForwardReachesStoredPartner | src/pong_server.cpp:47-52 | forwarding writes the bytes once to the connection at the stored partner index, or nothing |
| Server.ServerStep | src/pong_server.cpp:27-52 | one main-loop iteration is accept, admit, send Init, then poll with the two callbacks; table length equals list length after the step |
| Game.InputMask | src/game/game.cpp:241-246 | W, S, Up, Down set bits 0, 1, 2, 3, each exactly when pressed; the upper nibble stays clear |
| Game.MergeInput | src/game/game.cpp:248-263 | the upper nibble (ball direction) is kept; the lower nibble becomes all four input bits offline, bits 0-1 online as Player1, bits 2-3 online as Player2 |
| Game.ClampY | src/game/game.cpp:309-313 | y below 0 becomes 0; otherwise y beyond WINDOW_HEIGHT - h becomes WINDOW_HEIGHT - h; a y already inside is unchanged; the result lies in [0, WINDOW_HEIGHT - h] when h fits the window |
| Game.AabbMeansCommonPoint | src/game/game.cpp:266-271 | for rectangles of positive size, the strict-inequality test holds exactly when some point lies strictly inside both |
| Game.Predict | src/game/game.cpp:68-80 | only the local player's y moves, by its own two bits; the other player, the ball and the mask are unchanged |
| Game.Bounce | src/game/game.cpp:315-329 | below 0 the position becomes 0 and the direction bit is set; otherwise beyond the far edge it becomes the far edge and the bit is cleared; inside, position and bit stay; other bits are unchanged |
| Game.EdgeMask | src/game/game.cpp:317-328 | the direction bit is set below the near edge, cleared beyond the far one, kept otherwise; no other bit changes |
| Game.Paddles | src/game/game.cpp:331-335 | a hit on player 1 sets bit 4; otherwise a hit on player 2 clears it; otherwise the mask is unchanged |
| Game.OfflineStepStaysInWindow | src/game/game.cpp:309-329 | after the offline step both players and the ball lie within the window; players never move sideways |
| Game.OfflineStepDirections | src/game/game.cpp:315-335 | bits 0-3, 6 and 7 are unchanged; bit 4 follows the paddle rule, then the left/right edges; bit 5 follows the top/bottom edges |
| Game.OfflineUpdate | src/game/game.cpp:282-335 | the offline branch, statement by statement, computes OfflineStep |
| Game.MoveStage | src/game/game.cpp:283-307 | the move statements compute the first stage of OfflineStep |
| Game.LimitPlayersStage | src/game/game.cpp:309-313 | the player bound limit computes the second stage |
| Game.LimitBallStage | src/game/game.cpp:315-329 | the ball bound limit computes the third stage |
| Game.LimitBallXStage | src/game/game.cpp:316-322 | the left/right limit statements compute LimitBallX |
| Game.LimitBallYStage | src/game/game.cpp:323-329 | the top/bottom limit statements compute LimitBallY |
| Game.LimitAxis | src/game/game.cpp:316-322 | one axis of the ball bound limit computes Bounce |
| Game.DrainAppend | src/game/game.cpp:33-65 | draining a concatenated queue is draining one part after the other |
| Game.DrainKeepsLast | src/game/game.cpp:33-65 | a drain leaves the role of the last Init event and the bytes of the last GameState event; PlayerInput and unknown kinds change nothing |
| Game.Game.constructor | src/game/game.cpp:158-182 | the ball is centred, the paddles are vertically centred at the two edges, and the game starts offline as Player1 with a zero mask |
| Game.Game.GetPlayer | src/game/game.cpp:111-119 | returns player 1 for Player1 and player 2 for Player2 |
| Game.Game.SetPlayer | src/game/game.cpp:111-127 | replaces the player of the given role; the other player and the rest of the game are unchanged |
| Game.Game.SetIsOnline | src/game/game.cpp:131 | sets the online flag and nothing else |
| Game.Game.AddNetEvent | src/game/game.cpp:134-137 | pushes the event at the back of the queue and changes nothing else |
| Game.Game.HandleInput | src/game/game.cpp:227-264 | a quit or escape event stops the game; state_mask_ becomes MergeInput of the old mask and the keys; the ball direction bits survive |
| Game.Game.ProcessNetEvents | src/game/game.cpp:31-66 | the queue is drained front to back until empty; role and buffered server state become Drain of the old queue; positions are untouched |
| Game.Game.PredictLocalPlayer | src/game/game.cpp:68-80 | the game state becomes Predict for the current role |
| Game.Game.Update | src/game/game.cpp:277-337 | online: local prediction; offline: OfflineStep |
| Client.Schedule | src/pong_client.cpp:18-35 | below 30 after the increment, an input message with the current mask; at 30 the counter resets to 0, Player1 sends the GameStateMsg with ball x/y, its role and player 1's y, and Player2 sends nothing |
| Client.FramesSplit | src/pong_client.cpp:19-35 | a run of a + b callback calls is a run of a calls followed by a run of b calls |
| Client.FramesBelowReset | src/pong_client.cpp:19-35 | while the counter stays below 30, every call sends one input message |
| Client.FramesToReset | src/pong_client.cpp:19-30 | the calls up to the reset send only inputs, then at most one state message, and leave the counter at 0 |
| Client.FramesCycle | src/pong_client.cpp:19-35 | every 30 consecutive calls send 29 inputs and one state message (none as Player2), and the counter returns to its value |
| Client.InputSender.constructor | src/pong_client.cpp:19 | the static counter starts at 0 |
| Client.InputSender.Send2Server | src/pong_client.cpp:18-37 | the counter and the message sent follow Schedule; the message goes through SendToServer, which writes only with a client socket |
| Client.ToNetEvent | src/pong_client.cpp:40-45 | the event's data is a full copy, and its kind is t exactly when the first byte is t's tag |
| Client.HandleReceivedData | src/pong_client.cpp:40-45 | appends exactly that event to the game's queue |
| Client.SetUpOnline | src/pong_client.cpp:12-16 | only a successful connection puts the game online and installs the send counter at 0 |
| Client.OnlineFrame | src/game/game.cpp:13-25 | one online frame: the message that goes out follows Schedule with the mask merged from this frame's keys under the role held before the drain, and it is appended to the writes (exactly one write when a client socket exists, none otherwise); prediction moves the role held after the drain |
| Client.HandshakeSetsParityRole | src/pong_server.cpp:32-44 | once the Init bytes for index n are drained, the client's role is the parity role of n, whatever was queued before |

## Left out

- Socket library calls are not modelled: `NET_Init`, hostname resolution, connect and its timeout, `StartServer`, `ConnectToServer`, socket destruction. Their outcomes are inputs, and `ClientReceiveLoop` is not modelled. They are foreign I/O, and the receive loop is a background thread.
- The 1024-byte read buffer size is not modelled. Read results are inputs.
- Mutexes, atomics and threads are not modelled. The model is sequential.
- SDL is not modelled: window and renderer, `Render`, `RenderInfo`, colours, logging, `Cleanup`, and the `Loop` pacing (`SDL_Delay`, performance counter, fps). These are UI and timing.
- The SDL-failure path of `Init` is left out. The constructor models only the successful path. Ball and paddle sizes and speeds come from constants outside this model, so they are constructor parameters.
- `Lerp`, `InterpolateFromServer` and the RTT estimate are float smoothing and clock reads, and are not modelled.
- Game.Game.Update: the online branch models only `PredictLocalPlayer`. `InterpolateFromServer` is left out.
- Positions are `real`. Float rounding of `speed * dt` is not modelled.
- Message byte layout (`sizeof`, padding, float encoding) is not modelled; only the first-byte tag is.
  - The server's Init bytes are a parameter `encodeInit`.
  - The client's outgoing bytes are parameters `encodeInput` and `encodeState`.
  - The client reads a role back through a parameter `roleOf`.
- The buffered `latest_server_state_` is kept as the event's raw bytes.
- The `NET_Init` call in the NetworkManager constructor and its `running_` flag are not modelled; a failed initialisation is foreign I/O.
- `PlayerId` is two-valued, because common.h is not part of this model. The `default:` branches of switches over it are therefore unreachable.
- Server.OnData: a sender index outside a live table yields no send. C++ reads outside the vector there. This cannot arise while the table is as long as the connection list, which PollKeepsTableParallel proves.
- Server.Unlink: the out-of-range write is modelled as the terminal `Undefined` state. What the process would do afterwards is not modelled.
- Client.Frames counts message kinds only. The message contents are stated per call by Schedule.
- `get_state_mask`, `set_state_mask`, `get_rect_object`, `set_rect_object`, `get_player_id`, `set_player_id`, `get_is_online` and `get_fps` are plain field reads and writes. They appear as direct field accesses.

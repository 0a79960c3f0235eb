# Ball game shot session, in Dafny

This project models the shot-budget logic of the `Player` behaviour of a small Unity ball game, together with the level table it reads at level start.

A level starts with a shot budget taken from a constant table: level 1 allows 1 shot, level 2 allows 2, level 3 allows 3. Each touch that ends (the drag is released) fires the ball. Unless the debug switch `infiniteShots` is on, each shot uses up one unit of the budget and the count label is updated. The per-frame `Update` handles the frame's touches first. After that, if no shots are left, it stops play, shows "No more shots!" and starts a one-second restart delay. It starts a new delay on every frame while the budget is exhausted. When a delay expires the level enters its restart phase. In that phase a touch that begins reloads the scene.

Three modules:

- `LevelDetails` holds the attempts table and the start-position table. `NumAttempts` and `StartPos` are lookups that return `KeyNotFound` where the source's dictionary indexer throws.
- `Decimal` gives the decimal text of an `int` (the count label) and a parser for it. The round-trip lemmas show that the label keeps the exact count.
- `BallGame` holds the `Player` class, whose fields are the session state, plus the label text, the touch phases of a frame and a whole-session scenario. Each event is a method: level start is the constructor, then `HandleTouch`, `HandleTouches`, `TouchEnded`, `TouchBeganRestart`, `Update` and `RestartMsg`. Each method keeps the session invariant `Valid()`.

Engine effects are plain fields:

- the scene reload is `restartRequested`;
- the shots text is `shotsLabel`;
- the "touch to restart" label is `restartLabelShown`;
- the aiming pointer's visibility is `pointerShown`;
- each impulse given to the ball increments `shotsFired`;
- each started restart coroutine increments `pendingDelays`. `RestartMsg` is the moment one of them finishes waiting.

`Valid()` ties these fields together:

- the count is the budget minus the shots fired (or the whole budget with infinite shots), so it never rises;
- play has stopped only when no shots are left;
- a pending delay, and the restart phase, come only after play has stopped;
- a reload is requested only in the restart phase;
- the labels always match the state.

`Player.cs` has a two-valued `State` (playing, ended) and `LevelDetails.cs` has the table 1→1, 2→2, 3→3; the model follows them.

## Model

| member | source | states |
|---|---|---|
| LevelDetails.NumAttempts | Assets/Scripts/LevelDetails.cs:11-24 | the lookup succeeds exactly for levels 1 to 3, and there the budget equals the level number (so it is at least 1); any other level reports the missing key |
| LevelDetails.StartPos | Assets/Scripts/LevelDetails.cs:19-25 | the lookup succeeds only for level 1 (at (-1, -2.3)); every other level reports the missing key |
| LevelDetails.BudgetsPositive | Assets/Scripts/LevelDetails.cs:11-16 | every budget in the table is at least one shot |
| LevelDetails.BudgetsStrictlyIncreasing | Assets/Scripts/LevelDetails.cs:11-16 | a higher level number always has a strictly larger budget |
| LevelDetails.StartPosOnlyForFirstLevel | Assets/Scripts/LevelDetails.cs:11-22 | the levels with a start position are a strict subset of those with a budget; levels 2 and 3 have a budget but no start position |
| Decimal.FromNat | Assets/Scripts/Player.cs:206 | the text of a non-negative count is a non-empty string of digits with no leading zero, and is one digit exactly for counts below ten |
| Decimal.FromNatRoundTrip | Assets/Scripts/Player.cs:206 | reading the digits back gives the original count |
| Decimal.FromInt | Assets/Scripts/Player.cs:206 | the text of any count is an optional '-' then digits, and the '-' appears exactly for negative counts |
| Decimal.FromIntRoundTrip | Assets/Scripts/Player.cs:206 | parsing the text of any count gives back that count |
| Decimal.FromIntInjective | Assets/Scripts/Player.cs:206 | two different counts never get the same text |
| BallGame.LabelText | Assets/Scripts/Player.cs:206 | the ended state shows "No more shots!"; the playing state shows non-empty text that starts with '-' exactly when the count is negative |
| BallGame.LabelTextMeaning | Assets/Scripts/Player.cs:204-207 | in the ended state the label is "No more shots!"; in the playing state it is well-formed decimal text that reads back as the shot count |
| BallGame.LabelTextDistinguishes | Assets/Scripts/Player.cs:204-207 | equal label texts imply the same state, and for the playing state the same count; the ended message never looks like a count |
| BallGame.FramePhases | Assets/Scripts/Player.cs:122-134 | a frame with native touches handles exactly those touches; without them the mouse contributes at most three phases |
| BallGame.FramePhasesMeaning | Assets/Scripts/Player.cs:119-135 | the phases of a frame are the native touches when there are any; otherwise the mouse yields Began iff the button went down, Moved iff it is held and Ended iff it went up, each once and in that order |
| BallGame.CountMeaning | Assets/Scripts/Player.cs:97-98 | the number of ended touches in a frame is at most the number of touches, and is positive exactly when one of them ended |
| BallGame.PointerAfter | Assets/Scripts/Player.cs:159-166 | a frame whose last touch is a move leaves the pointer shown; one whose last touch ends leaves it hidden |
| BallGame.PointerAfterMeaning | Assets/Scripts/Player.cs:159-166 | after a frame in play, the pointer is shown exactly when the frame's last move-or-end touch was a move |
| BallGame.PointerAfterUntouched | Assets/Scripts/Player.cs:159-166 | a frame with no move and no end leaves the pointer as it was |
| BallGame.StartShotsAsWritten | Assets/Scripts/Player.cs:51-58 | as written, `Start` leaves a positive count (the table budget) exactly when the level has both a start position and a budget; otherwise the count stays at 0, never below |
| BallGame.StartAsWrittenDropsBudget | Assets/Scripts/Player.cs:53-58 | levels 2 and 3 have a budget of 2 and 3 shots, yet as written they start with 0 shots |
| BallGame.Player.constructor | Assets/Scripts/Player.cs:51-61 | level start: the count is the level's table budget (at least 1), play is on, the restart phase is off, the pointer and the restart label are hidden, the label shows the count and `Valid()` holds |
| BallGame.Player.ShotsLabelUpd | Assets/Scripts/Player.cs:204-207 | the label becomes the text for the given state, which is `LevelPlaying` by default |
| BallGame.Player.TouchMoved | Assets/Scripts/Player.cs:151-161 | dragging shows the aiming pointer |
| BallGame.Player.TouchEnded | Assets/Scripts/Player.cs:163-181 | a release fires the ball and hides the pointer; the count drops by exactly one, or stays the same with infinite shots; the flags do not change and `Valid()` is kept |
| BallGame.Player.TouchBeganRestart | Assets/Scripts/Player.cs:146-149 | in the restart phase a touch asks for the level to be reloaded |
| BallGame.Player.HandleTouch | Assets/Scripts/Player.cs:85-116 | the count drops and the ball fires only on an Ended touch in play; the pointer changes only in play; a reload is requested only on a Began touch in the restart phase; in the restart phase any other phase changes nothing; neither flag changes |
| BallGame.Player.HandleTouches | Assets/Scripts/Player.cs:119-135 | over a frame's touches, the count drops by the number of Ended touches when in play (and not in infinite mode); one shot fires per such touch; a reload is requested iff the level is in the restart phase and some touch began; the flags do not change |
| BallGame.Player.Update | Assets/Scripts/Player.cs:63-80 | after the frame's touches, play continues only while shots remain; when none remain the label reads "No more shots!" and one more restart delay is pending; the count never rises and `Valid()` is kept |
| BallGame.Player.RestartMsg | Assets/Scripts/Player.cs:209-215 | when a delay expires the restart phase begins and the restart label shows; nothing else changes except the pending count, so further expiries are idempotent on the session |
| BallGame.PlayUntilRestart | Assets/Scripts/Player.cs:63-80 | playing any level with one release per frame fires exactly the level's budget of shots, ends at 0 shots with "No more shots!", and after the delay a tap requests the reload |

## Findings

| source | as written | input that shows it | evidently intended | confidence | as-written member | corrected member |
|---|---|---|---|---|---|---|
| Assets/Scripts/Player.cs:53-58 | `Start` assigns the position from `StartPos()` before it reads the budget. `levelPos` only has level 1, so for other levels the lookup throws and the rest of `Start` is skipped. `shots` keeps its default of 0, and the first `Update` ends the level with "No more shots!" | level number 2 (or 3) | the count starts at the level's table budget (2 or 3) whether or not a start position exists | medium; not executed (it assumes these scenes use this `LevelDetails` table) | BallGame.StartShotsAsWritten, BallGame.StartAsWrittenDropsBudget | BallGame.Player.constructor |

## Left out

- BallGame.Player.constructor: requires the level number to be in the attempts table. With any other number the source's `Start` throws and the session runs on with 0 shots (see `StartShotsAsWritten`). The constructor does not model that broken session.
- The ball's placement at the start position (`transform.position`), the `Rigidbody2D` velocity reset and the impulse vector. These are engine physics over floats. Only the fact that an impulse is applied is kept, as `shotsFired`.
- The aiming numerics: the drag origin that `TouchBegan` records, the offset, the interpolant `clamp(|offset| / 1500, 0, 1)`, the `Lerp` between `minPower` and `maxPower`, and the pointer's rotation and scale. These are floating-point vector maths. `TouchBegan` therefore has no modelled effect.
- Input capture: touch positions, finger ids and screen-to-world conversion. `HandleTouch` ignores the id and position anyway. A frame's input is given as its touch phases plus the mouse button's down, held and up flags.
- The one-second wait of the restart coroutine. An expiry is an explicit `RestartMsg` call for one pending delay, not wall-clock time.
- `Awake` (finding the level object by tag), `Debug.Log`, and the pointer following the ball each frame. These are engine wiring with no session state.
- Frame pacing in `FrameRateManager.cs` (real-time clock, `Thread.Sleep`, busy-wait). It holds no session logic.
- The commented-out legacy `Update` at the end of `Player.cs`. It is dead code.
- `int.ToString()` is modelled with an ASCII '-' and digits, as under the invariant culture. Other cultures' negative signs are not modelled.
- The start position's components are kept as the exact reals -1 and -2.3, not as their single-precision values.

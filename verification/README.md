# Memory game, input drivers and frame buffer: a Dafny model

The repository is a set of MINIX exercises in C that end in a game: sixteen cards face down, found in
pairs with the mouse, five lives. This project models its hard parts and proves what they keep.

* **The memory game** (`Cards`, `Deal`, `AnyDeal`, `Flip`, `Table`, `InPlay`, `DrawSafety`, `Rules`, `Session`, `Runs`,
  `Progress`, `ThirdCard`, `BrokenGame`, `Screens`, `Wire`, `Player`, `Realise`, `MemoryGame`). The program knows frames, a shared
  width divisor, a flag per card and a check that runs again on every tick. `Rules` is the game a player knows: reveal a
  card, reveal a second, match them or lose a life. The central theorem says that every run of the main loop, over any
  sequence of key, mouse and timer events, is a run of `Rules`, as long as the *two-card discipline* holds: no press
  lands on a third, face-down card in the tick in which two cards that differ have just come to rest face up. The
  discipline is exact. `Realise` proves the converse down to the devices: from every deal, every sequence of reveals that
  `Rules` allows is what the program reveals for some scancodes, timer ticks and mouse bytes, so every deal can be won.
  `Progress` says that every turn ends, and when. `BrokenGame` follows every run after one violation: on the last life
  the game ends and the next deal is sound; otherwise, by where the third card lies, the game is frozen for good, or it
  goes on to its third frame, whose tick charges the wrong pair again and sends it back once more. Each of these can be
  reached from every deal. `AnyDeal` says which decks are dealt: exactly those with eight faces twice. `Screens` says
  which key or press leads where, how long the faces are shown, and when the program ends.
* **Input streams** (`MousePackets`, `Pointer`, `Gesture`, `Scancodes`): the PS/2 packet assembler and its error
  path, the pointer, the gesture recogniser of lab 4, and the two scancode assemblers.
* **The frame buffer** (`Video`, `CardSheet`, `Pattern`, `Move`): drawing over one flat array of bytes, specified by
  an image with one colour per point. The array goes on for one row and one pixel behind the buffer, which is as far as
  the edge test lets a write go, so drawing is stated for any coordinates, on the screen or not.
* **The i8254 driver** (`Timer8254`) against the registers of the chip it writes and reads (Intel 82C54 data sheet,
  "Control Word Format" and "Read-Back Command").

C globals that change in place are fields of a class; each of its methods is proved equal to a function on values, and
the theorems are about those functions. `dafny verify dfyconfig.toml` checks everything.

## Findings

Where the code and its intention differ, the model follows the code.

* `maxNumOfCardsFlipped` (proj/src/proj.c:68) is never read, so nothing enforces the two-card limit:
  `InPlay.DisciplineIsExact`, in terms of the state before the tick `InPlay.DisciplineBeforeTheTick`. The tick that breaks
  it can be reached from every deal, after any pairs that the rules allow and for any three cards left of which the first
  two differ (`Realise.DisciplineCanBeBroken`). What follows is `BrokenGame.ThirdCardFreezesTheGame`,
  `BrokenGame.ThirdCardChargesAgain` and `BrokenGame.LastLifeRecovers`, met in `Realise.EveryDealCanFreeze`,
  `Realise.EveryDealCanWrap` and `Realise.EveryDealCanBreakOnTheLastLife`.
* A turn up of two or more cards would never end, because the shared width steps over 0: `Flip.TurnUpEndsOnlyAlone`.
* An error on the third byte of a mouse packet loses the frame for good: `MousePackets.FramingIffThirdBytesGood`.
* The reset from state 5 of the gesture recogniser keeps the displacement, so the next left stroke may be shorter than
  asked for: for every positive length after one such reset (`Gesture.CarryShortensStroke`), and in general exactly when
  a displacement is carried over (`Gesture.StrokeIsLongIff`). Exactly which histories are accepted:
  `Gesture.AcceptsIffGesture`.
* The pointer's lower edge is tested with the wrong sign and can be passed: `Pointer.RunsOffScreenY`,
  `Pointer.MoveYStaysVisibleIff`.
* The guard of the pixel functions lets column XResolution and row YResolution through, and nothing else off the screen
  (`Video.GuardIsSoundIff`). Row YResolution and the point (XResolution, YResolution - 1) leave the buffer
  (`Video.LeavesBufferIff`); on the rows above, column XResolution is the first pixel of the next row
  (`Video.EdgeColumnWraps`).
* In `flipCardOnClick` the index is uninitialised when the pointer is on no card; the model takes any index in 0..15.
* The card back that is drawn (75 by 109, proj/src/pixmap.h:10) is larger than the click rectangle (70 by 94): a press on
  its last five columns or fifteen rows starts nothing (`Cards.BackAnswersIff`, `Cards.EveryBackHasADeadStrip`).
* After an undisciplined press with two lives left, the double charge at the third frame takes the unsigned count of
  lives below zero to 4294967295 (`BrokenGame.ThirdCardChargesAgain`, reached in `Realise.EveryDealCanWrap`). If the third
  card is the twin of the first, that frame instead leaves a card matched and turning, which ends face down
  (`BrokenGame.MatchedCardTurnsDown`).
* The first two bytes of a mouse packet move the pointer by the packet before it (proj/src/proj.c:187-190), so every
  packet moves it three times: `Player.PacketMoves`.
* `video_test_move` backwards jumps to the end with its first step (`Move.BackwardsJumps`).
* Escape leaves the instructions for the paused game without using up the key, so the next tick pauses it again:
  `Screens.EscapePausesAgain`.
* An error on the third byte of a mouse packet also means that the pointer never moves and no press is seen any more:
  `Wire.LostMouseIsDead`.
* Opened from the menu, the instructions drop the mouse press on every tick, whatever the indentation suggests
  (proj/src/proj.c:341-343).

## Model

| member | source | states |
|---|---|---|
| Runs.EveryRunKeepsScore | proj/src/proj.c:193-384 | In every disciplined run lives are five minus the wrong pairs of the current game, two cards are matched per right pair, a game resolves at most twelve pairs, lives are 0 exactly when game_over is set (screen Exit), victory means all matched with a life left, and never both |
| Runs.EveryRunIsOrderly | proj/src/proj.c:193-384 | In every disciplined run: matched cards lie face up, still and closed under twins; at most two unmatched cards face up; nothing turns (width 1), one face-down card turns up, or two face-up cards that differ turn down at an odd width; no flip call of the next frame divides by a zero width; the menu is shown only over a fresh deal; the loop ends only from Exit with neither end flag |
| Runs.RunPlays | proj/src/proj.c:165-386 | Every disciplined run is the memory game of Rules played with exactly the cards whose turn up ended since the last deal |
| Realise.EveryLegalGameIsPlayed | proj/src/proj.c:165-386 | The converse, down to the devices: from every deal, every legal sequence of reveals is exactly what the program, started on it, reveals for some scancodes, mouse bytes and ticks |
| Realise.EveryDealCanBeWon | proj/src/proj.c:296-307 | From every deal some such signals reach victory with all five lives |
| Realise.DisciplineCanBeBroken | proj/src/proj.c:253-291 | From every deal, after any legal complete pairs, and for any three cards still to be revealed of which the first two differ, some such signals lead, with the lives those pairs leave, to a state whose next tick is undisciplined because of these cards |
| Realise.EveryDealCanFreeze | proj/src/proj.c:165-386 | Every deal can be played into a state from which on no run a card settles, a life goes, the game ends, another begins or a frame divides by a zero width |
| Realise.EveryDealCanWrap | proj/src/proj.c:279-286 | Every deal can be played to two lives and a violation, seven ticks from which on the count of lives is 4294967295 and game_over is set |
| Realise.EveryDealCanBreakOnTheLastLife | proj/src/proj.c:279-286 | Every deal can be played to its last life and a tick that breaks the discipline and ends the game |
| Wire.HeardThen | proj/src/proj.c:169-195 | What the loop makes of device signals composes: the events of two stretches of signals follow each other |
| Player.PacketMoves | proj/src/proj.c:178-191 | The three bytes of a packet move the pointer twice by the deltas of the packet before and once by its own, and only the third sets the button |
| Wire.LostMouseIsDead | proj/src/proj.c:180-191 | Once the assembler has counted past 2 in its error path, no signals ever move the pointer or press the button again |
| Player.MouseMoves | proj/src/proj.c:178-191 | A packet with deltas and one without move the pointer exactly three times by those deltas |
| Player.RevealCard | proj/src/proj.c:241-308 | From a still board any face-down card can be turned up by device signals, after which the board comes to rest again or the game has ended |
| Player.PointAt | proj/src/game.c:141-161 | Mouse packets take the pointer from anywhere on the screen to any card, changing nothing else |
| Runs.StepPlays | proj/src/proj.c:196-380 | One event is a stutter, one legal reveal, or a new deal of that game |
| Runs.StepKeepsInv | proj/src/proj.c:196-380 | Every disciplined event keeps the invariant over screens, flags, lives and board |
| Runs.DisciplineIsExactForTicks | proj/src/proj.c:242-308 | A tick of play keeps the invariant if and only if it keeps the two-card discipline |
| Runs.InstructionsReturn | proj/src/proj.c:311-345 | However long they are read, the instructions lead back to the menu they were opened from, or to the very game that was paused |
| Screens.MenuObeys | proj/src/proj.c:211-224 | Where a tick of the menu leads for any key and any press: play (0x99 or its button) first, then key 0x92, then reading (0x97 or its button), then the exit button; play sets the clock to 0 and uses up key and press |
| Screens.PauseObeys | proj/src/proj.c:315-329 | Likewise for the pause menu, where a press on play silences the key, reading comes before leaving and leaving before resuming; a resuming key is used up |
| Screens.InstructionsObey | proj/src/proj.c:330-345 | A tick of the instructions leads back exactly on escape, or on a press over a paused game, and drops the press |
| Screens.KeyFromMenu | proj/src/proj.c:211-224 | With the button up, keys 0x99, 0x97 and 0x92 and one tick lead from the menu to the game, the instructions and the exit screen, and no other key leads away |
| Screens.KeyFromPause | proj/src/proj.c:315-329 | The same from the pause menu |
| Screens.StartsInMenu | proj/src/proj.c:98-163 | The program starts in the menu over its first deal with five lives, pointer and clock at 0; a play key and a tick open the game |
| Screens.ResumeGame | proj/src/proj.c:315-318 | A paused game is resumed by 0x99 and one tick, board and lives as they were, and not paused again by the next tick |
| Screens.LeaveInstructions | proj/src/proj.c:330-345 | From every sound state of the instructions escape and one tick lead to the menu before a game and to the game during one |
| Screens.EscapePausesAgain | proj/src/proj.c:248-335 | But over a paused game the tick after that pauses it again, unless it ends it |
| Screens.PlayObeys | proj/src/proj.c:248-307 | A disciplined tick of play wins exactly at a multiple of 120 ticks with all matched, loses exactly when no life is left, and otherwise pauses exactly on 0x81 |
| Screens.FacesAreShown | proj/src/proj.c:227-240 | From the start of a game, whatever the player does, the faces are shown for exactly 240 ticks; then all cards lie face down |
| Screens.StopsIff | proj/src/proj.c:346-377 | The loop ends at exactly the ticks that find the exit screen with the game neither lost nor won |
| Screens.QuitEnds | proj/src/proj.c:222-377 | From the menu or the pause menu 0x92 and two ticks end the program |
| BrokenGame.NextGameFollows | proj/src/proj.c:346-371 | After a game lost or won the end stays on the screen, whatever the player does, until the next multiple of 240 ticks, when a fresh game is dealt |
| Runs.OpeningKeeps | proj/src/proj.c:227-240 | The opening turn-down starts play with all cards face down and nothing matched, inside one frame |
| Runs.RedealKeeps | proj/src/proj.c:346-371 | The new deal after a lost or won game is fresh although width and sides are not reset |
| Runs.PlayTickKeeps | proj/src/proj.c:242-308 | A disciplined tick of play keeps the invariant, through victory and game over |
| Runs.ScreenStep | proj/src/proj.c:197-345 | Menu, pause, instructions, keys and mouse never touch board, lives or the opening flag |
| Runs.PlayingKeepsScore | proj/src/proj.c:264-307 | The score of any state that is a game of Rules |
| Progress.CardIsShownOnTime | proj/src/proj.c:242-243 | Unless the game is paused a card turning up is shown by exactly the tick its width foretells, whatever keys and mouse do, and no card changes before |
| Progress.PressedCardIsShownOnTime | proj/src/proj.c:242-260 | From the press: a face-down card pressed on a still board is shown exactly 42 ticks after the tick that took the press if that was even, 41 if it was odd |
| Progress.PairIsHiddenOnTime | proj/src/proj.c:242-243 | Likewise both cards of a wrong pair lie face down after exactly the tick their width foretells, and no card changes before |
| Progress.ChargedPairIsHiddenOnTime | proj/src/proj.c:242-291 | From the charge: a pair that costs a life, but not the last, lies face down again after exactly the tenth tick after the one that charged it |
| Progress.TurningTick | proj/src/proj.c:241-308 | A tick whose frame leaves cards turning changes the animation and nothing else |
| InPlay.TickPlays | proj/src/proj.c:242-293 | One tick reveals at most the card whose turn ends in its frame, and then does to the board what Rules does to the game, charging a wrong pair once |
| InPlay.DisciplineIsExact | proj/src/proj.c:253-293 | On the board: the tick ends in a playable board if and only if no press lands on a third card while two cards that differ lie open |
| InPlay.DisciplineBeforeTheTick | proj/src/proj.c:242-293 | The same condition on the state before the tick: it is broken if and only if a card is one frame from being shown beside an open card that differs, this tick draws, and the press is on another face-down card |
| InPlay.CheckTurning | proj/src/proj.c:252-293 | While cards turn, neither press nor check changes anything, so a wrong pair is not charged again |
| InPlay.CheckPair | proj/src/proj.c:264-293 | A pair at rest is matched with its twin closed off, or sent back turning with one life less |
| InPlay.CheckPairBesidePress | proj/src/proj.c:253-277 | A press on a third card is harmless when the open pair matches |
| InPlay.MatchKeepsCommon | proj/src/proj.c:274-277 | Matched cards stay face up, still, and closed under twins |
| InPlay.ClickStartsCardUnder | proj/src/game.c:621-756 | From a quiet board a click starts exactly the face-down card whose click rectangle holds the pointer, and nothing else |
| InPlay.ClickOnBack | proj/src/game.c:621-756 | On a drawn back a click starts that card if the point answers, and nothing at all if it does not |
| InPlay.FrameSpec | proj/src/game.c:245-276 | A frame shows no card, or shows the one turning up and comes to rest |
| InPlay.FrameTurningUp | proj/src/game.c:385-463 | A frame of one card turning up moves the width by one, turning round past 10 |
| InPlay.FrameTurningDown | proj/src/game.c:306-383 | A frame of two cards turning down makes two calls: widths 1, 5, 9, back at 9, 5, and down |
| InPlay.ThirdCardBreaks | proj/src/proj.c:253-291 | The undisciplined press leaves three cards turning at once |
| BrokenGame.EveryUndisciplinedTickBreaks | proj/src/proj.c:253-291 | Every undisciplined tick of a sound game has its open pair and a third card, the one under the pointer |
| BrokenGame.ThirdCardFreezesTheGame | proj/src/proj.c:165-386 | With a life left and the third card before the second of the pair, every run from there, of any events, keeps cards and lives, never ends the game, never deals again and never divides by a zero width; after n >= 3 frames the width is 2 - 9 * (n - 3) |
| BrokenGame.ThirdCardChargesAgain | proj/src/proj.c:242-293 | With a life left and the third card behind the pair, nothing is charged for two frames over any run; the tick of the third frame charges one life if the third card is the twin of the first and two otherwise, sets game_over when the count passes 0, and leaves the pair turning again, with the third card or, in the twin case, with the first one matched |
| BrokenGame.MatchedCardTurnsDown | proj/src/game.c:306-383 | In the twin case, without a press, ten more calls leave a matched card face down |
| BrokenGame.LastLifeRecovers | proj/src/proj.c:283-371 | On the last life the undisciplined tick ends the game; any run keeps it so until the next multiple of 240 ticks, when a sound new game is dealt |
| ThirdCard.UndisciplinedTick | proj/src/proj.c:253-291 | The undisciplined tick charges the pair and leaves it turning beside the third card, the animation at its start |
| ThirdCard.CheckOfThree | proj/src/proj.c:252-293 | While the three cards turn, click gate and check change nothing |
| ThirdCard.NextFrame | proj/src/game.c:245-463 | Each frame of the three cards: the widths it goes through for ever, or, with the third card behind the pair, all three face up in the third frame |
| ThirdCard.MixIsSafe | proj/src/game.c:329-430 | None of these frames divides by a zero width |
| Table.ScanOfTwo | proj/src/proj.c:265-292 | With two open cards the sixteen-step check compares those two and nothing else |
| Table.ScanOfThree | proj/src/proj.c:265-292 | With three it compares the first with the second and then with the third |
| Table.ScanOfOne | proj/src/proj.c:265-292 | With at most one open card the check changes nothing |
| Rules.PlayCountsPairs | proj/src/proj.c:274-287 | Lives and matched cards of a game, counted from its consecutive pairs of reveals |
| Rules.PotentialPositive | proj/src/proj.c:264-307 | Unmatched pairs plus lives fall by one with every resolved pair and stay positive |
| Rules.AtMostTwelvePairs | proj/src/proj.c:264-307 | A game resolves at most twelve pairs |
| Flip.CallTogether | proj/src/game.c:306-383 | One call on k cards turning together moves the shared width by exactly k, or ends the turn |
| Flip.TurnDownTakes | proj/src/game.c:306-383 | Any k face-up cards are face down after exactly 2 * ceil(10 / k) calls, with the width back at 1 and never below it on the way |
| Flip.TurnUpTakes21 | proj/src/game.c:385-463 | A single card turning up is face up after exactly 21 calls, the width within 1..11 before |
| Flip.TurnUpEndsOnlyAlone | proj/src/game.c:385-463 | A turn up ends if and only if it is of one card |
| Flip.OpeningTurnDown | proj/src/game.c:253-275 | All sixteen cards turn down inside one draw_game_cards |
| Flip.DrawOne | proj/src/game.c:253-258 | With one turning card a frame is one call |
| Flip.DrawTwo | proj/src/game.c:253-258 | With two turning cards a frame is two calls |
| Deal.DealtIsFresh | proj/src/game.c:54-92 | Whenever dealing finishes the deck holds eight different faces, each exactly twice, face up and unmatched |
| Deal.PickFacesSpec | proj/src/game.c:59-74 | The retry loop yields eight different picks in range |
| Deal.PickFacesInOrder | proj/src/game.c:59-74 | They are the first eight different picks of the random stream, each where it occurs first, and no draw after the eighth is used up |
| Deal.FirstSeenSpec | proj/src/game.c:64-73 | Keeping first occurrences keeps the values, repeats none and follows the order of the stream |
| Deal.LaidIsFresh | proj/src/game.c:76-82 | Filling i and 15 - i pairs the deck |
| AnyDeal.DealtIffFresh | proj/src/game.c:54-92 | For a generator with RAND_MAX of at least 240 (the C standard asks for 32767), a deck is dealt by some draws if and only if it holds eight different faces twice each, face up and untouched |
| AnyDeal.ShuffleReaches | proj/src/game.c:84-91 | Every order of the cards is what the shuffle makes for some draws |
| AnyDeal.ShuffleReachesIff | proj/src/game.c:87-87 | Card i can be swapped with position j exactly when (j - i) * (RAND_MAX / (16 - i) + 1) <= RAND_MAX |
| AnyDeal.ShuffleMissesLast | proj/src/game.c:87-87 | With RAND_MAX 16 the first card never reaches the last position, so a bound is needed |
| AnyDeal.EveryPlaceIsPicked | proj/src/game.c:59-62 | The first draw decides the row by its remainder and the second the column, so that every one of the 52 places is picked by some draws |
| Deal.ShuffleIndexInRange | proj/src/game.c:87-87 | For any RAND_MAX the swap index lies in i..15 |
| Deal.ShuffleMovesCards | proj/src/game.c:84-91 | The shuffle preserves the multiset of cards |
| Deal.MatchTestFindsOneTwin | proj/src/proj.c:274-274 | Equality of number and suit holds for exactly one other position |
| Deal.FacesDiffer | proj/src/game.c:758-816 | Number and suit together identify the place on the sheet |
| Deal.SheetOrder | proj/src/game.c:758-816 | The columns of the sheet run from ace to king, its rows are clubs, spades, hearts, diamonds |
| Cards.HitIffUnder | proj/src/game.c:627-752 | Each of the sixteen hit tests is true exactly for the card found by division |
| Cards.HitRectanglesDisjoint | proj/src/game.c:101-107 | No point of the screen hits two cards |
| Cards.BackAnswersIff | proj/src/video.c:132-142 | For every point on a drawn 75x109 back, the click finds that card exactly on its first 70 columns and 94 rows, and no card elsewhere |
| Cards.HitIsOnBack | proj/src/game.c:627-752 | Every click rectangle lies inside the drawn back |
| Cards.EveryBackHasADeadStrip | proj/src/video.c:132-142 | Every drawn back has points to the right and below that start nothing |
| Cards.DeadStripIs | proj/src/video.c:132-142 | What does not answer of a drawn back is exactly columns 70 to 74 and rows 94 to 108 |
| DrawSafety.NoZeroWidth | proj/src/game.c:329-347 | No frame of a game divides by a zero width |
| MemoryGame.GameLoop.InitializeGameCards | proj/src/game.c:54-92 | Deals in place exactly the deck of Deal.Dealt, or reports that the random stream ran out |
| MemoryGame.GameLoop.PickEight | proj/src/game.c:56-74 | The loop with the counter stepping back picks the first eight different faces of the stream |
| MemoryGame.GameLoop.Place | proj/src/game.c:64-73 | Writes the pick and keeps the index, or finds it among the earlier ones and steps back |
| MemoryGame.GameLoop.Shuffle | proj/src/game.c:84-91 | The in-place swaps are the shuffle |
| MemoryGame.GameLoop.FlipACardDown | proj/src/game.c:306-383 | Cards, sides and width change as Flip.FlipCall says; true exactly when the turn ended |
| MemoryGame.GameLoop.FlipACardUp | proj/src/game.c:385-463 | Cards, sides and width change as Flip.FlipCall says; true exactly when the turn ended |
| MemoryGame.GameLoop.DrawGameCards | proj/src/game.c:245-276 | One frame; every card still before it is drawn once, in board order, at the corner getCardsScreenXY gives for it and with the side that is up, no card that still turns after it is drawn, and the off-screen break skips none |
| MemoryGame.GameLoop.FlipCardOnClick | proj/src/game.c:621-756 | The sixteen-way chain is the click on the card under the pointer |
| MemoryGame.GameLoop.ResolveOpenCards | proj/src/proj.c:264-293 | The check loop, with lives, game_over and screen |
| MemoryGame.GameLoop.ClickAndCheck | proj/src/proj.c:252-293 | Click gate, click and check after a frame |
| MemoryGame.GameLoop.MenuScreen | proj/src/proj.c:197-224 | Three tests in sequence equal one choice that uses up key and press |
| MemoryGame.GameLoop.PauseScreen | proj/src/proj.c:311-329 | Likewise for the pause menu, which remembers the game |
| MemoryGame.GameLoop.InstructionsScreen | proj/src/proj.c:330-345 | Leaves for the game or the menu by where it was opened |
| MemoryGame.GameLoop.ExitScreen | proj/src/proj.c:346-377 | Deals again after an end, or stops the loop |
| MemoryGame.GameLoop.OpeningScreen | proj/src/proj.c:227-240 | Waits for a multiple of 240 ticks, then turns all cards down |
| MemoryGame.GameLoop.PlayScreen | proj/src/proj.c:241-308 | Frame, pause key, click, check, victory |
| MemoryGame.GameLoop.TimerInterrupt | proj/src/proj.c:193-383 | The new state is one step of the machine, and the object stays valid if the tick is disciplined |
| MemoryGame.GameLoop.MouseMoved | proj/src/proj.c:187-190 | Takes over the press and moves the pointer, keeping the invariant |
| MemoryGame.GameLoop.KeyPressed | proj/src/proj.c:174-176 | Takes over the scancode, keeping the invariant |
| MemoryGame.GameLoop.constructor | proj/src/proj.c:98-163 | Starts in the menu over a fresh deal |
| Pointer.StaysOnScreenX | proj/src/game.c:141-151 | The pointer never leaves the screen sideways |
| Pointer.MoveXHalves | proj/src/game.c:141-151 | Inside the screen the column moves by half the delta, rounded toward 0; past the left edge it becomes 0, past the right one 785 |
| Pointer.MoveYHalves | proj/src/game.c:153-161 | Likewise for the row, which is counted downwards |
| Pointer.BoundedY | proj/src/game.c:153-161 | For nine-bit deltas its row stays in 0..983 |
| Pointer.RunsOffScreenY | proj/src/game.c:156-160 | Row 983 is reached from row 0, where the pointer starts |
| Pointer.MoveYStaysVisibleIff | proj/src/game.c:153-161 | One move stays visible exactly when it is not a move down whose half passes the lower edge |
| MousePackets.RoundTrip | proj/src/mouse.c:134-189 | From a fresh start any bytes without bit 3 followed by any packets yield exactly those packets and their number |
| MousePackets.PacketFormat | proj/src/mouse.c:157-187 | Buttons are bits 0 to 2 of the first byte, overflow bits 6 and 7, and the deltas nine-bit numbers with their signs in bits 4 and 5 |
| MousePackets.FramingIffThirdBytesGood | proj/src/mouse.c:97-189 | In frame, after whole packets the assembler is in frame with all of them counted if and only if every third byte arrived well |
| MousePackets.FramingHolds | proj/src/mouse.c:97-189 | Errors on first and second bytes never cost the frame, and every error-free packet is decoded exactly |
| MousePackets.LostStaysLost | proj/src/proj.c:180-190 | Once the error path has counted past 2 no packet is ever completed again |
| MousePackets.DecodeEncode | proj/src/mouse.c:157-187 | Decoding undoes the standard encoding: nine-bit deltas, buttons, overflow flags |
| MousePackets.EncodeDecode | proj/src/mouse.c:157-187 | And encoding undoes decoding on every triple with bit 3 set |
| MousePackets.TotalCountsPackets | proj/src/mouse.c:187-187 | The 32-bit counter counts the packets |
| MousePackets.MouseDriver.MouseIh | proj/src/mouse.c:97-132 | Byte, error flag and counter after an interrupt |
| MousePackets.MouseDriver.PrintMousePacket | proj/src/mouse.c:134-189 | The globals change as the assembler function says |
| MousePackets.MouseDriver.Interrupt | proj/src/proj.c:178-191 | One interrupt is one step of the assembler; the pointer follows exactly on clean bytes outside the error path |
| Gesture.AcceptsIffGesture | lab4/lab4.c:155-216 | The recogniser stops on a history if and only if it ends in a gesture begun when idle: left press, left stroke reaching x_len from the carried displacement, left release, right press, right stroke reaching it from zero, right release at once |
| Gesture.AcceptsIffTwoStrokes | lab4/lab4.c:173-216 | The same in terms of buttons and deltas: every packet of the left stroke has the left button, dx >= -tol and dy >= -tol, every one of the right stroke the right button, dx >= -tol and dy <= tol, and each stroke reaches x_len with its last packet |
| Gesture.GestureStaysInside | lab4/lab4.c:178-205 | So the left stroke of n packets falls by at most n * tol and the right one rises by at most that |
| Gesture.GestureAccepted | lab4/lab4.c:173-216 | Every such gesture is accepted |
| Gesture.Explain | lab4/lab4.c:173-216 | Every reachable state is explained by a cut of the history |
| Gesture.StrokeIsLongIff | lab4/lab4.c:173-216 | When idle, every gesture that can follow has a left stroke of at least x_len if and only if no displacement is carried over, or both x_len and tolerance are 0 |
| Gesture.CarryIsZeroOrLong | lab4/lab4.c:173-216 | The carried displacement is 0 or at least x_len |
| Gesture.StrokeIsLongEnough | lab4/lab4.c:178-184 | In particular without a fall from state 5 to 0 the left stroke itself sums to at least x_len |
| Gesture.CarryShortensStroke | lab4/lab4.c:213-215 | For every positive x_len and any tolerance: after one gesture whose right button is not released at once, a left stroke that does not move is accepted |
| Gesture.Recogniser.OnPacket | lab4/lab4.c:173-216 | One packet is one step |
| Gesture.Recogniser.Recognise | lab4/lab4.c:155-223 | Stops at the end of a gesture, or uses up a stream that does not end in one |
| Scancodes.SameCodes | proj/src/keyboard.c:44-74 | The two assemblers print the same codes on every byte stream |
| Scancodes.CodesArrive | proj/src/keyboard.c:48-74 | Any sequence of one-byte and prefixed codes is printed back unchanged |
| Scancodes.OneKey | proj/src/keyboard.c:48-74 | A byte below 0x80 is printed as a make code and the same byte with bit 7 set as its break code, also behind 0xE0; 0xE0 itself prints nothing |
| Scancodes.MakeMeansLow | proj/src/keyboard.c:57-59 | On any stream a printed code is a make code exactly if its last byte is below 0x80 |
| Scancodes.NothingLost | proj/src/keyboard.c:48-74 | On any stream the printed codes are well formed and hold every byte but repeated and trailing prefixes |
| Scancodes.CountAssembler.PrintSC | proj/src/keyboard.c:48-74 | One byte is one step of the counting assembler |
| Scancodes.PrefixAssembler.PrintScancode | lab5/keyboard.c:56-79 | One byte is one step of the prefix-keeping assembler |
| Video.VideoBuffer.DrawPixel | lab5/video_gr.c:96-106 | For any coordinates: replaces one pixel of memory, on the screen or behind it, by the colour's low bytes, which then stand at the offset the code computes, and returns 0, or returns 1 and changes nothing |
| Video.ColorBytesMakeUp | lab5/video_gr.c:99-104 | The b bytes stored, read lowest first, are the colour modulo 256^b |
| Video.DepthIsWholeBytes | lab5/video_gr.c:99-104 | In modes of 8, 15, 16, 24 and 32 bits a pixel takes the bytes its bits need |
| Video.GuardIsSoundIff | lab5/video_gr.c:97-97 | The guard refuses a point or the point is on the screen, except exactly on column XResolution and row YResolution |
| Video.LeavesBufferIff | lab5/video_gr.c:97-104 | A write that passes the guard leaves the buffer if and only if it is on row YResolution or at column XResolution of the last row |
| Video.EdgeColumnWraps | lab5/video_gr.c:97-104 | Column XResolution of any row is pixel 0 of the next |
| Video.EdgeWitnesses | lab5/video_gr.c:97-104 | Every screen has a point that passes and leaves the buffer, and one that passes and wraps if it has two rows |
| Video.VideoBuffer.DrawHLine | lab5/video_gr.c:85-91 | For any line: how many pixels are drawn before the guard stops it, where in memory they lie, and that 1 is returned exactly when some are missing |
| Video.VideoBuffer.DrawRectangle | lab5/video_gr.c:73-80 | For any rectangle: how many lines of how many pixels are drawn before it gives up, and that 0 is returned exactly when width or height is 0 or it passes neither edge by more than one |
| Video.PaintedRowsAt | lab5/video_gr.c:73-91 | A pixel of memory is painted exactly if it is on one of those lines |
| Video.RectangleOnScreen | lab5/video_gr.c:73-80 | A rectangle on the screen changes exactly the points inside it |
| Video.VideoBuffer.DrawSprite | lab5/video_gr.c:124-131 | For any place, negative ones included: the sprite's pixels are put in order, coordinates cut to sixteen bits, each as the guard allows |
| Video.SpriteClips | lab5/video_gr.c:124-131 | A sprite that keeps within the right and lower edge is copied to its box as far as that is on the screen, and nothing else changes |
| Video.SpriteBeyond | lab5/video_gr.c:124-131 | Past the right or lower edge nothing is drawn |
| Video.VideoBuffer.GreenPartOfScreen | proj/src/video.c:93-106 | For any corner and size: which pixels the two loops put before they stop at the right or lower edge |
| Video.GreenClips | proj/src/video.c:93-106 | That is the rectangle clipped at all four edges, or nothing if its corner is past the right or lower one, for coordinates that do not wrap at sixteen bits |
| Video.DrawnAt | lab5/video_gr.c:73-91 | What a drawn block shows at every point of the screen |
| Video.OffsetInjective | lab5/video_gr.c:99-104 | Different points have different addresses |
| Video.PixelsApart | lab5/video_gr.c:99-104 | The bytes of different pixels do not overlap |
| CardSheet.DrawCard | proj/src/video.c:126-159 | Copies exactly the card's tile, or the back, to the screen rectangle |
| CardSheet.DrawFace | proj/src/video.c:146-157 | The running pointer is always the row-major address of the tile's pixel |
| CardSheet.TileInsideSheet | proj/src/video.c:127-130 | Every pixel of all 52 faces lies inside the 950x392 sheet |
| CardSheet.SheetPlace | proj/src/video.c:127-130 | A sheet address determines column, row and pixel of its face |
| CardSheet.FacesApart | proj/src/video.c:127-130 | No two faces share a sheet pixel |
| CardSheet.ColorIsNumber | proj/src/video.c:147-152 | The colour read from the sheet is its three bytes, lowest first |
| CardSheet.CardsOnScreen | proj/src/game.c:101-107 | The corner of every card leaves room for its back on the screen |
| Pattern.DrawPattern | lab5/lab5.c:167-192 | The double loop paints the grid cell by cell; the early break never fires |
| Pattern.PatternShows | lab5/lab5.c:167-192 | Each point inside the n-by-n area holds the formula colour of its cell, every other point is unchanged |
| Pattern.UnpackPack | lab5/lab5.c:139-165 | Unpacking a packed colour returns its three components |
| Pattern.CellComponents | lab5/lab5.c:180-183 | A cell's colour unpacks to the three formulas |
| Pattern.IndexedCounts | lab5/lab5.c:175-178 | In the palette mode the first cell has the colour asked for, and every next cell in reading order, also across rows, is one step further modulo 256 |
| Pattern.PackUnpack888 | lab5/lab5.c:139-162 | Every 24-bit colour is 65536 r + 256 g + b of its unpacked components, and packing gives it back |
| Pattern.PackUnpack565 | lab5/lab5.c:139-162 | Every 16-bit colour is 2048 r + 32 g + b, likewise |
| Pattern.PackUnpack555 | lab5/lab5.c:139-162 | Every 15-bit colour is 1024 r + 32 g + b, likewise |
| Move.Animation.Tick | lab5/lab5.c:331-380 | After every tick the sprite is at min(start + T * speed, end), or min(start + T / -speed, end) for negative speed, or has jumped to the end if that lies behind, on an otherwise black screen |
| Move.Animation.Advance | lab5/lab5.c:336-356 | Erases, steps one axis without passing the end, draws again |
| Move.NeverOvershoots | lab5/lab5.c:339-344 | The position only grows, never passes the end and stays there |
| Move.MovesBySpeed | lab5/lab5.c:336-356 | Until the end is reached, T ticks move by T * speed, and -speed ticks by one pixel if speed is negative |
| Move.BackwardsJumps | lab5/lab5.c:338-354 | A move backwards is at its end after one tick, or after exactly -speed ticks if speed is negative |
| Move.EraseRestores | lab5/lab5.c:337-337 | Painting the sprite's box black leaves a black screen |
| Move.Animation.constructor | lab5/lab5.c:311-319 | The first drawing shows the sprite at its start |
| Timer8254.TimerSetFrequency | proj/src/timer.c:13-61 | Accepts exactly timers 0..2 with 19 <= freq <= TIMER_FREQ; then sets the count to the divisor and access to two bytes, and leaves everything else, else the whole chip, unchanged |
| Timer8254.AcceptedIffDivisorFits | proj/src/timer.c:13-30 | A request for timers 0..2 is accepted exactly when its divisor is between 1 and 65535 |
| Timer8254.TimerGetConf | proj/src/timer.c:87-118 | Reports the status byte and leaves the chip as it was |
| Timer8254.LastRequestWins | proj/src/timer.c:13-61 | After any requests each timer counts the divisor of its last accepted one, mode and BCD bit as they began |
| Timer8254.DivisorFits | proj/src/timer.c:21-44 | div * freq <= TIMER_FREQ < (div + 1) * freq and 1 <= div <= 62799, so sixteen bits suffice |
| Timer8254.ControlKeepsMode | proj/src/timer.c:19-42 | The status byte's low half in the control word keeps mode and BCD bit |
| Timer8254.Split | proj/src/utils.c:7-27 | The two bytes make up the value |
| Timer8254.LowByteFirst | proj/src/timer.c:44-58 | Two writes to a counter with two-byte access set it to the number with the first as low byte |

## Left out

- Interrupt subscription, message receiving, port failures, delays and sleeps: operating-system calls; they appear as events. The tick counter and the mouse byte counter are unbounded here.
- The random generator: dealing takes a finite record of what `rand()` returns; a record on which the retry loop does not finish is reported, not modelled further.
- Memory behind the frame buffer: taken as bytes that a write may change; what the program keeps there is not modelled.
- Move.Animation.constructor: sprites that fit the screen at both ends of the move.
- CardSheet.DrawCard: the 24-bit mode the game sets; the top byte of the colour word, which the code leaves uninitialised, is taken as zero and never stored.
- MemoryGame.GameLoop.FlipACardDown: the scaled drawing inside the flips is reduced to its width division.
- MemoryGame.GameLoop.MouseMoved: takes any press and deltas; which ones a byte brings is stated by `Wire`, on values.
- The width of a frozen game: it falls without bound here, while the C variable is an int that overflows in the end.
- After the third frame of `BrokenGame.ThirdCardChargesAgain`: a press in that very tick starts yet another card beside those that turn; such runs are not followed further.
- Menu, pause, letter, heart, sun, moon, victory and instruction drawing, the RTC, and the copy to video memory: no further state.
- `flipAllCardsDown`, which nothing calls, `timer_display_conf`, `mouse_test_async`, `mouse_test_remote`, lab 0, 2 and 3: display only, easy, or duplicates.

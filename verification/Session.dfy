/** The main loop: screens, keys, clicks and the timer tick, as one step function. */
module Session {
  import opened Bytes
  import opened Cards
  import opened Flip
  import opened Deal
  import opened Table
  import opened Pointer

  datatype Screen = Menu | Game | Pause | HighScores | Instructions | Exit | Wait

  datatype State = State(
    board: Board, lives: nat, isAlive: bool,
    gs: Screen, prevState: Screen, initGame: bool, gameOver: bool, victory: bool, running: bool,
    scancode: int, lb: bool, mx: int, my: int, ticks: nat)

  /** `Mouse` is a byte that reached `print_mouse_packet`, with the packet as it then stands; `Timer`
      carries the value of the uninitialised click index and what `rand()` would return. */
  datatype Event = Key(code: int) | Mouse(pressed: bool, dx: int, dy: int) | Timer(stray: nat, rng: Rng)

  const ESCAPE := 0x81
  const P_KEY := 0x99
  const I_KEY := 0x97
  const E_KEY := 0x92

  /** The press is on a button, which spans columns x0..x1 and the thirty rows below y. */
  predicate On(s: State, x0: int, x1: int, y: int) {
    s.lb && x0 <= s.mx <= x1 && y <= s.my <= y + 30
  }

  predicate OnPlay(s: State) { On(s, 360, 445, 300) }
  predicate OnInstructions(s: State) { On(s, 280, 520, 400) }
  predicate OnExit(s: State) { On(s, 360, 440, 500) }

  /** Play uses up both key and press, instructions only the press. */
  function MenuTick(s: State): State {
    var play := s.scancode == P_KEY || OnPlay(s);
    var read := !play && (s.scancode == I_KEY || OnInstructions(s));
    var exit := !play && (s.scancode == E_KEY || (!read && OnExit(s)));
    s.(gs := if exit then Exit else if read then Instructions else if play then Game else s.gs,
       scancode := if play then 0 else s.scancode,
       ticks := if play then 0 else s.ticks,
       lb := s.lb && !play && !read)
  }

  /** Every choice uses up the key; only instructions use up the press, and they remember the game. */
  function PauseTick(s: State): State {
    var play := s.scancode == P_KEY || OnPlay(s);
    var read := (!play && s.scancode == I_KEY) || OnInstructions(s);
    var exit := !read && ((!play && s.scancode == E_KEY) || OnExit(s));
    s.(gs := if exit then Exit else if read then Instructions else if play then Game else s.gs,
       scancode := if play || read || exit then 0 else s.scancode,
       prevState := if read then Game else s.prevState,
       lb := s.lb && !read)
  }

  /** Opened from the menu, the press is dropped on every tick and only escape leaves. */
  function InstructionsTick(s: State): State {
    if s.prevState == Game then
      if s.scancode == ESCAPE || s.lb then s.(gs := Game, prevState := Instructions, lb := false) else s
    else
      s.(gs := if s.scancode == ESCAPE then Menu else s.gs, lb := false)
  }

  function AllTurning(cards: seq<Card>): (r: seq<Card>)
    ensures |r| == |cards|
  {
    seq(|cards|, i requires 0 <= i < |cards| => cards[i].(isFlipping := true))
  }

  function OpeningTick(s: State): State
    requires WellFormed(s.board)
  {
    if s.ticks % 240 == 0
    then s.(initGame := false, board := Draw(s.board.(cards := AllTurning(s.board.cards))))
    else s.(board := Draw(s.board))
  }

  predicate AllMatched(cards: seq<Card>) {
    forall i :: 0 <= i < |cards| ==> cards[i].flipSuccess
  }

  function PlayTick(s: State, stray: nat): State
    requires WellFormed(s.board) && stray < CARDS
  {
    var r := BoardTick(s.board, s.lives, s.ticks % 2 == 0, s.lb, CardUnder(s.mx, s.my), stray);
    var won := s.ticks % 120 == 0 && AllMatched(r.board.cards);
    s.(board := r.board, lives := r.lives,
       isAlive := s.isAlive && !r.over, gameOver := s.gameOver || r.over, victory := s.victory || won,
       gs := if r.over || won then Exit else if s.scancode == ESCAPE then Pause else s.gs)
  }

  function ExitTick(s: State, rng: Rng): State
    requires ValidRng(rng)
    requires (s.gameOver || s.victory) && s.ticks % 240 == 0 ==> Dealt(rng).Some?
  {
    if s.gameOver || s.victory then
      if s.ticks % 240 == 0 then
        s.(gs := Menu, gameOver := false, victory := false, initGame := true,
           board := s.board.(cards := Dealt(rng).value), lives := 5, isAlive := true)
      else s
    else s.(running := false)
  }

  /** The tick at which the next game is dealt. */
  predicate Redeals(s: State, e: Event) {
    s.running && e.Timer? && s.gs == Exit && (s.gameOver || s.victory) && (s.ticks + 1) % 240 == 0
  }

  /** Dealing, when it happens, finishes. */
  predicate EventOk(s: State, e: Event) {
    WellFormed(s.board) &&
    (e.Timer? ==> e.stray < CARDS && ValidRng(e.rng) && (Redeals(s, e) ==> Dealt(e.rng).Some?))
  }

  function TimerTick(before: State, e: Event): State
    requires before.running && e.Timer? && EventOk(before, e)
  {
    var s := before.(ticks := before.ticks + 1);
    match s.gs
    case Menu => MenuTick(s)
    case Game => if s.initGame then OpeningTick(s) else PlayTick(s, e.stray)
    case Pause => PauseTick(s)
    case Instructions => InstructionsTick(s)
    case Exit => ExitTick(s, e.rng)
    case _ => s
  }

  function Step(s: State, e: Event): State
    requires EventOk(s, e)
  {
    if !s.running then s
    else match e
    case Key(code) => s.(scancode := code)
    case Mouse(pressed, dx, dy) => s.(lb := pressed, mx := MoveX(s.mx, dx), my := MoveY(s.my, dy))
    case Timer(_, _) => TimerTick(s, e)
  }

  /** `proj_main_loop` before its first event. */
  function Start(deck: seq<Card>): State {
    State(Board(deck, seq(CARDS, _ => 0), 1), 5, true, Menu, Exit, true, false, false, true, 0, false, 0, 0, 0)
  }
}

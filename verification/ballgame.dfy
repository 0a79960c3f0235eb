/**
  The shot-budget session of the ball game's player. A level starts with
  the budget from the level table; each finished drag (a touch that ends)
  fires one shot and uses up one unit of the budget; once the budget is
  used up the per-frame tick stops play and schedules a one-second delay,
  after which a new touch reloads the level.

  Engine effects are kept as plain state: the scene reload is
  `restartRequested`, the shots text is `shotsLabel`, the "touch to
  restart" label is `restartLabelShown`, the aiming pointer is
  `pointerShown`, each impulse given to the ball is counted in
  `shotsFired`, and each started delay coroutine is counted in
  `pendingDelays` until it expires.
 */
module BallGame {
  import LevelDetails
  import Decimal

  /** What the shots label shows. */
  datatype State = LevelPlaying | LevelEnded

  /** The phase of one touch (or of the mouse standing in for one). */
  datatype TouchPhase = Began | Moved | Stationary | Ended | Canceled

  /** The raw input of one frame: the native touches, and the mouse button's
      went-down / is-held / went-up flags of that frame. */
  datatype FrameInput = FrameInput(touches: seq<TouchPhase>, mouseDown: bool, mouseHeld: bool, mouseUp: bool)

  /** The text of the shots label. */
  function LabelText(state: State, shots: int): (text: string)
    ensures state == LevelEnded ==> text == "No more shots!"
    ensures state == LevelPlaying ==> |text| >= 1 && (text[0] == '-' <==> shots < 0)
  {
    if state == LevelEnded then "No more shots!" else Decimal.FromInt(shots)
  }

  /** The ended label is the fixed message; the playing label is the decimal text of the count. */
  lemma LabelTextMeaning(state: State, shots: int)
    ensures state == LevelEnded ==> LabelText(state, shots) == "No more shots!"
    ensures state == LevelPlaying ==>
      var text := LabelText(state, shots);
      Decimal.WellFormed(text) && Decimal.ParseInt(text) == shots
  {
    Decimal.FromIntRoundTrip(shots);
  }

  /** The two kinds of label never look alike, and a playing label tells the shot count exactly. */
  lemma LabelTextDistinguishes(s: State, t: State, a: int, b: int)
    ensures LabelText(s, a) == LabelText(t, b) ==> s == t && (s == LevelPlaying ==> a == b)
  {
    var ended := "No more shots!";
    if s != t {
      var playing := if s == LevelPlaying then a else b;
      assert Decimal.IsDigit(Decimal.FromInt(playing)[0]) || Decimal.FromInt(playing)[0] == '-' by {
        if playing >= 0 {
          assert Decimal.AllDigits(Decimal.FromInt(playing));
        }
      }
      assert !Decimal.IsDigit(ended[0]) && ended[0] != '-';
    } else if s == LevelPlaying {
      Decimal.FromIntInjective(a, b);
    }
  }

  /** The touch phases handled in one frame: the native touches, or, when
      there are none, the ones the mouse simulates in the order down, held, up. */
  function FramePhases(input: FrameInput): (phases: seq<TouchPhase>)
    ensures |input.touches| > 0 ==> phases == input.touches
    ensures |input.touches| == 0 ==> |phases| <= 3
  {
    if |input.touches| > 0 then input.touches
    else
      (if input.mouseDown then [Began] else [])
      + (if input.mouseHeld then [Moved] else [])
      + (if input.mouseUp then [Ended] else [])
  }

  /** Native touches win; without them each mouse flag contributes exactly
      its own phase, once, in the order down, held, up. */
  lemma FramePhasesMeaning(input: FrameInput)
    ensures |input.touches| > 0 ==> FramePhases(input) == input.touches
    ensures |input.touches| == 0 ==>
      var phases := FramePhases(input);
      && (Began in phases <==> input.mouseDown)
      && (Moved in phases <==> input.mouseHeld)
      && (Ended in phases <==> input.mouseUp)
      && Stationary !in phases && Canceled !in phases
      && |phases| == (if input.mouseDown then 1 else 0) + (if input.mouseHeld then 1 else 0) + (if input.mouseUp then 1 else 0)
      && (forall i, j :: 0 <= i < j < |phases| ==> MouseRank(phases[i]) < MouseRank(phases[j]))
  {
  }

  /** Position of a phase in the mouse simulation's order. */
  function MouseRank(p: TouchPhase): (rank: int) {
    match p
    case Began => 0
    case Moved => 1
    case Ended => 2
    case _ => 3
  }

  /** How many phases of `ps` are `p`. */
  function Count(ps: seq<TouchPhase>, p: TouchPhase): (n: nat) {
    if ps == [] then 0
    else Count(ps[..|ps| - 1], p) + (if ps[|ps| - 1] == p then 1 else 0)
  }

  /** A phase is counted at most once per element, and at least once exactly when present. */
  lemma {:induction false} CountMeaning(ps: seq<TouchPhase>, p: TouchPhase)
    ensures Count(ps, p) <= |ps|
    ensures Count(ps, p) > 0 <==> p in ps
  {
    if ps != [] {
      var init := ps[..|ps| - 1];
      CountMeaning(init, p);
      assert ps == init + [ps[|ps| - 1]];
    }
  }

  /** Whether the aiming pointer is visible after handling `ps` in play:
      a move shows it, an end hides it, the other phases leave it. */
  function PointerAfter(shown: bool, ps: seq<TouchPhase>): (visible: bool)
    ensures |ps| > 0 && ps[|ps| - 1] == Moved ==> visible
    ensures |ps| > 0 && ps[|ps| - 1] == Ended ==> !visible
  {
    if ps == [] then shown
    else
      var last := ps[|ps| - 1];
      if last == Moved then true
      else if last == Ended then false
      else PointerAfter(shown, ps[..|ps| - 1])
  }

  /** The last move or end among `ps` decides whether the pointer shows;
      with neither, it stays as it was. */
  lemma {:induction false} PointerAfterMeaning(shown: bool, ps: seq<TouchPhase>, k: nat)
    requires k < |ps| && (ps[k] == Moved || ps[k] == Ended)
    requires forall j :: k < j < |ps| ==> ps[j] != Moved && ps[j] != Ended
    ensures PointerAfter(shown, ps) == (ps[k] == Moved)
  {
    if k < |ps| - 1 {
      PointerAfterMeaning(shown, ps[..|ps| - 1], k);
    }
  }

  lemma {:induction false} PointerAfterUntouched(shown: bool, ps: seq<TouchPhase>)
    requires Moved !in ps && Ended !in ps
    ensures PointerAfter(shown, ps) == shown
  {
    if ps != [] {
      PointerAfterUntouched(shown, ps[..|ps| - 1]);
    }
  }

  /** Extending a prefix of `ps` by its next phase. */
  lemma PrefixStep(ps: seq<TouchPhase>, i: nat, shown: bool)
    requires i < |ps|
    ensures Count(ps[..i + 1], Ended) == Count(ps[..i], Ended) + (if ps[i] == Ended then 1 else 0)
    ensures PointerAfter(shown, ps[..i + 1]) == PointerAfter(PointerAfter(shown, ps[..i]), [ps[i]])
    ensures (Began in ps[..i + 1]) == (Began in ps[..i] || ps[i] == Began)
  {
    assert ps[..i + 1][..i] == ps[..i];
    assert [ps[i]][..0] == [];
  }

  /** The session's shot count right after `Start` as the code is written:
      the start position is looked up first, and when that lookup fails the
      rest of `Start` is skipped, leaving the count at its default of 0. */
  function StartShotsAsWritten(level: int): (shots: int)
    ensures shots > 0 <==> level in LevelDetails.LevelPos && level in LevelDetails.LevelAttempts
    ensures shots > 0 ==> shots == LevelDetails.LevelAttempts[level]
    ensures shots >= 0
  {
    match LevelDetails.StartPos(level)
    case KeyNotFound(_) => 0
    case Found(_) =>
      match LevelDetails.NumAttempts(level)
      case KeyNotFound(_) => 0
      case Found(n) => n
  }

  /** Levels 2 and 3 have a budget of 2 and 3 shots, yet as written they start with none. */
  lemma StartAsWrittenDropsBudget(level: int)
    requires level == 2 || level == 3
    ensures LevelDetails.NumAttempts(level) == LevelDetails.Found(level)
    ensures StartShotsAsWritten(level) == 0
  {
    LevelDetails.StartPosOnlyForFirstLevel();
  }

  class Player {
    /** The level this session plays (the level table's `number`). */
    const level: int
    /** Debug switch: shots are never used up. */
    const infiniteShots: bool

    /** Shots left. */
    var shots: int
    /** Whether touches still aim and fire. */
    var shouldPlay: bool
    /** Whether a touch now reloads the level. */
    var shouldRestart: bool

    var shotsLabel: string
    var restartLabelShown: bool
    var pointerShown: bool
    var restartRequested: bool
    var shotsFired: nat
    var pendingDelays: nat

    /** The session invariant: the budget is spent one shot per impulse (or
        never, in infinite mode); play has stopped only with no shots left;
        the restart phase comes only after play has stopped; the labels
        agree with the state. */
    ghost predicate Valid()
      reads this
    {
      && level in LevelDetails.LevelAttempts
      && shots == (if infiniteShots then LevelDetails.LevelAttempts[level] else LevelDetails.LevelAttempts[level] - shotsFired)
      && (!shouldPlay ==> shots <= 0)
      && (pendingDelays > 0 ==> !shouldPlay)
      && (shouldRestart ==> !shouldPlay)
      && (restartRequested ==> shouldRestart)
      && restartLabelShown == shouldRestart
      && shotsLabel == LabelText(if shouldPlay then LevelPlaying else LevelEnded, shots)
    }

    /** Level start: the budget comes from the level table (the start
        position, which only level 1 has, does not block it), the pointer
        and the restart label are hidden and the count is shown. */
    constructor (level: int, infiniteShots: bool)
      requires level in LevelDetails.LevelAttempts
      ensures Valid()
      ensures this.level == level && this.infiniteShots == infiniteShots
      ensures shots == LevelDetails.LevelAttempts[level] && shots >= 1
      ensures shouldPlay && !shouldRestart && !restartRequested
      ensures !pointerShown && !restartLabelShown
      ensures shotsFired == 0 && pendingDelays == 0
      ensures shotsLabel == LabelText(LevelPlaying, shots)
    {
      this.level := level;
      this.infiniteShots := infiniteShots;
      shouldRestart := false;
      shouldPlay := true;
      restartRequested := false;
      shotsFired := 0;
      pendingDelays := 0;
      pointerShown := false;
      restartLabelShown := false;
      var attempts := LevelDetails.NumAttempts(level);
      shots := attempts.value;
      new;
      ShotsLabelUpd();
    }

    /** Writes the shots label for `state`. */
    method ShotsLabelUpd(state: State := LevelPlaying)
      modifies this`shotsLabel
      ensures shotsLabel == LabelText(state, shots)
    {
      shotsLabel := LabelText(state, shots);
    }

    /** Dragging: the pointer is shown (its angle and size are not modelled). */
    method TouchMoved()
      modifies this`pointerShown
      ensures pointerShown
    {
      pointerShown := true;
    }

    /** Release: hide the pointer, fire the ball and, unless shots are
        infinite, use up one shot and show the new count. */
    method TouchEnded()
      requires Valid() && shouldPlay
      modifies this
      ensures Valid()
      ensures shots == if infiniteShots then old(shots) else old(shots) - 1
      ensures shotsFired == old(shotsFired) + 1 && !pointerShown
      ensures shouldPlay && shouldRestart == old(shouldRestart) && restartRequested == old(restartRequested)
      ensures pendingDelays == old(pendingDelays) && restartLabelShown == old(restartLabelShown)
    {
      pointerShown := false;
      shotsFired := shotsFired + 1;
      if !infiniteShots {
        shots := shots - 1;
        ShotsLabelUpd();
      }
    }

    /** A touch in the restart phase asks for the level to be reloaded. */
    method TouchBeganRestart()
      requires Valid() && shouldRestart
      modifies this`restartRequested
      ensures Valid() && restartRequested
    {
      restartRequested := true;
    }

    /** One touch: the shooting actions run only in play, and only a began
        touch in the restart phase asks for a reload. */
    method HandleTouch(phase: TouchPhase)
      requires Valid()
      modifies this
      ensures Valid()
      ensures shots == old(shots) - (if old(shouldPlay) && !infiniteShots && phase == Ended then 1 else 0)
      ensures shotsFired == old(shotsFired) + (if old(shouldPlay) && phase == Ended then 1 else 0)
      ensures pointerShown == if old(shouldPlay) then PointerAfter(old(pointerShown), [phase]) else old(pointerShown)
      ensures restartRequested == (old(restartRequested) || (old(shouldRestart) && phase == Began))
      ensures old(shouldRestart) && phase != Began ==>
        shots == old(shots) && shotsFired == old(shotsFired) && pointerShown == old(pointerShown) && restartRequested == old(restartRequested)
      ensures shouldPlay == old(shouldPlay) && shouldRestart == old(shouldRestart)
      ensures pendingDelays == old(pendingDelays) && restartLabelShown == old(restartLabelShown)
    {
      if shouldPlay {
        match phase
        case Began =>
          // TouchBegan only records the drag origin, which is not modelled
        case Moved =>
          TouchMoved();
        case Ended =>
          TouchEnded();
        case _ =>
      }
      if shouldRestart {
        if phase == Began {
          TouchBeganRestart();
        }
      }
    }

    /** All touches of one frame, in order. */
    method HandleTouches(input: FrameInput)
      requires Valid()
      modifies this
      ensures Valid()
      ensures var ps := FramePhases(input);
        && shots == old(shots) - (if old(shouldPlay) && !infiniteShots then Count(ps, Ended) else 0)
        && shotsFired == old(shotsFired) + (if old(shouldPlay) then Count(ps, Ended) else 0)
        && pointerShown == (if old(shouldPlay) then PointerAfter(old(pointerShown), ps) else old(pointerShown))
        && restartRequested == (old(restartRequested) || (old(shouldRestart) && Began in ps))
      ensures shouldPlay == old(shouldPlay) && shouldRestart == old(shouldRestart)
      ensures pendingDelays == old(pendingDelays) && restartLabelShown == old(restartLabelShown)
    {
      var ps := FramePhases(input);
      var i := 0;
      while i < |ps|
        invariant 0 <= i <= |ps|
        invariant Valid()
        invariant shouldPlay == old(shouldPlay) && shouldRestart == old(shouldRestart)
        invariant pendingDelays == old(pendingDelays) && restartLabelShown == old(restartLabelShown)
        invariant shots == old(shots) - (if shouldPlay && !infiniteShots then Count(ps[..i], Ended) else 0)
        invariant shotsFired == old(shotsFired) + (if shouldPlay then Count(ps[..i], Ended) else 0)
        invariant pointerShown == (if shouldPlay then PointerAfter(old(pointerShown), ps[..i]) else old(pointerShown))
        invariant restartRequested == (old(restartRequested) || (shouldRestart && Began in ps[..i]))
      {
        PrefixStep(ps, i, old(pointerShown));
        HandleTouch(ps[i]);
        i := i + 1;
      }
      assert ps[..i] == ps;
    }

    /** The per-frame tick: handle the frame's touches, then, with no shots
        left, stop play, show "No more shots!" and start another restart delay. */
    method Update(input: FrameInput)
      requires Valid()
      modifies this
      ensures Valid()
      ensures var ps := FramePhases(input);
        && shots == old(shots) - (if old(shouldPlay) && !infiniteShots then Count(ps, Ended) else 0)
        && shotsFired == old(shotsFired) + (if old(shouldPlay) then Count(ps, Ended) else 0)
        && pointerShown == (if old(shouldPlay) then PointerAfter(old(pointerShown), ps) else old(pointerShown))
        && restartRequested == (old(restartRequested) || (old(shouldRestart) && Began in ps))
      ensures shots <= old(shots)
      ensures shouldPlay == (old(shouldPlay) && shots > 0)
      ensures pendingDelays == old(pendingDelays) + (if shots <= 0 then 1 else 0)
      ensures shots <= 0 ==> shotsLabel == "No more shots!"
      ensures shouldRestart == old(shouldRestart) && restartLabelShown == old(restartLabelShown)
    {
      HandleTouches(input);
      if shots <= 0 {
        shouldPlay := false;
        ShotsLabelUpd(LevelEnded);
        pendingDelays := pendingDelays + 1;
      }
    }

    /** One restart delay expires: the restart phase begins and its label is shown.
        Once in the restart phase, a further expiry changes nothing else. */
    method RestartMsg()
      requires Valid() && pendingDelays > 0
      modifies this
      ensures Valid()
      ensures shouldRestart && restartLabelShown
      ensures pendingDelays == old(pendingDelays) - 1
      ensures shots == old(shots) && shouldPlay == old(shouldPlay) && shotsLabel == old(shotsLabel)
      ensures shotsFired == old(shotsFired) && pointerShown == old(pointerShown)
      ensures restartRequested == old(restartRequested)
    {
      pendingDelays := pendingDelays - 1;
      shouldRestart := true;
      restartLabelShown := true;
    }
  }

  /** A whole session without infinite shots: one release per frame until
      the budget is gone, the restart delay expires, and a tap reloads. */
  method PlayUntilRestart(level: int) returns (p: Player)
    requires level in LevelDetails.LevelAttempts
    ensures p.Valid()
    ensures p.shotsFired == LevelDetails.LevelAttempts[level] && p.shots == 0
    ensures !p.shouldPlay && p.shouldRestart && p.restartRequested
    ensures p.shotsLabel == "No more shots!"
  {
    p := new Player(level, false);
    var release := FrameInput([Ended], false, false, false);
    assert FramePhases(release) == [Ended];
    assert Count([Ended], Ended) == 1 by {
      assert [Ended][..0] == [];
    }
    while p.shouldPlay
      invariant p.Valid() && p.level == level && !p.infiniteShots
      invariant p.shots >= 0
      invariant p.shouldPlay ==> p.shots >= 1
      invariant !p.shouldPlay ==> p.pendingDelays > 0
      decreases p.shots
    {
      p.Update(release);
    }
    p.RestartMsg();
    var tap := FrameInput([Began], false, false, false);
    assert FramePhases(tap) == [Began];
    p.Update(tap);
  }
}

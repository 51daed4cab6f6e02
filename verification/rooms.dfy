/** One room and the timer step of its interval callback
    (backend/server.js:98-107, 190-214). */
module Rooms {
  import opened Scoring
  import opened Questions

  /** Seconds per question: the value `timeLeft` starts from and is reset to. */
  const QuestionDuration := 15

  /** A room record. `hasInterval` stands for the interval handle: true
      while a `setInterval` for the room is live. */
  datatype Room = Room(
    id: string,
    players: seq<Player>,
    category: string,
    questions: seq<Question>,
    qIndex: int,
    timeLeft: int,
    hasInterval: bool,
    isRunning: bool)

  /** The room `create_game` installs. */
  function NewRoom(code: string, creator: ConnId, name: string, category: string): (r: Room)
    ensures Waiting(r) && r.players == [Player(creator, name, 0)] && r.questions == []
  {
    Room(code, [Player(creator, name, 0)], category, [], 0, QuestionDuration, false, false)
  }

  /** Before the game starts: the initial cursor and clock, no timer. */
  predicate Waiting(r: Room) {
    !r.isRunning && !r.hasInterval && r.qIndex == 0 && r.timeLeft == QuestionDuration
  }

  /** Between two ticks of a running game: the cursor names a question and
      the clock shows between 1 and 15 seconds. */
  predicate Running(r: Room) {
    r.isRunning && r.hasInterval &&
    0 <= r.qIndex < |r.questions| && 1 <= r.timeLeft <= QuestionDuration
  }

  /** Every room the registry holds has a player and is waiting or running. */
  predicate RoomInv(r: Room) {
    |r.players| > 0 && (Waiting(r) || Running(r))
  }

  /** The cursor has run past the last question: the tick ends the game. */
  predicate Exhausted(r: Room) {
    r.qIndex >= |r.questions|
  }

  /** Ticks still to come before the game ends, counting the ending one. */
  function Remaining(r: Room): int {
    (|r.questions| - 1 - r.qIndex) * QuestionDuration + r.timeLeft
  }

  /** The state changes of one tick (`timeLeft--`, then on reaching zero
      `qIndex++` and, while questions remain, `sendNewQuestion`'s reset);
      what happens once the questions are exhausted is `endGame`'s. */
  function TickRoom(r: Room): (r': Room)
    requires Running(r)
    ensures r'.players == r.players && r'.questions == r.questions
    ensures r'.id == r.id && r'.category == r.category
    ensures r'.qIndex == r.qIndex + (if r.timeLeft == 1 then 1 else 0)
    ensures Exhausted(r') <==> Remaining(r) == 1
    ensures !Exhausted(r') ==> Running(r') && Remaining(r') == Remaining(r) - 1
  {
    var t := r.timeLeft - 1;
    if t <= 0 then
      var next := r.qIndex + 1;
      if next >= |r.questions| then r.(timeLeft := t, qIndex := next)
      else r.(timeLeft := QuestionDuration, qIndex := next)
    else r.(timeLeft := t)
  }

  /** The room after `k` ticks of an uninterrupted game. */
  function AfterTicks(r: Room, k: nat): (r': Room)
    requires Running(r) && k < Remaining(r)
    ensures Running(r') && Remaining(r') == Remaining(r) - k
    ensures r'.players == r.players && r'.questions == r.questions && r'.id == r.id
    decreases k
  {
    if k == 0 then r else TickRoom(AfterTicks(r, k - 1))
  }

  /** A game that starts on its first question with a full clock lasts
      exactly 15 ticks per question: every earlier tick leaves it running,
      the 15*N-th tick exhausts the questions, and no tick changes a score. */
  lemma GameLength(r: Room)
    requires Running(r) && r.qIndex == 0 && r.timeLeft == QuestionDuration
    ensures Remaining(r) == QuestionDuration * |r.questions|
    ensures forall k :: 0 <= k < Remaining(r) - 1 ==> !Exhausted(TickRoom(AfterTicks(r, k)))
    ensures Exhausted(TickRoom(AfterTicks(r, Remaining(r) - 1)))
    ensures TickRoom(AfterTicks(r, Remaining(r) - 1)).players == r.players
  {
  }

  /** The two-question example: the 30th tick ends the game with every
      score where it started. */
  lemma TwoQuestionsEndOnTick30(r: Room)
    requires Running(r) && r.qIndex == 0 && r.timeLeft == QuestionDuration && |r.questions| == 2
    ensures !Exhausted(TickRoom(AfterTicks(r, 28)))
    ensures Exhausted(TickRoom(AfterTicks(r, 29)))
    ensures TickRoom(AfterTicks(r, 29)).players == r.players
  {
    GameLength(r);
  }
}

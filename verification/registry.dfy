/** The room orchestrator: the two tables and one method per event
    handler (backend/server.js:18-20, 95-233). Socket delivery is not
    modelled; what a handler emits is returned as its outcome. */
module Orchestrator {
  import opened Options
  import opened Draws
  import opened Questions
  import opened Scoring
  import opened Rooms

  /** What `join_game` reports. */
  datatype JoinOutcome =
    | RoomNotFound                                   // error_message to the caller
    // leaderboard_update only. Unreachable while `Valid` holds, as in the
    // source: every room has a player, so a join always brings it to two.
    | StillWaiting
    | FetchFailed                                    // "API Error." to the room
    | GameStarted(question: Question, number: int)   // game_status + new_question
    | CaughtUp(question: Question, number: int, seconds: int)  // late joiner's catch-up

  /** The `answer_result` sent back to the caller. */
  datatype AnswerResult = AnswerResult(correct: bool, correctAnswer: string)

  /** The `game_over` ranking and the records handed to the history store. */
  datatype GameOver = GameOver(ranked: seq<Player>, history: seq<HistoryRecord>)

  /** What one firing of the interval callback emits. */
  datatype TickEvent =
    | TimerUpdate(seconds: int)
    | NextQuestion(question: Question, number: int, seconds: int)
    | Finished(over: GameOver, seconds: int)

  /** Records numbered by position in the ranking, out of the player count. */
  predicate HistoryOf(ranked: seq<Player>, history: seq<HistoryRecord>) {
    |history| == |ranked| &&
    forall i :: 0 <= i < |ranked| ==>
      history[i] == HistoryRecord(ranked[i].name, ranked[i].score, i + 1, |ranked|)
  }

  /** The room `startGame` leaves: running from its first question with a full clock. */
  function Started(r: Room, questions: seq<Question>): Room {
    r.(questions := questions, isRunning := true, qIndex := 0,
       timeLeft := QuestionDuration, hasInterval := true)
  }

  class Registry {
    /** `games`: room code to room. */
    var games: map<string, Room>
    /** `socketRooms`: connection to the code of the room it last entered. */
    var socketRooms: map<ConnId, string>

    predicate Valid()
      reads this
    {
      forall code :: code in games ==>
        IsRoomCode(code) && games[code].id == code && RoomInv(games[code])
    }

    constructor ()
      ensures Valid() && games == map[] && socketRooms == map[]
    {
      games := map[];
      socketRooms := map[];
    }

    /** `create_game`: `draws` are the four alphabet indices `makeId(4)`
        picks. A code already in use is overwritten, as in the source. */
    method Create(conn: ConnId, username: string, category: string, draws: seq<nat>)
      returns (code: string)
      requires Valid()
      requires |draws| == 4 && forall i :: 0 <= i < 4 ==> draws[i] < |Alphabet|
      modifies this
      ensures Valid()
      ensures IsRoomCode(code) && forall i :: 0 <= i < 4 ==> code[i] == Alphabet[draws[i]]
      ensures games == old(games)[code := NewRoom(code, conn, username, category)]
      ensures socketRooms == old(socketRooms)[conn := code]
    {
      code := MakeId(4, draws);
      MakeIdGivesRoomCode(code, draws);
      games := games[code := NewRoom(code, conn, username, category)];
      socketRooms := socketRooms[conn := code];
    }

    /** `join_game`. `fetched` is what `fetchQuestions` returns if the join
        triggers a fetch; it is ignored otherwise. */
    method Join(conn: ConnId, username: string, code: string, fetched: seq<Question>)
      returns (outcome: JoinOutcome)
      requires Valid()
      modifies this
      ensures Valid()
      ensures code !in old(games) ==>
                outcome == RoomNotFound && games == old(games) && socketRooms == old(socketRooms)
      ensures code in old(games) ==> socketRooms == old(socketRooms)[conn := code]
      ensures code in old(games) ==>
        var r := old(games)[code];
        var joined := r.(players := r.players + [Player(conn, username, 0)]);
        if |joined.players| >= 2 && !r.isRunning then
          if |fetched| > 0 then
            games == old(games)[code := Started(joined, fetched)] && outcome == GameStarted(fetched[0], 1)
          else
            games == old(games)[code := joined] && outcome == FetchFailed
        else
          games == old(games)[code := joined] &&
          outcome == if r.isRunning then CaughtUp(r.questions[r.qIndex], r.qIndex + 1, r.timeLeft)
                     else StillWaiting
    {
      if code !in games {
        return RoomNotFound;
      }
      var room := games[code];
      room := room.(players := room.players + [Player(conn, username, 0)]);
      games := games[code := room];
      socketRooms := socketRooms[conn := code];

      if |room.players| >= 2 && !room.isRunning {
        if |fetched| > 0 {
          games := games[code := room.(questions := fetched)];
          var first := StartGame(code);
          outcome := GameStarted(first, 1);
        } else {
          outcome := FetchFailed;
        }
      } else if room.isRunning {
        outcome := CaughtUp(room.questions[room.qIndex], room.qIndex + 1, room.timeLeft);
      } else {
        outcome := StillWaiting;
      }
    }

    /** `startGame`: running from the first question; the interval is
        installed and fires `Tick` from then on. */
    method StartGame(code: string) returns (first: Question)
      requires code in games && |games[code].questions| > 0
      modifies this
      ensures games == old(games)[code := Started(old(games)[code], old(games)[code].questions)]
      ensures socketRooms == old(socketRooms)
      ensures first == old(games)[code].questions[0]
    {
      games := games[code := games[code].(isRunning := true, qIndex := 0)];
      var number;
      first, number := SendNewQuestion(code);
      games := games[code := games[code].(hasInterval := true)];
    }

    /** `sendNewQuestion`: a full clock for the question under the cursor. */
    method SendNewQuestion(code: string) returns (question: Question, number: int)
      requires code in games && 0 <= games[code].qIndex < |games[code].questions|
      modifies this
      ensures games == old(games)[code := old(games)[code].(timeLeft := QuestionDuration)]
      ensures socketRooms == old(socketRooms)
      ensures question == old(games)[code].questions[old(games)[code].qIndex]
      ensures number == old(games)[code].qIndex + 1
    {
      var room := games[code].(timeLeft := QuestionDuration);
      games := games[code := room];
      question := room.questions[room.qIndex];
      number := room.qIndex + 1;
    }

    /** `submit_answer`: only in a running room; an exact match awards the
        first player entry of the caller ten points. */
    method SubmitAnswer(conn: ConnId, answer: string) returns (result: Option<AnswerResult>)
      requires Valid()
      modifies this
      ensures Valid()
      ensures socketRooms == old(socketRooms)
      ensures !(conn in old(socketRooms) && old(socketRooms)[conn] in old(games) &&
                old(games)[old(socketRooms)[conn]].isRunning) ==>
                result == None && games == old(games)
      ensures conn in old(socketRooms) && old(socketRooms)[conn] in old(games) &&
              old(games)[old(socketRooms)[conn]].isRunning ==>
        var code := old(socketRooms)[conn];
        var r := old(games)[code];
        var q := r.questions[r.qIndex];
        result == Some(AnswerResult(answer == q.answer, q.answer)) &&
        games == if answer == q.answer then old(games)[code := r.(players := Award(r.players, conn))]
                 else old(games)
    {
      if conn !in socketRooms || socketRooms[conn] !in games {
        return None;
      }
      var code := socketRooms[conn];
      var room := games[code];
      if !room.isRunning {
        return None;
      }
      var current := room.questions[room.qIndex];
      var isCorrect := answer == current.answer;
      result := Some(AnswerResult(isCorrect, current.answer));
      if isCorrect {
        games := games[code := room.(players := Award(room.players, conn))];
      }
    }

    /** `disconnect`: drop every entry of the connection from its room,
        delete the room (and its interval) once empty, and always forget
        the connection. */
    method Disconnect(conn: ConnId)
      requires Valid()
      modifies this
      ensures Valid()
      ensures socketRooms == old(socketRooms) - {conn}
      ensures !(conn in old(socketRooms) && old(socketRooms)[conn] in old(games)) ==> games == old(games)
      ensures conn in old(socketRooms) && old(socketRooms)[conn] in old(games) ==>
        var code := old(socketRooms)[conn];
        var r := old(games)[code];
        var rest := RemoveConn(r.players, conn);
        if rest == [] then games == old(games) - {code}
        else games == old(games)[code := r.(players := rest)]
    {
      if conn in socketRooms && socketRooms[conn] in games {
        var code := socketRooms[conn];
        var room := games[code];
        room := room.(players := RemoveConn(room.players, conn));
        if |room.players| == 0 {
          games := games - {code};
        } else {
          games := games[code := room];
        }
      }
      socketRooms := socketRooms - {conn};
    }

    /** `endGame`: a no-op for a missing room; otherwise rank the players,
        produce one history record each and delete the room. Connection
        entries pointing at the code are left in place. */
    method EndGame(code: string) returns (result: Option<GameOver>)
      modifies this
      ensures socketRooms == old(socketRooms)
      ensures code !in old(games) ==> result == None && games == old(games)
      ensures code in old(games) ==>
        games == old(games) - {code} && result.Some? &&
        result.value.ranked == SortByScore(old(games)[code].players) &&
        HistoryOf(result.value.ranked, result.value.history)
    {
      if code !in games {
        return None;
      }
      var room := games[code].(hasInterval := false, isRunning := false);
      room := room.(players := SortByScore(room.players));
      var history := MakeHistory(room.players);
      games := games - {code};
      result := Some(GameOver(room.players, history));
    }

    /** One firing of the interval callback of a running room. */
    method Tick(code: string) returns (event: TickEvent)
      requires Valid() && code in games && games[code].isRunning
      modifies this
      ensures Valid()
      ensures socketRooms == old(socketRooms)
      ensures
        var r := old(games)[code];
        var next := TickRoom(r);
        if Exhausted(next) then
          games == old(games) - {code} && event.Finished? &&
          event.over.ranked == SortByScore(r.players) &&
          HistoryOf(event.over.ranked, event.over.history) && event.seconds == 0
        else
          games == old(games)[code := next] &&
          event == if next.qIndex == r.qIndex then TimerUpdate(next.timeLeft)
                   else NextQuestion(next.questions[next.qIndex], next.qIndex + 1, QuestionDuration)
    {
      ghost var next := TickRoom(games[code]);
      var room := games[code];
      room := room.(timeLeft := room.timeLeft - 1);
      if room.timeLeft <= 0 {
        room := room.(qIndex := room.qIndex + 1);
        games := games[code := room];
        if room.qIndex >= |room.questions| {
          assert Exhausted(next);
          var over := EndGame(code);
          event := Finished(over.value, room.timeLeft);
        } else {
          var question, number := SendNewQuestion(code);
          assert games[code] == next;
          event := NextQuestion(question, number, games[code].timeLeft);
        }
      } else {
        assert room == next;
        games := games[code := room];
        event := TimerUpdate(room.timeLeft);
      }
    }
  }
}

/** Players, scoring and the end-of-game ranking (backend/server.js:100,
    122, 166-167, 176, 223-229, 235-241). */
module Scoring {
  import opened Options

  type ConnId = string

  datatype Player = Player(id: ConnId, name: string, score: nat)

  /** Points for an exact correct answer. */
  const Points: nat := 10

  // ---------------------------------------------------------------------
  // submit_answer: `players.find(p => p.id === socket.id)`, then `score += 10`

  /** The index `find` stops at: the first player holding the connection. */
  function FindPlayer(players: seq<Player>, id: ConnId): (r: Option<nat>)
    ensures r.None? <==> forall k :: 0 <= k < |players| ==> players[k].id != id
    ensures r.Some? ==> r.value < |players| && players[r.value].id == id
    ensures r.Some? ==> forall k :: 0 <= k < r.value ==> players[k].id != id
  {
    if players == [] then None
    else if players[0].id == id then Some(0)
    else match FindPlayer(players[1..], id)
      case None => None
      case Some(k) => Some(k + 1)
  }

  /** Position `k` holds the first player with connection `id`. */
  predicate IsFirstOf(players: seq<Player>, id: ConnId, k: int) {
    0 <= k < |players| && players[k].id == id && forall m :: 0 <= m < k ==> players[m].id != id
  }

  /** The leaderboard after a correct answer from connection `id`: the
      caller's first entry gains exactly ten points and no other entry
      changes; without an entry nothing changes. */
  function Award(players: seq<Player>, id: ConnId): (r: seq<Player>)
    ensures |r| == |players|
    ensures forall k :: 0 <= k < |players| ==>
              r[k].id == players[k].id && r[k].name == players[k].name &&
              players[k].score <= r[k].score
    ensures (forall k :: 0 <= k < |players| ==> players[k].id != id) ==> r == players
    ensures forall k :: IsFirstOf(players, id, k) ==>
              r[k].score == players[k].score + Points &&
              forall m :: 0 <= m < |players| && m != k ==> r[m] == players[m]
  {
    var found := FindPlayer(players, id);
    if found.None? then players else Credit(players, found.value)
  }

  /** `score += 10` on entry `k`. */
  function Credit(players: seq<Player>, k: nat): seq<Player>
    requires k < |players|
  {
    players[k := players[k].(score := players[k].score + Points)]
  }

  function TotalScore(players: seq<Player>): nat {
    if players == [] then 0 else players[0].score + TotalScore(players[1..])
  }

  lemma {:induction false} TotalScoreUpdate(players: seq<Player>, k: nat, p: Player)
    requires k < |players|
    ensures TotalScore(players[k := p]) == TotalScore(players) - players[k].score + p.score
  {
    if k > 0 {
      assert players[k := p][1..] == players[1..][k - 1 := p];
      TotalScoreUpdate(players[1..], k - 1, p);
    }
  }

  /** A correct answer raises the room's total by exactly ten points when
      the caller holds an entry, and by nothing otherwise. */
  lemma AwardTotal(players: seq<Player>, id: ConnId)
    ensures TotalScore(Award(players, id))
         == TotalScore(players) + (if FindPlayer(players, id).Some? then Points else 0)
  {
    var found := FindPlayer(players, id);
    if found.Some? {
      var k := found.value;
      var p := players[k].(score := players[k].score + Points);
      TotalScoreUpdate(players, k, p);
      assert Credit(players, k) == players[k := p];
      assert TotalScore(Credit(players, k)) == TotalScore(players) + Points;
      assert Award(players, id) == Credit(players, k);
    } else {
      assert Award(players, id) == players;
    }
  }

  // ---------------------------------------------------------------------
  // disconnect: `players.filter(p => p.id !== socket.id)`

  function RemoveConn(players: seq<Player>, id: ConnId): (r: seq<Player>)
    ensures forall p :: p in r <==> p in players && p.id != id
    ensures |r| <= |players|
    ensures |r| == |players| <==> forall k :: 0 <= k < |players| ==> players[k].id != id
  {
    if players == [] then []
    else if players[0].id == id then RemoveConn(players[1..], id)
    else [players[0]] + RemoveConn(players[1..], id)
  }

  /** The filter keeps the surviving players in their original order. */
  lemma {:induction false} RemoveConnAppend(a: seq<Player>, b: seq<Player>, id: ConnId)
    ensures RemoveConn(a + b, id) == RemoveConn(a, id) + RemoveConn(b, id)
  {
    if a != [] {
      var x := a[0];
      assert (a + b)[0] == x && (a + b)[1..] == a[1..] + b;
      RemoveConnAppend(a[1..], b, id);
      if x.id != id {
        calc {
          RemoveConn(a + b, id);
          [x] + RemoveConn(a[1..] + b, id);
          [x] + (RemoveConn(a[1..], id) + RemoveConn(b, id));
          ([x] + RemoveConn(a[1..], id)) + RemoveConn(b, id);
          RemoveConn(a, id) + RemoveConn(b, id);
        }
      } else {
        assert RemoveConn(a + b, id) == RemoveConn(a[1..] + b, id);
        assert RemoveConn(a, id) == RemoveConn(a[1..], id);
      }
    } else {
      assert a + b == b;
    }
  }

  // ---------------------------------------------------------------------
  // endGame: `players.sort((a, b) => b.score - a.score)`, a stable sort

  predicate NonIncreasing(players: seq<Player>) {
    forall i, j :: 0 <= i < j < |players| ==> players[i].score >= players[j].score
  }

  /** Inserts `p` in front of the first player whose score is not above
      its own, so it stays ahead of later players with the same score. */
  function Insert(p: Player, sorted: seq<Player>): (r: seq<Player>)
    ensures |r| == |sorted| + 1
    ensures r[0] == p || (sorted != [] && r[0] == sorted[0])
    ensures multiset(r) == multiset(sorted) + multiset{p}
  {
    if sorted == [] || sorted[0].score <= p.score then [p] + sorted
    else
      assert sorted == [sorted[0]] + sorted[1..];
      [sorted[0]] + Insert(p, sorted[1..])
  }

  /** The array sort the source calls, as a stable insertion sort. */
  function SortByScore(players: seq<Player>): (r: seq<Player>)
    ensures |r| == |players|
    ensures multiset(r) == multiset(players)
  {
    assert players != [] ==> players == [players[0]] + players[1..];
    if players == [] then [] else Insert(players[0], SortByScore(players[1..]))
  }

  /** The players holding one given score, in sequence order. */
  function WithScore(players: seq<Player>, score: nat): seq<Player> {
    if players == [] then []
    else if players[0].score == score then [players[0]] + WithScore(players[1..], score)
    else WithScore(players[1..], score)
  }

  lemma {:induction false} InsertNonIncreasing(p: Player, sorted: seq<Player>)
    requires NonIncreasing(sorted)
    ensures NonIncreasing(Insert(p, sorted))
  {
    if sorted != [] && sorted[0].score > p.score {
      var rest := Insert(p, sorted[1..]);
      InsertNonIncreasing(p, sorted[1..]);
      assert rest[0].score <= sorted[0].score;
      assert Insert(p, sorted) == [sorted[0]] + rest;
    }
  }

  lemma {:induction false} InsertWithScore(p: Player, sorted: seq<Player>, score: nat)
    requires NonIncreasing(sorted)
    ensures WithScore(Insert(p, sorted), score)
         == if p.score == score then [p] + WithScore(sorted, score) else WithScore(sorted, score)
  {
    if sorted == [] || sorted[0].score <= p.score {
      assert ([p] + sorted)[1..] == sorted;
    } else {
      InsertWithScore(p, sorted[1..], score);
      assert ([sorted[0]] + Insert(p, sorted[1..]))[1..] == Insert(p, sorted[1..]);
    }
  }

  /** The ranking is ordered by non-increasing score. */
  lemma {:induction false} SortIsOrdered(players: seq<Player>)
    ensures NonIncreasing(SortByScore(players))
  {
    if players != [] {
      SortIsOrdered(players[1..]);
      InsertNonIncreasing(players[0], SortByScore(players[1..]));
    }
  }

  /** The sort is stable: players with equal scores keep their join order. */
  lemma {:induction false} SortIsStable(players: seq<Player>, score: nat)
    ensures WithScore(SortByScore(players), score) == WithScore(players, score)
  {
    if players != [] {
      SortIsStable(players[1..], score);
      SortIsOrdered(players[1..]);
      InsertWithScore(players[0], SortByScore(players[1..]), score);
    }
  }

  // ---------------------------------------------------------------------
  // saveToHistory: one record per player, rank = sorted position + 1

  /** The fields of one archived record (the date and the text formatting
      of `opponent` and `result` are not modelled). */
  datatype HistoryRecord = HistoryRecord(name: string, score: nat, rank: nat, totalPlayers: nat)

  /** The loop over the sorted players in `endGame`. */
  method MakeHistory(ranked: seq<Player>) returns (records: seq<HistoryRecord>)
    ensures |records| == |ranked|
    ensures forall i :: 0 <= i < |ranked| ==>
              records[i] == HistoryRecord(ranked[i].name, ranked[i].score, i + 1, |ranked|)
  {
    records := [];
    var i := 0;
    while i < |ranked|
      invariant 0 <= i <= |ranked|
      invariant |records| == i
      invariant forall k :: 0 <= k < i ==>
                  records[k] == HistoryRecord(ranked[k].name, ranked[k].score, k + 1, |ranked|)
    {
      records := records + [HistoryRecord(ranked[i].name, ranked[i].score, i + 1, |ranked|)];
      i := i + 1;
    }
  }

  /** The example ranking: A(0), B(10), C(10) joined in that order rank
      B first, C second, A third. */
  lemma ExampleRanking()
    ensures SortByScore([Player("a", "A", 0), Player("b", "B", 10), Player("c", "C", 10)])
         == [Player("b", "B", 10), Player("c", "C", 10), Player("a", "A", 0)]
  {
  }
}

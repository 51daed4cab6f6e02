/** The per-record normalisation inside `fetchQuestions`
    (backend/server.js:43-64): the options are the incorrect answers plus
    the correct one, shuffled, then every text is entity-decoded. */
module Questions {
  import opened Entities
  import opened Draws
  import opened Options

  /** One record of the question bank's response. */
  datatype RawQuestion = RawQuestion(question: string, correctAnswer: string, incorrectAnswers: seq<string>)

  /** A question as stored on a room. */
  datatype Question = Question(q: string, options: seq<string>, answer: string)

  function DecodeAll(texts: seq<string>): (r: seq<string>)
    ensures |r| == |texts|
    ensures forall i :: 0 <= i < |texts| ==> r[i] == DecodeHTMLEntities(texts[i])
  {
    seq(|texts|, i requires 0 <= i < |texts| => DecodeHTMLEntities(texts[i]))
  }

  /** The option list before shuffling: `[...incorrect_answers, correct_answer]`. */
  function AllOptions(raw: RawQuestion): seq<string> {
    raw.incorrectAnswers + [raw.correctAnswer]
  }

  /** The draws one record's shuffle consumes. */
  predicate DrawsFor(raw: RawQuestion, draws: seq<nat>) {
    ValidDraws(draws, DrawCount(|AllOptions(raw)|))
  }

  /** Decoding each element commutes with the shuffle's swaps. */
  lemma {:induction false} DecodeAllShuffleFrom(s: seq<string>, i: nat, draws: seq<nat>)
    requires i < |s| && ValidDraws(draws, i)
    ensures DecodeAll(ShuffleFrom(s, i, draws)) == ShuffleFrom(DecodeAll(s), i, draws)
    decreases i
  {
    if i > 0 {
      assert DecodeAll(Swap(s, i, draws[0])) == Swap(DecodeAll(s), i, draws[0]);
      DecodeAllShuffleFrom(Swap(s, i, draws[0]), i - 1, draws[1..]);
    }
  }

  /** Shuffling then decoding permutes the decoded incorrect answers plus
      the decoded correct answer. */
  lemma DecodedShufflePermutes(raw: RawQuestion, draws: seq<nat>)
    requires DrawsFor(raw, draws)
    ensures multiset(DecodeAll(Shuffled(AllOptions(raw), draws)))
         == multiset(DecodeAll(raw.incorrectAnswers) + [DecodeHTMLEntities(raw.correctAnswer)])
  {
    var all := AllOptions(raw);
    var decoded := DecodeAll(all);
    assert decoded == DecodeAll(raw.incorrectAnswers) + [DecodeHTMLEntities(raw.correctAnswer)];
    DecodeAllShuffleFrom(all, |all| - 1, draws);
    ShuffledIsPermutation(decoded, draws);
  }

  /** The body of the `map` callback, with the shuffle's draws supplied:
      the options are a permutation of the decoded incorrect answers plus
      the decoded correct answer, so the stored answer is one of them. */
  function Normalise(raw: RawQuestion, draws: seq<nat>): (r: Question)
    requires DrawsFor(raw, draws)
    ensures r.q == DecodeHTMLEntities(raw.question)
    ensures r.answer == DecodeHTMLEntities(raw.correctAnswer)
    ensures multiset(r.options)
         == multiset(DecodeAll(raw.incorrectAnswers) + [DecodeHTMLEntities(raw.correctAnswer)])
    ensures r.answer in r.options
  {
    DecodedShufflePermutes(raw, draws);
    var options := DecodeAll(Shuffled(AllOptions(raw), draws));
    assert DecodeHTMLEntities(raw.correctAnswer) in multiset(options);
    Question(DecodeHTMLEntities(raw.question), options, DecodeHTMLEntities(raw.correctAnswer))
  }

  /** `fetchQuestions`: `None` stands for a failed request or an unreadable
      response (both end in `[]`); otherwise every record is normalised,
      record `i` with the draws `draws[i]`. */
  function FetchQuestions(response: Option<seq<RawQuestion>>, draws: seq<seq<nat>>): (r: seq<Question>)
    requires response.Some? ==> |draws| == |response.value|
    requires response.Some? ==> forall i :: 0 <= i < |draws| ==> DrawsFor(response.value[i], draws[i])
    ensures response.None? ==> r == []
    ensures response.Some? ==> |r| == |response.value|
    ensures response.Some? ==> forall i :: 0 <= i < |r| ==> r[i] == Normalise(response.value[i], draws[i])
    ensures response.Some? ==> forall i :: 0 <= i < |r| ==> r[i].answer in r[i].options
  {
    match response
    case None => []
    case Some(results) =>
      seq(|results|, i requires 0 <= i < |results| =>
        Normalise(results[i], draws[i]))
  }
}

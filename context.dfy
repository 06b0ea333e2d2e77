/**
  `query_message`: the ranked course texts are framed one by one as articles
  and appended to an introduction while the whole message, question
  included, stays within the token budget; the first article that does not
  fit stops the loop. plataforma/views.py and plataforma/views_old.py run the
  same loop and differ only in the introduction and the article heading,
  which are parameters here.
 */
module Context {
  import opened Wrappers
  import Ranking
  import Sequences

  /** How many texts `strings_ranked_by_relatedness` keeps when `query_message` calls it. */
  const TopN := 100

  /** One text framed as an article under `heading`, between triple quotes. */
  function Article(heading: string, s: string): string {
    "\n\n" + heading + ":\n\"\"\"\n" + s + "\n\"\"\""
  }

  /** The question closing the message. */
  function Question(query: string): string {
    "\n\nPregunta: " + query
  }

  /** The articles for `strings`, in order. */
  function Articles(heading: string, strings: seq<string>): string {
    if strings == [] then "" else Article(heading, strings[0]) + Articles(heading, strings[1..])
  }

  /**
    What the loop leaves in `message` once it has looked at `strings`: each
    article is appended as long as the message with it and the question
    counts at most `budget` tokens, and the first one that does not fit ends
    the loop.
   */
  function Pack(message: string, heading: string, strings: seq<string>, question: string,
                numTokens: string -> nat, budget: int): string
    decreases |strings|
  {
    if strings == [] then message
    else
      var next := Article(heading, strings[0]);
      if numTokens(message + next + question) > budget then message
      else Pack(message + next, heading, strings[1..], question, numTokens, budget)
  }

  /** How many of `strings` the loop appends. */
  function Taken(message: string, heading: string, strings: seq<string>, question: string,
                 numTokens: string -> nat, budget: int): (k: nat)
    ensures k <= |strings|
    decreases |strings|
  {
    if strings == [] then 0
    else
      var next := Article(heading, strings[0]);
      if numTokens(message + next + question) > budget then 0
      else 1 + Taken(message + next, heading, strings[1..], question, numTokens, budget)
  }

  /** The loop of `query_message` over the ranked texts, with its `break`. */
  method PackArticles(introduction: string, heading: string, strings: seq<string>, question: string,
                      numTokens: string -> nat, budget: int) returns (r: string)
    ensures r == Pack(introduction, heading, strings, question, numTokens, budget) + question
  {
    var message := introduction;
    var i := 0;
    while i < |strings|
      invariant 0 <= i <= |strings|
      invariant Pack(message, heading, strings[i..], question, numTokens, budget)
             == Pack(introduction, heading, strings, question, numTokens, budget)
    {
      var next := Article(heading, strings[i]);
      if numTokens(message + next + question) > budget {
        break;
      }
      assert strings[i..][1..] == strings[i + 1..];
      message := message + next;
      i := i + 1;
    }
    return message + question;
  }

  /** The articles for the first `j` of `strings`. */
  function FirstArticles(heading: string, strings: seq<string>, j: nat): string
    requires j <= |strings|
  {
    Articles(heading, strings[..j])
  }

  lemma FirstArticlesTail(heading: string, strings: seq<string>, j: nat)
    requires 0 < j <= |strings|
    ensures FirstArticles(heading, strings, j) == Article(heading, strings[0]) + FirstArticles(heading, strings[1..], j - 1)
  {
    assert strings[..j][1..] == strings[1..][..j - 1];
  }

  /**
    The packed message is `message` followed by the articles of the first
    `Taken` texts, in ranking order; every one of those articles fitted when
    it was appended, and the next text, if there is one, did not.
   */
  lemma {:induction false} PackShape(message: string, heading: string, strings: seq<string>, question: string,
                                     numTokens: string -> nat, budget: int)
    ensures var k := Taken(message, heading, strings, question, numTokens, budget);
      Pack(message, heading, strings, question, numTokens, budget) == message + FirstArticles(heading, strings, k) &&
      (forall j :: 0 < j <= k ==> numTokens(message + FirstArticles(heading, strings, j) + question) <= budget) &&
      (k < |strings| ==>
         numTokens(message + FirstArticles(heading, strings, k) + Article(heading, strings[k]) + question) > budget)
  {
    PackPrefix(message, heading, strings, question, numTokens, budget);
    PackFits(message, heading, strings, question, numTokens, budget);
    PackStops(message, heading, strings, question, numTokens, budget);
  }

  lemma {:induction false} PackPrefix(message: string, heading: string, strings: seq<string>, question: string,
                                      numTokens: string -> nat, budget: int)
    ensures Pack(message, heading, strings, question, numTokens, budget)
         == message + FirstArticles(heading, strings, Taken(message, heading, strings, question, numTokens, budget))
    decreases |strings|
  {
    assert strings[..0] == [];
    if strings != [] {
      var next := Article(heading, strings[0]);
      if numTokens(message + next + question) <= budget {
        var rest := strings[1..];
        var k' := Taken(message + next, heading, rest, question, numTokens, budget);
        assert Taken(message, heading, strings, question, numTokens, budget) == k' + 1;
        assert Pack(message, heading, strings, question, numTokens, budget)
            == Pack(message + next, heading, rest, question, numTokens, budget);
        PackPrefix(message + next, heading, rest, question, numTokens, budget);
        FirstArticlesTail(heading, strings, k' + 1);
        Sequences.Regroup(message, next, FirstArticles(heading, rest, k'));
      }
    }
  }

  lemma {:induction false} PackFits(message: string, heading: string, strings: seq<string>, question: string,
                                    numTokens: string -> nat, budget: int)
    ensures forall j :: 0 < j <= Taken(message, heading, strings, question, numTokens, budget) ==>
      numTokens(message + FirstArticles(heading, strings, j) + question) <= budget
    decreases |strings|
  {
    if strings != [] {
      var next := Article(heading, strings[0]);
      if numTokens(message + next + question) <= budget {
        var rest := strings[1..];
        var k := Taken(message, heading, strings, question, numTokens, budget);
        assert k == Taken(message + next, heading, rest, question, numTokens, budget) + 1;
        PackFits(message + next, heading, rest, question, numTokens, budget);
        forall j | 0 < j <= k
          ensures numTokens(message + FirstArticles(heading, strings, j) + question) <= budget
        {
          FirstArticlesTail(heading, strings, j);
          Sequences.Regroup(message, next, FirstArticles(heading, rest, j - 1));
          if j == 1 {
            assert rest[..0] == [];
            assert message + FirstArticles(heading, strings, j) == message + next;
          }
        }
      }
    }
  }

  lemma {:induction false} PackStops(message: string, heading: string, strings: seq<string>, question: string,
                                     numTokens: string -> nat, budget: int)
    ensures var k := Taken(message, heading, strings, question, numTokens, budget);
      k < |strings| ==>
        numTokens(message + FirstArticles(heading, strings, k) + Article(heading, strings[k]) + question) > budget
    decreases |strings|
  {
    if strings != [] {
      var next := Article(heading, strings[0]);
      if numTokens(message + next + question) > budget {
        assert strings[..0] == [];
        assert message + FirstArticles(heading, strings, 0) == message;
      } else {
        var rest := strings[1..];
        var k' := Taken(message + next, heading, rest, question, numTokens, budget);
        assert Taken(message, heading, strings, question, numTokens, budget) == k' + 1;
        PackStops(message + next, heading, rest, question, numTokens, budget);
        if k' < |rest| {
          FirstArticlesTail(heading, strings, k' + 1);
          Sequences.Regroup(message, next, FirstArticles(heading, rest, k'));
          assert strings[k' + 1] == rest[k'];
        }
      }
    }
  }


  /** The whole message `query_message` returns, or the error the ranking raised. */
  function QueryMessage(introduction: string, heading: string, query: string, rows: seq<(string, Ranking.Vector)>,
                        embedQuery: string -> Option<Ranking.Vector>, relatedness: (Ranking.Vector, Ranking.Vector) -> real,
                        numTokens: string -> nat, budget: int): Result<string>
  {
    var ranked :- Ranking.Ranked(query, rows, embedQuery, relatedness, TopN);
    Ok(Pack(introduction, heading, ranked.0, Question(query), numTokens, budget) + Question(query))
  }

  /** `query_message(query, df, model, token_budget)`, with `num_tokens(·, model=model)` as `numTokens`. */
  method BuildQueryMessage(introduction: string, heading: string, query: string, rows: seq<(string, Ranking.Vector)>,
                           embedQuery: string -> Option<Ranking.Vector>, relatedness: (Ranking.Vector, Ranking.Vector) -> real,
                           numTokens: string -> nat, budget: int) returns (r: Result<string>)
    ensures r == QueryMessage(introduction, heading, query, rows, embedQuery, relatedness, numTokens, budget)
  {
    var ranked := Ranking.StringsRankedByRelatedness(query, rows, embedQuery, relatedness, TopN);
    if ranked.Err? {
      return Err(ranked.error);
    }
    var message := PackArticles(introduction, heading, ranked.value.0, Question(query), numTokens, budget);
    return Ok(message);
  }

  /**
    A message that was built opens with the introduction, carries the
    articles of a prefix of the ranked texts, at most 100 of them, and ends
    with the question; it counts at most `budget` tokens whenever it carries
    at least one article, and the text after the last one was left out
    because its article did not fit.
   */
  lemma QueryMessageShape(introduction: string, heading: string, query: string, rows: seq<(string, Ranking.Vector)>,
                          embedQuery: string -> Option<Ranking.Vector>, relatedness: (Ranking.Vector, Ranking.Vector) -> real,
                          numTokens: string -> nat, budget: int)
    requires QueryMessage(introduction, heading, query, rows, embedQuery, relatedness, numTokens, budget).Ok?
    ensures var m := QueryMessage(introduction, heading, query, rows, embedQuery, relatedness, numTokens, budget).value;
      var strings := Ranking.Ranked(query, rows, embedQuery, relatedness, TopN).value.0;
      var k := Taken(introduction, heading, strings, Question(query), numTokens, budget);
      |strings| <= TopN &&
      m == introduction + FirstArticles(heading, strings, k) + Question(query) &&
      (k > 0 ==> numTokens(m) <= budget) &&
      (k < |strings| ==>
         numTokens(introduction + FirstArticles(heading, strings, k) + Article(heading, strings[k]) + Question(query)) > budget)
  {
    Ranking.RankedColumns(query, rows, embedQuery, relatedness, TopN);
    var strings := Ranking.Ranked(query, rows, embedQuery, relatedness, TopN).value.0;
    PackShape(introduction, heading, strings, Question(query), numTokens, budget);
  }

  /** Building the message fails exactly when the ranking does, with the same error. */
  lemma QueryMessageFails(introduction: string, heading: string, query: string, rows: seq<(string, Ranking.Vector)>,
                          embedQuery: string -> Option<Ranking.Vector>, relatedness: (Ranking.Vector, Ranking.Vector) -> real,
                          numTokens: string -> nat, budget: int)
    ensures QueryMessage(introduction, heading, query, rows, embedQuery, relatedness, numTokens, budget).Err?
        <==> embedQuery(query).None? || rows == []
    ensures embedQuery(query).None? ==>
      QueryMessage(introduction, heading, query, rows, embedQuery, relatedness, numTokens, budget) == Err(ServiceError)
    ensures embedQuery(query).Some? && rows == [] ==>
      QueryMessage(introduction, heading, query, rows, embedQuery, relatedness, numTokens, budget) == Err(ValueError)
  {
    if embedQuery(query).Some? && rows != [] {
      Ranking.RankedColumns(query, rows, embedQuery, relatedness, TopN);
    }
  }
}

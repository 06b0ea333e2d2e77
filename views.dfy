/**
  plataforma/views.py: `ask` answers a question about the MIA course catalogue
  by sending the packed course texts and a system message to the chat
  service and formatting its reply; `generate_strategies_prompt` and
  `generate_about_topic_prompt` build the prompts of the study-strategy page.
 */
module Views {
  import opened Wrappers
  import Ranking
  import Context
  import Formatter
  import Prompts
  import PyStr

  /** The introduction `query_message` opens the message with. */
  const Introduction: string :=
    "Usa la siguiente información del catálogo de cursos del Magíster en Inteligencia Artificial (MIA) de la Universidad Católica para responder la pregunta. Si la respuesta no se encuentra en la información, escribe \"No pude encontrar una respuesta.\""

  /** The heading of every article. */
  const Heading: string := "Información del curso"

  /** The default `token_budget` of `ask`. */
  const TokenBudget: int := 4096 - 500

  /** The system message of `ask` before any greeting. */
  const Instructions: string :=
    "Eres un asistente del catálogo de cursos UC. Ayudas con información sobre cursos, créditos, contenidos y bibliografía.\n\n" +
    "IMPORTANTE: Estructura tus respuestas de manera clara y organizada:\n" +
    "- Usa párrafos separados para diferentes temas\n" +
    "- Organiza la información de manera lógica\n" +
    "- Si mencionas múltiples cursos o elementos, preséntalos de forma ordenada\n" +
    "- Usa un lenguaje claro y profesional\n" +
    "- Separa las ideas principales en párrafos distintos"

  /** The sentence asking the model to greet the user by name. */
  function Greeting(name: string): string {
    " Saluda a " + name + " por su nombre."
  }

  /** The system message for a user with the profile name `profileName`, or with no profile. */
  function SystemMessage(profileName: Option<string>): string {
    match profileName
    case None => Instructions
    case Some(name) => Instructions + Greeting(name)
  }

  /**
    The instructions always come first; without a profile they are the whole
    message, and with one they are followed by exactly one greeting, which
    names the user.
   */
  lemma SystemMessageShape(profileName: Option<string>)
    ensures var m := SystemMessage(profileName);
      |m| >= |Instructions| && m[..|Instructions|] == Instructions &&
      (profileName.None? <==> m == Instructions) &&
      (profileName.Some? ==> m[|Instructions|..] == Greeting(profileName.value))
  {
    var m := SystemMessage(profileName);
    if profileName.Some? {
      assert m[..|Instructions|] == Instructions;
      assert |m| > |Instructions|;
    }
  }

  /** Different profile names give different system messages. */
  lemma SystemMessageNames(a: string, b: string)
    requires SystemMessage(Some(a)) == SystemMessage(Some(b))
    ensures a == b
  {
    Prompts.DropPrefix(Instructions, Greeting(a), Greeting(b));
    assert Greeting(a) == " Saluda a " + (a + " por su nombre.");
    assert Greeting(b) == " Saluda a " + (b + " por su nombre.");
    Prompts.DropPrefix(" Saluda a ", a + " por su nombre.", b + " por su nombre.");
    Prompts.DropSuffix(a, b, " por su nombre.");
  }

  /** The packed message for `query`, under this file's introduction and heading. */
  function QueryMessage(query: string, rows: seq<(string, Ranking.Vector)>, embedQuery: string -> Option<Ranking.Vector>,
                        relatedness: (Ranking.Vector, Ranking.Vector) -> real, numTokens: string -> nat, budget: int): Result<string>
  {
    Context.QueryMessage(Introduction, Heading, query, rows, embedQuery, relatedness, numTokens, budget)
  }

  /**
    What `ask(query, profile=profile)` returns: the formatted reply of the
    chat service to the system message and the packed message, or the error
    raised on the way. `chat(system, user)` is the chat service, `None` when
    the call raised.
   */
  function Answer(query: string, rows: seq<(string, Ranking.Vector)>, profileName: Option<string>,
                  embedQuery: string -> Option<Ranking.Vector>, relatedness: (Ranking.Vector, Ranking.Vector) -> real,
                  numTokens: string -> nat, chat: (string, string) -> Option<string>): Result<string>
  {
    var message :- QueryMessage(query, rows, embedQuery, relatedness, numTokens, TokenBudget);
    match chat(SystemMessage(profileName), message)
    case None => Err(ServiceError)
    case Some(reply) => Ok(Formatter.Formatted(reply))
  }

  /** `ask`, step by step: the message, the system message, the chat call and the formatting. */
  method Ask(query: string, rows: seq<(string, Ranking.Vector)>, profileName: Option<string>,
             embedQuery: string -> Option<Ranking.Vector>, relatedness: (Ranking.Vector, Ranking.Vector) -> real,
             numTokens: string -> nat, chat: (string, string) -> Option<string>) returns (r: Result<string>)
    ensures r == Answer(query, rows, profileName, embedQuery, relatedness, numTokens, chat)
  {
    var message := Context.BuildQueryMessage(Introduction, Heading, query, rows, embedQuery, relatedness, numTokens, TokenBudget);
    assert QueryMessage(query, rows, embedQuery, relatedness, numTokens, TokenBudget) == message;
    if message.Err? {
      return Err(message.error);
    }
    var systemMessage := Instructions;
    if profileName.Some? {
      systemMessage := systemMessage + Greeting(profileName.value);
    }
    assert systemMessage == SystemMessage(profileName);
    var response := chat(systemMessage, message.value);
    if response.None? {
      return Err(ServiceError);
    }
    var formatted := Formatter.FormatResponse(response.value);
    return Ok(formatted);
  }

  /**
    `ask` fails exactly when the query cannot be embedded, the corpus is
    empty, or the chat call raises, with the error of the first of these.
   */
  lemma AnswerFails(query: string, rows: seq<(string, Ranking.Vector)>, profileName: Option<string>,
                    embedQuery: string -> Option<Ranking.Vector>, relatedness: (Ranking.Vector, Ranking.Vector) -> real,
                    numTokens: string -> nat, chat: (string, string) -> Option<string>)
    ensures var r := Answer(query, rows, profileName, embedQuery, relatedness, numTokens, chat);
      (embedQuery(query).None? ==> r == Err(ServiceError)) &&
      (embedQuery(query).Some? && rows == [] ==> r == Err(ValueError)) &&
      (embedQuery(query).Some? && rows != [] ==>
         var m := QueryMessage(query, rows, embedQuery, relatedness, numTokens, TokenBudget);
         m.Ok? && (r.Err? <==> chat(SystemMessage(profileName), m.value).None?) && (r.Err? ==> r.error == ServiceError))
  {
    Context.QueryMessageFails(Introduction, Heading, query, rows, embedQuery, relatedness, numTokens, TokenBudget);
  }

  /**
    An answer is the chat reply to the packed message, formatted: it is
    empty exactly when the reply is blank, and the packed message opens with
    the introduction, carries articles for a prefix of the ranked course
    texts and closes with the question.
   */
  lemma AnswerIsFormattedReply(query: string, rows: seq<(string, Ranking.Vector)>, profileName: Option<string>,
                               embedQuery: string -> Option<Ranking.Vector>, relatedness: (Ranking.Vector, Ranking.Vector) -> real,
                               numTokens: string -> nat, chat: (string, string) -> Option<string>)
    requires Answer(query, rows, profileName, embedQuery, relatedness, numTokens, chat).Ok?
    ensures var m := QueryMessage(query, rows, embedQuery, relatedness, numTokens, TokenBudget);
      var r := Answer(query, rows, profileName, embedQuery, relatedness, numTokens, chat).value;
      var strings := Ranking.Ranked(query, rows, embedQuery, relatedness, Context.TopN).value.0;
      var k := Context.Taken(Introduction, Heading, strings, Context.Question(query), numTokens, TokenBudget);
      m.Ok? && m.value == Introduction + Context.FirstArticles(Heading, strings, k) + Context.Question(query) &&
      chat(SystemMessage(profileName), m.value).Some? &&
      r == Formatter.Formatted(chat(SystemMessage(profileName), m.value).value) &&
      (r == "" <==> forall i :: 0 <= i < |chat(SystemMessage(profileName), m.value).value| ==>
                      PyStr.IsSpace(chat(SystemMessage(profileName), m.value).value[i]))
  {
    Context.QueryMessageShape(Introduction, Heading, query, rows, embedQuery, relatedness, numTokens, TokenBudget);
    var m := QueryMessage(query, rows, embedQuery, relatedness, numTokens, TokenBudget);
    Formatter.FormattedEmpty(chat(SystemMessage(profileName), m.value).value);
  }

  // ---------------------------------------------------------------------
  // The prompts of the study-strategy page

  /** `generate_strategies_prompt` asks for strategies on the topic, for the quoted level. */
  const StrategiesLead: string := "Proporciona estrategias de aprendizaje para "
  const StrategiesMid: string := ", dirigidas a alguien con nivel "
  const StrategiesTail: string :=
    "'. \n\nEstructura tu respuesta en párrafos claros, organizando la información de manera lógica y fácil de seguir. Máximo 400 palabras."

  /** `generate_strategies_prompt(tematica, nivel)` */
  function StrategiesPrompt(tematica: Option<string>, nivel: Option<string>): Result<string> {
    var level :- Prompts.Level(nivel);
    Ok(StrategiesLead + Prompts.Shown(tematica) + StrategiesMid + "'" + level + StrategiesTail)
  }

  /** `generate_about_topic_prompt` asks for the key concepts of the topic, for the quoted level. */
  const AboutLead: string := "Explica los conceptos clave sobre "
  const AboutMid: string := " para alguien con nivel "
  const AboutTail: string :=
    "'. \n\nOrganiza tu respuesta en párrafos claros:\n- Conceptos fundamentales\n- Elementos centrales\n- Elementos secundarios\n- Temas relacionados para profundizar\n\nMáximo 400 palabras, con estructura clara y fácil de leer."

  /** `generate_about_topic_prompt(tematica, nivel)` */
  function AboutTopicPrompt(tematica: Option<string>, nivel: Option<string>): Result<string> {
    var level :- Prompts.Level(nivel);
    Ok(AboutLead + Prompts.Shown(tematica) + AboutMid + "'" + level + AboutTail)
  }

  /**
    Both prompts are built exactly when `nivel` is a key of the levels
    table, and quote its label; otherwise they raise `KeyError`.
   */
  lemma PromptsLevel(tematica: Option<string>, nivel: Option<string>)
    ensures StrategiesPrompt(tematica, nivel).Ok? <==> nivel.Some? && nivel.value in Prompts.Levels
    ensures AboutTopicPrompt(tematica, nivel).Ok? <==> nivel.Some? && nivel.value in Prompts.Levels
    ensures StrategiesPrompt(tematica, nivel).Err? ==> StrategiesPrompt(tematica, nivel).error == KeyError
    ensures AboutTopicPrompt(tematica, nivel).Err? ==> AboutTopicPrompt(tematica, nivel).error == KeyError
    ensures StrategiesPrompt(tematica, nivel).Ok? ==>
      StrategiesPrompt(tematica, nivel).value ==
        StrategiesLead + Prompts.Shown(tematica) + StrategiesMid + "'" + Prompts.Levels[nivel.value] + StrategiesTail
    ensures AboutTopicPrompt(tematica, nivel).Ok? ==>
      AboutTopicPrompt(tematica, nivel).value ==
        AboutLead + Prompts.Shown(tematica) + AboutMid + "'" + Prompts.Levels[nivel.value] + AboutTail
  {
  }

  /** The strategies prompt gives back the topic as printed and the level it was asked for. */
  lemma StrategiesPromptUnique(t1: Option<string>, n1: Option<string>, t2: Option<string>, n2: Option<string>)
    requires StrategiesPrompt(t1, n1).Ok? && StrategiesPrompt(t1, n1) == StrategiesPrompt(t2, n2)
    ensures Prompts.Shown(t1) == Prompts.Shown(t2) && n1 == n2
  {
    PromptsLevel(t1, n1);
    PromptsLevel(t2, n2);
    Prompts.LevelPromptUnique(StrategiesLead, StrategiesMid, StrategiesTail, t1, n1, t2, n2);
  }

  /** The topic prompt gives back the topic as printed and the level it was asked for. */
  lemma AboutTopicPromptUnique(t1: Option<string>, n1: Option<string>, t2: Option<string>, n2: Option<string>)
    requires AboutTopicPrompt(t1, n1).Ok? && AboutTopicPrompt(t1, n1) == AboutTopicPrompt(t2, n2)
    ensures Prompts.Shown(t1) == Prompts.Shown(t2) && n1 == n2
  {
    PromptsLevel(t1, n1);
    PromptsLevel(t2, n2);
    Prompts.LevelPromptUnique(AboutLead, AboutMid, AboutTail, t1, n1, t2, n2);
  }
}

/**
 * The chat side: the system prompt with the retrieved passages injected,
 * the conversion of the client's history into chat messages, and the chat
 * turn that puts both around the user's message, asks the model and relays
 * its answer.
 */
module RagApi {
  import opened Wrappers
  import opened TextUtil

  // ---------------------------------------------------------------------
  // System prompt
  // ---------------------------------------------------------------------

  /** A passage returned by the vector store's search; metadata values are held as text. */
  datatype RetrievedDoc = RetrievedDoc(pageContent: string, metadata: map<string, string>)

  /** `d.metadata.get('source', 'Doc')` */
  function SourceLabel(d: RetrievedDoc): string {
    if "source" in d.metadata then d.metadata["source"] else "Doc"
  }

  /** One passage as it is shown to the model. */
  function Passage(d: RetrievedDoc): (p: string)
    ensures StartsWith(p, "Source: ")
    ensures EndsWith(p, "\nContenu: " + d.pageContent)
  {
    "Source: " + SourceLabel(d) + "\nContenu: " + d.pageContent
  }

  /**
   * Between the "Source: " frame and the "\nContenu: " line a passage names
   * its source: the `source` metadata value whenever the key is present,
   * even when it is empty, and "Doc" only when it is absent.
   */
  lemma PassageSource(d: RetrievedDoc)
    ensures var p := Passage(d);
      var shown := p[8..|p| - (10 + |d.pageContent|)];  // 8 = |"Source: "|, 10 = |"\nContenu: "|
      && ("source" in d.metadata ==> shown == d.metadata["source"])
      && ("source" !in d.metadata ==> shown == "Doc")
  {
    var head, name, tail := "Source: ", SourceLabel(d), "\nContenu: " + d.pageContent;
    assert |head| == 8 && |tail| == 10 + |d.pageContent|;
    var p := Passage(d);
    AppendAssoc(head + name, "\nContenu: ", d.pageContent);
    assert p == head + name + tail;
    assert p[|head|..|p| - |tail|] == name;
  }

  function Passages(docs: seq<RetrievedDoc>): (ps: seq<string>)
    ensures |ps| == |docs|
    ensures forall i :: 0 <= i < |docs| ==> ps[i] == Passage(docs[i])
  {
    seq(|docs|, i requires 0 <= i < |docs| => Passage(docs[i]))
  }

  /** What the context holds when nothing was retrieved. */
  const NoDocumentation: string := "Aucune " + "documentation spécifique trouvée pour cette requête."

  /** The context block: the passages separated by a blank line, or the fixed sentence when there are none. */
  function ContextBlock(docs: seq<RetrievedDoc>): string {
    if docs == [] then NoDocumentation else Join(Passages(docs), "\n\n")
  }

  /** The number of lines of the prompt template, the context block's line included. */
  const TemplateLineCount: nat := 44

  /** The line of the template that the context block takes. */
  const ContextLine: nat := 5

  /** The tags on the lines just above and just below the context block. */
  const ContextOpen: string := "<context>"
  const ContextClose: string := "</context>"

  /** The fixed lines of the prompt template; the context line and the lines past the end are empty. */
  function TemplateLine(i: nat): string {
    match i
      case 0 => "Tu es Medaltea, l'assistant expert en médecines douces (Naturopathie, MTC, Phytothérapie)."
      case 1 => "Ta mission : Démocratiser la santé naturelle avec bienveillance, concision et empathie."
      case 2 => ""
      case 3 => "### DONNÉES D'ENTRÉE (CONTEXTE RAG)"
      case 4 => ContextOpen
      case 6 => ContextClose
      case 7 => ""
      case 8 => "### PROTOCOLE DE SÉCURITÉ (Priorité Absolue)"
      case 9 => "Avant toute chose, analyse la demande :"
      case 10 => "- Si urgence vitale (douleur poitrine, souffle court, malaise grave) : Réponds UNIQUEMENT : \"STOP. Cela ressemble à une urgence. Appelle immédiatement le 15 ou rends-toi aux urgences. Je ne suis pas médecin.\""
      case 11 => "- Rappel constant : Tu ne poses pas de diagnostic médical."
      case 12 => ""
      case 13 => "### RÈGLES DE FORMATAGE (Strictes)"
      case 14 => "1.  **Langue :** Français uniquement."
      case 15 => "2.  **Style \"Plain Text\" :** - AUCUN formatage Markdown (pas de gras `**`, pas d'italique `*`, pas de titres `#`)."
      case 16 => "    - Utilise des tirets simples (-) pour les listes."
      case 17 => "    - AUCUN émoji."
      case 18 => "3.  **Fidélité :** Réponds UNIQUEMENT basé sur les informations présentes dans les balises <context>. Si l'info n'y est pas, dis : \"Je n'ai pas cette information dans mes fiches actuelles.\""
      case 19 => ""
      case 20 => "### PROCESSUS DE RÉPONSE"
      case 21 => "Construis ta réponse en suivant scrupuleusement ces 4 étapes :"
      case 22 => ""
      case 23 => "ÉTAPE 1 : EMPATHIE & CAUSE"
      case 24 => "- Valide le ressenti de l'utilisateur."
      case 25 => "- Si le <context> l'explique, mentionne la cause selon l'approche holistique en 1 phrase simple."
      case 26 => ""
      case 27 => "ÉTAPE 2 : CONSEILS PRATIQUES"
      case 28 => "- Liste les conseils d'hygiène de vie ou alimentaires trouvés dans le <context>."
      case 29 => "- Utilise des tirets (-) pour lister les points."
      case 30 => "- Sois concis."
      case 31 => ""
      case 32 => "ÉTAPE 3 : LE PRODUIT BIOCOOP (Optionnel)"
      case 33 => "- VERIFICATION : Cherche dans le <context> un produit spécifique vendu chez Biocoop lié au conseil."
      case 34 => "- SI TROUVÉ : Ajoute la phrase exacte : \"Pour t'aider, tu peux utiliser [Nom du Produit](URL) disponible chez Biocoop.\""
      case 35 => "- SI NON TROUVÉ : Ne dis rien pour cette étape."
      case 36 => ""
      case 37 => "ÉTAPE 4 : L'EXPERT (Optionnel)"
      case 38 => "- VERIFICATION : Cherche dans le <context> une recommandation de praticien localisé."
      case 39 => "- CAS A (Praticien trouvé) : Écris \"Pour un suivi complet, je te suggère [Nom], [Spécialité] à [Adresse].\""
      case 40 => "- CAS B (Besoin expert mentionné mais pas de lieu) : Écris \"Veux-tu que je cherche un spécialiste près de chez toi ? Si oui, dis-moi dans quelle ville tu es.\""
      case 41 => ""
      case 42 => "---"
      case 43 => "Génère maintenant ta réponse en appliquant ces directives à la lettre."
      case _ => ""
  }

  /**
   * Lines `i` onwards of a template given line by line, separated by line
   * breaks, with `context` on the context line.
   */
  function Render(lines: nat -> string, i: nat, context: string): string
    requires i <= TemplateLineCount
    decreases TemplateLineCount - i
  {
    if i == TemplateLineCount then ""
    else
      var line := if i == ContextLine then context else lines(i);
      if i + 1 == TemplateLineCount then line else line + "\n" + Render(lines, i + 1, context)
  }

  /** `build_system_prompt`: the prompt template with the context block on its context line. */
  function BuildSystemPrompt(docs: seq<RetrievedDoc>): string {
    Render(TemplateLine, 0, ContextBlock(docs))
  }

  /** Lines `i` up to the context line, each followed by a line break. */
  function HeadFrom(lines: nat -> string, i: nat): string
    requires i <= ContextLine
    decreases ContextLine - i
  {
    if i == ContextLine then "" else lines(i) + "\n" + HeadFrom(lines, i + 1)
  }

  /** Everything the prompt holds before the context block; it ends with `<context>` and a line break. */
  function PromptHead(): string {
    HeadFrom(TemplateLine, 0)
  }

  /** The lines after the context line do not depend on the context. */
  lemma {:induction false} TailIgnoresContext(lines: nat -> string, i: nat, c: string, c': string)
    requires ContextLine < i <= TemplateLineCount
    ensures Render(lines, i, c) == Render(lines, i, c')
    decreases TemplateLineCount - i
  {
    if i < TemplateLineCount {
      TailIgnoresContext(lines, i + 1, c, c');
    }
  }

  /** Up to the context line the rendering is fixed text followed by the rendering from the context line on. */
  lemma {:induction false} RenderAround(lines: nat -> string, i: nat, c: string)
    requires i <= ContextLine
    ensures Render(lines, i, c) == HeadFrom(lines, i) + Render(lines, ContextLine, c)
    decreases ContextLine - i
  {
    if i == ContextLine {
      AppendEmpty(Render(lines, ContextLine, c));
    } else {
      RenderAround(lines, i + 1, c);
      AppendAssoc(lines(i) + "\n", HeadFrom(lines, i + 1), Render(lines, ContextLine, c));
    }
  }

  /** The context line holds the context, followed by a line break and the lines after it. */
  lemma RenderContextLine(lines: nat -> string, c: string)
    ensures Render(lines, ContextLine, c) == c + "\n" + Render(lines, ContextLine + 1, c)
  {
  }

  /**
   * A rendering is the fixed head, the context, a line break and the fixed
   * tail: the context is inserted verbatim and nothing else depends on it.
   */
  lemma RenderSplit(lines: nat -> string, c: string)
    ensures Render(lines, 0, c) == HeadFrom(lines, 0) + c + "\n" + Render(lines, ContextLine + 1, "")
  {
    var head, tail := HeadFrom(lines, 0), Render(lines, ContextLine + 1, "");
    RenderAround(lines, 0, c);
    RenderContextLine(lines, c);
    TailIgnoresContext(lines, ContextLine + 1, c, "");
    Regroup(head, c, tail);
  }

  lemma Regroup(head: string, c: string, tail: string)
    ensures head + (c + "\n" + tail) == head + c + "\n" + tail
  {
    AppendAssoc(head, c + "\n", tail);
    AppendAssoc(head, c, "\n");
  }

  /** Everything the prompt holds after the line break that ends the context block. */
  function PromptTail(): string {
    Render(TemplateLine, ContextLine + 1, "")
  }

  /** The fixed text before the context line ends with the line just above it and a line break. */
  lemma {:induction false} HeadEnds(lines: nat -> string, i: nat)
    requires i < ContextLine
    ensures EndsWith(HeadFrom(lines, i), lines(ContextLine - 1) + "\n")
    decreases ContextLine - i
  {
    if i + 1 < ContextLine {
      HeadEnds(lines, i + 1);
      EndsWithExtended(lines(i) + "\n", HeadFrom(lines, i + 1), lines(ContextLine - 1) + "\n");
    } else {
      AppendEmpty(lines(i) + "\n");
    }
  }

  /** The text after the context line starts with the line just below it. */
  lemma TailStarts(lines: nat -> string, c: string)
    ensures StartsWith(Render(lines, ContextLine + 1, c), lines(ContextLine + 1))
  {
    var line := lines(ContextLine + 1);
    var rest := "\n" + Render(lines, ContextLine + 2, c);
    AppendAssoc(line, "\n", Render(lines, ContextLine + 2, c));
    assert (line + rest)[..|line|] == line;
  }

  /** The prompt's head closes with the `<context>` opening tag and a line break. */
  lemma PromptHeadEnds()
    ensures EndsWith(PromptHead(), ContextOpen + "\n")
  {
    HeadEndsWithLine(TemplateLine, ContextOpen);
  }

  /** The prompt's tail opens with the `</context>` closing tag. */
  lemma PromptTailStarts()
    ensures StartsWith(PromptTail(), ContextClose)
  {
    TailStartsWithLine(TemplateLine, ContextClose);
  }

  lemma HeadEndsWithLine(lines: nat -> string, line: string)
    requires lines(ContextLine - 1) == line
    ensures EndsWith(HeadFrom(lines, 0), line + "\n")
  {
    HeadEnds(lines, 0);
  }

  lemma TailStartsWithLine(lines: nat -> string, line: string)
    requires lines(ContextLine + 1) == line
    ensures StartsWith(Render(lines, ContextLine + 1, ""), line)
  {
    TailStarts(lines, "");
  }

  /**
   * The system prompt is the fixed head, the context block verbatim, a line
   * break and the fixed tail; the head ends with the `<context>` tag on a
   * line of its own and the tail opens with `</context>`, so the block sits
   * between the two tags.
   */
  lemma PromptStructure(docs: seq<RetrievedDoc>)
    ensures BuildSystemPrompt(docs) == PromptHead() + ContextBlock(docs) + "\n" + PromptTail()
    ensures EndsWith(PromptHead(), ContextOpen + "\n")
    ensures StartsWith(PromptTail(), ContextClose)
  {
    RenderSplit(TemplateLine, ContextBlock(docs));
    PromptHeadEnds();
    PromptTailStarts();
  }

  /** A rendering determines the context it was given. */
  lemma RenderInjective(lines: nat -> string, c: string, c': string)
    requires Render(lines, 0, c) == Render(lines, 0, c')
    ensures c == c'
  {
    var tail := Render(lines, ContextLine + 1, c);
    RenderAround(lines, 0, c);
    RenderContextLine(lines, c);
    RenderAround(lines, 0, c');
    RenderContextLine(lines, c');
    TailIgnoresContext(lines, ContextLine + 1, c, c');
    AppendAssoc(c, "\n", tail);
    AppendAssoc(c', "\n", tail);
    CancelAround(HeadFrom(lines, 0), c, c', "\n" + tail);
  }

  /** Two different context blocks never give the same system prompt. */
  lemma PromptDeterminesContext(a: seq<RetrievedDoc>, b: seq<RetrievedDoc>)
    requires BuildSystemPrompt(a) == BuildSystemPrompt(b)
    ensures ContextBlock(a) == ContextBlock(b)
  {
    RenderInjective(TemplateLine, ContextBlock(a), ContextBlock(b));
  }

  /**
   * The model is told that no documentation was found exactly when no
   * passage was retrieved: a non-empty context block starts with a passage.
   */
  lemma NoDocumentationIffEmpty(docs: seq<RetrievedDoc>)
    ensures ContextBlock(docs) == NoDocumentation <==> docs == []
  {
    if docs != [] {
      JoinHead(Passages(docs), "\n\n");
      var c := ContextBlock(docs);
      assert c[..8] == "Source: ";
      assert NoDocumentation[..8] != "Source: " by {
        assert NoDocumentation[0] == 'A';
      }
    }
  }

  /**
   * Each passage appears in the context block in retrieval order: the block
   * is the passages before it, a blank line, the passage, a blank line and
   * the passages after it.
   */
  lemma PassageInContext(docs: seq<RetrievedDoc>, i: nat)
    requires i < |docs|
    ensures ContextBlock(docs) ==
      Join(Passages(docs[..i]), "\n\n") + (if i > 0 then "\n\n" else "") + Passage(docs[i])
      + (if i + 1 < |docs| then "\n\n" + Join(Passages(docs[i + 1..]), "\n\n") else "")
  {
    var ps := Passages(docs);
    JoinAt(ps, "\n\n", i);
    assert ps[..i] == Passages(docs[..i]);
    assert ps[i + 1..] == Passages(docs[i + 1..]);
  }

  /** One more retrieved passage goes after a blank line at the end of the block. */
  lemma ContextAppend(docs: seq<RetrievedDoc>, d: RetrievedDoc)
    requires docs != []
    ensures ContextBlock(docs + [d]) == ContextBlock(docs) + "\n\n" + Passage(d)
  {
    assert Passages(docs + [d]) == Passages(docs) + [Passage(d)];
    JoinAppend(Passages(docs), [Passage(d)], "\n\n");
  }

  /** A single retrieved passage is the whole context block. */
  lemma SinglePassage(d: RetrievedDoc)
    ensures ContextBlock([d]) == Passage(d)
  {
    assert Passages([d]) == [Passage(d)];
  }

  // ---------------------------------------------------------------------
  // History
  // ---------------------------------------------------------------------

  datatype Role = System | Human | AI

  datatype Message = Message(role: Role, content: string)

  /** The messages one history turn contributes: none for a turn of fewer than two entries, and none for an empty side. */
  function TurnMessages(turn: seq<string>): seq<Message> {
    if |turn| < 2 then []
    else
      (if turn[0] != "" then [Message(Human, turn[0])] else [])
      + (if turn[1] != "" then [Message(AI, turn[1])] else [])
  }

  /** The messages of a whole history, turn after turn. */
  function HistoryMessages(history: seq<seq<string>>): seq<Message>
    decreases |history|
  {
    if history == [] then []
    else HistoryMessages(history[..|history| - 1]) + TurnMessages(history[|history| - 1])
  }

  /** `_format_history` */
  method FormatHistory(history: seq<seq<string>>) returns (messages: seq<Message>)
    ensures messages == HistoryMessages(history)
  {
    messages := [];
    for t := 0 to |history|
      invariant messages == HistoryMessages(history[..t])
    {
      var turn := history[t];
      if |turn| >= 2 {
        var userMsg, botMsg := turn[0], turn[1];
        if userMsg != "" {
          messages := messages + [Message(Human, userMsg)];
        }
        if botMsg != "" {
          messages := messages + [Message(AI, botMsg)];
        }
      }
      assert history[..t + 1][..t] == history[..t];
    }
    assert history[..|history|] == history;
  }

  /** The history of two conversations one after the other is the history of each, in order. */
  lemma {:induction false} HistoryAppend(a: seq<seq<string>>, b: seq<seq<string>>)
    ensures HistoryMessages(a + b) == HistoryMessages(a) + HistoryMessages(b)
    decreases |b|
  {
    if b == [] {
      assert a + b == a;
    } else {
      var last := |b| - 1;
      var init := b[..last];
      assert (a + b)[..|a + b| - 1] == a + init;
      assert (a + b)[|a + b| - 1] == b[last];
      HistoryAppend(a, init);
      assert HistoryMessages(a + b) == HistoryMessages(a + init) + TurnMessages(b[last]);
      AppendAssoc(HistoryMessages(a), HistoryMessages(init), TurnMessages(b[last]));
    }
  }

  /** A turn with fewer than two entries leaves no trace. */
  lemma ShortTurnIgnored(a: seq<seq<string>>, turn: seq<string>, b: seq<seq<string>>)
    requires |turn| < 2
    ensures HistoryMessages(a + [turn] + b) == HistoryMessages(a + b)
  {
    assert [turn][..0] == [];
    assert HistoryMessages([turn]) == HistoryMessages([]) + TurnMessages(turn) == [];
    HistoryAppend(a, [turn]);
    HistoryAppend(a + [turn], b);
    HistoryAppend(a, b);
  }

  /**
   * History never yields a system message or an empty one, and at most two
   * messages per turn.
   */
  lemma {:induction false} HistoryShape(history: seq<seq<string>>)
    ensures |HistoryMessages(history)| <= 2 * |history|
    ensures forall m :: m in HistoryMessages(history) ==> m.role != System && m.content != ""
    decreases |history|
  {
    if history != [] {
      HistoryShape(history[..|history| - 1]);
    }
  }

  /**
   * A history whose every turn has both sides filled in becomes the
   * alternation user, assistant, user, assistant, ... of its entries.
   */
  lemma {:induction false} CompleteHistory(history: seq<seq<string>>)
    requires forall t :: 0 <= t < |history| ==> |history[t]| >= 2 && history[t][0] != "" && history[t][1] != ""
    ensures |HistoryMessages(history)| == 2 * |history|
    ensures forall t :: 0 <= t < |history| ==>
      HistoryMessages(history)[2 * t] == Message(Human, history[t][0])
      && HistoryMessages(history)[2 * t + 1] == Message(AI, history[t][1])
    decreases |history|
  {
    if history != [] {
      var prefix := history[..|history| - 1];
      CompleteHistory(prefix);
      var ms := HistoryMessages(history);
      assert ms == HistoryMessages(prefix) + [Message(Human, history[|history| - 1][0]), Message(AI, history[|history| - 1][1])];
      forall t | 0 <= t < |history|
        ensures ms[2 * t] == Message(Human, history[t][0]) && ms[2 * t + 1] == Message(AI, history[t][1])
      {
        if t < |prefix| {
          assert prefix[t] == history[t];
        }
      }
    }
  }

  // ---------------------------------------------------------------------
  // Chat turn
  // ---------------------------------------------------------------------

  /** The body of the retrieval call: `{"query": ..., "k": ...}`. */
  datatype SearchRequest = SearchRequest(query: string, k: nat)

  /** How many passages a chat turn asks for. */
  const RetrievalK: nat := 3

  /** One entry of `results`: a passage, or an object that does not have a passage's fields. */
  datatype ResultEntry = Entry(doc: RetrievedDoc) | MalformedEntry

  /**
   * What the retrieval call gives back: it raised (connection failure,
   * body that is not JSON), or a JSON body with or without a `results` list.
   * The status code is not looked at, so an error response is a body without
   * `results`.
   */
  datatype SearchReply = SearchRaised | SearchBody(results: Option<seq<ResultEntry>>)

  predicate WellFormed(entries: seq<ResultEntry>) {
    forall i :: 0 <= i < |entries| ==> entries[i].Entry?
  }

  /**
   * The passages a chat turn works with: those of `results` when the call
   * succeeded and every entry is a passage; otherwise none, the failure
   * being swallowed.
   */
  function RetrievedDocs(reply: SearchReply): (docs: seq<RetrievedDoc>)
    ensures docs == [] <==>
      (reply.SearchRaised? || reply.results.None? || !WellFormed(reply.results.value) || reply.results.value == [])
    ensures docs != [] ==>
      |docs| == |reply.results.value| && forall i :: 0 <= i < |docs| ==> docs[i] == reply.results.value[i].doc
  {
    if reply.SearchRaised? || reply.results.None? || !WellFormed(reply.results.value) then []
    else
      var entries := reply.results.value;
      seq(|entries|, i requires 0 <= i < |entries| && WellFormed(entries) => entries[i].doc)
  }

  /**
   * The message list of a chat turn: the system message, the formatted
   * history, then the user's message.
   */
  method AssembleMessages(systemPrompt: string, past: seq<Message>, message: string) returns (messages: seq<Message>)
    requires forall m :: m in past ==> m.role != System
    ensures |messages| == |past| + 2
    ensures messages[0] == Message(System, systemPrompt)
    ensures messages[1..|messages| - 1] == past
    ensures messages[|messages| - 1] == Message(Human, message)
    ensures forall i :: 0 < i < |messages| ==> messages[i].role != System
  {
    messages := [Message(System, systemPrompt)];
    messages := messages + past;
    messages := messages + [Message(Human, message)];
    assert messages[1..|messages| - 1] == past;
    forall i | 0 < i < |messages|
      ensures messages[i].role != System
    {
      if i < |messages| - 1 {
        assert messages[i] == past[i - 1];
      }
    }
  }

  /** An exception raised by the model call; it ends the stream. */
  datatype ModelError = ModelError(message: string)

  /**
   * `stream_chat_response`: retrieves passages for the message (k = 3),
   * builds the system prompt from them, sends the model the system message,
   * the formatted history and the user's message, and streams the answer as
   * a single chunk, or nothing when the answer is empty. `search` stands for
   * the retrieval call; `answer` is what the model replies to `sent`, the
   * messages it receives.
   */
  method StreamChatResponse(message: string, history: seq<seq<string>>,
                            search: SearchRequest -> SearchReply,
                            answer: Result<string, ModelError>)
    returns (sent: seq<Message>, output: Result<seq<string>, ModelError>)
    ensures |sent| == |HistoryMessages(history)| + 2
    ensures sent[0] == Message(System, BuildSystemPrompt(RetrievedDocs(search(SearchRequest(message, RetrievalK)))))
    ensures sent[1..|sent| - 1] == HistoryMessages(history)
    ensures sent[|sent| - 1] == Message(Human, message)
    ensures forall i :: 0 < i < |sent| ==> sent[i].role != System
    ensures output.Failure? <==> answer.Failure?
    ensures output.Failure? ==> output.error == answer.error
    ensures output.Success? ==> |output.value| <= 1 && (output.value == [] <==> answer.value == "")
    ensures output.Success? && output.value != [] ==> output.value[0] == answer.value
  {
    var docs := RetrievedDocs(search(SearchRequest(message, RetrievalK)));
    var systemPrompt := BuildSystemPrompt(docs);
    var past := FormatHistory(history);
    HistoryShape(history);
    sent := AssembleMessages(systemPrompt, past, message);
    if answer.Failure? {
      return sent, Failure(answer.error);
    }
    if answer.value != "" {
      output := Success([answer.value]);
    } else {
      output := Success([]);
    }
  }
}

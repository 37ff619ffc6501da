/**
 * `generate_response`: the canned reply given when nothing in the store
 * matches, picked by the first keyword group the question mentions.
 */
module Reply {
  import opened Text
  import opened ReplyText

  const LuaWords: seq<string> := ["lua", "script", "function", "variable", "table", "loop"]
  const GuiWords: seq<string> := ["gui", "frame", "button", "udim2", "screengui", "textbox"]
  const ExecutorWords: seq<string> := ["executor", "loadstring", "getgenv", "script hub"]

  /** `any(word in tokens for word in group)`. */
  predicate Mentions(tokens: seq<string>, group: seq<string>)
  {
    exists k :: 0 <= k < |group| && group[k] in tokens
  }

  /** The first group, in the order lua, gui, executor, that the question mentions. */
  function TopicOf(question: string): Topic
  {
    var tokens := Tokens(question);
    if Mentions(tokens, LuaWords) then LuaTopic
    else if Mentions(tokens, GuiWords) then GuiTopic
    else if Mentions(tokens, ExecutorWords) then ExecutorTopic
    else DefaultTopic
  }

  /**
   * `generate_response(question, lang)`: the text of the first keyword group
   * the question mentions; it is one of the English texts exactly when `lang`
   * is `'en'`, and any other `lang` gets the Tagalog text.
   */
  function GenerateResponse(question: string, lang: string := "en"): (r: string)
    ensures (exists t: Topic :: r == English(t)) <==> lang == "en"
  {
    var topic := TopicOf(question);
    if lang == "en" then English(topic)
    else
      TagalogIsNeverEnglish(topic);
      Tagalog(topic)
  }

  lemma TagalogIsNeverEnglish(t: Topic)
    ensures forall u: Topic :: Tagalog(t) != English(u)
  {
    forall u: Topic ensures Tagalog(t) != English(u) {
      EnglishIsNotTagalog(u, t);
    }
  }

  /** The reply tells which group matched and whether it was English: no two texts coincide. */
  lemma ReplyDeterminesTopic(q1: string, l1: string, q2: string, l2: string)
    requires GenerateResponse(q1, l1) == GenerateResponse(q2, l2)
    ensures TopicOf(q1) == TopicOf(q2)
    ensures (l1 == "en") == (l2 == "en")
  {
    if l1 == "en" && l2 == "en" {
      EnglishInjective(TopicOf(q1), TopicOf(q2));
    } else if l1 != "en" && l2 != "en" {
      TagalogInjective(TopicOf(q1), TopicOf(q2));
    }
  }

  /** Groups are tried in priority order: a lua word wins over every other group. */
  lemma LuaFirst(question: string)
    requires Mentions(Tokens(question), LuaWords)
    ensures TopicOf(question) == LuaTopic
  {
  }

  /** The gui reply is given exactly when a gui word is present and no lua word is. */
  lemma GuiSecond(question: string)
    ensures TopicOf(question) == GuiTopic <==>
      !Mentions(Tokens(question), LuaWords) && Mentions(Tokens(question), GuiWords)
  {
  }

  /**
   * The executor reply is given exactly when no lua or gui word is present and
   * one of `executor`, `loadstring`, `getgenv` is: the two-word item
   * `script hub` never matches a single token.
   */
  lemma ExecutorOnlyBySingleWords(question: string)
    ensures TopicOf(question) == ExecutorTopic <==>
      !Mentions(Tokens(question), LuaWords) && !Mentions(Tokens(question), GuiWords) &&
      ("executor" in Tokens(question) || "loadstring" in Tokens(question) || "getgenv" in Tokens(question))
  {
    var tokens, phrase := Tokens(question), "script hub";
    assert IsSpace(phrase[6]);
    PhraseIsNeverToken(question, phrase);
    assert ExecutorWords[3] == phrase;
    if Mentions(tokens, ExecutorWords) {
      var k :| 0 <= k < |ExecutorWords| && ExecutorWords[k] in tokens;
      assert k != 3;
    }
    if "executor" in tokens { assert ExecutorWords[0] in tokens; }
    if "loadstring" in tokens { assert ExecutorWords[1] in tokens; }
    if "getgenv" in tokens { assert ExecutorWords[2] in tokens; }
  }
}

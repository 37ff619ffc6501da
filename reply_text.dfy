/**
 * The eight canned replies of `generate_response`, one per keyword group and
 * language, and the facts that tell them apart.
 */
module ReplyText {
  /** Which canned reply a question gets. */
  datatype Topic = LuaTopic | GuiTopic | ExecutorTopic | DefaultTopic

  function English(topic: Topic): string
  {
    match topic
    case LuaTopic => "I don't know that yet, but you can teach me! I'm learning about Lua scripting."
    case GuiTopic => "I haven't learned about that specific GUI topic yet. Can you teach me?"
    case ExecutorTopic => "I'm still learning about executors. You can teach me about this topic!"
    case DefaultTopic => "I'm still learning! Teach me by clicking 'Teach AI' button."
  }

  function Tagalog(topic: Topic): string
  {
    match topic
    case LuaTopic => "Hindi ko pa yan alam, pero turuan mo ako! Nag-aaral ako tungkol sa Lua scripting."
    case GuiTopic => "Hindi ko pa yan natutuhan tungkol sa GUI. Pwede mo ba akong turuan?"
    case ExecutorTopic => "Nag-aaral pa ako tungkol sa executors. Pwede mo akong turuan!"
    case DefaultTopic => "Nag-aaral pa ako! Turuan mo ako gamit ang 'Teach AI' button."
  }

  // ---------------------------------------------------------------------------
  // The texts differ in length, except the English gui and executor ones.
  // Each fact about a literal is proved on its own, where it is cheap.

  function EnglishSize(t: Topic): nat
  {
    match t case LuaTopic => 78 case GuiTopic => 70 case ExecutorTopic => 70 case DefaultTopic => 59
  }

  function TagalogSize(t: Topic): nat
  {
    match t case LuaTopic => 81 case GuiTopic => 67 case ExecutorTopic => 61 case DefaultTopic => 60
  }

  // The length of each literal gets its own lemma, so that reasoning about one reply never has to
  // unfold the other seven; the texts are then told apart by their lengths.
  lemma EnglishLuaLength() ensures |English(LuaTopic)| == 78 {}
  lemma EnglishGuiLength() ensures |English(GuiTopic)| == 70 {}
  lemma EnglishExecutorLength() ensures |English(ExecutorTopic)| == 70 {}
  lemma EnglishDefaultLength() ensures |English(DefaultTopic)| == 59 {}
  lemma TagalogLuaLength() ensures |Tagalog(LuaTopic)| == 81 {}
  lemma TagalogGuiLength() ensures |Tagalog(GuiTopic)| == 67 {}
  lemma TagalogExecutorLength() ensures |Tagalog(ExecutorTopic)| == 61 {}
  lemma TagalogDefaultLength() ensures |Tagalog(DefaultTopic)| == 60 {}

  lemma EnglishLength(t: Topic)
    ensures |English(t)| == EnglishSize(t)
  {
    match t
    case LuaTopic => EnglishLuaLength();
    case GuiTopic => EnglishGuiLength();
    case ExecutorTopic => EnglishExecutorLength();
    case DefaultTopic => EnglishDefaultLength();
  }

  lemma TagalogLength(t: Topic)
    ensures |Tagalog(t)| == TagalogSize(t)
  {
    match t
    case LuaTopic => TagalogLuaLength();
    case GuiTopic => TagalogGuiLength();
    case ExecutorTopic => TagalogExecutorLength();
    case DefaultTopic => TagalogDefaultLength();
  }

  lemma SizesDisjoint(t1: Topic, t2: Topic)
    ensures EnglishSize(t1) != TagalogSize(t2)
  {
  }

  lemma EnglishSizeClash(t1: Topic, t2: Topic)
    requires EnglishSize(t1) == EnglishSize(t2) && t1 != t2
    ensures (t1 == GuiTopic && t2 == ExecutorTopic) || (t1 == ExecutorTopic && t2 == GuiTopic)
  {
  }

  lemma TagalogSizeInjective(t1: Topic, t2: Topic)
    requires TagalogSize(t1) == TagalogSize(t2)
    ensures t1 == t2
  {
  }

  lemma GuiIsNotExecutor()
    ensures English(GuiTopic) != English(ExecutorTopic)
  {
  }

  /** English and Tagalog texts never coincide: their lengths differ. */
  lemma EnglishIsNotTagalog(t1: Topic, t2: Topic)
    ensures English(t1) != Tagalog(t2)
  {
    EnglishLength(t1);
    TagalogLength(t2);
    SizesDisjoint(t1, t2);
  }

  lemma EnglishSizesDiffer(t1: Topic, t2: Topic)
    requires EnglishSize(t1) != EnglishSize(t2)
    ensures English(t1) != English(t2)
  {
    EnglishLength(t1);
    EnglishLength(t2);
  }

  lemma EnglishSameSizeDiffer(t1: Topic, t2: Topic)
    requires (t1 == GuiTopic && t2 == ExecutorTopic) || (t1 == ExecutorTopic && t2 == GuiTopic)
    ensures English(t1) != English(t2)
  {
    GuiIsNotExecutor();
  }

  /** Different topics have different English texts. */
  lemma EnglishDistinct(t1: Topic, t2: Topic)
    requires t1 != t2
    ensures English(t1) != English(t2)
  {
    if EnglishSize(t1) == EnglishSize(t2) {
      EnglishSizeClash(t1, t2);
      EnglishSameSizeDiffer(t1, t2);
    } else {
      EnglishSizesDiffer(t1, t2);
    }
  }

  /** Each topic has its own English text. */
  lemma EnglishInjective(t1: Topic, t2: Topic)
    requires English(t1) == English(t2)
    ensures t1 == t2
  {
    if t1 != t2 {
      EnglishDistinct(t1, t2);
    }
  }

  /** Each topic has its own Tagalog text. */
  lemma TagalogInjective(t1: Topic, t2: Topic)
    requires Tagalog(t1) == Tagalog(t2)
    ensures t1 == t2
  {
    TagalogLength(t1);
    TagalogLength(t2);
    TagalogSizeInjective(t1, t2);
  }
}

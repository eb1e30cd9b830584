/**
 * The synthetic conversations agree with the backend's heuristics: the
 * `character` of every record in `lib/api/mock-data.ts` is what
 * `extractCharacterFromContext` reads from the record's context, and its
 * `character_name` is that id's display name. Each context is the id
 * followed by space-separated words, and no word holds a keyword that the
 * table checks before the id's own.
 */
module MockRecords {
  import opened Wrappers
  import opened JsString
  import opened Enrichment
  import MockData

  /** None of the keywords `lo` to `hi - 1` of the table occurs in `w`. */
  predicate Lacks(w: string, lo: nat, hi: nat)
    requires hi <= |CharacterKeywords|
  {
    forall i :: lo <= i < hi ==> !Includes(w, CharacterKeywords[i].0)
  }

  /** A keyword absent from two words is absent from them joined by a space. */
  lemma LacksAcross(a: string, b: string, lo: nat, hi: nat)
    requires hi <= |CharacterKeywords|
    requires Lacks(a, lo, hi) && Lacks(b, lo, hi)
    ensures Lacks(a + [' '] + b, lo, hi)
  {
    KeywordTableWellFormed();
    forall i | lo <= i < hi ensures !Includes(a + [' '] + b, CharacterKeywords[i].0) {
      AbsentAcross(a, b, CharacterKeywords[i].0);
    }
  }

  lemma LacksSplit(w: string, lo: nat, mid: nat, hi: nat)
    requires lo <= mid <= hi <= |CharacterKeywords|
    requires Lacks(w, lo, mid) && Lacks(w, mid, hi)
    ensures Lacks(w, lo, hi)
  {
  }

  /**
   * A context made of an id, a space and three words reads as that id
   * when the id holds its own keyword (row `j` of the table) and neither
   * the id nor any word holds an earlier keyword.
   */
  lemma ContextNamesCharacter(id: string, w1: string, w2: string, w3: string, j: nat, at: nat, parseInt: string -> Option<int>)
    requires j < |CharacterKeywords| && CharacterKeywords[j].1 == id
    requires OccursAt(id, CharacterKeywords[j].0, at)
    requires NoUpper(id + [' '] + w1 + [' '] + w2 + [' '] + w3)
    requires Lacks(id, 0, j) && Lacks(w1, 0, j) && Lacks(w2, 0, j) && Lacks(w3, 0, j)
    ensures ExtractCharacter(id + [' '] + w1 + [' '] + w2 + [' '] + w3, parseInt) == id
  {
    var rest := w1 + [' '] + w2 + [' '] + w3;
    var context := id + [' '] + rest;
    assert context == id + [' '] + w1 + [' '] + w2 + [' '] + w3;
    LacksAcross(w1, w2, 0, j);
    LacksAcross(w1 + [' '] + w2, w3, 0, j);
    assert rest == (w1 + [' '] + w2) + [' '] + w3;
    LacksAcross(id, rest, 0, j);
    ToLowerOfLower(context);
    KeywordTableWellFormed();
    var kw := CharacterKeywords[j].0;
    IncludesIffOccurs(id, kw);
    IncludesAcross(id, ' ', rest, kw);
    ExtractCharacterByKeyword(context, parseInt, j);
  }

  // Each fact about a literal string sits in a lemma of its own: stated
  // together inside a record's lemma, they exceed the solver's resource limit.

  // Keyword absences, one word at a time.

  lemma MochiAdventureWords()
    ensures Lacks("mochi-cat", 0, 2) && Lacks("adventure", 0, 2)
  {
  }

  lemma CuriosityWord()
    ensures Lacks("curiosity", 0, 2)
  {
  }

  lemma ExplorationWord()
    ensures Lacks("exploration", 0, 2)
  {
  }

  lemma CharlieId()
    ensures Lacks("charlie-dog", 0, 4)
  {
  }

  lemma FriendshipWords()
    ensures Lacks("friendship", 0, 4) && Lacks("loyalty", 0, 4) && Lacks("playing", 0, 4)
  {
  }

  lemma RaviId()
    ensures Lacks("ravi-fox", 0, 6)
  {
  }

  lemma CriticalWord()
    ensures Lacks("critical", 0, 6)
  {
  }

  lemma ThinkingWord()
    ensures Lacks("thinking", 0, 6)
  {
  }

  lemma ProblemSolvingWords()
    ensures Lacks("problem", 0, 6) && Lacks("solving", 0, 6)
  {
  }

  lemma NovaId()
    ensures Lacks("nova-owl", 0, 8)
  {
  }

  lemma AcademicWord()
    ensures Lacks("academic", 0, 8)
  {
  }

  lemma LearningWord()
    ensures Lacks("learning", 0, 8)
  {
  }

  lemma ScienceWord()
    ensures Lacks("science", 0, 8)
  {
  }

  lemma EmotionalWord()
    ensures Lacks("emotional", 0, 10)
  {
  }

  lemma GuidanceWord()
    ensures Lacks("guidance", 0, 10)
  {
  }

  lemma ValidationWord()
    ensures Lacks("validation", 0, 10)
  {
  }

  lemma MindfulnessLow()
    ensures Lacks("mindfulness", 0, 6)
  {
  }

  lemma MindfulnessHigh()
    ensures Lacks("mindfulness", 6, 12)
  {
  }

  lemma PatienceWord()
    ensures Lacks("patience", 0, 12)
  {
  }

  lemma BreathingWord()
    ensures Lacks("breathing", 0, 12)
  {
  }

  lemma ThinkingProblem()
    ensures Lacks("thinking problem", 0, 6)
  {
    ThinkingWord();
    ProblemSolvingWords();
    LacksAcross("thinking", "problem", 0, 6);
    assert "thinking" + [' '] + "problem" == "thinking problem";
  }

  /**
   * A record whose context is an id and three words reads as that id, in
   * the terms of `ContextNamesCharacter`.
   */
  lemma RecordNamesCharacter(c: MockData.MockConversation, id: string, w1: string, w2: string, w3: string, j: nat, at: nat, parseInt: string -> Option<int>)
    requires c.context == id + [' '] + w1 + [' '] + w2 + [' '] + w3 && NoUpper(c.context)
    requires j < |CharacterKeywords| && CharacterKeywords[j].1 == id
    requires OccursAt(id, CharacterKeywords[j].0, at)
    requires Lacks(id, 0, j) && Lacks(w1, 0, j) && Lacks(w2, 0, j) && Lacks(w3, 0, j)
    ensures ExtractCharacter(c.context, parseInt) == id
  {
    ContextNamesCharacter(id, w1, w2, w3, j, at, parseInt);
  }

  // Each context, split into its id and words, and its keyword's position in the id.

  lemma Context1Words()
    ensures "koko-panda friendship emotional support" == "koko-panda" + [' '] + "friendship" + [' '] + "emotional" + [' '] + "support"
  {
  }

  lemma Context1Lower()
    ensures NoUpper("koko-panda friendship emotional support")
  {
  }

  lemma Context2Words()
    ensures "mochi-cat adventure curiosity exploration" == "mochi-cat" + [' '] + "adventure" + [' '] + "curiosity" + [' '] + "exploration"
  {
  }

  lemma Context2Lower()
    ensures NoUpper("mochi-cat adventure curiosity exploration")
  {
  }

  lemma Context3Words()
    ensures "charlie-dog friendship loyalty playing" == "charlie-dog" + [' '] + "friendship" + [' '] + "loyalty" + [' '] + "playing"
  {
  }

  lemma Context3Lower()
    ensures NoUpper("charlie-dog friendship loyalty playing")
  {
  }

  lemma Context4Words()
    ensures "ravi-fox critical thinking problem solving" == "ravi-fox" + [' '] + "critical" + [' '] + "thinking problem" + [' '] + "solving"
  {
  }

  lemma Context4Lower()
    ensures NoUpper("ravi-fox critical thinking problem solving")
  {
  }

  lemma Context5Words()
    ensures "nova-owl academic learning science" == "nova-owl" + [' '] + "academic" + [' '] + "learning" + [' '] + "science"
  {
  }

  lemma Context5Lower()
    ensures NoUpper("nova-owl academic learning science")
  {
  }

  lemma Context6Words()
    ensures "dr-clover-goat emotional guidance validation" == "dr-clover-goat" + [' '] + "emotional" + [' '] + "guidance" + [' '] + "validation"
  {
  }

  lemma Context6Lower()
    ensures NoUpper("dr-clover-goat emotional guidance validation")
  {
  }

  lemma Context7Words()
    ensures "zenzo-sloth mindfulness patience breathing" == "zenzo-sloth" + [' '] + "mindfulness" + [' '] + "patience" + [' '] + "breathing"
  {
  }

  lemma Context7Lower()
    ensures NoUpper("zenzo-sloth mindfulness patience breathing")
  {
  }

  lemma Context8Words()
    ensures "koko-panda emotional support feelings" == "koko-panda" + [' '] + "emotional" + [' '] + "support" + [' '] + "feelings"
  {
  }

  lemma Context8Lower()
    ensures NoUpper("koko-panda emotional support feelings")
  {
  }

  lemma KokoPandaKeyword()
    ensures OccursAt("koko-panda", "koko", 0)
  {
  }

  lemma MochiCatKeyword()
    ensures OccursAt("mochi-cat", "mochi", 0)
  {
  }

  lemma CharlieDogKeyword()
    ensures OccursAt("charlie-dog", "charlie", 0)
  {
  }

  lemma RaviFoxKeyword()
    ensures OccursAt("ravi-fox", "ravi", 0)
  {
  }

  lemma NovaOwlKeyword()
    ensures OccursAt("nova-owl", "nova", 0)
  {
  }

  lemma DrCloverGoatKeyword()
    ensures OccursAt("dr-clover-goat", "clover", 3)
  {
  }

  lemma ZenzoSlothKeyword()
    ensures OccursAt("zenzo-sloth", "zenzo", 0)
  {
  }

  // One lemma per record.

  lemma Record1(c: MockData.MockConversation, parseInt: string -> Option<int>)
    requires c == MockData.Conv1
    ensures ExtractCharacter(c.context, parseInt) == c.character
  {
    Context1Words();
    Context1Lower();
    KokoPandaKeyword();
    RecordNamesCharacter(c, "koko-panda", "friendship", "emotional", "support", 0, 0, parseInt);
  }

  lemma Record2(c: MockData.MockConversation, parseInt: string -> Option<int>)
    requires c == MockData.Conv2
    ensures ExtractCharacter(c.context, parseInt) == c.character
  {
    Context2Words();
    Context2Lower();
    MochiCatKeyword();
    MochiAdventureWords();
    CuriosityWord();
    ExplorationWord();
    RecordNamesCharacter(c, "mochi-cat", "adventure", "curiosity", "exploration", 2, 0, parseInt);
  }

  lemma Record3(c: MockData.MockConversation, parseInt: string -> Option<int>)
    requires c == MockData.Conv3
    ensures ExtractCharacter(c.context, parseInt) == c.character
  {
    Context3Words();
    Context3Lower();
    CharlieDogKeyword();
    CharlieId();
    FriendshipWords();
    RecordNamesCharacter(c, "charlie-dog", "friendship", "loyalty", "playing", 4, 0, parseInt);
  }

  lemma Record4(c: MockData.MockConversation, parseInt: string -> Option<int>)
    requires c == MockData.Conv4
    ensures ExtractCharacter(c.context, parseInt) == c.character
  {
    Context4Words();
    Context4Lower();
    RaviFoxKeyword();
    RaviId();
    CriticalWord();
    ThinkingProblem();
    ProblemSolvingWords();
    RecordNamesCharacter(c, "ravi-fox", "critical", "thinking problem", "solving", 6, 0, parseInt);
  }

  lemma Record5(c: MockData.MockConversation, parseInt: string -> Option<int>)
    requires c == MockData.Conv5
    ensures ExtractCharacter(c.context, parseInt) == c.character
  {
    Context5Words();
    Context5Lower();
    NovaOwlKeyword();
    NovaId();
    AcademicWord();
    LearningWord();
    ScienceWord();
    RecordNamesCharacter(c, "nova-owl", "academic", "learning", "science", 8, 0, parseInt);
  }

  lemma Record6(c: MockData.MockConversation, parseInt: string -> Option<int>)
    requires c == MockData.Conv6
    ensures ExtractCharacter(c.context, parseInt) == c.character
  {
    Context6Words();
    Context6Lower();
    DrCloverGoatKeyword();
    CloverLacksFirst("dr-clover-goat");
    CloverLacksNext("dr-clover-goat");
    EmotionalWord();
    GuidanceWord();
    ValidationWord();
    RecordNamesCharacter(c, "dr-clover-goat", "emotional", "guidance", "validation", 10, 3, parseInt);
  }

  lemma Record7(c: MockData.MockConversation, parseInt: string -> Option<int>)
    requires c == MockData.Conv7
    ensures ExtractCharacter(c.context, parseInt) == c.character
  {
    Context7Words();
    Context7Lower();
    ZenzoSlothKeyword();
    ZenzoLacksFirst("zenzo-sloth");
    ZenzoLacksNext("zenzo-sloth");
    MindfulnessLow();
    MindfulnessHigh();
    LacksSplit("mindfulness", 0, 6, 12);
    PatienceWord();
    BreathingWord();
    RecordNamesCharacter(c, "zenzo-sloth", "mindfulness", "patience", "breathing", 12, 0, parseInt);
  }

  lemma Record8(c: MockData.MockConversation, parseInt: string -> Option<int>)
    requires c == MockData.Conv8
    ensures ExtractCharacter(c.context, parseInt) == c.character
  {
    Context8Words();
    Context8Lower();
    KokoPandaKeyword();
    RecordNamesCharacter(c, "koko-panda", "emotional", "support", "feelings", 0, 0, parseInt);
  }

  /**
   * Every synthetic record names the character the backend would read from
   * its context, under the name the backend would display for it.
   */
  lemma RecordsAgreeWithHeuristics(convs: seq<MockData.MockConversation>, parseInt: string -> Option<int>)
    requires convs == MockData.MockConversations
    ensures forall i :: 0 <= i < |convs| ==> ExtractCharacter(convs[i].context, parseInt) == convs[i].character
    ensures forall i :: 0 <= i < |convs| ==> convs[i].characterName == DisplayName(convs[i].character)
  {
    forall i | 0 <= i < |convs| ensures ExtractCharacter(convs[i].context, parseInt) == convs[i].character {
      var c := convs[i];
      if i == 0 { Record1(c, parseInt); }
      else if i == 1 { Record2(c, parseInt); }
      else if i == 2 { Record3(c, parseInt); }
      else if i == 3 { Record4(c, parseInt); }
      else if i == 4 { Record5(c, parseInt); }
      else if i == 5 { Record6(c, parseInt); }
      else if i == 6 { Record7(c, parseInt); }
      else { Record8(c, parseInt); }
    }
    DisplayNames(convs);
  }

  lemma DisplayNames(convs: seq<MockData.MockConversation>)
    requires convs == MockData.MockConversations
    ensures forall i :: 0 <= i < |convs| ==> convs[i].characterName == DisplayName(convs[i].character)
  {
  }
}

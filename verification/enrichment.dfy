/**
 * The heuristics `lib/api/django-client.ts` applies to each stored
 * conversation: which companion it was with (a keyword scan of the context),
 * what it was about (a keyword scan of the latest question), the mood
 * number inside a mood evaluation, and the fixed per-companion tables.
 */
module Enrichment {
  import opened Wrappers
  import opened JsString
  import opened ApiTypes
  import Characters

  // ---------------------------------------------------------------------
  // Character extraction
  // ---------------------------------------------------------------------

  /** `characterKeywords`, in its declaration (and iteration) order. */
  const CharacterKeywords: seq<(string, string)> := [
    ("koko", "koko-panda"),
    ("panda", "koko-panda"),
    ("mochi", "mochi-cat"),
    ("cat", "mochi-cat"),
    ("charlie", "charlie-dog"),
    ("dog", "charlie-dog"),
    ("ravi", "ravi-fox"),
    ("fox", "ravi-fox"),
    ("nova", "nova-owl"),
    ("owl", "nova-owl"),
    ("clover", "dr-clover-goat"),
    ("goat", "dr-clover-goat"),
    ("zenzo", "zenzo-sloth"),
    ("sloth", "zenzo-sloth")]

  const DefaultCharacter: string := "koko-panda"

  /** Every keyword points at a catalogue id, and no keyword contains a space. */
  lemma KeywordTableWellFormed()
    ensures forall j :: 0 <= j < |CharacterKeywords| ==> CharacterKeywords[j].1 in Characters.Ids
    ensures forall j :: 0 <= j < |CharacterKeywords| ==> ' ' !in CharacterKeywords[j].0
  {
  }

  /** Keyword `j` occurs in `lower`. */
  predicate KeywordAt(lower: string, j: nat)
    requires j < |CharacterKeywords|
  {
    Includes(lower, CharacterKeywords[j].0)
  }

  /** The id of the first keyword, from position `k` of the table on, that occurs in `lower`. */
  function FirstKeyword(lower: string, k: nat): (r: Option<string>)
    requires k <= |CharacterKeywords|
    ensures r.None? <==> forall j :: k <= j < |CharacterKeywords| ==> !KeywordAt(lower, j)
    ensures r.Some? ==>
      exists j :: k <= j < |CharacterKeywords| && KeywordAt(lower, j) && r.value == CharacterKeywords[j].1
        && forall i :: k <= i < j ==> !KeywordAt(lower, i)
    decreases |CharacterKeywords| - k
  {
    if k == |CharacterKeywords| then None
    else if KeywordAt(lower, k) then Some(CharacterKeywords[k].1)
    else FirstKeyword(lower, k + 1)
  }

  /** JavaScript's `%`, which truncates toward zero: the remainder takes the dividend's sign. */
  function JsRem(n: int, d: PosNat): (r: int)
    ensures n >= 0 ==> 0 <= r < d && r == n % d
    ensures n < 0 ==> -(d as int) < r <= 0
  {
    if n >= 0 then n % d else -((-n) % d)
  }

  /**
   * `characters[parseInt(context) % 7] || 'koko-panda'`. A `NaN` (`None`)
   * or negative remainder indexes nothing and falls back; `-0` reads index 0.
   */
  function FallbackCharacter(parsed: Option<int>): (r: string)
    ensures r in Characters.Ids
    ensures parsed.Some? && parsed.value >= 0 ==> r == Characters.Ids[parsed.value % 7]
    ensures parsed.None? || parsed.value < 0 ==> r == DefaultCharacter
  {
    match parsed
    case None => DefaultCharacter
    case Some(n) =>
      var i := JsRem(n, |Characters.Ids|);
      if 0 <= i < |Characters.Ids| then Characters.Ids[i] else DefaultCharacter
  }

  /**
   * `extractCharacterFromContext`: the first keyword of the table found in
   * the lowered context decides; otherwise the numeric fallback. `parseInt`
   * is the platform's number parser, `None` standing for `NaN`.
   */
  function ExtractCharacter(context: string, parseInt: string -> Option<int>): (r: string)
    ensures r in Characters.Ids
  {
    KeywordTableWellFormed();
    match FirstKeyword(ToLower(context), 0)
    case Some(id) => id
    case None => FallbackCharacter(parseInt(context))
  }

  /**
   * The keyword rule: when the `j`-th keyword is the first one present in
   * the lowered context, the result is its id, whatever `parseInt` does.
   */
  lemma ExtractCharacterByKeyword(context: string, parseInt: string -> Option<int>, j: nat)
    requires j < |CharacterKeywords|
    requires KeywordAt(ToLower(context), j)
    requires forall i :: 0 <= i < j ==> !KeywordAt(ToLower(context), i)
    ensures ExtractCharacter(context, parseInt) == CharacterKeywords[j].1
  {
    var r := FirstKeyword(ToLower(context), 0);
    var j' :| 0 <= j' < |CharacterKeywords| && KeywordAt(ToLower(context), j')
      && r.value == CharacterKeywords[j'].1
      && forall i :: 0 <= i < j' ==> !KeywordAt(ToLower(context), i);
    assert j' == j;
  }

  /** The fallback rule: with no keyword present the parsed number alone decides. */
  lemma ExtractCharacterFallback(context: string, parseInt: string -> Option<int>)
    requires forall j :: 0 <= j < |CharacterKeywords| ==> !KeywordAt(ToLower(context), j)
    ensures ExtractCharacter(context, parseInt) == FallbackCharacter(parseInt(context))
  {
  }

  /** Letter case never matters: the context is lowered before the scan. */
  lemma ExtractCharacterIgnoresCase(c1: string, c2: string, parseInt: string -> Option<int>)
    requires ToLower(c1) == ToLower(c2) && parseInt(c1) == parseInt(c2)
    ensures ExtractCharacter(c1, parseInt) == ExtractCharacter(c2, parseInt)
  {
  }

  /** `getCharacterDisplayName`: the seven ids get their full names, anything else is returned as is. */
  function DisplayName(id: string): (r: string)
    ensures id !in Characters.Ids ==> r == id
  {
    match id
    case "koko-panda" => "Koko the Panda"
    case "mochi-cat" => "Mochi the Cat"
    case "charlie-dog" => "Charlie the Dog"
    case "ravi-fox" => "Ravi the Fox"
    case "nova-owl" => "Nova the Owl"
    case "dr-clover-goat" => "Dr. Clover the Goat"
    case "zenzo-sloth" => "Zenzo the Sloth"
    case _ => id
  }

  /** The backend's display names are the catalogue's full names. */
  lemma DisplayNameIsCatalogueName(id: string)
    requires id in Characters.Ids
    ensures Characters.GetCharacterById(id).Some?
    ensures DisplayName(id) == Characters.GetCharacterById(id).value.fullName
  {
  }

  // ---------------------------------------------------------------------
  // Agreement with the catalogue's legacy lookup
  // ---------------------------------------------------------------------

  /** A context made of one species word names the character the legacy lookup gives for that word. */
  lemma SpeciesWordsAgreeWithLegacyNames(parseInt: string -> Option<int>)
    ensures forall w :: w in Characters.LegacyNames ==> ExtractCharacter(w, parseInt) == Characters.LegacyNames[w]
  {
    forall w | w in Characters.LegacyNames ensures ExtractCharacter(w, parseInt) == Characters.LegacyNames[w] {
      LegacyNameCases(w);
      if w == "panda" {
        SpeciesPanda(parseInt);
      } else if w == "cat" {
        SpeciesCat(parseInt);
      } else if w == "dog" {
        SpeciesDog(parseInt);
      } else if w == "fox" {
        SpeciesFox(parseInt);
      } else if w == "owl" {
        SpeciesOwl(parseInt);
      } else if w == "goat" {
        SpeciesGoat(parseInt);
      } else {
        SpeciesSloth(parseInt);
      }
    }
  }

  lemma LegacyNameCases(w: string)
    requires w in Characters.LegacyNames
    ensures w == "panda" || w == "cat" || w == "dog" || w == "fox" || w == "owl" || w == "goat" || w == "sloth"
  {
  }

  lemma SpeciesPanda(parseInt: string -> Option<int>)
    ensures ExtractCharacter("panda", parseInt) == Characters.LegacyNames["panda"]
  {
    SpeciesWord("panda", 1, parseInt);
  }

  lemma SpeciesCat(parseInt: string -> Option<int>)
    ensures ExtractCharacter("cat", parseInt) == Characters.LegacyNames["cat"]
  {
    SpeciesWord("cat", 3, parseInt);
  }

  lemma SpeciesDog(parseInt: string -> Option<int>)
    ensures ExtractCharacter("dog", parseInt) == Characters.LegacyNames["dog"]
  {
    SpeciesWord("dog", 5, parseInt);
  }

  lemma SpeciesFox(parseInt: string -> Option<int>)
    ensures ExtractCharacter("fox", parseInt) == Characters.LegacyNames["fox"]
  {
    SpeciesWord("fox", 7, parseInt);
  }

  lemma SpeciesOwl(parseInt: string -> Option<int>)
    ensures ExtractCharacter("owl", parseInt) == Characters.LegacyNames["owl"]
  {
    SpeciesWord("owl", 9, parseInt);
  }

  lemma SpeciesGoat(parseInt: string -> Option<int>)
    ensures ExtractCharacter("goat", parseInt) == Characters.LegacyNames["goat"]
  {
    SpeciesWord("goat", 11, parseInt);
  }

  lemma SpeciesSloth(parseInt: string -> Option<int>)
    ensures ExtractCharacter("sloth", parseInt) == Characters.LegacyNames["sloth"]
  {
    SpeciesWord("sloth", 13, parseInt);
  }

  /** The species word at row `j` of the table: no earlier keyword occurs in it. */
  lemma SpeciesWord(w: string, j: nat, parseInt: string -> Option<int>)
    requires j < |CharacterKeywords| && CharacterKeywords[j].0 == w && NoUpper(w)
    requires forall i :: 0 <= i < j ==> !Includes(w, CharacterKeywords[i].0)
    requires w in Characters.LegacyNames && Characters.LegacyNames[w] == CharacterKeywords[j].1
    ensures ExtractCharacter(w, parseInt) == Characters.LegacyNames[w]
  {
    ToLowerOfLower(w);
    IncludesSelf(w);
    ExtractCharacterByKeyword(w, parseInt, j);
  }

  /** Every catalogue id, used as a context, names its own character. */
  lemma IdsNameThemselves(parseInt: string -> Option<int>)
    ensures forall i :: 0 <= i < |Characters.Ids| ==> ExtractCharacter(Characters.Ids[i], parseInt) == Characters.Ids[i]
  {
    forall i | 0 <= i < |Characters.Ids| ensures ExtractCharacter(Characters.Ids[i], parseInt) == Characters.Ids[i] {
      if i == 0 {
        IdOfKoko(Characters.Ids[i], parseInt);
      } else if i == 1 {
        IdOfMochi(Characters.Ids[i], parseInt);
      } else if i == 2 {
        IdOfCharlie(Characters.Ids[i], parseInt);
      } else if i == 3 {
        IdOfRavi(Characters.Ids[i], parseInt);
      } else if i == 4 {
        IdOfNova(Characters.Ids[i], parseInt);
      } else if i == 5 {
        IdOfClover(Characters.Ids[i], parseInt);
      } else {
        IdOfZenzo(Characters.Ids[i], parseInt);
      }
    }
  }

  lemma IdOfKoko(id: string, parseInt: string -> Option<int>)
    requires id == "koko-panda"
    ensures ExtractCharacter(id, parseInt) == id
  {
    IdNamesItself(id, "koko", "-panda", 0, parseInt);
  }

  lemma IdOfMochi(id: string, parseInt: string -> Option<int>)
    requires id == "mochi-cat"
    ensures ExtractCharacter(id, parseInt) == id
  {
    IdNamesItself(id, "mochi", "-cat", 2, parseInt);
  }

  lemma IdOfCharlie(id: string, parseInt: string -> Option<int>)
    requires id == "charlie-dog"
    ensures ExtractCharacter(id, parseInt) == id
  {
    IdNamesItself(id, "charlie", "-dog", 4, parseInt);
  }

  lemma IdOfRavi(id: string, parseInt: string -> Option<int>)
    requires id == "ravi-fox"
    ensures ExtractCharacter(id, parseInt) == id
  {
    IdNamesItself(id, "ravi", "-fox", 6, parseInt);
  }

  lemma IdOfNova(id: string, parseInt: string -> Option<int>)
    requires id == "nova-owl"
    ensures ExtractCharacter(id, parseInt) == id
  {
    IdNamesItself(id, "nova", "-owl", 8, parseInt);
  }

  lemma IdOfClover(id: string, parseInt: string -> Option<int>)
    requires id == "dr-clover-goat"
    ensures ExtractCharacter(id, parseInt) == id
  {
    CloverLacksFirst(id);
    CloverLacksNext(id);
    IdNamesItself(id, "dr-", "clover-goat", 10, parseInt);
  }

  lemma IdOfZenzo(id: string, parseInt: string -> Option<int>)
    requires id == "zenzo-sloth"
    ensures ExtractCharacter(id, parseInt) == id
  {
    ZenzoLacksFirst(id);
    ZenzoLacksNext(id);
    IdNamesItself(id, "zenzo", "-sloth", 12, parseInt);
  }

  // Keywords `lo` to `hi - 1` of the table are absent from the Clover and Zenzo ids.

  lemma CloverLacksFirst(id: string)
    requires id == "dr-clover-goat"
    ensures forall i :: 0 <= i < 5 ==> !Includes(id, CharacterKeywords[i].0)
  {
  }

  lemma CloverLacksNext(id: string)
    requires id == "dr-clover-goat"
    ensures forall i :: 5 <= i < 10 ==> !Includes(id, CharacterKeywords[i].0)
  {
  }

  lemma ZenzoLacksFirst(id: string)
    requires id == "zenzo-sloth"
    ensures forall i :: 0 <= i < 6 ==> !Includes(id, CharacterKeywords[i].0)
  {
  }

  lemma ZenzoLacksNext(id: string)
    requires id == "zenzo-sloth"
    ensures forall i :: 6 <= i < 12 ==> !Includes(id, CharacterKeywords[i].0)
  {
  }

  /** An id `a + b` whose row-`j` keyword starts `b` (or is `a`) and in which no earlier keyword occurs. */
  lemma IdNamesItself(id: string, a: string, b: string, j: nat, parseInt: string -> Option<int>)
    requires id == a + b && NoUpper(id)
    requires j < |CharacterKeywords| && CharacterKeywords[j].1 == id
    requires StartsWith(a, CharacterKeywords[j].0) || StartsWith(b, CharacterKeywords[j].0)
    requires forall i :: 0 <= i < j ==> !Includes(id, CharacterKeywords[i].0)
    ensures ExtractCharacter(id, parseInt) == id
  {
    ToLowerOfLower(id);
    var kw := CharacterKeywords[j].0;
    IncludesIffOccurs(id, kw);
    if StartsWith(a, kw) {
      assert id[..|kw|] == a[..|kw|];
      assert OccursAt(id, kw, 0);
    } else {
      assert id[|a|..|a| + |kw|] == b[..|kw|];
      assert OccursAt(id, kw, |a|);
    }
    ExtractCharacterByKeyword(id, parseInt, j);
  }

  /**
   * Table order beats position in the text: `cat` is checked before
   * `charlie`, so a context with `cat` and none of the three keywords before
   * it reads as Mochi, wherever a `charlie` stands.
   */
  lemma KeywordOrderBeatsPosition(context: string, parseInt: string -> Option<int>)
    requires Includes(ToLower(context), "cat")
    requires !Includes(ToLower(context), "koko") && !Includes(ToLower(context), "panda")
    requires !Includes(ToLower(context), "mochi")
    ensures ExtractCharacter(context, parseInt) == "mochi-cat"
  {
    var lower := ToLower(context);
    forall i | 0 <= i < 3 ensures !KeywordAt(lower, i) {
      assert CharacterKeywords[i].0 in ["koko", "panda", "mochi"];
    }
    ExtractCharacterByKeyword(context, parseInt, 3);
  }

  /**
   * `charlie education` is such a context: it is already lower-case, holds
   * `cat`, and none of `koko`, `panda`, `mochi` occurs in it; `charlie`
   * opens it (`CharlieOpens`) while `cat` comes only at position 11
   * (`CatAtEleven`).
   */
  lemma CharlieEducationKeywords(s: string)
    requires s == "charlie education"
    ensures ToLower(s) == s && Includes(s, "cat")
    ensures !Includes(s, "koko") && !Includes(s, "panda") && !Includes(s, "mochi")
  {
    CharlieEducationIsLower(s);
    CharlieEducationLacks("koko");
    CharlieEducationLacks("panda");
    CharlieEducationLacks("mochi");
    CatAtEleven(s);
  }

  lemma CharlieEducationIsLower(s: string)
    requires s == "charlie education"
    ensures ToLower(s) == s
  {
    assert NoUpper(s);
    ToLowerOfLower(s);
  }

  lemma CharlieOpens(s: string)
    requires s == "charlie education"
    ensures OccursAt(s, "charlie", 0)
  {
    assert s == "" + "charlie" + " education";
    OccursBetween("", "charlie", " education");
  }

  lemma CatAtEleven(s: string)
    requires s == "charlie education"
    ensures OccursAt(s, "cat", 11) && Includes(s, "cat")
  {
    assert s == "charlie edu" + "cat" + "ion";
    OccursBetween("charlie edu", "cat", "ion");
  }

  lemma CharlieEducationLacks(kw: string)
    requires kw == "koko" || kw == "panda" || kw == "mochi"
    ensures !Includes("charlie education", kw)
  {
    assert "charlie education" == "charlie" + [' '] + "education";
    AbsentAcross("charlie", "education", kw);
  }

  /** A word found in neither half of a space-separated text is not in the text. */
  lemma AbsentAcross(a: string, b: string, kw: string)
    requires ' ' !in kw && !Includes(a, kw) && !Includes(b, kw)
    ensures !Includes(a + [' '] + b, kw)
  {
    IncludesAcross(a, ' ', b, kw);
  }

  // ---------------------------------------------------------------------
  // Topic extraction
  // ---------------------------------------------------------------------

  /** The eight keyword pairs and the topic each pair reports, in checking order. */
  const TopicGroups: seq<(string, string, string)> := [
    ("friend", "friendship", "friendship"),
    ("share", "sharing", "sharing"),
    ("emotion", "feel", "emotions"),
    ("adventure", "explore", "adventure"),
    ("learn", "school", "learning"),
    ("play", "game", "playing"),
    ("think", "problem", "critical thinking"),
    ("calm", "breathe", "mindfulness")]

  const GeneralTopic: string := "general conversation"

  /** The eight topic names are distinct and differ from the general one. */
  lemma TopicNamesDistinct()
    ensures forall i, j :: 0 <= i < j < |TopicGroups| ==> TopicGroups[i].2 != TopicGroups[j].2
    ensures forall i :: 0 <= i < |TopicGroups| ==> TopicGroups[i].2 != GeneralTopic
  {
  }

  /** Group `j` fires on the lowered text. */
  predicate GroupMatches(text: string, j: nat)
    requires j < |TopicGroups|
  {
    Includes(text, TopicGroups[j].0) || Includes(text, TopicGroups[j].1)
  }

  /** The position of a topic name in the table, or the table's length. */
  function TopicIndex(t: string): (i: nat)
    ensures i <= |TopicGroups|
    ensures i < |TopicGroups| ==> TopicGroups[i].2 == t
    ensures i == |TopicGroups| ==> forall j :: 0 <= j < |TopicGroups| ==> TopicGroups[j].2 != t
  {
    if t == "friendship" then 0
    else if t == "sharing" then 1
    else if t == "emotions" then 2
    else if t == "adventure" then 3
    else if t == "learning" then 4
    else if t == "playing" then 5
    else if t == "critical thinking" then 6
    else if t == "mindfulness" then 7
    else 8
  }

  /** The topics of the groups from `k` on that fire, in table order. */
  function TopicsFrom(text: string, k: nat): (r: seq<string>)
    requires k <= |TopicGroups|
    ensures forall t :: t in r <==> exists j :: k <= j < |TopicGroups| && GroupMatches(text, j) && TopicGroups[j].2 == t
    ensures forall a :: 0 <= a < |r| ==> k <= TopicIndex(r[a]) < |TopicGroups|
    ensures forall a, b :: 0 <= a < b < |r| ==> TopicIndex(r[a]) < TopicIndex(r[b])
    decreases |TopicGroups| - k
  {
    if k == |TopicGroups| then []
    else
      var rest := TopicsFrom(text, k + 1);
      if GroupMatches(text, k) then [TopicGroups[k].2] + rest else rest
  }

  /** `extractTopicsFromConversation`: the matching topics, or the general topic when none match. */
  function ExtractTopics(question: Option<Question>): (r: seq<string>)
    ensures |r| >= 1
  {
    var found :=
      if question.Some? && Truthy(question.value.text) then TopicsFrom(ToLower(question.value.text.value), 0)
      else [];
    if |found| > 0 then found else [GeneralTopic]
  }

  /**
   * The topic list in full: without a question text it is the general
   * topic; otherwise a topic is listed iff one of its two keywords occurs in
   * the lowered text, topics follow table order with no repetition, and the
   * general topic appears iff nothing matched.
   */
  lemma ExtractTopicsSpec(question: Option<Question>)
    ensures !(question.Some? && Truthy(question.value.text)) ==> ExtractTopics(question) == [GeneralTopic]
    ensures question.Some? && Truthy(question.value.text) ==>
      var text := ToLower(question.value.text.value);
      && (forall j :: 0 <= j < |TopicGroups| ==> (TopicGroups[j].2 in ExtractTopics(question) <==> GroupMatches(text, j)))
      && (ExtractTopics(question) == [GeneralTopic] <==> forall j :: 0 <= j < |TopicGroups| ==> !GroupMatches(text, j))
    ensures forall a, b :: 0 <= a < b < |ExtractTopics(question)| ==> ExtractTopics(question)[a] != ExtractTopics(question)[b]
  {
    TopicNamesDistinct();
    var r := ExtractTopics(question);
    if question.Some? && Truthy(question.value.text) {
      var text := ToLower(question.value.text.value);
      var found := TopicsFrom(text, 0);
      if |found| > 0 {
        forall a, b | 0 <= a < b < |r| ensures r[a] != r[b] {
          assert TopicIndex(r[a]) < TopicIndex(r[b]);
        }
        forall j | 0 <= j < |TopicGroups| ensures TopicGroups[j].2 in r <==> GroupMatches(text, j) {
          if TopicGroups[j].2 in r {
            var j' :| 0 <= j' < |TopicGroups| && GroupMatches(text, j') && TopicGroups[j'].2 == TopicGroups[j].2;
            assert j' == j;
          }
        }
        assert r != [GeneralTopic] by {
          assert r[0] in found;
          var j' :| 0 <= j' < |TopicGroups| && GroupMatches(text, j') && TopicGroups[j'].2 == r[0];
        }
      } else {
        forall j | 0 <= j < |TopicGroups| ensures !GroupMatches(text, j) {
        }
      }
    }
  }

  // ---------------------------------------------------------------------
  // Mood number: the first match of /\d+\.?\d*/
  // ---------------------------------------------------------------------

  /** The least index from `i` on holding a digit, or `|s|`. */
  function FirstDigitFrom(s: string, i: nat): (r: nat)
    requires i <= |s|
    ensures i <= r <= |s|
    ensures r < |s| ==> IsDigit(s[r])
    ensures forall k :: i <= k < r ==> !IsDigit(s[k])
    decreases |s| - i
  {
    if i == |s| || IsDigit(s[i]) then i else FirstDigitFrom(s, i + 1)
  }

  /** The end of the run of digits starting at `i`. */
  function DigitsEnd(s: string, i: nat): (r: nat)
    requires i <= |s|
    ensures i <= r <= |s|
    ensures forall k :: i <= k < r ==> IsDigit(s[k])
    ensures r < |s| ==> !IsDigit(s[r])
    decreases |s| - i
  {
    if i == |s| || !IsDigit(s[i]) then i else DigitsEnd(s, i + 1)
  }

  /** The greedy match of `\d+\.?\d*` starting at the digit `s[i]`: its end offset. */
  function NumberEnd(s: string, i: nat): (e: nat)
    requires i < |s| && IsDigit(s[i])
    ensures i < e <= |s|
  {
    var d := DigitsEnd(s, i);
    if d < |s| && s[d] == '.' then DigitsEnd(s, d + 1) else d
  }

  /** `text.match(/\d+\.?\d*\/)?.[0]`: the leftmost match, taken greedily. */
  function FirstNumber(s: string): (r: Option<string>)
    ensures r.None? <==> forall k :: 0 <= k < |s| ==> !IsDigit(s[k])
  {
    var i := FirstDigitFrom(s, 0);
    if i == |s| then None else Some(s[i..NumberEnd(s, i)])
  }

  /** The shape of a number text: digits, then optionally one `.` and more digits. */
  predicate IsNumberText(t: string) {
    |t| >= 1 && IsDigit(t[0])
    && forall k :: 0 <= k < |t| ==> IsDigit(t[k]) || (t[k] == '.' && forall m :: 0 <= m < |t| && m != k ==> t[m] != '.')
  }

  /**
   * What the match is: a number text occurring in `s` at the first digit of
   * `s`, which cannot be extended by one more character of the pattern.
   */
  lemma FirstNumberSpec(s: string)
    requires FirstNumber(s).Some?
    ensures var t := FirstNumber(s).value;
      var i := FirstDigitFrom(s, 0);
      && IsNumberText(t)
      && OccursAt(s, t, i)
      && (forall k :: 0 <= k < i ==> !IsDigit(s[k]))
      && (i + |t| < |s| ==> !IsDigit(s[i + |t|]))
      && (i + |t| < |s| && s[i + |t|] == '.' ==> '.' in t)
  {
    var i := FirstDigitFrom(s, 0);
    var e := NumberEnd(s, i);
    var t := s[i..e];
    var d := DigitsEnd(s, i);
    if d < |s| && s[d] == '.' {
      var d2 := DigitsEnd(s, d + 1);
      assert t[d - i] == '.';
      forall k | 0 <= k < |t| ensures IsDigit(t[k]) || (t[k] == '.' && forall m :: 0 <= m < |t| && m != k ==> t[m] != '.') {
        if k != d - i {
          assert t[k] == s[i + k];
          assert IsDigit(t[k]);
        } else {
          forall m | 0 <= m < |t| && m != k ensures t[m] != '.' {
            assert t[m] == s[i + m];
          }
        }
      }
    } else {
      forall k | 0 <= k < |t| ensures IsDigit(t[k]) {
        assert t[k] == s[i + k];
      }
    }
  }

  /** The mood a backend conversation reports: the number in its latest question's evaluation, else 7.5. */
  function MoodOf(question: Option<Question>): (m: Mood)
    ensures m.Score? ==> m.value == 7.5 as real
    ensures m.Parsed? ==>
      question.Some? && Truthy(question.value.moodEvaluation)
      && FirstNumber(question.value.moodEvaluation.value) == Some(m.text)
    ensures (question.Some? && Truthy(question.value.moodEvaluation)
             && FirstNumber(question.value.moodEvaluation.value).Some?)
      ==> m == Parsed(FirstNumber(question.value.moodEvaluation.value).value)
    ensures !(question.Some? && Truthy(question.value.moodEvaluation)
              && exists k :: 0 <= k < |question.value.moodEvaluation.value| && IsDigit(question.value.moodEvaluation.value[k]))
      ==> m == Score(7.5)
  {
    if question.Some? && Truthy(question.value.moodEvaluation) then
      match FirstNumber(question.value.moodEvaluation.value)
      case Some(t) => Parsed(t)
      case None => Score(7.5)
    else Score(7.5)
  }

  /** A mood evaluation such as `("happy", 8.5)` yields its first number. */
  lemma MoodOfTuple()
    ensures MoodOf(Some(Question(None, Some("(happy, 8.5)")))) == Parsed("8.5")
  {
    var s := "(happy, 8.5)";
    assert FirstDigitFrom(s, 0) == 8;
    assert DigitsEnd(s, 8) == 9;
    assert DigitsEnd(s, 10) == 11;
    assert s[8..11] == "8.5";
  }

  // ---------------------------------------------------------------------
  // Per-companion topic table
  // ---------------------------------------------------------------------

  /** `topicMap[id] || 'General Learning'`. */
  function FavoriteTopic(id: string): (t: string)
    ensures t == "General Learning" <==> id !in Characters.Ids
  {
    match id
    case "koko-panda" => "Emotional Support"
    case "mochi-cat" => "Adventure Learning"
    case "charlie-dog" => "Social Skills"
    case "ravi-fox" => "Critical Thinking"
    case "nova-owl" => "Academic Learning"
    case "dr-clover-goat" => "Emotional Counseling"
    case "zenzo-sloth" => "Mindfulness"
    case _ => "General Learning"
  }
}

/**
 * The character catalogue of `lib/characters.ts`: seven companions keyed by
 * id, a lookup by id, and a lookup by the species word that older records
 * used in place of an id.
 */
module Characters {
  import opened Wrappers
  import opened JsString

  datatype Character = Character(
    id: string,
    name: string,
    fullName: string,
    image: string,
    description: string,
    conversationStyle: string,
    specialization: string)

  /** The seven ids, in the catalogue's declaration order. */
  const Ids: seq<string> :=
    ["koko-panda", "mochi-cat", "charlie-dog", "ravi-fox", "nova-owl", "dr-clover-goat", "zenzo-sloth"]

  const Koko := Character("koko-panda", "Koko", "Koko the Panda", "/assets/characters/koko-panda.gif",
    "A warm, gentle panda who loves making friends and sharing stories",
    "calm", "Emotional Support & Friendship")
  const Mochi := Character("mochi-cat", "Mochi", "Mochi the Cat", "/assets/characters/mochi-cat.gif",
    "A playful and curious cat who loves adventures and cozy spaces",
    "playful", "Play & Adventure Learning")
  const Charlie := Character("charlie-dog", "Charlie", "Charlie the Dog", "/assets/characters/charlie-dog.gif",
    "An enthusiastic and loyal dog who loves playing and making friends",
    "energetic", "Social Skills & Friendship")
  const Ravi := Character("ravi-fox", "Ravi", "Ravi the Fox", "/assets/characters/felix-fox.gif",
    "A clever and witty fox who loves playful challenges and thought-provoking conversations",
    "playful_challenger", "Critical Thinking & Debates")
  const Nova := Character("nova-owl", "Nova", "Nova the Owl", "/assets/characters/ollie-owl.gif",
    "An encouraging and wise owl mentor who provides academic support and emotional check-ins",
    "wise_mentor", "Academic Learning & Mentorship")
  const Clover := Character("dr-clover-goat", "Dr. Clover", "Dr. Clover the Goat", "/assets/characters/gigi-goat.gif",
    "A compassionate and validating goat who provides emotional guidance and school counseling",
    "emotional_counselor", "Emotional Counseling & Validation")
  const Zenzo := Character("zenzo-sloth", "Zenzo", "Zenzo the Sloth", "/assets/characters/sage-sloth.gif",
    "A calm and mindful sloth who teaches patience and mindfulness",
    "calm", "Mindfulness & Patience")

  /** `CHARACTERS`, keyed by id. */
  const Catalogue: map<string, Character> := map[
    "koko-panda" := Koko,
    "mochi-cat" := Mochi,
    "charlie-dog" := Charlie,
    "ravi-fox" := Ravi,
    "nova-owl" := Nova,
    "dr-clover-goat" := Clover,
    "zenzo-sloth" := Zenzo]

  /** The species words of the legacy lookup and the ids they stand for. */
  const LegacyNames: map<string, string> := map[
    "panda" := "koko-panda",
    "cat" := "mochi-cat",
    "dog" := "charlie-dog",
    "fox" := "ravi-fox",
    "owl" := "nova-owl",
    "goat" := "dr-clover-goat",
    "sloth" := "zenzo-sloth"]

  /** The seven ids are pairwise distinct. */
  lemma IdsDistinct()
    ensures forall i, j :: 0 <= i < j < |Ids| ==> Ids[i] != Ids[j]
  {
  }

  /** The catalogue is keyed by exactly the seven ids, and every entry's id is its key. */
  lemma CatalogueWellFormed()
    ensures |Catalogue| == 7
    ensures Catalogue.Keys == set i | i in Ids
    ensures forall k :: k in Catalogue ==> Catalogue[k].id == k
    ensures forall k :: k in LegacyNames ==> LegacyNames[k] in Catalogue
  {
    CatalogueKeys();
    CatalogueSize();
    CatalogueIdsAreKeys();
    LegacyTargetsKnown();
  }

  lemma CatalogueKeys()
    ensures Catalogue.Keys == set i | i in Ids
  {
  }

  lemma CatalogueSize()
    ensures |Catalogue| == 7
  {
  }

  lemma CatalogueIdsAreKeys()
    ensures forall k :: k in Catalogue ==> Catalogue[k].id == k
  {
  }

  lemma LegacyTargetsKnown()
    ensures forall k :: k in LegacyNames ==> LegacyNames[k] in Catalogue
  {
  }

  /** `getCharacterById`. */
  function GetCharacterById(id: string): (r: Option<Character>)
    ensures r.Some? <==> id in Ids
    ensures r.Some? ==> r.value.id == id && r.value == Catalogue[id]
  {
    CatalogueWellFormed();
    if id in Catalogue then Some(Catalogue[id]) else None
  }

  /** `getCharacterByLegacyName`: the lowered name is looked up among the species words. */
  function GetCharacterByLegacyName(legacyName: string): (r: Option<Character>)
    ensures r.Some? <==> ToLower(legacyName) in LegacyNames
    ensures r.Some? ==> r.value.id == LegacyNames[ToLower(legacyName)]
  {
    CatalogueWellFormed();
    var key := ToLower(legacyName);
    if key in LegacyNames then Some(Catalogue[LegacyNames[key]]) else None
  }

  /** `getAllCharacters`: the entries in declaration order. */
  function GetAllCharacters(): (cs: seq<Character>)
    ensures |cs| == 7
    ensures forall i :: 0 <= i < |cs| ==> cs[i].id == Ids[i] && Catalogue[Ids[i]] == cs[i]
  {
    [Koko, Mochi, Charlie, Ravi, Nova, Clover, Zenzo]
  }

  /** The ids listed by `getAllCharacters` are pairwise distinct and cover the catalogue. */
  lemma AllCharactersDistinct()
    ensures forall i, j :: 0 <= i < j < |GetAllCharacters()| ==> GetAllCharacters()[i].id != GetAllCharacters()[j].id
    ensures forall k :: k in Catalogue <==> exists i :: 0 <= i < 7 && GetAllCharacters()[i].id == k
  {
    IdsDistinct();
    CatalogueKeys();
    var cs := GetAllCharacters();
    forall k | k in Catalogue ensures exists i :: 0 <= i < 7 && cs[i].id == k {
      var i :| 0 <= i < 7 && Ids[i] == k;
      assert cs[i].id == k;
    }
  }

  /** The legacy lookup lowers its input, so `PANDA` finds Koko. */
  lemma LegacyLookupIgnoresCase()
    ensures GetCharacterByLegacyName("PANDA") == Some(Koko)
    ensures GetCharacterByLegacyName("Sloth") == Some(Zenzo)
  {
    UpperPanda();
    CapitalSloth();
  }

  lemma UpperPanda()
    ensures GetCharacterByLegacyName("PANDA") == Some(Koko)
  {
    assert ToLower("PANDA") == "panda";
  }

  lemma CapitalSloth()
    ensures GetCharacterByLegacyName("Sloth") == Some(Zenzo)
  {
    assert ToLower("Sloth") == "sloth";
  }

  /** Only species words are legacy names: the characters' own names are not. */
  lemma ProperNamesAreNotLegacy()
    ensures GetCharacterByLegacyName("koko").None?
    ensures GetCharacterByLegacyName("Mochi").None?
    ensures GetCharacterByLegacyName("koko-panda").None?
  {
    KokoNotLegacy();
    MochiNotLegacy();
    IdNotLegacy();
  }

  lemma KokoNotLegacy()
    ensures GetCharacterByLegacyName("koko").None?
  {
    NotLegacy("koko", "koko");
  }

  lemma MochiNotLegacy()
    ensures GetCharacterByLegacyName("Mochi").None?
  {
    NotLegacy("Mochi", "mochi");
  }

  lemma IdNotLegacy()
    ensures GetCharacterByLegacyName("koko-panda").None?
  {
    NotLegacy("koko-panda", "koko-panda");
  }

  /** A name whose lowered form is not a species word finds nothing. */
  lemma NotLegacy(name: string, lowered: string)
    requires |name| == |lowered| && forall i :: 0 <= i < |name| ==> LowerChar(name[i]) == lowered[i]
    requires lowered !in LegacyNames
    ensures GetCharacterByLegacyName(name).None?
  {
    assert ToLower(name) == lowered;
  }
}

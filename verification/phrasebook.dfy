/** The language cheat sheet: phrases for a language and a travel type, a
    placeholder generator for every language but French, and the search and
    category tests that pick the phrases to show. */
module Phrasebook {
  import opened Seqs
  import opened Text

  datatype Language = French | Spanish | Italian | German | Japanese | Mandarin | Arabic | Portuguese | Russian | Thai
  datatype TravelType = Tourism | Business | Foodie | Family | Adventure | Budget | Luxury
  datatype PhraseCategory = Greetings | Directions | Dining | Shopping | Emergency | Accommodation | Transportation
                          | Smalltalk

  datatype Phrase = Phrase(english: string, translation: string, pronunciation: string, category: PhraseCategory)

  /** The language's display name. */
  function LanguageName(l: Language): string {
    match l
    case French => "French"
    case Spanish => "Spanish"
    case Italian => "Italian"
    case German => "German"
    case Japanese => "Japanese"
    case Mandarin => "Mandarin"
    case Arabic => "Arabic"
    case Portuguese => "Portuguese"
    case Russian => "Russian"
    case Thai => "Thai"
  }

  /** The text before the English phrase in a generated translation. */
  function TranslationOpening(name: string): string {
    "[" + name + " translation for \""
  }

  const TranslationClosing: string := "\"]"

  /** `[<Name> translation for "<english>"]`. */
  function TranslationPlaceholder(name: string, english: string): (r: string)
    ensures |r| == |TranslationOpening(name)| + |english| + 2
  {
    TranslationOpening(name) + english + TranslationClosing
  }

  /** `[<Name> pronunciation]`. */
  function PronunciationPlaceholder(name: string): string {
    "[" + name + " pronunciation]"
  }

  /** Reads the English phrase back out of a generated translation; `None`
      when the text is not one. */
  function ReadPlaceholder(name: string, t: string): (r: Option<string>)
    ensures r.Some? ==> |r.value| + |TranslationOpening(name)| + 2 == |t|
  {
    var open := TranslationOpening(name);
    if |t| >= |open| + 2 && t[..|open|] == open && t[|t| - 2..] == TranslationClosing
    then Some(t[|open|..|t| - 2])
    else None
  }

  /** A generated translation reads back as its English phrase. */
  lemma ReadTranslation(name: string, english: string)
    ensures ReadPlaceholder(name, TranslationPlaceholder(name, english)) == Some(english)
  {
    var open := TranslationOpening(name);
    var t := TranslationPlaceholder(name, english);
    assert t[..|open|] == open;
    assert t[|t| - 2..] == TranslationClosing;
    assert t[|open|..|t| - 2] == english;
  }

  /** Whatever reads back as a phrase is that phrase's generated translation. */
  lemma TranslationFromReading(name: string, t: string)
    requires ReadPlaceholder(name, t).Some?
    ensures TranslationPlaceholder(name, ReadPlaceholder(name, t).value) == t
  {
    var open := TranslationOpening(name);
    assert t == t[..|open|] + t[|open|..|t| - 2] + t[|t| - 2..];
  }

  /** `generatePhrasesForLanguage`: French returns the table's phrases for the
      travel type as they are; every other language keeps each phrase's
      English text and category and replaces the translation and the
      pronunciation with placeholders. The French table is a parameter. */
  function GeneratePhrases(table: TravelType -> seq<Phrase>, language: Language, travelType: TravelType)
    : (r: seq<Phrase>)
    ensures language == French ==> r == table(travelType)
    ensures |r| == |table(travelType)|
    ensures forall i :: 0 <= i < |r| ==>
      r[i].english == table(travelType)[i].english && r[i].category == table(travelType)[i].category
    ensures language != French ==> forall i :: 0 <= i < |r| ==>
      && ReadPlaceholder(LanguageName(language), r[i].translation) == Some(r[i].english)
      && r[i].pronunciation == PronunciationPlaceholder(LanguageName(language))
  {
    var french := table(travelType);
    if language == French then french
    else
      var name := LanguageName(language);
      var r := seq(|french|, i requires 0 <= i < |french| =>
        french[i].(translation := TranslationPlaceholder(name, french[i].english),
                   pronunciation := PronunciationPlaceholder(name)));
      forall i | 0 <= i < |r| ensures ReadPlaceholder(name, r[i].translation) == Some(r[i].english) {
        ReadTranslation(name, french[i].english);
      }
      r
  }

  /** The search test: an empty query passes; otherwise the English text or
      the translation must contain it, ignoring case. */
  predicate MatchesSearch(p: Phrase, query: string) {
    query == "" || MatchesQuery(p.english, query) || MatchesQuery(p.translation, query)
  }

  /** The category tab: every category, or one. */
  datatype CategoryTab = AllCategories | Only(category: PhraseCategory)

  /** The category test: "all" passes everything; a category tab passes its
      own category only. */
  predicate MatchesCategory(p: Phrase, tab: CategoryTab) {
    tab == AllCategories || p.category == tab.category
  }

  function SearchFor(query: string): Phrase -> bool {
    (p: Phrase) => MatchesSearch(p, query)
  }

  function InTab(tab: CategoryTab): Phrase -> bool {
    (p: Phrase) => MatchesCategory(p, tab)
  }

  /** A generated translation contains its English phrase, so a query found in
      the English text is found in the translation too: for generated
      languages the translation can only add hits. */
  lemma EnglishHitIsTranslationHit(name: string, english: string, query: string)
    requires MatchesQuery(english, query)
    ensures MatchesQuery(TranslationPlaceholder(name, english), query)
  {
    var open := TranslationOpening(name);
    LowerConcat(open + english, TranslationClosing);
    LowerConcat(open, english);
    OccursInConcat(Lower(open), Lower(english), Lower(TranslationClosing));
    ContainsTransitive(Lower(TranslationPlaceholder(name, english)), Lower(english), Lower(query));
  }

  /** The search and the category tests both pass every phrase when the query
      is empty and the tab is "all". */
  lemma NoSearchShowsAll(phrases: seq<Phrase>)
    ensures Filter(SearchFor(""), phrases) == phrases
    ensures Filter(InTab(AllCategories), phrases) == phrases
  {
    FilterKeepsAll(SearchFor(""), phrases);
    FilterKeepsAll(InTab(AllCategories), phrases);
  }

  /** Generation keeps categories, so every category tab lists as many
      phrases in any language as in French. */
  lemma {:induction false} CategoryCountsAgree(a: seq<Phrase>, b: seq<Phrase>, tab: CategoryTab)
    requires |a| == |b| && forall i :: 0 <= i < |a| ==> a[i].category == b[i].category
    ensures |Filter(InTab(tab), a)| == |Filter(InTab(tab), b)|
  {
    if a != [] {
      CategoryCountsAgree(a[1..], b[1..], tab);
    }
  }

  lemma GeneratedTabsMatchFrench(table: TravelType -> seq<Phrase>, language: Language, travelType: TravelType,
                                 tab: CategoryTab)
    ensures |Filter(InTab(tab), GeneratePhrases(table, language, travelType))|
         == |Filter(InTab(tab), table(travelType))|
  {
    CategoryCountsAgree(GeneratePhrases(table, language, travelType), table(travelType), tab);
  }

  /** For a generated language, searching finds every phrase whose English
      text matches the query. */
  lemma GeneratedSearchFindsEnglish(table: TravelType -> seq<Phrase>, language: Language, travelType: TravelType,
                                    query: string, i: int)
    requires language != French
    requires 0 <= i < |table(travelType)| && MatchesQuery(table(travelType)[i].english, query)
    ensures MatchesSearch(GeneratePhrases(table, language, travelType)[i], query)
    ensures var p := GeneratePhrases(table, language, travelType)[i];
      MatchesQuery(p.translation, query)
  {
    var p := GeneratePhrases(table, language, travelType)[i];
    var name := LanguageName(language);
    TranslationFromReading(name, p.translation);
    EnglishHitIsTranslationHit(name, p.english, query);
  }
}

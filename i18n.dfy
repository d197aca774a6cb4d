/**
 * `useI18n`: a table of French and English strings keyed by dotted names,
 * the lookup `t(key)` that falls back to the key itself, and the current
 * language, which starts from the saved value (French by default) and is
 * toggled between French and English. The saved value is read without
 * validation, so the language is any string here, not just "fr" or "en".
 */
module I18n {
  import opened Backend

  type Language = string

  const French: Language := "fr"
  const English: Language := "en"

  /** One table entry: the string in each language. */
  datatype Entry = Entry(fr: string, en: string)

  /** `translations`. */
  const Translations: map<string, Entry> := map[
    "nav.podcasts" := Entry("Podcasts", "Podcasts"),
    "nav.about" := Entry("\U{00C0} propos", "About"),
    "nav.contact" := Entry("Contact", "Contact"),
    "nav.signin" := Entry("Se connecter", "Sign In"),
    "hero.badge" := Entry("\U{1F3A7} Nouveau m\U{00E9}dia multiculturel", "\U{1F3A7} New multicultural media"),
    "hero.title" := Entry("Bigg's Media", "Bigg's Media"),
    "hero.subtitle" := Entry("Cultures de la Diaspora Mondiale", "Global Diaspora Cultures"),
    "hero.description" := Entry(
      "D\U{00E9}couvrez des podcasts authentiques qui c\U{00E9}l\U{00E8}brent la diversit\U{00E9}, racontent les histoires uniques des communaut\U{00E9}s de la diaspora et cr\U{00E9}ent des ponts entre les cultures.",
      "Discover authentic podcasts that celebrate diversity, tell unique stories of diaspora communities and create bridges between cultures."),
    "hero.listen" := Entry("\U{00C9}couter maintenant", "Listen now"),
    "hero.discover" := Entry("D\U{00E9}couvrir nos podcasts", "Discover our podcasts"),
    "podcasts.badge" := Entry("\U{1F399}\U{FE0F} Nos Podcasts", "\U{1F399}\U{FE0F} Our Podcasts"),
    "podcasts.title" := Entry("Histoires Authentiques", "Authentic Stories"),
    "podcasts.description" := Entry(
      "Plongez dans nos podcasts multiculturels qui donnent la parole aux communaut\U{00E9}s de la diaspora mondiale et c\U{00E9}l\U{00E8}brent leur richesse culturelle.",
      "Dive into our multicultural podcasts that give voice to global diaspora communities and celebrate their cultural richness."),
    "podcasts.viewAll" := Entry("Voir tous les podcasts", "View all podcasts"),
    "mission.badge" := Entry("\U{1F30D} Notre Mission", "\U{1F30D} Our Mission"),
    "mission.title" := Entry("Connecter les Cultures, Raconter les Histoires", "Connecting Cultures, Telling Stories"),
    "mission.description" := Entry(
      "Bigg's Media est n\U{00E9} de la conviction que chaque culture de la diaspora a des histoires uniques \U{00E0} raconter. Nous cr\U{00E9}ons un espace o\U{00F9} ces voix peuvent s'exprimer librement et toucher un public mondial.",
      "Bigg's Media was born from the conviction that every diaspora culture has unique stories to tell. We create a space where these voices can express themselves freely and reach a global audience."),
    "mission.learnMore" := Entry("En savoir plus", "Learn more"),
    "newsletter.title" := Entry("Restez Connect\U{00E9}s", "Stay Connected"),
    "newsletter.description" := Entry(
      "Recevez les derniers \U{00E9}pisodes, les actualit\U{00E9}s de nos cr\U{00E9}ateurs et les \U{00E9}v\U{00E9}nements de la communaut\U{00E9} directement dans votre bo\U{00EE}te mail.",
      "Receive the latest episodes, creator news and community events directly in your inbox."),
    "newsletter.placeholder" := Entry("Votre adresse email", "Your email address"),
    "newsletter.subscribe" := Entry("S'abonner", "Subscribe"),
    "common.loading" := Entry("Chargement...", "Loading..."),
    "common.episode" := Entry("\U{00E9}pisode", "episode"),
    "common.episodes" := Entry("\U{00E9}pisodes", "episodes")
  ]

  /** `entry[language]`: absent for a language the table has no column for. */
  function InLanguage(e: Entry, language: Language): (r: Option<string>)
    ensures r.Some? <==> language == French || language == English
    ensures language == French ==> r == Some(e.fr)
    ensures language == English ==> r == Some(e.en)
  {
    if language == French then Some(e.fr)
    else if language == English then Some(e.en)
    else None
  }

  /**
   * `translations[key]?.[language] || key`: the table's string when the key
   * has one in that language and it is not empty, otherwise the key.
   */
  function Translate(language: Language, key: string): (r: string)
    ensures key !in Translations ==> r == key
    ensures key in Translations && InLanguage(Translations[key], language).Some?
            && InLanguage(Translations[key], language).value != "" ==>
      r == InLanguage(Translations[key], language).value
    ensures key in Translations && (InLanguage(Translations[key], language).None?
            || InLanguage(Translations[key], language) == Some("")) ==>
      r == key
  {
    if key in Translations then
      match InLanguage(Translations[key], language)
      case Some(s) => if s != "" then s else key
      case None => key
    else key
  }

  /** Every entry of the table has a non-empty string in both languages. */
  lemma EveryEntryComplete()
    ensures forall k :: k in Translations ==> Translations[k].fr != "" && Translations[k].en != ""
  {
  }

  /** So in French or English a known key is always translated, never echoed back. */
  lemma KnownKeysTranslated(language: Language, key: string)
    requires key in Translations
    requires language == French || language == English
    ensures language == French ==> Translate(language, key) == Translations[key].fr
    ensures language == English ==> Translate(language, key) == Translations[key].en
  {
    EveryEntryComplete();
  }

  /** `prev === 'fr' ? 'en' : 'fr'`. */
  function Switch(language: Language): (r: Language)
    ensures r == French || r == English
    ensures r == English <==> language == French
  {
    if language == French then English else French
  }

  /** Switching twice comes back to French or English; any other saved value becomes French after one switch. */
  lemma SwitchTwice(language: Language)
    ensures language == French || language == English ==> Switch(Switch(language)) == language
    ensures language != French && language != English ==> Switch(language) == French
  {
  }

  /** `saved || 'fr'`: the saved value unless it is missing or empty. */
  function InitialLanguage(saved: Option<string>): (r: Language)
    ensures saved.Some? && saved.value != "" ==> r == saved.value
    ensures saved.None? || saved == Some("") ==> r == French
  {
    match saved
    case Some(s) => if s != "" then s else French
    case None => French
  }

  /** The hook's one state field; the saved value is an input and writing it back is left out. */
  class I18nState {
    var language: Language

    constructor (saved: Option<string>)
      ensures language == InitialLanguage(saved)
    {
      language := InitialLanguage(saved);
    }

    /** `t`. */
    function T(key: string): string
      reads this
    {
      Translate(language, key)
    }

    method SwitchLanguage()
      modifies this
      ensures language == Switch(old(language))
      ensures old(language) == French ==> language == English
      ensures old(language) != French ==> language == French
    {
      language := Switch(language);
    }

    method SetLanguage(l: Language)
      modifies this
      ensures language == l
    {
      language := l;
    }
  }
}

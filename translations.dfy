/**
 * The Czech-to-English dictionaries of the events data and the lookups built on them:
 * translation from one dictionary, translation across all of them, arrays, reverse
 * lookup, and the grouping of language variants.
 */
module Translations {
  import opened Wrappers
  import Strs
  import Seqs
  import Grouping

  /** A dictionary object: its entries in insertion order, as `Object.entries` lists them. */
  type Dictionary = seq<(string, string)>

  /** `dict[key]`: the value of the first entry with that key. */
  function Lookup<V>(dict: seq<(string, V)>, key: string): (r: Option<V>)
    ensures r.None? <==> forall i :: 0 <= i < |dict| ==> dict[i].0 != key
    ensures r.Some? ==> exists i :: 0 <= i < |dict| && dict[i] == (key, r.value)
  {
    if dict == [] then None
    else if dict[0].0 == key then Some(dict[0].1)
    else
      var r := Lookup(dict[1..], key);
      assert forall i :: 1 <= i < |dict| ==> dict[i] == dict[1..][i - 1];
      assert r.Some? ==> dict[1..] <= dict[1..] && exists i :: 0 <= i < |dict[1..]| && dict[1..][i] == (key, r.value);
      r
  }

  const LanguagesDictionary: Dictionary := [
    ("cestina", "Czech"),
    ("čeština", "Czech"),
    ("english", "English"),
    ("anglictina", "English"),
    ("angličtina", "English"),
    ("angličtina (tlumočení)", "English (with interpretation)"),
    ("nemcina", "German"),
    ("němčina", "German"),
    ("francouztina", "French"),
    ("francouzština", "French"),
    ("spanelstina", "Spanish"),
    ("španělština", "Spanish"),
    ("italstina", "Italian"),
    ("italština", "Italian"),
    ("rustina", "Russian"),
    ("ruština", "Russian"),
    ("polstina", "Polish"),
    ("polština", "Polish"),
    ("slovenstina", "Slovak"),
    ("slovenština", "Slovak"),
    ("madarska", "Hungarian"),
    ("maďarská", "Hungarian"),
    ("rumunstina", "Romanian"),
    ("rumunština", "Romanian"),
    ("ukrainska", "Ukrainian"),
    ("ukrajinská", "Ukrainian")
  ]

  const TargetsDictionary: Dictionary := [
    ("deti", "Children"),
    ("děti", "Children"),
    ("rodiny", "Families"),
    ("rodina", "Family"),
    ("seniori", "Seniors"),
    ("senioři", "Seniors"),
    ("senior", "Senior"),
    ("dospeli", "Adults"),
    ("dospělí", "Adults"),
    ("mladez", "Youth"),
    ("mládež", "Youth"),
    ("studenti", "Students"),
    ("student", "Student"),
    ("ucitele", "Teachers"),
    ("učitelé", "Teachers"),
    ("ucitel", "Teacher"),
    ("učitel", "Teacher"),
    ("zaci", "Pupils"),
    ("žáci", "Pupils"),
    ("zak", "Pupil"),
    ("žák", "Pupil"),
    ("verejnost", "General Public"),
    ("veřejnost", "General Public"),
    ("široká veřejnost", "General Public"),
    ("odbornici", "Professionals"),
    ("odborníci", "Professionals"),
    ("odbornik", "Professional"),
    ("odborník", "Professional"),
    ("vzdelavani", "Education"),
    ("vzdělávání", "Education"),
    ("byznys", "Business"),
    ("AI odborníci", "AI Experts"),
    ("kreativci", "Creatives"),
    ("akademici", "Academics"),
    ("veřejná správa", "Public Administration")
  ]

  const FormatsDictionary: Dictionary := [
    ("prednaska", "Lecture"),
    ("přednáška", "Lecture"),
    ("workshop", "Workshop"),
    ("seminar", "Seminar"),
    ("seminář", "Seminar"),
    ("konference", "Conference"),
    ("festival", "Festival"),
    ("vylet", "Trip"),
    ("výlet", "Trip"),
    ("exkurze", "Excursion"),
    ("kurz", "Course"),
    ("skoleni", "Training"),
    ("školení", "Training"),
    ("diskuze", "Discussion"),
    ("debata", "Debate"),
    ("beseda", "Talk"),
    ("vystava", "Exhibition"),
    ("výstava", "Exhibition"),
    ("divadlo", "Theater"),
    ("koncert", "Concert"),
    ("promitani", "Screening"),
    ("promítání", "Screening"),
    ("projekce", "Projection"),
    ("online", "Online"),
    ("prezenčně", "In-Person"),
    ("prezencne", "In-Person"),
    ("hybridní", "Hybrid"),
    ("hybridni", "Hybrid"),
    ("jiné - ostatní", "Other"),
    ("zabava", "Entertainment"),
    ("zábava", "Entertainment"),
    ("Google školení", "Google Training"),
    ("meetup", "Meetup"),
    ("veletrh", "Fair"),
    ("kulatý stůl", "Roundtable")
  ]

  const CategoriesDictionary: Dictionary := [
    ("kultura", "Culture"),
    ("vzdelani", "Education"),
    ("vzdělání", "Education"),
    ("vzdelavani", "Education"),
    ("vzdělávání", "Education"),
    ("sport", "Sport"),
    ("zdravi", "Health"),
    ("zdraví", "Health"),
    ("umeni", "Art"),
    ("umění", "Art"),
    ("veda", "Science"),
    ("věda", "Science"),
    ("technika", "Technology"),
    ("technologie", "Technology"),
    ("priroda", "Nature"),
    ("příroda", "Nature"),
    ("historie", "History"),
    ("literatura", "Literature"),
    ("hudba", "Music"),
    ("film", "Film"),
    ("divadlo", "Theater"),
    ("tanec", "Dance"),
    ("fotografie", "Photography"),
    ("architektura", "Architecture")
  ]

  const CitiesDictionary: Dictionary := [
    ("Praha", "Prague"),
    ("praha", "Prague"),
    ("Brno", "Brno"),
    ("brno", "Brno"),
    ("Ostrava", "Ostrava"),
    ("ostrava", "Ostrava"),
    ("Plzeň", "Pilsen"),
    ("plzeň", "Pilsen"),
    ("Plzen", "Pilsen"),
    ("plzen", "Pilsen"),
    ("Liberec", "Liberec"),
    ("liberec", "Liberec"),
    ("Olomouc", "Olomouc"),
    ("olomouc", "Olomouc"),
    ("České Budějovice", "České Budějovice"),
    ("české budějovice", "České Budějovice"),
    ("ceske budejovice", "České Budějovice"),
    ("Hradec Králové", "Hradec Králové"),
    ("hradec králové", "Hradec Králové"),
    ("hradec kralove", "Hradec Králové"),
    ("Pardubice", "Pardubice"),
    ("pardubice", "Pardubice"),
    ("Ústí nad Labem", "Ústí nad Labem"),
    ("ústí nad labem", "Ústí nad Labem"),
    ("usti nad labem", "Ústí nad Labem"),
    ("Zlín", "Zlín"),
    ("zlín", "Zlín"),
    ("zlin", "Zlín"),
    ("Karlovy Vary", "Karlovy Vary"),
    ("karlovy vary", "Karlovy Vary"),
    ("Jihlava", "Jihlava"),
    ("jihlava", "Jihlava"),
    ("Žďár nad Sázavou", "Žďár nad Sázavou"),
    ("žďár nad sázavou", "Žďár nad Sázavou"),
    ("Přerov", "Přerov"),
    ("přerov", "Přerov"),
    ("Šumperk", "Šumperk"),
    ("šumperk", "Šumperk"),
    ("Jeseník", "Jeseník"),
    ("jeseník", "Jeseník"),
    ("jesenik", "Jeseník"),
    ("Ústí nad Orlicí", "Ústí nad Orlicí"),
    ("ústí nad orlicí", "Ústí nad Orlicí"),
    ("usti nad orlici", "Ústí nad Orlicí"),
    ("Hodonín", "Hodonín"),
    ("hodonín", "Hodonín"),
    ("hodonin", "Hodonín"),
    ("Teplice", "Teplice"),
    ("teplice", "Teplice"),
    ("Kutná hora", "Kutná Hora"),
    ("Kutná Hora", "Kutná Hora"),
    ("kutná hora", "Kutná Hora"),
    ("kutna hora", "Kutná Hora"),
    ("Sokolov", "Sokolov"),
    ("sokolov", "Sokolov"),
    ("Valašské Klobouky", "Valašské Klobouky"),
    ("valašské klobouky", "Valašské Klobouky"),
    ("valaské klobouky", "Valašské Klobouky"),
    ("Pelhřimov", "Pelhřimov"),
    ("pelhřimov", "Pelhřimov"),
    ("pelhrimov", "Pelhřimov"),
    ("Havlíčkův Brod", "Havlíčkův Brod"),
    ("havlíčkův brod", "Havlíčkův Brod"),
    ("havlickuv brod", "Havlíčkův Brod"),
    ("Ždírec nad Doubravou", "Ždírec nad Doubravou"),
    ("ždírec nad doubravou", "Ždírec nad Doubravou"),
    ("zdirec nad doubravou", "Ždírec nad Doubravou"),
    ("Prostějov", "Prostějov"),
    ("prostějov", "Prostějov"),
    ("prostejov", "Prostějov"),
    ("Mladá Boleslav", "Mladá Boleslav"),
    ("mladá boleslav", "Mladá Boleslav"),
    ("mlada boleslav", "Mladá Boleslav"),
    ("Chodov", "Chodov"),
    ("chodov", "Chodov"),
    ("Cheb", "Cheb"),
    ("cheb", "Cheb"),
    ("Jičín", "Jičín"),
    ("jičín", "Jičín"),
    ("Jicin", "Jičín"),
    ("jicin", "Jičín"),
    ("Hanušovice", "Hanušovice"),
    ("hanušovice", "Hanušovice"),
    ("Hanusovice", "Hanušovice"),
    ("hanusovice", "Hanušovice"),
    ("Česká Třebová", "Česká Třebová"),
    ("česká třebová", "Česká Třebová"),
    ("Ceska Trebova", "Česká Třebová"),
    ("ceska trebova", "Česká Třebová"),
    ("Dolní Břežany", "Dolní Břežany"),
    ("dolní břežany", "Dolní Břežany"),
    ("Dolni Brezany", "Dolní Břežany"),
    ("dolni brezany", "Dolní Břežany")
  ]

  const GeneralDictionary: Dictionary := [
    ("zdarma", "Free"),
    ("placeno", "Paid"),
    ("placené", "Paid"),
    ("potvrzeno", "Confirmed"),
    ("zruseno", "Cancelled"),
    ("zrušeno", "Cancelled"),
    ("obsazeno", "Full"),
    ("volna", "Available"),
    ("volná", "Available"),
    ("mista", "Places"),
    ("místa", "Places"),
    ("misto", "Place"),
    ("místo", "Place")
  ]

  /** `TranslationOptions`; an unset `fallbackToOriginal` takes the default, true. */
  datatype TranslationOptions = TranslationOptions(fallbackToOriginal: Option<bool>)

  const DefaultOptions := TranslationOptions(None)

  /** The options `translate` passes to each dictionary. */
  const NoFallback := TranslationOptions(Some(false))

  predicate Fallback(options: TranslationOptions) {
    options.fallbackToOriginal.GetOr(true)
  }

  /** `if (dictionary[key])`: the key is present with a truthy value. */
  function Hit(dict: Dictionary, key: string): (r: Option<string>)
    ensures r.Some? ==> r.value != "" && Lookup(dict, key) == r
  {
    var v := Lookup(dict, key);
    if v.Some? && v.value != "" then v else None
  }

  /**
   * `translateFromDictionary`: "" for a missing or empty term; otherwise the value of the
   * trimmed term, else of its lower-cased form, else the trimmed term or "" by the fallback option.
   */
  function TranslateFromDictionary(term: Option<string>, dict: Dictionary, options: TranslationOptions): (r: string)
    ensures !Truthy(term) ==> r == ""
  {
    if !Truthy(term) then "" else TranslateTrimmed(Strs.Trim(term.value), dict, options)
  }

  /** The lookups of `translateFromDictionary` on the trimmed term `t`. */
  function TranslateTrimmed(t: string, dict: Dictionary, options: TranslationOptions): string {
    var exact := Hit(dict, t);
    if exact.Some? then exact.value
    else
      var lower := Hit(dict, Strs.Lower(t));
      if lower.Some? then lower.value
      else if Fallback(options) then t
      else ""
  }

  /** The lookups of one kind of term in its own dictionary. */
  function TranslateLanguage(term: Option<string>, options: TranslationOptions): (r: string)
    ensures !Truthy(term) ==> r == ""
    ensures r == "" || (term.Some? && r == Strs.Trim(term.value)) || exists i :: 0 <= i < |LanguagesDictionary| && LanguagesDictionary[i].1 == r
  {
    TranslateRange(term, LanguagesDictionary, options);
    TranslateFromDictionary(term, LanguagesDictionary, options)
  }

  function TranslateTarget(term: Option<string>, options: TranslationOptions): (r: string)
    ensures !Truthy(term) ==> r == ""
    ensures r == "" || (term.Some? && r == Strs.Trim(term.value)) || exists i :: 0 <= i < |TargetsDictionary| && TargetsDictionary[i].1 == r
  {
    TranslateRange(term, TargetsDictionary, options);
    TranslateFromDictionary(term, TargetsDictionary, options)
  }

  function TranslateFormat(term: Option<string>, options: TranslationOptions): (r: string)
    ensures !Truthy(term) ==> r == ""
    ensures r == "" || (term.Some? && r == Strs.Trim(term.value)) || exists i :: 0 <= i < |FormatsDictionary| && FormatsDictionary[i].1 == r
  {
    TranslateRange(term, FormatsDictionary, options);
    TranslateFromDictionary(term, FormatsDictionary, options)
  }

  function TranslateCategory(term: Option<string>, options: TranslationOptions): (r: string)
    ensures !Truthy(term) ==> r == ""
    ensures r == "" || (term.Some? && r == Strs.Trim(term.value)) || exists i :: 0 <= i < |CategoriesDictionary| && CategoriesDictionary[i].1 == r
  {
    TranslateRange(term, CategoriesDictionary, options);
    TranslateFromDictionary(term, CategoriesDictionary, options)
  }

  function TranslateCity(term: Option<string>, options: TranslationOptions): (r: string)
    ensures !Truthy(term) ==> r == ""
    ensures r == "" || (term.Some? && r == Strs.Trim(term.value)) || exists i :: 0 <= i < |CitiesDictionary| && CitiesDictionary[i].1 == r
  {
    TranslateRange(term, CitiesDictionary, options);
    TranslateFromDictionary(term, CitiesDictionary, options)
  }

  function TranslateGeneral(term: Option<string>, options: TranslationOptions): (r: string)
    ensures !Truthy(term) ==> r == ""
    ensures r == "" || (term.Some? && r == Strs.Trim(term.value)) || exists i :: 0 <= i < |GeneralDictionary| && GeneralDictionary[i].1 == r
  {
    TranslateRange(term, GeneralDictionary, options);
    TranslateFromDictionary(term, GeneralDictionary, options)
  }

  /** The order in which `translate` tries the dictionaries. */
  const SearchOrder: seq<Dictionary> := [LanguagesDictionary, TargetsDictionary, FormatsDictionary,
                                         CategoriesDictionary, CitiesDictionary, GeneralDictionary]

  /** The translation `translate` accepts from one dictionary: no fallback, so "" means a miss. */
  function TryDictionary(term: string, dict: Dictionary): string {
    TranslateFromDictionary(Some(term), dict, NoFallback)
  }

  /** The first non-empty translation of `term` among `dicts`, trying them in order. */
  function FirstHit(term: string, dicts: seq<Dictionary>): (r: Option<string>)
    ensures r.None? <==> forall i :: 0 <= i < |dicts| ==> TryDictionary(term, dicts[i]) == ""
    ensures r.Some? ==> r.value != ""
  {
    if dicts == [] then None
    else if TryDictionary(term, dicts[0]) != "" then Some(TryDictionary(term, dicts[0]))
    else
      assert forall i :: 1 <= i < |dicts| ==> dicts[i] == dicts[1..][i - 1];
      FirstHit(term, dicts[1..])
  }

  /** `translate`: the first dictionary hit in `SearchOrder`, otherwise the default miss behaviour. */
  function Translate(term: Option<string>, options: TranslationOptions): (r: string)
    ensures !Truthy(term) ==> r == ""
    ensures Truthy(term) ==> forall i :: 0 <= i < |SearchOrder| && TryDictionary(term.value, SearchOrder[i]) != "" &&
                                        (forall j :: 0 <= j < i ==> TryDictionary(term.value, SearchOrder[j]) == "")
                                        ==> r == TryDictionary(term.value, SearchOrder[i])
    ensures Truthy(term) && (forall i :: 0 <= i < |SearchOrder| ==> TryDictionary(term.value, SearchOrder[i]) == "") ==>
      r == if Fallback(options) then Strs.Trim(term.value) else ""
  {
    TranslateIn(SearchOrder, term, options)
  }

  /** The search of `translate` over the dictionaries `order`. */
  function TranslateIn(order: seq<Dictionary>, term: Option<string>, options: TranslationOptions): (r: string)
    ensures !Truthy(term) ==> r == ""
    ensures Truthy(term) ==> forall i :: 0 <= i < |order| && TryDictionary(term.value, order[i]) != "" &&
                                        (forall j :: 0 <= j < i ==> TryDictionary(term.value, order[j]) == "")
                                        ==> r == TryDictionary(term.value, order[i])
    ensures Truthy(term) && (forall i :: 0 <= i < |order| ==> TryDictionary(term.value, order[i]) == "") ==>
      r == if Fallback(options) then Strs.Trim(term.value) else ""
  {
    if !Truthy(term) then ""
    else
      FirstHitFirst(term.value, order);
      var hit := FirstHit(term.value, order);
      if hit.Some? then hit.value else TranslateFromDictionary(term, [], options)
  }

  /** `translateArray`: the translations in order, empty ones dropped; a missing array gives []. */
  function TranslateArray(terms: Option<seq<Option<string>>>, translateFn: Option<string> -> string): (r: seq<string>)
    ensures forall i :: 0 <= i < |r| ==> r[i] != ""
  {
    if terms.None? then [] else Seqs.Filter(Strs.NonEmptyString, Seqs.Map(translateFn, terms.value))
  }

  // ---------------------------------------------------------------------------
  // Reverse lookup

  /** The `type` argument of `reverseTranslate`. */
  datatype TranslationType = Language | Target | Format | Category | City | General

  function TypeName(t: TranslationType): string {
    match t
    case Language => "language"
    case Target => "target"
    case Format => "format"
    case Category => "category"
    case City => "city"
    case General => "general"
  }

  /** The dictionary that holds terms of a type. */
  function DictionaryOf(t: TranslationType): Dictionary {
    match t
    case Language => LanguagesDictionary
    case Target => TargetsDictionary
    case Format => FormatsDictionary
    case Category => CategoriesDictionary
    case City => CitiesDictionary
    case General => GeneralDictionary
  }

  /** The property names of the `translations` object, and the dictionary each one holds. */
  function ConfigProperty(name: string): Option<TranslationType> {
    if name == "languages" then Some(Language)
    else if name == "targets" then Some(Target)
    else if name == "formats" then Some(Format)
    else if name == "categories" then Some(Category)
    else if name == "cities" then Some(City)
    else if name == "general" then Some(General)
    else None
  }

  /** The Czech key of the first entry whose lower-cased English value is `normalized`. */
  function ReverseSearch(dict: Dictionary, normalized: string): (r: Option<string>)
    ensures r.None? <==> forall i :: 0 <= i < |dict| ==> Strs.Lower(dict[i].1) != normalized
    ensures r.Some? ==> exists i :: 0 <= i < |dict| && dict[i].0 == r.value && Strs.Lower(dict[i].1) == normalized &&
                                    forall j :: 0 <= j < i ==> Strs.Lower(dict[j].1) != normalized
  {
    if dict == [] then None
    else if Strs.Lower(dict[0].1) == normalized then Some(dict[0].0)
    else
      var r := ReverseSearch(dict[1..], normalized);
      assert forall i :: 1 <= i < |dict| ==> dict[i] == dict[1..][i - 1];
      if r.Some? then
        var i :| 0 <= i < |dict[1..]| && dict[1..][i].0 == r.value && Strs.Lower(dict[1..][i].1) == normalized &&
                 forall j :: 0 <= j < i ==> Strs.Lower(dict[1..][j].1) != normalized;
        assert forall j :: 1 <= j < i + 1 ==> dict[j] == dict[1..][j - 1];
        assert dict[i + 1].0 == r.value && Strs.Lower(dict[i + 1].1) == normalized;
        r
      else r
  }

  /** How a call ends: with a string, or with a `TypeError` thrown by `Object.entries(undefined)`. */
  datatype Outcome = Returns(value: string) | TypeError

  /**
   * `reverseTranslate` as written: the dictionary is looked up under the type's name plus
   * "s", and only "languages", "targets" and "formats" exist under such a name.
   */
  function ReverseTranslateAsWritten(englishTerm: Option<string>, t: TranslationType): (r: Outcome)
    ensures !Truthy(englishTerm) ==> r == Returns("")
    ensures Truthy(englishTerm) ==> (r.TypeError? <==> t in {Category, City, General})
    ensures t in {Language, Target, Format} ==> r == Returns(ReverseTranslate(englishTerm, t))
  {
    ConfigPropertyOfTypeName(t);
    if !Truthy(englishTerm) then Returns("")
    else
      var property := ConfigProperty(TypeName(t) + "s");
      if property.None? then TypeError
      else
        Returns(ReverseLookup(DictionaryOf(property.value), englishTerm))
  }

  /** The reverse lookup of `reverseTranslate` in one dictionary: the Czech key, or the term itself. */
  function ReverseLookup(dict: Dictionary, englishTerm: Option<string>): string {
    if !Truthy(englishTerm) then ""
    else
      var found := ReverseSearch(dict, Strs.Lower(Strs.Trim(englishTerm.value)));
      found.GetOr(englishTerm.value)
  }

  /** `reverseTranslate` reading the dictionary the type names. */
  function ReverseTranslate(englishTerm: Option<string>, t: TranslationType): (r: string)
    ensures !Truthy(englishTerm) ==> r == ""
    ensures Truthy(englishTerm) ==> r == englishTerm.value || exists i :: 0 <= i < |DictionaryOf(t)| && DictionaryOf(t)[i].0 == r
  {
    if Truthy(englishTerm) then ReverseLookupFirstKey(DictionaryOf(t), englishTerm.value); ReverseLookup(DictionaryOf(t), englishTerm)
    else ""
  }

  // ---------------------------------------------------------------------------
  // Language variants

  /** `languageVariants`: the Czech spellings grouped under each English language name. */
  const LanguageVariants: seq<(string, seq<string>)> := [
    ("English", ["english", "anglictina", "angličtina", "angličtina (tlumočení)"]),
    ("Czech", ["cestina", "čeština"]),
    ("German", ["nemcina", "němčina"]),
    ("French", ["francouztina", "francouzština"]),
    ("Spanish", ["spanelstina", "španělština"]),
    ("Italian", ["italstina", "italština"]),
    ("Russian", ["rustina", "ruština"]),
    ("Polish", ["polstina", "polština"]),
    ("Slovak", ["slovenstina", "slovenština"]),
    ("Hungarian", ["madarska", "maďarská"]),
    ("Romanian", ["rumunstina", "rumunština"]),
    ("Ukrainian", ["ukrainska", "ukrajinská"])
  ]

  /** `getLanguageVariants(name)`: the listed variants, or [] for a name that is not listed. */
  function GetLanguageVariants(englishName: string): (r: seq<string>)
    ensures (forall i :: 0 <= i < |LanguageVariants| ==> LanguageVariants[i].0 != englishName) ==> r == []
    ensures r != [] ==> exists i :: 0 <= i < |LanguageVariants| && LanguageVariants[i] == (englishName, r)
    ensures forall i :: 0 <= i < |LanguageVariants| && LanguageVariants[i].0 == englishName ==> r == LanguageVariants[i].1
  {
    LanguageNamesDistinct();
    LookupDistinct(LanguageVariants, englishName);
    Lookup(LanguageVariants, englishName).GetOr([])
  }

  /** The English names of `languageVariants`, in the literal's order. */
  const LanguageNames: seq<string> := ["English", "Czech", "German", "French", "Spanish", "Italian",
                                       "Russian", "Polish", "Slovak", "Hungarian", "Romanian", "Ukrainian"]

  /** No English name is listed twice. */
  lemma LanguageNamesDistinct()
    ensures |LanguageVariants| == |LanguageNames|
    ensures forall k :: 0 <= k < |LanguageVariants| ==> LanguageVariants[k].0 == LanguageNames[k]
    ensures forall i, j :: 0 <= i < j < |LanguageNames| ==> LanguageNames[i] != LanguageNames[j]
  {
    forall i, j | 0 <= i < j < |LanguageNames| ensures LanguageNames[i] != LanguageNames[j] {
      var a, b := LanguageNames[i], LanguageNames[j];
      assert a[0] != b[0] || |a| != |b|;
    }
  }

  const LanguageName: string -> string := (lang: string) => TranslateLanguage(Some(lang), DefaultOptions)

  /** `getUniqueLanguages`: the inputs grouped by their English language name. */
  method GetUniqueLanguages(langs: seq<string>) returns (m: seq<(string, seq<string>)>)
    ensures Grouping.GroupedBy(m, langs, LanguageName)
  {
    m := Grouping.GroupBy(langs, LanguageName);
  }

  // ---------------------------------------------------------------------------
  // Properties of the lookups

  /** Whatever a dictionary lookup returns is "", the trimmed term, or one of the dictionary's values. */
  lemma TranslateRange(term: Option<string>, dict: Dictionary, options: TranslationOptions)
    ensures var r := TranslateFromDictionary(term, dict, options);
      r == "" || (term.Some? && r == Strs.Trim(term.value)) || exists i :: 0 <= i < |dict| && dict[i].1 == r
  {
  }

  /** On a miss of both the trimmed and the lower-cased term, the fallback option decides. */
  lemma TranslateMiss(term: string, dict: Dictionary, options: TranslationOptions)
    requires term != ""
    requires Hit(dict, Strs.Trim(term)).None? && Hit(dict, Strs.Lower(Strs.Trim(term))).None?
    ensures TranslateFromDictionary(Some(term), dict, options) == if Fallback(options) then Strs.Trim(term) else ""
  {
  }

  /** The first entry with a key is the one `dictionary[key]` reads. */
  lemma {:induction false} LookupFirst<V>(dict: seq<(string, V)>, i: nat)
    requires i < |dict| && forall j :: 0 <= j < i ==> dict[j].0 != dict[i].0
    ensures Lookup(dict, dict[i].0) == Some(dict[i].1)
  {
    if i > 0 {
      assert dict[1..][i - 1] == dict[i];
      LookupFirst(dict[1..], i - 1);
    }
  }

  /** With distinct keys, `dictionary[key]` reads the one entry with that key. */
  lemma LookupDistinct<V>(dict: seq<(string, V)>, key: string)
    requires forall i, j :: 0 <= i < j < |dict| ==> dict[i].0 != dict[j].0
    ensures forall i :: 0 <= i < |dict| && dict[i].0 == key ==> Lookup(dict, key) == Some(dict[i].1)
  {
    forall i | 0 <= i < |dict| && dict[i].0 == key ensures Lookup(dict, key) == Some(dict[i].1) {
      LookupFirst(dict, i);
    }
  }

  /**
   * The ordinary case: when the trimmed term is a key with a non-empty value, that value is
   * the translation, ahead of the lower-cased lookup and whatever the options say.
   */
  lemma TranslateExactHit(term: string, dict: Dictionary, options: TranslationOptions, i: nat)
    requires term != "" && i < |dict| && dict[i].0 == Strs.Trim(term) && dict[i].1 != ""
    requires forall j :: 0 <= j < i ==> dict[j].0 != dict[i].0
    ensures TranslateFromDictionary(Some(term), dict, options) == dict[i].1
  {
    LookupFirst(dict, i);
  }

  /**
   * When the trimmed term misses but its lower-cased form is a key with a non-empty value,
   * that value is the translation; the other keys may be in any case.
   */
  lemma TranslateLowerHit(term: string, dict: Dictionary, options: TranslationOptions, i: nat)
    requires term != "" && Hit(dict, Strs.Trim(term)).None?
    requires i < |dict| && dict[i].0 == Strs.Lower(Strs.Trim(term)) && dict[i].1 != ""
    requires forall j :: 0 <= j < i ==> dict[j].0 != dict[i].0
    ensures TranslateFromDictionary(Some(term), dict, options) == dict[i].1
  {
    LookupFirst(dict, i);
  }

  /**
   * When every key is in lower case, a term and its lower-cased form translate alike as soon
   * as the lower-cased form is found; the exact match cannot differ from the lower-case one.
   */
  lemma LowerCaseKeysIgnoreCase(term: string, dict: Dictionary, options: TranslationOptions)
    requires term != ""
    requires forall i :: 0 <= i < |dict| ==> Strs.Lower(dict[i].0) == dict[i].0
    requires Hit(dict, Strs.Lower(Strs.Trim(term))).Some?
    ensures TranslateFromDictionary(Some(term), dict, options) == TranslateFromDictionary(Some(Strs.Lower(term)), dict, options)
    ensures TranslateFromDictionary(Some(term), dict, options) == Hit(dict, Strs.Lower(Strs.Trim(term))).value
  {
    var t := Strs.Trim(term);
    Strs.LowerTrim(term);
    Strs.LowerIdempotent(t);
    assert Strs.Lower(term) != "";
    if Hit(dict, t).Some? {
      var i :| 0 <= i < |dict| && dict[i] == (t, Hit(dict, t).value);
      assert Strs.Lower(t) == t;
    }
  }

  /** Terms with the same trimmed form translate alike. */
  lemma TrimCongruence(a: string, b: string, dict: Dictionary, options: TranslationOptions)
    requires Strs.Trim(a) == Strs.Trim(b) && a != "" && b != ""
    ensures TranslateFromDictionary(Some(a), dict, options) == TranslateFromDictionary(Some(b), dict, options)
  {
  }

  /** White space around a term does not change its translation. */
  lemma SurroundingSpaceIgnored(term: string, dict: Dictionary, options: TranslationOptions)
    requires Hit(dict, "").None?
    ensures TranslateFromDictionary(Some(" " + term), dict, options) == TranslateFromDictionary(Some(term), dict, options)
    ensures TranslateFromDictionary(Some(term + " "), dict, options) == TranslateFromDictionary(Some(term), dict, options)
  {
    Strs.TrimSurroundingSpace(term);
    if term == "" {
      assert Strs.Trim(" ") == "" by {
        Strs.TrimSurroundingSpace("");
      }
      assert Strs.Lower("") == "";
    } else {
      TrimCongruence(" " + term, term, dict, options);
      TrimCongruence(term + " ", term, dict, options);
    }
  }

  /** `translate` answers with the first dictionary, in `SearchOrder`, that knows the term. */
  lemma TranslateFirstDictionary(term: string, options: TranslationOptions, i: nat)
    requires term != "" && i < |SearchOrder|
    requires TryDictionary(term, SearchOrder[i]) != ""
    requires forall j :: 0 <= j < i ==> TryDictionary(term, SearchOrder[j]) == ""
    ensures Translate(Some(term), options) == TryDictionary(term, SearchOrder[i])
  {
    FirstHitAt(term, SearchOrder, i);
  }

  lemma {:induction false} FirstHitAt(term: string, dicts: seq<Dictionary>, i: nat)
    requires i < |dicts|
    requires TryDictionary(term, dicts[i]) != ""
    requires forall j :: 0 <= j < i ==> TryDictionary(term, dicts[j]) == ""
    ensures FirstHit(term, dicts) == Some(TryDictionary(term, dicts[i]))
  {
    if i > 0 {
      assert forall j :: 0 <= j < i - 1 ==> dicts[1..][j] == dicts[j + 1];
      FirstHitAt(term, dicts[1..], i - 1);
    }
  }

  /** The search answers from whichever dictionary is the first to know the term. */
  lemma FirstHitFirst(term: string, dicts: seq<Dictionary>)
    ensures forall i :: 0 <= i < |dicts| && TryDictionary(term, dicts[i]) != "" &&
                       (forall j :: 0 <= j < i ==> TryDictionary(term, dicts[j]) == "")
                       ==> FirstHit(term, dicts) == Some(TryDictionary(term, dicts[i]))
  {
    forall i | 0 <= i < |dicts| && TryDictionary(term, dicts[i]) != "" &&
      (forall j :: 0 <= j < i ==> TryDictionary(term, dicts[j]) == "")
      ensures FirstHit(term, dicts) == Some(TryDictionary(term, dicts[i]))
    {
      FirstHitAt(term, dicts, i);
    }
  }

  /** When no dictionary of the search order knows the term, the default miss behaviour applies. */
  lemma TranslateInUnknown(order: seq<Dictionary>, term: string, options: TranslationOptions)
    requires term != ""
    requires forall j :: 0 <= j < |order| ==> TryDictionary(term, order[j]) == ""
    ensures FirstHit(term, order) == None
    ensures TranslateFromDictionary(Some(term), [], options) == if Fallback(options) then Strs.Trim(term) else ""
  {
  }

  /** When no dictionary knows the term, `translate` gives the trimmed term, or "" without fallback. */
  lemma TranslateUnknown(term: string, options: TranslationOptions)
    requires term != ""
    requires forall j :: 0 <= j < |SearchOrder| ==> TryDictionary(term, SearchOrder[j]) == ""
    ensures Translate(Some(term), options) == if Fallback(options) then Strs.Trim(term) else ""
  {
    TranslateInUnknown(SearchOrder, term, options);
  }

  /** `translateArray` keeps the non-empty translations and their order. */
  lemma TranslateArrayKeeps(terms: seq<Option<string>>, translateFn: Option<string> -> string)
    ensures Seqs.IsSubseq(TranslateArray(Some(terms), translateFn), Seqs.Map(translateFn, terms))
    ensures forall i :: 0 <= i < |terms| && translateFn(terms[i]) != "" ==> translateFn(terms[i]) in TranslateArray(Some(terms), translateFn)
  {
    Seqs.FilterIsSubseq(Strs.NonEmptyString, Seqs.Map(translateFn, terms));
    Seqs.FilterMembers(Strs.NonEmptyString, Seqs.Map(translateFn, terms));
    assert forall i :: 0 <= i < |terms| ==> Seqs.Map(translateFn, terms)[i] == translateFn(terms[i]);
  }

  /** The reverse lookup returns the first Czech key whose English value matches, else its input. */
  lemma ReverseLookupFirstKey(dict: Dictionary, englishTerm: string)
    requires englishTerm != ""
    ensures var r, n := ReverseLookup(dict, Some(englishTerm)), Strs.Lower(Strs.Trim(englishTerm));
      (r == englishTerm && forall i :: 0 <= i < |dict| ==> Strs.Lower(dict[i].1) != n) ||
      (exists i :: 0 <= i < |dict| && dict[i].0 == r && Strs.Lower(dict[i].1) == n &&
         forall j :: 0 <= j < i ==> Strs.Lower(dict[j].1) != n)
  {
  }

  /** A term matching the first entry's English value reverses to the first entry's key. */
  lemma ReverseLookupHead(dict: Dictionary, englishTerm: string)
    requires englishTerm != "" && dict != []
    requires Strs.Lower(dict[0].1) == Strs.Lower(Strs.Trim(englishTerm))
    ensures ReverseLookup(dict, Some(englishTerm)) == dict[0].0
  {
  }

  /** Only "languages", "targets" and "formats" name a dictionary among the type names plus "s". */
  lemma ConfigPropertyOfTypeName(t: TranslationType)
    ensures ConfigProperty(TypeName(t) + "s").None? <==> t in {Category, City, General}
    ensures ConfigProperty(TypeName(t) + "s").Some? ==> ConfigProperty(TypeName(t) + "s").value == t
  {
    match t
    case Category => assert "category" + "s" == "categorys";
    case City => assert "city" + "s" == "citys";
    case General => assert "general" + "s" == "generals";
    case Language => assert "language" + "s" == "languages";
    case Target => assert "target" + "s" == "targets";
    case Format => assert "format" + "s" == "formats";
  }

  /** As written, a truthy term of type category, city or general makes `reverseTranslate` throw. */
  lemma ReverseTranslateAsWrittenThrows(englishTerm: string, t: TranslationType)
    requires englishTerm != ""
    ensures ReverseTranslateAsWritten(Some(englishTerm), t).TypeError? <==> t in {Category, City, General}
  {
    ConfigPropertyOfTypeName(t);
  }

  /** For the other types the code as written and the corrected lookup agree. */
  lemma ReverseTranslateAsWrittenAgrees(englishTerm: Option<string>, t: TranslationType)
    requires t in {Language, Target, Format}
    ensures ReverseTranslateAsWritten(englishTerm, t) == Returns(ReverseTranslate(englishTerm, t))
  {
    ConfigPropertyOfTypeName(t);
  }

  /** A concrete call that throws as written: the general term "Free", whose Czech key is "zdarma". */
  lemma ReverseFreeCounterexample()
    ensures ReverseTranslateAsWritten(Some("Free"), General) == TypeError
    ensures ReverseTranslate(Some("Free"), General) == "zdarma"
  {
    ReverseFreeFound(GeneralDictionary);
  }

  /** A dictionary whose first entry is ("zdarma", "Free") turns "Free" back into "zdarma". */
  lemma ReverseFreeFound(dict: Dictionary)
    requires dict != [] && dict[0] == ("zdarma", "Free")
    ensures ReverseLookup(dict, Some("Free")) == "zdarma"
  {
    assert Strs.Trim("Free") == "Free" by {
      Strs.TrimTrimmed("Free");
    }
    ReverseLookupHead(dict, "Free");
  }


  /**
   * The corrected `reverseTranslate` never throws: for every type, a truthy term gives the
   * first Czech key of that type's dictionary whose English value matches it, else the term.
   */
  lemma ReverseTranslateFirstKey(englishTerm: string, t: TranslationType)
    requires englishTerm != ""
    ensures var dict, r, n := DictionaryOf(t), ReverseTranslate(Some(englishTerm), t), Strs.Lower(Strs.Trim(englishTerm));
      (r == englishTerm && forall i :: 0 <= i < |dict| ==> Strs.Lower(dict[i].1) != n) ||
      (exists i :: 0 <= i < |dict| && dict[i].0 == r && Strs.Lower(dict[i].1) == n &&
         forall j :: 0 <= j < i ==> Strs.Lower(dict[j].1) != n)
  {
    var dict := DictionaryOf(t);
    assert ReverseTranslate(Some(englishTerm), t) == ReverseLookup(dict, Some(englishTerm));
    ReverseLookupFirstKey(dict, englishTerm);
  }

  /** The language variants of a listed name, and [] for an unlisted one. */
  lemma LanguageVariantsOfUnknown(englishName: string)
    requires englishName !in {"English", "Czech", "German", "French", "Spanish", "Italian",
                              "Russian", "Polish", "Slovak", "Hungarian", "Romanian", "Ukrainian"}
    ensures GetLanguageVariants(englishName) == []
  {
  }
}

/** The language table of i18n/languages.go: the 32 language codes, the
    locale maps used by the chat platform and by the translation service,
    the alphabetical list and the per-language display tables.

    Each Go map is a lookup function returning `Some(v)` for a key the map
    holds and `None` otherwise (the `v, ok := m[k]` reading of a map). */
module Languages {

  import opened Base

  datatype Language =
    Arabic
    | Bulgarian
    | Czech
    | Danish
    | German
    | Greek
    | English
    | Spanish
    | Finnish
    | French
    | Croatian
    | Hungarian
    | Italian
    | Japanese
    | Korean
    | Lithuanian
    | Dutch
    | Norwegian
    | Polish
    | PortugueseBR
    | Portuguese
    | Romanian
    | Russian
    | Slovak
    | Swedish
    | Thai
    | Turkish
    | Ukrainian
    | Vietnamese
    | Welsh
    | Chinese
    | ChineseTaiwan

  /** Language.String(): the underlying code. */
  function Code(l: Language): (r: string)
    ensures |r| == 2
  {
    match l
    case Arabic => "ar"
    case Bulgarian => "bg"
    case Czech => "cz"
    case Danish => "dk"
    case German => "de"
    case Greek => "el"
    case English => "en"
    case Spanish => "es"
    case Finnish => "fi"
    case French => "fr"
    case Croatian => "hr"
    case Hungarian => "hu"
    case Italian => "it"
    case Japanese => "jp"
    case Korean => "kr"
    case Lithuanian => "lt"
    case Dutch => "nl"
    case Norwegian => "no"
    case Polish => "pl"
    case PortugueseBR => "br"
    case Portuguese => "pt"
    case Romanian => "ro"
    case Russian => "ru"
    case Slovak => "sk"
    case Swedish => "sv"
    case Thai => "th"
    case Turkish => "tr"
    case Ukrainian => "ua"
    case Vietnamese => "vn"
    case Welsh => "cy"
    case Chinese => "cn"
    case ChineseTaiwan => "tw"
  }

  /** The language a two-letter code denotes, if any. The code is read as
      the number 256 * first + second character, which keeps the match
      cheap to reason about. */
  function FromCode(s: string): Option<Language> {
    if |s| != 2 then None
    else match s[0] as int * 256 + s[1] as int
      case 24946 => Some(Arabic)
      case 25191 => Some(Bulgarian)
      case 25466 => Some(Czech)
      case 25707 => Some(Danish)
      case 25701 => Some(German)
      case 25964 => Some(Greek)
      case 25966 => Some(English)
      case 25971 => Some(Spanish)
      case 26217 => Some(Finnish)
      case 26226 => Some(French)
      case 26738 => Some(Croatian)
      case 26741 => Some(Hungarian)
      case 26996 => Some(Italian)
      case 27248 => Some(Japanese)
      case 27506 => Some(Korean)
      case 27764 => Some(Lithuanian)
      case 28268 => Some(Dutch)
      case 28271 => Some(Norwegian)
      case 28780 => Some(Polish)
      case 25202 => Some(PortugueseBR)
      case 28788 => Some(Portuguese)
      case 29295 => Some(Romanian)
      case 29301 => Some(Russian)
      case 29547 => Some(Slovak)
      case 29558 => Some(Swedish)
      case 29800 => Some(Thai)
      case 29810 => Some(Turkish)
      case 30049 => Some(Ukrainian)
      case 30318 => Some(Vietnamese)
      case 25465 => Some(Welsh)
      case 25454 => Some(Chinese)
      case 29815 => Some(ChineseTaiwan)
      case _ => None
  }

  /** The native-script names and flag glyphs of the source are opaque
      strings here: only which languages have an entry is modelled. */
  datatype Glyph = Glyph(of: Language)

  /** Flags: the flag glyph of each language. */
  function Flags(l: Language): (r: Option<Glyph>)
    ensures r.Some?
  {
    match l
    case Arabic => Some(Glyph(Arabic))
    case Bulgarian => Some(Glyph(Bulgarian))
    case Czech => Some(Glyph(Czech))
    case Danish => Some(Glyph(Danish))
    case German => Some(Glyph(German))
    case Greek => Some(Glyph(Greek))
    case English => Some(Glyph(English))
    case Spanish => Some(Glyph(Spanish))
    case Finnish => Some(Glyph(Finnish))
    case French => Some(Glyph(French))
    case Croatian => Some(Glyph(Croatian))
    case Hungarian => Some(Glyph(Hungarian))
    case Italian => Some(Glyph(Italian))
    case Japanese => Some(Glyph(Japanese))
    case Korean => Some(Glyph(Korean))
    case Lithuanian => Some(Glyph(Lithuanian))
    case Dutch => Some(Glyph(Dutch))
    case Norwegian => Some(Glyph(Norwegian))
    case Polish => Some(Glyph(Polish))
    case PortugueseBR => Some(Glyph(PortugueseBR))
    case Portuguese => Some(Glyph(Portuguese))
    case Romanian => Some(Glyph(Romanian))
    case Russian => Some(Glyph(Russian))
    case Slovak => Some(Glyph(Slovak))
    case Swedish => Some(Glyph(Swedish))
    case Thai => Some(Glyph(Thai))
    case Turkish => Some(Glyph(Turkish))
    case Ukrainian => Some(Glyph(Ukrainian))
    case Vietnamese => Some(Glyph(Vietnamese))
    case Welsh => Some(Glyph(Welsh))
    case Chinese => Some(Glyph(Chinese))
    case ChineseTaiwan => Some(Glyph(ChineseTaiwan))
  }

  /** DiscordLocales: the chat platform's locale identifiers and the
      language each selects. */
  function DiscordLocales(k: string): (r: Option<Language>)
    ensures r.Some? ==> r.value !in {Arabic, Portuguese, Slovak, Vietnamese, Welsh}
  {
    match k
    case "en-US" => Some(English)
    case "en-GB" => Some(English)
    case "bg" => Some(Bulgarian)
    case "zh-CN" => Some(Chinese)
    case "zh-TW" => Some(ChineseTaiwan)
    case "hr" => Some(Croatian)
    case "cs" => Some(Czech)
    case "da" => Some(Danish)
    case "nl" => Some(Dutch)
    case "el" => Some(Greek)
    case "fi" => Some(Finnish)
    case "fr" => Some(French)
    case "de" => Some(German)
    case "hu" => Some(Hungarian)
    case "it" => Some(Italian)
    case "ja" => Some(Japanese)
    case "ko" => Some(Korean)
    case "lt" => Some(Lithuanian)
    case "no" => Some(Norwegian)
    case "pl" => Some(Polish)
    case "pt-BR" => Some(PortugueseBR)
    case "ro" => Some(Romanian)
    case "ru" => Some(Russian)
    case "es-ES" => Some(Spanish)
    case "sv-SE" => Some(Swedish)
    case "th" => Some(Thai)
    case "tr" => Some(Turkish)
    case "uk" => Some(Ukrainian)
    case _ => None
  }

  /** FullLocales: the translation service's full locale identifiers. */
  function FullLocales(k: string): (r: Option<Language>)
    ensures r.Some? ==> |k| == 5 && k[2] == '-'
  {
    match k
    case "ar-SA" => Some(Arabic)
    case "bg-BG" => Some(Bulgarian)
    case "cs-CZ" => Some(Czech)
    case "cy-GB" => Some(Welsh)
    case "da-DK" => Some(Danish)
    case "de-DE" => Some(German)
    case "el-GR" => Some(Greek)
    case "en-GB" => Some(English)
    case "es-ES" => Some(Spanish)
    case "fi-FI" => Some(Finnish)
    case "fr-FR" => Some(French)
    case "hr-HR" => Some(Croatian)
    case "hu-HU" => Some(Hungarian)
    case "it-IT" => Some(Italian)
    case "ja-JP" => Some(Japanese)
    case "ko-KR" => Some(Korean)
    case "lt-LT" => Some(Lithuanian)
    case "nl-NL" => Some(Dutch)
    case "no-NO" => Some(Norwegian)
    case "pl-PL" => Some(Polish)
    case "pt-BR" => Some(PortugueseBR)
    case "pt-PT" => Some(Portuguese)
    case "ro-RO" => Some(Romanian)
    case "ru-RU" => Some(Russian)
    case "sk-SK" => Some(Slovak)
    case "sv-SE" => Some(Swedish)
    case "th-TH" => Some(Thai)
    case "tr-TR" => Some(Turkish)
    case "uk-UA" => Some(Ukrainian)
    case "vi-VN" => Some(Vietnamese)
    case "zh-CN" => Some(Chinese)
    case "zh-TW" => Some(ChineseTaiwan)
    case _ => None
  }

  /** LocalesInverse: the full locale identifier of each language. */
  function LocalesInverse(l: Language): (r: Option<string>)
    ensures r.Some? && |r.value| == 5 && r.value[2] == '-'
  {
    match l
    case Arabic => Some("ar-SA")
    case Bulgarian => Some("bg-BG")
    case Czech => Some("cs-CZ")
    case Danish => Some("da-DK")
    case German => Some("de-DE")
    case Greek => Some("el-GR")
    case English => Some("en-GB")
    case Spanish => Some("es-ES")
    case Finnish => Some("fi-FI")
    case French => Some("fr-FR")
    case Croatian => Some("hr-HR")
    case Hungarian => Some("hu-HU")
    case Italian => Some("it-IT")
    case Japanese => Some("ja-JP")
    case Korean => Some("ko-KR")
    case Lithuanian => Some("lt-LT")
    case Dutch => Some("nl-NL")
    case Norwegian => Some("no-NO")
    case Polish => Some("pl-PL")
    case PortugueseBR => Some("pt-BR")
    case Portuguese => Some("pt-PT")
    case Romanian => Some("ro-RO")
    case Russian => Some("ru-RU")
    case Slovak => Some("sk-SK")
    case Swedish => Some("sv-SE")
    case Thai => Some("th-TH")
    case Turkish => Some("tr-TR")
    case Ukrainian => Some("uk-UA")
    case Vietnamese => Some("vi-VN")
    case Welsh => Some("cy-GB")
    case Chinese => Some("zh-CN")
    case ChineseTaiwan => Some("zh-TW")
  }

  /** The languages in the order of the language picker. */
  const LanguagesAlphabetical: seq<Language> := [
    Arabic,
    Bulgarian,
    Czech,
    Danish,
    German,
    Greek,
    English,
    Spanish,
    Finnish,
    French,
    Croatian,
    Hungarian,
    Italian,
    Japanese,
    Korean,
    Lithuanian,
    Dutch,
    Norwegian,
    Polish,
    PortugueseBR,
    Portuguese,
    Romanian,
    Russian,
    Slovak,
    Swedish,
    Thai,
    Turkish,
    Ukrainian,
    Vietnamese,
    Welsh,
    Chinese,
    ChineseTaiwan
  ]

  /** FullNames: each language's name in its own script. */
  function FullNames(l: Language): (r: Option<Glyph>)
    ensures r.Some?
  {
    match l
    case Arabic => Some(Glyph(Arabic))
    case Bulgarian => Some(Glyph(Bulgarian))
    case Czech => Some(Glyph(Czech))
    case Danish => Some(Glyph(Danish))
    case German => Some(Glyph(German))
    case Greek => Some(Glyph(Greek))
    case English => Some(Glyph(English))
    case Spanish => Some(Glyph(Spanish))
    case Finnish => Some(Glyph(Finnish))
    case French => Some(Glyph(French))
    case Croatian => Some(Glyph(Croatian))
    case Hungarian => Some(Glyph(Hungarian))
    case Italian => Some(Glyph(Italian))
    case Japanese => Some(Glyph(Japanese))
    case Korean => Some(Glyph(Korean))
    case Lithuanian => Some(Glyph(Lithuanian))
    case Dutch => Some(Glyph(Dutch))
    case Norwegian => Some(Glyph(Norwegian))
    case Polish => Some(Glyph(Polish))
    case PortugueseBR => Some(Glyph(PortugueseBR))
    case Portuguese => Some(Glyph(Portuguese))
    case Romanian => Some(Glyph(Romanian))
    case Russian => Some(Glyph(Russian))
    case Slovak => Some(Glyph(Slovak))
    case Swedish => Some(Glyph(Swedish))
    case Thai => Some(Glyph(Thai))
    case Turkish => Some(Glyph(Turkish))
    case Ukrainian => Some(Glyph(Ukrainian))
    case Vietnamese => Some(Glyph(Vietnamese))
    case Welsh => Some(Glyph(Welsh))
    case Chinese => Some(Glyph(Chinese))
    case ChineseTaiwan => Some(Glyph(ChineseTaiwan))
  }

  /** FullNamesEnglish: each language's English name. */
  function FullNamesEnglish(l: Language): (r: Option<string>)
    ensures r.Some? && r.value != ""
  {
    match l
    case Arabic => Some("Arabic")
    case Bulgarian => Some("Bulgarian")
    case Czech => Some("Czech")
    case Danish => Some("Danish")
    case German => Some("German")
    case Greek => Some("Greek")
    case English => Some("English")
    case Spanish => Some("Spanish")
    case Finnish => Some("Finnish")
    case French => Some("French")
    case Croatian => Some("Croatian")
    case Hungarian => Some("Hungarian")
    case Italian => Some("Italian")
    case Japanese => Some("Japanese")
    case Korean => Some("Korean")
    case Lithuanian => Some("Lithuanian")
    case Dutch => Some("Dutch")
    case Norwegian => Some("Norwegian")
    case Polish => Some("Polish")
    case PortugueseBR => Some("Portuguese (Brazilian)")
    case Portuguese => Some("Portuguese")
    case Romanian => Some("Romanian")
    case Russian => Some("Russian")
    case Slovak => Some("Slovak")
    case Swedish => Some("Swedish")
    case Thai => Some("Thai")
    case Turkish => Some("Turkish")
    case Ukrainian => Some("Ukrainian")
    case Vietnamese => Some("Vietnamese")
    case Welsh => Some("Welsh")
    case Chinese => Some("Chinese")
    case ChineseTaiwan => Some("Chinese (Taiwan)")
  }

  lemma CodeRoundTrip(l: Language)
    ensures FromCode(Code(l)) == Some(l)
  {
    match l
    case Arabic =>
    case Bulgarian =>
    case Czech =>
    case Danish =>
    case German =>
    case Greek =>
    case English =>
    case Spanish =>
    case Finnish =>
    case French =>
    case Croatian =>
    case Hungarian =>
    case Italian =>
    case Japanese =>
    case Korean =>
    case Lithuanian =>
    case Dutch =>
    case Norwegian =>
    case Polish =>
    case PortugueseBR =>
    case Portuguese =>
    case Romanian =>
    case Russian =>
    case Slovak =>
    case Swedish =>
    case Thai =>
    case Turkish =>
    case Ukrainian =>
    case Vietnamese =>
    case Welsh =>
    case Chinese =>
    case ChineseTaiwan =>
  }

  /** The 32 codes are pairwise distinct: Code is injective. */
  lemma CodeInjective(a: Language, b: Language)
    ensures Code(a) == Code(b) ==> a == b
  {
    CodeRoundTrip(a);
    CodeRoundTrip(b);
  }

  /** Every language's full locale maps back to it. */
  lemma LocalesInverseRoundTrip(l: Language)
    ensures LocalesInverse(l).Some? && FullLocales(LocalesInverse(l).value) == Some(l)
  {
    match l
    case Arabic =>
    case Bulgarian =>
    case Czech =>
    case Danish =>
    case German =>
    case Greek =>
    case English =>
    case Spanish =>
    case Finnish =>
    case French =>
    case Croatian =>
    case Hungarian =>
    case Italian =>
    case Japanese =>
    case Korean =>
    case Lithuanian =>
    case Dutch =>
    case Norwegian =>
    case Polish =>
    case PortugueseBR =>
    case Portuguese =>
    case Romanian =>
    case Russian =>
    case Slovak =>
    case Swedish =>
    case Thai =>
    case Turkish =>
    case Ukrainian =>
    case Vietnamese =>
    case Welsh =>
    case Chinese =>
    case ChineseTaiwan =>
  }

  /** Every full locale's language has that locale as its inverse. */
  lemma FullLocalesRoundTrip(k: string)
    ensures FullLocales(k).Some? ==> LocalesInverse(FullLocales(k).value) == Some(k)
  {
  }

  /** The alphabetical list has 32 pairwise distinct entries. */
  lemma AlphabeticalIsDistinct()
    ensures |LanguagesAlphabetical| == 32
    ensures forall i, j :: 0 <= i < j < |LanguagesAlphabetical| ==> LanguagesAlphabetical[i] != LanguagesAlphabetical[j]
  {
  }

  /** Each language's position in the alphabetical list. */
  lemma InAlphabetical(l: Language)
    ensures l in LanguagesAlphabetical
  {
    match l
    case Arabic => assert LanguagesAlphabetical[0] == Arabic;
    case Bulgarian => assert LanguagesAlphabetical[1] == Bulgarian;
    case Czech => assert LanguagesAlphabetical[2] == Czech;
    case Danish => assert LanguagesAlphabetical[3] == Danish;
    case German => assert LanguagesAlphabetical[4] == German;
    case Greek => assert LanguagesAlphabetical[5] == Greek;
    case English => assert LanguagesAlphabetical[6] == English;
    case Spanish => assert LanguagesAlphabetical[7] == Spanish;
    case Finnish => assert LanguagesAlphabetical[8] == Finnish;
    case French => assert LanguagesAlphabetical[9] == French;
    case Croatian => assert LanguagesAlphabetical[10] == Croatian;
    case Hungarian => assert LanguagesAlphabetical[11] == Hungarian;
    case Italian => assert LanguagesAlphabetical[12] == Italian;
    case Japanese => assert LanguagesAlphabetical[13] == Japanese;
    case Korean => assert LanguagesAlphabetical[14] == Korean;
    case Lithuanian => assert LanguagesAlphabetical[15] == Lithuanian;
    case Dutch => assert LanguagesAlphabetical[16] == Dutch;
    case Norwegian => assert LanguagesAlphabetical[17] == Norwegian;
    case Polish => assert LanguagesAlphabetical[18] == Polish;
    case PortugueseBR => assert LanguagesAlphabetical[19] == PortugueseBR;
    case Portuguese => assert LanguagesAlphabetical[20] == Portuguese;
    case Romanian => assert LanguagesAlphabetical[21] == Romanian;
    case Russian => assert LanguagesAlphabetical[22] == Russian;
    case Slovak => assert LanguagesAlphabetical[23] == Slovak;
    case Swedish => assert LanguagesAlphabetical[24] == Swedish;
    case Thai => assert LanguagesAlphabetical[25] == Thai;
    case Turkish => assert LanguagesAlphabetical[26] == Turkish;
    case Ukrainian => assert LanguagesAlphabetical[27] == Ukrainian;
    case Vietnamese => assert LanguagesAlphabetical[28] == Vietnamese;
    case Welsh => assert LanguagesAlphabetical[29] == Welsh;
    case Chinese => assert LanguagesAlphabetical[30] == Chinese;
    case ChineseTaiwan => assert LanguagesAlphabetical[31] == ChineseTaiwan;
  }

  /** The alphabetical list names every language, and every language in it
      has a full locale. */
  lemma AlphabeticalIsComplete()
    ensures forall l: Language :: l in LanguagesAlphabetical && LocalesInverse(l).Some?
  {
    forall l: Language
      ensures l in LanguagesAlphabetical && LocalesInverse(l).Some?
    {
      InAlphabetical(l);
    }
  }

  /** Every language has a flag, a native name and an English name. */
  lemma DisplayTablesCover(l: Language)
    ensures Flags(l).Some? && FullNames(l).Some? && FullNamesEnglish(l).Some?
  {
  }

  /** Two platform locales select English, and five languages are never
      selected by any platform locale. */
  lemma DiscordLocalesNotInjective(k: string)
    ensures DiscordLocales("en-US") == Some(English) && DiscordLocales("en-GB") == Some(English)
    ensures DiscordLocales(k).Some? ==>
              DiscordLocales(k).value !in {Arabic, Portuguese, Slovak, Vietnamese, Welsh}
  {
  }
}

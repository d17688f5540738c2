// String localization of js/localization.js: four translation maps keyed
// by language, lookups in the map of the current application language, and
// word-by-word replacement of keys in a text. The application language is a
// global of the page, here the field of class `LanguageSetting`; the lookups
// take it as a parameter. A language without a map makes every lookup throw
// (`None`).
module Localization {
  import opened Wrappers
  import opened Text

  type TranslationMap = map<string, string>

  /** `enTranslationMap` (js/localization.js:52-94). */
  const EnTranslationMap: TranslationMap := map[
    "welcome_welcome" := "Welcome!",
    "generic_loading" := "Loading...",
    "generic_not_logged_in" := "Not logged in",
    "generic_login" := "LOG IN",
    "generic_username" := "@username",
    "generic_password" := "password",
    "generic_close" := "Close",
    "generic_apply" := "Apply",
    "user_please_choose" := "Please choose what user you are.",
    "manage_order_refill" := "Order refill",
    "menu_drink" := "DRINK",
    "menu_food" := "Food",
    "menu_set" := "set",
    "menu_filter" := "Filter",
    "menu_credit" := "Credit:",
    "menu_page" := "Page:",
    "cat_ALL" := "ALL",
    "cat_ale" := "Ale",
    "cat_whisky" := "Whisky",
    "cat_white_wine" := "White wine",
    "cat_red_wine" := "Red wine",
    "cat_misc_wine" := "Other wine",
    "cat_alcoholfree" := "Alcohol free",
    "cat_sherry" := "Sherry",
    "cat_vermouth" := "Vermouth",
    "cat_cognac" := "Cognac",
    "filter_priceMin" := "Minimum price (SEK)",
    "filter_priceMax" := "Maximum price (SEK)",
    "filter_drink_percentageMin" := "Minimum alcohol strength (%)",
    "filter_drink_percentageMax" := "Maximum alcohol strength (%)",
    "filter_subCategories" := "Subcategories",
    "filter_searches" := "Search",
    "filter_organic" := "Must be organic",
    "filter_kosher" := "Must be kosher",
    "pay_your_order" := "YOUR ORDER",
    "pay_amount" := "AMOUNT",
    "pay_table" := "Pay at table",
    "pay_bar" := "Pay at bar counter",
    "pay_credit" := "Pay with credit",
    "pay_total_cost" := "TOTAL COST:",
    "pay_ordered" := "YOU HAVE ORDERED:"
  ]

  /** `seTranslationMap` (js/localization.js:98-140). */
  const SeTranslationMap: TranslationMap := map[
    "welcome_welcome" := "Välkommen!",
    "generic_loading" := "Laddar...",
    "generic_not_logged_in" := "Inte inloggad",
    "generic_login" := "LOGGA IN",
    "generic_username" := "@användarnamn",
    "generic_password" := "lösenord",
    "generic_close" := "Stäng",
    "generic_apply" := "Applicera",
    "user_please_choose" := "Snälla välj vad för typ av användare du är",
    "manage_order_refill" := "Beställ påfyllning",
    "menu_drink" := "DRYCK",
    "menu_food" := "Mat",
    "menu_set" := "sätt",
    "menu_filter" := "Filtrera",
    "menu_credit" := "Kredit:",
    "menu_page" := "Sida:",
    "cat_ALL" := "ALLT",
    "cat_ale" := "Öl",
    "cat_whisky" := "Whisky",
    "cat_white_wine" := "Vitt vin",
    "cat_red_wine" := "Rött vin",
    "cat_misc_wine" := "Annat vin",
    "cat_alcoholfree" := "Alcoholfritt",
    "cat_sherry" := "Sherry",
    "cat_vermouth" := "Vermouth",
    "cat_cognac" := "Cognac",
    "filter_priceMin" := "Minimum pris (SEK)",
    "filter_priceMax" := "Maximum pris (SEK)",
    "filter_drink_percentageMin" := "Minimum alkoholhalt (%)",
    "filter_drink_percentageMax" := "Maximum alkoholhalt (%)",
    "filter_subCategories" := "Subkategorier",
    "filter_searches" := "Sök",
    "filter_organic" := "Måste vara organisk",
    "filter_kosher" := "Måste vara kosher",
    "pay_your_order" := "DIN BESTÄLLNING",
    "pay_amount" := "ANTAL",
    "pay_table" := "Betala vid bordet",
    "pay_bar" := "Betala vid bardisken",
    "pay_credit" := "Batala med kredit",
    "pay_total_cost" := "TOTAL KOSTNAD:",
    "pay_ordered" := "DU HAR BESTÄLLT:"
  ]

  /** `teTranslationMap` (js/localization.js:143-182). */
  const TeTranslationMap: TranslationMap := map[
    "welcome_welcome" := "స్వాగతం!",
    "generic_loading" := "లోడ్ అవుతోంది ...",
    "generic_not_logged_in" := "లాగిన్ కాలేదు",
    "generic_login" := "లాగ్ ఇన్",
    "generic_username" := "ern వినియోగదారు పేరు",
    "generic_password" := "పాస్వర్డ్",
    "generic_close" := "మూసివేయి",
    "generic_apply" := "వర్తించు",
    "user_please_choose" := "దయచేసి మీరు ఏ వినియోగదారుని ఎంచుకోండి.",
    "menu_drink" := "పానీయం",
    "menu_food" := "ఆహారం",
    "menu_set" := "సెట్",
    "menu_filter" := "ఫిల్టర్",
    "cat_ALL" := "అన్నీ",
    "cat_ale" := "ఆలే",
    "cat_whisky" := "విస్కీ",
    "cat_white_wine" := "వైట్ వైన్",
    "cat_red_wine" := "రెడ్ వైన్",
    "cat_misc_wine" := "ఇతర వైన్",
    "cat_alcoholfree" := "ఆల్కహాల్ ఫ్రీ",
    "cat_sherry" := "షెర్రీ",
    "cat_vermouth" := "వర్మౌత్",
    "cat_cognac" := "కాగ్నాక్",
    "filter_priceMin" := "కనిష్ట ధర (SEK)",
    "filter_priceMax" := "గరిష్ట ధర (SEK)",
    "filter_drink_percentageMin" := "కనీస మద్యం శాతం (%)",
    "filter_drink_percentageMax" := "గరిష్ట ఆల్కహాల్ శాతం (%)",
    "filter_subCategories" := "ఉపవర్గాలు",
    "filter_searches" := "శోధన",
    "filter_organic" := "సేంద్రీయంగా ఉండాలి",
    "filter_kosher" := "కోషర్ అయి ఉండాలి",
    "pay_your_order" := "మీ ఆర్డర్",
    "pay_amount" := "మొత్తం",
    "pay_table" := "టేబుల్ వద్ద చెల్లించండి",
    "pay_bar" := "బార్ కౌంటర్ వద్ద చెల్లించండి",
    "pay_credit" := "క్రెడిట్‌తో చెల్లించండి",
    "pay_total_cost" := "మొత్తం ఖర్చు:",
    "pay_ordered" := "మీరు ఆదేశించారు:"
  ]

  /** `zhTranslationMap` (js/localization.js:185-225). */
  const ZhTranslationMap: TranslationMap := map[
    "welcome_welcome" := "歡迎!",
    "generic_loading" := "載入中...",
    "user_please_choose" := "請選擇用戶",
    "menu_drink" := "酒",
    "menu_food" := "食物",
    "menu_set" := "套餐",
    "menu_filter" := "篩選",
    "cat_ALL" := "全部",
    "cat_ale" := "麥酒",
    "cat_whisky" := "威士忌",
    "cat_white_wine" := "白酒",
    "cat_red_wine" := "紅酒",
    "cat_misc_wine" := "其他",
    "cat_alcoholfree" := "無酒精",
    "cat_sherry" := "雪梨",
    "cat_vermouth" := "苦艾",
    "cat_cognac" := "干邑",
    "filter_priceMin" := "最低價格 (SEK)",
    "filter_priceMax" := "最高價格 (SEK)",
    "filter_drink_percentageMin" := "最低酒精 (%)",
    "filter_drink_percentageMax" := "最高酒精 (%)",
    "filter_subCategories" := "酒類",
    "filter_searches" := "搜尋",
    "filter_organic" := "有機",
    "filter_kosher" := "清真",
    "pay_amount" := "總數",
    "pay_total_cost" := "總數:",
    "pay_ordered" := "你落左單:",
    "generic_not_logged_in" := "未登入",
    "generic_login" := "登入",
    "generic_username" := "帳號",
    "generic_password" := "密碼",
    "generic_close" := "關閉",
    "generic_apply" := "申請",
    "menu_credit" := "信用額",
    "pay_your_order" := "你叫左D咩",
    "pay_table" := "唔該埋單",
    "pay_bar" := "出去比錢",
    "pay_credit" := "拖數"
  ]

  /** The languages `getTranslationMap` has a map for. */
  const Languages: seq<string> := ["en", "se", "zh", "te"]

  /** The default language when storage holds none. */
  const DefaultLanguage: string := "en"

  /** `getTranslationMap()` for application language `lang` (`None` for `undefined` or `null`). */
  function GetTranslationMap(lang: Option<string>): (r: Option<TranslationMap>)
    ensures r.Some? <==> lang.Some? && lang.value in Languages
  {
    match lang
    case None => None
    case Some(l) =>
      if l == "en" then Some(EnTranslationMap)
      else if l == "se" then Some(SeTranslationMap)
      else if l == "zh" then Some(ZhTranslationMap)
      else if l == "te" then Some(TeTranslationMap)
      else None
  }

  /** `localizedString(s)` once `getTranslationMap()` has given `table`: the translation of `s`, or `s` itself. */
  function LocalizedStringIn(table: Option<TranslationMap>, s: string): (r: Option<string>)
    ensures r.Some? <==> table.Some?
    ensures r.Some? && s in table.value ==> r.value == table.value[s]
    ensures r.Some? && s !in table.value ==> r.value == s
  {
    match table
    case None => None
    case Some(m) => Some(if s in m then m[s] else s)
  }

  /** `localizedString(s)`: the translation of `s`, or `s` itself when it has none. */
  function LocalizedString(lang: Option<string>, s: string): (r: Option<string>)
    ensures r.Some? <==> GetTranslationMap(lang).Some?
    ensures r.Some? && s in GetTranslationMap(lang).value ==> r.value == GetTranslationMap(lang).value[s]
    ensures r.Some? && s !in GetTranslationMap(lang).value ==> r.value == s
  {
    LocalizedStringIn(GetTranslationMap(lang), s)
  }

  /** `validLocalizedKey(s)` once `getTranslationMap()` has given `table`. */
  function ValidLocalizedKeyIn(table: Option<TranslationMap>, s: string): (r: Option<bool>)
    ensures r.Some? <==> table.Some?
    ensures r.Some? ==> (r.value <==> s in table.value)
  {
    match table
    case None => None
    case Some(m) => Some(s in m)
  }

  /** `validLocalizedKey(s)`: whether `s` has a translation. */
  function ValidLocalizedKey(lang: Option<string>, s: string): (r: Option<bool>)
    ensures r.Some? <==> GetTranslationMap(lang).Some?
    ensures r.Some? ==> (r.value <==> s in GetTranslationMap(lang).value)
  {
    ValidLocalizedKeyIn(GetTranslationMap(lang), s)
  }

  // ---------------------------------------------------------------------------
  // Texts

  /** One word of a text after localization. */
  function LocalizeWord(m: TranslationMap, w: string): string
  {
    if w in m then m[w] else w
  }

  /** One line: its words, split on a space, localized and joined with a space again. */
  function LocalizeLine(m: TranslationMap, line: string): string
  {
    var ws := Split(line, " ");
    Join(seq(|ws|, i requires 0 <= i < |ws| => LocalizeWord(m, ws[i])), " ")
  }

  /** A text: its lines, split on a newline, localized and joined with a newline again. */
  function LocalizedText(m: TranslationMap, text: string): string
  {
    var ls := Split(text, "\n");
    Join(seq(|ls|, i requires 0 <= i < |ls| => LocalizeLine(m, ls[i])), "\n")
  }

  /** The inner loop of `localizeText`, with `table` what `getTranslationMap()` gives: each word of one line that is a key is replaced. */
  method LocalizeWords(table: Option<TranslationMap>, words: seq<string>) returns (r: Option<seq<string>>)
    requires |words| > 0
    ensures r.None? <==> table.None?
    ensures r.Some? ==> r.value == seq(|words|, i requires 0 <= i < |words| => LocalizeWord(table.value, words[i]))
  {
    var out := words;
    for wordIx := 0 to |words|
      invariant |out| == |words|
      invariant wordIx > 0 ==> table.Some?
      invariant forall j | wordIx <= j < |words| :: out[j] == words[j]
      invariant forall j | 0 <= j < wordIx :: out[j] == LocalizeWord(table.value, words[j])
    {
      var key := out[wordIx];
      var valid := ValidLocalizedKeyIn(table, key);
      if valid.None? {
        return None;
      }
      if valid.value {
        out := out[wordIx := LocalizedStringIn(table, key).value];
      }
    }
    r := Some(out);
  }

  /** A line whose words were localized one by one joins into the localized line. */
  lemma LineOf(m: TranslationMap, line: string, words: seq<string>)
    requires var ws := Split(line, " ");
      words == seq(|ws|, i requires 0 <= i < |ws| => LocalizeWord(m, ws[i]))
    ensures Join(words, " ") == LocalizeLine(m, line)
  {
  }

  /** Localized lines join into the localized text. */
  lemma TextOf(m: TranslationMap, text: string, joined: seq<string>)
    requires var ls := Split(text, "\n");
      |joined| == |ls| && forall i | 0 <= i < |ls| :: joined[i] == LocalizeLine(m, ls[i])
    ensures Join(joined, "\n") == LocalizedText(m, text)
  {
    var ls := Split(text, "\n");
    assert joined == seq(|ls|, i requires 0 <= i < |ls| => LocalizeLine(m, ls[i]));
  }

  /**
   * The loop of `localizeText(text)`, with `table` what `getTranslationMap()`
   * gives: every word of every line that is a key is replaced. A text always
   * has a word, so a missing table always throws.
   */
  method LocalizeTextIn(table: Option<TranslationMap>, text: string) returns (r: Option<string>)
    ensures r.None? <==> table.None?
    ensures r.Some? ==> r.value == LocalizedText(table.value, text)
  {
    var lines := Split(text, "\n");
    var linesWords := seq(|lines|, i requires 0 <= i < |lines| => Split(lines[i], " "));
    var joined: seq<string> := [];
    for lineIx := 0 to |linesWords|
      invariant lineIx > 0 ==> table.Some?
      invariant |joined| == lineIx
      invariant forall i | 0 <= i < lineIx :: joined[i] == LocalizeLine(table.value, lines[i])
    {
      var words := LocalizeWords(table, linesWords[lineIx]);
      if words.None? {
        return None;
      }
      LineOf(table.value, lines[lineIx], words.value);
      joined := joined + [Join(words.value, " ")];
    }
    if table.None? {
      assert false;
    }
    TextOf(table.value, text, joined);
    r := Some(Join(joined, "\n"));
  }

  /** `localizeText(text)` under application language `lang`; throws when `lang` has no map. */
  method LocalizeText(lang: Option<string>, text: string) returns (r: Option<string>)
    ensures r.None? <==> GetTranslationMap(lang).None?
    ensures r.Some? ==> r.value == LocalizedText(GetTranslationMap(lang).value, text)
  {
    r := LocalizeTextIn(GetTranslationMap(lang), text);
  }

  // ---------------------------------------------------------------------------
  // Properties of `localizeText`

  /** A line none of whose words is a key is left as it is. */
  lemma LineUnchanged(m: TranslationMap, line: string)
    requires forall w | w in Split(line, " ") :: w !in m
    ensures LocalizeLine(m, line) == line
  {
    var ws := Split(line, " ");
    assert seq(|ws|, i requires 0 <= i < |ws| => LocalizeWord(m, ws[i])) == ws;
    JoinSplit(line, " ");
  }

  /** A text in which no word is a key is returned unchanged. */
  lemma KeyFreeUnchanged(m: TranslationMap, text: string)
    requires forall l | l in Split(text, "\n") :: forall w | w in Split(l, " ") :: w !in m
    ensures LocalizedText(m, text) == text
  {
    var ls := Split(text, "\n");
    forall i | 0 <= i < |ls| ensures LocalizeLine(m, ls[i]) == ls[i] {
      LineUnchanged(m, ls[i]);
    }
    assert seq(|ls|, i requires 0 <= i < |ls| => LocalizeLine(m, ls[i])) == ls;
    JoinSplit(text, "\n");
  }

  /** Every translation is free of newlines. */
  predicate NewlineFree(m: TranslationMap)
  {
    forall k | k in m :: '\n' !in m[k]
  }

  /** A character in no piece and not in the separator is not in the joint. */
  lemma {:induction false} JoinFree(ps: seq<string>, sep: string, c: char)
    requires forall k | 0 <= k < |ps| :: c !in ps[k]
    requires c !in sep
    ensures c !in Join(ps, sep)
    decreases |ps|
  {
    if |ps| > 1 {
      JoinFree(ps[1..], sep, c);
    }
  }

  /** Every character of a piece is in the joint. */
  lemma {:induction false} JoinContains(ps: seq<string>, sep: string, k: int, c: char)
    requires 0 <= k < |ps| && c in ps[k]
    ensures c in Join(ps, sep)
    decreases |ps|
  {
    if |ps| > 1 && k > 0 {
      JoinContains(ps[1..], sep, k - 1, c);
    }
  }

  /** A piece of a split on a character does not contain it. */
  lemma PieceFree(s: string, c: char, p: string)
    requires p in Split(s, [c])
    ensures c !in p
  {
    SplitPiecesFree(s, [c]);
    if c in p {
      var j :| 0 <= j < |p| && p[j] == c;
      OccursAtChar(p, c, j);
    }
  }

  /** With newline-free translations a localized line has no newline. */
  lemma LocalizedLineFree(m: TranslationMap, line: string)
    requires NewlineFree(m) && '\n' !in line
    ensures '\n' !in LocalizeLine(m, line)
  {
    var ws := Split(line, " ");
    var out := seq(|ws|, i requires 0 <= i < |ws| => LocalizeWord(m, ws[i]));
    forall k | 0 <= k < |out| ensures '\n' !in out[k] {
      if ws[k] !in m && '\n' in ws[k] {
        JoinContains(ws, " ", k, '\n');
        JoinSplit(line, " ");
      }
    }
    JoinFree(out, " ", '\n');
  }

  /**
   * With newline-free translations, `localizeText` keeps the number of lines,
   * and line `i` of the result is line `i` of the text with its words localized.
   */
  lemma LinesPreserved(m: TranslationMap, text: string)
    requires NewlineFree(m)
    ensures var ls := Split(text, "\n"); var out := Split(LocalizedText(m, text), "\n");
      |out| == |ls| && forall i | 0 <= i < |ls| :: out[i] == LocalizeLine(m, ls[i])
  {
    var ls := Split(text, "\n");
    var lines := seq(|ls|, i requires 0 <= i < |ls| => LocalizeLine(m, ls[i]));
    forall k, j | 0 <= k < |lines| && 0 <= j < |lines[k]| ensures lines[k][j] != '\n' {
      PieceFree(text, '\n', ls[k]);
      LocalizedLineFree(m, ls[k]);
      assert lines[k][j] in lines[k];
    }
    SplitJoin(lines, '\n');
  }

  /** The documented example: in English, `localizeText("menu_credit 100 SEK")` is `"Credit: 100 SEK"`. */
  lemma CreditExample()
    ensures LocalizedText(EnTranslationMap, "menu_credit 100 SEK") == "Credit: 100 SEK"
  {
    CreditWords();
    CreditShape(EnTranslationMap);
  }

  /** The example in any map that translates its three words as English does. */
  lemma CreditShape(m: TranslationMap)
    requires LocalizeWord(m, "menu_credit") == "Credit:"
    requires LocalizeWord(m, "100") == "100" && LocalizeWord(m, "SEK") == "SEK"
    ensures LocalizedText(m, "menu_credit 100 SEK") == "Credit: 100 SEK"
  {
    var ws := ["menu_credit", "100", "SEK"];
    CreditLines();
    CreditSplit();
    SingleLine(m, "menu_credit 100 SEK");
    LineWords(m, "menu_credit 100 SEK", ws);
    assert seq(|ws|, i requires 0 <= i < |ws| => LocalizeWord(m, ws[i])) == ["Credit:", "100", "SEK"];
    CreditJoint();
  }

  lemma CreditJoint()
    ensures Join(["Credit:", "100", "SEK"], " ") == "Credit: 100 SEK"
  {
    var out := ["Credit:", "100", "SEK"];
    assert out[1..] == ["100", "SEK"] && out[1..][1..] == ["SEK"];
    assert Join(out, " ") == "Credit:" + " " + ("100" + " " + "SEK");
  }

  /** A text of one line is localized as that line. */
  lemma SingleLine(m: TranslationMap, text: string)
    requires Split(text, "\n") == [text]
    ensures LocalizedText(m, text) == LocalizeLine(m, text)
  {
  }

  /** A line is localized word by word. */
  lemma LineWords(m: TranslationMap, line: string, ws: seq<string>)
    requires Split(line, " ") == ws
    ensures LocalizeLine(m, line) == Join(seq(|ws|, i requires 0 <= i < |ws| => LocalizeWord(m, ws[i])), " ")
  {
  }

  lemma CreditLines()
    ensures Split("menu_credit 100 SEK", "\n") == ["menu_credit 100 SEK"]
  {
    var text := "menu_credit 100 SEK";
    forall j: nat | OccursAt(text, "\n", j) ensures false {
      OccursAtChar(text, '\n', j);
    }
    SplitAbsent(text, "\n");
  }

  lemma CreditSplit()
    ensures Split("menu_credit 100 SEK", " ") == ["menu_credit", "100", "SEK"]
  {
    var ws := ["menu_credit", "100", "SEK"];
    assert Join(ws, " ") == "menu_credit 100 SEK";
    SplitJoin(ws, ' ');
  }

  lemma CreditWords()
    ensures LocalizeWord(EnTranslationMap, "menu_credit") == "Credit:"
    ensures LocalizeWord(EnTranslationMap, "100") == "100"
    ensures LocalizeWord(EnTranslationMap, "SEK") == "SEK"
  {
    NumberNotKey();
    CurrencyNotKey();
  }

  lemma NumberNotKey()
    ensures "100" !in EnTranslationMap
  {
  }

  lemma CurrencyNotKey()
    ensures "SEK" !in EnTranslationMap
  {
  }

  // ---------------------------------------------------------------------------
  // The application language

  /** The page's `applicationLanguage`. */
  class LanguageSetting {
    var applicationLanguage: Option<string>

    /** Loading the page: the stored language, or English when storage holds none. */
    constructor(stored: Option<string>)
      ensures applicationLanguage == Some(stored.GetOr(DefaultLanguage))
      ensures stored.None? ==> GetTranslationMap(applicationLanguage) == Some(EnTranslationMap)
    {
      applicationLanguage := stored;
      new;
      if applicationLanguage.None? {
        SetLanguage(DefaultLanguage);
      }
    }

    /** `setLanguage(lang)`: later lookups use the map of `lang`, and throw when it has none. */
    method SetLanguage(lang: string)
      modifies this
      ensures applicationLanguage == Some(lang)
      ensures GetTranslationMap(applicationLanguage).Some? <==> lang in Languages
    {
      applicationLanguage := Some(lang);
    }
  }
}

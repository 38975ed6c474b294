// The translation context: the current language, `t` (a dotted key walked through the
// language's table, then `{{name}}` placeholders filled in), `tr` and `tp` for role and
// phase names, and `switchLanguage`. The tables themselves are data; the model takes
// them as a parameter and pins down the parts the properties need: the sections each
// language has, and the role and phase names.

module Language {
  import opened Wrappers
  import opened JsStrings

  const CHINESE := "zh"
  const ENGLISH := "en"
  const LANGUAGES := [CHINESE, ENGLISH]

  /** A JavaScript value as the key walk meets it: a string, a plain object, a number, or
      `undefined`. */
  datatype Value = Str(s: string) | Obj(fields: map<string, Value>) | Num(n: int) | Undefined

  /** `v?.[k]`: an object's own field, a string's length or its character at a canonical
      index, and `undefined` for everything else (walking on from `undefined` stays
      there). */
  function Prop(v: Value, k: string): Value {
    match v
    case Obj(m) => if k in m then m[k] else Undefined
    case Str(s) =>
      if k == "length" then Num(|s|)
      else if AllDigits(k) && NatToString(DigitsValue(k)) == k && DigitsValue(k) < |s| then
        Str([s[DigitsValue(k)]])
      else Undefined
    case _ => Undefined
  }

  /** The value reached by following `keys` from `v`. */
  function Walk(v: Value, keys: seq<string>): Value
    decreases |keys|
  {
    if keys == [] then v else Walk(Prop(v, keys[0]), keys[1..])
  }

  /** `translations[lang]`. */
  function TableOf(translations: map<string, Value>, lang: string): Value {
    if lang in translations then translations[lang] else Undefined
  }

  /** The placeholder `{{name}}`. */
  function Placeholder(name: string): (p: string)
    ensures |p| >= 4 && p[0] == '{' && p[1] == '{'
  {
    "{{" + name + "}}"
  }

  /** The interpolation loop: each entry in turn replaces every occurrence of its
      placeholder in the text so far. */
  function Interpolate(s: string, entries: seq<(string, string)>): string
    decreases |entries|
  {
    if entries == [] then s
    else Interpolate(ReplaceAll(s, Placeholder(entries[0].0), entries[0].1), entries[1..])
  }

  /** `t(key, interpolations)`: the key split on '.' is walked from the language's
      table; anything but a string gives back the key itself, a string is interpolated. */
  function Translate(translations: map<string, Value>, lang: string, key: string,
                     interpolations: seq<(string, string)>): string
  {
    var v := Walk(TableOf(translations, lang), Split(key, '.'));
    if v.Str? then Interpolate(v.s, interpolations) else key
  }

  /** JavaScript truthiness of the values the role and phase lookups meet. */
  predicate Truthy(v: Value) {
    match v
    case Str(s) => s != ""
    case Obj(_) => true
    case Num(n) => n != 0
    case Undefined => false
  }

  /** `translations[lang]?.[section]?.[name] || name`, the shape of `tr` and `tp`. */
  function NameIn(translations: map<string, Value>, lang: string, section: string, name: string): Value {
    var v := Prop(Prop(TableOf(translations, lang), section), name);
    if Truthy(v) then v else Str(name)
  }

  function Tr(translations: map<string, Value>, lang: string, role: string): Value {
    NameIn(translations, lang, "roles", role)
  }

  function Tp(translations: map<string, Value>, lang: string, phase: string): Value {
    NameIn(translations, lang, "phases", phase)
  }

  /** The language after `switchLanguage(language)`: only a listed language is taken. */
  function Switched(current: string, language: string): (r: string)
    ensures r in LANGUAGES || r == current
  {
    if language in LANGUAGES then language else current
  }

  /** The starting language: the saved one when it is a non-empty string, else Chinese. */
  function InitialLanguage(saved: Option<string>): string {
    if saved.Some? && saved.value != "" then saved.value else CHINESE
  }

  // ---------------------------------------------------------------- the tables

  /** The sections of the Chinese table; the English one also has `gameInit`. Neither has
      a `tts` section. */
  const ZH_SECTIONS: set<string> := {
    "gameTitle", "playerCount", "classicGame", "gameDescription", "roles", "phases", "setup",
    "roleModal", "gameInfo", "actionPanel", "gameLog", "playerCard", "gameOver", "common",
    "speech", "errors", "actions", "gamePhases", "gameResults", "nightActions", "voting",
    "speaking", "aiVoting"}
  const EN_SECTIONS: set<string> := ZH_SECTIONS + {"gameInit"}

  function RoleNames(lang: string): map<string, string> {
    if lang == CHINESE then
      map["WEREWOLF" := "狼人", "SEER" := "预言家", "WITCH" := "女巫", "HUNTER" := "猎人",
          "GUARD" := "守卫", "VILLAGER" := "平民"]
    else
      map["WEREWOLF" := "Werewolf", "SEER" := "Seer", "WITCH" := "Witch", "HUNTER" := "Hunter",
          "GUARD" := "Guard", "VILLAGER" := "Villager"]
  }

  function PhaseNames(lang: string): map<string, string> {
    if lang == CHINESE then
      map["SETUP" := "游戏设置", "SHOW_ROLE_MODAL" := "显示角色卡", "NIGHT_START" := "夜晚开始",
          "WEREWOLVES_ACT" := "狼人行动", "GUARD_ACTS" := "守卫行动", "SEER_ACTS" := "预言家行动",
          "WITCH_ACTS_SAVE" := "女巫行动 - 救人", "WITCH_ACTS_POISON" := "女巫行动 - 毒人",
          "NIGHT_RESOLUTION" := "夜晚结算", "DAY_START" := "白天开始 - 公布死讯",
          "HUNTER_MAY_ACT" := "猎人行动（如果死亡）", "DISCUSSION" := "讨论阶段",
          "VOTING" := "投票阶段", "VOTE_RESULTS" := "投票结果", "GAME_OVER" := "游戏结束"]
    else
      map["SETUP" := "Game Setup", "SHOW_ROLE_MODAL" := "Show Role Card", "NIGHT_START" := "Night Begins",
          "WEREWOLVES_ACT" := "Werewolves Act", "GUARD_ACTS" := "Guard Acts", "SEER_ACTS" := "Seer Acts",
          "WITCH_ACTS_SAVE" := "Witch Acts - Save", "WITCH_ACTS_POISON" := "Witch Acts - Poison",
          "NIGHT_RESOLUTION" := "Night Resolution", "DAY_START" := "Day Begins - Death Announcement",
          "HUNTER_MAY_ACT" := "Hunter Acts (if dead)", "DISCUSSION" := "Discussion Phase",
          "VOTING" := "Voting Phase", "VOTE_RESULTS" := "Vote Results", "GAME_OVER" := "Game Over"]
  }

  function Strs(m: map<string, string>): map<string, Value> {
    map k | k in m :: Str(m[k])
  }

  /** The translation tables as shipped: one table per language with exactly that
      language's sections, and the role and phase names above. */
  predicate Shaped(translations: map<string, Value>) {
    translations.Keys == {CHINESE, ENGLISH} &&
    forall lang | lang in translations ::
      translations[lang].Obj? &&
      translations[lang].fields.Keys == (if lang == CHINESE then ZH_SECTIONS else EN_SECTIONS) &&
      translations[lang].fields["roles"] == Obj(Strs(RoleNames(lang))) &&
      translations[lang].fields["phases"] == Obj(Strs(PhaseNames(lang)))
  }

  // ---------------------------------------------------------------- properties

  /** Splitting at the first '.' peels off the first segment. */
  lemma {:induction false} SplitFirst(p: string, q: string)
    requires '.' !in p
    ensures Split(p + "." + q, '.') == [p] + Split(q, '.')
  {
    var s := p + "." + q;
    if p != [] {
      assert s[0] == p[0] && s[1..] == p[1..] + "." + q;
      SplitFirst(p[1..], q);
      assert [s[0]] + p[1..] == p;
    } else {
      assert s[0] == '.' && s[1..] == q;
    }
  }

  /** Without a '.', the key is one segment. */
  lemma {:induction false} SplitWhole(p: string)
    requires '.' !in p
    ensures Split(p, '.') == [p]
  {
    if p != [] {
      SplitWhole(p[1..]);
      assert [p[0]] + p[1..] == p;
    }
  }

  /** From `undefined` the walk never leaves it. */
  lemma {:induction false} WalkUndefined(keys: seq<string>)
    ensures Walk(Undefined, keys) == Undefined
    decreases |keys|
  {
    if keys != [] {
      WalkUndefined(keys[1..]);
    }
  }

  /** A key whose first segment is no section of the language's table (say `tts.title`,
      or any key in a language with no table) comes back verbatim, whatever the
      interpolations. */
  lemma MissingSectionVerbatim(translations: map<string, Value>, lang: string, section: string, rest: string,
                               interpolations: seq<(string, string)>)
    requires translations.Keys == {CHINESE, ENGLISH}
    requires lang in translations ==> translations[lang].Obj? && section !in translations[lang].fields
    requires '.' !in section
    ensures Translate(translations, lang, section + "." + rest, interpolations) == section + "." + rest
  {
    SplitFirst(section, rest);
    WalkUndefined(Split(rest, '.'));
  }

  /** The sections of a shipped table. */
  function Sections(lang: string): set<string> {
    if lang == CHINESE then ZH_SECTIONS else EN_SECTIONS
  }

  lemma ShapedTable(translations: map<string, Value>, lang: string)
    requires Shaped(translations) && lang in LANGUAGES
    ensures lang in translations && translations[lang].Obj?
    ensures translations[lang].fields.Keys == Sections(lang)
    ensures translations[lang].fields["roles"] == Obj(Strs(RoleNames(lang)))
    ensures translations[lang].fields["phases"] == Obj(Strs(PhaseNames(lang)))
  {
  }

  /** The `tts` keys of the text-to-speech controls come back verbatim in both
      languages. */
  lemma TtsKeysVerbatim(translations: map<string, Value>, lang: string, rest: string,
                        interpolations: seq<(string, string)>)
    requires Shaped(translations) && lang in LANGUAGES
    ensures Translate(translations, lang, "tts." + rest, interpolations) == "tts." + rest
  {
    assert "tts." + rest == "tts" + "." + rest;
    NotASection(translations, lang, "tts");
    MissingSectionVerbatim(translations, lang, "tts", rest, interpolations);
  }

  /** The Chinese table has no `gameInit` section, so its keys come back verbatim there. */
  lemma ChineseGameInitVerbatim(translations: map<string, Value>, rest: string,
                                interpolations: seq<(string, string)>)
    requires Shaped(translations)
    ensures Translate(translations, CHINESE, "gameInit." + rest, interpolations) == "gameInit." + rest
  {
    assert "gameInit." + rest == "gameInit" + "." + rest;
    NotASection(translations, CHINESE, "gameInit");
    MissingSectionVerbatim(translations, CHINESE, "gameInit", rest, interpolations);
  }

  lemma NotASection(translations: map<string, Value>, lang: string, section: string)
    requires Shaped(translations) && lang in LANGUAGES
    requires section == "tts" || (section == "gameInit" && lang == CHINESE)
    ensures translations[lang].Obj? && section !in translations[lang].fields
  {
    ShapedTable(translations, lang);
    MissingSections();
  }

  lemma MissingSections()
    ensures "tts" !in ZH_SECTIONS && "tts" !in EN_SECTIONS && "gameInit" !in ZH_SECTIONS
  {
  }

  /** `section.name` finds the string stored under the name in the section, and with no
      interpolations that string is returned as stored. */
  lemma SectionLookup(translations: map<string, Value>, lang: string, section: string, name: string, s: string)
    requires lang in translations && translations[lang].Obj?
    requires section in translations[lang].fields && translations[lang].fields[section].Obj?
    requires name in translations[lang].fields[section].fields
    requires translations[lang].fields[section].fields[name] == Str(s)
    requires '.' !in section && '.' !in name
    ensures Translate(translations, lang, section + "." + name, []) == s
  {
    SplitFirst(section, name);
    SplitWhole(name);
    var keys := Split(section + "." + name, '.');
    assert keys == [section, name];
    assert keys[1..] == [name] && keys[1..][1..] == [];
    var t := TableOf(translations, lang);
    assert Prop(t, section) == translations[lang].fields[section];
    assert Walk(t, keys) == Walk(Prop(t, section), [name]);
    assert Walk(Prop(t, section), [name]) == Walk(Str(s), []);
  }

  /** A stored string without any `{{` is returned unchanged, whatever is supplied. */
  lemma {:induction false} NoPlaceholdersUnchanged(s: string, entries: seq<(string, string)>)
    requires !Contains(s, "{{")
    ensures Interpolate(s, entries) == s
    decreases |entries|
  {
    if entries != [] {
      var p := Placeholder(entries[0].0);
      if Contains(s, p) {
        var i :| 0 <= i <= |s| && OccursAt(s, p, i);
        assert OccursAt(s, "{{", i);
        assert false;
      }
      ReplaceAllAbsent(s, p, entries[0].1);
      NoPlaceholdersUnchanged(s, entries[1..]);
    }
  }

  /** A single supplied value fills its one placeholder in a text with no other brace
      before or after it. */
  lemma FillOne(before: string, name: string, after: string, value: string)
    requires '{' !in before && '{' !in after
    ensures Interpolate(before + Placeholder(name) + after, [(name, value)]) == before + value + after
  {
    var p := Placeholder(name);
    var s := before + p + after;
    assert OccursAt(s, p, |before|) by {
      assert s[|before|..|before| + |p|] == p;
    }
    forall j | 0 <= j < |before| ensures !OccursAt(s, p, j) {
      assert s[j] == before[j];
    }
    ReplaceAllFirst(s, p, value, |before|);
    assert s[..|before|] == before;
    assert s[|before| + |p|..] == after;
    ReplaceAllAbsent(after, p, value);
  }

  /** Under the shipped tables `tr` gives the language's name of a known role and the role
      itself otherwise; `tp` does the same for phases; and in a language without a table
      both give back their argument. */
  lemma NameLookups(translations: map<string, Value>, lang: string, name: string)
    requires Shaped(translations)
    ensures lang in LANGUAGES ==>
      Tr(translations, lang, name) == Str(if name in RoleNames(lang) then RoleNames(lang)[name] else name) &&
      Tp(translations, lang, name) == Str(if name in PhaseNames(lang) then PhaseNames(lang)[name] else name)
    ensures lang !in LANGUAGES ==> Tr(translations, lang, name) == Str(name) && Tp(translations, lang, name) == Str(name)
  {
    if lang in LANGUAGES {
      ShapedTable(translations, lang);
      NamesNonEmpty(lang);
      NameFromSection(translations, lang, "roles", RoleNames(lang), name);
      NameFromSection(translations, lang, "phases", PhaseNames(lang), name);
    }
  }

  /** A section of non-empty strings yields the stored name, or the argument when the
      section has none. */
  lemma NameFromSection(translations: map<string, Value>, lang: string, section: string,
                        names: map<string, string>, name: string)
    requires lang in translations && translations[lang].Obj?
    requires section in translations[lang].fields && translations[lang].fields[section] == Obj(Strs(names))
    requires forall k | k in names :: names[k] != ""
    ensures NameIn(translations, lang, section, name) == Str(if name in names then names[name] else name)
  {
  }

  lemma NamesNonEmpty(lang: string)
    ensures forall k | k in RoleNames(lang) :: RoleNames(lang)[k] != ""
    ensures forall k | k in PhaseNames(lang) :: PhaseNames(lang)[k] != ""
  {
  }

  /** Switching is idempotent, and from a listed language the language stays listed. */
  lemma SwitchRule(current: string, language: string)
    ensures Switched(Switched(current, language), language) == Switched(current, language)
    ensures current in LANGUAGES ==> Switched(current, language) in LANGUAGES
    ensures Switched(current, language) == language <==> language in LANGUAGES || language == current
  {
  }

  // ---------------------------------------------------------------- the provider

  class LanguageProvider {
    const translations: map<string, Value>
    var currentLanguage: string

    /** The saved language when there is a non-empty one, else Chinese; a saved value
        outside the list is kept as it is. */
    constructor(translations: map<string, Value>, saved: Option<string>)
      ensures this.translations == translations && currentLanguage == InitialLanguage(saved)
    {
      this.translations := translations;
      currentLanguage := if saved.Some? && saved.value != "" then saved.value else CHINESE;
    }

    /** `t`: walks the keys one by one, then folds the interpolations into the result. */
    method T(key: string, interpolations: seq<(string, string)>) returns (r: string)
      ensures r == Translate(translations, currentLanguage, key, interpolations)
    {
      var keys := Split(key, '.');
      var start := TableOf(translations, currentLanguage);
      var value := start;
      var i := 0;
      while i < |keys|
        invariant 0 <= i <= |keys|
        invariant Walk(value, keys[i..]) == Walk(start, keys)
      {
        assert keys[i..][1..] == keys[i + 1..];
        value := Prop(value, keys[i]);
        i := i + 1;
      }
      if !value.Str? {
        return key;
      }
      var result := value.s;
      var j := 0;
      while j < |interpolations|
        invariant 0 <= j <= |interpolations|
        invariant Interpolate(result, interpolations[j..]) == Interpolate(value.s, interpolations)
      {
        assert interpolations[j..][1..] == interpolations[j + 1..];
        result := ReplaceAll(result, Placeholder(interpolations[j].0), interpolations[j].1);
        j := j + 1;
      }
      return result;
    }

    function TrOf(role: string): Value
      reads this
    {
      Tr(translations, currentLanguage, role)
    }

    function TpOf(phase: string): Value
      reads this
    {
      Tp(translations, currentLanguage, phase)
    }

    /** `switchLanguage`: a listed language is taken, anything else is ignored. */
    method SwitchLanguage(language: string)
      modifies this
      ensures currentLanguage == Switched(old(currentLanguage), language)
    {
      if language in LANGUAGES {
        currentLanguage := language;
      }
    }
  }
}

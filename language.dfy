// The Kotlin language settings (src/main/kotlin/org/fuchss/deltabot/db/settings/LanguageSettings.kt)
// and the language precedence built on them (utils/extensions/LanguageExtensions.kt). The
// settings hold a set of entries, each for a user, a guild, or a user in a guild; the database
// rows of users and guilds are modelled by the ids that have been persisted.

module KotlinLanguage {
  import opened Text

  /** Language.kt:6-13. */
  datatype Language = English | Deutsch

  /** Language.toString: the name with only its first letter in upper case. */
  function LanguageName(l: Language): string {
    match l
    case English => "English"
    case Deutsch => "Deutsch"
  }

  function Locale(l: Language): string {
    match l
    case English => "en_GB"
    case Deutsch => "de_DE"
  }

  /** A LanguageDTO (db/settings/LanguageDTO.kt): for a user, a guild, or both. */
  datatype LangEntry = LangEntry(user: Option<string>, guild: Option<string>, lang: Language)

  type Key = (Option<string>, Option<string>)

  function KeyOf(e: LangEntry): Key {
    (e.user, e.guild)
  }

  /** The key of a user's global entry, of a user's entry in a guild, of a guild's entry. */
  function UserKey(u: string): Key { (Some(u), None) }
  function UserGuildKey(u: string, g: string): Key { (Some(u), Some(g)) }
  function GuildKey(g: string): Key { (None, Some(g)) }

  /** No two entries share a key. */
  predicate UniqueKeys(es: seq<LangEntry>) {
    es == [] || ((forall e :: e in es[1..] ==> KeyOf(e) != KeyOf(es[0])) && UniqueKeys(es[1..]))
  }

  /** `languages.removeIf { … }` for the entries of one key. */
  function Without(es: seq<LangEntry>, key: Key): (r: seq<LangEntry>)
    ensures forall e :: e in r <==> e in es && KeyOf(e) != key
    ensures UniqueKeys(es) ==> UniqueKeys(r)
  {
    if es == [] then []
    else if KeyOf(es[0]) == key then Without(es[1..], key)
    else [es[0]] + Without(es[1..], key)
  }

  /** `filter { kind }.associateBy { key }[key]?.language()`: associateBy keeps the last entry of
      a key. */
  function LastOf(es: seq<LangEntry>, key: Key): (r: Option<Language>)
    ensures r.Some? ==> LangEntry(key.0, key.1, r.value) in es
    ensures r.None? <==> forall e :: e in es ==> KeyOf(e) != key
  {
    if es == [] then None
    else
      match LastOf(es[1..], key)
      case Some(l) => Some(l)
      case None => if KeyOf(es[0]) == key then Some(es[0].lang) else None
  }

  /** With unique keys the entry found is the only one with the key. */
  lemma {:induction false} LastOfUnique(es: seq<LangEntry>, e: LangEntry)
    requires UniqueKeys(es) && e in es
    ensures LastOf(es, KeyOf(e)) == Some(e.lang)
  {
    if es[0] == e {
      assert forall d :: d in es[1..] ==> KeyOf(d) != KeyOf(e);
    } else {
      assert e in es[1..];
      LastOfUnique(es[1..], e);
    }
  }

  /** Appending an entry whose key is absent keeps the keys unique. */
  lemma {:induction false} UniqueSnoc(es: seq<LangEntry>, e: LangEntry)
    requires UniqueKeys(es) && forall d :: d in es ==> KeyOf(d) != KeyOf(e)
    ensures UniqueKeys(es + [e])
  {
    if es != [] {
      assert (es + [e])[1..] == es[1..] + [e];
      UniqueSnoc(es[1..], e);
    } else {
      assert [e][1..] == [];
    }
  }

  /** Removing the entries of one key leaves the lookup of every other key as it was. */
  lemma {:induction false} WithoutKeepsOthers(es: seq<LangEntry>, key: Key, other: Key)
    requires key != other
    ensures LastOf(Without(es, key), other) == LastOf(es, other)
  {
    if es != [] {
      WithoutKeepsOthers(es[1..], key, other);
      if KeyOf(es[0]) != key {
        assert ([es[0]] + Without(es[1..], key))[1..] == Without(es[1..], key);
      }
    }
  }

  /** An entry of another key at the end changes no lookup. */
  lemma {:induction false} LastOfSnoc(es: seq<LangEntry>, e: LangEntry, other: Key)
    requires KeyOf(e) != other
    ensures LastOf(es + [e], other) == LastOf(es, other)
  {
    if es == [] {
      assert [e][1..] == [];
    } else {
      assert (es + [e])[1..] == es[1..] + [e];
      LastOfSnoc(es[1..], e, other);
    }
  }

  /** The stored settings: the default language, the entries, and the ids of the users and guilds
      that have a row in the database. */
  datatype Settings = Settings(defaultLanguage: Language, languages: seq<LangEntry>, users: set<string>, guilds: set<string>)

  /** Every entry names a persisted user or guild, and no key has two entries. */
  predicate ValidSettings(st: Settings) {
    && (forall e :: e in st.languages ==> (e.user.Some? ==> e.user.value in st.users) && (e.guild.Some? ==> e.guild.value in st.guilds))
    && UniqueKeys(st.languages)
  }

  /** A user-and-guild, user or guild key whose user and guild have rows in the database. */
  predicate Known(st: Settings, key: Key) {
    && (key.0.Some? || key.1.Some?)
    && (key.0.Some? ==> key.0.value in st.users)
    && (key.1.Some? ==> key.1.value in st.guilds)
  }

  /** The lookups of LanguageSettings.kt:37-49, 82-85: nothing when the user or the guild has no
      row (findDBUser / findDBGuild return null), otherwise the entry of the key. */
  function Lookup(st: Settings, key: Key): (r: Option<Language>)
    ensures r.Some? ==> Known(st, key) && LangEntry(key.0, key.1, r.value) in st.languages
    ensures r.None? && Known(st, key) ==> forall e :: e in st.languages ==> KeyOf(e) != key
  {
    if Known(st, key) then LastOf(st.languages, key) else None
  }

  /** userToLanguage (LanguageSettings.kt:37-41). */
  function UserToLanguage(st: Settings, userId: string): Option<Language> {
    Lookup(st, UserKey(userId))
  }

  /** userAndGuildToLanguage (LanguageSettings.kt:44-49). */
  function UserAndGuildToLanguage(st: Settings, userId: string, guildId: string): Option<Language> {
    Lookup(st, UserGuildKey(userId, guildId))
  }

  /** guildToLanguage (LanguageSettings.kt:82-85). */
  function GuildToLanguage(st: Settings, guildId: string): Option<Language> {
    Lookup(st, GuildKey(guildId))
  }

  /** Who an entry concerns: a user-and-guild entry the user in that guild, a guild entry the
      guild, a user entry the user. */
  predicate Concerns(e: LangEntry, guild: Option<string>, user: Option<string>) {
    (e.user.Some? ==> e.user == user) && (e.guild.Some? ==> e.guild == guild)
  }

  /** language(guild, user) (LanguageExtensions.kt:23-39): a user's language in the guild, then
      the guild's language, then the user's global language, then the default. */
  function LanguageOf(st: Settings, guild: Option<string>, user: Option<string>): (r: Language)
    ensures r == st.defaultLanguage || exists e :: e in st.languages && e.lang == r && Concerns(e, guild, user)
  {
    var userGuild := if guild.Some? && user.Some? then UserAndGuildToLanguage(st, user.value, guild.value) else None;
    var guildLang := if guild.Some? then GuildToLanguage(st, guild.value) else None;
    var userLang := if user.Some? then UserToLanguage(st, user.value) else None;
    if userGuild.Some? then userGuild.value
    else if guildLang.Some? then guildLang.value
    else if userLang.Some? then userLang.value
    else st.defaultLanguage
  }

  /** The order of precedence, as properties of the lookups: a user's language in a guild wins
      there; a guild's language wins over a user's global language; a user's global language wins
      over the default; and with nothing set the default applies. */
  lemma LanguagePrecedence(st: Settings, guild: string, user: string)
    ensures UserAndGuildToLanguage(st, user, guild).Some? ==>
              LanguageOf(st, Some(guild), Some(user)) == UserAndGuildToLanguage(st, user, guild).value
    ensures UserAndGuildToLanguage(st, user, guild).None? && GuildToLanguage(st, guild).Some? ==>
              LanguageOf(st, Some(guild), Some(user)) == GuildToLanguage(st, guild).value
    ensures UserAndGuildToLanguage(st, user, guild).None? && GuildToLanguage(st, guild).None? ==>
              LanguageOf(st, Some(guild), Some(user)) == LanguageOf(st, None, Some(user))
    ensures LanguageOf(st, None, Some(user)) == if UserToLanguage(st, user).Some? then UserToLanguage(st, user).value else st.defaultLanguage
    ensures LanguageOf(st, None, None) == st.defaultLanguage
  {
  }

  /** The removals (LanguageSettings.kt:60-71, 87-91): the entries of one key go. The source
      returns early for a user or guild without a row; such a key has no entries, so this is
      the same. */
  function Removed(st: Settings, key: Key): Settings {
    st.(languages := Without(st.languages, key))
  }

  /** The set operations (LanguageSettings.kt:52-58, 73-80, 93-99): the old entry of the key goes,
      the user and guild rows are created when missing, and one new entry is added. */
  function Assigned(st: Settings, e: LangEntry): Settings {
    st.(languages := Without(st.languages, KeyOf(e)) + [e],
        users := st.users + (if e.user.Some? then {e.user.value} else {}),
        guilds := st.guilds + (if e.guild.Some? then {e.guild.value} else {}))
  }

  /** A removal keeps the settings valid and clears its key. */
  lemma RemovedClears(st: Settings, key: Key)
    requires ValidSettings(st)
    ensures ValidSettings(Removed(st, key))
    ensures Lookup(Removed(st, key), key) == None
  {
    var r := Without(st.languages, key);
    assert LastOf(r, key) == None;
  }

  /** A removal changes no other key's lookup. */
  lemma RemovedLookups(st: Settings, key: Key, other: Key)
    requires other != key
    ensures Lookup(Removed(st, key), other) == Lookup(st, other)
  {
    WithoutKeepsOthers(st.languages, key, other);
  }

  /** Setting keeps the settings valid, and its key reads the new language. */
  lemma AssignedReads(st: Settings, e: LangEntry)
    requires ValidSettings(st) && (e.user.Some? || e.guild.Some?)
    ensures ValidSettings(Assigned(st, e))
    ensures Lookup(Assigned(st, e), KeyOf(e)) == Some(e.lang)
  {
    var rest := Without(st.languages, KeyOf(e));
    UniqueSnoc(rest, e);
    LastOfUnique(rest + [e], e);
  }

  /** Setting changes no other key's lookup: a user or guild row it creates had no entries. */
  lemma AssignedLookups(st: Settings, e: LangEntry, other: Key)
    requires ValidSettings(st) && other != KeyOf(e)
    ensures Lookup(Assigned(st, e), other) == Lookup(st, other)
  {
    WithoutKeepsOthers(st.languages, KeyOf(e), other);
    LastOfSnoc(Without(st.languages, KeyOf(e)), e, other);
    if !Known(st, other) && other != (None, None) {
      assert LastOf(st.languages, other) == None;
    }
  }

  class LanguageSettings {
    /** defaultLanguageName (LanguageSettings.kt:30), ENGLISH unless changed. */
    var defaultLanguage: Language
    var languages: seq<LangEntry>
    var users: set<string>
    var guilds: set<string>

    function State(): Settings
      reads this
    {
      Settings(defaultLanguage, languages, users, guilds)
    }

    ghost predicate Valid()
      reads this
    {
      ValidSettings(State())
    }

    /** The settings created when none are stored (LanguageExtensions.kt:16). */
    constructor(users: set<string>, guilds: set<string>)
      ensures Valid()
      ensures State() == Settings(English, [], users, guilds)
    {
      defaultLanguage := English;
      languages := [];
      this.users := users;
      this.guilds := guilds;
    }

    method RemoveKey(key: Key)
      requires Valid()
      modifies this
      ensures Valid()
      ensures State() == Removed(old(State()), key)
    {
      RemovedClears(State(), key);
      languages := Without(languages, key);
    }

    method SetKey(e: LangEntry)
      requires Valid() && (e.user.Some? || e.guild.Some?)
      modifies this
      ensures Valid()
      ensures State() == Assigned(old(State()), e)
    {
      AssignedReads(State(), e);
      languages := Without(languages, KeyOf(e)) + [e];
      if e.user.Some? {
        users := users + {e.user.value};
      }
      if e.guild.Some? {
        guilds := guilds + {e.guild.value};
      }
    }
  }

  /** The state after a setLanguage call: null removes, a language sets. */
  function AfterSetLanguage(st: Settings, key: Key, language: Option<Language>): Settings {
    if language.None? then Removed(st, key) else Assigned(st, LangEntry(key.0, key.1, language.value))
  }

  /** User.setLanguage(language) (LanguageExtensions.kt:54-59). */
  method SetUserLanguage(s: LanguageSettings, userId: string, language: Option<Language>)
    requires s.Valid()
    modifies s
    ensures s.Valid()
    ensures s.State() == AfterSetLanguage(old(s.State()), UserKey(userId), language)
  {
    if language.None? {
      s.RemoveKey(UserKey(userId));
    } else {
      s.SetKey(LangEntry(Some(userId), None, language.value));
    }
  }

  /** User.setLanguage(language, guild) (LanguageExtensions.kt:64-69). */
  method SetUserGuildLanguage(s: LanguageSettings, userId: string, guildId: string, language: Option<Language>)
    requires s.Valid()
    modifies s
    ensures s.Valid()
    ensures s.State() == AfterSetLanguage(old(s.State()), UserGuildKey(userId, guildId), language)
  {
    if language.None? {
      s.RemoveKey(UserGuildKey(userId, guildId));
    } else {
      s.SetKey(LangEntry(Some(userId), Some(guildId), language.value));
    }
  }

  /** Guild.setLanguage(language) (LanguageExtensions.kt:79-84). */
  method SetGuildLanguage(s: LanguageSettings, guildId: string, language: Option<Language>)
    requires s.Valid()
    modifies s
    ensures s.Valid()
    ensures s.State() == AfterSetLanguage(old(s.State()), GuildKey(guildId), language)
  {
    if language.None? {
      s.RemoveKey(GuildKey(guildId));
    } else {
      s.SetKey(LangEntry(None, Some(guildId), language.value));
    }
  }

  /** After a user sets a global language, the user reads it outside guilds (and the default
      after removing it); after setting a language in a guild, the user reads it there whatever
      else is set; after a guild sets a language, every user without an override there reads it. */
  lemma SetLanguageIsRead(st: Settings, user: string, guild: string, language: Option<Language>)
    requires ValidSettings(st)
    ensures LanguageOf(AfterSetLanguage(st, UserKey(user), language), None, Some(user)) ==
              if language.Some? then language.value else st.defaultLanguage
    ensures language.Some? ==> LanguageOf(AfterSetLanguage(st, UserGuildKey(user, guild), language), Some(guild), Some(user)) == language.value
    ensures language.Some? && UserAndGuildToLanguage(st, user, guild).None? ==>
              LanguageOf(AfterSetLanguage(st, GuildKey(guild), language), Some(guild), Some(user)) == language.value
  {
    if language.None? {
      RemovedClears(st, UserKey(user));
    } else {
      var l := language.value;
      AssignedReads(st, LangEntry(Some(user), None, l));
      AssignedReads(st, LangEntry(Some(user), Some(guild), l));
      AssignedReads(st, LangEntry(None, Some(guild), l));
      AssignedLookups(st, LangEntry(None, Some(guild), l), UserGuildKey(user, guild));
    }
  }
}

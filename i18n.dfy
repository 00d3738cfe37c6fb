/**
 * The message catalogue of lib/i18n.js: the choice of interface language
 * from the environment, `setLanguage`, and `t`, which looks a key up in the
 * current language's messages and fills in `{name}` placeholders.
 */
module I18n {
  import opened Wrappers

  /** `process.env.LANG || process.env.LANGUAGE || process.env.LC_ALL ||
      process.env.LC_MESSAGES`, with an unset variable passed as "": the
      first non-empty one, or "" when there is none. */
  function EnvLang(lang: string, language: string, lcAll: string, lcMessages: string): (r: string)
    ensures r == "" <==> lang == "" && language == "" && lcAll == "" && lcMessages == ""
    ensures var vars := [lang, language, lcAll, lcMessages];
            r == "" || exists i :: 0 <= i < 4 && vars[i] == r && forall k :: 0 <= k < i ==> vars[k] == ""
  {
    var vars := [lang, language, lcAll, lcMessages];
    if lang != "" then assert vars[0] == lang; lang
    else if language != "" then assert vars[1] == language; language
    else if lcAll != "" then assert vars[2] == lcAll; lcAll
    else assert vars[3] == lcMessages; lcMessages
  }

  /** `s.split('_')[0]`: the part of `s` before its first underscore. */
  function BeforeUnderscore(s: string): (r: string)
    ensures r <= s
    ensures '_' !in r
    ensures |r| < |s| ==> s[|r|] == '_'
  {
    if s == [] || s[0] == '_' then [] else [s[0]] + BeforeUnderscore(s[1..])
  }

  function LowerChar(c: char): char
  {
    if 'A' <= c <= 'Z' then (c as int + 32) as char else c
  }

  /** `toLowerCase`, on the ASCII letters. */
  function ToLower(s: string): string
  {
    seq(|s|, i requires 0 <= i < |s| => LowerChar(s[i]))
  }

  /** A language tag that lower-cases to "zh". */
  predicate IsZhTag(t: string)
  {
    |t| == 2 && (t[0] == 'z' || t[0] == 'Z') && (t[1] == 'h' || t[1] == 'H')
  }

  lemma LowerIsZh(t: string)
    ensures ToLower(t) == "zh" <==> IsZhTag(t)
  {
    var lower := ToLower(t);
    if lower == "zh" {
      assert lower[0] == LowerChar(t[0]) && lower[1] == LowerChar(t[1]);
    }
    if IsZhTag(t) {
      assert ToLower(t) == [LowerChar(t[0]), LowerChar(t[1])];
    }
  }

  /** `getSystemLanguage`: "zh" exactly when the first non-empty locale
      variable names Chinese before its first underscore, in either case;
      "en" otherwise, including when no variable is set. */
  function SystemLanguage(lang: string, language: string, lcAll: string, lcMessages: string): (r: string)
    ensures r == "zh" || r == "en"
    ensures r == "zh" <==> IsZhTag(BeforeUnderscore(EnvLang(lang, language, lcAll, lcMessages)))
  {
    var envLang := EnvLang(lang, language, lcAll, lcMessages);
    if envLang != "" then
      LowerIsZh(BeforeUnderscore(envLang));
      if ToLower(BeforeUnderscore(envLang)) == "zh" then "zh" else "en"
    else "en"
  }

  /** A set LANG hides the other variables; a region given with a hyphen
      instead of an underscore is not recognised as Chinese. */
  lemma SystemLanguageExamples()
    ensures SystemLanguage("zh_CN", "", "", "") == "zh"
    ensures SystemLanguage("en_US", "zh_CN", "", "") == "en"
    ensures SystemLanguage("zh-CN", "", "", "") == "en"
  {
  }

  /** A match of `pat` in `s` starting at index `k`. */
  predicate OccursAt(s: string, pat: string, k: int)
  {
    0 <= k && k + |pat| <= |s| && s[k..k + |pat|] == pat
  }

  /** The first match of `pat` in `s` at or after `from`. */
  function IndexFrom(s: string, pat: string, from: nat): (r: Option<nat>)
    decreases |s| - from
    ensures r.Some? ==> from <= r.value && OccursAt(s, pat, r.value)
    ensures r.Some? ==> forall j :: from <= j < r.value ==> !OccursAt(s, pat, j)
    ensures r.None? ==> forall j :: from <= j ==> !OccursAt(s, pat, j)
  {
    if from + |pat| > |s| then None
    else if s[from..from + |pat|] == pat then Some(from)
    else IndexFrom(s, pat, from + 1)
  }

  /** The replacement text of `String.prototype.replace` with a string
      pattern: `$$` is a dollar sign, `$&` the match, `` $` `` the text
      before it and `$'` the text after it; any other `$` is literal. */
  function Expand(rep: string, matched: string, before: string, after: string): string
  {
    if rep == [] then []
    else if rep[0] == '$' && |rep| >= 2 && rep[1] == '$' then "$" + Expand(rep[2..], matched, before, after)
    else if rep[0] == '$' && |rep| >= 2 && rep[1] == '&' then matched + Expand(rep[2..], matched, before, after)
    else if rep[0] == '$' && |rep| >= 2 && rep[1] == '`' then before + Expand(rep[2..], matched, before, after)
    else if rep[0] == '$' && |rep| >= 2 && rep[1] == '\'' then after + Expand(rep[2..], matched, before, after)
    else [rep[0]] + Expand(rep[1..], matched, before, after)
  }

  /** A replacement without `$` is inserted as it is. */
  lemma {:induction false} ExpandPlain(rep: string, matched: string, before: string, after: string)
    requires '$' !in rep
    ensures Expand(rep, matched, before, after) == rep
  {
    if rep != [] {
      assert rep[0] != '$';
      ExpandPlain(rep[1..], matched, before, after);
      assert rep == [rep[0]] + rep[1..];
    }
  }

  /** `s.replace(pat, rep)` with a string `pat`: only the first match is
      replaced. */
  function ReplaceFirst(s: string, pat: string, rep: string): string
  {
    match IndexFrom(s, pat, 0)
    case None => s
    case Some(k) =>
      s[..k] + Expand(rep, pat, s[..k], s[k + |pat|..]) + s[k + |pat|..]
  }

  /** The first match is replaced by the plain replacement text and the
      rest of the string is kept. */
  lemma ReplaceFirstAt(s: string, pat: string, rep: string, k: nat)
    requires '$' !in rep
    requires OccursAt(s, pat, k) && forall j :: 0 <= j < k ==> !OccursAt(s, pat, j)
    ensures ReplaceFirst(s, pat, rep) == s[..k] + rep + s[k + |pat|..]
  {
    assert IndexFrom(s, pat, 0) == Some(k);
    ExpandPlain(rep, pat, s[..k], s[k + |pat|..]);
  }

  /** Without a match the string is returned unchanged. */
  lemma ReplaceFirstAbsent(s: string, pat: string, rep: string)
    requires forall j :: 0 <= j ==> !OccursAt(s, pat, j)
    ensures ReplaceFirst(s, pat, rep) == s
  {
  }

  /** A later, non-overlapping match survives the replacement, shifted by
      the difference in length. */
  lemma ReplaceFirstKeepsLater(s: string, pat: string, rep: string, k: nat, later: nat)
    requires '$' !in rep
    requires OccursAt(s, pat, k) && forall j :: 0 <= j < k ==> !OccursAt(s, pat, j)
    requires OccursAt(s, pat, later) && k + |pat| <= later
    ensures OccursAt(ReplaceFirst(s, pat, rep), pat, later - |pat| + |rep|)
  {
    ReplaceFirstAt(s, pat, rep, k);
    var r := s[..k] + rep + s[k + |pat|..];
    var p := later - |pat| + |rep|;
    assert r[p..p + |pat|] == s[later..later + |pat|];
  }

  /** The placeholder `{name}` of a parameter. */
  function Placeholder(name: string): string
  {
    "{" + name + "}"
  }

  /** The parameters of `t`, in the order `Object.keys` lists them, applied
      one after the other to the message. */
  function ApplyParams(message: string, params: seq<(string, string)>): string
    decreases |params|
  {
    if params == [] then message
    else ApplyParams(ReplaceFirst(message, Placeholder(params[0].0), params[0].1), params[1..])
  }

  /** Parameters whose placeholders do not occur leave the message as it
      is. */
  lemma {:induction false} ApplyParamsAbsent(message: string, params: seq<(string, string)>)
    requires forall p, j :: p in params && 0 <= j ==> !OccursAt(message, Placeholder(p.0), j)
    ensures ApplyParams(message, params) == message
  {
    if params != [] {
      ReplaceFirstAbsent(message, Placeholder(params[0].0), params[0].1);
      assert forall p :: p in params[1..] ==> p in params;
      ApplyParamsAbsent(message, params[1..]);
    }
  }

  /** `langMessages[key] || key`: the message, or the key itself when the
      message is missing or empty. */
  function MessageFor(table: map<string, string>, key: string): (r: string)
    ensures r == "" ==> key == ""
    ensures key in table && table[key] != "" ==> r == table[key]
    ensures !(key in table && table[key] != "") ==> r == key
  {
    if key in table && table[key] != "" then table[key] else key
  }

  /** The module's state: the loaded message tables by language and the
      current language. */
  class Localizer {
    const messages: map<string, map<string, string>>
    var currentLang: string

    ghost predicate Valid()
      reads this
    {
      currentLang == "zh" || currentLang == "en"
    }

    /** Loading the module: the current language comes from the
        environment. */
    constructor (messages: map<string, map<string, string>>, lang: string, language: string, lcAll: string, lcMessages: string)
      ensures this.messages == messages
      ensures currentLang == SystemLanguage(lang, language, lcAll, lcMessages)
      ensures Valid()
    {
      this.messages := messages;
      currentLang := SystemLanguage(lang, language, lcAll, lcMessages);
    }

    /** `setLanguage`: "zh" selects Chinese, anything else English. */
    method SetLanguage(lang: string)
      modifies this
      ensures Valid()
      ensures currentLang == "zh" <==> lang == "zh"
    {
      currentLang := if lang == "zh" then "zh" else "en";
    }

    /** `messages[currentLang] || messages.en`; None where `t` would fail
        on an undefined table. */
    function LangMessages(): (r: Option<map<string, string>>)
      reads this
      ensures r.None? <==> currentLang !in messages && "en" !in messages
      ensures r.Some? && currentLang !in messages ==> r.value == messages["en"]
      ensures currentLang in messages ==> r == Some(messages[currentLang])
    {
      if currentLang in messages then Some(messages[currentLang])
      else if "en" in messages then Some(messages["en"])
      else None
    }

    /** `t(key, params)`. */
    method Translate(key: string, params: seq<(string, string)>) returns (r: Option<string>)
      ensures LangMessages().None? ==> r.None?
      ensures LangMessages().Some? ==> r == Some(ApplyParams(MessageFor(LangMessages().value, key), params))
    {
      var langMessages := LangMessages();
      if langMessages.None? {
        return None;
      }
      var message := MessageFor(langMessages.value, key);
      var i := 0;
      while i < |params|
        invariant 0 <= i <= |params|
        invariant ApplyParams(message, params[i..]) == ApplyParams(MessageFor(langMessages.value, key), params)
      {
        assert params[i..][1..] == params[i + 1..];
        message := ReplaceFirst(message, Placeholder(params[i].0), params[i].1);
        i := i + 1;
      }
      return Some(message);
    }
  }
}

/** The deployment-mode predicates over the APP_ENV environment variable.
    The process environment is passed in as a map instead of being read. */
module Config {

  const AppEnv: string := "APP_ENV"

  /** `os.environ.get("APP_ENV", "")` */
  function EnvValue(env: map<string, string>): (v: string) {
    if AppEnv in env then env[AppEnv] else ""
  }

  function LowerChar(c: char): (l: char) {
    if 'A' <= c <= 'Z' then ((c as int) - ('A' as int) + ('a' as int)) as char else c
  }

  /** ASCII lower-casing, character by character. */
  function Lower(s: string): (r: string)
    ensures |r| == |s|
    ensures forall i :: 0 <= i < |s| ==> r[i] == LowerChar(s[i])
  {
    seq(|s|, i requires 0 <= i < |s| => LowerChar(s[i]))
  }

  /** `value.lower() in ("dev", "development")` */
  predicate IsDev(env: map<string, string>) {
    Lower(EnvValue(env)) in ["dev", "development"]
  }

  /** `value.lower() in ("prod", "production")` */
  predicate IsProd(env: map<string, string>) {
    Lower(EnvValue(env)) in ["prod", "production"]
  }

  // ---------------------------------------------------------------------
  // A reference definition of the match: character-wise comparison that
  // ignores case, against a lower-case target word.

  predicate IsLowerWord(w: string) {
    forall i :: 0 <= i < |w| ==> 'a' <= w[i] <= 'z'
  }

  /** c is the capital letter of the lower-case letter w. */
  predicate IsCapitalOf(c: char, w: char) {
    'A' <= c <= 'Z' && (c as int) - ('A' as int) == (w as int) - ('a' as int)
  }

  predicate EqualsIgnoringCase(s: string, word: string) {
    |s| == |word| && forall i :: 0 <= i < |s| ==> s[i] == word[i] || IsCapitalOf(s[i], word[i])
  }

  lemma LowerMatchesWord(s: string, word: string)
    requires IsLowerWord(word)
    ensures Lower(s) == word <==> EqualsIgnoringCase(s, word)
  {
    if EqualsIgnoringCase(s, word) {
      assert forall i :: 0 <= i < |s| ==> Lower(s)[i] == word[i];
    }
    if Lower(s) == word {
      forall i | 0 <= i < |s|
        ensures s[i] == word[i] || IsCapitalOf(s[i], word[i])
      {
        assert LowerChar(s[i]) == word[i];
      }
    }
  }

  /** is_dev holds exactly when the value spells "dev" or "development" in any mix of cases. */
  lemma IsDevIgnoresCase(env: map<string, string>)
    ensures IsDev(env) <==> EqualsIgnoringCase(EnvValue(env), "dev") || EqualsIgnoringCase(EnvValue(env), "development")
  {
    LowerMatchesWord(EnvValue(env), "dev");
    LowerMatchesWord(EnvValue(env), "development");
  }

  /** is_prod holds exactly when the value spells "prod" or "production" in any mix of cases. */
  lemma IsProdIgnoresCase(env: map<string, string>)
    ensures IsProd(env) <==> EqualsIgnoringCase(EnvValue(env), "prod") || EqualsIgnoringCase(EnvValue(env), "production")
  {
    LowerMatchesWord(EnvValue(env), "prod");
    LowerMatchesWord(EnvValue(env), "production");
  }

  /** An unset APP_ENV reads as the empty string: neither mode. */
  lemma UnsetIsNeither(env: map<string, string>)
    requires AppEnv !in env
    ensures !IsDev(env) && !IsProd(env)
  {
    assert Lower(EnvValue(env)) == "";
  }

  /** No value is both a development and a production value. */
  lemma NeverBoth(env: map<string, string>)
    ensures !(IsDev(env) && IsProd(env))
  {
    var v := Lower(EnvValue(env));
    if IsDev(env) {
      assert v[0] == 'd';
    }
  }

  /** A character that is not a letter anywhere in the value, such as a
      surrounding space, rules out both modes: nothing is trimmed. */
  lemma NonLetterIsNeither(env: map<string, string>, i: nat)
    requires i < |EnvValue(env)|
    requires !('a' <= LowerChar(EnvValue(env)[i]) <= 'z')
    ensures !IsDev(env) && !IsProd(env)
  {
    var v := Lower(EnvValue(env));
    assert v[i] == LowerChar(EnvValue(env)[i]);
    assert !IsLowerWord(v);
  }

  lemma CaseExamples()
    ensures IsDev(map[AppEnv := "DEV"])
    ensures IsProd(map[AppEnv := "Production"])
    ensures !IsDev(map[AppEnv := " dev"]) && !IsProd(map[AppEnv := " dev"])
  {
    IsDevIgnoresCase(map[AppEnv := "DEV"]);
    IsProdIgnoresCase(map[AppEnv := "Production"]);
    NonLetterIsNeither(map[AppEnv := " dev"], 0);
  }
}

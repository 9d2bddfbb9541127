/** Choosing the language to request from a speech-to-text provider: the
    requested language or the host default, kept as it is when the provider
    accepts it, replaced by the provider's first language only when the caller
    asked for none, and refused otherwise. */
module Language {
  import opened Types

  /** The host's `language_util.matches(candidate, supported)`: whether the
      candidate names one of the supported languages, regional variants
      included. Its rules are not part of this model, so every operation takes
      it as a parameter and every property holds for any such relation. */
  type Matcher = (string, seq<string>) -> bool

  /** `language or host_default`: an absent or empty request means the default. */
  function Candidate(requested: Option<string>, hostDefault: string): string
  {
    if Present(requested) then requested.value else hostDefault
  }

  function Resolve(requested: Option<string>, hostDefault: string, supported: seq<string>, matches: Matcher)
    : (r: Result<string, Failure>)
    ensures var c := Candidate(requested, hostDefault);
      && (r.Ok? <==> matches(c, supported) || (requested.None? && |supported| > 0))
      && (r.Ok? && matches(c, supported) ==> r.value == c)
      && (r.Ok? && !matches(c, supported) ==> r.value == supported[0])
      && (r.Err? ==> r.error == UnsupportedLanguage(c, supported))
  {
    var target := Candidate(requested, hostDefault);
    if matches(target, supported) then Ok(target)
    else if requested.None? && |supported| > 0 then Ok(supported[0])
    else Err(UnsupportedLanguage(target, supported))
  }

  /** With no language requested, resolution never fails on a non-empty list,
      and what it picks is either the accepted default or a listed language. */
  lemma FallbackAlwaysSucceeds(hostDefault: string, supported: seq<string>, matches: Matcher)
    requires |supported| > 0
    ensures var r := Resolve(None, hostDefault, supported, matches);
      r.Ok? && ((r.value == hostDefault && matches(hostDefault, supported)) || r.value in supported)
  {
  }

  /** An empty-string request falls back to the host default like an absent
      one, but an unaccepted default is then an error, never replaced. */
  lemma EmptyRequestNeverFallsBack(hostDefault: string, supported: seq<string>, matches: Matcher)
    ensures Resolve(Some(""), hostDefault, supported, matches)
         == if matches(hostDefault, supported) then Ok(hostDefault)
            else Err(UnsupportedLanguage(hostDefault, supported))
  {
  }

  /** An explicit language is sent exactly as requested or refused: it is never
      replaced by a list entry, not even by the variant it matched. */
  lemma ExplicitRequestKeptOrRefused(language: string, hostDefault: string, supported: seq<string>, matches: Matcher)
    requires language != ""
    ensures Resolve(Some(language), hostDefault, supported, matches)
         == if matches(language, supported) then Ok(language)
            else Err(UnsupportedLanguage(language, supported))
  {
  }

  /** A matcher that accepts nothing from an empty list makes every request
      fail against it, the implicit default included. */
  lemma EmptyListRefuses(requested: Option<string>, hostDefault: string, matches: Matcher)
    requires !matches(Candidate(requested, hostDefault), [])
    ensures Resolve(requested, hostDefault, [], matches) == Err(UnsupportedLanguage(Candidate(requested, hostDefault), []))
  {
  }

  /** A base code that matches a region-qualified entry is sent as the base
      code: `"en"` against `["en-US", "fr"]` resolves to `"en"`. */
  lemma VariantMatchKeepsCandidate(matches: Matcher)
    requires matches("en", ["en-US", "fr"])
    ensures Resolve(None, "en", ["en-US", "fr"], matches) == Ok("en")
  {
  }
}

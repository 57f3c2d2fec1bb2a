/**
 * The rendering decisions of `generateRepoCard` and `generateGistCard`:
 * the caller's theme laid over the default theme, the fallback chosen for
 * each placeholder, and the chain of first-occurrence replacements that
 * fills the SVG template.
 *
 * The JSON records come in already decoded; the star and fork counts and
 * the update date come in already formatted.
 */
module Cards {
  import opened Wrappers
  import opened JsString

  /** A theme: colour names to CSS colour values. */
  type Theme = map<string, string>

  /** The theme a card uses for every colour the caller does not give. */
  const DEFAULT_THEME: Theme := map[
    "cardBackground" := "#0d1117",
    "cardBorder" := "#3d444d",
    "titleColor" := "#4493f8",
    "textColor" := "#9198a1",
    "codeBackground" := "#151b23",
    "codeColor" := "#ffffff"
  ]

  const NO_DESCRIPTION := "No description"
  const UNKNOWN_LANGUAGE := "Unknown"
  const WHITE := "#ffffff"
  const NO_CONTENT := "No content available"

  /**
   * Object spread of the defaults, then of the caller's theme: every key
   * the caller gives takes the caller's value, every other key keeps its
   * default.
   */
  function MergeTheme(defaults: Theme, overrides: Theme): (r: Theme)
    ensures r.Keys == defaults.Keys + overrides.Keys
    ensures forall k :: k in overrides ==> r[k] == overrides[k]
    ensures forall k :: k in defaults && k !in overrides ==> r[k] == defaults[k]
  {
    defaults + overrides
  }

  /** The merged theme has every colour a template asks for, whatever the caller gives. */
  lemma MergedThemeIsComplete(overrides: Theme)
    ensures DEFAULT_THEME.Keys <= MergeTheme(DEFAULT_THEME, overrides).Keys
    ensures MergeTheme(DEFAULT_THEME, map[]) == DEFAULT_THEME
  {
  }

  /** The theme colours, in the order the templates use them. */
  const THEME_KEYS: seq<string> := [
    "cardBackground", "cardBorder", "titleColor", "textColor", "codeBackground", "codeColor"
  ]

  /** The colour a card uses for `key`: the caller's if given, the default otherwise. */
  function ThemeColor(theme: Theme, key: string): string
    requires key in DEFAULT_THEME
  {
    if key in theme then theme[key] else DEFAULT_THEME[key]
  }

  /** The first `n` theme colours a template uses, after the merge. */
  function ThemeColors(theme: Theme, n: nat): (r: seq<string>)
    requires n <= |THEME_KEYS|
    ensures |r| == n && forall k :: 0 <= k < n ==> r[k] == ThemeColor(theme, THEME_KEYS[k])
  {
    var finalTheme := MergeTheme(DEFAULT_THEME, theme);
    assert forall k :: 0 <= k < |THEME_KEYS| ==> THEME_KEYS[k] in DEFAULT_THEME;
    seq(n, k requires 0 <= k < n => finalTheme[THEME_KEYS[k]])
  }

  /** A nullable JSON string is truthy unless it is null or empty. */
  predicate Truthy(v: Option<string>)
  {
    v.Some? && v.value != ""
  }

  /** JavaScript's logical or of a nullable string `v` with a string `fallback`. */
  function OrElse(v: Option<string>, fallback: string): (r: string)
    ensures Truthy(v) ==> r == v.value
    ensures !Truthy(v) ==> r == fallback
  {
    if Truthy(v) then v.value else fallback
  }

  /** The colour table: language name to its `color` member, which may be null. */
  type ColorTable = map<string, Option<string>>

  /**
   * The colour of the language badge: the table's colour for a truthy
   * language whose entry has a truthy colour, white otherwise.
   */
  function LanguageColor(language: Option<string>, colors: ColorTable): (r: string)
    ensures Truthy(language) && language.value in colors && Truthy(colors[language.value]) ==>
      r == colors[language.value].value
    ensures !Truthy(language) || language.value !in colors || !Truthy(colors[language.value]) ==>
      r == WHITE
  {
    if !Truthy(language) then WHITE
    else if language.value !in colors then WHITE
    else OrElse(colors[language.value], WHITE)
  }

  /** The repository record the card reads. */
  datatype Repo = Repo(htmlUrl: string, ownerLogin: string, name: string,
                       description: Option<string>, language: Option<string>)

  /** The repository card's placeholders, in the order they are replaced. */
  const REPO_PLACEHOLDERS: seq<string> := [
    "{{cardBackground}}", "{{cardBorder}}", "{{titleColor}}", "{{textColor}}",
    "{{url}}", "{{owner}}", "{{name}}", "{{description}}", "{{language}}",
    "{{languageColor}}", "{{stars}}", "{{forks}}", "{{updatedAt}}"
  ]

  /**
   * The value each repository placeholder receives; `stars`, `forks` and
   * `updatedAt` are the already formatted counts and date.
   */
  function RepoValues(theme: Theme, colors: ColorTable, repo: Repo,
                      stars: string, forks: string, updatedAt: string): (vs: seq<string>)
    ensures |vs| == |REPO_PLACEHOLDERS|
    ensures forall k :: 0 <= k < 4 ==> vs[k] == ThemeColor(theme, THEME_KEYS[k])
    ensures vs[4..7] == [repo.htmlUrl, repo.ownerLogin, repo.name]
    ensures vs[7] == OrElse(repo.description, NO_DESCRIPTION)
    ensures vs[8] == OrElse(repo.language, UNKNOWN_LANGUAGE)
    ensures vs[9] == LanguageColor(repo.language, colors)
    ensures vs[10..] == [stars, forks, updatedAt]
  {
    ThemeColors(theme, 4) + [
      repo.htmlUrl, repo.ownerLogin, repo.name,
      OrElse(repo.description, NO_DESCRIPTION),
      OrElse(repo.language, UNKNOWN_LANGUAGE),
      LanguageColor(repo.language, colors),
      stars, forks, updatedAt
    ]
  }

  /** The repository card: the template with the placeholder chain applied. */
  function RepoCard(template: string, theme: Theme, colors: ColorTable, repo: Repo,
                    stars: string, forks: string, updatedAt: string): (svg: string)
    ensures (forall k: nat, j: nat :: k < |REPO_PLACEHOLDERS| ==> !OccursAt(template, REPO_PLACEHOLDERS[k], j)) ==>
      svg == template
  {
    ReplaceChain(template, REPO_PLACEHOLDERS, RepoValues(theme, colors, repo, stars, forks, updatedAt))
  }

  lemma PlaceholdersStartWithBrace(placeholders: seq<string>)
    requires placeholders == REPO_PLACEHOLDERS || placeholders == GIST_PLACEHOLDERS
    ensures forall k :: 0 <= k < |placeholders| ==> |placeholders[k]| > 0 && placeholders[k][0] == '{'
  {
  }

  /**
   * A template holding each placeholder once, in order, between literal
   * texts without '{', renders as those texts around the chosen values,
   * provided no value contains '{' or '$'.
   */
  lemma RepoCardFillsSlots(texts: seq<string>, theme: Theme, colors: ColorTable, repo: Repo,
                           stars: string, forks: string, updatedAt: string)
    requires |texts| == |REPO_PLACEHOLDERS| + 1
    requires forall k :: 0 <= k < |texts| ==> '{' !in texts[k]
    requires var vs := RepoValues(theme, colors, repo, stars, forks, updatedAt);
      forall k :: 0 <= k < |vs| ==> '{' !in vs[k] && '$' !in vs[k]
    ensures RepoCard(Weave(texts, REPO_PLACEHOLDERS), theme, colors, repo, stars, forks, updatedAt)
      == Weave(texts, RepoValues(theme, colors, repo, stars, forks, updatedAt))
  {
    PlaceholdersStartWithBrace(REPO_PLACEHOLDERS);
    ReplaceChainFillsSlots(texts, REPO_PLACEHOLDERS, RepoValues(theme, colors, repo, stars, forks, updatedAt));
  }

  /** One file of a gist, as in its `files` object. */
  datatype GistFile = GistFile(filename: string, content: Option<string>)

  /**
   * The gist record the card reads; `files` lists the gist's files in the
   * order `Object.keys` enumerates them.
   */
  datatype Gist = Gist(htmlUrl: string, ownerLogin: Option<string>,
                       description: Option<string>, files: seq<GistFile>)

  /** The TypeError thrown when a property of null or undefined is read. */
  datatype CardError = TypeError(reading: string)

  /** The gist's title: its description when truthy, else the first file's name; the files are read only when the description is falsy. */
  function GistName(g: Gist): (r: Result<string, CardError>)
    ensures Truthy(g.description) ==> r == Success(g.description.value)
    ensures !Truthy(g.description) && g.files != [] ==> r == Success(g.files[0].filename)
    ensures !Truthy(g.description) && g.files == [] ==> r == Failure(TypeError("filename"))
  {
    if Truthy(g.description) then Success(g.description.value)
    else if g.files == [] then Failure(TypeError("filename"))
    else Success(g.files[0].filename)
  }

  /** The code shown on the gist card: the first file's content when truthy, else NO_CONTENT. */
  function GistContent(g: Gist): (r: Result<string, CardError>)
    ensures g.files == [] ==> r == Failure(TypeError("content"))
    ensures g.files != [] ==> r == Success(OrElse(g.files[0].content, NO_CONTENT))
  {
    if g.files == [] then Failure(TypeError("content"))
    else Success(OrElse(g.files[0].content, NO_CONTENT))
  }

  /** The gist card's placeholders, in the order they are replaced. */
  const GIST_PLACEHOLDERS: seq<string> := [
    "{{cardBackground}}", "{{cardBorder}}", "{{titleColor}}", "{{textColor}}",
    "{{codeBackground}}", "{{codeColor}}", "{{url}}", "{{owner}}", "{{name}}",
    "{{content}}"
  ]

  /**
   * The value each gist placeholder receives, or the TypeError the first
   * missing property raises: the owner's login, then the name, then the
   * content of the first file.
   */
  function GistValues(theme: Theme, g: Gist): (r: Result<seq<string>, CardError>)
    ensures r.Failure? <==> g.ownerLogin.None? || g.files == []
    ensures g.ownerLogin.None? ==> r == Failure(TypeError("login"))
    ensures g.ownerLogin.Some? && g.files == [] && !Truthy(g.description) ==> r == Failure(TypeError("filename"))
    ensures g.ownerLogin.Some? && g.files == [] && Truthy(g.description) ==> r == Failure(TypeError("content"))
    ensures r.Success? ==> (
      && |r.value| == |GIST_PLACEHOLDERS|
      && (forall k :: 0 <= k < 6 ==> r.value[k] == ThemeColor(theme, THEME_KEYS[k]))
      && r.value[6] == g.htmlUrl
      && r.value[7] == g.ownerLogin.value
      && r.value[8] == (if Truthy(g.description) then g.description.value else g.files[0].filename)
      && r.value[9] == OrElse(g.files[0].content, NO_CONTENT))
  {
    if g.ownerLogin.None? then Failure(TypeError("login"))
    else match GistName(g)
      case Failure(e) => Failure(e)
      case Success(name) =>
        match GistContent(g)
        case Failure(e) => Failure(e)
        case Success(content) =>
          Success(ThemeColors(theme, 6) + [g.htmlUrl, g.ownerLogin.value, name, content])
  }

  /** The gist card, or the TypeError that aborts it. */
  function GistCard(template: string, theme: Theme, g: Gist): (r: Result<string, CardError>)
    ensures r.Failure? <==> g.ownerLogin.None? || g.files == []
    ensures r.Success? && (forall k: nat, j: nat :: k < |GIST_PLACEHOLDERS| ==> !OccursAt(template, GIST_PLACEHOLDERS[k], j)) ==>
      r.value == template
  {
    match GistValues(theme, g)
    case Failure(e) => Failure(e)
    case Success(vs) => Success(ReplaceChain(template, GIST_PLACEHOLDERS, vs))
  }

  /**
   * A gist with an owner and at least one file renders like the repository
   * card: a template holding each placeholder once, in order, between
   * literal texts without '{', becomes those texts around the values.
   */
  lemma GistCardFillsSlots(texts: seq<string>, theme: Theme, g: Gist)
    requires g.ownerLogin.Some? && g.files != []
    requires |texts| == |GIST_PLACEHOLDERS| + 1
    requires forall k :: 0 <= k < |texts| ==> '{' !in texts[k]
    requires var vs := GistValues(theme, g).value;
      forall k :: 0 <= k < |vs| ==> '{' !in vs[k] && '$' !in vs[k]
    ensures GistCard(Weave(texts, GIST_PLACEHOLDERS), theme, g)
      == Success(Weave(texts, GistValues(theme, g).value))
  {
    PlaceholdersStartWithBrace(GIST_PLACEHOLDERS);
    ReplaceChainFillsSlots(texts, GIST_PLACEHOLDERS, GistValues(theme, g).value);
  }
}

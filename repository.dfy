/** repository.go: the connection record `Repository`, the two string enumerations with
    their `MarshalV8` encoders, and the `/ConfigurationRepositoryCreate` command record
    with its constructor, builder and cross-field check. The relocation pass
    `fixExtensionIndex` of the same file is the module ExtensionFixup. */
module Repo {
  import opened Types
  import opened ExtensionFixup

  /** `RepositoryRightType`: a Go string type; any string is a value of it. */
  datatype RepositoryRightType = RepositoryRightType(name: string)

  const RightRead := RepositoryRightType("ReadOnly")
  const RightLock := RepositoryRightType("LockObjects")
  const RightManageVersions := RepositoryRightType("ManageConfigurationVersions")
  const RightAdmin := RepositoryRightType("Administration")

  /** `RepositorySupportEditObjectsType`: a Go string type; the zero value `""` is the
      rule that is "not set". */
  datatype SupportEditObjectsType = SupportEditObjectsType(name: string)

  const SupportNotEditable := SupportEditObjectsType("ObjectNotEditable")
  const SupportIsEditable := SupportEditObjectsType("ObjectIsEditableSupportEnabled")
  const SupportNotSupported := SupportEditObjectsType("ObjectNotSupported")
  const NoRule := SupportEditObjectsType("")

  /** `RepositoryRightType.MarshalV8`: never fails, and wrapping the text it returns gives
      back the right it encoded. */
  function RightMarshalV8(t: RepositoryRightType): (r: Result<string>)
    ensures r.Ok? && RepositoryRightType(r.value) == t
  {
    Ok(t.name)
  }

  /** `RepositorySupportEditObjectsType.MarshalV8`: never fails, and wrapping the text it
      returns gives back the rule it encoded. */
  function SupportMarshalV8(t: SupportEditObjectsType): (r: Result<string>)
    ensures r.Ok? && SupportEditObjectsType(r.value) == t
  {
    Ok(t.name)
  }

  /** The encodings the table tests expect of the named constants. */
  lemma MarshalV8Constants()
    ensures RightMarshalV8(RightRead) == Ok("ReadOnly")
    ensures RightMarshalV8(RightAdmin) == Ok("Administration")
    ensures RightMarshalV8(RightLock) == Ok("LockObjects")
    ensures RightMarshalV8(RightManageVersions) == Ok("ManageConfigurationVersions")
    ensures SupportMarshalV8(SupportNotSupported) == Ok("ObjectNotSupported")
    ensures SupportMarshalV8(SupportIsEditable) == Ok("ObjectIsEditableSupportEnabled")
    ensures SupportMarshalV8(SupportNotEditable) == Ok("ObjectNotEditable")
  {
  }

  /** The storage a command connects to: `/ConfigurationRepositoryF` (path),
      `/ConfigurationRepositoryN` (user), `/ConfigurationRepositoryP` (password) and
      `-Extension` (the extension whose storage is meant). */
  datatype Repository = Repository(path: string, user: string, password: string, extension: string)
  {
    /** What every `WithRepository` builder does to the embedded record: Path, User and
        Password come from `src`; the Extension stays as it was. */
    function Connect(src: Repository): (r: Repository)
      ensures r.path == src.path && r.user == src.user && r.password == src.password
      ensures r.extension == extension
    {
      this.(path := src.path, user := src.user, password := src.password)
    }
  }

  /** Connecting twice is connecting to the second source, and connecting to the same
      source twice is connecting once. */
  lemma ConnectLastWins(r: Repository, a: Repository, b: Repository)
    ensures r.Connect(a).Connect(b) == r.Connect(b)
    ensures r.Connect(a).Connect(a) == r.Connect(a)
  {
  }

  /** The two vectors the table tests expect of `Repository.Values`. */
  const PlainRepositoryTokens: seq<string> :=
    ["/ConfigurationRepositoryF ./repo", "/ConfigurationRepositoryN admin",
     "/ConfigurationRepositoryP pwd"]
  const ExtensionRepositoryTokens: seq<string> := PlainRepositoryTokens + ["-Extension test"]

  /** `Repository.Values` is `Marshal` of the record; of `Marshal` only the two table-test
      vectors are known. */
  ghost predicate MatchesRepositoryValuesTests(marshal: Repository -> seq<string>) {
    && marshal(Repository("./repo", "admin", "pwd", "")) == PlainRepositoryTokens
    && marshal(Repository("./repo", "admin", "pwd", "test")) == ExtensionRepositoryTokens
  }

  lemma PlainTokensHaveNoMarker()
    ensures !HasExtensionToken(PlainRepositoryTokens)
  {
    var plain := PlainRepositoryTokens;
    assert '-' !in plain[0] && '-' !in plain[1] && '-' !in plain[2];
    NoDashTokensNoMarker(plain, 3);
  }

  /** On the bare connection record the `-Extension` token is already rendered last, so
      the relocation pass would change nothing there. */
  lemma RepositoryValuesNeedNoRelocation(marshal: Repository -> seq<string>)
    requires MatchesRepositoryValuesTests(marshal)
    ensures !HasExtensionToken(marshal(Repository("./repo", "admin", "pwd", "")))
    ensures HasExtensionToken(marshal(Repository("./repo", "admin", "pwd", "test")))
    ensures Relocated(marshal(Repository("./repo", "admin", "pwd", "test"))) ==
            marshal(Repository("./repo", "admin", "pwd", "test"))
  {
    var ext := ExtensionRepositoryTokens;
    PlainTokensHaveNoMarker();
    assert HasPrefix(ext[3], Marker);
    assert forall j :: 0 <= j < 3 ==> ext[j] == PlainRepositoryTokens[j];
    RelocatedMovesFirstToEnd(ext, 3);
    assert ext[..3] + ext[4..] + [ext[3]] == ext;
  }

  /** `RepositoryCreateOptions`, the `/ConfigurationRepositoryCreate` command. */
  datatype RepositoryCreateOptions = RepositoryCreateOptions(
    designer: Designer,
    repository: Repository,
    allowConfigurationChanges: bool,
    changesAllowedRule: SupportEditObjectsType,
    changesNotRecommendedRule: SupportEditObjectsType,
    noBind: bool)
  {
    /** Copies Path, User and Password of `src`; Extension and every other field stay. */
    function WithRepository(src: Repository): (o: RepositoryCreateOptions)
      ensures o.repository.path == src.path && o.repository.user == src.user
      ensures o.repository.password == src.password
      ensures o.repository.extension == repository.extension
      ensures o.(repository := repository) == this
    {
      this.(repository := repository.Connect(src))
    }
  }

  const ConfigurationChangesError := CheckError("configuration changes must be set", "msg",
    "field ChangesNotRecommendedRule or ChangesAllowedRule not set")

  /** `RepositoryCreateOptions.Check`: fails, with one failure, exactly when changes are
      allowed but one of the two support rules is not set. */
  function Check(o: RepositoryCreateOptions): (errs: seq<CheckError>)
    ensures errs == [] <==>
      !(o.allowConfigurationChanges &&
        (|o.changesNotRecommendedRule.name| == 0 || |o.changesAllowedRule.name| == 0))
    ensures errs != [] ==> errs == [ConfigurationChangesError]
  {
    if o.allowConfigurationChanges &&
       (|o.changesNotRecommendedRule.name| == 0 || |o.changesAllowedRule.name| == 0)
    then [ConfigurationChangesError]
    else []
  }

  /** `Repository.Create(noBind, rules...)`; `designer` is what `NewDesigner()` returns.
      No rule leaves changes disallowed and both rules unset; any rule allows changes
      and sets the allowed rule from the first; the not-recommended rule is set only when
      exactly two rules are given. */
  function Create(r: Repository, designer: Designer, noBind: bool,
                  rules: seq<SupportEditObjectsType>): (o: RepositoryCreateOptions)
    ensures o.designer == designer && o.repository == r && o.noBind == noBind
    ensures o.allowConfigurationChanges <==> |rules| > 0
    ensures o.changesAllowedRule == if |rules| > 0 then rules[0] else NoRule
    ensures o.changesNotRecommendedRule == if |rules| == 2 then rules[1] else NoRule
  {
    var base := RepositoryCreateOptions(designer, r, false, NoRule, NoRule, noBind);
    if |rules| > 0 then
      var withAllowed := base.(allowConfigurationChanges := true, changesAllowedRule := rules[0]);
      if |rules| == 2 then withAllowed.(changesNotRecommendedRule := rules[1])
      else withAllowed
    else base
  }

  /** What `Check` says of a freshly created record: it passes with no rule, or with
      exactly two rules that are both set; one rule, or three and more, always fail
      because the not-recommended rule is then left unset. */
  lemma CreateCheckedIff(r: Repository, designer: Designer, noBind: bool,
                         rules: seq<SupportEditObjectsType>)
    ensures Check(Create(r, designer, noBind, rules)) == [] <==>
      |rules| == 0 || (|rules| == 2 && rules[0].name != "" && rules[1].name != "")
  {
  }
}

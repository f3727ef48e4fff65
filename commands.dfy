/** The `command` interface of types.go (`Command`, `Check`, `Values`) over the command
    records of the repository files and the agent. Each Go record type satisfies the
    interface on its own; here the records form one sum type and the three operations
    dispatch on it.

    The repository records embed `Designer`, from which they take `Command` and (except
    for the create command, which declares its own) `Check`; `Designer` is not part of
    this model, so those two answers are parameters. `marshaler.Marshal` is not part of
    it either: `marshal` stands for it, and nothing is assumed of it. */
module Commands {
  import opened Types
  import opened ExtensionFixup
  import Repo
  import RepositoryCfg
  import RepositoryUsers
  import RepositoryService
  import RepositoryCache
  import Agent

  datatype Record =
    | Create(create: Repo.RepositoryCreateOptions)
    | BindCfg(bind: RepositoryCfg.RepositoryBindCfgOptions)
    | UnbindCfg(unbind: RepositoryCfg.RepositoryUnbindCfgOptions)
    | DumpCfg(dump: RepositoryCfg.RepositoryDumpCfgOptions)
    | UpdateCfg(update: RepositoryCfg.RepositoryUpdateCfgOptions)
    | AddUser(addUser: RepositoryUsers.RepositoryAddUserOptions)
    | CopyUsers(copyUsers: RepositoryUsers.RepositoryCopyUsersOptions)
    | Report(report: RepositoryService.RepositoryReportOptions)
    | ClearGlobalCache(globalCache: RepositoryCache.RepositoryClearGlobalCacheOptions)
    | ClearCache(cache: RepositoryCache.RepositoryClearCacheOptions)
    | ClearLocalCache(localCache: RepositoryCache.RepositoryClearLocalCacheOptions)
    | AgentMode(agent: Agent.AgentModeOptions)
  {
    /** The launch settings the record embeds; the agent record embeds none. */
    function EmbeddedDesigner(): Designer
      requires !AgentMode?
    {
      match this
      case Create(o) => o.designer
      case BindCfg(o) => o.designer
      case UnbindCfg(o) => o.designer
      case DumpCfg(o) => o.designer
      case UpdateCfg(o) => o.designer
      case AddUser(o) => o.designer
      case CopyUsers(o) => o.designer
      case Report(o) => o.designer
      case ClearGlobalCache(o) => o.designer
      case ClearCache(o) => o.designer
      case ClearLocalCache(o) => o.designer
    }

    /** The records whose `Values` run `fixExtensionIndex` over the marshalled vector. */
    predicate RelocatesExtension() {
      Create? || AddUser? || CopyUsers? || Report?
    }
  }

  /** `Command()`: the agent names the designer itself; every other record answers with
      its embedded launch settings. */
  function CommandName(rec: Record, designerCommand: Designer -> string): (name: string)
    ensures rec.AgentMode? ==> name == "DESIGNER"
    ensures !rec.AgentMode? ==> name == designerCommand(rec.EmbeddedDesigner())
  {
    match rec
    case AgentMode(o) => Agent.Command(o)
    case _ => designerCommand(rec.EmbeddedDesigner())
  }

  /** `Check()`: the create command and the agent have their own cross-field checks (each
      reports one failure exactly when its rule is broken); every other record answers
      with its embedded launch settings. */
  function Check(rec: Record, designerCheck: Designer -> seq<CheckError>): (errs: seq<CheckError>)
    ensures rec.Create? ==> (errs == [] <==>
      !(rec.create.allowConfigurationChanges &&
        (rec.create.changesNotRecommendedRule.name == "" || rec.create.changesAllowedRule.name == "")))
    ensures rec.AgentMode? ==> (errs == [] <==> rec.agent.sshHostKeyAuto || rec.agent.sshHostKey != "")
    ensures rec.Create? || rec.AgentMode? ==> |errs| <= 1
    ensures !rec.Create? && !rec.AgentMode? ==> errs == designerCheck(rec.EmbeddedDesigner())
  {
    match rec
    case Create(o) => Repo.Check(o)
    case AgentMode(o) => Agent.Check(o)
    case _ => designerCheck(rec.EmbeddedDesigner())
  }

  /** `Values()`: the marshalled vector, with the first `-Extension` token relocated to the
      end for the create, add-user, copy-users and report commands, and unchanged for all
      other records. Either way no token is lost or added. */
  method Values(rec: Record, marshal: Record -> seq<string>) returns (r: seq<string>)
    ensures rec.RelocatesExtension() ==> r == Relocated(marshal(rec))
    ensures !rec.RelocatesExtension() ==> r == marshal(rec)
    ensures |r| == |marshal(rec)| && multiset(r) == multiset(marshal(rec))
    ensures rec.RelocatesExtension() && HasExtensionToken(marshal(rec)) ==>
      IsExtensionToken(r[|r| - 1])
  {
    r := marshal(rec);
    if rec.RelocatesExtension() {
      r := RelocateExtension(r);
    }
  }

  /** The vector the table test for the create command expects when every field is set,
      with `-Extension temp_ext` fourth, before `/ConfigurationRepositoryCreate`. */
  const CreateAllExpected: seq<string> := [
    "/ConfigurationRepositoryF ./repo",
    "/ConfigurationRepositoryN admin",
    "/ConfigurationRepositoryP pws",
    "-Extension temp_ext",
    "/ConfigurationRepositoryCreate",
    "-AllowConfigurationChanges",
    "-ChangesAllowedRule ObjectNotSupported",
    "-ChangesNotRecommendedRule ObjectNotSupported",
    "-NoBind"]

  /** The same vector with `-Extension temp_ext` last, where `Values` puts it. */
  const CreateAllRelocated: seq<string> :=
    CreateAllExpected[..3] + CreateAllExpected[4..] + [CreateAllExpected[3]]

  /** As written, the expected vector is not a possible output of the create command's
      `Values`, whatever `Marshal` renders: it holds a `-Extension` token but does not end
      with one. */
  lemma CreateAllExpectedUnreachable(raw: seq<string>)
    ensures Relocated(raw) != CreateAllExpected
  {
    var e := CreateAllExpected;
    assert HasPrefix(e[3], Marker);
    ShortTokenNoMarker(e[8]);
    if HasExtensionToken(Relocated(raw)) {
      RelocatedEndsWithMarker(raw);
    }
  }

  /** The three connection tokens ahead of `-Extension temp_ext` hold no marker. */
  lemma CreateAllHeadHasNoMarker()
    ensures forall j :: 0 <= j < 3 ==> !IsExtensionToken(CreateAllExpected[j])
  {
    var e := CreateAllExpected;
    assert '-' !in e[0] && '-' !in e[1] && '-' !in e[2];
    NoDashTokensNoMarker(e, 3);
  }

  /** If `Marshal` renders the fields in the order the test lists them, `Values` of the
      create command yields the expected tokens with `-Extension temp_ext` moved last. */
  lemma CreateAllRelocatedIsValues(raw: seq<string>)
    requires raw == CreateAllExpected
    ensures Relocated(raw) == CreateAllRelocated
    ensures Relocated(raw)[|raw| - 1] == "-Extension temp_ext"
  {
    CreateAllHeadHasNoMarker();
    assert HasPrefix(raw[3], Marker);
    RelocatedMovesFirstToEnd(raw, 3);
  }
}

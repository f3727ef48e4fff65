/** repositoryCfg.go: the bind, unbind, dump and update commands of the configuration
    storage. Every constructor takes the connection record and returns a fresh option
    record; every builder returns a modified copy. None of these records relocates the
    `-Extension` token (see Commands.Values). */
module RepositoryCfg {
  import opened Types
  import opened Repo

  /** `RepositoryBindCfgOptions`, the `/ConfigurationRepositoryBindCfg` command. */
  datatype RepositoryBindCfgOptions = RepositoryBindCfgOptions(
    designer: Designer,
    repository: Repository,
    forceBindAlreadyBindedUser: bool,
    forceReplaceCfg: bool)
  {
    /** Copies Path, User and Password of `src`; Extension and both flags stay. */
    function WithRepository(src: Repository): (o: RepositoryBindCfgOptions)
      ensures o.repository.path == src.path && o.repository.user == src.user
      ensures o.repository.password == src.password
      ensures o.repository.extension == repository.extension
      ensures o.(repository := repository) == this
    {
      this.(repository := repository.Connect(src))
    }
  }

  /** `Repository.Bind(force...)`; `designer` is what `NewDesigner()` returns. Both flags
      take the first argument; the second argument is used for the already-bound-user flag
      only when more than two arguments are given. */
  function Bind(r: Repository, designer: Designer, force: seq<bool>): (o: RepositoryBindCfgOptions)
    ensures o.designer == designer && o.repository == r
    ensures o.forceReplaceCfg == (|force| > 0 && force[0])
    ensures o.forceBindAlreadyBindedUser ==
      if |force| > 2 then force[1] else |force| > 0 && force[0]
  {
    var base := RepositoryBindCfgOptions(designer, r, false, false);
    if |force| > 0 then
      var both := base.(forceReplaceCfg := force[0], forceBindAlreadyBindedUser := force[0]);
      if |force| > 2 then both.(forceBindAlreadyBindedUser := force[1]) else both
    else base
  }

  /** With exactly two arguments the second one is ignored; with no argument the flags are
      off and the record only wraps the receiver. */
  lemma BindArity(r: Repository, designer: Designer, a: bool, b: bool)
    ensures Bind(r, designer, [a, b]) == Bind(r, designer, [a])
    ensures Bind(r, designer, []) == RepositoryBindCfgOptions(designer, r, false, false)
  {
  }

  /** `RepositoryUnbindCfgOptions`, the `/ConfigurationRepositoryUnbindCfg` command. */
  datatype RepositoryUnbindCfgOptions = RepositoryUnbindCfgOptions(
    designer: Designer,
    repository: Repository,
    force: bool)
  {
    /** Copies Path, User and Password of `src`; Extension and `force` stay. */
    function WithRepository(src: Repository): (o: RepositoryUnbindCfgOptions)
      ensures o.repository.path == src.path && o.repository.user == src.user
      ensures o.repository.password == src.password
      ensures o.repository.extension == repository.extension
      ensures o.(repository := repository) == this
    {
      this.(repository := repository.Connect(src))
    }
  }

  /** `Repository.Unbind(force...)`: `force` is the first argument if there is one. */
  function Unbind(r: Repository, designer: Designer, force: seq<bool>): (o: RepositoryUnbindCfgOptions)
    ensures o.designer == designer && o.repository == r
    ensures o.force == (|force| > 0 && force[0])
  {
    RepositoryUnbindCfgOptions(designer, r, if |force| > 0 then force[0] else false)
  }

  /** `RepositoryDumpCfgOptions`, the `/ConfigurationRepositoryDumpCfg` command. */
  datatype RepositoryDumpCfgOptions = RepositoryDumpCfgOptions(
    designer: Designer,
    repository: Repository,
    file: string,
    version: Int64)
  {
    /** Copies Path, User and Password of `src`; Extension, file and version stay. */
    function WithRepository(src: Repository): (o: RepositoryDumpCfgOptions)
      ensures o.repository.path == src.path && o.repository.user == src.user
      ensures o.repository.password == src.password
      ensures o.repository.extension == repository.extension
      ensures o.(repository := repository) == this
    {
      this.(repository := repository.Connect(src))
    }
  }

  /** `Repository.DumpCfg(file, version...)`: the version is the first optional argument,
      otherwise 0; later arguments are ignored. */
  function DumpCfg(r: Repository, designer: Designer, file: string, version: seq<Int64>): (o: RepositoryDumpCfgOptions)
    ensures o.designer == designer && o.repository == r && o.file == file
    ensures o.version == if |version| > 0 then version[0] else 0
  {
    RepositoryDumpCfgOptions(designer, r, file, if |version| > 0 then version[0] else 0)
  }

  /** `RepositoryUpdateCfgOptions`, the `/ConfigurationRepositoryUpdateCfg` command. */
  datatype RepositoryUpdateCfgOptions = RepositoryUpdateCfgOptions(
    designer: Designer,
    repository: Repository,
    version: Int64,
    revised: bool,
    force: bool,
    objects: string)
  {
    /** Sets the objects list file; nothing else changes. */
    function WithObjects(objectsFile: string): (o: RepositoryUpdateCfgOptions)
      ensures o.objects == objectsFile
      ensures o.(objects := objects) == this
    {
      this.(objects := objectsFile)
    }

    /** Copies Path, User and Password of `src`; Extension and the update fields stay. */
    function WithRepository(src: Repository): (o: RepositoryUpdateCfgOptions)
      ensures o.repository.path == src.path && o.repository.user == src.user
      ensures o.repository.password == src.password
      ensures o.repository.extension == repository.extension
      ensures o.(repository := repository) == this
    {
      this.(repository := repository.Connect(src))
    }
  }

  /** `Repository.UpdateCfg(version, force...)`: `force` is the first optional argument if
      there is one; `revised` and the objects file start unset. */
  function UpdateCfg(r: Repository, designer: Designer, version: Int64, force: seq<bool>): (o: RepositoryUpdateCfgOptions)
    ensures o.designer == designer && o.repository == r && o.version == version
    ensures o.force == (|force| > 0 && force[0])
    ensures !o.revised && o.objects == ""
  {
    RepositoryUpdateCfgOptions(designer, r, version, false,
                               if |force| > 0 then force[0] else false, "")
  }

  /** The two builders of the update command touch disjoint fields, so their order does
      not matter, and setting the objects file twice keeps the second. */
  lemma UpdateBuildersCommute(o: RepositoryUpdateCfgOptions, src: Repository, f: string, g: string)
    ensures o.WithObjects(f).WithRepository(src) == o.WithRepository(src).WithObjects(f)
    ensures o.WithObjects(f).WithObjects(g) == o.WithObjects(g)
  {
  }
}

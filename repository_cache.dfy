/** repositoryCache.go: the three cache-clearing commands. Their records hold only the
    launch settings and the connection; none of them relocates the `-Extension` token
    (see Commands.Values). */
module RepositoryCache {
  import opened Types
  import opened Repo

  /** `RepositoryClearGlobalCacheOptions`, `/ConfigurationRepositoryClearGlobalCache`. */
  datatype RepositoryClearGlobalCacheOptions = RepositoryClearGlobalCacheOptions(
    designer: Designer,
    repository: Repository)
  {
    /** Copies Path, User and Password of `src`; Extension and the launch settings stay. */
    function WithRepository(src: Repository): (o: RepositoryClearGlobalCacheOptions)
      ensures o.repository.path == src.path && o.repository.user == src.user
      ensures o.repository.password == src.password
      ensures o.repository.extension == repository.extension
      ensures o.designer == designer
    {
      this.(repository := repository.Connect(src))
    }
  }

  /** `RepositoryClearCacheOptions`, `/ConfigurationRepositoryClearCache`. */
  datatype RepositoryClearCacheOptions = RepositoryClearCacheOptions(
    designer: Designer,
    repository: Repository)
  {
    /** Copies Path, User and Password of `src`; Extension and the launch settings stay. */
    function WithRepository(src: Repository): (o: RepositoryClearCacheOptions)
      ensures o.repository.path == src.path && o.repository.user == src.user
      ensures o.repository.password == src.password
      ensures o.repository.extension == repository.extension
      ensures o.designer == designer
    {
      this.(repository := repository.Connect(src))
    }
  }

  /** `RepositoryClearLocalCacheOptions`, `/ConfigurationRepositoryClearLocalCache`. */
  datatype RepositoryClearLocalCacheOptions = RepositoryClearLocalCacheOptions(
    designer: Designer,
    repository: Repository)
  {
    /** Copies Path, User and Password of `src`; Extension and the launch settings stay. */
    function WithRepository(src: Repository): (o: RepositoryClearLocalCacheOptions)
      ensures o.repository.path == src.path && o.repository.user == src.user
      ensures o.repository.password == src.password
      ensures o.repository.extension == repository.extension
      ensures o.designer == designer
    {
      this.(repository := repository.Connect(src))
    }
  }

  /** For each of the three records, re-pointing twice is re-pointing to the second
      source, and re-pointing to the same source twice is doing it once. */
  lemma WithRepositoryLastWins(g: RepositoryClearGlobalCacheOptions, c: RepositoryClearCacheOptions,
                               l: RepositoryClearLocalCacheOptions, a: Repository, b: Repository)
    ensures g.WithRepository(a).WithRepository(b) == g.WithRepository(b)
    ensures c.WithRepository(a).WithRepository(b) == c.WithRepository(b)
    ensures l.WithRepository(a).WithRepository(b) == l.WithRepository(b)
    ensures g.WithRepository(a).WithRepository(a) == g.WithRepository(a)
    ensures c.WithRepository(a).WithRepository(a) == c.WithRepository(a)
    ensures l.WithRepository(a).WithRepository(a) == l.WithRepository(a)
  {
  }
}

/** repositoryUsers.go: the commands that add a storage user and copy users from another
    storage. Both records relocate the `-Extension` token (see Commands.Values). */
module RepositoryUsers {
  import opened Types
  import opened Repo

  /** `RepositoryAddUserOptions`, the `/ConfigurationRepositoryAddUser` command. */
  datatype RepositoryAddUserOptions = RepositoryAddUserOptions(
    designer: Designer,
    repository: Repository,
    newUser: string,
    newPassword: string,
    rights: RepositoryRightType,
    restoreDeletedUser: bool)
  {
    /** Copies Path, User and Password of `src` into the local connection; Extension and
        the new user's fields stay. */
    function WithRepository(src: Repository): (o: RepositoryAddUserOptions)
      ensures o.repository.path == src.path && o.repository.user == src.user
      ensures o.repository.password == src.password
      ensures o.repository.extension == repository.extension
      ensures o.(repository := repository) == this
    {
      this.(repository := repository.Connect(src))
    }
  }

  /** `Repository.AddUser(user, password, rights, restoreDeletedUser...)`. */
  function AddUser(r: Repository, designer: Designer, user: string, password: string,
                   rights: RepositoryRightType, restoreDeletedUser: seq<bool>): (o: RepositoryAddUserOptions)
    ensures o.designer == designer && o.repository == r
    ensures o.newUser == user && o.newPassword == password && o.rights == rights
    ensures o.restoreDeletedUser == (|restoreDeletedUser| > 0 && restoreDeletedUser[0])
  {
    RepositoryAddUserOptions(designer, r, user, password, rights,
                             if |restoreDeletedUser| > 0 then restoreDeletedUser[0] else false)
  }

  /** `RepositoryCopyUsersOptions`, the `/ConfigurationRepositoryCopyUsers` command: the
      local connection (embedded `Repository`) and the remote storage users are copied
      from (`-Path`, `-User`, `-Pwd`). */
  datatype RepositoryCopyUsersOptions = RepositoryCopyUsersOptions(
    designer: Designer,
    repository: Repository,
    remotePath: string,
    remoteUser: string,
    remotePwd: string,
    restoreDeletedUser: bool)
  {
    /** Copies Path, User and Password of `src` into the local connection; Extension and
        the remote fields stay. */
    function WithRepository(src: Repository): (o: RepositoryCopyUsersOptions)
      ensures o.repository.path == src.path && o.repository.user == src.user
      ensures o.repository.password == src.password
      ensures o.repository.extension == repository.extension
      ensures o.(repository := repository) == this
    {
      this.(repository := repository.Connect(src))
    }

    /** Takes the remote storage from `src`; the local connection and the restore flag
        stay, and the Extension of `src` is not used. */
    function FromRepository(src: Repository): (o: RepositoryCopyUsersOptions)
      ensures o.remotePath == src.path && o.remoteUser == src.user && o.remotePwd == src.password
      ensures o.(remotePath := remotePath, remoteUser := remoteUser, remotePwd := remotePwd) == this
    {
      this.(remotePath := src.path, remoteUser := src.user, remotePwd := src.password)
    }
  }

  /** `Repository.CopyUsers(path, user, password, restoreDeletedUser...)`. */
  function CopyUsers(r: Repository, designer: Designer, path: string, user: string, password: string,
                     restoreDeletedUser: seq<bool>): (o: RepositoryCopyUsersOptions)
    ensures o.designer == designer && o.repository == r
    ensures o.remotePath == path && o.remoteUser == user && o.remotePwd == password
    ensures o.restoreDeletedUser == (|restoreDeletedUser| > 0 && restoreDeletedUser[0])
  {
    RepositoryCopyUsersOptions(designer, r, path, user, password,
                               if |restoreDeletedUser| > 0 then restoreDeletedUser[0] else false)
  }

  /** `Repository.CopyUsersFromRepository(src, restoreDeletedUser...)`. */
  function CopyUsersFromRepository(r: Repository, designer: Designer, src: Repository,
                                   restoreDeletedUser: seq<bool>): (o: RepositoryCopyUsersOptions)
    ensures o.designer == designer && o.repository == r
    ensures o.remotePath == src.path && o.remoteUser == src.user && o.remotePwd == src.password
    ensures o.restoreDeletedUser == (|restoreDeletedUser| > 0 && restoreDeletedUser[0])
  {
    RepositoryCopyUsersOptions(designer, r, src.path, src.user, src.password,
                               if |restoreDeletedUser| > 0 then restoreDeletedUser[0] else false)
  }

  /** Copying from a repository record is copying from its path, user and password: the
      source's Extension plays no part, and the result is `CopyUsers` or, equally, any
      record re-pointed with `FromRepository`. */
  lemma CopyUsersFromRepositoryIsCopyUsers(r: Repository, designer: Designer, src: Repository,
                                           b: seq<bool>, path: string, user: string, password: string)
    ensures CopyUsersFromRepository(r, designer, src, b) ==
            CopyUsers(r, designer, src.path, src.user, src.password, b)
    ensures CopyUsersFromRepository(r, designer, src, b) ==
            CopyUsers(r, designer, path, user, password, b).FromRepository(src)
  {
  }

  /** The local and the remote builders touch disjoint fields, so they commute. */
  lemma WithAndFromRepositoryCommute(o: RepositoryCopyUsersOptions, local: Repository, remote: Repository)
    ensures o.WithRepository(local).FromRepository(remote) ==
            o.FromRepository(remote).WithRepository(local)
  {
  }
}

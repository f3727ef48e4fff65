/** repositoryService.go: the `/ConfigurationRepositoryReport` command, which builds a
    report on the storage history. Its record relocates the `-Extension` token (see
    Commands.Values). */
module RepositoryService {
  import opened Types
  import opened Repo

  /** `GroupByType`: a Go string type whose value is rendered as a bare token. */
  datatype GroupByType = GroupByType(name: string)

  const GroupByObjectFlag := GroupByType("-GroupByObject")
  const GroupByCommentFlag := GroupByType("-GroupByComment")
  const NoGrouping := GroupByType("")

  /** `GroupByType.MarshalV8`: never fails, and wrapping the text it returns gives back
      the grouping it encoded. */
  function GroupByMarshalV8(t: GroupByType): (r: Result<string>)
    ensures r.Ok? && GroupByType(r.value) == t
  {
    Ok(t.name)
  }

  /** `RepositoryReportOptions`, the `/ConfigurationRepositoryReport` command. */
  datatype RepositoryReportOptions = RepositoryReportOptions(
    designer: Designer,
    repository: Repository,
    file: string,
    nBegin: Int64,
    nEnd: Int64,
    groupBy: GroupByType)
  {
    /** Groups the report by object; nothing else changes. */
    function GroupByObject(): (o: RepositoryReportOptions)
      ensures o.groupBy.name == "-GroupByObject"
      ensures o.(groupBy := groupBy) == this
    {
      this.(groupBy := GroupByObjectFlag)
    }

    /** Groups the report by comment; nothing else changes. */
    function GroupByComment(): (o: RepositoryReportOptions)
      ensures o.groupBy.name == "-GroupByComment"
      ensures o.(groupBy := groupBy) == this
    {
      this.(groupBy := GroupByCommentFlag)
    }

    /** Copies Path, User and Password of `src`; Extension and the report fields stay. */
    function WithRepository(src: Repository): (o: RepositoryReportOptions)
      ensures o.repository.path == src.path && o.repository.user == src.user
      ensures o.repository.password == src.password
      ensures o.repository.extension == repository.extension
      ensures o.(repository := repository) == this
    {
      this.(repository := repository.Connect(src))
    }
  }

  /** Only one grouping is kept: of two chained grouping calls the last one wins, and each
      is idempotent. */
  lemma GroupByLastWins(o: RepositoryReportOptions)
    ensures o.GroupByObject().GroupByComment() == o.GroupByComment()
    ensures o.GroupByComment().GroupByObject() == o.GroupByObject()
    ensures o.GroupByObject().GroupByObject() == o.GroupByObject()
    ensures o.GroupByComment().GroupByComment() == o.GroupByComment()
  {
  }

  /** `Repository.Report(file, startAndEndVersions...)`: the first version is the start;
      the second is taken as the end only when more than two versions are given, so two
      versions leave the end at 0. The grouping starts unset. */
  function Report(r: Repository, designer: Designer, file: string, versions: seq<Int64>): (o: RepositoryReportOptions)
    ensures o.designer == designer && o.repository == r && o.file == file
    ensures o.nBegin == if |versions| > 0 then versions[0] else 0
    ensures o.nEnd == if |versions| > 2 then versions[1] else 0
    ensures o.groupBy == NoGrouping
  {
    var base := RepositoryReportOptions(designer, r, file, 0, 0, NoGrouping);
    if |versions| > 0 then
      var started := base.(nBegin := versions[0]);
      if |versions| > 2 then started.(nEnd := versions[1]) else started
    else base
  }

  /** With exactly a start and an end version the end is dropped: the record equals the
      one built from the start version alone. */
  lemma ReportTwoVersionsDropEnd(r: Repository, designer: Designer, file: string, first: Int64, second: Int64)
    ensures Report(r, designer, file, [first, second]) == Report(r, designer, file, [first])
    ensures Report(r, designer, file, [first, second]).nEnd == 0
  {
  }
}

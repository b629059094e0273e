/** `GitServer.GetProductSummary` of the cd-service: the applications
    deployed in one environment, or in every environment of one
    environment group, each joined with the release of the deployed
    version. The overview it reads is an input value. */
module ProductSummaries {
  import opened Results
  import opened GoStrings
  import Sorting

  /** The request; `environment` and `environmentGroup` are optional
      strings (pointers in the request message). */
  datatype SummaryRequest = SummaryRequest(environment: Option<string>, environmentGroup: Option<string>, commitHash: string)

  /** An application as deployed in an environment of the overview. */
  datatype DeployedApp = DeployedApp(name: string, version: nat)
  datatype Environment = Environment(name: string, applications: seq<DeployedApp>)
  datatype EnvironmentGroup = EnvironmentGroup(environmentGroupName: string, environments: seq<Environment>)
  datatype Release = Release(version: nat, sourceCommitId: string, displayVersion: string)
  datatype Application = Application(name: string, team: string, releases: seq<Release>)

  /** The overview at the requested commit. Maps of the overview message
      appear as sequences in the order one iteration visits them. */
  datatype Overview = Overview(environmentGroups: seq<EnvironmentGroup>, applications: seq<Application>)

  /** An intermediate row: an application, its deployed version in decimal
      and the environment it is deployed in. */
  datatype Row = Row(app: string, version: string, environment: string)

  datatype ProductSummary = ProductSummary(app: string, version: string, commitId: string, displayVersion: string,
                                           environment: string, team: string)

  datatype SummaryError =
    | NoEnvironmentOrGroup
    | BothEnvironmentAndGroup
    | NoCommitHash
    | OverviewUnavailable
    /** The nil `EnvironmentGroup` is dereferenced: a panic in the service. */
    | NilEnvironmentGroup

  // ---------------------------------------------------------------------
  // Rows

  /** The rows of the applications of one environment, tagged `tag`. */
  function AppRows(apps: seq<DeployedApp>, tag: string): (r: seq<Row>)
    ensures |r| == |apps|
    ensures forall i :: 0 <= i < |r| ==> r[i] == Row(apps[i].name, Decimal(apps[i].version), tag)
    decreases |apps|
  {
    if |apps| == 0 then []
    else
      var last := apps[|apps| - 1];
      AppRows(apps[..|apps| - 1], tag) + [Row(last.name, Decimal(last.version), tag)]
  }

  /** The rows of the environments named `name` among `envs`. */
  function EnvRowsIn(envs: seq<Environment>, name: string): seq<Row>
    decreases |envs|
  {
    if |envs| == 0 then []
    else
      var last := envs[|envs| - 1];
      EnvRowsIn(envs[..|envs| - 1], name) + (if last.name == name then AppRows(last.applications, name) else [])
  }

  /** Environment mode: the rows of every environment named `name`, in
      any group. */
  function EnvModeRows(groups: seq<EnvironmentGroup>, name: string): seq<Row>
    decreases |groups|
  {
    if |groups| == 0 then []
    else EnvModeRows(groups[..|groups| - 1], name) + EnvRowsIn(groups[|groups| - 1].environments, name)
  }

  /** Group mode: the environments of every group named `groupName`, in
      order. */
  function GroupEnvironments(groups: seq<EnvironmentGroup>, groupName: string): seq<Environment>
    decreases |groups|
  {
    if |groups| == 0 then []
    else
      var last := groups[|groups| - 1];
      GroupEnvironments(groups[..|groups| - 1], groupName)
        + (if last.environmentGroupName == groupName then last.environments else [])
  }

  function Flatten(blocks: seq<seq<Row>>): seq<Row>
    decreases |blocks|
  {
    if |blocks| == 0 then [] else Flatten(blocks[..|blocks| - 1]) + blocks[|blocks| - 1]
  }

  /** The order rows are sorted in: by application name. */
  predicate RowBefore(a: Row, b: Row)
  {
    Less(a.app, b.app)
  }

  /** The order of the joined entries: by application name. */
  predicate SummaryBefore(a: ProductSummary, b: ProductSummary)
  {
    Less(a.app, b.app)
  }

  /** Rows are ordered by their application names, so the row order
      inherits the strict weak order of Go's string `<`. */
  lemma RowBeforeIsStrictWeakOrder()
    ensures Sorting.StrictWeakOrder(RowBefore)
  {
    LessIsStrictWeakOrder();
    forall x, y | RowBefore(x, y)
      ensures !RowBefore(y, x)
    {
      assert Less(x.app, y.app);
    }
    forall x, y, z | !RowBefore(y, x) && !RowBefore(z, y)
      ensures !RowBefore(z, x)
    {
      assert !Less(y.app, x.app) && !Less(z.app, y.app);
    }
  }

  /** `sorted` is `rows` ordered by application name (in some order among
      equal names, as `sort.Slice` is not stable). */
  ghost predicate SortedPermutation(sorted: seq<Row>, rows: seq<Row>)
  {
    Sorting.SortedBy(sorted, RowBefore) && multiset(sorted) == multiset(rows)
  }

  /** Group mode's blocks: one per environment, its rows sorted. */
  ghost predicate BlocksFor(blocks: seq<seq<Row>>, envs: seq<Environment>)
  {
    |blocks| == |envs|
    && forall i :: 0 <= i < |envs| ==> SortedPermutation(blocks[i], AppRows(envs[i].applications, envs[i].name))
  }

  // ---------------------------------------------------------------------
  // Join

  /** The position of the first release whose decimal version is
      `version`. */
  function FirstMatch(releases: seq<Release>, version: string): (r: Option<nat>)
    ensures r.Some? ==> r.value < |releases| && Decimal(releases[r.value].version) == version
    ensures forall j :: 0 <= j < |releases| && (r.None? || j < r.value) ==> Decimal(releases[j].version) != version
    decreases |releases|
  {
    if |releases| == 0 then None
    else if Decimal(releases[0].version) == version then Some(0)
    else match FirstMatch(releases[1..], version)
      case None => None
      case Some(k) => Some(k + 1)
  }

  function Summarize(row: Row, app: Application, release: Release): ProductSummary
  {
    ProductSummary(row.app, row.version, release.sourceCommitId, release.displayVersion, row.environment, app.team)
  }

  /** What one application adds for one row: the first release of the
      row's version, when the application is the row's. */
  function Contribution(row: Row, app: Application): seq<ProductSummary>
  {
    if row.app != app.name then []
    else match FirstMatch(app.releases, row.version)
      case None => []
      case Some(k) => [Summarize(row, app, app.releases[k])]
  }

  function JoinRow(row: Row, apps: seq<Application>): seq<ProductSummary>
    decreases |apps|
  {
    if |apps| == 0 then []
    else JoinRow(row, apps[..|apps| - 1]) + Contribution(row, apps[|apps| - 1])
  }

  function JoinRows(rows: seq<Row>, apps: seq<Application>): seq<ProductSummary>
    decreases |rows|
  {
    if |rows| == 0 then [] else JoinRows(rows[..|rows| - 1], apps) + JoinRow(rows[|rows| - 1], apps)
  }

  /** `entry` is the one entry that `app` contributes for `row`. */
  ghost predicate JoinedFrom(entry: ProductSummary, row: Row, app: Application)
  {
    Contribution(row, app) == [entry]
  }

  // ---------------------------------------------------------------------
  // The specification of GetProductSummary

  ghost predicate ProductSummaryOutcome(req: SummaryRequest, overview: Option<Overview>,
                                        r: Result<Option<seq<ProductSummary>>, SummaryError>)
  {
    if req.environment.None? && req.environmentGroup.None? then r == Err(NoEnvironmentOrGroup)
    else if req.environment.Some? && req.environmentGroup.Some?
         && req.environment.value != "" && req.environmentGroup.value != "" then r == Err(BothEnvironmentAndGroup)
    else if req.commitHash == "" then r == Err(NoCommitHash)
    else match overview
      case None => r == Err(OverviewUnavailable)
      case Some(ov) =>
        if req.environment.Some? && req.environment.value != "" then
          var rows := EnvModeRows(ov.environmentGroups, req.environment.value);
          if |rows| == 0 then r == Ok(Some([]))
          else exists sorted :: SortedPermutation(sorted, rows) && r == Ok(Some(JoinRows(sorted, ov.applications)))
        else if req.environmentGroup.None? then
          if |ov.environmentGroups| == 0 then r == Ok(None) else r == Err(NilEnvironmentGroup)
        else
          var envs := GroupEnvironments(ov.environmentGroups, req.environmentGroup.value);
          exists blocks :: BlocksFor(blocks, envs)
            && if |Flatten(blocks)| == 0 then r == Ok(None)
               else r == Ok(Some(JoinRows(Flatten(blocks), ov.applications)))
  }

  // ---------------------------------------------------------------------
  // The method and its loops

  /** `GetProductSummary`; `overview` is the answer of `GetOverview` at
      the requested commit, `None` when that call fails. */
  method GetProductSummary(req: SummaryRequest, overview: Option<Overview>)
    returns (r: Result<Option<seq<ProductSummary>>, SummaryError>)
    ensures ProductSummaryOutcome(req, overview, r)
  {
    if req.environment.None? && req.environmentGroup.None? {
      return Err(NoEnvironmentOrGroup);
    }
    if req.environment.Some? && req.environmentGroup.Some? {
      if req.environment.value != "" && req.environmentGroup.value != "" {
        return Err(BothEnvironmentAndGroup);
      }
    }
    if req.commitHash == "" {
      return Err(NoCommitHash);
    }
    if overview.None? {
      return Err(OverviewUnavailable);
    }
    var ov := overview.value;
    var rows: seq<Row>;
    if req.environment.Some? && req.environment.value != "" {
      var found := CollectEnvironmentRows(ov.environmentGroups, req.environment.value);
      if |found| == 0 {
        return Ok(Some([]));
      }
      rows := SortRows(found);
    } else {
      if req.environmentGroup.None? {
        if |ov.environmentGroups| > 0 {
          return Err(NilEnvironmentGroup);
        }
        return Ok(None);
      }
      ghost var blocks;
      rows, blocks := CollectGroupRows(ov.environmentGroups, req.environmentGroup.value);
      if |rows| == 0 {
        return Ok(None);
      }
    }
    var out := JoinWithReleases(rows, ov.applications);
    return Ok(Some(out));
  }

  /** The environment-mode loop over the overview's environment groups. */
  method CollectEnvironmentRows(groups: seq<EnvironmentGroup>, name: string) returns (rows: seq<Row>)
    ensures rows == EnvModeRows(groups, name)
  {
    rows := [];
    for gi := 0 to |groups|
      invariant rows == EnvModeRows(groups[..gi], name)
    {
      assert groups[..gi + 1][..gi] == groups[..gi];
      var more := CollectRowsIn(groups[gi].environments, name);
      rows := rows + more;
    }
    assert groups[..|groups|] == groups;
  }

  /** The loop over the environments of one group, keeping those named
      `name`. */
  method CollectRowsIn(envs: seq<Environment>, name: string) returns (rows: seq<Row>)
    ensures rows == EnvRowsIn(envs, name)
  {
    rows := [];
    for ei := 0 to |envs|
      invariant rows == EnvRowsIn(envs[..ei], name)
    {
      assert envs[..ei + 1][..ei] == envs[..ei];
      if envs[ei].name == name {
        var more := DeployedRows(envs[ei].applications, name);
        rows := rows + more;
      }
    }
    assert envs[..|envs|] == envs;
  }

  /** The loop over the applications of one environment: one row each,
      with the version in decimal. */
  method DeployedRows(apps: seq<DeployedApp>, tag: string) returns (rows: seq<Row>)
    ensures rows == AppRows(apps, tag)
  {
    rows := [];
    for ai := 0 to |apps|
      invariant rows == AppRows(apps[..ai], tag)
    {
      assert apps[..ai + 1][..ai] == apps[..ai];
      rows := rows + [Row(apps[ai].name, Decimal(apps[ai].version), tag)];
    }
    assert apps[..|apps|] == apps;
  }

  /** `sort.Slice` by application name. */
  method SortRows(rows: seq<Row>) returns (sorted: seq<Row>)
    ensures SortedPermutation(sorted, rows)
  {
    var a := new Row[|rows|](i requires 0 <= i < |rows| => rows[i]);
    assert a[..] == rows;
    RowBeforeIsStrictWeakOrder();
    Sorting.Sort(a, RowBefore);
    sorted := a[..];
  }

  /** The group-mode loop over the overview's environment groups. */
  method CollectGroupRows(groups: seq<EnvironmentGroup>, groupName: string)
    returns (rows: seq<Row>, ghost blocks: seq<seq<Row>>)
    ensures BlocksFor(blocks, GroupEnvironments(groups, groupName))
    ensures rows == Flatten(blocks)
  {
    rows, blocks := [], [];
    for gi := 0 to |groups|
      invariant BlocksFor(blocks, GroupEnvironments(groups[..gi], groupName))
      invariant rows == Flatten(blocks)
    {
      assert groups[..gi + 1][..gi] == groups[..gi];
      if groupName == groups[gi].environmentGroupName {
        var more;
        ghost var moreBlocks;
        more, moreBlocks := GroupBlocks(groups[gi].environments);
        BlocksForAppend(blocks, moreBlocks, GroupEnvironments(groups[..gi], groupName), groups[gi].environments);
        FlattenAppend(blocks, moreBlocks);
        rows, blocks := rows + more, blocks + moreBlocks;
      }
    }
    assert groups[..|groups|] == groups;
  }

  /** The loop over the environments of one group: each environment's
      rows sorted (`singleEnvSummary`), appended in environment order. */
  method GroupBlocks(envs: seq<Environment>) returns (rows: seq<Row>, ghost blocks: seq<seq<Row>>)
    ensures BlocksFor(blocks, envs)
    ensures rows == Flatten(blocks)
  {
    rows, blocks := [], [];
    for ei := 0 to |envs|
      invariant BlocksFor(blocks, envs[..ei])
      invariant rows == Flatten(blocks)
    {
      var single := DeployedRows(envs[ei].applications, envs[ei].name);
      single := SortRows(single);
      BlocksForSnoc(blocks, envs, ei, single);
      FlattenAppend(blocks, [single]);
      rows, blocks := rows + single, blocks + [single];
    }
    assert envs[..|envs|] == envs;
  }

  lemma BlocksForSnoc(blocks: seq<seq<Row>>, envs: seq<Environment>, ei: nat, single: seq<Row>)
    requires ei < |envs|
    requires BlocksFor(blocks, envs[..ei])
    requires SortedPermutation(single, AppRows(envs[ei].applications, envs[ei].name))
    ensures BlocksFor(blocks + [single], envs[..ei + 1])
  {
    assert BlocksFor([single], [envs[ei]]);
    BlocksForAppend(blocks, [single], envs[..ei], [envs[ei]]);
    assert envs[..ei + 1] == envs[..ei] + [envs[ei]];
  }

  lemma BlocksForAppend(b1: seq<seq<Row>>, b2: seq<seq<Row>>, e1: seq<Environment>, e2: seq<Environment>)
    requires BlocksFor(b1, e1) && BlocksFor(b2, e2)
    ensures BlocksFor(b1 + b2, e1 + e2)
  {
    forall i | 0 <= i < |e1 + e2|
      ensures SortedPermutation((b1 + b2)[i], AppRows((e1 + e2)[i].applications, (e1 + e2)[i].name))
    {
      if i >= |e1| {
        assert (b1 + b2)[i] == b2[i - |e1|] && (e1 + e2)[i] == e2[i - |e1|];
      }
    }
  }

  lemma {:induction false} FlattenAppend(b1: seq<seq<Row>>, b2: seq<seq<Row>>)
    ensures Flatten(b1 + b2) == Flatten(b1) + Flatten(b2)
    decreases |b2|
  {
    if |b2| > 0 {
      var n := |b2| - 1;
      assert (b1 + b2)[..|b1 + b2| - 1] == b1 + b2[..n];
      FlattenAppend(b1, b2[..n]);
    } else {
      assert b1 + b2 == b1;
    }
  }

  /** The join loop over the collected rows. */
  method JoinWithReleases(rows: seq<Row>, apps: seq<Application>) returns (out: seq<ProductSummary>)
    ensures out == JoinRows(rows, apps)
  {
    out := [];
    for ri := 0 to |rows|
      invariant out == JoinRows(rows[..ri], apps)
    {
      assert rows[..ri + 1][..ri] == rows[..ri];
      var more := JoinOneRow(rows[ri], apps);
      out := out + more;
    }
    assert rows[..|rows|] == rows;
  }

  /** The loop over the applications for one row. */
  method JoinOneRow(row: Row, apps: seq<Application>) returns (out: seq<ProductSummary>)
    ensures out == JoinRow(row, apps)
  {
    out := [];
    for ai := 0 to |apps|
      invariant out == JoinRow(row, apps[..ai])
    {
      assert apps[..ai + 1][..ai] == apps[..ai];
      var more := ReleaseEntry(row, apps[ai]);
      out := out + more;
    }
    assert apps[..|apps|] == apps;
  }

  /** The search of one application's releases, stopped by `break` at
      the first one of the row's version. */
  method ReleaseEntry(row: Row, app: Application) returns (out: seq<ProductSummary>)
    ensures out == Contribution(row, app)
  {
    out := [];
    if row.app == app.name {
      var k := 0;
      while k < |app.releases|
        invariant 0 <= k <= |app.releases|
        invariant out == []
        invariant forall j :: 0 <= j < k ==> Decimal(app.releases[j].version) != row.version
      {
        var release := app.releases[k];
        if Decimal(release.version) == row.version {
          FirstMatchIsFirst(app.releases, row.version, k);
          out := [Summarize(row, app, release)];
          break;
        }
        k := k + 1;
      }
    }
  }

  /** A matching release with no match before it is the first match. */
  lemma FirstMatchIsFirst(releases: seq<Release>, version: string, k: nat)
    requires k < |releases| && Decimal(releases[k].version) == version
    requires forall j :: 0 <= j < k ==> Decimal(releases[j].version) != version
    ensures FirstMatch(releases, version) == Some(k)
  {
  }

  // ---------------------------------------------------------------------
  // Properties

  lemma {:induction false} JoinRowsAppend(a: seq<Row>, b: seq<Row>, apps: seq<Application>)
    ensures JoinRows(a + b, apps) == JoinRows(a, apps) + JoinRows(b, apps)
    decreases |b|
  {
    if |b| > 0 {
      var n := |b| - 1;
      var ab := a + b;
      assert ab[..|ab| - 1] == a + b[..n];
      assert ab[|ab| - 1] == b[n];
      JoinRowsAppend(a, b[..n], apps);
      var x, y, z := JoinRows(a, apps), JoinRows(b[..n], apps), JoinRow(b[n], apps);
      assert JoinRows(ab, apps) == JoinRows(a + b[..n], apps) + z;
      assert JoinRows(b, apps) == y + z;
      assert (x + y) + z == x + (y + z);
    } else {
      assert a + b == a;
    }
  }

  /** Every entry for one row is the contribution of one application. */
  lemma {:induction false} JoinRowOrigin(row: Row, apps: seq<Application>)
    ensures |JoinRow(row, apps)| <= |apps|
    ensures forall e :: e in JoinRow(row, apps) ==> exists app :: app in apps && JoinedFrom(e, row, app)
    decreases |apps|
  {
    if |apps| > 0 {
      var n := |apps| - 1;
      JoinRowOrigin(row, apps[..n]);
      forall e | e in JoinRow(row, apps)
        ensures exists app :: app in apps && JoinedFrom(e, row, app)
      {
        if e in JoinRow(row, apps[..n]) {
          var app :| app in apps[..n] && JoinedFrom(e, row, app);
          assert app in apps;
        } else {
          assert Contribution(row, apps[n]) == [e];
          assert apps[n] in apps;
        }
      }
    }
  }

  /** Every joined entry comes from one row and one application: the
      application has the row's name, the entry carries the row's app,
      version and environment, the application's team and the first
      release of that version. */
  lemma {:induction false} JoinRowsOrigin(rows: seq<Row>, apps: seq<Application>)
    ensures forall e :: e in JoinRows(rows, apps) ==>
      exists i, app :: 0 <= i < |rows| && app in apps && JoinedFrom(e, rows[i], app)
    decreases |rows|
  {
    if |rows| > 0 {
      var n := |rows| - 1;
      JoinRowsOrigin(rows[..n], apps);
      JoinRowOrigin(rows[n], apps);
      forall e | e in JoinRows(rows, apps)
        ensures exists i, app :: 0 <= i < |rows| && app in apps && JoinedFrom(e, rows[i], app)
      {
        if e in JoinRows(rows[..n], apps) {
          var i, app :| 0 <= i < n && app in apps && JoinedFrom(e, rows[..n][i], app);
          assert rows[..n][i] == rows[i];
        } else {
          var app :| app in apps && JoinedFrom(e, rows[n], app);
        }
      }
    }
  }

  /** What a joined entry says about its row, application and release. */
  lemma JoinedEntryFields(e: ProductSummary, row: Row, app: Application)
    requires JoinedFrom(e, row, app)
    ensures e.app == row.app == app.name && e.version == row.version && e.environment == row.environment
    ensures e.team == app.team
    ensures exists k :: (0 <= k < |app.releases| && Decimal(app.releases[k].version) == row.version
      && e.commitId == app.releases[k].sourceCommitId && e.displayVersion == app.releases[k].displayVersion)
  {
    var k := FirstMatch(app.releases, row.version).value;
    assert Decimal(app.releases[k].version) == row.version;
  }

  /** The release an entry is taken from is the one of the deployed
      version: decimal strings of different numbers differ. */
  lemma JoinedReleaseIsDeployed(e: ProductSummary, row: Row, app: Application, deployed: nat)
    requires JoinedFrom(e, row, app) && row.version == Decimal(deployed)
    ensures exists k :: (0 <= k < |app.releases| && app.releases[k].version == deployed
      && e.commitId == app.releases[k].sourceCommitId)
  {
    var k := FirstMatch(app.releases, row.version).value;
    DecimalInjective(app.releases[k].version, deployed);
  }

  /** Every entry for one row carries the row's application. */
  lemma JoinRowApps(row: Row, apps: seq<Application>)
    ensures forall e :: e in JoinRow(row, apps) ==> e.app == row.app
  {
    JoinRowOrigin(row, apps);
    forall e | e in JoinRow(row, apps)
      ensures e.app == row.app
    {
      var app :| app in apps && JoinedFrom(e, row, app);
      JoinedEntryFields(e, row, app);
    }
  }

  /** Every joined entry carries the application of one of the rows. */
  lemma JoinRowsApps(rows: seq<Row>, apps: seq<Application>)
    ensures forall e :: e in JoinRows(rows, apps) ==> exists i :: 0 <= i < |rows| && e.app == rows[i].app
  {
    JoinRowsOrigin(rows, apps);
    forall e | e in JoinRows(rows, apps)
      ensures exists i :: 0 <= i < |rows| && e.app == rows[i].app
    {
      var i, app :| 0 <= i < |rows| && app in apps && JoinedFrom(e, rows[i], app);
      JoinedEntryFields(e, rows[i], app);
    }
  }

  /** The join keeps the order of its rows. */
  lemma {:induction false} JoinKeepsOrder(rows: seq<Row>, apps: seq<Application>)
    requires Sorting.SortedBy(rows, RowBefore)
    ensures Sorting.SortedBy(JoinRows(rows, apps), SummaryBefore)
    decreases |rows|
  {
    if |rows| > 0 {
      var n := |rows| - 1;
      var init := JoinRows(rows[..n], apps);
      var tail := JoinRow(rows[n], apps);
      JoinKeepsOrder(rows[..n], apps);
      JoinRowsApps(rows[..n], apps);
      JoinRowApps(rows[n], apps);
      var s := init + tail;
      forall i, j | 0 <= i < j < |s|
        ensures !SummaryBefore(s[j], s[i])
      {
        if j >= |init| {
          assert s[j] == tail[j - |init|];
          assert s[j] in tail;
          if i < |init| {
            assert s[i] in init;
            var m :| 0 <= m < n && s[i].app == rows[..n][m].app;
            assert rows[..n][m] == rows[m];
          } else {
            assert s[i] == tail[i - |init|];
            assert s[i] in tail;
            LessIrreflexive(s[i].app);
          }
        }
      }
    }
  }

  lemma {:induction false} AppRowsTagged(apps: seq<DeployedApp>, tag: string)
    ensures forall row :: row in AppRows(apps, tag) ==> row.environment == tag
  {
  }

  lemma {:induction false} EnvRowsInTagged(envs: seq<Environment>, name: string)
    ensures forall row :: row in EnvRowsIn(envs, name) ==> row.environment == name
    decreases |envs|
  {
    if |envs| > 0 {
      EnvRowsInTagged(envs[..|envs| - 1], name);
      AppRowsTagged(envs[|envs| - 1].applications, name);
    }
  }

  lemma {:induction false} EnvModeRowsTagged(groups: seq<EnvironmentGroup>, name: string)
    ensures forall row :: row in EnvModeRows(groups, name) ==> row.environment == name
    decreases |groups|
  {
    if |groups| > 0 {
      EnvModeRowsTagged(groups[..|groups| - 1], name);
      EnvRowsInTagged(groups[|groups| - 1].environments, name);
    }
  }

  /** Environment mode: every entry is tagged with the requested
      environment and the entries are in application order. */
  lemma EnvironmentModeEntries(req: SummaryRequest, ov: Overview, out: seq<ProductSummary>)
    requires req.environment.Some? && req.environment.value != ""
    requires ProductSummaryOutcome(req, Some(ov), Ok(Some(out)))
    ensures forall e :: e in out ==> e.environment == req.environment.value
    ensures Sorting.SortedBy(out, SummaryBefore)
  {
    var name := req.environment.value;
    var rows := EnvModeRows(ov.environmentGroups, name);
    if |rows| > 0 {
      var sorted :| SortedPermutation(sorted, rows) && out == JoinRows(sorted, ov.applications);
      EnvModeRowsTagged(ov.environmentGroups, name);
      JoinRowsOrigin(sorted, ov.applications);
      JoinKeepsOrder(sorted, ov.applications);
      forall e | e in out
        ensures e.environment == name
      {
        var i, app :| 0 <= i < |sorted| && app in ov.applications && JoinedFrom(e, sorted[i], app);
        JoinedEntryFields(e, sorted[i], app);
        assert sorted[i] in multiset(rows);
      }
    }
  }

  /** Environment mode with no environment of the requested name gives
      the empty answer. */
  lemma {:induction false} NoSuchEnvironment(groups: seq<EnvironmentGroup>, name: string)
    requires forall g, env :: g in groups && env in g.environments ==> env.name != name
    ensures EnvModeRows(groups, name) == []
    decreases |groups|
  {
    if |groups| > 0 {
      var n := |groups| - 1;
      assert forall g :: g in groups[..n] ==> g in groups;
      NoSuchEnvironment(groups[..n], name);
      NoSuchEnvironmentIn(groups[n].environments, name);
    }
  }

  lemma {:induction false} NoSuchEnvironmentIn(envs: seq<Environment>, name: string)
    requires forall env :: env in envs ==> env.name != name
    ensures EnvRowsIn(envs, name) == []
    decreases |envs|
  {
    if |envs| > 0 {
      NoSuchEnvironmentIn(envs[..|envs| - 1], name);
    }
  }

  lemma {:induction false} FlattenTagged(blocks: seq<seq<Row>>, envs: seq<Environment>)
    requires BlocksFor(blocks, envs)
    ensures forall row :: row in Flatten(blocks) ==> exists env :: env in envs && row.environment == env.name
    decreases |blocks|
  {
    if |blocks| > 0 {
      var n := |blocks| - 1;
      assert BlocksFor(blocks[..n], envs[..n]);
      FlattenTagged(blocks[..n], envs[..n]);
      AppRowsTagged(envs[n].applications, envs[n].name);
      forall row | row in Flatten(blocks)
        ensures exists env :: env in envs && row.environment == env.name
      {
        if row in Flatten(blocks[..n]) {
          var env :| env in envs[..n] && row.environment == env.name;
          assert env in envs;
        } else {
          assert row in multiset(AppRows(envs[n].applications, envs[n].name));
          assert envs[n] in envs;
        }
      }
    }
  }

  /** Group mode: every entry is tagged with an environment of a group of
      the requested name. */
  lemma GroupModeEntries(req: SummaryRequest, ov: Overview, out: seq<ProductSummary>)
    requires req.environment.None? || req.environment.value == ""
    requires req.environmentGroup.Some?
    requires ProductSummaryOutcome(req, Some(ov), Ok(Some(out)))
    ensures forall e :: e in out ==>
      exists env :: env in GroupEnvironments(ov.environmentGroups, req.environmentGroup.value) && e.environment == env.name
  {
    var envs := GroupEnvironments(ov.environmentGroups, req.environmentGroup.value);
    var blocks :| BlocksFor(blocks, envs) && out == JoinRows(Flatten(blocks), ov.applications);
    var rows := Flatten(blocks);
    FlattenTagged(blocks, envs);
    JoinRowsOrigin(rows, ov.applications);
    forall e | e in out
      ensures exists env :: env in envs && e.environment == env.name
    {
      var i, app :| 0 <= i < |rows| && app in ov.applications && JoinedFrom(e, rows[i], app);
      JoinedEntryFields(e, rows[i], app);
      assert rows[i] in rows;
    }
  }
}

/** The RBAC policy of the kuberpult services: parsing one policy line,
    building the policy table from the lines of `policy.csv`, and checking
    whether a user's role grants a requested permission. */
module Rbac {
  import opened Results
  import opened GoStrings

  /** One parsed policy line. */
  datatype Permission = Permission(role: string, application: string, environment: string, action: string)

  /** The errors the RBAC code returns, one per distinct error value. */
  datatype RbacError =
    | WrongFieldCount(fields: nat)        // a line did not split into 6 fields
    | EmptyApplication
    | InvalidApplication(app: string)
    | InvalidAction(action: string)
    | InvalidEnvironment(envs: string)
    | InvalidEnvironmentGroup(envs: string)
    | MissingPolicy                       // dex is enabled but the policy is empty
    | PermissionDenied(wanted: string)    // gRPC code PermissionDenied

  /** Everything `CheckUserPermissions` consults: is dex enabled, and the
      policy keyed by the space-free policy line. */
  datatype RbacConfig = RbacConfig(dexEnabled: bool, policy: map<string, Permission>)

  /** The applications a policy line may name. */
  const AllowedApps: seq<string> :=
    ["EnvironmentLock", "EnvironmentApplicationLock", "Deploy", "Undeploy", "EnvironmentFromApplication"]

  /** The actions a policy line may name besides the wildcard "*". */
  const AllowedActions: seq<string> := ["Create", "Delete"]

  /** `policyConfig.validateApp`. */
  function ValidateApp(app: string): (r: Outcome<RbacError>)
    ensures r == Pass <==>
      app == "EnvironmentLock" || app == "EnvironmentApplicationLock" || app == "Deploy"
      || app == "Undeploy" || app == "EnvironmentFromApplication"
    ensures app == "" ==> r == Fail(EmptyApplication)
    ensures app != "" && r != Pass ==> r == Fail(InvalidApplication(app))
  {
    if app == "" then Fail(EmptyApplication)
    else if app in AllowedApps then Pass
    else Fail(InvalidApplication(app))
  }

  /** `policyConfig.validateAction`. */
  function ValidateAction(action: string): (r: Outcome<RbacError>)
    ensures r == Pass <==> action == "*" || action == "Create" || action == "Delete"
    ensures r != Pass ==> r == Fail(InvalidAction(action))
  {
    if action == "*" then Pass
    else if action in AllowedActions then Pass
    else Fail(InvalidAction(action))
  }

  /** `policyConfig.validateEnvs`: `envs` is either `<env>` or
      `<group>:<env>`, and every part is an environment name according to
      `envName` (the repository's `valid.EnvironmentName`). */
  function ValidateEnvs(envs: string, envName: string -> bool): (r: Outcome<RbacError>)
    ensures r == Pass <==>
      envs != "" && |Split(envs, ':')| <= 2
      && forall i :: 0 <= i < |Split(envs, ':')| ==> envName(Split(envs, ':')[i])
    ensures envs == "" || Occurrences(envs, ':') > 1 ==> r == Fail(InvalidEnvironment(envs))
    ensures r == Fail(InvalidEnvironmentGroup(envs)) <==>
      envs != "" && Occurrences(envs, ':') == 1 && !envName(Split(envs, ':')[0])
    ensures r != Pass ==> r == Fail(InvalidEnvironment(envs)) || r == Fail(InvalidEnvironmentGroup(envs))
  {
    var e := Split(envs, ':');
    if |e| > 2 || envs == "" then Fail(InvalidEnvironment(envs))
    else if |e| == 2 && !envName(e[0]) then Fail(InvalidEnvironmentGroup(envs))
    else if |e| == 2 && !envName(e[1]) then Fail(InvalidEnvironment(envs))
    else if |e| == 1 && !envName(e[0]) then Fail(InvalidEnvironment(envs))
    else Pass
  }

  /** `ValidateRbacPermission`: one policy line
      `p,<role>,<application>,<action>,<environment>,allow`. The checks run
      in the order field count, application, action, environment, and the
      first one that fails decides the error. Fields 0 and 5 are never
      looked at. */
  function ValidateRbacPermission(line: string, envName: string -> bool): (r: Result<Permission, RbacError>)
    ensures var c := Split(line, ',');
      r.Ok? <==>
        |c| == 6 && ValidateApp(c[2]) == Pass && ValidateAction(c[3]) == Pass
        && ValidateEnvs(c[4], envName) == Pass
    ensures var c := Split(line, ',');
      r.Ok? ==> r.value == Permission(c[1], c[2], c[4], c[3])
    ensures Occurrences(line, ',') != 5 ==> r == Err(WrongFieldCount(Occurrences(line, ',') + 1))
    ensures var c := Split(line, ',');
      |c| == 6 && ValidateApp(c[2]).Fail? ==> r == Err(ValidateApp(c[2]).error)
    ensures var c := Split(line, ',');
      |c| == 6 && ValidateApp(c[2]) == Pass && ValidateAction(c[3]).Fail? ==> r == Err(InvalidAction(c[3]))
    ensures var c := Split(line, ',');
      |c| == 6 && ValidateApp(c[2]) == Pass && ValidateAction(c[3]) == Pass && ValidateEnvs(c[4], envName).Fail?
      ==> r == Err(ValidateEnvs(c[4], envName).error)
  {
    var c := Split(line, ',');
    if |c| != 6 then Err(WrongFieldCount(|c|))
    else match ValidateApp(c[2])
      case Fail(e) => Err(e)
      case Pass =>
        match ValidateAction(c[3])
        case Fail(e) => Err(e)
        case Pass =>
          match ValidateEnvs(c[4], envName)
          case Fail(e) => Err(e)
          case Pass => Ok(Permission(c[1], c[2], c[4], c[3]))
  }

  /** A line written from comma-free fields parses back into those fields
      whenever they pass the checks, whatever the first and last field say. */
  lemma ValidateFormattedLine(first: string, p: Permission, last: string, envName: string -> bool)
    requires ',' !in first && ',' !in p.role && ',' !in p.application && ',' !in p.action
    requires ',' !in p.environment && ',' !in last
    requires ValidateApp(p.application) == Pass && ValidateAction(p.action) == Pass
    requires ValidateEnvs(p.environment, envName) == Pass
    ensures ValidateRbacPermission(Join([first, p.role, p.application, p.action, p.environment, last], ','), envName)
      == Ok(p)
  {
    var fields := [first, p.role, p.application, p.action, p.environment, last];
    forall i | 0 <= i < |fields|
      ensures ',' !in fields[i]
    {
    }
    SplitJoin(fields, ',');
    var c := Split(Join(fields, ','), ',');
    assert c == fields;
    assert c[1] == p.role && c[2] == p.application && c[3] == p.action && c[4] == p.environment;
  }

  /** Two lines whose fields 1 to 4 agree parse the same way: fields 0 and
      5 are never inspected. */
  lemma OuterFieldsIgnored(line1: string, line2: string, envName: string -> bool)
    requires |Split(line1, ',')| == 6 && |Split(line2, ',')| == 6
    requires Split(line1, ',')[1..5] == Split(line2, ',')[1..5]
    ensures ValidateRbacPermission(line1, envName) == ValidateRbacPermission(line2, envName)
  {
    var c1, c2 := Split(line1, ','), Split(line2, ',');
    assert c1[1] == c1[1..5][0] == c2[1];
    assert c1[2] == c1[1..5][1] == c2[2];
    assert c1[3] == c1[1..5][2] == c2[3];
    assert c1[4] == c1[1..5][3] == c2[4];
  }

  /** How `ReadRbacPolicy` parses one space-free line. */
  type LineParser = string -> Result<Permission, RbacError>

  /** The parser `ReadRbacPolicy` uses: `ValidateRbacPermission` with the
      repository's environment-name check. */
  function PolicyParser(envName: string -> bool): LineParser
  {
    line => ValidateRbacPermission(line, envName)
  }

  /** The scanner loop of `ReadRbacPolicy` from the point where `acc` has
      been filled: strip the spaces from each line, parse it, store it
      under the stripped line; the first invalid line aborts. */
  function PolicyTable(acc: map<string, Permission>, lines: seq<string>, parse: LineParser)
    : Result<map<string, Permission>, RbacError>
    decreases |lines|
  {
    if |lines| == 0 then Ok(acc)
    else
      var line := RemoveSpaces(lines[0]);
      match parse(line)
      case Err(e) => Err(e)
      case Ok(p) => PolicyTable(acc[line := p], lines[1..], parse)
  }

  /** What `ReadRbacPolicy` returns for the lines of the policy file: no
      policy when dex is disabled, otherwise the table, which must not be
      empty. */
  function PolicyFromLines(dexEnabled: bool, lines: seq<string>, parse: LineParser)
    : Result<Option<map<string, Permission>>, RbacError>
  {
    if !dexEnabled then Ok(None)
    else match PolicyTable(map[], lines, parse)
      case Err(e) => Err(e)
      case Ok(m) => if |m| == 0 then Err(MissingPolicy) else Ok(Some(m))
  }

  /** The keys a list of policy lines produces. */
  ghost function StrippedLines(lines: seq<string>): set<string>
  {
    set i | 0 <= i < |lines| :: RemoveSpaces(lines[i])
  }

  /** Every entry of the table is a key mapped to what it parses to. */
  ghost predicate ParsedEntries(m: map<string, Permission>, parse: LineParser)
  {
    forall k :: k in m ==> parse(k) == Ok(m[k])
  }

  /** `ReadRbacPolicy`. The lines of `policy.csv` are given, so opening and
      scanning the file is not part of the model. */
  method ReadRbacPolicy(dexEnabled: bool, lines: seq<string>, envName: string -> bool)
    returns (r: Result<Option<map<string, Permission>>, RbacError>)
    ensures r == PolicyFromLines(dexEnabled, lines, PolicyParser(envName))
  {
    if !dexEnabled {
      return Ok(None);
    }
    var parse := PolicyParser(envName);
    var policy: map<string, Permission> := map[];
    var i := 0;
    while i < |lines|
      invariant 0 <= i <= |lines|
      invariant PolicyTable(policy, lines[i..], parse) == PolicyTable(map[], lines, parse)
    {
      var line := RemoveSpaces(lines[i]);
      var p := ValidateRbacPermission(line, envName);
      assert p == parse(line);
      assert lines[i..][0] == lines[i] && lines[i..][1..] == lines[i + 1..];
      if p.Err? {
        return Err(p.error);
      }
      policy := policy[line := p.value];
      i := i + 1;
    }
    assert lines[i..] == [];
    if |policy| == 0 {
      return Err(MissingPolicy);
    }
    return Ok(Some(policy));
  }

  /** The table is built exactly when every line parses. */
  lemma {:induction false} PolicyTableOkIffAllValid(acc: map<string, Permission>, lines: seq<string>, parse: LineParser)
    ensures PolicyTable(acc, lines, parse).Ok? <==>
      forall i :: 0 <= i < |lines| ==> parse(RemoveSpaces(lines[i])).Ok?
    decreases |lines|
  {
    if |lines| > 0 {
      var line := RemoveSpaces(lines[0]);
      if parse(line).Ok? {
        PolicyTableOkIffAllValid(acc[line := parse(line).value], lines[1..], parse);
        assert forall i :: 0 < i < |lines| ==> lines[i] == lines[1..][i - 1];
      }
    }
  }

  /** An invalid line after only valid ones aborts the whole table with its
      own error. */
  lemma {:induction false} PolicyTableFirstError(acc: map<string, Permission>, lines: seq<string>, parse: LineParser,
                                                 i: nat, e: RbacError)
    requires i < |lines|
    requires forall j :: 0 <= j < i ==> parse(RemoveSpaces(lines[j])).Ok?
    requires parse(RemoveSpaces(lines[i])) == Err(e)
    ensures PolicyTable(acc, lines, parse) == Err(e)
    decreases i
  {
    if i > 0 {
      var line := RemoveSpaces(lines[0]);
      assert parse(line).Ok?;
      assert forall j :: 0 <= j < i - 1 ==> lines[1..][j] == lines[j + 1];
      PolicyTableFirstError(acc[line := parse(line).value], lines[1..], parse, i - 1, e);
    }
  }

  /** A built table holds what it started with plus one entry per line,
      keyed by the stripped line and holding the line's parse. */
  lemma {:induction false} PolicyTableEntries(acc: map<string, Permission>, lines: seq<string>, parse: LineParser)
    requires ParsedEntries(acc, parse)
    requires PolicyTable(acc, lines, parse).Ok?
    ensures PolicyTable(acc, lines, parse).value.Keys == acc.Keys + StrippedLines(lines)
    ensures ParsedEntries(PolicyTable(acc, lines, parse).value, parse)
    decreases |lines|
  {
    if |lines| > 0 {
      var line := RemoveSpaces(lines[0]);
      PolicyTableEntries(acc[line := parse(line).value], lines[1..], parse);
      assert StrippedLines(lines) == {line} + StrippedLines(lines[1..]) by {
        forall k | k in StrippedLines(lines)
          ensures k in {line} + StrippedLines(lines[1..])
        {
          var i :| 0 <= i < |lines| && k == RemoveSpaces(lines[i]);
          if i > 0 { assert lines[i] == lines[1..][i - 1]; }
        }
        forall k | k in StrippedLines(lines[1..])
          ensures k in StrippedLines(lines)
        {
          var i :| 0 <= i < |lines[1..]| && k == RemoveSpaces(lines[1..][i]);
          assert lines[1..][i] == lines[i + 1];
        }
      }
    } else {
      assert StrippedLines(lines) == {};
    }
  }

  /** With dex enabled, the policy is built exactly when there is at least
      one line and every line is valid; it then maps each stripped line,
      and nothing else, to that line's parse. An empty file is the
      dedicated `MissingPolicy` error. */
  lemma PolicyFromLinesContents(lines: seq<string>, parse: LineParser)
    ensures PolicyFromLines(true, lines, parse).Ok? <==>
      |lines| > 0 && forall i :: 0 <= i < |lines| ==> parse(RemoveSpaces(lines[i])).Ok?
    ensures |lines| == 0 ==> PolicyFromLines(true, lines, parse) == Err(MissingPolicy)
    ensures PolicyFromLines(true, lines, parse).Ok? ==>
      var m := PolicyFromLines(true, lines, parse).value;
      m.Some? && m.value.Keys == StrippedLines(lines) && ParsedEntries(m.value, parse)
  {
    PolicyTableOkIffAllValid(map[], lines, parse);
    if PolicyTable(map[], lines, parse).Ok? {
      PolicyTableEntries(map[], lines, parse);
      if |lines| > 0 {
        assert RemoveSpaces(lines[0]) in StrippedLines(lines);
      }
    }
  }

  /** The key `CheckUserPermissions` looks up:
      `p,<role>,<application>,<action>,<env>:<envGroup>,allow`. */
  function PermissionKey(role: string, application: string, action: string, env: string, envGroup: string): string
  {
    "p" + "," + (role + "," + (application + "," + (action + "," + ((env + ":" + envGroup) + "," + "allow"))))
  }

  /** The key is the join of its six fields. */
  lemma PermissionKeyFields(role: string, application: string, action: string, env: string, envGroup: string)
    ensures PermissionKey(role, application, action, env, envGroup)
      == Join(["p", role, application, action, env + ":" + envGroup, "allow"], ',')
  {
    var envs := env + ":" + envGroup;
    var t4 := [envs, "allow"];
    JoinCons(envs, ["allow"], ',');
    var t3 := [action] + t4;
    JoinCons(action, t4, ',');
    var t2 := [application] + t3;
    JoinCons(application, t3, ',');
    var t1 := [role] + t2;
    JoinCons(role, t2, ',');
    JoinCons("p", t1, ',');
    assert ["p"] + t1 == ["p", role, application, action, envs, "allow"];
  }

  /** `CheckUserPermissions`: with dex disabled everything is allowed;
      otherwise the formatted key must be in the policy. `role` is the role
      of the user's dex authentication context. */
  function CheckUserPermissions(config: RbacConfig, role: string, env: string, envGroup: string,
                                application: string, action: string): (r: Outcome<RbacError>)
    ensures !config.dexEnabled ==> r == Pass
    ensures config.dexEnabled ==>
      (r == Pass <==> PermissionKey(role, application, action, env, envGroup) in config.policy)
    ensures r != Pass ==> r == Fail(PermissionDenied(PermissionKey(role, application, action, env, envGroup)))
  {
    if !config.dexEnabled then Pass
    else
      var wanted := PermissionKey(role, application, action, env, envGroup);
      if wanted in config.policy then Pass else Fail(PermissionDenied(wanted))
  }

  /** A key with exactly six fields came from comma-free arguments, and
      splits back into them. */
  lemma PermissionKeySplit(role: string, application: string, action: string, env: string, envGroup: string)
    requires |Split(PermissionKey(role, application, action, env, envGroup), ',')| == 6
    ensures ',' !in role && ',' !in application && ',' !in action && ',' !in env && ',' !in envGroup
    ensures Split(PermissionKey(role, application, action, env, envGroup), ',')
      == ["p", role, application, action, env + ":" + envGroup, "allow"]
  {
    var fields := ["p", role, application, action, env + ":" + envGroup, "allow"];
    PermissionKeyFields(role, application, action, env, envGroup);
    SplitJoinCount(fields, ',');
    assert ',' !in fields[4];
  }

  /** `<env>:<envGroup>` splits into at most two parts only when neither
      part contains ':', and then into exactly those two. */
  lemma EnvPairSplit(env: string, envGroup: string)
    requires |Split(env + ":" + envGroup, ':')| <= 2
    ensures ':' !in env && ':' !in envGroup
    ensures Split(env + ":" + envGroup, ':') == [env, envGroup]
  {
    assert env + ":" + envGroup == Join([env, envGroup], ':');
    JoinOccurrences([env, envGroup], ':');
    SplitJoinCount([env, envGroup], ':');
  }

  /** A key present in a policy read from lines is space-free and parses
      to its entry. */
  lemma PolicyKeyParses(lines: seq<string>, envName: string -> bool, policy: map<string, Permission>, key: string)
    requires PolicyFromLines(true, lines, PolicyParser(envName)) == Ok(Some(policy))
    requires key in policy
    ensures ' ' !in key
    ensures ValidateRbacPermission(key, envName) == Ok(policy[key])
  {
    PolicyFromLinesContents(lines, PolicyParser(envName));
    assert key in StrippedLines(lines);
    var i :| 0 <= i < |lines| && key == RemoveSpaces(lines[i]);
    assert PolicyParser(envName)(key) == Ok(policy[key]);
  }

  /** Every argument of a space-free key is space-free. */
  lemma KeyArgumentsSpaceFree(role: string, application: string, action: string, env: string, envGroup: string)
    requires ' ' !in PermissionKey(role, application, action, env, envGroup)
    ensures ' ' !in role && ' ' !in application && ' ' !in action && ' ' !in env && ' ' !in envGroup
  {
    var envs := env + ":" + envGroup;
    var t4 := envs + "," + "allow";
    var t3 := action + "," + t4;
    var t2 := application + "," + t3;
    var t1 := role + "," + t2;
    assert ' ' !in t1;
    assert ' ' !in t2;
    assert ' ' !in t3;
    assert ' ' !in t4;
    assert ' ' !in envs;
  }

  /** A key that validates has valid, separator-free arguments and
      parses to the requested permission. */
  lemma ValidKeyArguments(role: string, application: string, action: string, env: string, envGroup: string,
                          envName: string -> bool, p: Permission)
    requires ValidateRbacPermission(PermissionKey(role, application, action, env, envGroup), envName) == Ok(p)
    ensures ',' !in role && ',' !in application && ',' !in action && ',' !in env && ',' !in envGroup
    ensures ValidateApp(application) == Pass && ValidateAction(action) == Pass
    ensures ':' !in env && ':' !in envGroup && envName(env) && envName(envGroup)
    ensures p == Permission(role, application, env + ":" + envGroup, action)
  {
    PermissionKeySplit(role, application, action, env, envGroup);
    EnvPairSplit(env, envGroup);
  }

  /** A permission granted by a policy that `ReadRbacPolicy` built is a
      well-formed one: no field of the request contains a comma or a space,
      the application and action are allowed, environment and group
      are both environment names without ':', and the stored entry is the
      requested permission. */
  lemma GrantedPermissionIsValid(lines: seq<string>, envName: string -> bool, policy: map<string, Permission>,
                                 role: string, env: string, envGroup: string, application: string, action: string)
    requires PolicyFromLines(true, lines, PolicyParser(envName)) == Ok(Some(policy))
    requires CheckUserPermissions(RbacConfig(true, policy), role, env, envGroup, application, action) == Pass
    ensures ',' !in role && ',' !in application && ',' !in action && ',' !in env && ',' !in envGroup
    ensures ' ' !in role && ' ' !in application && ' ' !in action && ' ' !in env && ' ' !in envGroup
    ensures ValidateApp(application) == Pass && ValidateAction(action) == Pass
    ensures ':' !in env && ':' !in envGroup && envName(env) && envName(envGroup)
    ensures policy[PermissionKey(role, application, action, env, envGroup)]
      == Permission(role, application, env + ":" + envGroup, action)
  {
    var key := PermissionKey(role, application, action, env, envGroup);
    PolicyKeyParses(lines, envName, policy, key);
    KeyArgumentsSpaceFree(role, application, action, env, envGroup);
    ValidKeyArguments(role, application, action, env, envGroup, envName, policy[key]);
  }
}
